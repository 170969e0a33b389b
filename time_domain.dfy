/** TimeDomain.splitComponents and parseTimeDomainString: whitespace removal, the outer
    brackets, and the search for the first `(X){Y}` with X and Y drawn from {t, h, m, 0-9}. */
module TimeDomain {
  import opened Wrappers
  import opened Components
  import opened DayOfWeekDomain

  /** What splitComponents throws: UnsupportedTimeDomainTypeException with its message, or
      the StringIndexOutOfBoundsException of substring(1, length - 1) on a stripped input
      shorter than two characters. */
  datatype SplitError = UnsupportedTimeDomainType(message: string) | StringIndexOutOfBounds

  /** Regex `\s`: space, tab, newline, vertical tab, form feed and carriage return. */
  predicate IsWhitespace(c: char) {
    c == ' ' || c == '\t' || c == '\n' || c == 11 as char || c == 12 as char || c == '\r'
  }

  /** replaceAll("\\s+", ""): every run of whitespace replaced by nothing. */
  function StripWhitespace(s: string): (r: string)
    ensures |r| <= |s|
    ensures forall k :: 0 <= k < |r| ==> !IsWhitespace(r[k])
  {
    if s == [] then []
    else (if IsWhitespace(s[0]) then [] else [s[0]]) + StripWhitespace(s[1..])
  }

  /** Stripping works character by character: it distributes over concatenation. */
  lemma {:induction false} StripWhitespaceConcat(a: string, b: string)
    ensures StripWhitespace(a + b) == StripWhitespace(a) + StripWhitespace(b)
  {
    if a == [] {
      assert a + b == b;
    } else {
      assert (a + b)[0] == a[0];
      assert (a + b)[1..] == a[1..] + b;
      StripWhitespaceConcat(a[1..], b);
    }
  }

  /** A string with no whitespace is left as it is. */
  lemma {:induction false} StripWhitespaceFixes(s: string)
    requires forall k :: 0 <= k < |s| ==> !IsWhitespace(s[k])
    ensures StripWhitespace(s) == s
  {
    if s != [] {
      StripWhitespaceFixes(s[1..]);
    }
  }

  /** Stripping twice is stripping once. */
  lemma StripWhitespaceIdempotent(s: string)
    ensures StripWhitespace(StripWhitespace(s)) == StripWhitespace(s)
  {
    StripWhitespaceFixes(StripWhitespace(s));
  }

  /** Every non-whitespace character survives as often as it occurs; no whitespace does. */
  lemma {:induction false} StripWhitespaceCounts(s: string, c: char)
    ensures multiset(StripWhitespace(s))[c] == if IsWhitespace(c) then 0 else multiset(s)[c]
  {
    if s != [] {
      assert s == [s[0]] + s[1..];
      StripWhitespaceCounts(s[1..], c);
    }
  }

  /** The character class `[thm[0-9]]`: t, h, m and the ASCII digits. */
  predicate InGroupClass(c: char) {
    c == 't' || c == 'h' || c == 'm' || '0' <= c <= '9'
  }

  predicate AllInGroupClass(x: string) {
    forall k :: 0 <= k < |x| ==> InGroupClass(x[k])
  }

  /** The end of the greedy run `[thm[0-9]]+` starting at `from`. */
  function GroupEnd(s: string, from: nat): (j: nat)
    requires from <= |s|
    ensures from <= j <= |s|
    ensures forall k :: from <= k < j ==> InGroupClass(s[k])
    ensures j < |s| ==> !InGroupClass(s[j])
    decreases |s| - from
  {
    if from < |s| && InGroupClass(s[from]) then GroupEnd(s, from + 1) else from
  }

  /** A run of class characters closed by a character outside the class ends there. */
  lemma {:induction false} GroupEndAt(s: string, from: nat, j: nat)
    requires from <= j < |s| && !InGroupClass(s[j])
    requires forall k :: from <= k < j ==> InGroupClass(s[k])
    ensures GroupEnd(s, from) == j
    decreases j - from
  {
    if from < j {
      GroupEndAt(s, from + 1, j);
    }
  }

  /** The pattern `\(([thm[0-9]]+)\)\{([thm[0-9]]+)\}` tried at position i. Neither `)` nor
      `}` is in the class, so each greedy group can only end at the end of its run. */
  function MatchAt(s: string, i: nat): Option<TimeDomainComponents> {
    if i < |s| && s[i] == '(' then
      var j := GroupEnd(s, i + 1);
      if i + 1 < j && j + 1 < |s| && s[j] == ')' && s[j + 1] == '{' then
        var k := GroupEnd(s, j + 2);
        if j + 2 < k < |s| && s[k] == '}'
        then Some(TimeDomainComponents(s[i + 1..j], s[j + 2..k]))
        else None
      else None
    else None
  }

  /** The text `(x){y}` stands at position i, with x and y non-empty class strings. */
  predicate IsOccurrence(s: string, i: nat, x: string, y: string) {
    && |x| > 0 && |y| > 0 && AllInGroupClass(x) && AllInGroupClass(y)
    && i + |x| + |y| + 4 <= |s|
    && s[i..i + |x| + |y| + 4] == "(" + x + "){" + y + "}"
  }

  /** Characters laid out as `(x){y}` at i form an occurrence. */
  lemma OccurrenceFromLayout(s: string, i: nat, x: string, y: string)
    requires |x| > 0 && |y| > 0 && AllInGroupClass(x) && AllInGroupClass(y)
    requires i + |x| + |y| + 4 <= |s|
    requires s[i] == '(' && s[i + 1 + |x|] == ')' && s[i + 2 + |x|] == '{' && s[i + 3 + |x| + |y|] == '}'
    requires s[i + 1..i + 1 + |x|] == x && s[i + 3 + |x|..i + 3 + |x| + |y|] == y
    ensures IsOccurrence(s, i, x, y)
  {
    var w := "(" + x + "){" + y + "}";
    forall p | 0 <= p < |w|
      ensures s[i + p] == w[p]
    {
      if 1 <= p <= |x| {
        assert w[p] == x[p - 1] == s[i + 1..i + 1 + |x|][p - 1];
      } else if |x| + 3 <= p < |w| - 1 {
        assert w[p] == y[p - |x| - 3] == s[i + 3 + |x|..i + 3 + |x| + |y|][p - |x| - 3];
      }
    }
    assert s[i..i + |w|] == w;
  }

  /** The pattern matches at i exactly when an occurrence stands there, and its groups are
      that occurrence's two strings. */
  lemma MatchAtSound(s: string, i: nat)
    requires MatchAt(s, i).Some?
    ensures IsOccurrence(s, i, MatchAt(s, i).value.startString, MatchAt(s, i).value.durationString)
  {
    var j := GroupEnd(s, i + 1);
    var k := GroupEnd(s, j + 2);
    var x, y := s[i + 1..j], s[j + 2..k];
    assert MatchAt(s, i).value == TimeDomainComponents(x, y);
    assert AllInGroupClass(x) && AllInGroupClass(y);
    OccurrenceFromLayout(s, i, x, y);
  }

  /** Where the characters of an occurrence `(x){y}` at i stand in s. */
  lemma OccurrenceLayout(s: string, i: nat, x: string, y: string)
    requires IsOccurrence(s, i, x, y)
    ensures s[i] == '(' && s[i + 1 + |x|] == ')' && s[i + 2 + |x|] == '{' && s[i + 3 + |x| + |y|] == '}'
    ensures s[i + 1..i + 1 + |x|] == x && s[i + 3 + |x|..i + 3 + |x| + |y|] == y
  {
    var n := |x| + |y| + 4;
    var w := "(" + x + "){" + y + "}";
    assert s[i..i + n] == w;
    assert forall p :: 0 <= p < n ==> s[i + p] == w[p];
    assert w[0] == '(' && w[1 + |x|] == ')' && w[2 + |x|] == '{' && w[3 + |x| + |y|] == '}';
    assert w[1..1 + |x|] == x && w[3 + |x|..3 + |x| + |y|] == y;
    assert s[i + 1..i + 1 + |x|] == w[1..1 + |x|];
    assert s[i + 3 + |x|..i + 3 + |x| + |y|] == w[3 + |x|..3 + |x| + |y|];
  }

  lemma MatchAtComplete(s: string, i: nat, x: string, y: string)
    requires IsOccurrence(s, i, x, y)
    ensures MatchAt(s, i) == Some(TimeDomainComponents(x, y))
  {
    var j := i + 1 + |x|;
    var k := j + 2 + |y|;
    OccurrenceLayout(s, i, x, y);
    assert forall p :: i + 1 <= p < j ==> s[p] == x[p - i - 1];
    assert forall p :: j + 2 <= p < k ==> s[p] == y[p - j - 2];
    GroupEndAt(s, i + 1, j);
    GroupEndAt(s, j + 2, k);
  }

  lemma MatchAtIff(s: string, i: nat, x: string, y: string)
    ensures MatchAt(s, i) == Some(TimeDomainComponents(x, y)) <==> IsOccurrence(s, i, x, y)
  {
    if MatchAt(s, i) == Some(TimeDomainComponents(x, y)) {
      MatchAtSound(s, i);
    }
    if IsOccurrence(s, i, x, y) {
      MatchAtComplete(s, i, x, y);
    }
  }

  /** Matcher.find(): the leftmost position at or after `from` where the pattern matches. */
  function FindFrom(s: string, from: nat): (r: Option<nat>)
    requires from <= |s|
    ensures r.Some? ==> from <= r.value < |s| && MatchAt(s, r.value).Some?
    ensures r.Some? ==> forall p :: from <= p < r.value ==> MatchAt(s, p).None?
    ensures r.None? ==> forall p :: from <= p ==> MatchAt(s, p).None?
    decreases |s| - from
  {
    if from == |s| then None
    else if MatchAt(s, from).Some? then Some(from)
    else FindFrom(s, from + 1)
  }

  function UnsupportedTypeMessage(inner: string): string {
    "Only day-of-week time domains are currently supported (" + inner + ")"
  }

  /** The text the pattern is searched in: the stripped input without its first and last
      character, or the substring exception. */
  function Inner(td: string): (r: Result<string, SplitError>)
    ensures r.Failure? <==> |StripWhitespace(td)| < 2
    ensures r.Failure? ==> r.error == StringIndexOutOfBounds
    ensures r.Success? ==> |r.value| == |StripWhitespace(td)| - 2
    ensures r.Success? ==> forall k :: 0 <= k < |r.value| ==> r.value[k] == StripWhitespace(td)[k + 1]
  {
    var stripped := StripWhitespace(td);
    if |stripped| < 2 then Failure(StringIndexOutOfBounds)
    else Success(stripped[1..|stripped| - 1])
  }

  /** splitComponents(td): the substring exception for fewer than two characters, else the
      groups of an occurrence of `(X){Y}` in the inner text, else the unsupported-type
      exception quoting the inner text. */
  function SplitComponents(td: string): (r: Result<TimeDomainComponents, SplitError>)
    ensures Inner(td).Failure? ==> r == Failure(StringIndexOutOfBounds)
    ensures r.Success? ==> Inner(td).Success?
    ensures r.Success? ==> exists i: nat :: IsOccurrence(Inner(td).value, i, r.value.startString, r.value.durationString)
    ensures r.Failure? && Inner(td).Success? ==>
              r.error == UnsupportedTimeDomainType(UnsupportedTypeMessage(Inner(td).value))
  {
    match Inner(td)
    case Failure(e) => Failure(e)
    case Success(inner) =>
      match FindFrom(inner, 0)
      case None => Failure(UnsupportedTimeDomainType(UnsupportedTypeMessage(inner)))
      case Some(i) =>
        MatchAtSound(inner, i);
        Success(MatchAt(inner, i).value)
  }

  /** Splitting succeeds exactly when the inner text holds an occurrence of `(X){Y}`; when it
      does not, the exception message quotes the inner text. */
  lemma SplitSucceedsIff(td: string)
    requires Inner(td).Success?
    ensures SplitComponents(td).Success?
        <==> exists i: nat, x: string, y: string :: IsOccurrence(Inner(td).value, i, x, y)
    ensures SplitComponents(td).Failure?
        ==> SplitComponents(td).error == UnsupportedTimeDomainType(UnsupportedTypeMessage(Inner(td).value))
  {
    var inner := Inner(td).value;
    match FindFrom(inner, 0)
    case None =>
      forall i: nat, x: string, y: string | IsOccurrence(inner, i, x, y)
        ensures false
      {
        MatchAtComplete(inner, i, x, y);
      }
    case Some(i) =>
      MatchAtSound(inner, i);
  }

  /** The result is the first occurrence: it stands at some position, and no occurrence at
      all stands before it. */
  lemma SplitFindsFirstOccurrence(td: string)
    requires SplitComponents(td).Success?
    ensures var c := SplitComponents(td).value;
            var inner := Inner(td).value;
            exists i: nat :: (&& IsOccurrence(inner, i, c.startString, c.durationString)
                              && forall p: nat, x: string, y: string :: p < i ==> !IsOccurrence(inner, p, x, y))
  {
    var inner := Inner(td).value;
    var i := FindFrom(inner, 0).value;
    MatchAtSound(inner, i);
    forall p: nat, x: string, y: string | p < i
      ensures !IsOccurrence(inner, p, x, y)
    {
      if IsOccurrence(inner, p, x, y) {
        MatchAtComplete(inner, p, x, y);
      }
    }
  }

  /** Both split strings are non-empty and drawn from the class, so a duration with a `d`
      token can never come out of the splitter. */
  lemma SplitStringsInClass(td: string)
    requires SplitComponents(td).Success?
    ensures var c := SplitComponents(td).value;
            && |c.startString| > 0 && |c.durationString| > 0
            && AllInGroupClass(c.startString) && AllInGroupClass(c.durationString)
            && 'd' !in c.startString && 'd' !in c.durationString
  {
    var inner := Inner(td).value;
    MatchAtSound(inner, FindFrom(inner, 0).value);
  }

  /** A string and its whitespace-stripped form split identically. */
  lemma SplitIgnoresWhitespace(td: string)
    ensures SplitComponents(StripWhitespace(td)) == SplitComponents(td)
  {
    StripWhitespaceIdempotent(td);
    assert Inner(StripWhitespace(td)) == Inner(td);
  }

  /** The first and last non-whitespace characters are dropped, whatever they are. */
  lemma SplitIgnoresBrackets(open: char, s: string, close: char)
    requires !IsWhitespace(open) && !IsWhitespace(close)
    ensures SplitComponents([open] + s + [close]) == SplitComponents("[" + s + "]")
  {
    StripWhitespaceConcat([open] + s, [close]);
    StripWhitespaceConcat([open], s);
    StripWhitespaceConcat("[" + s, "]");
    StripWhitespaceConcat("[", s);
    var t := StripWhitespace(s);
    assert StripWhitespace([open] + s + [close]) == [open] + t + [close];
    assert StripWhitespace("[" + s + "]") == "[" + t + "]";
    assert ([open] + t + [close])[1..|t| + 1] == t;
    assert ("[" + t + "]")[1..|t| + 1] == t;
  }

  /** parseTimeDomainString(td): the split is attempted and its result dropped; an
      unsupported domain is caught and yields null too, while the substring exception of a
      too-short input propagates. */
  function ParseTimeDomainString(td: string): (r: Result<Option<DayOfWeekTimeDomain>, SplitError>)
    ensures r.Success? ==> r.value.None?
    ensures r.Failure? <==> SplitComponents(td) == Failure(StringIndexOutOfBounds)
    ensures r.Failure? ==> r.error == StringIndexOutOfBounds
  {
    match SplitComponents(td)
    case Failure(StringIndexOutOfBounds) => Failure(StringIndexOutOfBounds)
    case _ => Success(None)
  }

  /** A bracketed text without whitespace loses exactly its two brackets. */
  lemma InnerOfBracketed(inner: string)
    requires forall k :: 0 <= k < |inner| ==> !IsWhitespace(inner[k])
    ensures Inner("[" + inner + "]") == Success(inner)
  {
    var td := "[" + inner + "]";
    assert forall k :: 0 <= k < |td| ==> !IsWhitespace(td[k]) by {
      assert forall k :: 1 <= k <= |inner| ==> td[k] == inner[k - 1];
    }
    StripWhitespaceFixes(td);
    assert td[1..|td| - 1] == inner;
  }

  /** The canonical form `[(X){Y}]` splits into X and Y. */
  lemma SplitOfOccurrence(x: string, y: string)
    requires |x| > 0 && |y| > 0 && AllInGroupClass(x) && AllInGroupClass(y)
    ensures SplitComponents("[(" + x + "){" + y + "}]") == Success(TimeDomainComponents(x, y))
  {
    var inner := "(" + x + "){" + y + "}";
    assert "[(" + x + "){" + y + "}]" == "[" + inner + "]";
    assert forall k :: 0 <= k < |inner| ==> !IsWhitespace(inner[k]) by {
      assert forall k :: 1 <= k <= |x| ==> inner[k] == x[k - 1];
      assert forall k :: |x| + 3 <= k < |x| + 3 + |y| ==> inner[k] == y[k - |x| - 3];
    }
    InnerOfBracketed(inner);
    assert inner[0..|inner|] == inner;
    MatchAtComplete(inner, 0, x, y);
  }

  lemma SplitWeekdayExample()
    ensures SplitComponents("[(t2t3h11m30){h2m30}]") == Success(TimeDomainComponents("t2t3h11m30", "h2m30"))
  {
    assert "[(t2t3h11m30){h2m30}]" == "[(" + "t2t3h11m30" + "){" + "h2m30" + "}]";
    SplitOfOccurrence("t2t3h11m30", "h2m30");
  }

  /** A search text in which every `{` is followed by `d` has no occurrence. */
  lemma NoOccurrenceBeforeDayToken(inner: string)
    requires forall k :: 0 <= k < |inner| - 1 && inner[k] == '{' ==> inner[k + 1] == 'd'
    ensures FindFrom(inner, 0) == None
  {
    match FindFrom(inner, 0)
    case None =>
    case Some(i) =>
      assert false;
  }

  /** Bracketed text without whitespace in which the pattern matches nowhere is rejected,
      quoting the text. */
  lemma SplitOfNoOccurrence(inner: string)
    requires forall k :: 0 <= k < |inner| ==> !IsWhitespace(inner[k])
    requires FindFrom(inner, 0) == None
    ensures SplitComponents("[" + inner + "]") == Failure(UnsupportedTimeDomainType(UnsupportedTypeMessage(inner)))
  {
    InnerOfBracketed(inner);
  }

  /** Without an opening parenthesis from `from` on, the pattern matches nowhere there. */
  lemma {:induction false} NoOpenParenNoMatch(s: string, from: nat)
    requires from <= |s|
    requires forall k :: from <= k < |s| ==> s[k] != '('
    ensures FindFrom(s, from) == None
    decreases |s| - from
  {
    if from < |s| {
      NoOpenParenNoMatch(s, from + 1);
    }
  }

  /** Where the characters of `(x){d1}` stand. */
  lemma DayDurationLayout(x: string)
    requires |x| > 0 && AllInGroupClass(x)
    ensures var inner := "(" + x + "){d1}";
            && |inner| == |x| + 6
            && (forall k :: 1 <= k <= |x| ==> inner[k] == x[k - 1])
            && inner[0] == '(' && inner[|x| + 1] == ')' && inner[|x| + 2] == '{'
            && inner[|x| + 3] == 'd' && inner[|x| + 4] == '1' && inner[|x| + 5] == '}'
  {
  }

  /** In `(x){d1}` there is no whitespace, and the pattern matches nowhere. */
  lemma DayDurationInner(x: string)
    requires |x| > 0 && AllInGroupClass(x)
    ensures forall k :: 0 <= k < |"(" + x + "){d1}"| ==> !IsWhitespace(("(" + x + "){d1}")[k])
    ensures FindFrom("(" + x + "){d1}", 0) == None
  {
    var inner := "(" + x + "){d1}";
    DayDurationLayout(x);
    assert forall k :: 0 <= k < |inner| ==> inner[k] in "(){}d1" || InGroupClass(inner[k]);
    assert MatchAt(inner, 0) == None by {
      GroupEndAt(inner, 1, |x| + 1);
    }
    NoOpenParenNoMatch(inner, 1);
  }

  /** A `{d1}` duration is not in the class, so no start string with it can be split. */
  lemma SplitRejectsDayDuration(x: string)
    requires |x| > 0 && AllInGroupClass(x)
    ensures SplitComponents("[(" + x + "){d1}]")
         == Failure(UnsupportedTimeDomainType(UnsupportedTypeMessage("(" + x + "){d1}")))
  {
    DayDurationInner(x);
    SplitOfNoOccurrence("(" + x + "){d1}");
    assert "[(" + x + "){d1}]" == "[" + ("(" + x + "){d1}") + "]";
  }

  /** Inputs too short to lose two brackets throw; `[]` leaves an empty search text. */
  lemma ShortInputExamples()
    ensures SplitComponents("") == Failure(StringIndexOutOfBounds)
    ensures SplitComponents(" [ ") == Failure(StringIndexOutOfBounds)
    ensures SplitComponents("[]") == Failure(UnsupportedTimeDomainType(UnsupportedTypeMessage("")))
    ensures ParseTimeDomainString("[]") == Success(None)
    ensures ParseTimeDomainString("x") == Failure(StringIndexOutOfBounds)
  {
    assert StripWhitespace(" [ ") == "[";
    assert StripWhitespace("[]") == "[]";
    assert StripWhitespace("x") == "x";
  }
}
