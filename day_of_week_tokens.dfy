/** DayOfWeekTimeDomain.fromComponents: the token scans over the start and duration
    strings, the duplicate and duration-shape checks, and the construction of the domain. */
module DayOfWeekTokens {
  import opened Wrappers
  import opened JavaTime
  import opened Components
  import opened DayOfWeekDomain

  /** What fromComponents throws: TimeDomainParseErrorException with its message, or the
      DateTimeException of DayOfWeek.of / OffsetTime.of for an out-of-range value. */
  datatype ParseFailure = TimeDomainParseError(message: string) | DateTimeError

  /** Regex `\d`: an ASCII digit. */
  predicate IsDigit(c: char) {
    '0' <= c <= '9'
  }

  function DigitValue(c: char): (n: nat)
    requires IsDigit(c)
    ensures n <= 9
  {
    c as int - '0' as int
  }

  /** A match of `marker\d` begins at position p. */
  predicate IsTokenStart(s: string, marker: char, p: nat) {
    p + 1 < |s| && s[p] == marker && IsDigit(s[p + 1])
  }

  /** One match found by Matcher.find(): its value (Integer.parseInt of the digits after
      the marker) and the position just after it, where the next search starts. */
  datatype Token = Token(start: nat, value: nat, end: nat)

  /** The match of `marker\d` (narrow) or `marker\d{1,2}+` (wide) that begins at p; the
      possessive quantifier takes a second digit whenever one follows. */
  function TokenAt(s: string, marker: char, wide: bool, p: nat): (tok: Token)
    requires IsTokenStart(s, marker, p)
    ensures tok.start == p && p + 2 <= tok.end <= p + 3 && tok.end <= |s|
    ensures tok.value <= if wide then 99 else 9
    ensures tok.end == p + 3 <==> wide && p + 2 < |s| && IsDigit(s[p + 2])
  {
    if wide && p + 2 < |s| && IsDigit(s[p + 2])
    then Token(p, 10 * DigitValue(s[p + 1]) + DigitValue(s[p + 2]), p + 3)
    else Token(p, DigitValue(s[p + 1]), p + 2)
  }

  /** Matcher.find() from position `from`: the leftmost match at or after it. */
  function NextToken(s: string, marker: char, wide: bool, from: nat): (r: Option<Token>)
    requires from <= |s|
    ensures r.Some? ==> from <= r.value.start && IsTokenStart(s, marker, r.value.start)
                        && r.value == TokenAt(s, marker, wide, r.value.start)
    ensures r.Some? ==> forall p :: from <= p < r.value.start ==> !IsTokenStart(s, marker, p)
    ensures r.None? ==> forall p :: from <= p < |s| ==> !IsTokenStart(s, marker, p)
    decreases |s| - from
  {
    if from + 1 >= |s| then None
    else if IsTokenStart(s, marker, from) then Some(TokenAt(s, marker, wide, from))
    else NextToken(s, marker, wide, from + 1)
  }

  /** The values of all matches found by repeated find() calls from `from`, in order. */
  function TokenValuesFrom(s: string, marker: char, wide: bool, from: nat): seq<nat>
    requires from <= |s|
    decreases |s| - from
  {
    match NextToken(s, marker, wide, from)
    case None => []
    case Some(tok) => [tok.value] + TokenValuesFrom(s, marker, wide, tok.end)
  }

  function TokenValues(s: string, marker: char, wide: bool): seq<nat> {
    TokenValuesFrom(s, marker, wide, 0)
  }

  /** When the next match begins at p, the values from `from` are its value followed by the
      values after it. */
  lemma TokenFrom(s: string, marker: char, wide: bool, from: nat, p: nat)
    requires from <= p && IsTokenStart(s, marker, p)
    requires forall q :: from <= q < p ==> !IsTokenStart(s, marker, q)
    ensures TokenValuesFrom(s, marker, wide, from)
         == [TokenAt(s, marker, wide, p).value] + TokenValuesFrom(s, marker, wide, TokenAt(s, marker, wide, p).end)
  {
  }

  lemma NoTokensFrom(s: string, marker: char, wide: bool, from: nat)
    requires from <= |s|
    requires forall q :: from <= q < |s| ==> !IsTokenStart(s, marker, q)
    ensures TokenValuesFrom(s, marker, wide, from) == []
  {
  }

  /** A string without the marker character holds no token of it. */
  lemma {:induction false} NoMarkerNoTokens(s: string, marker: char, wide: bool, from: nat)
    requires from <= |s|
    requires marker !in s
    ensures TokenValuesFrom(s, marker, wide, from) == []
  {
    match NextToken(s, marker, wide, from)
    case None =>
    case Some(tok) =>
      assert false;
  }

  /** Every token value is at most 99 (wide) or 9 (narrow). */
  lemma {:induction false} TokenValuesBounded(s: string, marker: char, wide: bool, from: nat)
    requires from <= |s|
    ensures forall k :: 0 <= k < |TokenValuesFrom(s, marker, wide, from)| ==>
              TokenValuesFrom(s, marker, wide, from)[k] <= if wide then 99 else 9
    decreases |s| - from
  {
    match NextToken(s, marker, wide, from)
    case None =>
    case Some(tok) =>
      TokenValuesBounded(s, marker, wide, tok.end);
  }

  /** The value the source's loop leaves in its variable: the last match, or the initial 0. */
  function LastOr(xs: seq<nat>, default: nat): (r: nat)
    ensures xs == [] ==> r == default
    ensures xs != [] ==> r == xs[|xs| - 1]
  {
    if xs == [] then default else xs[|xs| - 1]
  }

  /** The weekday that one `t` digit denotes: the digit minus one, with 0 read as 7, passed to
      DayOfWeek.of. So 1 and 8 mean Sunday, 2..7 mean Monday..Saturday, and 0 and 9 make
      DayOfWeek.of throw. */
  function DayOfCode(raw: nat): (r: Option<DayOfWeek>)
    ensures r.Some? <==> 1 <= raw <= 8
    ensures r.Some? ==> (r.value == Sunday <==> raw == 1 || raw == 8)
    ensures 2 <= raw <= 7 ==> r == Some(DayOfWeekOf(raw - 1))
  {
    var adjusted := raw - 1;
    var adjusted' := if adjusted == 0 then 7 else adjusted;
    if 1 <= adjusted' <= 7 then Some(DayOfWeekOf(adjusted')) else None
  }

  /** The set the day loop builds from the `t` digits, or None when one of them makes
      DayOfWeek.of throw. Repeated days collapse into one set element. */
  function ActiveDaysOf(codes: seq<nat>): (r: Option<set<DayOfWeek>>)
    ensures r.Some? <==> forall k :: 0 <= k < |codes| ==> 1 <= codes[k] <= 8
  {
    if codes == [] then Some({})
    else
      var init := codes[..|codes| - 1];
      var last := codes[|codes| - 1];
      assert forall k :: 0 <= k < |init| ==> init[k] == codes[k];
      match (ActiveDaysOf(init), DayOfCode(last))
      case (Some(days), Some(d)) => Some(days + {d})
      case (_, _) => None
  }

  /** The days are exactly the weekdays that the codes denote. */
  lemma {:induction false} ActiveDaysOfContents(codes: seq<nat>, d: DayOfWeek)
    requires ActiveDaysOf(codes).Some?
    ensures d in ActiveDaysOf(codes).value <==> exists k :: 0 <= k < |codes| && DayOfCode(codes[k]) == Some(d)
  {
    if codes != [] {
      var init := codes[..|codes| - 1];
      assert forall k :: 0 <= k < |init| ==> init[k] == codes[k];
      ActiveDaysOfContents(init, d);
      if d in ActiveDaysOf(init).value {
        var k :| 0 <= k < |init| && DayOfCode(init[k]) == Some(d);
        assert DayOfCode(codes[k]) == Some(d);
      }
    }
  }

  /** One more `t` digit: the set grows by its weekday, or the scan fails. */
  lemma ActiveDaysOfSnoc(codes: seq<nat>, raw: nat)
    ensures ActiveDaysOf(codes + [raw])
         == if ActiveDaysOf(codes).Some? && DayOfCode(raw).Some?
            then Some(ActiveDaysOf(codes).value + {DayOfCode(raw).value})
            else None
  {
    assert (codes + [raw])[..|codes|] == codes;
  }

  /** A digit that DayOfWeek.of rejects anywhere in the codes makes the whole scan fail. */
  lemma InvalidCodeRejects(codes: seq<nat>, k: nat)
    requires k < |codes| && DayOfCode(codes[k]).None?
    ensures ActiveDaysOf(codes).None?
  {
  }

  /** The messages of the exceptions fromComponents throws. */
  function MultipleMessage(what: string, c: TimeDomainComponents): string {
    "Multiple " + what + " components in time domain: " + ToString(c)
  }

  function UnsupportedMessage(c: TimeDomainComponents): string {
    "Unsupported time domain: " + ToString(c)
  }

  /** The arguments fromComponents passes to the constructor (besides the offset). */
  datatype Settings = Settings(activeDays: set<DayOfWeek>, startHour: nat, startMinute: nat,
                               durationHour: nat, durationMinute: nat)

  /** The constructor call at the end of fromComponents: OffsetTime.of throws unless the
      start is a time of day. */
  function Construct(days: set<DayOfWeek>, startHour: nat, startMinute: nat,
                     durationHour: nat, durationMinute: nat): (r: Result<Settings, ParseFailure>)
    ensures r.Success? <==> IsTimeOfDay(startHour, startMinute)
    ensures r.Success? ==> r.value == Settings(days, startHour, startMinute, durationHour, durationMinute)
    ensures r.Failure? ==> r.error == DateTimeError
  {
    if IsTimeOfDay(startHour, startMinute)
    then Success(Settings(days, startHour, startMinute, durationHour, durationMinute))
    else Failure(DateTimeError)
  }

  /** The duration check: an hour/minute duration with no day token, or a single whole day
      (`d1`) from midnight, which becomes 24h0m. */
  function CheckDuration(c: TimeDomainComponents, days: set<DayOfWeek>, startHour: nat, startMinute: nat,
                         durationHour: nat, durationMinute: nat, durationDay: nat): (r: Result<Settings, ParseFailure>)
    ensures r.Success? ==> IsTimeOfDay(r.value.startHour, r.value.startMinute)
    ensures r.Success? ==> 0 < r.value.durationHour * 60 + r.value.durationMinute
    ensures r.Success? ==> (
      || (durationDay == 0 && r.value.durationHour == durationHour && r.value.durationMinute == durationMinute)
      || (&& durationDay == 1 && durationHour == 0 && durationMinute == 0 && startHour == 0 && startMinute == 0
          && r.value.durationHour == 24 && r.value.durationMinute == 0))
    ensures durationDay >= 2 ==> r == Failure(TimeDomainParseError(UnsupportedMessage(c)))
    ensures durationHour == 0 && durationMinute == 0 && durationDay == 0 ==>
              r == Failure(TimeDomainParseError(UnsupportedMessage(c)))
    ensures durationDay == 1 && (durationHour > 0 || durationMinute > 0 || startHour > 0 || startMinute > 0) ==>
              r == Failure(TimeDomainParseError(UnsupportedMessage(c)))
    ensures durationDay == 0 && (durationHour > 0 || durationMinute > 0) ==>
              r == Construct(days, startHour, startMinute, durationHour, durationMinute)
    ensures durationDay == 1 && durationHour == 0 && durationMinute == 0 && startHour == 0 && startMinute == 0 ==>
              r == Construct(days, 0, 0, 24, 0)
  {
    if (durationMinute > 0 || durationHour > 0) && durationDay == 0 then
      Construct(days, startHour, startMinute, durationHour, durationMinute)
    else if durationMinute == 0 && durationHour == 0 && durationDay == 1 && startHour == 0 && startMinute == 0 then
      Construct(days, startHour, startMinute, 24, 0)
    else
      Failure(TimeDomainParseError(UnsupportedMessage(c)))
  }

  /** What fromComponents computes from the two strings, in the order the source checks:
      the day tokens, then duplicate start hour, start minute, duration hour, duration
      minute and duration day tokens, then the duration shape, then the start time. */
  function Resolve(c: TimeDomainComponents): (r: Result<Settings, ParseFailure>)
    ensures ActiveDaysOf(TokenValues(c.startString, 't', false)).None? ==> r == Failure(DateTimeError)
    ensures (ActiveDaysOf(TokenValues(c.startString, 't', false)).Some? && |TokenValues(c.startString, 'h', true)| > 1)
              ==> r == Failure(TimeDomainParseError(MultipleMessage("hour", c)))
    ensures (&& ActiveDaysOf(TokenValues(c.startString, 't', false)).Some?
             && |TokenValues(c.startString, 'h', true)| <= 1
             && |TokenValues(c.startString, 'm', true)| > 1)
              ==> r == Failure(TimeDomainParseError(MultipleMessage("minute", c)))
    ensures (&& ActiveDaysOf(TokenValues(c.startString, 't', false)).Some?
             && |TokenValues(c.startString, 'h', true)| <= 1 && |TokenValues(c.startString, 'm', true)| <= 1
             && |TokenValues(c.durationString, 'h', true)| > 1)
              ==> r == Failure(TimeDomainParseError(MultipleMessage("hour", c)))
    ensures (&& ActiveDaysOf(TokenValues(c.startString, 't', false)).Some?
             && |TokenValues(c.startString, 'h', true)| <= 1 && |TokenValues(c.startString, 'm', true)| <= 1
             && |TokenValues(c.durationString, 'h', true)| <= 1
             && |TokenValues(c.durationString, 'm', true)| > 1)
              ==> r == Failure(TimeDomainParseError(MultipleMessage("minute", c)))
    ensures (&& ActiveDaysOf(TokenValues(c.startString, 't', false)).Some?
             && |TokenValues(c.startString, 'h', true)| <= 1 && |TokenValues(c.startString, 'm', true)| <= 1
             && |TokenValues(c.durationString, 'h', true)| <= 1 && |TokenValues(c.durationString, 'm', true)| <= 1
             && |TokenValues(c.durationString, 'd', true)| > 1)
              ==> r == Failure(TimeDomainParseError(MultipleMessage("day", c)))
    ensures (&& ActiveDaysOf(TokenValues(c.startString, 't', false)).Some?
             && |TokenValues(c.startString, 'h', true)| <= 1 && |TokenValues(c.startString, 'm', true)| <= 1
             && |TokenValues(c.durationString, 'h', true)| <= 1 && |TokenValues(c.durationString, 'm', true)| <= 1
             && |TokenValues(c.durationString, 'd', true)| <= 1)
              ==> r == CheckDuration(c, ActiveDaysOf(TokenValues(c.startString, 't', false)).value,
                                     LastOr(TokenValues(c.startString, 'h', true), 0),
                                     LastOr(TokenValues(c.startString, 'm', true), 0),
                                     LastOr(TokenValues(c.durationString, 'h', true), 0),
                                     LastOr(TokenValues(c.durationString, 'm', true), 0),
                                     LastOr(TokenValues(c.durationString, 'd', true), 0))
    ensures r.Success? ==> (
      && r.value.activeDays == ActiveDaysOf(TokenValues(c.startString, 't', false)).value
      && |TokenValues(c.startString, 'h', true)| <= 1 && |TokenValues(c.startString, 'm', true)| <= 1
      && |TokenValues(c.durationString, 'h', true)| <= 1 && |TokenValues(c.durationString, 'm', true)| <= 1
      && |TokenValues(c.durationString, 'd', true)| <= 1
      && r.value.startHour == LastOr(TokenValues(c.startString, 'h', true), 0)
      && r.value.startMinute == LastOr(TokenValues(c.startString, 'm', true), 0)
      && IsTimeOfDay(r.value.startHour, r.value.startMinute)
      && 0 < r.value.durationHour * 60 + r.value.durationMinute)
    ensures r.Failure? && r.error.TimeDomainParseError? ==>
              r.error.message in {MultipleMessage("hour", c), MultipleMessage("minute", c),
                                  MultipleMessage("day", c), UnsupportedMessage(c)}
  {
    match ActiveDaysOf(TokenValues(c.startString, 't', false))
    case None => Failure(DateTimeError)
    case Some(days) =>
      var startHours := TokenValues(c.startString, 'h', true);
      var startMinutes := TokenValues(c.startString, 'm', true);
      var durationHours := TokenValues(c.durationString, 'h', true);
      var durationMinutes := TokenValues(c.durationString, 'm', true);
      var durationDays := TokenValues(c.durationString, 'd', true);
      if |startHours| > 1 then Failure(TimeDomainParseError(MultipleMessage("hour", c)))
      else if |startMinutes| > 1 then Failure(TimeDomainParseError(MultipleMessage("minute", c)))
      else if |durationHours| > 1 then Failure(TimeDomainParseError(MultipleMessage("hour", c)))
      else if |durationMinutes| > 1 then Failure(TimeDomainParseError(MultipleMessage("minute", c)))
      else if |durationDays| > 1 then Failure(TimeDomainParseError(MultipleMessage("day", c)))
      else CheckDuration(c, days, LastOr(startHours, 0), LastOr(startMinutes, 0),
                         LastOr(durationHours, 0), LastOr(durationMinutes, 0), LastOr(durationDays, 0))
  }

  /** `while (m.find()) { matches++; value = parseInt(...); }`: how many matches there are
      and the value of the last one (0 when there is none). */
  method CountTokens(s: string, marker: char, wide: bool) returns (matches: nat, value: nat)
    ensures matches == |TokenValues(s, marker, wide)|
    ensures value == LastOr(TokenValues(s, marker, wide), 0)
  {
    matches, value := 0, 0;
    ghost var found: seq<nat> := [];
    var pos := 0;
    var next := NextToken(s, marker, wide, pos);
    while next.Some?
      invariant pos <= |s|
      invariant next == NextToken(s, marker, wide, pos)
      invariant TokenValues(s, marker, wide) == found + TokenValuesFrom(s, marker, wide, pos)
      invariant matches == |found| && value == LastOr(found, 0)
      decreases |s| - pos
    {
      var tok := next.value;
      matches := matches + 1;
      value := tok.value;
      found := found + [tok.value];
      pos := tok.end;
      next := NextToken(s, marker, wide, pos);
    }
  }

  /** The day loop: each `t` digit is mapped to a weekday and added to the set; a digit that
      DayOfWeek.of rejects ends the parse. */
  method ScanDays(s: string) returns (r: Option<set<DayOfWeek>>)
    ensures r == ActiveDaysOf(TokenValues(s, 't', false))
  {
    var days: set<DayOfWeek> := {};
    ghost var found: seq<nat> := [];
    var pos := 0;
    var next := NextToken(s, 't', false, pos);
    while next.Some?
      invariant pos <= |s|
      invariant next == NextToken(s, 't', false, pos)
      invariant TokenValues(s, 't', false) == found + TokenValuesFrom(s, 't', false, pos)
      invariant ActiveDaysOf(found) == Some(days)
      decreases |s| - pos
    {
      var tok := next.value;
      var day := DayOfCode(tok.value);
      assert TokenValues(s, 't', false) == found + [tok.value] + TokenValuesFrom(s, 't', false, tok.end);
      if day.None? {
        ghost var all := TokenValues(s, 't', false);
        assert all[|found|] == tok.value;
        InvalidCodeRejects(all, |found|);
        return None;
      }
      ActiveDaysOfSnoc(found, tok.value);
      found := found + [tok.value];
      days := days + {day.value};
      pos := tok.end;
      next := NextToken(s, 't', false, pos);
    }
    assert TokenValuesFrom(s, 't', false, pos) == [];
    assert found == TokenValues(s, 't', false);
    r := Some(days);
  }

  /** The scanning and checking part of fromComponents, in the source's order. */
  method ParseComponents(c: TimeDomainComponents) returns (r: Result<Settings, ParseFailure>)
    ensures r == Resolve(c)
  {
    var startString := c.startString;
    var durationString := c.durationString;

    var daysOfWeek := ScanDays(startString);
    if daysOfWeek.None? {
      return Failure(DateTimeError);
    }

    var matches, startHour := CountTokens(startString, 'h', true);
    if matches > 1 {
      return Failure(TimeDomainParseError(MultipleMessage("hour", c)));
    }
    var startMinute;
    matches, startMinute := CountTokens(startString, 'm', true);
    if matches > 1 {
      return Failure(TimeDomainParseError(MultipleMessage("minute", c)));
    }

    var durationHour;
    matches, durationHour := CountTokens(durationString, 'h', true);
    if matches > 1 {
      return Failure(TimeDomainParseError(MultipleMessage("hour", c)));
    }
    var durationMinute;
    matches, durationMinute := CountTokens(durationString, 'm', true);
    if matches > 1 {
      return Failure(TimeDomainParseError(MultipleMessage("minute", c)));
    }
    var durationDay;
    matches, durationDay := CountTokens(durationString, 'd', true);
    if matches > 1 {
      return Failure(TimeDomainParseError(MultipleMessage("day", c)));
    }

    if (durationMinute > 0 || durationHour > 0) && durationDay == 0 {
      r := Construct(daysOfWeek.value, startHour, startMinute, durationHour, durationMinute);
    } else if durationMinute == 0 && durationHour == 0 && durationDay == 1 && startHour == 0 && startMinute == 0 {
      r := Construct(daysOfWeek.value, startHour, startMinute, 24, 0);
    } else {
      r := Failure(TimeDomainParseError(UnsupportedMessage(c)));
    }
  }

  /** fromComponents(c, zoneOffsetMinutes): the parsed domain, built by the six-argument
      constructor, or the exception the parse throws. */
  method FromComponentsWithOffset(c: TimeDomainComponents, zoneOffsetMinutes: int)
    returns (r: Result<DayOfWeekTimeDomain, ParseFailure>)
    requires IsOffsetMinutes(zoneOffsetMinutes)
    ensures r.Failure? <==> Resolve(c).Failure?
    ensures r.Failure? ==> r.error == Resolve(c).error
    ensures r.Success? ==> (
      var p := Resolve(c).value;
      && fresh(r.value) && r.value.Valid()
      && r.value.State() == Constructed(p.activeDays, p.startHour, p.startMinute,
                                        p.durationHour, p.durationMinute, zoneOffsetMinutes))
  {
    var parsed := ParseComponents(c);
    if parsed.Failure? {
      return Failure(parsed.error);
    }
    var p := parsed.value;
    var domain := new DayOfWeekTimeDomain.WithOffset(p.activeDays, p.startHour, p.startMinute,
                                                     p.durationHour, p.durationMinute, zoneOffsetMinutes);
    r := Success(domain);
  }

  /** fromComponents(c): the same at offset 0. */
  method FromComponents(c: TimeDomainComponents) returns (r: Result<DayOfWeekTimeDomain, ParseFailure>)
    ensures r.Failure? <==> Resolve(c).Failure?
    ensures r.Failure? ==> r.error == Resolve(c).error
    ensures r.Success? ==> (
      var p := Resolve(c).value;
      && fresh(r.value) && r.value.Valid()
      && r.value.State() == Constructed(p.activeDays, p.startHour, p.startMinute,
                                        p.durationHour, p.durationMinute, 0))
  {
    r := FromComponentsWithOffset(c, 0);
  }

  /** A start string without an `h` (or `m`) token starts at hour (or minute) 0. */
  lemma MissingStartTokensDefaultToZero(c: TimeDomainComponents)
    requires Resolve(c).Success?
    ensures 'h' !in c.startString ==> Resolve(c).value.startHour == 0
    ensures 'm' !in c.startString ==> Resolve(c).value.startMinute == 0
  {
    if 'h' !in c.startString {
      NoMarkerNoTokens(c.startString, 'h', true, 0);
    }
    if 'm' !in c.startString {
      NoMarkerNoTokens(c.startString, 'm', true, 0);
    }
  }

  /** A duration string with no `h`, `m` or `d` token — the empty one among them — is
      rejected: a zero duration is not supported. */
  lemma DurationWithoutTokensRejected(c: TimeDomainComponents)
    requires 'h' !in c.durationString && 'm' !in c.durationString && 'd' !in c.durationString
    ensures Resolve(c).Failure?
  {
    NoMarkerNoTokens(c.durationString, 'h', true, 0);
    NoMarkerNoTokens(c.durationString, 'm', true, 0);
    NoMarkerNoTokens(c.durationString, 'd', true, 0);
  }

  /** An accepted duration is either the hour/minute tokens with no day token, or `d1` alone
      after a midnight start, resolved to 24h0m. */
  lemma ResolvedDurationShape(c: TimeDomainComponents)
    requires Resolve(c).Success?
    ensures var p := Resolve(c).value;
            var hs := TokenValues(c.durationString, 'h', true);
            var ms := TokenValues(c.durationString, 'm', true);
            var ds := TokenValues(c.durationString, 'd', true);
            || ((ds == [] || ds == [0]) && p.durationHour == LastOr(hs, 0) && p.durationMinute == LastOr(ms, 0)
                && (p.durationHour > 0 || p.durationMinute > 0))
            || (&& ds == [1] && LastOr(hs, 0) == 0 && LastOr(ms, 0) == 0
                && p.startHour == 0 && p.startMinute == 0 && p.durationHour == 24 && p.durationMinute == 0)
  {
    var days := ActiveDaysOf(TokenValues(c.startString, 't', false)).value;
    var hs := TokenValues(c.durationString, 'h', true);
    var ms := TokenValues(c.durationString, 'm', true);
    var ds := TokenValues(c.durationString, 'd', true);
    var sh := LastOr(TokenValues(c.startString, 'h', true), 0);
    var sm := LastOr(TokenValues(c.startString, 'm', true), 0);
    assert Resolve(c) == CheckDuration(c, days, sh, sm, LastOr(hs, 0), LastOr(ms, 0), LastOr(ds, 0));
    if ds != [] {
      assert |ds| == 1 && LastOr(ds, 0) == ds[0];
      assert ds == [ds[0]];
    }
  }

  /** Well-formed components are accepted: a valid day scan, at most one token of each kind,
      a start that is a time of day and one of the two duration shapes give a domain with
      exactly the scanned values (24h0m for the whole day), and nothing else is accepted. */
  lemma ResolveSucceedsIff(c: TimeDomainComponents)
    ensures var days := ActiveDaysOf(TokenValues(c.startString, 't', false));
            var shs := TokenValues(c.startString, 'h', true);
            var sms := TokenValues(c.startString, 'm', true);
            var dhs := TokenValues(c.durationString, 'h', true);
            var dms := TokenValues(c.durationString, 'm', true);
            var dds := TokenValues(c.durationString, 'd', true);
            var sh, sm, dh, dm, dd := LastOr(shs, 0), LastOr(sms, 0), LastOr(dhs, 0), LastOr(dms, 0), LastOr(dds, 0);
            var wellFormed := && days.Some?
                              && |shs| <= 1 && |sms| <= 1 && |dhs| <= 1 && |dms| <= 1 && |dds| <= 1
                              && IsTimeOfDay(sh, sm);
            && (Resolve(c).Success? <==>
                 && wellFormed
                 && ((dd == 0 && (dh > 0 || dm > 0)) || (dd == 1 && dh == 0 && dm == 0 && sh == 0 && sm == 0)))
            && (wellFormed && dd == 0 && (dh > 0 || dm > 0) ==>
                 Resolve(c) == Success(Settings(days.value, sh, sm, dh, dm)))
            && (wellFormed && dd == 1 && dh == 0 && dm == 0 && sh == 0 && sm == 0 ==>
                 Resolve(c) == Success(Settings(days.value, 0, 0, 24, 0)))
  {
  }

  /** The day tokens of "t2t3t4t5t6h11m30". */
  lemma WeekdayExampleDays()
    ensures TokenValues("t2t3t4t5t6h11m30", 't', false) == [2, 3, 4, 5, 6]
  {
    var s := "t2t3t4t5t6h11m30";
    NoTokensFrom(s, 't', false, 10);
    TokenFrom(s, 't', false, 8, 8);
    TokenFrom(s, 't', false, 6, 6);
    TokenFrom(s, 't', false, 4, 4);
    TokenFrom(s, 't', false, 2, 2);
    TokenFrom(s, 't', false, 0, 0);
  }

  /** The hour and minute tokens of "t2t3t4t5t6h11m30". */
  lemma WeekdayExampleStart()
    ensures TokenValues("t2t3t4t5t6h11m30", 'h', true) == [11]
    ensures TokenValues("t2t3t4t5t6h11m30", 'm', true) == [30]
  {
    var s := "t2t3t4t5t6h11m30";
    NoTokensFrom(s, 'h', true, 13);
    TokenFrom(s, 'h', true, 0, 10);
    NoTokensFrom(s, 'm', true, 16);
    TokenFrom(s, 'm', true, 0, 13);
  }

  /** The tokens of "h2m30". */
  lemma WeekdayExampleDuration()
    ensures TokenValues("h2m30", 'h', true) == [2]
    ensures TokenValues("h2m30", 'm', true) == [30]
    ensures TokenValues("h2m30", 'd', true) == []
  {
    var d := "h2m30";
    NoTokensFrom(d, 'h', true, 2);
    TokenFrom(d, 'h', true, 0, 0);
    NoTokensFrom(d, 'm', true, 5);
    TokenFrom(d, 'm', true, 0, 2);
    NoTokensFrom(d, 'd', true, 0);
  }

  /** The weekday codes 2..6 are Monday..Friday. */
  lemma WeekdayExampleSet()
    ensures ActiveDaysOf([2, 3, 4, 5, 6]) == Some({Monday, Tuesday, Wednesday, Thursday, Friday})
  {
    var c0: seq<nat> := [];
    var c1: seq<nat> := [2];
    var c2: seq<nat> := [2, 3];
    var c3: seq<nat> := [2, 3, 4];
    var c4: seq<nat> := [2, 3, 4, 5];
    var c5: seq<nat> := [2, 3, 4, 5, 6];
    assert c1 == c0 + [2] && c2 == c1 + [3] && c3 == c2 + [4] && c4 == c3 + [5] && c5 == c4 + [6];
    ActiveDaysOfSnoc(c0, 2);
    ActiveDaysOfSnoc(c1, 3);
    ActiveDaysOfSnoc(c2, 4);
    ActiveDaysOfSnoc(c3, 5);
    ActiveDaysOfSnoc(c4, 6);
    var none: set<DayOfWeek> := {};
    assert none + {Monday} == {Monday};
    assert {Monday} + {Tuesday} == {Monday, Tuesday};
    assert {Monday, Tuesday} + {Wednesday} == {Monday, Tuesday, Wednesday};
    assert {Monday, Tuesday, Wednesday} + {Thursday} == {Monday, Tuesday, Wednesday, Thursday};
    assert {Monday, Tuesday, Wednesday, Thursday} + {Friday} == {Monday, Tuesday, Wednesday, Thursday, Friday};
  }

  /** Weekdays at 11:30 for two and a half hours. */
  lemma ResolveWeekdayExample()
    ensures Resolve(TimeDomainComponents("t2t3t4t5t6h11m30", "h2m30"))
         == Success(Settings({Monday, Tuesday, Wednesday, Thursday, Friday}, 11, 30, 2, 30))
  {
    WeekdayExampleDays();
    WeekdayExampleStart();
    WeekdayExampleDuration();
    WeekdayExampleSet();
  }

  /** Two hour tokens in the start string are ambiguous. */
  lemma ResolveAmbiguousHourExample()
    ensures var c := TimeDomainComponents("h9h10m0", "h1");
            Resolve(c) == Failure(TimeDomainParseError(MultipleMessage("hour", c)))
  {
    var s := "h9h10m0";
    NoTokensFrom(s, 't', false, 0);
    NoTokensFrom(s, 'h', true, 5);
    TokenFrom(s, 'h', true, 2, 2);
    TokenFrom(s, 'h', true, 0, 0);
  }

  /** `d1` from midnight is a whole day; with no `t` token no weekday is active. */
  lemma ResolveWholeDayExample()
    ensures Resolve(TimeDomainComponents("h0m0", "d1")) == Success(Settings({}, 0, 0, 24, 0))
  {
    var s, d := "h0m0", "d1";
    NoTokensFrom(s, 't', false, 0);
    NoTokensFrom(s, 'h', true, 2);
    TokenFrom(s, 'h', true, 0, 0);
    NoTokensFrom(s, 'm', true, 4);
    TokenFrom(s, 'm', true, 0, 2);
    NoTokensFrom(d, 'h', true, 0);
    NoTokensFrom(d, 'm', true, 0);
    NoTokensFrom(d, 'd', true, 2);
    TokenFrom(d, 'd', true, 0, 0);
  }

  /** `d1` after a start other than midnight is unsupported. */
  lemma ResolveWholeDayLateStartExample()
    ensures var c := TimeDomainComponents("h1m0", "d1");
            Resolve(c) == Failure(TimeDomainParseError(UnsupportedMessage(c)))
  {
    var s, d := "h1m0", "d1";
    NoTokensFrom(s, 't', false, 0);
    NoTokensFrom(s, 'h', true, 2);
    TokenFrom(s, 'h', true, 0, 0);
    NoTokensFrom(s, 'm', true, 4);
    TokenFrom(s, 'm', true, 0, 2);
    NoTokensFrom(d, 'h', true, 0);
    NoTokensFrom(d, 'm', true, 0);
    NoTokensFrom(d, 'd', true, 2);
    TokenFrom(d, 'd', true, 0, 0);
  }

  /** `t1` and `t8` both mean Sunday and collapse into one element; absent hour and minute
      tokens start the window at midnight. */
  lemma ResolveSundayCodesExample()
    ensures Resolve(TimeDomainComponents("t1t8", "m5")) == Success(Settings({Sunday}, 0, 0, 0, 5))
  {
    var s, d := "t1t8", "m5";
    SundayCodesDays();
    NoTokensFrom(s, 'h', true, 0);
    NoTokensFrom(s, 'm', true, 0);
    NoTokensFrom(d, 'h', true, 0);
    NoTokensFrom(d, 'm', true, 2);
    TokenFrom(d, 'm', true, 0, 0);
    NoTokensFrom(d, 'd', true, 0);
  }

  /** The day scan of "t1t8": both codes denote Sunday. */
  lemma SundayCodesDays()
    ensures ActiveDaysOf(TokenValues("t1t8", 't', false)) == Some({Sunday})
  {
    var s := "t1t8";
    NoTokensFrom(s, 't', false, 4);
    TokenFrom(s, 't', false, 2, 2);
    TokenFrom(s, 't', false, 0, 0);
    var c0: seq<nat> := [];
    var c1: seq<nat> := [1];
    var c2: seq<nat> := [1, 8];
    assert TokenValues(s, 't', false) == c2;
    assert c1 == c0 + [1] && c2 == c1 + [8];
    ActiveDaysOfSnoc(c0, 1);
    ActiveDaysOfSnoc(c1, 8);
    var none: set<DayOfWeek> := {};
    assert none + {Sunday} == {Sunday};
    assert {Sunday} + {Sunday} == {Sunday};
  }

  /** `t9` makes DayOfWeek.of throw before anything else is looked at. */
  lemma ResolveBadDayExample()
    ensures Resolve(TimeDomainComponents("t9h1m0", "h1")) == Failure(DateTimeError)
  {
    var s := "t9h1m0";
    NoTokensFrom(s, 't', false, 2);
    TokenFrom(s, 't', false, 0, 0);
    InvalidCodeRejects([9], 0);
  }

  /** Start hour 24 passes the token checks but OffsetTime.of rejects it. */
  lemma ResolveBadHourExample()
    ensures Resolve(TimeDomainComponents("h24m0", "h1")) == Failure(DateTimeError)
  {
    var s, d := "h24m0", "h1";
    NoTokensFrom(s, 't', false, 0);
    NoTokensFrom(s, 'h', true, 3);
    TokenFrom(s, 'h', true, 0, 0);
    NoTokensFrom(s, 'm', true, 5);
    TokenFrom(s, 'm', true, 0, 3);
    NoTokensFrom(d, 'h', true, 2);
    TokenFrom(d, 'h', true, 0, 0);
    NoTokensFrom(d, 'm', true, 0);
    NoTokensFrom(d, 'd', true, 0);
  }
}
