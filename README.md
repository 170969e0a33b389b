# Day-of-week time domains, turn restrictions and analyst helpers of OpenTripPlanner

This project models, in Dafny, the part of OpenTripPlanner that decides when a turn
restriction is in force, together with three small pieces of the analyst and routing code.

* **Time domains.** A time domain is written as text such as `[(t2t3h11m30){h2m30}]`: the
  parenthesised start lists weekdays (`t`), a start hour (`h`) and minute (`m`); the braced
  duration gives hours, minutes or a whole day (`d1`). `TimeDomain.splitComponents` strips
  whitespace and the outer brackets and finds the first `(X){Y}`
  (module `TimeDomain`). `TimeDomainComponents` holds the two strings (module `Components`).
  `DayOfWeekTimeDomain.fromComponents` scans the tokens, rejects duplicates and resolves the
  duration (module `DayOfWeekTokens`). `isActiveAtTime` tests an epoch-millisecond instant
  against the window opening on its local date or on the previous one (module
  `DayOfWeekDomain`, with the calendar arithmetic of `java.time` in module `JavaTime` and
  Java `int` wrap-around in module `JavaInt`).
* **Turn restrictions.** `TurnRestriction.active` is the conjunction of its domains, and
  true without any (module `TurnRestrictions`).
* **Intersections.** `IntersectionVertex` infers free flow from its degrees and hides all of
  its edges from a request whose LTS (level of traffic stress) limit it exceeds
  (module `Intersections`).
* **Sample sets.** `DoubleEndpointSampleSet` stores, per point, the two road-end vertices
  and times, and evaluates a time surface to the better end per point, with Java `int`
  wrap-around (module `SampleSets`).
* **Populations.** `BasicPopulation` holds individuals and ORs the rejections of a filter
  chain into skip flags (module `Populations`).

Instants are unbounded integers of epoch milliseconds. A local date is
`(t + offset seconds * 1000) / 86400000`, with floor division as in `java.time`. The ISO
weekday is `((day + 3) % 7) + 1`. The evaluator compares instants exactly as the source does:
the start instant on a local date is that date's midnight plus the start time, minus the
start time's own offset. Objects that the source updates in place are classes: the time
domain, the turn restriction, the sample set and the population. Their methods are proved
against functions of their fields. Records and pure logic are datatypes and functions.
`DayOfWeekTimeDomain.isActiveAtTime` is the function `IsActiveAtTime` of the class, and it
evaluates `DayOfWeekDomain.IsActive` on the fields. `splitComponents` is
`TimeDomain.SplitComponents`, which the lemmas about it describe.

Where the code and its description differ, the model follows the code:

* `fromComponents` does not catch the `DateTimeException` of `DayOfWeek.of` or `OffsetTime.of`.
  A bad day digit or a start hour above 23 therefore surfaces as `DateTimeError`, not as a
  parse error.
* A duration of more than a day (for example `h99`) is accepted. But the evaluator looks back
  only one local date, so the parts of such an occurrence beyond the next date are not
  accepted on account of that occurrence. They are active only where another active day's
  today or yesterday test covers them (`DayOfWeekDomain.LongWindowIsCutShort`).
* The splitter's character class has no `d`, so a `{d1}` duration never reaches
  `fromComponents` through `splitComponents` (`TimeDomain.SplitRejectsDayDuration`).
* The varargs constructor of `BasicPopulation` keeps the fixed-size list of `Arrays.asList`,
  so `addIndividual` throws on it (modelled as `ok == false`).

## Model

| member | source | states |
|---|---|---|
| Components.ToString | src/main/java/org/opentripplanner/time_domain/TimeDomainComponents.java:13-14 | the text is `(start: `, the start string, `, duration: `, the duration string and `)`, in that order, and its length is the sum of theirs |
| Components.ToStringRecoversFields | src/main/java/org/opentripplanner/time_domain/TimeDomainComponents.java:7-10 | the record keeps both strings as given and in their own fields (no swap): two records with equally long start strings and the same text are equal |
| JavaTime.OffsetOfMinutes | src/main/java/org/opentripplanner/time_domain/DayOfWeekTimeDomain.java:38 | the offset is the `int` product `zoneOffsetMinutes * 60` in seconds: congruent to it modulo 2^32, and equal to it for offsets of at most 18 hours |
| JavaTime.OffsetsWithinRangeAccepted | src/main/java/org/opentripplanner/time_domain/DayOfWeekTimeDomain.java:38 | every whole-minute offset of at most 18 hours is accepted as that many minutes |
| JavaTime.WrappedOffsetAccepted | src/main/java/org/opentripplanner/time_domain/DayOfWeekTimeDomain.java:49 | 71582789 minutes wrap to a 44-second offset and 71582788 to -16 seconds, both accepted; 1081 minutes is rejected |
| JavaTime.DayOfWeekOf | src/main/java/org/opentripplanner/time_domain/DayOfWeekTimeDomain.java:124 | `DayOfWeek.of(n)` is the weekday whose ISO number is n, for n in 1..7 |
| JavaTime.DayOfWeek.Previous | src/main/java/org/opentripplanner/time_domain/DayOfWeekTimeDomain.java:74 | `dow.minus(1)` is the weekday numbered one less, Monday wrapping to Sunday |
| JavaTime.WeekdayOfPreviousDay | src/main/java/org/opentripplanner/time_domain/DayOfWeekTimeDomain.java:74-75 | the weekday of the previous local date is the previous weekday, so the carry-over test looks at the right day |
| JavaTime.LocalEpochDayOfAtDate | src/main/java/org/opentripplanner/time_domain/DayOfWeekTimeDomain.java:63 | the instant of the start time on a local date lies on that local date at the start time's offset |
| DayOfWeekDomain.IsActive | src/main/java/org/opentripplanner/time_domain/DayOfWeekTimeDomain.java:55-85 | an active instant has its own local weekday or the previous weekday in the active set; an empty set is never active |
| DayOfWeekDomain.ActiveOnlyWhenCovered | src/main/java/org/opentripplanner/time_domain/DayOfWeekTimeDomain.java:55-85 | every instant accepted lies inside some weekly occurrence of the window that opens on an active day |
| DayOfWeekDomain.CoveredImpliesActive | src/main/java/org/opentripplanner/time_domain/DayOfWeekTimeDomain.java:61-82 | for windows of at most one day at the domain's own offset, every instant inside an occurrence of the window is accepted |
| DayOfWeekDomain.ActiveIffCovered | src/main/java/org/opentripplanner/time_domain/DayOfWeekTimeDomain.java:55-85 | for such windows the today/yesterday test is exactly the weekly-window meaning, both directions |
| DayOfWeekDomain.StartIsInclusive | src/main/java/org/opentripplanner/time_domain/DayOfWeekTimeDomain.java:66-68 | the start instant on an active weekday is active |
| DayOfWeekDomain.EndIsInclusive | src/main/java/org/opentripplanner/time_domain/DayOfWeekTimeDomain.java:61-82 | start plus duration on an active weekday is active, also when it falls after midnight |
| DayOfWeekDomain.BeforeStartOnlyByCarryOver | src/main/java/org/opentripplanner/time_domain/DayOfWeekTimeDomain.java:73-82 | one millisecond before today's start is active exactly when yesterday's occurrence still covers it |
| DayOfWeekDomain.LongWindowIsCutShort | src/main/java/org/opentripplanner/time_domain/DayOfWeekTimeDomain.java:73-84 | a 99-hour Monday window covers Wednesday noon, yet the evaluator, looking one date back only, rejects it |
| DayOfWeekDomain.FridayLateWindow | src/main/java/org/opentripplanner/time_domain/DayOfWeekTimeDomain.java:74-82 | Friday 23:00 plus two hours is active on Saturday 00:30, not at 01:01 and not on Sunday 00:30 |
| DayOfWeekDomain.WeekdayWindow | src/main/java/org/opentripplanner/time_domain/DayOfWeekTimeDomain.java:61-69 | weekdays 11:30 plus 2h30 are active on Wednesday noon and at 14:00 exactly, not one millisecond later, and not on Saturday noon |
| DayOfWeekDomain.Constructed | src/main/java/org/opentripplanner/time_domain/DayOfWeekTimeDomain.java:36-46 | the fields the six-argument constructor sets: the start time at the (wrapped) offset of the given minutes, which is minutes times 60 within 18 hours, the start hour and minute, and the duration of the given hours and minutes |
| DayOfWeekDomain.DayOfWeekTimeDomain.constructor | src/main/java/org/opentripplanner/time_domain/DayOfWeekTimeDomain.java:32-34 | the five-argument constructor is the six-argument one at offset 0 |
| DayOfWeekDomain.DayOfWeekTimeDomain.WithOffset | src/main/java/org/opentripplanner/time_domain/DayOfWeekTimeDomain.java:36-46 | all eight fields are as the arguments say and consistent with each other |
| DayOfWeekDomain.DayOfWeekTimeDomain.SetZoneOffsetMinutes | src/main/java/org/opentripplanner/time_domain/DayOfWeekTimeDomain.java:48-52 | only the offset and start time move; days, start hour and minute, duration hour and minute and the duration stay, and the state equals a fresh construction at the new offset |
| DayOfWeekDomain.DayOfWeekTimeDomain.IsActiveAtTime | src/main/java/org/opentripplanner/time_domain/DayOfWeekTimeDomain.java:55-85 | an accepted instant lies in some weekly occurrence; for windows of at most one day, exactly those instants are accepted; with no active day, none is (partner: ActiveIffCovered) |
| DayOfWeekDomain.DayOfWeekTimeDomain.GetActiveDays | src/main/java/org/opentripplanner/time_domain/DayOfWeekTimeDomain.java:87-89 | the active-day set that the evaluator tests; when it is empty the domain is active at no instant |
| DayOfWeekTokens.TokenAt | src/main/java/org/opentripplanner/time_domain/DayOfWeekTimeDomain.java:99-102 | `t` takes one digit; `h`, `m`, `d` take a second digit whenever one follows (possessive); the value is at most 9 or 99 |
| DayOfWeekTokens.NextToken | src/main/java/org/opentripplanner/time_domain/DayOfWeekTimeDomain.java:118-118 | find() returns the leftmost match at or after the search position, or none when no marker-digit pair remains |
| DayOfWeekTokens.NoMarkerNoTokens | src/main/java/org/opentripplanner/time_domain/DayOfWeekTimeDomain.java:128-135 | a string without the marker letter yields no match |
| DayOfWeekTokens.TokenValuesBounded | src/main/java/org/opentripplanner/time_domain/DayOfWeekTimeDomain.java:99-102 | every parsed value is at most 9 (day) or 99 (hour, minute, day count) |
| DayOfWeekTokens.LastOr | src/main/java/org/opentripplanner/time_domain/DayOfWeekTimeDomain.java:128-135 | the loop variable ends as the last match's value, or its initial 0 when there is none |
| DayOfWeekTokens.DayOfCode | src/main/java/org/opentripplanner/time_domain/DayOfWeekTimeDomain.java:121-124 | digits 1 and 8 mean Sunday, 2..7 mean Monday..Saturday, 0 and 9 make DayOfWeek.of throw |
| DayOfWeekTokens.ActiveDaysOf | src/main/java/org/opentripplanner/time_domain/DayOfWeekTimeDomain.java:117-125 | the day scan succeeds exactly when every `t` digit is in 1..8 |
| DayOfWeekTokens.ActiveDaysOfContents | src/main/java/org/opentripplanner/time_domain/DayOfWeekTimeDomain.java:117-125 | a weekday is in the set exactly when some digit denotes it, so repeated days collapse |
| DayOfWeekTokens.InvalidCodeRejects | src/main/java/org/opentripplanner/time_domain/DayOfWeekTimeDomain.java:124 | one rejected digit anywhere makes the day scan fail |
| DayOfWeekTokens.Construct | src/main/java/org/opentripplanner/time_domain/DayOfWeekTimeDomain.java:198-200 | the constructor call succeeds exactly when the start is a time of day, else OffsetTime.of throws |
| DayOfWeekTokens.CheckDuration | src/main/java/org/opentripplanner/time_domain/DayOfWeekTimeDomain.java:197-203 | the three duration cases, both ways: h/m with no day value is the constructor call with that duration; `d1` alone after a midnight start is the call with 24h0m; everything else is the unsupported error |
| DayOfWeekTokens.Resolve | src/main/java/org/opentripplanner/time_domain/DayOfWeekTimeDomain.java:95-206 | the checks in source order: a bad day digit, then a second start hour, start minute, duration hour, duration minute or duration day token, each with its own message; past them, exactly the duration check on the last values; on success the days, start hour and minute are the scanned values and the duration is positive |
| DayOfWeekTokens.ResolveSucceedsIff | src/main/java/org/opentripplanner/time_domain/DayOfWeekTimeDomain.java:95-206 | a valid day scan, at most one token of each kind, a start that is a time of day and one of the two duration shapes are accepted, with exactly the scanned values (24h0m for `d1`), and nothing else is |
| DayOfWeekTokens.CountTokens | src/main/java/org/opentripplanner/time_domain/DayOfWeekTimeDomain.java:128-135 | the while-find loop counts the matches and keeps the last value |
| DayOfWeekTokens.ScanDays | src/main/java/org/opentripplanner/time_domain/DayOfWeekTimeDomain.java:117-125 | the day loop yields the set of the denoted weekdays or the DayOfWeek.of failure |
| DayOfWeekTokens.ParseComponents | src/main/java/org/opentripplanner/time_domain/DayOfWeekTimeDomain.java:95-203 | the imperative scan-and-check sequence computes exactly Resolve |
| DayOfWeekTokens.FromComponentsWithOffset | src/main/java/org/opentripplanner/time_domain/DayOfWeekTimeDomain.java:95-206 | fails exactly when Resolve fails, with its error; else a new valid domain built from the resolved values at the given offset |
| DayOfWeekTokens.FromComponents | src/main/java/org/opentripplanner/time_domain/DayOfWeekTimeDomain.java:91-93 | the same at offset 0 |
| DayOfWeekTokens.MissingStartTokensDefaultToZero | src/main/java/org/opentripplanner/time_domain/DayOfWeekTimeDomain.java:109-110 | a start string without `h` (or `m`) starts at hour (or minute) 0 |
| DayOfWeekTokens.DurationWithoutTokensRejected | src/main/java/org/opentripplanner/time_domain/DayOfWeekTimeDomain.java:197-203 | a duration string with no token at all is rejected |
| DayOfWeekTokens.ResolvedDurationShape | src/main/java/org/opentripplanner/time_domain/DayOfWeekTimeDomain.java:197-203 | an accepted duration is either the h/m values with no day value, or `d1` alone after midnight resolved to 24h0m |
| DayOfWeekTokens.ResolveWeekdayExample | src/main/java/org/opentripplanner/time_domain/DayOfWeekTimeDomain.java:95-206 | `t2t3t4t5t6h11m30` / `h2m30` gives Monday..Friday, 11:30, 2h30 |
| DayOfWeekTokens.ResolveAmbiguousHourExample | src/main/java/org/opentripplanner/time_domain/DayOfWeekTimeDomain.java:136-138 | two hour tokens in the start string raise the multiple-hour error |
| DayOfWeekTokens.ResolveWholeDayExample | src/main/java/org/opentripplanner/time_domain/DayOfWeekTimeDomain.java:199-200 | `h0m0` / `d1` gives a 24h0m window with no active day |
| DayOfWeekTokens.ResolveWholeDayLateStartExample | src/main/java/org/opentripplanner/time_domain/DayOfWeekTimeDomain.java:199-202 | `d1` after a 01:00 start raises the unsupported error |
| DayOfWeekTokens.ResolveSundayCodesExample | src/main/java/org/opentripplanner/time_domain/DayOfWeekTimeDomain.java:117-125 | `t1t8` gives the single day Sunday; missing h/m start at midnight |
| DayOfWeekTokens.ResolveBadDayExample | src/main/java/org/opentripplanner/time_domain/DayOfWeekTimeDomain.java:121-124 | `t9` makes DayOfWeek.of throw |
| DayOfWeekTokens.ResolveBadHourExample | src/main/java/org/opentripplanner/time_domain/DayOfWeekTimeDomain.java:197-198 | start hour 24 passes the token checks and fails in OffsetTime.of |
| TimeDomain.StripWhitespace | src/main/java/org/opentripplanner/time_domain/TimeDomain.java:42 | the result holds no whitespace and is no longer than the input |
| TimeDomain.StripWhitespaceConcat | src/main/java/org/opentripplanner/time_domain/TimeDomain.java:42 | stripping distributes over concatenation |
| TimeDomain.StripWhitespaceFixes | src/main/java/org/opentripplanner/time_domain/TimeDomain.java:42 | a string without whitespace is unchanged |
| TimeDomain.StripWhitespaceIdempotent | src/main/java/org/opentripplanner/time_domain/TimeDomain.java:42 | stripping twice equals stripping once |
| TimeDomain.StripWhitespaceCounts | src/main/java/org/opentripplanner/time_domain/TimeDomain.java:42 | each non-whitespace character keeps its number of occurrences |
| TimeDomain.GroupEnd | src/main/java/org/opentripplanner/time_domain/TimeDomain.java:46 | the greedy class run ends at the first character outside t, h, m, 0-9 |
| TimeDomain.MatchAtSound | src/main/java/org/opentripplanner/time_domain/TimeDomain.java:46 | a match at i is an occurrence `(X){Y}` there with X and Y its groups |
| TimeDomain.MatchAtComplete | src/main/java/org/opentripplanner/time_domain/TimeDomain.java:46 | every occurrence `(X){Y}` at i is the match there, with groups X and Y |
| TimeDomain.MatchAtIff | src/main/java/org/opentripplanner/time_domain/TimeDomain.java:46 | match at i with groups X, Y if and only if occurrence at i of X, Y |
| TimeDomain.FindFrom | src/main/java/org/opentripplanner/time_domain/TimeDomain.java:47-48 | find() gives the leftmost matching position, or none when no position matches |
| TimeDomain.Inner | src/main/java/org/opentripplanner/time_domain/TimeDomain.java:43 | the first and last characters of the stripped input are dropped; fewer than two characters throw StringIndexOutOfBounds |
| TimeDomain.SplitComponents | src/main/java/org/opentripplanner/time_domain/TimeDomain.java:41-56 | the substring exception below two characters; on success the strings are the groups of an occurrence in the inner text; otherwise the unsupported-type error quoting that text (partners: SplitSucceedsIff, SplitFindsFirstOccurrence) |
| TimeDomain.SplitSucceedsIff | src/main/java/org/opentripplanner/time_domain/TimeDomain.java:46-50 | the split succeeds exactly when the inner text holds an occurrence; otherwise the error quotes the inner text |
| TimeDomain.SplitFindsFirstOccurrence | src/main/java/org/opentripplanner/time_domain/TimeDomain.java:46-54 | the result is an occurrence and no occurrence starts before it |
| TimeDomain.SplitStringsInClass | src/main/java/org/opentripplanner/time_domain/TimeDomain.java:46-54 | both strings are non-empty, drawn from t, h, m, 0-9, and never contain `d` |
| TimeDomain.SplitIgnoresWhitespace | src/main/java/org/opentripplanner/time_domain/TimeDomain.java:42 | an input and its stripped form split identically |
| TimeDomain.SplitIgnoresBrackets | src/main/java/org/opentripplanner/time_domain/TimeDomain.java:42-43 | any non-whitespace first and last characters are discarded like the brackets |
| TimeDomain.ParseTimeDomainString | src/main/java/org/opentripplanner/time_domain/TimeDomain.java:30-39 | yields null whether or not the split succeeds; only the substring exception escapes |
| TimeDomain.InnerOfBracketed | src/main/java/org/opentripplanner/time_domain/TimeDomain.java:42-43 | a bracketed text without whitespace loses exactly its brackets |
| TimeDomain.SplitOfOccurrence | src/main/java/org/opentripplanner/time_domain/TimeDomain.java:41-56 | `[(X){Y}]` splits into start X and duration Y |
| TimeDomain.SplitWeekdayExample | src/main/java/org/opentripplanner/time_domain/TimeDomain.java:41-56 | `[(t2t3h11m30){h2m30}]` splits into `t2t3h11m30` and `h2m30` |
| TimeDomain.NoOccurrenceBeforeDayToken | src/main/java/org/opentripplanner/time_domain/TimeDomain.java:46 | a text whose every `{` is followed by `d` has no match |
| TimeDomain.SplitRejectsDayDuration | src/main/java/org/opentripplanner/time_domain/TimeDomain.java:46-50 | for every start string of the class, `[(X){d1}]` cannot be split, and the error quotes `(X){d1}` |
| TimeDomain.SplitOfNoOccurrence | src/main/java/org/opentripplanner/time_domain/TimeDomain.java:41-50 | bracketed text without whitespace in which the pattern matches nowhere is rejected with the unsupported-type error quoting it |
| TimeDomain.ShortInputExamples | src/main/java/org/opentripplanner/time_domain/TimeDomain.java:30-50 | empty and one-character inputs throw the substring exception; `[]` is an unsupported domain; parseTimeDomainString gives null or propagates accordingly |
| TurnRestrictions.AllActiveAtSameDomains | src/main/java/org/opentripplanner/turn_restriction/TurnRestriction.java:63-65 | the conjunction depends only on which domains are in the list |
| TurnRestrictions.AllActiveAtPermutation | src/main/java/org/opentripplanner/turn_restriction/TurnRestriction.java:63-65 | reordering the list changes nothing |
| TurnRestrictions.AllActiveAtConcat | src/main/java/org/opentripplanner/turn_restriction/TurnRestriction.java:63-65 | the conjunction over a concatenation is the conjunction of the parts |
| TurnRestrictions.NoDayDomainBlocks | src/main/java/org/opentripplanner/turn_restriction/TurnRestriction.java:63-65 | a domain with no active day, at any position, makes the restriction inactive |
| TurnRestrictions.TurnRestriction.constructor | src/main/java/org/opentripplanner/turn_restriction/TurnRestriction.java:35-37 | all fields null, in particular timeDomains |
| TurnRestrictions.TurnRestriction.Between | src/main/java/org/opentripplanner/turn_restriction/TurnRestriction.java:46-53 | from, to, type and modes are the arguments; timeDomains stays null |
| TurnRestrictions.TurnRestriction.Active | src/main/java/org/opentripplanner/turn_restriction/TurnRestriction.java:60-68 | true when timeDomains is null, otherwise true exactly when every listed domain is active (so an empty list is always active); no field changes |
| Intersections.NewIntersectionVertex | src/main/java/org/opentripplanner/routing/vertextype/IntersectionVertex.java:53-57 | label, name, coordinates as given; no traffic light, not free-flowing, LTS score 0 |
| Intersections.NewUnnamedIntersectionVertex | src/main/java/org/opentripplanner/routing/vertextype/IntersectionVertex.java:59-61 | as the five-argument constructor with the label as name |
| Intersections.InferredFreeFlowing | src/main/java/org/opentripplanner/routing/vertextype/IntersectionVertex.java:45-51 | true when flagged; otherwise true exactly when in- and out-degree are 1 and there is no traffic light |
| Intersections.InferredFreeFlowingNeedsFlag | src/main/java/org/opentripplanner/routing/vertextype/IntersectionVertex.java:45-51 | with a light or a degree other than one, only the flag counts |
| Intersections.NewVertexFreeFlowing | src/main/java/org/opentripplanner/routing/vertextype/IntersectionVertex.java:45-57 | a new vertex is inferred free-flowing exactly when it has one edge in and one out |
| Intersections.GetOutgoing | src/main/java/org/opentripplanner/routing/vertextype/IntersectionVertex.java:69-77 | all outgoing edges when LTS routing is off or the score is within the maximum, otherwise none |
| Intersections.GetIncoming | src/main/java/org/opentripplanner/routing/vertextype/IntersectionVertex.java:79-87 | the same rule for incoming edges |
| Intersections.GateAllOrNothing | src/main/java/org/opentripplanner/routing/vertextype/IntersectionVertex.java:69-87 | the result is always the full edge sequence or empty, never a proper part |
| Intersections.GateSameBothWays | src/main/java/org/opentripplanner/routing/vertextype/IntersectionVertex.java:69-87 | both directions are hidden together or shown together |
| Intersections.GateMonotone | src/main/java/org/opentripplanner/routing/vertextype/IntersectionVertex.java:71 | raising the maximum never hides visible edges |
| Intersections.DefaultScoreTraversable | src/main/java/org/opentripplanner/routing/vertextype/IntersectionVertex.java:42-87 | with the default score 0 and a non-negative maximum, all edges are returned |
| JavaInt.Wrap32 | src/main/java/org/opentripplanner/analyst/DoubleEndpointSampleSet.java:51 | `(int)` of the sum: congruent modulo 2^32 and exact when it fits |
| SampleSets.EndpointTime | src/main/java/org/opentripplanner/analyst/DoubleEndpointSampleSet.java:46-59 | MAX_VALUE without a vertex or when the surface does not reach it, else the wrapped sum |
| SampleSets.Min | src/main/java/org/opentripplanner/analyst/DoubleEndpointSampleSet.java:60 | the smaller of the two, and one of them |
| SampleSets.PointTimeIsBestEnd | src/main/java/org/opentripplanner/analyst/DoubleEndpointSampleSet.java:45-60 | the point time is at most each end's time and equals one of them |
| SampleSets.PointTimeSymmetric | src/main/java/org/opentripplanner/analyst/DoubleEndpointSampleSet.java:45-60 | swapping the two ends changes nothing |
| SampleSets.UnreachedPointIsMax | src/main/java/org/opentripplanner/analyst/DoubleEndpointSampleSet.java:46-60 | no sample, or both ends unreached, gives MAX_VALUE |
| SampleSets.ReachedPointIsExactMin | src/main/java/org/opentripplanner/analyst/DoubleEndpointSampleSet.java:48-60 | when the sums fit in an int, the result is the smaller exact sum |
| SampleSets.OverflowWinsMinimum | src/main/java/org/opentripplanner/analyst/DoubleEndpointSampleSet.java:48-60 | a sum past MAX_VALUE wraps to a negative time that wins the minimum |
| SampleSets.DoubleEndpointSampleSet.constructor | src/main/java/org/opentripplanner/analyst/DoubleEndpointSampleSet.java:23-41 | four fresh columns of length capacity; each index holds its point's sample, or null vertices and MAX_VALUE times without one |
| SampleSets.DoubleEndpointSampleSet.Eval | src/main/java/org/opentripplanner/analyst/DoubleEndpointSampleSet.java:43-63 | a fresh array of length capacity whose entry i is the point time of column entries i; the columns are not modified |
| Populations.RejectedConcat | opentripplanner-analyst/src/main/java/org/opentripplanner/analyst/batch/BasicPopulation.java:104-110 | a split chain rejects when either part rejects |
| Populations.RejectedSameFilters | opentripplanner-analyst/src/main/java/org/opentripplanner/analyst/batch/BasicPopulation.java:104-110 | only which filters are in the chain matters |
| Populations.RejectedPermutation | opentripplanner-analyst/src/main/java/org/opentripplanner/analyst/batch/BasicPopulation.java:104-110 | reordering the filters changes no skip flag |
| Populations.RejectedSnoc | opentripplanner-analyst/src/main/java/org/opentripplanner/analyst/batch/BasicPopulation.java:107-108 | one more filter ORs its rejection into the flag |
| Populations.EmptyChainSkipsNobody | opentripplanner-analyst/src/main/java/org/opentripplanner/analyst/batch/BasicPopulation.java:101-103 | no chain, or an empty one, skips nobody |
| Populations.BasicPopulation.constructor | opentripplanner-analyst/src/main/java/org/opentripplanner/analyst/batch/BasicPopulation.java:40 | an empty growable list, no filters, no skip flags |
| Populations.BasicPopulation.OfIndividuals | opentripplanner-analyst/src/main/java/org/opentripplanner/analyst/batch/BasicPopulation.java:42-44 | the given individuals in order, in a fixed-size list |
| Populations.BasicPopulation.FromCollection | opentripplanner-analyst/src/main/java/org/opentripplanner/analyst/batch/BasicPopulation.java:46-48 | a growable copy in iteration order |
| Populations.BasicPopulation.AddIndividual | opentripplanner-analyst/src/main/java/org/opentripplanner/analyst/batch/BasicPopulation.java:51-53 | appends at the end: size grows by one and earlier individuals are unchanged; a fixed-size list throws and nothing changes |
| Populations.BasicPopulation.Size | opentripplanner-analyst/src/main/java/org/opentripplanner/analyst/batch/BasicPopulation.java:71-73 | the number of individuals held, which AddIndividual raises by one on a growable list |
| Populations.BasicPopulation.ClearIndividuals | opentripplanner-analyst/src/main/java/org/opentripplanner/analyst/batch/BasicPopulation.java:61-63 | changes nothing |
| Populations.BasicPopulation.CreateIndividuals | opentripplanner-analyst/src/main/java/org/opentripplanner/analyst/batch/BasicPopulation.java:65-68 | changes nothing |
| Populations.BasicPopulation.ApplyFilterChain | opentripplanner-analyst/src/main/java/org/opentripplanner/analyst/batch/BasicPopulation.java:100-112 | a fresh flag array of one entry per individual; entry i is true exactly when a chain exists and some filter rejects individual i |
| Populations.BasicPopulation.SuperSetup | opentripplanner-analyst/src/main/java/org/opentripplanner/analyst/batch/BasicPopulation.java:114-120 | createIndividuals then applyFilterChain: the individuals stay and the flags are those of the chain |

## Left out

- The abstract class `TimeDomain` and its abstract `isActiveAtTime`: day-of-week domains are the only kind, so lists of domains hold `DayOfWeekTimeDomain` objects directly.
- All logging (`LOG.info` in `isActiveAtTime`, `LOG.warn` in `parseTimeDomainString`): it has no effect on results.
- `TurnRestriction.toString`, `Serializable` and the serial version fields: output and serialization only.
- `BasicPopulation.writeCsv`, `writeAppropriateFormat` and `iterator`: file output and iteration plumbing; the Lombok setters and getters, `@Autowired` and `@PostConstruct` wiring: framework code.
- `SampleSet.java` and `CancelledTripTimes.java`: floating-point distances, and a constant override of an unseen class.
- `DoubleEndpointSampleSet.getPointSet`: an accessor; `pset` is a constant field of the class.
- `java.time` internals: ZoneOffset, OffsetTime, Duration and Instant are replaced by integer milliseconds. The constructors and `setZoneOffsetMinutes` require a start time of day, and an `int` minute count whose wrapped product `zoneOffsetMinutes * 60` is within 18 hours, where `java.time` would throw.
- Instants outside the range of `Instant`, and `long` overflow of the query time: instants are unbounded integers.
- The graph: `Graph`, `Edge`, `TraverseModeSet` and `TurnRestrictionType` are type parameters. The superclass state of an intersection (its edges and degrees) is passed in as given. Registering a vertex in its graph is not modelled.
- `SampleSource.getSample`, `TimeSurface.getTime` and `IndividualFilter.filter` are pure function parameters; `TimeSurface.UNREACHABLE` is a parameter. Filters or surfaces with side effects are not modelled.
- `PointSet`: only `capacity`, `lons` and `lats` are modelled. Coordinate sequences shorter than the capacity are excluded by a precondition, where Java would throw an index exception.
- The aliasing of `Arrays.asList` with the caller's varargs array: the fixed-size list is a copy in the model.
- TimeDomain.Inner: string lengths and positions count Unicode characters, while Java's `length` and `substring` count UTF-16 code units. With a character outside the Basic Multilingual Plane the results differ: for the one-character input `😀`, Java's length is 2 and the split ends in the unsupported-type exception, while the model gives the substring exception.
- DayOfWeekDomain.DayOfWeekTimeDomain.GetActiveDays: the active days are a set value. The source keeps the caller's `Set` object and `getActiveDays` hands it out, so a caller that later mutates that set changes what `isActiveAtTime` answers; this sharing is not modelled.
- Null references other than the modelled optional fields: `NullPointerException` paths are not modelled.
- Concurrency: none of the modelled code is synchronised, and the model is sequential.
- DayOfWeekDomain.CoveredImpliesActive: holds only for durations of at most one day at the domain's own offset, because longer windows are cut short by the source itself (see LongWindowIsCutShort).
