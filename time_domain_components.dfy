/** TimeDomainComponents: the start string and the duration string that the splitter cuts
    out of one time-domain expression. The constructor stores both strings as given and
    checks nothing, so the record is a plain datatype. */
module Components {

  datatype TimeDomainComponents = TimeDomainComponents(startString: string, durationString: string)

  const StartLabel := "(start: "
  const DurationLabel := ", duration: "

  /** toString(): "(start: <start>, duration: <duration>)". */
  function ToString(c: TimeDomainComponents): (r: string)
    ensures |r| == |StartLabel| + |c.startString| + |DurationLabel| + |c.durationString| + 1
    ensures r[..|StartLabel|] == StartLabel
    ensures r[|StartLabel|..|StartLabel| + |c.startString|] == c.startString
    ensures r[|StartLabel| + |c.startString|..|StartLabel| + |c.startString| + |DurationLabel|] == DurationLabel
    ensures r[|r| - 1 - |c.durationString|..|r| - 1] == c.durationString
    ensures r[|r| - 1] == ')'
  {
    StartLabel + c.startString + DurationLabel + c.durationString + ")"
  }

  /** The two strings can be read back out of toString() once the start string's length is
      known, so distinct records with equally long start strings print differently. */
  lemma ToStringRecoversFields(a: TimeDomainComponents, b: TimeDomainComponents)
    requires |a.startString| == |b.startString|
    requires ToString(a) == ToString(b)
    ensures a == b
  {
    var ra, rb := ToString(a), ToString(b);
    var n := |StartLabel|;
    assert a.startString == ra[n..n + |a.startString|] == rb[n..n + |b.startString|] == b.startString;
    assert |a.durationString| == |b.durationString|;
    assert a.durationString == ra[|ra| - 1 - |a.durationString|..|ra| - 1] == b.durationString;
  }
}
