/** TurnRestriction: a turn from one edge to another, in force at the instants that every
    attached time domain covers. */
module TurnRestrictions {
  import opened Wrappers
  import opened DayOfWeekDomain

  /** Every domain of the list is active at t. */
  predicate AllActiveAt(domains: seq<DayOfWeekTimeDomain>, t: int)
    requires forall d :: d in domains ==> d.Valid()
    reads set d | d in domains
  {
    forall k :: 0 <= k < |domains| ==> domains[k].IsActiveAtTime(t)
  }

  /** The conjunction does not depend on the order (or repetition pattern) of the list: only
      on which domains are in it. */
  lemma AllActiveAtSameDomains(a: seq<DayOfWeekTimeDomain>, b: seq<DayOfWeekTimeDomain>, t: int)
    requires forall d :: d in a ==> d.Valid()
    requires forall d :: d in a <==> d in b
    ensures AllActiveAt(a, t) == AllActiveAt(b, t)
  {
    if AllActiveAt(a, t) {
      forall k | 0 <= k < |b|
        ensures b[k].IsActiveAtTime(t)
      {
        assert b[k] in a;
      }
    }
    if AllActiveAt(b, t) {
      forall k | 0 <= k < |a|
        ensures a[k].IsActiveAtTime(t)
      {
        assert a[k] in b;
      }
    }
  }

  /** In particular a permutation of the list gives the same answer. */
  lemma AllActiveAtPermutation(a: seq<DayOfWeekTimeDomain>, b: seq<DayOfWeekTimeDomain>, t: int)
    requires forall d :: d in a ==> d.Valid()
    requires multiset(a) == multiset(b)
    ensures forall d :: d in b ==> d.Valid()
    ensures AllActiveAt(a, t) == AllActiveAt(b, t)
  {
    forall d
      ensures d in a <==> d in b
    {
      assert d in a <==> d in multiset(a);
      assert d in b <==> d in multiset(b);
    }
    AllActiveAtSameDomains(a, b, t);
  }

  /** Splitting the list splits the conjunction. */
  lemma AllActiveAtConcat(a: seq<DayOfWeekTimeDomain>, b: seq<DayOfWeekTimeDomain>, t: int)
    requires forall d :: d in a + b ==> d.Valid()
    ensures AllActiveAt(a + b, t) == (AllActiveAt(a, t) && AllActiveAt(b, t))
  {
    assert forall k :: 0 <= k < |a| ==> (a + b)[k] == a[k];
    assert forall k :: 0 <= k < |b| ==> (a + b)[|a| + k] == b[k];
  }

  /** A domain with no active day, wherever it stands, blocks the restriction at every
      instant. */
  lemma NoDayDomainBlocks(domains: seq<DayOfWeekTimeDomain>, k: nat, t: int)
    requires forall d :: d in domains ==> d.Valid()
    requires k < |domains| && domains[k].activeDays == {}
    ensures !AllActiveAt(domains, t)
  {
    assert !domains[k].IsActiveAtTime(t);
  }

  class TurnRestriction<Edge, Kind, Modes> {
    var restrictionType: Option<Kind>
    var from: Option<Edge>
    var to: Option<Edge>
    var timeDomains: Option<seq<DayOfWeekTimeDomain>>
    var modes: Option<Modes>

    /** Every attached domain is well formed. */
    ghost predicate Valid()
      reads this, set d | timeDomains.Some? && d in timeDomains.value
    {
      timeDomains.Some? ==> forall d :: d in timeDomains.value ==> d.Valid()
    }

    /** The no-argument constructor: no time domains, so always in force. */
    constructor ()
      ensures Valid()
      ensures restrictionType.None? && from.None? && to.None? && modes.None?
      ensures timeDomains.None?
    {
      restrictionType, from, to, modes := None, None, None, None;
      timeDomains := None;
    }

    /** The convenience constructor: the given ends, type and modes, still no time domains. */
    constructor Between(from: Option<Edge>, to: Option<Edge>, restrictionType: Option<Kind>, modes: Option<Modes>)
      ensures Valid()
      ensures this.from == from && this.to == to
      ensures this.restrictionType == restrictionType && this.modes == modes
      ensures timeDomains.None?
    {
      this.timeDomains := None;
      this.from := from;
      this.to := to;
      this.restrictionType := restrictionType;
      this.modes := modes;
    }

    /** active(time): true without a domain list, otherwise the `&=` fold over the list. */
    method Active(time: int) returns (ret: bool)
      requires Valid()
      ensures ret <==> (timeDomains.None? || AllActiveAt(timeDomains.value, time))
    {
      ret := true;
      if timeDomains.Some? {
        var domains := timeDomains.value;
        for k := 0 to |domains|
          invariant ret <==> AllActiveAt(domains[..k], time)
        {
          assert domains[..k + 1] == domains[..k] + [domains[k]];
          AllActiveAtConcat(domains[..k], [domains[k]], time);
          ret := ret && domains[k].IsActiveAtTime(time);
        }
        assert domains[..|domains|] == domains;
      }
    }
  }
}
