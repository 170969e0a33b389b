/** DoubleEndpointSampleSet: for every point of a point set, the two street vertices at the
    ends of its road and the times to reach them, stored as four columns; eval turns a time
    surface into one travel time per point. */
module SampleSets {
  import opened Wrappers
  import opened JavaInt

  /** The coordinates of the points; `capacity` of them are sampled. */
  datatype PointSet = PointSet(capacity: nat, lons: seq<real>, lats: seq<real>)

  /** What SampleSource.getSample returns for a point it can link: the two end vertices
      (either may be null) and the times to them. */
  datatype Sample<V> = Sample(v0: Option<V>, v1: Option<V>, t0: Int32, t1: Int32)

  /** The time through one end: MAX_VALUE when that end has no vertex or the surface does
      not reach it, otherwise the surface time plus the time to the end, as a Java int. */
  function EndpointTime<V>(v: Option<V>, t: Int32, getTime: V -> Int32, unreachable: Int32): (m: Int32)
    ensures v.None? ==> m == IntMax
    ensures v.Some? && getTime(v.value) == unreachable ==> m == IntMax
    ensures v.Some? && getTime(v.value) != unreachable ==> m == Wrap32(getTime(v.value) + t)
  {
    match v
    case None => IntMax
    case Some(x) =>
      var s := getTime(x);
      if s != unreachable then Wrap32(s as int + t as int) else IntMax
  }

  /** `(m0 < m1) ? m0 : m1`. */
  function Min(m0: Int32, m1: Int32): (m: Int32)
    ensures m <= m0 && m <= m1
    ensures m == m0 || m == m1
  {
    if m0 < m1 then m0 else m1
  }

  /** The value eval computes for one point from its four column entries. */
  function PointTime<V>(v0: Option<V>, v1: Option<V>, t0: Int32, t1: Int32,
                        getTime: V -> Int32, unreachable: Int32): Int32
  {
    Min(EndpointTime(v0, t0, getTime, unreachable), EndpointTime(v1, t1, getTime, unreachable))
  }

  /** A point is no better than either of its ends, and equal to one of them. */
  lemma PointTimeIsBestEnd<V>(v0: Option<V>, v1: Option<V>, t0: Int32, t1: Int32,
                              getTime: V -> Int32, unreachable: Int32)
    ensures var m := PointTime(v0, v1, t0, t1, getTime, unreachable);
            && m <= EndpointTime(v0, t0, getTime, unreachable)
            && m <= EndpointTime(v1, t1, getTime, unreachable)
            && (m == EndpointTime(v0, t0, getTime, unreachable) || m == EndpointTime(v1, t1, getTime, unreachable))
  {
  }

  /** Swapping the two ends of the road changes nothing. */
  lemma PointTimeSymmetric<V>(v0: Option<V>, v1: Option<V>, t0: Int32, t1: Int32,
                              getTime: V -> Int32, unreachable: Int32)
    ensures PointTime(v0, v1, t0, t1, getTime, unreachable) == PointTime(v1, v0, t1, t0, getTime, unreachable)
  {
  }

  /** A point without sample (both vertices null), or whose two ends the surface does not
      reach, evaluates to MAX_VALUE. */
  lemma UnreachedPointIsMax<V>(v0: Option<V>, v1: Option<V>, t0: Int32, t1: Int32,
                               getTime: V -> Int32, unreachable: Int32)
    requires v0.None? || getTime(v0.value) == unreachable
    requires v1.None? || getTime(v1.value) == unreachable
    ensures PointTime(v0, v1, t0, t1, getTime, unreachable) == IntMax
  {
  }

  /** When the sums fit in an int, the result is the smaller of the two exact sums. */
  lemma ReachedPointIsExactMin<V>(x0: V, x1: V, t0: Int32, t1: Int32, getTime: V -> Int32, unreachable: Int32)
    requires getTime(x0) != unreachable && getTime(x1) != unreachable
    requires IntMin <= getTime(x0) + t0 <= IntMax && IntMin <= getTime(x1) + t1 <= IntMax
    ensures var m := PointTime(Some(x0), Some(x1), t0, t1, getTime, unreachable);
            && m <= getTime(x0) + t0 && m <= getTime(x1) + t1
            && (m == getTime(x0) + t0 || m == getTime(x1) + t1)
  {
  }

  /** The int sum wraps: a surface time near MAX_VALUE plus a positive time to the end
      becomes a large negative time, which then wins the minimum. */
  lemma OverflowWinsMinimum(x0: int, x1: int, getTime: int -> Int32)
    requires getTime(x0) == IntMax - 10 && getTime(x1) == 100
    ensures PointTime(Some(x0), Some(x1), 20, 5, getTime, -1) == IntMin + 9
  {
    assert Wrap32(IntMax + 10) == IntMin + 9;
  }

  class DoubleEndpointSampleSet<V> {
    const pset: PointSet
    const v0s: array<Option<V>>
    const v1s: array<Option<V>>
    const t0s: array<Int32>
    const t1s: array<Int32>

    /** The four columns have one entry per point and are four different arrays. */
    ghost predicate Valid()
      reads this
    {
      && v0s.Length == v1s.Length == t0s.Length == t1s.Length == pset.capacity
      && v0s != v1s && t0s != t1s
    }

    /** Index i of the columns holds `sample`: its vertices and times, or null vertices and
        MAX_VALUE times when there is none. */
    ghost predicate Holds(i: nat, sample: Option<Sample<V>>)
      requires Valid() && i < pset.capacity
      reads this, v0s, v1s, t0s, t1s
    {
      match sample
      case None => v0s[i].None? && v1s[i].None? && t0s[i] == IntMax && t1s[i] == IntMax
      case Some(s) => v0s[i] == s.v0 && v1s[i] == s.v1 && t0s[i] == s.t0 && t1s[i] == s.t1
    }

    /** The constructor: one sample per point, asked of the sample source at the point's
        coordinates. */
    constructor (pset: PointSet, sfac: (real, real) -> Option<Sample<V>>)
      requires pset.capacity <= |pset.lons| && pset.capacity <= |pset.lats|
      ensures this.pset == pset && Valid()
      ensures fresh(v0s) && fresh(v1s) && fresh(t0s) && fresh(t1s)
      ensures forall i :: 0 <= i < pset.capacity ==> Holds(i, sfac(pset.lons[i], pset.lats[i]))
    {
      var n := pset.capacity;
      var a0 := new Option<V>[n](_ => None);
      var a1 := new Option<V>[n](_ => None);
      var b0 := new Int32[n](_ => 0);
      var b1 := new Int32[n](_ => 0);
      for i := 0 to n
        invariant forall k :: 0 <= k < i ==>
          match sfac(pset.lons[k], pset.lats[k])
          case None => a0[k].None? && a1[k].None? && b0[k] == IntMax && b1[k] == IntMax
          case Some(s) => a0[k] == s.v0 && a1[k] == s.v1 && b0[k] == s.t0 && b1[k] == s.t1
        invariant forall k :: i <= k < n ==> a0[k].None? && a1[k].None?
      {
        var sample := sfac(pset.lons[i], pset.lats[i]);
        if sample.None? {
          b0[i] := IntMax;
          b1[i] := IntMax;
          continue;
        }
        a0[i] := sample.value.v0;
        a1[i] := sample.value.v1;
        b0[i] := sample.value.t0;
        b1[i] := sample.value.t1;
      }
      this.pset := pset;
      v0s, v1s, t0s, t1s := a0, a1, b0, b1;
    }

    /** eval(surf): a new array with the point time of every point. */
    method Eval(getTime: V -> Int32, unreachable: Int32) returns (ret: array<Int32>)
      requires Valid()
      ensures fresh(ret) && ret.Length == pset.capacity
      ensures forall i :: 0 <= i < ret.Length ==>
                ret[i] == PointTime(v0s[i], v1s[i], t0s[i], t1s[i], getTime, unreachable)
    {
      ret := new Int32[pset.capacity](_ => 0);
      for i := 0 to pset.capacity
        invariant forall k :: 0 <= k < i ==>
                    ret[k] == PointTime(v0s[k], v1s[k], t0s[k], t1s[k], getTime, unreachable)
      {
        var m0: Int32 := IntMax;
        var m1: Int32 := IntMax;
        if v0s[i].Some? {
          var s0 := getTime(v0s[i].value);
          if s0 != unreachable {
            m0 := Wrap32(s0 as int + t0s[i] as int);
          }
        }
        if v1s[i].Some? {
          var s1 := getTime(v1s[i].value);
          if s1 != unreachable {
            m1 := Wrap32(s1 as int + t1s[i] as int);
          }
        }
        assert m0 == EndpointTime(v0s[i], t0s[i], getTime, unreachable);
        assert m1 == EndpointTime(v1s[i], t1s[i], getTime, unreachable);
        ret[i] := if m0 < m1 then m0 else m1;
      }
    }
  }
}
