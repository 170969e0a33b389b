/** BasicPopulation: a list of individuals, an optional filter chain, and the skip flags the
    chain produces. */
module Populations {
  import opened Wrappers

  /** Some filter of the chain rejects the individual. */
  predicate Rejected<F, I>(filters: seq<F>, individual: I, accepts: (F, I) -> bool) {
    exists k :: 0 <= k < |filters| && !accepts(filters[k], individual)
  }

  /** The chain split in two rejects when either part does. */
  lemma RejectedConcat<F, I>(a: seq<F>, b: seq<F>, individual: I, accepts: (F, I) -> bool)
    ensures Rejected(a + b, individual, accepts) <==> Rejected(a, individual, accepts) || Rejected(b, individual, accepts)
  {
    if Rejected(a + b, individual, accepts) {
      var k :| 0 <= k < |a + b| && !accepts((a + b)[k], individual);
      if k >= |a| {
        assert b[k - |a|] == (a + b)[k];
      }
    }
    if Rejected(a, individual, accepts) {
      var k :| 0 <= k < |a| && !accepts(a[k], individual);
      assert (a + b)[k] == a[k];
    }
    if Rejected(b, individual, accepts) {
      var k :| 0 <= k < |b| && !accepts(b[k], individual);
      assert (a + b)[|a| + k] == b[k];
    }
  }

  /** Only which filters are in the chain matters, not their order or repetition. */
  lemma RejectedSameFilters<F, I>(a: seq<F>, b: seq<F>, individual: I, accepts: (F, I) -> bool)
    requires forall f :: f in a <==> f in b
    ensures Rejected(a, individual, accepts) <==> Rejected(b, individual, accepts)
  {
    if Rejected(a, individual, accepts) {
      var k :| 0 <= k < |a| && !accepts(a[k], individual);
      assert a[k] in b;
      var j :| 0 <= j < |b| && b[j] == a[k];
    }
    if Rejected(b, individual, accepts) {
      var k :| 0 <= k < |b| && !accepts(b[k], individual);
      assert b[k] in a;
      var j :| 0 <= j < |a| && a[j] == b[k];
    }
  }

  /** In particular, reordering the filters changes no skip flag. */
  lemma RejectedPermutation<F, I>(a: seq<F>, b: seq<F>, individual: I, accepts: (F, I) -> bool)
    requires multiset(a) == multiset(b)
    ensures Rejected(a, individual, accepts) <==> Rejected(b, individual, accepts)
  {
    forall f
      ensures f in a <==> f in b
    {
      assert f in a <==> f in multiset(a);
      assert f in b <==> f in multiset(b);
    }
    RejectedSameFilters(a, b, individual, accepts);
  }

  /** One more filter at the end of the chain: the old flag OR its rejection. */
  lemma RejectedSnoc<F, I>(a: seq<F>, f: F, individual: I, accepts: (F, I) -> bool)
    ensures Rejected(a + [f], individual, accepts) <==> Rejected(a, individual, accepts) || !accepts(f, individual)
  {
    RejectedConcat(a, [f], individual, accepts);
    assert Rejected([f], individual, accepts) <==> !accepts(f, individual) by {
      assert [f][0] == f;
    }
  }

  /** The flag applyFilterChain leaves for one individual: false without a chain. */
  predicate Skipped<F, I>(filters: Option<seq<F>>, individual: I, accepts: (F, I) -> bool) {
    filters.Some? && Rejected(filters.value, individual, accepts)
  }

  /** An empty chain, like no chain, skips nobody. */
  lemma EmptyChainSkipsNobody<F, I>(filters: Option<seq<F>>, individual: I, accepts: (F, I) -> bool)
    requires filters.None? || filters.value == []
    ensures !Skipped(filters, individual, accepts)
  {
  }

  class BasicPopulation<I, F> {
    var sourceFilename: Option<string>
    var individuals: seq<I>
    /** The list came from Arrays.asList, which cannot grow. */
    var fixedSize: bool
    var filters: Option<seq<F>>
    var skip: array?<bool>

    /** The no-argument constructor: an empty growable list, no filters, no skip flags. */
    constructor ()
      ensures individuals == [] && !fixedSize
      ensures filters.None? && skip == null && sourceFilename.None?
    {
      sourceFilename := None;
      individuals := [];
      fixedSize := false;
      filters := None;
      skip := null;
    }

    /** The varargs constructor: Arrays.asList keeps the given order in a fixed-size list. */
    constructor OfIndividuals(individuals: seq<I>)
      ensures this.individuals == individuals && fixedSize
      ensures filters.None? && skip == null && sourceFilename.None?
    {
      sourceFilename := None;
      this.individuals := individuals;
      fixedSize := true;
      filters := None;
      skip := null;
    }

    /** The Collection constructor: a growable copy, in the collection's iteration order. */
    constructor FromCollection(individuals: seq<I>)
      ensures this.individuals == individuals && !fixedSize
      ensures filters.None? && skip == null && sourceFilename.None?
    {
      sourceFilename := None;
      this.individuals := individuals;
      fixedSize := false;
      filters := None;
      skip := null;
    }

    /** size(): the number of individuals, which addIndividual raises by one. */
    function Size(): (n: nat)
      reads this
      ensures n == |individuals|
    {
      |individuals|
    }

    /** addIndividual: appends at the end; on a fixed-size list add throws
        UnsupportedOperationException (ok is false) and nothing changes. */
    method AddIndividual(individual: I) returns (ok: bool)
      modifies this`individuals
      ensures ok <==> !fixedSize
      ensures ok ==> individuals == old(individuals) + [individual]
      ensures ok ==> Size() == old(Size()) + 1 && individuals[..old(Size())] == old(individuals)
      ensures !ok ==> individuals == old(individuals)
    {
      if fixedSize {
        return false;
      }
      individuals := individuals + [individual];
      ok := true;
    }

    /** clearIndividuals: does nothing. */
    method ClearIndividuals(individuals: seq<I>)
      ensures unchanged(this)
    {
    }

    /** createIndividuals: nothing to load in the basic case. */
    method CreateIndividuals()
      ensures unchanged(this)
    {
    }

    /** applyFilterChain: a fresh all-false flag array with one entry per individual; every
        filter ORs its rejections into it. */
    method ApplyFilterChain(accepts: (F, I) -> bool)
      modifies this`skip
      ensures skip != null && fresh(skip) && skip.Length == |individuals|
      ensures forall i :: 0 <= i < skip.Length ==> skip[i] == Skipped(filters, individuals[i], accepts)
    {
      var flags := new bool[|individuals|](_ => false);
      skip := flags;
      if filters.None? {
        return;
      }
      var chain := filters.value;
      for j := 0 to |chain|
        invariant skip == flags && flags.Length == |individuals|
        invariant forall i :: 0 <= i < |individuals| ==> flags[i] == Rejected(chain[..j], individuals[i], accepts)
      {
        var filter := chain[j];
        assert chain[..j + 1] == chain[..j] + [filter];
        for i := 0 to |individuals|
          invariant skip == flags
          invariant forall k :: 0 <= k < i ==> flags[k] == Rejected(chain[..j + 1], individuals[k], accepts)
          invariant forall k :: i <= k < |individuals| ==> flags[k] == Rejected(chain[..j], individuals[k], accepts)
        {
          var skipThis := !accepts(filter, individuals[i]);
          RejectedSnoc(chain[..j], filter, individuals[i], accepts);
          flags[i] := flags[i] || skipThis;
        }
      }
      assert chain[..|chain|] == chain;
    }

    /** SuperSetup: createIndividuals, then applyFilterChain over what it produced. */
    method SuperSetup(accepts: (F, I) -> bool)
      modifies this`skip
      ensures individuals == old(individuals) && filters == old(filters)
      ensures skip != null && fresh(skip) && skip.Length == |individuals|
      ensures forall i :: 0 <= i < skip.Length ==> skip[i] == Skipped(filters, individuals[i], accepts)
    {
      CreateIndividuals();
      ApplyFilterChain(accepts);
    }
  }
}
