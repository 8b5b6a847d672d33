/** Dominated indexes (models/concrete_index.go:34-51) and the rollover job that prunes them
    (usecases/worker_jobs/index_rollover_job.go). */
module IndexPruning {
  import opened GoSets
  import opened IndexModels

  /** `i.IsSubset(rhs)`. */
  predicate IsSubset(i: Index, rhs: Index) {
    && i.table == rhs.table
    && |i.indexed| <= |rhs.indexed|
    && i.indexed == rhs.indexed[..|i.indexed|]
    && forall k :: 0 <= k < |i.included| ==> i.included[k] in rhs.included
  }

  /** `i.Equal(other)`. */
  predicate EqualIndexes(i: Index, other: Index) {
    && i.table == other.table && i.indexed == other.indexed
    && Elems(i.included) == Elems(other.included)
  }

  lemma SubsetIncluded(i: Index, j: Index)
    requires IsSubset(i, j)
    ensures Elems(i.included) <= Elems(j.included)
  {
  }

  /** A preorder whose equivalence is `Equal`. */
  lemma SubsetIsPreorder(i: Index, j: Index, k: Index)
    ensures IsSubset(i, i)
    ensures IsSubset(i, j) && IsSubset(j, k) ==> IsSubset(i, k)
    ensures IsSubset(i, j) && IsSubset(j, i) <==> EqualIndexes(i, j)
  {
    if EqualIndexes(i, j) {
      assert forall n :: 0 <= n < |i.included| ==> i.included[n] in Elems(i.included);
      assert forall n :: 0 <= n < |j.included| ==> j.included[n] in Elems(j.included);
    }
  }

  /** The family that only the leading columns of i, in their order, can serve. */
  function Demanding(i: Index): Family
    requires i.indexed != []
  {
    var m := |i.indexed| - 1;
    Family(i.table, i.indexed[..m], {}, i.indexed[m], Elems(i.included))
  }

  lemma DemandingIsCovered(i: Index, j: Index)
    requires i.indexed != [] && i.indexed[|i.indexed| - 1] != ""
    ensures CoversFolded(j, Demanding(i)) <==> IsSubset(i, j)
  {
    var f, m := Demanding(i), |i.indexed| - 1;
    FitsIffWindows(j.indexed, f);
    OrdersNone<string>({});
    assert i.indexed == i.indexed[..m] + [i.indexed[m]];
    assert m <= |j.indexed| ==> j.indexed[m..m] == [];
    if IsSubset(i, j) {
      assert j.indexed[..m + 1] == i.indexed;
      assert j.indexed[..m] == i.indexed[..m];
      SubsetIncluded(i, j);
    }
    if CoversFolded(j, f) {
      assert j.indexed[..m + 1] == j.indexed[..m] + [j.indexed[m]];
      assert forall k :: 0 <= k < |i.included| ==> i.included[k] in Elems(i.included);
      assert Elems(i.included) <= Elems(j.included);
    }
  }

  /** Being a subset is exactly covering no more: whatever i covers, j covers. Without indexed columns
      see `BareSubsetIff`. */
  lemma SubsetIffCoversLess(i: Index, j: Index)
    requires i.indexed != [] && i.indexed[|i.indexed| - 1] != ""
    ensures IsSubset(i, j) <==> forall f | CoversFolded(i, f) :: CoversFolded(j, f)
  {
    if IsSubset(i, j) {
      forall f | CoversFolded(i, f) ensures CoversFolded(j, f) {
        DominatingCoversFolded(i, j, f);
      }
    } else {
      SubsetIsPreorder(i, i, i);
      DemandingIsCovered(i, i);
      DemandingIsCovered(i, j);
    }
  }

  /** An index without columns covers only what asks for included columns of its table. */
  lemma BareSubsetIff(i: Index, j: Index)
    requires i.indexed == []
    ensures (forall f | CoversFolded(i, f) :: CoversFolded(j, f)) <==>
      i.table == j.table && Elems(i.included) <= Elems(j.included) + Elems(j.indexed)
  {
    var g := Family(i.table, [], {}, "", Elems(i.included));
    OrdersNone<string>({});
    forall f: Family, k | k in {i, j} && f.Size() == 0
      ensures CoversFolded(k, f) <==> k.table == f.table && f.included <= Elems(k.included) + Elems(k.indexed)
    {
      FitsIffWindows(k.indexed, f);
      assert k.indexed[0..] == k.indexed;
    }
    forall f: Family | CoversFolded(i, f) ensures f.Size() == 0 {
      FitsIffWindows(i.indexed, f);
    }
    assert g.Size() == 0 && Elems<string>([]) == {};
    assert CoversFolded(i, g);
    hide CoversFolded, Elems;
  }

  lemma FoldSubset(i: Index, j: Index, up: string -> string)
    requires IsSubset(i, j)
    ensures IsSubset(UpIndex(i, up), UpIndex(j, up))
  {
    var n := |i.indexed|;
    assert forall k :: 0 <= k < n ==> i.indexed[k] == j.indexed[..n][k];
    UpElems(i.included, up);
    UpElems(j.included, up);
    SubsetIncluded(i, j);
    var x, y := MapSlice(i.included, up), MapSlice(j.included, up);
    assert UpSet(Elems(i.included), up) <= UpSet(Elems(j.included), up);
    assert forall k :: 0 <= k < |x| ==> x[k] in Elems(x);
  }

  /** An index that dominates a covering index covers as well. */
  lemma DominatingCovers(i: Index, j: Index, f: Family, up: string -> string)
    requires IsSubset(i, j) && CoversSpec(i, f, up)
    ensures CoversSpec(j, f, up)
  {
    FoldSubset(i, j, up);
    DominatingCoversFolded(UpIndex(i, up), UpIndex(j, up), UpFamily(f, up));
  }

  lemma DominatingCoversFolded(i: Index, j: Index, f: Family)
    requires IsSubset(i, j) && CoversFolded(i, f)
    ensures CoversFolded(j, f)
  {
    assert i.indexed <= j.indexed;
    SubsetIncluded(i, j);
    FitsContains(i.indexed, f);
    TrailingGrows(i.indexed, j.indexed, f.Size());
    hide Elems, Orders, Trailing, IsSubset;
    var p :| Orders(p, f.flex) && f.Leading(p) <= i.indexed;
    assert f.Leading(p) <= j.indexed;
  }

  lemma TrailingGrows(c: seq<string>, d: seq<string>, n: nat)
    requires c <= d
    ensures Elems(Trailing(c, n)) <= Elems(Trailing(d, n))
  {
    if n <= |c| {
      assert forall k :: 0 <= k < |c| - n ==> c[n..][k] == d[n..][k];
    }
  }

  /** Equal indexes cover the same families. */
  lemma EqualIndexesCoverAlike(i: Index, j: Index, f: Family, up: string -> string)
    requires EqualIndexes(i, j)
    ensures CoversSpec(i, f, up) <==> CoversSpec(j, f, up)
  {
    SubsetIsPreorder(i, j, i);
    SubsetIsPreorder(j, i, j);
    if CoversSpec(i, f, up) {
      DominatingCovers(i, j, f, up);
    }
    if CoversSpec(j, f, up) {
      DominatingCovers(j, i, f, up);
    }
  }

  // ----- removals, one at a time -----

  datatype Removal = Removal(victim: nat, keeper: nat)

  /** The victim is dominated by another index that is still there. */
  predicate Justified(l: seq<Index>, r: Removal) {
    r.victim < |l| && r.keeper < |l| && r.victim != r.keeper && IsSubset(l[r.victim], l[r.keeper])
  }

  function Without<T>(l: seq<T>, k: nat): seq<T>
    requires k < |l|
  {
    l[..k] + l[k + 1..]
  }

  predicate JustifiedRun(l: seq<Index>, rs: seq<Removal>)
    decreases |rs|
  {
    rs != [] ==> Justified(l, rs[0]) && JustifiedRun(Without(l, rs[0].victim), rs[1..])
  }

  function AfterRemovals(l: seq<Index>, rs: seq<Removal>): seq<Index>
    requires JustifiedRun(l, rs)
    decreases |rs|
  {
    if rs == [] then l else AfterRemovals(Without(l, rs[0].victim), rs[1..])
  }

  ghost predicate SomeCovers(l: seq<Index>, f: Family, up: string -> string) {
    exists k :: 0 <= k < |l| && CoversSpec(l[k], f, up)
  }

  /** Any sequence of removals, each justified by a dominating index that is still present, leaves
      the set of covered families unchanged. */
  lemma {:induction false} RemovalsAreSafe(
      l: seq<Index>, rs: seq<Removal>, f: Family, up: string -> string)
    requires JustifiedRun(l, rs)
    ensures SomeCovers(AfterRemovals(l, rs), f, up) <==> SomeCovers(l, f, up)
    decreases |rs|
  {
    if rs != [] {
      RemovalIsSafe(l, rs[0], f, up);
      RemovalsAreSafe(Without(l, rs[0].victim), rs[1..], f, up);
    }
  }

  lemma RemovalIsSafe(l: seq<Index>, r: Removal, f: Family, up: string -> string)
    requires Justified(l, r)
    ensures SomeCovers(Without(l, r.victim), f, up) <==> SomeCovers(l, f, up)
  {
    hide CoversSpec;
    var w := Without(l, r.victim);
    if SomeCovers(l, f, up) {
      var k :| 0 <= k < |l| && CoversSpec(l[k], f, up);
      if k == r.victim {
        DominatingCovers(l[r.victim], l[r.keeper], f, up);
      }
      var m := if k == r.victim then r.keeper else k;
      assert w[if m < r.victim then m else m - 1] == l[m];
    }
    if SomeCovers(w, f, up) {
      var k :| 0 <= k < |w| && CoversSpec(w[k], f, up);
      assert l[if k < r.victim then k else k + 1] == w[k];
    }
  }

  // ----- the rollover job -----

  datatype Named = Named(name: string, index: Index)

  /** lhs is passed over because of rhs: the comparison is made against the full list. */
  predicate Subsumes(rhs: Named, lhs: Named) {
    lhs.name != rhs.name && IsSubset(lhs.index, rhs.index)
  }

  predicate Optimal(required: seq<Named>, x: Named) {
    forall k :: 0 <= k < |required| ==> !Subsumes(required[k], x)
  }

  function OptimalIndexes(required: seq<Named>, n: nat): seq<Named>
    requires n <= |required|
  {
    if n == 0 then []
    else OptimalIndexes(required, n - 1)
         + if Optimal(required, required[n - 1]) then [required[n - 1]] else []
  }

  /** The loops labelled `RemoveSubsumedIndices`. */
  method RemoveSubsumed(required: seq<Named>) returns (optimal: seq<Named>)
    ensures optimal == OptimalIndexes(required, |required|)
  {
    optimal := [];
    for n := 0 to |required|
      invariant optimal == OptimalIndexes(required, n)
    {
      var lhs := required[n];
      var subsumed := false;
      var k := 0;
      while k < |required| && !subsumed
        invariant 0 <= k <= |required|
        invariant subsumed ==> !Optimal(required, lhs)
        invariant !subsumed ==> forall j :: 0 <= j < k ==> !Subsumes(required[j], lhs)
      {
        if lhs.name != required[k].name && IsSubset(lhs.index, required[k].index) {
          assert Subsumes(required[k], lhs);
          subsumed := true;
        }
        k := k + 1;
      }
      if !subsumed {
        optimal := optimal + [lhs];
      }
    }
  }

  lemma {:induction false} OptimalMembers(required: seq<Named>, n: nat, x: Named)
    requires n <= |required|
    ensures x in OptimalIndexes(required, n) <==> x in required[..n] && Optimal(required, x)
  {
    if n > 0 {
      OptimalMembers(required, n - 1, x);
      assert required[..n] == required[..n - 1] + [required[n - 1]];
    }
  }

  /** Every required index has a kept index that dominates it. */
  ghost predicate NothingLost(required: seq<Named>) {
    forall x | x in required ::
      exists y :: y in OptimalIndexes(required, |required|) && IsSubset(x.index, y.index)
  }

  /** Two indexes with different names on the same columns. */
  predicate Twins(x: Named, y: Named) {
    x.name != y.name && IsSubset(x.index, y.index) && IsSubset(y.index, x.index)
  }

  /** z is strictly larger than x. */
  predicate StrictlyAbove(z: Named, x: Named) {
    IsSubset(x.index, z.index) && !IsSubset(z.index, x.index)
  }

  /** Every pair of twins lies strictly below some required index. */
  ghost predicate TwinsAreDominated(required: seq<Named>) {
    forall x, y | x in required && y in required && Twins(x, y) ::
      exists z :: z in required && StrictlyAbove(z, x)
  }

  /** How large an index is: it grows strictly along `StrictlyAbove`. */
  function Weight(i: Index): nat {
    |i.indexed| + |Elems(i.included)|
  }

  lemma AboveIsHeavier(z: Named, x: Named)
    requires StrictlyAbove(z, x)
    ensures Weight(z.index) > Weight(x.index)
  {
    SubsetIncluded(x.index, z.index);
    SubsetSize(Elems(x.index.included), Elems(z.index.included));
    if |x.index.indexed| == |z.index.indexed| && Elems(x.index.included) == Elems(z.index.included) {
      SubsetIsPreorder(z.index, x.index, z.index);
    }
  }

  lemma {:induction false} HeaviestBound(required: seq<Named>) returns (bound: nat)
    ensures forall x | x in required :: Weight(x.index) <= bound
  {
    bound := 0;
    if required != [] {
      bound := HeaviestBound(required[1..]);
      var w := Weight(required[0].index);
      bound := if w > bound then w else bound;
    }
  }

  /** Climbing from x: an index passed over because of a twin has something strictly above it. */
  lemma {:induction false} Climb(required: seq<Named>, x: Named, bound: nat) returns (y: Named)
    requires TwinsAreDominated(required) && x in required
    requires forall z | z in required :: Weight(z.index) <= bound
    ensures y in required && Optimal(required, y) && IsSubset(x.index, y.index)
    decreases bound - Weight(x.index)
  {
    SubsetIsPreorder(x.index, x.index, x.index);
    y := x;
    if !Optimal(required, x) {
      var k :| 0 <= k < |required| && Subsumes(required[k], x);
      var z := required[k];
      assert z in required;
      if IsSubset(z.index, x.index) {
        assert Twins(x, z);
        z :| z in required && StrictlyAbove(z, x);
      }
      AboveIsHeavier(z, x);
      y := Climb(required, z, bound);
      SubsetIsPreorder(x.index, z.index, y.index);
    }
  }

  /** The job compares each index with the full list, so it drops both of two equal indexes with
      different names. It keeps a dominating index for every required one exactly when every such
      pair lies strictly below another required index. */
  lemma NothingLostIffTwinsDominated(required: seq<Named>)
    ensures NothingLost(required) <==> TwinsAreDominated(required)
  {
    var n := |required|;
    assert required[..n] == required;
    if TwinsAreDominated(required) {
      var bound := HeaviestBound(required);
      forall x | x in required
        ensures exists y :: y in OptimalIndexes(required, n) && IsSubset(x.index, y.index)
      {
        var y := Climb(required, x, bound);
        OptimalMembers(required, n, y);
      }
    }
    if NothingLost(required) {
      forall x, y | x in required && y in required && Twins(x, y)
        ensures exists z :: z in required && StrictlyAbove(z, x)
      {
        var z :| z in OptimalIndexes(required, n) && IsSubset(x.index, z.index);
        OptimalMembers(required, n, z);
        KeptIsAboveTwins(required, x, y, z);
      }
    }
  }

  lemma KeptIsAboveTwins(required: seq<Named>, x: Named, y: Named, z: Named)
    requires x in required && y in required && Twins(x, y)
    requires z in required && Optimal(required, z) && IsSubset(x.index, z.index)
    ensures StrictlyAbove(z, x)
  {
    SubsetIsPreorder(z.index, x.index, y.index);
  }

  ghost predicate SomeNamedCovers(l: seq<Named>, f: Family, up: string -> string) {
    exists x :: x in l && CoversSpec(x.index, f, up)
  }

  /** Then no family stops being covered. */
  lemma PruningIsSafe(required: seq<Named>, f: Family, up: string -> string)
    requires TwinsAreDominated(required)
    ensures SomeNamedCovers(OptimalIndexes(required, |required|), f, up)
       <==> SomeNamedCovers(required, f, up)
  {
    NothingLostIffTwinsDominated(required);
    hide CoversSpec, IsSubset, OptimalIndexes;
    var optimal := OptimalIndexes(required, |required|);
    if SomeNamedCovers(required, f, up) {
      var x :| x in required && CoversSpec(x.index, f, up);
      var y :| y in optimal && IsSubset(x.index, y.index);
      DominatingCovers(x.index, y.index, f, up);
    }
    if SomeNamedCovers(optimal, f, up) {
      var x :| x in optimal && CoversSpec(x.index, f, up);
      OptimalMembers(required, |required|, x);
    }
  }

  /** Two equal indexes under different names, and nothing else: none is kept. */
  lemma TwinsVanish(x: Named, y: Named)
    requires Twins(x, y)
    ensures OptimalIndexes([x, y], 2) == []
  {
    assert [x, y][0] == x && [x, y][1] == y;
    assert Subsumes(y, x) && Subsumes(x, y);
    assert OptimalIndexes([x, y], 1) == [];
  }

  /** `strings.HasPrefix`. */
  predicate HasPrefix(s: string, prefix: string) {
    prefix <= s
  }

  predicate HasSuffix(s: string, suffix: string) {
    |suffix| <= |s| && s[|s| - |suffix|..] == suffix
  }

  /** The tests an index has to pass in the loop labelled `IndexDeletion` to be deleted. */
  predicate Deletable(x: Named, optimal: seq<Named>) {
    && HasPrefix(x.name, "idx_") && HasPrefix(x.name, "obj_") && !HasSuffix(x.name, "_pkey")
    && forall k :: 0 <= k < |optimal| ==> !EqualIndexes(optimal[k].index, x.index)
  }

  /** The prefix tests exclude each other, so the job never deletes anything. */
  lemma NothingIsDeleted(x: Named, optimal: seq<Named>)
    ensures !Deletable(x, optimal)
  {
    assert "idx_"[0] != "obj_"[0];
  }
}
