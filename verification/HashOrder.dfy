/** The order in which the families of a table are reduced (usecases/indexes/index_family.go:26 and
    63-70): by hash. With clean names it depends on nothing but the set of families. */
module HashOrder {
  import opened GoSets
  import opened Sorting
  import opened IndexModels
  import opened Hashing
  import opened QueryExpansion
  import opened MergeRun

  function Place(l: seq<Family>, f: Family, hash: Family -> string): seq<Family> {
    if l == [] then [f]
    else
      var m := |l| - 1;
      if Le(hash(l[m]), hash(f)) then l + [f] else Place(l[..m], f, hash) + [l[m]]
  }

  function ByHash(l: seq<Family>, hash: Family -> string): seq<Family> {
    if l == [] then [] else Place(ByHash(l[..|l| - 1], hash), l[|l| - 1], hash)
  }

  predicate SortedByHash(l: seq<Family>, hash: Family -> string) {
    forall i, j :: 0 <= i < j < |l| ==> Le(hash(l[i]), hash(l[j]))
  }

  lemma {:induction false} PlaceSorts(l: seq<Family>, f: Family, hash: Family -> string)
    requires SortedByHash(l, hash)
    ensures multiset(Place(l, f, hash)) == multiset(l) + multiset{f}
    ensures SortedByHash(Place(l, f, hash), hash)
  {
    hide Le;
    if l != [] {
      var m := |l| - 1;
      var init, last := l[..m], l[m];
      assert l == init + [last];
      LeTotal(hash(last), hash(f));
      if Le(hash(last), hash(f)) {
        AppendGreatest(l, f, hash);
      } else {
        PlaceSorts(init, f, hash);
        AppendLast(Place(init, f, hash), init, f, last, hash);
      }
    }
  }

  lemma AppendGreatest(l: seq<Family>, f: Family, hash: Family -> string)
    requires SortedByHash(l, hash) && l != [] && Le(hash(l[|l| - 1]), hash(f))
    ensures SortedByHash(l + [f], hash)
  {
    hide Le;
    forall i | 0 <= i < |l| ensures Le(hash(l[i]), hash(f)) {
      if i < |l| - 1 {
        LeTransitive(hash(l[i]), hash(l[|l| - 1]), hash(f));
      }
    }
  }

  lemma AppendLast(r: seq<Family>, init: seq<Family>, f: Family, last: Family, hash: Family -> string)
    requires multiset(r) == multiset(init) + multiset{f} && SortedByHash(r, hash)
    requires SortedByHash(init + [last], hash) && Le(hash(f), hash(last))
    ensures SortedByHash(r + [last], hash)
  {
    hide Le;
    forall i | 0 <= i < |r| ensures Le(hash(r[i]), hash(last)) {
      assert r[i] in multiset(r);
      if r[i] in init {
        var j :| 0 <= j < |init| && init[j] == r[i];
        assert (init + [last])[j] == r[i] && (init + [last])[|init|] == last;
      }
    }
  }

  /** A sorted permutation. */
  lemma {:induction false} ByHashSorts(l: seq<Family>, hash: Family -> string)
    ensures multiset(ByHash(l, hash)) == multiset(l) && SortedByHash(ByHash(l, hash), hash)
  {
    hide Place, Le;
    if l != [] {
      var m := |l| - 1;
      ByHashSorts(l[..m], hash);
      PlaceSorts(ByHash(l[..m], hash), l[m], hash);
      assert l == l[..m] + [l[m]];
    }
  }

  lemma ByHashMembers(l: seq<Family>, hash: Family -> string, f: Family)
    ensures f in ByHash(l, hash) <==> f in l
  {
    ByHashSorts(l, hash);
    assert f in ByHash(l, hash) <==> f in multiset(ByHash(l, hash));
    assert f in l <==> f in multiset(l);
  }

  /** Sorted permutations of one another are equal when the hash tells their members apart. */
  lemma {:induction false} SortedByHashIsUnique(p: seq<Family>, q: seq<Family>, hash: Family -> string)
    requires multiset(p) == multiset(q) && SortedByHash(p, hash) && SortedByHash(q, hash)
    requires InjectiveHash(hash, Elems(p))
    ensures p == q
    decreases |p|
  {
    hide SortedByHash, Le;
    SameLength(p, q);
    if p != [] {
      var m := |p| - 1;
      LastIsGreatest(p, q, hash);
      LastIsGreatest(q, p, hash);
      LeTotal(hash(p[m]), hash(q[m]));
      WithoutLast(p, hash);
      WithoutLast(q, hash);
      assert q[m] in multiset(p);
      assert p[m] == q[m];
      SortedByHashIsUnique(p[..m], q[..m], hash);
      SameByParts(p, q, m);
    }
  }

  lemma SameByParts<T>(p: seq<T>, q: seq<T>, m: nat)
    requires |p| == |q| == m + 1 && p[..m] == q[..m] && p[m] == q[m]
    ensures p == q
  {
    assert p == p[..m] + [p[m]] && q == q[..m] + [q[m]];
  }

  lemma SameLength(p: seq<Family>, q: seq<Family>)
    requires multiset(p) == multiset(q)
    ensures |p| == |q|
  {
    assert |p| == |multiset(p)| && |q| == |multiset(q)|;
  }

  lemma WithoutLast(p: seq<Family>, hash: Family -> string)
    requires SortedByHash(p, hash) && p != []
    ensures var m := |p| - 1;
      && SortedByHash(p[..m], hash) && multiset(p[..m]) == multiset(p) - multiset{p[m]}
      && Elems(p[..m]) <= Elems(p) && p[m] in multiset(p)
  {
    hide Le;
    assert p == p[..|p| - 1] + [p[|p| - 1]];
  }

  lemma LastIsGreatest(p: seq<Family>, q: seq<Family>, hash: Family -> string)
    requires multiset(p) == multiset(q) && SortedByHash(p, hash) && |p| == |q| > 0
    ensures Le(hash(q[|q| - 1]), hash(p[|p| - 1]))
  {
    var m := |p| - 1;
    assert q[m] in multiset(q);
    var i :| 0 <= i < |p| && p[i] == q[m];
    LeTotal(hash(p[i]), hash(p[i]));
  }

  /** In whatever order clean families were met, the reduction of a table gives the same result. */
  lemma ReductionIsDeterministic(l: seq<Family>, k: seq<Family>)
    requires multiset(l) == multiset(k) && forall f | f in l :: CleanFamily(f)
    ensures Run(ByHash(l, FamilyHash)) == Run(ByHash(k, FamilyHash))
  {
    hide CleanFamily, Run, FamilyHash;
    ByHashSorts(l, FamilyHash);
    ByHashSorts(k, FamilyHash);
    var p := ByHash(l, FamilyHash);
    forall f, g | f in Elems(p) && g in Elems(p) && FamilyHash(f) == FamilyHash(g) ensures f == g {
      ByHashMembers(l, FamilyHash, f);
      ByHashMembers(l, FamilyHash, g);
      FamilyHashIsFaithful(f, g);
    }
    SortedByHashIsUnique(p, ByHash(k, FamilyHash), FamilyHash);
  }

  /** `slices.SortFunc(input, compareIdxFamily)`. */
  method SortFamilies(input: seq<FamilyRef>, ghost hash: Family -> string) returns (sorted: seq<FamilyRef>)
    requires hash == FamilyHash
    ensures Values(sorted) == ByHash(Values(input), hash)
  {
    hide FamilyHash, Values, ByHash, Place;
    ghost var given := Values(input);
    sorted := [];
    ByHashOneMore(given, 0, hash);
    for n := 0 to |input|
      invariant Values(input) == given && Values(sorted) == ByHash(given[..n], hash)
    {
      ByHashOneMore(given, n, hash);
      sorted := PlaceFamily(sorted, input[n], hash);
    }
    assert given[..|input|] == given;
  }

  lemma ByHashOneMore(given: seq<Family>, n: nat, hash: Family -> string)
    requires n <= |given|
    ensures ByHash(given[..0], hash) == []
    ensures n < |given| ==> ByHash(given[..n + 1], hash) == Place(ByHash(given[..n], hash), given[n], hash)
  {
    if n < |given| {
      assert given[..n + 1][..n] == given[..n];
    }
  }

  method PlaceFamily(sorted: seq<FamilyRef>, f: FamilyRef, ghost hash: Family -> string)
    returns (placed: seq<FamilyRef>)
    requires hash == FamilyHash
    ensures Values(placed) == Place(Values(sorted), f.Value(), hash)
  {
    hide FamilyHash, Values, Le, Family.AllIndexed;
    ghost var given, v := Values(sorted), f.Value();
    if sorted == [] {
      assert Values([f]) == [v];
      return [f];
    }
    var m := |sorted| - 1;
    var a := HashFamily(sorted[m], hash);
    var b := HashFamily(f, hash);
    assert Values(sorted) == given;
    if Le(a, b) {
      ValuesAppend(sorted, f);
      placed := sorted + [f];
    } else {
      var before := PlaceFamily(sorted[..m], f, hash);
      ValuesAppend(before, sorted[m]);
      ValuesInit(sorted);
      placed := before + [sorted[m]];
    }
  }
}
