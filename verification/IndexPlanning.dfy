/** From queries to the indexes to create (usecases/indexes/concrete_index.go,
    usecases/indexes/aggregate_query.go): selection, reduction and projection together. */
module IndexPlanning {
  import opened GoSets
  import opened IndexModels
  import opened Hashing
  import opened QueryExpansion
  import opened MergeRun

  // ----- selection and projection -----

  /** i is one of the indexes that a family can be projected on. */
  ghost predicate Projects(i: Index, f: Family) {
    && i.table == f.table && Elems(i.included) == f.included
    && exists p :: Orders(p, f.flex) && i.indexed == f.Leading(p)
  }

  /** The closure of `selectConcreteIndexesToCreate`; the order of the flexible columns is arbitrary. */
  method Project(f: FamilyRef) returns (i: Index)
    ensures Projects(i, f.Value())
  {
    var indexed := f.fixed;
    var p := f.flex.Slice();
    indexed := indexed + p;
    if f.last != "" {
      indexed := indexed + [f.last];
    }
    assert indexed == f.Value().Leading(p);
    var included := f.included.Slice();
    i := Index(f.table, indexed, included);
  }

  ghost predicate CoveredBySome(existing: seq<Index>, f: Family, up: string -> string) {
    exists k :: 0 <= k < |existing| && CoversSpec(existing[k], f, up)
  }

  /** `selectIdxFamiliesToCreate` for one family: whether no existing index covers it. */
  method NeedsIndex(family: FamilyRef, existing: seq<Index>, up: string -> string) returns (b: bool)
    requires KeepsEmpty(up)
    ensures b <==> !CoveredBySome(existing, family.Value(), up)
  {
    var found := false;
    var k := 0;
    while k < |existing| && !found
      invariant 0 <= k <= |existing|
      invariant found ==> CoveredBySome(existing, family.Value(), up)
      invariant !found ==> forall j :: 0 <= j < k ==> !CoversSpec(existing[j], family.Value(), up)
    {
      found := Covers(existing[k], family, up);
      k := k + 1;
    }
    b := !found;
  }

  // ----- from names as written to folded names -----

  lemma {:induction false} UpSetSize(s: set<string>, up: string -> string)
    requires InjectiveOn(up, s)
    ensures |UpSet(s, up)| == |s|
    decreases |s|
  {
    if s != {} {
      var x :| x in s;
      UpSetSize(s - {x}, up);
      assert UpSet(s, up) == UpSet(s - {x}, up) + {up(x)};
    }
  }

  lemma FoldOrder(p: seq<string>, s: set<string>, up: string -> string)
    requires Orders(p, s) && InjectiveOn(up, s)
    ensures Orders(MapSlice(p, up), UpSet(s, up))
  {
    UpSetSize(s, up);
    UpElems(p, up);
  }

  lemma FoldLeading(f: Family, p: seq<string>, up: string -> string)
    requires KeepsEmpty(up)
    ensures MapSlice(f.Leading(p), up) == UpFamily(f, up).Leading(MapSlice(p, up))
  {
  }

  /** Folding names keeps a fitting index fitting, as long as it does not confuse flexible columns. */
  lemma FoldFits(c: seq<string>, f: Family, up: string -> string)
    requires KeepsEmpty(up) && InjectiveOn(up, f.flex) && Fits(c, f)
    ensures Fits(MapSlice(c, up), UpFamily(f, up))
  {
    var p :| Orders(p, f.flex) && f.Leading(p) <= c;
    FoldOrder(p, f.flex, up);
    FoldLeading(f, p, up);
    var lead := f.Leading(p);
    assert c[..|lead|] == lead;
    assert MapSlice(lead, up) <= MapSlice(c, up);
  }

  /** Undoing the fold on an order of folded columns. */
  lemma {:induction false} UnfoldOrder(p: seq<string>, s: set<string>, up: string -> string)
    returns (q: seq<string>)
    requires Orders(p, UpSet(s, up)) && InjectiveOn(up, s)
    ensures Orders(q, s) && MapSlice(q, up) == p
  {
    q := UnfoldSlice(p, s, up);
    UpElems(q, up);
    UpSetSize(s, up);
    forall x | x in s ensures x in q {
      assert up(x) in Elems(p);
      var k :| 0 <= k < |p| && p[k] == up(x);
      assert q[k] == x;
    }
  }

  lemma {:induction false} UnfoldSlice(p: seq<string>, s: set<string>, up: string -> string)
    returns (q: seq<string>)
    requires Elems(p) <= UpSet(s, up)
    ensures MapSlice(q, up) == p && Elems(q) <= s
  {
    q := [];
    if p != [] {
      assert p[0] in Elems(p);
      var x :| x in s && up(x) == p[0];
      assert Elems(p[1..]) <= Elems(p);
      var rest := UnfoldSlice(p[1..], s, up);
      q := [x] + rest;
      ElemsConcat([x], rest);
      assert MapSlice(q, up)[1..] == MapSlice(rest, up);
    }
  }

  /** A refined family is served on folded names too. */
  lemma RefinesFolded(i: Index, out: Family, f: Family, up: string -> string)
    requires KeepsEmpty(up) && Refines(out, f) && InjectiveOn(up, AllColumns(out))
    requires ServesFolded(i, out, up)
    ensures ServesFolded(i, f, up)
  {
    var d, g := UpIndex(i, up).indexed, UpFamily(out, up);
    var p :| Orders(p, g.flex) && g.Leading(p) <= d;
    var q := UnfoldOrder(p, out.flex, up);
    FoldLeading(out, q, up);
    var c := out.Leading(q);
    assert Fits(c, out);
    assert f.flex <= AllColumns(out);
    FoldFits(c, f, up);
    LongerFits(MapSlice(c, up), d, UpFamily(f, up));
    FoldedColumns(f, up);
    FoldedColumns(out, up);
    assert UpSet(AllColumns(f), up) <= UpSet(AllColumns(out), up);
  }

  lemma LongerFits(c: seq<string>, d: seq<string>, f: Family)
    requires c <= d && Fits(c, f)
    ensures Fits(d, f)
  {
  }

  /** A projected index covers the family it was made for: planning again asks for nothing new.
      Folding must not confuse two flexible columns. */
  lemma ProjectionIsCovered(i: Index, f: Family, up: string -> string)
    requires KeepsEmpty(up) && Projects(i, f) && InjectiveOn(up, f.flex)
    ensures CoversSpec(i, f, up)
  {
    assert Fits(i.indexed, f);
    FoldFits(i.indexed, f, up);
    UpElems(i.included, up);
  }

  // ----- what the queries ask for -----

  /** No query tests a column both for equality and for inequality. */
  predicate Separated(q: Query) {
    Columns(q.eq) !! Columns(q.ineq)
  }

  lemma MemberIsFresh(q: Query, f: Family)
    requires Separated(q) && f in Expand(q)
    ensures Fresh(f, q.table)
  {
    assert f.AllIndexed() == f.flex + f.LastSet();
    UnionSize(f.flex, f.LastSet());
  }

  ghost predicate ServedBySome(indexes: seq<Index>, f: Family, up: string -> string) {
    exists k :: 0 <= k < |indexes| && ServesFolded(indexes[k], f, up)
  }

  lemma {:induction false} InUnion(fs: seq<Family>, j: nat)
    requires j < |fs|
    ensures AllColumns(fs[j]) <= Union(fs)
  {
    hide AllColumns;
    if j > 0 {
      InUnion(fs[1..], j - 1);
    }
  }
}
