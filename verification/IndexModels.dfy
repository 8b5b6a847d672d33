/** Index families, concrete Postgres indexes, and the check that an index fits a family
    (models/index_family.go, models/concrete_index.go). */
module IndexModels {
  import opened GoSets

  /** The value of a Go `IndexFamily`; `last == ""` means that no last column is forced. */
  datatype Family = Family(
    table: string, fixed: seq<string>, flex: set<string>, last: string, included: set<string>)
  {
    function Size(): nat {
      |fixed| + |flex| + if last == "" then 0 else 1
    }

    /** The columns that must be indexed. */
    function AllIndexed(): set<string> {
      Elems(fixed) + flex + LastSet()
    }

    function LastSet(): set<string> {
      if last == "" then {} else {last}
    }

    /** The indexed columns of the family once an order is chosen for `flex`. */
    function Leading(p: seq<string>): seq<string> {
      fixed + p + if last == "" then [] else [last]
    }
  }

  /** A Go `IndexFamily` as it is passed around: the two sets are pointers. */
  datatype FamilyRef = FamilyRef(
    table: string, fixed: seq<string>, flex: StringSet, last: string, included: StringSet)
  {
    ghost function Value(): Family
      reads flex, included
    {
      Family(table, fixed, flex.items, last, included.items)
    }

    function Size(): (n: nat)
      reads flex, included
      ensures n == Value().Size()
    {
      |fixed| + |flex.items| + if last == "" then 0 else 1
    }

    method Copy() returns (c: FamilyRef)
      ensures fresh(c.flex) && fresh(c.included) && c.flex != c.included
      ensures c.Value() == Value()
    {
      var f := flex.Copy();
      var inc := included.Copy();
      c := FamilyRef(table, fixed, f, last, inc);
    }
  }

  datatype Index = Index(table: string, indexed: seq<string>, included: seq<string>)

  // ----- what it means for an index to fit a family -----

  /** Some order of the flexible columns makes the family's columns the leading ones of cols. */
  ghost predicate Fits(cols: seq<string>, f: Family) {
    exists p :: Orders(p, f.flex) && f.Leading(p) <= cols
  }

  /** The same, read off the windows of cols. */
  predicate FitsWindows(cols: seq<string>, f: Family) {
    && f.Size() <= |cols|
    && f.fixed == cols[..|f.fixed|]
    && Orders(cols[|f.fixed|..|f.fixed| + |f.flex|], f.flex)
    && (f.last != "" ==> cols[f.Size() - 1] == f.last)
  }

  lemma PrefixOfThree<T>(cols: seq<T>, a: seq<T>, p: seq<T>, z: seq<T>)
    ensures a + p + z <= cols <==>
            && |a| + |p| + |z| <= |cols|
            && cols[..|a|] == a && cols[|a|..|a| + |p|] == p
            && cols[|a| + |p|..|a| + |p| + |z|] == z
  {
    if a + p + z <= cols {
      assert cols[..|a + p + z|] == a + p + z;
    }
  }

  lemma FitsIffWindows(cols: seq<string>, f: Family)
    ensures Fits(cols, f) <==> FitsWindows(cols, f)
  {
    hide Orders;
    var z := if f.last == "" then [] else [f.last];
    if Fits(cols, f) {
      var p :| Orders(p, f.flex) && f.Leading(p) <= cols;
      OrdersLength(p, f.flex);
      PrefixOfThree(cols, f.fixed, p, z);
    }
    if FitsWindows(cols, f) {
      var p := cols[|f.fixed|..|f.fixed| + |f.flex|];
      PrefixOfThree(cols, f.fixed, p, z);
      assert f.Leading(p) <= cols;
    }
  }

  lemma LeadingElems(f: Family, p: seq<string>)
    requires Orders(p, f.flex)
    ensures |f.Leading(p)| == f.Size() && Elems(f.Leading(p)) == f.AllIndexed()
  {
    ElemsConcat(f.fixed + p, if f.last == "" then [] else [f.last]);
    ElemsConcat(f.fixed, p);
    assert Elems([f.last]) == {f.last};
  }

  /** The leading columns of a fitting index are the family's indexed columns. */
  lemma FitsContains(cols: seq<string>, f: Family)
    requires Fits(cols, f)
    ensures f.Size() <= |cols| && Elems(cols[..f.Size()]) == f.AllIndexed()
    ensures f.AllIndexed() <= Elems(cols)
  {
    var p :| Orders(p, f.flex) && f.Leading(p) <= cols;
    LeadingElems(f, p);
    var lead := f.Leading(p);
    assert cols[..|lead|] == lead;
  }

  // ----- case folding -----

  /** What is used of `strings.ToUpper`: only the empty name folds to the empty name. */
  ghost predicate KeepsEmpty(up: string -> string) {
    forall s :: up(s) == "" <==> s == ""
  }

  ghost predicate InjectiveOn(up: string -> string, s: set<string>) {
    forall x, y | x in s && y in s && up(x) == up(y) :: x == y
  }

  function UpSet(s: set<string>, up: string -> string): set<string> {
    set x | x in s :: up(x)
  }

  function UpFamily(f: Family, up: string -> string): Family {
    Family(up(f.table), MapSlice(f.fixed, up), UpSet(f.flex, up), up(f.last), UpSet(f.included, up))
  }

  function UpIndex(i: Index, up: string -> string): Index {
    Index(up(i.table), MapSlice(i.indexed, up), MapSlice(i.included, up))
  }

  lemma UpElems(s: seq<string>, up: string -> string)
    ensures Elems(MapSlice(s, up)) == UpSet(Elems(s), up)
  {
    var m := MapSlice(s, up);
    forall y | y in UpSet(Elems(s), up) ensures y in m {
      var x :| x in s && up(x) == y;
      var k :| 0 <= k < |s| && s[k] == x;
      assert m[k] == y;
    }
  }

  // ----- Covers -----

  /** Columns the index offers for the family's `included` set: a forced last column rules out
      counting the trailing indexed columns. */
  function OfferedIncluded(i: Index, f: Family): set<string> {
    Elems(i.included) + if f.last == "" then Elems(Trailing(i.indexed, f.Size())) else {}
  }

  function Trailing(cols: seq<string>, n: nat): seq<string> {
    if n <= |cols| then cols[n..] else []
  }

  /** The meaning of coverage, on names that are already folded. */
  ghost predicate CoversFolded(i: Index, f: Family) {
    i.table == f.table && Fits(i.indexed, f) && f.included <= OfferedIncluded(i, f)
  }

  /** Coverage without slices: in some order of the flexible columns the family's columns lead, and each
      included column is included in the index or, without a last column, is indexed behind them. */
  lemma CoversFoldedIff(i: Index, f: Family)
    ensures CoversFolded(i, f) <==>
      && i.table == f.table
      && (exists p :: Orders(p, f.flex) && f.Leading(p) <= i.indexed)
      && forall x | x in f.included ::
           x in i.included || (f.last == "" && exists k :: f.Size() <= k < |i.indexed| && i.indexed[k] == x)
  {
    if Fits(i.indexed, f) {
      FitsIffWindows(i.indexed, f);
      TrailingElems(i.indexed, f.Size());
    }
  }

  lemma TrailingElems(cols: seq<string>, n: nat)
    requires n <= |cols|
    ensures forall x :: x in Elems(Trailing(cols, n)) <==> exists k :: n <= k < |cols| && cols[k] == x
  {
    assert forall k :: n <= k < |cols| ==> cols[n..][k - n] == cols[k];
  }

  /** A family is covered exactly when it is with its flexible columns fixed in some order: columns that
      a merge has fixed count like flexible ones. */
  lemma OrderMayBeFixed(i: Index, f: Family)
    ensures CoversFolded(i, f) <==>
      exists p :: Orders(p, f.flex) && CoversFolded(i, f.(fixed := f.fixed + p, flex := {}))
  {
    forall p | Orders(p, f.flex)
      ensures CoversFolded(i, f.(fixed := f.fixed + p, flex := {})) <==>
        f.Leading(p) <= i.indexed && i.table == f.table && f.included <= OfferedIncluded(i, f)
    {
      FixedFits(i.indexed, f, p);
    }
    hide OfferedIncluded;
  }

  lemma FixedFits(cols: seq<string>, f: Family, p: seq<string>)
    requires Orders(p, f.flex)
    ensures var g := f.(fixed := f.fixed + p, flex := {});
      (Fits(cols, g) <==> f.Leading(p) <= cols) && g.Size() == f.Size()
  {
    var g := f.(fixed := f.fixed + p, flex := {});
    OrdersNone<string>({});
    assert g.Leading([]) == f.Leading(p) by {
      assert f.fixed + p + [] == f.fixed + p;
    }
    if Fits(cols, g) {
      var o :| Orders(o, g.flex) && g.Leading(o) <= cols;
      assert |o| == 0;
      assert o == [];
    }
  }

  ghost predicate CoversSpec(i: Index, f: Family, up: string -> string) {
    CoversFolded(UpIndex(i, up), UpFamily(f, up))
  }

  /** Every column of a family, indexed or included. */
  function AllColumns(f: Family): set<string> {
    f.AllIndexed() + f.included
  }

  /** What a family asks of an index: the right table, the right leading columns, and every column
      available in the index, wherever it is. */
  ghost predicate Serves(i: Index, f: Family) {
    && i.table == f.table && Fits(i.indexed, f)
    && AllColumns(f) <= Elems(i.indexed) + Elems(i.included)
  }

  ghost predicate ServesFolded(i: Index, f: Family, up: string -> string) {
    Serves(UpIndex(i, up), UpFamily(f, up))
  }

  lemma FoldedColumns(f: Family, up: string -> string)
    requires KeepsEmpty(up)
    ensures UpFamily(f, up).AllIndexed() == UpSet(f.AllIndexed(), up)
    ensures AllColumns(UpFamily(f, up)) == UpSet(AllColumns(f), up)
  {
    UpElems(f.fixed, up);
    hide Elems;
    var g := UpFamily(f, up);
    assert g.LastSet() == UpSet(f.LastSet(), up);
    assert g.AllIndexed() == UpSet(Elems(f.fixed), up) + UpSet(f.flex, up) + UpSet(f.LastSet(), up);
  }

  /** An index that covers a family serves it. */
  lemma CoversServes(i: Index, f: Family, up: string -> string)
    requires CoversSpec(i, f, up)
    ensures ServesFolded(i, f, up)
  {
    var g, cols := UpFamily(f, up), UpIndex(i, up).indexed;
    FitsContains(cols, g);
    assert Elems(Trailing(cols, g.Size())) <= Elems(cols);
  }

  /** `ConcreteIndex.Covers`: fold every name on a copy of the family, then run the window checks.
      It has no frame, so the caller's family is left as it was. */
  method Covers(i: Index, family: FamilyRef, up: string -> string) returns (b: bool)
    requires KeepsEmpty(up)
    ensures b <==> CoversSpec(i, family.Value(), up)
  {
    var f := family.Copy();
    var flexSlice := f.flex.Slice();
    var includedSlice := f.included.Slice();
    UpElems(flexSlice, up);
    UpElems(includedSlice, up);
    var flex := new StringSet.From(MapSlice(flexSlice, up));
    var included := new StringSet.From(MapSlice(includedSlice, up));
    f := FamilyRef(up(f.table), MapSlice(f.fixed, up), flex, up(f.last), included);
    assert f.Value() == UpFamily(family.Value(), up);
    b := WindowChecks(UpIndex(i, up), f);
  }

  /** The checks of `Covers` on folded names: prefix loop, slice windows, removal from a copied
      set, and the two-way split on the last column decide exactly whether a suitable order of
      `flex` exists. */
  method WindowChecks(i: Index, f: FamilyRef) returns (b: bool)
    ensures b <==> CoversFolded(i, f.Value())
  {
    ghost var fv := f.Value();
    FitsIffWindows(i.indexed, fv);
    hide Fits, Orders, Elems;
    if i.table != f.table {
      return false;
    }
    if |i.indexed| < |f.fixed| {
      return false;
    }
    var lastVisited := -1;
    var n := 0;
    while n < |f.fixed| && n < |i.indexed|
      invariant 0 <= n <= |f.fixed| && lastVisited == n - 1
      invariant f.fixed[..n] == i.indexed[..n]
    {
      if i.indexed[n] != f.fixed[n] {
        assert i.indexed[..|f.fixed|][n] != f.fixed[n];
        return false;
      }
      lastVisited := n;
      n := n + 1;
    }
    assert f.fixed == i.indexed[..|f.fixed|];

    var lenFlex := |f.flex.items|;
    ghost var window := if |f.fixed| + lenFlex <= |i.indexed|
      then i.indexed[|f.fixed|..|f.fixed| + lenFlex] else [];
    if |f.fixed| + lenFlex <= |i.indexed| {
      WindowCheckIsImplied(window, fv.flex);
    }
    if lenFlex > 0 {
      var start := lastVisited + 1;
      if start + lenFlex > |i.indexed| {
        return false;
      }
      var cp := f.flex.Copy();
      cp.RemoveSlice(i.indexed[start..start + lenFlex]);
      if |cp.items| > 0 {
        return false;
      }
    }
    assert |f.fixed| + lenFlex <= |i.indexed| && Orders(window, fv.flex);
    if f.last != "" {
      var size := |f.fixed| + |f.flex.items| + 1;
      if size > |i.indexed| || i.indexed[size - 1] != f.last {
        return false;
      }
      if !(f.included.items <= Elems(i.included)) {
        return false;
      }
    }
    if f.last == "" {
      if |f.fixed| + |f.flex.items| > |i.indexed| {
        return false;
      }
      var nextNIndexed := i.indexed[|f.fixed|..|f.fixed| + |f.flex.items|];
      if Elems(nextNIndexed) != f.flex.items {
        return false;
      }
      var lastNIndexed := i.indexed[|f.fixed| + |f.flex.items|..];
      if !(f.included.items <= Elems(i.included) + Elems(lastNIndexed)) {
        return false;
      }
    }
    return true;
  }

  /** The check that nothing of `flex` is left after removing the window already implies that the
      window has exactly the elements of `flex`, without repetition: the second window check, made
      only when no last column is forced, can never fail. */
  lemma WindowCheckIsImplied(window: seq<string>, flex: set<string>)
    requires |window| == |flex|
    ensures |flex - Elems(window)| == 0 <==> Elems(window) == flex
    ensures |flex - Elems(window)| == 0 <==> Orders(window, flex)
  {
    if |flex - Elems(window)| == 0 {
      assert flex == (flex - Elems(window)) + flex * Elems(window);
      Pigeonhole(window, flex);
    }
  }
}
