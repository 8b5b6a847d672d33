/** Reducing a list of index families by merging (usecases/indexes/index_family.go:21-50): what every
    run keeps, and when the reduced list still serves every family it started from. */
module MergeRun {
  import opened Wrappers
  import opened GoSets
  import opened Sorting
  import opened IndexModels
  import opened FamilyMerging
  import opened FamilyRefinement

  // ----- the run -----

  /** The first family of output that f can be merged with, or |output|. */
  function FirstMatch(output: seq<Family>, f: Family): (k: nat)
    ensures k <= |output| && (k < |output| ==> Refine(output[k], f).Some?)
  {
    if output == [] then 0
    else if Refine(output[0], f).Some? then 0
    else 1 + FirstMatch(output[1..], f)
  }

  function MergeInto(output: seq<Family>, f: Family): seq<Family> {
    var k := FirstMatch(output, f);
    if k < |output| then output[..k] + output[k + 1..] + [Refine(output[k], f).value]
    else output + [f]
  }

  function Run(input: seq<Family>): seq<Family> {
    if input == [] then [] else MergeInto(Run(input[..|input| - 1]), input[|input| - 1])
  }

  lemma {:induction false} FirstMatchIs(output: seq<Family>, f: Family, k: nat)
    requires k <= |output| && forall j :: 0 <= j < k ==> Refine(output[j], f).None?
    requires k < |output| ==> Refine(output[k], f).Some?
    ensures FirstMatch(output, f) == k
  {
    hide Refine;
    if k > 0 {
      FirstMatchIs(output[1..], f, k - 1);
    }
  }

  /** The values behind the pointers. */
  ghost function Values(fs: seq<FamilyRef>): (r: seq<Family>)
    reads set k | 0 <= k < |fs| :: fs[k].flex, set k | 0 <= k < |fs| :: fs[k].included
    ensures |r| == |fs| && forall k :: 0 <= k < |fs| ==> r[k] == fs[k].Value()
  {
    if fs == [] then [] else Values(fs[..|fs| - 1]) + [fs[|fs| - 1].Value()]
  }

  lemma ValuesAppend(fs: seq<FamilyRef>, f: FamilyRef)
    ensures Values(fs + [f]) == Values(fs) + [f.Value()]
  {
    hide Values;
  }

  lemma ValuesInit(fs: seq<FamilyRef>)
    requires fs != []
    ensures Values(fs[..|fs| - 1]) == Values(fs)[..|fs| - 1]
  {
    hide Values;
  }

  lemma ValuesWithout(fs: seq<FamilyRef>, i: nat)
    requires i < |fs|
    ensures Values(fs[..i] + fs[i + 1..]) == Values(fs)[..i] + Values(fs)[i + 1..]
  {
    hide Values;
  }

  /** `extractMinimalSetOfIdxFamiliesOneTable` after its input has been put in some order. */
  method ExtractMinimal(input: seq<FamilyRef>) returns (output: seq<FamilyRef>)
    ensures Values(output) == Run(Values(input))
  {
    hide Refine, FirstMatch, Run, MergeInto, Values;
    ghost var given := Values(input);
    output := [];
    RunOneMore(given, 0);
    for n := 0 to |input|
      invariant Values(input) == given && Values(output) == Run(given[..n])
    {
      RunOneMore(given, n);
      output := CombineInto(output, input[n]);
    }
    assert given[..|input|] == given;
  }

  /** One iteration: the first family of output that idxIn can be merged with is replaced. */
  method CombineInto(output: seq<FamilyRef>, idxIn: FamilyRef) returns (output': seq<FamilyRef>)
    ensures Values(output') == MergeInto(Values(output), idxIn.Value())
  {
    hide Refine, FirstMatch, Values;
    ghost var before, f := Values(output), idxIn.Value();
    var merged: Option<FamilyRef> := None;
    var i := 0;
    while i < |output| && merged.None?
      invariant 0 <= i <= |output|
      invariant merged.None? ==> forall j :: 0 <= j < i ==> Refine(before[j], f).None?
      invariant merged.Some? ==> i < |output| && FirstMatch(before, f) == i
                                 && Refine(before[i], f) == Some(merged.value.Value())
      decreases |output| - i, if merged.None? then 1 else 0
    {
      merged := RefineIdxFamilies(output[i], idxIn);
      if merged.Some? {
        FirstMatchIs(before, f, i);
      } else {
        i := i + 1;
      }
    }
    if merged.Some? {
      output' := output[..i] + output[i + 1..];
      ValuesWithout(output, i);
      ValuesAppend(output', merged.value);
      output' := output' + [merged.value];
    } else {
      FirstMatchIs(before, f, |output|);
      ValuesAppend(output, idxIn);
      output' := output + [idxIn];
    }
  }

  lemma RunOneMore(given: seq<Family>, n: nat)
    requires n <= |given|
    ensures Run(given[..0]) == []
    ensures n < |given| ==> Run(given[..n + 1]) == MergeInto(Run(given[..n]), given[n])
  {
    if n < |given| {
      assert given[..n + 1][..n] == given[..n];
    }
  }

  // ----- what one merge keeps -----

  lemma SetLastColumns(f: Family, last: string)
    ensures SetLast(f, last).AllIndexed() == Elems(f.fixed) + f.flex + if last == "" then {} else {last}
  {
    ElemsConcat(f.fixed, [last]);
    OrdersOne(last);
  }

  lemma PinnedColumns(B: Family)
    ensures Elems(Pinned(B)) == if B.last == "" then Elems(B.fixed) else B.AllIndexed()
  {
    ElemsConcat(B.fixed + SortedOf(B.flex), [B.last]);
    ElemsConcat(B.fixed, SortedOf(B.flex));
    OrdersOne(B.last);
    hide Elems;
  }

  lemma PinnedShorterColumns(A: Family, B: Family)
    ensures Elems(PinnedShorter(A, B)) == Elems(B.fixed) + B.flex * A.flex + {A.last}
  {
    ElemsConcat(B.fixed + SortedOf(B.flex * A.flex), [A.last]);
    ElemsConcat(B.fixed, SortedOf(B.flex * A.flex));
    OrdersOne(A.last);
    hide Elems;
  }

  lemma LongerKeepsColumns(A: Family, B: Family)
    requires A.fixed == [] && A.Size() > B.Size() && RefineLonger(A, B).Some?
    ensures RefineLonger(A, B).value.AllIndexed() == A.AllIndexed() + B.AllIndexed()
  {
    hide Elems, Pinned, SetLast, MergeIncluded;
    PinnedColumns(B);
    var out := B.(fixed := Pinned(B), flex := A.flex - Elems(Pinned(B)));
    SetLastColumns(out, A.last);
    MergeIncludedSet(SetLast(out, A.last), A);
    NoElems();
  }

  lemma NoElems()
    ensures Elems<string>([]) == {}
  {
  }

  lemma EqualKeepsColumns(A: Family, B: Family)
    requires A.fixed == [] && A.Size() == B.Size() && RefineEqual(A, B).Some?
    ensures RefineEqual(A, B).value.AllIndexed() == A.AllIndexed() + B.AllIndexed()
  {
    hide Elems, SetLast, MergeIncluded;
    var out := B.(flex := B.flex - {A.last});
    SetLastColumns(out, A.last);
    MergeIncludedSet(SetLast(out, A.last), A);
    MergeIncludedSet(B, A);
  }

  lemma ShorterKeepsColumns(A: Family, B: Family)
    requires A.fixed == [] && A.Size() < B.Size() && RefineShorter(A, B).Some?
    ensures RefineShorter(A, B).value.AllIndexed() == A.AllIndexed() + B.AllIndexed()
  {
    hide Elems, PinnedShorter, SetLast, MergeIncluded;
    NoElems();
    if A.Size() <= |B.fixed| {
      PrefixElems(B.fixed, A.Size());
      MergeIncludedSet(B.(flex := B.flex - Elems(B.fixed[..A.Size()])), A);
      MergeIncludedSet(B, A);
    } else if A.last == "" {
      MergeIncludedSet(B, A);
    } else {
      PinnedKeepsColumns(A, B);
    }
  }

  lemma PinnedKeepsColumns(A: Family, B: Family)
    requires A.fixed == [] && A.Size() < B.Size() && RefineShorter(A, B).Some?
    requires A.Size() > |B.fixed| && A.last != ""
    ensures RefineShorter(A, B).value.AllIndexed() == A.AllIndexed() + B.AllIndexed()
  {
    hide Elems, PinnedShorter, SetLast, MergeIncluded;
    NoElems();
    PinnedShorterColumns(A, B);
    var out := B.(fixed := PinnedShorter(A, B), flex := B.flex - Elems(PinnedShorter(A, B)));
    SetLastColumns(out, B.last);
    MergeIncludedSet(SetLast(out, B.last), A);
    MergeIncludedSet(out, A);
  }

  lemma LongerIncluded(A: Family, B: Family)
    requires A.Size() > B.Size() && RefineLonger(A, B).Some?
    ensures var out := RefineLonger(A, B).value;
      out.table == B.table && out.included == A.included + B.included - out.AllIndexed()
  {
    hide Elems, Pinned;
  }

  lemma EqualIncluded(A: Family, B: Family)
    requires A.Size() == B.Size() && RefineEqual(A, B).Some?
    ensures var out := RefineEqual(A, B).value;
      out.table == B.table && out.included == A.included + B.included - out.AllIndexed()
  {
    hide Elems, Family.AllIndexed, SetLast;
    MergeIncludedSet(B, A);
    MergeIncludedSet(SetLast(B.(flex := B.flex - {A.last}), A.last), A);
    SetLastIncluded(B.(flex := B.flex - {A.last}), A.last);
  }

  lemma MergeIncludedSet(f: Family, g: Family)
    ensures MergeIncluded(f, g).AllIndexed() == f.AllIndexed()
    ensures MergeIncluded(f, g).included == g.included + f.included - f.AllIndexed()
  {
  }

  lemma SetLastIncluded(f: Family, last: string)
    ensures SetLast(f, last).included == f.included && SetLast(f, last).table == f.table
  {
  }

  lemma ShorterIncluded(A: Family, B: Family)
    requires A.Size() < B.Size() && RefineShorter(A, B).Some?
    ensures var out := RefineShorter(A, B).value;
      out.table == B.table && out.included == A.included + B.included - out.AllIndexed()
  {
    hide Elems, PinnedShorter;
  }

  lemma MergeNoFixedKeepsColumns(A: Family, B: Family)
    requires A.fixed == [] && RefineNoFixed(A, B).Some?
    ensures var out := RefineNoFixed(A, B).value;
      && out.table == B.table
      && out.AllIndexed() == A.AllIndexed() + B.AllIndexed()
      && out.included == A.included + B.included - out.AllIndexed()
  {
    hide Elems, Family.AllIndexed, RefineLonger, RefineEqual, RefineShorter;
    if A.Size() > B.Size() {
      LongerKeepsColumns(A, B);
      LongerIncluded(A, B);
    } else if A.Size() == B.Size() {
      EqualKeepsColumns(A, B);
      EqualIncluded(A, B);
    } else {
      ShorterKeepsColumns(A, B);
      ShorterIncluded(A, B);
    }
  }

  lemma StrippedKeepsColumns(left: Family, right: Family)
    requires Refine(left, right).Some?
    ensures var n, out := CommonLength(left, right), Refine(left, right).value;
      var l, r := Strip(left, n).AllIndexed(), Strip(right, n).AllIndexed();
      && out.AllIndexed() == Elems(left.fixed[..n]) + (l + r)
      && out.included == left.included + right.included - (l + r)
      && left.fixed[..n] == right.fixed[..n]
  {
    hide Elems, Refine, RefineNoFixed;
    var n, p := CommonLength(left, right), Compared(left, right);
    RefineStripped(left, right);
    RefineIncluded(left, right);
    MergeNoFixedKeepsColumns(p.0, p.1);
    var out' := RefineNoFixed(p.0, p.1).value;
    ElemsConcat(left.fixed[..n], out'.fixed);
    assert p.0.AllIndexed() + p.1.AllIndexed()
        == Strip(left, n).AllIndexed() + Strip(right, n).AllIndexed();
  }

  /** A merge keeps every column: what either family indexes is indexed, and nothing is dropped from
      or added to the columns of the two. */
  lemma MergeKeepsColumns(left: Family, right: Family)
    requires Refine(left, right).Some?
    ensures var out := Refine(left, right).value;
      && out.AllIndexed() == left.AllIndexed() + right.AllIndexed()
      && AllColumns(out) == AllColumns(left) + AllColumns(right)
  {
    var n, out := CommonLength(left, right), Refine(left, right).value;
    StrippedKeepsColumns(left, right);
    SplitPrefix(left, n);
    SplitPrefix(right, n);
    hide Elems, Refine, Family.AllIndexed;
    var l, r := Strip(left, n).AllIndexed(), Strip(right, n).AllIndexed();
    MergedSets(
      Elems(left.fixed[..n]), l, r, l + r, left.included, right.included, out.included);
  }

  lemma MergedSets<T>(
      pre: set<T>, l: set<T>, r: set<T>, o: set<T>, incL: set<T>, incR: set<T>, inc: set<T>)
    requires o == l + r && inc == incL + incR - o
    ensures pre + o == (pre + l) + (pre + r)
    ensures (pre + o) + inc == ((pre + l) + incL) + ((pre + r) + incR)
  {
  }

  lemma RefineIncluded(left: Family, right: Family)
    requires Refine(left, right).Some?
    ensures var p := Compared(left, right);
      && RefineNoFixed(p.0, p.1).Some?
      && Refine(left, right).value.included == RefineNoFixed(p.0, p.1).value.included
  {
    hide RefineNoFixed;
    var n, p := CommonLength(left, right), Compared(left, right);
    RefineStripped(left, right);
    RefineIgnoresTables(p.0, p.1, "", "");
    var l, r := Strip(left, n), Strip(right, n);
    if n == 0 {
      assert l == left && r == right;
    } else {
      assert RemoveFixedPrefix(left, left.fixed[..n]) == l.(table := "");
      assert RemoveFixedPrefix(right, left.fixed[..n]) == r.(table := "");
    }
  }

  lemma SplitPrefix(f: Family, n: nat)
    requires n <= |f.fixed|
    ensures f.AllIndexed() == Elems(f.fixed[..n]) + Strip(f, n).AllIndexed()
  {
    ElemsConcat(f.fixed[..n], f.fixed[n..]);
    assert f.fixed == f.fixed[..n] + f.fixed[n..];
  }

  // ----- what every run keeps -----

  function Union(fs: seq<Family>): set<string> {
    if fs == [] then {} else AllColumns(fs[0]) + Union(fs[1..])
  }

  lemma {:induction false} UnionConcat(a: seq<Family>, b: seq<Family>)
    ensures Union(a + b) == Union(a) + Union(b)
  {
    if a == [] {
      assert a + b == b;
    } else {
      UnionConcat(a[1..], b);
      assert (a + b)[1..] == a[1..] + b;
    }
  }

  /** out has taken over everything f asks for, except possibly the order of the columns. */
  predicate Absorbs(out: Family, f: Family) {
    f.AllIndexed() <= out.AllIndexed() && AllColumns(f) <= AllColumns(out)
  }

  ghost predicate Absorbed(fs: seq<Family>, f: Family) {
    exists k :: 0 <= k < |fs| && Absorbs(fs[k], f)
  }

  /** Whatever the order of the input, no run loses or invents a column, none makes the list longer,
      and every input family is absorbed by one output family. */
  lemma {:induction false} RunKeepsColumns(input: seq<Family>)
    ensures Union(Run(input)) == Union(input) && |Run(input)| <= |input|
    ensures forall k :: 0 <= k < |input| ==> Absorbed(Run(input), input[k])
  {
    hide MergeInto;
    if input != [] {
      var before, f := input[..|input| - 1], input[|input| - 1];
      RunKeepsColumns(before);
      StepKeepsColumns(Run(before), f);
      assert input == before + [f];
      UnionConcat(before, [f]);
      forall k | 0 <= k < |input| ensures Absorbed(Run(input), input[k]) {
        if k < |before| {
          assert input[k] == before[k];
          StepAbsorbs(Run(before), f, input[k]);
        }
      }
    }
  }

  lemma StepKeepsColumns(output: seq<Family>, f: Family)
    ensures Union(MergeInto(output, f)) == Union(output) + AllColumns(f)
    ensures |MergeInto(output, f)| <= |output| + 1
    ensures Absorbed(MergeInto(output, f), f)
  {
    var k, r := FirstMatch(output, f), MergeInto(output, f);
    if k < |output| {
      MergeKeepsColumns(output[k], f);
      hide Refine, AllColumns, Elems, Union;
      ReplaceUnion(output, k, f, Refine(output[k], f).value);
      assert AllColumns(f) <= AllColumns(r[|r| - 1]);
      assert Absorbs(r[|r| - 1], f);
    } else {
      UnionConcat(output, [f]);
      assert Absorbs(r[|r| - 1], f);
    }
  }

  lemma ReplaceUnion(output: seq<Family>, k: nat, f: Family, out: Family)
    requires k < |output| && AllColumns(out) == AllColumns(output[k]) + AllColumns(f)
    ensures Union(output[..k] + output[k + 1..] + [out]) == Union(output) + AllColumns(f)
  {
    assert output == output[..k] + ([output[k]] + output[k + 1..]);
    UnionConcat(output[..k], [output[k]] + output[k + 1..]);
    UnionConcat([output[k]], output[k + 1..]);
    UnionConcat(output[..k] + output[k + 1..], [out]);
    UnionConcat(output[..k], output[k + 1..]);
    UnionOne(out);
    UnionOne(output[k]);
    hide AllColumns, Union;
  }

  lemma UnionOne(f: Family)
    ensures Union([f]) == AllColumns(f)
  {
    hide AllColumns;
  }

  /** Where a family of the list goes in one step. */
  function NextPlace(output: seq<Family>, f: Family, j: nat): nat
    requires j < |output|
  {
    var k := FirstMatch(output, f);
    if k == |output| || j < k then j else if j == k then |output| - 1 else j - 1
  }

  lemma StepPlaces(output: seq<Family>, f: Family, j: nat)
    requires j < |output|
    ensures var k, r, m := FirstMatch(output, f), MergeInto(output, f), NextPlace(output, f, j);
      m < |r| && (r[m] == output[j] || (j == k && r[m] == Refine(output[k], f).value))
  {
    hide Refine;
  }

  lemma StepAbsorbs(output: seq<Family>, f: Family, g: Family)
    requires Absorbed(output, g)
    ensures Absorbed(MergeInto(output, f), g)
  {
    var j :| 0 <= j < |output| && Absorbs(output[j], g);
    var k := FirstMatch(output, f);
    StepPlaces(output, f, j);
    if k < |output| {
      MergeKeepsColumns(output[k], f);
    }
    hide Refine, MergeInto, Elems;
    assert Absorbs(MergeInto(output, f)[NextPlace(output, f, j)], g);
  }

  // ----- runs whose merges are all safe -----

  /** Every index for out, on its columns alone, serves f; and out has absorbed f. */
  ghost predicate Refines(out: Family, f: Family) {
    out.table == f.table && Absorbs(out, f) && forall c :: Fits(c, out) ==> Fits(c, f)
  }

  /** The families `ToIndexFamilies` hands over for one table. */
  predicate Fresh(f: Family, table: string) {
    f.table == table && f.fixed == [] && WellFormed(f)
  }

  /** Both guards hold at every merge that the run performs. */
  predicate SafeRun(input: seq<Family>) {
    input != [] ==>
      var before, f := input[..|input| - 1], input[|input| - 1];
      SafeRun(before) && SafeStepAt(Run(before), f)
  }

  predicate SafeStepAt(output: seq<Family>, f: Family) {
    var k := FirstMatch(output, f);
    k < |output| ==> ShareGuard(f, output[k]) && OrderGuard(f, output[k])
  }

  lemma LongerWellFormed(A: Family, B: Family)
    requires A.fixed == [] && WellFormed(A) && WellFormed(B) && A.Size() > B.Size()
    requires RefineLonger(A, B).Some? && ShareGuard(A, B)
    ensures RefineLonger(A, B).value.Size() <= A.Size()
  {
    NoFixedColumns(A);
    assert B.AllIndexed() <= A.flex;
    PinnedOrders(B);
    var s := Elems(Pinned(B));
    hide Elems, Pinned, Family.AllIndexed;
    assert s <= A.flex;
    assert (A.flex - s) + s == A.flex;
    UnionSize(A.flex - s, s);
  }

  lemma EqualWellFormed(A: Family, B: Family)
    requires A.Size() == B.Size() && RefineEqual(A, B).Some?
    ensures RefineEqual(A, B).value.Size() <= B.Size()
  {
    hide Elems;
    if A.last in B.flex {
      assert (B.flex - {A.last}) + {A.last} == B.flex;
      UnionSize(B.flex - {A.last}, {A.last});
    }
  }

  lemma ShorterWellFormed(A: Family, B: Family)
    requires A.fixed == [] && WellFormed(A) && WellFormed(B) && A.Size() < B.Size()
    requires RefineShorter(A, B).Some? && ShareGuard(A, B)
    ensures RefineShorter(A, B).value.Size() <= B.Size()
  {
    if A.Size() <= |B.fixed| {
      WithinSize(A, B);
    } else {
      ShorterNests(A, B);
      if A.last != "" {
        PinnedSize(A, B);
      }
    }
  }

  lemma WithinSize(A: Family, B: Family)
    requires A.Size() < B.Size() && A.Size() <= |B.fixed| && RefineShorter(A, B).Some?
    ensures RefineShorter(A, B).value.Size() <= B.Size()
  {
    var s := Elems(B.fixed[..A.Size()]);
    hide Elems;
    SubsetSize(B.flex - s, B.flex);
  }

  lemma PinnedSize(A: Family, B: Family)
    requires Nested(A, B) && A.Size() > |B.fixed| && A.last != "" && RefineShorter(A, B).Some?
    ensures RefineShorter(A, B).value.Size() <= B.Size()
  {
    hide Elems;
    NoFixedColumns(A);
    PinnedShorterElems(A, B);
    var u, v, w := B.flex * A.flex, {A.last}, B.flex - Elems(PinnedShorter(A, B));
    assert u !! v && u + v !! w && u + v + w == B.flex;
    UnionSize(u, v);
    UnionSize(u + v, w);
  }

  lemma MergeWellFormed(A: Family, B: Family)
    requires A.fixed == [] && WellFormed(A) && WellFormed(B)
    requires RefineNoFixed(A, B).Some? && ShareGuard(A, B)
    ensures WellFormed(RefineNoFixed(A, B).value)
  {
    var out := RefineNoFixed(A, B).value;
    MergeNoFixedKeepsColumns(A, B);
    if A.Size() > B.Size() {
      LongerWellFormed(A, B);
    } else if A.Size() == B.Size() {
      EqualWellFormed(A, B);
    } else {
      ShorterWellFormed(A, B);
    }
    hide RefineNoFixed;
    SubsetSize(A.AllIndexed(), out.AllIndexed());
    SubsetSize(B.AllIndexed(), out.AllIndexed());
    IndexedSize(out);
  }

  lemma IndexedSize(f: Family)
    ensures |f.AllIndexed()| <= f.Size()
  {
    ElemsSize(f.fixed);
    UnionSize(Elems(f.fixed), f.flex);
    UnionSize(Elems(f.fixed) + f.flex, f.LastSet());
  }

  lemma SafeMerge(output: Family, f: Family, table: string)
    requires output.table == table && WellFormed(output) && Fresh(f, table)
    requires Refine(output, f).Some? && ShareGuard(f, output) && OrderGuard(f, output)
    ensures var out := Refine(output, f).value;
      out.table == table && WellFormed(out) && Refines(out, output) && Refines(out, f)
  {
    assert Refine(output, f) == RefineNoFixed(f, output);
    MergeWellFormed(f, output);
    MergeNoFixedVerdict(f, output);
    MergeNoFixedKeepsColumns(f, output);
    SafeMergeRefines(output, f, Refine(output, f).value);
    hide Refine, RefineNoFixed, Refines, WellFormed, ShareGuard, OrderGuard, ServesBoth;
  }

  lemma SafeMergeRefines(left: Family, right: Family, out: Family)
    requires out.table == left.table == right.table && ServesBoth(out, right, left)
    requires out.AllIndexed() == right.AllIndexed() + left.AllIndexed()
    requires out.included == right.included + left.included - out.AllIndexed()
    ensures Refines(out, left) && Refines(out, right)
  {
    hide Fits, Family.AllIndexed;
  }

  lemma RefinesTransitive(a: Family, b: Family, c: Family)
    requires Refines(a, b) && Refines(b, c)
    ensures Refines(a, c)
  {
    hide Fits, Elems;
  }

  lemma RefinesItself(f: Family)
    ensures Refines(f, f)
  {
  }

  ghost predicate Refined(fs: seq<Family>, f: Family) {
    exists j :: 0 <= j < |fs| && Refines(fs[j], f)
  }

  predicate AllGood(fs: seq<Family>, table: string) {
    forall j :: 0 <= j < |fs| ==> fs[j].table == table && WellFormed(fs[j])
  }

  /** When every merge of the run is safe, each input family has an output family whose every index
      serves it, and the output stays well formed and on the same table. */
  lemma {:induction false} SafeRunRefines(input: seq<Family>, table: string)
    requires SafeRun(input) && forall k :: 0 <= k < |input| ==> Fresh(input[k], table)
    ensures AllGood(Run(input), table)
    ensures forall k :: 0 <= k < |input| ==> Refined(Run(input), input[k])
  {
    hide *;
    if input == [] {
      EmptyRun(table);
    } else {
      var before, f := input[..|input| - 1], input[|input| - 1];
      assert forall k :: 0 <= k < |before| ==> input[k] == before[k];
      RunEndsWith(input);
      SafeRunRefines(before, table);
      SafeStep(Run(before), f, table);
      forall k | 0 <= k < |input| ensures Refined(Run(input), input[k]) {
        if k < |before| {
          SafeStepRefines(Run(before), f, before[k], table);
        }
      }
    }
  }

  lemma EmptyRun(table: string)
    ensures AllGood(Run([]), table)
  {
  }

  lemma RunEndsWith(input: seq<Family>)
    requires input != []
    ensures var before, f := input[..|input| - 1], input[|input| - 1];
      && Run(input) == MergeInto(Run(before), f)
      && (SafeRun(input) <==> SafeRun(before) && SafeStepAt(Run(before), f))
  {
    hide SafeStepAt, MergeInto;
  }

  lemma SafeStep(output: seq<Family>, f: Family, table: string)
    requires AllGood(output, table) && Fresh(f, table)
    requires SafeStepAt(output, f)
    ensures AllGood(MergeInto(output, f), table) && Refined(MergeInto(output, f), f)
  {
    var k := FirstMatch(output, f);
    if k < |output| {
      SafeMerge(output[k], f, table);
      ReplaceGood(output, k, Refine(output[k], f).value, f, table);
    } else {
      RefinesItself(f);
      assert Refines((output + [f])[|output|], f);
    }
    hide Refine, WellFormed, Refines, ShareGuard, OrderGuard, FirstMatch;
  }

  lemma ReplaceGood(output: seq<Family>, k: nat, out: Family, f: Family, table: string)
    requires AllGood(output, table) && k < |output|
    requires out.table == table && WellFormed(out) && Refines(out, f)
    ensures var r := output[..k] + output[k + 1..] + [out]; AllGood(r, table) && Refined(r, f)
  {
    hide WellFormed, Refines;
    var r := output[..k] + output[k + 1..] + [out];
    assert Refines(r[|r| - 1], f);
  }

  lemma SafeStepRefines(output: seq<Family>, f: Family, g: Family, table: string)
    requires AllGood(output, table) && Fresh(f, table) && Refined(output, g)
    requires SafeStepAt(output, f)
    ensures Refined(MergeInto(output, f), g)
  {
    var j :| 0 <= j < |output| && Refines(output[j], g);
    var k, r, m := FirstMatch(output, f), MergeInto(output, f), NextPlace(output, f, j);
    StepPlaces(output, f, j);
    if k < |output| {
      SafeMerge(output[k], f, table);
    }
    hide Refine, MergeInto, Refines;
    if r[m] != output[j] {
      RefinesTransitive(r[m], output[j], g);
    }
    assert Refines(r[m], g);
  }
}
