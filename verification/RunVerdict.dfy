/** When the reduction of a table is right: when every index made for what it leaves serves what went
    in (usecases/indexes/index_family.go:21-50). */
module RunVerdict {
  import opened Wrappers
  import opened GoSets
  import opened IndexModels
  import opened FamilyMerging
  import opened FamilyCuts
  import opened MergeRun
  import opened IndexPlanning

  /** out prescribes every cut that f does and offers every column. */
  predicate Replaces(out: Family, f: Family) {
    Cuts(f) <= Cuts(out) && AllColumns(f) <= AllColumns(out)
  }

  /** Whatever index out is projected on, it serves f. */
  ghost predicate AlwaysServes(out: Family, f: Family, up: string -> string) {
    forall i | Projects(i, out) :: ServesFolded(i, f, up)
  }

  lemma CutsHoldColumns(f: Family)
    ensures multiset(f.fixed) + multiset(f.flex) + multiset(f.LastSet()) in Cuts(f)
    ensures forall m, x | m in Cuts(f) && x in m :: x in f.AllIndexed()
  {
    forall m, x | m in Cuts(f) && x in m ensures x in f.AllIndexed() {
      if k :| 0 <= k <= |f.fixed| && m == multiset(f.fixed[..k]) {
        assert x in f.fixed[..k];
        assert x in f.fixed;
      } else {
        assert x in f.fixed || x in f.flex || x in f.LastSet();
      }
    }
  }

  lemma CutsKeepIndexed(out: Family, f: Family)
    requires Cuts(f) <= Cuts(out)
    ensures f.AllIndexed() <= out.AllIndexed()
  {
    CutsHoldColumns(f);
    CutsHoldColumns(out);
    var all := multiset(f.fixed) + multiset(f.flex) + multiset(f.LastSet());
    hide Cuts;
    forall x | x in f.AllIndexed() ensures x in out.AllIndexed() {
      assert x in all;
    }
  }

  /** The families that refine another are the ones that replace it on its table. */
  lemma RefinesIffReplaces(out: Family, f: Family)
    ensures Refines(out, f) <==> out.table == f.table && Replaces(out, f)
  {
    CutsDecide(out, f);
    hide Cuts, Fits;
    if Cuts(f) <= Cuts(out) {
      CutsKeepIndexed(out, f);
    }
  }

  // ----- folded names -----

  lemma UnfoldFits(c: seq<string>, f: Family, up: string -> string)
    requires KeepsEmpty(up) && InjectiveOn(up, Elems(c) + f.AllIndexed())
    requires Fits(MapSlice(c, up), UpFamily(f, up))
    ensures Fits(c, f)
  {
    var d, g := MapSlice(c, up), UpFamily(f, up);
    var p :| Orders(p, g.flex) && g.Leading(p) <= d;
    var q := UnfoldOrder(p, f.flex, up);
    FoldLeading(f, q, up);
    LeadingElems(f, q);
    var lead := f.Leading(q);
    assert MapSlice(lead, up) <= d;
    assert Elems(lead) <= f.AllIndexed();
    hide Fits, Family.AllIndexed, Family.Leading, UpFamily;
    UnfoldPrefix(lead, c, up);
    assert lead == f.Leading(q);
    FitsLeading(c, f, q);
  }

  lemma FitsLeading(c: seq<string>, f: Family, q: seq<string>)
    requires Orders(q, f.flex) && f.Leading(q) <= c
    ensures Fits(c, f)
  {
  }

  lemma UnfoldPrefix(lead: seq<string>, c: seq<string>, up: string -> string)
    requires InjectiveOn(up, Elems(c) + Elems(lead)) && MapSlice(lead, up) <= MapSlice(c, up)
    ensures lead <= c
  {
    forall k | 0 <= k < |lead| ensures lead[k] == c[k] {
      assert MapSlice(lead, up)[k] == MapSlice(c, up)[k];
      assert lead[k] in Elems(lead) && c[k] in Elems(c);
    }
  }

  lemma UnfoldSubset(s: set<string>, t: set<string>, up: string -> string)
    requires InjectiveOn(up, s + t) && UpSet(s, up) <= UpSet(t, up)
    ensures s <= t
  {
    forall x | x in s ensures x in t {
      assert up(x) in UpSet(t, up);
    }
  }

  lemma ReplacementServes(i: Index, out: Family, f: Family, up: string -> string)
    requires KeepsEmpty(up) && InjectiveOn(up, AllColumns(out))
    requires up(out.table) == up(f.table) && Replaces(out, f) && ServesFolded(i, out, up)
    ensures ServesFolded(i, f, up)
  {
    var g := f.(table := out.table);
    SameButTable(i, f, g, up);
    hide Cuts, AllColumns, Refines, InjectiveOn, ServesFolded;
    RefinesIffReplaces(out, g);
    RefinesFolded(i, out, g, up);
  }

  lemma SameButTable(i: Index, f: Family, g: Family, up: string -> string)
    requires g == f.(table := g.table) && up(g.table) == up(f.table)
    ensures Cuts(g) == Cuts(f) && AllColumns(g) == AllColumns(f)
    ensures ServesFolded(i, f, up) <==> ServesFolded(i, g, up)
  {
    assert Cuts(g) == Cuts(f) && AllColumns(g) == AllColumns(f);
    hide Cuts, AllColumns, Serves, UpSet;
    assert UpFamily(g, up) == UpFamily(f, up);
  }

  /** The index that projects out with this order of its flexible columns. */
  lemma Projection(out: Family, q: seq<string>) returns (i: Index)
    requires Orders(q, out.flex)
    ensures Projects(i, out) && i.indexed == out.Leading(q)
    ensures Elems(i.indexed) + Elems(i.included) == AllColumns(out)
  {
    var included := SomeOrder(out.included);
    i := Index(out.table, out.Leading(q), included);
    LeadingElems(out, q);
  }

  lemma ProjectionServes(i: Index, out: Family, up: string -> string)
    requires KeepsEmpty(up) && Projects(i, out) && InjectiveOn(up, AllColumns(out))
    ensures ServesFolded(i, out, up)
  {
    ProjectionIsCovered(i, out, up);
    CoversServes(i, out, up);
  }

  /** An index for out that does not serve f, when out cannot replace it. */
  lemma BadProjection(out: Family, f: Family, up: string -> string) returns (i: Index)
    requires KeepsEmpty(up) && !(up(out.table) == up(f.table) && Replaces(out, f))
    requires up(out.table) == up(f.table) ==> InjectiveOn(up, AllColumns(out) + AllColumns(f))
    ensures Projects(i, out) && !ServesFolded(i, f, up)
  {
    var q := SomeOrder(out.flex);
    if up(out.table) == up(f.table) && !(Cuts(f) <= Cuts(out)) {
      var m :| m in Cuts(f) && m !in Cuts(out);
      q := MissingCut(out, m);
      FitsIffCuts(out.Leading(q), f);
    }
    i := Projection(out, q);
    hide Cuts, Projects;
    if ServesFolded(i, f, up) {
      UpElems(i.included, up);
      ServingIsReplacing(i, out, f, up);
    }
  }

  lemma ServingIsReplacing(i: Index, out: Family, f: Family, up: string -> string)
    requires KeepsEmpty(up) && InjectiveOn(up, AllColumns(out) + AllColumns(f))
    requires Elems(i.indexed) + Elems(i.included) == AllColumns(out) && ServesFolded(i, f, up)
    ensures Fits(i.indexed, f) && AllColumns(f) <= AllColumns(out)
  {
    UnfoldFits(i.indexed, f, up);
    FoldedColumns(f, up);
    UpElems(i.indexed, up);
    UpElems(i.included, up);
    hide Elems;
    assert UpSet(AllColumns(out), up) == UpSet(Elems(i.indexed), up) + UpSet(Elems(i.included), up);
    UnfoldSubset(AllColumns(f), AllColumns(out), up);
  }

  /** Every index for out serves f exactly when out replaces f, on the same table. */
  lemma AlwaysServesIff(out: Family, f: Family, up: string -> string)
    requires KeepsEmpty(up)
    requires up(out.table) == up(f.table) ==> InjectiveOn(up, AllColumns(out) + AllColumns(f))
    ensures AlwaysServes(out, f, up) <==> up(out.table) == up(f.table) && Replaces(out, f)
  {
    hide Replaces, ServesFolded, Projects, AllColumns;
    if up(out.table) == up(f.table) && Replaces(out, f) {
      forall i | Projects(i, out) ensures ServesFolded(i, f, up) {
        ProjectionServes(i, out, up);
        ReplacementServes(i, out, f, up);
      }
    } else {
      var i := BadProjection(out, f, up);
    }
  }

  // ----- one table -----

  /** One index for each family. */
  ghost predicate OneEach(created: seq<Index>, fs: seq<Family>) {
    |created| == |fs| && forall j :: 0 <= j < |fs| ==> Projects(created[j], fs[j])
  }

  /** f can be replaced by one of fs, on its folded table. */
  predicate Replaced(fs: set<Family>, f: Family, up: string -> string) {
    exists out :: out in fs && up(out.table) == up(f.table) && Replaces(out, f)
  }

  /** Folding keeps the columns of f and of each of fs on its table apart. */
  ghost predicate Apart(fs: set<Family>, f: Family, up: string -> string) {
    forall out | out in fs && up(out.table) == up(f.table) ::
      InjectiveOn(up, AllColumns(out) + AllColumns(f))
  }

  /** When no family replaces f, indexes can be made for all of them that leave f unserved. */
  lemma {:induction false} BadProjections(fs: seq<Family>, f: Family, up: string -> string)
    returns (created: seq<Index>)
    requires KeepsEmpty(up) && Apart(Elems(fs), f, up) && !Replaced(Elems(fs), f, up)
    ensures OneEach(created, fs)
    ensures forall j :: 0 <= j < |created| ==> !ServesFolded(created[j], f, up)
  {
    hide Replaces, AllColumns, Projects, ServesFolded;
    created := [];
    if fs != [] {
      var m := |fs| - 1;
      assert fs == fs[..m] + [fs[m]] && fs[m] in Elems(fs);
      ElemsConcat(fs[..m], [fs[m]]);
      var before := BadProjections(fs[..m], f, up);
      var i := BadProjection(fs[m], f, up);
      created := before + [i];
    }
  }

  /** A family is served by some index of every choice of one index each exactly when one of the
      families replaces it. */
  lemma ChoicesServeIff(fs: seq<Family>, f: Family, up: string -> string)
    requires KeepsEmpty(up) && Apart(Elems(fs), f, up)
    ensures Replaced(Elems(fs), f, up) <==> EveryChoiceServes(fs, f, up)
  {
    hide Replaces, AllColumns, Projects, ServesFolded;
    if Replaced(Elems(fs), f, up) {
      var out :| out in Elems(fs) && up(out.table) == up(f.table) && Replaces(out, f);
      AlwaysServesIff(out, f, up);
      var j :| 0 <= j < |fs| && fs[j] == out;
      forall created | OneEach(created, fs) ensures ServedBySome(created, f, up) {
        assert Projects(created[j], fs[j]);
      }
    } else {
      var created := BadProjections(fs, f, up);
      assert !ServedBySome(created, f, up);
    }
  }

  /** Every family that goes in is replaced by one that is left. */
  predicate RunIsRight(input: seq<Family>) {
    forall k :: 0 <= k < |input| ==> ReplacedBySome(Run(input), input[k])
  }

  predicate ReplacedBySome(fs: seq<Family>, f: Family) {
    exists j :: 0 <= j < |fs| && Replaces(fs[j], f)
  }

  ghost predicate EveryChoiceServes(fs: seq<Family>, f: Family, up: string -> string) {
    forall created | OneEach(created, fs) :: ServedBySome(created, f, up)
  }

  /** Families as `ToIndexFamilies` makes them for one table; a column may be repeated. */
  predicate FromExpansion(input: seq<Family>, table: string) {
    forall k :: 0 <= k < |input| ==> input[k].table == table && input[k].fixed == []
  }

  lemma {:induction false} RunKeepsTable(input: seq<Family>, table: string)
    requires FromExpansion(input, table)
    ensures forall j :: 0 <= j < |Run(input)| ==> Run(input)[j].table == table
  {
    hide MergeInto;
    if input != [] {
      var before, f := input[..|input| - 1], input[|input| - 1];
      assert forall k :: 0 <= k < |before| ==> before[k] == input[k];
      RunKeepsTable(before, table);
      StepKeepsTable(Run(before), f, table);
    }
  }

  lemma StepKeepsTable(output: seq<Family>, f: Family, table: string)
    requires f.table == table && f.fixed == []
    requires forall j :: 0 <= j < |output| ==> output[j].table == table
    ensures forall j :: 0 <= j < |MergeInto(output, f)| ==> MergeInto(output, f)[j].table == table
  {
    hide Refine, RefineNoFixed;
    var k := FirstMatch(output, f);
    if k < |output| {
      NothingToRemove(output[k], f);
      MergeNoFixedKeepsColumns(f, output[k]);
    }
  }

  lemma RunColumns(input: seq<Family>, j: nat, k: nat)
    requires j < |Run(input)| && k < |input|
    ensures AllColumns(Run(input)[j]) + AllColumns(input[k]) <= Union(input)
  {
    hide Run, AllColumns;
    RunKeepsColumns(input);
    InUnion(Run(input), j);
    InUnion(input, k);
  }

  /** The reduction of a table is right exactly when, whatever index each family left is projected on,
      some index made serves each family that went in. */
  lemma ReductionVerdict(input: seq<Family>, table: string, up: string -> string)
    requires KeepsEmpty(up) && InjectiveOn(up, Union(input)) && FromExpansion(input, table)
    ensures RunIsRight(input) <==>
      forall k :: 0 <= k < |input| ==> EveryChoiceServes(Run(input), input[k], up)
  {
    hide Run, ReplacedBySome, EveryChoiceServes, InjectiveOn, Union;
    forall k | 0 <= k < |input|
      ensures ReplacedBySome(Run(input), input[k]) <==> EveryChoiceServes(Run(input), input[k], up)
    {
      OneFamilyVerdict(input, table, k, up);
    }
  }

  lemma OneFamilyVerdict(input: seq<Family>, table: string, k: nat, up: string -> string)
    requires KeepsEmpty(up) && InjectiveOn(up, Union(input)) && FromExpansion(input, table) && k < |input|
    ensures ReplacedBySome(Run(input), input[k]) <==> EveryChoiceServes(Run(input), input[k], up)
  {
    hide Run, Replaces, AllColumns, ServedBySome, OneEach;
    var run, f := Run(input), input[k];
    RunKeepsTable(input, table);
    forall out | out in Elems(run) ensures InjectiveOn(up, AllColumns(out) + AllColumns(f)) {
      var j :| 0 <= j < |run| && run[j] == out;
      RunColumns(input, j, k);
    }
    if ReplacedBySome(run, f) {
      var j :| 0 <= j < |run| && Replaces(run[j], f);
      assert run[j] in Elems(run);
    }
    ChoicesServeIff(run, f, up);
  }

  /** Guards that hold at every merge are enough, but not needed: see `LaterMergeRepairs`. */
  lemma SafeRunIsRight(input: seq<Family>, table: string)
    requires SafeRun(input) && forall k :: 0 <= k < |input| ==> Fresh(input[k], table)
    ensures RunIsRight(input)
  {
    SafeRunRefines(input, table);
    hide Run, SafeRun, Fresh, Refines, Replaces;
    forall k | 0 <= k < |input| ensures ReplacedBySome(Run(input), input[k]) {
      var j :| 0 <= j < |Run(input)| && Refines(Run(input)[j], input[k]);
      RefinesIffReplaces(Run(input)[j], input[k]);
    }
  }

  // ----- families without a last column -----

  /** Equality columns only, as in a table whose queries test nothing for inequality. */
  predicate Open(f: Family) {
    f.fixed == [] && f.last == "" && f.flex != {}
  }

  predicate AllOpen(l: seq<Family>) {
    forall k :: 0 <= k < |l| ==> Open(l[k])
  }

  predicate Comparable(f: Family, g: Family) {
    f.flex <= g.flex || g.flex <= f.flex
  }

  function Larger(f: Family, g: Family): set<string> {
    if f.flex <= g.flex then g.flex else f.flex
  }

  /** Two such families are merged exactly when their sets are nested, into the larger one. */
  lemma MergeOpen(f: Family, g: Family)
    requires Open(f) && Open(g)
    ensures Refine(f, g).Some? <==> Comparable(f, g)
    ensures Refine(f, g).Some? ==> Open(Refine(f, g).value) && Refine(f, g).value.flex == Larger(f, g)
  {
    NothingToRemove(f, g);
    OpenColumns(f);
    OpenColumns(g);
    SubsetSize(f.flex, f.flex + g.flex);
    if f.flex <= g.flex {
      SubsetSize(f.flex, g.flex);
    }
    if g.flex <= f.flex {
      SubsetSize(g.flex, f.flex);
    }
    assert forall s: set<string> :: s - {} == s;
    hide Elems, Family.AllIndexed;
  }

  lemma OpenColumns(f: Family)
    requires Open(f)
    ensures f.AllIndexed() == f.flex && f.Size() == |f.flex| && Elems(f.fixed) == {}
  {
  }

  lemma StepOpen(output: seq<Family>, f: Family)
    requires AllOpen(output) && Open(f)
    ensures AllOpen(MergeInto(output, f))
    ensures var k := FirstMatch(output, f);
      && (k < |output| ==> Comparable(output[k], f))
      && (forall j :: 0 <= j < k ==> !Comparable(output[j], f))
  {
    hide Refine, Comparable;
    FirstMatchSkips(output, f);
    var k := FirstMatch(output, f);
    forall j | 0 <= j < |output|
      ensures Refine(output[j], f).Some? <==> Comparable(output[j], f)
      ensures Refine(output[j], f).Some? ==> Open(Refine(output[j], f).value)
    {
      MergeOpen(output[j], f);
    }
  }

  lemma {:induction false} FirstMatchSkips(output: seq<Family>, f: Family)
    ensures forall j :: 0 <= j < FirstMatch(output, f) ==> Refine(output[j], f).None?
  {
    hide Refine;
    if output != [] && Refine(output[0], f).None? {
      FirstMatchSkips(output[1..], f);
      forall j | 0 <= j < FirstMatch(output, f) ensures Refine(output[j], f).None? {
        if j > 0 {
          assert output[1..][j - 1] == output[j];
        }
      }
    }
  }

  // ----- which sets are left -----

  predicate IsSetOf(l: seq<Family>, s: set<string>) {
    exists k :: 0 <= k < |l| && l[k].flex == s
  }

  /** No set of the list is a proper subset of s. */
  predicate Minimal(l: seq<Family>, s: set<string>) {
    forall k :: 0 <= k < |l| ==> !(l[k].flex < s)
  }

  /** Only minimal sets so far, each once. */
  predicate Pure(l: seq<Family>, output: seq<Family>) {
    && (forall j :: 0 <= j < |output| ==> Minimal(l, output[j].flex) && IsSetOf(l, output[j].flex))
    && forall i, j :: 0 <= i < j < |output| ==> output[i].flex != output[j].flex
  }

  function SetsOf(fs: seq<Family>): set<set<string>> {
    set j | 0 <= j < |fs| :: fs[j].flex
  }

  /** s has been merged into something larger, and nothing within it is left. */
  predicate Gone(sets: set<set<string>>, s: set<string>) {
    (exists t :: t in sets && s < t) && forall t | t in sets :: !(t <= s)
  }

  ghost predicate SomethingGone(l: seq<Family>, output: seq<Family>) {
    exists s :: IsSetOf(l, s) && Minimal(l, s) && Gone(SetsOf(output), s)
  }

  function RestOf(output: seq<Family>, k: nat): seq<Family>
    requires k < |output|
  {
    output[..k] + output[k + 1..]
  }

  lemma SetsOfRest(output: seq<Family>, k: nat)
    requires k < |output|
    ensures SetsOf(RestOf(output, k)) + {output[k].flex} == SetsOf(output)
    ensures (forall i, j :: 0 <= i < j < |output| ==> output[i].flex != output[j].flex) ==>
      output[k].flex !in SetsOf(RestOf(output, k))
  {
    var rest := RestOf(output, k);
    assert forall i :: 0 <= i < |rest| ==> rest[i] == output[if i < k then i else i + 1];
    forall i | 0 <= i < |output| && i != k ensures output[i].flex in SetsOf(rest) {
      assert rest[if i < k then i else i - 1] == output[i];
    }
  }

  lemma SetsOfMore(fs: seq<Family>, f: Family)
    ensures SetsOf(fs + [f]) == SetsOf(fs) + {f.flex}
  {
    assert (fs + [f])[|fs|] == f;
    assert forall j :: 0 <= j < |fs| ==> (fs + [f])[j] == fs[j];
  }

  /** The families after one step, by their sets. */
  lemma StepSets(output: seq<Family>, f: Family)
    requires AllOpen(output) && Open(f)
    ensures var k, r := FirstMatch(output, f), MergeInto(output, f);
      && (k == |output| ==> r == output + [f] && SetsOf(r) == SetsOf(output) + {f.flex})
      && (k < |output| ==>
            && |r| == |output| && r[|r| - 1].flex == Larger(output[k], f)
            && r[..|r| - 1] == RestOf(output, k)
            && SetsOf(r) == SetsOf(RestOf(output, k)) + {Larger(output[k], f)})
  {
    hide Refine, SetsOf;
    var k := FirstMatch(output, f);
    if k < |output| {
      MergeOpen(output[k], f);
      var rest := RestOf(output, k);
      SetsOfMore(rest, Refine(output[k], f).value);
      assert (rest + [Refine(output[k], f).value])[..|rest|] == rest;
    } else {
      SetsOfMore(output, f);
    }
  }

  /** What is gone stays gone, as long as nothing smaller comes in. */
  lemma GoneStays(output: seq<Family>, f: Family, s: set<string>)
    requires AllOpen(output) && Open(f) && Gone(SetsOf(output), s) && !(f.flex < s)
    ensures Gone(SetsOf(MergeInto(output, f)), s)
  {
    hide Refine, MergeInto, Open, FirstMatch, RestOf, SetsOf;
    StepOpen(output, f);
    StepSets(output, f);
    var k := FirstMatch(output, f);
    if k < |output| {
      SetsOfRest(output, k);
      GoneAfterMerge(SetsOf(RestOf(output, k)), output[k].flex, f.flex, Larger(output[k], f), s);
    } else {
      FirstMatchAll(output, f, s);
    }
  }

  lemma GoneAfterMerge(
      rest: set<set<string>>, merged: set<string>, more: set<string>, larger: set<string>, s: set<string>)
    requires Gone(rest + {merged}, s) && !(more < s) && merged <= larger && larger in {merged, more}
    ensures Gone(rest + {larger}, s)
  {
    var t :| t in rest + {merged} && s < t;
    if t == merged {
      assert s < larger;
    } else {
      assert t in rest;
    }
    assert !(larger <= s) by {
      assert !(merged <= s);
    }
  }

  /** Without a match the family is comparable with nothing in the output. */
  lemma FirstMatchAll(output: seq<Family>, f: Family, s: set<string>)
    requires Gone(SetsOf(output), s) && !(f.flex < s)
    requires forall j :: 0 <= j < |output| ==> !Comparable(output[j], f)
    ensures Gone(SetsOf(output) + {f.flex}, s)
  {
    var t :| t in SetsOf(output) && s < t;
    var j :| 0 <= j < |output| && output[j].flex == t;
    assert !(f.flex <= output[j].flex);
  }

  /** A minimal set keeps the output pure. */
  lemma MinimalStep(l: seq<Family>, output: seq<Family>, f: Family)
    requires AllOpen(output) && Open(f) && Pure(l, output)
    requires Minimal(l, f.flex) && IsSetOf(l, f.flex)
    ensures Pure(l, MergeInto(output, f))
  {
    StepOpen(output, f);
    StepSets(output, f);
    hide Refine, MergeInto, Open, FirstMatch, Minimal, IsSetOf;
    var k, r := FirstMatch(output, f), MergeInto(output, f);
    if k == |output| {
      assert forall j :: 0 <= j < |output| ==> output[j].flex != f.flex;
    } else {
      SameMinimal(l, output[k].flex, f.flex);
      hide Comparable;
      SameSets(l, output, k, r);
    }
  }

  /** Only the places of the sets have changed. */
  lemma SameSets(l: seq<Family>, output: seq<Family>, k: nat, r: seq<Family>)
    requires Pure(l, output) && k < |output| == |r| && r[|r| - 1].flex == output[k].flex
    requires r[..|r| - 1] == RestOf(output, k)
    ensures Pure(l, r)
  {
    hide Minimal, IsSetOf;
    var m := |r| - 1;
    forall i | 0 <= i < m ensures r[i] == output[if i < k then i else i + 1] {
      assert r[i] == r[..m][i];
    }
  }

  lemma SameMinimal(l: seq<Family>, s: set<string>, t: set<string>)
    requires Minimal(l, s) && Minimal(l, t) && IsSetOf(l, s) && IsSetOf(l, t)
    ensures s <= t || t <= s ==> s == t
  {
  }

  /** Any other set makes a minimal one disappear. */
  lemma OtherStep(l: seq<Family>, output: seq<Family>, f: Family)
    requires AllOpen(output) && Open(f) && Pure(l, output)
    requires !Minimal(l, f.flex) && IsSetOf(l, f.flex)
    ensures SomethingGone(l, MergeInto(output, f))
  {
    hide Refine, MergeInto, Open, FirstMatch, RestOf, SetsOf, Minimal, IsSetOf;
    StepOpen(output, f);
    StepSets(output, f);
    var k := FirstMatch(output, f);
    if k == |output| {
      var s := MinimalWithin(l, f.flex);
      GoneByAddition(l, output, f, s);
    } else {
      SetsOfRest(output, k);
      GoneByMerge(l, output, k, f);
      assert Gone(SetsOf(MergeInto(output, f)), output[k].flex);
    }
  }

  lemma PureSets(l: seq<Family>, output: seq<Family>, t: set<string>)
    requires Pure(l, output) && t in SetsOf(output)
    ensures Minimal(l, t) && IsSetOf(l, t)
  {
    hide Minimal, IsSetOf;
  }

  lemma GoneByAddition(l: seq<Family>, output: seq<Family>, f: Family, s: set<string>)
    requires Pure(l, output) && IsSetOf(l, s) && Minimal(l, s) && s < f.flex
    requires forall j :: 0 <= j < |output| ==> !Comparable(output[j], f)
    ensures Gone(SetsOf(output) + {f.flex}, s)
  {
    hide Minimal, IsSetOf;
    forall t | t in SetsOf(output) ensures !(t <= s) {
      PureSets(l, output, t);
      SameMinimal(l, t, s);
    }
  }

  lemma GoneByMerge(l: seq<Family>, output: seq<Family>, k: nat, f: Family)
    requires Pure(l, output) && k < |output| && Comparable(output[k], f)
    requires !Minimal(l, f.flex) && IsSetOf(l, f.flex)
    ensures Minimal(l, output[k].flex) && IsSetOf(l, output[k].flex)
    ensures Gone(SetsOf(RestOf(output, k)) + {Larger(output[k], f)}, output[k].flex)
  {
    var s := output[k].flex;
    SetsOfRest(output, k);
    MinimalIsSmaller(l, s, f.flex);
    hide Minimal, IsSetOf, RestOf, SetsOf;
    forall t | t in SetsOf(RestOf(output, k)) ensures !(t <= s) {
      PureSets(l, output, t);
      SameMinimal(l, t, s);
    }
  }

  lemma MinimalIsSmaller(l: seq<Family>, s: set<string>, t: set<string>)
    requires Minimal(l, s) && !Minimal(l, t) && IsSetOf(l, t) && (s <= t || t <= s)
    ensures s < t
  {
  }

  /** Below every set of the list there is a minimal one. */
  lemma {:induction false} MinimalWithin(l: seq<Family>, s: set<string>) returns (m: set<string>)
    requires IsSetOf(l, s)
    ensures m <= s && IsSetOf(l, m) && Minimal(l, m)
    ensures !Minimal(l, s) ==> m < s
    decreases |s|
  {
    m := s;
    if k :| 0 <= k < |l| && l[k].flex < s {
      SubsetSize(l[k].flex, s);
      m := MinimalWithin(l, l[k].flex);
    }
  }

  lemma {:induction false} PureOrGone(l: seq<Family>, n: nat)
    requires AllOpen(l) && n <= |l|
    ensures AllOpen(Run(l[..n])) && (Pure(l, Run(l[..n])) || SomethingGone(l, Run(l[..n])))
    ensures (forall k :: 0 <= k < n ==> Minimal(l, l[k].flex)) ==> Pure(l, Run(l[..n]))
  {
    hide MergeInto, Pure, Gone, Minimal, IsSetOf;
    if n == 0 {
      NothingIsPure(l);
    } else {
      PureOrGone(l, n - 1);
      RunEndsWith(l[..n]);
      assert l[..n][..n - 1] == l[..n - 1] && l[..n][n - 1] == l[n - 1];
      OneStep(l, Run(l[..n - 1]), n - 1);
    }
  }

  lemma NothingIsPure(l: seq<Family>)
    ensures AllOpen(Run(l[..0])) && Pure(l, Run(l[..0]))
  {
  }

  lemma OneStep(l: seq<Family>, output: seq<Family>, n: nat)
    requires AllOpen(l) && n < |l| && AllOpen(output) && (Pure(l, output) || SomethingGone(l, output))
    ensures AllOpen(MergeInto(output, l[n]))
    ensures Pure(l, MergeInto(output, l[n])) || SomethingGone(l, MergeInto(output, l[n]))
    ensures Pure(l, output) && Minimal(l, l[n].flex) ==> Pure(l, MergeInto(output, l[n]))
  {
    StepOpen(output, l[n]);
    assert IsSetOf(l, l[n].flex);
    hide MergeInto, Pure, Gone, FirstMatch;
    if Pure(l, output) {
      if Minimal(l, l[n].flex) {
        MinimalStep(l, output, l[n]);
      } else {
        OtherStep(l, output, l[n]);
      }
    } else {
      var s :| IsSetOf(l, s) && Minimal(l, s) && Gone(SetsOf(output), s);
      GoneStays(output, l[n], s);
    }
  }

  /** Such a family is replaced by one with the same set only. */
  lemma OpenReplacement(out: Family, f: Family)
    requires Open(out) && Open(f)
    ensures Replaces(out, f) <==> out.flex == f.flex && f.included <= AllColumns(out)
  {
    hide Cuts;
    OpenCuts(out);
    OpenCuts(f);
    NoLastCut(out);
    NoLastCut(f);
    SameBag(f.flex, out.flex);
    OpenColumns(f);
    OpenColumns(out);
    hide Elems, Family.AllIndexed;
  }

  lemma NoLastCut(f: Family)
    requires Open(f)
    ensures multiset(f.flex) + multiset(f.LastSet()) == multiset(f.flex) != multiset{}
  {
    var x :| x in f.flex;
    assert x in multiset(f.flex);
  }

  lemma SameBag(s: set<string>, t: set<string>)
    ensures multiset(s) == multiset(t) <==> s == t
  {
    assert forall x :: x in s <==> x in multiset(s);
    assert forall x :: x in t <==> x in multiset(t);
  }

  /** The cuts of a family without fixed columns. */
  lemma OpenCuts(f: Family)
    requires f.fixed == []
    ensures Cuts(f) == {multiset{}, multiset(f.flex), multiset(f.flex) + multiset(f.LastSet())}
  {
    assert multiset(f.fixed) == multiset{};
    assert forall k :: 0 <= k <= |f.fixed| ==> f.fixed[..k] == [];
    assert multiset(f.fixed[..0]) in Cuts(f);
    assert multiset{} + multiset(f.flex) == multiset(f.flex);
  }

  /** No column set is a proper subset of another. */
  predicate Antichain(l: seq<Family>) {
    forall k :: 0 <= k < |l| ==> Minimal(l, l[k].flex)
  }

  /** The reduction of families without fixed and last columns is right exactly when none of their
      column sets is a proper subset of another: a condition on what goes in. */
  lemma OpenVerdict(l: seq<Family>)
    requires AllOpen(l)
    ensures RunIsRight(l) <==> Antichain(l)
  {
    PureOrGone(l, |l|);
    assert l[..|l|] == l;
    if Antichain(l) {
      AntichainIsRight(l);
    } else {
      NestedIsWrong(l);
    }
  }

  lemma AntichainIsRight(l: seq<Family>)
    requires AllOpen(l) && Antichain(l) && AllOpen(Run(l)) && Pure(l, Run(l))
    ensures RunIsRight(l)
  {
    RunKeepsColumns(l);
    hide Run, Minimal, IsSetOf, Absorbs, Replaces, Open;
    forall k | 0 <= k < |l| ensures ReplacedBySome(Run(l), l[k]) {
      var j :| 0 <= j < |Run(l)| && Absorbs(Run(l)[j], l[k]);
      AbsorbedByMinimal(l, Run(l)[j], k);
    }
  }

  lemma AbsorbedByMinimal(l: seq<Family>, out: Family, k: nat)
    requires k < |l| && Open(out) && Open(l[k]) && Minimal(l, out.flex) && Absorbs(out, l[k])
    ensures Replaces(out, l[k])
  {
    OpenColumns(out);
    OpenColumns(l[k]);
    OpenReplacement(out, l[k]);
    hide Elems, Family.AllIndexed, Replaces;
  }

  lemma NestedIsWrong(l: seq<Family>)
    requires AllOpen(l) && !Antichain(l) && AllOpen(Run(l))
    requires Pure(l, Run(l)) || SomethingGone(l, Run(l))
    ensures !RunIsRight(l)
  {
    hide Run, Replaces;
    var k :| 0 <= k < |l| && !Minimal(l, l[k].flex);
    if SomethingGone(l, Run(l)) {
      var s :| IsSetOf(l, s) && Minimal(l, s) && Gone(SetsOf(Run(l)), s);
      k :| 0 <= k < |l| && l[k].flex == s;
    }
    forall j | 0 <= j < |Run(l)| ensures !Replaces(Run(l)[j], l[k]) {
      OpenReplacement(Run(l)[j], l[k]);
    }
    assert !ReplacedBySome(Run(l), l[k]);
  }

  // ----- examples -----

  /** A family of flexible columns only. */
  function Flexible(table: string, flex: set<string>): Family {
    Family(table, [], flex, "", {})
  }

  lemma FlexibleCuts(t: string, s: set<string>)
    ensures Cuts(Flexible(t, s)) == {multiset{}, multiset(s)}
  {
    var f := Flexible(t, s);
    var none: set<string> := {};
    assert multiset(f.fixed) == multiset(none) == multiset{};
    assert forall k :: 0 <= k <= |f.fixed| ==> f.fixed[..k] == [];
    assert multiset(f.fixed[..0]) in Cuts(f);
    assert multiset(f.fixed) + multiset(s) == multiset(s);
    assert multiset(f.fixed) + multiset(s) + multiset(f.LastSet()) == multiset(s);
  }

  lemma MergeOfFlexible(t: string, a: string, b: string)
    requires a != b
    ensures var A, AB := Flexible(t, {a}), Flexible(t, {a, b});
      Refine(A, AB) == Some(AB) && Refine(AB, A) == Some(AB)
  {
    var A, AB := Flexible(t, {a}), Flexible(t, {a, b});
    assert |{a, b}| == 2 && Elems<string>([]) == {};
    NothingToRemove(A, AB);
    NothingToRemove(AB, A);
    assert AB.flex - {} == AB.flex;
  }

  /** The reduction loses a family: from {a} and {a, b}, in either order, only {a, b} is left, and it
      does not replace {a}: an index on (b, a) may be made for it. */
  lemma ReductionLosesFamily(t: string, a: string, b: string)
    requires a != b
    ensures var A, AB := Flexible(t, {a}), Flexible(t, {a, b});
      && Run([A, AB]) == [AB] && Run([AB, A]) == [AB]
      && !Replaces(AB, A) && !RunIsRight([A, AB]) && !RunIsRight([AB, A])
  {
    hide *;
    var A, AB := Flexible(t, {a}), Flexible(t, {a, b});
    MergeOfFlexible(t, a, b);
    RunOfTwo(A, AB, AB);
    RunOfTwo(AB, A, AB);
    FirstIsLost(t, a, b);
    LostFromRun([A, AB], AB, 0);
    LostFromRun([AB, A], AB, 1);
  }

  /** The merged family goes to the end of the list: from {a}, {c} and then {a, b} what is left is {c}
      and then {a, b}. */
  lemma MergedGoesLast(t: string, a: string, b: string, c: string)
    requires a != b && a != c && b != c
    ensures Run([Flexible(t, {a}), Flexible(t, {c}), Flexible(t, {a, b})])
      == [Flexible(t, {c}), Flexible(t, {a, b})]
  {
    var A, C, AB := Flexible(t, {a}), Flexible(t, {c}), Flexible(t, {a, b});
    MergeOfFlexible(t, a, b);
    assert a in A.flex && a !in C.flex && c in C.flex && c !in A.flex;
    MergeOpen(A, C);
    hide Flexible, Refine, Run, MergeInto;
    var l := [A, C, AB];
    assert l[..2] == [A, C] && [A, C][..1] == [A];
    RunOfOne(A);
    RunEndsWith([A, C]);
    RunEndsWith(l);
    NoMatchAppends(A, C);
    FirstOfTwo(A, C, AB, AB);
  }

  lemma NoMatchAppends(f: Family, g: Family)
    requires Refine(f, g) == None
    ensures MergeInto([f], g) == [f, g]
  {
    hide Refine;
    assert [f][1..] == [];
    assert FirstMatch([f], g) == 1;
  }

  lemma FirstOfTwo(f: Family, g: Family, h: Family, merged: Family)
    requires Refine(f, h) == Some(merged)
    ensures MergeInto([f, g], h) == [g, merged]
  {
    hide Refine;
    assert FirstMatch([f, g], h) == 0;
    assert [f, g][..0] + [f, g][1..] == [g];
  }

  lemma FirstIsLost(t: string, a: string, b: string)
    requires a != b
    ensures !Replaces(Flexible(t, {a, b}), Flexible(t, {a}))
  {
    FlexibleCuts(t, {a});
    FlexibleCuts(t, {a, b});
    hide Cuts;
    assert multiset({a})[b] == 0 && multiset({a, b})[b] == 1 && multiset({a})[a] == 1;
  }

  lemma LostFromRun(l: seq<Family>, m: Family, k: nat)
    requires Run(l) == [m] && k < |l| && !Replaces(m, l[k])
    ensures !RunIsRight(l)
  {
    hide Run, Replaces;
  }

  lemma RunOfTwo(f: Family, g: Family, merged: Family)
    requires Refine(f, g) == Some(merged)
    ensures Run([f, g]) == [merged]
  {
    hide Refine, MergeInto;
    assert [f, g][..1] == [f];
    RunOfOne(f);
    MergedIntoOnly(f, g, merged);
  }

  /** a = 1 and b > 2. */
  function Ending(table: string, a: string, b: string): Family {
    Family(table, [], {a}, b, {})
  }

  lemma EndingCuts(t: string, a: string, b: string)
    requires b != ""
    ensures multiset{} in Cuts(Ending(t, a, b)) && multiset({a}) in Cuts(Ending(t, a, b))
    ensures multiset({a}) + multiset({b}) in Cuts(Ending(t, a, b))
  {
    var f := Ending(t, a, b);
    assert multiset(f.fixed) == multiset{};
    assert multiset(f.fixed[..0]) in Cuts(f) && f.fixed[..0] == [];
    assert multiset(f.fixed) + multiset({a}) == multiset({a});
    assert multiset(f.fixed) + multiset({a}) + multiset(f.LastSet()) == multiset({a}) + multiset({b});
  }

  lemma MergeOfEnding(t: string, a: string, b: string)
    requires a != b && b != ""
    ensures var A, AB, Y := Flexible(t, {a}), Flexible(t, {a, b}), Ending(t, a, b);
      Refine(A, Y) == Some(Y) && Refine(Y, A) == Some(Y) && Refine(AB, Y) == Some(Y)
  {
    var A, AB, Y := Flexible(t, {a}), Flexible(t, {a, b}), Ending(t, a, b);
    assert |{a, b}| == 2 && Elems<string>([]) == {};
    NothingToRemove(A, Y);
    NothingToRemove(Y, A);
    NothingToRemove(AB, Y);
    assert A.flex - {} == A.flex;
    assert AB.flex - {b} == {a};
    assert Y.AllIndexed() == {a, b} == AB.AllIndexed();
  }

  lemma EndingReplaces(t: string, a: string, b: string)
    requires a != b && b != ""
    ensures var A, AB, Y := Flexible(t, {a}), Flexible(t, {a, b}), Ending(t, a, b);
      Replaces(Y, A) && Replaces(Y, AB) && Replaces(Y, Y)
  {
    FlexibleCuts(t, {a});
    FlexibleCuts(t, {a, b});
    EndingCuts(t, a, b);
    assert multiset({a, b}) == multiset({a}) + multiset({b});
    hide Cuts;
  }

  /** A reduction with a real merge that is right: from a = 1 and from a = 1, b > 2 the latter's family
      is left, in either order, and it replaces both. */
  lemma ReductionKeepsBoth(t: string, a: string, b: string)
    requires a != b && b != ""
    ensures var A, Y := Flexible(t, {a}), Ending(t, a, b);
      Run([A, Y]) == [Y] && Run([Y, A]) == [Y] && RunIsRight([A, Y]) && RunIsRight([Y, A])
  {
    hide *;
    var A, Y := Flexible(t, {a}), Ending(t, a, b);
    MergeOfEnding(t, a, b);
    RunOfTwo(A, Y, Y);
    RunOfTwo(Y, A, Y);
    EndingReplaces(t, a, b);
    OneReplacesAll([A, Y], Y);
    OneReplacesAll([Y, A], Y);
  }

  lemma OneReplacesAll(l: seq<Family>, m: Family)
    requires Run(l) == [m] && forall k :: 0 <= k < |l| ==> Replaces(m, l[k])
    ensures RunIsRight(l)
  {
    hide Run, Replaces;
    assert [m][0] == m;
  }

  /** A run that loses {a} at its second merge and finds it again at the third: right, though not
      every merge is safe. */
  lemma LaterMergeRepairs(t: string, a: string, b: string)
    requires a != b && b != ""
    ensures var l := [Flexible(t, {a, b}), Flexible(t, {a}), Ending(t, a, b)];
      Run(l) == [Ending(t, a, b)] && !SafeRun(l) && RunIsRight(l)
  {
    hide *;
    var A, AB, Y := Flexible(t, {a}), Flexible(t, {a, b}), Ending(t, a, b);
    var l := [AB, A, Y];
    MergeOfFlexible(t, a, b);
    MergeOfEnding(t, a, b);
    RunOfTwo(AB, A, AB);
    EndingReplaces(t, a, b);
    UnsafeStep(t, a, b);
    assert l[..2] == [AB, A] && [AB, A][..1] == [AB];
    RunEndsWith(l);
    RunEndsWith([AB, A]);
    MergedIntoOnly(AB, Y, Y);
    RunOfOne(AB);
    UnsafeStepAt(AB, A);
    OneReplacesAll(l, Y);
  }

  lemma RunOfOne(f: Family)
    ensures Run([f]) == [f]
  {
    hide Refine;
    assert [f][..0] == [];
  }

  lemma MergedIntoOnly(f: Family, g: Family, merged: Family)
    requires Refine(f, g) == Some(merged)
    ensures MergeInto([f], g) == [merged]
  {
    hide Refine;
    assert FirstMatch([f], g) == 0;
  }

  lemma UnsafeStepAt(f: Family, g: Family)
    requires Refine(f, g).Some? && !OrderGuard(g, f)
    ensures !SafeStepAt([f], g)
  {
    hide Refine, OrderGuard, ShareGuard;
    assert FirstMatch([f], g) == 0;
  }

  lemma UnsafeStep(t: string, a: string, b: string)
    requires a != b
    ensures !OrderGuard(Flexible(t, {a}), Flexible(t, {a, b}))
  {
    assert |{a, b}| == 2 && Elems<string>([]) == {};
    assert b in {a, b} && b !in {a};
  }
}
