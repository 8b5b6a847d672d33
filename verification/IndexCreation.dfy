/** From queries to the indexes to create, as it runs (usecases/indexes/aggregate_query.go:188-200,
    usecases/indexes/index_family.go:10-61, usecases/indexes/concrete_index.go:8-57): expansion, selection,
    reduction table by table, selection again and projection. */
module IndexCreation {
  import opened GoSets
  import opened IndexModels
  import opened Hashing
  import opened QueryExpansion
  import opened FamilyCuts
  import opened MergeRun
  import opened HashOrder
  import opened IndexPlanning
  import opened RunVerdict
  import opened PlanVerdict
  import opened QueryVerdict

  ghost predicate ShowsQueries(qs: seq<QueryRef>, values: seq<Query>)
    reads set k | 0 <= k < |qs| :: qs[k].eq, set k | 0 <= k < |qs| :: qs[k].ineq,
          set k | 0 <= k < |qs| :: qs[k].other
  {
    |qs| == |values| && forall k :: 0 <= k < |qs| ==> qs[k].Value() == values[k]
  }

  /** The members of the expansion of q that no existing index covers. */
  ghost function Uncovered(fs: set<Family>, existing: seq<Index>, up: string -> string): set<Family> {
    set f | f in fs && !CoveredBySome(existing, f, up)
  }

  ghost function Demand(values: seq<Query>, existing: seq<Index>, up: string -> string): set<Family> {
    if values == [] then {}
    else
      var n := |values| - 1;
      Demand(values[..n], existing, up) + Uncovered(Expand(values[n]), existing, up)
  }

  predicate AllClean(values: seq<Query>) {
    forall k :: 0 <= k < |values| ==> CleanQuery(values[k])
  }

  // ----- a HashSet of families -----

  /** A Go `HashSet`: its items in insertion order, and their keys. */
  datatype Collected = Collected(items: seq<FamilyRef>, keys: set<string>)

  /** c holds fs, as far as the keys tell its members apart. */
  ghost predicate Holds(hash: Family -> string, c: Collected, fs: set<Family>)
    reads set k | 0 <= k < |c.items| :: c.items[k].flex, set k | 0 <= k < |c.items| :: c.items[k].included
  {
    HashSetOf(hash, Values(c.items), fs) && c.keys == Hashes(hash, fs)
  }

  method Insert(c: Collected, f: FamilyRef, ghost hash: Family -> string, ghost fs: set<Family>)
    returns (c': Collected)
    requires hash == FamilyHash && Holds(hash, c, fs)
    ensures Holds(hash, c', fs + {f.Value()})
  {
    hide HashSetOf, Hashes, FamilyHash, Values;
    ghost var held := Values(c.items);
    var inserted, keys := HashSetInsert(c.keys, f, hash, held, fs);
    var items := if inserted then c.items + [f] else c.items;
    ValuesAppend(c.items, f);
    assert Values(c.items) == held;
    c' := Collected(items, keys);
  }

  lemma NothingHeld(hash: Family -> string)
    ensures Holds(hash, Collected([], {}), {})
  {
  }

  /** Inserts a copy of every family that no existing index covers. */
  method InsertUncovered(
      c: Collected, fams: seq<FamilyRef>, existing: seq<Index>, up: string -> string,
      ghost hash: Family -> string, ghost fs: set<Family>)
    returns (c': Collected)
    requires KeepsEmpty(up) && hash == FamilyHash && Holds(hash, c, fs)
    ensures Holds(hash, c', fs + Uncovered(Elems(Values(fams)), existing, up))
  {
    hide HashSetOf, Hashes, FamilyHash, CoveredBySome, Elems, Uncovered, Values;
    c' := c;
    ghost var given := Values(fams);
    ghost var held := fs;
    UncoveredOneMore(given, 0, existing, up);
    for n := 0 to |fams|
      invariant Values(fams) == given && Holds(hash, c', held)
      invariant held == fs + Uncovered(Elems(given[..n]), existing, up)
    {
      UncoveredOneMore(given, n, existing, up);
      ghost var values := Values(c'.items);
      var need := NeedsIndex(fams[n], existing, up);
      if need {
        var copy := fams[n].Copy();
        assert Values(c'.items) == values;
        c' := Insert(c', copy, hash, held);
        held := held + {given[n]};
      } else {
        assert Values(c'.items) == values;
      }
    }
    assert given[..|fams|] == given;
  }

  lemma UncoveredOneMore(given: seq<Family>, n: nat, existing: seq<Index>, up: string -> string)
    requires n <= |given|
    ensures Uncovered(Elems(given[..0]), existing, up) == {}
    ensures n < |given| ==>
      Uncovered(Elems(given[..n + 1]), existing, up) == Uncovered(Elems(given[..n]), existing, up)
        + if CoveredBySome(existing, given[n], up) then {} else {given[n]}
  {
    hide CoveredBySome;
    if n < |given| {
      assert given[..n + 1] == given[..n] + [given[n]];
      ElemsConcat(given[..n], [given[n]]);
      OrdersOne(given[n]);
    }
  }

  // ----- the families that need an index -----

  /** The loop of `indexesToCreateFromQueryFamilies`. fs are the families that were inserted. */
  method FamiliesToCreate(
      queries: seq<QueryRef>, ghost values: seq<Query>, existing: seq<Index>, up: string -> string,
      ghost hash: Family -> string)
    returns (c: Collected, ghost fs: set<Family>)
    requires KeepsEmpty(up) && hash == FamilyHash && ShowsQueries(queries, values)
    ensures Holds(hash, c, fs) && fs <= Demand(values, existing, up)
    ensures AllClean(values) ==> fs == Demand(values, existing, up)
  {
    hide HashSetOf, Hashes, FamilyHash, Demand, CleanQuery, Uncovered, Expand, Values;
    c, fs := Collected([], {}), {};
    NothingHeld(hash);
    DemandOneMore(values, 0, existing, up);
    for n := 0 to |queries|
      invariant ShowsQueries(queries, values) && Holds(hash, c, fs)
      invariant fs <= Demand(values[..n], existing, up)
      invariant AllClean(values) ==> fs == Demand(values[..n], existing, up)
    {
      DemandOneMore(values, n, existing, up);
      ghost var added;
      c, added := AddQuery(c, queries[n], existing, up, hash, fs);
      fs := fs + added;
    }
    assert values[..|values|] == values;
  }

  method AddQuery(
      c: Collected, q: QueryRef, existing: seq<Index>, up: string -> string,
      ghost hash: Family -> string, ghost fs: set<Family>)
    returns (c': Collected, ghost added: set<Family>)
    requires KeepsEmpty(up) && hash == FamilyHash && Holds(hash, c, fs)
    ensures Holds(hash, c', fs + added) && added <= Uncovered(Expand(q.Value()), existing, up)
    ensures CleanQuery(q.Value()) ==> added == Uncovered(Expand(q.Value()), existing, up)
  {
    hide HashSetOf, Hashes, FamilyHash, CleanQuery, Expand, CoveredBySome, Isolated, Elems, Values;
    ghost var held := Values(c.items);
    var fams, items := ToIndexFamilies(q);
    assert Values(c.items) == held && Values(fams) == items;
    ExpansionItems(items, q.Value());
    added := Uncovered(Elems(items), existing, up);
    c' := InsertUncovered(c, fams, existing, up, hash, fs);
  }

  lemma ExpansionItems(items: seq<Family>, q: Query)
    requires HashSetOf(FamilyHash, items, Expand(q))
    ensures Elems(items) <= Expand(q) && (CleanQuery(q) ==> Elems(items) == Expand(q))
  {
    if CleanQuery(q) {
      CleanExpansionIsExact(items, q);
    }
  }

  lemma DemandOneMore(values: seq<Query>, n: nat, existing: seq<Index>, up: string -> string)
    requires n <= |values|
    ensures Demand(values[..0], existing, up) == {}
    ensures n < |values| ==>
      Demand(values[..n + 1], existing, up)
        == Demand(values[..n], existing, up) + Uncovered(Expand(values[n]), existing, up)
  {
    hide Uncovered, Expand;
    if n < |values| {
      assert values[..n + 1][..n] == values[..n];
    }
  }

  lemma {:induction false} DemandMembers(
      values: seq<Query>, existing: seq<Index>, up: string -> string, f: Family)
    ensures f in Demand(values, existing, up) <==>
      !CoveredBySome(existing, f, up) && exists q :: q in values && f in Expand(q)
  {
    hide CoveredBySome, Expand;
    if values != [] {
      var n := |values| - 1;
      DemandMembers(values[..n], existing, up, f);
      assert values == values[..n] + [values[n]];
    }
  }

  // ----- table by table -----

  function OfTable(list: seq<Family>, table: string): seq<Family> {
    if list == [] then []
    else
      var f := list[|list| - 1];
      OfTable(list[..|list| - 1], table) + (if f.table == table then [f] else [])
  }

  lemma {:induction false} OfTableMembers(list: seq<Family>, table: string, f: Family)
    ensures f in OfTable(list, table) <==> f in list && f.table == table
  {
    if list != [] {
      OfTableMembers(list[..|list| - 1], table, f);
      assert list == list[..|list| - 1] + [list[|list| - 1]];
    }
  }

  lemma OfTableOneMore(list: seq<Family>, f: Family)
    ensures forall t :: OfTable(list + [f], t) == OfTable(list, t) + if f.table == t then [f] else []
  {
    assert (list + [f])[..|list|] == list;
  }

  type Groups = map<string, seq<FamilyRef>>

  /** Each table that occurs has its families, in the order of the list. */
  ghost predicate Grouped(groups: Groups, list: seq<Family>)
    reads set t, k | t in groups && 0 <= k < |groups[t]| :: groups[t][k].flex,
          set t, k | t in groups && 0 <= k < |groups[t]| :: groups[t][k].included
  {
    forall t :: if t in groups then Values(groups[t]) == OfTable(list, t) else OfTable(list, t) == []
  }

  /** `groupIdxFamiliesByTable`. */
  method GroupByTable(fams: seq<FamilyRef>) returns (groups: Groups)
    ensures Grouped(groups, Values(fams))
  {
    hide OfTable, Values;
    ghost var list := Values(fams);
    groups := map[];
    OfNoTable();
    for n := 0 to |fams|
      invariant Grouped(groups, list[..n])
    {
      var f := fams[n];
      OfTableOneMore(list[..n], list[n]);
      assert list[..n + 1] == list[..n] + [list[n]];
      if f.table !in groups {
        groups := groups[f.table := []];
      }
      var group := groups[f.table];
      ValuesAppend(group, f);
      groups := groups[f.table := group + [f]];
    }
    assert list[..|fams|] == list;
  }

  lemma OfNoTable()
    ensures forall t :: OfTable([], t) == []
  {
  }

  /** The families of one table, in the order in which they are reduced. */
  function TableInput(list: seq<Family>, table: string): seq<Family> {
    ByHash(OfTable(list, table), FamilyHash)
  }

  lemma TableInputMembers(list: seq<Family>, table: string, f: Family)
    ensures f in TableInput(list, table) <==> f in list && f.table == table
  {
    ByHashMembers(OfTable(list, table), FamilyHash, f);
    OfTableMembers(list, table, f);
  }

  /** The families that the reduction leaves, over some of the tables. */
  ghost function Reduced(list: seq<Family>, tables: set<string>): set<Family> {
    set t, f | t in tables && f in Run(TableInput(list, t)) :: f
  }

  /** `extractMinimalSetOfIdxFamilies`: tables in any order, results in one `HashSet`. */
  method ExtractMinimalByTable(fams: seq<FamilyRef>, ghost hash: Family -> string)
    returns (c: Collected, ghost tables: set<string>)
    requires hash == FamilyHash
    ensures Holds(hash, c, Reduced(Values(fams), tables))
    ensures forall f | f in Values(fams) :: f.table in tables
  {
    hide HashSetOf, Hashes, FamilyHash, Run, TableInput, OfTable, ByHash, Values, Elems, Reduced;
    ghost var list := Values(fams);
    var groups := GroupByTable(fams);
    TablesGrouped(groups, list);
    c, tables := Collected([], {}), {};
    NothingHeld(hash);
    NothingReduced(list);
    var todo := groups.Keys;
    while todo != {}
      invariant todo <= groups.Keys && tables == groups.Keys - todo
      invariant Grouped(groups, list) && Holds(hash, c, Reduced(list, tables))
      decreases todo
    {
      var t :| t in todo;
      c := ReduceGroup(groups, list, tables, t, c, hash);
      todo, tables := todo - {t}, tables + {t};
    }
  }

  lemma NothingReduced(list: seq<Family>)
    ensures Reduced(list, {}) == {}
  {
  }

  method ReduceGroup(
      groups: Groups, ghost list: seq<Family>, ghost tables: set<string>, t: string, c: Collected,
      ghost hash: Family -> string)
    returns (c': Collected)
    requires hash == FamilyHash && t in groups && Grouped(groups, list)
    requires Holds(hash, c, Reduced(list, tables))
    ensures Holds(hash, c', Reduced(list, tables + {t}))
  {
    hide HashSetOf, Hashes, FamilyHash, Run, TableInput, OfTable, ByHash, Values, Elems, Reduced;
    ReducedOneMore(list, tables, t, hash);
    assert Values(groups[t]) == OfTable(list, t);
    c' := ReduceTable(groups[t], c, hash, Reduced(list, tables));
  }

  lemma TablesGrouped(groups: Groups, list: seq<Family>)
    requires Grouped(groups, list)
    ensures forall f | f in list :: f.table in groups
  {
    forall f | f in list ensures f.table in groups {
      OfTableMembers(list, f.table, f);
    }
  }

  lemma ReducedOneMore(list: seq<Family>, tables: set<string>, t: string, hash: Family -> string)
    requires hash == FamilyHash
    ensures Reduced(list, tables + {t})
      == Reduced(list, tables) + Elems(Run(ByHash(OfTable(list, t), hash)))
  {
    assert TableInput(list, t) == ByHash(OfTable(list, t), hash);
    hide Run, TableInput, OfTable, ByHash, FamilyHash;
    assert Reduced(list, tables + {t}) == Reduced(list, tables) + Elems(Run(TableInput(list, t)));
  }

  /** One table: the reduced families are added to the set. */
  method ReduceTable(
      fams: seq<FamilyRef>, c: Collected, ghost hash: Family -> string, ghost fs: set<Family>)
    returns (c': Collected)
    requires hash == FamilyHash && Holds(hash, c, fs)
    ensures Holds(hash, c', fs + Elems(Run(ByHash(Values(fams), hash))))
  {
    hide HashSetOf, Hashes, FamilyHash, Run, Elems, Values, ByHash;
    ghost var values := Values(c.items);
    var out := ReduceSorted(fams, hash);
    assert Values(c.items) == values;
    c' := InsertEach(c, out, hash, fs);
  }

  method ReduceSorted(fams: seq<FamilyRef>, ghost hash: Family -> string) returns (out: seq<FamilyRef>)
    requires hash == FamilyHash
    ensures Values(out) == Run(ByHash(Values(fams), hash))
  {
    hide FamilyHash, Run, Values, ByHash;
    var sorted := SortFamilies(fams, hash);
    out := ExtractMinimal(sorted);
  }

  method InsertEach(
      c: Collected, out: seq<FamilyRef>, ghost hash: Family -> string, ghost fs: set<Family>)
    returns (c': Collected)
    requires hash == FamilyHash && Holds(hash, c, fs)
    ensures Holds(hash, c', fs + Elems(Values(out)))
  {
    hide HashSetOf, Hashes, FamilyHash, Elems, Values;
    c' := c;
    ghost var held, run := fs, Values(out);
    PrefixOneMore(run, 0);
    for n := 0 to |out|
      invariant Values(out) == run && Holds(hash, c', held) && held == fs + Elems(run[..n])
    {
      PrefixOneMore(run, n);
      c' := Insert(c', out[n], hash, held);
      held := held + {run[n]};
    }
    assert run[..|out|] == run;
  }

  lemma PrefixOneMore(run: seq<Family>, n: nat)
    requires n <= |run|
    ensures Elems(run[..0]) == {}
    ensures n < |run| ==> Elems(run[..n + 1]) == Elems(run[..n]) + {run[n]}
  {
    if n < |run| {
      assert run[..n + 1] == run[..n] + [run[n]];
      ElemsConcat(run[..n], [run[n]]);
      OrdersOne(run[n]);
    }
  }

  // ----- the indexes -----

  /** `selectConcreteIndexesToCreate`. */
  method ProjectFamilies(fams: seq<FamilyRef>, existing: seq<Index>, up: string -> string)
    returns (created: seq<Index>)
    requires KeepsEmpty(up)
    ensures ProjectsUncovered(created, Values(fams), existing, up)
  {
    hide CoveredBySome, Projects, Values, UncoveredOf;
    ghost var given := Values(fams);
    created := [];
    UncoveredOfOneMore(given, 0, existing, up);
    for n := 0 to |fams|
      invariant Values(fams) == given && ProjectsUncovered(created, given[..n], existing, up)
    {
      UncoveredOfOneMore(given, n, existing, up);
      var need := NeedsIndex(fams[n], existing, up);
      if need {
        var i := Project(fams[n]);
        created := created + [i];
      }
    }
    assert given[..|fams|] == given;
  }

  lemma UncoveredOfOneMore(given: seq<Family>, n: nat, existing: seq<Index>, up: string -> string)
    requires n <= |given|
    ensures UncoveredOf(given[..0], existing, up) == []
    ensures n < |given| ==>
      UncoveredOf(given[..n + 1], existing, up) == UncoveredOf(given[..n], existing, up)
        + if CoveredBySome(existing, given[n], up) then [] else [given[n]]
  {
    hide CoveredBySome;
    if n < |given| {
      assert given[..n + 1][..n] == given[..n];
    }
  }

  // ----- when the plan is right -----

  function TablesOf(list: seq<Family>): set<string> {
    set f | f in list :: f.table
  }

  /** What the reduction leaves of the families of a list. */
  ghost function Left(list: seq<Family>): set<Family> {
    Reduced(list, TablesOf(list))
  }

  /** Clean names, kept apart by folding between each family and what is left on its table. */
  ghost predicate Plain(values: seq<Query>, list: seq<Family>, up: string -> string) {
    AllClean(values) && forall f | f in list :: Apart(Left(list), f, up)
  }

  /** Every family of the list is served by an existing index or replaced by one that is left: a
      condition on cuts and columns that takes no account of indexes to come. */
  ghost predicate PlanIsRight(list: seq<Family>, existing: seq<Index>, up: string -> string) {
    forall f | f in list :: Provided(f, Left(list), existing, up)
  }

  /** created is what may come out for the families of the list: what is left of them is ranged over
      in any order, and each uncovered family projected with any order of its flexible columns. */
  ghost predicate Outcome(
      created: seq<Index>, list: seq<Family>, existing: seq<Index>, up: string -> string)
  {
    exists left :: Orders(left, Left(list)) && ProjectsUncovered(created, left, existing, up)
  }

  ghost predicate EveryQueryIsServed(values: seq<Query>, indexes: seq<Index>, up: string -> string) {
    forall q, f | q in values && f in Expand(q) :: IsServed(q, f, indexes, up)
  }

  /** By one of the indexes, and the query by one of them too. */
  ghost predicate IsServed(q: Query, f: Family, indexes: seq<Index>, up: string -> string) {
    ServedBySome(indexes, f, up) && exists k :: 0 <= k < |indexes| && LeadsQuery(indexes[k], q, up)
  }

  /** For a family that the reduction leaves and that no index covers. */
  ghost predicate MadeFor(i: Index, list: seq<Family>, existing: seq<Index>, up: string -> string) {
    exists f :: f in Left(list) && !CoveredBySome(existing, f, up) && Projects(i, f)
  }

  lemma MadeForMembers(
      created: seq<Index>, left: seq<Family>, all: set<Family>, list: seq<Family>,
      existing: seq<Index>, up: string -> string)
    requires Elems(left) <= all == Left(list) && ProjectsUncovered(created, left, existing, up)
    ensures forall i | i in created :: MadeFor(i, list, existing, up)
  {
    hide CoveredBySome, Projects, Left, UncoveredOf;
    var needed := UncoveredOf(left, existing, up);
    forall i | i in created ensures MadeFor(i, list, existing, up) {
      var j :| 0 <= j < |created| && created[j] == i;
      UncoveredMembers(left, existing, up, needed[j]);
      assert needed[j] in Elems(left);
    }
  }

  /** In every outcome every member of every query's expansion is served exactly when the plan is
      right. */
  lemma PlanVerdictIff(values: seq<Query>, list: seq<Family>, existing: seq<Index>, up: string -> string)
    requires KeepsEmpty(up) && Plain(values, list, up) && Orders(list, Demand(values, existing, up))
    ensures PlanIsRight(list, existing, up) <==>
      forall created | Outcome(created, list, existing, up) ::
        EveryQueryIsServed(values, existing + created, up)
  {
    hide Demand, Left, Provided, ProjectsUncovered, CoveredBySome, Expand, CleanQuery, Apart, IsServed;
    if PlanIsRight(list, existing, up) {
      forall created | Outcome(created, list, existing, up)
        ensures EveryQueryIsServed(values, existing + created, up)
      {
        RightPlanServes(values, list, existing, created, up);
      }
    } else {
      var f :| f in list && !Provided(f, Left(list), existing, up);
      var created := BadOutcome(f, list, existing, up);
      InElems(list, f);
      DemandMembers(values, existing, up, f);
      var q :| q in values && f in Expand(q);
      assert !IsServed(q, f, existing + created, up) by {
        hide LeadsQuery, ServedBySome;
        NotServed(q, f, existing + created, up);
      }
    }
  }

  // ----- when every query is led -----

  /** A query with no usable condition has no index of its own. */
  predicate Usable(q: Query) {
    Columns(q.eq) != {} || Columns(q.ineq) != {}
  }

  ghost predicate EveryQueryIsLed(values: seq<Query>, indexes: seq<Index>, up: string -> string) {
    forall q | q in values && Usable(q) :: LedBySome(indexes, q, up)
  }

  /** Every query is led by an existing index or guided by a family that is left. */
  ghost predicate QueriesProvided(
      values: seq<Query>, list: seq<Family>, existing: seq<Index>, up: string -> string)
  {
    forall q | q in values && Usable(q) :: QueryProvided(q, Left(list), existing, up)
  }

  ghost predicate QueriesApart(values: seq<Query>, list: seq<Family>, up: string -> string) {
    forall q | q in values :: QueryApart(Left(list), q, up)
  }

  /** In every outcome every usable query is led exactly when every one is provided for. This asks less
      than `PlanIsRight`: one way to run a query is enough. */
  lemma QueryPlanVerdictIff(
      values: seq<Query>, list: seq<Family>, existing: seq<Index>, up: string -> string)
    requires KeepsEmpty(up) && QueriesApart(values, list, up)
    ensures QueriesProvided(values, list, existing, up) <==>
      forall created | Outcome(created, list, existing, up) ::
        EveryQueryIsLed(values, existing + created, up)
  {
    hide Left, QueryProvided, ProjectsUncovered, QueryApart, LedBySome;
    if QueriesProvided(values, list, existing, up) {
      forall created | Outcome(created, list, existing, up)
        ensures EveryQueryIsLed(values, existing + created, up)
      {
        var left :| Orders(left, Left(list)) && ProjectsUncovered(created, left, existing, up);
        OrderElems(left, Left(list));
        forall q | q in values && Usable(q) ensures LedBySome(existing + created, q, up) {
          QueryProvidedIff(q, left, existing, up);
        }
      }
    } else {
      var q :| q in values && Usable(q) && !QueryProvided(q, Left(list), existing, up);
      var created := UnledOutcome(q, list, existing, up);
    }
  }

  lemma UnledOutcome(q: Query, list: seq<Family>, existing: seq<Index>, up: string -> string)
    returns (created: seq<Index>)
    requires KeepsEmpty(up) && QueryApart(Left(list), q, up) && !QueryProvided(q, Left(list), existing, up)
    ensures Outcome(created, list, existing, up) && !LedBySome(existing + created, q, up)
  {
    hide Left, QueryProvided, ProjectsUncovered, QueryApart, LedBySome, Orders;
    var left := SomeOrder(Left(list));
    OrderElems(left, Left(list));
    QueryProvidedIff(q, left, existing, up);
    created :| ProjectsUncovered(created, left, existing, up) && !LedBySome(existing + created, q, up);
  }

  /** However Go's maps are ranged over, every query is provided for. */
  ghost predicate LeadableQueries(values: seq<Query>, existing: seq<Index>, up: string -> string) {
    forall list | Orders(list, Demand(values, existing, up)) ::
      AllClean(values) && QueriesApart(values, list, up) && QueriesProvided(values, list, existing, up)
  }

  /** The queries are leadable exactly when every outcome, for every listing, leads every one. */
  lemma LeadableQueriesIff(values: seq<Query>, existing: seq<Index>, up: string -> string)
    requires KeepsEmpty(up) && AllClean(values)
    requires forall list | Orders(list, Demand(values, existing, up)) :: QueriesApart(values, list, up)
    ensures LeadableQueries(values, existing, up) <==>
      forall list, created |
        Orders(list, Demand(values, existing, up)) && Outcome(created, list, existing, up) ::
        EveryQueryIsLed(values, existing + created, up)
  {
    hide Orders, Demand, Outcome, EveryQueryIsLed, QueriesProvided, QueriesApart, CleanQuery;
    forall list | Orders(list, Demand(values, existing, up))
      ensures QueriesProvided(values, list, existing, up) <==>
        forall created | Outcome(created, list, existing, up) ::
          EveryQueryIsLed(values, existing + created, up)
    {
      QueryPlanVerdictIff(values, list, existing, up);
    }
  }

  lemma LeadableOutcomeLeads(
      values: seq<Query>, existing: seq<Index>, up: string -> string, list: seq<Family>,
      created: seq<Index>)
    requires KeepsEmpty(up)
    requires AllClean(values) ==>
      Orders(list, Demand(values, existing, up)) && Outcome(created, list, existing, up)
    ensures LeadableQueries(values, existing, up) ==> EveryQueryIsLed(values, existing + created, up)
  {
    hide Orders, Demand, Outcome, EveryQueryIsLed, QueriesProvided, QueriesApart, CleanQuery;
    if LeadableQueries(values, existing, up) {
      var some := SomeOrder(Demand(values, existing, up));
      assert QueriesApart(values, some, up);
      QueryPlanVerdictIff(values, list, existing, up);
    }
  }

  /** Serving every member leads every query. */
  lemma ServedIsLed(values: seq<Query>, indexes: seq<Index>, up: string -> string)
    requires EveryQueryIsServed(values, indexes, up)
    ensures EveryQueryIsLed(values, indexes, up)
  {
    hide ServedBySome, LeadsQuery;
    forall q | q in values && Usable(q) ensures LedBySome(indexes, q, up) {
      var f := SomeMember(q);
      assert IsServed(q, f, indexes, up);
    }
  }

  lemma SomeMember(q: Query) returns (f: Family)
    requires Usable(q)
    ensures f in Expand(q)
  {
    var base := Family(q.table, [], Columns(q.eq), "", Columns(q.other));
    f := base;
    if Columns(q.ineq) != {} {
      var c :| c in Columns(q.ineq);
      f := Member(base, Columns(q.ineq), c);
    }
  }

  // ----- names that stay apart -----

  function AllMentioned(values: seq<Query>): set<string> {
    set q, x | q in values && x in Mentioned(q) :: x
  }

  /** A condition on the queries alone: clean names that folding never confuses. */
  lemma NamesApart(values: seq<Query>, list: seq<Family>, existing: seq<Index>, up: string -> string)
    requires AllClean(values) && InjectiveOn(up, AllMentioned(values))
    requires forall f | f in list :: f in Demand(values, existing, up)
    ensures Plain(values, list, up) && QueriesApart(values, list, up)
  {
    hide Demand, Left, AllColumns, Mentioned, CleanQuery, Expand, InjectiveOn;
    forall out | out in Left(list) ensures AllColumns(out) <= AllMentioned(values) {
      LeftColumns(values, list, existing, up, out);
    }
    forall f | f in list ensures AllColumns(f) <= AllMentioned(values) {
      DemandColumns(values, existing, up, f);
    }
    forall q | q in values ensures Mentioned(q) <= AllMentioned(values) {
    }
    forall s | s <= AllMentioned(values) ensures InjectiveOn(up, s) {
      FewerApart(up, s, AllMentioned(values));
    }
    hide AllMentioned;
    forall f | f in list ensures Apart(Left(list), f, up) {
      forall out | out in Left(list) ensures InjectiveOn(up, AllColumns(out) + AllColumns(f)) {
      }
    }
    forall q | q in values ensures QueryApart(Left(list), q, up) {
      forall out | out in Left(list) ensures InjectiveOn(up, AllColumns(out) + Mentioned(q)) {
      }
    }
  }

  lemma FewerApart(up: string -> string, s: set<string>, t: set<string>)
    requires InjectiveOn(up, t) && s <= t
    ensures InjectiveOn(up, s)
  {
  }

  lemma DemandColumns(values: seq<Query>, existing: seq<Index>, up: string -> string, f: Family)
    requires AllClean(values) && f in Demand(values, existing, up)
    ensures AllColumns(f) <= AllMentioned(values)
  {
    hide Demand, AllColumns, Mentioned, CleanQuery, Expand, CoveredBySome;
    DemandMembers(values, existing, up, f);
    var q :| q in values && f in Expand(q);
    CleanNames(q);
    MemberColumns(q, f);
  }

  lemma LeftColumns(
      values: seq<Query>, list: seq<Family>, existing: seq<Index>, up: string -> string, out: Family)
    requires AllClean(values) && out in Left(list)
    requires forall f | f in list :: f in Demand(values, existing, up)
    ensures AllColumns(out) <= AllMentioned(values)
  {
    hide Demand, AllColumns, AllMentioned, CleanQuery, Run, TableInput;
    var t :| t in TablesOf(list) && out in Run(TableInput(list, t));
    var l := TableInput(list, t);
    var j :| 0 <= j < |Run(l)| && Run(l)[j] == out;
    RunKeepsColumns(l);
    InUnion(Run(l), j);
    forall k | 0 <= k < |l| ensures AllColumns(l[k]) <= AllMentioned(values) {
      TableInputMembers(list, t, l[k]);
      DemandColumns(values, existing, up, l[k]);
    }
    UnionWithin(l, AllMentioned(values));
  }

  lemma {:induction false} UnionWithin(l: seq<Family>, s: set<string>)
    requires forall k :: 0 <= k < |l| ==> AllColumns(l[k]) <= s
    ensures Union(l) <= s
  {
    hide AllColumns;
    if l != [] {
      assert forall k :: 0 <= k < |l| - 1 ==> l[1..][k] == l[k + 1];
      UnionWithin(l[1..], s);
    }
  }

  // ----- safe merges are enough -----

  /** When no query tests a column in both ways and the guards hold at every merge, the plan is right. */
  lemma SafeMergesAreEnough(
      values: seq<Query>, list: seq<Family>, existing: seq<Index>, up: string -> string)
    requires forall q | q in values :: Separated(q)
    requires forall f | f in list :: f in Demand(values, existing, up)
    requires forall t :: SafeRun(TableInput(list, t))
    ensures PlanIsRight(list, existing, up)
  {
    hide Demand, SafeRun, TableInput, Separated, Expand, Run, Replaces, Fresh, CoveredBySome, ServedBySome;
    forall f | f in list ensures Provided(f, Left(list), existing, up) {
      var t := f.table;
      var l := TableInput(list, t);
      forall k | 0 <= k < |l| ensures Fresh(l[k], t) {
        TableInputMembers(list, t, l[k]);
        DemandMembers(values, existing, up, l[k]);
        var q :| q in values && l[k] in Expand(q);
        MemberIsFresh(q, l[k]);
        MemberTable(q, l[k]);
      }
      SafeRunIsRight(l, t);
      TableInputMembers(list, t, f);
      RightRunProvides(list, f, up);
    }
  }

  lemma RightRunProvides(list: seq<Family>, f: Family, up: string -> string)
    requires f in list && f in TableInput(list, f.table) && RunIsRight(TableInput(list, f.table))
    requires forall k :: 0 <= k < |TableInput(list, f.table)| ==>
      Fresh(TableInput(list, f.table)[k], f.table)
    ensures Replaced(Left(list), f, up)
  {
    hide TableInput, Run, Replaces;
    var l := TableInput(list, f.table);
    RunKeepsTable(l, f.table);
    var k :| 0 <= k < |l| && l[k] == f;
    assert ReplacedBySome(Run(l), l[k]);
    var j :| 0 <= j < |Run(l)| && Replaces(Run(l)[j], f);
    assert Run(l)[j] in Run(l) && f.table in TablesOf(list);
    ReducedMember(list, TablesOf(list), f.table, Run(l)[j]);
  }

  lemma ReducedMember(list: seq<Family>, tables: set<string>, t: string, f: Family)
    requires t in tables && f in Run(TableInput(list, t))
    ensures f in Reduced(list, tables)
  {
    hide Run, TableInput;
  }

  lemma MemberTable(q: Query, f: Family)
    requires f in Expand(q)
    ensures f.table == q.table
  {
  }

  lemma NotServed(q: Query, f: Family, indexes: seq<Index>, up: string -> string)
    ensures IsServed(q, f, indexes, up) ==> ServedBySome(indexes, f, up)
  {
  }

  lemma BadOutcome(f: Family, list: seq<Family>, existing: seq<Index>, up: string -> string)
    returns (created: seq<Index>)
    requires KeepsEmpty(up) && Apart(Left(list), f, up) && !Provided(f, Left(list), existing, up)
    ensures Outcome(created, list, existing, up) && !ServedBySome(existing + created, f, up)
  {
    hide Left, Provided, ProjectsUncovered, Apart, ServedBySome, Orders;
    var left := SomeOrder(Left(list));
    OrderElems(left, Left(list));
    ProvidedIff(f, left, existing, up);
    created :| ProjectsUncovered(created, left, existing, up) && !ServedBySome(existing + created, f, up);
  }

  lemma OrderElems(p: seq<Family>, s: set<Family>)
    requires Orders(p, s)
    ensures Elems(p) == s
  {
  }

  lemma RightPlanServes(
      values: seq<Query>, list: seq<Family>, existing: seq<Index>, created: seq<Index>, up: string -> string)
    requires KeepsEmpty(up) && Plain(values, list, up) && Orders(list, Demand(values, existing, up))
    requires PlanIsRight(list, existing, up) && Outcome(created, list, existing, up)
    ensures EveryQueryIsServed(values, existing + created, up)
  {
    hide Demand, Left, Provided, ProjectsUncovered, Expand, CleanQuery, Apart, ServedBySome, CoversSpec;
    hide LeadsQuery;
    var left :| Orders(left, Left(list)) && ProjectsUncovered(created, left, existing, up);
    OrderElems(left, Left(list));
    forall q, f | q in values && f in Expand(q) ensures IsServed(q, f, existing + created, up) {
      DemandMembers(values, existing, up, f);
      if CoveredBySome(existing, f, up) {
        CoveredIsServed(existing, created, f, up);
      } else {
        InElems(list, f);
        ProvidedIff(f, left, existing, up);
      }
      CleanNames(q);
      ServedQueryIsLed(existing + created, q, f, up);
    }
  }

  lemma CoveredIsServed(existing: seq<Index>, created: seq<Index>, f: Family, up: string -> string)
    requires CoveredBySome(existing, f, up)
    ensures ServedBySome(existing + created, f, up)
  {
    hide CoversSpec, ServesFolded;
    var k :| 0 <= k < |existing| && CoversSpec(existing[k], f, up);
    CoversServes(existing[k], f, up);
    assert (existing + created)[k] == existing[k];
  }

  lemma CleanNames(q: Query)
    requires CleanQuery(q)
    ensures "" !in Columns(q.ineq)
  {
  }

  /** However Go's maps are ranged over: the families to reduce may be listed in any order. */
  ghost predicate SafeQueries(values: seq<Query>, existing: seq<Index>, up: string -> string) {
    forall list | Orders(list, Demand(values, existing, up)) ::
      Plain(values, list, up) && PlanIsRight(list, existing, up)
  }

  // ----- why the result is right -----

  lemma CleanDemand(
      values: seq<Query>, existing: seq<Index>, up: string -> string, list: seq<Family>)
    requires AllClean(values) && HashSetOf(FamilyHash, list, Demand(values, existing, up))
    ensures Elems(list) == Demand(values, existing, up)
    ensures Orders(list, Demand(values, existing, up))
  {
    hide HashSetOf, CleanQuery, CleanFamily, Demand, FamilyHash, Elems, Expand;
    var fs := Demand(values, existing, up);
    forall f | f in fs ensures CleanFamily(f) {
      DemandMembers(values, existing, up, f);
      var q :| q in values && f in Expand(q);
      CleanMember(q, f);
    }
    CleanHashSet(list, fs);
    DistinctKeys(list, fs);
    OrdersNoDup(list, fs);
  }

  lemma DistinctKeys(list: seq<Family>, fs: set<Family>)
    requires HashSetOf(FamilyHash, list, fs)
    ensures NoDup(list)
  {
    hide FamilyHash, Elems, Hashes;
  }

  lemma CleanHashSet(list: seq<Family>, fs: set<Family>)
    requires HashSetOf(FamilyHash, list, fs) && forall f | f in fs :: CleanFamily(f)
    ensures Elems(list) == fs
  {
    hide HashSetOf, CleanFamily, FamilyHash, Elems;
    forall f, g | f in fs && g in fs && FamilyHash(f) == FamilyHash(g) ensures f == g {
      FamilyHashIsFaithful(f, g);
    }
    FaithfulHashSet(FamilyHash, list, fs);
  }

  lemma InElems<T>(s: seq<T>, x: T)
    ensures x in s <==> x in Elems(s)
  {
  }

  /** The reduction of clean families from the queries leaves clean families. */
  lemma ReducedIsClean(l: seq<Family>, t: string)
    requires FromExpansion(l, t) && forall k :: 0 <= k < |l| ==> CleanFamily(l[k])
    ensures forall f | f in Run(l) :: CleanFamily(f)
  {
    RunKeepsColumns(l);
    UnionIsClean(l);
    RunKeepsTable(l, t);
    hide Run, CleanFamily, Union, AllColumns;
    if l == [] {
      EmptyRunIsEmpty();
    } else {
      TableIsClean(l[0]);
      forall k | 0 <= k < |Run(l)| ensures CleanFamily(Run(l)[k]) {
        InUnion(Run(l), k);
        CleanColumns(Run(l)[k]);
      }
    }
  }

  lemma EmptyRunIsEmpty()
    ensures Run([]) == []
  {
  }

  lemma TableIsClean(f: Family)
    requires CleanFamily(f)
    ensures CleanTable(f.table)
  {
  }

  lemma {:induction false} UnionIsClean(l: seq<Family>)
    requires forall k :: 0 <= k < |l| ==> CleanFamily(l[k])
    ensures forall x | x in Union(l) :: Clean(x)
  {
    if l != [] {
      UnionIsClean(l[1..]);
      assert CleanFamily(l[0]);
    }
  }

  lemma CleanColumns(f: Family)
    requires CleanTable(f.table) && forall x | x in AllColumns(f) :: Clean(x)
    ensures CleanFamily(f)
  {
    forall k | 0 <= k < |f.fixed| ensures Clean(f.fixed[k]) {
      assert f.fixed[k] in AllColumns(f);
    }
    if f.last == "" {
      assert CleanTable("");
    } else {
      assert f.last in AllColumns(f);
    }
  }

  lemma TableInputIsClean(
      values: seq<Query>, existing: seq<Index>, up: string -> string, list: seq<Family>, t: string)
    requires AllClean(values) && forall f | f in list :: f in Demand(values, existing, up)
    ensures FromExpansion(TableInput(list, t), t)
    ensures forall k :: 0 <= k < |TableInput(list, t)| ==> CleanFamily(TableInput(list, t)[k])
  {
    hide Demand, CoveredBySome, TableInput, CleanQuery, CleanFamily;
    var l := TableInput(list, t);
    forall k | 0 <= k < |l| ensures l[k].table == t && l[k].fixed == [] && CleanFamily(l[k]) {
      TableInputMembers(list, t, l[k]);
      DemandMembers(values, existing, up, l[k]);
      var q :| q in values && l[k] in Expand(q);
      CleanMember(q, l[k]);
    }
  }

  lemma ReducedIsExact(
      values: seq<Query>, existing: seq<Index>, up: string -> string, list: seq<Family>,
      left: seq<Family>, tables: set<string>)
    requires AllClean(values) && forall f | f in list :: f in Demand(values, existing, up)
    requires HashSetOf(FamilyHash, left, Reduced(list, tables))
    ensures Orders(left, Reduced(list, tables))
  {
    hide HashSetOf, FamilyHash, Elems, Demand, TableInput, Run, CleanFamily, CleanQuery;
    forall f | f in Reduced(list, tables) ensures CleanFamily(f) {
      var t :| t in tables && f in Run(TableInput(list, t));
      TableInputIsClean(values, existing, up, list, t);
      ReducedIsClean(TableInput(list, t), t);
    }
    CleanHashSet(left, Reduced(list, tables));
    DistinctKeys(left, Reduced(list, tables));
    OrdersNoDup(left, Reduced(list, tables));
  }

  /** Tables without families add nothing. */
  lemma ReducedIsLeft(list: seq<Family>, tables: set<string>)
    requires forall f | f in list :: f.table in tables
    ensures Reduced(list, tables) == Left(list)
  {
    hide Run, TableInput;
    forall t, f | f in Run(TableInput(list, t)) ensures t in TablesOf(list) {
      if t !in TablesOf(list) {
        forall g ensures g !in TableInput(list, t) {
          TableInputMembers(list, t, g);
        }
        NoFamilies(TableInput(list, t));
        EmptyRunIsEmpty();
      }
    }
  }

  lemma NoFamilies(l: seq<Family>)
    ensures l == [] || exists f :: f in l
  {
    if l != [] {
      assert l[0] in l;
    }
  }

  lemma CreatedForReduced(
      values: seq<Query>, existing: seq<Index>, up: string -> string, list: seq<Family>, fs: set<Family>,
      left: seq<Family>, tables: set<string>, created: seq<Index>)
    requires KeepsEmpty(up) && HashSetOf(FamilyHash, list, fs) && fs <= Demand(values, existing, up)
    requires AllClean(values) ==> fs == Demand(values, existing, up)
    requires HashSetOf(FamilyHash, left, Reduced(list, tables))
    requires forall f | f in list :: f.table in tables
    requires ProjectsUncovered(created, left, existing, up)
    ensures forall f | f in list :: f in Demand(values, existing, up)
    ensures forall i | i in created :: MadeFor(i, list, existing, up)
    ensures AllClean(values) ==>
      Orders(list, Demand(values, existing, up)) && Outcome(created, list, existing, up)
  {
    hide Demand, Run, CoveredBySome, MadeFor, FamilyHash, CleanQuery, Reduced, ProjectsUncovered, Left;
    assert Elems(list) <= fs && Elems(left) <= Reduced(list, tables);
    ReducedIsLeft(list, tables);
    MadeForMembers(created, left, Left(list), list, existing, up);
    hide HashSetOf;
    assert forall f | f in list :: f in Elems(list);
    if AllClean(values) {
      CleanDemand(values, existing, up, list);
      ReducedIsExact(values, existing, up, list, left, tables);
    }
  }

  // ----- iteration orders do not matter -----

  lemma {:induction false} OfTableCounts(l: seq<Family>, t: string, f: Family)
    ensures multiset(OfTable(l, t))[f] == if f.table == t then multiset(l)[f] else 0
  {
    if l != [] {
      var m := |l| - 1;
      OfTableCounts(l[..m], t, f);
      assert l == l[..m] + [l[m]];
    }
  }

  /** Two runs on the same queries may list the same families in different orders, because Go ranges
      over maps in any order. With clean names every table is still reduced to the same families, in
      the same order. */
  lemma ReductionIgnoresIteration(list: seq<Family>, other: seq<Family>, fs: set<Family>, t: string)
    requires Orders(list, fs) && Orders(other, fs) && forall f | f in fs :: CleanFamily(f)
    ensures Run(TableInput(list, t)) == Run(TableInput(other, t))
  {
    OrdersIffBag(list, fs);
    OrdersIffBag(other, fs);
    hide CleanFamily, FamilyHash, ByHash, Run, OfTable;
    var l, k := OfTable(list, t), OfTable(other, t);
    forall f ensures multiset(l)[f] == multiset(k)[f] {
      OfTableCounts(list, t, f);
      OfTableCounts(other, t, f);
    }
    assert multiset(l) == multiset(k);
    forall f | f in l ensures CleanFamily(f) {
      OfTableMembers(list, t, f);
      InElems(list, f);
    }
    ReductionIsDeterministic(l, k);
  }

  /** `indexesToCreateFromQueryFamilies`. list holds the families that were reduced. No index is made
      except for a family that the reduction leaves and that no index covers. With clean names the
      result is one of the outcomes that `PlanVerdictIff` and `QueryPlanVerdictIff` judge; so, when the
      queries are safe, every member of every expansion is served, by an existing index or by a created
      one, and when they are leadable every query is led. */
  method IndexesToCreate(
      queries: seq<QueryRef>, ghost values: seq<Query>, existing: seq<Index>, up: string -> string)
    returns (created: seq<Index>, ghost list: seq<Family>)
    requires KeepsEmpty(up) && ShowsQueries(queries, values)
    ensures forall f | f in list :: f in Demand(values, existing, up)
    ensures forall i | i in created :: MadeFor(i, list, existing, up)
    ensures AllClean(values) ==>
      Orders(list, Demand(values, existing, up)) && Outcome(created, list, existing, up)
    ensures SafeQueries(values, existing, up) ==> EveryQueryIsServed(values, existing + created, up)
    ensures LeadableQueries(values, existing, up) ==> EveryQueryIsLed(values, existing + created, up)
  {
    hide HashSetOf, Hashes, FamilyHash, Values, Demand, Reduced, Run, TableInput, AllClean, Outcome, MadeFor,
         CoveredBySome, Projects, EveryQueryIsServed, ProjectsUncovered, SafeQueries, Orders, LeadableQueries,
         EveryQueryIsLed;
    ghost var hash := FamilyHash;
    var needed, fs := FamiliesToCreate(queries, values, existing, up, hash);
    list := Values(needed.items);
    var reduced, tables := ExtractMinimalByTable(needed.items, hash);
    ghost var left := Values(reduced.items);
    created := ProjectFamilies(reduced.items, existing, up);
    CreatedForReduced(values, existing, up, list, fs, left, tables, created);
    SafeOutcomeServes(values, existing, up, list, created);
    LeadableOutcomeLeads(values, existing, up, list, created);
  }

  lemma SafeOutcomeServes(
      values: seq<Query>, existing: seq<Index>, up: string -> string, list: seq<Family>,
      created: seq<Index>)
    requires KeepsEmpty(up)
    requires AllClean(values) ==>
      Orders(list, Demand(values, existing, up)) && Outcome(created, list, existing, up)
    ensures SafeQueries(values, existing, up) ==> EveryQueryIsServed(values, existing + created, up)
  {
    hide Orders, Demand, Outcome, EveryQueryIsServed, PlanIsRight, Left, CleanQuery, Apart;
    if SafeQueries(values, existing, up) {
      var some := SomeOrder(Demand(values, existing, up));
      assert Plain(values, some, up);
      PlanVerdictIff(values, list, existing, up);
    }
  }

  /** The queries are safe exactly when every outcome, for every listing, serves every query. */
  lemma SafeQueriesIff(values: seq<Query>, existing: seq<Index>, up: string -> string)
    requires KeepsEmpty(up)
    requires forall list | Orders(list, Demand(values, existing, up)) :: Plain(values, list, up)
    ensures SafeQueries(values, existing, up) <==>
      forall list, created |
        Orders(list, Demand(values, existing, up)) && Outcome(created, list, existing, up) ::
        EveryQueryIsServed(values, existing + created, up)
  {
    hide Orders, Demand, Outcome, EveryQueryIsServed, PlanIsRight, Plain;
    forall list | Orders(list, Demand(values, existing, up))
      ensures PlanIsRight(list, existing, up) <==>
        forall created | Outcome(created, list, existing, up) ::
          EveryQueryIsServed(values, existing + created, up)
    {
      PlanVerdictIff(values, list, existing, up);
    }
  }
}
