/** Two plans with a merge: one that the code gets right and one that it does not. Names are arbitrary,
    as long as they are clean and stay apart when folded. */
module PlanExamples {
  import opened Wrappers
  import opened GoSets
  import opened IndexModels
  import opened Hashing
  import opened QueryExpansion
  import opened FamilyMerging
  import opened FamilyCuts
  import opened MergeRun
  import opened HashOrder
  import opened IndexPlanning
  import opened RunVerdict
  import opened PlanVerdict
  import opened QueryVerdict
  import opened IndexCreation

  /** The names of an example. */
  predicate Named(t: string, a: string, b: string) {
    CleanTable(t) && Clean(a) && Clean(b) && a != b
  }

  /** a = 1 */
  function OneEquality(t: string, a: string): Query {
    Query(t, Some({a}), Some({}), Some({}))
  }

  /** a = 1 and b = 2 */
  function TwoEqualities(t: string, a: string, b: string): Query {
    Query(t, Some({a, b}), Some({}), Some({}))
  }

  /** a = 1 and b > 2 */
  function WithInequality(t: string, a: string, b: string): Query {
    Query(t, Some({a}), Some({b}), Some({}))
  }

  // ----- listings of two families -----

  lemma ListingsOfTwo(list: seq<Family>, f: Family, g: Family)
    requires f != g && multiset(list) == multiset{f, g}
    ensures list == [f, g] || list == [g, f]
  {
    assert |list| == |multiset(list)| == 2;
    assert list == [list[0], list[1]];
    assert multiset(list) == multiset{list[0], list[1]};
    assert f in multiset(list) && g in multiset(list);
  }

  lemma OrdersOfTwo(list: seq<Family>, f: Family, g: Family)
    requires f != g && Orders(list, {f, g})
    ensures list == [f, g] || list == [g, f]
  {
    OrdersIffBag(list, {f, g});
    assert multiset({f, g}) == multiset{f, g};
    ListingsOfTwo(list, f, g);
  }

  lemma OfTableOfTwo(f: Family, g: Family, t: string)
    requires f.table == g.table == t
    ensures OfTable([f, g], t) == [f, g]
  {
    OfNoTable();
    OfTableOneMore([], f);
    OfTableOneMore([f], g);
    assert [] + [f] == [f] && [f] + [g] == [f, g];
  }

  lemma TableInputOfTwo(list: seq<Family>, f: Family, g: Family)
    requires f != g && f.table == g.table && Orders(list, {f, g})
    ensures TableInput(list, f.table) == [f, g] || TableInput(list, f.table) == [g, f]
  {
    hide ByHash, FamilyHash, OfTable;
    OrdersOfTwo(list, f, g);
    OfTableOfTwo(f, g, f.table);
    OfTableOfTwo(g, f, f.table);
    ByHashSorts(list, FamilyHash);
    ListingsOfTwo(TableInput(list, f.table), f, g);
  }

  lemma LeftOfOneTable(list: seq<Family>, t: string, merged: Family)
    requires TablesOf(list) == {t} && Run(TableInput(list, t)) == [merged]
    ensures Left(list) == {merged}
  {
    hide Run, TableInput, TablesOf;
    assert forall x :: x in Left(list) <==> x in [merged];
  }

  /** Two families of one table that are merged in either order leave only the merged one. */
  lemma LeftOfTwo(list: seq<Family>, f: Family, g: Family, merged: Family)
    requires f != g && f.table == g.table && Orders(list, {f, g})
    requires Run([f, g]) == [merged] && Run([g, f]) == [merged]
    ensures Left(list) == {merged}
  {
    hide Run, TableInput, Left;
    TableInputOfTwo(list, f, g);
    OrdersOfTwo(list, f, g);
    assert TablesOf(list) == {f.table};
    LeftOfOneTable(list, f.table, merged);
  }

  lemma DemandOfTwo(p: Query, q: Query, f: Family, g: Family, up: string -> string)
    requires Expand(p) == {f} && Expand(q) == {g}
    ensures Demand([p, q], [], up) == {f, g}
  {
    hide Expand;
    forall x ensures x in Demand([p, q], [], up) <==> x in {f, g} {
      DemandMembers([p, q], [], up, x);
      assert p in [p, q] && q in [p, q];
      assert !CoveredBySome([], x, up);
    }
  }

  // ----- the plans -----

  lemma ExampleExpansions(t: string, a: string, b: string)
    requires Named(t, a, b)
    ensures Expand(OneEquality(t, a)) == {Flexible(t, {a})}
    ensures Expand(TwoEqualities(t, a, b)) == {Flexible(t, {a, b})}
    ensures Expand(WithInequality(t, a, b)) == {Ending(t, a, b)}
    ensures CleanQuery(OneEquality(t, a)) && CleanQuery(TwoEqualities(t, a, b))
    ensures CleanQuery(WithInequality(t, a, b))
  {
    assert {b} - {b} == {};
    assert Member(Flexible(t, {a}), {b}, b) == Ending(t, a, b);
    assert Members(Flexible(t, {a}), {b}, {b}) == {Ending(t, a, b)};
  }

  lemma ExampleColumns(t: string, a: string, b: string)
    ensures AllColumns(Flexible(t, {a})) == {a} && AllColumns(Flexible(t, {a, b})) == {a, b}
    ensures b != "" ==> AllColumns(Ending(t, a, b)) == {a, b}
  {
    assert Elems<string>([]) == {};
  }

  lemma SameTable(t: string, a: string, b: string)
    ensures Flexible(t, {a}).table == Flexible(t, {a, b}).table == Ending(t, a, b).table == t
  {
  }

  lemma PlainOfTwo(
      p: Query, q: Query, list: seq<Family>, f: Family, g: Family, merged: Family,
      names: set<string>, up: string -> string)
    requires CleanQuery(p) && CleanQuery(q) && Orders(list, {f, g}) && Left(list) == {merged}
    requires AllColumns(f) + AllColumns(g) + AllColumns(merged) <= names && InjectiveOn(up, names)
    ensures Plain([p, q], list, up)
  {
    hide Left, CleanQuery, AllColumns;
    forall x | x in list ensures Apart(Left(list), x, up) {
      InElems(list, x);
    }
  }

  /** From a = 1 and from a = 1, b = 2 one index is made, in some outcomes on (b, a), and no index leads
      the first query. */
  lemma PlanLosesQuery(t: string, a: string, b: string, up: string -> string)
    returns (list: seq<Family>, created: seq<Index>)
    requires Named(t, a, b) && KeepsEmpty(up) && InjectiveOn(up, {a, b})
    ensures var values := [OneEquality(t, a), TwoEqualities(t, a, b)];
      && Orders(list, Demand(values, [], up)) && Outcome(created, list, [], up)
      && !EveryQueryIsLed(values, [] + created, up)
    ensures forall i | i in created :: !LeadsQuery(i, OneEquality(t, a), up)
  {
    var p, q, A, AB := OneEquality(t, a), TwoEqualities(t, a, b), Flexible(t, {a}), Flexible(t, {a, b});
    assert b in AB.flex && b !in A.flex;
    assert Usable(p);
    hide *;
    ExampleExpansions(t, a, b);
    ExampleColumns(t, a, b);
    ReductionLosesFamily(t, a, b);
    SameTable(t, a, b);
    list, created := LosingPlan(p, q, A, AB, {a, b}, up);
    UnledQuery(p, q, created, up);
  }

  lemma UnledQuery(p: Query, q: Query, created: seq<Index>, up: string -> string)
    requires Usable(p) && !LedBySome([] + created, p, up)
    ensures !EveryQueryIsLed([p, q], [] + created, up)
    ensures forall i | i in created :: !LeadsQuery(i, p, up)
  {
    hide LeadsQuery;
    assert p in [p, q] && [] + created == created;
  }

  /** Two families of which only the second is left, though it does not replace the first. */
  lemma LosingPlan(p: Query, q: Query, f: Family, g: Family, names: set<string>, up: string -> string)
    returns (list: seq<Family>, created: seq<Index>)
    requires KeepsEmpty(up) && InjectiveOn(up, names) && AllColumns(f) + AllColumns(g) <= names
    requires CleanQuery(p) && CleanQuery(q) && Usable(p) && Expand(p) == {f} && Expand(q) == {g}
    requires f != g && f.table == g.table && Run([f, g]) == [g] && Run([g, f]) == [g]
    requires !Replaces(g, f)
    ensures Orders(list, Demand([p, q], [], up)) && Outcome(created, list, [], up)
    ensures !LedBySome([] + created, p, up)
  {
    hide *;
    DemandOfTwo(p, q, f, g, up);
    list := SomeOrder({f, g});
    LeftOfTwo(list, f, g, g);
    PlainOfTwo(p, q, list, f, g, g, names, up);
    NotProvided(list, f, g, up);
    created := LosingOutcome([p, q], list, f, up);
    UnservedIsUnled(p, f, [] + created, up);
  }

  lemma LosingOutcome(values: seq<Query>, list: seq<Family>, f: Family, up: string -> string)
    returns (created: seq<Index>)
    requires KeepsEmpty(up) && Plain(values, list, up) && f in list && !Provided(f, Left(list), [], up)
    ensures Outcome(created, list, [], up) && !ServedBySome([] + created, f, up)
  {
    hide Left, Provided, Outcome, ServedBySome, Apart, CleanQuery;
    created := BadOutcome(f, list, [], up);
  }

  /** A query with one member is led only by an index that serves it. */
  lemma LedIsServed(p: Query, f: Family, i: Index, up: string -> string)
    requires KeepsEmpty(up) && CleanQuery(p) && Usable(p) && Expand(p) == {f} && LeadsQuery(i, p, up)
    ensures ServesFolded(i, f, up)
  {
    hide LeadsQuery, ServesFolded, Expand;
    CleanNames(p);
    var g := LeadingServes(i, p, up);
    assert g in {f};
  }

  lemma UnservedIsUnled(p: Query, f: Family, indexes: seq<Index>, up: string -> string)
    requires KeepsEmpty(up) && CleanQuery(p) && Usable(p) && Expand(p) == {f}
    requires !ServedBySome(indexes, f, up)
    ensures !LedBySome(indexes, p, up)
  {
    hide LeadsQuery, ServesFolded, Expand;
    if k :| 0 <= k < |indexes| && LeadsQuery(indexes[k], p, up) {
      LedIsServed(p, f, indexes[k], up);
    }
  }

  lemma NotProvided(list: seq<Family>, f: Family, g: Family, up: string -> string)
    requires Orders(list, {f, g}) && Left(list) == {g} && !Replaces(g, f)
    ensures f in list && !Provided(f, Left(list), [], up)
  {
    hide Left, Replaces;
    InElems(list, f);
  }

  lemma InOrders(list: seq<Family>, f: Family, fs: set<Family>)
    requires Orders(list, fs)
    ensures f in list <==> f in fs
  {
    InElems(list, f);
  }

  /** From a = 1 and from a = 1, b > 2 one index is made, and whatever the outcome it serves both. */
  lemma PlanKeepsBoth(t: string, a: string, b: string, up: string -> string)
    requires Named(t, a, b) && KeepsEmpty(up) && InjectiveOn(up, {a, b})
    ensures SafeQueries([OneEquality(t, a), WithInequality(t, a, b)], [], up)
  {
    var p, q, A, Y := OneEquality(t, a), WithInequality(t, a, b), Flexible(t, {a}), Ending(t, a, b);
    assert A != Y && b != "";
    hide *;
    ExampleExpansions(t, a, b);
    ExampleColumns(t, a, b);
    ReductionKeepsBoth(t, a, b);
    EndingReplaces(t, a, b);
    SameTable(t, a, b);
    KeepingPlan(p, q, A, Y, {a, b}, up);
  }

  /** Two families of which only the second is left and replaces both. */
  lemma KeepingPlan(p: Query, q: Query, f: Family, g: Family, names: set<string>, up: string -> string)
    requires KeepsEmpty(up) && InjectiveOn(up, names) && AllColumns(f) + AllColumns(g) <= names
    requires CleanQuery(p) && CleanQuery(q) && Expand(p) == {f} && Expand(q) == {g}
    requires f != g && f.table == g.table && Run([f, g]) == [g] && Run([g, f]) == [g]
    requires Replaces(g, f) && Replaces(g, g)
    ensures SafeQueries([p, q], [], up)
  {
    hide Plain, PlanIsRight, Demand, Orders, Left, AllColumns, Run, Replaces, Expand, CleanQuery;
    DemandOfTwo(p, q, f, g, up);
    forall list | Orders(list, Demand([p, q], [], up)) ensures Plain([p, q], list, up)
      && PlanIsRight(list, [], up)
    {
      LeftOfTwo(list, f, g, g);
      PlainOfTwo(p, q, list, f, g, g, names, up);
      BothProvided(list, f, g, up);
    }
  }

  lemma BothProvided(list: seq<Family>, f: Family, g: Family, up: string -> string)
    requires Orders(list, {f, g}) && Left(list) == {g} && f.table == g.table
    requires Replaces(g, f) && Replaces(g, g)
    ensures PlanIsRight(list, [], up)
  {
    hide Left, Replaces, Orders, ServedBySome;
    forall x | x in list ensures Provided(x, Left(list), [], up) {
      InOrders(list, x, {f, g});
      assert g in Left(list);
    }
  }


  // ----- a member is lost, its query is not -----

  /** b = 1 and d = 2 and a > 3 and e > 4 */
  function TwoAndTwo(t: string, a: string, b: string, d: string, e: string): Query {
    Query(t, Some({b, d}), Some({a, e}), Some({}))
  }

  /** The member of `TwoAndTwo` that ends in x, the other inequality column being y. */
  function MemberEnding(t: string, b: string, d: string, x: string, y: string): Family {
    Family(t, [], {b, d}, x, {y})
  }

  lemma TwoAndTwoExpands(t: string, a: string, b: string, d: string, e: string)
    requires a != e
    ensures Expand(TwoAndTwo(t, a, b, d, e)) == {MemberEnding(t, b, d, a, e), MemberEnding(t, b, d, e, a)}
  {
    var base, ineq := Family(t, [], {b, d}, "", {}), {a, e};
    assert ineq - {a} == {e} && ineq - {e} == {a};
    assert Member(base, ineq, a) == MemberEnding(t, b, d, a, e);
    assert Member(base, ineq, e) == MemberEnding(t, b, d, e, a);
    assert Members(base, ineq, ineq) == {Member(base, ineq, a), Member(base, ineq, e)};
  }

  /** What merging the member that ends in a with the family of a = 1, b > 2 gives: a is fixed first and
      asked for last once more. */
  function Entangled(t: string, a: string, b: string, d: string, e: string): Family {
    Family(t, [a, b], {d}, a, {e})
  }

  predicate AllDifferent(a: string, b: string, d: string, e: string) {
    a != b && a != d && a != e && b != d && b != e && d != e && a != "" && b != "" && e != ""
  }

  lemma EntangledMerge(t: string, a: string, b: string, d: string, e: string)
    requires AllDifferent(a, b, d, e)
    ensures Refine(Ending(t, a, b), MemberEnding(t, b, d, a, e)) == Some(Entangled(t, a, b, d, e))
  {
    var A, B := MemberEnding(t, b, d, a, e), Ending(t, a, b);
    NothingToRemove(B, A);
    EntangledPins(t, a, b);
    EntangledSizes(t, a, b, d, e);
    PairWithout(a, b, d);
    EntangledIncluded(t, a, b, d, e);
    hide Elems, Pinned, Family.AllIndexed, MergeIncluded, Refine;
    assert RefineNoFixed(A, B) == RefineLonger(A, B);
  }

  lemma EntangledPins(t: string, a: string, b: string)
    requires b != ""
    ensures Pinned(Ending(t, a, b)) == [a, b] && Elems([a, b]) == {a, b}
  {
    ListingOfOne(a);
    assert [a, b][0] == a && [a, b][1] == b;
  }

  lemma EntangledSizes(t: string, a: string, b: string, d: string, e: string)
    requires AllDifferent(a, b, d, e)
    ensures var A, B := MemberEnding(t, b, d, a, e), Ending(t, a, b);
      A.Size() == 3 && B.Size() == 2 && B.AllIndexed() == {a, b} && A.AllIndexed() == {a, b, d}
  {
    assert |{b, d}| == 2 && |{a}| == 1 && Elems<string>([]) == {};
  }

  lemma PairWithout(a: string, b: string, d: string)
    requires d != a && d != b
    ensures {b, d} - {a, b} == {d}
  {
  }

  lemma EntangledIncluded(t: string, a: string, b: string, d: string, e: string)
    requires AllDifferent(a, b, d, e)
    ensures MergeIncluded(Family(t, [a, b], {d}, a, {}), MemberEnding(t, b, d, a, e))
      == Entangled(t, a, b, d, e)
  {
    var f := Family(t, [a, b], {d}, a, {});
    assert e !in f.AllIndexed();
    assert {e} - f.AllIndexed() == {e};
  }

  lemma EntangledRefuses(t: string, a: string, b: string, d: string, e: string)
    requires AllDifferent(a, b, d, e)
    ensures Refine(Entangled(t, a, b, d, e), MemberEnding(t, b, d, e, a)) == None
  {
    var M, F := Entangled(t, a, b, d, e), MemberEnding(t, b, d, e, a);
    NothingToRemove(M, F);
    assert |{b, d}| == 2 && |{d}| == 1;
    assert e in F.AllIndexed() && e !in M.AllIndexed();
  }

  lemma EntangledRun(t: string, a: string, b: string, d: string, e: string)
    requires AllDifferent(a, b, d, e)
    ensures Run([Ending(t, a, b), MemberEnding(t, b, d, a, e), MemberEnding(t, b, d, e, a)])
      == [Entangled(t, a, b, d, e), MemberEnding(t, b, d, e, a)]
  {
    hide *;
    var G, F1, F2 := Ending(t, a, b), MemberEnding(t, b, d, a, e), MemberEnding(t, b, d, e, a);
    var l := [G, F1, F2];
    EntangledMerge(t, a, b, d, e);
    EntangledRefuses(t, a, b, d, e);
    RunOfTwo(G, F1, Entangled(t, a, b, d, e));
    assert l[..2] == [G, F1];
    RunEndsWith(l);
    NoMatchAppends(Entangled(t, a, b, d, e), F2);
  }

  /** The reduction loses a member, yet each query is guided by a family that is left. The families are
      in the order of their hashes when a sorts before b and e. */
  lemma MemberIsLostQueryIsLed(t: string, a: string, b: string, d: string, e: string)
    requires AllDifferent(a, b, d, e)
    ensures var p, q := TwoAndTwo(t, a, b, d, e), WithInequality(t, a, b);
      var lost, kept := MemberEnding(t, b, d, a, e), MemberEnding(t, b, d, e, a);
      var l := [Ending(t, a, b), lost, kept];
      && Expand(p) == {lost, kept} && Expand(q) == {Ending(t, a, b)}
      && Run(l) == [Entangled(t, a, b, d, e), kept]
      && !RunIsRight(l) && !ReplacedBySome(Run(l), lost)
      && Guides(kept, p) && Guides(Entangled(t, a, b, d, e), q)
  {
    hide *;
    var lost, kept := MemberEnding(t, b, d, a, e), MemberEnding(t, b, d, e, a);
    Different(a, b, d, e);
    TwoAndTwoExpands(t, a, b, d, e);
    EndingExpands(t, a, b);
    EntangledRun(t, a, b, d, e);
    LostMember(t, a, b, d, e);
    LostFromTwo([Ending(t, a, b), lost, kept], Entangled(t, a, b, d, e), kept, 1);
    KeptGuides(t, a, b, d, e);
    EntangledGuides(t, a, b, d, e);
  }

  lemma Different(a: string, b: string, d: string, e: string)
    requires AllDifferent(a, b, d, e)
    ensures a != e && a != b
  {
  }

  lemma EndingExpands(t: string, a: string, b: string)
    ensures Expand(WithInequality(t, a, b)) == {Ending(t, a, b)}
  {
    assert {b} - {b} == {};
    assert Member(Flexible(t, {a}), {b}, b) == Ending(t, a, b);
    assert Members(Flexible(t, {a}), {b}, {b}) == {Ending(t, a, b)};
  }

  lemma LostFromTwo(l: seq<Family>, m: Family, n: Family, k: nat)
    requires Run(l) == [m, n] && k < |l| && !Replaces(m, l[k]) && !Replaces(n, l[k])
    ensures !RunIsRight(l) && !ReplacedBySome(Run(l), l[k])
  {
    hide Run, Replaces;
  }

  /** The lost member ends in a, after b and d; the others never have exactly these before a. */
  lemma LostMember(t: string, a: string, b: string, d: string, e: string)
    requires AllDifferent(a, b, d, e)
    ensures !Replaces(Entangled(t, a, b, d, e), MemberEnding(t, b, d, a, e))
    ensures !Replaces(MemberEnding(t, b, d, e, a), MemberEnding(t, b, d, a, e))
  {
    var M, F1, F2 := Entangled(t, a, b, d, e), MemberEnding(t, b, d, a, e), MemberEnding(t, b, d, e, a);
    OpenCuts(F1);
    OpenCuts(F2);
    assert multiset({b, d})[a] == 0 && |multiset({b, d})| == 2;
    var m, n := multiset({b, d}), multiset({b, d}) + multiset({a});
    assert n[a] == 1 && (multiset({b, d}) + multiset({e}))[a] == 0;
    assert forall c | c in Cuts(F2) :: c[a] == 0;
    if m in Cuts(M) {
      CutCases(M, m);
      EntangledCuts(M, m, a, b);
    }
    hide Cuts;
  }

  lemma EntangledCuts(f: Family, m: multiset<string>, a: string, b: string)
    requires f.fixed == [a, b] && |m| == 2
    requires FixedCut(f, m) || m == multiset(f.fixed) + multiset(f.flex)
      || m == multiset(f.fixed) + multiset(f.flex) + multiset(f.LastSet())
    ensures m[a] >= 1
  {
    assert f.fixed[0] == a && a in multiset(f.fixed);
    if FixedCut(f, m) {
      var k :| 0 <= k <= |f.fixed| && m == multiset(f.fixed[..k]);
      BagSize(f.fixed[..k]);
      assert f.fixed[..k] == f.fixed;
    }
  }

  lemma KeptGuides(t: string, a: string, b: string, d: string, e: string)
    requires AllDifferent(a, b, d, e)
    ensures Guides(MemberEnding(t, b, d, e, a), TwoAndTwo(t, a, b, d, e))
  {
    var f, q := MemberEnding(t, b, d, e, a), TwoAndTwo(t, a, b, d, e);
    OpenCuts(f);
    KeptColumns(t, a, b, d, e);
    assert |{b, d}| == 2;
    assert {a, e} != {};
    hide Cuts, AllColumns, Mentioned;
  }

  lemma KeptColumns(t: string, a: string, b: string, d: string, e: string)
    requires AllDifferent(a, b, d, e)
    ensures var f, q := MemberEnding(t, b, d, e, a), TwoAndTwo(t, a, b, d, e);
      Mentioned(q) <= AllColumns(f) && ColumnsAt(f, 2) == {e}
  {
    assert |{b, d}| == 2;
  }

  lemma EntangledGuides(t: string, a: string, b: string, d: string, e: string)
    requires AllDifferent(a, b, d, e)
    ensures Guides(Entangled(t, a, b, d, e), WithInequality(t, a, b))
  {
    var f, q := Entangled(t, a, b, d, e), WithInequality(t, a, b);
    assert f.fixed[..1] == [a];
    assert multiset(f.fixed[..1]) == multiset({a});
    assert multiset(f.fixed[..1]) in Cuts(f);
    assert f.fixed[1] == b;
    assert a in f.fixed && b in f.fixed;
    assert Mentioned(q) == {a, b};
    hide Cuts;
  }
}
