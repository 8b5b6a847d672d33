/** The export of a data model: navigation options move from their tables to a map keyed by source
    table (dto/org_export.go:29-77). The tables are ranged over in any order. */
module NavigationOptions {
  import opened GoSets

  /** `sourceTable` becomes the key, the four other ids the entry. */
  datatype NavigationOption = NavigationOption(sourceTable: string, entry: Entry)

  datatype Entry = Entry(sourceField: string, targetTable: string, filterField: string, orderingField: string)

  /** B is the rest of a table. */
  datatype Table<B> = Table(id: string, options: seq<NavigationOption>, body: B)

  datatype Exported<B> = Exported(id: string, body: B)

  type Tables<B> = map<string, Table<B>>

  type Groups = map<string, seq<Entry>>

  function Append(g: Groups, o: NavigationOption): Groups {
    g[o.sourceTable := (if o.sourceTable in g then g[o.sourceTable] else []) + [o.entry]]
  }

  function Group(os: seq<NavigationOption>): Groups {
    if os == [] then map[] else Append(Group(os[..|os| - 1]), os[|os| - 1])
  }

  /** The options of the tables, as they are met when the tables are ranged over in this order. */
  function Met<B>(tables: Tables<B>, order: seq<string>): seq<NavigationOption> {
    if order == [] then []
    else
      var k := order[|order| - 1];
      Met(tables, order[..|order| - 1]) + (if k in tables then tables[k].options else [])
  }

  lemma MetOneMore<B>(tables: Tables<B>, order: seq<string>, k: string)
    requires k in tables
    ensures Met(tables, order + [k]) == Met(tables, order) + tables[k].options
  {
    assert (order + [k])[..|order|] == order;
  }

  /** Each table of the order, without its options. */
  ghost predicate ExportedInOrder<B, E>(
      tables: Tables<B>, order: seq<string>, exported: seq<Exported<E>>, adapt: B -> E)
  {
    && |exported| == |order|
    && forall n :: 0 <= n < |order| ==>
         && order[n] in tables
         && exported[n] == Exported(tables[order[n]].id, adapt(tables[order[n]].body))
  }

  /** `AdaptImportDataModelDto`, without links and pivots. */
  method AdaptImportDataModel<B, E>(tables: Tables<B>, adapt: B -> E)
    returns (exported: seq<Exported<E>>, groups: Groups)
    ensures exists order ::
      && Orders(order, tables.Keys) && groups == Group(Met(tables, order))
      && ExportedInOrder(tables, order, exported, adapt)
  {
    hide Orders, Met, Group;
    NothingMet(tables);
    exported, groups := [], map[];
    ghost var order := [];
    var left := tables.Keys;
    while left != {}
      invariant left <= tables.Keys && Orders(order, tables.Keys - left)
      invariant groups == Group(Met(tables, order))
      invariant ExportedInOrder(tables, order, exported, adapt)
      decreases |left|
    {
      var k :| k in left;
      var table := tables[k];
      ghost var met := Met(tables, order);
      assert met + table.options[..0] == met;
      for n := 0 to |table.options|
        invariant groups == Group(met + table.options[..n])
      {
        var o := table.options[n];
        GroupOneMore(met + table.options[..n], o);
        assert met + table.options[..n + 1] == met + table.options[..n] + [o];
        groups := groups[o.sourceTable :=
          (if o.sourceTable in groups then groups[o.sourceTable] else []) + [o.entry]];
      }
      assert table.options[..|table.options|] == table.options;
      exported := exported + [Exported(table.id, adapt(table.body))];
      MetOneMore(tables, order, k);
      OrdersOne(k);
      OrdersConcat(order, tables.Keys - left, [k], {k});
      assert tables.Keys - left + {k} == tables.Keys - (left - {k});
      order := order + [k];
      left := left - {k};
    }
    assert tables.Keys - left == tables.Keys;
  }

  lemma NothingMet<B>(tables: Tables<B>)
    ensures Orders([], tables.Keys - tables.Keys) && Group(Met(tables, [])) == map[]
  {
    assert Elems<string>([]) == {};
  }

  lemma GroupOneMore(os: seq<NavigationOption>, o: NavigationOption)
    ensures Group(os + [o]) == Append(Group(os), o)
  {
    assert (os + [o])[..|os|] == os;
  }

  // ----- nothing is lost, nothing added -----

  function Count(g: Groups, o: NavigationOption): nat {
    if o.sourceTable in g then multiset(g[o.sourceTable])[o.entry] else 0
  }

  lemma {:induction false} GroupCounts(os: seq<NavigationOption>, o: NavigationOption)
    ensures Count(Group(os), o) == multiset(os)[o]
    ensures forall s | s in Group(os) :: Group(os)[s] != []
  {
    if os != [] {
      var init, last := os[..|os| - 1], os[|os| - 1];
      GroupCounts(init, o);
      assert os == init + [last];
      AppendCounts(Group(init), last, o);
    }
  }

  lemma AppendCounts(g: Groups, last: NavigationOption, o: NavigationOption)
    ensures Count(Append(g, last), o) == Count(g, o) + if o == last then 1 else 0
  {
  }

  /** The options of all tables, in no order. */
  ghost function AllOptions<B>(tables: Tables<B>): multiset<NavigationOption> {
    var order := SomeListing(tables.Keys);
    multiset(Met(tables, order))
  }

  ghost function SomeListing(s: set<string>): (p: seq<string>)
    ensures Orders(p, s)
  {
    assert exists p :: Orders(p, s) by {
      var p := SomeOrder(s);
    }
    var p :| Orders(p, s);
    p
  }

  /** In whatever order the tables are met, the same options are met. */
  lemma {:induction false} MetInAnyOrder<B>(tables: Tables<B>, p: seq<string>, q: seq<string>, s: set<string>)
    requires Orders(p, s) && Orders(q, s) && s <= tables.Keys
    ensures multiset(Met(tables, p)) == multiset(Met(tables, q))
    decreases |p|
  {
    if p != [] {
      var k, init := p[|p| - 1], p[..|p| - 1];
      assert k in Elems(q);
      var n :| 0 <= n < |q| && q[n] == k;
      var before, after := q[..n], q[n + 1..];
      assert p == init + [k] && q == before + [k] + after;
      RemoveOne(init, k, s);
      DropFromTheMiddle(before, k, after, s);
      MetInAnyOrder(tables, init, before + after, s - {k});
      assert forall x | x in after :: x in Elems(q);
      MetOneMore(tables, init, k);
      MetFromTheMiddle(tables, before, k, after);
    } else {
      assert q == [];
    }
  }

  lemma RemoveOne(init: seq<string>, k: string, s: set<string>)
    requires Orders(init + [k], s)
    ensures Orders(init, s - {k})
  {
    assert init + [k] == init + [k] + [] && init == init + [];
    DropFromTheMiddle(init, k, [], s);
  }

  lemma DropFromTheMiddle(before: seq<string>, k: string, after: seq<string>, s: set<string>)
    requires Orders(before + [k] + after, s)
    ensures Orders(before + after, s - {k})
  {
    ElemsConcat(before + [k], after);
    ElemsConcat(before, [k]);
    ElemsConcat(before, after);
    OrdersOne(k);
    var rest := before + after;
    hide Elems;
    assert Elems(rest) + {k} == s;
    ElemsSize(rest);
    UnionSize(Elems(rest), {k});
  }

  lemma {:induction false} MetFromTheMiddle<B>(
      tables: Tables<B>, before: seq<string>, k: string, after: seq<string>)
    requires k in tables && Elems(after) <= tables.Keys
    ensures multiset(Met(tables, before + [k] + after))
      == multiset(Met(tables, before + after)) + multiset(tables[k].options)
    decreases |after|
  {
    hide Met, Elems;
    if after == [] {
      assert before + [k] + after == before + [k] && before + after == before;
      MetOneMore(tables, before, k);
    } else {
      var init, last := after[..|after| - 1], after[|after| - 1];
      assert after == init + [last];
      assert before + [k] + after == before + [k] + init + [last];
      assert before + after == before + init + [last];
      ElemsConcat(init, [last]);
      OrdersOne(last);
      MetFromTheMiddle(tables, before, k, init);
      MetOneMore(tables, before + [k] + init, last);
      MetOneMore(tables, before + init, last);
    }
  }

  /** The export holds every option of every table as often as the tables do, under its own source
      table; and no empty group. */
  lemma OptionsAreConserved<B>(tables: Tables<B>, order: seq<string>, o: NavigationOption)
    requires Orders(order, tables.Keys)
    ensures Count(Group(Met(tables, order)), o) == AllOptions(tables)[o]
    ensures forall s | s in Group(Met(tables, order)) :: Group(Met(tables, order))[s] != []
  {
    GroupCounts(Met(tables, order), o);
    MetInAnyOrder(tables, order, SomeListing(tables.Keys), tables.Keys);
  }

  // ----- the order within a group -----

  function EntriesFrom(os: seq<NavigationOption>, s: string): seq<Entry> {
    if os == [] then []
    else
      var o := os[|os| - 1];
      EntriesFrom(os[..|os| - 1], s) + (if o.sourceTable == s then [o.entry] else [])
  }

  lemma {:induction false} EntriesFromConcat(a: seq<NavigationOption>, b: seq<NavigationOption>, s: string)
    ensures EntriesFrom(a + b, s) == EntriesFrom(a, s) + EntriesFrom(b, s)
  {
    if b == [] {
      assert a + b == a;
    } else {
      var m := |b| - 1;
      EntriesFromConcat(a, b[..m], s);
      assert (a + b)[..|a| + m] == a + b[..m];
    }
  }

  /** A group lists the options with its key, in the order in which they are met. */
  lemma {:induction false} GroupLists(os: seq<NavigationOption>, s: string)
    ensures s in Group(os) <==> EntriesFrom(os, s) != []
    ensures s in Group(os) ==> Group(os)[s] == EntriesFrom(os, s)
  {
    if os != [] {
      GroupLists(os[..|os| - 1], s);
    }
  }

  /** No other table than k has an option with source s. */
  ghost predicate OnlyFrom<B>(tables: Tables<B>, s: string, k: string) {
    k in tables && forall l | l in tables && l != k :: EntriesFrom(tables[l].options, s) == []
  }

  /** When the options with source s all come from one table, their group is that table's list of
      them, in that order, whatever the order of the tables. */
  lemma GroupOfOneTable<B>(tables: Tables<B>, order: seq<string>, s: string, k: string)
    requires Orders(order, tables.Keys) && OnlyFrom(tables, s, k)
    ensures var g, own := Group(Met(tables, order)), EntriesFrom(tables[k].options, s);
      && (s in g <==> own != [])
      && (s in g ==> g[s] == own)
  {
    OrdersNoDup(order, tables.Keys);
    MetFromOne(tables, order, s, k);
    GroupLists(Met(tables, order), s);
  }

  lemma {:induction false} MetFromOne<B>(tables: Tables<B>, order: seq<string>, s: string, k: string)
    requires NoDup(order) && Elems(order) <= tables.Keys && OnlyFrom(tables, s, k)
    ensures EntriesFrom(Met(tables, order), s)
      == if k in order then EntriesFrom(tables[k].options, s) else []
  {
    if order != [] {
      var init, last := order[..|order| - 1], order[|order| - 1];
      assert order == init + [last];
      ElemsConcat(init, [last]);
      assert last in Elems([last]);
      MetFromOne(tables, init, s, k);
      MetOneMore(tables, init, last);
      EntriesFromConcat(Met(tables, init), tables[last].options, s);
    }
  }

  /** Tables with their own ids that list only their own options. */
  ghost predicate ListOnlyOwn<B>(tables: Tables<B>) {
    && (forall k, l | k in tables && l in tables && tables[k].id == tables[l].id :: k == l)
    && forall k, n | k in tables && 0 <= n < |tables[k].options| ::
         tables[k].options[n].sourceTable == tables[k].id
  }

  /** The group of such a table equals its list, entry by entry. */
  lemma OwnOptionsKeepTheirOrder<B>(tables: Tables<B>, order: seq<string>, k: string)
    requires Orders(order, tables.Keys) && ListOnlyOwn(tables) && k in tables
    ensures var g, t := Group(Met(tables, order)), tables[k];
      && (t.id in g <==> t.options != [])
      && (t.id in g ==> |g[t.id]| == |t.options|)
      && (t.id in g ==> forall n :: 0 <= n < |t.options| ==> g[t.id][n] == t.options[n].entry)
  {
    var id := tables[k].id;
    forall l | l in tables && l != k ensures EntriesFrom(tables[l].options, id) == [] {
      assert tables[l].id != id;
      NoneFrom(tables[l].options, id);
    }
    AllFrom(tables[k].options, id);
    GroupOfOneTable(tables, order, id, k);
  }

  lemma {:induction false} NoneFrom(os: seq<NavigationOption>, s: string)
    requires forall n :: 0 <= n < |os| ==> os[n].sourceTable != s
    ensures EntriesFrom(os, s) == []
  {
    if os != [] {
      NoneFrom(os[..|os| - 1], s);
    }
  }

  lemma {:induction false} AllFrom(os: seq<NavigationOption>, s: string)
    requires forall n :: 0 <= n < |os| ==> os[n].sourceTable == s
    ensures |EntriesFrom(os, s)| == |os|
    ensures forall n :: 0 <= n < |os| ==> EntriesFrom(os, s)[n] == os[n].entry
  {
    if os != [] {
      AllFrom(os[..|os| - 1], s);
    }
  }

  // ----- when the order of the tables shows -----

  /** The entries with source s, table by table. */
  function Listed<B>(tables: Tables<B>, order: seq<string>, s: string): seq<Entry> {
    EntriesFrom(Met(tables, order), s)
  }

  function Own<B>(tables: Tables<B>, k: string, s: string): seq<Entry> {
    if k in tables then EntriesFrom(tables[k].options, s) else []
  }

  lemma ListedOneMore<B>(tables: Tables<B>, order: seq<string>, k: string, s: string)
    requires k in tables
    ensures Listed(tables, order + [k], s) == Listed(tables, order, s) + Own(tables, k, s)
  {
    MetOneMore(tables, order, k);
    EntriesFromConcat(Met(tables, order), tables[k].options, s);
  }

  /** g holds the non-empty lists of entries. */
  ghost predicate Represents(g: Groups, os: seq<NavigationOption>) {
    forall s :: (s in g <==> EntriesFrom(os, s) != []) && (s in g ==> g[s] == EntriesFrom(os, s))
  }

  lemma GroupRepresents(os: seq<NavigationOption>)
    ensures Represents(Group(os), os)
  {
    forall s ensures (s in Group(os) <==> EntriesFrom(os, s) != [])
      && (s in Group(os) ==> Group(os)[s] == EntriesFrom(os, s))
    {
      GroupLists(os, s);
    }
  }

  lemma SameEntries(g: Groups, a: seq<NavigationOption>, b: seq<NavigationOption>, s: string)
    requires Represents(g, a) && Represents(g, b)
    ensures EntriesFrom(a, s) == EntriesFrom(b, s)
  {
    assert s in g <==> EntriesFrom(a, s) != [];
    assert s in g <==> EntriesFrom(b, s) != [];
  }

  ghost predicate SameLists(a: seq<NavigationOption>, b: seq<NavigationOption>) {
    forall s :: EntriesFrom(a, s) == EntriesFrom(b, s)
  }

  lemma SameGroups(g: Groups, h: Groups, a: seq<NavigationOption>, b: seq<NavigationOption>)
    requires Represents(g, a) && Represents(h, b)
    requires SameLists(a, b)
    ensures g == h
  {
    assert forall s :: s in g <==> EntriesFrom(a, s) != [];
    assert forall s :: s in h <==> EntriesFrom(b, s) != [];
    assert g.Keys == h.Keys;
    assert forall s | s in g :: g[s] == h[s];
  }

  lemma SameGroupsIff(a: seq<NavigationOption>, b: seq<NavigationOption>)
    ensures Group(a) == Group(b) <==> SameLists(a, b)
  {
    hide Group, Represents;
    GroupRepresents(a);
    GroupRepresents(b);
    if Group(a) == Group(b) {
      forall s ensures EntriesFrom(a, s) == EntriesFrom(b, s) {
        SameEntries(Group(a), a, b, s);
      }
      assert SameLists(a, b);
    } else if SameLists(a, b) {
      SameGroups(Group(a), Group(b), a, b);
    }
  }

  /** It makes no difference which of two tables comes first. */
  predicate Commute<B>(tables: Tables<B>, k: string, l: string, s: string) {
    Own(tables, k, s) + Own(tables, l, s) == Own(tables, l, s) + Own(tables, k, s)
  }

  ghost predicate AllCommute<B>(tables: Tables<B>) {
    forall s, k, l | k in tables && l in tables && k != l :: Commute(tables, k, l, s)
  }

  /** A table can be met last instead of in the middle. */
  lemma {:induction false} ListedFromTheMiddle<B>(
      tables: Tables<B>, before: seq<string>, k: string, after: seq<string>, s: string)
    requires AllCommute(tables) && k in tables && Elems(after) <= tables.Keys && k !in after
    ensures Listed(tables, before + [k] + after, s)
      == Listed(tables, before + after, s) + Own(tables, k, s)
    decreases |after|
  {
    hide Listed, Own, Elems;
    if after == [] {
      assert before + [k] + after == before + [k] && before + after == before;
      ListedOneMore(tables, before, k, s);
    } else {
      var init, last := after[..|after| - 1], after[|after| - 1];
      assert after == init + [last];
      assert before + [k] + after == before + [k] + init + [last];
      assert before + after == before + init + [last];
      ElemsConcat(init, [last]);
      OrdersOne(last);
      ListedFromTheMiddle(tables, before, k, init, s);
      ListedOneMore(tables, before + [k] + init, last, s);
      ListedOneMore(tables, before + init, last, s);
      assert Commute(tables, k, last, s);
      SwapTail(Listed(tables, before + init, s), Own(tables, k, s), Own(tables, last, s));
    }
  }

  lemma SwapTail<T>(a: seq<T>, b: seq<T>, c: seq<T>)
    ensures a + b + c == a + c + b <==> b + c == c + b
  {
    assert a + b + c == a + (b + c) && a + c + b == a + (c + b);
    assert (a + (b + c))[|a|..] == b + c && (a + (c + b))[|a|..] == c + b;
  }

  lemma {:induction false} ListedInAnyOrder<B>(
      tables: Tables<B>, p: seq<string>, q: seq<string>, ks: set<string>, s: string)
    requires AllCommute(tables) && Orders(p, ks) && Orders(q, ks) && ks <= tables.Keys
    ensures Listed(tables, p, s) == Listed(tables, q, s)
    decreases |p|
  {
    if p == [] {
      assert |q| == 0;
    } else {
      hide *;
      var k, init := p[|p| - 1], p[..|p| - 1];
      assert p == init + [k];
      LastIsListed(p, ks);
      var before, after := CutAt(q, ks, k);
      RemoveOne(init, k, ks);
      DropFromTheMiddle(before, k, after, ks);
      ListedInAnyOrder(tables, init, before + after, ks - {k}, s);
      ListedOneMore(tables, init, k, s);
      ListedFromTheMiddle(tables, before, k, after, s);
    }
  }

  lemma LastIsListed(p: seq<string>, ks: set<string>)
    requires Orders(p, ks) && p != []
    ensures p[|p| - 1] in ks
  {
    assert p[|p| - 1] in Elems(p);
  }

  lemma CutAt(q: seq<string>, ks: set<string>, k: string) returns (before: seq<string>, after: seq<string>)
    requires Orders(q, ks) && k in ks
    ensures q == before + [k] + after && k !in after && Elems(after) <= ks
  {
    OrdersNoDup(q, ks);
    assert k in Elems(q);
    var n :| 0 <= n < |q| && q[n] == k;
    before, after := q[..n], q[n + 1..];
    assert q == before + [k] + after;
    assert forall m :: 0 <= m < |after| ==> after[m] == q[n + 1 + m] != q[n];
    ElemsConcat(before + [k], after);
  }

  ghost predicate OrderDoesNotShow<B>(tables: Tables<B>) {
    forall p, q | Orders(p, tables.Keys) && Orders(q, tables.Keys) ::
      Group(Met(tables, p)) == Group(Met(tables, q))
  }

  /** The export is the same for every order of the tables exactly when, source by source, the lists of
      any two tables may be concatenated either way. */
  lemma OrderShowsIff<B>(tables: Tables<B>)
    ensures OrderDoesNotShow(tables) <==> AllCommute(tables)
  {
    if AllCommute(tables) {
      forall p, q | Orders(p, tables.Keys) && Orders(q, tables.Keys)
        ensures Group(Met(tables, p)) == Group(Met(tables, q))
      {
        forall s ensures EntriesFrom(Met(tables, p), s) == EntriesFrom(Met(tables, q), s) {
          ListedInAnyOrder(tables, p, q, tables.Keys, s);
        }
        SameGroupsIff(Met(tables, p), Met(tables, q));
      }
    }
    if OrderDoesNotShow(tables) {
      forall s, k, l | k in tables && l in tables && k != l ensures Commute(tables, k, l, s) {
        SwappedLastTables(tables, k, l, s);
      }
    }
  }

  lemma SwappedLastTables<B>(tables: Tables<B>, k: string, l: string, s: string)
    requires OrderDoesNotShow(tables) && k in tables && l in tables && k != l
    ensures Commute(tables, k, l, s)
  {
    var rest := SomeOrder(tables.Keys - {k, l});
    var p, q := rest + [k] + [l], rest + [l] + [k];
    assert tables.Keys - {l, k} == tables.Keys - {k, l};
    OrdersEndingIn(tables.Keys, rest, k, l);
    OrdersEndingIn(tables.Keys, rest, l, k);
    hide Orders, Group, Met, Own, EntriesFrom;
    SameListed(tables, p, q, s);
    LastTwoListed(tables, rest, k, l, s);
    LastTwoListed(tables, rest, l, k, s);
    SwapTail(Listed(tables, rest, s), Own(tables, k, s), Own(tables, l, s));
  }

  lemma SameListed<B>(tables: Tables<B>, p: seq<string>, q: seq<string>, s: string)
    requires OrderDoesNotShow(tables) && Orders(p, tables.Keys) && Orders(q, tables.Keys)
    ensures Listed(tables, p, s) == Listed(tables, q, s)
  {
    var a, b := Met(tables, p), Met(tables, q);
    assert Group(a) == Group(b);
    SameGroupsIff(a, b);
    assert EntriesFrom(a, s) == EntriesFrom(b, s);
  }

  lemma LastTwoListed<B>(tables: Tables<B>, rest: seq<string>, k: string, l: string, s: string)
    requires k in tables && l in tables
    ensures Listed(tables, rest + [k] + [l], s)
      == Listed(tables, rest, s) + Own(tables, k, s) + Own(tables, l, s)
  {
    hide Listed, Own;
    ListedOneMore(tables, rest, k, s);
    ListedOneMore(tables, rest + [k], l, s);
  }

  lemma OrdersEndingIn(ks: set<string>, rest: seq<string>, k: string, l: string)
    requires k in ks && l in ks && k != l
    requires Orders(rest, ks - {k, l})
    ensures Orders(rest + [k] + [l], ks)
  {
    OrdersOne(k);
    OrdersOne(l);
    OrdersConcat(rest, ks - {k, l}, [k], {k});
    assert ks - {k, l} + {k} == ks - {l};
    OrdersConcat(rest + [k], ks - {l}, [l], {l});
    assert ks - {l} + {l} == ks;
  }

  /** The smallest case: two tables with one option each show their order exactly when the options
      share the source and differ. */
  lemma TwoTablesShowOrderIff<B>(tables: Tables<B>, k: string, l: string, a: NavigationOption, b: NavigationOption)
    requires k != l && tables.Keys == {k, l} && tables[k].options == [a] && tables[l].options == [b]
    ensures OrderDoesNotShow(tables) <==> a.sourceTable != b.sourceTable || a == b
  {
    OrderShowsIff(tables);
    hide OrderDoesNotShow;
    forall s, m, n | m in tables && n in tables && m != n
      ensures Commute(tables, m, n, s) <==> a.sourceTable != s || b.sourceTable != s || a.entry == b.entry
    {
      OneOption(a, s);
      OneOption(b, s);
      assert (m == k && n == l) || (m == l && n == k);
      hide EntriesFrom;
      SingletonsCommute(a.entry, b.entry);
    }
    hide Commute;
    if a.sourceTable == b.sourceTable && a != b {
      assert !Commute(tables, k, l, a.sourceTable);
    }
  }

  lemma SingletonsCommute<T>(x: T, y: T)
    ensures [x] + [y] == [y] + [x] <==> x == y
    ensures [x] + [] == [] + [x]
  {
    assert ([x] + [y])[0] == x && ([y] + [x])[0] == y;
  }

  lemma OneOption(o: NavigationOption, s: string)
    ensures EntriesFrom([o], s) == if o.sourceTable == s then [o.entry] else []
  {
    assert [o][..0] == [];
  }
}
