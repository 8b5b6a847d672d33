/** Where navigation options come from (models/data_model.go:490-588): reverse links and pivots that a
    navigation index supports. What is read this way lists every option under its own table. */
module NavigationPlanning {
  import opened NavigationOptions

  datatype Field = Field(name: string, id: string)

  datatype Link = Link(
    parentTable: string, parentTableId: string, parentFieldId: string,
    childTableId: string, childField: string, childFieldId: string)

  datatype Pivot = Pivot(
    baseTable: string, baseTableId: string, pivotTableId: string, fieldId: string)

  datatype NavIndex = NavIndex(table: string, indexed: seq<string>, navigation: bool)

  /** The parts of a table that are read, besides its id and options. */
  datatype Body = Body(name: string, fields: map<string, Field>, links: map<string, Link>)

  type DataModel = Tables<Body>

  /** An option and the name of the table that it is filed under. */
  datatype Filed = Filed(table: string, option: NavigationOption)

  type Files = map<string, seq<NavigationOption>>

  // ----- what an index supports -----

  /** The index is on two known fields of a known table; it filters on the first and orders by the
      second. */
  predicate Supports(dm: DataModel, i: NavIndex) {
    && i.navigation && i.table in dm && |i.indexed| >= 2
    && i.indexed[0] in dm[i.table].body.fields && i.indexed[1] in dm[i.table].body.fields
  }

  function Filter(dm: DataModel, i: NavIndex): Field
    requires Supports(dm, i)
  {
    dm[i.table].body.fields[i.indexed[0]]
  }

  function Ordering(dm: DataModel, i: NavIndex): Field
    requires Supports(dm, i)
  {
    dm[i.table].body.fields[i.indexed[1]]
  }

  /** From the parent of a link to its child. */
  function Reverse(l: Link, ordering: Field): Filed {
    Filed(l.parentTable, NavigationOption(
      l.parentTableId, Entry(l.parentFieldId, l.childTableId, l.childFieldId, ordering.id)))
  }

  /** From the base table of a pivot, over the field itself. */
  function Pivoted(p: Pivot, filter: Field, ordering: Field): Filed {
    Filed(p.baseTable, NavigationOption(
      p.baseTableId, Entry(filter.id, p.pivotTableId, filter.id, ordering.id)))
  }

  predicate IsReverse(dm: DataModel, i: NavIndex, l: Link, x: Filed)
    requires Supports(dm, i)
  {
    l.childField == i.indexed[0] && x == Reverse(l, Ordering(dm, i))
  }

  predicate IsPivoted(dm: DataModel, i: NavIndex, p: Pivot, x: Filed)
    requires Supports(dm, i)
  {
    p.baseTable == i.table && p.fieldId == Filter(dm, i).id && x == Pivoted(p, Filter(dm, i), Ordering(dm, i))
  }

  /** x comes from one of the links with these names, on the field that the index filters by. */
  predicate FromLinks(dm: DataModel, i: NavIndex, names: set<string>, x: Filed)
    requires Supports(dm, i)
  {
    var links := dm[i.table].body.links;
    exists n :: n in names && n in links && IsReverse(dm, i, links[n], x)
  }

  predicate FromPivots(dm: DataModel, i: NavIndex, pivots: seq<Pivot>, x: Filed)
    requires Supports(dm, i)
  {
    exists k :: 0 <= k < |pivots| && IsPivoted(dm, i, pivots[k], x)
  }

  predicate FromIndex(dm: DataModel, i: NavIndex, pivots: seq<Pivot>, x: Filed) {
    && Supports(dm, i)
    && (FromLinks(dm, i, dm[i.table].body.links.Keys, x) || FromPivots(dm, i, pivots, x))
  }

  // ----- filing -----

  function File(g: Files, x: Filed): Files {
    g[x.table := (if x.table in g then g[x.table] else []) + [x.option]]
  }

  function FileAll(xs: seq<Filed>): Files {
    if xs == [] then map[] else File(FileAll(xs[..|xs| - 1]), xs[|xs| - 1])
  }

  function UnderName(xs: seq<Filed>, table: string): seq<NavigationOption> {
    if xs == [] then []
    else
      var x := xs[|xs| - 1];
      UnderName(xs[..|xs| - 1], table) + (if x.table == table then [x.option] else [])
  }

  lemma {:induction false} FilesAreRight(xs: seq<Filed>, table: string)
    ensures table in FileAll(xs) <==> UnderName(xs, table) != []
    ensures table in FileAll(xs) ==> FileAll(xs)[table] == UnderName(xs, table)
  {
    if xs != [] {
      FilesAreRight(xs[..|xs| - 1], table);
    }
  }

  lemma {:induction false} UnderNameMembers(xs: seq<Filed>, table: string, o: NavigationOption)
    ensures o in UnderName(xs, table) <==> Filed(table, o) in xs
  {
    if xs != [] {
      var m := |xs| - 1;
      UnderNameMembers(xs[..m], table, o);
      assert xs == xs[..m] + [xs[m]];
    }
  }

  lemma FileOneMore(xs: seq<Filed>, x: Filed)
    ensures FileAll(xs + [x]) == File(FileAll(xs), x)
  {
    assert (xs + [x])[..|xs|] == xs;
  }

  /** xs holds exactly what the indexes support. */
  ghost predicate Complete(dm: DataModel, indexes: seq<NavIndex>, pivots: seq<Pivot>, xs: seq<Filed>) {
    forall x :: x in xs <==>
      exists k :: 0 <= k < |indexes| && FromIndex(dm, indexes[k], pivots, x)
  }

  /** The model with the files handed out: a table under whose name nothing is filed keeps its options. */
  ghost predicate HandedOut(dm: DataModel, xs: seq<Filed>, r: DataModel) {
    && r.Keys == dm.Keys
    && forall k | k in dm ::
         r[k] == if UnderName(xs, dm[k].body.name) == [] then dm[k]
                 else dm[k].(options := UnderName(xs, dm[k].body.name))
  }

  /** `AddNavigationOptionsToDataModel`; xs are the options in the order in which they were filed. */
  method AddNavigationOptions(dm: DataModel, indexes: seq<NavIndex>, pivots: seq<Pivot>)
    returns (r: DataModel, ghost xs: seq<Filed>)
    ensures Complete(dm, indexes, pivots, xs) && HandedOut(dm, xs, r)
  {
    hide FileAll, UnderName;
    xs := [];
    var navigationOptions: Files := map[];
    NothingFiled();
    for n := 0 to |indexes|
      invariant navigationOptions == FileAll(xs) && Complete(dm, indexes[..n], pivots, xs)
    {
      ghost var added;
      navigationOptions, added := FileIndex(dm, indexes[n], pivots, navigationOptions, xs);
      CompleteOneMore(dm, indexes[..n], indexes[n], pivots, xs, added);
      assert indexes[..n + 1] == indexes[..n] + [indexes[n]];
      xs := xs + added;
    }
    assert indexes[..|indexes|] == indexes;
    r := HandOut(dm, navigationOptions, xs);
  }

  lemma NothingFiled()
    ensures FileAll([]) == map[]
  {
  }

  ghost predicate Supported(dm: DataModel, i: NavIndex, pivots: seq<Pivot>, xs: seq<Filed>) {
    forall x :: x in xs <==> FromIndex(dm, i, pivots, x)
  }

  lemma CompleteOneMore(
      dm: DataModel, indexes: seq<NavIndex>, i: NavIndex, pivots: seq<Pivot>, xs: seq<Filed>,
      added: seq<Filed>)
    requires Complete(dm, indexes, pivots, xs) && Supported(dm, i, pivots, added)
    ensures Complete(dm, indexes + [i], pivots, xs + added)
  {
    hide FromIndex;
    var all := indexes + [i];
    assert all[|indexes|] == i;
    assert forall k :: 0 <= k < |indexes| ==> all[k] == indexes[k];
    forall x ensures x in xs + added <==>
        exists k :: 0 <= k < |all| && FromIndex(dm, all[k], pivots, x)
    {
      if k :| 0 <= k < |all| && FromIndex(dm, all[k], pivots, x) {
        assert k < |indexes| ==> x in xs;
      }
      if x in xs {
        var k :| 0 <= k < |indexes| && FromIndex(dm, indexes[k], pivots, x);
        assert all[k] == indexes[k];
      }
    }
  }

  // ----- one index -----

  /** The options that one index supports, filed after xs: links in any order, then pivots. */
  method FileIndex(dm: DataModel, i: NavIndex, pivots: seq<Pivot>, files: Files, ghost xs: seq<Filed>)
    returns (r: Files, ghost added: seq<Filed>)
    requires files == FileAll(xs)
    ensures r == FileAll(xs + added) && Supported(dm, i, pivots, added)
  {
    hide FileAll;
    r, added := files, [];
    assert xs + [] == xs;
    if !i.navigation || i.table !in dm || |i.indexed| < 2 {
      return;
    }
    var childTable := dm[i.table].body;
    if i.indexed[0] !in childTable.fields || i.indexed[1] !in childTable.fields {
      return;
    }
    r, added := FileLinks(dm, i, files, xs);
    ghost var linked := added;
    var filter, ordering := childTable.fields[i.indexed[0]], childTable.fields[i.indexed[1]];
    for m := 0 to |pivots|
      invariant r == FileAll(xs + added)
      invariant forall x :: x in added <==>
        FromLinks(dm, i, childTable.links.Keys, x) || FromPivots(dm, i, pivots[..m], x)
    {
      var pivot := pivots[m];
      PivotsOneMore(dm, i, pivots, m);
      if pivot.baseTable == i.table && pivot.fieldId == filter.id {
        var x := Pivoted(pivot, filter, ordering);
        FileOneMore(xs + added, x);
        assert xs + added + [x] == xs + (added + [x]);
        r, added := File(r, x), added + [x];
      }
    }
    assert pivots[..|pivots|] == pivots;
  }

  method FileLinks(dm: DataModel, i: NavIndex, files: Files, ghost xs: seq<Filed>)
    returns (r: Files, ghost added: seq<Filed>)
    requires files == FileAll(xs) && Supports(dm, i)
    ensures r == FileAll(xs + added)
    ensures forall x :: x in added <==> FromLinks(dm, i, dm[i.table].body.links.Keys, x)
  {
    hide FileAll;
    r, added := files, [];
    assert xs + [] == xs;
    var links, ordering := dm[i.table].body.links, Ordering(dm, i);
    var todo := links.Keys;
    while todo != {}
      invariant todo <= links.Keys && r == FileAll(xs + added)
      invariant forall x :: x in added <==> FromLinks(dm, i, links.Keys - todo, x)
      decreases todo
    {
      var n :| n in todo;
      var link := links[n];
      LinksOneMore(dm, i, links.Keys - todo, n);
      assert links.Keys - todo + {n} == links.Keys - (todo - {n});
      todo := todo - {n};
      if link.childField == i.indexed[0] {
        var x := Reverse(link, ordering);
        FileOneMore(xs + added, x);
        assert xs + added + [x] == xs + (added + [x]);
        r, added := File(r, x), added + [x];
      }
    }
    assert links.Keys - todo == links.Keys;
  }

  lemma LinksOneMore(dm: DataModel, i: NavIndex, names: set<string>, n: string)
    requires Supports(dm, i) && n in dm[i.table].body.links
    ensures forall x :: FromLinks(dm, i, names + {n}, x) <==>
      FromLinks(dm, i, names, x) || IsReverse(dm, i, dm[i.table].body.links[n], x)
  {
    hide IsReverse;
    assert n in names + {n};
  }

  lemma PivotsOneMore(dm: DataModel, i: NavIndex, pivots: seq<Pivot>, m: nat)
    requires Supports(dm, i) && m < |pivots|
    ensures forall x :: FromPivots(dm, i, pivots[..m + 1], x) <==>
      FromPivots(dm, i, pivots[..m], x) || IsPivoted(dm, i, pivots[m], x)
  {
    hide IsPivoted;
    var more, fewer := pivots[..m + 1], pivots[..m];
    assert more[m] == pivots[m];
    assert forall k :: 0 <= k < m ==> more[k] == fewer[k];
  }

  /** The last loop. */
  method HandOut(dm: DataModel, files: Files, ghost xs: seq<Filed>) returns (r: DataModel)
    requires files == FileAll(xs)
    ensures HandedOut(dm, xs, r)
  {
    hide FileAll, UnderName;
    r := dm;
    var todo := dm.Keys;
    while todo != {}
      invariant todo <= dm.Keys && r.Keys == dm.Keys
      invariant forall k | k in todo :: r[k] == dm[k]
      invariant forall k | k in dm && k !in todo ::
        r[k] == if UnderName(xs, dm[k].body.name) == [] then dm[k]
                else dm[k].(options := UnderName(xs, dm[k].body.name))
      decreases todo
    {
      var k :| k in todo;
      FilesAreRight(xs, dm[k].body.name);
      if dm[k].body.name in files {
        r := r[k := dm[k].(options := files[dm[k].body.name])];
      }
      todo := todo - {k};
    }
  }

  // ----- every option is listed by its own table -----

  /** Tables are keyed by their names and have ids of their own; links and pivots name their table and
      give its id; and no option is listed yet. */
  ghost predicate Consistent(dm: DataModel, pivots: seq<Pivot>) {
    && (forall k | k in dm :: dm[k].body.name == k && dm[k].options == [])
    && (forall k, l | k in dm && l in dm && dm[k].id == dm[l].id :: k == l)
    && (forall k, n | k in dm && n in dm[k].body.links ::
          var link := dm[k].body.links[n];
          link.parentTable in dm ==> link.parentTableId == dm[link.parentTable].id)
    && (forall k | 0 <= k < |pivots| :: pivots[k].baseTable in dm ==>
          pivots[k].baseTableId == dm[pivots[k].baseTable].id)
  }

  lemma FiledWithItsId(
      dm: DataModel, indexes: seq<NavIndex>, pivots: seq<Pivot>, xs: seq<Filed>, x: Filed)
    requires Consistent(dm, pivots) && Complete(dm, indexes, pivots, xs) && x in xs && x.table in dm
    ensures x.option.sourceTable == dm[x.table].id
  {
    var k :| 0 <= k < |indexes| && FromIndex(dm, indexes[k], pivots, x);
  }

  /** A consistent model lists, after the options are added, only each table's own. */
  lemma ReadModelListsOnlyOwn(
      dm: DataModel, indexes: seq<NavIndex>, pivots: seq<Pivot>, xs: seq<Filed>, r: DataModel)
    requires Consistent(dm, pivots) && Complete(dm, indexes, pivots, xs) && HandedOut(dm, xs, r)
    ensures ListOnlyOwn(r)
  {
    forall k, n | k in r && 0 <= n < |r[k].options|
      ensures r[k].options[n].sourceTable == r[k].id
    {
      var o := r[k].options[n];
      UnderNameMembers(xs, k, o);
      FiledWithItsId(dm, indexes, pivots, xs, Filed(k, o));
    }
  }

  /** So the export of a model that was read this way does not show the order of its tables. */
  lemma ReadModelHidesOrder(
      dm: DataModel, indexes: seq<NavIndex>, pivots: seq<Pivot>, xs: seq<Filed>, r: DataModel)
    requires Consistent(dm, pivots) && Complete(dm, indexes, pivots, xs) && HandedOut(dm, xs, r)
    ensures OrderDoesNotShow(r)
  {
    ReadModelListsOnlyOwn(dm, indexes, pivots, xs, r);
    hide Consistent, Complete, HandedOut;
    OwnOptionsCommute(r);
    OrderShowsIff(r);
  }

  lemma OwnOptionsCommute<B>(tables: Tables<B>)
    requires ListOnlyOwn(tables)
    ensures AllCommute(tables)
  {
    forall s, k, l | k in tables && l in tables && k != l ensures Commute(tables, k, l, s) {
      if tables[k].id != s {
        NoneFrom(tables[k].options, s);
      } else {
        NoneFrom(tables[l].options, s);
      }
    }
  }

  // ----- where an option leads -----

  /** Links name fields of their tables by their ids. */
  ghost predicate LinksMatch(dm: DataModel) {
    forall k, n | k in dm && n in dm[k].body.links ::
      var link, fields := dm[k].body.links[n], dm[k].body.fields;
      && link.childTableId == dm[k].id
      && (link.childField in fields ==> link.childFieldId == fields[link.childField].id)
  }

  /** From the field of a link's parent. */
  predicate LeadsOverLink(l: Link, x: Filed) {
    && x.table == l.parentTable && x.option.sourceTable == l.parentTableId
    && x.option.entry.sourceField == l.parentFieldId
  }

  /** From the base table of a pivot to its own. */
  predicate LeadsOverPivot(p: Pivot, x: Filed) {
    && x.table == p.baseTable && x.option.sourceTable == p.baseTableId
    && x.option.entry.sourceField == p.fieldId && x.option.entry.targetTable == p.pivotTableId
  }

  /** Every option filters on the first field of a navigation index and orders by the second; it leads
      over a link to the table of the index, or over a pivot based on that table. */
  lemma OptionsAreSupported(
      dm: DataModel, indexes: seq<NavIndex>, pivots: seq<Pivot>, xs: seq<Filed>, x: Filed)
    returns (i: NavIndex)
    requires Complete(dm, indexes, pivots, xs) && LinksMatch(dm) && x in xs
    ensures i in indexes && Supports(dm, i)
    ensures var e, fields := x.option.entry, dm[i.table].body.fields;
      e.filterField == fields[i.indexed[0]].id && e.orderingField == fields[i.indexed[1]].id
    ensures var links := dm[i.table].body.links;
      || (x.option.entry.targetTable == dm[i.table].id && exists n :: n in links && LeadsOverLink(links[n], x))
      || (exists p :: p in pivots && p.baseTable == i.table && LeadsOverPivot(p, x))
  {
    var k :| 0 <= k < |indexes| && FromIndex(dm, indexes[k], pivots, x);
    i := indexes[k];
  }
}
