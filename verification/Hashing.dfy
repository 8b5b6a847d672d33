/** The printed keys that `HashSet` uses to drop duplicate query families and index families
    (models/aggregate_query.go, models/index_family.go). */
module Hashing {
  import opened Wrappers
  import opened GoSets
  import opened IndexModels
  import opened Sorting

  /** An `AggregateQueryFamily`; `None` is a nil set. */
  datatype Query = Query(
    table: string, eq: Option<set<string>>, ineq: Option<set<string>>, other: Option<set<string>>)

  // ----- what is printed -----

  function Join(names: seq<string>): string {
    if names == [] then ""
    else if |names| == 1 then names[0]
    else names[0] + " " + Join(names[1..])
  }

  /** `fmt.Sprintf("%v", names)`. */
  function PrintList(names: seq<string>): string {
    "[" + Join(names) + "]"
  }

  function PrintSet(s: Option<set<string>>): string {
    match s
    case None => ""
    case Some(x) => PrintList(SortedOf(x))
  }

  function QueryHash(q: Query): string {
    q.table + " - " + PrintSet(q.eq) + " - " + PrintSet(q.ineq) + " - " + PrintSet(q.other)
  }

  function FamilyHash(f: Family): string {
    f.table + " - " + PrintList(f.fixed) + " - " + PrintSet(Some(f.flex)) + " - " + f.last
    + " - " + PrintSet(Some(f.included))
  }

  /** `AggregateQueryFamily.Hash` on any enumeration order of its sets; `IndexFamily.Hash` prints its
      sets in the same way. */
  method PrintSortedSlice(s: StringSet?) returns (text: string)
    ensures text == PrintSet(if s == null then None else Some(s.items))
  {
    text := "";
    if s != null {
      var p := s.Slice();
      var r := Sort(p);
      SortedSliceIsSortedOf(p, r, s.items);
      text := PrintList(r);
    }
  }

  // ----- decoding -----

  /** A column name: not empty, no space and no closing bracket. */
  predicate Clean(name: string) {
    name != "" && CleanTable(name) && ']' !in name
  }

  predicate CleanTable(name: string) {
    ' ' !in name
  }

  /** `^[a-z][a-z0-9_]{0,62}$`, the rule for the names of new tables and fields. */
  predicate ValidName(name: string) {
    && 1 <= |name| <= 63 && 'a' <= name[0] <= 'z'
    && forall k :: 1 <= k < |name| ==> 'a' <= name[k] <= 'z' || '0' <= name[k] <= '9' || name[k] == '_'
  }

  /** The names of a query. */
  predicate ValidNames(q: Query) {
    && ValidName(q.table)
    && forall s, x | s in {q.eq, q.ineq, q.other} && s.Some? && x in s.value :: ValidName(x)
  }

  /** Names that keep to the rule are clean. */
  lemma ValidNamesAreClean(q: Query)
    requires ValidNames(q)
    ensures CleanQuery(q)
  {
    forall x | ValidName(x) ensures Clean(x) {
      assert forall k :: 0 <= k < |x| ==> x[k] != ' ' && x[k] != ']';
    }
    assert q.eq in {q.eq, q.ineq, q.other} && q.ineq in {q.eq, q.ineq, q.other};
    assert q.other in {q.eq, q.ineq, q.other};
  }

  predicate CleanSet(s: Option<set<string>>) {
    s.Some? ==> forall x | x in s.value :: Clean(x)
  }

  predicate CleanList(names: seq<string>) {
    forall k :: 0 <= k < |names| ==> Clean(names[k])
  }

  predicate CleanQuery(q: Query) {
    CleanTable(q.table) && CleanSet(q.eq) && CleanSet(q.ineq) && CleanSet(q.other)
  }

  predicate CleanFamily(f: Family) {
    && CleanTable(f.table) && CleanList(f.fixed) && (f.last == "" || Clean(f.last))
    && CleanSet(Some(f.flex)) && CleanSet(Some(f.included))
  }

  lemma SplitUnique(x: string, u: string, y: string, v: string, c: char)
    requires x + [c] + u == y + [c] + v
    requires c !in x && c !in y
    ensures x == y && u == v
  {
    var s := x + [c] + u;
    assert forall k :: 0 <= k < |x| ==> s[k] == x[k] && s[k] != c;
    assert forall k :: 0 <= k < |y| ==> s[k] == y[k] && s[k] != c;
    assert s[|x|] == c && s[|y|] == c;
    assert x == s[..|x|] && y == s[..|y|] && u == s[|x| + 1..] && v == s[|y| + 1..];
  }

  lemma {:induction false} JoinFree(names: seq<string>)
    requires CleanList(names)
    ensures ']' !in Join(names)
    ensures Join(names) == "" <==> names == []
    ensures ' ' in Join(names) <==> |names| > 1
  {
    if |names| > 1 {
      JoinFree(names[1..]);
      assert Join(names)[|names[0]|] == ' ';
    }
  }

  lemma {:induction false} JoinInjective(a: seq<string>, b: seq<string>)
    requires CleanList(a) && CleanList(b) && Join(a) == Join(b)
    ensures a == b
  {
    JoinFree(a);
    JoinFree(b);
    if |a| > 1 {
      SplitUnique(a[0], Join(a[1..]), b[0], Join(b[1..]), ' ');
      JoinInjective(a[1..], b[1..]);
      assert a == [a[0]] + a[1..] && b == [b[0]] + b[1..];
    }
  }

  /** A printed list can be read back off the front of a text. */
  lemma PrintListDecodes(a: seq<string>, u: string, b: seq<string>, v: string)
    requires CleanList(a) && CleanList(b) && PrintList(a) + u == PrintList(b) + v
    ensures a == b && u == v
  {
    JoinFree(a);
    JoinFree(b);
    var s, t := PrintList(a) + u, PrintList(b) + v;
    assert s[1..] == Join(a) + [']'] + u;
    assert t[1..] == Join(b) + [']'] + v;
    SplitUnique(Join(a), u, Join(b), v, ']');
    JoinInjective(a, b);
  }

  lemma CleanSorted(s: set<string>)
    requires CleanSet(Some(s))
    ensures CleanList(SortedOf(s))
  {
    var p := SortedOf(s);
    forall k | 0 <= k < |p| ensures Clean(p[k]) {
      assert p[k] in Elems(p);
    }
  }

  /** A printed set, nil or not, can be read back when a separator or the end follows it. */
  lemma PrintSetDecodes(s: Option<set<string>>, u: string, t: Option<set<string>>, v: string)
    requires CleanSet(s) && CleanSet(t) && PrintSet(s) + u == PrintSet(t) + v
    requires (u == "" || u[0] == ' ') && (v == "" || v[0] == ' ')
    ensures s == t && u == v
  {
    assert s.None? ==> PrintSet(s) + u == u;
    assert t.None? ==> PrintSet(t) + v == v;
    assert s.Some? ==> (PrintSet(s) + u)[0] == '[';
    assert t.Some? ==> (PrintSet(t) + v)[0] == '[';
    if s.Some? && t.Some? {
      CleanSorted(s.value);
      CleanSorted(t.value);
      PrintListDecodes(SortedOf(s.value), u, SortedOf(t.value), v);
      assert s.value == Elems(SortedOf(s.value));
    }
  }

  lemma DropSeparator(u: string, v: string)
    requires " - " + u == " - " + v
    ensures u == v
  {
    assert u == (" - " + u)[3..] && v == (" - " + v)[3..];
  }

  /** A clean name, possibly empty, can be read back off a separator. */
  lemma NameDecodes(x: string, u: string, y: string, v: string)
    requires ' ' !in x && ' ' !in y && x + " - " + u == y + " - " + v
    ensures x == y && u == v
  {
    assert x + " - " + u == x + [' '] + ("- " + u);
    assert y + " - " + v == y + [' '] + ("- " + v);
    SplitUnique(x, "- " + u, y, "- " + v, ' ');
    assert u == ("- " + u)[2..] && v == ("- " + v)[2..];
  }

  lemma Nest4(a: string, b: string, c: string, d: string, sep: string)
    ensures a + sep + b + sep + c + sep + d == a + sep + (b + (sep + (c + (sep + d))))
  {
    assert a + sep + b + sep + c + sep + d == a + sep + b + sep + (c + (sep + d));
    assert a + sep + b + sep + (c + (sep + d)) == a + sep + (b + (sep + (c + (sep + d))));
  }

  lemma Nest5(a: string, b: string, c: string, d: string, e: string, sep: string)
    ensures a + sep + b + sep + c + sep + d + sep + e
         == a + sep + (b + (sep + (c + (sep + (d + sep + e)))))
  {
    Nest4(a, b, c, d, sep);
    var tail := b + (sep + (c + (sep + d)));
    assert a + sep + tail + sep + e == a + sep + (tail + sep + e);
    assert tail + sep + e == b + (sep + (c + (sep + (d + sep + e))));
  }

  /** Two clean query families have the same key exactly when they are equal, nil sets included. */
  lemma QueryHashIsFaithful(a: Query, b: Query)
    requires CleanQuery(a) && CleanQuery(b)
    ensures QueryHash(a) == QueryHash(b) <==> a == b
  {
    if QueryHash(a) == QueryHash(b) {
      var a3, b3 := PrintSet(a.other), PrintSet(b.other);
      var a2, b2 := PrintSet(a.ineq) + (" - " + a3), PrintSet(b.ineq) + (" - " + b3);
      var a1, b1 := PrintSet(a.eq) + (" - " + a2), PrintSet(b.eq) + (" - " + b2);
      Nest4(a.table, PrintSet(a.eq), PrintSet(a.ineq), a3, " - ");
      Nest4(b.table, PrintSet(b.eq), PrintSet(b.ineq), b3, " - ");
      NameDecodes(a.table, a1, b.table, b1);
      PrintSetDecodes(a.eq, " - " + a2, b.eq, " - " + b2);
      DropSeparator(a2, b2);
      PrintSetDecodes(a.ineq, " - " + a3, b.ineq, " - " + b3);
      DropSeparator(a3, b3);
      assert a3 == a3 + "" && b3 == b3 + "";
      PrintSetDecodes(a.other, "", b.other, "");
    }
  }

  /** The same for index families. */
  lemma FamilyHashIsFaithful(a: Family, b: Family)
    requires CleanFamily(a) && CleanFamily(b)
    ensures FamilyHash(a) == FamilyHash(b) <==> a == b
  {
    if FamilyHash(a) == FamilyHash(b) {
      var a4, b4 := PrintSet(Some(a.included)), PrintSet(Some(b.included));
      var a3, b3 := a.last + " - " + a4, b.last + " - " + b4;
      var a2, b2 := PrintSet(Some(a.flex)) + (" - " + a3), PrintSet(Some(b.flex)) + (" - " + b3);
      var a1, b1 := PrintList(a.fixed) + (" - " + a2), PrintList(b.fixed) + (" - " + b2);
      Nest5(a.table, PrintList(a.fixed), PrintSet(Some(a.flex)), a.last, a4, " - ");
      Nest5(b.table, PrintList(b.fixed), PrintSet(Some(b.flex)), b.last, b4, " - ");
      NameDecodes(a.table, a1, b.table, b1);
      PrintListDecodes(a.fixed, " - " + a2, b.fixed, " - " + b2);
      DropSeparator(a2, b2);
      PrintSetDecodes(Some(a.flex), " - " + a3, Some(b.flex), " - " + b3);
      DropSeparator(a3, b3);
      NameDecodes(a.last, a4, b.last, b4);
      assert a4 == a4 + "" && b4 == b4 + "";
      PrintSetDecodes(Some(a.included), "", Some(b.included), "");
    }
  }

  /** Without the restriction on names the key is not faithful: a column named "a b" and the two
      columns "a" and "b" print alike. */
  lemma SpacesMakeHashesCollide(a: Query, b: Query)
    requires a == Query("t", Some({"a b"}), Some({}), Some({}))
    requires b == Query("t", Some({"a", "b"}), Some({}), Some({}))
    ensures a != b && QueryHash(a) == QueryHash(b)
  {
    assert "a b" != "a" && "a b" != "b" && "a" != "b";
    ListingOfOne("a b");
    ListingOfTwo("a", "b");
    hide SortedOf, Elems, Le;
    assert Join(["b"]) == "b";
    assert Join(["a", "b"]) == "a b" == Join(["a b"]);
  }

  /** An empty column name prints like no column; the aggregated field, which is not checked, may bring
      one in. */
  lemma EmptyNamesMakeHashesCollide(a: Query, b: Query)
    requires a == Query("t", Some({"a"}), Some({}), Some({""}))
    requires b == Query("t", Some({"a"}), Some({}), Some({}))
    ensures a != b && QueryHash(a) == QueryHash(b)
  {
    assert "" in {""};
    ListingOfOne("");
    hide SortedOf, Elems, Le;
    assert Join([""]) == "" == Join([]);
  }

  /** Column names with brackets can spell out the end of one list and the beginning of the next. */
  lemma BracketsMakeHashesCollide(a: Query, b: Query)
    requires a == Query("t", Some({"+]", "-", "[b"}), Some({"+"}), Some({"b"}))
    requires b == Query("t", Some({"+"}), Some({"b"}), Some({"+]", "-", "[b"}))
    ensures a != b && QueryHash(a) == QueryHash(b)
  {
    assert "-" != "+" && "-" in {"+]", "-", "[b"} && "-" !in {"+"};
    ListingOfThree("+]", "-", "[b");
    ListingOfOne("+");
    ListingOfOne("b");
    hide SortedOf, Elems, Le;
    BracketsSpellLists();
    RotateParts("t", PrintList(["+]", "-", "[b"]), PrintList(["+"]), PrintList(["b"]));
    hide PrintList;
  }

  lemma BracketsSpellLists()
    ensures PrintList(["+]", "-", "[b"]) == PrintList(["+"]) + " - " + PrintList(["b"])
  {
    assert Join(["[b"]) == "[b" && Join(["-", "[b"]) == "- [b";
    assert Join(["+]", "-", "[b"]) == "+] - [b";
    assert PrintList(["+"]) == "[+]" && PrintList(["b"]) == "[b]";
  }

  lemma RotateParts(t: string, x: string, y: string, z: string)
    requires x == y + " - " + z
    ensures t + " - " + x + " - " + y + " - " + z == t + " - " + y + " - " + z + " - " + x
  {
    assert t + " - " + x == t + " - " + y + " - " + z;
    assert t + " - " + x + " - " + y + " - " + z == t + " - " + x + " - " + (y + " - " + z);
  }

  lemma ListingOfOne(x: string)
    ensures SortedOf({x}) == [x]
  {
    OrdersOne(x);
    SortedIsUnique([x], SortedOf({x}), {x});
  }

  lemma ListingOfTwo(x: string, y: string)
    requires x != y && Le(x, y)
    ensures SortedOf({x, y}) == [x, y]
  {
    OrdersOne(x);
    OrdersOne(y);
    OrdersConcat([x], {x}, [y], {y});
    assert [x] + [y] == [x, y] && {x} + {y} == {x, y};
    hide Elems, Le;
    SortedIsUnique([x, y], SortedOf({x, y}), {x, y});
  }

  lemma ListingOfThree(x: string, y: string, z: string)
    requires x != y && y != z && x != z && Le(x, y) && Le(y, z)
    ensures SortedOf({x, y, z}) == [x, y, z]
  {
    ThreeAreListed(x, y, z);
    LeTransitive(x, y, z);
    hide Elems, Orders, Le;
    SortedIsUnique([x, y, z], SortedOf({x, y, z}), {x, y, z});
  }

  lemma ThreeAreListed(x: string, y: string, z: string)
    requires x != y && y != z && x != z
    ensures Orders([x, y, z], {x, y, z})
  {
    OrdersOne(x);
    OrdersOne(y);
    OrdersOne(z);
    hide Elems, Orders;
    OrdersConcat([x], {x}, [y], {y});
    OrdersConcat([x] + [y], {x} + {y}, [z], {z});
    assert [x] + [y] + [z] == [x, y, z] && {x} + {y} + {z} == {x, y, z};
  }


  /** The printed form of a query and of a family. */
  lemma HashTexts()
    ensures QueryHash(Query("t", Some({"a"}), Some({"b"}), Some({"c"}))) == "t - [a] - [b] - [c]"
    ensures QueryHash(Query("t", Some({}), None, None)) == "t - [] -  - "
    ensures FamilyHash(Family("t", ["a", "b"], {"c"}, "d", {"e"})) == "t - [a b] - [c] - d - [e]"
  {
    QueryTexts();
    FamilyText();
  }

  lemma QueryTexts()
    ensures QueryHash(Query("t", Some({"a"}), Some({"b"}), Some({"c"}))) == "t - [a] - [b] - [c]"
    ensures QueryHash(Query("t", Some({}), None, None)) == "t - [] -  - "
  {
    PrintOne("a");
    PrintOne("b");
    PrintOne("c");
    PrintSome();
    hide PrintSet, PrintList;
  }

  lemma FamilyText()
    ensures FamilyHash(Family("t", ["a", "b"], {"c"}, "d", {"e"})) == "t - [a b] - [c] - d - [e]"
  {
    PrintOne("c");
    PrintOne("e");
    PrintSome();
    hide PrintSet, PrintList;
  }

  lemma PrintOne(x: string)
    ensures PrintSet(Some({x})) == "[" + x + "]"
  {
    ListingOfOne(x);
  }

  lemma PrintSome()
    ensures PrintSet(None) == "" && PrintSet(Some({})) == "[]" && PrintList(["a", "b"]) == "[a b]"
  {
    assert ["a", "b"][1..] == ["b"] && Join(["b"]) == "b";
    assert Join(["a", "b"]) == "a b";
  }

}
