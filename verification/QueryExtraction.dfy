/** From an aggregation node to the columns that its query uses
    (usecases/indexes/aggregate_query.go:112-186). */
module QueryExtraction {
  import opened Wrappers
  import opened GoSets
  import opened IndexModels
  import opened Hashing
  import opened QueryExpansion
  import opened IndexPlanning

  /** What the constant children of a filter node read as; None for one that is missing or not a
      string. */
  datatype Filter = Filter(table: Option<string>, field: Option<string>, operator: Option<string>)

  datatype Aggregator = Aggregator(
    table: Option<string>, field: Option<string>, filters: Option<seq<Filter>>)

  /** An invalid AST is logged and skipped; an empty field name aborts the extraction. */
  datatype Failure = InvalidAst | EmptyFieldName

  datatype Test = Equality | Inequality | Other

  datatype Condition = Condition(field: string, test: Test)

  function TestOf(operator: string): Option<Test> {
    if operator == "=" then Some(Equality)
    else if operator in [">", ">=", "<", "<="] then Some(Inequality)
    else if operator in ["IsInList", "IsNotInList", "!=", "IsEmpty", "IsNotEmpty",
                         "StringEndsWith", "StringStartsWith", "FuzzyMatch"] then Some(Other)
    else None
  }

  function ReadFilter(f: Filter, table: string): Result<Condition, Failure> {
    if f.table.None? || f.table.value == "" || f.table.value != table then Err(InvalidAst)
    else if f.field.None? then Err(InvalidAst)
    else if f.field.value == "" then Err(EmptyFieldName)
    else if f.operator.None? || TestOf(f.operator.value).None? then Err(InvalidAst)
    else Ok(Condition(f.field.value, TestOf(f.operator.value).value))
  }

  ghost predicate ReadAs(fs: seq<Filter>, cs: seq<Condition>, table: string) {
    |cs| == |fs| && forall n :: 0 <= n < |fs| ==> ReadFilter(fs[n], table) == Ok(cs[n])
  }

  // ----- what the sets hold -----

  predicate Tested(cs: seq<Condition>, x: string, test: Test) {
    Condition(x, test) in cs
  }

  /** Some condition on x is such a test, and no condition on x before it is one of those. */
  ghost predicate TestedBefore(cs: seq<Condition>, x: string, test: Test, others: set<Test>) {
    exists n :: 0 <= n < |cs| && cs[n] == Condition(x, test)
      && forall t | t in others :: !Tested(cs[..n], x, t)
  }

  /** The sets, by the conditions alone: every column tested for equality; every column tested for
      inequality before any equality; and every column whose first test is another one. */
  ghost predicate DividedInto(cs: seq<Condition>, eq: set<string>, ineq: set<string>, other: set<string>) {
    && (forall x :: x in eq <==> Tested(cs, x, Equality))
    && (forall x :: x in ineq <==> TestedBefore(cs, x, Inequality, {Equality}))
    && (forall x :: x in other <==> TestedBefore(cs, x, Other, {Equality, Inequality}))
  }

  lemma TestedOneMore(cs: seq<Condition>, c: Condition, x: string, test: Test, others: set<Test>)
    ensures Tested(cs + [c], x, test) <==> Tested(cs, x, test) || c == Condition(x, test)
    ensures TestedBefore(cs + [c], x, test, others) <==>
      || TestedBefore(cs, x, test, others)
      || (c == Condition(x, test) && forall t | t in others :: !Tested(cs, x, t))
  {
    var ds := cs + [c];
    assert forall n :: 0 <= n <= |cs| ==> ds[..n] == cs[..n];
    assert cs[..|cs|] == cs;
    if TestedBefore(cs, x, test, others) {
      var n :| 0 <= n < |cs| && cs[n] == Condition(x, test)
        && forall t | t in others :: !Tested(cs[..n], x, t);
      assert ds[n] == Condition(x, test);
    }
    if c == Condition(x, test) && forall t | t in others :: !Tested(cs, x, t) {
      assert ds[|cs|] == c;
    }
  }

  /** An inequality that no equality precedes has been met exactly when some inequality has and no
      equality, if no equality has been met. */
  lemma NoEqualityYet(cs: seq<Condition>, x: string)
    requires !Tested(cs, x, Equality)
    ensures TestedBefore(cs, x, Inequality, {Equality}) <==> Tested(cs, x, Inequality)
  {
    if Tested(cs, x, Inequality) {
      var n :| 0 <= n < |cs| && cs[n] == Condition(x, Inequality);
      assert forall m :: 0 <= m < n ==> cs[..n][m] == cs[m];
    }
  }

  /** One filter: the column goes where the sets filled so far let it go. */
  lemma DividedOneMore(
      cs: seq<Condition>, c: Condition, eq: set<string>, ineq: set<string>, other: set<string>)
    requires DividedInto(cs, eq, ineq, other)
    ensures match c.test
      case Equality => DividedInto(cs + [c], eq + {c.field}, ineq, other)
      case Inequality =>
        DividedInto(cs + [c], eq, if c.field in eq then ineq else ineq + {c.field}, other)
      case Other =>
        DividedInto(cs + [c], eq, ineq,
               if c.field in eq || c.field in ineq then other else other + {c.field})
  {
    var ds := cs + [c];
    forall x
      ensures Tested(ds, x, Equality) <==> x in eq || c == Condition(x, Equality)
      ensures TestedBefore(ds, x, Inequality, {Equality}) <==>
        x in ineq || (c == Condition(x, Inequality) && x !in eq)
      ensures TestedBefore(ds, x, Other, {Equality, Inequality}) <==>
        x in other || (c == Condition(x, Other) && x !in eq && x !in ineq)
    {
      TestedOneMore(cs, c, x, Equality, {});
      TestedOneMore(cs, c, x, Inequality, {Equality});
      TestedOneMore(cs, c, x, Other, {Equality, Inequality});
      if !Tested(cs, x, Equality) {
        NoEqualityYet(cs, x);
      }
    }
    hide Tested, TestedBefore;
  }

  // ----- the extraction -----

  /** The first filter that cannot be read fails with e. */
  ghost predicate FailsWith(fs: seq<Filter>, e: Failure, table: string) {
    exists n :: 0 <= n < |fs| && ReadFilter(fs[n], table) == Err(e)
      && forall m :: 0 <= m < n ==> ReadFilter(fs[m], table).Ok?
  }

  /** The query of a readable node. Without a filters child not even the aggregated field is noted. */
  ghost predicate Extracts(node: Aggregator, q: Query, cs: seq<Condition>) {
    && node.table == Some(q.table) && node.field.Some?
    && ReadAs(if node.filters.Some? then node.filters.value else [], cs, q.table)
    && q.eq.Some? && q.ineq.Some? && q.other.Some?
    && exists other :: DividedInto(cs, q.eq.value, q.ineq.value, other) && q.other.value ==
         if node.filters.Some? && node.field.value !in q.eq.value + q.ineq.value
         then other + {node.field.value} else other
  }

  // ----- the same, said of the filters -----

  const EQUALITIES := {"="}

  const INEQUALITIES := {">", ">=", "<", "<="}

  const OTHERS := {
    "IsInList", "IsNotInList", "!=", "IsEmpty", "IsNotEmpty", "StringEndsWith", "StringStartsWith",
    "FuzzyMatch"}

  /** The filter names the node's table, a field, and a known operator. */
  predicate Proper(f: Filter, table: string) {
    && f.table == Some(table) && table != ""
    && f.field.Some? && f.field.value != ""
    && f.operator.Some? && f.operator.value in EQUALITIES + INEQUALITIES + OTHERS
  }

  predicate Extractable(node: Aggregator) {
    && node.table.Some? && node.field.Some?
    && (node.filters.Some? ==>
          forall n :: 0 <= n < |node.filters.value| ==> Proper(node.filters.value[n], node.table.value))
  }

  /** The filter tests x with one of the operators. */
  predicate TestsFor(f: Filter, x: string, operators: set<string>) {
    f.field == Some(x) && f.operator.Some? && f.operator.value in operators
  }

  function Operators(test: Test): set<string> {
    match test
    case Equality => EQUALITIES
    case Inequality => INEQUALITIES
    case Other => OTHERS
  }

  lemma OperatorsAreDisjoint()
    ensures EQUALITIES !! INEQUALITIES && EQUALITIES !! OTHERS && INEQUALITIES !! OTHERS
  {
    forall o ensures !(o in EQUALITIES && o in INEQUALITIES)
      && !(o in EQUALITIES && o in OTHERS) && !(o in INEQUALITIES && o in OTHERS)
    {
      assert o in OTHERS ==> o == "!=" || |o| > 2;
      assert "!="[0] == '!' && "="[0] == '=' && "<="[0] == '<' && ">="[0] == '>';
    }
  }

  lemma TestOfIff(operator: string, test: Test)
    ensures TestOf(operator) == Some(test) <==> operator in Operators(test)
  {
    OperatorsAreDisjoint();
    assert operator in EQUALITIES <==> operator == "=";
    assert operator in INEQUALITIES <==> operator in [">", ">=", "<", "<="];
    assert operator in OTHERS <==>
      operator in ["IsInList", "IsNotInList", "!=", "IsEmpty", "IsNotEmpty",
                   "StringEndsWith", "StringStartsWith", "FuzzyMatch"];
    hide EQUALITIES, INEQUALITIES, OTHERS;
  }

  lemma ReadIffProper(f: Filter, table: string)
    ensures ReadFilter(f, table).Ok? <==> Proper(f, table)
    ensures forall x, test ::
      ReadFilter(f, table) == Ok(Condition(x, test)) <==>
        Proper(f, table) && TestsFor(f, x, Operators(test))
    ensures ReadFilter(f, table) == Err(EmptyFieldName) <==>
      f.table == Some(table) && table != "" && f.field == Some("")
  {
    if f.operator.Some? {
      forall test ensures TestOf(f.operator.value) == Some(test) <==> f.operator.value in Operators(test) {
        TestOfIff(f.operator.value, test);
      }
      assert TestOf(f.operator.value).Some? <==> f.operator.value in EQUALITIES + INEQUALITIES + OTHERS by {
        assert Operators(Equality) == EQUALITIES && Operators(Inequality) == INEQUALITIES;
        assert Operators(Other) == OTHERS;
        if TestOf(f.operator.value).Some? {
          assert f.operator.value in Operators(TestOf(f.operator.value).value);
        }
        hide TestOf, Operators, EQUALITIES, INEQUALITIES, OTHERS;
      }
    }
    hide TestOf, Operators, EQUALITIES, INEQUALITIES, OTHERS;
  }

  lemma AllProper(fs: seq<Filter>, cs: seq<Condition>, table: string)
    requires ReadAs(fs, cs, table)
    ensures forall n :: 0 <= n < |fs| ==> Proper(fs[n], table)
  {
    hide ReadFilter, Proper;
    forall n | 0 <= n < |fs| ensures Proper(fs[n], table) {
      ReadIffProper(fs[n], table);
      assert ReadFilter(fs[n], table) == Ok(cs[n]);
    }
  }

  /** `aggregationNodeToQueryFamily`. */
  method AggregationNodeToQueryFamily(node: Aggregator)
    returns (r: Result<QueryRef, Failure>, ghost cs: seq<Condition>)
    ensures r.Ok? <==> Extractable(node)
    ensures r.Ok? ==> Extracts(node, r.value.Value(), cs)
    ensures r.Err? ==>
      || ((node.table.None? || node.field.None?) && r.error == InvalidAst)
      || (node.table.Some? && node.field.Some? && node.filters.Some?
          && FailsWith(node.filters.value, r.error, node.table.value))
  {
    hide ReadFilter, Proper;
    cs := [];
    if node.table.None? || node.field.None? {
      return Err(InvalidAst), cs;
    }
    var table, aggregated := node.table.value, node.field.value;
    var eq := new StringSet();
    var ineq := new StringSet();
    var other := new StringSet();
    var family := QueryRef(table, eq, ineq, other);
    if node.filters.None? {
      assert DividedInto([], {}, {}, {});
      return Ok(family), cs;
    }
    var filters := node.filters.value;
    for n := 0 to |filters|
      invariant fresh(eq) && fresh(ineq) && fresh(other)
      invariant eq != ineq && eq != other && ineq != other
      invariant ReadAs(filters[..n], cs, table) && DividedInto(cs, eq.items, ineq.items, other.items)
    {
      hide DividedInto;
      assert forall m :: 0 <= m < n ==> filters[..n][m] == filters[m];
      var c := ReadFilter(filters[n], table);
      ReadIffProper(filters[n], table);
      if c.Err? {
        return Err(c.error), cs;
      }
      var fieldName := c.value.field;
      DividedOneMore(cs, c.value, eq.items, ineq.items, other.items);
      match c.value.test {
        case Equality =>
          eq.Insert(fieldName);
        case Inequality =>
          if fieldName !in eq.items {
            ineq.Insert(fieldName);
          }
        case Other =>
          if fieldName !in eq.items && fieldName !in ineq.items {
            other.Insert(fieldName);
          }
      }
      cs := cs + [c.value];
      assert filters[..n + 1] == filters[..n] + [filters[n]];
    }
    assert filters[..|filters|] == filters;
    AllProper(filters, cs, table);
    if aggregated !in eq.items && aggregated !in ineq.items {
      other.Insert(aggregated);
    }
    r := Ok(family);
  }

  /** Some filter tests x with one of the operators, and no filter before it with one of those barred. */
  ghost predicate FirstTests(fs: seq<Filter>, x: string, operators: set<string>, barred: set<string>) {
    exists n :: 0 <= n < |fs| && TestsFor(fs[n], x, operators)
      && forall m :: 0 <= m < n ==> !TestsFor(fs[m], x, barred)
  }

  lemma TestedIff(fs: seq<Filter>, cs: seq<Condition>, table: string, n: nat, x: string, test: Test)
    requires ReadAs(fs, cs, table) && n < |fs|
    ensures cs[n] == Condition(x, test) <==> TestsFor(fs[n], x, Operators(test))
  {
    ReadIffProper(fs[n], table);
    AllProper(fs, cs, table);
    assert ReadFilter(fs[n], table) == Ok(cs[n]);
    hide ReadFilter, TestsFor, Proper, Operators;
  }

  lemma FirstTestsIff(
      fs: seq<Filter>, cs: seq<Condition>, table: string, x: string, test: Test, others: set<Test>,
      barred: set<string>)
    requires ReadAs(fs, cs, table)
    requires forall f :: TestsFor(f, x, barred) <==> exists t :: t in others && TestsFor(f, x, Operators(t))
    ensures TestedBefore(cs, x, test, others) <==> FirstTests(fs, x, Operators(test), barred)
  {
    forall n, t | 0 <= n < |fs|
      ensures cs[n] == Condition(x, t) <==> TestsFor(fs[n], x, Operators(t))
    {
      TestedIff(fs, cs, table, n, x, t);
    }
    hide TestsFor, Operators, ReadAs;
    assert |cs| == |fs|;
    forall n | 0 <= n < |fs|
      ensures (forall t | t in others :: !Tested(cs[..n], x, t)) <==>
        forall m :: 0 <= m < n ==> !TestsFor(fs[m], x, barred)
    {
      NotTestedIff(fs, cs, n, x, others, barred);
    }
    hide Tested;
  }

  lemma NotTestedIff(
      fs: seq<Filter>, cs: seq<Condition>, n: nat, x: string, others: set<Test>, barred: set<string>)
    requires |cs| == |fs| && n <= |fs|
    requires forall m, t :: 0 <= m < |fs| ==>
      (cs[m] == Condition(x, t) <==> TestsFor(fs[m], x, Operators(t)))
    requires forall f :: TestsFor(f, x, barred) <==> exists t :: t in others && TestsFor(f, x, Operators(t))
    ensures (forall t | t in others :: !Tested(cs[..n], x, t)) <==>
      forall m :: 0 <= m < n ==> !TestsFor(fs[m], x, barred)
  {
    hide TestsFor, Operators;
    if t :| t in others && Tested(cs[..n], x, t) {
      var m :| 0 <= m < n && cs[..n][m] == Condition(x, t);
      assert cs[m] == Condition(x, t);
      assert TestsFor(fs[m], x, barred);
    }
    if m :| 0 <= m < n && TestsFor(fs[m], x, barred) {
      var t :| t in others && TestsFor(fs[m], x, Operators(t));
      assert cs[..n][m] == Condition(x, t);
      assert Tested(cs[..n], x, t);
    }
  }

  lemma Barred(x: string)
    ensures forall f :: TestsFor(f, x, {}) <==> exists t :: t in {} && TestsFor(f, x, Operators(t))
    ensures forall f :: TestsFor(f, x, EQUALITIES) <==>
      exists t :: t in {Equality} && TestsFor(f, x, Operators(t))
    ensures forall f :: TestsFor(f, x, EQUALITIES + INEQUALITIES) <==>
      exists t :: t in {Equality, Inequality} && TestsFor(f, x, Operators(t))
  {
    forall f ensures TestsFor(f, x, EQUALITIES + INEQUALITIES) <==>
        exists t :: t in {Equality, Inequality} && TestsFor(f, x, Operators(t))
    {
      assert Equality in {Equality, Inequality} && Inequality in {Equality, Inequality};
      assert TestsFor(f, x, Operators(Equality)) || TestsFor(f, x, Operators(Inequality)) <==>
        TestsFor(f, x, EQUALITIES + INEQUALITIES);
    }
    forall f ensures TestsFor(f, x, EQUALITIES) <==>
        exists t :: t in {Equality} && TestsFor(f, x, Operators(t))
    {
      assert Equality in {Equality} && Operators(Equality) == EQUALITIES;
      assert TestsFor(f, x, EQUALITIES) ==> TestsFor(f, x, Operators(Equality));
    }
  }

  /** What the sets of an extracted query hold, said of the filters alone. */
  lemma SetsOfFilters(node: Aggregator, q: Query, cs: seq<Condition>)
    requires Extracts(node, q, cs) && node.filters.Some?
    ensures var fs, eq, ineq := node.filters.value, q.eq.value, q.ineq.value;
      && (forall x :: x in eq <==> FirstTests(fs, x, EQUALITIES, {}))
      && (forall x :: x in ineq <==> FirstTests(fs, x, INEQUALITIES, EQUALITIES))
      && (forall x :: x in q.other.value <==>
            || FirstTests(fs, x, OTHERS, EQUALITIES + INEQUALITIES)
            || (x == node.field.value && x !in eq && x !in ineq))
  {
    var fs, eq, ineq := node.filters.value, q.eq.value, q.ineq.value;
    var other :| DividedInto(cs, eq, ineq, other) && q.other.value ==
      if node.field.value !in eq + ineq then other + {node.field.value} else other;
    forall x
      ensures x in eq <==> FirstTests(fs, x, EQUALITIES, {})
      ensures x in ineq <==> FirstTests(fs, x, INEQUALITIES, EQUALITIES)
      ensures x in other <==> FirstTests(fs, x, OTHERS, EQUALITIES + INEQUALITIES)
    {
      SetsOfColumn(fs, cs, q.table, x, eq, ineq, other);
    }
    hide FirstTests, DividedInto, EQUALITIES, INEQUALITIES, OTHERS;
  }

  lemma SetsOfColumn(
      fs: seq<Filter>, cs: seq<Condition>, table: string, x: string,
      eq: set<string>, ineq: set<string>, other: set<string>)
    requires ReadAs(fs, cs, table) && DividedInto(cs, eq, ineq, other)
    ensures x in eq <==> FirstTests(fs, x, EQUALITIES, {})
    ensures x in ineq <==> FirstTests(fs, x, INEQUALITIES, EQUALITIES)
    ensures x in other <==> FirstTests(fs, x, OTHERS, EQUALITIES + INEQUALITIES)
  {
    Barred(x);
    assert Operators(Equality) == EQUALITIES && Operators(Inequality) == INEQUALITIES;
    assert Operators(Other) == OTHERS;
    TestedIsFirst(cs, x);
    hide TestsFor, Operators, EQUALITIES, INEQUALITIES, OTHERS, FirstTests, TestedBefore, ReadAs, Tested;
    FirstTestsIff(fs, cs, table, x, Equality, {}, {});
    FirstTestsIff(fs, cs, table, x, Inequality, {Equality}, EQUALITIES);
    FirstTestsIff(fs, cs, table, x, Other, {Equality, Inequality}, EQUALITIES + INEQUALITIES);
  }

  lemma TestedIsFirst(cs: seq<Condition>, x: string)
    ensures Tested(cs, x, Equality) <==> TestedBefore(cs, x, Equality, {})
  {
  }

  // ----- what the queries are like -----

  /** Nothing that a filter tests, nor the aggregated field, is forgotten; and nothing is added. */
  lemma EveryColumnIsMentioned(node: Aggregator, q: Query, cs: seq<Condition>)
    requires Extracts(node, q, cs) && node.filters.Some?
    ensures forall x :: x in Mentioned(q) <==>
      x == node.field.value || OnSome(cs, x)
  {
    var other :| DividedInto(cs, q.eq.value, q.ineq.value, other) && q.other.value ==
      if node.field.value !in q.eq.value + q.ineq.value then other + {node.field.value} else other;
    forall x
      ensures x in q.eq.value + q.ineq.value + other <==> OnSome(cs, x)
    {
      MentionedIffTested(cs, x, q.eq.value, q.ineq.value, other);
    }
    hide DividedInto, OnSome;
  }

  predicate OnSome(cs: seq<Condition>, x: string) {
    exists n :: 0 <= n < |cs| && cs[n].field == x
  }

  lemma MentionedIffTested(
      cs: seq<Condition>, x: string, eq: set<string>, ineq: set<string>, other: set<string>)
    requires DividedInto(cs, eq, ineq, other)
    ensures x in eq + ineq + other <==> OnSome(cs, x)
  {
    if n :| 0 <= n < |cs| && cs[n].field == x {
      SomeSetHasIt(cs, x, n);
    }
  }

  lemma SomeSetHasIt(cs: seq<Condition>, x: string, n: nat)
    requires n < |cs| && cs[n].field == x
    ensures Tested(cs, x, Equality) || TestedBefore(cs, x, Inequality, {Equality})
      || TestedBefore(cs, x, Other, {Equality, Inequality})
  {
    assert cs[n] == Condition(x, cs[n].test);
    if !Tested(cs, x, Equality) {
      NoEqualityYet(cs, x);
      if !Tested(cs, x, Inequality) {
        assert cs[n].test == Other;
        assert forall m, t :: 0 <= m < n && cs[..n][m] == Condition(x, t) ==> cs[m] == Condition(x, t);
      }
    }
  }

  /** x is tested for inequality and, only later, for equality. */
  ghost predicate EqualityComesLate(cs: seq<Condition>, x: string) {
    exists n :: 0 <= n < |cs| && cs[n] == Condition(x, Inequality)
      && !Tested(cs[..n], x, Equality) && Tested(cs[n..], x, Equality)
  }

  lemma LateIffInBoth(cs: seq<Condition>, x: string)
    ensures EqualityComesLate(cs, x) <==>
      Tested(cs, x, Equality) && TestedBefore(cs, x, Inequality, {Equality})
  {
    assert forall n :: 0 <= n <= |cs| ==> cs == cs[..n] + cs[n..];
    assert forall n :: 0 <= n <= |cs| ==>
      (Tested(cs, x, Equality) <==> Tested(cs[..n], x, Equality) || Tested(cs[n..], x, Equality));
    hide Tested;
  }

  /** A query is separated, so that its families repeat no column, exactly when the filters never
      put an equality after an inequality on the same column: the order of the filters matters. */
  lemma SeparatedIff(node: Aggregator, q: Query, cs: seq<Condition>)
    requires Extracts(node, q, cs)
    ensures Separated(q) <==> forall x :: !EqualityComesLate(cs, x)
  {
    forall x ensures EqualityComesLate(cs, x) <==> x in q.eq.value && x in q.ineq.value {
      LateIffInBoth(cs, x);
    }
    hide EqualityComesLate, Extracts;
  }

  /** The first test of x is another one, and an equality or inequality follows. */
  ghost predicate OtherComesFirst(cs: seq<Condition>, x: string) {
    exists n :: 0 <= n < |cs| && cs[n] == Condition(x, Other)
      && !Tested(cs[..n], x, Equality) && !Tested(cs[..n], x, Inequality)
      && (Tested(cs[n..], x, Equality) || Tested(cs[n..], x, Inequality))
  }

  lemma OtherFirstIffInBoth(cs: seq<Condition>, x: string)
    ensures OtherComesFirst(cs, x) <==>
      && TestedBefore(cs, x, Other, {Equality, Inequality})
      && (Tested(cs, x, Equality) || TestedBefore(cs, x, Inequality, {Equality}))
  {
    if !Tested(cs, x, Equality) {
      NoEqualityYet(cs, x);
    }
    forall n | 0 <= n <= |cs|
      ensures Tested(cs, x, Equality) <==> Tested(cs[..n], x, Equality) || Tested(cs[n..], x, Equality)
      ensures Tested(cs, x, Inequality) <==> Tested(cs[..n], x, Inequality) || Tested(cs[n..], x, Inequality)
    {
      TestedSplit(cs, n, x, Equality);
      TestedSplit(cs, n, x, Inequality);
    }
    hide Tested;
    assert TestedBefore(cs, x, Other, {Equality, Inequality}) <==>
      exists n :: 0 <= n < |cs| && cs[n] == Condition(x, Other)
        && !Tested(cs[..n], x, Equality) && !Tested(cs[..n], x, Inequality);
    hide TestedBefore;
  }

  lemma TestedSplit(cs: seq<Condition>, n: nat, x: string, test: Test)
    requires n <= |cs|
    ensures Tested(cs, x, test) <==> Tested(cs[..n], x, test) || Tested(cs[n..], x, test)
  {
    assert cs == cs[..n] + cs[n..];
  }

  /** The three sets are disjoint exactly when no column is tested for equality after an inequality,
      nor for either after another test that came first. */
  lemma DisjointIff(node: Aggregator, q: Query, cs: seq<Condition>)
    requires Extracts(node, q, cs)
    ensures (q.eq.value !! q.ineq.value && (q.eq.value + q.ineq.value) !! q.other.value) <==>
      forall x :: !EqualityComesLate(cs, x) && !OtherComesFirst(cs, x)
  {
    var other :| DividedInto(cs, q.eq.value, q.ineq.value, other) && q.other.value ==
      if node.filters.Some? && node.field.value !in q.eq.value + q.ineq.value
      then other + {node.field.value} else other;
    forall x
      ensures EqualityComesLate(cs, x) <==> x in q.eq.value && x in q.ineq.value
      ensures OtherComesFirst(cs, x) <==> x in other && x in q.eq.value + q.ineq.value
    {
      LateIffInBoth(cs, x);
      OtherFirstIffInBoth(cs, x);
    }
    hide EqualityComesLate, OtherComesFirst, DividedInto;
    assert forall x :: x in q.other.value && x in q.eq.value + q.ineq.value <==>
      x in other && x in q.eq.value + q.ineq.value;
  }

  /** A query that is not separated has a member that only an index with a repeated column fits. */
  lemma LateEqualityNeedsRepeatedColumn(q: Query, x: string, f: Family, cols: seq<string>)
    requires x in Columns(q.eq) && x in Columns(q.ineq) && x != ""
    requires f in Expand(q) && f.last == x && Fits(cols, f)
    ensures !NoDup(cols)
  {
    FitsIffWindows(cols, f);
    assert x in f.flex;
    var w := cols[|f.fixed|..|f.fixed| + |f.flex|];
    assert x in Elems(w);
    var k :| 0 <= k < |w| && w[k] == x;
    assert cols[|f.fixed| + k] == x == cols[f.Size() - 1];
  }

  function OnColumn(t: string, x: string, operator: string): Filter {
    Filter(Some(t), Some(x), Some(operator))
  }

  function TwoFilters(t: string, field: string, first: Filter, second: Filter): Aggregator {
    Aggregator(Some(t), Some(field), Some([first, second]))
  }

  /** What is extracted is determined by the node. */
  lemma ExtractionIsUnique(node: Aggregator, q: Query, cs: seq<Condition>, r: Query, ds: seq<Condition>)
    requires Extracts(node, q, cs) && Extracts(node, r, ds)
    ensures q == r && cs == ds
  {
    var fs := if node.filters.Some? then node.filters.value else [];
    assert forall n :: 0 <= n < |fs| ==> ReadFilter(fs[n], q.table) == Ok(cs[n]);
    assert forall n :: 0 <= n < |fs| ==> ReadFilter(fs[n], r.table) == Ok(ds[n]);
    assert cs == ds;
    var m :| DividedInto(cs, q.eq.value, q.ineq.value, m) && q.other.value ==
      if node.filters.Some? && node.field.value !in q.eq.value + q.ineq.value
      then m + {node.field.value} else m;
    var n :| DividedInto(ds, r.eq.value, r.ineq.value, n) && r.other.value ==
      if node.filters.Some? && node.field.value !in r.eq.value + r.ineq.value
      then n + {node.field.value} else n;
    hide Tested, TestedBefore;
    assert q.eq.value == r.eq.value && q.ineq.value == r.ineq.value && m == n;
  }

  /** `x > 1` and then `x = 2` puts x into both sets; in the other order only into one. */
  lemma FilterOrderExample(t: string, x: string, field: string)
    requires t != "" && x != ""
    ensures Extracts(
      TwoFilters(t, field, OnColumn(t, x, ">"), OnColumn(t, x, "=")),
      Query(t, Some({x}), Some({x}), Some(if field in {x} + {x} then {} else {field})),
      [Condition(x, Inequality), Condition(x, Equality)])
    ensures Extracts(
      TwoFilters(t, field, OnColumn(t, x, "="), OnColumn(t, x, ">")),
      Query(t, Some({x}), Some({}), Some(if field in {x} + {} then {} else {field})),
      [Condition(x, Equality), Condition(x, Inequality)])
  {
    var late, early := Condition(x, Inequality), Condition(x, Equality);
    assert ReadFilter(OnColumn(t, x, ">"), t) == Ok(late);
    assert ReadFilter(OnColumn(t, x, "="), t) == Ok(early);
    TwoConditions(x);
    hide ReadFilter, OnColumn, DividedInto;
    ExtractsTwo(t, field, OnColumn(t, x, ">"), OnColumn(t, x, "="), late, early, {x}, {x});
    ExtractsTwo(t, field, OnColumn(t, x, "="), OnColumn(t, x, ">"), early, late, {x}, {});
  }

  lemma TwoConditions(x: string)
    ensures DividedInto([Condition(x, Inequality), Condition(x, Equality)], {x}, {x}, {})
    ensures DividedInto([Condition(x, Equality), Condition(x, Inequality)], {x}, {}, {})
  {
    var ineq, eq := Condition(x, Inequality), Condition(x, Equality);
    var none: set<string> := {};
    assert DividedInto([], none, none, none);
    hide DividedInto;
    DividedOneMore([], ineq, {}, {}, {});
    assert [] + [ineq] == [ineq] && [ineq] + [eq] == [ineq, eq] && none + {x} == {x};
    DividedOneMore([ineq], eq, {}, {x}, {});
    DividedOneMore([], eq, {}, {}, {});
    assert [] + [eq] == [eq] && [eq] + [ineq] == [eq, ineq];
    DividedOneMore([eq], ineq, {x}, {}, {});
  }

  lemma ExtractsTwo(
      t: string, field: string, first: Filter, second: Filter, c: Condition, d: Condition,
      eq: set<string>, ineq: set<string>)
    requires ReadFilter(first, t) == Ok(c) && ReadFilter(second, t) == Ok(d)
    requires DividedInto([c, d], eq, ineq, {})
    ensures Extracts(
      TwoFilters(t, field, first, second),
      Query(t, Some(eq), Some(ineq), Some(if field in eq + ineq then {} else {field})), [c, d])
  {
    hide DividedInto, ReadFilter;
    var none: set<string> := {};
    assert none + {field} == {field};
  }
}
