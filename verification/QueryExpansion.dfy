/** From the columns an aggregate query uses to the index families that can serve it, and what an
    index that covers one of them guarantees (models/aggregate_query.go). */
module QueryExpansion {
  import opened Wrappers
  import opened GoSets
  import opened IndexModels
  import opened Hashing

  /** An `AggregateQueryFamily` as it is passed around: three possibly nil set pointers. */
  datatype QueryRef = QueryRef(
    table: string, eq: StringSet?, ineq: StringSet?, other: StringSet?)
  {
    ghost function Value(): Query
      reads eq, ineq, other
    {
      Query(table, Contents(eq), Contents(ineq), Contents(other))
    }
  }

  ghost function Contents(s: StringSet?): Option<set<string>>
    reads s
  {
    if s == null then None else Some(s.items)
  }

  /** A nil set counts as empty. */
  function Columns(s: Option<set<string>>): set<string> {
    match s
    case None => {}
    case Some(x) => x
  }

  /** Every family `ToIndexFamilies` may output: one per inequality column, which must come right
      after the equality columns; the other inequality columns only need to be available. */
  function Expand(q: Query): set<Family> {
    var eq, ineq, other := Columns(q.eq), Columns(q.ineq), Columns(q.other);
    if eq == {} && ineq == {} then {}
    else if ineq == {} then {Family(q.table, [], eq, "", other)}
    else Members(Family(q.table, [], eq, "", other), ineq, ineq)
  }

  /** The member of an expansion whose last column is c. */
  function Member(base: Family, ineq: set<string>, c: string): Family {
    base.(last := c, included := base.included + (ineq - {c}))
  }

  function Members(base: Family, ineq: set<string>, cs: set<string>): set<Family> {
    set c | c in cs :: Member(base, ineq, c)
  }

  function Hashes(hash: Family -> string, fs: set<Family>): set<string> {
    set f | f in fs :: hash(f)
  }

  /** A `HashSet` filled with fs, items in insertion order: members of fs with pairwise different
      keys, and one for the key of every member. */
  ghost predicate HashSetOf(hash: Family -> string, items: seq<Family>, fs: set<Family>) {
    && Elems(items) <= fs && Hashes(hash, Elems(items)) == Hashes(hash, fs)
    && forall i, j :: 0 <= i < j < |items| ==> hash(items[i]) != hash(items[j])
  }

  /** No set pointer occurs twice in the output. */
  ghost predicate Isolated(output: seq<FamilyRef>) {
    && (forall k :: 0 <= k < |output| ==> output[k].flex != output[k].included)
    && forall j, k :: 0 <= j < k < |output| ==>
         && output[j].flex != output[k].flex && output[j].flex != output[k].included
         && output[j].included != output[k].included && output[j].included != output[k].flex
  }

  /** The values behind the pointers. */
  ghost predicate Shows(output: seq<FamilyRef>, items: seq<Family>)
    reads set k | 0 <= k < |output| :: output[k].flex, set k | 0 <= k < |output| :: output[k].included
  {
    |output| == |items| && forall k :: 0 <= k < |items| ==> output[k].Value() == items[k]
  }

  /** `family.Hash()` for an index family. */
  method HashFamily(f: FamilyRef, ghost hash: Family -> string) returns (h: string)
    requires hash == FamilyHash
    ensures h == hash(f.Value())
  {
    var fl := PrintSortedSlice(f.flex);
    var ot := PrintSortedSlice(f.included);
    h := f.table + " - " + PrintList(f.fixed) + " - " + fl + " - " + f.last + " - " + ot;
  }

  /** `s.ForEach(func(f) { into.Insert(f) })` for a possibly nil s, skipping one name. */
  method InsertAll(s: StringSet?, into: StringSet, skip: set<string>)
    requires s != into
    modifies into
    ensures into.items == old(into.items) + (Columns(Contents(s)) - skip)
  {
    if s != null {
      var todo := s.items;
      while todo != {}
        invariant todo <= s.items
        invariant into.items == old(into.items) + (s.items - todo - skip)
        decreases todo
      {
        var x :| x in todo;
        if x !in skip {
          into.Insert(x);
        }
        todo := todo - {x};
      }
    }
  }

  /** The closure run for one inequality column: a copy of the base with that column last and the
      other inequality columns included. */
  method WithLast(base: FamilyRef, ineq: StringSet, c: string) returns (fam: FamilyRef)
    ensures fresh(fam.flex) && fresh(fam.included) && fam.flex != fam.included
    ensures fam.Value() == Member(base.Value(), ineq.items, c)
  {
    fam := base.Copy();
    fam := fam.(last := c);
    InsertAll(ineq, fam.included, {c});
  }

  /** `output.Insert(fam)` on a `HashSet`: nothing is inserted when the key is present. */
  method HashSetInsert(
      keys: set<string>, fam: FamilyRef,
      ghost hash: Family -> string, ghost items: seq<Family>, ghost fs: set<Family>)
    returns (inserted: bool, keys': set<string>)
    requires hash == FamilyHash && HashSetOf(hash, items, fs) && keys == Hashes(hash, fs)
    ensures keys' == Hashes(hash, fs + {fam.Value()})
    ensures HashSetOf(hash, if inserted then items + [fam.Value()] else items, fs + {fam.Value()})
  {
    var h := HashFamily(fam, hash);
    inserted, keys' := h !in keys, keys + {h};
    InsertedHashSet(hash, items, fs, fam.Value());
  }

  lemma InsertedHashSet(hash: Family -> string, items: seq<Family>, fs: set<Family>, f: Family)
    requires HashSetOf(hash, items, fs)
    ensures Hashes(hash, fs + {f}) == Hashes(hash, fs) + {hash(f)}
    ensures HashSetOf(
      hash, if hash(f) !in Hashes(hash, fs) then items + [f] else items, fs + {f})
  {
    assert Hashes(hash, fs + {f}) == Hashes(hash, fs) + {hash(f)};
    if hash(f) !in Hashes(hash, fs) {
      ElemsConcat(items, [f]);
      assert Elems([f]) == {f};
      assert Hashes(hash, Elems(items) + {f}) == Hashes(hash, Elems(items)) + {hash(f)};
      assert forall k :: 0 <= k < |items| ==> items[k] in Elems(items);
    }
  }

  lemma SingletonHashSet(hash: Family -> string, f: Family)
    ensures HashSetOf(hash, [f], {f})
  {
    assert Elems([f]) == {f};
  }

  /** `ToIndexFamilies`, for any iteration order of the input sets: items are the values of the
      families that are output. */
  method ToIndexFamilies(q: QueryRef)
    returns (output: seq<FamilyRef>, ghost items: seq<Family>)
    ensures Shows(output, items) && HashSetOf(FamilyHash, items, Expand(q.Value()))
    ensures Isolated(output)
    ensures forall k :: 0 <= k < |output| ==> fresh(output[k].flex) && fresh(output[k].included)
  {
    output, items := ExpandInto(q, FamilyHash);
  }

  method ExpandInto(q: QueryRef, ghost hash: Family -> string)
    returns (output: seq<FamilyRef>, ghost items: seq<Family>)
    requires hash == FamilyHash
    ensures Shows(output, items) && HashSetOf(hash, items, Expand(q.Value()))
    ensures Isolated(output)
    ensures forall k :: 0 <= k < |output| ==> fresh(output[k].flex) && fresh(output[k].included)
  {
    output, items := [], [];
    ghost var qv := q.Value();
    if (q.eq == null || q.eq.items == {}) && (q.ineq == null || q.ineq.items == {}) {
      assert Expand(qv) == {};
      return;
    }
    var flex := new StringSet();
    var included := new StringSet();
    InsertAll(q.eq, flex, {});
    InsertAll(q.other, included, {});
    var base := FamilyRef(q.table, [], flex, "", included);
    assert flex.items == Columns(qv.eq) && included.items == Columns(qv.other);
    if q.ineq == null || q.ineq.items == {} {
      assert Expand(qv) == {base.Value()};
      output, items := [base], [base.Value()];
      SingletonHashSet(hash, base.Value());
      return;
    }
    assert Expand(qv) == Members(base.Value(), q.ineq.items, q.ineq.items);
    output, items := ForEachInequality(base, q.ineq, hash);
  }

  /** The outer `ForEach` over the inequality columns. */
  method ForEachInequality(base: FamilyRef, ineq: StringSet, ghost hash: Family -> string)
    returns (output: seq<FamilyRef>, ghost items: seq<Family>)
    requires hash == FamilyHash
    ensures Shows(output, items) && Isolated(output)
    ensures HashSetOf(hash, items, Members(base.Value(), ineq.items, ineq.items))
    ensures forall k :: 0 <= k < |output| ==> fresh(output[k].flex) && fresh(output[k].included)
  {
    output, items := [], [];
    var keys := {};
    ghost var bv, columns := base.Value(), ineq.items;
    var todo := ineq.items;
    while todo != {}
      invariant todo <= columns && Shows(output, items) && Isolated(output)
      invariant HashSetOf(hash, items, Members(bv, columns, columns - todo))
      invariant keys == Hashes(hash, Members(bv, columns, columns - todo))
      invariant forall k :: 0 <= k < |output| ==> fresh(output[k].flex) && fresh(output[k].included)
      decreases todo
    {
      var c :| c in todo;
      MembersStep(bv, columns, columns - todo, c);
      assert columns - todo + {c} == columns - (todo - {c});
      output, items, keys := InsertMember(
        output, items, keys, base, ineq, c, hash, Members(bv, columns, columns - todo));
      todo := todo - {c};
    }
  }

  /** One iteration of the outer loop. */
  method InsertMember(
      output: seq<FamilyRef>, ghost items: seq<Family>, keys: set<string>,
      base: FamilyRef, ineq: StringSet, c: string,
      ghost hash: Family -> string, ghost fs: set<Family>)
    returns (output': seq<FamilyRef>, ghost items': seq<Family>, keys': set<string>)
    requires hash == FamilyHash && HashSetOf(hash, items, fs) && keys == Hashes(hash, fs)
    requires Shows(output, items) && Isolated(output)
    ensures Shows(output', items') && Isolated(output')
    ensures HashSetOf(hash, items', fs + {Member(base.Value(), ineq.items, c)})
    ensures keys' == Hashes(hash, fs + {Member(base.Value(), ineq.items, c)})
    ensures output <= output' && |output'| <= |output| + 1
    ensures forall k :: |output| <= k < |output'| ==> fresh(output'[k].flex) && fresh(output'[k].included)
  {
    var fam := WithLast(base, ineq, c);
    var inserted;
    inserted, keys' := HashSetInsert(keys, fam, hash, items, fs);
    output', items' := output, items;
    if inserted {
      AppendIsolated(output, fam);
      AppendShows(output, items, fam);
      output', items' := output + [fam], items + [fam.Value()];
    }
  }

  lemma AppendIsolated(output: seq<FamilyRef>, fam: FamilyRef)
    requires Isolated(output) && fam.flex != fam.included
    requires forall k :: 0 <= k < |output| ==>
      && output[k].flex != fam.flex && output[k].flex != fam.included
      && output[k].included != fam.flex && output[k].included != fam.included
    ensures Isolated(output + [fam])
  {
  }

  lemma AppendShows(output: seq<FamilyRef>, items: seq<Family>, fam: FamilyRef)
    requires Shows(output, items)
    ensures Shows(output + [fam], items + [fam.Value()])
  {
  }

  lemma MembersStep(base: Family, ineq: set<string>, cs: set<string>, c: string)
    ensures Members(base, ineq, cs + {c}) == Members(base, ineq, cs) + {Member(base, ineq, c)}
  {
  }

  // ----- what the expansion is worth -----

  /** How many families: none without a usable condition, one with equalities only, and otherwise
      one for every inequality column. */
  lemma ExpansionSize(q: Query)
    ensures var eq, ineq := Columns(q.eq), Columns(q.ineq);
      |Expand(q)| == if ineq == {} then (if eq == {} then 0 else 1) else |ineq|
  {
    var ineq := Columns(q.ineq);
    if ineq != {} {
      MembersSize(Family(q.table, [], Columns(q.eq), "", Columns(q.other)), ineq, ineq);
    }
  }

  lemma {:induction false} MembersSize(base: Family, ineq: set<string>, cs: set<string>)
    ensures |Members(base, ineq, cs)| == |cs|
    decreases |cs|
  {
    if cs != {} {
      var c :| c in cs;
      MembersSize(base, ineq, cs - {c});
      assert cs == cs - {c} + {c};
      MembersStep(base, ineq, cs - {c}, c);
      assert Member(base, ineq, c) !in Members(base, ineq, cs - {c}) by {
        assert forall d :: Member(base, ineq, d).last == d;
      }
    }
  }

  ghost predicate InjectiveHash(hash: Family -> string, fs: set<Family>) {
    forall f, g | f in fs && g in fs && hash(f) == hash(g) :: f == g
  }

  lemma FaithfulHashSet(hash: Family -> string, items: seq<Family>, fs: set<Family>)
    requires HashSetOf(hash, items, fs) && InjectiveHash(hash, fs)
    ensures Elems(items) == fs
  {
    forall f | f in fs ensures f in Elems(items) {
      assert hash(f) in Hashes(hash, fs);
    }
  }

  /** With clean names the deduplication by key loses nothing: the output is the expansion. */
  lemma CleanExpansionIsExact(items: seq<Family>, q: Query)
    requires CleanQuery(q) && HashSetOf(FamilyHash, items, Expand(q))
    ensures Elems(items) == Expand(q)
  {
    forall f, g | f in Expand(q) && g in Expand(q) && FamilyHash(f) == FamilyHash(g)
      ensures f == g
    {
      CleanMember(q, f);
      CleanMember(q, g);
      FamilyHashIsFaithful(f, g);
    }
    FaithfulHashSet(FamilyHash, items, Expand(q));
  }

  lemma CleanMember(q: Query, f: Family)
    requires CleanQuery(q) && f in Expand(q)
    ensures CleanFamily(f)
  {
  }

  /** Every column the query mentions. */
  function Mentioned(q: Query): set<string> {
    Columns(q.eq) + Columns(q.ineq) + Columns(q.other)
  }

  /** What the query needs of an index, said without families: the index starts with exactly the
      equality columns, in some order; an inequality column comes next when there is one; and every
      column of the query is available in the index. */
  ghost predicate LeadsQuery(i: Index, q: Query, up: string -> string) {
    var cols, eq := UpIndex(i, up).indexed, UpSet(Columns(q.eq), up);
    && up(i.table) == up(q.table)
    && |eq| <= |cols| && Orders(cols[..|eq|], eq)
    && (Columns(q.ineq) != {} ==> |eq| < |cols| && cols[|eq|] in UpSet(Columns(q.ineq), up))
    && UpSet(Mentioned(q), up) <= Elems(cols) + Elems(UpIndex(i, up).included)
  }

  lemma MemberColumns(q: Query, f: Family)
    requires "" !in Columns(q.ineq) && f in Expand(q)
    ensures AllColumns(f) == Mentioned(q)
  {
    assert Elems(f.fixed) == {};
  }

  lemma ServingLeads(i: Index, q: Query, f: Family, up: string -> string)
    requires KeepsEmpty(up) && "" !in Columns(q.ineq)
    requires f in Expand(q) && ServesFolded(i, f, up)
    ensures LeadsQuery(i, q, up)
  {
    var cols, g := UpIndex(i, up).indexed, UpFamily(f, up);
    FitsIffWindows(cols, g);
    assert cols[0..|g.flex|] == cols[..|g.flex|];
    MemberColumns(q, f);
    FoldedColumns(f, up);
  }

  lemma LeadingServes(i: Index, q: Query, up: string -> string) returns (f: Family)
    requires KeepsEmpty(up) && "" !in Columns(q.ineq) && (Columns(q.eq) != {} || Columns(q.ineq) != {})
    requires LeadsQuery(i, q, up)
    ensures f in Expand(q) && ServesFolded(i, f, up)
  {
    var base := Family(q.table, [], Columns(q.eq), "", Columns(q.other));
    f := base;
    if Columns(q.ineq) != {} {
      var c :| c in Columns(q.ineq) && up(c) == UpIndex(i, up).indexed[|UpSet(Columns(q.eq), up)|];
      f := Member(base, Columns(q.ineq), c);
    }
    LeadsMember(i, q, f, up);
  }

  lemma LeadsMember(i: Index, q: Query, f: Family, up: string -> string)
    requires KeepsEmpty(up) && "" !in Columns(q.ineq) && f in Expand(q) && LeadsQuery(i, q, up)
    requires f.last != "" ==> up(f.last) == UpIndex(i, up).indexed[|UpSet(Columns(q.eq), up)|]
    ensures ServesFolded(i, f, up)
  {
    MemberColumns(q, f);
    FoldedColumns(f, up);
    var g := UpFamily(f, up);
    assert g.fixed == [] && g.flex == UpSet(Columns(q.eq), up) && g.table == up(q.table);
    assert f.last != "" ==> Columns(q.ineq) != {};
    hide Elems, Expand, UpSet, Mentioned, AllColumns, Fits;
    LeadingColumnsFit(UpIndex(i, up).indexed, g);
  }

  lemma LeadingColumnsFit(cols: seq<string>, g: Family)
    requires g.fixed == [] && |g.flex| <= |cols| && Orders(cols[..|g.flex|], g.flex)
    requires g.last != "" ==> |g.flex| < |cols| && cols[|g.flex|] == g.last
    ensures Fits(cols, g)
  {
    assert cols[0..|g.flex|] == cols[..|g.flex|];
    FitsIffWindows(cols, g);
  }

  /** The expansion is exactly right: an index serves some member exactly when it leads the query. */
  lemma ExpansionIsRight(i: Index, q: Query, up: string -> string)
    requires KeepsEmpty(up) && "" !in Columns(q.ineq) && (Columns(q.eq) != {} || Columns(q.ineq) != {})
    ensures (exists f :: f in Expand(q) && ServesFolded(i, f, up)) <==> LeadsQuery(i, q, up)
  {
    if LeadsQuery(i, q, up) {
      var f := LeadingServes(i, q, up);
    }
    forall f | f in Expand(q) && ServesFolded(i, f, up) ensures LeadsQuery(i, q, up) {
      ServingLeads(i, q, f, up);
    }
  }

  /** An index that `Covers` accepts for any member of the expansion leads the query. */
  lemma IndexGuarantee(i: Index, q: Query, f: Family, up: string -> string)
    requires KeepsEmpty(up) && "" !in Columns(q.ineq)
    requires f in Expand(q) && CoversSpec(i, f, up)
    ensures LeadsQuery(i, q, up)
  {
    CoversServes(i, f, up);
    ServingLeads(i, q, f, up);
  }

  /** All members put their last column at the same position, so when the inequality columns stay
      distinct after folding an index covers at most one of them. */
  lemma CoverageIsUnambiguous(i: Index, q: Query, f: Family, g: Family, up: string -> string)
    requires KeepsEmpty(up) && "" !in Columns(q.ineq) && InjectiveOn(up, Columns(q.ineq))
    requires f in Expand(q) && g in Expand(q)
    requires CoversSpec(i, f, up) && CoversSpec(i, g, up)
    ensures f == g
  {
    FitsIffWindows(UpIndex(i, up).indexed, UpFamily(f, up));
    FitsIffWindows(UpIndex(i, up).indexed, UpFamily(g, up));
    if Columns(q.ineq) != {} {
      assert up(f.last) == up(g.last);
    }
  }

  /** Beyond leading the query, what `Covers` asks of an index: without inequality columns, that the
      other columns are included or trail the equality columns; with one of them in its place, that
      all the rest is included. The leading columns never count as included. */
  ghost predicate Offers(i: Index, q: Query, up: string -> string) {
    var cols, n := UpIndex(i, up).indexed, |UpSet(Columns(q.eq), up)|;
    var included := Elems(UpIndex(i, up).included);
    if Columns(q.ineq) == {} then
      UpSet(Columns(q.other), up) <= included + Elems(Trailing(cols, n))
    else
      exists c :: c in Columns(q.ineq) && n < |cols| && up(c) == cols[n]
        && UpSet(Columns(q.other) + (Columns(q.ineq) - {c}), up) <= included
  }

  /** `Covers` accepts an index for some member exactly when it leads the query and offers the rest. */
  lemma CoveringIff(i: Index, q: Query, up: string -> string)
    requires KeepsEmpty(up) && "" !in Columns(q.ineq) && (Columns(q.eq) != {} || Columns(q.ineq) != {})
    ensures (exists f :: f in Expand(q) && CoversSpec(i, f, up)) <==>
      LeadsQuery(i, q, up) && Offers(i, q, up)
  {
    forall f | f in Expand(q) && CoversSpec(i, f, up) ensures LeadsQuery(i, q, up) && Offers(i, q, up) {
      IndexGuarantee(i, q, f, up);
      CoveringOffers(i, q, f, up);
    }
    if LeadsQuery(i, q, up) && Offers(i, q, up) {
      var f := OfferingCovers(i, q, up);
    }
  }

  lemma CoveringOffers(i: Index, q: Query, f: Family, up: string -> string)
    requires KeepsEmpty(up) && "" !in Columns(q.ineq) && f in Expand(q) && CoversSpec(i, f, up)
    ensures Offers(i, q, up)
  {
    FitsIffWindows(UpIndex(i, up).indexed, UpFamily(f, up));
    if Columns(q.ineq) != {} {
      assert f.last in Columns(q.ineq);
    }
    hide Elems, Fits, Orders;
  }

  lemma OfferingCovers(i: Index, q: Query, up: string -> string) returns (f: Family)
    requires KeepsEmpty(up) && "" !in Columns(q.ineq) && (Columns(q.eq) != {} || Columns(q.ineq) != {})
    requires LeadsQuery(i, q, up) && Offers(i, q, up)
    ensures f in Expand(q) && CoversSpec(i, f, up)
  {
    var base := Family(q.table, [], Columns(q.eq), "", Columns(q.other));
    f := base;
    if Columns(q.ineq) != {} {
      var c :| c in Columns(q.ineq) && up(c) == UpIndex(i, up).indexed[|UpSet(Columns(q.eq), up)|]
        && UpSet(Columns(q.other) + (Columns(q.ineq) - {c}), up) <= Elems(UpIndex(i, up).included);
      f := Member(base, Columns(q.ineq), c);
    }
    hide Elems, Fits;
    LeadsMember(i, q, f, up);
  }

  /** So the converse of `IndexGuarantee` fails: an index on (a, b, c) leads a = 1, b > 2, c > 3, yet
      `Covers` accepts it for no member, because a forced last column makes the check look for the
      other inequality column among the included columns only. */
  lemma GuaranteeIsNotEnough(i: Index, q: Query, up: string -> string)
    requires forall s :: up(s) == s
    requires i == Index("t", ["a", "b", "c"], [])
    requires q == Query("t", Some({"a"}), Some({"b", "c"}), None)
    ensures LeadsQuery(i, q, up) && forall f | f in Expand(q) :: !CoversSpec(i, f, up)
  {
    forall f | f in Expand(q) ensures !CoversSpec(i, f, up) {
      var d := if f.last == "b" then "c" else "b";
      assert d in f.included;
      assert d in UpFamily(f, up).included;
      assert UpIndex(i, up).included == [];
    }
    UnfoldedExample(i, q, up);
  }

  /** It fails without a last column too: an index on (x) leads x != 1, x = 2, which puts x into two
      of the sets, and is not accepted, because x is neither included nor trailing. */
  lemma LeadingColumnIsNotOffered(i: Index, q: Query, x: string, up: string -> string)
    requires KeepsEmpty(up) && i == Index("t", [x], [])
    requires q == Query("t", Some({x}), Some({}), Some({x}))
    ensures LeadsQuery(i, q, up) && forall f | f in Expand(q) :: !CoversSpec(i, f, up)
  {
    var cols := UpIndex(i, up).indexed;
    assert cols == [up(x)];
    OrdersOne(up(x));
    assert UpSet({x}, up) == {up(x)} && |{up(x)}| == 1;
    assert cols[..1] == cols && Mentioned(q) == {x} && Elems(cols) == {up(x)};
    assert up(x) in UpSet(Columns(q.other), up);
    assert Trailing(cols, 1) == [] && UpIndex(i, up).included == [];
    assert !Offers(i, q, up);
    CoveringIff(i, q, up);
  }

  lemma UnfoldedExample(i: Index, q: Query, up: string -> string)
    requires forall s :: up(s) == s
    requires i == Index("t", ["a", "b", "c"], [])
    requires q == Query("t", Some({"a"}), Some({"b", "c"}), None)
    ensures LeadsQuery(i, q, up)
  {
    assert UpIndex(i, up).indexed == i.indexed;
    assert UpSet({"a"}, up) == {"a"} && UpSet({"b", "c"}, up) == {"b", "c"};
    assert UpSet(Mentioned(q), up) == {"a", "b", "c"};
    assert i.indexed[..1] == ["a"];
    OrdersOne("a");
    assert i.indexed[0] == "a" && i.indexed[1] == "b" && i.indexed[2] == "c";
  }
}
