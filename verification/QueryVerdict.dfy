/** When every index made for a family leads a query, although the index may have been made for other
    queries too: decided on the cuts and columns of the family. */
module QueryVerdict {
  import opened GoSets
  import opened IndexModels
  import opened Hashing
  import opened QueryExpansion
  import opened FamilyCuts
  import opened IndexPlanning
  import opened RunVerdict
  import opened PlanVerdict

  /** `LeadsQuery` on names as written: cols starts with exactly the columns eq, and one of ineq comes
      next when there are any. */
  predicate LeadsColumns(cols: seq<string>, eq: set<string>, ineq: set<string>) {
    && StartsWith(cols, multiset(eq))
    && (ineq != {} ==> |eq| < |cols| && cols[|eq|] in ineq)
  }

  /** The columns that an index for f may have at position n. */
  function ColumnsAt(f: Family, n: nat): set<string> {
    if n < |f.fixed| then {f.fixed[n]}
    else if n < |f.fixed| + |f.flex| then f.flex
    else if n == |f.fixed| + |f.flex| then f.LastSet()
    else {}
  }

  /** f prescribes the equality columns as a cut, and what may follow them is one of ineq. */
  predicate Prescribes(f: Family, eq: set<string>, ineq: set<string>) {
    && multiset(eq) in Cuts(f)
    && (ineq != {} ==> ColumnsAt(f, |eq|) != {} && ColumnsAt(f, |eq|) <= ineq)
  }

  // ----- names as written -----

  lemma LeadingStarts(f: Family, q: seq<string>, m: multiset<string>)
    requires Orders(q, f.flex) && m in Cuts(f)
    ensures StartsWith(f.Leading(q), m)
  {
    hide Cuts, StartsWith;
    LeadingFits(f, q);
    FitsIffCuts(f.Leading(q), f);
  }

  /** Outside the flexible columns cuts end only where they should. */
  lemma CutSize(f: Family, m: multiset<string>)
    requires m in Cuts(f)
    ensures |m| <= |f.fixed| || |m| == |f.fixed| + |f.flex| || |m| == f.Size()
  {
    BagSize(f.fixed);
    assert |multiset(f.flex)| == |f.flex| && |multiset(f.LastSet())| == |f.LastSet()|;
    if k :| 0 <= k <= |f.fixed| && m == multiset(f.fixed[..k]) {
      BagSize(f.fixed[..k]);
    }
  }

  lemma ColumnAt(f: Family, q: seq<string>, n: nat)
    requires Orders(q, f.flex) && n < f.Size()
    ensures f.Leading(q)[n] in ColumnsAt(f, n)
  {
    if |f.fixed| <= n < |f.fixed| + |f.flex| {
      assert f.Leading(q)[n] == q[n - |f.fixed|];
      assert q[n - |f.fixed|] in Elems(q);
    }
  }

  /** Any column that may stand after a cut does so in some index. */
  lemma SomeColumnAt(f: Family, n: nat, x: string) returns (q: seq<string>)
    requires x in ColumnsAt(f, n) && (n <= |f.fixed| || n >= |f.fixed| + |f.flex|)
    ensures Orders(q, f.flex) && n < |f.Leading(q)| && f.Leading(q)[n] == x
  {
    if n == |f.fixed| && f.flex != {} {
      q := OrderFrom(f.flex, x);
    } else {
      q := SomeOrder(f.flex);
    }
    assert |q| == |f.flex|;
  }

  /** An index for f that does not lead the query, when f does not prescribe its columns. */
  lemma MisleadingOrder(f: Family, eq: set<string>, ineq: set<string>) returns (q: seq<string>)
    requires !Prescribes(f, eq, ineq)
    ensures Orders(q, f.flex) && !LeadsColumns(f.Leading(q), eq, ineq)
  {
    hide Cuts, StartsWith;
    var n := |eq|;
    if multiset(eq) !in Cuts(f) {
      q := MissingCut(f, multiset(eq));
    } else if ColumnsAt(f, n) == {} {
      q := SomeOrder(f.flex);
      LeadingFits(f, q);
      if n < f.Size() {
        ColumnAt(f, q, n);
      }
    } else {
      var x :| x in ColumnsAt(f, n) && x !in ineq;
      assert |multiset(eq)| == n;
      CutSize(f, multiset(eq));
      q := SomeColumnAt(f, n, x);
    }
  }

  /** Every index for f has the leading columns that the query needs exactly when f prescribes them. */
  lemma PrescribesIff(f: Family, eq: set<string>, ineq: set<string>)
    ensures Prescribes(f, eq, ineq) <==>
      forall q | Orders(q, f.flex) :: LeadsColumns(f.Leading(q), eq, ineq)
  {
    if Prescribes(f, eq, ineq) {
      forall q | Orders(q, f.flex) ensures LeadsColumns(f.Leading(q), eq, ineq) {
        PrescribedLeads(f, eq, ineq, q);
      }
    } else {
      var q := MisleadingOrder(f, eq, ineq);
    }
  }

  lemma PrescribedLeads(f: Family, eq: set<string>, ineq: set<string>, q: seq<string>)
    requires Prescribes(f, eq, ineq) && Orders(q, f.flex)
    ensures LeadsColumns(f.Leading(q), eq, ineq)
  {
    hide Cuts, StartsWith;
    LeadingStarts(f, q, multiset(eq));
    LeadingFits(f, q);
    if ineq != {} {
      assert |eq| < f.Size();
      ColumnAt(f, q, |eq|);
    }
  }

  // ----- folded names -----

  lemma UnfoldOrders(w: seq<string>, s: set<string>, up: string -> string)
    requires InjectiveOn(up, Elems(w) + s)
    ensures Orders(MapSlice(w, up), UpSet(s, up)) <==> Orders(w, s)
  {
    UpElems(w, up);
    UpSetSize(s, up);
    hide Elems;
    if Orders(MapSlice(w, up), UpSet(s, up)) {
      UnfoldSubset(Elems(w), s, up);
      UnfoldSubset(s, Elems(w), up);
    }
  }

  lemma StartsIffOrders(cols: seq<string>, s: set<string>)
    ensures StartsWith(cols, multiset(s)) <==> |s| <= |cols| && Orders(cols[..|s|], s)
  {
    assert |multiset(s)| == |s|;
    if |s| <= |cols| {
      OrdersIffBag(cols[..|s|], s);
    }
  }

  lemma MapPrefix(c: seq<string>, n: nat, up: string -> string)
    requires n <= |c|
    ensures MapSlice(c, up)[..n] == MapSlice(c[..n], up)
  {
  }

  lemma UnfoldStarts(c: seq<string>, eq: set<string>, up: string -> string)
    requires InjectiveOn(up, Elems(c) + eq)
    ensures StartsWith(c, multiset(eq)) <==> StartsWith(MapSlice(c, up), multiset(UpSet(eq, up)))
    ensures |UpSet(eq, up)| == |eq|
  {
    StartsIffOrders(c, eq);
    StartsIffOrders(MapSlice(c, up), UpSet(eq, up));
    UpSetSize(eq, up);
    if |eq| <= |c| {
      assert Elems(c[..|eq|]) <= Elems(c);
      hide Elems, StartsWith, Orders;
      MapPrefix(c, |eq|, up);
      UnfoldOrders(c[..|eq|], eq, up);
    }
  }

  lemma UnfoldNext(c: seq<string>, n: nat, ineq: set<string>, up: string -> string)
    requires n < |c| && InjectiveOn(up, Elems(c) + ineq)
    ensures MapSlice(c, up)[n] in UpSet(ineq, up) <==> c[n] in ineq
  {
    assert c[n] in Elems(c);
    UnfoldMember(c[n], ineq, up);
  }

  lemma UpSetEmpty(s: set<string>, up: string -> string)
    ensures UpSet(s, up) == {} <==> s == {}
  {
    if x :| x in s {
      assert up(x) in UpSet(s, up);
    }
  }

  lemma UnfoldColumns(c: seq<string>, eq: set<string>, ineq: set<string>, up: string -> string)
    requires InjectiveOn(up, Elems(c) + eq + ineq)
    ensures LeadsColumns(c, eq, ineq) <==> LeadsColumns(MapSlice(c, up), UpSet(eq, up), UpSet(ineq, up))
  {
    hide StartsWith, Elems, UpSet;
    UnfoldStarts(c, eq, up);
    UpSetEmpty(ineq, up);
    if |eq| < |c| {
      UnfoldNext(c, |eq|, ineq, up);
    }
  }

  lemma UnfoldMember(x: string, s: set<string>, up: string -> string)
    requires InjectiveOn(up, {x} + s)
    ensures up(x) in UpSet(s, up) <==> x in s
  {
  }

  lemma LeadsIffColumns(i: Index, q: Query, up: string -> string)
    ensures LeadsQuery(i, q, up) <==>
      && up(i.table) == up(q.table)
      && LeadsColumns(UpIndex(i, up).indexed, UpSet(Columns(q.eq), up), UpSet(Columns(q.ineq), up))
      && UpSet(Mentioned(q), up) <= Elems(UpIndex(i, up).indexed) + Elems(UpIndex(i, up).included)
  {
    StartsIffOrders(UpIndex(i, up).indexed, UpSet(Columns(q.eq), up));
    UpSetEmpty(Columns(q.ineq), up);
    hide StartsWith, Orders, Elems, UpSet;
  }

  // ----- one family, one query -----

  /** Every index for out leads q: by the cuts and columns of out. */
  predicate Guides(out: Family, q: Query) {
    Prescribes(out, Columns(q.eq), Columns(q.ineq)) && Mentioned(q) <= AllColumns(out)
  }

  ghost predicate AlwaysLeads(out: Family, q: Query, up: string -> string) {
    forall i | Projects(i, out) :: LeadsQuery(i, q, up)
  }

  lemma MentionedParts(q: Query)
    ensures Columns(q.eq) <= Mentioned(q) && Columns(q.ineq) <= Mentioned(q)
  {
  }

  /** An index with known columns leads q, on folded names, exactly when it does as written. */
  lemma LeadsAsWritten(i: Index, q: Query, all: set<string>, up: string -> string)
    requires Elems(i.indexed) + Elems(i.included) == all && InjectiveOn(up, all + Mentioned(q))
    ensures LeadsQuery(i, q, up) <==>
      && up(i.table) == up(q.table)
      && LeadsColumns(i.indexed, Columns(q.eq), Columns(q.ineq)) && Mentioned(q) <= all
  {
    hide Mentioned, LeadsColumns, LeadsQuery, Elems;
    LeadsIffColumns(i, q, up);
    MentionedParts(q);
    UnfoldColumns(i.indexed, Columns(q.eq), Columns(q.ineq), up);
    UpElems(i.indexed, up);
    UpElems(i.included, up);
    assert UpSet(all, up) == UpSet(Elems(i.indexed), up) + UpSet(Elems(i.included), up);
    if UpSet(Mentioned(q), up) <= UpSet(all, up) {
      UnfoldSubset(Mentioned(q), all, up);
    }
  }

  lemma ProjectionColumns(i: Index, out: Family) returns (p: seq<string>)
    requires Projects(i, out)
    ensures Orders(p, out.flex) && i.indexed == out.Leading(p)
    ensures Elems(i.indexed) + Elems(i.included) == AllColumns(out)
  {
    p :| Orders(p, out.flex) && i.indexed == out.Leading(p);
    LeadingElems(out, p);
  }

  lemma GuidesIff(out: Family, q: Query, up: string -> string)
    requires up(out.table) == up(q.table) ==> InjectiveOn(up, AllColumns(out) + Mentioned(q))
    ensures AlwaysLeads(out, q, up) <==> up(out.table) == up(q.table) && Guides(out, q)
  {
    hide LeadsQuery, Prescribes, LeadsColumns, AllColumns, Mentioned;
    if up(out.table) == up(q.table) && Guides(out, q) {
      forall i | Projects(i, out) ensures LeadsQuery(i, q, up) {
        var p := ProjectionColumns(i, out);
        PrescribesIff(out, Columns(q.eq), Columns(q.ineq));
        LeadsAsWritten(i, q, AllColumns(out), up);
      }
    } else {
      var i := MisleadingProjection(out, q, up);
    }
  }

  /** An index for out that does not lead q, when out cannot guide it. */
  lemma MisleadingProjection(out: Family, q: Query, up: string -> string) returns (i: Index)
    requires !(up(out.table) == up(q.table) && Guides(out, q))
    requires up(out.table) == up(q.table) ==> InjectiveOn(up, AllColumns(out) + Mentioned(q))
    ensures Projects(i, out) && !LeadsQuery(i, q, up)
  {
    hide Prescribes, LeadsColumns, AllColumns, Mentioned, LeadsQuery;
    var p := SomeOrder(out.flex);
    if !Prescribes(out, Columns(q.eq), Columns(q.ineq)) {
      p := MisleadingOrder(out, Columns(q.eq), Columns(q.ineq));
    }
    i := Projection(out, p);
    assert i.table == out.table;
    if up(out.table) == up(q.table) {
      LeadsAsWritten(i, q, AllColumns(out), up);
    } else {
      LeadsIffColumns(i, q, up);
    }
  }

  // ----- existing indexes -----

  ghost predicate LedBySome(indexes: seq<Index>, q: Query, up: string -> string) {
    exists k :: 0 <= k < |indexes| && LeadsQuery(indexes[k], q, up)
  }

  /** An index that covers a family which guides q leads q. */
  lemma CoveringGuide(i: Index, out: Family, q: Query, up: string -> string)
    requires KeepsEmpty(up) && InjectiveOn(up, AllColumns(out) + Mentioned(q))
    requires up(out.table) == up(q.table) && Guides(out, q) && CoversSpec(i, out, up)
    ensures LeadsQuery(i, q, up)
  {
    CoversServes(i, out, up);
    hide Prescribes, LeadsColumns, Mentioned, LeadsQuery;
    var d, g := UpIndex(i, up).indexed, UpFamily(out, up);
    var p :| Orders(p, g.flex) && g.Leading(p) <= d;
    assert out.flex <= AllColumns(out);
    var o := UnfoldOrder(p, out.flex, up);
    var c := out.Leading(o);
    FoldLeading(out, o, up);
    LeadingElems(out, o);
    assert Elems(c) <= AllColumns(out);
    FoldedColumns(out, up);
    LongerLeads(c, d, i, out, q, up);
  }

  lemma LongerLeads(c: seq<string>, d: seq<string>, i: Index, out: Family, q: Query, up: string -> string)
    requires d == UpIndex(i, up).indexed && MapSlice(c, up) <= d
    requires Elems(c) <= AllColumns(out) && InjectiveOn(up, AllColumns(out) + Mentioned(q))
    requires exists o :: Orders(o, out.flex) && c == out.Leading(o)
    requires up(i.table) == up(out.table) == up(q.table) && Guides(out, q)
    requires UpSet(AllColumns(out), up) <= Elems(d) + Elems(UpIndex(i, up).included)
    ensures LeadsQuery(i, q, up)
  {
    hide Prescribes, Mentioned, Elems, StartsWith, AllColumns, LeadsQuery;
    var o :| Orders(o, out.flex) && c == out.Leading(o);
    PrescribesIff(out, Columns(q.eq), Columns(q.ineq));
    MentionedParts(q);
    UnfoldColumns(c, Columns(q.eq), Columns(q.ineq), up);
    PrefixLeads(MapSlice(c, up), d, UpSet(Columns(q.eq), up), UpSet(Columns(q.ineq), up));
    hide LeadsColumns;
    LeadsIffColumns(i, q, up);
    assert UpSet(Mentioned(q), up) <= UpSet(AllColumns(out), up);
  }

  lemma PrefixLeads(c: seq<string>, d: seq<string>, eq: set<string>, ineq: set<string>)
    requires c <= d && LeadsColumns(c, eq, ineq)
    ensures LeadsColumns(d, eq, ineq)
  {
    var n := |multiset(eq)|;
    assert n == |eq|;
    assert d[..n] == c[..n];
  }

  // ----- what comes out of a plan -----

  /** One of the families guides q, on its folded table. */
  predicate Guided(fs: set<Family>, q: Query, up: string -> string) {
    exists out :: out in fs && up(out.table) == up(q.table) && Guides(out, q)
  }

  /** Folding keeps the columns of q and of each of fs on its table apart. */
  ghost predicate QueryApart(fs: set<Family>, q: Query, up: string -> string) {
    forall out | out in fs && up(out.table) == up(q.table) ::
      InjectiveOn(up, AllColumns(out) + Mentioned(q))
  }

  /** When no family guides q, indexes can be made for all of them that do not lead it. */
  lemma {:induction false} MisleadingProjections(fs: seq<Family>, q: Query, up: string -> string)
    returns (created: seq<Index>)
    requires QueryApart(Elems(fs), q, up) && !Guided(Elems(fs), q, up)
    ensures OneEach(created, fs) && !LedBySome(created, q, up)
  {
    hide Guides, AllColumns, Mentioned, Projects, LeadsQuery;
    created := [];
    if fs != [] {
      var m := |fs| - 1;
      assert fs == fs[..m] + [fs[m]] && fs[m] in Elems(fs);
      ElemsConcat(fs[..m], [fs[m]]);
      var before := MisleadingProjections(fs[..m], q, up);
      var i := MisleadingProjection(fs[m], q, up);
      created := before + [i];
    }
  }

  lemma GuideIsMade(created: seq<Index>, fs: seq<Family>, q: Query, up: string -> string)
    requires QueryApart(Elems(fs), q, up) && Guided(Elems(fs), q, up) && OneEach(created, fs)
    ensures LedBySome(created, q, up)
  {
    hide Guides, AllColumns, Mentioned, Projects, LeadsQuery;
    var out :| out in Elems(fs) && up(out.table) == up(q.table) && Guides(out, q);
    GuidesIff(out, q, up);
    var j :| 0 <= j < |fs| && fs[j] == out;
    assert Projects(created[j], fs[j]);
  }

  lemma LedByEither(existing: seq<Index>, created: seq<Index>, q: Query, up: string -> string)
    ensures LedBySome(existing + created, q, up) <==>
      LedBySome(existing, q, up) || LedBySome(created, q, up)
  {
    hide LeadsQuery;
    var all := existing + created;
    assert forall k :: 0 <= k < |existing| ==> all[k] == existing[k];
    assert forall k :: 0 <= k < |created| ==> all[|existing| + k] == created[k];
    if LedBySome(all, q, up) {
      var k :| 0 <= k < |all| && LeadsQuery(all[k], q, up);
      assert k >= |existing| ==> all[k] == created[k - |existing|];
    }
  }

  /** q is led by an existing index, or guided by one of the families left. */
  ghost predicate QueryProvided(
      q: Query, left: set<Family>, existing: seq<Index>, up: string -> string)
  {
    LedBySome(existing, q, up) || Guided(left, q, up)
  }

  ghost predicate EveryOutcomeLeads(
      q: Query, left: seq<Family>, existing: seq<Index>, up: string -> string)
  {
    forall created | ProjectsUncovered(created, left, existing, up) ::
      LedBySome(existing + created, q, up)
  }

  /** A query is led in every outcome exactly when it is provided for. */
  lemma QueryProvidedIff(q: Query, left: seq<Family>, existing: seq<Index>, up: string -> string)
    requires KeepsEmpty(up) && QueryApart(Elems(left), q, up)
    ensures QueryProvided(q, Elems(left), existing, up) <==> EveryOutcomeLeads(q, left, existing, up)
  {
    hide CoveredBySome, Guides, AllColumns, Mentioned, LedBySome, OneEach;
    var needed := UncoveredOf(left, existing, up);
    forall out ensures out in Elems(needed) <==> out in Elems(left) && !CoveredBySome(existing, out, up) {
      UncoveredMembers(left, existing, up, out);
    }
    if QueryProvided(q, Elems(left), existing, up) {
      if Guided(Elems(left), q, up) && !Guided(Elems(needed), q, up) {
        var out :| out in Elems(left) && up(out.table) == up(q.table) && Guides(out, q);
        CoveredGuide(existing, out, q, up);
      }
      forall created | ProjectsUncovered(created, left, existing, up)
        ensures LedBySome(existing + created, q, up)
      {
        LedByEither(existing, created, q, up);
        if Guided(Elems(needed), q, up) {
          GuideIsMade(created, needed, q, up);
        }
      }
    } else {
      assert !Guided(Elems(needed), q, up);
      var created := MisleadingProjections(needed, q, up);
      LedByEither(existing, created, q, up);
      assert ProjectsUncovered(created, left, existing, up);
    }
  }

  lemma CoveredGuide(existing: seq<Index>, out: Family, q: Query, up: string -> string)
    requires KeepsEmpty(up) && InjectiveOn(up, AllColumns(out) + Mentioned(q))
    requires up(out.table) == up(q.table) && Guides(out, q) && CoveredBySome(existing, out, up)
    ensures LedBySome(existing, q, up)
  {
    hide CoversSpec, Guides, AllColumns, Mentioned, LeadsQuery;
    var k :| 0 <= k < |existing| && CoversSpec(existing[k], out, up);
    CoveringGuide(existing[k], out, q, up);
  }

  /** Replacing a member of its expansion is one way to guide a query, but not the only one: see
      `MemberIsLostQueryIsLed`. */
  lemma ReplacementGuides(out: Family, q: Query, f: Family)
    requires f in Expand(q) && "" !in Columns(q.ineq) && Replaces(out, f)
    ensures Guides(out, q)
  {
    MemberColumns(q, f);
    CutsDecide(out, f);
    hide Cuts, Replaces, AllColumns, Mentioned, StartsWith;
    forall o | Orders(o, out.flex) ensures LeadsColumns(out.Leading(o), Columns(q.eq), Columns(q.ineq)) {
      LeadingFits(out, o);
      MemberLeads(out.Leading(o), q, f);
    }
    PrescribesIff(out, Columns(q.eq), Columns(q.ineq));
  }

  lemma MemberLeads(c: seq<string>, q: Query, f: Family)
    requires f in Expand(q) && "" !in Columns(q.ineq) && Fits(c, f)
    ensures LeadsColumns(c, Columns(q.eq), Columns(q.ineq))
  {
    FitsIffWindows(c, f);
    assert c[0..|f.flex|] == c[..|f.flex|];
    StartsIffOrders(c, Columns(q.eq));
    hide StartsWith, Orders, Fits;
  }
}
