/** When a whole plan is right: when, whatever indexes are made for what the reduction leaves, every
    family that needed one is served (usecases/indexes/aggregate_query.go:188-200). */
module PlanVerdict {
  import opened GoSets
  import opened IndexModels
  import opened Hashing
  import opened QueryExpansion
  import opened IndexPlanning
  import opened RunVerdict

  /** The families that no existing index covers, in order. */
  ghost function UncoveredOf(fams: seq<Family>, existing: seq<Index>, up: string -> string): seq<Family> {
    if fams == [] then []
    else
      var m := |fams| - 1;
      UncoveredOf(fams[..m], existing, up)
      + (if CoveredBySome(existing, fams[m], up) then [] else [fams[m]])
  }

  lemma {:induction false} UncoveredMembers(
      fams: seq<Family>, existing: seq<Index>, up: string -> string, f: Family)
    ensures f in UncoveredOf(fams, existing, up) <==> f in fams && !CoveredBySome(existing, f, up)
  {
    hide CoveredBySome;
    if fams != [] {
      var m := |fams| - 1;
      UncoveredMembers(fams[..m], existing, up, f);
      assert fams == fams[..m] + [fams[m]];
    }
  }

  /** One index for each family that no existing index covers. */
  ghost predicate ProjectsUncovered(
      created: seq<Index>, fams: seq<Family>, existing: seq<Index>, up: string -> string)
  {
    OneEach(created, UncoveredOf(fams, existing, up))
  }

  /** f is served by an existing index, or replaced by one of the families left. */
  ghost predicate Provided(f: Family, left: set<Family>, existing: seq<Index>, up: string -> string) {
    ServedBySome(existing, f, up) || Replaced(left, f, up)
  }

  ghost predicate EveryOutcomeServes(
      f: Family, left: seq<Family>, existing: seq<Index>, up: string -> string)
  {
    forall created | ProjectsUncovered(created, left, existing, up) ::
      ServedBySome(existing + created, f, up)
  }

  lemma ServedByEither(existing: seq<Index>, created: seq<Index>, f: Family, up: string -> string)
    ensures ServedBySome(existing + created, f, up) <==>
      ServedBySome(existing, f, up) || ServedBySome(created, f, up)
  {
    hide ServesFolded;
    var all := existing + created;
    assert forall k :: 0 <= k < |existing| ==> all[k] == existing[k];
    assert forall k :: 0 <= k < |created| ==> all[|existing| + k] == created[k];
    if ServedBySome(all, f, up) {
      var k :| 0 <= k < |all| && ServesFolded(all[k], f, up);
      assert k >= |existing| ==> all[k] == created[k - |existing|];
    }
  }

  /** An index that covers a replacement serves the family. */
  lemma CoveredReplacement(existing: seq<Index>, out: Family, f: Family, up: string -> string)
    requires KeepsEmpty(up) && InjectiveOn(up, AllColumns(out)) && CoveredBySome(existing, out, up)
    requires up(out.table) == up(f.table) && Replaces(out, f)
    ensures ServedBySome(existing, f, up)
  {
    hide CoversSpec, ServesFolded, Replaces, AllColumns;
    var k :| 0 <= k < |existing| && CoversSpec(existing[k], out, up);
    CoversServes(existing[k], out, up);
    ReplacementServes(existing[k], out, f, up);
  }

  /** A family is served in every outcome exactly when it is provided for. */
  lemma ProvidedIff(f: Family, left: seq<Family>, existing: seq<Index>, up: string -> string)
    requires KeepsEmpty(up) && Apart(Elems(left), f, up)
    ensures Provided(f, Elems(left), existing, up) <==> EveryOutcomeServes(f, left, existing, up)
  {
    hide CoveredBySome, ServedBySome, Replaces, OneEach, AllColumns;
    var needed := UncoveredOf(left, existing, up);
    forall out ensures out in Elems(needed) <==> out in Elems(left) && !CoveredBySome(existing, out, up) {
      UncoveredMembers(left, existing, up, out);
    }
    ChoicesServeIff(needed, f, up);
    if Replaced(Elems(left), f, up) && !Replaced(Elems(needed), f, up) {
      var out :| out in Elems(left) && up(out.table) == up(f.table) && Replaces(out, f);
      CoveredReplacement(existing, out, f, up);
    }
    OutcomesSplit(f, left, existing, up);
  }

  lemma OutcomesSplit(f: Family, left: seq<Family>, existing: seq<Index>, up: string -> string)
    ensures EveryOutcomeServes(f, left, existing, up) <==>
      ServedBySome(existing, f, up) || EveryChoiceServes(UncoveredOf(left, existing, up), f, up)
  {
    hide ServedBySome, OneEach, UncoveredOf;
    var needed := UncoveredOf(left, existing, up);
    if EveryOutcomeServes(f, left, existing, up) && !ServedBySome(existing, f, up) {
      forall created | OneEach(created, needed) ensures ServedBySome(created, f, up) {
        assert ProjectsUncovered(created, left, existing, up);
        ServedByEither(existing, created, f, up);
      }
    }
    if ServedBySome(existing, f, up) || EveryChoiceServes(needed, f, up) {
      forall created | ProjectsUncovered(created, left, existing, up)
        ensures ServedBySome(existing + created, f, up)
      {
        ServedByEither(existing, created, f, up);
      }
    }
  }

  /** A served member of an expansion has its query led. */
  lemma ServedQueryIsLed(indexes: seq<Index>, q: Query, f: Family, up: string -> string)
    requires KeepsEmpty(up) && f in Expand(q) && "" !in Columns(q.ineq) && ServedBySome(indexes, f, up)
    ensures exists k :: 0 <= k < |indexes| && LeadsQuery(indexes[k], q, up)
  {
    hide ServesFolded, LeadsQuery, Expand;
    var k :| 0 <= k < |indexes| && ServesFolded(indexes[k], f, up);
    ServingLeads(indexes[k], q, f, up);
  }
}
