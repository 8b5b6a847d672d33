/** Merging two index families into one (usecases/indexes/index_family.go): when the merge is right
    to refuse, when it is right to accept, and when every index built for the merged family serves
    both. */
module FamilyMerging {
  import opened Wrappers
  import opened GoSets
  import opened Sorting
  import opened IndexModels

  // ----- the operations of IndexFamily it uses -----

  function SetLast(f: Family, last: string): Family {
    if last == "" then f.(last := "")
    else if f.flex == {} then f.(last := "", fixed := f.fixed + [last])
    else f.(last := last)
  }

  function MergeIncluded(f: Family, g: Family): Family {
    f.(included := f.included + g.included - f.AllIndexed())
  }

  /** The table name is not carried over. */
  function RemoveFixedPrefix(f: Family, prefix: seq<string>): Family {
    if prefix <= f.fixed then Family("", f.fixed[|prefix|..], f.flex, f.last, f.included)
    else Family("", [], {}, "", {})
  }

  /** The table name is not carried over. */
  function PrependPrefix(f: Family, prefix: seq<string>): Family {
    Family("", prefix + f.fixed, f.flex, f.last, f.included)
  }

  // ----- refineIdxFamilies -----

  function Refine(left: Family, right: Family): Option<Family>
    decreases |left.fixed|
  {
    var n := if |left.fixed| < |right.fixed| then |left.fixed| else |right.fixed|;
    var prefix := left.fixed[..n];
    if n > 0 then
      if prefix != right.fixed[..n] then None
      else
        match Refine(RemoveFixedPrefix(left, prefix), RemoveFixedPrefix(right, prefix))
        case None => None
        case Some(out) => Some(PrependPrefix(out, prefix))
    else if right.fixed == [] then RefineNoFixed(right, left)
    else RefineNoFixed(left, right)
  }

  /** `refineIdxFamiliesFirstHasNoFixed`: A has no fixed columns. */
  function RefineNoFixed(A: Family, B: Family): Option<Family> {
    if A.Size() > B.Size() then RefineLonger(A, B)
    else if A.Size() == B.Size() then RefineEqual(A, B)
    else RefineShorter(A, B)
  }

  /** The columns a merge with a longer A pins down. */
  function Pinned(B: Family): seq<string> {
    if B.last == "" then B.fixed else B.fixed + SortedOf(B.flex) + [B.last]
  }

  /** The columns a merge with a shorter A pins down. */
  function PinnedShorter(A: Family, B: Family): seq<string> {
    B.fixed + SortedOf(B.flex * A.flex) + [A.last]
  }

  function RefineLonger(A: Family, B: Family): Option<Family>
    requires A.Size() > B.Size()
  {
    if !(B.AllIndexed() <= A.AllIndexed()) then None
    else if B.last != "" && B.last == A.last then None
    else
      var out := B.(fixed := Pinned(B), flex := A.flex - Elems(Pinned(B)));
      Some(MergeIncluded(SetLast(out, A.last), A))
  }

  function RefineEqual(A: Family, B: Family): Option<Family>
    requires A.Size() == B.Size()
  {
    if A.AllIndexed() != B.AllIndexed() then None
    else if B.last != "" then
      if A.last != "" && A.last != B.last then None else Some(MergeIncluded(B, A))
    else if A.last == "" then Some(MergeIncluded(B, A))
    else if B.flex == {} then
      if A.last != B.fixed[|B.fixed| - 1] then None else Some(MergeIncluded(B, A))
    else if A.last !in B.flex then None
    else Some(MergeIncluded(SetLast(B.(flex := B.flex - {A.last}), A.last), A))
  }

  function RefineShorter(A: Family, B: Family): Option<Family>
    requires A.Size() < B.Size()
  {
    if !(A.AllIndexed() <= B.AllIndexed()) then None
    else if A.Size() <= |B.fixed| then
      if A.last == "" then
        if A.flex == Elems(B.fixed[..A.Size()]) then
          Some(MergeIncluded(B.(flex := B.flex - Elems(B.fixed[..A.Size()])), A))
        else None
      else if B.fixed[A.Size() - 1] != A.last then None
      else Some(MergeIncluded(B, A))
    else if !(Elems(B.fixed) <= A.flex) then None
    else if A.last == "" then Some(MergeIncluded(B, A))
    else if A.last !in B.flex then None
    else
      var out := B.(
        fixed := PinnedShorter(A, B), flex := B.flex - Elems(PinnedShorter(A, B)));
      Some(MergeIncluded(if out.flex == {} then SetLast(out, B.last) else out, A))
  }

  // ----- what a merge should achieve -----

  /** No column occurs twice among the indexed columns. */
  predicate WellFormed(f: Family) {
    |f.AllIndexed()| == f.Size()
  }

  /** Some list of index columns fits both families. */
  ghost predicate Compatible(A: Family, B: Family) {
    exists c :: Fits(c, A) && Fits(c, B)
  }

  /** Every list of index columns that fits out fits both families. */
  ghost predicate ServesBoth(out: Family, A: Family, B: Family) {
    forall c :: Fits(c, out) ==> Fits(c, A) && Fits(c, B)
  }

  lemma WellFormedParts(f: Family)
    requires WellFormed(f)
    ensures Orders(f.fixed, Elems(f.fixed)) && Elems(f.fixed) !! f.flex
    ensures Elems(f.fixed) + f.flex !! f.LastSet()
  {
    ElemsSize(f.fixed);
    UnionSize(Elems(f.fixed), f.flex);
    UnionSize(Elems(f.fixed) + f.flex, f.LastSet());
  }

  lemma NoFixedColumns(A: Family)
    requires A.fixed == [] && WellFormed(A)
    ensures A.AllIndexed() == A.flex + A.LastSet() && A.flex !! A.LastSet()
    ensures A.Size() == |A.flex| + |Tail(A.last)|
  {
    WellFormedParts(A);
  }

  function Tail(last: string): seq<string> {
    if last == "" then [] else [last]
  }

  /** Exhibiting an order. */
  lemma FitsBy(c: seq<string>, f: Family, p: seq<string>)
    requires Orders(p, f.flex) && f.fixed + p + Tail(f.last) <= c
    ensures Fits(c, f)
  {
    assert f.Leading(p) <= c;
  }

  // ----- refusals are right -----

  /** The shorter of two families that fit one index has its columns among those of the longer. */
  lemma FittingFamiliesNest(c: seq<string>, A: Family, B: Family)
    requires Fits(c, A) && Fits(c, B) && A.Size() <= B.Size()
    ensures A.AllIndexed() <= B.AllIndexed()
  {
    FitsContains(c, A);
    FitsContains(c, B);
    assert c[..A.Size()] == c[..B.Size()][..A.Size()];
    assert forall x :: x in c[..A.Size()] ==> x in c[..B.Size()];
  }

  /** The last column of the longer family cannot be one of the shorter. */
  lemma LastComesLater(c: seq<string>, A: Family, B: Family)
    requires WellFormed(B) && Fits(c, A) && Fits(c, B) && A.Size() < B.Size() && B.last != ""
    ensures B.last !in A.AllIndexed()
  {
    FitsContains(c, A);
    FitsContains(c, B);
    FitsIffWindows(c, B);
    var lead := c[..B.Size()];
    OrdersNoDup(lead, B.AllIndexed());
    forall k | 0 <= k < A.Size() ensures c[..A.Size()][k] != B.last {
      assert lead[k] != lead[B.Size() - 1];
    }
  }

  lemma NoFixedWindow(c: seq<string>, A: Family)
    requires A.fixed == [] && Fits(c, A)
    ensures A.Size() <= |c| && Orders(c[..|A.flex|], A.flex)
    ensures A.last != "" ==> c[|A.flex|] == A.last
  {
    FitsIffWindows(c, A);
    assert c[0..|A.flex|] == c[..|A.flex|];
  }

  lemma FixedWindow(c: seq<string>, B: Family)
    requires Fits(c, B)
    ensures B.Size() <= |c| && B.fixed == c[..|B.fixed|]
  {
    FitsIffWindows(c, B);
  }

  /** Where the last indexed column of a family comes from. */
  lemma EndColumn(c: seq<string>, B: Family)
    requires Fits(c, B) && B.Size() > 0
    ensures B.Size() <= |c|
    ensures var x := c[B.Size() - 1];
      if B.last != "" then x == B.last
      else if B.flex != {} then x in B.flex
      else x == B.fixed[|B.fixed| - 1]
  {
    FitsIffWindows(c, B);
    if B.last == "" && B.flex != {} {
      var w := c[|B.fixed|..B.Size()];
      assert w[|w| - 1] in Elems(w);
    }
  }

  // ----- the guards -----

  /** What has to hold, beyond the checks made, for the families to share an index at all. */
  predicate ShareGuard(A: Family, B: Family) {
    if A.Size() > B.Size() then
      A.last == "" || A.last !in B.AllIndexed()
    else if A.Size() == B.Size() then true
    else
      && (B.last == "" || B.last !in A.AllIndexed())
      && (A.Size() <= |B.fixed| && A.last != "" ==> A.flex == Elems(B.fixed[..A.Size() - 1]))
  }

  /** What has to hold, beyond that, for the order left open in the merged family not to matter. */
  predicate OrderGuard(A: Family, B: Family) {
    if A.Size() > B.Size() then
      B.last != "" || B.flex == {} || B.AllIndexed() == A.flex
    else
      A.Size() == B.Size() || A.Size() <= |B.fixed| || A.last != "" || A.flex == Elems(B.fixed) + B.flex
  }

  lemma CompatibleLonger(A: Family, B: Family, c: seq<string>)
    requires A.fixed == [] && WellFormed(A) && WellFormed(B) && A.Size() > B.Size()
    requires Fits(c, A) && Fits(c, B)
    ensures RefineLonger(A, B).Some? && ShareGuard(A, B)
  {
    FittingFamiliesNest(c, B, A);
    if A.last != "" {
      LastComesLater(c, B, A);
    }
  }

  lemma CompatibleEqual(A: Family, B: Family, c: seq<string>)
    requires A.fixed == [] && WellFormed(A) && WellFormed(B) && A.Size() == B.Size()
    requires Fits(c, A) && Fits(c, B)
    ensures RefineEqual(A, B).Some?
  {
    FittingFamiliesNest(c, A, B);
    FittingFamiliesNest(c, B, A);
    if A.last != "" {
      EndColumn(c, A);
      EndColumn(c, B);
    }
  }

  lemma CompatibleShorter(A: Family, B: Family, c: seq<string>)
    requires A.fixed == [] && WellFormed(A) && WellFormed(B) && A.Size() < B.Size()
    requires Fits(c, A) && Fits(c, B)
    ensures RefineShorter(A, B).Some? && ShareGuard(A, B)
  {
    hide Elems, WellFormed, Fits, PinnedShorter;
    FittingFamiliesNest(c, A, B);
    if B.last != "" {
      LastComesLater(c, A, B);
    }
    NoFixedWindow(c, A);
    FixedWindow(c, B);
    WellFormedParts(A);
    ShorterWindow(c, A, B);
  }

  lemma ShorterWindow(c: seq<string>, A: Family, B: Family)
    requires A.fixed == [] && A.Size() <= |c| && Elems(c[..|A.flex|]) == A.flex
    requires A.last != "" ==> c[|A.flex|] == A.last
    requires |B.fixed| <= |c| && B.fixed == c[..|B.fixed|]
    ensures A.Size() <= |B.fixed| ==> A.flex == Elems(B.fixed[..|A.flex|])
    ensures A.Size() <= |B.fixed| && A.last != "" ==> B.fixed[|A.flex|] == A.last
    ensures A.Size() > |B.fixed| ==> Elems(B.fixed) <= A.flex
  {
    var n := |A.flex|;
    if A.Size() <= |B.fixed| {
      assert B.fixed[..n] == c[..n];
    } else {
      assert B.fixed == c[..n][..|B.fixed|];
    }
  }

  // ----- accepted merges whose guards hold -----

  lemma FitsNoFixed(c: seq<string>, A: Family, p: seq<string>)
    requires A.fixed == [] && Orders(p, A.flex) && p + Tail(A.last) <= c
    ensures Fits(c, A)
  {
    assert [] + p == p;
    FitsBy(c, A, p);
  }

  lemma PrefixOfGroups<T>(a: seq<T>, m: seq<T>, t: seq<T>, r: seq<T>, z: seq<T>)
    ensures a + m + t + r + z == a + (m + t + r) + z
    ensures a + m + t <= a + (m + t + r) + z
  {
    assert a + (m + t + r) + z == a + m + t + (r + z);
  }

  lemma PrefixTransitive<T>(a: seq<T>, z: seq<T>, c: seq<T>)
    requires a + z <= c
    ensures a <= c
  {
  }

  /** A set listed in two parts. */
  lemma OrdersRest<T>(p: seq<T>, s: set<T>, q: seq<T>, u: set<T>)
    requires Orders(p, s) && s <= u && Orders(q, u - s)
    ensures Orders(p + q, u)
  {
    OrdersConcat(p, s, q, u - s);
    assert s + (u - s) == u;
  }

  lemma OrdersTail(last: string)
    ensures Orders(Tail(last), if last == "" then {} else {last})
  {
    OrdersOne(last);
  }

  lemma LongerIsCompatible(A: Family, B: Family)
    requires A.fixed == [] && WellFormed(A) && WellFormed(B) && A.Size() > B.Size()
    requires B.AllIndexed() <= A.AllIndexed() && (A.last == "" || A.last !in B.AllIndexed())
    ensures Compatible(A, B)
  {
    NoFixedColumns(A);
    var pB, all := SortedOf(B.flex), B.AllIndexed();
    LeadingElems(B, pB);
    ExtendedFits(A, B, pB, all, SortedOf(A.flex - all));
  }

  lemma ExtendedFits(A: Family, B: Family, pB: seq<string>, all: set<string>, rest: seq<string>)
    requires A.fixed == [] && Orders(pB, B.flex) && Orders(B.Leading(pB), all)
    requires all <= A.flex && Orders(rest, A.flex - all)
    ensures Compatible(A, B)
  {
    hide Elems;
    var lead := B.Leading(pB);
    OrdersRest(lead, all, rest, A.flex);
    var c := lead + rest + Tail(A.last);
    FitsNoFixed(c, A, lead + rest);
    PrefixTransitive(lead + rest, Tail(A.last), c);
    FitsBy(c, B, pB);
  }

  /** The flexible columns x, listed as those among a that are not fixed, then l, then the others. */
  lemma ThreeParts<T>(
      f: set<T>, x: set<T>, a: set<T>, l: set<T>,
      fixed: seq<T>, mid: seq<T>, tail: seq<T>, rest: seq<T>)
    requires f <= a <= f + x && f !! x && l <= x && l !! a
    requires Orders(fixed, f) && Orders(mid, a - f) && Orders(tail, l) && Orders(rest, x - a - l)
    ensures Orders(fixed + mid, a) && Orders(mid + tail + rest, x)
  {
    hide Elems;
    OrdersRest(fixed, f, mid, a);
    OrdersConcat(mid, a - f, tail, l);
    assert x - a - l == x - ((a - f) + l);
    OrdersRest(mid + tail, (a - f) + l, rest, x);
  }

  /** What an accepted merge with a longer B has established. */
  predicate Nested(A: Family, B: Family) {
    && A.fixed == [] && WellFormed(A) && WellFormed(B) && A.Size() < B.Size()
    && A.flex <= Elems(B.fixed) + B.flex && Elems(B.fixed) <= A.flex && A.LastSet() <= B.flex
  }

  lemma ShorterNests(A: Family, B: Family)
    requires A.fixed == [] && WellFormed(A) && WellFormed(B) && A.Size() < B.Size()
    requires RefineShorter(A, B).Some? && ShareGuard(A, B) && A.Size() > |B.fixed|
    ensures Nested(A, B)
  {
    NoFixedColumns(A);
    assert A.flex <= A.AllIndexed() <= B.AllIndexed();
  }

  lemma NestedParts(A: Family, B: Family, mid: seq<string>, rest: seq<string>)
    requires Nested(A, B)
    requires Orders(mid, A.flex - Elems(B.fixed)) && Orders(rest, B.flex - A.flex - A.LastSet())
    ensures Orders(B.fixed + mid, A.flex) && Orders(mid + Tail(A.last) + rest, B.flex)
  {
    NoFixedColumns(A);
    WellFormedParts(B);
    OrdersTail(A.last);
    hide Elems, Family.AllIndexed;
    ThreeParts(Elems(B.fixed), B.flex, A.flex, A.LastSet(), B.fixed, mid, Tail(A.last), rest);
  }

  lemma NestedIsCompatible(A: Family, B: Family)
    requires Nested(A, B)
    ensures Compatible(A, B)
  {
    hide Elems, Fits, Orders, SortedOf;
    var mid := SortedOf(A.flex - Elems(B.fixed));
    var rest := SortedOf(B.flex - A.flex - A.LastSet());
    NestedParts(A, B, mid, rest);
    NestedFits(A, B, mid, rest, B.fixed + mid + Tail(A.last) + rest + Tail(B.last));
  }

  lemma NestedFits(A: Family, B: Family, mid: seq<string>, rest: seq<string>, c: seq<string>)
    requires A.fixed == []
    requires Orders(B.fixed + mid, A.flex) && Orders(mid + Tail(A.last) + rest, B.flex)
    requires B.fixed + mid + Tail(A.last) + rest + Tail(B.last) <= c
    ensures Fits(c, A) && Fits(c, B)
  {
    hide Elems;
    PrefixOfGroups(B.fixed, mid, Tail(A.last), rest, Tail(B.last));
    FitsBy(c, B, mid + Tail(A.last) + rest);
    FitsNoFixed(c, A, B.fixed + mid);
  }

  /** What an accepted merge has established when the fixed columns of B reach past A. */
  predicate Within(A: Family, B: Family) {
    && A.fixed == [] && A.Size() <= |B.fixed|
    && A.flex == Elems(B.fixed[..|A.flex|]) && (A.last != "" ==> B.fixed[|A.flex|] == A.last)
  }

  lemma ShorterIsWithin(A: Family, B: Family)
    requires A.fixed == [] && A.Size() < B.Size() && A.Size() <= |B.fixed|
    requires RefineShorter(A, B).Some? && ShareGuard(A, B)
    ensures Within(A, B)
  {
  }

  /** Then every index for B serves A. */
  lemma WithinFits(A: Family, B: Family, c: seq<string>)
    requires Within(A, B) && B.fixed <= c
    ensures Fits(c, A)
  {
    var p := B.fixed[..|A.flex|];
    assert p + Tail(A.last) == B.fixed[..A.Size()];
    FitsNoFixed(c, A, p);
  }

  lemma ShorterIsCompatible(A: Family, B: Family)
    requires A.fixed == [] && WellFormed(A) && WellFormed(B) && A.Size() < B.Size()
    requires RefineShorter(A, B).Some? && ShareGuard(A, B)
    ensures Compatible(A, B)
  {
    if A.Size() <= |B.fixed| {
      ShorterIsWithin(A, B);
      var p := SortedOf(B.flex);
      WithinFits(A, B, B.Leading(p));
      FitsBy(B.Leading(p), B, p);
    } else {
      ShorterNests(A, B);
      NestedIsCompatible(A, B);
    }
  }

  // ----- every index for the merged family -----

  lemma PinnedOrders(B: Family)
    requires WellFormed(B)
    ensures Orders(Pinned(B), Elems(Pinned(B))) && Elems(Pinned(B)) <= B.AllIndexed()
    ensures B.last != "" ==> Pinned(B) == B.Leading(SortedOf(B.flex))
  {
    WellFormedParts(B);
    LeadingElems(B, SortedOf(B.flex));
  }

  lemma LongerLeading(A: Family, B: Family, q: seq<string>)
    requires A.Size() > B.Size() && RefineLonger(A, B).Some?
    ensures RefineLonger(A, B).value.flex == A.flex - Elems(Pinned(B))
    ensures Orders(q, A.flex - Elems(Pinned(B))) ==>
      RefineLonger(A, B).value.Leading(q) == Pinned(B) + q + Tail(A.last)
  {
    hide Elems, Pinned, Family.AllIndexed;
  }

  lemma LongerInstance(A: Family, B: Family, c: seq<string>) returns (q: seq<string>)
    requires A.Size() > B.Size() && RefineLonger(A, B).Some?
    requires Fits(c, RefineLonger(A, B).value)
    ensures Orders(q, A.flex - Elems(Pinned(B))) && Pinned(B) + q + Tail(A.last) <= c
  {
    hide Elems, Orders, Pinned, RefineLonger, Family.Leading;
    var out := RefineLonger(A, B).value;
    q :| Orders(q, out.flex) && out.Leading(q) <= c;
    LongerLeading(A, B, q);
  }

  lemma LongerServesBoth(A: Family, B: Family, c: seq<string>)
    requires A.fixed == [] && WellFormed(A) && WellFormed(B) && A.Size() > B.Size()
    requires B.AllIndexed() <= A.AllIndexed() && (A.last == "" || A.last !in B.AllIndexed())
    requires OrderGuard(A, B)
    requires RefineLonger(A, B).Some? && Fits(c, RefineLonger(A, B).value)
    ensures Fits(c, A) && Fits(c, B)
  {
    hide Elems, RefineLonger, SortedOf, WellFormed, Fits;
    var q := LongerInstance(A, B, c);
    NoFixedColumns(A);
    PinnedOrders(B);
    var fixed := Pinned(B);
    OrdersRest(fixed, Elems(fixed), q, A.flex);
    FitsNoFixed(c, A, fixed + q);
    PrefixTransitive(fixed + q, Tail(A.last), c);
    PrefixTransitive(fixed, q, c);
    if B.last != "" {
      FitsBy(c, B, SortedOf(B.flex));
    } else if B.flex == {} {
      OrdersTail("");
      FitsBy(c, B, []);
    } else {
      WellFormedParts(B);
      assert A.flex - Elems(fixed) == B.flex;
      FitsBy(c, B, q);
    }
  }

  lemma EqualServesBoth(A: Family, B: Family, c: seq<string>)
    requires A.fixed == [] && WellFormed(A) && WellFormed(B) && A.Size() == B.Size()
    requires RefineEqual(A, B).Some? && Fits(c, RefineEqual(A, B).value)
    ensures Fits(c, A) && Fits(c, B)
  {
    if B.last == "" && A.last != "" && B.flex != {} {
      EqualMovesLast(A, B, c);
    } else {
      EqualKeepsB(A, B, c);
    }
    SameColumns(A, B, c);
  }

  lemma EqualKeepsB(A: Family, B: Family, c: seq<string>)
    requires A.Size() == B.Size() && (B.last != "" || A.last == "" || B.flex == {})
    requires RefineEqual(A, B).Some? && Fits(c, RefineEqual(A, B).value)
    ensures Fits(c, B)
    ensures A.last != "" ==> A.Size() <= |c| && c[A.Size() - 1] == A.last
  {
    hide Elems;
    var out := RefineEqual(A, B).value;
    var q :| Orders(q, out.flex) && out.Leading(q) <= c;
    FitsBy(c, B, q);
    if A.last != "" {
      EndColumn(c, B);
    }
  }

  lemma MovedInstance(A: Family, B: Family, c: seq<string>) returns (q: seq<string>)
    requires A.Size() == B.Size() && B.last == "" && A.last != "" && B.flex != {}
    requires RefineEqual(A, B).Some? && Fits(c, RefineEqual(A, B).value)
    ensures A.last in B.flex && Orders(q, B.flex - {A.last}) && B.fixed + q + [A.last] <= c
  {
    hide Elems;
    var out := RefineEqual(A, B).value;
    q :| Orders(q, out.flex) && out.Leading(q) <= c;
  }

  lemma EqualMovesLast(A: Family, B: Family, c: seq<string>)
    requires A.Size() == B.Size() && B.last == "" && A.last != "" && B.flex != {}
    requires RefineEqual(A, B).Some? && Fits(c, RefineEqual(A, B).value)
    ensures Fits(c, B)
    ensures A.last != "" ==> A.Size() <= |c| && c[A.Size() - 1] == A.last
  {
    hide Elems, RefineEqual;
    var q := MovedInstance(A, B, c);
    OrdersOne(A.last);
    assert B.flex - (B.flex - {A.last}) == {A.last};
    OrdersRest(q, B.flex - {A.last}, [A.last], B.flex);
    assert B.fixed + q + [A.last] == B.fixed + (q + [A.last]) + [];
    FitsBy(c, B, q + [A.last]);
  }

  /** A family with the same columns is served when its last column, if any, is the last one. */
  lemma SameColumns(A: Family, B: Family, c: seq<string>)
    requires A.fixed == [] && WellFormed(A) && A.Size() == B.Size()
    requires A.AllIndexed() == B.AllIndexed() && Fits(c, B)
    requires A.last != "" ==> A.Size() <= |c| && c[A.Size() - 1] == A.last
    ensures Fits(c, A)
  {
    FitsContains(c, B);
    SameWindow(A, c[..A.Size()]);
    FitsNoFixed(c, A, c[..A.Size()][..|A.flex|]);
  }

  lemma SameWindow(A: Family, w: seq<string>)
    requires A.fixed == [] && WellFormed(A) && |w| == A.Size() && Elems(w) == A.AllIndexed()
    requires A.last != "" ==> w[|A.flex|] == A.last
    ensures Orders(w[..|A.flex|], A.flex) && w[..|A.flex|] + Tail(A.last) == w
  {
    NoFixedColumns(A);
    hide Elems, Family.AllIndexed;
    if A.last == "" {
      assert w[..|A.flex|] == w;
    } else {
      DropLast(w, A.flex, A.last);
      assert w[..|A.flex|] + [A.last] == w;
    }
  }

  lemma DropLast(w: seq<string>, s: set<string>, x: string)
    requires x !in s && |w| == |s| + 1 && Elems(w) == s + {x} && w[|s|] == x
    ensures Orders(w[..|s|], s)
  {
    var v := w[..|s|];
    assert w == v + [x];
    ElemsConcat(v, [x]);
    OrdersOne(x);
    assert s <= Elems(v);
    Pigeonhole(v, s);
  }

  lemma ShorterServesBoth(A: Family, B: Family, c: seq<string>)
    requires A.fixed == [] && WellFormed(A) && WellFormed(B) && A.Size() < B.Size()
    requires RefineShorter(A, B).Some? && ShareGuard(A, B) && OrderGuard(A, B)
    requires Fits(c, RefineShorter(A, B).value)
    ensures Fits(c, A) && Fits(c, B)
  {
    if A.Size() <= |B.fixed| {
      ShorterIsWithin(A, B);
      WithinServesBoth(A, B, c);
    } else {
      ShorterNests(A, B);
      if A.last == "" {
        OpenServesBoth(A, B, c);
      } else {
        PinnedServesBoth(A, B, c);
      }
    }
  }

  lemma WithinServesBoth(A: Family, B: Family, c: seq<string>)
    requires Within(A, B) && WellFormed(B) && A.Size() < B.Size() && RefineShorter(A, B).Some?
    requires Fits(c, RefineShorter(A, B).value)
    ensures Fits(c, A) && Fits(c, B)
  {
    WithinShape(A, B);
    var out := RefineShorter(A, B).value;
    hide RefineShorter, Elems, WellFormed, Orders, Within, Fits;
    ShapeFits(c, out, B);
    FixedWindow(c, B);
    WithinFits(A, B, c);
  }

  /** A merge that A's columns are pinned by already leaves the indexed columns of B as they are. */
  lemma WithinShape(A: Family, B: Family)
    requires Within(A, B) && WellFormed(B) && A.Size() < B.Size() && RefineShorter(A, B).Some?
    ensures var out := RefineShorter(A, B).value;
      (out.fixed, out.flex, out.last) == (B.fixed, B.flex, B.last)
  {
    WellFormedParts(B);
    PrefixElems(B.fixed, A.Size());
    hide Elems, Family.AllIndexed, WellFormed, Orders;
    var cut := Elems(B.fixed[..A.Size()]);
    assert B.flex - cut == B.flex;
  }

  lemma PrefixElems(s: seq<string>, n: nat)
    requires n <= |s|
    ensures Elems(s[..n]) <= Elems(s)
  {
  }

  lemma OpenServesBoth(A: Family, B: Family, c: seq<string>)
    requires Nested(A, B) && A.last == "" && A.flex == Elems(B.fixed) + B.flex
    requires A.Size() > |B.fixed| && RefineShorter(A, B).Some?
    requires Fits(c, RefineShorter(A, B).value)
    ensures Fits(c, A) && Fits(c, B)
  {
    WellFormedParts(B);
    hide Elems;
    var out := RefineShorter(A, B).value;
    var q :| Orders(q, out.flex) && out.Leading(q) <= c;
    FitsBy(c, B, q);
    hide RefineShorter;
    OrdersConcat(B.fixed, Elems(B.fixed), q, B.flex);
    PrefixTransitive(B.fixed + q, Tail(B.last), c);
    FitsNoFixed(c, A, B.fixed + q);
  }

  lemma PinnedShorterElems(A: Family, B: Family)
    requires Nested(A, B)
    ensures Elems(PinnedShorter(A, B)) == A.flex + {A.last}
  {
    ElemsConcat(B.fixed + SortedOf(B.flex * A.flex), [A.last]);
    ElemsConcat(B.fixed, SortedOf(B.flex * A.flex));
    OrdersOne(A.last);
  }

  lemma PinnedInstance(A: Family, B: Family, c: seq<string>) returns (q: seq<string>)
    requires A.Size() < B.Size() && RefineShorter(A, B).Some? && A.Size() > |B.fixed| && A.last != ""
    requires Fits(c, RefineShorter(A, B).value)
    ensures Orders(q, B.flex - Elems(PinnedShorter(A, B)))
    ensures PinnedShorter(A, B) + q + Tail(B.last) <= c
  {
    hide Elems;
    var out := RefineShorter(A, B).value;
    q :| Orders(q, out.flex) && out.Leading(q) <= c;
  }

  lemma PinnedSets<T>(f: set<T>, x: set<T>, a: set<T>, last: T)
    requires f <= a <= f + x && f !! x
    ensures x * a == a - f && x - (a + {last}) == x - a - {last}
  {
  }

  lemma PinnedServesBoth(A: Family, B: Family, c: seq<string>)
    requires Nested(A, B) && A.Size() > |B.fixed| && A.last != "" && RefineShorter(A, B).Some?
    requires Fits(c, RefineShorter(A, B).value)
    ensures Fits(c, A) && Fits(c, B)
  {
    var q := PinnedInstance(A, B, c);
    PinnedShorterElems(A, B);
    WellFormedParts(B);
    hide Elems, RefineShorter, Fits;
    PinnedSets(Elems(B.fixed), B.flex, A.flex, A.last);
    var mid := SortedOf(B.flex * A.flex);
    NestedParts(A, B, mid, q);
    NestedFits(A, B, mid, q, c);
  }

  // ----- merges whose guards fail -----

  lemma InstanceFits(f: Family, q: seq<string>)
    requires Orders(q, f.flex)
    ensures Fits(f.Leading(q), f)
  {
  }

  /** The columns right after the fixed ones are flexible ones. */
  lemma FlexColumn(c: seq<string>, f: Family, k: nat)
    requires k < |f.flex|
    ensures Fits(c, f) ==> |f.fixed| + k < |c| && c[|f.fixed| + k] in f.flex
  {
    FitsIffWindows(c, f);
    if Fits(c, f) {
      var w := c[|f.fixed|..|f.fixed| + |f.flex|];
      assert w[k] in Elems(w);
    }
  }

  lemma Outside<T>(s: set<T>, t: set<T>) returns (x: T)
    requires !(s <= t)
    ensures x in s && x !in t
  {
    x :| x in s && x !in t;
  }

  lemma LongerOpenOut(A: Family, B: Family, q: seq<string>)
    requires A.Size() > B.Size() && RefineLonger(A, B).Some? && B.last == ""
    requires Orders(q, A.flex - Elems(B.fixed)) && q != []
    ensures Fits(B.fixed + q + Tail(A.last), RefineLonger(A, B).value)
  {
    hide Elems;
    var out := RefineLonger(A, B).value;
    InstanceFits(out, q);
  }

  lemma LongerColumns(A: Family, B: Family)
    requires A.fixed == [] && WellFormed(A) && A.Size() > B.Size()
    requires RefineLonger(A, B).Some? && ShareGuard(A, B)
    ensures B.AllIndexed() <= A.flex
  {
    NoFixedColumns(A);
    hide Elems;
  }

  lemma LongerOpenFails(A: Family, B: Family)
    requires A.fixed == [] && WellFormed(A) && WellFormed(B) && A.Size() > B.Size()
    requires RefineLonger(A, B).Some? && ShareGuard(A, B) && !OrderGuard(A, B)
    ensures !ServesBoth(RefineLonger(A, B).value, A, B)
  {
    hide RefineLonger, Fits;
    LongerColumns(A, B);
    var x := Outside(A.flex, B.AllIndexed());
    assert x !in Elems(B.fixed);
    hide Elems, Family.AllIndexed, WellFormed;
    var q := OrderFrom(A.flex - Elems(B.fixed), x);
    LongerOpenOut(A, B, q);
    var c := B.fixed + q + Tail(A.last);
    assert c[|B.fixed|] == q[0] == x;
    FlexColumn(c, B, 0);
  }

  lemma ShorterOpenFails(A: Family, B: Family)
    requires A.fixed == [] && WellFormed(A) && WellFormed(B) && A.Size() < B.Size()
    requires RefineShorter(A, B).Some? && ShareGuard(A, B) && !OrderGuard(A, B)
    ensures !ServesBoth(RefineShorter(A, B).value, A, B)
  {
    ShorterNests(A, B);
    assert B.flex <= A.flex ==> A.flex == Elems(B.fixed) + B.flex;
    var x := Outside(B.flex, A.flex);
    var q := OrderFrom(B.flex, x);
    var c := B.Leading(q);
    InstanceFits(RefineShorter(A, B).value, q);
    assert c[|B.fixed|] == q[0] == x;
    FlexColumn(c, A, |B.fixed|);
  }

  lemma IncompatibleFails(A: Family, B: Family, out: Family)
    requires !Compatible(A, B)
    ensures !ServesBoth(out, A, B)
  {
    var q := SortedOf(out.flex);
    InstanceFits(out, q);
  }

  // ----- the verdict on a merge -----

  /** With no fixed columns on one side: the families share an index exactly when the merge is
      accepted and the share guard holds, and every index for the merged family serves both exactly
      when the order guard holds too. */
  lemma MergeNoFixedVerdict(A: Family, B: Family)
    requires A.fixed == [] && WellFormed(A) && WellFormed(B)
    ensures Compatible(A, B) <==> RefineNoFixed(A, B).Some? && ShareGuard(A, B)
    ensures RefineNoFixed(A, B).Some? ==>
      (ServesBoth(RefineNoFixed(A, B).value, A, B) <==> ShareGuard(A, B) && OrderGuard(A, B))
  {
    CompatibleVerdict(A, B);
    if RefineNoFixed(A, B).Some? {
      ServesBothVerdict(A, B);
    }
  }

  lemma CompatibleVerdict(A: Family, B: Family)
    requires A.fixed == [] && WellFormed(A) && WellFormed(B)
    ensures Compatible(A, B) <==> RefineNoFixed(A, B).Some? && ShareGuard(A, B)
  {
    if Compatible(A, B) {
      var c :| Fits(c, A) && Fits(c, B);
      if A.Size() > B.Size() {
        CompatibleLonger(A, B, c);
      } else if A.Size() == B.Size() {
        CompatibleEqual(A, B, c);
      } else {
        CompatibleShorter(A, B, c);
      }
    } else if RefineNoFixed(A, B).Some? && ShareGuard(A, B) {
      if A.Size() > B.Size() {
        LongerIsCompatible(A, B);
      } else if A.Size() == B.Size() {
        var out := RefineEqual(A, B).value;
        var q := SortedOf(out.flex);
        InstanceFits(out, q);
        EqualServesBoth(A, B, out.Leading(q));
      } else {
        ShorterIsCompatible(A, B);
      }
    }
  }

  lemma ServesBothVerdict(A: Family, B: Family)
    requires A.fixed == [] && WellFormed(A) && WellFormed(B) && RefineNoFixed(A, B).Some?
    ensures ServesBoth(RefineNoFixed(A, B).value, A, B) <==> ShareGuard(A, B) && OrderGuard(A, B)
  {
    var out := RefineNoFixed(A, B).value;
    if !ShareGuard(A, B) {
      CompatibleVerdict(A, B);
      IncompatibleFails(A, B, out);
    } else if !OrderGuard(A, B) {
      if A.Size() > B.Size() {
        LongerOpenFails(A, B);
      } else {
        ShorterOpenFails(A, B);
      }
    } else {
      forall c | Fits(c, out) ensures Fits(c, A) && Fits(c, B) {
        if A.Size() > B.Size() {
          LongerServesBoth(A, B, c);
        } else if A.Size() == B.Size() {
          EqualServesBoth(A, B, c);
        } else {
          ShorterServesBoth(A, B, c);
        }
      }
    }
  }

  // ----- common fixed prefixes -----

  function CommonLength(left: Family, right: Family): nat {
    if |left.fixed| < |right.fixed| then |left.fixed| else |right.fixed|
  }

  function Strip(f: Family, n: nat): Family
    requires n <= |f.fixed|
  {
    f.(fixed := f.fixed[n..])
  }

  /** The families that are compared once the common prefix is removed, the one without fixed
      columns first. */
  function Compared(left: Family, right: Family): (Family, Family) {
    var n := CommonLength(left, right);
    var l, r := Strip(left, n), Strip(right, n);
    if r.fixed == [] then (r, l) else (l, r)
  }

  lemma FitsStripped(c: seq<string>, f: Family, n: nat)
    requires n <= |f.fixed|
    ensures Fits(c, f) <==> f.fixed[..n] <= c && Fits(c[n..], Strip(f, n))
  {
    var prefix := f.fixed[..n];
    if Fits(c, f) {
      var p :| Orders(p, f.flex) && f.Leading(p) <= c;
      assert f.Leading(p) == prefix + Strip(f, n).Leading(p);
      assert Strip(f, n).Leading(p) <= c[n..];
    }
    if prefix <= c && Fits(c[n..], Strip(f, n)) {
      var p :| Orders(p, f.flex) && Strip(f, n).Leading(p) <= c[n..];
      assert f.Leading(p) == prefix + Strip(f, n).Leading(p);
      assert f.Leading(p) <= prefix + c[n..] == c;
    }
  }

  /** Only the table and the included columns can tell `Strip` from `RemoveFixedPrefix`. */
  predicate SameShape(f: Family, g: Family) {
    f.fixed == g.fixed && f.flex == g.flex && f.last == g.last
  }

  function Retable(r: Option<Family>, t: string): Option<Family> {
    match r
    case None => None
    case Some(out) => Some(out.(table := t))
  }

  lemma LongerIgnoresTables(A: Family, B: Family, t: string, u: string)
    requires A.Size() > B.Size()
    ensures RefineLonger(A.(table := t), B.(table := u)) == Retable(RefineLonger(A, B), u)
  {
    hide Elems, Pinned, Family.AllIndexed, MergeIncluded, SetLast;
    RetablePinned(A, B, t, u);
    RetableColumns(A, t);
    RetableColumns(B, u);
    RetableResult(B.(fixed := Pinned(B), flex := A.flex - Elems(Pinned(B))), A.last, A, t, u);
  }

  lemma EqualIgnoresTables(A: Family, B: Family, t: string, u: string)
    requires A.Size() == B.Size()
    ensures RefineEqual(A.(table := t), B.(table := u)) == Retable(RefineEqual(A, B), u)
  {
    hide Elems;
  }

  lemma ShorterIgnoresTables(A: Family, B: Family, t: string, u: string)
    requires A.Size() < B.Size()
    ensures RefineShorter(A.(table := t), B.(table := u)) == Retable(RefineShorter(A, B), u)
  {
    hide Elems, PinnedShorter, Family.AllIndexed, MergeIncluded, SetLast;
    RetablePinned(A, B, t, u);
    RetableColumns(A, t);
    RetableColumns(B, u);
    var out := B.(fixed := PinnedShorter(A, B), flex := B.flex - Elems(PinnedShorter(A, B)));
    RetableResult(out, B.last, A, t, u);
    RetableResult(B, B.last, A, t, u);
    if A.Size() <= |B.fixed| {
      RetableResult(B.(flex := B.flex - Elems(B.fixed[..A.Size()])), B.last, A, t, u);
    }
  }

  lemma RetablePinned(A: Family, B: Family, t: string, u: string)
    ensures PinnedShorter(A.(table := t), B.(table := u)) == PinnedShorter(A, B)
    ensures Pinned(B.(table := u)) == Pinned(B)
  {
  }

  lemma RetableColumns(f: Family, t: string)
    ensures f.(table := t).AllIndexed() == f.AllIndexed() && f.(table := t).Size() == f.Size()
  {
  }

  lemma RetableResult(f: Family, last: string, A: Family, t: string, u: string)
    ensures SetLast(f.(table := u), last) == SetLast(f, last).(table := u)
    ensures MergeIncluded(f.(table := u), A.(table := t)) == MergeIncluded(f, A).(table := u)
    ensures MergeIncluded(SetLast(f.(table := u), last), A.(table := t))
      == MergeIncluded(SetLast(f, last), A).(table := u)
  {
  }

  /** The table names play no part in the decision; the merged family keeps that of B. */
  lemma RefineIgnoresTables(A: Family, B: Family, t: string, u: string)
    ensures RefineNoFixed(A.(table := t), B.(table := u)) == Retable(RefineNoFixed(A, B), u)
  {
    if A.Size() > B.Size() {
      LongerIgnoresTables(A, B, t, u);
    } else if A.Size() == B.Size() {
      EqualIgnoresTables(A, B, t, u);
    } else {
      ShorterIgnoresTables(A, B, t, u);
    }
    hide RefineLonger, RefineEqual, RefineShorter;
  }

  lemma RefineStripped(left: Family, right: Family)
    ensures var n, p := CommonLength(left, right), Compared(left, right);
      if left.fixed[..n] != right.fixed[..n] then Refine(left, right) == None
      else IsPrepended(left.fixed[..n], RefineNoFixed(p.0, p.1), Refine(left, right))
  {
    hide Refine, RefineNoFixed, IsPrepended;
    var n := CommonLength(left, right);
    if left.fixed[..n] != right.fixed[..n] {
      PrefixesDiffer(left, right);
    } else if n == 0 {
      NothingToRemove(left, right);
      assert Strip(left, n) == left && Strip(right, n) == right;
      PrependNothing(Refine(left, right));
    } else {
      RefineAfterRemoval(left, right, n);
    }
  }

  /** The same outcome, up to the table name, with the prefix in front of the fixed columns. */
  predicate IsPrepended(prefix: seq<string>, inner: Option<Family>, r: Option<Family>) {
    match inner
    case None => r == None
    case Some(out) => r.Some? && SameShape(r.value, out.(fixed := prefix + out.fixed))
  }

  lemma PrependNothing(r: Option<Family>)
    ensures IsPrepended([], r, r)
  {
    if r.Some? {
      assert [] + r.value.fixed == r.value.fixed;
    }
  }

  lemma RefineAfterRemoval(left: Family, right: Family, n: nat)
    requires 0 < n == CommonLength(left, right) && left.fixed[..n] == right.fixed[..n]
    ensures var p := Compared(left, right);
      IsPrepended(left.fixed[..n], RefineNoFixed(p.0, p.1), Refine(left, right))
  {
    hide Refine, RefineNoFixed;
    var p := Compared(left, right);
    PrefixIsRemoved(left, right, n);
    NothingToRemove(Strip(left, n).(table := ""), Strip(right, n).(table := ""));
    RefineIgnoresTables(p.0, p.1, "", "");
  }

  lemma NothingToRemove(left: Family, right: Family)
    requires CommonLength(left, right) == 0
    ensures Refine(left, right)
      == if right.fixed == [] then RefineNoFixed(right, left) else RefineNoFixed(left, right)
  {
    hide RefineNoFixed;
  }

  lemma PrefixesDiffer(left: Family, right: Family)
    requires var n := CommonLength(left, right); left.fixed[..n] != right.fixed[..n]
    ensures Refine(left, right) == None
  {
    hide RefineNoFixed;
  }

  lemma PrefixIsRemoved(left: Family, right: Family, n: nat)
    requires 0 < n == CommonLength(left, right) && left.fixed[..n] == right.fixed[..n]
    ensures var inner := Refine(Strip(left, n).(table := ""), Strip(right, n).(table := ""));
      && (inner.None? ==> Refine(left, right) == None)
      && (inner.Some? ==> Refine(left, right) == Some(PrependPrefix(inner.value, left.fixed[..n])))
  {
    hide RefineNoFixed;
    assert RemoveFixedPrefix(left, left.fixed[..n]) == Strip(left, n).(table := "");
    assert RemoveFixedPrefix(right, left.fixed[..n]) == Strip(right, n).(table := "");
  }

  /** The verdict for any two families. They share an index exactly when the merge is accepted and
      the share guard holds for what remains of them; and every index for the merged family serves
      both exactly when the order guard holds too. */
  lemma MergeVerdict(left: Family, right: Family)
    requires WellFormed(left) && WellFormed(right)
    ensures var p := Compared(left, right);
      && (Compatible(left, right) <==> Refine(left, right).Some? && ShareGuard(p.0, p.1))
      && (Refine(left, right).Some? ==>
            (ServesBoth(Refine(left, right).value, left, right)
             <==> ShareGuard(p.0, p.1) && OrderGuard(p.0, p.1)))
  {
    hide Refine, RefineNoFixed, ShareGuard, OrderGuard, WellFormed, Fits;
    var n, p := CommonLength(left, right), Compared(left, right);
    RefineStripped(left, right);
    CompatiblePrefix(left, right, n);
    if left.fixed[..n] == right.fixed[..n] {
      StripWellFormed(left, n);
      StripWellFormed(right, n);
      MergeNoFixedVerdict(p.0, p.1);
      StripCompatible(left, right, n);
      if RefineNoFixed(p.0, p.1).Some? {
        StripServesBoth(
          left, right, n, Refine(left, right).value, RefineNoFixed(p.0, p.1).value);
      }
    }
  }

  lemma CompatiblePrefix(left: Family, right: Family, n: nat)
    requires n <= |left.fixed| && n <= |right.fixed|
    ensures Compatible(left, right) ==> left.fixed[..n] == right.fixed[..n]
  {
    forall c | Fits(c, left) && Fits(c, right) ensures left.fixed[..n] == right.fixed[..n] {
      FixedWindow(c, left);
      FixedWindow(c, right);
      assert left.fixed[..n] == c[..n] == right.fixed[..n];
    }
  }

  lemma StripWellFormed(f: Family, n: nat)
    requires WellFormed(f) && n <= |f.fixed|
    ensures WellFormed(Strip(f, n))
  {
    hide Elems, WellFormed, Orders, Family.AllIndexed;
    WellFormedParts(f);
    RestOrders(f.fixed, n);
    WellFormedFrom(Strip(f, n));
  }

  lemma RestOrders(s: seq<string>, n: nat)
    requires Orders(s, Elems(s)) && n <= |s|
    ensures |Elems(s[n..])| == |s[n..]| && Elems(s[n..]) <= Elems(s)
  {
    OrdersNoDup(s, Elems(s));
    ElemsSize(s[n..]);
  }

  lemma WellFormedFrom(f: Family)
    requires |Elems(f.fixed)| == |f.fixed|
    requires Elems(f.fixed) !! f.flex && Elems(f.fixed) + f.flex !! f.LastSet()
    ensures WellFormed(f)
  {
    hide Elems;
    UnionSize(Elems(f.fixed), f.flex);
    UnionSize(Elems(f.fixed) + f.flex, f.LastSet());
  }

  lemma StripCompatible(left: Family, right: Family, n: nat)
    requires n <= |left.fixed| && n <= |right.fixed| && left.fixed[..n] == right.fixed[..n]
    ensures Compatible(left, right) <==> Compatible(Strip(left, n), Strip(right, n))
  {
    if Compatible(left, right) {
      var c :| Fits(c, left) && Fits(c, right);
      FitsStripped(c, left, n);
      FitsStripped(c, right, n);
      assert Fits(c[n..], Strip(left, n)) && Fits(c[n..], Strip(right, n));
    }
    if Compatible(Strip(left, n), Strip(right, n)) {
      var d :| Fits(d, Strip(left, n)) && Fits(d, Strip(right, n));
      UnstripFits(d, left, n);
      UnstripFits(d, right, n);
      assert Fits(left.fixed[..n] + d, left) && Fits(left.fixed[..n] + d, right);
    }
  }

  lemma UnstripFits(d: seq<string>, f: Family, n: nat)
    requires n <= |f.fixed|
    ensures Fits(f.fixed[..n] + d, f) <==> Fits(d, Strip(f, n))
  {
    var c := f.fixed[..n] + d;
    assert c[n..] == d;
    FitsStripped(c, f, n);
  }

  lemma ShapeFits(c: seq<string>, f: Family, g: Family)
    requires SameShape(f, g)
    ensures Fits(c, f) <==> Fits(c, g)
  {
    FitsIffWindows(c, f);
    FitsIffWindows(c, g);
  }

  lemma StripServesBoth(left: Family, right: Family, n: nat, out: Family, out': Family)
    requires n <= |left.fixed| && n <= |right.fixed| && left.fixed[..n] == right.fixed[..n]
    requires SameShape(out, out'.(fixed := left.fixed[..n] + out'.fixed))
    ensures ServesBoth(out, left, right) <==> ServesBoth(out', Strip(left, n), Strip(right, n))
  {
    var prefix := left.fixed[..n];
    assert SameShape(Strip(out, n), out') && out.fixed[..n] == prefix;
    if ServesBoth(out, left, right) {
      forall d | Fits(d, out') ensures Fits(d, Strip(left, n)) && Fits(d, Strip(right, n)) {
        ShapeFits(d, Strip(out, n), out');
        UnstripFits(d, out, n);
        UnstripFits(d, left, n);
        UnstripFits(d, right, n);
      }
    }
    if ServesBoth(out', Strip(left, n), Strip(right, n)) {
      forall c | Fits(c, out) ensures Fits(c, left) && Fits(c, right) {
        FitsStripped(c, out, n);
        ShapeFits(c[n..], Strip(out, n), out');
        FitsStripped(c, left, n);
        FitsStripped(c, right, n);
      }
    }
  }

  // ----- three merges that are accepted although a guard fails -----

  /** Merging {a} into {a, b} leaves the order open: an index on (b, a) fits the merged family and
      does not serve {a}. */
  lemma OpenOrderExample(A: Family, B: Family)
    requires A == Family("t", [], {"a"}, "", {}) && B == Family("t", [], {"a", "b"}, "", {})
    ensures Refine(B, A) == Some(B) && Fits(["b", "a"], B) && !Fits(["b", "a"], A)
  {
    assert Refine(B, A) == RefineNoFixed(A, B) == RefineShorter(A, B);
    FitsIffWindows(["b", "a"], B);
    FitsIffWindows(["b", "a"], A);
    assert Elems(["b", "a"]) == {"a", "b"};
    assert Elems(["b"]) == {"b"};
  }

  /** The last column of the longer family may be one that the shorter one wants first: the merge is
      accepted and lists column c twice. */
  lemma RepeatedColumnExample(A: Family, B: Family)
    requires A == Family("t", [], {"x", "y", "z"}, "c", {}) && B == Family("t", [], {"c"}, "x", {})
    ensures Refine(B, A).Some? && !Compatible(A, B)
    ensures var out := Refine(B, A).value;
      out.fixed == ["c", "x"] && out.flex == {"y", "z"} && out.last == "c"
  {
    assert A.AllIndexed() == {"x", "y", "z", "c"} && B.AllIndexed() == {"c", "x"};
    CompatibleVerdict(A, B);
    OrdersOne("c");
    SortedIsUnique(SortedOf({"c"}), ["c"], {"c"});
    assert Pinned(B) == ["c", "x"];
    assert Elems(Pinned(B)) == {"c", "x"};
    assert A.flex - {"c", "x"} == {"y", "z"};
    assert Refine(B, A) == RefineNoFixed(A, B) == RefineLonger(A, B);
  }

  /** Only the position of the last column is compared with the fixed columns of the longer family. */
  lemma UncheckedPrefixExample(A: Family, B: Family)
    requires A == Family("t", [], {"a", "x"}, "c", {}) && B == Family("t", ["a", "b", "c"], {"x"}, "", {})
    ensures Refine(B, A) == Some(B) && !Compatible(A, B)
  {
    UncheckedPrefixMerge(A, B);
    hide Refine, Elems;
    forall c ensures !(Fits(c, A) && Fits(c, B)) {
      UncheckedPrefixClash(A, B, c);
      assert "b" !in {"a", "x"};
    }
  }

  lemma UncheckedPrefixMerge(A: Family, B: Family)
    requires A == Family("t", [], {"a", "x"}, "c", {}) && B == Family("t", ["a", "b", "c"], {"x"}, "", {})
    ensures Refine(B, A) == Some(B)
  {
    NothingToRemove(B, A);
    assert B.fixed[0] == "a" && B.fixed[1] == "b" && B.fixed[2] == "c" == A.last;
    assert |{"a", "x"}| == 2 && Elems<string>([]) == {};
    assert A.AllIndexed() <= B.AllIndexed() by {
      assert "a" in B.fixed && "c" in B.fixed;
    }
    assert MergeIncluded(B, A) == B;
    hide Elems, Family.AllIndexed, MergeIncluded;
  }

  /** The second column would have to be b and, for A, one of a and x. */
  lemma UncheckedPrefixClash(A: Family, B: Family, c: seq<string>)
    requires A == Family("t", [], {"a", "x"}, "c", {}) && B == Family("t", ["a", "b", "c"], {"x"}, "", {})
    ensures Fits(c, B) ==> 2 <= |c| && c[1] == "b"
    ensures Fits(c, A) ==> 2 <= |c| && c[1] in {"a", "x"}
  {
    if Fits(c, B) {
      FixedWindow(c, B);
      assert c[1] == B.fixed[1];
    }
    if Fits(c, A) {
      NoFixedWindow(c, A);
      hide Fits;
      assert |{"a", "x"}| == 2;
      assert c[..2][1] in Elems(c[..2]);
    }
  }

}
