/** What a merge gives away (usecases/indexes/index_family.go:72-273): an index that fits both families
    fits the merged one, unless the merge pinned more than one column in an order of its own. */
module MergeKeepsIndexes {
  import opened Wrappers
  import opened GoSets
  import opened Sorting
  import opened IndexModels
  import opened FamilyMerging

  /** Every list of index columns that fits both families fits out. */
  ghost predicate KeepsAll(out: Family, A: Family, B: Family) {
    forall c :: Fits(c, A) && Fits(c, B) ==> Fits(c, out)
  }

  /** The columns whose order the merge chooses although neither family does. */
  function Arbitrary(A: Family, B: Family): set<string> {
    if A.Size() > B.Size() then
      if B.last != "" then B.flex else {}
    else if |B.fixed| < A.Size() < B.Size() && A.last != "" then B.flex * A.flex
    else {}
  }

  // ----- orders -----

  /** The rest of an order, once its beginning is taken away. */
  lemma OrdersSuffix(w: seq<string>, s: set<string>, n: nat)
    requires Orders(w, s) && n <= |w|
    ensures Orders(w[n..], s - Elems(w[..n])) && Elems(w[..n]) <= s
  {
    OrdersNoDup(w, s);
    assert w == w[..n] + w[n..];
    ElemsConcat(w[..n], w[n..]);
    assert NoDup(w[n..]);
    forall x | x in Elems(w[n..]) ensures x !in Elems(w[..n]) {
      var i :| 0 <= i < |w| - n && w[n..][i] == x;
      assert w[n + i] == x;
    }
    OrdersNoDup(w[n..], s - Elems(w[..n]));
  }

  lemma OneOrder(s: set<string>, p: seq<string>, q: seq<string>)
    requires |s| <= 1 && Orders(p, s) && Orders(q, s)
    ensures p == q
  {
    if |s| == 1 {
      assert p[0] in Elems(p) && q[0] in Elems(q);
      SubsetSize({p[0], q[0]}, s);
    }
  }

  /** With two columns there is an order that does not begin like the sorted one. */
  lemma AnotherOrder(s: set<string>) returns (p: seq<string>)
    requires |s| >= 2
    ensures Orders(p, s) && p[0] != SortedOf(s)[0]
  {
    var first := SortedOf(s)[0];
    assert s - {first} != {} by {
      assert first in Elems(SortedOf(s));
      assert |s - {first}| == |s| - 1;
    }
    var x :| x in s - {first};
    p := OrderFrom(s, x);
  }

  // ----- a longer A -----

  lemma PinnedPrefix(B: Family, c: seq<string>)
    requires Fits(c, B) && (B.last != "" ==> |B.flex| <= 1)
    ensures Pinned(B) <= c && |Pinned(B)| <= B.Size()
  {
    var p :| Orders(p, B.flex) && B.Leading(p) <= c;
    if B.last != "" {
      OneOrder(B.flex, p, SortedOf(B.flex));
      assert Pinned(B) == B.Leading(p);
    } else {
      assert Pinned(B) + p == B.Leading(p);
    }
  }

  /** After the pinned columns the window of `flex` goes on with the flexible columns that are left. */
  lemma WindowGoesOn(c: seq<string>, flex: set<string>, last: string, pinned: seq<string>)
    requires |flex| <= |c| && Orders(c[..|flex|], flex) && (last != "" ==> |flex| < |c| && c[|flex|] == last)
    requires pinned <= c && |pinned| <= |flex|
    ensures var q := c[|pinned|..|flex|];
      Orders(q, flex - Elems(pinned)) && pinned + q + Tail(last) <= c
  {
    var w, n := c[..|flex|], |pinned|;
    OrdersSuffix(w, flex, n);
    hide Orders, Elems;
    assert w[..n] == pinned && w[n..] == c[n..|flex|];
    assert pinned + c[n..|flex|] == w;
    LeadingWithin(c, |flex|, last);
  }

  lemma LongerKeepsAll(A: Family, B: Family, c: seq<string>)
    requires A.fixed == [] && A.Size() > B.Size() && RefineLonger(A, B).Some?
    requires |Arbitrary(A, B)| <= 1 && Fits(c, A) && Fits(c, B)
    ensures Fits(c, RefineLonger(A, B).value)
  {
    hide RefineLonger, Elems, Orders, Fits, Pinned;
    PinnedPrefix(B, c);
    NoFixedWindow(c, A);
    WindowGoesOn(c, A.flex, A.last, Pinned(B));
    var q := c[|Pinned(B)|..|A.flex|];
    LongerLeading(A, B, q);
    FitsLeading(c, RefineLonger(A, B).value, q);
  }

  lemma LeadingWithin(c: seq<string>, a: nat, last: string)
    requires a <= |c| && (last != "" ==> a < |c| && c[a] == last)
    ensures c[..a] + Tail(last) <= c
  {
  }

  lemma FitsLeading(c: seq<string>, f: Family, q: seq<string>)
    requires Orders(q, f.flex) && f.Leading(q) <= c
    ensures Fits(c, f)
  {
  }

  /** An index that fits both, with B's flexible columns in a given order. */
  lemma LongerExample(A: Family, B: Family, pB: seq<string>) returns (c: seq<string>)
    requires A.fixed == [] && WellFormed(A) && WellFormed(B) && A.Size() > B.Size()
    requires B.AllIndexed() <= A.AllIndexed() && (A.last == "" || A.last !in B.AllIndexed())
    requires Orders(pB, B.flex)
    ensures Fits(c, A) && Fits(c, B) && B.Leading(pB) <= c
  {
    hide Elems, Fits, SortedOf, Orders, Family.AllIndexed, WellFormed;
    var all := B.AllIndexed();
    LongerParts(A, B, pB);
    var rest := SortedOf(A.flex - all);
    var lead := B.Leading(pB);
    OrdersRest(lead, all, rest, A.flex);
    c := lead + rest + Tail(A.last);
    FitsNoFixed(c, A, lead + rest);
    PrefixTransitive(lead + rest, Tail(A.last), c);
    FitsBy(c, B, pB);
  }

  lemma LongerParts(A: Family, B: Family, pB: seq<string>)
    requires A.fixed == [] && WellFormed(A) && WellFormed(B) && Orders(pB, B.flex)
    requires B.AllIndexed() <= A.AllIndexed() && (A.last == "" || A.last !in B.AllIndexed())
    ensures B.AllIndexed() <= A.flex && Orders(B.Leading(pB), B.AllIndexed())
    ensures Orders(SortedOf(A.flex - B.AllIndexed()), A.flex - B.AllIndexed())
  {
    NoFixedColumns(A);
    LeadingElems(B, pB);
  }

  lemma LongerPins(A: Family, B: Family)
    requires A.Size() > B.Size() && RefineLonger(A, B).Some?
    ensures Pinned(B) <= RefineLonger(A, B).value.fixed
  {
    hide Elems, Family.AllIndexed;
  }

  lemma LongerGivesAway(A: Family, B: Family)
    requires A.fixed == [] && WellFormed(A) && WellFormed(B) && A.Size() > B.Size()
    requires RefineLonger(A, B).Some? && ShareGuard(A, B) && |Arbitrary(A, B)| >= 2
    ensures !KeepsAll(RefineLonger(A, B).value, A, B)
  {
    assert B.AllIndexed() <= A.AllIndexed();
    hide RefineLonger, Fits, WellFormed, Pinned;
    var pB := AnotherOrder(B.flex);
    var c := LongerExample(A, B, pB);
    LongerPins(A, B);
    FirstArbitrary(B.fixed, SortedOf(B.flex), [B.last]);
    FirstArbitrary(B.fixed, pB, Tail(B.last));
    PinsLonger(B);
    PinnedOtherwise(c, RefineLonger(A, B).value, Pinned(B), |B.fixed|);
  }

  lemma PinsLonger(B: Family)
    requires B.last != ""
    ensures Pinned(B) == B.fixed + SortedOf(B.flex) + [B.last]
  {
  }

  lemma FirstArbitrary(fixed: seq<string>, p: seq<string>, tail: seq<string>)
    requires p != []
    ensures |fixed| < |fixed + p + tail| && (fixed + p + tail)[|fixed|] == p[0]
  {
  }

  lemma PinnedOtherwise(c: seq<string>, out: Family, pinned: seq<string>, n: nat)
    requires pinned <= out.fixed && n < |pinned| && n < |c| && c[n] != pinned[n]
    ensures !Fits(c, out)
  {
    if Fits(c, out) {
      FixedWindow(c, out);
    }
  }

  // ----- a shorter A -----

  lemma ShorterLeading(A: Family, B: Family, q: seq<string>)
    requires A.Size() < B.Size() && RefineShorter(A, B).Some? && A.Size() > |B.fixed| && A.last != ""
    ensures var out, p := RefineShorter(A, B).value, PinnedShorter(A, B);
      && out.flex == B.flex - Elems(p) && p <= out.fixed
      && (Orders(q, B.flex - Elems(p)) ==> out.Leading(q) == p + q + Tail(B.last))
  {
    hide Elems, PinnedShorter, Family.AllIndexed;
  }

  /** After B's fixed columns come A's other flexible ones. */
  lemma MiddleColumns(A: Family, B: Family, c: seq<string>)
    requires Nested(A, B) && A.last != "" && A.Size() > |B.fixed| && Fits(c, A) && Fits(c, B)
    ensures var n, a := |B.fixed|, |A.flex|;
      && n <= a < |c| && c[..n] == B.fixed && c[a] == A.last
      && Orders(c[n..a], B.flex * A.flex)
  {
    hide Fits, WellFormed, Elems, Orders, Family.AllIndexed;
    FixedWindow(c, B);
    NoFixedWindow(c, A);
    WellFormedParts(B);
    var n, a := |B.fixed|, |A.flex|;
    OrdersSuffix(c[..a], A.flex, n);
    assert c[..a][..n] == B.fixed && c[..a][n..] == c[n..a];
    PinnedSets(Elems(B.fixed), B.flex, A.flex, A.last);
  }

  lemma PinnedShorterPrefix(A: Family, B: Family, c: seq<string>)
    requires Nested(A, B) && A.last != "" && A.Size() > |B.fixed| && Fits(c, A) && Fits(c, B)
    requires |B.flex * A.flex| <= 1
    ensures PinnedShorter(A, B) <= c && |PinnedShorter(A, B)| == |A.flex| + 1
  {
    hide Fits, Nested, Elems, Orders;
    MiddleColumns(A, B, c);
    var n, a := |B.fixed|, |A.flex|;
    OneOrder(B.flex * A.flex, c[n..a], SortedOf(B.flex * A.flex));
    PinsShorter(A, B);
    hide SortedOf, PinnedShorter;
    ThreePrefix(c, n, a);
  }

  lemma ThreePrefix(c: seq<string>, n: nat, a: nat)
    requires n <= a < |c|
    ensures c[..n] + c[n..a] + [c[a]] <= c && |c[..n] + c[n..a] + [c[a]]| == a + 1
  {
    assert c[..a + 1] == c[..n] + c[n..a] + [c[a]];
  }

  lemma PinnedKeepsAll(A: Family, B: Family, c: seq<string>)
    requires Nested(A, B) && A.last != "" && A.Size() > |B.fixed| && RefineShorter(A, B).Some?
    requires |B.flex * A.flex| <= 1 && Fits(c, A) && Fits(c, B)
    ensures Fits(c, RefineShorter(A, B).value)
  {
    hide RefineShorter, PinnedShorter, Elems, Orders, WellFormed;
    PinnedShorterPrefix(A, B, c);
    FixedWindow(c, B);
    WellFormedParts(B);
    var p, n := PinnedShorter(A, B), |B.fixed|;
    PinsShorter(A, B);
    assert B.fixed <= p && |p| <= n + |B.flex|;
    var o :| Orders(o, B.flex) && B.Leading(o) <= c;
    hide Fits, SortedOf;
    BehindPinned(c, B, o, p);
    var q := c[|p|..n + |B.flex|];
    ShorterLeading(A, B, q);
    FitsLeading(c, RefineShorter(A, B).value, q);
  }

  lemma BehindPinned(c: seq<string>, B: Family, o: seq<string>, p: seq<string>)
    requires Orders(o, B.flex) && B.Leading(o) <= c && B.fixed <= p <= c && |p| <= |B.fixed| + |B.flex|
    requires |B.fixed| + |B.flex| <= |c| && Elems(B.fixed) !! B.flex
    ensures var q := c[|p|..|B.fixed| + |B.flex|];
      Orders(q, B.flex - Elems(p)) && p + q + Tail(B.last) <= c
  {
    hide Orders, Elems;
    OrdersLength(o, B.flex);
    var n, m := |B.fixed|, |p| - |B.fixed|;
    LeadingParts(c, B.fixed, o, B.last, m);
    PrefixIs(p, c);
    OrdersSuffix(o, B.flex, m);
    ElemsConcat(B.fixed, o[..m]);
    assert B.flex - Elems(p) == B.flex - Elems(o[..m]);
  }

  lemma PrefixIs(p: seq<string>, c: seq<string>)
    requires p <= c
    ensures p == c[..|p|]
  {
  }

  lemma LeadingParts(c: seq<string>, fixed: seq<string>, o: seq<string>, last: string, m: nat)
    requires fixed + o + Tail(last) <= c && m <= |o|
    ensures |fixed| + |o| <= |c|
    ensures c[..|fixed| + m] == fixed + o[..m] && c[|fixed| + m..|fixed| + |o|] == o[m..]
    ensures c[..|fixed| + m] + o[m..] + Tail(last) <= c
  {
    var lead := fixed + o + Tail(last);
    assert c[..|lead|] == lead;
    assert lead[..|fixed| + m] == fixed + o[..m];
    assert lead[|fixed| + m..|fixed| + |o|] == o[m..];
    assert fixed + o[..m] + o[m..] + Tail(last) == lead;
  }

  lemma PinnedGivesAway(A: Family, B: Family)
    requires Nested(A, B) && A.last != "" && A.Size() > |B.fixed| && RefineShorter(A, B).Some?
    requires |B.flex * A.flex| >= 2
    ensures !KeepsAll(RefineShorter(A, B).value, A, B)
  {
    hide RefineShorter, Fits, WellFormed, PinnedShorter, Elems, Orders, SortedOf;
    var mid := AnotherOrder(B.flex * A.flex);
    var c := ShorterExample(A, B, mid);
    ShorterLeading(A, B, []);
    PinsShorter(A, B);
    SortedSize(B.flex * A.flex);
    OrdersLength(mid, B.flex * A.flex);
    FirstArbitrary(B.fixed, SortedOf(B.flex * A.flex), [A.last]);
    PinnedOtherwise(c, RefineShorter(A, B).value, PinnedShorter(A, B), |B.fixed|);
  }

  lemma SortedSize(s: set<string>)
    ensures |SortedOf(s)| == |s|
  {
  }

  lemma FiveParts(fixed: seq<string>, mid: seq<string>, t: seq<string>, rest: seq<string>, z: seq<string>)
    requires mid != []
    ensures var c := fixed + mid + t + rest + z; |fixed| < |c| && c[|fixed|] == mid[0]
  {
  }

  /** An index that fits both, with A's other flexible columns in a given order. */
  lemma ShorterExample(A: Family, B: Family, mid: seq<string>) returns (c: seq<string>)
    requires Nested(A, B) && Orders(mid, B.flex * A.flex) && mid != []
    ensures Fits(c, A) && Fits(c, B) && |B.fixed| < |c| && c[|B.fixed|] == mid[0]
  {
    hide Fits, WellFormed, Elems, Orders, SortedOf, Family.AllIndexed;
    WellFormedParts(B);
    PinnedSets(Elems(B.fixed), B.flex, A.flex, A.last);
    var rest := SortedOf(B.flex - A.flex - A.LastSet());
    NestedParts(A, B, mid, rest);
    c := B.fixed + mid + Tail(A.last) + rest + Tail(B.last);
    hide Nested;
    FiveParts(B.fixed, mid, Tail(A.last), rest, Tail(B.last));
    NestedFits(A, B, mid, rest, c);
  }

  lemma PinsShorter(A: Family, B: Family)
    ensures PinnedShorter(A, B) == B.fixed + SortedOf(B.flex * A.flex) + [A.last]
  {
  }

  lemma ShorterKeepsAll(A: Family, B: Family, c: seq<string>)
    requires A.fixed == [] && WellFormed(A) && WellFormed(B) && A.Size() < B.Size()
    requires RefineShorter(A, B).Some? && ShareGuard(A, B)
    requires |Arbitrary(A, B)| <= 1 && Fits(c, A) && Fits(c, B)
    ensures Fits(c, RefineShorter(A, B).value)
  {
    if A.Size() <= |B.fixed| {
      ShorterIsWithin(A, B);
      WithinShape(A, B);
      hide RefineShorter, Fits, WellFormed, Within;
      ShapeFits(c, RefineShorter(A, B).value, B);
    } else {
      ShorterNests(A, B);
      if A.last == "" {
        OpenShape(A, B);
        hide RefineShorter, Fits, WellFormed, Nested;
        ShapeFits(c, RefineShorter(A, B).value, B);
      } else {
        PinnedKeepsAll(A, B, c);
      }
    }
  }

  lemma OpenShape(A: Family, B: Family)
    requires A.Size() < B.Size() && A.Size() > |B.fixed| && A.last == "" && RefineShorter(A, B).Some?
    ensures SameShape(RefineShorter(A, B).value, B)
  {
    hide Elems, Family.AllIndexed;
  }

  // ----- equal sizes -----

  lemma EqualShape(A: Family, B: Family)
    requires A.Size() == B.Size() && RefineEqual(A, B).Some?
    ensures if B.last == "" && A.last != "" && B.flex != {} then A.last in B.flex
      else SameShape(RefineEqual(A, B).value, B)
  {
    hide Elems, Family.AllIndexed;
  }

  lemma MovedLeading(A: Family, B: Family, q: seq<string>)
    requires A.Size() == B.Size() && B.last == "" && A.last != "" && B.flex != {}
    requires RefineEqual(A, B).Some?
    ensures var out := RefineEqual(A, B).value;
      && out.flex == B.flex - {A.last}
      && (Orders(q, B.flex - {A.last}) ==> out.Leading(q) == B.fixed + q + [A.last])
  {
    hide Elems, Family.AllIndexed;
  }

  lemma EqualKeepsAll(A: Family, B: Family, c: seq<string>)
    requires A.fixed == [] && A.Size() == B.Size() && RefineEqual(A, B).Some?
    requires Fits(c, A) && Fits(c, B)
    ensures Fits(c, RefineEqual(A, B).value)
  {
    EqualShape(A, B);
    hide RefineEqual, Fits;
    if B.last == "" && A.last != "" && B.flex != {} {
      MovedKeepsAll(A, B, c);
    } else {
      ShapeFits(c, RefineEqual(A, B).value, B);
    }
  }

  lemma MovedKeepsAll(A: Family, B: Family, c: seq<string>)
    requires A.fixed == [] && A.Size() == B.Size() && RefineEqual(A, B).Some?
    requires B.last == "" && A.last != "" && B.flex != {} && Fits(c, A) && Fits(c, B)
    ensures Fits(c, RefineEqual(A, B).value)
  {
    hide RefineEqual, Orders;
    NoFixedWindow(c, A);
    var o :| Orders(o, B.flex) && B.Leading(o) <= c;
    hide Fits;
    OrdersLength(o, B.flex);
    var m := |o| - 1;
    EndsIn(c, B.fixed, o, A.last);
    AllButLast(o, B.flex);
    MovedLeading(A, B, o[..m]);
    FitsLeading(c, RefineEqual(A, B).value, o[..m]);
  }

  lemma EndsIn(c: seq<string>, fixed: seq<string>, o: seq<string>, last: string)
    requires fixed + o + [] <= c && o != [] && |fixed| + |o| <= |c| && c[|fixed| + |o| - 1] == last
    ensures o[|o| - 1] == last && fixed + o[..|o| - 1] + [last] <= c
  {
    var lead := fixed + o + [];
    assert c[..|lead|] == lead;
    assert lead[|fixed| + |o| - 1] == o[|o| - 1];
    assert fixed + o[..|o| - 1] + [last] == lead;
  }

  lemma AllButLast(o: seq<string>, s: set<string>)
    requires Orders(o, s) && o != []
    ensures Orders(o[..|o| - 1], s - {o[|o| - 1]})
  {
    var m := |o| - 1;
    assert o == o[..m] + [o[m]] && o[m] in Elems(o);
    ElemsConcat(o[..m], [o[m]]);
    OrdersOne(o[m]);
    assert s - {o[m]} + {o[m]} == s;
    OrdersNoDup(o, s);
    assert o[m] !in Elems(o[..m]);
    assert Elems(o[..m]) == s - {o[m]};
  }

  // ----- the verdict -----

  /** An accepted merge of families that share an index keeps every index for both exactly when it
      pins at most one column in an order of its own. */
  lemma NoFixedKeepsAllIff(A: Family, B: Family)
    requires A.fixed == [] && WellFormed(A) && WellFormed(B) && RefineNoFixed(A, B).Some?
    ensures KeepsAll(RefineNoFixed(A, B).value, A, B) <==>
      !Compatible(A, B) || |Arbitrary(A, B)| <= 1
  {
    CompatibleVerdict(A, B);
    hide Fits, WellFormed;
    var out := RefineNoFixed(A, B).value;
    if Compatible(A, B) {
      if |Arbitrary(A, B)| <= 1 {
        forall c | Fits(c, A) && Fits(c, B) ensures Fits(c, out) {
          if A.Size() > B.Size() {
            LongerKeepsAll(A, B, c);
          } else if A.Size() == B.Size() {
            EqualKeepsAll(A, B, c);
          } else {
            ShorterKeepsAll(A, B, c);
          }
        }
      } else if A.Size() > B.Size() {
        LongerGivesAway(A, B);
      } else {
        ShorterNests(A, B);
        PinnedGivesAway(A, B);
      }
    }
  }

  lemma StripKeepsAll(left: Family, right: Family, n: nat, out: Family, out': Family)
    requires n <= |left.fixed| && n <= |right.fixed| && left.fixed[..n] == right.fixed[..n]
    requires SameShape(out, out'.(fixed := left.fixed[..n] + out'.fixed))
    ensures KeepsAll(out, left, right) <==> KeepsAll(out', Strip(left, n), Strip(right, n))
  {
    var prefix := left.fixed[..n];
    assert SameShape(Strip(out, n), out') && out.fixed[..n] == prefix;
    hide Fits;
    if KeepsAll(out, left, right) {
      forall d | Fits(d, Strip(left, n)) && Fits(d, Strip(right, n)) ensures Fits(d, out') {
        ShapeFits(d, Strip(out, n), out');
        UnstripFits(d, out, n);
        UnstripFits(d, left, n);
        UnstripFits(d, right, n);
        assert Fits(prefix + d, left) && Fits(prefix + d, right);
      }
    }
    if KeepsAll(out', Strip(left, n), Strip(right, n)) {
      forall c | Fits(c, left) && Fits(c, right) ensures Fits(c, out) {
        FitsStripped(c, out, n);
        ShapeFits(c[n..], Strip(out, n), out');
        FitsStripped(c, left, n);
        FitsStripped(c, right, n);
      }
    }
  }

  /** The same for any two families without repeated columns. */
  lemma KeepsAllIff(left: Family, right: Family)
    requires WellFormed(left) && WellFormed(right) && Refine(left, right).Some?
    ensures var p := Compared(left, right);
      KeepsAll(Refine(left, right).value, left, right) <==>
        !Compatible(left, right) || |Arbitrary(p.0, p.1)| <= 1
  {
    hide Refine, RefineNoFixed, WellFormed, Fits, Arbitrary;
    var n, p := CommonLength(left, right), Compared(left, right);
    RefineStripped(left, right);
    StripWellFormed(left, n);
    StripWellFormed(right, n);
    NoFixedKeepsAllIff(p.0, p.1);
    StripCompatible(left, right, n);
    StripKeepsAll(left, right, n, Refine(left, right).value, RefineNoFixed(p.0, p.1).value);
  }

  /** Columns in an arbitrary order come right after B's fixed columns, sorted. */
  lemma ArbitraryIsSorted(A: Family, B: Family)
    requires RefineNoFixed(A, B).Some? && Arbitrary(A, B) != {}
    ensures B.fixed + SortedOf(Arbitrary(A, B)) <= RefineNoFixed(A, B).value.fixed
  {
    if A.Size() > B.Size() {
      LongerPins(A, B);
      PinsLonger(B);
    } else {
      ShorterLeading(A, B, []);
      PinsShorter(A, B);
    }
    hide RefineLonger, RefineShorter;
  }

  // ----- which merges are accepted -----

  /** The end of the two families' columns agrees, as far as it is known where it lies. */
  predicate EndsAgree(A: Family, B: Family)
    requires B.flex != {} || B.fixed != []
  {
    if A.last == "" then true
    else if B.last != "" then A.last == B.last
    else if B.flex != {} then A.last in B.flex
    else A.last == B.fixed[|B.fixed| - 1]
  }

  /** Which pairs are accepted, whether or not an index can serve both: the shorter family's columns are
      among those of the longer; the ends agree if both are equally long, and differ if B is the shorter;
      and a shorter A is compared with B's fixed columns as far as it reaches. */
  lemma AcceptedIff(A: Family, B: Family)
    ensures A.Size() > B.Size() ==>
      (RefineNoFixed(A, B).Some? <==>
        B.AllIndexed() <= A.AllIndexed() && (B.last == "" || B.last != A.last))
    ensures A.Size() == B.Size() && (B.flex != {} || B.fixed != []) ==>
      (RefineNoFixed(A, B).Some? <==> A.AllIndexed() == B.AllIndexed() && EndsAgree(A, B))
    ensures A.Size() < B.Size() ==>
      (RefineNoFixed(A, B).Some? <==>
        && A.AllIndexed() <= B.AllIndexed()
        && (if A.Size() > |B.fixed| then
              Elems(B.fixed) <= A.flex && (A.last == "" || A.last in B.flex)
            else if A.last == "" then A.flex == Elems(B.fixed[..A.Size()])
            else A.last == B.fixed[A.Size() - 1]))
  {
    hide Elems, Family.AllIndexed, Pinned, PinnedShorter, MergeIncluded, SetLast;
  }
}
