/** When every index for one family serves another, decided on the families alone: by their cuts, the
    bags of leading columns that they prescribe. Nothing is assumed of the families; a column may be
    repeated. */
module FamilyCuts {
  import opened Wrappers
  import opened GoSets
  import opened IndexModels
  import opened FamilyMerging

  /** The leading columns up to each fixed column, to the last flexible column, and to the end. */
  function Cuts(f: Family): set<multiset<string>> {
    var fixed := multiset(f.fixed);
    (set k | 0 <= k <= |f.fixed| :: multiset(f.fixed[..k]))
    + {fixed + multiset(f.flex), fixed + multiset(f.flex) + multiset(f.LastSet())}
  }

  predicate StartsWith(c: seq<string>, m: multiset<string>) {
    |m| <= |c| && multiset(c[..|m|]) == m
  }

  // ----- bags and lists -----

  lemma {:induction false} NoDupBag<T>(w: seq<T>, x: T)
    requires NoDup(w)
    ensures multiset(w)[x] == if x in w then 1 else 0
  {
    if w != [] {
      var m := |w| - 1;
      NoDupBag(w[..m], x);
      assert w == w[..m] + [w[m]];
    }
  }

  /** To list a set once each is to have it as one's bag. */
  lemma OrdersIffBag<T>(w: seq<T>, s: set<T>)
    ensures Orders(w, s) <==> multiset(w) == multiset(s)
  {
    if Orders(w, s) {
      OrdersNoDup(w, s);
      forall x ensures multiset(w)[x] == multiset(s)[x] {
        NoDupBag(w, x);
        assert x in w <==> x in Elems(w);
      }
    }
    if multiset(w) == multiset(s) {
      assert |w| == |multiset(w)| && |s| == |multiset(s)|;
      assert forall x :: x in w <==> x in multiset(w);
      assert forall x :: x in s <==> x in multiset(s);
      assert Elems(w) == s;
    }
  }

  lemma BagConcat<T>(a: seq<T>, b: seq<T>)
    ensures multiset(a + b) == multiset(a) + multiset(b)
  {
  }

  lemma BagSize<T>(w: seq<T>)
    ensures |multiset(w)| == |w|
  {
  }

  lemma {:induction false} ListingOf<T>(m: multiset<T>) returns (w: seq<T>)
    ensures multiset(w) == m
    decreases |m|
  {
    w := [];
    if m != multiset{} {
      var x :| x in m;
      var rest := ListingOf(m - multiset{x});
      w := rest + [x];
    }
  }

  /** Lists whose first k columns have the same bag for every k up to n agree up to n. */
  lemma {:induction false} SamePrefixBags<T>(a: seq<T>, b: seq<T>, n: nat)
    requires n <= |a| && n <= |b|
    requires forall k :: 0 <= k <= n ==> multiset(a[..k]) == multiset(b[..k])
    ensures a[..n] == b[..n]
  {
    if n > 0 {
      SamePrefixBags(a, b, n - 1);
      assert a[..n] == a[..n - 1] + [a[n - 1]] && b[..n] == b[..n - 1] + [b[n - 1]];
      SameRest(multiset(a[..n - 1]), multiset([a[n - 1]]), multiset([b[n - 1]]));
      assert a[n - 1] in multiset([a[n - 1]]);
    }
  }

  // ----- fitting is starting with every cut -----

  lemma FixedCuts(c: seq<string>, f: Family)
    requires forall m | m in Cuts(f) :: StartsWith(c, m)
    ensures |f.fixed| <= |c| && c[..|f.fixed|] == f.fixed
  {
    var n := |f.fixed|;
    forall k | 0 <= k <= n ensures k <= |c| && multiset(c[..k]) == multiset(f.fixed[..k]) {
      var m := multiset(f.fixed[..k]);
      assert m in Cuts(f);
      BagSize(f.fixed[..k]);
      assert StartsWith(c, m);
    }
    assert f.fixed[..n] == f.fixed;
    SamePrefixBags(c, f.fixed, n);
  }

  lemma WindowCuts(c: seq<string>, f: Family)
    requires |f.fixed| <= |c| && c[..|f.fixed|] == f.fixed
    ensures var n, m := |f.fixed|, |f.flex|;
      StartsWith(c, multiset(f.fixed) + multiset(f.flex)) <==>
        n + m <= |c| && Orders(c[n..n + m], f.flex)
  {
    var n, m := |f.fixed|, |f.flex|;
    BagSize(f.fixed);
    assert |multiset(f.flex)| == m;
    if n + m <= |c| {
      assert c[..n + m] == f.fixed + c[n..n + m];
      BagConcat(f.fixed, c[n..n + m]);
      OrdersIffBag(c[n..n + m], f.flex);
      SameRest(multiset(f.fixed), multiset(c[n..n + m]), multiset(f.flex));
    }
  }

  lemma SameRest<T>(a: multiset<T>, b: multiset<T>, c: multiset<T>)
    ensures a + b == a + c <==> b == c
  {
    assert (a + b) - a == b && (a + c) - a == c;
  }

  lemma LastCut(c: seq<string>, f: Family)
    requires StartsWith(c, multiset(f.fixed) + multiset(f.flex))
    ensures StartsWith(c, multiset(f.fixed) + multiset(f.flex) + multiset(f.LastSet())) <==>
      f.last == "" || (f.Size() <= |c| && c[f.Size() - 1] == f.last)
  {
    var inner, s := multiset(f.fixed) + multiset(f.flex), f.Size();
    BagSize(f.fixed);
    assert |multiset(f.flex)| == |f.flex|;
    if f.last == "" {
      assert inner + multiset(f.LastSet()) == inner;
    } else if s <= |c| {
      assert c[..s] == c[..s - 1] + [c[s - 1]];
      BagConcat(c[..s - 1], [c[s - 1]]);
      SameRest(inner, multiset([c[s - 1]]), multiset(f.LastSet()));
      OrdersIffBag([c[s - 1]], f.LastSet());
      assert Orders([c[s - 1]], {f.last}) <==> c[s - 1] == f.last by {
        OrdersOne(c[s - 1]);
      }
    }
  }

  lemma StartsFit(c: seq<string>, f: Family)
    requires forall m | m in Cuts(f) :: StartsWith(c, m)
    ensures FitsWindows(c, f)
  {
    hide Orders, StartsWith;
    FixedCuts(c, f);
    WindowCuts(c, f);
    assert multiset(f.fixed) + multiset(f.flex) in Cuts(f);
    assert multiset(f.fixed) + multiset(f.flex) + multiset(f.LastSet()) in Cuts(f);
    hide Cuts;
    LastCut(c, f);
  }

  predicate FixedCut(f: Family, m: multiset<string>) {
    exists k :: 0 <= k <= |f.fixed| && m == multiset(f.fixed[..k])
  }

  lemma CutCases(f: Family, m: multiset<string>)
    requires m in Cuts(f)
    ensures FixedCut(f, m) || m == multiset(f.fixed) + multiset(f.flex)
      || m == multiset(f.fixed) + multiset(f.flex) + multiset(f.LastSet())
  {
  }

  lemma FixedStarts(c: seq<string>, f: Family, m: multiset<string>)
    requires |f.fixed| <= |c| && f.fixed == c[..|f.fixed|] && FixedCut(f, m)
    ensures StartsWith(c, m)
  {
    var k :| 0 <= k <= |f.fixed| && m == multiset(f.fixed[..k]);
    BagSize(f.fixed[..k]);
    assert c[..|f.fixed|][..k] == c[..k];
  }

  lemma FitStarts(c: seq<string>, f: Family, m: multiset<string>)
    requires FitsWindows(c, f) && m in Cuts(f)
    ensures StartsWith(c, m)
  {
    hide Cuts, StartsWith, Orders, FixedCut;
    CutCases(f, m);
    if FixedCut(f, m) {
      FixedStarts(c, f, m);
    } else {
      WindowCuts(c, f);
      LastCut(c, f);
    }
  }

  lemma FitsIffCuts(c: seq<string>, f: Family)
    ensures Fits(c, f) <==> forall m | m in Cuts(f) :: StartsWith(c, m)
  {
    FitsIffWindows(c, f);
    hide Fits, FitsWindows, Cuts, StartsWith;
    if Fits(c, f) {
      forall m | m in Cuts(f) ensures StartsWith(c, m) {
        FitStarts(c, f, m);
      }
    }
    if forall m | m in Cuts(f) :: StartsWith(c, m) {
      StartsFit(c, f);
    }
  }

  // ----- one family in place of another -----

  /** An index for out with an order of its flexible columns of which the first d are not the bag m. */
  lemma OtherOrder(out: Family, d: nat, m: multiset<string>) returns (q: seq<string>)
    requires 0 < d < |out.flex|
    ensures Orders(q, out.flex) && multiset(q[..d]) != m
  {
    q := SomeOrder(out.flex);
    OrdersNoDup(q, out.flex);
    if multiset(q[..d]) == m {
      var y := q[d];
      assert forall k :: 0 <= k < d ==> q[..d][k] == q[k] != y;
      assert y !in multiset(q[..d]);
      assert y in Elems(q);
      q := OrderFrom(out.flex, y);
      assert q[..d][0] == y;
      assert y in multiset(q[..d]);
    }
  }

  lemma LeadingFits(out: Family, q: seq<string>)
    requires Orders(q, out.flex)
    ensures |out.Leading(q)| == out.Size() && Fits(out.Leading(q), out)
  {
    assert out.Leading(q) <= out.Leading(q);
  }

  /** For a cut that out does not prescribe, some index for out does not start with it. */
  lemma MissingCut(out: Family, m: multiset<string>) returns (q: seq<string>)
    requires m !in Cuts(out)
    ensures Orders(q, out.flex) && !StartsWith(out.Leading(q), m)
  {
    var n, d := |out.fixed|, |m| - |out.fixed|;
    if 0 < d < |out.flex| {
      q := OtherOrder(out, d, m - multiset(out.fixed));
      var c := out.Leading(q);
      assert c[..|m|] == out.fixed + q[..d];
      BagConcat(out.fixed, q[..d]);
      SameRest(multiset(out.fixed), multiset(q[..d]), m - multiset(out.fixed));
      assert multiset(c[..|m|]) - multiset(out.fixed) == multiset(q[..d]);
    } else {
      q := SomeOrder(out.flex);
      var c := out.Leading(q);
      LeadingFits(out, q);
      FitsIffCuts(c, out);
      if StartsWith(c, m) {
        CutOfSize(c, out, |m|);
      }
    }
  }

  /** Outside the flexible columns there is a cut of every size. */
  lemma CutOfSize(c: seq<string>, out: Family, s: nat)
    requires |c| == out.Size() && s <= |c| && forall m | m in Cuts(out) :: StartsWith(c, m)
    requires s <= |out.fixed| || s >= |out.fixed| + |out.flex|
    ensures multiset(c[..s]) in Cuts(out)
  {
    BagSize(out.fixed);
    assert |multiset(out.flex)| == |out.flex| && |multiset(out.LastSet())| == |out.LastSet()|;
    var inner := multiset(out.fixed) + multiset(out.flex);
    if s <= |out.fixed| {
      BagSize(out.fixed[..s]);
      assert multiset(out.fixed[..s]) in Cuts(out);
      assert StartsWith(c, multiset(out.fixed[..s]));
    } else if s == |inner| {
      assert StartsWith(c, inner);
    } else {
      assert StartsWith(c, inner + multiset(out.LastSet()));
    }
  }

  /** Every index for out fits f exactly when out prescribes every cut that f does. */
  lemma CutsDecide(out: Family, f: Family)
    ensures (forall c :: Fits(c, out) ==> Fits(c, f)) <==> Cuts(f) <= Cuts(out)
  {
    hide Cuts, StartsWith, Fits;
    if Cuts(f) <= Cuts(out) {
      forall c | Fits(c, out) ensures Fits(c, f) {
        FitsIffCuts(c, out);
        FitsIffCuts(c, f);
      }
    } else {
      var m :| m in Cuts(f) && m !in Cuts(out);
      var q := MissingCut(out, m);
      LeadingFits(out, q);
      FitsIffCuts(out.Leading(q), f);
    }
  }

  // ----- two families on one index -----

  /** Any two of the bags are nested. */
  predicate Chain(ms: set<multiset<string>>) {
    forall m, n | m in ms && n in ms && |m| <= |n| :: m <= n
  }

  lemma StartsNest(c: seq<string>, m: multiset<string>, n: multiset<string>)
    requires StartsWith(c, m) && StartsWith(c, n) && |m| <= |n|
    ensures m <= n
  {
    assert c[..|n|] == c[..|m|] + c[|m|..|n|];
    BagConcat(c[..|m|], c[|m|..|n|]);
  }

  lemma {:induction false} Largest(ms: set<multiset<string>>) returns (m: multiset<string>)
    requires ms != {}
    ensures m in ms && forall n | n in ms :: |n| <= |m|
    decreases |ms|
  {
    m :| m in ms;
    if ms != {m} {
      assert ms - {m} != {} by {
        assert ms == {m} + (ms - {m});
      }
      var k := Largest(ms - {m});
      m := if |k| > |m| then k else m;
    }
  }

  /** A chain of bags is what some list starts with. */
  lemma {:induction false} Realised(ms: set<multiset<string>>) returns (c: seq<string>)
    requires Chain(ms)
    ensures forall m | m in ms :: StartsWith(c, m)
    ensures ms == {} ==> c == []
    ensures ms != {} ==> multiset(c) in ms
    decreases |ms|
  {
    if ms == {} {
      c := [];
    } else {
      var m := Largest(ms);
      var c' := Realised(ms - {m});
      BagSize(c');
      assert multiset(c') <= m;
      var rest := ListingOf(m - multiset(c'));
      c := c' + rest;
      BagConcat(c', rest);
      BagSize(c);
      assert multiset(c) == m && c[..|m|] == c;
      forall n | n in ms ensures StartsWith(c, n) {
        if n != m {
          assert StartsWith(c', n);
          assert c[..|n|] == c'[..|n|];
        }
      }
    }
  }

  /** Two families share an index exactly when their cuts form one chain. */
  lemma ChainsDecide(A: Family, B: Family)
    ensures Compatible(A, B) <==> Chain(Cuts(A) + Cuts(B))
  {
    hide Cuts, StartsWith, Fits;
    if Compatible(A, B) {
      var c :| Fits(c, A) && Fits(c, B);
      FitsIffCuts(c, A);
      FitsIffCuts(c, B);
      forall m, n | m in Cuts(A) + Cuts(B) && n in Cuts(A) + Cuts(B) && |m| <= |n| ensures m <= n {
        StartsNest(c, m, n);
      }
    }
    if Chain(Cuts(A) + Cuts(B)) {
      var c := Realised(Cuts(A) + Cuts(B));
      FitsIffCuts(c, A);
      FitsIffCuts(c, B);
    }
  }

  /** The verdict on a merge of any two families, with repeated columns or without: a shared index
      exists exactly when the cuts form a chain, and every index for the merged family serves both
      exactly when it prescribes all of them. */
  lemma AnyMergeVerdict(left: Family, right: Family)
    ensures Compatible(left, right) <==> Chain(Cuts(left) + Cuts(right))
    ensures Refine(left, right).Some? ==>
      (ServesBoth(Refine(left, right).value, left, right)
       <==> Cuts(left) + Cuts(right) <= Cuts(Refine(left, right).value))
  {
    hide Cuts, Refine, Fits, Chain;
    ChainsDecide(left, right);
    if Refine(left, right).Some? {
      CutsDecide(Refine(left, right).value, left);
      CutsDecide(Refine(left, right).value, right);
    }
  }

  /** The guards judge well-formed families only: with column x both flexible and last the families
      share an index on (x, x), and the share guard says that they do not. */
  lemma GuardsNeedWellFormed(t: string, x: string, A: Family, B: Family)
    requires x != "" && A == Family(t, [], {x}, x, {}) && B == Family(t, [], {x}, "", {})
    ensures !WellFormed(A) && Compatible(A, B) && Refine(A, B) == Some(A) && !ShareGuard(B, A)
  {
    assert Elems<string>([]) == {} && A.AllIndexed() == {x} == B.AllIndexed();
    NothingToRemove(A, B);
    OrdersOne(x);
    FitsBy([x, x], A, [x]);
    FitsBy([x, x], B, [x]);
  }
}
