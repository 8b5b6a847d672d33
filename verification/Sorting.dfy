/** Byte-wise string order and sorted listings of a set, for `slices.Sort`. */
module Sorting {
  import opened GoSets

  predicate Le(a: string, b: string) {
    a == "" || (b != "" && (a[0] < b[0] || (a[0] == b[0] && Le(a[1..], b[1..]))))
  }

  lemma {:induction false} LeTotal(a: string, b: string)
    ensures Le(a, b) || Le(b, a)
    ensures Le(a, b) && Le(b, a) ==> a == b
  {
    if a != "" && b != "" && a[0] == b[0] {
      LeTotal(a[1..], b[1..]);
      assert a == [a[0]] + a[1..] && b == [b[0]] + b[1..];
    }
  }

  lemma {:induction false} LeTransitive(a: string, b: string, c: string)
    requires Le(a, b) && Le(b, c)
    ensures Le(a, c)
  {
    if a != "" && a[0] == b[0] == c[0] {
      LeTransitive(a[1..], b[1..], c[1..]);
    }
  }

  /** The order of bytes: a is a prefix of b, or smaller where they first differ. */
  lemma {:induction false} LeIsLexicographic(a: string, b: string)
    ensures Le(a, b) <==>
      a <= b || exists n :: 0 <= n < |a| && n < |b| && a[..n] == b[..n] && a[n] < b[n]
  {
    if a != "" && b != "" && a[0] == b[0] {
      LeIsLexicographic(a[1..], b[1..]);
      assert a == [a[0]] + a[1..] && b == [b[0]] + b[1..];
      if n :| 0 <= n < |a| && n < |b| && a[..n] == b[..n] && a[n] < b[n] {
        assert n > 0;
        assert a[1..][..n - 1] == a[..n][1..] == b[..n][1..] == b[1..][..n - 1];
        assert a[1..][n - 1] < b[1..][n - 1];
      }
      if n :| 0 <= n < |a[1..]| && n < |b[1..]| && a[1..][..n] == b[1..][..n] && a[1..][n] < b[1..][n] {
        assert a[..n + 1] == [a[0]] + a[1..][..n] == [b[0]] + b[1..][..n] == b[..n + 1];
        assert a[n + 1] < b[n + 1];
      }
    } else if a != "" && b != "" {
      assert a[..0] == b[..0];
    }
  }

  predicate IsLeast(m: string, s: set<string>) {
    m in s && forall y | y in s :: Le(m, y)
  }

  lemma LeastIsUnique(m: string, n: string, s: set<string>)
    requires IsLeast(m, s) && IsLeast(n, s)
    ensures m == n
  {
    LeTotal(m, n);
  }

  lemma {:induction false} LeastExists(s: set<string>) returns (m: string)
    requires s != {}
    ensures IsLeast(m, s)
    decreases |s|
  {
    m :| m in s;
    LeTotal(m, m);
    var rest := s - {m};
    assert s == {m} + rest;
    if rest != {} {
      var n := LeastExists(rest);
      LeTotal(m, n);
      forall y | y in s ensures Le(if Le(m, n) then m else n, y) {
        if y != m && Le(m, n) {
          LeTransitive(m, n, y);
        }
      }
      m := if Le(m, n) then m else n;
    }
  }

  function Least(s: set<string>): (m: string)
    requires s != {}
    ensures IsLeast(m, s)
  {
    assert exists m :: IsLeast(m, s) by {
      var m := LeastExists(s);
    }
    assert forall m, n :: IsLeast(m, s) && IsLeast(n, s) ==> m == n by {
      forall m, n | IsLeast(m, s) && IsLeast(n, s) ensures m == n {
        LeastIsUnique(m, n, s);
      }
    }
    var m :| m in s && IsLeast(m, s);
    m
  }

  predicate IsSorted(p: seq<string>) {
    forall i, j :: 0 <= i < j < |p| ==> Le(p[i], p[j])
  }

  /** The sorted listing of a set. */
  function SortedOf(s: set<string>): (p: seq<string>)
    ensures Orders(p, s) && IsSorted(p)
    decreases |s|
  {
    if s == {} then []
    else
      var m := Least(s);
      var rest := SortedOf(s - {m});
      LeastFirst(m, rest, s);
      [m] + rest
  }

  lemma LeastFirst(m: string, rest: seq<string>, s: set<string>)
    requires IsLeast(m, s) && Orders(rest, s - {m}) && IsSorted(rest)
    ensures Orders([m] + rest, s) && IsSorted([m] + rest)
  {
    hide Le;
    assert forall k :: 0 <= k < |rest| ==> rest[k] in Elems(rest);
    hide Elems;
    OrdersOne(m);
    OrdersConcat([m], {m}, rest, s - {m});
    assert {m} + (s - {m}) == s;
  }

  /** Whatever order `Slice()` returned the elements in, sorting them gives the same listing. */
  lemma {:induction false} SortedIsUnique(p: seq<string>, q: seq<string>, s: set<string>)
    requires Orders(p, s) && IsSorted(p) && Orders(q, s) && IsSorted(q)
    ensures p == q
    decreases |p|
  {
    if p != [] {
      FirstIsLeast(p, s);
      FirstIsLeast(q, s);
      LeastIsUnique(p[0], q[0], s);
      TailOrders(p, s);
      TailOrders(q, s);
      SortedIsUnique(p[1..], q[1..], s - {p[0]});
      assert p == [p[0]] + p[1..] && q == [q[0]] + q[1..];
    }
  }

  lemma FirstIsLeast(p: seq<string>, s: set<string>)
    requires Orders(p, s) && IsSorted(p) && p != []
    ensures IsLeast(p[0], s)
  {
    LeTotal(p[0], p[0]);
    forall y | y in s ensures Le(p[0], y) {
      assert y in Elems(p);
      var k :| 0 <= k < |p| && p[k] == y;
    }
  }

  lemma TailOrders(p: seq<string>, s: set<string>)
    requires Orders(p, s) && p != []
    ensures Orders(p[1..], s - {p[0]})
  {
    OrdersNoDup(p, s);
    assert p == [p[0]] + p[1..];
    ElemsConcat([p[0]], p[1..]);
  }

  /** `slices.Sort`. */
  method Sort(s: seq<string>) returns (r: seq<string>)
    ensures multiset(r) == multiset(s) && IsSorted(r)
  {
    hide IsSorted, Le;
    r := [];
    SortedEmpty();
    for n := 0 to |s|
      invariant multiset(r) == multiset(s[..n]) && IsSorted(r)
    {
      var k := |r|;
      while k > 0 && !Le(r[k - 1], s[n])
        invariant 0 <= k <= |r|
        invariant forall j :: k <= j < |r| ==> Le(s[n], r[j])
      {
        LeTotal(r[k - 1], s[n]);
        k := k - 1;
      }
      InsertKeepsSorted(r, k, s[n]);
      InsertKeepsElements(r, k, s[n]);
      assert s[..n + 1] == s[..n] + [s[n]];
      r := r[..k] + [s[n]] + r[k..];
    }
    assert s[..|s|] == s;
  }

  lemma SortedEmpty()
    ensures IsSorted([])
  {
  }

  lemma InsertKeepsSorted(r: seq<string>, k: nat, x: string)
    requires IsSorted(r) && k <= |r|
    requires k > 0 ==> Le(r[k - 1], x)
    requires forall j :: k <= j < |r| ==> Le(x, r[j])
    ensures IsSorted(r[..k] + [x] + r[k..])
  {
    forall i | 0 <= i < k ensures Le(r[i], x) {
      if i < k - 1 {
        LeTransitive(r[i], r[k - 1], x);
      }
    }
  }

  lemma InsertKeepsElements(r: seq<string>, k: nat, x: string)
    requires k <= |r|
    ensures multiset(r[..k] + [x] + r[k..]) == multiset(r) + multiset{x}
  {
    assert r == r[..k] + r[k..];
  }

  lemma SortedSliceIsSortedOf(p: seq<string>, r: seq<string>, s: set<string>)
    requires Orders(p, s) && multiset(r) == multiset(p) && IsSorted(r)
    ensures r == SortedOf(s)
  {
    assert |r| == |multiset(r)| && |p| == |multiset(p)|;
    forall x ensures x in r <==> x in p {
      assert x in r <==> x in multiset(r);
      assert x in p <==> x in multiset(p);
    }
    assert Elems(r) == Elems(p);
    SortedIsUnique(r, SortedOf(s), s);
  }
}
