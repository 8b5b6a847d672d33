/** The go-set collections the index planner is written with, and the facts about
    orderings of a finite set that its window checks rely on. */
module GoSets {

  /** The elements of a slice, as `set.From` collects them. */
  function Elems<T(==)>(s: seq<T>): set<T> {
    set x | x in s
  }

  predicate NoDup<T(==)>(s: seq<T>) {
    forall i, j :: 0 <= i < j < |s| ==> s[i] != s[j]
  }

  /** p lists every element of s exactly once (see `OrdersNoDup`): one of the orders `Slice()` may
      return. */
  predicate Orders<T(==)>(p: seq<T>, s: set<T>) {
    |p| == |s| && Elems(p) == s
  }

  lemma {:induction false} ElemsSize<T>(w: seq<T>)
    ensures |Elems(w)| <= |w|
    ensures |Elems(w)| == |w| <==> NoDup(w)
  {
    if w == [] {
    } else {
      var rest := w[1..];
      ElemsSize(rest);
      if w[0] in rest {
        assert Elems(w) == Elems(rest);
        var k :| 0 <= k < |rest| && rest[k] == w[0];
        assert w[k + 1] == w[0];
      } else {
        assert Elems(w) == {w[0]} + Elems(rest);
        assert NoDup(w) <==> NoDup(rest) by {
          if NoDup(w) {
            assert forall i, j :: 0 <= i < j < |rest| ==> rest[i] == w[i + 1] && rest[j] == w[j + 1];
          }
        }
      }
    }
  }

  /** Pigeonhole: a window of |s| slots that contains every element of s is an ordering of s. */
  lemma Pigeonhole<T>(w: seq<T>, s: set<T>)
    requires |w| == |s| && s <= Elems(w)
    ensures Orders(w, s)
  {
    ElemsSize(w);
    SubsetSize(s, Elems(w));
  }

  lemma {:induction false} SubsetSize<T>(s: set<T>, t: set<T>)
    requires s <= t
    ensures |s| <= |t|
    ensures |s| == |t| ==> s == t
  {
    assert t == s + (t - s);
    assert s * (t - s) == {};
  }

  lemma OrdersNoDup<T>(p: seq<T>, s: set<T>)
    ensures Orders(p, s) <==> NoDup(p) && Elems(p) == s
  {
    ElemsSize(p);
  }

  lemma OrdersLength<T>(p: seq<T>, s: set<T>)
    requires Orders(p, s)
    ensures |p| == |s|
  {
  }

  lemma OrdersConcat<T>(p: seq<T>, s: set<T>, q: seq<T>, t: set<T>)
    requires Orders(p, s) && Orders(q, t) && s !! t
    ensures Orders(p + q, s + t)
  {
    ElemsConcat(p, q);
    UnionSize(s, t);
  }

  lemma UnionSize<T>(s: set<T>, t: set<T>)
    ensures |s + t| <= |s| + |t|
    ensures |s + t| == |s| + |t| <==> s !! t
  {
    assert s + t == s + (t - s) && s !! (t - s);
    assert t == (t - s) + t * s && (t - s) !! t * s;
  }

  lemma OrdersNone<T>(s: set<T>)
    ensures Orders([], s) <==> s == {}
  {
  }

  lemma OrdersOne<T>(x: T)
    ensures Orders([x], {x})
  {
    assert Elems([x]) == {x};
  }

  /** Every finite set can be listed, starting from any element one likes. */
  lemma {:induction false} SomeOrder<T>(s: set<T>) returns (p: seq<T>)
    ensures Orders(p, s)
    decreases |s|
  {
    if s == {} {
      p := [];
    } else {
      var x :| x in s;
      p := OrderFrom(s, x);
    }
  }

  lemma {:induction false} OrderFrom<T>(s: set<T>, x: T) returns (p: seq<T>)
    requires x in s
    ensures Orders(p, s) && |p| > 0 && p[0] == x
    decreases |s|, 0
  {
    var rest := SomeOrder(s - {x});
    p := [x] + rest;
    ElemsConcat([x], rest);
    assert Elems([x]) == {x};
  }

  lemma ElemsConcat<T>(a: seq<T>, b: seq<T>)
    ensures Elems(a + b) == Elems(a) + Elems(b)
  {
  }

  /** `pure_utils.Map(src, f)`. */
  function MapSlice<T, U>(src: seq<T>, f: T -> U): (r: seq<U>)
    ensures |r| == |src| && forall k :: 0 <= k < |src| ==> r[k] == f(src[k])
  {
    seq(|src|, k requires 0 <= k < |src| => f(src[k]))
  }

  /** go-set's `*set.Set[string]`: shared by every struct that holds the pointer. */
  class StringSet {
    var items: set<string>

    constructor ()
      ensures items == {}
    {
      items := {};
    }

    constructor From(s: seq<string>)
      ensures items == Elems(s)
    {
      items := Elems(s);
    }

    method Insert(x: string)
      modifies this
      ensures items == old(items) + {x}
    {
      items := items + {x};
    }

    method RemoveSlice(s: seq<string>)
      modifies this
      ensures items == old(items) - Elems(s)
    {
      items := items - Elems(s);
    }

    method Copy() returns (c: StringSet)
      ensures fresh(c) && c.items == items
    {
      c := new StringSet();
      c.items := items;
    }

    method Remove(x: string)
      modifies this
      ensures items == old(items) - {x}
    {
      items := items - {x};
    }

    method Union(o: StringSet) returns (r: StringSet)
      ensures fresh(r) && r.items == items + o.items
    {
      r := new StringSet();
      r.items := items + o.items;
    }

    method Difference(o: StringSet) returns (r: StringSet)
      ensures fresh(r) && r.items == items - o.items
    {
      r := new StringSet();
      r.items := items - o.items;
    }

    method Intersect(o: StringSet) returns (r: StringSet)
      ensures fresh(r) && r.items == items * o.items
    {
      r := new StringSet();
      r.items := items * o.items;
    }

    /** The elements in an unspecified order, as ranging over the underlying Go map gives them. */
    method Slice() returns (s: seq<string>)
      ensures Orders(s, items)
    {
      hide Elems, Orders;
      s := [];
      var todo := items;
      OrdersNone(items - todo);
      while todo != {}
        invariant Orders(s, items - todo) && todo <= items
        decreases todo
      {
        var x :| x in todo;
        OrdersOne(x);
        OrdersConcat(s, items - todo, [x], {x});
        assert items - todo + {x} == items - (todo - {x});
        s, todo := s + [x], todo - {x};
      }
      assert items - todo == items;
    }
  }
}
