/** The merge of two index families as it runs, on families whose sets are shared by reference
    (models/index_family.go:61-120, usecases/indexes/index_family.go:72-273). Each method computes the
    value that its counterpart in FamilyMerging describes, in sets of its own; none has a frame, so
    the families it is given are left as they were. */
module FamilyRefinement {
  import opened Wrappers
  import opened GoSets
  import opened Sorting
  import opened IndexModels
  import opened FamilyMerging

  method AllIndexedValues(f: FamilyRef) returns (out: StringSet)
    ensures fresh(out) && out.items == f.Value().AllIndexed()
  {
    var fixed := new StringSet.From(f.fixed);
    out := f.flex.Union(fixed);
    if f.last != "" {
      out.Insert(f.last);
    }
  }

  method MergeIncludedFrom(f: FamilyRef, B: FamilyRef) returns (out: FamilyRef)
    ensures fresh(out.flex) && fresh(out.included) && out.flex != out.included
    ensures out.Value() == MergeIncluded(f.Value(), B.Value())
  {
    out := f.Copy();
    var included := out.included.Union(B.included);
    out := out.(included := included);
    var all := AllIndexedValues(out);
    included := out.included.Difference(all);
    out := out.(included := included);
  }

  /** The receiver's fields are updated; its sets stay the same objects. */
  method UpdateLast(f: FamilyRef, last: string) returns (out: FamilyRef)
    ensures out.flex == f.flex && out.included == f.included
    ensures out.Value() == SetLast(f.Value(), last)
  {
    out := f;
    if last == "" {
      return out.(last := "");
    }
    if |out.flex.items| == 0 {
      out := out.(last := "", fixed := out.fixed + [last]);
    } else {
      out := out.(last := last);
    }
  }

  method WithoutPrefix(f: FamilyRef, prefix: seq<string>) returns (out: FamilyRef)
    requires prefix <= f.fixed
    ensures fresh(out.flex) && fresh(out.included) && out.flex != out.included
    ensures out.Value() == RemoveFixedPrefix(f.Value(), prefix)
  {
    var flex := f.flex.Copy();
    var included := f.included.Copy();
    out := FamilyRef("", f.fixed[|prefix|..], flex, f.last, included);
  }

  method WithPrefix(f: FamilyRef, prefix: seq<string>) returns (out: FamilyRef)
    ensures fresh(out.flex) && fresh(out.included) && out.flex != out.included
    ensures out.Value() == PrependPrefix(f.Value(), prefix)
  {
    var flex := f.flex.Copy();
    var included := f.included.Copy();
    out := FamilyRef("", prefix + f.fixed, flex, f.last, included);
  }

  method SortedSlice(s: StringSet) returns (r: seq<string>)
    ensures r == SortedOf(s.items)
  {
    var p := s.Slice();
    r := Sort(p);
    SortedSliceIsSortedOf(p, r, s.items);
  }

  /** `refineIdxFamilies`. */
  method RefineIdxFamilies(left: FamilyRef, right: FamilyRef) returns (r: Option<FamilyRef>)
    ensures r.Some? ==> fresh(r.value.flex) && fresh(r.value.included)
    ensures Shown(r) == Refine(left.Value(), right.Value())
    decreases |left.fixed|
  {
    var prefixLen := if |left.fixed| < |right.fixed| then |left.fixed| else |right.fixed|;
    if prefixLen > 0 {
      for i := 0 to prefixLen
        invariant left.fixed[..i] == right.fixed[..i]
      {
        if left.fixed[i] != right.fixed[i] {
          assert left.fixed[..prefixLen][i] != right.fixed[..prefixLen][i];
          return None;
        }
      }
      var fixedPrefix := left.fixed[..prefixLen];
      var l := WithoutPrefix(left, fixedPrefix);
      var rt := WithoutPrefix(right, fixedPrefix);
      r := RefineIdxFamilies(l, rt);
      if r.Some? {
        var out := WithPrefix(r.value, fixedPrefix);
        r := Some(out);
      }
      return;
    }
    if |right.fixed| == 0 {
      r := RefineFirstHasNoFixed(right, left);
    } else {
      r := RefineFirstHasNoFixed(left, right);
    }
  }

  ghost function Shown(r: Option<FamilyRef>): Option<Family>
    reads if r.Some? then {r.value.flex, r.value.included} else {}
  {
    if r.Some? then Some(r.value.Value()) else None
  }

  /** `refineIdxFamiliesFirstHasNoFixed`, by the three cases of its sizes. */
  method RefineFirstHasNoFixed(A: FamilyRef, B: FamilyRef) returns (r: Option<FamilyRef>)
    ensures r.Some? ==> fresh(r.value.flex) && fresh(r.value.included)
    ensures Shown(r) == RefineNoFixed(A.Value(), B.Value())
  {
    hide RefineLonger, RefineEqual, RefineShorter;
    if A.Size() > B.Size() {
      r := MergeLonger(A, B);
    } else if A.Size() == B.Size() {
      r := MergeEqual(A, B);
    } else {
      r := MergeShorter(A, B);
    }
  }

  /** A.Size() > B.Size(). */
  method MergeLonger(A: FamilyRef, B: FamilyRef) returns (r: Option<FamilyRef>)
    requires A.Size() > B.Size()
    ensures r.Some? ==> fresh(r.value.flex) && fresh(r.value.included)
    ensures Shown(r) == RefineLonger(A.Value(), B.Value())
  {
    hide SetLast, MergeIncluded, Family.AllIndexed, Elems, SortedOf;
    var allA := AllIndexedValues(A);
    var allB := AllIndexedValues(B);
    if !(allB.items <= allA.items) {
      return None;
    }
    var out := B.Copy();
    if B.last != "" {
      if B.last == A.last {
        return None;
      }
      var fixAppend := SortedSlice(B.flex);
      out := out.(fixed := out.fixed + fixAppend);
      out := out.(fixed := out.fixed + [B.last]);
    }
    assert out.fixed == Pinned(B.Value());
    var fixed := new StringSet.From(out.fixed);
    var flex := A.flex.Difference(fixed);
    out := out.(flex := flex);
    ghost var shape := out.Value();
    assert shape == B.Value().(fixed := Pinned(B.Value()), flex := A.Value().flex - Elems(Pinned(B.Value())));
    out := UpdateLast(out, A.last);
    out := MergeIncludedFrom(out, A);
    r := Some(out);
  }

  /** A.Size() == B.Size(). */
  method MergeEqual(A: FamilyRef, B: FamilyRef) returns (r: Option<FamilyRef>)
    requires A.Size() == B.Size()
    ensures r.Some? ==> fresh(r.value.flex) && fresh(r.value.included)
    ensures Shown(r) == RefineEqual(A.Value(), B.Value())
  {
    hide SetLast, MergeIncluded, Elems;
    var allA := AllIndexedValues(A);
    var allB := AllIndexedValues(B);
    if allA.items != allB.items {
      return None;
    }
    var out := B.Copy();
    if B.last != "" {
      if A.last != "" && A.last != B.last {
        return None;
      }
    } else if A.last != "" && |B.flex.items| == 0 {
      if A.last != B.fixed[|B.fixed| - 1] {
        return None;
      }
    } else if A.last != "" {
      if A.last !in B.flex.items {
        return None;
      }
      out.flex.Remove(A.last);
      assert out.Value() == B.Value().(flex := B.Value().flex - {A.last});
      out := UpdateLast(out, A.last);
    }
    out := MergeIncludedFrom(out, A);
    r := Some(out);
  }

  /** A.Size() < B.Size(). */
  method MergeShorter(A: FamilyRef, B: FamilyRef) returns (r: Option<FamilyRef>)
    requires A.Size() < B.Size()
    ensures r.Some? ==> fresh(r.value.flex) && fresh(r.value.included)
    ensures Shown(r) == RefineShorter(A.Value(), B.Value())
  {
    hide SetLast, MergeIncluded, Family.AllIndexed, Elems, SortedOf;
    var allA := AllIndexedValues(A);
    var allB := AllIndexedValues(B);
    if !(allA.items <= allB.items) {
      return None;
    }
    var out := B.Copy();
    if A.Size() <= |B.fixed| {
      if A.last == "" {
        var first := new StringSet.From(B.fixed[..A.Size()]);
        if A.flex.items != first.items {
          return None;
        }
        var flex := B.flex.Difference(first);
        out := out.(flex := flex);
      } else if B.fixed[A.Size() - 1] != A.last {
        return None;
      }
      out := MergeIncludedFrom(out, A);
      return Some(out);
    }
    var fixedB := new StringSet.From(B.fixed);
    if !(fixedB.items <= A.flex.items) {
      return None;
    }
    if A.last == "" {
      out := MergeIncludedFrom(out, A);
      return Some(out);
    }
    if A.last !in B.flex.items {
      return None;
    }
    var both := B.flex.Intersect(A.flex);
    var appendToFix := SortedSlice(both);
    out := out.(fixed := out.fixed + appendToFix);
    out := out.(fixed := out.fixed + [A.last]);
    assert out.fixed == PinnedShorter(A.Value(), B.Value());
    var fixed := new StringSet.From(out.fixed);
    var flex := B.flex.Difference(fixed);
    out := out.(flex := flex);
    ghost var p := PinnedShorter(A.Value(), B.Value());
    assert out.Value() == B.Value().(fixed := p, flex := B.Value().flex - Elems(p));
    if |out.flex.items| == 0 {
      out := UpdateLast(out, B.last);
    }
    out := MergeIncludedFrom(out, A);
    r := Some(out);
  }
}
