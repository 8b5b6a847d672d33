/** The rewriting of a client object's data before it is serialised (dto/client_data_object.go:54-73):
    a map that is overwritten, extended and shrunk while it is being ranged over. */
module DataRewriting {
  import opened GoSets

  /** A value of the data map; P is a pair of coordinates. */
  datatype Value<P> = Point(p: P) | Text(s: string) | Other(code: int)

  type Data<P> = map<string, Value<P>>

  /** A point becomes text, by `format`. */
  function Render<P>(v: Value<P>, format: P -> string): Value<P> {
    match v
    case Point(p) => Text(format(p))
    case _ => v
  }

  predicate Quoted(k: string) {
    '"' in k
  }

  /** `strings.ReplaceAll(k, "\"", "")`. */
  function StripQuotes(k: string): (r: string)
    ensures !Quoted(r)
    ensures !Quoted(k) ==> r == k
  {
    if k == "" then ""
    else if k[0] == '"' then StripQuotes(k[1..])
    else
      assert k == [k[0]] + k[1..];
      [k[0]] + StripQuotes(k[1..])
  }

  /** All that it does: quotes go, every other character stays, in order. */
  lemma {:induction false} StripQuotesCharByChar(a: string, b: string, c: char)
    ensures StripQuotes(a + b) == StripQuotes(a) + StripQuotes(b)
    ensures StripQuotes([c]) == if c == '"' then "" else [c]
  {
    assert [c][1..] == "";
    if a == "" {
      assert a + b == b;
    } else {
      StripQuotesCharByChar(a[1..], b, c);
      assert (a + b)[1..] == a[1..] + b;
    }
  }

  // ----- one iteration, and a whole loop -----

  /** The loop body for key k. */
  function Visit<P>(d: Data<P>, k: string, format: P -> string): Data<P> {
    if k !in d then d
    else
      var v := Render(d[k], format);
      if Quoted(k) then d[StripQuotes(k) := v] - {k} else d[k := v]
  }

  function RunOrder<P>(d: Data<P>, order: seq<string>, format: P -> string): Data<P> {
    if order == [] then d
    else Visit(RunOrder(d, order[..|order| - 1], format), order[|order| - 1], format)
  }

  /** The orders in which the Go Language Specification ("For statements with range clause") lets a
      loop over d produce keys: each entry at most once and only while it is there; an entry present
      from the start that is not removed first is produced; one added by the loop may or may not be. */
  predicate Legal<P>(d: Data<P>, order: seq<string>, format: P -> string) {
    && Produced(d, order, format)
    && forall k | k in d && k in RunOrder(d, order, format) :: k in order
  }

  class ClientObjectDetail<P> {
    /** Shared with the object that the DTO was made from. */
    var data: Data<P>

    constructor (data: Data<P>)
      ensures this.data == data
    {
      this.data := data;
    }

    /** The loop of `MarshalJSON`. The order of the keys, and whether added entries are visited, are
        left to the runtime. */
    method RewriteData(format: P -> string) returns (ghost order: seq<string>)
      modifies this
      ensures Legal(old(data), order, format)
      ensures data == RunOrder(old(data), order, format)
    {
      hide StripQuotes, Quoted, RunOrder, NoDup, Render;
      ghost var original := data;
      ghost var universe := Universe(original);
      var start, produced := data.Keys, {};
      order := [];
      InitiallyProduced(original, format);
      while true
        invariant Produced(original, order, format) && produced == Elems(order)
        invariant data == RunOrder(original, order, format)
        invariant start == original.Keys && universe == Universe(original)
        invariant data.Keys <= universe && produced <= universe
        decreases universe - produced
      {
        var candidates := data.Keys - produced;
        if candidates * start == {} {
          assert forall k | k in start && k in data :: k in produced by {
            assert forall k | k in start && k in data && k !in produced :: k in candidates * start;
          }
          if candidates == {} {
            break;
          }
          if * {
            break;
          }
        }
        var k :| k in candidates;
        ProducesOneMore(original, order, k, format);
        VisitStaysInside(original, data, k, format);
        produced := produced + {k};
        order := order + [k];
        RewriteEntry(k, format);
      }
    }

    /** One iteration. */
    method RewriteEntry(k: string, format: P -> string)
      requires k in data
      modifies this
      ensures data == Visit(old(data), k, format)
    {
      var v := data[k];
      if v.Point? {
        data := data[k := Text(format(v.p))];
      }
      if Quoted(k) {
        data := data[StripQuotes(k) := data[k]];
        data := data - {k};
      }
    }
  }

  /** Every key produced so far was there to be produced. */
  predicate Produced<P>(d: Data<P>, order: seq<string>, format: P -> string) {
    NoDup(order) && forall n :: 0 <= n < |order| ==> order[n] in RunOrder(d, order[..n], format)
  }

  lemma InitiallyProduced<P>(d: Data<P>, format: P -> string)
    ensures Produced(d, [], format) && RunOrder(d, [], format) == d && Elems<string>([]) == {}
  {
  }

  lemma ProducesOneMore<P>(d: Data<P>, order: seq<string>, k: string, format: P -> string)
    requires Produced(d, order, format) && k in RunOrder(d, order, format) && k !in Elems(order)
    ensures Produced(d, order + [k], format)
    ensures RunOrder(d, order + [k], format) == Visit(RunOrder(d, order, format), k, format)
    ensures Elems(order + [k]) == Elems(order) + {k}
  {
    hide Visit;
    var grown := order + [k];
    assert grown[..|order|] == order;
    assert RunOrder(d, grown, format) == Visit(RunOrder(d, order, format), k, format);
    hide RunOrder;
    ElemsConcat(order, [k]);
    assert Elems([k]) == {k};
    assert forall n :: 0 <= n < |order| ==> grown[..n] == order[..n];
    assert NoDup(grown);
  }

  /** The keys that the loop can ever meet. */
  function Universe<P>(d: Data<P>): set<string> {
    d.Keys + Stripped(d.Keys)
  }

  lemma VisitStaysInside<P>(original: Data<P>, d: Data<P>, k: string, format: P -> string)
    requires d.Keys <= Universe(original) && k in d
    ensures Visit(d, k, format).Keys <= Universe(original)
  {
    if Quoted(k) {
      assert k in original;
    }
  }

  // ----- what every legal order leads to -----

  predicate StripsTo<P>(d: Data<P>, k: string, s: string) {
    k in d && Quoted(k) && StripQuotes(k) == s
  }

  /** The entry s after the keys in done have been visited: the last visited quoted key that strips to
      s has overwritten it; until then it is the original entry. */
  ghost predicate EntryIsRight<P>(
      d: Data<P>, done: set<string>, s: string, v: Value<P>, format: P -> string)
  {
    || (exists k :: k in done && StripsTo(d, k, s) && v == Render(d[k], format))
    || (&& (forall k :: StripsTo(d, k, s) ==> k !in done)
        && s in d && v == if s in done then Render(d[s], format) else d[s])
  }

  ghost predicate Halfway<P>(d: Data<P>, done: set<string>, r: Data<P>, format: P -> string) {
    && (forall k | k in d :: k in r <==> !(Quoted(k) && k in done))
    && (forall k | k in done && k in d :: StripQuotes(k) in r)
    && forall s | s in r ::
         && (Quoted(s) ==> s in d && r[s] == d[s])
         && (!Quoted(s) ==> EntryIsRight(d, done, s, r[s], format))
  }

  lemma VisitKeepsHalfway<P>(
      d: Data<P>, done: set<string>, r: Data<P>, k: string, format: P -> string)
    requires Halfway(d, done, r, format) && k in r && k !in done
    ensures Halfway(d, done + {k}, Visit(r, k, format), format)
  {
    var t, s := Visit(r, k, format), StripQuotes(k);
    forall x | x in t && !Quoted(x) ensures EntryIsRight(d, done + {k}, x, t[x], format) {
      if x == s && Quoted(k) {
        assert StripsTo(d, k, s);
      } else {
        assert EntryIsRight(d, done, x, r[x], format);
        assert x != k ==> t[x] == r[x];
      }
    }
  }

  lemma {:induction false} OrderIsHalfway<P>(d: Data<P>, order: seq<string>, format: P -> string)
    requires Produced(d, order, format)
    ensures Halfway(d, Elems(order), RunOrder(d, order, format), format)
  {
    hide *;
    if order == [] {
      InitiallyProduced(d, format);
      NothingDone(d, format);
    } else {
      var m := |order| - 1;
      var before, k := order[..m], order[m];
      ProducedBefore(d, order, m, format);
      OrderIsHalfway(d, before, format);
      assert order == before + [k];
      ProducesOneMore(d, before, k, format);
      VisitKeepsHalfway(d, Elems(before), RunOrder(d, before, format), k, format);
    }
  }

  lemma NothingDone<P>(d: Data<P>, format: P -> string)
    ensures Halfway(d, {}, d, format)
  {
    hide Quoted, StripQuotes, Render;
  }

  lemma ProducedBefore<P>(d: Data<P>, order: seq<string>, n: nat, format: P -> string)
    requires Produced(d, order, format) && n <= |order|
    ensures Produced(d, order[..n], format)
    ensures n < |order| ==> order[n] in RunOrder(d, order[..n], format) && order[n] !in Elems(order[..n])
  {
    hide RunOrder;
    var before := order[..n];
    assert forall m :: 0 <= m < n ==> before[..m] == order[..m] && before[m] == order[m];
  }

  /** The result of the loop: the keys are the stripped original keys, and an entry that some quoted
      key strips to has the rendered value of one such key, else that of its own original entry. */
  ghost predicate Rewritten<P>(d: Data<P>, r: Data<P>, format: P -> string) {
    r.Keys == Stripped(d.Keys) && forall s | s in r :: EntryRewritten(d, s, r[s], format)
  }

  function Stripped(ks: set<string>): set<string> {
    set k | k in ks :: StripQuotes(k)
  }

  ghost predicate EntryRewritten<P>(d: Data<P>, s: string, v: Value<P>, format: P -> string) {
    || (exists k :: StripsTo(d, k, s) && v == Render(d[k], format))
    || ((forall k :: !StripsTo(d, k, s)) && s in d && v == Render(d[s], format))
  }

  /** For every legal order. In particular no key contains a quote any more. */
  lemma LegalOrderRewrites<P>(d: Data<P>, order: seq<string>, format: P -> string)
    requires Legal(d, order, format)
    ensures Rewritten(d, RunOrder(d, order, format), format)
    ensures forall s | s in RunOrder(d, order, format) :: !Quoted(s)
  {
    OrderIsHalfway(d, order, format);
    hide RunOrder;
    HalfwayToEnd(d, Elems(order), RunOrder(d, order, format), format);
  }

  /** After the loop no point is left, and a point whose key no other key strips to is there as text. */
  lemma PointsBecomeText<P>(d: Data<P>, order: seq<string>, format: P -> string)
    requires Legal(d, order, format)
    ensures var r := RunOrder(d, order, format);
      && (forall s | s in r :: !r[s].Point?)
      && (forall k | k in d && d[k].Point? && (forall l | l in d && StripQuotes(l) == StripQuotes(k) :: l == k) ::
            StripQuotes(k) in r && r[StripQuotes(k)] == Text(format(d[k].p)))
  {
    LegalOrderRewrites(d, order, format);
    hide RunOrder, Legal;
    var r := RunOrder(d, order, format);
    forall s | s in r ensures !r[s].Point? {
      assert EntryRewritten(d, s, r[s], format);
    }
    forall k | k in d && d[k].Point? && forall l | l in d && StripQuotes(l) == StripQuotes(k) :: l == k
      ensures StripQuotes(k) in r && r[StripQuotes(k)] == Text(format(d[k].p))
    {
      OnlyEntry(d, r, k, format);
    }
  }

  lemma OnlyEntry<P>(d: Data<P>, r: Data<P>, k: string, format: P -> string)
    requires Rewritten(d, r, format) && k in d
    requires forall l | l in d && StripQuotes(l) == StripQuotes(k) :: l == k
    ensures StripQuotes(k) in r && r[StripQuotes(k)] == Render(d[k], format)
  {
    var s := StripQuotes(k);
    assert StripQuotes(s) == s;
    hide StripQuotes, Render;
    assert s in r.Keys;
    assert EntryRewritten(d, s, r[s], format);
    if Quoted(k) {
      assert StripsTo(d, k, s);
    }
    hide Quoted;
  }

  lemma HalfwayToEnd<P>(d: Data<P>, done: set<string>, r: Data<P>, format: P -> string)
    requires Halfway(d, done, r, format) && forall k | k in d && k in r :: k in done
    ensures Rewritten(d, r, format) && forall s | s in r :: !Quoted(s)
  {
    assert forall s | s in r :: !Quoted(s) && EntryIsRight(d, done, s, r[s], format);
    FinalKeys(d, done, r, format);
    forall s | s in r
      ensures EntryRewritten(d, s, r[s], format)
    {
      assert EntryIsRight(d, done, s, r[s], format);
      assert forall k | StripsTo(d, k, s) :: k in done;
    }
  }

  lemma FinalKeys<P>(d: Data<P>, done: set<string>, r: Data<P>, format: P -> string)
    requires Halfway(d, done, r, format) && forall k | k in d && k in r :: k in done
    ensures r.Keys == Stripped(d.Keys)
  {
    var stripped := Stripped(d.Keys);
    forall k | k in d ensures StripQuotes(k) in r {
      assert k in done;
    }
    forall s | s in r ensures s in stripped {
      assert EntryIsRight(d, done, s, r[s], format);
      if s in d {
        assert StripQuotes(s) == s;
      }
    }
  }

  // ----- when the order does not matter -----

  predicate StripInjective<P>(d: Data<P>) {
    forall k, l | k in d && l in d && StripQuotes(k) == StripQuotes(l) :: k == l
  }

  /** When stripping confuses no two keys, the result is the stripped and rendered map. */
  lemma InjectiveResult<P>(d: Data<P>, r: Data<P>, format: P -> string)
    requires Rewritten(d, r, format) && StripInjective(d)
    ensures forall k | k in d :: StripQuotes(k) in r && r[StripQuotes(k)] == Render(d[k], format)
    ensures |r| == |d|
  {
    assert r.Keys == Stripped(d.Keys);
    StrippedSize(d, d.Keys);
    forall k | k in d
      ensures StripQuotes(k) in r && r[StripQuotes(k)] == Render(d[k], format)
    {
      InjectiveEntry(d, r, k, format);
    }
  }

  lemma InjectiveEntry<P>(d: Data<P>, r: Data<P>, k: string, format: P -> string)
    requires Rewritten(d, r, format) && StripInjective(d) && k in d
    ensures StripQuotes(k) in r && r[StripQuotes(k)] == Render(d[k], format)
  {
    var s := StripQuotes(k);
    assert StripQuotes(s) == s;
    hide StripQuotes, Render;
    assert s in r.Keys;
    if Quoted(k) {
      assert StripsTo(d, k, s);
    }
    hide Quoted;
  }

  lemma {:induction false} StrippedSize<P>(d: Data<P>, ks: set<string>)
    requires StripInjective(d) && ks <= d.Keys
    ensures |Stripped(ks)| == |ks|
    decreases |ks|
  {
    hide StripQuotes, Quoted;
    if ks == {} {
      assert Stripped(ks) == {};
    } else {
      var k :| k in ks;
      StrippedSize(d, ks - {k});
      assert Stripped(ks) == Stripped(ks - {k}) + {StripQuotes(k)};
      assert StripQuotes(k) !in Stripped(ks - {k});
    }
  }

  /** Quoted keys that strip to the same key agree once rendered. */
  ghost predicate QuotedAgree<P>(d: Data<P>, format: P -> string) {
    forall k, l | k in d && l in d && Quoted(k) && Quoted(l) && StripQuotes(k) == StripQuotes(l) ::
      Render(d[k], format) == Render(d[l], format)
  }

  lemma AgreeingResultsAreEqual<P>(d: Data<P>, r: Data<P>, t: Data<P>, format: P -> string)
    requires Rewritten(d, r, format) && Rewritten(d, t, format) && QuotedAgree(d, format)
    ensures r == t
  {
    assert r.Keys == t.Keys;
    forall s | s in r ensures r[s] == t[s] {
      AgreeingEntries(d, s, r[s], t[s], format);
    }
    hide *;
  }

  lemma AgreeingEntries<P>(d: Data<P>, s: string, v: Value<P>, w: Value<P>, format: P -> string)
    requires EntryRewritten(d, s, v, format) && EntryRewritten(d, s, w, format)
    requires QuotedAgree(d, format)
    ensures v == w
  {
    hide StripQuotes, Quoted, Render;
    if k :| StripsTo(d, k, s) {
      var l :| StripsTo(d, l, s) && v == Render(d[l], format);
      var m :| StripsTo(d, m, s) && w == Render(d[m], format);
      assert l in d && m in d && Quoted(l) && Quoted(m) && StripQuotes(l) == StripQuotes(m);
    }
  }

  /** Visiting the original keys in any order, and none of the added ones, is legal. */
  lemma EveryListingIsLegal<P>(d: Data<P>, order: seq<string>, format: P -> string)
    requires Orders(order, d.Keys)
    ensures Legal(d, order, format)
  {
    OrdersNoDup(order, d.Keys);
    hide RunOrder;
    ListingIsProduced(d, order, |order|, format);
    assert order[..|order|] == order;
  }

  lemma {:induction false} ListingIsProduced<P>(d: Data<P>, order: seq<string>, n: nat, format: P -> string)
    requires NoDup(order) && Elems(order) <= d.Keys && n <= |order|
    ensures Produced(d, order[..n], format)
  {
    if n == 0 {
      InitiallyProduced(d, format);
    } else {
      ListingIsProduced(d, order, n - 1, format);
      var before, k := order[..n - 1], order[n - 1];
      OrderIsHalfway(d, before, format);
      assert k in Elems(order);
      assert k !in before;
      assert k in RunOrder(d, before, format);
      hide Halfway, RunOrder;
      ProducesOneMore(d, before, k, format);
      assert order[..n] == before + [k];
    }
  }

  /** The key visited last, if quoted, decides its entry. */
  lemma LastQuotedWins<P>(d: Data<P>, order: seq<string>, format: P -> string)
    requires Legal(d, order, format) && order != [] && Quoted(order[|order| - 1])
    ensures var k := order[|order| - 1];
      var r := RunOrder(d, order, format);
      k in d && StripQuotes(k) in r && r[StripQuotes(k)] == Render(d[k], format)
  {
    hide StripQuotes, Quoted, Render, Halfway;
    var m := |order| - 1;
    var k, before := order[m], order[..m];
    ProducedBefore(d, order, m, format);
    OrderIsHalfway(d, before, format);
    assert RunOrder(d, order, format) == Visit(RunOrder(d, before, format), k, format);
    assert k !in Elems(before) && k in RunOrder(d, before, format);
    hide RunOrder, Produced, NoDup, Elems;
    VisitedLast(d, Elems(before), RunOrder(d, before, format), k, format);
  }

  lemma VisitedLast<P>(d: Data<P>, done: set<string>, r: Data<P>, k: string, format: P -> string)
    requires Halfway(d, done, r, format) && k in r && Quoted(k)
    ensures var t := Visit(r, k, format);
      k in d && StripQuotes(k) in t && t[StripQuotes(k)] == Render(d[k], format)
  {
    hide Render;
  }

  ghost predicate OrderDoesNotMatter<P>(d: Data<P>, format: P -> string) {
    forall o, p | Legal(d, o, format) && Legal(d, p, format) ::
      RunOrder(d, o, format) == RunOrder(d, p, format)
  }

  /** The result is the same for every legal order exactly when quoted keys that strip alike agree. An
      unquoted key never matters: a quoted one that strips to it always wins. */
  lemma OrderIndependence<P>(d: Data<P>, format: P -> string)
    ensures OrderDoesNotMatter(d, format) <==> QuotedAgree(d, format)
  {
    if QuotedAgree(d, format) {
      forall o, p | Legal(d, o, format) && Legal(d, p, format)
        ensures RunOrder(d, o, format) == RunOrder(d, p, format)
      {
        LegalOrderRewrites(d, o, format);
        LegalOrderRewrites(d, p, format);
        AgreeingResultsAreEqual(d, RunOrder(d, o, format), RunOrder(d, p, format), format);
      }
    }
    if OrderDoesNotMatter(d, format) {
      forall k, l | k in d && l in d && Quoted(k) && Quoted(l) && StripQuotes(k) == StripQuotes(l)
        ensures Render(d[k], format) == Render(d[l], format)
      {
        var o := ListingEndingIn(d, k);
        var p := ListingEndingIn(d, l);
        EveryListingIsLegal(d, o, format);
        EveryListingIsLegal(d, p, format);
        LastQuotedWins(d, o, format);
        LastQuotedWins(d, p, format);
      }
    }
  }

  /** Two quoted keys that strip alike, with different values: both orders are legal, and the key
      visited last decides. */
  lemma OrderShows<P>(d: Data<P>, k: string, l: string, format: P -> string)
    requires k != l && d.Keys == {k, l} && Quoted(k) && Quoted(l) && StripQuotes(k) == StripQuotes(l)
    ensures Legal(d, [k, l], format) && Legal(d, [l, k], format)
    ensures var s := StripQuotes(k);
      && s in RunOrder(d, [k, l], format) && RunOrder(d, [k, l], format)[s] == Render(d[l], format)
      && s in RunOrder(d, [l, k], format) && RunOrder(d, [l, k], format)[s] == Render(d[k], format)
  {
    OrdersOfTwo(k, l);
    hide Quoted, StripQuotes, RunOrder, Legal, Orders;
    EveryListingIsLegal(d, [k, l], format);
    EveryListingIsLegal(d, [l, k], format);
    LastQuotedWins(d, [k, l], format);
    LastQuotedWins(d, [l, k], format);
  }

  lemma OrdersOfTwo(k: string, l: string)
    requires k != l
    ensures Orders([k, l], {k, l}) && Orders([l, k], {k, l})
  {
    assert |{k, l}| == 2;
    assert [k, l][1] == l && [l, k][0] == l;
  }

  /** With the keys `"a` and `a"` the result is 2 or 1. */
  lemma OrderExample<P>(format: P -> string)
    ensures var d: Data<P> := map["\"a" := Text("1"), "a\"" := Text("2")];
      && Legal(d, ["\"a", "a\""], format) && Legal(d, ["a\"", "\"a"], format)
      && "a" in RunOrder(d, ["\"a", "a\""], format)
      && RunOrder(d, ["\"a", "a\""], format)["a"] == Text("2")
      && "a" in RunOrder(d, ["a\"", "\"a"], format)
      && RunOrder(d, ["a\"", "\"a"], format)["a"] == Text("1")
  {
    var k, l := "\"a", "a\"";
    assert k[0] != l[0];
    assert k[1..] == "a" == l[..1] && l[1..] == "\"";
    assert StripQuotes("\"") == "" && StripQuotes("a") == "a" == StripQuotes(k) == StripQuotes(l);
    hide StripQuotes, RunOrder, Legal;
    OrderShows(map[k := Text("1"), l := Text("2")], k, l, format);
  }

  lemma ListingEndingIn<P>(d: Data<P>, k: string) returns (order: seq<string>)
    requires k in d
    ensures Orders(order, d.Keys) && order != [] && order[|order| - 1] == k
  {
    var rest := SomeOrder(d.Keys - {k});
    OrdersOne(k);
    OrdersConcat(rest, d.Keys - {k}, [k], {k});
    assert d.Keys - {k} + {k} == d.Keys;
    order := rest + [k];
  }

  /** Serialising the shared map again changes nothing, whatever the order. */
  lemma RewritingTwice<P>(d: Data<P>, r: Data<P>, t: Data<P>, format: P -> string)
    requires Rewritten(d, r, format) && Rewritten(r, t, format)
    ensures t == r
  {
    StrippedTwice(d.Keys);
    hide StripQuotes, Quoted, Render, StripsTo;
    assert t.Keys == r.Keys;
    forall s | s in r ensures t[s] == r[s] {
      assert s in Stripped(d.Keys);
      hide Stripped;
      RenderedOnce(d, s, r[s], format);
      RenderedTwice(r, s, t[s], format);
    }
  }

  lemma StrippedTwice(ks: set<string>)
    ensures Stripped(Stripped(ks)) == Stripped(ks)
    ensures forall k | k in Stripped(ks) :: !Quoted(k)
  {
    forall k | k in Stripped(ks) ensures !Quoted(k) && StripQuotes(k) == k {
      var l :| l in ks && StripQuotes(l) == k;
    }
  }

  lemma RenderedTwice<P>(r: Data<P>, s: string, v: Value<P>, format: P -> string)
    requires forall k | k in r :: !Quoted(k)
    requires s in r && Render(r[s], format) == r[s] && EntryRewritten(r, s, v, format)
    ensures v == r[s]
  {
    hide Quoted, StripQuotes;
  }

  lemma RenderedOnce<P>(d: Data<P>, s: string, v: Value<P>, format: P -> string)
    requires s in Stripped(d.Keys) && EntryRewritten(d, s, v, format)
    ensures !Quoted(s) && StripQuotes(s) == s && Render(v, format) == v
  {
    StrippedTwice(d.Keys);
    hide Quoted;
  }
}
