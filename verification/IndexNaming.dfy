/** How a concrete index gets its name, and its JSON form (models/concrete_index.go:53-141). A name is
    made once, from the table, the columns and a random id, and truncated to what Postgres allows. */
module IndexNaming {
  import opened IndexModels
  import opened IndexPruning
  import opened Hashing

  const MAX_NAME_LENGTH := 63

  const MAX_LENGTH_BEFORE_SUFFIX := 53

  datatype Kind = Unknown | Navigation | Aggregation | IngestedObjectsSearch

  type Id = s: string | |s| == 36 witness seq(36, _ => '0')

  function Min(a: nat, b: nat): nat {
    if a < b then a else b
  }

  function Prefix(kind: Kind): string {
    match kind
    case Navigation => "nav"
    case IngestedObjectsSearch => "obj"
    case _ => "idx"
  }

  /** `strings.Join(columns, "-")`. */
  function Dashed(columns: seq<string>): string {
    if columns == [] then ""
    else if |columns| == 1 then columns[0]
    else columns[0] + "-" + Dashed(columns[1..])
  }

  function BaseName(kind: Kind, table: string, columns: seq<string>): string {
    Prefix(kind) + "_" + table + "_" + Dashed(columns)
  }

  function BaseLength(base: string): nat {
    Min(|base|, MAX_LENGTH_BEFORE_SUFFIX)
  }

  function GeneratedName(base: string, id: Id): string {
    var suffixed := base[..BaseLength(base)] + "_" + id;
    suffixed[..Min(|suffixed|, MAX_NAME_LENGTH)]
  }

  // ----- the object -----

  /** The fields of a concrete index. */
  datatype Fields = Fields(
    table: string, name: string, indexed: seq<string>, included: seq<string>, kind: Kind, status: int)
  {
    function AsIndex(): Index {
      Index(table, indexed, included)
    }

    function Base(): string {
      BaseName(kind, table, indexed)
    }

    /** The name that the index has, or would be given with this id. */
    function NameWith(id: Id): string {
      if name != "" then name else GeneratedName(Base(), id)
    }

    function Encode(id: Id): Json {
      Json(table, NameWith(id), indexed, included, kind)
    }

    /** Decoding into this object, which keeps its status. */
    function Decode(j: Json): Fields {
      Fields(j.table, j.name, j.indexed, j.included, j.kind, status)
    }
  }

  datatype Json = Json(
    table: string, name: string, indexed: seq<string>, included: seq<string>, kind: Kind)

  /** Every method that may draw a random id takes the id that it would draw. */
  class ConcreteIndex {
    var table: string
    var name: string
    var indexed: seq<string>
    var included: seq<string>
    var kind: Kind
    var status: int

    ghost function Value(): Fields
      reads this
    {
      Fields(table, name, indexed, included, kind, status)
    }

    constructor (v: Fields)
      ensures Value() == v
    {
      table, name, indexed, included, kind, status :=
        v.table, v.name, v.indexed, v.included, v.kind, v.status;
    }

    /** `setName`. */
    method SetName(id: Id)
      modifies this`name
      ensures name == old(Value().NameWith(id))
    {
      if name != "" {
        return;
      }
      var out := BaseName(kind, table, indexed);
      var length := Min(|out|, MAX_LENGTH_BEFORE_SUFFIX);
      var withRandomSuffix := out[..length] + "_" + id;
      name := withRandomSuffix[..Min(|withRandomSuffix|, MAX_NAME_LENGTH)];
    }

    method Name(id: Id) returns (n: string)
      modifies this`name
      ensures n == name == old(Value().NameWith(id))
      ensures n != "" && (old(name) == "" ==> |n| <= MAX_NAME_LENGTH)
    {
      NameShape(Value().Base(), id);
      if name == "" {
        SetName(id);
      }
      n := name;
    }

    method WithName(name: string) returns (c: ConcreteIndex)
      ensures fresh(c) && c.Value() == Value().(name := name)
    {
      c := new ConcreteIndex(Fields(table, name, indexed, included, kind, status));
    }

    /** The receiver is a copy, so the name that is set here is not kept. */
    method MarshalJSON(id: Id) returns (j: Json)
      ensures j == Value().Encode(id)
    {
      var copy := new ConcreteIndex(Fields(table, name, indexed, included, kind, status));
      copy.SetName(id);
      j := Json(copy.table, copy.name, copy.indexed, copy.included, copy.kind);
    }

    method UnmarshalJSON(j: Json)
      modifies this
      ensures Value() == old(Value()).Decode(j)
    {
      table := j.table;
      name := j.name;
      indexed := j.indexed;
      included := j.included;
      kind := j.kind;
    }
  }

  // ----- the shape of a generated name -----

  /** How many characters of the id a name has room for. */
  function KeptIdLength(base: string): nat {
    Min(36, MAX_NAME_LENGTH - 1 - BaseLength(base))
  }

  lemma NameShape(base: string, id: Id)
    ensures var n, length := GeneratedName(base, id), BaseLength(base);
      && n == base[..length] + "_" + id[..KeptIdLength(base)]
      && |n| == length + 1 + KeptIdLength(base)
      && |n| <= MAX_NAME_LENGTH
      && n != "" && KeptIdLength(base) >= 9
  {
    assert (base[..BaseLength(base)] + "_" + id)[..BaseLength(base) + 1 + KeptIdLength(base)]
      == base[..BaseLength(base)] + "_" + id[..KeptIdLength(base)];
  }

  /** Names whose base parts are equally long collide exactly when the base parts agree and so do the
      characters kept of the ids. */
  lemma NamesCollide(base: string, id: Id, other: string, otherId: Id)
    requires BaseLength(base) == BaseLength(other)
    ensures GeneratedName(base, id) == GeneratedName(other, otherId) <==>
      && base[..BaseLength(base)] == other[..BaseLength(base)]
      && id[..KeptIdLength(base)] == otherId[..KeptIdLength(base)]
  {
    NameShape(base, id);
    NameShape(other, otherId);
    var n, m, length := GeneratedName(base, id), GeneratedName(other, otherId), BaseLength(base);
    assert n[..length] == base[..length] && n[length + 1..] == id[..KeptIdLength(base)];
    assert m[..length] == other[..length] && m[length + 1..] == otherId[..KeptIdLength(base)];
  }

  /** When they are not, the longer base itself spells out the separator and the beginning of the id. */
  lemma UnevenNamesCollide(base: string, id: Id, other: string, otherId: Id)
    requires BaseLength(base) < BaseLength(other)
    requires GeneratedName(base, id) == GeneratedName(other, otherId)
    ensures var length := BaseLength(base);
      && length >= 26 && base == other[..length] && other[length] == '_'
      && other[length + 1..BaseLength(other)] == id[..BaseLength(other) - length - 1]
  {
    NameShape(base, id);
    NameShape(other, otherId);
    var n, short, long := GeneratedName(base, id), BaseLength(base), BaseLength(other);
    assert n[..short] == base && n[short] == '_' && n[short + 1..] == id[..KeptIdLength(base)];
    assert n[..long] == other[..long];
    assert n[..long][..short] == other[..short] && n[..long][short] == other[short];
    assert n[..long][short + 1..] == n[short + 1..][..long - short - 1];
    assert other[..long][short + 1..] == other[short + 1..long];
    assert id[..KeptIdLength(base)][..long - short - 1] == id[..long - short - 1];
  }

  /** The rollover and status jobs tell kinds of indexes apart by the first four characters: these
      survive truncation, and only navigation and search indexes can be told from the rest. */
  lemma KindShowsInTheName(i: Fields, id: Id)
    requires i.name == ""
    ensures HasPrefix(i.NameWith(id), "obj_") <==> i.kind == IngestedObjectsSearch
    ensures HasPrefix(i.NameWith(id), "nav_") <==> i.kind == Navigation
    ensures HasPrefix(i.NameWith(id), "idx_") <==> i.kind in {Unknown, Aggregation}
  {
    NameShape(i.Base(), id);
    var n, head := i.NameWith(id), Prefix(i.kind) + "_";
    assert i.Base()[..4] == head;
    assert n[..4] == head;
    assert head[0] == n[0];
  }

  // ----- the JSON round trip -----

  /** The decoded index is `Equal` to the original and to every other decoding of it; only the status
      of the object that is decoded into is left over. */
  lemma JsonRoundTrip(i: Fields, id: Id, target: Fields)
    ensures EqualIndexes(target.Decode(i.Encode(id)).AsIndex(), i.AsIndex())
    ensures target.Decode(i.Encode(id)) == i.(name := i.NameWith(id), status := target.status)
    ensures target.Decode(i.Encode(id)) == i <==> i.name != "" && i.status == target.status
  {
    NameShape(i.Base(), id);
  }

  /** A name that has been given is kept by every further call and by every round trip. */
  lemma NameIsStable(i: Fields, first: Id, id: Id, later: Id, target: Fields)
    ensures var named := i.(name := i.NameWith(first));
      && named.NameWith(later) == named.name
      && target.Decode(named.Encode(id)).NameWith(later) == named.name
  {
    NameShape(i.Base(), first);
  }

  /** A round trip and the original agree on the name exactly when the original was named before, or
      the two ids that are drawn agree on what is kept of them. */
  lemma RoundTripKeepsNameIff(i: Fields, encoding: Id, later: Id, target: Fields)
    ensures target.Decode(i.Encode(encoding)).NameWith(later) == i.NameWith(later) <==>
      i.name != "" || encoding[..KeptIdLength(i.Base())] == later[..KeptIdLength(i.Base())]
  {
    NameShape(i.Base(), encoding);
    NamesCollide(i.Base(), encoding, i.Base(), later);
  }

  // ----- ids with a timestamp -----

  function HexDigit(d: nat): char
    requires d < 16
  {
    "0123456789abcdef"[d]
  }

  /** The last `width` hexadecimal digits of n. */
  function Hex(n: nat, width: nat): (r: string)
    ensures |r| == width
  {
    if width == 0 then "" else Hex(n / 16, width - 1) + [HexDigit(n % 16)]
  }

  /** n without its last `digits` hexadecimal digits. */
  function Shifted(n: nat, digits: nat): nat {
    if digits == 0 then n else Shifted(n / 16, digits - 1)
  }

  lemma {:induction false} HexPrefix(n: nat, width: nat, kept: nat)
    requires kept <= width
    ensures Hex(n, width)[..kept] == Hex(Shifted(n, width - kept), kept)
  {
    if kept < width {
      HexPrefix(n / 16, width - 1, kept);
      assert Hex(n, width)[..kept] == Hex(n / 16, width - 1)[..kept];
    }
  }

  lemma {:induction false} HexInjective(n: nat, m: nat, width: nat)
    requires Shifted(n, width) == Shifted(m, width) == 0
    ensures Hex(n, width) == Hex(m, width) <==> n == m
  {
    if width > 0 {
      HexInjective(n / 16, m / 16, width - 1);
      var h, g := Hex(n, width), Hex(m, width);
      assert h[..width - 1] == Hex(n / 16, width - 1) && g[..width - 1] == Hex(m / 16, width - 1);
      assert h[width - 1] == HexDigit(n % 16) && g[width - 1] == HexDigit(m % 16);
    }
  }

  lemma {:induction false} ShiftedTwice(n: nat, a: nat, b: nat)
    ensures Shifted(Shifted(n, a), b) == Shifted(n, a + b)
    decreases a
  {
    if a > 0 {
      ShiftedTwice(n / 16, a - 1, b);
    }
  }

  /** The text of a UUID of version 7 (section 5.7 of RFC 9562): 48 bits of milliseconds come first. */
  function UuidV7(millis: nat, rest: string): Id
    requires millis < 0x1_0000_0000_0000 && |rest| == 21
  {
    Hex(millis, 12)[..8] + "-" + Hex(millis, 12)[8..] + "-7" + rest
  }

  /** A prefix that ends within the timestamp is one of the milliseconds' digits. */
  lemma KeptTimestamp(a: nat, ra: string, b: nat, rb: string, kept: nat)
    requires a < 0x1_0000_0000_0000 && b < 0x1_0000_0000_0000 && |ra| == |rb| == 21
    requires 9 <= kept <= 13
    ensures UuidV7(a, ra)[..kept] == UuidV7(b, rb)[..kept] <==>
      Shifted(a, 13 - kept) == Shifted(b, 13 - kept)
  {
    IdPrefix(a, ra, kept);
    IdPrefix(b, rb, kept);
    var h, g, k := Hex(a, 12)[..kept - 1], Hex(b, 12)[..kept - 1], kept - 1;
    if UuidV7(a, ra)[..kept] == UuidV7(b, rb)[..kept] {
      assert h == h[..8] + h[8..] && g == g[..8] + g[8..];
    }
    HexPrefix(a, 12, k);
    HexPrefix(b, 12, k);
    ShiftedTwice(a, 12 - k, k);
    ShiftedTwice(b, 12 - k, k);
    NoDigitsLeft(a);
    NoDigitsLeft(b);
    HexInjective(Shifted(a, 12 - k), Shifted(b, 12 - k), k);
  }

  lemma IdPrefix(millis: nat, rest: string, kept: nat)
    requires millis < 0x1_0000_0000_0000 && |rest| == 21 && 9 <= kept <= 13
    ensures var p := UuidV7(millis, rest)[..kept];
      && |p| == kept && p[..8] == Hex(millis, 12)[..kept - 1][..8]
      && p[8] == '-' && p[9..] == Hex(millis, 12)[..kept - 1][8..]
  {
  }

  lemma NoDigitsLeft(n: nat)
    requires n < 0x1_0000_0000_0000
    ensures Shifted(n, 12) == 0
  {
    ShiftedBelow(n, 12);
  }

  function Pow16(digits: nat): nat {
    if digits == 0 then 1 else 16 * Pow16(digits - 1)
  }

  lemma {:induction false} ShiftedBelow(n: nat, digits: nat)
    ensures Shifted(n, digits) == 0 <==> n < Pow16(digits)
  {
    if digits > 0 {
      ShiftedBelow(n / 16, digits - 1);
    }
  }

  /** Two names for one base that is cut off collide exactly when the ids were drawn within the same
      65.536 seconds of the clock: nothing random is kept of the id. */
  lemma CutOffNamesCollide(base: string, a: nat, ra: string, b: nat, rb: string)
    requires a < 0x1_0000_0000_0000 && b < 0x1_0000_0000_0000 && |ra| == |rb| == 21
    requires |base| >= MAX_LENGTH_BEFORE_SUFFIX
    ensures GeneratedName(base, UuidV7(a, ra)) == GeneratedName(base, UuidV7(b, rb)) <==>
      a / 65536 == b / 65536
  {
    NamesCollide(base, UuidV7(a, ra), base, UuidV7(b, rb));
    KeptTimestamp(a, ra, b, rb, 9);
    FourDigits(a);
    FourDigits(b);
  }

  lemma FourDigits(n: nat)
    ensures Shifted(n, 4) == n / 65536
  {
    assert Shifted(n, 4) == Shifted(n / 16, 3) == Shifted(n / 16 / 16, 2) == Shifted(n / 16 / 16 / 16, 1);
    assert Shifted(n / 16 / 16 / 16, 1) == Shifted(n / 16 / 16 / 16 / 16, 0);
  }

  /** A base of 49 to 53 characters: every character more coarsens the clock sixteen times; and up to
      49 characters, names made in different milliseconds differ. */
  lemma CollisionWindow(base: string, a: nat, ra: string, b: nat, rb: string)
    requires a < 0x1_0000_0000_0000 && b < 0x1_0000_0000_0000 && |ra| == |rb| == 21
    ensures BaseLength(base) >= 49 ==>
      (GeneratedName(base, UuidV7(a, ra)) == GeneratedName(base, UuidV7(b, rb)) <==>
        Shifted(a, BaseLength(base) - 49) == Shifted(b, BaseLength(base) - 49))
    ensures BaseLength(base) <= 49 && a != b ==>
      GeneratedName(base, UuidV7(a, ra)) != GeneratedName(base, UuidV7(b, rb))
  {
    var kept := KeptIdLength(base);
    NamesCollide(base, UuidV7(a, ra), base, UuidV7(b, rb));
    if kept <= 13 {
      KeptTimestamp(a, ra, b, rb, kept);
    } else {
      KeptTimestamp(a, ra, b, rb, 13);
      assert UuidV7(a, ra)[..13] == UuidV7(a, ra)[..kept][..13];
      assert UuidV7(b, rb)[..13] == UuidV7(b, rb)[..kept][..13];
    }
  }

  // ----- the base of a name -----

  /** Column names as they are when no dash occurs in them. */
  predicate PlainColumns(columns: seq<string>) {
    forall k :: 0 <= k < |columns| ==> columns[k] != "" && '-' !in columns[k]
  }

  lemma {:induction false} DashedFree(columns: seq<string>)
    requires PlainColumns(columns)
    ensures Dashed(columns) == "" <==> columns == []
    ensures '-' in Dashed(columns) <==> |columns| > 1
  {
    if |columns| > 1 {
      DashedFree(columns[1..]);
      assert Dashed(columns)[|columns[0]|] == '-';
    }
  }

  lemma {:induction false} DashedInjective(a: seq<string>, b: seq<string>)
    requires PlainColumns(a) && PlainColumns(b) && Dashed(a) == Dashed(b)
    ensures a == b
  {
    DashedFree(a);
    DashedFree(b);
    if |a| > 1 {
      SplitUnique(a[0], Dashed(a[1..]), b[0], Dashed(b[1..]), '-');
      DashedInjective(a[1..], b[1..]);
      assert a == [a[0]] + a[1..] && b == [b[0]] + b[1..];
    }
  }

  /** For one table the base tells the prefix of the kind and the columns, in order. */
  lemma BaseNamesTellColumns(k: Kind, l: Kind, table: string, a: seq<string>, b: seq<string>)
    requires PlainColumns(a) && PlainColumns(b)
    ensures BaseName(k, table, a) == BaseName(l, table, b) <==> Prefix(k) == Prefix(l) && a == b
  {
    if BaseName(k, table, a) == BaseName(l, table, b) {
      var p, q := Prefix(k), Prefix(l);
      assert |p| == 3 == |q|;
      var s, t := BaseName(k, table, a), BaseName(l, table, b);
      assert s[..3] == p && t[..3] == q;
      var n := 3 + 1 + |table| + 1;
      assert s[n..] == Dashed(a) && t[n..] == Dashed(b);
      DashedInjective(a, b);
    }
  }

  /** It starts with the kind's prefix and the table; the dashed columns end it. */
  lemma BaseNameText()
    ensures BaseName(Navigation, "t", ["a", "b"]) == "nav_t_a-b"
    ensures BaseName(IngestedObjectsSearch, "t", ["a"]) == "obj_t_a"
    ensures BaseName(Aggregation, "t", []) == "idx_t_" && BaseName(Unknown, "t", ["a"]) == "idx_t_a"
  {
    assert ["a", "b"][1..] == ["b"];
    assert Dashed(["b"]) == "b";
    assert Dashed(["a", "b"]) == "a-b";
  }

  /** For different tables it does not tell: where a table's name ends and a column's begins is lost. */
  lemma BaseNamesConfuseTables()
    ensures BaseName(Aggregation, "a", ["b_c"]) == BaseName(Aggregation, "a_b", ["c"])
  {
  }
}
