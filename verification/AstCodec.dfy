/** The two translations between rule ASTs and their DTOs (dto/dto_ast_node.go). */
module AstCodec {
  import opened Wrappers

  /** `ast.Function`, an integer code. */
  datatype Function = Function(code: int)

  /** `ast.Node`; C is the type of constants, which the translations copy. */
  datatype Node<C> = Node(
    index: int, func: Function, constant: C, children: seq<Node<C>>, named: map<string, Node<C>>)

  datatype NodeDto<C> = NodeDto(
    name: string, constant: C, children: seq<NodeDto<C>>, named: map<string, NodeDto<C>>)

  /** `ast.FuncAttributesMap`, reduced to the AST names. */
  type Attributes = map<Function, string>

  type NameMap = map<string, Function>

  // ----- the name table -----

  /** m is what filling a map entry by entry from the attributes gives, in some iteration order: every
      name is there, with one of the functions that have it. */
  predicate InvertsInSomeOrder(m: NameMap, attributes: Attributes) {
    m.Keys == attributes.Values && forall n | n in m :: m[n] in attributes && attributes[m[n]] == n
  }

  /** `astNameFuncMap`. */
  method BuildNameMap(attributes: Attributes) returns (result: NameMap)
    ensures InvertsInSomeOrder(result, attributes)
  {
    result := map[];
    var todo := attributes.Keys;
    while todo != {}
      invariant todo <= attributes.Keys
      invariant forall f | f in attributes.Keys - todo :: attributes[f] in result
      invariant forall n | n in result ::
        result[n] in attributes && result[n] !in todo && attributes[result[n]] == n
      decreases todo
    {
      var f: Function :| f in todo;
      result := result[attributes[f] := f];
      todo := todo - {f};
    }
    forall n | n in attributes.Values ensures n in result {
      var f: Function :| f in attributes && attributes[f] == n;
      assert f in attributes.Keys - todo;
    }
  }

  predicate Injective(attributes: Attributes) {
    forall f, g | f in attributes && g in attributes && attributes[f] == attributes[g] :: f == g
  }

  // ----- the translations -----

  function Normal(name: string): string {
    if name == "Unknown" then "Undefined" else name
  }

  /** `pure_utils.MapErr`. */
  function AllOk<T>(s: seq<Option<T>>): Option<seq<T>> {
    if forall k :: 0 <= k < |s| ==> s[k].Some?
    then Some(seq(|s|, k requires 0 <= k < |s| => s[k].value))
    else None
  }

  /** `pure_utils.MapValuesErr`: whichever entry is visited first, one failure fails the whole. */
  function AllOkMap<T>(m: map<string, Option<T>>): Option<map<string, T>> {
    if forall n | n in m :: m[n].Some? then Some(map n | n in m :: m[n].value) else None
  }

  /** `AdaptNodeDto`; the error is not kept. */
  function AdaptNodeDto<C>(node: Node<C>, attributes: Attributes): Option<NodeDto<C>>
    decreases node, 1
  {
    if node.func !in attributes then None
    else
      var children := AllOk(EncodedChildren(node, attributes));
      var named := AllOkMap(EncodedNamed(node, attributes));
      if children.None? || named.None? then None
      else Some(NodeDto(attributes[node.func], node.constant, children.value, named.value))
  }

  function EncodedChildren<C>(node: Node<C>, attributes: Attributes): (r: seq<Option<NodeDto<C>>>)
    ensures |r| == |node.children|
    ensures forall k :: 0 <= k < |r| ==> r[k] == AdaptNodeDto(node.children[k], attributes)
    decreases node, 0
  {
    seq(|node.children|, k requires 0 <= k < |node.children| => AdaptNodeDto(node.children[k], attributes))
  }

  function EncodedNamed<C>(node: Node<C>, attributes: Attributes): (r: map<string, Option<NodeDto<C>>>)
    ensures r.Keys == node.named.Keys
    ensures forall n | n in r :: r[n] == AdaptNodeDto(node.named[n], attributes)
    decreases node, 0
  {
    map n | n in node.named :: AdaptNodeDto(node.named[n], attributes)
  }

  /** `AdaptASTNode`; the result has no index. */
  function AdaptASTNode<C>(dto: NodeDto<C>, names: NameMap): Option<Node<C>>
    decreases dto, 1
  {
    var name := Normal(dto.name);
    if name !in names then None
    else
      var children := AllOk(DecodedChildren(dto, names));
      var named := AllOkMap(DecodedNamed(dto, names));
      if children.None? || named.None? then None
      else Some(Node(0, names[name], dto.constant, children.value, named.value))
  }

  function DecodedChildren<C>(dto: NodeDto<C>, names: NameMap): (r: seq<Option<Node<C>>>)
    ensures |r| == |dto.children|
    ensures forall k :: 0 <= k < |r| ==> r[k] == AdaptASTNode(dto.children[k], names)
    decreases dto, 0
  {
    seq(|dto.children|, k requires 0 <= k < |dto.children| => AdaptASTNode(dto.children[k], names))
  }

  function DecodedNamed<C>(dto: NodeDto<C>, names: NameMap): (r: map<string, Option<Node<C>>>)
    ensures r.Keys == dto.named.Keys
    ensures forall n | n in r :: r[n] == AdaptASTNode(dto.named[n], names)
    decreases dto, 0
  {
    map n | n in dto.named :: AdaptASTNode(dto.named[n], names)
  }

  // ----- one level of each -----

  lemma EncodeLevel<C>(node: Node<C>, attributes: Attributes)
    ensures AdaptNodeDto(node, attributes).Some? <==>
      && node.func in attributes
      && (forall k :: 0 <= k < |node.children| ==> AdaptNodeDto(node.children[k], attributes).Some?)
      && forall n | n in node.named :: AdaptNodeDto(node.named[n], attributes).Some?
    ensures AdaptNodeDto(node, attributes).Some? ==>
      var d := AdaptNodeDto(node, attributes).value;
      && d.name == attributes[node.func] && d.constant == node.constant
      && |d.children| == |node.children| && d.named.Keys == node.named.Keys
      && (forall k :: 0 <= k < |d.children| ==> AdaptNodeDto(node.children[k], attributes) == Some(d.children[k]))
      && forall n | n in d.named :: AdaptNodeDto(node.named[n], attributes) == Some(d.named[n])
  {
  }

  lemma DecodeLevel<C>(dto: NodeDto<C>, names: NameMap)
    ensures AdaptASTNode(dto, names).Some? <==>
      && Normal(dto.name) in names
      && (forall k :: 0 <= k < |dto.children| ==> AdaptASTNode(dto.children[k], names).Some?)
      && forall n | n in dto.named :: AdaptASTNode(dto.named[n], names).Some?
    ensures AdaptASTNode(dto, names).Some? ==>
      var t := AdaptASTNode(dto, names).value;
      && t.index == 0 && t.func == names[Normal(dto.name)] && t.constant == dto.constant
      && |t.children| == |dto.children| && t.named.Keys == dto.named.Keys
      && (forall k :: 0 <= k < |t.children| ==> AdaptASTNode(dto.children[k], names) == Some(t.children[k]))
      && forall n | n in t.named :: AdaptASTNode(dto.named[n], names) == Some(t.named[n])
  {
  }

  // ----- when they succeed -----

  /** The functions that occur in a tree, at any depth. */
  function FunctionsIn<C>(node: Node<C>): set<Function> {
    {node.func}
    + (set k, f | 0 <= k < |node.children| && f in FunctionsIn(node.children[k]) :: f)
    + (set n, f | n in node.named && f in FunctionsIn(node.named[n]) :: f)
  }

  function NamesIn<C>(dto: NodeDto<C>): set<string> {
    {dto.name}
    + (set k, x | 0 <= k < |dto.children| && x in NamesIn(dto.children[k]) :: x)
    + (set n, x | n in dto.named && x in NamesIn(dto.named[n]) :: x)
  }

  lemma FunctionsLevel<C>(node: Node<C>, s: set<Function>)
    ensures FunctionsIn(node) <= s <==>
      && node.func in s
      && (forall k :: 0 <= k < |node.children| ==> FunctionsIn(node.children[k]) <= s)
      && forall n | n in node.named :: FunctionsIn(node.named[n]) <= s
  {
    var a := set k, f | 0 <= k < |node.children| && f in FunctionsIn(node.children[k]) :: f;
    var b := set n, f | n in node.named && f in FunctionsIn(node.named[n]) :: f;
    assert FunctionsIn(node) == {node.func} + a + b;
    assert a <= s <==> forall k :: 0 <= k < |node.children| ==> FunctionsIn(node.children[k]) <= s;
    assert b <= s <==> forall n | n in node.named :: FunctionsIn(node.named[n]) <= s;
  }

  lemma NamesLevel<C>(dto: NodeDto<C>, s: set<string>)
    ensures NamesIn(dto) <= s <==>
      && dto.name in s
      && (forall k :: 0 <= k < |dto.children| ==> NamesIn(dto.children[k]) <= s)
      && forall n | n in dto.named :: NamesIn(dto.named[n]) <= s
  {
    var a := set k, x | 0 <= k < |dto.children| && x in NamesIn(dto.children[k]) :: x;
    var b := set n, x | n in dto.named && x in NamesIn(dto.named[n]) :: x;
    assert NamesIn(dto) == {dto.name} + a + b;
    assert a <= s <==> forall k :: 0 <= k < |dto.children| ==> NamesIn(dto.children[k]) <= s;
    assert b <= s <==> forall n | n in dto.named :: NamesIn(dto.named[n]) <= s;
  }

  /** A tree is encoded exactly when every function in it, at any depth, has attributes. */
  lemma {:induction false} EncodeSucceeds<C>(node: Node<C>, attributes: Attributes)
    ensures AdaptNodeDto(node, attributes).Some? <==> FunctionsIn(node) <= attributes.Keys
  {
    EncodeLevel(node, attributes);
    FunctionsLevel(node, attributes.Keys);
    hide AdaptNodeDto, FunctionsIn;
    forall k | 0 <= k < |node.children| {
      EncodeSucceeds(node.children[k], attributes);
    }
    forall n | n in node.named {
      EncodeSucceeds(node.named[n], attributes);
    }
  }

  /** The names that can be decoded; "Unknown" is read as "Undefined". */
  function Decodable(names: NameMap): set<string> {
    names.Keys - {"Unknown"} + if "Undefined" in names then {"Unknown"} else {}
  }

  /** A DTO is decoded exactly when every name in it, at any depth, can be. */
  lemma {:induction false} DecodeSucceeds<C>(dto: NodeDto<C>, names: NameMap)
    ensures AdaptASTNode(dto, names).Some? <==> NamesIn(dto) <= Decodable(names)
  {
    DecodeLevel(dto, names);
    NamesLevel(dto, Decodable(names));
    assert dto.name in Decodable(names) <==> Normal(dto.name) in names;
    hide AdaptASTNode, NamesIn, Decodable, Normal;
    forall k | 0 <= k < |dto.children| {
      DecodeSucceeds(dto.children[k], names);
    }
    forall n | n in dto.named {
      DecodeSucceeds(dto.named[n], names);
    }
  }

  // ----- round trips -----

  /** The tree without its indexes, which DTOs do not carry. */
  function WithoutIndex<C>(node: Node<C>): Node<C> {
    Node(0, node.func, node.constant,
         seq(|node.children|, k requires 0 <= k < |node.children| => WithoutIndex(node.children[k])),
         map n | n in node.named :: WithoutIndex(node.named[n]))
  }

  function Normalised<C>(dto: NodeDto<C>): NodeDto<C> {
    NodeDto(Normal(dto.name), dto.constant,
            seq(|dto.children|, k requires 0 <= k < |dto.children| => Normalised(dto.children[k])),
            map n | n in dto.named :: Normalised(dto.named[n]))
  }

  /** The functions that their own name leads back to. */
  function Representatives(attributes: Attributes, names: NameMap): set<Function> {
    set f | f in attributes && Normal(attributes[f]) in names && names[Normal(attributes[f])] == f
  }

  ghost predicate ComesBack<C>(node: Node<C>, attributes: Attributes, names: NameMap) {
    var dto := AdaptNodeDto(node, attributes);
    dto.Some? && AdaptASTNode(dto.value, names) == Some(WithoutIndex(node))
  }

  lemma ComesBackLevel<C>(node: Node<C>, attributes: Attributes, names: NameMap)
    ensures ComesBack(node, attributes, names) <==>
      && node.func in Representatives(attributes, names)
      && (forall k :: 0 <= k < |node.children| ==> ComesBack(node.children[k], attributes, names))
      && forall n | n in node.named :: ComesBack(node.named[n], attributes, names)
  {
    EncodeLevel(node, attributes);
    if AdaptNodeDto(node, attributes).Some? {
      var d := AdaptNodeDto(node, attributes).value;
      DecodedLevel(node, d, names);
      hide AdaptNodeDto, AdaptASTNode, WithoutIndex, Normal;
      assert forall k :: 0 <= k < |d.children| ==>
        (ComesBack(node.children[k], attributes, names)
         <==> AdaptASTNode(d.children[k], names) == Some(WithoutIndex(node.children[k])));
      assert forall n | n in d.named ::
        ComesBack(node.named[n], attributes, names)
        <==> AdaptASTNode(d.named[n], names) == Some(WithoutIndex(node.named[n]));
      assert ComesBack(node, attributes, names)
        <==> AdaptASTNode(d, names) == Some(WithoutIndex(node));
      hide ComesBack;
    } else {
      hide AdaptNodeDto, AdaptASTNode;
    }
  }

  lemma DecodedLevel<C>(node: Node<C>, d: NodeDto<C>, names: NameMap)
    requires d.constant == node.constant
    requires |d.children| == |node.children| && d.named.Keys == node.named.Keys
    ensures AdaptASTNode(d, names) == Some(WithoutIndex(node)) <==>
      && Normal(d.name) in names && names[Normal(d.name)] == node.func
      && (forall k :: 0 <= k < |d.children| ==>
            AdaptASTNode(d.children[k], names) == Some(WithoutIndex(node.children[k])))
      && forall n | n in d.named :: AdaptASTNode(d.named[n], names) == Some(WithoutIndex(node.named[n]))
  {
    DecodeLevel(d, names);
    hide AdaptASTNode, Normal;
    if AdaptASTNode(d, names).Some? {
      SameLevel(AdaptASTNode(d, names).value, WithoutIndex(node));
    }
  }

  lemma SameLevel<C>(a: Node<C>, b: Node<C>)
    ensures a == b <==>
      && a.index == b.index && a.func == b.func && a.constant == b.constant
      && |a.children| == |b.children|
      && (forall k :: 0 <= k < |a.children| ==> a.children[k] == b.children[k])
      && a.named.Keys == b.named.Keys && forall n | n in a.named :: a.named[n] == b.named[n]
  {
    if && a.index == b.index && a.func == b.func && a.constant == b.constant
       && |a.children| == |b.children|
       && (forall k :: 0 <= k < |a.children| ==> a.children[k] == b.children[k])
       && a.named.Keys == b.named.Keys && (forall n | n in a.named :: a.named[n] == b.named[n]) {
      assert a.children == b.children && a.named == b.named;
    }
  }

  /** Encoding then decoding gives the tree back, without its indexes, exactly when every function in
      it is the one its name leads back to. */
  lemma {:induction false} TreeRoundTrip<C>(node: Node<C>, attributes: Attributes, names: NameMap)
    ensures ComesBack(node, attributes, names) <==> FunctionsIn(node) <= Representatives(attributes, names)
  {
    ComesBackLevel(node, attributes, names);
    FunctionsLevel(node, Representatives(attributes, names));
    hide ComesBack, FunctionsIn, Representatives;
    forall k | 0 <= k < |node.children| {
      TreeRoundTrip(node.children[k], attributes, names);
    }
    forall n | n in node.named {
      TreeRoundTrip(node.named[n], attributes, names);
    }
  }

  /** With distinct names, none of them "Unknown", every tree whose functions have attributes comes
      back, for every order in which the name table was filled. */
  lemma InjectiveRoundTrip<C>(node: Node<C>, attributes: Attributes, names: NameMap)
    requires InvertsInSomeOrder(names, attributes) && Injective(attributes)
    requires "Unknown" !in attributes.Values
    ensures ComesBack(node, attributes, names) <==> FunctionsIn(node) <= attributes.Keys
  {
    TreeRoundTrip(node, attributes, names);
    assert Representatives(attributes, names) == attributes.Keys by {
      forall f | f in attributes ensures f in Representatives(attributes, names) {
        assert attributes[f] in names;
      }
    }
  }

  /** Decoding then encoding gives the DTO with "Unknown" renamed at every depth, whenever decoding
      succeeds; names need not be distinct. */
  lemma {:induction false} DtoRoundTrip<C>(dto: NodeDto<C>, attributes: Attributes, names: NameMap)
    requires InvertsInSomeOrder(names, attributes) && AdaptASTNode(dto, names).Some?
    ensures AdaptNodeDto(AdaptASTNode(dto, names).value, attributes) == Some(Normalised(dto))
  {
    var t := AdaptASTNode(dto, names).value;
    DecodeLevel(dto, names);
    EncodeLevel(t, attributes);
    hide AdaptNodeDto, AdaptASTNode, Normal;
    forall k | 0 <= k < |dto.children| {
      DtoRoundTrip(dto.children[k], attributes, names);
    }
    forall n | n in dto.named {
      DtoRoundTrip(dto.named[n], attributes, names);
    }
    SameDto(AdaptNodeDto(t, attributes).value, Normalised(dto));
  }

  lemma SameDto<C>(a: NodeDto<C>, b: NodeDto<C>)
    requires a.name == b.name && a.constant == b.constant && |a.children| == |b.children|
    requires forall k :: 0 <= k < |a.children| ==> a.children[k] == b.children[k]
    requires a.named.Keys == b.named.Keys && forall n | n in a.named :: a.named[n] == b.named[n]
    ensures a == b
  {
    assert a.children == b.children && a.named == b.named;
  }

  /** Renaming twice changes nothing more, so decoding and encoding is idempotent. */
  lemma {:induction false} NormalisedTwice<C>(dto: NodeDto<C>)
    ensures Normalised(Normalised(dto)) == Normalised(dto)
  {
    var d := Normalised(dto);
    forall k | 0 <= k < |dto.children| {
      NormalisedTwice(dto.children[k]);
    }
    forall n | n in dto.named {
      NormalisedTwice(dto.named[n]);
    }
    SameDto(Normalised(d), d);
  }

  /** Two functions of the same name: one of them does not come back. */
  lemma SharedNameIsLost<C>(
      f: Function, g: Function, attributes: Attributes, names: NameMap, constant: C)
    requires f in attributes && g in attributes && f != g && attributes[f] == attributes[g]
    ensures var a, b := Node(0, f, constant, [], map[]), Node(0, g, constant, [], map[]);
      !(ComesBack(a, attributes, names) && ComesBack(b, attributes, names))
  {
    var a, b := Node(0, f, constant, [], map[]), Node(0, g, constant, [], map[]);
    TreeRoundTrip(a, attributes, names);
    TreeRoundTrip(b, attributes, names);
    assert f in FunctionsIn(a) && g in FunctionsIn(b);
  }

  /** Single nodes: a function is written as its AST name; a name is read as its function, "Unknown" as
      that of "Undefined". */
  lemma LeavesAreNamed<C>(f: Function, name: string, constant: C, attributes: Attributes, names: NameMap)
    ensures AdaptNodeDto(Node(0, f, constant, [], map[]), attributes)
      == if f in attributes then Some(NodeDto(attributes[f], constant, [], map[])) else None
    ensures var n := if name == "Unknown" then "Undefined" else name;
      AdaptASTNode(NodeDto(name, constant, [], map[]), names)
      == if n in names then Some(Node(0, names[n], constant, [], map[])) else None
  {
    var node, dto := Node(0, f, constant, [], map[]), NodeDto(name, constant, [], map[]);
    EncodeLevel(node, attributes);
    DecodeLevel(dto, names);
    var d, n := AdaptNodeDto(node, attributes), AdaptASTNode(dto, names);
    if d.Some? {
      assert d.value.children == [] && d.value.named == map[];
    }
    if n.Some? {
      assert n.value.children == [] && n.value.named == map[];
    }
  }
}
