/** A table update: tagged operations, each with a payload, split into typed lists
    (dto/data_model_dto.go:234-408 and 501-540). J is the type of a raw JSON message. */
module TableOperations {
  import opened Wrappers

  /** `pure_utils.Null`: absent, explicitly null, or a value. */
  datatype Null<T> = Unset | Cleared | Value(value: T)

  datatype Operation<J> = Operation(op: string, data: J)

  // ----- payloads, as decoded -----

  datatype CreateField<J> = CreateField(
    name: string, description: string, dataType: string, alias: string, semanticType: Option<string>,
    nullable: bool, isEnum: bool, isUnique: bool, ftmProperty: Option<string>, metadata: J)

  datatype ModField<J> = ModField(
    id: string, description: Option<string>, isEnum: Option<bool>, isUnique: Option<bool>,
    isNullable: Option<bool>, ftmProperty: Null<string>, alias: Option<string>,
    semanticType: Null<string>, metadata: Option<J>)

  datatype CreateLink = CreateLink(name: string, linkType: string, childField: string, parentTable: string)

  datatype ModLink = ModLink(id: string, linkType: string)

  // ----- what the operations become -----

  datatype FieldToAdd<J> = FieldToAdd(
    name: string, description: string, alias: string, semanticType: string, dataType: int,
    nullable: bool, isEnum: bool, isUnique: bool, ftmProperty: Option<int>, metadata: J)

  datatype FieldToUpdate<J> = FieldToUpdate(
    id: string, description: Option<string>, isEnum: Option<bool>, isUnique: Option<bool>,
    isNullable: Option<bool>, alias: Option<string>, metadata: Option<J>,
    ftmProperty: Null<int>, semanticType: Null<string>)

  datatype Change<A, M> = Add(a: A) | Mod(m: M) | Del(id: string)

  datatype BadParameter =
    | InvalidFtmEntity | EmptyTableAlias | InvalidTableSemanticType
    | InvalidPayload | MissingId | InvalidOperation
    | InvalidDataType | InvalidFtmProperty | InvalidFieldSemanticType | EmptyFieldAlias
    | InvalidLinkType

  /** Enumeration lookups (None for "unknown") and JSON decoding, none of which is modelled. */
  datatype Reader<!J> = Reader(
    ftmEntity: string -> Option<int>,
    tableSemanticType: string -> Option<int>,
    ftmProperty: string -> Option<int>,
    dataType: string -> Option<int>,
    isFieldSemanticType: string -> bool,
    isLinkType: string -> bool,
    createField: J -> Option<CreateField<J>>,
    modField: J -> Option<ModField<J>>,
    createLink: J -> Option<CreateLink>,
    modLink: J -> Option<ModLink>,
    deletion: J -> Option<string>)

  datatype Input<J> = Input(
    description: Option<string>, ftmEntity: Null<string>, alias: Null<string>, semanticType: Null<string>,
    captionField: Null<string>, primaryOrderingField: Null<string>, metadata: Option<J>,
    fields: seq<Operation<J>>, links: seq<Operation<J>>)

  datatype Settings<J> = Settings(
    description: Option<string>, ftmEntity: Null<int>, alias: Null<string>, semanticType: Null<int>,
    captionField: Null<string>, primaryOrderingField: Null<string>, metadata: Option<J>)

  /** The changes of one kind, in three lists. */
  datatype Lists<A, M> = Lists(added: seq<A>, updated: seq<M>, deleted: seq<string>)

  datatype Update<J> = Update(
    settings: Settings<J>,
    fields: Lists<FieldToAdd<J>, FieldToUpdate<J>>,
    links: Lists<CreateLink, ModLink>)

  // ----- one operation -----

  function LookUp<T>(n: Null<string>, known: string -> Option<T>): Option<Null<T>> {
    match n
    case Unset => Some(Unset)
    case Cleared => Some(Cleared)
    case Value(s) => (match known(s) case None => None case Some(v) => Some(Value(v)))
  }

  /** `AdaptCreateFieldInputToModel`. */
  function AdaptCreateField<J>(f: CreateField<J>, reader: Reader<J>): Result<FieldToAdd<J>, BadParameter> {
    var dataType := reader.dataType(f.dataType);
    var property := if f.ftmProperty.None? then None else reader.ftmProperty(f.ftmProperty.value);
    if dataType.None? then Err(InvalidDataType)
    else if f.ftmProperty.Some? && property.None? then Err(InvalidFtmProperty)
    else if f.semanticType.Some? && !reader.isFieldSemanticType(f.semanticType.value) then
      Err(InvalidFieldSemanticType)
    else if f.alias == "" then Err(EmptyFieldAlias)
    else Ok(FieldToAdd(
      f.name, f.description, f.alias, if f.semanticType.None? then "" else f.semanticType.value,
      dataType.value, f.nullable, f.isEnum, f.isUnique, property, f.metadata))
  }

  function AdaptModField<J>(f: ModField<J>, reader: Reader<J>): Result<FieldToUpdate<J>, BadParameter> {
    var property := LookUp(f.ftmProperty, reader.ftmProperty);
    if f.id == "" then Err(MissingId)
    else if f.alias == Some("") then Err(EmptyFieldAlias)
    else if property.None? then Err(InvalidFtmProperty)
    else if f.semanticType.Value? && !reader.isFieldSemanticType(f.semanticType.value) then
      Err(InvalidFieldSemanticType)
    else Ok(FieldToUpdate(
      f.id, f.description, f.isEnum, f.isUnique, f.isNullable, f.alias, f.metadata,
      property.value, f.semanticType))
  }

  /** `AdaptCreateTableLinkInputToModel`. */
  function AdaptCreateLink<J>(l: CreateLink, reader: Reader<J>): Result<CreateLink, BadParameter> {
    if reader.isLinkType(l.linkType) then Ok(l) else Err(InvalidLinkType)
  }

  function AdaptModLink<J>(l: ModLink, reader: Reader<J>): Result<ModLink, BadParameter> {
    if l.id == "" then Err(MissingId)
    else if !reader.isLinkType(l.linkType) then Err(InvalidLinkType)
    else Ok(l)
  }

  function AddField<J>(data: J, reader: Reader<J>): Result<FieldToAdd<J>, BadParameter> {
    match reader.createField(data)
    case None => Err(InvalidPayload)
    case Some(f) => AdaptCreateField(f, reader)
  }

  function UpdateField<J>(data: J, reader: Reader<J>): Result<FieldToUpdate<J>, BadParameter> {
    match reader.modField(data)
    case None => Err(InvalidPayload)
    case Some(f) => AdaptModField(f, reader)
  }

  function AddLink<J>(data: J, reader: Reader<J>): Result<CreateLink, BadParameter> {
    match reader.createLink(data)
    case None => Err(InvalidPayload)
    case Some(l) => AdaptCreateLink(l, reader)
  }

  function UpdateLink<J>(data: J, reader: Reader<J>): Result<ModLink, BadParameter> {
    match reader.modLink(data)
    case None => Err(InvalidPayload)
    case Some(l) => AdaptModLink(l, reader)
  }

  function Delete<J>(data: J, reader: Reader<J>): Result<string, BadParameter> {
    match reader.deletion(data)
    case None => Err(InvalidPayload)
    case Some(id) => if id == "" then Err(MissingId) else Ok(id)
  }

  /** One operation, of a kind that is added, updated and deleted by these payload readers. */
  datatype Kind<!J, A, M> = Kind(
    add: J -> Result<A, BadParameter>,
    update: J -> Result<M, BadParameter>,
    delete: J -> Result<string, BadParameter>)

  function FieldKind<J>(reader: Reader<J>): Kind<J, FieldToAdd<J>, FieldToUpdate<J>> {
    Kind(d => AddField(d, reader), d => UpdateField(d, reader), d => Delete(d, reader))
  }

  function LinkKind<J>(reader: Reader<J>): Kind<J, CreateLink, ModLink> {
    Kind(d => AddLink(d, reader), d => UpdateLink(d, reader), d => Delete(d, reader))
  }

  function Read<J, A, M>(o: Operation<J>, kind: Kind<J, A, M>): Result<Change<A, M>, BadParameter> {
    if o.op == "ADD" then
      (match kind.add(o.data) case Err(e) => Err(e) case Ok(a) => Ok(Add(a)))
    else if o.op == "MOD" then
      (match kind.update(o.data) case Err(e) => Err(e) case Ok(m) => Ok(Mod(m)))
    else if o.op == "DEL" then
      (match kind.delete(o.data) case Err(e) => Err(e) case Ok(id) => Ok(Del(id)))
    else Err(InvalidOperation)
  }

  // ----- a list of operations -----

  function Append<A, M>(l: Lists<A, M>, c: Change<A, M>): Lists<A, M> {
    match c
    case Add(a) => l.(added := l.added + [a])
    case Mod(m) => l.(updated := l.updated + [m])
    case Del(id) => l.(deleted := l.deleted + [id])
  }

  function Split<A, M>(cs: seq<Change<A, M>>): Lists<A, M> {
    if cs == [] then Lists([], [], []) else Append(Split(cs[..|cs| - 1]), cs[|cs| - 1])
  }

  /** `os` reads as `cs`, operation by operation. */
  ghost predicate ReadAs<J, A, M>(
      os: seq<Operation<J>>, cs: seq<Change<A, M>>, kind: Kind<J, A, M>)
  {
    |cs| == |os| && forall n :: 0 <= n < |os| ==> Read(os[n], kind) == Ok(cs[n])
  }

  ghost predicate AllReadable<J, A, M>(os: seq<Operation<J>>, kind: Kind<J, A, M>) {
    forall n :: 0 <= n < |os| ==> Read(os[n], kind).Ok?
  }

  /** The first operation that cannot be read fails with e. */
  ghost predicate FailsWith<J, A, M>(os: seq<Operation<J>>, e: BadParameter, kind: Kind<J, A, M>) {
    exists n :: 0 <= n < |os| && Read(os[n], kind) == Err(e)
      && forall m :: 0 <= m < n ==> Read(os[m], kind).Ok?
  }

  /** One of the two loops of `AdaptToUpdateTableCompositeInput`. */
  method SplitOperations<J, A, M>(os: seq<Operation<J>>, kind: Kind<J, A, M>)
    returns (r: Result<Lists<A, M>, BadParameter>, ghost cs: seq<Change<A, M>>)
    ensures r.Ok? ==> AllReadable(os, kind) && ReadAs(os, cs, kind) && r.value == Split(cs)
    ensures r.Err? ==> FailsWith(os, r.error, kind)
  {
    var added, updated, deleted := [], [], [];
    cs := [];
    for n := 0 to |os|
      invariant ReadAs(os[..n], cs, kind) && Lists(added, updated, deleted) == Split(cs)
    {
      ghost var c := Read(os[n], kind);
      assert forall m :: 0 <= m < n ==> Read(os[..n][m], kind).Ok?;
      assert os[..n + 1] == os[..n] + [os[n]];
      match os[n].op {
        case "ADD" =>
          var a := kind.add(os[n].data);
          if a.Err? {
            return Err(a.error), cs;
          }
          added := added + [a.value];
        case "MOD" =>
          var m := kind.update(os[n].data);
          if m.Err? {
            return Err(m.error), cs;
          }
          updated := updated + [m.value];
        case "DEL" =>
          var id := kind.delete(os[n].data);
          if id.Err? {
            return Err(id.error), cs;
          }
          deleted := deleted + [id.value];
        case _ =>
          return Err(InvalidOperation), cs;
      }
      SplitOneMore(cs, c.value);
      cs := cs + [c.value];
    }
    assert os[..|os|] == os;
    r := Ok(Lists(added, updated, deleted));
  }

  lemma SplitOneMore<A, M>(cs: seq<Change<A, M>>, c: Change<A, M>)
    ensures Split(cs + [c]) == Append(Split(cs), c)
  {
    assert (cs + [c])[..|cs|] == cs;
  }

  /** The two outcomes exclude each other, and there is only one error. */
  lemma OutcomesAreExclusive<J, A, M>(
      os: seq<Operation<J>>, e: BadParameter, f: BadParameter, kind: Kind<J, A, M>)
    requires FailsWith(os, e, kind)
    ensures !AllReadable(os, kind)
    ensures FailsWith(os, f, kind) ==> e == f
  {
    if FailsWith(os, f, kind) {
      var n :| 0 <= n < |os| && Read(os[n], kind) == Err(e)
        && forall m :: 0 <= m < n ==> Read(os[m], kind).Ok?;
      var k :| 0 <= k < |os| && Read(os[k], kind) == Err(f)
        && forall m :: 0 <= m < k ==> Read(os[m], kind).Ok?;
    }
  }

  // ----- the split loses nothing -----

  datatype Tag = Added | Updated | Deleted

  function TagOf<A, M>(c: Change<A, M>): Tag {
    match c
    case Add(_) => Added
    case Mod(_) => Updated
    case Del(_) => Deleted
  }

  function Tags<A, M>(cs: seq<Change<A, M>>): seq<Tag> {
    seq(|cs|, n requires 0 <= n < |cs| => TagOf(cs[n]))
  }

  /** The tags of operations that can be read. */
  function OperationTags<J>(os: seq<Operation<J>>): seq<Tag> {
    seq(|os|, n requires 0 <= n < |os| =>
      if os[n].op == "ADD" then Added else if os[n].op == "MOD" then Updated else Deleted)
  }

  /** Rebuilds a list of changes: each tag takes the last entry left in its list. */
  function Replay<A, M>(tags: seq<Tag>, l: Lists<A, M>): Option<seq<Change<A, M>>> {
    if tags == [] then
      if l == Lists([], [], []) then Some([]) else None
    else
      match Pop(tags[|tags| - 1], l)
      case None => None
      case Some((c, rest)) =>
        match Replay(tags[..|tags| - 1], rest)
        case None => None
        case Some(cs) => Some(cs + [c])
  }

  function Pop<A, M>(t: Tag, l: Lists<A, M>): Option<(Change<A, M>, Lists<A, M>)> {
    match t
    case Added =>
      if l.added == [] then None
      else Some((Add(l.added[|l.added| - 1]), l.(added := l.added[..|l.added| - 1])))
    case Updated =>
      if l.updated == [] then None
      else Some((Mod(l.updated[|l.updated| - 1]), l.(updated := l.updated[..|l.updated| - 1])))
    case Deleted =>
      if l.deleted == [] then None
      else Some((Del(l.deleted[|l.deleted| - 1]), l.(deleted := l.deleted[..|l.deleted| - 1])))
  }

  lemma PopUndoesAppend<A, M>(l: Lists<A, M>, c: Change<A, M>)
    ensures Pop(TagOf(c), Append(l, c)) == Some((c, l))
  {
  }

  lemma AppendUndoesPop<A, M>(t: Tag, l: Lists<A, M>)
    ensures match Pop(t, l) case None => true case Some((c, rest)) => TagOf(c) == t && Append(rest, c) == l
  {
  }

  /** Splitting and replaying are inverse to each other, so a list of changes is its tags and its
      three lists, each in the order of the operations. */
  lemma {:induction false} ReplayInvertsSplit<A, M>(tags: seq<Tag>, l: Lists<A, M>, cs: seq<Change<A, M>>)
    ensures Replay(tags, l) == Some(cs) <==> tags == Tags(cs) && l == Split(cs)
    decreases |tags| + |cs|
  {
    if tags != [] && cs != [] {
      var m, k := |tags| - 1, |cs| - 1;
      AppendUndoesPop(tags[m], l);
      PopUndoesAppend(Split(cs[..k]), cs[k]);
      assert tags == tags[..m] + [tags[m]] && cs == cs[..k] + [cs[k]];
      TagsOneMore(cs[..k], cs[k]);
      match Pop(tags[m], l) {
        case None =>
        case Some((c, rest)) =>
          ReplayInvertsSplit(tags[..m], rest, cs[..k]);
      }
    }
  }

  lemma TagsOneMore<A, M>(cs: seq<Change<A, M>>, c: Change<A, M>)
    ensures Tags(cs + [c]) == Tags(cs) + [TagOf(c)]
  {
  }

  lemma {:induction false} SplitSize<A, M>(cs: seq<Change<A, M>>)
    ensures var l := Split(cs); |l.added| + |l.updated| + |l.deleted| == |cs|
  {
    if cs != [] {
      SplitSize(cs[..|cs| - 1]);
    }
  }

  /** The lists of `l`, replayed by the tags of the operations, are what the operations read as. */
  ghost predicate Rebuilds<J, A, M>(os: seq<Operation<J>>, l: Lists<A, M>, kind: Kind<J, A, M>) {
    && var replay := Replay(OperationTags(os), l);
    && replay.Some? && ReadAs(os, replay.value, kind)
    && |l.added| + |l.updated| + |l.deleted| == |os|
  }

  lemma OperationsAreRebuilt<J, A, M>(
      os: seq<Operation<J>>, l: Lists<A, M>, cs: seq<Change<A, M>>, kind: Kind<J, A, M>)
    requires ReadAs(os, cs, kind) && l == Split(cs)
    ensures Replay(OperationTags(os), l) == Some(cs)
    ensures Rebuilds(os, l, kind)
  {
    assert forall n :: 0 <= n < |os| ==> Read(os[n], kind) == Ok(cs[n]);
    assert OperationTags(os) == Tags(cs);
    ReplayInvertsSplit(OperationTags(os), l, cs);
    SplitSize(cs);
  }

  /** Two lists of operations are split alike exactly when they agree tag by tag: how operations with
      different tags are interleaved is the only thing that the lists do not tell. */
  lemma SplitForgetsOnlyInterleaving<A, M>(cs: seq<Change<A, M>>, ds: seq<Change<A, M>>)
    ensures Split(cs) == Split(ds) && Tags(cs) == Tags(ds) <==> cs == ds
  {
    ReplayInvertsSplit(Tags(cs), Split(cs), cs);
    ReplayInvertsSplit(Tags(ds), Split(ds), ds);
  }

  lemma InterleavingIsForgotten<A, M>(a: A, id: string)
    ensures Split<A, M>([Add(a), Del(id)]) == Split([Del(id), Add(a)])
  {
    SplitOneMore<A, M>([], Add(a));
    SplitOneMore<A, M>([], Del(id));
    SplitOneMore<A, M>([Add(a)], Del(id));
    SplitOneMore<A, M>([Del(id)], Add(a));
    var x: Change<A, M>, y: Change<A, M> := Add(a), Del(id);
    assert [x] + [y] == [x, y] && [y] + [x] == [y, x];
  }

  // ----- the whole adapter -----

  /** The table-level values: each is absent or null like the input, or what the input names. */
  ghost predicate Names<T>(n: Null<string>, known: string -> Option<T>, v: Null<T>) {
    match n
    case Unset => v == Unset
    case Cleared => v == Cleared
    case Value(s) => v.Value? && known(s) == Some(v.value)
  }

  predicate Unknown<T>(n: Null<string>, known: string -> Option<T>) {
    n.Value? && known(n.value).None?
  }

  ghost predicate SettingsMatch<J>(i: Input<J>, s: Settings<J>, reader: Reader<J>) {
    && Names(i.ftmEntity, reader.ftmEntity, s.ftmEntity)
    && s.alias == i.alias && i.alias != Value("")
    && Names(i.semanticType, reader.tableSemanticType, s.semanticType)
    && (s.description, s.captionField, s.primaryOrderingField, s.metadata)
      == (i.description, i.captionField, i.primaryOrderingField, i.metadata)
  }

  function SettingsError<J>(i: Input<J>, reader: Reader<J>): Option<BadParameter> {
    if Unknown(i.ftmEntity, reader.ftmEntity) then Some(InvalidFtmEntity)
    else if i.alias == Value("") then Some(EmptyTableAlias)
    else if Unknown(i.semanticType, reader.tableSemanticType) then Some(InvalidTableSemanticType)
    else None
  }

  method AdaptToUpdateTableCompositeInput<J>(i: Input<J>, reader: Reader<J>)
    returns (r: Result<Update<J>, BadParameter>)
    ensures r.Ok? <==> AllValid(i, reader)
    ensures r.Ok? ==> Lossless(i, r.value, reader)
    ensures r.Err? ==> FirstError(i, r.error, reader)
  {
    hide Read, ReadAs, AllReadable, FailsWith, Rebuilds, Replay, Split, FieldKind, LinkKind, OperationTags;
    var ftmEntity, semanticType := Unset, Unset;
    match i.ftmEntity {
      case Value(name) =>
        var e := reader.ftmEntity(name);
        if e == None {
          return Err(InvalidFtmEntity);
        }
        ftmEntity := Value(e.value);
      case Cleared => ftmEntity := Cleared;
      case Unset =>
    }
    if i.alias == Value("") {
      return Err(EmptyTableAlias);
    }
    match i.semanticType {
      case Value(name) =>
        var t := reader.tableSemanticType(name);
        if t == None {
          return Err(InvalidTableSemanticType);
        }
        semanticType := Value(t.value);
      case Cleared => semanticType := Cleared;
      case Unset =>
    }
    var settings := Settings(
      i.description, ftmEntity, i.alias, semanticType, i.captionField, i.primaryOrderingField, i.metadata);

    var fields, fs := SplitOperations(i.fields, FieldKind(reader));
    if fields.Err? {
      OutcomesAreExclusive(i.fields, fields.error, fields.error, FieldKind(reader));
      return Err(fields.error);
    }
    var links, ls := SplitOperations(i.links, LinkKind(reader));
    if links.Err? {
      OutcomesAreExclusive(i.links, links.error, links.error, LinkKind(reader));
      return Err(links.error);
    }
    OperationsAreRebuilt(i.fields, fields.value, fs, FieldKind(reader));
    OperationsAreRebuilt(i.links, links.value, ls, LinkKind(reader));
    return Ok(Update(settings, fields.value, links.value));
  }

  ghost predicate AllValid<J>(i: Input<J>, reader: Reader<J>) {
    && SettingsError(i, reader) == None
    && AllReadable(i.fields, FieldKind(reader))
    && AllReadable(i.links, LinkKind(reader))
  }

  /** Fields come before links, and both after the table's own values. */
  ghost predicate FirstError<J>(i: Input<J>, e: BadParameter, reader: Reader<J>) {
    match SettingsError(i, reader)
    case Some(f) => e == f
    case None =>
      || FailsWith(i.fields, e, FieldKind(reader))
      || (AllReadable(i.fields, FieldKind(reader)) && FailsWith(i.links, e, LinkKind(reader)))
  }

  ghost predicate Lossless<J>(i: Input<J>, u: Update<J>, reader: Reader<J>) {
    && SettingsMatch(i, u.settings, reader)
    && Rebuilds(i.fields, u.fields, FieldKind(reader))
    && Rebuilds(i.links, u.links, LinkKind(reader))
  }

  /** The contract of the adapter leaves it no choice. */
  lemma LosslessIsUnique<J>(i: Input<J>, u: Update<J>, v: Update<J>, reader: Reader<J>)
    requires Lossless(i, u, reader) && Lossless(i, v, reader)
    ensures u == v
  {
    RebuildIsUnique(i.fields, u.fields, v.fields, FieldKind(reader));
    RebuildIsUnique(i.links, u.links, v.links, LinkKind(reader));
  }

  lemma RebuildIsUnique<J, A, M>(
      os: seq<Operation<J>>, l: Lists<A, M>, m: Lists<A, M>, kind: Kind<J, A, M>)
    requires Rebuilds(os, l, kind) && Rebuilds(os, m, kind)
    ensures l == m
  {
    var tags := OperationTags(os);
    var cs, ds := Replay(tags, l).value, Replay(tags, m).value;
    assert forall n :: 0 <= n < |os| ==> Read(os[n], kind) == Ok(cs[n]) && Read(os[n], kind) == Ok(ds[n]);
    assert cs == ds;
    ReplayInvertsSplit(tags, l, cs);
    ReplayInvertsSplit(tags, m, ds);
  }

  lemma ErrorIsUnique<J>(i: Input<J>, e: BadParameter, f: BadParameter, reader: Reader<J>)
    requires FirstError(i, e, reader)
    ensures !AllValid(i, reader)
    ensures FirstError(i, f, reader) ==> e == f
  {
    if SettingsError(i, reader) == None {
      if FailsWith(i.fields, e, FieldKind(reader)) {
        OutcomesAreExclusive(i.fields, e, f, FieldKind(reader));
      } else {
        OutcomesAreExclusive(i.links, e, f, LinkKind(reader));
      }
      if FailsWith(i.fields, f, FieldKind(reader)) {
        OutcomesAreExclusive(i.fields, f, e, FieldKind(reader));
      }
    }
  }

  // ----- what reaches the data model -----

  predicate FieldChangeIsSound<J>(c: Change<FieldToAdd<J>, FieldToUpdate<J>>, reader: Reader<J>) {
    match c
    case Add(f) => f.alias != "" && (f.semanticType == "" || reader.isFieldSemanticType(f.semanticType))
    case Mod(f) => f.id != "" && f.alias != Some("")
      && (f.semanticType.Value? ==> reader.isFieldSemanticType(f.semanticType.value))
    case Del(id) => id != ""
  }

  predicate LinkChangeIsSound<J>(c: Change<CreateLink, ModLink>, reader: Reader<J>) {
    match c
    case Add(l) => reader.isLinkType(l.linkType)
    case Mod(l) => l.id != "" && reader.isLinkType(l.linkType)
    case Del(id) => id != ""
  }

  ghost predicate AllSound<A, M>(l: Lists<A, M>, sound: Change<A, M> -> bool) {
    && (forall a | a in l.added :: sound(Add(a)))
    && (forall m | m in l.updated :: sound(Mod(m)))
    && (forall id | id in l.deleted :: sound(Del(id)))
  }

  lemma {:induction false} SplitKeepsSound<A, M>(cs: seq<Change<A, M>>, sound: Change<A, M> -> bool)
    ensures AllSound(Split(cs), sound) <==> forall c | c in cs :: sound(c)
  {
    if cs != [] {
      SplitKeepsSound(cs[..|cs| - 1], sound);
      assert cs == cs[..|cs| - 1] + [cs[|cs| - 1]];
    }
  }

  /** Whatever the payloads are, no empty id, empty alias or unknown type gets past the adapter. */
  lemma OnlySoundChanges<J>(i: Input<J>, u: Update<J>, reader: Reader<J>)
    requires Lossless(i, u, reader)
    ensures AllSound(u.fields, c => FieldChangeIsSound(c, reader))
    ensures AllSound(u.links, c => LinkChangeIsSound(c, reader))
    ensures u.settings.alias != Value("")
  {
    var fs := Replay(OperationTags(i.fields), u.fields).value;
    var ls := Replay(OperationTags(i.links), u.links).value;
    forall c | c in fs ensures FieldChangeIsSound(c, reader) {
      var n :| 0 <= n < |fs| && fs[n] == c;
      assert Read(i.fields[n], FieldKind(reader)) == Ok(c);
      ReadFieldIsSound(i.fields[n], c, reader);
    }
    forall c | c in ls ensures LinkChangeIsSound(c, reader) {
      var n :| 0 <= n < |ls| && ls[n] == c;
      assert Read(i.links[n], LinkKind(reader)) == Ok(c);
      ReadLinkIsSound(i.links[n], c, reader);
    }
    ReplayInvertsSplit(OperationTags(i.fields), u.fields, fs);
    ReplayInvertsSplit(OperationTags(i.links), u.links, ls);
    SplitKeepsSound(fs, c => FieldChangeIsSound(c, reader));
    SplitKeepsSound(ls, c => LinkChangeIsSound(c, reader));
  }

  lemma ReadFieldIsSound<J>(
      o: Operation<J>, c: Change<FieldToAdd<J>, FieldToUpdate<J>>, reader: Reader<J>)
    requires Read(o, FieldKind(reader)) == Ok(c)
    ensures FieldChangeIsSound(c, reader)
  {
  }

  lemma ReadLinkIsSound<J>(o: Operation<J>, c: Change<CreateLink, ModLink>, reader: Reader<J>)
    requires Read(o, LinkKind(reader)) == Ok(c)
    ensures LinkChangeIsSound(c, reader)
  {
  }

  // ----- nothing of a payload is dropped or mixed up -----

  /** An optional name that is looked up. */
  ghost predicate NamesOptional<T>(n: Option<string>, known: string -> Option<T>, v: Option<T>) {
    match n
    case None => v == None
    case Some(s) => v.Some? && known(s) == Some(v.value)
  }

  ghost predicate IsFieldToAdd<J>(d: CreateField<J>, f: FieldToAdd<J>, reader: Reader<J>) {
    && f.name == d.name && f.description == d.description && f.metadata == d.metadata
    && f.nullable == d.nullable && f.isEnum == d.isEnum && f.isUnique == d.isUnique
    && f.alias == d.alias != ""
    && reader.dataType(d.dataType) == Some(f.dataType)
    && NamesOptional(d.ftmProperty, reader.ftmProperty, f.ftmProperty)
    && (d.semanticType.None? ==> f.semanticType == "")
    && (d.semanticType.Some? ==>
          f.semanticType == d.semanticType.value && reader.isFieldSemanticType(f.semanticType))
  }

  ghost predicate IsFieldToUpdate<J>(d: ModField<J>, f: FieldToUpdate<J>, reader: Reader<J>) {
    && f.id == d.id != "" && f.description == d.description && f.metadata == d.metadata
    && f.isEnum == d.isEnum && f.isUnique == d.isUnique && f.isNullable == d.isNullable
    && f.alias == d.alias != Some("")
    && Names(d.ftmProperty, reader.ftmProperty, f.ftmProperty)
    && f.semanticType == d.semanticType
    && (f.semanticType.Value? ==> reader.isFieldSemanticType(f.semanticType.value))
  }

  /** What a field operation reads as, payload by payload. */
  lemma FieldOperationIff<J>(
      o: Operation<J>, c: Change<FieldToAdd<J>, FieldToUpdate<J>>, reader: Reader<J>)
    ensures Read(o, FieldKind(reader)) == Ok(c) <==>
      match c
      case Add(f) => o.op == "ADD" && reader.createField(o.data).Some?
        && IsFieldToAdd(reader.createField(o.data).value, f, reader)
      case Mod(f) => o.op == "MOD" && reader.modField(o.data).Some?
        && IsFieldToUpdate(reader.modField(o.data).value, f, reader)
      case Del(id) => o.op == "DEL" && reader.deletion(o.data) == Some(id) && id != ""
  {
    assert "ADD" != "MOD" && "ADD"[0] != "DEL"[0] && "MOD"[0] != "DEL"[0];
  }

  /** What a link operation reads as. */
  lemma LinkOperationIff<J>(o: Operation<J>, c: Change<CreateLink, ModLink>, reader: Reader<J>)
    ensures Read(o, LinkKind(reader)) == Ok(c) <==>
      match c
      case Add(l) => o.op == "ADD" && reader.createLink(o.data) == Some(l) && reader.isLinkType(l.linkType)
      case Mod(l) => o.op == "MOD" && reader.modLink(o.data) == Some(l)
        && l.id != "" && reader.isLinkType(l.linkType)
      case Del(id) => o.op == "DEL" && reader.deletion(o.data) == Some(id) && id != ""
  {
    assert "ADD" != "MOD" && "ADD"[0] != "DEL"[0] && "MOD"[0] != "DEL"[0];
  }
}
