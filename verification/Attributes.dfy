/** Item attributes as a stream (`Item::serializeAttr`, `Item::unserializeAttr`):
    which attributes are written, in which order and width, and what reading makes
    of them. */
module Attributes {
  import opened Bytes
  import opened Options

  /** The fields of an item table row that saving and loading look at. `fluid` covers
      fluid containers and splashes. */
  datatype Kind = Kind(
    id: nat, stackable: bool, fluid: bool, charges: nat, isKey: bool, moveable: bool,
    decayTime: nat, reflect: nat, isContainer: bool)

  datatype Key =
    | ActionId | MovementId | Date | Duration | DecayState | Charges | FluidType
    | Weight | Attack | Defense | Armor | ShootRange | MissileEffect
    | KeyNumber | KeyHoleNumber | DoorQuestNumber | DoorQuestValue | DoorLevel | ChestQuestNumber
    | LifeLeech | ManaLeech | Critical | Owner | CorpseOwner | DoorId
    | TextAttr | Writer | Description | Name | Article | PluralName

  datatype Val = Num(n: int) | Str(s: seq<byte>)

  datatype Item = Item(kind: Kind, count: nat, attrs: map<Key, Val>, contents: seq<Item>)

  // ---- making and changing items ----------------------------------------------------

  function Get(x: Item, k: Key): int {
    if k in x.attrs && x.attrs[k].Num? then x.attrs[k].n else 0
  }

  function GetStr(x: Item, k: Key): seq<byte> {
    if k in x.attrs && x.attrs[k].Str? then x.attrs[k].s else []
  }

  function SetAttr(x: Item, k: Key, v: Val): Item {
    x.(attrs := x.attrs[k := v])
  }

  /** `Item::CreateItem(id, n)`: an ordinary item or container straight from its row. At
      least one unit is made of a stackable item; a container is made without a count. */
  function CreatedWith(kind: Kind, n: nat): Item {
    var base := Item(kind, 1, map[], []);
    var m := if kind.isContainer then 0 else if kind.stackable && n == 0 then 1 else n;
    var filled :=
      if kind.fluid then SetAttr(base, FluidType, Num(m))
      else if kind.stackable then
        (if m != 0 then base.(count := m % 0x100)
          else if kind.charges != 0 then base.(count := kind.charges % 0x100) else base)
      else if kind.charges != 0 then SetAttr(base, Charges, Num(if m != 0 then m else kind.charges % 0x1_0000))
      else if kind.isKey then SetAttr(base, KeyNumber, Num(m))
      else base;
    if kind.decayTime * 1000 % 0x1_0000_0000 != 0
    then SetAttr(filled, Duration, Num(ToInt32(kind.decayTime * 1000 % 0x1_0000_0000)))
    else filled
  }

  function Created(kind: Kind): Item {
    CreatedWith(kind, 0)
  }

  function SetSubType(x: Item, n: nat): Item {
    if x.kind.fluid then SetAttr(x, FluidType, Num(n))
    else if x.kind.stackable then x.(count := n % 0x100)
    else if x.kind.charges != 0 then SetAttr(x, Charges, Num(n))
    else x.(count := n % 0x100)
  }

  function SubType(x: Item): int {
    if x.kind.fluid then Get(x, FluidType) % 0x1_0000
    else if x.kind.stackable then x.count
    else if x.kind.charges != 0 then Get(x, Charges) % 0x1_0000
    else x.count
  }

  function ToInt32(u: nat): int {
    if u < 0x8000_0000 then u else u - 0x1_0000_0000
  }

  // ---- the attribute rows --------------------------------------------------------------

  /** What an attribute tag stands for: where the value goes, how wide it is, and when
      it is written. */
  datatype Place = Sub | Attr(key: Key) | Ignored

  datatype Width = Bytes(k: nat) | Signed32 | Text

  datatype When = Never | IfCounted | IfNonZero | IfNonZeroMoveable | IfNonEmpty | IfSet | IfDecaying | IfReflecting

  datatype Row = Row(place: Place, width: Width, when: When)

  const ATTR_CONTAINER_ITEMS: byte := 29

  function RowOf(tag: byte): Option<Row> {
    match tag
    case 15 => Some(Row(Sub, Bytes(1), IfCounted))                       // ATTR_COUNT
    case 12 => Some(Row(Sub, Bytes(1), Never))                           // ATTR_RUNE_CHARGES
    case 22 => Some(Row(Sub, Bytes(2), IfNonZero))                       // ATTR_CHARGES
    case 4  => Some(Row(Attr(ActionId), Bytes(2), IfNonZeroMoveable))
    case 5  => Some(Row(Attr(MovementId), Bytes(2), Never))
    case 6  => Some(Row(Attr(TextAttr), Text, IfNonEmpty))
    case 18 => Some(Row(Attr(Date), Signed32, IfNonZero))
    case 19 => Some(Row(Attr(Writer), Text, IfNonEmpty))
    case 7  => Some(Row(Attr(Description), Text, IfNonEmpty))
    case 16 => Some(Row(Attr(Duration), Signed32, IfSet))
    case 17 => Some(Row(Attr(DecayState), Bytes(1), IfDecaying))
    case 30 => Some(Row(Attr(Name), Text, IfSet))
    case 31 => Some(Row(Attr(Article), Text, IfSet))
    case 32 => Some(Row(Attr(PluralName), Text, IfSet))
    case 33 => Some(Row(Attr(Weight), Signed32, IfSet))
    case 34 => Some(Row(Attr(Attack), Signed32, IfSet))
    case 35 => Some(Row(Attr(Defense), Signed32, IfSet))
    case 36 => Some(Row(Attr(Armor), Signed32, IfSet))
    case 37 => Some(Row(Attr(ShootRange), Bytes(1), Never))
    case 38 => Some(Row(Attr(MissileEffect), Bytes(1), IfSet))
    case 23 => Some(Row(Attr(KeyNumber), Bytes(2), IfSet))
    case 24 => Some(Row(Attr(KeyHoleNumber), Bytes(2), IfSet))
    case 27 => Some(Row(Attr(DoorLevel), Bytes(2), IfSet))
    case 25 => Some(Row(Attr(DoorQuestNumber), Bytes(2), IfSet))
    case 26 => Some(Row(Attr(DoorQuestValue), Bytes(2), IfSet))
    case 28 => Some(Row(Attr(ChestQuestNumber), Bytes(2), IfSet))
    case 39 => Some(Row(Attr(LifeLeech), Bytes(2), IfNonZero))
    case 40 => Some(Row(Attr(ManaLeech), Bytes(2), IfNonZero))
    case 41 => Some(Row(Attr(Critical), Bytes(2), IfNonZero))
    case 43 => Some(Row(Ignored, Bytes(2), IfReflecting))                // no store accepts it
    case 10 => Some(Row(Ignored, Bytes(2), Never))                       // skipped: depot id
    case 14 => Some(Row(Ignored, Bytes(1), Never))                       // skipped: house door id
    case 20 => Some(Row(Ignored, Bytes(4), Never))                       // skipped: sleeper
    case 21 => Some(Row(Ignored, Bytes(4), Never))                       // skipped: sleep start
    case 8  => Some(Row(Ignored, Bytes(5), Never))                       // skipped: teleport target
    case _ => None
  }

  /** The order `serializeAttr` writes in. */
  const SAVED_TAGS: seq<byte> :=
    [15, 22, 4, 6, 18, 19, 7, 16, 17, 30, 31, 32, 33, 34, 35, 36, 38, 23, 24, 27, 25, 26, 28, 39, 40, 41, 43]

  // ---- writing -----------------------------------------------------------------------------

  function Value(x: Item, row: Row): Val {
    if row.width == Text then Str(if row.place.Attr? then GetStr(x, row.place.key) else [])
    else match row.place
      case Sub => Num(if row.when == IfCounted then SubType(x) else Get(x, Charges) % 0x1_0000)
      case Ignored => Num(x.kind.reflect % 0x1_0000)
      case Attr(k) => Num(Get(x, k))
  }

  predicate Writes(x: Item, row: Row) {
    var v := Value(x, row);
    match row.when
    case Never => false
    case IfCounted => x.kind.stackable || x.kind.fluid
    case IfNonZero => v.Num? && (if row.width == Bytes(2) then v.n % 0x1_0000 else v.n) != 0
    case IfNonZeroMoveable => x.kind.moveable && v.Num? && v.n % 0x1_0000 != 0
    case IfNonEmpty => v.Str? && v.s != []
    case IfSet => row.place.Attr? && row.place.key in x.attrs
    case IfDecaying => v == Num(1) || v == Num(2)
    case IfReflecting => v.Num? && v.n != 0
  }

  function Modulus(w: Width): nat {
    match w
    case Bytes(k) => Pow256(k)
    case Signed32 => Pow256(4)
    case Text => 1
  }

  function Size(w: Width): nat {
    match w
    case Bytes(k) => k
    case Signed32 => 4
    case Text => 0
  }

  /** `write<T>` and `writeString`; an overlong string is written as an empty one. */
  function Payload(v: Val, w: Width): seq<byte> {
    match v
    case Num(n) => LE(n % Modulus(w), Size(w))
    case Str(s) => if |s| > 0xFFFF then LE(0, 2) else LE(|s|, 2) + s
  }

  function SavedTag(x: Item, tag: byte): seq<byte> {
    match RowOf(tag)
    case None => []
    case Some(row) => if Writes(x, row) then [tag] + Payload(Value(x, row), row.width) else []
  }

  function SavedTags(x: Item, tags: seq<byte>): seq<byte> {
    if tags == [] then [] else SavedTag(x, tags[0]) + SavedTags(x, tags[1..])
  }

  /** `Item::serializeAttr`. */
  function SavedAttrs(x: Item): seq<byte> {
    SavedTags(x, SAVED_TAGS)
  }

  // ---- reading ------------------------------------------------------------------------------

  /** `PropStream::read` and `readString`. */
  function ReadVal(s: seq<byte>, w: Width): Option<(Val, seq<byte>)> {
    match w
    case Bytes(k) =>
      if |s| < k then None else Some((Num(FromLE(s[..k])), s[k..]))
    case Signed32 => if |s| < 4 then None else Some((Num(ToInt32(FromLE(s[..4]))), s[4..]))
    case Text =>
      if |s| < 2 then None
      else
        var n := FromLE(s[..2]);
        if |s| - 2 < n then None else Some((Str(s[2..2 + n]), s[2 + n..]))
  }

  /** What the store does with a value that has been read. */
  function Store(x: Item, place: Place, v: Val): Item {
    match place
    case Sub => if v.Num? && v.n >= 0 then SetSubType(x, v.n) else x
    case Ignored => x
    case Attr(k) =>
      if v.Str? then (if v.s == [] then x else SetAttr(x, k, v))
      else if k == Duration then SetAttr(x, k, Num(if v.n < 0 then 0 else v.n))
      else if k == DecayState then (if v.n == 0 then x else SetAttr(x, k, Num(2)))
      else SetAttr(x, k, v)
  }

  datatype AttrResult = AttrError | AttrDone(x: Item, rest: seq<byte>, nested: Option<nat>)

  /** `Item::unserializeAttr`: tags until a zero byte, the end of the stream, or the
      count of nested items. */
  function ReadAttrs(x: Item, s: seq<byte>): (r: AttrResult)
    ensures r.AttrDone? ==> |r.rest| <= |s|
    decreases |s|
  {
    if s == [] || s[0] == 0 then AttrDone(x, if s == [] then [] else s[1..], None)
    else if s[0] == ATTR_CONTAINER_ITEMS then
      if !x.kind.isContainer || |s| < 5 then AttrError
      else AttrDone(x, s[5..], Some(FromLE(s[1..5])))
    else if RowOf(s[0]) == None then AttrError
    else
      var row := RowOf(s[0]).value;
      var got := ReadVal(s[1..], row.width);
      if got == None then AttrError
      else if |got.value.1| >= |s| then AttrError
      else ReadAttrs(Store(x, row.place, got.value.0), got.value.1)
  }

  // ---- reading back what was written -----------------------------------------------------------

  /** The value a written attribute has after its trip through the stream. */
  function Received(v: Val, w: Width): Val {
    match v
    case Str(s) => Str(if |s| > 0xFFFF then [] else s)
    case Num(n) =>
      match w
      case Bytes(k) => Num(n % Pow256(k))
      case Signed32 => Num(ToInt32(n % Pow256(4)))
      case Text => v
  }

  function Restore(x: Item, y: Item, tags: seq<byte>): Item
    decreases tags
  {
    if tags == [] then y
    else
      match RowOf(tags[0])
      case None => Restore(x, y, tags[1..])
      case Some(row) => Restore(x, Step(x, y, row), tags[1..])
  }

  /** What one row of `x`, written and read, does to `y`. */
  function Step(x: Item, y: Item, row: Row): Item {
    if Writes(x, row) then Store(y, row.place, Received(Value(x, row), row.width)) else y
  }

  lemma PayloadRead(v: Val, w: Width, tail: seq<byte>)
    requires v.Str? <==> w == Text
    ensures ReadVal(Payload(v, w) + tail, w) == Some((Received(v, w), tail))
  {
    var p := Payload(v, w);
    match v
    case Num(n) =>
      FromLEInvertsLE(n % Modulus(w), Size(w));
      assert (p + tail)[..Size(w)] == p && (p + tail)[Size(w)..] == tail;
    case Str(s) =>
      var str := if |s| > 0xFFFF then [] else s;
      assert Pow256(2) == 0x1_0000;
      FromLEInvertsLE(|str|, 2);
      assert p == LE(|str|, 2) + str;
      assert (p + tail)[..2] == LE(|str|, 2);
      assert (p + tail)[2..2 + |str|] == str && (p + tail)[2 + |str|..] == tail;
  }

  /** One tag read. */
  lemma TagRead(y: Item, t: byte, row: Row, v: Val, rest: seq<byte>)
    requires t != 0 && t != ATTR_CONTAINER_ITEMS && RowOf(t) == Some(row)
    requires v.Str? <==> row.width == Text
    ensures ReadAttrs(y, [t] + Payload(v, row.width) + rest)
         == ReadAttrs(Store(y, row.place, Received(v, row.width)), rest)
  {
    var s := [t] + Payload(v, row.width) + rest;
    assert s[1..] == Payload(v, row.width) + rest;
    PayloadRead(v, row.width, rest);
  }

  predicate Saveable(t: byte) {
    t != 0 && t != ATTR_CONTAINER_ITEMS && RowOf(t).Some?
  }

  lemma SavedTagsSaveable()
    ensures forall t :: t in SAVED_TAGS ==> Saveable(t)
  {
  }

  lemma SavedTagRead(x: Item, y: Item, t: byte, row: Row, rest: seq<byte>)
    requires t != 0 && t != ATTR_CONTAINER_ITEMS && RowOf(t) == Some(row)
    ensures ReadAttrs(y, SavedTag(x, t) + rest) == ReadAttrs(Step(x, y, row), rest)
  {
    if Writes(x, row) {
      var v := Value(x, row);
      assert SavedTag(x, t) + rest == [t] + Payload(v, row.width) + rest;
      TagRead(y, t, row, v, rest);
    } else {
      assert SavedTag(x, t) + rest == rest;
    }
  }

  lemma {:induction false} TagsRead(x: Item, y: Item, tags: seq<byte>, tail: seq<byte>)
    requires forall t :: t in tags ==> Saveable(t)
    ensures ReadAttrs(y, SavedTags(x, tags) + tail) == ReadAttrs(Restore(x, y, tags), tail)
    decreases tags
  {
    if tags == [] {
      assert SavedTags(x, tags) + tail == tail;
    } else {
      var t, rest := tags[0], SavedTags(x, tags[1..]) + tail;
      assert Saveable(t);
      var row := RowOf(t).value;
      assert SavedTags(x, tags) + tail == SavedTag(x, t) + rest;
      SavedTagRead(x, y, t, row, rest);
      TagsRead(x, Step(x, y, row), tags[1..], tail);
    }
  }

  /** The item that comes back. */
  function Restored(x: Item): Item {
    Restore(x, Created(x.kind), SAVED_TAGS)
  }

  /** For every item and whatever follows: reading the written attributes into a fresh
      item of the same row leaves exactly what follows. */
  lemma AttrsReadBack(x: Item, tail: seq<byte>)
    ensures ReadAttrs(Created(x.kind), SavedAttrs(x) + tail) == ReadAttrs(Restored(x), tail)
  {
    SavedTagsSaveable();
    TagsRead(x, Created(x.kind), SAVED_TAGS, tail);
  }

  // ---- any stream, well written or not --------------------------------------------------------------

  datatype Field = Field(tag: byte, raw: seq<byte>)

  /** As many bytes as the width takes. */
  predicate Fills(raw: seq<byte>, w: Width) {
    match w
    case Bytes(k) => |raw| == k
    case Signed32 => |raw| == 4
    case Text => |raw| >= 2 && |raw| == 2 + FromLE(raw[..2])
  }

  predicate Legal(field: Field) {
    && field.tag != 0 && field.tag != ATTR_CONTAINER_ITEMS && RowOf(field.tag).Some?
    && Fills(field.raw, RowOf(field.tag).value.width)
  }

  /** Attributes end with the stream, with a zero byte, or with the count of what a container holds. */
  predicate Ends(kind: Kind, s: seq<byte>) {
    s == [] || s[0] == 0 || (s[0] == ATTR_CONTAINER_ITEMS && kind.isContainer && |s| >= 5)
  }

  /** `s` is these fields, one after the other, and an end. */
  predicate Consists(kind: Kind, fields: seq<Field>, s: seq<byte>)
    decreases |fields|
  {
    if fields == [] then Ends(kind, s)
    else
      && Legal(fields[0]) && [fields[0].tag] + fields[0].raw <= s
      && Consists(kind, fields[1..], s[1 + |fields[0].raw|..])
  }

  predicate Fielded(kind: Kind, fields: seq<Field>, s: seq<byte>) {
    Consists(kind, fields, s)
  }

  lemma {:induction false} ValueRead(s: seq<byte>, w: Width) returns (n: nat)
    requires ReadVal(s, w).Some?
    ensures n <= |s| && Fills(s[..n], w) && ReadVal(s, w).value.1 == s[n..]
  {
    n := match w case Bytes(k) => k case Signed32 => 4 case Text => 2 + FromLE(s[..2]);
    if w.Text? { assert s[..n][..2] == s[..2]; }
  }

  lemma {:induction false} FilledRead(s: seq<byte>, w: Width, raw: seq<byte>)
    requires Fills(raw, w) && raw <= s
    ensures ReadVal(s, w).Some? && ReadVal(s, w).value.1 == s[|raw|..]
  {
    if w.Text? { assert s[..2] == raw[..2]; }
  }

  lemma {:induction false} StoreKeepsKind(x: Item, place: Place, v: Val)
    ensures Store(x, place, v).kind == x.kind
  {
  }

  lemma {:induction false} FieldsOf(x: Item, s: seq<byte>) returns (fields: seq<Field>)
    requires ReadAttrs(x, s).AttrDone?
    ensures Consists(x.kind, fields, s)
    decreases |s|
  {
    if Ends(x.kind, s) {
      fields := [];
    } else {
      var n, y := OneField(x, s);
      var rest := FieldsOf(y, s[1 + n..]);
      fields := [Field(s[0], s[1..][..n])] + rest;
      FieldBefore(x.kind, s, n, rest);
    }
  }

  lemma {:induction false} OneField(x: Item, s: seq<byte>) returns (n: nat, y: Item)
    requires ReadAttrs(x, s).AttrDone? && !Ends(x.kind, s)
    ensures 1 + n <= |s| && Legal(Field(s[0], s[1..][..n])) && y.kind == x.kind
    ensures ReadAttrs(x, s) == ReadAttrs(y, s[1 + n..])
  {
    var row := RowOf(s[0]).value;
    var got := ReadVal(s[1..], row.width).value;
    n := ValueRead(s[1..], row.width);
    y := Store(x, row.place, got.0);
    StoreKeepsKind(x, row.place, got.0);
    assert got.1 == s[1 + n..];
  }

  lemma {:induction false} FieldBefore(kind: Kind, s: seq<byte>, n: nat, rest: seq<Field>)
    requires 1 + n <= |s| && Legal(Field(s[0], s[1..][..n])) && Consists(kind, rest, s[1 + n..])
    ensures Consists(kind, [Field(s[0], s[1..][..n])] + rest, s)
  {
    var fields := [Field(s[0], s[1..][..n])] + rest;
    assert fields[1..] == rest;
    assert [s[0]] + s[1..][..n] == s[..1 + n];
  }

  lemma {:induction false} FieldsAreRead(x: Item, s: seq<byte>, fields: seq<Field>)
    requires Consists(x.kind, fields, s)
    ensures ReadAttrs(x, s).AttrDone?
    decreases |fields|
  {
    if fields != [] {
      var field := fields[0];
      var row := RowOf(field.tag).value;
      assert s[0] == ([field.tag] + field.raw)[0] && field.raw <= s[1..];
      FilledRead(s[1..], row.width, field.raw);
      var got := ReadVal(s[1..], row.width).value;
      assert got.1 == s[1 + |field.raw|..];
      StoreKeepsKind(x, row.place, got.0);
      FieldsAreRead(Store(x, row.place, got.0), got.1, fields[1..]);
    }
  }

  /** For every stream: attributes are read well if and only if what is there is known fields,
      complete, and then an end. */
  lemma {:induction false} ReadsExactly(x: Item, s: seq<byte>)
    ensures ReadAttrs(x, s).AttrDone? <==> exists fields :: Fielded(x.kind, fields, s)
  {
    if ReadAttrs(x, s).AttrDone? {
      var fields := FieldsOf(x, s);
      assert Fielded(x.kind, fields, s);
    } else if fields :| Fielded(x.kind, fields, s) {
      FieldsAreRead(x, s, fields);
    }
  }
}
