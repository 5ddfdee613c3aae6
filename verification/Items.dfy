/** Items and containers as the server keeps them in memory: one record per
    item, a parent pointer, and for containers an item list with a cached
    32-bit weight. */
module Items {
  import opened Options

  const U32 := 0x1_0000_0000

  /** The value a `uint32_t` holds after an exact result `x` is stored in it. */
  function Wrap(x: int): nat {
    x % U32
  }

  lemma WrapOfWrap(x: int, d: int)
    ensures Wrap(Wrap(x) + d) == Wrap(x + d)
  {
    assert x == U32 * (x / U32) + Wrap(x);
    WrapShift(Wrap(x) + d, x / U32);
  }

  lemma WrapShift(x: int, k: int)
    ensures Wrap(x + U32 * k) == Wrap(x)
  {
    var q, r := x / U32, x % U32;
    assert x + U32 * k == U32 * (q + k) + r;
  }

  lemma WrapDelta(s: int, a: int, d: int)
    ensures Wrap(s - Wrap(a) + Wrap(a + d)) == Wrap(s + d)
  {
    var q, q' := a / U32, (a + d) / U32;
    assert s - Wrap(a) + Wrap(a + d) == s + d + U32 * (q - q');
    WrapShift(s + d, q - q');
  }

  /** A sum over entries, one of which weighs `own` and holds `inner`, when that one's
      contents gain `d`. */
  lemma WrapGain(s: int, own: int, inner: int, d: int)
    ensures Wrap(Wrap(s) + d) == Wrap(s - Wrap(own + inner) + Wrap(own + Wrap(inner + d)))
  {
    WrapOfWrap(inner + d, own);
    WrapDelta(s, own + inner, d);
    WrapOfWrap(s, d);
  }

  /** The fields of one row of the item table that the modelled code reads. An
      id selects exactly one row, so two items have the same id exactly when
      they have the same row. */
  datatype ItemType = ItemType(
    id: nat, weight: nat, stackable: bool, pickupable: bool, moveable: bool,
    fluid: bool, charges: nat, decayTo: int, decayTime: nat, stopTime: bool)

  datatype Attr = Weight | Duration | DecayState | CorpseOwner | Charges | FluidType | Other(key: nat)

  datatype AttrValue = Number(n: int) | Text(s: string)

  /** The attribute store; `None` is an item that never allocated one. */
  type Attrs = Option<map<Attr, AttrValue>>

  function SetNumber(attrs: Attrs, a: Attr, n: int): Attrs {
    Some((if attrs.None? then map[] else attrs.value)[a := Number(n)])
  }

  function RemoveAttr(attrs: Attrs, a: Attr): Attrs {
    if attrs.None? then None else Some(attrs.value - {a})
  }

  predicate HasAttr(attrs: Attrs, a: Attr) {
    attrs.Some? && a in attrs.value
  }

  /** What `Item::setID` does to the attributes of an item of row `prev`. */
  function RetypeAttrs(attrs: Attrs, prev: ItemType, next: ItemType): Attrs {
    var dropped :=
      if next.decayTime == 0 && !next.stopTime && next.decayTo < 0
      then RemoveAttr(RemoveAttr(attrs, DecayState), Duration)
      else attrs;
    var orphaned := RemoveAttr(dropped, CorpseOwner);
    if next.decayTime > 0 && (!prev.stopTime || !HasAttr(orphaned, Duration))
    then SetNumber(SetNumber(orphaned, DecayState, 0), Duration, next.decayTime * 1000)
    else orphaned
  }

  /** An item is named by its address. Its fields live in two tables: what it is
      and where it sits, and the cached weight of its contents. */
  type Id = nat

  datatype Entry = Entry(
    kind: ItemType, count: nat, attrs: Attrs, parent: Option<Id>,
    isContainer: bool, maxSize: nat, itemlist: seq<Id>)

  type Table = map<Id, Entry>

  type Weights = map<Id, nat>

  function BaseWeight(e: Entry): nat {
    if HasAttr(e.attrs, Weight) && e.attrs.value[Weight].Number? then Wrap(e.attrs.value[Weight].n) else e.kind.weight
  }

  /** Weight without contents: a stack weighs its count, at least one unit. */
  function OwnWeight(e: Entry): nat {
    if e.kind.stackable then BaseWeight(e) * (if e.count == 0 then 1 else e.count) else BaseWeight(e)
  }

  /** `getWeight` of an item whose contents weigh `inner`. */
  function GetWeight(e: Entry, inner: nat): nat {
    Wrap(OwnWeight(e) + inner)
  }

  /** `Item::equals`: same row and same attributes, whatever the counts. */
  predicate Equals(a: Entry, b: Entry) {
    a.kind == b.kind && a.attrs == b.attrs
  }
}
