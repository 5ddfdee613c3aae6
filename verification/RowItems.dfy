/** What the rows of a player's items are made of: each item's row, count and attribute
    stream, and the item `loadItems` makes of them. */
module RowItems {
  import opened Bytes
  import opened Options
  import opened Attributes
  import opened AttributeTrip
  import S = ItemStream
  import R = Rows
  import I = Inventory
  import T = InventoryTrip

  type Types = map<nat, Kind>

  /** What `saveItems` stores of one item. */
  function Stored(x: Item): R.Data {
    R.Data(x.kind.id, SubType(x), SavedAttrs(x))
  }

  /** What `loadItems` makes of a row; nothing if the item type is unknown or the attributes
      cannot be read. */
  function Decoded(types: Types, d: R.Data): Option<Item> {
    if d.itemType !in types then None
    else
      var r := ReadAttrs(CreatedWith(types[d.itemType], d.count), d.attributes);
      if r.AttrDone? then Some(r.x) else None
  }

  /** The item that comes back from its row. */
  function RowRestored(x: Item): Item {
    Restore(x, CreatedWith(x.kind, SubType(x)), SAVED_TAGS)
  }

  /** For every item: its row is read to the end. */
  lemma RowReads(types: Types, x: Item)
    requires x.kind.id in types && types[x.kind.id] == x.kind
    ensures Decoded(types, Stored(x)) == Some(RowRestored(x))
  {
    SavedTagsSaveable();
    TagsRead(x, CreatedWith(x.kind, SubType(x)), SAVED_TAGS, []);
    assert SavedAttrs(x) + [] == SavedAttrs(x);
  }

  /** A row's count only matters for the number of a key: everything else it could set is
      either set from the attributes, or what the item type gives. */
  lemma {:induction false} SameAttribute(x: Item, tags: seq<byte>, k: Key)
    requires Typed(x) && Covers(tags) && !BySubType(k)
    requires (k == KeyNumber ==> k in x.attrs || k !in Created(x.kind).attrs)
    ensures At(Restore(x, CreatedWith(x.kind, SubType(x)), tags), k) == At(Restore(x, Created(x.kind), tags), k)
  {
    CoveredAt(x, Created(x.kind), tags, k);
    CoveredAt(x, CreatedWith(x.kind, SubType(x)), tags, k);
    if k == KeyNumber { KeyRow(k); }
  }

  lemma {:induction false} SameSubType(x: Item, tags: seq<byte>)
    requires Typed(x) && Covers(tags) && |tags| >= 2 && tags[0] == 15 && tags[1] == 22
    ensures SameSub(Restore(x, CreatedWith(x.kind, SubType(x)), tags), Restore(x, Created(x.kind), tags))
  {
    var y, z := CreatedWith(x.kind, SubType(x)), Created(x.kind);
    CoveredSub(x, y, tags);
    CoveredSub(x, z, tags);
    SameSteps(x, y, z);
  }

  lemma {:induction false} SameSteps(x: Item, y: Item, z: Item)
    requires Typed(x) && y == CreatedWith(x.kind, SubType(x)) && z == Created(x.kind)
    ensures SameSub(Step(x, Step(x, y, COUNT_ROW), CHARGES_ROW), Step(x, Step(x, z, COUNT_ROW), CHARGES_ROW))
  {
    if x.kind.fluid {
      FluidEnds(x, y);
      FluidEnds(x, z);
    } else {
      SolidSteps(x, y, z);
    }
  }

  lemma {:induction false} SolidSteps(x: Item, y: Item, z: Item)
    requires Typed(x) && y == CreatedWith(x.kind, SubType(x)) && z == Created(x.kind) && !x.kind.fluid
    ensures SameSub(Step(x, Step(x, y, COUNT_ROW), CHARGES_ROW), Step(x, Step(x, z, COUNT_ROW), CHARGES_ROW))
  {
    CountStep(x, y);
    CountStep(x, z);
    ChargesStep(x, Step(x, y, COUNT_ROW));
    ChargesStep(x, Step(x, z, COUNT_ROW));
  }

  /** The key that the item type numbers has lost its number, which no stored item has. */
  predicate Unnumbered(x: Item) {
    KeyNumber in Created(x.kind).attrs && KeyNumber !in x.attrs
  }

  lemma SameRestored(x: Item, tags: seq<byte>)
    requires Typed(x) && !Unnumbered(x) && Covers(tags) && |tags| >= 2 && tags[0] == 15 && tags[1] == 22
    ensures Restore(x, CreatedWith(x.kind, SubType(x)), tags) == Restore(x, Created(x.kind), tags)
  {
    var y, z := Restore(x, CreatedWith(x.kind, SubType(x)), tags), Restore(x, Created(x.kind), tags);
    SameSubType(x, tags);
    forall k ensures At(y, k) == At(z, k) {
      if !BySubType(k) { SameAttribute(x, tags, k); }
    }
    SameAttrs(y, z);
  }

  /** A key without its number gets one back. */
  lemma NumberedAgain(x: Item, tags: seq<byte>)
    requires Typed(x) && Unnumbered(x) && Covers(tags)
    ensures KeyNumber in Restore(x, CreatedWith(x.kind, SubType(x)), tags).attrs
  {
    CoveredAt(x, CreatedWith(x.kind, SubType(x)), tags, KeyNumber);
    KeyRow(KeyNumber);
  }

  /** An item's own data comes back from its row if and only if it is storable. */
  lemma RowStorableExactly(x: Item)
    requires Typed(x)
    ensures RowRestored(x) == x.(contents := []) <==> Storable(x)
  {
    SavedTagsCovers();
    if Unnumbered(x) {
      NumberedAgain(x, SAVED_TAGS);
    } else {
      SameRestored(x, SAVED_TAGS);
      StorableExactly(x);
    }
  }

  // ---- whole inventories --------------------------------------------------------------------------

  /** An item tree as it is stored. */
  function ToNode(x: Item): R.Node
    decreases x, 0
  {
    R.Node(Stored(x), ToNodes(x.contents))
  }

  function ToNodes(xs: seq<Item>): (nodes: seq<R.Node>)
    ensures |nodes| == |xs| && forall j :: 0 <= j < |xs| ==> nodes[j] == ToNode(xs[j])
    decreases xs, 1
  {
    if xs == [] then [] else ToNodes(xs[..|xs| - 1]) + [ToNode(xs[|xs| - 1])]
  }

  /** All items of the tree have their types in the table, and only containers hold any. */
  ghost predicate InTable(types: Types, x: Item)
    decreases x
  {
    && x.kind.id in types && types[x.kind.id] == x.kind && Typed(x) && (x.contents != [] ==> x.kind.isContainer)
    && forall j :: 0 <= j < |x.contents| ==> InTable(types, x.contents[j])
  }

  /** The catalog that the item types make; `weigh` is what the item classes make of an item. */
  function CatalogOf(types: Types, weigh: Item -> nat): R.Catalog {
    R.Catalog(
      (d: R.Data) => d.itemType in types,
      (d: R.Data) => d.itemType in types && types[d.itemType].isContainer,
      (d: R.Data) => WeightOf(types, weigh, d))
  }

  function WeightOf(types: Types, weigh: Item -> nat, d: R.Data): nat {
    match Decoded(types, d)
    case Some(x) => weigh(x)
    case None => 0
  }

  lemma {:induction false} NodeIsProper(types: Types, weigh: Item -> nat, x: Item)
    requires InTable(types, x)
    ensures R.Proper(CatalogOf(types, weigh), ToNode(x))
    decreases x
  {
    forall j | 0 <= j < |x.contents|
      ensures R.Proper(CatalogOf(types, weigh), ToNode(x).contents[j])
    {
      NodeIsProper(types, weigh, x.contents[j]);
    }
  }

  /** Item `sid` and all it holds are what comes back of the tree `x`: same order, every
      child held by its parent; an item that is storable is as it was. */
  ghost predicate IsBack(types: Types, items: I.HeldItems, sid: nat, x: Item)
    requires InTable(types, x)
    decreases x
  {
    && sid in items
    && Decoded(types, items[sid].data) == Some(RowRestored(x))
    && (Storable(x) ==> Decoded(types, items[sid].data) == Some(x.(contents := [])))
    && |items[sid].contents| == |x.contents|
    && forall j :: 0 <= j < |x.contents| ==>
         var c := items[sid].contents[j];
         c in items && items[c].holder == I.Inside(sid) && IsBack(types, items, c, x.contents[j])
  }

  lemma {:induction false} RepresentedIsBack(types: Types, weigh: Item -> nat, items: I.HeldItems, sid: nat, x: Item)
    requires InTable(types, x) && T.Represents(CatalogOf(types, weigh), items, sid, ToNode(x))
    ensures IsBack(types, items, sid, x)
    decreases x
  {
    RowReads(types, x);
    RowStorableExactly(x);
    forall j | 0 <= j < |x.contents|
      ensures var c := items[sid].contents[j];
        c in items && items[c].holder == I.Inside(sid) && IsBack(types, items, c, x.contents[j])
    {
      RepresentedIsBack(types, weigh, items, items[sid].contents[j], x.contents[j]);
    }
  }

  /** For every inventory of items: the rows that `SaveItems` makes of it, in whatever order
      the database returns them, load back as the same forest of items. */
  lemma ItemsRoundTrip(types: Types, weigh: Item -> nat, slots: seq<nat>, xs: seq<Item>, rows: seq<R.Row>,
                       loaded: seq<R.Row>)
    requires |slots| == |xs| && forall k :: 0 <= k < |xs| ==> InTable(types, xs[k])
    requires var roots := seq(|xs|, k requires 0 <= k < |xs| && |slots| == |xs| => (slots[k], ToNode(xs[k])));
      R.Listing(CatalogOf(types, weigh), roots, rows) && T.Slotted(roots) && T.Returned(loaded, rows)
    ensures I.Grounded(I.Loaded(CatalogOf(types, weigh), loaded))
    ensures var s := T.LoadedShelf(CatalogOf(types, weigh), loaded);
      forall k :: 0 <= k < |xs| ==>
        && slots[k] in s.slots && s.slots[slots[k]] in s.items
        && s.items[s.slots[slots[k]]].holder == I.InSlot(slots[k])
        && IsBack(types, s.items, s.slots[slots[k]], xs[k])
  {
    var cat := CatalogOf(types, weigh);
    var roots := seq(|xs|, k requires 0 <= k < |xs| && |slots| == |xs| => (slots[k], ToNode(xs[k])));
    T.InventoryRoundTrip(cat, roots, rows, loaded);
    var s := T.LoadedShelf(cat, loaded);
    forall k | 0 <= k < |xs|
      ensures slots[k] in s.slots && s.slots[slots[k]] in s.items
      ensures s.items[s.slots[slots[k]]].holder == I.InSlot(slots[k])
      ensures IsBack(types, s.items, s.slots[slots[k]], xs[k])
    {
      assert roots[k] == (slots[k], ToNode(xs[k]));
      RepresentedIsBack(types, weigh, s.items, s.slots[slots[k]], xs[k]);
    }
  }
}
