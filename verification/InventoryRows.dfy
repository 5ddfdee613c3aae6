/** Where the placing loop of `loadPlayer` puts the items of any rows, saved by the server or
    not. */
module InventoryRows {
  import opened Items
  import opened Rows
  import opened Inventory

  predicate Slot(pid: nat) { 1 <= pid <= 10 }

  /** The item of the highest id among those that name its slot. */
  predicate First(itemMap: ItemMap, sid: nat) {
    && sid in itemMap && Slot(itemMap[sid].1)
    && forall other :: other in itemMap && other > sid ==> itemMap[other].1 != itemMap[sid].1
  }

  /** The row names a container that was loaded. */
  predicate Nests(cat: Catalog, itemMap: ItemMap, sid: nat) {
    && sid in itemMap && !Slot(itemMap[sid].1) && itemMap[sid].1 in itemMap
    && cat.isContainer(itemMap[itemMap[sid].1].0)
  }

  function HolderOf(cat: Catalog, itemMap: ItemMap, sid: nat): Holder {
    if First(itemMap, sid) then InSlot(itemMap[sid].1)
    else if Nests(cat, itemMap, sid) then Inside(itemMap[sid].1)
    else Nowhere
  }

  /** The ids from `lo` up to `hi` that sit in container `c`, in ascending order. */
  function Nested(cat: Catalog, itemMap: ItemMap, c: nat, lo: nat, hi: nat): seq<nat>
    decreases hi - lo
  {
    if lo >= hi then []
    else (if Nests(cat, itemMap, lo) && itemMap[lo].1 == c then [lo] else []) + Nested(cat, itemMap, c, lo + 1, hi)
  }

  /** One item once all ids from `lo` on have been placed. */
  predicate Stands(cat: Catalog, itemMap: ItemMap, items: HeldItems, lo: nat, hi: nat, sid: nat)
    requires sid in itemMap && sid in items
  {
    && items[sid].data == itemMap[sid].0
    && items[sid].holder == (if sid >= lo then HolderOf(cat, itemMap, sid) else Nowhere)
    && items[sid].contents == Nested(cat, itemMap, sid, lo, hi)
  }

  predicate Slotted(itemMap: ItemMap, slots: map<nat, nat>, lo: nat, p: nat) {
    && (p in slots ==> slots[p] >= lo && First(itemMap, slots[p]) && itemMap[slots[p]].1 == p)
    && (p !in slots ==> forall sid :: sid in itemMap && sid >= lo && Slot(itemMap[sid].1) ==> itemMap[sid].1 != p)
  }

  ghost predicate PlacedFrom(cat: Catalog, itemMap: ItemMap, s: Shelf, lo: nat, hi: nat) {
    && s.items.Keys == itemMap.Keys
    && (forall sid {:trigger Stands(cat, itemMap, s.items, lo, hi, sid)} :: sid in itemMap ==>
          Stands(cat, itemMap, s.items, lo, hi, sid))
    && forall p {:trigger Slotted(itemMap, s.slots, lo, p)} :: Slotted(itemMap, s.slots, lo, p)
  }

  lemma {:induction false} LiftedSame(items: HeldItems, sid: nat, diff: int, x: nat)
    requires Downward(items) && sid in items && x in items
    ensures var m := Lifted(items, sid, diff);
      m[x] == items[x].(totalWeight := m[x].totalWeight)
    decreases sid
  {
    var m := items[sid := items[sid].(totalWeight := Wrap(items[sid].totalWeight + diff))];
    if items[sid].holder.Inside? { LiftedSame(m, items[sid].holder.sid, diff, x); }
  }

  lemma {:induction false} AttachedSame(cat: Catalog, items: HeldItems, c: nat, sid: nat, x: nat)
    requires Downward(items) && c in items && sid in items && c < sid && x in items
    ensures var m := Attached(cat, items, c, sid);
      && m[x].data == items[x].data
      && m[x].holder == (if x == sid then Inside(c) else items[x].holder)
      && m[x].contents == (if x == c then [sid] else []) + items[x].contents
  {
    var held := items[sid := items[sid].(holder := Inside(c))];
    var pushed := held[c := held[c].(contents := [sid] + held[c].contents)];
    LiftedSame(pushed, c, HeldWeight(cat, items[sid]), x);
  }

  /** One more row placed. */
  lemma {:induction false} PlaceOne(cat: Catalog, itemMap: ItemMap, s: Shelf, sid: nat, hi: nat)
    requires Downward(s.items) && Grounded(itemMap) && PlacedFrom(cat, itemMap, s, sid + 1, hi) && sid in itemMap
    requires sid < hi && itemMap[sid].1 < sid
    ensures PlacedFrom(cat, itemMap, PlacedOnce(cat, s, sid, itemMap[sid].1), sid, hi)
  {
    var s' := PlacedOnce(cat, s, sid, itemMap[sid].1);
    var pid := itemMap[sid].1;
    assert Slotted(itemMap, s.slots, sid + 1, pid);
    forall x | x in itemMap
      ensures Stands(cat, itemMap, s'.items, sid, hi, x)
    {
      assert Stands(cat, itemMap, s.items, sid + 1, hi, x);
      if !Slot(pid) && pid in itemMap {
        assert Stands(cat, itemMap, s.items, sid + 1, hi, pid);
        if cat.isContainer(itemMap[pid].0) { AttachedSame(cat, s.items, pid, sid, x); }
      }
    }
    forall p
      ensures Slotted(itemMap, s'.slots, sid, p)
    {
      assert Slotted(itemMap, s.slots, sid + 1, p);
    }
  }

  lemma {:induction false} SkipOne(cat: Catalog, itemMap: ItemMap, s: Shelf, sid: nat, hi: nat)
    requires PlacedFrom(cat, itemMap, s, sid + 1, hi) && sid !in itemMap && sid < hi
    ensures PlacedFrom(cat, itemMap, s, sid, hi)
  {
    forall x | x in itemMap
      ensures Stands(cat, itemMap, s.items, sid, hi, x)
    {
      assert Stands(cat, itemMap, s.items, sid + 1, hi, x);
    }
    forall p
      ensures Slotted(itemMap, s.slots, sid, p)
    {
      assert Slotted(itemMap, s.slots, sid + 1, p);
    }
  }

  lemma {:induction false} PlaceAll(cat: Catalog, itemMap: ItemMap, s: Shelf, lo: nat, hi: nat)
    requires Downward(s.items) && Grounded(itemMap) && PlacedFrom(cat, itemMap, s, lo, hi) && lo <= hi
    ensures PlacedFrom(cat, itemMap, PlacedBelow(cat, itemMap, s, lo), 0, hi)
    decreases lo
  {
    if lo > 0 {
      var sid := lo - 1;
      if sid in itemMap {
        PlaceOne(cat, itemMap, s, sid, hi);
        PlaceAll(cat, itemMap, PlacedOnce(cat, s, sid, itemMap[sid].1), sid, hi);
      } else {
        SkipOne(cat, itemMap, s, sid, hi);
        PlaceAll(cat, itemMap, s, sid, hi);
      }
    }
  }

  /** For any rows that name smaller ids as parents: an item is in the slot its row names if no
      item of a higher id is, else in the container its row names, else nowhere; containers hold
      theirs in ascending order of id. */
  lemma {:induction false} LoadsAnyRows(cat: Catalog, itemMap: ItemMap, hi: nat)
    requires Grounded(itemMap) && forall sid :: sid in itemMap ==> sid < hi
    ensures PlacedFrom(cat, itemMap, PlacedBelow(cat, itemMap, Unplaced(itemMap), hi), 0, hi)
  {
    var s := Unplaced(itemMap);
    forall x | x in itemMap
      ensures Stands(cat, itemMap, s.items, hi, hi, x)
    {
    }
    forall p
      ensures Slotted(itemMap, s.slots, hi, p)
    {
    }
    PlaceAll(cat, itemMap, s, hi, hi);
  }

  lemma {:induction false} LoadedBelow(cat: Catalog, rows: seq<Row>)
    ensures forall sid :: sid in Loaded(cat, rows) ==> sid < Limit(cat, rows)
  {
    if rows != [] { LoadedBelow(cat, rows[..|rows| - 1]); }
  }

  /** The same, from the rows as they come from the database, in any order. */
  lemma {:induction false} LoadsAnyInventory(cat: Catalog, rows: seq<Row>)
    requires forall k :: 0 <= k < |rows| ==> rows[k].pid < rows[k].sid
    ensures Grounded(Loaded(cat, rows))
    ensures var itemMap, hi := Loaded(cat, rows), Limit(cat, rows);
      PlacedFrom(cat, itemMap, PlacedBelow(cat, itemMap, Unplaced(itemMap), hi), 0, hi)
  {
    LoadedGrounded(cat, rows);
    LoadedBelow(cat, rows);
    LoadsAnyRows(cat, Loaded(cat, rows), Limit(cat, rows));
  }
}
