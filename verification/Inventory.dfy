/** Rebuilding a player's items from database rows (`IOLoginData::loadItems` and the
    placing loop of `loadPlayer`). */
module Inventory {
  import opened Items
  import opened Rows

  datatype Holder = Nowhere | InSlot(slot: nat) | Inside(sid: nat)

  datatype Held = Held(data: Data, contents: seq<nat>, totalWeight: nat, holder: Holder)

  // ---- what should come out --------------------------------------------------------------

  function TreeWeight(cat: Catalog, x: Node): nat
    decreases x, 0
  {
    cat.weigh(x.data) + TreesWeight(cat, x.contents)
  }

  function TreesWeight(cat: Catalog, xs: seq<Node>): nat
    decreases xs, 1
  {
    if xs == [] then 0 else TreeWeight(cat, xs[0]) + TreesWeight(cat, xs[1..])
  }

  /** The ids of rows `a` up to `b`. */
  function Sids(a: nat, b: nat): (s: seq<nat>)
    ensures |s| == if a < b then b - a else 0
    ensures forall j :: 0 <= j < |s| ==> s[j] == FIRST_ID + a + j
    decreases b - a
  {
    if a >= b then [] else [FIRST_ID + a] + Sids(a + 1, b)
  }

  function WeightRange(cat: Catalog, nodes: seq<Node>, a: nat, b: nat): nat
    decreases b - a
  {
    if a >= b || a >= |nodes| then 0 else TreeWeight(cat, nodes[a]) + WeightRange(cat, nodes, a + 1, b)
  }

  /** Row `k` once rows `m` and above have been placed. */
  function Target(cat: Catalog, r: nat, nodes: seq<Node>, rows: seq<Row>, k: nat, m: nat): Held
    requires k < |nodes| == |rows|
  {
    var from, to := First(r, nodes, k), First(r, nodes, k + 1);
    var a := if m < from then from else m;
    Held(rows[k].data, Sids(a, to), Wrap(WeightRange(cat, nodes, a, to)),
         if k < m then Nowhere else if k < r then InSlot(rows[k].pid) else Inside(rows[k].pid))
  }

  // ---- the rebuild -------------------------------------------------------------------------

  type ItemMap = map<nat, (Data, nat)>

  /** `loadItems`: a row whose item type is unknown is dropped. */
  function Loaded(cat: Catalog, rows: seq<Row>): ItemMap {
    if rows == [] then map[]
    else
      var last := rows[|rows| - 1];
      var before := Loaded(cat, rows[..|rows| - 1]);
      if cat.known(last.data) then before[last.sid := (last.data, last.pid)] else before
  }

  type HeldItems = map<nat, Held>

  datatype Shelf = Shelf(items: HeldItems, slots: map<nat, nat>)

  /** Items are held by items with smaller ids. */
  ghost predicate Downward(items: HeldItems) {
    forall sid :: sid in items && items[sid].holder.Inside? ==>
      items[sid].holder.sid in items && items[sid].holder.sid < sid
  }

  /** Every row names a parent with a smaller id, or none of the rows. */
  ghost predicate Grounded(itemMap: ItemMap) {
    forall sid :: sid in itemMap ==> itemMap[sid].1 < sid
  }

  function HeldWeight(cat: Catalog, x: Held): nat {
    Wrap(cat.weigh(x.data) + x.totalWeight)
  }

  /** `updateItemWeight`: every container up the chain changes by `diff`. */
  ghost function Lifted(items: HeldItems, sid: nat, diff: int): (m: HeldItems)
    requires Downward(items) && sid in items
    ensures Downward(m) && m.Keys == items.Keys
    decreases sid
  {
    var m := items[sid := items[sid].(totalWeight := Wrap(items[sid].totalWeight + diff))];
    if items[sid].holder.Inside? then Lifted(m, items[sid].holder.sid, diff) else m
  }

  /** `internalAddThing`: `sid` in front of everything in `container`. */
  ghost function Attached(cat: Catalog, items: HeldItems, container: nat, sid: nat): (m: HeldItems)
    requires Downward(items) && container in items && sid in items && container < sid
    ensures Downward(m) && m.Keys == items.Keys
  {
    var held := items[sid := items[sid].(holder := Inside(container))];
    var pushed := held[container := held[container].(contents := [sid] + held[container].contents)];
    Lifted(pushed, container, HeldWeight(cat, items[sid]))
  }

  ghost function PlacedOnce(cat: Catalog, s: Shelf, sid: nat, pid: nat): (s': Shelf)
    requires Downward(s.items) && sid in s.items && pid < sid
    ensures Downward(s'.items) && s'.items.Keys == s.items.Keys
  {
    if 1 <= pid <= 10 then
      if pid in s.slots then s
      else Shelf(s.items[sid := s.items[sid].(holder := InSlot(pid))], s.slots[pid := sid])
    else if pid in s.items && cat.isContainer(s.items[pid].data) then s.(items := Attached(cat, s.items, pid, sid))
    else s
  }

  /** All rows with ids below `sid`, from the highest down. */
  ghost function PlacedBelow(cat: Catalog, itemMap: ItemMap, s: Shelf, sid: nat): (s': Shelf)
    requires Downward(s.items) && s.items.Keys == itemMap.Keys && Grounded(itemMap)
    ensures Downward(s'.items) && s'.items.Keys == itemMap.Keys
    decreases sid
  {
    if sid == 0 then s
    else PlacedBelow(cat, itemMap,
                     if sid - 1 in itemMap then PlacedOnce(cat, s, sid - 1, itemMap[sid - 1].1) else s, sid - 1)
  }

  ghost function Unplaced(itemMap: ItemMap): Shelf {
    Shelf(map sid | sid in itemMap :: Held(itemMap[sid].0, [], 0, Nowhere), map[])
  }

  /** One more than the highest id loaded. */
  function Limit(cat: Catalog, rows: seq<Row>): nat {
    if rows == [] then 0
    else
      var last, before := rows[|rows| - 1], Limit(cat, rows[..|rows| - 1]);
      if cat.known(last.data) && last.sid >= before then last.sid + 1 else before
  }

  class Rebuild {
    const cat: Catalog
    var itemMap: ItemMap
    var items: HeldItems
    var slots: map<nat, nat>

    constructor (cat: Catalog)
      ensures this.cat == cat && itemMap == map[] && items == map[] && slots == map[]
    {
      this.cat := cat;
      itemMap, items, slots := map[], map[], map[];
    }

    /** `loadItems`. */
    method LoadItems(rows: seq<Row>) returns (limit: nat)
      requires itemMap == map[] && items == map[]
      modifies this`itemMap, this`items
      ensures itemMap == Loaded(cat, rows) && items == Unplaced(itemMap).items && limit == Limit(cat, rows)
    {
      var i := 0;
      limit := 0;
      assert rows[..0] == [];
      while i < |rows|
        invariant 0 <= i <= |rows| && itemMap == Loaded(cat, rows[..i]) && items == Unplaced(itemMap).items
        invariant limit == Limit(cat, rows[..i])
      {
        var row := rows[i];
        assert rows[..i + 1][..i] == rows[..i];
        if cat.known(row.data) {
          itemMap := itemMap[row.sid := (row.data, row.pid)];
          items := items[row.sid := Held(row.data, [], 0, Nowhere)];
          limit := if row.sid >= limit then row.sid + 1 else limit;
        }
        i := i + 1;
      }
      assert rows[..i] == rows;
    }

    /** `Container::updateItemWeight`: up the chain of holders. */
    method UpdateItemWeight(sid: nat, diff: int)
      requires Downward(items) && sid in items
      modifies this`items
      ensures items == Lifted(old(items), sid, diff)
      decreases sid
    {
      items := items[sid := items[sid].(totalWeight := Wrap(items[sid].totalWeight + diff))];
      if items[sid].holder.Inside? {
        UpdateItemWeight(items[sid].holder.sid, diff);
      }
    }

    /** `Container::internalAddThing`: to the front. */
    method InternalAddThing(container: nat, sid: nat)
      requires Downward(items) && sid in items && container in items && container < sid
      modifies this`items
      ensures items == Attached(cat, old(items), container, sid)
    {
      var weight := HeldWeight(cat, items[sid]);
      items := items[sid := items[sid].(holder := Inside(container))];
      items := items[container := items[container].(contents := [sid] + items[container].contents)];
      UpdateItemWeight(container, weight);
    }

    /** One turn of the placing loop of `loadPlayer`. */
    method Place(sid: nat, pid: nat)
      requires Downward(items) && sid in items && pid < sid
      modifies this`items, this`slots
      ensures Shelf(items, slots) == PlacedOnce(cat, old(Shelf(items, slots)), sid, pid)
    {
      if 1 <= pid <= 10 {
        if pid !in slots {
          slots := slots[pid := sid];
          items := items[sid := items[sid].(holder := InSlot(pid))];
        }
      } else if pid in items && cat.isContainer(items[pid].data) {
        InternalAddThing(pid, sid);
      }
    }

    /** Loading the inventory: the rows, then the placing loop from the highest id down. */
    method LoadInventory(rows: seq<Row>)
      requires itemMap == map[] && items == map[] && slots == map[]
      requires forall k :: 0 <= k < |rows| ==> rows[k].pid < rows[k].sid
      modifies this
      ensures Grounded(Loaded(cat, rows))
      ensures Shelf(items, slots) == PlacedBelow(cat, Loaded(cat, rows), Unplaced(Loaded(cat, rows)), Limit(cat, rows))
    {
      var sid := LoadItems(rows);
      LoadedGrounded(cat, rows);
      ghost var whole := PlacedBelow(cat, itemMap, Unplaced(itemMap), Limit(cat, rows));
      while sid > 0
        invariant 0 <= sid && itemMap == Loaded(cat, rows)
        invariant Downward(items) && items.Keys == itemMap.Keys
        invariant PlacedBelow(cat, itemMap, Shelf(items, slots), sid) == whole
      {
        sid := sid - 1;
        PlaceIfLoaded(sid);
      }
    }

    /** One turn of the loop: ids that were not loaded are passed over. */
    method PlaceIfLoaded(sid: nat)
      requires Downward(items) && items.Keys == itemMap.Keys && Grounded(itemMap)
      modifies this`items, this`slots
      ensures Downward(items) && items.Keys == itemMap.Keys
      ensures PlacedBelow(cat, itemMap, Shelf(items, slots), sid) ==
        PlacedBelow(cat, itemMap, old(Shelf(items, slots)), sid + 1)
    {
      ghost var s := Shelf(items, slots);
      if sid in itemMap {
        Place(sid, itemMap[sid].1);
      }
      BelowTurns(cat, itemMap, s, Shelf(items, slots), sid);
    }
  }

  lemma {:induction false} BelowTurns(cat: Catalog, itemMap: ItemMap, s: Shelf, s': Shelf, sid: nat)
    requires Downward(s.items) && s.items.Keys == itemMap.Keys && Grounded(itemMap)
    requires s' == if sid in itemMap then PlacedOnce(cat, s, sid, itemMap[sid].1) else s
    ensures Downward(s'.items) && s'.items.Keys == itemMap.Keys
    ensures PlacedBelow(cat, itemMap, s', sid) == PlacedBelow(cat, itemMap, s, sid + 1)
  {
  }

  lemma {:induction false} LoadedGrounded(cat: Catalog, rows: seq<Row>)
    requires forall k :: 0 <= k < |rows| ==> rows[k].pid < rows[k].sid
    ensures Grounded(Loaded(cat, rows))
  {
    if rows != [] {
      LoadedGrounded(cat, rows[..|rows| - 1]);
    }
  }
}
