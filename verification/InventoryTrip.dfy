/** Saving a player's items as rows and rebuilding them gives back the same forest. */
module InventoryTrip {
  import opened Items
  import opened Rows
  import opened Inventory

  // ---- where each row belongs ---------------------------------------------------------------

  predicate InBlock(r: nat, nodes: seq<Node>, i: nat, k: nat)
    requires i < |nodes|
  {
    First(r, nodes, i) <= k < First(r, nodes, i + 1)
  }

  lemma OneBlock(r: nat, nodes: seq<Node>, i: nat, i': nat, k: nat)
    requires i < |nodes| && i' < |nodes| && InBlock(r, nodes, i, k) && InBlock(r, nodes, i', k)
    ensures i == i'
  {
    if i < i' {
      KidsMonotone(nodes, i + 1, i');
    } else if i' < i {
      KidsMonotone(nodes, i' + 1, i);
    }
  }

  lemma {:induction false} OwnerAmong(r: nat, nodes: seq<Node>, n: nat, k: nat) returns (i: nat)
    requires n <= |nodes| && r <= k < First(r, nodes, n)
    ensures i < n && InBlock(r, nodes, i, k)
  {
    if k >= First(r, nodes, n - 1) {
      i := n - 1;
    } else {
      i := OwnerAmong(r, nodes, n - 1, k);
    }
  }

  /** Every row that is not a root is a child of one earlier row, which its pid names. */
  lemma Owner(roots: seq<(nat, Node)>, nodes: seq<Node>, rows: seq<Row>, k: nat) returns (i: nat)
    requires Layout(roots, nodes, rows) && |roots| <= k < |rows|
    ensures i < k && InBlock(|roots|, nodes, i, k) && rows[k].pid == FIRST_ID + i
    ensures nodes[i].contents != []
  {
    i := OwnerAmong(|roots|, nodes, |nodes|, k);
    assert i < First(|roots|, nodes, i);
    assert Expanded(|roots|, nodes, rows, i, |nodes[i].contents|);
    assert Placed(|roots|, nodes, rows, i, k - First(|roots|, nodes, i));
  }

  lemma {:induction false} RangeIsContents(cat: Catalog, r: nat, nodes: seq<Node>, rows: seq<Row>, i: nat, j: nat)
    requires i < |nodes| && j <= |nodes[i].contents| && Expanded(r, nodes, rows, i, |nodes[i].contents|)
    ensures WeightRange(cat, nodes, First(r, nodes, i) + j, First(r, nodes, i + 1)) ==
      TreesWeight(cat, nodes[i].contents[j..])
    decreases |nodes[i].contents| - j
  {
    if j < |nodes[i].contents| {
      assert Placed(r, nodes, rows, i, j);
      RangeIsContents(cat, r, nodes, rows, i, j + 1);
      assert nodes[i].contents[j..][1..] == nodes[i].contents[j + 1..];
    }
  }

  // ---- one placing step ----------------------------------------------------------------------

  /** Rows not touched by placing row `k`. */
  lemma TargetSame(cat: Catalog, r: nat, nodes: seq<Node>, rows: seq<Row>, i: nat, k: nat)
    requires i < |nodes| == |rows| && i != k && !InBlock(r, nodes, i, k)
    ensures Target(cat, r, nodes, rows, i, k) == Target(cat, r, nodes, rows, i, k + 1)
  {
    var from, to := First(r, nodes, i), First(r, nodes, i + 1);
    if k >= to {
      assert Sids(k, to) == Sids(k + 1, to) == [];
    }
  }

  /** Row `k` itself only gets a holder: its own contents are already in place. */
  lemma TargetHeld(cat: Catalog, r: nat, nodes: seq<Node>, rows: seq<Row>, k: nat)
    requires k < |nodes| == |rows| && k < First(r, nodes, k)
    ensures Target(cat, r, nodes, rows, k, k) ==
      Target(cat, r, nodes, rows, k, k + 1).(holder := if k < r then InSlot(rows[k].pid) else Inside(rows[k].pid))
    ensures Target(cat, r, nodes, rows, k, k + 1).holder == Nowhere
  {
  }

  /** The weight row `k` brings along is that of its whole tree. */
  lemma WholeWeight(cat: Catalog, r: nat, nodes: seq<Node>, rows: seq<Row>, k: nat)
    requires k < |nodes| == |rows| && k < First(r, nodes, k) && rows[k].data == nodes[k].data
    requires Expanded(r, nodes, rows, k, |nodes[k].contents|)
    ensures HeldWeight(cat, Target(cat, r, nodes, rows, k, k + 1)) == Wrap(TreeWeight(cat, nodes[k]))
  {
    RangeIsContents(cat, r, nodes, rows, k, 0);
    assert nodes[k].contents[0..] == nodes[k].contents;
    WrapOfWrap(TreesWeight(cat, nodes[k].contents), cat.weigh(nodes[k].data));
  }

  /** The container of row `k` gets it in front, and its weight. */
  lemma TargetGrows(cat: Catalog, r: nat, nodes: seq<Node>, rows: seq<Row>, i: nat, k: nat, w: nat)
    requires i < k < |nodes| == |rows| && InBlock(r, nodes, i, k)
    requires w == Wrap(TreeWeight(cat, nodes[k]))
    ensures var t := Target(cat, r, nodes, rows, i, k + 1);
      Target(cat, r, nodes, rows, i, k) ==
        t.(contents := [FIRST_ID + k] + t.contents, totalWeight := Wrap(t.totalWeight + w))
  {
    var to := First(r, nodes, i + 1);
    var s := WeightRange(cat, nodes, k + 1, to);
    WrapOfWrap(s, w);
    WrapOfWrap(TreeWeight(cat, nodes[k]), s);
    assert Wrap(Wrap(s) + w) == Wrap(s + w) == Wrap(s + TreeWeight(cat, nodes[k]));
  }

  // ---- the whole rebuild -----------------------------------------------------------------------

  function Ids(n: nat): (s: set<nat>)
    ensures forall x :: x in s <==> FIRST_ID <= x < FIRST_ID + n
  {
    if n == 0 then {} else Ids(n - 1) + {FIRST_ID + (n - 1)}
  }

  /** The inventory: trees in distinct slots. */
  ghost predicate Slotted(roots: seq<(nat, Node)>) {
    && (forall k :: 0 <= k < |roots| ==> 1 <= roots[k].0 <= 10)
    && (forall k, l :: 0 <= k < l < |roots| ==> roots[k].0 != roots[l].0)
  }

  ghost predicate Saved(cat: Catalog, roots: seq<(nat, Node)>, nodes: seq<Node>, rows: seq<Row>) {
    Layout(roots, nodes, rows) && LeavesAreEmpty(cat, nodes) && Slotted(roots)
  }

  ghost predicate RowDone(cat: Catalog, r: nat, nodes: seq<Node>, rows: seq<Row>, items: HeldItems, k: nat, m: nat)
    requires k < |nodes| == |rows|
  {
    FIRST_ID + k in items && items[FIRST_ID + k] == Target(cat, r, nodes, rows, k, m)
  }

  predicate SlotDone(roots: seq<(nat, Node)>, slots: map<nat, nat>, k: nat, m: nat)
    requires k < |roots|
  {
    if k < m then roots[k].0 !in slots else roots[k].0 in slots && slots[roots[k].0] == FIRST_ID + k
  }

  /** Rows `m` and above are in place. */
  ghost predicate OnShelf(cat: Catalog, roots: seq<(nat, Node)>, nodes: seq<Node>, rows: seq<Row>, s: Shelf, m: nat) {
    && |nodes| == |rows| && s.items.Keys == Ids(|rows|) && Downward(s.items)
    && AllDone(cat, |roots|, nodes, rows, s.items, m)
    && (forall k {:trigger SlotDone(roots, s.slots, k, m)} :: 0 <= k < |roots| ==> SlotDone(roots, s.slots, k, m))
  }

  lemma PlaceRoot(cat: Catalog, roots: seq<(nat, Node)>, nodes: seq<Node>, rows: seq<Row>, s: Shelf, k: nat)
    requires Saved(cat, roots, nodes, rows) && OnShelf(cat, roots, nodes, rows, s, k + 1) && k < |roots|
    ensures rows[k].pid < FIRST_ID + k && FIRST_ID + k in s.items
    ensures OnShelf(cat, roots, nodes, rows, PlacedOnce(cat, s, FIRST_ID + k, rows[k].pid), k)
  {
    var r := |roots|;
    assert Rooted(roots, nodes, rows, k) && SlotDone(roots, s.slots, k, k + 1);
    assert RowDone(cat, r, nodes, rows, s.items, k, k + 1);
    var s' := PlacedOnce(cat, s, FIRST_ID + k, rows[k].pid);
    forall i | 0 <= i < |rows| ensures RowDone(cat, r, nodes, rows, s'.items, i, k) {
      assert RowDone(cat, r, nodes, rows, s.items, i, k + 1);
      if i == k {
        assert k < First(r, nodes, k);
        TargetHeld(cat, r, nodes, rows, k);
      } else {
        TargetSame(cat, r, nodes, rows, i, k);
      }
    }
    forall i | 0 <= i < r ensures SlotDone(roots, s'.slots, i, k) {
      assert SlotDone(roots, s.slots, i, k + 1);
    }
  }

  /** What attaching does when the container has no holder yet. */
  lemma AttachedToLoose(cat: Catalog, items: HeldItems, c: nat, sid: nat)
    requires Downward(items) && c in items && sid in items && c < sid && items[c].holder == Nowhere
    ensures var m := Attached(cat, items, c, sid);
      && m[sid] == items[sid].(holder := Inside(c))
      && m[c] == items[c].(contents := [sid] + items[c].contents,
                           totalWeight := Wrap(items[c].totalWeight + HeldWeight(cat, items[sid])))
      && forall x :: x in items && x != c && x != sid ==> m[x] == items[x]
  {
  }

  /** What placing row `k` into row `i` should do to row `j`. */
  ghost predicate ChildStep(cat: Catalog, r: nat, nodes: seq<Node>, rows: seq<Row>, i: nat, k: nat, j: nat)
    requires i < k < |rows| && j < |rows| && |rows| == |nodes|
  {
    var t := Target(cat, r, nodes, rows, j, k + 1);
    Target(cat, r, nodes, rows, j, k) ==
      if j == k then t.(holder := Inside(FIRST_ID + i))
      else if j == i then t.(contents := [FIRST_ID + k] + t.contents,
                             totalWeight := Wrap(t.totalWeight +
                               HeldWeight(cat, Target(cat, r, nodes, rows, k, k + 1))))
      else t
  }

  lemma ChildTarget(cat: Catalog, roots: seq<(nat, Node)>, nodes: seq<Node>, rows: seq<Row>, i: nat, k: nat, j: nat)
    requires Layout(roots, nodes, rows) && |roots| <= k < |rows| && j < |rows| && i < k
    requires InBlock(|roots|, nodes, i, k) && rows[k].pid == FIRST_ID + i
    ensures ChildStep(cat, |roots|, nodes, rows, i, k, j)
  {
    var r := |roots|;
    assert k < First(r, nodes, k) && Matches(nodes, rows, k);
    assert Expanded(r, nodes, rows, k, |nodes[k].contents|);
    if j == k {
      TargetHeld(cat, r, nodes, rows, k);
    } else if j == i {
      WholeWeight(cat, r, nodes, rows, k);
      TargetGrows(cat, r, nodes, rows, i, k, Wrap(TreeWeight(cat, nodes[k])));
    } else {
      if InBlock(r, nodes, j, k) { OneBlock(r, nodes, i, j, k); }
      TargetSame(cat, r, nodes, rows, j, k);
    }
  }

  ghost predicate AllDone(cat: Catalog, r: nat, nodes: seq<Node>, rows: seq<Row>, items: HeldItems, m: nat)
    requires |nodes| == |rows|
  {
    forall k {:trigger RowDone(cat, r, nodes, rows, items, k, m)} :: 0 <= k < |rows| ==>
      RowDone(cat, r, nodes, rows, items, k, m)
  }

  lemma RowsAttached(cat: Catalog, r: nat, nodes: seq<Node>, rows: seq<Row>, items: HeldItems, i: nat, k: nat)
    requires |nodes| == |rows| && i < k < |rows| && Downward(items) && AllDone(cat, r, nodes, rows, items, k + 1)
    requires forall j {:trigger ChildStep(cat, r, nodes, rows, i, k, j)} :: 0 <= j < |rows| ==>
      ChildStep(cat, r, nodes, rows, i, k, j)
    ensures FIRST_ID + i in items && FIRST_ID + k in items
    ensures AllDone(cat, r, nodes, rows, Attached(cat, items, FIRST_ID + i, FIRST_ID + k), k)
  {
    assert RowDone(cat, r, nodes, rows, items, k, k + 1) && RowDone(cat, r, nodes, rows, items, i, k + 1);
    AttachedToLoose(cat, items, FIRST_ID + i, FIRST_ID + k);
    var items' := Attached(cat, items, FIRST_ID + i, FIRST_ID + k);
    forall j | 0 <= j < |rows| ensures RowDone(cat, r, nodes, rows, items', j, k) {
      assert RowDone(cat, r, nodes, rows, items, j, k + 1) && ChildStep(cat, r, nodes, rows, i, k, j);
    }
  }

  lemma {:induction false} PlaceChild(cat: Catalog, roots: seq<(nat, Node)>, nodes: seq<Node>, rows: seq<Row>,
                                      s: Shelf, k: nat)
    requires Saved(cat, roots, nodes, rows) && OnShelf(cat, roots, nodes, rows, s, k + 1) && |roots| <= k < |rows|
    ensures rows[k].pid < FIRST_ID + k && FIRST_ID + k in s.items
    ensures OnShelf(cat, roots, nodes, rows, PlacedOnce(cat, s, FIRST_ID + k, rows[k].pid), k)
  {
    var i := Owner(roots, nodes, rows, k);
    HoldsChildren(cat, roots, nodes, rows, s.items, i, k);
    forall j | 0 <= j < |rows| ensures ChildStep(cat, |roots|, nodes, rows, i, k, j) {
      ChildTarget(cat, roots, nodes, rows, i, k, j);
    }
    assert AllDone(cat, |roots|, nodes, rows, s.items, k + 1);
    RowsAttached(cat, |roots|, nodes, rows, s.items, i, k);
    SlotsKept(roots, s.slots, k);
    assert PlacedOnce(cat, s, FIRST_ID + k, rows[k].pid) ==
      s.(items := Attached(cat, s.items, FIRST_ID + i, FIRST_ID + k));
  }

  lemma HoldsChildren(cat: Catalog, roots: seq<(nat, Node)>, nodes: seq<Node>, rows: seq<Row>, items: HeldItems,
                      i: nat, k: nat)
    requires Layout(roots, nodes, rows) && LeavesAreEmpty(cat, nodes) && i < |rows| && nodes[i].contents != []
    requires |nodes| == |rows| && AllDone(cat, |roots|, nodes, rows, items, k + 1)
    ensures FIRST_ID + i in items && cat.isContainer(items[FIRST_ID + i].data)
  {
    assert RowDone(cat, |roots|, nodes, rows, items, i, k + 1);
    assert Matches(nodes, rows, i) && Proper(cat, nodes[i]);
  }

  lemma SlotsKept(roots: seq<(nat, Node)>, slots: map<nat, nat>, k: nat)
    requires |roots| <= k
    requires forall l {:trigger SlotDone(roots, slots, l, k + 1)} :: 0 <= l < |roots| ==>
      SlotDone(roots, slots, l, k + 1)
    ensures forall l {:trigger SlotDone(roots, slots, l, k)} :: 0 <= l < |roots| ==> SlotDone(roots, slots, l, k)
  {
    forall l | 0 <= l < |roots| ensures SlotDone(roots, slots, l, k) {
      assert SlotDone(roots, slots, l, k + 1);
    }
  }

  ghost predicate IsItemMap(itemMap: ItemMap, rows: seq<Row>) {
    && itemMap.Keys == Ids(|rows|)
    && forall k {:trigger rows[k]} :: 0 <= k < |rows| ==>
       FIRST_ID + k in itemMap && itemMap[FIRST_ID + k] == (rows[k].data, rows[k].pid)
  }

  lemma {:induction false} NothingBelow(cat: Catalog, itemMap: ItemMap, s: Shelf, sid: nat)
    requires Downward(s.items) && s.items.Keys == itemMap.Keys && Grounded(itemMap)
    requires forall x :: x in itemMap ==> x >= sid
    ensures PlacedBelow(cat, itemMap, s, sid) == s
    decreases sid
  {
    if sid > 0 {
      NothingBelow(cat, itemMap, s, sid - 1);
    }
  }

  lemma PlaceOne(cat: Catalog, roots: seq<(nat, Node)>, nodes: seq<Node>, rows: seq<Row>, s: Shelf, k: nat)
    requires Saved(cat, roots, nodes, rows) && k < |rows| && OnShelf(cat, roots, nodes, rows, s, k + 1)
    ensures rows[k].pid < FIRST_ID + k && FIRST_ID + k in s.items
    ensures OnShelf(cat, roots, nodes, rows, PlacedOnce(cat, s, FIRST_ID + k, rows[k].pid), k)
  {
    if k < |roots| {
      PlaceRoot(cat, roots, nodes, rows, s, k);
    } else {
      PlaceChild(cat, roots, nodes, rows, s, k);
    }
  }

  lemma PlacedFrom(cat: Catalog, itemMap: ItemMap, s: Shelf, sid: nat, pid: nat)
    requires Downward(s.items) && s.items.Keys == itemMap.Keys && Grounded(itemMap) && sid in itemMap
    requires itemMap[sid].1 == pid
    ensures PlacedBelow(cat, itemMap, s, sid + 1) == PlacedBelow(cat, itemMap, PlacedOnce(cat, s, sid, pid), sid)
  {
  }

  /** `after` is `before` with the row of `sid` placed. */
  ghost predicate Places(cat: Catalog, rows: seq<Row>, before: Shelf, after: Shelf, k: nat)
    requires k < |rows|
  {
    && Downward(before.items) && FIRST_ID + k in before.items && rows[k].pid < FIRST_ID + k
    && after == PlacedOnce(cat, before, FIRST_ID + k, rows[k].pid)
  }

  /** All the shelves on the way, the last one first: `shelves[k]` has the rows from `k` on. */
  ghost predicate IsTrace(cat: Catalog, rows: seq<Row>, shelves: seq<Shelf>) {
    && 0 < |shelves| <= |rows| + 1
    && forall k {:trigger shelves[k]} :: 0 <= k < |shelves| - 1 ==> Places(cat, rows, shelves[k + 1], shelves[k], k)
  }

  lemma {:induction false} Trace(cat: Catalog, rows: seq<Row>, itemMap: ItemMap, s: Shelf, sid: nat, m: nat)
    returns (shelves: seq<Shelf>)
    requires IsItemMap(itemMap, rows) && Grounded(itemMap) && Downward(s.items) && s.items.Keys == itemMap.Keys
    requires m <= |rows| && sid == FIRST_ID + m
    ensures |shelves| == m + 1 && IsTrace(cat, rows, shelves) && shelves[m] == s
    ensures shelves[0] == PlacedBelow(cat, itemMap, s, sid)
    decreases m
  {
    if m == 0 {
      NothingBelow(cat, itemMap, s, sid);
      shelves := [s];
    } else {
      var pid := rows[m - 1].pid;
      assert itemMap[sid - 1].1 == pid;
      PlacedFrom(cat, itemMap, s, sid - 1, pid);
      var s1 := PlacedOnce(cat, s, sid - 1, pid);
      var shorter := Trace(cat, rows, itemMap, s1, sid - 1, m - 1);
      TraceOn(cat, rows, shorter, s);
      shelves := shorter + [s];
    }
  }

  lemma {:induction false} TraceOn(cat: Catalog, rows: seq<Row>, shelves: seq<Shelf>, s: Shelf)
    requires IsTrace(cat, rows, shelves) && |shelves| <= |rows|
    requires Places(cat, rows, s, shelves[|shelves| - 1], |shelves| - 1)
    ensures IsTrace(cat, rows, shelves + [s])
  {
    var longer := shelves + [s];
    forall k {:trigger longer[k]} | 0 <= k < |longer| - 1
      ensures Places(cat, rows, longer[k + 1], longer[k], k)
    {
      if k < |shelves| - 1 { assert Places(cat, rows, shelves[k + 1], shelves[k], k); }
    }
  }

  lemma {:induction false} PlaceAlong(cat: Catalog, roots: seq<(nat, Node)>, nodes: seq<Node>, rows: seq<Row>,
                                      shelves: seq<Shelf>, k: nat)
    requires Saved(cat, roots, nodes, rows) && IsTrace(cat, rows, shelves) && |shelves| == |rows| + 1 && k <= |rows|
    requires OnShelf(cat, roots, nodes, rows, shelves[|rows|], |rows|)
    ensures OnShelf(cat, roots, nodes, rows, shelves[k], k)
    decreases |rows| - k
  {
    if k < |rows| {
      PlaceAlong(cat, roots, nodes, rows, shelves, k + 1);
      assert Places(cat, rows, shelves[k + 1], shelves[k], k);
      PlaceOne(cat, roots, nodes, rows, shelves[k + 1], k);
    }
  }

  // ---- what the database gives back ---------------------------------------------------------------

  /** The saved rows in whatever order the database returns them. */
  ghost predicate Returned(loaded: seq<Row>, rows: seq<Row>) {
    forall row :: row in loaded <==> row in rows
  }

  lemma {:induction false} LoadedKeys(cat: Catalog, loaded: seq<Row>, rows: seq<Row>)
    requires forall row :: row in loaded ==> row in rows && cat.known(row.data)
    requires forall k :: 0 <= k < |rows| ==> rows[k].sid == FIRST_ID + k
    ensures forall sid :: sid in Loaded(cat, loaded) <==> exists row :: row in loaded && row.sid == sid
    ensures forall row :: row in loaded ==>
      row.sid in Loaded(cat, loaded) && Loaded(cat, loaded)[row.sid] == (row.data, row.pid)
    ensures loaded == [] ==> Limit(cat, loaded) == 0
    ensures forall row :: row in loaded ==> row.sid < Limit(cat, loaded)
    ensures loaded != [] ==> exists row :: row in loaded && Limit(cat, loaded) == row.sid + 1
  {
    if loaded != [] {
      var n := |loaded| - 1;
      LoadedKeys(cat, loaded[..n], rows);
      assert loaded == loaded[..n] + [loaded[n]];
    }
  }

  ghost predicate Numbered(cat: Catalog, rows: seq<Row>) {
    forall k :: 0 <= k < |rows| ==> rows[k].sid == FIRST_ID + k && cat.known(rows[k].data)
  }

  lemma LoadedKeySet(cat: Catalog, loaded: seq<Row>, rows: seq<Row>)
    requires Returned(loaded, rows) && Numbered(cat, rows)
    ensures Loaded(cat, loaded).Keys == Ids(|rows|)
  {
    LoadedKeys(cat, loaded, rows);
    var keys := Loaded(cat, loaded).Keys;
    forall sid | sid in keys ensures sid in Ids(|rows|) {
      var row :| row in loaded && row.sid == sid;
      assert row in rows;
    }
    forall sid | sid in Ids(|rows|) ensures sid in keys {
      assert rows[sid - FIRST_ID] in loaded;
    }
  }

  lemma LoadedIsItemMap(cat: Catalog, loaded: seq<Row>, rows: seq<Row>)
    requires Returned(loaded, rows) && Numbered(cat, rows)
    ensures IsItemMap(Loaded(cat, loaded), rows)
    ensures |rows| > 0 ==> Limit(cat, loaded) == FIRST_ID + |rows|
  {
    LoadedKeySet(cat, loaded, rows);
    LoadedKeys(cat, loaded, rows);
    forall k | 0 <= k < |rows| ensures rows[k] in loaded {}
    if |rows| > 0 {
      assert rows[|rows| - 1] in loaded;
    }
  }

  lemma StartsUnplaced(cat: Catalog, roots: seq<(nat, Node)>, nodes: seq<Node>, rows: seq<Row>, itemMap: ItemMap)
    requires Layout(roots, nodes, rows) && IsItemMap(itemMap, rows)
    ensures OnShelf(cat, roots, nodes, rows, Unplaced(itemMap), |rows|)
  {
    var r, n, items := |roots|, |rows|, Unplaced(itemMap).items;
    forall k | 0 <= k < n ensures RowDone(cat, r, nodes, rows, items, k, n) {
      KidsMonotone(nodes, k + 1, n);
    }
    forall k | 0 <= k < r ensures SlotDone(roots, map[], k, n) {}
  }

  lemma SavedIsGrounded(cat: Catalog, roots: seq<(nat, Node)>, nodes: seq<Node>, rows: seq<Row>, k: nat)
    requires Saved(cat, roots, nodes, rows) && k < |rows|
    ensures rows[k].sid == FIRST_ID + k && cat.known(rows[k].data) && rows[k].pid < rows[k].sid
  {
    assert Matches(nodes, rows, k) && Proper(cat, nodes[k]);
    if k < |roots| {
      assert Rooted(roots, nodes, rows, k);
    } else {
      var i := Owner(roots, nodes, rows, k);
    }
  }

  lemma SavedLoads(cat: Catalog, roots: seq<(nat, Node)>, nodes: seq<Node>, rows: seq<Row>, loaded: seq<Row>)
    requires Saved(cat, roots, nodes, rows) && Returned(loaded, rows)
    ensures Numbered(cat, rows) && Grounded(Loaded(cat, loaded))
  {
    forall k | 0 <= k < |rows|
      ensures rows[k].sid == FIRST_ID + k && cat.known(rows[k].data) && rows[k].pid < rows[k].sid
    {
      SavedIsGrounded(cat, roots, nodes, rows, k);
    }
    forall k | 0 <= k < |loaded| ensures loaded[k].pid < loaded[k].sid { assert loaded[k] in rows; }
    LoadedGrounded(cat, loaded);
  }

  lemma EmptyReturned(loaded: seq<Row>, rows: seq<Row>)
    requires Returned(loaded, rows)
    ensures |loaded| > 0 ==> |rows| > 0
  {
    if |loaded| > 0 { assert loaded[0] in rows; }
  }

  /** Loading what was saved ends with every row in place. */
  lemma AllPlaced(cat: Catalog, roots: seq<(nat, Node)>, nodes: seq<Node>, rows: seq<Row>, loaded: seq<Row>)
    requires Saved(cat, roots, nodes, rows) && Returned(loaded, rows)
    ensures Grounded(Loaded(cat, loaded))
    ensures var itemMap := Loaded(cat, loaded);
      OnShelf(cat, roots, nodes, rows, PlacedBelow(cat, itemMap, Unplaced(itemMap), Limit(cat, loaded)), 0)
  {
    SavedLoads(cat, roots, nodes, rows, loaded);
    LoadedIsItemMap(cat, loaded, rows);
    StartsUnplaced(cat, roots, nodes, rows, Loaded(cat, loaded));
    if |rows| > 0 {
      var itemMap := Loaded(cat, loaded);
      var shelves := Trace(cat, rows, itemMap, Unplaced(itemMap), FIRST_ID + |rows|, |rows|);
      PlaceAlong(cat, roots, nodes, rows, shelves, 0);
    } else {
      EmptyReturned(loaded, rows);
    }
  }

  // ---- the same forest -------------------------------------------------------------------------------

  /** The item `sid` and all it holds are the tree `x`: same data, same order, each
      child held by its parent, and the weight of the contents correct at every level. */
  ghost predicate Represents(cat: Catalog, items: HeldItems, sid: nat, x: Node)
    decreases x
  {
    && sid in items
    && items[sid].data == x.data
    && items[sid].totalWeight == Wrap(TreesWeight(cat, x.contents))
    && |items[sid].contents| == |x.contents|
    && forall j :: 0 <= j < |x.contents| ==>
         var c := items[sid].contents[j];
         c in items && items[c].holder == Inside(sid) && Represents(cat, items, c, x.contents[j])
  }

  lemma {:induction false} RowRepresents(cat: Catalog, roots: seq<(nat, Node)>, nodes: seq<Node>,
                                         rows: seq<Row>, items: HeldItems, k: nat)
    requires Layout(roots, nodes, rows) && k < |rows| && AllDone(cat, |roots|, nodes, rows, items, 0)
    ensures Represents(cat, items, FIRST_ID + k, nodes[k])
    decreases nodes[k]
  {
    var r, x := |roots|, nodes[k];
    assert RowDone(cat, r, nodes, rows, items, k, 0) && Matches(nodes, rows, k);
    assert Expanded(r, nodes, rows, k, |x.contents|) && k < First(r, nodes, k);
    RangeIsContents(cat, r, nodes, rows, k, 0);
    assert x.contents[0..] == x.contents;
    forall j | 0 <= j < |x.contents|
      ensures var c := items[FIRST_ID + k].contents[j];
        c in items && items[c].holder == Inside(FIRST_ID + k) && Represents(cat, items, c, x.contents[j])
    {
      var c := First(r, nodes, k) + j;
      assert Placed(r, nodes, rows, k, j) && RowDone(cat, r, nodes, rows, items, c, 0);
      RowRepresents(cat, roots, nodes, rows, items, c);
    }
  }

  /** The forest as loaded from `rows`. */
  ghost function LoadedShelf(cat: Catalog, rows: seq<Row>): Shelf
    requires Grounded(Loaded(cat, rows))
  {
    PlacedBelow(cat, Loaded(cat, rows), Unplaced(Loaded(cat, rows)), Limit(cat, rows))
  }

  /** For every inventory: the rows of `SaveItems`, in whatever order the database
      returns them, load back as exactly the saved forest. */
  lemma InventoryRoundTrip(cat: Catalog, roots: seq<(nat, Node)>, rows: seq<Row>, loaded: seq<Row>)
    requires Listing(cat, roots, rows) && Slotted(roots) && Returned(loaded, rows)
    ensures Grounded(Loaded(cat, loaded))
    ensures var s := LoadedShelf(cat, loaded);
      && |s.items| == |rows|
      && forall k :: 0 <= k < |roots| ==>
           && roots[k].0 in s.slots
           && s.slots[roots[k].0] in s.items && s.items[s.slots[roots[k].0]].holder == InSlot(roots[k].0)
           && Represents(cat, s.items, s.slots[roots[k].0], roots[k].1)
  {
    var nodes :| Layout(roots, nodes, rows) && LeavesAreEmpty(cat, nodes);
    AllPlaced(cat, roots, nodes, rows, loaded);
    var s := LoadedShelf(cat, loaded);
    IdsCount(|rows|);
    forall k | 0 <= k < |roots|
      ensures roots[k].0 in s.slots && s.slots[roots[k].0] in s.items
      ensures s.items[s.slots[roots[k].0]].holder == InSlot(roots[k].0)
      ensures Represents(cat, s.items, s.slots[roots[k].0], roots[k].1)
    {
      RootRepresents(cat, roots, nodes, rows, s, k);
    }
  }

  lemma RootRepresents(cat: Catalog, roots: seq<(nat, Node)>, nodes: seq<Node>, rows: seq<Row>, s: Shelf, k: nat)
    requires Layout(roots, nodes, rows) && k < |roots| && OnShelf(cat, roots, nodes, rows, s, 0)
    ensures roots[k].0 in s.slots && s.slots[roots[k].0] in s.items
    ensures s.items[s.slots[roots[k].0]].holder == InSlot(roots[k].0)
    ensures Represents(cat, s.items, s.slots[roots[k].0], roots[k].1)
  {
    assert SlotDone(roots, s.slots, k, 0) && Rooted(roots, nodes, rows, k);
    assert RowDone(cat, |roots|, nodes, rows, s.items, k, 0);
    RowRepresents(cat, roots, nodes, rows, s.items, k);
  }

  lemma {:induction false} IdsCount(n: nat)
    ensures |Ids(n)| == n
  {
    if n > 0 {
      IdsCount(n - 1);
    }
  }
}
