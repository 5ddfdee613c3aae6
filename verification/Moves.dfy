/** Moving items between containers (`Game::internalMoveItem`). */
module Moves {
  import opened Items
  import opened Forest
  import opened Containers
  import opened Options
  import opened Queries
  import opened Counting
  import opened Sequences

  // ---- what a move does to the table, cached weights aside -----------------

  predicate Merges(t: Table, item: Id, toItem: Option<Id>) {
    item in t && toItem.Some? && toItem.value in t && toItem.value != item
    && Equals(t[item], t[toItem.value]) && t[toItem.value].count <= 100
  }

  /** How many of `m` units an equal stack takes. */
  function Absorbed(t: Table, item: Id, toItem: Option<Id>, m: nat): nat {
    if Merges(t, item, toItem) then Min(100 - t[toItem.value].count, m) else 0
  }

  /** `m` units leave a stack in `from`; an empty stack leaves the list. */
  function Taken(t: Table, from: Id, item: Id, m: nat): Table
    requires from in t && item in t && item in t[from].itemlist && m <= t[item].count
  {
    if m != t[item].count
    then t[item := t[item].(count := t[item].count - m)]
    else Detached(from, item, t)
  }

  /** An equal stack is topped up. */
  function Topped(t: Table, item: Id, toItem: Option<Id>, m: nat): Table {
    if Merges(t, item, toItem)
    then
      var e := t[toItem.value];
      t[toItem.value := SetSubType(SetID(e, e.kind), e.count + Absorbed(t, item, toItem, m))]
    else t
  }

  /** A root goes to the front of `dest`, if the index lets it in. */
  function Placed(t: Table, dest: Id, index: int, x: Id): Table
    requires dest in t && x in t && x != dest
  {
    if index < t[dest].maxSize then Attached(dest, x, [x] + t[dest].itemlist, t) else t
  }

  function MovedWhole(t: Table, from: Id, dest: Id, index: int, item: Id): Table
    requires from in t && item in t && item in t[from].itemlist && dest in t && item != dest && from != item
  {
    Placed(Detached(from, item, t), dest, index, item)
  }

  /** The source stack after the move; gone when it is used up. */
  function Split(t: Table, from: Id, item: Id, m: nat, toItem: Option<Id>): Table
    requires from in t && item in t && item in t[from].itemlist && m <= t[item].count
  {
    var t1 := Topped(Taken(t, from, item, m), item, toItem, m);
    if m == t[item].count then t1 - {item} else t1
  }

  function MovedStack(t: Table, from: Id, dest: Id, index: int, item: Id, m: nat, toItem: Option<Id>, id: Id): Table
    requires from in t && item in t && item in t[from].itemlist && m <= t[item].count
    requires dest in t && item != dest && from != item && id !in t
  {
    var t2 := Split(t, from, item, m, toItem);
    var rest := m - Absorbed(t, item, toItem, m);
    if rest == 0 then t2
    else Placed(t2[id := Loose(t[item].kind, rest, t[item].attrs)], dest, index, id)
  }

  lemma MovedStackRest(t: Table, from: Id, dest: Id, index: int, item: Id, m: nat, toItem: Option<Id>, id: Id)
    requires from in t && item in t && item in t[from].itemlist && m <= t[item].count
    requires dest in t && item != dest && from != item && id !in t
    requires m != Absorbed(t, item, toItem, m)
    ensures var t2 := Split(t, from, item, m, toItem);
      && dest in t2
      && MovedStack(t, from, dest, index, item, m, toItem, id) ==
         Placed(t2[id := Loose(t[item].kind, m - Absorbed(t, item, toItem, m), t[item].attrs)], dest, index, id)
  {
  }

  lemma TakenTotal(t: Table, from: Id, item: Id, m: nat, f: Measure)
    requires from in t && item in t && item in t[from].itemlist && m <= t[item].count && from != item
    requires t[item].kind.stackable
    ensures Total(Taken(t, from, item, m), f) ==
      Total(t, f) - (if m == t[item].count then 0 else Times(m, f(SortOf(t[item]))))
  {
    if m != t[item].count {
      TotalUpdate(t, item, t[item].(count := t[item].count - m), f);
      TimesSum(t[item].count - m, m, f(SortOf(t[item])));
    } else {
      TotalRelink(t, item, None, from, Without(t[from].itemlist, item), f);
    }
  }

  lemma PlacedTotal(t: Table, dest: Id, index: int, x: Id, f: Measure)
    requires dest in t && x in t && x != dest
    ensures Total(Placed(t, dest, index, x), f) == Total(t, f)
  {
    TotalRelink(t, x, Some(dest), dest, [x] + t[dest].itemlist, f);
  }

  lemma ToppedTotal(t: Table, item: Id, toItem: Option<Id>, m: nat, f: Measure)
    requires item in t && t[item].kind.stackable && !t[item].kind.fluid
    ensures Total(Topped(t, item, toItem, m), f) ==
      Total(t, f) + Times(Absorbed(t, item, toItem, m), f(SortOf(t[item])))
  {
    if Merges(t, item, toItem) {
      var e, n := t[toItem.value], Absorbed(t, item, toItem, m);
      RetypeKeepsSort(e, e.count + n);
      TotalUpdate(t, toItem.value, SetSubType(SetID(e, e.kind), e.count + n), f);
      TimesSum(e.count, n, f(SortOf(e)));
    }
  }

  /** Nothing is created or lost: every total over the table stays, whatever is
      being counted. */
  lemma MovedStackTotal(t: Table, from: Id, dest: Id, index: int, item: Id, m: nat, toItem: Option<Id>, id: Id,
                        f: Measure)
    requires from in t && item in t && item in t[from].itemlist && m <= t[item].count
    requires dest in t && item != dest && from != item && id !in t
    requires t[item].kind.stackable && !t[item].kind.fluid
    ensures Total(MovedStack(t, from, dest, index, item, m, toItem, id), f) == Total(t, f)
  {
    var kind, n := t[item].kind, Absorbed(t, item, toItem, m);
    SplitTotal(t, from, item, m, toItem, f);
    if m != n {
      PlacedNewTotal(Split(t, from, item, m, toItem), dest, index, id, kind, m - n, t[item].attrs, f);
    }
  }

  lemma SplitTotal(t: Table, from: Id, item: Id, m: nat, toItem: Option<Id>, f: Measure)
    requires from in t && item in t && item in t[from].itemlist && m <= t[item].count && from != item
    requires t[item].kind.stackable && !t[item].kind.fluid
    ensures Total(Split(t, from, item, m, toItem), f) + Times(m - Absorbed(t, item, toItem, m), f(SortOf(t[item]))) ==
      Total(t, f)
  {
    var n := Absorbed(t, item, toItem, m);
    var t0 := Taken(t, from, item, m);
    TakenKeepsMerge(t, from, item, m, toItem);
    TakenTotal(t, from, item, m, f);
    ToppedTotal(t0, item, toItem, m, f);
    if m == t[item].count { TotalRemove(Topped(t0, item, toItem, m), item, f); }
    TimesSum(m - n, n, f(SortOf(t[item])));
  }

  /** The stack to merge with takes as much as before, and the item is of the sort it was. */
  lemma {:induction false} TakenKeepsMerge(t: Table, from: Id, item: Id, m: nat, toItem: Option<Id>)
    requires from in t && item in t && item in t[from].itemlist && m <= t[item].count && from != item
    requires t[item].kind.stackable && !t[item].kind.fluid
    ensures var t0 := Taken(t, from, item, m);
      && item in t0 && Absorbed(t0, item, toItem, m) == Absorbed(t, item, toItem, m)
      && SortOf(t0[item]) == SortOf(t[item]) && t0[item].kind == t[item].kind
      && var t1 := Topped(t0, item, toItem, m);
      item in t1 && t1[item] == t0[item] && (m == t[item].count ==> t1[item].count == m)
  {
  }

  lemma PlacedNewTotal(t: Table, dest: Id, index: int, id: Id, kind: ItemType, n: nat, attrs: Attrs, f: Measure)
    requires dest in t && id !in t && kind.stackable
    ensures Total(Placed(t[id := Loose(kind, n, attrs)], dest, index, id), f) ==
      Total(t, f) + Times(n, f(SortOf(Loose(kind, n, attrs))))
  {
    TotalInsert(t, id, Loose(kind, n, attrs), f);
    PlacedTotal(t[id := Loose(kind, n, attrs)], dest, index, id, f);
  }

  // ---- the method -----------------------------------------------------------

  /** Taking an item out elsewhere does not change what is around `dest`. */
  lemma AroundAfterTaking(dest: Id, item: Id, t: Table, h: Heights, t': Table, h': Heights)
    requires IsForest(t, h) && IsForest(t', h') && dest in t && item in t && item !in Around(dest, t, h)
    requires forall x :: x in t && x != item ==> x in t' && t'[x].parent == t[x].parent
    ensures dest in t' && Around(dest, t', h') == Around(dest, t, h)
  {
    AroundSame(dest, t, h, t', h');
  }

  /** Tops up an equal stack in `dest` with as much of `m` units as it takes. */
  method TopUp(w: ItemWorld, dest: Id, item: Id, toItem: Option<Id>, m: nat) returns (n: nat)
    requires w.Ok() && dest in w.items && item in w.items
    requires w.items[item].kind.stackable
    requires toItem.Some? ==> toItem.value in w.items && toItem.value in w.items[dest].itemlist && toItem.value != item
    modifies w`items, w`totalWeight
    ensures w.Ok()
    ensures w.items == Topped(old(w.items), item, toItem, m)
    ensures n == Absorbed(old(w.items), item, toItem, m)
  {
    n := 0;
    if toItem.Some? && Equals(w.items[item], w.items[toItem.value]) {
      n := Min(100 - w.items[toItem.value].count, m);
      w.UpdateThing(dest, toItem.value, w.items[toItem.value].kind, w.items[toItem.value].count + n);
    }
  }

  /** Puts a new stack in front of `dest`, if the index lets it in. */
  method PlaceNew(w: ItemWorld, dest: Id, index: int, kind: ItemType, count: nat, attrs: Attrs) returns (id: Id)
    requires w.Ok() && dest in w.items && w.items[dest].isContainer && StackOk(Loose(kind, count, attrs))
    modifies w
    ensures w.Ok() && id == old(w.nextId) && id !in old(w.items)
    ensures w.items == Placed(old(w.items)[id := Loose(kind, count, attrs)], dest, index, id)
  {
    ghost var t, h := w.items, w.height;
    id := w.Create(kind, count, attrs);
    AroundSame(dest, t, h, w.items, w.height);
    w.AddThing(dest, index, id);
  }

  /** Takes `m` units of a stack, tops up an equal stack with them, and releases
      the source stack when it is used up. */
  method SplitStack(w: ItemWorld, from: Id, dest: Id, item: Id, m: nat, toItem: Option<Id>) returns (n: nat)
    requires w.Ok() && from in w.items && dest in w.items && item in w.items
    requires item in w.items[from].itemlist && item != dest
    requires w.items[item].kind.stackable && 1 <= m <= w.items[item].count
    requires toItem.Some? ==> toItem.value in w.items && toItem.value in w.items[dest].itemlist && toItem.value != item
    modifies w`items, w`totalWeight
    ensures w.Ok() && from != item
    ensures w.items == Split(old(w.items), from, item, m, toItem)
    ensures n == Absorbed(old(w.items), item, toItem, m) <= m
    ensures dest in w.items && w.items[dest].isContainer == old(w.items[dest].isContainer)
  {
    ghost var t := w.items;
    var count := w.items[item].count;
    assert Linked(from, t, w.height) && Linked(item, t, w.height);
    w.RemoveThing(from, item, m);
    if toItem.Some? { StillListed(t, from, dest, item, m, toItem.value); }
    n := TopUp(w, dest, item, toItem, m);
    if m == count {
      w.Release(item);
    }
  }

  /** The part of a move that deals with stacks: split, merge, and put the rest in
      front of the destination. */
  method MoveStack(w: ItemWorld, from: Id, dest: Id, index: int, item: Id, m: nat, toItem: Option<Id>)
    returns (moveItem: Option<Id>)
    requires w.Ok() && from in w.items && dest in w.items && item in w.items
    requires w.items[dest].isContainer && item in w.items[from].itemlist && item != dest
    requires w.items[item].kind.stackable && 1 <= m <= w.items[item].count
    requires toItem.Some? ==> toItem.value in w.items && toItem.value in w.items[dest].itemlist && toItem.value != item
    modifies w
    ensures w.Ok()
    ensures from != item && old(w.nextId) !in old(w.items)
    ensures w.items == MovedStack(old(w.items), from, dest, index, item, m, toItem, old(w.nextId))
    ensures moveItem == if m == old(Absorbed(w.items, item, toItem, m)) then None else Some(old(w.nextId))
  {
    var e := w.items[item];
    assert StackOk(e);
    ghost var t := w.items;
    var n := SplitStack(w, from, dest, item, m, toItem);
    moveItem := PlaceRest(w, from, dest, index, item, m, toItem, n, e, t);
  }

  /** What the destination's stack could not take becomes a stack of its own. */
  method PlaceRest(w: ItemWorld, ghost from: Id, dest: Id, index: int, ghost item: Id, m: nat, ghost toItem: Option<Id>,
                   n: nat, e: Entry, ghost t: Table)
    returns (moveItem: Option<Id>)
    requires w.Ok() && from in t && dest in t && item in t && item in t[from].itemlist && item != dest && from != item
    requires t[item] == e && e.kind.stackable && StackOk(e) && m <= e.count && w.nextId !in t
    requires w.items == Split(t, from, item, m, toItem) && n == Absorbed(t, item, toItem, m) <= m
    requires dest in w.items && w.items[dest].isContainer
    modifies w
    ensures w.Ok()
    ensures w.items == MovedStack(t, from, dest, index, item, m, toItem, old(w.nextId))
    ensures moveItem == if n == m then None else Some(old(w.nextId))
  {
    ghost var id := w.nextId;
    if n == m {
      MovedStackDone(t, from, dest, index, item, m, toItem, id);
      return None;
    }
    MovedStackRest(t, from, dest, index, item, m, toItem, id);
    var newItem := PlaceNew(w, dest, index, e.kind, m - n, e.attrs);
    moveItem := Some(newItem);
  }

  lemma MovedStackDone(t: Table, from: Id, dest: Id, index: int, item: Id, m: nat, toItem: Option<Id>, id: Id)
    requires from in t && item in t && item in t[from].itemlist && m <= t[item].count
    requires dest in t && item != dest && from != item && id !in t
    requires m == Absorbed(t, item, toItem, m)
    ensures MovedStack(t, from, dest, index, item, m, toItem, id) == Split(t, from, item, m, toItem)
  {
  }

  lemma StillListed(t: Table, from: Id, dest: Id, item: Id, m: nat, y: Id)
    requires from in t && item in t && item in t[from].itemlist && m <= t[item].count && dest in t && item != dest
    requires y in t[dest].itemlist && y != item
    ensures y in Taken(t, from, item, m)[dest].itemlist
  {
    var list := t[dest].itemlist;
    var k :| 0 <= k < |list| && list[k] == y;
    if item in list {
      var n := IndexOf(list, item);
      assert Without(list, item)[if k < n then k else k - 1] == y;
    }
  }

  lemma MovedWholeTotal(t: Table, from: Id, dest: Id, index: int, item: Id, f: Measure)
    requires from in t && item in t && item in t[from].itemlist && dest in t && item != dest && from != item
    ensures Total(MovedWhole(t, from, dest, index, item), f) == Total(t, f)
  {
    TotalRelink(t, item, None, from, Without(t[from].itemlist, item), f);
    PlacedTotal(Detached(from, item, t), dest, index, item, f);
  }

  method MoveWhole(w: ItemWorld, from: Id, dest: Id, index: int, item: Id, m: nat)
    requires w.Ok() && from in w.items && dest in w.items && item in w.items
    requires w.items[dest].isContainer && item in w.items[from].itemlist && item !in Around(dest, w.items, w.height)
    requires !w.items[item].kind.stackable
    modifies w`items, w`totalWeight, w`height
    ensures w.Ok() && from != item && dest != item
    ensures w.items == MovedWhole(old(w.items), from, dest, index, item)
  {
    ghost var t, h := w.items, w.height;
    assert Linked(from, t, h) && Linked(item, t, h);
    w.RemoveThing(from, item, m);
    AroundAfterTaking(dest, item, t, h, w.items, w.height);
    w.AddThing(dest, index, item);
  }

  // ---- where strays come from, and how full lists get -------------------------

  /** Every item without a container had none before. */
  ghost predicate NoStrays(t: Table, t': Table) {
    forall x :: x in t' && t'[x].parent == None ==> x in t && t[x].parent == None
  }

  /** No list has outgrown both its old length and its capacity. */
  ghost predicate WithinCapacity(t: Table, t': Table) {
    forall x :: x in t' && x in t ==> |t'[x].itemlist| <= |t[x].itemlist| || |t'[x].itemlist| <= t[x].maxSize
  }

  /** Whoever is left sits where it sat, with no more in it. */
  ghost predicate NoneMoved(t: Table, t': Table) {
    forall x :: x in t' ==> x in t && Sits(t'[x], t[x])
  }

  ghost predicate Sits(e: Entry, e0: Entry) {
    e.parent == e0.parent && |e.itemlist| <= |e0.itemlist| && e.maxSize == e0.maxSize
  }

  lemma ToppedShape(t: Table, item: Id, toItem: Option<Id>, m: nat)
    ensures Topped(t, item, toItem, m).Keys == t.Keys && NoneMoved(t, Topped(t, item, toItem, m))
  {
  }

  lemma SplitShape(t: Table, from: Id, item: Id, m: nat, toItem: Option<Id>)
    requires from in t && item in t && item in t[from].itemlist && m <= t[item].count && from != item
    ensures NoneMoved(t, Split(t, from, item, m, toItem))
  {
    var t0 := Taken(t, from, item, m);
    ToppedShape(t0, item, toItem, m);
    assert forall x :: x in t0 && (x != item || m != t[item].count) ==> Sits(t0[x], t[x]);
  }

  lemma PlacedNewShape(t: Table, t2: Table, dest: Id, index: int, id: Id, kind: ItemType, n: nat, attrs: Attrs)
    requires dest in t2 && dest in t && id !in t
    requires NoneMoved(t, t2)
    ensures var t' := Placed(t2[id := Loose(kind, n, attrs)], dest, index, id);
      && (NoStrays(t, t') <==> index < t[dest].maxSize)
      && (FreeSlots(t[dest]) > 0 ==> WithinCapacity(t, t'))
  {
    var t3 := t2[id := Loose(kind, n, attrs)];
    var t' := Placed(t3, dest, index, id);
    assert t'[id].parent == if index < t[dest].maxSize then Some(dest) else None;
    assert forall x :: x in t' && x != id ==> t'[x].parent == t3[x].parent;
    assert forall x :: x in t' && x != dest ==> t'[x].itemlist == t3[x].itemlist;
  }

  /** A move strays exactly when a rest is left over and the index refuses it; it
      never overfills a list when there was a free slot or nothing left over. */
  lemma MovedStackShape(t: Table, from: Id, dest: Id, index: int, item: Id, m: nat, toItem: Option<Id>, id: Id)
    requires from in t && item in t && item in t[from].itemlist && m <= t[item].count
    requires dest in t && item != dest && from != item && id !in t
    ensures var t' := MovedStack(t, from, dest, index, item, m, toItem, id);
      && (NoStrays(t, t') <==> m == Absorbed(t, item, toItem, m) || index < t[dest].maxSize)
      && (m == Absorbed(t, item, toItem, m) || FreeSlots(t[dest]) > 0 ==> WithinCapacity(t, t'))
  {
    SplitShape(t, from, item, m, toItem);
    if m != Absorbed(t, item, toItem, m) {
      MovedStackRest(t, from, dest, index, item, m, toItem, id);
      PlacedNewShape(t, Split(t, from, item, m, toItem), dest, index, id, t[item].kind,
        m - Absorbed(t, item, toItem, m), t[item].attrs);
    }
  }

  lemma {:induction false} MovedWholeShape(t: Table, from: Id, dest: Id, index: int, item: Id)
    requires from in t && item in t && item in t[from].itemlist && dest in t && item != dest && from != item
    ensures var t' := MovedWhole(t, from, dest, index, item);
      && (index < t[dest].maxSize ==> NoStrays(t, t'))
      && (FreeSlots(t[dest]) > 0 ==> WithinCapacity(t, t'))
  {
    var t1 := Detached(from, item, t);
    assert forall x :: x in t1 && x != item ==> t1[x].parent == t[x].parent;
    assert forall x :: x in t1 ==> |t1[x].itemlist| <= |t[x].itemlist| && t1[x].maxSize == t[x].maxSize;
  }

  // ---- Game::internalMoveItem ---------------------------------------------------

  /** What `internalMoveItem` settles on before it touches anything. */
  datatype Plan = Plan(dest: Id, index: int, toItem: Option<Id>, flags: Flags, m: nat)

  /** The plan is sound: the destination accepts, the item is in `from`, and the
      amount is the most that fits. */
  ghost predicate Sound(t: Table, h: Heights, from: Id, item: Id, count: nat, p: Plan)
    requires IsForest(t, h) && item in t && from in t
  {
    && Settled(t, p.dest, p.index, p.toItem, item)
    && p.toItem != Some(item)
    && AddVerdict(t, h, p.dest, p.index, item, p.flags) == NoError
    && item in t[from].itemlist && p.m > 0
    && (t[item].kind.moveable || p.flags.ignoreNotMoveable)
    && var max := MaxCount(t, h, p.dest, p.index, item, count, p.flags);
       if t[item].kind.stackable then p.m == Min(count, max) && p.m <= t[item].count else p.m == max
  }

  /** The table after a sound plan has been carried out. */
  ghost function Outcome(t: Table, from: Id, item: Id, p: Plan, id: Id): Table
    requires from in t && item in t && item in t[from].itemlist && p.dest in t && item != p.dest
    requires from != item && id !in t
    requires t[item].kind.stackable ==> p.m <= t[item].count
  {
    if t[item].kind.stackable then MovedStack(t, from, p.dest, p.index, item, p.m, p.toItem, id)
    else MovedWhole(t, from, p.dest, p.index, item)
  }

  // ---- where the item goes --------------------------------------------------------

  const MAP_MAX_LAYERS := 16

  /** Follows `queryDestination` until a container keeps the item for itself, or `hops`
      redirections have been made; every redirection drops the flags. */
  function Follow(t: Table, sc: bool, to: Id, index: int, item: Id, flags: Flags, hops: nat): (r: (Aim, Flags))
    requires to in t && item in t && hops > 0
    ensures r.0.dest in t
    decreases hops
  {
    var a := Destination(t, sc, to, index, item, flags);
    if a.dest == to then (a, flags)
    else if hops == 1 then (a, NO_FLAGS)
    else Follow(t, sc, a.dest, a.index, item, NO_FLAGS, hops - 1)
  }

  /** The bound on redirections is never met: the first one comes with an index of
      "wherever", which the next container does not send on. */
  lemma {:induction false} FollowsOnce(t: Table, h: Heights, sc: bool, to: Id, index: int, item: Id,
                                       flags: Flags, hops: nat)
    requires IsForest(t, h) && (forall x :: x in t ==> StackOk(t[x])) && to in t && item in t
    requires t[to].isContainer && hops > 1
    ensures var a := Destination(t, sc, to, index, item, flags);
      Follow(t, sc, to, index, item, flags, hops) ==
        if a.dest == to then (a, flags) else (Destination(t, sc, a.dest, WHEREEVER, item, NO_FLAGS), NO_FLAGS)
  {
    var a := Destination(t, sc, to, index, item, flags);
    DestinationSettles(t, h, sc, to, index, item, flags);
    if a.dest != to {
      DestinationWherever(t, sc, a.dest, item, NO_FLAGS);
    }
  }

  lemma {:induction false} FollowSettles(t: Table, h: Heights, sc: bool, to: Id, index: int, item: Id, flags: Flags)
    requires IsForest(t, h) && (forall x :: x in t ==> StackOk(t[x])) && to in t && item in t && t[to].isContainer
    ensures var (a, fl) := Follow(t, sc, to, index, item, flags, MAP_MAX_LAYERS);
      Settled(t, a.dest, a.index, a.toItem, item)
        && (fl == NO_FLAGS || (fl == flags && a == Destination(t, sc, to, index, item, flags) && a.dest == to))
  {
    var a := Destination(t, sc, to, index, item, flags);
    FollowsOnce(t, h, sc, to, index, item, flags, MAP_MAX_LAYERS);
    DestinationSettles(t, h, sc, to, index, item, flags);
    if a.dest != to {
      DestinationSettles(t, h, sc, a.dest, WHEREEVER, item, NO_FLAGS);
      DestinationWherever(t, sc, a.dest, item, NO_FLAGS);
    }
  }

  /** The redirecting loop of `internalMoveItem`. */
  method FindDestination(w: ItemWorld, stackCumulatives: bool, to: Id, index0: int, item: Id, flags0: Flags)
    returns (dest: Id, index: int, toItem: Option<Id>, flags: Flags)
    requires w.Ok() && to in w.items && item in w.items
    ensures (Aim(dest, index, toItem), flags) ==
      Follow(w.items, stackCumulatives, to, index0, item, flags0, MAP_MAX_LAYERS)
  {
    dest, index, flags, toItem := to, index0, flags0, None;
    var floorN := 0;
    while true
      invariant 0 <= floorN < MAP_MAX_LAYERS && dest in w.items
      invariant Follow(w.items, stackCumulatives, dest, index, item, flags, MAP_MAX_LAYERS - floorN)
        == Follow(w.items, stackCumulatives, to, index0, item, flags0, MAP_MAX_LAYERS)
      decreases MAP_MAX_LAYERS - floorN
    {
      var sub;
      sub, index, toItem := QueryDestination(w, stackCumulatives, dest, index, item, flags);
      if sub == dest {
        return;
      }
      dest, flags := sub, NO_FLAGS;
      floorN := floorN + 1;
      if floorN >= MAP_MAX_LAYERS {
        return;
      }
    }
  }

  // ---- Game::internalMoveItem ---------------------------------------------------

  /** A call of `internalMoveItem`. */
  datatype Call = Call(sc: bool, from: Id, to: Id, index: int, item: Id, count: nat, flags: Flags,
    tradeItem: Option<Id>)

  ghost predicate CallOk(t: Table, h: Heights, call: Call) {
    && IsForest(t, h) && (forall x :: x in t ==> StackOk(t[x]))
    && call.from in t && call.to in t && call.item in t && t[call.to].isContainer && !call.flags.childIsOwner
  }

  ghost predicate TradeClear(t: Table, h: Heights, dest: Id, tradeItem: Option<Id>)
    requires IsForest(t, h) && dest in t
  {
    tradeItem.Some? ==> tradeItem.value !in Around(dest, t, h)
  }

  /** What every call answers, and what it is going to do: nothing if `m` is 0. */
  ghost function PlanOf(t: Table, h: Heights, call: Call): (ReturnValue, Plan)
    requires CallOk(t, h, call)
  {
    var Call(sc, from, to, index, item, count, flags, tradeItem) := call;
    var (a, fl) := Follow(t, sc, to, index, item, flags, MAP_MAX_LAYERS);
    var idle := Plan(a.dest, a.index, a.toItem, fl, 0);
    var max := MaxCount(t, h, a.dest, a.index, item, count, fl);
    var m := if t[item].kind.stackable then Min(count, max) else max;
    var addable, room, removable :=
      AddVerdict(t, h, a.dest, a.index, item, fl), MaxVerdict(t[item], max, count, fl),
        RemoveVerdict(t, from, item, m, fl);
    if a.toItem == Some(item) then (NoError, idle)
    else if addable != NoError then (addable, idle)
    else if room != NoError && max == 0 then (room, idle)
    else if removable != NoError then (removable, idle)
    else if !TradeClear(t, h, a.dest, tradeItem) then (NotEnoughRoom, idle)
    else (if t[item].kind.stackable && max < count then room else NoError, idle.(m := m))
  }

  /** The checks of `internalMoveItem`, up to the first change. */
  method PlanMove(w: ItemWorld, call: Call) returns (r: ReturnValue, p: Plan)
    requires w.Ok() && CallOk(w.items, w.height, call)
    ensures (r, p) == PlanOf(w.items, w.height, call)
  {
    var Call(sc, from, to, index0, item, count, flags0, tradeItem) := call;
    var dest, index, toItem, flags := FindDestination(w, sc, to, index0, item, flags0);
    FollowSettles(w.items, w.height, sc, to, index0, item, flags0);
    p := Plan(dest, index, toItem, flags, 0);
    if toItem == Some(item) {
      return NoError, p;
    }
    r := QueryAdd(w, dest, index, item, flags);
    if r != NoError {
      return;
    }
    var retMaxCount, maxQueryCount := QueryMaxCount(w, dest, index, item, count, flags);
    if retMaxCount != NoError && maxQueryCount == 0 {
      return retMaxCount, p;
    }
    var m := if w.items[item].kind.stackable then Min(count, maxQueryCount) else maxQueryCount;
    r := QueryRemove(w, from, item, m, flags);
    if r != NoError {
      return;
    }
    if tradeItem.Some? {
      var around := IsAround(w, dest, tradeItem.value);
      if around {
        return NotEnoughRoom, p;
      }
    }
    p := Plan(dest, index, toItem, flags, m);
    if w.items[item].kind.stackable && maxQueryCount < count {
      r := retMaxCount;
    }
  }

  /** Whatever is going to be done is sound. */
  lemma {:induction false} PlanIsSound(t: Table, h: Heights, call: Call)
    requires CallOk(t, h, call) && PlanOf(t, h, call).1.m > 0
    ensures Sound(t, h, call.from, call.item, call.count, PlanOf(t, h, call).1)
  {
    FollowSettles(t, h, call.sc, call.to, call.index, call.item, call.flags);
  }

  lemma {:induction false} PlanIsReady(t: Table, h: Heights, call: Call)
    requires CallOk(t, h, call) && PlanOf(t, h, call).1.m > 0
    ensures Ready(t, h, call.from, call.item, PlanOf(t, h, call).1)
  {
    PlanIsSound(t, h, call);
    FollowSettles(t, h, call.sc, call.to, call.index, call.item, call.flags);
    SoundIsReady(t, h, call.from, call.item, call.count, PlanOf(t, h, call).1);
  }

  /** When a call moves something: for every call, exactly if the place it is sent to is not
      the item itself, takes it, has room, and is not inside the traded item, and `from` gives
      that many up. Only a call that sends the item to its own place moves nothing and still
      reports no error. */
  lemma {:induction false} MovesExactly(t: Table, h: Heights, call: Call)
    requires CallOk(t, h, call)
    ensures var (a, fl) := Follow(t, call.sc, call.to, call.index, call.item, call.flags, MAP_MAX_LAYERS);
      var (r, p) := PlanOf(t, h, call);
      var e, max := t[call.item], MaxCount(t, h, a.dest, a.index, call.item, call.count, fl);
      && (p.m > 0 <==>
            && a.toItem != Some(call.item)
            && e.kind.pickupable && call.item !in Around(a.dest, t, h)
            && (fl.noLimit || a.index != WHEREEVER || FreeSlots(t[a.dest]) > 0) && max > 0
            && call.item in t[call.from].itemlist && (e.kind.moveable || fl.ignoreNotMoveable)
            && (e.kind.stackable ==> 0 < call.count && (call.count <= e.count || max <= e.count))
            && TradeClear(t, h, a.dest, call.tradeItem))
      && (p.m == 0 && r == NoError <==> a.toItem == Some(call.item))
      && (p.m > 0 ==>
            && p.dest == a.dest && p.index == a.index && p.toItem == a.toItem
            && p.m == (if e.kind.stackable then Min(call.count, max) else max)
            && r == if e.kind.stackable && p.m < call.count then ContainerNotEnoughRoom else NoError)
  {
    FollowSettles(t, h, call.sc, call.to, call.index, call.item, call.flags);
  }

  /** What carrying out a plan needs. */
  ghost predicate Ready(t: Table, h: Heights, from: Id, item: Id, p: Plan)
    requires IsForest(t, h)
  {
    && from in t && item in t && p.dest in t && p.m > 0 && from != item
    && t[p.dest].isContainer && item in t[from].itemlist && item !in Around(p.dest, t, h)
    && (t[item].kind.stackable ==> p.m <= t[item].count)
    && (p.toItem.Some? ==> p.toItem.value in t && p.toItem.value in t[p.dest].itemlist && p.toItem.value != item)
  }

  lemma {:induction false} SoundIsReady(t: Table, h: Heights, from: Id, item: Id, count: nat, p: Plan)
    requires IsForest(t, h) && item in t && from in t && Sound(t, h, from, item, count, p) && !p.flags.childIsOwner
    ensures Ready(t, h, from, item, p)
  {
    assert Linked(from, t, h) && Linked(item, t, h);
  }

  /** The changing half of `internalMoveItem`. */
  method CarryOut(w: ItemWorld, from: Id, item: Id, p: Plan) returns (moveItem: Option<Id>)
    requires w.Ok() && Ready(w.items, w.height, from, item, p)
    modifies w
    ensures w.Ok() && old(w.nextId) !in old(w.items) && p.dest != item
    ensures w.items == Outcome(old(w.items), from, item, p, old(w.nextId))
    ensures moveItem == Moved(old(w.items), item, p, old(w.nextId))
  {
    if w.items[item].kind.stackable {
      moveItem := MoveStack(w, from, p.dest, p.index, item, p.m, p.toItem);
    } else {
      MoveWhole(w, from, p.dest, p.index, item, p.m);
      moveItem := Some(item);
    }
  }

  /** What a call answers, and the table it leaves; `id` is the next free number. */
  ghost function Result(t: Table, h: Heights, call: Call, id: Id): (ReturnValue, Table)
    requires CallOk(t, h, call) && id !in t
  {
    var (r, p) := PlanOf(t, h, call);
    if p.m == 0 then (r, t)
    else
      PlanIsReady(t, h, call);
      (r, Outcome(t, call.from, call.item, p, id))
  }

  /** `Game::internalMoveItem` for container cylinders. */
  method InternalMoveItem(w: ItemWorld, call: Call) returns (r: ReturnValue, moveItem: Option<Id>)
    requires w.Ok() && CallOk(w.items, w.height, call)
    modifies w
    ensures w.Ok() && old(w.nextId) !in old(w.items)
    ensures (r, w.items) == Result(old(w.items), old(w.height), call, old(w.nextId))
    ensures var (answer, p) := PlanOf(old(w.items), old(w.height), call);
      && r == answer
      && (p.m == 0 ==> w.items == old(w.items) && moveItem == None)
      && (p.m > 0 ==>
            && Ready(old(w.items), old(w.height), call.from, call.item, p) && old(w.nextId) !in old(w.items)
            && w.items == Outcome(old(w.items), call.from, call.item, p, old(w.nextId))
            && moveItem == Moved(old(w.items), call.item, p, old(w.nextId)))
  {
    var plan;
    r, plan := PlanMove(w, call);
    moveItem := None;
    if plan.m > 0 {
      PlanIsReady(w.items, w.height, call);
      moveItem := CarryOut(w, call.from, call.item, plan);
    }
  }

  /** The item that ends up in the destination, unless all units went into a stack there. */
  ghost function Moved(t: Table, item: Id, p: Plan, id: Id): Option<Id>
    requires item in t
  {
    if !t[item].kind.stackable then Some(item)
    else if p.m == Absorbed(t, item, p.toItem, p.m) then None
    else Some(id)
  }

  // ---- what every move keeps --------------------------------------------------------

  /** A full container only ever tops up. */
  lemma FullOnlyTopsUp(t: Table, h: Heights, from: Id, item: Id, count: nat, p: Plan)
    requires IsForest(t, h) && item in t && from in t && t[item].kind.stackable
    requires Sound(t, h, from, item, count, p) && !p.flags.noLimit && !p.flags.childIsOwner && FreeSlots(t[p.dest]) == 0
    ensures p.m == Absorbed(t, item, p.toItem, p.m)
  {
  }

  /** The one way a move loses units: limits are off, the first stack to merge with sits
      beyond the capacity of an overfull container, and it cannot take everything. */
  predicate Spills(t: Table, call: Call)
    requires call.to in t && call.item in t
  {
    var list := t[call.to].itemlist;
    && call.flags.noLimit && call.index != MOVE_UP && AutoStacks(t, call.sc, call.to, call.item, call.flags)
    && var n := FirstPartner(list, call.item, t);
       n < |list| && n >= t[call.to].maxSize && t[list[n]].count + call.count > 100
  }

  lemma {:induction false} SpillPlan(t: Table, h: Heights, call: Call)
    requires CallOk(t, h, call) && PlanOf(t, h, call).1.m > 0
    ensures var p := PlanOf(t, h, call).1;
      Spills(t, call) <==>
        && t[call.item].kind.stackable && p.m != Absorbed(t, call.item, p.toItem, p.m)
        && p.index >= t[p.dest].maxSize
  {
    FollowSettles(t, h, call.sc, call.to, call.index, call.item, call.flags);
    var p := PlanOf(t, h, call).1;
    PlanIsSound(t, h, call);
    if p.index >= t[p.dest].maxSize && p.toItem.Some? {
      assert Partner(p.toItem.value, call.item, t);
    }
  }

  /** What carrying out a sound plan keeps, whatever is counted. */
  lemma {:induction false} OutcomeKeeps(t: Table, h: Heights, from: Id, item: Id, count: nat, p: Plan, id: Id,
                                        f: Measure)
    requires IsForest(t, h) && item in t && from in t && StackOk(t[item]) && id !in t
    requires Sound(t, h, from, item, count, p) && !p.flags.childIsOwner && Ready(t, h, from, item, p)
    ensures var t' := Outcome(t, from, item, p, id);
      && Total(t', f) == Total(t, f)
      && (NoStrays(t, t') <==>
            !(t[item].kind.stackable && p.m != Absorbed(t, item, p.toItem, p.m) && p.index >= t[p.dest].maxSize))
      && (!p.flags.noLimit ==> WithinCapacity(t, t'))
  {
    if t[item].kind.stackable {
      MovedStackTotal(t, from, p.dest, p.index, item, p.m, p.toItem, id, f);
      MovedStackShape(t, from, p.dest, p.index, item, p.m, p.toItem, id);
      if !p.flags.noLimit && FreeSlots(t[p.dest]) == 0 { FullOnlyTopsUp(t, h, from, item, count, p); }
    } else {
      MovedWholeTotal(t, from, p.dest, p.index, item, f);
      MovedWholeShape(t, from, p.dest, p.index, item);
    }
  }

  /** What every call keeps, whatever is counted: nothing is made or lost, lists stay within
      capacity unless limits are off, and nothing strays if and only if the call does not spill. */
  lemma {:induction false} MoveKeeps(t: Table, h: Heights, call: Call, id: Id, f: Measure)
    requires CallOk(t, h, call) && PlanOf(t, h, call).1.m > 0 && id !in t
    ensures var p := PlanOf(t, h, call).1;
      && Ready(t, h, call.from, call.item, p)
      && var t' := Outcome(t, call.from, call.item, p, id);
      && Total(t', f) == Total(t, f)
      && (NoStrays(t, t') <==> !Spills(t, call))
      && (!p.flags.noLimit ==> WithinCapacity(t, t'))
  {
    PlanIsSound(t, h, call);
    SpillPlan(t, h, call);
    PlanIsReady(t, h, call);
    OutcomeKeeps(t, h, call.from, call.item, call.count, PlanOf(t, h, call).1, id, f);
  }

  const COIN := ItemType(3031, 10, true, true, true, false, 0, 0, 0, false)
  const BAG := ItemType(1987, 800, false, true, true, false, 0, 0, 0, false)

  /** Container 2 is overfull: it has room for one, and lists a bag and a stack of 99 coins. */
  const OVERFULL: Table := map[
    1 := Entry(BAG, 1, None, None, true, 8, [3]),
    2 := Entry(BAG, 1, None, None, true, 1, [4, 5]),
    3 := Entry(COIN, 5, None, Some(1), false, 0, []),
    4 := Entry(BAG, 1, None, Some(2), true, 8, []),
    5 := Entry(COIN, 99, None, Some(2), false, 0, [])]

  const LEVELS: Heights := map[1 := 2, 2 := 2, 3 := 0, 4 := 1, 5 := 0]

  lemma OverfullIsForest()
    ensures IsForest(OVERFULL, LEVELS) && forall x :: x in OVERFULL ==> StackOk(OVERFULL[x])
    ensures Around(2, OVERFULL, LEVELS) == {2}
  {
    forall x | x in OVERFULL ensures Linked(x, OVERFULL, LEVELS) {}
  }

  /** A spill happens: five coins go, limits off, to an overfull container whose stack of
      99 equal coins sits beyond its capacity; one coin merges and four are lost. */
  lemma SpillExample()
    ensures var call := Call(true, 1, 2, WHEREEVER, 3, 5, Flags(true, false, false, false), None);
      && CallOk(OVERFULL, LEVELS, call) && Spills(OVERFULL, call)
      && PlanOf(OVERFULL, LEVELS, call) == (NoError, Plan(2, 1, Some(5), call.flags, 5))
  {
    var t, call := OVERFULL, Call(true, 1, 2, WHEREEVER, 3, 5, Flags(true, false, false, false), None);
    OverfullIsForest();
    var list := t[2].itemlist;
    assert !Partner(list[0], 3, t) && Partner(list[1], 3, t);
    assert FirstPartner(list, 3, t) == 1;
    assert Destination(t, true, 2, WHEREEVER, 3, call.flags) == Aim(2, 1, Some(5));
  }
}
