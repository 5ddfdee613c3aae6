/** What a container answers before anything moves (the query operations of
    container.cpp), for containers whose outermost holder is itself a container. */
module Queries {
  import opened Items
  import opened Forest
  import opened Containers
  import opened Options

  datatype ReturnValue =
    | NoError | NotPossible | CannotPickup | ThisIsImpossible | ContainerNotEnoughRoom
    | NotMoveable | NotEnoughRoom

  datatype Flags = Flags(noLimit: bool, childIsOwner: bool, ignoreAutoStack: bool, ignoreNotMoveable: bool)

  const NO_FLAGS := Flags(false, false, false, false)
  const WHEREEVER: int := -1

  ghost function AddVerdict(t: Table, h: Heights, c: Id, index: int, item: Id, flags: Flags): ReturnValue
    requires IsForest(t, h) && c in t && item in t
  {
    if flags.childIsOwner then NoError
    else if !t[item].kind.pickupable then CannotPickup
    else if item in Around(c, t, h) then ThisIsImpossible
    else if !flags.noLimit && index == WHEREEVER && |t[c].itemlist| >= t[c].maxSize then ContainerNotEnoughRoom
    else NoError
  }

  /** `Container::queryAdd`. */
  method QueryAdd(w: ItemWorld, c: Id, index: int, item: Id, flags: Flags) returns (r: ReturnValue)
    requires IsForest(w.items, w.height) && c in w.items && item in w.items
    ensures r == AddVerdict(w.items, w.height, c, index, item, flags)
  {
    if flags.childIsOwner {
      return NoError;
    }
    if !w.items[item].kind.pickupable {
      return CannotPickup;
    }
    var around := IsAround(w, c, item);
    if around {
      return ThisIsImpossible;
    }
    if !flags.noLimit && index == WHEREEVER && |w.items[c].itemlist| >= w.items[c].maxSize {
      return ContainerNotEnoughRoom;
    }
    return NoError;
  }

  /** The walk up the parents that several checks repeat. */
  method IsAround(w: ItemWorld, c: Id, x: Id) returns (b: bool)
    requires IsForest(w.items, w.height) && c in w.items
    ensures b <==> x in Around(c, w.items, w.height)
  {
    if c == x {
      return true;
    }
    ghost var y := c;
    assert Linked(c, w.items, w.height);
    var cylinder := w.items[c].parent;
    while cylinder.Some?
      invariant y in w.items && w.items[y].parent == cylinder && Linked(y, w.items, w.height)
      invariant x in Around(c, w.items, w.height) <==> x in Around(y, w.items, w.height)
      invariant x != y
      decreases Above(w.height[y], w.height)
    {
      var p := cylinder.value;
      assert p in Above(w.height[y], w.height) && p !in Above(w.height[p], w.height);
      if p == x {
        return true;
      }
      y := p;
      assert Linked(y, w.items, w.height);
      cylinder := w.items[p].parent;
    }
    return false;
  }

  /** `y` can take units of `item`: another entry, equal, and not yet full. */
  predicate Partner(y: Id, item: Id, t: Table) {
    y != item && y in t && item in t && Equals(t[y], t[item]) && t[y].count < 100
  }

  function StackRoom(list: seq<Id>, item: Id, t: Table): nat {
    if list == [] then 0
    else StackRoom(list[..|list| - 1], item, t) +
         (if Partner(list[|list| - 1], item, t) then 100 - t[list[|list| - 1]].count else 0)
  }

  function FreeSlots(e: Entry): nat {
    if |e.itemlist| < e.maxSize then e.maxSize - |e.itemlist| else 0
  }

  /** How many units of `item` fit. */
  ghost function MaxCount(t: Table, h: Heights, c: Id, index: int, item: Id, count: nat, flags: Flags): nat
    requires IsForest(t, h) && c in t && item in t
  {
    var e := t[c];
    if flags.noLimit then (if count < 1 then 1 else count)
    else if !t[item].kind.stackable then FreeSlots(e)
    else
      FreeSlots(e) * 100 +
      if AddVerdict(t, h, c, 0, item, flags) != NoError then 0
      else if index == WHEREEVER then StackRoom(e.itemlist, item, t)
      else if 0 <= index < |e.itemlist| && e.itemlist[index] in t
        && Equals(t[item], t[e.itemlist[index]]) && t[e.itemlist[index]].count < 100
        then 100 - t[e.itemlist[index]].count
      else 0
  }

  function MaxVerdict(e: Entry, max: nat, count: nat, flags: Flags): ReturnValue {
    if flags.noLimit || (if e.kind.stackable then max >= count else max > 0) then NoError else ContainerNotEnoughRoom
  }

  /** `Container::queryMaxCount`. */
  method QueryMaxCount(w: ItemWorld, c: Id, index: int, item: Id, count: nat, flags: Flags)
    returns (r: ReturnValue, max: nat)
    requires IsForest(w.items, w.height) && c in w.items && item in w.items
    ensures max == MaxCount(w.items, w.height, c, index, item, count, flags)
    ensures r == MaxVerdict(w.items[item], max, count, flags)
  {
    assert Linked(c, w.items, w.height);
    if flags.noLimit {
      return NoError, if count < 1 then 1 else count;
    }
    var list, freeSlots := w.items[c].itemlist, FreeSlots(w.items[c]);
    if !w.items[item].kind.stackable {
      return if freeSlots == 0 then ContainerNotEnoughRoom else NoError, freeSlots;
    }
    var n := 0;
    if index == WHEREEVER {
      var i, slotIndex := 0, 0;
      while i < |list|
        invariant 0 <= i <= |list| && slotIndex >= 0
        invariant n ==
          if AddVerdict(w.items, w.height, c, 0, item, flags) == NoError then StackRoom(list[..i], item, w.items) else 0
      {
        assert list[..i + 1][..i] == list[..i];
        if Partner(list[i], item, w.items) {
          var verdict := QueryAdd(w, c, slotIndex, item, flags);
          slotIndex := slotIndex + 1;
          if verdict == NoError {
            n := n + (100 - w.items[list[i]].count);
          }
        }
        i := i + 1;
      }
      assert list[..i] == list;
    } else if 0 <= index < |list| && Equals(w.items[item], w.items[list[index]]) && w.items[list[index]].count < 100 {
      var verdict := QueryAdd(w, c, index, item, flags);
      if verdict == NoError {
        n := 100 - w.items[list[index]].count;
      }
    }
    max := freeSlots * 100 + n;
    r := if max < count then ContainerNotEnoughRoom else NoError;
  }

  function RemoveVerdict(t: Table, c: Id, item: Id, count: nat, flags: Flags): ReturnValue
    requires c in t && item in t
  {
    var e := t[item];
    if item !in t[c].itemlist || count == 0 || (e.kind.stackable && count > e.count) then NotPossible
    else if !e.kind.moveable && !flags.ignoreNotMoveable then NotMoveable
    else NoError
  }

  /** `Container::queryRemove`. */
  method QueryRemove(w: ItemWorld, c: Id, item: Id, count: nat, flags: Flags) returns (r: ReturnValue)
    requires c in w.items && item in w.items
    ensures r == RemoveVerdict(w.items, c, item, count, flags)
  {
    var index := w.GetThingIndex(c, item);
    if index == -1 {
      return NotPossible;
    }
    if count == 0 || (w.items[item].kind.stackable && count > w.items[item].count) {
      return NotPossible;
    }
    if !w.items[item].kind.moveable && !flags.ignoreNotMoveable {
      return NotMoveable;
    }
    return NoError;
  }

  // ---- where an item goes --------------------------------------------------------

  /** The first search for a stack to merge with only happens under these settings. */
  predicate AutoStacks(t: Table, stackCumulatives: bool, c: Id, item: Id, flags: Flags)
    requires item in t
  {
    stackCumulatives && !flags.ignoreAutoStack && t[item].kind.stackable && t[item].parent != Some(c)
  }

  /** The position of the first entry that can take units of `item`. */
  function FirstPartner(list: seq<Id>, item: Id, t: Table): (n: nat)
    ensures n <= |list| && forall k :: 0 <= k < n ==> !Partner(list[k], item, t)
    ensures n < |list| ==> Partner(list[n], item, t)
  {
    if list == [] then 0
    else if Partner(list[0], item, t) then 0
    else
      var n := FirstPartner(list[1..], item, t);
      assert forall k :: 0 < k < n + 1 ==> list[k] == list[1..][k - 1];
      n + 1
  }

  /** The container, the position in it, and the item already there. */
  datatype Aim = Aim(dest: Id, index: int, toItem: Option<Id>)

  const MOVE_UP := 254
  const ADD_WHEREEVER := 255

  /** Where `queryDestination` sends `item` from container `c`: up, to a stack it merges
      with, into a container at the position, or to the position itself. */
  function Destination(t: Table, stackCumulatives: bool, c: Id, index: int, item: Id, flags: Flags): (a: Aim)
    requires c in t && item in t
    ensures a.dest in t
  {
    var list := t[c].itemlist;
    var index' := if index == ADD_WHEREEVER || index >= t[c].maxSize then WHEREEVER else index;
    var n := if AutoStacks(t, stackCumulatives, c, item, flags) then FirstPartner(list, item, t) else |list|;
    if index == MOVE_UP then
      Aim(if t[c].parent.Some? && t[c].parent.value in t then t[c].parent.value else c, WHEREEVER, None)
    else if n < |list| then Aim(c, n, Some(list[n]))
    else if 0 <= index' < |list| && list[index'] in t && t[list[index']].isContainer then
      Aim(list[index'], WHEREEVER, None)
    else Aim(c, index', if 0 <= index' < |list| then Some(list[index']) else None)
  }

  /** A destination `queryDestination` can settle on: an item is named exactly when
      the index names its position, and that item is either a stack partner or no
      container; otherwise the index is in range or "wherever". */
  ghost predicate Settled(t: Table, c: Id, index: int, toItem: Option<Id>, item: Id) {
    && c in t && t[c].isContainer
    && (toItem.Some? ==>
          && 0 <= index < |t[c].itemlist| && t[c].itemlist[index] == toItem.value
          && toItem.value in t && !t[toItem.value].isContainer
          && (index < t[c].maxSize || (Partner(toItem.value, item, t) && t[toItem.value].kind.stackable)))
    && (toItem == None ==> index == WHEREEVER || (|t[c].itemlist| <= index < t[c].maxSize) || index < 0)
  }

  ghost predicate FirstPartnerAt(t: Table, list: seq<Id>, n: int, item: Id) {
    0 <= n < |list| && Partner(list[n], item, t) && forall k :: 0 <= k < n ==> !Partner(list[k], item, t)
  }

  /** Either a container keeps the item for itself, or it sends it on: to the container
      around it or to one it lists. */
  lemma {:induction false} DestinationSettles(t: Table, h: Heights, sc: bool, c: Id, index: int, item: Id, flags: Flags)
    requires IsForest(t, h) && (forall x :: x in t ==> StackOk(t[x])) && c in t && item in t && t[c].isContainer
    ensures var a := Destination(t, sc, c, index, item, flags);
      && t[a.dest].isContainer
      && (a.dest == c ==> Settled(t, c, a.index, a.toItem, item))
      && (a.dest != c ==>
            && a.index == WHEREEVER && a.toItem == None
            && (t[c].parent == Some(a.dest) || t[a.dest].parent == Some(c)))
  {
    assert Linked(c, t, h);
    if t[c].parent.Some? { assert Linked(t[c].parent.value, t, h); }
  }

  /** With an index of "wherever" the container keeps the item, and only a stack to merge
      with gives it a position. */
  lemma {:induction false} DestinationWherever(t: Table, sc: bool, c: Id, item: Id, flags: Flags)
    requires c in t && item in t
    ensures var a := Destination(t, sc, c, WHEREEVER, item, flags);
      && a.dest == c
      && (a.toItem == None ==> a.index == WHEREEVER)
      && (a.toItem.Some? ==>
            && AutoStacks(t, sc, c, item, flags) && FirstPartnerAt(t, t[c].itemlist, a.index, item)
            && t[c].itemlist[a.index] == a.toItem.value)
      && (a.toItem == None && AutoStacks(t, sc, c, item, flags) ==>
         forall y :: y in t[c].itemlist ==> !Partner(y, item, t))
  {
  }

  /** `Container::queryDestination`; `stackCumulatives` is the server option. */
  method QueryDestination(w: ItemWorld, stackCumulatives: bool, c: Id, index: int, item: Id, flags: Flags)
    returns (d: Id, index': int, toItem: Option<Id>)
    requires w.Ok() && c in w.items && item in w.items
    ensures Aim(d, index', toItem) == Destination(w.items, stackCumulatives, c, index, item, flags)
  {
    assert Linked(c, w.items, w.height);
    index', toItem, d := index, None, c;
    if index == MOVE_UP {
      index' := WHEREEVER;
      if w.items[c].parent.Some? {
        d := w.items[c].parent.value;
      }
      return;
    }
    if index == ADD_WHEREEVER || index >= w.items[c].maxSize {
      index' := WHEREEVER;
    }
    var list := w.items[c].itemlist;
    if stackCumulatives && !flags.ignoreAutoStack && w.items[item].kind.stackable && w.items[item].parent != Some(c) {
      var n := 0;
      while n < |list|
        invariant 0 <= n <= |list|
        invariant forall k :: 0 <= k < n ==> !Partner(list[k], item, w.items)
      {
        if Partner(list[n], item, w.items) {
          return c, n, Some(list[n]);
        }
        n := n + 1;
      }
    }
    if 0 <= index' < |list| {
      toItem := Some(list[index']);
      if w.items[list[index']].isContainer {
        return list[index'], WHEREEVER, None;
      }
    }
  }
}
