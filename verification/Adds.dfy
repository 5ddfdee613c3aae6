/** Adding an item to a container wherever it fits (`Game::internalAddItem`), and
    removing one (`Game::internalRemoveItem`). */
module Adds {
  import opened Items
  import opened Forest
  import opened Containers
  import opened Options
  import opened Queries
  import opened Counting
  import opened Moves
  import Places

  /** Whether the container takes all of `item`. */
  ghost predicate Accepts(t: Table, h: Heights, stackCumulatives: bool, c: Id, item: Id, flags: Flags)
    requires IsForest(t, h) && c in t && item in t
  {
    && t[item].kind.pickupable && item !in Around(c, t, h)
    && (!flags.noLimit ==>
          if t[item].kind.stackable
          then
            && FreeSlots(t[c]) * 100 + StackRoom(t[c].itemlist, item, t) >= t[item].count
            && (FreeSlots(t[c]) > 0 ||
                (AutoStacks(t, stackCumulatives, c, item, flags) &&
                 exists y :: y in t[c].itemlist && Partner(y, item, t)))
          else FreeSlots(t[c]) > 0)
  }

  /** The stacks in `c` that are of the same row and attributes as `item` and not full. */
  ghost function Joinable(t: Table, list: seq<Id>, item: Id): set<Id> {
    set y | y in list && Places.Joins(t, item, y)
  }

  function One(s: Sort): nat { 1 }

  lemma {:induction false} OneMoreJoinable(t: Table, list: seq<Id>, item: Id)
    requires item in t && list != [] && forall j, k :: 0 <= j < k < |list| ==> list[j] != list[k]
    ensures var front, y := list[..|list| - 1], list[|list| - 1];
      && Joinable(t, list, item) == Joinable(t, front, item) + (if Partner(y, item, t) then {y} else {})
      && y !in Joinable(t, front, item)
  {
    assert list == list[..|list| - 1] + [list[|list| - 1]];
  }

  lemma {:induction false} OneMoreLacks(t: Table, joins: set<Id>, y: Id)
    requires y !in joins && y in t && t[y].kind.stackable
    ensures Over(joins + {y}, t, One) == Over(joins, t, One) + t[y].count
  {
    OverSplit(joins + {y}, y, t, One);
    assert joins + {y} - {y} == joins;
    TimesIsProduct(t[y].count, 1);
  }

  lemma {:induction false} RoomIsLacking(t: Table, list: seq<Id>, item: Id)
    requires item in t && t[item].kind.stackable
    requires forall j, k :: 0 <= j < k < |list| ==> list[j] != list[k]
    ensures StackRoom(list, item, t) + Over(Joinable(t, list, item), t, One) == 100 * |Joinable(t, list, item)|
  {
    if list != [] {
      var front, y := list[..|list| - 1], list[|list| - 1];
      RoomIsLacking(t, front, item);
      OneMoreJoinable(t, list, item);
      var joins := Joinable(t, front, item);
      if Partner(y, item, t) {
        OneMoreLacks(t, joins, y);
        assert |joins + {y}| == |joins| + 1;
      }
    }
  }

  /** Whether a stack is accepted, told from the container: what is free, at 100 for each slot
      and up to 100 for each stack it could join, is enough; and with no slot free there must be
      such a stack, and stacks looked for. */
  lemma {:induction false} AcceptsExactly(t: Table, h: Heights, sc: bool, c: Id, item: Id, flags: Flags)
    requires IsForest(t, h) && c in t && item in t && t[item].kind.stackable
    ensures var joins, e := Joinable(t, t[c].itemlist, item), t[c];
      var slots := if |e.itemlist| < e.maxSize then e.maxSize - |e.itemlist| else 0;
      Accepts(t, h, sc, c, item, flags) <==>
        && t[item].kind.pickupable && item !in Around(c, t, h)
        && (flags.noLimit ||
            (slots * 100 + 100 * |joins| >= t[item].count + Over(joins, t, One)
             && (slots > 0 || (joins != {} && sc && !flags.ignoreAutoStack && t[item].parent != Some(c)))))
  {
    var list := t[c].itemlist;
    assert Linked(c, t, h);
    RoomIsLacking(t, list, item);
    assert forall y :: y in list ==> (Partner(y, item, t) <==> y in Joinable(t, list, item));
  }

  /** Stacks in `c` that `item` can merge with may have grown; everything else is as it was. */
  ghost predicate Filled(t: Table, t': Table, c: Id, item: Id, x: Id)
    requires c in t && x in t
  {
    && x in t'
    && if x in t[c].itemlist && Partner(x, item, t)
       then t'[x] == t[x].(count := t'[x].count, attrs := t'[x].attrs) && t[x].count <= t'[x].count
       else t'[x] == t[x]
  }

  /** What a successful addition guarantees: `item` is in front in `c`, or its units went into
      stacks there and at most one new stack in front; every total stays, nothing strays, and
      nothing else has changed. */
  ghost predicate Added(t: Table, t': Table, c: Id, item: Id)
    requires c in t && item in t
  {
    && (forall f: Measure :: Total(t', f) == Total(t, f))
    && NoStrays(t, t')
    && (item in t' ==> t'[item] == t[item].(parent := Some(c)))
    && c in t' && t'[c] == t[c].(itemlist := t'[c].itemlist)
    && (t'[c].itemlist == t[c].itemlist || (t'[c].itemlist != [] && t'[c].itemlist[1..] == t[c].itemlist))
    && (forall x :: x in t && x != c && x != item ==> Filled(t, t', c, item, x))
    && (forall x :: x in t' && x !in t ==> t'[x] == Loose(t[item].kind, t'[x].count, t[item].attrs).(parent := Some(c)))
  }

  /** The stack at `k` of the list only grew if those to join before it are full. */
  ghost predicate FullBefore(t: Table, t': Table, list: seq<Id>, item: Id, k: nat)
    requires k < |list|
  {
    Places.Joins(t, item, list[k]) && list[k] in t' && t'[list[k]].count > t[list[k]].count ==>
      forall j :: 0 <= j < k && Places.Joins(t, item, list[j]) ==> list[j] in t' && t'[list[j]].count == 100
  }

  ghost predicate FullAfter(t: Table, t': Table, item: Id, y: Id) {
    Places.Joins(t, item, y) ==> y in t' && t'[y].count == 100
  }

  /** Where the units went. If stacks are looked for, they are filled one after the other in
      the order of the list, and a new entry holds only what is left over when all are full;
      else the whole item is the new entry. */
  ghost predicate Arranged(t: Table, t': Table, c: Id, item: Id, stacks: bool)
    requires c in t && item in t
  {
    var list := t[c].itemlist;
    && c in t'
    && if stacks then
         && (forall k :: 0 <= k < |list| ==> FullBefore(t, t', list, item, k))
         && (t'[c].itemlist != list ==> forall y :: y in list ==> FullAfter(t, t', item, y))
       else t'[c].itemlist == [item] + list
  }

  /** A partner that has been filled up leaves exactly that much less room. */
  lemma {:induction false} RoomAfterFilling(list: seq<Id>, n: nat, item: Id, rest: Id, t: Table, t': Table)
    requires n < |list| && Partner(list[n], item, t) && item in t
    requires forall j, k :: 0 <= j < k < |list| ==> list[j] != list[k]
    requires list[n] in t' && t'[list[n]].count == 100
    requires rest in t' && Equals(t'[rest], t[item]) && item !in list && rest !in list
    requires forall x :: x in list && x != list[n] ==> (x in t' <==> x in t) && (x in t ==> t'[x] == t[x])
    ensures StackRoom(list, rest, t') == StackRoom(list, item, t) - (100 - t[list[n]].count)
  {
    var last := |list| - 1;
    var front := list[..last];
    if n == last {
      RoomSame(front, item, rest, t, t');
    } else {
      RoomAfterFilling(front, n, item, rest, t, t');
    }
  }

  lemma {:induction false} RoomSame(list: seq<Id>, item: Id, rest: Id, t: Table, t': Table)
    requires item in t && rest in t' && Equals(t'[rest], t[item]) && item !in list && rest !in list
    requires forall x :: x in list ==> (x in t' <==> x in t) && (x in t ==> t'[x] == t[x])
    ensures StackRoom(list, rest, t') == StackRoom(list, item, t)
  {
    if list != [] {
      RoomSame(list[..|list| - 1], item, rest, t, t');
    }
  }

  lemma {:induction false} RoomOfNone(list: seq<Id>, item: Id, t: Table)
    requires forall y :: y in list ==> !Partner(y, item, t)
    ensures StackRoom(list, item, t) == 0
  {
    if list != [] { RoomOfNone(list[..|list| - 1], item, t); }
  }

  /** The table once the stack at `n` is full and only the rest of `item` is left. */
  ghost function Merged(t: Table, c: Id, n: nat, item: Id): Table
    requires item in t && c in t && n < |t[c].itemlist|
  {
    Topped(t, item, Some(t[c].itemlist[n]), t[item].count) - {item}
  }

  ghost function WithRest(t: Table, c: Id, n: nat, item: Id, rest: Id): Table
    requires c in t && item in t && FirstPartnerAt(t, t[c].itemlist, n, item)
    requires t[item].count + t[t[c].itemlist[n]].count > 100
  {
    Merged(t, c, n, item)[rest := Loose(t[item].kind, t[item].count + t[t[c].itemlist[n]].count - 100, t[item].attrs)]
  }

  lemma MergedTotal(t: Table, c: Id, n: nat, item: Id, f: Measure)
    requires item in t && c in t && n < |t[c].itemlist|
    requires t[item].kind.stackable && !t[item].kind.fluid
    ensures var taken := Absorbed(t, item, Some(t[c].itemlist[n]), t[item].count);
      taken <= t[item].count && Total(Merged(t, c, n, item), f) + Times(t[item].count - taken, f(SortOf(t[item]))) ==
        Total(t, f)
  {
    var toItem, count := Some(t[c].itemlist[n]), t[item].count;
    ToppedTotal(t, item, toItem, count, f);
    TotalRemove(Topped(t, item, toItem, count), item, f);
    TimesSum(count - Absorbed(t, item, toItem, count), Absorbed(t, item, toItem, count), f(SortOf(t[item])));
  }

  /** If the container took all of `item`, it takes what a full stack left over. */
  lemma MergedAccepts(t: Table, h: Heights, t2: Table, h2: Heights, sc: bool, c: Id, n: nat, item: Id, rest: Id,
                      flags: Flags)
    requires IsForest(t, h) && IsForest(t2, h2) && c in t && item in t && Accepts(t, h, sc, c, item, flags)
    requires AutoStacks(t, sc, c, item, flags) && t[item].parent == None && StackOk(t[item])
    requires FirstPartnerAt(t, t[c].itemlist, n, item) && rest !in t
    requires t[item].count + t[t[c].itemlist[n]].count > 100 && t2 == WithRest(t, c, n, item, rest)
    ensures c in t2 && Accepts(t2, h2, sc, c, rest, flags)
  {
    assert Linked(c, t, h) && Linked(item, t, h);
    var list := t[c].itemlist;
    assert t2[c] == t[c];
    assert forall x :: x in Around(c, t, h) ==> x in t2 && t2[x].parent == t[x].parent;
    AroundSame(c, t, h, t2, h2);
    RoomAfterFilling(list, n, item, rest, t, t2);
    if forall y :: y in list ==> !Partner(y, rest, t2) {
      RoomOfNone(list, rest, t2);
    }
  }

  lemma {:induction false} WithRestTotal(t: Table, t2: Table, c: Id, n: nat, item: Id, rest: Id, f: Measure)
    requires c in t && item in t && c != item && n < |t[c].itemlist| && rest !in t
    requires t[item].kind.stackable && !t[item].kind.fluid && FirstPartnerAt(t, t[c].itemlist, n, item)
    requires t[item].count + t[t[c].itemlist[n]].count > 100 && t2 == WithRest(t, c, n, item, rest)
    ensures Total(t2, f) == Total(t, f)
  {
    MergedTotal(t, c, n, item, f);
    TotalInsert(Merged(t, c, n, item), rest, t2[rest], f);
  }

  /** The rest being added after a merge amounts to `item` being added. */
  lemma {:induction false} AddedOn(t: Table, t2: Table, t3: Table, c: Id, n: nat, item: Id, rest: Id)
    requires c in t && item in t && c != item && n < |t[c].itemlist| && item !in t[c].itemlist && rest !in t
    requires t[item].kind.stackable && !t[item].kind.fluid && t[item].parent == None
    requires FirstPartnerAt(t, t[c].itemlist, n, item)
    requires t[item].count + t[t[c].itemlist[n]].count > 100 && t2 == WithRest(t, c, n, item, rest)
    requires c in t2 && t2[c] == t[c] && Added(t2, t3, c, rest) && item !in t3
    ensures Added(t, t3, c, item)
  {
    forall f: Measure
      ensures Total(t3, f) == Total(t, f)
    {
      WithRestTotal(t, t2, c, n, item, rest, f);
    }
    assert forall x :: x in t2 && x != rest ==> x in t && t2[x].parent == t[x].parent;
    forall x | x in t3 && t3[x].parent == None
      ensures x in t && t[x].parent == None
    {
    }
    forall x | x in t && x != c && x != item
      ensures Filled(t, t3, c, item, x)
    {
      RestLeaves(t, t2, c, n, item, rest, x);
      FilledOn(t, t2, t3, c, n, item, rest, x);
    }
  }

  /** What the merge has left of an item: the one stack is full, the rest as it was. */
  lemma {:induction false} RestLeaves(t: Table, t2: Table, c: Id, n: nat, item: Id, rest: Id, x: Id)
    requires c in t && item in t && c != item && rest !in t && x in t && x != item
    requires t[item].kind.stackable && !t[item].kind.fluid && FirstPartnerAt(t, t[c].itemlist, n, item)
    requires t[item].count + t[t[c].itemlist[n]].count > 100 && t2 == WithRest(t, c, n, item, rest)
    ensures x in t2 && rest in t2 && Equals(t2[rest], t[item])
    ensures x != t[c].itemlist[n] ==> t2[x] == t[x]
    ensures x == t[c].itemlist[n] ==> t2[x] == t[x].(count := 100, attrs := t2[x].attrs)
  {
  }

  lemma {:induction false} FilledOn(t: Table, t2: Table, t3: Table, c: Id, n: nat, item: Id, rest: Id, x: Id)
    requires c in t && item in t && rest !in t && x in t && x != c && x != item
    requires FirstPartnerAt(t, t[c].itemlist, n, item) && c in t2 && t2[c] == t[c]
    requires x in t2 && rest in t2 && Equals(t2[rest], t[item])
    requires x != t[c].itemlist[n] ==> t2[x] == t[x]
    requires x == t[c].itemlist[n] ==> t2[x] == t[x].(count := 100, attrs := t2[x].attrs)
    requires Filled(t2, t3, c, rest, x)
    ensures Filled(t, t3, c, item, x)
  {
  }

  lemma PlacedAdded(t: Table, c: Id, index: int, item: Id)
    requires c in t && item in t && c != item && index < t[c].maxSize && t[item].parent == None
    ensures Added(t, Placed(t, c, index, item), c, item)
  {
    forall f: Measure
      ensures Total(Placed(t, c, index, item), f) == Total(t, f)
    {
      PlacedTotal(t, c, index, item, f);
    }
  }

  lemma MergedAdded(t: Table, c: Id, n: nat, item: Id)
    requires c in t && item in t && c != item && n < |t[c].itemlist| && item !in t[c].itemlist && c !in t[c].itemlist
    requires t[item].kind.stackable && !t[item].kind.fluid && t[item].parent == None
    requires FirstPartnerAt(t, t[c].itemlist, n, item)
    requires t[item].count == Absorbed(t, item, Some(t[c].itemlist[n]), t[item].count)
    ensures Added(t, Merged(t, c, n, item), c, item) && Merged(t, c, n, item).Keys <= t.Keys
  {
    forall f: Measure
      ensures Total(Merged(t, c, n, item), f) == Total(t, f)
    {
      MergedTotal(t, c, n, item, f);
    }
  }

  lemma {:induction false} PlacedArranged(t: Table, c: Id, index: int, item: Id, stacks: bool)
    requires c in t && item in t && c != item && index < t[c].maxSize
    requires stacks ==> forall y :: y in t[c].itemlist ==> !Partner(y, item, t)
    ensures Arranged(t, Placed(t, c, index, item), c, item, stacks)
  {
    assert forall y :: Places.Joins(t, item, y) ==> Partner(y, item, t);
  }

  lemma {:induction false} MergedArranged(t: Table, c: Id, n: nat, item: Id)
    requires c in t && item in t && c != item && n < |t[c].itemlist| && item !in t[c].itemlist && c !in t[c].itemlist
    requires FirstPartnerAt(t, t[c].itemlist, n, item)
    requires forall j, k :: 0 <= j < k < |t[c].itemlist| ==> t[c].itemlist[j] != t[c].itemlist[k]
    ensures Arranged(t, Merged(t, c, n, item), c, item, true)
  {
    var list, t' := t[c].itemlist, Merged(t, c, n, item);
    forall k | 0 <= k < |list|
      ensures FullBefore(t, t', list, item, k)
    {
      assert forall j :: 0 <= j < n ==> !Partner(list[j], item, t);
      assert k != n ==> list[k] != list[n];
    }
  }

  lemma {:induction false} ArrangedOn(t: Table, t2: Table, t3: Table, c: Id, n: nat, item: Id, rest: Id)
    requires c in t && item in t && c != item && item !in t[c].itemlist && c !in t[c].itemlist && rest !in t
    requires t[item].kind.stackable && !t[item].kind.fluid && FirstPartnerAt(t, t[c].itemlist, n, item)
    requires forall j, k :: 0 <= j < k < |t[c].itemlist| ==> t[c].itemlist[j] != t[c].itemlist[k]
    requires forall y :: y in t[c].itemlist ==> y in t
    requires t[item].count + t[t[c].itemlist[n]].count > 100 && t2 == WithRest(t, c, n, item, rest)
    requires c in t2 && rest in t2 && t2[c] == t[c] && Added(t2, t3, c, rest) && Arranged(t2, t3, c, rest, true)
    ensures Arranged(t, t3, c, item, true)
  {
    var list := t[c].itemlist;
    forall k | 0 <= k < |list|
      ensures k != n && Places.Joins(t, item, list[k]) ==> Places.Joins(t2, rest, list[k]) && t2[list[k]] == t[list[k]]
      ensures k == n ==> list[k] in t3 && t3[list[k]].count == 100
    {
      RestLeaves(t, t2, c, n, item, rest, list[k]);
      assert Filled(t2, t3, c, rest, list[k]);
    }
    forall k | 0 <= k < |list|
      ensures FullBefore(t, t3, list, item, k) && (t3[c].itemlist != list ==> FullAfter(t, t3, item, list[k]))
    {
      assert FullBefore(t2, t3, list, rest, k);
      assert t3[c].itemlist != list ==> FullAfter(t2, t3, rest, list[k]);
      if k == n {
        assert forall j :: 0 <= j < n ==> !Partner(list[j], item, t);
      }
    }
  }

  /** `Game::internalAddItem` with INDEX_WHEREEVER. The item object is dropped from
      the table once its units have gone into other stacks. */
  method InternalAddItem(w: ItemWorld, sc: bool, c: Id, item: Id, flags: Flags, test: bool)
    returns (r: ReturnValue, remainderCount: nat)
    requires w.Ok() && c in w.items && w.items[c].isContainer && item in w.items && w.items[item].parent == None
    requires !flags.childIsOwner
    modifies w
    ensures w.Ok() && remainderCount == 0
    ensures r == NoError <==> Accepts(old(w.items), old(w.height), sc, c, item, flags)
    ensures r != NoError || test ==> w.items == old(w.items)
    ensures r == NoError && !test ==> Added(old(w.items), w.items, c, item)
    ensures r == NoError && !test ==>
      Arranged(old(w.items), w.items, c, item, sc && !flags.ignoreAutoStack && old(w.items[item].kind.stackable))
    ensures r == NoError && !test ==> Roomy(old(w.items), w.items, c, flags)
    ensures w.nextId >= old(w.nextId) && forall x :: x in w.items && x !in old(w.items) ==> x >= old(w.nextId)
    decreases w.items[item].count, 2
  {
    remainderCount := 0;
    var index, toItem;
    r, index, toItem := CheckAdd(w, sc, c, item, flags);
    if r != NoError || test {
      return;
    }
    if toItem.Some? {
      AddByMerging(w, sc, c, item, flags, index);
    } else {
      assert Linked(c, w.items, w.height);
      PlacedAdded(w.items, c, index, item);
      PlacedArranged(w.items, c, index, item, sc && !flags.ignoreAutoStack && w.items[item].kind.stackable);
      w.AddThing(c, index, item);
    }
  }

  /** The merging branch of `internalAddItem`, with its call for the rest. */
  method AddByMerging(w: ItemWorld, sc: bool, c: Id, item: Id, flags: Flags, index: nat)
    requires w.Ok() && c in w.items && w.items[c].isContainer && item in w.items && w.items[item].parent == None
    requires !flags.childIsOwner && AutoStacks(w.items, sc, c, item, flags)
    requires Accepts(w.items, w.height, sc, c, item, flags) && FirstPartnerAt(w.items, w.items[c].itemlist, index, item)
    modifies w
    ensures w.Ok()
    ensures Added(old(w.items), w.items, c, item) && Roomy(old(w.items), w.items, c, flags)
    ensures Arranged(old(w.items), w.items, c, item, true)
    ensures w.nextId >= old(w.nextId) && forall x :: x in w.items && x !in old(w.items) ==> x >= old(w.nextId)
    decreases w.items[item].count, 1
  {
    ghost var t, h := w.items, w.height;
    Unlisted(c, item, t, h);
    var rest := MergeFirst(w, c, index, item);
    if rest.Some? {
      AddRest(w, sc, c, item, flags, index, rest.value, t, h);
    } else {
      MergedAdded(t, c, index, item);
      MergedArranged(t, c, index, item);
    }
  }

  /** The call for the rest of `item`; it succeeds because all of `item` would have fitted. */
  method AddRest(w: ItemWorld, sc: bool, c: Id, ghost item: Id, flags: Flags, ghost index: nat, rest: Id,
                 ghost t: Table, ghost h: Heights)
    requires w.Ok() && IsForest(t, h) && c in t && item in t && t[item].parent == None && StackOk(t[item])
    requires t[c].isContainer && item !in t[c].itemlist && c !in t[c].itemlist && !flags.childIsOwner
    requires AutoStacks(t, sc, c, item, flags) && Accepts(t, h, sc, c, item, flags)
    requires FirstPartnerAt(t, t[c].itemlist, index, item)
    requires t[item].count + t[t[c].itemlist[index]].count > 100 && item < w.nextId && rest !in t
    requires w.items == WithRest(t, c, index, item, rest)
    modifies w
    ensures w.Ok() && Added(t, w.items, c, item) && Roomy(t, w.items, c, flags)
    ensures Arranged(t, w.items, c, item, true)
    ensures w.nextId >= old(w.nextId) && forall x :: x in w.items && x !in t ==> x >= rest
    decreases t[item].count, 0
  {
    ghost var t2 := w.items;
    MergedAccepts(t, h, t2, w.height, sc, c, index, item, rest, flags);
    RestShape(t, c, index, item, rest);
    var _, _ := InternalAddItem(w, sc, c, rest, flags, false);
    RestDone(t, h, t2, w.items, c, index, item, rest);
  }

  lemma RestShape(t: Table, c: Id, n: nat, item: Id, rest: Id)
    requires c in t && item in t && FirstPartnerAt(t, t[c].itemlist, n, item) && c != item && rest !in t
    requires item !in t[c].itemlist && c !in t[c].itemlist
    requires t[item].count + t[t[c].itemlist[n]].count > 100
    ensures var t2 := WithRest(t, c, n, item, rest);
      t2.Keys <= t.Keys + {rest} && c in t2 && t2[c] == t[c] && rest in t2
        && t2[rest].parent == None && t2[rest].count < t[item].count && item !in t2
  {
  }

  lemma Unlisted(c: Id, item: Id, t: Table, h: Heights)
    requires IsForest(t, h) && c in t && item in t && t[item].parent == None
    ensures item !in t[c].itemlist && c !in t[c].itemlist
    ensures forall j, k :: 0 <= j < k < |t[c].itemlist| ==> t[c].itemlist[j] != t[c].itemlist[k]
    ensures forall y :: y in t[c].itemlist ==> y in t
  {
    assert Linked(c, t, h);
  }

  /** What adding the rest amounts to. */
  lemma {:induction false} RestDone(t: Table, h: Heights, t2: Table, t3: Table, c: Id, n: nat, item: Id, rest: Id)
    requires IsForest(t, h) && c in t && item in t && t[item].parent == None && rest !in t && StackOk(t[item])
    requires t[item].kind.stackable && FirstPartnerAt(t, t[c].itemlist, n, item)
    requires t[item].count + t[t[c].itemlist[n]].count > 100 && t2 == WithRest(t, c, n, item, rest)
    requires c != item && c in t2 && rest in t2 && t2[c] == t[c] && item !in t3
    requires Added(t2, t3, c, rest) && Arranged(t2, t3, c, rest, true)
    ensures Added(t, t3, c, item) && Arranged(t, t3, c, item, true)
  {
    Unlisted(c, item, t, h);
    AddedOn(t, t2, t3, c, n, item, rest);
    ArrangedOn(t, t2, t3, c, n, item, rest);
  }

  /** A list grows past its capacity only when limits are off. */
  ghost predicate Roomy(t: Table, t': Table, c: Id, flags: Flags)
    requires c in t
  {
    !flags.noLimit ==> c in t' && (|t'[c].itemlist| <= |t[c].itemlist| || |t'[c].itemlist| <= t[c].maxSize)
  }

  /** The checks of `internalAddItem`. On success the index is the first stack to
      merge with, or "wherever" with a free slot in sight. */
  method CheckAdd(w: ItemWorld, sc: bool, c: Id, item: Id, flags: Flags)
    returns (r: ReturnValue, index: int, toItem: Option<Id>)
    requires w.Ok() && c in w.items && w.items[c].isContainer && item in w.items && w.items[item].parent == None
    requires !flags.childIsOwner
    ensures r == NoError <==> Accepts(w.items, w.height, sc, c, item, flags)
    ensures toItem.Some? ==>
      && AutoStacks(w.items, sc, c, item, flags) && FirstPartnerAt(w.items, w.items[c].itemlist, index, item)
      && w.items[c].itemlist[index] == toItem.value
    ensures toItem == None ==> index == WHEREEVER
    ensures toItem == None && AutoStacks(w.items, sc, c, item, flags) ==>
      forall y :: y in w.items[c].itemlist ==> !Partner(y, item, w.items)
    ensures r == NoError && toItem == None && !flags.noLimit ==> FreeSlots(w.items[c]) > 0
  {
    var dest;
    dest, index, toItem := QueryDestination(w, sc, c, WHEREEVER, item, flags);
    DestinationWherever(w.items, sc, c, item, flags);
    r := QueryAdd(w, c, index, item, flags);
    if r != NoError {
      return;
    }
    var maxQueryCount;
    r, maxQueryCount := QueryMaxCount(w, c, WHEREEVER, item, w.items[item].count, flags);
  }

  /** Fills the stack at `index`; what does not fit becomes a new item. */
  method MergeFirst(w: ItemWorld, c: Id, index: nat, item: Id) returns (rest: Option<Id>)
    requires w.Ok() && c in w.items && item in w.items && w.items[item].parent == None
    requires w.items[item].kind.stackable && FirstPartnerAt(w.items, w.items[c].itemlist, index, item)
    modifies w
    ensures w.Ok() && w.nextId >= old(w.nextId)
    ensures rest == None <==> old(w.items[item].count + w.items[w.items[c].itemlist[index]].count) <= 100
    ensures rest == None ==> w.items == Merged(old(w.items), c, index, item)
    ensures rest.Some? ==>
      && rest.value == old(w.nextId) && rest.value !in old(w.items)
      && w.items == WithRest(old(w.items), c, index, item, rest.value)
  {
    assert Linked(item, w.items, w.height);
    var e, toItem := w.items[item], w.items[c].itemlist[index];
    var n := TopUp(w, c, item, Some(toItem), e.count);
    w.Release(item);
    rest := None;
    if n < e.count {
      var id := w.Create(e.kind, e.count - n, e.attrs);
      rest := Some(id);
    }
  }

  /** The table after `count` units, or the whole item, have been removed for good.
      A container that still holds something is only taken out. */
  function Removed(t: Table, c: Id, item: Id, count: nat): Table
    requires c in t && item in t && item in t[c].itemlist
  {
    if t[item].kind.stackable && count < t[item].count then t[item := t[item].(count := t[item].count - count)]
    else if t[item].itemlist == [] then Detached(c, item, t) - {item}
    else Detached(c, item, t)
  }

  /** `Game::internalRemoveItem`, not as a test. */
  method InternalRemoveItem(w: ItemWorld, item: Id, count: nat, flags: Flags) returns (r: ReturnValue)
    requires w.Ok() && item in w.items
    modifies w`items, w`totalWeight
    ensures w.Ok()
    ensures r == NoError <==>
      old(w.items[item].parent.Some? && count != 0 && (w.items[item].kind.stackable ==> count <= w.items[item].count))
    ensures r != NoError ==> w.items == old(w.items)
    ensures r == NoError ==>
      var c := old(w.items[item].parent.value);
      && c in old(w.items) && item in old(w.items[c].itemlist) && c != item
      && w.items == Removed(old(w.items), c, item, count)
  {
    assert Linked(item, w.items, w.height);
    if w.items[item].parent == None {
      return NotPossible;
    }
    var c := w.items[item].parent.value;
    r := QueryRemove(w, c, item, count, flags.(ignoreNotMoveable := true));
    if r != NoError {
      return;
    }
    w.RemoveThing(c, item, count);
    if w.items[item].parent == None && w.items[item].itemlist == [] {
      w.Release(item);
    }
  }
}
