/** Where a moved item ends up (`Game::internalMoveItem`), told from the call alone. */
module Places {
  import opened Items
  import opened Options
  import opened Forest
  import opened Containers
  import opened Queries
  import opened Moves
  import opened Sequences

  // ---- what a call asks for --------------------------------------------------------

  /** The index names the entry `y` of the container. */
  predicate Names(t: Table, call: Call, y: Id)
    requires call.to in t
  {
    && call.index != 254 && call.index != 255
    && 0 <= call.index < |t[call.to].itemlist| && call.index < t[call.to].maxSize
    && t[call.to].itemlist[call.index] == y
  }

  /** Another stack of the same row and attributes that is not full. */
  predicate Joins(t: Table, item: Id, y: Id) {
    && y in t && item in t && y != item
    && t[y].kind == t[item].kind && t[y].attrs == t[item].attrs && t[y].count < 100
  }

  /** Stacks are looked for before anything else. */
  predicate Stacks(t: Table, call: Call)
    requires call.item in t
  {
    call.sc && !call.flags.ignoreAutoStack && t[call.item].kind.stackable && t[call.item].parent != Some(call.to)
  }

  /** The entry at `k` is the first stack there is to join. */
  predicate FirstToJoin(t: Table, call: Call, k: nat)
    requires call.to in t && call.item in t
  {
    var list := t[call.to].itemlist;
    && Stacks(t, call) && call.index != 254 && k < |list| && Joins(t, call.item, list[k])
    && forall j :: 0 <= j < k ==> !Joins(t, call.item, list[j])
  }

  predicate NoneToJoin(t: Table, call: Call)
    requires call.to in t && call.item in t
  {
    Stacks(t, call) ==> forall y :: y in t[call.to].itemlist ==> !Joins(t, call.item, y)
  }

  /** The item may leave `from` for `call.to`. */
  ghost predicate Allowed(t: Table, h: Heights, call: Call)
    requires CallOk(t, h, call)
  {
    var e := t[call.item];
    && e.kind.pickupable && (e.kind.moveable || call.flags.ignoreNotMoveable)
    && call.item in t[call.from].itemlist && call.item !in Around(call.to, t, h)
    && (e.kind.stackable ==> 0 < call.count <= e.count)
    && (call.tradeItem.Some? ==> call.tradeItem.value !in Around(call.to, t, h))
  }

  function Slots(e: Entry): nat {
    if |e.itemlist| < e.maxSize then e.maxSize - |e.itemlist| else 0
  }

  // ---- where it goes ----------------------------------------------------------------

  /** The units that stay behind; a used-up stack is gone. */
  predicate Reduced(t: Table, t': Table, item: Id, m: nat)
    requires item in t
  {
    if m < t[item].count then item in t' && t'[item] == t[item].(count := t[item].count - m) else item !in t'
  }

  /** The list of the container once the item, if used up or moved, has left it. */
  function Remaining(t: Table, call: Call, leaves: bool): seq<Id>
    requires call.to in t
  {
    var list := t[call.to].itemlist;
    if leaves && call.item in list then Without(list, call.item) else list
  }

  /** Nothing but the two containers, the item and the stack `y` is touched. */
  predicate Elsewhere(t: Table, t': Table, call: Call, y: Id) {
    forall x :: x in t && x != call.item && x != y && x != call.from && x != call.to ==> x in t' && t'[x] == t[x]
  }

  /** `y` has taken what it can of `m` units; the rest, if the position lets it in, is in front. */
  predicate JoinedBy(t: Table, t': Table, call: Call, k: nat, m: nat, id: Id)
    requires call.to in t && call.item in t && k < |t[call.to].itemlist| && t[call.to].itemlist[k] in t
  {
    var y, e := t[call.to].itemlist[k], t[call.item];
    var rest := if t[y].count + m > 100 then t[y].count + m - 100 else 0;
    && call.to in t' && y in t'
    && t'[y] == t[y].(count := t[y].count + m - rest, attrs := t'[y].attrs)
    && Reduced(t, t', call.item, m)
    && t'[call.to].itemlist ==
         (if rest > 0 && k < t[call.to].maxSize then [id] else []) + Remaining(t, call, m == e.count)
    && (rest > 0 && k < t[call.to].maxSize ==>
          id in t' && t'[id] == Loose(e.kind, rest, e.attrs).(parent := Some(call.to)))
  }

  /** What `Follow` settles on, from the two ways to a stack. */
  lemma {:induction false} AimsAtStack(t: Table, h: Heights, call: Call, k: nat)
    requires CallOk(t, h, call) && k < |t[call.to].itemlist| && Joins(t, call.item, t[call.to].itemlist[k])
    requires t[call.item].kind.stackable
    requires FirstToJoin(t, call, k) || (k == call.index && Names(t, call, t[call.to].itemlist[k]) && !Stacks(t, call))
    ensures Follow(t, call.sc, call.to, call.index, call.item, call.flags, MAP_MAX_LAYERS) ==
      (Aim(call.to, k, Some(t[call.to].itemlist[k])), call.flags)
  {
    var list := t[call.to].itemlist;
    FollowsOnce(t, h, call.sc, call.to, call.index, call.item, call.flags, MAP_MAX_LAYERS);
    assert StackOk(t[list[k]]);
    forall j | 0 <= j < |list|
      ensures Joins(t, call.item, list[j]) <==> Partner(list[j], call.item, t)
    {
    }
  }

  /** How many units go onto a stack with `there` units. */
  function Fitting(t: Table, call: Call, there: nat): nat
    requires call.to in t && there <= 100
  {
    if call.flags.noLimit then call.count else Min(call.count, Slots(t[call.to]) * 100 + (100 - there))
  }

  lemma {:induction false} StackPlan(t: Table, h: Heights, call: Call, k: nat)
    requires CallOk(t, h, call) && Allowed(t, h, call)
    requires k < |t[call.to].itemlist| && Joins(t, call.item, t[call.to].itemlist[k])
    requires t[call.item].kind.stackable
    requires FirstToJoin(t, call, k) || (k == call.index && Names(t, call, t[call.to].itemlist[k]) && !Stacks(t, call))
    ensures var y := t[call.to].itemlist[k];
      PlanOf(t, h, call) ==
        (if Fitting(t, call, t[y].count) < call.count then ContainerNotEnoughRoom else NoError,
         Plan(call.to, k, Some(y), call.flags, Fitting(t, call, t[y].count)))
  {
    AimsAtStack(t, h, call, k);
  }

  /** For every allowed call that comes to an equal stack with room, by its index or as the
      first one to join: that stack takes what it can, up to 100, and only the rest becomes a
      new entry in front. */
  lemma {:induction false} OntoStack(t: Table, h: Heights, call: Call, k: nat, id: Id)
    requires CallOk(t, h, call) && Allowed(t, h, call) && id !in t
    requires k < |t[call.to].itemlist| && Joins(t, call.item, t[call.to].itemlist[k])
    requires t[call.item].kind.stackable
    requires FirstToJoin(t, call, k) || (k == call.index && Names(t, call, t[call.to].itemlist[k]) && !Stacks(t, call))
    ensures var y, (r, t') := t[call.to].itemlist[k], Result(t, h, call, id);
      && r == (if Fitting(t, call, t[y].count) < call.count then ContainerNotEnoughRoom else NoError)
      && JoinedBy(t, t', call, k, Fitting(t, call, t[y].count), id) && Elsewhere(t, t', call, y)
  {
    var y := t[call.to].itemlist[k];
    StackPlan(t, h, call, k);
    PlanIsReady(t, h, call);
    assert StackOk(t[y]) && StackOk(t[call.item]);
    assert Linked(call.to, t, h) && Linked(call.from, t, h);
    StackJoined(t, call, k, Fitting(t, call, t[y].count), id);
    StackElsewhere(t, call, k, Fitting(t, call, t[y].count), id);
  }

  lemma {:induction false} StackElsewhere(t: Table, call: Call, k: nat, m: nat, id: Id)
    requires call.from in t && call.to in t && call.item in t && id !in t
    requires call.from != call.item && call.to != call.item && call.item in t[call.from].itemlist
    requires k < |t[call.to].itemlist| && Joins(t, call.item, t[call.to].itemlist[k])
    requires StackOk(t[call.item]) && t[call.item].kind.stackable && 0 < m <= t[call.item].count
    requires call.item in t[call.to].itemlist ==> call.from == call.to
    requires t[call.to].itemlist[k] != call.to && t[call.to].itemlist[k] != call.from
    ensures var y := t[call.to].itemlist[k];
      Elsewhere(t, MovedStack(t, call.from, call.to, k, call.item, m, Some(y), id), call, y)
  {
    var y := t[call.to].itemlist[k];
    SplitElsewhere(t, call, y, m);
    if m == Absorbed(t, call.item, Some(y), m) {
      MovedStackDone(t, call.from, call.to, k, call.item, m, Some(y), id);
    } else {
      MovedStackRest(t, call.from, call.to, k, call.item, m, Some(y), id);
    }
  }

  /** After the item has been reduced and the stack topped up. */
  lemma {:induction false} StackSplit(t: Table, call: Call, y: Id, m: nat)
    requires call.from in t && call.to in t && call.item in t && call.from != call.item && call.to != call.item
    requires Joins(t, call.item, y) && call.item in t[call.from].itemlist
    requires StackOk(t[call.item]) && t[call.item].kind.stackable && 0 < m <= t[call.item].count
    requires call.item in t[call.to].itemlist ==> call.from == call.to
    requires y != call.to && y != call.from
    ensures var t2 := Split(t, call.from, call.item, m, Some(y));
      && call.to in t2 && y in t2
      && t2[y] == t[y].(count := if t[y].count + m > 100 then 100 else t[y].count + m, attrs := t2[y].attrs)
      && Reduced(t, t2, call.item, m)
      && t2[call.to] == t[call.to].(itemlist := Remaining(t, call, m == t[call.item].count))
  {
  }

  lemma {:induction false} SplitElsewhere(t: Table, call: Call, y: Id, m: nat)
    requires call.from in t && call.item in t && call.from != call.item
    requires call.item in t[call.from].itemlist && m <= t[call.item].count
    ensures Elsewhere(t, Split(t, call.from, call.item, m, Some(y)), call, y)
  {
  }

  lemma {:induction false} RestJoins(t: Table, t2: Table, call: Call, k: nat, m: nat, id: Id)
    requires call.to in t && call.item in t && id !in t && call.to in t2 && id !in t2 && call.to != call.item
    requires k < |t[call.to].itemlist| && t[call.to].itemlist[k] in t && t[call.to].itemlist[k] in t2
    requires var y := t[call.to].itemlist[k];
      y != call.to && t[y].count + m > 100 && t2[y] == t[y].(count := 100, attrs := t2[y].attrs)
    requires Reduced(t, t2, call.item, m) && m <= t[call.item].count
    requires t2[call.to] == t[call.to].(itemlist := Remaining(t, call, m == t[call.item].count))
    ensures var rest := Loose(t[call.item].kind, t[t[call.to].itemlist[k]].count + m - 100, t[call.item].attrs);
      JoinedBy(t, Placed(t2[id := rest], call.to, k, id), call, k, m, id)
  {
  }

  lemma {:induction false} StackJoined(t: Table, call: Call, k: nat, m: nat, id: Id)
    requires call.from in t && call.to in t && call.item in t && id !in t
    requires call.from != call.item && call.to != call.item && call.item in t[call.from].itemlist
    requires k < |t[call.to].itemlist| && Joins(t, call.item, t[call.to].itemlist[k])
    requires StackOk(t[call.item]) && t[call.item].kind.stackable && 0 < m <= t[call.item].count
    requires call.item in t[call.to].itemlist ==> call.from == call.to
    requires t[call.to].itemlist[k] != call.to && t[call.to].itemlist[k] != call.from
    ensures var y := t[call.to].itemlist[k];
      JoinedBy(t, MovedStack(t, call.from, call.to, k, call.item, m, Some(y), id), call, k, m, id)
  {
    var y := t[call.to].itemlist[k];
    StackSplit(t, call, y, m);
    if m == Absorbed(t, call.item, Some(y), m) {
      MovedStackDone(t, call.from, call.to, k, call.item, m, Some(y), id);
    } else {
      MovedStackRest(t, call.from, call.to, k, call.item, m, Some(y), id);
      RestJoins(t, Split(t, call.from, call.item, m, Some(y)), call, k, m, id);
    }
  }

  // ---- the other places --------------------------------------------------------------

  /** A call whose index names the item itself changes nothing. */
  lemma {:induction false} OntoItself(t: Table, h: Heights, call: Call, id: Id)
    requires CallOk(t, h, call) && Names(t, call, call.item) && id !in t
    ensures Result(t, h, call, id).1 == t
    ensures !t[call.item].isContainer ==> Result(t, h, call, id).0 == NoError
  {
    assert Linked(call.to, t, h) && Linked(call.item, t, h);
    FollowsOnce(t, h, call.sc, call.to, call.index, call.item, call.flags, MAP_MAX_LAYERS);
    if t[call.item].isContainer {
      DestinationWherever(t, call.sc, call.item, call.item, NO_FLAGS);
    }
  }

  /** The index names no entry that sends the item elsewhere or takes its units. */
  predicate ToFront(t: Table, call: Call)
    requires call.to in t && call.item in t
  {
    && call.index != 254 && NoneToJoin(t, call)
    && forall y :: y in t[call.to].itemlist && Names(t, call, y) ==>
         y in t && y != call.item && !t[y].isContainer && !(t[call.item].kind.stackable && Joins(t, call.item, y))
  }

  /** The whole item, or a new stack of the units asked for, is in front of the container. */
  predicate InFront(t: Table, t': Table, call: Call, id: Id)
    requires call.to in t && call.item in t
  {
    var e := t[call.item];
    && call.to in t'
    && if e.kind.stackable then
         && Reduced(t, t', call.item, call.count)
         && id in t' && t'[id] == Loose(e.kind, call.count, e.attrs).(parent := Some(call.to))
         && t'[call.to].itemlist == [id] + Remaining(t, call, call.count == e.count)
       else
         && call.item in t' && t'[call.item] == e.(parent := Some(call.to))
         && t'[call.to].itemlist == [call.item] + Remaining(t, call, true)
  }

  lemma {:induction false} FrontAim(t: Table, h: Heights, call: Call)
    requires CallOk(t, h, call) && ToFront(t, call)
    ensures var (a, fl) := Follow(t, call.sc, call.to, call.index, call.item, call.flags, MAP_MAX_LAYERS);
      && fl == call.flags && a.dest == call.to && a.index < t[call.to].maxSize
      && (a.toItem.Some? ==>
            && 0 <= a.index < |t[call.to].itemlist| && t[call.to].itemlist[a.index] == a.toItem.value
            && a.toItem.value in t && a.toItem.value != call.item
            && !(t[call.item].kind.stackable && Joins(t, call.item, a.toItem.value)))
      && (a.toItem == None ==> a.index < 0 || a.index >= |t[call.to].itemlist|)
  {
    var list := t[call.to].itemlist;
    FollowsOnce(t, h, call.sc, call.to, call.index, call.item, call.flags, MAP_MAX_LAYERS);
    forall j | 0 <= j < |list|
      ensures Joins(t, call.item, list[j]) <==> Partner(list[j], call.item, t)
    {
    }
  }

  /** What such a call settles on. */
  lemma {:induction false} FrontPlan(t: Table, h: Heights, call: Call)
    requires CallOk(t, h, call) && Allowed(t, h, call) && ToFront(t, call)
    ensures var (r, p) := PlanOf(t, h, call);
      if call.flags.noLimit || Slots(t[call.to]) > 0 then
        && r == NoError && p.dest == call.to && p.m > 0 && p.index < t[call.to].maxSize
        && (t[call.item].kind.stackable ==> p.m == call.count && Absorbed(t, call.item, p.toItem, p.m) == 0)
      else r == ContainerNotEnoughRoom && p.m == 0
  {
    FrontAim(t, h, call);
    assert StackOk(t[call.item]);
    var (a, fl) := Follow(t, call.sc, call.to, call.index, call.item, call.flags, MAP_MAX_LAYERS);
    if a.toItem.Some? { assert StackOk(t[a.toItem.value]); }
  }

  /** For every allowed call with no stack to join, no container and not the item itself at the
      index: if there is a free slot, or no limit, all that is asked for goes to the front. */
  lemma {:induction false} ToTheFront(t: Table, h: Heights, call: Call, id: Id)
    requires CallOk(t, h, call) && Allowed(t, h, call) && ToFront(t, call) && id !in t
    ensures var (r, t') := Result(t, h, call, id);
      if call.flags.noLimit || Slots(t[call.to]) > 0 then r == NoError && InFront(t, t', call, id)
      else r == ContainerNotEnoughRoom && t' == t
  {
    FrontPlan(t, h, call);
    var p := PlanOf(t, h, call).1;
    if p.m > 0 {
      PlanIsReady(t, h, call);
      assert Linked(call.from, t, h) && Linked(call.to, t, h) && StackOk(t[call.item]);
      if t[call.item].kind.stackable {
        StackInFront(t, call, p.index, p.toItem, id);
      } else {
        WholeInFront(t, call, p.index, id);
      }
    }
  }

  lemma {:induction false} WholeInFront(t: Table, call: Call, index: int, id: Id)
    requires call.from in t && call.to in t && call.item in t && call.from != call.item && call.to != call.item
    requires call.item in t[call.from].itemlist && !t[call.item].kind.stackable && index < t[call.to].maxSize
    requires call.item in t[call.to].itemlist ==> call.from == call.to
    ensures InFront(t, MovedWhole(t, call.from, call.to, index, call.item), call, id)
  {
  }

  lemma {:induction false} StackInFront(t: Table, call: Call, index: int, toItem: Option<Id>, id: Id)
    requires call.from in t && call.to in t && call.item in t && call.from != call.item && call.to != call.item
    requires call.item in t[call.from].itemlist && id !in t && index < t[call.to].maxSize
    requires StackOk(t[call.item]) && t[call.item].kind.stackable && 0 < call.count <= t[call.item].count
    requires call.item in t[call.to].itemlist ==> call.from == call.to
    requires Absorbed(t, call.item, toItem, call.count) == 0
    requires toItem.Some? ==> toItem.value != call.to && toItem.value != call.item
    ensures InFront(t, MovedStack(t, call.from, call.to, index, call.item, call.count, toItem, id), call, id)
  {
    MovedStackRest(t, call.from, call.to, index, call.item, call.count, toItem, id);
  }

  lemma {:induction false} SamePlan(t: Table, h: Heights, call: Call, other: Call)
    requires CallOk(t, h, call) && CallOk(t, h, other)
    requires other == call.(to := other.to, index := other.index, flags := other.flags)
    requires Follow(t, call.sc, call.to, call.index, call.item, call.flags, MAP_MAX_LAYERS) ==
      Follow(t, other.sc, other.to, other.index, other.item, other.flags, MAP_MAX_LAYERS)
    ensures PlanOf(t, h, call) == PlanOf(t, h, other)
  {
  }

  /** Two calls that follow to the same place do the same. */
  lemma {:induction false} SamePlace(t: Table, h: Heights, call: Call, to: Id, index: int, flags: Flags, id: Id)
    requires CallOk(t, h, call) && id !in t && to in t && t[to].isContainer && !flags.childIsOwner
    requires Follow(t, call.sc, call.to, call.index, call.item, call.flags, MAP_MAX_LAYERS) ==
      Follow(t, call.sc, to, index, call.item, flags, MAP_MAX_LAYERS)
    ensures var other := call.(to := to, index := index, flags := flags);
      CallOk(t, h, other) && Result(t, h, call, id) == Result(t, h, other, id)
  {
    SamePlan(t, h, call, call.(to := to, index := index, flags := flags));
  }

  /** An index naming a container sends the item on into that container, with no flags left. */
  lemma {:induction false} IntoContainer(t: Table, h: Heights, call: Call, y: Id, id: Id)
    requires CallOk(t, h, call) && id !in t && Names(t, call, y) && y in t && t[y].isContainer && NoneToJoin(t, call)
    ensures var inner := call.(to := y, index := WHEREEVER, flags := NO_FLAGS);
      CallOk(t, h, inner) && Result(t, h, call, id) == Result(t, h, inner, id)
  {
    var list := t[call.to].itemlist;
    FollowsOnce(t, h, call.sc, call.to, call.index, call.item, call.flags, MAP_MAX_LAYERS);
    FollowsOnce(t, h, call.sc, y, WHEREEVER, call.item, NO_FLAGS, MAP_MAX_LAYERS);
    DestinationWherever(t, call.sc, y, call.item, NO_FLAGS);
    assert Linked(call.to, t, h);
    forall j | 0 <= j < |list|
      ensures Joins(t, call.item, list[j]) <==> Partner(list[j], call.item, t)
    {
    }
    SamePlace(t, h, call, y, WHEREEVER, NO_FLAGS, id);
  }

  /** "Move up" sends it to the container around, with no flags left. */
  lemma {:induction false} MovesUp(t: Table, h: Heights, call: Call, id: Id)
    requires CallOk(t, h, call) && id !in t && call.index == 254 && t[call.to].parent.Some?
    ensures t[call.to].parent.value in t
    ensures var outer := call.(to := t[call.to].parent.value, index := WHEREEVER, flags := NO_FLAGS);
      CallOk(t, h, outer) && Result(t, h, call, id) == Result(t, h, outer, id)
  {
    assert Linked(call.to, t, h);
    var p := t[call.to].parent.value;
    assert Linked(p, t, h);
    FollowsOnce(t, h, call.sc, call.to, call.index, call.item, call.flags, MAP_MAX_LAYERS);
    FollowsOnce(t, h, call.sc, p, WHEREEVER, call.item, NO_FLAGS, MAP_MAX_LAYERS);
    DestinationWherever(t, call.sc, p, call.item, NO_FLAGS);
    SamePlace(t, h, call, p, WHEREEVER, NO_FLAGS, id);
  }
}
