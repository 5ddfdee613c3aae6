/** The trade handshake between players (`Game::internalStartTrade`, `playerAcceptTrade`,
    `internalCloseTrade`). */
module Trade {
  import opened Options

  type PlayerId = nat

  type ItemId = nat

  datatype TradeState = TRADE_NONE | TRADE_INITIATED | TRADE_ACCEPT | TRADE_ACKNOWLEDGE | TRADE_TRANSFER

  datatype Trader = Trader(state: TradeState, partner: Option<PlayerId>, item: Option<ItemId>)

  const IDLE := Trader(TRADE_NONE, None, None)

  /** Who is trading with whom over what; `tradeItems` as the game keeps it; `moved` lists
      every item handed over, with its receiver, in order. */
  datatype Market = Market(players: map<PlayerId, Trader>, tradeItems: map<ItemId, PlayerId>,
    moved: seq<(ItemId, PlayerId)>)

  /** What is in what, at one moment: `isHoldingItem`. */
  datatype Nesting = Nesting(isContainer: ItemId -> bool, holds: (ItemId, ItemId) -> bool)

  // ---- the steps -----------------------------------------------------------------------

  function SetState(m: Market, p: PlayerId, state: TradeState): Market
    requires p in m.players
  {
    m.(players := m.players[p := m.players[p].(state := state)])
  }

  predicate MayStart(m: Market, p: PlayerId, q: PlayerId)
    requires p in m.players && q in m.players
  {
    && (m.players[p].state == TRADE_NONE ||
        (m.players[p].state == TRADE_ACKNOWLEDGE && m.players[p].partner == Some(q)))
    && (m.players[q].state == TRADE_NONE || m.players[q].partner == Some(p))
  }

  /** `internalStartTrade`. */
  function Start(m: Market, p: PlayerId, q: PlayerId, item: ItemId): Market
    requires p in m.players && q in m.players
  {
    if !MayStart(m, p, q) then m
    else
      var offered := m.players[p := Trader(TRADE_INITIATED, Some(q), Some(item))];
      Market(
        if offered[q].state != TRADE_NONE then offered
        else offered[q := offered[q].(state := TRADE_ACKNOWLEDGE, partner := Some(p))],
        m.tradeItems[item := p], m.moved)
  }

  /** The test an item must pass against everything already on offer. */
  predicate Clashes(n: Nesting, item: ItemId, other: ItemId) {
    item == other || (n.isContainer(item) && n.holds(item, other)) || (n.isContainer(other) && n.holds(other, item))
  }

  predicate Offerable(n: Nesting, m: Market, item: ItemId) {
    forall other :: other in m.tradeItems ==> !Clashes(n, item, other)
  }

  const MAX_TRADED: nat := 100

  /** `playerRequestTrade`. `reachable` stands for the checks on places, paths and the
      item's own properties; `count` is how many items the offered one contains. */
  function Request(n: Nesting, m: Market, p: PlayerId, q: PlayerId, item: ItemId, count: nat, reachable: bool): Market {
    if p !in m.players || q !in m.players || p == q || !reachable then m
    else if !Offerable(n, m, item) then m
    else if n.isContainer(item) && count + 1 > MAX_TRADED then m
    else Start(m, p, q, item)
  }

  function Forget(tradeItems: map<ItemId, PlayerId>, item: Option<ItemId>): map<ItemId, PlayerId> {
    if item.Some? then tradeItems - {item.value} else tradeItems
  }

  /** `playerAcceptTrade`. `fits` stands for the adding, removing and moving of the two
      items, which can only succeed for items that exist. */
  function Accept(m: Market, p: PlayerId, reachable: bool, fits: bool): Market {
    if p !in m.players then m
    else
      var me := m.players[p];
      if me.state != TRADE_ACKNOWLEDGE && me.state != TRADE_INITIATED then m
      else if me.partner == None || me.partner.value !in m.players || !reachable then m
      else
        var q, accepted := me.partner.value, SetState(m, p, TRADE_ACCEPT);
        if accepted.players[q].state != TRADE_ACCEPT then accepted
        else Transfer(accepted, p, q, fits)
  }

  /** Both have accepted: the items change hands, or the trade is off; either way it is over. */
  function Transfer(m: Market, p: PlayerId, q: PlayerId, fits: bool): Market
    requires p in m.players && q in m.players
  {
    var item1, item2 := m.players[p].item, m.players[q].item;
    Market(m.players[p := IDLE][q := IDLE], Forget(Forget(m.tradeItems, item1), item2),
      if item1.Some? && item2.Some? && fits then m.moved + [(item1.value, q), (item2.value, p)] else m.moved)
  }

  function Drop(m: Market, p: PlayerId): Market
    requires p in m.players
  {
    m.(players := m.players[p := IDLE], tradeItems := Forget(m.tradeItems, m.players[p].item))
  }

  /** `internalCloseTrade`: refused while a transfer is running. */
  function Close(m: Market, p: PlayerId): Market {
    if p !in m.players then m
    else
      var partner := m.players[p].partner;
      var q := if partner.Some? && partner.value in m.players then partner else None;
      if m.players[p].state == TRADE_TRANSFER || (q.Some? && m.players[q.value].state == TRADE_TRANSFER) then m
      else if q.Some? then Drop(Drop(m, p), q.value) else Drop(m, p)
  }

  // ---- what every step keeps ----------------------------------------------------------------

  /** One player's record: idle, or paired with a partner who is paired back. An item is
      on offer unless the player only acknowledged; at most one of the two acknowledged,
      and at most one has accepted. */
  predicate Paired(m: Market, p: PlayerId)
    requires p in m.players
  {
    var me := m.players[p];
    if me.state == TRADE_NONE then me == IDLE
    else
      && me.state != TRADE_TRANSFER && me.partner.Some?
      && var q := me.partner.value;
      && q != p && q in m.players && m.players[q].partner == Some(p)
      && (me.state == TRADE_INITIATED ==> me.item.Some?)
      && (me.state == TRADE_ACKNOWLEDGE ==> me.item.None?)
      && (me.item.Some? || m.players[q].item.Some?)
      && !(me.state == TRADE_ACCEPT && m.players[q].state == TRADE_ACCEPT)
  }

  /** `tradeItems` is exactly the items on offer, each by the one player it names. */
  predicate Listed(m: Market) {
    && (forall i :: i in m.tradeItems ==> m.tradeItems[i] in m.players && m.players[m.tradeItems[i]].item == Some(i))
    && (forall p :: p in m.players && m.players[p].item.Some? ==>
          m.players[p].item.value in m.tradeItems && m.tradeItems[m.players[p].item.value] == p)
  }

  /** No item on offer is inside another one. */
  predicate Apart(n: Nesting, m: Market) {
    forall i, j :: i in m.tradeItems && j in m.tradeItems && i != j ==> !n.holds(i, j)
  }

  ghost predicate Sound(n: Nesting) {
    forall i, j :: n.holds(i, j) ==> n.isContainer(i)
  }

  /** Everybody is paired, and everything on offer is listed. */
  ghost predicate Matched(m: Market) {
    (forall p :: p in m.players ==> Paired(m, p)) && Listed(m)
  }

  lemma StartLists(m: Market, p: PlayerId, q: PlayerId, item: ItemId)
    requires Listed(m) && p in m.players && q in m.players && p != q && MayStart(m, p, q)
    requires m.players[p].item == None && item !in m.tradeItems
    ensures Listed(Start(m, p, q, item))
  {
  }

  lemma StartApart(n: Nesting, m: Market, p: PlayerId, q: PlayerId, item: ItemId)
    requires Sound(n) && Apart(n, m) && p in m.players && q in m.players && Offerable(n, m, item)
    ensures Apart(n, Start(m, p, q, item))
  {
    var m' := Start(m, p, q, item);
    forall i, j | i in m'.tradeItems && j in m'.tradeItems && i != j ensures !n.holds(i, j) {
      if i == item && j in m.tradeItems {
        assert !Clashes(n, item, j);
      } else if j == item && i in m.tradeItems {
        assert !Clashes(n, item, i);
      }
    }
  }

  /** Starting a trade over an item that passes the test keeps players matched, and items
      apart. */
  lemma {:induction false} StartKeeps(n: Nesting, m: Market, p: PlayerId, q: PlayerId, item: ItemId)
    requires Matched(m) && p in m.players && q in m.players && p != q && Offerable(n, m, item)
    ensures Matched(Start(m, p, q, item)) && Start(m, p, q, item).moved == m.moved
    ensures Sound(n) && Apart(n, m) ==> Apart(n, Start(m, p, q, item))
  {
    if MayStart(m, p, q) {
      assert Paired(m, p);
      assert Clashes(n, item, item);
      StartPairs(m, p, q, item);
      StartLists(m, p, q, item);
      if Sound(n) && Apart(n, m) { StartApart(n, m, p, q, item); }
    }
  }

  lemma StartPairs(m: Market, p: PlayerId, q: PlayerId, item: ItemId)
    requires (forall x :: x in m.players ==> Paired(m, x)) && p in m.players && q in m.players && p != q
    requires MayStart(m, p, q)
    ensures var m' := Start(m, p, q, item);
      forall x :: x in m'.players ==> Paired(m', x)
  {
    var m' := Start(m, p, q, item);
    assert Paired(m, p) && Paired(m, q);
    forall x | x in m'.players ensures Paired(m', x) {
      assert Paired(m, x);
      if x != p && x != q && m.players[x].partner.Some? {
        assert Paired(m, m.players[x].partner.value);
      }
    }
  }

  lemma {:induction false} RequestKeeps(n: Nesting, m: Market, p: PlayerId, q: PlayerId, item: ItemId, count: nat,
                                        reachable: bool)
    requires Matched(m)
    ensures var m' := Request(n, m, p, q, item, count, reachable);
      Matched(m') && m'.moved == m.moved && (Sound(n) && Apart(n, m) ==> Apart(n, m'))
  {
    if p in m.players && q in m.players && p != q && Offerable(n, m, item) {
      StartKeeps(n, m, p, q, item);
    }
  }

  /** When a request takes effect, for every market: between two players, over an item within
      the size limit that is not on offer, nor in or around one that is; the requester is idle
      or has acknowledged this partner, and the other is idle or the requester's partner. */
  lemma {:induction false} RequestExactly(n: Nesting, m: Market, p: PlayerId, q: PlayerId, item: ItemId, count: nat,
                                          reachable: bool)
    requires Matched(m) && Sound(n)
    ensures var m' := Request(n, m, p, q, item, count, reachable);
      m' != m <==>
        && p in m.players && q in m.players && p != q && reachable && (n.isContainer(item) ==> count < 100)
        && (forall other :: other in m.tradeItems ==>
              other != item && !n.holds(item, other) && !n.holds(other, item))
        && (m.players[p] == IDLE || (m.players[p].state == TRADE_ACKNOWLEDGE && m.players[p].partner == Some(q)))
        && (m.players[q] == IDLE || m.players[q].partner == Some(p))
  {
    if p in m.players && q in m.players {
      assert Paired(m, p) && Paired(m, q);
    }
    assert forall other :: other in m.tradeItems ==>
      (Clashes(n, item, other) <==> other == item || n.holds(item, other) || n.holds(other, item));
    if p in m.players && q in m.players && p != q && Offerable(n, m, item) && MayStart(m, p, q) {
      assert Clashes(n, item, item);
    }
  }

  /** And what it then does: the item is on offer, the two are partners, and the other side has
      at least acknowledged; nobody else's record changes. */
  lemma {:induction false} RequestOffers(n: Nesting, m: Market, p: PlayerId, q: PlayerId, item: ItemId, count: nat,
                                         reachable: bool)
    requires Matched(m) && Request(n, m, p, q, item, count, reachable) != m
    ensures p in m.players && q in m.players && p != q
    ensures var m' := Request(n, m, p, q, item, count, reachable);
      && m'.tradeItems == m.tradeItems[item := p] && m'.moved == m.moved
      && m'.players == m.players[p := Trader(TRADE_INITIATED, Some(q), Some(item))][q :=
           if m.players[q] == IDLE then Trader(TRADE_ACKNOWLEDGE, Some(p), None) else m.players[q]]
  {
    assert p in m.players && q in m.players && p != q;
    assert Paired(m, p) && Paired(m, q);
  }

  /** Two partners, whatever their own states. */
  predicate Partners(m: Market, p: PlayerId, q: PlayerId) {
    p in m.players && q in m.players && p != q && m.players[p].partner == Some(q) && m.players[q].partner == Some(p)
  }

  lemma LeavePairs(m: Market, p: PlayerId, q: PlayerId, m': Market)
    requires Partners(m, p, q) && m'.players == m.players[p := IDLE][q := IDLE]
    requires forall x :: x in m.players && x != p && x != q ==> Paired(m, x)
    ensures forall x :: x in m'.players ==> Paired(m', x)
  {
    forall x | x in m'.players ensures Paired(m', x) {
      if x != p && x != q {
        assert Paired(m, x);
      }
    }
  }

  lemma LeaveLists(m: Market, p: PlayerId, q: PlayerId, m': Market)
    requires Partners(m, p, q) && Listed(m) && m'.players == m.players[p := IDLE][q := IDLE]
    requires m'.tradeItems == Forget(Forget(m.tradeItems, m.players[p].item), m.players[q].item)
    ensures Listed(m')
  {
    forall i | i in m'.tradeItems ensures m'.players[m'.tradeItems[i]].item == Some(i) {
      assert m.players[m.tradeItems[i]].item == Some(i);
    }
  }

  /** Both sides of a trade going idle together. */
  lemma BothLeave(m: Market, p: PlayerId, q: PlayerId, m': Market)
    requires Partners(m, p, q) && Listed(m)
    requires forall x :: x in m.players && x != p && x != q ==> Paired(m, x)
    requires m'.players == m.players[p := IDLE][q := IDLE]
    requires m'.tradeItems == Forget(Forget(m.tradeItems, m.players[p].item), m.players[q].item)
    ensures Matched(m') && m'.tradeItems.Keys <= m.tradeItems.Keys
  {
    LeavePairs(m, p, q, m');
    LeaveLists(m, p, q, m');
  }

  lemma CloseKeeps(m: Market, p: PlayerId)
    requires Matched(m)
    ensures Matched(Close(m, p)) && Close(m, p).moved == m.moved
    ensures Close(m, p).tradeItems.Keys <= m.tradeItems.Keys
    ensures p in m.players ==> Close(m, p).players[p] == IDLE
    ensures p in m.players && m.players[p].partner.Some? ==> Close(m, p).players[m.players[p].partner.value] == IDLE
  {
    if p in m.players {
      assert Paired(m, p);
      var me := m.players[p];
      if me.partner.Some? {
        var q := me.partner.value;
        assert Paired(m, q);
        BothLeave(m, p, q, Close(m, p));
      } else {
        assert m.players[p := IDLE] == m.players;
      }
    }
  }

  /** Whether `p` accepting now completes a trade, and over which items. */
  predicate Completes(m: Market, p: PlayerId) {
    && p in m.players && m.players[p].state in {TRADE_ACKNOWLEDGE, TRADE_INITIATED}
    && m.players[p].partner.Some? && m.players[p].partner.value in m.players
    && m.players[m.players[p].partner.value].state == TRADE_ACCEPT
  }

  lemma {:induction false} OthersStayPaired(m: Market, p: PlayerId, q: PlayerId)
    requires (forall x :: x in m.players ==> Paired(m, x)) && p in m.players && m.players[p].partner == Some(q)
    ensures var accepted := SetState(m, p, TRADE_ACCEPT);
      forall x :: x in m.players && x != p && x != q ==> Paired(accepted, x)
  {
    var accepted := SetState(m, p, TRADE_ACCEPT);
    assert Paired(m, p);
    forall x | x in m.players && x != p && x != q ensures Paired(accepted, x) { assert Paired(m, x); }
  }

  lemma {:induction false} AcceptKeeps(m: Market, p: PlayerId, reachable: bool, fits: bool)
    requires Matched(m)
    ensures Matched(Accept(m, p, reachable, fits))
    ensures Accept(m, p, reachable, fits).tradeItems.Keys <= m.tradeItems.Keys
  {
    if p in m.players {
      assert Paired(m, p);
      var me := m.players[p];
      if me.partner.Some? && (me.state == TRADE_ACKNOWLEDGE || me.state == TRADE_INITIATED) && reachable {
        var q := me.partner.value;
        assert Paired(m, q);
        if m.players[q].state == TRADE_ACCEPT {
          SecondAccepts(m, p, q, fits);
        } else {
          FirstAccepts(m, p, q);
        }
      }
    }
  }

  lemma {:induction false} FirstAccepts(m: Market, p: PlayerId, q: PlayerId)
    requires Matched(m) && Partners(m, p, q) && m.players[p].state != TRADE_NONE && m.players[q].state != TRADE_ACCEPT
    ensures Matched(SetState(m, p, TRADE_ACCEPT))
  {
    var accepted := SetState(m, p, TRADE_ACCEPT);
    OthersStayPaired(m, p, q);
    assert Paired(m, p) && Paired(m, q);
    assert Paired(accepted, p) && Paired(accepted, q);
  }

  lemma {:induction false} SecondAccepts(m: Market, p: PlayerId, q: PlayerId, fits: bool)
    requires Matched(m) && Partners(m, p, q)
    ensures var m' := Transfer(SetState(m, p, TRADE_ACCEPT), p, q, fits);
      Matched(m') && m'.tradeItems.Keys <= m.tradeItems.Keys
  {
    var accepted := SetState(m, p, TRADE_ACCEPT);
    OthersStayPaired(m, p, q);
    BothLeave(accepted, p, q, Transfer(accepted, p, q, fits));
  }

  /** Items move only when both sides have accepted, and then each of the two items goes
      to the other side and both sides are idle again. */
  lemma MovesNeedBoth(m: Market, p: PlayerId, reachable: bool, fits: bool)
    requires Matched(m)
    ensures var m' := Accept(m, p, reachable, fits);
      && (m'.moved != m.moved <==>
            Completes(m, p) && reachable && fits && m.players[p].item.Some?
              && m.players[m.players[p].partner.value].item.Some?)
      && (Completes(m, p) && reachable ==>
            var q := m.players[p].partner.value; m'.players[p] == IDLE && m'.players[q] == IDLE)
      && (m'.moved != m.moved ==>
            var q := m.players[p].partner.value;
            && m'.moved == m.moved + [(m.players[p].item.value, q), (m.players[q].item.value, p)]
            && m.tradeItems[m.players[p].item.value] == p && m.tradeItems[m.players[q].item.value] == q
            && m'.tradeItems == m.tradeItems - {m.players[p].item.value, m.players[q].item.value})
  {
    if p in m.players {
      assert Paired(m, p);
    }
  }

  // ---- whole runs --------------------------------------------------------------------------

  datatype Event =
    | Requested(n: Nesting, p: PlayerId, q: PlayerId, item: ItemId, count: nat, reachable: bool)
    | Accepted(p: PlayerId, reachable: bool, fits: bool)
    | Closed(p: PlayerId)

  function Step(m: Market, e: Event): Market {
    match e
    case Requested(n, p, q, item, count, reachable) => Request(n, m, p, q, item, count, reachable)
    case Accepted(p, reachable, fits) => Accept(m, p, reachable, fits)
    case Closed(p) => Close(m, p)
  }

  function Run(m: Market, events: seq<Event>): Market {
    if events == [] then m else Step(Run(m, events[..|events| - 1]), events[|events| - 1])
  }

  predicate Quiet(m: Market) {
    m.tradeItems == map[] && m.moved == [] && forall p :: p in m.players ==> m.players[p] == IDLE
  }

  /** Every step keeps players matched, whatever is in what. */
  lemma {:induction false} StepKeeps(m: Market, e: Event)
    requires Matched(m)
    ensures Matched(Step(m, e)) && Step(m, e).players.Keys == m.players.Keys
    ensures !e.Requested? ==> Step(m, e).tradeItems.Keys <= m.tradeItems.Keys
    ensures e.Requested? && Sound(e.n) && Apart(e.n, m) ==> Apart(e.n, Step(m, e))
  {
    match e
    case Requested(n, p, q, item, count, reachable) => RequestKeeps(n, m, p, q, item, count, reachable);
    case Accepted(p, reachable, fits) => AcceptKeeps(m, p, reachable, fits);
    case Closed(p) => CloseKeeps(m, p);
  }

  /** Every reachable market is matched, whatever is in what and however that changes. */
  lemma {:induction false} RunMatches(m: Market, events: seq<Event>)
    requires Quiet(m)
    ensures Matched(Run(m, events)) && Run(m, events).players.Keys == m.players.Keys
    decreases |events|
  {
    if events != [] {
      RunMatches(m, events[..|events| - 1]);
      StepKeeps(Run(m, events[..|events| - 1]), events[|events| - 1]);
    }
  }

  /** The contents of items on offer do not change: between the nesting that event `k` finds
      and the next one, items on offer after it stay in or out of each other. */
  ghost predicate Steady(ns: seq<Nesting>, m: Market, events: seq<Event>, k: nat)
    requires k < |events| < |ns|
  {
    && Sound(ns[k]) && (events[k].Requested? ==> events[k].n == ns[k])
    && var offered := Run(m, events[..k + 1]).tradeItems;
       forall i, j :: i in offered && j in offered ==> (ns[k + 1].holds(i, j) <==> ns[k].holds(i, j))
  }

  /** In every run, with what is in what changing freely but for the items on offer: every
      reachable market is matched, and no item on offer is inside another one. */
  lemma {:induction false} RunKeeps(ns: seq<Nesting>, m: Market, events: seq<Event>, k: nat)
    requires Quiet(m) && k <= |events| < |ns|
    requires forall i :: 0 <= i < |events| ==> Steady(ns, m, events, i)
    ensures Matched(Run(m, events[..k])) && Apart(ns[k], Run(m, events[..k]))
    decreases k
  {
    RunMatches(m, events[..k]);
    if k > 0 {
      RunKeeps(ns, m, events, k - 1);
      RunMatches(m, events[..k - 1]);
      assert Steady(ns, m, events, k - 1);
      RunNext(m, events, k);
      ApartOn(ns[k - 1], ns[k], Run(m, events[..k - 1]), events[k - 1], Run(m, events[..k]));
    }
  }

  lemma {:induction false} ApartOn(n: Nesting, n': Nesting, m: Market, e: Event, m': Market)
    requires Matched(m) && Sound(n) && Apart(n, m) && m' == Step(m, e) && (e.Requested? ==> e.n == n)
    requires forall i, j :: i in m'.tradeItems && j in m'.tradeItems ==> (n'.holds(i, j) <==> n.holds(i, j))
    ensures Apart(n', m')
  {
    StepKeeps(m, e);
  }

  /** Nothing on offer is the item, in it or around it. */
  predicate Free(n: Nesting, m: Market, item: ItemId) {
    forall other :: other in m.tradeItems ==> other != item && !n.holds(item, other) && !n.holds(other, item)
  }

  /** In every matched market, for all idle players `p` and `q` and all items apart from what is
      on offer and from each other: offer, counter-offer and both acceptances, in either order,
      hand over both items and leave the rest as it was. */
  lemma {:induction false} TradeGoesThrough(n1: Nesting, n2: Nesting, m: Market, p: PlayerId, q: PlayerId,
                                            i: ItemId, j: ItemId, count1: nat, count2: nat, e3: Event, e4: Event)
    requires Matched(m) && Sound(n1) && Sound(n2) && p in m.players && q in m.players && p != q
    requires m.players[p] == IDLE && m.players[q] == IDLE && count1 < 100 && count2 < 100
    requires Free(n1, m, i) && Free(n2, m, j) && i != j && !n2.holds(i, j) && !n2.holds(j, i)
    requires (e3 == Accepted(p, true, true) && e4 == Accepted(q, true, true)) ||
             (e3 == Accepted(q, true, true) && e4 == Accepted(p, true, true))
    ensures var m' := Run(m, [Requested(n1, p, q, i, count1, true), Requested(n2, q, p, j, count2, true), e3, e4]);
      && m'.moved == m.moved + (if e4.p == q then [(j, p), (i, q)] else [(i, q), (j, p)])
      && m'.players == m.players && m'.tradeItems == m.tradeItems
  {
    var e1, e2 := Requested(n1, p, q, i, count1, true), Requested(n2, q, p, j, count2, true);
    RunFour(m, e1, e2, e3, e4);
    BothOffer(n1, n2, m, p, q, i, j, count1, count2);
    var m2 := Step(Step(m, e1), e2);
    BothAccept(m2, p, q, i, j, e3, e4);
    Restored(m, m2, p, q, i, j);
  }

  lemma {:induction false} BothOffer(n1: Nesting, n2: Nesting, m: Market, p: PlayerId, q: PlayerId,
                                     i: ItemId, j: ItemId, count1: nat, count2: nat)
    requires Matched(m) && Sound(n1) && Sound(n2) && p in m.players && q in m.players && p != q
    requires m.players[p] == IDLE && m.players[q] == IDLE && count1 < 100 && count2 < 100
    requires Free(n1, m, i) && Free(n2, m, j) && i != j && !n2.holds(i, j) && !n2.holds(j, i)
    ensures var m2 := Step(Step(m, Requested(n1, p, q, i, count1, true)), Requested(n2, q, p, j, count2, true));
      && m2.players == m.players[p := Trader(TRADE_INITIATED, Some(q), Some(i))][q :=
           Trader(TRADE_INITIATED, Some(p), Some(j))]
      && m2.tradeItems == m.tradeItems[i := p][j := q] && m2.moved == m.moved
  {
    var m1 := Step(m, Requested(n1, p, q, i, count1, true));
    OfferTaken(n1, m, p, q, i, count1);
    StepKeeps(m, Requested(n1, p, q, i, count1, true));
    SecondOffer(n2, m, m1, p, q, i, j, count2);
  }

  lemma {:induction false} SecondOffer(n: Nesting, m: Market, m1: Market, p: PlayerId, q: PlayerId,
                                       i: ItemId, j: ItemId, count: nat)
    requires Matched(m1) && Sound(n) && p in m.players && q in m.players && p != q && count < 100
    requires m1.players == m.players[p := Trader(TRADE_INITIATED, Some(q), Some(i))][q :=
      Trader(TRADE_ACKNOWLEDGE, Some(p), None)]
    requires m1.tradeItems == m.tradeItems[i := p] && m1.moved == m.moved
    requires Free(n, m, j) && i != j && !n.holds(i, j) && !n.holds(j, i)
    ensures var m2 := Step(m1, Requested(n, q, p, j, count, true));
      && m2.players == m.players[p := Trader(TRADE_INITIATED, Some(q), Some(i))][q :=
           Trader(TRADE_INITIATED, Some(p), Some(j))]
      && m2.tradeItems == m.tradeItems[i := p][j := q] && m2.moved == m.moved
  {
    assert m1.tradeItems.Keys == m.tradeItems.Keys + {i};
    OfferTaken(n, m1, q, p, j, count);
  }

  /** One offer, to a partner or to an idle player. */
  lemma {:induction false} OfferTaken(n: Nesting, m: Market, p: PlayerId, q: PlayerId, item: ItemId, count: nat)
    requires Matched(m) && Sound(n) && p in m.players && q in m.players && p != q && count < 100 && Free(n, m, item)
    requires m.players[p] == IDLE || (m.players[p].state == TRADE_ACKNOWLEDGE && m.players[p].partner == Some(q))
    requires m.players[q] == IDLE || m.players[q].partner == Some(p)
    ensures var m' := Step(m, Requested(n, p, q, item, count, true));
      && m'.tradeItems == m.tradeItems[item := p] && m'.moved == m.moved
      && m'.players == m.players[p := Trader(TRADE_INITIATED, Some(q), Some(item))][q :=
           if m.players[q] == IDLE then Trader(TRADE_ACKNOWLEDGE, Some(p), None) else m.players[q]]
  {
    RequestExactly(n, m, p, q, item, count, true);
    RequestOffers(n, m, p, q, item, count, true);
  }

  lemma {:induction false} BothAccept(m: Market, p: PlayerId, q: PlayerId, i: ItemId, j: ItemId, e3: Event, e4: Event)
    requires p in m.players && q in m.players && p != q
    requires m.players[p] == Trader(TRADE_INITIATED, Some(q), Some(i))
    requires m.players[q] == Trader(TRADE_INITIATED, Some(p), Some(j))
    requires (e3 == Accepted(p, true, true) && e4 == Accepted(q, true, true)) ||
             (e3 == Accepted(q, true, true) && e4 == Accepted(p, true, true))
    ensures var m' := Step(Step(m, e3), e4);
      && m'.moved == m.moved + (if e4.p == q then [(j, p), (i, q)] else [(i, q), (j, p)])
      && m'.players == m.players[p := IDLE][q := IDLE] && m'.tradeItems == m.tradeItems - {i, j}
  {
    assert m.tradeItems - {i} - {j} == m.tradeItems - {i, j} == m.tradeItems - {j} - {i};
  }

  lemma {:induction false} Restored(m: Market, m2: Market, p: PlayerId, q: PlayerId, i: ItemId, j: ItemId)
    requires p in m.players && q in m.players && m.players[p] == IDLE && m.players[q] == IDLE
    requires i !in m.tradeItems && j !in m.tradeItems && m2.tradeItems == m.tradeItems[i := p][j := q]
    requires m2.players.Keys == m.players.Keys
    requires forall x :: x in m.players && x != p && x != q ==> m2.players[x] == m.players[x]
    ensures m2.tradeItems - {i, j} == m.tradeItems && m2.players[p := IDLE][q := IDLE] == m.players
  {
  }

  /** A player only becomes accepting by accepting. */
  lemma AcceptingStays(m: Market, e: Event, q: PlayerId)
    requires Matched(m) && q in m.players && q in Step(m, e).players
    requires Step(m, e).players[q].state == TRADE_ACCEPT
    ensures Step(m, e).players[q] == m.players[q] || (e.Accepted? && e.p == q)
    ensures e.Accepted? && e.p == q ==>
      Step(m, e).players[q].partner == m.players[q].partner && Step(m, e).players[q].item == m.players[q].item
  {
    assert Paired(m, q);
  }

  /** Before event `k` the record of `q` is `x`. */
  predicate Has(m: Market, events: seq<Event>, k: nat, q: PlayerId, x: Trader)
    requires k <= |events|
  {
    var mk := Run(m, events[..k]);
    q in mk.players && mk.players[q] == x
  }

  /** In every run: a player who stands accepting did accept, and has stood there with the
      same partner and the same item ever since. */
  lemma {:induction false} AcceptRemembered(m: Market, events: seq<Event>, q: PlayerId, x: Trader)
    returns (j: nat)
    requires Quiet(m) && q in m.players && Has(m, events, |events|, q, x) && x.state == TRADE_ACCEPT
    ensures j < |events| && events[j].Accepted? && events[j].p == q
    ensures forall k :: j < k <= |events| ==> Has(m, events, k, q, x)
    decreases |events|
  {
    AcceptedOrHad(m, events, q, x);
    var before := events[..|events| - 1];
    if Has(m, before, |before|, q, x) {
      j := AcceptRemembered(m, before, q, x);
      HasOn(m, events, before, j, q, x);
    } else {
      j := |events| - 1;
    }
  }

  /** A player who stands accepting stood so before the last event, or accepted with it. */
  lemma {:induction false} AcceptedOrHad(m: Market, events: seq<Event>, q: PlayerId, x: Trader)
    requires Quiet(m) && q in m.players && Has(m, events, |events|, q, x) && x.state == TRADE_ACCEPT
    ensures events != []
    ensures var before, last := events[..|events| - 1], events[|events| - 1];
      Has(m, before, |before|, q, x) || (last.Accepted? && last.p == q)
  {
    assert events[..|events|] == events;
    var before := events[..|events| - 1];
    assert before[..|before|] == before;
    RunMatches(m, before);
    AcceptingStays(Run(m, before), events[|events| - 1], q);
  }

  lemma {:induction false} HasOn(m: Market, events: seq<Event>, before: seq<Event>, j: nat,
                                 q: PlayerId, x: Trader)
    requires events != [] && before == events[..|events| - 1] && Has(m, events, |events|, q, x)
    requires forall k :: j < k <= |before| ==> Has(m, before, k, q, x)
    ensures forall k :: j < k <= |events| ==> Has(m, events, k, q, x)
  {
    forall k | j < k < |events|
      ensures Has(m, events, k, q, x)
    {
      HasBefore(m, events, k, q, x);
    }
  }

  lemma {:induction false} HasBefore(m: Market, events: seq<Event>, k: nat, q: PlayerId, x: Trader)
    requires k < |events| && Has(m, events[..|events| - 1], k, q, x)
    ensures Has(m, events, k, q, x)
  {
    assert events[..|events| - 1][..k] == events[..k];
  }

  /** `q` accepted with event `j`, and has stood accepting ever since, up to the last event. */
  predicate StandsSince(m: Market, events: seq<Event>, q: PlayerId, j: nat) {
    && j < |events| - 1 && events[j].Accepted? && events[j].p == q
    && forall k :: j < k < |events| ==> Stands(m, events, q, k)
  }

  /** `q` stands accepting before event `k`. */
  predicate Stands(m: Market, events: seq<Event>, q: PlayerId, k: nat)
    requires k <= |events|
  {
    var mk := Run(m, events[..k]);
    q in mk.players && mk.players[q].state == TRADE_ACCEPT
  }

  lemma {:induction false} Standing(m: Market, events: seq<Event>, q: PlayerId)
    requires Quiet(m) && events != []
    requires var b := Run(m, events[..|events| - 1]); q in b.players && b.players[q].state == TRADE_ACCEPT
    ensures exists j :: StandsSince(m, events, q, j)
  {
    var before := events[..|events| - 1];
    RunMatches(m, before);
    assert before[..|before|] == before;
    var x := Run(m, before).players[q];
    var j := AcceptRemembered(m, before, q, x);
    forall k | j < k < |events|
      ensures Stands(m, events, q, k)
    {
      assert events[..k] == before[..k];
      assert Has(m, before, k, q, x);
    }
    assert StandsSince(m, events, q, j);
  }

  /** In every run: whenever items move, the last event is one side accepting, and the
      other side accepted before and has stood accepting since. */
  lemma {:induction false} MovedWithConsent(m: Market, events: seq<Event>)
    requires Quiet(m) && events != []
    requires Run(m, events).moved != Run(m, events[..|events| - 1]).moved
    ensures var last, before := events[|events| - 1], Run(m, events[..|events| - 1]);
      && last.Accepted? && last.p in before.players && before.players[last.p].partner.Some?
      && exists j :: StandsSince(m, events, before.players[last.p].partner.value, j)
  {
    var before := events[..|events| - 1];
    var last := events[|events| - 1];
    RunMatches(m, before);
    var b := Run(m, before);
    match last
    case Requested(n, p, q, item, count, reachable) => RequestKeeps(n, b, p, q, item, count, reachable);
    case Closed(p) => CloseKeeps(b, p);
    case Accepted(p, reachable, fits) =>
      MovesNeedBoth(b, p, reachable, fits);
      Standing(m, events, b.players[p].partner.value);
  }

  // ---- what an acceptance covers ---------------------------------------------------------------

  /** `p` has `item` on offer. */
  predicate OnOffer(m: Market, item: ItemId, p: PlayerId) {
    item in m.tradeItems && m.tradeItems[item] == p
  }

  /** Accepting leaves the offers alone, unless it completes the trade. */
  lemma {:induction false} AcceptOffers(m: Market, e: Event, q: PlayerId, p: PlayerId)
    requires Matched(m) && e.Accepted? && e.p == q && q in m.players && p in m.players && p != q
    requires q in Step(m, e).players && Step(m, e).players[q].state == TRADE_ACCEPT
    requires p in Step(m, e).players
    ensures Step(m, e).players[p] == m.players[p]
  {
    assert Paired(m, q);
  }

  /** While `q` stands accepting, what its partner has on offer stays on offer. */
  lemma {:induction false} OfferStays(m: Market, e: Event, q: PlayerId, p: PlayerId)
    requires Matched(m) && q in m.players && p in m.players && m.players[q].partner == Some(p)
    requires m.players[q].state == TRADE_ACCEPT && m.players[p].item.Some?
    requires q in Step(m, e).players && Step(m, e).players[q].state == TRADE_ACCEPT
    ensures p in Step(m, e).players && Step(m, e).players[p].item == m.players[p].item
  {
    assert Paired(m, q) && Paired(m, p);
    match e
    case Requested(n, a, b, item, count, reachable) => OfferOutlastsRequest(n, m, a, b, item, count, reachable, q, p);
    case Accepted(a, reachable, fits) => OfferOutlastsAccept(m, a, reachable, fits, q, p);
    case Closed(a) => OfferOutlastsClose(m, a, q, p);
  }

  /** Two partners, one standing accepting, the other with an offer made. */
  predicate Awaited(m: Market, q: PlayerId, p: PlayerId) {
    && Partners(m, q, p) && m.players[q].state == TRADE_ACCEPT && m.players[p].item.Some?
    && m.players[p].state != TRADE_NONE && m.players[p].state != TRADE_ACKNOWLEDGE
  }

  lemma {:induction false} OfferOutlastsRequest(n: Nesting, m: Market, a: PlayerId, b: PlayerId, item: ItemId,
                                                count: nat, reachable: bool, q: PlayerId, p: PlayerId)
    requires Awaited(m, q, p)
    ensures Request(n, m, a, b, item, count, reachable).players.Keys == m.players.Keys
    ensures Request(n, m, a, b, item, count, reachable).players[p].item == m.players[p].item
  {
  }

  lemma {:induction false} OfferOutlastsAccept(m: Market, a: PlayerId, reachable: bool, fits: bool, q: PlayerId,
                                               p: PlayerId)
    requires Awaited(m, q, p)
    requires forall x :: x in m.players ==> Paired(m, x)
    requires Accept(m, a, reachable, fits).players.Keys == m.players.Keys ==>
      Accept(m, a, reachable, fits).players[q].state == TRADE_ACCEPT
    ensures Accept(m, a, reachable, fits).players.Keys == m.players.Keys
    ensures Accept(m, a, reachable, fits).players[p].item == m.players[p].item
  {
    assert a in m.players ==> Paired(m, a);
  }

  lemma {:induction false} OfferOutlastsClose(m: Market, a: PlayerId, q: PlayerId, p: PlayerId)
    requires Awaited(m, q, p)
    requires forall x :: x in m.players ==> Paired(m, x)
    requires Close(m, a).players.Keys == m.players.Keys ==> Close(m, a).players[q].state == TRADE_ACCEPT
    ensures Close(m, a).players.Keys == m.players.Keys
    ensures Close(m, a).players[p].item == m.players[p].item
  {
    assert a in m.players ==> Paired(m, a);
  }

  /** While `q` stands accepting it keeps its partner. */
  lemma {:induction false} PartnerStays(m: Market, e: Event, q: PlayerId)
    requires Matched(m) && q in m.players && m.players[q].state == TRADE_ACCEPT
    requires q in Step(m, e).players && Step(m, e).players[q].state == TRADE_ACCEPT
    ensures Step(m, e).players[q] == m.players[q]
  {
    assert Paired(m, q);
    AcceptingStays(m, e, q);
  }

  /** `q` stands accepting, with partner `p`, in both; what `p` offered in the first it offers
      in the second. */
  predicate Holds(m1: Market, m2: Market, q: PlayerId, p: PlayerId) {
    && q in m1.players && p in m1.players && q in m2.players && p in m2.players
    && m1.players[q].partner == Some(p) && m2.players[q].partner == Some(p)
    && (m1.players[p].item.Some? ==> m2.players[p].item == m1.players[p].item)
  }

  lemma {:induction false} HoldsOn(m1: Market, m2: Market, e: Event, m3: Market, q: PlayerId, p: PlayerId)
    requires Matched(m2) && Holds(m1, m2, q, p) && m2.players[q].state == TRADE_ACCEPT
    requires m3 == Step(m2, e) && q in m3.players && m3.players[q].state == TRADE_ACCEPT && p in m3.players
    ensures Holds(m1, m3, q, p)
  {
    PartnerStays(m2, e, q);
    if m2.players[p].item.Some? { OfferStays(m2, e, q, p); }
  }

  /** The markets of a run, before each event and after the last. */
  function Markets(m: Market, events: seq<Event>): (ms: seq<Market>)
    ensures |ms| == |events| + 1
  {
    seq(|events| + 1, i requires 0 <= i <= |events| => Run(m, events[..i]))
  }

  ghost predicate Goes(ms: seq<Market>, events: seq<Event>, i: nat)
    requires 0 < i < |ms| <= |events| + 1
  {
    Matched(ms[i - 1]) && ms[i] == Step(ms[i - 1], events[i - 1]) && ms[i].players.Keys == ms[i - 1].players.Keys
  }

  lemma {:induction false} RunGoes(m: Market, events: seq<Event>, i: nat)
    requires Quiet(m) && 0 < i <= |events|
    ensures Goes(Markets(m, events), events, i)
  {
    RunMatches(m, events[..i]);
    RunMatches(m, events[..i - 1]);
    RunNext(m, events, i);
  }

  predicate StandsIn(m: Market, q: PlayerId) {
    q in m.players && m.players[q].state == TRADE_ACCEPT
  }

  /** From the first market to the `k`th: same partner, and an offer once made stays. */
  lemma {:induction false} StandingKeeps(ms: seq<Market>, events: seq<Event>, q: PlayerId, j: nat, k: nat)
    requires j <= k < |ms| <= |events| + 1
    requires forall i :: j < i < |ms| ==> Goes(ms, events, i)
    requires forall i :: j <= i < |ms| ==> StandsIn(ms[i], q)
    ensures StoodFrom(ms[j], ms[k], q)
  {
    var i := j;
    assert StandsIn(ms[i], q);
    while i < k
      invariant j <= i <= k && StandsIn(ms[i], q) && StoodFrom(ms[j], ms[i], q)
    {
      assert Goes(ms, events, i + 1) && StandsIn(ms[i + 1], q);
      StoodOn(ms[j], ms[i], events[i], ms[i + 1], q);
      i := i + 1;
    }
  }

  /** The same record of `q`, and what its partner offered is still on offer. */
  predicate StoodFrom(m1: Market, m2: Market, q: PlayerId) {
    && q in m1.players && q in m2.players && m2.players[q] == m1.players[q] && m2.players.Keys == m1.players.Keys
    && var p := m1.players[q].partner;
       p.Some? && p.value in m1.players ==> Holds(m1, m2, q, p.value)
  }

  lemma {:induction false} StoodOn(m1: Market, m2: Market, e: Event, m3: Market, q: PlayerId)
    requires Matched(m2) && StoodFrom(m1, m2, q) && m2.players[q].state == TRADE_ACCEPT
    requires m3 == Step(m2, e) && m3.players.Keys == m2.players.Keys && m3.players[q].state == TRADE_ACCEPT
    ensures StoodFrom(m1, m3, q)
  {
    PartnerStays(m2, e, q);
    var p := m1.players[q].partner;
    if p.Some? && p.value in m1.players { HoldsOn(m1, m2, e, m3, q, p.value); }
  }

  lemma RunNext(m: Market, events: seq<Event>, k: nat)
    requires 0 < k <= |events|
    ensures Run(m, events[..k]) == Step(Run(m, events[..k - 1]), events[k - 1])
  {
    assert events[..k][..k - 1] == events[..k - 1];
  }

  /** When the last event moved `item` to `q`, it was `p` accepting, who had it on offer. */
  lemma {:induction false} LastMove(m: Market, events: seq<Event>, item: ItemId, q: PlayerId,
                                    other: ItemId, p: PlayerId)
    requires Quiet(m) && events != []
    requires Run(m, events).moved == Run(m, events[..|events| - 1]).moved + [(item, q), (other, p)]
    ensures var before := Run(m, events[..|events| - 1]);
      && p in before.players && q in before.players && p != q && before.players[q].partner == Some(p)
      && before.players[p].item == Some(item)
  {
    var b, e := Run(m, events[..|events| - 1]), events[|events| - 1];
    RunMatches(m, events[..|events| - 1]);
    var m' := Step(b, e);
    assert m'.moved == b.moved + [(item, q), (other, p)];
    assert |m'.moved| != |b.moved|;
    match e
    case Requested(n, p0, q0, item0, count, reachable) => RequestKeeps(n, b, p0, q0, item0, count, reachable);
    case Closed(p0) => CloseKeeps(b, p0);
    case Accepted(p0, reachable, fits) =>
      MovesNeedBoth(b, p0, reachable, fits);
      assert Paired(b, p0);
      var q0 := b.players[p0].partner.value;
      SamePairs(b.moved, (item, q), (other, p), (b.players[p0].item.value, q0), (b.players[q0].item.value, p0));
  }

  lemma SamePairs<T>(s: seq<T>, a: T, b: T, c: T, d: T)
    requires s + [a, b] == s + [c, d]
    ensures a == c && b == d
  {
    assert (s + [a, b])[|s|] == a && (s + [a, b])[|s| + 1] == b;
    assert (s + [c, d])[|s|] == c && (s + [c, d])[|s| + 1] == d;
  }

  /** From right after the acceptance to the last event. */
  lemma {:induction false} Stood(m: Market, events: seq<Event>, q: PlayerId, j: nat, p: PlayerId)
    requires Quiet(m) && StandsSince(m, events, q, j)
    requires var before := Run(m, events[..|events| - 1]);
      q in before.players && p in before.players && before.players[q].partner == Some(p)
    ensures var first := Run(m, events[..j + 1]);
      Holds(first, Run(m, events[..|events| - 1]), q, p) && first.players[q].state == TRADE_ACCEPT
  {
    var k := |events| - 1;
    var ms := Markets(m, events)[..k + 1];
    forall i | j + 1 < i < |ms|
      ensures Goes(ms, events, i)
    {
      RunGoes(m, events, i);
    }
    forall i | j + 1 <= i < |ms|
      ensures StandsIn(ms[i], q)
    {
      assert Stands(m, events, q, i);
    }
    StandingKeeps(ms, events, q, j + 1, k);
  }

  lemma {:induction false} OfferedThen(earlier: Market, e: Event, before: Market, item: ItemId,
                                       q: PlayerId, p: PlayerId)
    requires Matched(earlier) && e.Accepted? && e.p == q && q in earlier.players && p in earlier.players && p != q
    requires Holds(Step(earlier, e), before, q, p) && Step(earlier, e).players[q].state == TRADE_ACCEPT
    requires before.players[p].item == Some(item)
    ensures OnOffer(earlier, item, p) <==> earlier.players[p].item.Some?
  {
    AcceptOffers(earlier, e, q, p);
    ListedOffer(earlier, item, p);
  }

  /** In every run whose last event moves `item` to `q` and `other` to `p`: `item` was on
      offer when `q` accepted if and only if `p` had made an offer by then. */
  lemma {:induction false} ConsentExactly(m: Market, events: seq<Event>, item: ItemId, q: PlayerId,
                                          other: ItemId, p: PlayerId, j: nat)
    requires Quiet(m) && StandsSince(m, events, q, j)
    requires Run(m, events).moved == Run(m, events[..|events| - 1]).moved + [(item, q), (other, p)]
    ensures var earlier := Run(m, events[..j]);
      p in earlier.players && (OnOffer(earlier, item, p) <==> earlier.players[p].item.Some?)
  {
    LastMove(m, events, item, q, other, p);
    OfferedExactly(m, events, item, q, p, j);
  }

  lemma {:induction false} OfferedExactly(m: Market, events: seq<Event>, item: ItemId, q: PlayerId,
                                          p: PlayerId, j: nat)
    requires Quiet(m) && StandsSince(m, events, q, j) && p != q
    requires var before := Run(m, events[..|events| - 1]);
      && q in before.players && p in before.players
      && before.players[q].partner == Some(p) && before.players[p].item == Some(item)
    ensures var earlier := Run(m, events[..j]);
      p in earlier.players && (OnOffer(earlier, item, p) <==> earlier.players[p].item.Some?)
  {
    RunMatches(m, events[..j]);
    RunMatches(m, events[..|events| - 1]);
    Stood(m, events, q, j, p);
    RunNext(m, events, j + 1);
    OfferedThen(Run(m, events[..j]), events[j], Run(m, events[..|events| - 1]), item, q, p);
  }

  lemma ListedOffer(m: Market, item: ItemId, p: PlayerId)
    requires Listed(m) && p in m.players
    ensures OnOffer(m, item, p) <==> m.players[p].item == Some(item)
  {
  }

  /** Acceptance is not withdrawn when the other side makes its offer afterwards: player 1
      accepts before player 2 has offered anything, and the trade still goes through. */
  lemma AcceptedUnseen()
    ensures var n := Nesting(_ => false, (_, _) => false);
      var m := Market(map[1 := IDLE, 2 := IDLE], map[], []);
      Run(m, [Requested(n, 1, 2, 10, 0, true), Accepted(1, true, true), Requested(n, 2, 1, 20, 0, true),
        Accepted(2, true, true)]).moved
        == [(20, 1), (10, 2)]
  {
    var n := Nesting(_ => false, (_, _) => false);
    var m := Market(map[1 := IDLE, 2 := IDLE], map[], []);
    var e1, e2, e3, e4 := Requested(n, 1, 2, 10, 0, true), Accepted(1, true, true), Requested(n, 2, 1, 20, 0, true),
      Accepted(2, true, true);
    RunFour(m, e1, e2, e3, e4);
    OneOffered(n, m);
    OneAccepts(Step(m, e1));
    TwoOffers(n, Step(Step(m, e1), e2));
  }

  lemma {:induction false} OneOffered(n: Nesting, m: Market)
    requires m == Market(map[1 := IDLE, 2 := IDLE], map[], []) && !n.isContainer(10)
    ensures Step(m, Requested(n, 1, 2, 10, 0, true)) == Market(map[
      1 := Trader(TRADE_INITIATED, Some(2), Some(10)), 2 := Trader(TRADE_ACKNOWLEDGE, Some(1), None)], map[10 := 1], [])
  {
  }

  lemma {:induction false} OneAccepts(m: Market)
    requires m.players == map[
      1 := Trader(TRADE_INITIATED, Some(2), Some(10)), 2 := Trader(TRADE_ACKNOWLEDGE, Some(1), None)]
    ensures Step(m, Accepted(1, true, true)) == m.(players := map[
      1 := Trader(TRADE_ACCEPT, Some(2), Some(10)), 2 := Trader(TRADE_ACKNOWLEDGE, Some(1), None)])
  {
  }

  lemma {:induction false} TwoOffers(n: Nesting, m: Market)
    requires m == Market(map[
      1 := Trader(TRADE_ACCEPT, Some(2), Some(10)), 2 := Trader(TRADE_ACKNOWLEDGE, Some(1), None)], map[10 := 1], [])
    requires !n.isContainer(20) && !n.isContainer(10)
    ensures Step(m, Requested(n, 2, 1, 20, 0, true)) == Market(map[
      1 := Trader(TRADE_ACCEPT, Some(2), Some(10)), 2 := Trader(TRADE_INITIATED, Some(1), Some(20))],
      map[10 := 1, 20 := 2], [])
  {
    assert Offerable(n, m, 20);
  }

  lemma RunFour(m: Market, e1: Event, e2: Event, e3: Event, e4: Event)
    ensures Run(m, [e1, e2, e3, e4]) == Step(Step(Step(Step(m, e1), e2), e3), e4)
  {
    assert [e1, e2, e3, e4][..3] == [e1, e2, e3] && [e1, e2, e3][..2] == [e1, e2]
      && [e1, e2][..1] == [e1] && [e1][..0] == [];
    assert Run(m, [e1]) == Step(m, e1);
    assert Run(m, [e1, e2]) == Step(Run(m, [e1]), e2);
    assert Run(m, [e1, e2, e3]) == Step(Run(m, [e1, e2]), e3);
  }

  // ---- the game's own records ---------------------------------------------------------------

  class Game {
    var players: map<PlayerId, Trader>
    var tradeItems: map<ItemId, PlayerId>
    var moved: seq<(ItemId, PlayerId)>

    constructor (ids: set<PlayerId>)
      ensures players.Keys == ids && Quiet(State())
    {
      players := map p | p in ids :: IDLE;
      tradeItems, moved := map[], [];
    }

    function State(): Market
      reads this
    {
      Market(players, tradeItems, moved)
    }

    method SetTrader(p: PlayerId, t: Trader)
      requires p in players
      modifies this`players
      ensures players == old(players)[p := t]
    {
      players := players[p := t];
    }

    /** `n` is what is in what at the time. */
    method PlayerRequestTrade(n: Nesting, p: PlayerId, q: PlayerId, item: ItemId, count: nat, reachable: bool)
      modifies this
      ensures State() == Request(n, old(State()), p, q, item, count, reachable)
    {
      if p !in players || q !in players || p == q || !reachable { return; }
      var pending := tradeItems.Keys;
      while pending != {}
        invariant pending <= tradeItems.Keys
        invariant forall other :: other in tradeItems.Keys - pending ==> !Clashes(n, item, other)
        decreases |pending|
      {
        var other :| other in pending;
        if Clashes(n, item, other) { return; }
        pending := pending - {other};
      }
      if n.isContainer(item) && count + 1 > MAX_TRADED { return; }
      InternalStartTrade(p, q, item);
    }

    method InternalStartTrade(p: PlayerId, q: PlayerId, item: ItemId)
      requires p in players && q in players
      modifies this
      ensures State() == Start(old(State()), p, q, item)
    {
      var me, partner := players[p], players[q];
      if me.state != TRADE_NONE && !(me.state == TRADE_ACKNOWLEDGE && me.partner == Some(q)) { return; }
      if partner.state != TRADE_NONE && partner.partner != Some(p) { return; }
      SetTrader(p, Trader(TRADE_INITIATED, Some(q), Some(item)));
      tradeItems := tradeItems[item := p];
      if players[q].state == TRADE_NONE {
        SetTrader(q, players[q].(state := TRADE_ACKNOWLEDGE, partner := Some(p)));
      }
    }

    /** Closes that either side asks for while the items change hands, such as `closes`,
        leave no trace. */
    method PlayerAcceptTrade(p: PlayerId, reachable: bool, fits: bool, closes: seq<bool>)
      modifies this
      ensures State() == Accept(old(State()), p, reachable, fits)
    {
      if p !in players { return; }
      var me := players[p];
      if me.state != TRADE_ACKNOWLEDGE && me.state != TRADE_INITIATED { return; }
      if me.partner == None || me.partner.value !in players || !reachable { return; }
      var q := me.partner.value;
      SetTrader(p, me.(state := TRADE_ACCEPT));
      if players[q].state == TRADE_ACCEPT {
        TransferItems(p, q, fits, closes);
      }
    }

    /** The notifications of a running transfer: either side may be told to close its trade. */
    method Interrupt(p: PlayerId, q: PlayerId, closes: seq<bool>)
      requires p in players && q in players && players[p].state == players[q].state == TRADE_TRANSFER
      modifies this
      ensures State() == old(State())
    {
      for k := 0 to |closes|
        invariant State() == old(State())
      {
        InternalCloseTrade(if closes[k] then p else q);
      }
    }

    method ReleaseItem(item: Option<ItemId>)
      modifies this`tradeItems
      ensures tradeItems == Forget(old(tradeItems), item)
    {
      if item.Some? && item.value in tradeItems {
        tradeItems := tradeItems - {item.value};
      }
    }

    /** The two moves, each of which may set off notifications. */
    method HandOver(p: PlayerId, q: PlayerId, item1: ItemId, item2: ItemId, closes: seq<bool>)
      requires p in players && q in players && players[p].state == players[q].state == TRADE_TRANSFER
      modifies this
      ensures State() == old(State()).(moved := old(moved) + [(item1, q), (item2, p)])
    {
      moved := moved + [(item1, q)];
      Interrupt(p, q, closes);
      moved := moved + [(item2, p)];
      Interrupt(p, q, closes);
    }

    method TransferItems(p: PlayerId, q: PlayerId, fits: bool, closes: seq<bool>)
      requires p in players && q in players && players[p].state == players[q].state == TRADE_ACCEPT
      modifies this
      ensures State() == Transfer(old(State()), p, q, fits)
    {
      var tradeItem1, tradeItem2 := players[p].item, players[q].item;
      SetTrader(p, players[p].(state := TRADE_TRANSFER));
      SetTrader(q, players[q].(state := TRADE_TRANSFER));
      ReleaseItem(tradeItem1);
      ReleaseItem(tradeItem2);
      if tradeItem1.Some? && tradeItem2.Some? && fits {
        HandOver(p, q, tradeItem1.value, tradeItem2.value, closes);
      }
      SetTrader(p, IDLE);
      SetTrader(q, IDLE);
    }

    method InternalCloseTrade(p: PlayerId)
      modifies this
      ensures State() == Close(old(State()), p)
    {
      if p !in players { return; }
      var partner := players[p].partner;
      if players[p].state == TRADE_TRANSFER { return; }
      if partner.Some? && partner.value in players && players[partner.value].state == TRADE_TRANSFER { return; }
      ReleaseItem(players[p].item);
      SetTrader(p, IDLE);
      if partner.Some? && partner.value in players {
        ReleaseItem(players[partner.value].item);
        SetTrader(partner.value, IDLE);
      }
    }
  }
}
