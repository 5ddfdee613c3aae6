/** Paying with coins found anywhere inside a container (`Game::removeMoney`). */
module Payment {
  import opened Items
  import opened Options
  import opened Forest
  import opened Containers
  import opened Queries
  import opened Counting
  import opened Adds
  import opened Holding
  import opened Moves
  import opened Money
  import opened Sequences

  /** The worth of everything inside `c`, at any depth. */
  ghost function HeldWorth(c: Id, t: Table, h: Heights): nat
    requires IsForest(t, h)
  {
    Over(Under(c, t, h), t, CoinWorth)
  }

  /** Coin rows of the item table are stackable. */
  ghost predicate CoinsStack(t: Table) {
    forall x :: x in t && UnitWorth(t[x].kind) > 0 ==> t[x].kind.stackable
  }

  // ---- finding the coins -------------------------------------------------------------

  /** Worth and item, kept in ascending order of worth like the multimap it models. */
  type MoneyMap = seq<(nat, Id)>

  function Emplace(m: MoneyMap, worth: nat, item: Id): MoneyMap {
    if m == [] || m[|m| - 1].0 <= worth then m + [(worth, item)]
    else Emplace(m[..|m| - 1], worth, item) + [m[|m| - 1]]
  }

  ghost function EntrySum(m: MoneyMap): nat {
    if m == [] then 0 else EntrySum(m[..|m| - 1]) + m[|m| - 1].0
  }

  ghost predicate Ascending(m: MoneyMap) {
    forall j, k :: 0 <= j < k < |m| ==> m[j].0 <= m[k].0
  }

  ghost predicate Apart(m: MoneyMap) {
    forall j, k :: 0 <= j < k < |m| ==> m[j].1 != m[k].1
  }

  ghost predicate IsCoin(x: Id, worth: nat, t: Table) {
    x in t && !t[x].isContainer && worth > 0 && worth == Units(t[x], CoinWorth)
  }

  ghost predicate Sooner(visited: seq<Id>, x: Id, y: Id) {
    exists i, j :: 0 <= i < j < |visited| && visited[i] == x && visited[j] == y
  }

  /** By worth, and of equal worth the one visited first. */
  ghost predicate Follows(a: (nat, Id), b: (nat, Id), visited: seq<Id>) {
    a.0 < b.0 || (a.0 == b.0 && Sooner(visited, a.1, b.1))
  }

  ghost predicate InOrder(m: MoneyMap, visited: seq<Id>) {
    forall j, k :: 0 <= j < k < |m| ==> Follows(m[j], m[k], visited)
  }

  ghost predicate Coined(m: MoneyMap, visited: seq<Id>, t: Table) {
    && (forall e :: e in m ==> IsCoin(e.1, e.0, t) && e.1 in visited)
    && Apart(m) && Ascending(m) && InOrder(m, visited)
  }

  lemma {:induction false} InOrderOn(m: MoneyMap, visited: seq<Id>, item: Id)
    requires InOrder(m, visited) && forall e :: e in m ==> e.1 in visited
    ensures InOrder(m, visited + [item]) && forall e :: e in m ==> Sooner(visited + [item], e.1, item)
  {
    var after := visited + [item];
    forall x, y | Sooner(visited, x, y)
      ensures Sooner(after, x, y)
    {
      var i, j :| 0 <= i < j < |visited| && visited[i] == x && visited[j] == y;
      assert after[i] == x && after[j] == y;
    }
    forall e | e in m
      ensures Sooner(after, e.1, item)
    {
      var i :| 0 <= i < |visited| && visited[i] == e.1;
      assert after[i] == e.1 && after[|visited|] == item;
    }
    assert forall j, k :: 0 <= j < k < |m| ==> Follows(m[j], m[k], visited);
  }

  /** The item just visited goes behind all entries of its worth. */
  lemma {:induction false} EmplaceInOrder(m: MoneyMap, visited: seq<Id>, worth: nat, item: Id)
    requires InOrder(m, visited) && Ascending(m) && forall e :: e in m ==> Sooner(visited, e.1, item)
    ensures InOrder(Emplace(m, worth, item), visited)
  {
    if m != [] && m[|m| - 1].0 > worth {
      var front, last := m[..|m| - 1], m[|m| - 1];
      FrontOf(m);
      FrontInOrder(m, visited);
      EmplaceInOrder(front, visited, worth, item);
      EmplaceAdds(front, worth, item);
      AppendInOrder(Emplace(front, worth, item), last, visited);
    } else {
      if m != [] { FrontOf(m); }
      AppendInOrder(m, (worth, item), visited);
    }
  }

  lemma {:induction false} FrontInOrder(m: MoneyMap, visited: seq<Id>)
    requires InOrder(m, visited) && m != []
    ensures var front, last := m[..|m| - 1], m[|m| - 1];
      InOrder(front, visited) && forall e :: e in front ==> Follows(e, last, visited)
  {
    var front, last := m[..|m| - 1], m[|m| - 1];
    assert forall j, k :: 0 <= j < k < |front| ==> Follows(m[j], m[k], visited);
    forall e | e in front
      ensures Follows(e, last, visited)
    {
      var j :| 0 <= j < |front| && front[j] == e;
      assert Follows(m[j], m[|m| - 1], visited);
    }
  }

  lemma {:induction false} AppendInOrder(m: MoneyMap, last: (nat, Id), visited: seq<Id>)
    requires InOrder(m, visited) && forall e :: e in m ==> Follows(e, last, visited)
    ensures InOrder(m + [last], visited)
  {
  }

  lemma {:induction false} EmplaceAdds(m: MoneyMap, worth: nat, item: Id)
    ensures EntrySum(Emplace(m, worth, item)) == EntrySum(m) + worth
    ensures forall e :: e in Emplace(m, worth, item) ==> e in m || e == (worth, item)
  {
    if m == [] || m[|m| - 1].0 <= worth {
      assert (m + [(worth, item)])[..|m|] == m;
    } else {
      var front, last := m[..|m| - 1], m[|m| - 1];
      EmplaceAdds(front, worth, item);
      var e := Emplace(front, worth, item);
      assert (e + [last])[..|e|] == e;
    }
  }

  lemma {:induction false} EmplaceSorts(m: MoneyMap, worth: nat, item: Id)
    requires Ascending(m)
    ensures Ascending(Emplace(m, worth, item))
  {
    if m != [] && m[|m| - 1].0 > worth {
      var front, last := m[..|m| - 1], m[|m| - 1];
      FrontOf(m);
      EmplaceSorts(front, worth, item);
      EmplaceAdds(front, worth, item);
      var e := Emplace(front, worth, item);
      forall x | x in e ensures x.0 <= last.0 {}
      AppendKeeps(e, last);
    } else if m != [] {
      FrontOf(m);
      AppendKeeps(m, (worth, item));
    }
  }

  /** What order and distinctness say of the last entry. */
  lemma {:induction false} FrontOf(m: MoneyMap)
    requires m != []
    ensures var front, last := m[..|m| - 1], m[|m| - 1];
      && (Ascending(m) ==> Ascending(front) && forall x :: x in front ==> x.0 <= last.0)
      && (Apart(m) ==> Apart(front) && forall x :: x in front ==> x.1 != last.1)
  {
  }

  lemma {:induction false} AppendKeeps(e: MoneyMap, last: (nat, Id))
    ensures Ascending(e) && (forall x :: x in e ==> x.0 <= last.0) ==> Ascending(e + [last])
    ensures Apart(e) && (forall x :: x in e ==> x.1 != last.1) ==> Apart(e + [last])
  {
  }

  lemma {:induction false} EmplaceApart(m: MoneyMap, worth: nat, item: Id)
    requires Apart(m) && forall e :: e in m ==> e.1 != item
    ensures Apart(Emplace(m, worth, item))
  {
    if m != [] && m[|m| - 1].0 > worth {
      var front, last := m[..|m| - 1], m[|m| - 1];
      FrontOf(m);
      EmplaceApart(front, worth, item);
      EmplaceAdds(front, worth, item);
      var e := Emplace(front, worth, item);
      forall x | x in e ensures x.1 != last.1 {}
      AppendKeeps(e, last);
    } else {
      AppendKeeps(m, (worth, item));
    }
  }

  ghost function VisitedWorth(visited: seq<Id>, t: Table): nat {
    if visited == [] then 0
    else VisitedWorth(visited[..|visited| - 1], t) + UnitsAt(visited[|visited| - 1], t, CoinWorth)
  }

  lemma {:induction false} VisitedWorthIsOver(visited: seq<Id>, s: set<Id>, t: Table)
    requires Distinct(visited) && forall x :: x in visited <==> x in s
    ensures VisitedWorth(visited, t) == Over(s, t, CoinWorth)
  {
    if visited == [] {
      assert s == {};
    } else {
      var front, last := visited[..|visited| - 1], visited[|visited| - 1];
      assert visited == front + [last];
      VisitedWorthIsOver(front, s - {last}, t);
      OverSplit(s, last, t, CoinWorth);
    }
  }

  /** The coins recorded so far are exactly worth what has been visited so far. */
  ghost predicate Found(m: MoneyMap, count: nat, visited: seq<Id>, t: Table) {
    Coined(m, visited, t) && count == EntrySum(m) == VisitedWorth(visited, t)
  }

  lemma {:induction false} FoundCoin(m: MoneyMap, count: nat, visited: seq<Id>, item: Id, worth: nat, t: Table)
    requires Found(m, count, visited, t) && IsCoin(item, worth, t) && item !in visited
    ensures Found(Emplace(m, worth, item), count + worth, visited + [item], t)
  {
    assert (visited + [item])[..|visited|] == visited;
    EmplaceCoined(m, visited, worth, item, t);
    EmplaceAdds(m, worth, item);
  }

  lemma {:induction false} EmplaceCoined(m: MoneyMap, visited: seq<Id>, worth: nat, item: Id, t: Table)
    requires Coined(m, visited, t) && IsCoin(item, worth, t) && item !in visited
    ensures Coined(Emplace(m, worth, item), visited + [item], t)
  {
    EmplaceSorts(m, worth, item);
    EmplaceApart(m, worth, item);
    EmplaceAdds(m, worth, item);
    InOrderOn(m, visited, item);
    EmplaceInOrder(m, visited + [item], worth, item);
  }

  lemma FoundNothing(m: MoneyMap, count: nat, visited: seq<Id>, item: Id, t: Table)
    requires Found(m, count, visited, t) && UnitsAt(item, t, CoinWorth) == 0
    ensures Found(m, count, visited + [item], t)
  {
    assert (visited + [item])[..|visited|] == visited;
    InOrderOn(m, visited, item);
  }

  /** Records the worth of one visited item. */
  method Record(w: ItemWorld, item: Id, m0: MoneyMap, count0: nat, ghost visited: seq<Id>)
    returns (m: MoneyMap, count: nat)
    requires item in w.items && (w.items[item].isContainer ==> UnitWorth(w.items[item].kind) == 0)
    requires Found(m0, count0, visited, w.items) && item !in visited
    ensures Found(m, count, visited + [item], w.items)
  {
    m, count := m0, count0;
    var e := w.items[item];
    CoinUnits(e);
    TimesIsProduct(e.count, UnitWorth(e.kind));
    if !e.isContainer && e.count * UnitWorth(e.kind) != 0 {
      var worth := e.count * UnitWorth(e.kind);
      FoundCoin(m, count, visited, item, worth, w.items);
      m, count := Emplace(m, worth, item), count + worth;
    } else {
      FoundNothing(m, count, visited, item, w.items);
    }
  }

  /** Goes through one item list: coins are recorded, containers come back in `more`. */
  method ScanList(w: ItemWorld, x: Id, m0: MoneyMap, count0: nat,
                  ghost c: Id, ghost visited0: seq<Id>, ghost done: seq<Id>, ghost over: seq<Id>)
    returns (more: seq<Id>, m: MoneyMap, count: nat, ghost visited: seq<Id>)
    requires w.Ok() && CoinsStack(w.items) && x in w.items && over != [] && over[0] == x
    requires GoodWalk(c, visited0, done, over, 0, true, w.items, w.height)
    requires Found(m0, count0, visited0, w.items)
    ensures GoodWalk(c, visited, done, over + more, |w.items[x].itemlist|, true, w.items, w.height)
    ensures Found(m, count, visited, w.items)
  {
    more, m, count, visited := [], m0, count0, visited0;
    var list, i := w.items[x].itemlist, 0;
    assert over + more == over;
    while i < |list|
      invariant 0 <= i <= |list|
      invariant GoodWalk(c, visited, done, over + more, i, true, w.items, w.height)
      invariant Found(m, count, visited, w.items)
    {
      var next;
      next, m, count := ScanEntry(w, x, i, m, count, c, visited, done, over, more);
      visited, more := visited + [list[i]], next;
      i := i + 1;
    }
  }

  /** One entry of the list. */
  method ScanEntry(w: ItemWorld, x: Id, i: nat, m0: MoneyMap, count0: nat,
                   ghost c: Id, ghost visited: seq<Id>, ghost done: seq<Id>, ghost over: seq<Id>, more0: seq<Id>)
    returns (more: seq<Id>, m: MoneyMap, count: nat)
    requires w.Ok() && CoinsStack(w.items) && x in w.items && over != [] && over[0] == x && i < |w.items[x].itemlist|
    requires GoodWalk(c, visited, done, over + more0, i, true, w.items, w.height) && Found(m0, count0, visited, w.items)
    ensures GoodWalk(c, visited + [w.items[x].itemlist[i]], done, over + more, i + 1, true, w.items, w.height)
    ensures Found(m, count, visited + [w.items[x].itemlist[i]], w.items)
  {
    var item := w.items[x].itemlist[i];
    GoodStep(c, visited, done, over + more0, i, true, w.items, w.height);
    assert StackOk(w.items[item]);
    m, count := Record(w, item, m0, count0, visited);
    more := more0;
    if w.items[item].isContainer {
      assert over + more0 + [item] == over + (more0 + [item]);
      more := more0 + [item];
    }
  }

  lemma DropAppend(a: seq<Id>, i: nat, more: seq<Id>)
    requires i < |a|
    ensures (a[i..] + more)[1..] == (a + more)[i + 1..] && (a[i..] + more)[0] == a[i]
  {
  }

  /** The first half of `removeMoney`: all coins inside `c`, by ascending worth, and of equal
      worth in the order in which the walk comes to them. */
  method CollectMoney(w: ItemWorld, c: Id) returns (m: MoneyMap, count: nat, ghost visited: seq<Id>,
                                                    ghost done: seq<Id>)
    requires w.Ok() && CoinsStack(w.items) && c in w.items && w.items[c].isContainer
    ensures count == EntrySum(m) == HeldWorth(c, w.items, w.height)
    ensures Apart(m) && Ascending(m) && forall e :: e in m ==>
      IsCoin(e.1, e.0, w.items) && e.1 in Under(c, w.items, w.height)
    ensures GoodWalk(c, visited, done, [], 0, true, w.items, w.height) && InOrder(m, visited)
  {
    ghost var t, h := w.items, w.height;
    var containers;
    containers, m, count, visited := ScanList(w, c, [], 0, c, [], [], [c]);
    GoodNext(c, visited, [], [c] + containers, |t[c].itemlist|, true, t, h);
    done := [c];
    assert ([c] + containers)[1..] == containers && [] + [c] == done;
    var i := 0;
    while i < |containers|
      invariant 0 <= i <= |containers|
      invariant GoodWalk(c, visited, done, containers[i..], 0, true, t, h)
      invariant Found(m, count, visited, t)
      decreases |Under(c, t, h) + {c}| - |done|
    {
      var x, more := containers[i], [];
      ghost var over := containers[i..];
      more, m, count, visited := ScanList(w, x, m, count, c, visited, done, over);
      GoodNext(c, visited, done, over + more, |t[x].itemlist|, true, t, h);
      DropAppend(containers, i, more);
      containers := containers + more;
      done := done + [x];
      i := i + 1;
    }
    assert containers[i..] == [];
    WalkComplete(c, visited, done, true, t, h);
    VisitedWorthIsOver(visited, Under(c, t, h), t);
  }

  // ---- what a payment leaves alone ----------------------------------------------------------

  /** Coins in `spend` may be gone or worth something else; coins directly in the overflow may
      have grown; and of anything else at most the list has changed, if it is in the purse. */
  predicate PayKeeps(t: Table, t': Table, purse: Purse, spend: set<Id>, x: Id)
    requires x in t
  {
    if Coin(t[x]) && x in spend then x in t' ==> t'[x] == t[x].(count := t'[x].count, attrs := t'[x].attrs)
    else if Coin(t[x]) then
      && x in t' && t[x].count <= t'[x].count
      && (t'[x] == t[x] ||
          (t[x].parent == Some(purse.tile) && t'[x] == t[x].(count := t'[x].count, attrs := t'[x].attrs)))
    else
      && x in t' && t'[x] == t[x].(itemlist := t'[x].itemlist)
      && (t'[x].itemlist == t[x].itemlist || x in spend || x == purse.c || x == purse.tile)
  }

  /** All that is new is coins in the purse. */
  ghost predicate Handled(t: Table, t': Table, purse: Purse, spend: set<Id>) {
    && (forall x :: x in t ==> PayKeeps(t, t', purse, spend, x))
    && (forall x :: x in t' && x !in t ==> Coin(t'[x]) && InPurse(t'[x], purse))
    && NoStrays(t, t')
  }

  /** The table is worth `n` less, at the expense of coins in `spend`. */
  ghost predicate Paid(t: Table, t': Table, purse: Purse, spend: set<Id>, n: nat) {
    && PurseOk(t, purse) && PurseOk(t', purse)
    && Total(t', CoinWorth) + n == Total(t, CoinWorth)
    && Handled(t, t', purse, spend)
  }

  lemma {:induction false} MintedHandled(t: Table, h: Heights, t': Table, purse: Purse, n: nat)
    requires IsForest(t, h) && Minted(t, t', purse, n)
    ensures Handled(t, t', purse, Under(purse.c, t, h))
  {
    forall x | x in t
      ensures PayKeeps(t, t', purse, Under(purse.c, t, h), x)
    {
      assert MintKeeps(t, t', purse, x);
      DirectlyInside(x, purse, t, h);
    }
  }

  /** One thing after the other. Ids are never used again. */
  lemma {:induction false} HandledOn(t: Table, t1: Table, t2: Table, purse: Purse, spend: set<Id>, spend1: set<Id>)
    requires Handled(t, t1, purse, spend) && Handled(t1, t2, purse, spend1)
    requires (forall x :: x in t && x in t1 && x in spend1 ==> x in spend) && forall x :: x in t && x in t2 ==> x in t1
    ensures Handled(t, t2, purse, spend)
  {
    forall x | x in t
      ensures PayKeeps(t, t2, purse, spend, x)
    {
      assert PayKeeps(t, t1, purse, spend, x);
      if x in t1 { assert PayKeeps(t1, t2, purse, spend1, x); }
    }
    forall x | x in t2 && x !in t
      ensures Coin(t2[x]) && InPurse(t2[x], purse)
    {
      if x in t1 { assert PayKeeps(t1, t2, purse, spend1, x); }
    }
  }

  lemma {:induction false} HandledLocal(t: Table, h: Heights, t': Table, purse: Purse)
    requires IsForest(t, h) && PurseOk(t, purse) && Handled(t, t', purse, Under(purse.c, t, h))
    ensures Local(t, t', purse, Inside(purse, t, h))
  {
    forall x | x in t
      ensures x in t' ==> t'[x].parent == t[x].parent
      ensures x !in t' ==> x in Inside(purse, t, h) && t[x].itemlist == []
      ensures x in t' && x !in Inside(purse, t, h) ==> UnitsAt(x, t', CoinWorth) == UnitsAt(x, t, CoinWorth)
    {
      assert PayKeeps(t, t', purse, Under(purse.c, t, h), x) && Linked(x, t, h);
      DirectlyInside(x, purse, t, h);
    }
  }

  /** Whoever is left is still inside the purse, or still not. */
  lemma {:induction false} UnderKept(t: Table, h: Heights, t': Table, h': Heights, purse: Purse)
    requires IsForest(t, h) && IsForest(t', h') && PurseOk(t, purse) && Handled(t, t', purse, Under(purse.c, t, h))
    ensures forall x :: x in t && x in t' ==> (x in Under(purse.c, t', h') <==> x in Under(purse.c, t, h))
  {
    HandledLocal(t, h, t', purse);
    forall x | x in t && x in t'
      ensures x in Under(purse.c, t', h') <==> x in Under(purse.c, t, h)
    {
      AroundLocal(x, t, h, t', h');
    }
  }

  /** What is paid comes out of the purse. */
  lemma {:induction false} PaidFromPurse(t: Table, h: Heights, t': Table, h': Heights, purse: Purse, n: nat)
    requires IsForest(t, h) && IsForest(t', h') && Paid(t, t', purse, Under(purse.c, t, h), n)
    ensures PurseWorth(purse, t', h') + n == PurseWorth(purse, t, h)
  {
    HandledLocal(t, h, t', purse);
    PurseGains(t, h, t', h', purse);
  }

  // ---- taking coins ---------------------------------------------------------------------------

  /** `count` units taken off a stack for good. */
  function TakenOff(t: Table, x: Id, count: nat): Table {
    if x in t && t[x].parent.Some? && t[x].parent.value in t && x in t[t[x].parent.value].itemlist
    then Removed(t, t[x].parent.value, x, count)
    else t
  }

  /** All these stacks taken, one after the other. */
  function TakeAll(t: Table, m: MoneyMap): Table {
    if m == [] then t
    else
      var t1, x := TakeAll(t, m[..|m| - 1]), m[|m| - 1].1;
      TakenOff(t1, x, if x in t1 then t1[x].count else 0)
  }

  /** A coin stack that can be spent. */
  ghost predicate Spendable(x: Id, worth: nat, purse: Purse, t: Table, h: Heights)
    requires IsForest(t, h)
  {
    IsCoin(x, worth, t) && Coin(t[x]) && x in Under(purse.c, t, h) && t[x].kind.stackable
  }

  lemma {:induction false} CoinRemovedWorth(t: Table, c: Id, item: Id, count: nat)
    requires c in t && item in t && item in t[c].itemlist && c != item
    requires t[item].kind.stackable && t[item].itemlist == [] && count <= t[item].count
    ensures Total(Removed(t, c, item, count), CoinWorth) + Times(count, UnitWorth(t[item].kind)) == Total(t, CoinWorth)
  {
    var t1 := Taken(t, c, item, count);
    CoinUnits(t[item]);
    assert CoinWorth(SortOf(t[item])) == UnitWorth(t[item].kind) + Times(0, UnitWorth(t[item].kind));
    TakenTotal(t, c, item, count, CoinWorth);
    if count == t[item].count {
      TotalRemove(t1, item, CoinWorth);
    }
  }

  lemma {:induction false} CoinRemoved(t: Table, c: Id, item: Id, count: nat)
    requires c in t && item in t && item in t[c].itemlist && c != item
    requires t[item].kind.stackable && t[item].itemlist == [] && !t[item].isContainer && count <= t[item].count
    ensures var t' := Removed(t, c, item, count);
      && NoStrays(t, t') && t'.Keys <= t.Keys
      && (item in t' ==> t'[item] == t[item].(count := t'[item].count))
      && forall x :: x in t && x != item ==>
           x in t' && t'[x] == t[x].(itemlist := t'[x].itemlist) && (x != c ==> t'[x] == t[x])
  {
    if count >= t[item].count {
      var t1 := Detached(c, item, t);
      assert forall x :: x in t && x != item ==>
        t1[x] == t[x].(itemlist := t1[x].itemlist) && (x != c ==> t1[x] == t[x]);
    }
  }

  /** Where a coin inside the purse sits. */
  lemma {:induction false} CoinSits(t: Table, h: Heights, item: Id, purse: Purse)
    requires IsForest(t, h) && PurseOk(t, purse) && item in Under(purse.c, t, h) && !t[item].isContainer
    ensures t[item].parent.Some? && t[item].itemlist == [] && item != purse.c && item != purse.tile
    ensures var p := t[item].parent.value;
      p in t && p != item && item in t[p].itemlist && t[p].isContainer && (p == purse.c || p in Under(purse.c, t, h))
  {
    assert Linked(item, t, h);
    var p := t[item].parent.value;
    assert Linked(p, t, h);
    assert Around(item, t, h) == {item} + Around(p, t, h);
  }

  lemma {:induction false} TakenHandled(t: Table, h: Heights, item: Id, count: nat, purse: Purse)
    requires IsForest(t, h) && PurseOk(t, purse) && item in Under(purse.c, t, h) && Coin(t[item])
    requires t[item].kind.stackable && count <= t[item].count
    ensures Paid(t, TakenOff(t, item, count), purse, Under(purse.c, t, h), Times(count, UnitWorth(t[item].kind)))
    ensures var t' := TakenOff(t, item, count);
      t'.Keys <= t.Keys && forall x :: x in t && x != item && !t[x].isContainer ==> x in t' && t'[x] == t[x]
  {
    CoinSits(t, h, item, purse);
    var p := t[item].parent.value;
    CoinRemoved(t, p, item, count);
    CoinRemovedWorth(t, p, item, count);
    forall x | x in t
      ensures PayKeeps(t, TakenOff(t, item, count), purse, Under(purse.c, t, h), x)
    {
    }
  }

  /** Takes `count` units of a coin stack for good. */
  method TakeCoins(w: ItemWorld, item: Id, count: nat, ghost purse: Purse)
    requires w.Ok() && PurseOk(w.items, purse) && item in Under(purse.c, w.items, w.height) && Coin(w.items[item])
    requires w.items[item].kind.stackable && 0 < count <= w.items[item].count
    modifies w`items, w`totalWeight
    ensures w.Ok() && w.items == TakenOff(old(w.items), item, count)
  {
    CoinSits(w.items, w.height, item, purse);
    var r := InternalRemoveItem(w, item, count, NO_FLAGS);
  }

  /** How many units of value `unit` cover `money`, rounding up. */
  function CoinsFor(money: nat, unit: nat): (n: nat)
    requires unit > 0
    ensures n * unit >= money > (n - 1) * unit || money == 0
  {
    (money + unit - 1) / unit
  }

  /** What is handed back when `owed` is paid with coins of value `unit`. */
  function Change(owed: nat, unit: nat): (c: nat)
    requires unit > 0
  {
    CoinsFor(owed, unit) * unit - owed
  }

  /** A stack is broken: the change for enough of its coins is minted, then those coins go. */
  ghost predicate BrokenUp(steps: seq<Scene>, start: Scene, t': Table, item: Id, owed: nat, sc: bool,
                           coins: Coins, purse: Purse, flags: Flags) {
    && item in start.t && UnitWorth(start.t[item].kind) > 0 && steps != []
    && var unit, now := UnitWorth(start.t[item].kind), steps[|steps| - 1];
       Minting(steps, ChangeStacks(coins, Change(owed, unit)), sc, purse, flags, start, now)
         && t' == TakenOff(now.t, item, CoinsFor(owed, unit))
  }

  /** Breaks one stack: takes enough of it and hands the difference back. */
  method BreakStack(w: ItemWorld, sc: bool, coins: Coins, purse: Purse, item: Id, owed: nat, flags: Flags)
    returns (ghost steps: seq<Scene>)
    requires w.Ok() && PurseOk(w.items, purse) && CoinsOk(coins) && !flags.childIsOwner
    requires item in w.items && Spendable(item, Units(w.items[item], CoinWorth), purse, w.items, w.height)
    requires 0 < owed < Units(w.items[item], CoinWorth)
    modifies w
    ensures w.Ok() && Paid(old(w.items), w.items, purse, Under(purse.c, old(w.items), old(w.height)), owed)
    ensures BrokenUp(steps, Scene(old(w.items), old(w.height)), w.items, item, owed, sc, coins, purse, flags)
    ensures w.nextId >= old(w.nextId) && NewFrom(old(w.items), w.items, old(w.nextId))
  {
    ghost var t, h := w.items, w.height;
    var removeCount, change := HowMany(w.items[item], owed);
    steps := AddMoney(w, sc, coins, purse, change, flags);
    TakePart(w, t, h, purse, item, change, removeCount, owed);
  }

  /** The second half: the coins go, once the change has been minted. */
  method TakePart(w: ItemWorld, ghost t: Table, ghost h: Heights, ghost purse: Purse, item: Id, ghost change: nat,
                  count: nat, ghost owed: nat)
    requires w.Ok() && IsForest(t, h) && Minted(t, w.items, purse, change)
    requires item in Under(purse.c, t, h) && Coin(t[item]) && t[item].kind.stackable && change < UnitWorth(t[item].kind)
    requires 0 < count <= t[item].count && Times(count, UnitWorth(t[item].kind)) == change + owed
    modifies w`items, w`totalWeight
    ensures w.Ok() && w.items == TakenOff(old(w.items), item, count) && w.items.Keys <= old(w.items).Keys
    ensures Paid(t, w.items, purse, Under(purse.c, t, h), owed)
  {
    ghost var t1, h1 := w.items, w.height;
    MintedStays(t, h, t1, h1, purse, item, change);
    TakeCoins(w, item, count, purse);
    BreakPays(t, h, t1, h1, purse, item, change, count, owed);
  }

  /** How many coins of a stack cover what is owed, and what they are worth beyond it. */
  method HowMany(e: Entry, owed: nat) returns (removeCount: nat, change: nat)
    requires 0 < owed < Units(e, CoinWorth) && UnitWorth(e.kind) > 0
    ensures removeCount == CoinsFor(owed, UnitWorth(e.kind)) && change == Change(owed, UnitWorth(e.kind))
    ensures 0 < removeCount <= e.count && change < UnitWorth(e.kind)
    ensures Times(removeCount, UnitWorth(e.kind)) == change + owed
    ensures change / 10000 * 10000 < U32
  {
    CoinUnits(e);
    TimesIsProduct(e.count, UnitWorth(e.kind));
    var worth := e.count * UnitWorth(e.kind) / e.count;
    UnitOfStack(e.count, UnitWorth(e.kind));
    removeCount := CoinsFor(owed, worth);
    CoverStaysBelow(owed, worth, e.count);
    change := worth * removeCount - owed;
    TimesIsProduct(removeCount, worth);
  }

  /** Minting the change leaves the stack that is being broken alone. */
  lemma {:induction false} MintedStays(t: Table, h: Heights, t1: Table, h1: Heights, purse: Purse, item: Id,
                                       change: nat)
    requires IsForest(t, h) && IsForest(t1, h1) && Minted(t, t1, purse, change)
    requires item in Under(purse.c, t, h) && Coin(t[item]) && change < UnitWorth(t[item].kind)
    ensures item in t1 && t1[item] == t[item] && item in Under(purse.c, t1, h1)
  {
    MintedHandled(t, h, t1, purse, change);
    UnderKept(t, h, t1, h1, purse);
  }

  lemma {:induction false} BreakPays(t: Table, h: Heights, t1: Table, h1: Heights, purse: Purse, item: Id,
                                     change: nat, count: nat, owed: nat)
    requires IsForest(t, h) && IsForest(t1, h1) && Minted(t, t1, purse, change)
    requires item in Under(purse.c, t, h) && Coin(t[item]) && t[item].kind.stackable && change < UnitWorth(t[item].kind)
    requires count <= t[item].count && Times(count, UnitWorth(t[item].kind)) == change + owed
    ensures var t2 := TakenOff(t1, item, count);
      Paid(t, t2, purse, Under(purse.c, t, h), owed) && t2.Keys <= t1.Keys
  {
    MintedStays(t, h, t1, h1, purse, item, change);
    MintedHandled(t, h, t1, purse, change);
    UnderKept(t, h, t1, h1, purse);
    TakenHandled(t1, h1, item, count, purse);
    forall x | x in t ensures x in t1 { assert MintKeeps(t, t1, purse, x); }
    HandledOn(t, t1, TakenOff(t1, item, count), purse, Under(purse.c, t, h), Under(purse.c, t1, h1));
  }

  lemma UnitOfStack(count: nat, unit: nat)
    requires count > 0
    ensures count * unit / count == unit
  {
    var q, r := count * unit / count, count * unit % count;
    assert count * unit == count * q + r;
    if q < unit {
      MulMono(q + 1, unit, count);
    } else if q > unit {
      MulMono(unit + 1, q, count);
    }
  }

  lemma MulMono(a: nat, b: nat, u: nat)
    requires a <= b
    ensures a * u <= b * u
  {
  }

  lemma CoverStaysBelow(money: nat, unit: nat, count: nat)
    requires 0 < money < count * unit && unit > 0
    ensures 0 < CoinsFor(money, unit) <= count && CoinsFor(money, unit) * unit - money < unit
  {
    var n := CoinsFor(money, unit);
    if n > count {
      MulMono(count, n - 1, unit);
    }
  }

  /** One turn of the loop of `removeMoney`: a whole stack while it is worth no more than
      what is owed, or part of a stack that settles it. */
  method PayStack(w: ItemWorld, sc: bool, coins: Coins, purse: Purse, worth: nat, item: Id, owed: nat, flags: Flags)
    returns (left: nat, ghost steps: seq<Scene>)
    requires w.Ok() && PurseOk(w.items, purse) && CoinsOk(coins) && !flags.childIsOwner && owed > 0
    requires Spendable(item, worth, purse, w.items, w.height)
    modifies w
    ensures w.Ok() && left == (if worth >= owed then 0 else owed - worth)
    ensures Paid(old(w.items), w.items, purse, Under(purse.c, old(w.items), old(w.height)), owed - left)
    ensures if worth <= owed then w.items == TakenOff(old(w.items), item, old(w.items[item].count))
            else BrokenUp(steps, Scene(old(w.items), old(w.height)), w.items, item, owed, sc, coins, purse, flags)
    ensures w.nextId >= old(w.nextId) && NewFrom(old(w.items), w.items, old(w.nextId))
    ensures left > 0 ==> forall x :: x in old(w.items) && x != item && !old(w.items[x]).isContainer ==>
      x in w.items && w.items[x] == old(w.items[x])
  {
    steps := [];
    if worth > owed {
      left := 0;
      steps := BreakStack(w, sc, coins, purse, item, owed, flags);
    } else {
      PayWhole(w, purse, worth, item);
      left := owed - worth;
    }
  }

  /** A whole stack goes. */
  method PayWhole(w: ItemWorld, ghost purse: Purse, ghost worth: nat, item: Id)
    requires w.Ok() && PurseOk(w.items, purse) && Spendable(item, worth, purse, w.items, w.height)
    modifies w`items, w`totalWeight
    ensures w.Ok() && w.items == TakenOff(old(w.items), item, old(w.items[item].count))
    ensures Paid(old(w.items), w.items, purse, Under(purse.c, old(w.items), old(w.height)), worth)
    ensures NewFrom(old(w.items), w.items, old(w.nextId))
    ensures forall x :: x in old(w.items) && x != item && !old(w.items[x]).isContainer ==>
      x in w.items && w.items[x] == old(w.items[x])
  {
    CoinUnits(w.items[item]);
    TakenHandled(w.items, w.height, item, w.items[item].count, purse);
    assert StackOk(w.items[item]);
    TakeCoins(w, item, w.items[item].count, purse);
  }

  /** The entries still to come are as they were found. */
  ghost predicate Intact(m: MoneyMap, purse: Purse, t: Table, h: Heights)
    requires IsForest(t, h)
  {
    forall e :: e in m ==> Spendable(e.1, e.0, purse, t, h)
  }

  /** How `money` is paid: the stacks before `k` are taken whole, in ascending order of worth,
      and what is still owed then comes out of the stack at `k`, against change. */
  ghost predicate PaidOut(t: Table, t': Table, m: MoneyMap, k: nat, money: nat, steps: seq<Scene>,
                          sc: bool, coins: Coins, purse: Purse, flags: Flags) {
    && k <= |m| && EntrySum(m[..k]) <= money
    && var t1, owed := TakeAll(t, m[..k]), money - EntrySum(m[..k]);
       if owed == 0 then t' == t1
       else
         && k < |m| && owed < m[k].0 && steps != [] && steps[0].t == t1
         && BrokenUp(steps, steps[0], t', m[k].1, owed, sc, coins, purse, flags)
  }

  /** The loop of `removeMoney`. It never runs out. */
  method PayFrom(w: ItemWorld, sc: bool, coins: Coins, purse: Purse, m: MoneyMap, money: nat, flags: Flags)
    returns (ghost k: nat, ghost steps: seq<Scene>)
    requires w.Ok() && PurseOk(w.items, purse) && CoinsOk(coins) && !flags.childIsOwner
    requires Apart(m) && Intact(m, purse, w.items, w.height) && 0 < money <= EntrySum(m)
    modifies w
    ensures w.Ok() && Paid(old(w.items), w.items, purse, Under(purse.c, old(w.items), old(w.height)), money)
    ensures PaidOut(old(w.items), w.items, m, k, money, steps, sc, coins, purse, flags)
  {
    ghost var start := Scene(w.items, w.height);
    var owed, i := money, 0;
    HandledSelf(start.t, purse, Under(purse.c, start.t, start.h));
    assert m[0..] == m && m[..0] == [];
    while i < |m|
      invariant w.Ok() && 0 <= i <= |m| && Intact(m[i..], purse, w.items, w.height)
      invariant 0 < owed <= money && owed <= EntrySum(m[i..]) && owed + EntrySum(m[..i]) == money
      invariant Paid(start.t, w.items, purse, Under(purse.c, start.t, start.h), money - owed)
      invariant w.items == TakeAll(start.t, m[..i]) && forall x :: x in start.t ==> x < w.nextId
    {
      ghost var before := owed;
      owed, steps := PayNext(w, sc, coins, purse, m, i, owed, flags, start, money);
      TakeOneMore(start.t, m, i);
      if owed == 0 {
        k := if m[i].0 <= before then i + 1 else i;
        return;
      }
      i := i + 1;
    }
  }

  lemma {:induction false} HandledSelf(t: Table, purse: Purse, spend: set<Id>)
    ensures Handled(t, t, purse, spend)
  {
    forall x | x in t ensures PayKeeps(t, t, purse, spend, x) {}
  }

  lemma {:induction false} TakeOneMore(t: Table, m: MoneyMap, k: nat)
    requires k < |m|
    ensures EntrySum(m[..k + 1]) == EntrySum(m[..k]) + m[k].0
    ensures var t1, x := TakeAll(t, m[..k]), m[k].1;
      TakeAll(t, m[..k + 1]) == TakenOff(t1, x, if x in t1 then t1[x].count else 0)
  {
    assert m[..k + 1][..k] == m[..k] && m[..k + 1][k] == m[k];
  }

  /** One turn of that loop, within the whole payment of `money` that began at `start`. */
  method PayNext(w: ItemWorld, sc: bool, coins: Coins, purse: Purse, m: MoneyMap, k: nat, owed: nat, flags: Flags,
                 ghost start: Scene, ghost money: nat) returns (left: nat, ghost steps: seq<Scene>)
    requires w.Ok() && PurseOk(w.items, purse) && CoinsOk(coins) && !flags.childIsOwner && IsForest(start.t, start.h)
    requires Apart(m) && k < |m| && Intact(m[k..], purse, w.items, w.height)
    requires 0 < owed <= money && owed <= EntrySum(m[k..])
    requires Paid(start.t, w.items, purse, Under(purse.c, start.t, start.h), money - owed)
    requires forall x :: x in start.t ==> x < w.nextId
    modifies w
    ensures w.Ok() && left < money && left == (if m[k].0 >= owed then 0 else owed - m[k].0)
    ensures Paid(start.t, w.items, purse, Under(purse.c, start.t, start.h), money - left)
    ensures m[k].1 in old(w.items)
    ensures if m[k].0 <= owed then w.items == TakenOff(old(w.items), m[k].1, old(w.items[m[k].1].count))
            else BrokenUp(steps, Scene(old(w.items), old(w.height)), w.items, m[k].1, owed, sc, coins, purse, flags)
    ensures left > 0 ==> Intact(m[k + 1..], purse, w.items, w.height) && left <= EntrySum(m[k + 1..])
    ensures forall x :: x in start.t ==> x < w.nextId
  {
    FirstIntact(m, k, purse, w.items, w.height);
    ghost var t1, h1 := w.items, w.height;
    left, steps := PayStack(w, sc, coins, purse, m[k].0, m[k].1, owed, flags);
    assert Paid(t1, w.items, purse, Under(purse.c, t1, h1), owed - left);
    PaidOn(start, t1, h1, w.items, purse, money - owed, owed - left);
    if left > 0 {
      RestIntact(m, k, purse, t1, h1, w.items, w.height, owed);
    }
  }

  /** The entries after a stack that was not worth what is owed. */
  lemma {:induction false} RestIntact(m: MoneyMap, k: nat, purse: Purse, t: Table, h: Heights, t': Table, h': Heights,
                                      owed: nat)
    requires IsForest(t, h) && IsForest(t', h') && Apart(m) && k < |m| && Intact(m[k..], purse, t, h)
    requires m[k].0 < owed <= EntrySum(m[k..])
    requires Paid(t, t', purse, Under(purse.c, t, h), m[k].0)
    requires forall x :: x in t && x != m[k].1 && !t[x].isContainer ==> x in t' && t'[x] == t[x]
    ensures Intact(m[k + 1..], purse, t', h') && owed - m[k].0 <= EntrySum(m[k + 1..])
  {
    FirstIntact(m, k, purse, t, h);
    UnderKept(t, h, t', h', purse);
    StillIntact(m, k, purse, t, h, t', h');
  }

  /** Paying again, at the expense of what is then in the container. */
  lemma {:induction false} PaidOn(start: Scene, t1: Table, h1: Heights, t2: Table, purse: Purse, a: nat, b: nat)
    requires IsForest(start.t, start.h) && IsForest(t1, h1)
    requires Paid(start.t, t1, purse, Under(purse.c, start.t, start.h), a)
    requires Paid(t1, t2, purse, Under(purse.c, t1, h1), b)
    requires forall x :: x in start.t && x in t2 ==> x in t1
    ensures Paid(start.t, t2, purse, Under(purse.c, start.t, start.h), a + b)
  {
    UnderKept(start.t, start.h, t1, h1, purse);
    HandledOn(start.t, t1, t2, purse, Under(purse.c, start.t, start.h), Under(purse.c, t1, h1));
  }

  lemma {:induction false} FirstIntact(m: MoneyMap, k: nat, purse: Purse, t: Table, h: Heights)
    requires IsForest(t, h) && k < |m| && Intact(m[k..], purse, t, h)
    ensures Spendable(m[k].1, m[k].0, purse, t, h)
    ensures EntrySum(m[k..]) == m[k].0 + EntrySum(m[k + 1..])
  {
    assert m[k..][0] == m[k] && m[k] in m[k..];
    EntrySumSplit(m[k..]);
    assert m[k..][1..] == m[k + 1..];
  }

  lemma {:induction false} EntrySumSplit(m: MoneyMap)
    requires m != []
    ensures EntrySum(m) == m[0].0 + EntrySum(m[1..])
  {
    if |m| > 1 {
      EntrySumSplit(m[..|m| - 1]);
      assert m[..|m| - 1][1..] == m[1..][..|m| - 2];
    }
  }

  lemma {:induction false} StillIntact(m: MoneyMap, k: nat, purse: Purse, t: Table, h: Heights, t': Table, h': Heights)
    requires IsForest(t, h) && IsForest(t', h') && Apart(m) && k < |m| && Intact(m[k..], purse, t, h)
    requires forall x :: x in t && x != m[k].1 && !t[x].isContainer ==> x in t' && t'[x] == t[x]
    requires forall x :: x in t && x in t' ==> (x in Under(purse.c, t', h') <==> x in Under(purse.c, t, h))
    ensures Intact(m[k + 1..], purse, t', h')
  {
    forall e | e in m[k + 1..]
      ensures Spendable(e.1, e.0, purse, t', h')
    {
      var j :| 0 <= j < |m[k + 1..]| && m[k + 1..][j] == e;
      assert m[k..][j + 1] == e;
      assert m[k + 1 + j].1 != m[k].1;
    }
  }

  /** `Game::removeMoney`: nothing changes unless the coins inside the container are worth
      `money`; then exactly that much leaves the purse, smallest stacks first. */
  method RemoveMoney(w: ItemWorld, sc: bool, coins: Coins, purse: Purse, money: nat, flags: Flags)
    returns (paid: bool, ghost m: MoneyMap, ghost visited: seq<Id>, ghost done: seq<Id>, ghost k: nat,
             ghost steps: seq<Scene>)
    requires w.Ok() && PurseOk(w.items, purse) && CoinsOk(coins) && CoinsStack(w.items) && !flags.childIsOwner
    modifies w
    ensures w.Ok()
    ensures paid <==> HeldWorth(purse.c, old(w.items), old(w.height)) >= money
    ensures !paid || money == 0 ==> w.items == old(w.items)
    ensures paid ==> Paid(old(w.items), w.items, purse, Under(purse.c, old(w.items), old(w.height)), money)
    ensures paid ==> PurseWorth(purse, w.items, w.height) + money == PurseWorth(purse, old(w.items), old(w.height))
    ensures paid && money > 0 ==>
      && Ascending(m) && EntrySum(m) == HeldWorth(purse.c, old(w.items), old(w.height))
      && GoodWalk(purse.c, visited, done, [], 0, true, old(w.items), old(w.height)) && InOrder(m, visited)
      && Apart(m) && Intact(m, purse, old(w.items), old(w.height))
      && PaidOut(old(w.items), w.items, m, k, money, steps, sc, coins, purse, flags)
  {
    ghost var start := Scene(w.items, w.height);
    m, visited, done, k, steps := [], [], [], 0, [];
    if money == 0 {
      HandledSelf(start.t, purse, Under(purse.c, start.t, start.h));
      return true, [], [], [], 0, [];
    }
    var all, count;
    all, count, visited, done := CollectMoney(w, purse.c);
    m := all;
    if count < money {
      return false, m, visited, done, 0, [];
    }
    CoinsAreSpendable(all, purse, w.items, w.height);
    k, steps := PayFrom(w, sc, coins, purse, all, money, flags);
    PaidFromPurse(start.t, start.h, w.items, w.height, purse, money);
    paid := true;
  }

  lemma {:induction false} CoinsAreSpendable(m: MoneyMap, purse: Purse, t: Table, h: Heights)
    requires IsForest(t, h) && purse.c in t && CoinsStack(t)
    requires forall e :: e in m ==> IsCoin(e.1, e.0, t) && e.1 in Under(purse.c, t, h)
    ensures Intact(m, purse, t, h)
  {
    forall e | e in m
      ensures t[e.1].kind.stackable && Coin(t[e.1])
    {
      CoinUnits(t[e.1]);
      TimesIsProduct(t[e.1].count, UnitWorth(t[e.1].kind));
    }
  }
}
