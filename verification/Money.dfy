/** Coins: minting (`Game::addMoney`) and paying (`Game::removeMoney`). */
module Money {
  import opened Items
  import opened Forest
  import opened Containers
  import opened Options
  import opened Queries
  import opened Counting
  import opened Moves
  import opened Adds
  import opened Holding
  import opened Sequences

  const GOLD_COIN: nat := 3031
  const PLATINUM_COIN: nat := 3035
  const CRYSTAL_COIN: nat := 3043

  /** `Item::getWorth`, per unit. */
  function UnitWorth(kind: ItemType): nat {
    if kind.id == GOLD_COIN then 1
    else if kind.id == PLATINUM_COIN then 100
    else if kind.id == CRYSTAL_COIN then 10000
    else 0
  }

  /** The same as a measure. */
  function CoinWorth(s: Sort): nat {
    Times(s.each, UnitWorth(s.kind))
  }

  lemma CoinUnits(e: Entry)
    ensures Units(e, CoinWorth) == Times(e.count, UnitWorth(e.kind))
  {
    var unit := UnitWorth(e.kind);
    assert Times(1, unit) == unit + Times(0, unit);
    assert Times(1, Times(e.count, unit)) == Times(e.count, unit) + Times(0, Times(e.count, unit));
  }

  /** The three coin rows of the item table. */
  datatype Coins = Coins(gold: ItemType, platinum: ItemType, crystal: ItemType)

  predicate CoinRow(kind: ItemType, id: nat) {
    kind.id == id && kind.stackable && !kind.fluid && kind.pickupable
  }

  predicate CoinsOk(coins: Coins) {
    CoinRow(coins.gold, GOLD_COIN) && CoinRow(coins.platinum, PLATINUM_COIN) && CoinRow(coins.crystal, CRYSTAL_COIN)
  }

  /** Where money goes: a container, and an overflow that takes anything. */
  datatype Purse = Purse(c: Id, tile: Id)

  ghost predicate PurseOk(t: Table, purse: Purse) {
    purse.c in t && purse.tile in t && t[purse.c].isContainer && t[purse.tile].isContainer
  }

  predicate Coin(e: Entry) {
    !e.isContainer && UnitWorth(e.kind) > 0
  }

  /** Directly in one of the two containers money goes to. */
  predicate InPurse(e: Entry, purse: Purse) {
    e.parent == Some(purse.c) || e.parent == Some(purse.tile)
  }

  /** Stacks of coins directly in the purse may have grown, and the two lists may have new
      entries; everything else is as it was. */
  predicate MintKeeps(t: Table, t': Table, purse: Purse, x: Id)
    requires x in t
  {
    && x in t'
    && if x == purse.c || x == purse.tile then t'[x] == t[x].(itemlist := t'[x].itemlist)
       else if Coin(t[x]) && InPurse(t[x], purse) then
         t'[x] == t[x].(count := t'[x].count, attrs := t'[x].attrs) && t[x].count <= t'[x].count
       else t'[x] == t[x]
  }

  /** `n` units of value have been minted into a purse: the worth of the table is up by
      exactly `n`, all new items are coins in the purse, and coins worth more than `n` apiece
      are untouched. */
  ghost predicate Minted(t: Table, t': Table, purse: Purse, n: nat) {
    && PurseOk(t, purse) && PurseOk(t', purse)
    && Total(t', CoinWorth) == Total(t, CoinWorth) + n
    && NoStrays(t, t')
    && (forall x :: x in t ==> MintKeeps(t, t', purse, x))
    && (forall x :: x in t' && x !in t ==> Coin(t'[x]) && InPurse(t'[x], purse))
    && forall x :: x in t && !t[x].isContainer && UnitWorth(t[x].kind) > n ==> x in t' && t'[x] == t[x]
  }

  lemma {:induction false} MintedTwice(t: Table, t1: Table, t2: Table, purse: Purse, a: nat, b: nat)
    requires Minted(t, t1, purse, a) && Minted(t1, t2, purse, b)
    ensures Minted(t, t2, purse, a + b)
  {
    forall x | x in t
      ensures MintKeeps(t, t2, purse, x)
    {
      assert MintKeeps(t, t1, purse, x) && MintKeeps(t1, t2, purse, x);
    }
    forall x | x in t2 && x !in t
      ensures Coin(t2[x]) && InPurse(t2[x], purse)
    {
      if x in t1 { assert MintKeeps(t1, t2, purse, x); }
    }
  }

  /** The items and their heights at one moment. */
  datatype Scene = Scene(t: Table, h: Heights)

  ghost predicate SceneOk(s: Scene) {
    IsForest(s.t, s.h) && forall x :: x in s.t ==> StackOk(s.t[x])
  }

  /** One new stack, numbered `id`: it goes into the container if that takes it all, and
      only otherwise into the overflow. */
  ghost predicate MintsAs(s: Scene, s': Scene, sc: bool, purse: Purse, kind: ItemType, count: nat, flags: Flags,
                          id: Id) {
    var t1, h1 := s.t[id := Loose(kind, count, None)], s.h[id := 0];
    && SceneOk(s) && PurseOk(s.t, purse) && id !in s.t && IsForest(t1, h1)
    && Added(t1, s'.t, if Accepts(t1, h1, sc, purse.c, id, flags) then purse.c else purse.tile, id)
  }

  ghost predicate MintStep(s: Scene, s': Scene, sc: bool, purse: Purse, stack: (ItemType, nat), flags: Flags) {
    exists id :: MintsAs(s, s', sc, purse, stack.0, stack.1, flags, id)
  }

  /** New ids are new: none is smaller than `lo`. */
  predicate NewFrom(t: Table, t': Table, lo: Id) {
    forall x :: x in t' && x !in t ==> x >= lo
  }

  /** One new stack, in the container if it takes it all, else in the overflow. */
  method MintStack(w: ItemWorld, sc: bool, purse: Purse, kind: ItemType, count: nat, flags: Flags)
    requires w.Ok() && PurseOk(w.items, purse) && !flags.childIsOwner
    requires kind.stackable && !kind.fluid && kind.pickupable && 1 <= count <= 100
    modifies w
    ensures w.Ok() && PurseOk(w.items, purse)
    ensures MintsAs(Scene(old(w.items), old(w.height)), Scene(w.items, w.height), sc, purse, kind, count, flags,
      old(w.nextId))
    ensures w.nextId >= old(w.nextId) && NewFrom(old(w.items), w.items, old(w.nextId))
  {
    ghost var s := Scene(w.items, w.height);
    var item := w.Create(kind, count, None);
    ghost var t1, h1 := w.items, w.height;
    var r, remainder := InternalAddItem(w, sc, purse.c, item, flags, false);
    ghost var into := purse.c;
    if r != NoError {
      OverflowAccepts(s.t, s.h, t1, w.height, sc, purse.tile, item);
      r, remainder := InternalAddItem(w, sc, purse.tile, item, NO_FLAGS.(noLimit := true), false);
      into := purse.tile;
    }
    PurseStays(t1, w.items, purse, into, item);
  }

  lemma {:induction false} PurseStays(t1: Table, t2: Table, purse: Purse, into: Id, item: Id)
    requires item in t1 && into in t1 && PurseOk(t1, purse) && Added(t1, t2, into, item) && item != purse.c
    requires item != purse.tile
    ensures PurseOk(t2, purse)
  {
    assert purse.c != into ==> Filled(t1, t2, into, item, purse.c);
    assert purse.tile != into ==> Filled(t1, t2, into, item, purse.tile);
  }

  lemma OverflowAccepts(t: Table, h: Heights, t1: Table, h1: Heights, sc: bool, tile: Id, item: Id)
    requires IsForest(t, h) && IsForest(t1, h1) && tile in t && item !in t && item in t1
    requires t1 == t[item := t1[item]] && t1[item].kind.pickupable
    ensures Accepts(t1, h1, sc, tile, item, NO_FLAGS.(noLimit := true))
  {
    AroundSame(tile, t, h, t1, h1);
  }

  /** What an addition to the purse leaves of one item. */
  lemma {:induction false} AddedKeeps(t: Table, h: Heights, t1: Table, t2: Table, purse: Purse, into: Id,
                                      item: Id, x: Id)
    requires IsForest(t, h) && (forall y :: y in t ==> StackOk(t[y]))
    requires PurseOk(t, purse) && item !in t && item in t1 && t1 == t[item := t1[item]] && into in {purse.c, purse.tile}
    requires Added(t1, t2, into, item) && UnitWorth(t1[item].kind) > 0 && t1[item].kind.stackable && x in t
    ensures MintKeeps(t, t2, purse, x)
    ensures !t[x].isContainer && t[x].kind != t1[item].kind ==> x in t2 && t2[x] == t[x]
  {
    if x != into {
      assert Filled(t1, t2, into, item, x);
      assert Linked(into, t, h) && StackOk(t[x]);
    }
  }

  lemma {:induction false} AddedIsMinted(t: Table, h: Heights, t1: Table, t2: Table, purse: Purse, into: Id,
                                         item: Id, kind: ItemType, count: nat)
    requires IsForest(t, h) && (forall x :: x in t ==> StackOk(t[x]))
    requires PurseOk(t, purse) && item !in t && t1 == t[item := Loose(kind, count, None)]
    requires into in {purse.c, purse.tile}
    requires Added(t1, t2, into, item) && UnitWorth(kind) > 0 && count > 0 && kind.stackable
    ensures Minted(t, t2, purse, Times(count, UnitWorth(kind)))
  {
    AddedTotals(t, t1, t2, into, item, kind, count);
    forall x | x in t
      ensures MintKeeps(t, t2, purse, x)
      ensures !t[x].isContainer && t[x].kind != kind ==> x in t2 && t2[x] == t[x]
    {
      AddedKeeps(t, h, t1, t2, purse, into, item, x);
    }
    assert MintKeeps(t, t2, purse, purse.c) && MintKeeps(t, t2, purse, purse.tile);
    AtLeastOne(count, UnitWorth(kind));
    NewInPurse(t1, t2, into, item, purse, t);
  }

  lemma {:induction false} AddedTotals(t: Table, t1: Table, t2: Table, into: Id, item: Id, kind: ItemType, count: nat)
    requires into in t && item !in t && t1 == t[item := Loose(kind, count, None)] && Added(t1, t2, into, item)
    requires kind.stackable
    ensures Total(t2, CoinWorth) == Total(t, CoinWorth) + Times(count, UnitWorth(kind)) && NoStrays(t, t2)
  {
    CoinUnits(Loose(kind, count, None));
    TotalInsert(t, item, Loose(kind, count, None), CoinWorth);
  }

  lemma {:induction false} NewInPurse(t1: Table, t2: Table, into: Id, item: Id, purse: Purse, t: Table)
    requires item in t1 && into in t1 && Added(t1, t2, into, item) && into in {purse.c, purse.tile}
    requires forall x :: x in t1 ==> x in t || x == item
    requires !t1[item].isContainer && UnitWorth(t1[item].kind) > 0
    ensures forall x :: x in t2 && x !in t ==> Coin(t2[x]) && InPurse(t2[x], purse)
  {
  }

  lemma {:induction false} AtLeastOne(count: nat, unit: nat)
    requires count > 0
    ensures Times(count, unit) >= unit
  {
  }

  // ---- what a purse holds -----------------------------------------------------------

  /** Everything in the container or its overflow, at any depth. */
  ghost function Inside(purse: Purse, t: Table, h: Heights): set<Id>
    requires IsForest(t, h)
  {
    Under(purse.c, t, h) + Under(purse.tile, t, h)
  }

  ghost function PurseWorth(purse: Purse, t: Table, h: Heights): nat
    requires IsForest(t, h)
  {
    Over(Inside(purse, t, h), t, CoinWorth)
  }

  /** Nobody has moved; only single items inside the purse may be gone or worth something
      else, and what is new is in the purse. */
  ghost predicate Local(t: Table, t': Table, purse: Purse, inside: set<Id>) {
    && (forall x :: x in t && x in t' ==> t'[x].parent == t[x].parent)
    && (forall x :: x in t && x !in t' ==> x in inside && t[x].itemlist == [])
    && (forall x :: x in t && x in t' && x !in inside ==> UnitsAt(x, t', CoinWorth) == UnitsAt(x, t, CoinWorth))
    && (forall x :: x in t' && x !in t ==> InPurse(t'[x], purse))
  }

  /** Every container around an item holds something. */
  lemma {:induction false} AroundHolds(x: Id, t: Table, h: Heights)
    requires IsForest(t, h) && x in t
    ensures forall y :: y in Around(x, t, h) && y != x ==> t[y].itemlist != []
    decreases Around(x, t, h)
  {
    assert Linked(x, t, h);
    if t[x].parent.Some? {
      var p := t[x].parent.value;
      assert x !in Around(p, t, h);
      AroundHolds(p, t, h);
    }
  }

  /** Whoever is left is inside the same containers as before. */
  lemma {:induction false} AroundLocal(x: Id, t: Table, h: Heights, t': Table, h': Heights)
    requires IsForest(t, h) && IsForest(t', h') && x in t && x in t'
    requires forall y :: y in t && y in t' ==> t'[y].parent == t[y].parent
    requires forall y :: y in t && y !in t' ==> t[y].itemlist == []
    ensures Around(x, t', h') == Around(x, t, h)
  {
    AroundHolds(x, t, h);
    AroundSame(x, t, h, t', h');
  }

  lemma {:induction false} SameOutside(t: Table, h: Heights, t': Table, h': Heights, purse: Purse)
    requires IsForest(t, h) && IsForest(t', h') && PurseOk(t, purse) && PurseOk(t', purse)
    requires Local(t, t', purse, Inside(purse, t, h))
    ensures t'.Keys - Inside(purse, t', h') == t.Keys - Inside(purse, t, h)
  {
    forall x | x in t && x in t'
      ensures x in Inside(purse, t', h') <==> x in Inside(purse, t, h)
    {
      AroundLocal(x, t, h, t', h');
    }
    forall x | x in t' && x !in t
      ensures x in Inside(purse, t', h')
    {
      assert Linked(x, t', h');
      var p := t'[x].parent.value;
      assert Around(x, t', h') == {x} + Around(p, t', h') && p in Around(p, t', h');
    }
  }

  /** What the purse gains, the world gains. */
  lemma {:induction false} PurseGains(t: Table, h: Heights, t': Table, h': Heights, purse: Purse)
    requires IsForest(t, h) && IsForest(t', h') && PurseOk(t, purse) && PurseOk(t', purse)
    requires Local(t, t', purse, Inside(purse, t, h))
    ensures PurseWorth(purse, t', h') + Total(t, CoinWorth) == PurseWorth(purse, t, h) + Total(t', CoinWorth)
  {
    var a, a', b := Inside(purse, t, h), Inside(purse, t', h'), t.Keys - Inside(purse, t, h);
    SameOutside(t, h, t', h', purse);
    TotalParts(a, t, CoinWorth);
    TotalParts(a', t', CoinWorth);
    OverSame(b, t, t', CoinWorth);
  }

  lemma {:induction false} MintedGains(t: Table, h: Heights, t': Table, h': Heights, purse: Purse, n: nat)
    requires IsForest(t, h) && IsForest(t', h') && Minted(t, t', purse, n)
    ensures PurseWorth(purse, t', h') == PurseWorth(purse, t, h) + n
  {
    forall x | x in t
      ensures x in t' && t'[x].parent == t[x].parent
      ensures x !in Inside(purse, t, h) ==> UnitsAt(x, t', CoinWorth) == UnitsAt(x, t, CoinWorth)
    {
      assert MintKeeps(t, t', purse, x);
      DirectlyInside(x, purse, t, h);
    }
    PurseGains(t, h, t', h', purse);
  }

  lemma {:induction false} DirectlyInside(x: Id, purse: Purse, t: Table, h: Heights)
    requires IsForest(t, h) && PurseOk(t, purse) && x in t
    ensures t[x].parent == Some(purse.c) ==> x in Under(purse.c, t, h)
    ensures t[x].parent == Some(purse.tile) ==> x in Under(purse.tile, t, h)
  {
    assert Linked(x, t, h);
  }

  // ---- Game::addMoney ----------------------------------------------------------

  /** The amounts `addMoney` computes, with the widths of its variables: a 32-bit
      crystal count and product, 16-bit platinum and gold counts that end up in an
      8-bit stack size. */
  function Crystals(money: nat): nat {
    Wrap(money / 10000)
  }

  function AfterCrystals(money: nat): int {
    money - Wrap(Crystals(money) * 10000)
  }

  function Platinums(money: nat): nat {
    AfterCrystals(money) / 100 % 0x1_0000 % 0x100
  }

  function AfterPlatinums(money: nat): int {
    AfterCrystals(money) - AfterCrystals(money) / 100 % 0x1_0000 * 100
  }

  function Golds(money: nat): nat {
    if AfterPlatinums(money) == 0 then 0 else StackCount(AfterPlatinums(money) % 0x1_0000) % 0x100
  }

  /** `CreateItem` makes at least one unit of a stackable item. */
  function StackCount(count: nat): nat {
    if count == 0 then 1 else count
  }

  /** As long as the 32-bit product does not wrap, the amounts are the change. */
  lemma ChangeIsExact(money: nat)
    requires money / 10000 * 10000 < U32
    ensures Crystals(money) == money / 10000 && AfterCrystals(money) == money % 10000
    ensures AfterCrystals(money) / 100 % 0x1_0000 == Platinums(money) < 100
    ensures AfterCrystals(money) == Platinums(money) * 100 + Golds(money) && Golds(money) < 100
    ensures Platinums(money) == AfterCrystals(money) / 100 && Golds(money) == AfterCrystals(money) % 100
    ensures Crystals(money) * 10000 + Platinums(money) * 100 + Golds(money) == money
  {
    WrapSmall(money / 10000);
    WrapSmall(money / 10000 * 10000);
    var rest := money % 10000;
    var p, g := rest / 100, rest % 100;
    SmallCount(p);
    SmallCount(g);
    assert rest - p * 100 == g;
  }

  lemma WrapSmall(x: nat)
    requires x < U32
    ensures Wrap(x) == x
  {
  }

  lemma SmallCount(x: nat)
    requires x < 100
    ensures x % 0x1_0000 == x && x % 0x100 == x
  {
  }

  /** The bound is the product's: with 429497 crystal coins it already wraps. */
  lemma ChangeWraps()
    ensures var money := 4294970000;
      Crystals(money) * 10000 + Platinums(money) * 100 + Golds(money) != money
  {
  }

  /** How often the 32-bit product wraps. */
  function Wraps(money: nat): nat {
    money / 10000 * 10000 / U32
  }

  /** For every amount: the coins add up to it if and only if the crystal count fits 32 bits
      and its product does not wrap, or wraps a multiple of 25 times with some gold to pay. */
  lemma {:induction false} ChangeExactly(money: nat)
    ensures Crystals(money) * 10000 + Platinums(money) * 100 + Golds(money) == money
      <==> money / 10000 < U32 && (Wraps(money) == 0 || (Wraps(money) % 25 == 0 && money % 100 != 0))
  {
    if money / 10000 < U32 {
      ChangeInWidth(money);
    } else {
      ChangeTooWide(money);
    }
  }

  lemma {:induction false} ChangeInWidth(money: nat)
    requires money / 10000 < U32
    ensures Crystals(money) * 10000 + Platinums(money) * 100 + Golds(money) == money
      <==> Wraps(money) == 0 || (Wraps(money) % 25 == 0 && money % 100 != 0)
  {
    var k, rest := Wraps(money), money % 10000;
    CrystalsInWidth(money);
    LastTwoDigits(money);
    assert money == money / 10000 * 10000 + rest;
    if k % 25 == 0 {
      EvenWraps(k, rest);
    } else {
      OddWraps(k / 25, k % 25, rest);
    }
  }

  lemma {:induction false} LastTwoDigits(x: nat)
    ensures x % 10000 % 100 == x % 100
  {
    var q, r := x % 10000 / 100, x % 10000 % 100;
    assert x == 100 * (x / 10000 * 100 + q) + r;
  }

  lemma {:induction false} CrystalsInWidth(money: nat)
    requires money / 10000 < U32
    ensures Crystals(money) == money / 10000
    ensures SmallChange(Wraps(money) * U32 + money % 10000) == (Platinums(money), Golds(money))
  {
    var c := money / 10000;
    WrapSmall(c);
    assert money == c * 10000 + money % 10000;
    assert c * 10000 == Wraps(money) * U32 + Wrap(c * 10000);
    assert AfterCrystals(money) == Wraps(money) * U32 + money % 10000;
  }

  lemma {:induction false} ChangeTooWide(money: nat)
    requires money / 10000 >= U32
    ensures Crystals(money) * 10000 + Platinums(money) * 100 + Golds(money) < money
  {
    TooManyCrystals(money / 10000);
    assert Platinums(money) < 0x100 && Golds(money) < 0x100;
  }

  /** The platinum and gold counts made of what is left of an amount. */
  function SmallChange(a: nat): (int, int) {
    var rest := a - a / 100 % 0x1_0000 * 100;
    (a / 100 % 0x1_0000 % 0x100, if rest == 0 then 0 else StackCount(rest % 0x1_0000) % 0x100)
  }

  /** 25 wraps are a multiple of 100 and of every power of two that matters. */
  lemma {:induction false} EvenWraps(k: nat, rest: nat)
    requires k % 25 == 0 && rest < 10000
    ensures var (p, g) := SmallChange(k * U32 + rest); p * 100 + g == rest <==> k == 0 || rest % 100 != 0
  {
    var a, j, q, s := k * U32 + rest, k / 25, rest / 100, rest % 100;
    assert a == 100 * (j * 0x4000_0000 + q) + s;
    assert a / 100 == j * 0x4000_0000 + q;
    SameWord(a / 100, q, j * 0x4000);
    SmallCount(q);
    SameWord(k * U32 + s, s, k * 0x1_0000);
    assert a - q * 100 == k * U32 + s;
    SmallCount(s);
  }

  /** Any other number of wraps shifts the platinum count by something else than 0, 1 or 2
      units too few, the only errors the gold could make up for. */
  lemma {:induction false} OddWraps(j: nat, i: nat, rest: nat)
    requires 0 < i < 25 && rest < 10000
    ensures var (p, g) := SmallChange((25 * j + i) * U32 + rest); p * 100 + g != rest
  {
    var a, q, s := (25 * j + i) * U32 + rest, rest / 100, rest % 100;
    var e := (96 * i + s) / 100;
    assert a == 100 * (j * 0x4000_0000 + i * 42949672 + q + e) + (96 * i + s) % 100;
    assert a / 100 == j * 0x4000_0000 + i * 42949672 + q + e;
    LowByte(a / 100);
    SameByte(a / 100, q + 40 * i + e, j * 0x40_0000 + i * 167772);
    assert e == i - 1 || e == i;
    Shifts(i, q, e);
  }

  lemma {:induction false} Shifts(i: nat, q: nat, e: int)
    requires 0 < i < 25 && q < 100 && (e == i - 1 || e == i)
    ensures var p := (q + 40 * i + e) % 0x100; q - p != 0 && q - p != 1 && q - p != 2
  {
    var x := q + 40 * i + e;
    assert x == 0x100 * (x / 0x100) + x % 0x100;
  }

  lemma {:induction false} SameWord(x: int, y: int, d: int)
    requires x == y + 0x1_0000 * d
    ensures x % 0x1_0000 == y % 0x1_0000
  {
    var q, r := y / 0x1_0000, y % 0x1_0000;
    assert x == 0x1_0000 * (q + d) + r;
  }

  lemma {:induction false} TooManyCrystals(c: nat)
    requires c >= U32
    ensures Wrap(c) <= c - U32
  {
    assert c == U32 * (c / U32) + Wrap(c);
  }

  lemma {:induction false} LowByte(x: int)
    ensures x % 0x1_0000 % 0x100 == x % 0x100
  {
    SameByte(x, x % 0x1_0000, x / 0x1_0000 * 0x100);
  }

  lemma {:induction false} SameByte(x: int, y: int, d: int)
    requires x == y + 0x100 * d
    ensures x % 0x100 == y % 0x100
  {
    var q, r := y / 0x100, y % 0x100;
    assert x == 0x100 * (q + d) + r;
  }

  /** The stacks `addMoney` makes, in order. */
  type Stacks = seq<(ItemType, nat)>

  function CrystalStacks(coins: Coins, crystals: nat): Stacks {
    if crystals == 0 then []
    else [(coins.crystal, Min(100, crystals))] + CrystalStacks(coins, crystals - Min(100, crystals))
  }

  function ChangeStacks(coins: Coins, money: nat): Stacks {
    if money == 0 then [] else CountedStacks(coins, Crystals(money), Platinums(money), Golds(money))
  }

  function CountedStacks(coins: Coins, crystals: nat, platinums: nat, golds: nat): Stacks {
    CrystalStacks(coins, crystals) + OneStack(coins.platinum, platinums) + OneStack(coins.gold, golds)
  }

  function OneStack(kind: ItemType, count: nat): Stacks {
    if count == 0 then [] else [(kind, count)]
  }

  /** Minting one stack after the other; `steps` are the scenes in between. */
  ghost predicate MintRun(steps: seq<Scene>, stacks: Stacks, sc: bool, purse: Purse, flags: Flags) {
    |steps| == |stacks| + 1 && forall k :: 0 <= k < |stacks| ==>
      MintStep(steps[k], steps[k + 1], sc, purse, stacks[k], flags)
  }

  lemma {:induction false} MintRunOn(steps: seq<Scene>, stacks: Stacks, sc: bool, purse: Purse, flags: Flags,
                                     stack: (ItemType, nat), s: Scene)
    requires MintRun(steps, stacks, sc, purse, flags) && MintStep(steps[|steps| - 1], s, sc, purse, stack, flags)
    ensures MintRun(steps + [s], stacks + [stack], sc, purse, flags)
  {
    var steps', stacks' := steps + [s], stacks + [stack];
    forall k | 0 <= k < |stacks'|
      ensures MintStep(steps'[k], steps'[k + 1], sc, purse, stacks'[k], flags)
    {
      if k < |stacks| { assert MintStep(steps[k], steps[k + 1], sc, purse, stacks[k], flags); }
    }
  }

  function StacksWorth(stacks: Stacks): nat {
    if stacks == [] then 0
    else StacksWorth(stacks[..|stacks| - 1]) + Times(stacks[|stacks| - 1].1, UnitWorth(stacks[|stacks| - 1].0))
  }

  lemma {:induction false} WorthOn(stacks: Stacks, kind: ItemType, count: nat)
    ensures StacksWorth(stacks + OneStack(kind, count)) == StacksWorth(stacks) + Times(count, UnitWorth(kind))
  {
    if count == 0 {
      assert stacks + [] == stacks;
    } else {
      assert (stacks + [(kind, count)])[..|stacks|] == stacks;
    }
  }

  lemma {:induction false} WorthJoins(a: Stacks, b: Stacks)
    ensures StacksWorth(a + b) == StacksWorth(a) + StacksWorth(b)
  {
    if b == [] {
      assert a + b == a;
    } else {
      assert (a + b)[..|a + b| - 1] == a + b[..|b| - 1];
      WorthJoins(a, b[..|b| - 1]);
    }
  }

  lemma {:induction false} CrystalsWorth(coins: Coins, crystals: nat)
    requires CoinsOk(coins)
    ensures StacksWorth(CrystalStacks(coins, crystals)) == crystals * 10000
  {
    if crystals > 0 {
      var n := Min(100, crystals);
      var first := OneStack(coins.crystal, n);
      CrystalsWorth(coins, crystals - n);
      WorthJoins(first, CrystalStacks(coins, crystals - n));
      WorthOn([], coins.crystal, n);
      TimesIsProduct(n, 10000);
      assert [] + first == first;
    }
  }

  /** The crystal coins come in as few stacks as hold them. */
  lemma {:induction false} FewestStacks(coins: Coins, crystals: nat)
    ensures |CrystalStacks(coins, crystals)| == (crystals + 99) / 100
    ensures forall s :: s in CrystalStacks(coins, crystals) ==> s.0 == coins.crystal && 1 <= s.1 <= 100
  {
    if crystals > 100 { FewestStacks(coins, crystals - 100); }
  }

  predicate AreCoins(stacks: Stacks) {
    forall k :: 0 <= k < |stacks| ==> stacks[k].0.stackable && stacks[k].1 > 0 && UnitWorth(stacks[k].0) > 0
  }

  lemma {:induction false} CoinsJoin(a: Stacks, b: Stacks)
    requires AreCoins(a) && AreCoins(b)
    ensures AreCoins(a + b)
  {
  }

  lemma {:induction false} CrystalsAreCoins(coins: Coins, crystals: nat)
    requires CoinsOk(coins)
    ensures AreCoins(CrystalStacks(coins, crystals))
  {
    if crystals > 0 {
      var n := Min(100, crystals);
      CrystalsAreCoins(coins, crystals - n);
      CoinsJoin([(coins.crystal, n)], CrystalStacks(coins, crystals - n));
    }
  }

  lemma {:induction false} ChangeAreCoins(coins: Coins, c: nat, p: nat, g: nat)
    requires CoinsOk(coins)
    ensures AreCoins(CountedStacks(coins, c, p, g))
  {
    var crystals, platinum, gold := CrystalStacks(coins, c), OneStack(coins.platinum, p), OneStack(coins.gold, g);
    CrystalsAreCoins(coins, c);
    CoinsJoin(crystals, platinum);
    CoinsJoin(crystals + platinum, gold);
  }

  lemma {:induction false} CountedWorth(coins: Coins, c: nat, p: nat, g: nat)
    requires CoinsOk(coins)
    ensures StacksWorth(CountedStacks(coins, c, p, g)) == c * 10000 + p * 100 + g
  {
    CrystalsWorth(coins, c);
    TimesIsProduct(p, 100);
    TimesIsProduct(g, 1);
    WorthOn(CrystalStacks(coins, c), coins.platinum, p);
    WorthOn(CrystalStacks(coins, c) + OneStack(coins.platinum, p), coins.gold, g);
  }

  /** The stacks are coins worth the amount, as long as the product does not wrap. */
  lemma {:induction false} ChangeWorth(coins: Coins, money: nat)
    requires CoinsOk(coins) && money / 10000 * 10000 < U32
    ensures StacksWorth(ChangeStacks(coins, money)) == money && AreCoins(ChangeStacks(coins, money))
  {
    if money != 0 {
      ChangeIsExact(money);
      CountedWorth(coins, Crystals(money), Platinums(money), Golds(money));
      ChangeAreCoins(coins, Crystals(money), Platinums(money), Golds(money));
    }
  }

  /** One step of minting, in terms of worth. */
  lemma {:induction false} StepMinted(s: Scene, s': Scene, sc: bool, purse: Purse, stack: (ItemType, nat), flags: Flags)
    requires MintStep(s, s', sc, purse, stack, flags) && stack.0.stackable && stack.1 > 0 && UnitWorth(stack.0) > 0
    ensures Minted(s.t, s'.t, purse, Times(stack.1, UnitWorth(stack.0)))
  {
    var id :| MintsAs(s, s', sc, purse, stack.0, stack.1, flags, id);
    var t1, h1 := s.t[id := Loose(stack.0, stack.1, None)], s.h[id := 0];
    var into := if Accepts(t1, h1, sc, purse.c, id, flags) then purse.c else purse.tile;
    AddedIsMinted(s.t, s.h, t1, s'.t, purse, into, id, stack.0, stack.1);
  }

  /** A run of minting mints what its stacks are worth. */
  lemma {:induction false} RunMinted(steps: seq<Scene>, stacks: Stacks, sc: bool, purse: Purse, flags: Flags)
    requires MintRun(steps, stacks, sc, purse, flags) && AreCoins(stacks) && PurseOk(steps[0].t, purse)
    ensures Minted(steps[0].t, steps[|stacks|].t, purse, StacksWorth(stacks))
    decreases |stacks|
  {
    if stacks != [] {
      var n := |stacks| - 1;
      var before, front := steps[..n + 1], stacks[..n];
      forall k | 0 <= k < n
        ensures MintStep(before[k], before[k + 1], sc, purse, front[k], flags)
      {
        assert MintStep(steps[k], steps[k + 1], sc, purse, stacks[k], flags);
      }
      RunMinted(before, front, sc, purse, flags);
      StepMinted(steps[n], steps[n + 1], sc, purse, stacks[n], flags);
      MintedTwice(steps[0].t, steps[n].t, steps[n + 1].t, purse, StacksWorth(front),
        Times(stacks[n].1, UnitWorth(stacks[n].0)));
    }
  }

  lemma {:induction false} NewFromOn(t: Table, t1: Table, t2: Table, lo: Id, lo1: Id)
    requires NewFrom(t, t1, lo) && NewFrom(t1, t2, lo1) && lo <= lo1
    ensures NewFrom(t, t2, lo)
  {
  }

  /** A run that began in `start` and is now here. */
  ghost predicate Minting(steps: seq<Scene>, stacks: Stacks, sc: bool, purse: Purse, flags: Flags, start: Scene,
                          now: Scene) {
    MintRun(steps, stacks, sc, purse, flags) && steps[0] == start && steps[|steps| - 1] == now
  }

  /** Mints one stack, unless it is empty. */
  method MintNext(w: ItemWorld, sc: bool, purse: Purse, kind: ItemType, count: nat, flags: Flags,
                  ghost steps0: seq<Scene>, ghost stacks: Stacks, ghost start: Scene) returns (ghost steps: seq<Scene>)
    requires w.Ok() && PurseOk(w.items, purse) && !flags.childIsOwner
    requires kind.stackable && !kind.fluid && kind.pickupable && count <= 100
    requires Minting(steps0, stacks, sc, purse, flags, start, Scene(w.items, w.height))
    modifies w
    ensures w.Ok() && PurseOk(w.items, purse)
    ensures Minting(steps, stacks + OneStack(kind, count), sc, purse, flags, start, Scene(w.items, w.height))
    ensures w.nextId >= old(w.nextId) && NewFrom(old(w.items), w.items, old(w.nextId))
  {
    steps := steps0;
    assert stacks + [] == stacks;
    if count != 0 {
      ghost var s0, id := Scene(w.items, w.height), w.nextId;
      MintStack(w, sc, purse, kind, count, flags);
      ghost var s := Scene(w.items, w.height);
      assert MintsAs(s0, s, sc, purse, kind, count, flags, id);
      MintRunOn(steps0, stacks, sc, purse, flags, (kind, count), s);
      steps := steps0 + [s];
    }
  }

  /** `Game::addMoney`: mints the stacks one after the other, each into the container if it
      takes the stack, and into the overflow otherwise. */
  method AddMoney(w: ItemWorld, sc: bool, coins: Coins, purse: Purse, money: nat, flags: Flags)
    returns (ghost steps: seq<Scene>)
    requires w.Ok() && PurseOk(w.items, purse) && CoinsOk(coins) && !flags.childIsOwner
    requires money / 10000 * 10000 < U32
    modifies w
    ensures w.Ok() && Minted(old(w.items), w.items, purse, money)
    ensures PurseWorth(purse, w.items, w.height) == PurseWorth(purse, old(w.items), old(w.height)) + money
    ensures Minting(steps, ChangeStacks(coins, money), sc, purse, flags, Scene(old(w.items), old(w.height)),
      Scene(w.items, w.height))
    ensures w.nextId >= old(w.nextId) && NewFrom(old(w.items), w.items, old(w.nextId))
  {
    ghost var t, h := w.items, w.height;
    steps := [Scene(t, h)];
    if money != 0 {
      ChangeIsExact(money);
      steps := MintAll(w, sc, coins, purse, Crystals(money), AfterCrystals(money), flags);
    }
    ChangeWorth(coins, money);
    RunMinted(steps, ChangeStacks(coins, money), sc, purse, flags);
    MintedGains(t, h, w.items, w.height, purse, money);
  }

  /** `addMoney` for an amount of so many crystal coins and so much change. */
  method MintAll(w: ItemWorld, sc: bool, coins: Coins, purse: Purse, crystals: nat, change: nat, flags: Flags)
    returns (ghost steps: seq<Scene>)
    requires w.Ok() && PurseOk(w.items, purse) && CoinsOk(coins) && !flags.childIsOwner && change < 10000
    modifies w
    ensures w.Ok()
    ensures Minting(steps, CountedStacks(coins, crystals, change / 100, change % 100), sc, purse, flags,
      Scene(old(w.items), old(w.height)), Scene(w.items, w.height))
    ensures w.nextId >= old(w.nextId) && NewFrom(old(w.items), w.items, old(w.nextId))
  {
    ghost var start, lo, stacks := Scene(w.items, w.height), w.nextId, CrystalStacks(coins, crystals);
    steps := MintCrystals(w, sc, coins, purse, crystals, flags);
    ghost var t1, id1 := w.items, w.nextId;
    var platinumCoins := change / 100 % 0x1_0000;
    SmallCount(change / 100);
    steps := MintNext(w, sc, purse, coins.platinum, platinumCoins % 0x100, flags, steps, stacks, start);
    NewFromOn(start.t, t1, w.items, lo, id1);
    ghost var t2, id2 := w.items, w.nextId;
    var rest := change - platinumCoins * 100;
    SmallCount(rest);
    var goldCoins := if rest == 0 then 0 else StackCount(rest % 0x1_0000) % 0x100;
    steps := MintNext(w, sc, purse, coins.gold, goldCoins, flags, steps,
      stacks + OneStack(coins.platinum, platinumCoins), start);
    NewFromOn(start.t, t2, w.items, lo, id2);
  }

  /** The loop of `addMoney`: crystal coins in stacks of up to 100. */
  method MintCrystals(w: ItemWorld, sc: bool, coins: Coins, purse: Purse, crystals: nat, flags: Flags)
    returns (ghost steps: seq<Scene>)
    requires w.Ok() && PurseOk(w.items, purse) && CoinsOk(coins) && !flags.childIsOwner
    modifies w
    ensures w.Ok() && PurseOk(w.items, purse)
    ensures Minting(steps, CrystalStacks(coins, crystals), sc, purse, flags, Scene(old(w.items), old(w.height)),
      Scene(w.items, w.height))
    ensures w.nextId >= old(w.nextId) && NewFrom(old(w.items), w.items, old(w.nextId))
  {
    ghost var start, lo, stacks: Stacks := Scene(w.items, w.height), w.nextId, [];
    steps := [start];
    var crystalCoins := crystals;
    while crystalCoins > 0
      invariant w.Ok() && PurseOk(w.items, purse) && 0 <= crystalCoins <= crystals
      invariant Minting(steps, stacks, sc, purse, flags, start, Scene(w.items, w.height))
      invariant stacks + CrystalStacks(coins, crystalCoins) == CrystalStacks(coins, crystals)
      invariant w.nextId >= lo && NewFrom(start.t, w.items, lo)
    {
      var count := Min(100, crystalCoins);
      ghost var t1, id := w.items, w.nextId;
      steps := MintNext(w, sc, purse, coins.crystal, count, flags, steps, stacks, start);
      NewFromOn(start.t, t1, w.items, lo, id);
      Associate(stacks, OneStack(coins.crystal, count), CrystalStacks(coins, crystalCoins - count));
      stacks := stacks + OneStack(coins.crystal, count);
      crystalCoins := crystalCoins - count;
    }
    assert stacks + [] == stacks;
  }
}
