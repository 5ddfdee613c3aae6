/** What cached weights amount to: everything under a container, unit by unit. */
module Weighing {
  import opened Items
  import opened Options
  import opened Forest
  import opened Containers
  import opened Counting
  import opened Holding
  import opened Queries
  import opened Moves

  /** What one unit of a sort weighs: what its weight attribute says, else its row. */
  function UnitWeight(s: Sort): nat {
    if Weight in s.lasting && s.lasting[Weight].Number? then s.lasting[Weight].n % U32 else s.kind.weight
  }

  /** Everything under `c`, at any depth: a unit of each sort weighs what it weighs, a stack
      counts once for each of its units. */
  ghost function Load(c: Id, t: Table, h: Heights): nat
    requires IsForest(t, h)
  {
    Over(Under(c, t, h), t, UnitWeight)
  }

  lemma OwnUnits(e: Entry)
    requires StackOk(e)
    ensures OwnWeight(e) == Units(e, UnitWeight)
  {
    TimesIsProduct(UnitCount(e), UnitWeight(SortOf(e)));
  }

  // ---- what is under a container, entry by entry -----------------------------------

  ghost function Within(x: Id, t: Table, h: Heights): set<Id>
    requires IsForest(t, h)
  {
    {x} + Under(x, t, h)
  }

  ghost function AllWithin(list: seq<Id>, t: Table, h: Heights): set<Id>
    requires IsForest(t, h)
  {
    if list == [] then {} else Within(list[0], t, h) + AllWithin(list[1..], t, h)
  }

  lemma {:induction false} AllWithinMembers(list: seq<Id>, t: Table, h: Heights, y: Id)
    requires IsForest(t, h)
    ensures y in AllWithin(list, t, h) <==> exists k :: 0 <= k < |list| && y in Within(list[k], t, h)
  {
    if list != [] {
      AllWithinMembers(list[1..], t, h, y);
      if y in AllWithin(list[1..], t, h) {
        var k :| 0 <= k < |list[1..]| && y in Within(list[1..][k], t, h);
        assert list[k + 1] == list[1..][k];
      }
      if exists k :: 0 < k < |list| && y in Within(list[k], t, h) {
        var k :| 0 < k < |list| && y in Within(list[k], t, h);
        assert list[k] == list[1..][k - 1];
      }
    }
  }

  /** Whatever is under `c` is within one of the entries of its list. */
  lemma {:induction false} UnderEntry(y: Id, c: Id, t: Table, h: Heights) returns (x: Id)
    requires IsForest(t, h) && c in t && y in Under(c, t, h)
    ensures x in t[c].itemlist && y in Within(x, t, h)
    decreases Around(y, t, h)
  {
    assert Linked(y, t, h);
    var p := t[y].parent.value;
    assert y !in Around(p, t, h);
    if p == c {
      x := y;
    } else {
      x := UnderEntry(p, c, t, h);
      if p != x { assert x in Around(y, t, h) && y != x by { WithinOn(y, x, t, h); } }
      else { assert x in Around(y, t, h); }
    }
  }

  /** An item is within whatever its holder is within. */
  lemma WithinOn(y: Id, x: Id, t: Table, h: Heights)
    requires IsForest(t, h) && y in t && t[y].parent.Some? && t[y].parent.value in t
    requires x in Around(t[y].parent.value, t, h)
    ensures x in Around(y, t, h) && x != y
  {
    assert Linked(y, t, h);
  }

  lemma EntryUnder(y: Id, x: Id, c: Id, t: Table, h: Heights)
    requires IsForest(t, h) && c in t && x in t[c].itemlist && y in Within(x, t, h)
    ensures y in Under(c, t, h)
  {
    assert Linked(c, t, h) && Linked(x, t, h);
    if y != x { AroundClosed(y, x, t, h); }
    assert Linked(y, t, h);
  }

  lemma AllWithinIsUnder(c: Id, t: Table, h: Heights)
    requires IsForest(t, h) && c in t
    ensures AllWithin(t[c].itemlist, t, h) == Under(c, t, h)
  {
    var list := t[c].itemlist;
    forall y
      ensures y in AllWithin(list, t, h) <==> y in Under(c, t, h)
    {
      AllWithinMembers(list, t, h, y);
      if y in AllWithin(list, t, h) {
        var k :| 0 <= k < |list| && y in Within(list[k], t, h);
        EntryUnder(y, list[k], c, t, h);
      }
      if y in Under(c, t, h) {
        var x := UnderEntry(y, c, t, h);
        var k :| 0 <= k < |list| && list[k] == x;
      }
    }
  }

  /** Nothing is within two entries of one list. */
  lemma {:induction false} OneEntry(y: Id, x1: Id, x2: Id, c: Id, t: Table, h: Heights)
    requires IsForest(t, h) && y in t && x1 in Around(y, t, h) && x2 in Around(y, t, h)
    requires t[x1].parent == Some(c) && t[x2].parent == Some(c)
    ensures x1 == x2
    decreases Around(y, t, h)
  {
    assert Linked(y, t, h) && Linked(x1, t, h) && Linked(x2, t, h);
    if t[y].parent.Some? {
      var p := t[y].parent.value;
      assert y !in Around(p, t, h);
      if y != x1 && y != x2 { OneEntry(p, x1, x2, c, t, h); }
    }
  }

  // ---- the law ----------------------------------------------------------------------

  ghost predicate Weighs(x: Id, t: Table, tw: Weights, h: Heights)
    requires IsForest(t, h)
  {
    WeightAt(x, t, tw) == Wrap(Over(Within(x, t, h), t, UnitWeight))
  }

  ghost predicate Disjoint(x: Id, list: seq<Id>, t: Table, h: Heights)
    requires IsForest(t, h)
  {
    Within(x, t, h) !! AllWithin(list, t, h)
  }

  /** The weights of a list are off by a multiple of the word. */
  lemma {:induction false} SumIsLoad(list: seq<Id>, t: Table, tw: Weights, h: Heights) returns (k: int)
    requires IsForest(t, h) && forall x :: x in list ==> Weighs(x, t, tw, h)
    requires forall i :: 0 <= i < |list| ==> Disjoint(list[i], list[i + 1..], t, h)
    ensures Sum(list, t, tw) + U32 * k == Over(AllWithin(list, t, h), t, UnitWeight)
  {
    if list == [] {
      k := 0;
    } else {
      var x, rest := list[0], list[1..];
      forall i | 0 <= i < |rest|
        ensures Disjoint(rest[i], rest[i + 1..], t, h)
      {
        assert rest[i] == list[i + 1] && rest[i + 1..] == list[i + 1 + 1..];
      }
      k := SumIsLoad(rest, t, tw, h);
      assert Weighs(x, t, tw, h) && Disjoint(list[0], list[0 + 1..], t, h);
      var own := Over(Within(x, t, h), t, UnitWeight);
      OverApart(Within(x, t, h), AllWithin(rest, t, h), t, UnitWeight);
      k := k + own / U32;
    }
  }

  lemma {:induction false} EntriesDisjoint(c: Id, t: Table, h: Heights, k: nat)
    requires IsForest(t, h) && c in t && k < |t[c].itemlist|
    ensures Disjoint(t[c].itemlist[k], t[c].itemlist[k + 1..], t, h)
  {
    var list := t[c].itemlist;
    assert Linked(c, t, h);
    forall y | y in Within(list[k], t, h)
      ensures y !in AllWithin(list[k + 1..], t, h)
    {
      AllWithinMembers(list[k + 1..], t, h, y);
      if y in AllWithin(list[k + 1..], t, h) {
        var j :| 0 <= j < |list[k + 1..]| && y in Within(list[k + 1..][j], t, h);
        assert list[k + 1..][j] == list[k + 1 + j];
        assert Linked(list[k], t, h) && Linked(list[k + 1 + j], t, h);
        OneEntry(y, list[k], list[k + 1 + j], c, t, h);
      }
    }
  }

  lemma {:induction false} EntryWeighs(x: Id, t: Table, tw: Weights, h: Heights)
    requires IsForest(t, h) && x in t && x in tw && StackOk(t[x]) && tw[x] == Wrap(Load(x, t, h))
    ensures Weighs(x, t, tw, h)
  {
    OwnUnits(t[x]);
    OverSplit(Within(x, t, h), x, t, UnitWeight);
    assert Within(x, t, h) - {x} == Under(x, t, h);
    WrapBoth(OwnWeight(t[x]), tw[x], Load(x, t, h), Over(Within(x, t, h), t, UnitWeight));
  }

  lemma WrapBoth(own: int, inner: int, load: int, all: int)
    requires inner == Wrap(load) && all == own + load
    ensures Wrap(own + inner) == Wrap(all)
  {
    WrapOfWrap(load, own);
  }

  lemma {:induction false} ListLoads(c: Id, t: Table, tw: Weights, h: Heights) returns (k: int)
    requires IsForest(t, h) && c in t && forall x :: x in t[c].itemlist ==> Weighs(x, t, tw, h)
    ensures Sum(t[c].itemlist, t, tw) + U32 * k == Load(c, t, h)
  {
    var list := t[c].itemlist;
    forall i | 0 <= i < |list|
      ensures Disjoint(list[i], list[i + 1..], t, h)
    {
      EntriesDisjoint(c, t, h, i);
    }
    k := SumIsLoad(list, t, tw, h);
    AllWithinIsUnder(c, t, h);
  }

  lemma WrapOff(weight: int, sum: int, k: int, load: int)
    requires weight == Wrap(sum) && sum + U32 * k == load
    ensures weight == Wrap(load)
  {
    WrapShift(sum, k);
  }

  /** In every sound world the cached weight of every container is what everything under it
      weighs, at any depth, as far as 32 bits hold it. */
  lemma {:induction false} WeightIsLoad(c: Id, t: Table, tw: Weights, h: Heights)
    requires Valid(t, tw, h) && c in t
    ensures c in tw && tw[c] == Load(c, t, h) % U32
    decreases h[c]
  {
    assert Linked(c, t, h) && WeightOk(c, t, tw);
    forall x | x in t[c].itemlist
      ensures Weighs(x, t, tw, h)
    {
      assert Linked(x, t, h);
      WeightIsLoad(x, t, tw, h);
      EntryWeighs(x, t, tw, h);
    }
    var k := ListLoads(c, t, tw, h);
    WrapOff(tw[c], Sum(t[c].itemlist, t, tw), k, Load(c, t, h));
  }

  // ---- a move within a common container ---------------------------------------------

  /** `t'` differs from `t` by a move out of `from` into `dest`, both in or at `o`: nothing else
      changes holder or goes, and outside `o` there is as much of everything as before. */
  ghost predicate Reseated(t: Table, h: Heights, t': Table, from: Id, dest: Id, item: Id, id: Id, o: Id)
    requires IsForest(t, h)
  {
    && from in t && dest in t && item in t && item != dest && t[item].parent == Some(from)
    && o in Around(from, t, h) && o in Around(dest, t, h) && item !in Around(dest, t, h)
    && (forall x :: x in t && x != item ==> x in t' && t'[x].parent == t[x].parent)
    && (item in t' ==> t'[item].parent == Some(from) || t'[item].parent == Some(dest))
    && (forall x :: x in t' && x !in t ==> x == id && t'[x].parent == Some(dest))
    && forall x :: x in t && x !in Under(o, t, h) ==> SameUnits(x, t, t')
  }

  ghost predicate SameUnits(x: Id, t: Table, t': Table) {
    x in t && x in t' && t'[x].kind == t[x].kind && t'[x].count == t[x].count && t'[x].attrs == t[x].attrs
  }

  lemma AboveItem(t: Table, h: Heights, from: Id, item: Id, o: Id)
    requires IsForest(t, h) && item in t && t[item].parent == Some(from) && from in t && o in Around(from, t, h)
    ensures item !in Around(from, t, h) && item in Under(o, t, h)
  {
    assert Linked(item, t, h);
    assert Around(item, t, h) == {item} + Around(from, t, h);
  }

  /** The same is in or at `o`. */
  lemma {:induction false} SameUnder(t: Table, h: Heights, t': Table, h': Heights, from: Id, dest: Id, item: Id, id: Id,
                                     o: Id, x: Id)
    requires IsForest(t, h) && IsForest(t', h') && Reseated(t, h, t', from, dest, item, id, o) && x in t && x in t'
    ensures o in Around(x, t', h') <==> o in Around(x, t, h)
    decreases Around(x, t, h)
  {
    assert Linked(x, t, h) && Linked(x, t', h');
    AboveItem(t, h, from, item, o);
    if x == item {
      AroundSame(from, t, h, t', h');
      AroundSame(dest, t, h, t', h');
    } else if t[x].parent.Some? {
      var p := t[x].parent.value;
      assert x !in Around(p, t, h);
      SameUnder(t, h, t', h', from, dest, item, id, o, p);
    }
  }

  lemma {:induction false} NewUnder(t: Table, h: Heights, t': Table, h': Heights, from: Id, dest: Id, item: Id, id: Id,
                                    o: Id, x: Id)
    requires IsForest(t, h) && IsForest(t', h') && Reseated(t, h, t', from, dest, item, id, o) && x in t' && x !in t
    ensures x in Under(o, t', h')
  {
    assert Linked(x, t', h');
    SameUnder(t, h, t', h', from, dest, item, id, o, dest);
    assert Around(x, t', h') == {x} + Around(dest, t', h');
    assert o in t;
  }

  lemma {:induction false} SameOutsideOf(t: Table, h: Heights, t': Table, h': Heights, from: Id, dest: Id, item: Id,
                                         id: Id, o: Id)
    requires IsForest(t, h) && IsForest(t', h') && Reseated(t, h, t', from, dest, item, id, o)
    ensures t'.Keys - Under(o, t', h') == t.Keys - Under(o, t, h)
  {
    AboveItem(t, h, from, item, o);
    forall x | x in t && x in t'
      ensures x in Under(o, t', h') <==> x in Under(o, t, h)
    {
      SameUnder(t, h, t', h', from, dest, item, id, o, x);
    }
    forall x | x in t' && x !in t
      ensures x in Under(o, t', h')
    {
      NewUnder(t, h, t', h', from, dest, item, id, o, x);
    }
  }

  /** Such a move that creates and loses nothing leaves what is under `o` as heavy as it was. */
  lemma {:induction false} SameLoad(t: Table, h: Heights, t': Table, h': Heights, from: Id, dest: Id, item: Id,
                                    id: Id, o: Id)
    requires IsForest(t, h) && IsForest(t', h') && Reseated(t, h, t', from, dest, item, id, o)
    requires Total(t', UnitWeight) == Total(t, UnitWeight)
    ensures Load(o, t', h') == Load(o, t, h)
  {
    var out := t.Keys - Under(o, t, h);
    SameOutsideOf(t, h, t', h', from, dest, item, id, o);
    TotalParts(Under(o, t, h), t, UnitWeight);
    TotalParts(Under(o, t', h'), t', UnitWeight);
    forall x | x in out
      ensures UnitsAt(x, t', UnitWeight) == UnitsAt(x, t, UnitWeight)
    {
      assert SameUnits(x, t, t');
    }
    OverSame(out, t, t', UnitWeight);
  }

  /** Of another item, a move changes at most the list. */
  lemma {:induction false} SplitLeaves(t: Table, from: Id, item: Id, m: nat, toItem: Option<Id>, x: Id)
    requires from in t && item in t && item in t[from].itemlist && m <= t[item].count && from != item
    requires x in t && x != item
    ensures var t' := Split(t, from, item, m, toItem);
      && x in t' && t'[x].parent == t[x].parent
      && (toItem != Some(x) ==> t'[x] == t[x].(itemlist := t'[x].itemlist))
      && (item in t' ==> t'[item].parent == t[item].parent) && t'.Keys <= t.Keys
  {
  }

  lemma {:induction false} StackLeaves(t: Table, from: Id, item: Id, p: Plan, id: Id, x: Id)
    requires from in t && item in t && item in t[from].itemlist && p.m <= t[item].count && from != item
    requires p.dest in t && item != p.dest && id !in t && x in t && x != item
    ensures var t' := MovedStack(t, from, p.dest, p.index, item, p.m, p.toItem, id);
      && x in t' && t'[x].parent == t[x].parent
      && (p.toItem != Some(x) ==> t'[x] == t[x].(itemlist := t'[x].itemlist))
      && (item in t' ==> t'[item].parent == t[item].parent)
  {
    SplitLeaves(t, from, item, p.m, p.toItem, x);
    if p.m == Absorbed(t, item, p.toItem, p.m) {
      MovedStackDone(t, from, p.dest, p.index, item, p.m, p.toItem, id);
    } else {
      MovedStackRest(t, from, p.dest, p.index, item, p.m, p.toItem, id);
    }
  }

  lemma {:induction false} StackAdds(t: Table, from: Id, item: Id, p: Plan, id: Id)
    requires from in t && item in t && item in t[from].itemlist && p.m <= t[item].count && from != item
    requires p.dest in t && item != p.dest && id !in t
    requires p.m == Absorbed(t, item, p.toItem, p.m) || p.index < t[p.dest].maxSize
    ensures var t' := MovedStack(t, from, p.dest, p.index, item, p.m, p.toItem, id);
      forall x :: x in t' && x !in t ==> x == id && t'[x].parent == Some(p.dest)
  {
    SplitLeaves(t, from, item, p.m, p.toItem, from);
    SplitLeaves(t, from, item, p.m, p.toItem, p.dest);
    if p.m == Absorbed(t, item, p.toItem, p.m) {
      MovedStackDone(t, from, p.dest, p.index, item, p.m, p.toItem, id);
    } else {
      MovedStackRest(t, from, p.dest, p.index, item, p.m, p.toItem, id);
    }
  }

  lemma {:induction false} StackReseats(t: Table, h: Heights, from: Id, item: Id, p: Plan, id: Id, o: Id)
    requires IsForest(t, h) && Ready(t, h, from, item, p) && id !in t && t[item].kind.stackable
    requires o in Around(from, t, h) && o in Around(p.dest, t, h)
    requires p.m == Absorbed(t, item, p.toItem, p.m) || p.index < t[p.dest].maxSize
    ensures Reseated(t, h, MovedStack(t, from, p.dest, p.index, item, p.m, p.toItem, id), from, p.dest, item, id, o)
  {
    var t' := MovedStack(t, from, p.dest, p.index, item, p.m, p.toItem, id);
    assert Linked(from, t, h) && Linked(p.dest, t, h);
    AboveItem(t, h, from, item, o);
    if p.toItem.Some? { AboveItem(t, h, p.dest, p.toItem.value, o); }
    forall x | x in t && x != item
      ensures x in t' && t'[x].parent == t[x].parent && (x !in Under(o, t, h) ==> SameUnits(x, t, t'))
    {
      StackLeaves(t, from, item, p, id, x);
    }
    StackLeaves(t, from, item, p, id, from);
    StackAdds(t, from, item, p, id);
  }

  lemma {:induction false} WholeReseats(t: Table, h: Heights, from: Id, item: Id, p: Plan, id: Id, o: Id)
    requires IsForest(t, h) && Ready(t, h, from, item, p) && id !in t && !t[item].kind.stackable
    requires o in Around(from, t, h) && o in Around(p.dest, t, h) && p.index < t[p.dest].maxSize
    ensures Reseated(t, h, MovedWhole(t, from, p.dest, p.index, item), from, p.dest, item, id, o)
  {
    var t' := MovedWhole(t, from, p.dest, p.index, item);
    assert Linked(from, t, h);
    AboveItem(t, h, from, item, o);
    forall x | x in t && x != item
      ensures x in t' && t'[x].parent == t[x].parent && SameUnits(x, t, t')
    {
    }
  }

  /** For every call that does not spill, and every container around both places: whatever is
      split, merged or moved on the way, its cached weight stays. */
  lemma {:induction false} OuterWeightStays(t: Table, tw: Weights, h: Heights, call: Call, id: Id,
                                            t': Table, tw': Weights, h': Heights, o: Id)
    requires Valid(t, tw, h) && Valid(t', tw', h') && CallOk(t, h, call) && id !in t
    requires t' == Result(t, h, call, id).1 && !Spills(t, call)
    requires o in Around(call.from, t, h) && o in Around(PlanOf(t, h, call).1.dest, t, h)
    ensures o in t' && o in tw && o in tw' && tw'[o] == tw[o]
  {
    if PlanOf(t, h, call).1.m > 0 {
      OuterLoadStays(t, h, call, id, t', h', o);
    } else {
      SameUnderAlways(t, h, h', o);
    }
    WeightIsLoad(o, t, tw, h);
    WeightIsLoad(o, t', tw', h');
  }

  lemma {:induction false} OuterLoadStays(t: Table, h: Heights, call: Call, id: Id, t': Table, h': Heights, o: Id)
    requires CallOk(t, h, call) && id !in t && IsForest(t', h') && PlanOf(t, h, call).1.m > 0 && !Spills(t, call)
    requires t' == Result(t, h, call, id).1
    requires o in Around(call.from, t, h) && o in Around(PlanOf(t, h, call).1.dest, t, h)
    ensures o in t' && Load(o, t', h') == Load(o, t, h)
  {
    var p := PlanOf(t, h, call).1;
    PlanIsReady(t, h, call);
    MoveKeeps(t, h, call, id, UnitWeight);
    PlanIsSound(t, h, call);
    SpillPlan(t, h, call);
    if t[call.item].kind.stackable {
      StackReseats(t, h, call.from, call.item, p, id, o);
    } else {
      WholeReseats(t, h, call.from, call.item, p, id, o);
    }
    SameLoad(t, h, t', h', call.from, p.dest, call.item, id, o);
    SameUnder(t, h, t', h', call.from, p.dest, call.item, id, o, call.from);
  }

  /** What is under a container does not depend on the heights chosen. */
  lemma {:induction false} SameUnderAlways(t: Table, h: Heights, h': Heights, o: Id)
    requires IsForest(t, h) && IsForest(t, h')
    ensures Load(o, t, h') == Load(o, t, h)
  {
    forall x | x in t
      ensures Around(x, t, h') == Around(x, t, h)
    {
      AroundSame(x, t, h, t, h');
    }
    assert Under(o, t, h') == Under(o, t, h);
  }
}
