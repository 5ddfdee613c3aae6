/** The container operations of container.cpp on the item forest. */
module Containers {
  import opened Items
  import opened Forest
  import opened Options

  // ---- the weight walk ------------------------------------------------------

  ghost function Gained(c: Id, diff: int, tw: Weights): Weights
    requires c in tw
  {
    tw[c := Wrap(tw[c] + diff)]
  }

  /** `tw'` is `tw` after a weight walk from `c`: below `c` and beside it nothing
      has changed. */
  ghost predicate Walked(c: Id, diff: int, tw: Weights, tw': Weights, h: Heights)
    requires c in tw && tw.Keys <= h.Keys
  {
    && tw'.Keys == tw.Keys
    && tw'[c] == Wrap(tw[c] + diff)
    && forall x :: x in tw && x != c && h[x] <= h[c] ==> tw'[x] == tw[x]
  }

  lemma WalkedOn(c: Id, p: Id, diff: int, tw: Weights, tw': Weights, h: Heights)
    requires c in tw && p in tw && c != p && tw.Keys <= h.Keys && h[c] < h[p]
    requires Walked(p, diff, Gained(c, diff, tw), tw', h)
    ensures Walked(c, diff, tw, tw', h)
  {
  }

  /** Only the container around `c` notices that the contents of `c` gained weight. */
  lemma OthersKeepWeight(c: Id, t: Table, tw: Weights, tw': Weights, except: set<Id>, h: Heights)
    requires IsForest(t, h) && c in t && c in except && WeightsOkBut(except, t, tw)
    requires tw'.Keys == tw.Keys && forall x :: x in tw && x != c ==> tw'[x] == tw[x]
    requires t[c].parent.Some? ==> t[c].parent.value in except
    ensures WeightsOkBut(except, t, tw')
    ensures Sum(t[c].itemlist, t, tw') == Sum(t[c].itemlist, t, tw)
  {
    forall x | x in t && (x == c || x !in except)
      ensures Sum(t[x].itemlist, t, tw') == Sum(t[x].itemlist, t, tw)
    {
      assert Linked(x, t, h);
      SumSame(t[x].itemlist, t, tw, t, tw');
    }
    forall x | x in t && x !in except
      ensures WeightOk(x, t, tw')
    {
      assert WeightOk(x, t, tw);
    }
  }

  lemma HolderIsOff(c: Id, p: Id, t: Table, tw: Weights, diff: int, h: Heights)
    requires IsForest(t, h) && tw.Keys == t.Keys && c in t && t[c].parent == Some(p)
    ensures p in t && p != c && h[c] < h[p]
    ensures WeightOk(p, t, tw) ==> Wrap(tw[p] + diff) == Wrap(Sum(t[p].itemlist, t, Gained(c, diff, tw)))
  {
    assert Linked(c, t, h) && Linked(p, t, h);
    var k :| 0 <= k < |t[p].itemlist| && t[p].itemlist[k] == c;
    SumEntryGains(t[p].itemlist, k, t, tw, diff);
  }

  /** One step of the walk: afterwards only the container around `c` (and the one
      being changed) is out of date. */
  lemma WeightStep(c: Id, t: Table, tw: Weights, diff: int, pending: Id, h: Heights)
    requires IsForest(t, h) && c in t && WeightsOkBut({c, pending}, t, tw)
    requires c != pending ==> Wrap(tw[c] + diff) == Wrap(Sum(t[c].itemlist, t, tw))
    ensures var tw' := Gained(c, diff, tw);
      && (t[c].parent == None ==> WeightsOkBut({pending}, t, tw'))
      && (t[c].parent.Some? ==>
          var p := t[c].parent.value;
          && p in t && p != c && h[c] < h[p] && WeightsOkBut({p, pending}, t, tw')
          && (p != pending ==> Wrap(tw'[p] + diff) == Wrap(Sum(t[p].itemlist, t, tw'))))
  {
    var tw' := Gained(c, diff, tw);
    assert Linked(c, t, h);
    var up := if t[c].parent.Some? then {t[c].parent.value} else {};
    OthersKeepWeight(c, t, tw, tw', {c, pending} + up, h);
    assert c != pending ==> WeightOk(c, t, tw');
    if t[c].parent.Some? {
      var p := t[c].parent.value;
      HolderIsOff(c, p, t, tw, diff, h);
      assert p != pending ==> WeightOk(p, t, tw);
    }
  }

  /** A weight walk from `c` leaves the weights of what `c` lists alone. */
  lemma SameContents(c: Id, diff: int, t: Table, tw: Weights, tw': Weights, h: Heights)
    requires IsForest(t, h) && tw.Keys == t.Keys && c in t && Walked(c, diff, tw, tw', h)
    ensures Sum(t[c].itemlist, t, tw') == Sum(t[c].itemlist, t, tw)
    ensures forall x :: x in t[c].itemlist ==> x in tw && tw'[x] == tw[x]
  {
    assert Linked(c, t, h);
    forall x | x in t[c].itemlist
      ensures x in tw && tw'[x] == tw[x]
    {
      assert Linked(x, t, h);
    }
    SumSame(t[c].itemlist, t, tw, t, tw');
  }

  /** After a weight walk from `c`, everything fits once `c` itself does. */
  lemma WalkDone(c: Id, diff: int, t: Table, tw: Weights, tw': Weights, h: Heights)
    requires IsForest(t, h) && tw.Keys == t.Keys && c in t && Walked(c, diff, tw, tw', h) && WeightsOkBut({c}, t, tw')
    requires Wrap(tw[c] + diff) == Wrap(Sum(t[c].itemlist, t, tw))
    ensures WeightsOkBut({}, t, tw')
  {
    SameContents(c, diff, t, tw, tw', h);
  }

  // ---- linking and unlinking --------------------------------------------------

  ghost function Raised(h: Heights, up: set<Id>, lift: nat): Heights {
    map x | x in h :: h[x] + (if x in up then lift else 0)
  }

  lemma RaisedForest(c: Id, t: Table, h: Heights, lift: nat)
    requires IsForest(t, h) && c in t
    ensures IsForest(t, Raised(h, Around(c, t, h), lift))
  {
    var up := Around(c, t, h);
    forall x | x in t
      ensures Linked(x, t, Raised(h, up, lift))
    {
      assert Linked(x, t, h);
      if x in up { AroundClosed(c, x, t, h); }
    }
  }

  function Attached(c: Id, item: Id, list: seq<Id>, t: Table): Table
    requires c in t && item in t && c != item
  {
    t[item := t[item].(parent := Some(c))][c := t[c].(itemlist := list)]
  }

  function IndexOf(list: seq<Id>, x: Id): (k: nat)
    requires x in list
    ensures k < |list| && list[k] == x && x !in list[..k]
  {
    if list[0] == x then 0 else 1 + IndexOf(list[1..], x)
  }

  function Without(list: seq<Id>, x: Id): seq<Id>
    requires x in list
  {
    list[..IndexOf(list, x)] + list[IndexOf(list, x) + 1..]
  }

  function Detached(c: Id, item: Id, t: Table): Table
    requires c in t && item in t && item in t[c].itemlist
  {
    var t1 := t[item := t[item].(parent := None)];
    t1[c := t1[c].(itemlist := Without(t[c].itemlist, item))]
  }

  /** The item at `index` of `c` makes way for the root `item`. */
  function Replaced(c: Id, index: nat, item: Id, t: Table): Table
    requires c in t && item in t && c != item && index < |t[c].itemlist| && t[c].itemlist[index] in t
    requires t[c].itemlist[index] != c
  {
    var out := t[c].itemlist[index];
    Attached(c, item, t[c].itemlist[index := item], t[out := t[out].(parent := None)])
  }

  /** `list` is what `c` lists now, with one more entry for `item` somewhere. */
  ghost predicate OneMore(list: seq<Id>, item: Id, before: seq<Id>) {
    && (forall j, k :: 0 <= j < k < |list| ==> list[j] != list[k])
    && (forall k :: 0 <= k < |list| ==> list[k] == item || list[k] in before)
    && (forall k :: 0 <= k < |before| ==> before[k] in list)
    && item in list
  }

  lemma AttachForest(c: Id, item: Id, list: seq<Id>, t: Table, h: Heights)
    requires IsForest(t, h) && c in t && item in t
    requires t[c].isContainer && t[item].parent == None && item !in Around(c, t, h)
    requires OneMore(list, item, t[c].itemlist)
    ensures IsForest(Attached(c, item, list, t), Raised(h, Around(c, t, h), h[item] + 1))
  {
    var h' := Raised(h, Around(c, t, h), h[item] + 1);
    var t' := Attached(c, item, list, t);
    RaisedForest(c, t, h, h[item] + 1);
    forall x | x in t'
      ensures Linked(x, t', h')
    {
      assert Linked(x, t, h') && Linked(c, t, h');
    }
  }

  lemma PushFrontIsOneMore(c: Id, item: Id, t: Table, h: Heights)
    requires IsForest(t, h) && c in t && item in t && t[item].parent == None
    ensures OneMore([item] + t[c].itemlist, item, t[c].itemlist)
  {
    assert Linked(c, t, h);
    var list := [item] + t[c].itemlist;
    assert forall k :: 0 <= k < |t[c].itemlist| ==> list[k + 1] == t[c].itemlist[k];
    assert list[0] == item;
  }

  lemma WithoutDistinct(list: seq<Id>, x: Id)
    requires x in list && forall j, k :: 0 <= j < k < |list| ==> list[j] != list[k]
    ensures var r := Without(list, x);
      && (forall j, k :: 0 <= j < k < |r| ==> r[j] != r[k])
      && (forall y :: y in r <==> y in list && y != x)
  {
    var n := IndexOf(list, x);
    var r := Without(list, x);
    forall y | y in list && y != x
      ensures y in r
    {
      var k :| 0 <= k < |list| && list[k] == y;
      assert r[if k < n then k else k - 1] == y;
    }
  }

  lemma DetachForest(c: Id, item: Id, t: Table, h: Heights)
    requires IsForest(t, h) && c in t && item in t && item in t[c].itemlist
    ensures IsForest(Detached(c, item, t), h)
  {
    var t' := Detached(c, item, t);
    assert Linked(c, t, h) && Linked(item, t, h);
    WithoutDistinct(t[c].itemlist, item);
    forall x | x in t'
      ensures Linked(x, t', h)
    {
      assert Linked(x, t, h);
    }
  }

  /** Putting `x` in the place of an entry is taking that entry out and putting `x` in. */
  lemma {:induction false} ReplaceIsOneMore(list: seq<Id>, index: nat, x: Id)
    requires index < |list| && x !in list && forall j, k :: 0 <= j < k < |list| ==> list[j] != list[k]
    ensures OneMore(list[index := x], x, Without(list, list[index]))
  {
    var out, list' := list[index], list[index := x];
    WithoutDistinct(list, out);
    assert list'[index] == x;
    forall y | y in Without(list, out)
      ensures y in list'
    {
      var k :| 0 <= k < |list| && list[k] == y;
      assert list'[k] == y;
    }
  }

  lemma {:induction false} ReplaceForest(c: Id, index: nat, item: Id, t: Table, h: Heights)
    requires IsForest(t, h) && c in t && item in t && index < |t[c].itemlist|
    requires t[c].isContainer && t[item].parent == None && item !in Around(c, t, h)
    ensures t[c].itemlist[index] in t && t[c].itemlist[index] != c
    ensures IsForest(Replaced(c, index, item, t), Raised(h, Around(c, t, h), h[item] + 1))
  {
    assert Linked(c, t, h);
    var list, out := t[c].itemlist, t[c].itemlist[index];
    assert Linked(out, t, h);
    var t1 := Detached(c, out, t);
    DetachForest(c, out, t, h);
    AroundSame(c, t, h, t1, h) by {
      assert forall y :: y in Around(c, t, h) ==> t1[y].parent == t[y].parent;
    }
    ReplaceIsOneMore(list, index, item);
    AttachForest(c, item, list[index := item], t1, h);
    assert Attached(c, item, list[index := item], t1) == Replaced(c, index, item, t);
  }

  /** Only links differ. */
  ghost predicate Relinked(t: Table, t': Table) {
    t'.Keys == t.Keys && forall x :: x in t ==> t'[x] == t[x].(parent := t'[x].parent, itemlist := t'[x].itemlist)
  }

  lemma RelinkSums(t: Table, t': Table, tw: Weights)
    requires Relinked(t, t')
    ensures forall list: seq<Id> {:trigger Sum(list, t', tw)} :: Sum(list, t', tw) == Sum(list, t, tw)
  {
    assert forall x :: WeightAt(x, t', tw) == WeightAt(x, t, tw);
    forall list: seq<Id>
      ensures Sum(list, t', tw) == Sum(list, t, tw)
    {
      SumSame(list, t, tw, t', tw);
    }
  }

  /** Relinking weighs nothing: lists that stay keep their sums. */
  lemma RelinkWeights(except: set<Id>, t: Table, t': Table, tw: Weights)
    requires WeightsOkBut(except, t, tw) && Relinked(t, t')
    requires forall x :: x in t && x !in except ==> t'[x].itemlist == t[x].itemlist
    ensures WeightsOkBut(except, t', tw)
    ensures forall list: seq<Id> {:trigger Sum(list, t', tw)} :: Sum(list, t', tw) == Sum(list, t, tw)
  {
    RelinkSums(t, t', tw);
    forall x | x in t' && x !in except
      ensures WeightOk(x, t', tw)
    {
      assert WeightOk(x, t, tw);
    }
  }

  lemma {:induction false} AttachWeights(c: Id, item: Id, t: Table, tw: Weights)
    requires WeightsOkBut({}, t, tw) && c in t && item in t && c != item
    ensures var t' := Attached(c, item, [item] + t[c].itemlist, t);
      && WeightsOkBut({c}, t', tw)
      && Wrap(tw[c] + WeightAt(item, t, tw)) == Wrap(Sum(t'[c].itemlist, t', tw))
  {
    var list := [item] + t[c].itemlist;
    RelinkWeights({c}, t, Attached(c, item, list, t), tw);
    assert WeightOk(c, t, tw);
    assert list[1..] == t[c].itemlist;
    WrapOfWrap(Sum(t[c].itemlist, t, tw), WeightAt(item, t, tw));
  }

  lemma AttachedOk(c: Id, item: Id, t: Table, tw: Weights)
    requires WeightsOkBut({}, t, tw) && c in t && item in t && c != item
    ensures var t' := Attached(c, item, [item] + t[c].itemlist, t);
      && WeightsOkBut({c}, t', tw) && c in tw && item in tw && c in t' && item in t'
      && Wrap(tw[c] + GetWeight(t'[item], tw[item])) == Wrap(Sum(t'[c].itemlist, t', tw))
  {
    AttachWeights(c, item, t, tw);
    assert WeightOk(item, t, tw) && WeightOk(c, t, tw);
  }

  /** What a replacement does to the lists. */
  lemma {:induction false} ReplacedLists(c: Id, index: nat, item: Id, t: Table)
    requires c in t && item in t && c != item && index < |t[c].itemlist|
    requires t[c].itemlist[index] in t && t[c].itemlist[index] != c
    ensures var t' := Replaced(c, index, item, t);
      && Relinked(t, t') && t'[c].itemlist == t[c].itemlist[index := item]
      && forall x :: x in t && x != c ==> t'[x].itemlist == t[x].itemlist
  {
  }

  lemma {:induction false} ReplaceWeights(c: Id, index: nat, item: Id, t: Table, tw: Weights)
    requires WeightsOkBut({}, t, tw) && c in t && item in t && c != item && index < |t[c].itemlist|
    requires t[c].itemlist[index] in t && t[c].itemlist[index] != c
    ensures var t' := Replaced(c, index, item, t);
      && WeightsOkBut({c}, t', tw)
      && Wrap(tw[c] + (WeightAt(item, t, tw) - WeightAt(t[c].itemlist[index], t, tw))) ==
         Wrap(Sum(t'[c].itemlist, t', tw))
  {
    ReplacedLists(c, index, item, t);
    RelinkWeights({c}, t, Replaced(c, index, item, t), tw);
    assert WeightOk(c, t, tw);
    ReplacedSum(t[c].itemlist, index, item, t, tw);
  }

  lemma {:induction false} ReplacedSum(list: seq<Id>, index: nat, item: Id, t: Table, tw: Weights)
    requires index < |list|
    ensures Wrap(Wrap(Sum(list, t, tw)) + (WeightAt(item, t, tw) - WeightAt(list[index], t, tw))) ==
      Wrap(Sum(list[index := item], t, tw))
  {
    SumOneReplaced(list, index, item, t, tw);
    WrapOfWrap(Sum(list, t, tw), WeightAt(item, t, tw) - WeightAt(list[index], t, tw));
  }

  /** What the weight walk from `c` has to find: all is well but the weight of `c`, which is
      off by `diff`. */
  ghost predicate Unsettled(t: Table, tw: Weights, h: Heights, c: Id, diff: int) {
    && IsForest(t, h) && c in t && c in tw && WeightsOkBut({c}, t, tw) && (forall x :: x in t ==> StackOk(t[x]))
    && Wrap(tw[c] + diff) == Wrap(Sum(t[c].itemlist, t, tw))
  }

  /** Everything about putting an item in front but the weight walk that must follow. */
  lemma {:induction false} PushFrontKeeps(c: Id, item: Id, t: Table, tw: Weights, h: Heights, t': Table, h': Heights)
    requires Valid(t, tw, h) && c in t && item in t
    requires t[c].isContainer && t[item].parent == None && item !in Around(c, t, h)
    requires t' == Attached(c, item, [item] + t[c].itemlist, t) && h' == Raised(h, Around(c, t, h), h[item] + 1)
    ensures item in t' && item in tw && Unsettled(t', tw, h', c, GetWeight(t'[item], tw[item]))
  {
    PushFrontIsOneMore(c, item, t, h);
    AttachForest(c, item, [item] + t[c].itemlist, t, h);
    AttachedOk(c, item, t, tw);
  }

  /** Everything about a replacement but the weight walk that must follow. */
  lemma {:induction false} ReplaceKeeps(c: Id, index: nat, item: Id, t: Table, tw: Weights, h: Heights,
                                        t': Table, h': Heights)
    requires Valid(t, tw, h) && c in t && item in t && index < |t[c].itemlist|
    requires t[c].isContainer && t[item].parent == None && item !in Around(c, t, h)
    requires t[c].itemlist[index] in t && t[c].itemlist[index] != c
    requires t' == Replaced(c, index, item, t) && h' == Raised(h, Around(c, t, h), h[item] + 1)
    ensures var out := t[c].itemlist[index];
      out in tw && item in tw && Unsettled(t', tw, h', c, GetWeight(t[item], tw[item]) - GetWeight(t[out], tw[out]))
  {
    ReplaceForest(c, index, item, t, h);
    ReplaceWeights(c, index, item, t, tw);
    ReplacedLists(c, index, item, t);
    RelinkedStacks(t, t');
  }

  lemma {:induction false} RelinkedStacks(t: Table, t': Table)
    requires Relinked(t, t') && forall x :: x in t ==> StackOk(t[x])
    ensures forall x :: x in t' ==> StackOk(t'[x])
  {
  }

  /** The entry at a position of a list. */
  lemma {:induction false} ListedEntry(c: Id, index: nat, t: Table, h: Heights)
    requires IsForest(t, h) && c in t && index < |t[c].itemlist|
    ensures t[c].itemlist[index] in t && t[c].itemlist[index] != c
  {
    assert Linked(c, t, h) && Linked(t[c].itemlist[index], t, h);
  }

  lemma {:induction false} DetachOwn(c: Id, item: Id, t: Table, tw: Weights, tw': Weights, h: Heights)
    requires IsForest(t, h) && WeightsOkBut({}, t, tw) && c in t && item in t && item in t[c].itemlist
    requires Walked(c, 0 - WeightAt(item, t, tw), tw, tw', h) && WeightsOkBut({c}, t, tw')
    ensures c in tw' && tw'[c] == Wrap(Sum(Without(t[c].itemlist, item), t, tw'))
  {
    SameContents(c, 0 - WeightAt(item, t, tw), t, tw, tw', h);
    assert WeightOk(c, t, tw);
    WrapOfWrap(Sum(t[c].itemlist, t, tw), 0 - WeightAt(item, t, tw));
    SumOneRemoved(t[c].itemlist, IndexOf(t[c].itemlist, item), t, tw');
  }

  /** What taking an item out does to the lists. */
  lemma {:induction false} DetachedLists(c: Id, item: Id, t: Table)
    requires c in t && item in t && c != item && item in t[c].itemlist
    ensures var t' := Detached(c, item, t);
      && Relinked(t, t') && t'[c].itemlist == Without(t[c].itemlist, item)
      && forall x :: x in t && x != c ==> t'[x].itemlist == t[x].itemlist
  {
  }

  /** The walk runs before the list shrinks: `tw'` is what it leaves behind. */
  lemma {:induction false} DetachWeights(c: Id, item: Id, t: Table, tw: Weights, tw': Weights, h: Heights)
    requires IsForest(t, h) && WeightsOkBut({}, t, tw) && c in t && item in t && item in t[c].itemlist
    requires Walked(c, 0 - WeightAt(item, t, tw), tw, tw', h) && WeightsOkBut({c}, t, tw')
    ensures WeightsOkBut({}, Detached(c, item, t), tw')
  {
    assert Linked(c, t, h) && Linked(item, t, h);
    DetachOwn(c, item, t, tw, tw', h);
    DetachedLists(c, item, t);
    RelinkWeights({c}, t, Detached(c, item, t), tw');
    OneMoreOk(c, Detached(c, item, t), tw');
  }

  lemma OneMoreOk(c: Id, t: Table, tw: Weights)
    requires WeightsOkBut({c}, t, tw) && c in t && c in tw && tw[c] == Wrap(Sum(t[c].itemlist, t, tw))
    ensures WeightsOkBut({}, t, tw)
  {
    forall x | x in t ensures WeightOk(x, t, tw) {
    }
  }

  // ---- changing a listed item in place ------------------------------------------

  /** `e` may stand in for `e0`: same place in the forest, same contents. */
  ghost predicate SamePlace(e: Entry, e0: Entry) {
    && e.parent == e0.parent && e.itemlist == e0.itemlist
    && e.isContainer == e0.isContainer && e.maxSize == e0.maxSize
  }

  lemma ChangeForest(item: Id, e: Entry, t: Table, h: Heights)
    requires IsForest(t, h) && item in t && SamePlace(e, t[item])
    ensures IsForest(t[item := e], h)
  {
    forall x | x in t
      ensures Linked(x, t[item := e], h)
    {
      assert Linked(x, t, h);
    }
  }

  /** Changing one listed item in place puts its container off by the difference. */
  lemma ChangeWeights(c: Id, item: Id, e: Entry, t: Table, tw: Weights, h: Heights)
    requires IsForest(t, h) && WeightsOkBut({}, t, tw) && c in t && item in t && item in t[c].itemlist
    requires SamePlace(e, t[item])
    ensures var t' := t[item := e];
      && WeightsOkBut({c}, t', tw) && c != item
      && Wrap(tw[c] + (WeightAt(item, t', tw) - WeightAt(item, t, tw))) == Wrap(Sum(t'[c].itemlist, t', tw))
  {
    var t' := t[item := e];
    var k := IndexOf(t[c].itemlist, item);
    assert Linked(c, t, h) && t[t[c].itemlist[k]].parent == Some(c);
    assert Linked(item, t, h);
    forall x | x in t' && x != c
      ensures WeightOk(x, t', tw)
    {
      assert Linked(x, t, h) && WeightOk(x, t, tw);
      SumSame(t[x].itemlist, t, tw, t', tw);
    }
    assert WeightOk(c, t, tw);
    SumOneChanged(t[c].itemlist, k, t, tw, t', tw);
    WrapOfWrap(Sum(t[c].itemlist, t, tw), WeightAt(item, t', tw) - WeightAt(item, t, tw));
  }

  /** `Item::setID` and `Item::setSubType` on one record. */
  function SetID(e: Entry, kind: ItemType): Entry {
    e.(kind := kind, attrs := RetypeAttrs(e.attrs, e.kind, kind))
  }

  predicate SameAttr(e: Entry, e0: Entry, a: Attr) {
    && (HasAttr(e.attrs, a) <==> HasAttr(e0.attrs, a))
    && (HasAttr(e0.attrs, a) ==> e.attrs.value[a] == e0.attrs.value[a])
  }

  /** What setting an item to another row does to its attributes: only three of them can change.
      It belongs to no corpse any more; what neither decays nor keeps its time has no time left;
      what decays gets the full time of its row unless it has kept its own. */
  lemma {:induction false} RetypeExactly(e: Entry, kind: ItemType, a: Attr)
    ensures var e', timeless := SetID(e, kind), kind.decayTime == 0 && !kind.stopTime && kind.decayTo < 0;
      && e'.kind == kind && e'.count == e.count
      && (a != Duration && a != DecayState && a != CorpseOwner ==>
            SameAttr(e', e, a))
      && !HasAttr(e'.attrs, CorpseOwner)
      && (timeless ==> !HasAttr(e'.attrs, Duration) && !HasAttr(e'.attrs, DecayState))
      && (kind.decayTime > 0 && !(e.kind.stopTime && HasAttr(e.attrs, Duration)) ==>
            && HasAttr(e'.attrs, Duration) && e'.attrs.value[Duration] == Number(kind.decayTime * 1000)
            && HasAttr(e'.attrs, DecayState) && e'.attrs.value[DecayState] == Number(0))
      && (!timeless && (kind.decayTime == 0 || (e.kind.stopTime && HasAttr(e.attrs, Duration))) &&
            (a == Duration || a == DecayState) ==>
            SameAttr(e', e, a))
  {
  }

  function SetSubType(e: Entry, n: nat): Entry {
    if e.kind.fluid then e.(attrs := SetNumber(e.attrs, FluidType, n))
    else if e.kind.stackable then e.(count := n % 256)
    else if e.kind.charges != 0 then e.(attrs := SetNumber(e.attrs, Charges, n))
    else e.(count := n % 256)
  }

  // ---- items that come and go ------------------------------------------------------

  function Loose(kind: ItemType, count: nat, attrs: Attrs): Entry {
    Entry(kind, count, attrs, None, false, 0, [])
  }

  lemma CreateForest(id: Id, e: Entry, t: Table, tw: Weights, h: Heights, except: set<Id>)
    requires IsForest(t, h) && WeightsOkBut(except, t, tw) && id !in t
    requires e.parent == None && e.itemlist == []
    ensures IsForest(t[id := e], h[id := 0]) && WeightsOkBut(except, t[id := e], tw[id := 0])
  {
    var t', tw', h' := t[id := e], tw[id := 0], h[id := 0];
    forall x | x in t'
      ensures Linked(x, t', h') && (x !in except ==> WeightOk(x, t', tw'))
    {
      if x != id {
        assert Linked(x, t, h);
        assert x !in except ==> WeightOk(x, t, tw);
        SumSame(t[x].itemlist, t, tw, t', tw');
      }
    }
  }

  lemma ReleaseValid(id: Id, t: Table, tw: Weights, h: Heights)
    requires Valid(t, tw, h) && id in t && t[id].parent == None && t[id].itemlist == []
    ensures Valid(t - {id}, tw - {id}, h)
  {
    var t', tw' := t - {id}, tw - {id};
    forall x | x in t'
      ensures Linked(x, t', h) && WeightOk(x, t', tw')
    {
      assert Linked(x, t, h) && WeightOk(x, t, tw);
      SumSame(t[x].itemlist, t, tw, t', tw');
    }
  }

  class ItemWorld {
    var items: Table
    var totalWeight: Weights
    var nextId: Id
    ghost var height: Heights

    ghost predicate Ok()
      reads this
    {
      Valid(items, totalWeight, height) && forall x :: x in items ==> x < nextId
    }

    /** A new item outside every container. */
    method Create(kind: ItemType, count: nat, attrs: Attrs) returns (id: Id)
      requires Ok() && StackOk(Loose(kind, count, attrs))
      modifies this
      ensures Ok() && id == old(nextId) && nextId == id + 1
      ensures items == old(items)[id := Loose(kind, count, attrs)] && height == old(height)[id := 0]
    {
      id := nextId;
      CreateForest(id, Loose(kind, count, attrs), items, totalWeight, height, {});
      items, totalWeight := items[id := Loose(kind, count, attrs)], totalWeight[id := 0];
      height := height[id := 0];
      nextId := nextId + 1;
    }

    /** `Game::ReleaseItem` on an item that is in no container and holds nothing. */
    method Release(id: Id)
      requires Ok() && id in items && items[id].parent == None && items[id].itemlist == []
      modifies this`items, this`totalWeight
      ensures Ok() && items == old(items) - {id}
    {
      ReleaseValid(id, items, totalWeight, height);
      items, totalWeight := items - {id}, totalWeight - {id};
    }

    /** Adds `diff` to the cached weight of a container and of every container
        around it. `pending` is the container whose list the caller is changing;
        every other cached weight is right afterwards. */
    method UpdateItemWeight(c: Id, diff: int, ghost pending: Id)
      requires IsForest(items, height) && c in items
      requires WeightsOkBut({c, pending}, items, totalWeight)
      requires c != pending ==> Wrap(totalWeight[c] + diff) == Wrap(Sum(items[c].itemlist, items, totalWeight))
      modifies this`totalWeight
      ensures WeightsOkBut({pending}, items, totalWeight)
      ensures Walked(c, diff, old(totalWeight), totalWeight, height)
      decreases Above(height[c], height)
    {
      WeightStep(c, items, totalWeight, diff, pending, height);
      ghost var tw := totalWeight;
      totalWeight := totalWeight[c := Wrap(totalWeight[c] + diff)];
      if items[c].parent.Some? {
        var p := items[c].parent.value;
        assert p in Above(height[c], height) && p !in Above(height[p], height);
        UpdateItemWeight(p, diff, pending);
        WalkedOn(c, p, diff, tw, totalWeight, height);
      }
    }

    /** `Container::addThing`: puts a root item in front, unless the index is out of
        the container's range, in which case nothing happens. */
    method AddThing(c: Id, index: int, item: Id)
      requires Ok() && c in items && item in items
      requires items[c].isContainer && items[item].parent == None && item !in Around(c, items, height)
      modifies this`items, this`totalWeight, this`height
      ensures Ok()
      ensures items ==
        if index >= old(items[c].maxSize) then old(items)
        else Attached(c, item, [item] + old(items[c].itemlist), old(items))
    {
      if index >= items[c].maxSize {
        return;
      }
      PushFront(c, item);
      Settle(c, GetWeight(items[item], totalWeight[item]));
    }

    /** The links of `addThing`; the weights are still to follow. */
    method PushFront(c: Id, item: Id)
      requires Ok() && c in items && item in items
      requires items[c].isContainer && items[item].parent == None && item !in Around(c, items, height)
      modifies this`items, this`height
      ensures items == Attached(c, item, [item] + old(items[c].itemlist), old(items))
      ensures item in items && item in totalWeight
      ensures Unsettled(items, totalWeight, height, c, GetWeight(items[item], totalWeight[item]))
    {
      var placed := Attached(c, item, [item] + items[c].itemlist, items);
      ghost var higher := Raised(height, Around(c, items, height), height[item] + 1);
      PushFrontKeeps(c, item, items, totalWeight, height, placed, higher);
      items, height := placed, higher;
    }

    /** A weight walk that brings `c`, the only container out of date, up to date. */
    method Settle(c: Id, diff: int)
      requires Unsettled(items, totalWeight, height, c, diff)
      modifies this`totalWeight
      ensures WeightsOkBut({}, items, totalWeight)
    {
      ghost var tw := totalWeight;
      assert {c, c} == {c};
      UpdateItemWeight(c, diff, c);
      WalkDone(c, diff, items, tw, totalWeight, height);
    }

    /** `Container::getThingIndex`, -1 when the item is not in the list. */
    method GetThingIndex(c: Id, item: Id) returns (index: int)
      requires c in items
      ensures item in items[c].itemlist ==> index == IndexOf(items[c].itemlist, item)
      ensures item !in items[c].itemlist ==> index == -1
    {
      var list := items[c].itemlist;
      index := 0;
      while index < |list|
        invariant 0 <= index <= |list| && item !in list[..index]
      {
        if list[index] == item {
          return;
        }
        index := index + 1;
      }
      index := -1;
    }

    /** Gives a listed item a new record of the same links, and passes the
        difference in weight on to the containers around it. */
    method ChangeInPlace(c: Id, item: Id, e: Entry)
      requires Ok() && c in items && item in items && item in items[c].itemlist
      requires SamePlace(e, items[item]) && StackOk(e)
      modifies this`items, this`totalWeight
      ensures Ok()
      ensures items == old(items)[item := e]
    {
      var oldWeight := GetWeight(items[item], totalWeight[item]);
      ChangeForest(item, e, items, height);
      ChangeWeights(c, item, e, items, totalWeight, height);
      items := items[item := e];
      Settle(c, GetWeight(e, totalWeight[item]) - oldWeight);
    }

    method TakeOut(c: Id, item: Id)
      requires Ok() && c in items && item in items && item in items[c].itemlist
      modifies this`items, this`totalWeight
      ensures Ok()
      ensures items == Detached(c, item, old(items))
    {
      ghost var tw := totalWeight;
      assert {c, c} == {c};
      UpdateItemWeight(c, 0 - GetWeight(items[item], totalWeight[item]), c);
      DetachWeights(c, item, items, tw, totalWeight, height);
      DetachForest(c, item, items, height);
      items := Detached(c, item, items);
    }

    /** `Container::removeThing`: takes `count` units off a stack, or the item out. */
    method RemoveThing(c: Id, item: Id, count: nat)
      requires Ok() && c in items && item in items
      requires items[item].kind.stackable ==> count <= items[item].count
      modifies this`items, this`totalWeight
      ensures Ok()
      ensures items ==
        if item !in old(items[c].itemlist) then old(items)
        else if old(items[item].kind.stackable && count != items[item].count)
        then old(items[item := items[item].(count := items[item].count - count)])
        else Detached(c, item, old(items))
    {
      var index := GetThingIndex(c, item);
      if index == -1 {
        return;
      }
      var e := items[item];
      if e.kind.stackable && count != e.count {
        ChangeInPlace(c, item, e.(count := e.count - count));
      } else {
        TakeOut(c, item);
      }
    }

    /** `Container::updateThing`: re-types a listed item and sets its count, charges
        or fluid. */
    method UpdateThing(c: Id, item: Id, kind: ItemType, count: nat)
      requires Ok() && c in items && item in items
      requires StackOk(SetSubType(SetID(items[item], kind), count))
      modifies this`items, this`totalWeight
      ensures Ok()
      ensures items ==
        if item !in old(items[c].itemlist) then old(items)
        else old(items)[item := SetSubType(SetID(old(items[item]), kind), count)]
    {
      var index := GetThingIndex(c, item);
      if index == -1 {
        return;
      }
      ChangeInPlace(c, item, SetSubType(SetID(items[item], kind), count));
    }

    /** `Container::replaceThing`: the item at `index` leaves, the root `item` takes
        its position. */
    method ReplaceThing(c: Id, index: nat, item: Id)
      requires Ok() && c in items && item in items
      requires items[c].isContainer && items[item].parent == None && item !in Around(c, items, height)
      modifies this`items, this`totalWeight, this`height
      ensures Ok()
      ensures index >= old(|items[c].itemlist|) ==> items == old(items)
      ensures index < old(|items[c].itemlist|) ==>
        && old(items[c].itemlist[index] in items && items[c].itemlist[index] != c)
        && items == Replaced(c, index, item, old(items))
    {
      if index >= |items[c].itemlist| {
        return;
      }
      var diff := PutAt(c, index, item);
      Settle(c, diff);
    }

    /** The links of `replaceThing`, and the difference in weight still to follow. */
    method PutAt(c: Id, index: nat, item: Id) returns (diff: int)
      requires Ok() && c in items && item in items && index < |items[c].itemlist|
      requires items[c].isContainer && items[item].parent == None && item !in Around(c, items, height)
      modifies this`items, this`height
      ensures old(items[c].itemlist[index] in items && items[c].itemlist[index] != c)
      ensures items == Replaced(c, index, item, old(items))
      ensures Unsettled(items, totalWeight, height, c, diff)
    {
      ListedEntry(c, index, items, height);
      var out := items[c].itemlist[index];
      var replaced := Replaced(c, index, item, items);
      ghost var higher := Raised(height, Around(c, items, height), height[item] + 1);
      ReplaceKeeps(c, index, item, items, totalWeight, height, replaced, higher);
      diff := GetWeight(items[item], totalWeight[item]) - GetWeight(items[out], totalWeight[out]);
      items, height := replaced, higher;
    }
  }
}
