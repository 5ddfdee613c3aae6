/** Copies of items with everything in them (`Item::clone`, `Container::clone`). */
module Cloning {
  import opened Items
  import opened Options
  import opened Forest
  import opened Containers

  /** `y` in `t'` is a copy of `x` in `t`: equal records all the way down, lists in
      the same order, and every item of the copy is numbered `lo` or later. */
  ghost predicate SameTree(x: Id, t: Table, h: Heights, y: Id, t': Table, lo: Id)
    requires IsForest(t, h) && x in t
    decreases h[x]
  {
    assert Linked(x, t, h);
    && y in t' && lo <= y
    && t'[y] == t[x].(parent := t'[y].parent, itemlist := t'[y].itemlist)
    && |t'[y].itemlist| == |t[x].itemlist|
    && forall k :: 0 <= k < |t[x].itemlist| ==>
      var c := t[x].itemlist[k];
      assert Linked(c, t, h);
      SameTree(c, t, h, t'[y].itemlist[k], t', lo)
  }

  /** A copy stays one when its records only change parents. */
  lemma {:induction false} SameTreeStays(x: Id, t: Table, h: Heights, y: Id, t1: Table, t2: Table, lo: Id, lo': Id)
    requires IsForest(t, h) && x in t && SameTree(x, t, h, y, t1, lo) && lo' <= lo
    requires forall z :: z in t1 && lo <= z ==> z in t2 && t2[z] == t1[z].(parent := t2[z].parent)
    ensures SameTree(x, t, h, y, t2, lo')
    decreases h[x]
  {
    assert Linked(x, t, h);
    forall k | 0 <= k < |t[x].itemlist|
      ensures t[x].itemlist[k] in t && SameTree(t[x].itemlist[k], t, h, t2[y].itemlist[k], t2, lo')
    {
      assert Linked(t[x].itemlist[k], t, h);
      SameTreeStays(t[x].itemlist[k], t, h, t1[y].itemlist[k], t1, t2, lo, lo');
    }
  }

  /** Whatever is in the copy has its counterpart in the original; in particular the
      copy holds nothing that was there before. */
  lemma {:induction false} Counterpart(x: Id, t: Table, h: Heights, y: Id, t': Table, h': Heights, lo: Id, z: Id)
    returns (z0: Id)
    requires IsForest(t, h) && IsForest(t', h') && x in t && SameTree(x, t, h, y, t', lo)
    requires z in t' && y in Around(z, t', h')
    ensures lo <= z && z0 in t && x in Around(z0, t, h) && SameTree(z0, t, h, z, t', lo)
    decreases Around(z, t', h')
  {
    assert Linked(z, t', h');
    if z == y {
      z0 := x;
    } else {
      var p := t'[z].parent.value;
      assert z !in Around(p, t', h');
      var p0 := Counterpart(x, t, h, y, t', h', lo, p);
      var k :| 0 <= k < |t'[p].itemlist| && t'[p].itemlist[k] == z;
      assert Linked(p0, t, h);
      z0 := t[p0].itemlist[k];
      assert Linked(z0, t, h);
    }
  }

  /** Lists that weigh the same position by position weigh the same. */
  lemma {:induction false} SumPairwise(a: seq<Id>, t: Table, tw: Weights, b: seq<Id>, t': Table, tw': Weights)
    requires |a| == |b| && forall k :: 0 <= k < |a| ==> WeightAt(a[k], t, tw) == WeightAt(b[k], t', tw')
    ensures Sum(a, t, tw) == Sum(b, t', tw')
  {
    if a != [] { SumPairwise(a[1..], t, tw, b[1..], t', tw'); }
  }

  /** The world while copies are under construction: only the cached weights of the
      unfinished containers are out of date. */
  ghost predicate Building(w: ItemWorld, open: set<Id>)
    reads w
  {
    && IsForest(w.items, w.height) && WeightsOkBut(open, w.items, w.totalWeight)
    && (forall z :: z in w.items ==> StackOk(w.items[z]) && z < w.nextId)
  }

  /** Everything that was there is still there, as it was. */
  ghost predicate Kept(t: Table, tw: Weights, t': Table, tw': Weights) {
    t.Keys <= tw.Keys && t'.Keys <= tw'.Keys && forall z :: z in t ==> z in t' && t'[z] == t[z] && tw'[z] == tw[z]
  }

  method NewRecord(w: ItemWorld, e: Entry, ghost open: set<Id>) returns (y: Id)
    requires Building(w, open) && e.parent == None && e.itemlist == [] && StackOk(e)
    modifies w
    ensures Building(w, open) && y == old(w.nextId)
    ensures w.items == old(w.items)[y := e] && y !in old(w.items)
    ensures Kept(old(w.items), old(w.totalWeight), w.items, w.totalWeight)
  {
    y := w.nextId;
    CreateForest(y, e, w.items, w.totalWeight, w.height, open);
    w.items, w.totalWeight, w.height := w.items[y := e], w.totalWeight[y := 0], w.height[y := 0];
    w.nextId := y + 1;
  }

  /** Appending to an unfinished container keeps the forest and everybody else's weight. */
  lemma {:induction false} AppendKeeps(c: Id, item: Id, t: Table, tw: Weights, h: Heights, open: set<Id>)
    requires IsForest(t, h) && WeightsOkBut(open, t, tw) && c in open && c in t && item in t
    requires t[c].isContainer && t[item].parent == None && item !in Around(c, t, h)
    ensures var t' := Attached(c, item, t[c].itemlist + [item], t);
      IsForest(t', Raised(h, Around(c, t, h), h[item] + 1)) && WeightsOkBut(open, t', tw)
  {
    var list := t[c].itemlist + [item];
    assert OneMore(list, item, t[c].itemlist) by {
      assert Linked(c, t, h);
      assert list[|list| - 1] == item;
      assert forall k :: 0 <= k < |list| - 1 ==> list[k] == t[c].itemlist[k];
    }
    AttachForest(c, item, list, t, h);
    RelinkWeights(open, t, Attached(c, item, list, t), tw);
  }

  /** `Container::addItem`: appends without touching weights. */
  method AddItem(w: ItemWorld, c: Id, item: Id, ghost open: set<Id>)
    requires Building(w, open) && c in open && c in w.items && item in w.items
    requires w.items[c].isContainer && w.items[item].parent == None && item !in Around(c, w.items, w.height)
    modifies w`items, w`height
    ensures Building(w, open)
    ensures w.items == Attached(c, item, old(w.items[c].itemlist) + [item], old(w.items))
  {
    AppendKeeps(c, item, w.items, w.totalWeight, w.height, open);
    w.height := Raised(w.height, Around(c, w.items, w.height), w.height[item] + 1);
    w.items := Attached(c, item, w.items[c].itemlist + [item], w.items);
  }

  /** The copy of a container weighs what its original weighs. */
  lemma {:induction false} CopyWeighs(x: Id, t: Table, tw: Weights, y: Id, t': Table, tw': Weights,
                                      open: set<Id>, h': Heights)
    requires WeightsOkBut({}, t, tw) && IsForest(t', h') && WeightsOkBut(open + {y}, t', tw')
    requires x in t && y in t' && y !in t && t'[y].parent == None && Kept(t, tw, t', tw')
    requires var a, b := t[x].itemlist, t'[y].itemlist;
      |a| == |b| && forall k :: 0 <= k < |a| ==> WeightAt(a[k], t, tw) == WeightAt(b[k], t', tw')
    ensures WeightsOkBut(open, t', tw'[y := tw[x]]) && Kept(t, tw, t', tw'[y := tw[x]])
  {
    var tw2 := tw'[y := tw[x]];
    OthersKeepWeight(y, t', tw', tw2, open + {y}, h');
    SumPairwise(t[x].itemlist, t, tw, t'[y].itemlist, t', tw');
    assert WeightOk(x, t, tw) && WeightOk(y, t', tw2);
    forall z | z in t' && z !in open
      ensures WeightOk(z, t', tw2)
    {
    }
  }

  /** The items in `t` are there unchanged, and `y` copies `x` down to its weight. */
  ghost predicate Copied(x: Id, t: Table, tw: Weights, h: Heights, y: Id, t': Table, tw': Weights)
    requires IsForest(t, h) && x in t
  {
    && Kept(t, tw, t', tw') && x in tw && y in tw' && tw'[y] == tw[x]
    && SameTree(x, t, h, y, t', y) && t'[y].parent == None
  }

  /** The first `n` items of `a` have been copied into the unfinished container `y`. */
  ghost predicate CopiedUpTo(n: nat, a: seq<Id>, t: Table, tw: Weights, h: Heights, y: Id, t': Table, tw': Weights)
    requires IsForest(t, h) && forall k :: 0 <= k < |a| ==> a[k] in t
  {
    && y in t' && n == |t'[y].itemlist| && n <= |a|
    && forall k :: 0 <= k < n ==>
      && a[k] in tw && t'[y].itemlist[k] in tw' && tw'[t'[y].itemlist[k]] == tw[a[k]]
      && SameTree(a[k], t, h, t'[y].itemlist[k], t', y + 1)
  }

  /** One more item has been copied, as `c`, and appended. */
  lemma {:induction false} OneMoreCopied(n: nat, a: seq<Id>, t: Table, tw: Weights, h: Heights, y: Id, c: Id,
                      t1: Table, tw1: Weights, t2: Table, tw2: Weights)
    requires IsForest(t, h) && (forall k :: 0 <= k < |a| ==> a[k] in t) && n < |a|
    requires CopiedUpTo(n, a, t, tw, h, y, t1, tw1) && Kept(t1, tw1, t2, tw2)
    requires Copied(a[n], t, tw, h, c, t2, tw2) && y < c
    ensures CopiedUpTo(n + 1, a, t, tw, h, y, Attached(y, c, t2[y].itemlist + [c], t2), tw2)
  {
    var t3 := Attached(y, c, t2[y].itemlist + [c], t2);
    var list := t3[y].itemlist;
    forall k | 0 <= k < n + 1
      ensures SameTree(a[k], t, h, list[k], t3, y + 1) && list[k] in tw2 && tw2[list[k]] == tw[a[k]]
    {
      if k < n {
        assert list[k] == t1[y].itemlist[k];
        SameTreeStays(a[k], t, h, list[k], t1, t3, y + 1, y + 1);
        assert list[k] in t1;
      } else {
        SameTreeStays(a[n], t, h, c, t2, t3, c, y + 1);
      }
    }
  }

  /** All items copied: with its weight set, the container is a copy. */
  lemma {:induction false} AllCopied(x: Id, t: Table, tw: Weights, h: Heights, y: Id, t': Table, tw': Weights)
    requires IsForest(t, h) && x in t && x in tw
    requires (forall k :: 0 <= k < |t[x].itemlist| ==> t[x].itemlist[k] in t)
    requires CopiedUpTo(|t[x].itemlist|, t[x].itemlist, t, tw, h, y, t', tw')
    requires t'[y] == t[x].(parent := None, itemlist := t'[y].itemlist)
    ensures SameTree(x, t, h, y, t', y)
  {
    forall k | 0 <= k < |t[x].itemlist|
      ensures SameTree(t[x].itemlist[k], t, h, t'[y].itemlist[k], t', y)
    {
      SameTreeStays(t[x].itemlist[k], t, h, t'[y].itemlist[k], t', t', y + 1, y);
    }
  }

  /** With all items copied and its weight set, the container is finished. */
  lemma {:induction false} CopyDone(x: Id, t: Table, tw: Weights, h: Heights, y: Id, t': Table, tw': Weights,
                                    h': Heights, open: set<Id>)
    requires Valid(t, tw, h) && x in t && (forall k :: 0 <= k < |t[x].itemlist| ==> t[x].itemlist[k] in t)
    requires IsForest(t', h') && WeightsOkBut(open + {y}, t', tw') && Kept(t, tw, t', tw') && y !in t
    requires CopiedUpTo(|t[x].itemlist|, t[x].itemlist, t, tw, h, y, t', tw')
    requires t'[y] == t[x].(parent := None, itemlist := t'[y].itemlist)
    ensures x in tw' && tw'[x] == tw[x] && WeightsOkBut(open, t', tw'[y := tw[x]])
    ensures Copied(x, t, tw, h, y, t', tw'[y := tw[x]])
  {
    AllCopied(x, t, tw, h, y, t', tw');
    var a, b := t[x].itemlist, t'[y].itemlist;
    forall k | 0 <= k < |a|
      ensures WeightAt(a[k], t, tw) == WeightAt(b[k], t', tw')
    {
      assert SameTree(a[k], t, h, b[k], t', y + 1);
      assert b[k] in t' && t'[b[k]] == t[a[k]].(parent := t'[b[k]].parent, itemlist := t'[b[k]].itemlist);
    }
    CopyWeighs(x, t, tw, y, t', tw', open, h');
  }

  lemma {:induction false} KeptOn(t: Table, tw: Weights, t1: Table, tw1: Weights, t2: Table, tw2: Weights)
    requires Kept(t, tw, t1, tw1) && Kept(t1, tw1, t2, tw2)
    ensures Kept(t, tw, t2, tw2)
  {
  }

  lemma {:induction false} WeighedKept(t: Table, tw: Weights, t': Table, tw': Weights, y: Id, n: nat)
    requires Kept(t, tw, t', tw') && y !in t
    ensures Kept(t, tw, t', tw'[y := n])
  {
  }

  /** Appending changes the container and the item alone. */
  lemma {:induction false} AppendKept(t: Table, tw: Weights, t': Table, tw': Weights, y: Id, c: Id, list: seq<Id>)
    requires Kept(t, tw, t', tw') && y !in t && c !in t && y in t' && c in t' && y != c
    ensures Kept(t, tw, Attached(y, c, list, t'), tw')
  {
  }

  /** The recursion of `clone`, with the containers in `open` still unfinished. `t`,
      `tw` and `h` are the world as it was when the outermost copy began. */
  method CloneWithin(w: ItemWorld, x: Id, ghost open: set<Id>, ghost t: Table, ghost tw: Weights, ghost h: Heights)
    returns (y: Id)
    requires Valid(t, tw, h) && x in t && Building(w, open) && Kept(t, tw, w.items, w.totalWeight)
    modifies w
    ensures Building(w, open) && y == old(w.nextId)
    ensures Kept(old(w.items), old(w.totalWeight), w.items, w.totalWeight)
    ensures Copied(x, t, tw, h, y, w.items, w.totalWeight)
    decreases h[x], 1
  {
    ghost var t0, tw0 := w.items, w.totalWeight;
    assert Linked(x, t, h);
    y := NewRecord(w, w.items[x].(parent := None, itemlist := []), open);
    KeptOn(t, tw, t0, tw0, w.items, w.totalWeight);
    assert w.items - {y} == t0;
    CloneItems(w, x, y, open, t, tw, h);
    CopyDone(x, t, tw, h, y, w.items, w.totalWeight, w.height, open);
    WeighedKept(t0, tw0, w.items, w.totalWeight, y, tw[x]);
    w.totalWeight := w.totalWeight[y := w.totalWeight[x]];
  }

  /** The loop of `clone`: fills the new container `y` with copies of what `x` holds. */
  method CloneItems(w: ItemWorld, x: Id, y: Id, ghost open: set<Id>, ghost t: Table, ghost tw: Weights,
                    ghost h: Heights)
    requires Valid(t, tw, h) && x in t && Building(w, open + {y}) && Kept(t, tw, w.items, w.totalWeight)
    requires y in w.items && y !in t && w.items[y] == t[x].(parent := None, itemlist := [])
    modifies w
    ensures Building(w, open + {y}) && y in w.items
    ensures w.items[y] == t[x].(parent := None, itemlist := w.items[y].itemlist)
    ensures Kept(old(w.items) - {y}, old(w.totalWeight), w.items, w.totalWeight)
    ensures Kept(t, tw, w.items, w.totalWeight)
    ensures (forall k :: 0 <= k < |t[x].itemlist| ==> t[x].itemlist[k] in t)
    ensures CopiedUpTo(|t[x].itemlist|, t[x].itemlist, t, tw, h, y, w.items, w.totalWeight)
    decreases h[x], 0
  {
    var list := w.items[x].itemlist;
    assert Linked(x, t, h);
    ghost var t0, tw0 := w.items - {y}, w.totalWeight;
    var n := 0;
    while n < |list|
      invariant Building(w, open + {y}) && y in w.items && Kept(t, tw, w.items, w.totalWeight)
      invariant Kept(t0, tw0, w.items, w.totalWeight)
      invariant w.items[y] == t[x].(parent := None, itemlist := w.items[y].itemlist)
      invariant CopiedUpTo(n, list, t, tw, h, y, w.items, w.totalWeight)
    {
      assert Linked(list[n], t, h);
      CloneNext(w, x, y, n, list[n], open, t, tw, h, t0, tw0);
      n := n + 1;
    }
  }

  /** One round of the loop. */
  method CloneNext(w: ItemWorld, x: Id, y: Id, ghost n: nat, item: Id, ghost open: set<Id>,
                   ghost t: Table, ghost tw: Weights, ghost h: Heights, ghost t0: Table, ghost tw0: Weights)
    requires Valid(t, tw, h) && x in t && (forall k :: 0 <= k < |t[x].itemlist| ==> t[x].itemlist[k] in t)
    requires n < |t[x].itemlist| && item == t[x].itemlist[n]
    requires Building(w, open + {y}) && y in w.items && y !in t && y !in t0
    requires Kept(t, tw, w.items, w.totalWeight) && Kept(t0, tw0, w.items, w.totalWeight)
    requires w.items[y] == t[x].(parent := None, itemlist := w.items[y].itemlist)
    requires CopiedUpTo(n, t[x].itemlist, t, tw, h, y, w.items, w.totalWeight)
    modifies w
    ensures Building(w, open + {y}) && y in w.items
    ensures Kept(t, tw, w.items, w.totalWeight) && Kept(t0, tw0, w.items, w.totalWeight)
    ensures w.items[y] == t[x].(parent := None, itemlist := w.items[y].itemlist)
    ensures CopiedUpTo(n + 1, t[x].itemlist, t, tw, h, y, w.items, w.totalWeight)
    decreases h[item], 2
  {
    ghost var t1, tw1 := w.items, w.totalWeight;
    var c := CloneWithin(w, item, open + {y}, t, tw, h);
    OneMoreCopied(n, t[x].itemlist, t, tw, h, y, c, t1, tw1, w.items, w.totalWeight);
    KeptOn(t, tw, t1, tw1, w.items, w.totalWeight);
    KeptOn(t0, tw0, t1, tw1, w.items, w.totalWeight);
    AppendKept(t, tw, w.items, w.totalWeight, y, c, w.items[y].itemlist + [c]);
    AppendKept(t0, tw0, w.items, w.totalWeight, y, c, w.items[y].itemlist + [c]);
    assert Linked(x, t, h);
    AddItem(w, y, c, open + {y});
  }

  /** `Container::clone`: a new root that equals the original down to every item, its
      order and its cached weight. The original and everything else stay as they were. */
  method Clone(w: ItemWorld, x: Id) returns (y: Id)
    requires w.Ok() && x in w.items
    modifies w
    ensures w.Ok() && y == old(w.nextId)
    ensures Copied(x, old(w.items), old(w.totalWeight), old(w.height), y, w.items, w.totalWeight)
  {
    y := CloneWithin(w, x, {}, w.items, w.totalWeight, w.height);
  }
}
