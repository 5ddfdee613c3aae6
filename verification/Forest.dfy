/** The shape of the item world: which item sits in which container, and the
    invariants every operation keeps. */
module Forest {
  import opened Items
  import opened Options

  type Heights = map<Id, nat>

  /** The links of one item agree in both directions, its list has no
      duplicates, and its container is strictly higher. */
  ghost predicate Linked(x: Id, t: Table, h: Heights)
    requires x in t && x in h
  {
    var e := t[x];
    && (e.parent.Some? ==>
          && e.parent.value in t && e.parent.value in h
          && x in t[e.parent.value].itemlist && h[x] < h[e.parent.value])
    && (forall k :: 0 <= k < |e.itemlist| ==> e.itemlist[k] in t && t[e.itemlist[k]].parent == Some(x))
    && (forall j, k :: 0 <= j < k < |e.itemlist| ==> e.itemlist[j] != e.itemlist[k])
    && (!e.isContainer ==> e.itemlist == [])
  }

  /** Heights rising strictly towards the roots make the parent relation acyclic. */
  ghost predicate IsForest(t: Table, h: Heights) {
    t.Keys <= h.Keys && forall x {:trigger Linked(x, t, h)} :: x in t ==> Linked(x, t, h)
  }

  // ---- the containers around an item ------------------------------------

  ghost function Above(n: nat, h: Heights): set<Id> {
    set y | y in h && h[y] > n
  }

  /** `x` itself and every container around it. */
  ghost function Around(x: Id, t: Table, h: Heights): (s: set<Id>)
    requires IsForest(t, h) && x in t
    ensures x in s && s <= t.Keys
    ensures forall y :: y in s ==> y in h && (y != x ==> h[y] > h[x])
    decreases Above(h[x], h)
  {
    assert Linked(x, t, h);
    if t[x].parent == None then {x}
    else
      var p := t[x].parent.value;
      assert p in Above(h[x], h) && p !in Above(h[p], h);
      {x} + Around(p, t, h)
  }

  lemma {:induction false} AroundClosed(x: Id, y: Id, t: Table, h: Heights)
    requires IsForest(t, h) && x in t && y in Around(x, t, h)
    ensures t[y].parent.Some? ==> t[y].parent.value in Around(x, t, h)
    decreases Around(x, t, h)
  {
    assert Linked(x, t, h);
    if t[x].parent.Some? {
      var p := t[x].parent.value;
      assert x !in Around(p, t, h);
      if y != x { AroundClosed(p, y, t, h); }
    }
  }

  /** The walk only depends on the pointers it follows. */
  lemma {:induction false} AroundSame(x: Id, t: Table, h: Heights, t': Table, h': Heights)
    requires IsForest(t, h) && IsForest(t', h') && x in t && x in t'
    requires forall y :: y in Around(x, t, h) ==> y in t' && t'[y].parent == t[y].parent
    ensures Around(x, t', h') == Around(x, t, h)
    decreases Around(x, t, h)
  {
    assert Linked(x, t, h) && Linked(x, t', h');
    if t[x].parent.Some? {
      var p := t[x].parent.value;
      assert x !in Around(p, t, h);
      AroundSame(p, t, h, t', h');
    }
  }

  // ---- cached weights -----------------------------------------------------

  ghost function WeightAt(x: Id, t: Table, tw: Weights): nat {
    if x in t && x in tw then GetWeight(t[x], tw[x]) else 0
  }

  ghost function Sum(list: seq<Id>, t: Table, tw: Weights): nat {
    if list == [] then 0 else WeightAt(list[0], t, tw) + Sum(list[1..], t, tw)
  }

  lemma {:induction false} SumSame(list: seq<Id>, t: Table, tw: Weights, t': Table, tw': Weights)
    requires forall k :: 0 <= k < |list| ==> WeightAt(list[k], t, tw) == WeightAt(list[k], t', tw')
    ensures Sum(list, t, tw) == Sum(list, t', tw')
  {
    if list != [] { SumSame(list[1..], t, tw, t', tw'); }
  }

  lemma {:induction false} SumAppend(a: seq<Id>, b: seq<Id>, t: Table, tw: Weights)
    ensures Sum(a + b, t, tw) == Sum(a, t, tw) + Sum(b, t, tw)
  {
    if a == [] {
      assert a + b == b;
    } else {
      assert (a + b)[1..] == a[1..] + b;
      SumAppend(a[1..], b, t, tw);
    }
  }

  /** One entry's weight changes, the others stay. */
  lemma SumOneChanged(list: seq<Id>, k: nat, t: Table, tw: Weights, t': Table, tw': Weights)
    requires k < |list|
    requires forall i :: 0 <= i < |list| && i != k ==> WeightAt(list[i], t, tw) == WeightAt(list[i], t', tw')
    ensures Sum(list, t', tw') == Sum(list, t, tw) - WeightAt(list[k], t, tw) + WeightAt(list[k], t', tw')
  {
    var a, b, c := list[..k], [list[k]], list[k + 1..];
    assert list == a + b + c;
    SumAppend(a + b, c, t, tw); SumAppend(a, b, t, tw);
    SumAppend(a + b, c, t', tw'); SumAppend(a, b, t', tw');
    SumSame(a, t, tw, t', tw');
    SumSame(c, t, tw, t', tw');
  }

  lemma SumOneRemoved(list: seq<Id>, k: nat, t: Table, tw: Weights)
    requires k < |list|
    ensures Sum(list[..k] + list[k + 1..], t, tw) == Sum(list, t, tw) - WeightAt(list[k], t, tw)
  {
    var a, b, c := list[..k], [list[k]], list[k + 1..];
    assert list == a + b + c;
    SumAppend(a + b, c, t, tw); SumAppend(a, b, t, tw);
    SumAppend(a, c, t, tw);
  }

  lemma SumOneReplaced(list: seq<Id>, k: nat, x: Id, t: Table, tw: Weights)
    requires k < |list|
    ensures Sum(list[k := x], t, tw) == Sum(list, t, tw) - WeightAt(list[k], t, tw) + WeightAt(x, t, tw)
  {
    SumOneRemoved(list, k, t, tw);
    SumOneRemoved(list[k := x], k, t, tw);
    assert list[k := x][..k] + list[k := x][k + 1..] == list[..k] + list[k + 1..];
  }

  /** When the contents of an entry gain `d`, its container is off by exactly `d`. */
  lemma {:induction false} SumEntryGains(list: seq<Id>, k: nat, t: Table, tw: Weights, d: int)
    requires k < |list| && list[k] in t && list[k] in tw
    requires forall i :: 0 <= i < |list| && i != k ==> list[i] != list[k]
    ensures Wrap(Wrap(Sum(list, t, tw)) + d) == Wrap(Sum(list, t, tw[list[k] := Wrap(tw[list[k]] + d)]))
  {
    var own, inner := OwnWeight(t[list[k]]), tw[list[k]];
    SumOneChanged(list, k, t, tw, t, tw[list[k] := Wrap(inner + d)]);
    WrapGain(Sum(list, t, tw), own, inner, d);
  }

  /** The cached weight of a container is the wrapped sum over its own list. */
  ghost predicate WeightOk(x: Id, t: Table, tw: Weights)
    requires x in t && x in tw
  {
    tw[x] == Wrap(Sum(t[x].itemlist, t, tw))
  }

  ghost predicate WeightsOkBut(except: set<Id>, t: Table, tw: Weights) {
    && tw.Keys == t.Keys
    && forall x {:trigger WeightOk(x, t, tw)} :: x in t && x !in except ==> WeightOk(x, t, tw)
  }

  /** Stacks hold 1 to 100 units; a container or a fluid is never a stack. */
  ghost predicate StackOk(e: Entry) {
    e.kind.stackable ==> 1 <= e.count <= 100 && !e.isContainer && !e.kind.fluid
  }

  ghost predicate Valid(t: Table, tw: Weights, h: Heights) {
    IsForest(t, h) && WeightsOkBut({}, t, tw) && forall x :: x in t ==> StackOk(t[x])
  }
}
