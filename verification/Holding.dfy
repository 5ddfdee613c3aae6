/** What is inside a container, at any depth: the container iterator and the
    questions answered with it. */
module Holding {
  import opened Items
  import opened Forest
  import opened Containers
  import opened Sequences

  /** Everything inside `c`, at any depth. */
  ghost function Under(c: Id, t: Table, h: Heights): set<Id>
    requires IsForest(t, h)
  {
    set y | y in t && y != c && c in Around(y, t, h)
  }

  /** Everything directly inside one of `queue`. */
  ghost function Listed(queue: seq<Id>, t: Table): set<Id> {
    set y | y in t && t[y].parent.Some? && t[y].parent.value in queue
  }

  /** A worklist started at `c` only ever holds containers in or at `c`, each once. */
  ghost predicate Reached(queue: seq<Id>, c: Id, t: Table, h: Heights)
    requires IsForest(t, h)
  {
    && (forall k :: 0 <= k < |queue| ==> queue[k] in t && (queue[k] == c || queue[k] in Under(c, t, h)))
    && (forall j, k :: 0 <= j < k < |queue| ==> queue[j] != queue[k])
  }

  /** Nothing is left to expand. */
  ghost predicate Expanded(queue: seq<Id>, c: Id, t: Table)
    requires c in t
  {
    && (t[c].itemlist == [] || c in queue)
    && forall y :: y in Listed(queue, t) && t[y].itemlist != [] ==> y in queue
  }

  lemma {:induction false} UnderIsListed(y: Id, queue: seq<Id>, c: Id, t: Table, h: Heights)
    requires IsForest(t, h) && c in t && y in Under(c, t, h) && Expanded(queue, c, t)
    ensures y in Listed(queue, t)
    decreases Around(y, t, h)
  {
    assert Linked(y, t, h);
    var p := t[y].parent.value;
    assert y !in Around(p, t, h);
    assert Linked(p, t, h);
    assert t[p].itemlist != [];
    if p != c { UnderIsListed(p, queue, c, t, h); }
  }

  lemma ListedIsUnder(y: Id, queue: seq<Id>, c: Id, t: Table, h: Heights)
    requires IsForest(t, h) && c in t && y in Listed(queue, t) && Reached(queue, c, t, h)
    ensures y in Under(c, t, h)
  {
    assert Linked(y, t, h);
    var p := t[y].parent.value;
    assert p in Around(y, t, h) && Around(y, t, h) == {y} + Around(p, t, h);
  }

  /** A finished worklist has listed everything inside `c`, and nothing else. */
  lemma WorklistComplete(queue: seq<Id>, c: Id, t: Table, h: Heights)
    requires IsForest(t, h) && c in t && Reached(queue, c, t, h) && Expanded(queue, c, t)
    ensures Listed(queue, t) == Under(c, t, h)
  {
    forall y | y in Under(c, t, h)
      ensures y in Listed(queue, t)
    {
      UnderIsListed(y, queue, c, t, h);
    }
    forall y | y in Listed(queue, t)
      ensures y in Under(c, t, h)
    {
      ListedIsUnder(y, queue, c, t, h);
    }
  }

  // ---- breadth-first walks -------------------------------------------------------

  /** The lists of the containers in `queue`, one after the other. */
  ghost function Flat(queue: seq<Id>, t: Table): seq<Id> {
    if queue == [] then []
    else Flat(queue[..|queue| - 1], t) + (if queue[|queue| - 1] in t then t[queue[|queue| - 1]].itemlist else [])
  }

  /** Whether a walk queues `x`: containers, and if `all` is false only those that
      hold something. */
  predicate Queued(x: Id, all: bool, t: Table) {
    x in t && t[x].isContainer && (all || t[x].itemlist != [])
  }

  ghost function Queue(visited: seq<Id>, all: bool, t: Table): seq<Id> {
    if visited == [] then []
    else Queue(visited[..|visited| - 1], all, t) +
         (if Queued(visited[|visited| - 1], all, t) then [visited[|visited| - 1]] else [])
  }

  /** A walk in level order, under way: the containers in `done` have been visited
      whole, the first one in `over` up to `cur`. */
  ghost predicate Walk(c: Id, visited: seq<Id>, done: seq<Id>, over: seq<Id>, cur: nat, all: bool, t: Table) {
    && (over == [] ==> cur == 0)
    && (over != [] ==> over[0] in t && cur <= |t[over[0]].itemlist|)
    && visited == Flat(done, t) + (if over == [] then [] else t[over[0]].itemlist[..cur])
    && done + over == (if Queued(c, all, t) then [c] else []) + Queue(visited, all, t)
  }

  /** Visiting the next item. */
  lemma WalkStep(c: Id, visited: seq<Id>, done: seq<Id>, over: seq<Id>, cur: nat, all: bool, t: Table)
    requires Walk(c, visited, done, over, cur, all, t) && over != [] && cur < |t[over[0]].itemlist|
    ensures var x := t[over[0]].itemlist[cur];
      Walk(c, visited + [x], done, over + (if Queued(x, all, t) then [x] else []), cur + 1, all, t)
  {
    var x := t[over[0]].itemlist[cur];
    assert (visited + [x])[..|visited|] == visited;
    assert t[over[0]].itemlist[..cur + 1] == t[over[0]].itemlist[..cur] + [x];
    var more := if Queued(x, all, t) then [x] else [];
    var start := if Queued(c, all, t) then [c] else [];
    assert done + (over + more) == (done + over) + more;
    assert start + (Queue(visited, all, t) + more) == start + Queue(visited, all, t) + more;
  }

  /** Moving on to the next container. */
  lemma WalkNext(c: Id, visited: seq<Id>, done: seq<Id>, over: seq<Id>, cur: nat, all: bool, t: Table)
    requires Walk(c, visited, done, over, cur, all, t) && over != [] && cur == |t[over[0]].itemlist|
    requires over[1..] != [] ==> over[1] in t
    ensures Walk(c, visited, done + [over[0]], over[1..], 0, all, t)
  {
    assert (done + [over[0]])[..|done|] == done;
    assert t[over[0]].itemlist[..cur] == t[over[0]].itemlist;
  }

  lemma {:induction false} QueueElements(visited: seq<Id>, all: bool, t: Table)
    ensures forall x :: x in Queue(visited, all, t) <==> x in visited && Queued(x, all, t)
    ensures Distinct(visited) ==> Distinct(Queue(visited, all, t))
  {
    if visited != [] {
      var front := visited[..|visited| - 1];
      QueueElements(front, all, t);
      assert visited == front + [visited[|visited| - 1]];
    }
  }

  lemma {:induction false} FlatElements(queue: seq<Id>, t: Table, h: Heights)
    requires IsForest(t, h) && forall k :: 0 <= k < |queue| ==> queue[k] in t
    ensures forall y :: y in Flat(queue, t) <==> y in Listed(queue, t)
  {
    if queue != [] {
      var front, q := queue[..|queue| - 1], queue[|queue| - 1];
      FlatElements(front, t, h);
      assert queue == front + [q];
      assert Linked(q, t, h);
      forall y | y in Listed(queue, t)
        ensures y in Flat(queue, t)
      {
        assert Linked(y, t, h);
      }
    }
  }

  // ---- level order ---------------------------------------------------------------

  /** How many containers are around `x`, itself counted. */
  ghost function Depth(x: Id, t: Table, h: Heights): nat
    requires IsForest(t, h)
  {
    if x in t then |Around(x, t, h)| else 0
  }

  ghost predicate NoneDeeper(list: seq<Id>, k: nat, t: Table, h: Heights)
    requires IsForest(t, h) && k < |list|
  {
    forall j :: 0 <= j < k ==> Depth(list[j], t, h) <= Depth(list[k], t, h)
  }

  /** Nothing comes before what is less deep. */
  ghost predicate Levelled(list: seq<Id>, t: Table, h: Heights)
    requires IsForest(t, h)
  {
    forall k {:trigger NoneDeeper(list, k, t, h)} :: 0 <= k < |list| ==> NoneDeeper(list, k, t, h)
  }

  lemma ChildIsDeeper(x: Id, t: Table, h: Heights)
    requires IsForest(t, h) && x in t && t[x].parent.Some?
    ensures t[x].parent.value in t && Depth(x, t, h) == Depth(t[x].parent.value, t, h) + 1
  {
    assert Linked(x, t, h);
    assert Around(x, t, h) == Around(t[x].parent.value, t, h) + {x};
  }

  lemma {:induction false} UnderIsDeeper(x: Id, c: Id, t: Table, h: Heights)
    requires IsForest(t, h) && x in Under(c, t, h)
    ensures Depth(x, t, h) > Depth(c, t, h)
    decreases Around(x, t, h)
  {
    assert Linked(x, t, h);
    ChildIsDeeper(x, t, h);
    var p := t[x].parent.value;
    assert x !in Around(p, t, h);
    if p != c { UnderIsDeeper(p, c, t, h); }
  }

  lemma {:induction false} QueueLevelled(visited: seq<Id>, all: bool, t: Table, h: Heights)
    requires IsForest(t, h) && Levelled(visited, t, h)
    ensures Levelled(Queue(visited, all, t), t, h)
  {
    if visited != [] {
      var front, last := visited[..|visited| - 1], visited[|visited| - 1];
      assert Levelled(front, t, h) by {
        assert forall k :: 0 <= k < |front| ==> NoneDeeper(visited, k, t, h) ==> NoneDeeper(front, k, t, h);
      }
      QueueLevelled(front, all, t, h);
      QueueElements(front, all, t);
      var queue, before := Queue(visited, all, t), Queue(front, all, t);
      assert NoneDeeper(visited, |front|, t, h);
      forall k | 0 <= k < |queue|
        ensures NoneDeeper(queue, k, t, h)
      {
        if k < |before| {
          assert NoneDeeper(before, k, t, h);
        } else {
          assert forall j :: 0 <= j < |before| ==> before[j] in front;
        }
      }
    }
  }

  /** The containers of a walk come in level order as well. */
  lemma WalkLevelled(c: Id, visited: seq<Id>, done: seq<Id>, over: seq<Id>, cur: nat, all: bool, t: Table, h: Heights)
    requires IsForest(t, h) && GoodWalk(c, visited, done, over, cur, all, t, h)
    ensures Levelled(done + over, t, h)
  {
    QueueLevelled(visited, all, t, h);
    QueueElements(visited, all, t);
    var queue, inner := done + over, Queue(visited, all, t);
    var n := if Queued(c, all, t) then 1 else 0;
    forall k | 0 <= k < |queue|
      ensures NoneDeeper(queue, k, t, h)
    {
      if k >= n {
        assert queue[k] == inner[k - n];
        assert NoneDeeper(inner, k - n, t, h);
        UnderIsDeeper(inner[k - n], c, t, h);
      }
    }
  }

  /** The next item is no less deep than anything visited before. */
  lemma NextIsDeepest(c: Id, visited: seq<Id>, done: seq<Id>, over: seq<Id>, cur: nat, all: bool, t: Table, h: Heights,
                      y: Id)
    requires IsForest(t, h) && GoodWalk(c, visited, done, over, cur, all, t, h)
    requires over != [] && cur < |t[over[0]].itemlist| && y in visited
    ensures Depth(y, t, h) <= Depth(t[over[0]].itemlist[cur], t, h)
  {
    WalkLevelled(c, visited, done, over, cur, all, t, h);
    WalkReached(c, visited, done, over, cur, all, t, h);
    var f, queue := over[0], done + over;
    assert queue[|done|] == f;
    assert Linked(f, t, h);
    ChildIsDeeper(t[f].itemlist[cur], t, h);
    assert forall k :: 0 <= k < |done| ==> queue[k] == done[k];
    FlatElements(done, t, h);
    assert t[y].parent.Some? && t[y].parent.value in done + [f];
    assert NoneDeeper(queue, |done|, t, h);
    ChildIsDeeper(y, t, h);
  }

  /** What a walk keeps: it visits items inside `c` in level order, none of them twice. */
  ghost predicate GoodWalk(c: Id, visited: seq<Id>, done: seq<Id>, over: seq<Id>, cur: nat, all: bool, t: Table,
                           h: Heights)
    requires IsForest(t, h)
  {
    && c in t && Walk(c, visited, done, over, cur, all, t)
    && Distinct(visited) && Levelled(visited, t, h) && forall x :: x in visited ==> x in Under(c, t, h)
  }

  lemma WalkReached(c: Id, visited: seq<Id>, done: seq<Id>, over: seq<Id>, cur: nat, all: bool, t: Table, h: Heights)
    requires IsForest(t, h) && GoodWalk(c, visited, done, over, cur, all, t, h)
    ensures Reached(done + over, c, t, h)
  {
    QueueElements(visited, all, t);
    var start := if Queued(c, all, t) then [c] else [];
    var queue := start + Queue(visited, all, t);
    forall j, k | 0 <= j < k < |queue|
      ensures queue[j] != queue[k]
    {
      assert j == 0 && start != [] ==> queue[k] in Queue(visited, all, t);
    }
    forall k | 0 <= k < |queue|
      ensures queue[k] in t && (queue[k] == c || queue[k] in Under(c, t, h))
    {
      assert queue[k] == c || queue[k] in Queue(visited, all, t);
    }
  }

  /** The next item is inside `c` and has not been visited before. */
  lemma NextIsNew(c: Id, visited: seq<Id>, done: seq<Id>, over: seq<Id>, cur: nat, all: bool, t: Table, h: Heights)
    requires IsForest(t, h) && GoodWalk(c, visited, done, over, cur, all, t, h)
    requires over != [] && cur < |t[over[0]].itemlist|
    ensures var x := t[over[0]].itemlist[cur]; x in t && x in Under(c, t, h) && x !in visited
  {
    WalkReached(c, visited, done, over, cur, all, t, h);
    var f, queue := over[0], done + over;
    assert queue[|done|] == f;
    assert Linked(f, t, h);
    var x := t[f].itemlist[cur];
    assert x in Listed(queue, t);
    ListedIsUnder(x, queue, c, t, h);
    assert forall k :: 0 <= k < |done| ==> queue[k] == done[k];
    FlatElements(done, t, h);
    assert x !in Flat(done, t);
  }

  /** Visiting the next item of a good walk. */
  lemma GoodStep(c: Id, visited: seq<Id>, done: seq<Id>, over: seq<Id>, cur: nat, all: bool, t: Table, h: Heights)
    requires IsForest(t, h) && GoodWalk(c, visited, done, over, cur, all, t, h)
    requires over != [] && cur < |t[over[0]].itemlist|
    ensures var x := t[over[0]].itemlist[cur];
      && x in t && x in Under(c, t, h) && x !in visited
      && GoodWalk(c, visited + [x], done, over + (if Queued(x, all, t) then [x] else []), cur + 1, all, t, h)
      && |visited| < |Under(c, t, h)|
  {
    NextIsNew(c, visited, done, over, cur, all, t, h);
    forall y | y in visited
      ensures Depth(y, t, h) <= Depth(t[over[0]].itemlist[cur], t, h)
    {
      NextIsDeepest(c, visited, done, over, cur, all, t, h, y);
    }
    forall k | 0 <= k <= |visited|
      ensures NoneDeeper(visited + [t[over[0]].itemlist[cur]], k, t, h)
    {
      assert k < |visited| ==> NoneDeeper(visited, k, t, h);
    }
    WalkStep(c, visited, done, over, cur, all, t);
    DistinctBound(visited + [t[over[0]].itemlist[cur]], Under(c, t, h));
  }

  /** Moving a good walk on; the containers of a walk are bounded by what is there. */
  lemma GoodNext(c: Id, visited: seq<Id>, done: seq<Id>, over: seq<Id>, cur: nat, all: bool, t: Table, h: Heights)
    requires IsForest(t, h) && GoodWalk(c, visited, done, over, cur, all, t, h)
    requires over != [] && cur == |t[over[0]].itemlist|
    ensures GoodWalk(c, visited, done + [over[0]], over[1..], 0, all, t, h)
    ensures |done| < |Under(c, t, h) + {c}|
  {
    WalkReached(c, visited, done, over, cur, all, t, h);
    assert over[1..] != [] ==> (done + over)[|done| + 1] == over[1];
    WalkNext(c, visited, done, over, cur, all, t);
    DistinctBound(done + over, Under(c, t, h) + {c});
  }

  /** A walk that has run out of containers has visited everything inside `c`. */
  lemma WalkComplete(c: Id, visited: seq<Id>, done: seq<Id>, all: bool, t: Table, h: Heights)
    requires IsForest(t, h) && GoodWalk(c, visited, done, [], 0, all, t, h)
    ensures forall x :: x in visited <==> x in Under(c, t, h)
    ensures |visited| == |Under(c, t, h)|
  {
    WalkReached(c, visited, done, [], 0, all, t, h);
    assert done + [] == done;
    QueueElements(visited, all, t);
    FlatElements(done, t, h);
    forall y | y in t && t[y].itemlist != []
      ensures t[y].isContainer
    {
      assert Linked(y, t, h);
    }
    WorklistComplete(done, c, t, h);
    assert visited == Flat(done, t);
    DistinctSize(visited, Under(c, t, h));
  }

  lemma {:induction false} DistinctSize(s: seq<Id>, ids: set<Id>)
    requires Distinct(s) && forall x :: x in s <==> x in ids
    ensures |s| == |ids|
  {
    if s != [] {
      var front, last := s[..|s| - 1], s[|s| - 1];
      assert s == front + [last];
      DistinctSize(front, ids - {last});
    } else {
      assert ids == {};
    }
  }

  lemma DistinctBound(s: seq<Id>, ids: set<Id>)
    requires Distinct(s) && forall x :: x in s ==> x in ids
    ensures |s| <= |ids|
  {
    var got := set x | x in s;
    DistinctSize(s, got);
    SubsetSize(got, ids);
  }

  lemma {:induction false} SubsetSize(a: set<Id>, b: set<Id>)
    requires a <= b
    ensures |a| <= |b|
  {
    if a != {} {
      var x :| x in a;
      SubsetSize(a - {x}, b - {x});
    }
  }

  // ---- ContainerIterator -----------------------------------------------------------

  /** The iterator of container.h: the containers still to visit and a cursor into
      the first of them. */
  class ContainerIterator {
    const w: ItemWorld
    const c: Id
    var over: seq<Id>
    var cur: nat
    ghost var done: seq<Id>
    ghost var visited: seq<Id>

    ghost predicate Good()
      reads this, w
    {
      && IsForest(w.items, w.height)
      && GoodWalk(c, visited, done, over, cur, false, w.items, w.height)
      && (over != [] ==> cur < |w.items[over[0]].itemlist|)
    }

    /** `Container::iterator`. */
    constructor (w: ItemWorld, c: Id)
      requires IsForest(w.items, w.height) && c in w.items && w.items[c].isContainer
      ensures Good() && this.w == w && this.c == c && visited == []
    {
      this.w, this.c := w, c;
      this.over := if w.items[c].itemlist == [] then [] else [c];
      this.cur, this.done, this.visited := 0, [], [];
    }

    /** `ContainerIterator::advance`. */
    method Advance()
      requires Good() && over != []
      modifies this
      ensures Good()
      ensures visited == old(visited) + [old(w.items[over[0]].itemlist[cur])]
    {
      ghost var t := w.items;
      var front, item := over[0], w.items[over[0]].itemlist[cur];
      GoodStep(c, visited, done, over, cur, false, t, w.height);
      visited := visited + [item];
      if w.items[item].isContainer && w.items[item].itemlist != [] {
        over := over + [item];
      }
      cur := cur + 1;
      assert over == old(over) + (if Queued(item, false, t) then [item] else []);
      if cur == |w.items[front].itemlist| {
        FrontHolds(c, visited, done, over, cur, t, w.height);
        WalkNext(c, visited, done, over, cur, false, t);
        done := done + [front];
        over := over[1..];
        cur := 0;
      }
    }
  }

  /** Only containers that hold something are queued by the iterator. */
  lemma FrontHolds(c: Id, visited: seq<Id>, done: seq<Id>, over: seq<Id>, cur: nat, t: Table, h: Heights)
    requires IsForest(t, h) && GoodWalk(c, visited, done, over, cur, false, t, h) && over != []
    ensures over[1..] != [] ==> over[1] in t && t[over[1]].itemlist != []
  {
    if over[1..] != [] {
      QueueElements(visited, false, t);
      var queue := done + over;
      assert queue[|done| + 1] == over[1];
      assert queue == (if Queued(c, false, t) then [c] else []) + Queue(visited, false, t);
      assert over[1] == c || over[1] in Queue(visited, false, t) || Queued(c, false, t);
    }
  }

  /** `Container::getItemHoldingCount` counts everything inside, at any depth. */
  method GetItemHoldingCount(w: ItemWorld, c: Id) returns (counter: nat)
    requires IsForest(w.items, w.height) && c in w.items && w.items[c].isContainer
    ensures counter == |Under(c, w.items, w.height)|
  {
    counter := 0;
    var it := new ContainerIterator(w, c);
    while it.over != []
      invariant it.Good() && it.w == w && it.c == c && counter == |it.visited|
      decreases |Under(c, w.items, w.height)| - |it.visited|
    {
      GoodStep(c, it.visited, it.done, it.over, it.cur, false, w.items, w.height);
      it.Advance();
      counter := counter + 1;
    }
    WalkComplete(c, it.visited, it.done, false, w.items, w.height);
  }

  /** `Container::isHoldingItem` answers whether the item is inside, at any depth. */
  method IsHoldingItem(w: ItemWorld, c: Id, item: Id) returns (b: bool)
    requires IsForest(w.items, w.height) && c in w.items && w.items[c].isContainer
    ensures b <==> item in Under(c, w.items, w.height)
  {
    var it := new ContainerIterator(w, c);
    while it.over != []
      invariant it.Good() && it.w == w && it.c == c && item !in it.visited
      decreases |Under(c, w.items, w.height)| - |it.visited|
    {
      GoodStep(c, it.visited, it.done, it.over, it.cur, false, w.items, w.height);
      if w.items[it.over[0]].itemlist[it.cur] == item {
        return true;
      }
      it.Advance();
    }
    WalkComplete(c, it.visited, it.done, false, w.items, w.height);
    return false;
  }
}
