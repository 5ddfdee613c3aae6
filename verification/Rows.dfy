/** A player's items as database rows (`IOLoginData::saveItems`): every item gets the
    next running id, level by level, and names its container's id as its parent. */
module Rows {
  import opened Bytes

  /** What one row stores of an item. */
  datatype Data = Data(itemType: nat, count: nat, attributes: seq<byte>)

  datatype Node = Node(data: Data, contents: seq<Node>)

  datatype Row = Row(pid: nat, sid: nat, data: Data)

  /** What the item table and the item classes make of stored data. */
  datatype Catalog = Catalog(known: Data -> bool, isContainer: Data -> bool, weigh: Data -> nat)

  const FIRST_ID: nat := 101

  ghost predicate Proper(cat: Catalog, x: Node)
    decreases x, 0
  {
    cat.known(x.data) && (x.contents != [] ==> cat.isContainer(x.data)) && ProperAll(cat, x.contents)
  }

  ghost predicate ProperAll(cat: Catalog, xs: seq<Node>)
    decreases xs, 1
  {
    forall i :: 0 <= i < |xs| ==> Proper(cat, xs[i])
  }

  // ---- the layout of the rows -----------------------------------------------------------

  /** How many children the first `i` nodes have. */
  function Kids(nodes: seq<Node>, i: nat): nat
    requires i <= |nodes|
  {
    if i == 0 then 0 else Kids(nodes, i - 1) + |nodes[i - 1].contents|
  }

  lemma {:induction false} KidsPrefix(nodes: seq<Node>, more: seq<Node>, i: nat)
    requires i <= |nodes|
    ensures Kids(nodes + more, i) == Kids(nodes, i)
  {
    if i > 0 {
      KidsPrefix(nodes, more, i - 1);
    }
  }

  lemma {:induction false} KidsMonotone(nodes: seq<Node>, i: nat, j: nat)
    requires i <= j <= |nodes|
    ensures Kids(nodes, i) <= Kids(nodes, j)
    decreases j - i
  {
    if i < j {
      KidsMonotone(nodes, i, j - 1);
    }
  }

  /** Where the children of row `i` start: after the roots and all earlier children. */
  function First(r: nat, nodes: seq<Node>, i: nat): nat
    requires i <= |nodes|
  {
    r + Kids(nodes, i)
  }

  /** Child `j` of row `i` sits in its place and names row `i` as its parent. */
  predicate Placed(r: nat, nodes: seq<Node>, rows: seq<Row>, i: nat, j: nat)
    requires i < |nodes| && j < |nodes[i].contents|
  {
    var k := First(r, nodes, i) + j;
    k < |nodes| && k < |rows| && nodes[k] == nodes[i].contents[j] && rows[k].pid == FIRST_ID + i
  }

  predicate Matches(nodes: seq<Node>, rows: seq<Row>, k: nat)
    requires k < |nodes| && k < |rows|
  {
    rows[k].sid == FIRST_ID + k && rows[k].data == nodes[k].data
  }

  ghost predicate Expanded(r: nat, nodes: seq<Node>, rows: seq<Row>, i: nat, n: nat)
    requires i < |nodes| && n <= |nodes[i].contents|
  {
    forall j {:trigger Placed(r, nodes, rows, i, j)} :: 0 <= j < n ==> Placed(r, nodes, rows, i, j)
  }

  predicate Rooted(roots: seq<(nat, Node)>, nodes: seq<Node>, rows: seq<Row>, k: nat)
    requires k < |roots| && k < |nodes| && k < |rows|
  {
    rows[k].pid == roots[k].0 && nodes[k] == roots[k].1
  }

  /** The first `e` rows have all their children in place. */
  ghost predicate UpTo(roots: seq<(nat, Node)>, nodes: seq<Node>, rows: seq<Row>, e: nat) {
    && |rows| == |nodes| && |roots| <= |rows| && e <= |nodes|
    && (forall k {:trigger Matches(nodes, rows, k)} :: 0 <= k < |rows| ==> Matches(nodes, rows, k))
    && (forall k {:trigger Rooted(roots, nodes, rows, k)} :: 0 <= k < |roots| ==> Rooted(roots, nodes, rows, k))
    && (forall i {:trigger Expanded(|roots|, nodes, rows, i, |nodes[i].contents|)} :: 0 <= i < e ==>
          Expanded(|roots|, nodes, rows, i, |nodes[i].contents|))
    && (forall i {:trigger First(|roots|, nodes, i)} :: 0 <= i < e ==> i < First(|roots|, nodes, i))
  }

  /** The rows are exactly the level-order listing of the forest. */
  ghost predicate Layout(roots: seq<(nat, Node)>, nodes: seq<Node>, rows: seq<Row>) {
    UpTo(roots, nodes, rows, |nodes|) && |rows| == First(|roots|, nodes, |nodes|)
  }

  // ---- one more row --------------------------------------------------------------------------

  lemma PlacedKept(r: nat, nodes: seq<Node>, rows: seq<Row>, x: Node, row: Row, i: nat, j: nat)
    requires |rows| == |nodes| && i < |nodes| && j < |nodes[i].contents| && Placed(r, nodes, rows, i, j)
    ensures Placed(r, nodes + [x], rows + [row], i, j)
  {
    KidsPrefix(nodes, [x], i);
  }

  lemma UpToKept(roots: seq<(nat, Node)>, nodes: seq<Node>, rows: seq<Row>, e: nat, x: Node, row: Row)
    requires UpTo(roots, nodes, rows, e) && row.sid == FIRST_ID + |rows| && row.data == x.data
    ensures UpTo(roots, nodes + [x], rows + [row], e)
  {
    var r, nodes', rows' := |roots|, nodes + [x], rows + [row];
    forall k | 0 <= k < |rows'| ensures Matches(nodes', rows', k) {
      if k < |rows| { assert Matches(nodes, rows, k); }
    }
    forall k | 0 <= k < |roots| ensures Rooted(roots, nodes', rows', k) {
      assert Rooted(roots, nodes, rows, k);
    }
    forall i | 0 <= i < e
      ensures Expanded(r, nodes', rows', i, |nodes'[i].contents|) && i < First(r, nodes', i)
    {
      assert Expanded(r, nodes, rows, i, |nodes[i].contents|);
      ExpandedKept(r, nodes, rows, x, row, i, |nodes[i].contents|);
      KidsPrefix(nodes, [x], i);
      assert i < First(r, nodes, i);
    }
  }

  lemma ExpandedKept(r: nat, nodes: seq<Node>, rows: seq<Row>, x: Node, row: Row, i: nat, n: nat)
    requires |rows| == |nodes| && i < |nodes| && n <= |nodes[i].contents| && Expanded(r, nodes, rows, i, n)
    ensures Expanded(r, nodes + [x], rows + [row], i, n)
  {
    forall j | 0 <= j < n ensures Placed(r, nodes + [x], rows + [row], i, j) {
      assert Placed(r, nodes, rows, i, j);
      PlacedKept(r, nodes, rows, x, row, i, j);
    }
  }

  /** The containers among the rows from `e` on, each with its id: the work queue. */
  function Pending(cat: Catalog, nodes: seq<Node>, e: nat): seq<(Node, nat)>
    requires e <= |nodes|
    decreases |nodes| - e
  {
    if e == |nodes| then []
    else (if cat.isContainer(nodes[e].data) then [(nodes[e], FIRST_ID + e)] else []) + Pending(cat, nodes, e + 1)
  }

  lemma {:induction false} PendingAppend(cat: Catalog, nodes: seq<Node>, x: Node, e: nat)
    requires e <= |nodes|
    ensures Pending(cat, nodes + [x], e) ==
      Pending(cat, nodes, e) + (if cat.isContainer(x.data) then [(x, FIRST_ID + |nodes|)] else [])
    decreases |nodes| - e
  {
    if e < |nodes| {
      PendingAppend(cat, nodes, x, e + 1);
    } else {
      assert Pending(cat, nodes + [x], e + 1) == [];
    }
  }

  // ---- the work queue ---------------------------------------------------------------------

  ghost predicate LeavesAreEmpty(cat: Catalog, nodes: seq<Node>) {
    forall k :: 0 <= k < |nodes| ==> Proper(cat, nodes[k])
  }

  /** Between two turns of the loop, rows `e..` are still to be expanded. */
  ghost predicate Waiting(cat: Catalog, roots: seq<(nat, Node)>, nodes: seq<Node>, rows: seq<Row>,
                          queue: seq<(Node, nat)>, e: nat) {
    && UpTo(roots, nodes, rows, e) && LeavesAreEmpty(cat, nodes)
    && |rows| == First(|roots|, nodes, e) && queue == Pending(cat, nodes, e)
  }

  lemma SkipLeaf(cat: Catalog, roots: seq<(nat, Node)>, nodes: seq<Node>, rows: seq<Row>,
                 queue: seq<(Node, nat)>, e: nat)
    requires Waiting(cat, roots, nodes, rows, queue, e) && e < |nodes| && !cat.isContainer(nodes[e].data)
    ensures Waiting(cat, roots, nodes, rows, queue, e + 1)
  {
    assert Proper(cat, nodes[e]);
    assert Expanded(|roots|, nodes, rows, e, 0);
  }

  lemma {:induction false} NextContainer(cat: Catalog, roots: seq<(nat, Node)>, nodes: seq<Node>,
                                         rows: seq<Row>, queue: seq<(Node, nat)>, e: nat)
    returns (i: nat)
    requires Waiting(cat, roots, nodes, rows, queue, e) && queue != []
    ensures Waiting(cat, roots, nodes, rows, queue, i) && i < |nodes|
    ensures queue[0] == (nodes[i], FIRST_ID + i) && queue[1..] == Pending(cat, nodes, i + 1)
    decreases |nodes| - e
  {
    if cat.isContainer(nodes[e].data) {
      i := e;
    } else {
      SkipLeaf(cat, roots, nodes, rows, queue, e);
      i := NextContainer(cat, roots, nodes, rows, queue, e + 1);
    }
  }

  lemma {:induction false} NothingWaits(cat: Catalog, roots: seq<(nat, Node)>, nodes: seq<Node>, rows: seq<Row>, e: nat)
    requires Waiting(cat, roots, nodes, rows, [], e)
    ensures Layout(roots, nodes, rows)
    decreases |nodes| - e
  {
    if e < |nodes| {
      SkipLeaf(cat, roots, nodes, rows, [], e);
      NothingWaits(cat, roots, nodes, rows, e + 1);
    }
  }

  /** Inside the loop: `j` children of row `e` are in place. */
  ghost predicate Expanding(cat: Catalog, roots: seq<(nat, Node)>, nodes: seq<Node>, rows: seq<Row>,
                            queue: seq<(Node, nat)>, e: nat, j: nat) {
    && UpTo(roots, nodes, rows, e) && LeavesAreEmpty(cat, nodes) && e < First(|roots|, nodes, e)
    && e < |nodes| && j <= |nodes[e].contents| && Expanded(|roots|, nodes, rows, e, j)
    && |rows| == First(|roots|, nodes, e) + j && queue == Pending(cat, nodes, e + 1)
  }

  lemma ExpandOne(cat: Catalog, roots: seq<(nat, Node)>, nodes: seq<Node>, rows: seq<Row>,
                  queue: seq<(Node, nat)>, e: nat, j: nat, x: Node, row: Row, queue': seq<(Node, nat)>)
    requires Expanding(cat, roots, nodes, rows, queue, e, j) && j < |nodes[e].contents| && x == nodes[e].contents[j]
    requires row == Row(FIRST_ID + e, FIRST_ID + |rows|, x.data)
    requires queue' == queue + (if cat.isContainer(x.data) then [(x, FIRST_ID + |rows|)] else [])
    ensures Expanding(cat, roots, nodes + [x], rows + [row], queue', e, j + 1)
  {
    assert Proper(cat, nodes[e]);
    assert ProperAll(cat, nodes[e].contents);
    UpToKept(roots, nodes, rows, e, x, row);
    ExpandedKept(|roots|, nodes, rows, x, row, e, j);
    KidsPrefix(nodes, [x], e);
    assert Placed(|roots|, nodes + [x], rows + [row], e, j);
    PendingAppend(cat, nodes, x, e + 1);
  }

  lemma ExpandDone(cat: Catalog, roots: seq<(nat, Node)>, nodes: seq<Node>, rows: seq<Row>,
                   queue: seq<(Node, nat)>, e: nat)
    requires e < |nodes| && Expanding(cat, roots, nodes, rows, queue, e, |nodes[e].contents|)
    ensures Waiting(cat, roots, nodes, rows, queue, e + 1)
  {
  }

  // ---- saving ----------------------------------------------------------------------------------

  /** The number of items in a tree: what is left to do shrinks by it. */
  function Size(x: Node): nat
    decreases x, 0
  {
    1 + SizeAll(x.contents)
  }

  function SizeAll(xs: seq<Node>): nat
    decreases xs, 1
  {
    if xs == [] then 0 else SizeAll(xs[..|xs| - 1]) + Size(xs[|xs| - 1])
  }

  function QueueSize(queue: seq<(Node, nat)>): nat {
    if queue == [] then 0 else QueueSize(queue[..|queue| - 1]) + Size(queue[|queue| - 1].0)
  }

  lemma {:induction false} QueueSizePop(queue: seq<(Node, nat)>)
    requires queue != []
    ensures QueueSize(queue) == Size(queue[0].0) + QueueSize(queue[1..])
  {
    if |queue| == 1 {
      assert queue[..0] == [];
    } else {
      QueueSizePop(queue[..|queue| - 1]);
      assert queue[1..][..|queue| - 2] == queue[..|queue| - 1][1..];
    }
  }

  lemma QueueSizePush(queue: seq<(Node, nat)>, x: (Node, nat))
    ensures QueueSize(queue + [x]) == QueueSize(queue) + Size(x.0)
  {
    assert (queue + [x])[..|queue|] == queue;
  }

  /** One `addRow`, and the queue when the item is a container. */
  method AddRow(cat: Catalog, pid: nat, x: Node, rows: seq<Row>, queue: seq<(Node, nat)>, runningId: nat)
    returns (rows': seq<Row>, queue': seq<(Node, nat)>)
    ensures rows' == rows + [Row(pid, runningId, x.data)]
    ensures queue' == queue + (if cat.isContainer(x.data) then [(x, runningId)] else [])
    ensures QueueSize(queue') <= QueueSize(queue) + Size(x)
  {
    rows', queue' := rows + [Row(pid, runningId, x.data)], queue;
    if cat.isContainer(x.data) {
      queue' := queue + [(x, runningId)];
      QueueSizePush(queue, (x, runningId));
    }
  }

  /** The rows are the level-order listing of the forest. */
  ghost predicate Listing(cat: Catalog, roots: seq<(nat, Node)>, rows: seq<Row>) {
    exists nodes {:trigger Layout(roots, nodes, rows)} :: Layout(roots, nodes, rows) && LeavesAreEmpty(cat, nodes)
  }

  /** `IOLoginData::saveItems`. */
  method SaveItems(cat: Catalog, roots: seq<(nat, Node)>) returns (rows: seq<Row>)
    requires forall k :: 0 <= k < |roots| ==> Proper(cat, roots[k].1)
    ensures Listing(cat, roots, rows)
  {
    var queue, runningId;
    ghost var nodes;
    rows, queue, runningId, nodes := SaveRoots(cat, roots);
    ghost var e := 0;
    while queue != []
      invariant Waiting(cat, roots, nodes, rows, queue, e) && runningId == 100 + |rows|
      decreases QueueSize(queue)
    {
      e := NextContainer(cat, roots, nodes, rows, queue, e);
      var cb := queue[0];
      QueueSizePop(queue);
      rows, queue, runningId, nodes := SaveContents(cat, roots, cb.0, cb.1, rows, queue[1..], runningId, nodes, e);
      e := e + 1;
    }
    NothingWaits(cat, roots, nodes, rows, e);
  }

  method SaveRoots(cat: Catalog, roots: seq<(nat, Node)>)
    returns (rows: seq<Row>, queue: seq<(Node, nat)>, runningId: nat, ghost nodes: seq<Node>)
    requires forall k :: 0 <= k < |roots| ==> Proper(cat, roots[k].1)
    ensures Waiting(cat, roots, nodes, rows, queue, 0) && runningId == 100 + |rows|
  {
    rows, queue, runningId, nodes := [], [], 100, [];
    var i := 0;
    while i < |roots|
      invariant 0 <= i <= |roots| && |rows| == |nodes| == i && runningId == 100 + i
      invariant forall k {:trigger Matches(nodes, rows, k)} :: 0 <= k < i ==> Matches(nodes, rows, k)
      invariant forall k {:trigger Rooted(roots, nodes, rows, k)} :: 0 <= k < i ==> Rooted(roots, nodes, rows, k)
      invariant queue == Pending(cat, nodes, 0) && LeavesAreEmpty(cat, nodes)
    {
      var x := roots[i].1;
      runningId := runningId + 1;
      PendingAppend(cat, nodes, x, 0);
      RootsKept(roots, nodes, rows, i, Row(roots[i].0, runningId, x.data));
      rows, queue := AddRow(cat, roots[i].0, x, rows, queue, runningId);
      nodes := nodes + [x];
      i := i + 1;
    }
  }

  lemma RootsKept(roots: seq<(nat, Node)>, nodes: seq<Node>, rows: seq<Row>, i: nat, row: Row)
    requires |rows| == |nodes| == i < |roots|
    requires row == Row(roots[i].0, FIRST_ID + i, roots[i].1.data)
    requires forall k {:trigger Matches(nodes, rows, k)} :: 0 <= k < i ==> Matches(nodes, rows, k)
    requires forall k {:trigger Rooted(roots, nodes, rows, k)} :: 0 <= k < i ==> Rooted(roots, nodes, rows, k)
    ensures forall k {:trigger Matches(nodes + [roots[i].1], rows + [row], k)} :: 0 <= k <= i ==>
      Matches(nodes + [roots[i].1], rows + [row], k)
    ensures forall k {:trigger Rooted(roots, nodes + [roots[i].1], rows + [row], k)} :: 0 <= k <= i ==>
      Rooted(roots, nodes + [roots[i].1], rows + [row], k)
  {
    forall k | 0 <= k <= i
      ensures Matches(nodes + [roots[i].1], rows + [row], k) && Rooted(roots, nodes + [roots[i].1], rows + [row], k)
    {
      if k < i { assert Matches(nodes, rows, k) && Rooted(roots, nodes, rows, k); }
    }
  }

  /** The row of the next child, which waits in the queue if it is a container. */
  method SaveNext(cat: Catalog, ghost roots: seq<(nat, Node)>, parentId: nat, x: Node, rows0: seq<Row>,
                  queue0: seq<(Node, nat)>, runningId: nat, ghost nodes: seq<Node>, ghost e: nat, ghost j: nat)
    returns (rows: seq<Row>, queue: seq<(Node, nat)>)
    requires Expanding(cat, roots, nodes, rows0, queue0, e, j) && j < |nodes[e].contents| && x == nodes[e].contents[j]
    requires parentId == FIRST_ID + e && runningId == FIRST_ID + |rows0|
    ensures Expanding(cat, roots, nodes + [x], rows, queue, e, j + 1) && |rows| == |rows0| + 1
    ensures QueueSize(queue) <= QueueSize(queue0) + Size(x)
  {
    rows, queue := AddRow(cat, parentId, x, rows0, queue0, runningId);
    ExpandOne(cat, roots, nodes, rows0, queue0, e, j, x, Row(parentId, runningId, x.data), queue);
  }

  method SaveContents(cat: Catalog, roots: seq<(nat, Node)>, container: Node, parentId: nat,
                      rows0: seq<Row>, queue0: seq<(Node, nat)>, runningId0: nat, ghost nodes0: seq<Node>, ghost e: nat)
    returns (rows: seq<Row>, queue: seq<(Node, nat)>, runningId: nat, ghost nodes: seq<Node>)
    requires e < |nodes0| && container == nodes0[e] && parentId == FIRST_ID + e && runningId0 == 100 + |rows0|
    requires Expanding(cat, roots, nodes0, rows0, queue0, e, 0)
    ensures Waiting(cat, roots, nodes, rows, queue, e + 1) && runningId == 100 + |rows|
    ensures QueueSize(queue) < QueueSize(queue0) + Size(container)
  {
    rows, queue, runningId, nodes := rows0, queue0, runningId0, nodes0;
    var j := 0;
    while j < |container.contents|
      invariant 0 <= j <= |container.contents| && e < |nodes| && nodes[e] == container && runningId == 100 + |rows|
      invariant Expanding(cat, roots, nodes, rows, queue, e, j)
      invariant QueueSize(queue) <= QueueSize(queue0) + SizeAll(container.contents[..j])
    {
      var x := container.contents[j];
      runningId := runningId + 1;
      assert container.contents[..j + 1][..j] == container.contents[..j];
      rows, queue := SaveNext(cat, roots, parentId, x, rows, queue, runningId, nodes, e, j);
      nodes := nodes + [x];
      j := j + 1;
    }
    assert container.contents[..j] == container.contents;
    ExpandDone(cat, roots, nodes, rows, queue, e);
  }
}
