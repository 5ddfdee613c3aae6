/** The node-file loader: a three-block cache over a file, a parser that builds
    linked nodes, and property reading with in-place unescaping. */
module FileLoader {
  import opened Bits
  import opened Bytes
  import opened NodeFormat
  import opened Sequences

  const CACHE_BLOCKS: nat := 3
  const BLOCK_MASK: nat := 0x1FFF
  const NO_VALID_CACHE: int := -1

  /** The block size `openFile` picks for a file. */
  function CacheSize(fileSize: nat): nat {
    AndNot(Min(32768, if fileSize / 20 < 8192 then 8192 else fileSize / 20), BLOCK_MASK)
  }

  /** A multiple of 8192 between 8192 and 32768; 24576, no power of two, does occur. */
  lemma CacheSizes(fileSize: nat)
    ensures CacheSize(fileSize) in {8192, 16384, 24576, 32768}
    ensures 491520 <= fileSize < 655360 ==> CacheSize(fileSize) == 24576
  {
    var n := Min(32768, if fileSize / 20 < 8192 then 8192 else fileSize / 20);
    var q := RoundDown(n, BLOCK_MASK, 13);
    var c := CacheSize(fileSize);
    assert c == AndNot(n, BLOCK_MASK);
    MultipleInRange(n, q, c);
  }

  lemma MultipleInRange(n: nat, q: nat, c: nat)
    requires c == q * 8192 <= n < q * 8192 + 8192 && 8192 <= n <= 32768
    ensures c in {8192, 16384, 24576, 32768}
    ensures 24576 <= n < 32768 ==> c == 24576
  {
  }

  lemma RoundDown(n: nat, mask: nat, k: nat) returns (q: nat)
    requires mask == 0x1FFF && k == 13
    ensures AndNot(n, mask) == q * 8192 <= n < q * 8192 + 8192
  {
    assert Pow2(13) == 8192;
    q := LowBitsRoundDown(n, k);
  }

  /** One cache slot; `data` is what was read, `size` its length. */
  datatype Block = Block(data: seq<byte>, loaded: bool, base: nat)

  /** What reading `n` bytes at `base` yields. */
  function Slice(file: seq<byte>, base: nat, n: nat): seq<byte> {
    file[Min(base, |file|)..Min(base + n, |file|)]
  }

  /** Bytes left in its block from position `p` on. */
  function Available(file: seq<byte>, cacheSize: nat, p: nat): int
    requires cacheSize > 0
  {
    |Slice(file, AndNot(p, cacheSize - 1), cacheSize)| - (p - AndNot(p, cacheSize - 1))
  }

  /** Every block size works: the block a position maps to contains the position. So
      bytes are available exactly in front of the end of the file. */
  lemma BlockContains(file: seq<byte>, cacheSize: nat, p: nat)
    requires cacheSize > 0
    ensures AndNot(p, cacheSize - 1) <= p < AndNot(p, cacheSize - 1) + cacheSize
    ensures p <= |file| ==> (Available(file, cacheSize, p) > 0 <==> p < |file|)
    ensures p <= |file| ==> Available(file, cacheSize, p) >= 0
  {
    MaskSplits(p, cacheSize - 1);
  }

  lemma SliceIsFile(file: seq<byte>, base: nat, n: nat, offset: nat, len: nat, start: nat)
    requires offset + len <= |Slice(file, base, n)| && base <= |file| && start <= base + offset
    ensures base + offset + len <= |file|
    ensures file[start..base + offset + len] == file[start..base + offset] + Slice(file, base, n)[offset..offset + len]
  {
  }

  // ---- linked nodes ------------------------------------------------------------------

  datatype Link = Null | Node(at: nat)

  /** `NodeStruct`; nodes live in the loader's node list and point to each other by
      position in it. */
  datatype NodeStruct = NodeStruct(start: nat, propsSize: int, kind: byte, next: Link, child: Link)

  /** The nodes linked by `next` from `a` up to `b` record exactly `raws`, children
      included, using only nodes in `lo..hi`. */
  ghost predicate Seg(nodes: seq<NodeStruct>, a: Link, raws: seq<Raw>, b: Link, lo: nat, hi: nat)
    decreases raws
  {
    if raws == [] then a == b
    else
      && a.Node? && lo <= a.at < hi <= |nodes|
      && Records(nodes[a.at], raws[0])
      && Seg(nodes, nodes[a.at].child, raws[0].children, Null, lo, hi)
      && Seg(nodes, nodes[a.at].next, raws[1..], b, lo, hi)
  }

  predicate Records(n: NodeStruct, raw: Raw) {
    n.start == raw.start && n.propsSize == raw.propsSize && n.kind == raw.kind
  }

  /** Every linked node has its properties in the file, whole. */
  ghost predicate Readable(f: seq<byte>, nodes: seq<NodeStruct>, a: Link, raws: seq<Raw>)
    decreases raws
  {
    raws == [] ||
    (a.Node? && a.at < |nodes| && PropsIn(f, nodes[a.at].start + 2, nodes[a.at].propsSize)
     && Readable(f, nodes, nodes[a.at].child, raws[0].children) && Readable(f, nodes, nodes[a.at].next, raws[1..]))
  }

  lemma {:induction false} SegReadable(f: seq<byte>, nodes: seq<NodeStruct>, a: Link, raws: seq<Raw>, b: Link,
                                       lo: nat, hi: nat)
    requires Seg(nodes, a, raws, b, lo, hi) && InFile(f, raws)
    ensures Readable(f, nodes, a, raws)
    decreases raws
  {
    if raws != [] {
      SegReadable(f, nodes, nodes[a.at].child, raws[0].children, Null, lo, hi);
      SegReadable(f, nodes, nodes[a.at].next, raws[1..], b, lo, hi);
    }
  }

  lemma {:induction false} SegFrame(nodes: seq<NodeStruct>, nodes': seq<NodeStruct>, a: Link, raws: seq<Raw>,
                                    b: Link, lo: nat, hi: nat, lo': nat, hi': nat)
    requires Seg(nodes, a, raws, b, lo, hi) && lo' <= lo && hi <= hi' <= |nodes'|
    requires forall k :: lo <= k < hi && k < |nodes| ==> nodes'[k] == nodes[k]
    ensures Seg(nodes', a, raws, b, lo', hi')
    decreases raws
  {
    if raws != [] {
      SegFrame(nodes, nodes', nodes[a.at].child, raws[0].children, Null, lo, hi, lo', hi');
      SegFrame(nodes, nodes', nodes[a.at].next, raws[1..], b, lo, hi, lo', hi');
    }
  }

  lemma {:induction false} SegConcat(nodes: seq<NodeStruct>, a: Link, xs: seq<Raw>, b: Link, ys: seq<Raw>,
                                     c: Link, lo: nat, hi: nat)
    requires Seg(nodes, a, xs, b, lo, hi) && Seg(nodes, b, ys, c, lo, hi)
    ensures Seg(nodes, a, xs + ys, c, lo, hi)
    decreases xs
  {
    if xs == [] {
      assert xs + ys == ys;
    } else {
      assert (xs + ys)[1..] == xs[1..] + ys;
      SegConcat(nodes, nodes[a.at].next, xs[1..], b, ys, c, lo, hi);
    }
  }

  /** One more sibling at the end of a chain. */
  lemma SegExtend(nodes: seq<NodeStruct>, a: Link, raws: seq<Raw>, cur: nat, raw: Raw, hi: nat, lo: nat)
    requires lo <= cur < hi <= |nodes| && Seg(nodes, a, raws, Node(cur), lo, cur)
    requires Records(nodes[cur], raw) && Seg(nodes, nodes[cur].child, raw.children, Null, cur + 1, hi)
    ensures Seg(nodes, a, raws + [raw], nodes[cur].next, lo, hi)
  {
    SegFrame(nodes, nodes, a, raws, Node(cur), lo, cur, lo, hi);
    SegFrame(nodes, nodes, nodes[cur].child, raw.children, Null, cur + 1, hi, lo, hi);
    assert [raw][1..] == [];
    SegConcat(nodes, a, raws, Node(cur), [raw], nodes[cur].next, lo, hi);
  }

  /** The next sibling of `cur` is created. */
  function Linked(nodes: seq<NodeStruct>, cur: nat, start: nat): seq<NodeStruct>
    requires cur < |nodes|
  {
    nodes[cur := nodes[cur].(next := Node(|nodes|))] + [NodeStruct(start, 0, 0, Null, Null)]
  }

  lemma SegLinked(node: nat, cur: nat, acc: seq<Raw>, raw: Raw, nodes: seq<NodeStruct>, start: nat)
    requires node <= cur < |nodes| && Seg(nodes, Node(node), acc, Node(cur), node, cur)
    requires Records(nodes[cur], raw) && Seg(nodes, nodes[cur].child, raw.children, Null, cur + 1, |nodes|)
    ensures Seg(Linked(nodes, cur, start), Node(node), acc + [raw], Node(|nodes|), node, |nodes|)
  {
    var after := Linked(nodes, cur, start);
    SegFrame(nodes, after, Node(node), acc, Node(cur), node, cur, node, cur);
    SegFrame(nodes, after, nodes[cur].child, raw.children, Null, cur + 1, |nodes|, cur + 1, |nodes|);
    SegExtend(after, Node(node), acc, cur, raw, |nodes|, node);
  }

  /** How far the inner loop of the parser has got with a node. */
  datatype Status = Running | Ended | Broken

  /** The properties' size, once it has been set. */
  function Fixed(n: NodeStruct, setPropsSize: bool): int {
    if setPropsSize then n.propsSize else 0
  }

  /** Node `cur` is still the same node, and so are all nodes before it. */
  ghost predicate Kept(cur: nat, before: seq<NodeStruct>, after: seq<NodeStruct>) {
    && cur < |before| && cur < |after| && after[..cur] == before[..cur]
    && after[cur].start == before[cur].start && after[cur].kind == before[cur].kind
       && after[cur].next == before[cur].next
  }

  class Loader {
    const file: seq<byte>
    const cacheSize: nat
    const cached: array<Block>
    var cacheIndex: int
    var cacheOffset: nat
    var nodes: seq<NodeStruct>
    var buffer: array<byte>

    ghost predicate Valid()
      reads this, cached
    {
      && cacheSize > 0 && cached.Length == CACHE_BLOCKS
      && (forall i :: 0 <= i < CACHE_BLOCKS && cached[i].loaded ==>
         cached[i].data == Slice(file, cached[i].base, cacheSize))
      && (cacheIndex == NO_VALID_CACHE || (0 <= cacheIndex < CACHE_BLOCKS && cached[cacheIndex].loaded))
    }

    /** The position the next byte is read from. */
    ghost function Pos(): nat
      requires Valid() && cacheIndex != NO_VALID_CACHE
      reads this, cached
    {
      cached[cacheIndex].base + cacheOffset
    }

    /** Whether a slot holds a block more than two blocks away from `base`. */
    predicate Far(i: nat, base: nat)
      requires Valid() && i < CACHE_BLOCKS
      reads this, cached
    {
      (if cached[i].base > base then cached[i].base - base else base - cached[i].base) > 2 * cacheSize
    }

    /** The slot to overwrite: the first unused one, else the first more than two blocks
        away from `base`, else the first. */
    method Victim(base: nat) returns (v: nat)
      requires Valid()
      ensures v < CACHE_BLOCKS && forall k :: 0 <= k < v ==> cached[k].loaded
      ensures (exists i :: 0 <= i < CACHE_BLOCKS && !cached[i].loaded) ==> !cached[v].loaded
      ensures (forall i :: 0 <= i < CACHE_BLOCKS ==> cached[i].loaded) ==>
        && (forall k :: 0 <= k < v ==> !Far(k, base))
        && if exists i :: 0 <= i < CACHE_BLOCKS && Far(i, base) then Far(v, base) else v == 0
    {
      for i := 0 to CACHE_BLOCKS
        invariant forall k :: 0 <= k < i ==> cached[k].loaded
      {
        if !cached[i].loaded {
          return i;
        }
      }
      for i := 0 to CACHE_BLOCKS
        invariant forall k :: 0 <= k < i ==> !Far(k, base)
      {
        if Far(i, base) {
          return i;
        }
      }
      v := 0;
    }

    /** `loadCacheBlock`: reads the block of `pos` into a slot. It fails only for a
        position beyond what was read. */
    method LoadCacheBlock(pos: nat) returns (v: int)
      requires Valid()
      modifies cached
      ensures Valid()
      ensures v == -1 || 0 <= v < CACHE_BLOCKS
      ensures v == -1 <==> Available(file, cacheSize, pos) < 0
      ensures v != -1 ==> cached[v].loaded && cached[v].base == AndNot(pos, cacheSize - 1)
    {
      var base := AndNot(pos, cacheSize - 1);
      var victim := Victim(base);
      MaskSplits(pos, cacheSize - 1);
      var data := Slice(file, base, cacheSize);
      if |data| < pos - base {
        cached[victim] := cached[victim].(data := data, base := base);
        return -1;
      }
      cached[victim] := Block(data, true, base);
      v := victim;
    }

    /** `getCacheBlock`: the slot holding the block of `pos`, loaded if need be. */
    method GetCacheBlock(pos: nat) returns (v: int)
      requires Valid()
      modifies cached
      ensures Valid()
      ensures v == -1 || 0 <= v < CACHE_BLOCKS
      ensures v == -1 ==> Available(file, cacheSize, pos) < 0
      ensures v != -1 ==> cached[v].loaded && cached[v].base == AndNot(pos, cacheSize - 1)
    {
      var base := AndNot(pos, cacheSize - 1);
      for i := 0 to CACHE_BLOCKS {
        if cached[i].loaded && cached[i].base == base {
          return i;
        }
      }
      v := LoadCacheBlock(pos);
    }

    /** `readByte`: the file's byte at the position, or failure at the end. */
    method ReadByte() returns (ok: bool, value: byte)
      requires Valid()
      modifies this`cacheIndex, this`cacheOffset, cached
      ensures Valid()
      ensures old(cacheIndex) == NO_VALID_CACHE ==> !ok && cacheIndex == NO_VALID_CACHE
      ensures old(cacheIndex) != NO_VALID_CACHE && old(Pos()) <= |file| ==>
        && cacheIndex != NO_VALID_CACHE
        && (ok <==> old(Pos()) < |file|)
        && (ok ==> value == file[old(Pos())])
        && Pos() == old(Pos()) + if ok then 1 else 0
    {
      value := 0;
      if cacheIndex == NO_VALID_CACHE {
        return false, value;
      }
      if cacheOffset >= |cached[cacheIndex].data| {
        var pos := cacheOffset + cached[cacheIndex].base;
        BlockContains(file, cacheSize, pos);
        var tmp := GetCacheBlock(pos);
        if tmp < 0 {
          return false, value;
        }
        cacheIndex := tmp;
        cacheOffset := pos - cached[cacheIndex].base;
        if cacheOffset >= |cached[cacheIndex].data| {
          return false, value;
        }
      }
      value := cached[cacheIndex].data[cacheOffset];
      cacheOffset := cacheOffset + 1;
      ok := true;
    }

    /** `safeSeek`: succeeds for every position in the file or at its end. */
    method SafeSeek(pos: nat) returns (ok: bool)
      requires Valid()
      modifies this`cacheIndex, this`cacheOffset, cached
      ensures Valid()
      ensures pos <= |file| ==> ok
      ensures ok ==> cacheIndex != NO_VALID_CACHE && Pos() == pos
    {
      BlockContains(file, cacheSize, pos);
      var i := GetCacheBlock(pos);
      if i == NO_VALID_CACHE {
        return false;
      }
      cacheIndex := i;
      cacheOffset := pos - cached[i].base;
      ok := true;
    }

    /** `safeTell`: the index of the byte read last. */
    method SafeTell() returns (ok: bool, pos: int)
      requires Valid()
      ensures ok <==> cacheIndex != NO_VALID_CACHE
      ensures ok ==> pos == Pos() - 1
    {
      if cacheIndex == NO_VALID_CACHE {
        return false, 0;
      }
      return true, cached[cacheIndex].base + cacheOffset - 1;
    }

    /** `readBytes`: copies a range of the file across block borders. */
    method ReadBytes(size: nat, start: nat, buf: array<byte>) returns (ok: bool)
      requires Valid() && start + size <= |file| && size <= buf.Length && buf as object != cached as object
      modifies this`cacheIndex, this`cacheOffset, cached, buf
      ensures Valid() && ok
      ensures buf[..size] == file[start..start + size]
      ensures cacheIndex != NO_VALID_CACHE && Pos() == start + size
    {
      var remain, done := size, 0;
      while true
        invariant Valid() && 0 <= done && 0 <= remain && done + remain == size
        invariant buf[..done] == file[start..start + done]
        decreases remain
      {
        var reading := ReadBlock(start, done, remain, buf);
        remain, done := remain - reading, done + reading;
        if remain == 0 {
          break;
        }
      }
      ok := true;
    }

    /** One block's share of `readBytes`. */
    method ReadBlock(start: nat, done: nat, remain: nat, buf: array<byte>) returns (reading: nat)
      requires Valid() && start + done + remain <= |file| && done + remain <= buf.Length
      requires buf as object != cached as object
      requires buf[..done] == file[start..start + done]
      modifies this`cacheIndex, this`cacheOffset, cached, buf
      ensures Valid() && reading <= remain && (remain > 0 ==> reading > 0)
      ensures buf[..done + reading] == file[start..start + done + reading]
      ensures cacheIndex != NO_VALID_CACHE && Pos() == start + done + reading
    {
      EnterBlock(start + done);
      var i := cacheIndex;
      reading := Min(remain, |cached[i].data| - cacheOffset);
      SliceIsFile(file, cached[i].base, cacheSize, cacheOffset, reading, start);
      Copy(cached[i].data[cacheOffset..cacheOffset + reading], buf, done);
      cacheOffset := cacheOffset + reading;
    }

    /** Makes the block of `pos` current. */
    method EnterBlock(pos: nat)
      requires Valid() && pos <= |file|
      modifies this`cacheIndex, this`cacheOffset, cached
      ensures Valid() && cacheIndex != NO_VALID_CACHE && Pos() == pos && cacheOffset >= 0
      ensures cached[cacheIndex].data == Slice(file, cached[cacheIndex].base, cacheSize)
      ensures cached[cacheIndex].base <= |file|
      ensures cacheOffset <= |cached[cacheIndex].data| && (pos < |file| ==> cacheOffset < |cached[cacheIndex].data|)
    {
      BlockContains(file, cacheSize, pos);
      var i := GetCacheBlock(pos);
      cacheIndex := i;
      cacheOffset := pos - cached[i].base;
    }

    // ---- the parser -------------------------------------------------------------------

    ghost predicate Reading()
      reads this, cached
    {
      Valid() && cacheIndex != NO_VALID_CACHE && Pos() <= |file|
    }

    /** The inner loop of `parseNode`: the properties and children of the newest node,
        up to and including its end byte. */
    method ParseBodyOf(cur: nat) returns (ok: bool)
      requires Reading() && cur == |nodes| - 1 && nodes[cur].child == Null
      modifies this, cached
      ensures Reading() && Kept(cur, old(nodes), nodes) && old(Pos()) <= Pos()
      ensures var body := ParseBody(file, old(Pos()), old(nodes[cur].start), false, 0, []);
        && (ok <==> body.Body?)
        && (ok ==>
              && Pos() == body.pos && nodes[cur].propsSize == body.propsSize
              && Seg(nodes, nodes[cur].child, body.children, Null, cur + 1, |nodes|))
      decreases |file| - Pos(), 7
    {
      ghost var body := ParseBody(file, Pos(), nodes[cur].start, false, 0, []);
      ghost var kids: seq<Raw> := [];
      var setPropsSize, status := false, Running;
      while status == Running
        invariant Reading() && old(Pos()) <= Pos() && Kept(cur, old(nodes), nodes)
        invariant status != Broken ==> Seg(nodes, nodes[cur].child, kids, Null, cur + 1, |nodes|)
        invariant Explains(body, status, Pos(), nodes[cur], setPropsSize, kids)
        decreases status == Running, |file| - Pos()
      {
        status, setPropsSize, kids := BodyStep(cur, setPropsSize, kids, body);
      }
      ok := status == Ended;
    }

    /** `body` is what the rest of the file makes of the node under way. */
    ghost predicate Explains(body: Body, status: Status, p: nat, n: NodeStruct, setPropsSize: bool, kids: seq<Raw>) {
      match status
      case Running => body == ParseBody(file, p, n.start, setPropsSize, Fixed(n, setPropsSize), kids)
      case Ended => body == Body(n.propsSize, kids, p)
      case Broken => body == BadBody
    }

    /** One round of that loop. */
    method BodyStep(cur: nat, setPropsSize0: bool, ghost kids0: seq<Raw>, ghost body: Body)
      returns (status: Status, setPropsSize: bool, ghost kids: seq<Raw>)
      requires Reading() && cur < |nodes| && Seg(nodes, nodes[cur].child, kids0, Null, cur + 1, |nodes|)
      requires Explains(body, Running, Pos(), nodes[cur], setPropsSize0, kids0)
      modifies this, cached
      ensures Reading() && Kept(cur, old(nodes), nodes) && old(Pos()) <= Pos()
      ensures status == Running ==> old(Pos()) < Pos()
      ensures status != Broken ==> Seg(nodes, nodes[cur].child, kids, Null, cur + 1, |nodes|)
      ensures Explains(body, status, Pos(), nodes[cur], setPropsSize, kids)
      decreases |file| - Pos(), 6
    {
      setPropsSize, kids := setPropsSize0, kids0;
      BodyUnfolds(file, Pos(), nodes[cur].start, setPropsSize, Fixed(nodes[cur], setPropsSize), kids);
      var more, byte := ReadByte();
      if !more {
        return Broken, setPropsSize, kids;
      }
      if byte == NODE_START {
        ghost var chain := ParseChain(file, Pos(), Pos() - 1);
        var parsed := OnStart(cur, setPropsSize, Fixed(nodes[cur], setPropsSize), kids);
        if !parsed {
          return Broken, setPropsSize, kids;
        }
        return Running, true, chain.nodes;
      } else if byte == NODE_END {
        OnEnd(cur, setPropsSize, kids);
        return Ended, setPropsSize, kids;
      } else if byte == ESCAPE_CHAR {
        more, byte := ReadByte();
        if !more {
          return Broken, setPropsSize, kids;
        }
      }
      status := Running;
    }

    /** The end byte of the node has been read. */
    method OnEnd(cur: nat, setPropsSize: bool, ghost kids: seq<Raw>)
      requires Reading() && cur < |nodes| && Pos() > 0
      requires Seg(nodes, nodes[cur].child, kids, Null, cur + 1, |nodes|)
      modifies this`nodes
      ensures Reading() && Kept(cur, old(nodes), nodes) && Pos() == old(Pos())
      ensures Seg(nodes, nodes[cur].child, kids, Null, cur + 1, |nodes|)
      ensures nodes[cur].propsSize ==
        if setPropsSize then old(nodes[cur].propsSize) else Pos() - 1 - nodes[cur].start - 2
    {
      if !setPropsSize {
        var told, pos := SafeTell();
        ghost var before := nodes;
        nodes := nodes[cur := nodes[cur].(propsSize := pos - nodes[cur].start - 2)];
        SegFrame(before, nodes, nodes[cur].child, kids, Null, cur + 1, |nodes|, cur + 1, |nodes|);
      }
    }

    /** A start byte has been read: a child, and what it means for the body being parsed. */
    method OnStart(cur: nat, ghost setPropsSize: bool, ghost propsSize: int, ghost kids: seq<Raw>) returns (ok: bool)
      requires Reading() && cur < |nodes| && Pos() > 0 && file[Pos() - 1] == NODE_START
      modifies this, cached
      ensures Reading() && Kept(cur, old(nodes), nodes) && old(Pos()) <= Pos()
      ensures var chain := ParseChain(file, old(Pos()), old(Pos()) - 1);
        && (ok ==>
              && chain.Parsed? && Pos() == chain.pos
              && Seg(nodes, nodes[cur].child, chain.nodes, Null, cur + 1, |nodes|))
        && ParseBody(file, old(Pos()) - 1, nodes[cur].start, setPropsSize, propsSize, kids) ==
             if ok then ParseBody(file, Pos(), nodes[cur].start, true, nodes[cur].propsSize, chain.nodes) else BadBody
      decreases |file| - Pos(), 5
    {
      BodyUnfolds(file, Pos() - 1, nodes[cur].start, setPropsSize, propsSize, kids);
      ok := ParseChild(cur);
    }

    /** A child node has started: its chain of siblings becomes the children of `cur`. */
    method ParseChild(cur: nat) returns (ok: bool)
      requires Reading() && cur < |nodes| && Pos() > 0
      modifies this, cached
      ensures Reading() && Kept(cur, old(nodes), nodes) && old(Pos()) <= Pos()
      ensures nodes[cur].propsSize == old(Pos()) - 1 - nodes[cur].start - 2
      ensures var chain := ParseChain(file, old(Pos()), old(Pos()) - 1);
        && (ok <==> chain.Parsed?)
        && (ok ==> Pos() == chain.pos && Seg(nodes, nodes[cur].child, chain.nodes, Null, cur + 1, |nodes|))
      decreases |file| - Pos(), 4
    {
      var told, pos := SafeTell();
      var child := |nodes|;
      nodes := nodes[cur := nodes[cur].(propsSize := pos - nodes[cur].start - 2, child := Node(child))];
      nodes := nodes + [NodeStruct(pos, 0, 0, Null, Null)];
      ghost var chain, before := ParseChain(file, Pos(), pos), nodes;
      ok := ParseNode(child);
      assert nodes[cur] == nodes[..child][cur] == before[cur];
      if ok {
        SegFrame(nodes, nodes, Node(child), chain.nodes, Null, child, |nodes|, cur + 1, |nodes|);
      }
      assert nodes[..cur] == nodes[..child][..cur] == before[..child][..cur];
    }

    /** `parseNode`: a chain of siblings into the newest node and its successors. The
        end byte of the parent is read and put back. */
    method ParseNode(node: nat) returns (ok: bool)
      requires Reading() && node == |nodes| - 1 && nodes[node].child == Null && nodes[node].next == Null
      modifies this, cached
      ensures Reading() && old(Pos()) <= Pos()
      ensures node < |nodes| && nodes[..node] == old(nodes[..node])
      ensures var chain := ParseChain(file, old(Pos()), old(nodes[node].start));
        && (ok <==> chain.Parsed?)
        && (ok ==> Pos() == chain.pos && Seg(nodes, Node(node), chain.nodes, Null, node, |nodes|))
      decreases |file| - Pos(), 3
    {
      ghost var chain := ParseChain(file, Pos(), nodes[node].start);
      ghost var acc: seq<Raw> := [];
      var cur, status := node, Running;
      assert chain.Parsed? ==> [] + chain.nodes == chain.nodes;
      while status == Running
        invariant Reading() && old(Pos()) <= Pos() && node <= cur < |nodes| && nodes[..node] == old(nodes[..node])
        invariant status == Running ==>
          && cur == |nodes| - 1 && nodes[cur].child == Null && nodes[cur].next == Null
          && Seg(nodes, Node(node), acc, Node(cur), node, cur)
          && chain == Prepend(acc, ParseChain(file, Pos(), nodes[cur].start))
        invariant status == Ended ==> chain == Parsed(acc, Pos()) && Seg(nodes, Node(node), acc, Null, node, |nodes|)
        invariant status == Broken ==> chain == Failed
        decreases status == Running, |file| - Pos()
      {
        status, cur, acc := ChainStep(node, cur, acc, chain);
      }
      ok := status == Ended;
    }

    /** One round of `parseNode`: the newest node, and the byte after its end. */
    method ChainStep(node: nat, cur0: nat, ghost acc0: seq<Raw>, ghost chain: Parsed)
      returns (status: Status, cur: nat, ghost acc: seq<Raw>)
      requires Reading() && node <= cur0 == |nodes| - 1 && nodes[cur0].child == Null && nodes[cur0].next == Null
      requires Seg(nodes, Node(node), acc0, Node(cur0), node, cur0)
      requires chain == Prepend(acc0, ParseChain(file, Pos(), nodes[cur0].start))
      modifies this, cached
      ensures Reading() && old(Pos()) <= Pos() && node <= cur < |nodes| && nodes[..node] == old(nodes[..node])
      ensures status == Running ==>
        && old(Pos()) < Pos()
        && cur == |nodes| - 1 && nodes[cur].child == Null && nodes[cur].next == Null
        && Seg(nodes, Node(node), acc, Node(cur), node, cur)
        && chain == Prepend(acc, ParseChain(file, Pos(), nodes[cur].start))
      ensures status == Ended ==> chain == Parsed(acc, Pos()) && Seg(nodes, Node(node), acc, Null, node, |nodes|)
      ensures status == Broken ==> chain == Failed
      decreases |file| - Pos(), 2
    {
      ghost var part := ParseChain(file, Pos(), nodes[cur0].start);
      var parsed;
      ghost var raw;
      parsed, raw := ParseOne(node, cur0, acc0);
      if parsed {
        status, cur, acc := AfterNode(node, cur0, acc0, raw, part);
      } else {
        status, cur, acc := Broken, cur0, acc0;
      }
    }

    /** The byte after a node's end: a sibling, the end of the parent, or neither. */
    method AfterNode(node: nat, cur0: nat, ghost acc0: seq<Raw>, ghost raw: Raw, ghost part: Parsed)
      returns (status: Status, cur: nat, ghost acc: seq<Raw>)
      requires Reading() && Pos() > 0 && node <= cur0 < |nodes| && nodes[cur0].next == Null
      requires Seg(nodes, Node(node), acc0, Node(cur0), node, cur0)
      requires Records(nodes[cur0], raw) && Seg(nodes, nodes[cur0].child, raw.children, Null, cur0 + 1, |nodes|)
      requires Pos() == |file| || file[Pos()] == NODE_END ==> part == Parsed([raw], Pos())
      requires Pos() < |file| && file[Pos()] == NODE_START ==>
        part == Prepend([raw], ParseChain(file, Pos() + 1, Pos()))
      requires Pos() < |file| && file[Pos()] != NODE_END && file[Pos()] != NODE_START ==> part == Failed
      modifies this, cached
      ensures Reading() && old(Pos()) <= Pos() && node <= cur < |nodes| && nodes[..node] == old(nodes[..node])
      ensures status == Running ==>
        && cur == |nodes| - 1 && nodes[cur].child == Null && nodes[cur].next == Null
        && Seg(nodes, Node(node), acc, Node(cur), node, cur)
        && Prepend(acc0, part) == Prepend(acc, ParseChain(file, Pos(), nodes[cur].start))
      ensures status == Ended ==>
        Prepend(acc0, part) == Parsed(acc, Pos()) && Seg(nodes, Node(node), acc, Null, node, |nodes|)
      ensures status == Broken ==> part == Failed
    {
      status, cur, acc := Broken, cur0, acc0;
      PrependOne(acc, raw, Pos());
      var more, byte := ReadByte();
      if more && byte == NODE_START {
        PrependTwice(acc, raw, ParseChain(file, Pos(), Pos() - 1));
        NextSibling(node, cur, acc, raw);
        return Running, |nodes| - 1, acc + [raw];
      }
      SegExtend(nodes, Node(node), acc, cur, raw, |nodes|, node);
      if !more {
        return Ended, cur, acc + [raw];
      }
      if byte == NODE_END {
        var told, pos := SafeTell();
        var sought := SafeSeek(pos);
        return Ended, cur, acc + [raw];
      }
    }

    /** The next sibling has started. */
    method NextSibling(node: nat, cur: nat, ghost acc: seq<Raw>, ghost raw: Raw)
      requires Reading() && Pos() > 0 && node <= cur < |nodes| && Seg(nodes, Node(node), acc, Node(cur), node, cur)
      requires Records(nodes[cur], raw) && Seg(nodes, nodes[cur].child, raw.children, Null, cur + 1, |nodes|)
      modifies this`nodes
      ensures Reading() && Pos() == old(Pos())
      ensures |nodes| == old(|nodes|) + 1 && nodes[|nodes| - 1] == NodeStruct(Pos() - 1, 0, 0, Null, Null)
      ensures nodes[..node] == old(nodes[..node])
      ensures Seg(nodes, Node(node), acc + [raw], Node(|nodes| - 1), node, |nodes| - 1)
    {
      var told, pos := SafeTell();
      SegLinked(node, cur, acc, raw, nodes, pos);
      nodes := Linked(nodes, cur, pos);
    }

    /** The type byte and the body of the newest node. */
    method ParseOne(node: nat, cur: nat, ghost acc: seq<Raw>) returns (ok: bool, ghost raw: Raw)
      requires Reading() && node <= cur == |nodes| - 1 && nodes[cur].child == Null && nodes[cur].next == Null
      requires Seg(nodes, Node(node), acc, Node(cur), node, cur)
      modifies this, cached
      ensures Reading() && old(Pos()) <= Pos() && cur < |nodes| && nodes[..node] == old(nodes[..node])
      ensures ok ==>
        && old(Pos()) < Pos() && nodes[cur].next == Null
        && Seg(nodes, Node(node), acc, Node(cur), node, cur)
        && Records(nodes[cur], raw) && Seg(nodes, nodes[cur].child, raw.children, Null, cur + 1, |nodes|)
      ensures var part := ParseChain(file, old(Pos()), old(nodes[cur].start));
        && (!ok ==> part == Failed)
        && (ok ==>
              && (Pos() == |file| || file[Pos()] == NODE_END ==> part == Parsed([raw], Pos()))
              && (Pos() < |file| && file[Pos()] == NODE_START ==>
                 part == Prepend([raw], ParseChain(file, Pos() + 1, Pos())))
              && (Pos() < |file| && file[Pos()] != NODE_END && file[Pos()] != NODE_START ==> part == Failed))
      decreases |file| - Pos(), 1
    {
      ChainUnfolds(file, Pos(), nodes[cur].start);
      ok, raw := ReadOne(node, cur, acc);
    }

    method ReadOne(node: nat, cur: nat, ghost acc: seq<Raw>) returns (ok: bool, ghost raw: Raw)
      requires Reading() && node <= cur == |nodes| - 1 && nodes[cur].child == Null && nodes[cur].next == Null
      requires Seg(nodes, Node(node), acc, Node(cur), node, cur)
      modifies this, cached
      ensures Reading() && old(Pos()) <= Pos() && cur < |nodes| && nodes[..node] == old(nodes[..node])
      ensures ok ==>
        && old(Pos()) < Pos() && nodes[cur].next == Null
        && Seg(nodes, Node(node), acc, Node(cur), node, cur)
        && Records(nodes[cur], raw) && Seg(nodes, nodes[cur].child, raw.children, Null, cur + 1, |nodes|)
      ensures var body := ParseBody(file, old(Pos()) + 1, old(nodes[cur].start), false, 0, []);
        && (ok <==> old(Pos()) < |file| && body.Body?)
        && (ok ==>
              Pos() == body.pos && raw == Raw(old(nodes[cur].start), body.propsSize, file[old(Pos())], body.children))
      decreases |file| - Pos(), 0
    {
      ghost var before := nodes;
      raw := Raw(0, 0, 0, []);
      var more, byte := ReadByte();
      if !more {
        return false, raw;
      }
      nodes := nodes[cur := nodes[cur].(kind := byte)];
      ghost var body := ParseBody(file, Pos(), nodes[cur].start, false, 0, []);
      ok := ParseBodyOf(cur);
      if ok {
        raw := Raw(nodes[cur].start, body.propsSize, byte, body.children);
        SamePrefix(before, nodes, cur);
        SegFrame(before, nodes, Node(node), acc, Node(cur), node, cur, node, cur);
      }
      assert nodes[..node] == nodes[..cur][..node] == before[..cur][..node];
    }

    // ---- properties ---------------------------------------------------------------------

    /** The bytes between a node's type and its first child or its end. */
    function RawProps(n: NodeStruct): seq<byte>
      requires 0 <= n.propsSize && n.start + 2 + n.propsSize <= |file|
    {
      file[n.start + 2..n.start + 2 + n.propsSize]
    }

    /** `getProps`: reads a node's raw properties and unescapes them in the buffer. Only a
        lone final escape, which no node of a parsed file has, lets in a byte from beyond. */
    method GetProps(n: NodeStruct) returns (ok: bool, size: nat)
      requires Valid() && 0 <= n.propsSize && n.start + 2 + n.propsSize <= |file|
      requires buffer.Length > 0 && buffer as object != cached as object
      modifies this`cacheIndex, this`cacheOffset, this`buffer, cached, buffer
      ensures Valid() && ok && size <= buffer.Length
      ensures buffer == old(buffer) || fresh(buffer)
      ensures exists beyond: byte :: buffer[..size] == Unescape(RawProps(n), beyond)
      ensures Whole(RawProps(n)) ==> buffer[..size] == Unescape(RawProps(n), 0)
      ensures forall props: seq<byte> {:trigger Escape(props)} :: RawProps(n) == Escape(props) ==>
        buffer[..size] == props
    {
      if n.propsSize >= buffer.Length {
        var bufferSize := buffer.Length;
        while n.propsSize >= bufferSize
          invariant bufferSize > 0
        {
          bufferSize := bufferSize * 2;
        }
        buffer := new byte[bufferSize];
      }
      ok := ReadBytes(n.propsSize, n.start + 2, buffer);
      ghost var beyond := buffer[n.propsSize];
      size := UnescapeInPlace(buffer, n.propsSize);
      if Whole(RawProps(n)) { WholeUnescapes(RawProps(n), beyond, 0); }
      forall props: seq<byte> {:trigger Escape(props)} | RawProps(n) == Escape(props)
        ensures buffer[..size] == props
      {
        UnescapeEscape(props, beyond);
      }
    }

    /** `openFile`: checks the identifier, then parses the nodes that start at byte 4. */
    method OpenFile(acceptIdentifier: seq<byte>) returns (ok: bool)
      requires Valid() && nodes == []
      modifies this, cached
      ensures Valid()
      ensures ok <==>
        && |file| > 4 && (file[..4] == acceptIdentifier || file[..4] == [0, 0, 0, 0])
        && file[4] == NODE_START && ParseChain(file, 5, 4).Parsed?
      ensures ok ==> Seg(nodes, Node(0), ParseChain(file, 5, 4).nodes, Null, 0, |nodes|)
      ensures ok ==> Readable(file, nodes, Node(0), ParseChain(file, 5, 4).nodes)
    {
      if |file| < 4 || (file[..4] != acceptIdentifier && file[..4] != [0, 0, 0, 0]) {
        return false;
      }
      ok := SafeSeek(4);
      nodes := [NodeStruct(4, 0, 0, Null, Null)];
      ok := SafeSeek(4);
      var more, byte := ReadByte();
      if more && byte == NODE_START {
        ok := ParseNode(0);
        ChainInFile(file, 5);
        if ok { SegReadable(file, nodes, Node(0), ParseChain(file, 5, 4).nodes, Null, 0, |nodes|); }
      } else {
        ok := false;
      }
    }

    constructor (file: seq<byte>)
      ensures Valid() && this.file == file && nodes == [] && fresh(cached) && fresh(buffer)
      ensures buffer.Length > 0 && buffer as object != cached as object
      ensures cacheSize == CacheSize(|file|)
    {
      CacheSizes(|file|);
      this.file, this.cacheSize := file, CacheSize(|file|);
      this.cached := new Block[CACHE_BLOCKS](_ => Block([], false, 0));
      this.cacheIndex, this.cacheOffset, this.nodes := NO_VALID_CACHE, 0, [];
      this.buffer := new byte[1024];
    }
  }

  /** The unescaping loop of `getProps`: a write cursor that never overtakes the read
      cursor. */
  method UnescapeInPlace(buf: array<byte>, n: nat) returns (j: nat)
    requires n < buf.Length
    modifies buf
    ensures j <= n && buf[..j] == Unescape(old(buf[..n]), old(buf[n]))
  {
    ghost var raw, beyond, done := buf[..n], buf[n], [];
    ghost var whole := Unescape(raw, beyond);
    var i, escaped := 0, false;
    j := 0;
    assert raw[0..] == raw;
    while i < n
      invariant 0 <= j <= i <= n + 1 && j <= n && (i == n + 1 ==> j < i)
      invariant forall k :: i <= k < buf.Length ==> buf[k] == old(buf[k])
      invariant !escaped ==> i == j
      invariant |done| == j && forall k :: 0 <= k < j ==> buf[k] == done[k]
      invariant done + Left(raw, i, beyond) == whole
    {
      ghost var next := if buf[i] == ESCAPE_CHAR then i + 2 else i + 1;
      ghost var b := if buf[i] == ESCAPE_CHAR then buf[i + 1] else buf[i];
      OneUnescaped(done, raw, i, next, beyond, b);
      if buf[i] == ESCAPE_CHAR {
        i := i + 1;
        buf[j] := buf[i];
        escaped := true;
      } else if escaped {
        buf[j] := buf[i];
      }
      done := done + [b];
      i, j := i + 1, j + 1;
    }
    assert done + [] == done;
    assert buf[..j] == done;
  }

  /** What is still to be unescaped; a lone final escape byte steps one too far. */
  ghost function Left(raw: seq<byte>, i: nat, beyond: byte): seq<byte> {
    if i <= |raw| then Unescape(raw[i..], beyond) else []
  }

  lemma {:induction false} OneUnescaped(done: seq<byte>, raw: seq<byte>, i: nat, next: nat, beyond: byte, b: byte)
    requires i < |raw| && next == if raw[i] == ESCAPE_CHAR then i + 2 else i + 1
    requires b == if raw[i] != ESCAPE_CHAR then raw[i] else if i + 1 < |raw| then raw[i + 1] else beyond
    ensures done + Left(raw, i, beyond) == done + [b] + Left(raw, next, beyond)
  {
    FirstUnescaped(raw[i..], beyond);
    assert raw[i..][1..] == raw[i + 1..];
    assert i + 1 < |raw| ==> raw[i..][2..] == raw[i + 2..];
  }

  lemma FirstUnescaped(s: seq<byte>, beyond: byte)
    requires s != []
    ensures Unescape(s, beyond) ==
      if s[0] != ESCAPE_CHAR then [s[0]] + Unescape(s[1..], beyond)
      else if |s| == 1 then [beyond] else [s[1]] + Unescape(s[2..], beyond)
  {
  }

  lemma SamePrefix(a: seq<NodeStruct>, b: seq<NodeStruct>, n: nat)
    requires n <= |a| && n <= |b| && a[..n] == b[..n]
    ensures forall k :: 0 <= k < n ==> a[k] == b[k]
  {
    forall k | 0 <= k < n
      ensures a[k] == b[k]
    {
      assert a[..n][k] == b[..n][k];
    }
  }

  method Copy(data: seq<byte>, buf: array<byte>, at: nat)
    requires at + |data| <= buf.Length
    modifies buf
    ensures buf[..at + |data|] == old(buf[..at]) + data && buf[at + |data|..] == old(buf[at + |data|..])
  {
    for j := 0 to |data|
      invariant buf[..at + j] == old(buf[..at]) + data[..j] && buf[at + |data|..] == old(buf[at + |data|..])
    {
      buf[at + j] := data[j];
    }
  }
}
