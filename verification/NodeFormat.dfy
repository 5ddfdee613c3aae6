/** The node-file format: trees as bytes, and what the loader's parser computes from
    any bytes. */
module NodeFormat {
  import opened Bytes

  const ESCAPE_CHAR: byte := 0xFD
  const NODE_START: byte := 0xFE
  const NODE_END: byte := 0xFF

  // ---- writing ---------------------------------------------------------------------

  datatype Tree = Tree(kind: byte, props: seq<byte>, children: seq<Tree>)

  predicate Special(b: byte) {
    b >= ESCAPE_CHAR
  }

  function Escape(props: seq<byte>): seq<byte> {
    if props == [] then []
    else (if Special(props[0]) then [ESCAPE_CHAR, props[0]] else [props[0]]) + Escape(props[1..])
  }

  /** A tree of raw property bytes as it stands in a file. */
  function Text(t: Tree): seq<byte>
    decreases t, 0
  {
    [NODE_START, t.kind] + t.props + TextAll(t.children) + [NODE_END]
  }

  function TextAll(ts: seq<Tree>): seq<byte>
    decreases ts, 1
  {
    if ts == [] then [] else Text(ts[0]) + TextAll(ts[1..])
  }

  /** A tree with its properties escaped: what is written of it is its text. */
  function Escaped(t: Tree): Tree
    decreases t, 0
  {
    Tree(t.kind, Escape(t.props), EscapedAll(t.children))
  }

  function EscapedAll(ts: seq<Tree>): seq<Tree>
    decreases ts, 1
  {
    if ts == [] then [] else [Escaped(ts[0])] + EscapedAll(ts[1..])
  }

  /** Raw bytes in which every escape byte has its byte, and no marker stands bare. */
  predicate Clean(s: seq<byte>) {
    if s == [] then true
    else if s[0] == ESCAPE_CHAR then |s| >= 2 && Clean(s[2..])
    else !Special(s[0]) && Clean(s[1..])
  }

  predicate CleanTree(t: Tree)
    decreases t, 0
  {
    Clean(t.props) && CleanAll(t.children)
  }

  predicate CleanAll(ts: seq<Tree>)
    decreases ts, 1
  {
    ts == [] || (CleanTree(ts[0]) && CleanAll(ts[1..]))
  }

  lemma {:induction false} EscapeIsClean(props: seq<byte>)
    ensures Clean(Escape(props))
  {
    if props != [] {
      EscapeIsClean(props[1..]);
      var head := if Special(props[0]) then [ESCAPE_CHAR, props[0]] else [props[0]];
      assert Escape(props)[|head|..] == Escape(props[1..]);
    }
  }

  lemma {:induction false} EscapedIsClean(ts: seq<Tree>)
    ensures CleanAll(EscapedAll(ts)) && |EscapedAll(ts)| == |ts|
    decreases ts
  {
    if ts != [] {
      EscapeIsClean(ts[0].props);
      EscapedIsClean(ts[0].children);
      EscapedIsClean(ts[1..]);
      assert EscapedAll(ts)[1..] == EscapedAll(ts[1..]);
    }
  }

  // ---- reading ---------------------------------------------------------------------

  /** What the parser records of a node: where it starts, how many raw bytes its
      properties take, its type, and its children. */
  datatype Raw = Raw(start: nat, propsSize: int, kind: byte, children: seq<Raw>)

  datatype Parsed = Failed | Parsed(nodes: seq<Raw>, pos: nat)

  datatype Body = BadBody | Body(propsSize: int, children: seq<Raw>, pos: nat)

  /** A chain of siblings, the first of which starts at `start` with its type byte at
      `p`. The chain ends in front of an end byte that is not its own, or with the file. */
  function ParseChain(f: seq<byte>, p: nat, start: nat): (r: Parsed)
    ensures r.Parsed? ==> p + 2 <= r.pos <= |f| && r.nodes != []
    decreases |f| - p, 0
  {
    if p >= |f| then Failed
    else
      var b := ParseBody(f, p + 1, start, false, 0, []);
      if b.BadBody? then Failed
      else
        var node := Raw(start, b.propsSize, f[p], b.children);
        if b.pos >= |f| then Parsed([node], b.pos)
        else if f[b.pos] == NODE_START then
          var rest := ParseChain(f, b.pos + 1, b.pos);
          if rest.Failed? then Failed else Parsed([node] + rest.nodes, rest.pos)
        else if f[b.pos] == NODE_END then Parsed([node], b.pos)
        else Failed
  }

  /** The bytes of a node after its type, up to and including its end byte.
      The first child fixes `propsSize`. */
  function ParseBody(f: seq<byte>, p: nat, start: nat, setPropsSize: bool, propsSize: int,
    children: seq<Raw>): (r: Body)
    ensures r.Body? ==> p + 1 <= r.pos <= |f|
    decreases |f| - p, 1
  {
    if p >= |f| then BadBody
    else if f[p] == NODE_START then
      var r := ParseChain(f, p + 1, p);
      if r.Failed? then BadBody else ParseBody(f, r.pos, start, true, p - start - 2, r.nodes)
    else if f[p] == NODE_END then Body(if setPropsSize then propsSize else p - start - 2, children, p + 1)
    else if f[p] == ESCAPE_CHAR then
      if p + 1 >= |f| then BadBody else ParseBody(f, p + 2, start, setPropsSize, propsSize, children)
    else ParseBody(f, p + 1, start, setPropsSize, propsSize, children)
  }

  function Prepend(nodes: seq<Raw>, r: Parsed): Parsed {
    if r.Failed? then Failed else Parsed(nodes + r.nodes, r.pos)
  }

  lemma PrependTwice(a: seq<Raw>, b: Raw, r: Parsed)
    ensures Prepend(a, Prepend([b], r)) == Prepend(a + [b], r)
  {
    if r.Parsed? { assert a + ([b] + r.nodes) == a + [b] + r.nodes; }
  }

  lemma PrependOne(a: seq<Raw>, b: Raw, p: nat)
    ensures Prepend(a, Parsed([b], p)) == Parsed(a + [b], p)
  {
  }

  /** How `ParseChain` goes on after one node. */
  lemma ChainUnfolds(f: seq<byte>, p: nat, start: nat)
    ensures var r := ParseChain(f, p, start);
      && (p >= |f| ==> r == Failed)
      && (p < |f| ==>
            var b := ParseBody(f, p + 1, start, false, 0, []);
            && (b.BadBody? ==> r == Failed)
            && (b.Body? ==>
                  var node := Raw(start, b.propsSize, f[p], b.children);
                  && (b.pos >= |f| || f[b.pos] == NODE_END ==> r == Parsed([node], b.pos))
                  && (b.pos < |f| && f[b.pos] == NODE_START ==> r == Prepend([node], ParseChain(f, b.pos + 1, b.pos)))
                  && (b.pos < |f| && f[b.pos] != NODE_START && f[b.pos] != NODE_END ==> r == Failed)))
  {
  }

  /** How `ParseBody` goes on after one byte. */
  lemma BodyUnfolds(f: seq<byte>, p: nat, start: nat, setPropsSize: bool, propsSize: int, children: seq<Raw>)
    ensures var r := ParseBody(f, p, start, setPropsSize, propsSize, children);
      && (p >= |f| ==> r == BadBody)
      && (p < |f| && f[p] == NODE_START ==>
            var chain := ParseChain(f, p + 1, p);
            r == if chain.Failed? then BadBody else ParseBody(f, chain.pos, start, true, p - start - 2, chain.nodes))
      && (p < |f| && f[p] == NODE_END ==> r == Body(if setPropsSize then propsSize else p - start - 2, children, p + 1))
      && (p < |f| && f[p] == ESCAPE_CHAR ==>
            r == if p + 1 >= |f| then BadBody else ParseBody(f, p + 2, start, setPropsSize, propsSize, children))
      && (p < |f| && !Special(f[p]) ==> r == ParseBody(f, p + 1, start, setPropsSize, propsSize, children))
  {
  }

  // ---- parsing undoes encoding ----------------------------------------------------------

  predicate At(f: seq<byte>, p: nat, s: seq<byte>) {
    p + |s| <= |f| && f[p..p + |s|] == s
  }

  lemma AtSplit(f: seq<byte>, p: nat, a: seq<byte>, b: seq<byte>)
    requires At(f, p, a + b)
    ensures At(f, p, a) && At(f, p + |a|, b)
  {
    assert (a + b)[..|a|] == a && (a + b)[|a|..] == b;
    assert f[p..p + |a + b|][..|a|] == f[p..p + |a|];
    assert f[p..p + |a + b|][|a|..] == f[p + |a|..p + |a| + |b|];
  }

  /** What the parser should record of a tree written at offset `at`. */
  function RawOf(t: Tree, at: nat): Raw
    decreases t, 0
  {
    Raw(at, |t.props|, t.kind, RawAll(t.children, at + 2 + |t.props|))
  }

  function RawAll(ts: seq<Tree>, at: nat): seq<Raw>
    decreases ts, 1
  {
    if ts == [] then [] else [RawOf(ts[0], at)] + RawAll(ts[1..], at + |Text(ts[0])|)
  }

  /** Clean properties are skipped without a trace, whatever their bytes. */
  lemma {:induction false} BodySkipsProps(f: seq<byte>, p: nat, props: seq<byte>, start: nat)
    requires At(f, p, props) && Clean(props)
    ensures ParseBody(f, p, start, false, 0, []) == ParseBody(f, p + |props|, start, false, 0, [])
    decreases |props|
  {
    if props != [] {
      var n := if props[0] == ESCAPE_CHAR then 2 else 1;
      assert props == props[..n] + props[n..];
      AtSplit(f, p, props[..n], props[n..]);
      assert f[p..p + n] == props[..n];
      assert f[p] == props[0];
      BodySkipsProps(f, p + n, props[n..], start);
    }
  }

  /** Where the parts of a written tree are. */
  lemma TreeParts(f: seq<byte>, at: nat, t: Tree)
    requires At(f, at, Text(t))
    ensures At(f, at + 2, t.props) && At(f, at + 2 + |t.props|, TextAll(t.children))
    ensures var last := at + 2 + |t.props| + |TextAll(t.children)|;
      last + 1 == at + |Text(t)| && last < |f| && f[last] == NODE_END
    ensures f[at] == NODE_START && f[at + 1] == t.kind
  {
    var head, props, kids := [NODE_START, t.kind], t.props, TextAll(t.children);
    AtSplit(f, at, head + props + kids, [NODE_END]);
    AtSplit(f, at, head + props, kids);
    AtSplit(f, at, head, props);
    assert f[at..at + 2][0] == head[0] && f[at..at + 2][1] == head[1];
    var last := at + 2 + |props| + |kids|;
    assert f[last..last + 1][0] == NODE_END;
  }

  /** One tree, whatever follows it. */
  lemma {:induction false} BodyOfTree(f: seq<byte>, at: nat, t: Tree)
    requires At(f, at, Text(t)) && CleanTree(t)
    ensures ParseBody(f, at + 2, at, false, 0, []) ==
      Body(|t.props|, RawAll(t.children, at + 2 + |t.props|), at + |Text(t)|)
    ensures f[at] == NODE_START && f[at + 1] == t.kind
    decreases t, 0
  {
    TreeParts(f, at, t);
    BodyOfParts(f, at, t.props, t.children, at + 2 + |t.props|, at + |Text(t)|);
  }

  lemma {:induction false} BodyOfParts(f: seq<byte>, at: nat, props: seq<byte>, ts: seq<Tree>, q: nat, end: nat)
    requires Clean(props) && CleanAll(ts) && At(f, at + 2, props) && q == at + 2 + |props| && At(f, q, TextAll(ts))
    requires end == q + |TextAll(ts)| + 1 && end <= |f| && f[end - 1] == NODE_END
    ensures ParseBody(f, at + 2, at, false, 0, []) == Body(|props|, RawAll(ts, q), end)
    decreases ts, 3
  {
    BodySkipsProps(f, at + 2, props, at);
    BodyAfterProps(f, at, q, |props|, ts, end);
  }

  lemma {:induction false} BodyAfterProps(f: seq<byte>, at: nat, q: nat, size: nat, ts: seq<Tree>, end: nat)
    requires q == at + 2 + size && CleanAll(ts) && At(f, q, TextAll(ts)) && end == q + |TextAll(ts)| + 1
    requires end <= |f| && f[end - 1] == NODE_END
    ensures ParseBody(f, q, at, false, 0, []) == Body(size, RawAll(ts, q), end)
    decreases ts, 2
  {
    if ts != [] {
      ChainOfTrees(f, q, ts);
      FirstByte(f, q, ts);
      BodyOfChildren(f, at, q, ts);
    } else {
      assert TextAll(ts) == [];
      BodyUnfolds(f, q, at, false, 0, []);
    }
  }

  lemma BodyOfChildren(f: seq<byte>, at: nat, q: nat, ts: seq<Tree>)
    requires at + 2 <= q < |f| && f[q] == NODE_START
    requires var last := q + |TextAll(ts)|; last < |f| && f[last] == NODE_END
    requires ParseChain(f, q + 1, q) == Parsed(RawAll(ts, q), q + |TextAll(ts)|)
    ensures ParseBody(f, q, at, false, 0, []) == Body(q - at - 2, RawAll(ts, q), q + |TextAll(ts)| + 1)
  {
    BodyUnfolds(f, q, at, false, 0, []);
    BodyUnfolds(f, q + |TextAll(ts)|, at, true, q - at - 2, RawAll(ts, q));
  }

  lemma FirstByte(f: seq<byte>, at: nat, ts: seq<Tree>)
    requires ts != [] && At(f, at, TextAll(ts))
    ensures at < |f| && f[at] == NODE_START
  {
    AtSplit(f, at, Text(ts[0]), TextAll(ts[1..]));
    assert f[at..at + |Text(ts[0])|][0] == NODE_START;
  }

  /** For every forest: the parser rebuilds exactly the trees written, and stops in
      front of the end byte that follows them (or at the end of the file). */
  lemma {:induction false} ChainOfTrees(f: seq<byte>, at: nat, ts: seq<Tree>)
    requires ts != [] && CleanAll(ts) && At(f, at, TextAll(ts))
    requires var next := at + |TextAll(ts)|; next == |f| || f[next] == NODE_END
    ensures ParseChain(f, at + 1, at) == Parsed(RawAll(ts, at), at + |TextAll(ts)|)
    decreases ts, 1
  {
    var first, rest := ts[0], ts[1..];
    AtSplit(f, at, Text(first), TextAll(rest));
    BodyOfTree(f, at, first);
    var next := at + |Text(first)|;
    if rest != [] {
      FirstByte(f, next, rest);
      ChainOfTrees(f, next, rest);
    } else {
      assert TextAll(rest) == [];
    }
    ChainOfFirst(f, at, first, rest, next);
    AllParts(ts, at, next);
  }

  lemma {:induction false} AllParts(ts: seq<Tree>, at: nat, next: nat)
    requires ts != [] && next == at + |Text(ts[0])|
    ensures RawAll(ts, at) == [RawOf(ts[0], at)] + RawAll(ts[1..], next)
    ensures at + |TextAll(ts)| == next + |TextAll(ts[1..])|
    ensures |ts| == 1 ==> RawAll(ts, at) == [RawOf(ts[0], at)]
  {
  }

  lemma ChainOfFirst(f: seq<byte>, at: nat, first: Tree, rest: seq<Tree>, next: nat)
    requires at + 2 <= next <= |f| && f[at + 1] == first.kind
    requires ParseBody(f, at + 2, at, false, 0, []) ==
      Body(|first.props|, RawAll(first.children, at + 2 + |first.props|), next)
    requires rest == [] ==> next == |f| || f[next] == NODE_END
    requires rest != [] ==> next < |f| && f[next] == NODE_START && ParseChain(f, next + 1, next).Parsed?
    ensures rest == [] ==> ParseChain(f, at + 1, at) == Parsed([RawOf(first, at)], next)
    ensures rest != [] ==>
      ParseChain(f, at + 1, at) == Parsed([RawOf(first, at)] + ParseChain(f, next + 1, next).nodes,
        ParseChain(f, next + 1, next).pos)
  {
  }

  // ---- unescaping -------------------------------------------------------------------------

  /** What `getProps` makes of raw property bytes; a final lone escape byte would
      take whatever comes next, `beyond`. */
  function Unescape(raw: seq<byte>, beyond: byte): seq<byte> {
    if raw == [] then []
    else if raw[0] == ESCAPE_CHAR then
      if |raw| == 1 then [beyond] else [raw[1]] + Unescape(raw[2..], beyond)
    else [raw[0]] + Unescape(raw[1..], beyond)
  }

  lemma {:induction false} UnescapeEscape(props: seq<byte>, beyond: byte)
    ensures Unescape(Escape(props), beyond) == props
  {
    if props != [] {
      UnescapeEscape(props[1..], beyond);
      if Special(props[0]) {
        assert Escape(props)[2..] == Escape(props[1..]);
      } else {
        assert Escape(props)[1..] == Escape(props[1..]);
      }
    }
  }

  /** Raw records and trees agree: same shape, same types, and the recorded bytes are
      the raw properties. */
  ghost predicate Faithful(f: seq<byte>, raws: seq<Raw>, ts: seq<Tree>)
    decreases ts, 1
  {
    if ts == [] then raws == []
    else raws != [] && FaithfulTree(f, raws[0], ts[0]) && Faithful(f, raws[1..], ts[1..])
  }

  ghost predicate FaithfulTree(f: seq<byte>, raw: Raw, t: Tree)
    decreases t, 0
  {
    && raw.kind == t.kind
    && 0 <= raw.propsSize && raw.start + 2 + raw.propsSize <= |f|
    && f[raw.start + 2..raw.start + 2 + raw.propsSize] == t.props
    && Faithful(f, raw.children, t.children)
  }

  lemma {:induction false} RawTreeFaithful(f: seq<byte>, at: nat, t: Tree)
    requires At(f, at, Text(t))
    ensures FaithfulTree(f, RawOf(t, at), t)
    decreases t, 0
  {
    TreeParts(f, at, t);
    RawsFaithful(f, at + 2 + |t.props|, t.children);
  }

  lemma {:induction false} RawsFaithful(f: seq<byte>, at: nat, ts: seq<Tree>)
    requires At(f, at, TextAll(ts))
    ensures Faithful(f, RawAll(ts, at), ts)
    decreases ts, 1
  {
    if ts != [] {
      var next := at + |Text(ts[0])|;
      AtSplit(f, at, Text(ts[0]), TextAll(ts[1..]));
      RawTreeFaithful(f, at, ts[0]);
      RawsFaithful(f, next, ts[1..]);
      assert RawAll(ts, at)[1..] == RawAll(ts[1..], next);
    }
  }

  /** For every forest: a file holding its four-byte identifier and its trees, escaped, parses
      to exactly those trees, each record giving the escaped bytes of that tree's properties. */
  lemma {:induction false} FileOfTrees(id: seq<byte>, ts: seq<Tree>)
    requires |id| == 4 && ts != []
    ensures var f, written := id + TextAll(EscapedAll(ts)), EscapedAll(ts);
      && |f| > 4 && f[4] == NODE_START
      && ParseChain(f, 5, 4) == Parsed(RawAll(written, 4), |f|)
      && Faithful(f, RawAll(written, 4), written)
  {
    var written := EscapedAll(ts);
    var f := id + TextAll(written);
    assert f[4..4 + |TextAll(written)|] == TextAll(written);
    EscapedIsClean(ts);
    TreesAtEnd(f, 4, written);
  }

  lemma {:induction false} TreesAtEnd(f: seq<byte>, at: nat, ts: seq<Tree>)
    requires ts != [] && CleanAll(ts) && At(f, at, TextAll(ts)) && |f| == at + |TextAll(ts)|
    ensures at < |f| && f[at] == NODE_START
    ensures ParseChain(f, at + 1, at) == Parsed(RawAll(ts, at), |f|) && Faithful(f, RawAll(ts, at), ts)
  {
    FirstByte(f, at, ts);
    ChainOfTrees(f, at, ts);
    RawsFaithful(f, at, ts);
  }

  // ---- what any file gives, well written or not ------------------------------------------------

  /** Raw bytes in which every escape byte has its byte to escape. */
  predicate Whole(s: seq<byte>) {
    if s == [] then true
    else if s[0] == ESCAPE_CHAR then |s| >= 2 && Whole(s[2..])
    else Whole(s[1..])
  }

  lemma {:induction false} WholeJoins(s: seq<byte>, t: seq<byte>)
    requires Whole(s) && Whole(t)
    ensures Whole(s + t)
    decreases |s|
  {
    if s == [] {
      assert s + t == t;
    } else {
      var k := if s[0] == ESCAPE_CHAR then 2 else 1;
      assert (s + t)[k..] == s[k..] + t;
      WholeJoins(s[k..], t);
    }
  }

  /** Whole bytes are unescaped without looking beyond them. */
  lemma {:induction false} WholeUnescapes(raw: seq<byte>, a: byte, b: byte)
    requires Whole(raw)
    ensures Unescape(raw, a) == Unescape(raw, b)
    decreases |raw|
  {
    if raw != [] {
      WholeUnescapes(raw[if raw[0] == ESCAPE_CHAR then 2 else 1..], a, b);
    }
  }

  /** Properties of `size` bytes from `at` lie in the file, whole. */
  predicate PropsIn(f: seq<byte>, at: nat, size: int) {
    0 <= size && at + size <= |f| && Whole(f[at..at + size])
  }

  ghost predicate InFile(f: seq<byte>, raws: seq<Raw>)
    decreases raws
  {
    raws == [] ||
    (PropsIn(f, raws[0].start + 2, raws[0].propsSize) && InFile(f, raws[0].children) && InFile(f, raws[1..]))
  }

  /** A chain ends in front of an end byte or with the file. */
  lemma {:induction false} ChainEnds(f: seq<byte>, p: nat, start: nat)
    ensures var r := ParseChain(f, p, start); r.Parsed? ==> r.pos >= |f| || f[r.pos] == NODE_END
    decreases |f| - p
  {
    ChainUnfolds(f, p, start);
    if p < |f| {
      var b := ParseBody(f, p + 1, start, false, 0, []);
      if b.Body? && b.pos < |f| && f[b.pos] == NODE_START { ChainEnds(f, b.pos + 1, b.pos); }
    }
  }

  /** Whatever the file: every node of a chain that parses has its properties in the file. */
  lemma {:induction false} ChainInFile(f: seq<byte>, p: nat)
    requires p > 0
    ensures var r := ParseChain(f, p, p - 1); r.Parsed? ==> InFile(f, r.nodes)
    decreases |f| - p, 0
  {
    ChainUnfolds(f, p, p - 1);
    if p < |f| {
      var b := ParseBody(f, p + 1, p - 1, false, 0, []);
      assert f[p + 1..p + 1] == [];
      BodyInFile(f, p + 1, p - 1, false, 0, []);
      if b.Body? {
        var node := Raw(p - 1, b.propsSize, f[p], b.children);
        InFileJoins(f, node, []);
        assert [node] + [] == [node];
        if b.pos < |f| && f[b.pos] == NODE_START {
          ChainInFile(f, b.pos + 1);
          var rest := ParseChain(f, b.pos + 1, b.pos);
          if rest.Parsed? { InFileJoins(f, node, rest.nodes); }
        }
      }
    }
  }

  lemma {:induction false} InFileJoins(f: seq<byte>, node: Raw, rest: seq<Raw>)
    requires PropsIn(f, node.start + 2, node.propsSize) && InFile(f, node.children) && InFile(f, rest)
    ensures InFile(f, [node] + rest)
  {
    assert ([node] + rest)[1..] == rest;
  }

  lemma {:induction false} BodyInFile(f: seq<byte>, p: nat, start: nat, setPropsSize: bool, propsSize: int,
                                      children: seq<Raw>)
    requires start + 2 <= p && InFile(f, children)
    requires setPropsSize ==> PropsIn(f, start + 2, propsSize) && (p >= |f| || f[p] == NODE_END)
    requires !setPropsSize && p <= |f| ==> Whole(f[start + 2..p])
    ensures var r := ParseBody(f, p, start, setPropsSize, propsSize, children);
      r.Body? ==> PropsIn(f, start + 2, r.propsSize) && InFile(f, r.children)
    decreases |f| - p, 1
  {
    BodyUnfolds(f, p, start, setPropsSize, propsSize, children);
    if p >= |f| {
    } else if f[p] == NODE_START {
      ChainInFile(f, p + 1);
      var chain := ParseChain(f, p + 1, p);
      if chain.Parsed? {
        ChainEnds(f, p + 1, p);
        assert start + 2 + (p - start - 2) == p;
        BodyInFile(f, chain.pos, start, true, p - start - 2, chain.nodes);
      }
    } else if f[p] != NODE_END {
      var q := if f[p] == ESCAPE_CHAR then p + 2 else p + 1;
      if p + 1 < |f| || f[p] != ESCAPE_CHAR {
        if q <= |f| { OneMoreWhole(f, start + 2, p, q); }
        BodyInFile(f, q, start, setPropsSize, propsSize, children);
      }
    }
  }

  lemma {:induction false} OneMoreWhole(f: seq<byte>, at: nat, p: nat, q: nat)
    requires at <= p < q <= |f| && Whole(f[at..p]) && q == if f[p] == ESCAPE_CHAR then p + 2 else p + 1
    ensures Whole(f[at..q])
  {
    assert f[p..q][q - p..] == [];
    WholeJoins(f[at..p], f[p..q]);
    assert f[at..p] + f[p..q] == f[at..q];
  }

  // ---- exactly which bytes parse --------------------------------------------------------------------

  /** The text of the forest `ts` stands at `at`, and ends in front of an end byte or with
      the file. */
  predicate Stands(f: seq<byte>, at: nat, ts: seq<Tree>) {
    && ts != [] && CleanAll(ts) && At(f, at, TextAll(ts))
    && var end := at + |TextAll(ts)|; end == |f| || f[end] == NODE_END
  }

  lemma AtJoin(f: seq<byte>, p: nat, a: seq<byte>, b: seq<byte>)
    requires At(f, p, a) && At(f, p + |a|, b)
    ensures At(f, p, a + b)
  {
    assert f[p..p + |a + b|] == f[p..p + |a|] + f[p + |a|..p + |a| + |b|];
  }

  /** Whatever parses as a chain is the text of a forest. */
  lemma {:induction false} ChainIsText(f: seq<byte>, p: nat) returns (ts: seq<Tree>)
    requires 0 < p <= |f| && f[p - 1] == NODE_START && ParseChain(f, p, p - 1).Parsed?
    ensures Stands(f, p - 1, ts) && ParseChain(f, p, p - 1).pos == p - 1 + |TextAll(ts)|
    decreases |f| - p, 0
  {
    ChainUnfolds(f, p, p - 1);
    var end := ParseBody(f, p + 1, p - 1, false, 0, []).pos;
    var props, kids := BodyIsText(f, p + 1, p - 1);
    var node := Tree(f[p], props, kids);
    TextOfNode(f, p, node, end);
    ChainEnds(f, p, p - 1);
    if end < |f| && f[end] == NODE_START {
      var rest := ChainIsText(f, end + 1);
      ts := [node] + rest;
      NodeBefore(f, p - 1, node, rest, end);
    } else {
      ts := [node];
      OneText(node);
    }
  }

  lemma {:induction false} OneText(node: Tree)
    requires CleanTree(node)
    ensures CleanAll([node]) && TextAll([node]) == Text(node)
  {
    assert TextAll([node]) == Text(node) + TextAll([]);
  }

  lemma {:induction false} NodeBefore(f: seq<byte>, at: nat, node: Tree, rest: seq<Tree>, end: nat)
    requires CleanTree(node) && At(f, at, Text(node)) && end == at + |Text(node)| && Stands(f, end, rest)
    ensures Stands(f, at, [node] + rest) && |TextAll([node] + rest)| == |Text(node)| + |TextAll(rest)|
  {
    var ts := [node] + rest;
    assert ts[1..] == rest;
    assert TextAll(ts) == Text(node) + TextAll(rest);
    AtJoin(f, at, Text(node), TextAll(rest));
  }

  lemma {:induction false} TextOfNode(f: seq<byte>, p: nat, node: Tree, end: nat)
    requires 0 < p < |f| && f[p - 1] == NODE_START && f[p] == node.kind
    requires Rest(f, p + 1, node.props, node.children, end)
    ensures CleanTree(node) && At(f, p - 1, Text(node)) && end == p - 1 + |Text(node)|
  {
    var head, body := [NODE_START, node.kind], node.props + TextAll(node.children) + [NODE_END];
    assert f[p - 1..p + 1] == head;
    AtJoin(f, p - 1, head, body);
    assert head + body == Text(node);
  }

  /** From `p` to `end`: clean properties, the text of a forest, and an end byte. */
  predicate Rest(f: seq<byte>, p: nat, props: seq<byte>, ts: seq<Tree>, end: nat) {
    && Clean(props) && CleanAll(ts) && At(f, p, props + TextAll(ts) + [NODE_END])
    && end == p + |props| + |TextAll(ts)| + 1
  }

  /** Whatever parses as the rest of a node is clean properties, a forest and an end byte. */
  lemma {:induction false} BodyIsText(f: seq<byte>, p: nat, start: nat) returns (props: seq<byte>, ts: seq<Tree>)
    requires p <= |f| && ParseBody(f, p, start, false, 0, []).Body?
    ensures Rest(f, p, props, ts, ParseBody(f, p, start, false, 0, []).pos)
    decreases |f| - p, 1
  {
    BodyUnfolds(f, p, start, false, 0, []);
    var end := ParseBody(f, p, start, false, 0, []).pos;
    props, ts := [], [];
    if f[p] == NODE_START {
      ts := ChainIsText(f, p + 1);
      var chain := ParseChain(f, p + 1, p);
      BodyUnfolds(f, chain.pos, start, true, p - start - 2, chain.nodes);
      ForestThenEnd(f, p, ts);
    } else if f[p] == NODE_END {
      assert f[p..p + 1] == [NODE_END];
    } else {
      var n := if f[p] == ESCAPE_CHAR then 2 else 1;
      var more;
      more, ts := BodyIsText(f, p + n, start);
      props := f[p..p + n] + more;
      PropsBefore(f, p, n, more, ts, end);
    }
  }

  lemma {:induction false} ForestThenEnd(f: seq<byte>, p: nat, ts: seq<Tree>)
    requires Stands(f, p, ts) && p + |TextAll(ts)| < |f|
    ensures Rest(f, p, [], ts, p + |TextAll(ts)| + 1)
  {
    var q := p + |TextAll(ts)|;
    assert f[q..q + 1] == [NODE_END];
    AtJoin(f, p, TextAll(ts), [NODE_END]);
    assert [] + TextAll(ts) + [NODE_END] == TextAll(ts) + [NODE_END];
  }

  lemma {:induction false} PropsBefore(f: seq<byte>, p: nat, n: nat, more: seq<byte>, ts: seq<Tree>, end: nat)
    requires p < |f| && Rest(f, p + n, more, ts, end)
    requires if f[p] == ESCAPE_CHAR then n == 2 else n == 1 && !Special(f[p])
    ensures p + n <= |f| && Rest(f, p, f[p..p + n] + more, ts, end)
  {
    var head, body := f[p..p + n], more + TextAll(ts) + [NODE_END];
    AtJoin(f, p, head, body);
    assert head + body == head + more + TextAll(ts) + [NODE_END];
    assert (head + more)[n..] == more;
  }

  /** The parser makes of the bytes at `at` the records of that forest, up to its end. */
  predicate ParsesTo(f: seq<byte>, at: nat, ts: seq<Tree>) {
    ParseChain(f, at + 1, at) == Parsed(RawAll(ts, at), at + |TextAll(ts)|)
  }

  lemma {:induction false} StandsParses(f: seq<byte>, at: nat, ts: seq<Tree>)
    requires Stands(f, at, ts)
    ensures ParsesTo(f, at, ts)
  {
    StandsEnds(f, at, ts);
    ChainOfTrees(f, at, ts);
  }

  lemma {:induction false} StandsEnds(f: seq<byte>, at: nat, ts: seq<Tree>)
    requires Stands(f, at, ts)
    ensures ts != [] && CleanAll(ts) && At(f, at, TextAll(ts))
    ensures var next := at + |TextAll(ts)|; next == |f| || f[next] == NODE_END
  {
  }

  /** From a start byte on, for any bytes: they parse if and only if they begin with the text of
      a forest, its properties clean, that ends in front of an end byte or with the file; and
      then to that forest. */
  lemma {:induction false} ParsesExactly(f: seq<byte>, at: nat)
    requires at < |f| && f[at] == NODE_START
    ensures ParseChain(f, at + 1, at).Parsed? <==> exists ts :: Stands(f, at, ts)
    ensures forall ts :: Stands(f, at, ts) ==> ParsesTo(f, at, ts)
  {
    forall ts | Stands(f, at, ts)
      ensures ParsesTo(f, at, ts)
    {
      StandsParses(f, at, ts);
    }
    if ParseChain(f, at + 1, at).Parsed? {
      var ts := ChainIsText(f, at + 1);
    } else {
      assert forall ts :: Stands(f, at, ts) ==> ParsesTo(f, at, ts);
    }
  }
}
