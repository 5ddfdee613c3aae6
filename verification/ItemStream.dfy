/** Nested items as a byte stream (`IOMapSerialize::saveItem` and `loadItem`). */
module ItemStream {
  import opened Bytes
  import opened Attributes
  import opened AttributeTrip
  import opened Options
  import opened Sequences

  /** The item table: which kinds of item the server knows. */
  type Types = map<nat, Kind>

  // ---- writing --------------------------------------------------------------------------

  function Encoded(x: Item): seq<byte>
    decreases x, 0
  {
    LE(x.kind.id, 2) + SavedAttrs(x)
      + (if x.kind.isContainer then [ATTR_CONTAINER_ITEMS] + LE(|x.contents|, 4) + EncodedBack(x.contents) else [])
      + [0]
  }

  /** Contents are written last first. */
  function EncodedBack(xs: seq<Item>): seq<byte>
    decreases xs, 1
  {
    if xs == [] then [] else Encoded(xs[|xs| - 1]) + EncodedBack(xs[..|xs| - 1])
  }

  // ---- reading ---------------------------------------------------------------------------

  datatype One = OneFailed | OneLoaded(item: Option<Item>, rest: seq<byte>)

  datatype Many = ManyFailed | ManyLoaded(items: seq<Item>, rest: seq<byte>)

  /** `loadItem`: an id the item table does not know yields no item, and its attributes
      stay in the stream. */
  function LoadOne(types: Types, s: seq<byte>): (r: One)
    ensures r.OneLoaded? ==> |r.rest| < |s|
    decreases |s|, 0
  {
    if |s| < 2 then OneFailed
    else if FromLE(s[..2]) !in types then OneLoaded(None, s[2..])
    else
      match ReadAttrs(Created(types[FromLE(s[..2])]), s[2..])
      case AttrError => OneFailed
      case AttrDone(x, rest, nested) =>
        if !x.kind.isContainer then OneLoaded(Some(x), rest)
        else Finish(x, LoadMany(types, rest, if nested.Some? then nested.value else 0, []))
  }

  /** The contents are in; one zero byte must close them. */
  function Finish(x: Item, r: Many): One {
    if r.ManyFailed? || r.rest == [] || r.rest[0] != 0 then OneFailed
    else OneLoaded(Some(x.(contents := r.items)), r.rest[1..])
  }

  /** `loadContainer`: each loaded item goes to the front. */
  function LoadMany(types: Types, s: seq<byte>, n: nat, done: seq<Item>): (r: Many)
    ensures r.ManyLoaded? ==> |r.rest| <= |s|
    decreases |s|, 1
  {
    if n == 0 then ManyLoaded(done, s)
    else
      match LoadOne(types, s)
      case OneFailed => ManyFailed
      case OneLoaded(item, rest) => LoadMany(types, rest, n - 1, Front(item, done))
  }

  function Front(item: Option<Item>, done: seq<Item>): seq<Item> {
    if item.Some? then [item.value] + done else done
  }

  // ---- the round trip ---------------------------------------------------------------------

  /** An item tree as the server holds it: every row known, only containers hold items. */
  ghost predicate Known(types: Types, x: Item)
    decreases x, 0
  {
    && x.kind.id < 0x1_0000 && x.kind.id in types && types[x.kind.id] == x.kind
    && (x.contents != [] ==> x.kind.isContainer)
    && |x.contents| < 0x1_0000_0000
    && KnownAll(types, x.contents)
  }

  ghost predicate KnownAll(types: Types, xs: seq<Item>)
    decreases xs, 1
  {
    xs == [] || (Known(types, xs[|xs| - 1]) && KnownAll(types, xs[..|xs| - 1]))
  }

  /** The tree that comes back: the same shape and order, each item restored. */
  function Tree(x: Item): Item
    decreases x, 0
  {
    Restored(x).(contents := Trees(x.contents))
  }

  function Trees(xs: seq<Item>): seq<Item>
    decreases xs, 1
  {
    if xs == [] then [] else Trees(xs[..|xs| - 1]) + [Tree(xs[|xs| - 1])]
  }

  /** The bytes of an item once its attributes are written. */
  function Around(kind: Kind, attrs: seq<byte>, contents: seq<Item>, tail: seq<byte>): seq<byte> {
    LE(kind.id, 2) + (attrs + After(kind, contents, tail))
  }

  function After(kind: Kind, contents: seq<Item>, tail: seq<byte>): seq<byte> {
    (if kind.isContainer
     then [ATTR_CONTAINER_ITEMS] + LE(|contents|, 4) + EncodedBack(contents) else [])
    + ([0] + tail)
  }

  lemma EncodedAround(x: Item, tail: seq<byte>)
    ensures Encoded(x) + tail == Around(x.kind, SavedAttrs(x), x.contents, tail)
  {
    var inner := if x.kind.isContainer
      then [ATTR_CONTAINER_ITEMS] + LE(|x.contents|, 4) + EncodedBack(x.contents) else [];
    EncodedAs(x, SavedAttrs(x), inner, tail);
  }

  lemma EncodedAs(x: Item, attrs: seq<byte>, inner: seq<byte>, tail: seq<byte>)
    ensures LE(x.kind.id, 2) + attrs + inner + [0] + tail
         == LE(x.kind.id, 2) + (attrs + (inner + ([0] + tail)))
  {
  }

  /** Loading once the id and the attributes have been read. */
  lemma OneAfterAttrs(types: Types, s: seq<byte>, id: nat, body: seq<byte>, x: Item, rest: seq<byte>,
                      nested: Option<nat>)
    requires |s| >= 2 && FromLE(s[..2]) == id && s[2..] == body && id in types
    requires ReadAttrs(Created(types[id]), body) == AttrDone(x, rest, nested)
    ensures LoadOne(types, s) ==
      if !x.kind.isContainer then OneLoaded(Some(x), rest)
      else Finish(x, LoadMany(types, rest, if nested.Some? then nested.value else 0, []))
  {
  }

  lemma ManyStep(types: Types, s: seq<byte>, n: nat, done: seq<Item>, item: Option<Item>, rest: seq<byte>)
    requires n > 0 && LoadOne(types, s) == OneLoaded(item, rest)
    ensures LoadMany(types, s, n, done) == LoadMany(types, rest, n - 1, Front(item, done))
  {
  }

  lemma {:induction false} TreeLoads(types: Types, x: Item, tail: seq<byte>)
    requires Known(types, x)
    ensures LoadOne(types, Encoded(x) + tail) == OneLoaded(Some(Tree(x)), tail)
    decreases x, 0
  {
    var after := After(x.kind, x.contents, tail);
    EncodedAround(x, tail);
    AttrsReadBack(x, after);
    RestoredShape(x);
    if x.kind.isContainer {
      TreesLoad(types, x.contents, [0] + tail, []);
      ContainerLoads(types, x.kind, SavedAttrs(x), Restored(x), x.contents, tail);
    } else {
      LeafLoads(types, x.kind, SavedAttrs(x), Restored(x), tail);
    }
    SameTree(x, Restored(x));
  }

  lemma SameTree(x: Item, y: Item)
    requires Restored(x) == y && y.contents == []
    ensures Tree(x) == y.(contents := Trees(x.contents)) && (x.contents == [] ==> Tree(x) == y)
  {
  }

  lemma {:induction false} ContainerLoads(types: Types, kind: Kind, attrs: seq<byte>, y: Item,
                                          contents: seq<Item>, tail: seq<byte>)
    requires kind.id < 0x1_0000 && kind.id in types && types[kind.id] == kind && kind.isContainer
    requires |contents| < 0x1_0000_0000 && y.kind == kind
    requires ReadAttrs(Created(kind), attrs + After(kind, contents, tail)) == ReadAttrs(y, After(kind, contents, tail))
    requires LoadMany(types, EncodedBack(contents) + ([0] + tail), |contents|, []) ==
      ManyLoaded(Trees(contents) + [], [0] + tail)
    ensures LoadOne(types, Around(kind, attrs, contents, tail)) ==
      OneLoaded(Some(y.(contents := Trees(contents))), tail)
  {
    var back := EncodedBack(contents) + ([0] + tail);
    var after := After(kind, contents, tail);
    IdRead(kind.id, attrs + after);
    Associate([ATTR_CONTAINER_ITEMS] + LE(|contents|, 4), EncodedBack(contents), [0] + tail);
    CountRead(y, |contents|, back);
    OneAfterAttrs(types, Around(kind, attrs, contents, tail), kind.id, attrs + after, y, back, Some(|contents|));
    assert Trees(contents) + [] == Trees(contents);
    FinishTree(y, Trees(contents), tail);
  }

  lemma FinishTree(y: Item, contents: seq<Item>, tail: seq<byte>)
    ensures Finish(y, ManyLoaded(contents, [0] + tail)) == OneLoaded(Some(y.(contents := contents)), tail)
  {
  }

  lemma {:induction false} LeafLoads(types: Types, kind: Kind, attrs: seq<byte>, y: Item, tail: seq<byte>)
    requires kind.id < 0x1_0000 && kind.id in types && types[kind.id] == kind && !kind.isContainer && y.kind == kind
    requires ReadAttrs(Created(kind), attrs + After(kind, [], tail)) == ReadAttrs(y, After(kind, [], tail))
    ensures LoadOne(types, Around(kind, attrs, [], tail)) == OneLoaded(Some(y), tail)
  {
    var after := After(kind, [], tail);
    IdRead(kind.id, attrs + after);
    assert after == [0] + tail;
    assert ReadAttrs(y, [0] + tail) == AttrDone(y, tail, None) by { assert ([0] + tail)[1..] == tail; }
    OneAfterAttrs(types, Around(kind, attrs, [], tail), kind.id, attrs + after, y, tail, None);
  }

  lemma IdRead(id: nat, rest: seq<byte>)
    requires id < 0x1_0000
    ensures var s := LE(id, 2) + rest; |s| >= 2 && FromLE(s[..2]) == id && s[2..] == rest
  {
    Powers();
    FromLEInvertsLE(id, 2);
    assert (LE(id, 2) + rest)[..2] == LE(id, 2);
  }

  lemma CountRead(x: Item, n: nat, rest: seq<byte>)
    requires n < 0x1_0000_0000 && x.kind.isContainer
    ensures ReadAttrs(x, [ATTR_CONTAINER_ITEMS] + LE(n, 4) + rest) == AttrDone(x, rest, Some(n))
  {
    Powers();
    FromLEInvertsLE(n, 4);
    var s := [ATTR_CONTAINER_ITEMS] + LE(n, 4) + rest;
    assert s[1..5] == LE(n, 4) && s[5..] == rest;
  }

  lemma {:induction false} TreesLoad(types: Types, xs: seq<Item>, tail: seq<byte>, done: seq<Item>)
    requires KnownAll(types, xs)
    ensures LoadMany(types, EncodedBack(xs) + tail, |xs|, done) == ManyLoaded(Trees(xs) + done, tail)
    decreases xs, 1
  {
    if xs == [] {
      assert EncodedBack(xs) + tail == tail && Trees(xs) + done == done;
    } else {
      var last, front := xs[|xs| - 1], xs[..|xs| - 1];
      TreeLoads(types, last, EncodedBack(front) + tail);
      BackSplits(xs, tail, done);
      ManyStep(types, EncodedBack(xs) + tail, |xs|, done, Some(Tree(last)), EncodedBack(front) + tail);
      TreesLoad(types, front, tail, [Tree(last)] + done);
    }
  }

  lemma BackSplits(xs: seq<Item>, tail: seq<byte>, done: seq<Item>)
    requires xs != []
    ensures var last, front := xs[|xs| - 1], xs[..|xs| - 1];
      && EncodedBack(xs) + tail == Encoded(last) + (EncodedBack(front) + tail)
      && Trees(xs) + done == Trees(front) + ([Tree(last)] + done)
  {
  }

  ghost predicate TypedTree(x: Item)
    decreases x, 0
  {
    Typed(x) && TypedTrees(x.contents)
  }

  ghost predicate TypedTrees(xs: seq<Item>)
    decreases xs, 1
  {
    xs == [] || (TypedTree(xs[|xs| - 1]) && TypedTrees(xs[..|xs| - 1]))
  }

  ghost predicate StorableTree(x: Item)
    requires TypedTree(x)
    decreases x, 0
  {
    Storable(x) && StorableTrees(x.contents)
  }

  ghost predicate StorableTrees(xs: seq<Item>)
    requires TypedTrees(xs)
    decreases xs, 1
  {
    xs == [] || (StorableTree(xs[|xs| - 1]) && StorableTrees(xs[..|xs| - 1]))
  }

  /** The tree that comes back is the tree that was saved if and only if every item in it
      is storable. */
  lemma {:induction false} TreeUnchanged(x: Item)
    requires TypedTree(x)
    ensures Tree(x) == x <==> StorableTree(x)
    decreases x, 0
  {
    StorableExactly(x);
    RestoredShape(x);
    TreesUnchanged(x.contents);
    SameTree(x, Restored(x));
    OwnAndNested(x, Restored(x), Trees(x.contents));
  }

  lemma OwnAndNested(x: Item, y: Item, contents: seq<Item>)
    requires y.contents == []
    ensures y.(contents := contents) == x <==> y == x.(contents := []) && contents == x.contents
  {
  }

  lemma {:induction false} TreesUnchanged(xs: seq<Item>)
    requires TypedTrees(xs)
    ensures Trees(xs) == xs <==> StorableTrees(xs)
    decreases xs, 1
  {
    if xs != [] {
      var last, front := xs[|xs| - 1], xs[..|xs| - 1];
      TreeUnchanged(last);
      TreesUnchanged(front);
      TreesLength(front);
      AppendSame(Trees(front), Tree(last), xs);
    }
  }

  lemma AppendSame(front: seq<Item>, last: Item, xs: seq<Item>)
    requires xs != [] && |front| == |xs| - 1
    ensures front + [last] == xs <==> front == xs[..|xs| - 1] && last == xs[|xs| - 1]
  {
    var s := front + [last];
    if s == xs {
      assert s[..|front|] == front;
    }
    assert xs == xs[..|xs| - 1] + [xs[|xs| - 1]];
  }

  lemma {:induction false} TreesLength(xs: seq<Item>)
    ensures |Trees(xs)| == |xs|
  {
    if xs != [] {
      TreesLength(xs[..|xs| - 1]);
    }
  }
}
