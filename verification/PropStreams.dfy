/** The property streams (`PropStream`, `PropWriteStream`), and items going through them. */
module PropStreams {
  import opened Bytes
  import opened Attributes
  import opened ItemStream
  import opened Options
  import opened Sequences

  class PropWriteStream {
    var buffer: seq<byte>

    constructor ()
      ensures buffer == []
    {
      buffer := [];
    }

    method Write(n: nat, k: nat)
      modifies this
      ensures buffer == old(buffer) + LE(n, k)
    {
      buffer := buffer + LE(n, k);
    }

    method WriteString(s: seq<byte>)
      modifies this
      ensures buffer == old(buffer) + (if |s| > 0xFFFF then LE(0, 2) else LE(|s|, 2) + s)
    {
      if |s| > 0xFFFF {
        Write(0, 2);
        return;
      }
      Write(|s|, 2);
      buffer := buffer + s;
    }

    method WriteValue(v: Val, w: Width)
      modifies this
      ensures buffer == old(buffer) + Payload(v, w)
    {
      match v
      case Num(n) => Write(n % Modulus(w), Size(w));
      case Str(s) => WriteString(s);
    }

    /** `Item::serializeAttr`. */
    method SerializeAttr(x: Item)
      modifies this
      ensures buffer == old(buffer) + SavedAttrs(x)
    {
      SerializeTags(x, SAVED_TAGS);
    }

    method SerializeTags(x: Item, tags: seq<byte>)
      modifies this
      ensures buffer == old(buffer) + SavedTags(x, tags)
    {
      var i := 0;
      assert tags[0..] == tags;
      while i < |tags|
        invariant 0 <= i <= |tags|
        invariant buffer + SavedTags(x, tags[i..]) == old(buffer) + SavedTags(x, tags)
      {
        assert tags[i..][1..] == tags[i + 1..];
        Associate(buffer, SavedTag(x, tags[i]), SavedTags(x, tags[i + 1..]));
        SerializeTag(x, tags[i]);
        i := i + 1;
      }
    }

    method SerializeTag(x: Item, tag: byte)
      modifies this
      ensures buffer == old(buffer) + SavedTag(x, tag)
    {
      match RowOf(tag)
      case None =>
      case Some(row) => if Writes(x, row) { WriteTagged(tag, Value(x, row), row.width); }
    }

    method WriteTagged(tag: byte, v: Val, w: Width)
      modifies this
      ensures buffer == old(buffer) + ([tag] + Payload(v, w))
    {
      Write(tag, 1);
      WriteValue(v, w);
      assert LE(tag, 1) == [tag];
    }

    /** `IOMapSerialize::saveItem`. */
    method SaveItem(x: Item)
      modifies this
      ensures buffer == old(buffer) + Encoded(x)
      decreases x, 0
    {
      ghost var before := buffer;
      Write(x.kind.id, 2);
      SerializeAttr(x);
      if x.kind.isContainer {
        SaveContainer(x.contents);
      }
      ghost var nested := if x.kind.isContainer then Announced(x.contents) else [];
      assert before + LE(x.kind.id, 2) + SavedAttrs(x) + [] == before + LE(x.kind.id, 2) + SavedAttrs(x);
      EncodedParts(x, before, nested);
      WriteEnd();
    }

    method WriteEnd()
      modifies this
      ensures buffer == old(buffer) + [0]
    {
      Write(0, 1);
      assert LE(0, 1) == [0];
    }

    /** The nested part of `saveItem`: tag, count and contents. */
    method SaveContainer(xs: seq<Item>)
      modifies this
      ensures buffer == old(buffer) + Announced(xs)
      decreases xs, 2
    {
      ghost var before := buffer;
      Write(ATTR_CONTAINER_ITEMS, 1);
      assert LE(ATTR_CONTAINER_ITEMS, 1) == [ATTR_CONTAINER_ITEMS];
      Write(|xs|, 4);
      SaveContents(xs);
      AnnouncedParts(xs, before);
    }

    method SaveContents(xs: seq<Item>)
      modifies this
      ensures buffer == old(buffer) + EncodedBack(xs)
      decreases xs, 1
    {
      var i := |xs|;
      assert xs[..i] == xs;
      while i > 0
        invariant 0 <= i <= |xs|
        invariant buffer + EncodedBack(xs[..i]) == old(buffer) + EncodedBack(xs)
      {
        i := i - 1;
        BackFrom(xs, i, buffer);
        SaveItem(xs[i]);
      }
    }
  }

  /** Tag, count and contents, as they are written. */
  function Announced(xs: seq<Item>): seq<byte> {
    [ATTR_CONTAINER_ITEMS] + LE(|xs|, 4) + EncodedBack(xs)
  }

  lemma {:induction false} AnnouncedParts(xs: seq<Item>, before: seq<byte>)
    ensures before + [ATTR_CONTAINER_ITEMS] + LE(|xs|, 4) + EncodedBack(xs) == before + Announced(xs)
  {
    Associate(before, [ATTR_CONTAINER_ITEMS], LE(|xs|, 4));
    Associate(before, [ATTR_CONTAINER_ITEMS] + LE(|xs|, 4), EncodedBack(xs));
  }

  lemma {:induction false} EncodedParts(x: Item, before: seq<byte>, nested: seq<byte>)
    requires nested == if x.kind.isContainer then Announced(x.contents) else []
    ensures before + LE(x.kind.id, 2) + SavedAttrs(x) + nested + [0] == before + Encoded(x)
  {
    var id, attrs := LE(x.kind.id, 2), SavedAttrs(x);
    Associate(before, id, attrs);
    Associate(before, id + attrs, nested);
    Associate(before, id + attrs + nested, [0]);
  }

  class PropStream {
    const data: seq<byte>
    var p: nat

    ghost predicate Valid() reads this { p <= |data| }

    ghost function Rest(): seq<byte> reads this requires Valid() { data[p..] }

    constructor (data: seq<byte>)
      ensures Valid() && Rest() == data
    {
      this.data := data;
      p := 0;
    }

    method Read(k: nat) returns (ok: bool, n: nat)
      requires Valid()
      modifies this
      ensures Valid() && ok == (|old(Rest())| >= k)
      ensures ok ==> n == FromLE(old(Rest())[..k]) && Rest() == old(Rest())[k..]
      ensures !ok ==> Rest() == old(Rest())
    {
      ok, n := false, 0;
      if |data| - p >= k {
        ok, n := true, FromLE(data[p..p + k]);
        assert data[p..][..k] == data[p..p + k];
        p := p + k;
      }
    }

    method ReadString() returns (ok: bool, s: seq<byte>)
      requires Valid()
      modifies this
      ensures Valid() && |Rest()| <= |old(Rest())| && ok == ReadVal(old(Rest()), Text).Some?
      ensures ok ==> ReadVal(old(Rest()), Text) == Some((Str(s), Rest()))
    {
      s := [];
      var n;
      ghost var r := Rest();
      ok, n := Read(2);
      if ok {
        ok := |data| - p >= n;
        if ok {
          s := data[p..p + n];
          p := p + n;
          assert s == r[2..2 + n] && Rest() == r[2 + n..];
        }
      }
    }

    method ReadValue(w: Width) returns (r: Option<Val>)
      requires Valid()
      modifies this
      ensures Valid() && |Rest()| <= |old(Rest())| && (r.Some? <==> ReadVal(old(Rest()), w).Some?)
      ensures r.Some? ==> ReadVal(old(Rest()), w) == Some((r.value, Rest()))
    {
      r := None;
      match w
      case Bytes(k) =>
        var ok, n := Read(k);
        if ok { r := Some(Num(n)); }
      case Signed32 =>
        var ok, n := Read(4);
        if ok { r := Some(Num(ToInt32(n))); }
      case Text =>
        var ok, s := ReadString();
        if ok { r := Some(Str(s)); }
    }

    method ReadTag() returns (ok: bool, tag: byte)
      requires Valid()
      modifies this
      ensures Valid() && ok == (old(Rest()) != [])
      ensures ok ==> old(Rest()) == [tag] + Rest()
      ensures !ok ==> Rest() == []
    {
      var n;
      ghost var s := Rest();
      ok, n := Read(1);
      tag := if ok then data[p - 1] else 0;
    }

    /** `Container::readAttr` on the count of contents; other items refuse it. */
    method ReadCount(x: Item) returns (ok: bool, nested: Option<nat>)
      requires Valid()
      modifies this
      ensures Valid() && |Rest()| <= |old(Rest())|
      ensures ReadAttrs(x, [ATTR_CONTAINER_ITEMS] + old(Rest())) ==
        if ok then AttrDone(x, Rest(), nested) else AttrError
    {
      ghost var s := [ATTR_CONTAINER_ITEMS] + Rest();
      assert s[1..] == Rest();
      ok, nested := false, None;
      if x.kind.isContainer {
        var n;
        assert |s| >= 5 ==> s[1..5] == Rest()[..4] && s[5..] == Rest()[4..];
        ok, n := Read(4);
        nested := Some(n);
      }
    }

    /** `Item::readAttr`. */
    method ReadAttr(y: Item, tag: byte) returns (ok: bool, x: Item)
      requires Valid() && tag != 0 && tag != ATTR_CONTAINER_ITEMS
      modifies this
      ensures Valid() && |Rest()| <= |old(Rest())|
      ensures ReadAttrs(y, [tag] + old(Rest())) == if ok then ReadAttrs(x, Rest()) else AttrError
    {
      ghost var s := Rest();
      ok, x := false, y;
      match RowOf(tag)
      case None =>
      case Some(row) =>
        var v := ReadValue(row.width);
        AttrUnfolds(y, tag, row, s);
        if v.Some? {
          ok, x := true, Store(y, row.place, v.value);
        }
    }

    /** `Item::unserializeAttr`. */
    method UnserializeAttr(made: Item) returns (ok: bool, x: Item, nested: Option<nat>)
      requires Valid()
      modifies this
      ensures Valid() && |Rest()| <= |old(Rest())|
      ensures ReadAttrs(made, old(Rest())) == if ok then AttrDone(x, Rest(), nested) else AttrError
    {
      x, nested := made, None;
      while true
        invariant Valid() && |Rest()| <= |old(Rest())|
        invariant ReadAttrs(x, Rest()) == ReadAttrs(made, old(Rest()))
        invariant nested == None
        decreases |Rest()|
      {
        StopUnfolds(x, Rest());
        var more, tag := ReadTag();
        if !more || tag == 0 { return true, x, nested; }
        if tag == ATTR_CONTAINER_ITEMS {
          ok, nested := ReadCount(x);
          return;
        }
        ok, x := ReadAttr(x, tag);
        if !ok { return; }
      }
    }

    /** `IOMapSerialize::loadItem` for an item inside a container, or a movable one. */
    method LoadItem(types: Types) returns (ok: bool, item: Option<Item>)
      requires Valid()
      modifies this
      ensures Valid() && |Rest()| <= |old(Rest())|
      ensures LoadOne(types, old(Rest())) == if ok then OneLoaded(item, Rest()) else OneFailed
      decreases |Rest()|, 0
    {
      item := None;
      var id;
      ok, id := Read(2);
      if !ok || id !in types { return; }
      var x, nested;
      ok, x, nested := UnserializeAttr(Created(types[id]));
      if !ok { return; }
      if x.kind.isContainer {
        var contents;
        ok, contents := LoadContainer(types, if nested.Some? then nested.value else 0);
        x := x.(contents := contents);
      }
      item := Some(x);
    }

    /** `IOMapSerialize::loadContainer`: `serializationCount` items, each to the front,
        then the closing zero. */
    method LoadContainer(types: Types, count: nat) returns (ok: bool, contents: seq<Item>)
      requires Valid()
      modifies this
      ensures Valid() && |Rest()| <= |old(Rest())|
      ensures Closed(LoadMany(types, old(Rest()), count, [])) == if ok then ManyLoaded(contents, Rest()) else ManyFailed
      decreases |Rest()|, 1
    {
      var serializationCount := count;
      contents := [];
      while serializationCount > 0
        invariant Valid() && |Rest()| <= |old(Rest())|
        invariant LoadMany(types, Rest(), serializationCount, contents) == LoadMany(types, old(Rest()), count, [])
      {
        var item;
        ghost var s := Rest();
        ok, item := LoadItem(types);
        if !ok { return; }
        contents := Front(item, contents);
        serializationCount := serializationCount - 1;
      }
      var end;
      ok, end := ReadTag();
      ok := ok && end == 0;
    }
  }

  /** The closing zero byte of a container. */
  function Closed(r: Many): Many {
    if r.ManyFailed? || r.rest == [] || r.rest[0] != 0 then ManyFailed else ManyLoaded(r.items, r.rest[1..])
  }

  lemma AttrUnfolds(y: Item, tag: byte, row: Row, s: seq<byte>)
    requires tag != 0 && tag != ATTR_CONTAINER_ITEMS && RowOf(tag) == Some(row)
    ensures ReadAttrs(y, [tag] + s) ==
      (match ReadVal(s, row.width)
       case None => AttrError
       case Some(got) => ReadAttrs(Store(y, row.place, got.0), got.1))
    ensures ReadVal(s, row.width).Some? ==> |ReadVal(s, row.width).value.1| <= |s|
  {
    assert ([tag] + s)[1..] == s;
  }

  lemma StopUnfolds(x: Item, s: seq<byte>)
    ensures s == [] ==> ReadAttrs(x, s) == AttrDone(x, [], None)
    ensures s != [] && s[0] == 0 ==> ReadAttrs(x, s) == AttrDone(x, s[1..], None)
  {
  }

  lemma BackFrom(xs: seq<Item>, i: nat, before: seq<byte>)
    requires i < |xs|
    ensures before + EncodedBack(xs[..i + 1]) == before + Encoded(xs[i]) + EncodedBack(xs[..i])
  {
    assert xs[..i + 1][..i] == xs[..i];
  }
}
