/** The conditions blob of a player (`Condition::serialize`, `createCondition`,
    `unserialize`, and the loops of `savePlayer` and `loadPlayer`). */
module Conditions {
  import opened Bytes
  import opened Options
  import opened Bits
  import opened PropStreams
  import opened Sequences

  /** The classes of conditions, by what they write after the common part. */
  datatype Class = Damage | Speed | Light | Outfit | Regeneration | Soul | Attributes | Generic

  /** All numbers are the raw unsigned words that go through the stream. */
  datatype Condition = Condition(kind: nat, id: nat, ticks: nat, subId: nat, values: seq<nat>)

  const CONDITIONATTR_TYPE: byte := 1
  const CONDITIONATTR_ID: byte := 2
  const CONDITIONATTR_TICKS: byte := 3
  const CONDITIONATTR_OWNER: byte := 8
  const CONDITIONATTR_SUBID: byte := 28
  const CONDITIONATTR_END: byte := 254

  const WORD := 0x1_0000_0000

  function ClassOf(kind: nat): Option<Class> {
    if kind in {1, 2, 4, 0x10_0000, 0x20_0000, 0x40_0000, 0x80_0000} then Some(Damage)
    else if kind == 8 || kind == 16 then Some(Speed)
    else if kind == 32 then Some(Outfit)
    else if kind == 128 then Some(Light)
    else if kind == 0x800 then Some(Regeneration)
    else if kind == 0x1000 then Some(Soul)
    else if kind == 0x1_0000 then Some(Attributes)
    else if kind in {64, 0x100, 0x200, 0x400, 0x2000, 0x4000, 0x8000, 0x2_0000, 0x4_0000, 0x8_0000} then Some(Generic)
    else None
  }

  // ---- the attributes of each class, in the order they are written -----------------------------

  function Count(cls: Class): nat {
    match cls
    case Damage => 4
    case Speed => 2
    case Light => 4
    case Outfit => 1
    case Regeneration => 4
    case Soul => 2
    case Attributes => 11
    case Generic => 0
  }

  /** Seven skills share one tag, four stats another. */
  function Tag(cls: Class, j: nat): byte
    requires j < Count(cls)
  {
    match cls
    case Damage => 9 + j
    case Speed => 13 + j
    case Light => 19 + j
    case Outfit => 27
    case Regeneration => 4 + j
    case Soul => 24 - j
    case _ => if j < 7 then 25 else 26
  }

  /** An id is a signed byte, which goes through the stream as a signed word. */
  function Narrowed(id: nat): nat {
    if id % 256 < 128 then id % 256 else WORD - 256 + id % 256
  }

  function Width(cls: Class): nat { if cls.Outfit? then 8 else 4 }

  /** What a value keeps of what was read: colours and light levels keep a byte. */
  function Kept(cls: Class, j: nat, v: nat): nat {
    if cls.Light? && j < 2 then v % 256 else v
  }

  // ---- writing -------------------------------------------------------------------------------------

  function Head(c: Condition): seq<byte> {
    Tagged(CONDITIONATTR_TYPE, c.kind, 4) + Tagged(CONDITIONATTR_ID, c.id, 4)
      + Tagged(CONDITIONATTR_TICKS, c.ticks, 4) + Tagged(CONDITIONATTR_SUBID, c.subId, 4)
  }

  function Tagged(tag: byte, v: nat, width: nat): seq<byte> {
    [tag] + LE(v, width)
  }

  function Fields(cls: Class, values: seq<nat>, j: nat): seq<byte>
    requires |values| == Count(cls) && j <= Count(cls)
    decreases Count(cls) - j
  {
    if j == Count(cls) then [] else Tagged(Tag(cls, j), values[j], Width(cls)) + Fields(cls, values, j + 1)
  }

  /** A condition of a known class with all its values in range. */
  predicate Proper(c: Condition) {
    && c.kind < WORD && Narrowed(c.id) == c.id && c.ticks < WORD && c.subId < WORD
    && ClassOf(c.kind).Some?
    && var cls := ClassOf(c.kind).value;
      |c.values| == Count(cls) && Fit(cls, c.values)
  }

  predicate Fit(cls: Class, values: seq<nat>) {
    forall j :: 0 <= j < |values| ==> values[j] < Pow256(Width(cls)) && Kept(cls, j, values[j]) == values[j]
  }

  function Encoded(c: Condition): seq<byte>
    requires Proper(c)
  {
    Head(c) + Fields(ClassOf(c.kind).value, c.values, 0) + [CONDITIONATTR_END]
  }

  /** Kept over a logout: not endless, and from a spell or a fight. */
  predicate Persistent(c: Condition) {
    c.ticks != WORD - 1 && (c.id == WORD - 1 || c.id == 0)
  }

  /** The loop of `savePlayer`. */
  function Blob(cs: seq<Condition>): seq<byte>
    requires forall c :: c in cs ==> Proper(c)
  {
    if cs == [] then []
    else (if Persistent(cs[0]) then Encoded(cs[0]) else []) + Blob(cs[1..])
  }

  // ---- reading --------------------------------------------------------------------------------------

  /** One tagged word, if it is there. */
  function Word(tag: byte, s: seq<byte>): Option<nat> {
    if |s| < 5 || s[0] != tag then None else Some(FromLE(s[1..5]))
  }

  /** `createCondition` from the stream; damage conditions start with no ticks. */
  function Create(s: seq<byte>): (r: Option<(Condition, Class, seq<byte>)>)
    ensures r.Some? ==> |r.value.2| < |s| && |r.value.0.values| == Count(r.value.1)
  {
    if Word(CONDITIONATTR_TYPE, s).None? then None
    else
      var s1 := s[5..];
      if Word(CONDITIONATTR_ID, s1).None? then None
      else
        var s2 := s1[5..];
        if Word(CONDITIONATTR_TICKS, s2).None? then None
        else
          var s3 := s2[5..];
          if Word(CONDITIONATTR_SUBID, s3).None? then None
          else
            Made(Word(CONDITIONATTR_TYPE, s).value, Word(CONDITIONATTR_ID, s1).value,
                 Word(CONDITIONATTR_TICKS, s2).value, Word(CONDITIONATTR_SUBID, s3).value, s3[5..])
  }

  /** What the constructors set before anything is read. */
  function Defaults(cls: Class, kind: nat): (values: seq<nat>)
    ensures |values| == Count(cls)
  {
    match cls
    case Damage =>
      var n := if kind == 1 then 3 else if kind == 2 then 8 else if kind == 0x10_0000 then 0 else 10;
      [0, n, n, WORD - 1]
    case Regeneration => [1000, 0, 1000, 0]
    case _ => seq(Count(cls), _ => 0)
  }

  function Made(kind: nat, id: nat, ticks: nat, subId: nat, rest: seq<byte>): (r: Option<(Condition, Class, seq<byte>)>)
    ensures r.Some? ==> r.value.2 == rest && |r.value.0.values| == Count(r.value.1)
  {
    match ClassOf(kind)
    case None => None
    case Some(cls) =>
      Some((Condition(kind, Narrowed(id), if cls.Damage? then 0 else ticks, subId, Defaults(cls, kind)), cls, rest))
  }

  /** Where a value with this tag goes; skills and stats fill up one after the other. */
  function IndexOf(cls: Class, tag: byte, currentSkill: nat, currentStat: nat): Option<nat> {
    match cls
    case Damage => if 9 <= tag < 13 then Some(tag - 9) else None
    case Speed => if 13 <= tag < 15 then Some(tag - 13) else None
    case Light => if 19 <= tag < 23 then Some(tag - 19) else None
    case Outfit => if tag == 27 then Some(0) else None
    case Regeneration => if 4 <= tag < 8 then Some(tag - 4) else None
    case Soul => if 23 <= tag < 25 then Some(24 - tag) else None
    case Attributes =>
      if tag == 25 && currentSkill < 7 then Some(currentSkill)
      else if tag == 26 && currentStat < 4 then Some(7 + currentStat)
      else None
    case Generic => None
  }

  datatype Props = Bad(rest: seq<byte>) | Read(c: Condition, rest: seq<byte>)

  /** `unserialize`. */
  function ReadProps(cls: Class, c: Condition, skill: nat, stat: nat, s: seq<byte>): (r: Props)
    requires |c.values| == Count(cls)
    ensures |r.rest| <= |s|
    decreases |s|
  {
    if s == [] then Read(c, [])
    else
      var tag, rest := s[0], s[1..];
      if tag == CONDITIONATTR_END then Read(c, rest)
      else if cls.Damage? && tag == CONDITIONATTR_OWNER then
        if |rest| < 4 then Bad(rest) else ReadProps(cls, c, skill, stat, rest[4..])
      else
        match IndexOf(cls, tag, skill, stat)
        case Some(j) =>
          if |rest| < Width(cls) then Bad(rest)
          else
            ReadProps(cls, c.(values := c.values[j := Kept(cls, j, FromLE(rest[..Width(cls)]))]),
                      if tag == 25 then skill + 1 else skill, if tag == 26 then stat + 1 else stat, rest[Width(cls)..])
        case None =>
          if |rest| < 4 || !IsBase(tag) then Bad(rest)
            else ReadProps(cls, SetBase(c, tag, FromLE(rest[..4])), skill, stat, rest[4..])
  }

  predicate IsBase(tag: byte) {
    tag == CONDITIONATTR_TYPE || tag == CONDITIONATTR_ID || tag == CONDITIONATTR_TICKS || tag == CONDITIONATTR_SUBID
  }

  function SetBase(c: Condition, tag: byte, v: nat): Condition {
    if tag == CONDITIONATTR_TYPE then c.(kind := v)
    else if tag == CONDITIONATTR_ID then c.(id := Narrowed(v))
    else if tag == CONDITIONATTR_TICKS then c.(ticks := v)
    else c.(subId := v)
  }

  /** The loop of `loadPlayer`: each condition that reads well goes to the front. */
  function LoadAll(s: seq<byte>, done: seq<Condition>): seq<Condition>
    decreases |s|
  {
    match Create(s)
    case None => done
    case Some(made) =>
      var r := ReadProps(made.1, made.0, 0, 0, made.2);
      LoadAll(r.rest, if r.Read? then [r.c] + done else done)
  }

  // ---- the round trip ----------------------------------------------------------------------------------

  /** A condition after logging in again: everything as it was, but damage has no ticks. */
  function Restored(c: Condition): Condition
    requires Proper(c)
  {
    c.(ticks := if ClassOf(c.kind) == Some(Damage) then 0 else c.ticks)
  }

  /** Latest first, those with an end, and with the id -1 of a spell or 0 of a fight. */
  function RestoredAll(cs: seq<Condition>): seq<Condition>
    requires forall c :: c in cs ==> Proper(c)
  {
    if cs == [] then []
    else
      RestoredAll(cs[1..]) +
        if cs[0].ticks != 0xFFFF_FFFF && (cs[0].id == 0xFFFF_FFFF || cs[0].id == 0) then [Restored(cs[0])] else []
  }

  lemma WordRead(tag: byte, v: nat, rest: seq<byte>)
    requires v < WORD
    ensures var s := Tagged(tag, v, 4) + rest; Word(tag, s) == Some(v) && s[5..] == rest
  {
    assert Pow256(4) == 256 * Pow256(3) && Pow256(3) == 256 * Pow256(2)
      && Pow256(2) == 256 * Pow256(1) && Pow256(1) == 256 * Pow256(0);
    FromLEInvertsLE(v, 4);
    var s := [tag] + LE(v, 4) + rest;
    assert s[1..5] == LE(v, 4);
  }

  lemma Associate4<T>(a: seq<T>, b: seq<T>, c: seq<T>, d: seq<T>, e: seq<T>)
    ensures a + b + c + d + e == a + (b + (c + (d + e)))
    ensures a + b + c + d + e == a + (b + c + d + e)
  {
  }

  lemma HeadRead(c: Condition, rest: seq<byte>)
    requires Proper(c)
    ensures var cls := ClassOf(c.kind).value;
      Create(Head(c) + rest) == Some((Restored(c).(values := Defaults(cls, c.kind)), cls, rest))
  {
    var t0, t1 := Tagged(CONDITIONATTR_TYPE, c.kind, 4), Tagged(CONDITIONATTR_ID, c.id, 4);
    var t2, t3 := Tagged(CONDITIONATTR_TICKS, c.ticks, 4), Tagged(CONDITIONATTR_SUBID, c.subId, 4);
    Associate4(t0, t1, t2, t3, rest);
    WordRead(CONDITIONATTR_TYPE, c.kind, t1 + (t2 + (t3 + rest)));
    WordRead(CONDITIONATTR_ID, c.id, t2 + (t3 + rest));
    WordRead(CONDITIONATTR_TICKS, c.ticks, t3 + rest);
    WordRead(CONDITIONATTR_SUBID, c.subId, rest);
  }

  function SkillsBefore(cls: Class, j: nat): nat {
    if cls.Attributes? then (if j < 7 then j else 7) else 0
  }

  function StatsBefore(cls: Class, j: nat): nat {
    if cls.Attributes? && j > 7 then j - 7 else 0
  }

  /** Each tag finds its own value again. */
  lemma TagIndex(cls: Class, j: nat)
    requires j < Count(cls)
    ensures var tag := Tag(cls, j);
      && IndexOf(cls, tag, SkillsBefore(cls, j), StatsBefore(cls, j)) == Some(j)
      && tag != CONDITIONATTR_END && !(cls.Damage? && tag == CONDITIONATTR_OWNER)
      && SkillsBefore(cls, j + 1) == (if tag == 25 then SkillsBefore(cls, j) + 1 else SkillsBefore(cls, j))
      && StatsBefore(cls, j + 1) == (if tag == 26 then StatsBefore(cls, j) + 1 else StatsBefore(cls, j))
  {
  }

  lemma ReadOne(cls: Class, c: Condition, skill: nat, stat: nat, tag: byte, j: nat, v: nat, rest: seq<byte>)
    requires |c.values| == Count(cls) && IndexOf(cls, tag, skill, stat) == Some(j)
    requires tag != CONDITIONATTR_END && !(cls.Damage? && tag == CONDITIONATTR_OWNER)
    requires v < Pow256(Width(cls)) && Kept(cls, j, v) == v
    ensures ReadProps(cls, c, skill, stat, Tagged(tag, v, Width(cls)) + rest)
         == ReadProps(cls, c.(values := c.values[j := v]),
              if tag == 25 then skill + 1 else skill, if tag == 26 then stat + 1 else stat, rest)
  {
    var w := Width(cls);
    var s := [tag] + LE(v, w) + rest;
    FromLEInvertsLE(v, w);
    assert s[1..] == LE(v, w) + rest;
    assert s[1..][..w] == LE(v, w) && s[1..][w..] == rest;
  }

  lemma FieldsStep(cls: Class, c: Condition, v: nat, j: nat, more: seq<byte>)
    requires |c.values| == Count(cls) && j < Count(cls) && v < Pow256(Width(cls)) && Kept(cls, j, v) == v
    ensures ReadProps(cls, c, SkillsBefore(cls, j), StatsBefore(cls, j), Tagged(Tag(cls, j), v, Width(cls)) + more)
         == ReadProps(cls, c.(values := c.values[j := v]), SkillsBefore(cls, j + 1), StatsBefore(cls, j + 1), more)
  {
    TagIndex(cls, j);
    ReadOne(cls, c, SkillsBefore(cls, j), StatsBefore(cls, j), Tag(cls, j), j, v, more);
  }

  lemma EndRead(cls: Class, c: Condition, skill: nat, stat: nat, rest: seq<byte>)
    requires |c.values| == Count(cls)
    ensures ReadProps(cls, c, skill, stat, [CONDITIONATTR_END] + rest) == Read(c, rest)
  {
    assert ([CONDITIONATTR_END] + rest)[1..] == rest;
  }

  lemma {:induction false} FieldsRead(cls: Class, c: Condition, values: seq<nat>, j: nat, rest: seq<byte>)
    requires |values| == Count(cls) && |c.values| == Count(cls) && j <= Count(cls)
    requires forall k :: 0 <= k < j ==> c.values[k] == values[k]
    requires Fit(cls, values)
    ensures ReadProps(cls, c, SkillsBefore(cls, j), StatsBefore(cls, j),
      Fields(cls, values, j) + ([CONDITIONATTR_END] + rest))
         == Read(c.(values := values), rest)
    decreases Count(cls) - j
  {
    var end := [CONDITIONATTR_END] + rest;
    if j == Count(cls) {
      assert c.values == values;
      assert Fields(cls, values, j) == [] && [] + end == end;
      EndRead(cls, c, SkillsBefore(cls, j), StatsBefore(cls, j), rest);
    } else {
      var c' := c.(values := c.values[j := values[j]]);
      FieldsRead(cls, c', values, j + 1, rest);
      FieldBefore(cls, c, values, j, end, Read(c.(values := values), rest));
    }
  }

  lemma FieldBefore(cls: Class, c: Condition, values: seq<nat>, j: nat, end: seq<byte>, r: Props)
    requires |values| == Count(cls) && |c.values| == Count(cls) && j < Count(cls) && Fit(cls, values)
    requires ReadProps(cls, c.(values := c.values[j := values[j]]), SkillsBefore(cls, j + 1), StatsBefore(cls, j + 1),
      Fields(cls, values, j + 1) + end) == r
    ensures ReadProps(cls, c, SkillsBefore(cls, j), StatsBefore(cls, j), Fields(cls, values, j) + end) == r
  {
    Associate(Tagged(Tag(cls, j), values[j], Width(cls)), Fields(cls, values, j + 1), end);
    FieldsStep(cls, c, values[j], j, Fields(cls, values, j + 1) + end);
  }

  lemma OneLoads(c: Condition, rest: seq<byte>, done: seq<Condition>)
    requires Proper(c)
    ensures LoadAll(Encoded(c) + rest, done) == LoadAll(rest, [Restored(c)] + done)
  {
    var cls := ClassOf(c.kind).value;
    var fields := Fields(cls, c.values, 0) + ([CONDITIONATTR_END] + rest);
    assert Encoded(c) + rest == Head(c) + fields;
    HeadRead(c, fields);
    var made := Restored(c).(values := Defaults(cls, c.kind));
    FieldsRead(cls, made, c.values, 0, rest);
    assert made.(values := c.values) == Restored(c);
  }

  /** For every list of conditions: the blob is read in full, giving the persistent ones in
      reverse order, each as it was. */
  lemma {:induction false} BlobLoads(cs: seq<Condition>, done: seq<Condition>)
    requires forall c :: c in cs ==> Proper(c)
    ensures LoadAll(Blob(cs), done) == RestoredAll(cs) + done
    decreases cs
  {
    if cs == [] {
      assert RestoredAll(cs) + done == done;
    } else {
      var c, rest := cs[0], cs[1..];
      if Persistent(c) {
        OneLoads(c, Blob(rest), done);
        BlobLoads(rest, [Restored(c)] + done);
        Associate(RestoredAll(rest), [Restored(c)], done);
      } else {
        BlobLoads(rest, done);
        Skipped(cs);
      }
    }
  }

  /** Which conditions are there after logging in again. */
  lemma {:induction false} LoadedExactly(cs: seq<Condition>, c: Condition)
    requires forall d :: d in cs ==> Proper(d)
    ensures c in LoadAll(Blob(cs), []) <==>
      exists d :: d in cs && d.ticks != 0xFFFF_FFFF && d.id in {0xFFFF_FFFF, 0} && c == Restored(d)
  {
    BlobLoads(cs, []);
    RestoredExactly(cs, c);
  }

  lemma {:induction false} RestoredExactly(cs: seq<Condition>, c: Condition)
    requires forall d :: d in cs ==> Proper(d)
    ensures c in RestoredAll(cs) <==>
      exists d :: d in cs && d.ticks != 0xFFFF_FFFF && d.id in {0xFFFF_FFFF, 0} && c == Restored(d)
  {
    if cs != [] { RestoredExactly(cs[1..], c); }
  }

  lemma {:induction false} Skipped(cs: seq<Condition>)
    requires cs != [] && !Persistent(cs[0]) && forall c :: c in cs ==> Proper(c)
    ensures Blob(cs) == Blob(cs[1..]) && RestoredAll(cs) == RestoredAll(cs[1..])
  {
  }

  // ---- any stream, well written or not -----------------------------------------------------------

  datatype Field = Field(tag: byte, raw: seq<byte>)

  /** A tag the class knows, with as many bytes as it takes. */
  predicate Legal(cls: Class, field: Field, skill: nat, stat: nat) {
    && field.tag != CONDITIONATTR_END
    && if cls.Damage? && field.tag == CONDITIONATTR_OWNER then |field.raw| == 4
       else if IndexOf(cls, field.tag, skill, stat).Some? then |field.raw| == Width(cls)
       else field.tag in {CONDITIONATTR_TYPE, CONDITIONATTR_ID, CONDITIONATTR_TICKS, CONDITIONATTR_SUBID}
            && |field.raw| == 4
  }

  /** `s` is these fields, one after the other, up to an end tag or the end of the stream. */
  predicate Consists(cls: Class, fields: seq<Field>, skill: nat, stat: nat, s: seq<byte>)
    decreases |fields|
  {
    if fields == [] then s == [] || s[0] == CONDITIONATTR_END
    else
      var field := fields[0];
      && Legal(cls, field, skill, stat) && [field.tag] + field.raw <= s
      && Consists(cls, fields[1..], if field.tag == 25 && IndexOf(cls, 25, skill, stat).Some? then skill + 1 else skill,
                  if field.tag == 26 && IndexOf(cls, 26, skill, stat).Some? then stat + 1 else stat,
                  s[1 + |field.raw|..])
  }

  predicate Fielded(cls: Class, fields: seq<Field>, skill: nat, stat: nat, s: seq<byte>) {
    Consists(cls, fields, skill, stat, s)
  }

  /** For every stream: a condition is read well if and only if what is there is known fields,
      complete, up to an end tag or the end. */
  lemma {:induction false} ReadsExactly(cls: Class, c: Condition, skill: nat, stat: nat, s: seq<byte>)
    requires |c.values| == Count(cls)
    ensures ReadProps(cls, c, skill, stat, s).Read? <==> exists fields :: Fielded(cls, fields, skill, stat, s)
    decreases |s|
  {
    if ReadProps(cls, c, skill, stat, s).Read? {
      var fields := FieldsOf(cls, c, skill, stat, s);
      assert Fielded(cls, fields, skill, stat, s);
    } else if fields :| Fielded(cls, fields, skill, stat, s) {
      FieldsAreRead(cls, c, skill, stat, s, fields);
    }
  }

  lemma {:induction false} FieldsOf(cls: Class, c: Condition, skill: nat, stat: nat, s: seq<byte>)
    returns (fields: seq<Field>)
    requires |c.values| == Count(cls) && ReadProps(cls, c, skill, stat, s).Read?
    ensures Consists(cls, fields, skill, stat, s)
    decreases |s|
  {
    if s == [] || s[0] == CONDITIONATTR_END {
      fields := [];
    } else {
      var n, c', skill', stat' := OneField(cls, c, skill, stat, s);
      var rest := FieldsOf(cls, c', skill', stat', s[1 + n..]);
      fields := [Field(s[0], s[1..1 + n])] + rest;
      assert fields[1..] == rest;
      assert [s[0]] + s[1..1 + n] == s[..1 + n];
    }
  }

  /** What reading goes on with after one field. */
  lemma {:induction false} OneField(cls: Class, c: Condition, skill: nat, stat: nat, s: seq<byte>)
    returns (n: nat, c': Condition, skill': nat, stat': nat)
    requires |c.values| == Count(cls) && s != [] && s[0] != CONDITIONATTR_END
    requires ReadProps(cls, c, skill, stat, s).Read? ||
      exists raw :: Legal(cls, Field(s[0], raw), skill, stat) && [s[0]] + raw <= s
    ensures 1 + n <= |s| && Legal(cls, Field(s[0], s[1..1 + n]), skill, stat) && |c'.values| == Count(cls)
    ensures skill' == if s[0] == 25 && IndexOf(cls, 25, skill, stat).Some? then skill + 1 else skill
    ensures stat' == if s[0] == 26 && IndexOf(cls, 26, skill, stat).Some? then stat + 1 else stat
    ensures ReadProps(cls, c, skill, stat, s) == ReadProps(cls, c', skill', stat', s[1 + n..])
  {
    var tag, rest := s[0], s[1..];
    c', skill', stat' := c, skill, stat;
    if cls.Damage? && tag == CONDITIONATTR_OWNER {
      n := 4;
    } else {
      match IndexOf(cls, tag, skill, stat)
      case Some(j) =>
        n := Width(cls);
        c' := c.(values := c.values[j := Kept(cls, j, FromLE(rest[..n]))]);
        skill', stat' := if tag == 25 then skill + 1 else skill, if tag == 26 then stat + 1 else stat;
      case None =>
        n := 4;
        c' := SetBase(c, tag, FromLE(rest[..4]));
    }
    assert rest[n..] == s[1 + n..] && |s[1..1 + n]| == n;
  }

  lemma {:induction false} FieldsAreRead(cls: Class, c: Condition, skill: nat, stat: nat, s: seq<byte>,
                                         fields: seq<Field>)
    requires |c.values| == Count(cls) && Consists(cls, fields, skill, stat, s)
    ensures ReadProps(cls, c, skill, stat, s).Read?
    decreases |fields|
  {
    if fields != [] {
      var field := fields[0];
      assert s[0] == ([field.tag] + field.raw)[0] && Legal(cls, Field(s[0], field.raw), skill, stat);
      var n, c', skill', stat' := OneField(cls, c, skill, stat, s);
      FieldsAreRead(cls, c', skill', stat', s[1 + n..], fields[1..]);
    }
  }

  /** Kinds are single bits, 24 of them: a kind has a class if and only if it is one. */
  lemma {:induction false} KnownKinds(kind: nat)
    ensures ClassOf(kind).Some? <==> exists k :: 0 <= k < 24 && kind == Pow2(k)
  {
    forall k | 0 <= k < 24
      ensures ClassOf(Pow2(k)).Some?
    {
      BitHasClass(k);
    }
    if ClassOf(kind).Some? {
      var k := BitOf(kind);
    }
  }

  lemma {:induction false} PowersOfTwo()
    ensures Pow2(0) == 1 && Pow2(1) == 2 && Pow2(2) == 4 && Pow2(3) == 8
    ensures Pow2(4) == 16 && Pow2(5) == 32 && Pow2(6) == 64 && Pow2(7) == 128
    ensures Pow2(8) == 0x100 && Pow2(9) == 0x200 && Pow2(10) == 0x400 && Pow2(11) == 0x800
    ensures Pow2(12) == 0x1000 && Pow2(13) == 0x2000 && Pow2(14) == 0x4000 && Pow2(15) == 0x8000
    ensures Pow2(16) == 0x1_0000 && Pow2(17) == 0x2_0000 && Pow2(18) == 0x4_0000 && Pow2(19) == 0x8_0000
    ensures Pow2(20) == 0x10_0000 && Pow2(21) == 0x20_0000 && Pow2(22) == 0x40_0000 && Pow2(23) == 0x80_0000
  {
    forall k | 0 < k < 24
      ensures Pow2(k) == 2 * Pow2(k - 1)
    {
    }
  }

  lemma {:induction false} BitHasClass(k: nat)
    requires k < 24
    ensures ClassOf(Pow2(k)).Some?
  {
    PowersOfTwo();
  }

  lemma {:induction false} BitOf(kind: nat) returns (k: nat)
    requires ClassOf(kind).Some?
    ensures k < 24 && kind == Pow2(k)
  {
    PowersOfTwo();
    k := 0;
    while k < 24 && Pow2(k) != kind
      invariant k <= 24 && forall j :: 0 <= j < k ==> Pow2(j) != kind
    {
      k := k + 1;
    }
  }

  // ---- through the streams --------------------------------------------------------------------------------

  /** `serialize`, for any class of condition. */
  method Serialize(stream: PropWriteStream, c: Condition)
    requires Proper(c)
    modifies stream
    ensures stream.buffer == old(stream.buffer) + Encoded(c)
  {
    Associate(stream.buffer, Head(c), Fields(ClassOf(c.kind).value, c.values, 0));
    Associate(stream.buffer, Head(c) + Fields(ClassOf(c.kind).value, c.values, 0), [CONDITIONATTR_END]);
    SerializeHead(stream, c);
    SerializeFields(stream, ClassOf(c.kind).value, c.values);
    WriteTag(stream, CONDITIONATTR_END);
  }

  method WriteTag(stream: PropWriteStream, tag: byte)
    modifies stream
    ensures stream.buffer == old(stream.buffer) + [tag]
  {
    stream.Write(tag, 1);
    assert LE(tag, 1) == [tag];
  }

  method WriteTagged(stream: PropWriteStream, tag: byte, v: nat, width: nat)
    modifies stream
    ensures stream.buffer == old(stream.buffer) + Tagged(tag, v, width)
  {
    WriteTag(stream, tag);
    stream.Write(v, width);
  }

  method SerializeHead(stream: PropWriteStream, c: Condition)
    modifies stream
    ensures stream.buffer == old(stream.buffer) + Head(c)
  {
    Associate4(stream.buffer, Tagged(CONDITIONATTR_TYPE, c.kind, 4), Tagged(CONDITIONATTR_ID, c.id, 4),
               Tagged(CONDITIONATTR_TICKS, c.ticks, 4), Tagged(CONDITIONATTR_SUBID, c.subId, 4));
    WriteTagged(stream, CONDITIONATTR_TYPE, c.kind, 4);
    WriteTagged(stream, CONDITIONATTR_ID, c.id, 4);
    WriteTagged(stream, CONDITIONATTR_TICKS, c.ticks, 4);
    WriteTagged(stream, CONDITIONATTR_SUBID, c.subId, 4);
  }

  method SerializeFields(stream: PropWriteStream, cls: Class, values: seq<nat>)
    requires |values| == Count(cls)
    modifies stream
    ensures stream.buffer == old(stream.buffer) + Fields(cls, values, 0)
  {
    var j := 0;
    while j < Count(cls)
      invariant 0 <= j <= Count(cls)
      invariant stream.buffer + Fields(cls, values, j) == old(stream.buffer) + Fields(cls, values, 0)
    {
      Associate(stream.buffer, Tagged(Tag(cls, j), values[j], Width(cls)), Fields(cls, values, j + 1));
      WriteTagged(stream, Tag(cls, j), values[j], Width(cls));
      j := j + 1;
    }
  }

  method SaveCondition(stream: PropWriteStream, c: Condition)
    requires Proper(c)
    modifies stream
    ensures stream.buffer == old(stream.buffer) + (if Persistent(c) then Encoded(c) else [])
  {
    if Persistent(c) {
      Serialize(stream, c);
    }
  }

  /** The loop of `savePlayer`. */
  method SaveConditions(stream: PropWriteStream, cs: seq<Condition>)
    requires forall c :: c in cs ==> Proper(c)
    modifies stream
    ensures stream.buffer == old(stream.buffer) + Blob(cs)
  {
    var i := 0;
    assert cs[0..] == cs;
    while i < |cs|
      invariant 0 <= i <= |cs|
      invariant stream.buffer + Blob(cs[i..]) == old(stream.buffer) + Blob(cs)
    {
      assert cs[i..][0] == cs[i] && cs[i..][1..] == cs[i + 1..];
      Associate(stream.buffer, if Persistent(cs[i]) then Encoded(cs[i]) else [], Blob(cs[i + 1..]));
      SaveCondition(stream, cs[i]);
      i := i + 1;
    }
  }

  method ReadWord(stream: PropStream, tag: byte) returns (w: Option<nat>)
    requires stream.Valid()
    modifies stream
    ensures stream.Valid() && |stream.Rest()| <= |old(stream.Rest())|
    ensures w == Word(tag, old(stream.Rest()))
    ensures w.Some? ==> stream.Rest() == old(stream.Rest())[5..]
  {
    ghost var s := stream.Rest();
    w := None;
    var ok, t := stream.ReadTag();
    if ok && t == tag {
      assert s[1..] == stream.Rest() && (|s| >= 5 ==> s[1..5] == stream.Rest()[..4] && s[5..] == stream.Rest()[4..]);
      var n;
      ok, n := stream.Read(4);
      if ok { w := Some(n); }
    }
  }

  /** `createCondition` from the stream. */
  method CreateCondition(stream: PropStream) returns (made: Option<(Condition, Class)>)
    requires stream.Valid()
    modifies stream
    ensures stream.Valid()
    ensures Create(old(stream.Rest())) == if made.Some? then Some((made.value.0, made.value.1, stream.Rest())) else None
  {
    made := None;
    var kind := ReadWord(stream, CONDITIONATTR_TYPE);
    if kind == None { return; }
    var id := ReadWord(stream, CONDITIONATTR_ID);
    if id == None { return; }
    var ticks := ReadWord(stream, CONDITIONATTR_TICKS);
    if ticks == None { return; }
    var subId := ReadWord(stream, CONDITIONATTR_SUBID);
    if subId == None { return; }
    var m := Made(kind.value, id.value, ticks.value, subId.value, []);
    if m.Some? { made := Some((m.value.0, m.value.1)); }
  }

  /** `unserializeProp` of any class. */
  method ReadProp(stream: PropStream, cls: Class, c: Condition, skill: nat, stat: nat, tag: byte)
    returns (ok: bool, c': Condition, skill': nat, stat': nat)
    requires stream.Valid() && |c.values| == Count(cls) && tag != CONDITIONATTR_END
    modifies stream
    ensures stream.Valid() && |c'.values| == Count(cls) && |stream.Rest()| <= |old(stream.Rest())|
    ensures ReadProps(cls, c, skill, stat, [tag] + old(stream.Rest())) ==
      if ok then ReadProps(cls, c', skill', stat', stream.Rest()) else Bad(stream.Rest())
  {
    ghost var s := [tag] + stream.Rest();
    assert s[1..] == stream.Rest();
    c', skill', stat' := c, skill, stat;
    var n;
    if cls.Damage? && tag == CONDITIONATTR_OWNER {
      ok, n := stream.Read(4);
      return;
    }
    match IndexOf(cls, tag, skill, stat)
    case Some(j) =>
      ok, n := stream.Read(Width(cls));
      if ok {
        c' := c.(values := c.values[j := Kept(cls, j, n)]);
        skill' := if tag == 25 then skill + 1 else skill;
        stat' := if tag == 26 then stat + 1 else stat;
      }
    case None =>
      ok := false;
      if IsBase(tag) {
        ok, n := stream.Read(4);
        if ok { c' := SetBase(c, tag, n); }
      }
  }

  /** `unserialize`. */
  method Unserialize(stream: PropStream, cls: Class, made: Condition) returns (ok: bool, c: Condition)
    requires stream.Valid() && |made.values| == Count(cls)
    modifies stream
    ensures stream.Valid() && |stream.Rest()| <= |old(stream.Rest())|
    ensures ReadProps(cls, made, 0, 0, old(stream.Rest())) == if ok then Read(c, stream.Rest()) else Bad(stream.Rest())
  {
    var skill, stat := 0, 0;
    c := made;
    while true
      invariant stream.Valid() && |c.values| == Count(cls) && |stream.Rest()| <= |old(stream.Rest())|
      invariant ReadProps(cls, c, skill, stat, stream.Rest()) == ReadProps(cls, made, 0, 0, old(stream.Rest()))
      decreases |stream.Rest()|
    {
      StopReads(cls, c, skill, stat, stream.Rest());
      var more, tag := stream.ReadTag();
      if !more || tag == CONDITIONATTR_END { return true, c; }
      ok, c, skill, stat := ReadProp(stream, cls, c, skill, stat, tag);
      if !ok { return; }
    }
  }

  lemma StopReads(cls: Class, c: Condition, skill: nat, stat: nat, s: seq<byte>)
    requires |c.values| == Count(cls)
    ensures s == [] ==> ReadProps(cls, c, skill, stat, s) == Read(c, [])
    ensures s != [] && s[0] == CONDITIONATTR_END ==> ReadProps(cls, c, skill, stat, s) == Read(c, s[1..])
  {
  }

  /** The loop of `loadPlayer`. */
  method LoadConditions(stream: PropStream) returns (cs: seq<Condition>)
    requires stream.Valid()
    modifies stream
    ensures stream.Valid() && cs == LoadAll(old(stream.Rest()), [])
  {
    cs := [];
    ghost var s := stream.Rest();
    var made := CreateCondition(stream);
    while made.Some?
      invariant stream.Valid()
      invariant Create(s) == if made.Some? then Some((made.value.0, made.value.1, stream.Rest())) else None
      invariant LoadAll(s, cs) == LoadAll(old(stream.Rest()), [])
      decreases |s|
    {
      var ok, c := Unserialize(stream, made.value.1, made.value.0);
      if ok { cs := [c] + cs; }
      s := stream.Rest();
      made := CreateCondition(stream);
    }
  }
}
