/** What an item looks like after being saved and loaded, and exactly which items come
    back unchanged. */
module AttributeTrip {
  import opened Bytes
  import opened Attributes
  import opened Options
  import opened Sequences

  function At(x: Item, k: Key): Option<Val> {
    if k in x.attrs then Some(x.attrs[k]) else None
  }

  /** The tag an attribute is saved under; 0 when it has none. The charges and the fluid
      type travel as the subtype. */
  function TagOf(k: Key): byte {
    match k
    case ActionId => 4
    case TextAttr => 6
    case Description => 7
    case Duration => 16
    case DecayState => 17
    case Date => 18
    case Writer => 19
    case KeyNumber => 23
    case KeyHoleNumber => 24
    case DoorQuestNumber => 25
    case DoorQuestValue => 26
    case DoorLevel => 27
    case ChestQuestNumber => 28
    case Name => 30
    case Article => 31
    case PluralName => 32
    case Weight => 33
    case Attack => 34
    case Defense => 35
    case Armor => 36
    case MissileEffect => 38
    case LifeLeech => 39
    case ManaLeech => 40
    case Critical => 41
    case _ => 0
  }

  predicate BySubType(k: Key) { k == Charges || k == FluidType }

  /** What a store leaves under its own key. */
  function StoredAt(k: Key, v: Val, before: Option<Val>): Option<Val> {
    if v.Str? then (if v.s == [] then before else Some(v))
    else if k == Duration then Some(Num(if v.n < 0 then 0 else v.n))
    else if k == DecayState then (if v.n == 0 then before else Some(Num(2)))
    else Some(v)
  }

  /** A saved tag reaches a key only when it is that key's own. */
  predicate OwnTag(t: byte, k: Key) {
    Saveable(t) && (RowOf(t).value.place == Attr(k) <==> t == TagOf(k))
  }

  /** What the item's own row for `k` leaves there. */
  function Landed(x: Item, k: Key, row: Row, before: Option<Val>): Option<Val> {
    if Writes(x, row) then StoredAt(k, Received(Value(x, row), row.width), before) else before
  }

  lemma StoreAt(y: Item, place: Place, v: Val, k: Key)
    requires !BySubType(k)
    ensures At(Store(y, place, v), k) == if place == Attr(k) then StoredAt(k, v, At(y, k)) else At(y, k)
  {
  }

  lemma StepAt(x: Item, y: Item, row: Row, k: Key)
    requires !BySubType(k)
    ensures At(Step(x, y, row), k) == if row.place == Attr(k) then Landed(x, k, row, At(y, k)) else At(y, k)
  {
    if Writes(x, row) {
      StoreAt(y, row.place, Received(Value(x, row), row.width), k);
    }
  }

  lemma RestoreSteps(x: Item, y: Item, tags: seq<byte>)
    requires tags != [] && RowOf(tags[0]).Some?
    ensures Restore(x, y, tags) == Restore(x, Step(x, y, RowOf(tags[0]).value), tags[1..])
  {
  }

  lemma {:induction false} RestoreAt(x: Item, y: Item, tags: seq<byte>, k: Key)
    requires !BySubType(k) && Distinct(tags)
    requires forall t {:trigger OwnTag(t, k)} :: t in tags ==> OwnTag(t, k)
    ensures At(Restore(x, y, tags), k) ==
      if TagOf(k) in tags && RowOf(TagOf(k)).Some? then Landed(x, k, RowOf(TagOf(k)).value, At(y, k)) else At(y, k)
    decreases tags
  {
    if tags != [] {
      var t := tags[0];
      assert OwnTag(t, k);
      RestoreSteps(x, y, tags);
      StepAt(x, y, RowOf(t).value, k);
      RestoreAt(x, Step(x, y, RowOf(t).value), tags[1..], k);
      assert t !in tags[1..];
      assert tags == [t] + tags[1..];
    }
  }

  predicate Saved(t: byte) {
    Saveable(t) && t != 12 && t != 5 && t != 37 && t != 10 && t != 14 && t != 20 && t != 21 && t != 8
  }

  lemma SavedTagsSaved()
    ensures forall t :: t in SAVED_TAGS ==> Saved(t)
  {
  }

  lemma {:induction false} SavedOwn(t: byte, k: Key)
    requires Saved(t) && !BySubType(k)
    ensures OwnTag(t, k)
  {
  }

  /** The position of a tag in the order of writing. */
  function Rank(t: byte): nat {
    match t
    case 15 => 0 case 22 => 1 case 4 => 2 case 6 => 3 case 18 => 4 case 19 => 5 case 7 => 6
    case 16 => 7 case 17 => 8 case 30 => 9 case 31 => 10 case 32 => 11 case 33 => 12 case 34 => 13
    case 35 => 14 case 36 => 15 case 38 => 16 case 23 => 17 case 24 => 18 case 27 => 19 case 25 => 20
    case 26 => 21 case 28 => 22 case 39 => 23 case 40 => 24 case 41 => 25 case _ => 26
  }

  lemma SavedTagsDistinct()
    ensures Distinct(SAVED_TAGS)
  {
    forall i | 0 <= i < |SAVED_TAGS| ensures Rank(SAVED_TAGS[i]) == i {
    }
  }

  lemma SavedTagsCover(k: Key)
    ensures TagOf(k) != 0 ==> TagOf(k) in SAVED_TAGS && RowOf(TagOf(k)).Some?
  {
  }

  ghost predicate Covers(tags: seq<byte>) {
    && Distinct(tags) && (forall t :: t in tags ==> Saved(t))
    && (forall k :: TagOf(k) != 0 ==> TagOf(k) in tags && RowOf(TagOf(k)).Some?)
  }

  lemma SavedTagsCovers()
    ensures Covers(SAVED_TAGS)
  {
    SavedTagsDistinct();
    SavedTagsSaved();
    forall k | TagOf(k) != 0 ensures TagOf(k) in SAVED_TAGS && RowOf(TagOf(k)).Some? { SavedTagsCover(k); }
  }

  lemma CoveredAt(x: Item, y: Item, tags: seq<byte>, k: Key)
    requires !BySubType(k) && Covers(tags)
    ensures At(Restore(x, y, tags), k) ==
      if RowOf(TagOf(k)).Some? then Landed(x, k, RowOf(TagOf(k)).value, At(y, k)) else At(y, k)
  {
    forall t {:trigger OwnTag(t, k)} | t in tags ensures OwnTag(t, k) { SavedOwn(t, k); }
    RestoreAt(x, y, tags, k);
  }

  const COUNT_ROW := Row(Sub, Bytes(1), IfCounted)
  const CHARGES_ROW := Row(Sub, Bytes(2), IfNonZero)

  /** The subtype settles with the first two tags. */
  predicate SameSub(y: Item, z: Item) {
    && y.kind == z.kind && y.contents == z.contents && y.count == z.count
    && At(y, Charges) == At(z, Charges) && At(y, FluidType) == At(z, FluidType)
  }

  lemma {:induction false} RestoreKeepsSub(x: Item, y: Item, tags: seq<byte>)
    requires forall t :: t in tags ==> Saveable(t) && SubFree(RowOf(t).value)
    ensures SameSub(Restore(x, y, tags), y)
    decreases tags
  {
    if tags != [] {
      var t := tags[0];
      assert Saveable(t) && SubFree(RowOf(t).value);
      RestoreSteps(x, y, tags);
      StepKeepsSub(x, y, RowOf(t).value);
      RestoreKeepsSub(x, Step(x, y, RowOf(t).value), tags[1..]);
    }
  }

  lemma StepKeepsSub(x: Item, y: Item, row: Row)
    requires SubFree(row)
    ensures SameSub(Step(x, y, row), y)
  {
  }

  predicate SubFree(row: Row) {
    row.place == Ignored || (row.place.Attr? && !BySubType(row.place.key))
  }

  lemma LaterTagSubFree(tags: seq<byte>, i: nat)
    requires Covers(tags) && 2 <= i < |tags| && tags[0] == 15 && tags[1] == 22
    ensures Saveable(tags[i]) && SubFree(RowOf(tags[i]).value)
  {
    assert tags[i] in tags && tags[0] != tags[i] && tags[1] != tags[i];
    OnlySub(tags[i]);
  }

  lemma OnlySub(t: byte)
    requires Saved(t) && t != 15 && t != 22
    ensures SubFree(RowOf(t).value)
  {
  }

  lemma CoveredSub(x: Item, y: Item, tags: seq<byte>)
    requires Covers(tags) && |tags| >= 2 && tags[0] == 15 && tags[1] == 22
    ensures SameSub(Restore(x, y, tags), Step(x, Step(x, y, COUNT_ROW), CHARGES_ROW))
  {
    var later := tags[1..][1..];
    RestoreSteps(x, y, tags);
    RestoreSteps(x, Step(x, y, COUNT_ROW), tags[1..]);
    forall t | t in later ensures Saveable(t) && SubFree(RowOf(t).value) {
      var i :| 0 <= i < |later| && later[i] == t;
      LaterTagSubFree(tags, i + 2);
    }
    RestoreKeepsSub(x, Step(x, Step(x, y, COUNT_ROW), CHARGES_ROW), later);
  }

  // ---- exactly which items come back unchanged ------------------------------------------------

  predicate IsText(k: Key) {
    k in {TextAttr, Writer, Description, Name, Article, PluralName}
  }

  /** What the attribute store itself guarantees. */
  predicate Typed(x: Item) {
    && x.count < 0x100
    && forall k :: k in x.attrs ==>
         if IsText(k) then x.attrs[k].Str? && x.attrs[k].s != [] else x.attrs[k].Num?
  }

  predicate IsInt32(n: int) { -0x8000_0000 <= n < 0x8000_0000 }

  /** The values of an attribute that survive. */
  predicate Fits(kind: Kind, k: Key, v: Val)
    requires IsText(k) <==> v.Str?
  {
    if IsText(k) then |v.s| <= 0xFFFF
    else
      match k
      case ActionId => kind.moveable && 0 < v.n < 0x1_0000
      case Date => v.n != 0 && IsInt32(v.n)
      case Duration => 0 <= v.n < 0x8000_0000
      case DecayState => v.n == 2
      case Charges => !kind.fluid && !kind.stackable && kind.charges != 0
                      && (0 < v.n < 0x1_0000 || (v.n == 0 && kind.charges % 0x1_0000 == 0))
      case FluidType => kind.fluid && 0 <= v.n < 0x100
      case Weight => IsInt32(v.n)
      case Attack => IsInt32(v.n)
      case Defense => IsInt32(v.n)
      case Armor => IsInt32(v.n)
      case MissileEffect => 0 <= v.n < 0x100
      case KeyNumber => 0 <= v.n < 0x1_0000
      case KeyHoleNumber => 0 <= v.n < 0x1_0000
      case DoorQuestNumber => 0 <= v.n < 0x1_0000
      case DoorQuestValue => 0 <= v.n < 0x1_0000
      case DoorLevel => 0 <= v.n < 0x1_0000
      case ChestQuestNumber => 0 <= v.n < 0x1_0000
      case LifeLeech => 0 < v.n < 0x1_0000
      case ManaLeech => 0 < v.n < 0x1_0000
      case Critical => 0 < v.n < 0x1_0000
      case _ => false
  }

  /** An item that one trip leaves alone: every attribute in range, every attribute the
      row gives by default present, and no count where none is written. */
  predicate Storable(x: Item)
    requires Typed(x)
  {
    && (forall k :: k in x.attrs ==> Fits(x.kind, k, x.attrs[k]))
    && (forall k :: k in Created(x.kind).attrs ==> k in x.attrs)
    && (x.count == 1 || (x.kind.stackable && !x.kind.fluid))
  }

  predicate FitsAt(x: Item, k: Key)
    requires Typed(x)
  {
    if k in x.attrs then Fits(x.kind, k, x.attrs[k]) else k !in Created(x.kind).attrs
  }

  lemma Powers()
    ensures Pow256(1) == 0x100 && Pow256(2) == 0x1_0000 && Pow256(4) == 0x1_0000_0000
  {
    assert Pow256(0) == 1 && Pow256(1) == 256 && Pow256(2) == 0x1_0000 && Pow256(3) == 0x100_0000;
  }

  predicate IsShort(k: Key) {
    k in {KeyNumber, KeyHoleNumber, DoorQuestNumber, DoorQuestValue, DoorLevel, ChestQuestNumber}
  }

  predicate IsBonus(k: Key) { k in {LifeLeech, ManaLeech, Critical} }

  predicate IsSigned(k: Key) { k in {Attack, Defense, Armor} }

  function RowFor(k: Key): Row
    requires TagOf(k) != 0
  {
    if IsText(k) then Row(Attr(k), Text, if k in {Name, Article, PluralName} then IfSet else IfNonEmpty)
    else if IsShort(k) then Row(Attr(k), Bytes(2), IfSet)
    else if IsBonus(k) then Row(Attr(k), Bytes(2), IfNonZero)
    else if IsSigned(k) then Row(Attr(k), Signed32, IfSet)
    else if k == ActionId then Row(Attr(k), Bytes(2), IfNonZeroMoveable)
    else if k == Date then Row(Attr(k), Signed32, IfNonZero)
    else if k == Duration then Row(Attr(k), Signed32, IfSet)
    else if k == DecayState then Row(Attr(k), Bytes(1), IfDecaying)
    else if k == Weight then Row(Attr(k), Signed32, IfSet)
    else Row(Attr(k), Bytes(1), IfSet)
  }

  lemma KeyRow(k: Key)
    requires TagOf(k) != 0
    ensures RowOf(TagOf(k)) == Some(RowFor(k))
  {
  }

  /** Whether one attribute of `x`, present or not, comes back as it was. */
  predicate Returns(x: Item, k: Key, row: Row) {
    Landed(x, k, row, At(Created(x.kind), k)) == At(x, k)
  }

  lemma TextReturns(x: Item, k: Key, when: When)
    requires Typed(x) && IsText(k) && (when == IfNonEmpty || when == IfSet)
    ensures Returns(x, k, Row(Attr(k), Text, when)) <==> FitsAt(x, k)
  {
  }

  lemma ShortReturns(x: Item, k: Key)
    requires Typed(x)
    requires IsShort(k)
    ensures Returns(x, k, Row(Attr(k), Bytes(2), IfSet)) <==> FitsAt(x, k)
  {
    Powers();
  }

  lemma PositiveReturns(x: Item, k: Key)
    requires Typed(x) && IsBonus(k)
    ensures Returns(x, k, Row(Attr(k), Bytes(2), IfNonZero)) <==> FitsAt(x, k)
  {
    Powers();
  }

  lemma SignedReturns(x: Item, k: Key)
    requires Typed(x) && IsSigned(k)
    ensures Returns(x, k, Row(Attr(k), Signed32, IfSet)) <==> FitsAt(x, k)
  {
    Powers();
  }

  lemma ActionReturns(x: Item)
    requires Typed(x)
    ensures Returns(x, ActionId, Row(Attr(ActionId), Bytes(2), IfNonZeroMoveable)) <==> FitsAt(x, ActionId)
  {
    Powers();
  }

  lemma DateReturns(x: Item)
    requires Typed(x)
    ensures Returns(x, Date, Row(Attr(Date), Signed32, IfNonZero)) <==> FitsAt(x, Date)
  {
    Powers();
  }

  lemma DurationReturns(x: Item)
    requires Typed(x)
    ensures Returns(x, Duration, Row(Attr(Duration), Signed32, IfSet)) <==> FitsAt(x, Duration)
  {
    Powers();
  }

  lemma DecayReturns(x: Item)
    requires Typed(x)
    ensures Returns(x, DecayState, Row(Attr(DecayState), Bytes(1), IfDecaying)) <==> FitsAt(x, DecayState)
  {
    Powers();
  }

  lemma WeightReturns(x: Item)
    requires Typed(x)
    ensures Returns(x, Weight, Row(Attr(Weight), Signed32, IfSet)) <==> FitsAt(x, Weight)
  {
    Powers();
  }

  lemma MissileReturns(x: Item)
    requires Typed(x)
    ensures Returns(x, MissileEffect, Row(Attr(MissileEffect), Bytes(1), IfSet)) <==> FitsAt(x, MissileEffect)
  {
    Powers();
  }

  lemma RowReturns(x: Item, k: Key)
    requires Typed(x) && TagOf(k) != 0
    ensures Returns(x, k, RowFor(k)) <==> FitsAt(x, k)
  {
    if IsText(k) {
      TextReturns(x, k, RowFor(k).when);
    } else if IsShort(k) {
      ShortReturns(x, k);
    } else if IsBonus(k) {
      PositiveReturns(x, k);
    } else if IsSigned(k) {
      SignedReturns(x, k);
    } else {
      SingularReturns(x, k);
    }
  }

  lemma SingularReturns(x: Item, k: Key)
    requires Typed(x) && TagOf(k) != 0 && !IsText(k) && !IsShort(k) && !IsBonus(k) && !IsSigned(k)
    ensures Returns(x, k, RowFor(k)) <==> FitsAt(x, k)
  {
    ActionReturns(x);
    DateReturns(x);
    DurationReturns(x);
    DecayReturns(x);
    WeightReturns(x);
    MissileReturns(x);
    assert k in {ActionId, Date, Duration, DecayState, Weight, MissileEffect};
  }

  lemma {:induction false} UntaggedReturns(x: Item, k: Key)
    requires Typed(x) && !BySubType(k) && TagOf(k) == 0
    ensures At(Created(x.kind), k) == At(x, k) <==> FitsAt(x, k)
  {
  }

  lemma TagReturns(x: Item, y: Item, k: Key)
    requires Typed(x) && TagOf(k) != 0 && RowOf(TagOf(k)) == Some(RowFor(k))
    requires At(y, k) == Landed(x, k, RowFor(k), At(Created(x.kind), k))
    ensures At(y, k) == At(x, k) <==> FitsAt(x, k)
  {
    RowReturns(x, k);
  }

  lemma LandedReturns(x: Item, y: Item, k: Key)
    requires Typed(x) && !BySubType(k)
    requires At(y, k) ==
      if RowOf(TagOf(k)).Some? then Landed(x, k, RowOf(TagOf(k)).value, At(Created(x.kind), k))
        else At(Created(x.kind), k)
    ensures At(y, k) == At(x, k) <==> FitsAt(x, k)
  {
    if TagOf(k) != 0 {
      KeyRow(k);
      TagReturns(x, y, k);
    } else {
      UntaggedReturns(x, k);
    }
  }

  /** Every attribute but the subtype's comes back as it was exactly when it is in range. */
  lemma KeyReturns(x: Item, tags: seq<byte>, k: Key)
    requires Typed(x) && Covers(tags) && !BySubType(k)
    ensures At(Restore(x, Created(x.kind), tags), k) == At(x, k) <==> FitsAt(x, k)
  {
    CoveredAt(x, Created(x.kind), tags, k);
    LandedReturns(x, Restore(x, Created(x.kind), tags), k);
  }

  predicate SubMatches(x: Item, y: Item) {
    y.count == x.count && At(y, Charges) == At(x, Charges) && At(y, FluidType) == At(x, FluidType)
  }

  predicate SubFits(x: Item)
    requires Typed(x)
  {
    FitsAt(x, Charges) && FitsAt(x, FluidType) && (x.count == 1 || (x.kind.stackable && !x.kind.fluid))
  }

  /** Writing and reading the count, then the charges. */
  lemma CountStep(x: Item, y: Item)
    requires Typed(x) && y.kind == x.kind
    ensures Step(x, y, COUNT_ROW) ==
      if x.kind.fluid then SetAttr(y, FluidType, Num(Get(x, FluidType) % 0x1_0000 % 0x100))
      else if x.kind.stackable then y.(count := x.count)
      else y
  {
    Powers();
  }

  lemma ChargesStep(x: Item, y: Item)
    requires y.kind == x.kind
    ensures Step(x, y, CHARGES_ROW) ==
      if Get(x, Charges) % 0x1_0000 == 0 then y else SetSubType(y, Get(x, Charges) % 0x1_0000)
  {
    Powers();
  }

  lemma {:induction false} FluidReturns(x: Item)
    requires Typed(x) && x.kind.fluid
    ensures SubMatches(x, Step(x, Step(x, Created(x.kind), COUNT_ROW), CHARGES_ROW)) <==> SubFits(x)
  {
    FluidSteps(x, Created(x.kind));
  }

  lemma {:induction false} FluidSteps(x: Item, y: Item)
    requires Typed(x) && x.kind.fluid && y.kind == x.kind && y.count == 1
    requires Charges !in y.attrs && FluidType in y.attrs && Charges !in Created(x.kind).attrs
    requires FluidType in Created(x.kind).attrs
    ensures SubMatches(x, Step(x, Step(x, y, COUNT_ROW), CHARGES_ROW)) <==> SubFits(x)
  {
    FluidEnds(x, y);
    assert FitsAt(x, Charges) <==> Charges !in x.attrs;
  }

  lemma {:induction false} FluidEnds(x: Item, y: Item)
    requires Typed(x) && x.kind.fluid && y.kind == x.kind
    ensures Step(x, Step(x, y, COUNT_ROW), CHARGES_ROW) ==
      SetAttr(y, FluidType, Num(if Get(x, Charges) % 0x1_0000 == 0 then Get(x, FluidType) % 0x1_0000 % 0x100
                                else Get(x, Charges) % 0x1_0000))
  {
    CountStep(x, y);
    ChargesStep(x, Step(x, y, COUNT_ROW));
  }

  lemma {:induction false} StackReturns(x: Item)
    requires Typed(x) && !x.kind.fluid && x.kind.stackable
    ensures SubMatches(x, Step(x, Step(x, Created(x.kind), COUNT_ROW), CHARGES_ROW)) <==> SubFits(x)
  {
    var y := Created(x.kind);
    CountStep(x, y);
    ChargesStep(x, Step(x, y, COUNT_ROW));
  }

  lemma {:induction false} SingleReturns(x: Item)
    requires Typed(x) && !x.kind.fluid && !x.kind.stackable
    ensures SubMatches(x, Step(x, Step(x, Created(x.kind), COUNT_ROW), CHARGES_ROW)) <==> SubFits(x)
  {
    var y := Created(x.kind);
    CountStep(x, y);
    ChargesStep(x, Step(x, y, COUNT_ROW));
  }

  /** The subtype and the count come back exactly when they are in range. */
  lemma SubReturns(x: Item, tags: seq<byte>)
    requires Typed(x) && Covers(tags) && |tags| >= 2 && tags[0] == 15 && tags[1] == 22
    ensures SubMatches(x, Restore(x, Created(x.kind), tags)) <==> SubFits(x)
  {
    CoveredSub(x, Created(x.kind), tags);
    if x.kind.fluid {
      FluidReturns(x);
    } else if x.kind.stackable {
      StackReturns(x);
    } else {
      SingleReturns(x);
    }
  }

  lemma StorableByKey(x: Item)
    requires Typed(x)
    ensures Storable(x) <==> (forall k :: FitsAt(x, k)) && (x.count == 1 || (x.kind.stackable && !x.kind.fluid))
  {
    if Storable(x) {
      forall k ensures FitsAt(x, k) {}
    }
    if forall k :: FitsAt(x, k) {
      forall k | k in x.attrs ensures Fits(x.kind, k, x.attrs[k]) { assert FitsAt(x, k); }
      forall k | k in Created(x.kind).attrs ensures k in x.attrs { assert FitsAt(x, k); }
    }
  }

  lemma SameAttrs(x: Item, y: Item)
    ensures (forall k {:trigger At(x, k)} {:trigger At(y, k)} :: At(x, k) == At(y, k)) <==> x.attrs == y.attrs
  {
    if forall k {:trigger At(x, k)} {:trigger At(y, k)} :: At(x, k) == At(y, k) {
      forall k ensures (k in x.attrs <==> k in y.attrs) && (k in x.attrs ==> x.attrs[k] == y.attrs[k]) {
        assert At(x, k) == At(y, k);
      }
    }
  }

  lemma SubPart(x: Item, y: Item)
    requires Typed(x) && y.kind == x.kind && y.contents == []
    requires SubMatches(x, y) <==> SubFits(x)
    requires forall k {:trigger At(y, k)} {:trigger FitsAt(x, k)} :: !BySubType(k) ==>
      (At(y, k) == At(x, k) <==> FitsAt(x, k))
    ensures y == x.(contents := []) <==>
      (forall k :: FitsAt(x, k)) && (x.count == 1 || (x.kind.stackable && !x.kind.fluid))
  {
    SameAttrs(x, y);
    if y == x.(contents := []) {
      assert SubMatches(x, y);
      forall k ensures FitsAt(x, k) {
        assert At(y, k) == At(x, k);
      }
    }
    if (forall k :: FitsAt(x, k)) && (x.count == 1 || (x.kind.stackable && !x.kind.fluid)) {
      assert SubFits(x);
      forall k ensures At(x, k) == At(y, k) {
        assert FitsAt(x, k);
      }
    }
  }

  lemma StorableWith(x: Item, tags: seq<byte>)
    requires Typed(x) && Covers(tags) && |tags| >= 2 && tags[0] == 15 && tags[1] == 22
    ensures Restore(x, Created(x.kind), tags) == x.(contents := []) <==> Storable(x)
  {
    var y := Restore(x, Created(x.kind), tags);
    CoveredSub(x, Created(x.kind), tags);
    SubReturns(x, tags);
    forall k | !BySubType(k) ensures At(y, k) == At(x, k) <==> FitsAt(x, k) { KeyReturns(x, tags, k); }
    SubPart(x, y);
    StorableByKey(x);
  }

  /** One save and load leaves an item's own data as it was if and only if the item is
      storable. */
  lemma StorableExactly(x: Item)
    requires Typed(x)
    ensures Restored(x) == x.(contents := []) <==> Storable(x)
  {
    SavedTagsCovers();
    StorableWith(x, SAVED_TAGS);
  }

  /** An item that counts charges and has none left comes back with those of a new one. */
  lemma {:induction false} EmptyComesBackFull(x: Item)
    requires Typed(x) && !x.kind.fluid && !x.kind.stackable && x.kind.charges % 0x1_0000 != 0 && Get(x, Charges) == 0
    ensures Charges in Restored(x).attrs && Get(Restored(x), Charges) == x.kind.charges % 0x1_0000
    ensures Restored(x) != x
  {
    SavedTagsCovers();
    CoveredSub(x, Created(x.kind), SAVED_TAGS);
    CountStep(x, Created(x.kind));
    ChargesStep(x, Step(x, Created(x.kind), COUNT_ROW));
    assert At(Restored(x), Charges) == At(Created(x.kind), Charges);
  }

  /** One that does not come back as it was: a rune of five charges, all used. */
  lemma {:induction false} UsedRune(rune: Item)
    requires rune == Item(Kind(2268, false, false, 5, false, true, 0, 0, false), 1, map[Charges := Num(0)], [])
    ensures Typed(rune) && Get(Restored(rune), Charges) == rune.kind.charges && Restored(rune) != rune
  {
    var charges := rune.kind.charges;
    assert charges % 0x1_0000 == charges;
    EmptyComesBackFull(rune);
  }

  /** Attributes say nothing about the row or the contents. */
  lemma RestoredShape(x: Item)
    ensures Restored(x).kind == x.kind && Restored(x).contents == []
  {
    SavedTagsCovers();
    RestoreShape(x, SAVED_TAGS);
  }

  lemma {:induction false} RestoreShape(x: Item, tags: seq<byte>)
    requires Covers(tags) && |tags| >= 2 && tags[0] == 15 && tags[1] == 22
    ensures var y := Restore(x, Created(x.kind), tags); y.kind == x.kind && y.contents == []
  {
    var y := Created(x.kind);
    CreatedShape(x.kind);
    StepShape(x, y, COUNT_ROW);
    StepShape(x, Step(x, y, COUNT_ROW), CHARGES_ROW);
    CoveredSub(x, y, tags);
  }

  lemma {:induction false} CreatedShape(kind: Kind)
    ensures Created(kind).kind == kind && Created(kind).contents == []
  {
  }

  lemma {:induction false} StepShape(x: Item, y: Item, row: Row)
    ensures Step(x, y, row).kind == y.kind && Step(x, y, row).contents == y.contents
  {
  }
}
