/** Damage over time (`ConditionDamage::startCondition`, `executeCondition`): what fire,
    energy and poison do until they stop. */
module DamageConditions {
  datatype Kind = CONDITION_FIRE | CONDITION_ENERGY | CONDITION_POISON

  datatype Damage = Damage(kind: Kind, cycle: int, count: int, maxCount: int, factorPercent: int)

  /** `/` of the source: towards zero. */
  function TruncDiv(a: int, b: int): int
    requires b > 0
  {
    if a < 0 then -((-a) / b) else a / b
  }

  function Sign(n: int): int { if n > 0 then 1 else -1 }

  function Clamped(factorPercent: int): int {
    var f := if factorPercent == -1 then 50 else factorPercent;
    var g := if f <= 9 then 10 else f;
    if g >= 1001 then 1000 else g
  }

  /** For poison, a clamped factor whose product with the cycle fits 32 bits. */
  predicate Sane(c: Damage) {
    c.kind == CONDITION_POISON ==> 10 <= c.factorPercent <= 1000 && c.factorPercent * Abs(c.cycle) < 0x8000_0000
  }

  /** What one poison hit takes. */
  function PoisonHit(c: Damage): int {
    var f := TruncDiv(c.factorPercent * c.cycle, 1000);
    if f == 0 then Sign(c.cycle) else f
  }

  datatype Turn = Turn(next: Damage, damage: int, goesOn: bool)

  /** `executeCondition`: the new state, the damage asked for, and whether it goes on. */
  function Execute(c: Damage): Turn {
    if c.cycle == 0 then Turn(c, 0, false)
    else if c.count > 0 then Turn(c.(count := c.count - 1), 0, true)
    else
      match c.kind
      case CONDITION_FIRE => Turn(c.(count := c.maxCount, cycle := c.cycle - Sign(c.cycle)), 10, true)
      case CONDITION_ENERGY => Turn(c.(count := c.maxCount, cycle := c.cycle - Sign(c.cycle)), 25, true)
      case CONDITION_POISON => Turn(c.(count := c.maxCount, cycle := c.cycle - PoisonHit(c)), PoisonHit(c), true)
  }

  function Abs(n: int): nat { if n < 0 then -n else n }

  function Positive(n: int): nat { if n < 0 then 0 else n }

  /** A poison hit takes at least one and never more than what is left. */
  lemma PoisonHitBounds(c: Damage)
    requires Sane(c) && c.kind == CONDITION_POISON && c.cycle != 0
    ensures c.cycle > 0 ==> 1 <= PoisonHit(c) <= c.cycle
    ensures c.cycle < 0 ==> c.cycle <= PoisonHit(c) <= -1
  {
    var p := c.factorPercent * Abs(c.cycle);
    ProductBounds(c.factorPercent, Abs(c.cycle));
    assert p / 1000 <= Abs(c.cycle);
    assert c.cycle < 0 ==> c.factorPercent * c.cycle == -p;
  }

  /** A hit takes whole thousandths of factor times what is left, rounded towards zero, and one
      where that is none. */
  lemma PoisonHitExactly(c: Damage, k: int)
    requires Sane(c) && c.kind == CONDITION_POISON && c.cycle > 0
    ensures k == PoisonHit(c) <==>
      || (k == 1 && c.factorPercent * c.cycle < 1000)
      || (k > 0 && 1000 * k <= c.factorPercent * c.cycle < 1000 * k + 1000)
  {
    var p := c.factorPercent * c.cycle;
    ProductBounds(c.factorPercent, c.cycle);
    assert p == 1000 * (p / 1000) + p % 1000;
  }

  lemma ProductBounds(f: nat, n: nat)
    requires f <= 1000
    ensures 0 <= f * n <= 1000 * n
  {
    assert 1000 * n - f * n == (1000 - f) * n;
    assert (1000 - f) * n >= 0;
  }

  lemma ExecuteShrinks(c: Damage)
    requires Sane(c) && c.cycle != 0
    ensures var next := Execute(c).next;
      && Sane(next)
      && (Abs(next.cycle) < Abs(c.cycle) || (next.cycle == c.cycle && Positive(next.count) < Positive(c.count)))
  {
    if c.kind.CONDITION_POISON? && c.count <= 0 {
      PoisonHitBounds(c);
      ProductShrinks(c.factorPercent, Abs(c.cycle - PoisonHit(c)), Abs(c.cycle));
    }
  }

  lemma ProductShrinks(f: nat, a: nat, b: nat)
    requires a <= b
    ensures f * a <= f * b
  {
    assert f * b - f * a == f * (b - a);
  }

  /** All the damage until the condition stops. */
  ghost function Total(c: Damage): int
    requires Sane(c)
    decreases Abs(c.cycle), Positive(c.count)
  {
    if c.cycle == 0 then 0
    else ExecuteShrinks(c); Execute(c).damage + Total(Execute(c).next)
  }

  /** The number of executions until it stops, the last one included. */
  ghost function Ticks(c: Damage): nat
    requires Sane(c)
    decreases Abs(c.cycle), Positive(c.count)
  {
    if c.cycle == 0 then 1
    else ExecuteShrinks(c); 1 + Ticks(Execute(c).next)
  }

  /** Poison takes exactly its cycle, whatever the factor. */
  lemma {:induction false} PoisonTotal(c: Damage)
    requires Sane(c) && c.kind == CONDITION_POISON
    ensures Total(c) == c.cycle
    decreases Abs(c.cycle), Positive(c.count)
  {
    if c.cycle != 0 {
      ExecuteShrinks(c);
      PoisonTotal(Execute(c).next);
    }
  }

  /** Fire takes ten and energy twenty-five for every cycle. */
  lemma {:induction false} BurnTotal(c: Damage)
    requires Sane(c) && c.kind != CONDITION_POISON
    ensures Total(c) == (if c.kind == CONDITION_FIRE then 10 else 25) * Abs(c.cycle)
    decreases Abs(c.cycle), Positive(c.count)
  {
    if c.cycle != 0 {
      ExecuteShrinks(c);
      BurnTotal(Execute(c).next);
    }
  }

  /** How long fire and energy last: the count that is running, then a full round for every
      further cycle, then the execution that ends it. */
  lemma {:induction false} BurnTicks(c: Damage)
    requires Sane(c) && c.kind != CONDITION_POISON && c.cycle != 0
    ensures Ticks(c) == Positive(c.count) + 1 + (Abs(c.cycle) - 1) * (Positive(c.maxCount) + 1) + 1
    decreases Abs(c.cycle), Positive(c.count)
  {
    ExecuteShrinks(c);
    var next := Execute(c).next;
    if next.cycle != 0 {
      BurnTicks(next);
      if Abs(c.cycle) > 1 { RoundsStep(Abs(c.cycle) - 1, Positive(c.maxCount) + 1); }
    }
  }

  lemma RoundsStep(n: nat, k: nat)
    requires n > 0
    ensures n * k == (n - 1) * k + k
  {
  }

  /** Started with a full count, it ends after `cycle * (maxCount + 1) + 1` executions. */
  lemma BurnTicksFromFull(c: Damage)
    requires Sane(c) && c.kind != CONDITION_POISON && c.cycle > 0 && c.count == c.maxCount >= 0
    ensures Ticks(c) == c.cycle * (c.maxCount + 1) + 1
  {
    BurnTicks(c);
    RoundsStep(c.cycle, c.maxCount + 1);
  }

  // ---- the condition itself ---------------------------------------------------------------------

  class ConditionDamage {
    const kind: Kind
    var cycle: int
    var count: int
    var maxCount: int
    var factorPercent: int

    constructor (kind: Kind, cycle: int, count: int, maxCount: int, factorPercent: int)
      ensures State() == Damage(kind, cycle, count, maxCount, factorPercent)
    {
      this.kind := kind;
      this.cycle, this.count, this.maxCount, this.factorPercent := cycle, count, maxCount, factorPercent;
    }

    function State(): Damage
      reads this
    {
      Damage(kind, cycle, count, maxCount, factorPercent)
    }

    method StartCondition()
      modifies this
      ensures State() == old(State()).(factorPercent := Clamped(old(factorPercent)))
      ensures 10 <= factorPercent <= 1000
    {
      if factorPercent == -1 { factorPercent := 50; }
      if factorPercent <= 9 { factorPercent := 10; }
      if factorPercent >= 1001 { factorPercent := 1000; }
    }

    method ExecuteCondition() returns (damage: int, goesOn: bool)
      modifies this
      ensures Turn(State(), damage, goesOn) == Execute(old(State()))
    {
      damage, goesOn := 0, true;
      var rCycle := cycle;
      if rCycle == 0 { return 0, false; }
      if count > 0 {
        count := count - 1;
        return;
      }
      count := maxCount;
      match kind
      case CONDITION_FIRE =>
        cycle := rCycle + 2 * (if rCycle <= 0 then 1 else 0) - 1;
        damage := 10;
      case CONDITION_ENERGY =>
        cycle := rCycle + 2 * (if rCycle <= 0 then 1 else 0) - 1;
        damage := 25;
      case CONDITION_POISON =>
        var f := TruncDiv(factorPercent * rCycle, 1000);
        if f == 0 { f := 2 * (if rCycle > 0 then 1 else 0) - 1; }
        cycle := rCycle - f;
        damage := f;
    }
  }
}
