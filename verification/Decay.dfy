/** The decay wheel (`Game::startDecay`, `internalDecayItem`, `checkDecay`, `cleanup`):
    four lists of waiting items, one of which is looked at every quarter second. */
module Decay {
  import opened Sequences

  type Item = nat

  const EVENT_DECAYINTERVAL := 250
  const EVENT_DECAY_BUCKETS := 4
  const ROUND := 1000  // EVENT_DECAYINTERVAL * EVENT_DECAY_BUCKETS

  /** What becomes of an item whose time is up: it goes, it turns into another kind of
      item, or another item takes its place; the last two wait again when they have
      time to. */
  datatype Outcome = Gone | Becomes(duration: nat) | ReplacedBy(duration: nat)

  /** What the rest of the game decides during one tick. */
  datatype World = World(canDecay: Item -> bool, outcome: Item -> Outcome)

  /** `decaying` is the items in state DECAYING_TRUE; `fired` lists the items whose time
      came, in order; item ids from `unused` on have not been given out. */
  datatype Wheel = Wheel(
    buckets: seq<seq<Item>>, toDecay: seq<Item>, lastBucket: nat,
    duration: map<Item, int>, decaying: set<Item>, fired: seq<Item>, unused: Item)

  function Duration(w: Wheel, x: Item): int {
    if x in w.duration then w.duration[x] else 0
  }

  // ---- the steps ---------------------------------------------------------------------------

  function Push(w: Wheel, b: nat, x: Item): Wheel
    requires b < |w.buckets|
  {
    w.(buckets := w.buckets[b := w.buckets[b] + [x]])
  }

  /** An item is made, with a duration. */
  function Make(w: Wheel, d: nat): Wheel {
    w.(unused := w.unused + 1, duration := w.duration[w.unused := d], decaying := w.decaying - {w.unused})
  }

  /** The waiting half of `startDecay`: for an item that can decay and has time left. */
  function Start(w: Wheel, x: Item): Wheel {
    if x in w.decaying then w
    else w.(decaying := w.decaying + {x}, toDecay := [x] + w.toDecay)
  }

  /** `internalDecayItem`. */
  function Fire(w: Wheel, x: Item, world: World): (w': Wheel)
    ensures w'.buckets == w.buckets
  {
    var w1 := w.(fired := w.fired + [x]);
    match world.outcome(x)
    case Gone => w1
    case Becomes(d) =>
      var retyped := w1.(decaying := w1.decaying - {x}, duration := w1.duration[x := d]);
      if d > 0 then Start(retyped, x) else retyped
    case ReplacedBy(d) =>
      var made := w1.(unused := w1.unused + 1, duration := w1.duration[w1.unused := d],
                       decaying := w1.decaying - {w1.unused});
      if d > 0 then Start(made, w1.unused) else made
  }

  /** `startDecay`: without time left, the item decays at once. */
  function StartOrFire(w: Wheel, x: Item, world: World): (w': Wheel)
    ensures w'.buckets == w.buckets
  {
    if !world.canDecay(x) || x in w.decaying then w
    else if Duration(w, x) > 0 then Start(w, x)
    else Fire(w, x, world)
  }

  /** One item of the bucket under the hand. */
  function Handle(w: Wheel, x: Item, b: nat, world: World): (w': Wheel)
    requires |w.buckets| == EVENT_DECAY_BUCKETS && b < EVENT_DECAY_BUCKETS
    ensures |w'.buckets| == EVENT_DECAY_BUCKETS
  {
    if !world.canDecay(x) then w.(decaying := w.decaying - {x})
    else
      var duration := Duration(w, x);
      var decreaseTime := if ROUND < duration then ROUND else duration;
      var left := duration - decreaseTime;
      var w1 := w.(duration := w.duration[x := left]);
      if left <= 0 then Fire(w1, x, world)
      else if left < ROUND then
        var newBucket := (b + (left + EVENT_DECAYINTERVAL / 2) / 1000) % EVENT_DECAY_BUCKETS;
        if newBucket == b then Fire(w1, x, world) else Push(w1, newBucket, x)
      else Push(w1, b, x)
  }

  function Sweep(w: Wheel, xs: seq<Item>, b: nat, world: World): (w': Wheel)
    requires |w.buckets| == EVENT_DECAY_BUCKETS && b < EVENT_DECAY_BUCKETS
    ensures |w'.buckets| == EVENT_DECAY_BUCKETS
    decreases |xs|
  {
    if xs == [] then w else Sweep(Handle(w, xs[0], b, world), xs[1..], b, world)
  }

  /** Where `cleanup` puts an item that is to start waiting. */
  function Entry(lastBucket: nat, duration: int): nat {
    if duration >= ROUND then lastBucket % EVENT_DECAY_BUCKETS
    else if duration < 0 then lastBucket % EVENT_DECAY_BUCKETS
    else (lastBucket + 1 + duration / 1000) % EVENT_DECAY_BUCKETS
  }

  function Clean(w: Wheel, xs: seq<Item>): (w': Wheel)
    requires |w.buckets| == EVENT_DECAY_BUCKETS
    ensures |w'.buckets| == EVENT_DECAY_BUCKETS
    decreases |xs|
  {
    if xs == [] then w else Clean(Push(w, Entry(w.lastBucket, Duration(w, xs[0])), xs[0]), xs[1..])
  }

  /** `cleanup`: places every pending item. */
  function AfterCleanup(w: Wheel): (w': Wheel)
    requires |w.buckets| == EVENT_DECAY_BUCKETS
    ensures |w'.buckets| == EVENT_DECAY_BUCKETS
  {
    Clean(w.(toDecay := []), w.toDecay)
  }

  /** The loop of `checkDecay`, and the hand moved on. */
  function Swept(w: Wheel, world: World): (w': Wheel)
    requires |w.buckets| == EVENT_DECAY_BUCKETS
    ensures |w'.buckets| == EVENT_DECAY_BUCKETS
  {
    var b := (w.lastBucket + 1) % EVENT_DECAY_BUCKETS;
    Sweep(w.(buckets := w.buckets[b := []]), w.buckets[b], b, world).(lastBucket := b)
  }

  /** `checkDecay`, with the `cleanup` that ends it. */
  function Tick(w: Wheel, world: World): (w': Wheel)
    requires |w.buckets| == EVENT_DECAY_BUCKETS
    ensures |w'.buckets| == EVENT_DECAY_BUCKETS
  {
    AfterCleanup(Swept(w, world))
  }

  // ---- counting ------------------------------------------------------------------------------

  /** How often `x` stands in bucket `i`, and in the pending list. */
  function In(w: Wheel, x: Item, i: nat): nat
    requires i < |w.buckets|
  {
    multiset(w.buckets[i])[x]
  }

  function Pending(w: Wheel, x: Item): nat { multiset(w.toDecay)[x] }

  function Fired(w: Wheel, x: Item): nat { multiset(w.fired)[x] }

  function Waiting(w: Wheel, x: Item): nat
    requires |w.buckets| == EVENT_DECAY_BUCKETS
  {
    In(w, x, 0) + In(w, x, 1) + In(w, x, 2) + In(w, x, 3) + Pending(w, x)
  }

  /** Nothing about `x` differs. */
  predicate SameFor(w: Wheel, w': Wheel, x: Item)
    requires |w.buckets| == |w'.buckets| == EVENT_DECAY_BUCKETS
  {
    && In(w', x, 0) == In(w, x, 0) && In(w', x, 1) == In(w, x, 1)
       && In(w', x, 2) == In(w, x, 2) && In(w', x, 3) == In(w, x, 3)
    && Pending(w', x) == Pending(w, x) && Fired(w', x) == Fired(w, x)
    && Duration(w', x) == Duration(w, x) && (x in w'.decaying <==> x in w.decaying)
  }

  lemma PushCounts(w: Wheel, b: nat, x: Item, y: Item)
    requires |w.buckets| == EVENT_DECAY_BUCKETS && b < EVENT_DECAY_BUCKETS
    ensures forall i {:trigger In(Push(w, b, x), y, i)} :: 0 <= i < 4 ==>
      In(Push(w, b, x), y, i) == In(w, y, i) + if i == b && x == y then 1 else 0
    ensures Pending(Push(w, b, x), y) == Pending(w, y)
  {
  }

  lemma StartCounts(w: Wheel, x: Item, y: Item)
    requires |w.buckets| == EVENT_DECAY_BUCKETS
    ensures Start(w, x).buckets == w.buckets
    ensures Pending(Start(w, x), y) == Pending(w, y) + if x == y && x !in w.decaying then 1 else 0
  {
  }

  lemma StartOthers(w: Wheel, x: Item, y: Item)
    requires |w.buckets| == EVENT_DECAY_BUCKETS && x != y
    ensures SameFor(w, Start(w, x), y)
  {
    StartCounts(w, x, y);
  }

  lemma FireOthers(w: Wheel, x: Item, world: World, y: Item)
    requires |w.buckets| == EVENT_DECAY_BUCKETS && x != y && y < w.unused
    ensures SameFor(w, Fire(w, x, world), y) && y < Fire(w, x, world).unused
  {
    var w1 := w.(fired := w.fired + [x]);
    assert SameFor(w, w1, y);
    match world.outcome(x)
    case Gone =>
    case Becomes(d) => StartOthers(w1.(decaying := w1.decaying - {x}, duration := w1.duration[x := d]), x, y);
    case ReplacedBy(d) =>
      StartOthers(w1.(unused := w1.unused + 1, duration := w1.duration[w1.unused := d],
                        decaying := w1.decaying - {w1.unused}), w1.unused, y);
  }

  /** What `Handle` comes down to. */
  datatype Verdict = Drop | Now(left: int) | Later(left: int, bucket: nat)

  function Judge(w: Wheel, x: Item, b: nat, world: World): Verdict
    requires b < EVENT_DECAY_BUCKETS
  {
    var duration := Duration(w, x);
    var left := duration - (if ROUND < duration then ROUND else duration);
    if !world.canDecay(x) then Drop
    else if left <= 0 then Now(left)
    else if left < 875 then Now(left)
    else if left < ROUND then Later(left, (b + 1) % EVENT_DECAY_BUCKETS)
    else Later(left, b)
  }

  lemma HandleByVerdict(w: Wheel, x: Item, b: nat, world: World)
    requires |w.buckets| == EVENT_DECAY_BUCKETS && b < EVENT_DECAY_BUCKETS
    ensures Handle(w, x, b, world) ==
      match Judge(w, x, b, world)
      case Drop => w.(decaying := w.decaying - {x})
      case Now(left) => Fire(w.(duration := w.duration[x := left]), x, world)
      case Later(left, bucket) => Push(w.(duration := w.duration[x := left]), bucket, x)
  {
  }

  lemma HandleOthers(w: Wheel, x: Item, b: nat, world: World, y: Item)
    requires |w.buckets| == EVENT_DECAY_BUCKETS && b < EVENT_DECAY_BUCKETS && x != y && y < w.unused
    ensures SameFor(w, Handle(w, x, b, world), y) && y < Handle(w, x, b, world).unused
  {
    HandleByVerdict(w, x, b, world);
    match Judge(w, x, b, world)
    case Drop =>
    case Now(left) => FireOthers(w.(duration := w.duration[x := left]), x, world, y);
    case Later(left, bucket) => PushCounts(w.(duration := w.duration[x := left]), bucket, x, y);
  }

  lemma {:induction false} SweepOthers(w: Wheel, xs: seq<Item>, b: nat, world: World, y: Item)
    requires |w.buckets| == EVENT_DECAY_BUCKETS && b < EVENT_DECAY_BUCKETS && y !in xs && y < w.unused
    ensures SameFor(w, Sweep(w, xs, b, world), y) && y < Sweep(w, xs, b, world).unused
    decreases |xs|
  {
    if xs != [] {
      HandleOthers(w, xs[0], b, world, y);
      SweepOthers(Handle(w, xs[0], b, world), xs[1..], b, world, y);
    }
  }

  // ---- every waiting item waits in one place -------------------------------------------------

  predicate Ok(w: Wheel, x: Item)
    requires |w.buckets| == EVENT_DECAY_BUCKETS
  {
    && Waiting(w, x) <= 1
    && (Waiting(w, x) == 1 ==> x in w.decaying && Duration(w, x) > 0)
    && (x in w.decaying ==> x < w.unused)
  }

  ghost predicate Valid(w: Wheel) {
    && |w.buckets| == EVENT_DECAY_BUCKETS && w.lastBucket < EVENT_DECAY_BUCKETS
    && forall x {:trigger Ok(w, x)} :: Ok(w, x)
  }

  /** An item in hand: taken out of its list and about to be dealt with. */
  predicate InHand(w: Wheel, x: Item)
    requires |w.buckets| == EVENT_DECAY_BUCKETS
  {
    Waiting(w, x) == 0 && x in w.decaying && x < w.unused && Duration(w, x) > 0
  }

  lemma PushOk(w: Wheel, b: nat, x: Item, y: Item)
    requires |w.buckets| == EVENT_DECAY_BUCKETS && b < EVENT_DECAY_BUCKETS && Ok(w, y) && InHand(w, x)
    ensures Ok(Push(w, b, x), y)
  {
    PushCounts(w, b, x, y);
  }

  lemma StartOk(w: Wheel, x: Item, y: Item)
    requires |w.buckets| == EVENT_DECAY_BUCKETS && Ok(w, x) && Ok(w, y) && x < w.unused && Duration(w, x) > 0
    ensures Ok(Start(w, x), y)
  {
    StartCounts(w, x, y);
  }

  lemma RetypeOk(w: Wheel, x: Item, d: nat, y: Item)
    requires |w.buckets| == EVENT_DECAY_BUCKETS && Ok(w, y) && Waiting(w, x) == 0
    ensures Ok(w.(decaying := w.decaying - {x}, duration := w.duration[x := d]), y)
  {
  }

  lemma FireKeeps(w: Wheel, x: Item, world: World)
    requires Valid(w) && Waiting(w, x) == 0 && x < w.unused
    ensures Valid(Fire(w, x, world))
  {
    var w1 := w.(fired := w.fired + [x]);
    forall y ensures Ok(Fire(w, x, world), y) {
      assert Ok(w, y) && Ok(w, x) && Ok(w, w.unused) && Ok(w1, y) && Ok(w1, w.unused) && Ok(w1, x);
      match world.outcome(x)
      case Gone =>
      case Becomes(d) =>
        RetypeOk(w1, x, d, x);
        RetypeOk(w1, x, d, y);
        if d > 0 { StartOk(w1.(decaying := w1.decaying - {x}, duration := w1.duration[x := d]), x, y); }
      case ReplacedBy(d) =>
        MakeOk(w1, d, y);
    }
  }

  lemma MakeOk(w: Wheel, d: nat, y: Item)
    requires |w.buckets| == EVENT_DECAY_BUCKETS && Ok(w, y) && Ok(w, w.unused)
    ensures var made := w.(unused := w.unused + 1, duration := w.duration[w.unused := d],
                           decaying := w.decaying - {w.unused});
      Ok(if d > 0 then Start(made, w.unused) else made, y)
  {
    var made := w.(unused := w.unused + 1, duration := w.duration[w.unused := d], decaying := w.decaying - {w.unused});
    assert Ok(made, y) && Ok(made, w.unused);
    if d > 0 { StartOk(made, w.unused, y); }
  }

  lemma HandleKeeps(w: Wheel, x: Item, b: nat, world: World)
    requires Valid(w) && b < EVENT_DECAY_BUCKETS && InHand(w, x)
    ensures Valid(Handle(w, x, b, world))
  {
    HandleByVerdict(w, x, b, world);
    var w' := Handle(w, x, b, world);
    match Judge(w, x, b, world)
    case Drop =>
      forall y ensures Ok(w', y) { assert Ok(w, y); }
    case Now(left) =>
      var w1 := w.(duration := w.duration[x := left]);
      forall y ensures Ok(w1, y) { assert Ok(w, y); }
      FireKeeps(w1, x, world);
    case Later(left, bucket) =>
      var w1 := w.(duration := w.duration[x := left]);
      forall y ensures Ok(w', y) {
        assert Ok(w, y) && Ok(w1, y);
        PushOk(w1, bucket, x, y);
      }
  }

  ghost predicate AllInHand(w: Wheel, xs: seq<Item>)
    requires |w.buckets| == EVENT_DECAY_BUCKETS
  {
    Distinct(xs) && forall x {:trigger InHand(w, x)} :: x in xs ==> InHand(w, x)
  }

  lemma {:induction false} SweepKeeps(w: Wheel, xs: seq<Item>, b: nat, world: World)
    requires Valid(w) && b < EVENT_DECAY_BUCKETS && AllInHand(w, xs)
    ensures Valid(Sweep(w, xs, b, world))
    decreases |xs|
  {
    if xs != [] {
      var w1 := Handle(w, xs[0], b, world);
      assert InHand(w, xs[0]);
      HandleKeeps(w, xs[0], b, world);
      forall y | y in xs[1..] ensures InHand(w1, y) {
        assert InHand(w, y);
        HandleOthers(w, xs[0], b, world, y);
      }
      SweepKeeps(w1, xs[1..], b, world);
    }
  }

  lemma {:induction false} CleanKeeps(w: Wheel, xs: seq<Item>)
    requires Valid(w) && AllInHand(w, xs)
    ensures Valid(Clean(w, xs))
    decreases |xs|
  {
    if xs != [] {
      CleanFirst(w, xs);
      CleanKeeps(Push(w, Entry(w.lastBucket, Duration(w, xs[0])), xs[0]), xs[1..]);
    }
  }

  lemma {:induction false} CountTwice(xs: seq<Item>, i: nat, j: nat)
    requires i < j < |xs| && xs[i] == xs[j]
    ensures multiset(xs)[xs[i]] >= 2
  {
    assert xs == xs[..j] + [xs[j]] + xs[j + 1..];
    assert xs[..j][i] == xs[i];
    assert xs[i] in multiset(xs[..j]);
  }

  lemma DistinctByCount(xs: seq<Item>)
    requires forall x :: multiset(xs)[x] <= 1
    ensures Distinct(xs)
  {
    forall i, j | 0 <= i < j < |xs| ensures xs[i] != xs[j] {
      if xs[i] == xs[j] { CountTwice(xs, i, j); }
    }
  }

  /** Taking a bucket out leaves its items in hand. */
  lemma TakeBucket(w: Wheel, b: nat)
    requires Valid(w) && b < EVENT_DECAY_BUCKETS
    ensures Valid(w.(buckets := w.buckets[b := []])) && AllInHand(w.(buckets := w.buckets[b := []]), w.buckets[b])
  {
    var w0 := w.(buckets := w.buckets[b := []]);
    forall x ensures multiset(w.buckets[b])[x] <= 1 && Ok(w0, x) && (x in w.buckets[b] ==> InHand(w0, x)) {
      assert Ok(w, x);
      assert In(w, x, b) == multiset(w.buckets[b])[x];
      assert x in w.buckets[b] <==> multiset(w.buckets[b])[x] > 0;
    }
    DistinctByCount(w.buckets[b]);
  }

  lemma TakePending(w: Wheel)
    requires Valid(w)
    ensures Valid(w.(toDecay := [])) && AllInHand(w.(toDecay := []), w.toDecay)
  {
    var w0 := w.(toDecay := []);
    forall x ensures multiset(w.toDecay)[x] <= 1 && Ok(w0, x) && (x in w.toDecay ==> InHand(w0, x)) {
      assert Ok(w, x);
      assert x in w.toDecay <==> multiset(w.toDecay)[x] > 0;
    }
    DistinctByCount(w.toDecay);
  }

  lemma RehandKeeps(w: Wheel, b: nat)
    requires Valid(w) && b < EVENT_DECAY_BUCKETS
    ensures Valid(w.(lastBucket := b))
  {
    forall x ensures Ok(w.(lastBucket := b), x) { assert Ok(w, x); }
  }

  lemma {:induction false} SweptKeeps(w: Wheel, world: World)
    requires Valid(w)
    ensures Valid(Swept(w, world))
  {
    var b := (w.lastBucket + 1) % EVENT_DECAY_BUCKETS;
    var w0 := w.(buckets := w.buckets[b := []]);
    TakeBucket(w, b);
    SweepKeeps(w0, w.buckets[b], b, world);
    RehandKeeps(Sweep(w0, w.buckets[b], b, world), b);
  }

  /** `cleanup`, in a tick or between two, keeps every waiting item in one place. */
  lemma {:induction false} CleanupKeeps(w: Wheel)
    requires Valid(w)
    ensures Valid(AfterCleanup(w)) && AfterCleanup(w).toDecay == [] && AfterCleanup(w).lastBucket == w.lastBucket
  {
    TakePending(w);
    CleanKeeps(w.(toDecay := []), w.toDecay);
    CleanPending(w.(toDecay := []), w.toDecay);
  }

  /** Every tick keeps every waiting item in exactly one place. */
  lemma {:induction false} TickKeeps(w: Wheel, world: World)
    requires Valid(w)
    ensures Valid(Tick(w, world)) && Tick(w, world).toDecay == []
  {
    SweptKeeps(w, world);
    CleanupKeeps(Swept(w, world));
  }

  lemma {:induction false} CleanPending(w: Wheel, xs: seq<Item>)
    requires |w.buckets| == EVENT_DECAY_BUCKETS
    ensures Clean(w, xs).toDecay == w.toDecay && Clean(w, xs).lastBucket == w.lastBucket
    ensures Clean(w, xs).fired == w.fired && Clean(w, xs).duration == w.duration
    decreases |xs|
  {
    if xs != [] {
      CleanPending(Push(w, Entry(w.lastBucket, Duration(w, xs[0])), xs[0]), xs[1..]);
    }
  }

  lemma {:induction false} CleanOthers(w: Wheel, xs: seq<Item>, y: Item)
    requires |w.buckets| == EVENT_DECAY_BUCKETS && y !in xs
    ensures SameFor(w, Clean(w, xs), y)
    decreases |xs|
  {
    if xs != [] {
      PushCounts(w, Entry(w.lastBucket, Duration(w, xs[0])), xs[0], y);
      CleanOthers(Push(w, Entry(w.lastBucket, Duration(w, xs[0])), xs[0]), xs[1..], y);
    }
  }

  /** Starting any item there is, with or without time left, keeps every waiting item in
      one place. */
  lemma {:induction false} StartKeeps(w: Wheel, x: Item, world: World)
    requires Valid(w) && x < w.unused
    ensures Valid(StartOrFire(w, x, world))
  {
    assert Ok(w, x);
    if world.canDecay(x) && x !in w.decaying && Duration(w, x) > 0 {
      forall y ensures Ok(Start(w, x), y) {
        assert Ok(w, y);
        StartOk(w, x, y);
      }
    } else if world.canDecay(x) && x !in w.decaying {
      FireKeeps(w, x, world);
    }
  }

  lemma {:induction false} MakeKeeps(w: Wheel, d: nat)
    requires Valid(w)
    ensures Valid(Make(w, d))
  {
    forall y ensures Ok(Make(w, d), y) {
      assert Ok(w, y) && Ok(w, w.unused);
    }
  }

  // ---- whole runs ----------------------------------------------------------------------------

  /** What happens to the wheel: a tick, an item that is started or made, and the `cleanup`
      that other parts of the game call. */
  datatype Event = Ticked(world: World) | Started(x: Item, world: World) | Made(duration: nat) | Cleaned

  function Next(w: Wheel, e: Event): (w': Wheel)
    requires |w.buckets| == EVENT_DECAY_BUCKETS
    ensures |w'.buckets| == EVENT_DECAY_BUCKETS
  {
    match e
    case Ticked(world) => Tick(w, world)
    case Started(x, world) => if x < w.unused then StartOrFire(w, x, world) else w
    case Made(d) => Make(w, d)
    case Cleaned => AfterCleanup(w)
  }

  function Run(w: Wheel, events: seq<Event>): (w': Wheel)
    requires |w.buckets| == EVENT_DECAY_BUCKETS
    ensures |w'.buckets| == EVENT_DECAY_BUCKETS
    decreases |events|
  {
    if events == [] then w else Run(Next(w, events[0]), events[1..])
  }

  function TicksIn(events: seq<Event>): nat {
    if events == [] then 0 else TicksIn(events[1..]) + if events[0].Ticked? then 1 else 0
  }

  lemma {:induction false} NextKeeps(w: Wheel, e: Event)
    requires Valid(w)
    ensures Valid(Next(w, e))
  {
    match e
    case Ticked(world) => TickKeeps(w, world);
    case Started(x, world) => if x < w.unused { StartKeeps(w, x, world); }
    case Made(d) => MakeKeeps(w, d);
    case Cleaned => CleanupKeeps(w);
  }

  /** In every run, every waiting item is in exactly one bucket or the pending list. */
  lemma {:induction false} RunKeeps(w: Wheel, events: seq<Event>)
    requires Valid(w)
    ensures Valid(Run(w, events))
    decreases |events|
  {
    if events != [] {
      NextKeeps(w, events[0]);
      RunKeeps(Next(w, events[0]), events[1..]);
    }
  }

  // ---- exactly when an item fires ---------------------------------------------------------------

  /** Ticks until the hand, last at `last`, looks at bucket `i`. */
  function Distance(i: nat, last: nat): nat
    requires i < EVENT_DECAY_BUCKETS && last < EVENT_DECAY_BUCKETS
  {
    (i + 3 - last) % 4 + 1
  }

  /** Ticks until an item of bucket `i` with `duration` left fires. */
  function Due(i: nat, last: nat, duration: int): nat
    requires i < EVENT_DECAY_BUCKETS && last < EVENT_DECAY_BUCKETS
  {
    Distance(i, last) + if duration < ROUND then 0
      else 4 * (duration / 1000 - 1) + (if duration % 1000 >= 875 then 1 else 0)
  }

  /** The tick at which an item entering the wheel with `duration` fires. */
  function FiringTick(duration: int): int {
    if duration < ROUND then 1 else 4 * (duration / 1000) + (if duration % 1000 >= 875 then 1 else 0)
  }

  lemma EntryDue(last: nat, duration: int)
    requires last < EVENT_DECAY_BUCKETS && duration > 0
    ensures Due(Entry(last, duration), last, duration) == FiringTick(duration)
  {
  }

  /** A look at the bucket under the hand, in numbers. */
  lemma JudgeDue(w: Wheel, x: Item, b: nat, last: nat, world: World)
    requires b < EVENT_DECAY_BUCKETS && last < EVENT_DECAY_BUCKETS && b == (last + 1) % EVENT_DECAY_BUCKETS
    requires Duration(w, x) > 0 && world.canDecay(x)
    ensures match Judge(w, x, b, world)
      case Drop => false
      case Now(left) => Due(b, last, Duration(w, x)) == 1
      case Later(left, bucket) =>
        left > 0 && Due(bucket, b, left) == Due(b, last, Duration(w, x)) - 1 && Due(b, last, Duration(w, x)) > 1
  {
    var d := Duration(w, x);
    if d >= ROUND {
      assert d / 1000 == (d - 1000) / 1000 + 1 && d % 1000 == (d - 1000) % 1000;
    }
  }

  lemma {:induction false} SweepSplits(w: Wheel, xs: seq<Item>, b: nat, world: World, k: nat)
    requires |w.buckets| == EVENT_DECAY_BUCKETS && b < EVENT_DECAY_BUCKETS && k < |xs|
    ensures Sweep(w, xs, b, world) == Sweep(Handle(Sweep(w, xs[..k], b, world), xs[k], b, world), xs[k + 1..], b, world)
    decreases k
  {
    if k > 0 {
      SweepSplits(Handle(w, xs[0], b, world), xs[1..], b, world, k - 1);
      assert xs[1..][..k - 1] == xs[..k][1..] && xs[1..][k..] == xs[k + 1..];
    } else {
      assert xs[..0] == [];
    }
  }

  /** Around its own turn, nothing in the sweep touches an item. */
  lemma SweepAround(w: Wheel, xs: seq<Item>, b: nat, world: World, k: nat) returns (w1: Wheel)
    requires |w.buckets| == EVENT_DECAY_BUCKETS && b < EVENT_DECAY_BUCKETS && k < |xs| && Distinct(xs)
    requires xs[k] < w.unused
    ensures |w1.buckets| == EVENT_DECAY_BUCKETS && SameFor(w, w1, xs[k]) && xs[k] < w1.unused
    ensures SameFor(Handle(w1, xs[k], b, world), Sweep(w, xs, b, world), xs[k])
  {
    var x := xs[k];
    w1 := Sweep(w, xs[..k], b, world);
    SweepOthers(w, xs[..k], b, world, x);
    SweepSplits(w, xs, b, world, k);
    HandleOwnUnused(w1, x, b, world);
    SweepOthers(Handle(w1, x, b, world), xs[k + 1..], b, world, x);
  }

  lemma HandleOwnUnused(w: Wheel, x: Item, b: nat, world: World)
    requires |w.buckets| == EVENT_DECAY_BUCKETS && b < EVENT_DECAY_BUCKETS
    ensures Handle(w, x, b, world).unused >= w.unused
  {
    HandleByVerdict(w, x, b, world);
  }

  lemma FireCounts(w: Wheel, x: Item, world: World)
    ensures Fired(Fire(w, x, world), x) == Fired(w, x) + 1
  {
  }

  /** `x` stands in one bucket and fires in `t` ticks, the hand being at `hand`. */
  predicate DueAt(w: Wheel, x: Item, hand: nat, t: int)
    requires |w.buckets| == EVENT_DECAY_BUCKETS && hand < EVENT_DECAY_BUCKETS
  {
    exists i {:trigger In(w, x, i)} :: 0 <= i < 4 && In(w, x, i) == 1 && Due(i, hand, Duration(w, x)) == t
  }

  /** An item that was due in `t` ticks, one tick later. */
  predicate Turned(w: Wheel, x: Item, hand: nat, fired: nat, t: int)
    requires |w.buckets| == EVENT_DECAY_BUCKETS && hand < EVENT_DECAY_BUCKETS
  {
    && (t == 1 ==> Fired(w, x) == fired + 1)
    && (t > 1 ==> Fired(w, x) == fired && Pending(w, x) == 0 && DueAt(w, x, hand, t - 1))
  }

  lemma TurnedSame(w: Wheel, w': Wheel, x: Item, hand: nat, fired: nat, t: int)
    requires |w.buckets| == |w'.buckets| == EVENT_DECAY_BUCKETS && hand < EVENT_DECAY_BUCKETS
    requires SameFor(w, w', x) && Turned(w, x, hand, fired, t)
    ensures Turned(w', x, hand, fired, t)
  {
    if t > 1 {
      var i :| 0 <= i < 4 && In(w, x, i) == 1 && Due(i, hand, Duration(w, x)) == t - 1;
      assert In(w', x, i) == 1;
    }
  }

  /** What one item's own turn does to it. */
  lemma OwnTurn(w: Wheel, x: Item, b: nat, last: nat, world: World)
    requires |w.buckets| == EVENT_DECAY_BUCKETS && b < EVENT_DECAY_BUCKETS && last < EVENT_DECAY_BUCKETS
    requires b == (last + 1) % EVENT_DECAY_BUCKETS && InHand(w, x) && world.canDecay(x)
    ensures Turned(Handle(w, x, b, world), x, b, Fired(w, x), Due(b, last, Duration(w, x)))
  {
    JudgeDue(w, x, b, last, world);
    HandleByVerdict(w, x, b, world);
    match Judge(w, x, b, world)
    case Now(left) => FireCounts(w.(duration := w.duration[x := left]), x, world);
    case Later(left, bucket) =>
      var w1 := w.(duration := w.duration[x := left]);
      PushCounts(w1, bucket, x, x);
      assert In(w, x, bucket) == 0;
      assert In(Handle(w, x, b, world), x, bucket) == 1;
  }

  lemma SweepTurns(w: Wheel, xs: seq<Item>, x: Item, b: nat, last: nat, world: World)
    requires |w.buckets| == EVENT_DECAY_BUCKETS && b < EVENT_DECAY_BUCKETS && last < EVENT_DECAY_BUCKETS
    requires b == (last + 1) % EVENT_DECAY_BUCKETS && world.canDecay(x)
    requires x in xs && AllInHand(w, xs)
    ensures Turned(Sweep(w, xs, b, world), x, b, Fired(w, x), Due(b, last, Duration(w, x)))
  {
    assert InHand(w, x);
    var k :| 0 <= k < |xs| && xs[k] == x;
    var w1 := SweepAround(w, xs, b, world, k);
    assert InHand(w1, x);
    OwnTurn(w1, x, b, last, world);
    TurnedSame(Handle(w1, x, b, world), Sweep(w, xs, b, world), x, b, Fired(w, x), Due(b, last, Duration(w, x)));
  }

  lemma {:induction false} TickUnderHand(w: Wheel, x: Item, world: World, b: nat)
    requires Valid(w) && world.canDecay(x) && b == (w.lastBucket + 1) % EVENT_DECAY_BUCKETS && In(w, x, b) == 1
    ensures Turned(Sweep(w.(buckets := w.buckets[b := []]), w.buckets[b], b, world), x, b, Fired(w, x),
        Due(b, w.lastBucket, Duration(w, x)))
  {
    TakeBucket(w, b);
    assert x in w.buckets[b];
    SweepTurns(w.(buckets := w.buckets[b := []]), w.buckets[b], x, b, w.lastBucket, world);
  }

  /** An item of another bucket only comes closer. */
  lemma {:induction false} TickElsewhere(w: Wheel, x: Item, world: World, b: nat, i: nat)
    requires Valid(w) && b == (w.lastBucket + 1) % EVENT_DECAY_BUCKETS
    requires i < EVENT_DECAY_BUCKETS && In(w, x, i) == 1 && i != b
    ensures Turned(Sweep(w.(buckets := w.buckets[b := []]), w.buckets[b], b, world), x, b, Fired(w, x),
        Due(i, w.lastBucket, Duration(w, x)))
  {
    var w0, xs := w.(buckets := w.buckets[b := []]), w.buckets[b];
    assert Ok(w, x);
    assert In(w, x, b) == 0;
    SweepOthers(w0, xs, b, world, x);
    assert In(w0, x, i) == 1;
    DueDrops(i, w.lastBucket, Duration(w, x));
    assert DueAt(w0, x, b, Due(i, w.lastBucket, Duration(w, x)) - 1);
    TurnedSame(w0, Sweep(w0, xs, b, world), x, b, Fired(w, x), Due(i, w.lastBucket, Duration(w, x)));
  }

  lemma DueDrops(i: nat, last: nat, duration: int)
    requires i < EVENT_DECAY_BUCKETS && last < EVENT_DECAY_BUCKETS && i != (last + 1) % EVENT_DECAY_BUCKETS
    ensures Due(i, (last + 1) % EVENT_DECAY_BUCKETS, duration) == Due(i, last, duration) - 1
    ensures Due(i, last, duration) > 1
  {
  }

  lemma {:induction false} SweepDue(w: Wheel, x: Item, world: World, b: nat, t: int)
    requires Valid(w) && world.canDecay(x) && DueAt(w, x, w.lastBucket, t)
    requires b == (w.lastBucket + 1) % EVENT_DECAY_BUCKETS
    ensures t >= 1
    ensures Turned(Sweep(w.(buckets := w.buckets[b := []]), w.buckets[b], b, world), x, b, Fired(w, x), t)
  {
    var i :| 0 <= i < 4 && In(w, x, i) == 1 && Due(i, w.lastBucket, Duration(w, x)) == t;
    if i == b {
      TickUnderHand(w, x, world, b);
    } else {
      TickElsewhere(w, x, world, b, i);
    }
  }

  /** One tick: an item due now fires, an item due later is due one tick sooner. */
  lemma {:induction false} TickTurns(w: Wheel, x: Item, world: World, t: int)
    requires Valid(w) && world.canDecay(x) && DueAt(w, x, w.lastBucket, t)
    ensures t >= 1
    ensures Valid(Tick(w, world)) && Tick(w, world).lastBucket == (w.lastBucket + 1) % EVENT_DECAY_BUCKETS
    ensures Turned(Tick(w, world), x, Tick(w, world).lastBucket, Fired(w, x), t)
  {
    var b := (w.lastBucket + 1) % EVENT_DECAY_BUCKETS;
    SweepDue(w, x, world, b, t);
    TickKeeps(w, world);
    CleanupTurns(Sweep(w.(buckets := w.buckets[b := []]), w.buckets[b], b, world), x, b, Fired(w, x), t);
  }

  lemma {:induction false} CleanupTurns(s: Wheel, x: Item, b: nat, fired: nat, t: int)
    requires |s.buckets| == EVENT_DECAY_BUCKETS && b < EVENT_DECAY_BUCKETS && t >= 1 && Turned(s, x, b, fired, t)
    ensures var w' := AfterCleanup(s.(lastBucket := b));
      w'.lastBucket == b && Turned(w', x, b, fired, t)
  {
    var c := s.(lastBucket := b, toDecay := []);
    CleanPending(c, s.toDecay);
    if t > 1 {
      assert x !in s.toDecay;
      CleanOthers(c, s.toDecay, x);
      TurnedSame(s, c, x, b, fired, t);
      TurnedSame(c, Clean(c, s.toDecay), x, b, fired, t);
    }
  }

  /** Left decayable, as far as the ticks of a run ask. */
  predicate Decayable(events: seq<Event>, x: Item) {
    forall k :: 0 <= k < |events| && events[k].Ticked? ==> events[k].world.canDecay(x)
  }

  /** Anything but a tick, and but a `cleanup` while it is pending, leaves a waiting item alone. */
  lemma {:induction false} EventOthers(w: Wheel, e: Event, x: Item)
    requires Valid(w) && Waiting(w, x) == 1 && !e.Ticked? && (e.Cleaned? ==> Pending(w, x) == 0)
    ensures SameFor(w, Next(w, e), x) && Next(w, e).lastBucket == w.lastBucket
  {
    assert Ok(w, x);
    match e
    case Started(y, world) => if y < w.unused { StartDecayOthers(w, y, world, x); }
    case Made(d) =>
    case Cleaned =>
      assert x !in w.toDecay;
      CleanPending(w.(toDecay := []), w.toDecay);
      CleanOthers(w.(toDecay := []), w.toDecay, x);
  }

  lemma {:induction false} StartDecayOthers(w: Wheel, y: Item, world: World, x: Item)
    requires |w.buckets| == EVENT_DECAY_BUCKETS && x in w.decaying && x < w.unused
    ensures SameFor(w, StartOrFire(w, y, world), x) && StartOrFire(w, y, world).lastBucket == w.lastBucket
  {
    if x != y {
      StartOthers(w, y, x);
      FireOthers(w, y, world, x);
    }
  }

  /** An item in a bucket waits, and is not pending. */
  lemma {:induction false} DueWaits(w: Wheel, x: Item, t: int)
    requires Valid(w) && DueAt(w, x, w.lastBucket, t)
    ensures Waiting(w, x) == 1 && Pending(w, x) == 0 && t >= 1
  {
    assert Ok(w, x);
    var i :| 0 <= i < 4 && In(w, x, i) == 1 && Due(i, w.lastBucket, Duration(w, x)) == t;
  }

  lemma {:induction false} DueSame(w: Wheel, w': Wheel, x: Item, hand: nat, t: int)
    requires |w.buckets| == |w'.buckets| == EVENT_DECAY_BUCKETS && hand < EVENT_DECAY_BUCKETS
    requires SameFor(w, w', x) && DueAt(w, x, hand, t)
    ensures DueAt(w', x, hand, t)
  {
    var i :| 0 <= i < 4 && In(w, x, i) == 1 && Due(i, hand, Duration(w, x)) == t;
    assert In(w', x, i) == 1;
  }

  /** In every run with fewer ticks than the item is due in, whatever else is started, made
      or cleaned up: it has not fired, and is due in what is left. */
  lemma {:induction false} NotYetDue(w: Wheel, x: Item, events: seq<Event>, t: int)
    requires Valid(w) && DueAt(w, x, w.lastBucket, t) && TicksIn(events) < t && Decayable(events, x)
    ensures Valid(Run(w, events)) && Fired(Run(w, events), x) == Fired(w, x)
    ensures DueAt(Run(w, events), x, Run(w, events).lastBucket, t - TicksIn(events))
    decreases |events|
  {
    if events != [] {
      var e, rest := events[0], events[1..];
      assert Decayable(rest, x) by {
        assert forall k :: 0 <= k < |rest| ==> rest[k] == events[k + 1];
      }
      if e.Ticked? {
        TickTurns(w, x, e.world, t);
        NotYetDue(Tick(w, e.world), x, rest, t - 1);
      } else {
        DueWaits(w, x, t);
        EventOthers(w, e, x);
        NextKeeps(w, e);
        DueSame(w, Next(w, e), x, w.lastBucket, t);
        NotYetDue(Next(w, e), x, rest, t);
      }
    }
  }

  lemma {:induction false} RunOn(w: Wheel, a: seq<Event>, b: seq<Event>)
    requires |w.buckets| == EVENT_DECAY_BUCKETS
    ensures Run(w, a + b) == Run(Run(w, a), b)
    decreases |a|
  {
    if a == [] {
      assert a + b == b;
    } else {
      assert (a + b)[0] == a[0] && (a + b)[1..] == a[1..] + b;
      RunOn(Next(w, a[0]), a[1..], b);
    }
  }

  /** For every run, whatever is started, made or cleaned up in between: an item due in `t`
      ticks and left decayable has not fired after fewer ticks, and fires once with tick `t`. */
  lemma {:induction false} FiresWhenDue(w: Wheel, x: Item, events: seq<Event>, world: World, t: int)
    requires Valid(w) && DueAt(w, x, w.lastBucket, t) && TicksIn(events) < t
    requires Decayable(events, x) && world.canDecay(x)
    ensures Fired(Run(w, events), x) == Fired(w, x)
    ensures Fired(Run(w, events + [Ticked(world)]), x) == Fired(w, x) + if TicksIn(events) + 1 == t then 1 else 0
  {
    NotYetDue(w, x, events, t);
    var w1 := Run(w, events);
    TickTurns(w1, x, world, t - TicksIn(events));
    RunOn(w, events, [Ticked(world)]);
    assert Run(w1, [Ticked(world)]) == Tick(w1, world);
  }

  /** What `cleanup` does with a pending item. */
  lemma {:induction false} CleanPlaces(w: Wheel, xs: seq<Item>, x: Item)
    requires Valid(w) && AllInHand(w, xs) && x in xs
    ensures DueAt(Clean(w, xs), x, w.lastBucket, FiringTick(Duration(w, x))) && Fired(Clean(w, xs), x) == Fired(w, x)
    decreases |xs|
  {
    var y := xs[0];
    var b := Entry(w.lastBucket, Duration(w, y));
    var w1 := Push(w, b, y);
    assert InHand(w, x) && InHand(w, y);
    CleanPending(w, xs);
    if x == y {
      EntryDue(w.lastBucket, Duration(w, x));
      PushCounts(w, b, x, x);
      CleanOthers(w1, xs[1..], x);
      assert In(w, x, b) == 0;
      assert In(Clean(w, xs), x, b) == 1;
    } else {
      CleanFirst(w, xs);
      CleanPlaces(w1, xs[1..], x);
    }
  }

  lemma CleanFirst(w: Wheel, xs: seq<Item>)
    requires Valid(w) && AllInHand(w, xs) && xs != []
    ensures var w1 := Push(w, Entry(w.lastBucket, Duration(w, xs[0])), xs[0]); Valid(w1) && AllInHand(w1, xs[1..])
  {
    var b := Entry(w.lastBucket, Duration(w, xs[0]));
    assert InHand(w, xs[0]);
    var w1 := Push(w, b, xs[0]);
    forall y ensures Ok(w1, y) { assert Ok(w, y); PushOk(w, b, xs[0], y); }
    forall y | y in xs[1..] ensures InHand(w1, y) {
      assert InHand(w, y);
      PushCounts(w, b, xs[0], y);
    }
  }

  /** The `cleanup` between two ticks places a pending item. */
  lemma {:induction false} CleanedPlaces(w: Wheel, x: Item)
    requires Valid(w) && x in w.toDecay
    ensures var w' := AfterCleanup(w);
      && w'.lastBucket == w.lastBucket
      && DueAt(w', x, w'.lastBucket, FiringTick(Duration(w, x))) && Fired(w', x) == Fired(w, x)
  {
    var w0 := w.(toDecay := []);
    TakePending(w);
    CleanPlaces(w0, w.toDecay, x);
    CleanPending(w0, w.toDecay);
  }

  /** So does the `cleanup` that ends a tick, which leaves it alone until then. */
  lemma {:induction false} TickedPlaces(w: Wheel, x: Item, world: World)
    requires Valid(w) && x in w.toDecay
    ensures var w' := Tick(w, world);
      && w'.lastBucket < EVENT_DECAY_BUCKETS
      && DueAt(w', x, w'.lastBucket, FiringTick(Duration(w, x))) && Fired(w', x) == Fired(w, x)
  {
    SweptPending(w, x, world);
    CleanedPlaces(Swept(w, world), x);
  }

  lemma {:induction false} SweptPending(w: Wheel, x: Item, world: World)
    requires Valid(w) && x in w.toDecay
    ensures var s := Swept(w, world);
      Valid(s) && x in s.toDecay && Duration(s, x) == Duration(w, x) && Fired(s, x) == Fired(w, x)
  {
    SweptKeeps(w, world);
    PendingElsewhere(w, x, (w.lastBucket + 1) % EVENT_DECAY_BUCKETS);
    SweptOthers(w, x, world);
    assert Pending(Swept(w, world), x) == 1;
  }

  lemma {:induction false} SweptOthers(w: Wheel, x: Item, world: World)
    requires |w.buckets| == EVENT_DECAY_BUCKETS && x < w.unused
    requires x !in w.buckets[(w.lastBucket + 1) % EVENT_DECAY_BUCKETS]
    ensures var s := Swept(w, world);
      Pending(s, x) == Pending(w, x) && Duration(s, x) == Duration(w, x) && Fired(s, x) == Fired(w, x)
  {
    var b := (w.lastBucket + 1) % EVENT_DECAY_BUCKETS;
    SweepOthers(w.(buckets := w.buckets[b := []]), w.buckets[b], b, world, x);
  }

  lemma {:induction false} PendingElsewhere(w: Wheel, x: Item, b: nat)
    requires Valid(w) && x in w.toDecay && b < EVENT_DECAY_BUCKETS
    ensures x !in w.buckets[b] && x < w.unused && Pending(w, x) == 1
  {
    assert Ok(w, x) && Pending(w, x) > 0 && In(w, x, b) == 0;
  }

  /** Events that start or make items, but neither tick nor clean up. */
  predicate Unplacing(events: seq<Event>) {
    forall k :: 0 <= k < |events| ==> events[k].Started? || events[k].Made?
  }

  /** Until then a pending item stays pending. */
  lemma {:induction false} PendingStays(w: Wheel, x: Item, events: seq<Event>)
    requires Valid(w) && x in w.toDecay && Unplacing(events)
    ensures var w' := Run(w, events);
      Valid(w') && x in w'.toDecay && Duration(w', x) == Duration(w, x) && Fired(w', x) == Fired(w, x)
    decreases |events|
  {
    if events != [] {
      assert Ok(w, x) && Pending(w, x) == 1;
      EventOthers(w, events[0], x);
      NextKeeps(w, events[0]);
      assert Pending(Next(w, events[0]), x) == 1;
      PendingStays(Next(w, events[0]), x, events[1..]);
    }
  }

  /** For every duration and every run: an item that is pending when `cleanup` comes, in a
      tick or on its own, and is left decayable from then on, fires exactly with tick
      `FiringTick(duration)` after it, whatever is started, made or cleaned up around it. */
  lemma {:induction false} FiresExactly(w: Wheel, x: Item, before: seq<Event>, e: Event, after: seq<Event>,
                                        world: World)
    requires Valid(w) && x in w.toDecay && Unplacing(before) && (e.Ticked? || e.Cleaned?)
    requires Decayable(after, x) && world.canDecay(x) && TicksIn(after) < FiringTick(Duration(w, x))
    ensures Fired(Run(w, before + [e] + after), x) == Fired(w, x)
    ensures Fired(Run(w, before + [e] + after + [Ticked(world)]), x)
         == Fired(w, x) + if TicksIn(after) + 1 == FiringTick(Duration(w, x)) then 1 else 0
  {
    var w1 := Run(w, before);
    var w2 := Next(w1, e);
    PendingStays(w, x, before);
    if e.Ticked? { TickedPlaces(w1, x, e.world); } else { CleanedPlaces(w1, x); }
    NextKeeps(w1, e);
    FiresWhenDue(w2, x, after, world, FiringTick(Duration(w, x)));
    RunOn(w, before, [e]);
    assert Run(w1, [e]) == w2;
    RunOn(w, before + [e], after);
    RunOn(w, before + [e], after + [Ticked(world)]);
    Associate(before + [e], after, [Ticked(world)]);
  }

  // ---- what becomes of an item that fires ---------------------------------------------------

  /** `x` is pending, with a duration of `d`. */
  predicate Awaits(w: Wheel, x: Item, d: int)
    requires |w.buckets| == EVENT_DECAY_BUCKETS
  {
    Pending(w, x) == 1 && Duration(w, x) == d
  }

  /** What is left of `x` after its time came, `y` being the number of the next item made. */
  predicate Became(w: Wheel, x: Item, y: Item, world: World)
    requires |w.buckets| == EVENT_DECAY_BUCKETS
  {
    match world.outcome(x)
    case Gone => Waiting(w, x) == 0
    case Becomes(d) => if d > 0 then Awaits(w, x, d) else Waiting(w, x) == 0
    case ReplacedBy(d) => Waiting(w, x) == 0 && (d > 0 ==> Awaits(w, y, d))
  }

  lemma {:induction false} BecameSame(w: Wheel, w': Wheel, x: Item, y: Item, world: World)
    requires |w.buckets| == |w'.buckets| == EVENT_DECAY_BUCKETS && Became(w, x, y, world) && SameFor(w, w', x)
    requires world.outcome(x).ReplacedBy? ==> SameFor(w, w', y)
    ensures Became(w', x, y, world)
  {
  }

  lemma {:induction false} FireFollows(w: Wheel, x: Item, world: World)
    requires |w.buckets| == EVENT_DECAY_BUCKETS && Waiting(w, x) == 0 && Waiting(w, w.unused) == 0 && x < w.unused
    ensures Became(Fire(w, x, world), x, w.unused, world)
  {
    var w1 := w.(fired := w.fired + [x]);
    match world.outcome(x)
    case Gone =>
    case Becomes(d) =>
      if d > 0 { StartCounts(w1.(decaying := w1.decaying - {x}, duration := w1.duration[x := d]), x, x); }
    case ReplacedBy(d) =>
      var made := w1.(unused := w1.unused + 1, duration := w1.duration[w1.unused := d],
                      decaying := w1.decaying - {w1.unused});
      if d > 0 {
        StartCounts(made, w.unused, w.unused);
        StartCounts(made, w.unused, x);
      }
  }

  lemma {:induction false} OwnFires(w: Wheel, x: Item, b: nat, last: nat, world: World)
    requires |w.buckets| == EVENT_DECAY_BUCKETS && b < EVENT_DECAY_BUCKETS && last < EVENT_DECAY_BUCKETS
    requires b == (last + 1) % EVENT_DECAY_BUCKETS && InHand(w, x) && Ok(w, w.unused)
    requires world.canDecay(x) ==> Due(b, last, Duration(w, x)) == 1
    ensures var w' := Handle(w, x, b, world);
      if world.canDecay(x) then Became(w', x, w.unused, world)
      else Waiting(w', x) == 0 && x !in w'.decaying && Fired(w', x) == Fired(w, x)
  {
    HandleByVerdict(w, x, b, world);
    if world.canDecay(x) {
      JudgeDue(w, x, b, last, world);
      match Judge(w, x, b, world)
      case Now(left) =>
        var w1 := w.(duration := w.duration[x := left]);
        FireFollows(w1, x, world);
    }
  }

  /** The wheel when the turn of `x` comes. */
  lemma {:induction false} SweepUntil(w: Wheel, xs: seq<Item>, x: Item, b: nat, world: World)
    returns (k: nat, w1: Wheel)
    requires Valid(w) && b < EVENT_DECAY_BUCKETS && x in xs && AllInHand(w, xs)
    ensures k < |xs| && xs[k] == x && w1 == Sweep(w, xs[..k], b, world) && w1.unused >= w.unused
    ensures Valid(w1) && InHand(w1, x) && Duration(w1, x) == Duration(w, x) && Fired(w1, x) == Fired(w, x)
  {
    assert InHand(w, x);
    k :| 0 <= k < |xs| && xs[k] == x;
    var before := xs[..k];
    w1 := Sweep(w, before, b, world);
    assert AllInHand(w, before) by {
      forall y | y in before ensures InHand(w, y) {}
    }
    SweepKeeps(w, before, b, world);
    SweepOthers(w, before, b, world, x);
    SweepUnused(w, before, b, world);
  }

  /** What the rest of the sweep leaves alone: that item, and any made in its turn. */
  lemma {:induction false} SweepAfter(w: Wheel, xs: seq<Item>, k: nat, b: nat, world: World, w1: Wheel, y: Item)
    requires Valid(w) && b < EVENT_DECAY_BUCKETS && AllInHand(w, xs) && k < |xs|
    requires w1 == Sweep(w, xs[..k], b, world) && w1.unused >= w.unused
    requires y == xs[k] || w1.unused <= y < Handle(w1, xs[k], b, world).unused
    ensures SameFor(Handle(w1, xs[k], b, world), Sweep(w, xs, b, world), y) && y < Sweep(w, xs, b, world).unused
  {
    assert InHand(w, xs[k]);
    HandleOwnUnused(w1, xs[k], b, world);
    SweepSplits(w, xs, b, world, k);
    assert y in xs ==> InHand(w, y);
    SweepOthers(Handle(w1, xs[k], b, world), xs[k + 1..], b, world, y);
  }

  lemma {:induction false} SweepUnused(w: Wheel, xs: seq<Item>, b: nat, world: World)
    requires |w.buckets| == EVENT_DECAY_BUCKETS && b < EVENT_DECAY_BUCKETS
    ensures Sweep(w, xs, b, world).unused >= w.unused
    decreases |xs|
  {
    if xs != [] {
      HandleOwnUnused(w, xs[0], b, world);
      SweepUnused(Handle(w, xs[0], b, world), xs[1..], b, world);
    }
  }

  /** A due item and the bucket under the hand. */
  lemma {:induction false} DueUnderHand(w: Wheel, x: Item, b: nat)
    requires Valid(w) && DueAt(w, x, w.lastBucket, 1) && b == (w.lastBucket + 1) % EVENT_DECAY_BUCKETS
    ensures In(w, x, b) == 1 && Due(b, w.lastBucket, Duration(w, x)) == 1
  {
    var i :| 0 <= i < 4 && In(w, x, i) == 1 && Due(i, w.lastBucket, Duration(w, x)) == 1;
    if i != b { DueDrops(i, w.lastBucket, Duration(w, x)); }
  }

  /** The sweep in which the time of `x` comes, or its turn while it cannot decay. `y` is the
      number of the item that takes its place, if there is one. */
  lemma {:induction false} SweptFollows(w: Wheel, x: Item, world: World, b: nat) returns (y: Item)
    requires Valid(w) && b == (w.lastBucket + 1) % EVENT_DECAY_BUCKETS && In(w, x, b) == 1
    requires world.canDecay(x) ==> Due(b, w.lastBucket, Duration(w, x)) == 1
    ensures var s := Swept(w, world);
      && Valid(s)
      && (!world.canDecay(x) ==> Waiting(s, x) == 0 && x !in s.decaying && Fired(s, x) == Fired(w, x))
      && (world.canDecay(x) ==>
            Became(s, x, y, world) && (world.outcome(x).ReplacedBy? ==> w.unused <= y < s.unused))
  {
    var w0, xs := w.(buckets := w.buckets[b := []]), w.buckets[b];
    SweptKeeps(w, world);
    TakeBucket(w, b);
    TakenSame(w, b, x);
    y := SweepFollows(w0, xs, x, world, b, w.lastBucket);
    RehandSame(Sweep(w0, xs, b, world), b, x, y, world);
  }

  lemma {:induction false} TakenSame(w: Wheel, b: nat, x: Item)
    requires |w.buckets| == EVENT_DECAY_BUCKETS && b < EVENT_DECAY_BUCKETS && In(w, x, b) == 1
    ensures var w0 := w.(buckets := w.buckets[b := []]);
      x in w.buckets[b] && Duration(w0, x) == Duration(w, x) && Fired(w0, x) == Fired(w, x)
  {
  }

  lemma {:induction false} SweepFollows(w: Wheel, xs: seq<Item>, x: Item, world: World, b: nat, last: nat)
    returns (y: Item)
    requires Valid(w) && b < EVENT_DECAY_BUCKETS && last < EVENT_DECAY_BUCKETS && AllInHand(w, xs) && x in xs
    requires b == (last + 1) % EVENT_DECAY_BUCKETS && (world.canDecay(x) ==> Due(b, last, Duration(w, x)) == 1)
    ensures var s := Sweep(w, xs, b, world);
      if world.canDecay(x) then
        Became(s, x, y, world) && (world.outcome(x).ReplacedBy? ==> w.unused <= y < s.unused)
      else Waiting(s, x) == 0 && x !in s.decaying && Fired(s, x) == Fired(w, x)
  {
    var k, w1 := SweepUntil(w, xs, x, b, world);
    y := w1.unused;
    SweepCarries(w, xs, x, b, last, world, k, w1);
  }

  lemma {:induction false} RehandSame(s: Wheel, b: nat, x: Item, y: Item, world: World)
    requires |s.buckets| == EVENT_DECAY_BUCKETS
    ensures SameFor(s, s.(lastBucket := b), x)
    ensures Became(s, x, y, world) <==> Became(s.(lastBucket := b), x, y, world)
  {
  }

  lemma {:induction false} SweepCarries(w: Wheel, xs: seq<Item>, x: Item, b: nat, last: nat, world: World, k: nat,
                                        w1: Wheel)
    requires Valid(w) && b < EVENT_DECAY_BUCKETS && last < EVENT_DECAY_BUCKETS && AllInHand(w, xs)
    requires b == (last + 1) % EVENT_DECAY_BUCKETS && k < |xs| && xs[k] == x
    requires w1 == Sweep(w, xs[..k], b, world) && w1.unused >= w.unused && Valid(w1) && InHand(w1, x)
    requires world.canDecay(x) ==> Due(b, last, Duration(w1, x)) == 1
    ensures var s := Sweep(w, xs, b, world);
      if world.canDecay(x) then
        Became(s, x, w1.unused, world) && (world.outcome(x).ReplacedBy? ==> w1.unused < s.unused)
      else Waiting(s, x) == 0 && x !in s.decaying && Fired(s, x) == Fired(w1, x)
  {
    assert Ok(w1, w1.unused);
    OwnFires(w1, x, b, last, world);
    SweepAfter(w, xs, k, b, world, w1, x);
    if world.canDecay(x) {
      if world.outcome(x).ReplacedBy? {
        ReplacedUnused(w1, x, b, last, world);
        SweepAfter(w, xs, k, b, world, w1, w1.unused);
      }
      BecameSame(Handle(w1, x, b, world), Sweep(w, xs, b, world), x, w1.unused, world);
    }
  }

  lemma {:induction false} ReplacedUnused(w: Wheel, x: Item, b: nat, last: nat, world: World)
    requires |w.buckets| == EVENT_DECAY_BUCKETS && b < EVENT_DECAY_BUCKETS && last < EVENT_DECAY_BUCKETS
    requires b == (last + 1) % EVENT_DECAY_BUCKETS && InHand(w, x) && world.canDecay(x)
    requires Due(b, last, Duration(w, x)) == 1 && world.outcome(x).ReplacedBy?
    ensures Handle(w, x, b, world).unused > w.unused
  {
    HandleByVerdict(w, x, b, world);
    JudgeDue(w, x, b, last, world);
  }

  /** An item whose turn comes while it cannot decay stops waiting, and does not fire. */
  lemma {:induction false} DroppedWhenStopped(w: Wheel, x: Item, world: World)
    requires Valid(w) && In(w, x, (w.lastBucket + 1) % EVENT_DECAY_BUCKETS) == 1 && !world.canDecay(x)
    ensures var w' := Tick(w, world);
      Waiting(w', x) == 0 && x !in w'.decaying && Fired(w', x) == Fired(w, x)
  {
    var b := (w.lastBucket + 1) % EVENT_DECAY_BUCKETS;
    var _ := SweptFollows(w, x, world, b);
    assert Ok(w, x);
    CleanupOthers(Swept(w, world), x);
  }

  lemma {:induction false} CleanupOthers(s: Wheel, x: Item)
    requires Valid(s) && Pending(s, x) == 0
    ensures SameFor(s, AfterCleanup(s), x)
  {
    assert x !in s.toDecay;
    CleanPending(s.(toDecay := []), s.toDecay);
    CleanOthers(s.(toDecay := []), s.toDecay, x);
  }

  /** An item that turns into another kind with `d` left waits again from the tick in which it
      fired, and is due `FiringTick(d)` ticks later; with nothing left it waits no more. */
  lemma {:induction false} TurnsAndWaits(w: Wheel, x: Item, world: World)
    requires Valid(w) && DueAt(w, x, w.lastBucket, 1) && world.canDecay(x) && world.outcome(x).Becomes?
    ensures var w', d := Tick(w, world), world.outcome(x).duration;
      && w'.lastBucket < EVENT_DECAY_BUCKETS && Fired(w', x) == Fired(w, x) + 1
      && if d > 0 then DueAt(w', x, w'.lastBucket, FiringTick(d)) else Waiting(w', x) == 0
  {
    var b := (w.lastBucket + 1) % EVENT_DECAY_BUCKETS;
    DueUnderHand(w, x, b);
    var _ := SweptFollows(w, x, world, b);
    TickTurns(w, x, world, 1);
    var s := Swept(w, world);
    if world.outcome(x).duration > 0 {
      assert x in s.toDecay;
      CleanedPlaces(s, x);
    } else {
      CleanupOthers(s, x);
    }
  }

  /** The same for a new item that takes the place of one that fires. */
  lemma {:induction false} ReplacedAndWaits(w: Wheel, x: Item, world: World) returns (y: Item)
    requires Valid(w) && DueAt(w, x, w.lastBucket, 1) && world.canDecay(x) && world.outcome(x).ReplacedBy?
    ensures var w', d := Tick(w, world), world.outcome(x).duration;
      && w'.lastBucket < EVENT_DECAY_BUCKETS && Fired(w', x) == Fired(w, x) + 1 && Waiting(w', x) == 0
      && w.unused <= y < w'.unused
      && (d > 0 ==> DueAt(w', y, w'.lastBucket, FiringTick(d)))
  {
    var b := (w.lastBucket + 1) % EVENT_DECAY_BUCKETS;
    DueUnderHand(w, x, b);
    y := SweptFollows(w, x, world, b);
    TickTurns(w, x, world, 1);
    var s := Swept(w, world);
    CleanupOthers(s, x);
    CleanUnused(s.(toDecay := []), s.toDecay);
    if world.outcome(x).duration > 0 {
      assert y in s.toDecay;
      CleanedPlaces(s, y);
    }
  }

  lemma {:induction false} CleanUnused(w: Wheel, xs: seq<Item>)
    requires |w.buckets| == EVENT_DECAY_BUCKETS
    ensures Clean(w, xs).unused == w.unused
    decreases |xs|
  {
    if xs != [] { CleanUnused(Push(w, Entry(w.lastBucket, Duration(w, xs[0])), xs[0]), xs[1..]); }
  }

  /** For every run after that: an item that was due, turned into a kind with `d` left and is
      left decayable fires again exactly `FiringTick(d)` ticks after the one in which it fired. */
  lemma {:induction false} FiresAgain(w: Wheel, x: Item, first: World, events: seq<Event>, world: World)
    requires Valid(w) && DueAt(w, x, w.lastBucket, 1) && first.canDecay(x)
    requires first.outcome(x).Becomes? && first.outcome(x).duration > 0
    requires Decayable(events, x) && world.canDecay(x) && TicksIn(events) < FiringTick(first.outcome(x).duration)
    ensures Fired(Run(w, [Ticked(first)] + events), x) == Fired(w, x) + 1
    ensures Fired(Run(w, [Ticked(first)] + events + [Ticked(world)]), x)
         == Fired(w, x) + 1 + if TicksIn(events) + 1 == FiringTick(first.outcome(x).duration) then 1 else 0
  {
    var w' := Tick(w, first);
    TurnsAndWaits(w, x, first);
    TickKeeps(w, first);
    FiresWhenDue(w', x, events, world, FiringTick(first.outcome(x).duration));
    AfterFirst(w, first, events, world);
  }

  lemma {:induction false} AfterFirst(w: Wheel, first: World, events: seq<Event>, world: World)
    requires |w.buckets| == EVENT_DECAY_BUCKETS
    ensures Run(w, [Ticked(first)] + events) == Run(Tick(w, first), events)
    ensures Run(w, [Ticked(first)] + events + [Ticked(world)]) == Run(Tick(w, first), events + [Ticked(world)])
  {
    RunOn(w, [Ticked(first)], events);
    RunOn(w, [Ticked(first)], events + [Ticked(world)]);
    Associate([Ticked(first)], events, [Ticked(world)]);
    assert Run(w, [Ticked(first)]) == Tick(w, first);
  }

  /** And so does the new item of one that was replaced. */
  lemma {:induction false} ReplacementFires(w: Wheel, x: Item, first: World, events: seq<Event>, world: World)
    returns (y: Item)
    requires Valid(w) && DueAt(w, x, w.lastBucket, 1) && first.canDecay(x)
    requires first.outcome(x).ReplacedBy? && first.outcome(x).duration > 0
    requires forall z :: z >= w.unused ==> Decayable(events, z) && world.canDecay(z)
    requires TicksIn(events) < FiringTick(first.outcome(x).duration)
    ensures y >= w.unused && Fired(Run(w, [Ticked(first)] + events), y) == Fired(Tick(w, first), y)
    ensures Fired(Run(w, [Ticked(first)] + events + [Ticked(world)]), y)
         == Fired(Tick(w, first), y) + if TicksIn(events) + 1 == FiringTick(first.outcome(x).duration) then 1 else 0
  {
    y := ReplacedAndWaits(w, x, first);
    TickKeeps(w, first);
    FiresWhenDue(Tick(w, first), y, events, world, FiringTick(first.outcome(x).duration));
    AfterFirst(w, first, events, world);
  }

  /** What a start does: an item that cannot decay or already waits is left alone; with time
      left it pends, and without it fires at once. */
  lemma {:induction false} StartsExactly(w: Wheel, x: Item, world: World)
    requires Valid(w) && x < w.unused
    ensures var w' := StartOrFire(w, x, world);
      if !world.canDecay(x) || x in w.decaying then w' == w
      else if Duration(w, x) > 0 then Awaits(w', x, Duration(w, x)) && w'.fired == w.fired
      else w'.fired == w.fired + [x] && Became(w', x, w.unused, world)
  {
    assert Ok(w, x) && Ok(w, w.unused);
    if world.canDecay(x) && x !in w.decaying {
      StartCounts(w, x, x);
      FireFollows(w, x, world);
    }
  }

  // ---- the game's own lists ------------------------------------------------------------------

  class Game {
    var decayItems: seq<seq<Item>>
    var toDecayItems: seq<Item>
    var lastBucket: nat
    var durations: map<Item, int>
    var decaying: set<Item>
    ghost var fired: seq<Item>
    var unused: Item

    ghost predicate Shaped()
      reads this
    {
      |decayItems| == EVENT_DECAY_BUCKETS && lastBucket < EVENT_DECAY_BUCKETS
    }

    ghost function State(): Wheel
      reads this
    {
      Wheel(decayItems, toDecayItems, lastBucket, durations, decaying, fired, unused)
    }

    constructor ()
      ensures Shaped() && Valid(State()) && toDecayItems == [] && fired == []
    {
      decayItems, toDecayItems, lastBucket := [[], [], [], []], [], 0;
      durations, decaying, fired, unused := map[], {}, [], 0;
    }

    /** A new item with a duration. */
    method Create(duration: nat) returns (x: Item)
      modifies this`durations, this`unused, this`decaying
      ensures x == old(unused) && State() == Make(old(State()), duration)
    {
      x := unused;
      unused, durations, decaying := unused + 1, durations[x := duration], decaying - {x};
    }

    /** `startDecay`. */
    method StartDecay(x: Item, world: World)
      modifies this
      ensures State() == StartOrFire(old(State()), x, world)
    {
      if !world.canDecay(x) || x in decaying { return; }
      if (if x in durations then durations[x] else 0) > 0 {
        Wait(x);
      } else {
        InternalDecayItem(x, world);
      }
    }

    /** Its half for an item that can decay and has time left. */
    method Wait(x: Item)
      modifies this`toDecayItems, this`decaying
      ensures State() == Start(old(State()), x)
    {
      if x in decaying { return; }
      decaying := decaying + {x};
      toDecayItems := [x] + toDecayItems;
    }

    method InternalDecayItem(x: Item, world: World)
      modifies this
      ensures State() == Fire(old(State()), x, world)
    {
      fired := fired + [x];
      match world.outcome(x)
      case Gone =>
      case Becomes(d) =>
        decaying, durations := decaying - {x}, durations[x := d];
        if d > 0 { Wait(x); }
      case ReplacedBy(d) =>
        var y := Create(d);
        if d > 0 { Wait(y); }
    }

    method PutBack(b: nat, x: Item)
      requires b < |decayItems|
      modifies this`decayItems
      ensures State() == Push(old(State()), b, x)
    {
      decayItems := decayItems[b := decayItems[b] + [x]];
    }

    /** One turn of the loop in `checkDecay`. */
    method CheckItem(x: Item, bucket: nat, world: World)
      requires |decayItems| == EVENT_DECAY_BUCKETS && bucket < EVENT_DECAY_BUCKETS
      modifies this
      ensures State() == Handle(old(State()), x, bucket, world)
    {
      if !world.canDecay(x) {
        decaying := decaying - {x};
        return;
      }
      var duration := if x in durations then durations[x] else 0;
      var decreaseTime := if ROUND < duration then ROUND else duration;
      duration := duration - decreaseTime;
      durations := durations[x := duration];
      if duration <= 0 {
        InternalDecayItem(x, world);
      } else if duration < ROUND {
        var newBucket := (bucket + (duration + EVENT_DECAYINTERVAL / 2) / 1000) % EVENT_DECAY_BUCKETS;
        if newBucket == bucket {
          InternalDecayItem(x, world);
        } else {
          PutBack(newBucket, x);
        }
      } else {
        PutBack(bucket, x);
      }
    }

    method Cleanup()
      requires |decayItems| == EVENT_DECAY_BUCKETS
      modifies this
      ensures State() == AfterCleanup(old(State()))
    {
      var xs := toDecayItems;
      toDecayItems := [];
      ghost var s := State();
      var i := 0;
      while i < |xs|
        invariant 0 <= i <= |xs| && |decayItems| == EVENT_DECAY_BUCKETS
        invariant Clean(State(), xs[i..]) == Clean(s, xs)
      {
        var dur := if xs[i] in durations then durations[xs[i]] else 0;
        assert xs[i..][1..] == xs[i + 1..];
        PutBack(Entry(lastBucket, dur), xs[i]);
        i := i + 1;
      }
    }

    method CheckDecay(world: World)
      requires |decayItems| == EVENT_DECAY_BUCKETS
      modifies this
      ensures |decayItems| == EVENT_DECAY_BUCKETS
      ensures State() == Tick(old(State()), world)
    {
      var bucket := (lastBucket + 1) % EVENT_DECAY_BUCKETS;
      var xs := decayItems[bucket];
      decayItems := decayItems[bucket := []];
      ghost var s := State();
      var i := 0;
      while i < |xs|
        invariant 0 <= i <= |xs| && |decayItems| == EVENT_DECAY_BUCKETS
        invariant Sweep(State(), xs[i..], bucket, world) == Sweep(s, xs, bucket, world)
      {
        assert xs[i..][1..] == xs[i + 1..];
        CheckItem(xs[i], bucket, world);
        i := i + 1;
      }
      lastBucket := bucket;
      Cleanup();
    }
  }
}
