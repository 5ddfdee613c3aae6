/** A creature's walk cache (`Creature::localMapCache`): a window of remembered
    walkability answers that slides along with the creature. */
module WalkCache {
  const MAX_WALK_CACHE_WIDTH := 11
  const MAX_WALK_CACHE_HEIGHT := 11
  const MAP_WALK_WIDTH := 23   // 2 * MAX_WALK_CACHE_WIDTH + 1
  const MAP_WALK_HEIGHT := 23  // 2 * MAX_WALK_CACHE_HEIGHT + 1

  datatype Position = Position(x: int, y: int, z: int)

  /** Whether the creature could walk onto a tile, if asked now. */
  type World = Position -> bool

  type Grid = g: seq<seq<bool>> | |g| == MAP_WALK_HEIGHT && forall y :: 0 <= y < MAP_WALK_HEIGHT ==>
    |g[y]| == MAP_WALK_WIDTH
    witness seq(MAP_WALK_HEIGHT, y => seq(MAP_WALK_WIDTH, x => false))

  predicate Cell(y: int, x: int) {
    0 <= y < MAP_WALK_HEIGHT && 0 <= x < MAP_WALK_WIDTH
  }

  /** Map coordinates are 16 bits wide. */
  predicate OnMap(p: Position) {
    0 <= p.x < 0x1_0000 && 0 <= p.y < 0x1_0000
  }

  function ToUint16(p: Position): Position {
    Position(p.x % 0x1_0000, p.y % 0x1_0000, p.z)
  }

  /** The position that cell `(y, x)` of a window around `center` stands for. */
  function Spot(center: Position, y: int, x: int): Position {
    Position(center.x - MAX_WALK_CACHE_WIDTH + x, center.y - MAX_WALK_CACHE_HEIGHT + y, center.z)
  }

  predicate CellAgrees(g: Grid, world: World, center: Position, y: int, x: int)
    requires Cell(y, x)
  {
    OnMap(Spot(center, y, x)) && Spot(center, y, x) != center ==> g[y][x] == world(Spot(center, y, x))
  }

  /** The cache gives the answer a fresh query would, everywhere in the window but on the
      creature's own tile. */
  ghost predicate Agrees(g: Grid, world: World, center: Position) {
    forall y, x {:trigger CellAgrees(g, world, center, y, x)} :: Cell(y, x) ==> CellAgrees(g, world, center, y, x)
  }

  // ---- what one step computes -------------------------------------------------------------

  function Abs(n: int): int { if n < 0 then -n else n }

  /** One step to a neighbouring tile of the same floor. */
  predicate OneStep(from: Position, to: Position) {
    Abs(from.x - to.x) <= 1 && Abs(from.y - to.y) <= 1 && from.z == to.z && from != to && OnMap(from) && OnMap(to)
  }

  function Fresh(world: World, center: Position, y: int, x: int): bool {
    world(ToUint16(Spot(center, y, x)))
  }

  /** After the rows have moved: the row coming into view is fresh. */
  function Vertical(g: Grid, world: World, from: Position, to: Position, y: int, x: int): bool
    requires Cell(y, x)
  {
    if from.y > to.y then if y == 0 then Fresh(world, to, y, x) else g[y - 1][x]
    else if from.y < to.y then if y == MAP_WALK_HEIGHT - 1 then Fresh(world, to, y, x) else g[y + 1][x]
    else g[y][x]
  }

  /** The vertical distance that picks the rows to shift sideways. The two branches on it
      expect it with its sign, negative to the south; `getDistanceY` gives it without. */
  function Dy(signed: bool, from: Position, to: Position): int {
    if signed then from.y - to.y else Abs(from.y - to.y)
  }

  /** The rows to shift sideways. */
  predicate Shifts(signed: bool, from: Position, to: Position, y: int) {
    var dy := Dy(signed, from, to);
    (if dy > 0 then dy else 0) <= y <= MAP_WALK_HEIGHT - 1 + (if dy < 0 then dy else 0)
  }

  /** After the columns have moved too. */
  function Horizontal(signed: bool, g: Grid, world: World, from: Position, to: Position, y: int, x: int): bool
    requires Cell(y, x)
  {
    if from.x < to.x then
      if x == MAP_WALK_WIDTH - 1 then Fresh(world, to, y, x)
      else Vertical(g, world, from, to, y, if Shifts(signed, from, to, y) then x + 1 else x)
    else if from.x > to.x then
      if x == 0 then Fresh(world, to, y, x)
      else Vertical(g, world, from, to, y, if Shifts(signed, from, to, y) then x - 1 else x)
    else Vertical(g, world, from, to, y, x)
  }

  /** The whole step: last, the tile just left is looked at again. */
  function Stepped(signed: bool, g: Grid, world: World, from: Position, to: Position, y: int, x: int): bool
    requires Cell(y, x)
  {
    if Spot(to, y, x) == from then world(from) else Horizontal(signed, g, world, from, to, y, x)
  }

  // ---- when a step keeps the cache right -----------------------------------------------------

  /** A diagonal step southward. */
  predicate SouthDiagonal(from: Position, to: Position) {
    from.y < to.y && from.x != to.x
  }

  /** Only the tile left and the tile entered answer differently after the step. */
  ghost predicate SameElsewhere(before: World, after: World, from: Position, to: Position) {
    forall p :: p != from && p != to ==> before(p) == after(p)
  }

  ghost predicate StepAgrees(signed: bool, g: Grid, world: World, from: Position, to: Position) {
    forall y, x {:trigger Stepped(signed, g, world, from, to, y, x)} ::
      Cell(y, x) && OnMap(Spot(to, y, x)) && Spot(to, y, x) != to ==>
      Stepped(signed, g, world, from, to, y, x) == world(Spot(to, y, x))
  }

  lemma StepCell(signed: bool, g: Grid, before: World, after: World, from: Position, to: Position, y: int, x: int)
    requires OneStep(from, to) && (signed || !SouthDiagonal(from, to)) && Agrees(g, before, from)
    requires SameElsewhere(before, after, from, to)
    requires Cell(y, x) && OnMap(Spot(to, y, x)) && Spot(to, y, x) != to
    ensures Stepped(signed, g, after, from, to, y, x) == after(Spot(to, y, x))
  {
    var p := Spot(to, y, x);
    var y0, x0 := y + to.y - from.y, x + to.x - from.x;
    assert Spot(from, y0, x0) == p;
    if Cell(y0, x0) {
      assert CellAgrees(g, before, from, y0, x0);
    }
  }

  /** Every straight step and every northward diagonal keeps the cache right; with the signed
      distance every step does. */
  lemma StepKeeps(signed: bool, g: Grid, before: World, after: World, from: Position, to: Position)
    requires OneStep(from, to) && (signed || !SouthDiagonal(from, to)) && Agrees(g, before, from)
    requires SameElsewhere(before, after, from, to)
    ensures StepAgrees(signed, g, after, from, to)
  {
    forall y, x | Cell(y, x) && OnMap(Spot(to, y, x)) && Spot(to, y, x) != to
      ensures Stepped(signed, g, after, from, to, y, x) == after(Spot(to, y, x))
    {
      StepCell(signed, g, before, after, from, to, y, x);
    }
  }

  ghost predicate AlwaysRight(signed: bool, from: Position, to: Position) {
    forall g: Grid, before: World, after: World
      {:trigger Agrees(g, before, from), StepAgrees(signed, g, after, from, to)} ::
      Agrees(g, before, from) && SameElsewhere(before, after, from, to) ==> StepAgrees(signed, g, after, from, to)
  }

  /** What the cache holds when it agrees with `world` everywhere. */
  function Filled(world: World, center: Position): Grid {
    seq(MAP_WALK_HEIGHT, y => seq(MAP_WALK_WIDTH, x => world(Spot(center, y, x))))
  }

  lemma FilledAgrees(world: World, center: Position)
    ensures Agrees(Filled(world, center), world, center)
  {
    forall y, x | Cell(y, x) ensures CellAgrees(Filled(world, center), world, center, y, x) {}
  }

  /** After a diagonal step southward the top row is not shifted and the bottom row is
      shifted twice: with a single walkable tile there, the cache is wrong. */
  lemma SouthDiagonalFails(from: Position, to: Position)
    requires OneStep(from, to) && SouthDiagonal(from, to)
    ensures !AlwaysRight(false, from, to)
  {
    var y := if to.y >= MAX_WALK_CACHE_HEIGHT then 0 else MAP_WALK_HEIGHT - 1;
    var x := MAX_WALK_CACHE_WIDTH;
    var p := Spot(to, y, x);
    var world: World := q => q == p;
    var g := Filled(world, from);
    FilledAgrees(world, from);
    assert OnMap(p) && p != to && world(p);
    assert !Stepped(false, g, world, from, to, y, x);
    assert !StepAgrees(false, g, world, from, to);
    assert SameElsewhere(world, world, from, to);
  }

  /** A step keeps the cache right in every world if and only if it is not a diagonal
      step southward. */
  lemma RightExactly(from: Position, to: Position)
    requires OneStep(from, to)
    ensures AlwaysRight(false, from, to) <==> !SouthDiagonal(from, to)
  {
    if SouthDiagonal(from, to) {
      SouthDiagonalFails(from, to);
    } else {
      KeptMeansRight(false, from, to);
    }
  }

  lemma KeptMeansRight(signed: bool, from: Position, to: Position)
    requires OneStep(from, to) && (signed || !SouthDiagonal(from, to))
    ensures AlwaysRight(signed, from, to)
  {
    forall g: Grid, before: World, after: World | Agrees(g, before, from) && SameElsewhere(before, after, from, to)
      ensures StepAgrees(signed, g, after, from, to)
    {
      StepKeeps(signed, g, before, after, from, to);
    }
  }

  // ---- which cells a southward diagonal gets wrong ------------------------------------------------

  /** The position whose answer a cell holds after a diagonal step southward: the cells of the
      top row have not moved sideways, those of the bottom row have moved once too often, and
      all others are right. */
  function Shown(from: Position, to: Position, y: int, x: int): Position {
    var dx := to.x - from.x;
    if x == (if dx > 0 then MAP_WALK_WIDTH - 1 else 0) then Spot(to, y, x)
    else if y == 0 then Spot(to, y, x - dx)
    else if y == MAP_WALK_HEIGHT - 1 then Spot(to, y, x + dx)
    else Spot(to, y, x)
  }

  lemma {:induction false} SouthDiagonalShows(g: Grid, before: World, after: World, from: Position,
                                              to: Position, y: int, x: int)
    requires OneStep(from, to) && SouthDiagonal(from, to) && Agrees(g, before, from)
    requires SameElsewhere(before, after, from, to)
    requires Cell(y, x) && Spot(to, y, x) != to && OnMap(Spot(to, y, x)) && OnMap(Shown(from, to, y, x))
    ensures Stepped(false, g, after, from, to, y, x) == after(Shown(from, to, y, x))
  {
    var p := Shown(from, to, y, x);
    var y0, x0 := p.y - from.y + MAX_WALK_CACHE_HEIGHT, p.x - from.x + MAX_WALK_CACHE_WIDTH;
    assert Spot(from, y0, x0) == p;
    if Cell(y0, x0) {
      assert CellAgrees(g, before, from, y0, x0);
    }
  }

  /** The whole window lies on the map. */
  predicate Inland(center: Position) {
    OnMap(Spot(center, 0, 0)) && OnMap(Spot(center, MAP_WALK_HEIGHT - 1, MAP_WALK_WIDTH - 1))
  }

  /** A diagonal step southward leaves the cache right in exactly those worlds in which every
      position answers like the one its cell shows. */
  lemma {:induction false} SouthDiagonalExactly(g: Grid, before: World, after: World, from: Position, to: Position)
    requires OneStep(from, to) && SouthDiagonal(from, to) && Agrees(g, before, from)
    requires SameElsewhere(before, after, from, to) && Inland(from) && Inland(to)
    ensures StepAgrees(false, g, after, from, to) <==>
      forall y, x {:trigger Shown(from, to, y, x)} :: Cell(y, x) && Spot(to, y, x) != to ==>
        after(Shown(from, to, y, x)) == after(Spot(to, y, x))
  {
    forall y, x | Cell(y, x) && Spot(to, y, x) != to
      ensures OnMap(Spot(to, y, x)) && Stepped(false, g, after, from, to, y, x) == after(Shown(from, to, y, x))
    {
      SouthDiagonalShows(g, before, after, from, to, y, x);
    }
    if StepAgrees(false, g, after, from, to) {
      forall y, x {:trigger Shown(from, to, y, x)} | Cell(y, x) && Spot(to, y, x) != to
        ensures after(Shown(from, to, y, x)) == after(Spot(to, y, x))
      {
        assert Stepped(false, g, after, from, to, y, x) == after(Spot(to, y, x));
      }
    }
  }

  // ---- whole runs ----------------------------------------------------------------------------

  /** The cache, what it should remember, and where the creature stands. */
  datatype Snapshot = Snapshot(g: Grid, world: World, position: Position)

  ghost predicate Right(s: Snapshot) {
    OnMap(s.position) && Agrees(s.g, s.world, s.position)
  }

  /** A one-step move. */
  ghost predicate Moves(signed: bool, s: Snapshot, s': Snapshot) {
    && OneStep(s.position, s'.position) && SameElsewhere(s.world, s'.world, s.position, s'.position)
    && forall y, x :: Cell(y, x) ==> s'.g[y][x] == Stepped(signed, s.g, s'.world, s.position, s'.position, y, x)
  }

  /** A teleport or a change of floor: the whole window is looked at again. */
  ghost predicate Refreshes(s': Snapshot) {
    OnMap(s'.position) && forall y, x :: Cell(y, x) && OnMap(Spot(s'.position, y, x)) ==>
      s'.g[y][x] == s'.world(Spot(s'.position, y, x))
  }

  /** One tile changes and is looked at again. */
  ghost predicate Updates(s: Snapshot, s': Snapshot, pos: Position) {
    && s'.position == s.position && (forall p :: p != pos ==> s'.world(p) == s.world(p))
    && forall y, x :: Cell(y, x) ==> s'.g[y][x] == if Spot(s.position, y, x) == pos then s'.world(pos) else s.g[y][x]
  }

  ghost predicate Happens(signed: bool, s: Snapshot, s': Snapshot) {
    (Moves(signed, s, s') && (signed || !SouthDiagonal(s.position, s'.position)))
      || Refreshes(s') || exists pos :: Updates(s, s', pos)
  }

  lemma {:induction false} HappensKeeps(signed: bool, s: Snapshot, s': Snapshot)
    requires Right(s) && Happens(signed, s, s')
    ensures Right(s')
  {
    if Moves(signed, s, s') && (signed || !SouthDiagonal(s.position, s'.position)) {
      StepKeeps(signed, s.g, s.world, s'.world, s.position, s'.position);
      forall y, x | Cell(y, x) ensures CellAgrees(s'.g, s'.world, s'.position, y, x) {
        assert s'.g[y][x] == Stepped(signed, s.g, s'.world, s.position, s'.position, y, x);
      }
    } else if Refreshes(s') {
      forall y, x | Cell(y, x) ensures CellAgrees(s'.g, s'.world, s'.position, y, x) {}
    } else {
      forall y, x | Cell(y, x) ensures CellAgrees(s'.g, s'.world, s'.position, y, x) {
        assert CellAgrees(s.g, s.world, s.position, y, x);
      }
    }
  }

  /** After any sequence of one-step moves, teleports, floor changes and tile updates the
      cache is right: with the distance read with its sign for every step, and as the code
      stands for every sequence without a diagonal step southward. */
  lemma {:induction false} RunKeeps(signed: bool, run: seq<Snapshot>, k: nat)
    requires k < |run| && Right(run[0])
    requires forall i :: 0 <= i < |run| - 1 ==> Happens(signed, run[i], run[i + 1])
    ensures Right(run[k])
    decreases k
  {
    if k > 0 {
      RunKeeps(signed, run, k - 1);
      assert Happens(signed, run[k - 1], run[k - 1 + 1]);
      HappensKeeps(signed, run[k - 1], run[k]);
    }
  }


  // ---- the creature ------------------------------------------------------------------------------

  class Creature {
    var position: Position
    var localMapCache: array2<bool>
    const useCacheMap: bool

    constructor (position: Position, useCacheMap: bool)
      ensures Valid() && this.position == position && this.useCacheMap == useCacheMap && fresh(localMapCache)
    {
      this.position := position;
      this.useCacheMap := useCacheMap;
      localMapCache := new bool[MAP_WALK_HEIGHT, MAP_WALK_WIDTH]((_, _) => false);
    }

    ghost predicate Valid()
      reads this
    {
      localMapCache.Length0 == MAP_WALK_HEIGHT && localMapCache.Length1 == MAP_WALK_WIDTH
    }

    ghost function Cache(): (g: Grid)
      requires Valid()
      reads this, localMapCache
      ensures forall y, x :: Cell(y, x) ==> g[y][x] == localMapCache[y, x]
    {
      seq(MAP_WALK_HEIGHT, y requires 0 <= y < MAP_WALK_HEIGHT reads this, localMapCache requires Valid() =>
        seq(MAP_WALK_WIDTH, x requires 0 <= x < MAP_WALK_WIDTH reads this, localMapCache requires Valid() =>
          localMapCache[y, x]))
    }

    /** `updateTileCache(tile, dx, dy)`; `walkable` is what the tile answers. */
    method UpdateTileCache(walkable: bool, dx: int, dy: int)
      requires Valid()
      modifies localMapCache
      ensures forall y, x :: Cell(y, x) ==>
        localMapCache[y, x] ==
          if y == MAX_WALK_CACHE_HEIGHT + dy && x == MAX_WALK_CACHE_WIDTH + dx then walkable
          else old(localMapCache[y, x])
    {
      if Abs(dx) <= MAX_WALK_CACHE_WIDTH && Abs(dy) <= MAX_WALK_CACHE_HEIGHT {
        localMapCache[MAX_WALK_CACHE_HEIGHT + dy, MAX_WALK_CACHE_WIDTH + dx] := walkable;
      }
    }

    /** `updateTileCache(tile, pos)`. */
    method UpdateTileCacheAt(walkable: bool, pos: Position)
      requires Valid()
      modifies localMapCache
      ensures forall y, x :: Cell(y, x) ==>
        localMapCache[y, x] == if pos == Spot(position, y, x) then walkable else old(localMapCache[y, x])
    {
      if pos.z == position.z {
        UpdateTileCache(walkable, pos.x - position.x, pos.y - position.y);
      }
    }

    /** `updateMapCache`: positions beyond the edge of the map are not remembered. */
    method UpdateMapCache(world: World)
      requires Valid() && OnMap(position)
      modifies localMapCache
      ensures Agrees(Cache(), world, position) && Refreshes(Snapshot(Cache(), world, position))
    {
      var y := 0;
      while y < MAP_WALK_HEIGHT
        invariant 0 <= y <= MAP_WALK_HEIGHT
        invariant forall j, i :: Cell(j, i) && j < y && OnMap(Spot(position, j, i)) ==>
          localMapCache[j, i] == world(Spot(position, j, i))
      {
        UpdateMapRow(world, y);
        y := y + 1;
      }
      forall j, i | Cell(j, i) ensures CellAgrees(Cache(), world, position, j, i) {}
    }

    method UpdateMapRow(world: World, y: int)
      requires Valid() && 0 <= y < MAP_WALK_HEIGHT && OnMap(position)
      modifies localMapCache
      ensures forall j, i :: Cell(j, i) && j != y ==> localMapCache[j, i] == old(localMapCache[j, i])
      ensures forall i :: Cell(y, i) && OnMap(Spot(position, y, i)) ==>
        localMapCache[y, i] == world(Spot(position, y, i))
    {
      var x := 0;
      while x < MAP_WALK_WIDTH
        invariant 0 <= x <= MAP_WALK_WIDTH
        invariant forall j, i :: Cell(j, i) && j != y ==> localMapCache[j, i] == old(localMapCache[j, i])
        invariant forall i :: Cell(y, i) && i < x && OnMap(Spot(position, y, i)) ==>
          localMapCache[y, i] == world(Spot(position, y, i))
      {
        var pos := ToUint16(Spot(position, y, x));
        UpdateTileCacheAt(world(pos), pos);
        x := x + 1;
      }
    }

    /** `memcpy` of one row. */
    method CopyRow(to: int, from: int)
      requires Valid() && 0 <= to < MAP_WALK_HEIGHT && 0 <= from < MAP_WALK_HEIGHT && to != from
      modifies localMapCache
      ensures forall y, x :: Cell(y, x) ==> localMapCache[y, x] == old(localMapCache[if y == to then from else y, x])
    {
      var i := 0;
      while i < MAP_WALK_WIDTH
        invariant 0 <= i <= MAP_WALK_WIDTH
        invariant forall y, x :: Cell(y, x) ==>
          localMapCache[y, x] == old(localMapCache[if y == to && x < i then from else y, x])
      {
        localMapCache[to, i] := localMapCache[from, i];
        i := i + 1;
      }
    }

    method ShiftSouth()
      requires Valid()
      modifies localMapCache
      ensures forall y, x :: Cell(y, x) ==> localMapCache[y, x] == old(localMapCache[if y == 0 then 0 else y - 1, x])
    {
      var y := MAP_WALK_HEIGHT - 1;
      while y > 0
        invariant 0 <= y < MAP_WALK_HEIGHT
        invariant forall j, i :: Cell(j, i) ==> localMapCache[j, i] == old(localMapCache[if j > y then j - 1 else j, i])
      {
        y := y - 1;
        CopyRow(y + 1, y);
      }
    }

    method ShiftNorth()
      requires Valid()
      modifies localMapCache
      ensures forall y, x :: Cell(y, x) ==>
        localMapCache[y, x] == old(localMapCache[if y == MAP_WALK_HEIGHT - 1 then y else y + 1, x])
    {
      var y := 0;
      while y < MAP_WALK_HEIGHT - 1
        invariant 0 <= y < MAP_WALK_HEIGHT
        invariant forall j, i :: Cell(j, i) ==> localMapCache[j, i] == old(localMapCache[if j < y then j + 1 else j, i])
      {
        CopyRow(y, y + 1);
        y := y + 1;
      }
    }

    /** A row coming into view. */
    method UpdateRow(world: World, dy: int)
      requires Valid() && Abs(dy) <= MAX_WALK_CACHE_HEIGHT
      modifies localMapCache
      ensures forall y, x :: Cell(y, x) ==>
        localMapCache[y, x] == if y == MAX_WALK_CACHE_HEIGHT + dy then Fresh(world, position, y, x)
          else old(localMapCache[y, x])
    {
      var x := -MAX_WALK_CACHE_WIDTH;
      while x <= MAX_WALK_CACHE_WIDTH
        invariant -MAX_WALK_CACHE_WIDTH <= x <= MAX_WALK_CACHE_WIDTH + 1
        invariant forall j, i :: Cell(j, i) ==>
          localMapCache[j, i] ==
            if j == MAX_WALK_CACHE_HEIGHT + dy && i < MAX_WALK_CACHE_WIDTH + x then Fresh(world, position, j, i)
            else old(localMapCache[j, i])
      {
        var walkable := world(ToUint16(Position(position.x + x, position.y + dy, position.z)));
        UpdateTileCache(walkable, x, dy);
        x := x + 1;
      }
    }

    /** A column coming into view. */
    method UpdateColumn(world: World, dx: int)
      requires Valid() && Abs(dx) <= MAX_WALK_CACHE_WIDTH
      modifies localMapCache
      ensures forall y, x :: Cell(y, x) ==>
        localMapCache[y, x] == if x == MAX_WALK_CACHE_WIDTH + dx then Fresh(world, position, y, x)
          else old(localMapCache[y, x])
    {
      var y := -MAX_WALK_CACHE_HEIGHT;
      while y <= MAX_WALK_CACHE_HEIGHT
        invariant -MAX_WALK_CACHE_HEIGHT <= y <= MAX_WALK_CACHE_HEIGHT + 1
        invariant forall j, i :: Cell(j, i) ==>
          localMapCache[j, i] ==
            if i == MAX_WALK_CACHE_WIDTH + dx && j < MAX_WALK_CACHE_HEIGHT + y then Fresh(world, position, j, i)
            else old(localMapCache[j, i])
      {
        var walkable := world(ToUint16(Position(position.x + dx, position.y + y, position.z)));
        UpdateTileCache(walkable, dx, y);
        y := y + 1;
      }
    }

    /** One row one cell to the left. */
    method ShiftRowWest(y: int)
      requires Valid() && 0 <= y < MAP_WALK_HEIGHT
      modifies localMapCache
      ensures forall j, i :: Cell(j, i) ==>
        localMapCache[j, i] == old(localMapCache[j, if j == y && i < MAP_WALK_WIDTH - 1 then i + 1 else i])
    {
      ghost var row := Row(y);
      var x := 0;
      while x < MAP_WALK_WIDTH - 1
        invariant 0 <= x < MAP_WALK_WIDTH
        invariant forall j, i :: Cell(j, i) && j != y ==> localMapCache[j, i] == old(localMapCache[j, i])
        invariant forall i :: 0 <= i < x ==> localMapCache[y, i] == row[i + 1]
        invariant forall i :: x <= i < MAP_WALK_WIDTH ==> localMapCache[y, i] == row[i]
      {
        localMapCache[y, x] := localMapCache[y, x + 1];
        x := x + 1;
      }
    }

    /** One row one cell to the right. */
    method ShiftRowEast(y: int)
      requires Valid() && 0 <= y < MAP_WALK_HEIGHT
      modifies localMapCache
      ensures forall j, i :: Cell(j, i) ==>
        localMapCache[j, i] == old(localMapCache[j, if j == y && i > 0 then i - 1 else i])
    {
      ghost var row := Row(y);
      var x := MAP_WALK_WIDTH - 1;
      while x > 0
        invariant 0 <= x < MAP_WALK_WIDTH
        invariant forall j, i :: Cell(j, i) && j != y ==> localMapCache[j, i] == old(localMapCache[j, i])
        invariant forall i :: 0 <= i <= x ==> localMapCache[y, i] == row[i]
        invariant forall i :: x < i < MAP_WALK_WIDTH ==> localMapCache[y, i] == row[i - 1]
      {
        x := x - 1;
        localMapCache[y, x + 1] := localMapCache[y, x];
      }
    }

    ghost function Row(y: int): (row: seq<bool>)
      requires Valid() && 0 <= y < MAP_WALK_HEIGHT
      reads this, localMapCache
      ensures |row| == MAP_WALK_WIDTH && forall x :: 0 <= x < MAP_WALK_WIDTH ==> row[x] == localMapCache[y, x]
    {
      Cache()[y]
    }

    method ShiftWest(startY: int, endY: int)
      requires Valid() && 0 <= startY <= endY + 1 && endY < MAP_WALK_HEIGHT
      modifies localMapCache
      ensures forall j, i :: Cell(j, i) ==>
        localMapCache[j, i] == old(localMapCache[j, if startY <= j <= endY && i < MAP_WALK_WIDTH - 1 then i + 1 else i])
    {
      var y := startY;
      while y <= endY
        invariant startY <= y <= endY + 1
        invariant forall j, i :: Cell(j, i) ==>
          localMapCache[j, i] == old(localMapCache[j, if startY <= j < y && i < MAP_WALK_WIDTH - 1 then i + 1 else i])
      {
        ShiftRowWest(y);
        y := y + 1;
      }
    }

    method ShiftEast(startY: int, endY: int)
      requires Valid() && 0 <= startY <= endY + 1 && endY < MAP_WALK_HEIGHT
      modifies localMapCache
      ensures forall j, i :: Cell(j, i) ==>
        localMapCache[j, i] == old(localMapCache[j, if startY <= j <= endY && i > 0 then i - 1 else i])
    {
      var y := startY;
      while y <= endY
        invariant startY <= y <= endY + 1
        invariant forall j, i :: Cell(j, i) ==>
          localMapCache[j, i] == old(localMapCache[j, if startY <= j < y && i > 0 then i - 1 else i])
      {
        ShiftRowEast(y);
        y := y + 1;
      }
    }

    /** The rows' part of a step; the creature already stands on its new tile. */
    method StepVertically(from: Position, world: World)
      requires Valid() && OneStep(from, position)
      modifies localMapCache
      ensures forall y, x :: Cell(y, x) ==> localMapCache[y, x] == Vertical(old(Cache()), world, from, position, y, x)
    {
      if from.y > position.y {
        ShiftSouth();
        UpdateRow(world, -MAX_WALK_CACHE_HEIGHT);
      } else if from.y < position.y {
        ShiftNorth();
        UpdateRow(world, MAX_WALK_CACHE_HEIGHT);
      }
    }

    /** The columns' part. */
    method StepHorizontally(from: Position, world: World, ghost g: Grid)
      requires Valid() && OneStep(from, position)
      requires forall y, x :: Cell(y, x) ==> localMapCache[y, x] == Vertical(g, world, from, position, y, x)
      modifies localMapCache
      ensures forall y, x :: Cell(y, x) ==> localMapCache[y, x] == Horizontal(false, g, world, from, position, y, x)
    {
      var startY, endY := 0, MAP_WALK_HEIGHT - 1;
      var dy := Abs(from.y - position.y);
      if dy < 0 {
        endY := endY + dy;
      } else if dy > 0 {
        startY := dy;
      }
      if from.x < position.x {
        ShiftWest(startY, endY);
        UpdateColumn(world, MAX_WALK_CACHE_WIDTH);
      } else if from.x > position.x {
        ShiftEast(startY, endY);
        UpdateColumn(world, -MAX_WALK_CACHE_WIDTH);
      }
    }

    /** The cache part of `onCreatureMove` for the creature's own moves. */
    method OnOwnMove(from: Position, teleport: bool, world: World)
      requires Valid() && OnMap(position) && OnMap(from)
      requires teleport || from.z != position.z || OneStep(from, position)
      modifies localMapCache
      ensures teleport || from.z != position.z ==> Refreshes(Snapshot(Cache(), world, position))
      ensures !teleport && from.z == position.z ==>
        forall y, x :: Cell(y, x) ==> localMapCache[y, x] == Stepped(false, old(Cache()), world, from, position, y, x)
    {
      if teleport || from.z != position.z {
        UpdateMapCache(world);
      } else {
        StepVertically(from, world);
        StepHorizontally(from, world, old(Cache()));
        UpdateTileCacheAt(world(from), from);
      }
    }

    /** A whole move: a cache that agreed before agrees after, unless the creature stepped
        diagonally southward. */
    method Move(to: Position, teleport: bool, ghost before: World, after: World)
      requires Valid() && OnMap(position) && OnMap(to) && Agrees(Cache(), before, position)
      requires teleport || to.z != position.z || OneStep(position, to)
      requires SameElsewhere(before, after, position, to)
      modifies this`position, localMapCache
      ensures position == to && localMapCache == old(localMapCache)
      ensures teleport || to.z != old(position).z || !SouthDiagonal(old(position), to) ==>
        Agrees(Cache(), after, position)
      ensures var s, s' := Snapshot(old(Cache()), before, old(position)), Snapshot(Cache(), after, position);
        if teleport || to.z != old(position).z then Refreshes(s') else Moves(false, s, s')
    {
      var from := position;
      ghost var g := Cache();
      position := to;
      forall y | 0 <= y < MAP_WALK_HEIGHT ensures Cache()[y] == g[y] {
        assert forall x :: 0 <= x < MAP_WALK_WIDTH ==> Cell(y, x);
      }
      assert Cache() == g;
      OnOwnMove(from, teleport, after);
      if !teleport && from.z == to.z && !SouthDiagonal(from, to) {
        StepKeeps(false, g, before, after, from, to);
        forall y, x | Cell(y, x) ensures CellAgrees(Cache(), after, to, y, x) {
          assert localMapCache[y, x] == Stepped(false, g, after, from, to, y, x);
        }
      }
    }

    /** A tile whose answer changed is looked at again; the rest of the window stays right. */
    method OnTileChange(pos: Position, ghost before: World, after: World)
      requires Valid() && OnMap(position) && Agrees(Cache(), before, position)
      requires forall p :: p != pos ==> before(p) == after(p)
      modifies localMapCache
      ensures Agrees(Cache(), after, position)
      ensures Updates(Snapshot(old(Cache()), before, position), Snapshot(Cache(), after, position), pos)
    {
      ghost var g := Cache();
      if pos.z == position.z {
        UpdateTileCacheAt(after(pos), pos);
      }
      forall y, x | Cell(y, x) ensures CellAgrees(Cache(), after, position, y, x) {
        assert CellAgrees(g, before, position, y, x);
      }
    }

    /** `getWalkCache`: 1 for walkable, 0 for blocked, 2 for not remembered. */
    method GetWalkCache(pos: Position, ghost world: World) returns (r: int)
      requires Valid() && OnMap(pos) && Agrees(Cache(), world, position)
      ensures r == 2 <==>
        !useCacheMap ||
        (pos.z == position.z &&
         !Cell(pos.y - position.y + MAX_WALK_CACHE_HEIGHT, pos.x - position.x + MAX_WALK_CACHE_WIDTH))
      ensures r != 2 && pos.z == position.z && pos != position ==> r == if world(pos) then 1 else 0
      ensures r != 2 && pos.z != position.z ==> r == 0
      ensures r != 2 && pos == position ==> r == 1
    {
      if !useCacheMap { return 2; }
      if pos.z != position.z { return 0; }
      if pos == position { return 1; }
      var dx, dy := pos.x - position.x, pos.y - position.y;
      if Abs(dx) <= MAX_WALK_CACHE_WIDTH && Abs(dy) <= MAX_WALK_CACHE_HEIGHT {
        assert CellAgrees(Cache(), world, position, MAX_WALK_CACHE_HEIGHT + dy, MAX_WALK_CACHE_WIDTH + dx);
        return if localMapCache[MAX_WALK_CACHE_HEIGHT + dy, MAX_WALK_CACHE_WIDTH + dx] then 1 else 0;
      }
      return 2;
    }
  }
}
