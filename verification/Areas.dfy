/** Combat areas (`MatrixArea`, `AreaCombat::copyArea`, `setupArea`, `setupExtArea`):
    which tiles around the target an area covers, in each direction. */
module Areas {
  import opened Options

  datatype Operation =
    | MATRIXOPERATION_COPY | MATRIXOPERATION_MIRROR | MATRIXOPERATION_FLIP
    | MATRIXOPERATION_ROTATE90 | MATRIXOPERATION_ROTATE180 | MATRIXOPERATION_ROTATE270

  /** A tile relative to the centre of an area. */
  datatype Offset = Offset(dy: int, dx: int)

  function Quarter(o: Offset): Offset { Offset(o.dx, -o.dy) }

  function Half(o: Offset): Offset { Offset(-o.dy, -o.dx) }

  function ThreeQuarters(o: Offset): Offset { Offset(-o.dx, o.dy) }

  function Mirrored(o: Offset): Offset { Offset(o.dy, -o.dx) }

  function Flipped(o: Offset): Offset { Offset(-o.dy, o.dx) }

  predicate IsRotation(op: Operation) {
    op.MATRIXOPERATION_ROTATE90? || op.MATRIXOPERATION_ROTATE180? || op.MATRIXOPERATION_ROTATE270?
  }

  /** Where an offset goes: the sine and cosine of the three angles are whole numbers. */
  function Rotated(op: Operation, o: Offset): Offset
    requires IsRotation(op)
  {
    match op
    case MATRIXOPERATION_ROTATE90 => Quarter(o)
    case MATRIXOPERATION_ROTATE180 => Half(o)
    case _ => ThreeQuarters(o)
  }

  /** Where an offset comes from. */
  function Unrotated(op: Operation, o: Offset): Offset
    requires IsRotation(op)
  {
    match op
    case MATRIXOPERATION_ROTATE90 => ThreeQuarters(o)
    case MATRIXOPERATION_ROTATE180 => Half(o)
    case _ => Quarter(o)
  }

  function Max(a: nat, b: nat): nat { if a < b then b else a }

  /** Centres are kept as signed numbers: an unsigned centre that wraps around denotes the
      same tiles, because only differences of 16-bit coordinates are taken from it. */
  class MatrixArea {
    const rows: nat
    const cols: nat
    const data: array2<bool>
    var centerY: int
    var centerX: int

    constructor (rows: nat, cols: nat)
      ensures Valid() && Blank() && this.rows == rows && this.cols == cols && fresh(data)
      ensures centerY == 0 && centerX == 0
    {
      this.rows, this.cols := rows, cols;
      data := new bool[rows, cols]((_, _) => false);
      centerY, centerX := 0, 0;
    }

    predicate Valid() { data.Length0 == rows && data.Length1 == cols }

    predicate Within(y: int, x: int) { 0 <= y < rows && 0 <= x < cols }

    ghost predicate Blank()
      requires Valid()
      reads data
    {
      forall y, x :: Within(y, x) ==> !data[y, x]
    }

    predicate Centred()
      reads this
    {
      Within(centerY, centerX)
    }

    /** The area covers the tile at `o` from its centre. */
    predicate Covers(o: Offset)
      requires Valid()
      reads this, data
    {
      Within(centerY + o.dy, centerX + o.dx) && data[centerY + o.dy, centerX + o.dx]
    }

    method SetCenter(y: int, x: int)
      modifies this
      ensures centerY == y && centerX == x
    {
      centerY, centerX := y, x;
    }
  }

  // ---- rotation ----------------------------------------------------------------------------

  /** The input cell that output cell `(y, x)` gets its value from. */
  function Source(op: Operation, center: Offset, rotateCenter: int, y: int, x: int): Offset
    requires IsRotation(op)
  {
    var o := Unrotated(op, Offset(y - rotateCenter, x - rotateCenter));
    Offset(center.dy + o.dy, center.dx + o.dx)
  }

  /** A rotation never leaves the output and never writes a cell twice. */
  lemma RotationFits(op: Operation, rows: nat, cols: nat, centerY: int, centerX: int, y: int, x: int)
    requires IsRotation(op) && 0 <= y < rows && 0 <= x < cols && 0 <= centerY < rows && 0 <= centerX < cols
    ensures var m := Max(rows, cols);
      var o := Rotated(op, Offset(y - centerY, x - centerX));
      0 <= o.dy + (m - 1) < 2 * m && 0 <= o.dx + (m - 1) < 2 * m
      && Source(op, Offset(centerY, centerX), m - 1, o.dy + (m - 1), o.dx + (m - 1)) == Offset(y, x)
  {
  }

  predicate Earlier(y: int, x: int, doneY: int, doneX: int) {
    x < doneX || (x == doneX && y < doneY)
  }

  /** `copyArea` for the three rotations, into a blank square of twice the longer side. */
  method RotateArea(input: MatrixArea, output: MatrixArea, op: Operation)
    requires input.Valid() && output.Valid() && output.Blank() && input != output && input.data != output.data
    requires IsRotation(op) && input.Centred()
    requires output.rows == output.cols == 2 * Max(input.rows, input.cols)
    modifies output, output.data
    ensures output.Centred()
    ensures forall o {:trigger output.Covers(o)} :: output.Covers(o) <==> input.Covers(Unrotated(op, o))
  {
    var rotateCenterX := output.cols / 2 - 1;
    var rotateCenterY := output.rows / 2 - 1;
    BlankTurned(input, output, op, rotateCenterX);
    var x := 0;
    while x < input.cols
      invariant 0 <= x <= input.cols
      invariant Turned(input, output, op, rotateCenterX, 0, x)
    {
      RotateColumn(input, output, op, rotateCenterX, x);
      x := x + 1;
    }
    output.SetCenter(rotateCenterY, rotateCenterX);
    TurnedCovers(input, output, op);
  }

  /** An output cell has its final value if its input cell came before `(doneY, doneX)`,
      and is still blank if not. */
  ghost predicate CellTurned(input: MatrixArea, output: MatrixArea, op: Operation, rotateCenter: int,
                             doneY: int, doneX: int, y: int, x: int)
    requires input.Valid() && output.Valid() && IsRotation(op) && output.Within(y, x)
    reads input, input.data, output.data
  {
    var s := Source(op, Offset(input.centerY, input.centerX), rotateCenter, y, x);
    output.data[y, x] == (input.Within(s.dy, s.dx) && Earlier(s.dy, s.dx, doneY, doneX) && input.data[s.dy, s.dx])
  }

  /** All input cells before `(doneY, doneX)` have been written. */
  ghost predicate Turned(input: MatrixArea, output: MatrixArea, op: Operation, rotateCenter: int, doneY: int,
                         doneX: int)
    requires input.Valid() && output.Valid() && IsRotation(op)
    reads input, input.data, output.data
  {
    forall y, x {:trigger CellTurned(input, output, op, rotateCenter, doneY, doneX, y, x)} :: output.Within(y, x) ==>
      CellTurned(input, output, op, rotateCenter, doneY, doneX, y, x)
  }

  method RotateColumn(input: MatrixArea, output: MatrixArea, op: Operation, rotateCenter: int, x: nat)
    requires input.Valid() && output.Valid() && input.data != output.data && IsRotation(op) && input.Centred()
    requires output.rows == output.cols == 2 * Max(input.rows, input.cols)
    requires rotateCenter == Max(input.rows, input.cols) - 1
    requires x < input.cols && Turned(input, output, op, rotateCenter, 0, x)
    modifies output.data
    ensures Turned(input, output, op, rotateCenter, 0, x + 1)
  {
    var y := 0;
    while y < input.rows
      invariant 0 <= y <= input.rows
      invariant Turned(input, output, op, rotateCenter, y, x)
    {
      RotateCell(input, output, op, rotateCenter, y, x);
      y := y + 1;
    }
    ColumnDone(input, output, op, rotateCenter, x);
  }

  lemma BlankTurned(input: MatrixArea, output: MatrixArea, op: Operation, rotateCenter: int)
    requires input.Valid() && output.Valid() && IsRotation(op) && output.Blank()
    ensures Turned(input, output, op, rotateCenter, 0, 0)
  {
  }

  lemma ColumnDone(input: MatrixArea, output: MatrixArea, op: Operation, rotateCenter: int, x: nat)
    requires input.Valid() && output.Valid() && IsRotation(op) && Turned(input, output, op, rotateCenter, input.rows, x)
    ensures Turned(input, output, op, rotateCenter, 0, x + 1)
  {
    forall j, i | output.Within(j, i) ensures CellTurned(input, output, op, rotateCenter, 0, x + 1, j, i) {
      assert CellTurned(input, output, op, rotateCenter, input.rows, x, j, i);
    }
  }

  lemma SourceInjective(op: Operation, center: Offset, rotateCenter: int, y: int, x: int, o: Offset)
    requires IsRotation(op) && Source(op, center, rotateCenter, y, x) == o
    ensures var r := Rotated(op, Offset(o.dy - center.dy, o.dx - center.dx));
      y == r.dy + rotateCenter && x == r.dx + rotateCenter
  {
  }

  method RotateCell(input: MatrixArea, output: MatrixArea, op: Operation, rotateCenter: int, y: nat, x: nat)
    requires input.Valid() && output.Valid() && input.data != output.data && IsRotation(op) && input.Centred()
    requires output.rows == output.cols == 2 * Max(input.rows, input.cols)
    requires rotateCenter == Max(input.rows, input.cols) - 1
    requires x < input.cols && y < input.rows && Turned(input, output, op, rotateCenter, y, x)
    modifies output.data
    ensures Turned(input, output, op, rotateCenter, y + 1, x)
  {
    ghost var center := Offset(input.centerY, input.centerX);
    var rotated := Rotated(op, Offset(y - input.centerY, x - input.centerX));
    RotationFits(op, input.rows, input.cols, input.centerY, input.centerX, y, x);
    label Before:
    output.data[rotated.dy + rotateCenter, rotated.dx + rotateCenter] := input.data[y, x];
    forall j, i | output.Within(j, i) ensures CellTurned(input, output, op, rotateCenter, y + 1, x, j, i) {
      SourceInjective(op, center, rotateCenter, j, i, Source(op, center, rotateCenter, j, i));
      assert old@Before(CellTurned(input, output, op, rotateCenter, y, x, j, i));
    }
  }

  lemma TurnedCovers(input: MatrixArea, output: MatrixArea, op: Operation)
    requires input.Valid() && output.Valid() && IsRotation(op) && input.Centred()
    requires output.rows == output.cols == 2 * Max(input.rows, input.cols)
    requires output.centerY == output.centerX == Max(input.rows, input.cols) - 1
    requires Turned(input, output, op, Max(input.rows, input.cols) - 1, 0, input.cols)
    ensures forall o {:trigger output.Covers(o)} :: output.Covers(o) <==> input.Covers(Unrotated(op, o))
  {
    forall o ensures output.Covers(o) <==> input.Covers(Unrotated(op, o)) {
      OffsetTurned(input, output, op, o);
    }
  }

  lemma OffsetTurned(input: MatrixArea, output: MatrixArea, op: Operation, o: Offset)
    requires input.Valid() && output.Valid() && IsRotation(op) && input.Centred()
    requires output.rows == output.cols == 2 * Max(input.rows, input.cols)
    requires output.centerY == output.centerX == Max(input.rows, input.cols) - 1
    requires Turned(input, output, op, Max(input.rows, input.cols) - 1, 0, input.cols)
    ensures output.Covers(o) <==> input.Covers(Unrotated(op, o))
  {
    var m, u := Max(input.rows, input.cols), Unrotated(op, o);
    var y, x := m - 1 + o.dy, m - 1 + o.dx;
    assert Source(op, Offset(input.centerY, input.centerX), m - 1, y, x) ==
      Offset(input.centerY + u.dy, input.centerX + u.dx);
    UnrotatedFits(op, input.rows, input.cols, input.centerY, input.centerX, o);
    if output.Within(y, x) { assert CellTurned(input, output, op, m - 1, 0, input.cols, y, x); }
  }

  lemma UnrotatedFits(op: Operation, rows: nat, cols: nat, centerY: int, centerX: int, o: Offset)
    requires IsRotation(op) && 0 <= centerY < rows && 0 <= centerX < cols
    ensures var u, m := Unrotated(op, o), Max(rows, cols);
      0 <= centerY + u.dy < rows && 0 <= centerX + u.dx < cols ==>
        0 <= m - 1 + o.dy < 2 * m && 0 <= m - 1 + o.dx < 2 * m
  {
  }

  // ---- mirroring and flipping --------------------------------------------------------------

  ghost predicate CellMirrored(input: MatrixArea, output: MatrixArea, y: int, x: int)
    requires input.Valid() && output.Valid() && output.Within(y, x)
    reads input.data, output.data
  {
    output.data[y, x] == (input.Within(y, input.cols - 1 - x) && input.data[y, input.cols - 1 - x])
  }

  ghost predicate CellFlipped(input: MatrixArea, output: MatrixArea, y: int, x: int)
    requires input.Valid() && output.Valid() && output.Within(y, x)
    reads input.data, output.data
  {
    output.data[y, x] == (input.Within(input.rows - 1 - y, x) && input.data[input.rows - 1 - y, x])
  }

  /** `copyArea` with MIRROR. The new centre is computed from the number of rows. */
  method MirrorArea(input: MatrixArea, output: MatrixArea)
    requires input.Valid() && output.Valid() && output.Blank() && input != output && input.data != output.data
    requires input.rows <= output.rows && input.cols <= output.cols
    modifies output, output.data
    ensures forall o {:trigger output.Covers(o)} :: output.Covers(o) <==>
      input.Covers(Offset(o.dy, input.cols - input.rows - o.dx))
  {
    var y := 0;
    while y < input.rows
      invariant 0 <= y <= input.rows
      invariant forall j, i {:trigger CellMirrored(input, output, j, i)} :: output.Within(j, i) && j < y ==>
        CellMirrored(input, output, j, i)
      invariant forall j, i :: output.Within(j, i) && j >= y ==> !output.data[j, i]
    {
      label Before:
      MirrorRow(input, output, y);
      forall j, i | output.Within(j, i) && j < y + 1 ensures CellMirrored(input, output, j, i) {
        assert j < y ==> old@Before(CellMirrored(input, output, j, i));
      }
      y := y + 1;
    }
    forall j, i | output.Within(j, i) ensures CellMirrored(input, output, j, i) {}
    output.SetCenter(input.centerY, (input.rows - 1) - input.centerX);
    forall o ensures output.Covers(o) <==> input.Covers(Offset(o.dy, input.cols - input.rows - o.dx)) {
      if output.Within(output.centerY + o.dy, output.centerX + o.dx) {
        assert CellMirrored(input, output, output.centerY + o.dy, output.centerX + o.dx);
      }
    }
  }

  method MirrorRow(input: MatrixArea, output: MatrixArea, y: int)
    requires input.Valid() && output.Valid() && input.data != output.data
    requires input.rows <= output.rows && input.cols <= output.cols && 0 <= y < input.rows
    requires forall i :: output.Within(y, i) ==> !output.data[y, i]
    modifies output.data
    ensures forall j, i :: output.Within(j, i) && j != y ==> output.data[j, i] == old(output.data[j, i])
    ensures forall i {:trigger CellMirrored(input, output, y, i)} :: output.Within(y, i) ==>
      CellMirrored(input, output, y, i)
  {
    var rx := 0;
    var x := input.cols;
    while x > 0
      invariant 0 <= x <= input.cols && rx == input.cols - x
      invariant forall j, i :: output.Within(j, i) && j != y ==> output.data[j, i] == old(output.data[j, i])
      invariant forall i :: output.Within(y, i) ==> output.data[y, i] == (i < rx && input.data[y, input.cols - 1 - i])
    {
      x := x - 1;
      output.data[y, rx] := input.data[y, x];
      rx := rx + 1;
    }
  }

  /** `copyArea` with FLIP. The new centre is computed from the number of columns. */
  method FlipArea(input: MatrixArea, output: MatrixArea)
    requires input.Valid() && output.Valid() && output.Blank() && input != output && input.data != output.data
    requires input.rows <= output.rows && input.cols <= output.cols
    modifies output, output.data
    ensures forall o {:trigger output.Covers(o)} :: output.Covers(o) <==>
      input.Covers(Offset(input.rows - input.cols - o.dy, o.dx))
  {
    var x := 0;
    while x < input.cols
      invariant 0 <= x <= input.cols
      invariant forall j, i {:trigger CellFlipped(input, output, j, i)} :: output.Within(j, i) && i < x ==>
        CellFlipped(input, output, j, i)
      invariant forall j, i :: output.Within(j, i) && i >= x ==> !output.data[j, i]
    {
      label Before:
      FlipColumn(input, output, x);
      forall j, i | output.Within(j, i) && i < x + 1 ensures CellFlipped(input, output, j, i) {
        assert i < x ==> old@Before(CellFlipped(input, output, j, i));
      }
      x := x + 1;
    }
    forall j, i | output.Within(j, i) ensures CellFlipped(input, output, j, i) {}
    output.SetCenter((input.cols - 1) - input.centerY, input.centerX);
    forall o ensures output.Covers(o) <==> input.Covers(Offset(input.rows - input.cols - o.dy, o.dx)) {
      if output.Within(output.centerY + o.dy, output.centerX + o.dx) {
        assert CellFlipped(input, output, output.centerY + o.dy, output.centerX + o.dx);
      }
    }
  }

  method FlipColumn(input: MatrixArea, output: MatrixArea, x: int)
    requires input.Valid() && output.Valid() && input.data != output.data
    requires input.rows <= output.rows && input.cols <= output.cols && 0 <= x < input.cols
    requires forall j :: output.Within(j, x) ==> !output.data[j, x]
    modifies output.data
    ensures forall j, i :: output.Within(j, i) && i != x ==> output.data[j, i] == old(output.data[j, i])
    ensures forall j {:trigger CellFlipped(input, output, j, x)} :: output.Within(j, x) ==>
      CellFlipped(input, output, j, x)
  {
    var ry := 0;
    var y := input.rows;
    while y > 0
      invariant 0 <= y <= input.rows && ry == input.rows - y
      invariant forall j, i :: output.Within(j, i) && i != x ==> output.data[j, i] == old(output.data[j, i])
      invariant forall j :: output.Within(j, x) ==> output.data[j, x] == (j < ry && input.data[input.rows - 1 - j, x])
    {
      y := y - 1;
      output.data[ry, x] := input.data[y, x];
      ry := ry + 1;
    }
  }

  function Sideways(o: Offset, d: int): Offset { Offset(o.dy, o.dx + d) }

  function Upright(o: Offset, d: int): Offset { Offset(o.dy + d, o.dx) }

  /** A set of tiles that does not change when shifted sideways is empty. */
  lemma {:induction false} ShiftedSideways(a: MatrixArea, d: int, o: Offset)
    requires a.Valid() && d != 0
    requires forall p {:trigger Sideways(p, d)} :: a.Covers(p) ==> a.Covers(Sideways(p, d))
    ensures !a.Covers(o)
    decreases if d > 0 then a.cols - a.centerX - o.dx else a.centerX + o.dx + 1
  {
    if a.Covers(o) { ShiftedSideways(a, d, Sideways(o, d)); }
  }

  lemma {:induction false} ShiftedUpright(a: MatrixArea, d: int, o: Offset)
    requires a.Valid() && d != 0
    requires forall p {:trigger Upright(p, d)} :: a.Covers(p) ==> a.Covers(Upright(p, d))
    ensures !a.Covers(o)
    decreases if d > 0 then a.rows - a.centerY - o.dy else a.centerY + o.dy + 1
  {
    if a.Covers(o) { ShiftedUpright(a, d, Upright(o, d)); }
  }

  /** What MIRROR makes is the mirror image, tile for tile, if and only if the input is
      square or covers nothing. */
  lemma MirrorExactly(input: MatrixArea, output: MatrixArea)
    requires input.Valid() && output.Valid()
    requires forall o {:trigger output.Covers(o)} :: output.Covers(o) <==>
      input.Covers(Offset(o.dy, input.cols - input.rows - o.dx))
    ensures (forall o {:trigger output.Covers(o)} :: output.Covers(o) <==> input.Covers(Mirrored(o)))
       <==> (input.rows == input.cols || forall o :: !input.Covers(o))
  {
    var d := input.cols - input.rows;
    if (forall o {:trigger output.Covers(o)} :: output.Covers(o) <==> input.Covers(Mirrored(o))) && d != 0 {
      forall p {:trigger Sideways(p, d)} | input.Covers(p) ensures input.Covers(Sideways(p, d)) {
        assert output.Covers(Mirrored(p)) <==> input.Covers(Mirrored(Mirrored(p)));
      }
      forall o ensures !input.Covers(o) { ShiftedSideways(input, d, o); }
    }
  }

  /** The same for FLIP. */
  lemma FlipExactly(input: MatrixArea, output: MatrixArea)
    requires input.Valid() && output.Valid()
    requires forall o {:trigger output.Covers(o)} :: output.Covers(o) <==>
      input.Covers(Offset(input.rows - input.cols - o.dy, o.dx))
    ensures (forall o {:trigger output.Covers(o)} :: output.Covers(o) <==> input.Covers(Flipped(o)))
       <==> (input.rows == input.cols || forall o :: !input.Covers(o))
  {
    var d := input.rows - input.cols;
    if (forall o {:trigger output.Covers(o)} :: output.Covers(o) <==> input.Covers(Flipped(o))) && d != 0 {
      forall p {:trigger Upright(p, d)} | input.Covers(p) ensures input.Covers(Upright(p, d)) {
        assert output.Covers(Flipped(p)) <==> input.Covers(Flipped(Flipped(p)));
      }
      forall o ensures !input.Covers(o) { ShiftedUpright(input, d, o); }
    }
  }

  // ---- setting areas up -------------------------------------------------------------------------

  /** Entry `(y, x)` of a list written row by row. */
  function Entry(list: seq<nat>, cols: nat, y: int, x: int): nat {
    if 0 <= y * cols + x < |list| then list[y * cols + x] else 0
  }

  predicate Marks(v: nat) { v == 1 || v == 3 }

  predicate Centres(v: nat) { v == 2 || v == 3 }

  lemma RowStep(y: nat, cols: nat, rows: nat, x: nat)
    requires y * cols + x < rows * cols && x < cols
    ensures (y + 1) * cols == y * cols + cols && y < rows
  {
    if y >= rows { RowsMonotone(rows, y, cols); }
  }

  lemma RowsMonotone(a: nat, b: nat, cols: nat)
    requires a <= b
    ensures a * cols <= b * cols
  {
    assert b * cols == a * cols + (b - a) * cols;
    assert (b - a) * cols >= 0;
  }

  /** The covered cells are the marked ones. */
  ghost predicate Drawn(area: MatrixArea, list: seq<nat>, cols: nat)
    requires area.Valid()
    reads area.data
  {
    forall y, x :: area.Within(y, x) ==> area.data[y, x] == Marks(Entry(list, cols, y, x))
  }

  /** `createArea`: the cells marked 1 or 3 are covered; the centre is the last cell marked
      2 or 3, or the top left one. */
  method CreateArea(list: seq<nat>, rows: nat, cols: nat) returns (area: MatrixArea)
    requires |list| == rows * cols && rows > 0 && cols > 0
    ensures fresh(area) && fresh(area.data) && area.Valid() && area.rows == rows && area.cols == cols && area.Centred()
    ensures Drawn(area, list, cols)
    ensures Centres(Entry(list, cols, area.centerY, area.centerX)) || (area.centerY == 0 && area.centerX == 0)
    ensures forall y, x :: area.Within(y, x) && Centres(Entry(list, cols, y, x)) ==>
      (y, x) == (area.centerY, area.centerX) || Before(y, x, area.centerY, area.centerX)
  {
    area := new MatrixArea(rows, cols);
    var x, y, i := 0, 0, 0;
    while i < |list|
      invariant 0 <= i <= |list| && 0 <= x < cols && 0 <= y && i == y * cols + x
      invariant area.Valid() && area.Centred() && area.rows == rows && area.cols == cols && fresh(area)
      invariant fresh(area.data)
      invariant forall j, k :: area.Within(j, k) ==>
        area.data[j, k] == (Before(j, k, y, x) && Marks(Entry(list, cols, j, k)))
      invariant Centres(Entry(list, cols, area.centerY, area.centerX)) || (area.centerY == 0 && area.centerX == 0)
      invariant forall j, k :: area.Within(j, k) && Before(j, k, y, x) && Centres(Entry(list, cols, j, k)) ==>
        (j, k) == (area.centerY, area.centerX) || Before(j, k, area.centerY, area.centerX)
    {
      RowStep(y, cols, rows, x);
      var value := list[i];
      assert value == Entry(list, cols, y, x);
      if value == 1 || value == 3 { area.data[y, x] := true; }
      if value == 2 || value == 3 { area.SetCenter(y, x); }
      x := x + 1;
      if cols == x { x, y := 0, y + 1; }
      i := i + 1;
    }
    LastRow(y, x, rows, cols);
  }

  predicate Before(y: int, x: int, y': int, x': int) {
    y < y' || (y == y' && x < x')
  }

  lemma LastRow(y: nat, x: nat, rows: nat, cols: nat)
    requires y * cols + x == rows * cols && x < cols
    ensures y >= rows
  {
    if y < rows { RowsMonotone(y + 1, rows, cols); }
  }

  ghost predicate CoversAs(a: MatrixArea, b: MatrixArea, turn: Offset -> Offset)
    requires a.Valid() && b.Valid()
    reads a, a.data, b, b.data
  {
    forall o {:trigger a.Covers(o)} :: a.Covers(o) <==> b.Covers(turn(o))
  }

  ghost predicate Empty(a: MatrixArea)
    requires a.Valid()
    reads a, a.data
  {
    forall o :: !a.Covers(o)
  }

  method NewRotation(input: MatrixArea, op: Operation) returns (output: MatrixArea)
    requires input.Valid() && input.Centred() && IsRotation(op)
    ensures fresh(output) && fresh(output.data) && output.Valid()
    ensures CoversAs(output, input, o => Unrotated(op, o))
  {
    var maxOutput := 2 * Max(input.cols, input.rows);
    output := new MatrixArea(maxOutput, maxOutput);
    RotateArea(input, output, op);
  }

  method NewMirror(input: MatrixArea, maxOutput: nat) returns (output: MatrixArea)
    requires input.Valid() && input.rows <= maxOutput && input.cols <= maxOutput
    ensures fresh(output) && fresh(output.data) && output.Valid() && output.rows == output.cols == maxOutput
    ensures CoversAs(output, input, Mirrored) <==> input.rows == input.cols || Empty(input)
  {
    output := new MatrixArea(maxOutput, maxOutput);
    MirrorArea(input, output);
    MirrorExactly(input, output);
  }

  method NewFlip(input: MatrixArea, maxOutput: nat) returns (output: MatrixArea)
    requires input.Valid() && input.rows <= maxOutput && input.cols <= maxOutput
    ensures fresh(output) && fresh(output.data) && output.Valid() && output.rows == output.cols == maxOutput
    ensures CoversAs(output, input, Flipped) <==> input.rows == input.cols || Empty(input)
  {
    output := new MatrixArea(maxOutput, maxOutput);
    FlipArea(input, output);
    FlipExactly(input, output);
  }

  /** `setupArea`: the area and its three rotations. */
  method SetupArea(list: seq<nat>, rows: nat, cols: nat)
    returns (north: MatrixArea, east: MatrixArea, south: MatrixArea, west: MatrixArea)
    requires |list| == rows * cols && rows > 0 && cols > 0
    ensures north.Valid() && east.Valid() && south.Valid() && west.Valid()
    ensures north.rows == rows && north.cols == cols && Drawn(north, list, cols)
    ensures CoversAs(south, north, Half) && CoversAs(east, north, ThreeQuarters) && CoversAs(west, north, Quarter)
  {
    north := CreateArea(list, rows, cols);
    south := NewRotation(north, MATRIXOPERATION_ROTATE180);
    east := NewRotation(north, MATRIXOPERATION_ROTATE90);
    west := NewRotation(north, MATRIXOPERATION_ROTATE270);
  }

  /** The half turn is two quarter turns, and three quarter turns undo one: turning south
      from north is turning east twice, and west turned east is north again. */
  lemma TurnsCompose(north: MatrixArea, east: MatrixArea, south: MatrixArea, west: MatrixArea, o: Offset)
    requires north.Valid() && east.Valid() && south.Valid() && west.Valid()
    requires CoversAs(south, north, Half) && CoversAs(east, north, ThreeQuarters) && CoversAs(west, north, Quarter)
    ensures south.Covers(Quarter(Quarter(o))) <==> north.Covers(o)
    ensures south.Covers(Quarter(o)) <==> east.Covers(o)
    ensures west.Covers(o) <==> north.Covers(Quarter(o))
    ensures west.Covers(Half(o)) <==> east.Covers(o)
  {
    assert Half(Quarter(Quarter(o))) == o && ThreeQuarters(o) == Half(Quarter(o))
      && Quarter(Half(o)) == ThreeQuarters(o);
    assert south.Covers(Quarter(Quarter(o))) <==> north.Covers(Half(Quarter(Quarter(o))));
    assert south.Covers(Quarter(o)) <==> north.Covers(Half(Quarter(o)));
    assert west.Covers(Half(o)) <==> north.Covers(Quarter(Half(o)));
    assert east.Covers(o) <==> north.Covers(ThreeQuarters(o));
  }

  /** The areas of the four diagonal directions. */
  datatype Corners = Corners(northWest: MatrixArea, northEast: MatrixArea, southWest: MatrixArea, southEast: MatrixArea)

  /** `setupExtArea`: north-east and south-west are the mirror image and the flip of the
      given area exactly when it is square (or covers nothing); south-east is the mirror
      image of south-west whatever its shape, because that one is square. An empty list
      sets nothing up. */
  method SetupExtArea(list: seq<nat>, rows: nat, cols: nat) returns (areas: Option<Corners>)
    requires list == [] || (|list| == rows * cols && rows > 0 && cols > 0)
    ensures areas.Some? <==> list != []
    ensures areas.Some? ==>
      var Corners(northWest, northEast, southWest, southEast) := areas.value;
      && northWest.Valid() && northEast.Valid() && southWest.Valid() && southEast.Valid()
      && northWest.rows == rows && northWest.cols == cols && Drawn(northWest, list, cols)
      && CoversAs(southEast, southWest, Mirrored)
      && (CoversAs(northEast, northWest, Mirrored) <==> rows == cols || Empty(northWest))
      && (CoversAs(southWest, northWest, Flipped) <==> rows == cols || Empty(northWest))
  {
    if list == [] { return None; }
    var northWest := CreateArea(list, rows, cols);
    var maxOutput := 2 * Max(northWest.cols, northWest.rows);
    var northEast := NewMirror(northWest, maxOutput);
    var southWest := NewFlip(northWest, maxOutput);
    var southEast := NewMirror(southWest, maxOutput);
    areas := Some(Corners(northWest, northEast, southWest, southEast));
  }

  // ---- areas that are not square -----------------------------------------------------------

  ghost predicate CoversOnly(a: MatrixArea, o: Offset)
    requires a.Valid()
    reads a, a.data
  {
    forall p :: a.Covers(p) <==> p == o
  }

  /** One row of two tiles of which only the centre is covered: MIRROR covers the tile to
      the right of the centre instead. */
  method MirrorExample() returns (input: MatrixArea, output: MatrixArea)
    ensures input.Valid() && output.Valid() && input.rows == 1 && input.cols == 2
    ensures CoversOnly(input, Offset(0, 0)) && CoversOnly(output, Offset(0, 1))
    ensures !CoversAs(output, input, Mirrored)
  {
    input := CreateArea([3, 0], 1, 2);
    output := new MatrixArea(4, 4);
    MirrorArea(input, output);
    OnlyMarked(input, [3, 0], 2);
    assert output.Covers(Offset(0, 1)) && !input.Covers(Mirrored(Offset(0, 1)));
  }

  /** One column of two tiles: FLIP covers the tile below the centre instead. */
  method FlipExample() returns (input: MatrixArea, output: MatrixArea)
    ensures input.Valid() && output.Valid() && input.rows == 2 && input.cols == 1
    ensures CoversOnly(input, Offset(0, 0)) && CoversOnly(output, Offset(1, 0))
    ensures !CoversAs(output, input, Flipped)
  {
    input := CreateArea([3, 0], 2, 1);
    output := new MatrixArea(4, 4);
    FlipArea(input, output);
    OnlyMarked(input, [3, 0], 1);
    assert output.Covers(Offset(1, 0)) && !input.Covers(Flipped(Offset(1, 0)));
  }

  lemma OnlyMarked(a: MatrixArea, list: seq<nat>, cols: nat)
    requires a.Valid() && a.cols == cols && a.centerY == 0 && a.centerX == 0 && Drawn(a, list, cols)
    requires a.Within(0, 0) && list == [3, 0] && (cols == 1 || cols == 2) && a.rows * cols == 2
    ensures CoversOnly(a, Offset(0, 0))
  {
    assert a.data[0, 0] == Marks(Entry(list, cols, 0, 0));
    forall p ensures a.Covers(p) <==> p == Offset(0, 0) {
      if a.Within(p.dy, p.dx) {
        assert a.data[p.dy, p.dx] == Marks(Entry(list, cols, p.dy, p.dx));
      }
    }
  }
}
