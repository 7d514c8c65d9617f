/**
 The CoreHW CHW1010-ANT2-1.1 antenna array, `chw1010_ant2_specs.c`: sixteen
 antennas on a 4 x 4 grid with orthogonal spacing d = 37.5 mm, centred on the
 origin, x to the right and y upward when facing the array, z = 0.
 */
module Chw1010 {
  import opened Common

  /** `antenna_spacing_orthogonal`, in millimetres. */
  const SpacingOrthogonal: real := 37.5

  /** `antenna_spacing_diagonal`, in millimetres. */
  const SpacingDiagonal: real := 53.033009

  const AntennaCount: nat := 16

  /** `antenna_positions_xyz` */
  const PositionsXyz: seq<Vec3> := [
    Vec3(-18.75, -18.75, 0.0),
    Vec3(-56.25, -18.75, 0.0),
    Vec3(-56.25, -56.25, 0.0),
    Vec3(-18.75, -56.25, 0.0),
    Vec3( 18.75, -56.25, 0.0),
    Vec3( 18.75, -18.75, 0.0),
    Vec3( 56.25, -56.25, 0.0),
    Vec3( 56.25, -18.75, 0.0),
    Vec3( 56.25,  18.75, 0.0),
    Vec3( 56.25,  56.25, 0.0),
    Vec3( 18.75,  18.75, 0.0),
    Vec3( 18.75,  56.25, 0.0),
    Vec3(-18.75,  56.25, 0.0),
    Vec3(-56.25,  56.25, 0.0),
    Vec3(-56.25,  18.75, 0.0),
    Vec3(-18.75,  18.75, 0.0)
  ]

  /** `antenna_positions_xy` */
  const PositionsXy: seq<(real, real)> := [
    (-18.75, -18.75),
    (-56.25, -18.75),
    (-56.25, -56.25),
    (-18.75, -56.25),
    ( 18.75, -56.25),
    ( 18.75, -18.75),
    ( 56.25, -56.25),
    ( 56.25, -18.75),
    ( 56.25,  18.75),
    ( 56.25,  56.25),
    ( 18.75,  18.75),
    ( 18.75,  56.25),
    (-18.75,  56.25),
    (-56.25,  56.25),
    (-56.25,  18.75),
    (-18.75,  18.75)
  ]

  /** `antenna_positions_x` */
  const PositionsX: seq<real> := [
    -18.75, -56.25, -56.25, -18.75, 18.75, 18.75, 56.25, 56.25,
    56.25, 56.25, 18.75, 18.75, -18.75, -56.25, -56.25, -18.75
  ]

  /** `antenna_positions_y` */
  const PositionsY: seq<real> := [
    -18.75, -18.75, -56.25, -56.25, -56.25, -18.75, -56.25, -18.75,
    18.75, 56.25, 18.75, 56.25, 56.25, 56.25, 18.75, 18.75
  ]

  /** The documented antenna grid, top row first, each row left to right. */
  const Grid: seq<seq<nat>> := [
    [13, 12, 11,  9],
    [14, 15, 10,  8],
    [ 1,  0,  5,  7],
    [ 2,  3,  4,  6]
  ]

  /** A grid cell: row 0 is the top row, column 0 the leftmost. */
  datatype Cell = Cell(row: nat, col: nat)

  /** The cell of each antenna in the documented grid. */
  const Cells: seq<Cell> := [
    Cell(2, 1), Cell(2, 0), Cell(3, 0), Cell(3, 1),
    Cell(3, 2), Cell(2, 2), Cell(3, 3), Cell(2, 3),
    Cell(1, 3), Cell(0, 3), Cell(1, 2), Cell(0, 2),
    Cell(0, 1), Cell(0, 0), Cell(1, 0), Cell(1, 1)
  ]

  /** The centre of a grid cell: columns at x = (col - 1.5) d and rows at
      y = (1.5 - row) d, that is, at plus or minus d/2 and 3d/2. */
  function CellCentre(c: Cell): (p: Vec3)
    requires c.row < 4 && c.col < 4
    ensures p.z == 0.0
    ensures p.x in {-1.5 * SpacingOrthogonal, -0.5 * SpacingOrthogonal, 0.5 * SpacingOrthogonal, 1.5 * SpacingOrthogonal}
    ensures p.y in {-1.5 * SpacingOrthogonal, -0.5 * SpacingOrthogonal, 0.5 * SpacingOrthogonal, 1.5 * SpacingOrthogonal}
  {
    Vec3((c.col as real - 1.5) * SpacingOrthogonal, (1.5 - c.row as real) * SpacingOrthogonal, 0.0)
  }

  /** `Cells` inverts the documented grid: the grid holds each antenna
      number exactly once. */
  lemma GridIsPermutation()
    ensures |Grid| == 4 && forall r :: 0 <= r < 4 ==> |Grid[r]| == 4
    ensures |Cells| == AntennaCount
    ensures forall a :: 0 <= a < AntennaCount ==>
      Cells[a].row < 4 && Cells[a].col < 4 && Grid[Cells[a].row][Cells[a].col] == a
    ensures forall r, c :: 0 <= r < 4 && 0 <= c < 4 ==>
      Grid[r][c] < AntennaCount && Cells[Grid[r][c]] == Cell(r, c)
  {
  }

  /** Each antenna's tabulated position is the centre of its cell in the
      documented grid; e.g. antenna 2 is bottom left and antenna 9 top right. */
  lemma PositionsMatchGrid()
    ensures |PositionsXyz| == AntennaCount
    ensures forall a :: 0 <= a < AntennaCount ==>
      Cells[a].row < 4 && Cells[a].col < 4 && PositionsXyz[a] == CellCentre(Cells[a])
    ensures Cells[2] == Cell(3, 0) && Cells[9] == Cell(0, 3)
  {
  }

  /** The `xy`, `x` and `y` tables agree with the `xyz` table. */
  lemma TablesAgree()
    ensures |PositionsXy| == |PositionsX| == |PositionsY| == |PositionsXyz| == AntennaCount
    ensures forall a :: 0 <= a < AntennaCount ==>
      && PositionsXy[a] == (PositionsXyz[a].x, PositionsXyz[a].y)
      && PositionsX[a] == PositionsXyz[a].x
      && PositionsY[a] == PositionsXyz[a].y
  {
  }

  /** The sixteen positions are pairwise distinct. */
  lemma PositionsDistinct()
    ensures forall a, b :: 0 <= a < b < AntennaCount ==> PositionsXyz[a] != PositionsXyz[b]
  {
  }

  lemma CellCentreInjective(c1: Cell, c2: Cell)
    requires c1.row < 4 && c1.col < 4 && c2.row < 4 && c2.col < 4
    ensures c1 != c2 ==> CellCentre(c1) != CellCentre(c2)
  {
  }

  /** Cells that share a row sit d apart per column step, and cells that share
      a column sit d apart per row step. */
  lemma CellCentreSpacing(c1: Cell, c2: Cell)
    requires c1.row < 4 && c1.col < 4 && c2.row < 4 && c2.col < 4
    ensures CellCentre(c2).x - CellCentre(c1).x == (c2.col as real - c1.col as real) * SpacingOrthogonal
    ensures CellCentre(c1).y - CellCentre(c2).y == (c2.row as real - c1.row as real) * SpacingOrthogonal
  {
  }

  /** The diagonal spacing is d times the square root of two, to within the
      table's rounding. */
  lemma DiagonalSpacing()
    ensures 2.0 * SpacingOrthogonal * SpacingOrthogonal - 0.0001
      < SpacingDiagonal * SpacingDiagonal
      < 2.0 * SpacingOrthogonal * SpacingOrthogonal + 0.0001
  {
  }
}
