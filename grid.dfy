/** The grid of the falling-sand automaton: its cell values, its dimensions
    derived from the canvas size, and the bounds test every access goes through. */
module Grid {

  /** Edge length, in pixels, of one grid cell. */
  const BLOCK_SIZE: int := 5

  const EMPTY: int := 0
  const SAND: int := 1

  /** A grid as the program holds it: an array of rows, each an array of cells,
      indexed `g[y][x]` (row first). */
  type Cells = seq<seq<int>>

  /** Number of rows of a canvas `height` pixels high. */
  function Rows(height: nat): nat {
    height / BLOCK_SIZE
  }

  /** Number of columns of a canvas `width` pixels wide. */
  function Cols(width: nat): nat {
    width / BLOCK_SIZE
  }

  /** The bounds test of the program: it compares against the real quotient of
      the canvas size by the block size, not against the array sizes. When the
      canvas size is a multiple of the block size the two agree. */
  function IsWithinBounds(x: int, y: int, canvasWidth: nat, canvasHeight: nat): (r: bool)
    ensures canvasWidth % BLOCK_SIZE == 0 && canvasHeight % BLOCK_SIZE == 0 ==>
              (r <==> 0 <= x < Cols(canvasWidth) && 0 <= y < Rows(canvasHeight))
  {
    x >= 0 && (x as real) < (canvasWidth as real) / (BLOCK_SIZE as real) &&
    y >= 0 && (y as real) < (canvasHeight as real) / (BLOCK_SIZE as real)
  }

  /** (x, y) names a cell of `g`: column x of row y. */
  predicate InGrid(g: Cells, x: int, y: int) {
    0 <= y < |g| && 0 <= x < |g[y]|
  }

  /** The cell holds sand (the program tests `=== 1`). */
  predicate IsSand(g: Cells, x: int, y: int) {
    InGrid(g, x, y) && g[y][x] == SAND
  }

  /** The cell is in bounds and empty (the program tests `=== 0`). */
  predicate IsEmpty(g: Cells, x: int, y: int) {
    InGrid(g, x, y) && g[y][x] == EMPTY
  }

  /** Every row has `cols` cells and there are `rows` rows. */
  predicate HasShape(g: Cells, rows: nat, cols: nat) {
    |g| == rows && forall y :: 0 <= y < |g| ==> |g[y]| == cols
  }

  /** Every cell is empty or sand. */
  predicate Binary(g: Cells) {
    forall y, x :: 0 <= y < |g| && 0 <= x < |g[y]| ==> g[y][x] == EMPTY || g[y][x] == SAND
  }

  /** The grid createInitialGrid returns: `rows` rows of `cols` empty cells. */
  function EmptyGrid(rows: nat, cols: nat): (g: Cells)
    ensures HasShape(g, rows, cols)
    ensures forall y, x :: 0 <= y < rows && 0 <= x < cols ==> g[y][x] == EMPTY
  {
    seq(rows, _ => seq(cols, _ => EMPTY))
  }
}
