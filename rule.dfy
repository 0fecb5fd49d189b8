/** The falling rule of one generation, as a pure function of the old grid.
    Every cell of the new grid is determined by the old grid alone, so the
    order in which the program scans the cells does not matter. */
module FallRule {
  import opened Grid

  /** The candidate moves of a sand cell, as (dy, dx), in the order they are
      tried: straight down, down-right, down-left. */
  const Directions: seq<(int, int)> := [(1, 0), (1, 1), (1, -1)]

  /** The target of the first candidate, from index `k` on, that is in bounds
      and empty in `g`; the cell itself when none is. */
  function FirstOpen(g: Cells, x: int, y: int, k: nat): (t: (int, int))
    decreases |Directions| - k
  {
    if k >= |Directions| then (x, y)
    else
      var (dy, dx) := Directions[k];
      if IsEmpty(g, x + dx, y + dy) then (x + dx, y + dy)
      else FirstOpen(g, x, y, k + 1)
  }

  /** Where the sand at (x, y) goes in the next generation. */
  function Destination(g: Cells, x: int, y: int): (t: (int, int))
    ensures t == (x, y) || (t.1 == y + 1 && x - 1 <= t.0 <= x + 1 && IsEmpty(g, t.0, t.1))
  {
    FirstOpen(g, x, y, 0)
  }

  /** Some candidate of (x, y) is in bounds and empty. */
  predicate CanFall(g: Cells, x: int, y: int) {
    IsEmpty(g, x, y + 1) || IsEmpty(g, x + 1, y + 1) || IsEmpty(g, x - 1, y + 1)
  }

  /** The sand at (sx, sy) ends up at (tx, ty). */
  predicate Writes(g: Cells, sx: int, sy: int, tx: int, ty: int) {
    IsSand(g, sx, sy) && Destination(g, sx, sy) == (tx, ty)
  }

  /** The new value of cell (x, y): sand exactly when the sand at (x, y) stays,
      or the sand directly above, above-left or above-right moves into it.
      New sand only appears where there was sand or an empty cell, and a grain
      that cannot fall keeps its cell. */
  function NextCell(g: Cells, x: int, y: int): (r: int)
    ensures r == EMPTY || r == SAND
    ensures r == SAND ==> IsSand(g, x, y) || IsEmpty(g, x, y)
    ensures IsSand(g, x, y) && !CanFall(g, x, y) ==> r == SAND
  {
    MovePriority(g, x, y);
    if Writes(g, x, y, x, y) || Writes(g, x, y - 1, x, y) ||
       Writes(g, x - 1, y - 1, x, y) || Writes(g, x + 1, y - 1, x, y)
    then SAND else EMPTY
  }

  /** The grid one generation later. */
  function NextGrid(g: Cells): (n: Cells)
    ensures |n| == |g| && forall y :: 0 <= y < |g| ==> |n[y]| == |g[y]|
    ensures Binary(n)
  {
    seq(|g|, y requires 0 <= y < |g| => seq(|g[y]|, x => NextCell(g, x, y)))
  }

  /** No sand cell can move: the grid is at rest. */
  ghost predicate Settled(g: Cells) {
    forall x, y :: IsSand(g, x, y) ==> !CanFall(g, x, y)
  }

  /** The move of a sand cell follows the fixed priority order, with
      emptiness judged against the old grid. */
  lemma MovePriority(g: Cells, x: int, y: int)
    ensures IsEmpty(g, x, y + 1) ==> Destination(g, x, y) == (x, y + 1)
    ensures !IsEmpty(g, x, y + 1) && IsEmpty(g, x + 1, y + 1) ==>
              Destination(g, x, y) == (x + 1, y + 1)
    ensures !IsEmpty(g, x, y + 1) && !IsEmpty(g, x + 1, y + 1) && IsEmpty(g, x - 1, y + 1) ==>
              Destination(g, x, y) == (x - 1, y + 1)
    ensures !CanFall(g, x, y) <==> Destination(g, x, y) == (x, y)
  {
    assert FirstOpen(g, x, y, 3) == (x, y);
  }

  /** Sand on the bottom row never moves. */
  lemma BottomRowStays(g: Cells, x: int)
    requires |g| > 0 && IsSand(g, x, |g| - 1)
    ensures Destination(g, x, |g| - 1) == (x, |g| - 1)
    ensures NextCell(g, x, |g| - 1) == SAND
  {
    MovePriority(g, x, |g| - 1);
  }

  /** Only the cell itself and the three cells above it can send sand to (tx, ty). */
  lemma WritesNearby(g: Cells, sx: int, sy: int, tx: int, ty: int)
    requires Writes(g, sx, sy, tx, ty)
    ensures (sx, sy) in {(tx, ty), (tx, ty - 1), (tx - 1, ty - 1), (tx + 1, ty - 1)}
  {
  }

  /** The four-neighbour formulation of NextCell agrees with the global one:
      a new cell is sand exactly when some old sand cell, anywhere, ends up there. */
  lemma NextCellIsImage(g: Cells, x: int, y: int)
    ensures NextCell(g, x, y) == SAND <==> exists sx, sy :: Writes(g, sx, sy, x, y)
  {
    if sx, sy :| Writes(g, sx, sy, x, y) {
      WritesNearby(g, sx, sy, x, y);
    }
  }

  /** A generation leaves the grid unchanged exactly when it is at rest. */
  lemma {:induction false} FixpointIffSettled(g: Cells)
    requires Binary(g)
    ensures NextGrid(g) == g <==> Settled(g)
  {
    var n := NextGrid(g);
    if Settled(g) {
      forall y | 0 <= y < |g| ensures n[y] == g[y] {
        forall x | 0 <= x < |g[y]| ensures n[y][x] == g[y][x] {
          MovePriority(g, x, y);
          if g[y][x] == SAND {
            assert Writes(g, x, y, x, y);
          } else {
            if sx, sy :| Writes(g, sx, sy, x, y) {
              MovePriority(g, sx, sy);
            }
            NextCellIsImage(g, x, y);
          }
        }
      }
    } else {
      var x, y :| IsSand(g, x, y) && CanFall(g, x, y);
      MovePriority(g, x, y);
      var t := Destination(g, x, y);
      assert Writes(g, x, y, t.0, t.1);
      NextCellIsImage(g, t.0, t.1);
      assert n[t.1][t.0] != g[t.1][t.0];
    }
  }

  /** A grid at rest stays at rest. */
  lemma SettledStaysSettled(g: Cells)
    requires Binary(g) && Settled(g)
    ensures NextGrid(g) == g && Settled(NextGrid(g))
  {
    FixpointIffSettled(g);
  }

  /** The coordinates (x, y) of the sand cells of `g`. */
  function SandSet(g: Cells): set<(int, int)> {
    set y, x | 0 <= y < |g| && 0 <= x < |g[y]| && g[y][x] == SAND :: (x, y)
  }

  /** The number of sand cells of `g`. */
  function SandCount(g: Cells): nat {
    |SandSet(g)|
  }

  /** Where the cells of `s` go. */
  function Targets(g: Cells, s: set<(int, int)>): set<(int, int)> {
    set p | p in s :: Destination(g, p.0, p.1)
  }

  lemma {:induction false} TargetsNoLarger(g: Cells, s: set<(int, int)>)
    ensures |Targets(g, s)| <= |s|
    decreases |s|
  {
    if s != {} {
      var p :| p in s;
      TargetsNoLarger(g, s - {p});
      assert Targets(g, s) == Targets(g, s - {p}) + {Destination(g, p.0, p.1)};
    }
  }

  /** The sand of the next generation is exactly where the old sand went. */
  lemma NextSandIsTargets(g: Cells)
    ensures SandSet(NextGrid(g)) == Targets(g, SandSet(g))
  {
    var n := NextGrid(g);
    forall t | t in SandSet(n) ensures t in Targets(g, SandSet(g)) {
      NextCellIsImage(g, t.0, t.1);
      var sx, sy :| Writes(g, sx, sy, t.0, t.1);
      assert (sx, sy) in SandSet(g);
    }
    forall t | t in Targets(g, SandSet(g)) ensures t in SandSet(n) {
      var p :| p in SandSet(g) && Destination(g, p.0, p.1) == t;
      assert Writes(g, p.0, p.1, t.0, t.1);
      NextCellIsImage(g, t.0, t.1);
    }
  }

  /** A generation never creates sand. */
  lemma SandNeverIncreases(g: Cells)
    ensures SandCount(NextGrid(g)) <= SandCount(g)
  {
    NextSandIsTargets(g);
    TargetsNoLarger(g, SandSet(g));
  }

  /** A grid equals NextGrid(g) when it has g's shape and NextCell's values. */
  lemma NextGridIs(g: Cells, n: Cells)
    requires |n| == |g| && forall y :: 0 <= y < |g| ==> |n[y]| == |g[y]|
    requires forall y, x :: 0 <= y < |g| && 0 <= x < |g[y]| ==> NextCell(g, x, y) == n[y][x]
    ensures NextGrid(g) == n
  {
    forall y | 0 <= y < |g| ensures NextGrid(g)[y] == n[y] {
    }
  }

  /** Sand is not conserved: two grains that pick the same empty cell merge. */
  lemma SandCanBeLost()
    ensures var g := [[1, 0, 1], [1, 0, 1]];
            NextGrid(g) == [[0, 0, 0], [1, 1, 1]] && SandCount(NextGrid(g)) < SandCount(g)
  {
    var g := [[1, 0, 1], [1, 0, 1]];
    MovePriority(g, 0, 0);
    MovePriority(g, 2, 0);
    MovePriority(g, 0, 1);
    MovePriority(g, 2, 1);
    NextGridIs(g, [[0, 0, 0], [1, 1, 1]]);
    assert SandSet(g) == {(0, 0), (2, 0), (0, 1), (2, 1)};
    assert SandSet(NextGrid(g)) == {(0, 1), (1, 1), (2, 1)};
  }

  /** A single column of three cells with sand on top: the grain falls one row
      per generation and then rests. */
  lemma ColumnExample()
    ensures NextGrid([[1], [0], [0]]) == [[0], [1], [0]]
    ensures NextGrid([[0], [1], [0]]) == [[0], [0], [1]]
    ensures NextGrid([[0], [0], [1]]) == [[0], [0], [1]]
  {
    MovePriority([[1], [0], [0]], 0, 0);
    NextGridIs([[1], [0], [0]], [[0], [1], [0]]);
    MovePriority([[0], [1], [0]], 0, 1);
    NextGridIs([[0], [1], [0]], [[0], [0], [1]]);
    MovePriority([[0], [0], [1]], 0, 2);
    NextGridIs([[0], [0], [1]], [[0], [0], [1]]);
  }
}
