/** The running program: the grid held in a two-dimensional array, the two
    pause flags and the ornament angle, with one method per event handler or
    timer tick. */
module Simulation {
  import opened Grid
  import opened FallRule
  import opened Ornament

  /** The contents of an array grid as a grid value, row by row. Comparing two
      snapshots is how the program's comparison of the serialised grids is
      modelled. */
  function Snapshot(a: array2<int>): (g: Cells)
    reads a
    ensures HasShape(g, a.Length0, a.Length1)
    ensures forall y, x :: 0 <= y < a.Length0 && 0 <= x < a.Length1 ==> g[y][x] == a[y, x]
  {
    seq(a.Length0, y requires 0 <= y < a.Length0 reads a =>
      seq(a.Length1, x requires 0 <= x < a.Length1 reads a => a[y, x]))
  }

  /** Cell (x, y) lies in the 5 by 5 brush centred on cell (cx, cy). */
  predicate InBrush(x: int, y: int, cx: int, cy: int) {
    cx - 2 <= x <= cx + 2 && cy - 2 <= y <= cy + 2
  }

  /** The value the brush writes at offset (i, j) from its centre. The random
      draws are supplied by the caller, one per offset: `random[k]` stands for
      `Math.random() > 0.5` at the offset numbered k. */
  function Spray(random: seq<bool>, i: int, j: int): (v: int)
    requires |random| == 25 && -2 <= i <= 2 && -2 <= j <= 2
    ensures v == EMPTY || v == SAND
  {
    if random[(i + 2) * 5 + (j + 2)] then SAND else EMPTY
  }

  /** (sx, sy) is visited before (x, y) by the row-major scan of updateGrid. */
  predicate ScannedBefore(sx: int, sy: int, x: int, y: int) {
    sy < y || (sy == y && sx < x)
  }

  /** Some cell visited before (x, y) has sent its sand to (tx, ty). */
  ghost predicate FilledBefore(g: Cells, tx: int, ty: int, x: int, y: int) {
    (ScannedBefore(tx, ty, x, y) && Writes(g, tx, ty, tx, ty)) ||
    (ScannedBefore(tx, ty - 1, x, y) && Writes(g, tx, ty - 1, tx, ty)) ||
    (ScannedBefore(tx - 1, ty - 1, x, y) && Writes(g, tx - 1, ty - 1, tx, ty)) ||
    (ScannedBefore(tx + 1, ty - 1, x, y) && Writes(g, tx + 1, ty - 1, tx, ty))
  }

  /** Visiting (x, y) adds exactly the target of its sand. */
  lemma ScanCell(g: Cells, x: int, y: int, tx: int, ty: int)
    ensures FilledBefore(g, tx, ty, x + 1, y) <==>
            FilledBefore(g, tx, ty, x, y) || Writes(g, x, y, tx, ty)
  {
    if Writes(g, x, y, tx, ty) {
      WritesNearby(g, x, y, tx, ty);
    }
  }

  /** Finishing a row is the same as starting the next one. */
  lemma ScanRow(g: Cells, cols: nat, y: int, tx: int, ty: int)
    requires HasShape(g, |g|, cols)
    ensures FilledBefore(g, tx, ty, cols, y) <==> FilledBefore(g, tx, ty, 0, y + 1)
  {
  }

  /** After the whole scan, the cells filled are those NextCell makes sand. */
  lemma ScanDone(g: Cells, tx: int, ty: int)
    ensures FilledBefore(g, tx, ty, 0, |g|) <==> NextCell(g, tx, ty) == SAND
  {
  }

  class FallingSand {
    /** Canvas size in pixels. */
    const canvasWidth: nat
    const canvasHeight: nat
    /** canvasGrid[y, x] is the cell in row y, column x. */
    var canvasGrid: array2<int>
    /** Toggled by a click: freezes injection and the ornament. */
    var paused: bool
    /** Set when a generation changed nothing: the simulation ticks idle. */
    var pauseSimulation: bool
    /** The ornament angle, in half degrees. */
    var halfDegrees: int

    ghost predicate Valid()
      reads this, canvasGrid
    {
      canvasWidth % BLOCK_SIZE == 0 && canvasHeight % BLOCK_SIZE == 0 &&
      canvasGrid.Length0 == Rows(canvasHeight) && canvasGrid.Length1 == Cols(canvasWidth) &&
      Binary(Snapshot(canvasGrid)) &&
      (pauseSimulation ==> Settled(Snapshot(canvasGrid))) &&
      0 <= halfDegrees <= FULL_TURN
    }

    /** The program's start-up: an empty grid for the canvas, neither flag
        set, the ornament at 0 degrees. */
    constructor (width: nat, height: nat)
      requires width % BLOCK_SIZE == 0 && height % BLOCK_SIZE == 0
      ensures Valid() && fresh(canvasGrid)
      ensures canvasWidth == width && canvasHeight == height
      ensures Snapshot(canvasGrid) == EmptyGrid(Rows(height), Cols(width))
      ensures !paused && !pauseSimulation && halfDegrees == 0
    {
      canvasWidth, canvasHeight := width, height;
      paused, pauseSimulation := false, false;
      halfDegrees := 0;
      new;
      canvasGrid := CreateInitialGrid();
    }

    /** A fresh grid of the canvas's dimensions, every cell empty. */
    method CreateInitialGrid() returns (grid: array2<int>)
      ensures fresh(grid)
      ensures grid.Length0 == Rows(canvasHeight) && grid.Length1 == Cols(canvasWidth)
      ensures Snapshot(grid) == EmptyGrid(Rows(canvasHeight), Cols(canvasWidth))
    {
      grid := new int[Rows(canvasHeight), Cols(canvasWidth)]((_, _) => EMPTY);
      var rows, cols := Rows(canvasHeight), Cols(canvasWidth);
      forall y | 0 <= y < rows ensures Snapshot(grid)[y] == EmptyGrid(rows, cols)[y] {
        assert forall x | 0 <= x < cols :: Snapshot(grid)[y][x] == EMPTY;
      }
    }

    /** A click flips `paused` and nothing else. */
    method Click()
      requires Valid()
      modifies this`paused
      ensures Valid()
      ensures paused == !old(paused)
    {
      paused := !paused;
    }

    /** Pointer movement at pixel offset (offsetX, offsetY): unless paused,
        wakes the simulation and overwrites every in-bounds cell of the 5 by 5
        block around the pointer's cell with a random 0 or 1. */
    method HandleMouseMove(offsetX: int, offsetY: int, random: seq<bool>)
      requires Valid() && |random| == 25
      modifies this`pauseSimulation, canvasGrid
      ensures Valid()
      ensures old(paused) ==> pauseSimulation == old(pauseSimulation) && unchanged(canvasGrid)
      ensures !old(paused) ==> !pauseSimulation
      ensures !old(paused) ==>
        var cx, cy := offsetX / BLOCK_SIZE, offsetY / BLOCK_SIZE;
        forall y, x :: 0 <= y < canvasGrid.Length0 && 0 <= x < canvasGrid.Length1 ==>
          canvasGrid[y, x] == if InBrush(x, y, cx, cy) then Spray(random, x - cx, y - cy)
                              else old(canvasGrid[y, x])
    {
      if paused {
        return;
      }
      pauseSimulation := false;
      // The divisor is positive, so Dafny's division is the floor division of the program.
      var x := offsetX / BLOCK_SIZE;
      var y := offsetY / BLOCK_SIZE;
      for i := -2 to 3
        invariant !pauseSimulation
        invariant forall yy, xx :: 0 <= yy < canvasGrid.Length0 && 0 <= xx < canvasGrid.Length1 ==>
          canvasGrid[yy, xx] == if InBrush(xx, yy, x, y) && xx - x < i then Spray(random, xx - x, yy - y)
                                else old(canvasGrid[yy, xx])
      {
        for j := -2 to 3
          invariant !pauseSimulation
          invariant forall yy, xx :: 0 <= yy < canvasGrid.Length0 && 0 <= xx < canvasGrid.Length1 ==>
            canvasGrid[yy, xx] ==
              if InBrush(xx, yy, x, y) && (xx - x < i || (xx - x == i && yy - y < j))
              then Spray(random, xx - x, yy - y)
              else old(canvasGrid[yy, xx])
        {
          if IsWithinBounds(x + i, y + j, canvasWidth, canvasHeight) {
            canvasGrid[y + j, x + i] := Spray(random, i, j);
          }
        }
      }
    }

    /** The sand at (x, y) of the current grid, if any, is written into
        `newGrid` at its destination: the first of down, down-right and
        down-left that is in bounds and empty in the current grid, or (x, y)
        itself. */
    method UpdateCellState(x: int, y: int, newGrid: array2<int>)
      requires Valid()
      requires newGrid != canvasGrid
      requires newGrid.Length0 == canvasGrid.Length0 && newGrid.Length1 == canvasGrid.Length1
      requires 0 <= x < canvasGrid.Length1 && 0 <= y < canvasGrid.Length0
      modifies newGrid
      ensures forall ty, tx :: 0 <= ty < newGrid.Length0 && 0 <= tx < newGrid.Length1 ==>
        newGrid[ty, tx] == if Writes(Snapshot(canvasGrid), x, y, tx, ty) then SAND
                           else old(newGrid[ty, tx])
    {
      if canvasGrid[y, x] != SAND {
        return;
      }
      ghost var g := Snapshot(canvasGrid);
      for k := 0 to |Directions|
        invariant FirstOpen(g, x, y, k) == Destination(g, x, y)
        invariant unchanged(newGrid)
      {
        var (dy, dx) := Directions[k];
        if IsWithinBounds(x + dx, y + dy, canvasWidth, canvasHeight) &&
           canvasGrid[y + dy, x + dx] == EMPTY
        {
          newGrid[y + dy, x + dx] := SAND;
          return;
        }
      }
      newGrid[y, x] := SAND;
    }

    /** One generation: the grid is replaced by a new array holding the next
        generation of the current one, computed cell by cell from the current
        grid only; when the two are equal the simulation goes idle. */
    method UpdateGrid()
      requires Valid()
      modifies this`canvasGrid, this`pauseSimulation
      ensures Valid() && fresh(canvasGrid)
      ensures Snapshot(canvasGrid) == NextGrid(old(Snapshot(canvasGrid)))
      ensures pauseSimulation ==
              (old(pauseSimulation) || Snapshot(canvasGrid) == old(Snapshot(canvasGrid)))
    {
      var newGrid := CreateInitialGrid();
      ghost var g := Snapshot(canvasGrid);
      var rows, cols := Rows(canvasHeight), Cols(canvasWidth);
      var y := 0;
      while y < rows
        invariant 0 <= y <= rows
        invariant unchanged(this) && fresh(newGrid)
        invariant forall ty, tx :: 0 <= ty < rows && 0 <= tx < cols ==>
          newGrid[ty, tx] == if FilledBefore(g, tx, ty, 0, y) then SAND else EMPTY
      {
        var x := 0;
        while x < cols
          invariant 0 <= x <= cols
          invariant unchanged(this)
          invariant forall ty, tx :: 0 <= ty < rows && 0 <= tx < cols ==>
            newGrid[ty, tx] == if FilledBefore(g, tx, ty, x, y) then SAND else EMPTY
        {
          UpdateCellState(x, y, newGrid);
          forall ty, tx | 0 <= ty < rows && 0 <= tx < cols
            ensures FilledBefore(g, tx, ty, x + 1, y) <==>
                    FilledBefore(g, tx, ty, x, y) || Writes(g, x, y, tx, ty)
          {
            ScanCell(g, x, y, tx, ty);
          }
          x := x + 1;
        }
        forall ty, tx | 0 <= ty < rows && 0 <= tx < cols
          ensures FilledBefore(g, tx, ty, cols, y) <==> FilledBefore(g, tx, ty, 0, y + 1)
        {
          ScanRow(g, cols, y, tx, ty);
        }
        y := y + 1;
      }
      forall ty | 0 <= ty < rows ensures Snapshot(newGrid)[ty] == NextGrid(g)[ty] {
        forall tx | 0 <= tx < cols ensures Snapshot(newGrid)[ty][tx] == NextGrid(g)[ty][tx] {
          ScanDone(g, tx, ty);
        }
      }
      assert Snapshot(newGrid) == NextGrid(g);
      if Snapshot(canvasGrid) == Snapshot(newGrid) {
        pauseSimulation := true;
      }
      canvasGrid := newGrid;
      FixpointIffSettled(g);
    }

    /** One tick of the simulation timer: a generation when the simulation is
        not idle, nothing at all when it is. An idle grid is at rest, so the
        skipped generation would not have changed it. */
    method SimulationTick()
      requires Valid()
      modifies this`canvasGrid, this`pauseSimulation
      ensures Valid()
      ensures old(pauseSimulation) ==> canvasGrid == old(canvasGrid) && pauseSimulation
      ensures !old(pauseSimulation) ==>
                Snapshot(canvasGrid) == NextGrid(old(Snapshot(canvasGrid))) &&
                (pauseSimulation <==> Snapshot(canvasGrid) == old(Snapshot(canvasGrid)))
      ensures SandCount(Snapshot(canvasGrid)) <= old(SandCount(Snapshot(canvasGrid)))
      ensures pauseSimulation ==> NextGrid(Snapshot(canvasGrid)) == Snapshot(canvasGrid)
    {
      ghost var g := Snapshot(canvasGrid);
      if !pauseSimulation {
        UpdateGrid();
        SandNeverIncreases(g);
      }
      FixpointIffSettled(Snapshot(canvasGrid));
    }

    /** One tick of the ornament timer: unless paused, the angle advances by
        half a degree, wrapping from 360 degrees to 0. */
    method RotateTick()
      requires Valid()
      modifies this`halfDegrees
      ensures Valid()
      ensures halfDegrees == if old(paused) then old(halfDegrees) else NextAngle(old(halfDegrees))
    {
      if paused {
        return;
      }
      halfDegrees := if halfDegrees == FULL_TURN then 0 else halfDegrees + 1;
    }
  }

  /** A canvas one cell wide and three cells high: the pointer sprays one
      grain into the top cell, which then falls one row per tick, comes to rest
      on the bottom row, and the simulation goes idle. */
  method ColumnScenario() returns (first: Cells, second: Cells, third: Cells, idle: bool)
    ensures first == [[0], [1], [0]]
    ensures second == [[0], [0], [1]]
    ensures third == [[0], [0], [1]] && idle
  {
    var sim := new FallingSand(5, 15);
    sim.HandleMouseMove(0, 0, seq(25, k => k == 12));
    var start := Snapshot(sim.canvasGrid);
    assert start[0] == [1] && start[1] == [0] && start[2] == [0];
    assert start == [[1], [0], [0]];
    ColumnExample();
    sim.SimulationTick();
    first := Snapshot(sim.canvasGrid);
    sim.SimulationTick();
    second := Snapshot(sim.canvasGrid);
    sim.SimulationTick();
    third := Snapshot(sim.canvasGrid);
    idle := sim.pauseSimulation;
  }
}
