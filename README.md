# Falling sand, modelled in Dafny

This models a small falling-sand cellular automaton that runs in a browser.
A canvas is divided into 5-pixel cells. The grid has ⌊height/5⌋ rows and
⌊width/5⌋ columns, and each cell is empty (0) or sand (1). The program has
these entry points:

- a simulation timer, which replaces the grid by its next generation unless
  the simulation is idle;
- a pointer-move handler, which sprays random sand into the 5×5 block around
  the pointer and wakes the simulation;
- a click handler, which toggles `paused`;
- an ornament timer, which turns a moon by half a degree per tick unless
  `paused`.

Each grain of sand moves to the first of three cells that is in bounds and
empty in the *old* grid: straight down, then down-right, then down-left. If
none is, the grain stays where it is. A generation that changes nothing sets
`pauseSimulation`, and later simulation ticks then do nothing until the
pointer sprays again.

Files:

- `grid.dfy` (module `Grid`): cell values, the bounds test, grid dimensions
  and the empty grid.
- `rule.dfy` (module `FallRule`): the rule for one generation as pure
  functions. `Destination` gives where a grain goes, `NextCell` the new value
  of one cell, and `NextGrid` the next generation. Its lemmas cover move
  priority, the fixed-point ("settled") condition and the sand count.
- `colour.dfy` (module `Colour`): the colour of a sand cell by row.
- `ornament.dfy` (module `Ornament`): the moon angle, counted in half degrees.
- `simulation.dfy` (module `Simulation`): the class `FallingSand`. It holds
  the grid in an `array2<int>`, the `paused` and `pauseSimulation` flags and
  the angle. It has one method per handler or tick, and each method is proved
  against the pure functions. `Valid()` includes the invariant that
  `pauseSimulation` implies the grid is settled, so a skipped tick never loses
  a move.

Two behaviours of the code a reader might not expect:

- The bottom row is drawn with green ⌊255/rows⌋, not 0 (`GreenAtBottom`).
- The moon angle does reach 360 degrees (720 half degrees) before it wraps to
  0, so it ranges over [0, 360], not [0, 360).

## Model

| member | source | states |
|---|---|---|
| Grid.IsWithinBounds | script.js:58-60 | When the canvas sizes are multiples of the block size, the real-quotient bounds test holds exactly when 0 ≤ x < cols and 0 ≤ y < rows |
| Grid.EmptyGrid | script.js:27-31 | The initial grid has ⌊height/5⌋ rows of ⌊width/5⌋ cells, every one of them 0 |
| FallRule.Destination | script.js:84-96 | A grain either stays put, or moves one row down and at most one column sideways into a cell that is in bounds and empty in the old grid |
| FallRule.MovePriority | script.js:87-95 | Down is taken if it is in bounds and empty in the old grid; otherwise down-right under the same test; otherwise down-left. The grain stays exactly when none of the three qualifies |
| FallRule.BottomRowStays | script.js:84-96 | Sand on the bottom row never moves, and its own cell is sand in the next generation |
| FallRule.NextGrid | script.js:71-77 | The next generation has the old grid's dimensions and contains only 0s and 1s |
| FallRule.NextCell | script.js:84-96 | The new value of a cell is 0 or 1. It is 1 only where the old grid had sand or an empty cell, and an old grain that cannot fall keeps its cell |
| FallRule.WritesNearby | script.js:87-95 | Only the cell itself and the three cells above it (directly above, above-left, above-right) can send a grain into a cell |
| FallRule.NextCellIsImage | script.js:84-96 | A cell of the next generation is sand exactly when some old grain anywhere ends up there |
| FallRule.NextSandIsTargets | script.js:71-96 | The set of sand cells after a generation is the image of the old sand set under `Destination` |
| FallRule.SandNeverIncreases | script.js:89-95 | A generation never increases the number of sand cells |
| FallRule.SandCanBeLost | script.js:89-95 | Two grains that choose the same empty cell merge: [[1,0,1],[1,0,1]] becomes [[0,0,0],[1,1,1]], losing a grain |
| FallRule.FixpointIffSettled | script.js:78-96 | For a 0/1 grid, a generation leaves the grid unchanged exactly when no grain has an in-bounds empty candidate |
| FallRule.SettledStaysSettled | script.js:78-81 | A settled grid maps to itself and stays settled |
| FallRule.ColumnExample | script.js:71-96 | A column of three cells with sand on top: the grain reaches row 1, then row 2, then stays |
| Simulation.Snapshot | script.js:78 | The grid value has the array's dimensions and the array's cells; equality of snapshots stands for equality of the serialised grids |
| Simulation.FallingSand.constructor | script.js:4-5 | Start-up gives an empty grid of the canvas's dimensions, both flags clear and the angle at 0 |
| Simulation.FallingSand.CreateInitialGrid | script.js:27-31 | Returns a fresh array of ⌊height/5⌋ × ⌊width/5⌋ empty cells |
| Simulation.FallingSand.Click | script.js:40 | A click flips `paused` and changes nothing else |
| Simulation.FallingSand.HandleMouseMove | script.js:43-56 | When paused, nothing changes. Otherwise `pauseSimulation` is cleared and every in-bounds cell of the 5×5 block around the pointer's cell gets its random 0 or 1. Every other cell is unchanged |
| Simulation.FallingSand.UpdateCellState | script.js:84-96 | Writes 1 into the new grid at the destination of the grain at (x, y), if there is a grain there, and changes no other cell |
| Simulation.FallingSand.UpdateGrid | script.js:71-82 | The grid is replaced by a fresh array holding `NextGrid` of the old grid, whatever the scan order. `pauseSimulation` becomes true when the new grid equals the old one and otherwise keeps its value |
| Simulation.FallingSand.SimulationTick | script.js:63-68 | While `pauseSimulation` is set, a tick changes nothing. Otherwise it computes one generation and goes idle exactly when that generation changed nothing. The sand count never grows, and an idle grid is at rest |
| Simulation.FallingSand.RotateTick | script.js:120-123 | While paused the angle is unchanged; otherwise it advances by half a degree, and 360 becomes 0 |
| Simulation.ColumnScenario | script.js:43-96 | Spraying one grain into the top of a 1×3 canvas and ticking three times gives the grain at row 1, then at row 2, then at rest with the simulation idle |
| Colour.ColorBasedOnHeight | script.js:110-115 | The fill colour has full red and no blue |
| Colour.GreenInIntegers | script.js:110-115 | When the canvas height is a whole number of rows, the real-valued green channel equals the integer quotient 255·(rows − y)/rows |
| Colour.GreenRange | script.js:110-115 | Every row of the grid gets a green channel in [0, 255], and row 0 gets 255 |
| Colour.GreenNonIncreasing | script.js:110-115 | The green channel never increases as the row index grows |
| Colour.GreenAtBottom | script.js:110-115 | The bottom row gets green ⌊255/rows⌋, which is not 0 when there are at most 255 rows |
| Ornament.NextAngle | script.js:122 | The angle stays within 0..720 half degrees, and one step is adding one modulo 721 |
| Ornament.AngleAfterFromZero | script.js:119-123 | Starting from 0, the angle after n unpaused ticks is n modulo 721 half degrees |

## Left out

- Canvas sizes that are not multiples of 5 are excluded by precondition. For such sizes the program's real-quotient bounds disagree with the array sizes: it reads past the last row and can grow a row by writing past its end. Negative canvas sizes are excluded too, because widths and heights are `nat`.
- `initialize` and `updateCanvasSize` (reading the page size minus a 25-pixel margin, setting the canvas size) are DOM work. The constructor takes the canvas size as parameters.
- The resize handler is not modelled. It reallocates an empty grid and does not touch `pauseSimulation`.
- `draw` is not modelled (clearing and filling rectangles on the canvas); only the colour it asks for is. The `rgb(...)` string is modelled as the `Rgb` datatype.
- The write of the moon's CSS transform is not modelled; only the angle is.
- `setInterval` scheduling and the interleaving of the two timers and the event handlers are host event-loop behaviour. Each tick and each event is one method call.
- Colour.ColorBasedOnHeight: computes on exact real numbers where the program uses IEEE double-precision floating point, so rounding of the division and multiplication is not modelled.
- `JSON.stringify` equality of the grids is modelled as equality of their `Snapshot` values.
- Simulation.FallingSand.HandleMouseMove: takes one caller-supplied random bit per offset of the 5×5 brush. The program calls `Math.random` only for in-bounds cells, so this model does not capture how many draws are made or in what order.
- Pointer offsets are integers. Fractional pixel offsets are not modelled. Dafny's division by the positive block size is the floor division the program applies.
