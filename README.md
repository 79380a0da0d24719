# Battlesnake move safety, in Dafny

This project models the move logic of a Battlesnake bot, a snake that plays
on a rectangular grid. On each turn the game server sends a snapshot of the
board. The bot answers with one of the tokens `up`, `down`, `left` or `right`.
The model covers four parts:

- **Geometry** (`geometry.dfy`, module `Geometry`). The `Coord` cell type,
  its four unit steps and its hand-written equality.
- **Snapshot** (`snapshot.dfy`, module `Snapshot`). The plain-data
  `Battlesnake` and `Board` records and their `Default` values.
- **Logic** (`logic.dfy`, module `Logic`):
  - `SpotHasSnake`, the occupancy test. It is a method with the source's
    loop, which collects every snake's head and body cells before a
    membership test. It is proved against the specification function
    `SnakeParts` and against the predicate `Occupied`, which says "some
    snake covers the cell".
  - `ValidMove`, the ordered wall-then-snake case analysis.
  - `PossibleMoves` and `GetMove`, which build the direction→bool map,
    keep the `true` entries and pick one of them.
- **Tests** (`logic_tests.dfy`, module `LogicTests`). The repository's unit
  tests for `spot_has_snake` and `valid_move`, written as lemmas.

`valid_move` is modelled as the code has it, quirks included:

- Row 0 and column 0 are walls.
- The upper walls compare `y` with the board's width and `x` with its
  height. This only shows on a board that is not square
  (`SwappedBoundsOnOblongBoard`).
- Negative coordinates are not rejected (`NegativeCellAccepted`).

The system's design notes describe a later variant: a
scoring engine with threat prediction and a flood fill, and walls at −1 and
at `width`/`height` on the matching axis. None of that is in the code
modelled here. This model follows the code.

The random pick is modelled as a nondeterministic choice (`:|`) from the
set of safe directions. The source's iteration order over its `HashMap` is
modelled as a set with no order. If no direction is safe, the source
panics at `unwrap`. `GetMove` therefore requires at least one safe
direction, and `CorneredSnakeHasNoSafeMove` shows that this situation can
actually happen.

## Model

| member | source | states |
|---|---|---|
| `Geometry.DefaultCoord` | src/main.rs:64-68 | the derived default cell is (0, 0) |
| `Geometry.SameCell` | src/main.rs:69-73 | the hand-written equality holds exactly when the two cells are equal as values, so `contains` and `==` in the source mean `in` and `==` |
| `Geometry.StepOffsets` | src/main.rs:76-102 | `up` adds one to `y`, `down` subtracts one from `y`, `left` subtracts one from `x`, `right` adds one to `x`, and each leaves the other component alone |
| `Geometry.StepsAreUnit` | src/main.rs:76-102 | every step reaches a cell at Manhattan distance 1, and the four steps reach exactly the cells at distance 1 |
| `Geometry.StepsInvert` | src/main.rs:76-102 | `down(up(c)) == c`, `up(down(c)) == c`, `right(left(c)) == c` and `left(right(c)) == c` |
| `Geometry.NeighboursDistinct` | src/main.rs:76-102 | a cell and its four neighbours are five different cells |
| `Snapshot.DefaultSnake` | src/main.rs:37-52 | the default snake has health 100, length 4, an empty body and its head at (0, 0) |
| `Snapshot.DefaultBoard` | src/main.rs:55-62 | the derived default board is 0 × 0 with no food, no hazards and no snakes |
| `Logic.SnakePartsAppend` | src/logic.rs:69-73 | collecting the parts of two snake lists one after the other gives the two collections concatenated, so the accumulation is exactly the concatenation of `[head] ++ body` over the snakes |
| `Logic.SnakePartsSingle` | src/logic.rs:71-72 | one snake contributes its head followed by its body |
| `Logic.SnakePartsMembership` | src/logic.rs:68-79 | a cell is among the collected parts if and only if some snake has it as head or in its body |
| `Logic.SnakeCellsAreOccupied` | src/logic.rs:68-79 | every head and body cell of every listed snake is reported as holding a snake |
| `Logic.SpotHasSnake` | src/logic.rs:68-79 | the loop builds exactly the collected parts, and the result is true if and only if some snake covers the cell with its head or its body |
| `Logic.ValidMove` | src/logic.rs:187-199 | a cell is valid if and only if `y` is neither 0 nor the width, `x` is neither 0 nor the height, and no snake covers it |
| `Logic.ZeroRowAndColumnAreWalls` | src/logic.rs:192-193 | a cell with `y == 0` or `x == 0` is rejected on every board, whatever the snakes |
| `Logic.SwappedBoundsAreWalls` | src/logic.rs:194-195 | a cell with `y == width` or `x == height` is rejected on every board |
| `Logic.OccupiedIsInvalid` | src/logic.rs:196 | a cell covered by any listed snake's head or body is rejected |
| `Logic.ValidMoveIgnoresMeFoodAndHazards` | src/logic.rs:187-198 | the verdict does not change when `me`, the food or the hazards are replaced |
| `Logic.SwappedBoundsOnOblongBoard` | src/logic.rs:188-195 | on an empty 11-wide, 7-high board the off-board cell (3, 7) is accepted and the on-board cell (7, 3) is rejected |
| `Logic.NegativeCellAccepted` | src/logic.rs:191-197 | on an empty 10 × 10 board the cell (−1, 5) is accepted |
| `Logic.NamesAreDistinctTokens` | src/logic.rs:31-36 | the four directions have four different tokens, each one of "up", "down", "left", "right" |
| `Logic.PossibleMoves` | src/logic.rs:31-48 | after the inserts the map has exactly the four directions as keys, and each maps to `valid_move` of the head's neighbour in that direction |
| `Logic.GetMove` | src/logic.rs:56-65 | when at least one direction is safe, the returned token is the token of a safe direction |
| `Logic.SafeMovesExactly` | src/logic.rs:45-60 | a direction survives the filter if and only if its neighbour of the head passes `valid_move` |
| `Logic.SafeMoveAvoidsSnakes` | src/logic.rs:40-48 | a surviving direction never leads onto the head or body of any snake on the board's list, including the snake's own neck when the snake is listed |
| `Logic.CorneredSnakeHasNoSafeMove` | src/logic.rs:61 | a snake at (1, 1) on a 10 × 10 board, whose body is above and to the right of its head, has no safe direction, so the source's `unwrap` would panic |
| `LogicTests.NoSnakesInSpot` | src/logic.rs:85-105 | (5, 7) holds no snake when the test's two snakes are elsewhere |
| `LogicTests.HeadInSpot` | src/logic.rs:107-122 | another snake's head cell holds a snake |
| `LogicTests.TailInSpot` | src/logic.rs:124-139 | another snake's last body cell holds a snake |
| `LogicTests.HettieIsInSpot` | src/logic.rs:141-161 | the first body cell of the other snake holds a snake |
| `LogicTests.IAmInSpot` | src/logic.rs:163-183 | the evaluating snake's own body cell holds a snake |
| `LogicTests.HeadWillNotHitLeftWall` | src/logic.rs:206-221 | (0, 5) is rejected on a 10 × 10 board |
| `LogicTests.HeadWillNotHitRightWall` | src/logic.rs:223-238 | (10, 5) is rejected on a 10 × 10 board |
| `LogicTests.HeadWillNotHitRoof` | src/logic.rs:240-255 | (5, 10) is rejected on a 10 × 10 board |
| `LogicTests.HeadWillNotHitFloor` | src/logic.rs:257-272 | (5, 0) is rejected on a 10 × 10 board |
| `LogicTests.DoNotHitMe` | src/logic.rs:276-292 | a cell of the snake's own body is rejected |
| `LogicTests.DoNotBiteHettie` | src/logic.rs:294-309 | on the default 0 × 0 board, a cell of another snake's body is rejected by the snake arm |
| `LogicTests.HeadWillTravel` | src/logic.rs:311-327 | (5, 5) is accepted on a 10 × 10 board whose only snake lies elsewhere |

## Left out

- Random choice: `rand::thread_rng` is outside the model. `GetMove` may return the token of any safe direction, and nothing is said about how likely each one is.
- Panic path: the `unwrap` panic on an empty safe set is a precondition of `GetMove`. It is not modelled as an error result.
- Integer width: coordinates, `health` and `length` are `i32` in the source. Here they are unbounded integers, so the `i32` overflow of `up`/`down`/`left`/`right` at the extremes is not modelled.
- Unused fields: the snake fields `id`, `name`, `latency`, `shout` and `squad` are not modelled, because no modelled operation reads them.
- Unused parameters: `get_move`'s `game` and `turn` parameters are used only for logging, and the `Game`/`GameState` records are not modelled.
- Logging and HTTP: the logging (`info!`), `start`, `end`, `get_info`'s personalisation payload, the JSON/serde layer, the web route handlers and `main`'s server setup are not modelled. They are I/O plumbing with no decision logic.
- Own-body avoidance: the model guarantees that the snake avoids its own body only when the snake appears in the board's snake list. The source checks `board.snakes` and never `me`, and the model keeps that.
