/** The move-safety logic of src/logic.rs: which cells hold a snake, which
    cells the snake may step onto, and the choice of a safe direction. */
module Logic {
  import opened Geometry
  import opened Snapshot

  // ---------------------------------------------------------------------
  // Occupancy
  // ---------------------------------------------------------------------

  /** Every cell the snakes cover, in the order the source collects them:
      for each snake in turn, its head followed by its body list. */
  function SnakeParts(snakes: seq<Battlesnake>): seq<Coord>
    decreases |snakes|
  {
    if snakes == [] then []
    else
      var last := snakes[|snakes| - 1];
      SnakeParts(snakes[..|snakes| - 1]) + [last.head] + last.body
  }

  /** Snake `s` covers `spot` with its head or with one of its body cells. */
  ghost predicate Covers(s: Battlesnake, spot: Coord)
  {
    s.head == spot || spot in s.body
  }

  /** Some snake of the list covers `spot`. */
  ghost predicate Occupied(spot: Coord, snakes: seq<Battlesnake>)
  {
    exists s :: s in snakes && Covers(s, spot)
  }

  /** The value `spot_has_snake` computes: `spot` is among the collected
      snake parts. */
  predicate HasSnake(spot: Coord, snakes: seq<Battlesnake>)
  {
    spot in SnakeParts(snakes)
  }

  /** Collecting the parts of two lists of snakes one after the other gives
      the two collections one after the other: the accumulation is a plain
      concatenation over the snakes, with nothing dropped or reordered. */
  lemma {:induction false} SnakePartsAppend(a: seq<Battlesnake>, b: seq<Battlesnake>)
    ensures SnakeParts(a + b) == SnakeParts(a) + SnakeParts(b)
    decreases |b|
  {
    if b == [] {
      assert a + b == a;
    } else {
      var init, last := b[..|b| - 1], b[|b| - 1];
      assert (a + b)[..|a + b| - 1] == a + init;
      assert (a + b)[|a + b| - 1] == last;
      SnakePartsAppend(a, init);
      assert b == init + [last];
    }
  }

  /** The parts of one snake are its head followed by its body. */
  lemma SnakePartsSingle(s: Battlesnake)
    ensures SnakeParts([s]) == [s.head] + s.body
  {
    assert [s][..0] == [];
  }

  /** A cell is among the collected parts exactly when some snake covers it
      with its head or its body. */
  lemma {:induction false} SnakePartsMembership(spot: Coord, snakes: seq<Battlesnake>)
    ensures spot in SnakeParts(snakes) <==> Occupied(spot, snakes)
    decreases |snakes|
  {
    if snakes != [] {
      var init, last := snakes[..|snakes| - 1], snakes[|snakes| - 1];
      SnakePartsMembership(spot, init);
      assert snakes == init + [last];
      assert last in snakes;
      if Occupied(spot, snakes) && !Covers(last, spot) {
        var s :| s in snakes && Covers(s, spot);
        assert s in init;
      }
      if Occupied(spot, init) {
        var s :| s in init && Covers(s, spot);
        assert s in snakes;
      }
    }
  }

  /** Every head cell and every body cell of every snake on the list is
      reported as holding a snake. */
  lemma SnakeCellsAreOccupied(snakes: seq<Battlesnake>, s: Battlesnake, spot: Coord)
    requires s in snakes
    requires spot == s.head || spot in s.body
    ensures HasSnake(spot, snakes)
  {
    SnakePartsMembership(spot, snakes);
  }

  /** `spot_has_snake`: push each snake's head and append its body onto a
      growing list, then test whether `spot` is in that list. */
  method SpotHasSnake(spot: Coord, snakes: seq<Battlesnake>) returns (found: bool)
    ensures found == HasSnake(spot, snakes)
    ensures found <==> Occupied(spot, snakes)
  {
    var snakeParts: seq<Coord> := [];
    for i := 0 to |snakes|
      invariant snakeParts == SnakeParts(snakes[..i])
    {
      assert snakes[..i + 1][..i] == snakes[..i];
      snakeParts := snakeParts + [snakes[i].head];
      snakeParts := snakeParts + snakes[i].body;
    }
    assert snakes[..|snakes|] == snakes;
    SnakePartsMembership(spot, snakes);
    if spot in snakeParts {
      return true;
    }
    return false;
  }

  // ---------------------------------------------------------------------
  // Move validity
  // ---------------------------------------------------------------------

  /** `valid_move`: an ordered case analysis in which the first arm that
      fires decides. Row 0 and column 0 are walls; the upper bounds compare
      `y` with the board's WIDTH and `x` with its HEIGHT, and only for
      equality; negative coordinates pass the wall arms. A cell that passes
      the walls is valid unless some snake covers it. `me` is not used. */
  function ValidMove(spot: Coord, board: Board, me: Battlesnake): (valid: bool)
    ensures valid <==>
              && spot.y != 0
              && spot.x != 0
              && spot.y != board.width
              && spot.x != board.height
              && !Occupied(spot, board.snakes)
  {
    SnakePartsMembership(spot, board.snakes);
    if spot.y == 0 then false
    else if spot.x == 0 then false
    else if spot.y == board.width then false
    else if spot.x == board.height then false
    else if HasSnake(spot, board.snakes) then false
    else true
  }

  /** The bottom row and the leftmost column are rejected on every board,
      whatever the snakes. */
  lemma ZeroRowAndColumnAreWalls(spot: Coord, board: Board, me: Battlesnake)
    requires spot.y == 0 || spot.x == 0
    ensures !ValidMove(spot, board, me)
  {
  }

  /** The upper walls sit where `y` equals the width or `x` equals the
      height, whatever the snakes. */
  lemma SwappedBoundsAreWalls(spot: Coord, board: Board, me: Battlesnake)
    requires spot.y == board.width || spot.x == board.height
    ensures !ValidMove(spot, board, me)
  {
  }

  /** A cell that any snake's head or body covers is rejected. */
  lemma OccupiedIsInvalid(spot: Coord, board: Board, me: Battlesnake, s: Battlesnake)
    requires s in board.snakes
    requires spot == s.head || spot in s.body
    ensures !ValidMove(spot, board, me)
  {
  }

  /** The verdict depends only on the cell, the two board dimensions and the
      snakes: not on `me`, the food or the hazards. */
  lemma ValidMoveIgnoresMeFoodAndHazards(
    spot: Coord, board: Board, me: Battlesnake,
    other: Battlesnake, food: seq<Coord>, hazards: seq<Coord>)
    ensures ValidMove(spot, board, me)
         == ValidMove(spot, board.(food := food, hazards := hazards), other)
  {
  }

  /** On a board that is not square the swap shows: on an 11-wide, 7-high
      empty board the cell (3, 7) above the top row is accepted, while the
      on-board cell (7, 3) is rejected. */
  lemma SwappedBoundsOnOblongBoard()
    ensures var board := Board([], [], 7, [], 11);
            && ValidMove(Coord(3, 7), board, DefaultSnake())
            && !ValidMove(Coord(7, 3), board, DefaultSnake())
  {
  }

  /** Negative coordinates are not walls: on an empty 10-by-10 board the
      cell left of column 0 is accepted. */
  lemma NegativeCellAccepted()
    ensures ValidMove(Coord(-1, 5), Board([], [], 10, [], 10), DefaultSnake())
  {
  }

  // ---------------------------------------------------------------------
  // Move filter and selection
  // ---------------------------------------------------------------------

  /** The four keys of the source's move map. */
  datatype Direction = Up | Down | Left | Right

  const AllDirections: set<Direction> := {Up, Down, Left, Right}

  /** The move token sent back to the game server. */
  function Name(d: Direction): string
  {
    match d
    case Up => "up"
    case Down => "down"
    case Left => "left"
    case Right => "right"
  }

  /** Distinct directions have distinct tokens, and every token is one of
      the four the game server understands. */
  lemma NamesAreDistinctTokens(d: Direction, e: Direction)
    ensures Name(d) == Name(e) ==> d == e
    ensures Name(d) in {"up", "down", "left", "right"}
  {
  }

  /** The cell one step from `c` in direction `d`. */
  function Neighbour(c: Coord, d: Direction): Coord
  {
    match d
    case Up => c.Up()
    case Down => c.Down()
    case Left => c.Left()
    case Right => c.Right()
  }

  /** Moving `me`'s head one step in direction `d` lands on a valid cell. */
  predicate IsSafe(board: Board, me: Battlesnake, d: Direction)
  {
    ValidMove(Neighbour(me.head, d), board, me)
  }

  /** The directions the source keeps after filtering the move map. */
  function SafeMoves(board: Board, me: Battlesnake): set<Direction>
  {
    set d | d in AllDirections && IsSafe(board, me, d)
  }

  /** The move map of `get_move`: it starts with all four directions marked
      `true` and then overwrites left, right, up and down in that order with
      the verdict for the corresponding neighbour of the head. Afterwards it
      has exactly the four keys, each mapped to that neighbour's verdict. */
  method PossibleMoves(board: Board, me: Battlesnake) returns (possibleMoves: map<Direction, bool>)
    ensures possibleMoves.Keys == AllDirections
    ensures forall d :: d in possibleMoves ==> possibleMoves[d] == IsSafe(board, me, d)
  {
    possibleMoves := map[Up := true, Down := true, Left := true, Right := true];
    var myHead := me.head;
    possibleMoves := possibleMoves[Left := ValidMove(myHead.Left(), board, me)];
    possibleMoves := possibleMoves[Right := ValidMove(myHead.Right(), board, me)];
    possibleMoves := possibleMoves[Up := ValidMove(myHead.Up(), board, me)];
    possibleMoves := possibleMoves[Down := ValidMove(myHead.Down(), board, me)];
  }

  /** `get_move`: keep the directions whose entry is `true` (in no
      particular order) and pick any one of them. The source picks with a
      random generator and panics when nothing is left, so the caller must
      leave at least one safe direction. The token returned is that of a
      safe direction. */
  method GetMove(board: Board, me: Battlesnake) returns (chosen: string)
    requires SafeMoves(board, me) != {}
    ensures exists d :: d in SafeMoves(board, me) && chosen == Name(d)
  {
    var possibleMoves := PossibleMoves(board, me);
    var moves := set d | d in possibleMoves && possibleMoves[d];
    assert moves == SafeMoves(board, me);
    var pick :| pick in moves;
    chosen := Name(pick);
  }

  /** A direction is kept exactly when the neighbour in that direction
      passes `valid_move`; no safe direction is ever left out. */
  lemma SafeMovesExactly(board: Board, me: Battlesnake, d: Direction)
    ensures d in SafeMoves(board, me) <==> ValidMove(Neighbour(me.head, d), board, me)
  {
  }

  /** When the snake itself is on the board's snake list, a kept direction
      never leads onto its own body (in particular not onto its neck),
      nor onto any other snake's head or body. */
  lemma SafeMoveAvoidsSnakes(board: Board, me: Battlesnake, d: Direction, s: Battlesnake)
    requires s in board.snakes
    requires d in SafeMoves(board, me)
    ensures Neighbour(me.head, d) != s.head && Neighbour(me.head, d) !in s.body
  {
  }

  /** The panic of the source is reachable: a snake whose head is at (1, 1)
      on a 10-by-10 board, with its body above and to the right of the head,
      has walls below and to the left, so no direction is kept. */
  lemma CorneredSnakeHasNoSafeMove()
    ensures var me := DefaultSnake().(head := Coord(1, 1), body := [Coord(1, 2), Coord(2, 1)]);
            SafeMoves(Board([], [], 10, [me], 10), me) == {}
  {
    var me := DefaultSnake().(head := Coord(1, 1), body := [Coord(1, 2), Coord(2, 1)]);
    var board := Board([], [], 10, [me], 10);
    assert me in board.snakes;
    assert Coord(1, 2) in me.body && Coord(2, 1) in me.body;
    assert !IsSafe(board, me, Up) && !IsSafe(board, me, Right);
  }
}
