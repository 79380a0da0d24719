/** The per-turn snapshot the move logic reads: snakes and the board
    (the `Battlesnake` and `Board` records of src/main.rs). */
module Snapshot {
  import opened Geometry

  /** One snake. The head is stored apart from the body list; whether the
      body repeats the head is up to whoever builds the snapshot, and the
      occupancy test looks at both. `health` and `length` are `i32` in the
      source. */
  datatype Battlesnake = Battlesnake(
    body: seq<Coord>,
    head: Coord,
    health: int,
    length: int
  )

  /** `Battlesnake::default()`: a fresh snake at the origin with no body,
      full health and the starting length of four. */
  function DefaultSnake(): (s: Battlesnake)
    ensures s.health == 100 && s.length == 4
    ensures s.body == [] && s.head == DefaultCoord()
  {
    Battlesnake([], DefaultCoord(), 100, 4)
  }

  /** The board: its dimensions, food and hazard cells, and every snake in
      play (the evaluating snake included, when the server lists it). */
  datatype Board = Board(
    food: seq<Coord>,
    hazards: seq<Coord>,
    height: int,
    snakes: seq<Battlesnake>,
    width: int
  )

  /** The derived `Board::default()`: a zero-by-zero board with nothing on
      it. */
  function DefaultBoard(): (b: Board)
    ensures b.width == 0 && b.height == 0
    ensures b.food == [] && b.hazards == [] && b.snakes == []
  {
    Board([], [], 0, [], 0)
  }
}
