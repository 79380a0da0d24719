/** The unit tests of src/logic.rs, restated as lemmas about the model. */
module LogicTests {
  import opened Geometry
  import opened Snapshot
  import opened Logic

  /** A default snake with the given body, as `Battlesnake { body, ..Default::default() }`. */
  function WithBody(body: seq<Coord>): Battlesnake
  {
    DefaultSnake().(body := body)
  }

  /** An empty 10-by-10 board holding only the given snakes. */
  function TenByTen(snakes: seq<Battlesnake>): Board
  {
    Board([], [], 10, snakes, 10)
  }

  // spot_has_snake

  lemma NoSnakesInSpot()
    ensures var me := WithBody([Coord(3, 5), Coord(4, 5), Coord(5, 5)]);
            var hettie := WithBody([Coord(0, 0), Coord(1, 0)]);
            !HasSnake(Coord(5, 7), [hettie, me])
  {
    var me := WithBody([Coord(3, 5), Coord(4, 5), Coord(5, 5)]);
    var hettie := WithBody([Coord(0, 0), Coord(1, 0)]);
    SnakePartsMembership(Coord(5, 7), [hettie, me]);
  }

  lemma HeadInSpot()
    ensures var hettie := DefaultSnake().(head := Coord(2, 3), body := [Coord(3, 3), Coord(3, 2)]);
            HasSnake(Coord(2, 3), [hettie, DefaultSnake()])
  {
    var hettie := DefaultSnake().(head := Coord(2, 3), body := [Coord(3, 3), Coord(3, 2)]);
    SnakeCellsAreOccupied([hettie, DefaultSnake()], hettie, Coord(2, 3));
  }

  lemma TailInSpot()
    ensures var hettie := DefaultSnake().(head := Coord(2, 3), body := [Coord(3, 3), Coord(3, 2)]);
            HasSnake(Coord(3, 2), [hettie, DefaultSnake()])
  {
    var hettie := DefaultSnake().(head := Coord(2, 3), body := [Coord(3, 3), Coord(3, 2)]);
    SnakeCellsAreOccupied([hettie, DefaultSnake()], hettie, Coord(3, 2));
  }

  lemma HettieIsInSpot()
    ensures var me := WithBody([Coord(3, 5), Coord(4, 5), Coord(5, 5)]);
            var hettie := WithBody([Coord(0, 0), Coord(1, 0)]);
            HasSnake(Coord(0, 0), [hettie, me])
  {
    var me := WithBody([Coord(3, 5), Coord(4, 5), Coord(5, 5)]);
    var hettie := WithBody([Coord(0, 0), Coord(1, 0)]);
    SnakeCellsAreOccupied([hettie, me], hettie, Coord(0, 0));
  }

  lemma IAmInSpot()
    ensures var me := WithBody([Coord(3, 5), Coord(4, 5), Coord(5, 5)]);
            var hettie := WithBody([Coord(0, 0), Coord(1, 0)]);
            HasSnake(Coord(5, 5), [hettie, me])
  {
    var me := WithBody([Coord(3, 5), Coord(4, 5), Coord(5, 5)]);
    var hettie := WithBody([Coord(0, 0), Coord(1, 0)]);
    SnakeCellsAreOccupied([hettie, me], me, Coord(5, 5));
  }

  // valid_move: walls

  lemma HeadWillNotHitLeftWall()
    ensures !ValidMove(Coord(0, 5), TenByTen([DefaultSnake()]), DefaultSnake())
  {
  }

  lemma HeadWillNotHitRightWall()
    ensures !ValidMove(Coord(10, 5), TenByTen([DefaultSnake()]), DefaultSnake())
  {
  }

  lemma HeadWillNotHitRoof()
    ensures !ValidMove(Coord(5, 10), TenByTen([DefaultSnake()]), DefaultSnake())
  {
  }

  lemma HeadWillNotHitFloor()
    ensures !ValidMove(Coord(5, 0), TenByTen([DefaultSnake()]), DefaultSnake())
  {
  }

  // valid_move: collisions

  lemma DoNotHitMe()
    ensures var me := WithBody([Coord(5, 4), Coord(5, 5)]);
            !ValidMove(Coord(5, 5), TenByTen([me]), me)
  {
    var me := WithBody([Coord(5, 4), Coord(5, 5)]);
    OccupiedIsInvalid(Coord(5, 5), TenByTen([me]), me, me);
  }

  /** On the default zero-by-zero board no wall arm fires for (4, 2); the
      snake arm rejects it. */
  lemma DoNotBiteHettie()
    ensures var hettie := WithBody([Coord(3, 2), Coord(4, 2)]);
            !ValidMove(Coord(4, 2), DefaultBoard().(snakes := [hettie, DefaultSnake()]), DefaultSnake())
  {
    var hettie := WithBody([Coord(3, 2), Coord(4, 2)]);
    var board := DefaultBoard().(snakes := [hettie, DefaultSnake()]);
    OccupiedIsInvalid(Coord(4, 2), board, DefaultSnake(), hettie);
  }

  lemma HeadWillTravel()
    ensures var me := WithBody([Coord(5, 9), Coord(5, 8)]);
            ValidMove(Coord(5, 5), TenByTen([me]), me)
  {
    var me := WithBody([Coord(5, 9), Coord(5, 8)]);
    SnakePartsMembership(Coord(5, 5), [me]);
  }
}
