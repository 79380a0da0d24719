/** Cells of the board and the four unit steps between them
    (the `Coord` type of src/main.rs). */
module Geometry {

  /** A board cell. The source stores both components as `i32`; here they
      are mathematical integers, so the unit steps never wrap around. */
  datatype Coord = Coord(x: int, y: int) {

    /** One row higher. */
    function Up(): Coord { Coord(x, y + 1) }

    /** One row lower. */
    function Down(): Coord { Coord(x, y - 1) }

    /** One column to the left. */
    function Left(): Coord { Coord(x - 1, y) }

    /** One column to the right. */
    function Right(): Coord { Coord(x + 1, y) }
  }

  /** `Coord::default()`: both components zero. */
  function DefaultCoord(): (c: Coord)
    ensures c.x == 0 && c.y == 0
  {
    Coord(0, 0)
  }

  /** The hand-written `PartialEq` of the source: component-wise comparison.
      It coincides with Dafny's structural equality on `Coord`, so every
      `contains` or `==` of the source may be read as `in` or `==` here. */
  function SameCell(a: Coord, b: Coord): (same: bool)
    ensures same <==> a == b
  {
    a.x == b.x && a.y == b.y
  }

  function Abs(n: int): nat { if n < 0 then -n else n }

  /** Manhattan distance, an independent yardstick for the unit steps. */
  function Distance(a: Coord, b: Coord): nat
  {
    Abs(a.x - b.x) + Abs(a.y - b.y)
  }

  /** The offsets of the four steps: `up` and `down` change only `y`,
      `left` and `right` change only `x`. */
  lemma StepOffsets(c: Coord)
    ensures c.Up().x == c.x && c.Up().y == c.y + 1
    ensures c.Down().x == c.x && c.Down().y == c.y - 1
    ensures c.Left().x == c.x - 1 && c.Left().y == c.y
    ensures c.Right().x == c.x + 1 && c.Right().y == c.y
  {
  }

  /** Every step reaches a cell at Manhattan distance exactly one, and
      these four are the only such cells. */
  lemma StepsAreUnit(c: Coord, d: Coord)
    ensures Distance(c, c.Up()) == 1 && Distance(c, c.Down()) == 1
    ensures Distance(c, c.Left()) == 1 && Distance(c, c.Right()) == 1
    ensures Distance(c, d) == 1 <==> d in {c.Up(), c.Down(), c.Left(), c.Right()}
  {
  }

  /** `up` and `down` undo each other, and so do `left` and `right`. */
  lemma StepsInvert(c: Coord)
    ensures c.Up().Down() == c && c.Down().Up() == c
    ensures c.Left().Right() == c && c.Right().Left() == c
  {
  }

  /** The four neighbours of a cell are pairwise distinct and none of them
      is the cell itself. */
  lemma NeighboursDistinct(c: Coord)
    ensures |{c, c.Up(), c.Down(), c.Left(), c.Right()}| == 5
  {
    var n := {c, c.Up(), c.Down(), c.Left(), c.Right()};
    assert n == {c} + {c.Up()} + {c.Down()} + {c.Left()} + {c.Right()};
    assert |{c} + {c.Up()}| == 2;
    assert |{c} + {c.Up()} + {c.Down()}| == 3;
    assert |{c} + {c.Up()} + {c.Down()} + {c.Left()}| == 4;
  }
}
