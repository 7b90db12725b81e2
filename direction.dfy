/** Movement vectors on the board (ChessLogic/Direction.cs). */
module Directions {

  /** An immutable (rowDelta, columnDelta) vector. */
  datatype Direction = Direction(RowDelta: int, ColumnDelta: int)

  const North: Direction := Direction(-1, 0)
  const South: Direction := Direction(1, 0)
  const East: Direction := Direction(0, 1)
  const West: Direction := Direction(0, -1)
  const NorthEast: Direction := Add(North, East)
  const NorthWest: Direction := Add(North, West)
  const SouthEast: Direction := Add(South, East)
  const SouthWest: Direction := Add(South, West)

  /** `dir1 + dir2` */
  function Add(d1: Direction, d2: Direction): Direction {
    Direction(d1.RowDelta + d2.RowDelta, d1.ColumnDelta + d2.ColumnDelta)
  }

  /** `scalar * dir` */
  function Scale(k: int, d: Direction): Direction {
    Direction(k * d.RowDelta, k * d.ColumnDelta)
  }

  lemma ConstructorStoresDeltas(r: int, c: int)
    ensures Direction(r, c).RowDelta == r && Direction(r, c).ColumnDelta == c
  {
  }

  lemma UnitValues()
    ensures North.RowDelta == -1 && North.ColumnDelta == 0
    ensures South.RowDelta == 1 && South.ColumnDelta == 0
    ensures East.RowDelta == 0 && East.ColumnDelta == 1
    ensures West.RowDelta == 0 && West.ColumnDelta == -1
  {
  }

  lemma DiagonalValues()
    ensures NorthEast == Direction(-1, 1) && NorthWest == Direction(-1, -1)
    ensures SouthEast == Direction(1, 1) && SouthWest == Direction(1, -1)
  {
  }

  lemma AddCommutative(a: Direction, b: Direction)
    ensures Add(a, b) == Add(b, a)
  {
  }

  lemma AddAssociative(a: Direction, b: Direction, c: Direction)
    ensures Add(Add(a, b), c) == Add(a, Add(b, c))
  {
  }

  lemma OppositeUnitsCancel()
    ensures Add(North, South) == Direction(0, 0) && Add(East, West) == Direction(0, 0)
  {
  }

  lemma ScaleOne(d: Direction)
    ensures Scale(1, d) == d
  {
  }

  lemma ScaleDistributes(a: int, b: int, d: Direction)
    ensures Scale(a + b, d) == Add(Scale(a, d), Scale(b, d))
  {
  }

  lemma ScaleTwice(a: int, b: int, d: Direction)
    ensures Scale(a, Scale(b, d)) == Scale(a * b, d)
  {
  }
}
