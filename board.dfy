/**
 * The 8x8 board (ChessLogic/Board.cs): a value `Snapshot` over which the rules are stated,
 * and the mutable `Board` class whose methods are proved against it.
 * Check detection and en-passant availability depend on move generation and are in module Legality.
 */
module Boards {
  import opened Directions
  import opened Basics

  /** A square: `None` is the C# code's null. */
  type Square = Option<Piece>

  predicate IsGrid(g: seq<seq<Square>>) {
    |g| == 8 && forall r :: 0 <= r < 8 ==> |g[r]| == 8
  }

  const EmptyRow: seq<Square> := [None, None, None, None, None, None, None, None]
  const EmptyCells: seq<seq<Square>> := [EmptyRow, EmptyRow, EmptyRow, EmptyRow, EmptyRow, EmptyRow, EmptyRow, EmptyRow]

  /** Rows of squares, indexed [row][column]. */
  type Grid = g: seq<seq<Square>> | IsGrid(g) witness EmptyCells

  /** Board.IsInside: both coordinates lie in 0..7. */
  predicate IsInside(p: Position) {
    0 <= p.Row < 8 && 0 <= p.Column < 8
  }

  /** A snapshot of the board: squares, each player's skip square, and the rotation flag. */
  datatype Snapshot = Snapshot(grid: Grid, whiteSkip: Option<Position>, blackSkip: Option<Position>, isRotated: bool) {

    function At(p: Position): Square
      requires IsInside(p)
    {
      grid[p.Row][p.Column]
    }

    predicate IsEmpty(p: Position)
      requires IsInside(p)
    {
      At(p).None?
    }

    function Skip(player: Player): Option<Position> {
      if player == White then whiteSkip else blackSkip
    }

    /** The snapshot after `SetPawnSkipPosition(player, x)`. */
    function WithSkip(player: Player, x: Option<Position>): (s: Snapshot)
      ensures s.Skip(player) == x && s.Skip(player.Opponent()) == Skip(player.Opponent())
      ensures s.grid == grid && s.isRotated == isRotated
    {
      if player == White then this.(whiteSkip := x) else this.(blackSkip := x)
    }

    /** The snapshot after the indexer assignment `board[p] = x`. */
    function Set(p: Position, x: Square): (s: Snapshot)
      requires IsInside(p)
      ensures s.At(p) == x
      ensures forall q :: IsInside(q) && q != p ==> s.At(q) == At(q)
      ensures s.whiteSkip == whiteSkip && s.blackSkip == blackSkip && s.isRotated == isRotated
    {
      this.(grid := grid[p.Row := grid[p.Row][p.Column := x]])
    }
  }

  /** A `new Board()`: every square empty, no skip squares, not rotated. */
  const EmptySnapshot: Snapshot := Snapshot(EmptyCells, None, None, false)

  // ---------------------------------------------------------------------------------------
  // Occupancy enumeration

  /** Row-major order of squares. */
  predicate Before(p: Position, q: Position) {
    p.Row < q.Row || (p.Row == q.Row && p.Column < q.Column)
  }

  predicate AllOccupied(s: Snapshot, ps: seq<Position>) {
    forall i :: 0 <= i < |ps| ==> IsInside(ps[i]) && !s.IsEmpty(ps[i])
  }

  /** Every occupied square is listed. */
  ghost predicate Covers(s: Snapshot, ps: seq<Position>) {
    forall p :: IsInside(p) && !s.IsEmpty(p) ==> p in ps
  }

  /** Strictly increasing in row-major order (so without repetition). */
  predicate Sorted(ps: seq<Position>) {
    forall i, j :: 0 <= i < j < |ps| ==> Before(ps[i], ps[j])
  }

  /** Occupied squares of row `row` from column `col` on, left to right. */
  function RowScan(s: Snapshot, row: int, col: int): (r: seq<Position>)
    requires 0 <= row < 8 && 0 <= col <= 8
    ensures AllOccupied(s, r)
    decreases 8 - col
  {
    if col == 8 then []
    else
      var here := Position(row, col);
      (if s.IsEmpty(here) then [] else [here]) + RowScan(s, row, col + 1)
  }

  /** Occupied squares of rows `row`..7, row after row. */
  function Scan(s: Snapshot, row: int): (r: seq<Position>)
    requires 0 <= row <= 8
    ensures AllOccupied(s, r)
    decreases 8 - row
  {
    if row == 8 then [] else RowScan(s, row, 0) + Scan(s, row + 1)
  }

  /** Board.PiecePositions: the occupied squares (exactly these, in row-major order: PiecePositionsExact). */
  function PiecePositions(s: Snapshot): (r: seq<Position>)
    ensures AllOccupied(s, r)
  {
    Scan(s, 0)
  }

  /** Every square of `ps` is in row `row`, at column `col` or further right. */
  predicate InRowFrom(ps: seq<Position>, row: int, col: int) {
    forall i :: 0 <= i < |ps| ==> ps[i].Row == row && col <= ps[i].Column
  }

  /** The columns of `ps` strictly increase. */
  predicate ColumnsIncrease(ps: seq<Position>) {
    forall i, j :: 0 <= i < j < |ps| ==> ps[i].Column < ps[j].Column
  }

  /** A row's scan stays in the row, from `col` on. */
  lemma {:induction false} RowScanBounds(s: Snapshot, row: int, col: int)
    requires 0 <= row < 8 && 0 <= col <= 8
    ensures InRowFrom(RowScan(s, row, col), row, col)
    decreases 8 - col
  {
    if col < 8 {
      RowScanBounds(s, row, col + 1);
      var rest := RowScan(s, row, col + 1);
      var r := RowScan(s, row, col);
      if !s.IsEmpty(Position(row, col)) {
        assert r == [Position(row, col)] + rest;
      } else {
        assert r == rest;
      }
    }
  }

  /** A row's scan lists its squares left to right. */
  lemma {:induction false} RowScanIncreasing(s: Snapshot, row: int, col: int)
    requires 0 <= row < 8 && 0 <= col <= 8
    ensures ColumnsIncrease(RowScan(s, row, col))
    decreases 8 - col
  {
    if col < 8 {
      RowScanIncreasing(s, row, col + 1);
      RowScanBounds(s, row, col + 1);
      var rest := RowScan(s, row, col + 1);
      var r := RowScan(s, row, col);
      if !s.IsEmpty(Position(row, col)) {
        assert r == [Position(row, col)] + rest;
        ConsIncreasing(Position(row, col), rest, row);
      } else {
        assert r == rest;
      }
    }
  }

  /** A square left of every square of an increasing row stays increasing when put in front. */
  lemma ConsIncreasing(p: Position, rest: seq<Position>, row: int)
    requires InRowFrom(rest, row, p.Column + 1) && ColumnsIncrease(rest)
    ensures ColumnsIncrease([p] + rest)
  {
    var r := [p] + rest;
    forall i, j | 0 <= i < j < |r|
      ensures r[i].Column < r[j].Column
    {
      assert r[j] == rest[j - 1];
      if i > 0 {
        assert r[i] == rest[i - 1];
      }
    }
  }

  /** A row's scan lists every occupied square of the row from `col` on. */
  lemma {:induction false} RowScanCovers(s: Snapshot, row: int, col: int)
    requires 0 <= row < 8 && 0 <= col <= 8
    ensures var r := RowScan(s, row, col);
      forall c :: col <= c < 8 && !s.IsEmpty(Position(row, c)) ==> Position(row, c) in r
    decreases 8 - col
  {
    if col < 8 {
      RowScanCovers(s, row, col + 1);
      var rest := RowScan(s, row, col + 1);
      var r := RowScan(s, row, col);
      assert r == (if s.IsEmpty(Position(row, col)) then [] else [Position(row, col)]) + rest;
      forall c | col <= c < 8 && !s.IsEmpty(Position(row, c))
        ensures Position(row, c) in r
      {
        if c > col {
          assert Position(row, c) in rest;
        }
      }
    }
  }

  lemma ScanFacts(s: Snapshot, row: int)
    requires 0 <= row <= 8
    ensures var r := Scan(s, row);
      RowsFrom(r, row) && Sorted(r) && (forall p :: IsInside(p) && row <= p.Row && !s.IsEmpty(p) ==> p in r)
  {
    ScanBounds(s, row);
    ScanSorted(s, row);
    ScanCovers(s, row);
  }

  /** Every square of `ps` is in row `row` or a later one. */
  predicate RowsFrom(ps: seq<Position>, row: int) {
    forall i :: 0 <= i < |ps| ==> row <= ps[i].Row
  }

  lemma {:induction false} ScanBounds(s: Snapshot, row: int)
    requires 0 <= row <= 8
    ensures RowsFrom(Scan(s, row), row)
    decreases 8 - row
  {
    if row < 8 {
      RowScanBounds(s, row, 0);
      ScanBounds(s, row + 1);
      RowsAppendBounds(RowScan(s, row, 0), Scan(s, row + 1), row);
    }
  }

  lemma {:induction false} ScanSorted(s: Snapshot, row: int)
    requires 0 <= row <= 8
    ensures Sorted(Scan(s, row))
    decreases 8 - row
  {
    if row < 8 {
      var here := RowScan(s, row, 0);
      var rest := Scan(s, row + 1);
      assert Scan(s, row) == here + rest;
      RowScanBounds(s, row, 0);
      RowScanIncreasing(s, row, 0);
      ScanBounds(s, row + 1);
      ScanSorted(s, row + 1);
      RowsAppendSorted(here, rest, row);
    }
  }

  /** One row's squares followed by squares of later rows stay in the rows from `row` on. */
  lemma RowsAppendBounds(here: seq<Position>, rest: seq<Position>, row: int)
    requires InRowFrom(here, row, 0)
    requires RowsFrom(rest, row + 1)
    ensures RowsFrom(here + rest, row)
  {
    var r := here + rest;
    forall i | 0 <= i < |r| ensures row <= r[i].Row {
      if i < |here| {
        assert r[i] == here[i];
      } else {
        assert r[i] == rest[i - |here|];
      }
    }
  }

  /** One row's squares left to right, followed by sorted squares of later rows, are sorted. */
  lemma RowsAppendSorted(here: seq<Position>, rest: seq<Position>, row: int)
    requires InRowFrom(here, row, 0) && ColumnsIncrease(here)
    requires RowsFrom(rest, row + 1)
    requires Sorted(rest)
    ensures Sorted(here + rest)
  {
    var r := here + rest;
    forall i, j | 0 <= i < j < |r| ensures Before(r[i], r[j]) {
      if j < |here| {
        assert r[i] == here[i] && r[j] == here[j];
      } else if i < |here| {
        assert r[i] == here[i] && r[j] == rest[j - |here|];
      } else {
        assert r[i] == rest[i - |here|] && r[j] == rest[j - |here|];
      }
    }
  }

  lemma {:induction false} ScanCovers(s: Snapshot, row: int)
    requires 0 <= row <= 8
    ensures forall p :: IsInside(p) && row <= p.Row && !s.IsEmpty(p) ==> p in Scan(s, row)
    decreases 8 - row
  {
    if row < 8 {
      var here := RowScan(s, row, 0);
      var rest := Scan(s, row + 1);
      var r := Scan(s, row);
      RowScanCovers(s, row, 0);
      ScanCovers(s, row + 1);
      assert r == here + rest;
      forall p | IsInside(p) && row <= p.Row && !s.IsEmpty(p) ensures p in r {
        if p.Row == row {
          assert p == Position(row, p.Column);
          assert p in here;
        } else {
          assert p in rest;
        }
      }
    }
  }

  /** PiecePositions lists every occupied square exactly once, in row-major order. */
  lemma PiecePositionsExact(s: Snapshot)
    ensures AllOccupied(s, PiecePositions(s)) && Covers(s, PiecePositions(s)) && Sorted(PiecePositions(s))
  {
    ScanFacts(s, 0);
  }

  /** The elements of `ps` whose piece has colour `player`, in their order. */
  function ColorFilter(s: Snapshot, ps: seq<Position>, player: Player): (r: seq<Position>)
    requires AllOccupied(s, ps)
    ensures AllOccupied(s, r)
    ensures forall i :: 0 <= i < |r| ==> s.At(r[i]).value.Color == player
  {
    if ps == [] then []
    else
      var rest := ColorFilter(s, ps[1..], player);
      if s.At(ps[0]).value.Color == player then [ps[0]] + rest else rest
  }

  lemma {:induction false} ColorFilterFacts(s: Snapshot, ps: seq<Position>, player: Player)
    requires AllOccupied(s, ps)
    ensures var r := ColorFilter(s, ps, player);
      (forall i :: 0 <= i < |ps| && s.At(ps[i]).value.Color == player ==> ps[i] in r) &&
      (forall p :: p in r ==> p in ps) &&
      (Sorted(ps) ==> Sorted(r))
  {
    if ps != [] {
      ColorFilterFacts(s, ps[1..], player);
      var rest := ColorFilter(s, ps[1..], player);
      var r := ColorFilter(s, ps, player);
      forall i | 0 <= i < |ps| && s.At(ps[i]).value.Color == player ensures ps[i] in r {
        if i > 0 { assert ps[i] == ps[1..][i - 1]; }
      }
      if Sorted(ps) {
        forall i, j | 0 <= i < j < |ps[1..]| ensures Before(ps[1..][i], ps[1..][j]) {
          assert ps[1..][i] == ps[i + 1] && ps[1..][j] == ps[j + 1];
        }
        if s.At(ps[0]).value.Color == player {
          forall k | 0 <= k < |rest| ensures Before(ps[0], rest[k]) {
            assert rest[k] in ps[1..];
            var j :| 0 <= j < |ps[1..]| && ps[1..][j] == rest[k];
            assert ps[1..][j] == ps[j + 1];
          }
          forall i, j | 0 <= i < j < |r| ensures Before(r[i], r[j]) {
            if i == 0 { assert r[j] == rest[j - 1]; }
            else { assert r[i] == rest[i - 1] && r[j] == rest[j - 1]; }
          }
        }
      }
    }
  }

  /** Board.PiecePositionsFor: the occupied squares holding `player`'s pieces (see PiecePositionsForExact). */
  function PiecePositionsFor(s: Snapshot, player: Player): (r: seq<Position>)
    ensures AllOccupied(s, r)
    ensures forall i :: 0 <= i < |r| ==> s.At(r[i]).value.Color == player
  {
    ColorFilter(s, PiecePositions(s), player)
  }

  /**
   * PiecePositionsFor lists exactly the squares holding `player`'s pieces, each once, in row-major
   * order: the colour-filtered subsequence of PiecePositions.
   */
  lemma PiecePositionsForExact(s: Snapshot, player: Player)
    ensures var r := PiecePositionsFor(s, player);
      Sorted(r) &&
      (forall p :: IsInside(p) && s.At(p).Some? && s.At(p).value.Color == player ==> p in r) &&
      (forall p :: p in r ==> p in PiecePositions(s))
  {
    var ps := PiecePositions(s);
    PiecePositionsExact(s);
    ColorFilterFacts(s, ps, player);
    var r := PiecePositionsFor(s, player);
    forall p | IsInside(p) && s.At(p).Some? && s.At(p).value.Color == player ensures p in r {
      assert p in ps;
      var i :| 0 <= i < |ps| && ps[i] == p;
    }
  }

  /** A square is listed by PiecePositionsFor iff it is on the board and holds a piece of `player`. */
  lemma PiecePositionsForMembers(s: Snapshot, player: Player)
    ensures forall p :: p in PiecePositionsFor(s, player) <==>
      IsInside(p) && s.At(p).Some? && s.At(p).value.Color == player
  {
    PiecePositionsForExact(s, player);
    var r := PiecePositionsFor(s, player);
    forall p | p in r ensures IsInside(p) && s.At(p).Some? && s.At(p).value.Color == player {
      var i :| 0 <= i < |r| && r[i] == p;
    }
  }

  /** An `Any` over PiecePositionsFor holds iff some square holding a piece of `player` satisfies the test. */
  lemma AnyPieceOf(s: Snapshot, player: Player, f: Position -> bool)
    ensures Any(PiecePositionsFor(s, player), f) <==>
      exists p :: IsInside(p) && s.At(p).Some? && s.At(p).value.Color == player && f(p)
  {
    var ps := PiecePositionsFor(s, player);
    AnyMember(ps, f);
    PiecePositionsForMembers(s, player);
    if exists p :: IsInside(p) && s.At(p).Some? && s.At(p).value.Color == player && f(p) {
      var p :| IsInside(p) && s.At(p).Some? && s.At(p).value.Color == player && f(p);
      assert p in ps;
    }
    if Any(ps, f) {
      var p :| p in ps && f(p);
      assert IsInside(p) && s.At(p).Some? && s.At(p).value.Color == player;
    }
  }

  // ---------------------------------------------------------------------------------------
  // Material

  /** How many of `ps` hold a piece of the given colour and kind. */
  function Matching(s: Snapshot, ps: seq<Position>, color: Player, t: PieceType): nat
    requires AllOccupied(s, ps)
  {
    if ps == [] then 0
    else
      var p := s.At(ps[|ps| - 1]).value;
      Matching(s, ps[..|ps| - 1], color, t) + (if p.Color == color && p.Type == t then 1 else 0)
  }

  /** The tally after incrementing once per element of `ps`, in order. */
  function CountOf(s: Snapshot, ps: seq<Position>): (c: Counting)
    requires AllOccupied(s, ps)
    ensures c.TotalCount == |ps|
    ensures forall color, t :: c.Of(color, t) == Matching(s, ps, color, t)
  {
    if ps == [] then NoPieces
    else
      var p := s.At(ps[|ps| - 1]).value;
      CountOf(s, ps[..|ps| - 1]).Increment(p.Color, p.Type)
  }

  /** Board.CountPieces, as a value. */
  function CountPiecesOf(s: Snapshot): (c: Counting)
    ensures c.TotalCount == |PiecePositions(s)|
    ensures forall color, t :: c.Of(color, t) == Matching(s, PiecePositions(s), color, t)
  {
    CountOf(s, PiecePositions(s))
  }

  /** The first of `ps` holding a piece of the given colour and kind (LINQ `First`). */
  function FirstOfType(s: Snapshot, ps: seq<Position>, t: PieceType): (r: Option<Position>)
    requires AllOccupied(s, ps)
    ensures r.Some? ==> r.value in ps && s.At(r.value).value.Type == t
    ensures r.None? <==> forall i :: 0 <= i < |ps| ==> s.At(ps[i]).value.Type != t
  {
    if ps == [] then None
    else if s.At(ps[0]).value.Type == t then Some(ps[0])
    else FirstOfType(s, ps[1..], t)
  }

  /** Board.FindPiece; `None` where the C# code's `First` throws. */
  function FindPiece(s: Snapshot, color: Player, t: PieceType): Option<Position> {
    FirstOfType(s, PiecePositionsFor(s, color), t)
  }

  predicate IsKingVSKing(c: Counting) {
    c.TotalCount == 2
  }

  predicate IsKingBishopVSKing(c: Counting) {
    c.TotalCount == 3 && (c.White(Bishop) == 1 || c.Black(Bishop) == 1)
  }

  predicate IsKingKnightVSKing(c: Counting) {
    c.TotalCount == 3 && (c.White(Knight) == 1 || c.Black(Knight) == 1)
  }

  predicate IsKingBishopVSKingBishop(s: Snapshot, c: Counting) {
    if c.TotalCount != 4 then false
    else if c.White(Bishop) != 1 || c.Black(Bishop) != 1 then false
    else
      var w := FindPiece(s, White, Bishop);
      var b := FindPiece(s, Black, Bishop);
      w.Some? && b.Some? && w.value.SquareColor() == b.value.SquareColor()
  }

  predicate InsufficientMaterial(s: Snapshot) {
    var c := CountPiecesOf(s);
    IsKingVSKing(c) || IsKingBishopVSKing(c) || IsKingKnightVSKing(c) || IsKingBishopVSKingBishop(s, c)
  }

  /** The square holds a piece of the given colour and kind. */
  predicate Holds(s: Snapshot, p: Position, color: Player, t: PieceType) {
    IsInside(p) && s.At(p).Some? && s.At(p).value.Color == color && s.At(p).value.Type == t
  }

  lemma AllOccupiedPrefix(s: Snapshot, ps: seq<Position>, n: nat)
    requires AllOccupied(s, ps) && n <= |ps|
    ensures AllOccupied(s, ps[..n])
  {
    assert forall i :: 0 <= i < n ==> ps[..n][i] == ps[i];
  }

  /** A listed square holding the piece counts at least once. */
  lemma {:induction false} MatchingOne(s: Snapshot, ps: seq<Position>, color: Player, t: PieceType, i: int)
    requires AllOccupied(s, ps) && 0 <= i < |ps| && Holds(s, ps[i], color, t)
    ensures Matching(s, ps, color, t) >= 1
    decreases |ps|
  {
    var n := |ps| - 1;
    AllOccupiedPrefix(s, ps, n);
    if i < n {
      assert ps[..n][i] == ps[i];
      MatchingOne(s, ps[..n], color, t, i);
    }
  }

  /** Two listed entries holding the piece count at least twice. */
  lemma {:induction false} MatchingTwo(s: Snapshot, ps: seq<Position>, color: Player, t: PieceType, i: int, j: int)
    requires AllOccupied(s, ps) && 0 <= i < j < |ps| && Holds(s, ps[i], color, t) && Holds(s, ps[j], color, t)
    ensures Matching(s, ps, color, t) >= 2
    decreases |ps|
  {
    var n := |ps| - 1;
    AllOccupiedPrefix(s, ps, n);
    assert ps[..n][i] == ps[i];
    if j == n {
      MatchingOne(s, ps[..n], color, t, i);
    } else {
      assert ps[..n][j] == ps[j];
      MatchingTwo(s, ps[..n], color, t, i, j);
    }
  }

  /** A positive count comes from a listed square holding the piece. */
  lemma {:induction false} MatchingWitness(s: Snapshot, ps: seq<Position>, color: Player, t: PieceType)
    requires AllOccupied(s, ps) && Matching(s, ps, color, t) >= 1
    ensures exists i :: 0 <= i < |ps| && Holds(s, ps[i], color, t)
    decreases |ps|
  {
    var n := |ps| - 1;
    AllOccupiedPrefix(s, ps, n);
    if !Holds(s, ps[n], color, t) {
      MatchingWitness(s, ps[..n], color, t);
      var i :| 0 <= i < n && Holds(s, ps[..n][i], color, t);
      assert ps[..n][i] == ps[i];
    }
  }

  /** Every occupied square is listed by PiecePositions. */
  lemma PiecePositionsCover(s: Snapshot)
    ensures Covers(s, PiecePositions(s))
  {
    PiecePositionsExact(s);
  }

  /** The first-of-kind search over `player`'s squares finds something when such a piece is on the board. */
  lemma FirstFound(s: Snapshot, color: Player, t: PieceType, p: Position)
    requires Holds(s, p, color, t)
    ensures FirstOfType(s, PiecePositionsFor(s, color), t).Some?
  {
    var ps := PiecePositionsFor(s, color);
    PiecePositionsForExact(s, color);
    assert p in ps;
    var k :| 0 <= k < |ps| && ps[k] == p;
  }

  /** What the first-of-kind search finds among squares of one colour holds a piece of that colour and kind. */
  lemma FirstHolds(s: Snapshot, color: Player, t: PieceType, ps: seq<Position>)
    requires AllOccupied(s, ps) && forall i :: 0 <= i < |ps| ==> s.At(ps[i]).value.Color == color
    requires FirstOfType(s, ps, t).Some?
    ensures Holds(s, FirstOfType(s, ps, t).value, color, t)
  {
    var f := FirstOfType(s, ps, t);
    var m :| 0 <= m < |ps| && ps[m] == f.value;
  }

  /** When the board holds a piece of a colour and kind, FindPiece finds a square holding one. */
  lemma FindSome(s: Snapshot, color: Player, t: PieceType, p: Position)
    requires Holds(s, p, color, t)
    ensures FindPiece(s, color, t).Some? && Holds(s, FindPiece(s, color, t).value, color, t)
  {
    FirstFound(s, color, t, p);
    FirstHolds(s, color, t, PiecePositionsFor(s, color));
  }

  /** Two listed squares holding a piece counted at most once are one square. */
  lemma UniqueIn(s: Snapshot, ps: seq<Position>, color: Player, t: PieceType, p: Position, q: Position)
    requires AllOccupied(s, ps) && p in ps && q in ps
    requires Matching(s, ps, color, t) <= 1 && Holds(s, p, color, t) && Holds(s, q, color, t)
    ensures p == q
  {
    var i :| 0 <= i < |ps| && ps[i] == p;
    var j :| 0 <= j < |ps| && ps[j] == q;
    if i < j {
      MatchingTwo(s, ps, color, t, i, j);
    } else if j < i {
      MatchingTwo(s, ps, color, t, j, i);
    }
  }

  /** With exactly one piece of a colour and kind on the board, at most one square holds such a piece. */
  lemma OnlyOne(s: Snapshot, color: Player, t: PieceType, p: Position, q: Position)
    requires CountPiecesOf(s).Of(color, t) == 1 && Holds(s, p, color, t) && Holds(s, q, color, t)
    ensures p == q
  {
    PiecePositionsCover(s);
    UniqueIn(s, PiecePositions(s), color, t, p, q);
  }

  /**
   * When the board holds exactly one piece of a colour and kind, FindPiece finds it, and it is
   * the only square holding such a piece.
   */
  lemma FindOnly(s: Snapshot, color: Player, t: PieceType)
    requires CountPiecesOf(s).Of(color, t) == 1
    ensures FindPiece(s, color, t).Some?
    ensures forall p :: Holds(s, p, color, t) <==> p == FindPiece(s, color, t).value
  {
    var ps := PiecePositions(s);
    MatchingWitness(s, ps, color, t);
    var i :| 0 <= i < |ps| && Holds(s, ps[i], color, t);
    FindSome(s, color, t, ps[i]);
    var f := FindPiece(s, color, t).value;
    forall p | Holds(s, p, color, t) ensures p == f {
      OnlyOne(s, color, t, p, f);
    }
  }

  /** Two bishops, one of each colour, on squares of the same colour. */
  ghost predicate SameColorBishops(s: Snapshot) {
    exists w, b :: Holds(s, w, White, Bishop) && Holds(s, b, Black, Bishop) && w.SquareColor() == b.SquareColor()
  }

  /**
   * The bishops-of-one-colour test: four pieces, one bishop a side, and the two bishops stand on
   * squares of the same colour.
   */
  lemma KingBishopVSKingBishopIff(s: Snapshot)
    ensures var c := CountPiecesOf(s);
      IsKingBishopVSKingBishop(s, c) <==>
        c.TotalCount == 4 && c.Of(White, Bishop) == 1 && c.Of(Black, Bishop) == 1 && SameColorBishops(s)
  {
    var c := CountPiecesOf(s);
    if c.TotalCount == 4 && c.Of(White, Bishop) == 1 && c.Of(Black, Bishop) == 1 {
      FindOnly(s, White, Bishop);
      FindOnly(s, Black, Bishop);
      var w := FindPiece(s, White, Bishop).value;
      var b := FindPiece(s, Black, Bishop).value;
      assert Holds(s, w, White, Bishop) && Holds(s, b, Black, Bishop);
    }
  }

  /**
   * InsufficientMaterial, read off the board: two pieces in all; three, one of them a lone bishop
   * or a lone knight of either side; or four, one bishop a side, the two on squares of one colour.
   */
  lemma InsufficientMaterialIff(s: Snapshot)
    ensures var c := CountPiecesOf(s); var n := c.TotalCount;
      n == |PiecePositions(s)| &&
      (InsufficientMaterial(s) <==>
        n == 2 ||
        (n == 3 && (c.Of(White, Bishop) == 1 || c.Of(Black, Bishop) == 1)) ||
        (n == 3 && (c.Of(White, Knight) == 1 || c.Of(Black, Knight) == 1)) ||
        (n == 4 && c.Of(White, Bishop) == 1 && c.Of(Black, Bishop) == 1 && SameColorBishops(s)))
  {
    KingBishopVSKingBishopIff(s);
  }

  // ---------------------------------------------------------------------------------------
  // Castling rights (they feed only the state string)

  predicate IsUnmovedKingAndRook(s: Snapshot, kingPos: Position, rookPos: Position)
    requires IsInside(kingPos) && IsInside(rookPos)
  {
    if s.IsEmpty(kingPos) || s.IsEmpty(rookPos) then false
    else
      var king := s.At(kingPos).value;
      var rook := s.At(rookPos).value;
      king.Type == King && rook.Type == Rook && !king.HasMoved && !rook.HasMoved
  }

  predicate CastleRightKS(s: Snapshot, player: Player, isBoardRotated: bool) {
    if !isBoardRotated then
      match player
      case White => IsUnmovedKingAndRook(s, Position(7, 4), Position(7, 7))
      case Black => IsUnmovedKingAndRook(s, Position(0, 4), Position(0, 7))
    else
      match player
      case White => IsUnmovedKingAndRook(s, Position(0, 3), Position(0, 0))
      case Black => IsUnmovedKingAndRook(s, Position(7, 3), Position(7, 0))
  }

  predicate CastleRightQS(s: Snapshot, player: Player, isBoardRotated: bool) {
    if !isBoardRotated then
      match player
      case White => IsUnmovedKingAndRook(s, Position(7, 4), Position(7, 0))
      case Black => IsUnmovedKingAndRook(s, Position(0, 4), Position(0, 7))
    else
      match player
      case White => IsUnmovedKingAndRook(s, Position(0, 3), Position(0, 7))
      case Black => IsUnmovedKingAndRook(s, Position(7, 3), Position(7, 7))
  }

  /**
   * Black's queen-side right on the plain board reads the rook in column 7, the king-side corner,
   * so it is the king-side right; every other queen-side right reads the corner opposite to its
   * king-side right.
   */
  lemma BlackPlainQueenSideIsKingSide(s: Snapshot)
    ensures CastleRightQS(s, Black, false) == CastleRightKS(s, Black, false)
    ensures CastleRightQS(s, White, false) == IsUnmovedKingAndRook(s, Position(7, 4), Position(7, 0))
    ensures CastleRightQS(s, White, true) == IsUnmovedKingAndRook(s, Position(0, 3), Position(0, 7))
    ensures CastleRightQS(s, Black, true) == IsUnmovedKingAndRook(s, Position(7, 3), Position(7, 7))
  {
  }

  /** A board with Black's unmoved king and king-side rook and nothing else. */
  const BlackKingAndKingSideRook: Snapshot :=
    EmptySnapshot.Set(Position(0, 4), Some(NewPiece(King, Black))).Set(Position(0, 7), Some(NewPiece(Rook, Black)))

  /** On that board Black has a queen-side right, although no rook stands in column 0. */
  lemma QueenSideRightWithoutQueenSideRook()
    ensures BlackKingAndKingSideRook.IsEmpty(Position(0, 0))
    ensures CastleRightQS(BlackKingAndKingSideRook, Black, false)
  {
    var s := BlackKingAndKingSideRook;
    assert s.At(Position(0, 4)) == Some(NewPiece(King, Black));
    assert s.At(Position(0, 7)) == Some(NewPiece(Rook, Black));
    assert s.At(Position(0, 0)) == EmptySnapshot.At(Position(0, 0));
  }

  // ---------------------------------------------------------------------------------------
  // Rotation and copying

  function Abs(x: int): nat {
    if x < 0 then -x else x
  }

  /** The 180-degree reflection `(|7-r|, |7-c|)` used by Board.Rotate. */
  function Reflect(p: Position): Position {
    Position(Abs(7 - p.Row), Abs(7 - p.Column))
  }

  function ReflectSkip(o: Option<Position>): Option<Position> {
    if o.None? then None else Some(Reflect(o.value))
  }

  /** Pawn.SwapForwardDirection applied to the piece of a square. */
  function Flip(x: Square): Square {
    if x.Some? && x.value.Type == Pawn then Some(x.value.(Forward := Scale(-1, x.value.Forward))) else x
  }

  /** Board.Rotate, as a value. */
  function RotateSnapshot(s: Snapshot): Snapshot {
    var g := seq(8, i requires 0 <= i < 8 => seq(8, j requires 0 <= j < 8 => Flip(s.grid[7 - i][7 - j])));
    assert IsGrid(g);
    Snapshot(g, ReflectSkip(s.whiteSkip), ReflectSkip(s.blackSkip), !s.isRotated)
  }

  /** Rotation puts on each square the reflected square's piece, pawns with their direction swapped. */
  lemma RotateAt(s: Snapshot, p: Position)
    requires IsInside(p)
    ensures IsInside(Reflect(p)) && Reflect(p) == Position(7 - p.Row, 7 - p.Column)
    ensures RotateSnapshot(s).At(p) == Flip(s.At(Reflect(p)))
    ensures RotateSnapshot(s).IsEmpty(p) == s.IsEmpty(Reflect(p))
    ensures !s.IsEmpty(Reflect(p)) ==> var a := RotateSnapshot(s).At(p).value; var b := s.At(Reflect(p)).value;
      a.Type == b.Type && a.Color == b.Color && a.HasMoved == b.HasMoved
  {
  }

  /** Rotation toggles the flag and reflects each recorded skip square; an absent one stays absent. */
  lemma RotateSkips(s: Snapshot)
    ensures RotateSnapshot(s).isRotated == !s.isRotated
    ensures forall player :: RotateSnapshot(s).Skip(player).None? <==> s.Skip(player).None?
    ensures forall player :: s.Skip(player).Some? && IsInside(s.Skip(player).value) ==>
      RotateSnapshot(s).Skip(player) == Some(Position(7 - s.Skip(player).value.Row, 7 - s.Skip(player).value.Column))
  {
  }

  lemma FlipFlip(x: Square)
    ensures Flip(Flip(x)) == x
  {
    if x.Some? && x.value.Type == Pawn {
      var d := x.value.Forward;
      assert Scale(-1, Scale(-1, d)) == d;
    }
  }

  /**
   * Rotating twice restores every square (a pawn's direction is swapped twice) and the flag, and
   * every skip square that lies on the board.
   */
  lemma RotateTwice(s: Snapshot)
    ensures RotateSnapshot(RotateSnapshot(s)).grid == s.grid
    ensures RotateSnapshot(RotateSnapshot(s)).isRotated == s.isRotated
    ensures (s.whiteSkip.None? || IsInside(s.whiteSkip.value)) && (s.blackSkip.None? || IsInside(s.blackSkip.value)) ==>
      RotateSnapshot(RotateSnapshot(s)) == s
  {
    var r := RotateSnapshot(RotateSnapshot(s));
    forall i | 0 <= i < 8 ensures r.grid[i] == s.grid[i] {
      forall j | 0 <= j < 8 ensures r.grid[i][j] == s.grid[i][j] {
        FlipFlip(s.grid[i][j]);
      }
    }
  }

  function CopySquare(x: Square): Square {
    if x.None? then None else Some(x.value.Copy())
  }

  /** Board.Copy, as a value: every square's piece copied, skip squares and rotation flag not carried. */
  function CopySnapshot(s: Snapshot): (r: Snapshot)
    ensures forall p :: IsInside(p) ==> r.At(p) == CopySquare(s.At(p))
    ensures r.whiteSkip == None && r.blackSkip == None && !r.isRotated
  {
    var g := seq(8, i requires 0 <= i < 8 => seq(8, j requires 0 <= j < 8 => CopySquare(s.grid[i][j])));
    assert IsGrid(g);
    Snapshot(g, None, None, false)
  }

  /** Copying keeps every square's occupancy and each piece's kind, colour and moved flag. */
  lemma CopyKeepsPieces(s: Snapshot, p: Position)
    requires IsInside(p)
    ensures CopySnapshot(s).IsEmpty(p) == s.IsEmpty(p)
    ensures s.At(p).Some? ==> var c := CopySnapshot(s).At(p).value; var o := s.At(p).value;
      c.Type == o.Type && c.Color == o.Color && c.HasMoved == o.HasMoved
  {
  }

  // ---------------------------------------------------------------------------------------
  // The starting arrangement

  function BackRank(color: Player): seq<Square> {
    [Some(NewPiece(Rook, color)), Some(NewPiece(Knight, color)), Some(NewPiece(Bishop, color)),
     Some(NewPiece(Queen, color)), Some(NewPiece(King, color)), Some(NewPiece(Bishop, color)),
     Some(NewPiece(Knight, color)), Some(NewPiece(Rook, color))]
  }

  function PawnRank(color: Player): seq<Square> {
    var p := Some(NewPiece(Pawn, color));
    [p, p, p, p, p, p, p, p]
  }

  /** Board.Initial, as a value. */
  const InitialSnapshot: Snapshot :=
    Snapshot([BackRank(Black), PawnRank(Black), EmptyRow, EmptyRow, EmptyRow, EmptyRow, PawnRank(White), BackRank(White)],
             None, None, false)

  // ---------------------------------------------------------------------------------------
  // The mutable board

  class Board {
    /** `pieces[row, col]`; null is `None`. */
    const pieces: array2<Square>
    var pawnSkipPositions: map<Player, Option<Position>>
    var isRotated: bool

    ghost predicate Valid()
      reads this
    {
      pieces.Length0 == 8 && pieces.Length1 == 8 && White in pawnSkipPositions && Black in pawnSkipPositions
    }

    function Row(r: int): seq<Square>
      reads pieces
      requires pieces.Length0 == 8 && pieces.Length1 == 8 && 0 <= r < 8
    {
      [pieces[r, 0], pieces[r, 1], pieces[r, 2], pieces[r, 3], pieces[r, 4], pieces[r, 5], pieces[r, 6], pieces[r, 7]]
    }

    /** The squares, row by row. */
    function Cells(): Grid
      reads pieces
      requires pieces.Length0 == 8 && pieces.Length1 == 8
    {
      [Row(0), Row(1), Row(2), Row(3), Row(4), Row(5), Row(6), Row(7)]
    }

    /** The board's current contents as a value. */
    function Value(): Snapshot
      reads this, pieces
      requires Valid()
    {
      Snapshot(Cells(), pawnSkipPositions[White], pawnSkipPositions[Black], isRotated)
    }

    /** `new Board()`. */
    constructor ()
      ensures Valid() && fresh(pieces) && !isRotated
      ensures forall i, j :: 0 <= i < 8 && 0 <= j < 8 ==> pieces[i, j] == None
      ensures pawnSkipPositions == map[White := None, Black := None]
    {
      pieces := new Square[8, 8]((i, j) => None);
      pawnSkipPositions := map[White := None, Black := None];
      isRotated := false;
    }

    /** The indexer's getter. */
    function Get(p: Position): (x: Square)
      reads this, pieces
      requires Valid() && IsInside(p)
      ensures x == Value().At(p)
    {
      pieces[p.Row, p.Column]
    }

    /** The indexer's setter. */
    method Set(p: Position, x: Square)
      requires Valid() && IsInside(p)
      modifies pieces
      ensures Valid() && Value() == old(Value()).Set(p, x)
    {
      ghost var before := Value();
      forall i, j | 0 <= i < 8 && 0 <= j < 8 ensures before.grid[i][j] == pieces[i, j] {
        ValueCell(this, i, j);
      }
      pieces[p.Row, p.Column] := x;
      ghost var g := before.Set(p, x).grid;
      forall i, j | 0 <= i < 8 && 0 <= j < 8 ensures pieces[i, j] == g[i][j] {
        if i != p.Row || j != p.Column {
          assert pieces[i, j] == old(pieces[i, j]) == before.grid[i][j];
        }
      }
      CellsDetermineGrid(this, g);
    }

    function GetPawnSkipPosition(player: Player): (x: Option<Position>)
      reads this
      requires Valid()
      ensures x == Value().Skip(player)
    {
      if player == White then pawnSkipPositions[White] else pawnSkipPositions[Black]
    }

    method SetPawnSkipPosition(player: Player, x: Option<Position>)
      requires Valid()
      modifies this
      ensures Valid() && pawnSkipPositions == old(pawnSkipPositions)[player := x] && isRotated == old(isRotated)
      ensures Value() == old(Value()).WithSkip(player, x)
    {
      pawnSkipPositions := pawnSkipPositions[player := x];
    }

    /** Board.Initial. */
    static method Initial() returns (b: Board)
      ensures fresh(b) && fresh(b.pieces) && b.Valid() && b.Value() == InitialSnapshot
    {
      b := new Board();
      b.AddStartPieces();
      forall i, j | 0 <= i < 8 && 0 <= j < 8 ensures b.pieces[i, j] == InitialSnapshot.grid[i][j] {
        if 2 <= i < 6 { assert b.pieces[i, j] == None; }
      }
      CellsDetermineGrid(b, InitialSnapshot.grid);
    }

    /** Fills the two back ranks and the two pawn ranks; the other rows are left as they are. */
    method AddStartPieces()
      requires Valid()
      modifies pieces
      ensures forall c :: 0 <= c < 8 ==>
        pieces[0, c] == BackRank(Black)[c] && pieces[1, c] == PawnRank(Black)[c] &&
        pieces[6, c] == PawnRank(White)[c] && pieces[7, c] == BackRank(White)[c]
      ensures forall r, c :: 2 <= r < 6 && 0 <= c < 8 ==> pieces[r, c] == old(pieces[r, c])
    {
      AddBackRank(0, Black);
      AddBackRank(7, White);
      for i := 0 to 8
        invariant forall c :: 0 <= c < 8 ==> pieces[0, c] == BackRank(Black)[c] && pieces[7, c] == BackRank(White)[c]
        invariant forall c :: 0 <= c < i ==> pieces[1, c] == PawnRank(Black)[c] && pieces[6, c] == PawnRank(White)[c]
        invariant forall r, c :: 2 <= r < 6 && 0 <= c < 8 ==> pieces[r, c] == old(pieces[r, c])
      {
        pieces[1, i] := Some(NewPiece(Pawn, Black));
        pieces[6, i] := Some(NewPiece(Pawn, White));
      }
    }

    /** The eight back-rank writes of AddStartPieces for one colour. */
    method AddBackRank(row: int, color: Player)
      requires Valid() && 0 <= row < 8
      modifies pieces
      ensures forall c :: 0 <= c < 8 ==> pieces[row, c] == BackRank(color)[c]
      ensures forall r, c :: 0 <= r < 8 && r != row && 0 <= c < 8 ==> pieces[r, c] == old(pieces[r, c])
    {
      pieces[row, 0] := Some(NewPiece(Rook, color));
      pieces[row, 1] := Some(NewPiece(Knight, color));
      pieces[row, 2] := Some(NewPiece(Bishop, color));
      pieces[row, 3] := Some(NewPiece(Queen, color));
      pieces[row, 4] := Some(NewPiece(King, color));
      pieces[row, 5] := Some(NewPiece(Bishop, color));
      pieces[row, 6] := Some(NewPiece(Knight, color));
      pieces[row, 7] := Some(NewPiece(Rook, color));
    }

    /** Board.Rotate: a new board holding the point reflection of this one. */
    method Rotate() returns (b: Board)
      requires Valid()
      ensures fresh(b) && fresh(b.pieces) && b.Valid() && b.Value() == RotateSnapshot(Value())
    {
      ghost var want := RotateSnapshot(Value());
      b := new Board();
      b.isRotated := !isRotated;
      RotateSkipsInto(b);
      RotatePieces(b);
      RotatedCells(this, b);
      ValueFromParts(b, want);
    }

    /** The skip squares of Board.Rotate: each recorded one reflected into `b`, an absent one left absent. */
    method RotateSkipsInto(b: Board)
      requires Valid() && b.Valid() && b != this
      requires b.pawnSkipPositions[White] == None && b.pawnSkipPositions[Black] == None
      modifies b
      ensures b.Valid() && b.isRotated == old(b.isRotated)
      ensures b.pawnSkipPositions[White] == ReflectSkip(pawnSkipPositions[White])
      ensures b.pawnSkipPositions[Black] == ReflectSkip(pawnSkipPositions[Black])
    {
      var blackSkipPosition := GetPawnSkipPosition(Black);
      var whiteSkipPosition := GetPawnSkipPosition(White);
      if blackSkipPosition.Some? { b.SetPawnSkipPosition(Black, Some(Reflect(blackSkipPosition.value))); }
      if whiteSkipPosition.Some? { b.SetPawnSkipPosition(White, Some(Reflect(whiteSkipPosition.value))); }
    }

    /** The loops of Board.Rotate: every square of `b` receives the reflected, pawn-flipped square. */
    method RotatePieces(b: Board)
      requires Valid() && b.Valid() && b.pieces != pieces
      modifies b.pieces
      ensures forall i, j :: 0 <= i < 8 && 0 <= j < 8 ==> b.pieces[i, j] == Flip(pieces[7 - i, 7 - j])
    {
      for r := 0 to 8
        invariant forall i, j :: 0 <= i < r && 0 <= j < 8 ==> b.pieces[i, j] == Flip(pieces[7 - i, 7 - j])
      {
        RotateRow(b, r);
      }
    }

    /** The inner loop of Board.Rotate: row `r` of `b` receives the reflected, pawn-flipped row `7 - r`. */
    method RotateRow(b: Board, r: int)
      requires Valid() && b.Valid() && b.pieces != pieces && 0 <= r < 8
      modifies b.pieces
      ensures forall j :: 0 <= j < 8 ==> b.pieces[r, j] == Flip(pieces[7 - r, 7 - j])
      ensures forall i, j :: 0 <= i < 8 && i != r && 0 <= j < 8 ==> b.pieces[i, j] == old(b.pieces[i, j])
    {
      for c := 0 to 8
        invariant forall j :: 0 <= j < c ==> b.pieces[r, j] == Flip(pieces[7 - r, 7 - j])
        invariant forall i, j :: 0 <= i < 8 && i != r && 0 <= j < 8 ==> b.pieces[i, j] == old(b.pieces[i, j])
      {
        var x := pieces[Abs(7 - r), Abs(7 - c)];
        if x.Some? && x.value.Type == Pawn {
          x := Some(x.value.(Forward := Scale(-1, x.value.Forward)));
        }
        b.pieces[r, c] := x;
      }
    }

    /** Board.Copy: a new board with a copy of every piece; no skip squares, not rotated. */
    method Copy() returns (b: Board)
      requires Valid()
      ensures fresh(b) && fresh(b.pieces) && b.Valid() && b.Value() == CopySnapshot(Value())
    {
      b := CopyOf(Value());
    }

    /** Board.CountPieces: one increment per occupied square, in row-major order. */
    method CountPieces() returns (counting: Counting)
      requires Valid()
      ensures counting == CountPiecesOf(Value())
    {
      var s := Value();
      counting := CountAll(s, PiecePositions(s));
    }
  }

  /** Board.Copy on the snapshot `s`: a new board, then one copied piece per occupied square. */
  method CopyOf(s: Snapshot) returns (b: Board)
    ensures fresh(b) && fresh(b.pieces) && b.Valid() && b.Value() == CopySnapshot(s)
  {
    b := new Board();
    var ps := PiecePositions(s);
    PiecePositionsExact(s);
    CopyPieces(s, ps, b);
  }

  /** The `foreach` of Board.Copy: `copy[pos] = this[pos].Copy()` for every listed square. */
  method CopyPieces(s: Snapshot, ps: seq<Position>, b: Board)
    requires AllOccupied(s, ps) && Covers(s, ps) && b.Valid()
    requires forall i, j :: 0 <= i < 8 && 0 <= j < 8 ==> b.pieces[i, j] == None
    requires b.pawnSkipPositions[White] == None && b.pawnSkipPositions[Black] == None && !b.isRotated
    modifies b.pieces
    ensures b.Valid() && b.Value() == CopySnapshot(s)
  {
    ghost var done: set<Position> := {};
    for i := 0 to |ps|
      invariant forall k :: 0 <= k < i ==> ps[k] in done
      invariant forall p :: p in done ==> IsInside(p)
      invariant forall r, c :: 0 <= r < 8 && 0 <= c < 8 ==>
        b.pieces[r, c] == (if Position(r, c) in done then CopySquare(s.grid[r][c]) else None)
    {
      var pos := ps[i];
      b.pieces[pos.Row, pos.Column] := CopySquare(s.At(pos));
      done := done + {pos};
    }
    ghost var want := CopySnapshot(s);
    forall r, c | 0 <= r < 8 && 0 <= c < 8 ensures b.pieces[r, c] == want.grid[r][c] {
      var p := Position(r, c);
      if !s.IsEmpty(p) {
        assert p in ps;
        var k :| 0 <= k < |ps| && ps[k] == p;
      }
    }
    CellsDetermineGrid(b, want.grid);
    ValueFromParts(b, want);
  }

  /** The `foreach` of Board.CountPieces: one increment per listed square, in order. */
  method CountAll(s: Snapshot, ps: seq<Position>) returns (counting: Counting)
    requires AllOccupied(s, ps)
    ensures counting == CountOf(s, ps)
  {
    counting := NoPieces;
    for i := 0 to |ps|
      invariant counting == CountOf(s, ps[..i])
    {
      var piece := s.At(ps[i]).value;
      assert ps[..i + 1][..i] == ps[..i];
      counting := counting.Increment(piece.Color, piece.Type);
    }
    assert ps[..|ps|] == ps;
  }

  lemma RotatedCells(src: Board, b: Board)
    requires src.Valid() && b.Valid()
    requires forall i, j :: 0 <= i < 8 && 0 <= j < 8 ==> b.pieces[i, j] == Flip(src.pieces[7 - i, 7 - j])
    ensures b.Value().grid == RotateSnapshot(src.Value()).grid
  {
    var want := RotateSnapshot(src.Value());
    forall i, j | 0 <= i < 8 && 0 <= j < 8 ensures b.pieces[i, j] == want.grid[i][j] {
      ValueCell(src, 7 - i, 7 - j);
    }
    CellsDetermineGrid(b, want.grid);
  }

  lemma ValueCell(b: Board, i: int, j: int)
    requires b.Valid() && 0 <= i < 8 && 0 <= j < 8
    ensures b.Value().grid[i][j] == b.pieces[i, j]
  {
    assert b.Value().grid[i] == b.Row(i);
  }

  /** A board's value is determined by its cells, its two skip squares and its rotation flag. */
  lemma ValueFromParts(b: Board, s: Snapshot)
    requires b.Valid() && b.Value().grid == s.grid && b.isRotated == s.isRotated
    requires b.pawnSkipPositions[White] == s.whiteSkip && b.pawnSkipPositions[Black] == s.blackSkip
    ensures b.Value() == s
  {
  }

  /** A board's value is determined by its 64 cells. */
  lemma CellsDetermineGrid(b: Board, g: Grid)
    requires b.Valid()
    requires forall i, j :: 0 <= i < 8 && 0 <= j < 8 ==> b.pieces[i, j] == g[i][j]
    ensures b.Value().grid == g
  {
    forall i | 0 <= i < 8 ensures b.Row(i) == g[i] {
      assert forall j | 0 <= j < 8 :: b.Row(i)[j] == g[i][j];
    }
  }
}
