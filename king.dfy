/**
 * The king (ChessLogic/Pieces/King.cs): its one-step targets, the castling preconditions for the
 * plain and the rotated layout, its candidate moves and its king-capture test. King.Copy is
 * `Piece.Copy` in module Basics.
 */
module Kings {
  import opened Directions
  import opened Basics
  import opened Boards
  import opened Moves
  import opened Pieces

  /** The king's directions, in the order it tries them. */
  const KingDirs: seq<Direction> := [North, South, West, East, SouthEast, SouthWest, NorthEast, NorthWest]

  /** The `foreach` of King.MovePositions over `dirs`: each step that lands on the board, on an empty or opposing square. */
  function StepTargets(s: Snapshot, from: Position, dirs: seq<Direction>, color: Player): (r: seq<Position>)
    ensures |r| <= |dirs|
  {
    if dirs == [] then []
    else
      var to := from.Plus(dirs[0]);
      var rest := StepTargets(s, from, dirs[1..], color);
      if IsInside(to) && (s.IsEmpty(to) || s.At(to).value.Color != color) then [to] + rest else rest
  }

  /** King.MovePositions. */
  function MovePositions(s: Snapshot, from: Position, color: Player): seq<Position> {
    StepTargets(s, from, KingDirs, color)
  }

  /** A step target: on the board and empty or holding a piece not of `color`. */
  predicate Target(s: Snapshot, to: Position, color: Player) {
    IsInside(to) && (s.IsEmpty(to) || s.At(to).value.Color != color)
  }

  /** StepTargets yields exactly the targets among the one-step squares, in direction order. */
  lemma {:induction false} StepTargetsMembers(s: Snapshot, from: Position, dirs: seq<Direction>, color: Player)
    ensures forall p :: p in StepTargets(s, from, dirs, color) <==>
      Target(s, p, color) && exists i :: 0 <= i < |dirs| && p == from.Plus(dirs[i])
  {
    if dirs != [] {
      StepTargetsMembers(s, from, dirs[1..], color);
      forall p ensures p in StepTargets(s, from, dirs, color) <==>
        Target(s, p, color) && exists i :: 0 <= i < |dirs| && p == from.Plus(dirs[i])
      {
        if p in StepTargets(s, from, dirs[1..], color) {
          var i :| 0 <= i < |dirs[1..]| && p == from.Plus(dirs[1..][i]);
          assert dirs[1..][i] == dirs[i + 1];
        }
        if Target(s, p, color) && exists i :: 0 <= i < |dirs| && p == from.Plus(dirs[i]) {
          var i :| 0 <= i < |dirs| && p == from.Plus(dirs[i]);
          if i > 0 {
            assert dirs[1..][i - 1] == dirs[i];
          }
        }
      }
    }
  }

  /** `to` is one king step from `from`: a different square at most one row and one column away. */
  predicate OneStep(from: Position, to: Position) {
    to != from && -1 <= to.Row - from.Row <= 1 && -1 <= to.Column - from.Column <= 1
  }

  /** The eight king directions are exactly the eight one-step offsets. */
  lemma KingDirsAreOneSteps(from: Position, to: Position)
    ensures OneStep(from, to) <==> exists i :: 0 <= i < |KingDirs| && to == from.Plus(KingDirs[i])
  {
    if OneStep(from, to) {
      var d := Direction(to.Row - from.Row, to.Column - from.Column);
      assert to == from.Plus(d);
      assert d in KingDirs;
    }
  }

  /**
   * King.MovePositions yields at most 8 squares; they are exactly the one-step squares that are on
   * the board and empty or hold an opposing piece.
   */
  lemma MovePositionsExact(s: Snapshot, from: Position, color: Player)
    ensures |MovePositions(s, from, color)| <= 8
    ensures forall p :: p in MovePositions(s, from, color) <==> OneStep(from, p) && Target(s, p, color)
  {
    StepTargetsMembers(s, from, KingDirs, color);
    forall p ensures p in MovePositions(s, from, color) <==> OneStep(from, p) && Target(s, p, color) {
      KingDirsAreOneSteps(from, p);
    }
  }

  /** King.IsUnmovedRook. */
  predicate IsUnmovedRook(s: Snapshot, pos: Position)
    requires IsInside(pos)
  {
    if s.IsEmpty(pos) then false else s.At(pos).value.Type == Rook && !s.At(pos).value.HasMoved
  }

  /** King.AllEmpty. */
  predicate AllEmpty(s: Snapshot, ps: seq<Position>)
    requires forall i :: 0 <= i < |ps| ==> IsInside(ps[i])
  {
    forall i :: 0 <= i < |ps| ==> s.IsEmpty(ps[i])
  }

  /** King.CanCastleKingSide for `king` standing in row `from.Row`. */
  predicate CanCastleKingSide(s: Snapshot, from: Position, king: Piece)
    requires 0 <= from.Row < 8
  {
    if king.HasMoved then false
    else if !s.isRotated then
      IsUnmovedRook(s, Position(from.Row, 7)) && AllEmpty(s, [Position(from.Row, 5), Position(from.Row, 6)])
    else
      IsUnmovedRook(s, Position(from.Row, 0)) && AllEmpty(s, [Position(from.Row, 1), Position(from.Row, 2)])
  }

  /** King.CanCastleQueenSide for `king` standing in row `from.Row`. */
  predicate CanCastleQueenSide(s: Snapshot, from: Position, king: Piece)
    requires 0 <= from.Row < 8
  {
    if king.HasMoved then false
    else if !s.isRotated then
      IsUnmovedRook(s, Position(from.Row, 0)) &&
      AllEmpty(s, [Position(from.Row, 1), Position(from.Row, 2), Position(from.Row, 3)])
    else
      IsUnmovedRook(s, Position(from.Row, 7)) &&
      AllEmpty(s, [Position(from.Row, 4), Position(from.Row, 5), Position(from.Row, 6)])
  }

  /** Row `row` is empty from column `lo` to column `hi`. */
  predicate EmptyBetween(s: Snapshot, row: int, lo: int, hi: int)
    requires 0 <= row < 8 && 0 <= lo && hi < 8
  {
    forall c :: lo <= c <= hi ==> s.IsEmpty(Position(row, c))
  }

  /**
   * The castling preconditions, layout by layout: an unmoved king; king side, an unmoved rook in
   * column 7 with columns 5-6 empty (plain) or in column 0 with columns 1-2 empty (rotated);
   * queen side, an unmoved rook in column 0 with columns 1-3 empty (plain) or in column 7 with
   * columns 4-6 empty (rotated).
   */
  lemma CastlePreconditions(s: Snapshot, from: Position, king: Piece)
    requires 0 <= from.Row < 8
    ensures CanCastleKingSide(s, from, king) <==> (!king.HasMoved &&
      if !s.isRotated then IsUnmovedRook(s, Position(from.Row, 7)) && EmptyBetween(s, from.Row, 5, 6)
      else IsUnmovedRook(s, Position(from.Row, 0)) && EmptyBetween(s, from.Row, 1, 2))
    ensures CanCastleQueenSide(s, from, king) <==> (!king.HasMoved &&
      if !s.isRotated then IsUnmovedRook(s, Position(from.Row, 0)) && EmptyBetween(s, from.Row, 1, 3)
      else IsUnmovedRook(s, Position(from.Row, 7)) && EmptyBetween(s, from.Row, 4, 6))
  {
    var row := from.Row;
    var ks := if !s.isRotated then [Position(row, 5), Position(row, 6)] else [Position(row, 1), Position(row, 2)];
    var qs := if !s.isRotated then [Position(row, 1), Position(row, 2), Position(row, 3)]
              else [Position(row, 4), Position(row, 5), Position(row, 6)];
    var klo := if !s.isRotated then 5 else 1;
    var qlo := if !s.isRotated then 1 else 4;
    assert forall c :: klo <= c <= klo + 1 ==> Position(row, c) == ks[c - klo];
    assert forall c :: qlo <= c <= qlo + 2 ==> Position(row, c) == qs[c - qlo];
  }

  /** The plain king moves to the given squares. */
  function NormalMoves(from: Position, tos: seq<Position>): (r: seq<Move>)
    ensures |r| == |tos| && forall i :: 0 <= i < |r| ==> r[i] == Normal(from, tos[i])
  {
    if tos == [] then [] else [Normal(from, tos[0])] + NormalMoves(from, tos[1..])
  }

  /** The castles King.GetMoves yields after the plain moves: king side first, then queen side. */
  function CastleMoves(s: Snapshot, from: Position, king: Piece): seq<Move>
    requires 0 <= from.Row < 8
  {
    (if CanCastleKingSide(s, from, king) then [NewCastle(KingSide, from, s.isRotated)] else []) +
    (if CanCastleQueenSide(s, from, king) then [NewCastle(QueenSide, from, s.isRotated)] else [])
  }

  /** King.GetMoves. */
  function KingGetMoves(s: Snapshot, from: Position, king: Piece): seq<Move>
    requires 0 <= from.Row < 8
  {
    NormalMoves(from, MovePositions(s, from, king.Color)) + CastleMoves(s, from, king)
  }

  /**
   * King.GetMoves yields one plain move per step target first, then at most one king-side castle
   * and then at most one queen-side castle; a king that has moved gets no castle.
   */
  lemma KingGetMovesOrder(s: Snapshot, from: Position, king: Piece)
    requires 0 <= from.Row < 8
    ensures var r := KingGetMoves(s, from, king); var steps := MovePositions(s, from, king.Color);
      |steps| <= |r| <= |steps| + 2 &&
      (forall i :: 0 <= i < |steps| ==> r[i] == Normal(from, steps[i])) &&
      (forall i :: |steps| <= i < |r| ==> r[i].Castle? && r[i].FromPos == from) &&
      (|r| == |steps| + 2 ==> r[|steps|].Side == KingSide && r[|steps| + 1].Side == QueenSide) &&
      (|r| == |steps| + 1 ==> r[|steps|].Side == (if CanCastleKingSide(s, from, king) then KingSide else QueenSide)) &&
      (king.HasMoved ==> |r| == |steps|)
  {
    var steps := MovePositions(s, from, king.Color);
    var r := KingGetMoves(s, from, king);
    var castles := CastleMoves(s, from, king);
    assert r == NormalMoves(from, steps) + castles;
    assert forall i :: |steps| <= i < |r| ==> r[i] == castles[i - |steps|];
  }

  /** King.CanCaptureOpponentKing: some step target (never a castle) holds a king. */
  function KingCanCaptureOpponentKing(s: Snapshot, from: Position, color: Player): bool {
    AnyMoveTakesKing(s, NormalMoves(from, MovePositions(s, from, color)))
  }

  /**
   * The king's capture test is the default test restricted to the plain moves: it holds iff some
   * one-step target holds a king, whatever castles are available.
   */
  lemma KingCaptureOnlySteps(s: Snapshot, from: Position, color: Player)
    ensures KingCanCaptureOpponentKing(s, from, color) <==>
      exists p :: p in MovePositions(s, from, color) && HoldsKing(s, p)
  {
    var steps := MovePositions(s, from, color);
    var moves := NormalMoves(from, steps);
    AnyMoveTakesKingIff(s, moves);
    if exists p :: p in steps && HoldsKing(s, p) {
      var p :| p in steps && HoldsKing(s, p);
      var i :| 0 <= i < |steps| && steps[i] == p;
      assert moves[i].ToPos == p;
    }
  }
}
