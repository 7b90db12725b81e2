/**
 * Moves and their execution. The castle (ChessLogic/Moves/Castle.cs) is modelled in full; the
 * other move kinds (normal, double pawn step, en passant, promotion) are modelled only as far as
 * their call sites rely on them: each executes on a board and reports whether it was a capture
 * or a pawn move. Castle legality, which needs check detection, is in module Legality.
 */
module Moves {
  import opened Directions
  import opened Basics
  import opened Boards

  datatype CastleSide = KingSide | QueenSide

  datatype Move =
    | Normal(FromPos: Position, ToPos: Position)
    | DoublePawn(FromPos: Position, ToPos: Position)
    | EnPassant(FromPos: Position, ToPos: Position)
    | Promotion(FromPos: Position, ToPos: Position, NewType: PieceType)
    | Castle(Side: CastleSide, FromPos: Position, ToPos: Position,
             KingMoveDir: Direction, RookFromPos: Position, RookToPos: Position)

  // ---------------------------------------------------------------------------------------
  // The castle constructor

  /**
   * `new Castle(type, kingPos, board)`: the king's travel direction, its destination and the
   * rook's two squares, for the plain or the rotated layout; only the board's rotation is read.
   */
  function NewCastle(side: CastleSide, kingPos: Position, isRotated: bool): (m: Move)
    ensures m.Castle? && m.Side == side && m.FromPos == kingPos
    ensures m.ToPos.Row == kingPos.Row && m.RookFromPos.Row == kingPos.Row && m.RookToPos.Row == kingPos.Row
    ensures m.KingMoveDir == East || m.KingMoveDir == West
    ensures m.KingMoveDir == East <==> (side == KingSide) != isRotated
    ensures m.RookFromPos.Column == (if m.KingMoveDir == East then 7 else 0)
  {
    var row := kingPos.Row;
    if !isRotated then
      if side == KingSide then Castle(side, kingPos, Position(row, 6), East, Position(row, 7), Position(row, 5))
      else Castle(side, kingPos, Position(row, 2), West, Position(row, 0), Position(row, 3))
    else
      if side == KingSide then Castle(side, kingPos, Position(row, 1), West, Position(row, 0), Position(row, 2))
      else Castle(side, kingPos, Position(row, 5), East, Position(row, 7), Position(row, 4))
  }

  /** The column the king starts from in a layout: 4 on the plain board, 3 on the rotated one. */
  function KingHomeColumn(isRotated: bool): int {
    if isRotated then 3 else 4
  }

  /**
   * From the king's home column the king travels two steps and the rook lands on the square the
   * king crosses, in each of the four layouts.
   */
  lemma CastleGeometry(side: CastleSide, kingPos: Position, isRotated: bool)
    requires kingPos.Column == KingHomeColumn(isRotated)
    ensures var m := NewCastle(side, kingPos, isRotated);
      m.ToPos == kingPos.Plus(Scale(2, m.KingMoveDir)) &&
      m.RookToPos == kingPos.Plus(m.KingMoveDir) &&
      m.ToPos == m.RookToPos.Plus(m.KingMoveDir)
  {
  }

  /** The king's destination column in each layout: two columns towards the rook (either layout, either side). */
  lemma CastleDestinations(side: CastleSide, kingPos: Position, isRotated: bool)
    ensures var m := NewCastle(side, kingPos, isRotated);
      m.ToPos.Column == (match (isRotated, side)
        case (false, KingSide) => 6
        case (false, QueenSide) => 2
        case (true, KingSide) => 1
        case (true, QueenSide) => 5) &&
      m.RookToPos.Column == (match (isRotated, side)
        case (false, KingSide) => 5
        case (false, QueenSide) => 3
        case (true, KingSide) => 2
        case (true, QueenSide) => 4)
  {
  }

  // ---------------------------------------------------------------------------------------
  // Execution

  /**
   * NormalMove.Execute: the piece moves to `to` and is marked as moved, `from` becomes empty;
   * the flag says whether a piece was captured or a pawn moved.
   */
  function NormalExecute(s: Snapshot, from: Position, to: Position): (r: (Snapshot, bool))
    requires IsInside(from) && IsInside(to) && !s.IsEmpty(from)
    ensures from != to ==> r.0.At(to) == Some(s.At(from).value.(HasMoved := true))
    ensures r.0.At(from) == None
    ensures forall q :: IsInside(q) && q != from && q != to ==> r.0.At(q) == s.At(q)
    ensures r.0.whiteSkip == s.whiteSkip && r.0.blackSkip == s.blackSkip && r.0.isRotated == s.isRotated
    ensures r.1 <==> !s.IsEmpty(to) || s.At(from).value.Type == Pawn
  {
    var piece := s.At(from).value;
    var capture := !s.IsEmpty(to);
    (s.Set(to, Some(piece.(HasMoved := true))).Set(from, None), capture || piece.Type == Pawn)
  }

  /** The square a double pawn step jumps over. */
  function SkippedSquare(from: Position, to: Position): Position {
    Position((from.Row + to.Row) / 2, from.Column)
  }

  /** Whether `Execute` may run: the squares it indexes lie on the board and the pieces it moves exist. */
  predicate Applicable(m: Move, s: Snapshot) {
    IsInside(m.FromPos) && IsInside(m.ToPos) && !s.IsEmpty(m.FromPos) &&
    (m.EnPassant? ==> IsInside(Position(m.FromPos.Row, m.ToPos.Column))) &&
    (m.Castle? ==> IsInside(m.RookFromPos) && IsInside(m.RookToPos) &&
                   !NormalExecute(s, m.FromPos, m.ToPos).0.IsEmpty(m.RookFromPos))
  }

  /** Move.Execute on a snapshot: the new board and the capture-or-pawn flag. */
  function Execute(m: Move, s: Snapshot): (r: (Snapshot, bool))
    requires Applicable(m, s)
    ensures r.0.isRotated == s.isRotated
    ensures m.Castle? ==> !r.1
    ensures m.DoublePawn? || m.EnPassant? || m.Promotion? ==> r.1
  {
    match m
    case Normal(from, to) => NormalExecute(s, from, to)
    case DoublePawn(from, to) =>
      var player := s.At(from).value.Color;
      (NormalExecute(s.WithSkip(player, Some(SkippedSquare(from, to))), from, to).0, true)
    case EnPassant(from, to) =>
      (NormalExecute(s, from, to).0.Set(Position(from.Row, to.Column), None), true)
    case Promotion(from, to, newType) =>
      var pawn := s.At(from).value;
      (s.Set(from, None).Set(to, Some(NewPiece(newType, pawn.Color).(HasMoved := true))), true)
    case Castle(_, from, to, _, rookFrom, rookTo) =>
      var afterKing := NormalExecute(s, from, to).0;
      (NormalExecute(afterKing, rookFrom, rookTo).0, false)
  }

  /** The capture flag MakeMove returns: set only for a normal move onto an occupied square. */
  function DidCapture(m: Move, s: Snapshot): (b: bool)
    requires IsInside(m.ToPos)
    ensures b ==> m.Normal?
  {
    m.Normal? && !s.IsEmpty(m.ToPos)
  }

  /**
   * Castle.Execute: with four distinct squares, the king stands on its destination and the rook
   * on its own, both marked as moved, both source squares are empty, and nothing else changes.
   */
  lemma CastleExecute(m: Move, s: Snapshot)
    requires m.Castle? && Applicable(m, s)
    requires m.FromPos != m.ToPos && m.FromPos != m.RookFromPos && m.FromPos != m.RookToPos
    requires m.ToPos != m.RookFromPos && m.ToPos != m.RookToPos && m.RookFromPos != m.RookToPos
    ensures var r := Execute(m, s).0;
      r.At(m.ToPos) == Some(s.At(m.FromPos).value.(HasMoved := true)) &&
      r.At(m.RookToPos) == Some(s.At(m.RookFromPos).value.(HasMoved := true)) &&
      r.At(m.FromPos) == None && r.At(m.RookFromPos) == None &&
      (forall q :: IsInside(q) && q !in {m.FromPos, m.ToPos, m.RookFromPos, m.RookToPos} ==> r.At(q) == s.At(q)) &&
      r.whiteSkip == s.whiteSkip && r.blackSkip == s.blackSkip
  {
    var afterKing := NormalExecute(s, m.FromPos, m.ToPos).0;
    assert afterKing.At(m.RookFromPos) == s.At(m.RookFromPos);
  }

  /** A double pawn step records the jumped-over square as the mover's skip square. */
  lemma DoublePawnSetsSkip(m: Move, s: Snapshot)
    requires m.DoublePawn? && Applicable(m, s)
    ensures var r := Execute(m, s).0; var player := s.At(m.FromPos).value.Color;
      r.Skip(player) == Some(SkippedSquare(m.FromPos, m.ToPos)) &&
      r.Skip(player.Opponent()) == s.Skip(player.Opponent())
  {
  }

  /** En passant removes the captured pawn, which stands beside the capturing pawn's start square. */
  lemma EnPassantClearsVictim(m: Move, s: Snapshot)
    requires m.EnPassant? && Applicable(m, s)
    ensures Execute(m, s).0.At(Position(m.FromPos.Row, m.ToPos.Column)) == None
  {
  }

  // ---------------------------------------------------------------------------------------
  // Execution on the mutable board

  /** NormalMove.Execute on a Board object. */
  method NormalExecuteOn(b: Board, from: Position, to: Position) returns (flag: bool)
    requires b.Valid() && IsInside(from) && IsInside(to) && !b.Value().IsEmpty(from)
    modifies b.pieces
    ensures b.Valid() && (b.Value(), flag) == NormalExecute(old(b.Value()), from, to)
  {
    ghost var before := b.Value();
    var piece := b.Get(from).value;
    var capture := b.Get(to).Some?;
    b.Set(to, Some(piece.(HasMoved := true)));
    b.Set(from, None);
    flag := capture || piece.Type == Pawn;
  }

  /** Move.Execute on a Board object: the board ends as `Execute` says and the flag is returned. */
  method ExecuteOn(m: Move, b: Board) returns (flag: bool)
    requires b.Valid() && Applicable(m, b.Value())
    modifies b, b.pieces
    ensures b.Valid() && (b.Value(), flag) == Execute(m, old(b.Value()))
  {
    match m
    case Normal(from, to) =>
      flag := NormalExecuteOn(b, from, to);
    case DoublePawn(from, to) =>
      DoublePawnExecuteOn(m, b);
      flag := true;
    case EnPassant(from, to) =>
      EnPassantExecuteOn(m, b);
      flag := true;
    case Promotion(from, to, newType) =>
      PromotionExecuteOn(m, b);
      flag := true;
    case Castle(_, from, to, _, rookFrom, rookTo) =>
      CastleExecuteOn(m, b);
      flag := false;
  }

  /** DoublePawn.Execute on a Board object: record the skipped square, then move the pawn. */
  method DoublePawnExecuteOn(m: Move, b: Board)
    requires m.DoublePawn? && b.Valid() && Applicable(m, b.Value())
    modifies b, b.pieces
    ensures b.Valid() && (b.Value(), true) == Execute(m, old(b.Value()))
  {
    ghost var before := b.Value();
    var player := b.Get(m.FromPos).value.Color;
    b.SetPawnSkipPosition(player, Some(SkippedSquare(m.FromPos, m.ToPos)));
    ValueFromParts(b, before.WithSkip(player, Some(SkippedSquare(m.FromPos, m.ToPos))));
    var _ := NormalExecuteOn(b, m.FromPos, m.ToPos);
  }

  /** EnPassant.Execute on a Board object: move the pawn, then clear the captured pawn's square. */
  method EnPassantExecuteOn(m: Move, b: Board)
    requires m.EnPassant? && b.Valid() && Applicable(m, b.Value())
    modifies b.pieces
    ensures b.Valid() && (b.Value(), true) == Execute(m, old(b.Value()))
  {
    var _ := NormalExecuteOn(b, m.FromPos, m.ToPos);
    b.Set(Position(m.FromPos.Row, m.ToPos.Column), None);
  }

  /** PawnPromotion.Execute on a Board object: clear the pawn's square, put the new piece on the target. */
  method PromotionExecuteOn(m: Move, b: Board)
    requires m.Promotion? && b.Valid() && Applicable(m, b.Value())
    modifies b.pieces
    ensures b.Valid() && (b.Value(), true) == Execute(m, old(b.Value()))
  {
    var pawn := b.Get(m.FromPos).value;
    b.Set(m.FromPos, None);
    b.Set(m.ToPos, Some(NewPiece(m.NewType, pawn.Color).(HasMoved := true)));
  }

  /** Castle.Execute on a Board object: the king's move, then the rook's. */
  method CastleExecuteOn(m: Move, b: Board)
    requires m.Castle? && b.Valid() && Applicable(m, b.Value())
    modifies b.pieces
    ensures b.Valid() && (b.Value(), false) == Execute(m, old(b.Value()))
  {
    var _ := NormalExecuteOn(b, m.FromPos, m.ToPos);
    var _ := NormalExecuteOn(b, m.RookFromPos, m.RookToPos);
  }
}
