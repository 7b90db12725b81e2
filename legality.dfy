/**
 * What needs both the board and the move generators: the virtual dispatch of GetMoves and
 * CanCaptureOpponentKing, Board.IsInCheck, Move.IsLegal and Castle.IsLegal, and
 * Board.CanCaptureEnPassant. The generators of the pieces other than the king are the parameter
 * `others`.
 */
module Legality {
  import opened Directions
  import opened Basics
  import opened Boards
  import opened Moves
  import opened Pieces
  import opened Kings

  /** Piece.GetMoves for the piece on `from`: the king's own generator, or `others`. */
  function GetMoves(s: Snapshot, from: Position, others: PieceMoves): seq<Move>
    requires IsInside(from) && !s.IsEmpty(from)
  {
    var piece := s.At(from).value;
    if piece.Type == King then KingGetMoves(s, from, piece) else others(s, from)
  }

  /** Piece.CanCaptureOpponentKing for the piece on `from`: the king's override, or the default over `others`. */
  predicate CanCaptureOpponentKing(s: Snapshot, from: Position, others: PieceMoves)
    requires IsInside(from) && !s.IsEmpty(from)
  {
    var piece := s.At(from).value;
    if piece.Type == King then KingCanCaptureOpponentKing(s, from, piece.Color) else AnyMoveTakesKing(s, others(s, from))
  }

  // ---------------------------------------------------------------------------------------
  // Check

  /** The test of Board.IsInCheck: the piece on the square can capture a king. */
  function Attacks(s: Snapshot, others: PieceMoves): Position -> bool {
    (p: Position) => IsInside(p) && s.At(p).Some? && CanCaptureOpponentKing(s, p, others)
  }

  /** Board.IsInCheck: the `Any` over the opponent's squares. */
  predicate IsInCheck(s: Snapshot, player: Player, others: PieceMoves) {
    Any(PiecePositionsFor(s, player.Opponent()), Attacks(s, others))
  }

  /** A player is in check iff some piece of the opponent, on some square, can capture a king. */
  lemma IsInCheckIff(s: Snapshot, player: Player, others: PieceMoves)
    ensures IsInCheck(s, player, others) <==>
      exists p :: IsInside(p) && s.At(p).Some? && s.At(p).value.Color == player.Opponent() &&
        CanCaptureOpponentKing(s, p, others)
  {
    AnyPieceOf(s, player.Opponent(), Attacks(s, others));
  }

  // ---------------------------------------------------------------------------------------
  // Legality

  /**
   * Move.IsLegal, the version every move but the castle uses: the move is executed on a copy of
   * the board and the mover must not be in check afterwards. A move the C# code could not execute
   * (an empty source square, a square off the board) is not legal.
   */
  predicate DefaultIsLegal(m: Move, s: Snapshot, others: PieceMoves) {
    Applicable(m, s) && Applicable(m, CopySnapshot(s)) &&
    !IsInCheck(Execute(m, CopySnapshot(s)).0, s.At(m.FromPos).value.Color, others)
  }

  /** The check test of one player, as a function of the board. */
  function InCheck(player: Player, others: PieceMoves): Snapshot -> bool {
    (c: Snapshot) => IsInCheck(c, player, others)
  }

  /** The king's walk of Castle.IsLegal: `steps` single steps on the copy, none of which may end in check. */
  predicate KingWalkSafe(c: Snapshot, pos: Position, dir: Direction, steps: nat, inCheck: Snapshot -> bool)
    requires IsInside(pos) && !c.IsEmpty(pos) && dir != Zero
    decreases steps
  {
    if steps == 0 then true
    else
      var next := pos.Plus(dir);
      IsInside(next) &&
      var after := NormalExecute(c, pos, next).0;
      !inCheck(after) && KingWalkSafe(after, next, dir, steps - 1, inCheck)
  }

  /** A two-step walk is safe iff both squares are on the board and neither step ends in check. */
  lemma KingWalkTwoSteps(c0: Snapshot, pos: Position, dir: Direction, inCheck: Snapshot -> bool)
    requires IsInside(pos) && !c0.IsEmpty(pos) && dir != Zero
    ensures var p1 := pos.Plus(dir);
      var p2 := p1.Plus(dir);
      KingWalkSafe(c0, pos, dir, 2, inCheck) <==>
        IsInside(p1) && IsInside(p2) &&
        var c1 := NormalExecute(c0, pos, p1).0;
        var c2 := NormalExecute(c1, p1, p2).0;
        !inCheck(c1) && !inCheck(c2)
  {
    var p1 := pos.Plus(dir);
    if IsInside(p1) {
      var c1 := NormalExecute(c0, pos, p1).0;
      var p2 := p1.Plus(dir);
      if IsInside(p2) {
        var c2 := NormalExecute(c1, p1, p2).0;
        assert KingWalkSafe(c2, p2, dir, 0, inCheck);
      }
    }
  }

  /** One step of the walk: safe iff the step stays on the board, the mover is not then in check, and the rest is safe. */
  lemma KingWalkStep(c: Snapshot, pos: Position, dir: Direction, steps: nat, inCheck: Snapshot -> bool)
    requires IsInside(pos) && !c.IsEmpty(pos) && dir != Zero && steps > 0
    ensures var next := pos.Plus(dir);
      KingWalkSafe(c, pos, dir, steps, inCheck) <==>
        IsInside(next) &&
        var after := NormalExecute(c, pos, next).0;
        !after.IsEmpty(next) && !inCheck(after) && KingWalkSafe(after, next, dir, steps - 1, inCheck)
  {
    assert pos.Plus(dir) != pos;
  }

  /**
   * Castle.IsLegal: the mover is not in check now, and not after either of the two single king
   * steps on a copy of the board. A castle the C# code could not walk is not legal.
   */
  predicate CastleIsLegal(m: Move, s: Snapshot, others: PieceMoves)
    requires m.Castle?
  {
    IsInside(m.FromPos) && !s.IsEmpty(m.FromPos) && m.KingMoveDir != Zero &&
    var player := s.At(m.FromPos).value.Color;
    !IsInCheck(s, player, others) && KingWalkSafe(CopySnapshot(s), m.FromPos, m.KingMoveDir, 2, InCheck(player, others))
  }

  /** Move.IsLegal with the castle's override. */
  predicate IsLegal(m: Move, s: Snapshot, others: PieceMoves) {
    if m.Castle? then CastleIsLegal(m, s, others) else DefaultIsLegal(m, s, others)
  }

  /**
   * A castle is legal iff the mover is not in check on the board, nor on the copy after the king's
   * first step, nor after its second step.
   */
  lemma CastleIsLegalIff(m: Move, s: Snapshot, others: PieceMoves)
    requires m.Castle? && IsInside(m.FromPos) && !s.IsEmpty(m.FromPos) && m.KingMoveDir != Zero
    ensures var player := s.At(m.FromPos).value.Color;
      var p1 := m.FromPos.Plus(m.KingMoveDir);
      var p2 := p1.Plus(m.KingMoveDir);
      (IsInside(p1) && IsInside(p2) &&
       var c1 := NormalExecute(CopySnapshot(s), m.FromPos, p1).0;
       var c2 := NormalExecute(c1, p1, p2).0;
       !IsInCheck(s, player, others) && !IsInCheck(c1, player, others) && !IsInCheck(c2, player, others)) <==>
      CastleIsLegal(m, s, others)
  {
    CopyKeepsPieces(s, m.FromPos);
    KingWalkTwoSteps(CopySnapshot(s), m.FromPos, m.KingMoveDir, InCheck(s.At(m.FromPos).value.Color, others));
  }

  /**
   * The state of the walk, on the value of the copy: the king stands on `pos`, and `goal` (the
   * verdict on the whole walk) is the verdict on the `left` steps still to go.
   */
  predicate Walking(c: Snapshot, pos: Position, dir: Direction, left: nat, inCheck: Snapshot -> bool, goal: bool) {
    IsInside(pos) && !c.IsEmpty(pos) && dir != Zero && goal == KingWalkSafe(c, pos, dir, left, inCheck)
  }

  /**
   * The body of the loop of Castle.IsLegal: one king step on the copy, then the check test.
   * `stop` when the step leaves the board (where the C# code would fail) or ends in check; then the
   * walk of `steps` squares from `pos` is not safe. Otherwise it is safe iff the rest is.
   */
  method KingStepOn(copy: Board, pos: Position, dir: Direction, ghost steps: nat, inCheck: Snapshot -> bool,
                    ghost goal: bool, ghost c: Snapshot)
    returns (next: Position, stop: bool, ghost after: Snapshot)
    requires copy.Valid() && c == copy.Value() && steps > 0 && Walking(c, pos, dir, steps, inCheck, goal)
    modifies copy.pieces
    ensures copy.Valid() && after == copy.Value()
    ensures stop ==> !goal
    ensures !stop ==> Walking(after, next, dir, steps - 1, inCheck, goal)
  {
    KingWalkStep(c, pos, dir, steps, inCheck);
    next := pos.Plus(dir);
    if !IsInside(next) {
      return next, true, c;
    }
    assert next != pos;
    var _ := NormalExecuteOn(copy, pos, next);
    stop := inCheck(copy.Value());
    after := copy.Value();
  }

  /** The loop of Castle.IsLegal on the copy: `steps` king steps, each followed by the check test. */
  method KingWalkOn(copy: Board, from: Position, dir: Direction, steps: nat, inCheck: Snapshot -> bool) returns (safe: bool)
    requires copy.Valid() && IsInside(from) && !copy.Value().IsEmpty(from) && dir != Zero
    modifies copy.pieces
    ensures copy.Valid()
    ensures safe == KingWalkSafe(old(copy.Value()), from, dir, steps, inCheck)
  {
    ghost var c := copy.Value();
    ghost var goal := KingWalkSafe(c, from, dir, steps, inCheck);
    assert goal == KingWalkSafe(old(copy.Value()), from, dir, steps, inCheck);
    var kingPosInCopy := from;
    for i := 0 to steps
      invariant copy.Valid() && c == copy.Value()
      invariant Walking(c, kingPosInCopy, dir, steps - i, inCheck, goal)
    {
      var stop;
      kingPosInCopy, stop, c := KingStepOn(copy, kingPosInCopy, dir, steps - i, inCheck, goal, c);
      if stop {
        return false;
      }
    }
    return true;
  }

  /** The body of Castle.IsLegal once the king's square is known: the check test, then the walk on `board.Copy()`. */
  method CastleWalkOn(board: Board, from: Position, dir: Direction, inCheck: Snapshot -> bool) returns (legal: bool)
    requires board.Valid() && IsInside(from) && !board.Value().IsEmpty(from) && dir != Zero
    ensures legal == (!inCheck(board.Value()) && KingWalkSafe(CopySnapshot(board.Value()), from, dir, 2, inCheck))
  {
    var s := board.Value();
    if inCheck(s) {
      return false;
    }
    var copy := board.Copy();
    CopyKeepsPieces(s, from);
    legal := KingWalkOn(copy, from, dir, 2, inCheck);
    assert board.Value() == s;
  }

  /** Castle.IsLegal on a Board object: the two steps happen on `board.Copy()`, so `board` is not changed. */
  method CastleIsLegalOn(m: Move, board: Board, others: PieceMoves) returns (legal: bool)
    requires m.Castle? && board.Valid()
    ensures legal == CastleIsLegal(m, board.Value(), others)
  {
    if !IsInside(m.FromPos) || board.Get(m.FromPos).None? || m.KingMoveDir == Zero {
      return false;
    }
    var player := board.Get(m.FromPos).value.Color;
    legal := CastleWalkOn(board, m.FromPos, m.KingMoveDir, InCheck(player, others));
  }

  // ---------------------------------------------------------------------------------------
  // En passant availability

  /** The two squares from which `player`'s pawn could take en passant onto `skip`, per layout. */
  function EnPassantSources(skip: Position, player: Player, isBoardRotated: bool): (r: seq<Position>)
    ensures |r| == 2
  {
    if (player == White) != isBoardRotated then [skip.Plus(SouthWest), skip.Plus(SouthEast)]
    else [skip.Plus(NorthWest), skip.Plus(NorthEast)]
  }

  /** The test of Board.HasPawnInPosition: an on-board square with `player`'s pawn whose en passant onto `skipPos` is legal. */
  function EnPassantPawn(s: Snapshot, player: Player, skipPos: Position, others: PieceMoves): Position -> bool {
    (pos: Position) => IsInside(pos) && s.At(pos).Some? && s.At(pos).value.Color == player && s.At(pos).value.Type == Pawn &&
           IsLegal(EnPassant(pos, skipPos), s, others)
  }

  /** Board.HasPawnInPosition: the loop over the on-board squares of `ps`, returning at the first pawn that qualifies. */
  predicate HasPawnInPosition(s: Snapshot, player: Player, ps: seq<Position>, skipPos: Position, others: PieceMoves) {
    Any(ps, EnPassantPawn(s, player, skipPos, others))
  }

  /** Board.CanCaptureEnPassant. */
  predicate CanCaptureEnPassant(s: Snapshot, player: Player, isBoardRotated: bool, others: PieceMoves) {
    var skip := s.Skip(player.Opponent());
    skip.Some? && HasPawnInPosition(s, player, EnPassantSources(skip.value, player, isBoardRotated), skip.value, others)
  }

  /** The `Any` over the two source squares, for any test: the squares diagonally behind the skip square. */
  lemma AnyEnPassantSource(skip: Position, player: Player, isBoardRotated: bool, f: Position -> bool)
    ensures var back := if (player == White) != isBoardRotated then South else North;
      Any(EnPassantSources(skip, player, isBoardRotated), f) <==>
        f(skip.Plus(back).Plus(West)) || f(skip.Plus(back).Plus(East))
  {
    var ps := EnPassantSources(skip, player, isBoardRotated);
    AnyOfTwo(ps, f);
  }

  /**
   * En passant is available iff the opponent has a skip square and one of the two diagonal
   * squares behind it (per colour and layout) holds a pawn of `player` whose en passant is legal.
   */
  lemma CanCaptureEnPassantIff(s: Snapshot, player: Player, isBoardRotated: bool, others: PieceMoves)
    ensures CanCaptureEnPassant(s, player, isBoardRotated, others) <==>
      s.Skip(player.Opponent()).Some? &&
      var skip := s.Skip(player.Opponent()).value;
      var back := if (player == White) != isBoardRotated then South else North;
      EnPassantPawn(s, player, skip, others)(skip.Plus(back).Plus(West)) ||
      EnPassantPawn(s, player, skip, others)(skip.Plus(back).Plus(East))
  {
    var o := s.Skip(player.Opponent());
    if o.Some? {
      AnyEnPassantSource(o.value, player, isBoardRotated, EnPassantPawn(s, player, o.value, others));
    }
  }
  /** A pawn that qualifies for en passant onto a square makes a legal move there, so the square is on the board. */
  lemma EnPassantPawnTarget(s: Snapshot, player: Player, skip: Position, others: PieceMoves, pos: Position)
    requires EnPassantPawn(s, player, skip, others)(pos)
    ensures IsInside(skip)
  {
    assert DefaultIsLegal(EnPassant(pos, skip), s, others);
  }

  /** When en passant is available, the opponent's skip square is on the board. */
  lemma CanCaptureEnPassantInside(s: Snapshot, player: Player, isBoardRotated: bool, others: PieceMoves)
    requires CanCaptureEnPassant(s, player, isBoardRotated, others)
    ensures s.Skip(player.Opponent()).Some? && IsInside(s.Skip(player.Opponent()).value)
  {
    CanCaptureEnPassantIff(s, player, isBoardRotated, others);
    var skip := s.Skip(player.Opponent()).value;
    var back := if (player == White) != isBoardRotated then South else North;
    if EnPassantPawn(s, player, skip, others)(skip.Plus(back).Plus(West)) {
      EnPassantPawnTarget(s, player, skip, others, skip.Plus(back).Plus(West));
    } else {
      EnPassantPawnTarget(s, player, skip, others, skip.Plus(back).Plus(East));
    }
  }

  /** Board.HasPawnInPosition on a Board object: the loop over `ps`, returning at the first pawn whose en passant is legal. */
  method HasPawnInPositionOn(board: Board, player: Player, ps: seq<Position>, skipPos: Position, others: PieceMoves) returns (found: bool)
    requires board.Valid()
    ensures found == HasPawnInPosition(board.Value(), player, ps, skipPos, others)
  {
    ghost var f := EnPassantPawn(board.Value(), player, skipPos, others);
    for i := 0 to |ps|
      invariant Any(ps, f) == Any(ps[i..], f)
    {
      var pos := ps[i];
      assert ps[i..][0] == pos && ps[i..][1..] == ps[i + 1..];
      if !IsInside(pos) {
        continue;
      }
      var piece := board.Get(pos);
      if piece.None? || piece.value.Color != player || piece.value.Type != Pawn {
        continue;
      }
      var legal := DefaultIsLegalOn(EnPassant(pos, skipPos), board, others);
      if legal {
        return true;
      }
    }
    assert ps[|ps|..] == [];
    return false;
  }

  /** Board.CanCaptureEnPassant on a Board object: the opponent's skip square, the two candidate squares, the search. */
  method CanCaptureEnPassantOn(board: Board, player: Player, isBoardRotated: bool, others: PieceMoves) returns (b: bool)
    requires board.Valid()
    ensures b == CanCaptureEnPassant(board.Value(), player, isBoardRotated, others)
    ensures b ==> board.Value().Skip(player.Opponent()).Some?
  {
    var skipPos := board.GetPawnSkipPosition(player.Opponent());
    if skipPos.None? {
      return false;
    }
    var pawnPositions := EnPassantSources(skipPos.value, player, isBoardRotated);
    b := HasPawnInPositionOn(board, player, pawnPositions, skipPos.value, others);
  }

  // ---------------------------------------------------------------------------------------
  // Legality on the mutable board

  /** Execute on `board.Copy()`, then the check test on the copy; `board` itself is not changed. */
  method ProbeOn(m: Move, board: Board, inCheck: Snapshot -> bool) returns (legal: bool)
    requires board.Valid()
    ensures legal == (Applicable(m, CopySnapshot(board.Value())) && !inCheck(Execute(m, CopySnapshot(board.Value())).0))
  {
    var copy := board.Copy();
    if !Applicable(m, copy.Value()) {
      return false;
    }
    var _ := ExecuteOn(m, copy);
    legal := !inCheck(copy.Value());
  }

  /** Move.IsLegal on a Board object, for every move but the castle. */
  method DefaultIsLegalOn(m: Move, board: Board, others: PieceMoves) returns (legal: bool)
    requires board.Valid()
    ensures legal == DefaultIsLegal(m, board.Value(), others)
  {
    if !Applicable(m, board.Value()) {
      return false;
    }
    var player := board.Get(m.FromPos).value.Color;
    legal := ProbeOn(m, board, InCheck(player, others));
  }

  /** Move.IsLegal on a Board object, with the castle's override. */
  method IsLegalOn(m: Move, board: Board, others: PieceMoves) returns (legal: bool)
    requires board.Valid()
    ensures legal == IsLegal(m, board.Value(), others)
  {
    if m.Castle? {
      legal := CastleIsLegalOn(m, board, others);
    } else {
      legal := DefaultIsLegalOn(m, board, others);
    }
  }
}
