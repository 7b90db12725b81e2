/**
 * The turn state machine of ChessLogic/GameState.cs: the board, the side to move, the result,
 * the half-move clock (moves without a capture or a pawn move), the position string of the
 * current position and the repetition table counting each position string. The two clocks of
 * the players are plain integers that the caller counts down.
 */
module Games {
  import opened Basics
  import opened Boards
  import opened Moves
  import opened Pieces
  import opened Legality
  import opened StateStrings

  // ---------------------------------------------------------------------------------------
  // Legal moves

  /** The candidates Piece.GetMoves lists for the piece on a square; none for an empty square. */
  function MovesFrom(s: Snapshot, others: PieceMoves): Position -> seq<Move> {
    pos => if IsInside(pos) && !s.IsEmpty(pos) then GetMoves(s, pos, others) else []
  }

  /** Move.IsLegal on the position `s`. */
  function LegalIn(s: Snapshot, others: PieceMoves): Move -> bool {
    m => IsLegal(m, s, others)
  }

  /** GameState.LegalMovesForPiece: nothing for an empty square or a piece of the other side. */
  function PieceLegalMoves(s: Snapshot, player: Player, pos: Position, others: PieceMoves): seq<Move>
    requires IsInside(pos)
  {
    if s.IsEmpty(pos) || s.At(pos).value.Color != player then []
    else Where(GetMoves(s, pos, others), LegalIn(s, others))
  }

  /** GameState.AllLegalMovesFor: the candidates of every piece of the side, square by square, that are legal. */
  function PlayerLegalMoves(s: Snapshot, player: Player, others: PieceMoves): seq<Move> {
    Where(SelectMany(PiecePositionsFor(s, player), MovesFrom(s, others)), LegalIn(s, others))
  }

  /** A legal move of a piece is a candidate of the side's own piece on that square that is legal. */
  lemma PieceLegalMovesIff(s: Snapshot, player: Player, pos: Position, others: PieceMoves)
    requires IsInside(pos)
    ensures s.IsEmpty(pos) || s.At(pos).value.Color != player ==> PieceLegalMoves(s, player, pos, others) == []
    ensures forall m :: m in PieceLegalMoves(s, player, pos, others) <==>
      !s.IsEmpty(pos) && s.At(pos).value.Color == player && m in GetMoves(s, pos, others) && LegalIn(s, others)(m)
  {
    if !s.IsEmpty(pos) {
      WhereMembers(GetMoves(s, pos, others), LegalIn(s, others));
    }
  }

  /** Filtering the joined candidates is joining the filtered candidates of each element. */
  lemma WhereSelectMany<T>(ps: seq<T>, gen: T -> seq<Move>, legal: Move -> bool)
    ensures forall m :: m in Where(SelectMany(ps, gen), legal) <==> exists p :: p in ps && m in Where(gen(p), legal)
  {
    WhereMembers(SelectMany(ps, gen), legal);
    SelectManyMembers(ps, gen);
    forall p | p in ps {
      WhereMembers(gen(p), legal);
    }
  }

  /** On a square of the board, a piece's legal moves are the filtered candidates of a square of the side, or none. */
  lemma PieceLegalMovesAt(s: Snapshot, player: Player, pos: Position, others: PieceMoves)
    requires IsInside(pos)
    ensures PieceLegalMoves(s, player, pos, others) ==
      if pos in PiecePositionsFor(s, player) then Where(MovesFrom(s, others)(pos), LegalIn(s, others)) else []
  {
    PiecePositionsForMembers(s, player);
  }

  /** The legal moves of a side are those of its pieces, over all the squares of the board. */
  lemma PlayerLegalMovesIff(s: Snapshot, player: Player, others: PieceMoves)
    ensures forall m :: m in PlayerLegalMoves(s, player, others) <==>
      exists pos :: IsInside(pos) && m in PieceLegalMoves(s, player, pos, others)
  {
    WhereSelectMany(PiecePositionsFor(s, player), MovesFrom(s, others), LegalIn(s, others));
    forall m | m in PlayerLegalMoves(s, player, others)
      ensures exists pos :: IsInside(pos) && m in PieceLegalMoves(s, player, pos, others)
    {
      PlayerLegalMoveHasSquare(s, player, others, m);
    }
    forall m, pos | IsInside(pos) && m in PieceLegalMoves(s, player, pos, others)
      ensures m in PlayerLegalMoves(s, player, others)
    {
      PieceLegalMovesAt(s, player, pos, others);
    }
  }

  /** A legal move of the side comes from one of its squares. */
  lemma PlayerLegalMoveHasSquare(s: Snapshot, player: Player, others: PieceMoves, m: Move)
    requires exists p :: p in PiecePositionsFor(s, player) && m in Where(MovesFrom(s, others)(p), LegalIn(s, others))
    ensures exists pos :: IsInside(pos) && m in PieceLegalMoves(s, player, pos, others)
  {
    var pos :| pos in PiecePositionsFor(s, player) && m in Where(MovesFrom(s, others)(pos), LegalIn(s, others));
    PiecePositionsForMembers(s, player);
    PieceLegalMovesAt(s, player, pos, others);
  }

  /** What CheckForGameOver decides on the position `s` with `player` to move. */
  function Outcome(s: Snapshot, player: Player, clock: int, whiteTime: int, blackTime: int,
                   repetitions: int, previous: Option<Result>, others: PieceMoves): Option<Result>
  {
    Verdict(|PlayerLegalMoves(s, player, others)| > 0, IsInCheck(s, player, others), Boards.InsufficientMaterial(s),
            clock, whiteTime, blackTime, repetitions, player, previous)
  }

  // ---------------------------------------------------------------------------------------
  // The end of the game

  /** FiftyMoveRool: the half-move clock, halved with truncation, is 50. */
  predicate FiftyMoves(clock: int) {
    clock / 2 == 50
  }

  /** The fifty-move rule fires at exactly 100 and 101 half-moves without a capture or a pawn move. */
  lemma FiftyMovesIff(clock: int)
    ensures FiftyMoves(clock) <==> clock == 100 || clock == 101
  {
  }

  /**
   * CheckForGameOver: the first rule that holds decides, and the result stays `previous` when
   * none holds. `player` is the side to move.
   */
  function Verdict(hasLegalMoves: bool, inCheck: bool, insufficient: bool, clock: int,
                   whiteTime: int, blackTime: int, repetitions: int, player: Player,
                   previous: Option<Result>): Option<Result>
  {
    if !hasLegalMoves then
      if inCheck then Some(Win(player.Opponent(), Checkmate)) else Some(Draw(Stalemate))
    else if insufficient then Some(Draw(EndReason.InsufficientMaterial))
    else if FiftyMoves(clock) then Some(Draw(EndReason.FiftyMoveRule))
    else if whiteTime == 0 then Some(Win(Black, Time))
    else if blackTime == 0 then Some(Win(White, Time))
    else if repetitions == 3 then Some(Draw(EndReason.ThreefoldRepetition))
    else previous
  }

  /** The five rules before the repetition rule all fail, so the repetition table is consulted. */
  predicate ReachesRepetition(hasLegalMoves: bool, insufficient: bool, clock: int, whiteTime: int, blackTime: int) {
    hasLegalMoves && !insufficient && !FiftyMoves(clock) && whiteTime != 0 && blackTime != 0
  }

  /**
   * Until the repetition rule is reached the table plays no part: a verdict decided by the
   * first five rules is the same whatever the count of the string.
   */
  lemma VerdictBeforeRepetition(hasLegalMoves: bool, inCheck: bool, insufficient: bool, clock: int,
                                whiteTime: int, blackTime: int, repetitions: int, other: int, player: Player,
                                previous: Option<Result>)
    requires !ReachesRepetition(hasLegalMoves, insufficient, clock, whiteTime, blackTime)
    ensures Verdict(hasLegalMoves, inCheck, insufficient, clock, whiteTime, blackTime, repetitions, player, previous) ==
            Verdict(hasLegalMoves, inCheck, insufficient, clock, whiteTime, blackTime, other, player, previous)
    ensures Verdict(hasLegalMoves, inCheck, insufficient, clock, whiteTime, blackTime, repetitions, player, previous).Some?
  {
  }

  /** A game once over stays over: the rules only ever set a result, never clear one. */
  lemma VerdictKeepsGameOver(hasLegalMoves: bool, inCheck: bool, insufficient: bool, clock: int,
                             whiteTime: int, blackTime: int, repetitions: int, player: Player,
                             previous: Option<Result>)
    ensures previous.Some? ==>
      Verdict(hasLegalMoves, inCheck, insufficient, clock, whiteTime, blackTime, repetitions, player, previous).Some?
    ensures Verdict(hasLegalMoves, inCheck, insufficient, clock, whiteTime, blackTime, repetitions, player, previous).None?
      <==> previous.None? && ReachesRepetition(hasLegalMoves, insufficient, clock, whiteTime, blackTime) && repetitions != 3
  {
  }

  /**
   * The rules in their order: each end reason is given exactly when its rule holds and no
   * earlier one does; when none holds the previous result is kept.
   */
  lemma VerdictRules(hasLegalMoves: bool, inCheck: bool, insufficient: bool, clock: int,
                     whiteTime: int, blackTime: int, repetitions: int, player: Player,
                     previous: Option<Result>)
    ensures var r := Verdict(hasLegalMoves, inCheck, insufficient, clock, whiteTime, blackTime, repetitions, player, previous);
      var fires := !hasLegalMoves || insufficient || clock == 100 || clock == 101 ||
                   whiteTime == 0 || blackTime == 0 || repetitions == 3;
      (!fires ==> r == previous) &&
      (fires ==> r.Some?) &&
      (fires ==> (r.value.Reason == Checkmate <==> !hasLegalMoves && inCheck)) &&
      (fires ==> (r.value.Reason == Checkmate ==> r.value == Win(player.Opponent(), Checkmate))) &&
      (fires ==> (r.value.Reason == Stalemate <==> !hasLegalMoves && !inCheck)) &&
      (fires ==> (r.value.Reason == EndReason.InsufficientMaterial <==> hasLegalMoves && insufficient)) &&
      (fires ==> (r.value.Reason == EndReason.FiftyMoveRule <==>
                  hasLegalMoves && !insufficient && (clock == 100 || clock == 101))) &&
      (fires ==> (r.value == Win(Black, Time) <==>
                  hasLegalMoves && !insufficient && !FiftyMoves(clock) && whiteTime == 0)) &&
      (fires ==> (r.value == Win(White, Time) <==>
                  hasLegalMoves && !insufficient && !FiftyMoves(clock) && whiteTime != 0 && blackTime == 0)) &&
      (fires ==> (r.value.Reason == EndReason.ThreefoldRepetition <==>
                  hasLegalMoves && !insufficient && !FiftyMoves(clock) && whiteTime != 0 && blackTime != 0 &&
                  repetitions == 3))
  {
    FiftyMovesIff(clock);
  }

  // ---------------------------------------------------------------------------------------
  // The repetition table

  /** The number of times a position string has been recorded. */
  function Count(h: map<string, int>, key: string): int {
    if key in h then h[key] else 0
  }

  /** UpdateStateString on the table: the string is recorded once more. */
  function Recorded(h: map<string, int>, key: string): (r: map<string, int>)
    ensures key in r && r[key] == Count(h, key) + 1
    ensures forall k :: k != key ==> (k in r <==> k in h) && Count(r, k) == Count(h, k)
  {
    h[key := Count(h, key) + 1]
  }

  /**
   * The loop of ConvertStateHistory over the keys of `h`, each stored under `rekey`'s result with
   * its count. The order of the keys is not fixed; when two keys map to the same new key, one of
   * their counts is kept, and when `rekey` can be undone on every key, every count is kept.
   */
  method RekeyAll(h: map<string, int>, rekey: string -> Option<string>) returns (converted: map<string, int>)
    requires forall k :: k in h ==> rekey(k).Some?
    ensures forall k :: k in h ==> rekey(k).value in converted
    ensures forall k' :: k' in converted ==> exists k :: k in h && rekey(k) == Some(k') && converted[k'] == h[k]
    ensures (forall k :: k in h ==> rekey(rekey(k).value) == Some(k)) ==>
      forall k :: k in h ==> converted[rekey(k).value] == h[k]
  {
    converted := map[];
    var remaining := h.Keys;
    ghost var undone := forall k :: k in h ==> rekey(rekey(k).value) == Some(k);
    while remaining != {}
      invariant remaining <= h.Keys
      invariant forall k :: k in h && k !in remaining ==> rekey(k).value in converted
      invariant forall k' :: k' in converted ==>
        exists k :: k in h && k !in remaining && rekey(k) == Some(k') && converted[k'] == h[k]
      invariant undone ==> forall k :: k in h && k !in remaining ==> converted[rekey(k).value] == h[k]
      decreases remaining
    {
      var key :| key in remaining;
      var rotated := rekey(key).value;
      ghost var before := converted;
      converted := converted[rotated := h[key]];
      remaining := remaining - {key};
      forall k' | k' in converted
        ensures exists k :: k in h && k !in remaining && rekey(k) == Some(k') && converted[k'] == h[k]
      {
        if k' != rotated {
          assert k' in before;
        }
      }
      if undone {
        forall k | k in h && k !in remaining
          ensures converted[rekey(k).value] == h[k]
        {
          if k != key && rekey(k).value == rotated {
            assert rekey(rekey(k).value) == Some(k);
          }
        }
      }
    }
  }

  /**
   * Keys that are position strings can be rotated, and rotating them back gives them again, so
   * ConvertStateHistory keeps every count of a table of position strings.
   */
  lemma PositionStringsRotateBack(keys: set<string>, others: PieceMoves)
    requires forall k :: k in keys ==> exists s, player :: k == Encode(s, player, others)
    ensures forall k :: k in keys ==>
      RotateStateString(k).Some? && RotateStateString(RotateStateString(k).value) == Some(k)
  {
    forall k | k in keys
      ensures RotateStateString(k).Some? && RotateStateString(RotateStateString(k).value) == Some(k)
    {
      var s, player :| k == Encode(s, player, others);
      RotateEncoded(s, player, others);
    }
  }

  /** The SelectMany of AllLegalMovesFor: the candidates of each square, appended in order. */
  method SelectManyOf(positions: seq<Position>, movesFrom: Position -> seq<Move>) returns (candidates: seq<Move>)
    ensures candidates == SelectMany(positions, movesFrom)
  {
    candidates := [];
    for i := 0 to |positions|
      invariant candidates == SelectMany(positions[..i], movesFrom)
    {
      assert positions[..i + 1][..i] == positions[..i];
      candidates := candidates + movesFrom(positions[i]);
    }
    assert positions[..|positions|] == positions;
  }

  /**
   * The board part of MakeMove: the mover's skip square is cleared, the capture is noted, and the
   * move is executed; the board ends as the pure execution says.
   */
  method ClearSkipAndExecute(move: Move, board: Board, player: Player) returns (captured: bool, flag: bool)
    requires board.Valid() && Applicable(move, board.Value().WithSkip(player, None))
    modifies board, board.pieces
    ensures board.Valid() && board.isRotated == old(board.isRotated)
    ensures (board.Value(), flag) == Execute(move, old(board.Value()).WithSkip(player, None))
    ensures captured == DidCapture(move, old(board.Value()))
  {
    ghost var before := board.Value();
    board.SetPawnSkipPosition(player, None);
    var target := board.Get(move.ToPos);
    assert target == before.At(move.ToPos);
    captured := move.Normal? && target.Some?;
    flag := ExecuteOn(move, board);
  }

  class GameState {
    var board: Board
    var currentPlayer: Player
    var result: Option<Result>
    var noCaptureOrPawnMoves: int
    var stateString: string
    var stateHistory: map<string, int>
    var whiteLeftTime: int
    var blackLeftTime: int
    /** The move generators of the pieces other than the king. */
    const others: PieceMoves

    ghost predicate Valid()
      reads this, board, board.pieces
    {
      board.Valid()
    }

    /** `new GameState(player, board)`: the string of the start position, recorded once. */
    constructor (player: Player, board: Board, others: PieceMoves)
      requires board.Valid()
      ensures Valid() && this.board == board && this.others == others
      ensures currentPlayer == player && result == None && noCaptureOrPawnMoves == 0
      ensures whiteLeftTime == 5 && blackLeftTime == 5
      ensures stateString == Encode(board.Value(), player, others)
      ensures stateHistory == map[stateString := 1]
    {
      this.board := board;
      currentPlayer := player;
      this.others := others;
      result := None;
      noCaptureOrPawnMoves := 0;
      whiteLeftTime := 5;
      blackLeftTime := 5;
      var text := new StateString(player, board, others);
      stateString := text.ToString();
      stateHistory := map[stateString := 1];
    }

    /**
     * ConvertStateHistory: each recorded string rotated, with its count. When two strings
     * rotate to the same one, one of their counts is kept; when rotation can be undone on every
     * key (as on every position string), each rotated key keeps its own count.
     */
    method ConvertStateHistory() returns (converted: map<string, int>)
      requires forall k :: k in stateHistory ==> RotateStateString(k).Some?
      ensures forall k :: k in stateHistory ==> RotateStateString(k).value in converted
      ensures forall k' :: k' in converted ==>
        exists k :: k in stateHistory && RotateStateString(k) == Some(k') && converted[k'] == stateHistory[k]
      ensures (forall k :: k in stateHistory ==> RotateStateString(RotateStateString(k).value) == Some(k)) ==>
        forall k :: k in stateHistory ==> converted[RotateStateString(k).value] == stateHistory[k]
    {
      converted := RekeyAll(stateHistory, RotateStateString);
    }

    /** The candidates of `candidates` that are legal on the board, in their order. */
    method LegalOnly(candidates: seq<Move>) returns (moves: seq<Move>)
      requires Valid()
      ensures moves == Where(candidates, LegalIn(board.Value(), others))
    {
      moves := [];
      for i := 0 to |candidates|
        invariant moves == Where(candidates[..i], LegalIn(board.Value(), others))
      {
        assert candidates[..i + 1][..i] == candidates[..i];
        var legal := IsLegalOn(candidates[i], board, others);
        if legal {
          moves := moves + [candidates[i]];
        }
      }
      assert candidates[..|candidates|] == candidates;
    }

    /** LegalMovesForPiece: the legal moves of the piece on `pos`, if it belongs to the side to move. */
    method LegalMovesForPiece(pos: Position) returns (moves: seq<Move>)
      requires Valid() && IsInside(pos)
      ensures moves == PieceLegalMoves(board.Value(), currentPlayer, pos, others)
    {
      var square := board.Get(pos);
      if square.None? || square.value.Color != currentPlayer {
        return [];
      }
      var candidates := GetMoves(board.Value(), pos, others);
      moves := LegalOnly(candidates);
    }

    /** AllLegalMovesFor: the candidates of the side's pieces, square by square, that are legal. */
    method AllLegalMovesFor(player: Player) returns (moves: seq<Move>)
      requires Valid()
      ensures moves == PlayerLegalMoves(board.Value(), player, others)
    {
      var s := board.Value();
      var candidates := SelectManyOf(PiecePositionsFor(s, player), MovesFrom(s, others));
      moves := LegalOnly(candidates);
    }

    /** FiftyMoveRool: a hundred or a hundred and one half-moves without a capture or a pawn move. */
    function FiftyMoveRule(): (fires: bool)
      reads this
      ensures fires <==> noCaptureOrPawnMoves == 100 || noCaptureOrPawnMoves == 101
    {
      FiftyMovesIff(noCaptureOrPawnMoves);
      FiftyMoves(noCaptureOrPawnMoves)
    }

    /**
     * ThreefoldRepetition: the current string has been recorded three times. The dictionary
     * lookup throws when the string was never recorded; callers test for that case first.
     */
    function ThreefoldRepetition(): (fires: bool)
      requires stateString in stateHistory
      reads this
      ensures fires <==> Count(stateHistory, stateString) == 3
      // The rule tests `== 3` exactly: once the string is recorded a fourth time it no longer fires.
      ensures fires ==> Recorded(stateHistory, stateString)[stateString] == 4
    {
      stateHistory[stateString] == 3
    }

    /** IsGameOver: a result has been set. */
    predicate IsGameOver()
      reads this
    {
      result.Some?
    }

    /** UpdateStateString: the string of the position, recorded once more in the table. */
    method UpdateStateString()
      requires Valid()
      modifies this
      ensures Valid() && board == old(board) && currentPlayer == old(currentPlayer) && result == old(result)
      ensures noCaptureOrPawnMoves == old(noCaptureOrPawnMoves)
      ensures whiteLeftTime == old(whiteLeftTime) && blackLeftTime == old(blackLeftTime)
      ensures stateString == Encode(board.Value(), currentPlayer, others)
      ensures stateHistory == Recorded(old(stateHistory), stateString)
    {
      var text := new StateString(currentPlayer, board, others);
      var key := text.ToString();
      stateString := key;
      stateHistory := RecordOnce(stateHistory, key);
    }

    /** The dictionary update of UpdateStateString: a new string counts 1, a known one one more. */
    static method RecordOnce(history: map<string, int>, key: string) returns (r: map<string, int>)
      ensures r == Recorded(history, key)
    {
      if key !in history {
        r := history[key := 1];
      } else {
        r := history[key := history[key] + 1];
      }
    }

    /**
     * CheckForGameOver: the rules applied to the position, in their order. `keyNotFound` is the
     * dictionary lookup of the repetition rule throwing: the string is not in the table and no
     * earlier rule fired. The result is then left as it was.
     */
    method CheckForGameOver() returns (keyNotFound: bool)
      requires Valid()
      modifies this
      ensures Valid() && board == old(board) && currentPlayer == old(currentPlayer)
      ensures noCaptureOrPawnMoves == old(noCaptureOrPawnMoves) && stateString == old(stateString)
      ensures stateHistory == old(stateHistory)
      ensures whiteLeftTime == old(whiteLeftTime) && blackLeftTime == old(blackLeftTime)
      ensures result == Outcome(board.Value(), currentPlayer, noCaptureOrPawnMoves, whiteLeftTime, blackLeftTime,
                                Count(stateHistory, stateString), old(result), others)
      ensures keyNotFound <==>
        (stateString !in stateHistory &&
         ReachesRepetition(|PlayerLegalMoves(board.Value(), currentPlayer, others)| > 0,
                           Boards.InsufficientMaterial(board.Value()), noCaptureOrPawnMoves, whiteLeftTime, blackLeftTime))
      ensures whiteLeftTime == 0 || blackLeftTime == 0 ==> !keyNotFound
    {
      var moves := AllLegalMovesFor(currentPlayer);
      var inCheck := IsInCheck(board.Value(), currentPlayer, others);
      var insufficient := Boards.InsufficientMaterial(board.Value());
      keyNotFound := ApplyRules(|moves| > 0, inCheck, insufficient);
    }

    /** The rule chain of CheckForGameOver, once the three board tests are known. */
    method ApplyRules(hasLegalMoves: bool, inCheck: bool, insufficient: bool) returns (keyNotFound: bool)
      modifies this
      ensures board == old(board) && currentPlayer == old(currentPlayer)
      ensures noCaptureOrPawnMoves == old(noCaptureOrPawnMoves) && stateString == old(stateString)
      ensures stateHistory == old(stateHistory)
      ensures whiteLeftTime == old(whiteLeftTime) && blackLeftTime == old(blackLeftTime)
      ensures result == Verdict(hasLegalMoves, inCheck, insufficient, noCaptureOrPawnMoves, whiteLeftTime,
                                blackLeftTime, Count(stateHistory, stateString), currentPlayer, old(result))
      ensures keyNotFound <==>
        (stateString !in stateHistory &&
         ReachesRepetition(hasLegalMoves, insufficient, noCaptureOrPawnMoves, whiteLeftTime, blackLeftTime))
    {
      keyNotFound := false;
      if !hasLegalMoves {
        if inCheck {
          result := Some(Win(currentPlayer.Opponent(), Checkmate));
        } else {
          result := Some(Draw(Stalemate));
        }
      } else if insufficient {
        result := Some(Draw(EndReason.InsufficientMaterial));
      } else if FiftyMoveRule() {
        result := Some(Draw(EndReason.FiftyMoveRule));
      } else if whiteLeftTime == 0 {
        result := Some(Win(Black, Time));
      } else if blackLeftTime == 0 {
        result := Some(Win(White, Time));
      } else if stateString !in stateHistory {
        keyNotFound := true;
      } else if ThreefoldRepetition() {
        result := Some(Draw(EndReason.ThreefoldRepetition));
      }
    }

    /**
     * MakeMove: the mover's skip square is cleared, the move is executed, the clock and the
     * table follow the capture-or-pawn flag, the other side is to move, its string is recorded
     * and the end rules are applied. The answer is whether a normal move captured.
     */
    method MakeMove(move: Move) returns (captured: bool)
      requires Valid() && Applicable(move, board.Value().WithSkip(currentPlayer, None))
      modifies this, board, board.pieces
      ensures Valid() && board == old(board)
      ensures var e := Execute(move, old(board.Value()).WithSkip(old(currentPlayer), None));
        board.Value() == e.0 &&
        noCaptureOrPawnMoves == (if e.1 then 0 else old(noCaptureOrPawnMoves) + 1) &&
        stateHistory == Recorded(if e.1 then map[] else old(stateHistory), stateString)
      ensures captured == DidCapture(move, old(board.Value()))
      ensures currentPlayer == old(currentPlayer).Opponent()
      ensures stateString == Encode(board.Value(), currentPlayer, others)
      ensures whiteLeftTime == old(whiteLeftTime) && blackLeftTime == old(blackLeftTime)
      ensures result == Outcome(board.Value(), currentPlayer, noCaptureOrPawnMoves, whiteLeftTime, blackLeftTime,
                                stateHistory[stateString], old(result), others)
    {
      captured := PlayOnBoard(move);
      currentPlayer := currentPlayer.Opponent();
      UpdateStateString();
      var keyNotFound := CheckForGameOver();
      assert !keyNotFound;
    }

    /** The first half of MakeMove: clear the mover's skip square, execute, update the clock and the table. */
    method PlayOnBoard(move: Move) returns (captured: bool)
      requires Valid() && Applicable(move, board.Value().WithSkip(currentPlayer, None))
      modifies this, board, board.pieces
      ensures Valid() && board == old(board) && currentPlayer == old(currentPlayer) && result == old(result)
      ensures whiteLeftTime == old(whiteLeftTime) && blackLeftTime == old(blackLeftTime)
      ensures var e := Execute(move, old(board.Value()).WithSkip(old(currentPlayer), None));
        board.Value() == e.0 &&
        noCaptureOrPawnMoves == (if e.1 then 0 else old(noCaptureOrPawnMoves) + 1) &&
        stateHistory == (if e.1 then map[] else old(stateHistory))
      ensures captured == DidCapture(move, old(board.Value()))
    {
      var captureOrPawnMove;
      captured, captureOrPawnMove := ClearSkipAndExecute(move, board, currentPlayer);
      if captureOrPawnMove {
        noCaptureOrPawnMoves := 0;
        stateHistory := map[];
      } else {
        noCaptureOrPawnMoves := noCaptureOrPawnMoves + 1;
      }
    }
  }
}
