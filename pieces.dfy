/**
 * The shared machinery of ChessLogic/Pieces/Piece.cs: walking outward in one direction until the
 * first occupied square, walking in several directions, and the default king-capture test.
 * The move generators of Pawn, Knight, Bishop, Rook and Queen are not part of this model: they
 * are a parameter of type `PieceMoves`.
 */
module Pieces {
  import opened Directions
  import opened Basics
  import opened Boards
  import opened Moves

  /** The `GetMoves` of the pieces other than the king: candidate moves from an occupied square. */
  type PieceMoves = (Snapshot, Position) -> seq<Move>

  /** How many more steps in direction `d` can stay on the board, counted on both axes. */
  function Room(p: Position, d: Direction): int {
    (if d.RowDelta > 0 then 8 - p.Row else if d.RowDelta < 0 then p.Row + 1 else 0) +
    (if d.ColumnDelta > 0 then 8 - p.Column else if d.ColumnDelta < 0 then p.Column + 1 else 0)
  }

  const Zero := Direction(0, 0)

  /**
   * MovePositionsInDir: the squares `cur + dir`, `cur + 2*dir`, ... on the board, up to and
   * excluding the first occupied one, which is included when it holds a piece not of `color`.
   */
  function Walk(s: Snapshot, cur: Position, dir: Direction, color: Player): (r: seq<Position>)
    requires dir != Zero
    ensures forall i :: 0 <= i < |r| ==> IsInside(r[i])
    decreases Room(cur, dir)
  {
    var pos := cur.Plus(dir);
    if !IsInside(pos) then []
    else if s.IsEmpty(pos) then [pos] + Walk(s, pos, dir, color)
    else if s.At(pos).value.Color != color then [pos]
    else []
  }

  /** One step and then `k` more is `k + 1` steps. */
  lemma StepThenScale(cur: Position, dir: Direction, k: int)
    ensures cur.Plus(dir).Plus(Scale(k, dir)) == cur.Plus(Scale(k + 1, dir))
  {
    assert (k + 1) * dir.RowDelta == k * dir.RowDelta + dir.RowDelta;
    assert (k + 1) * dir.ColumnDelta == k * dir.ColumnDelta + dir.ColumnDelta;
  }

  /** The k-th square of a walk (from 0) is `cur + (k+1)*dir`. */
  lemma {:induction false} WalkStep(s: Snapshot, cur: Position, dir: Direction, color: Player, k: nat)
    requires dir != Zero && k < |Walk(s, cur, dir, color)|
    ensures Walk(s, cur, dir, color)[k] == cur.Plus(Scale(k + 1, dir))
    decreases k
  {
    var pos := cur.Plus(dir);
    if k == 0 {
      assert Scale(1, dir) == dir;
    } else {
      assert Walk(s, cur, dir, color) == [pos] + Walk(s, pos, dir, color);
      WalkStep(s, pos, dir, color, k - 1);
      StepThenScale(cur, dir, k);
    }
  }

  /** A walk has no gaps: its squares are `cur + dir`, `cur + 2*dir`, ... in order. */
  lemma WalkSteps(s: Snapshot, cur: Position, dir: Direction, color: Player)
    requires dir != Zero
    ensures var r := Walk(s, cur, dir, color);
      forall k :: 0 <= k < |r| ==> r[k] == cur.Plus(Scale(k + 1, dir))
  {
    var r := Walk(s, cur, dir, color);
    forall k | 0 <= k < |r| ensures r[k] == cur.Plus(Scale(k + 1, dir)) {
      WalkStep(s, cur, dir, color, k);
    }
  }

  /**
   * Every square of a walk but the last is empty, and the last one is empty or holds a piece not
   * of `color`.
   */
  lemma {:induction false} WalkBlocked(s: Snapshot, cur: Position, dir: Direction, color: Player)
    requires dir != Zero
    ensures var r := Walk(s, cur, dir, color);
      (forall k :: 0 <= k < |r| - 1 ==> s.IsEmpty(r[k])) &&
      (|r| > 0 ==> s.IsEmpty(r[|r| - 1]) || s.At(r[|r| - 1]).value.Color != color)
    decreases Room(cur, dir)
  {
    var pos := cur.Plus(dir);
    if IsInside(pos) && s.IsEmpty(pos) {
      WalkBlocked(s, pos, dir, color);
      var rest := Walk(s, pos, dir, color);
      var r := Walk(s, cur, dir, color);
      assert r == [pos] + rest;
      assert forall k :: 0 < k < |r| ==> r[k] == rest[k - 1];
    }
  }

  /**
   * A walk is maximal: when it yields nothing or ends on an empty square, the next square along
   * the line is off the board or holds a piece of `color`.
   */
  lemma {:induction false} WalkMaximal(s: Snapshot, cur: Position, dir: Direction, color: Player)
    requires dir != Zero
    ensures var r := Walk(s, cur, dir, color);
      |r| == 0 || s.IsEmpty(r[|r| - 1]) ==>
        var next := cur.Plus(Scale(|r| + 1, dir));
        !IsInside(next) || (s.At(next).Some? && s.At(next).value.Color == color)
    decreases Room(cur, dir)
  {
    var pos := cur.Plus(dir);
    var r := Walk(s, cur, dir, color);
    assert Scale(1, dir) == dir;
    if IsInside(pos) && s.IsEmpty(pos) {
      WalkMaximal(s, pos, dir, color);
      var rest := Walk(s, pos, dir, color);
      assert r == [pos] + rest;
      StepThenScale(cur, dir, |rest| + 1);
      if |rest| > 0 {
        assert r[|r| - 1] == rest[|rest| - 1];
      }
    }
  }

  /** Reading off WalkBlocked: every walked square is on the board and no walked square holds a piece of `color`. */
  lemma WalkNeverOwn(s: Snapshot, cur: Position, dir: Direction, color: Player, p: Position)
    requires dir != Zero && p in Walk(s, cur, dir, color)
    ensures IsInside(p) && (s.IsEmpty(p) || s.At(p).value.Color != color)
  {
    WalkBlocked(s, cur, dir, color);
    var r := Walk(s, cur, dir, color);
    var k :| 0 <= k < |r| && r[k] == p;
    if k < |r| - 1 {
      assert s.IsEmpty(r[k]);
    }
  }

  /** MovePositionsInDir on a Board object: the loop that advances `pos += dir`. */
  method MovePositionsInDir(from: Position, b: Board, dir: Direction, color: Player) returns (r: seq<Position>)
    requires b.Valid() && dir != Zero
    ensures r == Walk(b.Value(), from, dir, color)
  {
    ghost var s := b.Value();
    r := [];
    var pos := from.Plus(dir);
    ghost var prev := from;
    while IsInside(pos)
      invariant pos == prev.Plus(dir)
      invariant r + Walk(s, prev, dir, color) == Walk(s, from, dir, color)
      decreases Room(prev, dir)
    {
      var piece := b.Get(pos);
      if piece.None? {
        assert Walk(s, prev, dir, color) == [pos] + Walk(s, pos, dir, color);
        assert (r + [pos]) + Walk(s, pos, dir, color) == r + ([pos] + Walk(s, pos, dir, color));
        r := r + [pos];
        prev, pos := pos, pos.Plus(dir);
        continue;
      }
      if piece.value.Color != color {
        assert Walk(s, prev, dir, color) == [pos];
        r := r + [pos];
      } else {
        assert Walk(s, prev, dir, color) == [];
        assert r + [] == r;
      }
      return;
    }
    assert Walk(s, prev, dir, color) == [];
    assert r + [] == r;
  }

  /** MovePositionsInDirs: the walks in each direction, concatenated in the order of `dirs`. */
  function MovePositionsInDirs(s: Snapshot, from: Position, dirs: seq<Direction>, color: Player): (r: seq<Position>)
    requires forall i :: 0 <= i < |dirs| ==> dirs[i] != Zero
  {
    if dirs == [] then [] else Walk(s, from, dirs[0], color) + MovePositionsInDirs(s, from, dirs[1..], color)
  }

  /** A square is produced by MovePositionsInDirs iff it is produced by the walk in one of the directions. */
  lemma {:induction false} MovePositionsInDirsMembers(s: Snapshot, from: Position, dirs: seq<Direction>, color: Player)
    requires forall i :: 0 <= i < |dirs| ==> dirs[i] != Zero
    ensures forall p :: p in MovePositionsInDirs(s, from, dirs, color) <==>
      exists i :: 0 <= i < |dirs| && p in Walk(s, from, dirs[i], color)
  {
    if dirs != [] {
      MovePositionsInDirsMembers(s, from, dirs[1..], color);
      forall p ensures p in MovePositionsInDirs(s, from, dirs, color) <==>
        exists i :: 0 <= i < |dirs| && p in Walk(s, from, dirs[i], color)
      {
        if p in MovePositionsInDirs(s, from, dirs[1..], color) {
          var i :| 0 <= i < |dirs[1..]| && p in Walk(s, from, dirs[1..][i], color);
          assert dirs[1..][i] == dirs[i + 1];
        }
        if exists i :: 0 <= i < |dirs| && p in Walk(s, from, dirs[i], color) {
          var i :| 0 <= i < |dirs| && p in Walk(s, from, dirs[i], color);
          if i > 0 {
            assert dirs[1..][i - 1] == dirs[i];
          }
        }
      }
    }
  }

  /** Whether a square on the board holds a king (of either colour). */
  predicate HoldsKing(s: Snapshot, p: Position) {
    IsInside(p) && s.At(p).Some? && s.At(p).value.Type == King
  }

  /** The test of the default CanCaptureOpponentKing: the move ends on a king's square. */
  function TakesKing(s: Snapshot): Move -> bool {
    (m: Move) => HoldsKing(s, m.ToPos)
  }

  /** The default CanCaptureOpponentKing: the `Any` over the generated moves. */
  predicate AnyMoveTakesKing(s: Snapshot, moves: seq<Move>) {
    Any(moves, TakesKing(s))
  }

  /** The default CanCaptureOpponentKing holds iff some generated move ends on a king's square. */
  lemma AnyMoveTakesKingIff(s: Snapshot, moves: seq<Move>)
    ensures AnyMoveTakesKing(s, moves) <==> exists i :: 0 <= i < |moves| && HoldsKing(s, moves[i].ToPos)
  {
    AnyIff(moves, TakesKing(s));
  }
}
