/**
 * The small types the rules engine uses whose sources are not part of this model:
 * Player, Position, PieceType, the piece value, Counting and the game Result.
 * Only the behaviour their call sites rely on is given.
 */
module Basics {
  import opened Directions

  datatype Option<T> = None | Some(value: T)

  /** LINQ's `xs.Any(f)`: some element satisfies `f`, tried from left to right. */
  predicate Any<T>(xs: seq<T>, f: T -> bool) {
    if xs == [] then false else f(xs[0]) || Any(xs[1..], f)
  }

  /** `Any` holds iff some element satisfies the predicate. */
  lemma {:induction false} AnyIff<T>(xs: seq<T>, f: T -> bool)
    ensures Any(xs, f) <==> exists i :: 0 <= i < |xs| && f(xs[i])
  {
    if xs != [] {
      AnyIff(xs[1..], f);
      if exists i :: 0 <= i < |xs| && f(xs[i]) {
        var i :| 0 <= i < |xs| && f(xs[i]);
        if i > 0 {
          assert xs[1..][i - 1] == xs[i];
        }
      }
      if Any(xs[1..], f) {
        var i :| 0 <= i < |xs[1..]| && f(xs[1..][i]);
        assert xs[1..][i] == xs[i + 1];
      }
    }
  }

  /** `Any` holds iff some member of the sequence satisfies the predicate. */
  lemma AnyMember<T>(xs: seq<T>, f: T -> bool)
    ensures Any(xs, f) <==> exists x :: x in xs && f(x)
  {
    AnyIff(xs, f);
    if exists x :: x in xs && f(x) {
      var x :| x in xs && f(x);
      var i :| 0 <= i < |xs| && xs[i] == x;
    }
  }

  /** `Any` over two elements is their disjunction. */
  lemma AnyOfTwo<T>(xs: seq<T>, f: T -> bool)
    requires |xs| == 2
    ensures Any(xs, f) <==> f(xs[0]) || f(xs[1])
  {
    var tail := xs[1..];
    assert tail[0] == xs[1] && tail[1..] == [];
    assert Any(tail, f) == f(xs[1]);
  }

  /** LINQ's `xs.Where(f)`: the elements that satisfy `f`, in their order. */
  function Where<T>(xs: seq<T>, f: T -> bool): (r: seq<T>)
    ensures |r| <= |xs|
  {
    if xs == [] then []
    else Where(xs[..|xs| - 1], f) + (if f(xs[|xs| - 1]) then [xs[|xs| - 1]] else [])
  }

  /** An element is kept by `Where` iff it is in the sequence and satisfies the predicate. */
  lemma {:induction false} WhereMembers<T>(xs: seq<T>, f: T -> bool)
    ensures forall x :: x in Where(xs, f) <==> x in xs && f(x)
  {
    if xs != [] {
      var init := xs[..|xs| - 1];
      WhereMembers(init, f);
      assert xs == init + [xs[|xs| - 1]];
    }
  }

  /** LINQ's `xs.SelectMany(f)`: the sequences `f` gives for the elements, one after another. */
  function SelectMany<T, U>(xs: seq<T>, f: T -> seq<U>): seq<U> {
    if xs == [] then [] else SelectMany(xs[..|xs| - 1], f) + f(xs[|xs| - 1])
  }

  /** An element is produced by `SelectMany` iff `f` gives it for some element of the sequence. */
  lemma {:induction false} SelectManyMembers<T, U>(xs: seq<T>, f: T -> seq<U>)
    ensures forall y :: y in SelectMany(xs, f) <==> exists x :: x in xs && y in f(x)
  {
    if xs != [] {
      var init := xs[..|xs| - 1];
      SelectManyMembers(init, f);
      assert xs == init + [xs[|xs| - 1]];
      forall y | (exists x :: x in xs && y in f(x)) ensures y in SelectMany(xs, f) {
        var x :| x in xs && y in f(x);
        if x != xs[|xs| - 1] {
          assert x in init;
        }
      }
    }
  }

  datatype Player = White | Black {
    function Opponent(): (o: Player)
      ensures o != this
    {
      if this == White then Black else White
    }
  }

  /** A board coordinate; it is translated by a direction with `pos + dir`. */
  datatype Position = Position(Row: int, Column: int) {
    function Plus(d: Direction): Position {
      Position(Row + d.RowDelta, Column + d.ColumnDelta)
    }

    /** Colour of the square: light when Row + Column is even. */
    function SquareColor(): Player {
      if (Row + Column) % 2 == 0 then White else Black
    }
  }

  datatype PieceType = Pawn | Knight | Bishop | Rook | Queen | King

  /**
   * A piece has no identity beyond its square: its kind, colour, the "has moved" flag and,
   * which only pawns use, the forward direction that a board rotation swaps.
   */
  datatype Piece = Piece(Type: PieceType, Color: Player, HasMoved: bool, Forward: Direction) {
    /**
     * Piece.Copy. A king's copy is a new King of the same colour with HasMoved carried over;
     * the other kinds' Copy is not part of this model and copies every field.
     */
    function Copy(): (c: Piece)
      ensures c.Type == Type && c.Color == Color && c.HasMoved == HasMoved
    {
      if Type == King then NewPiece(King, Color).(HasMoved := HasMoved) else this
    }
  }

  /** The initial forward direction of a piece of the given colour. */
  function HomeForward(color: Player): Direction {
    if color == White then North else South
  }

  /** A freshly constructed piece: `HasMoved` starts out false. */
  function NewPiece(t: PieceType, color: Player): (p: Piece)
    ensures p.Type == t && p.Color == color && !p.HasMoved
  {
    Piece(t, color, false, HomeForward(color))
  }

  /** Piece tallies per colour and kind, and in all. */
  datatype Counting = Counting(white: map<PieceType, nat>, black: map<PieceType, nat>, TotalCount: nat) {
    function White(t: PieceType): nat {
      if t in white then white[t] else 0
    }

    function Black(t: PieceType): nat {
      if t in black then black[t] else 0
    }

    function Of(color: Player, t: PieceType): nat {
      if color == Player.White then White(t) else Black(t)
    }

    /** Records one more piece of the given colour and kind. */
    function Increment(color: Player, t: PieceType): (c: Counting)
      ensures c.TotalCount == TotalCount + 1
      ensures c.Of(color, t) == Of(color, t) + 1
      ensures forall col, u :: (col, u) != (color, t) ==> c.Of(col, u) == Of(col, u)
    {
      if color == Player.White then Counting(white[t := White(t) + 1], black, TotalCount + 1)
      else Counting(white, black[t := Black(t) + 1], TotalCount + 1)
    }
  }

  const NoPieces: Counting := Counting(map[], map[], 0)

  datatype EndReason = Checkmate | Stalemate | FiftyMoveRule | InsufficientMaterial | ThreefoldRepetition | Time

  datatype Result = Win(Winner: Player, Reason: EndReason) | Draw(Reason: EndReason)
}
