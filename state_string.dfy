/**
 * ChessLogic/StateString.cs: the position string used for threefold repetition. It is four fields
 * joined by single spaces: the piece placement (eight run-length coded rows joined by `|`), the
 * side to move, the castling rights and the en-passant square. The encoding functions here are
 * the specification; the class `StateString` builds the same text with the C# code's appends and
 * loops. Each field has a decoder, and the round trips are proved.
 */
module StateStrings {
  import opened Texts
  import opened Basics
  import opened Boards
  import opened Pieces
  import opened Legality

  // ---------------------------------------------------------------------------------------
  // Piece letters

  /** What a letter records about a piece: its kind and colour (not HasMoved, not the pawn direction). */
  datatype Mark = Mark(Type: PieceType, Color: Player)

  function MarkOf(p: Piece): Mark {
    Mark(p.Type, p.Color)
  }

  function LowerLetter(t: PieceType): char {
    match t
    case Pawn => 'p'
    case Knight => 'n'
    case Rook => 'r'
    case Bishop => 'b'
    case Queen => 'q'
    case King => 'k'
  }

  /** `char.ToUpper` on the six lower-case piece letters. */
  function ToUpper(c: char): char {
    if c == 'p' then 'P' else if c == 'n' then 'N' else if c == 'r' then 'R'
    else if c == 'b' then 'B' else if c == 'q' then 'Q' else if c == 'k' then 'K' else c
  }

  /** Reads a piece letter back; anything else is `None`. */
  function ParseLetter(c: char): Option<Mark> {
    if c == 'P' then Some(Mark(Pawn, White)) else if c == 'p' then Some(Mark(Pawn, Black))
    else if c == 'N' then Some(Mark(Knight, White)) else if c == 'n' then Some(Mark(Knight, Black))
    else if c == 'R' then Some(Mark(Rook, White)) else if c == 'r' then Some(Mark(Rook, Black))
    else if c == 'B' then Some(Mark(Bishop, White)) else if c == 'b' then Some(Mark(Bishop, Black))
    else if c == 'Q' then Some(Mark(Queen, White)) else if c == 'q' then Some(Mark(Queen, Black))
    else if c == 'K' then Some(Mark(King, White)) else if c == 'k' then Some(Mark(King, Black))
    else None
  }

  /** StateString.PieceChar: the letter of the kind, upper case for White and lower case for Black. */
  function PieceChar(p: Piece): (c: char)
    ensures ParseLetter(c) == Some(MarkOf(p))
    ensures c in "pnbrqkPNBRQK" && ('A' <= c <= 'Z' <==> p.Color == White)
  {
    LetterRoundTrip(p.Type);
    var c := LowerLetter(p.Type);
    if p.Color == White then ToUpper(c) else assert p.Color == Black; c
  }

  lemma LetterRoundTrip(t: PieceType)
    ensures ParseLetter(LowerLetter(t)) == Some(Mark(t, Black))
    ensures LowerLetter(t) in "pnbrqk" && 'a' <= LowerLetter(t) <= 'z'
    ensures ParseLetter(ToUpper(LowerLetter(t))) == Some(Mark(t, White))
    ensures ToUpper(LowerLetter(t)) in "PNBRQK" && 'A' <= ToUpper(LowerLetter(t)) <= 'Z'
  {
    match t
    case Pawn =>
    case Knight =>
    case Rook =>
    case Bishop =>
    case Queen =>
    case King =>
  }

  // ---------------------------------------------------------------------------------------
  // One row

  /**
   * The text AddRowData appends for `cells` when `empty` blank squares are pending: each piece's
   * letter, and for each run of blank squares the run's length.
   */
  function RowCode(cells: seq<Square>, empty: nat): string
    decreases |cells|
  {
    if cells == [] then Pending(empty)
    else if cells[0].None? then RowCode(cells[1..], empty + 1)
    else Pending(empty) + [PieceChar(cells[0].value)] + RowCode(cells[1..], 0)
  }

  function Blanks(n: nat): seq<Option<Mark>> {
    seq(n, _ => None)
  }

  /** What the squares look like in the text: a mark per piece, `None` per blank. */
  function Marks(cells: seq<Square>): (r: seq<Option<Mark>>)
    ensures |r| == |cells|
  {
    seq(|cells|, i requires 0 <= i < |cells| => if cells[i].None? then None else Some(MarkOf(cells[i].value)))
  }

  /** Reads a row code back: a digit stands for that many blanks, a letter for one piece. */
  function DecodeRow(code: string): seq<Option<Mark>> {
    if code == [] then []
    else
      var head := if IsDigit(code[0]) then Blanks(DigitValue(code[0]))
                  else if ParseLetter(code[0]).Some? then [ParseLetter(code[0])] else [];
      head + DecodeRow(code[1..])
  }

  lemma {:induction false} DecodeRowAppend(a: string, b: string)
    ensures DecodeRow(a + b) == DecodeRow(a) + DecodeRow(b)
  {
    if a != [] {
      assert (a + b)[0] == a[0] && (a + b)[1..] == a[1..] + b;
      DecodeRowAppend(a[1..], b);
    } else {
      assert a + b == b;
    }
  }

  /** A count of blank squares reads back as that many blanks. */
  lemma DecodeCount(n: nat)
    requires 1 <= n <= 9
    ensures DecodeRow(NatToString(n)) == Blanks(n)
  {
    assert NatToString(n) == [Digit(n)];
    assert DecodeRow([Digit(n)]) == Blanks(n) + DecodeRow([]);
  }

  /** A piece letter reads back as the piece's mark. */
  lemma DecodeLetter(p: Piece)
    ensures DecodeRow([PieceChar(p)]) == [Some(MarkOf(p))]
  {
    assert DecodeRow([PieceChar(p)]) == [Some(MarkOf(p))] + DecodeRow([]);
  }

  /** The code of the pending blanks, and how it reads back. */
  function Pending(empty: nat): string {
    if empty > 0 then NatToString(empty) else []
  }

  lemma DecodePending(empty: nat)
    requires empty <= 9
    ensures DecodeRow(Pending(empty)) == Blanks(empty)
  {
    if empty > 0 {
      DecodeCount(empty);
    }
  }

  /** Decoding a row code gives the pending blanks followed by the squares. */
  lemma {:induction false} RowCodeRoundTrip(cells: seq<Square>, empty: nat)
    requires empty + |cells| <= 9
    ensures DecodeRow(RowCode(cells, empty)) == Blanks(empty) + Marks(cells)
    decreases |cells|
  {
    if cells == [] {
      DecodePending(empty);
      assert RowCode(cells, empty) == Pending(empty);
    } else if cells[0].None? {
      RowCodeRoundTrip(cells[1..], empty + 1);
      BlankThenRest(cells, empty);
    } else {
      RowCodeRoundTrip(cells[1..], 0);
      RowCodePieceCase(cells, empty);
    }
  }

  lemma BlankThenRest(cells: seq<Square>, empty: nat)
    requires |cells| > 0 && cells[0].None?
    ensures Blanks(empty + 1) + Marks(cells[1..]) == Blanks(empty) + Marks(cells)
  {
  }

  lemma RowCodePieceCase(cells: seq<Square>, empty: nat)
    requires |cells| > 0 && cells[0].Some? && empty + |cells| <= 9
    requires DecodeRow(RowCode(cells[1..], 0)) == Marks(cells[1..])
    ensures DecodeRow(RowCode(cells, empty)) == Blanks(empty) + Marks(cells)
  {
    var pre := Pending(empty);
    var letter := PieceChar(cells[0].value);
    var rest := RowCode(cells[1..], 0);
    assert RowCode(cells, empty) == pre + [letter] + rest;
    DecodeRowAppend(pre + [letter], rest);
    DecodeRowAppend(pre, [letter]);
    DecodePending(empty);
    DecodeLetter(cells[0].value);
    MarksOfPiece(cells);
  }

  /** A row starting with a piece: its mark, then the marks of the rest. */
  lemma MarksOfPiece(cells: seq<Square>)
    requires |cells| > 0 && cells[0].Some?
    ensures Marks(cells) == [Some(MarkOf(cells[0].value))] + Marks(cells[1..])
  {
  }

  /** A character a row code may contain: a count 1..8 or a piece letter. */
  predicate RowChar(c: char) {
    ('1' <= c <= '8') || ParseLetter(c).Some?
  }

  /** The shape of a row code: counts 1..8 and letters, never two counts in a row. */
  predicate WellFormedRow(code: string) {
    (forall i :: 0 <= i < |code| ==> RowChar(code[i])) &&
    (forall i :: 0 <= i < |code| - 1 ==> !(IsDigit(code[i]) && IsDigit(code[i + 1])))
  }

  lemma WellFormedRowAppend(a: string, b: string)
    requires WellFormedRow(a) && WellFormedRow(b)
    requires a != [] && b != [] ==> !IsDigit(a[|a| - 1]) || !IsDigit(b[0])
    ensures WellFormedRow(a + b)
  {
    var ab := a + b;
    forall i | 0 <= i < |ab| - 1 ensures !(IsDigit(ab[i]) && IsDigit(ab[i + 1])) {
      if i < |a| - 1 {
        assert ab[i] == a[i] && ab[i + 1] == a[i + 1];
      } else if i == |a| - 1 {
        assert ab[i] == a[|a| - 1] && ab[i + 1] == b[0];
      } else {
        assert ab[i] == b[i - |a|] && ab[i + 1] == b[i - |a| + 1];
      }
    }
    assert forall i :: 0 <= i < |ab| ==> ab[i] == if i < |a| then a[i] else b[i - |a|];
  }

  /** AddRowData writes a well-formed row code. */
  lemma {:induction false} RowCodeWellFormed(cells: seq<Square>, empty: nat)
    requires empty + |cells| <= 8
    ensures WellFormedRow(RowCode(cells, empty))
    decreases |cells|
  {
    if cells == [] {
    } else if cells[0].None? {
      RowCodeWellFormed(cells[1..], empty + 1);
    } else {
      var pre := Pending(empty);
      var letter := PieceChar(cells[0].value);
      RowCodeWellFormed(cells[1..], 0);
      assert RowCode(cells, empty) == pre + [letter] + RowCode(cells[1..], 0);
      assert WellFormedRow([letter]);
      WellFormedRowAppend(pre, [letter]);
      WellFormedRowAppend(pre + [letter], RowCode(cells[1..], 0));
    }
  }

  /**
   * A row of eight squares codes to a well-formed text that accounts for exactly eight squares and
   * decodes to the row's kinds and colours.
   */
  lemma RowCodeFacts(cells: seq<Square>)
    requires |cells| == 8
    ensures WellFormedRow(RowCode(cells, 0))
    ensures DecodeRow(RowCode(cells, 0)) == Marks(cells) && |DecodeRow(RowCode(cells, 0))| == 8
  {
    RowCodeWellFormed(cells, 0);
    RowCodeRoundTrip(cells, 0);
    assert Blanks(0) + Marks(cells) == Marks(cells);
  }

  // ---------------------------------------------------------------------------------------
  // The placement field

  /** The first `n` row codes joined by `|`, as AddPiecePlacement writes them. */
  function PlacementUpTo(g: Grid, n: nat): string
    requires n <= 8
  {
    if n == 0 then []
    else if n == 1 then RowCode(g[0], 0)
    else PlacementUpTo(g, n - 1) + "|" + RowCode(g[n - 1], 0)
  }

  function Placement(s: Snapshot): string {
    PlacementUpTo(s.grid, 8)
  }

  /** Reads the placement back: split at `|`, decode each row. */
  function DecodePlacement(text: string): seq<seq<Option<Mark>>> {
    var rows := Segments(text, '|');
    seq(|rows|, i requires 0 <= i < |rows| => DecodeRow(rows[i]))
  }

  lemma NoBarInRow(cells: seq<Square>)
    requires |cells| == 8
    ensures '|' !in RowCode(cells, 0) && ' ' !in RowCode(cells, 0)
  {
    RowCodeWellFormed(cells, 0);
    var code := RowCode(cells, 0);
    assert !RowChar('|') && !RowChar(' ');
    forall i | 0 <= i < |code|
      ensures code[i] != '|' && code[i] != ' '
    {
      assert RowChar(code[i]);
    }
  }

  /** The placement splits at `|` into exactly the row codes. */
  lemma {:induction false} PlacementSegments(g: Grid, n: nat)
    requires 1 <= n <= 8
    ensures Segments(PlacementUpTo(g, n), '|') == seq(n, i requires 0 <= i < n => RowCode(g[i], 0))
  {
    NoBarInRow(g[n - 1]);
    if n == 1 {
      SegmentsOfPlain(RowCode(g[0], 0), '|');
    } else {
      PlacementSegments(g, n - 1);
      SegmentsAppend(PlacementUpTo(g, n - 1), '|', RowCode(g[n - 1], 0));
    }
  }

  /** Row-code characters and `|` only. */
  predicate PlacementText(text: string) {
    forall i :: 0 <= i < |text| ==> text[i] == '|' || RowChar(text[i])
  }

  /** The placement holds row-code characters and `|` only; in particular no space. */
  lemma {:induction false} PlacementChars(g: Grid, n: nat)
    requires n <= 8
    ensures PlacementText(PlacementUpTo(g, n))
  {
    if n > 0 {
      RowCodeFacts(g[n - 1]);
      var b := RowCode(g[n - 1], 0);
      if n > 1 {
        PlacementChars(g, n - 1);
        BarJoinText(PlacementUpTo(g, n - 1), b);
      }
    }
  }

  /** Joining two such texts with `|` gives such a text. */
  lemma BarJoinText(a: string, b: string)
    requires PlacementText(a) && forall i :: 0 <= i < |b| ==> RowChar(b[i])
    ensures PlacementText(a + "|" + b)
  {
    var t := a + "|" + b;
    forall i | 0 <= i < |t| ensures t[i] == '|' || RowChar(t[i]) {
      if i < |a| {
        assert t[i] == a[i];
      } else if i > |a| {
        assert t[i] == b[i - |a| - 1];
      }
    }
  }

  /**
   * The placement field is eight row codes joined by seven `|`, and it decodes to the kinds and
   * colours of the board, row by row.
   */
  lemma PlacementRoundTrip(s: Snapshot)
    ensures |Segments(Placement(s), '|')| == 8
    ensures forall i :: 0 <= i < 8 ==> Segments(Placement(s), '|')[i] == RowCode(s.grid[i], 0)
    ensures DecodePlacement(Placement(s)) == seq(8, i requires 0 <= i < 8 => Marks(s.grid[i]))
    ensures ' ' !in Placement(s)
  {
    PlacementSegments(s.grid, 8);
    PlacementNoSpace(s);
    forall i | 0 <= i < 8 ensures DecodeRow(RowCode(s.grid[i], 0)) == Marks(s.grid[i]) {
      RowCodeFacts(s.grid[i]);
    }
  }

  // ---------------------------------------------------------------------------------------
  // The placement of the rotated board

  /** A row as Board.Rotate leaves it: the squares in reverse order, pawns with their direction swapped. */
  function RotateRowValue(cells: seq<Square>): (r: seq<Square>)
    ensures |r| == |cells| && forall j :: 0 <= j < |cells| ==> r[j] == Flip(cells[|cells| - 1 - j])
  {
    seq(|cells|, j requires 0 <= j < |cells| => Flip(cells[|cells| - 1 - j]))
  }

  /** Blank squares only: their number is pending at the end. */
  lemma {:induction false} RowCodeBlanks(cells: seq<Square>, empty: nat)
    requires forall j :: 0 <= j < |cells| ==> cells[j].None?
    ensures RowCode(cells, empty) == Pending(empty + |cells|)
    decreases |cells|
  {
    if cells != [] {
      RowCodeBlanks(cells[1..], empty + 1);
    }
  }

  /** A piece splits the code: the code before it, its letter, then the code after it with nothing pending. */
  lemma {:induction false} RowCodeSplit(a: seq<Square>, x: Piece, b: seq<Square>, empty: nat)
    ensures RowCode(a + [Some(x)] + b, empty) == RowCode(a, empty) + [PieceChar(x)] + RowCode(b, 0)
    decreases |a|
  {
    var cells := a + [Some(x)] + b;
    var c := PieceChar(x);
    if a == [] {
      assert cells[0] == Some(x) && cells[1..] == b;
      assert RowCode(cells, empty) == Pending(empty) + [c] + RowCode(b, 0);
      assert RowCode(a, empty) == Pending(empty);
    } else {
      var tail := a[1..] + [Some(x)] + b;
      assert cells[0] == a[0] && cells[1..] == tail;
      if a[0].None? {
        RowCodeSplit(a[1..], x, b, empty + 1);
        assert RowCode(cells, empty) == RowCode(tail, empty + 1);
        assert RowCode(a, empty) == RowCode(a[1..], empty + 1);
      } else {
        RowCodeSplit(a[1..], x, b, 0);
        var front := Pending(empty) + [PieceChar(a[0].value)];
        assert RowCode(cells, empty) == front + RowCode(tail, 0);
        assert RowCode(a, empty) == front + RowCode(a[1..], 0);
        assert RowCode(tail, 0) == RowCode(a[1..], 0) + [c] + RowCode(b, 0);
        RegroupFront(front, RowCode(a[1..], 0), [c], RowCode(b, 0));
      }
    }
  }

  lemma RegroupFront(w: string, x: string, y: string, z: string)
    ensures w + (x + y + z) == w + x + y + z
  {
  }

  /** A count of at most nine is one digit, which reads the same backwards. */
  lemma PendingReverse(n: nat)
    requires n <= 9
    ensures Reverse(Pending(n)) == Pending(n)
  {
  }

  /** The code of a rotated row is the row's code reversed. */
  lemma {:induction false} RowCodeRotated(cells: seq<Square>)
    requires |cells| <= 9
    ensures RowCode(RotateRowValue(cells), 0) == Reverse(RowCode(cells, 0))
    decreases |cells|
  {
    if forall j :: 0 <= j < |cells| ==> cells[j].None? {
      RowCodeBlanks(cells, 0);
      RowCodeBlanks(RotateRowValue(cells), 0);
      PendingReverse(|cells|);
    } else {
      var i :| 0 <= i < |cells| && cells[i].Some?;
      var a := cells[..i];
      var x := cells[i].value;
      var b := cells[i + 1..];
      assert cells == a + [Some(x)] + b;
      var fx := Flip(Some(x)).value;
      assert PieceChar(fx) == PieceChar(x);
      RotateRowAround(a, x, b);
      RowCodeSplit(a, x, b, 0);
      RowCodeSplit(RotateRowValue(b), fx, RotateRowValue(a), 0);
      RowCodeRotated(a);
      RowCodeRotated(b);
      ReverseAround(RowCode(a, 0), PieceChar(x), RowCode(b, 0));
      calc {
        RowCode(RotateRowValue(cells), 0);
        RowCode(RotateRowValue(b) + [Some(fx)] + RotateRowValue(a), 0);
        RowCode(RotateRowValue(b), 0) + [PieceChar(x)] + RowCode(RotateRowValue(a), 0);
        Reverse(RowCode(b, 0)) + [PieceChar(x)] + Reverse(RowCode(a, 0));
        Reverse(RowCode(a, 0) + [PieceChar(x)] + RowCode(b, 0));
        Reverse(RowCode(cells, 0));
      }
    }
  }

  /** Rotating a row around a piece: the rotated tail, the flipped piece, the rotated head. */
  lemma RotateRowAround(a: seq<Square>, x: Piece, b: seq<Square>)
    ensures RotateRowValue(a + [Some(x)] + b) == RotateRowValue(b) + [Flip(Some(x))] + RotateRowValue(a)
  {
  }

  /** The codes of the first `n` rows. */
  function RowCodes(g: Grid, n: nat): (r: seq<string>)
    requires n <= 8
    ensures |r| == n && forall i :: 0 <= i < n ==> r[i] == RowCode(g[i], 0)
  {
    seq(n, i requires 0 <= i < n => RowCode(g[i], 0))
  }

  /** The placement is the row codes joined by `|`. */
  lemma {:induction false} PlacementIsJoin(g: Grid, n: nat)
    requires n <= 8
    ensures PlacementUpTo(g, n) == Join(RowCodes(g, n), '|')
  {
    if n >= 2 {
      PlacementIsJoin(g, n - 1);
      assert RowCodes(g, n)[..n - 1] == RowCodes(g, n - 1);
    }
  }

  /**
   * The placement of the rotated board is the placement of the board, reversed: on this field,
   * RotateStateString agrees with Board.Rotate.
   */
  lemma RotatedPlacement(s: Snapshot)
    ensures Placement(RotateSnapshot(s)) == Reverse(Placement(s))
  {
    PlacementIsJoin(s.grid, 8);
    PlacementIsJoin(RotateSnapshot(s).grid, 8);
    ReverseJoin(RowCodes(s.grid, 8), '|');
    RotatedRowCodes(s);
  }

  /** The row codes of the rotated board are the board's row codes, reversed and in reverse order. */
  lemma RotatedRowCodes(s: Snapshot)
    ensures RowCodes(RotateSnapshot(s).grid, 8) == ReverseParts(RowCodes(s.grid, 8))
  {
    var r := RowCodes(RotateSnapshot(s).grid, 8);
    var q := ReverseParts(RowCodes(s.grid, 8));
    forall i | 0 <= i < 8 ensures r[i] == q[i] {
      RotatedRowCode(s, i);
    }
  }

  /** Row `i` of the rotated board codes to the reversed code of row `7 - i`. */
  lemma RotatedRowCode(s: Snapshot, i: int)
    requires 0 <= i < 8
    ensures RowCode(RotateSnapshot(s).grid[i], 0) == Reverse(RowCode(s.grid[7 - i], 0))
  {
    assert RotateSnapshot(s).grid[i] == RotateRowValue(s.grid[7 - i]);
    RowCodeRotated(s.grid[7 - i]);
  }

  // ---------------------------------------------------------------------------------------
  // Side, castling and en-passant fields

  /** AddCurrentPlayer. */
  function SideChar(player: Player): (c: char)
    ensures c == 'w' || c == 'b'
    ensures (c == 'w') <==> player == White
  {
    if player == White then 'w' else 'b'
  }

  /** One right's letter: the letter when the right holds, nothing otherwise. */
  function Letter(held: bool, c: char): (r: string)
    ensures |r| <= 1 && (c in r <==> held)
  {
    if held then [c] else ""
  }

  /** AddCastlingRights on the four rights, in the order white king side, white queen side, black king side, black queen side. */
  function CastlingField(wks: bool, wqs: bool, bks: bool, bqs: bool): string {
    if !(wks || wqs || bks || bqs) then "-"
    else Letter(wks, 'K') + Letter(wqs, 'Q') + Letter(bks, 'k') + Letter(bqs, 'q')
  }

  /** Reads the castling field back: which of the four letters it holds. */
  function ParseCastling(f: string): (bool, bool, bool, bool) {
    ('K' in f, 'Q' in f, 'k' in f, 'q' in f)
  }

  /** Where a castling letter stands in `KQkq`. */
  function CastlingRank(c: char): int {
    if c == 'K' then 0 else if c == 'Q' then 1 else if c == 'k' then 2 else 3
  }

  /** The castling field is `-` exactly when no right holds; it holds no space. */
  lemma CastlingFieldDash(wks: bool, wqs: bool, bks: bool, bqs: bool)
    ensures CastlingField(wks, wqs, bks, bqs) == "-" <==> !(wks || wqs || bks || bqs)
    ensures ' ' !in CastlingField(wks, wqs, bks, bqs)
  {
    if wks || wqs || bks || bqs {
      assert '-' !in CastlingField(wks, wqs, bks, bqs);
    }
  }

  /** Reading the field back gives the four rights. */
  lemma CastlingFieldParse(wks: bool, wqs: bool, bks: bool, bqs: bool)
    ensures ParseCastling(CastlingField(wks, wqs, bks, bqs)) == (wks, wqs, bks, bqs)
  {
  }

  /** Apart from `-`, the field is made of the letters of `KQkq`. */
  lemma CastlingFieldLetters(wks: bool, wqs: bool, bks: bool, bqs: bool)
    ensures var f := CastlingField(wks, wqs, bks, bqs);
      f != "-" ==> forall i :: 0 <= i < |f| ==> f[i] in "KQkq"
  {
    var f := CastlingField(wks, wqs, bks, bqs);
    forall i | 0 <= i < |f| && f != "-" ensures f[i] in "KQkq" {
      assert f[i] in f;
    }
  }

  /** The letters of `f` stand in strictly increasing `KQkq` order. */
  predicate RanksIncrease(f: string) {
    forall i :: 0 <= i < |f| - 1 ==> CastlingRank(f[i]) < CastlingRank(f[i + 1])
  }

  /** No letter of `f` stands after rank `r` in `KQkq`. */
  predicate RanksAtMost(f: string, r: int) {
    forall i :: 0 <= i < |f| ==> CastlingRank(f[i]) <= r
  }

  /** Appending the letter of a right keeps the order when every letter before it ranks lower. */
  lemma AppendLetter(x: string, held: bool, c: char)
    requires RanksIncrease(x) && RanksAtMost(x, CastlingRank(c) - 1)
    ensures RanksIncrease(x + Letter(held, c)) && RanksAtMost(x + Letter(held, c), CastlingRank(c))
  {
  }

  /** Apart from `-`, the letters stand in the order of `KQkq`, each at most once. */
  lemma CastlingFieldOrder(wks: bool, wqs: bool, bks: bool, bqs: bool)
    ensures var f := CastlingField(wks, wqs, bks, bqs);
      f != "-" ==> forall i :: 0 <= i < |f| - 1 ==> CastlingRank(f[i]) < CastlingRank(f[i + 1])
  {
    var f := CastlingField(wks, wqs, bks, bqs);
    if f != "-" {
      var k, kq, kqk := Letter(wks, 'K'), Letter(wks, 'K') + Letter(wqs, 'Q'),
                        Letter(wks, 'K') + Letter(wqs, 'Q') + Letter(bks, 'k');
      AppendLetter("", wks, 'K');
      assert "" + k == k;
      AppendLetter(k, wqs, 'Q');
      AppendLetter(kq, bks, 'k');
      AppendLetter(kqk, bqs, 'q');
      assert RanksIncrease(f);
    }
  }

  /** The castling field of a board, with the rights it reports for its own layout. */
  function CastlingRights(s: Snapshot): string {
    CastlingField(CastleRightKS(s, White, s.isRotated), CastleRightQS(s, White, s.isRotated),
                  CastleRightKS(s, Black, s.isRotated), CastleRightQS(s, Black, s.isRotated))
  }

  /** The en-passant digits of a square: `8-col` then `8-row`. */
  function SquareDigits(p: Position): string {
    IntToString(8 - p.Column) + IntToString(8 - p.Row)
  }

  /** Reads the two en-passant digits back into a square. */
  function ParseSquare(f: string): Position
    requires |f| == 2
  {
    Position(8 - DigitValue(f[1]), 8 - DigitValue(f[0]))
  }

  /** On the board, the digits are two characters in `1..8`, and they read back to the square. */
  lemma SquareDigitsRoundTrip(p: Position)
    requires IsInside(p)
    ensures var f := SquareDigits(p);
      |f| == 2 && '1' <= f[0] <= '8' && '1' <= f[1] <= '8' && ParseSquare(f) == p
  {
  }

  /** AddEnPassant: `-` unless en passant is available to the side to move, else the opponent's skip square. */
  function EnPassantField(s: Snapshot, player: Player, others: PieceMoves): string {
    EnPassantText(CanCaptureEnPassant(s, player, s.isRotated, others), s.Skip(player.Opponent()))
  }
  function EnPassantText(available: bool, skip: Option<Position>): string {
    if !available || skip.None? then "-" else SquareDigits(skip.value)
  }

  /**
   * The en-passant field is `-` exactly when en passant is not available; otherwise it is two
   * digits in `1..8` that read back to the opponent's skip square.
   */
  lemma EnPassantFieldFacts(s: Snapshot, player: Player, others: PieceMoves)
    ensures var f := EnPassantField(s, player, others);
      (f == "-" <==> !CanCaptureEnPassant(s, player, s.isRotated, others)) &&
      (f != "-" ==> |f| == 2 && '1' <= f[0] <= '8' && '1' <= f[1] <= '8' &&
                    ParseSquare(f) == s.Skip(player.Opponent()).value)
  {
    if CanCaptureEnPassant(s, player, s.isRotated, others) {
      CanCaptureEnPassantInside(s, player, s.isRotated, others);
      SquareDigitsRoundTrip(s.Skip(player.Opponent()).value);
    }
  }

  /** The whole string: placement, side, castling and en passant, joined by single spaces. */
  function Encode(s: Snapshot, player: Player, others: PieceMoves): string {
    Placement(s) + " " + [SideChar(player)] + " " + CastlingRights(s) + " " + EnPassantField(s, player, others)
  }
  /** The side and castling fields with the space between them: what RotateStateString keeps. */
  function Middle(s: Snapshot, player: Player): string {
    [SideChar(player)] + " " + CastlingRights(s)
  }

  /** The four fields of the whole string; the two outer ones hold no space. */
  lemma EncodeFields(s: Snapshot, player: Player, others: PieceMoves)
    ensures var p := Placement(s); var ep := EnPassantField(s, player, others);
      Encode(s, player, others) == p + " " + Middle(s, player) + " " + ep &&
      ' ' !in p && ' ' !in ep
  {
    PlacementNoSpace(s);
    EnPassantTextNoSpace(CanCaptureEnPassant(s, player, s.isRotated, others), s.Skip(player.Opponent()));
    Regroup(Placement(s), SideChar(player), CastlingRights(s), EnPassantField(s, player, others));
  }

  /** The middle two fields, with the space between them, as one part. */
  lemma Regroup(p: string, side: char, castling: string, ep: string)
    ensures p + " " + [side] + " " + castling + " " + ep == p + " " + ([side] + " " + castling) + " " + ep
  {
  }

  /** The en-passant text is `-` or the rendering of two integers, so it holds no space. */
  lemma EnPassantTextNoSpace(available: bool, skip: Option<Position>)
    ensures ' ' !in EnPassantText(available, skip)
  {
    if available && skip.Some? {
      var p := skip.value;
      var a := IntToString(8 - p.Column);
      var b := IntToString(8 - p.Row);
      IntToStringNoSpace(8 - p.Column);
      IntToStringNoSpace(8 - p.Row);
      assert EnPassantText(available, skip) == a + b;
    }
  }

  /** The placement field holds no space. */
  lemma PlacementNoSpace(s: Snapshot)
    ensures ' ' !in Placement(s)
  {
    var p := Placement(s);
    PlacementChars(s.grid, 8);
    assert !RowChar(' ');
    forall i | 0 <= i < |p| ensures p[i] != ' ' {
      assert p[i] == '|' || RowChar(p[i]);
    }
  }

  // ---------------------------------------------------------------------------------------
  // Rotating the text

  /** One en-passant digit as RotateStateString converts it: `|d - 8|`, rendered as an integer. */
  function ConvertDigit(c: char): string {
    IntToString(Abs(DigitValue(c) - 8))
  }

  /** The en-passant field after RotateStateString: `-` is kept, otherwise its first two digits are converted. */
  function ConvertEnPassant(ep: string): string
    requires ep == "-" || |ep| >= 2
  {
    if ep == "-" then ep else ConvertDigit(ep[0]) + ConvertDigit(ep[1])
  }

  /**
   * StateString.RotateStateString: the text between the first and the last space is kept, and
   * the rest is read from the reversed string (RotateReversed). `None` where the C# code throws:
   * with fewer than two spaces one of the Substring calls gets a negative length.
   */
  function RotateStateString(text: string): Option<string> {
    var first := IndexOf(text, ' ');
    var last := LastIndexOf(text, ' ');
    if first >= last then None
    else
      ReverseMembers(text, ' ');
      RotateReversed(text[first + 1 .. last], Reverse(text))
  }

  /**
   * The second half of RotateStateString, on the reversed string: the part after its last space
   * (the reversed placement) comes first, then the kept middle, then the en-passant field read back
   * from before its first space, with its digits converted. `None` where the C# code throws: an
   * en-passant field other than `-` needs two characters.
   */
  function RotateReversed(playerAndCastling: string, reversed: string): Option<string>
    requires ' ' in reversed
  {
    var firstSpace := IndexOf(reversed, ' ');
    var lastSpace := LastIndexOf(reversed, ' ');
    var reversedPlacement := reversed[lastSpace + 1 ..];
    var enPassant := Reverse(reversed[..firstSpace]);
    if enPassant != "-" && |enPassant| < 2 then None
    else Some(reversedPlacement + " " + playerAndCastling + " " + ConvertEnPassant(enPassant))
  }

  /**
   * On a text made of a first field and a last field without spaces around a middle part,
   * rotation reverses the first field, keeps the middle (spaces and all) and converts the last.
   */
  lemma RotateFields(p: string, mid: string, ep: string)
    requires ' ' !in p && ' ' !in ep
    ensures RotateStateString(p + " " + mid + " " + ep) ==
      if ep != "-" && |ep| < 2 then None else Some(Reverse(p) + " " + mid + " " + ConvertEnPassant(ep))
  {
    var t := p + " " + mid + " " + ep;
    RotateCutsMiddle(p, mid, ep);
    ReverseFields(p, mid, ep);
    ReverseMembers(ep, ' ');
    ReverseMembers(p, ' ');
    RotateReversedFields(mid, Reverse(ep), Reverse(mid), Reverse(p));
    ReverseReverse(ep);
  }

  /** On such a text, RotateStateString keeps the middle and reads the rest from the reversed text. */
  lemma RotateCutsMiddle(p: string, mid: string, ep: string)
    requires ' ' !in p && ' ' !in ep
    ensures ' ' in Reverse(p + " " + mid + " " + ep)
    ensures RotateStateString(p + " " + mid + " " + ep) == RotateReversed(mid, Reverse(p + " " + mid + " " + ep))
  {
    var t := p + " " + mid + " " + ep;
    OuterSpaces(p, mid, ep);
    var first, last := IndexOf(t, ' '), LastIndexOf(t, ' ');
    assert first < last;
    RotateCuts(t);
    assert t[first + 1 .. last] == mid;
  }

  /** With two distinct outer spaces, RotateStateString is RotateReversed of the text between them. */
  lemma RotateCuts(text: string)
    requires IndexOf(text, ' ') < LastIndexOf(text, ' ')
    ensures ' ' in Reverse(text)
    ensures RotateStateString(text) ==
      RotateReversed(text[IndexOf(text, ' ') + 1 .. LastIndexOf(text, ' ')], Reverse(text))
  {
    ReverseMembers(text, ' ');
  }

  /** RotateReversed on a text whose first and last fields have no space. */
  lemma RotateReversedFields(kept: string, e: string, m: string, q: string)
    requires ' ' !in e && ' ' !in q
    ensures ' ' in e + " " + m + " " + q
    ensures var ep := Reverse(e);
      RotateReversed(kept, e + " " + m + " " + q) ==
      if ep != "-" && |ep| < 2 then None else Some(q + " " + kept + " " + ConvertEnPassant(ep))
  {
    var r := e + " " + m + " " + q;
    OuterSpaces(e, m, q);
    assert r[|e|] == ' ';
    assert r[|e| + 1 + |m| + 1 ..] == q;
    assert r[..|e|] == e;
  }

  /** In `p + " " + mid + " " + ep` with no space in `p` or `ep`, the first and last spaces enclose `mid`. */
  lemma OuterSpaces(p: string, mid: string, ep: string)
    requires ' ' !in p && ' ' !in ep
    ensures var t := p + " " + mid + " " + ep;
      IndexOf(t, ' ') == |p| && LastIndexOf(t, ' ') == |p| + 1 + |mid| && t[|p| + 1 .. |p| + 1 + |mid|] == mid
  {
    FirstSpace(p, mid + " " + ep);
    assert p + " " + mid + " " + ep == p + " " + (mid + " " + ep);
    LastSpace(p + " " + mid, ep);
    var t := p + " " + mid + " " + ep;
    assert t[|p| + 1 .. |p| + 1 + |mid|] == mid;
  }

  /** The first space of `p + " " + rest`, where `p` has none, follows `p`. */
  lemma FirstSpace(p: string, rest: string)
    requires ' ' !in p
    ensures IndexOf(p + " " + rest, ' ') == |p|
  {
    var t := p + " " + rest;
    assert forall k :: 0 <= k < |p| ==> t[k] == p[k];
    IndexOfAt(t, ' ', |p|);
  }

  /** The last space of `front + " " + ep`, where `ep` has none, precedes `ep`. */
  lemma LastSpace(front: string, ep: string)
    requires ' ' !in ep
    ensures LastIndexOf(front + " " + ep, ' ') == |front|
  {
    var a := front + " ";
    var t := a + ep;
    assert t[|front|] == a[|front|] == ' ';
    forall k | |front| < k < |t| ensures t[k] != ' ' {
      assert t[k] == ep[k - |a|];
    }
    LastIndexOfAt(t, ' ', |front|);
  }

  /** Reversing the four-part text reverses each part and their order. */
  lemma ReverseFields(p: string, mid: string, ep: string)
    ensures Reverse(p + " " + mid + " " + ep) == Reverse(ep) + " " + Reverse(mid) + " " + Reverse(p)
  {
    ReverseAround(p, ' ', mid);
    ReverseAround(p + " " + mid, ' ', ep);
  }

  /** An en-passant field as the position string writes it: `-` or two digits. */
  predicate EnPassantShape(ep: string) {
    ep == "-" || (|ep| == 2 && '0' <= ep[0] <= '8' && '0' <= ep[1] <= '8')
  }

  /** Converting a digit `d` in `0..8` gives the single digit `8 - d`. */
  lemma ConvertDigitValue(c: char)
    requires '0' <= c <= '8'
    ensures ConvertDigit(c) == [Digit(8 - DigitValue(c))]
  {
  }

  /** Converting keeps the shape of an en-passant field, and converting twice gives it back. */
  lemma ConvertEnPassantTwice(ep: string)
    requires EnPassantShape(ep)
    ensures EnPassantShape(ConvertEnPassant(ep)) && ' ' !in ConvertEnPassant(ep)
    ensures ConvertEnPassant(ConvertEnPassant(ep)) == ep
  {
    if ep != "-" {
      ConvertDigitValue(ep[0]);
      ConvertDigitValue(ep[1]);
      var c := ConvertEnPassant(ep);
      assert c == [Digit(8 - DigitValue(ep[0])), Digit(8 - DigitValue(ep[1]))];
      ConvertDigitValue(c[0]);
      ConvertDigitValue(c[1]);
    }
  }

  /** On a text of that shape, rotating twice gives the text back. */
  lemma RotateTwiceFields(p: string, mid: string, ep: string)
    requires ' ' !in p && ' ' !in ep && EnPassantShape(ep)
    ensures RotateStateString(p + " " + mid + " " + ep).Some?
    ensures RotateStateString(RotateStateString(p + " " + mid + " " + ep).value) == Some(p + " " + mid + " " + ep)
  {
    RotateFields(p, mid, ep);
    ConvertEnPassantTwice(ep);
    ReverseMembers(p, ' ');
    RotateFields(Reverse(p), mid, ConvertEnPassant(ep));
    ReverseReverse(p);
  }

  /**
   * Rotating a position string reverses the placement, keeps the side and castling fields and
   * converts the en-passant digits; rotating the result again gives the string back.
   */
  lemma RotateEncoded(s: Snapshot, player: Player, others: PieceMoves)
    ensures var ep := EnPassantField(s, player, others);
      EnPassantShape(ep) &&
      RotateStateString(Encode(s, player, others)) ==
        Some(Reverse(Placement(s)) + " " + Middle(s, player) + " " + ConvertEnPassant(ep)) &&
      RotateStateString(RotateStateString(Encode(s, player, others)).value) == Some(Encode(s, player, others))
  {
    EncodeFields(s, player, others);
    EnPassantFieldFacts(s, player, others);
    var p := Placement(s);
    var ep := EnPassantField(s, player, others);
    assert EnPassantShape(ep);
    RotateFields(p, Middle(s, player), ep);
    RotateTwiceFields(p, Middle(s, player), ep);
  }

  /**
   * Rotating a position string puts first the placement of the rotated board; the side and
   * castling fields are the ones of the board before rotation.
   */
  lemma RotateEncodedPlacement(s: Snapshot, player: Player, others: PieceMoves)
    ensures RotateStateString(Encode(s, player, others)) ==
      Some(Placement(RotateSnapshot(s)) + " " + Middle(s, player) + " " + ConvertEnPassant(EnPassantField(s, player, others)))
  {
    RotateEncoded(s, player, others);
    RotatedPlacement(s);
  }

  /**
   * The converted en-passant digits are `col` and `row`, while the same position computed on the
   * rotated board has `col + 1` and `row + 1`: the two never agree.
   */
  lemma ConvertedSquareOffByOne(q: Position)
    requires IsInside(q)
    ensures ConvertEnPassant(SquareDigits(q)) == [Digit(q.Column), Digit(q.Row)]
    ensures SquareDigits(Reflect(q)) == [Digit(q.Column + 1), Digit(q.Row + 1)]
    ensures ConvertEnPassant(SquareDigits(q)) != SquareDigits(Reflect(q))
  {
    var f := SquareDigits(q);
    assert f == [Digit(8 - q.Column), Digit(8 - q.Row)];
    ConvertDigitValue(f[0]);
    ConvertDigitValue(f[1]);
    assert Reflect(q) == Position(7 - q.Row, 7 - q.Column);
  }

  // ---------------------------------------------------------------------------------------
  // Building the string

  /** The StringBuilder of a position, filled by the constructor. */
  class StateString {
    var sb: string

    /** `new StateString(currentPlayer, board)`: the four fields, separated by spaces. */
    constructor (currentPlayer: Player, board: Board, others: PieceMoves)
      requires board.Valid()
      ensures sb == Encode(board.Value(), currentPlayer, others)
    {
      ghost var s := board.Value();
      sb := [];
      new;
      AddPiecePlacement(board);
      assert sb == Placement(s);
      sb := sb + " ";
      AddCurrentPlayer(currentPlayer);
      sb := sb + " ";
      assert sb == Placement(s) + " " + [SideChar(currentPlayer)] + " ";
      AddCastlingRights(board);
      sb := sb + " ";
      assert sb == Placement(s) + " " + [SideChar(currentPlayer)] + " " + CastlingRights(s) + " ";
      AddEnPassant(board, currentPlayer, others);
    }

    function ToString(): string
      reads this
    {
      sb
    }

    /** AddRowData: the loop over the columns of one row, with the count of pending blank squares. */
    method AddRowData(board: Board, row: int)
      requires board.Valid() && 0 <= row < 8
      modifies this
      ensures sb == old(sb) + RowCode(board.Value().grid[row], 0)
    {
      ghost var cells := board.Value().grid[row];
      var empty := 0;
      for c := 0 to 8
        invariant 0 <= empty <= c
        invariant sb + RowCode(cells[c..], empty) == old(sb) + RowCode(cells, 0)
      {
        assert cells[c..] == [cells[c]] + cells[c + 1..];
        var square := board.Get(Position(row, c));
        empty := AddSquare(square, empty, cells[c + 1..]);
      }
      assert cells[8..] == [];
      if empty > 0 {
        sb := sb + IntToString(empty);
      }
    }

    /**
     * The body of AddRowData's loop for one square: a blank adds to the count; a piece writes the
     * pending count, if any, and its letter, and the count starts again.
     */
    method AddSquare(square: Square, empty: nat, ghost rest: seq<Square>) returns (next: nat)
      modifies this
      ensures next <= empty + 1
      ensures sb + RowCode(rest, next) == old(sb) + RowCode([square] + rest, empty)
    {
      assert ([square] + rest)[0] == square && ([square] + rest)[1..] == rest;
      if square.None? {
        return empty + 1;
      }
      ghost var before := sb;
      ghost var pending := Pending(empty);
      next := empty;
      if next > 0 {
        sb := sb + IntToString(next);
        next := 0;
      }
      sb := sb + [PieceChar(square.value)];
      assert sb == before + pending + [PieceChar(square.value)];
      RegroupFront(before, pending, [PieceChar(square.value)], RowCode(rest, 0));
    }

    /** AddPiecePlacement: the rows in order, separated by `|`. */
    method AddPiecePlacement(board: Board)
      requires board.Valid()
      modifies this
      ensures sb == old(sb) + Placement(board.Value())
    {
      for r := 0 to 8
        invariant sb == old(sb) + PlacementUpTo(board.Value().grid, r)
      {
        if r != 0 {
          sb := sb + "|";
        }
        AddRowData(board, r);
      }
    }

    /** AddCurrentPlayer. */
    method AddCurrentPlayer(currentPlayer: Player)
      modifies this
      ensures sb == old(sb) + [SideChar(currentPlayer)]
    {
      if currentPlayer == White {
        sb := sb + "w";
      } else {
        sb := sb + "b";
      }
    }

    /** AddCastlingRights: the four rights of the board's own layout, then their letters. */
    method AddCastlingRights(board: Board)
      requires board.Valid()
      modifies this
      ensures sb == old(sb) + CastlingRights(board.Value())
    {
      var s := board.Value();
      var castleWKS := CastleRightKS(s, White, board.isRotated);
      var castleWQS := CastleRightQS(s, White, board.isRotated);
      var castleBKS := CastleRightKS(s, Black, board.isRotated);
      var castleBQS := CastleRightQS(s, Black, board.isRotated);
      AppendRights(castleWKS, castleWQS, castleBKS, castleBQS);
    }

    /** The appends of AddCastlingRights: `-`, or the letters of the rights that hold. */
    method AppendRights(castleWKS: bool, castleWQS: bool, castleBKS: bool, castleBQS: bool)
      modifies this
      ensures sb == old(sb) + CastlingField(castleWKS, castleWQS, castleBKS, castleBQS)
    {
      if !(castleWKS || castleWQS || castleBKS || castleBQS) {
        sb := sb + "-";
        return;
      }
      ghost var start := sb;
      ghost var wk := Letter(castleWKS, 'K');
      ghost var wq := Letter(castleWQS, 'Q');
      ghost var bk := Letter(castleBKS, 'k');
      ghost var bq := Letter(castleBQS, 'q');
      if castleWKS { sb := sb + "K"; }
      assert sb == start + wk;
      if castleWQS { sb := sb + "Q"; }
      assert sb == start + (wk + wq);
      if castleBKS { sb := sb + "k"; }
      assert sb == start + (wk + wq + bk);
      if castleBQS { sb := sb + "q"; }
      assert sb == start + (wk + wq + bk + bq);
    }

    /** AddEnPassant: `-` unless en passant is available, else the file `8-col` and the rank `8-row`. */
    method AddEnPassant(board: Board, currentPlayer: Player, others: PieceMoves)
      requires board.Valid()
      modifies this
      ensures sb == old(sb) + EnPassantField(board.Value(), currentPlayer, others)
    {
      var available := CanCaptureEnPassantOn(board, currentPlayer, board.isRotated, others);
      AppendEnPassant(available, board.GetPawnSkipPosition(currentPlayer.Opponent()));
    }

    /** The appends of AddEnPassant, once availability is known. */
    method AppendEnPassant(available: bool, skip: Option<Position>)
      requires available ==> skip.Some?
      modifies this
      ensures sb == old(sb) + EnPassantText(available, skip)
    {
      if !available {
        sb := sb + "-";
        return;
      }
      var pos := skip.value;
      var file := 8 - pos.Column;
      var rank := 8 - pos.Row;
      sb := sb + IntToString(file);
      sb := sb + IntToString(rank);
    }
  }
}
