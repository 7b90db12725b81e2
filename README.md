# Chess rules core, modelled in Dafny

This project models the rules engine of a two-player chess program (the `ChessLogic` library).
It covers:

- the 8×8 board: its squares, each player's pawn "skip" square for en passant, and the flag
  saying the board has been turned round for Black;
- the king's moves and castling, and the sliding walk every ranged piece uses;
- the check test and move legality: a move is played on a copy of the board, and castling
  also checks each square the king passes;
- the en-passant availability test;
- insufficient material;
- the position string (FEN-like: placement, side to move, castling rights, en-passant
  square) and its rotation when the board is turned;
- the game state: making a move, the fifty-move counter, the repetition table, and the
  ordered end-of-game rules (checkmate, stalemate, insufficient material, fifty moves, time,
  threefold repetition).

Modules follow the library's files:

| module | library file |
|---|---|
| `Directions` | `Direction.cs` |
| `Basics` | players, positions, pieces, counting and results |
| `Boards` | `Board.cs` |
| `Moves` | `Castle.cs` and the move kinds it is played with |
| `Pieces` | `Piece.cs` |
| `Kings` | `King.cs` |
| `Legality` | check, legality and en passant from `Board.cs` and `Castle.cs` |
| `Texts` | `StringBuilder`, `IndexOf`, `Reverse`, `Split` |
| `StateStrings` | `StateString.cs` |
| `Games` | `GameState.cs` |

The board has two forms:

- `Boards.Snapshot` is a value: the grid, the two skip squares and the rotation flag. Pure
  rules are stated on it.
- `Boards.Board` is a class over an `array2` of squares and a skip-square map. Its methods
  (`Set`, `SetPawnSkipPosition`, `Rotate`, `Copy`, `CountPieces`) are proved to compute the
  corresponding snapshot function.

`Legality` and `Games` follow the same pattern. The loops of the library (`IsLegal` on a board
copy, the castling walk, the en-passant scan, `AllLegalMovesFor`, `StateString`'s builder) are
methods proved equal to specification functions. Lemmas then state what those functions mean.
The loop of `ConvertStateHistory` is the exception: its dictionary order is not fixed, so the
method (`RekeyAll`) is specified by three properties of its result instead of by one function.

The generators of pawn, knight, bishop, rook and queen moves belong to other files. They
enter the model as a parameter, `others: PieceMoves`. Every result about check, legality,
game end and the position string holds for any such generators.

Two behaviours of the library are kept exactly as written:

- Black's unrotated queen-side castling right tests the rook on column 7, so it equals the
  king-side right (`Boards.BlackPlainQueenSideIsKingSide`, `Boards.QueenSideRightWithoutQueenSideRook`).
- `RotateStateString` maps an en-passant digit `d` to `|d - 8|`. For a board square this gives
  one less, in each coordinate, than the digits of the square on the rotated board
  (`StateStrings.ConvertedSquareOffByOne`). Rotating a position string twice still gives it back
  (`StateStrings.RotateEncoded`). The placement field does rotate exactly with the board
  (`StateStrings.RotatedPlacement`).

## Model

| member | source | states |
|---|---|---|
| Directions.ConstructorStoresDeltas | ChessLogic/Direction.cs:16-19 | a direction keeps the row and column deltas it was built with |
| Directions.UnitValues | ChessLogic/Direction.cs:5-8 | north, south, east and west are the unit steps (-1,0), (1,0), (0,1), (0,-1) |
| Directions.DiagonalValues | ChessLogic/Direction.cs:9-12 | the diagonals are the sums of their two unit steps |
| Directions.AddCommutative | ChessLogic/Direction.cs:20-23 | adding directions does not depend on their order |
| Directions.AddAssociative | ChessLogic/Direction.cs:20-23 | adding directions is associative |
| Directions.OppositeUnitsCancel | ChessLogic/Direction.cs:20-23 | opposite unit steps add up to no move |
| Directions.ScaleOne | ChessLogic/Direction.cs:25-28 | scaling by one leaves a direction unchanged |
| Directions.ScaleDistributes | ChessLogic/Direction.cs:25-28 | scaling by a sum is the sum of the scalings |
| Directions.ScaleTwice | ChessLogic/Direction.cs:25-28 | scaling twice is scaling by the product |
| Basics.AnyIff | ChessLogic/Board.cs:121-125 | `Any` holds exactly when some element satisfies the predicate |
| Basics.WhereMembers | ChessLogic/GameState.cs:44 | `Where` keeps exactly the elements that satisfy the predicate |
| Basics.SelectManyMembers | ChessLogic/GameState.cs:73-77 | `SelectMany` holds exactly the elements of some element's image |
| Basics.Counting.Increment | ChessLogic/Board.cs:143 | one more piece of that colour and type, one more in total, nothing else changes |
| Boards.Board.Get | ChessLogic/Board.cs:21-25 | the indexer reads the square of the board's value |
| Boards.Board.Set | ChessLogic/Board.cs:21-25 | the indexer assignment changes that square only |
| Boards.Board.GetPawnSkipPosition | ChessLogic/Board.cs:26-29 | reads the player's skip square |
| Boards.Board.SetPawnSkipPosition | ChessLogic/Board.cs:30-33 | sets one player's skip square and keeps the other and the grid |
| Boards.Board.Initial | ChessLogic/Board.cs:35-40 | a fresh board holding the starting position |
| Boards.Board.AddStartPieces | ChessLogic/Board.cs:42-67 | back ranks and pawn ranks of both colours, the middle rows untouched |
| Boards.Board.AddBackRank | ChessLogic/Board.cs:44-60 | rook, knight, bishop, queen, king, bishop, knight, rook on one row, other rows untouched |
| Boards.Board.Rotate | ChessLogic/Board.cs:69-92 | a fresh board whose value is the half-turn of this one: flag flipped, squares and skip squares reflected, pawns facing the other way |
| Boards.Board.RotatePieces | ChessLogic/Board.cs:79-90 | each square of the new board holds the reflected square's piece, flipped |
| Boards.Board.RotateSkipsInto | ChessLogic/Board.cs:73-77 | both skip squares are reflected, absent ones stay absent |
| Boards.RotateAt | ChessLogic/Board.cs:83 | the rotated board's square is the reflected square of the original, same piece with its pawn direction swapped |
| Boards.RotateSkips | ChessLogic/Board.cs:72-77 | rotation flips the flag and reflects each skip square, keeping absent ones absent |
| Boards.RotateTwice | ChessLogic/Board.cs:69-92 | rotating twice gives the same grid, flag and (on-board) skip squares back |
| Boards.PiecePositionsExact | ChessLogic/Board.cs:103-113 | the occupied squares, each once, in row-major order, and no other |
| Boards.PiecePositionsForMembers | ChessLogic/Board.cs:114-117 | a square is listed for a player exactly when it holds one of the player's pieces |
| Boards.AnyPieceOf | ChessLogic/Board.cs:119-126 | `Any` over a player's squares is "some square on the board holds that player's piece and satisfies it" |
| Boards.Board.Copy | ChessLogic/Board.cs:128-136 | a fresh board with copies of the pieces, no skip squares and the flag cleared |
| Boards.CopyKeepsPieces | ChessLogic/Board.cs:128-136 | the copy has the same occupied squares, each piece with its type, colour and moved flag |
| Boards.Board.CountPieces | ChessLogic/Board.cs:137-146 | the loop computes the count of the board's pieces |
| Boards.CountPiecesOf | ChessLogic/Board.cs:137-146 | the total is the number of pieces and each colour/type count is the number of matching squares |
| Boards.FindOnly | ChessLogic/Board.cs:176-179 | when exactly one piece of a colour and type exists, `FindPiece` returns its square and no other square matches |
| Boards.KingBishopVSKingBishopIff | ChessLogic/Board.cs:166-174 | four pieces with one bishop each, whose squares have the same colour |
| Boards.InsufficientMaterialIff | ChessLogic/Board.cs:148-174 | insufficient material exactly for two pieces, three pieces with a single bishop or knight of either colour, or bishops on same-coloured squares among four pieces |
| Boards.BlackPlainQueenSideIsKingSide | ChessLogic/Board.cs:212-232 | Black's unrotated queen-side right equals its king-side right; the other three queen-side rights test their king and rook squares |
| Boards.QueenSideRightWithoutQueenSideRook | ChessLogic/Board.cs:219 | a board with no queen-side rook still grants Black the queen-side right |
| Pieces.MovePositionsInDir | ChessLogic/Pieces/Piece.cs:11-24 | the loop yields exactly the walk in one direction |
| Pieces.WalkSteps | ChessLogic/Pieces/Piece.cs:13 | the k-th square of the walk is k+1 steps from the start in that direction |
| Pieces.WalkBlocked | ChessLogic/Pieces/Piece.cs:15-22 | every square of the walk but the last is empty; the walk stops after an occupied square |
| Pieces.WalkMaximal | ChessLogic/Pieces/Piece.cs:13-23 | the walk stops only at the edge, before an own piece, or on an opponent's piece |
| Pieces.WalkNeverOwn | ChessLogic/Pieces/Piece.cs:21 | no square of the walk holds a piece of the walker's colour |
| Pieces.MovePositionsInDirsMembers | ChessLogic/Pieces/Piece.cs:25-28 | a square is reachable in several directions exactly when it is on the walk of one of them |
| Pieces.AnyMoveTakesKingIff | ChessLogic/Pieces/Piece.cs:30-37 | a piece attacks the king exactly when one of its moves ends on a king |
| Kings.MovePositionsExact | ChessLogic/Pieces/King.cs:73-84 | at most eight targets, exactly the on-board one-step neighbours that are empty or hold an opponent |
| Kings.CastlePreconditions | ChessLogic/Pieces/King.cs:34-66 | castling on either side needs an unmoved king, an unmoved rook on the corner and empty squares between, by orientation |
| Kings.KingGetMovesOrder | ChessLogic/Pieces/King.cs:86-91 | the step moves come first, in direction order, then at most two castling moves from the king, king side before queen side; a king that has moved gets no castling move |
| Kings.KingCaptureOnlySteps | ChessLogic/Pieces/King.cs:93-101 | the king attacks a king only by a one-step move |
| Moves.NewCastle | ChessLogic/Moves/Castle.cs:13-52 | the castling move starts on the king, stays on its row, moves east exactly for king side on an unrotated board or queen side on a rotated one, and takes the rook from that corner |
| Moves.CastleGeometry | ChessLogic/Moves/Castle.cs:13-52 | the king moves two squares; the rook lands on the square the king crosses |
| Moves.CastleDestinations | ChessLogic/Moves/Castle.cs:17-50 | the king's and rook's destination columns for each side and orientation |
| Moves.CastleExecute | ChessLogic/Moves/Castle.cs:53-58 | playing castling moves the king and the rook to their destinations, marks them moved, empties their start squares and changes nothing else |
| Moves.ExecuteOn | ChessLogic/GameState.cs:53 | executing a move on the board gives the board of the pure execution and its flag |
| Moves.CastleExecuteOn | ChessLogic/Moves/Castle.cs:53-58 | the two normal moves of castling on the board object leave the board of the pure execution and return false |
| Legality.IsInCheckIff | ChessLogic/Board.cs:119-126 | a player is in check exactly when some opponent piece can capture a king |
| Legality.CastleIsLegalIff | ChessLogic/Moves/Castle.cs:59-74 | castling is legal exactly when the king is not in check and neither square it crosses on a copy is attacked |
| Legality.CastleIsLegalOn | ChessLogic/Moves/Castle.cs:59-74 | the loop on a board copy decides castling legality |
| Legality.KingWalkOn | ChessLogic/Moves/Castle.cs:66-72 | the two king steps on the copy stop at the first square in check |
| Legality.DefaultIsLegalOn | ChessLogic/Board.cs:239-240 | a move is legal when playing it on a copy leaves its player out of check |
| Legality.IsLegalOn | ChessLogic/Board.cs:240 | chooses the castling test or the default test by move kind |
| Legality.CanCaptureEnPassantIff | ChessLogic/Board.cs:245-273 | en passant is available exactly when the opponent has a skip square and a pawn of the player sits diagonally behind it (by orientation) and can legally take |
| Legality.CanCaptureEnPassantInside | ChessLogic/Board.cs:245-273 | when en passant is available the skip square is on the board |
| Legality.HasPawnInPositionOn | ChessLogic/Board.cs:234-244 | the loop finds a legal en-passant pawn exactly when one exists among the candidate squares |
| Legality.CanCaptureEnPassantOn | ChessLogic/Board.cs:245-273 | the method computes en-passant availability, which implies a skip square |
| StateStrings.PieceChar | ChessLogic/StateString.cs:40-55 | the letter decodes to the piece's type and colour and is upper case exactly for White |
| StateStrings.RowCodeRoundTrip | ChessLogic/StateString.cs:56-75 | decoding the row code gives the row's pieces and blanks back |
| StateStrings.RowCodeFacts | ChessLogic/StateString.cs:56-75 | a row code is well formed and decodes to eight squares |
| StateStrings.StateString.AddRowData | ChessLogic/StateString.cs:56-75 | the loop appends the row code of one row |
| StateStrings.StateString.AddSquare | ChessLogic/StateString.cs:62-72 | one square of the row: a blank adds one to the count, a piece writes the pending count and its letter and resets the count, so the text written plus the code of the rest is the code of the square and the rest |
| StateStrings.PlacementRoundTrip | ChessLogic/StateString.cs:77-84 | the placement splits on bars into the eight row codes, decodes to the board, and holds no space |
| StateStrings.StateString.AddPiecePlacement | ChessLogic/StateString.cs:77-84 | the loop appends the eight row codes separated by bars |
| StateStrings.RotatedPlacement | ChessLogic/StateString.cs:28 | the placement of the rotated board is the reversed placement |
| StateStrings.SideChar | ChessLogic/StateString.cs:85-89 | 'w' exactly for White, else 'b' |
| StateStrings.CastlingFieldDash | ChessLogic/StateString.cs:97-101 | the castling field is "-" exactly when no right holds |
| StateStrings.CastlingFieldParse | ChessLogic/StateString.cs:90-106 | the castling field can be read back into the four rights |
| StateStrings.CastlingFieldLetters | ChessLogic/StateString.cs:102-105 | apart from `-`, the field holds only the letters K, Q, k, q |
| StateStrings.CastlingFieldOrder | ChessLogic/StateString.cs:102-105 | the letters appear in the order K, Q, k, q, each at most once |
| StateStrings.StateString.AppendRights | ChessLogic/StateString.cs:97-105 | appends the castling field of the four rights |
| StateStrings.SquareDigitsRoundTrip | ChessLogic/StateString.cs:119-122 | the two digits of an on-board square read back to the square |
| StateStrings.EnPassantFieldFacts | ChessLogic/StateString.cs:107-123 | the field is "-" when en passant is unavailable, else the skip square's digits |
| StateStrings.EncodeFields | ChessLogic/StateString.cs:8-17 | the string is placement, side, castling and en passant separated by single spaces |
| StateStrings.StateString.constructor | ChessLogic/StateString.cs:8-17 | the builder holds the position string of the board and player |
| StateStrings.RotateFields | ChessLogic/StateString.cs:19-34 | rotating a three-space string reverses the placement, keeps the middle fields and converts the en-passant field, or fails on a one-character field other than "-" |
| StateStrings.ConvertEnPassantTwice | ChessLogic/StateString.cs:31 | converting the en-passant field keeps its shape and undoes itself |
| StateStrings.RotateTwiceFields | ChessLogic/StateString.cs:19-34 | rotating a well-shaped string twice gives it back |
| StateStrings.RotateEncoded | ChessLogic/StateString.cs:19-34 | rotating a position string succeeds, and rotating it twice gives it back |
| StateStrings.RotateEncodedPlacement | ChessLogic/StateString.cs:19-34 | the rotated position string starts with the placement of the rotated board |
| StateStrings.ConvertedSquareOffByOne | ChessLogic/StateString.cs:31 | the converted en-passant digits are one less, in each coordinate, than the digits of the reflected square |
| Games.PieceLegalMovesIff | ChessLogic/GameState.cs:38-45 | no moves for an empty square or the other colour's piece; otherwise exactly the piece's legal candidates |
| Games.PlayerLegalMovesIff | ChessLogic/GameState.cs:71-79 | a move is among the player's legal moves exactly when it is a legal move of one of the player's squares |
| Games.FiftyMovesIff | ChessLogic/GameState.cs:121-125 | the fifty-move rule fires exactly at 100 or 101 half-moves |
| Games.VerdictRules | ChessLogic/GameState.cs:80-114 | the first rule that applies decides: checkmate, stalemate, insufficient material, fifty moves, White's time, Black's time, threefold repetition; otherwise the result is unchanged |
| Games.Recorded | ChessLogic/GameState.cs:129-130 | the current string's count goes up by one and every other count is kept |
| Games.RekeyAll | ChessLogic/GameState.cs:30-35 | every key is stored rotated; every stored count comes from a key that rotates to it; counts are exact when rotation can be undone |
| Games.PositionStringsRotateBack | ChessLogic/GameState.cs:31-33 | every position string rotates and rotates back |
| Games.SelectManyOf | ChessLogic/GameState.cs:73-77 | the loop appends the candidates of each square in order |
| Games.GameState.constructor | ChessLogic/GameState.cs:20-26 | no result, clock zero, five time units each, and the start string recorded once |
| Games.GameState.ConvertStateHistory | ChessLogic/GameState.cs:28-36 | the history keyed by rotated strings, with the counts of the strings they came from |
| Games.GameState.LegalOnly | ChessLogic/GameState.cs:44 | the legal candidates, in order |
| Games.GameState.LegalMovesForPiece | ChessLogic/GameState.cs:38-45 | the piece's legal moves on the current board |
| Games.GameState.AllLegalMovesFor | ChessLogic/GameState.cs:71-79 | the player's legal moves on the current board |
| Games.GameState.UpdateStateString | ChessLogic/GameState.cs:126-131 | the current position string is stored and its count recorded |
| Games.GameState.RecordOnce | ChessLogic/GameState.cs:128-129 | both branches of the dictionary update give the table with the string counted once more |
| Games.GameState.CheckForGameOver | ChessLogic/GameState.cs:80-114 | the result is the verdict of the ordered rules on the current position; it reports the repetition rule's lookup throwing exactly when the string is missing from the table and no earlier rule fired, and then leaves the result unchanged; when either time is 0 it never throws |
| Games.GameState.FiftyMoveRule | ChessLogic/GameState.cs:121-125 | fires exactly when the counter of half-moves without a capture or a pawn move is 100 or 101 |
| Games.GameState.ThreefoldRepetition | ChessLogic/GameState.cs:132-135 | fires exactly when the current string has been recorded three times; it requires the string to be in the table (the library throws otherwise) |
| Games.VerdictKeepsGameOver | ChessLogic/GameState.cs:116-119 | once `IsGameOver` holds, applying the rules keeps it; no result is set exactly when none was set before and no rule fires |
| Games.VerdictBeforeRepetition | ChessLogic/GameState.cs:83-113 | when one of the first five rules fires, the verdict is a result and does not depend on the repetition table |
| Games.GameState.MakeMove | ChessLogic/GameState.cs:47-70 | clears the mover's skip square, plays the move, resets or advances the clock and history, passes the turn, records the string, applies the end rules and reports a capture by a normal move |
| Games.ClearSkipAndExecute | ChessLogic/GameState.cs:52-53 | clearing the mover's skip square and executing the move leave the board of the pure execution on the cleared board, with its flag and the capture a normal move makes |
| Games.GameState.PlayOnBoard | ChessLogic/GameState.cs:52-59 | plays the move on the board with the mover's skip square cleared and updates clock and history by the move's flag |

## Left out

- The user interface (windows, menus, the countdown timer) is not part of this model. The remaining times are plain integers that the caller lowers.
- `withTime`, `whiteMoved` and `blackMoved` of `GameState` are only read by the interface and are not modelled.
- The move generators and `Execute` bodies of pawns, knights, bishops, rooks and queens, and of the `NormalMove`, `DoublePawn`, `EnPassant` and `Promotion` move classes, are not part of this model. Generators are the `others` parameter. Execution of non-castling moves is kept to what the rules above rely on: it moves the piece, sets or clears skip squares, and returns the capture-or-pawn flag.
- Lazy enumeration (`yield return`, `IEnumerable`) is modelled as eager sequences with the same elements in the same order. `Any` is evaluated without short-circuit, which has no observable effect because the predicates have none.
- Boards.Board.Rotate: the library's new board shares its piece objects with the old board and swaps the pawns' direction in place, which also changes the old board's pawns. The model gives the new board its own flipped pieces and leaves the old board unchanged.
- Exceptions: where the library throws, the model either returns a value or requires the case away. Each case:
  - `RotateStateString` throws on strings it cannot cut; the model returns `None`.
  - `Board.FindPiece` throws from `First` when no piece matches (Board.cs:178); `Boards.FindPiece` returns `None`.
  - `Castle.IsLegal` reads the colour of an empty from-square (Castle.cs:61) and fails when a king step leaves the board (Castle.cs:68); `Legality.CastleIsLegal` is false in both cases.
  - `Move.IsLegal` fails on an empty from-square; `Legality.DefaultIsLegal` is false there.
  - `GameState.ThreefoldRepetition` throws `KeyNotFoundException` when the current string is not in the table (GameState.cs:134). The model's `ThreefoldRepetition` requires the key. `CheckForGameOver` instead reports the throw as `keyNotFound` and leaves the result unchanged. It happens only when rules 1-5 do not fire. No caller in the library or its interface reaches the throw: `MakeMove` records the string just before the check, and the interface's other calls come from its timers once a time has reached 0, when rule 4 or 5 decides (`CheckForGameOver` ensures `keyNotFound` is false when either time is 0). Only a direct call with both times non-zero, on a state whose string is missing from the table, would reach it. Such a state arises after the interface swaps in the converted table when the board is rotated.
  - `LegalMovesForPiece` requires an on-board square, and `MakeMove` requires a move its board can play.
  - Games.GameState.ConvertStateHistory requires every key to rotate.
- Basics.Piece.Copy: the `Copy` of pawns, knights, bishops, rooks and queens is not part of this model. The model assumes it returns an equal piece, including a pawn's forward direction; only the king's `Copy` (King.cs:67-72) is modelled as written. Every legality test runs on a copy of the board: `DefaultIsLegal`, `CastleIsLegal`, and through them en-passant availability, the legal-move lists and the end-of-game rules. On a rotated board, those results hold only under this assumption. A pawn `Copy` that reset the forward direction to its colour's home direction would make the copied pawns face the wrong way.
- Games.GameState.ThreefoldRepetition: requires the current string to be in the table; where the library's lookup throws, the model is not called (`CheckForGameOver` tests for the key first).
- Games.GameState.ConvertStateHistory: dictionary iteration order is not modelled. When two keys rotate to the same string, the contract only says that the count of one of them is kept. On tables of position strings, no two keys collide.
- Games.GameState.CheckForGameOver computes three values before knowing whether it needs them: the check test, the insufficient-material test, and the whole legal-move list, where the library stops at the first legal move (`Any()`). Each is the same value either way, because none of these computations has effects.
- Time running out is tested only when `CheckForGameOver` runs, as in the library. The clock that lowers the times is not modelled.
