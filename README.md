# Chess board and game core, in Dafny

This project models the position and legality core of a small C# chess rules engine.

`Board` holds an 8x8 grid of figures, the side to move and the move number. It reads them from
a FEN string: the piece placement, the active colour and the fullmove number fields. It
writes them back as placement, side letter, `- - 0` and the number.

A move produces a fresh board. That board is built from the current FEN. The origin is
cleared and the destination gets the promotion or the moving figure. The colour is flipped,
the number rises after black's move, and the FEN is regenerated. Check means that the side to
move, or after a flip the other side, can take the opposing king. The king is found by a scan
of the squares in a fixed order.

`GameChess` accepts a move only if two tests pass. The move test must allow it. Afterwards
the mover's king must not be capturable. It lists the legal moves by crossing the figures of
the side to move with all 64 squares.

Layout:

- `pieces.dfy` (module `Pieces`): colours, figures and their FEN letters, squares and the scan
  order of `Square.YieldSquares()`, and move descriptors.
- `text.dfy` (modules `Strings` and `Numerals`):
  - `Strings` has `Split`, `Join` and the single-character `Replace`.
  - `Numerals` has 32-bit integer text and `int.Parse`, and `n++` with wrap-around.
- `fen.dfy` (module `Fen`):
  - placement decoding, as the digit-replacement stages of `InitFigures`;
  - placement rendering, as the run collapse of `FenFigures`;
  - the six FEN fields;
  - the round-trip lemmas.
- `board.dfy` (module `Boards`):
  - read-only scans as functions over a `Position` value (`YieldFigures`, `FindBadKing`,
    `CanEatKing`) and the effect of a move (`Applied`);
  - class `Board`, whose `figures` is an `array2` and whose ghost field `cells` is its
    contents as a value.
- `game.dfy` (module `Games`): the legal-move list as a value and class `GameChess`.

The code the core calls but does not contain becomes parameters:
- `Moves.CanMove` over a board is a `MoveTest`, a function of a `Position` and a move.
- `FigureMoving(string)` and `FigureMoving.ToString` are functions bundled with it in `Rules`.

## Model

| member | source | states |
|---|---|---|
| Pieces.LetterRoundTrip | library/Chess/Chess/Board.cs:39-40 | The `(Figure)c` / `(char)f` casts are inverse bijections between the twelve pieces and the twelve FEN letters |
| Pieces.Letter | library/Chess/Chess/Board.cs:64 | A piece's letter is a FEN letter, upper case exactly when the piece is white |
| Pieces.AllSquaresOnce | library/Chess/Chess/Board.cs:45 | `YieldSquares` yields 64 squares, each on-board square exactly once, square i at scan position i |
| Strings.Split | library/Chess/Chess/Board.cs:22 | Splitting yields at least one part and no part contains a separator |
| Strings.SplitJoin | library/Chess/Chess/Board.cs:36 | Splitting parts joined by a separator gives back the parts |
| Numerals.Succ32 | library/Chess/Chess/Board.cs:93-94 | `moveNumber++` gives n + 1, or wraps from int.MaxValue to int.MinValue |
| Numerals.IntTextRoundTrip | library/Chess/Chess/Board.cs:26 | `int.Parse` of `n.ToString()` accepts it and returns n, for every 32-bit n |
| Fen.StageStep | library/Chess/Chess/Board.cs:31-34 | Each replacement of digit j by `(j-1)` + `"1"` turns stage j of the placement into stage j - 1 |
| Fen.StageFinish | library/Chess/Chess/Board.cs:35 | After the digit stages, replacing `1` by `.` expands every digit run into that many empty cells |
| Fen.DecodeLines | library/Chess/Chess/Board.cs:37-40 | Cell (x, y) of the grid is the figure of character x of line 7 - y, `.` meaning empty |
| Fen.PlacementRoundTrip | library/Chess/Chess/Board.cs:58-72 | For every grid, the placement FenFigures renders decodes as InitFigures reads it, and gives back the same grid |
| Fen.CanonicalReRender | library/Chess/Chess/Board.cs:29-41 | A canonical placement decodes, and rendering the decoded grid gives the same placement |
| Fen.RenderShape | library/Chess/Chess/Board.cs:61-70 | The rendered placement is eight canonical ranks, rank 8 first, joined by seven `/`: each rank's digits plus letters total 8 and no two digits are adjacent |
| Fen.SquashCanonical | library/Chess/Chess/Board.cs:68-70 | Collapsing runs of `1` in one rank gives tokens of total width 8 with no adjacent digits |
| Fen.CollapseOnes | library/Chess/Chess/Board.cs:68-70 | Collapsing the one-per-cell form of a canonical rank gives that rank back |
| Fen.CollapseJoin | library/Chess/Chess/Board.cs:65-70 | Collapsing the whole `/`-joined string collapses each rank on its own, because `/` ends every run |
| Fen.FenRoundTrip | library/Chess/Chess/Board.cs:50-55 | The generated FEN has the six fields placement, side letter, `-`, `-`, `0`, number; Init accepts it and reads back the same grid, colour and number |
| Boards.OffBoard | library/Chess/Chess/Board.cs:74-85 | Off the board GetFigureAt gives `Figure.none` and SetFigureAt changes nothing |
| Boards.SetAtFrame | library/Chess/Chess/Board.cs:81-85 | After writing square s, s holds the figure if on board and every other square is as before |
| Boards.OwnAmongSound | library/Chess/Chess/Board.cs:43-48 | Every yielded figure stands on its on-board square, has the colour to move, and the squares come in scan order |
| Boards.YieldFigures | library/Chess/Chess/Board.cs:43-48 | At most one figure per square: no more than 64 figures are yielded |
| Boards.YieldFiguresSpec | library/Chess/Chess/Board.cs:43-48 | A figure-on-square is yielded iff its square is on board, it is the figure there and it has the colour to move; strictly increasing scan order |
| Boards.FirstHoldingSpec | library/Chess/Chess/Board.cs:116-119 | The scan from k answers `Square.none` iff no square from k on holds the figure, else the first such square |
| Boards.FindBadKing | library/Chess/Chess/Board.cs:113-120 | The answer is `Square.none` or an on-board square holding the opposing king |
| Boards.FindBadKingSpec | library/Chess/Chess/Board.cs:113-120 | `Square.none` iff the opposing king is on no square; otherwise a square holding it with none earlier in scan order |
| Boards.AnyReachesIff | library/Chess/Chess/Board.cs:104-110 | The early-return loop answers true iff some yielded figure passes the move test onto the target |
| Boards.CanEatKing | library/Chess/Chess/Board.cs:100-111 | Check is possible only when the side to move has a figure on the board |
| Boards.CanEatKingIff | library/Chess/Chess/Board.cs:100-111 | CanEatKing iff some on-board figure of the side to move passes the move test, without promotion, to FindBadKing's square |
| Boards.Applied | library/Chess/Chess/Board.cs:87-98 | The move number after a move still fits an int |
| Boards.AppliedSpec | library/Chess/Chess/Board.cs:87-98 | After a move: destination holds promotion or figure, origin empty, all else unchanged; colour flipped; number + 1 iff black moved (below int.MaxValue), equal after white; FEN reads back as the new board |
| Boards.Board.constructor | library/Chess/Chess/Board.cs:13-18 | A fresh grid; for a six-field FEN the board holds the decoded grid, colour and number |
| Boards.Board.Init | library/Chess/Chess/Board.cs:19-27 | With six fields: grid, colour (`b` gives black, else white) and number decoded; otherwise the grid, colour and number are not written |
| Boards.Board.InitFigures | library/Chess/Chess/Board.cs:29-41 | The digit stages and the `.` replacement turn the placement into the expanded lines, and the grid then holds their decoding |
| Boards.Board.FillFigures | library/Chess/Chess/Board.cs:37-40 | The nested loop leaves `figures[x, y]` equal to the cell of character x of line 7 - y |
| Boards.Board.GenerateFEN | library/Chess/Chess/Board.cs:50-55 | The FEN becomes placement + side letter + ` - - 0 ` + number, and the board then satisfies its invariant |
| Boards.Board.FenFigures | library/Chess/Chess/Board.cs:58-72 | The result is the rendered placement of the grid; it is canonical and decodes back to the grid |
| Boards.Board.GetFigureAt | library/Chess/Chess/Board.cs:74-79 | The figure on the square of the board's grid, `Figure.none` off the board |
| Boards.Board.SetFigureAt | library/Chess/Chess/Board.cs:81-85 | The grid becomes the old grid with that on-board square written; off the board nothing changes |
| Boards.Board.Move | library/Chess/Chess/Board.cs:87-98 | A fresh board: colour flipped, number bumped after black, FEN regenerated from it, destination and origin as moved; for a six-field FEN exactly `Applied` of this board; this board untouched |
| Boards.Board.IsCheck | library/Chess/Chess/Board.cs:123-128 | CanEatKing on the same grid and number with the colour flipped |
| Boards.Board.IsCheckAfterMove | library/Chess/Chess/Board.cs:129-133 | CanEatKing on the board Move produces |
| Games.MovesOfSound | library/Chess/Chess/GameChess.cs:55-61 | The moves kept for one figure start at its square, carry it, have no promotion, go on board in increasing scan order and pass both tests |
| Games.MovesOfComplete | library/Chess/Chess/GameChess.cs:55-61 | Every move of the figure to an on-board square that passes both tests is kept |
| Games.MovesOfAllSpec | library/Chess/Chess/GameChess.cs:54-61 | Over figures in scan order, a move is collected iff it is kept for one of them, and the list is ordered by origin then destination |
| Games.LegalMoves | library/Chess/Chess/GameChess.cs:51-62 | A side with no figure on the board has no moves |
| Games.LegalMovesIff | library/Chess/Chess/GameChess.cs:51-62 | A move is in `allMoves` iff its origin holds a figure of the side to move, it carries that figure, goes on board without promotion, the move test allows it and IsCheckAfterMove is false |
| Games.LegalMovesOrdered | library/Chess/Chess/GameChess.cs:54-55 | `allMoves` is ordered by origin, then destination, in scan order; no (origin, destination) pair occurs twice |
| Games.GameChess.constructor | library/Chess/Chess/GameChess.cs:16-21 | The game's FEN is the argument, by default the initial position; the board is fresh and, for a six-field FEN, holds its decoding |
| Games.InitialFieldsSplit | library/Chess/Chess/GameChess.cs:16 | The default FEN splits on white space into exactly its six fields |
| Games.InitialPlacementDecodable | library/Chess/Chess/GameChess.cs:16 | The default placement decodes without an exception, and the grid it gives renders back to the same text |
| Games.InitialFenDecodable | library/Chess/Chess/GameChess.cs:16 | The default FEN meets the constructor's precondition: Init reads it, with white to move and move number 1 |
| Games.GameChess.FromBoard | library/Chess/Chess/GameChess.cs:23-28 | The game is over the given board and takes its FEN |
| Games.GameChess.Move | library/Chess/Chess/GameChess.cs:32-42 | Refused (this game returned) when the move test rejects the parsed move or the mover's king is then capturable; otherwise a fresh game whose board and FEN are the moved board's |
| Games.GameChess.GetFigureAt | library/Chess/Chess/GameChess.cs:44-49 | `.` iff the square is empty or off board; otherwise the letter of the figure there |
| Games.GameChess.FindAllMoves | library/Chess/Chess/GameChess.cs:51-62 | For a six-field FEN, `allMoves` becomes exactly the legal-move list |
| Games.GameChess.AddMovesOf | library/Chess/Chess/GameChess.cs:55-61 | The inner loop appends the kept moves of one figure, destinations in scan order |
| Games.GameChess.GetAllMoves | library/Chess/Chess/GameChess.cs:64-71 | One string per move of `allMoves`, same length and order |
| Games.GameChess.IsCheck | library/Chess/Chess/GameChess.cs:73-76 | The board's IsCheck; the game is not modified |

## Left out

- `Moves.CanMove`, `FigureMoving(string)` and `FigureMoving.ToString` are not part of this model. They are parameters: any move test, parser and printer. No piece geometry and no move-token grammar is assumed.
- `Figure`, `Square`, `Color` and `FigureMoving` are not part of this model. They are datatypes with the standard FEN letters. `Square.none` is (-1, -1). `YieldSquares` runs x fastest within ascending y.
- Boards.Board.Init: for a FEN without six fields, the grid keeps the values of the freshly allocated array. Those depend on the unseen default of the `Figure` enum, so the model leaves them unspecified. The colour is likewise left unspecified.
- Boards.Board.Move: the full frame (`Applied`) is promised only for a six-field FEN. Otherwise the new board starts from the unspecified default grid.
- Boards.Board.IsCheck: stated only for a six-field FEN, because the fresh board starts from the unspecified default grid otherwise.
- Boards.Board.IsCheckAfterMove: stated only for a six-field FEN, for the same reason as Move.
- Games.GameChess.Move: the check-safety half is stated only for a six-field FEN, because it rests on IsCheckAfterMove.
- Games.GameChess.FindAllMoves: the list is stated only for a six-field FEN, because it rests on IsCheckAfterMove.
- Games.GameChess.AddMovesOf: stated only for a six-field FEN, because it rests on IsCheckAfterMove.
- Games.GameChess.GetAllMoves: `allMoves` is tied to the legal-move list only for a six-field FEN, because it rests on FindAllMoves.
- Games.GameChess.IsCheck: stated only for a six-field FEN, because it rests on the board's IsCheck.
- Exceptions in the library calls are preconditions, not modelled paths:
  - `int.Parse` on a bad number field;
  - a rank that does not expand to eight cells.
- Fen.DecodeLines: the `(Figure)c` cast at library/Chess/Chess/Board.cs:39-40 never throws. It stores any character as a `Figure` value, and `(char)f` at library/Chess/Chess/Board.cs:64 writes it back. The `Figure` datatype here holds only `none` and the twelve pieces. So the model requires `.` or a piece letter in the first eight cells of the first eight lines, and a FEN such as `8/8/8/8/8/8/8/7x w - - 0 1` is outside the model.
- `int.Parse` is modelled for an optional sign and decimal digits. Surrounding blanks cannot occur in a split field. Culture-specific forms are not modelled.
- The `StringBuilder.Replace` loop in `FenFigures` is modelled by its effect: every maximal run of `1` becomes its length. The string replacement itself is not modelled.
- The `string.Replace` loop in `InitFigures` is modelled step by step with single-character replacement.
- GameChess.cs:40 constructs a class named `Chess`, which does not exist. The model uses the private `GameChess(Board)` constructor there.
- `allMoves` is null in the source until `FindAllMoves` runs. Here it starts empty.
- Castling, en passant, the halfmove clock, checkmate and stalemate are not implemented by the source. The placeholder `- - 0` it writes is modelled.
- The move number is any 32-bit value, including 0 and negatives: the code parses and writes it without a range test, and the model does the same.
