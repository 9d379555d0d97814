/**
 * The value types the board is built from: colours, figures with their FEN letters,
 * squares and their fixed scan order, and move descriptors.
 */
module Pieces {

  datatype Color = White | Black

  /** `Color.FlipColor`: the other side. */
  function Flip(c: Color): Color
  {
    if c == White then Black else White
  }

  datatype Kind = Pawn | Knight | Bishop | Rook | Queen | King

  /** An empty cell or a piece of one colour and kind. */
  datatype Figure = None | Piece(color: Color, kind: Kind)

  /** `f.GetColor() == c`: only pieces have a colour. */
  predicate IsOf(f: Figure, c: Color)
  {
    f.Piece? && f.color == c
  }

  /** The twelve FEN piece letters: upper case is white, lower case is black. */
  predicate IsFigureLetter(c: char)
  {
    || c == 'P' || c == 'N' || c == 'B' || c == 'R' || c == 'Q' || c == 'K'
    || c == 'p' || c == 'n' || c == 'b' || c == 'r' || c == 'q' || c == 'k'
  }

  function KindLetter(k: Kind): char
  {
    match k
    case Pawn => 'p'
    case Knight => 'n'
    case Bishop => 'b'
    case Rook => 'r'
    case Queen => 'q'
    case King => 'k'
  }

  /** `(char)f` for a piece. */
  function Letter(f: Figure): (c: char)
    requires f.Piece?
    ensures IsFigureLetter(c)
    ensures ('A' <= c <= 'Z') <==> f.color == White
  {
    var l := KindLetter(f.kind);
    if f.color == White then (l as int - 32) as char else l
  }

  /** `(Figure)c` for a FEN piece letter. */
  function FigureOfLetter(c: char): (f: Figure)
    requires IsFigureLetter(c)
    ensures f.Piece?
  {
    var color := if 'A' <= c <= 'Z' then White else Black;
    var l := if color == White then (c as int + 32) as char else c;
    var kind :=
      if l == 'p' then Pawn
      else if l == 'n' then Knight
      else if l == 'b' then Bishop
      else if l == 'r' then Rook
      else if l == 'q' then Queen
      else King;
    Piece(color, kind)
  }

  /** The letter encoding is a bijection between pieces and the twelve letters. */
  lemma LetterRoundTrip(f: Figure, c: char)
    ensures f.Piece? ==> FigureOfLetter(Letter(f)) == f
    ensures IsFigureLetter(c) ==> Letter(FigureOfLetter(c)) == c
  {
  }

  /** A board coordinate; files a-h are x = 0..7 and ranks 1-8 are y = 0..7. */
  datatype Square = Square(x: int, y: int)

  predicate OnBoard(s: Square)
  {
    0 <= s.x < 8 && 0 <= s.y < 8
  }

  /** `Square.none`, the answer of a search that found nothing. */
  const NoSquare: Square := Square(-1, -1)

  /** The position of a square in the scan order. */
  function Index(s: Square): int
  {
    s.y * 8 + s.x
  }

  /** Square i of the scan: ascending x within ascending y. */
  function SquareAt(i: int): Square
  {
    Square(i % 8, i / 8)
  }

  /** Position i of the scan is an on-board square, and its index is i. */
  lemma SquareIndex(i: int)
    requires 0 <= i < 64
    ensures OnBoard(SquareAt(i)) && Index(SquareAt(i)) == i
  {
  }

  /** Every on-board square is visited, at the position given by its index. */
  lemma IndexSquare(s: Square)
    requires OnBoard(s)
    ensures 0 <= Index(s) < 64 && SquareAt(Index(s)) == s
  {
    var i := Index(s);
    assert i / 8 == s.y && i % 8 == s.x;
  }

  /** The first n squares of the scan. */
  function Squares(n: nat): (r: seq<Square>)
    ensures |r| == n && forall i :: 0 <= i < n ==> r[i] == SquareAt(i)
  {
    if n == 0 then [] else Squares(n - 1) + [SquareAt(n - 1)]
  }

  /** `Square.YieldSquares()`. */
  const AllSquares: seq<Square> := Squares(64)

  /** The scan visits each of the 64 on-board squares exactly once, square i at position i. */
  lemma AllSquaresOnce()
    ensures |AllSquares| == 64
    ensures forall i :: 0 <= i < 64 ==> AllSquares[i] == SquareAt(i)
    ensures forall i :: 0 <= i < 64 ==> OnBoard(AllSquares[i]) && Index(AllSquares[i]) == i
    ensures forall s :: OnBoard(s) ==> 0 <= Index(s) < 64 && AllSquares[Index(s)] == s
  {
    forall i | 0 <= i < 64
      ensures OnBoard(AllSquares[i]) && Index(AllSquares[i]) == i
    {
      SquareIndex(i);
    }
    forall s | OnBoard(s)
      ensures 0 <= Index(s) < 64 && AllSquares[Index(s)] == s
    {
      IndexSquare(s);
    }
  }

  /** `FigureOnSquare`: a figure together with the square it stands on. */
  datatype FigureOnSquare = FigureOnSquare(figure: Figure, square: Square)

  /** `FigureMoving`: the figure taken from its origin, where it goes, and a promotion or `None`. */
  datatype FigureMoving = FigureMoving(figure: Figure, from: Square, to: Square, promotion: Figure)

  /** `new FigureMoving(fs, to)`: no promotion. */
  function Toward(fs: FigureOnSquare, to: Square): FigureMoving
  {
    FigureMoving(fs.figure, fs.square, to, None)
  }

  /** The figure a move leaves on its destination. */
  function Placed(fm: FigureMoving): Figure
  {
    if fm.promotion == None then fm.figure else fm.promotion
  }
}
