/**
 * The board: an 8x8 grid of figures, the side to move and the move number, read from and
 * written back to a FEN string. Read-only scans (the figures of the side to move, the
 * opposing king, whether a figure can reach it) are functions over a snapshot of the board;
 * the operations that allocate or change a board are methods of the class `Board`.
 */
module Boards {
  import opened Pieces
  import opened Strings
  import opened Numerals
  import opened Fen

  /** Everything a board holds, as a value: what the unseen move tester is given. */
  datatype Position = Position(fen: string, cells: Grid, color: Color, number: int)

  /** The geometric move test of the unseen `Moves` class, built over a board. */
  type MoveTest = (Position, FigureMoving) -> bool

  // ---------------------------------------------------------------------------------------
  // Cells
  // ---------------------------------------------------------------------------------------

  /** `GetFigureAt`: the figure on an on-board square; `Figure.none` off the board. */
  function FigureAt(g: Grid, s: Square): Figure
  {
    if OnBoard(s) then g[s.x][s.y] else None
  }

  /** `SetFigureAt`: writes an on-board square; an off-board square is ignored. */
  function SetAt(g: Grid, s: Square, f: Figure): Grid
  {
    if OnBoard(s) then g[s.x := g[s.x][s.y := f]] else g
  }

  /** Off the board there is nothing, and writing there changes nothing. */
  lemma OffBoard(g: Grid, s: Square, f: Figure)
    requires !OnBoard(s)
    ensures FigureAt(g, s) == None
    ensures SetAt(g, s, f) == g
  {
  }

  /** After writing square s, s holds the new figure and every other square is as before. */
  lemma SetAtFrame(g: Grid, s: Square, f: Figure, t: Square)
    ensures FigureAt(SetAt(g, s, f), t) == if OnBoard(s) && t == s then f else FigureAt(g, t)
  {
  }

  // ---------------------------------------------------------------------------------------
  // YieldFigures
  // ---------------------------------------------------------------------------------------

  /** The figures of the side to move among the first n squares of the scan. */
  function OwnAmong(p: Position, n: nat): seq<FigureOnSquare>
    requires n <= 64
    // The position in the measure stops the solver from unrolling `OwnAmong(p, 64)`.
    decreases n, p
  {
    if n == 0 then []
    else
      var s := SquareAt(n - 1);
      OwnAmong(p, n - 1) + (if IsOf(FigureAt(p.cells, s), p.color) then [FigureOnSquare(FigureAt(p.cells, s), s)] else [])
  }

  /** Every figure among the first n squares is on the board, its own colour's, in scan order. */
  lemma {:induction false} OwnAmongSound(p: Position, n: nat)
    requires n <= 64
    ensures forall i :: 0 <= i < |OwnAmong(p, n)| ==>
      var fs := OwnAmong(p, n)[i];
      0 <= Index(fs.square) < n && OnBoard(fs.square) &&
      fs.figure == FigureAt(p.cells, fs.square) && IsOf(fs.figure, p.color)
    ensures forall i, j :: 0 <= i < j < |OwnAmong(p, n)| ==>
      Index(OwnAmong(p, n)[i].square) < Index(OwnAmong(p, n)[j].square)
    ensures |OwnAmong(p, n)| <= n
  {
    if n > 0 {
      OwnAmongSound(p, n - 1);
      SquareIndex(n - 1);
    }
  }

  /** `YieldFigures`: each figure of the side to move with its square, in scan order. */
  function YieldFigures(p: Position): (figs: seq<FigureOnSquare>)
    ensures |figs| <= 64
  {
    OwnAmongSound(p, 64);
    OwnAmong(p, 64)
  }

  lemma {:induction false} OwnAmongComplete(p: Position, n: nat, s: Square)
    requires n <= 64
    requires OnBoard(s) && Index(s) < n && IsOf(FigureAt(p.cells, s), p.color)
    ensures FigureOnSquare(FigureAt(p.cells, s), s) in OwnAmong(p, n)
  {
    IndexSquare(s);
    if Index(s) < n - 1 {
      OwnAmongComplete(p, n - 1, s);
    }
  }

  /**
   * A figure is yielded exactly when it is the figure on an on-board square and has the
   * colour to move; the squares come in strictly increasing scan order.
   */
  lemma YieldFiguresSpec(p: Position)
    ensures forall fs: FigureOnSquare :: fs in YieldFigures(p) <==>
      OnBoard(fs.square) && fs.figure == FigureAt(p.cells, fs.square) && IsOf(fs.figure, p.color)
    ensures forall i, j :: 0 <= i < j < |YieldFigures(p)| ==>
      Index(YieldFigures(p)[i].square) < Index(YieldFigures(p)[j].square)
  {
    OwnAmongSound(p, 64);
    forall fs: FigureOnSquare | OnBoard(fs.square) && fs.figure == FigureAt(p.cells, fs.square) && IsOf(fs.figure, p.color)
      ensures fs in YieldFigures(p)
    {
      OwnAmongComplete(p, 64, fs.square);
    }
  }

  // ---------------------------------------------------------------------------------------
  // FindBadKing, CanEatKing
  // ---------------------------------------------------------------------------------------

  /** The king FindBadKing looks for: white's when black is to move, else black's. */
  function BadKing(c: Color): Figure
  {
    if c == Black then Piece(White, King) else Piece(Black, King)
  }

  /** The first square from position k of the scan on that holds f, or `Square.none`. */
  function FirstHolding(g: Grid, f: Figure, k: nat): Square
    requires k <= 64
    // The grid in the measure stops the solver from unrolling a search that starts at a literal.
    decreases 64 - k, g
  {
    if k == 64 then NoSquare
    else if FigureAt(g, SquareAt(k)) == f then SquareAt(k)
    else FirstHolding(g, f, k + 1)
  }

  /**
   * The search from k answers `Square.none` exactly when no square from k on holds f, and
   * otherwise an on-board square at or after k that holds f, with none between k and it.
   */
  lemma {:induction false} FirstHoldingSpec(g: Grid, f: Figure, k: nat)
    requires k <= 64
    ensures FirstHolding(g, f, k) == NoSquare <==> forall i :: k <= i < 64 ==> FigureAt(g, SquareAt(i)) != f
    ensures FirstHolding(g, f, k) != NoSquare ==>
      OnBoard(FirstHolding(g, f, k)) && k <= Index(FirstHolding(g, f, k)) &&
      FigureAt(g, FirstHolding(g, f, k)) == f &&
      forall i :: k <= i < Index(FirstHolding(g, f, k)) ==> FigureAt(g, SquareAt(i)) != f
    decreases 64 - k
  {
    if k < 64 {
      SquareIndex(k);
      if FigureAt(g, SquareAt(k)) != f {
        assert FirstHolding(g, f, k) == FirstHolding(g, f, k + 1);
        FirstHoldingSpec(g, f, k + 1);
      } else {
        assert FirstHolding(g, f, k) == SquareAt(k);
      }
    }
  }

  /** `FindBadKing`: the first square in scan order holding the opposing king. */
  function FindBadKing(p: Position): (r: Square)
    ensures r == NoSquare || (OnBoard(r) && FigureAt(p.cells, r) == BadKing(p.color))
  {
    FirstHoldingSpec(p.cells, BadKing(p.color), 0);
    FirstHolding(p.cells, BadKing(p.color), 0)
  }

  /**
   * FindBadKing answers `Square.none` exactly when the opposing king is nowhere on the
   * board, and otherwise a square holding it before which no square in scan order does.
   */
  lemma FindBadKingSpec(p: Position)
    ensures var r := FindBadKing(p);
      && (r == NoSquare <==> forall s :: OnBoard(s) ==> FigureAt(p.cells, s) != BadKing(p.color))
      && (r != NoSquare ==>
            OnBoard(r) && FigureAt(p.cells, r) == BadKing(p.color) &&
            forall s :: OnBoard(s) && Index(s) < Index(r) ==> FigureAt(p.cells, s) != BadKing(p.color))
  {
    var r := FindBadKing(p);
    FirstHoldingSpec(p.cells, BadKing(p.color), 0);
    if r == NoSquare {
      forall s | OnBoard(s)
        ensures FigureAt(p.cells, s) != BadKing(p.color)
      {
        IndexSquare(s);
      }
    } else {
      forall s | OnBoard(s) && Index(s) < Index(r)
        ensures FigureAt(p.cells, s) != BadKing(p.color)
      {
        IndexSquare(s);
      }
    }
  }

  /** Whether one of the figures can move onto the target: the loop of CanEatKing. */
  function AnyReaches(cm: MoveTest, p: Position, figs: seq<FigureOnSquare>, target: Square): bool
  {
    if figs == [] then false
    else cm(p, Toward(figs[0], target)) || AnyReaches(cm, p, figs[1..], target)
  }

  lemma {:induction false} AnyReachesIff(cm: MoveTest, p: Position, figs: seq<FigureOnSquare>, target: Square)
    ensures AnyReaches(cm, p, figs, target) <==> exists fs :: fs in figs && cm(p, Toward(fs, target))
  {
    if figs != [] {
      AnyReachesIff(cm, p, figs[1..], target);
      assert forall fs :: fs in figs <==> fs == figs[0] || fs in figs[1..];
    }
  }

  /** `CanEatKing`: some figure of the side to move passes the move test onto the opposing king. */
  function CanEatKing(cm: MoveTest, p: Position): (r: bool)
    ensures r ==> YieldFigures(p) != []
  {
    AnyReaches(cm, p, YieldFigures(p), FindBadKing(p))
  }

  /**
   * CanEatKing holds exactly when some on-board square holds a figure of the side to move
   * that the move test lets go, without promotion, to the square FindBadKing answers.
   */
  lemma CanEatKingIff(cm: MoveTest, p: Position)
    ensures CanEatKing(cm, p) <==>
      exists s :: OnBoard(s) && IsOf(FigureAt(p.cells, s), p.color) &&
        cm(p, FigureMoving(FigureAt(p.cells, s), s, FindBadKing(p), None))
  {
    var target := FindBadKing(p);
    AnyReachesIff(cm, p, YieldFigures(p), target);
    YieldFiguresSpec(p);
    if CanEatKing(cm, p) {
      var fs :| fs in YieldFigures(p) && cm(p, Toward(fs, target));
      assert OnBoard(fs.square) && IsOf(FigureAt(p.cells, fs.square), p.color);
    }
    if exists s :: OnBoard(s) && IsOf(FigureAt(p.cells, s), p.color) &&
        cm(p, FigureMoving(FigureAt(p.cells, s), s, target, None))
    {
      var s :| OnBoard(s) && IsOf(FigureAt(p.cells, s), p.color) &&
        cm(p, FigureMoving(FigureAt(p.cells, s), s, target, None));
      assert Toward(FigureOnSquare(FigureAt(p.cells, s), s), target) == FigureMoving(FigureAt(p.cells, s), s, target, None);
    }
  }

  // ---------------------------------------------------------------------------------------
  // The effect of a move
  // ---------------------------------------------------------------------------------------

  /** The move number after `mover` has moved: black's move bumps it, with int wrap-around. */
  function NextNumber(mover: Color, n: int): int
    requires IsInt32(n)
  {
    if mover == Black then Succ32(n) else n
  }

  /** The grid after a move: origin cleared, then the destination given the placed figure. */
  function Moved(g: Grid, fm: FigureMoving): Grid
  {
    SetAt(SetAt(g, fm.from, None), fm.to, Placed(fm))
  }

  /** The board `Move(fm)` returns, for a board that holds what its FEN says. */
  function Applied(p: Position, fm: FigureMoving): (q: Position)
    requires IsInt32(p.number)
    ensures IsInt32(q.number)
  {
    var number := NextNumber(p.color, p.number);
    Position(Encode(Moved(p.cells, fm), Flip(p.color), number), Moved(p.cells, fm), Flip(p.color), number)
  }

  /**
   * After a move the destination holds the promotion or else the moving figure, the origin
   * is empty and every other square is as before; the other side is to move, the number
   * has risen by one exactly when black moved, and the FEN reads back as the new board.
   */
  lemma AppliedSpec(p: Position, fm: FigureMoving, s: Square)
    requires IsInt32(p.number)
    ensures var q := Applied(p, fm);
      && FigureAt(q.cells, s) ==
           (if OnBoard(s) && s == fm.to then Placed(fm)
            else if OnBoard(s) && s == fm.from then None
            else FigureAt(p.cells, s))
      && q.color == Flip(p.color) && q.color != p.color
      && (q.number == p.number + 1 <==> p.color == Black && p.number < Int32Max)
      && (p.color == White ==> q.number == p.number)
      && Decodable(q.fen) && DecodeGrid(q.fen) == q.cells
      && DecodeColor(q.fen) == q.color && DecodeNumber(q.fen) == q.number
  {
    var q := Applied(p, fm);
    assert q.cells == Moved(p.cells, fm);
    SetAtFrame(p.cells, fm.from, None, s);
    SetAtFrame(SetAt(p.cells, fm.from, None), fm.to, Placed(fm), s);
    FenRoundTrip(q.cells, q.color, q.number);
  }

  // ---------------------------------------------------------------------------------------
  // The board object
  // ---------------------------------------------------------------------------------------

  /** One more rank written by FenFigures: the join of the ranks so far grows by it. */
  lemma RankAppended(rr: seq<string>, y: int, before: string, sb: string)
    requires |rr| == 8 && 0 <= y < 8
    requires y == 7 ==> before == ""
    requires y < 7 ==> before == Join(rr[..7 - y], '/') + "/"
    requires sb == before + rr[7 - y]
    ensures sb == Join(rr[..8 - y], '/')
  {
    if y == 7 {
      assert rr[..1] == [rr[0]];
    } else {
      assert rr[..8 - y] == rr[..7 - y] + [rr[7 - y]];
      JoinSnoc(rr[..7 - y], rr[7 - y], '/');
    }
  }

  /** The contents of an 8x8 array of figures, as a value. */
  function GridOf(a: array2<Figure>): (g: Grid)
    reads a
    requires a.Length0 == 8 && a.Length1 == 8
    ensures forall x, y :: 0 <= x < 8 && 0 <= y < 8 ==> g[x][y] == a[x, y]
  {
    seq(8, x requires 0 <= x < 8 reads a => seq(8, y requires 0 <= y < 8 reads a => a[x, y]))
  }

  /** A grid that agrees with the array on every square is its contents. */
  lemma GridOfIs(a: array2<Figure>, g: Grid)
    requires a.Length0 == 8 && a.Length1 == 8
    requires forall x, y :: 0 <= x < 8 && 0 <= y < 8 ==> a[x, y] == g[x][y]
    ensures GridOf(a) == g
  {
    var c := GridOf(a);
    forall x | 0 <= x < 8
      ensures c[x] == g[x]
    {
      assert forall y :: 0 <= y < 8 ==> c[x][y] == g[x][y];
    }
  }

  class Board {
    var fen: string
    var figures: array2<Figure>
    var moveColor: Color
    var moveNumber: int
    /** What `figures` holds, as a value. */
    ghost var cells: Grid

    /** `figures` is 8x8 and holds exactly `cells`. */
    ghost predicate Holds()
      reads this, figures
    {
      && figures.Length0 == 8 && figures.Length1 == 8
      && forall x, y :: 0 <= x < 8 && 0 <= y < 8 ==> figures[x, y] == cells[x][y]
    }

    /**
     * The grid holds `cells` and the number fits an int. A board whose FEN has six fields
     * holds exactly what that FEN says; one whose FEN does not was never initialised, so its
     * number is still the default 0.
     */
    ghost predicate Valid()
      reads this, figures
    {
      && Holds()
      && IsInt32(moveNumber)
      && (HasSixFields(fen) ==>
            Decodable(fen) && cells == DecodeGrid(fen) &&
            moveColor == DecodeColor(fen) && moveNumber == DecodeNumber(fen))
      && (!HasSixFields(fen) ==> moveNumber == 0)
    }

    /** Everything the board holds, as a value: what `CanEatKing` and `Moves` look at. */
    ghost function State(): Position
      reads this
    {
      Position(fen, cells, moveColor, moveNumber)
    }

    /** The board's state, read off the array. */
    function Snapshot(): (p: Position)
      reads this, figures
      requires Holds()
      ensures p == State()
    {
      GridOfIs(figures, cells);
      Position(fen, GridOf(figures), moveColor, moveNumber)
    }

    /**
     * `new Board(fen)`: a board with a fresh grid, initialised from the FEN. The FEN must
     * not make Init throw: a six-field FEN must decode. Without six fields the fresh grid
     * and the colour keep their unseen default values.
     */
    constructor(fen: string)
      requires HasSixFields(fen) ==> Decodable(fen)
      ensures Valid() && fresh(figures) && this.fen == fen
      ensures HasSixFields(fen) ==>
        cells == DecodeGrid(fen) && moveColor == DecodeColor(fen) && moveNumber == DecodeNumber(fen)
    {
      this.fen := fen;
      figures := new Figure[8, 8];
      moveNumber := 0;
      new;
      cells := GridOf(figures);
      Init();
    }

    /** `Init`: reads placement, side and number when the FEN has six fields; otherwise does nothing. */
    method Init()
      requires Holds() && moveNumber == 0
      requires HasSixFields(fen) ==> Decodable(fen)
      modifies this, figures
      ensures fen == old(fen) && figures == old(figures) && Valid()
      ensures HasSixFields(fen) ==>
        cells == DecodeGrid(fen) && moveColor == DecodeColor(fen) && moveNumber == DecodeNumber(fen)
      ensures !HasSixFields(fen) ==>
        unchanged(figures) && cells == old(cells) && moveColor == old(moveColor) && moveNumber == old(moveNumber)
    {
      var parts := Split(fen, WhiteSpace);
      if |parts| != 6 {
        return;
      }
      InitFigures(parts[0]);
      moveColor := if parts[1] == "b" then Black else White;
      moveNumber := NumeralValue(parts[5]);
    }

    /**
     * `InitFigures`: the digit replacements 8..2 and then '1' -> '.' expand every run,
     * and cell x of line 7 - y fills `figures[x, y]`.
     */
    method InitFigures(data: string)
      requires Holds()
      requires PlacementDecodable(data)
      modifies figures, this`cells
      ensures Holds() && cells == DecodePlacement(data)
    {
      var d := data;
      StageStart(data);
      var j := 8;
      while j >= 2
        invariant 1 <= j <= 8
        invariant d == Stage(data, j)
      {
        StageStep(data, j);
        d := ReplaceChar(d, DigitChar(j), [DigitChar(j - 1), '1']);
        j := j - 1;
      }
      StageFinish(data);
      d := ReplaceChar(d, '1', ".");
      var lines := Split(d, {'/'});
      assert lines == Lines(data);
      FillFigures(lines);
      assert DecodePlacement(data) == DecodeLines(lines);
    }

    /** The nested loop of `InitFigures`: cell x of line 7 - y fills `figures[x, y]`. */
    method FillFigures(lines: seq<string>)
      requires figures.Length0 == 8 && figures.Length1 == 8
      requires LinesDecodable(lines)
      modifies figures, this`cells
      ensures Holds() && cells == DecodeLines(lines)
    {
      var y := 7;
      while y >= 0
        invariant -1 <= y <= 7
        invariant forall x', y' :: 0 <= x' < 8 && y < y' < 8 ==> figures[x', y'] == CellOf(lines[7 - y'][x'])
      {
        var x := 0;
        while x < 8
          invariant 0 <= x <= 8
          invariant forall x', y' :: 0 <= x' < 8 && y < y' < 8 ==> figures[x', y'] == CellOf(lines[7 - y'][x'])
          invariant forall x' :: 0 <= x' < x ==> figures[x', y] == CellOf(lines[7 - y][x'])
        {
          var c := lines[7 - y][x];
          figures[x, y] := if c == '.' then None else FigureOfLetter(c);
          x := x + 1;
        }
        y := y - 1;
      }
      cells := DecodeLines(lines);
    }

    /** `GenerateFEN`: placement, side letter, the fixed "- - 0" and the move number. */
    method GenerateFEN()
      requires Holds() && IsInt32(moveNumber)
      modifies this`fen
      ensures fen == Encode(cells, moveColor, moveNumber)
      ensures Valid()
    {
      var placement := FenFigures();
      fen := placement + " " + (if moveColor == White then "w" else "b") + " - - 0 " + IntText(moveNumber);
      FenRoundTrip(cells, moveColor, moveNumber);
    }

    /**
     * `FenFigures`: rank 8 first, one '1' per empty cell and the letter of each piece, '/'
     * between ranks; then every run of ones is replaced by its length.
     */
    method FenFigures() returns (placement: string)
      requires Holds()
      ensures placement == RenderPlacement(cells)
      ensures PlacementDecodable(placement) && DecodePlacement(placement) == cells
      ensures CanonicalPlacement(placement)
    {
      ghost var rr := RawRanks(cells);
      var sb := "";
      var y := 7;
      while y >= 0
        invariant -1 <= y <= 7
        invariant y == 7 ==> sb == ""
        invariant -1 <= y < 7 ==> sb == Join(rr[..7 - y], '/') + (if y >= 0 then "/" else "")
      {
        ghost var before := sb;
        ghost var rank := RawRank(cells, y);
        var x := 0;
        while x < 8
          invariant 0 <= x <= 8
          invariant sb == before + rank[..x]
        {
          assert rank[x] == RawChar(figures[x, y]);
          sb := sb + [if figures[x, y] == None then '1' else Letter(figures[x, y])];
          assert rank[..x + 1] == rank[..x] + [rank[x]];
          x := x + 1;
        }
        assert rank[..8] == rank == rr[7 - y];
        RankAppended(rr, y, before, sb);
        if y > 0 {
          sb := sb + "/";
        }
        y := y - 1;
      }
      assert rr[..8] == rr;
      assert sb == Join(rr, '/');
      placement := Collapse(sb);
      assert placement == RenderPlacement(cells);
      PlacementRoundTrip(cells);
      RenderShape(cells);
    }

    /** `GetFigureAt`: `Figure.none` off the board. */
    function GetFigureAt(square: Square): (f: Figure)
      reads this, figures
      requires Holds()
      ensures f == FigureAt(cells, square)
    {
      if OnBoard(square) then figures[square.x, square.y] else None
    }

    /** `SetFigureAt`: an on-board square gets the figure; an off-board square is ignored. */
    method SetFigureAt(square: Square, figure: Figure)
      requires Holds()
      modifies figures, this`cells
      ensures Holds() && cells == SetAt(old(cells), square, figure)
    {
      if OnBoard(square) {
        figures[square.x, square.y] := figure;
      }
      cells := SetAt(cells, square, figure);
      forall x, y | 0 <= x < 8 && 0 <= y < 8
        ensures figures[x, y] == cells[x][y]
      {
        SetAtFrame(old(cells), square, figure, Square(x, y));
      }
    }

    /**
     * `Move`: a new board read from this board's FEN, with the origin cleared, the
     * destination given the promotion or the moving figure, the colour flipped, the number
     * bumped after black's move and the FEN regenerated. This board is left as it was.
     */
    method Move(fm: FigureMoving) returns (next: Board)
      requires Valid()
      ensures fresh(next) && fresh(next.figures) && next.Valid()
      ensures next.moveColor == Flip(moveColor)
      ensures next.moveNumber == NextNumber(moveColor, moveNumber)
      ensures next.fen == Encode(next.cells, next.moveColor, next.moveNumber)
      ensures OnBoard(fm.to) ==> FigureAt(next.cells, fm.to) == Placed(fm)
      ensures OnBoard(fm.from) && fm.from != fm.to ==> FigureAt(next.cells, fm.from) == None
      ensures HasSixFields(fen) ==> next.cells == Moved(cells, fm) && next.State() == Applied(State(), fm)
    {
      next := new Board(fen);
      ghost var g0 := next.cells;
      next.SetFigureAt(fm.from, None);
      next.SetFigureAt(fm.to, if fm.promotion == None then fm.figure else fm.promotion);
      if moveColor == Black {
        next.moveNumber := Succ32(next.moveNumber);
      }
      next.moveColor := Flip(moveColor);
      next.GenerateFEN();
      if HasSixFields(fen) {
        assert g0 == cells;
        assert next.cells == Moved(cells, fm);
      }
      SetAtFrame(g0, fm.from, None, fm.to);
      SetAtFrame(SetAt(g0, fm.from, None), fm.to, Placed(fm), fm.to);
      SetAtFrame(g0, fm.from, None, fm.from);
      SetAtFrame(SetAt(g0, fm.from, None), fm.to, Placed(fm), fm.from);
    }

    /** `IsCheck`: the other side, on this board, can take the king of the side to move. */
    method IsCheck(cm: MoveTest) returns (check: bool)
      requires Valid()
      ensures HasSixFields(fen) ==>
        check == CanEatKing(cm, Position(fen, cells, Flip(moveColor), moveNumber))
    {
      var after := new Board(fen);
      after.moveColor := Flip(moveColor);
      check := CanEatKing(cm, after.Snapshot());
    }

    /** `IsCheckAfterMove`: after the move, the side then to move can take the mover's king. */
    method IsCheckAfterMove(cm: MoveTest, fm: FigureMoving) returns (check: bool)
      requires Valid()
      ensures HasSixFields(fen) ==> check == CanEatKing(cm, Applied(State(), fm))
    {
      var after := Move(fm);
      check := CanEatKing(cm, after.Snapshot());
    }
  }
}
