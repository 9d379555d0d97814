/**
 * The game: a board plus the unseen move test, move-token parser and move printer. A move
 * is accepted only when it passes the geometric test and does not leave the mover's king
 * capturable; the legal moves are the own figures crossed with all squares, filtered by
 * the same two tests.
 */
module Games {
  import opened Pieces
  import opened Strings
  import opened Numerals
  import opened Fen
  import opened Boards

  /**
   * The code a game relies on but whose bodies are not part of this model: `Moves.CanMove`
   * over a board, the move-token constructor `FigureMoving(string)` and
   * `FigureMoving.ToString`.
   */
  datatype Rules = Rules(canMove: MoveTest, parse: string -> FigureMoving, text: FigureMoving -> string)

  /** The ranks of the standard starting position, rank 8 first. */
  const InitialRanks: seq<string> :=
    ["rnbqkbnr", "pppppppp", "8", "8", "8", "8", "PPPPPPPP", "RNBQKBNR"]

  /**
   * The six fields of the starting FEN: the placement, white to move, all castling rights,
   * no en passant square, halfmove clock 0 and move number 1.
   */
  const InitialFields: seq<string> := [Join(InitialRanks, '/'), "w", "KQkq", "-", "0", "1"]

  /**
   * The default of `GameChess(fen)`,
   * "rnbqkbnr/pppppppp/8/8/8/8/PPPPPPPP/RNBQKBNR w KQkq - 0 1".
   */
  const InitialFen: string := Join(InitialFields, ' ')

  /** Six fields without white space, joined by blanks, split back into the same six. */
  lemma SixFieldsSplit(fields: seq<string>)
    requires |fields| == 6
    requires NoneOf(fields[0], WhiteSpace) && NoneOf(fields[1], WhiteSpace) && NoneOf(fields[2], WhiteSpace)
    requires NoneOf(fields[3], WhiteSpace) && NoneOf(fields[4], WhiteSpace) && NoneOf(fields[5], WhiteSpace)
    ensures Fields(Join(fields, ' ')) == fields
  {
    SplitJoin(fields, ' ', WhiteSpace);
  }

  /** The starting FEN splits into its six fields. */
  lemma InitialFieldsSplit()
    ensures Fields(InitialFen) == InitialFields
  {
    InitialPlacementDecodable();
    PlacementNoSpace(DecodePlacement(InitialFields[0]));
    PrintableNoSpace("w");
    PrintableNoSpace("KQkq");
    PrintableNoSpace("-");
    PrintableNoSpace("0");
    PrintableNoSpace("1");
    SixFieldsSplit(InitialFields);
  }

  /** Each starting rank is eight letters or one run of eight empty squares. */
  lemma InitialRanksCanonical()
    ensures forall i :: 0 <= i < 8 ==> CanonicalRank(InitialRanks[i])
  {
    forall i | 0 <= i < 8
      ensures CanonicalRank(InitialRanks[i])
    {
      var r := InitialRanks[i];
      if 2 <= i < 6 {
        assert r == "8" && Width(r) == 8 + Width([]);
      } else {
        LetterRank(r);
      }
    }
  }

  /** The starting placement decodes, and the grid it gives renders back to it. */
  lemma InitialPlacementDecodable()
    ensures PlacementDecodable(InitialFields[0])
    ensures RenderPlacement(DecodePlacement(InitialFields[0])) == InitialFields[0]
  {
    InitialRanksCanonical();
    PlacementOfRanks(InitialRanks);
    CanonicalReRender(InitialFields[0]);
  }

  /** The move number field "1" parses as 1. */
  lemma InitialNumber()
    ensures IsInt32Numeral("1") && NumeralValue("1") == 1
  {
    assert AllDigits("1") && "1"[..0] == [];
    assert DigitsValue("1") == DigitsValue([]) * 10 + DigitValue('1');
  }

  /** The starting position is one Init reads: white to move, move number 1. */
  lemma InitialFenDecodable()
    ensures Decodable(InitialFen)
    ensures DecodeColor(InitialFen) == White && DecodeNumber(InitialFen) == 1
  {
    InitialFieldsSplit();
    InitialPlacementDecodable();
    InitialNumber();
  }

  // ---------------------------------------------------------------------------------------
  // Legal moves as values
  // ---------------------------------------------------------------------------------------

  /** Both tests `Move` applies: the move test allows it, and afterwards the mover's king is safe. */
  predicate Legal(cm: MoveTest, p: Position, fm: FigureMoving)
    requires IsInt32(p.number)
  {
    cm(p, fm) && !CanEatKing(cm, Applied(p, fm))
  }

  /** The legal moves of `fs` to the first n squares of the scan, in scan order. */
  function MovesOf(cm: MoveTest, p: Position, fs: FigureOnSquare, n: nat): seq<FigureMoving>
    requires IsInt32(p.number) && n <= 64
    // The position in the measure stops the solver from unrolling `MovesOf(cm, p, fs, 64)`.
    decreases n, p
  {
    if n == 0 then []
    else
      var fm := Toward(fs, SquareAt(n - 1));
      MovesOf(cm, p, fs, n - 1) + (if Legal(cm, p, fm) then [fm] else [])
  }

  /** One more square: the move to square n of the scan is appended when it is legal. */
  lemma MovesOfStep(cm: MoveTest, p: Position, fs: FigureOnSquare, n: nat)
    requires IsInt32(p.number) && n < 64
    ensures MovesOf(cm, p, fs, n + 1) ==
      MovesOf(cm, p, fs, n) + (if Legal(cm, p, Toward(fs, SquareAt(n))) then [Toward(fs, SquareAt(n))] else [])
  {
  }

  lemma AppendAssoc<T>(a: seq<T>, b: seq<T>, c: seq<T>)
    ensures a + (b + c) == a + b + c
  {
  }

  /** The legal moves of the figures `figs`, figure by figure. */
  function MovesOfAll(cm: MoveTest, p: Position, figs: seq<FigureOnSquare>): seq<FigureMoving>
    requires IsInt32(p.number)
  {
    if figs == [] then []
    else MovesOfAll(cm, p, figs[..|figs| - 1]) + MovesOf(cm, p, figs[|figs| - 1], 64)
  }

  /** What `FindAllMoves` collects into `allMoves`. */
  function LegalMoves(cm: MoveTest, p: Position): (moves: seq<FigureMoving>)
    requires IsInt32(p.number)
    ensures YieldFigures(p) == [] ==> moves == []
  {
    MovesOfAll(cm, p, YieldFigures(p))
  }

  /** `a` comes before `b`: by origin in scan order, then by destination in scan order. */
  predicate Before(a: FigureMoving, b: FigureMoving)
  {
    Index(a.from) < Index(b.from) || (Index(a.from) == Index(b.from) && Index(a.to) < Index(b.to))
  }

  /**
   * The moves of one figure start at its square with no promotion, go to on-board squares
   * among the first n in strictly increasing scan order, and pass both tests.
   */
  lemma {:induction false} MovesOfSound(cm: MoveTest, p: Position, fs: FigureOnSquare, n: nat)
    requires IsInt32(p.number) && n <= 64
    ensures forall k :: 0 <= k < |MovesOf(cm, p, fs, n)| ==>
      MovesOf(cm, p, fs, n)[k].figure == fs.figure && MovesOf(cm, p, fs, n)[k].from == fs.square &&
      MovesOf(cm, p, fs, n)[k].promotion == None && Legal(cm, p, MovesOf(cm, p, fs, n)[k])
    ensures forall k :: 0 <= k < |MovesOf(cm, p, fs, n)| ==>
      OnBoard(MovesOf(cm, p, fs, n)[k].to) && Index(MovesOf(cm, p, fs, n)[k].to) < n
    ensures forall i, j :: 0 <= i < j < |MovesOf(cm, p, fs, n)| ==>
      Index(MovesOf(cm, p, fs, n)[i].to) < Index(MovesOf(cm, p, fs, n)[j].to)
  {
    if n > 0 {
      MovesOfSound(cm, p, fs, n - 1);
      SquareIndex(n - 1);
    }
  }

  /** Every legal move of the figure to one of the first n squares is among its moves. */
  lemma {:induction false} MovesOfComplete(cm: MoveTest, p: Position, fs: FigureOnSquare, n: nat, t: Square)
    requires IsInt32(p.number) && n <= 64
    requires OnBoard(t) && Index(t) < n && Legal(cm, p, Toward(fs, t))
    ensures Toward(fs, t) in MovesOf(cm, p, fs, n)
  {
    IndexSquare(t);
    if Index(t) < n - 1 {
      MovesOfComplete(cm, p, fs, n - 1, t);
    }
  }

  /**
   * For figures on strictly increasing squares, the collected moves are exactly the moves
   * of some figure among them, come in `Before` order, and start no later than the last figure.
   */
  lemma {:induction false} MovesOfAllSpec(cm: MoveTest, p: Position, figs: seq<FigureOnSquare>)
    requires IsInt32(p.number)
    requires forall i, j :: 0 <= i < j < |figs| ==> Index(figs[i].square) < Index(figs[j].square)
    ensures forall fm :: fm in MovesOfAll(cm, p, figs) <==>
      exists fs :: fs in figs && fm in MovesOf(cm, p, fs, 64)
    ensures forall i, j :: 0 <= i < j < |MovesOfAll(cm, p, figs)| ==>
      Before(MovesOfAll(cm, p, figs)[i], MovesOfAll(cm, p, figs)[j])
    ensures figs != [] ==> forall k :: 0 <= k < |MovesOfAll(cm, p, figs)| ==>
      Index(MovesOfAll(cm, p, figs)[k].from) <= Index(figs[|figs| - 1].square)
  {
    if figs != [] {
      var front, last := figs[..|figs| - 1], figs[|figs| - 1];
      var a, b := MovesOfAll(cm, p, front), MovesOf(cm, p, last, 64);
      assert MovesOfAll(cm, p, figs) == a + b;
      MovesOfAllSpec(cm, p, front);
      MovesOfSound(cm, p, last, 64);
      forall fm
        ensures fm in a + b <==> exists fs :: fs in figs && fm in MovesOf(cm, p, fs, 64)
      {
        if fm in a {
          var fs :| fs in front && fm in MovesOf(cm, p, fs, 64);
          assert fs in figs;
        }
        if exists fs :: fs in figs && fm in MovesOf(cm, p, fs, 64) {
          var fs :| fs in figs && fm in MovesOf(cm, p, fs, 64);
          if fs != last {
            assert fs in front;
          }
        }
      }
      if front != [] {
        forall k | 0 <= k < |a|
          ensures Index(a[k].from) < Index(last.square)
        {
          assert Index(front[|front| - 1].square) < Index(last.square);
        }
      }
    }
  }

  /**
   * A move is collected exactly when its origin holds a figure of the side to move, it is
   * that figure, it goes to an on-board square without promotion, and it passes both tests.
   */
  lemma LegalMovesIff(cm: MoveTest, p: Position, fm: FigureMoving)
    requires IsInt32(p.number)
    ensures fm in LegalMoves(cm, p) <==>
      OnBoard(fm.from) && IsOf(FigureAt(p.cells, fm.from), p.color) &&
      fm.figure == FigureAt(p.cells, fm.from) && OnBoard(fm.to) && fm.promotion == None &&
      Legal(cm, p, fm)
  {
    var figs := YieldFigures(p);
    YieldFiguresSpec(p);
    MovesOfAllSpec(cm, p, figs);
    var fs := FigureOnSquare(fm.figure, fm.from);
    if fm in LegalMoves(cm, p) {
      var gs :| gs in figs && fm in MovesOf(cm, p, gs, 64);
      MovesOfSound(cm, p, gs, 64);
    }
    if OnBoard(fm.from) && IsOf(FigureAt(p.cells, fm.from), p.color) &&
      fm.figure == FigureAt(p.cells, fm.from) && OnBoard(fm.to) && fm.promotion == None &&
      Legal(cm, p, fm)
    {
      IndexSquare(fm.to);
      assert Toward(fs, fm.to) == fm;
      MovesOfComplete(cm, p, fs, 64, fm.to);
      assert fs in figs;
    }
  }

  /**
   * The collected moves are ordered by origin, then destination, in scan order; so no
   * (origin, destination) pair occurs twice.
   */
  lemma LegalMovesOrdered(cm: MoveTest, p: Position)
    requires IsInt32(p.number)
    ensures forall i, j :: 0 <= i < j < |LegalMoves(cm, p)| ==>
      Before(LegalMoves(cm, p)[i], LegalMoves(cm, p)[j])
    ensures forall i, j :: 0 <= i < j < |LegalMoves(cm, p)| ==>
      (LegalMoves(cm, p)[i].from, LegalMoves(cm, p)[i].to) != (LegalMoves(cm, p)[j].from, LegalMoves(cm, p)[j].to)
  {
    YieldFiguresSpec(p);
    MovesOfAllSpec(cm, p, YieldFigures(p));
  }

  // ---------------------------------------------------------------------------------------
  // The game object
  // ---------------------------------------------------------------------------------------

  class GameChess {
    var fen: string
    var board: Board
    /** `moves = new Moves(board)` and the move-token code, all unseen. */
    const rules: Rules
    var allMoves: seq<FigureMoving>

    /** The board is well formed and the game's FEN is the board's. */
    ghost predicate Valid()
      reads this, board, board.figures
    {
      board.Valid() && fen == board.fen
    }

    /** `GameChess(fen)`: a game over a fresh board read from the FEN, by default the initial position. */
    constructor(rules: Rules, fen: string := InitialFen)
      requires HasSixFields(fen) ==> Decodable(fen)
      ensures Valid() && fresh(board) && this.fen == fen && this.rules == rules
      ensures HasSixFields(fen) ==>
        board.State() == Position(fen, DecodeGrid(fen), DecodeColor(fen), DecodeNumber(fen))
    {
      this.fen := fen;
      board := new Board(fen);
      this.rules := rules;
      allMoves := [];
    }

    /** `GameChess(board)`: a game over an existing board, taking its FEN. */
    constructor FromBoard(board: Board, rules: Rules)
      requires board.Valid()
      ensures Valid() && this.board == board && fen == board.fen && this.rules == rules
    {
      this.board := board;
      fen := board.fen;
      this.rules := rules;
      allMoves := [];
    }

    /**
     * `Move`: the parsed move is refused, returning this game, when the move test rejects it
     * or when it would leave the mover's king capturable; otherwise the game continues on
     * the moved board.
     */
    method Move(move: string) returns (g: GameChess)
      requires Valid()
      ensures g.Valid() && g.rules == rules
      ensures !rules.canMove(board.State(), rules.parse(move)) ==> g == this
      ensures HasSixFields(fen) ==>
        var p, fm := board.State(), rules.parse(move);
        if Legal(rules.canMove, p, fm) then
          fresh(g) && g.board.State() == Applied(p, fm) && g.fen == Applied(p, fm).fen
        else g == this
    {
      var fm := rules.parse(move);
      if !rules.canMove(board.Snapshot(), fm) {
        return this;
      }
      var check := board.IsCheckAfterMove(rules.canMove, fm);
      if check {
        return this;
      }
      var nextBoard := board.Move(fm);
      g := new GameChess.FromBoard(nextBoard, rules);
    }

    /** `GetFigureAt(x, y)`: '.' for an empty or off-board square, else the figure's letter. */
    function GetFigureAt(x: int, y: int): (c: char)
      reads this, board, board.figures
      requires Valid()
      ensures c == '.' <==> FigureAt(board.cells, Square(x, y)) == None
      ensures c != '.' ==> IsFigureLetter(c) && FigureOfLetter(c) == FigureAt(board.cells, Square(x, y))
      ensures !OnBoard(Square(x, y)) ==> c == '.'
    {
      var f := board.GetFigureAt(Square(x, y));
      if f == None then '.' else LetterRoundTrip(f, ' '); Letter(f)
    }

    /**
     * `FindAllMoves`: for each own figure in scan order and each square in scan order, the
     * move is kept when the move test allows it and the mover's king is then safe.
     */
    method FindAllMoves()
      requires Valid()
      modifies this`allMoves
      ensures HasSixFields(fen) ==> allMoves == LegalMoves(rules.canMove, board.State())
    {
      var p := board.Snapshot();
      var figs := YieldFigures(p);
      allMoves := [];
      var i := 0;
      while i < |figs|
        invariant 0 <= i <= |figs|
        invariant HasSixFields(fen) ==> allMoves == MovesOfAll(rules.canMove, p, figs[..i])
      {
        AddMovesOf(p, figs[i]);
        assert figs[..i + 1][..i] == figs[..i];
        i := i + 1;
      }
      assert figs[..i] == figs;
    }

    /** The inner loop of `FindAllMoves`: appends the legal moves of `fs`, in scan order of destination. */
    method AddMovesOf(p: Position, fs: FigureOnSquare)
      requires Valid() && p == board.State()
      modifies this`allMoves
      ensures HasSixFields(fen) ==> allMoves == old(allMoves) + MovesOf(rules.canMove, p, fs, 64)
    {
      ghost var start := allMoves;
      var k := 0;
      while k < 64
        invariant 0 <= k <= 64
        invariant HasSixFields(fen) ==> allMoves == start + MovesOf(rules.canMove, p, fs, k)
      {
        var fm := Toward(fs, AllSquares[k]);
        assert fm == Toward(fs, SquareAt(k));
        ghost var before := allMoves;
        if rules.canMove(p, fm) {
          var check := board.IsCheckAfterMove(rules.canMove, fm);
          if !check {
            allMoves := allMoves + [fm];
          }
        }
        ghost var added := if Legal(rules.canMove, p, fm) then [fm] else [];
        assert HasSixFields(fen) ==> allMoves == before + added;
        MovesOfStep(rules.canMove, p, fs, k);
        AppendAssoc(start, MovesOf(rules.canMove, p, fs, k), added);
        k := k + 1;
      }
    }

    /** `GetAllMoves`: the text of each collected move, in the same order. */
    method GetAllMoves() returns (list: seq<string>)
      requires Valid()
      modifies this`allMoves
      ensures |list| == |allMoves| && forall i :: 0 <= i < |list| ==> list[i] == rules.text(allMoves[i])
      ensures HasSixFields(fen) ==> allMoves == LegalMoves(rules.canMove, board.State())
    {
      FindAllMoves();
      list := [];
      var i := 0;
      while i < |allMoves|
        invariant 0 <= i <= |allMoves|
        invariant |list| == i && forall j :: 0 <= j < i ==> list[j] == rules.text(allMoves[j])
      {
        list := list + [rules.text(allMoves[i])];
        i := i + 1;
      }
    }

    /** `isCheck`: the board's check test; the game is left as it was. */
    method IsCheck() returns (check: bool)
      requires Valid()
      ensures HasSixFields(fen) ==>
        check == CanEatKing(rules.canMove, board.State().(color := Flip(board.moveColor)))
    {
      check := board.IsCheck(rules.canMove);
    }
  }
}
