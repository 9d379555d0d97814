/**
 * Forsyth-Edwards Notation as the board reads and writes it: the piece-placement field
 * (digit runs for empty cells, '/' between ranks, rank 8 first), the side to move and the
 * fullmove number. Castling, en passant and the halfmove clock are read past and always
 * written as "- - 0".
 */
module Fen {
  import opened Pieces
  import opened Strings
  import opened Numerals

  /** The contents of the board's `figures[x, y]` array, indexed `g[x][y]`. */
  type Grid = g: seq<seq<Figure>> | |g| == 8 && forall x :: 0 <= x < 8 ==> |g[x]| == 8
    witness seq(8, _ => seq(8, _ => None))

  predicate IsRunDigit(c: char) { '1' <= c <= '8' }

  function RunLength(c: char): int
    requires IsRunDigit(c)
  {
    DigitValue(c)
  }

  function Repeat(c: char, n: nat): (s: string)
    ensures |s| == n && forall i :: 0 <= i < n ==> s[i] == c
  {
    if n == 0 then [] else [c] + Repeat(c, n - 1)
  }

  // ---------------------------------------------------------------------------------------
  // Reading the placement field (Board.InitFigures)
  // ---------------------------------------------------------------------------------------

  /** A digit 1-8 stands for that many empty cells, written '.'; every other character stays. */
  function ExpandChar(c: char): string
  {
    if IsRunDigit(c) then Repeat('.', RunLength(c)) else [c]
  }

  function Expand(s: string): string
  {
    if s == [] then [] else ExpandChar(s[0]) + Expand(s[1..])
  }

  lemma {:induction false} ExpandAppend(a: string, b: string)
    ensures Expand(a + b) == Expand(a) + Expand(b)
  {
    if a == [] {
      assert a + b == b;
    } else {
      assert (a + b)[1..] == a[1..] + b;
      ExpandAppend(a[1..], b);
    }
  }

  /**
   * The string after the replacements for the digits 8 down to k + 1 have been made: a
   * digit d > k has become the digit k followed by d - k ones.
   */
  function StageChar(c: char, k: int): string
    requires 1 <= k <= 8
  {
    if IsRunDigit(c) && RunLength(c) > k then [DigitChar(k)] + Repeat('1', RunLength(c) - k) else [c]
  }

  function Stage(s: string, k: int): string
    requires 1 <= k <= 8
  {
    if s == [] then [] else StageChar(s[0], k) + Stage(s[1..], k)
  }

  lemma {:induction false} StageStart(s: string)
    ensures Stage(s, 8) == s
  {
    if s != [] {
      StageStart(s[1..]);
      assert [s[0]] + s[1..] == s;
    }
  }

  lemma {:induction false} ReplaceInOnes(n: nat, c: char, r: string)
    requires c != '1'
    ensures ReplaceChar(Repeat('1', n), c, r) == Repeat('1', n)
  {
    if n > 0 {
      ReplaceInOnes(n - 1, c, r);
    }
  }

  lemma {:induction false} OnesToDots(n: nat)
    ensures ReplaceChar(Repeat('1', n), '1', ".") == Repeat('.', n)
  {
    if n > 0 {
      OnesToDots(n - 1);
    }
  }

  /** One turn of the loop at Board.cs:31-34: replacing digit j by "(j-1)1" moves the stage down. */
  lemma {:induction false} StageStep(s: string, j: int)
    requires 2 <= j <= 8
    ensures ReplaceChar(Stage(s, j), DigitChar(j), [DigitChar(j - 1), '1']) == Stage(s, j - 1)
  {
    if s != [] {
      var c := s[0];
      var d, d1 := DigitChar(j), DigitChar(j - 1);
      StageStep(s[1..], j);
      ReplaceCharAppend(StageChar(c, j), Stage(s[1..], j), d, [d1, '1']);
      if IsRunDigit(c) && RunLength(c) > j {
        var n := RunLength(c) - j;
        ReplaceCharAppend([d], Repeat('1', n), d, [d1, '1']);
        ReplaceInOnes(n, d, [d1, '1']);
        assert [d1, '1'] + Repeat('1', n) == [d1] + Repeat('1', n + 1);
      } else if c == d {
        assert RunLength(c) == j;
        assert [d1] + Repeat('1', 1) == [d1, '1'];
      }
    }
  }

  /** After the last replacement, every '1' becomes '.', which completes the expansion. */
  lemma {:induction false} StageFinish(s: string)
    ensures ReplaceChar(Stage(s, 1), '1', ".") == Expand(s)
  {
    if s != [] {
      var c := s[0];
      StageFinish(s[1..]);
      ReplaceCharAppend(StageChar(c, 1), Stage(s[1..], 1), '1', ".");
      if IsRunDigit(c) && RunLength(c) > 1 {
        ReplaceCharAppend([DigitChar(1)], Repeat('1', RunLength(c) - 1), '1', ".");
        OnesToDots(RunLength(c) - 1);
        assert "." + Repeat('.', RunLength(c) - 1) == Repeat('.', RunLength(c));
      } else if c == '1' {
        assert Repeat('.', 1) == ".";
      }
    }
  }

  /** A cell of an expanded rank: '.' is empty, a letter is a piece. */
  predicate IsCellChar(c: char)
  {
    c == '.' || IsFigureLetter(c)
  }

  function CellOf(c: char): Figure
    requires IsCellChar(c)
  {
    if c == '.' then None else FigureOfLetter(c)
  }

  /** The character a cell shows once digit runs are expanded; `CellOf` reads it back. */
  function CellChar(f: Figure): (c: char)
    ensures IsCellChar(c) && CellOf(c) == f
  {
    if f == None then '.' else LetterRoundTrip(f, ' '); Letter(f)
  }

  /** The expanded placement cut at every '/'; line 0 is rank 8. */
  function Lines(data: string): seq<string>
  {
    Split(Expand(data), {'/'})
  }

  /**
   * What InitFigures needs in order not to throw or read past a rank: eight lines (more are
   * ignored), each with at least eight cells (more are ignored), each cell '.' or a letter.
   */
  predicate LinesDecodable(lines: seq<string>)
  {
    |lines| >= 8 &&
    forall i :: 0 <= i < 8 ==> |lines[i]| >= 8 && forall x :: 0 <= x < 8 ==> IsCellChar(lines[i][x])
  }

  predicate PlacementDecodable(data: string)
  {
    LinesDecodable(Lines(data))
  }

  /** Squares 0 .. n - 1 of file x: `figures[x, y]` comes from cell x of line 7 - y. */
  function FileOf(lines: seq<string>, x: int, n: nat): (col: seq<Figure>)
    requires LinesDecodable(lines) && 0 <= x < 8 && n <= 8
    ensures |col| == n && forall y :: 0 <= y < n ==> col[y] == CellOf(lines[7 - y][x])
  {
    if n == 0 then [] else FileOf(lines, x, n - 1) + [CellOf(lines[8 - n][x])]
  }

  /** Files 0 .. n - 1. */
  function FilesOf(lines: seq<string>, n: nat): (g: seq<seq<Figure>>)
    requires LinesDecodable(lines) && n <= 8
    ensures |g| == n && forall x :: 0 <= x < n ==> g[x] == FileOf(lines, x, 8)
  {
    if n == 0 then [] else FilesOf(lines, n - 1) + [FileOf(lines, n - 1, 8)]
  }

  /** The grid InitFigures fills from the cut lines: cell x of line 7 - y is square (x, y). */
  function DecodeLines(lines: seq<string>): (g: Grid)
    requires LinesDecodable(lines)
    ensures forall x, y :: 0 <= x < 8 && 0 <= y < 8 ==> g[x][y] == CellOf(lines[7 - y][x])
  {
    FilesOf(lines, 8)
  }

  function DecodePlacement(data: string): Grid
    requires PlacementDecodable(data)
  {
    DecodeLines(Lines(data))
  }

  // ---------------------------------------------------------------------------------------
  // Writing the placement field (Board.FenFigures)
  // ---------------------------------------------------------------------------------------

  /** What FenFigures appends for one cell: '1' for an empty cell, else the letter. */
  function RawChar(f: Figure): char
  {
    if f == None then '1' else Letter(f)
  }

  predicate IsRawChar(c: char)
  {
    c == '1' || IsFigureLetter(c)
  }

  predicate IsRaw(s: string)
  {
    forall i :: 0 <= i < |s| ==> IsRawChar(s[i])
  }

  /** Rank y, file a first, before any collapsing. */
  function RawRank(g: Grid, y: int): (r: string)
    requires 0 <= y < 8
    ensures |r| == 8 && forall x :: 0 <= x < 8 ==> r[x] == RawChar(g[x][y])
  {
    seq(8, x requires 0 <= x < 8 => RawChar(g[x][y]))
  }

  /** The eight raw ranks in the order they are written: rank 8 (y = 7) first. */
  function RawRanks(g: Grid): (rr: seq<string>)
    ensures |rr| == 8 && forall i :: 0 <= i < 8 ==> rr[i] == RawRank(g, 7 - i)
  {
    seq(8, i requires 0 <= i < 8 => RawRank(g, 7 - i))
  }

  /** Each part expanded. */
  function ExpandEach(parts: seq<string>): (r: seq<string>)
    ensures |r| == |parts| && forall i :: 0 <= i < |parts| ==> r[i] == Expand(parts[i])
  {
    if parts == [] then [] else [Expand(parts[0])] + ExpandEach(parts[1..])
  }

  /** Each part collapsed. */
  function CollapseEach(parts: seq<string>): (r: seq<string>)
    ensures |r| == |parts| && forall i :: 0 <= i < |parts| ==> r[i] == Collapse(parts[i])
  {
    if parts == [] then [] else [Collapse(parts[0])] + CollapseEach(parts[1..])
  }

  /**
   * The digits that replace a run of k ones. The replacements at Board.cs:68-70 go from
   * "11111111" down to "11", so a run longer than 8 would lose 8 at a time; inside a rank
   * runs are at most 8 long.
   */
  function RunDigits(k: nat): string
  {
    if k == 0 then [] else if k <= 8 then [DigitChar(k)] else "8" + RunDigits(k - 8)
  }

  /** Collapsing with k ones already pending. */
  function Squash(s: string, k: nat): string
  {
    if s == [] then RunDigits(k)
    else if s[0] == '1' then Squash(s[1..], k + 1)
    else RunDigits(k) + [s[0]] + Squash(s[1..], 0)
  }

  /** The effect of the StringBuilder.Replace loop: every maximal run of ones becomes its length. */
  function Collapse(s: string): string
  {
    Squash(s, 0)
  }

  /** The placement field FenFigures returns for a grid. */
  function RenderPlacement(g: Grid): string
  {
    Collapse(Join(RawRanks(g), '/'))
  }

  lemma {:induction false} SquashAt(a: string, c: char, b: string, k: nat)
    requires c != '1'
    ensures Squash(a + [c] + b, k) == Squash(a, k) + [c] + Squash(b, 0)
  {
    var s := a + [c] + b;
    if a == [] {
      assert s == [c] + b;
      assert s[0] == c && s[1..] == b;
      assert Squash(s, k) == RunDigits(k) + [c] + Squash(b, 0);
    } else {
      assert s[0] == a[0] && s[1..] == a[1..] + [c] + b;
      if a[0] == '1' {
        SquashAt(a[1..], c, b, k + 1);
        assert Squash(s, k) == Squash(s[1..], k + 1);
      } else {
        SquashAt(a[1..], c, b, 0);
        assert Squash(s, k) == RunDigits(k) + [a[0]] + Squash(s[1..], 0);
        assert Squash(a, k) == RunDigits(k) + [a[0]] + Squash(a[1..], 0);
      }
    }
  }

  /** Ranks are collapsed independently of each other: '/' ends every run. */
  lemma {:induction false} CollapseJoin(parts: seq<string>, sep: char)
    requires |parts| >= 1 && sep != '1'
    ensures Collapse(Join(parts, sep)) == Join(CollapseEach(parts), sep)
  {
    if |parts| > 1 {
      CollapseJoin(parts[1..], sep);
      SquashAt(parts[0], sep, Join(parts[1..], sep), 0);
    }
  }

  lemma {:induction false} ExpandJoin(parts: seq<string>, sep: char)
    requires |parts| >= 1 && !IsRunDigit(sep)
    ensures Expand(Join(parts, sep)) == Join(ExpandEach(parts), sep)
  {
    if |parts| > 1 {
      ExpandJoin(parts[1..], sep);
      ExpandAppend(parts[0] + [sep], Join(parts[1..], sep));
      ExpandAppend(parts[0], [sep]);
      assert Expand([sep]) == [sep];
    }
  }

  /** Expanding a raw rank turns each '1' into '.' and keeps the letters. */
  lemma {:induction false} ExpandRaw(s: string)
    requires IsRaw(s)
    ensures |Expand(s)| == |s|
    ensures forall i :: 0 <= i < |s| ==> Expand(s)[i] == if s[i] == '1' then '.' else s[i]
  {
    if s != [] {
      assert IsRawChar(s[0]);
      ExpandRaw(s[1..]);
      assert ExpandChar(s[0]) == [if s[0] == '1' then '.' else s[0]];
    }
  }

  lemma ExpandRunDigits(k: nat)
    requires k <= 8
    ensures Expand(RunDigits(k)) == Repeat('.', k)
  {
    if k > 0 {
      var d := DigitChar(k);
      assert RunDigits(k) == [d];
      assert Expand([d]) == ExpandChar(d) + Expand([]);
    }
  }

  lemma ExpandPrefixed(k: nat, c: char, t: string)
    requires k <= 8 && !IsRunDigit(c)
    ensures Expand(RunDigits(k) + [c] + t) == Repeat('.', k) + [c] + Expand(t)
  {
    ExpandAppend(RunDigits(k) + [c], t);
    ExpandAppend(RunDigits(k), [c]);
    ExpandRunDigits(k);
    assert Expand([c]) == ExpandChar(c) + Expand([]);
  }

  lemma RepeatSnoc(c: char, n: nat)
    ensures Repeat(c, n + 1) == Repeat(c, n) + [c]
  {
  }

  /** One '1' more pending before the rest: the dots move from the rest into the prefix. */
  lemma DotsShift(k: nat, rest: string)
    ensures Repeat('.', k + 1) + rest == Repeat('.', k) + ("." + rest)
  {
    RepeatSnoc('.', k);
  }

  /** Expanding a collapsed run-bounded raw string gives back its dots. */
  lemma {:induction false} SquashExpand(s: string, k: nat)
    requires IsRaw(s) && k + |s| <= 8
    ensures Expand(Squash(s, k)) == Repeat('.', k) + Expand(s)
  {
    if s == [] {
      ExpandRunDigits(k);
      assert Squash(s, k) == RunDigits(k);
    } else {
      var c, r := s[0], s[1..];
      assert IsRawChar(c);
      assert IsRaw(r) by {
        forall i | 0 <= i < |r|
          ensures IsRawChar(r[i])
        {
          assert r[i] == s[i + 1];
        }
      }
      assert Expand(s) == ExpandChar(c) + Expand(r);
      if c == '1' {
        assert Squash(s, k) == Squash(r, k + 1);
        SquashExpand(r, k + 1);
        assert ExpandChar(c) == ".";
        DotsShift(k, Expand(r));
      } else {
        var t := Squash(r, 0);
        assert Squash(s, k) == RunDigits(k) + [c] + t;
        SquashExpand(r, 0);
        assert Repeat('.', 0) + Expand(r) == Expand(r);
        ExpandPrefixed(k, c, t);
        assert ExpandChar(c) == [c];
        assert Repeat('.', k) + [c] + Expand(r) == Repeat('.', k) + ([c] + Expand(r));
      }
    }
  }

  /** Rank y of the grid, expanded: '.' for an empty cell, else the piece's letter. */
  lemma ExpandRawRank(g: Grid, y: int)
    requires 0 <= y < 8
    ensures |Expand(RawRank(g, y))| == 8
    ensures forall x :: 0 <= x < 8 ==>
      Expand(RawRank(g, y))[x] == CellChar(g[x][y])
    ensures forall x :: 0 <= x < 8 ==> IsCellChar(Expand(RawRank(g, y))[x])
    ensures NoneOf(Expand(RawRank(g, y)), {'/'})
  {
    var r := RawRank(g, y);
    assert IsRaw(r);
    ExpandRaw(r);
    var e := Expand(r);
    forall x | 0 <= x < 8
      ensures IsCellChar(e[x]) && e[x] != '/'
    {
      assert IsRawChar(r[x]);
    }
  }

  /** Collapsing a join of ranks and expanding it again gives the expanded ranks, line by line. */
  lemma LinesOfCollapsedJoin(rr: seq<string>)
    requires |rr| >= 1
    requires forall k :: 0 <= k < |rr| ==> Expand(Collapse(rr[k])) == Expand(rr[k])
    requires forall k :: 0 <= k < |rr| ==> NoneOf(Expand(rr[k]), {'/'})
    ensures Split(Expand(Collapse(Join(rr, '/'))), {'/'}) == ExpandEach(rr)
  {
    var cr := CollapseEach(rr);
    var er := ExpandEach(rr);
    CollapseJoin(rr, '/');
    ExpandJoin(cr, '/');
    assert ExpandEach(cr) == er;
    var c := Collapse(Join(rr, '/'));
    assert c == Join(cr, '/');
    assert Expand(c) == Join(er, '/');
    forall k | 0 <= k < |er|
      ensures NoneOf(er[k], {'/'})
    {
      assert er[k] == Expand(rr[k]);
    }
    SplitJoin(er, '/', {'/'});
  }

  /** The lines InitFigures cuts from a rendered placement are the expanded raw ranks. */
  lemma RenderedLines(g: Grid)
    ensures Lines(RenderPlacement(g)) == ExpandEach(RawRanks(g))
  {
    var rr := RawRanks(g);
    forall k | 0 <= k < 8
      ensures Expand(Collapse(rr[k])) == Expand(rr[k]) && NoneOf(Expand(rr[k]), {'/'})
    {
      CollapsedRankExpands(g, 7 - k);
      ExpandRawRank(g, 7 - k);
    }
    LinesOfCollapsedJoin(rr);
  }

  lemma CollapsedRankExpands(g: Grid, y: int)
    requires 0 <= y < 8
    ensures Expand(Collapse(RawRank(g, y))) == Expand(RawRank(g, y))
  {
    var r := RawRank(g, y);
    assert IsRaw(r);
    SquashExpand(r, 0);
    assert Repeat('.', 0) + Expand(r) == Expand(r);
  }

  /** Lines that show a grid's ranks, rank 8 first, decode to that grid. */
  lemma DecodeShownLines(g: Grid, p: string)
    requires |Lines(p)| >= 8
    requires forall i :: 0 <= i < 8 ==> |Lines(p)[i]| >= 8
    requires forall i, x :: 0 <= i < 8 && 0 <= x < 8 ==> Lines(p)[i][x] == CellChar(g[x][7 - i])
    ensures PlacementDecodable(p)
    ensures DecodePlacement(p) == g
  {
    var lines := Lines(p);
    forall i, x | 0 <= i < 8 && 0 <= x < 8
      ensures IsCellChar(lines[i][x])
    {
      assert lines[i][x] == CellChar(g[x][7 - i]);
    }
    assert PlacementDecodable(p);
    var d := DecodePlacement(p);
    forall x | 0 <= x < 8
      ensures d[x] == g[x]
    {
      forall y | 0 <= y < 8
        ensures d[x][y] == g[x][y]
      {
        assert d[x][y] == CellOf(lines[7 - y][x]);
      }
    }
  }

  /** Each line of a rendered placement shows one rank, cell by cell. */
  lemma RenderedCells(g: Grid)
    ensures |Lines(RenderPlacement(g))| == 8
    ensures forall i :: 0 <= i < 8 ==> |Lines(RenderPlacement(g))[i]| == 8
    ensures forall i, x :: 0 <= i < 8 && 0 <= x < 8 ==>
      Lines(RenderPlacement(g))[i][x] == CellChar(g[x][7 - i])
  {
    var lines := Lines(RenderPlacement(g));
    RenderedLines(g);
    forall i | 0 <= i < 8
      ensures |lines[i]| == 8
      ensures forall x :: 0 <= x < 8 ==> lines[i][x] == CellChar(g[x][7 - i])
    {
      ExpandRawRank(g, 7 - i);
    }
  }

  /** Rendering a grid and reading it back gives the grid. */
  lemma PlacementRoundTrip(g: Grid)
    ensures PlacementDecodable(RenderPlacement(g))
    ensures DecodePlacement(RenderPlacement(g)) == g
  {
    RenderedCells(g);
    DecodeShownLines(g, RenderPlacement(g));
  }

  // ---------------------------------------------------------------------------------------
  // Canonical form of a rank and of the placement
  // ---------------------------------------------------------------------------------------

  predicate IsRankToken(c: char)
  {
    IsRunDigit(c) || IsFigureLetter(c)
  }

  predicate AllTokens(r: string)
  {
    forall i :: 0 <= i < |r| ==> IsRankToken(r[i])
  }

  /** The number of cells a rank stands for: each digit its value, each letter one. */
  function Width(r: string): int
  {
    if r == [] then 0 else (if IsRunDigit(r[0]) then RunLength(r[0]) else 1) + Width(r[1..])
  }

  predicate NoAdjacentDigits(r: string)
  {
    forall i :: 0 < i < |r| ==> !IsRunDigit(r[i - 1]) || !IsRunDigit(r[i])
  }

  /** A rank with maximal digit runs covering exactly eight cells. */
  predicate CanonicalRank(r: string)
  {
    AllTokens(r) && NoAdjacentDigits(r) && Width(r) == 8
  }

  /** Eight canonical ranks between seven '/'. */
  predicate CanonicalPlacement(p: string)
  {
    var rs := Split(p, {'/'});
    |rs| == 8 && forall i :: 0 <= i < 8 ==> CanonicalRank(rs[i])
  }

  lemma {:induction false} NoAdjacentCons(c: char, t: string)
    requires NoAdjacentDigits(t)
    requires t == [] || !IsRunDigit(c) || !IsRunDigit(t[0])
    ensures NoAdjacentDigits([c] + t)
  {
    var r := [c] + t;
    forall i | 0 < i < |r|
      ensures !IsRunDigit(r[i - 1]) || !IsRunDigit(r[i])
    {
      if i > 1 {
        assert r[i - 1] == t[i - 2] && r[i] == t[i - 1];
      }
    }
  }

  lemma TokensCons(c: char, t: string)
    ensures Width([c] + t) == (if IsRunDigit(c) then RunLength(c) else 1) + Width(t)
    ensures IsRankToken(c) && AllTokens(t) ==> AllTokens([c] + t)
  {
    assert ([c] + t)[1..] == t;
  }

  /** A collapsed raw rank is canonical and covers as many cells as it had characters. */
  lemma {:induction false} SquashCanonical(s: string, k: nat)
    requires IsRaw(s) && k + |s| <= 8
    ensures AllTokens(Squash(s, k)) && NoAdjacentDigits(Squash(s, k))
    ensures Width(Squash(s, k)) == k + |s|
  {
    if s == [] {
      if k > 0 {
        assert RunDigits(k) == [DigitChar(k)];
      }
    } else if s[0] == '1' {
      assert Squash(s, k) == Squash(s[1..], k + 1);
      SquashCanonical(s[1..], k + 1);
    } else {
      var c := s[0];
      assert IsRawChar(c);
      var t := Squash(s[1..], 0);
      SquashCanonical(s[1..], 0);
      var u := [c] + t;
      assert Squash(s, k) == RunDigits(k) + [c] + t;
      assert RunDigits(k) + [c] + t == RunDigits(k) + u;
      TokensCons(c, t);
      NoAdjacentCons(c, t);
      if k > 0 {
        var d := DigitChar(k);
        assert RunDigits(k) == [d];
        TokensCons(d, u);
        NoAdjacentCons(d, u);
      } else {
        assert RunDigits(k) + u == u;
      }
    }
  }

  /** The placement FenFigures writes: eight canonical ranks, rank 8 first, between seven '/'. */
  lemma RenderShape(g: Grid)
    ensures var rs := CollapseEach(RawRanks(g));
      && RenderPlacement(g) == Join(rs, '/')
      && Split(RenderPlacement(g), {'/'}) == rs
      && forall i :: 0 <= i < 8 ==> CanonicalRank(rs[i])
    ensures CanonicalPlacement(RenderPlacement(g))
  {
    var rr := RawRanks(g);
    var rs := CollapseEach(rr);
    CollapseJoin(rr, '/');
    forall i | 0 <= i < 8
      ensures CanonicalRank(rs[i]) && NoneOf(rs[i], {'/'})
    {
      assert IsRaw(rr[i]);
      SquashCanonical(rr[i], 0);
    }
    SplitJoin(rs, '/', {'/'});
  }

  /** A rank with every digit written out as that many ones. */
  function Ones(r: string): string
  {
    if r == [] then []
    else (if IsRunDigit(r[0]) then Repeat('1', RunLength(r[0])) else [r[0]]) + Ones(r[1..])
  }

  lemma {:induction false} SquashOnes(n: nat, t: string, k: nat)
    ensures Squash(Repeat('1', n) + t, k) == Squash(t, k + n)
  {
    if n > 0 {
      assert (Repeat('1', n) + t)[1..] == Repeat('1', n - 1) + t;
      SquashOnes(n - 1, t, k + 1);
    } else {
      assert Repeat('1', n) + t == t;
    }
  }

  /** Collapsing a canonical rank written out with ones gives the rank back. */
  lemma {:induction false} CollapseOnes(r: string)
    requires AllTokens(r) && NoAdjacentDigits(r)
    ensures Collapse(Ones(r)) == r
    decreases |r|
  {
    if r != [] {
      var c := r[0];
      assert IsRankToken(c);
      assert AllTokens(r[1..]) && NoAdjacentDigits(r[1..]) by {
        forall i | 0 < i < |r[1..]|
          ensures !IsRunDigit(r[1..][i - 1]) || !IsRunDigit(r[1..][i])
        {
          assert r[1..][i - 1] == r[i] && r[1..][i] == r[i + 1];
        }
      }
      if IsRunDigit(c) {
        SquashOnes(RunLength(c), Ones(r[1..]), 0);
        assert DigitChar(RunLength(c)) == c;
        if |r| == 1 {
          assert r == [c];
        } else {
          var l := r[1];
          assert !IsRunDigit(l) && IsFigureLetter(l);
          assert AllTokens(r[2..]) && NoAdjacentDigits(r[2..]) by {
            forall i | 0 < i < |r[2..]|
              ensures !IsRunDigit(r[2..][i - 1]) || !IsRunDigit(r[2..][i])
            {
              assert r[2..][i - 1] == r[i + 1] && r[2..][i] == r[i + 2];
            }
          }
          CollapseOnes(r[2..]);
          assert r[1..][1..] == r[2..];
          assert Ones(r[1..]) == [l] + Ones(r[2..]);
          assert ([l] + Ones(r[2..]))[1..] == Ones(r[2..]);
          assert [c] + [l] + r[2..] == r;
        }
      } else {
        CollapseOnes(r[1..]);
        assert Ones(r) == [c] + Ones(r[1..]);
        assert ([c] + Ones(r[1..]))[1..] == Ones(r[1..]);
        assert [c] + r[1..] == r;
      }
    }
  }

  /** Expanding a rank of tokens and writing it out with ones agree cell by cell. */
  lemma {:induction false} ExpandOnes(r: string)
    requires AllTokens(r)
    ensures |Expand(r)| == |Ones(r)| == Width(r)
    ensures forall i :: 0 <= i < |Ones(r)| ==>
      if Ones(r)[i] == '1' then Expand(r)[i] == '.' else Expand(r)[i] == Ones(r)[i] && IsFigureLetter(Ones(r)[i])
  {
    if r != [] {
      assert IsRankToken(r[0]) && AllTokens(r[1..]);
      ExpandOnes(r[1..]);
    }
  }

  /** The lines InitFigures cuts from a canonical placement are its ranks, expanded. */
  lemma CanonicalLines(p: string)
    requires CanonicalPlacement(p)
    ensures var rs := Split(p, {'/'});
      && |rs| == 8 && Lines(p) == ExpandEach(rs)
      && (forall i :: 0 <= i < 8 ==> |Expand(rs[i])| == 8)
      && (forall i, x :: 0 <= i < 8 && 0 <= x < 8 ==> IsCellChar(Expand(rs[i])[x]))
  {
    var rs := Split(p, {'/'});
    JoinSplit(p, '/');
    var er := ExpandEach(rs);
    ExpandJoin(rs, '/');
    forall i | 0 <= i < 8
      ensures |er[i]| == 8 && NoneOf(er[i], {'/'})
      ensures forall x :: 0 <= x < 8 ==> IsCellChar(er[i][x])
    {
      ExpandedRank(rs[i]);
    }
    SplitJoin(er, '/', {'/'});
    assert Expand(p) == Join(er, '/');
  }

  /** A canonical rank expands to eight cells, each '.' or a piece letter. */
  lemma ExpandedRank(r: string)
    requires CanonicalRank(r)
    ensures |Expand(r)| == 8 && NoneOf(Expand(r), {'/'})
    ensures forall x :: 0 <= x < 8 ==> IsCellChar(Expand(r)[x])
  {
    ExpandOnes(r);
  }

  /** A raw rank that shows, cell by cell, what a canonical rank expands to is that rank in ones. */
  lemma RawOfCanonical(r: string, raw: string)
    requires AllTokens(r) && |Expand(r)| == 8 && |raw| == 8
    requires forall x :: 0 <= x < 8 ==> IsCellChar(Expand(r)[x])
    requires forall x :: 0 <= x < 8 ==> raw[x] == RawChar(CellOf(Expand(r)[x]))
    ensures raw == Ones(r)
  {
    ExpandOnes(r);
    forall x | 0 <= x < 8
      ensures raw[x] == Ones(r)[x]
    {
      if Expand(r)[x] != '.' {
        LetterRoundTrip(None, Expand(r)[x]);
      }
    }
  }

  /** A run of piece letters is as wide as it is long. */
  lemma {:induction false} WidthOfLetters(r: string)
    requires forall i :: 0 <= i < |r| ==> IsFigureLetter(r[i])
    ensures Width(r) == |r|
  {
    if r != [] {
      WidthOfLetters(r[1..]);
    }
  }

  /** Eight piece letters make a canonical rank. */
  lemma LetterRank(r: string)
    requires |r| == 8 && forall i :: 0 <= i < 8 ==> IsFigureLetter(r[i])
    ensures CanonicalRank(r)
  {
    WidthOfLetters(r);
  }

  /** Eight canonical ranks joined by '/' make a canonical placement. */
  lemma PlacementOfRanks(rs: seq<string>)
    requires |rs| == 8 && forall i :: 0 <= i < 8 ==> CanonicalRank(rs[i])
    ensures CanonicalPlacement(Join(rs, '/'))
  {
    forall i, k | 0 <= i < 8 && 0 <= k < |rs[i]|
      ensures rs[i][k] != '/'
    {
      assert IsRankToken(rs[i][k]);
    }
    SplitJoin(rs, '/', {'/'});
  }

  /** A placement already in canonical form is written back unchanged. */
  lemma CanonicalReRender(p: string)
    requires CanonicalPlacement(p)
    ensures PlacementDecodable(p)
    ensures RenderPlacement(DecodePlacement(p)) == p
  {
    var rs := Split(p, {'/'});
    CanonicalLines(p);
    var g := DecodePlacement(p);
    var rr := RawRanks(g);
    forall i | 0 <= i < 8
      ensures Collapse(rr[i]) == rs[i]
    {
      forall x | 0 <= x < 8
        ensures rr[i][x] == RawChar(CellOf(Expand(rs[i])[x]))
      {
        assert g[x][7 - i] == CellOf(Lines(p)[i][x]);
      }
      RawOfCanonical(rs[i], rr[i]);
      CollapseOnes(rs[i]);
    }
    CollapseJoin(rr, '/');
    assert CollapseEach(rr) == rs;
    JoinSplit(p, '/');
  }

  // ---------------------------------------------------------------------------------------
  // The whole FEN string (Board.Init and Board.GenerateFEN)
  // ---------------------------------------------------------------------------------------

  /** `char.IsWhiteSpace`: the Unicode space separators and the control characters it accepts. */
  predicate IsWhiteSpace(c: char)
  {
    || '\t' <= c <= '\r' || c == ' ' || c == '\U{0085}' || c == '\U{00A0}' || c == '\U{1680}'
    || '\U{2000}' <= c <= '\U{200A}' || c == '\U{2028}' || c == '\U{2029}' || c == '\U{202F}'
    || c == '\U{205F}' || c == '\U{3000}'
  }

  /** The characters `string.Split()` with no arguments splits on. */
  const WhiteSpace: set<char> := set c: char | '\t' <= c <= '\U{3000}' && IsWhiteSpace(c)

  /** `fen.Split()`: consecutive blanks give empty fields. */
  function Fields(fen: string): seq<string>
  {
    Split(fen, WhiteSpace)
  }

  /** The guard of Init: anything else leaves the board as it was allocated. */
  predicate HasSixFields(fen: string)
  {
    |Fields(fen)| == 6
  }

  /** A six-field FEN that Init reads without an exception. */
  predicate Decodable(fen: string)
  {
    HasSixFields(fen) && PlacementDecodable(Fields(fen)[0]) && IsInt32Numeral(Fields(fen)[5])
  }

  function DecodeGrid(fen: string): Grid
    requires Decodable(fen)
  {
    DecodePlacement(Fields(fen)[0])
  }

  /** Field 2 equal to "b" means black; any other value means white. */
  function DecodeColor(fen: string): Color
    requires HasSixFields(fen)
  {
    if Fields(fen)[1] == "b" then Black else White
  }

  function DecodeNumber(fen: string): int
    requires Decodable(fen)
  {
    NumeralValue(Fields(fen)[5])
  }

  function SideText(c: Color): string
  {
    if c == White then "w" else "b"
  }

  /** GenerateFEN: placement, side, the fixed "- - 0", and the move number. */
  function Encode(g: Grid, c: Color, n: int): string
  {
    RenderPlacement(g) + " " + SideText(c) + " - - 0 " + IntText(n)
  }

  lemma {:induction false} JoinNoneOf(parts: seq<string>, sep: char, seps: set<char>)
    requires sep !in seps
    requires forall k :: 0 <= k < |parts| ==> NoneOf(parts[k], seps)
    ensures NoneOf(Join(parts, sep), seps)
  {
    if |parts| > 1 {
      JoinNoneOf(parts[1..], sep, seps);
    }
  }

  /** Printable ASCII characters other than the blank are not white space. */
  lemma NotSpace(c: char)
    requires '!' <= c <= '~'
    ensures c !in WhiteSpace
  {
  }

  /** A string of printable ASCII characters other than the blank holds no white space. */
  lemma PrintableNoSpace(s: string)
    requires forall i :: 0 <= i < |s| ==> '!' <= s[i] <= '~'
    ensures NoneOf(s, WhiteSpace)
  {
    forall i | 0 <= i < |s|
      ensures s[i] !in WhiteSpace
    {
      NotSpace(s[i]);
    }
  }

  lemma PlacementNoSpace(g: Grid)
    ensures NoneOf(RenderPlacement(g), WhiteSpace)
  {
    RenderShape(g);
    var rs := CollapseEach(RawRanks(g));
    forall i, k | 0 <= i < 8 && 0 <= k < |rs[i]|
      ensures rs[i][k] !in WhiteSpace
    {
      assert IsRankToken(rs[i][k]);
      NotSpace(rs[i][k]);
    }
    NotSpace('/');
    JoinNoneOf(rs, '/', WhiteSpace);
  }

  lemma JoinCons(p: string, rest: seq<string>, sep: char)
    requires |rest| >= 1
    ensures Join([p] + rest, sep) == p + [sep] + Join(rest, sep)
  {
    assert ([p] + rest)[1..] == rest;
  }

  /** The text GenerateFEN concatenates is the six fields joined by blanks. */
  lemma JoinFields(a: string, b: string, d: string)
    ensures Join([a, b, "-", "-", "0", d], ' ') == a + " " + b + " - - 0 " + d
  {
    var t0 := Join([d], ' ');
    var t1 := Join(["0", d], ' ');
    var t2 := Join(["-", "0", d], ' ');
    var t3 := Join(["-", "-", "0", d], ' ');
    var t4 := Join([b, "-", "-", "0", d], ' ');
    assert t0 == d;
    JoinCons("0", [d], ' ');
    assert ["0"] + [d] == ["0", d];
    assert t1 == "0 " + d;
    JoinCons("-", ["0", d], ' ');
    assert ["-"] + ["0", d] == ["-", "0", d];
    assert t2 == "- 0 " + d;
    JoinCons("-", ["-", "0", d], ' ');
    assert ["-"] + ["-", "0", d] == ["-", "-", "0", d];
    assert t3 == "- - 0 " + d;
    JoinCons(b, ["-", "-", "0", d], ' ');
    assert [b] + ["-", "-", "0", d] == [b, "-", "-", "0", d];
    assert t4 == b + " - - 0 " + d;
    JoinCons(a, [b, "-", "-", "0", d], ' ');
    assert [a] + [b, "-", "-", "0", d] == [a, b, "-", "-", "0", d];
  }

  lemma EncodeParts(g: Grid, c: Color, n: int)
    ensures var parts := [RenderPlacement(g), SideText(c), "-", "-", "0", IntText(n)];
      && Encode(g, c, n) == Join(parts, ' ')
      && forall k :: 0 <= k < 6 ==> NoneOf(parts[k], WhiteSpace)
  {
    JoinFields(RenderPlacement(g), SideText(c), IntText(n));
    PlacementNoSpace(g);
    NotSpace('b');
    NotSpace('w');
    NotSpace('-');
    NotSpace('0');
    forall k | 0 <= k < |IntText(n)|
      ensures IntText(n)[k] !in WhiteSpace
    {
      NotSpace(IntText(n)[k]);
    }
  }

  /** Every FEN that GenerateFEN writes reads back, by Init, as the same grid, side and number. */
  lemma FenRoundTrip(g: Grid, c: Color, n: int)
    requires IsInt32(n)
    ensures var fen := Encode(g, c, n);
      && Fields(fen) == [RenderPlacement(g), SideText(c), "-", "-", "0", IntText(n)]
      && Decodable(fen)
      && DecodeGrid(fen) == g && DecodeColor(fen) == c && DecodeNumber(fen) == n
  {
    EncodeParts(g, c, n);
    SplitJoin([RenderPlacement(g), SideText(c), "-", "-", "0", IntText(n)], ' ', WhiteSpace);
    PlacementRoundTrip(g);
    IntTextRoundTrip(n);
  }
}
