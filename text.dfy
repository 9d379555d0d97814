/** String helpers with the behaviour of the .NET library calls the board relies on. */
module Strings {

  /** `s.Split(seps)` with empty entries kept: one part per separator, plus one. */
  function Split(s: string, seps: set<char>): (parts: seq<string>)
    ensures |parts| >= 1
    ensures forall k :: 0 <= k < |parts| ==> NoneOf(parts[k], seps)
  {
    if s == [] then [""]
    else
      var rest := Split(s[1..], seps);
      if s[0] in seps then [""] + rest
      else [[s[0]] + rest[0]] + rest[1..]
  }

  predicate NoneOf(s: string, seps: set<char>)
  {
    forall i :: 0 <= i < |s| ==> s[i] !in seps
  }

  /** The parts written one after another with `sep` between neighbours. */
  function Join(parts: seq<string>, sep: char): string
  {
    if |parts| == 0 then ""
    else if |parts| == 1 then parts[0]
    else parts[0] + [sep] + Join(parts[1..], sep)
  }

  /** `s.Replace(c, r)`: every occurrence of the single character `c` becomes `r`. */
  function ReplaceChar(s: string, c: char, r: string): (t: string)
    ensures c !in r ==> c !in t
  {
    if s == [] then []
    else (if s[0] == c then r else [s[0]]) + ReplaceChar(s[1..], c, r)
  }

  lemma {:induction false} ReplaceCharAppend(a: string, b: string, c: char, r: string)
    ensures ReplaceChar(a + b, c, r) == ReplaceChar(a, c, r) + ReplaceChar(b, c, r)
  {
    if a != [] {
      var head := if a[0] == c then r else [a[0]];
      assert (a + b)[0] == a[0] && (a + b)[1..] == a[1..] + b;
      ReplaceCharAppend(a[1..], b, c, r);
      assert ReplaceChar(a + b, c, r) == head + (ReplaceChar(a[1..], c, r) + ReplaceChar(b, c, r));
      assert ReplaceChar(a, c, r) == head + ReplaceChar(a[1..], c, r);
    } else {
      assert a + b == b;
    }
  }

  lemma {:induction false} SplitOne(a: string, seps: set<char>)
    requires NoneOf(a, seps)
    ensures Split(a, seps) == [a]
  {
    if a != [] {
      SplitOne(a[1..], seps);
      assert a[0] !in seps;
      assert [a[0]] + a[1..] == a;
    }
  }

  lemma {:induction false} SplitAt(a: string, c: char, b: string, seps: set<char>)
    requires NoneOf(a, seps) && c in seps
    ensures Split(a + [c] + b, seps) == [a] + Split(b, seps)
  {
    if a == [] {
      assert a + [c] + b == [c] + b;
      assert ([c] + b)[1..] == b;
      assert ([c] + b)[0] == c;
    } else {
      assert (a + [c] + b)[1..] == a[1..] + [c] + b;
      assert (a + [c] + b)[0] == a[0] && a[0] !in seps;
      SplitAt(a[1..], c, b, seps);
      assert [a[0]] + a[1..] == a;
    }
  }

  /** Splitting a join on a separator none of the parts contains gives the parts back. */
  lemma {:induction false} SplitJoin(parts: seq<string>, sep: char, seps: set<char>)
    requires |parts| >= 1 && sep in seps
    requires forall k :: 0 <= k < |parts| ==> NoneOf(parts[k], seps)
    ensures Split(Join(parts, sep), seps) == parts
  {
    if |parts| == 1 {
      SplitOne(parts[0], seps);
    } else {
      SplitJoin(parts[1..], sep, seps);
      SplitAt(parts[0], sep, Join(parts[1..], sep), seps);
      assert [parts[0]] + parts[1..] == parts;
    }
  }

  /** ... and joining the parts of a split restores the string. */
  lemma {:induction false} JoinSplit(s: string, sep: char)
    ensures Join(Split(s, {sep}), sep) == s
  {
    if s != [] {
      JoinSplit(s[1..], sep);
      var rest := Split(s[1..], {sep});
      if s[0] != sep {
        if |rest| > 1 {
          assert ([[s[0]] + rest[0]] + rest[1..])[1..] == rest[1..];
        }
      }
    }
  }

  /** `Join` over a sequence of parts, one of which is appended at the end. */
  lemma {:induction false} JoinSnoc(parts: seq<string>, last: string, sep: char)
    requires |parts| >= 1
    ensures Join(parts + [last], sep) == Join(parts, sep) + [sep] + last
  {
    if |parts| == 1 {
      assert (parts + [last])[1..] == [last];
    } else {
      assert (parts + [last])[1..] == parts[1..] + [last];
      JoinSnoc(parts[1..], last, sep);
    }
  }
}

/** 32-bit integers as `int.Parse` reads and `ToString` writes them. */
module Numerals {

  const Int32Min: int := -0x8000_0000
  const Int32Max: int := 0x7fff_ffff

  predicate IsInt32(n: int) { Int32Min <= n <= Int32Max }

  /** `n++` on a C# `int` in the default unchecked context: wraps at the top. */
  function Succ32(n: int): (m: int)
    requires IsInt32(n)
    ensures IsInt32(m)
    ensures m == n + 1 || (n == Int32Max && m == Int32Min)
  {
    if n == Int32Max then Int32Min else n + 1
  }

  predicate IsDigit(c: char) { '0' <= c <= '9' }

  function DigitChar(d: int): (c: char)
    requires 0 <= d <= 9
    ensures IsDigit(c) && DigitValue(c) == d
  {
    ('0' as int + d) as char
  }

  function DigitValue(c: char): int
    requires IsDigit(c)
  {
    c as int - '0' as int
  }

  predicate AllDigits(s: string) { forall i :: 0 <= i < |s| ==> IsDigit(s[i]) }

  /** Decimal digits of `n`, most significant first, without leading zeros. */
  function NatText(n: nat): (s: string)
    ensures |s| >= 1 && AllDigits(s)
  {
    if n < 10 then [DigitChar(n)] else NatText(n / 10) + [DigitChar(n % 10)]
  }

  /** `n.ToString()`: a minus sign for negative values, then the digits. */
  function IntText(n: int): (s: string)
    ensures forall i :: 0 <= i < |s| ==> IsDigit(s[i]) || s[i] == '-'
  {
    if n < 0 then "-" + NatText(-n) else NatText(n)
  }

  /** The value of a non-empty run of decimal digits. */
  function DigitsValue(s: string): nat
    requires AllDigits(s)
  {
    if s == [] then 0 else DigitsValue(s[..|s| - 1]) * 10 + DigitValue(s[|s| - 1])
  }

  /** An optional sign followed by at least one digit. */
  predicate IsNumeral(s: string)
  {
    if |s| > 0 && (s[0] == '-' || s[0] == '+') then |s| > 1 && AllDigits(s[1..])
    else |s| > 0 && AllDigits(s)
  }

  function NumeralValue(s: string): int
    requires IsNumeral(s)
  {
    if s[0] == '-' then -(DigitsValue(s[1..]) as int)
    else if s[0] == '+' then DigitsValue(s[1..])
    else DigitsValue(s)
  }

  /** The strings `int.Parse` accepts without throwing (no surrounding white space here). */
  predicate IsInt32Numeral(s: string)
  {
    IsNumeral(s) && IsInt32(NumeralValue(s))
  }

  lemma {:induction false} NatTextValue(n: nat)
    ensures DigitsValue(NatText(n)) == n
  {
    var s := NatText(n);
    if n >= 10 {
      NatTextValue(n / 10);
      assert s[..|s| - 1] == NatText(n / 10);
    }
  }

  /** Writing a 32-bit value and parsing it back gives the value. */
  lemma IntTextRoundTrip(n: int)
    requires IsInt32(n)
    ensures IsInt32Numeral(IntText(n)) && NumeralValue(IntText(n)) == n
  {
    if n < 0 {
      NatTextValue(-n);
      assert IntText(n)[1..] == NatText(-n);
    } else {
      NatTextValue(n);
    }
  }
}
