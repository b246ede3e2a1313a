/** The score a mask is chosen by: runs, blocks, finder-like patterns and the
    balance of dark and light (section 7.8.3 of ISO/IEC 18004:2015). */
module QrPenalty {

  type Line = int -> int
  type Shown = (int, int) -> int

  function Row(g: Shown, r: int): Line {
    c => g(r, c)
  }

  /** The grid by columns. */
  function Swapped(g: Shown): Shown {
    (r, c) => g(c, r)
  }

  ghost predicate RowsShow(rows: seq<seq<int>>, n: nat, g: Shown) {
    && |rows| == n
    && (forall r :: 0 <= r < n ==> |rows[r]| == n)
    && forall r, c :: 0 <= r < n && 0 <= c < n ==> rows[r][c] == g(r, c)
  }

  // ---- runs -------------------------------------------------------------------

  /** How many equal modules in a row end at i. */
  function RunEnding(line: Line, i: nat): nat {
    if i > 0 && line(i) == line(i - 1) then RunEnding(line, i - 1) + 1 else 1
  }

  /** The fifth equal module of a run costs three points, each further one more. */
  function RunCost(line: Line, i: nat): nat {
    var k := RunEnding(line, i);
    if k == 5 then 3 else if k > 5 then 1 else 0
  }

  function RunScore(line: Line, n: nat): nat {
    if n == 0 then 0 else RunScore(line, n - 1) + RunCost(line, n - 1)
  }

  /** What an unfinished run of this length will be charged. */
  function Pending(run: nat): nat {
    if run >= 5 then 3 + (run - 5) else 0
  }

  method LineRuns(line: seq<int>, ghost f: Line) returns (score: nat)
    requires forall i :: 0 <= i < |line| ==> line[i] == f(i)
    ensures score == RunScore(f, |line|)
  {
    score := 0;
    if |line| == 0 {
      return;
    }
    var run, prev := 1, line[0];
    for i := 1 to |line|
      invariant run == RunEnding(f, i - 1) && prev == f(i - 1)
      invariant score + Pending(run) == RunScore(f, i)
    {
      var v := line[i];
      if v == prev {
        run := run + 1;
      } else {
        if run >= 5 {
          score := score + 3 + (run - 5);
        }
        run, prev := 1, v;
      }
    }
    if run >= 5 {
      score := score + 3 + (run - 5);
    }
  }

  function RunsOf(g: Shown, n: nat, lines: nat): nat {
    if lines == 0 then 0 else RunsOf(g, n, lines - 1) + RunScore(Row(g, lines - 1), n)
  }

  method Runs(rows: seq<seq<int>>, n: nat, ghost g: Shown) returns (score: nat)
    requires RowsShow(rows, n, g)
    ensures score == RunsOf(g, n, n)
  {
    score := 0;
    for r := 0 to n
      invariant score == RunsOf(g, n, r)
    {
      var s := LineRuns(rows[r], Row(g, r));
      score := score + s;
    }
  }

  // ---- blocks -----------------------------------------------------------------

  predicate Block(g: Shown, r: int, c: int) {
    g(r, c) == g(r, c + 1) == g(r + 1, c) == g(r + 1, c + 1)
  }

  function BlocksInRow(g: Shown, r: int, c: nat): nat {
    if c == 0 then 0 else BlocksInRow(g, r, c - 1) + if Block(g, r, c - 1) then 3 else 0
  }

  function BlocksOf(g: Shown, rows: nat, columns: nat): nat {
    if rows == 0 then 0 else BlocksOf(g, rows - 1, columns) + BlocksInRow(g, rows - 1, columns)
  }

  method Blocks(rows: seq<seq<int>>, n: nat, ghost g: Shown) returns (score: nat)
    requires n > 0 && RowsShow(rows, n, g)
    ensures score == BlocksOf(g, n - 1, n - 1)
  {
    score := 0;
    for r := 0 to n - 1
      invariant score == BlocksOf(g, r, n - 1)
    {
      for c := 0 to n - 1
        invariant score == BlocksOf(g, r, n - 1) + BlocksInRow(g, r, c)
      {
        if rows[r][c] == rows[r][c + 1] == rows[r + 1][c] == rows[r + 1][c + 1] {
          score := score + 3;
        }
      }
    }
  }

  // ---- finder-like patterns ---------------------------------------------------

  predicate Core(line: Line, k: int) {
    line(k) == 1 && line(k + 1) == 0 && line(k + 2) == 1 && line(k + 3) == 1
    && line(k + 4) == 1 && line(k + 5) == 0 && line(k + 6) == 1
  }

  predicate Light(line: Line, k: int) {
    line(k) == 0 && line(k + 1) == 0 && line(k + 2) == 0 && line(k + 3) == 0
  }

  /** 1011101 with four light modules after it or before it. */
  predicate FinderLike(line: Line, i: int) {
    (Core(line, i) && Light(line, i + 7)) || (Light(line, i) && Core(line, i + 4))
  }

  function PatternScore(line: Line, i: nat): nat {
    if i == 0 then 0 else PatternScore(line, i - 1) + if FinderLike(line, i - 1) then 40 else 0
  }

  function PatternsOf(g: Shown, n: nat, lines: nat): nat {
    if lines == 0 then 0
    else PatternsOf(g, n, lines - 1) + PatternScore(Row(g, lines - 1), if n > 10 then n - 10 else 0)
  }

  const PATTERN: seq<int> := [1, 0, 1, 1, 1, 0, 1, 0, 0, 0, 0]
  const PATTERN_REVERSED: seq<int> := [0, 0, 0, 0, 1, 0, 1, 1, 1, 0, 1]

  lemma PatternMatches(line: seq<int>, f: Line, i: nat)
    requires i + 11 <= |line| && forall k :: 0 <= k < |line| ==> line[k] == f(k)
    ensures line[i..i + 11] == PATTERN <==> Core(f, i) && Light(f, i + 7)
    ensures line[i..i + 11] == PATTERN_REVERSED <==> Light(f, i) && Core(f, i + 4)
  {
    var w := line[i..i + 11];
    assert forall k :: 0 <= k < 11 ==> w[k] == f(i + k);
    assert w == [f(i), f(i + 1), f(i + 2), f(i + 3), f(i + 4), f(i + 5), f(i + 6), f(i + 7), f(i + 8), f(i + 9),
                 f(i + 10)];
  }

  method LinePatterns(line: seq<int>, ghost f: Line) returns (score: nat)
    requires forall i :: 0 <= i < |line| ==> line[i] == f(i)
    ensures score == PatternScore(f, if |line| > 10 then |line| - 10 else 0)
  {
    score := 0;
    var i := 0;
    while i < |line| - 10
      invariant 0 <= i && (i == 0 || i <= |line| - 10)
      invariant score == PatternScore(f, i)
    {
      PatternMatches(line, f, i);
      if line[i..i + 11] == PATTERN || line[i..i + 11] == PATTERN_REVERSED {
        score := score + 40;
      }
      i := i + 1;
    }
  }

  method Patterns(rows: seq<seq<int>>, n: nat, ghost g: Shown) returns (score: nat)
    requires RowsShow(rows, n, g)
    ensures score == PatternsOf(g, n, n)
  {
    score := 0;
    for r := 0 to n
      invariant score == PatternsOf(g, n, r)
    {
      var s := LinePatterns(rows[r], Row(g, r));
      score := score + s;
    }
  }

  // ---- balance ----------------------------------------------------------------

  function DarkInRow(g: Shown, r: int, c: nat): int {
    if c == 0 then 0 else DarkInRow(g, r, c - 1) + g(r, c - 1)
  }

  function DarkOf(g: Shown, rows: nat, columns: nat): int {
    if rows == 0 then 0 else DarkOf(g, rows - 1, columns) + DarkInRow(g, rows - 1, columns)
  }

  method Dark(rows: seq<seq<int>>, n: nat, ghost g: Shown) returns (dark: int)
    requires RowsShow(rows, n, g)
    ensures dark == DarkOf(g, n, n)
  {
    dark := 0;
    for r := 0 to n
      invariant dark == DarkOf(g, r, n)
    {
      for c := 0 to n
        invariant dark == DarkOf(g, r, n) + DarkInRow(g, r, c)
      {
        dark := dark + rows[r][c];
      }
    }
  }

  /** Ten points for every five per cent away from an even balance. */
  function BalanceOf(dark: int, n: nat): int
    requires n > 0
  {
    assert n * n > 0;
    var off := dark * 100 / (n * n) - 50;
    (if off < 0 then -off else off) / 5 * 10
  }

  /** With dark modules making up at least p and less than p + 1 per cent, the score is ten
      for each whole five points between p and 50. */
  lemma BalanceIs(dark: int, n: nat, p: int, fives: nat)
    requires n > 0 && p * (n * n) <= 100 * dark < (p + 1) * (n * n)
    requires 5 * fives <= p - 50 < 5 * fives + 5 || 5 * fives <= 50 - p < 5 * fives + 5
    ensures BalanceOf(dark, n) == 10 * fives
  {
    assert n * n > 0;
    QuotientIs(dark * 100, n * n, p);
    QuotientIs(if p < 50 then 50 - p else p - 50, 5, fives);
  }

  lemma QuotientIs(a: int, d: nat, q: int)
    requires d > 0 && q * d <= a < (q + 1) * d
    ensures a / d == q
  {
    Smaller(a / d, q + 1, d);
    Smaller(q, a / d + 1, d);
  }

  lemma Smaller(x: int, y: int, d: nat)
    requires x * d < y * d
    ensures x < y
  {
    var k := x - y;
    assert k >= 0 ==> k * d >= 0;
  }

  // ---- all four ---------------------------------------------------------------

  function PenaltyOf(g: Shown, n: nat): int
    requires n > 0
  {
    RunsOf(g, n, n) + RunsOf(Swapped(g), n, n)
    + BlocksOf(g, n - 1, n - 1)
    + PatternsOf(g, n, n) + PatternsOf(Swapped(g), n, n)
    + BalanceOf(DarkOf(g, n, n), n)
  }

  method Transpose(rows: seq<seq<int>>, n: nat, ghost g: Shown) returns (columns: seq<seq<int>>)
    requires RowsShow(rows, n, g)
    ensures RowsShow(columns, n, Swapped(g))
  {
    columns := seq(n, c requires 0 <= c < n => seq(n, r requires 0 <= r < n => rows[r][c]));
  }

  method Penalty(rows: seq<seq<int>>, n: nat, ghost g: Shown) returns (score: int)
    requires n > 0 && RowsShow(rows, n, g)
    ensures score == PenaltyOf(g, n)
  {
    var columns := Transpose(rows, n, g);
    var a := Runs(rows, n, g);
    var b := Runs(columns, n, Swapped(g));
    var c := Blocks(rows, n, g);
    var d := Patterns(rows, n, g);
    var e := Patterns(columns, n, Swapped(g));
    var dark := Dark(rows, n, g);
    score := a + b + c + d + e + BalanceOf(dark, n);
  }
}
