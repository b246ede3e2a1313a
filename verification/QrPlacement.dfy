/** The zig-zag: codeword bits go into the free modules two columns at a time,
    upward and downward by turns, the vertical timing column left out. */
module QrPlacement {
  import opened QrCodewords
  import opened Bits

  type Region = (int, int) -> bool

  // ---- the order of the walk ------------------------------------------------

  /** The right-hand column of the p-th pair. */
  function PairColumn(n: int, p: nat): int {
    if n - 1 - 2 * p > 6 then n - 1 - 2 * p else n - 2 - 2 * p
  }

  /** The s-th row met in the p-th pair: upward in even pairs. */
  function PairRow(n: int, p: nat, s: nat): int {
    if p % 2 == 0 then n - 1 - s else s
  }

  function PairOf(n: int, c: int): int {
    if c > 6 then (n - 1 - c) / 2 else (n - 7) / 2 + (5 - c) / 2
  }

  function SideOf(n: int, c: int): int {
    if c > 6 then (n - 1 - c) % 2 else (5 - c) % 2
  }

  function StepOf(n: int, r: int, c: int): int {
    if PairOf(n, c) % 2 == 0 then n - 1 - r else r
  }

  predicate Sized(n: int) {
    n % 2 == 1 && n >= 7
  }

  /** Every module outside column 6 is met: in this pair, row and side. */
  lemma WalkCovers(n: int, r: int, c: int)
    requires Sized(n) && 0 <= r < n && 0 <= c < n && c != 6
    ensures 0 <= PairOf(n, c) < (n - 1) / 2 && 0 <= StepOf(n, r, c) < n && 0 <= SideOf(n, c) < 2
    ensures PairRow(n, PairOf(n, c), StepOf(n, r, c)) == r
    ensures PairColumn(n, PairOf(n, c)) - SideOf(n, c) == c
  {
  }

  /** And only there: no module is met twice. */
  lemma WalkInjective(n: int, p: nat, s: nat, side: nat)
    requires Sized(n) && p < (n - 1) / 2 && s < n && side < 2
    ensures var r, c := PairRow(n, p, s), PairColumn(n, p) - side;
      && 0 <= r < n && 0 <= c < n && c != 6
      && PairOf(n, c) == p && StepOf(n, r, c) == s && SideOf(n, c) == side
  {
  }

  function One(b: bool): nat {
    if b then 1 else 0
  }

  function FreeAt(free: Region, n: int, p: nat, s: nat, side: nat): nat {
    One(free(PairRow(n, p, s), PairColumn(n, p) - side))
  }

  /** How many free modules the walk has met before row s of pair p. */
  function FreeBefore(free: Region, n: nat, p: nat, s: nat): nat
    decreases p, s
  {
    if s > 0 then FreeBefore(free, n, p, s - 1) + FreeAt(free, n, p, s - 1, 0) + FreeAt(free, n, p, s - 1, 1)
    else if p > 0 then FreeBefore(free, n, p - 1, n)
    else 0
  }

  /** How many before this module. */
  function Rank(free: Region, n: nat, r: int, c: int): nat
    requires Sized(n) && 0 <= r < n && 0 <= c < n && c != 6
  {
    WalkCovers(n, r, c);
    var p, s := PairOf(n, c), StepOf(n, r, c);
    FreeBefore(free, n, p, s) + if SideOf(n, c) == 1 then FreeAt(free, n, p, s, 0) else 0
  }

  function BitOrZero(bits: seq<Bit>, i: nat): int {
    if i < |bits| then bits[i] else 0
  }

  // ---- writing --------------------------------------------------------------

  ghost predicate Marks(used: array2<bool>, n: nat, free: Region)
    reads used
  {
    && used.Length0 == used.Length1 == n
    && forall r, c :: 0 <= r < n && 0 <= c < n ==> used[r, c] == !free(r, c)
  }

  method PlaceCell(grid: array2<int>, used: array2<bool>, n: nat, row: nat, c: nat, idx: nat, bits: seq<Bit>)
    returns (next: nat)
    requires grid.Length0 == grid.Length1 == used.Length0 == used.Length1 == n
    requires row < n && c < n
    modifies grid
    ensures next == idx + One(!used[row, c])
    ensures forall i, j :: 0 <= i < n && 0 <= j < n ==>
      grid[i, j] == if i == row && j == c && !used[i, j] then BitOrZero(bits, idx) else old(grid[i, j])
  {
    next := idx;
    if !used[row, c] {
      grid[row, c] := if idx < |bits| then bits[idx] else 0;
      next := idx + 1;
    }
  }

  /** Modules of pair p before step s are written, later ones are as they were. */
  predicate Written(free: Region, n: nat, p: nat, s: nat, r: int, c: int)
    requires Sized(n) && 0 <= r < n && 0 <= c < n
  {
    c != 6 && free(r, c) && (PairOf(n, c) < p || (PairOf(n, c) == p && StepOf(n, r, c) < s))
  }

  /** The two modules of one row: right-hand column first. */
  method PlaceTwo(grid: array2<int>, used: array2<bool>, n: nat, row: nat, col: nat, idx: nat, bits: seq<Bit>)
    returns (next: nat)
    requires grid.Length0 == grid.Length1 == used.Length0 == used.Length1 == n
    requires row < n && 0 < col < n
    modifies grid
    ensures next == idx + One(!used[row, col]) + One(!used[row, col - 1])
    ensures forall i, j :: 0 <= i < n && 0 <= j < n ==>
      grid[i, j] == if i == row && (j == col || j == col - 1) && !used[i, j]
                    then BitOrZero(bits, if j == col then idx else idx + One(!used[row, col]))
                    else old(grid[i, j])
  {
    next := PlaceCell(grid, used, n, row, col, idx, bits);
    next := PlaceCell(grid, used, n, row, col - 1, next, bits);
  }

  /** The cells of one row, said in terms of the walk. */
  lemma RowCells(free: Region, n: nat, p: nat, s: nat, r: int, c: int)
    requires Sized(n) && p < (n - 1) / 2 && s < n && 0 <= r < n && 0 <= c < n
    ensures Written(free, n, p, s + 1, r, c) && !Written(free, n, p, s, r, c)
       <==> free(r, c) && r == PairRow(n, p, s) && (c == PairColumn(n, p) || c == PairColumn(n, p) - 1)
    ensures r == PairRow(n, p, s) && c == PairColumn(n, p) ==>
      c != 6 && Rank(free, n, r, c) == FreeBefore(free, n, p, s)
    ensures r == PairRow(n, p, s) && c == PairColumn(n, p) - 1 ==>
      c != 6 && Rank(free, n, r, c) == FreeBefore(free, n, p, s) + FreeAt(free, n, p, s, 0)
  {
    WalkInjective(n, p, s, 0);
    WalkInjective(n, p, s, 1);
    if c != 6 {
      WalkCovers(n, r, c);
    }
  }

  method PlaceRow(grid: array2<int>, used: array2<bool>, n: nat, ghost free: Region, ghost p: nat, ghost s: nat,
          row: nat, col: nat, idx: nat, bits: seq<Bit>)
    returns (next: nat)
    requires Sized(n) && Marks(used, n, free) && grid.Length0 == grid.Length1 == n
    requires p < (n - 1) / 2 && s < n && row == PairRow(n, p, s) && 0 < col < n && col == PairColumn(n, p)
    requires idx == FreeBefore(free, n, p, s)
    modifies grid
    ensures next == FreeBefore(free, n, p, s + 1)
    ensures forall r, c :: 0 <= r < n && 0 <= c < n ==>
      grid[r, c] == if Written(free, n, p, s + 1, r, c) && !Written(free, n, p, s, r, c)
                    then BitOrZero(bits, Rank(free, n, r, c)) else old(grid[r, c])
  {
    next := PlaceTwo(grid, used, n, row, col, idx, bits);
    forall r, c | 0 <= r < n && 0 <= c < n
      ensures grid[r, c] == if Written(free, n, p, s + 1, r, c) && !Written(free, n, p, s, r, c)
                            then BitOrZero(bits, Rank(free, n, r, c)) else old(grid[r, c])
    {
      RowCells(free, n, p, s, r, c);
    }
  }

  method PlacePair(grid: array2<int>, used: array2<bool>, n: nat, ghost free: Region, ghost p: nat, col: nat,
          upward: bool, idx: nat, bits: seq<Bit>)
    returns (next: nat)
    requires Sized(n) && Marks(used, n, free) && grid.Length0 == grid.Length1 == n
    requires p < (n - 1) / 2 && 0 < col < n && col == PairColumn(n, p) && upward == (p % 2 == 0)
    requires idx == FreeBefore(free, n, p, 0)
    modifies grid
    ensures next == FreeBefore(free, n, p + 1, 0)
    ensures forall r, c :: 0 <= r < n && 0 <= c < n ==>
      grid[r, c] == if Written(free, n, p + 1, 0, r, c) && !Written(free, n, p, 0, r, c)
                    then BitOrZero(bits, Rank(free, n, r, c)) else old(grid[r, c])
  {
    next := idx;
    for s := 0 to n
      invariant next == FreeBefore(free, n, p, s)
      invariant forall r, c :: 0 <= r < n && 0 <= c < n ==>
        grid[r, c] == if Written(free, n, p, s, r, c) && !Written(free, n, p, 0, r, c)
                      then BitOrZero(bits, Rank(free, n, r, c)) else old(grid[r, c])
    {
      next := PlaceRow(grid, used, n, free, p, s, if upward then n - 1 - s else s, col, next, bits);
    }
    forall r, c | 0 <= r < n && 0 <= c < n
      ensures Written(free, n, p, n, r, c) == Written(free, n, p + 1, 0, r, c)
    {
      if c != 6 {
        WalkCovers(n, r, c);
      }
    }
  }

  /** Every free module outside column 6 gets the bit of its rank, or zero once
      the bits have run out; nothing else changes. */
  method Place(grid: array2<int>, used: array2<bool>, n: nat, ghost free: Region, codewords: seq<Byte>)
    requires Sized(n) && Marks(used, n, free) && grid.Length0 == grid.Length1 == n
    modifies grid
    ensures forall r, c :: 0 <= r < n && 0 <= c < n ==>
      grid[r, c] == if c != 6 && free(r, c) then BitOrZero(Flatten(codewords), Rank(free, n, r, c))
                    else old(grid[r, c])
  {
    var bits := Flatten(codewords);
    var idx: nat := 0;
    var col: int := n - 1;
    var upward := true;
    ghost var p: nat := 0;
    while col > 0
      invariant p <= (n - 1) / 2
      invariant col == if n - 1 - 2 * p >= 6 then n - 1 - 2 * p else n - 2 - 2 * p
      invariant upward == (p % 2 == 0)
      invariant idx == FreeBefore(free, n, p, 0)
      invariant forall r, c :: 0 <= r < n && 0 <= c < n ==>
        grid[r, c] == if Written(free, n, p, 0, r, c) then BitOrZero(bits, Rank(free, n, r, c))
                      else old(grid[r, c])
    {
      if col == 6 {
        col := col - 1;
      }
      idx := PlacePair(grid, used, n, free, p, col, upward, idx, bits);
      upward := !upward;
      col := col - 2;
      p := p + 1;
    }
    forall r, c | 0 <= r < n && 0 <= c < n
      ensures Written(free, n, p, 0, r, c) == (c != 6 && free(r, c))
    {
      if c != 6 {
        WalkCovers(n, r, c);
      }
    }
  }

  // ---- reading --------------------------------------------------------------

  /** What a reader collects by walking the same order. */
  function ReadBits(shown: (int, int) -> int, free: Region, n: nat, p: nat, s: nat): seq<int>
    decreases p, s
  {
    if s > 0 then
      ReadBits(shown, free, n, p, s - 1) + ReadCell(shown, free, n, p, s - 1, 0)
      + ReadCell(shown, free, n, p, s - 1, 1)
    else if p > 0 then ReadBits(shown, free, n, p - 1, n)
    else []
  }

  function ReadCell(shown: (int, int) -> int, free: Region, n: nat, p: nat, s: nat, side: nat): seq<int> {
    var r, c := PairRow(n, p, s), PairColumn(n, p) - side;
    if free(r, c) then [shown(r, c)] else []
  }

  function Capacity(free: Region, n: nat): nat
    requires n > 0
  {
    FreeBefore(free, n, (n - 1) / 2, 0)
  }

  ghost predicate ShowsBits(shown: (int, int) -> int, free: Region, n: nat, bits: seq<Bit>)
    requires Sized(n)
  {
    forall r, c :: 0 <= r < n && 0 <= c < n && c != 6 && free(r, c) ==>
      shown(r, c) == BitOrZero(bits, Rank(free, n, r, c))
  }

  ghost predicate PaddedTo(got: seq<int>, bits: seq<Bit>, m: nat) {
    |got| == m && PaddedWith(got, bits)
  }

  ghost predicate PaddedWith(got: seq<int>, bits: seq<Bit>) {
    forall k :: 0 <= k < |got| ==> got[k] == BitOrZero(bits, k)
  }

  /** The walk reads one module here, the bit of its rank, or none. */
  predicate CellShows(shown: (int, int) -> int, free: Region, n: nat, bits: seq<Bit>, p: nat, s: nat, side: nat) {
    var rank := FreeBefore(free, n, p, s) + if side == 1 then FreeAt(free, n, p, s, 0) else 0;
    ReadCell(shown, free, n, p, s, side)
    == if FreeAt(free, n, p, s, side) == 0 then [] else [BitOrZero(bits, rank)]
  }

  lemma ReadCellBack(shown: (int, int) -> int, free: Region, n: nat, bits: seq<Bit>, p: nat, s: nat, side: nat)
    requires Sized(n) && ShowsBits(shown, free, n, bits)
    requires p < (n - 1) / 2 && s < n && side < 2
    ensures CellShows(shown, free, n, bits, p, s, side)
  {
    WalkInjective(n, p, s, side);
    RowCells(free, n, p, s, PairRow(n, p, s), PairColumn(n, p) - side);
  }

  lemma PaddedPush(got: seq<int>, bits: seq<Bit>, m: nat, cell: seq<int>, f: nat)
    requires PaddedTo(got, bits, m) && f < 2
    requires cell == if f == 0 then [] else [BitOrZero(bits, m)]
    ensures PaddedTo(got + cell, bits, m + f)
  {
  }

  lemma ReadRowBack(shown: (int, int) -> int, free: Region, n: nat, bits: seq<Bit>, p: nat, s: nat)
    requires CellShows(shown, free, n, bits, p, s, 0) && CellShows(shown, free, n, bits, p, s, 1)
    requires PaddedTo(ReadBits(shown, free, n, p, s), bits, FreeBefore(free, n, p, s))
    ensures PaddedTo(ReadBits(shown, free, n, p, s + 1), bits, FreeBefore(free, n, p, s + 1))
  {
    var got, m := ReadBits(shown, free, n, p, s), FreeBefore(free, n, p, s);
    var a, b := ReadCell(shown, free, n, p, s, 0), ReadCell(shown, free, n, p, s, 1);
    var f, g := FreeAt(free, n, p, s, 0), FreeAt(free, n, p, s, 1);
    PaddedPush(got, bits, m, a, f);
    PaddedPush(got + a, bits, m + f, b, g);
  }

  lemma ReadRowShown(shown: (int, int) -> int, free: Region, n: nat, bits: seq<Bit>, p: nat, s: nat)
    requires Sized(n) && ShowsBits(shown, free, n, bits)
    requires p < (n - 1) / 2 && s < n
    requires PaddedTo(ReadBits(shown, free, n, p, s), bits, FreeBefore(free, n, p, s))
    ensures PaddedTo(ReadBits(shown, free, n, p, s + 1), bits, FreeBefore(free, n, p, s + 1))
  {
    ReadCellBack(shown, free, n, bits, p, s, 0);
    ReadCellBack(shown, free, n, bits, p, s, 1);
    ReadRowBack(shown, free, n, bits, p, s);
  }

  /** Walking the grid again yields the bits in order, then zeros, one for each
      free module. */
  lemma {:induction false} ReadBack(shown: (int, int) -> int, free: Region, n: nat, bits: seq<Bit>, p: nat, s: nat)
    requires Sized(n) && ShowsBits(shown, free, n, bits)
    requires (p < (n - 1) / 2 && s <= n) || (p == (n - 1) / 2 && s == 0)
    ensures PaddedTo(ReadBits(shown, free, n, p, s), bits, FreeBefore(free, n, p, s))
    decreases p, s
  {
    if s > 0 {
      ReadBack(shown, free, n, bits, p, s - 1);
      ReadRowShown(shown, free, n, bits, p, s - 1);
      assert s - 1 + 1 == s;
    } else if p > 0 {
      ReadBack(shown, free, n, bits, p - 1, n);
      ReadNextPair(shown, free, n, bits, p);
    } else {
      ReadNothing(shown, free, n, bits);
    }
  }

  lemma ReadNextPair(shown: (int, int) -> int, free: Region, n: nat, bits: seq<Bit>, p: nat)
    requires p > 0 && PaddedTo(ReadBits(shown, free, n, p - 1, n), bits, FreeBefore(free, n, p - 1, n))
    ensures PaddedTo(ReadBits(shown, free, n, p, 0), bits, FreeBefore(free, n, p, 0))
  {
  }

  lemma ReadNothing(shown: (int, int) -> int, free: Region, n: nat, bits: seq<Bit>)
    ensures PaddedTo(ReadBits(shown, free, n, 0, 0), bits, FreeBefore(free, n, 0, 0))
  {
  }
}
