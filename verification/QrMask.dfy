/** Data masks and format information. */
module QrMask {
  import opened QrCodewords
  import opened QrGrid
  import opened QrPlacement
  import QrCodes

  /** Which modules a mask inverts. */
  predicate Inverts(mask: nat, r: int, c: int) {
    match mask
    case 0 => (r + c) % 2 == 0
    case 1 => r % 2 == 0
    case 2 => c % 3 == 0
    case 3 => (r + c) % 3 == 0
    case 4 => (r / 2 + c / 3) % 2 == 0
    case 5 => (r * c) % 2 + (r * c) % 3 == 0
    case 6 => ((r * c) % 2 + (r * c) % 3) % 2 == 0
    case _ => ((r + c) % 2 + (r * c) % 3) % 2 == 0
  }

  /** Exclusive-or with 1. */
  function Flip(x: int): int {
    if x % 2 == 0 then x + 1 else x - 1
  }

  method MaskedCopy(base: array2<int>, used: array2<bool>, n: nat, inverts: Region) returns (grid: array2<int>)
    requires Square(base, used, n)
    ensures fresh(grid) && grid.Length0 == grid.Length1 == n
    ensures forall r, c :: 0 <= r < n && 0 <= c < n ==>
      grid[r, c] == if !used[r, c] && inverts(r, c) then Flip(base[r, c]) else base[r, c]
  {
    grid := new int[n, n]((r, c) requires 0 <= r < base.Length0 && 0 <= c < base.Length1 reads base => base[r, c]);
    for r := 0 to n
      invariant forall i, j :: 0 <= i < n && 0 <= j < n ==>
        grid[i, j] == if i < r && !used[i, j] && inverts(i, j) then Flip(base[i, j]) else base[i, j]
    {
      for c := 0 to n
        invariant forall i, j :: 0 <= i < n && 0 <= j < n ==>
          grid[i, j] == if (i < r || (i == r && j < c)) && !used[i, j] && inverts(i, j)
                        then Flip(base[i, j]) else base[i, j]
      {
        if !used[r, c] && inverts(r, c) {
          grid[r, c] := Flip(grid[r, c]);
        }
      }
    }
  }

  // ---- format information -----------------------------------------------------

  /** Which of the fifteen format bits a module shows, or -1. Two copies: one
      around the top-left finder, one split between the other two. */
  function FormatIndex(n: int, r: int, c: int): int {
    if r == 8 && 0 <= c < 6 then c
    else if r == 8 && c == 7 then 6
    else if r == 8 && c == 8 then 7
    else if r == 7 && c == 8 then 8
    else if c == 8 && 0 <= r < 6 then 14 - r
    else if c == 8 && n - 7 <= r < n then n - 1 - r
    else if r == 8 && n - 8 <= c < n then c - (n - 15)
    else -1
  }

  /** The module of the first copy that shows bit i. */
  function FirstCopy(i: nat): (int, int) {
    if i < 6 then (8, i)
    else if i == 6 then (8, 7)
    else if i == 7 then (8, 8)
    else if i == 8 then (7, 8)
    else (14 - i, 8)
  }

  function SecondCopy(n: int, i: nat): (int, int) {
    if i < 7 then (n - 1 - i, 8) else (8, n - 15 + i)
  }

  lemma FormatCopies(n: int, r: int, c: int, i: nat)
    requires n >= 21 && i < 15 && 0 <= r < n && 0 <= c < n
    ensures FormatIndex(n, r, c) == i <==> (r, c) == FirstCopy(i) || (r, c) == SecondCopy(n, i)
  {
  }

  function FormatModule(mask: nat, i: nat): int
    requires i < 15
  {
    QrCodes.BitAt(QrCodes.FormatCode(mask), 14 - i)
  }

  method WriteFormat(grid: array2<int>, n: nat, mask: nat)
    requires grid.Length0 == grid.Length1 == n && n >= 21
    modifies grid
    ensures forall r, c :: 0 <= r < n && 0 <= c < n ==>
      var k := FormatIndex(n, r, c);
      grid[r, c] == if 0 <= k < 15 then FormatModule(mask, k) else old(grid[r, c])
  {
    var bits := QrCodes.FormatBits(mask);
    for i := 0 to 15
      invariant forall r, c :: 0 <= r < n && 0 <= c < n ==>
        var k := FormatIndex(n, r, c);
        grid[r, c] == if 0 <= k < i then FormatModule(mask, k) else old(grid[r, c])
    {
      var v := QrCodes.BitAt(bits, 14 - i);
      WriteBit(grid, n, i, v);
    }
  }

  method WriteBit(grid: array2<int>, n: nat, i: nat, v: int)
    requires grid.Length0 == grid.Length1 == n && n >= 21 && i < 15
    modifies grid
    ensures forall r, c :: 0 <= r < n && 0 <= c < n ==>
      grid[r, c] == if FormatIndex(n, r, c) == i then v else old(grid[r, c])
  {
    if i < 6 {
      grid[8, i] := v;
    } else if i == 6 {
      grid[8, 7] := v;
    } else if i == 7 {
      grid[8, 8] := v;
    } else if i == 8 {
      grid[7, 8] := v;
    } else {
      grid[14 - i, 8] := v;
    }
    if i < 7 {
      grid[n - 1 - i, 8] := v;
    } else {
      grid[8, n - 15 + i] := v;
    }
    forall r, c | 0 <= r < n && 0 <= c < n
      ensures FormatIndex(n, r, c) == i <==> (r, c) == FirstCopy(i) || (r, c) == SecondCopy(n, i)
    {
      FormatCopies(n, r, c, i);
    }
  }

  /** Format modules are reserved: masking never touches them. */
  lemma FormatReserved(v: Version, r: int, c: int)
    requires 0 <= r < Size(v) && 0 <= c < Size(v) && FormatIndex(Size(v), r, c) >= 0
    ensures Reserved(v, r, c)
  {
  }
}
