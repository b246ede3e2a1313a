/** The function patterns of a symbol: finders, timing, alignment, the dark
    module, format areas and version blocks, and which modules they reserve. */
module QrGrid {
  import opened QrCodewords
  import QrCodes

  function Size(v: Version): nat {
    17 + 4 * v
  }

  function Abs(x: int): nat {
    if x < 0 then -x else x
  }

  /** How far a module is from a centre, counted in square rings. */
  function Ring(r: int, c: int, cr: int, cc: int): nat {
    if Abs(r - cr) > Abs(c - cc) then Abs(r - cr) else Abs(c - cc)
  }

  predicate Square(grid: array2<int>, used: array2<bool>, n: nat) {
    grid.Length0 == grid.Length1 == used.Length0 == used.Length1 == n
  }

  /** One row of a square stamp. */
  method PaintRow(grid: array2<int>, used: array2<bool>, n: nat, cr: int, cc: int, radius: int, dr: int,
          f: (int, int) -> int)
    requires Square(grid, used, n) && radius >= 0 && 0 <= cr + dr < n
    modifies grid, used
    ensures forall r, c :: 0 <= r < n && 0 <= c < n ==>
      grid[r, c] == if r == cr + dr && Abs(c - cc) <= radius then f(dr, c - cc) else old(grid[r, c])
    ensures forall r, c :: 0 <= r < n && 0 <= c < n ==>
      used[r, c] == (old(used[r, c]) || (r == cr + dr && Abs(c - cc) <= radius))
  {
    for dc := -radius to radius + 1
      invariant forall r, c :: 0 <= r < n && 0 <= c < n ==>
        grid[r, c] == if r == cr + dr && -radius <= c - cc < dc then f(dr, c - cc) else old(grid[r, c])
      invariant forall r, c :: 0 <= r < n && 0 <= c < n ==>
        used[r, c] == (old(used[r, c]) || (r == cr + dr && -radius <= c - cc < dc))
    {
      if 0 <= cc + dc < n {
        grid[cr + dr, cc + dc] := f(dr, dc);
        used[cr + dr, cc + dc] := true;
      }
    }
  }

  /** A square stamp around a centre, cut off at the edges of the grid. */
  method Paint(grid: array2<int>, used: array2<bool>, n: nat, cr: int, cc: int, radius: int, f: (int, int) -> int)
    requires Square(grid, used, n) && radius >= 0
    modifies grid, used
    ensures forall r, c :: 0 <= r < n && 0 <= c < n ==>
      grid[r, c] == if Ring(r, c, cr, cc) <= radius then f(r - cr, c - cc) else old(grid[r, c])
    ensures forall r, c :: 0 <= r < n && 0 <= c < n ==>
      used[r, c] == (old(used[r, c]) || Ring(r, c, cr, cc) <= radius)
  {
    for dr := -radius to radius + 1
      invariant forall r, c :: 0 <= r < n && 0 <= c < n ==>
        grid[r, c] == if -radius <= r - cr < dr && Abs(c - cc) <= radius then f(r - cr, c - cc) else old(grid[r, c])
      invariant forall r, c :: 0 <= r < n && 0 <= c < n ==>
        used[r, c] == (old(used[r, c]) || (-radius <= r - cr < dr && Abs(c - cc) <= radius))
    {
      if 0 <= cr + dr < n {
        PaintRow(grid, used, n, cr, cc, radius, dr, f);
      }
    }
  }

  // ---- finders --------------------------------------------------------------

  /** A finder about its centre: the 7 x 7 outline and the 3 x 3 heart are dark,
      the rest and the separator around it are light. */
  function FinderModule(dr: int, dc: int): int {
    var r, c := dr + 3, dc + 3;
    var inside := 0 <= r <= 6 && 0 <= c <= 6;
    if inside && (r == 0 || r == 6 || c == 0 || c == 6 || (2 <= r <= 4 && 2 <= c <= 4)) then 1 else 0
  }

  predicate InFinder(n: int, r: int, c: int) {
    Ring(r, c, 3, 3) <= 4 || Ring(r, c, 3, n - 4) <= 4 || Ring(r, c, n - 4, 3) <= 4
  }

  function FinderLayer(n: int, r: int, c: int): int {
    if Ring(r, c, n - 4, 3) <= 4 then FinderModule(r - (n - 4), c - 3)
    else if Ring(r, c, 3, n - 4) <= 4 then FinderModule(r - 3, c - (n - 4))
    else if Ring(r, c, 3, 3) <= 4 then FinderModule(r - 3, c - 3)
    else 0
  }

  method Finders(grid: array2<int>, used: array2<bool>, n: nat)
    requires Square(grid, used, n)
    requires forall r, c :: 0 <= r < n && 0 <= c < n ==> grid[r, c] == 0 && !used[r, c]
    modifies grid, used
    ensures forall r, c :: 0 <= r < n && 0 <= c < n ==>
      grid[r, c] == FinderLayer(n, r, c) && used[r, c] == InFinder(n, r, c)
  {
    Paint(grid, used, n, 3, 3, 4, FinderModule);
    Paint(grid, used, n, 3, n - 4, 4, FinderModule);
    Paint(grid, used, n, n - 4, 3, 4, FinderModule);
  }

  // ---- timing ---------------------------------------------------------------

  predicate InTiming(n: int, r: int, c: int) {
    (r == 6 && 8 <= c < n - 8) || (c == 6 && 8 <= r < n - 8)
  }

  function TimingModule(r: int, c: int): int {
    if r == 6 then (c + 1) % 2 else (r + 1) % 2
  }

  method Timing(grid: array2<int>, used: array2<bool>, n: nat)
    requires Square(grid, used, n) && n >= 16
    modifies grid, used
    ensures forall r, c :: 0 <= r < n && 0 <= c < n ==>
      grid[r, c] == if InTiming(n, r, c) then TimingModule(r, c) else old(grid[r, c])
    ensures forall r, c :: 0 <= r < n && 0 <= c < n ==>
      used[r, c] == (old(used[r, c]) || InTiming(n, r, c))
  {
    for i := 8 to n - 8
      invariant forall r, c :: 0 <= r < n && 0 <= c < n ==>
        grid[r, c] == if InTiming(i + 8, r, c) then TimingModule(r, c) else old(grid[r, c])
      invariant forall r, c :: 0 <= r < n && 0 <= c < n ==>
        used[r, c] == (old(used[r, c]) || InTiming(i + 8, r, c))
    {
      grid[i, 6] := (i + 1) % 2;
      grid[6, i] := (i + 1) % 2;
      used[i, 6] := true;
      used[6, i] := true;
    }
  }

  // ---- alignment ------------------------------------------------------------

  function AlignCoords(v: Version): seq<int> {
    match v
    case 1 => []
    case 2 => [6, 18]
    case 3 => [6, 22]
    case 4 => [6, 26]
    case 5 => [6, 30]
    case 6 => [6, 34]
    case 7 => [6, 22, 38]
    case 8 => [6, 24, 42]
    case 9 => [6, 26, 46]
    case 10 => [6, 28, 50]
  }

  function AlignModule(dr: int, dc: int): int {
    if Ring(dr, dc, 0, 0) != 1 then 1 else 0
  }

  /** The three corners that would sit on a finder. */
  predicate OnFinder(coords: seq<int>, r: int, c: int)
    requires |coords| > 0
  {
    var last := coords[|coords| - 1];
    (r == 6 && c == 6) || (r == 6 && c == last) || (r == last && c == 6)
  }

  /** The centres visited by the two loops before row i, column j. */
  function Centres(coords: seq<int>, i: nat, j: nat): seq<(int, int)>
    requires i <= |coords| && j <= |coords| && (i == |coords| ==> j == 0)
    decreases i, j
  {
    if j > 0 then
      Centres(coords, i, j - 1) +
      if OnFinder(coords, coords[i], coords[j - 1]) then [] else [(coords[i], coords[j - 1])]
    else if i > 0 then Centres(coords, i - 1, |coords|)
    else []
  }

  predicate Stamped(centres: seq<(int, int)>, r: int, c: int) {
    |centres| > 0 &&
    var (cr, cc) := centres[|centres| - 1];
    Ring(r, c, cr, cc) <= 2 || Stamped(centres[..|centres| - 1], r, c)
  }

  function AlignLayer(centres: seq<(int, int)>, r: int, c: int, under: int): int {
    if |centres| == 0 then under
    else
      var (cr, cc) := centres[|centres| - 1];
      if Ring(r, c, cr, cc) <= 2 then AlignModule(r - cr, c - cc)
      else AlignLayer(centres[..|centres| - 1], r, c, under)
  }

  lemma PushCentre(centres: seq<(int, int)>, cr: int, cc: int, r: int, c: int, under: int)
    ensures Stamped(centres + [(cr, cc)], r, c) == (Ring(r, c, cr, cc) <= 2 || Stamped(centres, r, c))
    ensures AlignLayer(centres + [(cr, cc)], r, c, under)
         == if Ring(r, c, cr, cc) <= 2 then AlignModule(r - cr, c - cc) else AlignLayer(centres, r, c, under)
  {
    assert (centres + [(cr, cc)])[..|centres|] == centres;
  }

  /** The grid is the given layer with the stamps at these centres over it. */
  ghost predicate StampedOver(grid: array2<int>, used: array2<bool>, n: nat, centres: seq<(int, int)>,
          under: (int, int) -> int, taken: (int, int) -> bool)
    requires Square(grid, used, n)
    reads grid, used
  {
    forall r, c :: 0 <= r < n && 0 <= c < n ==>
      && grid[r, c] == AlignLayer(centres, r, c, under(r, c))
      && used[r, c] == (taken(r, c) || Stamped(centres, r, c))
  }

  method AlignOne(grid: array2<int>, used: array2<bool>, n: nat, coords: seq<int>, i: nat, j: nat,
          ghost under: (int, int) -> int, ghost taken: (int, int) -> bool)
    requires Square(grid, used, n) && i < |coords| && j < |coords|
    requires StampedOver(grid, used, n, Centres(coords, i, j), under, taken)
    modifies grid, used
    ensures StampedOver(grid, used, n, Centres(coords, i, j + 1), under, taken)
  {
    ghost var centres := Centres(coords, i, j);
    if OnFinder(coords, coords[i], coords[j]) {
      assert Centres(coords, i, j + 1) == centres;
    } else {
      Paint(grid, used, n, coords[i], coords[j], 2, AlignModule);
      forall r, c | 0 <= r < n && 0 <= c < n
        ensures
          && grid[r, c] == AlignLayer(Centres(coords, i, j + 1), r, c, under(r, c))
          && used[r, c] == (taken(r, c) || Stamped(Centres(coords, i, j + 1), r, c))
      {
        PushCentre(centres, coords[i], coords[j], r, c, under(r, c));
      }
    }
  }

  method Alignment(grid: array2<int>, used: array2<bool>, n: nat, coords: seq<int>, ghost under: (int, int) -> int,
          ghost taken: (int, int) -> bool)
    requires Square(grid, used, n)
    requires StampedOver(grid, used, n, [], under, taken)
    modifies grid, used
    ensures StampedOver(grid, used, n, Centres(coords, |coords|, 0), under, taken)
  {
    for i := 0 to |coords|
      invariant StampedOver(grid, used, n, Centres(coords, i, 0), under, taken)
    {
      for j := 0 to |coords|
        invariant StampedOver(grid, used, n, Centres(coords, i, j), under, taken)
      {
        AlignOne(grid, used, n, coords, i, j, under, taken);
      }
    }
  }

  // ---- format areas, the dark module, version blocks ------------------------

  predicate InFormat(n: int, r: int, c: int) {
    || (r == 8 && (c <= 8 || c >= n - 8))
    || (c == 8 && (r <= 8 || r >= n - 8))
  }

  method FormatAreas(used: array2<bool>, n: nat)
    requires used.Length0 == used.Length1 == n && n >= 16
    modifies used
    ensures forall r, c :: 0 <= r < n && 0 <= c < n ==>
      used[r, c] == (old(used[r, c]) || InFormat(n, r, c))
  {
    for i := 0 to 9
      invariant forall r, c :: 0 <= r < n && 0 <= c < n ==>
        used[r, c] == (old(used[r, c]) || (r == 8 && c < i) || (c == 8 && r < i))
    {
      used[8, i] := true;
      used[i, 8] := true;
    }
    for i := 0 to 8
      invariant forall r, c :: 0 <= r < n && 0 <= c < n ==>
        used[r, c] == (old(used[r, c])
          || (r == 8 && (c <= 8 || c >= n - i)) || (c == 8 && (r <= 8 || r >= n - i)))
    {
      used[8, n - 1 - i] := true;
      used[n - 1 - i, 8] := true;
    }
  }

  /** The 3 x 6 block beside the top-right finder, and its mirror image. */
  predicate InVersion(n: int, r: int, c: int) {
    || (0 <= r < 6 && n - 11 <= c < n - 8)
    || (0 <= c < 6 && n - 11 <= r < n - 8)
  }

  /** Which of the eighteen bits a module of those blocks shows. */
  function VersionIndex(n: int, r: int, c: int): nat
    requires InVersion(n, r, c)
  {
    if 0 <= r < 6 && n - 11 <= c < n - 8 then 3 * r + (c - (n - 11)) else 3 * c + (r - (n - 11))
  }

  method VersionBlocks(grid: array2<int>, used: array2<bool>, n: nat, bits: nat)
    requires Square(grid, used, n) && n >= 17
    modifies grid, used
    ensures forall r, c :: 0 <= r < n && 0 <= c < n ==>
      grid[r, c] == if InVersion(n, r, c) then QrCodes.BitAt(bits, VersionIndex(n, r, c)) else old(grid[r, c])
    ensures forall r, c :: 0 <= r < n && 0 <= c < n ==>
      used[r, c] == (old(used[r, c]) || InVersion(n, r, c))
  {
    for i := 0 to 18
      invariant forall r, c :: 0 <= r < n && 0 <= c < n ==>
        grid[r, c] == if InVersion(n, r, c) && VersionIndex(n, r, c) < i
                      then QrCodes.BitAt(bits, VersionIndex(n, r, c)) else old(grid[r, c])
      invariant forall r, c :: 0 <= r < n && 0 <= c < n ==>
        used[r, c] == (old(used[r, c]) || (InVersion(n, r, c) && VersionIndex(n, r, c) < i))
    {
      var a, b := i / 3, n - 11 + i % 3;
      VersionPair(n, i, a, b);
      MarkPair(grid, used, n, a, b, QrCodes.BitAt(bits, i));
    }
  }

  /** Bit i goes to one module and to its mirror image. */
  lemma VersionPair(n: int, i: nat, a: int, b: int)
    requires n >= 17 && i < 18 && a == i / 3 && b == n - 11 + i % 3
    ensures 0 <= a < 6 && n - 11 <= b < n - 8
    ensures forall r, c :: 0 <= r < n && 0 <= c < n ==>
      ((r == a && c == b) || (r == b && c == a) <==> InVersion(n, r, c) && VersionIndex(n, r, c) == i)
  {
    forall r, c | 0 <= r < n && 0 <= c < n && InVersion(n, r, c)
      ensures (r == a && c == b) || (r == b && c == a) <==> VersionIndex(n, r, c) == i
    {
      if 0 <= r < 6 && n - 11 <= c < n - 8 {
        Thirds(r, c - (n - 11), i);
      } else {
        Thirds(c, r - (n - 11), i);
      }
    }
  }

  lemma Thirds(q: int, m: int, i: nat)
    requires 0 <= q && 0 <= m < 3
    ensures 3 * q + m == i <==> q == i / 3 && m == i % 3
  {
  }

  method MarkPair(grid: array2<int>, used: array2<bool>, n: nat, a: nat, b: nat, v: int)
    requires Square(grid, used, n) && a < n && b < n
    modifies grid, used
    ensures forall r, c :: 0 <= r < n && 0 <= c < n ==>
      grid[r, c] == (if (r == a && c == b) || (r == b && c == a) then v else old(grid[r, c]))
      && used[r, c] == (old(used[r, c]) || (r == a && c == b) || (r == b && c == a))
  {
    grid[a, b] := v;
    grid[b, a] := v;
    used[a, b] := true;
    used[b, a] := true;
  }

  // ---- all of it ------------------------------------------------------------

  function AllCentres(v: Version): seq<(int, int)> {
    Centres(AlignCoords(v), |AlignCoords(v)|, 0)
  }

  function BaseLayer(n: int, r: int, c: int): int {
    if InTiming(n, r, c) then TimingModule(r, c) else FinderLayer(n, r, c)
  }

  predicate BaseTaken(n: int, r: int, c: int) {
    InFinder(n, r, c) || InTiming(n, r, c)
  }

  method FindersAndTiming(grid: array2<int>, used: array2<bool>, n: nat)
    requires Square(grid, used, n) && n >= 16
    requires forall r, c :: 0 <= r < n && 0 <= c < n ==> grid[r, c] == 0 && !used[r, c]
    modifies grid, used
    ensures forall r, c :: 0 <= r < n && 0 <= c < n ==>
      grid[r, c] == BaseLayer(n, r, c) && used[r, c] == BaseTaken(n, r, c)
  {
    Finders(grid, used, n);
    Timing(grid, used, n);
  }

  method DataAreas(grid: array2<int>, used: array2<bool>, v: Version, n: nat)
    requires n == Size(v) && Square(grid, used, n)
    requires StampedOver(grid, used, n, AllCentres(v),
                         (r, c) => BaseLayer(n, r, c), (r, c) => BaseTaken(n, r, c))
    modifies grid, used
    ensures forall r, c :: 0 <= r < n && 0 <= c < n ==>
      grid[r, c] == Fixed(v, r, c) && used[r, c] == Reserved(v, r, c)
  {
    DarkModule(grid, used, n);
    FormatAreas(used, n);
    if v >= 7 {
      var bits := QrCodes.VersionBits(v);
      VersionBlocks(grid, used, n, bits);
    }
  }

  method DarkModule(grid: array2<int>, used: array2<bool>, n: nat)
    requires Square(grid, used, n) && n >= 16
    modifies grid, used
    ensures forall r, c :: 0 <= r < n && 0 <= c < n ==>
      grid[r, c] == (if r == n - 8 && c == 8 then 1 else old(grid[r, c]))
      && used[r, c] == (old(used[r, c]) || (r == n - 8 && c == 8))
  {
    grid[n - 8, 8] := 1;
    used[n - 8, 8] := true;
  }

  /** Which modules carry no data. */
  predicate Reserved(v: Version, r: int, c: int) {
    var n := Size(v);
    || BaseTaken(n, r, c)
    || Stamped(AllCentres(v), r, c)
    || InFormat(n, r, c)
    || (v >= 7 && InVersion(n, r, c))
  }

  /** What the fixed modules show; format modules are written later. */
  function Fixed(v: Version, r: int, c: int): int {
    var n := Size(v);
    if v >= 7 && InVersion(n, r, c) then QrCodes.BitAt(QrCodes.VersionCode(v), VersionIndex(n, r, c))
    else if r == n - 8 && c == 8 then 1
    else AlignLayer(AllCentres(v), r, c, BaseLayer(n, r, c))
  }

  method MakeGrid(v: Version) returns (grid: array2<int>, used: array2<bool>)
    ensures fresh(grid) && fresh(used) && Square(grid, used, Size(v))
    ensures forall r, c :: 0 <= r < Size(v) && 0 <= c < Size(v) ==>
      grid[r, c] == Fixed(v, r, c) && used[r, c] == Reserved(v, r, c)
  {
    var n := Size(v);
    grid := new int[n, n]((_, _) => 0);
    used := new bool[n, n]((_, _) => false);
    FindersAndTiming(grid, used, n);
    Alignment(grid, used, n, AlignCoords(v), (r, c) => BaseLayer(n, r, c), (r, c) => BaseTaken(n, r, c));
    DataAreas(grid, used, v, n);
  }
}
