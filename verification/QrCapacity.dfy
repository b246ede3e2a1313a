/** Counting the free modules: every version has room for all its codewords. */
module QrCapacity {
  import opened QrCodewords
  import opened QrGrid
  import opened QrPlacement
  import opened QrInterleave

  function FreeRegion(v: Version): Region {
    (r, c) => !Reserved(v, r, c)
  }

  // ---- the reserved modules, said without patterns ----------------------------

  predicate Near(x: int, centre: int) {
    centre - 2 <= x <= centre + 2
  }

  function LastCentre(v: Version): int {
    4 * v + 10
  }

  function MiddleCentre(v: Version): int {
    2 * v + 8
  }

  predicate InAlignment(v: Version, r: int, c: int) {
    var m, l := MiddleCentre(v), LastCentre(v);
    || (v >= 2 && Near(r, l) && Near(c, l))
    || (v >= 7 &&
        (|| (Near(r, 6) && Near(c, m)) || (Near(r, m) && (Near(c, 6) || Near(c, m) || Near(c, l)))
         || (Near(r, l) && Near(c, m))))
  }

  lemma CoordsFormula(v: Version)
    ensures v == 1 ==> AlignCoords(v) == []
    ensures 2 <= v <= 6 ==> AlignCoords(v) == [6, LastCentre(v)]
    ensures v >= 7 ==> AlignCoords(v) == [6, MiddleCentre(v), LastCentre(v)]
  {
  }

  lemma CentresOfTwo(a: int)
    requires a > 6
    ensures Centres([6, a], 2, 0) == [(a, a)]
  {
    assert Centres([6, a], 0, 2) == [];
    assert Centres([6, a], 1, 2) == [(a, a)];
  }

  lemma CentresOfThree(m: int, a: int)
    requires 6 < m < a
    ensures Centres([6, m, a], 3, 0) == [(6, m), (m, 6), (m, m), (m, a), (a, m), (a, a)]
  {
    assert Centres([6, m, a], 0, 3) == [(6, m)];
    assert Centres([6, m, a], 1, 3) == [(6, m), (m, 6), (m, m), (m, a)] by {
      assert Centres([6, m, a], 1, 1) == [(6, m), (m, 6)];
    }
    assert Centres([6, m, a], 2, 3) == [(6, m), (m, 6), (m, m), (m, a), (a, m), (a, a)] by {
      assert Centres([6, m, a], 2, 1) == [(6, m), (m, 6), (m, m), (m, a)];
    }
  }

  lemma StampedLast(centres: seq<(int, int)>, r: int, c: int)
    requires |centres| > 0
    ensures var last := centres[|centres| - 1];
      Stamped(centres, r, c) == ((Near(r, last.0) && Near(c, last.1)) || Stamped(centres[..|centres| - 1], r, c))
  {
  }

  lemma StampedIsAlignment(v: Version, r: int, c: int)
    ensures Stamped(AllCentres(v), r, c) == InAlignment(v, r, c)
  {
    var m, l := MiddleCentre(v), LastCentre(v);
    CoordsFormula(v);
    if v == 1 {
      assert AllCentres(v) == [];
    } else if v <= 6 {
      CentresOfTwo(l);
      StampedLast([(l, l)], r, c);
    } else {
      CentresOfThree(m, l);
      StampedSix(m, l, r, c);
    }
  }

  lemma StampedSix(m: int, l: int, r: int, c: int)
    ensures Stamped([(6, m), (m, 6), (m, m), (m, l), (l, m), (l, l)], r, c)
      == (|| (Near(r, l) && Near(c, l)) || (Near(r, l) && Near(c, m)) || (Near(r, m) && Near(c, l))
          || (Near(r, m) && Near(c, m)) || (Near(r, m) && Near(c, 6)) || (Near(r, 6) && Near(c, m)))
  {
    var six := [(6, m), (m, 6), (m, m), (m, l), (l, m), (l, l)];
    StampedLast(six, r, c);
    var five := [(6, m), (m, 6), (m, m), (m, l), (l, m)];
    assert six[..5] == five;
    StampedLast(five, r, c);
    var four := [(6, m), (m, 6), (m, m), (m, l)];
    assert five[..4] == four;
    StampedLast(four, r, c);
    var three := [(6, m), (m, 6), (m, m)];
    assert four[..3] == three;
    StampedLast(three, r, c);
    var two := [(6, m), (m, 6)];
    assert three[..2] == two;
    StampedLast(two, r, c);
    assert two[..1] == [(6, m)];
    StampedLast([(6, m)], r, c);
  }

  /** Corners, the timing lines, alignment and version blocks. */
  predicate Taken(v: Version, r: int, c: int) {
    var n := Size(v);
    || (r <= 8 && c <= 8) || (r <= 8 && c >= n - 8) || (r >= n - 8 && c <= 8)
    || r == 6 || c == 6
    || InAlignment(v, r, c)
    || (v >= 7 && InVersion(n, r, c))
  }

  lemma ReservedIsTaken(v: Version, r: int, c: int)
    requires 0 <= r < Size(v) && 0 <= c < Size(v)
    ensures Reserved(v, r, c) == Taken(v, r, c)
  {
    StampedIsAlignment(v, r, c);
  }

  // ---- counting one column ----------------------------------------------------

  function CountRows(free: Region, c: int, rows: nat): nat {
    if rows == 0 then 0 else CountRows(free, c, rows - 1) + One(free(rows - 1, c))
  }

  lemma {:induction false} CountBand(free: Region, c: int, a: nat, b: nat, open: bool)
    requires a <= b && forall r :: a <= r < b ==> free(r, c) == open
    ensures CountRows(free, c, b) == CountRows(free, c, a) + if open then b - a else 0
    decreases b
  {
    if a < b {
      CountBand(free, c, a, b - 1, open);
    }
  }

  /** Row bands in which a column is reserved or free throughout. */
  function Band(v: Version, k: nat): int {
    var n := Size(v);
    if k == 0 then 0
    else if k == 1 then 4
    else if k == 2 then 6
    else if k == 3 then 7
    else if k == 4 then 9
    else if k == 5 then if v >= 7 then MiddleCentre(v) - 2 else 9
    else if k == 6 then if v >= 7 then MiddleCentre(v) + 3 else 9
    else if k == 7 then n - 11
    else if k == 8 then n - 9
    else if k == 9 then n - 8
    else if k == 10 then n - 4
    else n
  }

  predicate BandTaken(v: Version, c: int, k: nat) {
    var n := Size(v);
    var middle := v >= 7 && Near(c, MiddleCentre(v));
    var last := v >= 2 && Near(c, LastCentre(v));
    var edge := c <= 8 || c >= n - 8;
    if k == 0 then edge || (v >= 7 && n - 11 <= c < n - 8)
    else if k == 1 then edge || (v >= 7 && n - 11 <= c < n - 8) || middle
    else if k == 2 then true
    else if k == 3 then edge || middle
    else if k == 4 then false
    else if k == 5 then v >= 7 && (Near(c, 6) || middle || last)
    else if k == 6 then false
    else if k == 7 then v >= 7 && c < 6
    else if k == 8 then (v >= 7 && c < 6) || middle || last
    else if k == 9 then c <= 8 || middle || last
    else c <= 8
  }

  lemma BandUniform(v: Version, c: int, k: nat, r: int)
    requires k < 11 && 0 <= c < Size(v) && c != 6
    requires Band(v, k) <= r < Band(v, k + 1)
    ensures Taken(v, r, c) == BandTaken(v, c, k)
  {
  }

  function BandFree(v: Version, c: int, k: nat): int {
    if BandTaken(v, c, k) then 0 else Band(v, k + 1) - Band(v, k)
  }

  function BandsFree(v: Version, c: int, k: nat): int {
    if k == 0 then 0 else BandsFree(v, c, k - 1) + BandFree(v, c, k - 1)
  }

  lemma BandsInOrder(v: Version, k: nat)
    requires k < 11
    ensures 0 <= Band(v, k) <= Band(v, k + 1) <= Size(v)
  {
  }

  lemma BandCount(v: Version, c: int, k: nat)
    requires k < 11 && 0 <= c < Size(v) && c != 6
    ensures 0 <= Band(v, k) <= Band(v, k + 1)
    ensures CountRows(FreeRegion(v), c, Band(v, k + 1))
         == CountRows(FreeRegion(v), c, Band(v, k)) + BandFree(v, c, k)
  {
    BandsInOrder(v, k);
    var free, open := FreeRegion(v), !BandTaken(v, c, k);
    forall r | Band(v, k) <= r < Band(v, k + 1)
      ensures free(r, c) == open
    {
      BandUniform(v, c, k, r);
      ReservedIsTaken(v, r, c);
    }
    CountBand(free, c, Band(v, k), Band(v, k + 1), open);
  }

  lemma {:induction false} CountBands(v: Version, c: int, k: nat)
    requires k <= 11 && 0 <= c < Size(v) && c != 6
    ensures 0 <= Band(v, k)
    ensures CountRows(FreeRegion(v), c, Band(v, k)) == BandsFree(v, c, k)
  {
    if k > 0 {
      CountBands(v, c, k - 1);
      BandCount(v, c, k - 1);
    }
  }

  /** Free modules in a column, summed up. */
  function ColumnTotal(v: Version, c: int): int {
    var n := Size(v);
    var middle := v >= 7 && Near(c, MiddleCentre(v));
    var last := v >= 2 && Near(c, LastCentre(v));
    n - (if c <= 8 then 17 else if c >= n - 8 then 9 else 1)
      - (if v >= 7 && c <= 5 then 3 else 0)
      - (if v >= 7 && Near(c, 6) then 5 else 0)
      - (if v >= 7 && n - 11 <= c < n - 8 then 6 else 0)
      - (if middle then 14 else 0)
      - (if last then if v >= 7 then 10 else 5 else 0)
  }

  lemma BandsTotal(v: Version, c: int)
    requires 0 <= c < Size(v) && c != 6
    ensures BandsFree(v, c, 11) == ColumnTotal(v, c)
  {
    assert BandsFree(v, c, 1) == BandFree(v, c, 0);
    assert BandsFree(v, c, 3) == BandsFree(v, c, 1) + BandFree(v, c, 1) + BandFree(v, c, 2);
    assert BandsFree(v, c, 5) == BandsFree(v, c, 3) + BandFree(v, c, 3) + BandFree(v, c, 4);
    assert BandsFree(v, c, 7) == BandsFree(v, c, 5) + BandFree(v, c, 5) + BandFree(v, c, 6);
    assert BandsFree(v, c, 9) == BandsFree(v, c, 7) + BandFree(v, c, 7) + BandFree(v, c, 8);
    assert BandsFree(v, c, 11) == BandsFree(v, c, 9) + BandFree(v, c, 9) + BandFree(v, c, 10);
  }

  lemma ColumnCount(v: Version, c: int)
    requires 0 <= c < Size(v) && c != 6
    ensures CountRows(FreeRegion(v), c, Size(v)) == ColumnTotal(v, c)
  {
    CountBands(v, c, 11);
    BandsTotal(v, c);
  }

  // ---- the walk meets whole columns -------------------------------------------

  lemma {:induction false} PairCount(free: Region, n: nat, p: nat, s: nat)
    requires Sized(n) && p < (n - 1) / 2 && s <= n
    ensures var c := PairColumn(n, p);
      FreeBefore(free, n, p, s) - FreeBefore(free, n, p, 0)
      == if p % 2 == 0
         then CountRows(free, c, n) - CountRows(free, c, n - s)
             + CountRows(free, c - 1, n) - CountRows(free, c - 1, n - s)
         else CountRows(free, c, s) + CountRows(free, c - 1, s)
  {
    if s > 0 {
      PairCount(free, n, p, s - 1);
    }
  }

  function SumOver(f: int -> int, a: int, b: int): int
    decreases b - a
  {
    if a >= b then 0 else f(a) + SumOver(f, a + 1, b)
  }

  lemma {:induction false} SumSplit(f: int -> int, a: int, b: int, c: int)
    requires a <= b <= c
    ensures SumOver(f, a, c) == SumOver(f, a, b) + SumOver(f, b, c)
    decreases b - a
  {
    if a < b {
      SumSplit(f, a + 1, b, c);
    }
  }

  lemma {:induction false} SumConstant(f: int -> int, a: int, b: int, x: int)
    requires a <= b && forall c :: a <= c < b ==> f(c) == x
    ensures SumOver(f, a, b) == (b - a) * x
    decreases b - a
  {
    if a < b {
      SumConstant(f, a + 1, b, x);
      MulStep(b - a, x);
    }
  }

  lemma MulStep(n: int, x: int)
    ensures n * x == x + (n - 1) * x
  {
  }

  /** Free modules in columns a to b - 1. */
  function ColumnsTotal(v: Version, a: int, b: int): int {
    SumOver(c => ColumnTotal(v, c), a, b)
  }

  /** The columns met by the first p pairs, column 6 left out. */
  function MetTotal(v: Version, p: nat): int {
    var n := Size(v);
    if n - 2 * p >= 7 then ColumnsTotal(v, n - 2 * p, n)
    else ColumnsTotal(v, 7, n) + ColumnsTotal(v, n - 1 - 2 * p, 6)
  }

  lemma PairTotal(v: Version, p: nat)
    requires p < (Size(v) - 1) / 2
    ensures FreeBefore(FreeRegion(v), Size(v), p + 1, 0) - FreeBefore(FreeRegion(v), Size(v), p, 0)
         == ColumnTotal(v, PairColumn(Size(v), p)) + ColumnTotal(v, PairColumn(Size(v), p) - 1)
  {
    var n := Size(v);
    var c := PairColumn(n, p);
    PairCount(FreeRegion(v), n, p, n);
    WalkInjective(n, p, 0, 0);
    WalkInjective(n, p, 0, 1);
    ColumnCount(v, c);
    ColumnCount(v, c - 1);
  }

  lemma SumTwo(f: int -> int, a: int, b: int)
    requires a + 2 <= b
    ensures SumOver(f, a, b) == f(a) + f(a + 1) + SumOver(f, a + 2, b)
  {
    assert SumOver(f, a, b) == f(a) + SumOver(f, a + 1, b);
  }

  lemma MetStep(v: Version, p: nat)
    requires p < (Size(v) - 1) / 2
    ensures MetTotal(v, p + 1) - MetTotal(v, p)
         == ColumnTotal(v, PairColumn(Size(v), p)) + ColumnTotal(v, PairColumn(Size(v), p) - 1)
  {
    var n := Size(v);
    if n - 2 * p > 7 {
      ColumnsTwo(v, n - 2 * p - 2, n);
      RightOfTiming(v, p);
    } else {
      ColumnsTwo(v, n - 3 - 2 * p, 6);
      LeftOfTiming(v, p);
    }
  }

  lemma ColumnsTwo(v: Version, a: int, b: int)
    requires a + 2 <= b
    ensures ColumnsTotal(v, a, b) == ColumnTotal(v, a) + ColumnTotal(v, a + 1) + ColumnsTotal(v, a + 2, b)
  {
    SumTwo(c => ColumnTotal(v, c), a, b);
  }

  lemma RightOfTiming(v: Version, p: nat)
    requires Size(v) - 2 * p > 7
    ensures PairColumn(Size(v), p) == Size(v) - 2 * p - 1
    ensures MetTotal(v, p) == ColumnsTotal(v, Size(v) - 2 * p, Size(v))
    ensures MetTotal(v, p + 1) == ColumnsTotal(v, Size(v) - 2 * p - 2, Size(v))
  {
  }

  lemma LeftOfTiming(v: Version, p: nat)
    requires Size(v) - 2 * p <= 7 && p < (Size(v) - 1) / 2
    ensures PairColumn(Size(v), p) == Size(v) - 2 * p - 2
    ensures MetTotal(v, p) == ColumnsTotal(v, 7, Size(v)) + ColumnsTotal(v, Size(v) - 1 - 2 * p, 6)
    ensures MetTotal(v, p + 1) == ColumnsTotal(v, 7, Size(v)) + ColumnsTotal(v, Size(v) - 3 - 2 * p, 6)
  {
    assert Size(v) - 2 * p == 7 ==> ColumnsTotal(v, Size(v) - 1 - 2 * p, 6) == 0;
  }

  lemma {:induction false} WalkCount(v: Version, p: nat)
    requires p <= (Size(v) - 1) / 2
    ensures FreeBefore(FreeRegion(v), Size(v), p, 0) == MetTotal(v, p)
  {
    if p > 0 {
      WalkCount(v, p - 1);
      PairTotal(v, p - 1);
      MetStep(v, p - 1);
    }
  }

  // ---- summing the columns band by band ---------------------------------------

  /** The pattern is symmetric, so the row bands are column bands too. */
  lemma BandColumnsAlike(v: Version, k: nat, c: int)
    requires k < 11 && k != 2 && Band(v, k) <= c < Band(v, k + 1)
    ensures ColumnTotal(v, c) == ColumnTotal(v, Band(v, k))
  {
  }

  function BandTotal(v: Version, k: nat): int {
    (Band(v, k + 1) - Band(v, k)) * ColumnTotal(v, Band(v, k))
  }

  lemma ColumnsOfBand(v: Version, k: nat)
    requires k < 11 && k != 2
    ensures ColumnsTotal(v, Band(v, k), Band(v, k + 1)) == BandTotal(v, k)
  {
    forall c | Band(v, k) <= c < Band(v, k + 1)
      ensures ColumnTotal(v, c) == ColumnTotal(v, Band(v, k))
    {
      BandColumnsAlike(v, k, c);
    }
    BandsInOrder(v, k);
    SameColumns(v, Band(v, k), Band(v, k + 1), ColumnTotal(v, Band(v, k)));
  }

  lemma SameColumns(v: Version, a: int, b: int, x: int)
    requires a <= b && forall c :: a <= c < b ==> ColumnTotal(v, c) == x
    ensures ColumnsTotal(v, a, b) == (b - a) * x
  {
    SumConstant(c => ColumnTotal(v, c), a, b, x);
  }

  function BandsFrom3(v: Version, k: nat): int {
    if k <= 3 then 0 else BandsFrom3(v, k - 1) + BandTotal(v, k - 1)
  }

  lemma {:induction false} BandsAdd(v: Version, k: nat)
    requires 3 <= k <= 11
    ensures Band(v, 3) <= Band(v, k)
    ensures ColumnsTotal(v, Band(v, 3), Band(v, k)) == BandsFrom3(v, k)
  {
    if k > 3 {
      BandsAdd(v, k - 1);
      BandsInOrder(v, k - 1);
      SumSplit(c => ColumnTotal(v, c), Band(v, 3), Band(v, k - 1), Band(v, k));
      ColumnsOfBand(v, k - 1);
    }
  }

  /** All free modules, band by band. */
  function Modules(v: Version): int {
    BandTotal(v, 0) + BandTotal(v, 1) + BandsFrom3(v, 11)
  }

  lemma LeftColumns(v: Version)
    ensures ColumnsTotal(v, 0, 6) == BandTotal(v, 0) + BandTotal(v, 1)
  {
    SumSplit(c => ColumnTotal(v, c), 0, 4, 6);
    ColumnsOfBand(v, 0);
    ColumnsOfBand(v, 1);
  }

  lemma CapacityIsModules(v: Version)
    ensures Capacity(FreeRegion(v), Size(v)) == Modules(v)
  {
    WalkCount(v, (Size(v) - 1) / 2);
    ColumnsAreModules(v);
  }

  lemma ColumnsAreModules(v: Version)
    ensures MetTotal(v, (Size(v) - 1) / 2) == Modules(v)
  {
    AllColumns(v, (Size(v) - 1) / 2, 0);
    LeftColumns(v);
    RightColumns(v);
  }

  lemma AllColumns(v: Version, p: nat, left: int)
    requires Size(v) == 2 * p + 1 && left == 0
    ensures MetTotal(v, p) == ColumnsTotal(v, 7, Size(v)) + ColumnsTotal(v, left, 6)
  {
    assert left == Size(v) - 1 - 2 * p;
  }

  lemma RightColumns(v: Version)
    ensures ColumnsTotal(v, 7, Size(v)) == BandsFrom3(v, 11)
  {
    BandsAdd(v, 11);
  }

  function TotalWords(v: Version): nat {
    LayoutOf(v).capacity + |Sizes(LayoutOf(v).groups)| * LayoutOf(v).ec
  }

  /** Room for every codeword, and 7 modules left over in versions 2 to 6. */
  function RoomFor(words: nat, v: Version): nat {
    8 * words + if 2 <= v <= 6 then 7 else 0
  }

  lemma ModulesLow(v: Version)
    requires v <= 5
    ensures Modules(v) == RoomFor(match v case 1 => 26 case 2 => 44 case 3 => 70 case 4 => 100 case _ => 134, v)
  {
    if v <= 2 {
      ModulesLowest(v);
    } else {
      ModulesLower(v);
    }
  }

  lemma ModulesLowest(v: Version)
    requires v <= 2
    ensures Modules(v) == RoomFor(if v == 1 then 26 else 44, v)
  {
  }

  lemma ModulesLower(v: Version)
    requires 2 < v <= 5
    ensures Modules(v) == RoomFor(match v case 3 => 70 case 4 => 100 case _ => 134, v)
  {
  }

  lemma ModulesMiddle(v: Version)
    requires 5 < v <= 8
    ensures Modules(v) == RoomFor(match v case 6 => 172 case 7 => 196 case _ => 242, v)
  {
  }

  lemma ModulesHigh(v: Version)
    requires 8 < v
    ensures Modules(v) == RoomFor(if v == 9 then 292 else 346, v)
  {
  }

  lemma SizesOfTwo(a: Group, b: Group)
    ensures Sizes([a, b]) == Repeat(a.size, a.count) + Repeat(b.size, b.count)
  {
    assert [a, b][..1] == [a];
    SizesOfOne(a);
  }

  lemma SizesOfOne(a: Group)
    ensures Sizes([a]) == Repeat(a.size, a.count)
  {
    assert Sizes([]) == [];
    assert [a][..0] == [];
  }

  lemma {:induction false} TotalRepeat(s: seq<nat>, size: nat, count: nat)
    ensures Total(s + Repeat(size, count)) == Total(s) + count * size
  {
    if count == 0 {
      assert s + Repeat(size, 0) == s;
    } else {
      var front := s + Repeat(size, count - 1);
      TotalRepeat(s, size, count - 1);
      assert s + Repeat(size, count) == front + [size];
      TotalPush(front, size);
      MulStep(count, size);
    }
  }

  /** The blocks of a version add up to its data capacity. */
  lemma BlocksFillCapacity(v: Version)
    ensures Total(Sizes(LayoutOf(v).groups)) == LayoutOf(v).capacity
    ensures |Sizes(LayoutOf(v).groups)| == if v <= 3 then 1 else if v <= 5 then 2 else if v <= 8 then 4 else 5
  {
    var g := LayoutOf(v).groups;
    TotalRepeat([], g[0].size, g[0].count);
    assert [] + Repeat(g[0].size, g[0].count) == Repeat(g[0].size, g[0].count);
    if v >= 8 {
      SizesOfTwo(g[0], g[1]);
      TotalRepeat(Repeat(g[0].size, g[0].count), g[1].size, g[1].count);
    } else {
      SizesOfOne(g[0]);
    }
  }

  /** No codeword bit is left without a module, and fewer than eight modules
      are left without a codeword bit. */
  lemma RoomForCodewords(v: Version)
    ensures Capacity(FreeRegion(v), Size(v)) == RoomFor(TotalWords(v), v)
  {
    CapacityIsModules(v);
    BlocksFillCapacity(v);
    if v <= 5 {
      ModulesLow(v);
    } else if v <= 8 {
      ModulesMiddle(v);
    } else {
      ModulesHigh(v);
    }
  }
}
