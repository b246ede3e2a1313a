/** What ISO/IEC 18004 draws and tabulates, written down apart from the encoder: the mask
    patterns, the finder and alignment patterns, the blocks of each version and the
    widths of the length field. A reader goes by these alone. */
module QrStandard {
  import opened Bits
  import opened GaloisField
  import opened QrCodewords
  import opened QrInterleave
  import opened QrGrid
  import opened QrMask
  import opened QrCapacity
  import QrCodes

  // ---- mask patterns --------------------------------------------------------------

  /** Six modules of a row of the pattern, which goes on the same to the right; below,
      the rows come round again. A hash is a module that is inverted. */
  function MaskRow(mask: nat, r: nat): (row: string)
    ensures |row| == 6
  {
    match mask
    case 0 => if r % 2 == 0 then "#.#.#." else ".#.#.#"
    case 1 => if r % 2 == 0 then "######" else "......"
    case 2 => "#..#.."
    case 3 => if r % 3 == 0 then "#..#.." else if r % 3 == 1 then "..#..#" else ".#..#."
    case 4 => if r % 4 < 2 then "###..." else "...###"
    case 5 =>
      (match r % 6
       case 0 => "######"
       case 1 => "#....."
       case 2 => "#..#.."
       case 3 => "#.#.#."
       case 4 => "#..#.."
       case _ => "#.....")
    case 6 =>
      (match r % 6
       case 0 => "######"
       case 1 => "###..."
       case 2 => "##.##."
       case 3 => "#.#.#."
       case 4 => "#.##.#"
       case _ => "#...##")
    case _ =>
      (match r % 6
       case 0 => "#.#.#."
       case 1 => "...###"
       case 2 => "#...##"
       case 3 => ".#.#.#"
       case 4 => "###..."
       case _ => ".###..")
  }

  predicate Turned(mask: nat, r: nat, c: nat) {
    MaskRow(mask, r)[c % 6] == '#'
  }

  lemma ProductMod(r: nat, c: nat)
    ensures (r * c) % 6 == ((r % 6) * (c % 6)) % 6
  {
    var a, i, b, j := r / 6, r % 6, c / 6, c % 6;
    assert r == 6 * a + i && c == 6 * b + j;
    assert r * c == 6 * (a * c + i * b) + i * j by {
      assert (6 * a + i) * c == 6 * (a * c) + i * c;
      assert i * c == i * (6 * b + j) == 6 * (i * b) + i * j;
    }
    ModSum(a * c + i * b, i * j);
  }

  lemma ModSum(q: nat, x: nat)
    ensures (6 * q + x) % 6 == x % 6
  {
  }

  lemma ModSix(x: nat)
    ensures x % 2 == x % 6 % 2 && x % 3 == x % 6 % 3
  {
  }

  /** The three patterns that go by the product, said of the places in a tile. */
  lemma TileTurned(mask: nat, i: nat, j: nat)
    requires 5 <= mask < 8 && i < 6 && j < 6
    ensures Turned(mask, i, j) <==> Inverts(mask, i, j)
  {
    match i
    case 0 =>
    case 1 =>
    case 2 => TileRow2(mask, j);
    case 3 => TileRow3(mask, j);
    case 4 => TileRow4(mask, j);
    case _ => TileRow5(mask, j);
  }

  lemma TileRow2(mask: nat, j: nat)
    requires 5 <= mask < 8 && j < 6
    ensures Turned(mask, 2, j) <==> Inverts(mask, 2, j)
  {
  }

  lemma TileRow3(mask: nat, j: nat)
    requires 5 <= mask < 8 && j < 6
    ensures Turned(mask, 3, j) <==> Inverts(mask, 3, j)
  {
  }

  lemma TileRow4(mask: nat, j: nat)
    requires 5 <= mask < 8 && j < 6
    ensures Turned(mask, 4, j) <==> Inverts(mask, 4, j)
  {
  }

  lemma TileRow5(mask: nat, j: nat)
    requires 5 <= mask < 8 && j < 6
    ensures Turned(mask, 5, j) <==> Inverts(mask, 5, j)
  {
  }

  /** What the last three masks make of the product and the sum of row and column. */
  predicate ByProduct(mask: nat, p: nat, s: nat) {
    if mask == 5 then p % 2 + p % 3 == 0
    else if mask == 6 then (p % 2 + p % 3) % 2 == 0
    else (s % 2 + p % 3) % 2 == 0
  }

  lemma ByProductMod(mask: nat, p: nat, s: nat)
    ensures ByProduct(mask, p, s) == ByProduct(mask, p % 6, s % 6)
  {
    ModSix(p);
    ModSix(s);
  }

  lemma InvertsByProduct(mask: nat, r: nat, c: nat)
    requires 5 <= mask < 8
    ensures Inverts(mask, r, c) == ByProduct(mask, r * c, r + c)
  {
  }

  lemma SumMod(r: nat, c: nat)
    ensures (r + c) % 6 == (r % 6 + c % 6) % 6
  {
  }

  lemma TileRepeats(mask: nat, r: nat, c: nat)
    requires 5 <= mask < 8
    ensures Inverts(mask, r, c) == Inverts(mask, r % 6, c % 6)
  {
    var i, j := r % 6, c % 6;
    InvertsByProduct(mask, r, c);
    InvertsByProduct(mask, i, j);
    ByProductMod(mask, r * c, r + c);
    ByProductMod(mask, i * j, i + j);
    ProductMod(r, c);
    SumMod(r, c);
  }

  lemma RowRepeats(mask: nat, r: nat)
    requires 5 <= mask < 8
    ensures MaskRow(mask, r) == MaskRow(mask, r % 6)
  {
  }

  lemma HalvesAndThirds(r: nat, c: nat)
    ensures r / 2 % 2 == r % 4 / 2 && c / 3 % 2 == c % 6 / 3 && c % 3 == c % 6 % 3 && c % 2 == c % 6 % 2
  {
    Halves(r);
    Thirds(c);
    ModSix(c);
  }

  lemma Halves(r: nat)
    ensures r / 2 % 2 == r % 4 / 2
  {
  }

  lemma Thirds(c: nat)
    ensures c / 3 % 2 == c % 6 / 3
  {
  }

  lemma EvenSum(a: nat, b: nat)
    ensures (a + b) % 2 == 0 <==> a % 2 == b % 2
  {
  }

  lemma SumOfThirds(r: nat, c: nat)
    ensures (r + c) % 3 == 0 <==> (r % 3 == 0 && c % 3 == 0) || (r % 3 == 1 && c % 3 == 2) || (r % 3 == 2 && c % 3 == 1)
  {
  }

  lemma FirstMasks(mask: nat, r: nat, c: nat)
    requires mask < 3
    ensures Inverts(mask, r, c) <==> Turned(mask, r, c)
  {
    HalvesAndThirds(r, c);
    EvenSum(r, c);
  }

  lemma MaskThree(r: nat, c: nat)
    ensures Inverts(3, r, c) <==> Turned(3, r, c)
  {
    HalvesAndThirds(r, c);
    SumOfThirds(r, c);
  }

  lemma MaskFour(r: nat, c: nat)
    ensures Inverts(4, r, c) <==> Turned(4, r, c)
  {
    HalvesAndThirds(r, c);
    EvenSum(r / 2, c / 3);
  }

  /** The encoder inverts what the pattern of that number shows. */
  lemma MaskAsDrawn(mask: nat, r: nat, c: nat)
    requires mask < 8
    ensures Inverts(mask, r, c) <==> Turned(mask, r, c)
  {
    if mask < 3 {
      FirstMasks(mask, r, c);
    } else if mask == 3 {
      MaskThree(r, c);
    } else if mask == 4 {
      MaskFour(r, c);
    } else {
      TileRepeats(mask, r, c);
      RowRepeats(mask, r);
      TileTurned(mask, r % 6, c % 6);
    }
  }

  // ---- finder and alignment patterns ------------------------------------------------

  /** The finder pattern with its separator all round. */
  function FinderRow(i: nat): (row: string)
    ensures |row| == 9
  {
    match i
    case 1 => ".#######."
    case 2 => ".#.....#."
    case 3 => ".#.###.#."
    case 4 => ".#.###.#."
    case 5 => ".#.###.#."
    case 6 => ".#.....#."
    case 7 => ".#######."
    case _ => "........."
  }

  lemma FinderAsDrawn(i: nat, j: nat)
    requires i < 9 && j < 9
    ensures FinderModule(i - 4, j - 4) == if FinderRow(i)[j] == '#' then 1 else 0
  {
  }

  function AlignmentRow(i: nat): (row: string)
    ensures |row| == 5
  {
    match i
    case 1 => "#...#"
    case 2 => "#.#.#"
    case 3 => "#...#"
    case _ => "#####"
  }

  lemma AlignmentAsDrawn(i: nat, j: nat)
    requires i < 5 && j < 5
    ensures AlignModule(i - 2, j - 2) == if AlignmentRow(i)[j] == '#' then 1 else 0
  {
  }

  // ---- blocks and lengths ------------------------------------------------------------

  /** Data codewords block by block, at level M. */
  function BlockSizes(v: Version): seq<nat> {
    match v
    case 1 => [16]
    case 2 => [28]
    case 3 => [44]
    case 4 => [32, 32]
    case 5 => [43, 43]
    case 6 => [27, 27, 27, 27]
    case 7 => [31, 31, 31, 31]
    case 8 => [38, 38, 39, 39]
    case 9 => [36, 36, 36, 37, 37]
    case 10 => [43, 43, 43, 43, 44]
  }

  /** Error-correction codewords of each block. */
  function CheckWords(v: Version): nat {
    match v
    case 1 => 10
    case 2 => 16
    case 3 => 26
    case 4 => 18
    case 5 => 24
    case 6 => 16
    case 7 => 18
    case 8 => 22
    case 9 => 22
    case 10 => 26
  }

  /** All codewords of a symbol. */
  function SymbolWords(v: Version): nat {
    match v
    case 1 => 26
    case 2 => 44
    case 3 => 70
    case 4 => 100
    case 5 => 134
    case 6 => 172
    case 7 => 196
    case 8 => 242
    case 9 => 292
    case 10 => 346
  }

  lemma SizesOfOne(g: Group)
    ensures Sizes([g]) == Repeat(g.size, g.count)
  {
    assert [g][..0] == [];
    assert Sizes([]) == [];
  }

  lemma SizesOfTwo(g: Group, h: Group)
    ensures Sizes([g, h]) == Repeat(g.size, g.count) + Repeat(h.size, h.count)
  {
    assert [g, h][..1] == [g];
    SizesOfOne(g);
  }

  lemma RepeatOne(size: nat)
    ensures Repeat(size, 1) == [size] && Repeat(size, 2) == [size, size]
    ensures Repeat(size, 3) == [size, size, size] && Repeat(size, 4) == [size, size, size, size]
  {
    assert Repeat(size, 0) == [];
    assert Repeat(size, 1) == [] + [size];
    assert Repeat(size, 2) == [size] + [size];
    assert Repeat(size, 3) == [size, size] + [size];
    assert Repeat(size, 4) == [size, size, size] + [size];
  }

  /** The encoder's blocks are the standard's. */
  lemma BlocksAsTabulated(v: Version)
    ensures Sizes(LayoutOf(v).groups) == BlockSizes(v) && LayoutOf(v).ec == CheckWords(v)
    ensures TotalWords(v) == SymbolWords(v)
  {
    if v < 8 {
      EqualBlocks(v);
    } else {
      UnequalBlocks(v);
    }
    CapacityAsTabulated(v);
  }

  lemma EqualBlocks(v: Version)
    requires v < 8
    ensures Sizes(LayoutOf(v).groups) == BlockSizes(v)
  {
    var g := LayoutOf(v).groups[0];
    assert LayoutOf(v).groups == [g];
    RepeatOne(g.size);
    SizesOfOne(g);
  }

  lemma UnequalBlocks(v: Version)
    requires v >= 8
    ensures Sizes(LayoutOf(v).groups) == BlockSizes(v)
  {
    var g, h := LayoutOf(v).groups[0], LayoutOf(v).groups[1];
    assert LayoutOf(v).groups == [g, h];
    RepeatOne(g.size);
    RepeatOne(h.size);
    SizesOfTwo(g, h);
  }

  lemma CapacityAsTabulated(v: Version)
    requires Sizes(LayoutOf(v).groups) == BlockSizes(v)
    ensures LayoutOf(v).ec == CheckWords(v) && TotalWords(v) == SymbolWords(v)
  {
  }

  // ---- code words --------------------------------------------------------------------

  /** The field's defining relation: alpha^8 = alpha^4 + alpha^3 + alpha^2 + 1. */
  lemma FieldAsDefined()
    ensures Alpha(1) == 2 && Alpha(8) == 29
  {
    DoubledFourTimes();
    ShiftAdd(4, 4, 1);
    ReducedOnce();
    assert Shift(3, 16) == 128;
  }

  lemma DoubledFourTimes()
    ensures Alpha(1) == 2 && Alpha(4) == 16
  {
  }

  lemma ReducedOnce()
    ensures Xtime(128) == 29
  {
  }

  /** The generators of the two codes, and what the format bits are masked with:
      x^10 + x^8 + x^5 + x^4 + x^2 + x + 1, x^12 + x^11 + x^10 + x^9 + x^8 + x^5 + x^2 + 1
      and 101010000010010. */
  lemma CodesAsDefined()
    ensures QrCodes.FORMAT_GENERATOR == 1024 + 256 + 32 + 16 + 4 + 2 + 1
    ensures QrCodes.VERSION_GENERATOR == 4096 + 2048 + 1024 + 512 + 256 + 32 + 4 + 1
    ensures QrCodes.FORMAT_MASK == 16384 + 4096 + 1024 + 16 + 2
  {
  }

  /** Behind the terminator stand 11101100 and 00010001 by turns. */
  lemma PadsAsDefined(data: seq<Byte>, v: Version, words: seq<Byte>, k: nat)
    requires Fits(|data|, v) && IsCodewordsOf(words, data, v) && |data| + Overhead(v) <= k < |words|
    ensures words[k] == if (k - |data| - Overhead(v)) % 2 == 0 then 128 + 64 + 32 + 8 + 4 else 16 + 1
  {
  }
}
