/** A reader for the symbols the encoder makes, written from the standard's drawings and
    tables: mask from the format bits, unmask, walk, de-interleave, parse. */
module QrDecoder {
  import opened Options
  import opened Bits
  import opened QrCodewords
  import opened QrInterleave
  import opened QrGrid
  import opened QrPlacement
  import opened QrMask
  import opened QrCapacity
  import opened QrStandard
  import QrCodes
  import QrPenalty

  /** The module a finished symbol shows. */
  function SymbolModule(v: Version, bits: seq<Bit>, mask: nat, r: int, c: int): int {
    var n := Size(v);
    var k := FormatIndex(n, r, c);
    if 0 <= k < 15 then FormatModule(mask, k)
    else if Reserved(v, r, c) then Fixed(v, r, c)
    else if 0 <= r < n && 0 <= c < n && c != 6 then Masked(v, bits, MaskRegion(mask), r, c)
    else 0
  }

  function MaskRegion(mask: nat): Region {
    (r, c) => Inverts(mask, r, c)
  }

  function Masked(v: Version, bits: seq<Bit>, inverts: Region, r: int, c: int): int
    requires 0 <= r < Size(v) && 0 <= c < Size(v) && c != 6
  {
    var x := BitOrZero(bits, Rank(FreeRegion(v), Size(v), r, c));
    if inverts(r, c) then Flip(x) else x
  }

  function Symbol(v: Version, bits: seq<Bit>, mask: nat): QrPenalty.Shown {
    (r, c) => SymbolModule(v, bits, mask, r, c)
  }

  // ---- the reader ---------------------------------------------------------------

  function At(rows: seq<seq<int>>, r: int, c: int): int {
    if 0 <= r < |rows| && 0 <= c < |rows[r]| then rows[r][c] else 0
  }

  /** Five bits: the error-correction level and the mask, still masked. */
  function ReadFormat(rows: seq<seq<int>>): int {
    16 * At(rows, 8, 0) + 8 * At(rows, 8, 1) + 4 * At(rows, 8, 2) + 2 * At(rows, 8, 3) + At(rows, 8, 4)
  }

  function Unmasked(rows: seq<seq<int>>, inverts: Region): (int, int) -> int {
    (r, c) => if inverts(r, c) then Flip(At(rows, r, c)) else At(rows, r, c)
  }

  /** The pattern drawn for the mask. */
  function PatternRegion(mask: nat): Region {
    (r, c) => r >= 0 && c >= 0 && Turned(mask, r, c)
  }

  function AsBits(got: seq<int>): (bits: seq<Bit>)
    ensures |bits| == |got|
  {
    seq(|got|, i requires 0 <= i < |got| => got[i] % 2)
  }

  function DecodeBits(bits: seq<Bit>, total: nat, sizes: seq<nat>, v: Version): Option<seq<Byte>> {
    if |bits| < 8 * total then None
    else ParseByteMode(Deinterleave(Words(bits, total), sizes), v)
  }

  function ReadSymbol(rows: seq<seq<int>>, v: Version, mask: nat): seq<int> {
    ReadBits(Unmasked(rows, PatternRegion(mask)), FreeRegion(v), Size(v), (Size(v) - 1) / 2, 0)
  }

  function DecodeMasked(rows: seq<seq<int>>, v: Version, mask: nat): Option<seq<Byte>> {
    if mask >= 8 then None
    else DecodeBits(AsBits(ReadSymbol(rows, v, mask)), SymbolWords(v), BlockSizes(v), v)
  }

  function VersionOf(n: nat): Option<Version> {
    if 21 <= n <= 57 && n % 4 == 1 then Some((n - 17) / 4) else None
  }

  function Decode(rows: seq<seq<int>>): Option<seq<Byte>> {
    var version := VersionOf(|rows|);
    var format := ReadFormat(rows);
    if version.None? || format < 0 then None
    else DecodeMasked(rows, version.value, Xor(format, 21))
  }

  // ---- it reads every symbol back -----------------------------------------------

  lemma BitBelow(x: nat, k: nat)
    ensures QrCodes.BitAt(x, k) == x / Pow2(k) - 2 * (x / Pow2(k + 1))
  {
    DivideTwice(x, Pow2(k));
  }

  /** Bits 14 to 10 of a fifteen-bit number are its top five. */
  lemma TopFive(x: nat)
    requires x < 32768
    ensures 16 * QrCodes.BitAt(x, 14) + 8 * QrCodes.BitAt(x, 13) + 4 * QrCodes.BitAt(x, 12)
          + 2 * QrCodes.BitAt(x, 11) + QrCodes.BitAt(x, 10) == x / 1024
  {
    QrCodes.PowersOfTwo();
    BitBelow(x, 14);
    BitBelow(x, 13);
    BitBelow(x, 12);
    BitBelow(x, 11);
    BitBelow(x, 10);
  }

  lemma FormatValue(mask: nat)
    requires mask < 8
    ensures FormatModule(mask, 0) * 16 + FormatModule(mask, 1) * 8 + FormatModule(mask, 2) * 4
          + FormatModule(mask, 3) * 2 + FormatModule(mask, 4) == Xor(mask, 21)
  {
    QrCodes.FormatCodeword(mask);
    assert Pow2(4) == 16;
    XorTop(mask, 21, 4);
    TopFive(QrCodes.FormatCode(mask));
  }

  lemma FormatReads(rows: seq<seq<int>>, v: Version, bits: seq<Bit>, mask: nat)
    requires mask < 8 && QrPenalty.RowsShow(rows, Size(v), Symbol(v, bits, mask))
    ensures ReadFormat(rows) == Xor(mask, 21)
  {
    FormatValue(mask);
  }

  lemma FreeModule(v: Version, bits: seq<Bit>, mask: nat, r: int, c: int)
    requires 0 <= r < Size(v) && 0 <= c < Size(v) && c != 6 && !Reserved(v, r, c)
    ensures SymbolModule(v, bits, mask, r, c) == Masked(v, bits, MaskRegion(mask), r, c)
  {
    if FormatIndex(Size(v), r, c) >= 0 {
      FormatReserved(v, r, c);
    }
  }

  /** The data bit of a free module, or zero when the bits have run out. */
  function PlacedBit(v: Version, bits: seq<Bit>, r: int, c: int): int
    requires 0 <= r < Size(v) && 0 <= c < Size(v) && c != 6
  {
    BitOrZero(bits, Rank(FreeRegion(v), Size(v), r, c))
  }

  function TurnedBit(turned: bool, bit: int): int {
    if turned then 1 - bit else bit
  }

  lemma FlipIsTurn(bits: seq<Bit>, i: nat, turned: bool)
    ensures var x := BitOrZero(bits, i); 0 <= x <= 1 && (if turned then Flip(x) else x) == TurnedBit(turned, x)
  {
  }

  /** A free module shows its data bit, turned over exactly where the pattern drawn for
      the mask has a dark module. */
  lemma ModuleTurned(v: Version, bits: seq<Bit>, mask: nat, r: int, c: int)
    requires mask < 8 && 0 <= r < Size(v) && 0 <= c < Size(v) && c != 6 && !Reserved(v, r, c)
    ensures SymbolModule(v, bits, mask, r, c) == TurnedBit(Turned(mask, r, c), PlacedBit(v, bits, r, c))
  {
    FreeModule(v, bits, mask, r, c);
    RegionDrawn(mask, r, c);
    MaskedTurned(v, bits, MaskRegion(mask), r, c, Turned(mask, r, c));
  }

  lemma RegionDrawn(mask: nat, r: nat, c: nat)
    requires mask < 8
    ensures MaskRegion(mask)(r, c) == Turned(mask, r, c)
  {
    MaskAsDrawn(mask, r, c);
  }

  lemma MaskedTurned(v: Version, bits: seq<Bit>, inverts: Region, r: int, c: int, turned: bool)
    requires 0 <= r < Size(v) && 0 <= c < Size(v) && c != 6 && inverts(r, c) == turned
    ensures Masked(v, bits, inverts, r, c) == TurnedBit(turned, PlacedBit(v, bits, r, c))
  {
    FlipIsTurn(bits, Rank(FreeRegion(v), Size(v), r, c), turned);
  }

  lemma UnmaskedModule(rows: seq<seq<int>>, mask: nat, bits: seq<Bit>, i: nat, r: nat, c: nat)
    requires At(rows, r, c) == TurnedBit(Turned(mask, r, c), BitOrZero(bits, i))
    ensures Unmasked(rows, PatternRegion(mask))(r, c) == BitOrZero(bits, i)
  {
    FlipIsTurn(bits, i, Turned(mask, r, c));
    assert PatternRegion(mask)(r, c) == Turned(mask, r, c);
    assert Unmasked(rows, PatternRegion(mask))(r, c)
      == if PatternRegion(mask)(r, c) then Flip(At(rows, r, c)) else At(rows, r, c);
  }

  lemma UnmaskedShows(rows: seq<seq<int>>, v: Version, bits: seq<Bit>, mask: nat)
    requires mask < 8 && QrPenalty.RowsShow(rows, Size(v), Symbol(v, bits, mask))
    ensures ShowsBits(Unmasked(rows, PatternRegion(mask)), FreeRegion(v), Size(v), bits)
  {
    var n := Size(v);
    forall r, c | 0 <= r < n && 0 <= c < n && c != 6 && FreeRegion(v)(r, c)
      ensures Unmasked(rows, PatternRegion(mask))(r, c) == BitOrZero(bits, Rank(FreeRegion(v), n, r, c))
    {
      ModuleTurned(v, bits, mask, r, c);
      RowShows(rows, v, bits, mask, r, c);
      UnmaskedModule(rows, mask, bits, Rank(FreeRegion(v), n, r, c), r, c);
    }
  }

  lemma RowShows(rows: seq<seq<int>>, v: Version, bits: seq<Bit>, mask: nat, r: int, c: int)
    requires QrPenalty.RowsShow(rows, Size(v), Symbol(v, bits, mask)) && 0 <= r < Size(v) && 0 <= c < Size(v)
    ensures At(rows, r, c) == SymbolModule(v, bits, mask, r, c)
  {
    assert rows[r][c] == Symbol(v, bits, mask)(r, c);
  }

  lemma BitsPrefix(got: seq<int>, bits: seq<Bit>, m: nat)
    requires PaddedTo(got, bits, m) && |bits| <= m
    ensures bits <= AsBits(got)
  {
    forall i | 0 <= i < |bits|
      ensures AsBits(got)[i] == bits[i]
    {
    }
  }

  /** Walking an unmasked symbol meets all the codeword bits. */
  lemma SymbolBits(rows: seq<seq<int>>, v: Version, bits: seq<Bit>, mask: nat)
    requires mask < 8 && |bits| == 8 * TotalWords(v)
    requires QrPenalty.RowsShow(rows, Size(v), Symbol(v, bits, mask))
    ensures bits <= AsBits(ReadSymbol(rows, v, mask))
  {
    UnmaskedShows(rows, v, bits, mask);
    ReadBack(Unmasked(rows, PatternRegion(mask)), FreeRegion(v), Size(v), bits, (Size(v) - 1) / 2, 0);
    RoomForCodewords(v);
    BitsPrefix(ReadSymbol(rows, v, mask), bits, Capacity(FreeRegion(v), Size(v)));
  }

  /** The codewords go in, the data comes out. */
  lemma DecodeBitsReads(bits: seq<Bit>, v: Version, layout: Layout, codewords: seq<Byte>, words: seq<Byte>)
    requires Flatten(codewords) <= bits
    requires Total(Sizes(layout.groups)) == |words|
    requires Interleaved(codewords, words, layout)
    ensures DecodeBits(bits, |codewords|, Sizes(layout.groups), v) == ParseByteMode(words, v)
  {
    WordsFlatten(codewords, bits, |codewords|);
    assert codewords[..|codewords|] == codewords;
    InterleavedReads(codewords, words, layout);
  }

  lemma VersionOfSize(v: Version)
    ensures VersionOf(Size(v)) == Some(v)
  {
  }

  lemma DecodeSteps(rows: seq<seq<int>>, v: Version, mask: nat, format: nat)
    requires |rows| == Size(v) && ReadFormat(rows) == format && Xor(format, 21) == mask
    ensures Decode(rows) == DecodeMasked(rows, v, mask)
  {
    VersionOfSize(v);
  }

  /** Whatever the version, the data and the mask: the reader recovers what the
      codewords say. */
  lemma SymbolReads(rows: seq<seq<int>>, v: Version, codewords: seq<Byte>, words: seq<Byte>, mask: nat)
    requires mask < 8 && |codewords| == TotalWords(v)
    requires Total(Sizes(LayoutOf(v).groups)) == |words|
    requires Interleaved(codewords, words, LayoutOf(v))
    requires QrPenalty.RowsShow(rows, Size(v), Symbol(v, Flatten(codewords), mask))
    ensures Decode(rows) == ParseByteMode(words, v)
  {
    var bits := Flatten(codewords);
    FormatReads(rows, v, bits, mask);
    XorCancel(mask, 21);
    DecodeSteps(rows, v, mask, Xor(mask, 21));
    SymbolBits(rows, v, bits, mask);
    BlocksAsTabulated(v);
    DecodeBitsReads(AsBits(ReadSymbol(rows, v, mask)), v, LayoutOf(v), codewords, words);
  }
}
