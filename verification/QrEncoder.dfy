/** encode: a byte string becomes a matrix of modules. */
module QrEncoder {
  import opened Options
  import opened Bits
  import opened GaloisField
  import opened QrCodewords
  import opened QrInterleave
  import opened QrGrid
  import opened QrPlacement
  import opened QrMask
  import opened QrCapacity
  import opened QrDecoder
  import opened QrStandard
  import QrPenalty

  /** The data modules are in place, still unmasked; the rest is fixed. */
  ghost predicate IsBase(grid: array2<int>, used: array2<bool>, v: Version, bits: seq<Bit>)
    reads grid, used
  {
    var n := Size(v);
    && Square(grid, used, n)
    && forall r, c :: 0 <= r < n && 0 <= c < n ==>
      && used[r, c] == Reserved(v, r, c)
      && grid[r, c] == if Reserved(v, r, c) then Fixed(v, r, c) else DataBit(v, bits, r, c)
  }

  function DataBit(v: Version, bits: seq<Bit>, r: int, c: int): int
    requires 0 <= r < Size(v) && 0 <= c < Size(v)
  {
    if c == 6 then 0 else BitOrZero(bits, Rank(FreeRegion(v), Size(v), r, c))
  }

  lemma TimingColumnReserved(v: Version, r: int)
    requires 0 <= r < Size(v)
    ensures Reserved(v, r, 6)
  {
    ReservedIsTaken(v, r, 6);
  }

  method MakeBase(v: Version, codewords: seq<Byte>) returns (grid: array2<int>, used: array2<bool>)
    ensures fresh(grid) && fresh(used) && IsBase(grid, used, v, Flatten(codewords))
  {
    var n := Size(v);
    grid, used := MakeGrid(v);
    Place(grid, used, n, FreeRegion(v), codewords);
    forall r | 0 <= r < n
      ensures Reserved(v, r, 6)
    {
      TimingColumnReserved(v, r);
    }
  }

  /** Masking and format bits over the base give the finished symbol. */
  lemma SymbolOverBase(v: Version, bits: seq<Bit>, mask: nat, r: int, c: int)
    requires 0 <= r < Size(v) && 0 <= c < Size(v)
    ensures var k := FormatIndex(Size(v), r, c);
      var base := if Reserved(v, r, c) then Fixed(v, r, c) else DataBit(v, bits, r, c);
      SymbolModule(v, bits, mask, r, c)
      == if 0 <= k < 15 then FormatModule(mask, k)
         else if !Reserved(v, r, c) && MaskRegion(mask)(r, c) then Flip(base)
         else base
  {
    if c == 6 {
      TimingColumnReserved(v, r);
    }
  }

  method ToRows(grid: array2<int>, n: nat, ghost g: QrPenalty.Shown) returns (rows: seq<seq<int>>)
    requires grid.Length0 == grid.Length1 == n
    requires forall r, c :: 0 <= r < n && 0 <= c < n ==> grid[r, c] == g(r, c)
    ensures QrPenalty.RowsShow(rows, n, g)
  {
    rows := [];
    for r := 0 to n
      invariant |rows| == r && forall i :: 0 <= i < r ==> |rows[i]| == n
      invariant forall i, j :: 0 <= i < r && 0 <= j < n ==> rows[i][j] == g(i, j)
    {
      var row: seq<int> := [];
      for c := 0 to n
        invariant |row| == c && forall j :: 0 <= j < c ==> row[j] == g(r, j)
      {
        row := row + [grid[r, c]];
      }
      rows := rows + [row];
    }
  }

  method MakeSymbol(base: array2<int>, used: array2<bool>, v: Version, ghost bits: seq<Bit>, mask: nat)
    returns (rows: seq<seq<int>>)
    requires IsBase(base, used, v, bits)
    ensures QrPenalty.RowsShow(rows, Size(v), Symbol(v, bits, mask))
  {
    var n := Size(v);
    var grid := MaskedCopy(base, used, n, MaskRegion(mask));
    WriteFormat(grid, n, mask);
    forall r, c | 0 <= r < n && 0 <= c < n
      ensures grid[r, c] == Symbol(v, bits, mask)(r, c)
    {
      SymbolOverBase(v, bits, mask, r, c);
    }
    rows := ToRows(grid, n, Symbol(v, bits, mask));
  }

  // ---- choosing the mask --------------------------------------------------------

  function Score(v: Version, bits: seq<Bit>, mask: nat): int {
    QrPenalty.PenaltyOf(Symbol(v, bits, mask), Size(v))
  }

  /** The first of the eight masks that no other scores below. */
  ghost predicate BestMask(v: Version, bits: seq<Bit>, mask: nat) {
    && mask < 8
    && (forall m :: 0 <= m < 8 ==> Score(v, bits, mask) <= Score(v, bits, m))
    && (forall m :: 0 <= m < mask ==> Score(v, bits, mask) < Score(v, bits, m))
  }

  /** The scores of the first masks, in order. */
  ghost predicate Tallied(v: Version, bits: seq<Bit>, tally: seq<int>)
    decreases |tally|
  {
    |tally| == 0 ||
    var k := |tally| - 1;
    tally[k] == Score(v, bits, k) && Tallied(v, bits, tally[..k])
  }

  lemma {:induction false} TalliedAt(v: Version, bits: seq<Bit>, tally: seq<int>, k: nat)
    requires Tallied(v, bits, tally) && k < |tally|
    ensures tally[k] == Score(v, bits, k)
    decreases |tally|
  {
    if k < |tally| - 1 {
      TalliedAt(v, bits, tally[..|tally| - 1], k);
    }
  }

  method MakeScored(base: array2<int>, used: array2<bool>, v: Version, ghost bits: seq<Bit>, ghost tally: seq<int>,
          mask: nat)
    returns (rows: seq<seq<int>>, score: int, ghost g: QrPenalty.Shown)
    requires IsBase(base, used, v, bits) && Tallied(v, bits, tally) && mask == |tally|
    ensures QrPenalty.RowsShow(rows, Size(v), g) && g == Symbol(v, bits, mask)
    ensures Tallied(v, bits, tally + [score])
  {
    g := Symbol(v, bits, mask);
    rows := MakeSymbol(base, used, v, bits, mask);
    score := QrPenalty.Penalty(rows, Size(v), Symbol(v, bits, mask));
    TallyPush(v, bits, tally, score);
  }

  lemma TallyPush(v: Version, bits: seq<Bit>, tally: seq<int>, score: int)
    requires Tallied(v, bits, tally) && score == Score(v, bits, |tally|)
    ensures Tallied(v, bits, tally + [score])
  {
    assert (tally + [score])[..|tally|] == tally;
  }

  lemma BestOfTally(v: Version, bits: seq<Bit>, tally: seq<int>, mask: nat)
    requires Tallied(v, bits, tally) && |tally| == 8 && mask < 8
    requires forall k :: 0 <= k < 8 ==> tally[mask] <= tally[k]
    requires forall k :: 0 <= k < mask ==> tally[mask] < tally[k]
    ensures BestMask(v, bits, mask)
  {
    forall m | 0 <= m < 8
      ensures Score(v, bits, m) == tally[m]
    {
      TalliedAt(v, bits, tally, m);
    }
  }

  method ChooseMask(base: array2<int>, used: array2<bool>, v: Version, ghost bits: seq<Bit>)
    returns (best: seq<seq<int>>, ghost mask: nat)
    requires IsBase(base, used, v, bits)
    ensures BestMask(v, bits, mask)
    ensures QrPenalty.RowsShow(best, Size(v), Symbol(v, bits, mask))
  {
    var score;
    ghost var shown;
    best, score, shown := MakeScored(base, used, v, bits, [], 0);
    mask := 0;
    ghost var tally := [] + [score];
    for m := 1 to 8
      invariant mask < m == |tally| && Tallied(v, bits, tally)
      invariant QrPenalty.RowsShow(best, Size(v), shown) && shown == Symbol(v, bits, mask)
      invariant score == tally[mask]
      invariant forall k :: 0 <= k < m ==> score <= tally[k]
      invariant forall k :: 0 <= k < mask ==> score < tally[k]
    {
      var rows, s, g := MakeScored(base, used, v, bits, tally, m);
      tally := tally + [s];
      if s < score {
        best, score, shown, mask := rows, s, g, m;
      }
    }
    BestOfTally(v, bits, tally, mask);
  }

  // ---- encode -------------------------------------------------------------------

  /** The matrix of this version, codewords and mask, from the data up. */
  ghost predicate IsSymbol(rows: seq<seq<int>>, data: seq<Byte>, v: Version, words: seq<Byte>, codewords: seq<Byte>,
          mask: nat)
  {
    && Fits(|data|, v) && (forall u: Version :: u < v ==> !Fits(|data|, u))
    && IsCodewordsOf(words, data, v) && |words| == Total(Sizes(LayoutOf(v).groups))
    && Interleaved(codewords, words, LayoutOf(v))
    && BestMask(v, Flatten(codewords), mask)
    && QrPenalty.RowsShow(rows, Size(v), Symbol(v, Flatten(codewords), mask))
  }

  /** Smallest version, blocks protected, best mask, every module as the layout
      says. */
  ghost predicate IsSymbolOf(rows: seq<seq<int>>, data: seq<Byte>) {
    exists v: Version, words, codewords, mask :: IsSymbol(rows, data, v, words, codewords, mask)
  }

  lemma SymbolDecodes(rows: seq<seq<int>>, data: seq<Byte>)
    requires IsSymbolOf(rows, data)
    ensures Decode(rows) == Some(data)
  {
    var v: Version, words, codewords, mask :| IsSymbol(rows, data, v, words, codewords, mask);
    CodewordsParse(data, v, words);
    InterleavedLength(codewords, words, LayoutOf(v));
    BlocksFillCapacity(v);
    SymbolReads(rows, v, codewords, words, mask);
  }

  /** Every free module shows its data bit, turned over exactly where the standard draws
      this mask. */
  ghost predicate MaskedBy(rows: seq<seq<int>>, v: Version, bits: seq<Bit>, mask: nat) {
    forall r, c :: 0 <= r < Size(v) && 0 <= c < Size(v) && c != 6 && !Reserved(v, r, c) ==>
      At(rows, r, c) == TurnedBit(Turned(mask, r, c), PlacedBit(v, bits, r, c))
  }

  /** The mask that the format bits announce is the one that was used. */
  lemma AnnouncedMask(rows: seq<seq<int>>, data: seq<Byte>, v: Version, words: seq<Byte>, codewords: seq<Byte>,
          mask: nat)
    requires IsSymbol(rows, data, v, words, codewords, mask)
    ensures ReadFormat(rows) == Xor(mask, 21) && MaskedBy(rows, v, Flatten(codewords), mask)
  {
    var bits := Flatten(codewords);
    FormatReads(rows, v, bits, mask);
    forall r, c | 0 <= r < Size(v) && 0 <= c < Size(v) && c != 6 && !Reserved(v, r, c)
      ensures At(rows, r, c) == TurnedBit(Turned(mask, r, c), PlacedBit(v, bits, r, c))
    {
      ModuleTurned(v, bits, mask, r, c);
      RowShows(rows, v, bits, mask, r, c);
    }
  }

  lemma SmallestVersionUnique(n: nat, u: Version, v: Version)
    requires Fits(n, u) && (forall w: Version :: w < u ==> !Fits(n, w))
    requires Fits(n, v) && (forall w: Version :: w < v ==> !Fits(n, w))
    ensures u == v
  {
  }

  lemma BestMaskUnique(v: Version, bits: seq<Bit>, a: nat, b: nat)
    requires BestMask(v, bits, a) && BestMask(v, bits, b)
    ensures a == b
  {
    var sa, sb := Score(v, bits, a), Score(v, bits, b);
    assert a < b ==> sb < sa;
    assert b < a ==> sa < sb;
    assert sa <= sb <= sa;
  }

  lemma EcBounded(v: Version)
    ensures LayoutOf(v).ec <= 255
  {
  }

  lemma SameStream(ca: seq<Byte>, wa: seq<Byte>, cb: seq<Byte>, wb: seq<Byte>, layout: Layout)
    requires wa == wb && |wa| == Total(Sizes(layout.groups)) && layout.ec <= 255
    requires Interleaved(ca, wa, layout) && Interleaved(cb, wb, layout)
    ensures ca == cb
  {
    InterleavedUnique(ca, cb, wa, layout);
  }

  lemma SameMatrix(a: seq<seq<int>>, b: seq<seq<int>>, v: Version, bits: seq<Bit>, ma: nat, mb: nat)
    requires BestMask(v, bits, ma) && QrPenalty.RowsShow(a, Size(v), Symbol(v, bits, ma))
    requires BestMask(v, bits, mb) && QrPenalty.RowsShow(b, Size(v), Symbol(v, bits, mb))
    ensures a == b
  {
    BestMaskUnique(v, bits, ma, mb);
    SameRows(a, b, Size(v), Symbol(v, bits, ma));
  }

  /** The data determines the matrix, module by module. */
  lemma SymbolUnique(a: seq<seq<int>>, b: seq<seq<int>>, data: seq<Byte>)
    requires IsSymbolOf(a, data) && IsSymbolOf(b, data)
    ensures a == b
  {
    var u: Version, wa, ca, ma :| IsSymbol(a, data, u, wa, ca, ma);
    var v: Version, wb, cb, mb :| IsSymbol(b, data, v, wb, cb, mb);
    SmallestVersionUnique(|data|, u, v);
    CodewordsUnique(wa, wb, data, v);
    EcBounded(v);
    SameStream(ca, wa, cb, wb, LayoutOf(v));
    SameMatrix(a, b, v, Flatten(ca), ma, mb);
  }

  lemma SameRows(a: seq<seq<int>>, b: seq<seq<int>>, n: nat, g: QrPenalty.Shown)
    requires QrPenalty.RowsShow(a, n, g) && QrPenalty.RowsShow(b, n, g)
    ensures a == b
  {
    forall r | 0 <= r < n
      ensures a[r] == b[r]
    {
    }
  }

  /** The matrix for a byte string of up to 213 bytes; longer ones are refused. */
  method Encode(t: Tables, data: seq<Byte>) returns (r: Option<seq<seq<int>>>)
    requires t.Valid()
    ensures r.Some? <==> |data| <= 213
    ensures r.Some? ==> IsSymbolOf(r.value, data) && Decode(r.value) == Some(data)
  {
    var version := ChooseVersion(|data|);
    if version.None? {
      return None;
    }
    var v := version.value;
    var words := BitsToCodewords(data, v);
    BlocksFillCapacity(v);
    var codewords := Interleave(t, words, LayoutOf(v));
    var base, used := MakeBase(v, codewords);
    var best, mask := ChooseMask(base, used, v, Flatten(codewords));
    assert IsSymbol(best, data, v, words, codewords, mask);
    SymbolDecodes(best, data);
    r := Some(best);
  }
}
