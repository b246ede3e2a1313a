/** Block interleaving: the data codewords are cut into blocks, each block gets
    its error-correction codewords, and both are written out column by column. */
module QrInterleave {
  import opened Bits
  import opened GaloisField
  import opened ReedSolomon
  import opened QrCodewords

  // ---- cutting into blocks --------------------------------------------------

  function Repeat(size: nat, count: nat): (s: seq<nat>)
    ensures |s| == count
  {
    if count == 0 then [] else Repeat(size, count - 1) + [size]
  }

  function Sizes(groups: seq<Group>): seq<nat> {
    if |groups| == 0 then []
    else
      var g := groups[|groups| - 1];
      Sizes(groups[..|groups| - 1]) + Repeat(g.size, g.count)
  }

  function Total(sizes: seq<nat>): nat {
    if |sizes| == 0 then 0 else Total(sizes[..|sizes| - 1]) + sizes[|sizes| - 1]
  }

  function Split(words: seq<Byte>, sizes: seq<nat>): (blocks: seq<seq<Byte>>)
    requires |words| == Total(sizes)
    ensures |blocks| == |sizes|
    decreases |sizes|
  {
    if |sizes| == 0 then []
    else
      var n := |words| - sizes[|sizes| - 1];
      Split(words[..n], sizes[..|sizes| - 1]) + [words[n..]]
  }

  function Join(blocks: seq<seq<Byte>>): seq<Byte> {
    if |blocks| == 0 then [] else Join(blocks[..|blocks| - 1]) + blocks[|blocks| - 1]
  }

  lemma {:induction false} SplitSizes(words: seq<Byte>, sizes: seq<nat>, b: nat)
    requires |words| == Total(sizes) && b < |sizes|
    ensures |Split(words, sizes)[b]| == sizes[b]
    decreases |sizes|
  {
    var n := |words| - sizes[|sizes| - 1];
    if b < |sizes| - 1 {
      SplitSizes(words[..n], sizes[..|sizes| - 1], b);
    }
  }

  lemma {:induction false} JoinSplit(words: seq<Byte>, sizes: seq<nat>)
    requires |words| == Total(sizes)
    ensures Join(Split(words, sizes)) == words
    decreases |sizes|
  {
    if |sizes| > 0 {
      var n := |words| - sizes[|sizes| - 1];
      JoinSplit(words[..n], sizes[..|sizes| - 1]);
      var front := Split(words[..n], sizes[..|sizes| - 1]);
      assert (front + [words[n..]])[..|front|] == front;
    }
  }

  lemma TotalPush(sizes: seq<nat>, size: nat)
    ensures Total(sizes + [size]) == Total(sizes) + size
  {
    assert (sizes + [size])[..|sizes|] == sizes;
  }

  lemma SplitPush(words: seq<Byte>, sizes: seq<nat>, block: seq<Byte>)
    requires |words| == Total(sizes)
    ensures Total(sizes + [|block|]) == |words + block|
    ensures Split(words + block, sizes + [|block|]) == Split(words, sizes) + [block]
  {
    TotalPush(sizes, |block|);
    assert (sizes + [|block|])[..|sizes|] == sizes;
    assert (words + block)[..|words|] == words;
    assert (words + block)[|words|..] == block;
  }

  // ---- column by column -----------------------------------------------------

  function Column(blocks: seq<seq<Byte>>, i: nat): seq<Byte> {
    if |blocks| == 0 then []
    else
      var last := blocks[|blocks| - 1];
      Column(blocks[..|blocks| - 1], i) + if i < |last| then [last[i]] else []
  }

  function Columns(blocks: seq<seq<Byte>>, n: nat): seq<Byte> {
    if n == 0 then [] else Columns(blocks, n - 1) + Column(blocks, n - 1)
  }

  /** How many of the blocks reach down to row i. */
  function Width(sizes: seq<nat>, i: nat): nat {
    if |sizes| == 0 then 0
    else Width(sizes[..|sizes| - 1], i) + if i < sizes[|sizes| - 1] then 1 else 0
  }

  function RowStart(sizes: seq<nat>, i: nat): nat {
    if i == 0 then 0 else RowStart(sizes, i - 1) + Width(sizes, i - 1)
  }

  /** Where entry i of block b stands in the interleaved stream. */
  function Position(sizes: seq<nat>, b: nat, i: nat): nat
    requires b <= |sizes|
  {
    RowStart(sizes, i) + Width(sizes[..b], i)
  }

  function ReadBlock(stream: seq<Byte>, sizes: seq<nat>, b: nat): (block: seq<Byte>)
    requires b < |sizes|
    ensures |block| == sizes[b]
  {
    seq(sizes[b], i requires 0 <= i =>
      var p := Position(sizes, b, i);
      if p < |stream| then stream[p] else 0)
  }

  /** The reader's half: every block back from its places in the stream. */
  function Deinterleave(stream: seq<Byte>, sizes: seq<nat>): seq<Byte> {
    Join(seq(|sizes|, b requires 0 <= b < |sizes| => ReadBlock(stream, sizes, b)))
  }

  ghost predicate HaveSizes(blocks: seq<seq<Byte>>, sizes: seq<nat>) {
    |blocks| == |sizes| && forall b :: 0 <= b < |blocks| ==> |blocks[b]| == sizes[b]
  }

  lemma {:induction false} ColumnWidth(blocks: seq<seq<Byte>>, sizes: seq<nat>, i: nat)
    requires HaveSizes(blocks, sizes)
    ensures |Column(blocks, i)| == Width(sizes, i)
  {
    if |blocks| > 0 {
      ColumnWidth(blocks[..|blocks| - 1], sizes[..|sizes| - 1], i);
    }
  }

  lemma {:induction false} ColumnAt(blocks: seq<seq<Byte>>, sizes: seq<nat>, b: nat, i: nat)
    requires HaveSizes(blocks, sizes) && b < |sizes| && i < sizes[b]
    ensures Width(sizes[..b], i) < |Column(blocks, i)|
    ensures Column(blocks, i)[Width(sizes[..b], i)] == blocks[b][i]
  {
    var n := |blocks| - 1;
    if b == n {
      ColumnWidth(blocks[..n], sizes[..n], i);
    } else {
      ColumnAt(blocks[..n], sizes[..n], b, i);
      assert sizes[..n][..b] == sizes[..b];
    }
  }

  lemma {:induction false} ColumnsLength(blocks: seq<seq<Byte>>, sizes: seq<nat>, n: nat)
    requires HaveSizes(blocks, sizes)
    ensures |Columns(blocks, n)| == RowStart(sizes, n)
  {
    if n > 0 {
      ColumnsLength(blocks, sizes, n - 1);
      ColumnWidth(blocks, sizes, n - 1);
    }
  }

  lemma {:induction false} ColumnsAt(blocks: seq<seq<Byte>>, sizes: seq<nat>, n: nat, b: nat, i: nat)
    requires HaveSizes(blocks, sizes) && b < |sizes| && i < sizes[b] && i < n
    ensures Position(sizes, b, i) < |Columns(blocks, n)|
    ensures Columns(blocks, n)[Position(sizes, b, i)] == blocks[b][i]
  {
    if i == n - 1 {
      ColumnsLength(blocks, sizes, n - 1);
      ColumnAt(blocks, sizes, b, i);
    } else {
      ColumnsAt(blocks, sizes, n - 1, b, i);
    }
  }

  /** Reading a stream that starts with the columns gives the words back. */
  lemma DeinterleaveColumns(words: seq<Byte>, sizes: seq<nat>, n: nat, stream: seq<Byte>)
    requires |words| == Total(sizes)
    requires forall b :: 0 <= b < |sizes| ==> sizes[b] <= n
    requires Columns(Split(words, sizes), n) <= stream
    ensures Deinterleave(stream, sizes) == words
  {
    var blocks := Split(words, sizes);
    forall b | 0 <= b < |sizes|
      ensures |blocks[b]| == sizes[b]
    {
      SplitSizes(words, sizes, b);
    }
    forall b | 0 <= b < |sizes|
      ensures ReadBlock(stream, sizes, b) == blocks[b]
    {
      BlockBack(blocks, sizes, n, stream, b);
    }
    assert seq(|sizes|, b requires 0 <= b < |sizes| => ReadBlock(stream, sizes, b)) == blocks;
    JoinSplit(words, sizes);
  }

  lemma BlockBack(blocks: seq<seq<Byte>>, sizes: seq<nat>, n: nat, stream: seq<Byte>, b: nat)
    requires HaveSizes(blocks, sizes) && b < |sizes| && sizes[b] <= n
    requires Columns(blocks, n) <= stream
    ensures ReadBlock(stream, sizes, b) == blocks[b]
  {
    forall i | 0 <= i < sizes[b]
      ensures ReadBlock(stream, sizes, b)[i] == blocks[b][i]
    {
      ColumnsAt(blocks, sizes, n, b, i);
    }
  }

  // ---- the encoder's loops --------------------------------------------------

  /** Each block of data with error correction that completes it. */
  ghost predicate Protects(ecs: seq<seq<Byte>>, blocks: seq<seq<Byte>>, ec: nat) {
    && |ecs| == |blocks|
    && forall b :: 0 <= b < |blocks| ==> |ecs[b]| == ec && IsCodeword(blocks[b] + ecs[b], ec)
  }

  /** The first k words have been cut into blocks of the given sizes. */
  ghost predicate Cut(words: seq<Byte>, k: nat, sizes: seq<nat>, data: seq<seq<Byte>>, ecs: seq<seq<Byte>>, ec: nat) {
    && k == Total(sizes) <= |words|
    && data == Split(words[..k], sizes)
    && Protects(ecs, data, ec)
  }

  lemma CutStep(words: seq<Byte>, k: nat, sizes: seq<nat>, data: seq<seq<Byte>>, ecs: seq<seq<Byte>>, ec: nat,
          size: nat, r: seq<Byte>)
    requires Cut(words, k, sizes, data, ecs, ec) && k + size <= |words|
    requires |r| == ec && IsCodeword(words[k..k + size] + r, ec)
    ensures Cut(words, k + size, sizes + [size], data + [words[k..k + size]], ecs + [r], ec)
  {
    TotalPush(sizes, size);
    SplitPush(words[..k], sizes, words[k..k + size]);
    assert words[..k] + words[k..k + size] == words[..k + size];
  }

  method MakeBlocks(t: Tables, words: seq<Byte>, layout: Layout)
    returns (data: seq<seq<Byte>>, ecs: seq<seq<Byte>>)
    requires t.Valid() && layout.ec <= 512
    requires Total(Sizes(layout.groups)) == |words|
    ensures data == Split(words, Sizes(layout.groups)) && Protects(ecs, data, layout.ec)
  {
    data, ecs := [], [];
    var k: nat := 0;
    for g := 0 to |layout.groups|
      invariant Cut(words, k, Sizes(layout.groups[..g]), data, ecs, layout.ec)
    {
      data, ecs, k := MakeGroup(t, words, layout, g, data, ecs, k);
    }
    assert layout.groups[..|layout.groups|] == layout.groups;
    assert words[..k] == words;
  }

  method MakeGroup(t: Tables, words: seq<Byte>, layout: Layout, g: nat, data0: seq<seq<Byte>>, ecs0: seq<seq<Byte>>,
          k0: nat)
    returns (data: seq<seq<Byte>>, ecs: seq<seq<Byte>>, k: nat)
    requires t.Valid() && layout.ec <= 512 && g < |layout.groups|
    requires Total(Sizes(layout.groups)) == |words|
    requires Cut(words, k0, Sizes(layout.groups[..g]), data0, ecs0, layout.ec)
    ensures Cut(words, k, Sizes(layout.groups[..g + 1]), data, ecs, layout.ec)
  {
    var group := layout.groups[g];
    data, ecs, k := data0, ecs0, k0;
    GroupBounds(layout.groups, g);
    for c := 0 to group.count
      invariant Cut(words, k, Sizes(layout.groups[..g]) + Repeat(group.size, c), data, ecs, layout.ec)
    {
      data, ecs, k := MakeBlock(t, words, layout, g, c, data, ecs, k);
    }
  }

  method MakeBlock(t: Tables, words: seq<Byte>, layout: Layout, g: nat, ghost c: nat, data0: seq<seq<Byte>>,
          ecs0: seq<seq<Byte>>, k0: nat)
    returns (data: seq<seq<Byte>>, ecs: seq<seq<Byte>>, k: nat)
    requires t.Valid() && layout.ec <= 512 && g < |layout.groups| && c < layout.groups[g].count
    requires Total(Sizes(layout.groups)) == |words|
    requires Cut(words, k0, Sizes(layout.groups[..g]) + Repeat(layout.groups[g].size, c), data0, ecs0, layout.ec)
    ensures Cut(words, k, Sizes(layout.groups[..g]) + Repeat(layout.groups[g].size, c + 1), data, ecs, layout.ec)
  {
    NextFits(layout.groups, g, c);
    k := k0 + layout.groups[g].size;
    var block := words[k0..k];
    var r := RsRemainder(t, block, layout.ec);
    GroupStep(words, k0, layout, g, c, data0, ecs0, r);
    data, ecs := data0 + [block], ecs0 + [r];
  }

  lemma GroupBounds(groups: seq<Group>, g: nat)
    requires g < |groups|
    ensures Sizes(groups[..g]) + Repeat(groups[g].size, 0) == Sizes(groups[..g])
    ensures Sizes(groups[..g]) + Repeat(groups[g].size, groups[g].count) == Sizes(groups[..g + 1])
  {
    assert groups[..g + 1][..g] == groups[..g];
  }

  lemma NextFits(groups: seq<Group>, g: nat, c: nat)
    requires g < |groups| && c < groups[g].count
    ensures Total(Sizes(groups[..g]) + Repeat(groups[g].size, c)) + groups[g].size <= Total(Sizes(groups))
  {
    var sizes := Sizes(groups[..g]) + Repeat(groups[g].size, c);
    assert Sizes(groups[..g]) + Repeat(groups[g].size, c + 1) == sizes + [groups[g].size];
    RoomForBlock(groups, g, c);
    TotalPush(sizes, groups[g].size);
  }

  lemma GroupStep(words: seq<Byte>, k: nat, layout: Layout, g: nat, c: nat, data: seq<seq<Byte>>, ecs: seq<seq<Byte>>,
          r: seq<Byte>)
    requires g < |layout.groups| && c < layout.groups[g].count
    requires Cut(words, k, Sizes(layout.groups[..g]) + Repeat(layout.groups[g].size, c), data, ecs, layout.ec)
    requires k + layout.groups[g].size <= |words|
    requires |r| == layout.ec && IsCodeword(words[k..k + layout.groups[g].size] + r, layout.ec)
    ensures Cut(words, k + layout.groups[g].size,
                Sizes(layout.groups[..g]) + Repeat(layout.groups[g].size, c + 1),
                data + [words[k..k + layout.groups[g].size]], ecs + [r], layout.ec)
  {
    var size := layout.groups[g].size;
    var sizes := Sizes(layout.groups[..g]) + Repeat(size, c);
    assert Sizes(layout.groups[..g]) + Repeat(size, c + 1) == sizes + [size];
    CutStep(words, k, sizes, data, ecs, layout.ec, size, r);
  }

  lemma {:induction false} TotalMonotone(a: seq<nat>, b: seq<nat>)
    ensures Total(a) <= Total(a + b)
  {
    if |b| == 0 {
      assert a + b == a;
    } else {
      TotalMonotone(a, b[..|b| - 1]);
      assert (a + b)[..|a + b| - 1] == a + b[..|b| - 1];
    }
  }

  lemma {:induction false} SizesPrefix(groups: seq<Group>, g: nat)
    requires g <= |groups|
    ensures exists rest :: Sizes(groups) == Sizes(groups[..g]) + rest
  {
    if g == |groups| {
      assert groups[..g] == groups;
      assert Sizes(groups) == Sizes(groups[..g]) + [];
    } else {
      var n := |groups| - 1;
      SizesPrefix(groups[..n], g);
      assert groups[..n][..g] == groups[..g];
      var rest :| Sizes(groups[..n]) == Sizes(groups[..g]) + rest;
      var more := rest + Repeat(groups[n].size, groups[n].count);
      assert Sizes(groups) == Sizes(groups[..g]) + more;
    }
  }

  lemma {:induction false} RepeatPrefix(size: nat, c: nat, count: nat)
    requires c <= count
    ensures exists rest :: Repeat(size, count) == Repeat(size, c) + rest
  {
    if c == count {
      assert Repeat(size, count) == Repeat(size, c) + [];
    } else {
      RepeatPrefix(size, c, count - 1);
      var rest :| Repeat(size, count - 1) == Repeat(size, c) + rest;
      assert Repeat(size, count) == Repeat(size, c) + (rest + [size]);
    }
  }

  /** The next block still lies inside the words. */
  lemma RoomForBlock(groups: seq<Group>, g: nat, c: nat)
    requires g < |groups| && c < groups[g].count
    ensures Total(Sizes(groups[..g]) + Repeat(groups[g].size, c + 1)) <= Total(Sizes(groups))
  {
    var group := groups[g];
    SizesPrefix(groups, g + 1);
    var rest :| Sizes(groups) == Sizes(groups[..g + 1]) + rest;
    assert groups[..g + 1][..g] == groups[..g];
    RepeatPrefix(group.size, c + 1, group.count);
    var more :| Repeat(group.size, group.count) == Repeat(group.size, c + 1) + more;
    var a := Sizes(groups[..g]) + Repeat(group.size, c + 1);
    assert Sizes(groups) == a + (more + rest);
    TotalMonotone(a, more + rest);
  }

  method WriteColumns(blocks: seq<seq<Byte>>, n: nat) returns (out: seq<Byte>)
    ensures out == Columns(blocks, n)
  {
    out := [];
    for i := 0 to n
      invariant out == Columns(blocks, i)
    {
      for b := 0 to |blocks|
        invariant out == Columns(blocks, i) + Column(blocks[..b], i)
      {
        assert blocks[..b + 1][..b] == blocks[..b];
        if i < |blocks[b]| {
          out := out + [blocks[b][i]];
        }
      }
      assert blocks[..|blocks|] == blocks;
    }
  }

  method Longest(blocks: seq<seq<Byte>>) returns (n: nat)
    ensures forall b :: 0 <= b < |blocks| ==> |blocks[b]| <= n
    ensures |blocks| > 0 ==> exists b :: 0 <= b < |blocks| && |blocks[b]| == n
  {
    n := 0;
    for b := 0 to |blocks|
      invariant forall c :: 0 <= c < b ==> |blocks[c]| <= n
      invariant b == 0 ==> n == 0
      invariant b > 0 ==> exists c :: 0 <= c < b && |blocks[c]| == n
    {
      if b == 0 || |blocks[b]| > n {
        n := |blocks[b]|;
      }
    }
  }

  /** Data columns first, then error-correction columns, each block protected. */
  ghost predicate Interleaved(out: seq<Byte>, words: seq<Byte>, layout: Layout)
    requires Total(Sizes(layout.groups)) == |words|
  {
    var data := Split(words, Sizes(layout.groups));
    exists ecs: seq<seq<Byte>>, n: nat ::
      && Protects(ecs, data, layout.ec)
      && (forall b :: 0 <= b < |data| ==> |data[b]| <= n)
      && out == Columns(data, n) + Columns(ecs, layout.ec)
  }

  method Interleave(t: Tables, words: seq<Byte>, layout: Layout) returns (out: seq<Byte>)
    requires t.Valid() && layout.ec <= 512
    requires Total(Sizes(layout.groups)) == |words|
    ensures Interleaved(out, words, layout)
  {
    var data, ecs := MakeBlocks(t, words, layout);
    var n := Longest(data);
    var front := WriteColumns(data, n);
    var back := WriteColumns(ecs, layout.ec);
    out := front + back;
  }

  /** Whatever version: de-interleaving undoes interleaving. */
  lemma InterleavedReads(out: seq<Byte>, words: seq<Byte>, layout: Layout)
    requires Total(Sizes(layout.groups)) == |words|
    requires Interleaved(out, words, layout)
    ensures Deinterleave(out, Sizes(layout.groups)) == words
  {
    var sizes := Sizes(layout.groups);
    var data := Split(words, sizes);
    var ecs: seq<seq<Byte>>, n: nat :|
      && Protects(ecs, data, layout.ec)
      && (forall b :: 0 <= b < |data| ==> |data[b]| <= n)
      && out == Columns(data, n) + Columns(ecs, layout.ec);
    forall b | 0 <= b < |sizes|
      ensures sizes[b] <= n
    {
      SplitSizes(words, sizes, b);
    }
    DeinterleaveColumns(words, sizes, n, out);
  }

  // ---- how long the stream is -------------------------------------------------

  lemma {:induction false} RowStartPush(sizes: seq<nat>, n: nat)
    requires |sizes| > 0
    ensures var last := sizes[|sizes| - 1];
      RowStart(sizes, n) == RowStart(sizes[..|sizes| - 1], n) + if last <= n then last else n
  {
    if n > 0 {
      RowStartPush(sizes, n - 1);
    }
  }

  lemma {:induction false} RowStartTotal(sizes: seq<nat>, n: nat)
    requires forall b :: 0 <= b < |sizes| ==> sizes[b] <= n
    ensures RowStart(sizes, n) == Total(sizes)
  {
    if |sizes| > 0 {
      RowStartPush(sizes, n);
      RowStartTotal(sizes[..|sizes| - 1], n);
    } else {
      RowStartEmpty(n);
    }
  }

  lemma {:induction false} RowStartEmpty(n: nat)
    ensures RowStart([], n) == 0
  {
    if n > 0 {
      RowStartEmpty(n - 1);
    }
  }

  lemma {:induction false} TotalSame(size: nat, count: nat)
    ensures Total(Repeat(size, count)) == count * size
  {
    if count > 0 {
      TotalSame(size, count - 1);
      TotalPush(Repeat(size, count - 1), size);
      assert count * size == (count - 1) * size + size;
    }
  }

  lemma {:induction false} RepeatAt(size: nat, count: nat, k: nat)
    requires k < count
    ensures Repeat(size, count)[k] == size
  {
    if k < count - 1 {
      RepeatAt(size, count - 1, k);
    }
  }

  lemma ColumnsTotalLength(blocks: seq<seq<Byte>>, sizes: seq<nat>, n: nat)
    requires HaveSizes(blocks, sizes) && forall b :: 0 <= b < |sizes| ==> sizes[b] <= n
    ensures |Columns(blocks, n)| == Total(sizes)
  {
    ColumnsLength(blocks, sizes, n);
    RowStartTotal(sizes, n);
  }

  lemma EcColumnsLength(ecs: seq<seq<Byte>>, ec: nat)
    requires forall b :: 0 <= b < |ecs| ==> |ecs[b]| == ec
    ensures |Columns(ecs, ec)| == |ecs| * ec
  {
    forall b: nat | b < |ecs|
      ensures Repeat(ec, |ecs|)[b] == ec
    {
      RepeatAt(ec, |ecs|, b);
    }
    ColumnsTotalLength(ecs, Repeat(ec, |ecs|), ec);
    TotalSame(ec, |ecs|);
  }

  lemma InterleavedLength(out: seq<Byte>, words: seq<Byte>, layout: Layout)
    requires Total(Sizes(layout.groups)) == |words|
    requires Interleaved(out, words, layout)
    ensures |out| == |words| + |Sizes(layout.groups)| * layout.ec
  {
    var sizes := Sizes(layout.groups);
    var data := Split(words, sizes);
    var ecs: seq<seq<Byte>>, n: nat :|
      && Protects(ecs, data, layout.ec)
      && (forall b :: 0 <= b < |data| ==> |data[b]| <= n)
      && out == Columns(data, n) + Columns(ecs, layout.ec);
    forall b | 0 <= b < |sizes|
      ensures |data[b]| == sizes[b]
    {
      SplitSizes(words, sizes, b);
    }
    ColumnsTotalLength(data, sizes, n);
    EcColumnsLength(ecs, layout.ec);
  }

  // ---- only one stream is right -----------------------------------------------

  lemma {:induction false} ColumnBeyond(blocks: seq<seq<Byte>>, i: nat)
    requires forall b :: 0 <= b < |blocks| ==> |blocks[b]| <= i
    ensures Column(blocks, i) == []
  {
    if |blocks| > 0 {
      ColumnBeyond(blocks[..|blocks| - 1], i);
    }
  }

  lemma {:induction false} ColumnsBeyond(blocks: seq<seq<Byte>>, m: nat, n: nat)
    requires m <= n && forall b :: 0 <= b < |blocks| ==> |blocks[b]| <= m
    ensures Columns(blocks, n) == Columns(blocks, m)
  {
    if m < n {
      ColumnsBeyond(blocks, m, n - 1);
      ColumnBeyond(blocks, n - 1);
    }
  }

  lemma ProtectionUnique(a: seq<seq<Byte>>, b: seq<seq<Byte>>, data: seq<seq<Byte>>, ec: nat)
    requires ec <= 255 && Protects(a, data, ec) && Protects(b, data, ec)
    ensures a == b
  {
    forall i | 0 <= i < |data|
      ensures a[i] == b[i]
    {
      RemainderUnique(data[i], a[i], b[i]);
    }
  }

  lemma InterleavedUnique(a: seq<Byte>, b: seq<Byte>, words: seq<Byte>, layout: Layout)
    requires Total(Sizes(layout.groups)) == |words| && layout.ec <= 255
    requires Interleaved(a, words, layout) && Interleaved(b, words, layout)
    ensures a == b
  {
    var data := Split(words, Sizes(layout.groups));
    var ea: seq<seq<Byte>>, m: nat :|
      && Protects(ea, data, layout.ec)
      && (forall i :: 0 <= i < |data| ==> |data[i]| <= m)
      && a == Columns(data, m) + Columns(ea, layout.ec);
    var eb: seq<seq<Byte>>, n: nat :|
      && Protects(eb, data, layout.ec)
      && (forall i :: 0 <= i < |data| ==> |data[i]| <= n)
      && b == Columns(data, n) + Columns(eb, layout.ec);
    ProtectionUnique(ea, eb, data, layout.ec);
    if m <= n {
      ColumnsBeyond(data, m, n);
    } else {
      ColumnsBeyond(data, n, m);
    }
  }
}
