/** From a byte string to codewords and back: the version table, byte mode,
    padding, and the block interleaving of ham/qr.py. */
module QrCodewords {
  import opened Options
  import opened Bits

  type Bit = b: nat | b < 2

  // ---- numbers as bits, most significant first ------------------------------

  function BitsOf(value: nat, count: nat): (bits: seq<Bit>)
    ensures |bits| == count
  {
    if count == 0 then [] else BitsOf(value / 2, count - 1) + [value % 2]
  }

  function ValueOf(bits: seq<Bit>): nat {
    if |bits| == 0 then 0 else 2 * ValueOf(bits[..|bits| - 1]) + bits[|bits| - 1]
  }

  lemma {:induction false} ValueOfBits(value: nat, count: nat)
    requires value < Pow2(count)
    ensures ValueOf(BitsOf(value, count)) == value
  {
    if count > 0 {
      ValueOfBits(value / 2, count - 1);
      assert BitsOf(value, count)[..count - 1] == BitsOf(value / 2, count - 1);
    }
  }

  lemma {:induction false} BitsOfValue(bits: seq<Bit>)
    ensures ValueOf(bits) < Pow2(|bits|)
    ensures BitsOf(ValueOf(bits), |bits|) == bits
  {
    if |bits| > 0 {
      var n := |bits| - 1;
      BitsOfValue(bits[..n]);
      assert bits == bits[..n] + [bits[n]];
    }
  }

  function WordOf(bits: seq<Bit>): Byte
    requires |bits| == 8
  {
    BitsOfValue(bits);
    assert Pow2(4) == 16;
    ValueOf(bits)
  }

  /** The words' bits in order; the inverse is Words. */
  function Flatten(words: seq<Byte>): (bits: seq<Bit>)
    ensures |bits| == 8 * |words|
  {
    if |words| == 0 then [] else Flatten(words[..|words| - 1]) + BitsOf(words[|words| - 1], 8)
  }

  function Words(bits: seq<Bit>, n: nat): (words: seq<Byte>)
    requires 8 * n <= |bits|
    ensures |words| == n
  {
    if n == 0 then [] else Words(bits, n - 1) + [WordOf(bits[8 * n - 8..8 * n])]
  }

  lemma {:induction false} FlattenWords(bits: seq<Bit>, n: nat)
    requires 8 * n <= |bits|
    ensures Flatten(Words(bits, n)) == bits[..8 * n]
  {
    if n > 0 {
      FlattenWords(bits, n - 1);
      var last := bits[8 * n - 8..8 * n];
      BitsOfValue(last);
      assert Words(bits, n)[..n - 1] == Words(bits, n - 1);
      assert bits[..8 * n] == bits[..8 * n - 8] + last;
    }
  }

  lemma WordOfByte(w: Byte)
    ensures WordOf(BitsOf(w, 8)) == w
  {
    assert Pow2(4) == 16;
    ValueOfBits(w, 8);
  }

  lemma FlattenPush(a: seq<Byte>, w: Byte)
    ensures Flatten(a + [w]) == Flatten(a) + BitsOf(w, 8)
  {
    assert (a + [w])[..|a|] == a;
  }

  lemma {:induction false} FlattenConcat(a: seq<Byte>, b: seq<Byte>)
    ensures Flatten(a + b) == Flatten(a) + Flatten(b)
  {
    if |b| == 0 {
      assert a + b == a;
    } else {
      var front, w := b[..|b| - 1], b[|b| - 1];
      FlattenConcat(a, front);
      SplitLast(a, b);
      FlattenPush(a + front, w);
      FlattenPush(front, w);
      Regroup(Flatten(a), Flatten(front), BitsOf(w, 8));
    }
  }

  lemma SplitLast<T>(a: seq<T>, b: seq<T>)
    requires b != []
    ensures b == b[..|b| - 1] + [b[|b| - 1]]
    ensures a + b == (a + b[..|b| - 1]) + [b[|b| - 1]]
  {
  }

  lemma SplitAt<T>(s: seq<T>, n: nat)
    requires n <= |s|
    ensures s == s[..n] + s[n..]
  {
  }

  lemma Regroup<T>(x: seq<T>, y: seq<T>, z: seq<T>)
    ensures x + (y + z) == (x + y) + z
  {
  }

  lemma {:induction false} FlattenAt(words: seq<Byte>, k: nat)
    requires k < |words|
    ensures Flatten(words)[8 * k..8 * k + 8] == BitsOf(words[k], 8)
  {
    var front, w := words[..|words| - 1], words[|words| - 1];
    assert words == front + [w];
    FlattenPush(front, w);
    if k < |front| {
      FlattenAt(front, k);
      PrefixOfSum(Flatten(front), BitsOf(w, 8));
      SliceOfPrefix(Flatten(front), Flatten(words), 8 * k, 8 * k + 8);
    } else {
      EndOfSum(Flatten(front), BitsOf(w, 8));
    }
  }

  lemma PrefixOfSum<T>(a: seq<T>, b: seq<T>)
    ensures a <= a + b
  {
  }

  lemma EndOfSum<T>(a: seq<T>, b: seq<T>)
    ensures (a + b)[|a|..|a| + |b|] == b
  {
  }

  lemma SliceOfPrefix<T>(a: seq<T>, b: seq<T>, i: nat, j: nat)
    requires a <= b && i <= j <= |a|
    ensures b[i..j] == a[i..j]
  {
    assert b[..|a|] == a;
  }

  lemma FlattenPrefix(a: seq<Byte>, b: seq<Byte>)
    ensures Flatten(a) <= Flatten(a + b)
  {
    FlattenConcat(a, b);
    var x, y := Flatten(a), Flatten(b);
    assert (x + y)[..|x|] == x;
  }

  lemma WordAt(words: seq<Byte>, bits: seq<Bit>, k: nat)
    requires k < |words| && Flatten(words) <= bits
    ensures WordOf(bits[8 * k..8 * k + 8]) == words[k]
  {
    FlattenAt(words, k);
    SliceOfPrefix(Flatten(words), bits, 8 * k, 8 * k + 8);
    WordOfByte(words[k]);
  }

  /** Reading back a stream that starts with the words' bits. */
  lemma {:induction false} WordsFlatten(words: seq<Byte>, bits: seq<Bit>, n: nat)
    requires n <= |words| && Flatten(words) <= bits
    ensures Words(bits, n) == words[..n]
  {
    if n > 0 {
      WordsFlatten(words, bits, n - 1);
      WordAt(words, bits, n - 1);
    }
  }

  // ---- the version table ----------------------------------------------------

  type Version = v: nat | 1 <= v <= 10 witness 1

  datatype Group = Group(count: nat, size: nat)
  datatype Layout = Layout(capacity: nat, ec: nat, groups: seq<Group>)

  /** Data codewords, error-correction codewords per block, and blocks, at
      level M. */
  function LayoutOf(v: Version): Layout {
    match v
    case 1 => Layout(16, 10, [Group(1, 16)])
    case 2 => Layout(28, 16, [Group(1, 28)])
    case 3 => Layout(44, 26, [Group(1, 44)])
    case 4 => Layout(64, 18, [Group(2, 32)])
    case 5 => Layout(86, 24, [Group(2, 43)])
    case 6 => Layout(108, 16, [Group(4, 27)])
    case 7 => Layout(124, 18, [Group(4, 31)])
    case 8 => Layout(154, 22, [Group(2, 38), Group(2, 39)])
    case 9 => Layout(182, 22, [Group(3, 36), Group(2, 37)])
    case 10 => Layout(216, 26, [Group(4, 43), Group(1, 44)])
  }

  function Overhead(v: Version): nat {
    if v < 10 then 2 else 3
  }

  predicate Fits(n: nat, v: Version) {
    n + Overhead(v) <= LayoutOf(v).capacity
  }

  /** The smallest version that holds n bytes; 213 bytes is the most there is
      room for. */
  method ChooseVersion(n: nat) returns (r: Option<Version>)
    ensures r.Some? ==> Fits(n, r.value) && forall u: Version :: u < r.value ==> !Fits(n, u)
    ensures r.Some? <==> n <= 213
  {
    var v := 1;
    while v <= 10
      invariant 1 <= v <= 11
      invariant forall u: Version :: u < v ==> !Fits(n, u)
    {
      if Fits(n, v) {
        return Some(v);
      }
      v := v + 1;
    }
    assert !Fits(n, 10);
    return None;
  }

  // ---- byte mode ------------------------------------------------------------

  function LengthBits(v: Version): nat {
    if v >= 10 then 16 else 8
  }

  method Put(bits: seq<Bit>, value: nat, count: int) returns (r: seq<Bit>)
    ensures r == bits + BitsOf(value, if count < 0 then 0 else count)
  {
    r := bits;
    if count < 0 {
      return;
    }
    HighBits(value, count, count);
    var i := count;
    while i > 0
      invariant 0 <= i <= count
      invariant r == bits + HighBitsOf(value, i, count)
    {
      i := i - 1;
      HighBits(value, i, count);
      r := r + [(value / Pow2(i)) % 2];
    }
  }

  /** The bits from place i up, of a value written in count bits. */
  function HighBitsOf(value: nat, i: nat, count: nat): seq<Bit>
    requires i <= count
  {
    BitsOf(Quotient(value, Pow2(i)), count - i)
  }

  function Quotient(a: nat, b: nat): nat
    requires b > 0
  {
    a / b
  }

  lemma HighBits(value: nat, i: nat, count: nat)
    requires i <= count
    ensures i == count ==> HighBitsOf(value, i, count) == []
    ensures i < count ==> HighBitsOf(value, i, count) == HighBitsOf(value, i + 1, count) + [(value / Pow2(i)) % 2]
    ensures i == 0 ==> HighBitsOf(value, i, count) == BitsOf(value, count)
  {
    DivideTwice(value, Pow2(i));
  }

  /** Mode indicator, length and the bytes themselves. */
  function Message(data: seq<Byte>, v: Version): seq<Bit> {
    BitsOf(4, 4) + BitsOf(|data|, LengthBits(v)) + Flatten(data)
  }

  /** How wide a reader takes the length field to be. */
  function CountWidth(v: Version): nat {
    match v
    case 10 => 16
    case _ => 8
  }

  /** What a reader makes of the data codewords. */
  function ParseByteMode(words: seq<Byte>, v: Version): Option<seq<Byte>> {
    var bits := Flatten(words);
    var start := 4 + CountWidth(v);
    if |bits| < start || ValueOf(bits[..4]) != 4 then None
    else
      var n := ValueOf(bits[4..start]);
      if |bits| < start + 8 * n then None else Some(Words(bits[start..], n))
  }

  lemma ParseMessage(data: seq<Byte>, v: Version, words: seq<Byte>)
    requires Fits(|data|, v)
    requires Message(data, v) <= Flatten(words)
    ensures ParseByteMode(words, v) == Some(data)
  {
    var bits, start := Flatten(words), 4 + LengthBits(v);
    ThreeParts(BitsOf(4, 4), BitsOf(|data|, LengthBits(v)), Flatten(data), bits);
    ModeFits();
    LengthFits(|data|, v);
    ValueOfBits(4, 4);
    ValueOfBits(|data|, LengthBits(v));
    WordsFlatten(data, bits[start..], |data|);
    assert data[..|data|] == data;
  }

  lemma ThreeParts<T>(a: seq<T>, b: seq<T>, c: seq<T>, all: seq<T>)
    requires a + b + c <= all
    ensures all[..|a|] == a && all[|a|..|a| + |b|] == b && c <= all[|a| + |b|..]
  {
    var m := a + b + c;
    SliceOfPrefix(m, all, 0, |a|);
    SliceOfPrefix(m, all, |a|, |a| + |b|);
    SliceOfPrefix(m, all, |a| + |b|, |m|);
    assert m[|a| + |b|..] == c;
    assert all[|a| + |b|..][..|c|] == all[|a| + |b|..|m|];
  }

  lemma ModeFits()
    ensures 4 < Pow2(4)
  {
    assert Pow2(4) == 16;
  }

  lemma LengthFits(n: nat, v: Version)
    requires Fits(n, v)
    ensures n < Pow2(LengthBits(v))
  {
    assert Pow2(8) == 256;
    assert Pow2(12) == 4096;
    assert Pow2(16) == 65536;
  }

  method PutBytes(bits: seq<Bit>, data: seq<Byte>) returns (r: seq<Bit>)
    ensures r == bits + Flatten(data)
  {
    r := bits;
    for k := 0 to |data|
      invariant r == bits + Flatten(data[..k])
    {
      assert data[..k + 1][..k] == data[..k];
      r := Put(r, data[k], 8);
    }
    assert data[..|data|] == data;
  }

  /** Zero bits up to a whole number of words. */
  method FillOctet(bits: seq<Bit>) returns (r: seq<Bit>)
    ensures bits <= r && |r| % 8 == 0 && |r| < |bits| + 8
    ensures forall k :: |bits| <= k < |r| ==> r[k] == 0
  {
    r := bits;
    while |r| % 8 != 0
      invariant bits <= r && |r| <= (|bits| + 7) / 8 * 8
      invariant forall k :: |bits| <= k < |r| ==> r[k] == 0
      decreases |bits| + 8 - |r|
    {
      r := r + [0];
    }
  }

  method PackWords(bits: seq<Bit>) returns (words: seq<Byte>)
    requires |bits| % 8 == 0
    ensures Flatten(words) == bits
  {
    var n := |bits| / 8;
    words := [];
    for i := 0 to n
      invariant words == Words(bits, i)
    {
      words := words + [WordOf(bits[8 * i..8 * i + 8])];
    }
    FlattenWords(bits, n);
    assert bits[..8 * n] == bits;
  }

  /** 0xec and 0x11 by turns. */
  function PadWord(k: nat): Byte {
    if k % 2 == 0 then 0xec else 0x11
  }

  method PadWords(words: seq<Byte>, cap: nat) returns (r: seq<Byte>)
    requires |words| <= cap
    ensures |r| == cap && words <= r
    ensures forall k :: |words| <= k < cap ==> r[k] == PadWord(k - |words|)
  {
    r := words;
    var i := 0;
    while |r| < cap
      invariant |r| == |words| + i <= cap && words <= r
      invariant forall k :: |words| <= k < |r| ==> r[k] == PadWord(k - |words|)
    {
      r := r + [PadWord(i)];
      i := i + 1;
    }
  }

  lemma MessageLength(data: seq<Byte>, v: Version)
    ensures |Message(data, v)| + 4 == 8 * (|data| + Overhead(v))
  {
  }

  /** Header, bytes and terminator. A version that fits leaves room for all
      four terminator bits. */
  method MessageBits(data: seq<Byte>, v: Version, cap: nat) returns (bits: seq<Bit>)
    requires |data| + Overhead(v) <= cap
    ensures bits == Message(data, v) + [0, 0, 0, 0]
  {
    bits := Put([], 4, 4);
    bits := Put(bits, |data|, LengthBits(v));
    bits := PutBytes(bits, data);
    MessageLength(data, v);
    assert bits == Message(data, v);
    var left := cap * 8 - |bits|;
    Terminator();
    bits := Put(bits, 0, if left < 4 then left else 4);
  }

  /** The data codewords: the message, a four-bit terminator, then padding up
      to the version's capacity. */
  ghost predicate IsCodewordsOf(words: seq<Byte>, data: seq<Byte>, v: Version)
    requires Fits(|data|, v)
  {
    var n := |data| + Overhead(v);
    && |words| == LayoutOf(v).capacity
    && Flatten(words[..n]) == Message(data, v) + [0, 0, 0, 0]
    && forall k :: n <= k < |words| ==> words[k] == PadWord(k - n)
  }

  method BitsToCodewords(data: seq<Byte>, v: Version) returns (words: seq<Byte>)
    requires Fits(|data|, v)
    ensures IsCodewordsOf(words, data, v)
  {
    var cap := LayoutOf(v).capacity;
    var bits := MessageBits(data, v, cap);
    MessageLength(data, v);
    ghost var message := bits;
    bits := FillOctet(bits);
    OctetsFull(message, bits);
    var packed := PackWords(bits);
    words := PadWords(packed, cap);
    assert words[..|packed|] == packed;
  }

  /** Whole octets need no filling. */
  lemma OctetsFull(bits: seq<Bit>, r: seq<Bit>)
    requires bits <= r && |bits| % 8 == 0 && |r| % 8 == 0 && |r| < |bits| + 8
    ensures r == bits
  {
  }

  lemma Terminator()
    ensures BitsOf(0, 4) == [0, 0, 0, 0]
  {
  }

  /** A reader finds the data in them, whatever was padded behind. */
  lemma CodewordsParse(data: seq<Byte>, v: Version, words: seq<Byte>)
    requires Fits(|data|, v) && IsCodewordsOf(words, data, v)
    ensures ParseByteMode(words, v) == Some(data)
  {
    var n := |data| + Overhead(v);
    assert Message(data, v) <= Flatten(words[..n]);
    MessageFirst(data, v, words, n);
    ParseMessage(data, v, words);
  }

  lemma MessageFirst(data: seq<Byte>, v: Version, words: seq<Byte>, n: nat)
    requires n <= |words| && Message(data, v) <= Flatten(words[..n])
    ensures Message(data, v) <= Flatten(words)
  {
    FlattenPrefix(words[..n], words[n..]);
    SplitAt(words, n);
    PrefixTrans(Message(data, v), Flatten(words[..n]), Flatten(words));
  }

  lemma PrefixTrans<T>(a: seq<T>, b: seq<T>, c: seq<T>)
    requires a <= b <= c
    ensures a <= c
  {
    assert c[..|b|] == b;
  }

  lemma FlattenInjective(a: seq<Byte>, b: seq<Byte>)
    requires Flatten(a) == Flatten(b)
    ensures a == b
  {
    WordsFlatten(a, Flatten(a), |a|);
    WordsFlatten(b, Flatten(b), |b|);
    assert a[..|a|] == a && b[..|b|] == b;
  }

  /** There is only one such list of codewords. */
  lemma CodewordsUnique(a: seq<Byte>, b: seq<Byte>, data: seq<Byte>, v: Version)
    requires Fits(|data|, v) && IsCodewordsOf(a, data, v) && IsCodewordsOf(b, data, v)
    ensures a == b
  {
    var n := |data| + Overhead(v);
    FlattenInjective(a[..n], b[..n]);
    SamePadding(a, b, n);
  }

  lemma SamePadding(a: seq<Byte>, b: seq<Byte>, n: nat)
    requires |a| == |b| && n <= |a| && a[..n] == b[..n]
    requires forall k :: n <= k < |a| ==> a[k] == PadWord(k - n) && b[k] == PadWord(k - n)
    ensures a == b
  {
    forall k | 0 <= k < |a|
      ensures a[k] == b[k]
    {
      assert k < n ==> a[..n][k] == a[k] && b[..n][k] == b[k];
    }
  }
}
