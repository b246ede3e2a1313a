/** The two short BCH codes of a symbol: version information and format
    information, each a value followed by its remainder over GF(2). */
module QrCodes {
  import opened Bits

  const VERSION_GENERATOR: nat := 0x1f25   // 0b1111100100101
  const FORMAT_GENERATOR: nat := 0x537     // 0b10100110111
  const FORMAT_MASK: nat := 0x5412         // 0b101010000010010

  function BitAt(x: nat, i: nat): nat {
    (x / Pow2(i)) % 2
  }

  /** Bits i down to degree of rem, each cancelled by the shifted generator. */
  function Reduce(rem: nat, g: nat, degree: nat, i: int): nat
    decreases i, rem
  {
    if i < degree then rem
    else Reduce(Cancel(rem, g, degree, i), g, degree, i - 1)
  }

  function Cancel(rem: nat, g: nat, degree: nat, i: nat): nat
    requires degree <= i
  {
    if BitAt(rem, i) == 1 then Xor(rem, g * Pow2(i - degree)) else rem
  }

  /** The loop shared by _version_bits and _format_bits. */
  method Remainder(start: nat, g: nat, degree: nat, top: nat) returns (rem: nat)
    ensures rem == Reduce(start, g, degree, top)
  {
    rem := start;
    var i: int := top;
    while i >= degree
      invariant Reduce(rem, g, degree, i) == Reduce(start, g, degree, top)
      decreases i
    {
      if BitAt(rem, i) == 1 {
        rem := Xor(rem, g * Pow2(i - degree));
      }
      i := i - 1;
    }
  }

  function VersionCode(version: nat): nat {
    version * 4096 + Reduce(version * 4096, VERSION_GENERATOR, 12, 17)
  }

  function FormatCode(mask: nat): nat {
    Xor(mask * 1024 + Reduce(mask * 1024, FORMAT_GENERATOR, 10, 14), FORMAT_MASK)
  }

  method VersionBits(version: nat) returns (bits: nat)
    ensures bits == VersionCode(version)
  {
    var rem := Remainder(version * 4096, VERSION_GENERATOR, 12, 17);
    bits := version * 4096 + rem;
  }

  method FormatBits(mask: nat) returns (bits: nat)
    ensures bits == FormatCode(mask)
  {
    var rem := Remainder(mask * 1024, FORMAT_GENERATOR, 10, 14);
    bits := Xor(mask * 1024 + rem, FORMAT_MASK);
  }

  // ---- both are codewords ---------------------------------------------------

  /** Carry-less product: polynomials over GF(2) as bit strings. */
  function Clmul(q: nat, g: nat): nat {
    if q == 0 then 0 else Xor(if q % 2 == 1 then g else 0, 2 * Clmul(q / 2, g))
  }

  ghost predicate Divides(g: nat, x: nat) {
    exists q: nat :: Clmul(q, g) == x
  }

  lemma DoubleXor(a: nat, b: nat)
    ensures Xor(2 * a, 2 * b) == 2 * Xor(a, b)
  {
    XorStep(2 * a, 2 * b);
  }

  lemma {:induction false} ClmulSum(p: nat, q: nat, g: nat)
    ensures Clmul(Xor(p, q), g) == Xor(Clmul(p, g), Clmul(q, g))
    decreases p + q
  {
    if p == 0 {
      XorZero(q);
      XorZero(Clmul(q, g));
    } else if q == 0 {
      XorZero(p);
      XorZero(Clmul(p, g));
    } else {
      ClmulSum(p / 2, q / 2, g);
      XorStep(p, q);
      ClmulStep(p, g);
      ClmulStep(q, g);
      ClmulStep(Xor(p, q), g);
      var a := if p % 2 == 1 then g else 0;
      var b := if q % 2 == 1 then g else 0;
      DoubleXor(Clmul(p / 2, g), Clmul(q / 2, g));
      XorExchange(a, 2 * Clmul(p / 2, g), b, 2 * Clmul(q / 2, g));
      XorSelf(g);
      XorZero(g);
      XorZero(0);
    }
  }

  lemma ClmulStep(q: nat, g: nat)
    ensures Clmul(q, g) == Xor(if q % 2 == 1 then g else 0, 2 * Clmul(q / 2, g))
  {
    XorZero(0);
  }

  lemma {:induction false} ClmulShift(n: nat, g: nat)
    ensures Clmul(Pow2(n), g) == g * Pow2(n)
  {
    if n == 0 {
      XorZero(g);
      assert Clmul(0, g) == 0;
    } else {
      ClmulShift(n - 1, g);
      var half := Pow2(n - 1);
      ClmulStep(2 * half, g);
      XorZero(2 * Clmul(half, g));
      MulDouble(g, half);
    }
  }

  lemma MulDouble(g: nat, p: nat)
    ensures g * (2 * p) == 2 * (g * p)
  {
  }

  lemma DividesSum(g: nat, x: nat, y: nat)
    requires Divides(g, x) && Divides(g, y)
    ensures Divides(g, Xor(x, y))
  {
    var p: nat :| Clmul(p, g) == x;
    var q: nat :| Clmul(q, g) == y;
    ClmulSum(p, q, g);
  }

  lemma DividesCancel(rem: nat, g: nat, degree: nat, i: nat)
    requires degree <= i
    ensures Divides(g, Xor(rem, Cancel(rem, g, degree, i)))
  {
    if BitAt(rem, i) == 1 {
      var m := g * Pow2(i - degree);
      XorAssoc(rem, rem, m);
      XorSelf(rem);
      XorZero(m);
      ClmulShift(i - degree, g);
    } else {
      XorSelf(rem);
      assert Clmul(0, g) == 0;
    }
  }

  /** Reducing changes a number by a multiple of the generator. */
  lemma {:induction false} ReduceCongruent(rem: nat, g: nat, degree: nat, i: int)
    ensures Divides(g, Xor(rem, Reduce(rem, g, degree, i)))
    decreases i
  {
    if i < degree {
      XorSelf(rem);
      assert Clmul(0, g) == 0;
    } else {
      var next := Cancel(rem, g, degree, i);
      var last := Reduce(next, g, degree, i - 1);
      DividesCancel(rem, g, degree, i);
      ReduceCongruent(next, g, degree, i - 1);
      DividesSum(g, Xor(rem, next), Xor(next, last));
      XorAssoc(Xor(rem, next), next, last);
      XorCancel(rem, next);
    }
  }

  lemma BitIsTop(x: nat, i: nat)
    requires x < 2 * Pow2(i)
    ensures BitAt(x, i) == 1 <==> x >= Pow2(i)
  {
    var d := Pow2(i);
    if x < d {
      QuotientUnique(x, d, 0, x);
    } else {
      QuotientUnique(x, d, 1, x - d);
    }
  }

  lemma ScaledBounds(g: nat, p: nat, s: nat)
    requires p <= g < 2 * p && s > 0
    ensures p * s <= g * s < 2 * (p * s)
  {
    MulBounds(2 * p - g, s);
    assert (2 * p - g) * s == 2 * (p * s) - g * s;
    assert (g - p) * s == g * s - p * s;
    assert (g - p) * s >= 0;
  }

  lemma CancelShrinks(rem: nat, g: nat, degree: nat, i: nat)
    requires degree <= i && Pow2(degree) <= g < 2 * Pow2(degree) && rem < 2 * Pow2(i)
    ensures Cancel(rem, g, degree, i) < Pow2(i)
  {
    BitIsTop(rem, i);
    PowSum(degree, i - degree);
    ScaledBounds(g, Pow2(degree), Pow2(i - degree));
    XorTop(rem, g * Pow2(i - degree), i);
  }

  lemma {:induction false} ReduceSmall(rem: nat, g: nat, degree: nat, i: int)
    requires Pow2(degree) <= g < 2 * Pow2(degree)
    requires i >= degree - 1 && rem < Pow2(i + 1)
    ensures Reduce(rem, g, degree, i) < Pow2(degree)
    decreases i
  {
    if i >= degree {
      CancelShrinks(rem, g, degree, i);
      ReduceSmall(Cancel(rem, g, degree, i), g, degree, i - 1);
    }
  }

  /** A shifted value and a remainder below it do not overlap. */
  lemma {:induction false} XorDisjoint(a: nat, b: nat, k: nat)
    requires b < Pow2(k)
    ensures Xor(a * Pow2(k), b) == a * Pow2(k) + b
  {
    if k == 0 {
      XorZero(a);
    } else {
      MulDouble(a, Pow2(k - 1));
      XorDisjoint(a, b / 2, k - 1);
      XorShifted(a * Pow2(k - 1), b);
    }
  }

  lemma XorShifted(half: nat, b: nat)
    requires Xor(half, b / 2) == half + b / 2
    ensures Xor(2 * half, b) == 2 * half + b
  {
    XorStep(2 * half, b);
  }

  lemma {:induction false} XorScaled(a: nat, b: nat, k: nat)
    ensures Xor(a * Pow2(k), b * Pow2(k)) == Xor(a, b) * Pow2(k)
  {
    if k > 0 {
      XorScaled(a, b, k - 1);
      ScaledUp(a, k);
      ScaledUp(b, k);
      ScaledUp(Xor(a, b), k);
      XorDoubled(a * Pow2(k - 1), b * Pow2(k - 1), Xor(a, b) * Pow2(k - 1));
    }
  }

  lemma ScaledUp(a: nat, k: nat)
    requires k > 0
    ensures a * Pow2(k) == 2 * (a * Pow2(k - 1))
  {
    MulDouble(a, Pow2(k - 1));
  }

  lemma XorDoubled(x: nat, y: nat, z: nat)
    requires Xor(x, y) == z
    ensures Xor(2 * x, 2 * y) == 2 * z
  {
    DoubleXor(x, y);
  }

  /** The two halves of a number are exclusive-ored separately. */
  lemma XorHalves(a: nat, r: nat, b: nat, s: nat, k: nat)
    requires r < Pow2(k) && s < Pow2(k)
    ensures Xor(r, s) < Pow2(k)
    ensures Xor(a * Pow2(k) + r, b * Pow2(k) + s) == Xor(a, b) * Pow2(k) + Xor(r, s)
  {
    if k == 0 {
      assert Xor(0, 0) == 0;
    } else {
      XorTop(r, s, k - 1);
    }
    XorDisjoint(a, r, k);
    XorDisjoint(b, s, k);
    XorExchange(a * Pow2(k), r, b * Pow2(k), s);
    XorScaled(a, b, k);
    XorDisjoint(Xor(a, b), Xor(r, s), k);
  }

  lemma PowersOfTwo()
    ensures Pow2(10) == 1024 && Pow2(12) == 4096 && Pow2(15) == 32768 && Pow2(18) == 262144
  {
    assert Pow2(5) == 32;
    PowSum(5, 5);
    PowSum(10, 2);
    PowSum(10, 5);
    PowSum(15, 3);
  }

  /** The version block carries the version in its top six bits and is a
      multiple of the generator. */
  lemma VersionCodeword(version: nat)
    requires version < 64
    ensures VersionCode(version) / 4096 == version
    ensures Divides(VERSION_GENERATOR, VersionCode(version))
  {
    PowersOfTwo();
    var x := version * 4096;
    ReduceSmall(x, VERSION_GENERATOR, 12, 17);
    ReduceCongruent(x, VERSION_GENERATOR, 12, 17);
    XorDisjoint(version, Reduce(x, VERSION_GENERATOR, 12, 17), 12);
  }

  lemma FormatReduced(mask: nat)
    requires mask < 32
    ensures var r := Reduce(mask * 1024, FORMAT_GENERATOR, 10, 14);
      r < 1024 && Divides(FORMAT_GENERATOR, mask * 1024 + r)
  {
    PowersOfTwo();
    var x := mask * 1024;
    ReduceSmall(x, FORMAT_GENERATOR, 10, 14);
    ReduceCongruent(x, FORMAT_GENERATOR, 10, 14);
    XorDisjoint(mask, Reduce(x, FORMAT_GENERATOR, 10, 14), 10);
  }

  lemma FormatTop(mask: nat, r: nat)
    requires r < 1024
    ensures Xor(mask * 1024 + r, FORMAT_MASK) / 1024 == Xor(mask, 21)
  {
    PowersOfTwo();
    XorHalves(mask, r, 21, 18, 10);
  }

  lemma MaskedTwice(x: nat, y: nat, m: nat)
    requires y == Xor(x, m)
    ensures Xor(y, m) == x
  {
    XorCancel(x, m);
  }

  /** So does the format block, before the fixed mask is applied: its top five
      bits are level M, which is 00, and the mask number. */
  lemma FormatCodeword(mask: nat)
    requires mask < 32
    ensures Divides(FORMAT_GENERATOR, Xor(FormatCode(mask), FORMAT_MASK))
    ensures FormatCode(mask) / 1024 == Xor(mask, 21)
  {
    FormatReduced(mask);
    var r := Reduce(mask * 1024, FORMAT_GENERATOR, 10, 14);
    FormatTop(mask, r);
    MaskedTwice(mask * 1024 + r, FormatCode(mask), FORMAT_MASK);
  }
}
