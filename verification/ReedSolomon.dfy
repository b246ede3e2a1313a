/** The Reed-Solomon half of ham/qr.py: polynomials over GF(256), highest power
    first, and the remainder by the generator. */
module ReedSolomon {
  import opened GaloisField
  import opened Bits

  type Poly = seq<Byte>

  function Zeros(n: nat): (p: Poly)
    ensures |p| == n && forall k :: 0 <= k < n ==> p[k] == 0
  {
    seq(n, _ => 0)
  }

  /** Horner's rule. */
  ghost function Eval(p: Poly, x: Byte): Byte {
    if |p| == 0 then 0 else Add(Mul(Eval(p[..|p| - 1], x), x), p[|p| - 1])
  }

  ghost function Power(x: Byte, n: nat): Byte {
    if n == 0 then 1 else Mul(Power(x, n - 1), x)
  }

  function Sum(p: Poly, q: Poly): (s: Poly)
    requires |p| == |q|
    ensures |s| == |p| && forall k :: 0 <= k < |p| ==> s[k] == Add(p[k], q[k])
  {
    seq(|p|, k requires 0 <= k < |p| => Add(p[k], q[k]))
  }

  ghost function Scale(c: Byte, p: Poly): (s: Poly)
    ensures |s| == |p| && forall k :: 0 <= k < |p| ==> s[k] == Mul(c, p[k])
  {
    seq(|p|, k requires 0 <= k < |p| => Mul(c, p[k]))
  }

  // ---- evaluation is linear -------------------------------------------------

  lemma EvalPush(p: Poly, c: Byte, x: Byte)
    ensures Eval(p + [c], x) == Add(Mul(Eval(p, x), x), c)
  {
    assert (p + [c])[..|p|] == p;
  }

  lemma {:induction false} EvalZeros(n: nat, x: Byte)
    ensures Eval(Zeros(n), x) == 0
  {
    if n > 0 {
      EvalZeros(n - 1, x);
      assert Zeros(n) == Zeros(n - 1) + [0];
      EvalPush(Zeros(n - 1), 0, x);
      XorZero(0);
    }
  }

  lemma {:induction false} EvalSum(p: Poly, q: Poly, x: Byte)
    requires |p| == |q|
    ensures Eval(Sum(p, q), x) == Add(Eval(p, x), Eval(q, x))
  {
    if |p| == 0 {
      XorZero(0);
    } else {
      var n := |p| - 1;
      var a, b := p[..n], q[..n];
      EvalSum(a, b, x);
      assert Sum(p, q) == Sum(a, b) + [Add(p[n], q[n])];
      EvalPush(Sum(a, b), Add(p[n], q[n]), x);
      SumStep(Eval(a, x), Eval(b, x), p[n], q[n], x);
    }
  }

  lemma SumStep(a: Byte, b: Byte, c: Byte, d: Byte, x: Byte)
    ensures Add(Mul(Add(a, b), x), Add(c, d)) == Add(Add(Mul(a, x), c), Add(Mul(b, x), d))
  {
    MulDistribLeft(a, b, x);
    AddExchange(Mul(a, x), Mul(b, x), c, d);
  }

  lemma {:induction false} EvalScale(c: Byte, p: Poly, x: Byte)
    ensures Eval(Scale(c, p), x) == Mul(c, Eval(p, x))
  {
    if |p| > 0 {
      var n := |p| - 1;
      var a := p[..n];
      EvalScale(c, a, x);
      assert Scale(c, p) == Scale(c, a) + [Mul(c, p[n])];
      EvalPush(Scale(c, a), Mul(c, p[n]), x);
      MulAssoc(c, Eval(a, x), x);
      MulDistrib(c, Mul(Eval(a, x), x), p[n]);
    }
  }

  lemma {:induction false} EvalConcat(p: Poly, q: Poly, x: Byte)
    ensures Eval(p + q, x) == Add(Mul(Eval(p, x), Power(x, |q|)), Eval(q, x))
  {
    if |q| == 0 {
      assert p + q == p;
      MulOne(Eval(p, x));
      XorZero(Eval(p, x));
    } else {
      var n := |q| - 1;
      var b := q[..n];
      EvalConcat(p, b, x);
      assert p + q == (p + b) + [q[n]];
      EvalPush(p + b, q[n], x);
      ConcatStep(Eval(p, x), Power(x, n), Eval(b, x), q[n], x);
    }
  }

  lemma ConcatStep(p: Byte, w: Byte, b: Byte, c: Byte, x: Byte)
    ensures Add(Mul(Add(Mul(p, w), b), x), c) == Add(Mul(p, Mul(w, x)), Add(Mul(b, x), c))
  {
    MulDistribLeft(Mul(p, w), b, x);
    MulAssoc(p, w, x);
    AddAssoc(Mul(p, Mul(w, x)), Mul(b, x), c);
  }

  lemma EvalTrailingZeros(p: Poly, n: nat, x: Byte)
    ensures Eval(p + Zeros(n), x) == Mul(Eval(p, x), Power(x, n))
  {
    EvalConcat(p, Zeros(n), x);
    EvalZeros(n, x);
    XorZero(Mul(Eval(p, x), Power(x, n)));
  }

  lemma EvalLeadingZeros(n: nat, p: Poly, x: Byte)
    ensures Eval(Zeros(n) + p, x) == Eval(p, x)
  {
    EvalConcat(Zeros(n), p, x);
    EvalZeros(n, x);
    XorZero(Eval(p, x));
  }

  // ---- products -------------------------------------------------------------

  /** What the product's list holds once the first i terms of a are done. */
  ghost function PartialProduct(a: Poly, b: Poly, i: nat): (p: Poly)
    requires |a| > 0 && |b| > 0 && i <= |a|
    ensures |p| == |a| + |b| - 1
  {
    if i == 0 then Zeros(|a| + |b| - 1)
    else Sum(PartialProduct(a, b, i - 1), Term(a, b, i - 1))
  }

  /** One term of a times b, shifted into place. */
  ghost function Term(a: Poly, b: Poly, i: nat): (p: Poly)
    requires i < |a| && |b| > 0
    ensures |p| == |a| + |b| - 1
  {
    Zeros(i) + Scale(a[i], b) + Zeros(|a| - 1 - i)
  }

  ghost function Product(a: Poly, b: Poly): (p: Poly)
    requires |a| > 0 && |b| > 0
    ensures |p| == |a| + |b| - 1
  {
    PartialProduct(a, b, |a|)
  }

  lemma EvalTerm(a: Poly, b: Poly, i: nat, x: Byte)
    requires i < |a| && |b| > 0
    ensures Eval(Term(a, b, i), x) == Mul(Mul(a[i], Eval(b, x)), Power(x, |a| - 1 - i))
  {
    EvalTrailingZeros(Zeros(i) + Scale(a[i], b), |a| - 1 - i, x);
    EvalLeadingZeros(i, Scale(a[i], b), x);
    EvalScale(a[i], b, x);
  }

  lemma EvalPrefix(a: Poly, i: nat, x: Byte)
    requires 0 < i <= |a|
    ensures Eval(a[..i], x) == Add(Mul(Eval(a[..i - 1], x), x), a[i - 1])
  {
    assert a[..i] == a[..i - 1] + [a[i - 1]];
    EvalPush(a[..i - 1], a[i - 1], x);
  }

  lemma {:induction false} EvalPartial(a: Poly, b: Poly, i: nat, x: Byte)
    requires |a| > 0 && |b| > 0 && i <= |a|
    ensures Eval(PartialProduct(a, b, i), x)
         == Mul(Mul(Eval(a[..i], x), Eval(b, x)), Power(x, |a| - i))
  {
    if i == 0 {
      EvalZeros(|a| + |b| - 1, x);
    } else {
      var w := |a| - i;
      EvalPartial(a, b, i - 1, x);
      assert Power(x, |a| - (i - 1)) == Mul(Power(x, w), x);
      EvalSum(PartialProduct(a, b, i - 1), Term(a, b, i - 1), x);
      EvalTerm(a, b, i - 1, x);
      EvalPrefix(a, i, x);
      PartialStep(Eval(a[..i - 1], x), a[i - 1], Eval(b, x), Power(x, w), x);
    }
  }

  lemma PartialStep(e: Byte, c: Byte, b: Byte, w: Byte, x: Byte)
    ensures Add(Mul(Mul(e, b), Mul(w, x)), Mul(Mul(c, b), w)) == Mul(Mul(Add(Mul(e, x), c), b), w)
  {
    MulDistribLeft(Mul(e, x), c, b);
    MulDistribLeft(Mul(Mul(e, x), b), Mul(c, b), w);
    MulAssoc(e, x, b);
    MulComm(x, b);
    MulAssoc(e, b, x);
    MulAssoc(Mul(e, b), x, w);
    MulComm(x, w);
  }

  /** Multiplying polynomials commutes with evaluating them. */
  lemma EvalProduct(a: Poly, b: Poly, x: Byte)
    requires |a| > 0 && |b| > 0
    ensures Eval(Product(a, b), x) == Mul(Eval(a, x), Eval(b, x))
  {
    EvalPartial(a, b, |a|, x);
    assert a[..|a|] == a;
    MulOne(Mul(Eval(a, x), Eval(b, x)));
  }

  /** The inner loop both algorithms share: exclusive-or c times b into the
      list at offset i, from the j-th term on, skipping zero terms. */
  method AddScaled(t: Tables, c: Byte, b: Poly, from: nat, out: array<Byte>, i: nat)
    requires t.Valid() && c != 0
    requires from <= |b| && i + |b| <= out.Length
    modifies out
    ensures forall k :: 0 <= k < out.Length ==>
      out[k] == if i + from <= k < i + |b| then Add(old(out[k]), Mul(c, b[k - i])) else old(out[k])
  {
    for j := from to |b|
      invariant forall k :: 0 <= k < out.Length ==>
        out[k] == if i + from <= k < i + j then Add(old(out[k]), Mul(c, b[k - i])) else old(out[k])
    {
      if b[j] != 0 {
        out[i + j] := Add(out[i + j], t.Product(c, b[j]));
      } else {
        XorZero(out[i + j]);
      }
    }
  }

  method PolyMul(t: Tables, a: Poly, b: Poly) returns (r: Poly)
    requires t.Valid() && |a| > 0 && |b| > 0
    ensures r == Product(a, b)
  {
    var out := new Byte[|a| + |b| - 1](_ => 0);
    for i := 0 to |a|
      invariant out[..] == PartialProduct(a, b, i)
    {
      ghost var before := out[..];
      if a[i] != 0 {
        AddScaled(t, a[i], b, 0, out, i);
      }
      TermDone(a, b, i, before, out[..]);
    }
    r := out[..];
  }

  lemma TermDone(a: Poly, b: Poly, i: nat, before: Poly, after: Poly)
    requires i < |a| && |b| > 0 && |before| == |after| == |a| + |b| - 1
    requires forall k :: 0 <= k < |after| ==>
      after[k] == if a[i] != 0 && i <= k < i + |b| then Add(before[k], Mul(a[i], b[k - i])) else before[k]
    ensures after == Sum(before, Term(a, b, i))
  {
    forall k | 0 <= k < |after|
      ensures after[k] == Add(before[k], Term(a, b, i)[k])
    {
      XorZero(before[k]);
    }
  }

  // ---- the generator and the remainder --------------------------------------

  /** (x + 1)(x + alpha) ... (x + alpha^(n-1)) */
  ghost function Generator(n: nat): (g: Poly)
    ensures |g| == n + 1
  {
    if n == 0 then [1] else Product(Generator(n - 1), [1, Alpha(n - 1)])
  }

  lemma EvalFactor(c: Byte, x: Byte)
    ensures Eval([1, c], x) == Add(x, c)
  {
    EvalPush([], 1, x);
    assert [] + [1] == [1];
    XorZero(1);
    EvalPush([1], c, x);
    assert [1] + [c] == [1, c];
    MulOne(x);
  }

  lemma GeneratorStep(n: nat, x: Byte)
    requires n > 0
    ensures Eval(Generator(n), x) == Mul(Eval(Generator(n - 1), x), Add(x, Alpha(n - 1)))
  {
    EvalProduct(Generator(n - 1), [1, Alpha(n - 1)], x);
    EvalFactor(Alpha(n - 1), x);
  }

  /** The generator vanishes at alpha^0 .. alpha^(n-1). */
  lemma {:induction false} GeneratorRoots(n: nat, i: nat)
    requires i < n
    ensures Eval(Generator(n), Alpha(i)) == 0
  {
    GeneratorStep(n, Alpha(i));
    if i == n - 1 {
      XorSelf(Alpha(i));
    } else {
      GeneratorRoots(n - 1, i);
    }
  }

  lemma {:induction false} PartialHead(a: Poly, b: Poly, i: nat)
    requires |a| > 0 && |b| > 0 && 0 < i <= |a|
    ensures PartialProduct(a, b, i)[0] == Mul(a[0], b[0])
  {
    XorZero(Mul(a[0], b[0]));
    if i == 1 {
      assert Term(a, b, 0)[0] == Scale(a[0], b)[0];
    } else {
      PartialHead(a, b, i - 1);
      assert Term(a, b, i - 1)[0] == 0;
    }
  }

  lemma {:induction false} GeneratorMonic(n: nat)
    ensures Generator(n)[0] == 1
  {
    if n > 0 {
      GeneratorMonic(n - 1);
      var g, factor := Generator(n - 1), [1, Alpha(n - 1)];
      PartialHead(g, factor, n);
      MulOne(g[0]);
    }
  }

  /** One turn of the division: the head is cancelled by a multiple of the
      generator, which changes nothing at the generator's roots. */
  lemma DivideStep(m: Poly, m': Poly, gen: Poly, x: Byte)
    requires |m| == |m'| >= |gen| > 0 && gen[0] == 1
    requires forall k :: 0 <= k < |m| ==>
      m'[k] == if m[0] != 0 && 1 <= k < |gen| then Add(m[k], Mul(m[0], gen[k])) else m[k]
    requires Eval(gen, x) == 0
    ensures Eval(m'[1..], x) == Eval(m, x)
  {
    EvalLeadingZeros(1, m'[1..], x);
    if m[0] == 0 {
      assert m == Zeros(1) + m'[1..];
    } else {
      var multiple := Scale(m[0], gen) + Zeros(|m| - |gen|);
      DivideSum(m, m', gen, multiple);
      EvalSum(m, multiple, x);
      EvalTrailingZeros(Scale(m[0], gen), |m| - |gen|, x);
      EvalScale(m[0], gen, x);
      XorZero(Eval(m, x));
    }
  }

  lemma DivideSum(m: Poly, m': Poly, gen: Poly, multiple: Poly)
    requires |m| == |m'| >= |gen| > 0 && gen[0] == 1 && m[0] != 0
    requires forall k :: 0 <= k < |m| ==>
      m'[k] == if 1 <= k < |gen| then Add(m[k], Mul(m[0], gen[k])) else m[k]
    requires multiple == Scale(m[0], gen) + Zeros(|m| - |gen|)
    ensures Sum(m, multiple) == Zeros(1) + m'[1..]
  {
    MulOne(m[0]);
    XorSelf(m[0]);
    forall k | 0 < k < |m|
      ensures Sum(m, multiple)[k] == m'[k]
    {
      XorZero(m[k]);
    }
  }

  method BuildGenerator(t: Tables, degree: nat) returns (gen: Poly)
    requires t.Valid() && degree <= 512
    ensures gen == Generator(degree)
  {
    gen := [1];
    for i := 0 to degree
      invariant gen == Generator(i)
    {
      gen := PolyMul(t, gen, [1, t.exp[i]]);
    }
  }

  ghost predicate IsCodeword(p: Poly, degree: nat) {
    forall i :: 0 <= i < degree ==> Eval(p, Alpha(i)) == 0
  }

  ghost predicate AgreeAtRoots(p: Poly, q: Poly, degree: nat) {
    forall i :: 0 <= i < degree ==> Eval(p, Alpha(i)) == Eval(q, Alpha(i))
  }

  lemma DivideTurn(m: Poly, m': Poly, whole: Poly, degree: nat)
    requires |m| == |m'| > degree
    requires AgreeAtRoots(m, whole, degree)
    requires var gen := Generator(degree); forall k :: 0 <= k < |m| ==>
      m'[k] == if m[0] != 0 && 1 <= k < |gen| then Add(m[k], Mul(m[0], gen[k])) else m[k]
    ensures AgreeAtRoots(m'[1..], whole, degree)
  {
    GeneratorMonic(degree);
    forall i | 0 <= i < degree
      ensures Eval(m'[1..], Alpha(i)) == Eval(whole, Alpha(i))
    {
      GeneratorRoots(degree, i);
      DivideStep(m, m', Generator(degree), Alpha(i));
    }
  }

  lemma RemainderCompletes(data: Poly, r: Poly, degree: nat)
    requires |r| == degree
    requires AgreeAtRoots(r, data + Zeros(degree), degree)
    ensures IsCodeword(data + r, degree)
  {
    forall i | 0 <= i < degree
      ensures Eval(data + r, Alpha(i)) == 0
    {
      EvalTrailingZeros(data, degree, Alpha(i));
      EvalConcat(data, r, Alpha(i));
      XorSelf(Eval(r, Alpha(i)));
    }
  }

  /** The error-correction codewords of one block. */
  method RsRemainder(t: Tables, data: Poly, degree: nat) returns (r: Poly)
    requires t.Valid() && degree <= 512
    ensures |r| == degree && IsCodeword(data + r, degree)
  {
    var gen := BuildGenerator(t, degree);
    var start := data + Zeros(degree);
    var msg := new Byte[|start|](k requires 0 <= k < |start| => start[k]);
    assert msg[..] == start;
    for i := 0 to |data|
      invariant AgreeAtRoots(msg[i..], start, degree)
    {
      ghost var m := msg[i..];
      var coef := msg[i];
      if coef != 0 {
        AddScaled(t, coef, gen, 1, msg, i);
      }
      DivideTurn(m, msg[i..], start, degree);
      assert msg[i..][1..] == msg[i + 1..];
    }
    r := msg[|data|..];
    RemainderCompletes(data, r, degree);
  }

  // ---- no other remainder would do ------------------------------------------

  /** Synthetic division by (x + r). */
  ghost function Quotient(p: Poly, r: Byte): (q: Poly)
    requires |p| > 0
    ensures |q| == |p| - 1 && forall k :: 0 <= k < |q| ==> q[k] == Eval(p[..k + 1], r)
  {
    seq(|p| - 1, k requires 0 <= k < |p| - 1 => Eval(p[..k + 1], r))
  }

  lemma {:induction false} FactorTheorem(p: Poly, r: Byte, x: Byte)
    requires |p| > 0
    ensures Eval(p, x) == Add(Mul(Eval(Quotient(p, r), x), Add(x, r)), Eval(p, r))
  {
    var n := |p| - 1;
    var a, c := p[..n], p[n];
    if n == 0 {
      XorZero(c);
    } else {
      FactorTheorem(a, r, x);
      forall k | 0 <= k < n
        ensures Quotient(p, r)[k] == (Quotient(a, r) + [Eval(a, r)])[k]
      {
        assert p[..k + 1] == a[..k + 1];
        assert a[..n] == a;
      }
      assert Quotient(p, r) == Quotient(a, r) + [Eval(a, r)];
      EvalPush(Quotient(a, r), Eval(a, r), x);
      FactorStep(Eval(a, x), Eval(a, r), Eval(Quotient(a, r), x), c, r, x);
    }
  }

  lemma FactorStep(ax: Byte, ar: Byte, q: Byte, c: Byte, r: Byte, x: Byte)
    requires ax == Add(Mul(q, Add(x, r)), ar)
    ensures Add(Mul(ax, x), c) == Add(Mul(Add(Mul(q, x), ar), Add(x, r)), Add(Mul(ar, r), c))
  {
    var s := Add(x, r);
    var u, v := Mul(Mul(q, x), s), Mul(ar, s);
    MulDistribLeft(Mul(q, s), ar, x);
    MulAssoc(q, s, x);
    MulComm(s, x);
    MulAssoc(q, x, s);
    assert Mul(ax, x) == Add(u, Mul(ar, x));
    MulDistribLeft(Mul(q, x), ar, s);
    MulDistrib(ar, x, r);
    XorCancel(Mul(ar, x), Mul(ar, r));
    assert Add(v, Mul(ar, r)) == Mul(ar, x);
    AddAssoc(Add(u, v), Mul(ar, r), c);
    AddAssoc(u, v, Mul(ar, r));
  }

  lemma {:induction false} XorZeroMeansEqual(a: Byte, b: Byte)
    requires Add(a, b) == 0
    ensures a == b
  {
    XorCancel(a, b);
    XorZero(b);
  }

  /** A polynomial with as many roots among the powers of alpha as it has
      coefficients is zero. */
  lemma {:induction false} TooManyRoots(p: Poly)
    requires |p| <= 255 && IsCodeword(p, |p|)
    ensures p == Zeros(|p|)
    decreases |p|
  {
    if |p| > 0 {
      var n := |p| - 1;
      var r := Alpha(n);
      var q := Quotient(p, r);
      forall i | 0 <= i < n
        ensures Eval(q, Alpha(i)) == 0
      {
        FactorTheorem(p, r, Alpha(i));
        AlphaInjective(i, n);
        XorZero(Mul(Eval(q, Alpha(i)), Add(Alpha(i), r)));
        if Add(Alpha(i), r) == 0 {
          XorZeroMeansEqual(Alpha(i), r);
        } else if Eval(q, Alpha(i)) != 0 {
          MulNonZero(Eval(q, Alpha(i)), Add(Alpha(i), r));
        }
      }
      TooManyRoots(q);
      forall k | 0 <= k < |p|
        ensures p[k] == 0
      {
        VanishingPrefix(p, r, k);
      }
    }
  }

  lemma PrefixVanishes(p: Poly, r: Byte, k: nat)
    requires 0 < |p| && k <= |p| && Quotient(p, r) == Zeros(|p| - 1) && Eval(p, r) == 0
    ensures Eval(p[..k], r) == 0
  {
    if k == |p| {
      assert p[..k] == p;
    } else if k > 0 {
      assert Quotient(p, r)[k - 1] == Zeros(|p| - 1)[k - 1];
    }
  }

  lemma VanishingPrefix(p: Poly, r: Byte, k: nat)
    requires k < |p| && Quotient(p, r) == Zeros(|p| - 1) && Eval(p, r) == 0
    ensures p[k] == 0
  {
    PrefixVanishes(p, r, k);
    PrefixVanishes(p, r, k + 1);
    EvalPrefix(p, k + 1, r);
    XorZero(p[k]);
  }

  /** The remainder is determined: only one tail makes the block a codeword. */
  lemma RemainderUnique(data: Poly, r: Poly, s: Poly)
    requires |r| == |s| <= 255
    requires IsCodeword(data + r, |r|) && IsCodeword(data + s, |r|)
    ensures r == s
  {
    var d := Sum(r, s);
    forall i | 0 <= i < |d|
      ensures Eval(d, Alpha(i)) == 0
    {
      var x := Alpha(i);
      EvalConcat(data, r, x);
      EvalConcat(data, s, x);
      XorZeroMeansEqual(Mul(Eval(data, x), Power(x, |r|)), Eval(r, x));
      XorZeroMeansEqual(Mul(Eval(data, x), Power(x, |r|)), Eval(s, x));
      EvalSum(r, s, x);
      XorSelf(Eval(r, x));
    }
    TooManyRoots(d);
    forall k | 0 <= k < |r|
      ensures r[k] == s[k]
    {
      assert d[k] == 0;
      XorZeroMeansEqual(r[k], s[k]);
    }
  }

  // ---- how far two codewords are apart --------------------------------------

  ghost function Support(p: Poly): (s: set<nat>)
    ensures forall k: nat :: k in s <==> k < |p| && p[k] != 0
  {
    set k: nat | k < |p| && p[k] != 0
  }

  /** In how many places two blocks differ. */
  ghost function Distance(p: Poly, q: Poly): nat
    requires |p| == |q|
  {
    |Support(Sum(p, q))|
  }

  /** Each coefficient times the power of alpha of its place. */
  ghost function Stretched(p: Poly): (s: Poly)
    ensures |s| == |p| && forall k :: 0 <= k < |p| ==> s[k] == Mul(p[k], Alpha(|p| - 1 - k))
  {
    seq(|p|, k requires 0 <= k < |p| => Mul(p[k], Alpha(|p| - 1 - k)))
  }

  lemma StretchPush(p: Poly, c: Byte)
    ensures Stretched(p + [c]) == Scale(Alpha(1), Stretched(p)) + [c]
  {
    MulOne(c);
    forall k | 0 <= k < |p|
      ensures Stretched(p + [c])[k] == Mul(Alpha(1), Stretched(p)[k])
    {
      StretchPlace(p[k], |p| - 1 - k);
    }
  }

  lemma StretchPlace(c: Byte, k: nat)
    ensures Mul(c, Alpha(k + 1)) == Mul(Alpha(1), Mul(c, Alpha(k)))
  {
    AlphaNext(k);
    MulAssoc(c, Alpha(1), Alpha(k));
    MulComm(c, Alpha(1));
    MulAssoc(Alpha(1), c, Alpha(k));
  }

  lemma AlphaNext(k: nat)
    ensures Alpha(k + 1) == Mul(Alpha(1), Alpha(k))
  {
    MulIsShift(Alpha(1), Alpha(k));
    LogOfAlpha(1);
  }

  /** Stretching a polynomial moves its values one root on. */
  lemma {:induction false} EvalStretched(p: Poly, x: Byte)
    ensures Eval(Stretched(p), x) == Eval(p, Mul(Alpha(1), x))
  {
    if |p| > 0 {
      var n := |p| - 1;
      var a, c := p[..n], p[n];
      assert p == a + [c];
      EvalStretched(a, x);
      StretchPush(a, c);
      EvalPush(Scale(Alpha(1), Stretched(a)), c, x);
      EvalScale(Alpha(1), Stretched(a), x);
      StretchStep(Alpha(1), Eval(Stretched(a), x), x);
    }
  }

  lemma StretchStep(w: Byte, e: Byte, x: Byte)
    ensures Mul(Mul(w, e), x) == Mul(e, Mul(w, x))
  {
    MulComm(w, e);
    MulAssoc(e, w, x);
  }

  /** The block with place t struck out: every other coefficient times a nonzero
      factor. */
  ghost function Struck(p: Poly, t: nat): Poly
    requires t < |p|
  {
    Sum(Stretched(p), Scale(Alpha(|p| - 1 - t), p))
  }

  lemma StruckAt(p: Poly, t: nat, k: nat)
    requires t < |p| <= 255 && k < |p|
    ensures Struck(p, t)[k] == 0 <==> k == t || p[k] == 0
  {
    var u, v := Alpha(|p| - 1 - k), Alpha(|p| - 1 - t);
    MulComm(v, p[k]);
    MulDistrib(p[k], u, v);
    if k == t {
      XorSelf(Mul(p[k], u));
    } else {
      PlacesDiffer(|p|, k, t);
      if Add(u, v) == 0 {
        XorZeroMeansEqual(u, v);
      } else if p[k] != 0 {
        MulNonZero(p[k], Add(u, v));
      }
    }
  }

  lemma PlacesDiffer(n: nat, k: nat, t: nat)
    requires n <= 255 && k < n && t < n && k != t
    ensures Alpha(n - 1 - k) != Alpha(n - 1 - t)
  {
    if k < t {
      AlphaInjective(n - 1 - t, n - 1 - k);
    } else {
      AlphaInjective(n - 1 - k, n - 1 - t);
    }
  }

  lemma StruckSupport(p: Poly, t: nat)
    requires t < |p| <= 255
    ensures Support(Struck(p, t)) == Support(p) - {t}
  {
    forall k: nat
      ensures k in Support(Struck(p, t)) <==> k in Support(p) - {t}
    {
      if k < |p| {
        StruckAt(p, t, k);
      }
    }
  }

  /** Striking out a place costs one root. */
  lemma StruckVanishes(p: Poly, t: nat, degree: nat)
    requires t < |p| && IsCodeword(p, degree + 1)
    ensures IsCodeword(Struck(p, t), degree)
  {
    var c := Alpha(|p| - 1 - t);
    forall i | 0 <= i < degree
      ensures Eval(Struck(p, t), Alpha(i)) == 0
    {
      EvalSum(Stretched(p), Scale(c, p), Alpha(i));
      EvalStretched(p, Alpha(i));
      AlphaNext(i);
      EvalScale(c, p, Alpha(i));
      XorZero(0);
    }
  }

  /** A block with few nonzero places that vanishes at as many roots is zero. */
  lemma {:induction false} TooFewPlaces(p: Poly, degree: nat)
    requires |p| <= 255 && IsCodeword(p, degree) && |Support(p)| <= degree
    ensures Support(p) == {}
    decreases degree
  {
    if t :| t in Support(p) {
      StruckSupport(p, t);
      StruckVanishes(p, t, degree - 1);
      TooFewPlaces(Struck(p, t), degree - 1);
      OnePlace(p, t);
    }
  }

  /** A block with one nonzero place does not vanish at the first root. */
  lemma OnePlace(p: Poly, t: nat)
    requires t < |p| && p[t] != 0 && Support(p) <= {t}
    ensures Eval(p, Alpha(0)) != 0
  {
    var tail := |p| - 1 - t;
    forall k | 0 <= k < |p| && k != t
      ensures p[k] == 0
    {
      assert k !in Support(p);
    }
    assert p == Zeros(t) + [p[t]] + Zeros(tail);
    EvalTrailingZeros(Zeros(t) + [p[t]], tail, Alpha(0));
    EvalLeadingZeros(t, [p[t]], Alpha(0));
    EvalPush([], p[t], Alpha(0));
    assert [] + [p[t]] == [p[t]];
    XorZero(p[t]);
    PowerOfOne(Alpha(0), tail);
    MulOne(p[t]);
  }

  lemma {:induction false} PowerOfOne(one: Byte, n: nat)
    requires one == 1
    ensures Power(one, n) == 1
  {
    if n > 0 {
      PowerOfOne(one, n - 1);
      MulOne(one);
    }
  }

  /** Two different codewords of one length differ in more places than there are
      error-correction codewords. */
  lemma MinimumDistance(p: Poly, q: Poly, degree: nat)
    requires |p| == |q| <= 255 && IsCodeword(p, degree) && IsCodeword(q, degree)
    ensures p == q || Distance(p, q) > degree
  {
    var d := Sum(p, q);
    forall i | 0 <= i < degree
      ensures Eval(d, Alpha(i)) == 0
    {
      EvalSum(p, q, Alpha(i));
      XorZero(0);
    }
    if |Support(d)| <= degree {
      TooFewPlaces(d, degree);
      NoDifference(p, q);
    }
  }

  lemma NoDifference(p: Poly, q: Poly)
    requires |p| == |q| && Support(Sum(p, q)) == {}
    ensures p == q
  {
    forall k | 0 <= k < |p|
      ensures p[k] == q[k]
    {
      assert k !in Support(Sum(p, q));
      XorZeroMeansEqual(p[k], q[k]);
    }
  }

  /** Differences add up at most. */
  lemma Triangle(p: Poly, q: Poly, r: Poly)
    requires |p| == |q| == |r|
    ensures Distance(p, q) <= Distance(p, r) + Distance(q, r)
  {
    var a, b := Support(Sum(p, r)), Support(Sum(q, r));
    forall k | k in Support(Sum(p, q))
      ensures k in a + b
    {
      XorSelf(r[k]);
      if k !in a {
        XorZeroMeansEqual(p[k], r[k]);
        if k !in b {
          XorZeroMeansEqual(q[k], r[k]);
        }
      }
    }
    SizeOfPart(Support(Sum(p, q)), a + b);
    assert |a + b| == |a| + |b| - |a * b|;
  }

  lemma {:induction false} SizeOfPart<T>(a: set<T>, b: set<T>)
    requires a <= b
    ensures |a| <= |b|
    decreases |a|
  {
    if x :| x in a {
      SizeOfPart(a - {x}, b - {x});
    }
  }

  /** A block damaged in at most half as many places as it has error-correction
      codewords has one codeword nearest to it, so the damage can be undone. */
  lemma DamageUndone(p: Poly, q: Poly, r: Poly, degree: nat)
    requires |p| == |q| == |r| <= 255 && IsCodeword(p, degree) && IsCodeword(q, degree)
    requires 2 * Distance(p, r) <= degree && 2 * Distance(q, r) <= degree
    ensures p == q
  {
    Triangle(p, q, r);
    MinimumDistance(p, q, degree);
  }
}
