/** GF(256) with the QR polynomial 0x11d, as ham/qr.py computes in it: powers
    of alpha by repeated doubling, products through a table of logarithms. */
module GaloisField {
  import opened Bits
  import AlphaOrder

  const POLYNOMIAL: nat := 0x11d

  /** Sums are exclusive-ors. */
  function Add(a: Byte, b: Byte): Byte {
    assert Pow2(7) == 128;
    XorTop(a, b, 7);
    Xor(a, b)
  }

  /** One turn of the table-filling loop: times alpha. */
  function Xtime(x: Byte): Byte {
    if 2 * x < 256 then 2 * x
    else
      SameTopBit(2 * x - 256, 29);
      assert Pow2(7) == 128;
      XorTop(2 * x - 256, 29, 7);
      Xor(2 * x, POLYNOMIAL)
  }

  /** k turns of the loop, started from y. */
  function Shift(k: nat, y: Byte): Byte {
    if k == 0 then y else Xtime(Shift(k - 1, y))
  }

  function Alpha(k: nat): Byte {
    Shift(k, 1)
  }

  // ---- sums ---------------------------------------------------------------

  lemma {:induction false} XorHigh(k: nat, a: nat, b: nat)
    requires a < Pow2(k) && b < Pow2(k)
    ensures Xor(Pow2(k) + a, Pow2(k) + b) == Xor(a, b)
  {
    if k > 0 {
      XorHigh(k - 1, a / 2, b / 2);
      XorStep(a, b);
      XorStep(Pow2(k) + a, Pow2(k) + b);
    }
  }

  lemma SameTopBit(a: Byte, b: Byte)
    ensures Xor(256 + a, 256 + b) == Xor(a, b)
  {
    assert Pow2(7) == 128;
    assert Pow2(8) == 256;
    XorHigh(8, a, b);
  }

  lemma AddAssoc(a: Byte, b: Byte, c: Byte)
    ensures Add(Add(a, b), c) == Add(a, Add(b, c))
  {
    XorAssoc(a, b, c);
  }

  lemma AddExchange(a: Byte, b: Byte, c: Byte, d: Byte)
    ensures Add(Add(a, b), Add(c, d)) == Add(Add(a, c), Add(b, d))
  {
    XorExchange(a, b, c, d);
  }

  // ---- the shift is linear ------------------------------------------------

  lemma XtimeLinear(a: Byte, b: Byte)
    ensures Xtime(Add(a, b)) == Add(Xtime(a), Xtime(b))
  {
    assert Pow2(7) == 128;
    XorTop(a, b, 7);
    var p := POLYNOMIAL;
    XorStep(2 * a, 2 * b);
    var s := Xor(2 * a, 2 * b);
    assert s == 2 * Xor(a, b);
    if a < 128 && b < 128 {
    } else if a < 128 {
      XorAssoc(2 * a, 2 * b, p);
    } else if b < 128 {
      XorAssoc(2 * a, 2 * b, p);
      XorComm(2 * b, p);
      XorAssoc(2 * a, p, 2 * b);
    } else {
      XorExchange(2 * a, p, 2 * b, p);
      XorSelf(p);
      XorZero(s);
    }
  }

  lemma {:induction false} ShiftLinear(k: nat, a: Byte, b: Byte)
    ensures Shift(k, Add(a, b)) == Add(Shift(k, a), Shift(k, b))
  {
    if k > 0 {
      ShiftLinear(k - 1, a, b);
      XtimeLinear(Shift(k - 1, a), Shift(k - 1, b));
    }
  }

  lemma {:induction false} ShiftAdd(i: nat, j: nat, y: Byte)
    ensures Shift(i + j, y) == Shift(i, Shift(j, y))
  {
    if i > 0 {
      ShiftAdd(i - 1, j, y);
    }
  }

  lemma {:induction false} ShiftZero(k: nat)
    ensures Shift(k, 0) == 0
  {
    if k > 0 {
      ShiftZero(k - 1);
    }
  }

  // ---- alpha runs through every nonzero byte --------------------------------

  lemma {:induction false} XorOfMachineBytes(a: bv8, b: bv8, n: nat)
    requires a as nat + b as nat <= n
    ensures (a ^ b) as nat == Xor(a as nat, b as nat)
  {
    if n == 0 {
      ZeroXor(a, b);
    } else {
      HalvingShrinks(a, b, n);
      XorOfMachineBytes(a >> 1, b >> 1, n - 1);
      XorOfMachineStep(a, b);
    }
  }

  lemma HalvingShrinks(a: bv8, b: bv8, n: nat)
    requires a as nat + b as nat <= n && n > 0
    ensures (a >> 1) as nat + (b >> 1) as nat <= n - 1
  {
    HalfOfMachineByte(a);
    HalfOfMachineByte(b);
  }

  lemma XorOfMachineStep(a: bv8, b: bv8)
    requires ((a >> 1) ^ (b >> 1)) as nat == Xor((a >> 1) as nat, (b >> 1) as nat)
    ensures (a ^ b) as nat == Xor(a as nat, b as nat)
  {
    MachineHalves(a, b);
    XorFromHalves(a as nat, b as nat, (a ^ b) as nat);
  }

  lemma ZeroXor(a: bv8, b: bv8)
    requires a as nat == 0 && b as nat == 0
    ensures (a ^ b) as nat == 0
  {
    MachineByteInjective(a, 0);
    MachineByteInjective(b, 0);
  }

  lemma MachineHalves(a: bv8, b: bv8)
    ensures (a >> 1) as nat == a as nat / 2
    ensures (b >> 1) as nat == b as nat / 2
    ensures (a ^ b) as nat / 2 == ((a >> 1) ^ (b >> 1)) as nat
    ensures (a ^ b) as nat % 2 == if a as nat % 2 == b as nat % 2 then 0 else 1
  {
    HalfOfMachineByte(a);
    HalfOfMachineByte(b);
    HalfOfMachineByte(a ^ b);
    HalvesOfXor(a, b);
  }

  lemma XorFromHalves(x: nat, y: nat, z: nat)
    requires z / 2 == Xor(x / 2, y / 2)
    requires z % 2 == if x % 2 == y % 2 then 0 else 1
    ensures z == Xor(x, y)
  {
    XorStep(x, y);
  }

  lemma HalfOfMachineByte(a: bv8)
    ensures (a >> 1) as nat == a as nat / 2
    ensures (a & 1) as nat == a as nat % 2
  {
  }

  lemma HalvesOfXor(a: bv8, b: bv8)
    ensures (a ^ b) >> 1 == (a >> 1) ^ (b >> 1)
    ensures (a ^ b) & 1 == if a & 1 == b & 1 then 0 else 1
  {
  }

  lemma DoubleIsXtime(x: bv8)
    ensures AlphaOrder.Double(x) as nat == Xtime(x as nat)
  {
    if x & 0x80 == 0 {
      LowDouble(x);
    } else {
      HighDouble(x);
      XorOfMachineBytes(x << 1, 0x1d, 510);
      SameTopBit(2 * (x as nat) - 256, 29);
    }
  }

  lemma LowDouble(x: bv8)
    requires x & 0x80 == 0
    ensures (x << 1) as nat == 2 * (x as nat)
  {
  }

  lemma HighDouble(x: bv8)
    requires x & 0x80 != 0
    ensures (x << 1) as nat == 2 * (x as nat) - 256
  {
  }

  lemma {:induction false} PowerIsAlpha(k: nat)
    ensures AlphaOrder.Power(k) as nat == Alpha(k)
  {
    if k > 0 {
      PowerIsAlpha(k - 1);
      DoubleIsXtime(AlphaOrder.Power(k - 1));
    }
  }

  lemma MachineByteInjective(a: bv8, b: bv8)
    requires a as nat == b as nat
    ensures a == b
  {
  }

  lemma AlphaCycle()
    ensures Alpha(255) == 1
  {
    AlphaOrder.Cycle();
    PowerIsAlpha(255);
  }

  lemma AlphaInjective(i: nat, j: nat)
    requires i < j < 255
    ensures Alpha(i) != Alpha(j)
  {
    AlphaOrder.Distinct(i, j);
    PowerIsAlpha(i);
    PowerIsAlpha(j);
    if Alpha(i) == Alpha(j) {
      MachineByteInjective(AlphaOrder.Power(i), AlphaOrder.Power(j));
    }
  }

  lemma AlphaNonZero(i: nat)
    ensures Alpha(i) != 0
  {
    AlphaOrder.NeverZero(i);
    PowerIsAlpha(i);
    if Alpha(i) == 0 {
      MachineByteInjective(AlphaOrder.Power(i), 0);
    }
  }

  lemma AlphaWrap(k: nat)
    ensures Alpha(k + 255) == Alpha(k)
  {
    ShiftAdd(k, 255, 1);
    AlphaCycle();
  }

  lemma {:induction false} AlphaPeriod(k: nat)
    ensures Alpha(k) == Alpha(k % 255)
  {
    if k >= 255 {
      AlphaPeriod(k - 255);
      AlphaWrap(k - 255);
    }
  }

  ghost function FirstPowers(n: nat): set<Byte> {
    set k | 0 <= k < n :: Alpha(k)
  }

  lemma {:induction false} FirstPowersCount(n: nat)
    requires n <= 255
    ensures |FirstPowers(n)| == n
  {
    if n > 0 {
      FirstPowersCount(n - 1);
      assert FirstPowers(n) == FirstPowers(n - 1) + {Alpha(n - 1)};
      forall k | 0 <= k < n - 1
        ensures Alpha(k) != Alpha(n - 1)
      {
        AlphaInjective(k, n - 1);
      }
    }
  }

  ghost function NonZeroBytes(n: nat): (s: set<Byte>)
    requires n < 256
    ensures forall x: Byte :: x in s <==> 0 < x <= n
    ensures |s| == n
  {
    if n == 0 then {} else NonZeroBytes(n - 1) + {n}
  }

  lemma EqualByCount<T>(a: set<T>, b: set<T>)
    requires a <= b && |a| == |b|
    ensures a == b
  {
    assert b == a + (b - a);
  }

  /** 255 different nonzero bytes are all of them. */
  lemma AlphaSurjective(x: Byte)
    requires x != 0
    ensures exists k: nat :: k < 255 && Alpha(k) == x
  {
    FirstPowersCount(255);
    forall k: nat
      ensures Alpha(k) != 0
    {
      AlphaNonZero(k);
    }
    assert FirstPowers(255) <= NonZeroBytes(255);
    EqualByCount(FirstPowers(255), NonZeroBytes(255));
    assert x in FirstPowers(255);
  }

  // ---- products through logarithms ----------------------------------------

  ghost function Log(x: Byte): (k: nat)
    requires x != 0
    ensures k < 255 && Alpha(k) == x
  {
    AlphaSurjective(x);
    var k: nat :| k < 255 && Alpha(k) == x;
    k
  }

  /** The product every loop of the encoder writes out: a zero factor is
      skipped, otherwise the logarithms are added modulo 255. */
  ghost function Mul(x: Byte, y: Byte): Byte {
    if x == 0 || y == 0 then 0 else Alpha((Log(x) + Log(y)) % 255)
  }

  lemma LogOfAlpha(k: nat)
    requires k < 255
    ensures Alpha(k) != 0 && Log(Alpha(k)) == k
  {
    AlphaNonZero(k);
    var l := Log(Alpha(k));
    if l < k {
      AlphaInjective(l, k);
    } else if k < l {
      AlphaInjective(k, l);
    }
  }

  /** The table product is iterated doubling, which makes it linear. */
  lemma MulIsShift(x: Byte, y: Byte)
    requires x != 0
    ensures Mul(x, y) == Shift(Log(x), y)
  {
    if y == 0 {
      ShiftZero(Log(x));
    } else {
      ShiftAdd(Log(x), Log(y), 1);
      AlphaPeriod(Log(x) + Log(y));
    }
  }

  lemma MulComm(x: Byte, y: Byte)
    ensures Mul(x, y) == Mul(y, x)
  {
  }

  lemma MulOne(x: Byte)
    ensures Mul(x, 1) == x && Mul(1, x) == x
  {
    LogOfAlpha(0);
    MulIsShift(1, x);
    MulComm(1, x);
  }

  lemma MulNonZero(x: Byte, y: Byte)
    requires x != 0 && y != 0
    ensures Mul(x, y) != 0 && Log(Mul(x, y)) == (Log(x) + Log(y)) % 255
  {
    LogOfAlpha((Log(x) + Log(y)) % 255);
  }

  lemma MulAssoc(x: Byte, y: Byte, z: Byte)
    ensures Mul(Mul(x, y), z) == Mul(x, Mul(y, z))
  {
    if x != 0 && y != 0 && z != 0 {
      MulNonZero(x, y);
      MulNonZero(y, z);
      var a, b, c := Log(x), Log(y), Log(z);
      ModAssoc(a, b, c);
    }
  }

  lemma Mod255(n: nat)
    requires n < 510
    ensures n % 255 == if n < 255 then n else n - 255
  {
  }

  lemma ModAssoc(a: nat, b: nat, c: nat)
    requires a < 255 && b < 255 && c < 255
    ensures ((a + b) % 255 + c) % 255 == (a + (b + c) % 255) % 255
  {
    Mod255(a + b);
    Mod255(b + c);
    Mod255((a + b) % 255 + c);
    Mod255(a + (b + c) % 255);
  }

  lemma MulDistrib(x: Byte, y: Byte, z: Byte)
    ensures Mul(x, Add(y, z)) == Add(Mul(x, y), Mul(x, z))
  {
    if x == 0 {
      XorZero(0);
    } else {
      MulIsShift(x, Add(y, z));
      MulIsShift(x, y);
      MulIsShift(x, z);
      ShiftLinear(Log(x), y, z);
    }
  }

  lemma MulDistribLeft(x: Byte, y: Byte, z: Byte)
    ensures Mul(Add(x, y), z) == Add(Mul(x, z), Mul(y, z))
  {
    MulDistrib(z, x, y);
    MulComm(Add(x, y), z);
    MulComm(x, z);
    MulComm(y, z);
  }

  /** Every nonzero byte has a reciprocal, so the table product is a field's. */
  lemma MulInverse(x: Byte)
    requires x != 0
    ensures exists y: Byte :: Mul(x, y) == 1
  {
    var k := (255 - Log(x)) % 255;
    LogOfAlpha(k);
    assert (Log(x) + k) % 255 == 0;
    assert Mul(x, Alpha(k)) == Alpha(0);
  }

  // ---- the tables ---------------------------------------------------------

  /** _EXP and _LOG, the module's two constant lists. */
  datatype Tables = Tables(exp: seq<Byte>, log: seq<nat>) {
    ghost predicate Valid() {
      && |exp| == 512
      && |log| == 256
      && (forall i :: 0 <= i < 512 ==> exp[i] == Alpha(i))
      && (forall x: Byte :: x != 0 ==> log[x] == Log(x))
    }

    function Product(x: Byte, y: Byte): (r: Byte)
      requires Valid() && x != 0 && y != 0
      ensures r == Mul(x, y)
    {
      AlphaPeriod(log[x] + log[y]);
      exp[(log[x] + log[y]) % 255]
    }
  }

  lemma NewPower(i: nat)
    requires i < 255
    ensures forall k: nat :: k < i ==> Alpha(k) != Alpha(i)
  {
    forall k: nat | k < i
      ensures Alpha(k) != Alpha(i)
    {
      AlphaInjective(k, i);
    }
  }

  /** The first turn: x runs through the powers of alpha, and each is noted
      together with its exponent. */
  method FillFirstTurn(exp: array<Byte>, log: array<nat>)
    requires exp.Length == 512 && log.Length == 256
    modifies exp, log
    ensures forall k :: 0 <= k < 255 ==> exp[k] == Alpha(k) && log[Alpha(k)] == k
  {
    var x: Byte := 1;
    for i := 0 to 255
      invariant x == Alpha(i)
      invariant forall k :: 0 <= k < i ==> exp[k] == Alpha(k) && log[Alpha(k)] == k
    {
      NewPower(i);
      exp[i] := x;
      log[x] := i;
      x := Xtime(x);
    }
  }

  method FillSecondTurn(exp: array<Byte>)
    requires exp.Length == 512
    requires forall k :: 0 <= k < 255 ==> exp[k] == Alpha(k)
    modifies exp
    ensures forall k :: 0 <= k < 512 ==> exp[k] == Alpha(k)
  {
    for i := 255 to 512
      invariant forall k :: 0 <= k < i ==> exp[k] == Alpha(k)
    {
      AlphaWrap(i - 255);
      exp[i] := exp[i - 255];
    }
  }

  method BuildTables() returns (t: Tables)
    ensures t.Valid()
  {
    var exp := new Byte[512](_ => 0);
    var log := new nat[256](_ => 0);
    FillFirstTurn(exp, log);
    FillSecondTurn(exp);
    t := Tables(exp[..], log[..]);
    forall x: Byte | x != 0
      ensures t.log[x] == Log(x)
    {
      assert log[Alpha(Log(x))] == Log(x);
    }
  }
}
