/** The doubling register of ham/qr.py's table loop, on machine bytes: it runs
    through exactly 255 states before it repeats. */
module AlphaOrder {

  /** Times alpha: double, and reduce when the ninth bit comes up. */
  function Double(x: bv8): bv8 {
    if x & 0x80 != 0 then (x << 1) ^ 0x1d else x << 1
  }

  function Power(k: nat): bv8 {
    if k == 0 then 1 else Double(Power(k - 1))
  }

  /** Squaring, which is linear in characteristic two: bit i goes to alpha^2i. */
  function Square(z: bv8): bv8 {
    (if z & 0x01 != 0 then 1 else 0) ^ (if z & 0x02 != 0 then 4 else 0) ^
    (if z & 0x04 != 0 then 16 else 0) ^ (if z & 0x08 != 0 then 64 else 0) ^
    (if z & 0x10 != 0 then 29 else 0) ^ (if z & 0x20 != 0 then 116 else 0) ^
    (if z & 0x40 != 0 then 205 else 0) ^ (if z & 0x80 != 0 then 19 else 0)
  }

  lemma SquareDouble(z: bv8)
    ensures Square(Double(z)) == Double(Double(Square(z)))
  {
  }

  lemma {:induction false} PowerOfTwice(k: nat)
    ensures Power(2 * k) == Square(Power(k))
  {
    if k > 0 {
      PowerOfTwice(k - 1);
      SquareDouble(Power(k - 1));
      assert Power(2 * k) == Double(Power(2 * k - 1)) == Double(Double(Power(2 * k - 2)));
    }
  }

  lemma DoubleInjective(x: bv8, y: bv8)
    requires Double(x) == Double(y)
    ensures x == y
  {
  }

  /** Alpha to the 256th is alpha again, by eight squarings. */
  lemma Cycle()
    ensures Power(255) == 1
  {
    PowerOfTwice(1);
    PowerOfTwice(2);
    PowerOfTwice(4);
    PowerOfTwice(8);
    PowerOfTwice(16);
    PowerOfTwice(32);
    PowerOfTwice(64);
    PowerOfTwice(128);
    DoubleInjective(Power(255), 1);
  }

  lemma NotAtFifteen()
    ensures Power(15) != 1
  {
    PowerOfTwice(1);
    PowerOfTwice(3);
    PowerOfTwice(7);
  }

  lemma NotAtFiftyOne()
    ensures Power(51) != 1
  {
    PowerOfTwice(1);
    PowerOfTwice(3);
    PowerOfTwice(6);
    PowerOfTwice(12);
    PowerOfTwice(25);
  }

  lemma NotAtEightyFive()
    ensures Power(85) != 1
  {
    PowerOfTwice(1);
    PowerOfTwice(2);
    PowerOfTwice(5);
    PowerOfTwice(10);
    PowerOfTwice(21);
    PowerOfTwice(42);
  }

  /** Once a power is 1 the register has started over. */
  lemma {:induction false} Restart(d: nat, k: nat)
    requires Power(d) == 1
    ensures Power(k + d) == Power(k)
  {
    if k > 0 {
      Restart(d, k - 1);
    }
  }

  lemma {:induction false} Multiple(d: nat, m: nat)
    requires Power(d) == 1
    ensures Power(d * m) == 1
  {
    if m > 0 {
      Multiple(d, m - 1);
      assert d * m == d * (m - 1) + d;
      Restart(d, d * (m - 1));
    }
  }

  /** A proper divisor of 255 = 3 * 5 * 17 divides 85, 51 or 15. */
  lemma DivisorsOf255(d: nat, k: nat)
    requires d * k == 255 && d < 255
    ensures exists m: nat :: d * m == 85 || d * m == 51 || d * m == 15
  {
    if k <= 15 {
      assert k == 3 || k == 5 || k == 15;
      assert d * 1 == 85 || d * 1 == 51 || d * (if d == 17 then 3 else 0) == 51;
    } else {
      assert d < 16;
      assert d == 1 || d == 3 || d == 5 || d == 15;
      assert d * (15 / d) == 15;
    }
  }

  /** The least exponent that gives 1 divides 255, and no proper divisor does. */
  lemma {:induction false} NoShorterCycle(d: nat)
    requires 0 < d < 255
    ensures Power(d) != 1
  {
    if Power(d) == 1 {
      var q, r := 255 / d, 255 % d;
      Cycle();
      Multiple(d, q);
      assert 255 == r + d * q;
      Restart(d * q, r);
      if r > 0 {
        NoShorterCycle(r);
      } else {
        DivisorsOf255(d, q);
        var m: nat :| d * m == 85 || d * m == 51 || d * m == 15;
        Multiple(d, m);
        NotAtFifteen();
        NotAtFiftyOne();
        NotAtEightyFive();
      }
    }
  }

  lemma {:induction false} Rewind(i: nat, j: nat, n: nat)
    requires n <= i && n <= j
    requires Power(i) == Power(j)
    ensures Power(i - n) == Power(j - n)
  {
    if n > 0 {
      DoubleInjective(Power(i - 1), Power(j - 1));
      Rewind(i - 1, j - 1, n - 1);
    }
  }

  lemma Distinct(i: nat, j: nat)
    requires i < j < 255
    ensures Power(i) != Power(j)
  {
    if Power(i) == Power(j) {
      Rewind(i, j, i);
      NoShorterCycle(j - i);
    }
  }

  lemma {:induction false} NeverZero(i: nat)
    ensures Power(i) != 0
  {
    if i > 0 {
      NeverZero(i - 1);
      if Power(i) == 0 {
        DoubleInjective(Power(i - 1), 0);
      }
    }
  }
}
