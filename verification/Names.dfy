/** Object names (ham/util.py, ham/wizard.py): which characters they may hold
    and how a name already taken is told apart by a number. */
module Names {

  // ----- numbers in decimal -----

  function Digit(d: nat): char
    requires d < 10
  {
    '0' + d as char
  }

  function Decimal(n: nat): (r: string)
    ensures r != ""
    decreases n
  {
    if n < 10 then [Digit(n)] else Decimal(n / 10) + [Digit(n % 10)]
  }

  function DigitValue(c: char): int {
    c as int - '0' as int
  }

  function ValueOf(s: string): int {
    if s == "" then 0 else 10 * ValueOf(s[..|s| - 1]) + DigitValue(s[|s| - 1])
  }

  lemma {:induction false} DecimalValue(n: nat)
    ensures ValueOf(Decimal(n)) == n
    decreases n
  {
    if n < 10 {
      assert Decimal(n)[..0] == "";
    } else {
      DecimalValue(n / 10);
      assert Decimal(n)[..|Decimal(n)| - 1] == Decimal(n / 10);
    }
  }

  function Numbered(base: string, n: nat): string {
    base + "-" + Decimal(n)
  }

  lemma NumberedInjective(base: string, m: nat, n: nat)
    requires Numbered(base, m) == Numbered(base, n)
    ensures m == n
  {
    assert Numbered(base, m)[|base + "-"|..] == Decimal(m);
    assert Numbered(base, n)[|base + "-"|..] == Decimal(n);
    DecimalValue(m);
    DecimalValue(n);
  }

  // ----- the characters of a name -----

  predicate Plain(c: char) {
    'A' <= c <= 'Z' || 'a' <= c <= 'z' || '0' <= c <= '9' || c == '_' || c == '.' || c == '-'
  }

  predicate Blank(c: char) {
    c == ' ' || '\t' <= c <= '\r'
  }

  function Strip(s: string): string
    decreases |s|
  {
    if s == "" then ""
    else if Blank(s[0]) then Strip(s[1..])
    else if Blank(s[|s| - 1]) then Strip(s[..|s| - 1])
    else s
  }

  /** `_sec`: blanks at the ends go, any other odd character becomes an
      underscore, and an empty name becomes "unnamed". */
  function Secure(s: string): (r: string)
    ensures r != "" && forall i :: 0 <= i < |r| ==> Plain(r[i])
  {
    var t := Strip(s);
    if t == "" then "unnamed" else seq(|t|, i requires 0 <= i < |t| => if Plain(t[i]) then t[i] else '_')
  }

  lemma {:induction false} PlainStrip(s: string)
    requires forall i :: 0 <= i < |s| ==> Plain(s[i])
    ensures Strip(s) == s
  {
  }

  /** Cleaning a name twice is cleaning it once. */
  lemma SecureFixed(s: string)
    ensures Secure(Secure(s)) == Secure(s)
  {
    PlainStrip(Secure(s));
  }

  // ----- unique names -----

  /** The first number from n on whose name is free. Each name found taken is
      struck off, so the search ends. */
  function FreeFrom(taken: set<string>, base: string, n: nat): (r: nat)
    ensures r >= n
    decreases |taken|
  {
    if Numbered(base, n) in taken then FreeFrom(taken - {Numbered(base, n)}, base, n + 1) else n
  }

  lemma {:induction false} FreeFromLeast(taken: set<string>, base: string, n: nat)
    ensures Numbered(base, FreeFrom(taken, base, n)) !in taken
    ensures forall k :: n <= k < FreeFrom(taken, base, n) ==> Numbered(base, k) in taken
    decreases |taken|
  {
    if Numbered(base, n) in taken {
      FreeFromLeast(taken - {Numbered(base, n)}, base, n + 1);
      if Numbered(base, FreeFrom(taken, base, n)) == Numbered(base, n) {
        NumberedInjective(base, FreeFrom(taken, base, n), n);
      }
    }
  }

  /** The name an object asking for `wanted` gets beside those taken. */
  function Unique(taken: set<string>, wanted: string): string {
    if Secure(wanted) !in taken then Secure(wanted)
    else Numbered(Secure(wanted), FreeFrom(taken, Secure(wanted), 2))
  }

  /** It is free, and it is the wanted name whenever that one is free. */
  lemma UniqueIsFree(taken: set<string>, wanted: string)
    ensures Unique(taken, wanted) !in taken
    ensures Unique(taken, wanted) == Secure(wanted) <==> Secure(wanted) !in taken
  {
    FreeFromLeast(taken, Secure(wanted), 2);
  }

  lemma {:induction false} DecimalPlain(n: nat)
    ensures forall i :: 0 <= i < |Decimal(n)| ==> Plain(Decimal(n)[i])
    decreases n
  {
    if n >= 10 {
      DecimalPlain(n / 10);
    }
  }

  lemma PlainSecure(s: string)
    requires s != "" && forall i :: 0 <= i < |s| ==> Plain(s[i])
    ensures Secure(s) == s
  {
    PlainStrip(s);
  }

  /** A unique name needs no cleaning. */
  lemma UniqueClean(taken: set<string>, wanted: string)
    ensures Secure(Unique(taken, wanted)) == Unique(taken, wanted)
  {
    DecimalPlain(FreeFrom(taken, Secure(wanted), 2));
    PlainSecure(Unique(taken, wanted));
  }

  /** The names numbered 2 to n - 1. */
  ghost function NumberedBelow(base: string, n: nat): set<string> {
    if n <= 2 then {} else NumberedBelow(base, n - 1) + {Numbered(base, n - 1)}
  }

  lemma {:induction false} NumberedBelowSize(base: string, n: nat, k: nat)
    requires 2 <= n <= k
    ensures Numbered(base, k) !in NumberedBelow(base, n)
    ensures |NumberedBelow(base, n)| == n - 2
  {
    if n > 2 {
      NumberedBelowSize(base, n - 1, k);
      NumberedBelowSize(base, n - 1, n - 1);
      if Numbered(base, k) == Numbered(base, n - 1) {
        NumberedInjective(base, k, n - 1);
      }
    }
  }

  lemma Pigeonhole(a: set<string>, b: set<string>)
    requires a <= b
    ensures |a| <= |b|
  {
    assert b == a + (b - a);
  }

  lemma {:induction false} FreeFromStep(taken: set<string>, base: string, n: nat)
    requires n >= 2 && NumberedBelow(base, n) <= taken
    ensures n - 2 <= |taken|
    ensures Numbered(base, n) in taken ==> NumberedBelow(base, n + 1) <= taken
    ensures FreeFrom(taken - NumberedBelow(base, n), base, n)
         == if Numbered(base, n) in taken then FreeFrom(taken - NumberedBelow(base, n + 1), base, n + 1) else n
  {
    NumberedBelowSize(base, n, n);
    Pigeonhole(NumberedBelow(base, n), taken);
    assert taken - NumberedBelow(base, n) - {Numbered(base, n)} == taken - NumberedBelow(base, n + 1);
  }

  /** `_uniq_name`. The loop ends because the names it passed over are all
      different and all taken. */
  method UniqueName(taken: set<string>, wanted: string) returns (name: string)
    ensures name == Unique(taken, wanted)
    ensures name !in taken
  {
    UniqueIsFree(taken, wanted);
    var base := Secure(wanted);
    if base !in taken {
      return base;
    }
    var n := 2;
    assert taken - NumberedBelow(base, 2) == taken;
    FreeFromStep(taken, base, n);
    while Numbered(base, n) in taken
      invariant 2 <= n <= |taken| + 2 && NumberedBelow(base, n) <= taken
      invariant FreeFrom(taken - NumberedBelow(base, n), base, n) == FreeFrom(taken, base, 2)
      decreases |taken| + 2 - n
    {
      FreeFromStep(taken, base, n);
      n := n + 1;
      FreeFromStep(taken, base, n);
    }
    FreeFromStep(taken, base, n);
    return Numbered(base, n);
  }
}
