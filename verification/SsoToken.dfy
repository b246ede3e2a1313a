/** The single sign-on token (ham/oauth.py, `issue_cookie`) and how HAProxy takes
    it apart again (ham/haproxy.py). Text is bytes, one character each. */
module SsoToken {
  import opened Names
  import opened CertificateMatch

  predicate IsBytes(s: string) {
    forall c :: c in s ==> c as int < 256
  }

  lemma BytesFrom(s: string, k: nat)
    requires IsBytes(s) && k <= |s|
    ensures IsBytes(s[k..])
  {
    forall c | c in s[k..]
      ensures c in s
    {
    }
  }

  // ----- hex -----

  function HexDigit(n: nat): char
    requires n < 16
  {
    if n < 10 then '0' + n as char else 'a' + (n - 10) as char
  }

  predicate IsHexDigit(c: char) {
    '0' <= c <= '9' || 'a' <= c <= 'f'
  }

  /** Two characters a byte. */
  function Hex(s: string): (r: string)
    ensures |r| == 2 * |s| && forall c :: c in r ==> IsHexDigit(c)
  {
    if s == "" then "" else [HexDigit(s[0] as int / 16 % 16), HexDigit(s[0] as int % 16)] + Hex(s[1..])
  }

  lemma {:induction false} HexInjective(s: string, t: string)
    requires IsBytes(s) && IsBytes(t) && Hex(s) == Hex(t)
    ensures s == t
  {
    if s != "" && t != "" {
      assert Hex(s)[0] == Hex(t)[0] && Hex(s)[1] == Hex(t)[1];
      assert s[0] in s && t[0] in t;
      HexDigitPair(s[0] as int, t[0] as int);
      assert Hex(s)[2..] == Hex(s[1..]) && Hex(t)[2..] == Hex(t[1..]);
      BytesFrom(s, 1);
      BytesFrom(t, 1);
      HexInjective(s[1..], t[1..]);
      assert s == [s[0]] + s[1..] && t == [t[0]] + t[1..];
    }
  }

  lemma HexDigitInjective(m: nat, n: nat)
    requires m < 16 && n < 16 && HexDigit(m) == HexDigit(n)
    ensures m == n
  {
  }

  lemma HexDigitPair(a: nat, b: nat)
    requires a < 256 && b < 256
    requires HexDigit(a / 16 % 16) == HexDigit(b / 16 % 16) && HexDigit(a % 16) == HexDigit(b % 16)
    ensures a == b
  {
    HexDigitInjective(a / 16 % 16, b / 16 % 16);
    HexDigitInjective(a % 16, b % 16);
  }

  lemma {:induction false} HexAppend(s: string, t: string)
    ensures Hex(s + t) == Hex(s) + Hex(t)
  {
    if s == "" {
      assert s + t == t;
    } else {
      assert (s + t)[1..] == s[1..] + t;
      HexAppend(s[1..], t);
    }
  }

  predicate EndsWith(s: string, suffix: string) {
    |suffix| <= |s| && s[|s| - |suffix|..] == suffix
  }

  /** Matching the hex forms is matching the plain texts: a hex suffix can only
      start where a byte starts. */
  lemma HexEndsWith(s: string, suffix: string)
    requires IsBytes(s) && IsBytes(suffix)
    ensures EndsWith(Hex(s), Hex(suffix)) <==> EndsWith(s, suffix)
  {
    if |suffix| <= |s| {
      var k := |s| - |suffix|;
      HexAppend(s[..k], s[k..]);
      assert s == s[..k] + s[k..];
      assert Hex(s)[2 * k..] == Hex(s[k..]);
      BytesFrom(s, k);
      if EndsWith(Hex(s), Hex(suffix)) {
        HexInjective(s[k..], suffix);
      }
    }
  }

  // ----- base64 -----

  function Sextet(n: nat): char
    requires n < 64
  {
    if n < 26 then 'A' + n as char
    else if n < 52 then 'a' + (n - 26) as char
    else if n < 62 then '0' + (n - 52) as char
    else if n == 62 then '+' else '/'
  }

  function SextetValue(c: char): (r: nat)
    ensures r < 64
  {
    if 'A' <= c <= 'Z' then c as int - 'A' as int
    else if 'a' <= c <= 'z' then c as int - 'a' as int + 26
    else if '0' <= c <= '9' then c as int - '0' as int + 52
    else if c == '+' then 62 else 63
  }

  lemma SextetRoundTrip(n: nat)
    requires n < 64
    ensures SextetValue(Sextet(n)) == n && Sextet(n) != '.' && Sextet(n) != '='
  {
  }

  /** Four characters for three bytes, of which `extra` are missing. */
  function Quartet(a: nat, b: nat, c: nat, extra: nat): (r: string)
    requires a < 256 && b < 256 && c < 256 && extra < 3
    ensures |r| == 4
  {
    [Sextet(a / 4), Sextet(a % 4 * 16 + b / 16),
     if extra == 2 then '=' else Sextet(b % 16 * 4 + c / 64),
     if extra > 0 then '=' else Sextet(c % 64)]
  }

  function Byte(c: char): nat {
    c as int % 256
  }

  function Base64(s: string): string {
    if s == "" then ""
    else if |s| == 1 then Quartet(Byte(s[0]), 0, 0, 2)
    else if |s| == 2 then Quartet(Byte(s[0]), Byte(s[1]), 0, 1)
    else Quartet(Byte(s[0]), Byte(s[1]), Byte(s[2]), 0) + Base64(s[3..])
  }

  function Char(n: nat): char {
    (n % 256) as char
  }

  /** The bytes of four characters. */
  function Bytes(w: char, x: char, y: char, z: char): string {
    var a := SextetValue(w) * 4 + SextetValue(x) / 16;
    var b := SextetValue(x) % 16 * 16 + SextetValue(y) / 4;
    var c := SextetValue(y) % 4 * 64 + SextetValue(z);
    if y == '=' then [Char(a)] else if z == '=' then [Char(a), Char(b)] else [Char(a), Char(b), Char(c)]
  }

  function FromBase64(t: string): string {
    if |t| < 4 then "" else Bytes(t[0], t[1], t[2], t[3]) + FromBase64(t[4..])
  }

  /** A number in two parts, the second of them carried in a larger number. */
  lemma Split(a: nat, rest: nat, n: nat)
    requires n > 0 && rest < n
    ensures (a * n + rest) / n == a && (a * n + rest) % n == rest
  {
    if (a * n + rest) / n < a {
      Below(a, (a * n + rest) / n, n);
    } else if (a * n + rest) / n > a {
      Below((a * n + rest) / n, a, n);
    }
  }

  lemma Below(a: nat, b: nat, n: nat)
    requires b < a
    ensures b * n + n <= a * n
  {
    assert (b + 1) * n <= a * n;
  }

  lemma FirstByte(a: nat, b: nat)
    requires a < 256 && b < 256
    ensures SextetValue(Sextet(a / 4)) * 4 + SextetValue(Sextet(a % 4 * 16 + b / 16)) / 16 == a
  {
    SextetRoundTrip(a / 4);
    SextetRoundTrip(a % 4 * 16 + b / 16);
    Split(a % 4, b / 16, 16);
  }

  lemma SecondByte(a: nat, b: nat, c: nat)
    requires a < 256 && b < 256 && c < 256
    ensures SextetValue(Sextet(a % 4 * 16 + b / 16)) % 16 * 16 + SextetValue(Sextet(b % 16 * 4 + c / 64)) / 4 == b
  {
    SextetRoundTrip(a % 4 * 16 + b / 16);
    SextetRoundTrip(b % 16 * 4 + c / 64);
    Split(a % 4, b / 16, 16);
    Split(b % 16, c / 64, 4);
  }

  lemma ThirdByte(b: nat, c: nat)
    requires b < 256 && c < 256
    ensures SextetValue(Sextet(b % 16 * 4 + c / 64)) % 4 * 64 + SextetValue(Sextet(c % 64)) == c
  {
    SextetRoundTrip(b % 16 * 4 + c / 64);
    SextetRoundTrip(c % 64);
    Split(b % 16, c / 64, 4);
  }

  lemma SextetPlain(n: nat)
    requires n < 64
    ensures Sextet(n) != '.' && Sextet(n) != '='
  {
  }

  lemma QuartetPlain(a: nat, b: nat, c: nat, extra: nat)
    requires a < 256 && b < 256 && c < 256 && extra < 3
    ensures '.' !in Quartet(a, b, c, extra)
    ensures Quartet(a, b, c, extra)[2] == '=' <==> extra == 2
    ensures Quartet(a, b, c, extra)[3] == '=' <==> extra > 0
  {
    SextetPlain(a / 4);
    SextetPlain(a % 4 * 16 + b / 16);
    SextetPlain(b % 16 * 4 + c / 64);
    SextetPlain(c % 64);
  }

  lemma CharIs(c: char)
    requires c as int < 256
    ensures Char(Byte(c)) == c
  {
  }

  lemma QuartetRoundTrip(a: nat, b: nat, c: nat, extra: nat)
    requires a < 256 && b < 256 && c < 256 && extra < 3
    ensures var q := Quartet(a, b, c, extra);
            Bytes(q[0], q[1], q[2], q[3])
            == if extra == 2 then [Char(a)] else if extra == 1 then [Char(a), Char(b)] else [Char(a), Char(b), Char(c)]
  {
    QuartetPlain(a, b, c, extra);
    FirstByte(a, b);
    SecondByte(a, b, c);
    ThirdByte(b, c);
  }

  lemma FromBase64Step(q: string, t: string)
    requires |q| == 4
    ensures FromBase64(q + t) == Bytes(q[0], q[1], q[2], q[3]) + FromBase64(t)
  {
    assert (q + t)[4..] == t;
  }

  /** Decoding what was encoded gives the text back, and no dot is in it. */
  lemma {:induction false} Base64RoundTrip(s: string)
    requires IsBytes(s)
    ensures FromBase64(Base64(s)) == s && '.' !in Base64(s)
  {
    if s != "" {
      var n := if |s| < 3 then |s| else 3;
      var q := Quartet(Byte(s[0]), if n > 1 then Byte(s[1]) else 0, if n > 2 then Byte(s[2]) else 0, 3 - n);
      assert q + Base64(s[n..]) == Base64(s) by {
        assert n < 3 ==> s[n..] == "";
      }
      QuartetRoundTrip(Byte(s[0]), if n > 1 then Byte(s[1]) else 0, if n > 2 then Byte(s[2]) else 0, 3 - n);
      QuartetPlain(Byte(s[0]), if n > 1 then Byte(s[1]) else 0, if n > 2 then Byte(s[2]) else 0, 3 - n);
      FromBase64Step(q, Base64(s[n..]));
      BytesFrom(s, n);
      Base64RoundTrip(s[n..]);
      Chars(s, n);
    }
  }

  lemma Chars(s: string, n: nat)
    requires IsBytes(s) && 1 <= n <= 3 && n <= |s|
    ensures (if n == 1 then [Char(Byte(s[0]))] else if n == 2 then [Char(Byte(s[0])), Char(Byte(s[1]))]
             else [Char(Byte(s[0])), Char(Byte(s[1])), Char(Byte(s[2]))]) + s[n..] == s
  {
    forall i | 0 <= i < n
      ensures Char(Byte(s[i])) == s[i]
    {
      assert s[i] in s;
      CharIs(s[i]);
    }
  }

  // ----- the token -----

  /** The signature of a message under the shared secret: some non-empty string of
      hex digits for each message. */
  type Signer = string -> string

  ghost predicate Signs(sign: Signer) {
    forall m :: sign(m) != "" && forall c :: c in sign(m) ==> IsHexDigit(c)
  }

  /** Expiry, address in hex, address in base64. */
  function Message(exp: nat, email: string): string {
    Decimal(exp) + "." + (Hex(email) + "." + Base64(email))
  }

  /** No hours stand for twelve, and a negative number of them for one. */
  function Expiry(now: nat, hours: int): nat {
    now + (if hours == 0 then 12 else if hours < 1 then 1 else hours) * 3600
  }

  /** `issue_cookie`. */
  function Issue(sign: Signer, email: string, now: nat, hours: int): string {
    var m := Message(Expiry(now, hours), Lower(Strip(email)));
    m + "." + sign(m)
  }

  // ----- what HAProxy reads of it -----

  function NonEmpty(xs: seq<string>): seq<string> {
    if xs == [] then [] else (if xs[0] == "" then [] else [xs[0]]) + NonEmpty(xs[1..])
  }

  /** The converter word(n,.): words are parted by dots, and empty ones skipped. */
  function Word(s: string, n: nat): string
    requires n > 0
  {
    var ws := NonEmpty(Labels(s));
    if n <= |ws| then ws[n - 1] else ""
  }

  /** Dots in front of a word are skipped, however many. */
  lemma DotsSkipped(s: string, n: nat)
    requires n > 0
    ensures Word("." + s, n) == Word(s, n)
  {
    assert ("." + s)[1..] == s;
    assert ([""] + Labels(s))[1..] == Labels(s);
  }

  /** No word is empty unless there are too few. */
  lemma {:induction false} WordsNotEmpty(xs: seq<string>)
    ensures "" !in NonEmpty(xs) && forall x :: x in xs && x != "" ==> x in NonEmpty(xs)
  {
    if xs != [] {
      WordsNotEmpty(xs[1..]);
    }
  }

  /** Where the hex digits at the end begin. */
  function HexTail(s: string): (k: nat)
    ensures k <= |s| && forall i :: k <= i < |s| ==> IsHexDigit(s[i])
    ensures k > 0 ==> !IsHexDigit(s[k - 1])
  {
    if s != "" && IsHexDigit(s[|s| - 1]) then HexTail(s[..|s| - 1]) else |s|
  }

  /** The converter regsub(\.[a-f0-9]+$,): what is left without the last dot and
      the hex digits behind it. */
  function Unsigned(s: string): string {
    var k := HexTail(s);
    if 0 < k < |s| && s[k - 1] == '.' then s[..k - 1] else s
  }

  /** What the pool's rules keep of a request's cookie. */
  datatype Token = Token(message: string, signature: string, expiry: string, who: string, base64: string)

  function ReadToken(cookie: string): Token {
    Token(Unsigned(cookie), Word(cookie, 4), Word(cookie, 1), Word(cookie, 2), Word(cookie, 3))
  }

  predicate ValidToken(sign: Signer, t: Token) {
    sign(t.message) == t.signature
  }

  predicate FreshToken(t: Token, now: int) {
    ValueOf(t.expiry) - now > 0
  }

  // ----- taking it apart -----

  lemma {:induction false} LabelsAppend(a: string, t: string)
    requires '.' !in t
    ensures Labels(a + "." + t) == Labels(a) + [t]
  {
    if a == "" {
      assert a + "." + t == "." + t;
      LabelsJoin("", t);
      LabelsSingle(t);
    } else {
      assert (a + "." + t)[1..] == a[1..] + "." + t;
      LabelsAppend(a[1..], t);
      assert (Labels(a[1..]) + [t])[1..] == Labels(a[1..])[1..] + [t];
    }
  }

  lemma {:induction false} LabelsSingle(t: string)
    requires '.' !in t
    ensures Labels(t) == [t]
  {
    if t != "" {
      LabelsSingle(t[1..]);
      assert t == [t[0]] + t[1..];
    }
  }

  lemma {:induction false} DecimalDigits(n: nat)
    ensures forall c :: c in Decimal(n) ==> '0' <= c <= '9'
    decreases n
  {
    if n >= 10 {
      DecimalDigits(n / 10);
    }
  }

  lemma {:induction false} HexTailAppend(m: string, t: string)
    requires forall c :: c in t ==> IsHexDigit(c)
    ensures HexTail(m + "." + t) == |m| + 1
  {
    if t == "" {
      assert m + "." + t == m + ".";
    } else {
      assert (m + "." + t)[..|m + "." + t| - 1] == m + "." + t[..|t| - 1];
      HexTailAppend(m, t[..|t| - 1]);
    }
  }

  lemma NoDots(exp: nat, email: string)
    requires IsBytes(email)
    ensures '.' !in Decimal(exp) && '.' !in Hex(email) && '.' !in Base64(email)
  {
    DecimalDigits(exp);
    Base64RoundTrip(email);
  }

  lemma MessageLabels(exp: nat, email: string)
    requires IsBytes(email)
    ensures Labels(Message(exp, email)) == [Decimal(exp), Hex(email), Base64(email)]
  {
    NoDots(exp, email);
    LabelsJoin(Decimal(exp), Hex(email) + "." + Base64(email));
    LabelsJoin(Hex(email), Base64(email));
    LabelsSingle(Base64(email));
  }

  lemma NonEmptyStep(x: string, xs: seq<string>)
    requires x != ""
    ensures NonEmpty([x] + xs) == [x] + NonEmpty(xs)
  {
    assert ([x] + xs)[1..] == xs;
  }

  lemma NonEmptyThree(a: string, b: string, c: string, rest: seq<string>)
    requires a != "" && b != "" && c != ""
    ensures NonEmpty([a, b, c] + rest) == [a, b, c] + NonEmpty(rest)
  {
    assert [a, b, c] + rest == [a] + ([b] + ([c] + rest));
    NonEmptyStep(a, [b] + ([c] + rest));
    NonEmptyStep(b, [c] + rest);
    NonEmptyStep(c, rest);
  }

  /** A signed message is read back part by part. */
  lemma ReadSigned(exp: nat, email: string, tail: string)
    requires IsBytes(email) && email != "" && tail != "" && forall c :: c in tail ==> IsHexDigit(c)
    ensures var t := ReadToken(Message(exp, email) + "." + tail);
            t == Token(Message(exp, email), tail, Decimal(exp), Hex(email), Base64(email))
  {
    var m := Message(exp, email);
    HexTailAppend(m, tail);
    assert (m + "." + tail)[|m|] == '.';
    assert (m + "." + tail)[..|m|] == m;
    MessageLabels(exp, email);
    LabelsAppend(m, tail);
    assert Labels(m + "." + tail) == [Decimal(exp), Hex(email), Base64(email)] + [tail];
    assert Base64(email) != "";
    NonEmptyThree(Decimal(exp), Hex(email), Base64(email), [tail]);
    NonEmptyStep(tail, []);
    assert [tail] + [] == [tail];
  }

  lemma ExpiryIs(issued: nat, hours: int, now: int)
    ensures hours > 0 ==> (now < Expiry(issued, hours) <==> now - issued < 60 * 60 * hours)
    ensures hours == 0 ==> (now < Expiry(issued, hours) <==> now - issued < 43200)
    ensures hours < 0 ==> (now < Expiry(issued, hours) <==> now - issued < 3600)
  {
  }

  lemma IssuedRead(sign: Signer, email: string, issued: nat, hours: int, now: int)
    requires Signs(sign) && IsBytes(email) && Lower(Strip(email)) != "" && IsBytes(Lower(Strip(email)))
    ensures var t := ReadToken(Issue(sign, email, issued, hours));
            ValidToken(sign, t) && (FreshToken(t, now) <==> now < Expiry(issued, hours))
            && t.who == Hex(Lower(Strip(email))) && FromBase64(t.base64) == Lower(Strip(email))
  {
    var e := Lower(Strip(email));
    var m := Message(Expiry(issued, hours), e);
    ReadSigned(Expiry(issued, hours), e, sign(m));
    DecimalValue(Expiry(issued, hours));
    Base64RoundTrip(e);
  }

  /** A cookie the app issued is valid, and fresh until it expires; what HAProxy
      puts into the identity header is the address it was issued for. */
  lemma IssuedAccepted(sign: Signer, email: string, issued: nat, hours: int, now: int)
    requires Signs(sign) && IsBytes(email) && Lower(Strip(email)) != "" && IsBytes(Lower(Strip(email)))
    ensures var t := ReadToken(Issue(sign, email, issued, hours));
            ValidToken(sign, t)
            && (hours > 0 ==> (FreshToken(t, now) <==> now - issued < 60 * 60 * hours))
            && (hours == 0 ==> (FreshToken(t, now) <==> now - issued < 43200))
            && (hours < 0 ==> (FreshToken(t, now) <==> now - issued < 3600))
            && t.who == Hex(Lower(Strip(email))) && FromBase64(t.base64) == Lower(Strip(email))
  {
    IssuedRead(sign, email, issued, hours, now);
    ExpiryIs(issued, hours, now);
  }

  /** The message HAProxy checks is one the app has signed, if its signature is
      right: nobody else can sign. */
  ghost predicate Authentic(sign: Signer, cookie: string) {
    ValidToken(sign, ReadToken(cookie)) ==>
      exists exp, email :: SignedFor(cookie, exp, email)
  }

  ghost predicate SignedFor(cookie: string, exp: nat, email: string) {
    Unsigned(cookie) == Message(exp, email) && email != "" && IsBytes(email)
  }

  lemma UnsignedShape(cookie: string)
    ensures var tail := cookie[HexTail(cookie)..];
            Unsigned(cookie) == cookie
            || (cookie == Unsigned(cookie) + "." + tail && tail != "" && forall c :: c in tail ==> IsHexDigit(c))
  {
  }

  /** A valid cookie carries the address and the expiry that were signed: no part
      that HAProxy reads lies outside the signature. */
  lemma AcceptedIsSigned(sign: Signer, cookie: string, exp: nat, email: string)
    requires Signs(sign) && ValidToken(sign, ReadToken(cookie)) && SignedFor(cookie, exp, email)
    ensures var t := ReadToken(cookie);
            t.who == Hex(email) && FromBase64(t.base64) == email && ValueOf(t.expiry) == exp
  {
    UnsignedShape(cookie);
    if Unsigned(cookie) == cookie {
      NotUnsigned(sign, cookie, exp, email);
    } else {
      ReadSigned(exp, email, cookie[HexTail(cookie)..]);
    }
    DecimalValue(exp);
    Base64RoundTrip(email);
  }

  /** Without a signature there are three words only, and no fourth to match. */
  lemma NotUnsigned(sign: Signer, cookie: string, exp: nat, email: string)
    requires Signs(sign) && email != "" && IsBytes(email) && cookie == Message(exp, email)
    ensures sign(cookie) != ReadToken(cookie).signature
  {
    MessageLabels(exp, email);
    var three := [Decimal(exp), Hex(email), Base64(email)];
    assert three + [] == three;
    NonEmptyThree(Decimal(exp), Hex(email), Base64(email), []);
  }
}
