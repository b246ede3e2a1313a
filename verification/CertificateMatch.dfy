/** Which certificate serves a host name (ham/wizard.py, `domain_covers` and
    `cert_for_host`; RFC 6125 section 6.4.3). */
module CertificateMatch {
  import opened Options
  import opened Names
  import opened Collections
  import opened ServiceGraph

  function LowerChar(c: char): char {
    if 'A' <= c <= 'Z' then c + ('a' - 'A') else c
  }

  function Lower(s: string): (r: string)
    ensures |r| == |s|
  {
    seq(|s|, i requires 0 <= i < |s| => LowerChar(s[i]))
  }

  const CAPITALS := "ABCDEFGHIJKLMNOPQRSTUVWXYZ"
  const SMALL := "abcdefghijklmnopqrstuvwxyz"

  /** Each capital becomes its small letter, and nothing else changes. */
  lemma LowerIs(s: string, i: nat, k: nat)
    requires i < |s| && k < 26
    ensures s[i] == CAPITALS[k] ==> Lower(s)[i] == SMALL[k]
    ensures s[i] !in CAPITALS ==> Lower(s)[i] == s[i]
  {
    if 'A' <= s[i] <= 'Z' {
      assert CAPITALS[s[i] as int - 'A' as int] == s[i];
    }
  }

  function StripDots(s: string): (r: string)
    ensures r != "" ==> r[0] != '.' && r[|r| - 1] != '.'
    decreases |s|
  {
    if s == "" then ""
    else if s[0] == '.' then StripDots(s[1..])
    else if s[|s| - 1] == '.' then StripDots(s[..|s| - 1])
    else s
  }

  function Clean(s: string): (r: string)
    ensures r != "" ==> r[0] != '.' && r[|r| - 1] != '.'
  {
    Lower(StripDots(Strip(s)))
  }

  /** `domain_covers` on cleaned names. */
  predicate CoversClean(p: string, h: string) {
    p != "" && h != "" &&
    (p == h ||
     (|p| > 2 && p[..2] == "*." &&
      var suffix := p[2..];
      |h| > |suffix| && h[|h| - |suffix| - 1..] == "." + suffix &&
      var left := h[..|h| - |suffix| - 1];
      left != "" && '.' !in left))
  }

  predicate DomainCovers(pattern: string, host: string) {
    CoversClean(Clean(pattern), Clean(host))
  }

  // ----- host names as labels -----

  function Labels(s: string): (r: seq<string>)
    ensures r != []
  {
    if s == "" then [""]
    else if s[0] == '.' then [""] + Labels(s[1..])
    else [[s[0]] + Labels(s[1..])[0]] + Labels(s[1..])[1..]
  }

  lemma {:induction false} LabelsJoin(x: string, t: string)
    requires '.' !in x
    ensures Labels(x + "." + t) == [x] + Labels(t)
  {
    if x == "" {
      assert x + "." + t == "." + t;
    } else {
      assert (x + "." + t)[1..] == x[1..] + "." + t;
      LabelsJoin(x[1..], t);
      assert [x[0]] + x[1..] == x;
    }
  }

  /** A name is empty, or starts with a dot, or with a character of its first label. */
  lemma LabelsHead(s: string)
    ensures s == "" ==> Labels(s) == [""]
    ensures s != "" && s[0] == '.' ==> Labels(s)[0] == "" && Labels(s)[1..] == Labels(s[1..])
    ensures s != "" && s[0] != '.' ==>
      Labels(s)[0] != "" && Labels(s)[0][0] == s[0] && Labels(s[1..]) == [Labels(s)[0][1..]] + Labels(s)[1..]
  {
  }

  lemma {:induction false} LabelsInjective(s: string, t: string)
    requires Labels(s) == Labels(t)
    ensures s == t
  {
    LabelsHead(s);
    LabelsHead(t);
    if s != "" && t != "" {
      assert Labels(s)[0] == Labels(t)[0] && Labels(s)[1..] == Labels(t)[1..];
      assert s[0] == t[0];
      LabelsInjective(s[1..], t[1..]);
      assert s == [s[0]] + s[1..] && t == [t[0]] + t[1..];
    }
  }

  /** A name of several labels is its first label, a dot, and the others. */
  lemma {:induction false} LabelsSplit(s: string)
    requires |Labels(s)| > 1
    ensures |s| > |Labels(s)[0]| && '.' !in Labels(s)[0]
    ensures s == Labels(s)[0] + "." + s[|Labels(s)[0]| + 1..]
    ensures Labels(s[|Labels(s)[0]| + 1..]) == Labels(s)[1..]
  {
    if s[0] != '.' {
      LabelsSplit(s[1..]);
    }
  }

  /** The wildcard stands for exactly one label, the leftmost one; otherwise the
      names are equal, label by label. */
  ghost predicate CoversByLabels(p: seq<string>, h: seq<string>) {
    p == h || (|p| == |h| > 1 && p[0] == "*" && h[0] != "" && p[1..] == h[1..])
  }

  lemma LabelsCover(p: string, h: string)
    requires CoversClean(p, h)
    ensures CoversByLabels(Labels(p), Labels(h))
  {
    if p != h {
      var suffix := p[2..];
      var left := h[..|h| - |suffix| - 1];
      assert h == left + "." + suffix;
      assert p == "*" + "." + suffix;
      LabelsJoin(left, suffix);
      LabelsJoin("*", suffix);
    }
  }

  lemma CoverFromLabels(p: string, h: string)
    requires p != "" && h != "" && p[|p| - 1] != '.'
    requires CoversByLabels(Labels(p), Labels(h))
    ensures CoversClean(p, h)
  {
    if Labels(p) == Labels(h) {
      LabelsInjective(p, h);
    } else {
      LabelsSplit(p);
      LabelsSplit(h);
      var suffix := p[2..];
      var left := Labels(h)[0];
      assert Labels(suffix) == Labels(h)[1..];
      LabelsInjective(suffix, h[|left| + 1..]);
      assert |h| - |suffix| - 1 == |left|;
      assert h[|left|..] == "." + suffix;
      assert h[..|left|] == left;
    }
  }

  /** `domain_covers` is the rule of RFC 6125 section 6.4.3. */
  lemma CoversIsByLabels(pattern: string, host: string)
    requires Clean(pattern) != "" && Clean(host) != ""
    ensures DomainCovers(pattern, host) <==> CoversByLabels(Labels(Clean(pattern)), Labels(Clean(host)))
  {
    var p, h := Clean(pattern), Clean(host);
    if DomainCovers(pattern, host) {
      LabelsCover(p, h);
    }
    if CoversByLabels(Labels(p), Labels(h)) {
      CoverFromLabels(p, h);
    }
  }

  // ----- choosing a certificate -----

  predicate ExactName(domain: string, host: string) {
    Lower(Strip(domain)) == Lower(Strip(host))
  }

  predicate WildcardName(domain: string, host: string) {
    |Strip(domain)| >= 2 && Strip(domain)[..2] == "*." && DomainCovers(domain, host)
  }

  predicate NamesExactly(c: Item<Certificate>, host: string) {
    exists d :: d in c.body.domains && ExactName(d, host)
  }

  predicate NamesByWildcard(c: Item<Certificate>, host: string) {
    exists d :: d in c.body.domains && WildcardName(d, host)
  }

  function FirstExact(certs: seq<Item<Certificate>>, host: string): Option<Item<Certificate>> {
    Find(certs, c => NamesExactly(c, host))
  }

  function FirstWildcard(certs: seq<Item<Certificate>>, host: string): Option<Item<Certificate>> {
    Find(certs, c => NamesByWildcard(c, host))
  }

  datatype Choice = Choice(cert: Item<Certificate>, exact: bool)

  /** An exact name wins over a wildcard that would cover the host too. */
  function BestFor(certs: seq<Item<Certificate>>, host: string): Option<Choice> {
    if FirstExact(certs, host).Some? then Some(Choice(FirstExact(certs, host).value, true))
    else if FirstWildcard(certs, host).Some? then Some(Choice(FirstWildcard(certs, host).value, false))
    else None
  }

  /** A certificate is found exactly when some certificate names the host. */
  lemma {:induction false} FindComplete<B>(xs: seq<Item<B>>, fits: Item<B> -> bool)
    ensures Find(xs, fits).Some? <==> exists x :: x in xs && fits(x)
  {
    if xs != [] {
      FindComplete(xs[1..], fits);
      if exists x :: x in xs && fits(x) {
        var x :| x in xs && fits(x);
        assert x == xs[0] || x in xs[1..];
      }
    }
  }

  lemma BestForFound(certs: seq<Item<Certificate>>, host: string)
    ensures BestFor(certs, host).Some?
       <==> exists c :: c in certs && (NamesExactly(c, host) || NamesByWildcard(c, host))
  {
    FindComplete(certs, c => NamesExactly(c, host));
    FindComplete(certs, c => NamesByWildcard(c, host));
    if FirstWildcard(certs, host).Some? {
      assert NamesByWildcard(FirstWildcard(certs, host).value, host);
    }
    if exists c :: c in certs && (NamesExactly(c, host) || NamesByWildcard(c, host)) {
      var c :| c in certs && (NamesExactly(c, host) || NamesByWildcard(c, host));
    }
  }

  /** The certificate found covers the host. */
  lemma BestForCovers(certs: seq<Item<Certificate>>, host: string)
    requires Clean(host) != "" && BestFor(certs, host).Some?
    ensures exists d :: d in BestFor(certs, host).value.cert.body.domains && DomainCovers(d, host)
  {
    var b := BestFor(certs, host).value;
    if b.exact {
      assert NamesExactly(b.cert, host);
      var d :| d in b.cert.body.domains && ExactName(d, host);
      SameClean(d, host);
      assert DomainCovers(d, host);
    } else {
      assert NamesByWildcard(b.cert, host);
      var d :| d in b.cert.body.domains && WildcardName(d, host);
      assert DomainCovers(d, host);
    }
  }

  lemma {:induction false} LowerStripDots(a: string, b: string)
    requires Lower(a) == Lower(b)
    ensures Lower(StripDots(a)) == Lower(StripDots(b))
    decreases |a|
  {
    assert |a| == |b|;
    if a != "" {
      assert LowerChar(a[0]) == Lower(a)[0] == LowerChar(b[0]);
      assert LowerChar(a[|a| - 1]) == Lower(a)[|a| - 1] == LowerChar(b[|a| - 1]);
      if a[0] == '.' {
        assert Lower(a[1..]) == Lower(a)[1..] == Lower(b[1..]);
        LowerStripDots(a[1..], b[1..]);
      } else if a[|a| - 1] == '.' {
        assert Lower(a[..|a| - 1]) == Lower(a)[..|a| - 1] == Lower(b[..|b| - 1]);
        LowerStripDots(a[..|a| - 1], b[..|b| - 1]);
      }
    }
  }

  lemma SameClean(d: string, host: string)
    requires ExactName(d, host)
    ensures Clean(d) == Clean(host)
  {
    LowerStripDots(Strip(d), Strip(host));
  }

  /** `cert_for_host`. */
  method CertForHost(certs: seq<Item<Certificate>>, host: string) returns (r: Option<Choice>)
    ensures r == BestFor(certs, host)
  {
    var wildcard: Option<Item<Certificate>> := None;
    for i := 0 to |certs|
      invariant FirstExact(certs, host) == FirstExact(certs[i..], host)
      invariant FirstWildcard(certs, host) == if wildcard.Some? then wildcard else FirstWildcard(certs[i..], host)
    {
      assert certs[i..][0] == certs[i] && certs[i..][1..] == certs[i + 1..];
      var exact, covers := Scan(certs[i], host);
      if exact {
        return Some(Choice(certs[i], true));
      }
      if covers && wildcard.None? {
        wildcard := Some(certs[i]);
      }
    }
    assert certs[|certs|..] == [];
    return if wildcard.Some? then Some(Choice(wildcard.value, false)) else None;
  }

  method Scan(c: Item<Certificate>, host: string) returns (exact: bool, covers: bool)
    ensures exact == NamesExactly(c, host)
    ensures !exact ==> covers == NamesByWildcard(c, host)
  {
    exact, covers := false, false;
    var ds := c.body.domains;
    for j := 0 to |ds|
      invariant forall k :: 0 <= k < j ==> !ExactName(ds[k], host)
      invariant covers <==> exists k :: 0 <= k < j && WildcardName(ds[k], host)
    {
      if ExactName(ds[j], host) {
        assert ds[j] in ds;
        return true, covers;
      }
      if WildcardName(ds[j], host) {
        covers := true;
      }
    }
  }
}
