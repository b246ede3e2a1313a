/** Who may sign in (ham/oauth.py, `parse_allow`), and how the rendered pool matches
    an address against that list (ham/haproxy.py): in hex, whole or at the end. */
module AllowList {
  import opened Names
  import opened CertificateMatch
  import opened SsoToken

  // ----- reading the list -----

  predicate AlphaNumeric(c: char) {
    'a' <= c <= 'z' || '0' <= c <= '9'
  }

  predicate HostLabel(s: string) {
    0 < |s| <= 64 && AlphaNumeric(s[0]) && AlphaNumeric(s[|s| - 1])
    && forall c :: c in s ==> AlphaNumeric(c) || c == '-'
  }

  /** `valid_host`: at least two labels. */
  predicate ValidHost(name: string) {
    var ls := Labels(Lower(Strip(name)));
    |ls| > 1 && forall l :: l in ls ==> HostLabel(l)
  }

  predicate PlainPart(s: string) {
    s != "" && forall c :: c in s ==> c != '@' && !Blank(c)
  }

  /** A local part, one @, and a domain with a dot inside it. */
  predicate EmailAt(s: string, at: nat) {
    at < |s| && s[at] == '@' && PlainPart(s[..at]) && PlainPart(s[at + 1..])
    && exists i :: at + 1 < i < |s| - 1 && s[i] == '.'
  }

  predicate IsEmail(s: string) {
    exists at :: 0 <= at < |s| && EmailAt(s, at)
  }

  predicate IsDomain(s: string) {
    s != "" && s[0] == '@'
  }

  predicate Acceptable(s: string) {
    s == "*" || (IsDomain(s) && ValidHost(s[1..])) || IsEmail(s)
  }

  // ----- the same, character by character -----

  const LETTERS := "abcdefghijklmnopqrstuvwxyz0123456789"

  lemma LettersAre(c: char)
    ensures AlphaNumeric(c) <==> c in LETTERS
  {
    var n := c as int;
    if AlphaNumeric(c) {
      var i := if 'a' <= c then n - 'a' as int else n - '0' as int + 26;
      assert LETTERS[i] == c;
    } else {
      forall i | 0 <= i < |LETTERS|
        ensures LETTERS[i] != c
      {
      }
    }
  }

  /** A label: one to sixty-four letters, digits and hyphens, no hyphen at either end. */
  lemma LabelIs(s: string)
    ensures HostLabel(s) <==>
      s != "" && |s| < 65 && (forall i :: 0 <= i < |s| ==> s[i] in LETTERS || s[i] == '-')
      && s[0] != '-' && s[|s| - 1] != '-'
  {
    forall c
      ensures AlphaNumeric(c) <==> c in LETTERS
    {
      LettersAre(c);
    }
    if s != "" {
      assert s[0] in s && s[|s| - 1] in s;
      assert forall i :: 0 <= i < |s| ==> s[i] in s;
    }
  }

  /** Neither an at sign nor a blank. */
  predicate Clear(s: string) {
    forall i :: 0 <= i < |s| ==> s[i] != '@' && s[i] != ' ' && !('\t' <= s[i] <= '\r')
  }

  /** An address is a local part, an at sign and two parts of a domain with a dot between,
      none of them empty, without blanks and without another at sign. */
  lemma EmailIs(s: string)
    ensures IsEmail(s) <==> exists a, b, c :: InParts(s, a, b, c)
  {
    if at :| 0 <= at < |s| && EmailAt(s, at) {
      EmailHasParts(s, at);
    }
    if a, b, c :| InParts(s, a, b, c) {
      PartsMakeEmail(s, a, b, c);
    }
  }

  ghost predicate InParts(s: string, a: string, b: string, c: string) {
    s == a + "@" + b + "." + c && a != "" && b != "" && c != "" && Clear(a) && Clear(b) && Clear(c)
  }

  lemma PlainIsClear(s: string)
    requires PlainPart(s)
    ensures Clear(s)
  {
    assert forall k :: 0 <= k < |s| ==> s[k] in s;
  }

  lemma ClearAround(b: string, c: string)
    requires Clear(b + "." + c)
    ensures Clear(b) && Clear(c)
  {
    var all := b + "." + c;
    assert forall k :: 0 <= k < |b| ==> b[k] == all[k];
    assert forall k :: 0 <= k < |c| ==> c[k] == all[|b| + 1 + k];
  }

  lemma EmailHasParts(s: string, at: nat)
    requires EmailAt(s, at)
    ensures exists a, b, c :: InParts(s, a, b, c)
  {
    var i :| at + 1 < i < |s| - 1 && s[i] == '.';
    var a, b, c := s[..at], s[at + 1..i], s[i + 1..];
    PlainIsClear(a);
    PlainIsClear(s[at + 1..]);
    assert s[at + 1..] == b + "." + c;
    ClearAround(b, c);
    assert s == a + "@" + b + "." + c;
    assert InParts(s, a, b, c);
  }

  lemma PartsMakeEmail(s: string, a: string, b: string, c: string)
    requires InParts(s, a, b, c)
    ensures EmailAt(s, |a|)
  {
    var tail := b + "." + c;
    assert s[..|a|] == a && s[|a| + 1..] == tail && s[|a|] == '@';
    assert s[|a| + 1 + |b|] == '.';
    forall x | x in tail
      ensures x != '@' && !Blank(x)
    {
      var k :| 0 <= k < |tail| && tail[k] == x;
      assert k < |b| ==> x == b[k];
      assert k > |b| ==> x == c[k - |b| - 1];
    }
  }

  /** What a line may say: anyone, a domain of two or more labels, or an address. */
  lemma AcceptableIs(s: string)
    ensures Acceptable(s) <==>
      s == "*" || IsEmail(s) ||
      (s != "" && s[0] == '@' && var ls := Labels(Lower(Strip(s[1..])));
         |ls| >= 2 && forall i :: 0 <= i < |ls| ==> HostLabel(ls[i]))
  {
    if s != "" && s[0] == '@' {
      var ls := Labels(Lower(Strip(s[1..])));
      assert (forall l :: l in ls ==> HostLabel(l)) <==> forall i :: 0 <= i < |ls| ==> HostLabel(ls[i]);
    }
  }

  function Entry(line: string): string {
    Lower(Strip(line))
  }

  /** What a line adds to the list, and to the lines reported as bad. */
  function Kept(line: string): seq<string> {
    if Acceptable(Entry(line)) then [Entry(line)] else []
  }

  function Reported(line: string): seq<string> {
    if Entry(line) == "" || Acceptable(Entry(line)) then [] else [Strip(line)]
  }

  function Entries(lines: seq<string>): seq<string> {
    if lines == [] then [] else Kept(lines[0]) + Entries(lines[1..])
  }

  function BadLines(lines: seq<string>): seq<string> {
    if lines == [] then [] else Reported(lines[0]) + BadLines(lines[1..])
  }

  function BlankLines(lines: seq<string>): nat {
    if lines == [] then 0 else (if Entry(lines[0]) == "" then 1 else 0) + BlankLines(lines[1..])
  }

  lemma EmptyRefused()
    ensures !Acceptable("")
  {
  }

  /** Every line is blank, an entry or reported as bad; nothing is lost. */
  lemma {:induction false} LinesAccounted(lines: seq<string>)
    ensures |Entries(lines)| + |BadLines(lines)| + BlankLines(lines) == |lines|
  {
    if lines != [] {
      EmptyRefused();
      LinesAccounted(lines[1..]);
    }
  }

  method ReadLine(line: string) returns (kept: seq<string>, reported: seq<string>)
    ensures kept == Kept(line) && reported == Reported(line)
  {
    EmptyRefused();
    kept, reported := [], [];
    var entry := Entry(line);
    if entry == "" {
      return;
    }
    if Acceptable(entry) {
      kept := [entry];
    } else {
      reported := [Strip(line)];
    }
  }

  lemma NextLine(lines: seq<string>, i: nat, entries: seq<string>)
    requires i < |lines|
    ensures entries + Entries(lines[i..]) == entries + Kept(lines[i]) + Entries(lines[i + 1..])
  {
    assert lines[i..][1..] == lines[i + 1..];
  }

  lemma NextBadLine(lines: seq<string>, i: nat, bad: seq<string>)
    requires i < |lines|
    ensures bad + BadLines(lines[i..]) == bad + Reported(lines[i]) + BadLines(lines[i + 1..])
  {
    assert lines[i..][1..] == lines[i + 1..];
  }

  /** `parse_allow`. */
  method ParseAllow(lines: seq<string>) returns (entries: seq<string>, bad: seq<string>)
    ensures entries == Entries(lines) && bad == BadLines(lines)
    ensures |entries| + |bad| + BlankLines(lines) == |lines|
  {
    LinesAccounted(lines);
    entries, bad := [], [];
    for i := 0 to |lines|
      invariant entries + Entries(lines[i..]) == Entries(lines)
      invariant bad + BadLines(lines[i..]) == BadLines(lines)
    {
      NextLine(lines, i, entries);
      NextBadLine(lines, i, bad);
      var kept, reported := ReadLine(lines[i]);
      entries, bad := entries + kept, bad + reported;
    }
    assert lines[|lines|..] == [];
  }

  // ----- matching -----

  /** Does an entry admit an address? */
  predicate Admits(entry: string, email: string) {
    entry == "*" || if IsDomain(entry) then EndsWith(email, entry) else email == entry
  }

  predicate Admitted(entries: seq<string>, email: string) {
    exists e :: e in entries && Admits(e, email)
  }

  predicate Exact(entry: string) {
    entry != "*" && !IsDomain(entry)
  }

  /** An entry is one address, one domain or everyone: never two of these. */
  lemma OneKind(entry: string)
    ensures Exact(entry) <==> entry != "*" && forall email :: Admits(entry, email) <==> email == entry
  {
    if IsDomain(entry) {
      var longer := "x" + entry;
      assert longer[|longer| - |entry|..] == entry;
      assert Admits(entry, longer) && longer != entry;
    }
  }

  function Emails(entries: seq<string>): seq<string> {
    if entries == [] then [] else (if Exact(entries[0]) then [Hex(entries[0])] else []) + Emails(entries[1..])
  }

  function Domains(entries: seq<string>): seq<string> {
    if entries == [] then [] else (if IsDomain(entries[0]) then [Hex(entries[0])] else []) + Domains(entries[1..])
  }

  /** The access list of the pool: one of the strings, or an end. */
  predicate HexMatches(who: string, emails: seq<string>, domains: seq<string>) {
    who in emails || exists d :: d in domains && EndsWith(who, d)
  }

  lemma {:induction false} EmailsMember(entries: seq<string>, h: string)
    ensures h in Emails(entries) <==> exists e :: e in entries && Exact(e) && Hex(e) == h
  {
    if entries != [] {
      EmailsMember(entries[1..], h);
      if h in Emails(entries[1..]) {
        var e :| e in entries[1..] && Exact(e) && Hex(e) == h;
        assert e in entries;
      }
      if exists e :: e in entries && Exact(e) && Hex(e) == h {
        var e :| e in entries && Exact(e) && Hex(e) == h;
        assert e == entries[0] || e in entries[1..];
      }
    }
  }

  lemma {:induction false} DomainsMember(entries: seq<string>, h: string)
    ensures h in Domains(entries) <==> exists e :: e in entries && IsDomain(e) && Hex(e) == h
  {
    if entries != [] {
      DomainsMember(entries[1..], h);
      if h in Domains(entries[1..]) {
        var e :| e in entries[1..] && IsDomain(e) && Hex(e) == h;
        assert e in entries;
      }
      if exists e :: e in entries && IsDomain(e) && Hex(e) == h {
        var e :| e in entries && IsDomain(e) && Hex(e) == h;
        assert e == entries[0] || e in entries[1..];
      }
    }
  }

  ghost predicate AllBytes(entries: seq<string>) {
    forall e :: e in entries ==> IsBytes(e)
  }

  /** Matching in hex admits exactly the addresses the list admits. */
  lemma HexMatchesAdmitted(entries: seq<string>, email: string)
    requires AllBytes(entries) && IsBytes(email)
    ensures "*" in entries || HexMatches(Hex(email), Emails(entries), Domains(entries)) <==> Admitted(entries, email)
  {
    if "*" in entries {
      assert Admits("*", email);
    }
    if Admitted(entries, email) {
      AdmittedMatches(entries, email);
    }
    if HexMatches(Hex(email), Emails(entries), Domains(entries)) {
      MatchAdmitted(entries, email);
    }
  }

  lemma AdmittedMatches(entries: seq<string>, email: string)
    requires AllBytes(entries) && IsBytes(email) && Admitted(entries, email)
    ensures "*" in entries || HexMatches(Hex(email), Emails(entries), Domains(entries))
  {
    var e :| e in entries && Admits(e, email);
    if IsDomain(e) {
      DomainsMember(entries, Hex(e));
      HexEndsWith(email, e);
    } else if e != "*" {
      EmailsMember(entries, Hex(e));
    }
  }

  lemma MatchAdmitted(entries: seq<string>, email: string)
    requires AllBytes(entries) && IsBytes(email) && HexMatches(Hex(email), Emails(entries), Domains(entries))
    ensures Admitted(entries, email)
  {
    if Hex(email) in Emails(entries) {
      EmailsMember(entries, Hex(email));
      var e :| e in entries && Exact(e) && Hex(e) == Hex(email);
      HexInjective(e, email);
      assert Admits(e, email);
    } else {
      var d :| d in Domains(entries) && EndsWith(Hex(email), d);
      DomainsMember(entries, d);
      var e :| e in entries && IsDomain(e) && Hex(e) == d;
      HexEndsWith(email, e);
      assert Admits(e, email);
    }
  }

  /** An @domain entry admits exactly the addresses of that domain: not those of its
      subdomains, nor of a domain that merely ends the same way. */
  lemma DomainIsExact(local: string, domain: string, named: string)
    requires '@' !in domain && '@' !in named
    ensures Admits("@" + named, local + "@" + domain) <==> domain == named
  {
    var email, entry := local + "@" + domain, "@" + named;
    if EndsWith(email, entry) {
      var k := |email| - |entry|;
      assert email[k] == entry[0] == '@';
      assert forall i :: |local| < i < |email| ==> email[i] == domain[i - |local| - 1];
      assert k <= |local|;
      assert email[|local|] == entry[|local| - k];
      assert forall j :: 0 < j < |entry| ==> entry[j] == named[j - 1];
      assert email[k + 1..] == domain;
      assert entry[1..] == named;
    }
    if domain == named {
      assert email[|local|..] == entry;
    }
  }
}
