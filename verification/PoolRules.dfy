/** The rules rendered for a backend pool (ham/haproxy.py, `render_haproxy`), as
    directives that HAProxy runs in order: what the list decides of a request is
    what the pool's settings say. */
module PoolRules {
  import opened Options
  import opened SsoToken
  import opened AllowList

  // ----- the pool's settings and a request -----

  datatype Number = Blank | Whole(value: int) | Malformed

  /** `allow` is none when the setting is blank, and otherwise its valid networks. */
  datatype Pool = Pool(
    http: bool, maintenance: bool, allow: Option<seq<string>>, rate: Number, window: Number,
    oauth: bool, entries: seq<string>, forward: bool,
    basic: bool, groups: seq<string>, exempt: seq<string>)

  /** What the rest of the configuration says: is single sign-on ready, which group
      ids exist and under what name, and has any user a password. */
  datatype Site = Site(ready: bool, sign: Signer, groupNames: map<string, string>, passwords: bool)

  /** `networks` are the networks the client's address lies in, `seen` how many
      requests it made within the window, `user` the groups of the user whose
      password it gave. */
  datatype Request = Request(
    networks: set<string>, seen: nat, cookie: string, now: int, user: Option<set<string>>,
    headers: map<Header, string>)

  /** X-Auth-Request-Email and Remote-User, and the rest. */
  datatype Header = AuthEmail | RemoteUser | Other(name: string)

  /** `_rate_limit`: anything but positive whole numbers is no limit. */
  function Ceiling(p: Pool): nat {
    if p.rate.Malformed? || p.window.Malformed? then 0
    else
      var rate := if p.rate.Whole? then p.rate.value else 0;
      var window := if p.window.Whole? then p.window.value else 10;
      if rate > 0 && window > 0 then rate else 0
  }

  function GroupNames(names: map<string, string>, ids: seq<string>): seq<string> {
    if ids == [] then []
    else (if ids[0] in names && names[ids[0]] != "" then [names[ids[0]]] else []) + GroupNames(names, ids[1..])
  }

  // ----- directives -----

  datatype Test =
    | Always
    | FromAny(nets: seq<string>)
    | RateAbove(n: nat)
    | TokenValid
    | TokenFresh
    | WhoIs(emails: seq<string>, domains: seq<string>)
    | SignedIn
    | InGroups(names: seq<string>)
    | Not(t: Test)
    | Both(a: Test, b: Test)
    | Either(a: Test, b: Test)

  /** `ReadCookie` stands for the lines that take the token apart. */
  datatype Directive =
    | Answer(status: nat, test: Test)
    | Reject(test: Test)
    | Track
    | ReadCookie
    | SignIn(test: Test)
    | AskPassword(test: Test)
    | DeleteHeader(name: Header)
    | SetAddress(name: Header, test: Test)

  datatype State = State(headers: map<Header, string>, token: Option<Token>, tracked: bool)

  datatype Outcome =
    | Answered(status: nat)
    | Dropped
    | SentToSignIn
    | AskedForPassword
    | Forwarded(headers: map<Header, string>)

  predicate InAny(nets: seq<string>, q: Request) {
    exists n :: n in nets && n in q.networks
  }

  predicate InGroup(names: seq<string>, q: Request) {
    q.user.Some? && exists g :: g in names && g in q.user.value
  }

  predicate Holds(t: Test, site: Site, q: Request, s: State) {
    match t
    case Always => true
    case FromAny(nets) => InAny(nets, q)
    case RateAbove(n) => s.tracked && q.seen > n
    case TokenValid => s.token.Some? && ValidToken(site.sign, s.token.value)
    case TokenFresh => s.token.Some? && FreshToken(s.token.value, q.now)
    case WhoIs(emails, domains) => s.token.Some? && HexMatches(s.token.value.who, emails, domains)
    case SignedIn => q.user.Some?
    case InGroups(names) => InGroup(names, q)
    case Not(a) => !Holds(a, site, q, s)
    case Both(a, b) => Holds(a, site, q, s) && Holds(b, site, q, s)
    case Either(a, b) => Holds(a, site, q, s) || Holds(b, site, q, s)
  }

  /** A directive ends the request's way, or lets it go on. */
  datatype Result = Ended(outcome: Outcome) | Running(state: State)

  function Address(s: State): string {
    if s.token.Some? then FromBase64(s.token.value.base64) else ""
  }

  function Step(d: Directive, site: Site, q: Request, s: State): Result {
    match d
    case Answer(status, t) => if Holds(t, site, q, s) then Ended(Answered(status)) else Running(s)
    case Reject(t) => if Holds(t, site, q, s) then Ended(Dropped) else Running(s)
    case Track => Running(s.(tracked := true))
    case ReadCookie => Running(s.(token := Some(ReadToken(q.cookie))))
    case SignIn(t) => if Holds(t, site, q, s) then Ended(SentToSignIn) else Running(s)
    case AskPassword(t) => if Holds(t, site, q, s) then Ended(AskedForPassword) else Running(s)
    case DeleteHeader(name) => Running(s.(headers := s.headers - {name}))
    case SetAddress(name, t) =>
      Running(if Holds(t, site, q, s) then s.(headers := s.headers[name := Address(s)]) else s)
  }

  /** Directives run in order until one ends the request's way. */
  function Run(ds: seq<Directive>, site: Site, q: Request, s: State): Result {
    if ds == [] then Running(s)
    else
      var r := Step(ds[0], site, q, s);
      if r.Ended? then r else Run(ds[1..], site, q, r.state)
  }

  function Start(q: Request): State {
    State(q.headers, None, false)
  }

  /** What becomes of a request: one that no directive ends is forwarded. */
  function Serve(ds: seq<Directive>, site: Site, q: Request): Outcome {
    var r := Run(ds, site, q, Start(q));
    if r.Ended? then r.outcome else Forwarded(r.state.headers)
  }

  // ----- what is rendered -----

  function Deny(http: bool, status: nat, t: Test): Directive {
    if http then Answer(status, t) else Reject(t)
  }

  function MaintenanceRules(p: Pool): seq<Directive> {
    if p.maintenance then [Deny(p.http, 503, Always)] else []
  }

  /** A list whose every entry is malformed refuses everyone. */
  function SourceRules(p: Pool): seq<Directive> {
    if p.allow.None? then []
    else [Deny(p.http, 403, if p.allow.value != [] then Not(FromAny(p.allow.value)) else Always)]
  }

  function RateRules(p: Pool): seq<Directive> {
    if Ceiling(p) == 0 then [] else [Track, Deny(p.http, 429, RateAbove(Ceiling(p)))]
  }

  function IdentityRules(site: Site, p: Pool): seq<Directive> {
    if site.ready && p.http then [DeleteHeader(AuthEmail), DeleteHeader(RemoteUser)] else []
  }

  function TokenRules(p: Pool): seq<Directive> {
    [ReadCookie, SignIn(Not(Both(TokenValid, TokenFresh)))]
    + if "*" in p.entries then [] else [Answer(403, Not(WhoIs(Emails(p.entries), Domains(p.entries))))]
  }

  function ForwardRules(p: Pool): seq<Directive> {
    if p.forward then
      [SetAddress(AuthEmail, Both(TokenValid, TokenFresh)), SetAddress(RemoteUser, Both(TokenValid, TokenFresh))]
    else []
  }

  function SsoRules(site: Site, p: Pool): seq<Directive> {
    if !p.oauth || !p.http then []
    else if !site.ready || p.entries == [] then [Answer(403, Always)]
    else TokenRules(p) + ForwardRules(p)
  }

  function PasswordTest(site: Site, p: Pool): Test {
    var allowed := GroupNames(site.groupNames, p.groups);
    if allowed != [] then InGroups(allowed) else SignedIn
  }

  /** Can anybody give the password this pool asks for? */
  predicate PasswordPossible(site: Site, p: Pool) {
    site.passwords && (p.groups == [] || GroupNames(site.groupNames, p.groups) != [])
  }

  function BasicRules(site: Site, p: Pool): seq<Directive> {
    if !p.basic || !p.http then []
    else if !PasswordPossible(site, p) then
      [Answer(403, if p.exempt != [] then Not(FromAny(p.exempt)) else Always)]
    else
      var known := PasswordTest(site, p);
      [AskPassword(Not(if p.exempt != [] then Either(FromAny(p.exempt), known) else known))]
  }

  function Rendered(site: Site, p: Pool): seq<Directive> {
    MaintenanceRules(p)
    + (SourceRules(p) + (RateRules(p) + (IdentityRules(site, p) + (SsoRules(site, p) + BasicRules(site, p)))))
  }

  /** The part of `render_haproxy` that writes a pool's rules, line after line. */
  method Render(site: Site, p: Pool) returns (lines: seq<Directive>)
    ensures lines == Rendered(site, p)
  {
    var access := RenderAccess(p);
    var identity: seq<Directive> := [];
    if site.ready && p.http {
      identity := [DeleteHeader(AuthEmail), DeleteHeader(RemoteUser)];
    }
    var sso := RenderSso(site, p);
    var basic := RenderBasic(site, p);
    Regroup(MaintenanceRules(p), SourceRules(p), RateRules(p), identity, sso + basic);
    lines := access + identity + (sso + basic);
  }

  lemma Regroup(a: seq<Directive>, b: seq<Directive>, c: seq<Directive>, d: seq<Directive>, e: seq<Directive>)
    ensures a + b + c + d + e == a + (b + (c + (d + e)))
  {
  }

  method RenderAccess(p: Pool) returns (lines: seq<Directive>)
    ensures lines == MaintenanceRules(p) + SourceRules(p) + RateRules(p)
  {
    lines := [];
    if p.maintenance {
      lines := lines + [Deny(p.http, 503, Always)];
    }
    assert lines == MaintenanceRules(p);
    if p.allow.Some? {
      if p.allow.value != [] {
        lines := lines + [Deny(p.http, 403, Not(FromAny(p.allow.value)))];
      } else {
        lines := lines + [Deny(p.http, 403, Always)];
      }
    }
    assert lines == MaintenanceRules(p) + SourceRules(p);
    var ceiling := Ceiling(p);
    if ceiling > 0 {
      lines := lines + [Track, Deny(p.http, 429, RateAbove(ceiling))];
    }
  }

  method RenderSso(site: Site, p: Pool) returns (lines: seq<Directive>)
    ensures lines == SsoRules(site, p)
  {
    lines := [];
    if p.oauth && p.http {
      if !site.ready || p.entries == [] {
        lines := lines + [Answer(403, Always)];
      } else {
        lines := lines + [ReadCookie, SignIn(Not(Both(TokenValid, TokenFresh)))];
        if "*" !in p.entries {
          lines := lines + [Answer(403, Not(WhoIs(Emails(p.entries), Domains(p.entries))))];
        }
        if p.forward {
          lines := lines + [SetAddress(AuthEmail, Both(TokenValid, TokenFresh)),
                            SetAddress(RemoteUser, Both(TokenValid, TokenFresh))];
        }
      }
    }
  }

  method RenderBasic(site: Site, p: Pool) returns (lines: seq<Directive>)
    ensures lines == BasicRules(site, p)
  {
    lines := [];
    if p.basic && p.http {
      var allowed := GroupNames(site.groupNames, p.groups);
      if !site.passwords || (p.groups != [] && allowed == []) {
        if p.exempt != [] {
          lines := lines + [Answer(403, Not(FromAny(p.exempt)))];
        } else {
          lines := lines + [Answer(403, Always)];
        }
      } else {
        var test := if allowed != [] then InGroups(allowed) else SignedIn;
        lines := lines + [AskPassword(Not(if p.exempt != [] then Either(FromAny(p.exempt), test) else test))];
      }
    }
  }

  // ----- what the settings say -----

  predicate SourceAdmitted(p: Pool, q: Request) {
    p.allow.None? || InAny(p.allow.value, q)
  }

  predicate TooMany(p: Pool, q: Request) {
    Ceiling(p) > 0 && q.seen > Ceiling(p)
  }

  /** The address of a valid token that has not expired. */
  function SignedAddress(site: Site, q: Request): Option<string> {
    var t := ReadToken(q.cookie);
    if ValidToken(site.sign, t) && FreshToken(t, q.now) then Some(FromBase64(t.base64)) else None
  }

  predicate PasswordGiven(site: Site, p: Pool, q: Request) {
    if p.groups == [] then q.user.Some? else InGroup(GroupNames(site.groupNames, p.groups), q)
  }

  function Refusal(p: Pool, status: nat): Outcome {
    if p.http then Answered(status) else Dropped
  }

  function SentHeaders(site: Site, p: Pool, q: Request): map<Header, string> {
    if !site.ready then q.headers
    else if p.oauth && p.forward && SignedAddress(site, q).Some? then
      var signed := SignedAddress(site, q).value;
      (q.headers - {AuthEmail} - {RemoteUser})[AuthEmail := signed][RemoteUser := signed]
    else q.headers - {AuthEmail} - {RemoteUser}
  }

  function DecideBasic(site: Site, p: Pool, q: Request): Outcome {
    if p.basic && !InAny(p.exempt, q) && !PasswordPossible(site, p) then Answered(403)
    else if p.basic && !InAny(p.exempt, q) && !PasswordGiven(site, p, q) then AskedForPassword
    else Forwarded(SentHeaders(site, p, q))
  }

  function DecideSso(site: Site, p: Pool, q: Request): Outcome {
    if p.oauth && (!site.ready || p.entries == []) then Answered(403)
    else if p.oauth && SignedAddress(site, q).None? then SentToSignIn
    else if p.oauth && !Admitted(p.entries, SignedAddress(site, q).value) then Answered(403)
    else DecideBasic(site, p, q)
  }

  /** Maintenance, then the source, the rate, single sign-on and the password. */
  function Decide(site: Site, p: Pool, q: Request): Outcome {
    if p.maintenance then Refusal(p, 503)
    else if !SourceAdmitted(p, q) then Refusal(p, 403)
    else if TooMany(p, q) then Refusal(p, 429)
    else if !p.http then Forwarded(q.headers)
    else DecideSso(site, p, q)
  }

  // ----- the rules decide what the settings say -----

  lemma {:induction false} RunAppend(a: seq<Directive>, b: seq<Directive>, site: Site, q: Request, s: State)
    ensures Run(a + b, site, q, s)
         == if Run(a, site, q, s).Ended? then Run(a, site, q, s) else Run(b, site, q, Run(a, site, q, s).state)
  {
    if a == [] {
      assert a + b == b;
    } else {
      assert (a + b)[1..] == a[1..] + b;
      var r := Step(a[0], site, q, s);
      if !r.Ended? {
        RunAppend(a[1..], b, site, q, r.state);
      }
    }
  }

  lemma RunOne(d: Directive, site: Site, q: Request, s: State)
    ensures Run([d], site, q, s) == Step(d, site, q, s)
  {
  }

  lemma RunTwo(d: Directive, e: Directive, site: Site, q: Request, s: State)
    ensures Run([d, e], site, q, s)
         == if Step(d, site, q, s).Ended? then Step(d, site, q, s) else Step(e, site, q, Step(d, site, q, s).state)
  {
    assert [d, e] == [d] + [e];
    RunAppend([d], [e], site, q, s);
    RunOne(d, site, q, s);
    if Step(d, site, q, s).Running? {
      RunOne(e, site, q, Step(d, site, q, s).state);
    }
  }

  lemma HoldsNotAny(nets: seq<string>, site: Site, q: Request, s: State)
    ensures Holds(Not(FromAny(nets)), site, q, s) <==> !InAny(nets, q)
  {
    assert Holds(FromAny(nets), site, q, s) <==> InAny(nets, q);
  }

  /** Once the cookie is read, the two token tests ask for a signed address. */
  lemma HoldsSigned(site: Site, q: Request, s: State)
    requires s.token == Some(ReadToken(q.cookie))
    ensures Holds(Both(TokenValid, TokenFresh), site, q, s) <==> SignedAddress(site, q).Some?
    ensures Holds(Not(Both(TokenValid, TokenFresh)), site, q, s) <==> SignedAddress(site, q).None?
  {
    assert Holds(TokenValid, site, q, s) <==> ValidToken(site.sign, ReadToken(q.cookie));
    assert Holds(TokenFresh, site, q, s) <==> FreshToken(ReadToken(q.cookie), q.now);
  }

  lemma HoldsNotWho(site: Site, q: Request, s: State, emails: seq<string>, domains: seq<string>)
    requires s.token.Some?
    ensures Holds(Not(WhoIs(emails, domains)), site, q, s) <==> !HexMatches(s.token.value.who, emails, domains)
  {
    assert Holds(WhoIs(emails, domains), site, q, s) <==> HexMatches(s.token.value.who, emails, domains);
  }

  lemma MaintenanceRun(site: Site, p: Pool, q: Request, s: State)
    ensures Run(MaintenanceRules(p), site, q, s) == if p.maintenance then Ended(Refusal(p, 503)) else Running(s)
  {
    RunOne(Deny(p.http, 503, Always), site, q, s);
  }

  lemma SourceRun(site: Site, p: Pool, q: Request, s: State)
    ensures Run(SourceRules(p), site, q, s) == if SourceAdmitted(p, q) then Running(s) else Ended(Refusal(p, 403))
  {
    if p.allow.Some? {
      HoldsNotAny(p.allow.value, site, q, s);
      RunOne(Deny(p.http, 403, if p.allow.value != [] then Not(FromAny(p.allow.value)) else Always), site, q, s);
    }
  }

  /** The request's source is being counted exactly when there is a ceiling. */
  function Tracked(p: Pool, s: State): State {
    if Ceiling(p) > 0 then s.(tracked := true) else s
  }

  lemma RateRun(site: Site, p: Pool, q: Request, s: State)
    ensures Run(RateRules(p), site, q, s) == if TooMany(p, q) then Ended(Refusal(p, 429)) else Running(Tracked(p, s))
  {
    if Ceiling(p) > 0 {
      RunTwo(Track, Deny(p.http, 429, RateAbove(Ceiling(p))), site, q, s);
    }
  }

  function Cleared(site: Site, p: Pool, s: State): State {
    if site.ready && p.http then s.(headers := s.headers - {AuthEmail} - {RemoteUser}) else s
  }

  lemma IdentityRun(site: Site, p: Pool, q: Request, s: State)
    ensures Run(IdentityRules(site, p), site, q, s) == Running(Cleared(site, p, s))
  {
    if site.ready && p.http {
      RunTwo(DeleteHeader(AuthEmail), DeleteHeader(RemoteUser), site, q, s);
    }
  }

  /** The address the token carries in hex is the one it carries in base64. */
  ghost predicate SameAddress(q: Request) {
    ReadToken(q.cookie).who == Hex(FromBase64(ReadToken(q.cookie).base64))
    && IsBytes(FromBase64(ReadToken(q.cookie).base64))
  }

  lemma TokenRun(site: Site, p: Pool, q: Request, s: State)
    requires AllBytes(p.entries) && (SignedAddress(site, q).Some? ==> SameAddress(q))
    ensures Run(TokenRules(p), site, q, s) ==
            if SignedAddress(site, q).None? then Ended(SentToSignIn)
            else if !Admitted(p.entries, SignedAddress(site, q).value) then Ended(Answered(403))
            else Running(s.(token := Some(ReadToken(q.cookie))))
  {
    var first := [ReadCookie, SignIn(Not(Both(TokenValid, TokenFresh)))];
    var deny := Answer(403, Not(WhoIs(Emails(p.entries), Domains(p.entries))));
    var read := s.(token := Some(ReadToken(q.cookie)));
    RunTwo(ReadCookie, SignIn(Not(Both(TokenValid, TokenFresh))), site, q, s);
    HoldsSigned(site, q, read);
    HoldsNotWho(site, q, read, Emails(p.entries), Domains(p.entries));
    if SignedAddress(site, q).Some? {
      HexMatchesAdmitted(p.entries, SignedAddress(site, q).value);
    }
    if "*" in p.entries {
      assert first + [] == first;
    } else {
      RunAppend(first, [deny], site, q, s);
      RunOne(deny, site, q, read);
    }
  }

  lemma ForwardRun(site: Site, p: Pool, q: Request, s: State)
    requires s.token == Some(ReadToken(q.cookie)) && SignedAddress(site, q).Some?
    ensures var signed := SignedAddress(site, q).value;
      Run(ForwardRules(p), site, q, s)
      == Running(if p.forward then s.(headers := s.headers[AuthEmail := signed][RemoteUser := signed]) else s)
  {
    if p.forward {
      var half := s.(headers := s.headers[AuthEmail := SignedAddress(site, q).value]);
      HoldsSigned(site, q, s);
      HoldsSigned(site, q, half);
      RunTwo(SetAddress(AuthEmail, Both(TokenValid, TokenFresh)),
          SetAddress(RemoteUser, Both(TokenValid, TokenFresh)), site, q, s);
    }
  }

  /** What single sign-on decides, and the headers it leaves. */
  function AfterSso(site: Site, p: Pool, q: Request, s: State): Result {
    if !p.oauth then Running(s)
    else if !site.ready || p.entries == [] then Ended(Answered(403))
    else if SignedAddress(site, q).None? then Ended(SentToSignIn)
    else if !Admitted(p.entries, SignedAddress(site, q).value) then Ended(Answered(403))
    else
      var signed := SignedAddress(site, q).value;
      Running(s.(token := Some(ReadToken(q.cookie)),
                 headers := if p.forward then s.headers[AuthEmail := signed][RemoteUser := signed] else s.headers))
  }

  lemma SsoRun(site: Site, p: Pool, q: Request, s: State)
    requires p.http && AllBytes(p.entries) && (SignedAddress(site, q).Some? ==> SameAddress(q))
    ensures Run(SsoRules(site, p), site, q, s) == AfterSso(site, p, q, s)
  {
    if p.oauth {
      if !site.ready || p.entries == [] {
        RunOne(Answer(403, Always), site, q, s);
      } else {
        TokenRun(site, p, q, s);
        RunAppend(TokenRules(p), ForwardRules(p), site, q, s);
        if SignedAddress(site, q).Some? {
          ForwardRun(site, p, q, s.(token := Some(ReadToken(q.cookie))));
        }
      }
    }
  }

  lemma PasswordTestHolds(site: Site, p: Pool, q: Request, s: State)
    requires PasswordPossible(site, p)
    ensures Holds(PasswordTest(site, p), site, q, s) <==> PasswordGiven(site, p, q)
  {
    if p.groups == [] {
      assert GroupNames(site.groupNames, p.groups) == [];
    }
  }

  lemma BasicRun(site: Site, p: Pool, q: Request, s: State)
    requires p.http
    ensures Run(BasicRules(site, p), site, q, s) ==
            if p.basic && !InAny(p.exempt, q) && !PasswordPossible(site, p) then Ended(Answered(403))
            else if p.basic && !InAny(p.exempt, q) && !PasswordGiven(site, p, q) then Ended(AskedForPassword)
            else Running(s)
  {
    if p.basic {
      if PasswordPossible(site, p) {
        var t := PasswordTest(site, p);
        PasswordTestHolds(site, p, q, s);
        HoldsNotEither(p.exempt, t, site, q, s);
        RunOne(AskPassword(Not(if p.exempt != [] then Either(FromAny(p.exempt), t) else t)), site, q, s);
      } else {
        HoldsNotAny(p.exempt, site, q, s);
        RunOne(Answer(403, if p.exempt != [] then Not(FromAny(p.exempt)) else Always), site, q, s);
      }
    }
  }

  lemma HoldsNotEither(nets: seq<string>, t: Test, site: Site, q: Request, s: State)
    ensures Holds(Not(Either(FromAny(nets), t)), site, q, s) <==> !InAny(nets, q) && !Holds(t, site, q, s)
    ensures Holds(Not(t), site, q, s) <==> !Holds(t, site, q, s)
  {
    assert Holds(FromAny(nets), site, q, s) <==> InAny(nets, q);
    assert Holds(Either(FromAny(nets), t), site, q, s) <==> InAny(nets, q) || Holds(t, site, q, s);
  }

  /** The request's token, if its signature is right, was signed by the app. */
  lemma SignedSameAddress(site: Site, q: Request)
    requires Signs(site.sign) && Authentic(site.sign, q.cookie) && SignedAddress(site, q).Some?
    ensures SameAddress(q)
  {
    var exp, email :| SignedFor(q.cookie, exp, email);
    AcceptedIsSigned(site.sign, q.cookie, exp, email);
  }

  lemma {:induction false} PolicyRun(site: Site, p: Pool, q: Request)
    requires p.http && AllBytes(p.entries) && (SignedAddress(site, q).Some? ==> SameAddress(q))
    ensures var s := Cleared(site, p, Tracked(p, Start(q)));
            var r := Run(SsoRules(site, p) + BasicRules(site, p), site, q, s);
            DecideSso(site, p, q) == if r.Ended? then r.outcome else Forwarded(r.state.headers)
  {
    var s := Cleared(site, p, Tracked(p, Start(q)));
    SsoRun(site, p, q, s);
    RunAppend(SsoRules(site, p), BasicRules(site, p), site, q, s);
    var r := AfterSso(site, p, q, s);
    if r.Running? {
      BasicRun(site, p, q, r.state);
    }
  }

  lemma TcpRun(site: Site, p: Pool, q: Request, s: State)
    requires !p.http
    ensures Run(SsoRules(site, p) + BasicRules(site, p), site, q, s) == Running(s)
  {
  }

  lemma FrontRun(site: Site, p: Pool, q: Request, rest: seq<Directive>)
    ensures Run(MaintenanceRules(p) + (SourceRules(p) + (RateRules(p) + (IdentityRules(site, p) + rest))), site, q,
                Start(q)) ==
            if p.maintenance then Ended(Refusal(p, 503))
            else if !SourceAdmitted(p, q) then Ended(Refusal(p, 403))
            else if TooMany(p, q) then Ended(Refusal(p, 429))
            else Run(rest, site, q, Cleared(site, p, Tracked(p, Start(q))))
  {
    var s := Start(q);
    var identity := IdentityRules(site, p) + rest;
    var rate := RateRules(p) + identity;
    var source := SourceRules(p) + rate;
    RunAppend(MaintenanceRules(p), source, site, q, s);
    MaintenanceRun(site, p, q, s);
    RunAppend(SourceRules(p), rate, site, q, s);
    SourceRun(site, p, q, s);
    RunAppend(RateRules(p), identity, site, q, s);
    RateRun(site, p, q, s);
    RunAppend(IdentityRules(site, p), rest, site, q, Tracked(p, s));
    IdentityRun(site, p, q, Tracked(p, s));
  }

  /** For every pool and request, the rendered rules decide what the settings say,
      in this order: maintenance, source, rate, single sign-on, password. */
  lemma RulesDecide(site: Site, p: Pool, q: Request)
    requires Signs(site.sign) && Authentic(site.sign, q.cookie) && AllBytes(p.entries)
    ensures Serve(Rendered(site, p), site, q) == Decide(site, p, q)
  {
    if SignedAddress(site, q).Some? {
      SignedSameAddress(site, q);
    }
    FrontRun(site, p, q, SsoRules(site, p) + BasicRules(site, p));
    if p.http {
      PolicyRun(site, p, q);
    } else {
      TcpRun(site, p, q, Cleared(site, p, Tracked(p, Start(q))));
    }
  }

  // ----- what follows for every request -----

  /** A request is forwarded exactly when the pool is not paused, its source is let
      in, it is not too fast, and every sign-in the pool asks for is satisfied. */
  lemma ForwardedExactly(site: Site, p: Pool, q: Request)
    requires Signs(site.sign) && Authentic(site.sign, q.cookie) && AllBytes(p.entries)
    ensures Serve(Rendered(site, p), site, q).Forwarded?
       <==> (!p.maintenance && SourceAdmitted(p, q) && !TooMany(p, q)
             && (p.http && p.oauth ==>
                   site.ready && SignedAddress(site, q).Some? && Admitted(p.entries, SignedAddress(site, q).value))
             && (p.http && p.basic ==> InAny(p.exempt, q) || (site.passwords && PasswordGiven(site, p, q))))
  {
    RulesDecide(site, p, q);
    if PasswordGiven(site, p, q) && p.groups != [] {
      assert GroupNames(site.groupNames, p.groups) != [];
    }
  }

  /** A header that is sent carries an address that was signed, has not expired and
      is on the pool's list; and the pool forwards addresses. */
  ghost predicate CarriesSigned(p: Pool, q: Request, name: Header, headers: map<Header, string>) {
    name in headers ==>
      p.oauth && p.forward && Admitted(p.entries, headers[name])
      && exists exp: nat :: exp > q.now && SignedFor(q.cookie, exp, headers[name])
  }

  /** When single sign-on is ready, what a forwarded request carries in the identity
      headers is nothing, or the signed address. */
  lemma IdentityIsSigned(site: Site, p: Pool, q: Request, name: Header)
    requires Signs(site.sign) && Authentic(site.sign, q.cookie) && AllBytes(p.entries)
    requires site.ready && p.http && !name.Other?
    ensures Serve(Rendered(site, p), site, q).Forwarded? ==>
              CarriesSigned(p, q, name, Serve(Rendered(site, p), site, q).headers)
  {
    RulesDecide(site, p, q);
    if Decide(site, p, q).Forwarded? {
      var headers := Decide(site, p, q).headers;
      if name in headers {
        var exp, email :| SignedFor(q.cookie, exp, email);
        AcceptedIsSigned(site.sign, q.cookie, exp, email);
      }
    }
  }

  /** A sign-in nobody can give refuses every request, except from exempt sources. */
  lemma FailsClosed(site: Site, p: Pool, q: Request)
    requires Signs(site.sign) && Authentic(site.sign, q.cookie) && AllBytes(p.entries) && p.http
    ensures p.oauth && (!site.ready || p.entries == []) ==> !Serve(Rendered(site, p), site, q).Forwarded?
    ensures p.basic && !PasswordPossible(site, p) && !InAny(p.exempt, q) ==>
        !Serve(Rendered(site, p), site, q).Forwarded?
    ensures p.allow == Some([]) ==> !Serve(Rendered(site, p), site, q).Forwarded?
  {
    RulesDecide(site, p, q);
  }

  // ----- the rate limit, in the settings' own numbers -----

  /** A window that is left blank is the usual one; otherwise it must be positive. */
  predicate GoodWindow(window: Number) {
    window.Blank? || (window.Whole? && window.value > 0)
  }

  predicate RefusedForRate(p: Pool, o: Outcome) {
    o == if p.http then Answered(429) else Dropped
  }

  lemma RateDecides(site: Site, p: Pool, q: Request)
    requires !p.maintenance && SourceAdmitted(p, q)
    ensures RefusedForRate(p, Decide(site, p, q)) <==> TooMany(p, q)
  {
  }

  lemma TooManyMeans(p: Pool, q: Request)
    ensures TooMany(p, q) <==> p.rate.Whole? && p.rate.value > 0 && GoodWindow(p.window) && q.seen > p.rate.value
  {
  }

  /** A pool with a positive rate refuses for it exactly the requests of a client that has
      made more than that many; one whose rate is blank, malformed or not positive, or
      whose window is malformed or not positive, none. */
  lemma RateRefuses(site: Site, p: Pool, q: Request)
    requires Signs(site.sign) && Authentic(site.sign, q.cookie) && AllBytes(p.entries)
    requires !p.maintenance && (p.allow.None? || exists n :: n in p.allow.value && n in q.networks)
    ensures p.rate.Whole? && p.rate.value > 0 && GoodWindow(p.window) ==>
      (RefusedForRate(p, Serve(Rendered(site, p), site, q)) <==> q.seen > p.rate.value)
    ensures !(p.rate.Whole? && p.rate.value > 0 && GoodWindow(p.window)) ==>
      !RefusedForRate(p, Serve(Rendered(site, p), site, q))
  {
    RulesDecide(site, p, q);
    RateDecides(site, p, q);
    TooManyMeans(p, q);
  }

  /** The limit refuses nobody unless a line before it tracks the client. */
  lemma OnlyTracked(http: bool, n: nat, site: Site, q: Request)
    ensures Serve([Deny(http, 429, RateAbove(n))], site, q) == Forwarded(q.headers)
    ensures Serve([Track, Deny(http, 429, RateAbove(n))], site, q) ==
            if q.seen > n then (if http then Answered(429) else Dropped) else Forwarded(q.headers)
  {
    RunOne(Deny(http, 429, RateAbove(n)), site, q, Start(q));
    RunTwo(Track, Deny(http, 429, RateAbove(n)), site, q, Start(q));
  }

  // ----- the groups a password must be of -----

  /** The groups let in are those chosen that exist under a name. */
  lemma {:induction false} GroupsLetIn(names: map<string, string>, ids: seq<string>, name: string)
    ensures name in GroupNames(names, ids) <==> name != "" && exists id :: id in ids && id in names && names[id] == name
  {
    if ids != [] {
      GroupsLetIn(names, ids[1..], name);
      assert forall id :: id in ids <==> id == ids[0] || id in ids[1..];
    }
  }

  /** Of a pool that asks for a password: some user has one, and no group is chosen or
      one that exists. */
  ghost predicate SomebodyCould(site: Site, p: Pool) {
    site.passwords
    && (p.groups == [] || exists id :: id in p.groups && id in site.groupNames && site.groupNames[id] != "")
  }

  /** The request's user is in one of the chosen groups, or no group is chosen. */
  ghost predicate UserFits(site: Site, p: Pool, q: Request) {
    q.user.Some?
    && (p.groups == [] ||
        exists id :: id in p.groups && id in site.groupNames && site.groupNames[id] != ""
                     && site.groupNames[id] in q.user.value)
  }

  lemma GroupsMeant(site: Site, p: Pool, q: Request)
    ensures PasswordPossible(site, p) <==> SomebodyCould(site, p)
    ensures PasswordGiven(site, p, q) <==> UserFits(site, p, q)
  {
    var allowed := GroupNames(site.groupNames, p.groups);
    forall name
      ensures name in allowed <==>
        name != "" && exists id :: id in p.groups && id in site.groupNames && site.groupNames[id] == name
    {
      GroupsLetIn(site.groupNames, p.groups, name);
    }
    if allowed != [] {
      assert allowed[0] in allowed;
    }
    if id :| id in p.groups && id in site.groupNames && site.groupNames[id] != "" {
      assert site.groupNames[id] in allowed;
    }
  }

  /** An http pool that lets the request through as far as the password: forwarded to
      those who gave one that fits, and from exempt sources. */
  lemma PasswordAsked(site: Site, p: Pool, q: Request)
    requires Signs(site.sign) && Authentic(site.sign, q.cookie) && AllBytes(p.entries)
    requires p.http && p.basic && !p.maintenance && SourceAdmitted(p, q) && !TooMany(p, q)
    requires p.oauth ==>
      site.ready && SignedAddress(site, q).Some? && Admitted(p.entries, SignedAddress(site, q).value)
    ensures var o := Serve(Rendered(site, p), site, q);
      if (exists n :: n in p.exempt && n in q.networks) || (SomebodyCould(site, p) && UserFits(site, p, q))
      then o.Forwarded?
      else o == if SomebodyCould(site, p) then AskedForPassword else Answered(403)
  {
    RulesDecide(site, p, q);
    GroupsMeant(site, p, q);
  }
}
