/** The rules rendered for a listener (ham/haproxy.py, `render_haproxy`): request
    rules are grouped before routes, which is how HAProxy runs them anyway. */
module ListenerRules {
  import opened Options
  import opened Collections
  import opened ServiceGraph
  import RuleOrder

  /** What the rest of the configuration says: is the challenge port served, is
      single sign-on, and which rules only edit headers. */
  datatype Site = Site(acmeOn: bool, ssoOn: bool, edits: set<Id>)

  /** A request: the conditions that hold of it, and whether it is for a certificate
      challenge, for the sign-in host, for the sign-in path, or has dots in its path. */
  datatype Request = Request(holds: set<Id>, challenge: bool, signInHost: bool, signInPath: bool, dots: bool)

  datatype Target = ChallengeServer | SignInApp | PoolOf(id: Id)

  datatype Test =
    | Always
    | OfRule(rule: Rule)
    | Challenge
    | NotChallenge
    | SignInDots
    | SignInOther(acmeOn: bool)
    | SignIn

  datatype Line =
    | Note
    | ToHttps(test: Test)
    | Refuse(status: nat, test: Test)
    | EndBy(id: Id, test: Test)
    | Edit(id: Id)
    | UseBackend(target: Target, test: Test)

  datatype Outcome = Redirected | Refused(status: nat) | EndedBy(id: Id) | SentTo(target: Target) | Unserved

  predicate Passes(t: Test, q: Request) {
    match t
    case Always => true
    case OfRule(r) => RuleOrder.Matches(r, q.holds)
    case Challenge => q.challenge
    case NotChallenge => !q.challenge
    case SignInDots => q.signInHost && q.dots
    case SignInOther(acmeOn) => q.signInHost && !q.signInPath && (acmeOn ==> !q.challenge)
    case SignIn => q.signInHost && q.signInPath
  }

  // ----- HAProxy's order -----

  /** The first request rule that ends the request. */
  function RunRequests(lines: seq<Line>, q: Request): Option<Outcome> {
    if lines == [] then None
    else match lines[0]
      case ToHttps(t) => if Passes(t, q) then Some(Redirected) else RunRequests(lines[1..], q)
      case Refuse(status, t) => if Passes(t, q) then Some(Refused(status)) else RunRequests(lines[1..], q)
      case EndBy(id, t) => if Passes(t, q) then Some(EndedBy(id)) else RunRequests(lines[1..], q)
      case _ => RunRequests(lines[1..], q)
  }

  /** The first route that matches. */
  function RunRoutes(lines: seq<Line>, q: Request): Option<Target> {
    if lines == [] then None
    else if lines[0].UseBackend? && Passes(lines[0].test, q) then Some(lines[0].target)
    else RunRoutes(lines[1..], q)
  }

  /** Every request rule runs before any route, wherever it is written. */
  function Serve(lines: seq<Line>, defaultPool: Option<Id>, q: Request): Outcome {
    if RunRequests(lines, q).Some? then RunRequests(lines, q).value
    else if RunRoutes(lines, q).Some? then SentTo(RunRoutes(lines, q).value)
    else if defaultPool.Some? then SentTo(PoolOf(defaultPool.value))
    else Unserved
  }

  function Requests(lines: seq<Line>): seq<Line> {
    if lines == [] then [] else (if lines[0].UseBackend? then [] else [lines[0]]) + Requests(lines[1..])
  }

  function Routes(lines: seq<Line>): seq<Line> {
    if lines == [] then [] else (if lines[0].UseBackend? then [lines[0]] else []) + Routes(lines[1..])
  }

  lemma {:induction false} RunRequestsAppend(a: seq<Line>, b: seq<Line>, q: Request)
    ensures RunRequests(a + b, q) == if RunRequests(a, q).Some? then RunRequests(a, q) else RunRequests(b, q)
  {
    if a == [] {
      assert a + b == b;
    } else {
      assert (a + b)[1..] == a[1..] + b;
      RunRequestsAppend(a[1..], b, q);
    }
  }

  lemma {:induction false} RunRoutesAppend(a: seq<Line>, b: seq<Line>, q: Request)
    ensures RunRoutes(a + b, q) == if RunRoutes(a, q).Some? then RunRoutes(a, q) else RunRoutes(b, q)
  {
    if a == [] {
      assert a + b == b;
    } else {
      assert (a + b)[1..] == a[1..] + b;
      RunRoutesAppend(a[1..], b, q);
    }
  }

  lemma {:induction false} RequestsRun(lines: seq<Line>, q: Request)
    ensures RunRequests(Requests(lines), q) == RunRequests(lines, q)
    ensures RunRoutes(Requests(lines), q) == None
  {
    if lines != [] {
      RequestsRun(lines[1..], q);
      if lines[0].UseBackend? {
        assert Requests(lines) == Requests(lines[1..]);
      } else {
        assert Requests(lines) == [lines[0]] + Requests(lines[1..]);
      }
    }
  }

  lemma {:induction false} RoutesRun(lines: seq<Line>, q: Request)
    ensures RunRoutes(Routes(lines), q) == RunRoutes(lines, q)
    ensures RunRequests(Routes(lines), q) == None
  {
    if lines != [] {
      RoutesRun(lines[1..], q);
      if lines[0].UseBackend? {
        assert Routes(lines) == [lines[0]] + Routes(lines[1..]);
      } else {
        assert Routes(lines) == Routes(lines[1..]);
      }
    }
  }

  /** Grouping the lines changes nothing for any request. */
  lemma GroupingPreserves(lines: seq<Line>, defaultPool: Option<Id>, q: Request)
    ensures Serve(Requests(lines) + Routes(lines), defaultPool, q) == Serve(lines, defaultPool, q)
  {
    RunRequestsAppend(Requests(lines), Routes(lines), q);
    RunRoutesAppend(Requests(lines), Routes(lines), q);
    RequestsRun(lines, q);
    RoutesRun(lines, q);
  }

  // ----- what is rendered -----

  /** The conditions that exist. */
  function Known(conditions: seq<Item<Condition>>, ids: seq<Id>): seq<Id> {
    if ids == [] then [] else (if Lookup(conditions, ids[0]).Some? then [ids[0]] else []) + Known(conditions, ids[1..])
  }

  /** `_rule_line`: nothing for a route to a pool that does not exist. */
  function RuleLine(g: Graph, site: Site, r: Item<Rule>): seq<Line> {
    var test := OfRule(r.body.(conditions := Known(g.conditions, r.body.conditions)));
    if r.body.useBackend then
      var known := r.body.pool.Some? && Lookup(g.pools, r.body.pool.value).Some?;
      if known then [UseBackend(PoolOf(r.body.pool.value), test)] else []
    else if r.id in site.edits then [Edit(r.id)]
    else [EndBy(r.id, test)]
  }

  function LineOf(g: Graph, site: Site, id: Id): (line: seq<Line>)
    ensures |line| <= 1
  {
    if Lookup(g.rules, id).Some? then RuleLine(g, site, Lookup(g.rules, id).value) else []
  }

  function RuleLines(g: Graph, site: Site, ids: seq<Id>): seq<Line> {
    if ids == [] then [] else LineOf(g, site, ids[0]) + RuleLines(g, site, ids[1..])
  }

  /** What every listener starts with, in the order it is appended. */
  function OpeningLines(site: Site, l: Listener): seq<Line> {
    if l.tcp then []
    else
      (if l.ssl then [Note] else [])
      + ((if site.acmeOn then [UseBackend(ChallengeServer, Challenge)] else [])
      + ((if l.toHttps && !l.ssl then [ToHttps(if site.acmeOn then NotChallenge else Always)] else [])
      + (if site.ssoOn && l.ssl then
           [Refuse(403, SignInDots), Refuse(404, SignInOther(site.acmeOn)), UseBackend(SignInApp, SignIn)]
         else [])))
  }

  function Written(g: Graph, site: Site, l: Listener): seq<Line> {
    OpeningLines(site, l) + RuleLines(g, site, l.rules)
  }

  lemma {:induction false} RequestsAppend(a: seq<Line>, b: seq<Line>)
    ensures Requests(a + b) == Requests(a) + Requests(b) && Routes(a + b) == Routes(a) + Routes(b)
  {
    if a == [] {
      assert a + b == b;
    } else {
      assert a == [a[0]] + a[1..] && a + b == [a[0]] + (a[1..] + b);
      RequestsAppend(a[1..], b);
      FirstLine(a[0], a[1..]);
      FirstLine(a[0], a[1..] + b);
    }
  }

  lemma FirstLine(x: Line, lines: seq<Line>)
    ensures Requests([x] + lines) == (if x.UseBackend? then [] else [x]) + Requests(lines)
    ensures Routes([x] + lines) == (if x.UseBackend? then [x] else []) + Routes(lines)
  {
    assert ([x] + lines)[1..] == lines;
  }

  method OpenListener(site: Site, l: Listener) returns (requests: seq<Line>, routes: seq<Line>)
    ensures requests == Requests(OpeningLines(site, l)) && routes == Routes(OpeningLines(site, l))
  {
    requests, routes := [], [];
    if !l.tcp && l.ssl {
      requests := requests + [Note];
    }
    if site.acmeOn && !l.tcp {
      routes := routes + [UseBackend(ChallengeServer, Challenge)];
    }
    if !l.tcp && l.toHttps && !l.ssl {
      requests := requests + [ToHttps(if site.acmeOn then NotChallenge else Always)];
    }
    if site.ssoOn && !l.tcp && l.ssl {
      requests := requests + [Refuse(403, SignInDots), Refuse(404, SignInOther(site.acmeOn))];
      routes := routes + [UseBackend(SignInApp, SignIn)];
    }
    if !l.tcp {
      var challenge := if site.acmeOn then [UseBackend(ChallengeServer, Challenge)] else [];
      var secure := if l.toHttps && !l.ssl then [ToHttps(if site.acmeOn then NotChallenge else Always)] else [];
      var signIn := if site.ssoOn && l.ssl then
        [Refuse(403, SignInDots), Refuse(404, SignInOther(site.acmeOn)), UseBackend(SignInApp, SignIn)] else [];
      RequestsAppend(secure, signIn);
      RequestsAppend(challenge, secure + signIn);
      RequestsAppend(if l.ssl then [Note] else [], challenge + (secure + signIn));
      SignInLines(site);
    }
  }

  lemma SignInLines(site: Site)
    ensures var lines :=
        [Refuse(403, SignInDots), Refuse(404, SignInOther(site.acmeOn)), UseBackend(SignInApp, SignIn)];
      Requests(lines) == lines[..2] && Routes(lines) == lines[2..]
  {
    var a, b := [Refuse(403, SignInDots), Refuse(404, SignInOther(site.acmeOn))], [UseBackend(SignInApp, SignIn)];
    RequestsAppend(a, b);
    assert a == [a[0]] + [a[1]];
    RequestsAppend([a[0]], [a[1]]);
  }

  /** The part of `render_haproxy` that writes a listener's rules: two lists that
      grow side by side. What they decide is what the lines decide in the order
      they are thought of. */
  method Render(g: Graph, site: Site, l: Listener) returns (lines: seq<Line>)
    ensures lines == Requests(Written(g, site, l)) + Routes(Written(g, site, l))
    ensures forall q :: Serve(lines, l.defaultPool, q) == Serve(Written(g, site, l), l.defaultPool, q)
  {
    var requests, routes := OpenListener(site, l);
    var ruleRequests, ruleRoutes := RenderRules(g, site, l.rules);
    RequestsAppend(OpeningLines(site, l), RuleLines(g, site, l.rules));
    lines := (requests + ruleRequests) + (routes + ruleRoutes);
    forall q
      ensures Serve(lines, l.defaultPool, q) == Serve(Written(g, site, l), l.defaultPool, q)
    {
      GroupingPreserves(Written(g, site, l), l.defaultPool, q);
    }
  }

  method RenderRules(g: Graph, site: Site, ids: seq<Id>) returns (requests: seq<Line>, routes: seq<Line>)
    ensures requests == Requests(RuleLines(g, site, ids))
    ensures routes == Routes(RuleLines(g, site, ids))
  {
    requests, routes := [], [];
    for i := 0 to |ids|
      invariant requests == Requests(RuleLines(g, site, ids[..i]))
      invariant routes == Routes(RuleLines(g, site, ids[..i]))
    {
      RuleLinesStep(g, site, ids, i);
      requests, routes := RenderRule(g, site, ids[i], requests, routes);
    }
    assert ids[..|ids|] == ids;
  }

  method RenderRule(g: Graph, site: Site, id: Id, requests: seq<Line>, routes: seq<Line>)
    returns (requests': seq<Line>, routes': seq<Line>)
    ensures requests' == requests + Requests(LineOf(g, site, id)) && routes' == routes + Routes(LineOf(g, site, id))
  {
    requests', routes' := requests, routes;
    var line := LineOf(g, site, id);
    OneLine(line);
    if line != [] {
      if line[0].UseBackend? {
        routes' := routes + line;
      } else {
        requests' := requests + line;
      }
    }
  }

  lemma {:induction false} RuleLinesAppend(g: Graph, site: Site, ids: seq<Id>, id: Id)
    ensures RuleLines(g, site, ids + [id]) == RuleLines(g, site, ids) + LineOf(g, site, id)
  {
    if ids == [] {
      assert ids + [id] == [id];
    } else {
      assert (ids + [id])[1..] == ids[1..] + [id];
      RuleLinesAppend(g, site, ids[1..], id);
    }
  }

  lemma RuleLinesStep(g: Graph, site: Site, ids: seq<Id>, i: nat)
    requires i < |ids|
    ensures var before, line := RuleLines(g, site, ids[..i]), LineOf(g, site, ids[i]);
      && Requests(RuleLines(g, site, ids[..i + 1])) == Requests(before) + Requests(line)
      && Routes(RuleLines(g, site, ids[..i + 1])) == Routes(before) + Routes(line)
  {
    assert ids[..i + 1] == ids[..i] + [ids[i]];
    RuleLinesAppend(g, site, ids[..i], ids[i]);
    RequestsAppend(RuleLines(g, site, ids[..i]), LineOf(g, site, ids[i]));
  }

  lemma OneLine(line: seq<Line>)
    requires |line| <= 1
    ensures Requests(line) == (if line != [] && !line[0].UseBackend? then line else [])
    ensures Routes(line) == (if line != [] && line[0].UseBackend? then line else [])
  {
  }

  // ----- what a listener decides -----

  lemma {:induction false} KnownAll(conditions: seq<Item<Condition>>, ids: seq<Id>)
    requires SetOf(ids) <= Ids(conditions)
    ensures Known(conditions, ids) == ids
  {
    if ids != [] {
      assert ids[0] in SetOf(ids) && SetOf(ids[1..]) <= SetOf(ids);
      LookupIds(conditions, ids[0]);
      KnownAll(conditions, ids[1..]);
    }
  }

  ghost predicate Resolved(g: Graph) {
    RulesResolve(g.rules, Ids(g.conditions), Ids(g.pools))
  }

  predicate IsRoute(r: Rule) {
    r.useBackend && r.pool.Some?
  }

  lemma RuleLineIs(g: Graph, site: Site, r: Item<Rule>)
    requires Resolved(g) && r in g.rules
    ensures RuleLine(g, site, r) ==
            if IsRoute(r.body) then [UseBackend(PoolOf(r.body.pool.value), OfRule(r.body))]
            else if r.body.useBackend then []
            else if r.id in site.edits then [Edit(r.id)]
            else [EndBy(r.id, OfRule(r.body))]
  {
    assert RuleResolves(r.body, Ids(g.conditions), Ids(g.pools));
    KnownAll(g.conditions, r.body.conditions);
    if r.body.pool.Some? {
      assert r.body.pool.value in Optional(r.body.pool);
      LookupIds(g.pools, r.body.pool.value);
    }
  }

  /** Does a rule end requests, rather than route or edit them? */
  predicate Ends(g: Graph, site: Site, id: Id) {
    Lookup(g.rules, id).Some? && !Lookup(g.rules, id).value.body.useBackend && id !in site.edits
  }

  predicate Routing(g: Graph, id: Id) {
    Lookup(g.rules, id).Some? && IsRoute(Lookup(g.rules, id).value.body)
  }

  predicate Fits(g: Graph, id: Id, q: Request) {
    Lookup(g.rules, id).Some? && RuleOrder.Matches(Lookup(g.rules, id).value.body, q.holds)
  }

  /** The first listed rule that ends the request. */
  function FirstEnd(g: Graph, site: Site, ids: seq<Id>, q: Request): Option<Id> {
    if ids == [] then None
    else if Ends(g, site, ids[0]) && Fits(g, ids[0], q) then Some(ids[0])
    else FirstEnd(g, site, ids[1..], q)
  }

  /** The listed rules that are routes to a pool. */
  function RouteIds(g: Graph, ids: seq<Id>): seq<Id> {
    if ids == [] then [] else (if Routing(g, ids[0]) then [ids[0]] else []) + RouteIds(g, ids[1..])
  }

  lemma LineRuns(g: Graph, site: Site, id: Id, q: Request)
    requires Resolved(g)
    ensures RunRequests(LineOf(g, site, id), q)
         == if Ends(g, site, id) && Fits(g, id, q) then Some(EndedBy(id)) else None
    ensures RunRoutes(LineOf(g, site, id), q)
         == if Routing(g, id) && Fits(g, id, q) then Some(PoolOf(Lookup(g.rules, id).value.body.pool.value)) else None
  {
    if Lookup(g.rules, id).Some? {
      RuleLineIs(g, site, Lookup(g.rules, id).value);
    }
  }

  function PoolOfRule(g: Graph, id: Option<Id>): Option<Id> {
    if id.Some? && Lookup(g.rules, id.value).Some? then Lookup(g.rules, id.value).value.body.pool else None
  }

  /** Request rules end a request at the first that matches; the route HAProxy takes
      is the pool of the first route that matches. */
  lemma {:induction false} RoutesAreFirstMatch(g: Graph, site: Site, ids: seq<Id>, q: Request)
    requires Resolved(g)
    ensures RunRequests(RuleLines(g, site, ids), q)
         == if FirstEnd(g, site, ids, q).Some? then Some(EndedBy(FirstEnd(g, site, ids, q).value)) else None
    ensures var f := RuleOrder.FirstMatch(g.rules, RouteIds(g, ids), q.holds);
            (f.Some? ==> PoolOfRule(g, f).Some?)
            && RunRoutes(RuleLines(g, site, ids), q) == if f.Some? then Some(PoolOf(PoolOfRule(g, f).value)) else None
  {
    if ids != [] {
      RoutesAreFirstMatch(g, site, ids[1..], q);
      LineRuns(g, site, ids[0], q);
      RunRequestsAppend(LineOf(g, site, ids[0]), RuleLines(g, site, ids[1..]), q);
      RunRoutesAppend(LineOf(g, site, ids[0]), RuleLines(g, site, ids[1..]), q);
      FirstRoute(g, ids, q);
    }
  }

  lemma FirstRoute(g: Graph, ids: seq<Id>, q: Request)
    requires ids != []
    ensures RuleOrder.FirstMatch(g.rules, RouteIds(g, ids), q.holds)
         == if Routing(g, ids[0]) && Fits(g, ids[0], q) then Some(ids[0])
            else RuleOrder.FirstMatch(g.rules, RouteIds(g, ids[1..]), q.holds)
  {
    var rest := RouteIds(g, ids[1..]);
    if Routing(g, ids[0]) {
      assert RouteIds(g, ids) == [ids[0]] + rest && RouteIds(g, ids)[1..] == rest;
    } else {
      assert RouteIds(g, ids) == rest;
    }
  }

  lemma OneRoute(target: Target, t: Test, q: Request)
    ensures RunRequests([UseBackend(target, t)], q).None?
    ensures RunRoutes([UseBackend(target, t)], q) == if Passes(t, q) then Some(target) else None
  {
  }

  /** The pool of the first route that matches, or the default. */
  function FirstPool(g: Graph, l: Listener, q: Request): Option<Id> {
    var f := RuleOrder.FirstMatch(g.rules, RouteIds(g, l.rules), q.holds);
    if f.Some? then PoolOfRule(g, f) else l.defaultPool
  }

  /** A listener's plain answer: to https first, except for challenges; then the
      sign-in host; then the first rule that ends the request; then the challenge
      server, the sign-in, and the pool of the first route that matches. */
  function Decide(g: Graph, site: Site, l: Listener, q: Request): Outcome {
    var signIn := !l.tcp && site.ssoOn && l.ssl && q.signInHost;
    var challenge := !l.tcp && site.acmeOn && q.challenge;
    var end := FirstEnd(g, site, l.rules, q);
    if !l.tcp && l.toHttps && !l.ssl && !challenge then Redirected
    else if signIn && q.dots then Refused(403)
    else if signIn && !q.signInPath && !challenge then Refused(404)
    else if end.Some? then EndedBy(end.value)
    else if challenge then SentTo(ChallengeServer)
    else if signIn then SentTo(SignInApp)
    else if FirstPool(g, l, q).Some? then SentTo(PoolOf(FirstPool(g, l, q).value))
    else Unserved
  }

  lemma OpeningRequests(site: Site, l: Listener, q: Request)
    requires !l.tcp
    ensures RunRequests(OpeningLines(site, l), q) ==
            if l.toHttps && !l.ssl && !(site.acmeOn && q.challenge) then Some(Redirected)
            else if site.ssoOn && l.ssl && q.signInHost && q.dots then Some(Refused(403))
            else if site.ssoOn && l.ssl && q.signInHost && !q.signInPath && !(site.acmeOn && q.challenge)
            then Some(Refused(404))
            else None
  {
    var note := if l.ssl then [Note] else [];
    var challenge := if site.acmeOn then [UseBackend(ChallengeServer, Challenge)] else [];
    var secure := if l.toHttps && !l.ssl then [ToHttps(if site.acmeOn then NotChallenge else Always)] else [];
    var signIn := if site.ssoOn && l.ssl then
      [Refuse(403, SignInDots), Refuse(404, SignInOther(site.acmeOn)), UseBackend(SignInApp, SignIn)] else [];
    RunRequestsAppend(note, challenge + (secure + signIn), q);
    RunRequestsAppend(challenge, secure + signIn, q);
    RunRequestsAppend(secure, signIn, q);
    OneRoute(ChallengeServer, Challenge, q);
    SignInRun(site.acmeOn, q);
  }

  lemma SignInRun(acmeOn: bool, q: Request)
    ensures var lines := [Refuse(403, SignInDots), Refuse(404, SignInOther(acmeOn)), UseBackend(SignInApp, SignIn)];
            RunRequests(lines, q) == (if Passes(SignInDots, q) then Some(Refused(403))
                                      else if Passes(SignInOther(acmeOn), q) then Some(Refused(404)) else None)
            && RunRoutes(lines, q) == (if Passes(SignIn, q) then Some(SignInApp) else None)
  {
    var a, b, c := [Refuse(403, SignInDots)], [Refuse(404, SignInOther(acmeOn))], [UseBackend(SignInApp, SignIn)];
    assert [Refuse(403, SignInDots), Refuse(404, SignInOther(acmeOn)), UseBackend(SignInApp, SignIn)] == a + (b + c);
    RunRequestsAppend(a, b + c, q);
    RunRequestsAppend(b, c, q);
    RunRoutesAppend(a, b + c, q);
    RunRoutesAppend(b, c, q);
  }

  lemma OpeningRoutes(site: Site, l: Listener, q: Request)
    requires !l.tcp
    ensures RunRoutes(OpeningLines(site, l), q) ==
            if site.acmeOn && q.challenge then Some(ChallengeServer)
            else if site.ssoOn && l.ssl && q.signInHost && q.signInPath then Some(SignInApp)
            else None
  {
    var note := if l.ssl then [Note] else [];
    var challenge := if site.acmeOn then [UseBackend(ChallengeServer, Challenge)] else [];
    var secure := if l.toHttps && !l.ssl then [ToHttps(if site.acmeOn then NotChallenge else Always)] else [];
    var signIn := if site.ssoOn && l.ssl then
      [Refuse(403, SignInDots), Refuse(404, SignInOther(site.acmeOn)), UseBackend(SignInApp, SignIn)] else [];
    RunRoutesAppend(note, challenge + (secure + signIn), q);
    RunRoutesAppend(challenge, secure + signIn, q);
    RunRoutesAppend(secure, signIn, q);
    OneRoute(ChallengeServer, Challenge, q);
    SignInRun(site.acmeOn, q);
  }

  function Rendered(g: Graph, site: Site, l: Listener): seq<Line> {
    Requests(Written(g, site, l)) + Routes(Written(g, site, l))
  }

  /** What becomes of a request on a listener as it is rendered. */
  function Answer(g: Graph, site: Site, l: Listener, q: Request): Outcome {
    Serve(Rendered(g, site, l), l.defaultPool, q)
  }

  lemma OpeningRuns(site: Site, l: Listener, q: Request)
    ensures var challenge := !l.tcp && site.acmeOn && q.challenge;
      var signIn := !l.tcp && site.ssoOn && l.ssl && q.signInHost;
      && RunRequests(OpeningLines(site, l), q) ==
         (if !l.tcp && l.toHttps && !l.ssl && !challenge then Some(Redirected)
          else if signIn && q.dots then Some(Refused(403))
          else if signIn && !q.signInPath && !challenge then Some(Refused(404))
          else None)
      && RunRoutes(OpeningLines(site, l), q) ==
         (if challenge then Some(ChallengeServer) else if signIn && q.signInPath then Some(SignInApp) else None)
  {
    if !l.tcp {
      OpeningRequests(site, l, q);
      OpeningRoutes(site, l, q);
    }
  }

  /** For every listener and request, the rendered lines decide as the listener's
      settings and the order of its rules say. */
  lemma ListenerDecides(g: Graph, site: Site, l: Listener, q: Request)
    requires Resolved(g)
    ensures Answer(g, site, l, q) == Decide(g, site, l, q)
  {
    GroupingPreserves(Written(g, site, l), l.defaultPool, q);
    RunRequestsAppend(OpeningLines(site, l), RuleLines(g, site, l.rules), q);
    RunRoutesAppend(OpeningLines(site, l), RuleLines(g, site, l.rules), q);
    OpeningRuns(site, l, q);
    RoutesAreFirstMatch(g, site, l.rules, q);
  }

  // ----- references to what does not exist -----

  /** A rule as if what does not exist had never been referred to. */
  function Cleared(g: Graph, r: Item<Rule>): Item<Rule> {
    var pool := if r.body.pool.Some? && Lookup(g.pools, r.body.pool.value).Some? then r.body.pool else None;
    r.(body := r.body.(conditions := Known(g.conditions, r.body.conditions), pool := pool))
  }

  function ClearedRules(g: Graph, rules: seq<Item<Rule>>): (cleared: seq<Item<Rule>>)
    ensures |cleared| == |rules| && forall i :: 0 <= i < |rules| ==> cleared[i] == Cleared(g, rules[i])
  {
    if rules == [] then [] else [Cleared(g, rules[0])] + ClearedRules(g, rules[1..])
  }

  function ClearedGraph(g: Graph): Graph {
    g.(rules := ClearedRules(g, g.rules))
  }

  lemma {:induction false} KnownAre(conditions: seq<Item<Condition>>, ids: seq<Id>)
    ensures forall id :: id in Known(conditions, ids) <==> id in ids && id in Ids(conditions)
    ensures Known(conditions, Known(conditions, ids)) == Known(conditions, ids)
  {
    if ids != [] {
      var rest := Known(conditions, ids[1..]);
      KnownAre(conditions, ids[1..]);
      LookupIds(conditions, ids[0]);
      assert forall id :: id in ids <==> id == ids[0] || id in ids[1..];
      assert ([ids[0]] + rest)[1..] == rest && [] + rest == rest;
    }
  }

  lemma ClearedResolved(g: Graph)
    ensures Resolved(ClearedGraph(g))
  {
    forall r | r in ClearedRules(g, g.rules)
      ensures RuleResolves(r.body, Ids(g.conditions), Ids(g.pools))
    {
      var i :| 0 <= i < |g.rules| && r == Cleared(g, g.rules[i]);
      KnownAre(g.conditions, g.rules[i].body.conditions);
      if r.body.pool.Some? {
        LookupIds(g.pools, r.body.pool.value);
      }
    }
  }

  lemma {:induction false} ClearedLookup(g: Graph, rules: seq<Item<Rule>>, id: Id)
    ensures Lookup(ClearedRules(g, rules), id)
         == if Lookup(rules, id).Some? then Some(Cleared(g, Lookup(rules, id).value)) else None
  {
    if rules != [] {
      ClearedLookup(g, rules[1..], id);
    }
  }

  ghost predicate SameRuns(a: seq<Line>, b: seq<Line>, q: Request) {
    RunRequests(a, q) == RunRequests(b, q) && RunRoutes(a, q) == RunRoutes(b, q)
  }

  lemma {:induction false} ClearedLines(g: Graph, site: Site, ids: seq<Id>, q: Request)
    ensures SameRuns(RuleLines(ClearedGraph(g), site, ids), RuleLines(g, site, ids), q)
  {
    if ids != [] {
      var h := ClearedGraph(g);
      ClearedLines(g, site, ids[1..], q);
      ClearedLookup(g, g.rules, ids[0]);
      if Lookup(g.rules, ids[0]).Some? {
        ClearedLine(g, site, Lookup(g.rules, ids[0]).value, q);
      }
      RunRequestsAppend(LineOf(g, site, ids[0]), RuleLines(g, site, ids[1..]), q);
      RunRoutesAppend(LineOf(g, site, ids[0]), RuleLines(g, site, ids[1..]), q);
      RunRequestsAppend(LineOf(h, site, ids[0]), RuleLines(h, site, ids[1..]), q);
      RunRoutesAppend(LineOf(h, site, ids[0]), RuleLines(h, site, ids[1..]), q);
    }
  }

  lemma ClearedLine(g: Graph, site: Site, r: Item<Rule>, q: Request)
    ensures SameRuns(RuleLine(ClearedGraph(g), site, Cleared(g, r)), RuleLine(g, site, r), q)
  {
    KnownAre(g.conditions, r.body.conditions);
  }

  /** Whatever a rule refers to: a condition that does not exist is not asked for, and a
      route to a pool that does not exist is none. */
  lemma DanglingIgnored(g: Graph, site: Site, l: Listener, q: Request)
    ensures Answer(g, site, l, q) == Decide(ClearedGraph(g), site, l, q)
  {
    var h := ClearedGraph(g);
    ClearedLines(g, site, l.rules, q);
    GroupingPreserves(Written(g, site, l), l.defaultPool, q);
    GroupingPreserves(Written(h, site, l), l.defaultPool, q);
    RunRequestsAppend(OpeningLines(site, l), RuleLines(g, site, l.rules), q);
    RunRoutesAppend(OpeningLines(site, l), RuleLines(g, site, l.rules), q);
    RunRequestsAppend(OpeningLines(site, l), RuleLines(h, site, l.rules), q);
    RunRoutesAppend(OpeningLines(site, l), RuleLines(h, site, l.rules), q);
    ClearedResolved(g);
    ListenerDecides(h, site, l, q);
  }

  // ----- a rule that does not match -----

  /** Two configurations that agree on a rule, its conditions and its pool render it alike. */
  lemma SameLine(g: Graph, h: Graph, site: Site, id: Id)
    requires Resolved(g) && Resolved(h) && Lookup(g.rules, id) == Lookup(h.rules, id)
    ensures LineOf(g, site, id) == LineOf(h, site, id)
  {
    if Lookup(g.rules, id).Some? {
      RuleLineIs(g, site, Lookup(g.rules, id).value);
      RuleLineIs(h, site, Lookup(g.rules, id).value);
    }
  }

  lemma {:induction false} SameLines(g: Graph, h: Graph, site: Site, ids: seq<Id>)
    requires Resolved(g) && Resolved(h) && forall x :: x in ids ==> Lookup(g.rules, x) == Lookup(h.rules, x)
    ensures RuleLines(g, site, ids) == RuleLines(h, site, ids)
  {
    if ids != [] {
      SameLine(g, h, site, ids[0]);
      SameLines(g, h, site, ids[1..]);
    }
  }

  lemma {:induction false} SkipsLine(g: Graph, site: Site, ids: seq<Id>, id: Id, q: Request)
    requires Resolved(g) && !Fits(g, id, q)
    ensures RunRequests(RuleLines(g, site, ids), q) == RunRequests(RuleLines(g, site, RuleOrder.Others(ids, id)), q)
    ensures RunRoutes(RuleLines(g, site, ids), q) == RunRoutes(RuleLines(g, site, RuleOrder.Others(ids, id)), q)
  {
    if ids != [] {
      var rest := RuleLines(g, site, ids[1..]);
      SkipsLine(g, site, ids[1..], id, q);
      RunRequestsAppend(LineOf(g, site, ids[0]), rest, q);
      RunRoutesAppend(LineOf(g, site, ids[0]), rest, q);
      if ids[0] == id {
        LineRuns(g, site, id, q);
      } else {
        var others := RuleOrder.Others(ids[1..], id);
        assert RuleOrder.Others(ids, id)[1..] == others;
        RunRequestsAppend(LineOf(g, site, ids[0]), RuleLines(g, site, others), q);
        RunRoutesAppend(LineOf(g, site, ids[0]), RuleLines(g, site, others), q);
      }
    }
  }

  /** When one rule is changed, moved or removed and a listener is turned to https or
      not, a request that rule does not match is answered as the listener without
      the rule answered it, or redirected. */
  lemma OthersAnswered(g: Graph, h: Graph, site: Site, was: Listener, now: Listener, rule: Id, q: Request)
    requires Resolved(g) && Resolved(h) && forall x :: x != rule ==> Lookup(g.rules, x) == Lookup(h.rules, x)
    requires RuleOrder.Others(now.rules, rule) == RuleOrder.Others(was.rules, rule) && !Fits(h, rule, q)
    requires now.tcp == was.tcp && now.ssl == was.ssl && now.defaultPool == was.defaultPool
    requires was.toHttps ==> now.toHttps
    ensures var before := Answer(g, site, was.(rules := RuleOrder.Others(was.rules, rule)), q);
            if now.toHttps && !was.toHttps && !was.tcp && !was.ssl && !(site.acmeOn && q.challenge)
            then Answer(h, site, now, q) == Redirected != before
            else Answer(h, site, now, q) == before
  {
    var rest := was.(rules := RuleOrder.Others(was.rules, rule));
    GroupingPreserves(Written(g, site, rest), rest.defaultPool, q);
    GroupingPreserves(Written(h, site, now), now.defaultPool, q);
    RunRequestsAppend(OpeningLines(site, rest), RuleLines(g, site, rest.rules), q);
    RunRoutesAppend(OpeningLines(site, rest), RuleLines(g, site, rest.rules), q);
    RunRequestsAppend(OpeningLines(site, now), RuleLines(h, site, now.rules), q);
    RunRoutesAppend(OpeningLines(site, now), RuleLines(h, site, now.rules), q);
    OpeningRuns(site, rest, q);
    OpeningRuns(site, now, q);
    SkipsLine(h, site, now.rules, rule, q);
    RuleOrder.OthersMember(was.rules, rule, rule);
    SameLines(g, h, site, rest.rules);
    RoutesAreFirstMatch(g, site, rest.rules, q);
  }
}
