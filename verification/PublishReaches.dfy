/** From the form to the server: what a request for a published service gets from the
    listeners as they are rendered (ham/dnsapi.py with ham/haproxy.py). */
module PublishReaches {
  import opened Options
  import opened Collections
  import opened ServiceGraph
  import opened PublishSpec
  import opened PublishWellFormed
  import opened PublishServes
  import opened PublishAnswers
  import opened PublishFrame
  import RuleOrder
  import ListenerRules

  ghost predicate NoOtherMatches(g: Graph, ids: seq<Id>, id: Id, q: ListenerRules.Request) {
    forall x :: x in ids && x != id ==> !ListenerRules.Fits(g, x, q)
  }

  /** Where no other listed rule matches, the one that does ends the request, or is its route. */
  lemma {:induction false} OnlyFit(g: Graph, site: ListenerRules.Site, ids: seq<Id>, id: Id, q: ListenerRules.Request)
    requires NoOtherMatches(g, ids, id, q) && ListenerRules.Fits(g, id, q)
    ensures ListenerRules.FirstEnd(g, site, ids, q)
         == if id in ids && ListenerRules.Ends(g, site, id) then Some(id) else None
    ensures RuleOrder.FirstMatch(g.rules, ListenerRules.RouteIds(g, ids), q.holds)
         == if id in ids && ListenerRules.Routing(g, id) then Some(id) else None
  {
    if ids != [] {
      assert NoOtherMatches(g, ids[1..], id, q);
      OnlyFit(g, site, ids[1..], id, q);
      ListenerRules.FirstRoute(g, ids, q);
      assert ids[0] == id || !ListenerRules.Fits(g, ids[0], q);
    }
  }

  /** Does something else on the listener answer before any rule? */
  predicate Preempted(site: ListenerRules.Site, l: Listener, q: ListenerRules.Request) {
    !l.tcp && ((l.toHttps && !l.ssl) || (site.acmeOn && q.challenge) || (site.ssoOn && l.ssl && q.signInHost))
  }

  /** A rule to the pool that alone matches sends the request there exactly when
      nothing preempts it and it is a route (or an edit, where the pool is the
      listener's default anyway). */
  lemma OnlyRuleAnswers(g: Graph, site: ListenerRules.Site, l: Listener, rule: Id, pool: Id, q: ListenerRules.Request)
    requires ListenerRules.Resolved(g) && rule in l.rules && ListenerRules.Fits(g, rule, q)
    requires Lookup(g.rules, rule).value.body.pool == Some(pool) && NoOtherMatches(g, l.rules, rule, q)
    ensures ListenerRules.Answer(g, site, l, q) == ListenerRules.SentTo(ListenerRules.PoolOf(pool))
       <==> !Preempted(site, l, q)
            && (Lookup(g.rules, rule).value.body.useBackend || (rule in site.edits && l.defaultPool == Some(pool)))
  {
    ListenerRules.ListenerDecides(g, site, l, q);
    OnlyFit(g, site, l.rules, rule, q);
  }

  /** Of the wizard's kinds of conditions exactly those hold that the host and the path
      meet; of the other kinds, any. */
  ghost predicate AgreesWith(holds: set<Id>, conditions: seq<Item<Condition>>, host: string, path: string) {
    forall c :: c in conditions && c.body.kind != OtherKind ==>
      (c.id in holds <==> Holds(c.body, host, path))
  }

  lemma SameMatches(x: Rule, a: set<Id>, b: set<Id>)
    requires forall c :: c in x.conditions ==> (c in a <==> c in b)
    ensures RuleOrder.Matches(x, a) == RuleOrder.Matches(x, b)
  {
  }

  /** A rule over what the URLs need matches the requests they ask for, whichever
      conditions of other kinds hold. */
  lemma AskedFits(g: Graph, r: Request, rule: Id, pool: Id, host: string, path: string, q: ListenerRules.Request)
    requires r.urls != [] && Distinct(g.conditions) && RuleServes(g, r, rule, pool)
    requires AnswersAsked(g, r, Lookup(g.rules, rule).value.body, host, path) && Asked(r, host, path)
    requires AgreesWith(q.holds, g.conditions, host, path)
    ensures ListenerRules.Fits(g, rule, q)
  {
    var x := Lookup(g.rules, rule).value.body;
    forall id | id in x.conditions
      ensures id in q.holds <==> id in Holding(g.conditions, host, path)
    {
      var i :| 0 <= i < |x.conditions| && x.conditions[i] == id;
      NeedKind(r, i);
      HoldingLookup(g.conditions, id, host, path);
    }
    SameMatches(x, q.holds, Holding(g.conditions, host, path));
  }

  lemma NeedKind(r: Request, i: nat)
    requires r.urls != [] && i < |Needs(r)|
    ensures Needs(r)[i].kind != OtherKind
  {
    HostNeedsAre(r, Hosts(r), |Hosts(r)| == 1);
  }

  lemma PublishedFits(g: Graph, r: Request, mint: Mint, host: string, path: string, q: ListenerRules.Request)
    requires r.urls != [] && !IsTcp(r) && Generates(mint) && WellFormed(g) && Published(g, r, mint).Some?
    requires WillAnswer(g, r) && Asked(r, host, path)
    requires AgreesWith(q.holds, Published(g, r, mint).value.conditions, host, path)
    ensures ListenerRules.Fits(Published(g, r, mint).value, RoutingOf(g, r, mint).rule, q)
  {
    var after, pool, rule := Published(g, r, mint).value, BackendStep(g, r, mint).pool, RoutingOf(g, r, mint).rule;
    PublishedParts(g, r, mint);
    RoutingServes(g, r, mint);
    PublishedRuleAnswers(g, r, mint);
    assert AnswersAsked(after, r, Lookup(after.rules, rule).value.body, host, path);
    AskedFits(after, r, rule, pool, host, path, q);
  }

  /** What publishing leaves for a request the URLs ask for: a pool with the targets, and
      a rule to it that matches. */
  lemma PublishedHere(g: Graph, r: Request, mint: Mint, host: string, path: string, q: ListenerRules.Request)
    requires r.urls != [] && !IsTcp(r) && Generates(mint) && WellFormed(g) && Published(g, r, mint).Some?
    requires WillAnswer(g, r) && Asked(r, host, path)
    requires AgreesWith(q.holds, Published(g, r, mint).value.conditions, host, path)
    ensures var after, pool := Published(g, r, mint).value, BackendStep(g, r, mint).pool;
            var rule := RoutingOf(g, r, mint).rule;
            PoolServes(after, r, pool) && ListenerRules.Resolved(after) && ListenerRules.Fits(after, rule, q)
            && var x := Lookup(after.rules, rule).value.body; x.pool == Some(pool) && x.useBackend == KeepsRoute(g, r)
  {
    PublishedFits(g, r, mint, host, path, q);
    PublishedRuleAnswers(g, r, mint);
    PublishServesWeb(g, r, mint);
    PublishedResolved(g, r, mint);
  }

  /** After publishing, a request the URLs ask for, on a listener that carries the rule
      and where no other rule matches, is sent to the pool that holds the targets
      exactly when nothing on the listener preempts it and the rule is a route. */
  lemma PublishedReaches(g: Graph, r: Request, mint: Mint, site: ListenerRules.Site, l: Item<Listener>, host: string,
          path: string, q: ListenerRules.Request)
    requires r.urls != [] && !IsTcp(r) && Generates(mint) && WellFormed(g) && Published(g, r, mint).Some?
    requires WillAnswer(g, r) && Asked(r, host, path)
    requires var after, rule := Published(g, r, mint).value, RoutingOf(g, r, mint).rule;
             l in after.listeners && rule in l.body.rules && AgreesWith(q.holds, after.conditions, host, path)
             && NoOtherMatches(after, l.body.rules, rule, q)
    ensures var after, pool, rule := Published(g, r, mint).value, BackendStep(g, r, mint).pool,
        RoutingOf(g, r, mint).rule;
            PoolServes(after, r, pool) && l.body.toHttps == WillRedirect(g, r, l.id)
            && (ListenerRules.Answer(after, site, l.body, q) == ListenerRules.SentTo(ListenerRules.PoolOf(pool))
                <==> !Preempted(site, l.body, q)
                     && (KeepsRoute(g, r) || (rule in site.edits && l.body.defaultPool == Some(pool))))
  {
    var after, pool, rule := Published(g, r, mint).value, BackendStep(g, r, mint).pool, RoutingOf(g, r, mint).rule;
    PublishedHere(g, r, mint, host, path, q);
    RedirectTold(g, r, mint, l);
    OnlyRuleAnswers(after, site, l.body, rule, pool, q);
  }

  // ----- whatever else matches -----

  /** The first listed route that matches. */
  ghost predicate IsFirstRoute(g: Graph, ids: seq<Id>, i: nat, q: ListenerRules.Request) {
    i < |ids| && ListenerRules.Routing(g, ids[i]) && ListenerRules.Fits(g, ids[i], q)
    && forall k :: 0 <= k < i ==> !(ListenerRules.Routing(g, ids[k]) && ListenerRules.Fits(g, ids[k], q))
  }

  ghost predicate NoEndMatches(g: Graph, site: ListenerRules.Site, ids: seq<Id>, q: ListenerRules.Request) {
    forall x :: x in ids && ListenerRules.Fits(g, x, q) ==> !ListenerRules.Ends(g, site, x)
  }

  lemma {:induction false} FirstEndNone(g: Graph, site: ListenerRules.Site, ids: seq<Id>, q: ListenerRules.Request)
    ensures ListenerRules.FirstEnd(g, site, ids, q).None? <==> NoEndMatches(g, site, ids, q)
  {
    if ids != [] {
      FirstEndNone(g, site, ids[1..], q);
      assert forall x :: x in ids <==> x == ids[0] || x in ids[1..];
    }
  }

  lemma {:induction false} FirstRouteAt(g: Graph, ids: seq<Id>, i: nat, q: ListenerRules.Request)
    requires IsFirstRoute(g, ids, i, q)
    ensures RuleOrder.FirstMatch(g.rules, ListenerRules.RouteIds(g, ids), q.holds) == Some(ids[i])
  {
    ListenerRules.FirstRoute(g, ids, q);
    if i > 0 {
      forall k | 0 <= k < i - 1
        ensures !(ListenerRules.Routing(g, ids[1..][k]) && ListenerRules.Fits(g, ids[1..][k], q))
      {
        assert ids[1..][k] == ids[k + 1];
      }
      FirstRouteAt(g, ids[1..], i - 1, q);
    }
  }

  /** There is a first where one matches. */
  lemma {:induction false} SomeFirstRoute(g: Graph, ids: seq<Id>, n: nat, q: ListenerRules.Request) returns (i: nat)
    requires n < |ids| && ListenerRules.Routing(g, ids[n]) && ListenerRules.Fits(g, ids[n], q)
    ensures i <= n && IsFirstRoute(g, ids, i, q)
    decreases n
  {
    if k :| 0 <= k < n && ListenerRules.Routing(g, ids[k]) && ListenerRules.Fits(g, ids[k], q) {
      i := SomeFirstRoute(g, ids, k, q);
    } else {
      i := n;
    }
  }

  /** The first route that matches, among them the service's, leads to its pool. */
  ghost predicate FirstLeadsTo(g: Graph, ids: seq<Id>, pool: Id, q: ListenerRules.Request) {
    exists i: nat :: IsFirstRoute(g, ids, i, q) && Lookup(g.rules, ids[i]).value.body.pool == Some(pool)
  }

  /** After publishing, a request the URLs ask for, on a listener that carries the
      service's route, whatever the other rules are, is sent to the pool that holds the
      targets exactly when nothing preempts it, no rule that ends requests matches it,
      and the first route that does leads to that pool. */
  lemma PublishedReachesAmong(g: Graph, r: Request, mint: Mint, site: ListenerRules.Site, l: Item<Listener>,
          host: string, path: string, q: ListenerRules.Request)
    requires r.urls != [] && !IsTcp(r) && Generates(mint) && WellFormed(g) && Published(g, r, mint).Some?
    requires WillAnswer(g, r) && KeepsRoute(g, r) && Asked(r, host, path)
    requires var after, rule := Published(g, r, mint).value, RoutingOf(g, r, mint).rule;
             l in after.listeners && rule in l.body.rules && AgreesWith(q.holds, after.conditions, host, path)
    ensures var after, pool := Published(g, r, mint).value, BackendStep(g, r, mint).pool;
            PoolServes(after, r, pool) && l.body.toHttps == WillRedirect(g, r, l.id)
            && (ListenerRules.Answer(after, site, l.body, q) == ListenerRules.SentTo(ListenerRules.PoolOf(pool))
                <==> !Preempted(site, l.body, q) && NoEndMatches(after, site, l.body.rules, q)
                     && FirstLeadsTo(after, l.body.rules, pool, q))
  {
    var after, pool, rule := Published(g, r, mint).value, BackendStep(g, r, mint).pool, RoutingOf(g, r, mint).rule;
    PublishedHere(g, r, mint, host, path, q);
    RedirectTold(g, r, mint, l);
    AmongRulesAnswers(after, site, l.body, rule, pool, q);
  }

  lemma AmongRulesAnswers(g: Graph, site: ListenerRules.Site, l: Listener, rule: Id, pool: Id,
          q: ListenerRules.Request)
    requires ListenerRules.Resolved(g) && rule in l.rules && ListenerRules.Fits(g, rule, q)
    requires ListenerRules.Routing(g, rule)
    ensures ListenerRules.Answer(g, site, l, q) == ListenerRules.SentTo(ListenerRules.PoolOf(pool))
       <==> !Preempted(site, l, q) && NoEndMatches(g, site, l.rules, q) && FirstLeadsTo(g, l.rules, pool, q)
  {
    ListenerRules.ListenerDecides(g, site, l, q);
    FirstEndNone(g, site, l.rules, q);
    var n :| 0 <= n < |l.rules| && l.rules[n] == rule;
    var i := SomeFirstRoute(g, l.rules, n, q);
    FirstRouteAt(g, l.rules, i, q);
    forall k: nat | IsFirstRoute(g, l.rules, k, q)
      ensures k == i
    {
      OneFirstRoute(g, l.rules, i, k, q);
    }
  }

  lemma OneFirstRoute(g: Graph, ids: seq<Id>, i: nat, k: nat, q: ListenerRules.Request)
    requires IsFirstRoute(g, ids, i, q) && IsFirstRoute(g, ids, k, q)
    ensures i == k
  {
  }

  // ----- where broader rules match too -----

  /** Every other listed rule that matches is a route over fewer of the conditions. */
  ghost predicate OthersBroader(g: Graph, ids: seq<Id>, id: Id, q: ListenerRules.Request) {
    forall x :: x in ids && x != id && ListenerRules.Fits(g, x, q) ==>
      ListenerRules.Routing(g, x)
      && RuleOrder.StrictlyWithin(RuleOrder.ConditionsOf(g.rules, x), RuleOrder.ConditionsOf(g.rules, id))
  }

  /** In a list in order the rule comes before all that are broader. */
  lemma {:induction false} FirstOfBroader(g: Graph, site: ListenerRules.Site, ids: seq<Id>, id: Id,
          q: ListenerRules.Request)
    requires RuleOrder.Ordered(g.rules, ids) && OthersBroader(g, ids, id, q)
    requires ListenerRules.Fits(g, id, q) && ListenerRules.Routing(g, id)
    ensures ListenerRules.FirstEnd(g, site, ids, q) == None
    ensures id in ids ==> RuleOrder.FirstMatch(g.rules, ListenerRules.RouteIds(g, ids), q.holds) == Some(id)
  {
    if ids != [] {
      assert OthersBroader(g, ids[1..], id, q);
      FirstOfBroader(g, site, ids[1..], id, q);
      ListenerRules.FirstRoute(g, ids, q);
      assert ids[0] == id || !ListenerRules.Fits(g, ids[0], q) || ListenerRules.Routing(g, ids[0]);
      assert RuleOrder.NotBroader(g.rules, ids[0], ids[1..]);
    }
  }

  /** After publishing into rules in order, a request the URLs ask for, on a listener
      that carries the service's route and where all other rules that match are routes
      over fewer conditions, is sent to the pool that holds the targets exactly when
      nothing on the listener preempts it. */
  lemma PublishedReachesFirst(g: Graph, r: Request, mint: Mint, site: ListenerRules.Site, l: Item<Listener>,
          host: string, path: string, q: ListenerRules.Request)
    requires r.urls != [] && !IsTcp(r) && Generates(mint) && WellFormed(g) && Published(g, r, mint).Some?
    requires AllOrdered(g.rules, g.listeners) && WillAnswer(g, r) && KeepsRoute(g, r) && Asked(r, host, path)
    requires var after, rule := Published(g, r, mint).value, RoutingOf(g, r, mint).rule;
             l in after.listeners && rule in l.body.rules && AgreesWith(q.holds, after.conditions, host, path)
             && OthersBroader(after, l.body.rules, rule, q)
    ensures var after, pool := Published(g, r, mint).value, BackendStep(g, r, mint).pool;
            PoolServes(after, r, pool) && l.body.toHttps == WillRedirect(g, r, l.id)
            && (ListenerRules.Answer(after, site, l.body, q) == ListenerRules.SentTo(ListenerRules.PoolOf(pool))
                <==> !Preempted(site, l.body, q))
  {
    var after, pool, rule := Published(g, r, mint).value, BackendStep(g, r, mint).pool, RoutingOf(g, r, mint).rule;
    PublishedHere(g, r, mint, host, path, q);
    RedirectTold(g, r, mint, l);
    PublishKeepsOrder(g, r, mint);
    FirstRuleAnswers(after, site, l.body, rule, pool, q);
  }

  lemma FirstRuleAnswers(g: Graph, site: ListenerRules.Site, l: Listener, rule: Id, pool: Id, q: ListenerRules.Request)
    requires ListenerRules.Resolved(g) && RuleOrder.Ordered(g.rules, l.rules) && rule in l.rules
    requires ListenerRules.Fits(g, rule, q) && Lookup(g.rules, rule).value.body.pool == Some(pool)
    requires Lookup(g.rules, rule).value.body.useBackend && OthersBroader(g, l.rules, rule, q)
    ensures ListenerRules.Answer(g, site, l, q) == ListenerRules.SentTo(ListenerRules.PoolOf(pool))
       <==> !Preempted(site, l, q)
  {
    ListenerRules.ListenerDecides(g, site, l, q);
    FirstOfBroader(g, site, l.rules, rule, q);
  }

  // ----- which listeners redirect, told before publishing -----

  /** New listeners are of the service's kind and redirect nothing. */
  ghost predicate NewOnesPlain(before: set<Id>, ls: seq<Item<Listener>>, ssl: bool) {
    forall l :: l in ls && l.id !in before ==> !l.body.toHttps && l.body.ssl == ssl
  }

  lemma {:induction false} ServeAllPlain(before: set<Id>, mint: Mint, rules: seq<Item<Rule>>, s: Served,
          ports: seq<nat>, ssl: bool, rule: Id, cert: Option<Id>)
    requires Generates(mint) && Distinct(s.listeners) && NewOnesPlain(before, s.listeners, ssl)
    requires ServeAll(mint, rules, s, ports, ssl, rule, cert).Some?
    ensures NewOnesPlain(before, ServeAll(mint, rules, s, ports, ssl, rule, cert).value.listeners, ssl)
    decreases |ports|
  {
    if ports != [] {
      var l := ListenerFor(mint, rules, s.listeners, ports[0], ssl, rule, cert);
      forall k | k in Upsert(s.listeners, l) && k.id !in before
        ensures !k.body.toHttps && k.body.ssl == ssl
      {
        UpsertMembers(s.listeners, l, k);
      }
      ServeOneDistinct(mint, rules, s, ports[0], ssl, rule, cert);
      ServeAllPlain(before, mint, rules, ServeOne(mint, rules, s, ports[0], ssl, rule, cert), ports[1..], ssl, rule,
          cert);
    }
  }

  lemma {:induction false} ReleasePlain(before: set<Id>, ls: seq<Item<Listener>>, serving: seq<Id>, rule: Id, ssl: bool)
    requires NewOnesPlain(before, ls, ssl)
    ensures NewOnesPlain(before, Release(ls, serving, rule), ssl)
  {
    if ls != [] {
      assert NewOnesPlain(before, ls[1..], ssl);
      ReleasePlain(before, ls[1..], serving, rule, ssl);
      assert ls[0] in ls;
      forall l | l in Release(ls, serving, rule) && l.id !in before
        ensures !l.body.toHttps && l.body.ssl == ssl
      {
        assert l == Release(ls, serving, rule)[0] || l in Release(ls[1..], serving, rule);
      }
    }
  }

  /** A listener made for the service that carries its rule redirects nothing. */
  lemma NewListenersPlain(g: Graph, r: Request, mint: Mint, l: Item<Listener>)
    requires r.urls != [] && !IsTcp(r) && Generates(mint) && WellFormed(g) && Published(g, r, mint).Some?
    requires l in Published(g, r, mint).value.listeners && l.id !in Ids(g.listeners)
    requires RoutingOf(g, r, mint).rule in l.body.rules
    ensures !l.body.toHttps
  {
    var t, ssl := RoutingOf(g, r, mint), r.urls[0].scheme == Https;
    var edited := ExistingRule(g, r).Some?;
    PublishedParts(g, r, mint);
    ListenerStepIs(t, r, mint, edited);
    var s := ServeAll(mint, t.graph.rules, Served(g.listeners, []), Ports(r), ssl, t.rule, t.cert).value;
    assert forall k :: k in g.listeners ==> k.id in Ids(g.listeners);
    ServeAllPlain(Ids(g.listeners), mint, t.graph.rules, Served(g.listeners, []), Ports(r), ssl, t.rule, t.cert);
    ReleasePlain(Ids(g.listeners), s.listeners, s.ids, t.rule, ssl);
    KeptServes(mint, t.graph.rules, g.listeners, Ports(r), ssl, t.rule, t.cert, edited);
    RedirectPlain(Ids(g.listeners), mint, Kept(s, t.rule, edited), ssl, ssl && r.httpRedirect, t.rule, l);
  }

  lemma RedirectPlain(before: set<Id>, mint: Mint, kept: seq<Item<Listener>>, ssl: bool, redirect: bool, rule: Id,
          l: Item<Listener>)
    requires Distinct(kept) && NewOnesPlain(before, kept, ssl) && (redirect ==> ssl)
    requires l in Redirected(mint, kept, redirect) && l.id !in before && rule in l.body.rules
    ensures !l.body.toHttps
  {
    if redirect {
      var x, f := RedirectFor(mint, kept), Find(kept, PlainOn80());
      UpsertMembers(kept, x, l);
      assert f.Some? ==> PlainOn80()(f.value) && x.id == f.value.id;
    }
  }

  /** Told before publishing: does a listener that carries the rule redirect? */
  predicate WillRedirect(g: Graph, r: Request, id: Id)
    requires r.urls != []
  {
    Lookup(g.listeners, id).Some? && (Lookup(g.listeners, id).value.body.toHttps || Turns(g.listeners, r, id))
  }

  lemma RedirectTold(g: Graph, r: Request, mint: Mint, l: Item<Listener>)
    requires r.urls != [] && !IsTcp(r) && Generates(mint) && WellFormed(g) && Published(g, r, mint).Some?
    requires l in Published(g, r, mint).value.listeners && RoutingOf(g, r, mint).rule in l.body.rules
    ensures l.body.toHttps == WillRedirect(g, r, l.id)
  {
    LookupIds(g.listeners, l.id);
    if l.id in Ids(g.listeners) {
      WebListenersOk(g, r, mint);
      PublishLeavesObjects(g, r, mint, l.id);
      DistinctLookup(Published(g, r, mint).value.listeners, l);
    } else {
      NewListenersPlain(g, r, mint, l);
    }
  }

  // ----- http on a port that redirects -----

  /** The first fit keeps its place when an item that fits, or none, is written. */
  lemma {:induction false} FindKept<B>(xs: seq<Item<B>>, x: Item<B>, fits: Item<B> -> bool)
    requires Find(xs, fits).Some? && (Lookup(xs, x.id).Some? ==> fits(Lookup(xs, x.id).value) == fits(x))
    ensures Find(Upsert(xs, x), fits).Some? && Find(Upsert(xs, x), fits).value.id == Find(xs, fits).value.id
  {
    if xs[0].id != x.id && !fits(xs[0]) {
      FindKept(xs[1..], x, fits);
    }
  }

  /** The listener found for a port is the one that will carry the rule. */
  lemma {:induction false} ServesFound(mint: Mint, rules: seq<Item<Rule>>, s: Served, ports: seq<nat>, ssl: bool,
          rule: Id, cert: Option<Id>, p: nat)
    requires Generates(mint) && Distinct(s.listeners) && ServeAll(mint, rules, s, ports, ssl, rule, cert).Some?
    requires p in ports && Find(s.listeners, Serving(p, ssl)).Some?
    ensures var e, id := ServeAll(mint, rules, s, ports, ssl, rule, cert).value,
        Find(s.listeners, Serving(p, ssl)).value.id;
            id in e.ids && Lookup(e.listeners, id).Some? && rule in Lookup(e.listeners, id).value.body.rules
    decreases |ports|
  {
    var l := ListenerFor(mint, rules, s.listeners, ports[0], ssl, rule, cert);
    var d := ServeOne(mint, rules, s, ports[0], ssl, rule, cert);
    ServeOneDistinct(mint, rules, s, ports[0], ssl, rule, cert);
    ListenerForCarries(mint, rules, s.listeners, ports[0], ssl, rule, cert);
    if p == ports[0] {
      UpsertLookup(s.listeners, l, l.id);
      CarriedOn(mint, rules, d, ports[1..], ssl, rule, cert, l.id);
    } else {
      if Lookup(s.listeners, l.id).Some? {
        ServedListenerIs(mint, rules, s.listeners, ports[0], ssl, rule, cert, Lookup(s.listeners, l.id).value);
      }
      FindKept(s.listeners, l, Serving(p, ssl));
      ServesFound(mint, rules, d, ports[1..], ssl, rule, cert, p);
    }
  }

  lemma {:induction false} CarriedOn(mint: Mint, rules: seq<Item<Rule>>, s: Served, ports: seq<nat>, ssl: bool,
          rule: Id, cert: Option<Id>, id: Id)
    requires Generates(mint) && Distinct(s.listeners) && ServeAll(mint, rules, s, ports, ssl, rule, cert).Some?
    requires id in s.ids && Lookup(s.listeners, id).Some? && rule in Lookup(s.listeners, id).value.body.rules
    ensures var e := ServeAll(mint, rules, s, ports, ssl, rule, cert).value;
            id in e.ids && Lookup(e.listeners, id).Some? && rule in Lookup(e.listeners, id).value.body.rules
    decreases |ports|
  {
    if ports != [] {
      var l := ListenerFor(mint, rules, s.listeners, ports[0], ssl, rule, cert);
      ListenerForCarries(mint, rules, s.listeners, ports[0], ssl, rule, cert);
      UpsertLookup(s.listeners, l, id);
      ServeOneDistinct(mint, rules, s, ports[0], ssl, rule, cert);
      CarriedOn(mint, rules, ServeOne(mint, rules, s, ports[0], ssl, rule, cert), ports[1..], ssl, rule, cert, id);
    }
  }

  /** Publishing http on a port whose listener redirects puts the rule there and leaves
      the redirect on: no request but a challenge reaches the pool through it. */
  lemma RedirectingPortServesNothing(g: Graph, r: Request, mint: Mint, site: ListenerRules.Site, p: nat,
          q: ListenerRules.Request)
    requires r.urls != [] && r.urls[0].scheme == Http && Generates(mint) && WellFormed(g) && Published(g, r, mint).Some?
    requires p in Ports(r) && Find(g.listeners, Serving(p, false)).Some?
    requires Find(g.listeners, Serving(p, false)).value.body.toHttps && !(site.acmeOn && q.challenge)
    ensures var after, id := Published(g, r, mint).value, Find(g.listeners, Serving(p, false)).value.id;
            Lookup(after.listeners, id).Some?
            && RoutingOf(g, r, mint).rule in Lookup(after.listeners, id).value.body.rules
            && ListenerRules.Answer(after, site, Lookup(after.listeners, id).value.body, q) == ListenerRules.Redirected
  {
    var t, k, after := RoutingOf(g, r, mint), Find(g.listeners, Serving(p, false)).value, Published(g, r, mint).value;
    var edited := ExistingRule(g, r).Some?;
    PublishedParts(g, r, mint);
    ListenerStepIs(t, r, mint, edited);
    ServesFound(mint, t.graph.rules, Served(g.listeners, []), Ports(r), false, t.rule, t.cert, p);
    var s := ServeAll(mint, t.graph.rules, Served(g.listeners, []), Ports(r), false, t.rule, t.cert).value;
    ReleaseLookup(s.listeners, s.ids, t.rule, k.id);
    DistinctLookup(g.listeners, k);
    assert k.id in Ids(g.listeners);
    PublishLeavesObjects(g, r, mint, k.id);
    PublishedResolved(g, r, mint);
    ListenerRules.ListenerDecides(after, site, Lookup(after.listeners, k.id).value.body, q);
  }
}
