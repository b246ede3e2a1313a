/** What publishing leaves alone: the pools it does not take, the other rules, what
    every listener answers to other services' requests, where the servers of the
    pools it does not take are, and the order of the rules; and exactly when it does
    not. Where those requests end up in the end is in `PublishPlaces`. */
module PublishFrame {
  import opened Options
  import opened Collections
  import opened ServiceGraph
  import opened PublishSpec
  import opened PublishWellFormed
  import opened PublishServes
  import RuleOrder
  import ListenerRules

  // ----- pools and rules -----

  /** Told before publishing: is this the pool of the edited service, or else the one
      that has the name the service's pool would get, whoever uses it? */
  predicate Takes(g: Graph, r: Request, pool: Id) {
    var former := OldPool(r, g.pools, ExistingPool(g, r));
    former.Some? && former.value.id == pool
  }

  lemma PoolTaken(g: Graph, r: Request, mint: Mint, id: Id)
    requires Generates(mint) && id in Ids(g.pools)
    ensures BackendStep(g, r, mint).pool == id <==> Takes(g, r, id)
  {
  }

  lemma OtherPoolsStay(g: Graph, r: Request, mint: Mint, id: Id)
    requires Generates(mint) && id in Ids(g.pools) && !Takes(g, r, id)
    ensures Lookup(BackendStep(g, r, mint).graph.pools, id) == Lookup(g.pools, id)
  {
    PoolTaken(g, r, mint, id);
    var claims := ClaimAll(r, mint, Claims(g.servers, []), r.targets);
    var choice := MonitorStep(r, mint, g.monitors, OwnMonitor(g, r), Shared(g, r));
    UpsertLookup(g.pools, PoolFor(r, mint, g.pools, ExistingPool(g, r), claims.ids, choice.monitor), id);
  }

  lemma OtherRulesStay(g: Graph, r: Request, mint: Mint, own: Option<Item<Rule>>, pool: Id, id: Id)
    requires r.urls != [] && id != RuleStep(g, r, mint, own, pool).rule
    ensures Lookup(RuleStep(g, r, mint, own, pool).graph.rules, id) == Lookup(g.rules, id)
  {
    var c := NeedAll(mint, Conditions(g.conditions, []), Needs(r));
    UpsertLookup(g.rules, RuleFor(r, mint, g.rules, own, c.ids, pool), id);
  }

  // ----- listeners -----

  /** What no step but the redirect changes of a listener: all but where the one rule
      stands and added certificates. */
  ghost predicate ListenerKept(before: Listener, after: Listener, rule: Id) {
    RuleOrder.Others(after.rules, rule) == RuleOrder.Others(before.rules, rule)
    && after.tcp == before.tcp && after.ssl == before.ssl && after.binds == before.binds
    && after.defaultPool == before.defaultPool && after.toHttps == before.toHttps
    && SetOf(before.certificates) <= SetOf(after.certificates)
  }

  ghost predicate ListenersKept(before: seq<Item<Listener>>, after: seq<Item<Listener>>, rule: Id) {
    forall id :: id in Ids(before) ==>
      Lookup(before, id).Some? && Lookup(after, id).Some?
      && ListenerKept(Lookup(before, id).value.body, Lookup(after, id).value.body, rule)
  }

  lemma ListenersSame(ls: seq<Item<Listener>>, rule: Id)
    ensures ListenersKept(ls, ls, rule)
  {
    forall id | id in Ids(ls)
      ensures Lookup(ls, id).Some?
    {
      LookupIds(ls, id);
    }
  }

  lemma KeptThrough(a: seq<Item<Listener>>, b: seq<Item<Listener>>, c: seq<Item<Listener>>, rule: Id)
    requires ListenersKept(a, b, rule) && ListenersKept(b, c, rule)
    ensures ListenersKept(a, c, rule)
  {
    forall id | id in Ids(a)
      ensures Lookup(a, id).Some? && Lookup(c, id).Some?
              && ListenerKept(Lookup(a, id).value.body, Lookup(c, id).value.body, rule)
    {
      LookupIds(b, id);
    }
  }

  lemma UpsertKept(ls: seq<Item<Listener>>, l: Item<Listener>, rule: Id)
    requires Lookup(ls, l.id).Some? ==> ListenerKept(Lookup(ls, l.id).value.body, l.body, rule)
    ensures ListenersKept(ls, Upsert(ls, l), rule)
  {
    forall id | id in Ids(ls)
      ensures Lookup(ls, id).Some? && Lookup(Upsert(ls, l), id).Some?
              && ListenerKept(Lookup(ls, id).value.body, Lookup(Upsert(ls, l), id).value.body, rule)
    {
      LookupIds(ls, id);
      UpsertLookup(ls, l, id);
    }
  }

  lemma CarryingKept(rules: seq<Item<Rule>>, l: Item<Listener>, rule: Id, cert: Option<Id>)
    ensures ListenerKept(l.body, Carrying(rules, l, rule, cert).body, rule)
  {
    RuleOrder.PlaceKeepsOthers(rules, l.body.rules, rule);
    if cert.Some? {
      SetOfAppend(l.body.certificates, cert.value);
    }
  }

  lemma ServeOneKept(mint: Mint, rules: seq<Item<Rule>>, s: Served, port: nat, ssl: bool, rule: Id, cert: Option<Id>)
    requires Generates(mint) && Distinct(s.listeners)
    ensures ListenersKept(s.listeners, ServeOne(mint, rules, s, port, ssl, rule, cert).listeners, rule)
  {
    var l := ListenerFor(mint, rules, s.listeners, port, ssl, rule, cert);
    var k := Lookup(s.listeners, l.id);
    if k.Some? {
      ServedListenerIs(mint, rules, s.listeners, port, ssl, rule, cert, k.value);
      CarryingKept(rules, k.value, rule, cert);
    }
    UpsertKept(s.listeners, l, rule);
  }

  lemma {:induction false} ServeAllKept(mint: Mint, rules: seq<Item<Rule>>, s: Served, ports: seq<nat>, ssl: bool,
          rule: Id, cert: Option<Id>)
    requires Generates(mint) && Distinct(s.listeners) && ServeAll(mint, rules, s, ports, ssl, rule, cert).Some?
    ensures ListenersKept(s.listeners, ServeAll(mint, rules, s, ports, ssl, rule, cert).value.listeners, rule)
    decreases |ports|
  {
    ListenersSame(s.listeners, rule);
    if ports != [] {
      var t := ServeOne(mint, rules, s, ports[0], ssl, rule, cert);
      ServeOneKept(mint, rules, s, ports[0], ssl, rule, cert);
      ServeOneDistinct(mint, rules, s, ports[0], ssl, rule, cert);
      ServeAllKept(mint, rules, t, ports[1..], ssl, rule, cert);
      KeptThrough(s.listeners, t.listeners, ServeAll(mint, rules, s, ports, ssl, rule, cert).value.listeners, rule);
    }
  }

  lemma {:induction false} ReleaseLookup(ls: seq<Item<Listener>>, serving: seq<Id>, rule: Id, id: Id)
    requires Lookup(ls, id).Some?
    ensures Lookup(Release(ls, serving, rule), id).Some?
    ensures Lookup(Release(ls, serving, rule), id).value.body ==
              if id in serving then Lookup(ls, id).value.body
              else Lookup(ls, id).value.body.(rules := RuleOrder.Others(Lookup(ls, id).value.body.rules, rule))
  {
    if ls[0].id != id {
      ReleaseLookup(ls[1..], serving, rule, id);
    }
  }

  lemma ReleaseKept(ls: seq<Item<Listener>>, serving: seq<Id>, rule: Id)
    ensures ListenersKept(ls, Release(ls, serving, rule), rule)
  {
    forall id | id in Ids(ls)
      ensures Lookup(ls, id).Some? && Lookup(Release(ls, serving, rule), id).Some?
              && ListenerKept(Lookup(ls, id).value.body, Lookup(Release(ls, serving, rule), id).value.body, rule)
    {
      LookupIds(ls, id);
      ReleaseLookup(ls, serving, rule, id);
      RuleOrder.OthersTwice(Lookup(ls, id).value.body.rules, rule);
    }
  }

  // ----- the redirect -----

  /** The listener that publishing turns to https: the first one on port 80 without TLS. */
  predicate Turns(ls: seq<Item<Listener>>, r: Request, id: Id)
    requires r.urls != []
  {
    r.urls[0].scheme == Https && r.httpRedirect && Find(ls, PlainOn80()).Some? && Find(ls, PlainOn80()).value.id == id
  }

  ghost predicate SameFirst(a: seq<Item<Listener>>, b: seq<Item<Listener>>) {
    var f, h := Find(a, PlainOn80()), Find(b, PlainOn80());
    if f.Some? then h.Some? && h.value.id == f.value.id else h.None?
  }

  /** Writing an item that does not fit, over one that does not, leaves the first fit. */
  lemma {:induction false} FindUnaffected<B>(xs: seq<Item<B>>, x: Item<B>, fits: Item<B> -> bool)
    requires !fits(x) && (Lookup(xs, x.id).Some? ==> !fits(Lookup(xs, x.id).value))
    ensures Find(Upsert(xs, x), fits) == Find(xs, fits)
  {
    if xs != [] && xs[0].id != x.id {
      FindUnaffected(xs[1..], x, fits);
    }
  }

  lemma {:induction false} ServeAllFirst(mint: Mint, rules: seq<Item<Rule>>, s: Served, ports: seq<nat>, rule: Id,
          cert: Option<Id>)
    requires Generates(mint) && Distinct(s.listeners) && ServeAll(mint, rules, s, ports, true, rule, cert).Some?
    ensures Find(ServeAll(mint, rules, s, ports, true, rule, cert).value.listeners, PlainOn80())
         == Find(s.listeners, PlainOn80())
    decreases |ports|
  {
    if ports != [] {
      var l := ListenerFor(mint, rules, s.listeners, ports[0], true, rule, cert);
      ListenerForCarries(mint, rules, s.listeners, ports[0], true, rule, cert);
      if Lookup(s.listeners, l.id).Some? {
        ServedListenerIs(mint, rules, s.listeners, ports[0], true, rule, cert, Lookup(s.listeners, l.id).value);
      }
      FindUnaffected(s.listeners, l, PlainOn80());
      ServeOneDistinct(mint, rules, s, ports[0], true, rule, cert);
      ServeAllFirst(mint, rules, ServeOne(mint, rules, s, ports[0], true, rule, cert), ports[1..], rule, cert);
    }
  }

  lemma {:induction false} ReleaseFirst(ls: seq<Item<Listener>>, serving: seq<Id>, rule: Id)
    ensures SameFirst(ls, Release(ls, serving, rule))
  {
    if ls != [] {
      ReleaseFirst(ls[1..], serving, rule);
      assert Release(ls, serving, rule)[1..] == Release(ls[1..], serving, rule);
      assert PlainOn80()(Release(ls, serving, rule)[0]) == PlainOn80()(ls[0]);
    }
  }

  lemma KeptFirst(mint: Mint, rules: seq<Item<Rule>>, ls: seq<Item<Listener>>, ports: seq<nat>, rule: Id,
          cert: Option<Id>, edited: bool)
    requires Generates(mint) && Distinct(ls) && ServeAll(mint, rules, Served(ls, []), ports, true, rule, cert).Some?
    ensures SameFirst(ls, Kept(ServeAll(mint, rules, Served(ls, []), ports, true, rule, cert).value, rule, edited))
  {
    var s := ServeAll(mint, rules, Served(ls, []), ports, true, rule, cert).value;
    ServeAllFirst(mint, rules, Served(ls, []), ports, rule, cert);
    ReleaseFirst(s.listeners, s.ids, rule);
  }

  lemma ServedKept(mint: Mint, rules: seq<Item<Rule>>, ls: seq<Item<Listener>>, ports: seq<nat>, ssl: bool, rule: Id,
          cert: Option<Id>, edited: bool)
    requires Generates(mint) && Distinct(ls) && ServeAll(mint, rules, Served(ls, []), ports, ssl, rule, cert).Some?
    ensures ListenersKept(ls,
        Kept(ServeAll(mint, rules, Served(ls, []), ports, ssl, rule, cert).value, rule, edited), rule)
  {
    var s := ServeAll(mint, rules, Served(ls, []), ports, ssl, rule, cert).value;
    ServeAllKept(mint, rules, Served(ls, []), ports, ssl, rule, cert);
    ListenersSame(s.listeners, rule);
    ReleaseKept(s.listeners, s.ids, rule);
    KeptThrough(ls, s.listeners, Kept(s, rule, edited), rule);
  }

  /** A listener as publishing leaves it. */
  ghost predicate ListenerLeft(was: Option<Item<Listener>>, now: Option<Item<Listener>>, turned: bool, rule: Id) {
    was.Some? && now.Some?
    && ListenerKept(was.value.body.(toHttps := was.value.body.toHttps || turned), now.value.body, rule)
  }

  lemma RedirectedLeft(mint: Mint, ls: seq<Item<Listener>>, kept: seq<Item<Listener>>, redirect: bool, rule: Id, id: Id)
    requires Generates(mint) && Distinct(kept) && ListenersKept(ls, kept, rule) && id in Ids(ls)
    requires redirect ==> SameFirst(ls, kept)
    ensures ListenerLeft(Lookup(ls, id), Lookup(Redirected(mint, kept, redirect), id),
                         redirect && Find(ls, PlainOn80()).Some? && Find(ls, PlainOn80()).value.id == id, rule)
  {
    assert Lookup(kept, id).Some?;
    if redirect {
      var x := RedirectFor(mint, kept);
      UpsertLookup(kept, x, id);
      LookupIds(kept, id);
      if id == x.id {
        RedirectIs(mint, kept, Lookup(kept, id).value);
      }
    }
  }

  lemma ListenerStepLeft(s: Routing, r: Request, mint: Mint, edited: bool, id: Id)
    requires r.urls != [] && Generates(mint) && Distinct(s.graph.listeners) && id in Ids(s.graph.listeners)
    requires ListenerStep(s, r, mint, edited).Some?
    ensures ListenerLeft(Lookup(s.graph.listeners, id), Lookup(ListenerStep(s, r, mint, edited).value.listeners, id),
                         Turns(s.graph.listeners, r, id), s.rule)
  {
    var ssl, ls := r.urls[0].scheme == Https, s.graph.listeners;
    ListenerStepIs(s, r, mint, edited);
    ServedKept(mint, s.graph.rules, ls, Ports(r), ssl, s.rule, s.cert, edited);
    KeptServes(mint, s.graph.rules, ls, Ports(r), ssl, s.rule, s.cert, edited);
    if ssl {
      KeptFirst(mint, s.graph.rules, ls, Ports(r), s.rule, s.cert, edited);
    }
    var kept := Kept(ServeAll(mint, s.graph.rules, Served(ls, []), Ports(r), ssl, s.rule, s.cert).value, s.rule,
        edited);
    RedirectedLeft(mint, ls, kept, ssl && r.httpRedirect, s.rule, id);
  }

  // ----- what the other services' requests get -----

  /** After publishing an http or https service the pools it does not take and the
      other rules are as they were, and every listener is, but for the service's rule,
      certificates and, on the one that is turned, the redirect. */
  lemma PublishLeavesObjects(g: Graph, r: Request, mint: Mint, id: Id)
    requires r.urls != [] && !IsTcp(r) && Generates(mint) && WellFormed(g) && Published(g, r, mint).Some?
    ensures var after, rule := Published(g, r, mint).value, RoutingOf(g, r, mint).rule;
            (id in Ids(g.pools) && !Takes(g, r, id) ==> Lookup(after.pools, id) == Lookup(g.pools, id))
            && (id != rule ==> Lookup(after.rules, id) == Lookup(g.rules, id))
            && (id in Ids(g.listeners) ==>
                  ListenerLeft(Lookup(g.listeners, id), Lookup(after.listeners, id), Turns(g.listeners, r, id), rule))
  {
    var b, t, own := BackendStep(g, r, mint), RoutingOf(g, r, mint), ExistingRule(g, r);
    PublishedParts(g, r, mint);
    if id in Ids(g.pools) && !Takes(g, r, id) {
      OtherPoolsStay(g, r, mint, id);
    }
    if id != t.rule {
      OtherRulesStay(b.graph, r, mint, own, b.pool, id);
    }
    if id in Ids(g.listeners) {
      ListenerStepLeft(t, r, mint, own.Some?, id);
    }
  }

  /** The rules refer to conditions and pools that exist, monitors or not. */
  lemma PublishedResolved(g: Graph, r: Request, mint: Mint)
    requires r.urls != [] && !IsTcp(r) && Generates(mint) && WellFormed(g) && Published(g, r, mint).Some?
    ensures ListenerRules.Resolved(Published(g, r, mint).value)
  {
    var b := BackendStep(g, r, mint);
    PublishedParts(g, r, mint);
    BackendStepOk(g, r, mint);
    RuleStepOk(b.graph, Ids(g.pools), r, mint, ExistingRule(g, r), b.pool);
  }

  /** A listener answers a request that the service's rule does not match as it did
      without that rule; except that the listener turned to https, which was plain
      and no redirect before, redirects every request but the challenges. */
  lemma PublishLeavesOthers(g: Graph, r: Request, mint: Mint, site: ListenerRules.Site, id: Id,
          q: ListenerRules.Request)
    requires r.urls != [] && !IsTcp(r) && Generates(mint) && WellFormed(g) && Published(g, r, mint).Some?
    requires id in Ids(g.listeners)
    requires !ListenerRules.Fits(Published(g, r, mint).value, RoutingOf(g, r, mint).rule, q)
    ensures var after, rule := Published(g, r, mint).value, RoutingOf(g, r, mint).rule;
            Lookup(g.listeners, id).Some? && Lookup(after.listeners, id).Some? &&
            var was, now := Lookup(g.listeners, id).value.body, Lookup(after.listeners, id).value.body;
            var before := ListenerRules.Answer(g, site, was.(rules := RuleOrder.Others(was.rules, rule)), q);
            if Diverts(g, r, site, id, q)
            then ListenerRules.Answer(after, site, now, q) == ListenerRules.Redirected != before
            else ListenerRules.Answer(after, site, now, q) == before
  {
    var after, rule := Published(g, r, mint).value, RoutingOf(g, r, mint).rule;
    PublishLeavesObjects(g, r, mint, id);
    PublishedResolved(g, r, mint);
    OtherRulesLeft(g, r, mint);
    LookupIds(g.listeners, id);
    if Turns(g.listeners, r, id) {
      TurnedIsPlain(g, r, id);
    }
    LeftAnswers(g, after, site, Lookup(g.listeners, id), Lookup(after.listeners, id), Turns(g.listeners, r, id),
        rule, q);
  }

  lemma LeftAnswers(g: Graph, h: Graph, site: ListenerRules.Site, was: Option<Item<Listener>>,
          now: Option<Item<Listener>>, turned: bool, rule: Id, q: ListenerRules.Request)
    requires ListenerRules.Resolved(g) && ListenerRules.Resolved(h) && !ListenerRules.Fits(h, rule, q)
    requires forall x :: x != rule ==> Lookup(g.rules, x) == Lookup(h.rules, x)
    requires ListenerLeft(was, now, turned, rule) && (turned ==> !was.value.body.ssl)
    ensures var l := was.value.body;
            var before := ListenerRules.Answer(g, site, l.(rules := RuleOrder.Others(l.rules, rule)), q);
            if turned && !l.toHttps && !l.tcp && !(site.acmeOn && q.challenge)
            then ListenerRules.Answer(h, site, now.value.body, q) == ListenerRules.Redirected != before
            else ListenerRules.Answer(h, site, now.value.body, q) == before
  {
    ListenerRules.OthersAnswered(g, h, site, was.value.body, now.value.body, rule, q);
  }

  lemma OtherRulesLeft(g: Graph, r: Request, mint: Mint)
    requires r.urls != [] && !IsTcp(r) && Generates(mint) && WellFormed(g) && Published(g, r, mint).Some?
    ensures forall x :: x != RoutingOf(g, r, mint).rule ==>
        Lookup(g.rules, x) == Lookup(Published(g, r, mint).value.rules, x)
  {
    forall x | x != RoutingOf(g, r, mint).rule
      ensures Lookup(g.rules, x) == Lookup(Published(g, r, mint).value.rules, x)
    {
      PublishLeavesObjects(g, r, mint, x);
    }
  }

  lemma TurnedIsPlain(g: Graph, r: Request, id: Id)
    requires r.urls != [] && WellFormed(g) && Turns(g.listeners, r, id)
    ensures Lookup(g.listeners, id).Some? && !Lookup(g.listeners, id).value.body.ssl
  {
    DistinctLookup(g.listeners, Find(g.listeners, PlainOn80()).value);
  }

  /** Told before publishing: will this listener redirect a request that it answered? */
  predicate Diverts(g: Graph, r: Request, site: ListenerRules.Site, id: Id, q: ListenerRules.Request)
    requires r.urls != []
  {
    Turns(g.listeners, r, id) && Lookup(g.listeners, id).Some?
    && !Lookup(g.listeners, id).value.body.toHttps && !Lookup(g.listeners, id).value.body.tcp
    && !(site.acmeOn && q.challenge)
  }

  // ----- where the other services' servers are -----

  predicate At(s: Item<Server>, t: Target) {
    s.body.address == t.host && s.body.port == t.port && s.body.ssl == t.https
  }

  predicate Calls(t: Target, s: Item<Server>) {
    t.serverName != "" && t.serverName == s.name
  }

  /** Told before publishing, walking the targets: does one that names the server find
      it before another target takes it, and is it elsewhere? */
  function Repoints(r: Request, mint: Mint, c: Claims, ts: seq<Target>, s: Item<Server>): bool
    decreases |ts|
  {
    if ts == [] then false
    else if Calls(ts[0], s) then !At(s, ts[0])
    else s.id !in ClaimOne(r, mint, c, ts[0]).ids && Repoints(r, mint, ClaimOne(r, mint, c, ts[0]), ts[1..], s)
  }

  ghost predicate SamePlace(a: Option<Item<Server>>, s: Item<Server>) {
    a.Some? && a.value.body.address == s.body.address && a.value.body.port == s.body.port
        && a.value.body.ssl == s.body.ssl
  }

  lemma {:induction false} FindNamed<B>(xs: seq<Item<B>>, s: Item<B>, fits: Item<B> -> bool)
    requires Distinct(xs) && s in xs && fits(s) && forall x :: x in xs && fits(x) ==> x.name == s.name
    ensures Find(xs, fits) == Some(s)
  {
    if fits(xs[0]) {
      SameName(xs, xs[0], s);
    } else {
      FindNamed(xs[1..], s, fits);
    }
  }

  /** One target: it takes the server by name, moving it if it is elsewhere, or by
      address, or leaves it. */
  lemma ClaimOneMoves(r: Request, mint: Mint, c: Claims, t: Target, s: Item<Server>)
    requires Generates(mint) && ClaimsOk(c) && Lookup(c.servers, s.id) == Some(s) && s.id !in c.ids
    ensures var d := ClaimOne(r, mint, c, t);
            if Calls(t, s) then s.id in d.ids && (SamePlace(Lookup(d.servers, s.id), s) <==> At(s, t))
            else SamePlace(Lookup(d.servers, s.id), s) && (s.id !in d.ids ==> Lookup(d.servers, s.id) == Some(s))
  {
    var x := ServerFor(r, mint, c.servers, t, c.ids);
    UpsertLookup(c.servers, Configured(r, x), s.id);
    assert s.id in Ids(c.servers);
    if Calls(t, s) {
      FindNamed(c.servers, s, ByName(t, c.ids));
    } else if t.serverName != "" && Find(c.servers, ByName(t, c.ids)).Some? {
      var f := Find(c.servers, ByName(t, c.ids)).value;
      DistinctLookup(c.servers, f);
    } else if Find(c.servers, ByAddress(t, c.ids)).Some? {
      DistinctLookup(c.servers, x);
    }
  }

  lemma {:induction false} ClaimAllMoves(r: Request, mint: Mint, c: Claims, ts: seq<Target>, s: Item<Server>)
    requires Generates(mint) && ClaimsOk(c) && Lookup(c.servers, s.id) == Some(s) && s.id !in c.ids
    ensures SamePlace(Lookup(ClaimAll(r, mint, c, ts).servers, s.id), s) <==> !Repoints(r, mint, c, ts, s)
    decreases |ts|
  {
    if ts != [] {
      var d := ClaimOne(r, mint, c, ts[0]);
      ClaimOneOk(r, mint, c, ts[0]);
      ClaimOneMoves(r, mint, c, ts[0], s);
      if s.id in d.ids {
        ClaimAllKeeps(r, mint, d, ts[1..], s.id);
      } else {
        ClaimAllMoves(r, mint, d, ts[1..], s);
      }
    }
  }

  lemma BackendServersStay(g: Graph, r: Request, mint: Mint, b: Item<Pool>, id: Id)
    requires Generates(mint) && WellFormed(g) && b in g.pools && !Takes(g, r, b.id)
    requires id in b.body.servers
    ensures Lookup(g.servers, id).Some? && Lookup(BackendStep(g, r, mint).graph.servers, id).Some?
    ensures SamePlace(Lookup(BackendStep(g, r, mint).graph.servers, id), Lookup(g.servers, id).value)
       <==> !Repoints(r, mint, Claims(g.servers, []), r.targets, Lookup(g.servers, id).value)
  {
    var start := Claims(g.servers, []);
    var claims := ClaimAll(r, mint, start, r.targets);
    var choice := MonitorStep(r, mint, g.monitors, OwnMonitor(g, r), Shared(g, r));
    var p := PoolFor(r, mint, g.pools, ExistingPool(g, r), claims.ids, choice.monitor);
    PoolTaken(g, r, mint, b.id);
    assert PoolResolves(b.body, Ids(g.servers), Ids(g.monitors));
    assert id in SetOf(b.body.servers);
    LookupIds(g.servers, id);
    ClaimAllOk(r, mint, start, r.targets);
    LookupIds(claims.servers, id);
    ClaimAllMoves(r, mint, start, r.targets, Lookup(g.servers, id).value);
    UpsertMembers(g.pools, p, b);
    ReferencedBy(Upsert(g.pools, p), b);
    DropOrphansLookup(claims.servers, PreviousServers(r, g.pools, ExistingPool(g, r)),
        Referenced(Upsert(g.pools, p)), id);
  }

  /** A server of a pool that is not taken is still there, and at its old address exactly when no
      target repoints it. */
  lemma OtherServersStay(g: Graph, r: Request, mint: Mint, b: Item<Pool>, id: Id)
    requires r.urls != [] && Generates(mint) && WellFormed(g) && Published(g, r, mint).Some?
    requires b in g.pools && !Takes(g, r, b.id) && id in b.body.servers
    ensures var was, now := Lookup(g.servers, id), Lookup(Published(g, r, mint).value.servers, id);
            was.Some? && now.Some?
            && (SamePlace(now, was.value) <==> !Repoints(r, mint, Claims(g.servers, []), r.targets, was.value))
  {
    BackendServersStay(g, r, mint, b, id);
    if !IsTcp(r) {
      PublishedParts(g, r, mint);
    }
  }

  /** A server no target names stays where it is. */
  lemma {:induction false} UnnamedStays(r: Request, mint: Mint, c: Claims, ts: seq<Target>, s: Item<Server>)
    requires forall t :: t in ts ==> !Calls(t, s)
    ensures !Repoints(r, mint, c, ts, s)
    decreases |ts|
  {
    if ts != [] {
      assert ts[0] in ts;
      UnnamedStays(r, mint, ClaimOne(r, mint, c, ts[0]), ts[1..], s);
    }
  }

  /** A server that the first target names is moved to that target. */
  lemma FirstNamedMoves(r: Request, mint: Mint, c: Claims, ts: seq<Target>, s: Item<Server>)
    requires ts != [] && Calls(ts[0], s)
    ensures Repoints(r, mint, c, ts, s) <==> !At(s, ts[0])
  {
  }

  // ----- the order of the rules -----

  ghost predicate AllOrdered(rules: seq<Item<Rule>>, ls: seq<Item<Listener>>) {
    forall l :: l in ls ==> RuleOrder.Ordered(rules, l.body.rules)
  }

  /** The other rules are in order; so is the rule where it has been placed, or
      everywhere when its conditions did not change. */
  ghost predicate OrderedBut(rules: seq<Item<Rule>>, s: Served, rule: Id, all: bool) {
    forall l :: l in s.listeners ==>
      RuleOrder.Ordered(rules, RuleOrder.Others(l.body.rules, rule))
      && (all || l.id in s.ids ==> RuleOrder.Ordered(rules, l.body.rules))
  }

  lemma ServeOneOrdered(mint: Mint, rules: seq<Item<Rule>>, s: Served, port: nat, ssl: bool, rule: Id,
          cert: Option<Id>, all: bool)
    requires Generates(mint) && Distinct(s.listeners) && OrderedBut(rules, s, rule, all)
    ensures OrderedBut(rules, ServeOne(mint, rules, s, port, ssl, rule, cert), rule, all)
  {
    var f := Find(s.listeners, Serving(port, ssl));
    var from := f.Or(NewListener(mint, s.listeners, port, ssl));
    var l := ListenerFor(mint, rules, s.listeners, port, ssl, rule, cert);
    assert RuleOrder.Ordered(rules, RuleOrder.Others(from.body.rules, rule));
    RuleOrder.PlaceOrdered(rules, from.body.rules, rule);
    RuleOrder.OthersOrdered(rules, l.body.rules, rule);
    forall k | k in Upsert(s.listeners, l)
      ensures RuleOrder.Ordered(rules, RuleOrder.Others(k.body.rules, rule))
      ensures all || k.id in s.ids + [l.id] ==> RuleOrder.Ordered(rules, k.body.rules)
    {
      UpsertMembers(s.listeners, l, k);
    }
  }

  lemma {:induction false} ServeAllOrdered(mint: Mint, rules: seq<Item<Rule>>, s: Served, ports: seq<nat>, ssl: bool,
          rule: Id, cert: Option<Id>, all: bool)
    requires Generates(mint) && Distinct(s.listeners) && OrderedBut(rules, s, rule, all)
    requires ServeAll(mint, rules, s, ports, ssl, rule, cert).Some?
    ensures OrderedBut(rules, ServeAll(mint, rules, s, ports, ssl, rule, cert).value, rule, all)
    decreases |ports|
  {
    if ports != [] {
      ServeOneOrdered(mint, rules, s, ports[0], ssl, rule, cert, all);
      ServeOneDistinct(mint, rules, s, ports[0], ssl, rule, cert);
      ServeAllOrdered(mint, rules, ServeOne(mint, rules, s, ports[0], ssl, rule, cert), ports[1..], ssl, rule, cert,
                      all);
    }
  }

  lemma {:induction false} ReleaseIsOf(ls: seq<Item<Listener>>, serving: seq<Id>, rule: Id, l: Item<Listener>)
    requires l in Release(ls, serving, rule)
    ensures exists k :: k in ls && k.id == l.id
                     && l.body.rules == if k.id in serving then k.body.rules else RuleOrder.Others(k.body.rules, rule)
  {
    if l == Release(ls, serving, rule)[0] {
      assert ls[0] in ls;
    } else {
      ReleaseIsOf(ls[1..], serving, rule, l);
    }
  }

  lemma KeptOrdered(rules: seq<Item<Rule>>, s: Served, rule: Id, edited: bool)
    requires OrderedBut(rules, s, rule, !edited)
    ensures AllOrdered(rules, Kept(s, rule, edited))
  {
    forall l | l in Kept(s, rule, edited)
      ensures RuleOrder.Ordered(rules, l.body.rules)
    {
      if edited {
        ReleaseIsOf(s.listeners, s.ids, rule, l);
      }
    }
  }

  lemma RedirectedOrdered(mint: Mint, rules: seq<Item<Rule>>, ls: seq<Item<Listener>>, redirect: bool)
    requires Distinct(ls) && AllOrdered(rules, ls)
    ensures AllOrdered(rules, Redirected(mint, ls, redirect))
  {
    forall l | l in Redirected(mint, ls, redirect)
      ensures RuleOrder.Ordered(rules, l.body.rules)
    {
      if redirect {
        UpsertMembers(ls, RedirectFor(mint, ls), l);
      }
    }
  }

  /** The order before the listeners are served. */
  lemma StartOrdered(before: seq<Item<Rule>>, after: seq<Item<Rule>>, ls: seq<Item<Listener>>, rule: Id, all: bool)
    requires AllOrdered(before, ls)
    requires forall x :: x != rule ==> Lookup(after, x) == Lookup(before, x)
    requires all ==> forall l :: l in ls ==> forall x :: x in l.body.rules ==>
               RuleOrder.ConditionsOf(after, x) == RuleOrder.ConditionsOf(before, x)
    ensures OrderedBut(after, Served(ls, []), rule, all)
  {
    forall l | l in ls
      ensures RuleOrder.Ordered(after, RuleOrder.Others(l.body.rules, rule))
      ensures all ==> RuleOrder.Ordered(after, l.body.rules)
    {
      var ids := l.body.rules;
      RuleOrder.OthersOrdered(before, ids, rule);
      RuleOrder.OthersMember(ids, rule, rule);
      RuleOrder.OrderedSame(before, after, RuleOrder.Others(ids, rule));
      if all {
        RuleOrder.OrderedSame(before, after, ids);
      }
    }
  }

  /** A rule found by its conditions keeps them as a set. */
  lemma SameConditions(g: Graph, r: Request, mint: Mint, pool: Id, x: Id)
    requires r.urls != [] && Distinct(g.rules) && Generates(mint) && x in Ids(g.rules)
    ensures RuleOrder.ConditionsOf(RuleStep(g, r, mint, None, pool).graph.rules,
                                   x) == RuleOrder.ConditionsOf(g.rules, x)
  {
    var c := NeedAll(mint, Conditions(g.conditions, []), Needs(r));
    var rule := RuleFor(r, mint, g.rules, None, c.ids, pool);
    UpsertLookup(g.rules, rule, x);
    var f := Find(g.rules, WithConditions(c.ids));
    if f.Some? {
      DistinctLookup(g.rules, f.value);
    }
  }

  lemma RuleStepOrdered(g: Graph, r: Request, mint: Mint, own: Option<Item<Rule>>, pool: Id, pools: set<Id>)
    requires r.urls != [] && Generates(mint) && Distinct(g.rules) && AllOrdered(g.rules, g.listeners)
    requires ListenersResolve(g.listeners, Ids(g.rules), pools, Ids(g.certificates))
    ensures OrderedBut(RuleStep(g, r, mint, own, pool).graph.rules, Served(g.listeners, []),
                       RuleStep(g, r, mint, own, pool).rule, own.None?)
  {
    var rule, rules := RuleStep(g, r, mint, own, pool).rule, RuleStep(g, r, mint, own, pool).graph.rules;
    forall x | x != rule
      ensures Lookup(rules, x) == Lookup(g.rules, x)
    {
      OtherRulesStay(g, r, mint, own, pool, x);
    }
    if own.None? {
      forall l, x | l in g.listeners && x in l.body.rules
        ensures RuleOrder.ConditionsOf(rules, x) == RuleOrder.ConditionsOf(g.rules, x)
      {
        assert ListenerResolves(l.body, Ids(g.rules), pools, Ids(g.certificates));
        assert x in SetOf(l.body.rules);
        SameConditions(g, r, mint, pool, x);
      }
    }
    StartOrdered(g.rules, rules, g.listeners, rule, own.None?);
  }

  /** Publishing keeps every listener free of a rule standing before one whose
      conditions strictly contain its own. */
  lemma PublishKeepsOrder(g: Graph, r: Request, mint: Mint)
    requires r.urls != [] && !IsTcp(r) && Generates(mint) && WellFormed(g) && Published(g, r, mint).Some?
    requires AllOrdered(g.rules, g.listeners)
    ensures AllOrdered(Published(g, r, mint).value.rules, Published(g, r, mint).value.listeners)
  {
    var b := BackendStep(g, r, mint);
    var own := ExistingRule(g, r);
    var t := RoutingOf(g, r, mint);
    RuleStepOrdered(b.graph, r, mint, own, b.pool, Ids(g.pools));
    ListenerStepOrdered(t, r, mint, own.Some?);
  }

  lemma ListenerStepOrdered(s: Routing, r: Request, mint: Mint, edited: bool)
    requires r.urls != [] && Generates(mint) && Distinct(s.graph.listeners)
    requires ListenerStep(s, r, mint, edited).Some?
    requires OrderedBut(s.graph.rules, Served(s.graph.listeners, []), s.rule, !edited)
    ensures ListenerStep(s, r, mint, edited).value.rules == s.graph.rules
    ensures AllOrdered(s.graph.rules, ListenerStep(s, r, mint, edited).value.listeners)
  {
    var ssl, ls := r.urls[0].scheme == Https, s.graph.listeners;
    ListenerStepIs(s, r, mint, edited);
    var served := ServeAll(mint, s.graph.rules, Served(ls, []), Ports(r), ssl, s.rule, s.cert).value;
    ServeAllOrdered(mint, s.graph.rules, Served(ls, []), Ports(r), ssl, s.rule, s.cert, !edited);
    KeptServes(mint, s.graph.rules, ls, Ports(r), ssl, s.rule, s.cert, edited);
    KeptOrdered(s.graph.rules, served, s.rule, edited);
    RedirectedOrdered(mint, s.graph.rules, Kept(served, s.rule, edited), ssl && r.httpRedirect);
  }
}
