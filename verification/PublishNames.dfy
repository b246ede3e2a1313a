/** Names as they are stored and as they are rendered (ham/haproxy.py writes `_sec` of
    a name): publishing keeps rendered names apart where stored names are clean, and for
    pools exactly when none that is not renders to the published one's. */
module PublishNames {
  import opened Options
  import opened Names
  import opened Collections
  import opened ServiceGraph
  import opened PublishSpec
  import opened PublishWellFormed
  import opened PublishServes
  import opened PublishFrame

  /** Two items are rendered under one name. */
  predicate Clash<B>(x: Item<B>, y: Item<B>) {
    x.id != y.id && Secure(x.name) == Secure(y.name)
  }

  ghost predicate RenderedApart<B>(xs: seq<Item<B>>) {
    forall x, y :: x in xs && y in xs ==> !Clash(x, y)
  }

  /** Every name is rendered as it is stored. */
  ghost predicate Clean(names: set<string>) {
    forall n :: n in names ==> Secure(n) == n
  }

  /** Names that were not there before are clean. */
  ghost predicate AddsClean(before: set<string>, after: set<string>) {
    forall n :: n in after && n !in before ==> Secure(n) == n
  }

  lemma CleanApart<B>(xs: seq<Item<B>>)
    requires Distinct(xs) && Clean(NamesOf(xs))
    ensures RenderedApart(xs)
  {
    forall x, y | x in xs && y in xs
      ensures !Clash(x, y)
    {
      assert x.name in NamesOf(xs) && y.name in NamesOf(xs);
      if x.name == y.name {
        SameName(xs, x, y);
      }
    }
  }

  /** Putting an item keeps the others apart, and is apart from them exactly when none of
      them renders to its name. */
  lemma UpsertApart<B>(xs: seq<Item<B>>, x: Item<B>)
    requires Distinct(xs) && RenderedApart(xs)
    ensures RenderedApart(Upsert(xs, x)) <==> forall y :: y in xs ==> !Clash(x, y)
  {
    var after := Upsert(xs, x);
    forall y
      ensures y in after <==> y == x || (y in xs && y.id != x.id)
    {
      UpsertMembers(xs, x, y);
    }
    OneMore(xs, after, x);
  }

  lemma OneMore<B>(xs: seq<Item<B>>, after: seq<Item<B>>, x: Item<B>)
    requires RenderedApart(xs) && forall y :: y in after <==> y == x || (y in xs && y.id != x.id)
    ensures RenderedApart(after) <==> forall y :: y in xs ==> !Clash(x, y)
  {
    if RenderedApart(after) {
      forall y | y in xs
        ensures !Clash(x, y)
      {
        assert y.id != x.id ==> y in after;
      }
    }
  }

  // ----- pools -----

  /** After publishing the pools are rendered under different names exactly when no other
      pool's name, once cleaned, is the one the published pool gets. */
  lemma PoolsApart(g: Graph, r: Request, mint: Mint)
    requires r.urls != [] && Generates(mint) && WellFormed(g) && Published(g, r, mint).Some? && RenderedApart(g.pools)
    ensures RenderedApart(Published(g, r, mint).value.pools)
       <==> forall b :: b in g.pools && !Takes(g, r, b.id) ==>
              Secure(b.name) != Secure(PoolName(r, g.pools, ExistingPool(g, r)))
  {
    var claims := ClaimAll(r, mint, Claims(g.servers, []), r.targets);
    var choice := MonitorStep(r, mint, g.monitors, OwnMonitor(g, r), Shared(g, r));
    var p := PoolFor(r, mint, g.pools, ExistingPool(g, r), claims.ids, choice.monitor);
    if !IsTcp(r) {
      PublishedParts(g, r, mint);
    }
    UpsertApart(g.pools, p);
    forall b | b in g.pools
      ensures b.id != p.id <==> !Takes(g, r, b.id)
    {
      assert b.id in Ids(g.pools);
      PoolTaken(g, r, mint, b.id);
    }
  }

  // ----- every collection -----

  lemma UpsertNames<B>(xs: seq<Item<B>>, x: Item<B>)
    ensures NamesOf(Upsert(xs, x)) <= NamesOf(xs) + {x.name}
  {
    forall y | y in Upsert(xs, x)
      ensures y == x || y in xs
    {
      UpsertFrom(xs, x, y);
    }
  }

  lemma {:induction false} UpsertFrom<B>(xs: seq<Item<B>>, x: Item<B>, y: Item<B>)
    requires y in Upsert(xs, x)
    ensures y == x || y in xs
  {
    if xs != [] && xs[0].id != x.id && y != xs[0] {
      UpsertFrom(xs[1..], x, y);
    }
  }

  lemma PutClean<B>(before: set<string>, xs: seq<Item<B>>, x: Item<B>)
    requires AddsClean(before, NamesOf(xs)) && (x.name in NamesOf(xs) || Secure(x.name) == x.name)
    ensures AddsClean(before, NamesOf(Upsert(xs, x)))
  {
    UpsertNames(xs, x);
  }

  lemma {:induction false} ClaimsClean(before: set<string>, r: Request, mint: Mint, c: Claims, ts: seq<Target>)
    requires AddsClean(before, NamesOf(c.servers))
    ensures AddsClean(before, NamesOf(ClaimAll(r, mint, c, ts).servers))
    decreases |ts|
  {
    if ts != [] {
      UniqueClean(NamesOf(c.servers), ServerName(r, ts[0]));
      PutClean(before, c.servers, Configured(r, ServerFor(r, mint, c.servers, ts[0], c.ids)));
      ClaimsClean(before, r, mint, ClaimOne(r, mint, c, ts[0]), ts[1..]);
    }
  }

  lemma {:induction false} OrphansNames(servers: seq<Item<Server>>, candidates: seq<Id>, used: set<Id>)
    ensures NamesOf(DropOrphans(servers, candidates, used)) <= NamesOf(servers)
    decreases |candidates|
  {
    if candidates != [] {
      WithoutIds(servers, candidates[0]);
      OrphansNames(if Orphan(servers, candidates[0], used) then Without(servers, candidates[0]) else servers,
                   candidates[1..], used);
    }
  }

  lemma {:induction false} UnusedNames<B>(xs: seq<Item<B>>, candidates: seq<Id>, used: set<Id>)
    ensures NamesOf(DropUnused(xs, candidates, used)) <= NamesOf(xs)
    decreases |candidates|
  {
    if candidates != [] {
      WithoutIds(xs, candidates[0]);
      UnusedNames(if candidates[0] in used then xs else Without(xs, candidates[0]), candidates[1..], used);
    }
  }

  lemma MonitorClean(r: Request, mint: Mint, monitors: seq<Item<Check>>, own: Option<Item<Check>>, shared: bool)
    requires own.Some? ==> own.value in monitors
    ensures AddsClean(NamesOf(monitors), NamesOf(MonitorStep(r, mint, monitors, own, shared).monitors))
  {
    var c := ChooseMonitor(r, mint, monitors, own, shared);
    if r.health.Some? && CheckKind(r, own) != "none" {
      UniqueClean(NamesOf(monitors), r.base + "-check");
      PutClean(NamesOf(monitors), monitors, MonitorFor(r, mint, monitors, own, shared, Wanted(r.health.value)));
    }
    if own.Some? {
      WithoutIds(c.monitors, own.value.id);
    }
  }

  lemma PoolClean(g: Graph, r: Request, mint: Mint)
    ensures AddsClean(NamesOf(g.pools), NamesOf(BackendStep(g, r, mint).graph.pools))
  {
    var own := ExistingPool(g, r);
    var claims := ClaimAll(r, mint, Claims(g.servers, []), r.targets);
    var choice := MonitorStep(r, mint, g.monitors, OwnMonitor(g, r), Shared(g, r));
    UniqueClean(NamesOf(g.pools), r.base);
    if own.Some? {
      UniqueClean(NamesOf(Without(g.pools, own.value.id)), r.base);
    }
    PutClean(NamesOf(g.pools), g.pools, PoolFor(r, mint, g.pools, own, claims.ids, choice.monitor));
  }

  /** What the first half of a publication names. */
  lemma BackendClean(g: Graph, r: Request, mint: Mint)
    ensures var b := BackendStep(g, r, mint).graph;
            AddsClean(NamesOf(g.servers), NamesOf(b.servers)) && AddsClean(NamesOf(g.monitors), NamesOf(b.monitors))
            && AddsClean(NamesOf(g.pools), NamesOf(b.pools))
  {
    var start := Claims(g.servers, []);
    var claims := ClaimAll(r, mint, start, r.targets);
    ClaimsClean(NamesOf(g.servers), r, mint, start, r.targets);
    MonitorClean(r, mint, g.monitors, OwnMonitor(g, r), Shared(g, r));
    PoolClean(g, r, mint);
    OrphansNames(claims.servers, PreviousServers(r, g.pools, ExistingPool(g, r)),
                 Referenced(BackendStep(g, r, mint).graph.pools));
  }

  lemma {:induction false} NeedsClean(before: set<string>, mint: Mint, c: Conditions, ns: seq<Need>)
    requires AddsClean(before, NamesOf(c.all))
    ensures AddsClean(before, NamesOf(NeedAll(mint, c, ns).all))
    decreases |ns|
  {
    if ns != [] {
      UniqueClean(NamesOf(c.all), ns[0].wantedName);
      PutClean(before, c.all, ConditionFor(mint, c.all, ns[0]));
      NeedsClean(before, mint, NeedOne(mint, c, ns[0]), ns[1..]);
    }
  }

  lemma RuleClean(g: Graph, r: Request, mint: Mint, own: Option<Item<Rule>>, pool: Id)
    requires r.urls != [] && (own.Some? ==> own.value in g.rules)
    ensures var s := RuleStep(g, r, mint, own, pool).graph;
            AddsClean(NamesOf(g.conditions), NamesOf(s.conditions)) && AddsClean(NamesOf(g.rules), NamesOf(s.rules))
  {
    var c := NeedAll(mint, Conditions(g.conditions, []), Needs(r));
    NeedsClean(NamesOf(g.conditions), mint, Conditions(g.conditions, []), Needs(r));
    UniqueClean(NamesOf(g.rules), "to-" + r.base);
    var x := RuleFor(r, mint, g.rules, own, c.ids, pool);
    PutClean(NamesOf(g.rules), g.rules, x);
    UnusedNames(c.all, PreviousConditions(g.rules, own, c.ids), UsedConditions(Upsert(g.rules, x)));
  }

  lemma CertificateClean(r: Request, mint: Mint, certs: seq<Item<Certificate>>, formerHosts: seq<string>)
    requires r.urls != []
    ensures AddsClean(NamesOf(certs), NamesOf(Upsert(certs, CertificateFor(r, mint, certs, formerHosts))))
  {
    UniqueClean(NamesOf(certs), r.base);
    if Stale(certs, formerHosts, r.urls[0].host).Some? {
      StaleFound(certs, formerHosts, r.urls[0].host);
    }
    PutClean(NamesOf(certs), certs, CertificateFor(r, mint, certs, formerHosts));
  }

  lemma {:induction false} ServeClean(before: set<string>, mint: Mint, rules: seq<Item<Rule>>, s: Served,
          ports: seq<nat>, ssl: bool, rule: Id, cert: Option<Id>)
    requires AddsClean(before, NamesOf(s.listeners)) && ServeAll(mint, rules, s, ports, ssl, rule, cert).Some?
    ensures AddsClean(before, NamesOf(ServeAll(mint, rules, s, ports, ssl, rule, cert).value.listeners))
    decreases |ports|
  {
    if ports != [] {
      UniqueClean(NamesOf(s.listeners), PortName(ports[0], ssl));
      PutClean(before, s.listeners, ListenerFor(mint, rules, s.listeners, ports[0], ssl, rule, cert));
      ServeClean(before, mint, rules, ServeOne(mint, rules, s, ports[0], ssl, rule, cert), ports[1..], ssl, rule, cert);
    }
  }

  lemma {:induction false} ReleaseNames(ls: seq<Item<Listener>>, serving: seq<Id>, rule: Id)
    ensures NamesOf(Release(ls, serving, rule)) == NamesOf(ls)
  {
    if ls != [] {
      var l := Release(ls, serving, rule)[0];
      ReleaseNames(ls[1..], serving, rule);
      IdsCons(l, Release(ls[1..], serving, rule));
      IdsCons(ls[0], ls[1..]);
      assert [ls[0]] + ls[1..] == ls;
    }
  }

  lemma ListenersClean(s: Routing, r: Request, mint: Mint, edited: bool)
    requires r.urls != [] && ListenerStep(s, r, mint, edited).Some?
    ensures AddsClean(NamesOf(s.graph.listeners), NamesOf(ListenerStep(s, r, mint, edited).value.listeners))
  {
    var before, ssl := NamesOf(s.graph.listeners), r.urls[0].scheme == Https;
    var start := Served(s.graph.listeners, []);
    var served := ServeAll(mint, s.graph.rules, start, Ports(r), ssl, s.rule, s.cert).value;
    ServeClean(before, mint, s.graph.rules, start, Ports(r), ssl, s.rule, s.cert);
    ReleaseNames(served.listeners, served.ids, s.rule);
    var kept := Kept(served, s.rule, edited);
    UniqueClean(NamesOf(kept), "http-redirect");
    PutClean(before, kept, RedirectFor(mint, kept));
  }

  lemma TcpClean(r: Request, mint: Mint, ls: seq<Item<Listener>>, u: Url, edited: Option<Item<Listener>>, pool: Id)
    requires TcpStep(r, mint, ls, u, edited, pool).Some? && (edited.Some? ==> edited.value in ls)
    ensures AddsClean(NamesOf(ls), NamesOf(TcpStep(r, mint, ls, u, edited, pool).value))
  {
    UniqueClean(NamesOf(ls), r.base + "-listener");
    var l := TcpListener(ls, u, edited).Or(NewTcpListener(r, mint, ls, u));
    PutClean(NamesOf(ls), ls, l.(body := l.body.(defaultPool := Some(pool))));
  }

  /** All that publishing names gets a clean name. */
  ghost predicate GraphAddsClean(g: Graph, h: Graph) {
    AddsClean(NamesOf(g.servers), NamesOf(h.servers)) && AddsClean(NamesOf(g.monitors), NamesOf(h.monitors))
    && AddsClean(NamesOf(g.pools), NamesOf(h.pools)) && AddsClean(NamesOf(g.conditions), NamesOf(h.conditions))
    && AddsClean(NamesOf(g.rules), NamesOf(h.rules)) && AddsClean(NamesOf(g.listeners), NamesOf(h.listeners))
    && AddsClean(NamesOf(g.certificates), NamesOf(h.certificates))
  }

  lemma PublishAddsClean(g: Graph, r: Request, mint: Mint)
    requires r.urls != [] && Generates(mint) && WellFormed(g) && Published(g, r, mint).Some?
    ensures GraphAddsClean(g, Published(g, r, mint).value)
  {
    var b := BackendStep(g, r, mint);
    BackendClean(g, r, mint);
    if IsTcp(r) {
      TcpClean(r, mint, g.listeners, r.urls[0], ExistingListener(g, r), b.pool);
    } else {
      WebClean(g, r, mint);
    }
  }

  lemma WebClean(g: Graph, r: Request, mint: Mint)
    requires r.urls != [] && !IsTcp(r) && Generates(mint) && WellFormed(g) && Published(g, r, mint).Some?
    ensures GraphAddsClean(g, Published(g, r, mint).value)
  {
    var b, own := BackendStep(g, r, mint), ExistingRule(g, r);
    BackendClean(g, r, mint);
    PublishedParts(g, r, mint);
    RuleClean(b.graph, r, mint, own, b.pool);
    CertificateClean(r, mint, g.certificates, OldHostsOf(g, r));
    ListenersClean(RoutingOf(g, r, mint), r, mint, own.Some?);
  }

  ghost predicate AllClean(g: Graph) {
    Clean(NamesOf(g.servers)) && Clean(NamesOf(g.monitors)) && Clean(NamesOf(g.pools)) && Clean(NamesOf(g.conditions))
    && Clean(NamesOf(g.rules)) && Clean(NamesOf(g.listeners)) && Clean(NamesOf(g.certificates))
  }

  ghost predicate AllApart(g: Graph) {
    RenderedApart(g.servers) && RenderedApart(g.monitors) && RenderedApart(g.pools) && RenderedApart(g.conditions)
    && RenderedApart(g.rules) && RenderedApart(g.listeners) && RenderedApart(g.certificates)
  }

  /** Where all names are clean, publishing keeps them so, and unless it strands a monitor
      renders no two objects of a kind under one name. */
  lemma PublishKeepsClean(g: Graph, r: Request, mint: Mint)
    requires r.urls != [] && Generates(mint) && WellFormed(g) && Published(g, r, mint).Some? && AllClean(g)
    ensures AllClean(Published(g, r, mint).value)
    ensures !StrandsMonitor(g, r) ==> AllApart(Published(g, r, mint).value)
  {
    PublishAddsClean(g, r, mint);
    PublishKeepsWellFormed(g, r, mint);
    if !StrandsMonitor(g, r) {
      CleanGraphApart(Published(g, r, mint).value);
    }
  }

  lemma CleanGraphApart(g: Graph)
    requires WellFormed(g) && AllClean(g)
    ensures AllApart(g)
  {
    CleanApart(g.servers);
    CleanApart(g.monitors);
    CleanApart(g.pools);
    CleanApart(g.conditions);
    CleanApart(g.rules);
    CleanApart(g.listeners);
    CleanApart(g.certificates);
  }
}
