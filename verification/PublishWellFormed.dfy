/** Publishing keeps the configuration well formed: every reference still
    resolves, and no id or name is used twice. */
module PublishWellFormed {
  import opened Options
  import opened Names
  import opened Collections
  import opened ServiceGraph
  import opened CertificateMatch
  import opened PublishSpec
  import RuleOrder

  // ----- servers -----

  ghost predicate ClaimsOk(c: Claims) {
    Distinct(c.servers) && SetOf(c.ids) <= Ids(c.servers) && NoRepeat(c.ids)
  }

  lemma {:induction false} NoRepeatAppend(xs: seq<Id>, x: Id)
    requires NoRepeat(xs) && x !in xs
    ensures NoRepeat(xs + [x])
  {
    if xs != [] {
      NoRepeatAppend(xs[1..], x);
      assert (xs + [x])[1..] == xs[1..] + [x];
    }
  }

  lemma ServerForFits(r: Request, mint: Mint, c: Claims, t: Target)
    requires Generates(mint) && ClaimsOk(c)
    ensures Fits(c.servers, ServerFor(r, mint, c.servers, t, c.ids))
    ensures ServerFor(r, mint, c.servers, t, c.ids).id !in c.ids
  {
    var s := ServerFor(r, mint, c.servers, t, c.ids);
    if t.serverName != "" && Find(c.servers, ByName(t, c.ids)).Some? {
      FoundFits(c.servers, Find(c.servers, ByName(t, c.ids)).value, s);
    } else if Find(c.servers, ByAddress(t, c.ids)).Some? {
      FoundFits(c.servers, s, s);
    } else {
      UniqueIsFree(NamesOf(c.servers), ServerName(r, t));
      NewFits(c.servers, s);
      assert s.id !in Ids(c.servers);
      assert s.id !in SetOf(c.ids);
    }
  }

  lemma ClaimOneOk(r: Request, mint: Mint, c: Claims, t: Target)
    requires Generates(mint) && ClaimsOk(c)
    ensures ClaimsOk(ClaimOne(r, mint, c, t))
    ensures Ids(c.servers) <= Ids(ClaimOne(r, mint, c, t).servers)
  {
    var f := ServerFor(r, mint, c.servers, t, c.ids);
    var s := Configured(r, f);
    ServerForFits(r, mint, c, t);
    UpsertFits(c.servers, s);
    UpsertIds(c.servers, s);
    NoRepeatAppend(c.ids, s.id);
    SetOfAppend(c.ids, s.id);
  }

  lemma {:induction false} ClaimAllOk(r: Request, mint: Mint, c: Claims, ts: seq<Target>)
    requires Generates(mint) && ClaimsOk(c)
    ensures ClaimsOk(ClaimAll(r, mint, c, ts))
    ensures Ids(c.servers) <= Ids(ClaimAll(r, mint, c, ts).servers)
    decreases |ts|
  {
    if ts != [] {
      ClaimOneOk(r, mint, c, ts[0]);
      ClaimAllOk(r, mint, ClaimOne(r, mint, c, ts[0]), ts[1..]);
    }
  }

  lemma {:induction false} DropOrphansOk(servers: seq<Item<Server>>, candidates: seq<Id>, used: set<Id>)
    requires Distinct(servers)
    ensures Distinct(DropOrphans(servers, candidates, used))
    ensures Ids(servers) * used <= Ids(DropOrphans(servers, candidates, used)) <= Ids(servers)
    decreases |candidates|
  {
    if candidates != [] {
      if Orphan(servers, candidates[0], used) {
        WithoutDistinct(servers, candidates[0]);
        WithoutIds(servers, candidates[0]);
        DropOrphansOk(Without(servers, candidates[0]), candidates[1..], used);
      } else {
        DropOrphansOk(servers, candidates[1..], used);
      }
    }
  }

  // ----- the monitor -----

  /** The edit says nothing about health checking, but the pool's own monitor is
      of the kind "none" and no other pool uses it. */
  predicate Strands(r: Request, own: Option<Item<Check>>, shared: bool) {
    KeepsMonitor(r, own) && !shared && Default(own.value.body.kind, "none") == "none"
  }

  predicate DropsMonitor(r: Request, own: Option<Item<Check>>, shared: bool) {
    CheckKind(r, own) == "none" && own.Some? && !shared
  }

  lemma MonitorForFits(r: Request, mint: Mint, monitors: seq<Item<Check>>, own: Option<Item<Check>>, shared: bool,
          want: Check)
    requires Generates(mint) && Distinct(monitors) && (own.Some? ==> own.value in monitors)
    ensures Fits(monitors, MonitorFor(r, mint, monitors, own, shared, want))
  {
    var m := MonitorFor(r, mint, monitors, own, shared, want);
    if own.Some? && !shared {
      FoundFits(monitors, own.value, m);
    } else if Find(monitors, Like(want)).Some? {
      FoundFits(monitors, m, m);
    } else {
      UniqueIsFree(NamesOf(monitors), r.base + "-check");
      NewFits(monitors, m);
    }
  }

  lemma ChooseMonitorOk(r: Request, mint: Mint, monitors: seq<Item<Check>>, own: Option<Item<Check>>, shared: bool)
    requires Generates(mint) && Distinct(monitors) && (own.Some? ==> own.value in monitors)
    ensures var c := ChooseMonitor(r, mint, monitors, own, shared);
            Distinct(c.monitors) && Ids(monitors) <= Ids(c.monitors) && Optional(c.monitor) <= Ids(c.monitors)
    ensures CheckKind(r, own) == "none" && !KeepsMonitor(r, own) ==>
              ChooseMonitor(r, mint, monitors, own, shared).monitor == None
  {
    if !KeepsMonitor(r, own) && r.health.Some? && CheckKind(r, own) != "none" {
      var want := Wanted(r.health.value);
      var m := MonitorFor(r, mint, monitors, own, shared, want);
      MonitorForFits(r, mint, monitors, own, shared, want);
      UpsertFits(monitors, m);
      UpsertIds(monitors, m);
    }
  }

  /** The chosen monitor exists afterwards, except in that one case. */
  lemma MonitorStepOk(r: Request, mint: Mint, monitors: seq<Item<Check>>, own: Option<Item<Check>>, shared: bool)
    requires Generates(mint) && Distinct(monitors) && (own.Some? ==> own.value in monitors)
    ensures Distinct(MonitorStep(r, mint, monitors, own, shared).monitors)
    ensures Ids(monitors) - (if DropsMonitor(r, own, shared) then {own.value.id} else {})
         <= Ids(MonitorStep(r, mint, monitors, own, shared).monitors)
    ensures (Optional(MonitorStep(r, mint, monitors, own, shared).monitor)
             <= Ids(MonitorStep(r, mint, monitors, own, shared).monitors)) <==> !Strands(r, own, shared)
  {
    var c := ChooseMonitor(r, mint, monitors, own, shared);
    ChooseMonitorOk(r, mint, monitors, own, shared);
    if DropsMonitor(r, own, shared) {
      WithoutDistinct(c.monitors, own.value.id);
      WithoutIds(c.monitors, own.value.id);
    }
  }

  // ----- the pool -----

  lemma PoolForFits(r: Request, mint: Mint, pools: seq<Item<Pool>>, own: Option<Item<Pool>>, servers: seq<Id>,
          monitor: Option<Id>)
    requires Generates(mint) && Distinct(pools) && (own.Some? ==> own.value in pools)
    ensures Fits(pools, PoolFor(r, mint, pools, own, servers, monitor))
  {
    var p := PoolFor(r, mint, pools, own, servers, monitor);
    if own.Some? && own.value.name != Secure(r.base) && r.named {
      UniqueIsFree(NamesOf(Without(pools, own.value.id)), r.base);
    } else if OldPool(r, pools, own).Some? {
      FoundFits(pools, OldPool(r, pools, own).value, p);
    } else {
      UniqueIsFree(NamesOf(pools), r.base);
      NewFits(pools, p);
    }
  }

  lemma ReferencedBy(pools: seq<Item<Pool>>, p: Item<Pool>)
    requires p in pools
    ensures SetOf(p.body.servers) <= Referenced(pools)
  {
  }

  /** Every pool but the service's own resolves as before. */
  lemma OtherPoolsResolve(pools: seq<Item<Pool>>, p: Item<Pool>, oldServers: set<Id>, oldMonitors: set<Id>,
          servers: set<Id>, monitors: set<Id>)
    requires Distinct(pools) && PoolsResolve(pools, oldServers, oldMonitors)
    requires oldServers * Referenced(Upsert(pools, p)) <= servers
    requires forall q :: q in pools && q.id != p.id && q.body.monitor.Some? ==> q.body.monitor.value in monitors
    requires SetOf(p.body.servers) <= servers
    ensures PoolsResolve(Upsert(pools, p), servers, monitors) <==> Optional(p.body.monitor) <= monitors
  {
    UpsertMembers(pools, p, p);
    assert PoolsResolve(Upsert(pools, p), servers, monitors) ==> PoolResolves(p.body, servers, monitors);
    forall q | q in Upsert(pools, p) && q != p
      ensures PoolResolves(q.body, servers, monitors)
    {
      UpsertMembers(pools, p, q);
      ReferencedBy(Upsert(pools, p), q);
      assert PoolResolves(q.body, oldServers, oldMonitors);
    }
  }

  /** The pool being edited, its monitor, and whether another pool shares that. */
  function OwnMonitor(g: Graph, r: Request): Option<Item<Check>> {
    MonitorOf(g.monitors, ExistingPool(g, r))
  }

  function Shared(g: Graph, r: Request): bool {
    OwnMonitor(g, r).Some? && ExistingPool(g, r).Some?
    && UsedElsewhere(g.pools, OwnMonitor(g, r).value.id, ExistingPool(g, r).value.id)
  }

  lemma MonitorsKept(g: Graph, r: Request, mint: Mint, p: Item<Pool>, q: Item<Pool>)
    requires Generates(mint) && Distinct(g.monitors) && PoolsResolve(g.pools, Ids(g.servers), Ids(g.monitors))
    requires ExistingPool(g, r).Some? ==> p.id == ExistingPool(g, r).value.id
    requires q in g.pools && q.id != p.id && q.body.monitor.Some?
    ensures q.body.monitor.value in Ids(MonitorStep(r, mint, g.monitors, OwnMonitor(g, r), Shared(g, r)).monitors)
  {
    MonitorStepOk(r, mint, g.monitors, OwnMonitor(g, r), Shared(g, r));
    assert PoolResolves(q.body, Ids(g.servers), Ids(g.monitors));
    assert q.body.monitor.value in Optional(q.body.monitor);
  }

  ghost predicate BackendOk(g: Graph, b: Backend) {
    Distinct(b.graph.servers) && Distinct(b.graph.monitors) && Distinct(b.graph.pools)
    && b.graph.conditions == g.conditions && b.graph.rules == g.rules && b.graph.listeners == g.listeners
    && b.graph.certificates == g.certificates
    && Ids(g.pools) <= Ids(b.graph.pools) && b.pool in Ids(b.graph.pools)
  }

  lemma BackendStepOk(g: Graph, r: Request, mint: Mint)
    requires Generates(mint) && WellFormed(g)
    ensures BackendOk(g, BackendStep(g, r, mint))
    ensures PoolsResolve(BackendStep(g, r, mint).graph.pools, Ids(BackendStep(g, r, mint).graph.servers),
                         Ids(BackendStep(g, r, mint).graph.monitors))
       <==> !Strands(r, OwnMonitor(g, r), Shared(g, r))
  {
    var own := ExistingPool(g, r);
    var claims := ClaimAll(r, mint, Claims(g.servers, []), r.targets);
    ClaimAllOk(r, mint, Claims(g.servers, []), r.targets);
    var choice := MonitorStep(r, mint, g.monitors, OwnMonitor(g, r), Shared(g, r));
    MonitorStepOk(r, mint, g.monitors, OwnMonitor(g, r), Shared(g, r));
    var p := PoolFor(r, mint, g.pools, own, claims.ids, choice.monitor);
    PoolForFits(r, mint, g.pools, own, claims.ids, choice.monitor);
    UpsertFits(g.pools, p);
    UpsertIds(g.pools, p);
    var pools := Upsert(g.pools, p);
    UpsertMembers(g.pools, p, p);
    ReferencedBy(pools, p);
    DropOrphansOk(claims.servers, PreviousServers(r, g.pools, own), Referenced(pools));
    forall q | q in g.pools && q.id != p.id && q.body.monitor.Some?
      ensures q.body.monitor.value in Ids(choice.monitors)
    {
      MonitorsKept(g, r, mint, p, q);
    }
    OtherPoolsResolve(g.pools, p, Ids(g.servers), Ids(g.monitors),
                      Ids(BackendStep(g, r, mint).graph.servers), Ids(choice.monitors));
  }

  // ----- listeners -----

  ghost predicate ListenersOk(ls: seq<Item<Listener>>, rules: set<Id>, pools: set<Id>, certificates: set<Id>) {
    Distinct(ls) && ListenersResolve(ls, rules, pools, certificates)
  }

  lemma UpsertListener(ls: seq<Item<Listener>>, l: Item<Listener>, rules: set<Id>, pools: set<Id>,
          certificates: set<Id>)
    requires ListenersOk(ls, rules, pools, certificates)
    requires Fits(ls, l) && ListenerResolves(l.body, rules, pools, certificates)
    ensures ListenersOk(Upsert(ls, l), rules, pools, certificates)
  {
    UpsertFits(ls, l);
    forall x | x in Upsert(ls, l)
      ensures ListenerResolves(x.body, rules, pools, certificates)
    {
      UpsertMembers(ls, l, x);
    }
  }

  lemma TcpStepOk(r: Request, mint: Mint, ls: seq<Item<Listener>>, u: Url, edited: Option<Item<Listener>>, pool: Id,
          rules: set<Id>, pools: set<Id>, certificates: set<Id>)
    requires Generates(mint) && ListenersOk(ls, rules, pools, certificates) && pool in pools
    requires edited.Some? ==> edited.value in ls
    requires TcpStep(r, mint, ls, u, edited, pool).Some?
    ensures ListenersOk(TcpStep(r, mint, ls, u, edited, pool).value, rules, pools, certificates)
  {
    var l := TcpListener(ls, u, edited).Or(NewTcpListener(r, mint, ls, u));
    var x := l.(body := l.body.(defaultPool := Some(pool)));
    if edited.Some? {
      assert ListenerResolves(edited.value.body, rules, pools, certificates);
      FoundFits(ls, edited.value, x);
    } else if Find(ls, OnPort(u.port)).Some? {
      assert ListenerResolves(l.body, rules, pools, certificates);
      FoundFits(ls, l, x);
    } else {
      UniqueIsFree(NamesOf(ls), r.base + "-listener");
      NewFits(ls, x);
    }
    UpsertListener(ls, x, rules, pools, certificates);
  }

  // ----- conditions and rule -----

  ghost predicate ConditionsOk(c: Conditions) {
    Distinct(c.all) && SetOf(c.ids) <= Ids(c.all)
  }

  lemma NeedOneOk(mint: Mint, c: Conditions, n: Need)
    requires Generates(mint) && ConditionsOk(c)
    ensures ConditionsOk(NeedOne(mint, c, n)) && Ids(c.all) <= Ids(NeedOne(mint, c, n).all)
  {
    var x := ConditionFor(mint, c.all, n);
    if Find(c.all, Meets(n)).Some? {
      FoundFits(c.all, x, x);
    } else {
      UniqueIsFree(NamesOf(c.all), n.wantedName);
      NewFits(c.all, x);
    }
    UpsertFits(c.all, x);
    UpsertIds(c.all, x);
    SetOfAppend(c.ids, x.id);
  }

  lemma {:induction false} NeedAllOk(mint: Mint, c: Conditions, ns: seq<Need>)
    requires Generates(mint) && ConditionsOk(c)
    ensures ConditionsOk(NeedAll(mint, c, ns)) && Ids(c.all) <= Ids(NeedAll(mint, c, ns).all)
    decreases |ns|
  {
    if ns != [] {
      NeedOneOk(mint, c, ns[0]);
      NeedAllOk(mint, NeedOne(mint, c, ns[0]), ns[1..]);
    }
  }

  lemma RuleForFits(r: Request, mint: Mint, rules: seq<Item<Rule>>, own: Option<Item<Rule>>, ids: seq<Id>, pool: Id)
    requires Generates(mint) && Distinct(rules) && (own.Some? ==> own.value in rules)
    ensures Fits(rules, RuleFor(r, mint, rules, own, ids, pool))
    ensures RuleFor(r, mint, rules, own, ids, pool).body.conditions == ids
    ensures RuleFor(r, mint, rules, own, ids, pool).body.pool == Some(pool)
  {
    var x := RuleFor(r, mint, rules, own, ids, pool);
    if OldRule(rules, own, ids).Some? {
      FoundFits(rules, OldRule(rules, own, ids).value, x);
    } else {
      UniqueIsFree(NamesOf(rules), "to-" + r.base);
      NewFits(rules, x);
    }
  }

  lemma UpsertRule(rules: seq<Item<Rule>>, x: Item<Rule>, conditions: set<Id>, pools: set<Id>, oldConditions: set<Id>,
          oldPools: set<Id>)
    requires Distinct(rules) && RulesResolve(rules, oldConditions, oldPools)
    requires RuleResolves(x.body, conditions, pools)
    requires oldConditions * UsedConditions(Upsert(rules, x)) <= conditions && oldPools <= pools
    ensures RulesResolve(Upsert(rules, x), conditions, pools)
  {
    forall y | y in Upsert(rules, x) && y != x
      ensures RuleResolves(y.body, conditions, pools)
    {
      UpsertMembers(rules, x, y);
      assert RuleResolves(y.body, oldConditions, oldPools);
      assert SetOf(y.body.conditions) <= UsedConditions(Upsert(rules, x));
    }
  }

  ghost predicate RoutingOk(g: Graph, s: Routing) {
    Distinct(s.graph.conditions) && Distinct(s.graph.rules)
    && s.graph.servers == g.servers && s.graph.monitors == g.monitors && s.graph.pools == g.pools
    && s.graph.listeners == g.listeners && s.graph.certificates == g.certificates
    && RulesResolve(s.graph.rules, Ids(s.graph.conditions), Ids(s.graph.pools))
    && Ids(g.rules) <= Ids(s.graph.rules) && s.rule in Ids(s.graph.rules) && s.cert == None
  }

  lemma RuleStepOk(g: Graph, oldPools: set<Id>, r: Request, mint: Mint, own: Option<Item<Rule>>, pool: Id)
    requires r.urls != [] && Generates(mint)
    requires Distinct(g.conditions) && Distinct(g.rules) && (own.Some? ==> own.value in g.rules)
    requires RulesResolve(g.rules, Ids(g.conditions), oldPools) && oldPools <= Ids(g.pools) && pool in Ids(g.pools)
    ensures RoutingOk(g, RuleStep(g, r, mint, own, pool))
  {
    var c := NeedAll(mint, Conditions(g.conditions, []), Needs(r));
    NeedAllOk(mint, Conditions(g.conditions, []), Needs(r));
    var x := RuleFor(r, mint, g.rules, own, c.ids, pool);
    RuleForFits(r, mint, g.rules, own, c.ids, pool);
    UpsertFits(g.rules, x);
    UpsertIds(g.rules, x);
    UpsertMembers(g.rules, x, x);
    var rules := Upsert(g.rules, x);
    var previous := PreviousConditions(g.rules, own, c.ids);
    DropUnusedOk(c.all, previous, UsedConditions(rules));
    assert SetOf(c.ids) <= UsedConditions(rules);
    UpsertRule(g.rules, x, Ids(DropUnused(c.all, previous, UsedConditions(rules))), Ids(g.pools), Ids(g.conditions),
               oldPools);
  }

  // ----- the certificate -----

  lemma {:induction false} StaleFound(certs: seq<Item<Certificate>>, formerHosts: seq<string>, host: string)
    requires Stale(certs, formerHosts, host).Some?
    ensures Stale(certs, formerHosts, host).value in certs && !Stale(certs, formerHosts, host).value.body.issued
  {
    var c := Find(certs, NamesOnly(formerHosts[0]));
    if !(!SameHost(formerHosts[0], host) && c.Some? && !c.value.body.issued) {
      StaleFound(certs, formerHosts[1..], host);
    }
  }

  lemma CertificateForFits(r: Request, mint: Mint, certs: seq<Item<Certificate>>, formerHosts: seq<string>)
    requires r.urls != [] && Generates(mint) && Distinct(certs)
    ensures Fits(certs, CertificateFor(r, mint, certs, formerHosts))
  {
    var x := CertificateFor(r, mint, certs, formerHosts);
    var host := r.urls[0].host;
    if r.certificateId != "" && Lookup(certs, r.certificateId).Some? {
      FoundFits(certs, x, x);
    } else if !r.newCertificate && BestFor(certs, host).Some? {
      FoundFits(certs, BestFor(certs, host).value.cert, x);
    } else if Stale(certs, formerHosts, host).Some? {
      StaleFound(certs, formerHosts, host);
      FoundFits(certs, Stale(certs, formerHosts, host).value, x);
    } else {
      UniqueIsFree(NamesOf(certs), r.base);
      NewFits(certs, x);
    }
  }

  lemma CertificateStepOk(s: Routing, r: Request, mint: Mint, formerHosts: seq<string>)
    requires r.urls != [] && Generates(mint) && Distinct(s.graph.certificates) && s.cert == None
    ensures var t := CertificateStep(s, r, mint, formerHosts);
            t.graph == s.graph.(certificates := t.graph.certificates) && t.rule == s.rule
            && Distinct(t.graph.certificates) && Ids(s.graph.certificates) <= Ids(t.graph.certificates)
            && Optional(t.cert) <= Ids(t.graph.certificates)
  {
    if WantsCertificate(r) {
      var c := CertificateFor(r, mint, s.graph.certificates, formerHosts);
      CertificateForFits(r, mint, s.graph.certificates, formerHosts);
      UpsertFits(s.graph.certificates, c);
      UpsertIds(s.graph.certificates, c);
    }
  }

  // ----- serving -----

  lemma CarryingResolves(all: seq<Item<Rule>>, l: Item<Listener>, rule: Id, cert: Option<Id>, rules: set<Id>,
          pools: set<Id>, certificates: set<Id>)
    requires ListenerResolves(l.body, rules, pools, certificates)
    requires rule in rules && Optional(cert) <= certificates
    ensures ListenerResolves(Carrying(all, l, rule, cert).body, rules, pools, certificates)
  {
    RuleOrder.PlaceKeepsOthers(all, l.body.rules, rule);
    if cert.Some? {
      SetOfAppend(l.body.certificates, cert.value);
    }
  }

  lemma ServeOneOk(mint: Mint, all: seq<Item<Rule>>, s: Served, port: nat, ssl: bool, rule: Id, cert: Option<Id>,
          rules: set<Id>, pools: set<Id>, certificates: set<Id>)
    requires Generates(mint) && ListenersOk(s.listeners, rules, pools, certificates)
    requires rule in rules && Optional(cert) <= certificates
    ensures ListenersOk(ServeOne(mint, all, s, port, ssl, rule, cert).listeners, rules, pools, certificates)
  {
    var ls := s.listeners;
    var base := Find(ls, Serving(port, ssl)).Or(NewListener(mint, ls, port, ssl));
    var l := ListenerFor(mint, all, ls, port, ssl, rule, cert);
    if Find(ls, Serving(port, ssl)).Some? {
      assert ListenerResolves(base.body, rules, pools, certificates);
      FoundFits(ls, base, l);
    } else {
      UniqueIsFree(NamesOf(ls), PortName(port, ssl));
      NewFits(ls, l);
    }
    CarryingResolves(all, base, rule, cert, rules, pools, certificates);
    UpsertListener(ls, l, rules, pools, certificates);
  }

  lemma {:induction false} ServeAllOk(mint: Mint, all: seq<Item<Rule>>, s: Served, ports: seq<nat>, ssl: bool,
          rule: Id, cert: Option<Id>, rules: set<Id>, pools: set<Id>, certificates: set<Id>)
    requires Generates(mint) && ListenersOk(s.listeners, rules, pools, certificates)
    requires rule in rules && Optional(cert) <= certificates
    requires ServeAll(mint, all, s, ports, ssl, rule, cert).Some?
    ensures ListenersOk(ServeAll(mint, all, s, ports, ssl, rule, cert).value.listeners, rules, pools, certificates)
    decreases |ports|
  {
    if ports != [] {
      ServeOneOk(mint, all, s, ports[0], ssl, rule, cert, rules, pools, certificates);
      ServeAllOk(mint, all, ServeOne(mint, all, s, ports[0], ssl, rule, cert), ports[1..], ssl, rule, cert,
                 rules, pools, certificates);
    }
  }

  lemma {:induction false} ReleaseOk(ls: seq<Item<Listener>>, serving: seq<Id>, rule: Id, rules: set<Id>,
          pools: set<Id>, certificates: set<Id>)
    requires ListenersOk(ls, rules, pools, certificates)
    ensures ListenersOk(Release(ls, serving, rule), rules, pools, certificates)
    ensures Ids(Release(ls, serving, rule)) == Ids(ls) && NamesOf(Release(ls, serving, rule)) == NamesOf(ls)
  {
    if ls != [] {
      var l := ls[0];
      ReleaseOk(ls[1..], serving, rule, rules, pools, certificates);
      OthersResolve(l.body, rule, rules, pools, certificates);
      IdsCons(l, ls[1..]);
      assert [l] + ls[1..] == ls;
      IdsCons(Release(ls, serving, rule)[0], Release(ls[1..], serving, rule));
    }
  }

  lemma OthersResolve(l: Listener, rule: Id, rules: set<Id>, pools: set<Id>, certificates: set<Id>)
    requires ListenerResolves(l, rules, pools, certificates)
    ensures ListenerResolves(l.(rules := RuleOrder.Others(l.rules, rule)), rules, pools, certificates)
  {
    forall x | x in RuleOrder.Others(l.rules, rule)
      ensures x in l.rules
    {
      RuleOrder.OthersMember(l.rules, rule, x);
    }
  }

  lemma RedirectOk(mint: Mint, ls: seq<Item<Listener>>, rules: set<Id>, pools: set<Id>, certificates: set<Id>)
    requires Generates(mint) && ListenersOk(ls, rules, pools, certificates)
    ensures ListenersOk(Upsert(ls, RedirectFor(mint, ls)), rules, pools, certificates)
  {
    var l := RedirectFor(mint, ls);
    if Find(ls, PlainOn80()).Some? {
      assert ListenerResolves(Find(ls, PlainOn80()).value.body, rules, pools, certificates);
      FoundFits(ls, Find(ls, PlainOn80()).value, l);
    } else {
      UniqueIsFree(NamesOf(ls), "http-redirect");
      NewFits(ls, l);
    }
    UpsertListener(ls, l, rules, pools, certificates);
  }

  lemma ListenerStepOk(s: Routing, r: Request, mint: Mint, edited: bool)
    requires r.urls != [] && Generates(mint) && ListenerStep(s, r, mint, edited).Some?
    requires ListenersOk(s.graph.listeners, Ids(s.graph.rules), Ids(s.graph.pools), Ids(s.graph.certificates))
    requires s.rule in Ids(s.graph.rules) && Optional(s.cert) <= Ids(s.graph.certificates)
    ensures var g := ListenerStep(s, r, mint, edited).value;
            g == s.graph.(listeners := g.listeners)
            && ListenersOk(g.listeners, Ids(s.graph.rules), Ids(s.graph.pools), Ids(s.graph.certificates))
  {
    var rules, pools, certificates := Ids(s.graph.rules), Ids(s.graph.pools), Ids(s.graph.certificates);
    var ssl := r.urls[0].scheme == Https;
    ServeAllOk(mint, s.graph.rules, Served(s.graph.listeners, []), Ports(r), ssl, s.rule, s.cert, rules, pools,
               certificates);
    var served := ServeAll(mint, s.graph.rules, Served(s.graph.listeners, []), Ports(r), ssl, s.rule, s.cert).value;
    ReleaseOk(served.listeners, served.ids, s.rule, rules, pools, certificates);
    var kept := if edited then Release(served.listeners, served.ids, s.rule) else served.listeners;
    RedirectOk(mint, kept, rules, pools, certificates);
  }

  // ----- the whole -----

  /** More rules, pools and certificates leave every listener resolved. */
  lemma ListenersWiden(ls: seq<Item<Listener>>, rules: set<Id>, pools: set<Id>,
          certificates: set<Id>, rules': set<Id>, pools': set<Id>, certificates': set<Id>)
    requires ListenersOk(ls, rules, pools, certificates)
    requires rules <= rules' && pools <= pools' && certificates <= certificates'
    ensures ListenersOk(ls, rules', pools', certificates')
  {
    forall l | l in ls
      ensures ListenerResolves(l.body, rules', pools', certificates')
    {
      assert ListenerResolves(l.body, rules, pools, certificates);
    }
  }

  /** The configuration has a pool whose monitor does not exist, when publishing
      an edit that says nothing of health checking removes a monitor of the kind
      "none" that only the edited service's pool uses. */
  predicate StrandsMonitor(g: Graph, r: Request) {
    Strands(r, OwnMonitor(g, r), Shared(g, r))
  }

  lemma RulesWiden(rules: seq<Item<Rule>>, conditions: set<Id>, pools: set<Id>, pools': set<Id>)
    requires RulesResolve(rules, conditions, pools) && pools <= pools'
    ensures RulesResolve(rules, conditions, pools')
  {
    forall x | x in rules
      ensures RuleResolves(x.body, conditions, pools')
    {
      assert RuleResolves(x.body, conditions, pools);
    }
  }

  lemma TcpKeepsWellFormed(g: Graph, r: Request, mint: Mint)
    requires r.urls != [] && IsTcp(r) && Generates(mint) && WellFormed(g) && Published(g, r, mint).Some?
    ensures WellFormed(Published(g, r, mint).value) <==> !StrandsMonitor(g, r)
  {
    var b := BackendStep(g, r, mint);
    BackendStepOk(g, r, mint);
    RulesWiden(g.rules, Ids(g.conditions), Ids(g.pools), Ids(b.graph.pools));
    ListenersWiden(g.listeners, Ids(g.rules), Ids(g.pools), Ids(g.certificates),
                   Ids(g.rules), Ids(b.graph.pools), Ids(g.certificates));
    TcpStepOk(r, mint, g.listeners, r.urls[0], ExistingListener(g, r), b.pool,
              Ids(g.rules), Ids(b.graph.pools), Ids(g.certificates));
  }

  /** The listeners resolve in any case. */
  lemma WebListenersOk(g: Graph, r: Request, mint: Mint)
    requires r.urls != [] && !IsTcp(r) && Generates(mint) && WellFormed(g) && Published(g, r, mint).Some?
    ensures var h := Published(g, r, mint).value;
            ListenersOk(h.listeners, Ids(h.rules), Ids(h.pools), Ids(h.certificates))
  {
    var b := BackendStep(g, r, mint);
    BackendStepOk(g, r, mint);
    var own := ExistingRule(g, r);
    RuleStepOk(b.graph, Ids(g.pools), r, mint, own, b.pool);
    var s := RuleStep(b.graph, r, mint, own, b.pool);
    var formerHosts := OldHosts(g.conditions, if own.Some? then own.value.body.conditions else []);
    CertificateStepOk(s, r, mint, formerHosts);
    var t := CertificateStep(s, r, mint, formerHosts);
    ListenersWiden(g.listeners, Ids(g.rules), Ids(g.pools), Ids(g.certificates),
                   Ids(t.graph.rules), Ids(t.graph.pools), Ids(t.graph.certificates));
    ListenerStepOk(t, r, mint, own.Some?);
  }

  lemma WebKeepsWellFormed(g: Graph, r: Request, mint: Mint)
    requires r.urls != [] && !IsTcp(r) && Generates(mint) && WellFormed(g) && Published(g, r, mint).Some?
    ensures WellFormed(Published(g, r, mint).value) <==> !StrandsMonitor(g, r)
  {
    var b := BackendStep(g, r, mint);
    BackendStepOk(g, r, mint);
    var own := ExistingRule(g, r);
    RuleStepOk(b.graph, Ids(g.pools), r, mint, own, b.pool);
    var s := RuleStep(b.graph, r, mint, own, b.pool);
    var formerHosts := OldHosts(g.conditions, if own.Some? then own.value.body.conditions else []);
    CertificateStepOk(s, r, mint, formerHosts);
    var t := CertificateStep(s, r, mint, formerHosts);
    ListenersWiden(g.listeners, Ids(g.rules), Ids(g.pools), Ids(g.certificates),
                   Ids(t.graph.rules), Ids(t.graph.pools), Ids(t.graph.certificates));
    ListenerStepOk(t, r, mint, own.Some?);
  }

  /** Publishing that is not refused keeps a well-formed configuration well formed,
      except that it strands a pool's monitor in exactly that case. */
  lemma PublishKeepsWellFormed(g: Graph, r: Request, mint: Mint)
    requires r.urls != [] && Generates(mint) && WellFormed(g) && Published(g, r, mint).Some?
    ensures WellFormed(Published(g, r, mint).value) <==> !StrandsMonitor(g, r)
  {
    if IsTcp(r) {
      TcpKeepsWellFormed(g, r, mint);
    } else {
      WebKeepsWellFormed(g, r, mint);
    }
  }

  /** A service whose monitor is of the kind "none", which the collection's route
      stores like any other (ham/crud.py:112-130). */
  function UncheckedService(): Graph {
    var check := Check("none", "2s", "GET", "/", "", "", "", "", true);
    Graph([Item("s", "app-srv", Server("10.0.0.1", 8080, false, 0, "", true))], [Item("m", "app-check", check)],
          [Item("p", "app", Pool(["s"], Some("m"), map[]))],
          [Item("c", "host-app", Condition(HostMatches, "app", false))],
          [Item("r", "to-app", Rule(true, false, false, ["c"], Some("p")))], [], [])
  }

  /** An edit of it that says nothing about health checking. */
  function SilentEdit(): Request {
    Request([Url(Http, "app", 80, "")], [Target("", "10.0.0.1", 8080, false)], "app", false, 0, None, map[], None,
            RuleService("r"), false, "", false, "", "", false)
  }

  lemma UncheckedWellFormed()
    ensures WellFormed(UncheckedService())
  {
    var g := UncheckedService();
    assert g.monitors[0] in g.monitors && g.pools[0] in g.pools && g.listeners == [];
    assert g.servers[0] in g.servers && g.conditions[0] in g.conditions;
    assert "m" in Ids(g.monitors) && "p" in Ids(g.pools) && "s" in Ids(g.servers) && "c" in Ids(g.conditions);
  }

  /** That edit is accepted, and afterwards the pool's monitor does not exist. */
  lemma SilentEditStrands(mint: Mint)
    requires Generates(mint)
    ensures WellFormed(UncheckedService()) && Published(UncheckedService(), SilentEdit(), mint).Some?
    ensures !WellFormed(Published(UncheckedService(), SilentEdit(), mint).value)
  {
    var g, r := UncheckedService(), SilentEdit();
    UncheckedWellFormed();
    SilentEditAccepted(mint);
    SilentEditCase();
    PublishKeepsWellFormed(g, r, mint);
  }

  lemma SilentEditCase()
    ensures StrandsMonitor(UncheckedService(), SilentEdit())
  {
    var g, r := UncheckedService(), SilentEdit();
    assert ExistingPool(g, r) == Some(g.pools[0]);
    assert OwnMonitor(g, r) == Some(g.monitors[0]);
    assert !UsedElsewhere(g.pools, "m", "p");
  }

  lemma SilentEditAccepted(mint: Mint)
    ensures Published(UncheckedService(), SilentEdit(), mint).Some?
  {
    var r := SilentEdit();
    assert r.urls[1..] == [];
    assert AddPorts([80], []) == [80];
    assert Ports(r) == [80];
    FirstListenerAccepted(UncheckedService(), r, mint);
  }

  /** Where there is no listener yet, no single port is refused. */
  lemma FirstListenerAccepted(g: Graph, r: Request, mint: Mint)
    requires r.urls != [] && !IsTcp(r) && g.listeners == [] && |Ports(r)| == 1
    ensures Published(g, r, mint).Some?
  {
    var b := BackendStep(g, r, mint);
    var s := RuleStep(b.graph, r, mint, ExistingRule(g, r), b.pool);
    var formerHosts :=
        OldHosts(g.conditions, if ExistingRule(g, r).Some? then ExistingRule(g, r).value.body.conditions else []);
    OnePortServed(CertificateStep(s, r, mint, formerHosts), r, mint, ExistingRule(g, r).Some?);
  }

  lemma OnePortServed(s: Routing, r: Request, mint: Mint, edited: bool)
    requires r.urls != [] && s.graph.listeners == [] && |Ports(r)| == 1
    ensures ListenerStep(s, r, mint, edited).Some?
  {
    FirstPortFree(mint, s.graph.rules, Ports(r), r.urls[0].scheme == Https, s.rule, s.cert);
  }

  lemma FirstPortFree(mint: Mint, rules: seq<Item<Rule>>, ports: seq<nat>, ssl: bool, rule: Id, cert: Option<Id>)
    requires |ports| == 1
    ensures ServeAll(mint, rules, Served([], []), ports, ssl, rule, cert).Some?
  {
    assert !PortTaken([], ports[0], ssl);
    assert ports[1..] == [];
  }
}
