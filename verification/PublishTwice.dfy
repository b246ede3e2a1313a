/** Publishing the same request twice changes nothing the second time. */
module PublishTwice {
  import opened Options
  import opened Names
  import opened Collections
  import opened ServiceGraph
  import opened PublishSpec
  import opened PublishWellFormed
  import opened PublishServes
  import opened PublishCertificate
  import RuleOrder

  // ----- servers -----

  function Address(s: Item<Server>): (string, nat, bool, Id) {
    (s.body.address, s.body.port, s.body.ssl, s.id)
  }

  predicate Unnamed(ts: seq<Target>) {
    forall t :: t in ts ==> t.serverName == ""
  }

  lemma ClaimedFirst(r: Request, mint: Mint, c: Claims, t: Target)
    requires Generates(mint) && ClaimsOk(c) && t.serverName == ""
    ensures var s := Configured(r, ServerFor(r, mint, c.servers, t, c.ids));
            Find(ClaimOne(r, mint, c, t).servers, ByAddress(t, c.ids)) == Some(s)
            && Configured(r, s) == s
            && (Lookup(c.servers, s.id).Some? ==> Address(Lookup(c.servers, s.id).value) == Address(s))
  {
    var f := ServerFor(r, mint, c.servers, t, c.ids);
    var s := Configured(r, f);
    ServerForFits(r, mint, c, t);
    if Find(c.servers, ByAddress(t, c.ids)).Some? {
      DistinctLookup(c.servers, f);
    } else {
      LookupIds(c.servers, f.id);
    }
    assert ByAddress(t, c.ids)(s);
    FirstAfter(c.servers, s, ByAddress(t, c.ids));
  }

  /** Claiming again from a list that has only grown claims the same servers and
      changes none. */
  lemma {:induction false} ClaimsAgain(r: Request, mint: Mint, c: Claims, ts: seq<Target>, servers: seq<Item<Server>>)
    requires Generates(mint) && ClaimsOk(c) && Unnamed(ts)
    requires var e := ClaimAll(r, mint, c, ts);
             Grows(e.servers, servers, SetOf(e.ids), Address)
             && forall id :: id in e.ids ==> Lookup(servers, id) == Lookup(e.servers, id)
    requires Distinct(servers)
    ensures var e := ClaimAll(r, mint, c, ts);
            Grows(c.servers, servers, SetOf(e.ids), Address)
            && ClaimAll(r, mint, Claims(servers, c.ids), ts) == Claims(servers, e.ids)
    decreases |ts|
  {
    if ts != [] {
      var e := ClaimAll(r, mint, c, ts);
      var d := ClaimOne(r, mint, c, ts[0]);
      var s := Configured(r, ServerFor(r, mint, c.servers, ts[0], c.ids));
      ClaimOneOk(r, mint, c, ts[0]);
      ClaimsAgain(r, mint, d, ts[1..], servers);
      ClaimedFirst(r, mint, c, ts[0]);
      GrowsUpsert(c.servers, s, servers, SetOf(e.ids), Address);
      ClaimAllKeeps(r, mint, d, ts[1..], s.id);
      UpsertLookup(c.servers, s, s.id);
      ClaimAgain(r, mint, c, ts[0], d.servers, SetOf(e.ids), servers, s);
    }
  }

  lemma ClaimAgain(r: Request, mint: Mint, c: Claims, t: Target, grown: seq<Item<Server>>, keep: set<Id>,
          servers: seq<Item<Server>>, s: Item<Server>)
    requires t.serverName == "" && Distinct(servers) && s.id in keep && Configured(r, s) == s
    requires Find(grown, ByAddress(t, c.ids)) == Some(s) && Grows(grown, servers, keep, Address)
    requires Lookup(servers, s.id) == Some(s)
    ensures ClaimOne(r, mint, Claims(servers, c.ids), t) == Claims(servers, c.ids + [s.id])
  {
    FindGrows(grown, servers, keep, Address, ByAddress(t, c.ids));
    DistinctLookup(servers, Find(servers, ByAddress(t, c.ids)).value);
    UpsertSame(servers, s);
  }

  lemma {:induction false} DropGrows(servers: seq<Item<Server>>, candidates: seq<Id>, used: set<Id>, keep: set<Id>)
    requires Distinct(servers) && keep <= used
    ensures Grows(servers, DropOrphans(servers, candidates, used), keep, Address)
    decreases |candidates|
  {
    if candidates == [] {
      GrowsSelf(servers, keep, Address);
    } else if Orphan(servers, candidates[0], used) {
      var less := Without(servers, candidates[0]);
      WithoutDistinct(servers, candidates[0]);
      WithoutIds(servers, candidates[0]);
      DropGrows(less, candidates[1..], used, keep);
      DropOrphansOk(less, candidates[1..], used);
      GrowsWithout(servers, candidates[0], DropOrphans(less, candidates[1..], used), keep, Address);
    } else {
      DropGrows(servers, candidates[1..], used, keep);
    }
  }

  lemma {:induction false} DropNone(servers: seq<Item<Server>>, candidates: seq<Id>, used: set<Id>)
    requires SetOf(candidates) <= used
    ensures DropOrphans(servers, candidates, used) == servers
    decreases |candidates|
  {
    if candidates != [] {
      assert candidates[0] in SetOf(candidates);
      assert SetOf(candidates[1..]) <= SetOf(candidates);
      DropNone(servers, candidates[1..], used);
    }
  }

  /** The servers after one publication. */
  lemma ServersAgain(r: Request, mint: Mint, servers: seq<Item<Server>>, previous: seq<Id>, used: set<Id>)
    requires Generates(mint) && Distinct(servers) && Unnamed(r.targets)
    requires SetOf(ClaimAll(r, mint, Claims(servers, []), r.targets).ids) <= used
    ensures var e := ClaimAll(r, mint, Claims(servers, []), r.targets);
            var after := DropOrphans(e.servers, previous, used);
            ClaimAll(r, mint, Claims(after, []), r.targets) == Claims(after, e.ids)
            && DropOrphans(after, e.ids, used) == after
  {
    var e := ClaimAll(r, mint, Claims(servers, []), r.targets);
    var after := DropOrphans(e.servers, previous, used);
    ClaimAllOk(r, mint, Claims(servers, []), r.targets);
    DropOrphansOk(e.servers, previous, used);
    DropGrows(e.servers, previous, used, SetOf(e.ids));
    forall id | id in e.ids
      ensures Lookup(after, id) == Lookup(e.servers, id)
    {
      assert id in SetOf(e.ids);
      DropOrphansLookup(e.servers, previous, used, id);
    }
    ClaimsAgain(r, mint, Claims(servers, []), r.targets, after);
    DropNone(after, e.ids, used);
  }

  // ----- the monitor -----

  lemma MonitorAgain(r: Request, mint: Mint, monitors: seq<Item<Check>>)
    requires Generates(mint) && Distinct(monitors)
    ensures var c := MonitorStep(r, mint, monitors, None, false);
            MonitorStep(r, mint, c.monitors, None, false) == c
  {
    if r.health.Some? && CheckKind(r, None) != "none" {
      var want := Wanted(r.health.value);
      var m := MonitorFor(r, mint, monitors, None, false, want);
      if Find(monitors, Like(want)).Some? {
        DistinctLookup(monitors, m);
        UpsertSame(monitors, m);
      } else {
        FirstAfter(monitors, m, Like(want));
        UpsertLookup(monitors, m, m.id);
        UpsertSame(Upsert(monitors, m), m);
      }
    }
  }

  // ----- the pool -----

  lemma NewPoolName(r: Request, pools: seq<Item<Pool>>)
    requires Find(pools, PoolNamed(r)).None?
    ensures Unique(NamesOf(pools), r.base) == Secure(r.base)
  {
    if Secure(r.base) in NamesOf(pools) {
      var b :| b in pools && b.name == Secure(r.base);
      NoneFits(pools, PoolNamed(r), b);
    }
  }

  lemma PoolAgain(r: Request, mint: Mint, pools: seq<Item<Pool>>, servers: seq<Id>, monitor: Option<Id>)
    requires Generates(mint) && Distinct(pools)
    ensures var p := PoolFor(r, mint, pools, None, servers, monitor);
            var after := Upsert(pools, p);
            Find(after, PoolNamed(r)) == Some(p)
            && PoolFor(r, mint, after, None, servers, monitor) == p && Upsert(after, p) == after
  {
    var p := PoolFor(r, mint, pools, None, servers, monitor);
    if Find(pools, PoolNamed(r)).None? {
      NewPoolName(r, pools);
    }
    assert PoolNamed(r)(p);
    FirstAfter(pools, p, PoolNamed(r));
    UpsertLookup(pools, p, p.id);
    UpsertSame(Upsert(pools, p), p);
    assert p.body.options + r.poolOptions == p.body.options;
  }

  /** Servers, monitor and pool are the same the second time. */
  lemma BackendAgain(g: Graph, r: Request, mint: Mint, after: Graph)
    requires Generates(mint) && WellFormed(g) && r.service == NoService && Unnamed(r.targets)
    requires var b := BackendStep(g, r, mint).graph;
             after.servers == b.servers && after.monitors == b.monitors && after.pools == b.pools
    ensures BackendStep(after, r, mint) == Backend(after, BackendStep(g, r, mint).pool)
  {
    var e := ClaimAll(r, mint, Claims(g.servers, []), r.targets);
    var choice := MonitorStep(r, mint, g.monitors, None, false);
    var p := PoolFor(r, mint, g.pools, None, e.ids, choice.monitor);
    var used := Referenced(Upsert(g.pools, p));
    UpsertMembers(g.pools, p, p);
    ReferencedBy(Upsert(g.pools, p), p);
    ServersAgain(r, mint, g.servers, PreviousServers(r, g.pools, None), used);
    MonitorAgain(r, mint, g.monitors);
    PoolAgain(r, mint, g.pools, e.ids, choice.monitor);
  }

  // ----- a tcp listener -----

  lemma TcpAgain(r: Request, mint: Mint, ls: seq<Item<Listener>>, u: Url, pool: Id)
    requires Generates(mint) && Distinct(ls) && TcpStep(r, mint, ls, u, None, pool).Some?
    ensures TcpStep(r, mint, TcpStep(r, mint, ls, u, None, pool).value, u, None, pool)
        == TcpStep(r, mint, ls, u, None, pool)
  {
    var l := TcpListener(ls, u, None).Or(NewTcpListener(r, mint, ls, u));
    var x := l.(body := l.body.(defaultPool := Some(pool)));
    if Find(ls, OnPort(u.port)).None? {
      assert x.body.binds[0].port == u.port;
    }
    assert BindsPort(x.body, u.port);
    FirstAfter(ls, x, OnPort(u.port));
    UpsertLookup(ls, x, x.id);
    UpsertSame(Upsert(ls, x), x);
  }

  // ----- conditions and rule -----

  function Tested(c: Item<Condition>): Condition {
    c.body
  }

  lemma ConditionFirst(mint: Mint, all: seq<Item<Condition>>, n: Need)
    requires Generates(mint) && Distinct(all)
    ensures var x := ConditionFor(mint, all, n);
            Find(Upsert(all, x), Meets(n)) == Some(x)
            && (Lookup(all, x.id).Some? ==> Lookup(all, x.id).value == x)
  {
    var x := ConditionFor(mint, all, n);
    if Find(all, Meets(n)).Some? {
      DistinctLookup(all, x);
    } else {
      LookupIds(all, x.id);
    }
    assert Meets(n)(x);
    FirstAfter(all, x, Meets(n));
  }

  lemma {:induction false} NeedAllKeeps(mint: Mint, c: Conditions, ns: seq<Need>, id: Id)
    requires Generates(mint) && ConditionsOk(c) && id in c.ids
    ensures id in NeedAll(mint, c, ns).ids
    ensures Lookup(NeedAll(mint, c, ns).all, id) == Lookup(c.all, id)
    decreases |ns|
  {
    if ns != [] {
      var x := ConditionFor(mint, c.all, ns[0]);
      ConditionFirst(mint, c.all, ns[0]);
      UpsertLookup(c.all, x, id);
      assert id in SetOf(c.ids);
      LookupIds(c.all, id);
      NeedOneOk(mint, c, ns[0]);
      NeedAllKeeps(mint, NeedOne(mint, c, ns[0]), ns[1..], id);
    }
  }

  lemma {:induction false} NeedsAgain(mint: Mint, c: Conditions, ns: seq<Need>, all: seq<Item<Condition>>)
    requires Generates(mint) && ConditionsOk(c) && Distinct(all)
    requires var e := NeedAll(mint, c, ns);
             Grows(e.all, all, SetOf(e.ids), Tested)
             && forall id :: id in e.ids ==> Lookup(all, id) == Lookup(e.all, id)
    ensures var e := NeedAll(mint, c, ns);
            Grows(c.all, all, SetOf(e.ids), Tested)
            && NeedAll(mint, Conditions(all, c.ids), ns) == Conditions(all, e.ids)
    decreases |ns|
  {
    if ns != [] {
      var e := NeedAll(mint, c, ns);
      var d := NeedOne(mint, c, ns[0]);
      var x := ConditionFor(mint, c.all, ns[0]);
      NeedOneOk(mint, c, ns[0]);
      NeedsAgain(mint, d, ns[1..], all);
      ConditionFirst(mint, c.all, ns[0]);
      GrowsUpsert(c.all, x, all, SetOf(e.ids), Tested);
      NeedAllKeeps(mint, d, ns[1..], x.id);
      UpsertLookup(c.all, x, x.id);
      NeedAgain(mint, c.ids, ns[0], d.all, SetOf(e.ids), all, x);
    }
  }

  lemma NeedAgain(mint: Mint, ids: seq<Id>, n: Need, grown: seq<Item<Condition>>, keep: set<Id>,
          all: seq<Item<Condition>>, x: Item<Condition>)
    requires Distinct(all) && x.id in keep
    requires Find(grown, Meets(n)) == Some(x) && Grows(grown, all, keep, Tested) && Lookup(all, x.id) == Some(x)
    ensures NeedOne(mint, Conditions(all, ids), n) == Conditions(all, ids + [x.id])
  {
    FindGrows(grown, all, keep, Tested, Meets(n));
    DistinctLookup(all, Find(all, Meets(n)).value);
    UpsertSame(all, x);
  }

  lemma {:induction false} DropUnusedNone<B>(conditions: seq<Item<B>>, previous: seq<Id>, used: set<Id>)
    requires SetOf(previous) <= used
    ensures DropUnused(conditions, previous, used) == conditions
    decreases |previous|
  {
    if previous != [] {
      assert previous[0] in SetOf(previous);
      assert SetOf(previous[1..]) <= SetOf(previous);
      DropUnusedNone(conditions, previous[1..], used);
    }
  }

  lemma NeedsTwice(mint: Mint, conditions: seq<Item<Condition>>, ns: seq<Need>)
    requires Generates(mint) && Distinct(conditions)
    ensures var e := NeedAll(mint, Conditions(conditions, []), ns);
            NeedAll(mint, Conditions(e.all, []), ns) == e
  {
    var start := Conditions(conditions, []);
    var e := NeedAll(mint, start, ns);
    NeedAllOk(mint, start, ns);
    GrowsSelf(e.all, SetOf(e.ids), Tested);
    NeedsAgain(mint, start, ns, e.all);
  }

  lemma RuleForAgain(r: Request, mint: Mint, rules: seq<Item<Rule>>, ids: seq<Id>, pool: Id)
    requires Generates(mint) && Distinct(rules)
    ensures var x := RuleFor(r, mint, rules, None, ids, pool);
            var after := Upsert(rules, x);
            RuleFor(r, mint, after, None, ids, pool) == x && Upsert(after, x) == after
            && OldRule(after, None, ids) == Some(x)
            && SetOf(PreviousConditions(rules, None, ids)) <= SetOf(ids)
  {
    var x := RuleFor(r, mint, rules, None, ids, pool);
    assert WithConditions(ids)(x);
    FirstAfter(rules, x, WithConditions(ids));
    UpsertLookup(rules, x, x.id);
    UpsertSame(Upsert(rules, x), x);
  }

  /** Conditions and rule are the same the second time. */
  lemma RuleStepAgain(g: Graph, r: Request, mint: Mint, pool: Id, after: Graph)
    requires r.urls != [] && Generates(mint) && Distinct(g.conditions) && Distinct(g.rules)
    requires var s := RuleStep(g, r, mint, None, pool).graph; after.conditions == s.conditions && after.rules == s.rules
    ensures RuleStep(after, r, mint, None, pool) == Routing(after, RuleStep(g, r, mint, None, pool).rule, None)
  {
    var e := NeedAll(mint, Conditions(g.conditions, []), Needs(r));
    var x := RuleFor(r, mint, g.rules, None, e.ids, pool);
    var rules := Upsert(g.rules, x);
    NeedsTwice(mint, g.conditions, Needs(r));
    RuleForAgain(r, mint, g.rules, e.ids, pool);
    RuleForFits(r, mint, g.rules, None, e.ids, pool);
    UpsertMembers(g.rules, x, x);
    UsedBy(rules, x);
    DropUnusedNone(e.all, PreviousConditions(g.rules, None, e.ids), UsedConditions(rules));
    DropUnusedNone(e.all, e.ids, UsedConditions(rules));
  }

  // ----- the listeners -----

  function Bound(l: Item<Listener>): (seq<Bind>, bool, bool) {
    (l.body.binds, l.body.tcp, l.body.ssl)
  }

  /** The rule is where it would be placed, and the certificate is there. */
  predicate Settled(rules: seq<Item<Rule>>, l: Option<Item<Listener>>, rule: Id, cert: Option<Id>) {
    l.Some? && Carrying(rules, l.value, rule, cert) == l.value
  }

  lemma CarryingSettles(rules: seq<Item<Rule>>, l: Item<Listener>, rule: Id, cert: Option<Id>)
    ensures Settled(rules, Some(Carrying(rules, l, rule, cert)), rule, cert)
  {
    RuleOrder.PlaceKeepsOthers(rules, l.body.rules, rule);
  }

  ghost predicate AllSettled(rules: seq<Item<Rule>>, ls: seq<Item<Listener>>, ids: seq<Id>, rule: Id,
          cert: Option<Id>)
  {
    forall id :: id in ids ==> Settled(rules, Lookup(ls, id), rule, cert)
  }

  lemma ServeOneSettles(mint: Mint, rules: seq<Item<Rule>>, s: Served, port: nat, ssl: bool, rule: Id, cert: Option<Id>)
    requires AllSettled(rules, s.listeners, s.ids, rule, cert)
    ensures AllSettled(rules, ServeOne(mint, rules, s, port, ssl, rule, cert).listeners,
                       ServeOne(mint, rules, s, port, ssl, rule, cert).ids, rule, cert)
  {
    var from := Find(s.listeners, Serving(port, ssl)).Or(NewListener(mint, s.listeners, port, ssl));
    var l := ListenerFor(mint, rules, s.listeners, port, ssl, rule, cert);
    CarryingSettles(rules, from, rule, cert);
    forall id | id in s.ids + [l.id]
      ensures Settled(rules, Lookup(Upsert(s.listeners, l), id), rule, cert)
    {
      UpsertLookup(s.listeners, l, id);
    }
  }

  lemma {:induction false} ServeAllSettles(mint: Mint, rules: seq<Item<Rule>>, s: Served, ports: seq<nat>, ssl: bool,
          rule: Id, cert: Option<Id>)
    requires AllSettled(rules, s.listeners, s.ids, rule, cert)
    requires ServeAll(mint, rules, s, ports, ssl, rule, cert).Some?
    ensures var e := ServeAll(mint, rules, s, ports, ssl, rule, cert).value;
            AllSettled(rules, e.listeners, e.ids, rule, cert) && SetOf(s.ids) <= SetOf(e.ids)
    decreases |ports|
  {
    if ports != [] {
      var t := ServeOne(mint, rules, s, ports[0], ssl, rule, cert);
      ServeOneSettles(mint, rules, s, ports[0], ssl, rule, cert);
      ServeAllSettles(mint, rules, t, ports[1..], ssl, rule, cert);
      SetOfAppend(s.ids, t.ids[|s.ids|]);
    }
  }

  lemma ListenerFirst(mint: Mint, rules: seq<Item<Rule>>, ls: seq<Item<Listener>>, port: nat, ssl: bool, rule: Id,
          cert: Option<Id>)
    requires Generates(mint) && Distinct(ls)
    ensures var l := ListenerFor(mint, rules, ls, port, ssl, rule, cert);
            Find(Upsert(ls, l), Serving(port, ssl)) == Some(l)
            && (Lookup(ls, l.id).Some? ==> Bound(Lookup(ls, l.id).value) == Bound(l))
  {
    var l := ListenerFor(mint, rules, ls, port, ssl, rule, cert);
    ListenerForCarries(mint, rules, ls, port, ssl, rule, cert);
    if Find(ls, Serving(port, ssl)).Some? {
      DistinctLookup(ls, Find(ls, Serving(port, ssl)).value);
    } else {
      LookupIds(ls, l.id);
    }
    FirstAfter(ls, l, Serving(port, ssl));
  }

  lemma {:induction false} ServeIds(mint: Mint, rules: seq<Item<Rule>>, s: Served, ports: seq<nat>, ssl: bool,
          rule: Id, cert: Option<Id>, id: Id)
    requires ServeAll(mint, rules, s, ports, ssl, rule, cert).Some? && id in s.ids
    ensures id in ServeAll(mint, rules, s, ports, ssl, rule, cert).value.ids
    decreases |ports|
  {
    if ports != [] {
      ServeIds(mint, rules, ServeOne(mint, rules, s, ports[0], ssl, rule, cert), ports[1..], ssl, rule, cert, id);
    }
  }

  lemma {:induction false} ServesAgain(mint: Mint, rules: seq<Item<Rule>>, s: Served, ports: seq<nat>, ssl: bool,
          rule: Id, cert: Option<Id>, ls: seq<Item<Listener>>)
    requires Generates(mint) && Distinct(s.listeners) && Distinct(ls)
    requires ServeAll(mint, rules, s, ports, ssl, rule, cert).Some?
    requires var e := ServeAll(mint, rules, s, ports, ssl, rule, cert).value;
             Grows(e.listeners, ls, SetOf(e.ids), Bound) && AllSettled(rules, ls, e.ids, rule, cert)
    ensures var e := ServeAll(mint, rules, s, ports, ssl, rule, cert).value;
            Grows(s.listeners, ls, SetOf(e.ids), Bound)
            && ServeAll(mint, rules, Served(ls, s.ids), ports, ssl, rule, cert) == Some(Served(ls, e.ids))
    decreases |ports|
  {
    if ports != [] {
      var e := ServeAll(mint, rules, s, ports, ssl, rule, cert).value;
      var t := ServeOne(mint, rules, s, ports[0], ssl, rule, cert);
      var l := ListenerFor(mint, rules, s.listeners, ports[0], ssl, rule, cert);
      ServeOneDistinct(mint, rules, s, ports[0], ssl, rule, cert);
      ServesAgain(mint, rules, t, ports[1..], ssl, rule, cert, ls);
      ListenerFirst(mint, rules, s.listeners, ports[0], ssl, rule, cert);
      GrowsUpsert(s.listeners, l, ls, SetOf(e.ids), Bound);
      ServeIds(mint, rules, t, ports[1..], ssl, rule, cert, l.id);
      ServeAgain(mint, rules, s.ids, ports[0], ssl, rule, cert, t.listeners, SetOf(e.ids), ls, l);
    }
  }

  lemma ServeAgain(mint: Mint, rules: seq<Item<Rule>>, ids: seq<Id>, port: nat, ssl: bool, rule: Id, cert: Option<Id>,
          grown: seq<Item<Listener>>, keep: set<Id>, ls: seq<Item<Listener>>, l: Item<Listener>)
    requires Distinct(ls) && l.id in keep && Settled(rules, Lookup(ls, l.id), rule, cert)
    requires Find(grown, Serving(port, ssl)) == Some(l) && Grows(grown, ls, keep, Bound)
    ensures ServeOne(mint, rules, Served(ls, ids), port, ssl, rule, cert) == Served(ls, ids + [l.id])
    ensures !PortTaken(ls, port, ssl)
  {
    FindGrows(grown, ls, keep, Bound, Serving(port, ssl));
    var y := Find(ls, Serving(port, ssl)).value;
    DistinctLookup(ls, y);
    UpsertSame(ls, y);
  }

  lemma RedirectAgain(mint: Mint, ls: seq<Item<Listener>>, redirect: bool)
    requires Generates(mint) && Distinct(ls)
    ensures Redirected(mint, Redirected(mint, ls, redirect), redirect) == Redirected(mint, ls, redirect)
  {
    if redirect {
      var x := RedirectFor(mint, ls);
      if Find(ls, PlainOn80()).None? {
        assert x.body.binds[0].port == 80;
        assert BindsPort(x.body, 80);
      }
      assert PlainOn80()(x);
      FirstAfter(ls, x, PlainOn80());
      UpsertLookup(ls, x, x.id);
      UpsertSame(Upsert(ls, x), x);
    }
  }

  /** The redirect leaves the listeners that serve as they are. */
  lemma RedirectSettled(mint: Mint, rules: seq<Item<Rule>>, ls: seq<Item<Listener>>, ids: seq<Id>, redirect: bool,
          rule: Id, cert: Option<Id>)
    requires Generates(mint) && Distinct(ls) && AllSettled(rules, ls, ids, rule, cert)
    ensures AllSettled(rules, Redirected(mint, ls, redirect), ids, rule, cert)
    ensures Grows(ls, Redirected(mint, ls, redirect), SetOf(ids), Bound)
    ensures Distinct(Redirected(mint, ls, redirect))
  {
    GrowsSelf(Redirected(mint, ls, redirect), SetOf(ids), Bound);
    if redirect {
      var x := RedirectFor(mint, ls);
      var was := Lookup(ls, x.id);
      if was.Some? {
        RedirectIs(mint, ls, was.value);
        FoundFits(ls, Find(ls, PlainOn80()).value, x);
      } else {
        LookupIds(ls, x.id);
        RedirectNew(mint, ls);
      }
      UpsertFits(ls, x);
      GrowsUpsert(ls, x, Upsert(ls, x), SetOf(ids), Bound);
      forall id | id in ids
        ensures Settled(rules, Lookup(Upsert(ls, x), id), rule, cert)
      {
        UpsertLookup(ls, x, id);
      }
    }
  }

  lemma RedirectNew(mint: Mint, ls: seq<Item<Listener>>)
    requires RedirectFor(mint, ls).id !in Ids(ls)
    ensures Fits(ls, RedirectFor(mint, ls))
  {
    assert forall l :: l in ls ==> l.id in Ids(ls);
    UniqueIsFree(NamesOf(ls), "http-redirect");
    NewFits(ls, RedirectFor(mint, ls));
  }

  /** The listeners are the same the second time. */
  lemma ListenerStepAgain(s: Routing, r: Request, mint: Mint, after: Graph)
    requires r.urls != [] && Generates(mint) && Distinct(s.graph.listeners)
    requires ListenerStep(s, r, mint, false).Some? && after == ListenerStep(s, r, mint, false).value
    ensures ListenerStep(Routing(after, s.rule, s.cert), r, mint, false) == Some(after)
  {
    var ssl, ls, rules := r.urls[0].scheme == Https, s.graph.listeners, s.graph.rules;
    var redirect := ssl && r.httpRedirect;
    ListenerStepIs(s, r, mint, false);
    var served := ServeAll(mint, rules, Served(ls, []), Ports(r), ssl, s.rule, s.cert).value;
    ServeAllDistinct(mint, rules, Served(ls, []), Ports(r), ssl, s.rule, s.cert);
    ServeAllSettles(mint, rules, Served(ls, []), Ports(r), ssl, s.rule, s.cert);
    RedirectSettled(mint, rules, served.listeners, served.ids, redirect, s.rule, s.cert);
    RedirectAgain(mint, served.listeners, redirect);
    ServesAgain(mint, rules, Served(ls, []), Ports(r), ssl, s.rule, s.cert, after.listeners);
  }

  // ----- the whole -----

  /** A fresh publication: no service is edited, no certificate is forced to be new,
      and no target carries a server name. */
  predicate Republishable(r: Request) {
    r.service == NoService && !r.newCertificate && Unnamed(r.targets)
  }

  lemma WebTwice(g: Graph, r: Request, mint: Mint)
    requires r.urls != [] && !IsTcp(r) && Generates(mint) && WellFormed(g) && Republishable(r)
    requires Published(g, r, mint).Some?
    ensures Published(Published(g, r, mint).value, r, mint) == Published(g, r, mint)
  {
    var after := Published(g, r, mint).value;
    var b := BackendStep(g, r, mint);
    BackendStepOk(g, r, mint);
    RuleStepOk(b.graph, Ids(g.pools), r, mint, None, b.pool);
    var s := RuleStep(b.graph, r, mint, None, b.pool);
    CertificateStepOk(s, r, mint, []);
    var t := CertificateStep(s, r, mint, []);
    AfterFields(t, r, mint, after);
    BackendAgain(g, r, mint, after);
    RuleStepAgain(b.graph, r, mint, b.pool, after);
    CertificateStepAgain(s, r, mint, after);
    ListenerStepAgain(t, r, mint, after);
  }

  lemma AfterFields(t: Routing, r: Request, mint: Mint, after: Graph)
    requires r.urls != [] && ListenerStep(t, r, mint, false) == Some(after)
    ensures after == t.graph.(listeners := after.listeners)
  {
  }

  lemma CertificateStepAgain(s: Routing, r: Request, mint: Mint, after: Graph)
    requires r.urls != [] && Generates(mint) && Distinct(s.graph.certificates) && !r.newCertificate && s.cert == None
    requires after.certificates == CertificateStep(s, r, mint, []).graph.certificates
    ensures CertificateStep(Routing(after, s.rule, None), r, mint, [])
         == Routing(after, s.rule, CertificateStep(s, r, mint, []).cert)
  {
    if WantsCertificate(r) {
      CertificateAgain(r, mint, s.graph.certificates);
    }
  }

  /** Publishing the same request twice leaves the configuration as the first time
      left it. */
  lemma PublishedTwice(g: Graph, r: Request, mint: Mint)
    requires r.urls != [] && Generates(mint) && WellFormed(g) && Republishable(r)
    requires Published(g, r, mint).Some?
    ensures Published(Published(g, r, mint).value, r, mint) == Published(g, r, mint)
  {
    if IsTcp(r) {
      var after := Published(g, r, mint).value;
      BackendAgain(g, r, mint, after);
      TcpAgain(r, mint, g.listeners, r.urls[0], BackendStep(g, r, mint).pool);
    } else {
      WebTwice(g, r, mint);
    }
  }
}
