/** Publishing does what the request asks: the pool holds the targets, the rule
    answers for the names and the path, and every port carries the rule. */
module PublishServes {
  import opened Options
  import opened Names
  import opened Collections
  import opened ServiceGraph
  import opened PublishSpec
  import opened PublishWellFormed
  import RuleOrder

  // ----- the pool holds the targets -----

  ghost predicate ServesTarget(s: Option<Item<Server>>, t: Target) {
    s.Some? && s.value.body.address == t.host && s.value.body.port == t.port && s.value.body.ssl == t.https
  }

  /** Server by server, the ids are those of servers at the targets' addresses. */
  ghost predicate TargetsServed(servers: seq<Item<Server>>, ids: seq<Id>, ts: seq<Target>) {
    |ids| == |ts| && forall i :: 0 <= i < |ids| ==> ServesTarget(Lookup(servers, ids[i]), ts[i])
  }

  lemma ServerForServes(r: Request, mint: Mint, servers: seq<Item<Server>>, t: Target, claimed: seq<Id>)
    ensures ServesTarget(Some(Configured(r, ServerFor(r, mint, servers, t, claimed))), t)
  {
  }

  lemma ClaimOneServes(r: Request, mint: Mint, c: Claims, served: seq<Target>, t: Target)
    requires Generates(mint) && ClaimsOk(c) && TargetsServed(c.servers, c.ids, served)
    ensures TargetsServed(ClaimOne(r, mint, c, t).servers, ClaimOne(r, mint, c, t).ids, served + [t])
  {
    ServerForFits(r, mint, c, t);
    ServerForServes(r, mint, c.servers, t, c.ids);
    var s := Configured(r, ServerFor(r, mint, c.servers, t, c.ids));
    var ids := c.ids + [s.id];
    forall i | 0 <= i < |ids|
      ensures ServesTarget(Lookup(Upsert(c.servers, s), ids[i]), (served + [t])[i])
    {
      UpsertLookup(c.servers, s, ids[i]);
    }
  }

  lemma {:induction false} ClaimAllServes(r: Request, mint: Mint, c: Claims, served: seq<Target>, ts: seq<Target>)
    requires Generates(mint) && ClaimsOk(c) && TargetsServed(c.servers, c.ids, served)
    ensures TargetsServed(ClaimAll(r, mint, c, ts).servers, ClaimAll(r, mint, c, ts).ids, served + ts)
    decreases |ts|
  {
    if ts == [] {
      assert served + ts == served;
    } else {
      ClaimOneOk(r, mint, c, ts[0]);
      ClaimOneServes(r, mint, c, served, ts[0]);
      ClaimAllServes(r, mint, ClaimOne(r, mint, c, ts[0]), served + [ts[0]], ts[1..]);
      assert served + [ts[0]] + ts[1..] == served + ts;
    }
  }

  /** A server that was claimed stays as it is. */
  lemma {:induction false} ClaimAllKeeps(r: Request, mint: Mint, c: Claims, ts: seq<Target>, id: Id)
    requires Generates(mint) && ClaimsOk(c) && id in c.ids
    ensures id in ClaimAll(r, mint, c, ts).ids
    ensures Lookup(ClaimAll(r, mint, c, ts).servers, id) == Lookup(c.servers, id)
    decreases |ts|
  {
    if ts != [] {
      ServerForFits(r, mint, c, ts[0]);
      UpsertLookup(c.servers, Configured(r, ServerFor(r, mint, c.servers, ts[0], c.ids)), id);
      ClaimOneOk(r, mint, c, ts[0]);
      ClaimAllKeeps(r, mint, ClaimOne(r, mint, c, ts[0]), ts[1..], id);
    }
  }

  lemma {:induction false} DropOrphansLookup(servers: seq<Item<Server>>, candidates: seq<Id>, used: set<Id>, id: Id)
    requires id in used
    ensures Lookup(DropOrphans(servers, candidates, used), id) == Lookup(servers, id)
    decreases |candidates|
  {
    if candidates != [] {
      if Orphan(servers, candidates[0], used) {
        WithoutLookup(servers, candidates[0], id);
        DropOrphansLookup(Without(servers, candidates[0]), candidates[1..], used, id);
      } else {
        DropOrphansLookup(servers, candidates[1..], used, id);
      }
    }
  }

  /** Of the candidates exactly those go that the wizard made and nothing uses. */
  lemma {:induction false} DroppedOrphans(servers: seq<Item<Server>>, candidates: seq<Id>, used: set<Id>, id: Id)
    ensures var s := Lookup(servers, id);
            Lookup(DropOrphans(servers, candidates, used), id)
            == if id in candidates && id !in used && s.Some? && s.value.body.wizardMade then None else s
    decreases |candidates|
  {
    if candidates != [] {
      if Orphan(servers, candidates[0], used) {
        WithoutLookup(servers, candidates[0], id);
        DroppedOrphans(Without(servers, candidates[0]), candidates[1..], used, id);
      } else {
        DroppedOrphans(servers, candidates[1..], used, id);
      }
    }
  }

  ghost predicate PoolServes(g: Graph, r: Request, pool: Id) {
    Lookup(g.pools, pool).Some? &&
    var p := Lookup(g.pools, pool).value.body;
    TargetsServed(g.servers, p.servers, r.targets) && NoRepeat(p.servers)
    && forall k :: k in r.poolOptions ==> k in p.options && p.options[k] == r.poolOptions[k]
  }

  lemma BackendServes(g: Graph, r: Request, mint: Mint)
    requires Generates(mint) && WellFormed(g)
    ensures PoolServes(BackendStep(g, r, mint).graph, r, BackendStep(g, r, mint).pool)
  {
    var start := Claims(g.servers, []);
    var claims := ClaimAll(r, mint, start, r.targets);
    ClaimAllOk(r, mint, start, r.targets);
    ClaimAllServes(r, mint, start, [], r.targets);
    assert [] + r.targets == r.targets;
    var own := ExistingPool(g, r);
    var choice := MonitorStep(r, mint, g.monitors, OwnMonitor(g, r), Shared(g, r));
    var p := PoolFor(r, mint, g.pools, own, claims.ids, choice.monitor);
    var pools := Upsert(g.pools, p);
    UpsertLookup(g.pools, p, p.id);
    UpsertMembers(g.pools, p, p);
    ReferencedBy(pools, p);
    var previous := PreviousServers(r, g.pools, own);
    var kept := DropOrphans(claims.servers, previous, Referenced(pools));
    forall i | 0 <= i < |claims.ids|
      ensures ServesTarget(Lookup(kept, claims.ids[i]), r.targets[i])
    {
      assert claims.ids[i] in SetOf(p.body.servers);
      DropOrphansLookup(claims.servers, previous, Referenced(pools), claims.ids[i]);
    }
  }

  // ----- the rule answers for the names and the path -----

  ghost predicate NeedsMet(conditions: seq<Item<Condition>>, ids: seq<Id>, ns: seq<Need>) {
    |ids| == |ns| &&
    forall i :: 0 <= i < |ids| ==>
      Lookup(conditions, ids[i]).Some? && MeetsNeed(Lookup(conditions, ids[i]).value.body, ns[i])
  }

  lemma NeedOneMeets(mint: Mint, c: Conditions, met: seq<Need>, n: Need)
    requires Generates(mint) && ConditionsOk(c) && NeedsMet(c.all, c.ids, met)
    ensures NeedsMet(NeedOne(mint, c, n).all, NeedOne(mint, c, n).ids, met + [n])
  {
    var x := ConditionFor(mint, c.all, n);
    var ids := c.ids + [x.id];
    if Find(c.all, Meets(n)).Some? {
      DistinctLookup(c.all, x);
    }
    forall i | 0 <= i < |ids|
      ensures Lookup(Upsert(c.all, x), ids[i]).Some?
      ensures MeetsNeed(Lookup(Upsert(c.all, x), ids[i]).value.body, (met + [n])[i])
    {
      UpsertLookup(c.all, x, ids[i]);
      if i < |c.ids| {
        LookupIds(c.all, ids[i]);
      }
    }
  }

  lemma {:induction false} NeedAllMeets(mint: Mint, c: Conditions, met: seq<Need>, ns: seq<Need>)
    requires Generates(mint) && ConditionsOk(c) && NeedsMet(c.all, c.ids, met)
    ensures NeedsMet(NeedAll(mint, c, ns).all, NeedAll(mint, c, ns).ids, met + ns)
    decreases |ns|
  {
    if ns == [] {
      assert met + ns == met;
    } else {
      NeedOneOk(mint, c, ns[0]);
      NeedOneMeets(mint, c, met, ns[0]);
      NeedAllMeets(mint, NeedOne(mint, c, ns[0]), met + [ns[0]], ns[1..]);
      assert met + [ns[0]] + ns[1..] == met + ns;
    }
  }

  /** The service's rule goes to its pool, over conditions for what the URLs need. */
  ghost predicate RuleServes(g: Graph, r: Request, rule: Id, pool: Id)
    requires r.urls != []
  {
    Lookup(g.rules, rule).Some? &&
    var x := Lookup(g.rules, rule).value.body;
    x.pool == Some(pool) && x.anyOf == (|Hosts(r)| > 1) && NeedsMet(g.conditions, x.conditions, Needs(r))
  }

  lemma RuleStepServes(g: Graph, r: Request, mint: Mint, own: Option<Item<Rule>>, pool: Id)
    requires r.urls != [] && Generates(mint)
    requires Distinct(g.conditions) && Distinct(g.rules) && (own.Some? ==> own.value in g.rules)
    ensures RuleServes(RuleStep(g, r, mint, own, pool).graph, r, RuleStep(g, r, mint, own, pool).rule, pool)
  {
    var start := Conditions(g.conditions, []);
    var c := NeedAll(mint, start, Needs(r));
    NeedAllMeets(mint, start, [], Needs(r));
    assert [] + Needs(r) == Needs(r);
    var x := RuleFor(r, mint, g.rules, own, c.ids, pool);
    RuleForFits(r, mint, g.rules, own, c.ids, pool);
    UpsertLookup(g.rules, x, x.id);
    UpsertMembers(g.rules, x, x);
    UsedBy(Upsert(g.rules, x), x);
    KeptNeedsMet(c.all, PreviousConditions(g.rules, own, c.ids), UsedConditions(Upsert(g.rules, x)), c.ids, Needs(r));
  }

  /** A rule keeps its kind and its test; a new one is a route with an `if`. */
  predicate KindKept(before: seq<Item<Rule>>, after: seq<Item<Rule>>, id: Id) {
    var was, now := Lookup(before, id), Lookup(after, id);
    now.Some?
    && now.value.body.useBackend == (was.Some? ==> was.value.body.useBackend)
    && now.value.body.unlessTest == (was.Some? && was.value.body.unlessTest)
  }

  lemma RuleStepKind(g: Graph, r: Request, mint: Mint, own: Option<Item<Rule>>, pool: Id)
    requires r.urls != [] && Generates(mint) && Distinct(g.rules) && (own.Some? ==> own.value in g.rules)
    ensures KindKept(g.rules, RuleStep(g, r, mint, own, pool).graph.rules, RuleStep(g, r, mint, own, pool).rule)
  {
    var c := NeedAll(mint, Conditions(g.conditions, []), Needs(r));
    var x := RuleFor(r, mint, g.rules, own, c.ids, pool);
    var former := OldRule(g.rules, own, c.ids);
    UpsertLookup(g.rules, x, x.id);
    if former.Some? {
      DistinctLookup(g.rules, former.value);
    } else {
      LookupIds(g.rules, x.id);
    }
  }

  lemma UsedBy(rules: seq<Item<Rule>>, x: Item<Rule>)
    requires x in rules
    ensures SetOf(x.body.conditions) <= UsedConditions(rules)
  {
  }

  lemma KeptNeedsMet(all: seq<Item<Condition>>, previous: seq<Id>, used: set<Id>, ids: seq<Id>, ns: seq<Need>)
    requires NeedsMet(all, ids, ns) && SetOf(ids) <= used
    ensures NeedsMet(DropUnused(all, previous, used), ids, ns)
  {
    forall i | 0 <= i < |ids|
      ensures Lookup(DropUnused(all, previous, used), ids[i]) == Lookup(all, ids[i])
    {
      assert ids[i] in SetOf(ids);
      DropUnusedLookup(all, previous, used, ids[i]);
    }
  }

  // ----- every port carries the rule -----

  ghost predicate Carries(l: Item<Listener>, port: nat, ssl: bool, rule: Id, cert: Option<Id>) {
    Serving(port, ssl)(l) && rule in l.body.rules && (cert.Some? ==> cert.value in l.body.certificates)
  }

  /** A listener that was given the rule carries it on the port. */
  ghost predicate ServedBy(s: Served, port: nat, ssl: bool, rule: Id, cert: Option<Id>) {
    exists l :: l in s.listeners && l.id in s.ids && Carries(l, port, ssl, rule, cert)
  }

  lemma CarryingKeeps(rules: seq<Item<Rule>>, l: Item<Listener>, port: nat, ssl: bool, rule: Id, cert: Option<Id>)
    requires Serving(port, ssl)(l)
    ensures Carries(Carrying(rules, l, rule, cert), port, ssl, rule, cert)
  {
    RuleOrder.PlaceKeepsOthers(rules, l.body.rules, rule);
    assert rule in SetOf(Carrying(rules, l, rule, cert).body.rules);
  }

  lemma ListenerForCarries(mint: Mint, rules: seq<Item<Rule>>, ls: seq<Item<Listener>>, port: nat, ssl: bool,
          rule: Id, cert: Option<Id>)
    ensures Carries(ListenerFor(mint, rules, ls, port, ssl, rule, cert), port, ssl, rule, cert)
  {
    var l := Find(ls, Serving(port, ssl)).Or(NewListener(mint, ls, port, ssl));
    if Find(ls, Serving(port, ssl)).None? {
      assert l.body.binds[0].port == port;
      assert BindsPort(l.body, port);
    }
    CarryingKeeps(rules, l, port, ssl, rule, cert);
  }

  lemma ServedListenerIs(mint: Mint, rules: seq<Item<Rule>>, ls: seq<Item<Listener>>, port: nat, ssl: bool, rule: Id,
          cert: Option<Id>, k: Item<Listener>)
    requires Generates(mint) && Distinct(ls) && k in ls
    requires k.id == ListenerFor(mint, rules, ls, port, ssl, rule, cert).id
    ensures ListenerFor(mint, rules, ls, port, ssl, rule, cert) == Carrying(rules, k, rule, cert)
  {
    assert k.id in Ids(ls);
    var f := Find(ls, Serving(port, ssl));
    assert f.Some?;
    DistinctLookup(ls, k);
    DistinctLookup(ls, f.value);
  }

  lemma ServeOneDistinct(mint: Mint, rules: seq<Item<Rule>>, s: Served, port: nat, ssl: bool, rule: Id,
          cert: Option<Id>)
    requires Generates(mint) && Distinct(s.listeners)
    ensures Distinct(ServeOne(mint, rules, s, port, ssl, rule, cert).listeners)
  {
    var f := Find(s.listeners, Serving(port, ssl));
    var l := ListenerFor(mint, rules, s.listeners, port, ssl, rule, cert);
    if f.Some? {
      FoundFits(s.listeners, f.value, l);
    } else {
      UniqueIsFree(NamesOf(s.listeners), PortName(port, ssl));
      NewFits(s.listeners, l);
    }
    UpsertFits(s.listeners, l);
  }

  lemma {:induction false} ServeAllBy(mint: Mint, rules: seq<Item<Rule>>, s: Served, ports: seq<nat>, ssl: bool,
          rule: Id, cert: Option<Id>, p: nat)
    requires Generates(mint) && Distinct(s.listeners)
    requires ServeAll(mint, rules, s, ports, ssl, rule, cert).Some?
    requires p in ports || ServedBy(s, p, ssl, rule, cert)
    ensures ServedBy(ServeAll(mint, rules, s, ports, ssl, rule, cert).value, p, ssl, rule, cert)
    decreases |ports|
  {
    if ports != [] {
      ServeOneBy(mint, rules, s, ports[0], ssl, rule, cert, p);
      ServeOneDistinct(mint, rules, s, ports[0], ssl, rule, cert);
      ServeAllBy(mint, rules, ServeOne(mint, rules, s, ports[0], ssl, rule, cert), ports[1..], ssl, rule, cert, p);
    }
  }

  /** Serving one port leaves the others served. */
  lemma ServeOneBy(mint: Mint, rules: seq<Item<Rule>>, s: Served, port: nat, ssl: bool, rule: Id, cert: Option<Id>,
          other: nat)
    requires Generates(mint) && Distinct(s.listeners)
    ensures ServedBy(ServeOne(mint, rules, s, port, ssl, rule, cert), port, ssl, rule, cert)
    ensures ServedBy(s, other, ssl, rule, cert) ==>
        ServedBy(ServeOne(mint, rules, s, port, ssl, rule, cert), other, ssl, rule, cert)
  {
    var l := ListenerFor(mint, rules, s.listeners, port, ssl, rule, cert);
    ListenerForCarries(mint, rules, s.listeners, port, ssl, rule, cert);
    UpsertMembers(s.listeners, l, l);
    if ServedBy(s, other, ssl, rule, cert) {
      var k :| k in s.listeners && k.id in s.ids && Carries(k, other, ssl, rule, cert);
      UpsertMembers(s.listeners, l, k);
      if k.id == l.id {
        ServedListenerIs(mint, rules, s.listeners, port, ssl, rule, cert, k);
        CarryingKeeps(rules, k, other, ssl, rule, cert);
      }
    }
  }

  lemma {:induction false} ReleaseMember(ls: seq<Item<Listener>>, serving: seq<Id>, rule: Id, l: Item<Listener>)
    requires l in ls
    ensures (if l.id in serving then l else l.(body := l.body.(rules := RuleOrder.Others(l.body.rules, rule))))
            in Release(ls, serving, rule)
  {
    if l != ls[0] {
      ReleaseMember(ls[1..], serving, rule, l);
    }
  }

  lemma {:induction false} ReleaseOnly(ls: seq<Item<Listener>>, serving: seq<Id>, rule: Id, l: Item<Listener>)
    requires l in Release(ls, serving, rule)
    ensures l.id in serving || rule !in l.body.rules
  {
    if l == Release(ls, serving, rule)[0] {
      RuleOrder.OthersMember(ls[0].body.rules, rule, rule);
    } else {
      ReleaseOnly(ls[1..], serving, rule, l);
    }
  }

  /** A listener that was given the rule is on one of the ports. */
  ghost predicate ServesOnly(s: Served, ports: seq<nat>, ssl: bool) {
    forall l :: l in s.listeners && l.id in s.ids ==> exists p :: p in ports && Serving(p, ssl)(l)
  }

  lemma ServeOneOnly(mint: Mint, rules: seq<Item<Rule>>, s: Served, ports: seq<nat>, port: nat, ssl: bool, rule: Id,
          cert: Option<Id>)
    requires Generates(mint) && Distinct(s.listeners) && ServesOnly(s, ports, ssl) && port in ports
    ensures ServesOnly(ServeOne(mint, rules, s, port, ssl, rule, cert), ports, ssl)
  {
    var l := ListenerFor(mint, rules, s.listeners, port, ssl, rule, cert);
    var t := ServeOne(mint, rules, s, port, ssl, rule, cert);
    ListenerForCarries(mint, rules, s.listeners, port, ssl, rule, cert);
    forall k | k in t.listeners && k.id in t.ids
      ensures exists p :: p in ports && Serving(p, ssl)(k)
    {
      UpsertMembers(s.listeners, l, k);
      if k == l {
        assert Serving(port, ssl)(k);
      } else {
        assert k.id in s.ids;
      }
    }
  }

  lemma {:induction false} ServeAllOnly(mint: Mint, rules: seq<Item<Rule>>, s: Served, all: seq<nat>, ports: seq<nat>,
          ssl: bool, rule: Id, cert: Option<Id>)
    requires Generates(mint) && Distinct(s.listeners) && ServesOnly(s, all, ssl)
    requires forall p :: p in ports ==> p in all
    requires ServeAll(mint, rules, s, ports, ssl, rule, cert).Some?
    ensures ServesOnly(ServeAll(mint, rules, s, ports, ssl, rule, cert).value, all, ssl)
    decreases |ports|
  {
    if ports != [] {
      ServeOneOnly(mint, rules, s, all, ports[0], ssl, rule, cert);
      ServeOneDistinct(mint, rules, s, ports[0], ssl, rule, cert);
      ServeAllOnly(mint, rules, ServeOne(mint, rules, s, ports[0], ssl, rule, cert), all, ports[1..], ssl, rule, cert);
    }
  }

  lemma {:induction false} ReleaseFrom(ls: seq<Item<Listener>>, serving: seq<Id>, rule: Id, l: Item<Listener>)
    requires l in Release(ls, serving, rule) && l.id in serving
    ensures l in ls
  {
    if l != Release(ls, serving, rule)[0] {
      ReleaseFrom(ls[1..], serving, rule, l);
    }
  }

  /** Each port has a listener that carries the rule and the certificate. */
  ghost predicate PortsCarried(ls: seq<Item<Listener>>, ports: seq<nat>, ssl: bool, rule: Id, cert: Option<Id>) {
    forall p :: p in ports ==> PortCarried(ls, p, ssl, rule, cert)
  }

  ghost predicate PortCarried(ls: seq<Item<Listener>>, port: nat, ssl: bool, rule: Id, cert: Option<Id>) {
    exists l :: l in ls && Carries(l, port, ssl, rule, cert)
  }

  ghost predicate OnOneOf(l: Item<Listener>, ports: seq<nat>, ssl: bool) {
    exists p :: p in ports && Serving(p, ssl)(l)
  }

  /** Every listener that carries the rule is on one of the ports. */
  ghost predicate CarriedOnly(ls: seq<Item<Listener>>, ports: seq<nat>, ssl: bool, rule: Id) {
    forall l :: l in ls && rule in l.body.rules ==> OnOneOf(l, ports, ssl)
  }

  /** Some listener on port 80 without TLS sends its requests on to https. */
  ghost predicate RedirectsPlain(ls: seq<Item<Listener>>) {
    exists l :: l in ls && PlainOn80()(l) && l.body.toHttps
  }

  function Kept(s: Served, rule: Id, edited: bool): seq<Item<Listener>> {
    if edited then Release(s.listeners, s.ids, rule) else s.listeners
  }

  lemma KeptCarries(s: Served, ports: seq<nat>, ssl: bool, rule: Id, cert: Option<Id>, edited: bool)
    requires forall p :: p in ports ==> ServedBy(s, p, ssl, rule, cert)
    ensures PortsCarried(Kept(s, rule, edited), ports, ssl, rule, cert)
  {
    forall p | p in ports
      ensures PortCarried(Kept(s, rule, edited), p, ssl, rule, cert)
    {
      var l :| l in s.listeners && l.id in s.ids && Carries(l, p, ssl, rule, cert);
      ReleaseMember(s.listeners, s.ids, rule, l);
    }
  }

  lemma ReleaseServesOnly(s: Served, ports: seq<nat>, ssl: bool, rule: Id)
    requires ServesOnly(s, ports, ssl)
    ensures CarriedOnly(Release(s.listeners, s.ids, rule), ports, ssl, rule)
  {
    forall l | l in Release(s.listeners, s.ids, rule) && rule in l.body.rules
      ensures OnOneOf(l, ports, ssl)
    {
      ReleaseOnly(s.listeners, s.ids, rule, l);
      ReleaseFrom(s.listeners, s.ids, rule, l);
    }
  }

  /** The redirect is not one of the https listeners. */
  lemma RedirectKeeps(mint: Mint, ls: seq<Item<Listener>>, p: nat, rule: Id, cert: Option<Id>)
    requires Generates(mint) && Distinct(ls) && PortCarried(ls, p, true, rule, cert)
    ensures PortCarried(Upsert(ls, RedirectFor(mint, ls)), p, true, rule, cert)
  {
    var x := RedirectFor(mint, ls);
    var l :| l in ls && Carries(l, p, true, rule, cert);
    UpsertMembers(ls, x, l);
    if l.id == x.id {
      RedirectIs(mint, ls, l);
    }
  }

  lemma RedirectIs(mint: Mint, ls: seq<Item<Listener>>, l: Item<Listener>)
    requires Generates(mint) && Distinct(ls) && l in ls && l.id == RedirectFor(mint, ls).id
    ensures PlainOn80()(l) && RedirectFor(mint, ls).body == l.body.(toHttps := true)
  {
    assert l.id in Ids(ls);
    var f := Find(ls, PlainOn80());
    assert f.Some?;
    DistinctLookup(ls, l);
    DistinctLookup(ls, f.value);
  }

  lemma RedirectThere(mint: Mint, ls: seq<Item<Listener>>)
    requires Distinct(ls)
    ensures RedirectsPlain(Upsert(ls, RedirectFor(mint, ls)))
  {
    var x := RedirectFor(mint, ls);
    UpsertMembers(ls, x, x);
    if Find(ls, PlainOn80()).None? {
      assert x.body.binds[0].port == 80;
      assert BindsPort(x.body, 80);
    }
    assert PlainOn80()(x);
  }

  lemma RedirectServesOnly(mint: Mint, ls: seq<Item<Listener>>, ports: seq<nat>, rule: Id, l: Item<Listener>)
    requires Generates(mint) && Distinct(ls) && l in Upsert(ls, RedirectFor(mint, ls)) && rule in l.body.rules
    requires CarriedOnly(ls, ports, true, rule)
    ensures OnOneOf(l, ports, true)
  {
    var x := RedirectFor(mint, ls);
    UpsertMembers(ls, x, l);
    var f := Find(ls, PlainOn80());
    assert f.Some? ==> f.value in ls && f.value.body.rules == x.body.rules;
  }

  lemma {:induction false} ReleaseDistinct(ls: seq<Item<Listener>>, serving: seq<Id>, rule: Id)
    requires Distinct(ls)
    ensures Distinct(Release(ls, serving, rule))
    ensures Ids(Release(ls, serving, rule)) == Ids(ls) && NamesOf(Release(ls, serving, rule)) == NamesOf(ls)
  {
    if ls != [] {
      ReleaseDistinct(ls[1..], serving, rule);
      IdsCons(ls[0], ls[1..]);
      assert [ls[0]] + ls[1..] == ls;
      IdsCons(Release(ls, serving, rule)[0], Release(ls[1..], serving, rule));
    }
  }

  lemma {:induction false} ServeAllDistinct(mint: Mint, rules: seq<Item<Rule>>, s: Served, ports: seq<nat>, ssl: bool,
          rule: Id, cert: Option<Id>)
    requires Generates(mint) && Distinct(s.listeners) && ServeAll(mint, rules, s, ports, ssl, rule, cert).Some?
    ensures Distinct(ServeAll(mint, rules, s, ports, ssl, rule, cert).value.listeners)
    decreases |ports|
  {
    if ports != [] {
      ServeOneDistinct(mint, rules, s, ports[0], ssl, rule, cert);
      ServeAllDistinct(mint, rules, ServeOne(mint, rules, s, ports[0], ssl, rule, cert), ports[1..], ssl, rule, cert);
    }
  }

  lemma AfterRedirect(mint: Mint, kept: seq<Item<Listener>>, ports: seq<nat>, rule: Id, cert: Option<Id>)
    requires Generates(mint) && Distinct(kept) && PortsCarried(kept, ports, true, rule, cert)
    ensures PortsCarried(Upsert(kept, RedirectFor(mint, kept)), ports, true, rule, cert)
    ensures CarriedOnly(kept, ports, true, rule) ==>
        CarriedOnly(Upsert(kept, RedirectFor(mint, kept)), ports, true, rule)
  {
    forall p | p in ports
      ensures PortCarried(Upsert(kept, RedirectFor(mint, kept)), p, true, rule, cert)
    {
      RedirectKeeps(mint, kept, p, rule, cert);
    }
    if CarriedOnly(kept, ports, true, rule) {
      forall l | l in Upsert(kept, RedirectFor(mint, kept)) && rule in l.body.rules
        ensures OnOneOf(l, ports, true)
      {
        RedirectServesOnly(mint, kept, ports, rule, l);
      }
    }
  }

  /** Each port carries the rule, an edited service's rule is carried nowhere else,
      and plain requests are sent on to https. */
  ghost predicate ListenersServe(ls: seq<Item<Listener>>, r: Request, rule: Id, cert: Option<Id>, edited: bool)
    requires r.urls != []
  {
    var ssl := r.urls[0].scheme == Https;
    PortsCarried(ls, Ports(r), ssl, rule, cert)
    && (edited ==> CarriedOnly(ls, Ports(r), ssl, rule))
    && (ssl && r.httpRedirect ==> RedirectsPlain(ls))
  }

  lemma ServedAllPorts(mint: Mint, rules: seq<Item<Rule>>, ls: seq<Item<Listener>>, ports: seq<nat>, ssl: bool,
          rule: Id, cert: Option<Id>)
    requires Generates(mint) && Distinct(ls) && ServeAll(mint, rules, Served(ls, []), ports, ssl, rule, cert).Some?
    ensures var s := ServeAll(mint, rules, Served(ls, []), ports, ssl, rule, cert).value;
            Distinct(s.listeners) && Distinct(Release(s.listeners, s.ids, rule)) && ServesOnly(s, ports, ssl)
            && PortsCarried(s.listeners, ports, ssl, rule, cert)
            && PortsCarried(Release(s.listeners, s.ids, rule), ports, ssl, rule, cert)
  {
    var start := Served(ls, []);
    var s := ServeAll(mint, rules, start, ports, ssl, rule, cert).value;
    ServeAllDistinct(mint, rules, start, ports, ssl, rule, cert);
    ServeAllOnly(mint, rules, start, ports, ports, ssl, rule, cert);
    ReleaseDistinct(s.listeners, s.ids, rule);
    forall p | p in ports
      ensures ServedBy(s, p, ssl, rule, cert)
    {
      ServeAllBy(mint, rules, start, ports, ssl, rule, cert, p);
    }
    KeptCarries(s, ports, ssl, rule, cert, true);
    KeptCarries(s, ports, ssl, rule, cert, false);
  }

  function Redirected(mint: Mint, ls: seq<Item<Listener>>, redirect: bool): seq<Item<Listener>> {
    if redirect then Upsert(ls, RedirectFor(mint, ls)) else ls
  }

  lemma RedirectedServes(mint: Mint, kept: seq<Item<Listener>>, ports: seq<nat>, ssl: bool, rule: Id,
          cert: Option<Id>, redirect: bool)
    requires Generates(mint) && Distinct(kept) && PortsCarried(kept, ports, ssl, rule, cert) && (redirect ==> ssl)
    ensures PortsCarried(Redirected(mint, kept, redirect), ports, ssl, rule, cert)
    ensures CarriedOnly(kept, ports, ssl, rule) ==> CarriedOnly(Redirected(mint, kept, redirect), ports, ssl, rule)
    ensures redirect ==> RedirectsPlain(Redirected(mint, kept, redirect))
  {
    if redirect {
      AfterRedirect(mint, kept, ports, rule, cert);
      RedirectThere(mint, kept);
    }
  }

  lemma KeptServes(mint: Mint, rules: seq<Item<Rule>>, ls: seq<Item<Listener>>, ports: seq<nat>, ssl: bool, rule: Id,
          cert: Option<Id>, edited: bool)
    requires Generates(mint) && Distinct(ls) && ServeAll(mint, rules, Served(ls, []), ports, ssl, rule, cert).Some?
    ensures var kept := Kept(ServeAll(mint, rules, Served(ls, []), ports, ssl, rule, cert).value, rule, edited);
            Distinct(kept) && PortsCarried(kept, ports, ssl, rule, cert)
                && (edited ==> CarriedOnly(kept, ports, ssl, rule))
  {
    ServedAllPorts(mint, rules, ls, ports, ssl, rule, cert);
    ReleaseServesOnly(ServeAll(mint, rules, Served(ls, []), ports, ssl, rule, cert).value, ports, ssl, rule);
  }

  lemma ListenerStepIs(s: Routing, r: Request, mint: Mint, edited: bool)
    requires r.urls != [] && ListenerStep(s, r, mint, edited).Some?
    ensures var ssl := r.urls[0].scheme == Https;
            var served := ServeAll(mint, s.graph.rules, Served(s.graph.listeners, []), Ports(r), ssl, s.rule, s.cert);
            served.Some? && ListenerStep(s, r, mint, edited).value.listeners
                         == Redirected(mint, Kept(served.value, s.rule, edited), ssl && r.httpRedirect)
  {
  }

  lemma ListenerStepServes(s: Routing, r: Request, mint: Mint, edited: bool)
    requires r.urls != [] && Generates(mint) && Distinct(s.graph.listeners)
    requires ListenerStep(s, r, mint, edited).Some?
    ensures ListenersServe(ListenerStep(s, r, mint, edited).value.listeners, r, s.rule, s.cert, edited)
  {
    var ssl := r.urls[0].scheme == Https;
    ListenerStepIs(s, r, mint, edited);
    KeptServes(mint, s.graph.rules, s.graph.listeners, Ports(r), ssl, s.rule, s.cert, edited);
    var served := ServeAll(mint, s.graph.rules, Served(s.graph.listeners, []), Ports(r), ssl, s.rule, s.cert).value;
    RedirectedServes(mint, Kept(served, s.rule, edited), Ports(r), ssl, s.rule, s.cert, ssl && r.httpRedirect);
  }

  // ----- the whole -----

  function OldHostsOf(g: Graph, r: Request): seq<string> {
    OldHosts(g.conditions, if ExistingRule(g, r).Some? then ExistingRule(g, r).value.body.conditions else [])
  }

  /** What the http or https request changed before its listeners. */
  function RoutingOf(g: Graph, r: Request, mint: Mint): Routing
    requires r.urls != []
  {
    var b := BackendStep(g, r, mint);
    CertificateStep(RuleStep(b.graph, r, mint, ExistingRule(g, r), b.pool), r, mint, OldHostsOf(g, r))
  }

  /** What of the configuration each part of the publication set. */
  lemma PublishedParts(g: Graph, r: Request, mint: Mint)
    requires r.urls != [] && !IsTcp(r) && Generates(mint) && WellFormed(g) && Published(g, r, mint).Some?
    ensures var after, t, b := Published(g, r, mint).value, RoutingOf(g, r, mint), BackendStep(g, r, mint);
            var s := RuleStep(b.graph, r, mint, ExistingRule(g, r), b.pool);
            ListenerStep(t, r, mint, ExistingRule(g, r).Some?) == Some(after) && t.graph.listeners == g.listeners
            && after.servers == b.graph.servers && after.pools == b.graph.pools
            && after.conditions == s.graph.conditions && after.rules == s.graph.rules && t.rule == s.rule
            && after.certificates == t.graph.certificates
  {
  }

  lemma RoutingServes(g: Graph, r: Request, mint: Mint)
    requires r.urls != [] && Generates(mint) && WellFormed(g)
    ensures var b := BackendStep(g, r, mint);
            var s := RuleStep(b.graph, r, mint, ExistingRule(g, r), b.pool);
            Distinct(s.graph.conditions) && RuleServes(s.graph, r, s.rule, b.pool) && PoolServes(b.graph, r, b.pool)
            && b.graph.conditions == g.conditions && b.graph.rules == g.rules
  {
    var b := BackendStep(g, r, mint);
    BackendStepOk(g, r, mint);
    BackendServes(g, r, mint);
    RuleStepOk(b.graph, Ids(g.pools), r, mint, ExistingRule(g, r), b.pool);
    RuleStepServes(b.graph, r, mint, ExistingRule(g, r), b.pool);
  }

  lemma CertificatePut(g: Graph, r: Request, mint: Mint)
    requires r.urls != [] && Generates(mint) && WellFormed(g) && WantsCertificate(r)
    ensures RoutingOf(g, r, mint).cert.Some?
    ensures RoutingOf(g, r, mint).cert.value in Ids(RoutingOf(g, r, mint).graph.certificates)
  {
    UpsertIds(g.certificates, CertificateFor(r, mint, g.certificates, OldHostsOf(g, r)));
  }

  /** Publishing an http or https service serves it: the pool holds the targets, the
      rule goes to the pool and needs the names and the path, and every port of the
      request carries it. */
  lemma PublishServesWeb(g: Graph, r: Request, mint: Mint)
    requires r.urls != [] && !IsTcp(r) && Generates(mint) && WellFormed(g) && Published(g, r, mint).Some?
    ensures var after := Published(g, r, mint).value;
            var pool, rule, cert := BackendStep(g, r, mint).pool, RoutingOf(g, r, mint).rule,
                RoutingOf(g, r, mint).cert;
            PoolServes(after, r, pool) && RuleServes(after, r, rule, pool) && KindKept(g.rules, after.rules, rule)
            && ListenersServe(after.listeners, r, rule, cert, ExistingRule(g, r).Some?)
            && (WantsCertificate(r) ==> cert.Some? && cert.value in Ids(after.certificates))
  {
    PublishedParts(g, r, mint);
    RoutingServes(g, r, mint);
    RuleStepKind(BackendStep(g, r, mint).graph, r, mint, ExistingRule(g, r), BackendStep(g, r, mint).pool);
    ListenerStepServes(RoutingOf(g, r, mint), r, mint, ExistingRule(g, r).Some?);
    if WantsCertificate(r) {
      CertificatePut(g, r, mint);
    }
  }

  /** Publishing a tcp service sends its port to the pool that holds the targets. */
  lemma PublishServesTcp(g: Graph, r: Request, mint: Mint)
    requires r.urls != [] && IsTcp(r) && Generates(mint) && WellFormed(g) && Published(g, r, mint).Some?
    ensures var after, pool := Published(g, r, mint).value, BackendStep(g, r, mint).pool;
            PoolServes(after, r, pool)
            && TcpServed(after.listeners, r.urls[0].port, pool)
  {
    BackendServes(g, r, mint);
    TcpStepServes(r, mint, g.listeners, r.urls[0], ExistingListener(g, r), BackendStep(g, r, mint).pool);
  }

  ghost predicate TcpServed(ls: seq<Item<Listener>>, port: nat, pool: Id) {
    exists l :: l in ls && BindsPort(l.body, port) && l.body.tcp && l.body.defaultPool == Some(pool)
  }

  lemma TcpStepServes(r: Request, mint: Mint, ls: seq<Item<Listener>>, u: Url, edited: Option<Item<Listener>>, pool: Id)
    requires Distinct(ls) && TcpStep(r, mint, ls, u, edited, pool).Some?
    ensures TcpServed(TcpStep(r, mint, ls, u, edited, pool).value, u.port, pool)
  {
    var l := TcpListener(ls, u, edited).Or(NewTcpListener(r, mint, ls, u));
    var x := l.(body := l.body.(defaultPool := Some(pool)));
    UpsertMembers(ls, x, x);
    if edited.Some? || Find(ls, OnPort(u.port)).None? {
      assert l.body.binds[0].port == u.port;
    }
    assert BindsPort(x.body, u.port);
  }
}
