/** What publishing writes into the objects it touches, field by field, said of the
    request and the configuration before, without the steps that write it. */
module PublishEffects {
  import opened Options
  import opened Names
  import opened Collections
  import opened ServiceGraph
  import opened CertificateMatch
  import opened PublishSpec
  import opened PublishWellFormed
  import opened PublishServes
  import opened PublishAnswers
  import opened PublishCertificate
  import opened PublishFrame

  // ----- which service is edited -----

  /** Editing by rule: that rule and the pool it has, if they exist. */
  lemma EditedRuleKept(g: Graph, r: Request, mint: Mint, id: Id)
    requires r.urls != [] && r.service == RuleService(id) && Lookup(g.rules, id).Some?
    ensures RoutingOf(g, r, mint).rule == id
    ensures var p := Lookup(g.rules, id).value.body.pool;
            p.Some? && Lookup(g.pools, p.value).Some? ==> BackendStep(g, r, mint).pool == p.value
  {
  }

  /** Editing a tcp listener: the pool it sends to, if that exists. */
  lemma EditedListenerKept(g: Graph, r: Request, mint: Mint, id: Id)
    requires r.service == ListenerService(id) && Lookup(g.listeners, id).Some?
    ensures var p := Lookup(g.listeners, id).value.body.defaultPool;
            p.Some? && Lookup(g.pools, p.value).Some? ==> BackendStep(g, r, mint).pool == p.value
  {
  }

  // ----- servers -----

  /** A server that was there keeps what the request says nothing of; a new one is the
      wizard's. */
  ghost predicate ServerAsAsked(was: Option<Item<Server>>, now: Option<Item<Server>>, r: Request) {
    now.Some? &&
    var s := now.value.body;
    && s.checkPort == (if r.checkPort != 0 then r.checkPort else if was.Some? then was.value.body.checkPort else 0)
    && s.proxyProtocol == (if r.proxyProtocol.Some? then r.proxyProtocol.value
                           else if was.Some? then was.value.body.proxyProtocol else "")
    && s.wizardMade == (was.Some? ==> was.value.body.wizardMade)
    && (was.Some? ==> now.value.name == was.value.name)
  }

  ghost predicate ClaimedAsAsked(before: seq<Item<Server>>, c: Claims, r: Request) {
    forall id :: id in c.ids ==> ServerAsAsked(Lookup(before, id), Lookup(c.servers, id), r)
  }

  /** A server that was not claimed is as it was. */
  ghost predicate UnclaimedSame(before: seq<Item<Server>>, c: Claims) {
    forall id :: id !in c.ids ==> Lookup(c.servers, id) == Lookup(before, id)
  }

  lemma ClaimOneAsks(before: seq<Item<Server>>, r: Request, mint: Mint, c: Claims, t: Target)
    requires Generates(mint) && ClaimsOk(c) && ClaimedAsAsked(before, c, r) && UnclaimedSame(before, c)
    ensures ClaimedAsAsked(before, ClaimOne(r, mint, c, t), r) && UnclaimedSame(before, ClaimOne(r, mint, c, t))
  {
    var f := ServerFor(r, mint, c.servers, t, c.ids);
    var s := Configured(r, f);
    ServerForFits(r, mint, c, t);
    NewOrKept(r, mint, c, t);
    forall id
      ensures Lookup(Upsert(c.servers, s), id) == if id == s.id then Some(s) else Lookup(c.servers, id)
    {
      UpsertLookup(c.servers, s, id);
    }
  }

  /** The server for a target is one not claimed yet, moved at most, or a new one. */
  lemma NewOrKept(r: Request, mint: Mint, c: Claims, t: Target)
    requires Generates(mint) && ClaimsOk(c)
    ensures var f := ServerFor(r, mint, c.servers, t, c.ids);
            var was := Lookup(c.servers, f.id);
            f.id !in c.ids &&
            if was.Some?
            then f.name == was.value.name && f.body.checkPort == was.value.body.checkPort
                 && f.body.proxyProtocol == was.value.body.proxyProtocol
                 && f.body.wizardMade == was.value.body.wizardMade
            else f.body.checkPort == 0 && f.body.proxyProtocol == "" && f.body.wizardMade
  {
    ServerForFits(r, mint, c, t);
    if t.serverName != "" && Find(c.servers, ByName(t, c.ids)).Some? {
      DistinctLookup(c.servers, Find(c.servers, ByName(t, c.ids)).value);
    } else if Find(c.servers, ByAddress(t, c.ids)).Some? {
      DistinctLookup(c.servers, Find(c.servers, ByAddress(t, c.ids)).value);
    } else {
      LookupIds(c.servers, mint(Ids(c.servers)));
    }
  }

  lemma {:induction false} ClaimAllAsks(before: seq<Item<Server>>, r: Request, mint: Mint, c: Claims, ts: seq<Target>)
    requires Generates(mint) && ClaimsOk(c) && ClaimedAsAsked(before, c, r) && UnclaimedSame(before, c)
    ensures ClaimedAsAsked(before, ClaimAll(r, mint, c, ts), r) && UnclaimedSame(before, ClaimAll(r, mint, c, ts))
    decreases |ts|
  {
    if ts != [] {
      ClaimOneAsks(before, r, mint, c, ts[0]);
      ClaimOneOk(r, mint, c, ts[0]);
      ClaimAllAsks(before, r, mint, ClaimOne(r, mint, c, ts[0]), ts[1..]);
    }
  }

  lemma BackendServers(g: Graph, r: Request, mint: Mint)
    requires r.urls != [] && Generates(mint) && WellFormed(g) && Published(g, r, mint).Some?
    ensures var after, claims := Published(g, r, mint).value, ClaimAll(r, mint, Claims(g.servers, []), r.targets);
            Lookup(after.pools, BackendStep(g, r, mint).pool).Some?
            && Lookup(after.pools, BackendStep(g, r, mint).pool).value.body.servers == claims.ids
            && after.servers == DropOrphans(claims.servers, PreviousServers(r, g.pools, ExistingPool(g, r)),
                                            Referenced(after.pools))
  {
    var claims := ClaimAll(r, mint, Claims(g.servers, []), r.targets);
    var choice := MonitorStep(r, mint, g.monitors, OwnMonitor(g, r), Shared(g, r));
    var p := PoolFor(r, mint, g.pools, ExistingPool(g, r), claims.ids, choice.monitor);
    UpsertLookup(g.pools, p, p.id);
    if !IsTcp(r) {
      PublishedParts(g, r, mint);
    }
  }

  /** The published pool's servers: the check port and the PROXY protocol asked for, all
      else as it was. */
  lemma PublishedServers(g: Graph, r: Request, mint: Mint, id: Id)
    requires r.urls != [] && Generates(mint) && WellFormed(g) && Published(g, r, mint).Some?
    requires Lookup(Published(g, r, mint).value.pools, BackendStep(g, r, mint).pool).Some?
    requires id in Lookup(Published(g, r, mint).value.pools, BackendStep(g, r, mint).pool).value.body.servers
    ensures ServerAsAsked(Lookup(g.servers, id), Lookup(Published(g, r, mint).value.servers, id), r)
  {
    var after := Published(g, r, mint).value;
    var p := Lookup(after.pools, BackendStep(g, r, mint).pool).value;
    var start := Claims(g.servers, []);
    BackendServers(g, r, mint);
    ClaimAllAsks(g.servers, r, mint, start, r.targets);
    ReferencedBy(after.pools, p);
    assert id in SetOf(p.body.servers);
    DropOrphansLookup(ClaimAll(r, mint, start, r.targets).servers, PreviousServers(r, g.pools, ExistingPool(g, r)),
                      Referenced(after.pools), id);
  }

  /** A server that no pool lists afterwards: gone when the wizard made it and the pool
      that was taken listed it; and else as it was. */
  lemma UnlistedServers(g: Graph, r: Request, mint: Mint, id: Id)
    requires r.urls != [] && Generates(mint) && WellFormed(g) && Published(g, r, mint).Some?
    requires forall b :: b in Published(g, r, mint).value.pools ==> id !in b.body.servers
    ensures Lookup(Published(g, r, mint).value.servers, id) ==
            if (exists b :: b in g.pools && Takes(g, r, b.id) && id in b.body.servers)
               && Lookup(g.servers, id).Some? && Lookup(g.servers, id).value.body.wizardMade
            then None else Lookup(g.servers, id)
  {
    var after := Published(g, r, mint).value;
    var start := Claims(g.servers, []);
    var claims, previous := ClaimAll(r, mint, start, r.targets), PreviousServers(r, g.pools, ExistingPool(g, r));
    BackendServers(g, r, mint);
    ClaimAllAsks(g.servers, r, mint, start, r.targets);
    assert Lookup(after.pools, BackendStep(g, r, mint).pool).value in after.pools;
    assert id !in claims.ids && id !in Referenced(after.pools);
    DroppedOrphans(claims.servers, previous, Referenced(after.pools), id);
    var former := OldPool(r, g.pools, ExistingPool(g, r));
    if former.Some? {
      forall b | b in g.pools && b.id == former.value.id
        ensures b == former.value
      {
        DistinctLookup(g.pools, b);
        DistinctLookup(g.pools, former.value);
      }
    }
  }

  // ----- the pool -----

  /** The pool of the service. A new one is called after the service; one found by that
      name keeps it; one that is edited is called anew only when a name is given and it is
      not called that already. Its options are those asked for, over those it had. */
  lemma PublishedPool(g: Graph, r: Request, mint: Mint)
    requires r.urls != [] && Generates(mint) && WellFormed(g) && Published(g, r, mint).Some?
    ensures var id := BackendStep(g, r, mint).pool;
            var was, now := Lookup(g.pools, id), Lookup(Published(g, r, mint).value.pools, id);
            now.Some?
            && (was.None? ==> CalledAfter(now.value.name, r.base, NamesOf(g.pools)))
            && (was.Some? ==>
                  if ExistingPool(g, r) == was && r.named && was.value.name != Secure(r.base)
                  then CalledAfter(now.value.name, r.base, NamesOf(Without(g.pools, id)))
                  else now.value.name == was.value.name)
            && forall k ::
              (k in now.value.body.options <==> k in r.poolOptions || (was.Some? && k in was.value.body.options))
              && (k in r.poolOptions ==> now.value.body.options[k] == r.poolOptions[k])
              && (k !in r.poolOptions && was.Some? && k in was.value.body.options ==>
                    now.value.body.options[k] == was.value.body.options[k])
  {
    var claims := ClaimAll(r, mint, Claims(g.servers, []), r.targets);
    var choice := MonitorStep(r, mint, g.monitors, OwnMonitor(g, r), Shared(g, r));
    var own := ExistingPool(g, r);
    var p := PoolFor(r, mint, g.pools, own, claims.ids, choice.monitor);
    UpsertLookup(g.pools, p, p.id);
    UniqueIsFree(NamesOf(g.pools), r.base);
    UniqueIsFree(NamesOf(Without(g.pools, p.id)), r.base);
    LookupIds(g.pools, p.id);
    var former := OldPool(r, g.pools, own);
    if former.Some? {
      DistinctLookup(g.pools, former.value);
    }
    if !IsTcp(r) {
      PublishedParts(g, r, mint);
    }
  }

  /** A name that nothing has yet: the one wanted, cleaned, when that is free. */
  ghost predicate CalledAfter(name: string, wanted: string, taken: set<string>) {
    name !in taken && (Secure(wanted) !in taken ==> name == Secure(wanted))
  }

  // ----- new servers and listeners -----

  /** A target that no unclaimed server has the name or the address of gets a new server,
      called as the target says, or after the service, or after the service and the address;
      a target at the address of one gets none. */
  lemma ServerForTarget(r: Request, mint: Mint, servers: seq<Item<Server>>, t: Target, claimed: seq<Id>)
    requires Generates(mint)
    ensures var s := ServerFor(r, mint, servers, t, claimed);
            var free := forall x :: x in servers && x.id !in claimed ==>
              (t.serverName == "" || x.name != t.serverName)
              && !(x.body.address == t.host && x.body.port == t.port && x.body.ssl == t.https);
            var wanted := if t.serverName != "" then t.serverName
                          else if |r.targets| == 1 then r.base + "-srv"
                          else r.base + "-" + t.host;
            if free then s.id !in Ids(servers) && CalledAfter(s.name, wanted, NamesOf(servers)) && s.body.wizardMade
            else s.id in Ids(servers) && s.id !in claimed
  {
    var free := forall x :: x in servers && x.id !in claimed ==>
      (t.serverName == "" || x.name != t.serverName)
      && !(x.body.address == t.host && x.body.port == t.port && x.body.ssl == t.https);
    UniqueIsFree(NamesOf(servers), ServerName(r, t));
    FindComplete(servers, ByName(t, claimed));
    FindComplete(servers, ByAddress(t, claimed));
    if !free {
      var s := ServerFor(r, mint, servers, t, claimed);
      var x :| x in servers && x.id !in claimed && !((t.serverName == "" || x.name != t.serverName)
        && !(x.body.address == t.host && x.body.port == t.port && x.body.ssl == t.https));
      assert ByName(t, claimed)(x) || ByAddress(t, claimed)(x);
    }
  }

  /** A port that no listener binds gets one of its own, called after the scheme and the
      port, that carries the rule and the certificate and nothing else. */
  lemma NewPortListener(mint: Mint, rules: seq<Item<Rule>>, s: Served, port: nat, ssl: bool, rule: Id, cert: Option<Id>)
    requires Generates(mint) && forall l :: l in s.listeners ==> !Binds(l, port)
    ensures var t := ServeOne(mint, rules, s, port, ssl, rule, cert);
            var l := t.listeners[|t.listeners| - 1];
            t.listeners == s.listeners + [l] && t.ids == s.ids + [l.id]
            && CalledAfter(l.name, (if ssl then "https-" else "http-") + Decimal(port), NamesOf(s.listeners))
            && l.body == Listener(false, ssl, [Bind("0.0.0.0", port)], if cert.Some? then [cert.value] else [],
                                  [rule], None, false)
  {
    var l := ListenerFor(mint, rules, s.listeners, port, ssl, rule, cert);
    NewOnPort(mint, rules, s.listeners, port, ssl, rule, cert);
    UniqueIsFree(NamesOf(s.listeners), PortName(port, ssl));
    UpsertAppends(s.listeners, l);
    NewCarries(rules, NewListener(mint, s.listeners, port, ssl), rule, cert);
  }

  lemma NewOnPort(mint: Mint, rules: seq<Item<Rule>>, ls: seq<Item<Listener>>, port: nat, ssl: bool, rule: Id,
          cert: Option<Id>)
    requires forall l :: l in ls ==> !Binds(l, port)
    ensures ListenerFor(mint, rules, ls, port, ssl, rule, cert)
         == Carrying(rules, NewListener(mint, ls, port, ssl), rule, cert)
  {
  }

  lemma NewCarries(rules: seq<Item<Rule>>, x: Item<Listener>, rule: Id, cert: Option<Id>)
    requires x.body.rules == [] && x.body.certificates == []
    ensures Carrying(rules, x, rule, cert)
         == x.(body := x.body.(rules := [rule], certificates := if cert.Some? then [cert.value] else []))
  {
    assert RuleOrder.Others([], rule) == [];
    assert [] + (if cert.Some? then [cert.value] else []) == if cert.Some? then [cert.value] else [];
  }

  // ----- the rule -----

  /** A rule that is not edited by its id is reused only when it is a route, and over
      exactly the conditions that are needed, all of which are there. */
  lemma ReusedIsRoute(g: Graph, r: Request, x: Item<Rule>)
    requires r.urls != [] && ExistingRule(g, r).None? && RuleTaken(g, r) == Some(x)
    ensures x in g.rules && x.body.useBackend && FoundIds(g.conditions, Needs(r)).Some?
    ensures forall c :: c in x.body.conditions <==> c in FoundIds(g.conditions, Needs(r)).value
  {
    var ids := FoundIds(g.conditions, Needs(r)).value;
    assert SetOf(x.body.conditions) == SetOf(ids);
    assert forall c :: (c in x.body.conditions <==> c in SetOf(x.body.conditions)) && (c in ids <==> c in SetOf(ids));
  }

  /** One over the conditions needed, in any order, is reused. */
  lemma ReusedInAnyOrder(g: Graph, r: Request, ids: seq<Id>, x: Item<Rule>)
    requires r.urls != [] && FoundIds(g.conditions, Needs(r)) == Some(ids)
    requires x in g.rules && x.body.useBackend && forall c :: c in x.body.conditions <==> c in ids
    ensures RuleTaken(g, r).Some?
  {
    assert SetOf(x.body.conditions) == SetOf(ids);
    assert WithConditions(ids)(x);
    FindComplete(g.rules, WithConditions(ids));
  }

  /** What new conditions are called. */
  lemma NeedsNamed(r: Request, i: nat)
    requires r.urls != [] && i < |Needs(r)|
    ensures i < |Hosts(r)| ==>
      Needs(r)[i].wantedName == "host-" + if |Hosts(r)| == 1 then r.base else Secure(Labels(Hosts(r)[i])[0])
    ensures i >= |Hosts(r)| ==> i == |Hosts(r)| && Needs(r)[i].wantedName == "path-" + r.base
  {
    HostNeedsNamed(r, Hosts(r), |Hosts(r)| == 1);
  }

  lemma {:induction false} HostNeedsNamed(r: Request, hosts: seq<string>, single: bool)
    ensures |HostNeeds(r, hosts, single)| == |hosts|
    ensures forall i :: 0 <= i < |hosts| ==>
      HostNeeds(r, hosts, single)[i].wantedName == "host-" + if single then r.base else Secure(Labels(hosts[i])[0])
  {
    if hosts != [] {
      HostNeedsNamed(r, hosts[1..], single);
    }
  }

  /** A condition that is there asks for this: hosts whatever their case, paths to the letter. */
  ghost predicate AskedFor(conditions: seq<Item<Condition>>, n: Need) {
    exists c :: c in conditions && c.body.kind == n.kind
      && (c.body.value == n.value || (n.kind == HostMatches && Lower(c.body.value) == Lower(n.value)))
  }

  lemma FindsAsked(conditions: seq<Item<Condition>>, n: Need)
    ensures Find(conditions, Meets(n)).Some? <==> AskedFor(conditions, n)
  {
    FindComplete(conditions, Meets(n));
    if AskedFor(conditions, n) {
      var c :| c in conditions && c.body.kind == n.kind
        && (c.body.value == n.value || (n.kind == HostMatches && Lower(c.body.value) == Lower(n.value)));
      assert Meets(n)(c);
    }
  }

  lemma {:induction false} NeedAllReuses(mint: Mint, c: Conditions, ns: seq<Need>)
    requires Distinct(c.all) && forall n :: n in ns ==> AskedFor(c.all, n)
    ensures NeedAll(mint, c, ns).all == c.all
    decreases |ns|
  {
    if ns != [] {
      FindsAsked(c.all, ns[0]);
      var x := ConditionFor(mint, c.all, ns[0]);
      DistinctLookup(c.all, x);
      UpsertSame(c.all, x);
      NeedAllReuses(mint, NeedOne(mint, c, ns[0]), ns[1..]);
    }
  }

  /** Where there is a condition for each name and the path, none is made. */
  lemma ConditionsReused(g: Graph, r: Request, mint: Mint, id: Id)
    requires r.urls != [] && !IsTcp(r) && Generates(mint) && WellFormed(g) && Published(g, r, mint).Some?
    requires forall n :: n in Needs(r) ==> AskedFor(g.conditions, n)
    ensures Lookup(Published(g, r, mint).value.conditions, id).Some? ==> Lookup(g.conditions, id).Some?
  {
    var after, start := Published(g, r, mint).value, Conditions(g.conditions, []);
    var c := NeedAll(mint, start, Needs(r));
    PublishedParts(g, r, mint);
    NeedAllReuses(mint, start, Needs(r));
    DropUnusedLookup(c.all, PreviousConditions(g.rules, ExistingRule(g, r), c.ids), UsedConditions(after.rules), id);
  }

  lemma {:induction false} NeedAllAdds(mint: Mint, c: Conditions, ns: seq<Need>, id: Id)
    requires Generates(mint) && ConditionsOk(c) && id in Ids(c.all)
    ensures Lookup(NeedAll(mint, c, ns).all, id) == Lookup(c.all, id)
    decreases |ns|
  {
    if ns != [] {
      var x := ConditionFor(mint, c.all, ns[0]);
      if Find(c.all, Meets(ns[0])).Some? {
        DistinctLookup(c.all, x);
      }
      UpsertLookup(c.all, x, id);
      NeedOneOk(mint, c, ns[0]);
      NeedAllAdds(mint, NeedOne(mint, c, ns[0]), ns[1..], id);
    }
  }

  /** Of the conditions there were, those go that the rule taken tested and no rule tests
      any more; all others stay as they were. */
  lemma ConditionsLeft(g: Graph, r: Request, mint: Mint, id: Id)
    requires r.urls != [] && !IsTcp(r) && Generates(mint) && WellFormed(g) && Published(g, r, mint).Some?
    requires id in Ids(g.conditions)
    ensures var after, x := Published(g, r, mint).value, RuleTaken(g, r);
            Lookup(after.conditions, id) ==
              if x.Some? && id in x.value.body.conditions && forall y :: y in after.rules ==> id !in y.body.conditions
              then None else Lookup(g.conditions, id)
  {
    var after, b, start := Published(g, r, mint).value, BackendStep(g, r, mint), Conditions(g.conditions, []);
    var c := NeedAll(mint, start, Needs(r));
    PublishedParts(g, r, mint);
    TakenIs(g, r, mint, Ids(g.pools));
    NeedAllAdds(mint, start, Needs(r), id);
    DropUnusedLookup(c.all, PreviousConditions(g.rules, ExistingRule(g, r), c.ids), UsedConditions(after.rules), id);
  }

  /** The names an edited service had are those its rule's host conditions ask for. */
  lemma {:induction false} OldHostsAre(conditions: seq<Item<Condition>>, ids: seq<Id>, h: string)
    ensures h in OldHosts(conditions, ids) <==>
      h != "" && exists id :: id in ids && AsksForHost(Lookup(conditions, id), h)
  {
    if ids != [] {
      OldHostsAre(conditions, ids[1..], h);
      assert forall id :: id in ids <==> id == ids[0] || id in ids[1..];
    }
  }

  predicate AsksForHost(c: Option<Item<Condition>>, h: string) {
    c.Some? && c.value.body.kind == HostMatches && c.value.body.value == h
  }

  // ----- certificates -----

  /** Only https with the wish for one touches certificates. */
  lemma NoCertificateWanted(g: Graph, r: Request, mint: Mint)
    requires r.urls != [] && Generates(mint) && WellFormed(g) && Published(g, r, mint).Some?
    requires r.urls[0].scheme != Https || !r.wantCertificate
    ensures Published(g, r, mint).value.certificates == g.certificates
  {
    if !IsTcp(r) {
      PublishedParts(g, r, mint);
    }
  }

  /** The certificate of the service: a new one is as the request says and not issued; one
      that is given the service's names gets an account and a challenge where it had none;
      any other keeps them. */
  lemma CertificateAsAsked(g: Graph, r: Request, mint: Mint)
    requires r.urls != [] && Generates(mint) && WellFormed(g) && Published(g, r, mint).Some?
    requires r.urls[0].scheme == Https && r.wantCertificate
    ensures RoutingOf(g, r, mint).cert.Some? &&
            var id := RoutingOf(g, r, mint).cert.value;
            var was, now := Lookup(g.certificates, id), Lookup(Published(g, r, mint).value.certificates, id);
            now.Some? && var c := now.value.body;
            if was.None? then
              c.domains == Hosts(r) && c.account == r.account && c.challenge == r.challenge && !c.issued
            else
              var before := was.value.body;
              var renamed := Renames(r, g.certificates, OldHostsOf(g, r), was.value);
              && c.account == (if renamed && before.account == "" then r.account else before.account)
              && c.challenge == (if renamed && before.challenge == "" then r.challenge else before.challenge)
              && c.issued == before.issued && now.value.name == was.value.name
  {
    var certs, former := g.certificates, OldHostsOf(g, r);
    var x := CertificateFor(r, mint, certs, former);
    PublishedParts(g, r, mint);
    CertificatesPut(g, r, mint);
    UpsertLookup(certs, x, x.id);
    ChosenFields(r, mint, certs, former);
  }

  lemma ChosenFields(r: Request, mint: Mint, certs: seq<Item<Certificate>>, former: seq<string>)
    requires r.urls != [] && Generates(mint) && Distinct(certs)
    ensures var x := CertificateFor(r, mint, certs, former);
            var was, c := Lookup(certs, x.id), x.body;
            if was.None? then
              c.domains == Hosts(r) && c.account == r.account && c.challenge == r.challenge && !c.issued
            else
              var before, renamed := was.value.body, Renames(r, certs, former, was.value);
              && c.account == (if renamed && before.account == "" then r.account else before.account)
              && c.challenge == (if renamed && before.challenge == "" then r.challenge else before.challenge)
              && c.issued == before.issued && x.name == was.value.name
  {
    var x := CertificateFor(r, mint, certs, former);
    if r.certificateId != "" && Lookup(certs, r.certificateId).Some? {
      DistinctLookup(certs, x);
    } else if !r.newCertificate && BestFor(certs, r.urls[0].host).Some? {
      DistinctLookup(certs, BestFor(certs, r.urls[0].host).value.cert);
    } else if Stale(certs, former, r.urls[0].host).Some? {
      StaleFound(certs, former, r.urls[0].host);
      DistinctLookup(certs, Stale(certs, former, r.urls[0].host).value);
    } else {
      LookupIds(certs, x.id);
    }
  }

  // ----- listeners -----

  /** The first listener without TLS that binds port 80, tcp or not, is the one that is
      turned, and is turned. */
  lemma FirstPlainTurned(g: Graph, r: Request, mint: Mint, i: nat)
    requires r.urls != [] && Generates(mint) && WellFormed(g) && Published(g, r, mint).Some?
    requires r.urls[0].scheme == Https && r.httpRedirect && i < |g.listeners|
    requires !g.listeners[i].body.ssl && Binds(g.listeners[i], 80)
    requires forall j :: 0 <= j < i ==> g.listeners[j].body.ssl || !Binds(g.listeners[j], 80)
    ensures Turns(g.listeners, r, g.listeners[i].id)
    ensures var now := Lookup(Published(g, r, mint).value.listeners, g.listeners[i].id);
            now.Some? && now.value.body.toHttps
  {
    FirstPlain(g.listeners, r, i);
    TurnedRedirects(g, r, mint, g.listeners[i].id);
  }

  lemma FirstPlain(ls: seq<Item<Listener>>, r: Request, i: nat)
    requires r.urls != [] && r.urls[0].scheme == Https && r.httpRedirect && i < |ls|
    requires !ls[i].body.ssl && Binds(ls[i], 80) && forall j :: 0 <= j < i ==> ls[j].body.ssl || !Binds(ls[j], 80)
    ensures Turns(ls, r, ls[i].id) && ls[i].id in Ids(ls)
  {
    FirstFound(ls, PlainOn80(), i);
  }

  lemma TurnedRedirects(g: Graph, r: Request, mint: Mint, id: Id)
    requires r.urls != [] && Generates(mint) && WellFormed(g) && Published(g, r, mint).Some?
    requires r.urls[0].scheme == Https && Turns(g.listeners, r, id) && id in Ids(g.listeners)
    ensures var now := Lookup(Published(g, r, mint).value.listeners, id); now.Some? && now.value.body.toHttps
  {
    PublishLeavesObjects(g, r, mint, id);
  }

  lemma {:induction false} FirstFound<B>(xs: seq<Item<B>>, fits: Item<B> -> bool, i: nat)
    requires i < |xs| && fits(xs[i]) && forall j :: 0 <= j < i ==> !fits(xs[j])
    ensures Find(xs, fits) == Some(xs[i])
  {
    if i > 0 {
      assert !fits(xs[0]);
      FirstFound(xs[1..], fits, i - 1);
    }
  }

  /** A tcp service's listener when it is new or edited: the host named, or any, and the
      port; and it sends everything to the pool. */
  lemma TcpListenerAsAsked(g: Graph, r: Request, mint: Mint)
    requires r.urls != [] && IsTcp(r) && Generates(mint) && WellFormed(g) && Published(g, r, mint).Some?
    ensures var after, u := Published(g, r, mint).value, r.urls[0];
            var bind := Bind(if u.host != "" then u.host else "0.0.0.0", u.port);
            (ExistingListener(g, r).Some? ==>
               var now := Lookup(after.listeners, r.service.id);
               now.Some? && now.value.body.binds == [bind]
               && now.value.body.defaultPool == Some(BackendStep(g, r, mint).pool))
            && (ExistingListener(g, r).None? && Find(g.listeners, OnPort(u.port)).None? ==>
                 exists l :: l in after.listeners && l.id !in Ids(g.listeners)
                   && l.body == Listener(true, false, [bind], [], [], Some(BackendStep(g, r, mint).pool), false))
  {
    var u, edited, pool := r.urls[0], ExistingListener(g, r), BackendStep(g, r, mint).pool;
    var l := TcpListener(g.listeners, u, edited).Or(NewTcpListener(r, mint, g.listeners, u));
    var x := l.(body := l.body.(defaultPool := Some(pool)));
    UpsertLookup(g.listeners, x, x.id);
    UpsertMembers(g.listeners, x, x);
  }

  /** A listener loses neither the rule, unless the service is edited, nor a certificate, and
      gains no certificate but the service's. */
  ghost predicate OnlyGains(before: Listener, after: Listener, rule: Id, cert: Option<Id>, edited: bool) {
    (rule in before.rules && !edited ==> rule in after.rules)
    && (forall c :: c in before.certificates ==> c in after.certificates)
    && forall c :: c in after.certificates ==> c in before.certificates || cert == Some(c)
  }

  ghost predicate AllGain(a: seq<Item<Listener>>, b: seq<Item<Listener>>, rule: Id, cert: Option<Id>, edited: bool) {
    forall id :: id in Ids(a) ==>
      Lookup(a, id).Some? && Lookup(b, id).Some?
      && OnlyGains(Lookup(a, id).value.body, Lookup(b, id).value.body, rule, cert, edited)
  }

  lemma GainThrough(a: seq<Item<Listener>>, b: seq<Item<Listener>>, c: seq<Item<Listener>>, rule: Id,
          cert: Option<Id>, edited: bool)
    requires AllGain(a, b, rule, cert, edited) && AllGain(b, c, rule, cert, edited)
    ensures AllGain(a, c, rule, cert, edited)
  {
    forall id | id in Ids(a)
      ensures Lookup(a, id).Some? && Lookup(c, id).Some?
              && OnlyGains(Lookup(a, id).value.body, Lookup(c, id).value.body, rule, cert, edited)
    {
      LookupIds(b, id);
    }
  }

  lemma UpsertGains(ls: seq<Item<Listener>>, l: Item<Listener>, rule: Id, cert: Option<Id>, edited: bool)
    requires Lookup(ls, l.id).Some? ==> OnlyGains(Lookup(ls, l.id).value.body, l.body, rule, cert, edited)
    ensures AllGain(ls, Upsert(ls, l), rule, cert, edited)
  {
    forall id | id in Ids(ls)
      ensures Lookup(ls, id).Some? && Lookup(Upsert(ls, l), id).Some?
              && OnlyGains(Lookup(ls, id).value.body, Lookup(Upsert(ls, l), id).value.body, rule, cert, edited)
    {
      LookupIds(ls, id);
      UpsertLookup(ls, l, id);
    }
  }

  lemma ServeOneGains(mint: Mint, rules: seq<Item<Rule>>, s: Served, port: nat, ssl: bool, rule: Id, cert: Option<Id>,
          edited: bool)
    requires Generates(mint) && Distinct(s.listeners)
    ensures AllGain(s.listeners, ServeOne(mint, rules, s, port, ssl, rule, cert).listeners, rule, cert, edited)
  {
    var l := ListenerFor(mint, rules, s.listeners, port, ssl, rule, cert);
    var k := Lookup(s.listeners, l.id);
    if k.Some? {
      ServedListenerIs(mint, rules, s.listeners, port, ssl, rule, cert, k.value);
      CarryingKeeps(rules, k.value, port, ssl, rule, cert);
    }
    UpsertGains(s.listeners, l, rule, cert, edited);
  }

  lemma {:induction false} ServeAllGains(mint: Mint, rules: seq<Item<Rule>>, s: Served, ports: seq<nat>, ssl: bool,
          rule: Id, cert: Option<Id>, edited: bool)
    requires Generates(mint) && Distinct(s.listeners) && ServeAll(mint, rules, s, ports, ssl, rule, cert).Some?
    ensures AllGain(s.listeners, ServeAll(mint, rules, s, ports, ssl, rule, cert).value.listeners, rule, cert, edited)
    decreases |ports|
  {
    if ports == [] {
      SameGains(s.listeners, rule, cert, edited);
    } else {
      var t := ServeOne(mint, rules, s, ports[0], ssl, rule, cert);
      ServeOneGains(mint, rules, s, ports[0], ssl, rule, cert, edited);
      ServeOneDistinct(mint, rules, s, ports[0], ssl, rule, cert);
      ServeAllGains(mint, rules, t, ports[1..], ssl, rule, cert, edited);
      GainThrough(s.listeners, t.listeners, ServeAll(mint, rules, s, ports, ssl, rule, cert).value.listeners, rule,
                  cert, edited);
    }
  }

  lemma SameGains(ls: seq<Item<Listener>>, rule: Id, cert: Option<Id>, edited: bool)
    ensures AllGain(ls, ls, rule, cert, edited)
  {
    forall id | id in Ids(ls)
      ensures Lookup(ls, id).Some?
    {
      LookupIds(ls, id);
    }
  }

  lemma ReleaseGains(ls: seq<Item<Listener>>, serving: seq<Id>, rule: Id, cert: Option<Id>)
    ensures AllGain(ls, Release(ls, serving, rule), rule, cert, true)
  {
    forall id | id in Ids(ls)
      ensures Lookup(ls, id).Some? && Lookup(Release(ls, serving, rule), id).Some?
              && OnlyGains(Lookup(ls, id).value.body, Lookup(Release(ls, serving, rule), id).value.body, rule, cert,
                           true)
    {
      LookupIds(ls, id);
      ReleaseLookup(ls, serving, rule, id);
    }
  }

  lemma RedirectGains(mint: Mint, ls: seq<Item<Listener>>, rule: Id, cert: Option<Id>, edited: bool)
    requires Generates(mint) && Distinct(ls)
    ensures AllGain(ls, Upsert(ls, RedirectFor(mint, ls)), rule, cert, edited)
  {
    var x := RedirectFor(mint, ls);
    if Lookup(ls, x.id).Some? {
      RedirectIs(mint, ls, Lookup(ls, x.id).value);
    }
    UpsertGains(ls, x, rule, cert, edited);
  }

  /** No listener loses the service's rule in a publication that does not edit it, and none
      loses or gains a certificate but the service's. */
  lemma ListenersOnlyGain(g: Graph, r: Request, mint: Mint)
    requires r.urls != [] && !IsTcp(r) && Generates(mint) && WellFormed(g) && Published(g, r, mint).Some?
    ensures var t := RoutingOf(g, r, mint);
            AllGain(g.listeners, Published(g, r, mint).value.listeners, t.rule, t.cert, ExistingRule(g, r).Some?)
  {
    var t, edited, ssl := RoutingOf(g, r, mint), ExistingRule(g, r).Some?, r.urls[0].scheme == Https;
    var ls := g.listeners;
    PublishedParts(g, r, mint);
    var s := ServeAll(mint, t.graph.rules, Served(ls, []), Ports(r), ssl, t.rule, t.cert).value;
    ServeAllGains(mint, t.graph.rules, Served(ls, []), Ports(r), ssl, t.rule, t.cert, edited);
    ServeAllDistinct(mint, t.graph.rules, Served(ls, []), Ports(r), ssl, t.rule, t.cert);
    if edited {
      ReleaseGains(s.listeners, s.ids, t.rule, t.cert);
      ReleaseDistinct(s.listeners, s.ids, t.rule);
      GainThrough(ls, s.listeners, Release(s.listeners, s.ids, t.rule), t.rule, t.cert, edited);
    }
    var kept := if edited then Release(s.listeners, s.ids, t.rule) else s.listeners;
    if ssl && r.httpRedirect {
      RedirectGains(mint, kept, t.rule, t.cert, edited);
      GainThrough(ls, kept, Upsert(kept, RedirectFor(mint, kept)), t.rule, t.cert, edited);
    }
  }

  // ----- what is refused -----

  /** A tcp service is refused exactly when its listener is edited onto a port that another
      binds, or the listener it would use is no tcp listener or sends to another pool. That
      is the edited one, or the first that binds the port. */
  lemma TcpRefusal(g: Graph, r: Request, mint: Mint, l: Option<Item<Listener>>)
    requires r.urls != [] && IsTcp(r)
    requires if ExistingListener(g, r).Some? then l == ExistingListener(g, r)
             else if l.Some? then exists i :: FirstOn(g.listeners, i, r.urls[0].port, l.value)
             else forall k :: k in g.listeners ==> !Binds(k, r.urls[0].port)
    ensures Published(g, r, mint).None? <==>
      l.Some?
      && ((ExistingListener(g, r).Some? && BoundByOther(g.listeners, l.value.id, r.urls[0].port))
          || !l.value.body.tcp
          || (l.value.body.defaultPool.Some? && l.value.body.defaultPool != Some(BackendStep(g, r, mint).pool)))
  {
    var port := r.urls[0].port;
    if ExistingListener(g, r).Some? {
      FindComplete(g.listeners, OthersOnPort(port, l.value.id));
      assert forall k :: k in g.listeners ==>
        (OthersOnPort(port, l.value.id)(k) <==> k.id != l.value.id && Binds(k, port));
    } else {
      FindComplete(g.listeners, OnPort(port));
      if l.Some? {
        var i :| FirstOn(g.listeners, i, port, l.value);
        FirstFound(g.listeners, OnPort(port), i);
      }
    }
  }

  ghost predicate BoundByOther(ls: seq<Item<Listener>>, id: Id, port: nat) {
    exists k :: k in ls && k.id != id && Binds(k, port)
  }

  ghost predicate FirstOn(ls: seq<Item<Listener>>, i: nat, port: nat, l: Item<Listener>) {
    i < |ls| && ls[i] == l && Binds(l, port) && forall j :: 0 <= j < i ==> !Binds(ls[j], port)
  }

  /** A web service is refused exactly when a port of it is bound by some listener and by
      none that could carry it. */
  ghost predicate PortRefused(ls: seq<Item<Listener>>, port: nat, ssl: bool) {
    (exists l :: l in ls && exists b :: b in l.body.binds && b.port == port)
    && forall l :: l in ls && (exists b :: b in l.body.binds && b.port == port) ==> l.body.tcp || l.body.ssl != ssl
  }

  lemma TakenIsRefused(ls: seq<Item<Listener>>, port: nat, ssl: bool)
    ensures PortTaken(ls, port, ssl) <==> PortRefused(ls, port, ssl)
  {
    FindComplete(ls, Serving(port, ssl));
    FindComplete(ls, OnPort(port));
  }

  lemma OtherPortSame(mint: Mint, rules: seq<Item<Rule>>, s: Served, port: nat, ssl: bool, rule: Id, cert: Option<Id>,
          other: nat)
    requires Generates(mint) && Distinct(s.listeners) && !PortTaken(s.listeners, port, ssl) && other != port
    ensures PortTaken(ServeOne(mint, rules, s, port, ssl, rule, cert).listeners, other, ssl)
         == PortTaken(s.listeners, other, ssl)
  {
    var l := ListenerFor(mint, rules, s.listeners, port, ssl, rule, cert);
    var f := Find(s.listeners, Serving(port, ssl));
    var after := Upsert(s.listeners, l);
    TakenIsRefused(s.listeners, other, ssl);
    TakenIsRefused(after, other, ssl);
    forall k
      ensures k in after <==> k == l || (k in s.listeners && k.id != l.id)
    {
      UpsertMembers(s.listeners, l, k);
    }
    if f.Some? {
      SameBinds(s.listeners, after, f.value, l, other, ssl);
    } else {
      NoNewBind(s.listeners, after, l, other, ssl);
    }
  }

  predicate Binds(l: Item<Listener>, port: nat) {
    exists b :: b in l.body.binds && b.port == port
  }

  lemma SameBinds(ls: seq<Item<Listener>>, after: seq<Item<Listener>>, f: Item<Listener>, l: Item<Listener>, port: nat,
          ssl: bool)
    requires Distinct(ls) && f in ls && f.id == l.id && l.body.binds == f.body.binds
    requires l.body.tcp == f.body.tcp && l.body.ssl == f.body.ssl
    requires forall k :: k in after <==> k == l || (k in ls && k.id != l.id)
    ensures PortRefused(after, port, ssl) == PortRefused(ls, port, ssl)
  {
    forall k | k in ls
      ensures k.id == l.id ==> k == f
    {
      DistinctLookup(ls, k);
      DistinctLookup(ls, f);
    }
    assert Binds(l, port) == Binds(f, port);
    if k :| k in ls && Binds(k, port) {
      assert k == f || k in after;
    }
    if k :| k in after && Binds(k, port) {
      assert k == l || k in ls;
    }
  }

  lemma NoNewBind(ls: seq<Item<Listener>>, after: seq<Item<Listener>>, l: Item<Listener>, port: nat, ssl: bool)
    requires l.id !in Ids(ls) && !Binds(l, port)
    requires forall k :: k in after <==> k == l || (k in ls && k.id != l.id)
    ensures PortRefused(after, port, ssl) == PortRefused(ls, port, ssl)
  {
    forall k | k in ls
      ensures k.id != l.id
    {
      assert k.id in Ids(ls);
    }
    if k :| k in after && Binds(k, port) {
      assert k in ls;
    }
  }

  ghost predicate OncePorts(ports: seq<nat>) {
    ports == [] || (ports[0] !in ports[1..] && OncePorts(ports[1..]))
  }

  lemma {:induction false} ServeAllRefused(mint: Mint, rules: seq<Item<Rule>>, s: Served, ports: seq<nat>, ssl: bool,
          rule: Id, cert: Option<Id>)
    requires Generates(mint) && Distinct(s.listeners) && OncePorts(ports)
    ensures ServeAll(mint, rules, s, ports, ssl, rule, cert).None?
       <==> exists p :: p in ports && PortTaken(s.listeners, p, ssl)
    decreases |ports|
  {
    if ports != [] && !PortTaken(s.listeners, ports[0], ssl) {
      var next := ServeOne(mint, rules, s, ports[0], ssl, rule, cert);
      ServeOneDistinct(mint, rules, s, ports[0], ssl, rule, cert);
      ServeAllRefused(mint, rules, next, ports[1..], ssl, rule, cert);
      forall p | p in ports[1..]
        ensures PortTaken(next.listeners, p, ssl) == PortTaken(s.listeners, p, ssl)
      {
        OtherPortSame(mint, rules, s, ports[0], ssl, rule, cert, p);
      }
      assert forall p :: p in ports <==> p == ports[0] || p in ports[1..];
    }
  }

  lemma {:induction false} AddPortsOnce(ports: seq<nat>, urls: seq<Url>)
    requires Once(ports)
    ensures Once(AddPorts(ports, urls))
    decreases |urls|
  {
    if urls != [] {
      AddPortsOnce(if urls[0].port in ports then ports else ports + [urls[0].port], urls[1..]);
    }
  }

  ghost predicate Once(ports: seq<nat>) {
    forall i, j :: 0 <= i < j < |ports| ==> ports[i] != ports[j]
  }

  lemma {:induction false} OnceIs(ports: seq<nat>)
    requires Once(ports)
    ensures OncePorts(ports)
  {
    if ports != [] {
      forall i, j | 0 <= i < j < |ports[1..]|
        ensures ports[1..][i] != ports[1..][j]
      {
        assert ports[1..][i] == ports[i + 1] && ports[1..][j] == ports[j + 1];
      }
      OnceIs(ports[1..]);
      assert forall j :: 0 <= j < |ports[1..]| ==> ports[1..][j] == ports[j + 1];
    }
  }

  lemma WebRefused(g: Graph, r: Request, mint: Mint)
    requires r.urls != [] && !IsTcp(r) && Generates(mint) && WellFormed(g)
    ensures Published(g, r, mint).None?
       <==> exists p :: p in Ports(r) && PortRefused(g.listeners, p, r.urls[0].scheme == Https)
  {
    var ssl := r.urls[0].scheme == Https;
    var b := BackendStep(g, r, mint);
    var t := RoutingOf(g, r, mint);
    AddPortsOnce([], r.urls);
    OnceIs(Ports(r));
    ServeAllRefused(mint, t.graph.rules, Served(g.listeners, []), Ports(r), ssl, t.rule, t.cert);
    forall p
      ensures PortTaken(g.listeners, p, ssl) <==> PortRefused(g.listeners, p, ssl)
    {
      TakenIsRefused(g.listeners, p, ssl);
    }
    assert Published(g, r, mint) == ListenerStep(t, r, mint, ExistingRule(g, r).Some?);
    assert t.graph.listeners == g.listeners;
  }
}
