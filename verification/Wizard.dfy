/** The publish wizard at work on the configuration (ham/dnsapi.py,
    `wizard_publish`): its collections are changed step by step. */
module Wizard {
  import opened Options
  import opened Names
  import opened Collections
  import opened ServiceGraph
  import opened CertificateMatch
  import opened PublishSpec
  import opened PublishWellFormed
  import RuleOrder

  /** The host names of the URLs, each once whatever its case, and their ports. */
  method HostsAndPorts(urls: seq<Url>) returns (hosts: seq<string>, ports: seq<nat>)
    ensures hosts == AddHosts([], urls) && ports == AddPorts([], urls)
  {
    hosts, ports := [], [];
    for i := 0 to |urls|
      invariant AddHosts(hosts, urls[i..]) == AddHosts([], urls)
      invariant AddPorts(ports, urls[i..]) == AddPorts([], urls)
    {
      assert urls[i..][1..] == urls[i + 1..];
      if !HostKnown(urls[i].host, hosts) {
        hosts := hosts + [urls[i].host];
      }
      if urls[i].port !in ports {
        ports := ports + [urls[i].port];
      }
    }
  }

  class Config {
    var servers: seq<Item<Server>>
    var monitors: seq<Item<Check>>
    var pools: seq<Item<Pool>>
    var conditions: seq<Item<Condition>>
    var rules: seq<Item<Rule>>
    var listeners: seq<Item<Listener>>
    var certificates: seq<Item<Certificate>>

    function State(): Graph
      reads this
    {
      Graph(servers, monitors, pools, conditions, rules, listeners, certificates)
    }

    // ----- servers, monitor and pool -----

    method ClaimServer(r: Request, mint: Mint, ids: seq<Id>, t: Target) returns (more: seq<Id>)
      modifies this`servers
      ensures Claims(servers, more) == ClaimOne(r, mint, Claims(old(servers), ids), t)
    {
      var server: Option<Item<Server>> := None;
      if t.serverName != "" {
        server := Find(servers, ByName(t, ids));
        if server.Some? {
          server := Some(Repointed(server.value, t));
        }
      }
      if server.None? {
        server := Find(servers, ByAddress(t, ids));
      }
      if server.None? {
        var name := UniqueName(NamesOf(servers), ServerName(r, t));
        server := Some(Item(mint(Ids(servers)), name, Server(t.host, t.port, t.https, 0, "", true)));
      }
      servers := Upsert(servers, Configured(r, server.value));
      more := ids + [server.value.id];
    }

    method ClaimServers(r: Request, mint: Mint) returns (ids: seq<Id>)
      modifies this`servers
      ensures Claims(servers, ids) == ClaimAll(r, mint, Claims(old(servers), []), r.targets)
    {
      ids := [];
      for i := 0 to |r.targets|
        invariant ClaimAll(r, mint, Claims(servers, ids), r.targets[i..])
               == ClaimAll(r, mint, Claims(old(servers), []), r.targets)
      {
        assert r.targets[i..][1..] == r.targets[i + 1..];
        ids := ClaimServer(r, mint, ids, r.targets[i]);
      }
    }

    method SettleMonitor(r: Request, mint: Mint, own: Option<Item<Check>>, shared: bool) returns (monitor: Option<Id>)
      modifies this`monitors
      ensures MonitorChoice(monitors, monitor) == MonitorStep(r, mint, old(monitors), own, shared)
    {
      monitor := None;
      var kind := CheckKind(r, own);
      if KeepsMonitor(r, own) {
        monitor := Some(own.value.id);
      } else if r.health.Some? && kind != "none" {
        var want := Wanted(r.health.value);
        var m: Option<Item<Check>> := None;
        if own.Some? && !shared {
          m := Some(own.value.(body := want));
        }
        if m.None? {
          m := Find(monitors, Like(want));
        }
        if m.None? {
          var name := UniqueName(NamesOf(monitors), r.base + "-check");
          m := Some(Item(mint(Ids(monitors)), name, want));
        }
        monitors := Upsert(monitors, m.value);
        monitor := Some(m.value.id);
      }
      if kind == "none" && own.Some? && !shared {
        monitors := Without(monitors, own.value.id);
      }
    }

    /** `_drop_orphan_wizard_servers`. */
    method DropOrphanServers(candidates: seq<Id>)
      modifies this`servers
      ensures servers == DropOrphans(old(servers), candidates, Referenced(pools))
    {
      var used := Referenced(pools);
      for i := 0 to |candidates|
        invariant DropOrphans(servers, candidates[i..], used) == DropOrphans(old(servers), candidates, used)
      {
        assert candidates[i..][1..] == candidates[i + 1..];
        if Orphan(servers, candidates[i], used) {
          servers := Without(servers, candidates[i]);
        }
      }
    }

    method PutPool(r: Request, mint: Mint, own: Option<Item<Pool>>, ids: seq<Id>,
            monitor: Option<Id>) returns (pool: Id)
      modifies this`pools, this`servers
      ensures pools == Upsert(old(pools), PoolFor(r, mint, old(pools), own, ids, monitor))
      ensures pool == PoolFor(r, mint, old(pools), own, ids, monitor).id
      ensures servers == DropOrphans(old(servers), PreviousServers(r, old(pools), own), Referenced(pools))
    {
      var p := if own.Some? then own else Find(pools, PoolNamed(r));
      var name := if p.Some? then p.value.name else "";
      if own.Some? && own.value.name != Secure(r.base) && r.named {
        name := UniqueName(NamesOf(Without(pools, own.value.id)), r.base);
      }
      if p.Some? {
        var previous := p.value.body.servers;
        pool := p.value.id;
        pools := Upsert(pools, Item(pool, name, Pool(ids, monitor, p.value.body.options + r.poolOptions)));
        DropOrphanServers(previous);
      } else {
        pool := mint(Ids(pools));
        name := UniqueName(NamesOf(pools), r.base);
        assert map[] + r.poolOptions == r.poolOptions;
        pools := Upsert(pools, Item(pool, name, Pool(ids, monitor, r.poolOptions)));
      }
    }

    method PutBackend(r: Request, mint: Mint) returns (pool: Id)
      modifies this`servers, this`monitors, this`pools
      ensures Backend(State(), pool) == BackendStep(old(State()), r, mint)
    {
      var ownPool := ExistingPool(State(), r);
      var own := MonitorOf(monitors, ownPool);
      var shared := own.Some? && ownPool.Some? && UsedElsewhere(pools, own.value.id, ownPool.value.id);
      var ids := ClaimServers(r, mint);
      var monitor := SettleMonitor(r, mint, own, shared);
      pool := PutPool(r, mint, ownPool, ids, monitor);
    }

    // ----- a tcp service -----

    method ServeTcp(r: Request, mint: Mint, edited: Option<Item<Listener>>, pool: Id) returns (ok: bool)
      requires r.urls != []
      modifies this`listeners
      ensures ok == TcpStep(r, mint, old(listeners), r.urls[0], edited, pool).Some?
      ensures ok ==> listeners == TcpStep(r, mint, old(listeners), r.urls[0], edited, pool).value
      ensures !ok ==> listeners == old(listeners)
    {
      var u := r.urls[0];
      var l: Option<Item<Listener>> := None;
      if edited.Some? {
        if Find(listeners, OthersOnPort(u.port, edited.value.id)).Some? {
          return false;
        }
        l := Some(edited.value.(body := edited.value.body.(binds := [TcpBind(u)])));
      }
      if l.None? {
        l := Find(listeners, OnPort(u.port));
      }
      if l.Some? {
        if !l.value.body.tcp || (l.value.body.defaultPool.Some? && l.value.body.defaultPool != Some(pool)) {
          return false;
        }
      } else {
        var name := UniqueName(NamesOf(listeners), r.base + "-listener");
        l := Some(Item(mint(Ids(listeners)), name, Listener(true, false, [TcpBind(u)], [], [], None, false)));
      }
      listeners := Upsert(listeners, l.value.(body := l.value.body.(defaultPool := Some(pool))));
      return true;
    }

    // ----- conditions and rule -----

    method NeedConditions(mint: Mint, needs: seq<Need>) returns (ids: seq<Id>)
      modifies this`conditions
      ensures Conditions(conditions, ids) == NeedAll(mint, Conditions(old(conditions), []), needs)
    {
      ids := [];
      for i := 0 to |needs|
        invariant NeedAll(mint, Conditions(conditions, ids), needs[i..])
               == NeedAll(mint, Conditions(old(conditions), []), needs)
      {
        assert needs[i..][1..] == needs[i + 1..];
        var c := Find(conditions, Meets(needs[i]));
        if c.None? {
          var name := UniqueName(NamesOf(conditions), needs[i].wantedName);
          c := Some(Item(mint(Ids(conditions)), name, Condition(needs[i].kind, needs[i].value, false)));
        }
        conditions := Upsert(conditions, c.value);
        ids := ids + [c.value.id];
      }
    }

    method DropUnusedConditions(previous: seq<Id>)
      modifies this`conditions
      ensures conditions == DropUnused(old(conditions), previous, UsedConditions(rules))
    {
      var used := UsedConditions(rules);
      for i := 0 to |previous|
        invariant DropUnused(conditions, previous[i..], used) == DropUnused(old(conditions), previous, used)
      {
        assert previous[i..][1..] == previous[i + 1..];
        if previous[i] !in used {
          conditions := Without(conditions, previous[i]);
        }
      }
    }

    method PutRule(r: Request, mint: Mint, own: Option<Item<Rule>>, ids: seq<Id>, pool: Id) returns (rule: Id)
      modifies this`rules, this`conditions
      ensures rules == Upsert(old(rules), RuleFor(r, mint, old(rules), own, ids, pool))
      ensures rule == RuleFor(r, mint, old(rules), own, ids, pool).id
      ensures conditions == DropUnused(old(conditions), PreviousConditions(old(rules), own, ids), UsedConditions(rules))
    {
      var hosts, _ := HostsAndPorts(r.urls);
      var x := if own.Some? then own else Find(rules, WithConditions(ids));
      if x.Some? {
        var previous := x.value.body.conditions;
        rule := x.value.id;
        rules := Upsert(rules,
            x.value.(body := x.value.body.(conditions := ids, anyOf := |hosts| > 1, pool := Some(pool))));
        DropUnusedConditions(previous);
      } else {
        rule := mint(Ids(rules));
        var name := UniqueName(NamesOf(rules), "to-" + r.base);
        rules := Upsert(rules, Item(rule, name, Rule(true, false, |hosts| > 1, ids, Some(pool))));
      }
    }

    method RouteHosts(r: Request, mint: Mint, own: Option<Item<Rule>>, pool: Id) returns (rule: Id)
      requires r.urls != []
      modifies this`rules, this`conditions
      ensures Routing(State(), rule, None) == RuleStep(old(State()), r, mint, own, pool)
    {
      var ids := NeedConditions(mint, Needs(r));
      rule := PutRule(r, mint, own, ids, pool);
    }

    // ----- the certificate -----

    method FindStale(formerHosts: seq<string>, host: string) returns (c: Option<Item<Certificate>>)
      ensures c == Stale(certificates, formerHosts, host)
    {
      for i := 0 to |formerHosts|
        invariant Stale(certificates, formerHosts[i..], host) == Stale(certificates, formerHosts, host)
      {
        assert formerHosts[i..][1..] == formerHosts[i + 1..];
        if !SameHost(formerHosts[i], host) {
          var x := Find(certificates, NamesOnly(formerHosts[i]));
          if x.Some? && !x.value.body.issued {
            return x;
          }
        }
      }
      return None;
    }

    method PutCertificate(r: Request, mint: Mint, formerHosts: seq<string>) returns (cert: Id)
      requires r.urls != []
      modifies this`certificates
      ensures certificates == Upsert(old(certificates), CertificateFor(r, mint, old(certificates), formerHosts))
      ensures cert == CertificateFor(r, mint, old(certificates), formerHosts).id
    {
      var c: Option<Item<Certificate>> := None;
      if r.certificateId != "" {
        c := Lookup(certificates, r.certificateId);
      }
      if c.None? && !r.newCertificate {
        var best := CertForHost(certificates, r.urls[0].host);
        if best.Some? {
          c := Some(Extended(best.value.cert, Hosts(r)));
        }
      }
      if c.None? {
        var stale := FindStale(formerHosts, r.urls[0].host);
        if stale.Some? {
          c := Some(Repurposed(r, stale.value));
        } else {
          var name := UniqueName(NamesOf(certificates), r.base);
          c := Some(Item(mint(Ids(certificates)), name, Certificate(Hosts(r), r.account, r.challenge, false)));
        }
      }
      certificates := Upsert(certificates, c.value);
      cert := c.value.id;
    }

    // ----- the listeners of an http or https service -----

    method ServePort(mint: Mint, port: nat, ssl: bool, rule: Id, cert: Option<Id>) returns (id: Option<Id>)
      modifies this`listeners
      ensures id.None? <==> PortTaken(old(listeners), port, ssl)
      ensures id.None? ==> listeners == old(listeners)
      ensures id.Some? ==>
        forall ids :: Served(listeners, ids + [id.value])
            == ServeOne(mint, rules, Served(old(listeners), ids), port, ssl, rule, cert)
    {
      var l := Find(listeners, Serving(port, ssl));
      if l.None? {
        if Find(listeners, OnPort(port)).Some? {
          return None;
        }
        var name := UniqueName(NamesOf(listeners), PortName(port, ssl));
        l := Some(Item(mint(Ids(listeners)), name,
                       Listener(false, ssl, [Bind("0.0.0.0", port)], [], [], None, false)));
      }
      var placed := RuleOrder.PlaceRule(rules, l.value.body.rules, rule);
      var certs := l.value.body.certificates;
      if cert.Some? && cert.value !in certs {
        certs := certs + [cert.value];
      }
      assert l.value.(body := l.value.body.(rules := placed, certificates := certs))
          == ListenerFor(mint, rules, listeners, port, ssl, rule, cert);
      listeners := Upsert(listeners, l.value.(body := l.value.body.(rules := placed, certificates := certs)));
      id := Some(l.value.id);
    }

    method ServePorts(mint: Mint, ports: seq<nat>, ssl: bool, rule: Id, cert: Option<Id>) returns (ids: Option<seq<Id>>)
      modifies this`listeners
      ensures ids.None? <==> ServeAll(mint, rules, Served(old(listeners), []), ports, ssl, rule, cert).None?
      ensures ids.Some? ==>
        ServeAll(mint, rules, Served(old(listeners), []), ports, ssl, rule, cert) == Some(Served(listeners, ids.value))
    {
      var serving: seq<Id> := [];
      for i := 0 to |ports|
        invariant ServeAll(mint, rules, Served(listeners, serving), ports[i..], ssl, rule, cert)
               == ServeAll(mint, rules, Served(old(listeners), []), ports, ssl, rule, cert)
      {
        assert ports[i..][1..] == ports[i + 1..] && ports[i..][0] == ports[i];
        var id := ServePort(mint, ports[i], ssl, rule, cert);
        if id.None? {
          return None;
        }
        serving := serving + [id.value];
      }
      return Some(serving);
    }

    /** An edited service leaves the listeners it is no longer served by. */
    method ReleaseOthers(serving: seq<Id>, rule: Id)
      modifies this`listeners
      ensures listeners == Release(old(listeners), serving, rule)
    {
      for i := 0 to |listeners|
        invariant |listeners| == |old(listeners)| && listeners[i..] == old(listeners)[i..]
        invariant Release(old(listeners), serving, rule) == listeners[..i] + Release(old(listeners)[i..], serving, rule)
      {
        var l := listeners[i];
        assert old(listeners)[i..][0] == l && old(listeners)[i..][1..] == old(listeners)[i + 1..];
        ghost var done := listeners[..i];
        if l.id !in serving {
          listeners := listeners[i := l.(body := l.body.(rules := RuleOrder.Others(l.body.rules, rule)))];
        }
        assert listeners[..i + 1] == done + [listeners[i]];
      }
    }

    method RedirectPlain(mint: Mint)
      modifies this`listeners
      ensures listeners == Upsert(old(listeners), RedirectFor(mint, old(listeners)))
    {
      var l := Find(listeners, PlainOn80());
      if l.Some? {
        listeners := Upsert(listeners, l.value.(body := l.value.body.(toHttps := true)));
      } else {
        var name := UniqueName(NamesOf(listeners), "http-redirect");
        listeners := Upsert(listeners, Item(mint(Ids(listeners)), name,
          Listener(false, false, [Bind("0.0.0.0", 80)], [], [], None, true)));
      }
    }

    method ServeWeb(r: Request, mint: Mint, rule: Id, cert: Option<Id>, edited: bool) returns (ok: bool)
      requires r.urls != []
      modifies this`listeners
      ensures ok == ListenerStep(Routing(old(State()), rule, cert), r, mint, edited).Some?
      ensures ok ==> State() == ListenerStep(Routing(old(State()), rule, cert), r, mint, edited).value
    {
      var ssl := r.urls[0].scheme == Https;
      var _, ports := HostsAndPorts(r.urls);
      var serving := ServePorts(mint, ports, ssl, rule, cert);
      if serving.None? {
        return false;
      }
      if edited {
        ReleaseOthers(serving.value, rule);
      }
      if ssl && r.httpRedirect {
        RedirectPlain(mint);
      }
      return true;
    }

    // ----- the whole -----

    /** `wizard_publish`. A refused request's draft is thrown away by the caller. */
    method Publish(r: Request, mint: Mint) returns (ok: bool)
      requires r.urls != []
      modifies this
      ensures ok == Published(old(State()), r, mint).Some?
      ensures ok ==> State() == Published(old(State()), r, mint).value
      ensures ok && Generates(mint) && WellFormed(old(State())) ==>
                (WellFormed(State()) <==> !StrandsMonitor(old(State()), r))
    {
      ghost var g := State();
      var own := ExistingRule(State(), r);
      var edited := ExistingListener(State(), r);
      var formerHosts := OldHosts(conditions, if own.Some? then own.value.body.conditions else []);
      var pool := PutBackend(r, mint);
      if r.urls[0].scheme == Tcp {
        ok := ServeTcp(r, mint, edited, pool);
      } else {
        ok := PublishWeb(r, mint, own, formerHosts, pool);
      }
      if ok && Generates(mint) && WellFormed(g) {
        PublishKeepsWellFormed(g, r, mint);
      }
    }

    method PublishWeb(r: Request, mint: Mint, own: Option<Item<Rule>>, formerHosts: seq<string>,
            pool: Id) returns (ok: bool)
      requires r.urls != []
      modifies this
      ensures var routed := RuleStep(old(State()), r, mint, own, pool);
        var after := ListenerStep(CertificateStep(routed, r, mint, formerHosts), r, mint, own.Some?);
        ok == after.Some? && (ok ==> State() == after.value)
    {
      var rule := RouteHosts(r, mint, own, pool);
      var cert: Option<Id> := None;
      if WantsCertificate(r) {
        var id := PutCertificate(r, mint, formerHosts);
        cert := Some(id);
      }
      ok := ServeWeb(r, mint, rule, cert, own.Some?);
    }
  }
}
