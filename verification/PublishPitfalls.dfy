/** Inputs on which publishing does not do what it is for: small configurations and
    requests that the collections' routes and the publish form accept. */
module PublishPitfalls {
  import opened Options
  import opened Collections
  import opened ServiceGraph
  import opened CertificateMatch
  import opened PublishSpec
  import opened PublishWellFormed
  import opened PublishServes
  import opened PublishAnswers
  import opened PublishFrame
  import opened PublishCertificate
  import opened PublishReaches
  import opened PublishPlaces
  import opened PublishNames
  import opened Names
  import RuleOrder
  import ListenerRules

  // ----- a rule that answers `unless` -----

  /** A service whose rule answers `unless` its name is asked for. */
  function UnlessService(): Graph {
    Graph([Item("s", "app-srv", Server("10.0.0.1", 8080, false, 0, "", true))], [],
          [Item("p", "app", Pool(["s"], None, map[]))],
          [Item("c", "host-app", Condition(HostMatches, "app", false))],
          [Item("r", "to-app", Rule(true, true, false, ["c"], Some("p")))], [], [])
  }

  /** Publishing its name, as a service of its own. */
  function PublishApp(): Request {
    Request([Url(Http, "app", 80, "")], [Target("", "10.0.0.1", 8080, false)], "app", false, 0, None, map[], None,
            NoService, false, "", false, "", "", false)
  }

  lemma UnlessServiceOk()
    ensures WellFormed(UnlessService())
  {
    var g := UnlessService();
    assert g.servers[0] in g.servers && g.pools[0] in g.pools && g.conditions[0] in g.conditions;
    assert "s" in Ids(g.servers) && "p" in Ids(g.pools) && "c" in Ids(g.conditions);
    assert g.listeners == [];
  }

  lemma PublishAppNeeds()
    ensures Hosts(PublishApp()) == ["app"] && Ports(PublishApp()) == [80]
    ensures |Needs(PublishApp())| == 1
    ensures Needs(PublishApp())[0].kind == HostMatches && Needs(PublishApp())[0].value == "app"
  {
    var r := PublishApp();
    assert r.urls[1..] == [];
    assert [] + ["app"] == ["app"];
    assert AddHosts(["app"], []) == ["app"] && AddPorts([80], []) == [80];
    HostNeedsAre(r, ["app"], true);
  }

  lemma UnlessRuleFound()
    ensures KeepsUnless(UnlessService(), PublishApp())
    ensures NoneTrue(FoundNegations(UnlessService().conditions, Needs(PublishApp())))
  {
    var g, r := UnlessService(), PublishApp();
    PublishAppNeeds();
    var n := Needs(r)[0];
    assert Find(g.conditions, Meets(n)) == Some(g.conditions[0]);
    assert Needs(r)[1..] == [];
    assert FoundIds(g.conditions, []) == Some([]) && ["c"] + [] == ["c"];
    assert FoundIds(g.conditions, Needs(r)) == Some(["c"]);
    assert Find(g.rules, WithConditions(["c"])) == Some(g.rules[0]);
  }

  lemma PublishAppAccepted(mint: Mint)
    ensures Published(UnlessService(), PublishApp(), mint).Some?
  {
    PublishAppNeeds();
    FirstListenerAccepted(UnlessService(), PublishApp(), mint);
  }

  /** No condition of it is negated, and yet its rule then answers for every name
      but its own. */
  lemma UnlessRuleKept(mint: Mint, host: string, path: string)
    requires Generates(mint)
    ensures var g, r := UnlessService(), PublishApp();
            WellFormed(g) && Published(g, r, mint).Some? && !WillAnswer(g, r)
            && var after, rule := Published(g, r, mint).value, RoutingOf(g, r, mint).rule;
               Lookup(after.rules, rule).Some?
               && (RuleOrder.Matches(Lookup(after.rules, rule).value.body, Holding(after.conditions, host, path))
                   <==> !Asked(r, host, path))
  {
    UnlessServiceOk();
    UnlessRuleFound();
    PublishAppNeeds();
    PublishAppAccepted(mint);
    UnlessAnswersRest(UnlessService(), PublishApp(), mint, host, path);
  }

  // ----- http on the port that redirects to https -----

  /** Nothing but the listener an https service has left on port 80. */
  function OnlyRedirect(): Graph {
    Graph([], [], [], [], [],
          [Item("l", "http-redirect", Listener(false, false, [Bind("0.0.0.0", 80)], [], [], None, true))], [])
  }

  lemma OnlyRedirectOk()
    ensures WellFormed(OnlyRedirect())
    ensures Find(OnlyRedirect().listeners, Serving(80, false)) == Some(OnlyRedirect().listeners[0])
  {
    var l := OnlyRedirect().listeners[0];
    assert l.body.binds[0].port == 80;
    assert BindsPort(l.body, 80);
  }

  /** A port that has a listener of the service's kind is not refused. */
  lemma FoundPortAccepted(g: Graph, r: Request, mint: Mint, p: nat)
    requires r.urls != [] && !IsTcp(r) && Ports(r) == [p]
    requires !PortTaken(g.listeners, p, r.urls[0].scheme == Https)
    ensures Published(g, r, mint).Some?
  {
    var b := BackendStep(g, r, mint);
    var s := RuleStep(b.graph, r, mint, ExistingRule(g, r), b.pool);
    FoundPortServed(CertificateStep(s, r, mint, OldHostsOf(g, r)), r, mint, ExistingRule(g, r).Some?, p);
  }

  lemma FoundPortServed(s: Routing, r: Request, mint: Mint, edited: bool, p: nat)
    requires r.urls != [] && Ports(r) == [p] && !PortTaken(s.graph.listeners, p, r.urls[0].scheme == Https)
    ensures ListenerStep(s, r, mint, edited).Some?
  {
    OneFreePort(mint, s.graph.rules, s.graph.listeners, p, r.urls[0].scheme == Https, s.rule, s.cert);
  }

  lemma OneFreePort(mint: Mint, rules: seq<Item<Rule>>, ls: seq<Item<Listener>>, p: nat, ssl: bool, rule: Id,
          cert: Option<Id>)
    requires !PortTaken(ls, p, ssl)
    ensures ServeAll(mint, rules, Served(ls, []), [p], ssl, rule, cert).Some?
  {
    assert [p][1..] == [];
  }

  /** Publishing http://app on it is accepted, and then every request there that is
      not a certificate challenge is redirected to https, where nothing listens. */
  lemma HttpOnRedirect(mint: Mint, site: ListenerRules.Site, q: ListenerRules.Request)
    requires Generates(mint) && !(site.acmeOn && q.challenge)
    ensures var g, r := OnlyRedirect(), PublishApp();
            WellFormed(g) && Published(g, r, mint).Some?
            && var after := Published(g, r, mint).value;
               Lookup(after.listeners, "l").Some?
               && RoutingOf(g, r, mint).rule in Lookup(after.listeners, "l").value.body.rules
               && ListenerRules.Answer(after, site, Lookup(after.listeners, "l").value.body, q)
                   == ListenerRules.Redirected
  {
    OnlyRedirectOk();
    PublishAppNeeds();
    FoundPortAccepted(OnlyRedirect(), PublishApp(), mint, 80);
    RedirectingPortServesNothing(OnlyRedirect(), PublishApp(), mint, site, 80, q);
  }

  // ----- https, and the plain listener other services are on -----

  /** One service over http, and a server that it alone uses. */
  function PlainService(): Graph {
    Graph([Item("s", "db", Server("10.0.0.1", 8080, false, 0, "", false))], [],
          [Item("p", "app", Pool(["s"], None, map[]))],
          [Item("c", "host-app", Condition(HostMatches, "app", false))],
          [Item("r", "to-app", Rule(true, false, false, ["c"], Some("p")))],
          [Item("l", "http-80", Listener(false, false, [Bind("0.0.0.0", 80)], [], ["r"], None, false))], [])
  }

  /** Publishing another name over https, its target called by the server's name. */
  function PublishOther(): Request {
    Request([Url(Https, "other", 443, "")], [Target("db", "10.0.0.2", 8080, false)], "other", false, 0, None, map[],
            None, NoService, false, "", false, "", "", true)
  }

  lemma PlainServiceOk()
    ensures WellFormed(PlainService())
  {
    var g := PlainService();
    assert g.servers[0] in g.servers && g.pools[0] in g.pools && g.conditions[0] in g.conditions
        && g.rules[0] in g.rules;
    assert "s" in Ids(g.servers) && "p" in Ids(g.pools) && "c" in Ids(g.conditions) && "r" in Ids(g.rules);
  }

  lemma PublishOtherNeeds()
    ensures Ports(PublishOther()) == [443] && |Needs(PublishOther())| == 1
    ensures Needs(PublishOther())[0].kind == HostMatches && Needs(PublishOther())[0].value == "other"
  {
    var r := PublishOther();
    assert r.urls[1..] == [];
    assert [] + ["other"] == ["other"];
    assert AddHosts(["other"], []) == ["other"] && AddPorts([443], []) == [443];
    HostNeedsAre(r, ["other"], true);
  }

  lemma PlainListener()
    ensures Find(PlainService().listeners, PlainOn80()) == Some(PlainService().listeners[0])
    ensures !PortTaken(PlainService().listeners, 443, true)
  {
    var l := PlainService().listeners[0];
    assert l.body.binds[0].port == 80;
    assert BindsPort(l.body, 80) && !BindsPort(l.body, 443);
    assert PlainService().listeners[1..] == [];
  }

  /** A service of one name that no condition is for gets a new rule, which does not
      match where only the old conditions hold. */
  lemma NewRuleUnmatched(g: Graph, r: Request, mint: Mint, q: ListenerRules.Request)
    requires r.urls != [] && !IsTcp(r) && r.service == NoService && Generates(mint) && WellFormed(g)
    requires |Needs(r)| == 1 && Find(g.conditions, Meets(Needs(r)[0])).None? && q.holds <= Ids(g.conditions)
    requires Published(g, r, mint).Some?
    ensures !ListenerRules.Fits(Published(g, r, mint).value, RoutingOf(g, r, mint).rule, q)
    ensures RoutingOf(g, r, mint).rule !in Ids(g.rules)
  {
    var b := BackendStep(g, r, mint);
    PublishedParts(g, r, mint);
    BackendStepOk(g, r, mint);
    NewRuleOver(b.graph, r, mint, b.pool, Ids(g.pools), Needs(r)[0]);
    OneConditionFails(Lookup(Published(g, r, mint).value.rules, RoutingOf(g, r, mint).rule).value.body, q.holds);
  }

  lemma OneConditionFails(x: Rule, holds: set<Id>)
    requires |x.conditions| == 1 && x.conditions[0] !in holds && !x.unlessTest
    ensures !RuleOrder.Matches(x, holds)
  {
    assert x.conditions[0] in x.conditions;
  }

  lemma OtherRuleUnmatched(mint: Mint, q: ListenerRules.Request)
    requires Generates(mint) && Published(PlainService(), PublishOther(), mint).Some? && q.holds == {"c"}
    ensures !ListenerRules.Fits(Published(PlainService(), PublishOther(), mint).value,
                                RoutingOf(PlainService(), PublishOther(), mint).rule, q)
  {
    var g := PlainService();
    PlainServiceOk();
    PublishOtherNeeds();
    OtherHostNew(Needs(PublishOther())[0]);
    assert "c" in Ids(g.conditions) by {
      assert g.conditions[0] in g.conditions;
    }
    NewRuleUnmatched(g, PublishOther(), mint, q);
  }

  lemma OtherHostNew(n: Need)
    requires n.kind == HostMatches && n.value == "other"
    ensures Find(PlainService().conditions, Meets(n)).None?
  {
    assert Lower("other")[0] == 'o' && Lower("app")[0] == 'a';
    assert PlainService().conditions[1..] == [];
  }

  /** A service over one new condition gets a new rule over that condition. */
  lemma NewRuleOver(g: Graph, r: Request, mint: Mint, pool: Id, pools: set<Id>, n: Need)
    requires r.urls != [] && r.service == NoService && Generates(mint) && |Needs(r)| == 1 && Needs(r)[0] == n
    requires Distinct(g.conditions) && Distinct(g.rules) && RulesResolve(g.rules, Ids(g.conditions), pools)
    ensures Find(g.conditions, Meets(n)).None? ==>
              var s := RuleStep(g, r, mint, None, pool);
              Lookup(s.graph.rules, s.rule).Some? && s.rule !in Ids(g.rules)
              && var x := Lookup(s.graph.rules, s.rule).value.body;
                 |x.conditions| == 1 && x.conditions[0] !in Ids(g.conditions) && !x.unlessTest
  {
    if Find(g.conditions, Meets(n)).None? {
      var c := NeedAll(mint, Conditions(g.conditions, []), Needs(r));
      TakenIs(g, r, mint, pools);
      assert AsFound(g.conditions, Lookup(c.all, c.ids[0]), c.ids[0], n);
      assert FoundIds(g.conditions, Needs(r)).None?;
      UpsertLookup(g.rules, RuleFor(r, mint, g.rules, None, c.ids, pool),
                   RuleFor(r, mint, g.rules, None, c.ids, pool).id);
    }
  }

  /** The old name was served over http by its pool; afterwards its requests are
      redirected to an https listener that has no rule for them. */
  lemma HttpsTurnsOthers(mint: Mint, site: ListenerRules.Site, q: ListenerRules.Request)
    requires Generates(mint) && q.holds == {"c"} && !(site.acmeOn && q.challenge)
    ensures var g, r := PlainService(), PublishOther();
            WellFormed(g) && Published(g, r, mint).Some?
            && ListenerRules.Answer(g, site, g.listeners[0].body, q) == ListenerRules.SentTo(ListenerRules.PoolOf("p"))
            && var after := Published(g, r, mint).value;
               Lookup(after.listeners, "l").Some?
               && ListenerRules.Answer(after, site, Lookup(after.listeners, "l").value.body, q)
                   == ListenerRules.Redirected
  {
    var g, r := PlainService(), PublishOther();
    PlainServiceOk();
    PublishOtherNeeds();
    PlainListener();
    FoundPortAccepted(g, r, mint, 443);
    OtherRuleUnmatched(mint, q);
    PlainServiceAnswers(site, q);
    assert "l" in Ids(g.listeners) by {
      assert g.listeners[0] in g.listeners;
    }
    PublishLeavesOthers(g, r, mint, site, "l", q);
  }

  lemma PlainServiceAnswers(site: ListenerRules.Site, q: ListenerRules.Request)
    requires q.holds == {"c"} && !(site.acmeOn && q.challenge)
    ensures ListenerRules.Answer(PlainService(), site, PlainService().listeners[0].body, q)
         == ListenerRules.SentTo(ListenerRules.PoolOf("p"))
  {
    var g := PlainService();
    PlainServiceOk();
    ListenerRules.ListenerDecides(g, site, g.listeners[0].body, q);
    assert Lookup(g.rules, "r") == Some(g.rules[0]);
    assert ListenerRules.Fits(g, "r", q);
    OnlyFit(g, site, ["r"], "r", q);
  }

  /** The same publication moves the server that the old service's pool lists. */
  lemma NamedServerMoves(mint: Mint)
    requires Generates(mint)
    ensures var g, r := PlainService(), PublishOther();
            WellFormed(g) && Published(g, r, mint).Some?
            && Lookup(g.pools, "p").value == g.pools[0]
            && !SamePlace(Lookup(Published(g, r, mint).value.servers, "s"), g.servers[0])
  {
    var g, r := PlainService(), PublishOther();
    PlainServiceOk();
    PublishOtherNeeds();
    PlainListener();
    FoundPortAccepted(g, r, mint, 443);
    OtherPoolNew();
    FirstNamedMoves(r, mint, Claims(g.servers, []), r.targets, g.servers[0]);
    OtherServersStay(g, r, mint, g.pools[0], "s");
  }

  lemma OtherPoolNew()
    ensures !Takes(PlainService(), PublishOther(), "p")
  {
    OtherNameFree(PublishOther());
  }

  lemma OtherNameFree(r: Request)
    requires r.base == "other"
    ensures Find(PlainService().pools, PoolNamed(r)).None?
  {
    OtherIsPlain();
    assert PlainService().pools[1..] == [];
  }

  lemma OtherIsPlain()
    ensures Secure("other") != "app"
  {
    PlainStrip("other");
    assert Secure("other")[0] == 'o';
  }

  // ----- two services whose hosts begin alike -----

  /** Publishing app.b, which without a name of its own is called after its first
      label, to a server of its own. */
  function PublishNamesake(): Request {
    Request([Url(Http, "app.b", 80, "")], [Target("", "10.0.0.2", 8080, false)], "app", false, 0, None, map[], None,
            NoService, false, "", false, "", "", false)
  }

  lemma PublishNamesakeNeeds()
    ensures Ports(PublishNamesake()) == [80] && |Needs(PublishNamesake())| == 1
    ensures Needs(PublishNamesake())[0].kind == HostMatches && Needs(PublishNamesake())[0].value == "app.b"
  {
    var r := PublishNamesake();
    assert r.urls[1..] == [];
    assert [] + ["app.b"] == ["app.b"];
    assert AddHosts(["app.b"], []) == ["app.b"] && AddPorts([80], []) == [80];
    HostNeedsAre(r, ["app.b"], true);
  }

  lemma NamesakeHostNew(n: Need)
    requires n.kind == HostMatches && n.value == "app.b"
    ensures Find(PlainService().conditions, Meets(n)).None?
  {
    assert |Lower("app.b")| == 5 && |Lower("app")| == 3;
    assert PlainService().conditions[1..] == [];
  }

  lemma NamesakeTakes()
    ensures Takes(PlainService(), PublishNamesake(), "p")
  {
    var g, r := PlainService(), PublishNamesake();
    PlainStrip("app");
    assert PoolNamed(r)(g.pools[0]);
  }

  lemma NamesakeAccepted(mint: Mint)
    ensures Published(PlainService(), PublishNamesake(), mint).Some?
  {
    var g, r := PlainService(), PublishNamesake();
    PublishNamesakeNeeds();
    PlainListener();
    assert Serving(80, false)(g.listeners[0]);
    FoundPortAccepted(g, r, mint, 80);
  }

  lemma NamesakeUnmatched(mint: Mint, q: ListenerRules.Request)
    requires Generates(mint) && q.holds == {"c"} && Published(PlainService(), PublishNamesake(), mint).Some?
    ensures !ListenerRules.Fits(Published(PlainService(), PublishNamesake(), mint).value,
                                RoutingOf(PlainService(), PublishNamesake(), mint).rule, q)
    ensures RoutingOf(PlainService(), PublishNamesake(), mint).rule !in Ids(PlainService().rules)
  {
    var g, r := PlainService(), PublishNamesake();
    PlainServiceOk();
    PublishNamesakeNeeds();
    NamesakeHostNew(Needs(r)[0]);
    assert "c" in Ids(g.conditions) by {
      assert g.conditions[0] in g.conditions;
    }
    NewRuleUnmatched(g, r, mint, q);
  }

  lemma NamesakeReaches(mint: Mint)
    requires Generates(mint) && Published(PlainService(), PublishNamesake(), mint).Some?
    ensures Reaches(Published(PlainService(), PublishNamesake(), mint).value, "p")
         == [Some(Place("10.0.0.2", 8080, false))]
  {
    var g, r := PlainService(), PublishNamesake();
    PlainServiceOk();
    assert "p" in Ids(g.pools) by {
      assert g.pools[0] in g.pools;
    }
    NamesakeTakes();
    OneTargetReached(g, r, mint, "p");
  }

  lemma OneTargetReached(g: Graph, r: Request, mint: Mint, id: Id)
    requires r.urls != [] && Generates(mint) && WellFormed(g) && Published(g, r, mint).Some?
    requires id in Ids(g.pools) && Takes(g, r, id) && |r.targets| == 1
    ensures var t := r.targets[0]; Reaches(Published(g, r, mint).value, id) == [Some(Place(t.host, t.port, t.https))]
  {
    TakenReaches(g, r, mint, id);
  }

  lemma PlainServiceReaches()
    ensures Reaches(PlainService(), "p") == [Some(Place("10.0.0.1", 8080, false))]
  {
  }

  /** A listener that is not turned and does not list the service's rule answers what
      that rule does not match as before. */
  lemma StillAnswered(g: Graph, r: Request, mint: Mint, site: ListenerRules.Site, l: Item<Listener>,
          q: ListenerRules.Request)
    requires r.urls != [] && r.urls[0].scheme == Http && Generates(mint) && WellFormed(g)
    requires Published(g, r, mint).Some? && l in g.listeners && RoutingOf(g, r, mint).rule !in l.body.rules
    requires !ListenerRules.Fits(Published(g, r, mint).value, RoutingOf(g, r, mint).rule, q)
    ensures var now := Lookup(Published(g, r, mint).value.listeners, l.id);
            now.Some?
            && ListenerRules.Answer(Published(g, r, mint).value, site, now.value.body, q)
               == ListenerRules.Answer(g, site, l.body, q)
  {
    DistinctLookup(g.listeners, l);
    assert l.id in Ids(g.listeners);
    PublishLeavesOthers(g, r, mint, site, l.id, q);
    RuleOrder.OthersFixed(l.body.rules, RoutingOf(g, r, mint).rule);
  }

  /** The old name's requests go to its pool before and after, and the pool now holds
      the other service's server instead of its own. */
  lemma NamesakeTakesPool(mint: Mint, site: ListenerRules.Site, q: ListenerRules.Request)
    requires Generates(mint) && q.holds == {"c"} && !(site.acmeOn && q.challenge)
    ensures var g, r := PlainService(), PublishNamesake();
            WellFormed(g) && Published(g, r, mint).Some?
            && ListenerRules.Answer(g, site, g.listeners[0].body, q) == ListenerRules.SentTo(ListenerRules.PoolOf("p"))
            && var after := Published(g, r, mint).value;
               Lookup(after.listeners, "l").Some?
               && ListenerRules.Answer(after, site, Lookup(after.listeners, "l").value.body, q)
                   == ListenerRules.SentTo(ListenerRules.PoolOf("p"))
               && Reaches(g, "p") == [Some(Place("10.0.0.1", 8080, false))]
               && Reaches(after, "p") == [Some(Place("10.0.0.2", 8080, false))]
  {
    var g, r := PlainService(), PublishNamesake();
    PlainServiceOk();
    NamesakeAccepted(mint);
    NamesakeUnmatched(mint, q);
    PlainServiceAnswers(site, q);
    assert g.listeners[0] in g.listeners && "r" in Ids(g.rules) by {
      assert g.rules[0] in g.rules;
    }
    StillAnswered(g, r, mint, site, g.listeners[0], q);
    NamesakeReaches(mint);
    PlainServiceReaches();
  }

  // ----- a certificate two services need -----

  /** Two services of one name, one of them below a path, and a certificate for the name
      that has not been issued yet. */
  function TwoOfOneName(): Graph {
    Graph([], [], [Item("p", "app", Pool([], None, map[]))],
          [Item("c", "host-app", Condition(HostMatches, "app", false)),
           Item("d", "path-app", Condition(PathStartsWith, "/x", false))],
          [Item("r", "to-app", Rule(true, false, false, ["c"], Some("p"))),
           Item("x", "to-x", Rule(true, false, false, ["c", "d"], Some("p")))],
          [Item("l", "https-443", Listener(false, true, [Bind("0.0.0.0", 443)], ["k"], ["x", "r"], None, false))],
          [Item("k", "app", Certificate(["app"], "", "", false))])
  }

  /** Giving the first service another name. */
  function RenameService(): Request {
    Request([Url(Https, "other", 443, "")], [Target("", "10.0.0.1", 8080, false)], "other", false, 0, None, map[],
            None, RuleService("r"), true, "", false, "", "", false)
  }

  lemma TwoOfOneNameKnown()
    ensures var g := TwoOfOneName();
            "p" in Ids(g.pools) && {"c", "d"} <= Ids(g.conditions) && {"r", "x"} <= Ids(g.rules)
            && "k" in Ids(g.certificates)
  {
    var g := TwoOfOneName();
    assert g.pools[0] in g.pools && g.conditions[0] in g.conditions && g.conditions[1] in g.conditions;
    assert g.rules[0] in g.rules && g.rules[1] in g.rules && g.certificates[0] in g.certificates;
  }

  lemma TwoOfOneNameResolves()
    ensures var g := TwoOfOneName();
            RulesResolve(g.rules, Ids(g.conditions), Ids(g.pools))
            && ListenersResolve(g.listeners, Ids(g.rules), Ids(g.pools), Ids(g.certificates))
  {
    TwoOfOneNameKnown();
  }

  lemma TwoDistinct<B>(x: Item<B>, y: Item<B>)
    requires x.id != y.id && x.name != y.name
    ensures Distinct([x, y])
  {
    assert [x, y][1..] == [y];
  }

  lemma TwoOfOneNameOk()
    ensures WellFormed(TwoOfOneName())
  {
    var g := TwoOfOneName();
    TwoOfOneNameResolves();
    TwoDistinct(g.conditions[0], g.conditions[1]);
    TwoDistinct(g.rules[0], g.rules[1]);
  }

  lemma RenameServiceNeeds()
    ensures Hosts(RenameService()) == ["other"] && Ports(RenameService()) == [443]
  {
    var r := RenameService();
    assert r.urls[1..] == [];
    assert [] + ["other"] == ["other"];
    assert AddHosts(["other"], []) == ["other"] && AddPorts([443], []) == [443];
  }

  lemma RenameServiceAccepted(mint: Mint)
    ensures Published(TwoOfOneName(), RenameService(), mint).Some?
  {
    var g, r := TwoOfOneName(), RenameService();
    RenameServiceNeeds();
    assert BindsPort(g.listeners[0].body, 443) by {
      assert g.listeners[0].body.binds[0].port == 443;
    }
    assert Serving(443, true)(g.listeners[0]);
    FoundPortAccepted(g, r, mint, 443);
  }

  lemma NotOther(d: string)
    requires d == "app"
    ensures !SameHost(d, "other") && !ExactName(d, "other") && !WildcardName(d, "other")
  {
    assert Lower("other")[0] == 'o' && Lower("app")[0] == 'a';
    PlainStrip("app");
    PlainStrip("other");
  }

  lemma NamesNoOther(c: Item<Certificate>, host: string)
    requires c.body.domains == ["app"] && host == "other"
    ensures BestFor([c], host).None?
  {
    NotOther("app");
    BestForFound([c], host);
  }

  lemma OnlyNamed(c: Item<Certificate>, former: string, host: string)
    requires c.body.domains == [former] && !SameHost(former, host) && !c.body.issued
    ensures Stale([c], [former], host) == Some(c)
  {
    assert NamesOnly(former)(c);
  }

  /** The certificate now names the new name only; the other service is where it was,
      and nothing names its host. */
  lemma RenamedAway(mint: Mint)
    requires Generates(mint)
    ensures var g, r := TwoOfOneName(), RenameService();
            WellFormed(g) && Published(g, r, mint).Some?
            && var after := Published(g, r, mint).value;
               Ids(after.certificates) == {"k"} && Lookup(after.certificates, "k").Some?
               && "app" !in Lookup(after.certificates, "k").value.body.domains
               && Lookup(after.rules, "x") == Lookup(g.rules, "x")
  {
    var g, r := TwoOfOneName(), RenameService();
    TwoOfOneNameOk();
    RenameServiceNeeds();
    RenameServiceAccepted(mint);
    RenamedHere();
    NamesKept(g, r, mint, g.certificates[0], "app");
    RenamedOnly(g, r, mint, g.certificates[0]);
    EditedRule(g, r, mint);
    PublishLeavesObjects(g, r, mint, "x");
  }

  lemma EditedRule(g: Graph, r: Request, mint: Mint)
    requires r.urls != [] && ExistingRule(g, r).Some?
    ensures RoutingOf(g, r, mint).rule == r.service.id
  {
  }

  lemma RenamedOnly(g: Graph, r: Request, mint: Mint, c: Item<Certificate>)
    requires r.urls != [] && !IsTcp(r) && Generates(mint) && WellFormed(g) && Published(g, r, mint).Some?
    requires g.certificates == [c] && WantsCertificate(r) && Renames(r, g.certificates, OldHostsOf(g, r), c)
    ensures Ids(Published(g, r, mint).value.certificates) == {c.id}
  {
    PublishedParts(g, r, mint);
    CertificatesPut(g, r, mint);
    UpsertIds(g.certificates, CertificateFor(r, mint, g.certificates, OldHostsOf(g, r)));
  }

  lemma RenamedHere()
    ensures var g, r := TwoOfOneName(), RenameService();
            WantsCertificate(r) && Renames(r, g.certificates, OldHostsOf(g, r), g.certificates[0])
  {
    var g, r := TwoOfOneName(), RenameService();
    var k := g.certificates[0];
    NotOther("app");
    NamesNoOther(k, "other");
    OnlyNamed(k, "app", "other");
    OldNameHere();
    assert g.certificates == [k];
  }

  lemma OldNameHere()
    ensures OldHostsOf(TwoOfOneName(), RenameService()) == ["app"]
  {
    var g := TwoOfOneName();
    assert Lookup(g.rules, "r") == Some(g.rules[0]) && Lookup(g.conditions, "c") == Some(g.conditions[0]);
    assert ["c"][1..] == [];
    assert OldHosts(g.conditions, []) == [] && ["app"] + [] == ["app"];
  }

  // ----- two pools under one rendered name -----

  function SpacedPool(): Graph {
    Graph([], [], [Item("p", "my app", Pool([], None, map[]))], [], [], [], [])
  }

  function PublishSpaced(): Request {
    PublishApp().(base := "my app", named := true)
  }

  lemma SpacedName()
    ensures Secure("my app") == "my_app" && Secure("my_app") == "my_app"
  {
    assert Strip("my app") == "my app";
    PlainSecure("my_app");
  }

  lemma SpacedPoolNew()
    ensures !Takes(SpacedPool(), PublishSpaced(), "p")
    ensures var g, r := SpacedPool(), PublishSpaced();
            Secure("my app") == Secure(PoolName(r, g.pools, ExistingPool(g, r)))
  {
    var g, r := SpacedPool(), PublishSpaced();
    SpacedName();
    assert !PoolNamed(r)(g.pools[0]) && g.pools[1..] == [];
    assert Find(g.pools, PoolNamed(r)).None?;
    UniqueClean(NamesOf(g.pools), r.base);
    assert "my_app" !in NamesOf(g.pools);
  }

  lemma PublishSpacedAccepted(mint: Mint)
    ensures Published(SpacedPool(), PublishSpaced(), mint).Some?
  {
    PublishAppNeeds();
    assert Ports(PublishSpaced()) == Ports(PublishApp());
    FirstListenerAccepted(SpacedPool(), PublishSpaced(), mint);
  }

  lemma SpacedPoolOk()
    ensures WellFormed(SpacedPool()) && RenderedApart(SpacedPool().pools)
    ensures SpacedPool().pools[0] in SpacedPool().pools
  {
  }

  /** A pool that is not taken and renders to the name the published one gets. */
  lemma RendersAlike(g: Graph, r: Request, mint: Mint, b: Item<Pool>)
    requires r.urls != [] && Generates(mint) && WellFormed(g) && Published(g, r, mint).Some?
    requires RenderedApart(g.pools) && b in g.pools && !Takes(g, r, b.id)
    requires Secure(b.name) == Secure(PoolName(r, g.pools, ExistingPool(g, r)))
    ensures !RenderedApart(Published(g, r, mint).value.pools)
  {
    PoolsApart(g, r, mint);
  }

  /** The wizard looks for the cleaned name, finds none, and makes a pool of that name,
      which renders as the one there is. */
  lemma PoolsRenderAlike(mint: Mint)
    requires Generates(mint)
    ensures var g, r := SpacedPool(), PublishSpaced();
            WellFormed(g) && RenderedApart(g.pools) && Published(g, r, mint).Some?
            && !RenderedApart(Published(g, r, mint).value.pools)
  {
    var g, r := SpacedPool(), PublishSpaced();
    SpacedPoolOk();
    PublishSpacedAccepted(mint);
    SpacedPoolNew();
    RendersAlike(g, r, mint, g.pools[0]);
  }
}
