/** Where the requests of other services end up once a service has been published: at
    which addresses, or with which answer, and exactly when that stays the same. */
module PublishPlaces {
  import opened Options
  import opened Collections
  import opened ServiceGraph
  import opened PublishSpec
  import opened PublishWellFormed
  import opened PublishServes
  import opened PublishFrame
  import RuleOrder
  import ListenerRules

  datatype Place = Place(address: string, port: nat, ssl: bool)

  function PlaceAt(servers: seq<Item<Server>>, id: Id): Option<Place> {
    var s := Lookup(servers, id);
    if s.Some? then Some(Place(s.value.body.address, s.value.body.port, s.value.body.ssl)) else None
  }

  function Places(servers: seq<Item<Server>>, ids: seq<Id>): (ps: seq<Option<Place>>)
    ensures |ps| == |ids| && forall i :: 0 <= i < |ids| ==> ps[i] == PlaceAt(servers, ids[i])
  {
    seq(|ids|, i requires 0 <= i < |ids| => PlaceAt(servers, ids[i]))
  }

  /** The addresses a pool sends to, in the order of its servers. */
  function Reaches(g: Graph, pool: Id): seq<Option<Place>> {
    var b := Lookup(g.pools, pool);
    if b.Some? then Places(g.servers, b.value.body.servers) else []
  }

  function Targeted(ts: seq<Target>): (ps: seq<Option<Place>>)
    ensures |ps| == |ts| && forall i :: 0 <= i < |ts| ==> ps[i] == Some(Place(ts[i].host, ts[i].port, ts[i].https))
  {
    seq(|ts|, i requires 0 <= i < |ts| => Some(Place(ts[i].host, ts[i].port, ts[i].https)))
  }

  /** Told before publishing: a pool that is taken has the targets already, and of any
      other no server is moved. */
  predicate StaysPut(g: Graph, r: Request, mint: Mint, b: Item<Pool>) {
    if Takes(g, r, b.id) then Places(g.servers, b.body.servers) == Targeted(r.targets)
    else forall id | id in b.body.servers ::
      Lookup(g.servers, id).Some? ==>
        !Repoints(r, mint, Claims(g.servers, []), r.targets, Lookup(g.servers, id).value)
  }

  lemma StepPublished(g: Graph, r: Request, mint: Mint)
    requires r.urls != [] && Generates(mint) && WellFormed(g) && Published(g, r, mint).Some?
    ensures var after, b := Published(g, r, mint).value, BackendStep(g, r, mint).graph;
            after.servers == b.servers && after.pools == b.pools
  {
    if !IsTcp(r) {
      PublishedParts(g, r, mint);
    }
  }

  lemma TakenReaches(g: Graph, r: Request, mint: Mint, id: Id)
    requires r.urls != [] && Generates(mint) && WellFormed(g) && Published(g, r, mint).Some?
    requires id in Ids(g.pools) && Takes(g, r, id)
    ensures Reaches(Published(g, r, mint).value, id) == Targeted(r.targets)
  {
    var after := Published(g, r, mint).value;
    StepPublished(g, r, mint);
    PoolTaken(g, r, mint, id);
    BackendServes(g, r, mint);
    var ids := Lookup(after.pools, id).value.body.servers;
    assert TargetsServed(after.servers, ids, r.targets);
    forall i | 0 <= i < |ids|
      ensures Places(after.servers, ids)[i] == Targeted(r.targets)[i]
    {
    }
  }

  /** Every pool, whoever uses it, sends to the same addresses as before exactly when
      it stays put. */
  lemma PoolReachesSame(g: Graph, r: Request, mint: Mint, b: Item<Pool>)
    requires r.urls != [] && Generates(mint) && WellFormed(g) && Published(g, r, mint).Some? && b in g.pools
    ensures Reaches(Published(g, r, mint).value, b.id) == Reaches(g, b.id) <==> StaysPut(g, r, mint, b)
  {
    DistinctLookup(g.pools, b);
    if Takes(g, r, b.id) {
      TakenReaches(g, r, mint, b.id);
    } else {
      StepPublished(g, r, mint);
      OtherPoolsStay(g, r, mint, b.id);
      OthersReach(g, r, mint, b);
    }
  }

  lemma OthersReach(g: Graph, r: Request, mint: Mint, b: Item<Pool>)
    requires r.urls != [] && Generates(mint) && WellFormed(g) && Published(g, r, mint).Some? && b in g.pools
    requires !Takes(g, r, b.id)
    ensures Places(Published(g, r, mint).value.servers, b.body.servers) == Places(g.servers, b.body.servers)
       <==> StaysPut(g, r, mint, b)
  {
    var was, now, ids := g.servers, Published(g, r, mint).value.servers, b.body.servers;
    forall id | id in ids
      ensures Lookup(was, id).Some?
      ensures PlaceAt(now, id) == PlaceAt(was, id)
         <==> !Repoints(r, mint, Claims(was, []), r.targets, Lookup(was, id).value)
    {
      OtherServersStay(g, r, mint, b, id);
    }
    PlacesSame(was, now, ids);
  }

  lemma PlacesSame(was: seq<Item<Server>>, now: seq<Item<Server>>, ids: seq<Id>)
    ensures Places(now, ids) == Places(was, ids) <==> forall id :: id in ids ==> PlaceAt(now, id) == PlaceAt(was, id)
  {
    if Places(now, ids) == Places(was, ids) {
      forall id | id in ids
        ensures PlaceAt(now, id) == PlaceAt(was, id)
      {
        var i :| 0 <= i < |ids| && ids[i] == id;
        assert Places(now, ids)[i] == Places(was, ids)[i];
      }
    }
  }

  // ----- what becomes of a request -----

  /** A request ends at a pool's servers, or with an answer of HAProxy's own or the
      manager's. */
  datatype Landing = AtServers(places: seq<Option<Place>>) | Elsewhere(outcome: ListenerRules.Outcome)

  predicate ToPool(o: ListenerRules.Outcome) {
    o.SentTo? && o.target.PoolOf?
  }

  function Lands(g: Graph, o: ListenerRules.Outcome): Landing {
    if ToPool(o) then AtServers(Reaches(g, o.target.id)) else Elsewhere(o)
  }

  /** The pool that answered, if one did, stays put. */
  predicate AnswerStays(g: Graph, r: Request, mint: Mint, o: ListenerRules.Outcome) {
    ToPool(o) && Lookup(g.pools, o.target.id).Some? ==> StaysPut(g, r, mint, Lookup(g.pools, o.target.id).value)
  }

  /** Only pools that exist answer. */
  lemma AnswerKnown(g: Graph, site: ListenerRules.Site, l: Listener, q: ListenerRules.Request)
    requires ListenerRules.Resolved(g) && Optional(l.defaultPool) <= Ids(g.pools)
    ensures var o := ListenerRules.Answer(g, site, l, q); ToPool(o) ==> o.target.id in Ids(g.pools)
  {
    var routes := ListenerRules.RouteIds(g, l.rules);
    ListenerRules.ListenerDecides(g, site, l, q);
    if RuleOrder.FirstMatch(g.rules, routes, q.holds).Some? {
      RuleOrder.FirstMatchIs(g.rules, routes, q.holds);
    }
  }

  lemma SameAnswerLands(g: Graph, r: Request, mint: Mint, o: ListenerRules.Outcome)
    requires r.urls != [] && Generates(mint) && WellFormed(g) && Published(g, r, mint).Some?
    requires ToPool(o) ==> o.target.id in Ids(g.pools)
    ensures Lands(Published(g, r, mint).value, o) == Lands(g, o) <==> AnswerStays(g, r, mint, o)
  {
    if ToPool(o) {
      LookupIds(g.pools, o.target.id);
      PoolReachesSame(g, r, mint, Lookup(g.pools, o.target.id).value);
    }
  }

  lemma ListenerPoolKnown(g: Graph, id: Id)
    requires WellFormed(g) && id in Ids(g.listeners)
    ensures Lookup(g.listeners, id).Some? && Optional(Lookup(g.listeners, id).value.body.defaultPool) <= Ids(g.pools)
  {
    LookupIds(g.listeners, id);
    assert Lookup(g.listeners, id).value in g.listeners;
  }

  lemma LandsAfter(g: Graph, r: Request, mint: Mint, before: ListenerRules.Outcome, now: ListenerRules.Outcome,
          diverted: bool)
    requires r.urls != [] && Generates(mint) && WellFormed(g) && Published(g, r, mint).Some?
    requires ToPool(before) ==> before.target.id in Ids(g.pools)
    requires if diverted then now == ListenerRules.Redirected != before else now == before
    ensures Lands(Published(g, r, mint).value, now) == Lands(g, before)
       <==> !diverted && AnswerStays(g, r, mint, before)
  {
    SameAnswerLands(g, r, mint, before);
  }

  /** After publishing an http or https service a request that its rule does not match
      ends where it would have ended without that rule, exactly when its listener is
      not turned to https and the pool that answered it stays put. */
  lemma OthersLand(g: Graph, r: Request, mint: Mint, site: ListenerRules.Site, id: Id, q: ListenerRules.Request)
    requires r.urls != [] && !IsTcp(r) && Generates(mint) && WellFormed(g) && Published(g, r, mint).Some?
    requires id in Ids(g.listeners)
    requires !ListenerRules.Fits(Published(g, r, mint).value, RoutingOf(g, r, mint).rule, q)
    ensures var after, rule := Published(g, r, mint).value, RoutingOf(g, r, mint).rule;
            Lookup(g.listeners, id).Some? && Lookup(after.listeners, id).Some? &&
            var was, now := Lookup(g.listeners, id).value.body, Lookup(after.listeners, id).value.body;
            var before := ListenerRules.Answer(g, site, was.(rules := RuleOrder.Others(was.rules, rule)), q);
            Lands(after, ListenerRules.Answer(after, site, now, q)) == Lands(g, before)
            <==> !Diverts(g, r, site, id, q) && AnswerStays(g, r, mint, before)
  {
    PublishLeavesOthers(g, r, mint, site, id, q);
    var after, rule := Published(g, r, mint).value, RoutingOf(g, r, mint).rule;
    var was := Lookup(g.listeners, id).value.body;
    var rest := was.(rules := RuleOrder.Others(was.rules, rule));
    ListenerPoolKnown(g, id);
    AnswerKnown(g, site, rest, q);
    var before := ListenerRules.Answer(g, site, rest, q);
    var now := ListenerRules.Answer(after, site, Lookup(after.listeners, id).value.body, q);
    LandsAfter(g, r, mint, before, now, Diverts(g, r, site, id, q));
  }

  // ----- after publishing a tcp service -----

  /** Told before publishing: the listener that a tcp service is served by. */
  predicate ServesTcp(g: Graph, r: Request, id: Id)
    requires r.urls != []
  {
    var l := TcpListener(g.listeners, r.urls[0], ExistingListener(g, r));
    l.Some? && l.value.id == id
  }

  lemma TcpLeavesListeners(g: Graph, r: Request, mint: Mint, id: Id)
    requires r.urls != [] && IsTcp(r) && Generates(mint) && WellFormed(g) && Published(g, r, mint).Some?
    requires id in Ids(g.listeners) && !ServesTcp(g, r, id)
    ensures Lookup(Published(g, r, mint).value.listeners, id) == Lookup(g.listeners, id)
  {
    var edited := ExistingListener(g, r);
    var l := TcpListener(g.listeners, r.urls[0], edited).Or(NewTcpListener(r, mint, g.listeners, r.urls[0]));
    UpsertLookup(g.listeners, l.(body := l.body.(defaultPool := Some(BackendStep(g, r, mint).pool))), id);
  }

  /** A request on any listener but the one that serves the tcp service ends where it
      ended before exactly when the pool that answered it stays put. */
  lemma TcpOthersLand(g: Graph, r: Request, mint: Mint, site: ListenerRules.Site, id: Id, q: ListenerRules.Request)
    requires r.urls != [] && IsTcp(r) && Generates(mint) && WellFormed(g) && Published(g, r, mint).Some?
    requires id in Ids(g.listeners) && !ServesTcp(g, r, id)
    ensures var after := Published(g, r, mint).value;
            Lookup(g.listeners, id).Some? && Lookup(after.listeners, id) == Lookup(g.listeners, id) &&
            var l := Lookup(g.listeners, id).value.body;
            var before := ListenerRules.Answer(g, site, l, q);
            Lands(after, ListenerRules.Answer(after, site, l, q)) == Lands(g, before)
            <==> AnswerStays(g, r, mint, before)
  {
    var after := Published(g, r, mint).value;
    TcpLeavesListeners(g, r, mint, id);
    ListenerPoolKnown(g, id);
    var l := Lookup(g.listeners, id).value.body;
    BackendStepOk(g, r, mint);
    SameRulesAnswer(g, after, site, l, q);
    AnswerKnown(g, site, l, q);
    SameAnswerLands(g, r, mint, ListenerRules.Answer(g, site, l, q));
  }

  lemma SameRulesAnswer(g: Graph, h: Graph, site: ListenerRules.Site, l: Listener, q: ListenerRules.Request)
    requires ListenerRules.Resolved(g) && g.rules == h.rules && g.conditions == h.conditions
    requires Ids(g.pools) <= Ids(h.pools)
    ensures ListenerRules.Answer(h, site, l, q) == ListenerRules.Answer(g, site, l, q)
  {
    assert ListenerRules.Resolved(h);
    ListenerRules.ListenerDecides(g, site, l, q);
    ListenerRules.ListenerDecides(h, site, l, q);
    SameFirst(g, h, site, l.rules, q);
  }

  lemma {:induction false} SameFirst(g: Graph, h: Graph, site: ListenerRules.Site, ids: seq<Id>,
          q: ListenerRules.Request)
    requires g.rules == h.rules
    ensures ListenerRules.FirstEnd(g, site, ids, q) == ListenerRules.FirstEnd(h, site, ids, q)
    ensures ListenerRules.RouteIds(g, ids) == ListenerRules.RouteIds(h, ids)
  {
    if ids != [] {
      SameFirst(g, h, site, ids[1..], q);
    }
  }
}
