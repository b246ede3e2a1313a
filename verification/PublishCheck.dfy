/** The health check of a published pool, said in the request's own fields, and what
    publishing leaves of the checks of other pools. */
module PublishCheck {
  import opened Options
  import opened Collections
  import opened ServiceGraph
  import opened CertificateMatch
  import opened PublishSpec
  import opened PublishWellFormed
  import opened PublishServes
  import opened PublishFrame

  /** Field by field what was asked for, and where nothing was said the usual. */
  predicate AsAsked(c: Check, h: Health) {
    && c.kind == h.kind
    && c.interval == (if h.interval != "" then h.interval else "2s")
    && c.httpMethod == (if h.httpMethod != "" then h.httpMethod else "GET")
    && c.httpUri == (if h.uri != "" then h.uri else "/")
    && c.httpVersion == h.version
    && c.httpHost == h.host
    && c.expectStatus == (if h.kind == "http" then h.status else "")
    && c.dbUser == (if h.user != "" then h.user else if h.kind == "pgsql" then "postgres" else "haproxy")
  }

  predicate NamesCheck(r: Request) {
    r.health.Some? && r.health.value.kind != "" && r.health.value.kind != "none"
  }

  /** The check of a pool: none, or the one its monitor is. */
  function CheckOf(g: Graph, pool: Id): Option<Item<Check>> {
    var b := Lookup(g.pools, pool);
    if b.Some? && b.value.body.monitor.Some? then Lookup(g.monitors, b.value.body.monitor.value) else None
  }

  lemma MonitorsPublished(g: Graph, r: Request, mint: Mint)
    requires r.urls != [] && Generates(mint) && WellFormed(g) && Published(g, r, mint).Some?
    ensures var after, b := Published(g, r, mint).value, BackendStep(g, r, mint).graph;
            after.monitors == b.monitors && after.pools == b.pools
  {
    if !IsTcp(r) {
      PublishedParts(g, r, mint);
    }
  }

  lemma PoolMonitor(g: Graph, r: Request, mint: Mint)
    requires r.urls != [] && Generates(mint) && WellFormed(g) && Published(g, r, mint).Some?
    ensures var after, pool := Published(g, r, mint).value, BackendStep(g, r, mint).pool;
            var choice := MonitorStep(r, mint, g.monitors, OwnMonitor(g, r), Shared(g, r));
            after.monitors == choice.monitors && Lookup(after.pools, pool).Some?
            && Lookup(after.pools, pool).value.body.monitor == choice.monitor
  {
    var claims := ClaimAll(r, mint, Claims(g.servers, []), r.targets);
    var choice := MonitorStep(r, mint, g.monitors, OwnMonitor(g, r), Shared(g, r));
    var p := PoolFor(r, mint, g.pools, ExistingPool(g, r), claims.ids, choice.monitor);
    MonitorsPublished(g, r, mint);
    UpsertLookup(g.pools, p, p.id);
  }

  lemma StepAsked(r: Request, mint: Mint, monitors: seq<Item<Check>>, own: Option<Item<Check>>, shared: bool)
    requires Generates(mint) && Distinct(monitors) && (own.Some? ==> own.value in monitors) && NamesCheck(r)
    ensures var c := MonitorStep(r, mint, monitors, own, shared);
            c.monitor.Some? && Lookup(c.monitors, c.monitor.value).Some? &&
            var m := Lookup(c.monitors, c.monitor.value).value;
            AsAsked(m.body, r.health.value)
            && (m.body.mysqlPost41 == r.health.value.post41 || m in monitors)
  {
    var m := MonitorFor(r, mint, monitors, own, shared, Wanted(r.health.value));
    UpsertLookup(monitors, m, m.id);
  }

  /** After an accepted publication that names a check, the pool's check is the one
      asked for. (Whether MySQL's newer handshake is used does not tell checks apart:
      one that was there already keeps what it says.) */
  lemma PublishedCheck(g: Graph, r: Request, mint: Mint)
    requires r.urls != [] && Generates(mint) && WellFormed(g) && Published(g, r, mint).Some? && NamesCheck(r)
    ensures var c := CheckOf(Published(g, r, mint).value, BackendStep(g, r, mint).pool);
            c.Some? && AsAsked(c.value.body, r.health.value)
            && (c.value.body.mysqlPost41 == r.health.value.post41 || c.value in g.monitors)
  {
    PoolMonitor(g, r, mint);
    StepAsked(r, mint, g.monitors, OwnMonitor(g, r), Shared(g, r));
  }

  /** Where the pool has no check of its own and one like that is there, it is used and
      the checks stay as they are. */
  lemma CheckReused(g: Graph, r: Request, mint: Mint, m: Item<Check>)
    requires r.urls != [] && Generates(mint) && WellFormed(g) && Published(g, r, mint).Some? && NamesCheck(r)
    requires OwnMonitor(g, r).None? || UsedElsewhere(g.pools, OwnMonitor(g, r).value.id, ExistingPool(g, r).value.id)
    requires m in g.monitors && AsAsked(m.body, r.health.value)
    ensures Published(g, r, mint).value.monitors == g.monitors
  {
    PoolMonitor(g, r, mint);
    StepReused(r, mint, g.monitors, OwnMonitor(g, r), Shared(g, r), m);
  }

  lemma StepReused(r: Request, mint: Mint, monitors: seq<Item<Check>>, own: Option<Item<Check>>, shared: bool,
          m: Item<Check>)
    requires Distinct(monitors) && NamesCheck(r) && (own.None? || shared)
    requires m in monitors && AsAsked(m.body, r.health.value)
    ensures MonitorStep(r, mint, monitors, own, shared).monitors == monitors
  {
    AsAskedIsLike(r.health.value, m);
    LikeUsed(r, mint, monitors, own, shared, Wanted(r.health.value), m);
  }

  lemma LikeUsed(r: Request, mint: Mint, monitors: seq<Item<Check>>, own: Option<Item<Check>>, shared: bool,
          want: Check, m: Item<Check>)
    requires Distinct(monitors) && (own.None? || shared) && m in monitors && Like(want)(m)
    ensures Upsert(monitors, MonitorFor(r, mint, monitors, own, shared, want)) == monitors
  {
    FindComplete(monitors, Like(want));
    var x := Find(monitors, Like(want)).value;
    DistinctLookup(monitors, x);
    UpsertSame(monitors, x);
  }

  lemma AsAskedIsLike(h: Health, m: Item<Check>)
    requires AsAsked(m.body, h) && h.kind != ""
    ensures Like(Wanted(h))(m)
  {
  }

  /** A check that is not asked for anew, by an edit that says nothing of checks: the
      pool keeps its monitor, as it was unless that is of no kind and nobody else's. */
  lemma SilentCheckStays(g: Graph, r: Request, mint: Mint, own: Item<Pool>, m: Item<Check>)
    requires r.urls != [] && Generates(mint) && WellFormed(g) && Published(g, r, mint).Some? && r.health.None?
    requires ExistingPool(g, r) == Some(own) && CheckOf(g, own.id) == Some(m)
    ensures var after := Published(g, r, mint).value;
            BackendStep(g, r, mint).pool == own.id && Lookup(after.pools, own.id).Some?
            && Lookup(after.pools, own.id).value.body.monitor == Some(m.id)
            && (CheckOf(after, own.id) == Some(m)
                <==> (m.body.kind != "none" && m.body.kind != "") || UsedElsewhere(g.pools, m.id, own.id))
  {
    DistinctLookup(g.pools, own);
    DistinctLookup(g.monitors, m);
    PoolMonitor(g, r, mint);
    WithoutLookup(g.monitors, m.id, m.id);
  }

  /** Where no check is asked for and there is none to keep, the pool has none; and one
      that only this pool had is gone. */
  lemma NoCheckAsked(g: Graph, r: Request, mint: Mint)
    requires r.urls != [] && Generates(mint) && WellFormed(g) && Published(g, r, mint).Some? && !NamesCheck(r)
    requires r.health.None? ==> ExistingPool(g, r).None? || CheckOf(g, ExistingPool(g, r).value.id).None?
    ensures var after, pool := Published(g, r, mint).value, BackendStep(g, r, mint).pool;
            Lookup(after.pools, pool).Some? && Lookup(after.pools, pool).value.body.monitor == None
            && forall own :: ExistingPool(g, r) == Some(own) && CheckOf(g, own.id).Some? ==>
                 var m := CheckOf(g, own.id).value.id;
                 Lookup(after.monitors, m) == if UsedElsewhere(g.pools, m, own.id) then Lookup(g.monitors, m) else None
  {
    PoolMonitor(g, r, mint);
    if ExistingPool(g, r).Some? {
      var own := ExistingPool(g, r).value;
      DistinctLookup(g.pools, own);
      if CheckOf(g, own.id).Some? {
        WithoutLookup(g.monitors, CheckOf(g, own.id).value.id, CheckOf(g, own.id).value.id);
      }
    }
  }

  lemma StepLeaves(r: Request, mint: Mint, monitors: seq<Item<Check>>, own: Option<Item<Check>>, shared: bool, m: Id)
    requires Generates(mint) && Distinct(monitors) && (own.Some? ==> own.value in monitors) && m in Ids(monitors)
    requires own.Some? && own.value.id == m ==> shared
    ensures Lookup(MonitorStep(r, mint, monitors, own, shared).monitors, m) == Lookup(monitors, m)
  {
    if r.health.Some? && CheckKind(r, own) != "none" {
      var x := MonitorFor(r, mint, monitors, own, shared, Wanted(r.health.value));
      UpsertLookup(monitors, x, m);
      if x in monitors {
        DistinctLookup(monitors, x);
      }
    }
    if own.Some? {
      WithoutLookup(monitors, own.value.id, m);
    }
  }

  /** The check of a pool that is not taken is as it was, also when the edited pool
      shares it. */
  lemma OtherChecksStay(g: Graph, r: Request, mint: Mint, b: Item<Pool>)
    requires r.urls != [] && Generates(mint) && WellFormed(g) && Published(g, r, mint).Some?
    requires b in g.pools && !Takes(g, r, b.id) && b.body.monitor.Some?
    ensures CheckOf(g, b.id).Some? && CheckOf(Published(g, r, mint).value, b.id) == CheckOf(g, b.id)
  {
    var m := b.body.monitor.value;
    DistinctLookup(g.pools, b);
    assert b.id in Ids(g.pools);
    OtherPoolsStay(g, r, mint, b.id);
    MonitorsPublished(g, r, mint);
    assert PoolResolves(b.body, Ids(g.servers), Ids(g.monitors));
    assert m in Ids(g.monitors);
    LookupIds(g.monitors, m);
    if OwnMonitor(g, r).Some? && OwnMonitor(g, r).value.id == m {
      assert b.body.monitor == Some(m) && b.id != ExistingPool(g, r).value.id;
      assert UsedElsewhere(g.pools, m, ExistingPool(g, r).value.id);
    }
    StepLeaves(r, mint, g.monitors, OwnMonitor(g, r), Shared(g, r), m);
  }
}
