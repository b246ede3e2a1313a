/** Removing a service and every object it alone was using (ham/webui.py,
    `_remove_service_objects` and `api_service_delete`). */
module Removal {
  import opened Options
  import opened Collections
  import opened ServiceGraph
  import opened PublishSpec
  import opened PublishWellFormed
  import opened PublishServes
  import PublishFrame
  import RuleOrder
  import Wizard

  predicate PoolUsed(rules: seq<Item<Rule>>, listeners: seq<Item<Listener>>, pool: Id) {
    (exists x :: x in rules && x.body.pool == Some(pool)) ||
    exists l :: l in listeners && l.body.defaultPool == Some(pool)
  }

  /** A pool nothing sends requests to goes, with those of its servers that no
      other pool has; for a tcp service only those the wizard made. */
  function DropPool(g: Graph, pool: Option<Id>, sparesHandMade: bool): Graph {
    if pool.None? || Lookup(g.pools, pool.value).None? || PoolUsed(g.rules, g.listeners, pool.value) then g
    else
      var servers := Lookup(g.pools, pool.value).value.body.servers;
      var pools := Without(g.pools, pool.value);
      g.(pools := pools,
         servers := if sparesHandMade then DropOrphans(g.servers, servers, Referenced(pools))
                    else DropUnused(g.servers, servers, Referenced(pools)))
  }

  /** The configuration without the rule, and without the conditions only it had. */
  function WithoutRule(g: Graph, rule: Item<Rule>): Graph {
    var rules := Without(g.rules, rule.id);
    g.(rules := rules,
       listeners := Release(g.listeners, [], rule.id),
       conditions := DropUnused(g.conditions, rule.body.conditions, UsedConditions(rules)))
  }

  function Removed(g: Graph, id: Id): Graph {
    var rule := Lookup(g.rules, id);
    if rule.None? then g else DropPool(WithoutRule(g, rule.value), rule.value.body.pool, false)
  }

  function RemovedTcp(g: Graph, id: Id): Graph {
    var l := Lookup(g.listeners, id);
    if l.None? then g
    else DropPool(g.(listeners := Without(g.listeners, id)), l.value.body.defaultPool, true)
  }

  // ----- well-formedness -----

  lemma WithoutPoolResolves(g: Graph, pool: Id, servers: seq<Item<Server>>)
    requires WellFormed(g) && !PoolUsed(g.rules, g.listeners, pool)
    requires Distinct(servers) && Ids(g.servers) * Referenced(Without(g.pools, pool)) <= Ids(servers)
    ensures WellFormed(g.(pools := Without(g.pools, pool), servers := servers))
  {
    var pools := Without(g.pools, pool);
    WithoutDistinct(g.pools, pool);
    WithoutIds(g.pools, pool);
    forall p | p in pools
      ensures PoolResolves(p.body, Ids(servers), Ids(g.monitors))
    {
      WithoutMember(g.pools, pool, p);
      ReferencedBy(pools, p);
      assert PoolResolves(p.body, Ids(g.servers), Ids(g.monitors));
    }
    RulesWithoutPool(g.rules, Ids(g.conditions), Ids(g.pools), pool);
    ListenersWithoutPool(g.listeners, Ids(g.rules), Ids(g.pools), Ids(g.certificates), pool);
  }

  lemma RulesWithoutPool(rules: seq<Item<Rule>>, conditions: set<Id>, pools: set<Id>, pool: Id)
    requires RulesResolve(rules, conditions, pools)
    requires forall x :: x in rules ==> x.body.pool != Some(pool)
    ensures RulesResolve(rules, conditions, pools - {pool})
  {
    forall x | x in rules
      ensures RuleResolves(x.body, conditions, pools - {pool})
    {
      assert RuleResolves(x.body, conditions, pools);
    }
  }

  lemma ListenersWithoutPool(ls: seq<Item<Listener>>, rules: set<Id>, pools: set<Id>, certificates: set<Id>, pool: Id)
    requires ListenersResolve(ls, rules, pools, certificates)
    requires forall l :: l in ls ==> l.body.defaultPool != Some(pool)
    ensures ListenersResolve(ls, rules, pools - {pool}, certificates)
  {
    forall l | l in ls
      ensures ListenerResolves(l.body, rules, pools - {pool}, certificates)
    {
      assert ListenerResolves(l.body, rules, pools, certificates);
    }
  }

  lemma DropPoolOk(g: Graph, pool: Option<Id>, sparesHandMade: bool)
    requires WellFormed(g)
    ensures WellFormed(DropPool(g, pool, sparesHandMade))
  {
    if DropPool(g, pool, sparesHandMade) != g {
      var servers := Lookup(g.pools, pool.value).value.body.servers;
      var used := Referenced(Without(g.pools, pool.value));
      DropOrphansOk(g.servers, servers, used);
      DropUnusedOk(g.servers, servers, used);
      WithoutPoolResolves(g, pool.value, DropPool(g, pool, sparesHandMade).servers);
    }
  }

  lemma {:induction false} ReleasedResolve(ls: seq<Item<Listener>>, rule: Id, rules: set<Id>, pools: set<Id>,
          certificates: set<Id>)
    requires ListenersResolve(ls, rules, pools, certificates)
    ensures ListenersResolve(Release(ls, [], rule), rules - {rule}, pools, certificates)
  {
    if ls != [] {
      var l := ls[0].body;
      assert ListenerResolves(l, rules, pools, certificates);
      forall x | x in RuleOrder.Others(l.rules, rule)
        ensures x in rules - {rule}
      {
        RuleOrder.OthersMember(l.rules, rule, x);
        assert x in SetOf(l.rules);
      }
      ReleasedResolve(ls[1..], rule, rules, pools, certificates);
    }
  }

  lemma WithoutRuleOk(g: Graph, rule: Item<Rule>)
    requires WellFormed(g)
    ensures WellFormed(WithoutRule(g, rule))
  {
    var after := WithoutRule(g, rule);
    var rules := after.rules;
    WithoutDistinct(g.rules, rule.id);
    WithoutIds(g.rules, rule.id);
    ReleaseDistinct(g.listeners, [], rule.id);
    ReleasedResolve(g.listeners, rule.id, Ids(g.rules), Ids(g.pools), Ids(g.certificates));
    DropUnusedOk(g.conditions, rule.body.conditions, UsedConditions(rules));
    forall x | x in rules
      ensures RuleResolves(x.body, Ids(after.conditions), Ids(g.pools))
    {
      WithoutMember(g.rules, rule.id, x);
      UsedBy(rules, x);
      assert RuleResolves(x.body, Ids(g.conditions), Ids(g.pools));
    }
  }

  /** Removing a service keeps the configuration well formed. */
  lemma RemovedKeepsWellFormed(g: Graph, id: Id)
    requires WellFormed(g)
    ensures WellFormed(Removed(g, id)) && WellFormed(RemovedTcp(g, id))
  {
    var rule := Lookup(g.rules, id);
    if rule.Some? {
      WithoutRuleOk(g, rule.value);
      DropPoolOk(WithoutRule(g, rule.value), rule.value.body.pool, false);
    }
    var l := Lookup(g.listeners, id);
    if l.Some? {
      WithoutDistinct(g.listeners, id);
      forall x | x in Without(g.listeners, id)
        ensures ListenerResolves(x.body, Ids(g.rules), Ids(g.pools), Ids(g.certificates))
      {
        WithoutMember(g.listeners, id, x);
      }
      DropPoolOk(g.(listeners := Without(g.listeners, id)), l.value.body.defaultPool, true);
    }
  }

  // ----- what goes and what stays -----

  lemma DropPoolSpares(g: Graph, pool: Option<Id>, sparesHandMade: bool, x: Id)
    ensures PoolUsed(g.rules, g.listeners, x) ==>
        Lookup(DropPool(g, pool, sparesHandMade).pools, x) == Lookup(g.pools, x)
    ensures x in Referenced(DropPool(g, pool, sparesHandMade).pools) ==>
              Lookup(DropPool(g, pool, sparesHandMade).servers, x) == Lookup(g.servers, x)
    ensures pool.Some? && !PoolUsed(g.rules, g.listeners, pool.value) ==>
              Lookup(DropPool(g, pool, sparesHandMade).pools, pool.value).None?
  {
    if pool.Some? && Lookup(g.pools, pool.value).Some? && !PoolUsed(g.rules, g.listeners, pool.value) {
      var servers := Lookup(g.pools, pool.value).value.body.servers;
      var used := Referenced(Without(g.pools, pool.value));
      WithoutLookup(g.pools, pool.value, x);
      WithoutLookup(g.pools, pool.value, pool.value);
      DropUnusedLookup(g.servers, servers, used, x);
      if x in used {
        DropOrphansLookup(g.servers, servers, used, x);
      }
    }
  }

  /** Conditions, pools and servers that any remaining rule, listener or pool uses
      are as they were; the other rules too, and every listener but for the rule. */
  lemma RemovedSpares(g: Graph, id: Id, x: Id)
    requires WellFormed(g)
    ensures var after := Removed(g, id);
            (x in UsedConditions(after.rules) ==> Lookup(after.conditions, x) == Lookup(g.conditions, x))
            && (PoolUsed(after.rules, after.listeners, x) ==> Lookup(after.pools, x) == Lookup(g.pools, x))
            && (x in Referenced(after.pools) ==> Lookup(after.servers, x) == Lookup(g.servers, x))
            && (x != id ==> Lookup(after.rules, x) == Lookup(g.rules, x))
            && PublishFrame.ListenersKept(g.listeners, after.listeners, id)
            && after.monitors == g.monitors && after.certificates == g.certificates
  {
    PublishFrame.ListenersSame(g.listeners, id);
    var rule := Lookup(g.rules, id);
    if rule.Some? {
      var h := WithoutRule(g, rule.value);
      WithoutLookup(g.rules, id, x);
      PublishFrame.ReleaseKept(g.listeners, [], id);
      DropUnusedLookup(g.conditions, rule.value.body.conditions, UsedConditions(h.rules), x);
      DropPoolSpares(h, rule.value.body.pool, false, x);
    }
  }

  /** The rule goes from the rules and from every listener, and with it exactly the
      conditions that only it used, and its pool when nothing else used that. */
  lemma RemovedIsGone(g: Graph, id: Id, c: Id)
    requires WellFormed(g) && Lookup(g.rules, id).Some?
    ensures var after, rule := Removed(g, id), Lookup(g.rules, id).value.body;
            id !in Ids(after.rules) && (forall l :: l in after.listeners ==> id !in l.body.rules)
            && (c in Ids(after.conditions) <==>
                c in Ids(g.conditions) && (c in UsedConditions(after.rules) || c !in rule.conditions))
            && (rule.pool.Some? && !PoolUsed(after.rules, after.listeners, rule.pool.value) ==>
                rule.pool.value !in Ids(after.pools))
  {
    var rule := Lookup(g.rules, id).value;
    var h := WithoutRule(g, rule);
    WithoutIds(g.rules, id);
    forall l | l in h.listeners
      ensures id !in l.body.rules
    {
      ReleaseOnly(g.listeners, [], id, l);
    }
    DropUnusedOk(g.conditions, rule.body.conditions, UsedConditions(h.rules));
    DropPoolSpares(h, rule.body.pool, false, c);
    if rule.body.pool.Some? {
      LookupIds(Removed(g, id).pools, rule.body.pool.value);
    }
  }

  // ----- what goes, object by object -----

  /** Does a rule other than this one test the condition? */
  ghost predicate TestedElsewhere(g: Graph, id: Id, c: Id) {
    exists x :: x in g.rules && x.id != id && c in x.body.conditions
  }

  ghost predicate ListedElsewhere(g: Graph, pool: Id, s: Id) {
    exists b :: b in g.pools && b.id != pool && s in b.body.servers
  }

  /** A server of the pool that no other pool lists. */
  ghost predicate ServerGoes(g: Graph, pool: Id, s: Id) {
    Lookup(g.pools, pool).Some? && s in Lookup(g.pools, pool).value.body.servers && !ListedElsewhere(g, pool, s)
  }

  lemma {:induction false} InWithout<B>(xs: seq<Item<B>>, id: Id, y: Item<B>)
    ensures y in Without(xs, id) <==> y in xs && y.id != id
  {
    if xs != [] {
      InWithout(xs[1..], id, y);
    }
  }

  lemma ReferencedWithout(g: Graph, pool: Id, s: Id)
    ensures s in Referenced(Without(g.pools, pool)) <==> ListedElsewhere(g, pool, s)
  {
    forall b
      ensures b in Without(g.pools, pool) <==> b in g.pools && b.id != pool
    {
      InWithout(g.pools, pool, b);
    }
  }

  lemma UsedWithout(g: Graph, rule: Id, c: Id)
    ensures c in UsedConditions(Without(g.rules, rule)) <==> TestedElsewhere(g, rule, c)
  {
    forall x
      ensures x in Without(g.rules, rule) <==> x in g.rules && x.id != rule
    {
      InWithout(g.rules, rule, x);
    }
  }

  /** What dropping a pool takes away, by its own collections. */
  lemma PoolDropped(g: Graph, pool: Option<Id>, sparesHandMade: bool, x: Id)
    ensures var h := DropPool(g, pool, sparesHandMade);
            var goes := pool.Some? && Lookup(g.pools, pool.value).Some?
                          && !PoolUsed(g.rules, g.listeners, pool.value);
            Lookup(h.pools, x) == (if goes && x == pool.value then None else Lookup(g.pools, x))
            && Lookup(h.servers, x) ==
               (if goes && ServerGoes(g, pool.value, x) && Lookup(g.servers, x).Some?
                   && (sparesHandMade ==> Lookup(g.servers, x).value.body.wizardMade)
                then None else Lookup(g.servers, x))
            && h.rules == g.rules && h.conditions == g.conditions && h.listeners == g.listeners
            && h.monitors == g.monitors && h.certificates == g.certificates
  {
    if pool.Some? && Lookup(g.pools, pool.value).Some? && !PoolUsed(g.rules, g.listeners, pool.value) {
      var servers := Lookup(g.pools, pool.value).value.body.servers;
      var used := Referenced(Without(g.pools, pool.value));
      WithoutLookup(g.pools, pool.value, x);
      ReferencedWithout(g, pool.value, x);
      DroppedOrphans(g.servers, servers, used, x);
      DropUnusedLookup(g.servers, servers, used, x);
    }
  }

  lemma UsedAfterRule(g: Graph, rule: Id, pool: Id)
    ensures PoolUsed(Without(g.rules, rule), Release(g.listeners, [], rule), pool) <==>
      (exists x :: x in g.rules && x.id != rule && x.body.pool == Some(pool)) ||
      (exists l :: l in g.listeners && l.body.defaultPool == Some(pool))
  {
    forall x
      ensures x in Without(g.rules, rule) <==> x in g.rules && x.id != rule
    {
      InWithout(g.rules, rule, x);
    }
    ReleasedDefaults(g.listeners, rule, pool);
  }

  lemma {:induction false} ReleasedDefaults(ls: seq<Item<Listener>>, rule: Id, pool: Id)
    ensures (exists l :: l in Release(ls, [], rule) && l.body.defaultPool == Some(pool))
       <==> exists l :: l in ls && l.body.defaultPool == Some(pool)
  {
    if ls != [] {
      ReleasedDefaults(ls[1..], rule, pool);
      var all := Release(ls, [], rule);
      assert forall l :: l in all <==> l == all[0] || l in Release(ls[1..], [], rule);
      assert forall l :: l in ls <==> l == ls[0] || l in ls[1..];
    }
  }

  /** Removing a rule's service, object by object: the rule goes; of its conditions those
      that no other rule tests; its pool when no other rule routes there and no listener
      sends it the rest; then those of the pool's servers that no other pool lists.
      Everything else is as it was. */
  lemma RemovedExactly(g: Graph, id: Id, x: Id)
    requires WellFormed(g) && Lookup(g.rules, id).Some?
    ensures var after, rule := Removed(g, id), Lookup(g.rules, id).value.body;
            var reached := rule.pool.Some? &&
              ((exists y :: y in g.rules && y.id != id && y.body.pool == rule.pool) ||
               (exists l :: l in g.listeners && l.body.defaultPool == rule.pool));
            var goes := rule.pool.Some? && Lookup(g.pools, rule.pool.value).Some? && !reached;
            Lookup(after.rules, x) == (if x == id then None else Lookup(g.rules, x))
            && Lookup(after.conditions, x) ==
               (if x in rule.conditions && !TestedElsewhere(g, id, x) then None else Lookup(g.conditions, x))
            && Lookup(after.pools, x) == (if goes && x == rule.pool.value then None else Lookup(g.pools, x))
            && Lookup(after.servers, x) ==
               (if goes && ServerGoes(g, rule.pool.value, x) then None else Lookup(g.servers, x))
            && after.monitors == g.monitors && after.certificates == g.certificates
  {
    var rule := Lookup(g.rules, id).value;
    var h := WithoutRule(g, rule);
    WithoutLookup(g.rules, id, x);
    UsedWithout(g, id, x);
    DropUnusedLookup(g.conditions, rule.body.conditions, UsedConditions(h.rules), x);
    if rule.body.pool.Some? {
      UsedAfterRule(g, id, rule.body.pool.value);
    }
    PoolDropped(h, rule.body.pool, false, x);
  }

  /** Removing a tcp service, object by object: the listener goes; its pool when no rule
      routes there and no other listener sends it the rest; then those of the pool's
      servers that the wizard made and no other pool lists. Everything else is as it was. */
  lemma RemovedTcpExactly(g: Graph, id: Id, x: Id)
    requires WellFormed(g) && Lookup(g.listeners, id).Some?
    ensures var after, l := RemovedTcp(g, id), Lookup(g.listeners, id).value.body;
            var reached := l.defaultPool.Some? &&
              ((exists y :: y in g.rules && y.body.pool == l.defaultPool) ||
               (exists k :: k in g.listeners && k.id != id && k.body.defaultPool == l.defaultPool));
            var goes := l.defaultPool.Some? && Lookup(g.pools, l.defaultPool.value).Some? && !reached;
            Lookup(after.listeners, x) == (if x == id then None else Lookup(g.listeners, x))
            && Lookup(after.pools, x) == (if goes && x == l.defaultPool.value then None else Lookup(g.pools, x))
            && Lookup(after.servers, x) ==
               (if goes && ServerGoes(g, l.defaultPool.value, x) && Lookup(g.servers, x).Some?
                   && Lookup(g.servers, x).value.body.wizardMade
                then None else Lookup(g.servers, x))
            && after.rules == g.rules && after.conditions == g.conditions
            && after.monitors == g.monitors && after.certificates == g.certificates
  {
    var l := Lookup(g.listeners, id).value.body;
    var h := g.(listeners := Without(g.listeners, id));
    WithoutLookup(g.listeners, id, x);
    forall k
      ensures k in h.listeners <==> k in g.listeners && k.id != id
    {
      InWithout(g.listeners, id, k);
    }
    PoolDropped(h, l.defaultPool, true, x);
  }

  // ----- removing undoes publishing -----

  /** The items whose id is not in a set. */
  ghost function Outside<B>(xs: seq<Item<B>>, ids: set<Id>): seq<Item<B>> {
    if xs == [] then []
    else if xs[0].id in ids then Outside(xs[1..], ids)
    else [xs[0]] + Outside(xs[1..], ids)
  }

  lemma {:induction false} OutsideAll<B>(xs: seq<Item<B>>, ids: set<Id>)
    requires Ids(xs) !! ids
    ensures Outside(xs, ids) == xs
  {
    if xs != [] {
      IdsCons(xs[0], xs[1..]);
      assert [xs[0]] + xs[1..] == xs;
      OutsideAll(xs[1..], ids);
    }
  }

  lemma {:induction false} OutsideUpsert<B>(xs: seq<Item<B>>, x: Item<B>, ids: set<Id>)
    requires x.id in ids
    ensures Outside(Upsert(xs, x), ids) == Outside(xs, ids)
  {
    if xs == [] {
      assert Upsert(xs, x)[1..] == [];
    } else if xs[0].id == x.id {
      assert Upsert(xs, x)[1..] == xs[1..];
    } else {
      OutsideUpsert(xs[1..], x, ids);
    }
  }

  lemma {:induction false} OutsideWithout<B>(xs: seq<Item<B>>, id: Id, ids: set<Id>)
    ensures Outside(Without(xs, id), ids) == Outside(xs, ids + {id})
  {
    if xs != [] {
      OutsideWithout(xs[1..], id, ids);
    }
  }

  lemma {:induction false} DropUnusedOutside<B>(xs: seq<Item<B>>, candidates: seq<Id>, used: set<Id>)
    requires SetOf(candidates) !! used
    ensures DropUnused(xs, candidates, used) == Outside(xs, SetOf(candidates))
    decreases |candidates|
  {
    if candidates == [] {
      assert SetOf(candidates) == {};
      OutsideAll(xs, {});
    } else {
      var rest := candidates[1..];
      assert candidates[0] in SetOf(candidates) && SetOf(rest) <= SetOf(candidates);
      DropUnusedOutside(Without(xs, candidates[0]), rest, used);
      OutsideWithout(xs, candidates[0], SetOf(rest));
      assert [candidates[0]] + rest == candidates;
      assert SetOf(rest) + {candidates[0]} == SetOf(candidates);
    }
  }

  lemma {:induction false} ClaimAllOutside(r: Request, mint: Mint, c: Claims, ts: seq<Target>, ids: set<Id>)
    requires SetOf(ClaimAll(r, mint, c, ts).ids) <= ids
    ensures Outside(ClaimAll(r, mint, c, ts).servers, ids) == Outside(c.servers, ids)
    ensures SetOf(c.ids) <= SetOf(ClaimAll(r, mint, c, ts).ids)
    decreases |ts|
  {
    if ts != [] {
      var d := ClaimOne(r, mint, c, ts[0]);
      ClaimAllOutside(r, mint, d, ts[1..], ids);
      SetOfAppend(c.ids, d.ids[|c.ids|]);
      OutsideUpsert(c.servers, Configured(r, ServerFor(r, mint, c.servers, ts[0], c.ids)), ids);
    }
  }

  lemma {:induction false} NeedAllOutside(mint: Mint, c: Conditions, ns: seq<Need>, ids: set<Id>)
    requires SetOf(NeedAll(mint, c, ns).ids) <= ids
    ensures Outside(NeedAll(mint, c, ns).all, ids) == Outside(c.all, ids)
    ensures SetOf(c.ids) <= SetOf(NeedAll(mint, c, ns).ids)
    decreases |ns|
  {
    if ns != [] {
      var d := NeedOne(mint, c, ns[0]);
      NeedAllOutside(mint, d, ns[1..], ids);
      SetOfAppend(c.ids, d.ids[|c.ids|]);
      OutsideUpsert(c.all, ConditionFor(mint, c.all, ns[0]), ids);
    }
  }

  lemma {:induction false} WithoutUpsert<B>(xs: seq<Item<B>>, x: Item<B>)
    requires x.id !in Ids(xs)
    ensures Without(Upsert(xs, x), x.id) == xs
  {
    if xs != [] {
      IdsCons(xs[0], xs[1..]);
      assert [xs[0]] + xs[1..] == xs;
      WithoutUpsert(xs[1..], x);
    }
  }

  /** Nothing of the configuration is reused: servers, pool, conditions and rule
      are all made for the service. */
  ghost predicate AllNew(g: Graph, r: Request, mint: Mint)
    requires r.urls != []
  {
    r.service == NoService
    && Find(g.pools, PoolNamed(r)).None?
    && SetOf(ClaimAll(r, mint, Claims(g.servers, []), r.targets).ids) !! Ids(g.servers)
    && SetOf(NeedAll(mint, Conditions(g.conditions, []), Needs(r)).ids) !! Ids(g.conditions)
    && Find(g.rules, WithConditions(NeedAll(mint, Conditions(g.conditions, []), Needs(r)).ids)).None?
  }

  lemma ReferencedWithin(pools: seq<Item<Pool>>, servers: set<Id>, monitors: set<Id>)
    requires PoolsResolve(pools, servers, monitors)
    ensures Referenced(pools) <= servers
  {
    forall b, s | b in pools && s in b.body.servers
      ensures s in servers
    {
      assert PoolResolves(b.body, servers, monitors);
      assert s in SetOf(b.body.servers);
    }
  }

  lemma UsedWithin(rules: seq<Item<Rule>>, conditions: set<Id>, pools: set<Id>)
    requires RulesResolve(rules, conditions, pools)
    ensures UsedConditions(rules) <= conditions
  {
    forall x, c | x in rules && c in x.body.conditions
      ensures c in conditions
    {
      assert RuleResolves(x.body, conditions, pools);
      assert c in SetOf(x.body.conditions);
    }
  }

  lemma PoolNotUsed(rules: seq<Item<Rule>>, ls: seq<Item<Listener>>, ruleIds: set<Id>, conditions: set<Id>,
          pools: set<Id>, certificates: set<Id>, pool: Id)
    requires RulesResolve(rules, conditions, pools) && ListenersResolve(ls, ruleIds, pools, certificates)
        && pool !in pools
    ensures !PoolUsed(rules, ls, pool)
  {
    forall x | x in rules
      ensures x.body.pool != Some(pool)
    {
      assert RuleResolves(x.body, conditions, pools);
      assert x.body.pool.Some? ==> x.body.pool.value in Optional(x.body.pool);
    }
    forall l | l in ls
      ensures l.body.defaultPool != Some(pool)
    {
      assert ListenerResolves(l.body, ruleIds, pools, certificates);
      assert l.body.defaultPool.Some? ==> l.body.defaultPool.value in Optional(l.body.defaultPool);
    }
  }

  /** The rule and the conditions of a service that reused nothing. */
  lemma RuleUndone(g: Graph, r: Request, mint: Mint, pool: Id, pools: set<Id>)
    requires r.urls != [] && Generates(mint) && RulesResolve(g.rules, Ids(g.conditions), pools)
    requires var c := NeedAll(mint, Conditions(g.conditions, []), Needs(r));
             SetOf(c.ids) !! Ids(g.conditions) && Find(g.rules, WithConditions(c.ids)).None?
    ensures var s := RuleStep(g, r, mint, None, pool);
            s.rule !in Ids(g.rules) && Without(s.graph.rules, s.rule) == g.rules
            && Lookup(s.graph.rules, s.rule).Some? && Lookup(s.graph.rules, s.rule).value.body.pool == Some(pool)
            && DropUnused(s.graph.conditions, Lookup(s.graph.rules, s.rule).value.body.conditions,
                          UsedConditions(g.rules))
               == g.conditions
  {
    var c := NeedAll(mint, Conditions(g.conditions, []), Needs(r));
    var x := RuleFor(r, mint, g.rules, None, c.ids, pool);
    UpsertLookup(g.rules, x, x.id);
    WithoutUpsert(g.rules, x);
    UsedWithin(g.rules, Ids(g.conditions), pools);
    DropUnusedOutside(c.all, c.ids, UsedConditions(g.rules));
    NeedAllOutside(mint, Conditions(g.conditions, []), Needs(r), SetOf(c.ids));
    OutsideAll(g.conditions, SetOf(c.ids));
  }

  /** The servers and the pool of a service that reused nothing. */
  lemma BackendUndone(g: Graph, r: Request, mint: Mint)
    requires r.urls != [] && Generates(mint) && WellFormed(g) && AllNew(g, r, mint)
    ensures var b := BackendStep(g, r, mint);
            b.pool !in Ids(g.pools) && Without(b.graph.pools, b.pool) == g.pools
            && Lookup(b.graph.pools, b.pool).Some?
            && DropUnused(b.graph.servers, Lookup(b.graph.pools, b.pool).value.body.servers,
                          Referenced(g.pools)) == g.servers
  {
    var start := Claims(g.servers, []);
    var c := ClaimAll(r, mint, start, r.targets);
    var choice := MonitorStep(r, mint, g.monitors, None, false);
    var p := PoolFor(r, mint, g.pools, None, c.ids, choice.monitor);
    UpsertLookup(g.pools, p, p.id);
    WithoutUpsert(g.pools, p);
    ReferencedWithin(g.pools, Ids(g.servers), Ids(g.monitors));
    DropUnusedOutside(c.servers, c.ids, Referenced(g.pools));
    ClaimAllOutside(r, mint, start, r.targets, SetOf(c.ids));
    OutsideAll(g.servers, SetOf(c.ids));
  }

  lemma {:induction false} ReleaseDefaults(ls: seq<Item<Listener>>, serving: seq<Id>, rule: Id, l: Item<Listener>)
    requires l in Release(ls, serving, rule)
    ensures exists k :: k in ls && k.body.defaultPool == l.body.defaultPool
  {
    if l == Release(ls, serving, rule)[0] {
      assert ls[0] in ls;
    } else {
      ReleaseDefaults(ls[1..], serving, rule, l);
    }
  }

  /** No listener of an http or https service gets a default pool. */
  ghost predicate DefaultsWithin(ls: seq<Item<Listener>>, pools: set<Id>) {
    forall l :: l in ls ==> Optional(l.body.defaultPool) <= pools
  }

  lemma {:induction false} ServeAllDefaults(mint: Mint, rules: seq<Item<Rule>>, s: Served, ports: seq<nat>, ssl: bool,
          rule: Id, cert: Option<Id>, pools: set<Id>)
    requires Generates(mint) && Distinct(s.listeners) && DefaultsWithin(s.listeners, pools)
    requires ServeAll(mint, rules, s, ports, ssl, rule, cert).Some?
    ensures DefaultsWithin(ServeAll(mint, rules, s, ports, ssl, rule, cert).value.listeners, pools)
    decreases |ports|
  {
    if ports != [] {
      var l := ListenerFor(mint, rules, s.listeners, ports[0], ssl, rule, cert);
      forall k | k in Upsert(s.listeners, l)
        ensures Optional(k.body.defaultPool) <= pools
      {
        UpsertMembers(s.listeners, l, k);
      }
      ServeOneDistinct(mint, rules, s, ports[0], ssl, rule, cert);
      ServeAllDefaults(mint, rules, ServeOne(mint, rules, s, ports[0], ssl, rule, cert), ports[1..], ssl, rule, cert,
                       pools);
    }
  }

  lemma ListenerStepDefaults(s: Routing, r: Request, mint: Mint, pools: set<Id>, rule: Id)
    requires r.urls != [] && Generates(mint) && Distinct(s.graph.listeners)
    requires ListenerStep(s, r, mint, false).Some? && DefaultsWithin(s.graph.listeners, pools)
    ensures DefaultsWithin(Release(ListenerStep(s, r, mint, false).value.listeners, [], rule), pools)
  {
    var ssl, ls := r.urls[0].scheme == Https, s.graph.listeners;
    ListenerStepIs(s, r, mint, false);
    ServeAllDefaults(mint, s.graph.rules, Served(ls, []), Ports(r), ssl, s.rule, s.cert, pools);
    ServeAllDistinct(mint, s.graph.rules, Served(ls, []), Ports(r), ssl, s.rule, s.cert);
    var kept := ServeAll(mint, s.graph.rules, Served(ls, []), Ports(r), ssl, s.rule, s.cert).value.listeners;
    var after := Redirected(mint, kept, ssl && r.httpRedirect);
    forall l | l in after
      ensures Optional(l.body.defaultPool) <= pools
    {
      if ssl && r.httpRedirect {
        UpsertMembers(kept, RedirectFor(mint, kept), l);
      }
    }
    forall l | l in Release(after, [], rule)
      ensures Optional(l.body.defaultPool) <= pools
    {
      ReleaseDefaults(after, [], rule, l);
    }
  }

  lemma RemovedGives(g: Graph, p: Graph, rule: Id, pool: Id)
    requires Lookup(p.rules, rule).Some? && Lookup(p.rules, rule).value.body.pool == Some(pool)
    requires Without(p.rules, rule) == g.rules
    requires DropUnused(p.conditions, Lookup(p.rules, rule).value.body.conditions,
                        UsedConditions(g.rules)) == g.conditions
    requires Lookup(p.pools, pool).Some? && Without(p.pools, pool) == g.pools
    requires DropUnused(p.servers, Lookup(p.pools, pool).value.body.servers, Referenced(g.pools)) == g.servers
    requires !PoolUsed(g.rules, Release(p.listeners, [], rule), pool)
    ensures SameObjects(Removed(p, rule), g)
  {
  }

  predicate SameObjects(a: Graph, b: Graph) {
    a.servers == b.servers && a.pools == b.pools && a.conditions == b.conditions && a.rules == b.rules
  }

  lemma ListenersAfter(g: Graph, t: Routing, r: Request, mint: Mint, pool: Id)
    requires r.urls != [] && Generates(mint) && WellFormed(g) && t.graph.listeners == g.listeners
    requires ListenerStep(t, r, mint, false).Some? && pool !in Ids(g.pools)
    ensures ListenerStep(t, r, mint, false).value
        == t.graph.(listeners := ListenerStep(t, r, mint, false).value.listeners)
    ensures !PoolUsed(g.rules, Release(ListenerStep(t, r, mint, false).value.listeners, [], t.rule), pool)
  {
    ListenersDefaults(g);
    ListenerStepDefaults(t, r, mint, Ids(g.pools), t.rule);
    NotUsed(g, Release(ListenerStep(t, r, mint, false).value.listeners, [], t.rule), pool);
  }

  /** Removing an http or https service that reused nothing when it was published
      gives back the servers, pools, conditions and rules there were before. */
  lemma PublishThenRemove(g: Graph, r: Request, mint: Mint)
    requires r.urls != [] && !IsTcp(r) && Generates(mint) && WellFormed(g) && AllNew(g, r, mint)
    requires Published(g, r, mint).Some?
    ensures SameObjects(Removed(Published(g, r, mint).value, RoutingOf(g, r, mint).rule), g)
  {
    var b := BackendStep(g, r, mint);
    BackendUndone(g, r, mint);
    BackendStepOk(g, r, mint);
    var s := RuleStep(b.graph, r, mint, None, b.pool);
    RuleUndone(b.graph, r, mint, b.pool, Ids(g.pools));
    CertificateStepOk(s, r, mint, []);
    var t := CertificateStep(s, r, mint, []);
    ListenersAfter(g, t, r, mint, b.pool);
    RemovedGives(g, ListenerStep(t, r, mint, false).value, t.rule, b.pool);
  }

  lemma ListenersDefaults(g: Graph)
    requires WellFormed(g)
    ensures DefaultsWithin(g.listeners, Ids(g.pools))
  {
    forall l | l in g.listeners
      ensures Optional(l.body.defaultPool) <= Ids(g.pools)
    {
      assert ListenerResolves(l.body, Ids(g.rules), Ids(g.pools), Ids(g.certificates));
    }
  }

  lemma NotUsed(g: Graph, ls: seq<Item<Listener>>, pool: Id)
    requires WellFormed(g) && DefaultsWithin(ls, Ids(g.pools)) && pool !in Ids(g.pools)
    ensures !PoolUsed(g.rules, ls, pool)
  {
    PoolNotUsed(g.rules, [], Ids(g.rules), Ids(g.conditions), Ids(g.pools), Ids(g.certificates), pool);
    forall l | l in ls
      ensures l.body.defaultPool != Some(pool)
    {
      assert l.body.defaultPool.Some? ==> l.body.defaultPool.value in Optional(l.body.defaultPool);
    }
  }

  // ----- the operations -----

  method DropUnusedPool(c: Wizard.Config, pool: Option<Id>, sparesHandMade: bool)
    modifies c
    ensures c.State() == DropPool(old(c.State()), pool, sparesHandMade)
  {
    if pool.None? || PoolUsed(c.rules, c.listeners, pool.value) {
      return;
    }
    var p := Lookup(c.pools, pool.value);
    if p.Some? {
      c.pools := Without(c.pools, pool.value);
      if sparesHandMade {
        c.DropOrphanServers(p.value.body.servers);
      } else {
        DropUnusedServers(c, p.value.body.servers);
      }
    }
  }

  method DropUnusedServers(c: Wizard.Config, candidates: seq<Id>)
    modifies c`servers
    ensures c.servers == DropUnused(old(c.servers), candidates, Referenced(c.pools))
  {
    var used := Referenced(c.pools);
    for i := 0 to |candidates|
      invariant DropUnused(c.servers, candidates[i..], used) == DropUnused(old(c.servers), candidates, used)
    {
      assert candidates[i..][1..] == candidates[i + 1..];
      if candidates[i] !in used {
        c.servers := Without(c.servers, candidates[i]);
      }
    }
  }

  /** `_remove_service_objects`. */
  method RemoveService(c: Wizard.Config, id: Id)
    modifies c
    ensures c.State() == Removed(old(c.State()), id)
    ensures WellFormed(old(c.State())) ==> WellFormed(c.State())
  {
    ghost var g := c.State();
    var rule := Lookup(c.rules, id);
    if rule.Some? {
      RemoveRule(c, rule.value);
      DropUnusedPool(c, rule.value.body.pool, false);
    }
    if WellFormed(g) {
      RemovedKeepsWellFormed(g, id);
    }
  }

  method RemoveRule(c: Wizard.Config, rule: Item<Rule>)
    modifies c
    ensures c.State() == WithoutRule(old(c.State()), rule)
  {
    c.ReleaseOthers([], rule.id);
    c.rules := Without(c.rules, rule.id);
    c.DropUnusedConditions(rule.body.conditions);
  }

  /** The tcp branch of `api_service_delete`. */
  method RemoveTcpService(c: Wizard.Config, id: Id)
    modifies c
    ensures c.State() == RemovedTcp(old(c.State()), id)
    ensures WellFormed(old(c.State())) ==> WellFormed(c.State())
  {
    ghost var g := c.State();
    var l := Lookup(c.listeners, id);
    if l.Some? {
      c.listeners := Without(c.listeners, id);
      DropUnusedPool(c, l.value.body.defaultPool, true);
    }
    if WellFormed(g) {
      RemovedKeepsWellFormed(g, id);
    }
  }
}
