/** Which requests the rule of a published service answers: those its URLs ask for,
    exactly when no reused condition and no reused rule turns its test around. */
module PublishAnswers {
  import opened Options
  import opened Collections
  import opened ServiceGraph
  import opened PublishSpec
  import opened PublishWellFormed
  import opened PublishServes
  import RuleOrder

  // ----- requests and conditions -----

  predicate StartsWith(s: string, prefix: string) {
    prefix <= s
  }

  /** Does a condition of the wizard's two kinds hold of a request? */
  predicate Holds(c: Condition, host: string, path: string) {
    ((c.kind == HostMatches && SameHost(c.value, host)) || (c.kind == PathStartsWith && StartsWith(path, c.value)))
    != c.negate
  }

  function Holding(conditions: seq<Item<Condition>>, host: string, path: string): set<Id> {
    set c | c in conditions && Holds(c.body, host, path) :: c.id
  }

  predicate NeedHolds(n: Need, host: string, path: string) {
    (n.kind == HostMatches && SameHost(n.value, host)) || (n.kind == PathStartsWith && StartsWith(path, n.value))
  }

  lemma HoldingLookup(conditions: seq<Item<Condition>>, id: Id, host: string, path: string)
    requires Distinct(conditions) && Lookup(conditions, id).Some?
    ensures id in Holding(conditions, host, path) <==> Holds(Lookup(conditions, id).value.body, host, path)
  {
    if id in Holding(conditions, host, path) {
      var c :| c in conditions && Holds(c.body, host, path) && c.id == id;
      DistinctLookup(conditions, c);
    }
  }

  // ----- what the URLs ask for -----

  /** The names of the service are the hosts of its URLs. */
  lemma {:induction false} AddHostsKnown(hosts: seq<string>, urls: seq<Url>, h: string)
    ensures HostKnown(h, AddHosts(hosts, urls))
       <==> HostKnown(h, hosts) || exists u :: u in urls && SameHost(u.host, h)
    decreases |urls|
  {
    if urls != [] {
      var more := if HostKnown(urls[0].host, hosts) then hosts else hosts + [urls[0].host];
      AddHostsKnown(more, urls[1..], h);
      assert HostKnown(h, more) <==> HostKnown(h, hosts) || SameHost(urls[0].host, h) by {
        HostAdded(hosts, urls[0].host, h);
      }
      assert (exists u :: u in urls && SameHost(u.host, h))
        <==> SameHost(urls[0].host, h) || exists u :: u in urls[1..] && SameHost(u.host, h);
    }
  }

  lemma HostAdded(hosts: seq<string>, host: string, h: string)
    ensures var more := if HostKnown(host, hosts) then hosts else hosts + [host];
            HostKnown(h, more) <==> HostKnown(h, hosts) || SameHost(host, h)
  {
    if HostKnown(host, hosts) {
      var k :| k in hosts && SameHost(k, host);
      if SameHost(host, h) {
        assert SameHost(k, h);
      }
    } else {
      assert host in hosts + [host];
      if HostKnown(h, hosts) {
        var k :| k in hosts && SameHost(k, h);
        assert k in hosts + [host];
      }
    }
  }

  lemma {:induction false} HostNeedsAre(r: Request, hosts: seq<string>, single: bool)
    ensures |HostNeeds(r, hosts, single)| == |hosts|
    ensures forall i :: 0 <= i < |hosts| ==>
      HostNeeds(r, hosts, single)[i].kind == HostMatches && HostNeeds(r, hosts, single)[i].value == hosts[i]
  {
    if hosts != [] {
      HostNeedsAre(r, hosts[1..], single);
    }
  }

  /** A service may have several names or a path, not both. */
  predicate OneNameOrNoPath(r: Request)
    requires r.urls != []
  {
    |Hosts(r)| == 1 || r.urls[0].path == ""
  }

  /** What the request's URLs ask for. */
  ghost predicate Asked(r: Request, host: string, path: string)
    requires r.urls != []
  {
    (exists u :: u in r.urls && SameHost(u.host, host)) && StartsWith(path, r.urls[0].path)
  }

  /** All needs, or any of them when there are several names. */
  ghost predicate NeedsHold(ns: seq<Need>, any: bool, host: string, path: string) {
    if any then exists i :: 0 <= i < |ns| && NeedHolds(ns[i], host, path)
    else forall i :: 0 <= i < |ns| ==> NeedHolds(ns[i], host, path)
  }

  lemma {:induction false} AddHostsGrow(hosts: seq<string>, urls: seq<Url>)
    ensures |AddHosts(hosts, urls)| >= |hosts|
    ensures |AddHosts(hosts, urls)| > 0 || urls == []
    decreases |urls|
  {
    if urls != [] {
      var more := if HostKnown(urls[0].host, hosts) then hosts else hosts + [urls[0].host];
      assert |more| > 0;
      AddHostsGrow(more, urls[1..]);
    }
  }

  lemma NeedsAsked(r: Request, host: string, path: string)
    requires r.urls != [] && OneNameOrNoPath(r)
    ensures NeedsHold(Needs(r), |Hosts(r)| > 1, host, path) <==> Asked(r, host, path)
  {
    var hs := Hosts(r);
    HostNeedsAre(r, hs, |hs| == 1);
    AddHostsKnown([], r.urls, host);
    AddHostsGrow([], r.urls);
    var ns := Needs(r);
    assert forall i :: 0 <= i < |hs| ==> NeedHolds(ns[i], host, path) == SameHost(hs[i], host);
    if |hs| > 1 {
      assert |ns| == |hs|;
      if HostKnown(host, hs) {
        var k :| 0 <= k < |hs| && SameHost(hs[k], host);
        assert NeedHolds(ns[k], host, path);
      }
    } else {
      assert HostKnown(host, hs) <==> SameHost(hs[0], host);
      assert r.urls[0].path != "" ==> |ns| == 2 && NeedHolds(ns[1], host, path) == StartsWith(path, r.urls[0].path);
      assert NeedsHold(ns, false, host, path)
        <==> NeedHolds(ns[0], host, path) && (|ns| == 2 ==> NeedHolds(ns[1], host, path));
    }
  }

  /** With both, the path alone is enough: the rule answers for names that are not
      the service's. */
  lemma SeveralNamesAndPath(r: Request, host: string)
    requires r.urls != [] && |Hosts(r)| > 1 && r.urls[0].path != ""
    ensures NeedsHold(Needs(r), true, host, r.urls[0].path)
  {
    HostNeedsAre(r, Hosts(r), false);
    assert NeedHolds(Needs(r)[|Hosts(r)|], host, r.urls[0].path);
  }

  function Longer(hosts: seq<string>): (r: string)
    ensures forall h :: h in hosts ==> |h| < |r|
  {
    if hosts == [] then "x"
    else if |hosts[0]| < |Longer(hosts[1..])| then Longer(hosts[1..])
    else hosts[0] + "x"
  }

  /** The rule answers exactly what the URLs ask for when, and only when, the
      service has one name or no path. */
  lemma NeedsAskedExactly(r: Request)
    requires r.urls != []
    ensures (forall host, path :: NeedsHold(Needs(r), |Hosts(r)| > 1, host, path) <==> Asked(r, host, path))
       <==> OneNameOrNoPath(r)
  {
    if OneNameOrNoPath(r) {
      forall host, path
        ensures NeedsHold(Needs(r), |Hosts(r)| > 1, host, path) <==> Asked(r, host, path)
      {
        NeedsAsked(r, host, path);
      }
    } else {
      var host := Longer(Hosts(r));
      AddHostsGrow([], r.urls);
      SeveralNamesAndPath(r, host);
      AddHostsKnown([], r.urls, host);
      assert !HostKnown(host, Hosts(r));
      assert !Asked(r, host, r.urls[0].path);
    }
  }

  predicate Negated(conditions: seq<Item<Condition>>, id: Id) {
    Lookup(conditions, id).Some? && Lookup(conditions, id).value.body.negate
  }

  // ----- a rule over conditions for the needs -----

  lemma NeedHeldAt(conditions: seq<Item<Condition>>, ids: seq<Id>, ns: seq<Need>, i: nat, host: string, path: string)
    requires Distinct(conditions) && NeedsMet(conditions, ids, ns) && i < |ns|
    ensures ids[i] in Holding(conditions, host, path) <==> NeedHolds(ns[i], host, path) != Negated(conditions, ids[i])
  {
    HoldingLookup(conditions, ids[i], host, path);
    NeedHeld(Lookup(conditions, ids[i]).value.body, ns[i], host, path);
  }

  /** Which of these conditions are negated. */
  function Negations(conditions: seq<Item<Condition>>, ids: seq<Id>): seq<bool> {
    seq(|ids|, i requires 0 <= i < |ids| => Negated(conditions, ids[i]))
  }

  /** A rule's test over conditions for these needs, some of them negated. */
  ghost predicate Passes(ns: seq<Need>, negs: seq<bool>, any: bool, host: string, path: string)
    requires |negs| == |ns|
  {
    if any then exists i :: 0 <= i < |ns| && NeedHolds(ns[i], host, path) != negs[i]
    else forall i :: 0 <= i < |ns| ==> NeedHolds(ns[i], host, path) != negs[i]
  }

  lemma MatchesNeeds(conditions: seq<Item<Condition>>, x: Rule, ns: seq<Need>, host: string, path: string)
    requires Distinct(conditions) && NeedsMet(conditions, x.conditions, ns) && ns != []
    ensures RuleOrder.Matches(x, Holding(conditions, host, path))
       <==> Passes(ns, Negations(conditions, x.conditions), x.anyOf, host, path) != x.unlessTest
  {
    var holds, negs := Holding(conditions, host, path), Negations(conditions, x.conditions);
    forall i | 0 <= i < |ns|
      ensures x.conditions[i] in holds <==> NeedHolds(ns[i], host, path) != negs[i]
    {
      NeedHeldAt(conditions, x.conditions, ns, i, host, path);
    }
    AnyOrAll(x.conditions, ns, negs, holds, host, path);
  }

  lemma AnyOrAll(ids: seq<Id>, ns: seq<Need>, negs: seq<bool>, holds: set<Id>, host: string, path: string)
    requires |ids| == |ns| == |negs|
    requires forall i :: 0 <= i < |ns| ==> (ids[i] in holds <==> NeedHolds(ns[i], host, path) != negs[i])
    ensures (exists c :: c in ids && c in holds) <==> Passes(ns, negs, true, host, path)
    ensures (forall c :: c in ids ==> c in holds) <==> Passes(ns, negs, false, host, path)
  {
    if Passes(ns, negs, true, host, path) {
      var i :| 0 <= i < |ns| && NeedHolds(ns[i], host, path) != negs[i];
      assert ids[i] in ids && ids[i] in holds;
    }
    if forall c :: c in ids ==> c in holds {
      forall i | 0 <= i < |ns|
        ensures NeedHolds(ns[i], host, path) != negs[i]
      {
        assert ids[i] in ids;
      }
    }
  }

  lemma NeedHeld(c: Condition, n: Need, host: string, path: string)
    requires MeetsNeed(c, n)
    ensures Holds(c, host, path) <==> NeedHolds(n, host, path) != c.negate
  {
  }

  lemma NeedsExist(r: Request)
    requires r.urls != []
    ensures |Needs(r)| >= |Hosts(r)| > 0 && (r.urls[0].path == "" ==> |Needs(r)| == |Hosts(r)|)
    ensures forall i :: 0 <= i < |Hosts(r)| ==> Needs(r)[i].kind == HostMatches && Needs(r)[i].value == Hosts(r)[i]
  {
    AddHostsGrow([], r.urls);
    HostNeedsAre(r, Hosts(r), |Hosts(r)| == 1);
  }

  // ----- exactly when the rule answers for the URLs -----

  ghost predicate AnswersAsked(g: Graph, r: Request, x: Rule, host: string, path: string)
    requires r.urls != []
  {
    RuleOrder.Matches(x, Holding(g.conditions, host, path)) <==> Asked(r, host, path)
  }

  predicate NoneTrue(bs: seq<bool>) {
    forall i :: 0 <= i < |bs| ==> !bs[i]
  }

  /** The needs' negations and the rule's test that leave the rule answering for the
      URLs: none at all, or on a single need both, which cancel out. */
  predicate Straight(r: Request, negs: seq<bool>, unlessTest: bool)
    requires r.urls != []
  {
    OneNameOrNoPath(r)
    && if |negs| == 1 then negs[0] == unlessTest else !unlessTest && NoneTrue(negs)
  }

  lemma StraightAnswers(r: Request, negs: seq<bool>, unlessTest: bool, host: string, path: string)
    requires r.urls != [] && |negs| == |Needs(r)| && Straight(r, negs, unlessTest)
    ensures Passes(Needs(r), negs, |Hosts(r)| > 1, host, path) != unlessTest <==> Asked(r, host, path)
  {
    NeedsExist(r);
    NeedsAsked(r, host, path);
    var ns := Needs(r);
    if |ns| == 1 {
      assert Passes(ns, negs, false, host, path) <==> NeedHolds(ns[0], host, path) != negs[0];
      assert NeedsHold(ns, false, host, path) <==> NeedHolds(ns[0], host, path);
    } else {
      PlainPasses(ns, negs, |Hosts(r)| > 1, host, path);
    }
  }

  lemma PlainPasses(ns: seq<Need>, negs: seq<bool>, any: bool, host: string, path: string)
    requires |negs| == |ns| && NoneTrue(negs)
    ensures Passes(ns, negs, any, host, path) <==> NeedsHold(ns, any, host, path)
  {
    assert forall i :: 0 <= i < |ns| ==> !negs[i];
  }

  /** A request that shows it when the rule does not. */
  datatype Probe = Probe(host: string, path: string)

  ghost predicate Wrong(r: Request, negs: seq<bool>, unlessTest: bool, q: Probe)
    requires r.urls != [] && |negs| == |Needs(r)|
  {
    Passes(Needs(r), negs, |Hosts(r)| > 1, q.host, q.path) != unlessTest <==> !Asked(r, q.host, q.path)
  }

  /** A name that is none of the service's. */
  lemma Outsider(r: Request) returns (host: string)
    requires r.urls != []
    ensures forall path :: !Asked(r, host, path)
    ensures |Needs(r)| >= |Hosts(r)|
    ensures forall i, path :: 0 <= i < |Hosts(r)| ==> !NeedHolds(Needs(r)[i], host, path)
  {
    host := Longer(Hosts(r));
    AddHostsKnown([], r.urls, host);
    NeedsExist(r);
    forall i, path | 0 <= i < |Hosts(r)|
      ensures !NeedHolds(Needs(r)[i], host, path)
    {
      assert Hosts(r)[i] in Hosts(r);
    }
  }

  /** One name, and all its needs hold of the first URL. */
  lemma SingleWrong(r: Request, negs: seq<bool>, unlessTest: bool) returns (q: Probe)
    requires r.urls != [] && |negs| == |Needs(r)| && |Hosts(r)| == 1 && !Straight(r, negs, unlessTest)
    ensures Wrong(r, negs, unlessTest, q)
  {
    var ns, url := Needs(r), r.urls[0];
    NeedsExist(r);
    if !unlessTest || |ns| == 1 {
      q := Probe(url.host, url.path);
      assert url in r.urls && SameHost(url.host, url.host);
      NeedsAsked(r, url.host, url.path);
      assert Asked(r, url.host, url.path);
      assert forall i :: 0 <= i < |ns| ==> NeedHolds(ns[i], url.host, url.path);
      if |ns| == 1 {
        assert negs[0] != unlessTest;
      } else {
        var k :| 0 <= k < |negs| && negs[k];
        assert NeedHolds(ns[k], url.host, url.path) == negs[k];
      }
    } else {
      var host := Outsider(r);
      PathNeed(r);
      q := Probe(host, if negs[1] then url.path else "");
      assert NeedHolds(ns[1], host, q.path) == negs[1];
      assert !Asked(r, host, q.path);
    }
  }

  lemma PathNeed(r: Request)
    requires r.urls != [] && |Needs(r)| > |Hosts(r)|
    ensures |Needs(r)| == |Hosts(r)| + 1 && r.urls[0].path != ""
    ensures forall host, path :: NeedHolds(Needs(r)[|Hosts(r)|], host, path) == StartsWith(path, r.urls[0].path)
  {
    HostNeedsAre(r, Hosts(r), |Hosts(r)| == 1);
  }

  ghost predicate Apart(hosts: seq<string>) {
    forall i, j :: 0 <= i < j < |hosts| ==> !SameHost(hosts[i], hosts[j])
  }

  lemma {:induction false} AddHostsApart(hosts: seq<string>, urls: seq<Url>)
    requires Apart(hosts)
    ensures Apart(AddHosts(hosts, urls))
    decreases |urls|
  {
    if urls != [] {
      var more := if HostKnown(urls[0].host, hosts) then hosts else hosts + [urls[0].host];
      assert forall i :: 0 <= i < |hosts| ==> hosts[i] in hosts;
      AddHostsApart(more, urls[1..]);
    }
  }

  /** Several names, and a rule that answers `unless`: it fails one of the first two. */
  lemma UnlessWrong(r: Request, negs: seq<bool>) returns (q: Probe)
    requires r.urls != [] && |negs| == |Needs(r)| && |Hosts(r)| > 1
    ensures Wrong(r, negs, true, q)
  {
    var ns, hs := Needs(r), Hosts(r);
    NeedsExist(r);
    AddHostsApart([], r.urls);
    var j := if negs[0] && !negs[1] then 1 else 0;
    q := Probe(hs[j], r.urls[0].path);
    AddHostsKnown([], r.urls, q.host);
    assert hs[j] in hs && SameHost(hs[j], q.host);
    assert Asked(r, q.host, q.path);
    assert !SameHost(hs[0], hs[1]);
    assert NeedHolds(ns[j], q.host, q.path);
    if negs[0] && negs[1] {
      SameHostSymmetric(hs[1], hs[0]);
      assert NeedHolds(ns[1], q.host, q.path) != negs[1];
    } else {
      assert NeedHolds(ns[j], q.host, q.path) != negs[j];
    }
  }

  lemma SameHostSymmetric(a: string, b: string)
    ensures SameHost(a, b) <==> SameHost(b, a)
  {
  }

  /** Several names, and a rule that answers `if`: it answers for a foreign name. */
  lemma ForeignWrong(r: Request, negs: seq<bool>) returns (q: Probe)
    requires r.urls != [] && |negs| == |Needs(r)| && |Hosts(r)| > 1 && !Straight(r, negs, false)
    ensures Wrong(r, negs, false, q)
  {
    var ns, k := Needs(r), |Hosts(r)|;
    NeedsExist(r);
    var host := Outsider(r);
    if r.urls[0].path != "" {
      HostNeedsAre(r, Hosts(r), false);
      PathNeed(r);
      q := Probe(host, if negs[k] then "" else r.urls[0].path);
      assert NeedHolds(ns[k], host, q.path) != negs[k];
    } else {
      q := Probe(host, "");
      var i :| 0 <= i < |negs| && negs[i];
      assert NeedHolds(ns[i], host, q.path) != negs[i];
    }
    assert !Asked(r, host, q.path);
  }

  lemma NotStraightWrong(r: Request, negs: seq<bool>, unlessTest: bool) returns (q: Probe)
    requires r.urls != [] && |negs| == |Needs(r)| && !Straight(r, negs, unlessTest)
    ensures Wrong(r, negs, unlessTest, q)
  {
    NeedsExist(r);
    if |Hosts(r)| == 1 {
      q := SingleWrong(r, negs, unlessTest);
    } else if unlessTest {
      q := UnlessWrong(r, negs);
    } else {
      q := ForeignWrong(r, negs);
    }
  }

  /** The rule answers exactly the requests the URLs ask for, when and only when its
      test and the negations of its conditions are straight. */
  lemma RuleAnswersExactly(g: Graph, r: Request, rule: Id, pool: Id)
    requires r.urls != [] && Distinct(g.conditions) && RuleServes(g, r, rule, pool)
    ensures var x := Lookup(g.rules, rule).value.body;
            (forall host, path :: AnswersAsked(g, r, x, host, path))
            <==> Straight(r, Negations(g.conditions, x.conditions), x.unlessTest)
  {
    var x := Lookup(g.rules, rule).value.body;
    var negs := Negations(g.conditions, x.conditions);
    NeedsExist(r);
    if Straight(r, negs, x.unlessTest) {
      forall host, path
        ensures AnswersAsked(g, r, x, host, path)
      {
        MatchesNeeds(g.conditions, x, Needs(r), host, path);
        StraightAnswers(r, negs, x.unlessTest, host, path);
      }
    } else {
      var q := NotStraightWrong(r, negs, x.unlessTest);
      MatchesNeeds(g.conditions, x, Needs(r), q.host, q.path);
      assert !AnswersAsked(g, r, x, q.host, q.path);
    }
  }

  // ----- told before publishing -----

  predicate FoundNegated(conditions: seq<Item<Condition>>, n: Need) {
    Find(conditions, Meets(n)).Some? && Find(conditions, Meets(n)).value.body.negate
  }

  /** Which needs would be met by a negated condition. */
  function FoundNegations(conditions: seq<Item<Condition>>, ns: seq<Need>): seq<bool> {
    seq(|ns|, i requires 0 <= i < |ns| => FoundNegated(conditions, ns[i]))
  }

  /** The conditions there are already, if there is one for every need. */
  function FoundIds(conditions: seq<Item<Condition>>, ns: seq<Need>): Option<seq<Id>> {
    if ns == [] then Some([])
    else
      var c, rest := Find(conditions, Meets(ns[0])), FoundIds(conditions, ns[1..]);
      if c.Some? && rest.Some? then Some([c.value.id] + rest.value) else None
  }

  /** The rule that will be reused: the one being edited, or one over those conditions. */
  function RuleTaken(g: Graph, r: Request): Option<Item<Rule>>
    requires r.urls != []
  {
    var ids := FoundIds(g.conditions, Needs(r));
    if ExistingRule(g, r).Some? then ExistingRule(g, r)
    else if ids.Some? then Find(g.rules, WithConditions(ids.value))
    else None
  }

  predicate KeepsUnless(g: Graph, r: Request)
    requires r.urls != []
  {
    RuleTaken(g, r).Some? && RuleTaken(g, r).value.body.unlessTest
  }

  /** A rule of another kind than a route stays one. */
  predicate KeepsRoute(g: Graph, r: Request)
    requires r.urls != []
  {
    RuleTaken(g, r).Some? ==> RuleTaken(g, r).value.body.useBackend
  }

  predicate WillAnswer(g: Graph, r: Request)
    requires r.urls != []
  {
    Straight(r, FoundNegations(g.conditions, Needs(r)), KeepsUnless(g, r))
  }

  /** The list is the first one and new conditions behind it, none of them negated. */
  ghost predicate OnlyAdds(before: seq<Item<Condition>>, all: seq<Item<Condition>>) {
    |before| <= |all| && all[..|before|] == before
    && forall c :: c in all[|before|..] ==> !c.body.negate && c.id !in Ids(before)
  }

  /** A condition as it is found for the need, or a new one. */
  ghost predicate AsFound(before: seq<Item<Condition>>, c: Option<Item<Condition>>, id: Id, n: Need) {
    var f := Find(before, Meets(n));
    c.Some? && c.value.body.negate == FoundNegated(before, n)
    && (if f.Some? then id == f.value.id else id !in Ids(before))
  }

  lemma ConditionForFound(mint: Mint, before: seq<Item<Condition>>, all: seq<Item<Condition>>, n: Need)
    requires Generates(mint) && OnlyAdds(before, all) && Distinct(all)
    ensures var x := ConditionFor(mint, all, n);
            AsFound(before, Some(x), x.id, n) && OnlyAdds(before, Upsert(all, x))
            && (Lookup(all, x.id).Some? ==> Lookup(all, x.id) == Some(x))
  {
    var x := ConditionFor(mint, all, n);
    var added := all[|before|..];
    assert all == before + added;
    FindConcat(before, added, Meets(n));
    if Find(all, Meets(n)).Some? {
      DistinctLookup(all, x);
      UpsertSame(all, x);
    } else {
      LookupIds(all, x.id);
      UpsertAppends(all, x);
      IdsOfFront(before, added);
      assert (all + [x])[..|before|] == before && (all + [x])[|before|..] == added + [x];
    }
  }

  lemma IdsOfFront<B>(xs: seq<Item<B>>, ys: seq<Item<B>>)
    ensures Ids(xs) <= Ids(xs + ys)
  {
    forall x | x in xs
      ensures x in xs + ys
    {
    }
  }

  ghost predicate AllAsFound(before: seq<Item<Condition>>, all: seq<Item<Condition>>, ids: seq<Id>, ns: seq<Need>) {
    |ids| == |ns| && forall i :: 0 <= i < |ids| ==> AsFound(before, Lookup(all, ids[i]), ids[i], ns[i])
  }

  lemma {:induction false} NeedAllFound(mint: Mint, before: seq<Item<Condition>>, c: Conditions, met: seq<Need>,
          ns: seq<Need>)
    requires Generates(mint) && ConditionsOk(c) && OnlyAdds(before, c.all) && AllAsFound(before, c.all, c.ids, met)
    ensures AllAsFound(before, NeedAll(mint, c, ns).all, NeedAll(mint, c, ns).ids, met + ns)
    decreases |ns|
  {
    if ns == [] {
      assert met + ns == met;
    } else {
      NeedOneOk(mint, c, ns[0]);
      NeedOneFound(mint, before, c, met, ns[0]);
      NeedAllFound(mint, before, NeedOne(mint, c, ns[0]), met + [ns[0]], ns[1..]);
      MoveOver(met, ns);
    }
  }

  lemma MoveOver<T>(met: seq<T>, ns: seq<T>)
    requires ns != []
    ensures met + [ns[0]] + ns[1..] == met + ns
  {
  }

  lemma NeedOneFound(mint: Mint, before: seq<Item<Condition>>, c: Conditions, met: seq<Need>, n: Need)
    requires Generates(mint) && ConditionsOk(c) && OnlyAdds(before, c.all) && AllAsFound(before, c.all, c.ids, met)
    ensures OnlyAdds(before, NeedOne(mint, c, n).all)
    ensures AllAsFound(before, NeedOne(mint, c, n).all, NeedOne(mint, c, n).ids, met + [n])
  {
    var x := ConditionFor(mint, c.all, n);
    ConditionForFound(mint, before, c.all, n);
    var ids := c.ids + [x.id];
    forall i | 0 <= i < |ids|
      ensures AsFound(before, Lookup(Upsert(c.all, x), ids[i]), ids[i], (met + [n])[i])
    {
      UpsertLookup(c.all, x, ids[i]);
    }
  }

  lemma AllAsFoundTail(before: seq<Item<Condition>>, all: seq<Item<Condition>>, ids: seq<Id>, ns: seq<Need>)
    requires AllAsFound(before, all, ids, ns) && ns != []
    ensures AsFound(before, Lookup(all, ids[0]), ids[0], ns[0]) && AllAsFound(before, all, ids[1..], ns[1..])
  {
    assert forall i :: 0 <= i < |ids| - 1 ==> ids[1..][i] == ids[i + 1] && ns[1..][i] == ns[i + 1];
  }

  lemma {:induction false} FoundIdsAre(before: seq<Item<Condition>>, all: seq<Item<Condition>>, ids: seq<Id>,
          ns: seq<Need>)
    requires AllAsFound(before, all, ids, ns)
    ensures FoundIds(before, ns).Some? ==> FoundIds(before, ns).value == ids
    ensures FoundIds(before, ns).None? ==> exists id :: id in ids && id !in Ids(before)
  {
    if ns != [] {
      AllAsFoundTail(before, all, ids, ns);
      FoundIdsAre(before, all, ids[1..], ns[1..]);
      assert ids == [ids[0]] + ids[1..];
      if FoundIds(before, ns).None? && FoundIds(before, ns[1..]).None? {
        var id :| id in ids[1..] && id !in Ids(before);
        assert id in ids;
      }
    }
  }

  /** No rule tests a condition that does not exist yet. */
  lemma {:induction false} NoRuleOver(rules: seq<Item<Rule>>, conditions: set<Id>, pools: set<Id>, ids: seq<Id>, id: Id)
    requires RulesResolve(rules, conditions, pools) && id in ids && id !in conditions
    ensures Find(rules, WithConditions(ids)).None?
  {
    if rules != [] {
      assert RuleResolves(rules[0].body, conditions, pools);
      assert id in SetOf(ids);
      NoRuleOver(rules[1..], conditions, pools, ids, id);
    }
  }

  /** The rule that publishing reuses is the one told beforehand. */
  lemma TakenIs(g: Graph, r: Request, mint: Mint, pools: set<Id>)
    requires r.urls != [] && Generates(mint) && Distinct(g.conditions)
        && RulesResolve(g.rules, Ids(g.conditions), pools)
    ensures var c := NeedAll(mint, Conditions(g.conditions, []), Needs(r));
            AllAsFound(g.conditions, c.all, c.ids, Needs(r))
            && OldRule(g.rules, ExistingRule(g, r), c.ids) == RuleTaken(g, r)
  {
    var start := Conditions(g.conditions, []);
    var c := NeedAll(mint, start, Needs(r));
    NeedAllFound(mint, g.conditions, start, [], Needs(r));
    assert [] + Needs(r) == Needs(r);
    FoundIdsAre(g.conditions, c.all, c.ids, Needs(r));
    if FoundIds(g.conditions, Needs(r)).None? {
      var id :| id in c.ids && id !in Ids(g.conditions);
      NoRuleOver(g.rules, Ids(g.conditions), pools, c.ids, id);
    }
  }

  /** The rule's test, its kind and the negations of its conditions, told beforehand. */
  lemma RuleStepAsTold(g: Graph, r: Request, mint: Mint, pool: Id, pools: set<Id>)
    requires r.urls != [] && Generates(mint)
    requires Distinct(g.conditions) && Distinct(g.rules) && RulesResolve(g.rules, Ids(g.conditions), pools)
    ensures var s := RuleStep(g, r, mint, ExistingRule(g, r), pool);
            Lookup(s.graph.rules, s.rule).Some? &&
            var x := Lookup(s.graph.rules, s.rule).value.body;
            x.unlessTest == KeepsUnless(g, r) && x.useBackend == KeepsRoute(g, r)
            && Negations(s.graph.conditions, x.conditions) == FoundNegations(g.conditions, Needs(r))
  {
    var own := ExistingRule(g, r);
    var c := NeedAll(mint, Conditions(g.conditions, []), Needs(r));
    TakenIs(g, r, mint, pools);
    NegationsFound(g.conditions, c.all, c.ids, Needs(r));
    RuleAsTaken(g, r, mint, own, c.ids, pool);
    NegationsKept(g, r, mint, own, c, pool);
  }

  lemma RuleAsTaken(g: Graph, r: Request, mint: Mint, own: Option<Item<Rule>>, ids: seq<Id>, pool: Id)
    requires r.urls != [] && OldRule(g.rules, own, ids) == RuleTaken(g, r)
    ensures RuleFor(r, mint, g.rules, own, ids, pool).body.unlessTest == KeepsUnless(g, r)
    ensures RuleFor(r, mint, g.rules, own, ids, pool).body.useBackend == KeepsRoute(g, r)
  {
  }

  lemma NegationsKept(g: Graph, r: Request, mint: Mint, own: Option<Item<Rule>>, c: Conditions, pool: Id)
    requires r.urls != [] && Generates(mint) && Distinct(g.rules) && (own.Some? ==> own.value in g.rules)
    requires c == NeedAll(mint, Conditions(g.conditions, []), Needs(r))
    ensures var s := RuleStep(g, r, mint, own, pool);
            var x := RuleFor(r, mint, g.rules, own, c.ids, pool);
            Lookup(s.graph.rules, s.rule) == Some(x)
            && Negations(s.graph.conditions, x.body.conditions) == Negations(c.all, c.ids)
  {
    var x := RuleFor(r, mint, g.rules, own, c.ids, pool);
    RuleForFits(r, mint, g.rules, own, c.ids, pool);
    UpsertLookup(g.rules, x, x.id);
    UpsertMembers(g.rules, x, x);
    UsedBy(Upsert(g.rules, x), x);
    KeptNegations(c.all, PreviousConditions(g.rules, own, c.ids), UsedConditions(Upsert(g.rules, x)), c.ids);
  }

  lemma KeptNegations(all: seq<Item<Condition>>, previous: seq<Id>, used: set<Id>, ids: seq<Id>)
    requires SetOf(ids) <= used
    ensures Negations(DropUnused(all, previous, used), ids) == Negations(all, ids)
  {
    forall i | 0 <= i < |ids|
      ensures Negated(DropUnused(all, previous, used), ids[i]) == Negated(all, ids[i])
    {
      assert ids[i] in SetOf(ids);
      DropUnusedLookup(all, previous, used, ids[i]);
    }
  }

  lemma NegationsFound(before: seq<Item<Condition>>, all: seq<Item<Condition>>, ids: seq<Id>, ns: seq<Need>)
    requires AllAsFound(before, all, ids, ns)
    ensures Negations(all, ids) == FoundNegations(before, ns)
  {
    forall i | 0 <= i < |ids|
      ensures Negated(all, ids[i]) == FoundNegated(before, ns[i])
    {
      assert AsFound(before, Lookup(all, ids[i]), ids[i], ns[i]);
    }
  }

  /** The rule of a published service answers exactly the requests its URLs ask for,
      when and only when what it reuses leaves its test straight: one name or no
      path, and neither a negated condition nor an `unless` rule (or, over a single
      condition, both). */
  lemma PublishedRuleAnswers(g: Graph, r: Request, mint: Mint)
    requires r.urls != [] && !IsTcp(r) && Generates(mint) && WellFormed(g) && Published(g, r, mint).Some?
    ensures var after, rule := Published(g, r, mint).value, RoutingOf(g, r, mint).rule;
            Lookup(after.rules, rule).Some?
            && Lookup(after.rules, rule).value.body.unlessTest == KeepsUnless(g, r)
            && Lookup(after.rules, rule).value.body.useBackend == KeepsRoute(g, r)
            && ((forall host, path :: AnswersAsked(after, r, Lookup(after.rules, rule).value.body, host, path))
                <==> WillAnswer(g, r))
  {
    var b := BackendStep(g, r, mint);
    PublishedParts(g, r, mint);
    RoutingServes(g, r, mint);
    SameTold(g, b.graph, r);
    RuleStepAsTold(b.graph, r, mint, b.pool, Ids(g.pools));
    RuleAnswersExactly(Published(g, r, mint).value, r, RoutingOf(g, r, mint).rule, b.pool);
  }

  /** An `unless` rule that is reused with plain conditions answers exactly the
      requests the URLs do not ask for. */
  lemma UnlessAnswersRest(g: Graph, r: Request, mint: Mint, host: string, path: string)
    requires r.urls != [] && !IsTcp(r) && Generates(mint) && WellFormed(g) && Published(g, r, mint).Some?
    requires OneNameOrNoPath(r) && KeepsUnless(g, r) && NoneTrue(FoundNegations(g.conditions, Needs(r)))
    ensures var after, rule := Published(g, r, mint).value, RoutingOf(g, r, mint).rule;
            Lookup(after.rules, rule).Some?
            && (RuleOrder.Matches(Lookup(after.rules, rule).value.body, Holding(after.conditions, host, path))
                <==> !Asked(r, host, path))
  {
    var b := BackendStep(g, r, mint);
    PublishedParts(g, r, mint);
    RoutingServes(g, r, mint);
    SameTold(g, b.graph, r);
    RuleStepAsTold(b.graph, r, mint, b.pool, Ids(g.pools));
    NeedsExist(r);
    var after := Published(g, r, mint).value;
    var x := Lookup(after.rules, RoutingOf(g, r, mint).rule).value.body;
    MatchesNeeds(after.conditions, x, Needs(r), host, path);
    StraightAnswers(r, FoundNegations(g.conditions, Needs(r)), false, host, path);
  }

  lemma SameTold(g: Graph, h: Graph, r: Request)
    requires r.urls != [] && h.conditions == g.conditions && h.rules == g.rules
    ensures ExistingRule(h, r) == ExistingRule(g, r) && RuleTaken(h, r) == RuleTaken(g, r)
  {
  }
}
