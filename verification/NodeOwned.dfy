/** Which objects of the shared sections are this node's own (ham/config.py,
    `webui_object_ids` and `_move_node_objects_into_local`): loading moves them
    out, and the next load finds none. */
module NodeOwned {
  import opened Options
  import opened LocalObjects

  const SERVICE := "haproxy-manager-ui"
  const POOLS: Key := "haproxy.backends"
  const RULES: Key := "haproxy.rules"
  const CERTIFICATES: Key := "acme.certificates"

  /** `is_webui_name`: the service's name, or a numbered variant of it. */
  predicate ServiceName(name: string, prefix: string) {
    name == prefix + SERVICE || prefix + SERVICE + "-" <= name
  }

  /** What objects refer to: a pool's servers and monitor, a rule's pool and its
      conditions. */
  datatype Links = Links(parts: Obj -> set<Id>, pool: Obj -> Id, tests: Obj -> set<Id>)

  /** The service's pools and what they are built from. */
  function PoolIds(pools: seq<Obj>, n: Links): set<Id> {
    if pools == [] then {}
    else (if ServiceName(pools[0].name, "") then {pools[0].id} + n.parts(pools[0]) else {}) + PoolIds(pools[1..], n)
  }

  predicate Routes(rule: Obj, ids: set<Id>, n: Links) {
    n.pool(rule) in ids || ServiceName(rule.name, "to-")
  }

  /** The rules that route to what was found so far, and what they test. */
  function RuleIds(rules: seq<Obj>, ids: set<Id>, n: Links): set<Id> {
    if rules == [] then ids
    else RuleIds(rules[1..], if Routes(rules[0], ids, n) then ids + {rules[0].id} + n.tests(rules[0]) else ids, n)
  }

  function CertificateIds(certificates: seq<Obj>): set<Id> {
    set x | x in certificates && ServiceName(x.name, "") :: x.id
  }

  function FlaggedIds(shared: map<Key, seq<Obj>>): set<Id> {
    set k, x | k in shared && x in shared[k] && x.localOnly :: x.id
  }

  /** Everything in the shared sections that is this node's own. */
  function OwnIds(shared: map<Key, seq<Obj>>, n: Links): set<Id> {
    (FlaggedIds(shared) + RuleIds(At(shared, RULES), PoolIds(At(shared, POOLS), n), n)
     + CertificateIds(At(shared, CERTIFICATES))) - {""}
  }

  method WebuiObjectIds(shared: map<Key, seq<Obj>>, n: Links) returns (ids: set<Id>)
    ensures ids == RuleIds(At(shared, RULES), PoolIds(At(shared, POOLS), n), n) - {""}
  {
    var pools, rules := At(shared, POOLS), At(shared, RULES);
    ids := {};
    for i := 0 to |pools|
      invariant ids + PoolIds(pools[i..], n) == PoolIds(pools, n)
    {
      assert pools[i..][1..] == pools[i + 1..];
      if ServiceName(pools[i].name, "") {
        ids := ids + {pools[i].id} + n.parts(pools[i]);
      }
    }
    ids := RuleObjectIds(rules, ids, n);
    ids := ids - {""};
  }

  method RuleObjectIds(rules: seq<Obj>, found: set<Id>, n: Links) returns (ids: set<Id>)
    ensures ids == RuleIds(rules, found, n)
  {
    ids := found;
    for i := 0 to |rules|
      invariant RuleIds(rules[i..], ids, n) == RuleIds(rules, found, n)
    {
      assert rules[i..][1..] == rules[i + 1..];
      if Routes(rules[i], ids, n) {
        ids := ids + {rules[i].id} + n.tests(rules[i]);
      }
    }
  }

  // ----- the same, from the names and the references -----

  /** The name of the service behind a prefix, alone or with a hyphen and more after it. */
  lemma ServiceNameIs(name: string, prefix: string)
    ensures ServiceName(name, prefix) <==>
      name == prefix + "haproxy-manager-ui" || exists more :: name == prefix + "haproxy-manager-ui-" + more
  {
    var head := prefix + SERVICE + "-";
    assert head == prefix + "haproxy-manager-ui-";
    if head <= name {
      assert name == head + name[|head|..];
    }
  }

  /** A pool of that name, or what such a pool is built from. */
  lemma {:induction false} PoolIdsAre(pools: seq<Obj>, n: Links, id: Id)
    ensures id in PoolIds(pools, n) <==>
      exists x :: x in pools && ServiceName(x.name, "") && (id == x.id || id in n.parts(x))
  {
    if pools != [] {
      PoolIdsAre(pools[1..], n, id);
      assert forall x :: x in pools <==> x == pools[0] || x in pools[1..];
    }
  }

  /** A rule counts when its pool is among what the pools and the rules before it gave,
      or for its name; it brings its conditions along. */
  lemma {:induction false} RuleIdsAre(rules: seq<Obj>, ids: set<Id>, n: Links, id: Id)
    ensures id in RuleIds(rules, ids, n) <==>
      id in ids || exists i :: 0 <= i < |rules| && Brings(rules[i], RuleIds(rules[..i], ids, n), n, id)
  {
    if rules != [] {
      var m := |rules| - 1;
      var before := RuleIds(rules[..m], ids, n);
      LastRule(rules[..m], rules[m], ids, n);
      assert rules[..m] + [rules[m]] == rules;
      RuleIdsAre(rules[..m], ids, n, id);
      assert forall i :: 0 <= i < m ==> rules[..m][i] == rules[i] && rules[..m][..i] == rules[..i];
      assert id in RuleIds(rules, ids, n) <==> (id in before || Brings(rules[m], before, n, id));
    }
  }

  predicate Brings(rule: Obj, before: set<Id>, n: Links, id: Id) {
    (n.pool(rule) in before || ServiceName(rule.name, "to-")) && (id == rule.id || id in n.tests(rule))
  }

  lemma {:induction false} LastRule(rules: seq<Obj>, rule: Obj, ids: set<Id>, n: Links)
    ensures RuleIds(rules + [rule], ids, n) == Found(rule, RuleIds(rules, ids, n), n)
  {
    if rules != [] {
      assert (rules + [rule])[1..] == rules[1..] + [rule];
      LastRule(rules[1..], rule, Found(rules[0], ids, n), n);
    } else {
      assert (rules + [rule])[1..] == [];
    }
  }

  /** What loading moves: every object that is flagged, part of a pool of the service, of a
      rule in front of one, or a certificate named for it, when it has an id. */
  lemma OwnIdsAre(shared: map<Key, seq<Obj>>, n: Links, id: Id)
    ensures id in OwnIds(shared, n) <==>
      id != "" &&
      ((exists k, x :: k in shared && x in shared[k] && x.localOnly && x.id == id)
       || id in RuleIds(At(shared, RULES), PoolIds(At(shared, POOLS), n), n)
       || exists x :: x in At(shared, CERTIFICATES) && ServiceName(x.name, "") && x.id == id)
  {
  }

  // ----- what is left -----

  lemma KeptAt(shared: map<Key, seq<Obj>>, ids: set<Id>, k: Key, x: Obj)
    requires k != LISTENERS && x in At(MovedShared(shared, ids), k)
    ensures k in shared && x in shared[k] && x.id !in ids
  {
    KeepMember(shared[k], ids, x);
  }

  lemma FlaggedFound(shared: map<Key, seq<Obj>>, k: Key, x: Obj)
    requires k in shared && x in shared[k] && x.localOnly
    ensures x.id in FlaggedIds(shared)
  {
  }

  /** The objects of a collection that have no id, and so never move. */
  function Nameless(xs: seq<Obj>): seq<Obj> {
    if xs == [] then [] else (if xs[0].id == "" then [xs[0]] else []) + Nameless(xs[1..])
  }

  /** What only pools and rules without an id lead to. */
  function Unclaimed(shared: map<Key, seq<Obj>>, n: Links): set<Id> {
    RuleIds(Nameless(At(shared, RULES)), PoolIds(Nameless(At(shared, POOLS)), n), n) - {""}
  }

  lemma NamelessFirst(x: Obj, xs: seq<Obj>)
    ensures Nameless([x] + xs) == (if x.id == "" then [x] else []) + Nameless(xs)
  {
    assert ([x] + xs)[1..] == xs;
  }

  lemma {:induction false} PoolsLeft(pools: seq<Obj>, away: set<Id>, n: Links)
    requires PoolIds(pools, n) - {""} <= away && "" !in away
    ensures PoolIds(KeepObjs(pools, away), n) == PoolIds(Nameless(pools), n)
  {
    if pools != [] {
      var x, rest := pools[0], pools[1..];
      PoolsLeft(rest, away, n);
      KeepFirst(x, rest, away);
      NamelessFirst(x, rest);
      assert [x] + rest == pools;
      PoolIdsFirst(x, KeepObjs(rest, away), n);
      PoolIdsFirst(x, Nameless(rest), n);
      assert x.id in away ==> KeepObjs(pools, away) == KeepObjs(rest, away);
      assert x.id != "" ==> Nameless(pools) == Nameless(rest);
    }
  }

  lemma PoolIdsFirst(x: Obj, rest: seq<Obj>, n: Links)
    ensures PoolIds([x] + rest, n) == (if ServiceName(x.name, "") then {x.id} + n.parts(x) else {}) + PoolIds(rest, n)
  {
    assert ([x] + rest)[1..] == rest;
  }

  lemma RuleIdsFirst(x: Obj, rest: seq<Obj>, ids: set<Id>, n: Links)
    ensures RuleIds([x] + rest, ids, n) == RuleIds(rest, Found(x, ids, n), n)
  {
    assert ([x] + rest)[1..] == rest;
  }

  lemma {:induction false} RuleIdsGrow(rules: seq<Obj>, ids: set<Id>, n: Links)
    ensures ids <= RuleIds(rules, ids, n)
  {
    if rules != [] {
      RuleIdsGrow(rules[1..], Found(rules[0], ids, n), n);
    }
  }

  /** Rules that stay although they have an id route to nothing that was found. */
  lemma {:induction false} RulesLeft(rules: seq<Obj>, away: set<Id>, fewer: set<Id>, ids: set<Id>, n: Links)
    requires fewer <= ids && RuleIds(rules, ids, n) - {""} <= away && "" !in away
    ensures RuleIds(KeepObjs(rules, away), fewer, n) == RuleIds(Nameless(rules), fewer, n)
  {
    if rules != [] {
      var x, rest := rules[0], rules[1..];
      KeepFirst(x, rest, away);
      NamelessFirst(x, rest);
      assert [x] + rest == rules;
      RuleIdsFirst(x, KeepObjs(rest, away), fewer, n);
      RuleIdsFirst(x, Nameless(rest), fewer, n);
      RuleIdsGrow(rest, Found(x, ids, n), n);
      if x.id in away {
        RulesLeft(rest, away, fewer, Found(x, ids, n), n);
        assert [] + KeepObjs(rest, away) == KeepObjs(rest, away) && [] + Nameless(rest) == Nameless(rest);
      } else {
        assert x.id != "" ==> !Routes(x, fewer, n);
        RulesLeft(rest, away, Found(x, fewer, n), Found(x, ids, n), n);
        assert [] + Nameless(rest) == Nameless(rest);
      }
    }
  }

  lemma FlaggedLeft(shared: map<Key, seq<Obj>>, ids: set<Id>)
    requires FlaggedIds(shared) - {""} <= ids
    ensures FlaggedIds(MovedShared(shared, ids)) <= {""}
  {
    var after := MovedShared(shared, ids);
    forall k, x: Obj | k in after && x in after[k] && x.localOnly
      ensures x.id == ""
    {
      if k == LISTENERS {
        var kept := KeepObjs(shared[LISTENERS], ids);
        var i :| 0 <= i < |kept| && x == Stripped(kept[i], ids);
        KeepMember(shared[LISTENERS], ids, kept[i]);
        FlaggedFound(shared, LISTENERS, kept[i]);
      } else {
        KeptAt(shared, ids, k, x);
        FlaggedFound(shared, k, x);
      }
    }
  }

  lemma CertificatesLeft(certificates: seq<Obj>, ids: set<Id>)
    requires CertificateIds(certificates) - {""} <= ids
    ensures CertificateIds(KeepObjs(certificates, ids)) <= {""}
  {
    forall x | x in KeepObjs(certificates, ids) && ServiceName(x.name, "")
      ensures x.id == ""
    {
      KeepMember(certificates, ids, x);
      assert x.id in CertificateIds(certificates);
    }
  }

  lemma MovedAt(shared: map<Key, seq<Obj>>, ids: set<Id>, k: Key)
    requires k != LISTENERS
    ensures At(MovedShared(shared, ids), k) == KeepObjs(At(shared, k), ids)
  {
  }

  /** After the move the shared sections lead to nothing of this node's own but what
      their pools and rules without an id lead to. */
  lemma NothingLeft(shared: map<Key, seq<Obj>>, n: Links)
    ensures OwnIds(MovedShared(shared, OwnIds(shared, n)), n) == Unclaimed(shared, n)
  {
    var ids := OwnIds(shared, n);
    var pools, rules := At(shared, POOLS), At(shared, RULES);
    MovedAt(shared, ids, POOLS);
    MovedAt(shared, ids, RULES);
    MovedAt(shared, ids, CERTIFICATES);
    FlaggedLeft(shared, ids);
    CertificatesLeft(At(shared, CERTIFICATES), ids);
    RuleIdsGrow(rules, PoolIds(pools, n), n);
    PoolsLeft(pools, ids, n);
    PoolIdsFewer(pools, ids, n);
    RulesLeft(rules, ids, PoolIds(KeepObjs(pools, ids), n), PoolIds(pools, n), n);
  }

  // ----- moving twice -----

  lemma {:induction false} PoolIdsFewer(pools: seq<Obj>, ids: set<Id>, n: Links)
    ensures PoolIds(KeepObjs(pools, ids), n) <= PoolIds(pools, n)
  {
    if pools != [] {
      PoolIdsFewer(pools[1..], ids, n);
      KeepFirst(pools[0], pools[1..], ids);
      assert [pools[0]] + pools[1..] == pools;
      var rest := KeepObjs(pools[1..], ids);
      if pools[0].id in ids {
        assert KeepObjs(pools, ids) == rest;
      } else {
        assert KeepObjs(pools, ids) == [pools[0]] + rest;
      }
    }
  }

  function Found(rule: Obj, ids: set<Id>, n: Links): set<Id> {
    if Routes(rule, ids, n) then ids + {rule.id} + n.tests(rule) else ids
  }

  lemma {:induction false} RuleIdsFewer(rules: seq<Obj>, away: set<Id>, fewer: set<Id>, ids: set<Id>, n: Links)
    requires fewer <= ids
    ensures RuleIds(KeepObjs(rules, away), fewer, n) <= RuleIds(rules, ids, n)
  {
    if rules != [] {
      var x, rest := rules[0], KeepObjs(rules[1..], away);
      KeepFirst(x, rules[1..], away);
      assert [x] + rules[1..] == rules;
      if x.id in away {
        assert KeepObjs(rules, away) == rest;
        RuleIdsFewer(rules[1..], away, fewer, Found(x, ids, n), n);
      } else {
        assert KeepObjs(rules, away) == [x] + rest;
        RuleIdsFewer(rules[1..], away, Found(x, fewer, n), Found(x, ids, n), n);
      }
    }
  }

  lemma CertificateIdsFewer(certificates: seq<Obj>, ids: set<Id>)
    ensures CertificateIds(KeepObjs(certificates, ids)) <= CertificateIds(certificates)
  {
    forall x | x in KeepObjs(certificates, ids)
      ensures x in certificates
    {
      KeepMember(certificates, ids, x);
    }
  }

  lemma FlaggedFewer(shared: map<Key, seq<Obj>>, ids: set<Id>)
    ensures FlaggedIds(MovedShared(shared, ids)) <= FlaggedIds(shared)
  {
    var after := MovedShared(shared, ids);
    forall k, x: Obj | k in after && x in after[k] && x.localOnly
      ensures x.id in FlaggedIds(shared)
    {
      if k == LISTENERS {
        var kept := KeepObjs(shared[LISTENERS], ids);
        var i :| 0 <= i < |kept| && x == Stripped(kept[i], ids);
        KeepMember(shared[LISTENERS], ids, kept[i]);
        FlaggedFound(shared, LISTENERS, kept[i]);
      } else {
        KeptAt(shared, ids, k, x);
        FlaggedFound(shared, k, x);
      }
    }
  }

  /** A move finds no object to be this node's own that the first move did not find. */
  lemma OwnIdsFewer(shared: map<Key, seq<Obj>>, ids: set<Id>, n: Links)
    ensures OwnIds(MovedShared(shared, ids), n) <= OwnIds(shared, n)
  {
    FlaggedFewer(shared, ids);
    PoolIdsFewer(At(shared, POOLS), ids, n);
    RuleIdsFewer(At(shared, RULES), ids, PoolIds(At(MovedShared(shared, ids), POOLS), n),
        PoolIds(At(shared, POOLS), n), n);
    CertificateIdsFewer(At(shared, CERTIFICATES), ids);
  }

  /** Nothing shared is, or is listed by a listener as, one of these ids. */
  ghost predicate Untouched(shared: map<Key, seq<Obj>>, ids: set<Id>) {
    (forall k, x :: k in shared && x in shared[k] ==> x.id !in ids)
    && (LISTENERS in shared ==> forall fe :: fe in shared[LISTENERS] ==>
        Unlisted(fe.rules, ids) && Unlisted(fe.certificates, ids))
  }

  predicate Unlisted(xs: Option<seq<Id>>, ids: set<Id>) {
    xs.Some? ==> forall x :: x in xs.value ==> x !in ids
  }

  /** After a move, whatever it moved is no longer in the shared sections. */
  lemma MovedUntouched(shared: map<Key, seq<Obj>>, ids: set<Id>, fewer: set<Id>)
    requires fewer <= ids
    ensures Untouched(MovedShared(shared, ids), fewer)
  {
    var after := MovedShared(shared, ids);
    forall k, x: Obj | k in after && x in after[k]
      ensures x.id !in fewer
      ensures k == LISTENERS ==> Unlisted(x.rules, fewer) && Unlisted(x.certificates, fewer)
    {
      if k == LISTENERS {
        var kept := KeepObjs(shared[LISTENERS], ids);
        var i :| 0 <= i < |kept| && x == Stripped(kept[i], ids);
        KeepMember(shared[LISTENERS], ids, kept[i]);
        StrippedUnlisted(kept[i].rules, ids, fewer);
        StrippedUnlisted(kept[i].certificates, ids, fewer);
      } else {
        KeptAt(shared, ids, k, x);
      }
    }
  }

  lemma StrippedUnlisted(xs: Option<seq<Id>>, ids: set<Id>, fewer: set<Id>)
    requires fewer <= ids
    ensures Unlisted(StripList(xs, ids), fewer)
  {
    if xs.Some? {
      forall x | x in Keep(xs.value, ids)
        ensures x !in fewer
      {
        TakeMember(xs.value, ids, x);
      }
    }
  }

  lemma {:induction false} KeepSame(xs: seq<Id>, ids: set<Id>)
    ensures Keep(xs, ids) == xs <==> forall x :: x in xs ==> x !in ids
  {
    if Keep(xs, ids) == xs {
      forall x | x in xs
        ensures x !in ids
      {
        TakeMember(xs, ids, x);
      }
    }
    if forall x :: x in xs ==> x !in ids {
      KeepAllIds(xs, ids);
    }
  }

  lemma {:induction false} KeepAllIds(xs: seq<Id>, ids: set<Id>)
    requires forall x :: x in xs ==> x !in ids
    ensures Keep(xs, ids) == xs && Take(xs, ids) == []
  {
    if xs != [] {
      assert xs[0] in xs;
      KeepAllIds(xs[1..], ids);
    }
  }

  lemma {:induction false} KeepObjsAll(xs: seq<Obj>, ids: set<Id>)
    requires forall x :: x in xs ==> x.id !in ids
    ensures KeepObjs(xs, ids) == xs && TakeObjs(xs, ids) == []
  {
    if xs != [] {
      assert xs[0] in xs;
      KeepObjsAll(xs[1..], ids);
    }
  }

  lemma StripSame(fe: Obj, ids: set<Id>)
    ensures Stripped(fe, ids) == fe <==> Unlisted(fe.rules, ids) && Unlisted(fe.certificates, ids)
  {
    if fe.rules.Some? {
      KeepSame(fe.rules.value, ids);
    }
    if fe.certificates.Some? {
      KeepSame(fe.certificates.value, ids);
    }
  }

  /** A move leaves the shared sections as they are exactly when they hold nothing of it. */
  lemma MovedSharedSame(shared: map<Key, seq<Obj>>, ids: set<Id>)
    ensures MovedShared(shared, ids) == shared <==> Untouched(shared, ids)
  {
    if Untouched(shared, ids) {
      UntouchedSame(shared, ids);
    }
    if MovedShared(shared, ids) == shared {
      MovedUntouched(shared, ids, ids);
    }
  }

  lemma UntouchedSame(shared: map<Key, seq<Obj>>, ids: set<Id>)
    requires Untouched(shared, ids)
    ensures MovedShared(shared, ids) == shared
  {
    forall k | k in shared
      ensures KeepObjs(shared[k], ids) == shared[k]
    {
      KeepObjsAll(shared[k], ids);
    }
    assert Kept(shared, ids) == shared;
    if LISTENERS in shared {
      var fes := shared[LISTENERS];
      forall i | 0 <= i < |fes|
        ensures StrippedAll(fes, ids)[i] == fes[i]
      {
        assert fes[i] in fes;
        StripSame(fes[i], ids);
      }
      assert StrippedAll(fes, ids) == fes;
    }
  }

  /** A move of nothing that is there changes nothing at all. */
  lemma UntouchedMoved(c: Config, ids: set<Id>)
    requires Untouched(c.shared, ids)
    ensures Moved(c, ids) == c
  {
    UntouchedSame(c.shared, ids);
    forall k | k in c.shared
      ensures TakeObjs(c.shared[k], ids) == []
    {
      KeepObjsAll(c.shared[k], ids);
    }
    assert Givers(c.shared, ids) == {};
    forall k | k in c.own
      ensures OwnAfter(c, ids, k) == c.own[k]
    {
      assert At(c.shared, k) == [] || k in c.shared;
    }
    assert MovedOwn(c, ids) == c.own;
    UntouchedAttached(c, ids);
  }

  lemma UntouchedAttached(c: Config, ids: set<Id>)
    requires Untouched(c.shared, ids)
    ensures AttachedAll(c.attach, At(Kept(c.shared, ids), LISTENERS), ids) == c.attach
  {
    if LISTENERS in c.shared {
      KeepObjsAll(c.shared[LISTENERS], ids);
      AttachedNone(c.attach, c.shared[LISTENERS], ids);
    }
  }

  lemma {:induction false} AttachedNone(attach: map<string, Slot>, fes: seq<Obj>, ids: set<Id>)
    requires forall fe :: fe in fes ==> Unlisted(fe.rules, ids) && Unlisted(fe.certificates, ids)
    ensures AttachedAll(attach, fes, ids) == attach
  {
    if |fes| > 0 {
      var fe := fes[|fes| - 1];
      AttachedNone(attach, fes[..|fes| - 1], ids);
      assert fe in fes;
      if fe.rules.Some? {
        KeepAllIds(fe.rules.value, ids);
      }
      if fe.certificates.Some? {
        KeepAllIds(fe.certificates.value, ids);
      }
    }
  }

  // ----- loading -----

  /** `_move_node_objects_into_local`. */
  function Settled(c: Config, n: Links): Config {
    if OwnIds(c.shared, n) == {} then c else Moved(c, OwnIds(c.shared, n))
  }

  /** What was settled once holds nothing that a second move would take. */
  lemma SettledUntouched(c: Config, n: Links)
    ensures Untouched(Settled(c, n).shared, OwnIds(Settled(c, n).shared, n))
  {
    OwnIdsFewer(c.shared, OwnIds(c.shared, n), n);
    MovedUntouched(c.shared, OwnIds(c.shared, n), OwnIds(MovedShared(c.shared, OwnIds(c.shared, n)), n));
  }

  /** Loading what a load has settled moves nothing: the step is a projection. */
  lemma SettledTwice(c: Config, n: Links)
    ensures Settled(Settled(c, n), n) == Settled(c, n)
  {
    SettledUntouched(c, n);
    UntouchedMoved(Settled(c, n), OwnIds(Settled(c, n).shared, n));
  }
}
