/** One node's shared configuration and its revision: receiving, overtaking and
    catching up, as in ham/config.py and ham/sync.py. */
module Revision {
  import opened Options
  import opened Defaults
  import opened LocalObjects
  import opened History
  import opened Loading

  type NodeState = Stored<View>

  /** A push or an answer to a pull. A section's settings may be missing, and then its
      collections are. */
  datatype Payload = Payload(haproxy: Option<Json>, acme: Option<Json>, access: Option<Json>,
                             cluster: Option<Json>, notify: Option<Json>, objects: map<Key, seq<Obj>>,
                             rev: nat, fp: Option<View>, force: bool)

  // ---- receiving ----------------------------------------------------------------

  /** A payload with all five sections. */
  function Sent(x: View, rev: nat, fp: Option<View>, force: bool): Payload {
    var s := x.settings;
    Payload(Some(s.haproxy), Some(s.acme), Some(s.access), Some(s.cluster), Some(s.notify), x.objects, rev, fp, force)
  }

  /** An older revision is refused, unless it says nothing or is forced. */
  predicate Refuses(n: NodeState, p: Payload) {
    p.rev != 0 && p.rev < n.rev && !p.force
  }

  function Section(offered: Option<Json>, current: Json, default: Json, anything: bool): Json {
    if offered.Some? && (anything || offered.value.Object?) then Merge(offered.value, default) else current
  }

  /** Is the section this collection is in offered? Only haproxy and acme have any. */
  predicate Offers(p: Payload, k: Key) {
    if "acme." <= k then p.acme.Some? else p.haproxy.Some?
  }

  function Collections(x: map<Key, seq<Obj>>, p: Payload): map<Key, seq<Obj>> {
    map k | k in x.Keys + p.objects.Keys && (if Offers(p, k) then k in p.objects else k in x) ::
      if Offers(p, k) then p.objects[k] else x[k]
  }

  /** The sections that are offered replace this node's, filled in with the defaults. */
  function Adopted(x: View, p: Payload, d: Setup): View {
    var s, t := x.settings, d.settings;
    View(Shared(Section(p.haproxy, s.haproxy, t.haproxy, true),
                Section(p.acme, s.acme, t.acme, true),
                Section(p.access, s.access, t.access, false),
                Section(p.cluster, s.cluster, t.cluster, false),
                Section(p.notify, s.notify, t.notify, false)),
         Fill(Collections(x.objects, p), d.shared))
  }

  /** What a payload says of a section's settings, if that can be taken: access, cluster
      and notify must be objects. */
  function Offered(p: Payload, s: Part): Option<Json> {
    match s
    case HaproxyPart => p.haproxy
    case AcmePart => p.acme
    case AccessPart => if p.access.Some? && p.access.value.Object? then p.access else None
    case ClusterPart => if p.cluster.Some? && p.cluster.value.Object? then p.cluster else None
    case NotifyPart => if p.notify.Some? && p.notify.value.Object? then p.notify else None
  }

  /** Path by path: a section that is offered is taken, with the default only where it says
      nothing; one that is not stays as it was. */
  lemma AdoptedSettings(x: View, p: Payload, d: Setup, s: Part, path: seq<string>)
    ensures var after := PartOf(Adopted(x, p, d).settings, s);
      match Offered(p, s)
      case Some(offered) => FilledAt(after, offered, PartOf(d.settings, s), path)
      case None => after == PartOf(x.settings, s)
  {
    if Offered(p, s).Some? {
      MergeAt(Offered(p, s).value, PartOf(d.settings, s), path);
    }
  }

  /** A collection of an offered section is the one sent, or the default's where none was
      sent; one of a section that is not offered is as it was. */
  lemma AdoptedObjects(x: View, p: Payload, d: Setup, k: Key)
    ensures var offered := if |k| >= 5 && k[..5] == "acme." then p.acme.Some? else p.haproxy.Some?;
      var from := if offered then p.objects else x.objects;
      var after := Adopted(x, p, d).objects;
      && (k in after <==> k in from || k in d.shared)
      && (k in from ==> after[k] == from[k])
      && (k !in from && k in d.shared ==> after[k] == d.shared[k])
  {
    FillAt(Collections(x.objects, p), d.shared, k);
  }

  /** A view whose five sections are all objects, as the defaults' are. */
  predicate Objects(x: View) {
    var s := x.settings;
    s.haproxy.Object? && s.acme.Object? && s.access.Object? && s.cluster.Object? && s.notify.Object?
  }

  /** All sections are sent, and all are objects. */
  predicate Whole(p: Payload) {
    && p.haproxy.Some? && p.acme.Some? && p.access.Some? && p.cluster.Some? && p.notify.Some?
    && p.haproxy.value.Object? && p.acme.value.Object? && p.access.value.Object?
    && p.cluster.value.Object? && p.notify.value.Object?
  }

  // ---- what a load and a push do to the view ---------------------------------------

  /** How a node loads, and how it takes what it is sent. */
  datatype Loader = Loader(load: View -> View, adopt: (View, Payload) -> View)

  /** The node's own: defaults are filled in and its own objects moved out. */
  function LoaderOf(d: Setup): Loader {
    Loader(x => Normal(x, d), (x, p) => Adopted(x, p, d))
  }

  ghost predicate LoadsOnce(d: Loader, x: View) {
    d.load(d.load(x)) == d.load(x) && (Objects(x) ==> Objects(d.load(x)))
  }

  ghost predicate AdoptsWhole(d: Loader, y: View, x: View, rev: nat, fp: Option<View>, force: bool) {
    Objects(x) && d.load(x) == x ==> d.adopt(y, Sent(x, rev, fp, force)) == x
  }

  ghost predicate AdoptsObjects(d: Loader, y: View, p: Payload) {
    Objects(y) && Whole(p) ==> Objects(d.adopt(y, p))
  }

  /** Loading is a projection, and a loaded view that is sent whole is taken as it is. */
  ghost predicate Lawful(d: Loader) {
    && (forall x :: LoadsOnce(d, x))
    && (forall y, x, rev, fp, force :: AdoptsWhole(d, y, x, rev, fp, force))
    && forall y, p :: AdoptsObjects(d, y, p)
  }

  lemma NormalOnce(x: View, d: Setup)
    ensures LoadsOnce(LoaderOf(d), x)
  {
    NormalIdempotent(x, d);
  }

  lemma AdoptedWhole(y: View, x: View, rev: nat, fp: Option<View>, force: bool, d: Setup)
    ensures AdoptsWhole(LoaderOf(d), y, x, rev, fp, force)
  {
    if Normal(x, d) == x {
      NormalComplete(x, d);
      assert Collections(y.objects, Sent(x, rev, fp, force)) == x.objects;
    }
  }

  lemma AdoptedStaysObjects(y: View, p: Payload, d: Setup)
    ensures AdoptsObjects(LoaderOf(d), y, p)
  {
  }

  /** The load that the program runs is such a loader, whatever the defaults are. */
  lemma LoaderLawful(d: Setup)
    ensures Lawful(LoaderOf(d))
  {
    forall x
      ensures LoadsOnce(LoaderOf(d), x)
    {
      NormalOnce(x, d);
    }
    forall y, x, rev, fp, force
      ensures AdoptsWhole(LoaderOf(d), y, x, rev, fp, force)
    {
      AdoptedWhole(y, x, rev, fp, force, d);
    }
    forall y, p
      ensures AdoptsObjects(LoaderOf(d), y, p)
    {
      AdoptedStaysObjects(y, p, d);
    }
  }

  lemma LoadAgain(x: View, d: Loader)
    requires Lawful(d)
    ensures d.load(d.load(x)) == d.load(x) && (Objects(x) ==> Objects(d.load(x)))
  {
    assert LoadsOnce(d, x);
  }

  lemma AdoptAll(y: View, x: View, rev: nat, fp: Option<View>, force: bool, d: Loader)
    requires Lawful(d) && Objects(x) && d.load(x) == x
    ensures d.adopt(y, Sent(x, rev, fp, force)) == x
  {
    assert AdoptsWhole(d, y, x, rev, fp, force);
  }

  // ---- sending and receiving -------------------------------------------------------

  function PayloadOf(n: NodeState, d: Loader, force: bool): Payload {
    Sent(d.load(n.shared), n.rev, n.fp, force)
  }

  function Received(n: NodeState, p: Payload, d: Loader): NodeState {
    if Refuses(n, p) then n
    else
      var x := d.adopt(d.load(n.shared), p);
      Saved(Stored(x, p.rev, Some(x), p.fp.Some? && p.fp.value != x, n.history), x)
  }

  /** Taking a push from a node running the same release: the receiver ends on
      the sender's content and the sender's revision. */
  lemma ReceivedIsSent(n: NodeState, sender: NodeState, d: Loader, force: bool)
    requires Lawful(d) && Objects(sender.shared)
    requires !Refuses(n, PayloadOf(sender, d, force))
    ensures var m := Received(n, PayloadOf(sender, d, force), d);
      && m.shared == d.load(sender.shared) && m.rev == sender.rev && m.fp == Some(m.shared)
      && (sender.fp.Some? ==> (m.leak <==> sender.fp.value != m.shared))
  {
    LoadAgain(sender.shared, d);
    AdoptAll(d.load(n.shared), d.load(sender.shared), sender.rev, sender.fp, force, d);
  }

  /** A received revision never moves a node backwards, except by the two ways
      round the check: a forced push, or one that names no revision. */
  lemma ReceiveMonotone(n: NodeState, p: Payload, d: Loader)
    ensures Received(n, p, d).rev >= n.rev <==> !(p.rev < n.rev && (p.rev == 0 || p.force))
  {
  }

  // ---- overtaking every other node ------------------------------------------------

  /** make_newest: `seen` was read before the peers were asked, `n` is what the
      node holds when it commits. */
  function Newest(n: NodeState, d: Loader, highest: nat): NodeState {
    var x := d.load(n.shared);
    Saved(Stored(x, highest + 1, Some(x), n.leak, n.history), x)
  }

  function Highest(seen: nat, reports: seq<Option<nat>>): nat {
    if |reports| == 0 then seen
    else
      var h := Highest(seen, reports[..|reports| - 1]);
      var r := reports[|reports| - 1];
      if r.Some? && r.value > h then r.value else h
  }

  lemma {:induction false} HighestBounds(seen: nat, reports: seq<Option<nat>>)
    ensures seen <= Highest(seen, reports)
    ensures forall i :: 0 <= i < |reports| && reports[i].Some? ==> reports[i].value <= Highest(seen, reports)
    ensures Highest(seen, reports) == seen
      || exists i :: 0 <= i < |reports| && reports[i] == Some(Highest(seen, reports))
  {
    if |reports| > 0 {
      var front := reports[..|reports| - 1];
      HighestBounds(seen, front);
      var h := Highest(seen, front);
      if h != seen {
        var i :| 0 <= i < |front| && front[i] == Some(h);
        assert reports[i] == Some(h);
      }
    }
  }

  /** The node's own revision goes up, unless it was itself saved more than once
      since it was read: the peers are asked outside the lock. */
  lemma NewestMonotone(n: NodeState, d: Loader, seen: nat, reports: seq<Option<nat>>)
    ensures Newest(n, d, Highest(seen, reports)).rev == Highest(seen, reports) + 1
    ensures Newest(n, d, Highest(seen, reports)).rev >= n.rev <==> n.rev <= Highest(seen, reports) + 1
    ensures Newest(n, d, Highest(seen, reports)).shared == d.load(n.shared)
  {
  }

  // ---- the node as the program updates it -----------------------------------------

  /** The configuration as a caller holds it between loading and saving. One that
      stands in for a file that would not parse is marked. */
  datatype Loaded = Loaded(tree: Tree, rev: nat, fp: Option<View>, leak: bool, unreadable: bool)

  class Node {
    const setup: Setup
    var readable: bool
    var shared: View
    var own: map<Key, seq<Obj>>
    var attach: map<string, Slot>
    var rev: nat
    var fp: Option<View>
    var leak: bool
    var history: seq<Snapshot<View>>

    ghost function State(): NodeState
      reads this
    {
      Stored(shared, rev, fp, leak, history)
    }

    ghost function OnDisk(): File
      reads this
    {
      File(State(), own, attach)
    }

    constructor (setup: Setup)
      ensures this.setup == setup && readable
      ensures OnDisk() == File(Stored(View(setup.settings, setup.shared), 0, None, false, []), setup.own, map[])
    {
      this.setup := setup;
      readable := true;
      shared, own, attach := View(setup.settings, setup.shared), setup.own, map[];
      rev, fp, leak, history := 0, None, false, [];
    }

    /** A file that will not parse loads as the defaults alone, marked. */
    function Load(): (cfg: Loaded)
      reads this
      ensures cfg.unreadable <==> !readable
      ensures !readable ==> cfg.rev == 0 && cfg.fp.None? && !cfg.leak
      ensures readable ==> cfg == Loaded(Loading.Load(TreeOf(OnDisk()), setup), rev, fp, leak, false)
    {
      if readable then
        Loaded(Loading.Load(Tree(shared.settings, Config(shared.objects, own, attach)), setup), rev, fp, leak, false)
      else
        Loaded(Loading.Load(Tree(setup.settings, Config(map[], map[], map[])), setup), 0, None, false, true)
    }

    method TakeSnapshot(fp: View, rev: nat)
      modifies this`history
      ensures history == Recorded(old(history), Snapshot(rev, fp))
    {
      if |history| > 0 && history[|history| - 1].fp == fp {
        return;
      }
      history := history + [Snapshot(rev, fp)];
      if |history| > HISTORY_KEEP {
        history := history[|history| - HISTORY_KEEP..];
      }
    }

    /** Refuses, and touches nothing, when what is saved was never read. */
    method Save(cfg: Loaded) returns (ok: bool)
      modifies this
      ensures ok == !cfg.unreadable
      ensures ok ==> readable
      ensures var was := Stored(ViewOf(cfg.tree), cfg.rev, cfg.fp, cfg.leak, old(history));
        ok ==> OnDisk() == Written(File(was, map[], map[]), cfg.tree)
      ensures !ok ==> OnDisk() == old(OnDisk()) && readable == old(readable)
    {
      if cfg.unreadable {
        return false;
      }
      var view := ViewOf(cfg.tree);
      var moved := cfg.fp != Some(view);
      var next := if moved then cfg.rev + 1 else cfg.rev;
      TakeSnapshot(view, next);
      shared, own, attach := view, cfg.tree.objects.own, cfg.tree.objects.attach;
      rev, fp, leak, readable := next, Some(view), cfg.leak, true;
      return true;
    }

    method TakeSections(loaded: View, p: Payload) returns (x: View)
      ensures x == Adopted(loaded, p, setup)
    {
      var s := loaded.settings;
      if p.haproxy.Some? {
        s := s.(haproxy := Merge(p.haproxy.value, setup.settings.haproxy));
      }
      if p.acme.Some? {
        s := s.(acme := Merge(p.acme.value, setup.settings.acme));
      }
      if p.access.Some? && p.access.value.Object? {
        s := s.(access := Merge(p.access.value, setup.settings.access));
      }
      if p.cluster.Some? && p.cluster.value.Object? {
        s := s.(cluster := Merge(p.cluster.value, setup.settings.cluster));
      }
      if p.notify.Some? && p.notify.value.Object? {
        s := s.(notify := Merge(p.notify.value, setup.settings.notify));
      }
      x := View(s, Fill(Collections(loaded.objects, p), setup.shared));
    }

    /** What is this node's own stays so, and what the load found to be its own joins it. */
    method Receive(p: Payload) returns (ok: bool)
      modifies this
      ensures ok <==> old(readable) && !Refuses(old(State()), p)
      ensures State() == if old(readable) then Received(old(State()), p, LoaderOf(setup)) else old(State())
      ensures var t := if ok then Loading.Load(TreeOf(old(OnDisk())), setup) else TreeOf(old(OnDisk()));
        own == t.objects.own && attach == t.objects.attach
      ensures readable == old(readable)
    {
      var cfg := Load();
      var mine, theirs := cfg.rev, p.rev;
      if theirs != 0 && theirs < mine && !p.force {
        return false;
      }
      NormalOf(TreeOf(OnDisk()), setup);
      var x := TakeSections(ViewOf(cfg.tree), p);
      var leaks := p.fp.Some? && p.fp.value != x;
      var tree := Tree(x.settings, cfg.tree.objects.(shared := x.objects));
      ok := Save(cfg.(tree := tree, fp := Some(x), rev := theirs, leak := leaks));
    }

    method MakeNewest(seen: nat, reports: seq<Option<nat>>) returns (ok: bool)
      modifies this
      ensures ok == old(readable) == readable
      ensures State() == if ok then Newest(old(State()), LoaderOf(setup), Highest(seen, reports)) else old(State())
      ensures var t := if ok then Loading.Load(TreeOf(old(OnDisk())), setup) else TreeOf(old(OnDisk()));
        own == t.objects.own && attach == t.objects.attach
    {
      var highest := seen;
      for i := 0 to |reports|
        invariant highest == Highest(seen, reports[..i])
        invariant OnDisk() == old(OnDisk()) && readable == old(readable)
      {
        assert reports[..i + 1][..i] == reports[..i];
        if reports[i].Some? {
          highest := if reports[i].value > highest then reports[i].value else highest;
        }
      }
      assert reports[..|reports|] == reports;
      NormalOf(TreeOf(OnDisk()), setup);
      var cfg := Load();
      ok := Save(cfg.(fp := Some(ViewOf(cfg.tree)), rev := highest + 1));
    }
  }

  // ---- who to push to, whom to ask -------------------------------------------------

  /** What the cluster overview knows of a node. */
  datatype Health = Health(url: string, self: bool, reachable: bool, hasFp: bool, rev: nat)

  predicate Behind(n: Health, peers: set<string>, mine: nat) {
    !n.self && n.reachable && n.url in peers && n.hasFp && n.rev < mine
  }

  function BehindOf(nodes: seq<Health>, peers: set<string>, mine: nat): seq<string> {
    if |nodes| == 0 then []
    else
      var n := nodes[|nodes| - 1];
      BehindOf(nodes[..|nodes| - 1], peers, mine) + if Behind(n, peers, mine) then [n.url] else []
  }

  /** reconcile: the peers a push is due to, in the order they were seen. */
  method Reconcile(autoSync: bool, passive: bool, peers: set<string>, mine: nat, nodes: seq<Health>)
    returns (targets: seq<string>)
    ensures targets == if !autoSync || passive || peers == {} then [] else BehindOf(nodes, peers, mine)
  {
    targets := [];
    if peers == {} || !autoSync || passive {
      return;
    }
    for i := 0 to |nodes|
      invariant targets == BehindOf(nodes[..i], peers, mine)
    {
      var n := nodes[i];
      assert nodes[..i + 1][..i] == nodes[..i];
      if !n.self && n.reachable {
        if n.url in peers && n.hasFp && n.rev < mine {
          targets := targets + [n.url];
        }
      }
    }
    assert nodes[..|nodes|] == nodes;
  }

  datatype Status = Status(hasFp: bool, rev: nat)

  predicate Ahead(s: Option<Status>, mine: nat) {
    s.Some? && s.value.hasFp && s.value.rev > mine
  }

  /** catch_up: the first of the peers that report the highest revision above
      this node's own. */
  method CatchUp(mine: nat, answers: seq<Option<Status>>) returns (best: Option<nat>)
    ensures best.None? <==> forall i :: 0 <= i < |answers| ==> !Ahead(answers[i], mine)
    ensures best.Some? ==> var b := best.value;
      && b < |answers| && Ahead(answers[b], mine)
      && (forall i :: 0 <= i < |answers| && Ahead(answers[i], mine) ==> answers[i].value.rev <= answers[b].value.rev)
      && (forall i :: 0 <= i < b && Ahead(answers[i], mine) ==> answers[i].value.rev < answers[b].value.rev)
  {
    best := None;
    var bestRev := mine;
    for i := 0 to |answers|
      invariant best.None? ==> bestRev == mine && forall j :: 0 <= j < i ==> !Ahead(answers[j], mine)
      invariant best.Some? ==> var b := best.value;
        && b < i && Ahead(answers[b], mine) && answers[b].value.rev == bestRev
        && (forall j :: 0 <= j < i && Ahead(answers[j], mine) ==> answers[j].value.rev <= bestRev)
        && (forall j :: 0 <= j < b && Ahead(answers[j], mine) ==> answers[j].value.rev < bestRev)
    {
      if answers[i].Some? && answers[i].value.hasFp && answers[i].value.rev > bestRev {
        best, bestRev := Some(i), answers[i].value.rev;
      }
    }
  }
}
