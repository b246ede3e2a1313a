/** A cluster of nodes exchanging snapshots of the shared configuration over a
    network that loses, delays, repeats and reorders them. */
module Replication {
  import opened Options
  import opened History
  import opened Loading
  import opened Revision

  type Id = string

  /** Every payload ever sent stays on the wire: it may arrive at any node, at
      any later time, any number of times, or never. */
  datatype System = System(nodes: map<Id, NodeState>, wire: set<Payload>)

  datatype Event =
    | Edit(x: View)                // the writer's shared sections are changed and saved
    | Touch(id: Id)                // any node loads and saves without a shared edit
    | Send(id: Id)                 // a push leaves, or a pull is answered
    | Deliver(id: Id, p: Payload)  // some payload arrives

  predicate Fresh(n: NodeState) {
    n.fp.None? && n.rev == 0
  }

  /** Only w is edited, nothing is forced, and a node that has never saved does
      not send. */
  predicate Enabled(s: System, e: Event, w: Id) {
    match e
    case Edit(x) => w in s.nodes && Objects(x)
    case Touch(id) => id in s.nodes
    case Send(id) => id in s.nodes && s.nodes[id].rev >= 1
    case Deliver(id, p) => id in s.nodes && p in s.wire
  }

  function Next(s: System, e: Event, w: Id, d: Loader): System
    requires Enabled(s, e, w)
  {
    match e
    case Edit(x) => s.(nodes := s.nodes[w := Saved(s.nodes[w], x)])
    case Touch(id) => s.(nodes := s.nodes[id := Touched(s.nodes[id], d.load)])
    case Send(id) => s.(wire := s.wire + {PayloadOf(s.nodes[id], d, false)})
    case Deliver(id, p) => s.(nodes := s.nodes[id := Received(s.nodes[id], p, d)])
  }

  /** A saved node's record of itself is in order. */
  predicate Settled(n: NodeState) {
    n.rev >= 1 && n.fp == Some(n.shared) && Objects(n.shared)
  }

  /** At the start every node is fresh or an exact copy of the writer. */
  predicate Start(s: System, w: Id, d: Loader) {
    && s.wire == {}
    && w in s.nodes
    && (Fresh(s.nodes[w]) || Settled(s.nodes[w]))
    && (forall j | j in s.nodes :: Objects(s.nodes[j].shared))
    && forall j | j in s.nodes && j != w ::
      Fresh(s.nodes[j]) || (Settled(s.nodes[w]) && Copies(s.nodes[j], s.nodes[w].rev, d.load(s.nodes[w].shared)))
  }

  predicate Copies(n: NodeState, rev: nat, x: View) {
    Settled(n) && n.rev == rev && n.shared == x
  }

  ghost predicate Run(states: seq<System>, events: seq<Event>, w: Id, d: Loader) {
    && |states| == |events| + 1
    && Start(states[0], w, d)
    && forall i :: 0 <= i < |events| ==>
      Enabled(states[i], events[i], w) && states[i + 1] == Next(states[i], events[i], w, d)
  }

  // ---- what a step brings about --------------------------------------------------

  /** An edit is what the writer then holds. */
  lemma EditHeld(s: System, x: View, w: Id, d: Loader)
    requires Enabled(s, Edit(x), w)
    ensures Next(s, Edit(x), w, d).nodes[w].shared == x
  {
  }

  /** What a saved node sends is on its way to all, also to those that missed earlier
      ones, and once it is delivered a node that is not ahead holds what the sender held. */
  lemma SentArrives(s: System, id: Id, j: Id, w: Id, d: Loader)
    requires Lawful(d) && id in s.nodes && j in s.nodes && Objects(s.nodes[id].shared)
    requires 1 <= s.nodes[id].rev && s.nodes[j].rev <= s.nodes[id].rev
    ensures Enabled(s, Send(id), w)
    ensures var sender, t := s.nodes[id], Next(s, Send(id), w, d);
      t.nodes == s.nodes && s.wire <= t.wire
      && exists p :: Enabled(t, Deliver(j, p), w) && HoldsFrom(Next(t, Deliver(j, p), w, d).nodes[j], sender, d)
  {
    var sender, t := s.nodes[id], Next(s, Send(id), w, d);
    var p := PayloadOf(sender, d, false);
    ReceivedIsSent(s.nodes[j], sender, d, false);
    assert Enabled(t, Deliver(j, p), w);
  }

  predicate HoldsFrom(m: NodeState, sender: NodeState, d: Loader) {
    m.rev == sender.rev && m.shared == d.load(sender.shared) && m.fp == Some(m.shared)
  }

  // ---- nothing moves back -------------------------------------------------------

  /** A node that has saved has a revision, and what is sent names one. */
  ghost predicate Numbered(s: System) {
    && (forall j | j in s.nodes :: Objects(s.nodes[j].shared) && (Fresh(s.nodes[j]) || Settled(s.nodes[j])))
    && forall p | p in s.wire :: p.rev >= 1 && !p.force && Whole(p)
  }

  /** What a step may do to a node. */
  predicate Forward(n: NodeState, m: NodeState) {
    n.rev <= m.rev && Objects(m.shared) && (m == n || Settled(m))
  }

  lemma SavesForward(n: NodeState, x: View)
    requires Objects(x) && (Fresh(n) || Settled(n))
    ensures Forward(n, Saved(n, x))
  {
  }

  lemma ReceivesForward(n: NodeState, p: Payload, d: Loader)
    requires Lawful(d) && Objects(n.shared) && p.rev >= 1 && !p.force && Whole(p)
    ensures Forward(n, Received(n, p, d))
  {
    LoadAgain(n.shared, d);
    assert AdoptsObjects(d, d.load(n.shared), p);
  }

  lemma StepForward(s: System, e: Event, w: Id, d: Loader)
    requires Lawful(d) && Numbered(s) && Enabled(s, e, w)
    ensures var t := Next(s, e, w, d);
      Numbered(t) && t.nodes.Keys == s.nodes.Keys && forall j | j in s.nodes :: Forward(s.nodes[j], t.nodes[j])
  {
    match e
    case Edit(x) =>
      SavesForward(s.nodes[w], x);
    case Touch(id) =>
      LoadAgain(s.nodes[id].shared, d);
      SavesForward(s.nodes[id], d.load(s.nodes[id].shared));
    case Send(id) =>
      LoadAgain(s.nodes[id].shared, d);
    case Deliver(id, p) =>
      ReceivesForward(s.nodes[id], p, d);
  }

  lemma {:induction false} RunNumbered(states: seq<System>, events: seq<Event>, w: Id, d: Loader, k: nat)
    requires Lawful(d) && Run(states, events, w, d) && k < |states|
    ensures Numbered(states[k]) && w in states[k].nodes
  {
    if k > 0 {
      RunNumbered(states, events, w, d, k - 1);
      assert states[k] == Next(states[k - 1], events[k - 1], w, d);
      StepForward(states[k - 1], events[k - 1], w, d);
    }
  }

  /** No node's revision ever decreases, and a node that has saved stays so. */
  lemma {:induction false} NeverBack(states: seq<System>, events: seq<Event>, w: Id, d: Loader, k: nat, l: nat, j: Id)
    requires Lawful(d) && Run(states, events, w, d) && k <= l < |states| && j in states[k].nodes
    ensures j in states[l].nodes && states[k].nodes[j].rev <= states[l].nodes[j].rev
    ensures Fresh(states[l].nodes[j]) ==> states[l].nodes[j] == states[k].nodes[j]
    decreases l
  {
    if k < l {
      NeverBack(states, events, w, d, k, l - 1, j);
      RunNumbered(states, events, w, d, l - 1);
      assert states[l] == Next(states[l - 1], events[l - 1], w, d);
      StepForward(states[l - 1], events[l - 1], w, d);
    }
  }

  // ---- first saves --------------------------------------------------------------

  /** At moment k node j has just saved for the first time, or stood at the first
      revision from the start. */
  ghost predicate Born(states: seq<System>, events: seq<Event>, k: nat, j: Id)
    requires |states| == |events| + 1
  {
    && k < |states| && j in states[k].nodes && states[k].nodes[j].rev == 1
    && (k == 0 || (j in states[k - 1].nodes && Fresh(states[k - 1].nodes[j]) && !events[k - 1].Deliver?))
  }

  /** Every first save has this content. */
  ghost predicate FirstSavesAre(states: seq<System>, events: seq<Event>, d: Loader, f: View)
    requires |states| == |events| + 1
  {
    && Objects(f) && d.load(f) == f
    && forall k: nat, j | Born(states, events, k, j) :: d.load(states[k].nodes[j].shared) == f
  }

  ghost predicate BornApart(states: seq<System>, events: seq<Event>, d: Loader, k: nat, j: Id, l: nat, i: Id)
    requires |states| == |events| + 1
  {
    && Born(states, events, k, j) && Born(states, events, l, i)
    && d.load(states[k].nodes[j].shared) != d.load(states[l].nodes[i].shared)
  }

  /** All first saves have one content. */
  ghost predicate FirstSavesAgree(states: seq<System>, events: seq<Event>, d: Loader)
    requires |states| == |events| + 1
  {
    forall k: nat, j, l: nat, i :: !BornApart(states, events, d, k, j, l, i)
  }

  /** The content all first saves share; any loaded content when there are none. */
  lemma SharedFirst(states: seq<System>, events: seq<Event>, w: Id, d: Loader) returns (f: View)
    requires Lawful(d) && Run(states, events, w, d) && FirstSavesAgree(states, events, d)
    ensures FirstSavesAre(states, events, d, f)
  {
    if k: nat, j :| Born(states, events, k, j) {
      RunNumbered(states, events, w, d, k);
      f := d.load(states[k].nodes[j].shared);
      forall l: nat, i | Born(states, events, l, i)
        ensures d.load(states[l].nodes[i].shared) == f
      {
        assert !BornApart(states, events, d, l, i, k, j);
      }
      LoadAgain(states[k].nodes[j].shared, d);
      LoadAgain(states[k].nodes[j].shared, d);
    } else {
      f := d.load(states[0].nodes[w].shared);
      LoadAgain(states[0].nodes[w].shared, d);
      LoadAgain(states[0].nodes[w].shared, d);
    }
  }

  // ---- what the writer has held -------------------------------------------------

  type Log = map<nat, View>

  /** The writer's content, as it loads, at each revision it has been at. */
  function Logged(log: Log, n: NodeState, d: Loader): Log {
    log[n.rev := d.load(n.shared)]
  }

  ghost predicate Extends(a: Log, b: Log) {
    forall r :: r in a ==> r in b && b[r] == a[r]
  }

  ghost predicate Held(n: NodeState, log: Log) {
    Settled(n) && n.rev in log && n.shared == log[n.rev]
  }

  ghost predicate Carries(p: Payload, log: Log) {
    p.rev >= 1 && !p.force && p.rev in log && p == Sent(log[p.rev], p.rev, p.fp, false)
  }

  ghost predicate LogOk(log: Log, d: Loader) {
    1 in log && forall r :: r in log ==> Objects(log[r]) && d.load(log[r]) == log[r]
  }

  /** The log knows the first revision and none above the writer's. */
  ghost predicate WriterOk(n: NodeState, log: Log, d: Loader) {
    && (Fresh(n) || Settled(n)) && Objects(n.shared)
    && n.rev in log && log[n.rev] == d.load(n.shared)
    && forall r :: r in log ==> r <= n.rev || r == 1
  }

  ghost predicate Inv(s: System, log: Log, w: Id, d: Loader) {
    && w in s.nodes && WriterOk(s.nodes[w], log, d) && LogOk(log, d)
    && (forall j :: j in s.nodes && j != w ==> Fresh(s.nodes[j]) || Held(s.nodes[j], log))
    && forall p :: p in s.wire ==> Carries(p, log)
  }

  lemma StartInv(s: System, w: Id, d: Loader, f: View)
    requires Lawful(d) && Start(s, w, d) && Objects(f) && d.load(f) == f
    requires s.nodes[w].rev == 1 ==> d.load(s.nodes[w].shared) == f
    ensures Inv(s, Logged(map[1 := f], s.nodes[w], d), w, d)
  {
    LoadAgain(s.nodes[w].shared, d);
    LoadAgain(s.nodes[w].shared, d);
  }

  /** A save at the writer keeps its revision with the same content, moves to a
      revision nobody has seen, or is a first save like every other. */
  lemma WriterSaves(n: NodeState, x: View, log: Log, d: Loader)
    requires Lawful(d) && WriterOk(n, log, d) && LogOk(log, d) && Objects(x)
    requires Fresh(n) ==> d.load(x) == log[1]
    ensures var m := Saved(n, x);
      WriterOk(m, Logged(log, m, d), d) && LogOk(Logged(log, m, d), d) && Extends(log, Logged(log, m, d))
  {
    LoadAgain(x, d);
    LoadAgain(x, d);
  }

  lemma HeldExtends(n: NodeState, a: Log, b: Log)
    requires Held(n, a) && Extends(a, b)
    ensures Held(n, b)
  {
  }

  lemma CarriesExtends(p: Payload, a: Log, b: Log)
    requires Carries(p, a) && Extends(a, b)
    ensures Carries(p, b)
  {
  }

  /** What a node takes from the wire is in the log. */
  lemma Takes(n: NodeState, p: Payload, log: Log, d: Loader)
    requires Lawful(d) && Carries(p, log) && LogOk(log, d) && !Refuses(n, p)
    ensures var m := Received(n, p, d); Held(m, log) && m.rev == p.rev
  {
    AdoptAll(d.load(n.shared), log[p.rev], p.rev, p.fp, false, d);
  }

  /** Offering the writer its own past, or a first save, adds nothing to the log. */
  lemma WriterReceives(n: NodeState, p: Payload, log: Log, d: Loader)
    requires Lawful(d) && WriterOk(n, log, d) && LogOk(log, d) && Carries(p, log)
    ensures var m := Received(n, p, d); WriterOk(m, log, d) && Logged(log, m, d) == log
  {
    if !Refuses(n, p) {
      Takes(n, p, log, d);
    }
  }

  lemma InvExtends(s: System, t: System, log: Log, longer: Log, w: Id, d: Loader)
    requires Lawful(d) && Inv(s, log, w, d) && Extends(log, longer) && w in t.nodes
    requires WriterOk(t.nodes[w], longer, d) && LogOk(longer, d)
    requires t.nodes.Keys == s.nodes.Keys && t.wire == s.wire
    requires forall j :: j in s.nodes && j != w ==>
      t.nodes[j] == s.nodes[j] || Fresh(t.nodes[j]) || Held(t.nodes[j], longer)
    ensures Inv(t, longer, w, d)
  {
    forall j | j in t.nodes && j != w
      ensures Fresh(t.nodes[j]) || Held(t.nodes[j], longer)
    {
      if t.nodes[j] == s.nodes[j] && !Fresh(s.nodes[j]) {
        HeldExtends(s.nodes[j], log, longer);
      }
    }
    forall p | p in t.wire
      ensures Carries(p, longer)
    {
      CarriesExtends(p, log, longer);
    }
  }

  /** A first save in this step has the content the log gives the first revision. */
  ghost predicate FirstAsLogged(s: System, e: Event, log: Log, w: Id, d: Loader)
    requires Enabled(s, e, w) && 1 in log
  {
    match e
    case Edit(x) => Fresh(s.nodes[w]) ==> d.load(x) == log[1]
    case Touch(id) => Fresh(s.nodes[id]) ==> d.load(s.nodes[id].shared) == log[1]
    case _ => true
  }

  lemma TouchHeld(n: NodeState, log: Log, d: Loader)
    requires Lawful(d) && LogOk(log, d) && (Held(n, log) || (Fresh(n) && d.load(n.shared) == log[1]))
    ensures Held(Touched(n, d.load), log)
  {
  }

  /** Every event keeps the invariant and extends the log. */
  lemma StepInv(s: System, e: Event, log: Log, w: Id, d: Loader)
    requires Lawful(d) && Inv(s, log, w, d) && Enabled(s, e, w) && FirstAsLogged(s, e, log, w, d)
    ensures var t := Next(s, e, w, d);
      && w in t.nodes
      && var longer := Logged(log, t.nodes[w], d);
        Inv(t, longer, w, d) && Extends(log, longer)
  {
    var t := Next(s, e, w, d);
    match e
    case Edit(x) =>
      WriterSaves(s.nodes[w], x, log, d);
      InvExtends(s, t, log, Logged(log, t.nodes[w], d), w, d);
    case Touch(id) =>
      TouchInv(s, id, log, w, d);
    case Send(id) =>
      SendCarries(s, id, log, w, d);
      assert Logged(log, t.nodes[w], d) == log;
    case Deliver(id, p) =>
      DeliverInv(s, id, p, log, w, d);
  }

  lemma TouchInv(s: System, id: Id, log: Log, w: Id, d: Loader)
    requires Lawful(d) && Inv(s, log, w, d) && id in s.nodes
    requires Fresh(s.nodes[id]) ==> d.load(s.nodes[id].shared) == log[1]
    ensures var t := Next(s, Touch(id), w, d);
      var longer := Logged(log, t.nodes[w], d);
      Inv(t, longer, w, d) && Extends(log, longer)
  {
    var t := Next(s, Touch(id), w, d);
    if id == w {
      var n := s.nodes[w];
      LoadAgain(n.shared, d);
      LoadAgain(n.shared, d);
      WriterSaves(n, d.load(n.shared), log, d);
    } else {
      TouchHeld(s.nodes[id], log, d);
      assert Logged(log, t.nodes[w], d) == log;
    }
    InvExtends(s, t, log, Logged(log, t.nodes[w], d), w, d);
  }

  lemma SendCarries(s: System, id: Id, log: Log, w: Id, d: Loader)
    requires Lawful(d) && Inv(s, log, w, d) && id in s.nodes && s.nodes[id].rev >= 1
    ensures Carries(PayloadOf(s.nodes[id], d, false), log)
  {
  }

  lemma DeliverInv(s: System, id: Id, p: Payload, log: Log, w: Id, d: Loader)
    requires Lawful(d) && Inv(s, log, w, d) && id in s.nodes && p in s.wire
    ensures var t := Next(s, Deliver(id, p), w, d);
      Logged(log, t.nodes[w], d) == log && Inv(t, log, w, d)
  {
    var t := Next(s, Deliver(id, p), w, d);
    if id == w {
      WriterReceives(s.nodes[w], p, log, d);
    } else if !Refuses(s.nodes[id], p) {
      Takes(s.nodes[id], p, log, d);
    }
    assert Logged(log, s.nodes[w], d) == log;
    InvExtends(s, t, log, log, w, d);
  }

  // ---- whole runs ---------------------------------------------------------------

  ghost predicate HasWriter(states: seq<System>, w: Id) {
    forall i :: 0 <= i < |states| ==> w in states[i].nodes
  }

  ghost function LogAt(states: seq<System>, w: Id, d: Loader, f: View, k: nat): (log: Log)
    requires k < |states| && HasWriter(states, w)
    ensures 1 in log
  {
    Logged(if k == 0 then map[1 := f] else LogAt(states, w, d, f, k - 1), states[k].nodes[w], d)
  }

  lemma RunHasWriter(states: seq<System>, events: seq<Event>, w: Id, d: Loader)
    requires Lawful(d) && Run(states, events, w, d)
    ensures HasWriter(states, w)
  {
    forall i | 0 <= i < |states|
      ensures w in states[i].nodes
    {
      RunNumbered(states, events, w, d, i);
    }
  }

  /** The log's first revision is that of the first saves. */
  lemma StepFirst(states: seq<System>, events: seq<Event>, w: Id, d: Loader, f: View, k: nat, log: Log)
    requires Lawful(d) && Run(states, events, w, d) && FirstSavesAre(states, events, d, f) && k < |events|
    requires 1 in log && log[1] == f
    ensures FirstAsLogged(states[k], events[k], log, w, d)
  {
    var s, t := states[k], states[k + 1];
    assert t == Next(s, events[k], w, d);
    match events[k]
    case Edit(x) =>
      if Fresh(s.nodes[w]) {
        assert Born(states, events, k + 1, w);
      }
    case Touch(id) =>
      if Fresh(s.nodes[id]) {
        assert Born(states, events, k + 1, id);
        LoadAgain(s.nodes[id].shared, d);
      }
    case _ =>
  }

  lemma {:induction false} RunInv(states: seq<System>, events: seq<Event>, w: Id, d: Loader, f: View, k: nat)
    requires Lawful(d) && Run(states, events, w, d) && FirstSavesAre(states, events, d, f)
    requires k < |states| && HasWriter(states, w)
    ensures var log := LogAt(states, w, d, f, k); Inv(states[k], log, w, d) && log[1] == f
  {
    if k == 0 {
      if states[0].nodes[w].rev == 1 {
        assert Born(states, events, 0, w);
      }
      StartInv(states[0], w, d, f);
    } else {
      RunInv(states, events, w, d, f, k - 1);
      StepFirst(states, events, w, d, f, k - 1, LogAt(states, w, d, f, k - 1));
      assert states[k] == Next(states[k - 1], events[k - 1], w, d);
      StepInv(states[k - 1], events[k - 1], LogAt(states, w, d, f, k - 1), w, d);
    }
  }

  lemma LogStep(states: seq<System>, events: seq<Event>, w: Id, d: Loader, f: View, k: nat)
    requires Lawful(d) && Run(states, events, w, d) && FirstSavesAre(states, events, d, f)
    requires k + 1 < |states| && HasWriter(states, w)
    ensures Extends(LogAt(states, w, d, f, k), LogAt(states, w, d, f, k + 1))
  {
    RunInv(states, events, w, d, f, k);
    StepFirst(states, events, w, d, f, k, LogAt(states, w, d, f, k));
    assert states[k + 1] == Next(states[k], events[k], w, d);
    StepInv(states[k], events[k], LogAt(states, w, d, f, k), w, d);
  }

  lemma ExtendsTrans(a: Log, b: Log, c: Log)
    requires Extends(a, b) && Extends(b, c)
    ensures Extends(a, c)
  {
  }

  lemma {:induction false} ChainGrows(logs: seq<Log>, i: nat, k: nat)
    requires i <= k < |logs| && forall m :: 0 <= m < |logs| - 1 ==> Extends(logs[m], logs[m + 1])
    ensures Extends(logs[i], logs[k])
    decreases k
  {
    if i < k {
      ChainGrows(logs, i, k - 1);
      ExtendsTrans(logs[i], logs[k - 1], logs[k]);
    }
  }

  lemma LogGrows(states: seq<System>, events: seq<Event>, w: Id, d: Loader, f: View, i: nat, k: nat)
    requires Lawful(d) && Run(states, events, w, d) && FirstSavesAre(states, events, d, f)
    requires i <= k < |states| && HasWriter(states, w)
    ensures Extends(LogAt(states, w, d, f, i), LogAt(states, w, d, f, k))
  {
    var logs := seq(|states|, m requires 0 <= m < |states| => LogAt(states, w, d, f, m));
    forall m | 0 <= m < |states| - 1
      ensures Extends(logs[m], logs[m + 1])
    {
      LogStep(states, events, w, d, f, m);
    }
    ChainGrows(logs, i, k);
  }

  /** The writer stood at revision r with content x at some moment up to k. */
  ghost predicate WriterHeld(states: seq<System>, w: Id, d: Loader, k: nat, r: nat, x: View)
    requires k < |states| && HasWriter(states, w)
  {
    exists i: nat :: i <= k && states[i].nodes[w].rev == r && d.load(states[i].nodes[w].shared) == x
  }

  lemma {:induction false} LogIsHistory(states: seq<System>, w: Id, d: Loader, f: View, k: nat, r: nat)
    requires k < |states| && HasWriter(states, w) && r in LogAt(states, w, d, f, k)
    ensures var x := LogAt(states, w, d, f, k)[r];
      WriterHeld(states, w, d, k, r, x) || (r == 1 && x == f)
  {
    if states[k].nodes[w].rev != r && k > 0 {
      LogIsHistory(states, w, d, f, k - 1, r);
    }
  }

  /** Single writer: whatever the network does, at every moment of every run each
      node has never adopted anything, holds exactly what the writer held at that
      node's revision, or stands at the first revision with the one content that
      every first save had. */
  lemma SingleWriter(states: seq<System>, events: seq<Event>, w: Id, d: Loader, f: View, k: nat, j: Id)
    requires Lawful(d) && Run(states, events, w, d) && FirstSavesAre(states, events, d, f)
    requires k < |states| && j in states[k].nodes
    ensures HasWriter(states, w)
    ensures var n := states[k].nodes[j];
      var x := d.load(n.shared);
      Fresh(n) || WriterHeld(states, w, d, k, n.rev, x) || (n.rev == 1 && x == f)
  {
    RunHasWriter(states, events, w, d);
    RunInv(states, events, w, d, f, k);
    var n := states[k].nodes[j];
    if j != w && !Fresh(n) {
      LogIsHistory(states, w, d, f, k, n.rev);
    }
  }

  /** Two nodes, at two moments, that have saved and stand at one revision. */
  ghost predicate SameRevision(states: seq<System>, k: nat, j: Id, l: nat, i: Id) {
    && k < |states| && l < |states| && j in states[k].nodes && i in states[l].nodes
    && !Fresh(states[k].nodes[j]) && !Fresh(states[l].nodes[i])
    && states[k].nodes[j].rev == states[l].nodes[i].rev
  }

  lemma EqualLogged(states: seq<System>, events: seq<Event>, w: Id, d: Loader, f: View, k: nat, j: Id, l: nat,
          i: Id)
    requires Lawful(d) && Run(states, events, w, d) && FirstSavesAre(states, events, d, f)
    requires SameRevision(states, k, j, l, i) && k <= l
    ensures d.load(states[k].nodes[j].shared) == d.load(states[l].nodes[i].shared)
  {
    RunHasWriter(states, events, w, d);
    RunInv(states, events, w, d, f, k);
    RunInv(states, events, w, d, f, l);
    LogGrows(states, events, w, d, f, k, l);
  }

  /** Equal revisions mean equal content, across nodes and across time, exactly
      when all nodes that ever saved before adopting anything saved one content. */
  lemma EqualRevisions(states: seq<System>, events: seq<Event>, w: Id, d: Loader)
    requires Lawful(d) && Run(states, events, w, d)
    ensures FirstSavesAgree(states, events, d)
       <==> forall k: nat, j, l: nat, i | SameRevision(states, k, j, l, i) ::
              d.load(states[k].nodes[j].shared) == d.load(states[l].nodes[i].shared)
  {
    if FirstSavesAgree(states, events, d) {
      var f := SharedFirst(states, events, w, d);
      forall k: nat, j, l: nat, i | SameRevision(states, k, j, l, i)
        ensures d.load(states[k].nodes[j].shared) == d.load(states[l].nodes[i].shared)
      {
        if k <= l {
          EqualLogged(states, events, w, d, f, k, j, l, i);
        } else {
          EqualLogged(states, events, w, d, f, l, i, k, j);
        }
      }
    } else {
      var k: nat, j, l: nat, i :| BornApart(states, events, d, k, j, l, i);
      assert SameRevision(states, k, j, l, i);
    }
  }

  /** A new node that saves only after adopting something is born at no moment
      after the start. */
  ghost predicate AdoptFirst(states: seq<System>, events: seq<Event>, w: Id)
    requires |states| == |events| + 1
  {
    forall k | 0 <= k < |events| && events[k].Touch? && events[k].id != w && events[k].id in states[k].nodes ::
      !Fresh(states[k].nodes[events[k].id])
  }

  lemma OnlyWriterBorn(states: seq<System>, events: seq<Event>, w: Id, d: Loader, k: nat, j: Id)
    requires Lawful(d) && Run(states, events, w, d) && AdoptFirst(states, events, w) && Born(states, events, k, j)
    ensures k == 0 || j == w
  {
    if k > 0 {
      assert states[k] == Next(states[k - 1], events[k - 1], w, d);
    }
  }

  lemma WriterBornOnce(states: seq<System>, events: seq<Event>, w: Id, d: Loader, k: nat, l: nat)
    requires Lawful(d) && Run(states, events, w, d) && Born(states, events, k, w) && Born(states, events, l, w)
    ensures k == l
  {
    if k < l {
      NeverBack(states, events, w, d, k, l - 1, w);
    } else if l < k {
      NeverBack(states, events, w, d, l, k - 1, w);
    }
  }

  /** When every node but the writer adopts before it first saves, first saves agree. */
  lemma AdoptingFirstAgrees(states: seq<System>, events: seq<Event>, w: Id, d: Loader)
    requires Lawful(d) && Run(states, events, w, d) && AdoptFirst(states, events, w)
    ensures FirstSavesAgree(states, events, d)
  {
    forall k: nat, j, l: nat, i | Born(states, events, k, j) && Born(states, events, l, i)
      ensures !BornApart(states, events, d, k, j, l, i)
    {
      BornAsWriter(states, events, w, d, k, j);
      BornAsWriter(states, events, w, d, l, i);
      var a: nat :| BornLike(states, events, w, d, k, j, a);
      var b: nat :| BornLike(states, events, w, d, l, i, b);
      WriterBornOnce(states, events, w, d, a, b);
    }
  }

  ghost predicate BornLike(states: seq<System>, events: seq<Event>, w: Id, d: Loader, k: nat, j: Id, a: nat)
    requires |states| == |events| + 1
  {
    && Born(states, events, k, j) && Born(states, events, a, w)
    && d.load(states[k].nodes[j].shared) == d.load(states[a].nodes[w].shared)
  }

  lemma BornAsWriter(states: seq<System>, events: seq<Event>, w: Id, d: Loader, k: nat, j: Id)
    requires Lawful(d) && Run(states, events, w, d) && AdoptFirst(states, events, w) && Born(states, events, k, j)
    ensures exists a: nat :: BornLike(states, events, w, d, k, j, a)
  {
    OnlyWriterBorn(states, events, w, d, k, j);
    if j == w {
      assert BornLike(states, events, w, d, k, j, k);
    } else {
      LoadAgain(states[0].nodes[w].shared, d);
      assert Born(states, events, 0, w);
      assert BornLike(states, events, w, d, k, j, 0);
    }
  }

  /** A new node that saves on its own before it hears the writer: both stand at the
      first revision, each with its own content. */
  lemma FreshSaveDiverges(w: Id, j: Id, n: NodeState, m: NodeState, x: View, d: Loader)
    requires Lawful(d) && w != j && Fresh(n) && Fresh(m) && Objects(n.shared) && Objects(m.shared) && Objects(x)
    ensures var start := System(map[w := n, j := m], {});
      var edited := Next(start, Edit(x), w, d);
      var end := Next(edited, Touch(j), w, d);
      && Run([start, edited, end], [Edit(x), Touch(j)], w, d)
      && end.nodes[w].rev == end.nodes[j].rev == 1
      && d.load(end.nodes[w].shared) == d.load(x) && d.load(end.nodes[j].shared) == d.load(m.shared)
  {
    LoadAgain(m.shared, d);
  }

  // ---- overwriting a diverged cluster ---------------------------------------------

  /** The payload arrives at each of these nodes. */
  function PushedTo(nodes: map<Id, NodeState>, targets: set<Id>, p: Payload, d: Loader): map<Id, NodeState> {
    map j | j in nodes :: if j in targets then Received(nodes[j], p, d) else nodes[j]
  }

  /** From any divergent state: when every node has reported and none moves
      meanwhile, overtaking and pushing leaves all nodes on the overwriter's
      content, at one revision above all earlier ones. */
  lemma OverwriteSettles(nodes: map<Id, NodeState>, o: Id, d: Loader, reports: seq<Option<nat>>, force: bool)
    requires Lawful(d) && o in nodes && Objects(nodes[o].shared)
    requires forall j | j in nodes && j != o :: Some(nodes[j].rev) in reports
    ensures var h := Highest(nodes[o].rev, reports);
      var lifted := nodes[o := Newest(nodes[o], d, h)];
      var after := PushedTo(lifted, nodes.Keys - {o}, PayloadOf(lifted[o], d, force), d);
      && after.Keys == nodes.Keys
      && forall j :: j in nodes ==>
        && nodes[j].rev < after[j].rev == h + 1
        && after[j].shared == d.load(nodes[o].shared)
        && after[j].fp == Some(after[j].shared)
  {
    var h := Highest(nodes[o].rev, reports);
    HighestBounds(nodes[o].rev, reports);
    LoadAgain(nodes[o].shared, d);
    LoadAgain(nodes[o].shared, d);
    var lifted := nodes[o := Newest(nodes[o], d, h)];
    var p := PayloadOf(lifted[o], d, force);
    forall j | j in nodes && j != o
      ensures nodes[j].rev <= h && !Refuses(nodes[j], p)
    {
      var i :| 0 <= i < |reports| && reports[i] == Some(nodes[j].rev);
    }
    forall j | j in nodes && j != o
      ensures Received(nodes[j], p, d).shared == lifted[o].shared && Received(nodes[j], p, d).rev == h + 1
    {
      ReceivedIsSent(nodes[j], lifted[o], d, force);
    }
  }

  /** A forced push is taken whatever stands there, so the last overwriter whose push
      reaches everyone settles the cluster, whatever it had heard. */
  lemma ForcedOverwriteSettles(nodes: map<Id, NodeState>, o: Id, d: Loader, h: nat)
    requires Lawful(d) && o in nodes && Objects(nodes[o].shared)
    ensures var x := Newest(nodes[o], d, h);
      AllAt(PushedTo(nodes[o := x], nodes.Keys - {o}, PayloadOf(x, d, true), d), h + 1, d.load(nodes[o].shared))
  {
    LoadAgain(nodes[o].shared, d);
    forall j | j in nodes
      ensures At(Received(nodes[j], PayloadOf(Newest(nodes[o], d, h), d, true), d), h + 1, d.load(nodes[o].shared))
    {
      TakesNewest(nodes[j], nodes[o], d, h, true);
    }
  }

  // ---- two overwriters ---------------------------------------------------------------

  /** Content and revision of a node. */
  predicate At(n: NodeState, rev: nat, x: View) {
    n.rev == rev && n.shared == x
  }

  ghost predicate AllAt(nodes: map<Id, NodeState>, rev: nat, x: View) {
    forall j | j in nodes :: At(nodes[j], rev, x)
  }

  /** All nodes hold one content at one revision. */
  ghost predicate OneContent(nodes: map<Id, NodeState>) {
    exists rev, x :: AllAt(nodes, rev, x)
  }

  /** What overwriting sends: the content at one above what was heard. The program
      forces it. */
  function Overwrite(n: NodeState, d: Loader, h: nat, force: bool): Payload {
    PayloadOf(Newest(n, d, h), d, force)
  }

  lemma TakesNewest(n: NodeState, sender: NodeState, d: Loader, h: nat, force: bool)
    requires Lawful(d) && Objects(sender.shared)
    ensures var m := Received(n, Overwrite(sender, d, h, force), d);
      if force || n.rev <= h + 1 then At(m, h + 1, d.load(sender.shared)) && m.fp.Some? else m == n
  {
    LoadAgain(sender.shared, d);
    LoadAgain(d.load(sender.shared), d);
    if force || n.rev <= h + 1 {
      ReceivedIsSent(n, Newest(sender, d, h), d, force);
    }
  }

  /** Two nodes overtake the cluster, a having heard at most ha and b at most hb, and
      both commit before the other's push reaches them. The pushes reach the other
      nodes in any order: at those in aLast a's comes after b's. */
  function OverwrittenTwice(nodes: map<Id, NodeState>, a: Id, b: Id, d: Loader, ha: nat, hb: nat, force: bool,
          aLast: set<Id>): map<Id, NodeState>
    requires a in nodes && b in nodes
  {
    var p, q := Overwrite(nodes[a], d, ha, force), Overwrite(nodes[b], d, hb, force);
    map j | j in nodes ::
      if j == a then Received(Newest(nodes[a], d, ha), q, d)
      else if j == b then Received(Newest(nodes[b], d, hb), p, d)
      else if j in aLast then Received(Received(nodes[j], q, d), p, d)
      else Received(Received(nodes[j], p, d), q, d)
  }

  /** Forced, each overwriter ends on the other's content and revision, and every other
      node on those of the push that came last. */
  lemma CrossedOverwritesSwap(nodes: map<Id, NodeState>, a: Id, b: Id, d: Loader, ha: nat, hb: nat, aLast: set<Id>,
          j: Id)
    requires Lawful(d) && a in nodes && b in nodes && a != b && j in nodes
    requires Objects(nodes[a].shared) && Objects(nodes[b].shared)
    ensures var n := OverwrittenTwice(nodes, a, b, d, ha, hb, true, aLast)[j];
      && n.fp.Some?
      && if j == b || (j != a && j in aLast) then At(n, ha + 1, d.load(nodes[a].shared))
         else At(n, hb + 1, d.load(nodes[b].shared))
  {
    var p, q := Overwrite(nodes[a], d, ha, true), Overwrite(nodes[b], d, hb, true);
    if j == a {
      TakesNewest(Newest(nodes[a], d, ha), nodes[b], d, hb, true);
    } else if j == b {
      TakesNewest(Newest(nodes[b], d, hb), nodes[a], d, ha, true);
    } else if j in aLast {
      TakesNewest(Received(nodes[j], q, d), nodes[a], d, ha, true);
    } else {
      TakesNewest(Received(nodes[j], p, d), nodes[b], d, hb, true);
    }
  }

  lemma Settling(nodes: map<Id, NodeState>, a: Id, b: Id, ra: nat, rb: nat, x: View, y: View)
    requires a in nodes && b in nodes && At(nodes[a], rb, y) && At(nodes[b], ra, x)
    requires forall j | j in nodes :: At(nodes[j], ra, x) || At(nodes[j], rb, y)
    ensures OneContent(nodes) <==> ra == rb && x == y
  {
    if ra == rb && x == y {
      assert AllAt(nodes, ra, x);
    }
  }

  /** Two overwrites of which neither reached the other before it committed settle the
      cluster exactly when they chose one revision and one content, in whatever order
      the pushes arrive and whatever each had heard. */
  lemma TwoOverwritesSettle(nodes: map<Id, NodeState>, a: Id, b: Id, d: Loader, ha: nat, hb: nat, aLast: set<Id>)
    requires Lawful(d) && a in nodes && b in nodes && a != b
    requires Objects(nodes[a].shared) && Objects(nodes[b].shared)
    ensures OneContent(OverwrittenTwice(nodes, a, b, d, ha, hb, true, aLast))
       <==> ha == hb && d.load(nodes[a].shared) == d.load(nodes[b].shared)
  {
    var after := OverwrittenTwice(nodes, a, b, d, ha, hb, true, aLast);
    var x, y := d.load(nodes[a].shared), d.load(nodes[b].shared);
    forall j | j in nodes
      ensures if j == b || (j != a && j in aLast) then At(after[j], ha + 1, x) else At(after[j], hb + 1, y)
    {
      CrossedOverwritesSwap(nodes, a, b, d, ha, hb, aLast, j);
    }
    Settling(after, a, b, ha + 1, hb + 1, x, y);
  }

  // ---- a push that comes before the other's commit ------------------------------------

  /** As before, but a's push reaches b before b commits. */
  function OverwrittenInTurn(nodes: map<Id, NodeState>, a: Id, b: Id, d: Loader, ha: nat, hb: nat, aLast: set<Id>)
    : map<Id, NodeState>
    requires a in nodes && b in nodes
  {
    var p := Overwrite(nodes[a], d, ha, true);
    var mid := Received(nodes[b], p, d);
    var q := Overwrite(mid, d, hb, true);
    map j | j in nodes ::
      if j == a then Received(Newest(nodes[a], d, ha), q, d)
      else if j == b then Newest(mid, d, hb)
      else if j in aLast then Received(Received(nodes[j], q, d), p, d)
      else Received(Received(nodes[j], p, d), q, d)
  }

  lemma InTurnAt(nodes: map<Id, NodeState>, a: Id, b: Id, d: Loader, ha: nat, hb: nat, aLast: set<Id>, j: Id)
    requires Lawful(d) && a in nodes && b in nodes && a != b && j in nodes && Objects(nodes[a].shared)
    ensures var n := OverwrittenInTurn(nodes, a, b, d, ha, hb, aLast)[j];
      At(n, (if j != a && j != b && j in aLast then ha else hb) + 1, d.load(nodes[a].shared))
  {
    var p := Overwrite(nodes[a], d, ha, true);
    var mid := Received(nodes[b], p, d);
    TakesNewest(nodes[b], nodes[a], d, ha, true);
    LoadAgain(nodes[a].shared, d);
    assert mid.shared == d.load(nodes[a].shared) == d.load(mid.shared);
    if j == a {
      TakesNewest(Newest(nodes[a], d, ha), mid, d, hb, true);
    } else if j != b {
      var q := Overwrite(mid, d, hb, true);
      TakesNewest(Received(nodes[j], q, d), nodes[a], d, ha, true);
      TakesNewest(Received(nodes[j], p, d), mid, d, hb, true);
    }
  }

  /** When a's push reaches b before b commits, all nodes end on a's content; and at one
      revision exactly when it overtakes b's push nowhere or they chose the same. */
  lemma InTurnSettles(nodes: map<Id, NodeState>, a: Id, b: Id, d: Loader, ha: nat, hb: nat, aLast: set<Id>)
    requires Lawful(d) && a in nodes && b in nodes && a != b && Objects(nodes[a].shared)
    ensures var after := OverwrittenInTurn(nodes, a, b, d, ha, hb, aLast);
      && (forall j | j in nodes :: after[j].shared == d.load(nodes[a].shared))
      && (OneContent(after) <==> ha == hb || aLast * (nodes.Keys - {a, b}) == {})
  {
    var after := OverwrittenInTurn(nodes, a, b, d, ha, hb, aLast);
    var x := d.load(nodes[a].shared);
    forall j | j in nodes
      ensures At(after[j], (if j != a && j != b && j in aLast then ha else hb) + 1, x)
    {
      InTurnAt(nodes, a, b, d, ha, hb, aLast, j);
    }
    if ha == hb || aLast * (nodes.Keys - {a, b}) == {} {
      forall j | j in nodes
        ensures At(after[j], hb + 1, x)
      {
        assert j in aLast && j != a && j != b ==> j in aLast * (nodes.Keys - {a, b});
      }
      assert AllAt(after, hb + 1, x);
    } else {
      var j :| j in aLast * (nodes.Keys - {a, b});
      assert after[j].rev != after[a].rev;
    }
  }

  /** An overwriter that asked after the other had committed is strictly above it. */
  lemma SecondHears(n: NodeState, m: NodeState, d: Loader, ha: nat, seen: nat, reports: seq<Option<nat>>)
    requires Some(Newest(n, d, ha).rev) in reports
    ensures Newest(m, d, Highest(seen, reports)).rev > Newest(n, d, ha).rev
  {
    HighestBounds(seen, reports);
    var i :| 0 <= i < |reports| && reports[i] == Some(Newest(n, d, ha).rev);
  }

  // ---- overwriting without force -----------------------------------------------------

  /** Were the pushes not forced, the higher revision would win everywhere, and two
      overwrites would settle exactly when the revisions differ or the contents do not. */
  lemma UnforcedOverwritesSettle(nodes: map<Id, NodeState>, a: Id, b: Id, d: Loader, ha: nat, hb: nat, aLast: set<Id>)
    requires Lawful(d) && a in nodes && b in nodes && a != b
    requires Objects(nodes[a].shared) && Objects(nodes[b].shared)
    requires forall j | j in nodes :: nodes[j].rev <= ha && nodes[j].rev <= hb
    ensures OneContent(OverwrittenTwice(nodes, a, b, d, ha, hb, false, aLast))
       <==> ha != hb || d.load(nodes[a].shared) == d.load(nodes[b].shared)
  {
    var after := OverwrittenTwice(nodes, a, b, d, ha, hb, false, aLast);
    var x, y := d.load(nodes[a].shared), d.load(nodes[b].shared);
    forall j | j in nodes
      ensures if ha > hb || (ha == hb && (j == b || (j != a && j in aLast))) then At(after[j], ha + 1, x)
              else At(after[j], hb + 1, y)
    {
      UnforcedAt(nodes, a, b, d, ha, hb, aLast, j);
    }
    if ha > hb {
      assert AllAt(after, ha + 1, x);
    } else if ha < hb {
      assert AllAt(after, hb + 1, y);
    } else {
      Settling(after, a, b, ha + 1, hb + 1, x, y);
    }
  }

  lemma UnforcedAt(nodes: map<Id, NodeState>, a: Id, b: Id, d: Loader, ha: nat, hb: nat, aLast: set<Id>, j: Id)
    requires Lawful(d) && a in nodes && b in nodes && a != b && j in nodes
    requires Objects(nodes[a].shared) && Objects(nodes[b].shared) && nodes[j].rev <= ha && nodes[j].rev <= hb
    ensures var n := OverwrittenTwice(nodes, a, b, d, ha, hb, false, aLast)[j];
      if ha > hb || (ha == hb && (j == b || (j != a && j in aLast))) then At(n, ha + 1, d.load(nodes[a].shared))
      else At(n, hb + 1, d.load(nodes[b].shared))
  {
    var p, q := Overwrite(nodes[a], d, ha, false), Overwrite(nodes[b], d, hb, false);
    if j == a {
      TakesNewest(Newest(nodes[a], d, ha), nodes[b], d, hb, false);
    } else if j == b {
      TakesNewest(Newest(nodes[b], d, hb), nodes[a], d, ha, false);
    } else if j in aLast {
      TakesNewest(nodes[j], nodes[b], d, hb, false);
      TakesNewest(Received(nodes[j], q, d), nodes[a], d, ha, false);
    } else {
      TakesNewest(nodes[j], nodes[a], d, ha, false);
      TakesNewest(Received(nodes[j], p, d), nodes[b], d, hb, false);
    }
  }

  // ---- reconciling ----------------------------------------------------------------

  lemma {:induction false} BehindMember(nodes: seq<Health>, peers: set<string>, mine: nat, u: string)
    ensures u in BehindOf(nodes, peers, mine)
       <==> exists i :: 0 <= i < |nodes| && Behind(nodes[i], peers, mine) && nodes[i].url == u
  {
    if |nodes| > 0 {
      var front := nodes[..|nodes| - 1];
      BehindMember(front, peers, mine, u);
      if i :| 0 <= i < |nodes| && Behind(nodes[i], peers, mine) && nodes[i].url == u {
        if i < |front| {
          assert front[i] == nodes[i];
        }
      }
    }
  }

  /** The overview tells the truth about every node it lists. */
  predicate Accurate(overview: seq<Health>, nodes: map<Id, NodeState>, o: Id) {
    forall i :: 0 <= i < |overview| ==>
      var h := overview[i];
      && h.url in nodes && h.rev == nodes[h.url].rev && h.hasFp == nodes[h.url].fp.Some?
      && (h.url == o ==> h.self)
  }

  /** A later overview of the same nodes, with the same ones reachable. */
  predicate SameNodes(before: seq<Health>, after: seq<Health>) {
    forall i :: 0 <= i < |after| ==> Seen(before, after[i])
  }

  predicate Seen(before: seq<Health>, h: Health) {
    exists j :: 0 <= j < |before| && before[j].url == h.url && before[j].self == h.self
      && before[j].reachable == h.reachable
  }

  /** One round lifts every node found behind to this node's content and
      revision, changes no other, and the next round has nothing to push. */
  lemma ReconcileSettles(nodes: map<Id, NodeState>, o: Id, d: Loader, peers: set<string>, before: seq<Health>,
          after: seq<Health>)
    requires Lawful(d) && o in nodes && Settled(nodes[o])
    requires Accurate(before, nodes, o) && SameNodes(before, after)
    requires var targets := set u | u in BehindOf(before, peers, nodes[o].rev);
      Accurate(after, PushedTo(nodes, targets, PayloadOf(nodes[o], d, false), d), o)
    ensures var targets := set u | u in BehindOf(before, peers, nodes[o].rev);
      var lifted := PushedTo(nodes, targets, PayloadOf(nodes[o], d, false), d);
      && o !in targets
      && (forall j | j in targets ::
            j in nodes && nodes[j].rev < nodes[o].rev && Copies(lifted[j], nodes[o].rev, d.load(nodes[o].shared)))
      && (forall j :: j in nodes && j !in targets ==> lifted[j] == nodes[j])
      && BehindOf(after, peers, nodes[o].rev) == []
  {
    var mine := nodes[o].rev;
    var targets := set u | u in BehindOf(before, peers, mine);
    var p := PayloadOf(nodes[o], d, false);
    var lifted := PushedTo(nodes, targets, p, d);
    forall j | j in targets
      ensures j in nodes && j != o && nodes[j].rev < mine
        && Copies(Received(nodes[j], p, d), mine, d.load(nodes[o].shared))
    {
      BehindMember(before, peers, mine, j);
      ReceivedIsSent(nodes[j], nodes[o], d, false);
      LoadAgain(nodes[o].shared, d);
    }
    forall u
      ensures u !in BehindOf(after, peers, mine)
    {
      NobodyLeftBehind(nodes, lifted, o, peers, before, after, u);
    }
    EmptyOrMember(BehindOf(after, peers, mine));
  }

  lemma EmptyOrMember<T>(s: seq<T>)
    ensures s == [] || s[0] in s
  {
  }

  lemma NobodyLeftBehind(nodes: map<Id, NodeState>, lifted: map<Id, NodeState>, o: Id, peers: set<string>,
          before: seq<Health>, after: seq<Health>, u: string)
    requires o in nodes && lifted.Keys == nodes.Keys
    requires Accurate(before, nodes, o) && Accurate(after, lifted, o) && SameNodes(before, after)
    requires forall j :: j in nodes ==>
      if j in BehindOf(before, peers, nodes[o].rev) then lifted[j].rev == nodes[o].rev else lifted[j] == nodes[j]
    ensures u !in BehindOf(after, peers, nodes[o].rev)
  {
    var mine := nodes[o].rev;
    BehindMember(after, peers, mine, u);
    forall i | 0 <= i < |after|
      ensures !Behind(after[i], peers, mine)
    {
      var h := after[i];
      assert Seen(before, h);
      var j :| 0 <= j < |before| && before[j].url == h.url && before[j].self == h.self
        && before[j].reachable == h.reachable;
      BehindMember(before, peers, mine, h.url);
      if h.url !in BehindOf(before, peers, mine) {
        assert !Behind(before[j], peers, mine);
      }
    }
  }

  // ---- one round after two overwriters --------------------------------------------------

  /** The overview lists every other node, reachable and as a peer. */
  ghost predicate Complete(overview: seq<Health>, peers: set<string>, nodes: map<Id, NodeState>, o: Id) {
    forall j | j in nodes && j != o :: j in peers && Lists(overview, j)
  }

  ghost predicate Lists(overview: seq<Health>, j: Id) {
    exists i :: 0 <= i < |overview| && overview[i].url == j && !overview[i].self && overview[i].reachable
  }

  lemma BehindAre(nodes: map<Id, NodeState>, o: Id, peers: set<string>, overview: seq<Health>, j: Id)
    requires o in nodes && Accurate(overview, nodes, o) && Complete(overview, peers, nodes, o)
    requires j in nodes && nodes[j].fp.Some?
    ensures j in BehindOf(overview, peers, nodes[o].rev) <==> nodes[j].rev < nodes[o].rev
  {
    BehindMember(overview, peers, nodes[o].rev, j);
    if nodes[j].rev < nodes[o].rev {
      assert Lists(overview, j);
      var i :| 0 <= i < |overview| && overview[i].url == j && !overview[i].self && overview[i].reachable;
      assert Behind(overview[i], peers, nodes[o].rev);
    }
  }

  /** What one round from this node leaves. */
  function Reconciled(nodes: map<Id, NodeState>, o: Id, d: Loader, peers: set<string>, overview: seq<Health>)
    : map<Id, NodeState>
    requires o in nodes
  {
    var targets := set u | u in BehindOf(overview, peers, nodes[o].rev);
    PushedTo(nodes, targets, PayloadOf(nodes[o], d, false), d)
  }

  /** A round from a node at the highest revision, in a cluster that it sees whole,
      settles the cluster exactly when all nodes at that revision hold its content. */
  lemma RoundSettles(nodes: map<Id, NodeState>, o: Id, d: Loader, peers: set<string>, overview: seq<Health>)
    requires Lawful(d) && o in nodes && Objects(nodes[o].shared) && d.load(nodes[o].shared) == nodes[o].shared
    requires forall j | j in nodes :: nodes[j].fp.Some? && nodes[j].rev <= nodes[o].rev
    requires Accurate(overview, nodes, o) && Complete(overview, peers, nodes, o)
    ensures OneContent(Reconciled(nodes, o, d, peers, overview))
       <==> forall j | j in nodes && nodes[j].rev == nodes[o].rev :: nodes[j].shared == nodes[o].shared
  {
    var mine, x := nodes[o].rev, nodes[o].shared;
    var after := Reconciled(nodes, o, d, peers, overview);
    forall j | j in nodes
      ensures if nodes[j].rev < mine then At(after[j], mine, x) else after[j] == nodes[j]
    {
      BehindAre(nodes, o, peers, overview, j);
      if nodes[j].rev < mine {
        ReceivedIsSent(nodes[j], nodes[o], d, false);
      }
    }
    if forall j | j in nodes && nodes[j].rev == mine :: nodes[j].shared == x {
      assert AllAt(after, mine, x);
    } else {
      var j :| j in nodes && nodes[j].rev == mine && nodes[j].shared != x;
      assert after[j].shared != after[o].shared;
    }
  }

  /** After two overwriters that crossed, one round from a node at the higher revision
      settles the cluster exactly when the revisions differ or the contents do not. */
  lemma RoundAfterTwo(nodes: map<Id, NodeState>, a: Id, b: Id, d: Loader, ha: nat, hb: nat, aLast: set<Id>, o: Id,
          peers: set<string>, overview: seq<Health>)
    requires Lawful(d) && a in nodes && b in nodes && a != b && o in nodes
    requires Objects(nodes[a].shared) && Objects(nodes[b].shared)
    requires var after := OverwrittenTwice(nodes, a, b, d, ha, hb, true, aLast);
      && (forall j | j in nodes :: after[j].rev <= after[o].rev)
      && Accurate(overview, after, o) && Complete(overview, peers, after, o)
    ensures OneContent(Reconciled(OverwrittenTwice(nodes, a, b, d, ha, hb, true, aLast), o, d, peers, overview))
       <==> ha != hb || d.load(nodes[a].shared) == d.load(nodes[b].shared)
  {
    var after := OverwrittenTwice(nodes, a, b, d, ha, hb, true, aLast);
    var x, y := d.load(nodes[a].shared), d.load(nodes[b].shared);
    LoadAgain(nodes[a].shared, d);
    LoadAgain(nodes[b].shared, d);
    forall j | j in nodes
      ensures after[j].fp.Some?
      ensures if j == b || (j != a && j in aLast) then At(after[j], ha + 1, x) else At(after[j], hb + 1, y)
    {
      CrossedOverwritesSwap(nodes, a, b, d, ha, hb, aLast, j);
    }
    TopContent(after, a, b, ha + 1, hb + 1, x, y, o);
    RoundSettles(after, o, d, peers, overview);
  }

  lemma TopContent(nodes: map<Id, NodeState>, a: Id, b: Id, ra: nat, rb: nat, x: View, y: View, o: Id)
    requires a in nodes && b in nodes && o in nodes && At(nodes[a], rb, y) && At(nodes[b], ra, x)
    requires forall j | j in nodes :: At(nodes[j], ra, x) || At(nodes[j], rb, y)
    requires forall j | j in nodes :: nodes[j].rev <= nodes[o].rev
    ensures (forall j | j in nodes && nodes[j].rev == nodes[o].rev :: nodes[j].shared == nodes[o].shared)
       <==> ra != rb || x == y
  {
  }
}
