/** Alerts (ham/notify.py): a report is sent when something changes, again while it
    stays broken, and its recovery is sent when the problem was; reports made while
    a batch is open leave together. */
module Alerts {
  import opened Options

  /** Severities are ranked: information, warning, error. */
  datatype Settings = Settings(
    enabled: bool, floor: nat, categoriesOff: set<string>, destinations: nat, repeatAfter: real, hold: real)

  datatype Alert = Alert(event: string, text: string, severity: nat, force: bool)

  /** `_gate`: would the message reach any destination? */
  predicate Passes(n: Settings, a: Alert) {
    n.enabled && (a.force || a.severity >= n.floor) && (a.event == "" || a.event !in n.categoriesOff)
    && n.destinations > 0
  }

  /** One by one, what keeps an alert back; nothing else does. */
  lemma KeptBack(n: Settings, a: Alert)
    ensures !n.enabled ==> !Passes(n, a)
    ensures n.destinations == 0 ==> !Passes(n, a)
    ensures a.event != "" && a.event in n.categoriesOff ==> !Passes(n, a)
    ensures !a.force && a.severity < n.floor ==> !Passes(n, a)
    ensures !Passes(n, a) ==>
      !n.enabled || n.destinations == 0 || (a.event != "" && a.event in n.categoriesOff)
      || (!a.force && a.severity < n.floor)
  {
  }

  /** What is remembered of a key. */
  datatype Entry = Entry(state: string, since: real, lastSent: real, sent: bool)

  /** A report that was not suppressed, whether it counts as received, and whether
      it was sent at once rather than collected into a batch. */
  datatype Attempt = Attempt(key: string, state: string, time: real, repeatAfter: real, force: bool, delivered: bool,
                             direct: bool)

  const OK := "ok"

  /** The last attempt for a key. */
  ghost function Last(log: seq<Attempt>, key: string): (r: Option<Attempt>)
    ensures r.Some? ==> r.value.key == key
  {
    if log == [] then None
    else if log[|log| - 1].key == key then Some(log[|log| - 1])
    else Last(log[..|log| - 1], key)
  }

  /** Is a report news after the last attempt? */
  ghost predicate News(last: Option<Attempt>, state: string, now: real, repeatAfter: real) {
    last.None? || last.value.state != state || (now - last.value.time > repeatAfter && state != OK)
  }

  /** Does a report close a problem that somebody was told of? */
  ghost predicate Closes(last: Option<Attempt>, state: string) {
    state == OK && last.Some? && last.value.state != OK && last.value.delivered
  }

  /** Every attempt was news after the one before it for its key, and was forced
      exactly when it closed a delivered problem. */
  ghost predicate Justified(log: seq<Attempt>) {
    log == [] ||
    (Justified(log[..|log| - 1]) &&
     var a := log[|log| - 1];
     News(Last(log[..|log| - 1], a.key), a.state, a.time, a.repeatAfter)
     && a.force == Closes(Last(log[..|log| - 1], a.key), a.state))
  }

  /** What the notifier remembers is the last attempt. */
  ghost predicate Remembers(entries: map<string, Entry>, log: seq<Attempt>) {
    forall key :: RemembersKey(entries, log, key)
  }

  ghost predicate RemembersKey(entries: map<string, Entry>, log: seq<Attempt>, key: string) {
    var last := Last(log, key);
    (key in entries <==> last.Some?) &&
    (key in entries ==> entries[key].state == last.value.state && entries[key].lastSent == last.value.time
                        && entries[key].sent == last.value.delivered)
  }

  ghost predicate NoneBetween(log: seq<Attempt>, i: nat, j: nat) {
    i < j <= |log| && forall k :: i < k < j ==> log[k].key != log[i].key
  }

  lemma {:induction false} LastIs(log: seq<Attempt>, i: nat, j: nat)
    requires NoneBetween(log, i, j)
    ensures Last(log[..j], log[i].key) == Some(log[i])
    decreases j
  {
    assert log[..j][..j - 1] == log[..j - 1];
    if j > i + 1 {
      LastIs(log, i, j - 1);
    }
  }

  lemma {:induction false} JustifiedAt(log: seq<Attempt>, j: nat)
    requires Justified(log) && j < |log|
    ensures News(Last(log[..j], log[j].key), log[j].state, log[j].time, log[j].repeatAfter)
    ensures log[j].force == Closes(Last(log[..j], log[j].key), log[j].state)
  {
    if j < |log| - 1 {
      JustifiedAt(log[..|log| - 1], j);
      assert log[..|log| - 1][..j] == log[..j];
    }
  }

  /** Over every run: of two attempts in a row for one key, an unchanged one comes
      only for a problem and only after the repeat time; and the later one is forced
      exactly when it is the recovery of a problem that was delivered. */
  lemma AttemptsInARow(log: seq<Attempt>, i: nat, j: nat)
    requires Justified(log) && j < |log| && NoneBetween(log, i, j) && log[i].key == log[j].key
    ensures log[i].state == log[j].state ==>
              log[j].state != OK && log[j].time - log[i].time > log[j].repeatAfter
    ensures log[j].force <==> log[j].state == OK && log[i].state != OK && log[i].delivered
  {
    LastIs(log, i, j);
    JustifiedAt(log, j);
  }

  /** A first attempt is never forced. */
  lemma FirstAttempt(log: seq<Attempt>, j: nat)
    requires Justified(log) && j < |log| && forall k :: 0 <= k < j ==> log[k].key != log[j].key
    ensures !log[j].force
  {
    JustifiedAt(log, j);
    LastNone(log[..j], log[j].key);
  }

  lemma {:induction false} LastNone(log: seq<Attempt>, key: string)
    requires forall k :: 0 <= k < |log| ==> log[k].key != key
    ensures Last(log, key).None?
  {
    if log != [] {
      LastNone(log[..|log| - 1], key);
    }
  }

  // ----- batches -----

  function Worst(items: seq<Alert>): nat {
    if items == [] then 0
    else if items[0].severity > Worst(items[1..]) then items[0].severity
    else Worst(items[1..])
  }

  predicate AnyForced(items: seq<Alert>) {
    exists a :: a in items && a.force
  }

  /** `_combine`, but for the wording: the worst severity, forced if any is. */
  function Combined(items: seq<Alert>, text: string): Alert
    requires items != []
  {
    Alert(items[0].event, text, Worst(items), AnyForced(items))
  }

  lemma {:induction false} WorstIsWorst(items: seq<Alert>, a: Alert)
    requires a in items
    ensures a.severity <= Worst(items)
  {
    if a != items[0] {
      WorstIsWorst(items[1..], a);
    }
  }

  /** Alerts that would each be sent are sent when they are combined. */
  lemma CombinedPasses(n: Settings, items: seq<Alert>, text: string)
    requires items != [] && forall a :: a in items ==> Passes(n, a)
    ensures Passes(n, Combined(items, text))
  {
    assert Passes(n, items[0]);
    WorstIsWorst(items, items[0]);
  }

  ghost function Flatten(flushes: seq<seq<Alert>>): seq<Alert> {
    if flushes == [] then [] else Flatten(flushes[..|flushes| - 1]) + flushes[|flushes| - 1]
  }

  lemma FlattenAppend(flushes: seq<seq<Alert>>, items: seq<Alert>)
    ensures Flatten(flushes + [items]) == Flatten(flushes) + items
  {
    assert (flushes + [items])[..|flushes|] == flushes;
  }

  class Notifier {
    var entries: map<string, Entry>
    var active: bool
    var items: seq<Alert>
    var since: real
    ghost var attempts: seq<Attempt>
    ghost var collected: seq<Alert>
    ghost var flushes: seq<seq<Alert>>

    ghost predicate Valid()
      reads this
    {
      Remembers(entries, attempts) && Justified(attempts) && Flatten(flushes) + items == collected
    }

    constructor ()
      ensures Valid() && attempts == [] && collected == [] && flushes == [] && !active
    {
      entries, active, items, since := map[], false, [], 0.0;
      attempts, collected, flushes := [], [], [];
    }

    /** `notify`: `reached` is how many destinations took the message. */
    method Notify(n: Settings, a: Alert, now: real, reached: nat) returns (sent: nat)
      requires Valid()
      modifies this`items, this`since, this`collected
      ensures Valid()
      ensures !Passes(n, a) ==> sent == 0 && collected == old(collected)
      ensures Passes(n, a) && active ==> sent == n.destinations && collected == old(collected) + [a]
      ensures Passes(n, a) && !active ==> sent == reached && collected == old(collected)
      ensures items == old(items) + if Passes(n, a) && active then [a] else []
    {
      sent := 0;
      if Passes(n, a) {
        if active {
          if items == [] {
            since := now;
          }
          items := items + [a];
          collected := collected + [a];
          sent := n.destinations;
        } else {
          sent := reached;
        }
      }
    }

    /** `notify_transition`: an attempt is made exactly when the report is news. In a
        batch it counts as delivered as soon as it passes; outside, when a destination
        took it. */
    method Transition(n: Settings, key: string, state: string, event: string, text: string, severity: nat, now: real,
            reached: nat) returns (sent: nat)
      requires Valid()
      modifies this`entries, this`items, this`since, this`attempts, this`collected
      ensures Valid()
      ensures var last := old(Last(attempts, key));
              var a := Alert(event, text, severity, Closes(last, state));
              var passes := News(last, state, now, n.repeatAfter) && Passes(n, a);
              attempts == old(attempts)
                + (if !News(last, state, now, n.repeatAfter) then []
                   else [Attempt(key, state, now, n.repeatAfter, a.force, passes && (active || reached > 0), !active)])
              && collected == old(collected) + (if passes && active then [a] else [])
              && items == old(items) + (if passes && active then [a] else [])
              && sent == if !passes then 0 else if active then n.destinations else reached
    {
      ghost var last := Last(attempts, key);
      ghost var log := attempts;
      assert RemembersKey(entries, log, key);
      var known := key in entries;
      var changed := !known || entries[key].state != state;
      var stale := known && now - entries[key].lastSent > n.repeatAfter;
      if !changed && !(stale && state != OK) {
        sent := 0;
        return;
      }
      var closing := state == OK && known && entries[key].state != OK && entries[key].sent;
      var begun := if changed then now else entries[key].since;
      sent := Notify(n, Alert(event, text, severity, closing), now, reached);
      ghost var a := Attempt(key, state, now, n.repeatAfter, closing, sent > 0, !active);
      Remembered(entries, log, a, Entry(state, begun, now, sent > 0));
      Logged(log, a);
      entries := entries[key := Entry(state, begun, now, sent > 0)];
      attempts := attempts + [a];
    }

    method BatchBegin()
      requires Valid()
      modifies this`active
      ensures Valid() && active
    {
      active := true;
    }

    /** `batch_end`: everything collected leaves as one message, unless the batch is
        held open for stragglers. */
    method BatchEnd(n: Settings, now: real, reached: nat) returns (sent: nat)
      requires Valid()
      modifies this`active, this`items, this`since, this`collected, this`flushes
      ensures Valid() && !active && collected == old(collected)
      ensures flushes == old(flushes) || (flushes == old(flushes) + [old(items)] && items == [] && old(items) != [])
      ensures flushes == old(flushes) <==> old(items) == [] || (n.hold > 0.0 && now - old(since) < n.hold)
      ensures flushes != old(flushes) && (forall a :: a in old(items) ==> Passes(n, a)) ==> sent == reached
    {
      active := false;
      sent := 0;
      if items == [] || (n.hold > 0.0 && now - since < n.hold) {
        return;
      }
      var all := items;
      FlattenAppend(flushes, all);
      items, since := [], 0.0;
      flushes := flushes + [all];
      if forall a :: a in all ==> Passes(n, a) {
        CombinedPasses(n, all, "");
      }
      if |all| == 1 {
        sent := Notify(n, all[0], now, reached);
      } else {
        sent := Notify(n, Combined(all, ""), now, reached);
      }
    }
  }

  lemma Remembered(entries: map<string, Entry>, log: seq<Attempt>, a: Attempt, e: Entry)
    requires Remembers(entries, log) && e.state == a.state && e.lastSent == a.time && e.sent == a.delivered
    ensures Remembers(entries[a.key := e], log + [a])
  {
    var entries', log' := entries[a.key := e], log + [a];
    forall key
      ensures RemembersKey(entries', log', key)
    {
      assert log'[..|log|] == log;
      assert RemembersKey(entries, log, key);
    }
  }

  lemma Logged(log: seq<Attempt>, a: Attempt)
    requires Justified(log) && News(Last(log, a.key), a.state, a.time, a.repeatAfter)
    requires a.force == Closes(Last(log, a.key), a.state)
    ensures Justified(log + [a])
  {
    assert (log + [a])[..|log|] == log;
  }

  /** Each collected alert is in exactly one flush or still waiting: position by
      position, the flushes and the waiting items are what was collected. */
  lemma {:induction false} FlushOf(flushes: seq<seq<Alert>>, k: nat)
    requires k < |Flatten(flushes)|
    ensures exists f, i :: 0 <= f < |flushes| && 0 <= i < |flushes[f]| && flushes[f][i] == Flatten(flushes)[k]
                        && k == |Flatten(flushes[..f])| + i
  {
    var n := |flushes| - 1;
    var front := flushes[..n];
    if k < |Flatten(front)| {
      FlushOf(front, k);
      var f, i :| 0 <= f < |front| && 0 <= i < |front[f]| && front[f][i] == Flatten(front)[k]
               && k == |Flatten(front[..f])| + i;
      assert flushes[..f] == front[..f];
      assert flushes[f][i] == Flatten(flushes)[k];
    } else {
      assert flushes[n][k - |Flatten(front)|] == Flatten(flushes)[k];
    }
  }

  /** A problem is collected into a batch that nobody takes. */
  method CollectedAndLost(n: Settings, key: string, event: string, severity: nat, now: real)
    returns (notifier: Notifier, flushed: nat)
    requires Passes(n, Alert(event, "", severity, false)) && n.hold <= 0.0
    ensures fresh(notifier) && notifier.Valid() && !notifier.active && flushed == 0
    ensures var a := Attempt(key, "down", now, n.repeatAfter, false, true, false);
            notifier.attempts == [a] && Last(notifier.attempts, key) == Some(a)
  {
    notifier := new Notifier();
    notifier.BatchBegin();
    var _ := notifier.Transition(n, key, "down", event, "", severity, now, 0);
    flushed := notifier.BatchEnd(n, now, 0);
    LastAdded([], notifier.attempts[0]);
  }

  /** A problem collected into a batch counts as delivered even when nobody takes the
      batch: it is not reported again before the repeat time, and its recovery is
      forced on people who never heard of it. */
  method LostBatch(n: Settings, key: string, event: string, severity: nat, now: real, later: real)
    returns (flushed: nat, repeated: nat, ghost log: seq<Attempt>)
    requires Passes(n, Alert(event, "", severity, false)) && n.hold <= 0.0 && now <= later <= now + n.repeatAfter
    ensures flushed == 0 && repeated == 0
    ensures |log| == 2 && log[0].state == "down" && log[0].delivered && log[1].state == OK && log[1].force
  {
    var notifier;
    notifier, flushed := CollectedAndLost(n, key, event, severity, now);
    repeated := notifier.Transition(n, key, "down", event, "", severity, later, 1);
    var _ := notifier.Transition(n, key, OK, event, "", severity, later, 1);
    log := notifier.attempts;
  }

  lemma LastAdded(log: seq<Attempt>, a: Attempt)
    ensures Last(log + [a], a.key) == Some(a)
  {
  }
}
