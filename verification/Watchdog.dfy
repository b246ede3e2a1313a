/** The watchdog's restart budget (ham/watchdog.py, `_restart_allowed` and the
    restart decision of a round). */
module Watchdog {
  /** What a probe says of a unit. A unit that is down may be stopped on purpose, or
      its configuration may not be usable. */
  datatype Verdict = Healthy | Down(wanted: bool, usable: bool) | Starting | Unknown

  ghost predicate Sorted(ts: seq<real>) {
    forall i, j :: 0 <= i < j < |ts| ==> ts[i] <= ts[j]
  }

  /** The times less than the window ago. */
  function Recent(ts: seq<real>, now: real, window: real): seq<real> {
    if ts == [] then []
    else (if now - ts[0] < window then [ts[0]] else []) + Recent(ts[1..], now, window)
  }

  lemma {:induction false} RecentAll(ts: seq<real>, now: real, window: real)
    requires forall i :: 0 <= i < |ts| ==> now - ts[i] < window
    ensures Recent(ts, now, window) == ts
  {
    if ts != [] {
      RecentAll(ts[1..], now, window);
    }
  }

  /** Of sorted times the recent ones are an end of the list. */
  lemma {:induction false} RecentIsEnd(ts: seq<real>, now: real, window: real) returns (k: nat)
    requires Sorted(ts)
    ensures k <= |ts| && Recent(ts, now, window) == ts[k..]
    ensures forall i :: 0 <= i < k ==> now - ts[i] >= window
    ensures forall i :: k <= i < |ts| ==> now - ts[i] < window
  {
    if ts == [] {
      k := 0;
    } else if now - ts[0] < window {
      assert forall i :: 0 < i < |ts| ==> ts[0] <= ts[i];
      RecentAll(ts, now, window);
      k := 0;
    } else {
      var m := RecentIsEnd(ts[1..], now, window);
      k := m + 1;
      forall i | 0 <= i < k
        ensures now - ts[i] >= window
      {
        assert i > 0 ==> ts[i] == ts[1..][i - 1];
      }
      forall i | k <= i < |ts|
        ensures now - ts[i] < window
      {
        assert ts[i] == ts[1..][i - 1];
      }
    }
  }

  // ----- the budget -----

  /** A restart and the one `limit` restarts before it are a window apart. */
  ghost predicate Spaced(log: seq<real>, limit: int, window: real) {
    (limit <= 0 ==> log == [])
    && forall i, j :: 0 <= i < j < |log| && j - i >= limit ==> log[j] - log[i] >= window
  }

  function CountWithin(log: seq<real>, a: real, b: real): nat {
    if log == [] then 0
    else CountWithin(log[..|log| - 1], a, b) + if a <= log[|log| - 1] <= b then 1 else 0
  }

  /** So many places of the list hold a time from a to b. */
  lemma {:induction false} CountIs(log: seq<real>, a: real, b: real)
    ensures CountWithin(log, a, b) == |set i | 0 <= i < |log| && a <= log[i] <= b|
  {
    var all := set i | 0 <= i < |log| && a <= log[i] <= b;
    if log == [] {
      assert all == {};
    } else {
      var n := |log| - 1;
      var front := set i | 0 <= i < |log[..n]| && a <= log[..n][i] <= b;
      CountIs(log[..n], a, b);
      assert all == front + if a <= log[n] <= b then {n} else {};
    }
  }

  lemma {:induction false} CountNone(log: seq<real>, a: real, b: real)
    requires forall i :: 0 <= i < |log| ==> log[i] < a
    ensures CountWithin(log, a, b) == 0
  {
    if log != [] {
      CountNone(log[..|log| - 1], a, b);
    }
  }

  lemma {:induction false} CountAtMost(log: seq<real>, m: nat, a: real, b: real)
    requires m <= |log|
    ensures CountWithin(log, a, b) <= CountWithin(log[..m], a, b) + |log| - m
    decreases |log|
  {
    if m < |log| {
      CountAtMost(log[..|log| - 1], m, a, b);
      assert log[..|log| - 1][..m] == log[..m];
    } else {
      assert log[..m] == log;
    }
  }

  /** Any interval shorter than the window holds at most `limit` of the restarts. */
  lemma {:induction false} AnyInterval(log: seq<real>, limit: int, window: real, a: real, b: real)
    requires Sorted(log) && Spaced(log, limit, window) && a <= b && b - a < window && limit >= 0
    ensures CountWithin(log, a, b) <= limit
    decreases |log|
  {
    if log != [] {
      var n := |log| - 1;
      if !(a <= log[n] <= b) {
        assert Spaced(log[..n], limit, window);
        AnyInterval(log[..n], limit, window, a, b);
      } else if |log| > limit {
        var m := |log| - limit;
        forall i | 0 <= i < m
          ensures log[i] < a
        {
          assert i < n ==> log[n] - log[i] >= window;
        }
        CountNone(log[..m], a, b);
        CountAtMost(log, m, a, b);
      } else {
        CountAtMost(log, 0, a, b);
      }
    }
  }

  /** What is remembered of a unit stands for all its restarts since it was last
      healthy: those left out are out of the window for good. */
  ghost predicate Stands(history: seq<real>, log: seq<real>, clock: real, window: real) {
    |history| <= |log| && history == log[|log| - |history|..]
    && forall i :: 0 <= i < |log| - |history| ==> clock - log[i] >= window
  }

  ghost predicate UnitOk(history: seq<real>, log: seq<real>, clock: real, limit: int, window: real) {
    Sorted(log) && Spaced(log, limit, window) && Stands(history, log, clock, window)
    && forall t :: t in log ==> t <= clock
  }

  lemma {:induction false} RecentNone(ts: seq<real>, now: real, window: real)
    requires forall i :: 0 <= i < |ts| ==> now - ts[i] >= window
    ensures Recent(ts, now, window) == []
  {
    if ts != [] {
      RecentNone(ts[1..], now, window);
    }
  }

  lemma {:induction false} RecentConcat(a: seq<real>, b: seq<real>, now: real, window: real)
    ensures Recent(a + b, now, window) == Recent(a, now, window) + Recent(b, now, window)
  {
    if a == [] {
      assert a + b == b;
    } else {
      assert (a + b)[1..] == a[1..] + b;
      RecentConcat(a[1..], b, now, window);
    }
  }

  /** The pruned history has the same recent times as the whole one. */
  lemma RecentWhole(history: seq<real>, log: seq<real>, clock: real, now: real, limit: int, window: real)
    requires UnitOk(history, log, clock, limit, window) && clock <= now
    ensures Recent(history, now, window) == Recent(log, now, window)
  {
    var gone := log[..|log| - |history|];
    assert log == gone + history;
    RecentConcat(gone, history, now, window);
    RecentNone(gone, now, window);
  }

  /** Pruning at a later time keeps what matters. */
  lemma PruneOk(history: seq<real>, log: seq<real>, clock: real, now: real, limit: int, window: real)
    requires UnitOk(history, log, clock, limit, window) && clock <= now
    ensures UnitOk(Recent(history, now, window), log, now, limit, window)
    ensures forall i :: 0 <= i < |log| - |Recent(history, now, window)| ==> now - log[i] >= window
  {
    var s := |log| - |history|;
    var k := RecentIsEnd(history, now, window);
    forall i | 0 <= i < s + k
      ensures now - log[i] >= window
    {
      assert i >= s ==> log[i] == history[i - s];
    }
  }

  /** A restart the pruned history allows keeps the budget. */
  lemma RestartOk(history: seq<real>, log: seq<real>, checked: real, time: real, limit: int, window: real)
    requires UnitOk(history, log, checked, limit, window) && checked <= time && |history| < limit
    ensures UnitOk(history + [time], log + [time], time, limit, window)
  {
    var log' := log + [time];
    var s := |log| - |history|;
    forall i, j | 0 <= i < j < |log'| && j - i >= limit
      ensures log'[j] - log'[i] >= window
    {
      if j == |log| {
        assert i < s;
      }
    }
    forall i, j | 0 <= i < j < |log'|
      ensures log'[i] <= log'[j]
    {
      assert i < |log| ==> log[i] in log;
    }
    assert (history + [time]) == log'[s..];
  }

  lemma WaitOk(history: seq<real>, log: seq<real>, clock: real, now: real, limit: int, window: real)
    requires UnitOk(history, log, clock, limit, window) && clock <= now
    ensures UnitOk(history, log, now, limit, window)
  {
  }

  // ----- all units -----

  type Times = map<string, seq<real>>

  function Of(m: Times, unit: string): seq<real> {
    if unit in m then m[unit] else []
  }

  ghost predicate AllOk(history: Times, log: Times, clock: real, limit: int, window: real) {
    forall unit :: UnitOk(Of(history, unit), Of(log, unit), clock, limit, window)
  }

  lemma AllWait(history: Times, log: Times, clock: real, now: real, limit: int, window: real)
    requires AllOk(history, log, clock, limit, window) && clock <= now
    ensures AllOk(history, log, now, limit, window)
  {
    forall unit
      ensures UnitOk(Of(history, unit), Of(log, unit), now, limit, window)
    {
      WaitOk(Of(history, unit), Of(log, unit), clock, now, limit, window);
    }
  }

  lemma AllSet(history: Times, log: Times, history': Times, log': Times, clock: real, limit: int, window: real,
          unit: string)
    requires AllOk(history, log, clock, limit, window)
    requires UnitOk(Of(history', unit), Of(log', unit), clock, limit, window)
    requires forall u :: u != unit ==> Of(history', u) == Of(history, u) && Of(log', u) == Of(log, u)
    ensures AllOk(history', log', clock, limit, window)
  {
    forall u
      ensures UnitOk(Of(history', u), Of(log', u), clock, limit, window)
    {
      assert UnitOk(Of(history, u), Of(log, u), clock, limit, window);
    }
  }

  lemma AllPruned(history: Times, log: Times, clock: real, now: real, limit: int, window: real, unit: string)
    requires AllOk(history, log, clock, limit, window) && clock <= now
    ensures AllOk(history[unit := Recent(Of(history, unit), now, window)], log, now, limit, window)
  {
    var history' := history[unit := Recent(Of(history, unit), now, window)];
    assert UnitOk(Of(history, unit), Of(log, unit), clock, limit, window);
    PruneOk(Of(history, unit), Of(log, unit), clock, now, limit, window);
    AllWait(history, log, clock, now, limit, window);
    AllSet(history, log, history', log, now, limit, window, unit);
  }

  lemma AllRestart(history: Times, log: Times, clock: real, time: real, limit: int, window: real, unit: string)
    requires AllOk(history, log, clock, limit, window) && clock <= time && |Of(history, unit)| < limit
    ensures AllOk(history[unit := Of(history, unit) + [time]], log[unit := Of(log, unit) + [time]], time, limit, window)
  {
    var h, l := Of(history, unit) + [time], Of(log, unit) + [time];
    assert UnitOk(Of(history, unit), Of(log, unit), clock, limit, window);
    RestartOk(Of(history, unit), Of(log, unit), clock, time, limit, window);
    AllWait(history, log, clock, time, limit, window);
    AllSet(history, log, history[unit := h], log[unit := l], time, limit, window, unit);
  }

  class Supervisor {
    var history: Times
    const limit: int
    const window: real

    /** All restarts of a unit since it was last found healthy. */
    ghost var log: Times
    ghost var clock: real

    ghost predicate Valid()
      reads this
    {
      AllOk(history, log, clock, limit, window)
    }

    constructor (limit: int, window: real)
      ensures Valid() && log == map[] && this.limit == limit && this.window == window
    {
      history, this.limit, this.window := map[], limit, window;
      log, clock := map[], 0.0;
    }

    /** `_restart_allowed`. */
    method RestartAllowed(unit: string, now: real) returns (allowed: bool)
      requires Valid() && clock <= now
      modifies this`history, this`clock
      ensures Valid() && clock == now
      ensures allowed == (|Of(history, unit)| < limit)
      ensures allowed == (|Recent(if unit in log then log[unit] else [], now, window)| < limit)
      ensures history == old(history)[unit := Recent(Of(old(history), unit), now, window)]
    {
      var kept := Recent(Of(history, unit), now, window);
      assert UnitOk(Of(history, unit), Of(log, unit), clock, limit, window);
      RecentWhole(Of(history, unit), Of(log, unit), clock, now, limit, window);
      AllPruned(history, log, clock, now, limit, window, unit);
      history := history[unit := kept];
      clock := now;
      allowed := |kept| < limit;
    }

    method Restart(unit: string, time: real)
      requires Valid() && clock <= time && |Of(history, unit)| < limit
      modifies this`history, this`log, this`clock
      ensures Valid() && clock == time
      ensures history == old(history)[unit := Of(old(history), unit) + [time]]
      ensures log == old(log)[unit := Of(old(log), unit) + [time]]
    {
      AllRestart(history, log, clock, time, limit, window, unit);
      history := history[unit := Of(history, unit) + [time]];
      log := log[unit := Of(log, unit) + [time]];
      clock := time;
    }

    method Forget(unit: string)
      requires Valid()
      modifies this`history, this`log
      ensures Valid() && history == old(history) - {unit} && log == old(log) - {unit}
    {
      ghost var before, logged := history, log;
      history := history - {unit};
      log := log - {unit};
      AllSet(before, logged, history, log, clock, limit, window, unit);
    }

    /** A round's decision for one unit. A restart happens at `later`, at or after the
        time of the check. */
    method Round(unit: string, verdict: Verdict, now: real, later: real) returns (restarted: bool)
      requires Valid() && clock <= now <= later
      modifies this`history, this`log, this`clock
      ensures Valid() && clock == later
      ensures var restarts := if unit in old(log) then old(log)[unit] else [];
        && (restarted <==> verdict == Down(true, true) && |Recent(restarts, now, window)| < limit)
        && log == if restarted then old(log)[unit := restarts + [later]]
                  else if verdict == Healthy then old(log) - {unit} else old(log)
      ensures verdict == Healthy ==> history == old(history) - {unit}
    {
      restarted := false;
      if verdict == Down(true, true) {
        restarted := RestartAllowed(unit, now);
        if restarted {
          Restart(unit, later);
        }
      } else if verdict == Healthy {
        Forget(unit);
      }
      AllWait(history, log, clock, later, limit, window);
      clock := later;
    }

    /** Between two healthy verdicts, any interval shorter than the window holds at
        most `limit` restarts of a unit. */
    lemma WithinBudget(unit: string, a: real, b: real)
      requires Valid() && a <= b && b - a < window
      ensures unit in log ==> CountWithin(log[unit], a, b) <= if limit > 0 then limit else 0
    {
      assert UnitOk(Of(history, unit), Of(log, unit), clock, limit, window);
      if limit > 0 {
        AnyInterval(Of(log, unit), limit, window, a, b);
      }
    }
  }
}
