/** Alerts about services (ham/traffic.py, `poll` and `check_services`): trouble is
    reported once it has lasted, round after round, for the grace period. */
module ServiceAlerts {
  import opened Options
  import Alerts

  datatype Mode = Servers | Outage | Off

  /** A pool as HAProxy reports it in a round. */
  datatype Pool = Pool(name: string, internal: bool, paused: bool, mode: Mode, total: nat, up: nat, anyDown: bool)

  datatype Round = Round(time: real, pools: seq<Pool>)

  predicate Watched(p: Pool) {
    !p.internal && !p.paused && p.mode != Off && p.total > 0
  }

  /** What is wrong with a pool, if anything. */
  function Trouble(p: Pool): Option<string> {
    if p.up == 0 then Some("down") else if p.anyDown && p.mode == Servers then Some("degraded") else None
  }

  predicate InTrouble(p: Pool, name: string) {
    p.name == name && Watched(p) && Trouble(p).Some?
  }

  predicate TroubleIn(pools: seq<Pool>, name: string) {
    exists p :: p in pools && InTrouble(p, name)
  }

  /** HAProxy reports each pool once. */
  ghost predicate OnceEach(pools: seq<Pool>) {
    pools == [] || ((forall p :: p in pools[1..] ==> p.name != pools[0].name) && OnceEach(pools[1..]))
  }

  /** When the trouble that still lasts in the last round began. */
  ghost function Since(rounds: seq<Round>, name: string): Option<real> {
    if rounds == [] then None
    else
      var n := |rounds| - 1;
      if !TroubleIn(rounds[n].pools, name) then None
      else Some(Since(rounds[..n], name).Or(rounds[n].time))
  }

  /** It began in a round since when the pool was in trouble in every round. */
  lemma {:induction false} SinceIsUnbroken(rounds: seq<Round>, name: string)
    requires Since(rounds, name).Some?
    ensures exists k :: 0 <= k < |rounds| && rounds[k].time == Since(rounds, name).value
                     && forall j :: k <= j < |rounds| ==> TroubleIn(rounds[j].pools, name)
  {
    var n := |rounds| - 1;
    if Since(rounds[..n], name).Some? {
      SinceIsUnbroken(rounds[..n], name);
      var k :| 0 <= k < n && rounds[..n][k].time == Since(rounds[..n], name).value
            && forall j :: k <= j < n ==> TroubleIn(rounds[..n][j].pools, name);
      assert rounds[k].time == Since(rounds, name).value;
      forall j | k <= j < |rounds|
        ensures TroubleIn(rounds[j].pools, name)
      {
        assert j < n ==> rounds[..n][j] == rounds[j];
      }
    } else {
      assert rounds[n].time == Since(rounds, name).value;
    }
  }

  // ----- one round -----

  type Timers = map<string, real>

  function Began(timers: Timers, name: string, now: real): real {
    if name in timers then timers[name] else now
  }

  function Next(timers: Timers, p: Pool, now: real): Timers {
    if !Watched(p) then timers
    else if Trouble(p).Some? then timers[p.name := Began(timers, p.name, now)]
    else timers - {p.name}
  }

  function After(timers: Timers, pools: seq<Pool>, now: real): Timers {
    if pools == [] then timers else Next(After(timers, pools[..|pools| - 1], now), pools[|pools| - 1], now)
  }

  function Names(pools: seq<Pool>): set<string> {
    set p | p in pools && Watched(p) :: p.name
  }

  /** Timers of pools that were not watched in the round are dropped. */
  function Kept(timers: Timers, pools: seq<Pool>, now: real): Timers {
    map name | name in After(timers, pools, now) && name in Names(pools) :: After(timers, pools, now)[name]
  }

  datatype Report = Report(name: string, state: string, time: real, round: nat)

  predicate Waits(began: real, now: real, grace: real) {
    grace != 0.0 && now - began < grace
  }

  function ReportFor(timers: Timers, p: Pool, now: real, grace: real, round: nat): seq<Report> {
    if !Watched(p) then []
    else if Trouble(p).None? then [Report(p.name, Alerts.OK, now, round)]
    else if Waits(Began(timers, p.name, now), now, grace) then []
    else [Report(p.name, Trouble(p).value, now, round)]
  }

  ghost predicate Tracks(timers: Timers, rounds: seq<Round>) {
    forall name :: TracksName(timers, rounds, name)
  }

  ghost predicate TracksName(timers: Timers, rounds: seq<Round>, name: string) {
    (name in timers <==> Since(rounds, name).Some?) && (name in timers ==> timers[name] == Since(rounds, name).value)
  }

  lemma OnceEachFront(pools: seq<Pool>)
    requires OnceEach(pools) && pools != []
    ensures OnceEach(pools[..|pools| - 1])
    ensures forall p :: p in pools[..|pools| - 1] ==> p.name != pools[|pools| - 1].name
  {
    if |pools| > 1 {
      var n := |pools| - 1;
      OnceEachFront(pools[1..]);
      assert pools[1..][..n - 1] == pools[..n][1..];
      assert pools[1..][n - 1] == pools[n] && pools[n] in pools[1..];
      forall p | p in pools[..n]
        ensures p.name != pools[n].name
      {
        assert p == pools[0] || p in pools[..n][1..];
      }
      forall p | p in pools[..n][1..]
        ensures p.name != pools[..n][0].name
      {
        assert p in pools[1..];
      }
    }
  }

  /** A round starts a timer, keeps it or ends it, by what the round says. */
  lemma {:induction false} AfterIs(timers: Timers, pools: seq<Pool>, now: real, name: string)
    requires OnceEach(pools)
    ensures name in Names(pools) ==> (name in After(timers, pools, now) <==> TroubleIn(pools, name))
    ensures name in Names(pools) && TroubleIn(pools, name) ==>
        After(timers, pools, now)[name] == Began(timers, name, now)
    ensures name !in Names(pools) ==> (name in After(timers, pools, now) <==> name in timers)
    ensures name !in Names(pools) && name in timers ==> After(timers, pools, now)[name] == timers[name]
    decreases |pools|
  {
    if pools != [] {
      var n := |pools| - 1;
      OnceEachFront(pools);
      AfterIs(timers, pools[..n], now, name);
      LastPool(pools, name);
    }
  }

  lemma LastPool(pools: seq<Pool>, name: string)
    requires pools != [] && OnceEach(pools)
    ensures var p, front := pools[|pools| - 1], pools[..|pools| - 1];
            (name in Names(pools) <==> name in Names(front) || (p.name == name && Watched(p)))
            && (TroubleIn(pools, name) <==> TroubleIn(front, name) || InTrouble(p, name))
            && (p.name == name ==> name !in Names(front) && !TroubleIn(front, name))
  {
    var p, front := pools[|pools| - 1], pools[..|pools| - 1];
    OnceEachFront(pools);
    forall q
      ensures q in pools <==> q in front || q == p
    {
      assert pools == front + [p];
    }
    if TroubleIn(front, name) {
      var q :| q in front && InTrouble(q, name);
      assert q in pools;
    }
    if InTrouble(p, name) {
      assert p in pools;
    }
  }

  /** The timers after a round are the streaks including that round. */
  lemma KeptTracks(timers: Timers, rounds: seq<Round>, r: Round)
    requires Tracks(timers, rounds) && OnceEach(r.pools)
    ensures Tracks(Kept(timers, r.pools, r.time), rounds + [r])
  {
    var timers', rounds' := Kept(timers, r.pools, r.time), rounds + [r];
    forall name
      ensures TracksName(timers', rounds', name)
    {
      KeptTracksName(timers, rounds, r, name);
    }
  }

  lemma KeptTracksName(timers: Timers, rounds: seq<Round>, r: Round, name: string)
    requires Tracks(timers, rounds) && OnceEach(r.pools)
    ensures TracksName(Kept(timers, r.pools, r.time), rounds + [r], name)
  {
    assert TracksName(timers, rounds, name);
    assert (rounds + [r])[..|rounds|] == rounds;
    AfterIs(timers, r.pools, r.time, name);
    if TroubleIn(r.pools, name) {
      var p :| p in r.pools && InTrouble(p, name);
      assert name in Names(r.pools);
    }
  }

  /** A report of trouble is earned: the trouble has lasted for the grace period. */
  ghost predicate Earned(rep: Report, rounds: seq<Round>, grace: real) {
    rep.round < |rounds| && rounds[rep.round].time == rep.time
    && if rep.state == Alerts.OK then !TroubleIn(rounds[rep.round].pools, rep.name)
       else Since(rounds[..rep.round + 1], rep.name).Some?
            && (grace == 0.0 || rep.time - Since(rounds[..rep.round + 1], rep.name).value >= grace)
  }

  ghost predicate AllEarned(reports: seq<Report>, rounds: seq<Round>, grace: real) {
    forall rep :: rep in reports ==> Earned(rep, rounds, grace)
  }

  lemma StillEarned(reports: seq<Report>, rounds: seq<Round>, r: Round, grace: real)
    requires AllEarned(reports, rounds, grace)
    ensures AllEarned(reports, rounds + [r], grace)
  {
    forall rep | rep in reports
      ensures Earned(rep, rounds + [r], grace)
    {
      assert Earned(rep, rounds, grace);
      assert (rounds + [r])[..rep.round + 1] == rounds[..rep.round + 1];
    }
  }

  /** A pool's timer does not depend on the pools before it in the round. */
  lemma OwnTimer(timers: Timers, pools: seq<Pool>, now: real, i: nat)
    requires OnceEach(pools) && i < |pools|
    ensures Began(After(timers, pools[..i], now), pools[i].name, now) == Began(timers, pools[i].name, now)
  {
    OnceEachTake(pools, i + 1);
    OnceEachTake(pools, i);
    assert pools[..i + 1][..i] == pools[..i];
    OnceEachFront(pools[..i + 1]);
    AfterIs(timers, pools[..i], now, pools[i].name);
  }

  lemma {:induction false} OnceEachTake(pools: seq<Pool>, i: nat)
    requires OnceEach(pools) && i <= |pools|
    ensures OnceEach(pools[..i])
    decreases |pools|
  {
    if i < |pools| {
      OnceEachFront(pools);
      OnceEachTake(pools[..|pools| - 1], i);
      assert pools[..|pools| - 1][..i] == pools[..i];
    } else {
      assert pools[..i] == pools;
    }
  }

  lemma ReportEarned(timers: Timers, rounds: seq<Round>, r: Round, grace: real, i: nat)
    requires Tracks(timers, rounds) && OnceEach(r.pools) && i < |r.pools|
    ensures AllEarned(ReportFor(After(timers, r.pools[..i], r.time), r.pools[i], r.time, grace, |rounds|),
                      rounds + [r], grace)
  {
    var p := r.pools[i];
    assert (rounds + [r])[..|rounds| + 1] == rounds + [r];
    assert (rounds + [r])[..|rounds|] == rounds;
    OwnTimer(timers, r.pools, r.time, i);
    assert TracksName(timers, rounds, p.name);
    if Watched(p) && Trouble(p).None? {
      OnlyOne(r.pools, i);
    }
    if Watched(p) && Trouble(p).Some? {
      assert InTrouble(p, p.name) && p in r.pools;
      assert Since(rounds + [r], p.name) == Some(Began(timers, p.name, r.time));
    }
  }

  lemma {:induction false} OnlyOne(pools: seq<Pool>, i: nat)
    requires OnceEach(pools) && i < |pools| && Trouble(pools[i]).None?
    ensures !TroubleIn(pools, pools[i].name)
    decreases |pools|
  {
    var n := |pools| - 1;
    LastPool(pools, pools[i].name);
    OnceEachFront(pools);
    if i < n {
      OnlyOne(pools[..n], i);
      assert pools[i] in pools[..n];
    }
  }

  function RoundReports(timers: Timers, pools: seq<Pool>, now: real, grace: real, round: nat): seq<Report> {
    if pools == [] then []
    else
      var n := |pools| - 1;
      RoundReports(timers, pools[..n], now, grace, round)
          + ReportFor(After(timers, pools[..n], now), pools[n], now, grace, round)
  }

  lemma {:induction false} RoundReportsOf(timers: Timers, pools: seq<Pool>, now: real, grace: real, round: nat, i: nat)
    requires OnceEach(pools) && i < |pools|
    ensures forall rep :: rep in ReportFor(timers, pools[i], now, grace, round) ==>
      rep in RoundReports(timers, pools, now, grace, round)
    decreases |pools|
  {
    var n := |pools| - 1;
    if i < n {
      OnceEachFront(pools);
      assert pools[i] == pools[..n][i];
      RoundReportsOf(timers, pools[..n], now, grace, round, i);
    } else {
      OwnTimer(timers, pools, now, n);
    }
  }

  /** A pool whose trouble has lasted for the grace period is reported in the round,
      and so is a watched pool that is well. */
  lemma ReportedInTime(timers: Timers, rounds: seq<Round>, r: Round, grace: real, p: Pool)
    requires Tracks(timers, rounds) && OnceEach(r.pools) && p in r.pools && Watched(p)
    ensures var reports := RoundReports(timers, r.pools, r.time, grace, |rounds|);
            (Trouble(p).None? ==> Report(p.name, Alerts.OK, r.time, |rounds|) in reports)
            && (Trouble(p).Some? ==> Since(rounds + [r], p.name).Some?)
            && (Trouble(p).Some? && (grace == 0.0 || r.time - Since(rounds + [r], p.name).value >= grace) ==>
                  Report(p.name, Trouble(p).value, r.time, |rounds|) in reports)
  {
    var i :| 0 <= i < |r.pools| && r.pools[i] == p;
    RoundReportsOf(timers, r.pools, r.time, grace, |rounds|, i);
    assert (rounds + [r])[..|rounds|] == rounds;
    assert TracksName(timers, rounds, p.name);
    assert Trouble(p).Some? ==> InTrouble(p, p.name);
  }

  // ----- what a round reports, in the pools' own terms -----

  /** An observed pool is down with no server up, degraded with some server down where every
      server matters, and well otherwise. */
  predicate Says(p: Pool, state: string) {
    !(p.internal || p.paused || p.mode.Off? || p.total == 0)
    && match state
       case "down" => p.up == 0
       case "degraded" => p.up != 0 && p.anyDown && p.mode.Servers?
       case "ok" => p.up != 0 && (p.mode.Servers? ==> !p.anyDown)
       case _ => false
  }

  lemma SaysIs(p: Pool)
    ensures Watched(p) && Trouble(p).None? <==> Says(p, "ok")
    ensures Watched(p) && Trouble(p).Some? <==> Says(p, "down") || Says(p, "degraded")
    ensures forall state :: state != "ok" ==> (Says(p, state) <==> Watched(p) && Trouble(p) == Some(state))
  {
  }

  /** In trouble is down or degraded. */
  lemma TroubleIs(pools: seq<Pool>, name: string)
    ensures TroubleIn(pools, name) <==>
      exists p :: p in pools && p.name == name && (Says(p, "down") || Says(p, "degraded"))
  {
    forall p: Pool
      ensures InTrouble(p, name) <==> p.name == name && (Says(p, "down") || Says(p, "degraded"))
    {
      SaysIs(p);
    }
  }

  /** Has the trouble of the last round lasted for the grace period? */
  ghost predicate Lasted(rounds: seq<Round>, name: string, grace: real) {
    rounds != [] && Since(rounds, name).Some?
    && (grace == 0.0 || Since(rounds, name).value + grace <= rounds[|rounds| - 1].time)
  }

  ghost predicate Calls(rounds: seq<Round>, p: Pool, rep: Report, grace: real) {
    rep.name == p.name && Says(p, rep.state) && (rep.state == "ok" || Lasted(rounds, p.name, grace))
  }

  /** A round reports of each observed pool what it is, and trouble only once it has lasted;
      it reports nothing else. */
  lemma ReportsExactly(timers: Timers, rounds: seq<Round>, r: Round, grace: real, rep: Report)
    requires Tracks(timers, rounds) && OnceEach(r.pools)
    ensures rep in RoundReports(timers, r.pools, r.time, grace, |rounds|) <==>
      rep.time == r.time && rep.round == |rounds|
      && exists p :: p in r.pools && Calls(rounds + [r], p, rep, grace)
  {
    if rep in RoundReports(timers, r.pools, r.time, grace, |rounds|) {
      var i := ReportedFor(timers, r.pools, r.time, grace, |rounds|, rep);
      PoolSays(timers, rounds, r, grace, r.pools[i], rep);
    }
    if p :| p in r.pools && Calls(rounds + [r], p, rep, grace) && rep.time == r.time && rep.round == |rounds| {
      PoolSays(timers, rounds, r, grace, p, rep);
      var i :| 0 <= i < |r.pools| && r.pools[i] == p;
      RoundReportsOf(timers, r.pools, r.time, grace, |rounds|, i);
    }
  }

  lemma {:induction false} ReportedFor(timers: Timers, pools: seq<Pool>, now: real, grace: real, round: nat,
          rep: Report)
    returns (i: nat)
    requires OnceEach(pools) && rep in RoundReports(timers, pools, now, grace, round)
    ensures i < |pools| && rep in ReportFor(timers, pools[i], now, grace, round)
    decreases |pools|
  {
    var n := |pools| - 1;
    OnceEachFront(pools);
    if rep in RoundReports(timers, pools[..n], now, grace, round) {
      i := ReportedFor(timers, pools[..n], now, grace, round, rep);
    } else {
      i := n;
      OwnTimer(timers, pools, now, n);
    }
  }

  lemma PoolSays(timers: Timers, rounds: seq<Round>, r: Round, grace: real, p: Pool, rep: Report)
    requires Tracks(timers, rounds) && p in r.pools
    ensures rep in ReportFor(timers, p, r.time, grace, |rounds|) <==>
      rep.time == r.time && rep.round == |rounds| && Calls(rounds + [r], p, rep, grace)
  {
    SaysIs(p);
    assert (rounds + [r])[..|rounds|] == rounds;
    assert TracksName(timers, rounds, p.name);
    if Watched(p) && Trouble(p).Some? {
      assert InTrouble(p, p.name);
      assert Since(rounds + [r], p.name) == Some(Began(timers, p.name, r.time));
    }
  }

  lemma {:induction false} RoundEarned(timers: Timers, rounds: seq<Round>, r: Round, grace: real, i: nat)
    requires Tracks(timers, rounds) && OnceEach(r.pools) && i <= |r.pools|
    ensures AllEarned(RoundReports(timers, r.pools[..i], r.time, grace, |rounds|), rounds + [r], grace)
  {
    if i > 0 {
      RoundEarned(timers, rounds, r, grace, i - 1);
      ReportEarned(timers, rounds, r, grace, i - 1);
      assert r.pools[..i][..i - 1] == r.pools[..i - 1];
    }
  }

  lemma EarnedTogether(a: seq<Report>, b: seq<Report>, rounds: seq<Round>, grace: real)
    requires AllEarned(a, rounds, grace) && AllEarned(b, rounds, grace)
    ensures AllEarned(a + b, rounds, grace)
  {
  }

  // ----- the watchdog's polls -----

  /** A poll, with what the pools were like then. It is skipped when the node is passive
      or HAProxy does not answer: nobody looks at the pools, and the timers stay. */
  datatype Look = Look(round: Round, skipped: bool)

  /** The rounds that are the polls not skipped. */
  function Checked(looks: seq<Look>): seq<Round> {
    if looks == [] then []
    else
      var n := |looks| - 1;
      Checked(looks[..n]) + if looks[n].skipped then [] else [looks[n].round]
  }

  /** The poll at which the running timer was started. */
  function Timer(looks: seq<Look>, name: string): (s: Option<nat>)
    ensures s.Some? ==> s.value < |looks|
  {
    if looks == [] then None
    else
      var n := |looks| - 1;
      if looks[n].skipped then Timer(looks[..n], name)
      else if !TroubleIn(looks[n].round.pools, name) then None
      else Some(Timer(looks[..n], name).Or(n))
  }

  lemma SincePush(rounds: seq<Round>, r: Round, name: string)
    ensures Since(rounds + [r], name)
         == if TroubleIn(r.pools, name) then Some(Since(rounds, name).Or(r.time)) else None
  {
    assert (rounds + [r])[..|rounds|] == rounds;
  }

  lemma {:induction false} TimerIsSince(looks: seq<Look>, name: string)
    ensures Since(Checked(looks), name)
         == var s := Timer(looks, name); if s.Some? then Some(looks[s.value].round.time) else None
  {
    if looks != [] {
      var n := |looks| - 1;
      TimerIsSince(looks[..n], name);
      if looks[n].skipped {
        assert Checked(looks) == Checked(looks[..n]);
      } else {
        SincePush(Checked(looks[..n]), looks[n].round, name);
      }
    }
  }

  /** At every poll from s on the pool was in trouble. */
  ghost predicate Steady(looks: seq<Look>, name: string, s: nat) {
    forall j :: s <= j < |looks| ==> TroubleIn(looks[j].round.pools, name)
  }

  lemma {:induction false} TimerSeen(looks: seq<Look>, name: string, j: nat)
    requires Timer(looks, name).Some? && Timer(looks, name).value <= j < |looks| && !looks[j].skipped
    ensures TroubleIn(looks[j].round.pools, name)
    decreases |looks|
  {
    var n := |looks| - 1;
    if j < n {
      TimerSeen(looks[..n], name, j);
    }
  }

  /** The same as far as anybody looked. */
  ghost predicate SameSeen(a: seq<Look>, b: seq<Look>) {
    |a| == |b| && forall j :: 0 <= j < |a| ==>
      a[j].skipped == b[j].skipped && (!a[j].skipped ==> a[j] == b[j])
  }

  lemma {:induction false} SameTimer(a: seq<Look>, b: seq<Look>, name: string)
    requires SameSeen(a, b)
    ensures Timer(a, name) == Timer(b, name)
  {
    if a != [] {
      var n := |a| - 1;
      SameTimer(a[..n], b[..n], name);
    }
  }

  /** A running timer stands for unbroken trouble, whatever happened while nobody looked,
      exactly when no poll has been skipped since it was started. */
  lemma SteadyUnlessSkipped(looks: seq<Look>, name: string, s: nat)
    requires Timer(looks, name) == Some(s)
    ensures (forall seen: seq<Look> :: SameSeen(looks, seen) ==> Steady(seen, name, s))
       <==> forall j :: s <= j < |looks| ==> !looks[j].skipped
  {
    if j :| s <= j < |looks| && looks[j].skipped {
      var well := looks[j := Look(Round(looks[j].round.time, []), true)];
      assert SameSeen(looks, well) && !TroubleIn(well[j].round.pools, name);
      assert !Steady(well, name, s);
    } else {
      forall seen: seq<Look> | SameSeen(looks, seen)
        ensures Steady(seen, name, s)
      {
        SameTimer(looks, seen, name);
        forall j | s <= j < |looks|
          ensures TroubleIn(seen[j].round.pools, name)
        {
          TimerSeen(seen, name, j);
        }
      }
    }
  }

  /** The round that a poll made. */
  lemma {:induction false} PollOfRound(looks: seq<Look>, i: nat) returns (k: nat)
    requires i < |Checked(looks)|
    ensures k < |looks| && !looks[k].skipped && looks[k].round == Checked(looks)[i]
    ensures Checked(looks[..k + 1]) == Checked(looks)[..i + 1]
  {
    var n := |looks| - 1;
    if looks[n].skipped || i < |Checked(looks)| - 1 {
      k := PollOfRound(looks[..n], i);
      assert looks[..n][..k + 1] == looks[..k + 1];
      assert Checked(looks)[..i + 1] == Checked(looks[..n])[..i + 1];
    } else {
      k := n;
      assert looks[..n + 1] == looks;
    }
  }

  lemma SinceTwice(a: Round, c: Round, name: string)
    requires TroubleIn(a.pools, name) && TroubleIn(c.pools, name)
    ensures Since([a] + [c], name) == Some(a.time)
  {
    SincePush([], a, name);
    assert [] + [a] == [a];
    SincePush([a], c, name);
  }

  lemma TimerPush(looks: seq<Look>, l: Look, name: string)
    ensures Timer(looks + [l], name)
         == if l.skipped then Timer(looks, name)
            else if TroubleIn(l.round.pools, name) then Some(Timer(looks, name).Or(|looks|))
            else None
    ensures Checked(looks + [l]) == Checked(looks) + if l.skipped then [] else [l.round]
  {
    assert (looks + [l])[..|looks|] == looks;
  }

  /** A pool is down, recovers while the node is passive, and is down again when the node
      is active: it is reported at once, as if it had been down all the time. */
  lemma ReportedAcrossGap(p: Pool, well: seq<Pool>, first: real, between: real, last: real, grace: real)
    requires Watched(p) && Trouble(p).Some? && !TroubleIn(well, p.name) && first < between < last
    requires last - first >= grace
    ensures var before := [Look(Round(first, [p]), false)] + [Look(Round(between, well), true)];
            var looks := before + [Look(Round(last, [p]), false)];
            && !Steady(looks, p.name, 0) && Timer(looks, p.name) == Some(0)
            && forall timers :: Tracks(timers, Checked(before)) ==>
                 Report(p.name, Trouble(p).value, last, 1) in RoundReports(timers, [p], last, grace, 1)
  {
    var a, b, c := Look(Round(first, [p]), false), Look(Round(between, well), true), Look(Round(last, [p]), false);
    var before := [a] + [b];
    assert p in [p] && InTrouble(p, p.name);
    assert [] + [a] == [a];
    TimerPush([], a, p.name);
    TimerPush([a], b, p.name);
    TimerPush(before, c, p.name);
    assert (before + [c])[1] == b;
    assert Checked(before) == [a.round];
    forall timers | Tracks(timers, Checked(before))
      ensures Report(p.name, Trouble(p).value, last, 1) in RoundReports(timers, [p], last, grace, 1)
    {
      SinceTwice(a.round, c.round, p.name);
      ReportedInTime(timers, [a.round], c.round, grace, p);
    }
  }

  // ----- from reports to alerts -----

  function Key(name: string): string {
    "service:" + name
  }

  predicate IsService(key: string) {
    "service:" <= key
  }

  /** An attempt to tell of this report. */
  predicate TellsOf(a: Alerts.Attempt, rep: Report) {
    a.key == Key(rep.name) && a.state == rep.state && a.time == rep.time
  }

  /** Reporting adds one attempt, for that report, when it is news, and else nothing. */
  ghost predicate Told(before: seq<Alerts.Attempt>, after: seq<Alerts.Attempt>, rep: Report, repeatAfter: real) {
    if Alerts.News(Alerts.Last(before, Key(rep.name)), rep.state, rep.time, repeatAfter) then
      |after| == |before| + 1 && after[..|before|] == before && TellsOf(after[|before|], rep)
    else after == before
  }

  ghost predicate ToldAll(before: seq<Alerts.Attempt>, after: seq<Alerts.Attempt>, reports: seq<Report>,
          repeatAfter: real)
    decreases |reports|
  {
    if reports == [] then after == before
    else
      var n := |reports| - 1;
      exists mid :: ToldAll(before, mid, reports[..n], repeatAfter) && Told(mid, after, reports[n], repeatAfter)
  }

  ghost predicate ToldOne(before: seq<Alerts.Attempt>, after: seq<Alerts.Attempt>, reports: seq<Report>,
          repeatAfter: real)
  {
    if reports == [] then after == before else Told(before, after, reports[0], repeatAfter)
  }

  lemma NextPool(timers: Timers, pools: seq<Pool>, i: nat, now: real, grace: real, round: nat)
    requires i < |pools|
    ensures After(timers, pools[..i + 1], now) == Next(After(timers, pools[..i], now), pools[i], now)
    ensures RoundReports(timers, pools[..i + 1], now, grace, round)
        == RoundReports(timers, pools[..i], now, grace, round)
              + ReportFor(After(timers, pools[..i], now), pools[i], now, grace, round)
    ensures |ReportFor(After(timers, pools[..i], now), pools[i], now, grace, round)| <= 1
  {
    assert pools[..i + 1][..i] == pools[..i];
  }

  lemma ToldNext(before: seq<Alerts.Attempt>, mid: seq<Alerts.Attempt>, after: seq<Alerts.Attempt>,
          reports: seq<Report>, next: seq<Report>, repeatAfter: real)
    requires ToldAll(before, mid, reports, repeatAfter) && |next| <= 1 && ToldOne(mid, after, next, repeatAfter)
    ensures ToldAll(before, after, reports + next, repeatAfter)
  {
    if next == [] {
      assert reports + next == reports;
    } else {
      var all := reports + next;
      assert all[..|all| - 1] == reports && all[|all| - 1] == next[0];
      assert ToldAll(before, mid, all[..|all| - 1], repeatAfter) && Told(mid, after, all[|all| - 1], repeatAfter);
    }
  }

  /** Every attempt to tell of a service is for one of the reports. */
  ghost predicate Backed(attempts: seq<Alerts.Attempt>, reports: seq<Report>) {
    forall a :: a in attempts && IsService(a.key) ==> BackedBy(a, reports)
  }

  ghost predicate BackedBy(a: Alerts.Attempt, reports: seq<Report>) {
    exists rep :: rep in reports && TellsOf(a, rep)
  }

  lemma ToldBacked(before: seq<Alerts.Attempt>, after: seq<Alerts.Attempt>, reports: seq<Report>, rep: Report,
          repeatAfter: real)
    requires Backed(before, reports) && Told(before, after, rep, repeatAfter)
    ensures Backed(after, reports + [rep])
  {
    forall a | a in after && IsService(a.key)
      ensures BackedBy(a, reports + [rep])
    {
      if a in before {
        var back :| back in reports && TellsOf(a, back);
        assert back in reports + [rep];
      } else {
        OnlyAdded(before, after, a);
        assert rep in reports + [rep];
      }
    }
  }

  lemma OnlyAdded<T>(before: seq<T>, after: seq<T>, a: T)
    requires a in after && a !in before
    requires after == before || (|after| == |before| + 1 && after[..|before|] == before)
    ensures |after| == |before| + 1 && a == after[|before|]
  {
    if after != before {
      assert after == before + [after[|before|]];
    }
  }

  lemma {:induction false} ToldAllBacked(before: seq<Alerts.Attempt>, after: seq<Alerts.Attempt>, told: seq<Report>,
          reports: seq<Report>, repeatAfter: real)
    requires Backed(before, told) && ToldAll(before, after, reports, repeatAfter)
    ensures Backed(after, told + reports)
    decreases |reports|
  {
    if reports == [] {
      assert told + reports == told;
    } else {
      var n := |reports| - 1;
      var mid :| ToldAll(before, mid, reports[..n], repeatAfter) && Told(mid, after, reports[n], repeatAfter);
      ToldAllBacked(before, mid, told, reports[..n], repeatAfter);
      ToldBacked(mid, after, told + reports[..n], reports[n], repeatAfter);
      assert told + reports[..n] + [reports[n]] == told + reports;
    }
  }

  /** The poll was made at this time, and the timer had then been running for the grace
      period. */
  ghost predicate AlertDue(looks: seq<Look>, k: nat, name: string, grace: real, now: real) {
    k < |looks| && !looks[k].skipped && looks[k].round.time == now &&
    var s := Timer(looks[..k + 1], name);
    s.Some? && (grace == 0.0 || now - looks[s.value].round.time >= grace)
  }

  // ----- the watch -----

  class ServiceWatch {
    var timers: Timers
    const notifier: Alerts.Notifier
    const grace: real
    ghost var rounds: seq<Round>
    ghost var reports: seq<Report>
    ghost var looks: seq<Look>

    ghost predicate Valid()
      reads this, notifier
    {
      Tracks(timers, rounds) && AllEarned(reports, rounds, grace) && notifier.Valid()
      && Backed(notifier.attempts, reports)
    }

    /** The rounds are those of the polls so far. */
    ghost predicate Polling()
      reads this, notifier
    {
      Valid() && rounds == Checked(looks)
    }

    constructor (n: Alerts.Notifier, grace: real)
      requires n.Valid() && Backed(n.attempts, [])
      ensures Polling() && rounds == [] && reports == [] && looks == [] && notifier == n && this.grace == grace
    {
      timers, notifier, this.grace := map[], n, grace;
      rounds, reports, looks := [], [], [];
    }

    /** `poll`, as far as the services are concerned. */
    method Poll(n: Alerts.Settings, r: Round, answered: bool, passive: bool, reached: nat)
      requires Polling() && OnceEach(r.pools)
      modifies this`timers, this`rounds, this`reports, this`looks, notifier
      ensures Polling() && looks == old(looks) + [Look(r, !answered || passive)]
      ensures timers == if answered && !passive then Kept(old(timers), r.pools, r.time) else old(timers)
      ensures !answered || passive ==> notifier.attempts == old(notifier.attempts)
      ensures answered && !passive ==>
        ToldAll(old(notifier.attempts), notifier.attempts,
                RoundReports(old(timers), r.pools, r.time, grace, |old(rounds)|), n.repeatAfter)
    {
      ghost var before, next := looks, Look(r, !answered || passive);
      assert (before + [next])[..|before|] == before;
      looks := before + [next];
      if !answered {
        return;
      }
      if !passive {
        CheckServices(n, r, reached);
      }
    }

    /** `check_services`: in every run, each report of trouble is earned by a streak
        of rounds, and all a round's reports leave through one batch. */
    method CheckServices(n: Alerts.Settings, r: Round, reached: nat)
      requires Valid() && OnceEach(r.pools)
      modifies this`timers, this`rounds, this`reports, notifier
      ensures Valid() && rounds == old(rounds) + [r] && !notifier.active
      ensures timers == Kept(old(timers), r.pools, r.time)
      ensures reports == old(reports) + RoundReports(old(timers), r.pools, r.time, grace, |old(rounds)|)
      ensures ToldAll(old(notifier.attempts), notifier.attempts,
                      RoundReports(old(timers), r.pools, r.time, grace, |old(rounds)|), n.repeatAfter)
    {
      ghost var start, told, attempts := timers, reports, notifier.attempts;
      notifier.BatchBegin();
      CheckPools(n, r.pools, r.time);
      timers := map name | name in timers && name in Names(r.pools) :: timers[name];
      var _ := notifier.BatchEnd(n, r.time, reached);
      StillEarned(told, rounds, r, grace);
      assert r.pools[..|r.pools|] == r.pools;
      RoundEarned(start, rounds, r, grace, |r.pools|);
      EarnedTogether(told, RoundReports(start, r.pools, r.time, grace, |rounds|), rounds + [r], grace);
      KeptTracks(start, rounds, r);
      ToldAllBacked(attempts, notifier.attempts, told, RoundReports(start, r.pools, r.time, grace, |rounds|),
          n.repeatAfter);
      rounds := rounds + [r];
    }

    /** In every run, whenever somebody was to be told that a service is in trouble, it
        had been in trouble in every round for the grace period. */
    lemma AlertsAreEarned(a: Alerts.Attempt, name: string)
      requires Valid() && a in notifier.attempts && a.key == Key(name) && a.state != Alerts.OK
      ensures exists k :: 0 <= k < |rounds| && rounds[k].time == a.time && Since(rounds[..k + 1], name).Some?
                       && (grace == 0.0 || a.time - Since(rounds[..k + 1], name).value >= grace)
    {
      var rep :| rep in reports && TellsOf(a, rep);
      assert Key(name)[|"service:"|..] == name && Key(rep.name)[|"service:"|..] == rep.name;
      assert Earned(rep, rounds, grace);
    }

    /** In every sequence of polls, an alert of trouble came at a poll whose timer had
        been running for the grace period. Whether the trouble was unbroken between is
        what `SteadyUnlessSkipped` says. */
    lemma AlertsAtPolls(a: Alerts.Attempt, name: string)
      requires Polling() && a in notifier.attempts && a.key == Key(name) && a.state != Alerts.OK
      ensures exists k :: AlertDue(looks, k, name, grace, a.time)
    {
      AlertsAreEarned(a, name);
      var i :| 0 <= i < |rounds| && rounds[i].time == a.time && Since(rounds[..i + 1], name).Some?
        && (grace == 0.0 || a.time - Since(rounds[..i + 1], name).value >= grace);
      var k := PollOfRound(looks, i);
      TimerIsSince(looks[..k + 1], name);
      assert AlertDue(looks, k, name, grace, a.time);
    }

    method CheckPools(n: Alerts.Settings, pools: seq<Pool>, now: real)
      requires notifier.Valid()
      modifies this`timers, this`reports, notifier
      ensures notifier.Valid() && timers == After(old(timers), pools, now)
      ensures reports == old(reports) + RoundReports(old(timers), pools, now, grace, |rounds|)
      ensures ToldAll(old(notifier.attempts), notifier.attempts,
                      RoundReports(old(timers), pools, now, grace, |rounds|), n.repeatAfter)
    {
      ghost var start, told, attempts := timers, reports, notifier.attempts;
      for i := 0 to |pools|
        invariant timers == After(start, pools[..i], now) && notifier.Valid()
        invariant reports == told + RoundReports(start, pools[..i], now, grace, |rounds|)
        invariant ToldAll(attempts, notifier.attempts, RoundReports(start, pools[..i], now, grace, |rounds|),
            n.repeatAfter)
      {
        CheckNext(n, pools, i, now, start, told, attempts);
      }
      assert pools[..|pools|] == pools;
    }

    method CheckNext(n: Alerts.Settings, pools: seq<Pool>, i: nat, now: real, ghost start: Timers,
            ghost told: seq<Report>, ghost attempts: seq<Alerts.Attempt>)
      requires i < |pools| && notifier.Valid() && timers == After(start, pools[..i], now)
      requires reports == told + RoundReports(start, pools[..i], now, grace, |rounds|)
      requires ToldAll(attempts, notifier.attempts, RoundReports(start, pools[..i], now, grace, |rounds|),
          n.repeatAfter)
      modifies this`timers, this`reports, notifier
      ensures notifier.Valid() && timers == After(start, pools[..i + 1], now)
      ensures reports == told + RoundReports(start, pools[..i + 1], now, grace, |rounds|)
      ensures ToldAll(attempts, notifier.attempts, RoundReports(start, pools[..i + 1], now, grace, |rounds|),
          n.repeatAfter)
    {
      NextPool(start, pools, i, now, grace, |rounds|);
      ghost var mid, next := notifier.attempts, ReportFor(timers, pools[i], now, grace, |rounds|);
      CheckPool(n, pools[i], now);
      ToldNext(attempts, mid, notifier.attempts, RoundReports(start, pools[..i], now, grace, |rounds|), next,
          n.repeatAfter);
    }

    method CheckPool(n: Alerts.Settings, p: Pool, now: real)
      requires notifier.Valid()
      modifies this`timers, this`reports, notifier
      ensures notifier.Valid() && timers == Next(old(timers), p, now)
      ensures reports == old(reports) + ReportFor(old(timers), p, now, grace, |rounds|)
      ensures ToldOne(old(notifier.attempts), notifier.attempts, ReportFor(old(timers), p, now, grace, |rounds|),
          n.repeatAfter)
    {
      if !Watched(p) {
        return;
      }
      var trouble := Trouble(p);
      if trouble.Some? {
        var began := Began(timers, p.name, now);
        timers := timers[p.name := began];
        if Waits(began, now, grace) {
          return;
        }
      } else {
        timers := timers - {p.name};
      }
      var state := trouble.Or(Alerts.OK);
      var severity := if trouble.None? then 0 else if trouble.value == "down" then 2 else 1;
      var _ := notifier.Transition(n, Key(p.name), state, "service", p.name, severity, now, 0);
      reports := reports + [Report(p.name, state, now, |rounds|)];
    }
  }
}
