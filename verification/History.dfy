/** A node's record of what it holds: the revision, the fingerprint and the history
    of snapshots (ham/config.py, `save_config` and `_snapshot`). */
module History {
  import opened Options

  datatype Snapshot<+V> = Snapshot(rev: nat, fp: V)

  /** What config.json and the history directory hold of a shared view. A fingerprint
      is an injective tag of the view, which serves as its own tag. A node that has
      never saved has no fingerprint, and revision 0. */
  datatype Stored<+V> = Stored(shared: V, rev: nat, fp: Option<V>, leak: bool, history: seq<Snapshot<V>>)

  const HISTORY_KEEP: nat := 50

  function Recorded<V(==)>(history: seq<Snapshot<V>>, s: Snapshot<V>): seq<Snapshot<V>> {
    if |history| > 0 && history[|history| - 1].fp == s.fp then history
    else
      var longer := history + [s];
      if |longer| > HISTORY_KEEP then longer[|longer| - HISTORY_KEEP..] else longer
  }

  /** Writing the configuration back with these shared sections. The revision
      moves exactly when the fingerprint does. */
  function Saved<V(==)>(n: Stored<V>, x: V): Stored<V> {
    var rev := if n.fp == Some(x) then n.rev else n.rev + 1;
    Stored(x, rev, Some(x), n.leak, Recorded(n.history, Snapshot(rev, x)))
  }

  /** Only a change of the shared sections moves the revision, by exactly one. */
  lemma SaveCounts<V>(n: Stored<V>, x: V)
    ensures Saved(n, x).rev == n.rev <==> n.fp == Some(x)
    ensures Saved(n, x).rev == n.rev || Saved(n, x).rev == n.rev + 1
    ensures Saved(Saved(n, x), x) == Saved(n, x)
  {
  }

  // ---- history ------------------------------------------------------------------

  ghost predicate GoodHistory<V>(h: seq<Snapshot<V>>) {
    |h| <= HISTORY_KEEP && forall i :: 0 < i < |h| ==> h[i - 1].fp != h[i].fp
  }

  /** After every save the newest snapshot is the current state and neighbours differ. A
      snapshot that says something new is added behind the others; of fifty the oldest
      goes for it. */
  lemma SaveKeepsHistory<V>(n: Stored<V>, x: V)
    requires GoodHistory(n.history)
    ensures var h := Saved(n, x).history;
      && GoodHistory(h) && |h| > 0 && h[|h| - 1].fp == x
      && if n.history != [] && n.history[|n.history| - 1].fp == x then h == n.history
         else h == n.history[if |n.history| < 50 then 0 else 1..] + [Snapshot(Saved(n, x).rev, x)]
  {
  }
}
