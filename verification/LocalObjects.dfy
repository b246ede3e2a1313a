/** Which objects travel to the other nodes and which stay: merged,
    move_to_local and promote_local of ham/config.py. */
module LocalObjects {
  import opened Options

  type Id = string
  type Key = string

  /** An object of any collection; only listeners carry the two lists. */
  datatype Obj = Obj(id: Id, name: string, localOnly: bool, rules: Option<seq<Id>>,
                     certificates: Option<seq<Id>>, body: int)

  /** What a listener had of this node's own, and at which positions. */
  datatype Slot = Slot(at: map<Id, nat>, rules: seq<Id>, certificates: seq<Id>)

  datatype Config = Config(shared: map<Key, seq<Obj>>, own: map<Key, seq<Obj>>, attach: map<string, Slot>)

  const LISTENERS: Key := "haproxy.frontends"

  // ---- list surgery ---------------------------------------------------------------

  function Keep(xs: seq<Id>, ids: set<Id>): seq<Id> {
    if xs == [] then [] else (if xs[0] in ids then [] else [xs[0]]) + Keep(xs[1..], ids)
  }

  function Take(xs: seq<Id>, ids: set<Id>): seq<Id> {
    if xs == [] then [] else (if xs[0] in ids then [xs[0]] else []) + Take(xs[1..], ids)
  }

  /** The first position of x. */
  function IndexOf(xs: seq<Id>, x: Id): nat
    requires x in xs
  {
    if xs[0] == x then 0 else 1 + IndexOf(xs[1..], x)
  }

  function Without(xs: seq<Id>, ys: seq<Id>): seq<Id> {
    if xs == [] then [] else (if xs[0] in ys then [] else [xs[0]]) + Without(xs[1..], ys)
  }

  /** One by one back to the recorded position, or to the end. */
  function Reinsert(have: seq<Id>, extra: seq<Id>, at: map<Id, nat>): seq<Id>
    decreases |extra|
  {
    if extra == [] then have
    else
      var x := extra[0];
      var next := if x in at && at[x] <= |have| then have[..at[x]] + [x] + have[at[x]..] else have + [x];
      Reinsert(next, extra[1..], at)
  }

  // ---- what reinserting does to any list ---------------------------------------------

  /** Some of b, in the order of b. */
  ghost predicate Within(a: seq<Id>, b: seq<Id>) {
    a == [] || (b != [] && ((a[0] == b[0] && Within(a[1..], b[1..])) || Within(a, b[1..])))
  }

  lemma {:induction false} WithinSelf(a: seq<Id>)
    ensures Within(a, a)
  {
    if a != [] {
      WithinSelf(a[1..]);
    }
  }

  lemma {:induction false} WithinOneMore(a: seq<Id>, x: Id, b: seq<Id>)
    ensures Within(a + b, a + [x] + b)
  {
    if a == [] {
      assert [] + b == b && ([] + [x] + b)[1..] == b;
      WithinSelf(b);
    } else {
      WithinOneMore(a[1..], x, b);
      assert (a + b)[1..] == a[1..] + b && (a + [x] + b)[1..] == a[1..] + [x] + b;
    }
  }

  lemma {:induction false} WithinTrans(a: seq<Id>, b: seq<Id>, c: seq<Id>)
    requires Within(a, b) && Within(b, c)
    ensures Within(a, c)
    decreases |c|
  {
    if a != [] {
      if b[0] == c[0] && Within(b[1..], c[1..]) {
        if a[0] == b[0] && Within(a[1..], b[1..]) {
          WithinTrans(a[1..], b[1..], c[1..]);
        } else {
          WithinTrans(a, b[1..], c[1..]);
        }
      } else {
        WithinTrans(a, b, c[1..]);
      }
    }
  }

  /** Is there a place for x at its recorded position in a list of this length? */
  predicate Usable(at: map<Id, nat>, x: Id, length: nat) {
    x in at && at[x] <= length
  }

  /** One id: at its position if that is usable, and else behind everything. */
  lemma ReinsertFirst(have: seq<Id>, x: Id, rest: seq<Id>, at: map<Id, nat>)
    ensures Usable(at, x, |have|) ==>
      Reinsert(have, [x] + rest, at) == Reinsert(have[..at[x]] + [x] + have[at[x]..], rest, at)
    ensures !Usable(at, x, |have|) ==> Reinsert(have, [x] + rest, at) == Reinsert(have + [x], rest, at)
  {
    assert ([x] + rest)[1..] == rest;
  }

  lemma SplitBack(have: seq<Id>, p: nat)
    requires p <= |have|
    ensures have[..p] + have[p..] == have
  {
  }

  lemma OneMore(a: seq<Id>, x: Id, b: seq<Id>)
    ensures multiset(a + [x] + b) == multiset(a + b) + multiset{x}
  {
  }

  lemma InsertKeeps(have: seq<Id>, x: Id, p: nat)
    requires p <= |have|
    ensures multiset(have[..p] + [x] + have[p..]) == multiset(have) + multiset{x}
    ensures Within(have, have[..p] + [x] + have[p..])
  {
    SplitBack(have, p);
    OneMore(have[..p], x, have[p..]);
    WithinOneMore(have[..p], x, have[p..]);
  }

  /** Whatever the list and the slot: nothing is lost and nothing made up, and what was
      listed keeps its order. */
  lemma {:induction false} ReinsertKeepsAll(have: seq<Id>, extra: seq<Id>, at: map<Id, nat>)
    ensures multiset(Reinsert(have, extra, at)) == multiset(have) + multiset(extra)
    ensures Within(have, Reinsert(have, extra, at))
    decreases |extra|
  {
    if extra == [] {
      WithinSelf(have);
    } else {
      var x, rest := extra[0], extra[1..];
      assert extra == [x] + rest;
      var p := if Usable(at, x, |have|) then at[x] else |have|;
      var next := have[..p] + [x] + have[p..];
      assert p == |have| ==> next == have + [x];
      ReinsertFirst(have, x, rest, at);
      InsertKeeps(have, x, p);
      ReinsertKeepsAll(next, rest, at);
      WithinTrans(have, next, Reinsert(have, extra, at));
    }
  }

  lemma {:induction false} ReinsertInTurn(have: seq<Id>, a: seq<Id>, b: seq<Id>, at: map<Id, nat>)
    ensures Reinsert(have, a + b, at) == Reinsert(Reinsert(have, a, at), b, at)
    decreases |a|
  {
    if a == [] {
      assert a + b == b;
    } else {
      var x, rest := a[0], a[1..];
      assert a == [x] + rest && a + b == [x] + (rest + b);
      ReinsertFirst(have, x, rest, at);
      ReinsertFirst(have, x, rest + b, at);
      var p := if Usable(at, x, |have|) then at[x] else |have|;
      assert p == |have| ==> have[..p] + [x] + have[p..] == have + [x];
      ReinsertInTurn(have[..p] + [x] + have[p..], rest, b, at);
    }
  }

  /** Each id in turn goes to its position among all that is there by then; one that has
      no usable position stands behind all of that, also in the end. */
  lemma EachReinserted(have: seq<Id>, extra: seq<Id>, at: map<Id, nat>, i: nat)
    requires i < |extra|
    ensures var there, x := Reinsert(have, extra[..i], at), extra[i];
      Within(if Usable(at, x, |there|) then there[..at[x]] + [x] + there[at[x]..] else there + [x],
             Reinsert(have, extra, at))
  {
    var there, x := Reinsert(have, extra[..i], at), extra[i];
    assert extra == extra[..i] + ([x] + extra[i + 1..]);
    ReinsertInTurn(have, extra[..i], [x] + extra[i + 1..], at);
    ReinsertFirst(there, x, extra[i + 1..], at);
    var p := if Usable(at, x, |there|) then at[x] else |there|;
    ReinsertKeepsAll(there[..p] + [x] + there[p..], extra[i + 1..], at);
    assert p == |there| ==> there[..p] + [x] + there[p..] == there + [x];
  }

  predicate NoDuplicates(xs: seq<Id>) {
    forall i, j :: 0 <= i < j < |xs| ==> xs[i] != xs[j]
  }

  lemma {:induction false} IndexOfAt(xs: seq<Id>, n: nat)
    requires NoDuplicates(xs) && n < |xs|
    ensures xs[n] in xs && IndexOf(xs, xs[n]) == n
  {
    if n > 0 {
      assert xs[1..][n - 1] == xs[n];
      IndexOfAt(xs[1..], n - 1);
    }
  }

  lemma {:induction false} TakeMember(xs: seq<Id>, ids: set<Id>, x: Id)
    ensures x in Take(xs, ids) <==> x in xs && x in ids
    ensures x in Keep(xs, ids) <==> x in xs && x !in ids
  {
    if xs != [] {
      TakeMember(xs[1..], ids, x);
    }
  }

  /** The positions of everything taken. */
  ghost predicate Placed(xs: seq<Id>, ids: set<Id>, at: map<Id, nat>) {
    forall x :: x in xs && x in ids ==> x in at && at[x] == IndexOf(xs, x)
  }

  lemma StepAt(xs: seq<Id>, ids: set<Id>, n: nat)
    requires n < |xs|
    ensures var rest := xs[n + 1..];
      && Take(xs[n..], ids) == (if xs[n] in ids then [xs[n]] else []) + Take(rest, ids)
      && xs[..n] + Keep(xs[n..], ids)
         == (if xs[n] in ids then xs[..n] else xs[..n + 1]) + Keep(rest, ids)
  {
    assert xs[n..][1..] == xs[n + 1..];
  }

  lemma InsertAt(xs: seq<Id>, n: nat, rest: seq<Id>)
    requires n < |xs|
    ensures var have := xs[..n] + rest; have[..n] + [xs[n]] + have[n..] == xs[..n + 1] + rest
  {
  }

  /** Putting the taken ones back, first to last, rebuilds the list. */
  lemma {:induction false} ReinsertFrom(xs: seq<Id>, ids: set<Id>, at: map<Id, nat>, n: nat)
    requires NoDuplicates(xs) && Placed(xs, ids, at) && n <= |xs|
    ensures Reinsert(xs[..n] + Keep(xs[n..], ids), Take(xs[n..], ids), at) == xs
    decreases |xs| - n
  {
    if n == |xs| {
      assert xs[..n] + Keep(xs[n..], ids) == xs;
    } else {
      ReinsertFrom(xs, ids, at, n + 1);
      StepAt(xs, ids, n);
      if xs[n] in ids {
        IndexOfAt(xs, n);
        InsertAt(xs, n, Keep(xs[n + 1..], ids));
        ReinsertStep(xs[..n] + Keep(xs[n + 1..], ids), xs[n], Take(xs[n + 1..], ids), at);
      } else {
        assert [] + Take(xs[n + 1..], ids) == Take(xs[n + 1..], ids);
      }
    }
  }

  lemma ReinsertStep(have: seq<Id>, x: Id, more: seq<Id>, at: map<Id, nat>)
    requires x in at && at[x] <= |have|
    ensures Reinsert(have, [x] + more, at) == Reinsert(have[..at[x]] + [x] + have[at[x]..], more, at)
  {
    assert ([x] + more)[1..] == more;
  }

  lemma Rebuilds(xs: seq<Id>, ids: set<Id>, at: map<Id, nat>)
    requires NoDuplicates(xs) && Placed(xs, ids, at)
    ensures Reinsert(Keep(xs, ids), Take(xs, ids), at) == xs
  {
    ReinsertFrom(xs, ids, at, 0);
    assert xs[..0] + Keep(xs[0..], ids) == Keep(xs, ids);
    assert xs[0..] == xs;
  }

  // ---- listeners ------------------------------------------------------------------

  /** The positions a move writes down for one list. */
  function Positions(xs: seq<Id>, ids: set<Id>): map<Id, nat> {
    map x | x in xs && x in ids :: IndexOf(xs, x)
  }

  function StripList(xs: Option<seq<Id>>, ids: set<Id>): Option<seq<Id>> {
    if xs.None? then None else Some(Keep(xs.value, ids))
  }

  /** A listener without what stays here. */
  function Stripped(fe: Obj, ids: set<Id>): Obj {
    fe.(rules := StripList(fe.rules, ids), certificates := StripList(fe.certificates, ids))
  }

  predicate Touches(xs: Option<seq<Id>>, ids: set<Id>) {
    xs.Some? && Take(xs.value, ids) != []
  }

  const EMPTY_SLOT: Slot := Slot(map[], [], [])

  /** The attachment record after one listener has been stripped. */
  function Attached(attach: map<string, Slot>, fe: Obj, ids: set<Id>): map<string, Slot> {
    var first := if Touches(fe.rules, ids) then
        var xs := fe.rules.value;
        var s := if fe.name in attach then attach[fe.name] else EMPTY_SLOT;
        attach[fe.name := s.(at := s.at + Positions(xs, ids),
                             rules := Without(s.rules, Take(xs, ids)) + Take(xs, ids))]
      else attach;
    if Touches(fe.certificates, ids) then
      var xs := fe.certificates.value;
      var s := if fe.name in first then first[fe.name] else EMPTY_SLOT;
      first[fe.name := s.(at := s.at + Positions(xs, ids),
                          certificates := Without(s.certificates, Take(xs, ids)) + Take(xs, ids))]
    else first
  }

  function AttachedAll(attach: map<string, Slot>, fes: seq<Obj>, ids: set<Id>): map<string, Slot> {
    if |fes| == 0 then attach
    else Attached(AttachedAll(attach, fes[..|fes| - 1], ids), fes[|fes| - 1], ids)
  }

  function StrippedAll(fes: seq<Obj>, ids: set<Id>): (r: seq<Obj>)
    ensures |r| == |fes| && forall i :: 0 <= i < |fes| ==> r[i] == Stripped(fes[i], ids)
  {
    seq(|fes|, i requires 0 <= i < |fes| => Stripped(fes[i], ids))
  }

  /** A list with its attachments back in place; a list with nothing attached is
      not touched. */
  function Refill(xs: Option<seq<Id>>, mine: seq<Id>, at: map<Id, nat>): Option<seq<Id>> {
    var extra := Without(mine, xs.Or([]));
    if extra == [] then xs else Some(Reinsert(xs.Or([]), extra, at))
  }

  function Refilled(fe: Obj, attach: map<string, Slot>): Obj {
    if fe.name !in attach then fe
    else
      var s := attach[fe.name];
      fe.(rules := Refill(fe.rules, s.rules, s.at), certificates := Refill(fe.certificates, s.certificates, s.at))
  }

  function RefilledAll(fes: seq<Obj>, attach: map<string, Slot>): (r: seq<Obj>)
    ensures |r| == |fes| && forall i :: 0 <= i < |fes| ==> r[i] == Refilled(fes[i], attach)
  {
    seq(|fes|, i requires 0 <= i < |fes| => Refilled(fes[i], attach))
  }

  /** What a listener promises: each list without repeats, and no id in both. */
  predicate Regular(fe: Obj) {
    && NoDuplicates(fe.rules.Or([])) && NoDuplicates(fe.certificates.Or([]))
    && forall x :: x in fe.rules.Or([]) ==> x !in fe.certificates.Or([])
  }

  predicate UniqueNames(fes: seq<Obj>) {
    forall i, j :: 0 <= i < j < |fes| ==> fes[i].name != fes[j].name
  }

  lemma {:induction false} WithoutNone(xs: seq<Id>, ys: seq<Id>)
    requires forall x :: x in xs ==> x !in ys
    ensures Without(xs, ys) == xs
  {
    if xs != [] {
      assert xs[0] in xs;
      forall x | x in xs[1..]
        ensures x !in ys
      {
        assert x in xs;
      }
      WithoutNone(xs[1..], ys);
    }
  }

  lemma {:induction false} TakeNothing(xs: seq<Id>, ids: set<Id>)
    requires Take(xs, ids) == []
    ensures Keep(xs, ids) == xs
  {
    if xs != [] {
      TakeNothing(xs[1..], ids);
    }
  }

  /** One list: stripped, recorded and refilled, it is as it was. */
  lemma RefillRebuilds(xs: seq<Id>, ids: set<Id>, at: map<Id, nat>)
    requires NoDuplicates(xs) && Placed(xs, ids, at)
    ensures Refill(Some(Keep(xs, ids)), Take(xs, ids), at) == Some(xs)
  {
    forall x | x in Take(xs, ids)
      ensures x !in Keep(xs, ids)
    {
      TakeMember(xs, ids, x);
    }
    WithoutNone(Take(xs, ids), Keep(xs, ids));
    if Take(xs, ids) == [] {
      TakeNothing(xs, ids);
    } else {
      Rebuilds(xs, ids, at);
    }
  }

  lemma NothingTaken(fe: Obj, ids: set<Id>)
    requires !Touches(fe.rules, ids) && !Touches(fe.certificates, ids)
    ensures Stripped(fe, ids) == fe
  {
    if fe.rules.Some? {
      TakeNothing(fe.rules.value, ids);
    }
    if fe.certificates.Some? {
      TakeNothing(fe.certificates.value, ids);
    }
  }

  /** The slot a listener with no earlier attachments leaves behind. */
  function NewSlot(fe: Obj, ids: set<Id>): Slot {
    var rules, certificates := fe.rules.Or([]), fe.certificates.Or([]);
    Slot((if Touches(fe.rules, ids) then Positions(rules, ids) else map[])
         + (if Touches(fe.certificates, ids) then Positions(certificates, ids) else map[]),
         Take(rules, ids), Take(certificates, ids))
  }

  lemma AttachedNew(attach: map<string, Slot>, fe: Obj, ids: set<Id>)
    requires fe.name !in attach
    ensures Attached(attach, fe, ids)
         == if Touches(fe.rules, ids) || Touches(fe.certificates, ids)
            then attach[fe.name := NewSlot(fe, ids)] else attach
  {
    var slot := NewSlot(fe, ids);
    var pr := if Touches(fe.rules, ids) then Positions(fe.rules.value, ids) else map[];
    var pc := if Touches(fe.certificates, ids) then Positions(fe.certificates.value, ids) else map[];
    assert map[] + pr == pr && pr + map[] == pr && map[] + pc == pc;
    assert [] + Take(fe.rules.Or([]), ids) == Take(fe.rules.Or([]), ids);
    assert [] + Take(fe.certificates.Or([]), ids) == Take(fe.certificates.Or([]), ids);
    assert attach[fe.name := Slot(pr, slot.rules, [])][fe.name := slot] == attach[fe.name := slot];
  }

  lemma NewSlotPlaces(fe: Obj, ids: set<Id>)
    requires Regular(fe)
    ensures Touches(fe.rules, ids) ==> Placed(fe.rules.value, ids, NewSlot(fe, ids).at)
    ensures Touches(fe.certificates, ids) ==> Placed(fe.certificates.value, ids, NewSlot(fe, ids).at)
  {
  }

  lemma RefillOne(xs: Option<seq<Id>>, ids: set<Id>, at: map<Id, nat>)
    requires NoDuplicates(xs.Or([]))
    requires Touches(xs, ids) ==> Placed(xs.value, ids, at)
    ensures Refill(StripList(xs, ids), Take(xs.Or([]), ids), at) == xs
  {
    if Touches(xs, ids) {
      RefillRebuilds(xs.value, ids, at);
    } else if xs.Some? {
      TakeNothing(xs.value, ids);
    }
  }

  /** A listener stripped and refilled from its own slot is as it was. */
  lemma ListenerRebuilds(fe: Obj, ids: set<Id>, attach: map<string, Slot>)
    requires Regular(fe)
    requires if Touches(fe.rules, ids) || Touches(fe.certificates, ids)
             then fe.name in attach && attach[fe.name] == NewSlot(fe, ids) else fe.name !in attach
    ensures Refilled(Stripped(fe, ids), attach) == fe
  {
    if fe.name in attach {
      NewSlotPlaces(fe, ids);
      RefillOne(fe.rules, ids, attach[fe.name].at);
      RefillOne(fe.certificates, ids, attach[fe.name].at);
    } else {
      NothingTaken(fe, ids);
    }
  }

  /** Does the listener list any of these? */
  predicate Gives(fe: Obj, ids: set<Id>) {
    Touches(fe.rules, ids) || Touches(fe.certificates, ids)
  }

  predicate SameSlot(a: map<string, Slot>, b: map<string, Slot>, name: string) {
    (name in a <==> name in b) && (name in a ==> a[name] == b[name])
  }

  /** With unique names every listener that gives something away, and has no slot yet,
      finds its own; all other slots stay. */
  lemma {:induction false} AttachedBeside(base: map<string, Slot>, fes: seq<Obj>, ids: set<Id>, name: string)
    requires UniqueNames(fes) && forall fe :: fe in fes && Gives(fe, ids) ==> fe.name !in base
    ensures var attach := AttachedAll(base, fes, ids);
      && (forall i :: 0 <= i < |fes| && fes[i].name == name ==>
            if Gives(fes[i], ids) then name in attach && attach[name] == NewSlot(fes[i], ids)
            else SameSlot(attach, base, name))
      && ((forall i :: 0 <= i < |fes| ==> fes[i].name != name) ==> SameSlot(attach, base, name))
  {
    if |fes| > 0 {
      var front, last := fes[..|fes| - 1], fes[|fes| - 1];
      assert forall fe :: fe in front ==> fe in fes;
      AttachedBeside(base, front, ids, name);
      AttachedBeside(base, front, ids, last.name);
      if Gives(last, ids) {
        AttachedNew(AttachedAll(base, front, ids), last, ids);
      }
    }
  }

  lemma AttachedOwn(fes: seq<Obj>, ids: set<Id>, name: string)
    requires UniqueNames(fes)
    ensures var attach := AttachedAll(map[], fes, ids);
      && (forall i :: 0 <= i < |fes| && fes[i].name == name ==>
            if Gives(fes[i], ids) then name in attach && attach[name] == NewSlot(fes[i], ids) else name !in attach)
      && ((forall i :: 0 <= i < |fes| ==> fes[i].name != name) ==> name !in attach)
  {
    AttachedBeside(map[], fes, ids, name);
  }

  // ---- collections ------------------------------------------------------------------

  function KeepObjs(xs: seq<Obj>, ids: set<Id>): seq<Obj> {
    if xs == [] then [] else (if xs[0].id in ids then [] else [xs[0]]) + KeepObjs(xs[1..], ids)
  }

  /** What leaves a collection. The flag is dropped: where an object lives says
      whose it is. */
  function TakeObjs(xs: seq<Obj>, ids: set<Id>): seq<Obj> {
    if xs == [] then [] else (if xs[0].id in ids then [xs[0].(localOnly := false)] else []) + TakeObjs(xs[1..], ids)
  }

  function IdsOf(xs: seq<Obj>): set<Id> {
    set i | 0 <= i < |xs| :: xs[i].id
  }

  lemma {:induction false} KeepConcat(xs: seq<Obj>, ys: seq<Obj>, ids: set<Id>)
    ensures KeepObjs(xs + ys, ids) == KeepObjs(xs, ids) + KeepObjs(ys, ids)
    ensures TakeObjs(xs + ys, ids) == TakeObjs(xs, ids) + TakeObjs(ys, ids)
  {
    if xs == [] {
      assert xs + ys == ys;
    } else {
      assert xs == [xs[0]] + xs[1..] && xs + ys == [xs[0]] + (xs[1..] + ys);
      KeepConcat(xs[1..], ys, ids);
      KeepFirst(xs[0], xs[1..], ids);
      KeepFirst(xs[0], xs[1..] + ys, ids);
    }
  }

  lemma KeepFirst(x: Obj, xs: seq<Obj>, ids: set<Id>)
    ensures KeepObjs([x] + xs, ids) == (if x.id in ids then [] else [x]) + KeepObjs(xs, ids)
    ensures TakeObjs([x] + xs, ids) == (if x.id in ids then [x.(localOnly := false)] else []) + TakeObjs(xs, ids)
  {
    assert ([x] + xs)[1..] == xs;
  }

  lemma {:induction false} KeepAgain(xs: seq<Obj>, ids: set<Id>)
    ensures KeepObjs(KeepObjs(xs, ids), ids) == KeepObjs(xs, ids)
    ensures TakeObjs(KeepObjs(xs, ids), ids) == []
    ensures KeepObjs(TakeObjs(xs, ids), ids) == []
    ensures TakeObjs(TakeObjs(xs, ids), ids) == TakeObjs(xs, ids)
  {
    if xs != [] {
      KeepAgain(xs[1..], ids);
      if xs[0].id in ids {
        KeepConcat([xs[0].(localOnly := false)], TakeObjs(xs[1..], ids), ids);
        assert [] + KeepObjs(xs[1..], ids) == KeepObjs(xs[1..], ids);
      } else {
        KeepConcat([xs[0]], KeepObjs(xs[1..], ids), ids);
        assert [] + TakeObjs(xs[1..], ids) == TakeObjs(xs[1..], ids);
      }
    }
  }

  lemma {:induction false} KeepMember(xs: seq<Obj>, ids: set<Id>, x: Obj)
    ensures x in KeepObjs(xs, ids) <==> x in xs && x.id !in ids
    ensures x in TakeObjs(xs, ids) <==>
      (!x.localOnly && x.id in ids && (x in xs || x.(localOnly := true) in xs))
  {
    if xs != [] {
      KeepMember(xs[1..], ids, x);
    }
  }

  function At(m: map<Key, seq<Obj>>, k: Key): seq<Obj> {
    if k in m then m[k] else []
  }

  // ---- the three operations ---------------------------------------------------------

  function Kept(shared: map<Key, seq<Obj>>, ids: set<Id>): map<Key, seq<Obj>> {
    map k | k in shared :: KeepObjs(shared[k], ids)
  }

  function MovedShared(shared: map<Key, seq<Obj>>, ids: set<Id>): map<Key, seq<Obj>> {
    var kept := Kept(shared, ids);
    if LISTENERS in kept then kept[LISTENERS := StrippedAll(kept[LISTENERS], ids)] else kept
  }

  function MovedOwn(c: Config, ids: set<Id>): map<Key, seq<Obj>> {
    map k | k in c.own.Keys + Givers(c.shared, ids) :: OwnAfter(c, ids, k)
  }

  /** move_to_local: objects out of the shared collections into this node's own,
      and out of the listeners' lists into the attachments. */
  function Moved(c: Config, ids: set<Id>): Config {
    Config(MovedShared(c.shared, ids), MovedOwn(c, ids),
           AttachedAll(c.attach, At(Kept(c.shared, ids), LISTENERS), ids))
  }

  /** The collections that give something away. */
  function Givers(shared: map<Key, seq<Obj>>, ids: set<Id>): set<Key> {
    set k | k in shared && TakeObjs(shared[k], ids) != []
  }

  function OwnAfter(c: Config, ids: set<Id>, k: Key): seq<Obj> {
    At(c.own, k) + KeepObjs(TakeObjs(At(c.shared, k), ids), IdsOf(At(c.own, k)))
  }

  /** merged: the shared collections as this node sees them. */
  function Merged(c: Config): map<Key, seq<Obj>> {
    var all := map k | k in c.shared :: c.shared[k] + KeepObjs(At(c.own, k), IdsOf(c.shared[k]));
    if LISTENERS in all then all[LISTENERS := RefilledAll(all[LISTENERS], c.attach)] else all
  }

  /** Both lists written out, whether or not anything was attached. */
  function Reattached(fe: Obj, attach: map<string, Slot>): Obj {
    if fe.name !in attach then fe
    else
      var s := attach[fe.name];
      fe.(rules := Some(Reinsert(fe.rules.Or([]), Without(s.rules, fe.rules.Or([])), s.at)),
          certificates := Some(Reinsert(fe.certificates.Or([]), Without(s.certificates, fe.certificates.Or([])), s.at)))
  }

  function ReattachedAll(fes: seq<Obj>, attach: map<string, Slot>): (r: seq<Obj>)
    ensures |r| == |fes| && forall i :: 0 <= i < |fes| ==> r[i] == Reattached(fes[i], attach)
  {
    seq(|fes|, i requires 0 <= i < |fes| => Reattached(fes[i], attach))
  }

  function CombinedAt(c: Config, k: Key): seq<Obj> {
    At(c.shared, k) + KeepObjs(At(c.own, k), IdsOf(At(c.shared, k)))
  }

  /** Each collection with this node's objects behind the shared ones. */
  function Combined(c: Config): map<Key, seq<Obj>> {
    map k | k in c.shared.Keys + NonEmpty(c.own) :: CombinedAt(c, k)
  }

  /** promote_local: this node's objects back among the shared ones. */
  function Promoted(c: Config): Config {
    var all := Combined(c);
    Config(if LISTENERS in all then all[LISTENERS := ReattachedAll(all[LISTENERS], c.attach)] else all,
           map k | k in c.own :: [],
           map[])
  }

  function NonEmpty(own: map<Key, seq<Obj>>): set<Key> {
    set k | k in own && own[k] != []
  }

  // ---- moving and looking ------------------------------------------------------------

  /** Nothing owned twice, listeners with their own names and regular lists. */
  ghost predicate Tidy(c: Config) {
    && (forall k :: k in c.shared ==> IdsOf(c.shared[k]) !! IdsOf(At(c.own, k)))
    && UniqueNames(At(c.shared, LISTENERS) + At(c.own, LISTENERS))
    && forall fe :: fe in At(c.shared, LISTENERS) ==> Regular(fe)
  }

  /** Nothing attached yet. */
  ghost predicate Plain(c: Config) {
    Tidy(c) && c.attach == map[]
  }

  /** The listeners that give something away have nothing attached yet. */
  ghost predicate GiversFree(c: Config, ids: set<Id>) {
    forall fe :: fe in KeepObjs(At(c.shared, LISTENERS), ids) && Gives(fe, ids) ==> fe.name !in c.attach
  }

  lemma {:induction false} KeepAll(xs: seq<Obj>, ids: set<Id>)
    requires IdsOf(xs) !! ids
    ensures KeepObjs(xs, ids) == xs
  {
    if xs != [] {
      assert xs[0].id in IdsOf(xs);
      forall i | 0 <= i < |xs[1..]|
        ensures xs[1..][i].id in IdsOf(xs)
      {
        assert xs[1..][i] == xs[i + 1];
      }
      KeepAll(xs[1..], ids);
    }
  }

  lemma KeptIds(xs: seq<Obj>, ids: set<Id>)
    ensures IdsOf(KeepObjs(xs, ids)) <= IdsOf(xs) && IdsOf(KeepObjs(xs, ids)) !! ids
    ensures IdsOf(TakeObjs(xs, ids)) <= IdsOf(xs) && IdsOf(TakeObjs(xs, ids)) <= ids
  {
    var kept, taken := KeepObjs(xs, ids), TakeObjs(xs, ids);
    forall i | 0 <= i < |kept|
      ensures kept[i].id in IdsOf(xs) && kept[i].id !in ids
    {
      KeepMember(xs, ids, kept[i]);
    }
    forall i | 0 <= i < |taken|
      ensures taken[i].id in IdsOf(xs) && taken[i].id in ids
    {
      KeepMember(xs, ids, taken[i]);
    }
  }

  /** What a collection looks like after a move and a merge: the kept objects in
      order, then this node's own, then the moved ones. */
  function Regrouped(c: Config, ids: set<Id>, k: Key): seq<Obj> {
    KeepObjs(At(c.shared, k), ids) + (At(c.own, k) + TakeObjs(At(c.shared, k), ids))
  }

  lemma CollectionView(c: Config, ids: set<Id>, k: Key)
    requires Tidy(c) && k in c.shared
    ensures OwnAfter(c, ids, k) == At(c.own, k) + TakeObjs(c.shared[k], ids)
    ensures KeepObjs(OwnAfter(c, ids, k), IdsOf(KeepObjs(c.shared[k], ids))) == OwnAfter(c, ids, k)
  {
    var own, taken := At(c.own, k), TakeObjs(c.shared[k], ids);
    KeptIds(c.shared[k], ids);
    KeepAll(taken, IdsOf(own));
    forall i | 0 <= i < |own + taken|
      ensures (own + taken)[i].id !in IdsOf(KeepObjs(c.shared[k], ids))
    {
      if i < |own| {
        assert own[i].id in IdsOf(own);
      } else {
        assert taken[i - |own|].id in IdsOf(taken);
      }
    }
    KeepAll(own + taken, IdsOf(KeepObjs(c.shared[k], ids)));
  }

  lemma OwnAt(c: Config, ids: set<Id>, k: Key)
    ensures At(Moved(c, ids).own, k) == OwnAfter(c, ids, k)
  {
  }

  lemma {:induction false} KeepUnique(xs: seq<Obj>, ids: set<Id>)
    requires UniqueNames(xs)
    ensures UniqueNames(KeepObjs(xs, ids))
  {
    if xs != [] {
      KeepUnique(xs[1..], ids);
      var kept := KeepObjs(xs[1..], ids);
      forall i | 0 <= i < |kept|
        ensures kept[i].name != xs[0].name
      {
        KeepMember(xs[1..], ids, kept[i]);
        var j :| 0 <= j < |xs[1..]| && xs[1..][j] == kept[i];
        assert xs[j + 1] == kept[i];
      }
    }
  }

  lemma NamesApart(xs: seq<Obj>, i: nat, j: nat)
    requires UniqueNames(xs) && i < |xs| && j < |xs| && xs[i].name == xs[j].name
    ensures i == j
  {
  }

  /** A moved listener shares its name with no listener that stays. */
  lemma MovedNames(c: Config, ids: set<Id>, own: Obj, kept: Obj)
    requires Tidy(c)
    requires own in At(c.own, LISTENERS) + TakeObjs(At(c.shared, LISTENERS), ids)
    requires kept in KeepObjs(At(c.shared, LISTENERS), ids)
    ensures own.name != kept.name
  {
    var shared, mine := At(c.shared, LISTENERS), At(c.own, LISTENERS);
    KeepMember(shared, ids, kept);
    KeepMember(shared, ids, own);
    var i :| 0 <= i < |shared| && shared[i] == kept;
    assert (shared + mine)[i] == kept;
    if own in mine {
      var j :| 0 <= j < |mine| && mine[j] == own;
      assert (shared + mine)[|shared| + j] == own;
    } else {
      var j :| 0 <= j < |shared| && (shared[j] == own || shared[j] == own.(localOnly := true));
      assert (shared + mine)[j].name == own.name && (shared + mine)[j].id == own.id;
      if own.name == kept.name {
        NamesApart(shared + mine, i, j);
      }
    }
  }

  lemma KeptListener(c: Config, ids: set<Id>, i: nat)
    requires Tidy(c) && GiversFree(c, ids) && i < |KeepObjs(At(c.shared, LISTENERS), ids)|
    ensures var fes := KeepObjs(At(c.shared, LISTENERS), ids);
      Refilled(Stripped(fes[i], ids), AttachedAll(c.attach, fes, ids)) == Refilled(fes[i], c.attach)
  {
    var shared := At(c.shared, LISTENERS);
    var fes := KeepObjs(shared, ids);
    SharedUnique(c);
    KeepUnique(shared, ids);
    KeepMember(shared, ids, fes[i]);
    AttachedBeside(c.attach, fes, ids, fes[i].name);
    if Gives(fes[i], ids) {
      ListenerRebuilds(fes[i], ids, AttachedAll(c.attach, fes, ids));
    } else {
      NothingTaken(fes[i], ids);
    }
  }

  lemma SharedUnique(c: Config)
    requires Tidy(c)
    ensures UniqueNames(At(c.shared, LISTENERS))
  {
    var shared, mine := At(c.shared, LISTENERS), At(c.own, LISTENERS);
    forall i, j | 0 <= i < j < |shared|
      ensures shared[i].name != shared[j].name
    {
      assert (shared + mine)[i] == shared[i] && (shared + mine)[j] == shared[j];
    }
  }

  lemma OwnListener(c: Config, ids: set<Id>, fe: Obj)
    requires Tidy(c) && GiversFree(c, ids) && fe in At(c.own, LISTENERS) + TakeObjs(At(c.shared, LISTENERS), ids)
    ensures Refilled(fe, AttachedAll(c.attach, KeepObjs(At(c.shared, LISTENERS), ids), ids)) == Refilled(fe, c.attach)
  {
    var fes := KeepObjs(At(c.shared, LISTENERS), ids);
    SharedUnique(c);
    KeepUnique(At(c.shared, LISTENERS), ids);
    forall i | 0 <= i < |fes|
      ensures fes[i].name != fe.name
    {
      MovedNames(c, ids, fe, fes[i]);
    }
    AttachedBeside(c.attach, fes, ids, fe.name);
  }

  lemma RefilledConcat(xs: seq<Obj>, ys: seq<Obj>, attach: map<string, Slot>)
    ensures RefilledAll(xs + ys, attach) == RefilledAll(xs, attach) + RefilledAll(ys, attach)
  {
  }

  lemma ListenersView(c: Config, ids: set<Id>)
    requires Tidy(c) && GiversFree(c, ids) && LISTENERS in c.shared
    ensures Merged(Moved(c, ids))[LISTENERS] == RefilledAll(Regrouped(c, ids, LISTENERS), c.attach)
  {
    var shared := c.shared[LISTENERS];
    var fes := KeepObjs(shared, ids);
    var attach := AttachedAll(c.attach, fes, ids);
    var mine := At(c.own, LISTENERS) + TakeObjs(shared, ids);
    CollectionView(c, ids, LISTENERS);
    OwnAt(c, ids, LISTENERS);
    StrippedIds(fes, ids);
    assert Moved(c, ids).shared[LISTENERS] == StrippedAll(fes, ids);
    assert Merged(Moved(c, ids))[LISTENERS] == RefilledAll(StrippedAll(fes, ids) + mine, attach);
    RefilledConcat(StrippedAll(fes, ids), mine, attach);
    RefilledConcat(fes, mine, c.attach);
    forall i | 0 <= i < |fes|
      ensures RefilledAll(StrippedAll(fes, ids), attach)[i] == RefilledAll(fes, c.attach)[i]
    {
      KeptListener(c, ids, i);
    }
    forall i | 0 <= i < |mine|
      ensures RefilledAll(mine, attach)[i] == RefilledAll(mine, c.attach)[i]
    {
      OwnListener(c, ids, mine[i]);
    }
    assert RefilledAll(StrippedAll(fes, ids), attach) == RefilledAll(fes, c.attach);
    assert RefilledAll(mine, attach) == RefilledAll(mine, c.attach);
  }

  lemma StrippedIds(fes: seq<Obj>, ids: set<Id>)
    ensures IdsOf(StrippedAll(fes, ids)) == IdsOf(fes)
  {
    forall x | x in IdsOf(fes)
      ensures x in IdsOf(StrippedAll(fes, ids))
    {
      var i :| 0 <= i < |fes| && fes[i].id == x;
      assert StrippedAll(fes, ids)[i].id == x;
    }
    forall x | x in IdsOf(StrippedAll(fes, ids))
      ensures x in IdsOf(fes)
    {
      var i :| 0 <= i < |fes| && StrippedAll(fes, ids)[i].id == x;
    }
  }

  lemma MergedAt(m: Config, k: Key)
    ensures Merged(m).Keys == m.shared.Keys
    ensures k in m.shared && k != LISTENERS ==> Merged(m)[k] == CombinedAt(m, k)
  {
  }

  lemma PlainCollectionView(c: Config, ids: set<Id>, k: Key)
    requires Tidy(c) && k in c.shared && k != LISTENERS
    ensures k in Moved(c, ids).shared && CombinedAt(Moved(c, ids), k) == Regrouped(c, ids, k)
  {
    CollectionView(c, ids, k);
    OwnAt(c, ids, k);
  }

  /** A collection regrouped, the listeners with what was attached to them before. */
  function Shown(c: Config, ids: set<Id>, k: Key): seq<Obj> {
    if k == LISTENERS then RefilledAll(Regrouped(c, ids, k), c.attach) else Regrouped(c, ids, k)
  }

  /** Moving objects to this node and then looking through merged: no object is
      lost, the kept ones are untouched and in order, and every listener that
      stays shows its rules and certificates in the exact order it showed before,
      where those that give something away have nothing attached yet. */
  lemma MovedThenMerged(c: Config, ids: set<Id>)
    requires Tidy(c) && GiversFree(c, ids)
    ensures Merged(Moved(c, ids)).Keys == c.shared.Keys
    ensures forall k :: k in c.shared ==> Merged(Moved(c, ids))[k] == Shown(c, ids, k)
  {
    MergedAt(Moved(c, ids), LISTENERS);
    forall k | k in c.shared
      ensures Merged(Moved(c, ids))[k] == Shown(c, ids, k)
    {
      if k == LISTENERS {
        ListenersView(c, ids);
      } else {
        PlainCollectionView(c, ids, k);
        MergedAt(Moved(c, ids), k);
      }
    }
  }

  /** A listener with something attached that gives something away once more shows its
      list in another order: positions are those of the list without what was taken. */
  lemma LaterMoveReorders(fe: Obj, a: Id, x: Id, b: Id)
    requires a != x && x != b && a != b && fe.rules == Some([a, b]) && fe.certificates.None?
    ensures var before := map[fe.name := Slot(map[x := 1], [x], [])];
      && Refilled(fe, before).rules == Some([a, x, b])
      && Refilled(Stripped(fe, {b}), Attached(before, fe, {b})).rules == Some([a, b, x])
  {
    LastOfTwo(a, b);
    WithoutNone([x], [b]);
    assert map[x := 1] + map[b := 1] == map[x := 1, b := 1];
    RefillOneMore(a, x, b);
    RefillTwoMore(a, x, b);
  }

  lemma LastOfTwo(a: Id, b: Id)
    requires a != b
    ensures Keep([a, b], {b}) == [a] && Take([a, b], {b}) == [b] && Positions([a, b], {b}) == map[b := 1]
  {
    assert [a, b][1..] == [b] && [b][1..] == [] && [b] + [] == [b];
    assert Keep([b], {b}) == [] && Take([b], {b}) == [b];
    assert IndexOf([b], b) == 0 && IndexOf([a, b], b) == 1;
  }

  lemma ReinsertNext(have: seq<Id>, x: Id, rest: seq<Id>, at: map<Id, nat>)
    requires x in at && at[x] <= |have|
    ensures Reinsert(have, [x] + rest, at) == Reinsert(have[..at[x]] + [x] + have[at[x]..], rest, at)
  {
    assert ([x] + rest)[1..] == rest;
  }

  lemma RefillOneMore(a: Id, x: Id, b: Id)
    requires x != a && x != b
    ensures Refill(Some([a, b]), [x], map[x := 1]) == Some([a, x, b])
  {
    WithoutNone([x], [a, b]);
    ReinsertNext([a, b], x, [], map[x := 1]);
    assert [x] + [] == [x] && [a, b][..1] + [x] + [a, b][1..] == [a, x, b];
  }

  lemma RefillTwoMore(a: Id, x: Id, b: Id)
    requires a != x && x != b && a != b
    ensures Refill(Some([a]), [x, b], map[x := 1, b := 1]) == Some([a, b, x])
  {
    var at := map[x := 1, b := 1];
    WithoutNone([x, b], [a]);
    ReinsertNext([a], x, [b], at);
    assert [x] + [b] == [x, b] && [a][..1] + [x] + [a][1..] == [a, x];
    ReinsertNext([a, x], b, [], at);
    assert [b] + [] == [b] && [a, x][..1] + [b] + [a, x][1..] == [a, b, x];
  }

  // ---- promoting is merging -----------------------------------------------------------

  /** The listeners a promotion works on. */
  function Gathered(c: Config): seq<Obj> {
    At(c.shared, LISTENERS) + KeepObjs(At(c.own, LISTENERS), IdsOf(At(c.shared, LISTENERS)))
  }

  /** A listener that lacks a list has something of that kind attached. */
  predicate ListsAttached(fe: Obj, attach: map<string, Slot>) {
    fe.name in attach ==>
      && (fe.rules.None? ==> attach[fe.name].rules != [])
      && (fe.certificates.None? ==> attach[fe.name].certificates != [])
  }

  lemma ReattachedIsRefilled(fe: Obj, attach: map<string, Slot>)
    ensures Reattached(fe, attach) == Refilled(fe, attach) <==> ListsAttached(fe, attach)
  {
    if fe.name in attach {
      if fe.rules.None? {
        WithoutNone(attach[fe.name].rules, []);
      }
      if fe.certificates.None? {
        WithoutNone(attach[fe.name].certificates, []);
      }
    }
  }

  lemma ReattachedAllIsRefilledAll(fes: seq<Obj>, attach: map<string, Slot>)
    ensures ReattachedAll(fes, attach) == RefilledAll(fes, attach)
       <==> forall fe :: fe in fes ==> ListsAttached(fe, attach)
  {
    forall i | 0 <= i < |fes|
      ensures ReattachedAll(fes, attach)[i] == RefilledAll(fes, attach)[i] <==> ListsAttached(fes[i], attach)
    {
      ReattachedIsRefilled(fes[i], attach);
    }
    if ReattachedAll(fes, attach) == RefilledAll(fes, attach) {
      forall fe | fe in fes
        ensures ListsAttached(fe, attach)
      {
        var i :| 0 <= i < |fes| && fes[i] == fe;
        assert ReattachedAll(fes, attach)[i] == RefilledAll(fes, attach)[i];
      }
    }
  }

  /** promote_local puts into the shared sections what merged shows, for every
      configuration, except where this node alone has a collection or a listener
      lacks a list that nothing is attached to. */
  lemma PromotedIsMerged(c: Config)
    ensures Promoted(c).shared == Merged(c) <==>
      (&& NonEmpty(c.own) <= c.shared.Keys
       && forall fe :: fe in Gathered(c) ==> LISTENERS in c.shared ==> ListsAttached(fe, c.attach))
  {
    SharedKeys(c);
    if NonEmpty(c.own) <= c.shared.Keys {
      assert c.shared.Keys + NonEmpty(c.own) == c.shared.Keys;
      SameCollections(c);
      if LISTENERS in c.shared {
        ReattachedAllIsRefilledAll(Gathered(c), c.attach);
      }
    }
  }

  lemma SharedKeys(c: Config)
    ensures Merged(c).Keys == c.shared.Keys
    ensures Promoted(c).shared.Keys == c.shared.Keys + NonEmpty(c.own)
  {
  }

  lemma SameCollections(c: Config)
    requires Promoted(c).shared.Keys == c.shared.Keys == Merged(c).Keys
    ensures LISTENERS !in c.shared ==> Promoted(c).shared == Merged(c)
    ensures LISTENERS in c.shared ==>
      (Promoted(c).shared == Merged(c) <==> ReattachedAll(Gathered(c), c.attach) == RefilledAll(Gathered(c), c.attach))
  {
    var p, m := Promoted(c).shared, Merged(c);
    assert forall k :: k in c.shared && k != LISTENERS ==> p[k] == m[k];
    if LISTENERS in c.shared {
      assert p[LISTENERS] == ReattachedAll(Gathered(c), c.attach);
      assert m[LISTENERS] == RefilledAll(Gathered(c), c.attach);
    }
  }

  // ---- nothing attached is lost -------------------------------------------------------

  lemma {:induction false} WithoutMember(xs: seq<Id>, ys: seq<Id>, x: Id)
    ensures x in Without(xs, ys) <==> x in xs && x !in ys
  {
    if xs != [] {
      WithoutMember(xs[1..], ys, x);
    }
  }

  lemma FilledIn(have: seq<Id>, mine: seq<Id>, at: map<Id, nat>)
    ensures var all := Reinsert(have, Without(mine, have), at);
      (forall x :: x in all <==> x in have || x in mine) && Within(have, all)
  {
    var extra := Without(mine, have);
    ReinsertKeepsAll(have, extra, at);
    forall x
      ensures x in Reinsert(have, extra, at) <==> x in have || x in mine
    {
      WithoutMember(mine, have, x);
      assert x in Reinsert(have, extra, at) <==> x in multiset(Reinsert(have, extra, at));
      assert x in have <==> x in multiset(have);
      assert x in extra <==> x in multiset(extra);
    }
  }

  /** The list shows what was listed, in its order, and all that is attached, and nothing
      else. */
  ghost predicate ShowsAll(shown: seq<Id>, listed: seq<Id>, mine: seq<Id>) {
    (forall x :: x in shown <==> x in listed || x in mine) && Within(listed, shown)
  }

  ghost predicate ShowsAttached(shown: Obj, fe: Obj, attach: map<string, Slot>) {
    var s := if fe.name in attach then attach[fe.name] else EMPTY_SLOT;
    && shown.id == fe.id && shown.name == fe.name && shown.localOnly == fe.localOnly && shown.body == fe.body
    && ShowsAll(shown.rules.Or([]), fe.rules.Or([]), s.rules)
    && ShowsAll(shown.certificates.Or([]), fe.certificates.Or([]), s.certificates)
  }

  lemma RefillShowsAll(xs: Option<seq<Id>>, mine: seq<Id>, at: map<Id, nat>)
    ensures ShowsAll(Refill(xs, mine, at).Or([]), xs.Or([]), mine)
  {
    var have := xs.Or([]);
    FilledIn(have, mine, at);
    if Without(mine, have) == [] {
      forall x | x in mine
        ensures x in have
      {
        WithoutMember(mine, have, x);
      }
      WithinSelf(have);
    }
  }

  lemma RefilledShows(fe: Obj, attach: map<string, Slot>)
    ensures ShowsAttached(Refilled(fe, attach), fe, attach)
  {
    WithinSelf(fe.rules.Or([]));
    WithinSelf(fe.certificates.Or([]));
    if fe.name in attach {
      var s := attach[fe.name];
      RefillShowsAll(fe.rules, s.rules, s.at);
      RefillShowsAll(fe.certificates, s.certificates, s.at);
    }
  }

  lemma ReattachedShows(fe: Obj, attach: map<string, Slot>)
    ensures ShowsAttached(Reattached(fe, attach), fe, attach)
  {
    WithinSelf(fe.rules.Or([]));
    WithinSelf(fe.certificates.Or([]));
    if fe.name in attach {
      var s := attach[fe.name];
      FilledIn(fe.rules.Or([]), s.rules, s.at);
      FilledIn(fe.certificates.Or([]), s.certificates, s.at);
    }
  }

  /** For every configuration, whatever was edited since the move: merged and promoted
      show of each listener what it lists and all that is attached to it. */
  lemma AttachedAreShown(c: Config, i: nat)
    requires LISTENERS in c.shared && i < |Gathered(c)|
    ensures |Merged(c)[LISTENERS]| == |Promoted(c).shared[LISTENERS]| == |Gathered(c)|
    ensures ShowsAttached(Merged(c)[LISTENERS][i], Gathered(c)[i], c.attach)
    ensures ShowsAttached(Promoted(c).shared[LISTENERS][i], Gathered(c)[i], c.attach)
  {
    RefilledShows(Gathered(c)[i], c.attach);
    ReattachedShows(Gathered(c)[i], c.attach);
    ListenersMerged(c);
    ListenersPromoted(c);
  }

  lemma ListenersMerged(c: Config)
    requires LISTENERS in c.shared
    ensures Merged(c)[LISTENERS] == RefilledAll(Gathered(c), c.attach)
  {
  }

  lemma ListenersPromoted(c: Config)
    requires LISTENERS in c.shared
    ensures Promoted(c).shared[LISTENERS] == ReattachedAll(Gathered(c), c.attach)
  {
  }

  // ---- moving again ---------------------------------------------------------------------

  /** A listener that gives something away has both lists written out. */
  predicate BothLists(fe: Obj, ids: set<Id>) {
    Touches(fe.rules, ids) || Touches(fe.certificates, ids) ==> fe.rules.Some? && fe.certificates.Some?
  }

  /** Promoting and moving again gives this node back what it owned: the shared
      sections have every such collection, what it owned before is named again and
      carries no flag, and the listeners that gave something away have both lists. */
  ghost predicate Restores(c: Config, ids: set<Id>) {
    && NonEmpty(c.own) <= c.shared.Keys
    && (forall k :: k in c.own ==> Returns(c.own[k], ids))
    && forall fe :: fe in KeepObjs(At(c.shared, LISTENERS), ids) ==> BothLists(fe, ids)
  }

  ghost predicate Returns(xs: seq<Obj>, ids: set<Id>) {
    forall x :: x in xs ==> x.id in ids && !x.localOnly
  }

  lemma {:induction false} TakeAll(xs: seq<Obj>, ids: set<Id>)
    ensures TakeObjs(xs, ids) == xs <==> Returns(xs, ids)
    ensures Returns(xs, ids) ==> KeepObjs(xs, ids) == []
  {
    if TakeObjs(xs, ids) == xs {
      forall x | x in xs
        ensures x.id in ids && !x.localOnly
      {
        KeepMember(xs, ids, x);
      }
    }
    if xs != [] && Returns(xs, ids) {
      TakeAll(xs[1..], ids);
      assert xs[0].(localOnly := false) == xs[0] && xs == [xs[0]] + xs[1..];
    }
  }

  lemma ReattachOne(fe: Obj, ids: set<Id>, attach: map<string, Slot>)
    requires Regular(fe)
    requires if Touches(fe.rules, ids) || Touches(fe.certificates, ids)
             then fe.name in attach && attach[fe.name] == NewSlot(fe, ids) else fe.name !in attach
    ensures var back := Reattached(Stripped(fe, ids), attach);
      && back.id == fe.id
      && if BothLists(fe, ids) then back == fe else Stripped(back, ids) != Stripped(fe, ids)
  {
    ListenerRebuilds(fe, ids, attach);
    ReattachedIsRefilled(Stripped(fe, ids), attach);
  }

  /** The listeners that stayed, after promoting. */
  function Back(c: Config, ids: set<Id>): seq<Obj> {
    var fes := KeepObjs(At(c.shared, LISTENERS), ids);
    ReattachedAll(StrippedAll(fes, ids), AttachedAll(map[], fes, ids))
  }

  lemma BackAt(c: Config, ids: set<Id>, i: nat)
    requires Plain(c) && i < |KeepObjs(At(c.shared, LISTENERS), ids)|
    ensures var fe := KeepObjs(At(c.shared, LISTENERS), ids)[i];
      && Back(c, ids)[i].id == fe.id && fe.id !in ids
      && if BothLists(fe, ids) then Back(c, ids)[i] == fe else Stripped(Back(c, ids)[i], ids) != Stripped(fe, ids)
  {
    var shared := At(c.shared, LISTENERS);
    var fes := KeepObjs(shared, ids);
    SharedUnique(c);
    KeepUnique(shared, ids);
    KeepMember(shared, ids, fes[i]);
    AttachedOwn(fes, ids, fes[i].name);
    ReattachOne(fes[i], ids, AttachedAll(map[], fes, ids));
  }

  lemma BackStays(c: Config, ids: set<Id>)
    requires Plain(c)
    ensures KeepObjs(Back(c, ids), ids) == Back(c, ids) && TakeObjs(Back(c, ids), ids) == []
  {
    var back := Back(c, ids);
    forall i | 0 <= i < |back|
      ensures back[i].id !in ids
    {
      BackAt(c, ids, i);
    }
    KeepAll(back, ids);
    KeepAgain(back, ids);
  }

  /** The part of a collection that stayed shared, after promoting. */
  function Base(c: Config, ids: set<Id>, k: Key): seq<Obj> {
    if k == LISTENERS then Back(c, ids) else KeepObjs(At(c.shared, k), ids)
  }

  lemma BaseStays(c: Config, ids: set<Id>, k: Key)
    requires Plain(c)
    ensures KeepObjs(Base(c, ids, k), ids) == Base(c, ids, k) && TakeObjs(Base(c, ids, k), ids) == []
  {
    if k == LISTENERS {
      BackStays(c, ids);
    } else {
      KeepAgain(At(c.shared, k), ids);
    }
  }

  function Mine(c: Config, ids: set<Id>, k: Key): seq<Obj> {
    At(c.own, k) + TakeObjs(At(c.shared, k), ids)
  }

  lemma AnyCollectionView(c: Config, ids: set<Id>, k: Key)
    requires Plain(c)
    ensures OwnAfter(c, ids, k) == Mine(c, ids, k)
    ensures KeepObjs(Mine(c, ids, k), IdsOf(KeepObjs(At(c.shared, k), ids))) == Mine(c, ids, k)
  {
    if k in c.shared {
      CollectionView(c, ids, k);
    } else {
      assert At(c.shared, k) == [] && KeepObjs(At(c.shared, k), ids) == [] && TakeObjs(At(c.shared, k), ids) == [];
      assert IdsOf(KeepObjs(At(c.shared, k), ids)) == {};
      KeepAll(Mine(c, ids, k), {});
      assert OwnAfter(c, ids, k) == At(c.own, k) + [];
    }
  }

  lemma MineNotAttached(c: Config, ids: set<Id>, fe: Obj)
    requires Plain(c) && fe in Mine(c, ids, LISTENERS)
    ensures Reattached(fe, AttachedAll(map[], KeepObjs(At(c.shared, LISTENERS), ids), ids)) == fe
  {
    var fes := KeepObjs(At(c.shared, LISTENERS), ids);
    SharedUnique(c);
    KeepUnique(At(c.shared, LISTENERS), ids);
    forall i | 0 <= i < |fes|
      ensures fes[i].name != fe.name
    {
      MovedNames(c, ids, fe, fes[i]);
    }
    AttachedOwn(fes, ids, fe.name);
  }

  lemma ReattachedConcat(xs: seq<Obj>, ys: seq<Obj>, attach: map<string, Slot>)
    ensures ReattachedAll(xs + ys, attach) == ReattachedAll(xs, attach) + ReattachedAll(ys, attach)
  {
  }

  lemma PromotedListeners(c: Config, ids: set<Id>)
    requires Plain(c)
    ensures ReattachedAll(CombinedAt(Moved(c, ids), LISTENERS), Moved(c, ids).attach)
         == Back(c, ids) + Mine(c, ids, LISTENERS)
  {
    var fes := KeepObjs(At(c.shared, LISTENERS), ids);
    var attach, mine := AttachedAll(map[], fes, ids), Mine(c, ids, LISTENERS);
    AnyCollectionView(c, ids, LISTENERS);
    OwnAt(c, ids, LISTENERS);
    StrippedIds(fes, ids);
    assert At(Moved(c, ids).shared, LISTENERS) == StrippedAll(fes, ids);
    ReattachedConcat(StrippedAll(fes, ids), mine, attach);
    forall i | 0 <= i < |mine|
      ensures ReattachedAll(mine, attach)[i] == mine[i]
    {
      MineNotAttached(c, ids, mine[i]);
    }
    assert ReattachedAll(mine, attach) == mine;
  }

  lemma PromotedIs(m: Config, k: Key)
    ensures At(Promoted(m).shared, k)
         == if k == LISTENERS then ReattachedAll(CombinedAt(m, k), m.attach) else CombinedAt(m, k)
  {
  }

  lemma CombinedMoved(c: Config, ids: set<Id>, k: Key)
    requires Plain(c) && k != LISTENERS
    ensures CombinedAt(Moved(c, ids), k) == KeepObjs(At(c.shared, k), ids) + Mine(c, ids, k)
  {
    AnyCollectionView(c, ids, k);
    OwnAt(c, ids, k);
    assert At(Moved(c, ids).shared, k) == KeepObjs(At(c.shared, k), ids);
  }

  /** Promoting what was moved puts this node's objects behind those that stayed. */
  lemma PromotedAt(c: Config, ids: set<Id>, k: Key)
    requires Plain(c)
    ensures At(Promoted(Moved(c, ids)).shared, k) == Base(c, ids, k) + Mine(c, ids, k)
  {
    PromotedIs(Moved(c, ids), k);
    if k == LISTENERS {
      PromotedListeners(c, ids);
    } else {
      CombinedMoved(c, ids, k);
    }
  }

  lemma PromotedKeys(c: Config, ids: set<Id>)
    requires Plain(c)
    ensures Promoted(Moved(c, ids)).shared.Keys == c.shared.Keys + NonEmpty(c.own)
  {
    SharedKeys(Moved(c, ids));
    MovedSharedKeys(c.shared, ids);
    MovedNonEmpty(c, ids);
  }

  lemma MovedNonEmpty(c: Config, ids: set<Id>)
    requires Plain(c)
    ensures NonEmpty(c.own) <= NonEmpty(MovedOwn(c, ids)) <= c.shared.Keys + NonEmpty(c.own)
  {
    MovedOwnIs(c, ids);
    forall k | k in NonEmpty(MovedOwn(c, ids))
      ensures k in c.shared || k in NonEmpty(c.own)
    {
      AnyCollectionView(c, ids, k);
    }
    forall k | k in NonEmpty(c.own)
      ensures k in NonEmpty(MovedOwn(c, ids))
    {
      AnyCollectionView(c, ids, k);
    }
  }

  /** What a second move leaves and takes of a collection. */
  lemma AgainAt(c: Config, ids: set<Id>, k: Key)
    requires Plain(c)
    ensures var xs := At(Promoted(Moved(c, ids)).shared, k);
      && KeepObjs(xs, ids) == Base(c, ids, k) + KeepObjs(At(c.own, k), ids)
      && TakeObjs(xs, ids) == TakeObjs(At(c.own, k), ids) + TakeObjs(At(c.shared, k), ids)
  {
    PromotedAt(c, ids, k);
    BaseStays(c, ids, k);
    TakenBehind(Base(c, ids, k), At(c.own, k), At(c.shared, k), ids);
  }

  lemma TakenBehind(base: seq<Obj>, own: seq<Obj>, shared: seq<Obj>, ids: set<Id>)
    requires KeepObjs(base, ids) == base && TakeObjs(base, ids) == []
    ensures var xs := base + (own + TakeObjs(shared, ids));
      && KeepObjs(xs, ids) == base + KeepObjs(own, ids)
      && TakeObjs(xs, ids) == TakeObjs(own, ids) + TakeObjs(shared, ids)
  {
    KeepConcat(base, own + TakeObjs(shared, ids), ids);
    KeepConcat(own, TakeObjs(shared, ids), ids);
    KeepAgain(shared, ids);
  }

  lemma OwnAfterNone(q: Config, ids: set<Id>, k: Key)
    requires At(q.own, k) == []
    ensures OwnAfter(q, ids, k) == TakeObjs(At(q.shared, k), ids)
  {
    var taken := TakeObjs(At(q.shared, k), ids);
    assert IdsOf(At(q.own, k)) == {};
    KeepAll(taken, {});
    assert [] + taken == taken;
  }

  /** This node's own after the second move. */
  lemma AgainOwn(c: Config, ids: set<Id>, k: Key)
    requires Plain(c)
    ensures OwnAfter(Promoted(Moved(c, ids)), ids, k) == TakeObjs(At(c.own, k), ids) + TakeObjs(At(c.shared, k), ids)
    ensures OwnAfter(Promoted(Moved(c, ids)), ids, k) == OwnAfter(c, ids, k) <==> Returns(At(c.own, k), ids)
  {
    var own, taken := At(c.own, k), TakeObjs(At(c.shared, k), ids);
    AgainAt(c, ids, k);
    AnyCollectionView(c, ids, k);
    OwnAfterNone(Promoted(Moved(c, ids)), ids, k);
    TakeAll(own, ids);
    SameFront(TakeObjs(own, ids), own, taken);
  }

  lemma SameFront<T>(a: seq<T>, b: seq<T>, rest: seq<T>)
    ensures a + rest == b + rest <==> a == b
  {
    if a + rest == b + rest {
      assert |a| == |b|;
      assert (a + rest)[..|a|] == a && (b + rest)[..|b|] == b;
    }
  }

  lemma AgainOwnKeys(c: Config, ids: set<Id>)
    requires Plain(c)
    ensures var q := Promoted(Moved(c, ids));
      q.own.Keys + Givers(q.shared, ids) == c.own.Keys + Givers(c.shared, ids)
  {
    var q := Promoted(Moved(c, ids));
    assert q.own.Keys == c.own.Keys + Givers(c.shared, ids);
    forall k | k in Givers(q.shared, ids)
      ensures k in q.own.Keys
    {
      AgainAt(c, ids, k);
    }
  }

  lemma AgainSameOwn(c: Config, ids: set<Id>)
    requires Plain(c)
    ensures MovedOwn(Promoted(Moved(c, ids)), ids) == MovedOwn(c, ids)
       <==> forall k :: k in c.own ==> Returns(c.own[k], ids)
  {
    forall k
      ensures OwnAfter(Promoted(Moved(c, ids)), ids, k) == OwnAfter(c, ids, k) <==> Returns(At(c.own, k), ids)
    {
      AgainOwn(c, ids, k);
    }
    AgainOwnKeys(c, ids);
    MovedOwnIs(Promoted(Moved(c, ids)), ids);
    MovedOwnIs(c, ids);
    SameOwn(MovedOwn(Promoted(Moved(c, ids)), ids), MovedOwn(c, ids), c.own, ids);
  }

  lemma MovedOwnIs(c: Config, ids: set<Id>)
    ensures MovedOwn(c, ids).Keys == c.own.Keys + Givers(c.shared, ids)
    ensures forall k :: k in MovedOwn(c, ids) ==> MovedOwn(c, ids)[k] == OwnAfter(c, ids, k)
  {
  }

  lemma SameOwn(a: map<Key, seq<Obj>>, b: map<Key, seq<Obj>>, own: map<Key, seq<Obj>>, ids: set<Id>)
    requires a.Keys == b.Keys && own.Keys <= b.Keys
    requires forall k :: k in b ==> (a[k] == b[k] <==> Returns(At(own, k), ids))
    ensures a == b <==> forall k :: k in own ==> Returns(own[k], ids)
  {
    if a == b {
      forall k | k in own
        ensures Returns(own[k], ids)
      {
        assert a[k] == b[k];
      }
    }
  }

  /** The listeners that stayed are as they were exactly when those that gave
      something away have both lists. */
  lemma BackSame(c: Config, ids: set<Id>)
    requires Plain(c)
    ensures var fes := KeepObjs(At(c.shared, LISTENERS), ids);
      if forall fe :: fe in fes ==> BothLists(fe, ids) then Back(c, ids) == fes
      else StrippedAll(Back(c, ids), ids) != StrippedAll(fes, ids)
  {
    var fes := KeepObjs(At(c.shared, LISTENERS), ids);
    if forall fe :: fe in fes ==> BothLists(fe, ids) {
      forall i | 0 <= i < |fes|
        ensures Back(c, ids)[i] == fes[i]
      {
        BackAt(c, ids, i);
      }
    } else {
      var i :| 0 <= i < |fes| && !BothLists(fes[i], ids);
      BackAt(c, ids, i);
      assert StrippedAll(Back(c, ids), ids)[i] != StrippedAll(fes, ids)[i];
    }
  }

  lemma AgainKept(c: Config, ids: set<Id>)
    requires Plain(c) && forall k :: k in c.own ==> Returns(c.own[k], ids)
    ensures var q := Promoted(Moved(c, ids)).shared; forall k :: k in q ==> KeepObjs(q[k], ids) == Base(c, ids, k)
  {
    var q := Promoted(Moved(c, ids)).shared;
    forall k | k in q
      ensures KeepObjs(q[k], ids) == Base(c, ids, k)
    {
      AgainAt(c, ids, k);
      TakeAll(At(c.own, k), ids);
    }
  }

  lemma AgainSameShared(c: Config, ids: set<Id>)
    requires Plain(c) && forall k :: k in c.own ==> Returns(c.own[k], ids)
    ensures MovedShared(Promoted(Moved(c, ids)).shared, ids) == MovedShared(c.shared, ids) <==> Restores(c, ids)
    ensures Restores(c, ids) ==> Kept(Promoted(Moved(c, ids)).shared, ids) == Kept(c.shared, ids)
  {
    PromotedKeys(c, ids);
    AgainKept(c, ids);
    SharedAgain(c, ids, Promoted(Moved(c, ids)).shared);
  }

  lemma SharedAgain(c: Config, ids: set<Id>, q: map<Key, seq<Obj>>)
    requires Plain(c) && forall k :: k in c.own ==> Returns(c.own[k], ids)
    requires q.Keys == c.shared.Keys + NonEmpty(c.own) && forall k :: k in q ==> KeepObjs(q[k], ids) == Base(c, ids, k)
    ensures MovedShared(q, ids) == MovedShared(c.shared, ids) <==> Restores(c, ids)
    ensures Restores(c, ids) ==> Kept(q, ids) == Kept(c.shared, ids)
  {
    BackSame(c, ids);
    SameShared(q, c.shared, ids, Back(c, ids));
    if Restores(c, ids) {
      SameKept(q, c.shared, ids, Back(c, ids));
    }
  }

  /** The collections of q are those of shared once more, but for the listeners. */
  ghost predicate KeepsAs(q: map<Key, seq<Obj>>, shared: map<Key, seq<Obj>>, ids: set<Id>, back: seq<Obj>) {
    shared.Keys <= q.Keys
    && forall k :: k in q ==> KeepObjs(q[k], ids) == if k == LISTENERS then back else KeepObjs(At(shared, k), ids)
  }

  lemma SameShared(q: map<Key, seq<Obj>>, shared: map<Key, seq<Obj>>, ids: set<Id>, back: seq<Obj>)
    requires KeepsAs(q, shared, ids, back)
    ensures MovedShared(q, ids) == MovedShared(shared, ids)
       <==> q.Keys == shared.Keys && (LISTENERS in shared ==>
              StrippedAll(back, ids) == StrippedAll(KeepObjs(shared[LISTENERS], ids), ids))
  {
    MovedSharedKeys(q, ids);
    MovedSharedKeys(shared, ids);
    forall k | k in shared
      ensures k != LISTENERS ==> MovedShared(q, ids)[k] == MovedShared(shared, ids)[k]
    {
      SameSharedAt(q, shared, ids, back, k);
    }
    if LISTENERS in shared {
      SameSharedAt(q, shared, ids, back, LISTENERS);
    }
    SameBut(MovedShared(q, ids), MovedShared(shared, ids), LISTENERS);
  }

  lemma MovedSharedKeys(shared: map<Key, seq<Obj>>, ids: set<Id>)
    ensures MovedShared(shared, ids).Keys == shared.Keys
  {
  }

  lemma SameSharedAt(q: map<Key, seq<Obj>>, shared: map<Key, seq<Obj>>, ids: set<Id>, back: seq<Obj>, k: Key)
    requires KeepsAs(q, shared, ids, back) && k in shared
    ensures k != LISTENERS ==> MovedShared(q, ids)[k] == MovedShared(shared, ids)[k]
    ensures k == LISTENERS ==> MovedShared(q, ids)[k] == StrippedAll(back, ids)
    ensures k == LISTENERS ==> MovedShared(shared, ids)[k] == StrippedAll(KeepObjs(shared[k], ids), ids)
  {
    MovedSharedAt(q, ids, k);
    MovedSharedAt(shared, ids, k);
  }

  lemma SameBut<K, V>(a: map<K, V>, b: map<K, V>, l: K)
    requires b.Keys <= a.Keys && forall k :: k in b && k != l ==> a[k] == b[k]
    ensures a == b <==> a.Keys == b.Keys && (l in b ==> a[l] == b[l])
  {
  }

  lemma SameKept(q: map<Key, seq<Obj>>, shared: map<Key, seq<Obj>>, ids: set<Id>, back: seq<Obj>)
    requires KeepsAs(q, shared, ids, back)
    requires q.Keys == shared.Keys && back == KeepObjs(At(shared, LISTENERS), ids)
    ensures Kept(q, ids) == Kept(shared, ids)
  {
  }

  lemma MovedSharedAt(shared: map<Key, seq<Obj>>, ids: set<Id>, k: Key)
    requires k in shared
    ensures MovedShared(shared, ids)[k]
         == if k == LISTENERS then StrippedAll(KeepObjs(shared[k], ids), ids) else KeepObjs(shared[k], ids)
  {
  }

  /** Promoting and moving again restores the moved state, attachments and all, exactly
      when this node gets back what it owned. */
  lemma MovedAgain(c: Config, ids: set<Id>)
    requires Plain(c)
    ensures Moved(Promoted(Moved(c, ids)), ids) == Moved(c, ids) <==> Restores(c, ids)
  {
    AgainSameOwn(c, ids);
    if forall k :: k in c.own ==> Returns(c.own[k], ids) {
      AgainSameShared(c, ids);
    }
  }
}
