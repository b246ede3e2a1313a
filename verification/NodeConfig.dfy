/** The configuration as the program holds it: dictionaries and lists rewritten
    in place by move_to_local and promote_local. */
module NodeConfig {
  import opened Options
  import opened LocalObjects

  class Store {
    var shared: map<Key, seq<Obj>>
    var own: map<Key, seq<Obj>>
    var attach: map<string, Slot>

    ghost function State(): Config
      reads this
    {
      Config(shared, own, attach)
    }

    constructor (c: Config)
      ensures State() == c
    {
      shared, own, attach := c.shared, c.own, c.attach;
    }

    // ---- move_to_local ----------------------------------------------------------

    method MoveCollection(ghost c: Config, ids: set<Id>, ghost todo: set<Key>, k: Key) returns (moved: nat)
      requires k in todo && k in c.shared && PartlyMoved(c, ids, todo, shared, own)
      modifies this`shared, this`own
      ensures PartlyMoved(c, ids, todo - {k}, shared, own)
      ensures Count(own) == Count(old(own)) + moved
    {
      var items := shared[k];
      var take := TakeObjs(items, ids);
      if take == [] {
        NothingLeaves(items, ids);
        StayStep(c, ids, todo, k, shared, own);
        return 0;
      }
      var here := if k in own then own[k] else [];
      var have := IdsOf(here);
      var added := KeepObjs(take, have);
      MoveStep(c, ids, todo, k, shared, own);
      CountPut(own, k, here + added);
      shared := shared[k := KeepObjs(items, ids)];
      own := own[k := here + added];
      moved := |added|;
    }

    method MoveCollections(ids: set<Id>) returns (moved: nat)
      modifies this`shared, this`own
      ensures shared == Kept(old(shared), ids)
      ensures own == MovedOwn(old(State()), ids)
      ensures Count(own) == Count(old(own)) + moved
    {
      ghost var c := State();
      var todo := shared.Keys;
      moved := 0;
      OwnUntouched(c, ids);
      while todo != {}
        invariant todo <= c.shared.Keys && PartlyMoved(c, ids, todo, shared, own)
        invariant Count(own) == Count(c.own) + moved
        decreases todo
      {
        var k :| k in todo;
        var more := MoveCollection(c, ids, todo, k);
        moved := moved + more;
        todo := todo - {k};
      }
    }

    method MoveLists(ids: set<Id>)
      modifies this`shared, this`attach
      ensures LISTENERS !in old(shared) ==> shared == old(shared) && attach == old(attach)
      ensures LISTENERS in old(shared) ==>
        && shared == old(shared)[LISTENERS := StrippedAll(old(shared)[LISTENERS], ids)]
        && attach == AttachedAll(old(attach), old(shared)[LISTENERS], ids)
    {
      if LISTENERS !in shared {
        return;
      }
      var fes := shared[LISTENERS];
      var listeners := fes;
      for i := 0 to |fes|
        invariant |listeners| == |fes|
        invariant forall j :: 0 <= j < |fes| ==> listeners[j] == if j < i then Stripped(fes[j], ids) else fes[j]
        invariant shared == old(shared)
        invariant attach == AttachedAll(old(attach), fes[..i], ids)
      {
        assert fes[..i + 1][..i] == fes[..i];
        attach := Attached(attach, fes[i], ids);
        listeners := listeners[i := Stripped(fes[i], ids)];
      }
      assert fes[..|fes|] == fes;
      assert listeners == StrippedAll(fes, ids);
      shared := shared[LISTENERS := listeners];
    }

    /** What it returns is by how much the node's own collections have grown. */
    method MoveToLocal(wanted: set<Id>) returns (moved: nat)
      modifies this
      ensures State() == if wanted - {""} == {} then old(State()) else Moved(old(State()), wanted - {""})
      ensures Count(own) == Count(old(own)) + moved
    {
      var ids := wanted - {""};
      if ids == {} {
        return 0;
      }
      moved := MoveCollections(ids);
      MoveLists(ids);
    }

    // ---- promote_local ----------------------------------------------------------

    method PromoteCollection(ghost c: Config, ghost todo: set<Key>, k: Key)
      requires k in todo && k in c.own && PartlyPromoted(c, todo, shared, own)
      modifies this`shared, this`own
      ensures PartlyPromoted(c, todo - {k}, shared, own)
    {
      var items := own[k];
      if items == [] {
        PassStep(c, todo, k, shared, own);
        return;
      }
      PromoteStep(c, todo, k, shared, own);
      var dest := if k in shared then shared[k] else [];
      shared := shared[k := dest + KeepObjs(items, IdsOf(dest))];
      own := own[k := []];
    }

    method PromoteCollections() returns (moved: set<Id>)
      modifies this`shared, this`own
      ensures own == map k | k in old(own) :: []
      ensures shared == Combined(old(State()))
      ensures moved == OwnedIds(old(own), old(own).Keys)
    {
      ghost var c := State();
      var todo := own.Keys;
      moved := {};
      while todo != {}
        invariant todo <= c.own.Keys && PartlyPromoted(c, todo, shared, own)
        invariant moved == OwnedIds(c.own, c.own.Keys - todo)
        decreases todo
      {
        var k :| k in todo;
        moved := moved + IdsOf(own[k]);
        OneLess(c.own.Keys, todo, k);
        OwnedStep(c.own, c.own.Keys - todo, k);
        PromoteCollection(c, todo, k);
        todo := todo - {k};
      }
    }

    method ReattachLists()
      modifies this`shared
      ensures LISTENERS !in old(shared) ==> shared == old(shared)
      ensures LISTENERS in old(shared) ==>
        shared == old(shared)[LISTENERS := ReattachedAll(old(shared)[LISTENERS], attach)]
    {
      if LISTENERS !in shared {
        return;
      }
      var fes := shared[LISTENERS];
      var todo := attach.Keys;
      while todo != {}
        invariant todo <= attach.Keys
        invariant LISTENERS in shared && shared == old(shared)[LISTENERS := shared[LISTENERS]]
        invariant |shared[LISTENERS]| == |fes|
        invariant forall i :: 0 <= i < |fes| ==>
          shared[LISTENERS][i] == if fes[i].name in todo then fes[i] else Reattached(fes[i], attach)
        decreases todo
      {
        var name :| name in todo;
        ReattachNamed(name, fes, todo);
        todo := todo - {name};
      }
      assert shared[LISTENERS] == ReattachedAll(fes, attach);
    }

    method ReattachNamed(name: string, ghost fes: seq<Obj>, ghost todo: set<string>)
      requires name in attach && name in todo
      requires LISTENERS in shared && |shared[LISTENERS]| == |fes|
      requires forall i :: 0 <= i < |fes| ==>
        shared[LISTENERS][i] == if fes[i].name in todo then fes[i] else Reattached(fes[i], attach)
      modifies this`shared
      ensures LISTENERS in shared && shared == old(shared)[LISTENERS := shared[LISTENERS]]
      ensures |shared[LISTENERS]| == |fes|
      ensures forall i :: 0 <= i < |fes| ==>
        shared[LISTENERS][i] == if fes[i].name in todo - {name} then fes[i] else Reattached(fes[i], attach)
    {
      var listeners := shared[LISTENERS];
      var att := attach[name];
      for n := 0 to |listeners|
        invariant |listeners| == |fes|
        invariant forall i :: 0 <= i < |fes| ==>
          listeners[i] == if fes[i].name in (if i < n then todo - {name} else todo) then fes[i]
                          else Reattached(fes[i], attach)
      {
        var fe := listeners[n];
        if fe.name == name {
          var rules, certificates := fe.rules.Or([]), fe.certificates.Or([]);
          listeners := listeners[n := fe.(
            rules := Some(Reinsert(rules, Without(att.rules, rules), att.at)),
            certificates := Some(Reinsert(certificates, Without(att.certificates, certificates), att.at)))];
        }
      }
      shared := shared[LISTENERS := listeners];
    }

    method PromoteLocal() returns (moved: set<Id>)
      modifies this
      ensures State() == Promoted(old(State()))
      ensures moved == OwnedIds(old(own), old(own).Keys)
    {
      moved := PromoteCollections();
      ReattachLists();
      attach := map[];
    }
  }

  // ---- how many objects ---------------------------------------------------------

  ghost function Count(m: map<Key, seq<Obj>>): nat {
    Total(m, m.Keys)
  }

  ghost function Total(m: map<Key, seq<Obj>>, keys: set<Key>): nat
    requires keys <= m.Keys
    decreases |keys|
  {
    if keys == {} then 0
    else
      var k :| k in keys;
      |m[k]| + Total(m, keys - {k})
  }

  lemma {:induction false} TotalWith(m: map<Key, seq<Obj>>, keys: set<Key>, k: Key)
    requires keys <= m.Keys && k in keys
    ensures Total(m, keys) == |m[k]| + Total(m, keys - {k})
    decreases |keys|
  {
    var first :| first in keys && Total(m, keys) == |m[first]| + Total(m, keys - {first});
    if first != k {
      TotalWith(m, keys - {first}, k);
      TotalWith(m, keys - {k}, first);
      assert keys - {first} - {k} == keys - {k} - {first};
    }
  }

  lemma {:induction false} TotalSame(a: map<Key, seq<Obj>>, b: map<Key, seq<Obj>>, keys: set<Key>)
    requires keys <= a.Keys && keys <= b.Keys && forall k :: k in keys ==> a[k] == b[k]
    ensures Total(a, keys) == Total(b, keys)
    decreases |keys|
  {
    if k :| k in keys {
      TotalSame(a, b, keys - {k});
      TotalWith(a, keys, k);
      TotalWith(b, keys, k);
    }
  }

  lemma CountPut(m: map<Key, seq<Obj>>, k: Key, v: seq<Obj>)
    ensures Count(m[k := v]) + |At(m, k)| == Count(m) + |v|
  {
    var after := m[k := v];
    var rest := m.Keys - {k};
    TotalSame(m, after, rest);
    TotalWith(after, after.Keys, k);
    assert after.Keys - {k} == rest;
    if k in m {
      TotalWith(m, m.Keys, k);
    } else {
      assert rest == m.Keys;
    }
  }

  /** Collections already visited are split, the others are as they were. */
  ghost predicate PartlyMoved(c: Config, ids: set<Id>, todo: set<Key>, shared: map<Key, seq<Obj>>,
          own: map<Key, seq<Obj>>)
  {
    SharedPart(c, ids, todo, shared) && OwnPart(c, ids, todo, own)
  }

  ghost predicate SharedPart(c: Config, ids: set<Id>, todo: set<Key>, shared: map<Key, seq<Obj>>) {
    && shared.Keys == c.shared.Keys
    && (forall k :: k in c.shared ==>
          shared[k] == if k in todo then c.shared[k] else KeepObjs(c.shared[k], ids))
  }

  ghost predicate OwnPart(c: Config, ids: set<Id>, todo: set<Key>, own: map<Key, seq<Obj>>) {
    && own.Keys == c.own.Keys + (Givers(c.shared, ids) - todo)
    && (forall k :: k in own ==> own[k] == if k in todo then At(c.own, k) else OwnAfter(c, ids, k))
  }

  lemma MoveStep(c: Config, ids: set<Id>, todo: set<Key>, k: Key, shared: map<Key, seq<Obj>>, own: map<Key, seq<Obj>>)
    requires k in todo && k in c.shared && PartlyMoved(c, ids, todo, shared, own)
    requires TakeObjs(shared[k], ids) != []
    ensures var here := At(own, k);
      PartlyMoved(c, ids, todo - {k}, shared[k := KeepObjs(shared[k], ids)],
                  own[k := here + KeepObjs(TakeObjs(shared[k], ids), IdsOf(here))])
  {
    SharedStep(c, ids, todo, k, shared);
    OwnStep(c, ids, todo, k, shared, own);
  }

  lemma SharedStep(c: Config, ids: set<Id>, todo: set<Key>, k: Key, shared: map<Key, seq<Obj>>)
    requires k in todo && k in c.shared && SharedPart(c, ids, todo, shared)
    ensures SharedPart(c, ids, todo - {k}, shared[k := KeepObjs(shared[k], ids)])
  {
  }

  lemma OwnStep(c: Config, ids: set<Id>, todo: set<Key>, k: Key, shared: map<Key, seq<Obj>>, own: map<Key, seq<Obj>>)
    requires k in todo && k in c.shared && OwnPart(c, ids, todo, own)
    requires k in shared && shared[k] == c.shared[k] && TakeObjs(shared[k], ids) != []
    ensures OwnPart(c, ids, todo - {k}, own[k := At(own, k) + KeepObjs(TakeObjs(shared[k], ids), IdsOf(At(own, k)))])
  {
    assert At(own, k) == At(c.own, k);
    var own' := own[k := OwnAfter(c, ids, k)];
    assert own'.Keys == c.own.Keys + (Givers(c.shared, ids) - (todo - {k}));
  }

  lemma StayStep(c: Config, ids: set<Id>, todo: set<Key>, k: Key, shared: map<Key, seq<Obj>>, own: map<Key, seq<Obj>>)
    requires k in todo && k in c.shared && PartlyMoved(c, ids, todo, shared, own)
    requires TakeObjs(c.shared[k], ids) == [] && KeepObjs(c.shared[k], ids) == c.shared[k]
    ensures PartlyMoved(c, ids, todo - {k}, shared, own)
  {
    assert OwnAfter(c, ids, k) == At(c.own, k);
  }

  ghost predicate PartlyPromoted(c: Config, todo: set<Key>, shared: map<Key, seq<Obj>>, own: map<Key, seq<Obj>>) {
    && shared.Keys == c.shared.Keys + (NonEmpty(c.own) - todo)
    && (forall k :: k in shared ==>
          shared[k] == if k in todo then At(c.shared, k) else CombinedAt(c, k))
    && own.Keys == c.own.Keys
    && (forall k :: k in own ==> own[k] == if k in todo then c.own[k] else [])
  }

  lemma PromoteStep(c: Config, todo: set<Key>, k: Key, shared: map<Key, seq<Obj>>, own: map<Key, seq<Obj>>)
    requires k in todo && k in c.own && PartlyPromoted(c, todo, shared, own)
    requires own[k] != []
    ensures var dest := At(shared, k);
      PartlyPromoted(c, todo - {k}, shared[k := dest + KeepObjs(own[k], IdsOf(dest))], own[k := []])
  {
    assert At(shared, k) == At(c.shared, k);
    var shared' := shared[k := CombinedAt(c, k)];
    assert shared'.Keys == c.shared.Keys + (NonEmpty(c.own) - (todo - {k}));
  }

  lemma PassStep(c: Config, todo: set<Key>, k: Key, shared: map<Key, seq<Obj>>, own: map<Key, seq<Obj>>)
    requires k in todo && k in c.own && PartlyPromoted(c, todo, shared, own)
    requires own[k] == []
    ensures PartlyPromoted(c, todo - {k}, shared, own)
  {
    assert CombinedAt(c, k) == At(c.shared, k);
    assert NonEmpty(c.own) - todo == NonEmpty(c.own) - (todo - {k});
  }

  /** The ids of everything in these collections. */
  function OwnedIds(own: map<Key, seq<Obj>>, keys: set<Key>): set<Id> {
    set k, x | k in keys && k in own && x in IdsOf(own[k]) :: x
  }

  lemma OneLess(all: set<Key>, todo: set<Key>, k: Key)
    requires k in todo && todo <= all
    ensures all - (todo - {k}) == (all - todo) + {k}
  {
  }

  lemma OwnedStep(own: map<Key, seq<Obj>>, keys: set<Key>, k: Key)
    requires k in own
    ensures OwnedIds(own, keys + {k}) == OwnedIds(own, keys) + IdsOf(own[k])
  {
  }

  lemma {:induction false} NothingLeaves(xs: seq<Obj>, ids: set<Id>)
    requires TakeObjs(xs, ids) == []
    ensures KeepObjs(xs, ids) == xs
  {
    if xs != [] {
      NothingLeaves(xs[1..], ids);
    }
  }

  lemma OwnUntouched(c: Config, ids: set<Id>)
    ensures Givers(c.shared, ids) - c.shared.Keys == {}
    ensures forall k :: k in c.own && k !in c.shared ==> OwnAfter(c, ids, k) == c.own[k]
  {
  }
}
