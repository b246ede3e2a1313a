/** The configuration's collections (ham/util.py, ham/wizard.py): lists of
    objects with an id and a name that other objects refer to by id. */
module Collections {
  import opened Options

  type Id = string

  datatype Item<+B> = Item(id: Id, name: string, body: B)

  function Ids<B(==)>(xs: seq<Item<B>>): set<Id> {
    set x | x in xs :: x.id
  }

  function NamesOf<B(==)>(xs: seq<Item<B>>): set<string> {
    set x | x in xs :: x.name
  }

  /** No id and no name is used twice. */
  ghost predicate Distinct<B>(xs: seq<Item<B>>) {
    xs == [] || (xs[0].id !in Ids(xs[1..]) && xs[0].name !in NamesOf(xs[1..]) && Distinct(xs[1..]))
  }

  /** `_find`: the first item that fits. */
  function Find<B(==)>(xs: seq<Item<B>>, fits: Item<B> -> bool): (r: Option<Item<B>>)
    ensures r.Some? ==> r.value in xs && fits(r.value)
  {
    if xs == [] then None else if fits(xs[0]) then Some(xs[0]) else Find(xs[1..], fits)
  }

  /** `_by_id(xs).get(id)`. */
  function Lookup<B(==)>(xs: seq<Item<B>>, id: Id): (r: Option<Item<B>>)
    ensures r.Some? ==> r.value in xs && r.value.id == id
  {
    if xs == [] then None else if xs[0].id == id then Some(xs[0]) else Lookup(xs[1..], id)
  }

  /** Change the item with x's id to x, or append x when there is none. */
  function Upsert<B(==)>(xs: seq<Item<B>>, x: Item<B>): (r: seq<Item<B>>) {
    if xs == [] then [x]
    else if xs[0].id == x.id then [x] + xs[1..]
    else [xs[0]] + Upsert(xs[1..], x)
  }

  /** Every item but the one with this id. */
  function Without<B(==)>(xs: seq<Item<B>>, id: Id): (r: seq<Item<B>>) {
    if xs == [] then []
    else if xs[0].id == id then Without(xs[1..], id)
    else [xs[0]] + Without(xs[1..], id)
  }

  /** Of the candidates, remove those nothing uses. */
  function DropUnused<B(==)>(xs: seq<Item<B>>, candidates: seq<Id>, used: set<Id>): seq<Item<B>>
    decreases |candidates|
  {
    if candidates == [] then xs
    else DropUnused(if candidates[0] in used then xs else Without(xs, candidates[0]), candidates[1..], used)
  }

  // ----- ids and names -----

  lemma IdsCons<B>(x: Item<B>, xs: seq<Item<B>>)
    ensures Ids([x] + xs) == {x.id} + Ids(xs)
    ensures NamesOf([x] + xs) == {x.name} + NamesOf(xs)
  {
    var all := [x] + xs;
    forall y | y in all
      ensures y == x || y in xs
    {
    }
    assert all[0] == x;
    forall y | y in xs
      ensures y in all
    {
      assert all[1..] == xs;
    }
  }

  lemma {:induction false} LookupIds<B>(xs: seq<Item<B>>, id: Id)
    ensures Lookup(xs, id).Some? <==> id in Ids(xs)
  {
    if xs != [] {
      IdsCons(xs[0], xs[1..]);
      assert [xs[0]] + xs[1..] == xs;
      LookupIds(xs[1..], id);
    }
  }

  lemma {:induction false} DistinctLookup<B>(xs: seq<Item<B>>, x: Item<B>)
    requires Distinct(xs) && x in xs
    ensures Lookup(xs, x.id) == Some(x)
  {
    if xs[0] != x {
      DistinctLookup(xs[1..], x);
    }
  }

  /** Two items with one name are one item. */
  lemma {:induction false} SameName<B>(xs: seq<Item<B>>, x: Item<B>, y: Item<B>)
    requires Distinct(xs) && x in xs && y in xs && x.name == y.name
    ensures x == y
  {
    if xs[0] != x && xs[0] != y {
      SameName(xs[1..], x, y);
    }
  }

  // ----- changing or appending an item -----

  lemma {:induction false} UpsertIds<B>(xs: seq<Item<B>>, x: Item<B>)
    ensures Ids(Upsert(xs, x)) == Ids(xs) + {x.id}
  {
    if xs == [] {
      IdsCons(x, []);
      assert [x] + [] == [x];
    } else {
      IdsCons(xs[0], xs[1..]);
      assert [xs[0]] + xs[1..] == xs;
      IdsCons(x, xs[1..]);
      IdsCons(xs[0], Upsert(xs[1..], x));
      UpsertIds(xs[1..], x);
    }
  }

  lemma {:induction false} UpsertLookup<B>(xs: seq<Item<B>>, x: Item<B>, id: Id)
    ensures Lookup(Upsert(xs, x), id) == if id == x.id then Some(x) else Lookup(xs, id)
  {
    if xs != [] && xs[0].id != x.id {
      UpsertLookup(xs[1..], x, id);
    }
  }

  lemma {:induction false} UpsertSame<B>(xs: seq<Item<B>>, x: Item<B>)
    requires Lookup(xs, x.id) == Some(x)
    ensures Upsert(xs, x) == xs
  {
    if xs[0].id != x.id {
      UpsertSame(xs[1..], x);
    }
  }

  lemma {:induction false} UpsertNew<B>(xs: seq<Item<B>>, x: Item<B>)
    requires Distinct(xs) && x.id !in Ids(xs) && x.name !in NamesOf(xs)
    ensures Distinct(Upsert(xs, x))
    ensures NamesOf(Upsert(xs, x)) == NamesOf(xs) + {x.name}
  {
    if xs == [] {
      IdsCons(x, []);
      assert [x] + [] == [x];
    } else {
      IdsCons(xs[0], xs[1..]);
      assert [xs[0]] + xs[1..] == xs;
      UpsertNew(xs[1..], x);
      UpsertIds(xs[1..], x);
      IdsCons(xs[0], Upsert(xs[1..], x));
    }
  }

  /** Changing an item to a name no other one has. */
  lemma {:induction false} UpsertRenamed<B>(xs: seq<Item<B>>, x: Item<B>)
    requires Distinct(xs) && x.id in Ids(xs) && x.name !in NamesOf(Without(xs, x.id))
    ensures Distinct(Upsert(xs, x))
    ensures NamesOf(Upsert(xs, x)) <= NamesOf(xs) + {x.name}
  {
    IdsCons(xs[0], xs[1..]);
    assert [xs[0]] + xs[1..] == xs;
    if xs[0].id == x.id {
      WithoutAbsent(xs[1..], x.id);
      IdsCons(x, xs[1..]);
    } else {
      IdsCons(xs[0], Without(xs[1..], x.id));
      UpsertRenamed(xs[1..], x);
      UpsertIds(xs[1..], x);
      IdsCons(xs[0], Upsert(xs[1..], x));
    }
  }

  lemma {:induction false} UpsertAppends<B>(xs: seq<Item<B>>, x: Item<B>)
    requires x.id !in Ids(xs)
    ensures Upsert(xs, x) == xs + [x]
  {
    if xs != [] {
      IdsCons(xs[0], xs[1..]);
      assert [xs[0]] + xs[1..] == xs;
      UpsertAppends(xs[1..], x);
    }
  }

  lemma {:induction false} FindConcat<B>(xs: seq<Item<B>>, ys: seq<Item<B>>, fits: Item<B> -> bool)
    ensures Find(xs + ys, fits) == if Find(xs, fits).Some? then Find(xs, fits) else Find(ys, fits)
  {
    if xs == [] {
      assert xs + ys == ys;
    } else {
      assert (xs + ys)[1..] == xs[1..] + ys;
      FindConcat(xs[1..], ys, fits);
    }
  }

  // ----- removing an item -----

  lemma {:induction false} WithoutIds<B>(xs: seq<Item<B>>, id: Id)
    ensures Ids(Without(xs, id)) == Ids(xs) - {id}
    ensures NamesOf(Without(xs, id)) <= NamesOf(xs)
  {
    if xs != [] {
      IdsCons(xs[0], xs[1..]);
      assert [xs[0]] + xs[1..] == xs;
      WithoutIds(xs[1..], id);
      IdsCons(xs[0], Without(xs[1..], id));
    }
  }

  lemma {:induction false} WithoutAbsent<B>(xs: seq<Item<B>>, id: Id)
    requires id !in Ids(xs)
    ensures Without(xs, id) == xs
  {
    if xs != [] {
      IdsCons(xs[0], xs[1..]);
      assert [xs[0]] + xs[1..] == xs;
      WithoutAbsent(xs[1..], id);
    }
  }

  lemma {:induction false} WithoutDistinct<B>(xs: seq<Item<B>>, id: Id)
    requires Distinct(xs)
    ensures Distinct(Without(xs, id))
  {
    if xs != [] {
      WithoutDistinct(xs[1..], id);
      WithoutIds(xs[1..], id);
    }
  }

  lemma {:induction false} WithoutLookup<B>(xs: seq<Item<B>>, id: Id, other: Id)
    ensures Lookup(Without(xs, id), other) == if other == id then None else Lookup(xs, other)
  {
    if xs != [] {
      WithoutLookup(xs[1..], id, other);
    }
  }

  lemma {:induction false} WithoutMember<B>(xs: seq<Item<B>>, id: Id, y: Item<B>)
    requires y in Without(xs, id)
    ensures y in xs && y.id != id
  {
    if xs[0].id == id || y != xs[0] {
      WithoutMember(xs[1..], id, y);
    }
  }

  lemma {:induction false} DropUnusedOk<B>(xs: seq<Item<B>>, candidates: seq<Id>, used: set<Id>)
    requires Distinct(xs)
    ensures Distinct(DropUnused(xs, candidates, used))
    ensures forall id ::
      id in Ids(DropUnused(xs, candidates, used)) <==> id in Ids(xs) && (id in used || id !in candidates)
    decreases |candidates|
  {
    if candidates != [] {
      WithoutDistinct(xs, candidates[0]);
      WithoutIds(xs, candidates[0]);
      DropUnusedOk(if candidates[0] in used then xs else Without(xs, candidates[0]), candidates[1..], used);
    }
  }

  lemma {:induction false} DropUnusedLookup<B>(xs: seq<Item<B>>, candidates: seq<Id>, used: set<Id>, id: Id)
    ensures Lookup(DropUnused(xs, candidates, used), id)
         == if id in used || id !in candidates then Lookup(xs, id) else None
    decreases |candidates|
  {
    if candidates != [] {
      WithoutLookup(xs, candidates[0], id);
      DropUnusedLookup(if candidates[0] in used then xs else Without(xs, candidates[0]), candidates[1..], used, id);
    }
  }

  // ----- keeping a collection distinct -----

  /** No other item has x's name. */
  ghost predicate Fits<B>(xs: seq<Item<B>>, x: Item<B>) {
    x.name !in NamesOf(Without(xs, x.id))
  }

  lemma UpsertFits<B>(xs: seq<Item<B>>, x: Item<B>)
    requires Distinct(xs) && Fits(xs, x)
    ensures Distinct(Upsert(xs, x))
  {
    if x.id in Ids(xs) {
      UpsertRenamed(xs, x);
    } else {
      WithoutAbsent(xs, x.id);
      UpsertNew(xs, x);
    }
  }

  lemma FoundFits<B>(xs: seq<Item<B>>, y: Item<B>, x: Item<B>)
    requires Distinct(xs) && y in xs && x.id == y.id && x.name == y.name
    ensures Fits(xs, x)
  {
    if x.name in NamesOf(Without(xs, x.id)) {
      var z :| z in Without(xs, x.id) && z.name == x.name;
      WithoutMember(xs, x.id, z);
      SameName(xs, y, z);
    }
  }

  lemma NewFits<B>(xs: seq<Item<B>>, x: Item<B>)
    requires x.name !in NamesOf(xs)
    ensures Fits(xs, x)
  {
    WithoutIds(xs, x.id);
  }

  lemma {:induction false} UpsertMembers<B>(xs: seq<Item<B>>, x: Item<B>, y: Item<B>)
    requires Distinct(xs)
    ensures y in Upsert(xs, x) <==> y == x || (y in xs && y.id != x.id)
  {
    if xs != [] {
      if xs[0].id == x.id {
        if y in xs[1..] {
          assert y.id in Ids(xs[1..]);
        }
      } else {
        UpsertMembers(xs[1..], x, y);
      }
    }
  }

  // ----- a list that only grows -----

  /** ys still holds, in order, the items of xs whose id is in keep, with what
      `key` reads of them unchanged; others may be gone, and more may follow. */
  ghost predicate Grows<B, K>(xs: seq<Item<B>>, ys: seq<Item<B>>, keep: set<Id>, key: Item<B> -> K) {
    xs == [] ||
    if ys != [] && ys[0].id == xs[0].id then key(xs[0]) == key(ys[0]) && Grows(xs[1..], ys[1..], keep, key)
    else xs[0].id !in keep && Grows(xs[1..], ys, keep, key)
  }

  /** The first fit stays the first fit while its list grows. */
  lemma {:induction false} FindGrows<B, K>(xs: seq<Item<B>>, ys: seq<Item<B>>, keep: set<Id>, key: Item<B> -> K,
          fits: Item<B> -> bool)
    requires Grows(xs, ys, keep, key)
    requires forall a, b :: key(a) == key(b) ==> fits(a) == fits(b)
    requires Find(xs, fits).Some? && Find(xs, fits).value.id in keep
    ensures Find(ys, fits).Some? && Find(ys, fits).value.id == Find(xs, fits).value.id
    ensures key(Find(ys, fits).value) == key(Find(xs, fits).value)
  {
    if ys != [] && ys[0].id == xs[0].id {
      if !fits(xs[0]) {
        FindGrows(xs[1..], ys[1..], keep, key, fits);
      }
    } else {
      FindGrows(xs[1..], ys, keep, key, fits);
    }
  }

  lemma {:induction false} GrowsSelf<B, K>(xs: seq<Item<B>>, keep: set<Id>, key: Item<B> -> K)
    ensures Grows(xs, xs, keep, key)
  {
    if xs != [] {
      GrowsSelf(xs[1..], keep, key);
    }
  }

  lemma {:induction false} GrowsUpsert<B, K>(xs: seq<Item<B>>, x: Item<B>, ys: seq<Item<B>>, keep: set<Id>,
          key: Item<B> -> K)
    requires Grows(Upsert(xs, x), ys, keep, key)
    requires Lookup(xs, x.id).Some? ==> key(Lookup(xs, x.id).value) == key(x)
    ensures Grows(xs, ys, keep, key)
  {
    if xs != [] && xs[0].id != x.id {
      if ys != [] && ys[0].id == xs[0].id {
        GrowsUpsert(xs[1..], x, ys[1..], keep, key);
      } else {
        GrowsUpsert(xs[1..], x, ys, keep, key);
      }
    }
  }

  lemma {:induction false} GrowsWithout<B, K>(xs: seq<Item<B>>, id: Id, ys: seq<Item<B>>, keep: set<Id>,
          key: Item<B> -> K)
    requires Grows(Without(xs, id), ys, keep, key)
    requires id !in keep && id !in Ids(ys)
    ensures Grows(xs, ys, keep, key)
  {
    if xs != [] {
      if ys != [] {
        IdsCons(ys[0], ys[1..]);
        assert [ys[0]] + ys[1..] == ys;
      }
      if xs[0].id == id {
        GrowsWithout(xs[1..], id, ys, keep, key);
      } else if ys != [] && ys[0].id == xs[0].id {
        GrowsWithout(xs[1..], id, ys[1..], keep, key);
      } else {
        GrowsWithout(xs[1..], id, ys, keep, key);
      }
    }
  }

  /** Appending an item that fits, where none did, makes it the first fit. */
  lemma {:induction false} FindNew<B>(xs: seq<Item<B>>, x: Item<B>, fits: Item<B> -> bool)
    requires Find(xs, fits).None? && fits(x) && x.id !in Ids(xs)
    ensures Find(Upsert(xs, x), fits) == Some(x)
  {
    if xs != [] {
      IdsCons(xs[0], xs[1..]);
      assert [xs[0]] + xs[1..] == xs;
      FindNew(xs[1..], x, fits);
    }
  }

  /** Changing the first fit to something that still fits keeps it the first. */
  lemma {:induction false} FindChanged<B>(xs: seq<Item<B>>, x: Item<B>, fits: Item<B> -> bool)
    requires Distinct(xs)
    requires Find(xs, fits).Some? && Find(xs, fits).value.id == x.id && fits(x)
    ensures Find(Upsert(xs, x), fits) == Some(x)
  {
    if xs[0].id != x.id {
      FindChanged(xs[1..], x, fits);
    }
  }

  /** A first fit that is written back changed, or a new item when there was none,
      is the first fit of the list it was written to. */
  lemma FirstAfter<B>(xs: seq<Item<B>>, x: Item<B>, fits: Item<B> -> bool)
    requires Distinct(xs) && fits(x)
    requires var f := Find(xs, fits); if f.Some? then f.value.id == x.id else x.id !in Ids(xs)
    ensures Find(Upsert(xs, x), fits) == Some(x)
  {
    if Find(xs, fits).Some? {
      FindChanged(xs, x, fits);
    } else {
      FindNew(xs, x, fits);
    }
  }

  lemma {:induction false} NoneFits<B>(xs: seq<Item<B>>, fits: Item<B> -> bool, x: Item<B>)
    requires Find(xs, fits).None? && x in xs
    ensures !fits(x)
  {
    if x != xs[0] {
      NoneFits(xs[1..], fits, x);
    }
  }

  lemma {:induction false} StillNone<B>(xs: seq<Item<B>>, x: Item<B>, fits: Item<B> -> bool)
    requires Find(xs, fits).None? && !fits(x)
    ensures Find(Upsert(xs, x), fits).None?
  {
    if xs != [] && xs[0].id != x.id {
      StillNone(xs[1..], x, fits);
    }
  }
}
