/** Loading the whole configuration (ham/config.py, `load_config`): the defaults are
    filled in, then this node's own objects are moved out of the shared sections. */
module Loading {
  import opened Options
  import opened Defaults
  import opened LocalObjects
  import opened History
  import NodeOwned

  /** The settings of the five sections every node is meant to hold identically. */
  datatype Shared = Shared(haproxy: Json, acme: Json, access: Json, cluster: Json, notify: Json)

  /** Settings apart from the collections of objects, and the collections. */
  datatype Tree = Tree(settings: Shared, objects: Config)

  /** What a load depends on: the defaults for settings, shared collections and the
      node's own, and how objects refer to each other. */
  datatype Setup = Setup(
    settings: Shared, shared: map<Key, seq<Obj>>, own: map<Key, seq<Obj>>, links: NodeOwned.Links)

  /** What every node is meant to hold identically. */
  datatype View = View(settings: Shared, objects: map<Key, seq<Obj>>)

  function ViewOf(t: Tree): View {
    View(t.settings, t.objects.shared)
  }

  function Settings(x: Shared, d: Shared): Shared {
    Shared(Merge(x.haproxy, d.haproxy), Merge(x.acme, d.acme), Merge(x.access, d.access),
           Merge(x.cluster, d.cluster), Merge(x.notify, d.notify))
  }

  lemma SettingsTwice(x: Shared, d: Shared)
    ensures Settings(Settings(x, d), d) == Settings(x, d)
  {
    MergeIdempotent(x.haproxy, d.haproxy);
    MergeIdempotent(x.acme, d.acme);
    MergeIdempotent(x.access, d.access);
    MergeIdempotent(x.cluster, d.cluster);
    MergeIdempotent(x.notify, d.notify);
  }

  /** A list that is there stays, whatever the default; an absent one is the default. */
  function Fill(m: map<Key, seq<Obj>>, d: map<Key, seq<Obj>>): map<Key, seq<Obj>> {
    map k | k in m.Keys + d.Keys :: if k in m then m[k] else d[k]
  }

  function Filled(t: Tree, d: Setup): Tree {
    Tree(Settings(t.settings, d.settings),
        Config(Fill(t.objects.shared, d.shared), Fill(t.objects.own, d.own), t.objects.attach))
  }

  /** `load_config`. */
  function Load(t: Tree, d: Setup): Tree {
    var x := Filled(t, d);
    x.(objects := NodeOwned.Settled(x.objects, d.links))
  }

  lemma FillSame(m: map<Key, seq<Obj>>, d: map<Key, seq<Obj>>)
    ensures Fill(m, d) == m <==> d.Keys <= m.Keys
  {
    if d.Keys <= m.Keys {
      assert m.Keys + d.Keys == m.Keys;
    } else {
      assert Fill(m, d).Keys != m.Keys;
    }
  }

  /** A move takes no collection away, so the defaults find nothing absent after it. */
  lemma MovedComplete(c: Config, n: NodeOwned.Links)
    ensures NodeOwned.Settled(c, n).shared.Keys == c.shared.Keys && c.own.Keys <= NodeOwned.Settled(c, n).own.Keys
  {
  }

  /** Loading is a projection: filling in the defaults adds nothing that the move then
      takes, and the move removes nothing the defaults would put back. */
  lemma LoadTwice(t: Tree, d: Setup)
    ensures Load(Load(t, d), d) == Load(t, d)
  {
    var c := Filled(t, d).objects;
    SettingsTwice(t.settings, d.settings);
    MovedComplete(c, d.links);
    FillSame(NodeOwned.Settled(c, d.links).shared, d.shared);
    FillSame(NodeOwned.Settled(c, d.links).own, d.own);
    NodeOwned.SettledTwice(c, d.links);
  }

  // ----- what a load keeps -----

  datatype Part = HaproxyPart | AcmePart | AccessPart | ClusterPart | NotifyPart

  function PartOf(x: Shared, s: Part): Json {
    match s
    case HaproxyPart => x.haproxy
    case AcmePart => x.acme
    case AccessPart => x.access
    case ClusterPart => x.cluster
    case NotifyPart => x.notify
  }

  /** Path by path: a stored setting is kept, and the default stands only where nothing is
      stored. */
  lemma LoadKeepsSettings(t: Tree, d: Setup, s: Part, path: seq<string>)
    ensures FilledAt(PartOf(Load(t, d).settings, s), PartOf(t.settings, s), PartOf(d.settings, s), path)
  {
    MergeAt(PartOf(t.settings, s), PartOf(d.settings, s), path);
  }

  lemma FillAt(m: map<Key, seq<Obj>>, d: map<Key, seq<Obj>>, k: Key)
    ensures k in m ==> k in Fill(m, d) && Fill(m, d)[k] == m[k]
    ensures k !in m && k in d ==> k in Fill(m, d) && Fill(m, d)[k] == d[k]
    ensures k !in m && k !in d ==> k !in Fill(m, d)
  {
  }

  /** A collection as it was stored, or the default where there was none. */
  function Stood(m: map<Key, seq<Obj>>, d: map<Key, seq<Obj>>, k: Key): seq<Obj> {
    if k in m then m[k] else if k in d then d[k] else []
  }

  /** Collection by collection: what is not this node's own stays shared, the rest is among
      this node's own afterwards, and nothing else is shared. */
  lemma LoadKeepsObjects(t: Tree, d: Setup, k: Key, x: Obj)
    requires k != LISTENERS
    ensures var ids := NodeOwned.OwnIds(Fill(t.objects.shared, d.shared), d.links);
            var after, was := Load(t, d).objects, Stood(t.objects.shared, d.shared, k);
            (x in At(after.shared, k) <==> x in was && x.id !in ids)
            && (x in was && x.id in ids ==> x.id in IdsOf(At(after.own, k)))
            && (x in Stood(t.objects.own, d.own, k) ==> x in At(after.own, k))
  {
    var c := Filled(t, d).objects;
    var ids := NodeOwned.OwnIds(c.shared, d.links);
    FillAt(t.objects.shared, d.shared, k);
    FillAt(t.objects.own, d.own, k);
    assert At(c.shared, k) == Stood(t.objects.shared, d.shared, k);
    assert At(c.own, k) == Stood(t.objects.own, d.own, k);
    KeepMember(At(c.shared, k), ids, x);
    if ids != {} {
      NodeOwned.MovedAt(c.shared, ids, k);
      OwnAt(c, ids, k);
      TakenIsOwned(c, ids, k, x);
    }
  }

  lemma TakenIsOwned(c: Config, ids: set<Id>, k: Key, x: Obj)
    ensures x in At(c.shared, k) && x.id in ids ==> x.id in IdsOf(OwnAfter(c, ids, k))
    ensures x in At(c.own, k) ==> x in OwnAfter(c, ids, k)
  {
    var own, taken := At(c.own, k), TakeObjs(At(c.shared, k), ids);
    var added := KeepObjs(taken, IdsOf(own));
    if x in At(c.shared, k) && x.id in ids {
      var y := x.(localOnly := false);
      KeepMember(At(c.shared, k), ids, y);
      KeepMember(taken, IdsOf(own), y);
      if y.id in IdsOf(own) {
        var i :| 0 <= i < |own| && own[i].id == y.id;
        assert (own + added)[i].id == y.id;
      } else {
        var i :| 0 <= i < |added| && added[i] == y;
        assert (own + added)[|own| + i].id == y.id;
      }
    }
  }

  // ----- what a load makes of the shared view -----

  function Alone(v: View): Tree {
    Tree(v.settings, Config(v.objects, map[], map[]))
  }

  /** The shared view after a load. What a node owns has no part in it. */
  function Normal(v: View, d: Setup): View {
    ViewOf(Load(Alone(v), d))
  }

  lemma NormalOf(t: Tree, d: Setup)
    ensures ViewOf(Load(t, d)) == Normal(ViewOf(t), d)
  {
  }

  lemma NormalIdempotent(v: View, d: Setup)
    ensures Normal(Normal(v, d), d) == Normal(v, d)
  {
    LoadTwice(Alone(v), d);
    NormalOf(Load(Alone(v), d), d);
  }

  /** A view that loads as it is has all the defaults ask for. */
  lemma NormalComplete(v: View, d: Setup)
    requires Normal(v, d) == v
    ensures Settings(v.settings, d.settings) == v.settings && Fill(v.objects, d.shared) == v.objects
  {
    MovedComplete(Filled(Alone(v), d).objects, d.links);
    FillSame(v.objects, d.shared);
  }

  /** A load and a save with no edit in between, as far as the shared view goes. */
  function Touched(n: Stored<View>, load: View -> View): Stored<View> {
    Saved(n, load(n.shared))
  }

  // ----- loading and saving the file -----

  /** What is on disk: the shared view with its revision and history, and what is the
      node's own. */
  datatype File = File(kept: Stored<View>, own: map<Key, seq<Obj>>, attach: map<string, Slot>)

  function TreeOf(f: File): Tree {
    Tree(f.kept.shared.settings, Config(f.kept.shared.objects, f.own, f.attach))
  }

  /** `save_config`. */
  function Written(f: File, t: Tree): File {
    File(Saved(f.kept, ViewOf(t)), t.objects.own, t.objects.attach)
  }

  function FileTouched(f: File, d: Setup): File {
    Written(f, Load(TreeOf(f), d))
  }

  lemma FileTouchedView(f: File, d: Setup)
    ensures FileTouched(f, d).kept == Touched(f.kept, x => Normal(x, d))
  {
    NormalOf(TreeOf(f), d);
  }

  /** Loading and saving twice counts once. */
  lemma TouchedTwice(f: File, d: Setup)
    ensures FileTouched(FileTouched(f, d), d) == FileTouched(f, d)
  {
    LoadTwice(TreeOf(f), d);
    SaveCounts(f.kept, ViewOf(Load(TreeOf(f), d)));
  }

  /** Nothing the defaults ask for is absent, and nothing shared is this node's own. */
  ghost predicate Clean(v: View, d: Setup) {
    Settings(v.settings, d.settings) == v.settings && d.shared.Keys <= v.objects.Keys
    && NodeOwned.Untouched(v.objects, NodeOwned.OwnIds(v.objects, d.links))
  }

  /** A load that finds something to fill in or to move changes the shared view. */
  lemma LoadChanges(v: View, d: Setup)
    ensures Normal(v, d) == v <==> Clean(v, d)
  {
    var c := Filled(Alone(v), d).objects;
    FillSame(v.objects, d.shared);
    NodeOwned.MovedSharedSame(c.shared, NodeOwned.OwnIds(c.shared, d.links));
    MovedComplete(c, d.links);
    assert NodeOwned.OwnIds(c.shared, d.links) == {} ==>
      NodeOwned.Untouched(c.shared, NodeOwned.OwnIds(c.shared, d.links));
  }

  /** Loading and saving a file that was saved moves its revision, by one, exactly when
      there is something to fill in or to move. */
  lemma TouchCounts(f: File, d: Setup)
    requires f.kept.fp == Some(f.kept.shared)
    ensures FileTouched(f, d).kept.rev == if Clean(f.kept.shared, d) then f.kept.rev else f.kept.rev + 1
  {
    FileTouchedView(f, d);
    LoadChanges(f.kept.shared, d);
  }
}
