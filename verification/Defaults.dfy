/** Filling in default settings: _merge_defaults of ham/config.py on arbitrary
    JSON trees. */
module Defaults {
  import opened Options

  datatype Json =
    | Scalar(value: int)
    | Text(text: string)
    | List(items: seq<Json>)
    | Object(fields: map<string, Json>)

  /** Absent keys are taken from the defaults, objects are filled in key by key,
      everything else is left as it is. */
  function Merge(dst: Json, src: Json): Json
    decreases src
  {
    if dst.Object? && src.Object? then
      Object(map k | k in dst.fields.Keys + src.fields.Keys ::
        if k !in dst.fields then src.fields[k]
        else if k in src.fields then Merge(dst.fields[k], src.fields[k])
        else dst.fields[k])
    else dst
  }

  /** Nothing the defaults ask for is missing. */
  predicate Complete(x: Json, src: Json)
    decreases src
  {
    x.Object? && src.Object? ==>
      forall k | k in src.fields :: k in x.fields && Complete(x.fields[k], src.fields[k])
  }

  lemma {:induction false} CompleteSelf(x: Json)
    ensures Complete(x, x)
  {
    if x.Object? {
      forall k | k in x.fields
        ensures Complete(x.fields[k], x.fields[k])
      {
        CompleteSelf(x.fields[k]);
      }
    }
  }

  /** Merging completes. */
  lemma {:induction false} MergeCompletes(dst: Json, src: Json)
    ensures Complete(Merge(dst, src), src)
    decreases src
  {
    if dst.Object? && src.Object? {
      forall k | k in src.fields
        ensures Complete(Merge(dst, src).fields[k], src.fields[k])
      {
        if k in dst.fields {
          MergeCompletes(dst.fields[k], src.fields[k]);
        } else {
          CompleteSelf(src.fields[k]);
        }
      }
    }
  }

  /** Only a complete tree is left alone, and it is left alone exactly. */
  lemma {:induction false} MergeFixed(x: Json, src: Json)
    ensures Merge(x, src) == x <==> Complete(x, src)
    decreases src
  {
    if x.Object? && src.Object? {
      forall k | k in src.fields && k in x.fields
        ensures Merge(x.fields[k], src.fields[k]) == x.fields[k] <==> Complete(x.fields[k], src.fields[k])
      {
        MergeFixed(x.fields[k], src.fields[k]);
      }
      if Merge(x, src) == x {
        forall k | k in src.fields
          ensures k in x.fields && Complete(x.fields[k], src.fields[k])
        {
          assert k in Merge(x, src).fields;
        }
      }
      if Complete(x, src) {
        assert Merge(x, src).fields == x.fields;
      }
    }
  }

  /** Loading is a projection: the second merge changes nothing. */
  lemma MergeIdempotent(dst: Json, src: Json)
    ensures Merge(Merge(dst, src), src) == Merge(dst, src)
  {
    MergeCompletes(dst, src);
    MergeFixed(Merge(dst, src), src);
  }

  // ---- path by path -------------------------------------------------------------------

  /** What stands at the end of a path of keys. */
  function Sub(x: Json, path: seq<string>): Option<Json> {
    if path == [] then Some(x)
    else if x.Object? && path[0] in x.fields then Sub(x.fields[path[0]], path[1..])
    else None
  }

  /** Paths lead into objects only, key by key, and tell trees apart. */
  lemma PathsLead(x: Json, k: string, rest: seq<string>)
    ensures Sub(x, [k] + rest).Some? <==> x.Object? && k in x.fields && Sub(x.fields[k], rest).Some?
    ensures x.Object? && k in x.fields ==>
      Sub(x, [k] + rest) == Sub(x.fields[k], rest) && Sub(x, [k]) == Some(x.fields[k])
  {
    assert ([k] + rest)[1..] == rest && [k][1..] == [];
  }

  /** Something that is no object stands on the way. */
  predicate Blocked(x: Json, path: seq<string>) {
    path != [] &&
    (!x.Object? || (path[0] in x.fields && Blocked(x.fields[path[0]], path[1..])))
  }

  /** At this path the tree has what was stored, whatever the default; where nothing was
      stored and nothing is in the way, the default's; and else nothing. A stored object
      is one still. */
  ghost predicate FilledAt(merged: Json, stored: Json, default: Json, path: seq<string>) {
    match Sub(stored, path)
    case Some(v) =>
      Sub(merged, path).Some? && (if v.Object? then Sub(merged, path).value.Object? else Sub(merged, path) == Some(v))
    case None => Sub(merged, path) == if Blocked(stored, path) then None else Sub(default, path)
  }

  /** A merge, path by path. */
  lemma {:induction false} MergeAt(dst: Json, src: Json, path: seq<string>)
    ensures FilledAt(Merge(dst, src), dst, src, path)
    decreases |path|
  {
    if path != [] && dst.Object? && src.Object? && path[0] in dst.fields && path[0] in src.fields {
      MergeAt(dst.fields[path[0]], src.fields[path[0]], path[1..]);
    }
  }
}
