/** The order of a listener's rules (ham/dnsapi.py, `_place_rule`). HAProxy takes
    the first rule that matches, so a narrower rule has to stand first. */
module RuleOrder {
  import opened Options
  import opened Collections
  import opened ServiceGraph

  /** The set of conditions of a rule that exists. */
  function ConditionsOf(rules: seq<Item<Rule>>, id: Id): Option<set<Id>> {
    var r := Lookup(rules, id);
    if r.Some? then Some(SetOf(r.value.body.conditions)) else None
  }

  predicate StrictlyWithin(a: Option<set<Id>>, b: Option<set<Id>>) {
    a.Some? && b.Some? && a.value < b.value
  }

  function Others(ids: seq<Id>, id: Id): seq<Id> {
    if ids == [] then [] else if ids[0] == id then Others(ids[1..], id) else [ids[0]] + Others(ids[1..], id)
  }

  /** Put id before the first rule whose conditions are some of its own. */
  function Insert(rules: seq<Item<Rule>>, ids: seq<Id>, id: Id): seq<Id> {
    if ids == [] then [id]
    else if StrictlyWithin(ConditionsOf(rules, ids[0]), ConditionsOf(rules, id)) then [id] + ids
    else [ids[0]] + Insert(rules, ids[1..], id)
  }

  function Place(rules: seq<Item<Rule>>, ids: seq<Id>, id: Id): seq<Id> {
    Insert(rules, Others(ids, id), id)
  }

  lemma {:induction false} OthersMember(ids: seq<Id>, id: Id, x: Id)
    ensures x in Others(ids, id) <==> x in ids && x != id
  {
    if ids != [] {
      OthersMember(ids[1..], id, x);
    }
  }

  lemma {:induction false} OthersFixed(ids: seq<Id>, id: Id)
    requires id !in ids
    ensures Others(ids, id) == ids
  {
    if ids != [] {
      OthersFixed(ids[1..], id);
    }
  }

  lemma {:induction false} InsertOthers(rules: seq<Item<Rule>>, ids: seq<Id>, id: Id)
    requires id !in ids
    ensures Others(Insert(rules, ids, id), id) == ids
    ensures forall x :: x in Insert(rules, ids, id) <==> x in ids || x == id
  {
    if ids != [] {
      if StrictlyWithin(ConditionsOf(rules, ids[0]), ConditionsOf(rules, id)) {
        OthersFixed(ids, id);
      } else {
        InsertOthers(rules, ids[1..], id);
      }
    }
  }

  /** Placing a rule leaves the other rules in their order, and puts the rule
      there; placing it again changes nothing. */
  lemma PlaceKeepsOthers(rules: seq<Item<Rule>>, ids: seq<Id>, id: Id)
    ensures Others(Place(rules, ids, id), id) == Others(ids, id)
    ensures SetOf(Place(rules, ids, id)) == SetOf(ids) + {id}
    ensures Place(rules, Place(rules, ids, id), id) == Place(rules, ids, id)
  {
    OthersMember(ids, id, id);
    InsertOthers(rules, Others(ids, id), id);
    forall x
      ensures x in Place(rules, ids, id) <==> x in ids || x == id
    {
      OthersMember(ids, id, x);
    }
  }

  lemma {:induction false} InsertNoRepeat(rules: seq<Item<Rule>>, ids: seq<Id>, id: Id)
    requires NoRepeat(ids) && id !in ids
    ensures NoRepeat(Insert(rules, ids, id))
  {
    if ids != [] && !StrictlyWithin(ConditionsOf(rules, ids[0]), ConditionsOf(rules, id)) {
      InsertNoRepeat(rules, ids[1..], id);
      InsertOthers(rules, ids[1..], id);
    }
  }

  lemma {:induction false} OthersNoRepeat(ids: seq<Id>, id: Id)
    requires NoRepeat(ids)
    ensures NoRepeat(Others(ids, id))
  {
    if ids != [] {
      OthersNoRepeat(ids[1..], id);
      OthersMember(ids[1..], id, ids[0]);
    }
  }

  lemma PlaceNoRepeat(rules: seq<Item<Rule>>, ids: seq<Id>, id: Id)
    requires NoRepeat(ids)
    ensures NoRepeat(Place(rules, ids, id))
  {
    OthersNoRepeat(ids, id);
    OthersMember(ids, id, id);
    InsertNoRepeat(rules, Others(ids, id), id);
  }

  // ----- the order -----

  /** The head's conditions are not some of the conditions of a rule in ids. */
  ghost predicate NotBroader(rules: seq<Item<Rule>>, head: Id, ids: seq<Id>) {
    forall x :: x in ids ==> !StrictlyWithin(ConditionsOf(rules, head), ConditionsOf(rules, x))
  }

  /** No rule stands before one whose condition set strictly contains its own. */
  ghost predicate Ordered(rules: seq<Item<Rule>>, ids: seq<Id>) {
    ids == [] || (NotBroader(rules, ids[0], ids[1..]) && Ordered(rules, ids[1..]))
  }

  lemma {:induction false} OrderedAt(rules: seq<Item<Rule>>, ids: seq<Id>, i: nat, j: nat)
    requires Ordered(rules, ids) && i < j < |ids|
    ensures !StrictlyWithin(ConditionsOf(rules, ids[i]), ConditionsOf(rules, ids[j]))
  {
    if i > 0 {
      OrderedAt(rules, ids[1..], i - 1, j - 1);
    } else {
      assert ids[j] == ids[1..][j - 1];
    }
  }

  lemma {:induction false} OthersOrdered(rules: seq<Item<Rule>>, ids: seq<Id>, id: Id)
    requires Ordered(rules, ids)
    ensures Ordered(rules, Others(ids, id))
  {
    if ids != [] {
      OthersOrdered(rules, ids[1..], id);
      forall x | x in Others(ids[1..], id)
        ensures x in ids[1..]
      {
        OthersMember(ids[1..], id, x);
      }
    }
  }

  lemma {:induction false} InsertOrdered(rules: seq<Item<Rule>>, ids: seq<Id>, id: Id)
    requires Ordered(rules, ids) && id !in ids
    ensures Ordered(rules, Insert(rules, ids, id))
  {
    if ids == [] {
    } else if StrictlyWithin(ConditionsOf(rules, ids[0]), ConditionsOf(rules, id)) {
      forall x | x in ids
        ensures !StrictlyWithin(ConditionsOf(rules, id), ConditionsOf(rules, x))
      {
      }
      assert ([id] + ids)[1..] == ids;
    } else {
      InsertOrdered(rules, ids[1..], id);
      InsertOthers(rules, ids[1..], id);
      assert ([ids[0]] + Insert(rules, ids[1..], id))[1..] == Insert(rules, ids[1..], id);
    }
  }

  /** Placing a rule keeps the order. */
  lemma PlaceOrdered(rules: seq<Item<Rule>>, ids: seq<Id>, id: Id)
    requires Ordered(rules, Others(ids, id))
    ensures Ordered(rules, Place(rules, ids, id))
  {
    OthersMember(ids, id, id);
    InsertOrdered(rules, Others(ids, id), id);
  }

  /** The order speaks only of the rules that are listed. */
  lemma {:induction false} OrderedSame(a: seq<Item<Rule>>, b: seq<Item<Rule>>, ids: seq<Id>)
    requires Ordered(a, ids)
    requires forall x :: x in ids ==> ConditionsOf(a, x) == ConditionsOf(b, x)
    ensures Ordered(b, ids)
  {
    if ids != [] {
      OrderedSame(a, b, ids[1..]);
    }
  }

  /** `_place_rule`. */
  method PlaceRule(rules: seq<Item<Rule>>, ruleIds: seq<Id>, id: Id) returns (placed: seq<Id>)
    ensures placed == Place(rules, ruleIds, id)
  {
    var ids := Others(ruleIds, id);
    for i := 0 to |ids|
      invariant Insert(rules, ids, id) == ids[..i] + Insert(rules, ids[i..], id)
    {
      InsertStep(rules, ids, i, id);
      if StrictlyWithin(ConditionsOf(rules, ids[i]), ConditionsOf(rules, id)) {
        return ids[..i] + [id] + ids[i..];
      }
    }
    assert ids[..|ids|] == ids && ids[|ids|..] == [];
    return ids + [id];
  }

  lemma InsertStep(rules: seq<Item<Rule>>, ids: seq<Id>, i: nat, id: Id)
    requires i < |ids|
    ensures ids[..i] + Insert(rules, ids[i..], id) ==
            if StrictlyWithin(ConditionsOf(rules, ids[i]), ConditionsOf(rules, id)) then ids[..i] + [id] + ids[i..]
            else ids[..i + 1] + Insert(rules, ids[i + 1..], id)
  {
    assert ids[i..][1..] == ids[i + 1..];
    assert ids[..i + 1] == ids[..i] + [ids[i]];
  }

  // ----- which rule answers -----

  /** Does the rule's test pass, when these conditions hold of the request? A rule
      without conditions is rendered without a test. */
  predicate Matches(r: Rule, holds: set<Id>) {
    r.conditions == [] ||
    (if r.anyOf then exists c :: c in r.conditions && c in holds
     else forall c :: c in r.conditions ==> c in holds)
    != r.unlessTest
  }

  /** The first listed rule that matches. */
  function FirstMatch(rules: seq<Item<Rule>>, ids: seq<Id>, holds: set<Id>): Option<Id> {
    if ids == [] then None
    else if Lookup(rules, ids[0]).Some? && Matches(Lookup(rules, ids[0]).value.body, holds) then Some(ids[0])
    else FirstMatch(rules, ids[1..], holds)
  }

  ghost predicate Plain(r: Rule) {
    !r.unlessTest && !r.anyOf
  }

  /** Every request the one matches, the other matches too. */
  ghost predicate Includes(broad: Rule, narrow: Rule) {
    forall holds: set<Id> :: Matches(narrow, holds) ==> Matches(broad, holds)
  }

  lemma PlainIncludes(broad: Rule, narrow: Rule)
    requires Plain(broad) && Plain(narrow)
    ensures Includes(broad, narrow) <==> SetOf(broad.conditions) <= SetOf(narrow.conditions)
  {
    if Includes(broad, narrow) {
      assert Matches(narrow, SetOf(narrow.conditions));
      assert Matches(broad, SetOf(narrow.conditions));
    }
    if SetOf(broad.conditions) <= SetOf(narrow.conditions) {
      forall c | c in broad.conditions
        ensures c in narrow.conditions
      {
        assert c in SetOf(broad.conditions);
      }
    }
  }

  lemma {:induction false} FirstMatchOrdered(rules: seq<Item<Rule>>, ids: seq<Id>, holds: set<Id>, other: Id)
    requires Ordered(rules, ids) && FirstMatch(rules, ids, holds).Some?
    requires other in ids && Lookup(rules, other).Some? && Matches(Lookup(rules, other).value.body, holds)
    ensures var f := FirstMatch(rules, ids, holds).value;
            (Lookup(rules, f).Some? && f in ids
             && !StrictlyWithin(ConditionsOf(rules, f), ConditionsOf(rules, other)))
  {
    if FirstMatch(rules, ids, holds) == Some(ids[0]) {
      if Lookup(rules, ids[0]).Some? && Matches(Lookup(rules, ids[0]).value.body, holds) {
        assert other == ids[0] || other in ids[1..];
      } else {
        FirstMatchOrdered(rules, ids[1..], holds, other);
      }
    } else {
      FirstMatchOrdered(rules, ids[1..], holds, other);
    }
  }

  /** The rule that answers is never strictly broader than another rule that matches
      too, when both are if/and rules, whatever the others are. */
  lemma NeverSwallowed(rules: seq<Item<Rule>>, ids: seq<Id>, holds: set<Id>, other: Id)
    requires Ordered(rules, ids)
    requires other in ids && Lookup(rules, other).Some? && Matches(Lookup(rules, other).value.body, holds)
    ensures var f := FirstMatch(rules, ids, holds);
            f.Some? && Lookup(rules, f.value).Some? &&
            var first, second := Lookup(rules, f.value).value.body, Lookup(rules, other).value.body;
            Plain(first) && Plain(second) && Includes(first, second) ==> Includes(second, first)
  {
    SomeMatch(rules, ids, holds, other);
    FirstMatchOrdered(rules, ids, holds, other);
    var f := FirstMatch(rules, ids, holds).value;
    var first, second := Lookup(rules, f).value.body, Lookup(rules, other).value.body;
    if Plain(first) && Plain(second) {
      PlainIncludes(first, second);
      PlainIncludes(second, first);
    }
  }

  lemma {:induction false} SomeMatch(rules: seq<Item<Rule>>, ids: seq<Id>, holds: set<Id>, other: Id)
    requires other in ids && Lookup(rules, other).Some? && Matches(Lookup(rules, other).value.body, holds)
    ensures FirstMatch(rules, ids, holds).Some?
  {
    if other != ids[0] {
      SomeMatch(rules, ids[1..], holds, other);
    }
  }

  /** A rule over some of another's conditions is still reached after it exactly
      when the other asks for all of its conditions: one that asks for any of them,
      as a service of several host names does, takes all of its requests. */
  lemma SwallowedByAlternatives(narrow: Rule, wide: Rule)
    requires !narrow.unlessTest && !wide.unlessTest
    requires narrow.conditions != [] && SetOf(narrow.conditions) < SetOf(wide.conditions)
    ensures Includes(wide, narrow) <==> wide.anyOf
  {
    var c := narrow.conditions[0];
    assert c in SetOf(narrow.conditions);
    if wide.anyOf {
      forall holds: set<Id> | Matches(narrow, holds)
        ensures Matches(wide, holds)
      {
        var d :| d in narrow.conditions && d in holds;
        assert d in SetOf(narrow.conditions);
      }
    } else {
      assert Matches(narrow, SetOf(narrow.conditions));
      var e :| e in SetOf(wide.conditions) && e !in SetOf(narrow.conditions);
      assert !Matches(wide, SetOf(narrow.conditions));
    }
  }

  /** So when a service of several names is placed in a listener, a rule for some of
      those names never answers again, though `Ordered` holds. */
  lemma {:induction false} AlternativesSwallow(rules: seq<Item<Rule>>, ids: seq<Id>, id: Id, other: Id,
          holds: set<Id>)
    requires id !in ids && other in ids
    requires Lookup(rules, id).Some? && Lookup(rules, other).Some?
    requires var wide, narrow := Lookup(rules, id).value.body, Lookup(rules, other).value.body;
             !narrow.unlessTest && !wide.unlessTest && wide.anyOf && narrow.conditions != []
             && SetOf(narrow.conditions) < SetOf(wide.conditions)
    ensures FirstMatch(rules, Insert(rules, ids, id), holds) != Some(other)
  {
    var wide, narrow := Lookup(rules, id).value.body, Lookup(rules, other).value.body;
    SwallowedByAlternatives(narrow, wide);
    if StrictlyWithin(ConditionsOf(rules, ids[0]), ConditionsOf(rules, id)) {
      FirstMatchNot(rules, [id] + ids, id, other, holds);
    } else if ids[0] == other {
    } else {
      AlternativesSwallow(rules, ids[1..], id, other, holds);
    }
  }

  lemma {:induction false} FirstMatchIs(rules: seq<Item<Rule>>, ids: seq<Id>, holds: set<Id>)
    requires FirstMatch(rules, ids, holds).Some?
    ensures var f := FirstMatch(rules, ids, holds).value;
            f in ids && Lookup(rules, f).Some? && Matches(Lookup(rules, f).value.body, holds)
  {
    if FirstMatch(rules, ids, holds) != Some(ids[0]) {
      FirstMatchIs(rules, ids[1..], holds);
    } else if !(Lookup(rules, ids[0]).Some? && Matches(Lookup(rules, ids[0]).value.body, holds)) {
      FirstMatchIs(rules, ids[1..], holds);
    }
  }

  lemma FirstMatchNot(rules: seq<Item<Rule>>, ids: seq<Id>, id: Id, other: Id, holds: set<Id>)
    requires ids != [] && ids[0] == id && id != other
    requires Lookup(rules, id).Some? && Lookup(rules, other).Some?
    requires Includes(Lookup(rules, id).value.body, Lookup(rules, other).value.body)
    ensures FirstMatch(rules, ids, holds) != Some(other)
  {
    if FirstMatch(rules, ids, holds) == Some(other) {
      FirstMatchIs(rules, ids, holds);
    }
  }

  // ----- the other rules -----

  lemma {:induction false} OthersTwice(ids: seq<Id>, id: Id)
    ensures Others(Others(ids, id), id) == Others(ids, id)
  {
    OthersMember(ids, id, id);
    OthersFixed(Others(ids, id), id);
  }
}
