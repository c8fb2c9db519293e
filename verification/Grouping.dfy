// pkg/service/polling/utils.go: the split by aggregate type and then by aggregate id.
module Grouping {
  import opened Outbox

  type Events = seq<EventValue>

  datatype Key = Key(aggregateType: string, aggregateId: string)

  function KeyOf(e: EventValue): Key {
    Key(e.aggregateType, e.aggregateId)
  }

  function OfType(events: Events, t: string): Events {
    if events == [] then [] else
    var n := |events| - 1;
    OfType(events[..n], t) + if events[n].aggregateType == t then [events[n]] else []
  }

  function OfId(events: Events, a: string): Events {
    if events == [] then [] else
    var n := |events| - 1;
    OfId(events[..n], a) + if events[n].aggregateId == a then [events[n]] else []
  }

  // The events one goroutine receives, after both splits.
  function Group(events: Events, key: Key): Events {
    OfId(OfType(events, key.aggregateType), key.aggregateId)
  }

  method EventToGroupingByAggregateType(events: Events) returns (mp: map<string, Events>)
    ensures forall t :: t in mp <==> OfType(events, t) != []
    ensures forall t :: t in mp ==> mp[t] == OfType(events, t)
  {
    mp := map[];
    var i := 0;
    while i < |events|
      invariant 0 <= i <= |events|
      invariant forall t :: t in mp <==> OfType(events[..i], t) != []
      invariant forall t :: t in mp ==> mp[t] == OfType(events[..i], t)
    {
      var event := events[i];
      var group := if event.aggregateType in mp then mp[event.aggregateType] else [];
      mp := mp[event.aggregateType := group + [event]];
      assert events[..i + 1][..i] == events[..i];
      i := i + 1;
    }
    assert events[..i] == events;
  }

  method EventToGroupingAggregateId(events: Events) returns (mp: map<string, Events>)
    ensures forall a :: a in mp <==> OfId(events, a) != []
    ensures forall a :: a in mp ==> mp[a] == OfId(events, a)
  {
    mp := map[];
    var i := 0;
    while i < |events|
      invariant 0 <= i <= |events|
      invariant forall a :: a in mp <==> OfId(events[..i], a) != []
      invariant forall a :: a in mp ==> mp[a] == OfId(events[..i], a)
    {
      var event := events[i];
      var group := if event.aggregateId in mp then mp[event.aggregateId] else [];
      mp := mp[event.aggregateId := group + [event]];
      assert events[..i + 1][..i] == events[..i];
      i := i + 1;
    }
    assert events[..i] == events;
  }

  lemma {:induction false} GroupSnoc(events: Events, e: EventValue, key: Key)
    ensures Group(events + [e], key) == Group(events, key) + if KeyOf(e) == key then [e] else []
  {
    assert (events + [e])[..|events|] == events;
    var typed := OfType(events, key.aggregateType);
    if e.aggregateType == key.aggregateType {
      assert (typed + [e])[..|typed|] == typed;
    } else {
      assert typed + [] == typed;
    }
  }

  // The group is the input filtered by key: increasing positions, each holding the key, none
  // left out.
  ghost predicate IsFilter(events: Events, key: Key, group: Events, positions: seq<nat>) {
    && |positions| == |group|
    && (forall k :: 0 <= k < |positions| ==> positions[k] < |events| && group[k] == events[positions[k]])
    && (forall j, k :: 0 <= j < k < |positions| ==> positions[j] < positions[k])
    && (forall i :: 0 <= i < |events| ==> (KeyOf(events[i]) == key <==> i in positions))
  }

  lemma FilterSnoc(events: Events, e: EventValue, key: Key, group: Events, positions: seq<nat>)
    requires IsFilter(events, key, group, positions)
    ensures KeyOf(e) == key ==> IsFilter(events + [e], key, group + [e], positions + [|events|])
    ensures KeyOf(e) != key ==> IsFilter(events + [e], key, group, positions)
  {
    var n := |events|;
    assert forall i :: 0 <= i < n ==> (events + [e])[i] == events[i];
    assert n !in positions;
    assert forall i :: i in positions + [n] <==> i in positions || i == n;
  }

  lemma {:induction false} GroupKeepsOrder(events: Events, key: Key) returns (positions: seq<nat>)
    ensures IsFilter(events, key, Group(events, key), positions)
  {
    positions := [];
    if events != [] {
      var n := |events| - 1;
      var rest := GroupKeepsOrder(events[..n], key);
      assert events == events[..n] + [events[n]];
      GroupSnoc(events[..n], events[n], key);
      FilterSnoc(events[..n], events[n], key, Group(events[..n], key), rest);
      positions := if KeyOf(events[n]) == key then rest + [n] else rest;
      assert KeyOf(events[n]) != key ==> Group(events, key) == Group(events[..n], key);
    }
  }

  lemma GroupMembers(events: Events, key: Key)
    ensures forall e :: e in Group(events, key) <==> e in events && KeyOf(e) == key
  {
    var positions := GroupKeepsOrder(events, key);
    forall e | e in events && KeyOf(e) == key ensures e in Group(events, key) {
      var i :| 0 <= i < |events| && events[i] == e;
      assert i in positions;
      var k :| 0 <= k < |positions| && positions[k] == i;
      assert Group(events, key)[k] == e;
    }
    forall e | e in Group(events, key) ensures e in events && KeyOf(e) == key {
      var k :| 0 <= k < |positions| && Group(events, key)[k] == e;
      assert positions[k] in positions;
    }
  }

  lemma GroupAscends(events: Events, key: Key)
    requires Ascending(events)
    ensures Ascending(Group(events, key))
  {
    var positions := GroupKeepsOrder(events, key);
  }

  // Sorting a group of a fetch changes nothing, because the fetch ascends.
  lemma SortingAGroupChangesNothing(events: Events, key: Key)
    requires Ascending(events)
    ensures SortById(Group(events, key)) == Group(events, key)
  {
    GroupAscends(events, key);
    SortByIdOfDistinct(Group(events, key), Group(events, key));
  }

  // ---- Conservation

  ghost predicate Distinct<T(!new)>(s: seq<T>) {
    forall i, j :: 0 <= i < j < |s| ==> s[i] != s[j]
  }

  // An order of the goroutines: every key that occurs, once.
  ghost predicate Enumerates(keys: seq<Key>, events: Events) {
    && Distinct(keys)
    && forall key :: key in keys <==> exists i :: 0 <= i < |events| && KeyOf(events[i]) == key
  }

  function Flatten(keys: seq<Key>, events: Events): Events {
    if keys == [] then [] else Group(events, keys[0]) + Flatten(keys[1..], events)
  }

  lemma {:induction false} FlattenSnoc(keys: seq<Key>, events: Events, e: EventValue)
    requires Distinct(keys)
    ensures multiset(Flatten(keys, events + [e]))
         == multiset(Flatten(keys, events)) + if KeyOf(e) in keys then multiset{e} else multiset{}
  {
    if keys != [] {
      GroupSnoc(events, e, keys[0]);
      FlattenSnoc(keys[1..], events, e);
      InCons(keys, KeyOf(e));
      var group, group' := Group(events, keys[0]), Group(events, keys[0]) + if KeyOf(e) == keys[0] then [e] else [];
      assert multiset(group') == multiset(group) + if KeyOf(e) == keys[0] then multiset{e} else multiset{};
    }
  }

  lemma InCons(keys: seq<Key>, key: Key)
    requires keys != [] && Distinct(keys)
    ensures key in keys <==> key == keys[0] || key in keys[1..]
    ensures keys[0] !in keys[1..]
  {
    assert keys == [keys[0]] + keys[1..];
  }

  lemma {:induction false} FlattenConserves(keys: seq<Key>, events: Events)
    requires Distinct(keys) && forall i :: 0 <= i < |events| ==> KeyOf(events[i]) in keys
    ensures Permutation(Flatten(keys, events), events)
  {
    if events == [] {
      FlattenNothing(keys);
    } else {
      var n := |events| - 1;
      assert events == events[..n] + [events[n]];
      FlattenConserves(keys, events[..n]);
      FlattenSnoc(keys, events[..n], events[n]);
    }
  }

  lemma {:induction false} FlattenNothing(keys: seq<Key>)
    ensures Flatten(keys, []) == []
  {
    if keys != [] {
      FlattenNothing(keys[1..]);
      assert Group([], keys[0]) == [];
    }
  }

  // No event is lost, duplicated or put in two groups by the two splits, in whatever order the
  // maps are walked.
  lemma GroupingConserves(keys: seq<Key>, events: Events)
    requires Enumerates(keys, events)
    ensures Permutation(Flatten(keys, events), events)
    ensures forall e :: e in events ==>
              exists k :: 0 <= k < |keys| && e in Group(events, keys[k])
    ensures forall e, j, k | 0 <= j < |keys| && 0 <= k < |keys| ::
              (e in Group(events, keys[j]) && e in Group(events, keys[k])) ==> j == k
  {
    assert forall i :: 0 <= i < |events| ==> KeyOf(events[i]) in keys;
    FlattenConserves(keys, events);
    forall e | e in events ensures exists k :: 0 <= k < |keys| && e in Group(events, keys[k]) {
      var i :| 0 <= i < |events| && events[i] == e;
      var k :| 0 <= k < |keys| && keys[k] == KeyOf(e);
      GroupMembers(events, keys[k]);
    }
    forall e, j, k | 0 <= j < |keys| && 0 <= k < |keys| &&
                     e in Group(events, keys[j]) && e in Group(events, keys[k])
      ensures j == k
    {
      GroupMembers(events, keys[j]);
      GroupMembers(events, keys[k]);
      assert keys[j] == keys[k];
    }
  }
}
