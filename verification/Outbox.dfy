// pkg/domain/outbox/model.go: the event, its retry state and its ordering.
module Outbox {
  import opened Options
  import opened Backoff

  // A point in time, in nanoseconds.
  type Time = int

  // The fields of an event. Retry counts start non-negative and only grow.
  datatype EventValue = EventValue(
    id: int,
    aggregateType: string,
    aggregateId: string,
    event: string,
    payload: string,
    retryAt: Option<Time>,
    retryCount: nat,
    sentAt: Option<Time>)
  {
    // Still waiting for its retry time.
    predicate CanNotRetry(now: Time) {
      retryAt.Some? && retryAt.value > now
    }

    predicate CheckMaxRetryCount(max: int) {
      retryCount >= max
    }

    function Sent(at: Time): EventValue {
      this.(sentAt := Some(at))
    }

    // The count goes up before the delay is taken from it.
    function Retried(backoff: int, outOfRange: int, now: Time): EventValue {
      this.(retryCount := retryCount + 1,
      retryAt := Some(now + NextRetryDuration(backoff, retryCount + 1, outOfRange)))
    }
  }

  // The event object the worker holds and updates in place.
  class Event {
    const id: int
    const aggregateType: string
    const aggregateId: string
    const event: string
    const payload: string
    var retryAt: Option<Time>
    var retryCount: nat
    var sentAt: Option<Time>

    constructor (v: EventValue)
      ensures Value() == v
      ensures id == v.id && aggregateType == v.aggregateType && aggregateId == v.aggregateId
      ensures event == v.event && payload == v.payload
      ensures retryAt == v.retryAt && retryCount == v.retryCount && sentAt == v.sentAt
    {
      id, aggregateType, aggregateId := v.id, v.aggregateType, v.aggregateId;
      event, payload := v.event, v.payload;
      retryAt, retryCount, sentAt := v.retryAt, v.retryCount, v.sentAt;
    }

    function Value(): (v: EventValue)
      reads this
      ensures v.id == id && v.aggregateType == aggregateType && v.aggregateId == aggregateId
      ensures v.event == event && v.payload == payload
      ensures v.retryAt == retryAt && v.retryCount == retryCount && v.sentAt == sentAt
    {
      EventValue(id, aggregateType, aggregateId, event, payload, retryAt, retryCount, sentAt)
    }

    method IncrementToRetryCount()
      modifies this`retryCount
      ensures retryCount == old(retryCount) + 1
    {
      retryCount := retryCount + 1;
    }

    method SetSentAt(at: Time)
      modifies this
      ensures Value() == old(Value()).Sent(at)
      ensures sentAt == Some(at) && retryAt == old(retryAt) && retryCount == old(retryCount)
    {
      sentAt := Some(at);
    }

    method Retry(backoff: int, outOfRange: int, now: Time)
      modifies this
      ensures Value() == old(Value()).Retried(backoff, outOfRange, now)
      ensures retryCount == old(retryCount) + 1 && sentAt == old(sentAt)
      ensures retryAt == Some(now + NextRetryDuration(backoff, old(retryCount) + 1, outOfRange))
    {
      IncrementToRetryCount();
      var duration := NextRetryDuration(backoff, retryCount, outOfRange);
      retryAt := Some(now + duration);
    }
  }

  // ---- Ordering by id

  ghost predicate Ascending(es: seq<EventValue>) {
    forall i, j :: 0 <= i < j < |es| ==> es[i].id < es[j].id
  }

  ghost predicate Sorted(es: seq<EventValue>) {
    forall i, j :: 0 <= i < j < |es| ==> es[i].id <= es[j].id
  }

  ghost predicate DistinctIds(es: seq<EventValue>) {
    forall i, j :: 0 <= i < j < |es| ==> es[i].id != es[j].id
  }

  ghost predicate Permutation<T>(a: seq<T>, b: seq<T>) {
    multiset(a) == multiset(b)
  }

  function Insert(e: EventValue, es: seq<EventValue>): seq<EventValue> {
    if es == [] || e.id <= es[0].id then [e] + es else [es[0]] + Insert(e, es[1..])
  }

  // Reference sort.
  function SortById(es: seq<EventValue>): seq<EventValue> {
    if es == [] then [] else Insert(es[0], SortById(es[1..]))
  }

  lemma MembersOfMultiset<T>(a: seq<T>, x: T)
    ensures x in a <==> x in multiset(a)
  {
  }

  lemma SortedCons(e: EventValue, es: seq<EventValue>)
    requires Sorted(es) && forall x :: x in es ==> e.id <= x.id
    ensures Sorted([e] + es)
  {
    var all := [e] + es;
    forall i, j | 0 <= i < j < |all| ensures all[i].id <= all[j].id {
      assert all[j] == es[j - 1] && all[j] in es;
    }
  }

  lemma {:induction false} InsertPermutes(e: EventValue, es: seq<EventValue>)
    ensures multiset(Insert(e, es)) == multiset{e} + multiset(es)
  {
    if es == [] || e.id <= es[0].id {
    } else {
      InsertPermutes(e, es[1..]);
      assert es == [es[0]] + es[1..];
    }
  }

  lemma InsertMembers(e: EventValue, es: seq<EventValue>, x: EventValue)
    ensures x in Insert(e, es) <==> x == e || x in es
  {
    InsertPermutes(e, es);
    MembersOfMultiset(Insert(e, es), x);
    MembersOfMultiset(es, x);
  }

  lemma {:induction false} InsertSorts(e: EventValue, es: seq<EventValue>)
    requires Sorted(es)
    ensures Sorted(Insert(e, es))
  {
    if es == [] || e.id <= es[0].id {
      SortedCons(e, es);
    } else {
      InsertSorts(e, es[1..]);
      forall x | x in Insert(e, es[1..]) ensures es[0].id <= x.id {
        InsertMembers(e, es[1..], x);
      }
      SortedCons(es[0], Insert(e, es[1..]));
    }
  }

  lemma {:induction false} SortByIdSorts(es: seq<EventValue>)
    ensures Sorted(SortById(es)) && Permutation(SortById(es), es)
  {
    if es != [] {
      SortByIdSorts(es[1..]);
      InsertSorts(es[0], SortById(es[1..]));
      InsertPermutes(es[0], SortById(es[1..]));
      assert es == [es[0]] + es[1..];
    }
  }

  lemma PermutationKeepsMembers<T>(a: seq<T>, b: seq<T>)
    requires Permutation(a, b)
    ensures forall x :: x in a <==> x in b
    ensures |a| == |b|
  {
    forall x ensures x in a <==> x in b {
      assert x in a <==> x in multiset(a);
      assert x in b <==> x in multiset(b);
    }
    assert |multiset(a)| == |multiset(b)|;
  }

  lemma SortByIdOfDistinct(es: seq<EventValue>, sorted: seq<EventValue>)
    requires DistinctIds(es)
    ensures Ascending(SortById(es)) && Permutation(SortById(es), es)
    ensures Ascending(sorted) && Permutation(sorted, es) <==> sorted == SortById(es)
  {
    SortByIdSorts(es);
    var r := SortById(es);
    DistinctSurvives(es, r);
    if Ascending(sorted) && Permutation(sorted, es) {
      PermutationKeepsMembers(sorted, es);
      PermutationKeepsMembers(r, es);
      AscendingIsUnique(sorted, r);
    }
  }

  lemma RepeatedOccurTwice<T>(s: seq<T>, i: nat, j: nat)
    requires i < j < |s| && s[i] == s[j]
    ensures multiset(s)[s[i]] >= 2
  {
    assert s == s[..j] + [s[j]] + s[j + 1..];
    assert s[..j][i] == s[i];
    MembersOfMultiset(s[..j], s[i]);
  }

  lemma NoRepeats<T>(a: seq<T>, b: seq<T>)
    requires Permutation(a, b) && forall i, j :: 0 <= i < j < |a| ==> a[i] != a[j]
    ensures forall i, j :: 0 <= i < j < |b| ==> b[i] != b[j]
  {
    forall i, j | 0 <= i < j < |b| ensures b[i] != b[j] {
      if b[i] == b[j] {
        RepeatedOccurTwice(b, i, j);
        MembersOfMultiset(a, b[i]);
        var m :| 0 <= m < |a| && a[m] == b[i];
        assert a == a[..m] + [a[m]] + a[m + 1..];
        MembersOfMultiset(a[..m], a[m]);
        MembersOfMultiset(a[m + 1..], a[m]);
      }
    }
  }

  lemma DistinctSurvives(a: seq<EventValue>, b: seq<EventValue>)
    requires Permutation(a, b) && DistinctIds(a)
    ensures DistinctIds(b)
  {
    PermutationKeepsMembers(a, b);
    NoRepeats(a, b);
    forall i, j | 0 <= i < j < |b| ensures b[i].id != b[j].id {
      assert b[i] in a && b[j] in a;
      var m :| 0 <= m < |a| && a[m] == b[i];
      var n :| 0 <= n < |a| && a[n] == b[j];
    }
  }

  // ---- The slice of event objects

  function Values(es: seq<Event>): (vs: seq<EventValue>)
    reads es
    ensures |vs| == |es|
    ensures forall i :: 0 <= i < |es| ==> vs[i] == es[i].Value()
  {
    seq(|es|, i requires 0 <= i < |es| reads es => es[i].Value())
  }

  ghost predicate SortedEvents(es: seq<Event>) {
    forall i, j :: 0 <= i < j < |es| ==> es[i].id <= es[j].id
  }

  // sort.Slice by id: ascending and a permutation; its order among equal ids is not promised.
  method SortByID(es: array<Event>)
    modifies es
    ensures SortedEvents(es[..]) && Permutation(es[..], old(es[..]))
  {
    var i := 0;
    while i < es.Length
      invariant 0 <= i <= es.Length
      invariant SortedEvents(es[..i])
      invariant Permutation(es[..], old(es[..]))
    {
      SinkDown(es, i);
      i := i + 1;
    }
    assert es[..i] == es[..];
  }

  lemma SwapPermutes<T>(s: seq<T>, i: nat, j: nat)
    requires i < j < |s|
    ensures Permutation(s[i := s[j]][j := s[i]], s)
  {
    var t := s[i := s[j]][j := s[i]];
    var a, b, c := s[..i], s[i + 1..j], s[j + 1..];
    assert s == a + [s[i]] + b + [s[j]] + c;
    assert t == a + [s[j]] + b + [s[i]] + c;
    assert multiset(s) == multiset(a) + multiset{s[i]} + multiset(b) + multiset{s[j]} + multiset(c);
    assert multiset(t) == multiset(a) + multiset{s[j]} + multiset(b) + multiset{s[i]} + multiset(c);
  }

  method Swap(es: array<Event>, i: nat, j: nat)
    requires i < j < es.Length
    modifies es
    ensures es[..] == old(es[..])[i := old(es[j])][j := old(es[i])]
    ensures Permutation(es[..], old(es[..]))
  {
    SwapPermutes(es[..], i, j);
    es[i], es[j] := es[j], es[i];
    assert es[..] == old(es[..])[i := old(es[j])][j := old(es[i])];
  }

  // The first n events are sorted, were it not for the one at j.
  ghost predicate SortedBut(es: seq<Event>, n: nat, j: nat) {
    n <= |es| && forall a, b :: 0 <= a < b < n && b != j ==> es[a].id <= es[b].id
  }

  // Moves the element at i down to its place in the sorted prefix before it.
  method SinkDown(es: array<Event>, i: nat)
    requires i < es.Length && SortedEvents(es[..i])
    modifies es
    ensures SortedEvents(es[..i + 1]) && Permutation(es[..], old(es[..]))
  {
    var j := i;
    assert forall a :: 0 <= a < i ==> es[..][a] == es[..i][a];
    while j > 0 && es[j - 1].id > es[j].id
      invariant 0 <= j <= i
      invariant SortedBut(es[..], i + 1, j)
      invariant Permutation(es[..], old(es[..]))
    {
      Swap(es, j - 1, j);
      j := j - 1;
    }
  }

  lemma DistinctObjects(sorted: seq<Event>, es: seq<Event>)
    requires Permutation(sorted, es) && DistinctIds(Values(es))
    ensures forall i, j :: 0 <= i < j < |sorted| ==> sorted[i] != sorted[j]
    ensures DistinctIds(Values(sorted))
  {
    var vs := Values(es);
    PermutationKeepsMembers(sorted, es);
    assert forall i :: 0 <= i < |es| ==> vs[i].id == es[i].id;
    NoRepeats(es, sorted);
    forall i, j | 0 <= i < j < |sorted| ensures sorted[i].id != sorted[j].id {
      assert sorted[i] in es && sorted[j] in es;
      var m :| 0 <= m < |es| && es[m] == sorted[i];
      var n :| 0 <= n < |es| && es[n] == sorted[j];
    }
  }

  // With distinct ids the sorted objects are the reference sort of the objects given.
  lemma SortedEventsAreSortById(sorted: seq<Event>, es: seq<Event>)
    requires SortedEvents(sorted) && Permutation(sorted, es) && DistinctIds(Values(es))
    ensures Values(sorted) == SortById(Values(es))
  {
    var vs, r := Values(sorted), SortById(Values(es));
    DistinctObjects(sorted, es);
    SortByIdOfDistinct(Values(es), r);
    PermutationKeepsMembers(sorted, es);
    PermutationKeepsMembers(r, Values(es));
    forall v ensures v in vs <==> v in r {
      if v in vs {
        var i :| 0 <= i < |vs| && vs[i] == v;
        assert sorted[i] in es;
        var j :| 0 <= j < |es| && es[j] == sorted[i];
        assert Values(es)[j] == v;
      }
      if v in r {
        assert v in Values(es);
        var j :| 0 <= j < |es| && Values(es)[j] == v;
        assert es[j] in sorted;
        var i :| 0 <= i < |sorted| && sorted[i] == es[j];
        assert vs[i] == v;
      }
    }
    AscendingIsUnique(vs, r);
  }

  lemma {:induction false} AscendingIsUnique(a: seq<EventValue>, b: seq<EventValue>)
    requires Ascending(a) && Ascending(b) && forall x :: x in a <==> x in b
    ensures a == b
  {
    if a != [] {
      assert a[0] in b;
    }
    if b != [] {
      assert b[0] in a;
    }
    if a != [] {
      var i :| 0 <= i < |a| && a[i] == b[0];
      var j :| 0 <= j < |b| && b[j] == a[0];
      assert a[0].id <= a[i].id && b[0].id <= b[j].id;
      assert a[0] == b[0];
      forall x ensures x in a[1..] <==> x in b[1..] {
        assert x in a[1..] <==> x in a && x != a[0];
        assert x in b[1..] <==> x in b && x != b[0];
      }
      AscendingIsUnique(a[1..], b[1..]);
    }
  }
}
