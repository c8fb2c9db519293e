// A whole round from a fetch: spawning, running to completion in any order, and what it changes.
module Rounds {
  import opened Options
  import opened Backoff
  import opened Outbox
  import opened Repository
  import opened Grouping
  import opened Polling
  import opened Worker
  import opened Interleaving

  // The events of one goroutine; a group with an aggregate id is sorted first.
  function Members(events: seq<EventValue>, key: Key): seq<EventValue> {
    var group := Group(events, key);
    if key.aggregateId != "" then SortById(group) else group
  }

  predicate IsOrdered(key: Key) {
    key.aggregateId != ""
  }

  function SpawnAll(round: nat, events: seq<EventValue>, keys: seq<Key>): (ws: seq<Worker>)
    ensures |ws| == |keys|
    ensures forall k :: 0 <= k < |keys| ==> ws[k] == Spawn(round, Members(events, keys[k]), IsOrdered(keys[k]))
  {
    seq(|keys|, k requires 0 <= k < |keys| => Spawn(round, Members(events, keys[k]), IsOrdered(keys[k])))
  }

  function StartRound(round: nat, table: Table, log: seq<Entry>, events: seq<EventValue>, keys: seq<Key>): Round {
    Round(table, SpawnAll(round, events, keys), log)
  }

  lemma MembersOfGroup(events: seq<EventValue>, key: Key)
    ensures forall e :: e in Members(events, key) <==> e in events && KeyOf(e) == key
    ensures DistinctIds(events) ==> DistinctIds(Members(events, key))
    ensures IsOrdered(key) && DistinctIds(events) ==> Ascending(Members(events, key))
  {
    var group := Group(events, key);
    GroupMembers(events, key);
    var positions := GroupKeepsOrder(events, key);
    SortByIdSorts(group);
    PermutationKeepsMembers(SortById(group), group);
    if DistinctIds(events) {
      assert DistinctIds(group);
      SortByIdOfDistinct(group, SortById(group));
    }
  }

  lemma SpawnedSeparate(round: nat, events: seq<EventValue>, keys: seq<Key>)
    requires DistinctIds(events) && Distinct(keys)
    ensures Separate(SpawnAll(round, events, keys))
  {
    var ws := SpawnAll(round, events, keys);
    forall i, j | 0 <= i < j < |ws| ensures Ids(ws[i].events) !! Ids(ws[j].events) {
      MembersOfGroup(events, keys[i]);
      MembersOfGroup(events, keys[j]);
      forall id | id in Ids(ws[i].events) ensures id !in Ids(ws[j].events) {
        var m :| 0 <= m < |ws[i].events| && ws[i].events[m].id == id;
        if id in Ids(ws[j].events) {
          var n :| 0 <= n < |ws[j].events| && ws[j].events[n].id == id;
          SameIdSameEvent(events, ws[i].events[m], ws[j].events[n]);
        }
      }
    }
  }

  lemma SameIdSameEvent(events: seq<EventValue>, a: EventValue, b: EventValue)
    requires DistinctIds(events) && a in events && b in events && a.id == b.id
    ensures a == b
  {
    var i :| 0 <= i < |events| && events[i] == a;
    var j :| 0 <= j < |events| && events[j] == b;
  }

  // ---- What one row looks like afterwards

  // The effect of a call that was made.
  function Effect(cfg: Config, e: EventValue, s: Script, row: Row): Row {
    if e.CanNotRetry(s.checkAt) || s.answer == NotFoundKey || !s.Commits() then row
    else if s.answer == Ack then row.(sentAt := Some(s.storeAt))
    else row.(retryCount := Some(e.retryCount + 1), retryAt := RetriedUnder(cfg, e, s.recordAt).retryAt)
  }

  lemma {:induction false} ApplyAllFrame(table: Table, ws: seq<Write>, id: int)
    ensures ApplyAll(table, ws).Keys == table.Keys
    ensures id in table && (forall w :: w in ws ==> w.id != id) ==> ApplyAll(table, ws)[id] == table[id]
  {
    if ws != [] {
      assert Apply(table, ws[0]).Keys == table.Keys;
      ApplyAllFrame(Apply(table, ws[0]), ws[1..], id);
    }
  }

  // A row's fate depends on that row alone.
  lemma {:induction false} ApplyAllLocal(a: Table, b: Table, ws: seq<Write>, id: int)
    requires id in a && id in b && a[id] == b[id]
    ensures ApplyAll(a, ws).Keys == a.Keys && ApplyAll(b, ws).Keys == b.Keys
    ensures ApplyAll(a, ws)[id] == ApplyAll(b, ws)[id]
  {
    if ws != [] {
      assert Apply(a, ws[0]).Keys == a.Keys && Apply(b, ws[0]).Keys == b.Keys;
      ApplyAllLocal(Apply(a, ws[0]), Apply(b, ws[0]), ws[1..], id);
    }
  }

  lemma {:induction false} FlatMembers(lists: seq<seq<Write>>, w: Write)
    ensures w in Flat(lists) <==> exists i :: 0 <= i < |lists| && w in lists[i]
  {
    if lists != [] {
      FlatMembers(lists[1..], w);
      if i: int :| 0 <= i < |lists| && w in lists[i] {
        assert i > 0 ==> lists[1..][i - 1] == lists[i];
      }
      if w in Flat(lists[1..]) {
        var i :| 0 <= i < |lists[1..]| && w in lists[1..][i];
        assert lists[i + 1] == lists[1..][i];
      }
    }
  }

  // Only its own group's list changes a row.
  lemma {:induction false} FlatEffect(table: Table, lists: seq<seq<Write>>, k: nat, id: int)
    requires k < |lists| && id in table
    requires forall j, w: Write :: 0 <= j < |lists| && j != k && w in lists[j] ==> w.id != id
    ensures ApplyAll(table, Flat(lists)).Keys == table.Keys == ApplyAll(table, lists[k]).Keys
    ensures ApplyAll(table, Flat(lists))[id] == ApplyAll(table, lists[k])[id]
    decreases k
  {
    var tail := lists[1..];
    var first := ApplyAll(table, lists[0]);
    ApplyAllConcat(table, lists[0], Flat(tail));
    ApplyAllFrame(table, lists[0], id);
    ApplyAllFrame(first, Flat(tail), id);
    ApplyAllFrame(table, lists[k], id);
    if k == 0 {
      forall w | w in Flat(tail) ensures w.id != id {
        FlatMembers(tail, w);
        var i :| 0 <= i < |tail| && w in tail[i];
        assert lists[i + 1] == tail[i];
      }
    } else {
      assert forall j :: 0 <= j < |tail| ==> tail[j] == lists[j + 1];
      FlatEffect(first, tail, k - 1, id);
      ApplyAllLocal(first, table, lists[k], id);
    }
  }

  lemma CallEffect(cfg: Config, round: nat, e: EventValue, s: Script, table: Table)
    ensures ApplyOpt(table, PublishOutcome(cfg, round, e, s).write).Keys == table.Keys
    ensures e.id in table ==>
              ApplyOpt(table, PublishOutcome(cfg, round, e, s).write)[e.id] == Effect(cfg, e, s, table[e.id])
    ensures forall id :: id in table && id != e.id ==>
              ApplyOpt(table, PublishOutcome(cfg, round, e, s).write)[id] == table[id]
  {
  }

  lemma {:induction false} GroupRunEffect(cfg: Config, round: nat, o: Oracle, events: seq<EventValue>, ordered: bool,
                                          table: Table, k: nat)
    requires DistinctIds(events) && k < |events| && events[k].id in table
    ensures var t := GroupRun(cfg, round, o, events, ordered);
            var id := events[k].id;
            && ApplyAll(table, t.writes).Keys == table.Keys
            && ApplyAll(table, t.writes)[id]
               == if k < |t.results| then Effect(cfg, events[k], o(id), table[id]) else table[id]
    decreases k
  {
    var id := events[k].id;
    var first := PublishOutcome(cfg, round, events[0], o(events[0].id));
    var table' := ApplyOpt(table, first.write);
    var rest := if ordered && !first.isOk then NOTHING else GroupRun(cfg, round, o, events[1..], ordered);
    FirstWrite(table, first.write, rest.writes);
    CallEffect(cfg, round, events[0], o(events[0].id), table);
    GroupRunStaysInGroup(cfg, round, o, events[1..], ordered);
    ApplyAllFrame(table', rest.writes, id);
    if k == 0 {
      assert id !in Ids(events[1..]);
    } else if rest != NOTHING {
      GroupRunEffect(cfg, round, o, events[1..], ordered, table', k - 1);
    }
  }

  // ---- Main results on a round

  function RunOfKey(cfg: Config, round: nat, o: Oracle, events: seq<EventValue>, key: Key): Trace {
    GroupRun(cfg, round, o, Members(events, key), IsOrdered(key))
  }

  // publishEvent is called for e: its group does not stop before it.
  ghost predicate Called(cfg: Config, round: nat, o: Oracle, events: seq<EventValue>, e: EventValue) {
    var members := Members(events, KeyOf(e));
    exists k :: 0 <= k < |members| && members[k] == e && k < |RunOfKey(cfg, round, o, events, KeyOf(e)).results|
  }

  // Rows not fetched, or fetched and not called, keep every column; a row whose event was called
  // has the effect of that call.
  ghost predicate ExactlyAffected(cfg: Config, round: nat, o: Oracle, events: seq<EventValue>, table: Table,
                                  end: Table) {
    && end.Keys == table.Keys
    && (forall id :: id in table && id !in Ids(events) ==> end[id] == table[id])
    && (forall e :: e in events && e.id in table ==>
          end[e.id] == if Called(cfg, round, o, events, e) then Effect(cfg, e, o(e.id), table[e.id]) else table[e.id])
  }

  ghost predicate RoundEnds(cfg: Config, round: nat, o: Oracle, table: Table, log: seq<Entry>,
                            events: seq<EventValue>, keys: seq<Key>, schedule: seq<nat>, end: Round) {
    && DistinctIds(events)
    && Enumerates(keys, events)
    && Runs(cfg, o, StartRound(round, table, log, events, keys), schedule, end)
    && Complete(end)
  }

  // In every schedule each goroutine makes exactly the calls of its sequential loop, with the same
  // results and the same entries: for an ordered group a prefix of its sorted events with every
  // call but the last returning true, for the group without an id one call per event.
  lemma CallsOfARound(cfg: Config, round: nat, o: Oracle, table: Table, log: seq<Entry>,
                      events: seq<EventValue>, keys: seq<Key>, schedule: seq<nat>, end: Round, k: nat)
    requires RoundEnds(cfg, round, o, table, log, events, keys, schedule, end) && k < |keys|
    ensures |end.workers| == |keys|
    ensures end.workers[k].results == RunOfKey(cfg, round, o, events, keys[k]).results
    ensures LogOf(end.log, Ids(Members(events, keys[k])))
         == LogOf(log, Ids(Members(events, keys[k]))) + RunOfKey(cfg, round, o, events, keys[k]).entries
    ensures StopsAtFirstFailure(end.workers[k].results, |Members(events, keys[k])|, keys[k].aggregateId != "")
  {
    GroupOfARound(cfg, round, o, table, log, events, keys, schedule, end, k);
    GroupRunStopsAtFirstFailure(cfg, round, o, Members(events, keys[k]), IsOrdered(keys[k]));
  }

  lemma GroupOfARound(cfg: Config, round: nat, o: Oracle, table: Table, log: seq<Entry>,
                      events: seq<EventValue>, keys: seq<Key>, schedule: seq<nat>, end: Round, k: nat)
    requires RoundEnds(cfg, round, o, table, log, events, keys, schedule, end) && k < |keys|
    ensures |end.workers| == |keys|
    ensures end.workers[k].results == RunOfKey(cfg, round, o, events, keys[k]).results
    ensures LogOf(end.log, Ids(Members(events, keys[k])))
         == LogOf(log, Ids(Members(events, keys[k]))) + RunOfKey(cfg, round, o, events, keys[k]).entries
  {
    var start := StartRound(round, table, log, events, keys);
    SpawnedSeparate(round, events, keys);
    InterleavingsAgree(cfg, o, start, schedule, end);
    SpawnedRun(cfg, round, o, events, keys, k);
  }

  lemma SpawnedRun(cfg: Config, round: nat, o: Oracle, events: seq<EventValue>, keys: seq<Key>, k: nat)
    requires k < |keys|
    ensures var w := SpawnAll(round, events, keys)[k];
            && w.events == Members(events, keys[k])
            && Remaining(cfg, o, w) == RunOfKey(cfg, round, o, events, keys[k])
            && w.results + Remaining(cfg, o, w).results == Remaining(cfg, o, w).results
  {
    SpawnedRemaining(cfg, o, round, Members(events, keys[k]), IsOrdered(keys[k]));
  }

  // A round changes a row only if its event was called, found due, resolved and committed, and
  // then only sent_at (accepted) or retry_count and retry_at (refused). Every other row keeps
  // every column. The order of keys and the schedule do not matter.
  lemma ExactEffect(cfg: Config, round: nat, o: Oracle, table: Table, log: seq<Entry>,
                    events: seq<EventValue>, keys: seq<Key>, schedule: seq<nat>, end: Round)
    requires RoundEnds(cfg, round, o, table, log, events, keys, schedule, end)
    ensures ExactlyAffected(cfg, round, o, events, table, end.table)
  {
    SpawnedSeparate(round, events, keys);
    InterleavingsAgree(cfg, o, StartRound(round, table, log, events, keys), schedule, end);
    SequentialEffect(cfg, round, o, table, log, events, keys);
  }

  lemma SequentialEffect(cfg: Config, round: nat, o: Oracle, table: Table, log: seq<Entry>,
                         events: seq<EventValue>, keys: seq<Key>)
    requires DistinctIds(events) && Enumerates(keys, events)
    ensures ExactlyAffected(cfg, round, o, events, table,
                            OneAfterAnother(cfg, o, StartRound(round, table, log, events, keys)))
  {
    var start := StartRound(round, table, log, events, keys);
    var final := OneAfterAnother(cfg, o, start);
    var lists := WritesLeft(cfg, o, start.workers);
    ApplyAllFrame(table, Flat(lists), 0);
    forall id | id in table && id !in Ids(events) ensures final[id] == table[id] {
      forall w | w in Flat(lists) ensures w.id != id {
        FlatMembers(lists, w);
        var k :| 0 <= k < |lists| && w in lists[k];
        RemainingStaysInGroup(cfg, o, start.workers[k]);
        MembersHaveFetchedIds(events, keys[k]);
      }
      ApplyAllFrame(table, Flat(lists), id);
    }
    forall e | e in events && e.id in table
      ensures final[e.id] == if Called(cfg, round, o, events, e)
                             then Effect(cfg, e, o(e.id), table[e.id]) else table[e.id]
    {
      var i :| 0 <= i < |events| && events[i] == e;
      assert KeyOf(e) in keys;
      var k :| 0 <= k < |keys| && keys[k] == KeyOf(e);
      RowOfGroup(cfg, round, o, table, log, events, keys, e, k);
    }
  }

  lemma MembersHaveFetchedIds(events: seq<EventValue>, key: Key)
    ensures Ids(Members(events, key)) <= Ids(events)
  {
    MembersOfGroup(events, key);
    var members := Members(events, key);
    forall id | id in Ids(members) ensures id in Ids(events) {
      var m :| 0 <= m < |members| && members[m].id == id;
      assert members[m] in events;
      var i :| 0 <= i < |events| && events[i] == members[m];
    }
  }

  lemma RowOfGroup(cfg: Config, round: nat, o: Oracle, table: Table, log: seq<Entry>,
                   events: seq<EventValue>, keys: seq<Key>, e: EventValue, k: nat)
    requires DistinctIds(events) && Enumerates(keys, events)
    requires e in events && e.id in table && k < |keys| && keys[k] == KeyOf(e)
    ensures var final := OneAfterAnother(cfg, o, StartRound(round, table, log, events, keys));
            && final.Keys == table.Keys
            && final[e.id] == if Called(cfg, round, o, events, e)
                              then Effect(cfg, e, o(e.id), table[e.id]) else table[e.id]
  {
    var ws := SpawnAll(round, events, keys);
    var lists := WritesLeft(cfg, o, ws);
    var members := Members(events, keys[k]);
    SpawnedSeparate(round, events, keys);
    MembersOfGroup(events, keys[k]);
    var m :| 0 <= m < |members| && members[m] == e;
    forall j, w: Write | 0 <= j < |lists| && j != k && w in lists[j] ensures w.id != e.id {
      RemainingStaysInGroup(cfg, o, ws[j]);
      assert e.id in Ids(ws[k].events);
      assert if j < k then Ids(ws[j].events) !! Ids(ws[k].events) else Ids(ws[k].events) !! Ids(ws[j].events);
    }
    FlatEffect(table, lists, k, e.id);
    SpawnedRemaining(cfg, o, round, members, IsOrdered(keys[k]));
    GroupRunEffect(cfg, round, o, members, IsOrdered(keys[k]), table, m);
    assert forall n :: 0 <= n < |members| && members[n] == e ==> n == m;
  }

  // Neither the order in which the maps are walked nor the schedule shows in the table.
  lemma OrderDoesNotMatter(cfg: Config, round: nat, o: Oracle, table: Table, events: seq<EventValue>,
                           log: seq<Entry>, keys: seq<Key>, schedule: seq<nat>, end: Round,
                           log': seq<Entry>, keys': seq<Key>, schedule': seq<nat>, end': Round)
    requires RoundEnds(cfg, round, o, table, log, events, keys, schedule, end)
    requires RoundEnds(cfg, round, o, table, log', events, keys', schedule', end')
    ensures end.table == end'.table
  {
    ExactEffect(cfg, round, o, table, log, events, keys, schedule, end);
    ExactEffect(cfg, round, o, table, log', events, keys', schedule', end');
    forall id | id in table ensures end.table[id] == end'.table[id] {
      if id in Ids(events) {
        var i :| 0 <= i < |events| && events[i].id == id;
        assert events[i] in events;
      }
    }
  }

  // The clock reading at the refusal plus the delay of the new count.
  function NextRetryAt(cfg: Config, at: Time, count: nat): (t: Time)
    ensures t == at + NextRetryDuration(cfg.retryBackOff, count, cfg.outOfRange)
  {
    at + NextRetryDuration(cfg.retryBackOff, count, cfg.outOfRange)
  }

  // An accepted row is marked sent; a refused one has a count one higher and the retry time that
  // goes with it. All other columns stay.
  predicate MarkedOrPaid(cfg: Config, s: Script, row: Row, after: Row) {
    var count := row.RetryCountValue() + 1;
    && (s.answer == Ack ==> after == row.(sentAt := Some(s.storeAt)))
    && (s.answer == Nack ==>
          after == row.(retryCount := Some(count), retryAt := Some(NextRetryAt(cfg, s.recordAt, count))))
  }

  // The head of an ordered group, if due, resolved and committed, is either marked sent or pays
  // one unit of its budget; its group goes on just when it was accepted.
  lemma HeadIsMarkedOrPays(cfg: Config, round: nat, o: Oracle, table: Table, log: seq<Entry>,
                           events: seq<EventValue>, keys: seq<Key>, schedule: seq<nat>, end: Round, k: nat)
    requires RoundEnds(cfg, round, o, table, log, events, keys, schedule, end)
    requires k < |keys| && IsOrdered(keys[k]) && Members(events, keys[k]) != []
    requires var head := Members(events, keys[k])[0];
             var s := o(head.id);
             && head.id in table && head == ToEvent(head.id, table[head.id])
             && !head.CanNotRetry(s.checkAt) && s.answer != NotFoundKey && s.Commits()
    ensures var head := Members(events, keys[k])[0];
            var s, row := o(head.id), table[head.id];
            && head.id in end.table && |end.workers| == |keys|
            && MarkedOrPaid(cfg, s, row, end.table[head.id])
            && (s.answer == Ack && |Members(events, keys[k])| > 1 <==> |end.workers[k].results| > 1)
  {
    var head := Members(events, keys[k])[0];
    HeadIsCalled(cfg, round, o, events, keys[k]);
    HeadGoesOn(cfg, round, o, Members(events, keys[k]));
    CallsOfARound(cfg, round, o, table, log, events, keys, schedule, end, k);
    HeadEffect(cfg, round, o, table, log, events, keys, schedule, end, head);
  }

  lemma HeadIsCalled(cfg: Config, round: nat, o: Oracle, events: seq<EventValue>, key: Key)
    requires DistinctIds(events) && Members(events, key) != []
    ensures var head := Members(events, key)[0];
            head in events && KeyOf(head) == key && Called(cfg, round, o, events, head)
  {
    MembersOfGroup(events, key);
    assert Members(events, key)[0] in Members(events, key);
    GroupRunStopsAtFirstFailure(cfg, round, o, Members(events, key), IsOrdered(key));
    MemberCalled(cfg, round, o, events, Members(events, key)[0], 0);
  }

  lemma HeadGoesOn(cfg: Config, round: nat, o: Oracle, members: seq<EventValue>)
    requires members != []
    ensures |GroupRun(cfg, round, o, members, true).results| > 1
       <==> |members| > 1 && PublishOutcome(cfg, round, members[0], o(members[0].id)).isOk
  {
    GroupRunStopsAtFirstFailure(cfg, round, o, members, true);
    GroupRunStopsAtFirstFailure(cfg, round, o, members[1..], true);
  }

  lemma HeadEffect(cfg: Config, round: nat, o: Oracle, table: Table, log: seq<Entry>,
                   events: seq<EventValue>, keys: seq<Key>, schedule: seq<nat>, end: Round, head: EventValue)
    requires RoundEnds(cfg, round, o, table, log, events, keys, schedule, end)
    requires head in events && head.id in table && Called(cfg, round, o, events, head)
    requires head == ToEvent(head.id, table[head.id])
    requires !head.CanNotRetry(o(head.id).checkAt) && o(head.id).answer != NotFoundKey && o(head.id).Commits()
    ensures head.id in end.table && MarkedOrPaid(cfg, o(head.id), table[head.id], end.table[head.id])
  {
    CalledEffect(cfg, round, o, table, log, events, keys, schedule, end, head);
    RecordedEffect(cfg, o(head.id), head.id, table[head.id]);
  }

  lemma CalledEffect(cfg: Config, round: nat, o: Oracle, table: Table, log: seq<Entry>,
                     events: seq<EventValue>, keys: seq<Key>, schedule: seq<nat>, end: Round, e: EventValue)
    requires RoundEnds(cfg, round, o, table, log, events, keys, schedule, end)
    requires e in events && e.id in table && Called(cfg, round, o, events, e)
    ensures e.id in end.table && end.table[e.id] == Effect(cfg, e, o(e.id), table[e.id])
  {
    ExactEffect(cfg, round, o, table, log, events, keys, schedule, end);
  }

  lemma RecordedEffect(cfg: Config, s: Script, id: int, row: Row)
    requires !ToEvent(id, row).CanNotRetry(s.checkAt) && s.answer != NotFoundKey && s.Commits()
    ensures MarkedOrPaid(cfg, s, row, Effect(cfg, ToEvent(id, row), s, row))
  {
    EffectByColumns(cfg, s, id, row);
  }

  // ---- The round as the worker runs it

  ghost predicate Occurs(events: seq<EventValue>, key: Key) {
    exists i :: 0 <= i < |events| && KeyOf(events[i]) == key
  }

  lemma OccursInGroup(events: seq<EventValue>, key: Key)
    ensures Occurs(events, key) <==> Group(events, key) != []
    ensures Group(events, key) != [] ==> OfType(events, key.aggregateType) != []
  {
    GroupMembers(events, key);
    if Group(events, key) != [] {
      assert Group(events, key)[0] in Group(events, key);
    }
    if i :| 0 <= i < |events| && KeyOf(events[i]) == key {
      assert events[i] in events;
    }
  }

  // Walks the map of types in whatever order and starts a goroutine for each.
  method SpawnWorkers(round: nat, events: seq<EventValue>) returns (workers: seq<Worker>, keys: seq<Key>)
    ensures Enumerates(keys, events)
    ensures workers == SpawnAll(round, events, keys)
  {
    var mp := EventToGroupingByAggregateType(events);
    var types := mp.Keys;
    workers, keys := [], [];
    while types != {}
      invariant types <= mp.Keys
      invariant Distinct(keys)
      invariant forall key :: key in keys <==>
                  key.aggregateType in mp.Keys - types && Group(events, key) != []
      invariant workers == SpawnAll(round, events, keys)
      decreases types
    {
      var t :| t in types;
      types := types - {t};
      workers, keys := SpawnType(round, events, t, mp[t], workers, keys);
    }
    forall key ensures key in keys <==> Occurs(events, key) {
      OccursInGroup(events, key);
    }
  }

  // Walks the map of ids of one type and spawns a goroutine for each group.
  method SpawnType(round: nat, events: seq<EventValue>, t: string, typed: seq<EventValue>,
                   before: seq<Worker>, keysBefore: seq<Key>)
    returns (workers: seq<Worker>, keys: seq<Key>)
    requires typed == OfType(events, t)
    requires Distinct(keysBefore) && forall key :: key in keysBefore ==> key.aggregateType != t
    requires before == SpawnAll(round, events, keysBefore)
    ensures Distinct(keys)
    ensures forall key :: key in keys <==> key in keysBefore || (key.aggregateType == t && Group(events, key) != [])
    ensures workers == SpawnAll(round, events, keys)
  {
    var mpGroupEvent := EventToGroupingAggregateId(typed);
    var ids := mpGroupEvent.Keys;
    workers, keys := before, keysBefore;
    while ids != {}
      invariant ids <= mpGroupEvent.Keys
      invariant Distinct(keys)
      invariant forall key :: key in keys <==>
                  (key in keysBefore || (key.aggregateType == t && key.aggregateId in mpGroupEvent.Keys - ids))
      invariant workers == SpawnAll(round, events, keys)
      decreases ids
    {
      var mGroupId :| mGroupId in ids;
      ids := ids - {mGroupId};
      var groupEvents := mpGroupEvent[mGroupId];
      if mGroupId != "" {
        groupEvents := SortById(groupEvents);
      }
      SpawnAllSnoc(round, events, keys, Key(t, mGroupId));
      workers := workers + [Spawn(round, groupEvents, mGroupId != "")];
      keys := keys + [Key(t, mGroupId)];
    }
  }

  lemma SpawnAllSnoc(round: nat, events: seq<EventValue>, keys: seq<Key>, key: Key)
    ensures SpawnAll(round, events, keys + [key])
         == SpawnAll(round, events, keys) + [Spawn(round, Members(events, key), IsOrdered(key))]
  {
  }

  // The scheduler picks any goroutine that has not returned; wg.Wait returns when none is left.
  method RunToCompletion(cfg: Config, o: Oracle, start: Round) returns (end: Round)
    requires Separate(start.workers)
    ensures Complete(end) && |end.workers| == |start.workers|
    ensures end.table == OneAfterAnother(cfg, o, start)
    ensures AllAccounted(cfg, o, start, end)
  {
    end := start;
    while !Complete(end)
      invariant Separate(end.workers)
      invariant AllAccounted(cfg, o, start, end)
      invariant OneAfterAnother(cfg, o, end) == OneAfterAnother(cfg, o, start)
      decreases TotalStepsLeft(end.workers)
    {
      var i :| 0 <= i < |end.workers| && end.workers[i].Live();
      var w := end.workers[i];
      RoundStepKeeps(cfg, o, start, end, i);
      StepMakesProgress(cfg, w, o(w.Current().id));
      FewerStepsLeft(end.workers, i, MicroStep(cfg, w, o(w.Current().id)).worker);
      end := RoundStep(cfg, o, end, i);
    }
    FlatOfNothing(WritesLeft(cfg, o, end.workers));
  }

  method ProcessingEvent(cfg: Config, o: Oracle, round: nat, table: Table, log: seq<Entry>, events: seq<EventValue>)
    returns (end: Round)
    requires DistinctIds(events)
    ensures Complete(end)
    ensures exists keys :: Enumerates(keys, events) &&
              AllAccounted(cfg, o, StartRound(round, table, log, events, keys), end)
    ensures ExactlyAffected(cfg, round, o, events, table, end.table)
  {
    var workers, keys := SpawnWorkers(round, events);
    SpawnedSeparate(round, events, keys);
    end := RunToCompletion(cfg, o, Round(table, workers, log));
    SequentialEffect(cfg, round, o, table, log, events, keys);
  }

  // ---- The polling loop

  // The table after one round, by row.
  ghost function AfterRound(cfg: Config, round: nat, o: Oracle, table: Table): Table {
    var events := Find(cfg, table);
    map id | id in table ::
      var e := ToEvent(id, table[id]);
      if e in events && Called(cfg, round, o, events, e) then Effect(cfg, e, o(id), table[id]) else table[id]
  }

  // Due, accepted and committed.
  ghost predicate Succeeds(retryAt: Option<Time>, s: Script) {
    (retryAt.None? || retryAt.value <= s.checkAt) && s.answer == Ack && s.outcome == Committed
  }

  ghost predicate PredecessorsSucceed(o: Oracle, events: seq<EventValue>, e: EventValue) {
    forall d :: d in events && d.aggregateType == e.aggregateType && d.aggregateId == e.aggregateId && d.id < e.id ==>
      Succeeds(d.retryAt, o(d.id))
  }

  lemma MemberCalled(cfg: Config, round: nat, o: Oracle, events: seq<EventValue>, e: EventValue, m: nat)
    requires DistinctIds(events)
    requires m < |Members(events, KeyOf(e))| && Members(events, KeyOf(e))[m] == e
    ensures Called(cfg, round, o, events, e) <==> m < |RunOfKey(cfg, round, o, events, KeyOf(e)).results|
  {
    MembersOfGroup(events, KeyOf(e));
    var members := Members(events, KeyOf(e));
    assert forall n :: 0 <= n < |members| && members[n] == e ==> n == m;
  }

  lemma RunResult(cfg: Config, round: nat, o: Oracle, events: seq<EventValue>, key: Key, n: nat)
    requires n < |RunOfKey(cfg, round, o, events, key).results| && n < |Members(events, key)|
    ensures var d := Members(events, key)[n];
            RunOfKey(cfg, round, o, events, key).results[n] <==> Succeeds(d.retryAt, o(d.id))
  {
    GroupRunStopsAtFirstFailure(cfg, round, o, Members(events, key), IsOrdered(key));
  }

  // An ordered group gets as far as m exactly if all calls before m succeed.
  lemma GetsAsFar(o: Oracle, members: seq<EventValue>, results: seq<bool>, m: nat)
    requires m < |members| && StopsAtFirstFailure(results, |members|, true)
    requires forall n :: 0 <= n < |results| ==> (results[n] <==> Succeeds(members[n].retryAt, o(members[n].id)))
    ensures m < |results| <==> forall n :: 0 <= n < m ==> Succeeds(members[n].retryAt, o(members[n].id))
  {
    if m >= |results| {
      assert !results[|results| - 1];
    }
  }

  // The events before e in its sorted group are the lower events of its group.
  lemma PredecessorsAreBefore(o: Oracle, events: seq<EventValue>, e: EventValue, m: nat)
    requires DistinctIds(events) && e.aggregateId != ""
    requires m < |Members(events, KeyOf(e))| && Members(events, KeyOf(e))[m] == e
    ensures var members := Members(events, KeyOf(e));
            (PredecessorsSucceed(o, events, e)
             <==> forall n :: 0 <= n < m ==> Succeeds(members[n].retryAt, o(members[n].id)))
  {
    var members := Members(events, KeyOf(e));
    MembersOfGroup(events, KeyOf(e));
    if forall n :: 0 <= n < m ==> Succeeds(members[n].retryAt, o(members[n].id)) {
      forall d | d in events && KeyOf(d) == KeyOf(e) && d.id < e.id ensures Succeeds(d.retryAt, o(d.id)) {
        assert d in members;
        var n :| 0 <= n < |members| && members[n] == d;
      }
    }
    if PredecessorsSucceed(o, events, e) {
      forall n | 0 <= n < m ensures Succeeds(members[n].retryAt, o(members[n].id)) {
        assert members[n] in members;
      }
    }
  }

  // publishEvent is called for an event exactly if it has no aggregate id or every lower event of
  // its group has been accepted and committed.
  lemma CalledIffPredecessorsSucceed(cfg: Config, round: nat, o: Oracle, events: seq<EventValue>, e: EventValue)
    requires DistinctIds(events) && e in events
    ensures Called(cfg, round, o, events, e) <==> e.aggregateId == "" || PredecessorsSucceed(o, events, e)
  {
    var key := KeyOf(e);
    var members, results := Members(events, key), RunOfKey(cfg, round, o, events, key).results;
    assert e in members by {
      MembersOfGroup(events, key);
    }
    var m :| 0 <= m < |members| && members[m] == e;
    MemberCalled(cfg, round, o, events, e, m);
    GroupRunStopsAtFirstFailure(cfg, round, o, members, IsOrdered(key));
    if e.aggregateId != "" {
      forall n | 0 <= n < |results| ensures results[n] <==> Succeeds(members[n].retryAt, o(members[n].id)) {
        RunResult(cfg, round, o, events, key, n);
      }
      GetsAsFar(o, members, results, m);
      PredecessorsAreBefore(o, events, e, m);
    }
  }

  // A round's effect on a row, by columns and without the steps that bring it about. It changes only
  // if it is reached and due, its destination is found and its transaction commits: sent_at if it
  // was accepted, the retry columns if it was refused.
  function ByColumns(cfg: Config, s: Script, row: Row, reached: bool): Row {
    var count := (if row.retryCount.Some? then row.retryCount.value else 0) + 1;
    var waits := row.retryAt.Some? && row.retryAt.value > s.checkAt;
    if !reached || waits || s.answer == NotFoundKey || s.outcome != Committed then row
    else if s.answer == Ack then row.(sentAt := Some(s.storeAt))
    else row.(retryCount := Some(count), retryAt := Some(NextRetryAt(cfg, s.recordAt, count)))
  }

  lemma EffectByColumns(cfg: Config, s: Script, id: int, row: Row)
    ensures Effect(cfg, ToEvent(id, row), s, row) == ByColumns(cfg, s, row, true)
    ensures row == ByColumns(cfg, s, row, false)
  {
  }

  // The row is fetched, and its group gets as far as it.
  ghost predicate Reached(cfg: Config, o: Oracle, table: Table, id: int)
    requires id in table
  {
    var events, e := Find(cfg, table), ToEvent(id, table[id]);
    e in events && (table[id].aggregateId == "" || PredecessorsSucceed(o, events, e))
  }

  lemma RowAfterRound(cfg: Config, round: nat, o: Oracle, table: Table, id: int)
    requires id in table
    ensures AfterRound(cfg, round, o, table)[id]
         == if Reached(cfg, o, table, id) then Effect(cfg, ToEvent(id, table[id]), o(id), table[id]) else table[id]
  {
    var e, events := ToEvent(id, table[id]), Find(cfg, table);
    FindIsLowestEligible(cfg, table);
    if e in events {
      CalledIffPredecessorsSucceed(cfg, round, o, events, e);
    }
  }

  // What a round does to a row of the table it fetches from.
  lemma RoundByColumns(cfg: Config, round: nat, o: Oracle, table: Table, id: int)
    requires id in table
    ensures AfterRound(cfg, round, o, table)[id] == ByColumns(cfg, o(id), table[id], Reached(cfg, o, table, id))
  {
    RowAfterRound(cfg, round, o, table, id);
    EffectByColumns(cfg, o(id), id, table[id]);
  }

  // One pass of the loop: what the application has deleted and inserted meanwhile, whether the
  // fetch fails, and what the round observes.
  datatype Tick = Tick(deleted: set<int>, inserted: Table, fault: bool, oracle: Oracle)

  function Change(table: Table, tick: Tick): Table {
    var kept := table - tick.deleted;
    kept + (tick.inserted - kept.Keys)
  }

  ghost function AfterTicks(cfg: Config, table: Table, ticks: seq<Tick>): Table {
    if ticks == [] then table else
    var n := |ticks| - 1;
    var before := Change(AfterTicks(cfg, table, ticks[..n]), ticks[n]);
    if ticks[n].fault then before else AfterRound(cfg, n, ticks[n].oracle, before)
  }

  lemma AfterOneMore(cfg: Config, table: Table, ticks: seq<Tick>, k: nat)
    requires k < |ticks|
    ensures var before := Change(AfterTicks(cfg, table, ticks[..k]), ticks[k]);
            AfterTicks(cfg, table, ticks[..k + 1])
              == if ticks[k].fault then before else AfterRound(cfg, k, ticks[k].oracle, before)
  {
    assert ticks[..k + 1][..k] == ticks[..k];
  }

  lemma FetchedIsItsRow(cfg: Config, table: Table, id: int)
    requires id in table
    ensures ToEvent(id, table[id]) in Find(cfg, table) <==> id in Ids(Find(cfg, table))
  {
    var events := Find(cfg, table);
    FindIsLowestEligible(cfg, table);
    if id in Ids(events) {
      var i :| 0 <= i < |events| && events[i].id == id;
      assert events[i] == ToEvent(id, table[id]);
    }
    assert forall i :: 0 <= i < |events| ==> events[i].id in Ids(events);
  }

  lemma RoundIsAfterRound(cfg: Config, round: nat, o: Oracle, table: Table, end: Table)
    requires ExactlyAffected(cfg, round, o, Find(cfg, table), table, end)
    ensures end == AfterRound(cfg, round, o, table)
  {
    var after := AfterRound(cfg, round, o, table);
    forall id | id in table ensures end[id] == after[id] {
      FetchedIsItsRow(cfg, table, id);
    }
    SameMap(end, after);
  }

  // The loop until its context is done, over finitely many ticks. Whatever order the goroutines of
  // each round run in, the table is the one the rounds give.
  method Processing(repo: Client, ticks: seq<Tick>)
    modifies repo
    ensures repo.table == AfterTicks(repo.cfg, old(repo.table), ticks)
  {
    var k := 0;
    while k < |ticks|
      invariant 0 <= k <= |ticks|
      invariant repo.table == AfterTicks(repo.cfg, old(repo.table), ticks[..k])
    {
      var tick := ticks[k];
      AfterOneMore(repo.cfg, old(repo.table), ticks, k);
      repo.table := Change(repo.table, tick);
      var events, err := repo.FindEvents(tick.fault);
      if !err {
        FindIsLowestEligible(repo.cfg, repo.table);
        if |events| > 0 {
          var end := ProcessingEvent(repo.cfg, tick.oracle, k, repo.table, [], Values(events));
          RoundIsAfterRound(repo.cfg, k, tick.oracle, repo.table, end.table);
          repo.table := end.table;
        } else {
          RoundIsAfterRound(repo.cfg, k, tick.oracle, repo.table, repo.table);
        }
      }
      k := k + 1;
    }
    assert ticks[..k] == ticks;
  }
}
