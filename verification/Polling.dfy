// pkg/service/polling/implement.go: one publishEvent call, and one group worked through in order.
module Polling {
  import opened Options
  import opened Backoff
  import opened Outbox
  import opened Repository

  // The publisher's answer: accepted, failed with an error, or failed because the destination is
  // not in the store.
  datatype Answer = Ack | Nack | NotFoundKey

  // Everything one publishEvent call observes from outside: the clock at the due check, the
  // publisher's answer, the clock when the outcome is recorded, the repository's own clock, and
  // how the transaction ends.
  datatype Script = Script(
    checkAt: Time,
    answer: Answer,
    recordAt: Time,
    storeAt: Time,
    outcome: TxOutcome)
  {
    predicate Commits() {
      outcome == Committed
    }
  }

  type Oracle = int -> Script

  // What a worker leaves in the log. "at" is the clock reading that found the event due (or not),
  // and for a failed publish the reading its retry time counts from.
  datatype Entry =
    | Fetched(round: nat, snapshot: Table)
    | Waiting(round: nat, id: int, at: Time)
    | Unresolved(round: nat, id: int, at: Time)
    | Accepted(round: nat, id: int, at: Time)
    | Refused(round: nat, id: int, at: Time)
    | Marked(round: nat, id: int, stored: bool)
    | Failed(round: nat, id: int, at: Time, stored: bool)

  datatype Outcome = Outcome(isOk: bool, write: Option<Write>, entries: seq<Entry>)

  function RetriedUnder(cfg: Config, e: EventValue, now: Time): EventValue {
    e.Retried(cfg.retryBackOff, cfg.outOfRange, now)
  }

  // A publishEvent call in one piece.
  function PublishOutcome(cfg: Config, round: nat, e: EventValue, s: Script): Outcome {
    if e.CanNotRetry(s.checkAt) then
      Outcome(false, None, [Waiting(round, e.id, s.checkAt)])
    else
      match s.answer
      case NotFoundKey =>
        Outcome(false, None, [Unresolved(round, e.id, s.checkAt)])
      case Ack =>
        Outcome(s.Commits(),
                if s.Commits() then Some(MarkSent(e.id, s.storeAt)) else None,
                [Accepted(round, e.id, s.checkAt), Marked(round, e.id, s.Commits())])
      case Nack =>
        var r := RetriedUnder(cfg, e, s.recordAt);
        Outcome(false,
                if s.Commits() then Some(SaveRetry(e.id, r.retryCount, r.retryAt.value)) else None,
                [Refused(round, e.id, s.checkAt), Failed(round, e.id, s.recordAt, s.Commits())])
  }

  // The event object after the call: updated even when its transaction rolls back.
  function AfterCall(cfg: Config, e: EventValue, s: Script): EventValue {
    if e.CanNotRetry(s.checkAt) || s.answer == NotFoundKey then e
    else if s.answer == Ack then e.Sent(s.recordAt)
    else RetriedUnder(cfg, e, s.recordAt)
  }

  function ApplyOpt(table: Table, w: Option<Write>): Table {
    if w.Some? then Apply(table, w.value) else table
  }

  function ApplyAll(table: Table, ws: seq<Write>): Table {
    if ws == [] then table else ApplyAll(Apply(table, ws[0]), ws[1..])
  }

  function OptSeq<T(!new)>(x: Option<T>): (s: seq<T>)
    ensures forall y :: y in s <==> x == Some(y)
  {
    if x.Some? then [x.value] else []
  }

  // A call by columns: what it returns, what it writes, and what becomes of the event it holds.
  lemma CallByColumns(cfg: Config, round: nat, e: EventValue, s: Script, table: Table)
    ensures var waits := e.retryAt.Some? && e.retryAt.value > s.checkAt;
            var recorded := !waits && s.answer != NotFoundKey;
            var count := e.retryCount + 1;
            var due := s.recordAt + NextRetryDuration(cfg.retryBackOff, count, cfg.outOfRange);
            var out, after := PublishOutcome(cfg, round, e, s), AfterCall(cfg, e, s);
            var written := ApplyOpt(table, out.write);
            && (out.isOk <==> !waits && s.answer == Ack && s.outcome == Committed)
            && (!recorded || s.outcome != Committed || e.id !in table ==> written == table)
            && (recorded && s.outcome == Committed && e.id in table ==>
                  var row := table[e.id];
                  written == table[e.id := if s.answer == Ack then row.(sentAt := Some(s.storeAt))
                                           else row.(retryCount := Some(count), retryAt := Some(due))])
            && after == (if !recorded then e
                         else if s.answer == Ack then e.(sentAt := Some(s.recordAt))
                         else e.(retryCount := count, retryAt := Some(due)))
  {
  }

  // What a group's loop leaves behind: the results of its calls in order, its writes, its entries.
  datatype Trace = Trace(results: seq<bool>, writes: seq<Write>, entries: seq<Entry>)

  const NOTHING := Trace([], [], [])

  function Then(a: Trace, b: Trace): Trace {
    Trace(a.results + b.results, a.writes + b.writes, a.entries + b.entries)
  }

  function TraceOf(o: Outcome): Trace {
    Trace([o.isOk], OptSeq(o.write), o.entries)
  }

  // The loop over one group: a group with an aggregate id stops at the first call that fails.
  function GroupRun(cfg: Config, round: nat, o: Oracle, events: seq<EventValue>, ordered: bool): Trace {
    if events == [] then NOTHING
    else
      var first := PublishOutcome(cfg, round, events[0], o(events[0].id));
      Then(TraceOf(first),
           if ordered && !first.isOk then NOTHING else GroupRun(cfg, round, o, events[1..], ordered))
  }

  // An ordered group is called for a prefix of its events and every call but the last returned
  // true; it is cut short only by a failed call. A group without an id gets one call per event.
  ghost predicate StopsAtFirstFailure(results: seq<bool>, n: nat, ordered: bool) {
    && |results| <= n
    && (!ordered ==> |results| == n)
    && (ordered ==> forall k :: 0 <= k < |results| - 1 ==> results[k])
    && (|results| < n ==> results != [] && !results[|results| - 1])
  }

  lemma {:induction false} GroupRunStopsAtFirstFailure(cfg: Config, round: nat, o: Oracle,
                                                       events: seq<EventValue>, ordered: bool)
    ensures StopsAtFirstFailure(GroupRun(cfg, round, o, events, ordered).results, |events|, ordered)
    ensures forall k :: 0 <= k < |GroupRun(cfg, round, o, events, ordered).results| && k < |events| ==>
              (GroupRun(cfg, round, o, events, ordered).results[k]
               == PublishOutcome(cfg, round, events[k], o(events[k].id)).isOk)
  {
    if events != [] {
      GroupRunStopsAtFirstFailure(cfg, round, o, events[1..], ordered);
      var first := PublishOutcome(cfg, round, events[0], o(events[0].id));
      var rest := if ordered && !first.isOk then [] else GroupRun(cfg, round, o, events[1..], ordered).results;
      assert GroupRun(cfg, round, o, events, ordered).results == [first.isOk] + rest;
    }
  }

  class OutboxPolling {
    const cfg: Config
    const repo: Client
    var log: seq<Entry>
    var round: nat

    constructor (cfg: Config, repo: Client)
      requires repo.cfg == cfg
      ensures this.cfg == cfg && this.repo == repo && log == [] && round == 0
    {
      this.cfg, this.repo, this.log, this.round := cfg, repo, [], 0;
    }

    method PublishEvent(event: Event, s: Script) returns (isOk: bool)
      modifies this`log, repo`table, event
      ensures var out := PublishOutcome(cfg, round, old(event.Value()), s);
              && isOk == out.isOk
              && repo.table == ApplyOpt(old(repo.table), out.write)
              && log == old(log) + out.entries
      ensures event.Value() == AfterCall(cfg, old(event.Value()), s)
    {
      if event.Value().CanNotRetry(s.checkAt) {
        log := log + [Waiting(round, event.id, s.checkAt)];
        return false;
      }
      var skip := false;
      match s.answer {
        case Ack =>
          log := log + [Accepted(round, event.id, s.checkAt)];
          isOk := true;
        case Nack =>
          log := log + [Refused(round, event.id, s.checkAt)];
          isOk := false;
        case NotFoundKey =>
          log := log + [Unresolved(round, event.id, s.checkAt)];
          skip, isOk := true, false;
      }
      isOk := Deferred(event, s, skip, isOk);
    }

    // The deferred closure: it records the outcome and may turn a success into a failure.
    method Deferred(event: Event, s: Script, skip: bool, published: bool) returns (isOk: bool)
      modifies this`log, repo`table, event
      ensures skip ==> !isOk && repo.table == old(repo.table) && log == old(log) && event.Value() == old(event.Value())
      ensures !skip && published ==>
                && isOk == s.Commits()
                && repo.table == (if isOk then Apply(old(repo.table), MarkSent(event.id, s.storeAt))
                                  else old(repo.table))
                && log == old(log) + [Marked(round, event.id, s.Commits())]
                && event.Value() == old(event.Value()).Sent(s.recordAt)
      ensures !skip && !published ==>
                var r := RetriedUnder(cfg, old(event.Value()), s.recordAt);
                && !isOk
                && repo.table == (if s.Commits()
                                  then Apply(old(repo.table), SaveRetry(event.id, r.retryCount, r.retryAt.value))
                                  else old(repo.table))
                && log == old(log) + [Failed(round, event.id, s.recordAt, s.Commits())]
                && event.Value() == r
    {
      isOk := published;
      if skip {
        return false;
      }
      if isOk {
        event.SetSentAt(s.recordAt);
      } else {
        event.Retry(cfg.retryBackOff, cfg.outOfRange, s.recordAt);
        assert event.retryAt == event.Value().retryAt;
      }
      var err := repo.Transaction(isOk, event, s.storeAt, s.outcome);
      log := log + [if isOk then Marked(round, event.id, !err) else Failed(round, event.id, s.recordAt, !err)];
      if err {
        isOk := false;
      }
    }

    // One goroutine: a group with an aggregate id is sorted first.
    method GroupWorker(mGroupId: string, groupEvents: array<Event>, o: Oracle)
      requires DistinctIds(Values(groupEvents[..]))
      modifies this`log, repo`table, groupEvents, groupEvents[..]
      ensures var given := old(Values(groupEvents[..]));
              var ordered := mGroupId != "";
              var t := GroupRun(cfg, round, o, if ordered then SortById(given) else given, ordered);
              && repo.table == ApplyAll(old(repo.table), t.writes)
              && log == old(log) + t.entries
    {
      ghost var given := groupEvents[..];
      if mGroupId != "" {
        SortByID(groupEvents);
        SortedEventsAreSortById(groupEvents[..], given);
      }
      var run := groupEvents[..];
      PermutationKeepsMembers(run, given);
      DistinctObjects(run, given);
      forall i | 0 <= i < |run| ensures exists j :: 0 <= j < |given| && given[j] == run[i] {
        assert run[i] in given;
      }
      PublishInOrder(run, mGroupId != "", o);
    }

    // The indexed loop with its break.
    method PublishInOrder(events: seq<Event>, ordered: bool, o: Oracle)
      requires forall i, j :: 0 <= i < j < |events| ==> events[i] != events[j]
      modifies this`log, repo`table, events
      ensures var t := GroupRun(cfg, round, o, old(Values(events)), ordered);
              && repo.table == ApplyAll(old(repo.table), t.writes)
              && log == old(log) + t.entries
    {
      ghost var values := Values(events);
      ghost var rest := GroupRun(cfg, round, o, values, ordered);
      var idx := 0;
      assert values[0..] == values;
      while idx < |events|
        invariant 0 <= idx <= |events|
        invariant forall k :: idx <= k < |events| ==> events[k].Value() == values[k]
        invariant rest == GroupRun(cfg, round, o, values[idx..], ordered)
        invariant ApplyAll(repo.table, rest.writes)
               == ApplyAll(old(repo.table), GroupRun(cfg, round, o, values, ordered).writes)
        invariant log + rest.entries == old(log) + GroupRun(cfg, round, o, values, ordered).entries
      {
        var event := events[idx];
        rest := CallAdvances(cfg, round, o, values, idx, ordered, repo.table, log);
        var isOk := PublishEvent(event, o(event.id));
        if ordered && !isOk {
          break;
        }
        idx := idx + 1;
      }
      assert rest == NOTHING;
      assert log + NOTHING.entries == log;
    }
  }

  lemma FirstWrite(table: Table, x: Option<Write>, rest: seq<Write>)
    ensures ApplyAll(table, OptSeq(x) + rest) == ApplyAll(ApplyOpt(table, x), rest)
  {
    ApplyAllConcat(table, OptSeq(x), rest);
    ApplyAllSnoc(table, [], x);
    assert [] + OptSeq(x) == OptSeq(x);
  }

  // One call of the loop made, the rest still leads to the same table and log.
  lemma CallAdvances(cfg: Config, round: nat, o: Oracle, values: seq<EventValue>, idx: nat, ordered: bool,
                     table: Table, log: seq<Entry>) returns (rest: Trace)
    requires idx < |values|
    ensures (var first := PublishOutcome(cfg, round, values[idx], o(values[idx].id));
             var all := GroupRun(cfg, round, o, values[idx..], ordered);
             && rest == (if ordered && !first.isOk then NOTHING
                         else GroupRun(cfg, round, o, values[idx + 1..], ordered))
             && ApplyAll(ApplyOpt(table, first.write), rest.writes) == ApplyAll(table, all.writes)
             && log + first.entries + rest.entries == log + all.entries)
  {
    var first := PublishOutcome(cfg, round, values[idx], o(values[idx].id));
    rest := if ordered && !first.isOk then NOTHING else GroupRun(cfg, round, o, values[idx + 1..], ordered);
    GroupRunUnfolds(cfg, round, o, values, idx, ordered);
    FirstWrite(table, first.write, rest.writes);
    assert log + first.entries + rest.entries == log + (first.entries + rest.entries);
  }

  lemma GroupRunUnfolds(cfg: Config, round: nat, o: Oracle, events: seq<EventValue>, idx: nat, ordered: bool)
    requires idx < |events|
    ensures (var first := PublishOutcome(cfg, round, events[idx], o(events[idx].id));
             var rest := GroupRun(cfg, round, o, events[idx + 1..], ordered);
             GroupRun(cfg, round, o, events[idx..], ordered)
               == Then(TraceOf(first), if ordered && !first.isOk then NOTHING else rest))
  {
    assert events[idx..][1..] == events[idx + 1..];
  }

  lemma ThenAssociates(a: Trace, b: Trace, c: Trace)
    ensures Then(Then(a, b), c) == Then(a, Then(b, c))
    ensures Then(a, NOTHING) == a && Then(NOTHING, a) == a
  {
    assert a.results + b.results + c.results == a.results + (b.results + c.results);
    assert a.writes + b.writes + c.writes == a.writes + (b.writes + c.writes);
    assert a.entries + b.entries + c.entries == a.entries + (b.entries + c.entries);
  }

  lemma {:induction false} ApplyAllConcat(table: Table, a: seq<Write>, b: seq<Write>)
    ensures ApplyAll(table, a + b) == ApplyAll(ApplyAll(table, a), b)
  {
    if a == [] {
      assert a + b == b;
    } else {
      assert (a + b)[1..] == a[1..] + b;
      ApplyAllConcat(Apply(table, a[0]), a[1..], b);
    }
  }

  lemma ApplyAllSnoc(table: Table, ws: seq<Write>, w: Option<Write>)
    ensures ApplyAll(table, ws + OptSeq(w)) == ApplyOpt(ApplyAll(table, ws), w)
  {
    ApplyAllConcat(table, ws, OptSeq(w));
    if w.Some? {
      assert [w.value][1..] == [];
      assert ApplyAll(Apply(ApplyAll(table, ws), w.value), []) == Apply(ApplyAll(table, ws), w.value);
    }
  }
}
