// Runs of any number of rounds, with the application inserting and deleting rows at any time.
module System {
  import opened Options
  import opened Outbox
  import opened Repository
  import opened Grouping
  import opened Polling
  import opened Worker
  import opened Interleaving
  import opened Rounds

  // "start" records the retry count each row had when it first appeared; its keys are all the ids
  // ever used. "now" is the last reading of the worker's clock.
  datatype Sys = Sys(
    table: Table,
    start: map<int, nat>,
    now: Time,
    round: nat,
    workers: seq<Worker>,
    log: seq<Entry>)

  ghost predicate Init(s: Sys) {
    && s.start.Keys == s.table.Keys
    && (forall id :: id in s.table ==> s.start[id] == s.table[id].RetryCountValue())
    && s.round == 0 && s.workers == [] && s.log == []
  }

  // Rows come and go, ids are not used again, and the application leaves existing rows alone.
  ghost predicate AppStep(s: Sys, s': Sys) {
    && s' == s.(table := s'.table, start := s'.start)
    && (forall id :: id in s.table && id in s'.table ==> s'.table[id] == s.table[id])
    && (forall id :: id in s'.table && id !in s.table ==> id !in s.start)
    && s'.start.Keys == s.start.Keys + s'.table.Keys
    && (forall id :: id in s.start ==> s'.start[id] == s.start[id])
    && (forall id :: id in s'.table && id !in s.start ==> s'.start[id] == s'.table[id].RetryCountValue())
  }

  // The loop comes round once every goroutine of the last round has returned. A fetch that fails
  // or finds nothing spawns nothing.
  ghost predicate PollStep(cfg: Config, s: Sys, keys: seq<Key>, s': Sys) {
    var events := Find(cfg, s.table);
    && (forall i :: 0 <= i < |s.workers| ==> !s.workers[i].Live())
    && Enumerates(keys, events)
    && s' == s.(round := s.round + 1,
                workers := SpawnAll(s.round + 1, events, keys),
                log := s.log + [Fetched(s.round + 1, s.table)])
  }

  // The worker's clock never goes back.
  function Reading(w: Worker, c: Script, now: Time): Time
  {
    match w.pc
    case Check => c.checkAt
    case Record(_, _) => c.recordAt
    case _ => now
  }

  ghost predicate WorkStep(cfg: Config, s: Sys, i: nat, c: Script, s': Sys) {
    && i < |s.workers| && s.workers[i].Live()
    && s.now <= Reading(s.workers[i], c, s.now)
    && var m := MicroStep(cfg, s.workers[i], c);
       s' == s.(table := ApplyOpt(s.table, m.write),
                now := Reading(s.workers[i], c, s.now),
                workers := s.workers[i := m.worker],
                log := s.log + OptSeq(m.entry))
  }

  datatype Action = App | Poll(keys: seq<Key>) | Work(i: nat, c: Script)

  ghost predicate Step(cfg: Config, s: Sys, a: Action, s': Sys) {
    match a
    case App => AppStep(s, s')
    case Poll(keys) => PollStep(cfg, s, keys, s')
    case Work(i, c) => WorkStep(cfg, s, i, c, s')
  }

  // A run: states joined by steps.
  ghost predicate Run(cfg: Config, states: seq<Sys>, actions: seq<Action>) {
    && |states| == |actions| + 1
    && Init(states[0])
    && forall k :: 0 <= k < |actions| ==> Step(cfg, states[k], actions[k], states[k + 1])
  }

  // ---- Recorded failures

  function Fails(log: seq<Entry>, id: int): nat {
    if log == [] then 0 else
    var n := |log| - 1;
    Fails(log[..n], id) + if IsFailure(log[n], id) then 1 else 0
  }

  predicate IsFailure(e: Entry, id: int) {
    e.Failed? && e.id == id && e.stored
  }

  lemma FailsSnoc(log: seq<Entry>, x: Option<Entry>, id: int)
    ensures Fails(log + OptSeq(x), id) == Fails(log, id) + if x.Some? && IsFailure(x.value, id) then 1 else 0
  {
    if x.Some? {
      assert (log + [x.value])[..|log|] == log;
    } else {
      assert log + [] == log;
    }
  }

  // ---- The invariant all others stand on

  // A goroutine's events, and how its place in a call fits the event it holds.
  ghost predicate WorkerShape(cfg: Config, s: Sys, w: Worker) {
    && w.round == s.round
    && |w.results| <= |w.events|
    && DistinctIds(w.events)
    && (w.Live() && w.ordered ==> forall m :: 0 <= m < |w.results| ==> w.results[m])
    && (w.Live() ==> CallShape(cfg, w.Current(), w.pc, s.now))
  }

  ghost predicate CallShape(cfg: Config, e: EventValue, pc: Pc, now: Time) {
    match pc
    case Send(dueAt) => !e.CanNotRetry(dueAt) && dueAt <= now
    case Record(_, dueAt) => !e.CanNotRetry(dueAt) && dueAt <= now
    case Commit(isOk, updated, at) =>
      && !e.CanNotRetry(at) && at <= now
      && (!isOk ==> updated == RetriedUnder(cfg, e, at))
    case _ => true
  }

  // Events not yet accounted for in this round still match what the log says about their row.
  ghost predicate WorkerFresh(cfg: Config, start: map<int, nat>, log: seq<Entry>, w: Worker) {
    w.Live() ==> forall m :: |w.results| <= m < |w.events| ==>
      var e := w.events[m];
      && e.id in start
      && e.retryCount == start[e.id] + Fails(log, e.id)
      && e.retryCount < cfg.maxRetryCount
  }

  ghost predicate RowsMatch(s: Sys) {
    && s.table.Keys <= s.start.Keys
    && forall id :: id in s.table ==> s.table[id].RetryCountValue() == s.start[id] + Fails(s.log, id)
  }

  ghost predicate Base(cfg: Config, s: Sys) {
    && RowsMatch(s)
    && Separate(s.workers)
    && (forall i :: 0 <= i < |s.workers| ==> WorkerShape(cfg, s, s.workers[i]))
    && (forall i :: 0 <= i < |s.workers| ==> WorkerFresh(cfg, s.start, s.log, s.workers[i]))
    && (forall id :: id !in s.start ==> Fails(s.log, id) == 0)
  }

  lemma AppKeepsBase(cfg: Config, s: Sys, s': Sys)
    requires Base(cfg, s) && AppStep(s, s')
    ensures Base(cfg, s')
  {
    forall i | 0 <= i < |s'.workers|
      ensures WorkerShape(cfg, s', s'.workers[i]) && WorkerFresh(cfg, s'.start, s'.log, s'.workers[i])
    {
      assert WorkerShape(cfg, s, s.workers[i]) && WorkerFresh(cfg, s.start, s.log, s.workers[i]);
    }
  }

  lemma FetchedEventsMatch(cfg: Config, s: Sys, e: EventValue)
    requires RowsMatch(s) && e in Find(cfg, s.table)
    ensures e.id in s.table && Eligible(cfg, s.table[e.id]) && e == ToEvent(e.id, s.table[e.id])
    ensures e.retryCount == s.start[e.id] + Fails(s.log, e.id) && e.retryCount < cfg.maxRetryCount
  {
    FoundIsEligible(cfg, s.table, e);
  }

  lemma PollKeepsBase(cfg: Config, s: Sys, keys: seq<Key>, s': Sys)
    requires Base(cfg, s) && PollStep(cfg, s, keys, s')
    ensures Base(cfg, s')
  {
    var events := Find(cfg, s.table);
    FindIsLowestEligible(cfg, s.table);
    SpawnedSeparate(s'.round, events, keys);
    var x := Some(Fetched(s'.round, s.table));
    assert s'.log == s.log + OptSeq(x);
    forall id ensures Fails(s'.log, id) == Fails(s.log, id) {
      FailsSnoc(s.log, x, id);
    }
    forall i | 0 <= i < |s'.workers|
      ensures WorkerShape(cfg, s', s'.workers[i]) && WorkerFresh(cfg, s'.start, s'.log, s'.workers[i])
    {
      var w := s'.workers[i];
      MembersOfGroup(events, keys[i]);
      forall m | 0 <= m < |w.events|
        ensures w.events[m].id in s.start
        ensures w.events[m].retryCount == s.start[w.events[m].id] + Fails(s'.log, w.events[m].id)
        ensures w.events[m].retryCount < cfg.maxRetryCount
      {
        assert w.events[m] in events;
        FetchedEventsMatch(cfg, s, w.events[m]);
      }
    }
  }

  // What one step of one goroutine does to its own call, whatever the rest of the system does.
  lemma OwnStepShape(cfg: Config, s: Sys, i: nat, c: Script, s': Sys)
    requires WorkStep(cfg, s, i, c, s') && WorkerShape(cfg, s, s.workers[i])
    ensures WorkerShape(cfg, s', s'.workers[i])
  {
    var w := s.workers[i];
    var m := MicroStep(cfg, w, c);
    if m.worker.results != w.results {
      StepReturns(cfg, w, c);
    }
  }

  lemma StepReturns(cfg: Config, w: Worker, c: Script)
    requires w.Live() && MicroStep(cfg, w, c).worker.results != w.results
    ensures var m := MicroStep(cfg, w, c);
            && m.worker == Return(w, m.worker.results[w.Idx()])
            && m.worker.results == w.results + [m.worker.results[w.Idx()]]
            && (m.worker.Live() ==> m.worker.pc == Check && (w.ordered ==> m.worker.results[w.Idx()]))
  {
  }

  // Only a committed refusal counts as a failure, and it returns from the call.
  lemma FailureReturns(cfg: Config, w: Worker, c: Script, id: int)
    requires w.Live()
    ensures var m := MicroStep(cfg, w, c);
            (m.entry.Some? && IsFailure(m.entry.value, id)) ==>
              && id == w.Current().id && w.pc.Commit? && !w.pc.isOk && c.Commits()
              && m.worker == Return(w, false)
  {
  }

  lemma OwnStepFresh(cfg: Config, s: Sys, i: nat, c: Script, s': Sys)
    requires WorkStep(cfg, s, i, c, s')
    requires WorkerShape(cfg, s, s.workers[i]) && WorkerFresh(cfg, s.start, s.log, s.workers[i])
    ensures WorkerFresh(cfg, s'.start, s'.log, s'.workers[i])
  {
    var w, w' := s.workers[i], s'.workers[i];
    var x := MicroStep(cfg, w, c).entry;
    StepGoesOn(cfg, w, c);
    if w'.Live() {
      forall m | |w'.results| <= m < |w'.events|
        ensures w'.events[m].id in s'.start
        ensures w'.events[m].retryCount == s'.start[w'.events[m].id] + Fails(s'.log, w'.events[m].id)
        ensures w'.events[m].retryCount < cfg.maxRetryCount
      {
        var e := w.events[m];
        assert e.id in s.start && e.retryCount == s.start[e.id] + Fails(s.log, e.id);
        FailsSnoc(s.log, x, e.id);
        FailureReturns(cfg, w, c, e.id);
      }
    }
  }

  lemma StepGoesOn(cfg: Config, w: Worker, c: Script)
    requires w.Live()
    ensures var w' := MicroStep(cfg, w, c).worker;
            w'.events == w.events && |w.results| <= |w'.results| <= |w.results| + 1
  {
  }

  lemma OtherStepKeepsWorker(cfg: Config, s: Sys, i: nat, c: Script, s': Sys, k: nat)
    requires WorkStep(cfg, s, i, c, s') && Separate(s.workers) && k < |s.workers| && k != i
    requires WorkerShape(cfg, s, s.workers[k]) && WorkerFresh(cfg, s.start, s.log, s.workers[k])
    ensures s'.workers[k] == s.workers[k]
    ensures WorkerShape(cfg, s', s'.workers[k]) && WorkerFresh(cfg, s'.start, s'.log, s'.workers[k])
  {
    var w := s.workers[k];
    var x := MicroStep(cfg, s.workers[i], c).entry;
    StepWritesOwnRow(cfg, s.workers[i], c);
    OtherGroupsRows(s, i, k);
    forall m | 0 <= m < |w.events| ensures Fails(s'.log, w.events[m].id) == Fails(s.log, w.events[m].id) {
      FailsSnoc(s.log, x, w.events[m].id);
    }
  }

  lemma OtherGroupsRows(s: Sys, i: nat, k: nat)
    requires Separate(s.workers) && i < |s.workers| && k < |s.workers| && k != i
    ensures forall m :: 0 <= m < |s.workers[k].events| ==>
              s.workers[k].events[m].id !in Ids(s.workers[i].events)
  {
    assert if i < k then Ids(s.workers[i].events) !! Ids(s.workers[k].events)
           else Ids(s.workers[k].events) !! Ids(s.workers[i].events);
    assert forall m :: 0 <= m < |s.workers[k].events| ==>
             s.workers[k].events[m].id in Ids(s.workers[k].events);
  }

  // A committed refusal stores the count one higher; no other step stores a count.
  lemma StoredCount(cfg: Config, s: Sys, i: nat, c: Script, s': Sys, id: int)
    requires WorkStep(cfg, s, i, c, s') && WorkerShape(cfg, s, s.workers[i]) && id in s.table
    ensures id in s'.table
    ensures (var x := MicroStep(cfg, s.workers[i], c).entry;
             if x.Some? && IsFailure(x.value, id)
             then s'.table[id].RetryCountValue() == s.workers[i].Current().retryCount + 1
             else s'.table[id].RetryCountValue() == s.table[id].RetryCountValue())
  {
    StepWritesOwnRow(cfg, s.workers[i], c);
  }

  lemma WorkKeepsRows(cfg: Config, s: Sys, i: nat, c: Script, s': Sys)
    requires Base(cfg, s) && WorkStep(cfg, s, i, c, s')
    ensures RowsMatch(s') && forall id :: id !in s'.start ==> Fails(s'.log, id) == 0
  {
    var w := s.workers[i];
    assert WorkerShape(cfg, s, w) && WorkerFresh(cfg, s.start, s.log, w);
    StepWritesOwnRow(cfg, w, c);
    assert s'.table.Keys == s.table.Keys;
    forall id ensures id in s'.table ==> s'.table[id].RetryCountValue() == s'.start[id] + Fails(s'.log, id)
      ensures id !in s'.start ==> Fails(s'.log, id) == 0
    {
      FailsSnoc(s.log, MicroStep(cfg, w, c).entry, id);
      FailureReturns(cfg, w, c, id);
      if id in s.table {
        StoredCount(cfg, s, i, c, s', id);
      }
    }
  }

  lemma WorkKeepsBase(cfg: Config, s: Sys, i: nat, c: Script, s': Sys)
    requires Base(cfg, s) && WorkStep(cfg, s, i, c, s')
    ensures Base(cfg, s')
  {
    WorkKeepsRows(cfg, s, i, c, s');
    StepWritesOwnRow(cfg, s.workers[i], c);
    forall k | 0 <= k < |s'.workers|
      ensures WorkerShape(cfg, s', s'.workers[k]) && WorkerFresh(cfg, s'.start, s'.log, s'.workers[k])
    {
      assert WorkerShape(cfg, s, s.workers[k]) && WorkerFresh(cfg, s.start, s.log, s.workers[k]);
      if k == i {
        OwnStepShape(cfg, s, i, c, s');
        OwnStepFresh(cfg, s, i, c, s');
      } else {
        OtherStepKeepsWorker(cfg, s, i, c, s', k);
      }
    }
  }

  lemma StepKeepsBase(cfg: Config, s: Sys, a: Action, s': Sys)
    requires Base(cfg, s) && Step(cfg, s, a, s')
    ensures Base(cfg, s')
  {
    match a
    case App => AppKeepsBase(cfg, s, s');
    case Poll(keys) => PollKeepsBase(cfg, s, keys, s');
    case Work(i, c) => WorkKeepsBase(cfg, s, i, c, s');
  }

  lemma {:induction false} RunKeepsBase(cfg: Config, states: seq<Sys>, actions: seq<Action>, k: nat)
    requires Run(cfg, states, actions) && k < |states|
    ensures Base(cfg, states[k])
  {
    if k > 0 {
      RunKeepsBase(cfg, states, actions, k - 1);
      StepKeepsBase(cfg, states[k - 1], actions[k - 1], states[k]);
    }
  }
}
