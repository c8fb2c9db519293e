// The exponential backoff over whole runs.
module BackoffBound {
  import opened Options
  import opened Backoff
  import opened Outbox
  import opened Repository
  import opened Grouping
  import opened Polling
  import opened Worker
  import opened Interleaving
  import opened Rounds
  import opened System

  // The reading the first recorded failure of a row counts from.
  function FirstFail(log: seq<Entry>, id: int): Time {
    if log == [] then 0 else
    var n := |log| - 1;
    if Fails(log[..n], id) > 0 then FirstFail(log[..n], id)
    else if IsFailure(log[n], id) then log[n].at else 0
  }

  lemma FirstFailSnoc(log: seq<Entry>, x: Option<Entry>, id: int)
    ensures Fails(log, id) > 0 ==> FirstFail(log + OptSeq(x), id) == FirstFail(log, id)
    ensures Fails(log, id) == 0 && x.Some? && IsFailure(x.value, id) ==>
              FirstFail(log + OptSeq(x), id) == x.value.at
  {
    if x.Some? {
      assert (log + [x.value])[..|log|] == log;
    } else {
      assert log + [] == log;
    }
  }

  // Seconds of waiting that n failures add up to, for a row that started at count c.
  function WaitSum(seconds: nat, c: nat, n: nat): int {
    seconds * (Pow2(c + n + 1) - Pow2(c + 1))
  }

  lemma WaitSumGrows(seconds: nat, c: nat, n: nat)
    ensures WaitSum(seconds, c, n + 1) == WaitSum(seconds, c, n) + seconds * Pow2(c + n + 1)
    ensures WaitSum(seconds, c, 0) == 0
  {
    assert Pow2(c + n + 2) == 2 * Pow2(c + n + 1);
    assert c + (n + 1) + 1 == c + n + 2;
    Distribute(seconds, Pow2(c + n + 1), Pow2(c + 1));
  }

  lemma Distribute(k: int, x: int, y: int)
    ensures k * (2 * x - y) == k * (x - y) + k * x
  {
  }

  function Earliest(seconds: nat, start: map<int, nat>, log: seq<Entry>, id: int): Time
    requires id in start
  {
    FirstFail(log, id) + WaitSum(seconds, start[id], Fails(log, id)) * SECOND
  }

  // The delay after the last recorded failure fits 64 bits, and so do all before it.
  predicate LastDelayFits(seconds: nat, start: map<int, nat>, log: seq<Entry>, id: int)
    requires id in start
  {
    Fits(seconds * SECOND, start[id] + Fails(log, id))
  }

  // A retry time that respects all recorded failures.
  ghost predicate Spaced(seconds: nat, start: map<int, nat>, log: seq<Entry>, id: int, retryAt: Option<Time>) {
    id in start && Fails(log, id) > 0 && LastDelayFits(seconds, start, log, id) ==>
      retryAt.Some? && retryAt.value >= Earliest(seconds, start, log, id)
  }

  predicate IsPublish(e: Entry) {
    e.Accepted? || e.Refused?
  }

  // A publish comes with budget left and no earlier than the failures before it allow.
  ghost predicate PublishSpaced(cfg: Config, seconds: nat, start: map<int, nat>, log: seq<Entry>, p: nat)
    requires p < |log|
  {
    IsPublish(log[p]) ==> PublishFits(cfg, seconds, start, log[..p], log[p])
  }

  ghost predicate PublishFits(cfg: Config, seconds: nat, start: map<int, nat>, before: seq<Entry>, x: Entry)
    requires IsPublish(x)
  {
    && x.id in start
    && start[x.id] + Fails(before, x.id) < cfg.maxRetryCount
    && (Fails(before, x.id) > 0 && LastDelayFits(seconds, start, before, x.id) ==>
          x.at >= Earliest(seconds, start, before, x.id))
  }

  ghost predicate AllSpaced(cfg: Config, seconds: nat, s: Sys) {
    && (forall id :: id in s.table ==> Spaced(seconds, s.start, s.log, id, s.table[id].retryAt))
    && (forall i :: 0 <= i < |s.workers| ==> WorkerSpaced(seconds, s.start, s.log, s.workers[i]))
    && (forall p :: 0 <= p < |s.log| ==> PublishSpaced(cfg, seconds, s.start, s.log, p))
  }

  ghost predicate WorkerSpaced(seconds: nat, start: map<int, nat>, log: seq<Entry>, w: Worker) {
    w.Live() ==> forall m :: |w.results| <= m < |w.events| ==>
      Spaced(seconds, start, log, w.events[m].id, w.events[m].retryAt)
  }

  ghost predicate WholeSeconds(cfg: Config, seconds: nat) {
    cfg.retryBackOff == seconds * SECOND
  }

  lemma DelayInRun(cfg: Config, seconds: nat, attempt: nat)
    requires WholeSeconds(cfg, seconds) && Fits(cfg.retryBackOff, attempt)
    ensures NextRetryDuration(cfg.retryBackOff, attempt, cfg.outOfRange) == seconds * SECOND * Pow2(attempt)
  {
    DelayExactIffFits(cfg.retryBackOff, attempt, cfg.outOfRange);
    DelayExactForWholeSeconds(seconds, attempt);
  }

  lemma Reorder(seconds: nat, x: int)
    ensures seconds * SECOND * x == seconds * x * SECOND
  {
  }

  // One more recorded failure, counted from a reading at which the event was due.
  lemma FailureSpaces(cfg: Config, seconds: nat, start: map<int, nat>, log: seq<Entry>, e: EventValue, at: Time,
                      x: Entry)
    requires WholeSeconds(cfg, seconds)
    requires e.id in start && e.retryCount == start[e.id] + Fails(log, e.id)
    requires Spaced(seconds, start, log, e.id, e.retryAt) && !e.CanNotRetry(at)
    requires IsFailure(x, e.id) && x.at == at
    ensures Spaced(seconds, start, log + OptSeq(Some(x)), e.id, RetriedUnder(cfg, e, at).retryAt)
  {
    var c, n := start[e.id], Fails(log, e.id);
    FailsSnoc(log, Some(x), e.id);
    FirstFailSnoc(log, Some(x), e.id);
    if Fits(seconds * SECOND, e.retryCount + 1) {
      FitsBelow(seconds * SECOND, e.retryCount, e.retryCount + 1);
      DelayInRun(cfg, seconds, e.retryCount + 1);
      Reorder(seconds, Pow2(e.retryCount + 1));
      WaitSumGrows(seconds, c, n);
      assert c + n + 1 == e.retryCount + 1;
      assert RetriedUnder(cfg, e, at).retryAt.value == at + seconds * Pow2(c + n + 1) * SECOND;
      assert WaitSum(seconds, c, n + 1) * SECOND
          == WaitSum(seconds, c, n) * SECOND + seconds * Pow2(c + n + 1) * SECOND;
    }
  }

  lemma SpacedUnlessFailed(seconds: nat, start: map<int, nat>, log: seq<Entry>, x: Option<Entry>, id: int,
                           retryAt: Option<Time>)
    requires Spaced(seconds, start, log, id, retryAt)
    requires x.Some? ==> !IsFailure(x.value, id)
    ensures Spaced(seconds, start, log + OptSeq(x), id, retryAt)
  {
    FailsSnoc(log, x, id);
    FirstFailSnoc(log, x, id);
  }

  lemma LogStaysSpaced(cfg: Config, seconds: nat, start: map<int, nat>, start': map<int, nat>, log: seq<Entry>,
                       x: Option<Entry>)
    requires start.Keys <= start'.Keys && forall id :: id in start ==> start'[id] == start[id]
    requires forall p :: 0 <= p < |log| ==> PublishSpaced(cfg, seconds, start, log, p)
    requires x.Some? && IsPublish(x.value) ==> PublishFits(cfg, seconds, start', log, x.value)
    ensures var log' := log + OptSeq(x);
            forall p :: 0 <= p < |log'| ==> PublishSpaced(cfg, seconds, start', log', p)
  {
    var log' := log + OptSeq(x);
    forall p | 0 <= p < |log'| ensures PublishSpaced(cfg, seconds, start', log', p) {
      if p < |log| {
        assert log'[..p] == log[..p] && log'[p] == log[p];
        assert PublishSpaced(cfg, seconds, start, log, p);
      } else {
        assert log'[..p] == log;
      }
    }
  }

  lemma AppKeepsSpaced(cfg: Config, seconds: nat, s: Sys, s': Sys)
    requires Base(cfg, s) && AllSpaced(cfg, seconds, s) && AppStep(s, s')
    ensures AllSpaced(cfg, seconds, s')
  {
    LogStaysSpaced(cfg, seconds, s.start, s'.start, s.log, None);
    assert s.log + OptSeq(None) == s.log;
    forall i | 0 <= i < |s'.workers| ensures WorkerSpaced(seconds, s'.start, s'.log, s'.workers[i]) {
      assert WorkerSpaced(seconds, s.start, s.log, s.workers[i]);
      assert WorkerFresh(cfg, s.start, s.log, s.workers[i]);
    }
    forall id | id in s'.table ensures Spaced(seconds, s'.start, s'.log, id, s'.table[id].retryAt) {
      if id in s.table {
        assert Spaced(seconds, s.start, s.log, id, s.table[id].retryAt);
      }
    }
  }

  lemma PollKeepsSpaced(cfg: Config, seconds: nat, s: Sys, keys: seq<Key>, s': Sys)
    requires Base(cfg, s) && AllSpaced(cfg, seconds, s) && PollStep(cfg, s, keys, s')
    ensures AllSpaced(cfg, seconds, s')
  {
    var x := Some(Fetched(s'.round, s.table));
    var events := Find(cfg, s.table);
    assert s'.log == s.log + OptSeq(x);
    LogStaysSpaced(cfg, seconds, s.start, s'.start, s.log, x);
    forall id | id in s'.table ensures Spaced(seconds, s'.start, s'.log, id, s'.table[id].retryAt) {
      SpacedUnlessFailed(seconds, s.start, s.log, x, id, s.table[id].retryAt);
    }
    forall i | 0 <= i < |s'.workers| ensures WorkerSpaced(seconds, s'.start, s'.log, s'.workers[i]) {
      MembersOfGroup(events, keys[i]);
      var w := s'.workers[i];
      forall m | 0 <= m < |w.events|
        ensures Spaced(seconds, s'.start, s'.log, w.events[m].id, w.events[m].retryAt)
      {
        assert w.events[m] in events;
        FetchedEventsMatch(cfg, s, w.events[m]);
        assert Spaced(seconds, s'.start, s'.log, w.events[m].id, s'.table[w.events[m].id].retryAt);
      }
    }
  }

  lemma WorkKeepsRowsSpaced(cfg: Config, seconds: nat, s: Sys, i: nat, c: Script, s': Sys, id: int)
    requires WholeSeconds(cfg, seconds)
    requires Base(cfg, s) && AllSpaced(cfg, seconds, s) && WorkStep(cfg, s, i, c, s') && id in s'.table
    ensures Spaced(seconds, s'.start, s'.log, id, s'.table[id].retryAt)
  {
    var w := s.workers[i];
    var e := w.Current();
    var m := MicroStep(cfg, w, c);
    assert WorkerShape(cfg, s, w) && WorkerFresh(cfg, s.start, s.log, w);
    assert WorkerSpaced(seconds, s.start, s.log, w);
    StepWritesOwnRow(cfg, w, c);
    FailureReturns(cfg, w, c, id);
    if m.entry.Some? && IsFailure(m.entry.value, id) {
      FailureSpaces(cfg, seconds, s.start, s.log, e, w.pc.at, m.entry.value);
    } else {
      SpacedUnlessFailed(seconds, s.start, s.log, m.entry, id, s.table[id].retryAt);
    }
  }

  lemma WorkKeepsWorkersSpaced(cfg: Config, seconds: nat, s: Sys, i: nat, c: Script, s': Sys, k: nat)
    requires Base(cfg, s) && AllSpaced(cfg, seconds, s) && WorkStep(cfg, s, i, c, s') && k < |s'.workers|
    ensures WorkerSpaced(seconds, s'.start, s'.log, s'.workers[k])
  {
    var w := s.workers[i];
    var x := MicroStep(cfg, w, c).entry;
    StepWritesOwnRow(cfg, w, c);
    assert WorkerShape(cfg, s, w) && WorkerSpaced(seconds, s.start, s.log, s.workers[k]);
    var w' := s'.workers[k];
    if k != i {
      OtherGroupsRows(s, i, k);
    }
    if w'.Live() {
      forall m | |w'.results| <= m < |w'.events|
        ensures Spaced(seconds, s'.start, s'.log, w'.events[m].id, w'.events[m].retryAt)
      {
        FailureReturns(cfg, w, c, w'.events[m].id);
        SpacedUnlessFailed(seconds, s.start, s.log, x, w'.events[m].id, w'.events[m].retryAt);
      }
    }
  }

  // A publish is logged with the reading that found its event due.
  lemma PublishIsDue(cfg: Config, s: Sys, i: nat, c: Script, s': Sys)
    requires WorkStep(cfg, s, i, c, s') && WorkerShape(cfg, s, s.workers[i])
    ensures var x := MicroStep(cfg, s.workers[i], c).entry;
            x.Some? && IsPublish(x.value) ==>
              && x.value.id == s.workers[i].Current().id
              && !s.workers[i].Current().CanNotRetry(x.value.at)
  {
  }

  lemma WorkKeepsSpaced(cfg: Config, seconds: nat, s: Sys, i: nat, c: Script, s': Sys)
    requires WholeSeconds(cfg, seconds)
    requires Base(cfg, s) && AllSpaced(cfg, seconds, s) && WorkStep(cfg, s, i, c, s')
    ensures AllSpaced(cfg, seconds, s')
  {
    var w := s.workers[i];
    forall id | id in s'.table ensures Spaced(seconds, s'.start, s'.log, id, s'.table[id].retryAt) {
      WorkKeepsRowsSpaced(cfg, seconds, s, i, c, s', id);
    }
    forall k | 0 <= k < |s'.workers| ensures WorkerSpaced(seconds, s'.start, s'.log, s'.workers[k]) {
      WorkKeepsWorkersSpaced(cfg, seconds, s, i, c, s', k);
    }
    assert WorkerShape(cfg, s, w) && WorkerFresh(cfg, s.start, s.log, w) && WorkerSpaced(seconds, s.start, s.log, w);
    PublishIsDue(cfg, s, i, c, s');
    LogStaysSpaced(cfg, seconds, s.start, s'.start, s.log, MicroStep(cfg, w, c).entry);
  }

  lemma {:induction false} RunStaysSpaced(cfg: Config, seconds: nat, states: seq<Sys>, actions: seq<Action>, k: nat)
    requires WholeSeconds(cfg, seconds) && Run(cfg, states, actions) && k < |states|
    ensures AllSpaced(cfg, seconds, states[k])
  {
    if k > 0 {
      RunStaysSpaced(cfg, seconds, states, actions, k - 1);
      RunKeepsBase(cfg, states, actions, k - 1);
      match actions[k - 1]
      case App => AppKeepsSpaced(cfg, seconds, states[k - 1], states[k]);
      case Poll(keys) => PollKeepsSpaced(cfg, seconds, states[k - 1], keys, states[k]);
      case Work(i, c) => WorkKeepsSpaced(cfg, seconds, states[k - 1], i, c, states[k]);
    }
  }

  // The bound after the failures before position p, for a row that appeared with count c.
  ghost predicate BoundAt(seconds: nat, c: nat, log: seq<Entry>, p: nat)
    requires p < |log| && IsPublish(log[p])
  {
    var id, before := log[p].id, log[..p];
    log[p].at >= FirstFail(before, id) + WaitSum(seconds, c, Fails(before, id)) * SECOND
  }

  // Whole-run backoff bound. A row that appeared with count c and whose first recorded failure
  // counts from t1 is published after its n-th recorded failure only at readings from
  // t1 + b * (2^(c+n+1) - 2^(c+1)) seconds on, if its n-th delay fits 64 bits, whatever successful
  // re-sends, unrecorded failures, inserts and deletes lie in between. For c = 0 the bound is
  // t1 + b * (2^(n+1) - 2).
  lemma BackoffHoldsOverRuns(cfg: Config, seconds: nat, states: seq<Sys>, actions: seq<Action>, k: nat, p: nat)
    requires WholeSeconds(cfg, seconds) && Run(cfg, states, actions) && k < |states|
    requires p < |states[k].log| && IsPublish(states[k].log[p])
    ensures var s := states[k];
            var id, before := s.log[p].id, s.log[..p];
            var n := Fails(before, id);
            && id in s.start
            && s.start[id] + n < cfg.maxRetryCount
            && (n > 0 && Fits(cfg.retryBackOff, s.start[id] + n) ==>
                  && BoundAt(seconds, s.start[id], s.log, p)
                  && (s.start[id] == 0 ==>
                        s.log[p].at >= FirstFail(before, id) + seconds * (Pow2(n + 1) - 2) * SECOND))
  {
    RunStaysSpaced(cfg, seconds, states, actions, k);
    assert PublishSpaced(cfg, seconds, states[k].start, states[k].log, p);
    assert Pow2(1) == 2;
  }
}
