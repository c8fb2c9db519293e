// How long the head of an ordered group can hold the group up.
module HeadOfLine {
  import opened Options
  import opened Repository
  import opened Grouping
  import opened Polling
  import opened Worker
  import opened Interleaving
  import opened Rounds
  import opened System
  import opened RetryBudget
  import opened Provenance

  // Publishes of a row that the backend refused.
  function Refusals(log: seq<Entry>, id: int): nat {
    if log == [] then 0 else
    var n := |log| - 1;
    Refusals(log[..n], id) + if log[n].Refused? && log[n].id == id then 1 else 0
  }

  lemma RefusalsSnoc(log: seq<Entry>, x: Option<Entry>, id: int)
    ensures Refusals(log + OptSeq(x), id)
         == Refusals(log, id) + if x.Some? && x.value.Refused? && x.value.id == id then 1 else 0
  {
    if x.Some? {
      assert (log + [x.value])[..|log|] == log;
    } else {
      assert log + [] == log;
    }
  }

  // A refusal whose transaction has not run yet.
  ghost predicate InFlight(s: Sys, id: int) {
    exists i :: 0 <= i < |s.workers| && Holding(s.workers[i], id)
  }

  predicate Holding(w: Worker, id: int) {
    w.Live() && w.Current().id == id && SaysRefused(w.pc)
  }

  // Refusals whose transaction rolled back.
  function RolledBack(log: seq<Entry>, id: int): nat {
    if log == [] then 0 else
    var n := |log| - 1;
    RolledBack(log[..n], id) + if log[n].Failed? && log[n].id == id && !log[n].stored then 1 else 0
  }

  lemma RolledBackSnoc(log: seq<Entry>, x: Option<Entry>, id: int)
    ensures RolledBack(log + OptSeq(x), id)
         == RolledBack(log, id) + if x.Some? && x.value.Failed? && x.value.id == id && !x.value.stored then 1 else 0
  {
    if x.Some? {
      assert (log + [x.value])[..|log|] == log;
    } else {
      assert log + [] == log;
    }
  }

  ghost predicate RefusalsAccounted(s: Sys, id: int) {
    Refusals(s.log, id) == Fails(s.log, id) + RolledBack(s.log, id) + if InFlight(s, id) then 1 else 0
  }

  lemma HoldingMoves(cfg: Config, w: Worker, c: Script, id: int)
    requires w.Live()
    ensures var m := MicroStep(cfg, w, c);
            var refused := m.entry.Some? && m.entry.value.Refused? && m.entry.value.id == id;
            var failed := m.entry.Some? && m.entry.value.Failed? && m.entry.value.id == id;
            && (refused ==> w.pc.Send? && w.Current().id == id && Holding(m.worker, id))
            && (failed ==> Holding(w, id))
            && (Holding(w, id) ==> failed || Holding(m.worker, id))
            && (Holding(w, id) && failed ==> !Holding(m.worker, id))
            && (Holding(m.worker, id) ==> refused || Holding(w, id))
  {
  }

  lemma OneHolder(s: Sys, i: nat, j: nat, id: int)
    requires Separate(s.workers) && i < |s.workers| && j < |s.workers|
    requires s.workers[i].Live() && s.workers[i].Current().id == id && Holding(s.workers[j], id)
    ensures i == j
  {
    var a, b := s.workers[i], s.workers[j];
    assert a.Current().id in Ids(a.events) && b.Current().id in Ids(b.events);
    assert i < j ==> Ids(a.events) !! Ids(b.events);
    assert j < i ==> Ids(b.events) !! Ids(a.events);
  }

  // Nobody else holds the row that goroutine i is at.
  lemma InFlightIsHolding(s: Sys, i: nat, id: int)
    requires Separate(s.workers) && i < |s.workers| && s.workers[i].Live() && s.workers[i].Current().id == id
    ensures InFlight(s, id) <==> Holding(s.workers[i], id)
  {
    if InFlight(s, id) {
      var j :| 0 <= j < |s.workers| && Holding(s.workers[j], id);
      OneHolder(s, i, j, id);
    }
  }

  lemma WorkMovesInFlight(cfg: Config, s: Sys, i: nat, c: Script, s': Sys, id: int)
    requires Base(cfg, s) && WorkStep(cfg, s, i, c, s')
    ensures var x := MicroStep(cfg, s.workers[i], c).entry;
            var refused := x.Some? && x.value.Refused? && x.value.id == id;
            var failed := x.Some? && x.value.Failed? && x.value.id == id;
            && (refused ==> !InFlight(s, id) && InFlight(s', id))
            && (failed ==> InFlight(s, id) && !InFlight(s', id))
            && (!refused && !failed ==> (InFlight(s', id) <==> InFlight(s, id)))
  {
    var w := s.workers[i];
    HoldingMoves(cfg, w, c, id);
    StepWritesOwnRow(cfg, w, c);
    if w.Current().id == id {
      InFlightIsHolding(s, i, id);
    }
    if InFlight(s, id) {
      var j :| 0 <= j < |s.workers| && Holding(s.workers[j], id);
      assert Holding(s'.workers[j], id) || j == i;
      assert Holding(s'.workers[i], id) ==> InFlight(s', id);
    }
    if InFlight(s', id) {
      var j :| 0 <= j < |s'.workers| && Holding(s'.workers[j], id);
      assert j != i ==> Holding(s.workers[j], id);
    }
    assert Holding(s'.workers[i], id) ==> InFlight(s', id);
  }

  lemma WorkKeepsRefusals(cfg: Config, s: Sys, i: nat, c: Script, s': Sys, id: int)
    requires Base(cfg, s) && WorkStep(cfg, s, i, c, s') && RefusalsAccounted(s, id)
    ensures RefusalsAccounted(s', id)
  {
    var x := MicroStep(cfg, s.workers[i], c).entry;
    RefusalsSnoc(s.log, x, id);
    FailsSnoc(s.log, x, id);
    RolledBackSnoc(s.log, x, id);
    WorkMovesInFlight(cfg, s, i, c, s', id);
  }

  lemma {:induction false} RunKeepsRefusals(cfg: Config, states: seq<Sys>, actions: seq<Action>, k: nat, id: int)
    requires Run(cfg, states, actions) && k < |states|
    ensures RefusalsAccounted(states[k], id)
  {
    if k > 0 {
      RunKeepsRefusals(cfg, states, actions, k - 1, id);
      RunKeepsBase(cfg, states, actions, k - 1);
      StepKeepsRefusals(cfg, states[k - 1], actions[k - 1], states[k], id);
    } else {
      assert !InFlight(states[0], id);
    }
  }

  lemma StepKeepsRefusals(cfg: Config, s: Sys, a: Action, s': Sys, id: int)
    requires Base(cfg, s) && Step(cfg, s, a, s') && RefusalsAccounted(s, id)
    ensures RefusalsAccounted(s', id)
  {
    match a
    case App => InFlightStays(s, s', id);
    case Poll(keys) => PollKeepsRefusals(cfg, s, keys, s', id);
    case Work(i, c) => WorkKeepsRefusals(cfg, s, i, c, s', id);
  }

  lemma InFlightStays(s: Sys, s': Sys, id: int)
    requires s'.workers == s.workers
    ensures InFlight(s', id) == InFlight(s, id)
  {
  }

  lemma PollKeepsRefusals(cfg: Config, s: Sys, keys: seq<Key>, s': Sys, id: int)
    requires PollStep(cfg, s, keys, s') && RefusalsAccounted(s, id)
    ensures RefusalsAccounted(s', id)
  {
    var x := Some(Fetched(s'.round, s.table));
    assert s'.log == s.log + OptSeq(x);
    RefusalsSnoc(s.log, x, id);
    FailsSnoc(s.log, x, id);
    RolledBackSnoc(s.log, x, id);
    assert !InFlight(s, id);
    assert !InFlight(s', id);
  }

  // In every run the refusals of a row are its recorded failures, its rolled-back ones and the one
  // in flight. So they stay within its allowance plus its rolled-back ones, and failed publishes of
  // a head whose own transactions commit stop its group at most MaxRetryCount times.
  lemma HeadIsRefusedAtMost(cfg: Config, states: seq<Sys>, actions: seq<Action>, k: nat, id: int)
    requires Run(cfg, states, actions) && k < |states| && id in states[k].start
    ensures var s := states[k];
            && Refusals(s.log, id) == Fails(s.log, id) + RolledBack(s.log, id) + (if InFlight(s, id) then 1 else 0)
            && Refusals(s.log, id) <= Allowance(cfg, s.start[id]) + RolledBack(s.log, id)
            && Allowance(cfg, s.start[id]) <= cfg.maxRetryCount
  {
    var s := states[k];
    RunKeepsRefusals(cfg, states, actions, k, id);
    RunStaysWithinBudget(cfg, states, actions, k);
    if InFlight(s, id) {
      var j :| 0 <= j < |s.workers| && Holding(s.workers[j], id);
      assert WorkerFresh(cfg, s.start, s.log, s.workers[j]);
    }
  }

  // A row leaves the fetch exactly when its budget is spent.
  lemma SpentRowsLeaveTheFetch(cfg: Config, states: seq<Sys>, actions: seq<Action>, k: nat, id: int)
    requires Run(cfg, states, actions) && k < |states| && id in states[k].table
    ensures id in states[k].start
    ensures HasBudget(cfg.maxRetryCount, states[k].table[id])
       <==> Fails(states[k].log, id) < Allowance(cfg, states[k].start[id])
    ensures Fails(states[k].log, id) == Allowance(cfg, states[k].start[id]) ==>
              forall e :: e in Find(cfg, states[k].table) ==> e.id != id
  {
    RunStaysWithinBudget(cfg, states, actions, k);
    forall e | e in Find(cfg, states[k].table)
      ensures e.id in states[k].table && Eligible(cfg, states[k].table[e.id])
    {
      FetchedEventsMatch(cfg, states[k], e);
    }
  }

  // The count a refused event reports is the one its row has once the failure is recorded.
  lemma ReportedCount(cfg: Config, s: Sys, i: nat, c: Script, s': Sys)
    requires Base(cfg, s) && WorkStep(cfg, s, i, c, s')
    requires s.workers[i].pc.Commit? && !s.workers[i].pc.isOk && c.Commits()
    ensures var w := s.workers[i];
            var id := w.Current().id;
            && id in s'.start && w.pc.updated.retryCount == s'.start[id] + Fails(s'.log, id)
  {
    var w := s.workers[i];
    assert WorkerShape(cfg, s, w) && WorkerFresh(cfg, s.start, s.log, w);
    FailsSnoc(s.log, MicroStep(cfg, w, c).entry, w.Current().id);
  }

  // A row whose count has reached the maximum is in no later fetch.
  lemma SpentStaysOut(cfg: Config, states: seq<Sys>, actions: seq<Action>, j: nat, m: nat, id: int)
    requires Run(cfg, states, actions) && j <= m < |states| && id in states[j].start
    requires states[j].start[id] + Fails(states[j].log, id) >= cfg.maxRetryCount
    ensures forall e :: e in Find(cfg, states[m].table) ==> e.id != id
  {
    RunKeepsBase(cfg, states, actions, m);
    FailsOnlyGrow(cfg, states, actions, j, m, id);
    forall e | e in Find(cfg, states[m].table) ensures e.id != id {
      FetchedEventsMatch(cfg, states[m], e);
    }
  }

  // A recorded failure reports the maximum reached exactly when it leaves the row without budget,
  // and then no later fetch of the run returns the row.
  lemma ReportedMaximumEndsFetching(cfg: Config, states: seq<Sys>, actions: seq<Action>, k: nat, w: Worker)
    requires Run(cfg, states, actions) && k < |actions|
    requires actions[k].Work? && actions[k].i < |states[k].workers| && w == states[k].workers[actions[k].i]
    requires w.Live() && w.pc.Commit? && !w.pc.isOk && actions[k].c.Commits()
    ensures var reported, id := w.pc.updated.CheckMaxRetryCount(cfg.maxRetryCount), w.Current().id;
            && (id in states[k + 1].table ==>
                  (reported <==> !HasBudget(cfg.maxRetryCount, states[k + 1].table[id])))
            && (reported ==> forall m, e :: k < m < |states| && e in Find(cfg, states[m].table) ==> e.id != id)
  {
    var id := w.Current().id;
    RunKeepsBase(cfg, states, actions, k);
    RunKeepsBase(cfg, states, actions, k + 1);
    assert Step(cfg, states[k], actions[k], states[k + 1]);
    ReportedCount(cfg, states[k], actions[k].i, actions[k].c, states[k + 1]);
    if w.pc.updated.CheckMaxRetryCount(cfg.maxRetryCount) {
      forall m, e | k < m < |states| && e in Find(cfg, states[m].table) ensures e.id != id {
        SpentStaysOut(cfg, states, actions, k + 1, m, id);
      }
    }
  }

  // The head of an ordered group in a fetch is its lowest eligible row; when a head leaves, the
  // next eligible id takes its place.
  lemma HeadIsLowestEligible(cfg: Config, table: Table, key: Key)
    requires IsOrdered(key) && Members(Find(cfg, table), key) != []
    ensures var head := Members(Find(cfg, table), key)[0];
            && head.id in table && Eligible(cfg, table[head.id]) && KeyOf(ToEvent(head.id, table[head.id])) == key
            && head == ToEvent(head.id, table[head.id])
            && forall id :: id in table && Eligible(cfg, table[id]) && KeyOf(ToEvent(id, table[id])) == key ==>
                 head.id <= id
  {
    var events := Find(cfg, table);
    var members := Members(events, key);
    var head := members[0];
    MembersOfGroup(events, key);
    FindIsLowestEligible(cfg, table);
    assert head in members;
    var a :| 0 <= a < |events| && events[a] == head;
    forall id | id in table && Eligible(cfg, table[id]) && KeyOf(ToEvent(id, table[id])) == key
      ensures head.id <= id
    {
      if Holds(events, id) {
        var b :| 0 <= b < |events| && events[b].id == id;
        assert events[b] in members;
        var n :| 0 <= n < |members| && members[n] == events[b];
        assert n == 0 || members[0].id < members[n].id;
      }
    }
  }
}
