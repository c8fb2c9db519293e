// One round: the goroutines of all groups, stepped in any order until every one has returned.
module Interleaving {
  import opened Options
  import opened Outbox
  import opened Repository
  import opened Polling
  import opened Worker

  datatype Round = Round(table: Table, workers: seq<Worker>, log: seq<Entry>)

  function Ids(events: seq<EventValue>): set<int> {
    set i | 0 <= i < |events| :: events[i].id
  }

  // No two goroutines hold the same row.
  ghost predicate Separate(ws: seq<Worker>) {
    forall i, j :: 0 <= i < j < |ws| ==> Ids(ws[i].events) !! Ids(ws[j].events)
  }

  function RoundStep(cfg: Config, o: Oracle, r: Round, i: nat): Round
    requires i < |r.workers| && r.workers[i].Live()
  {
    var m := MicroStep(cfg, r.workers[i], o(r.workers[i].Current().id));
    Round(ApplyOpt(r.table, m.write), r.workers[i := m.worker], r.log + OptSeq(m.entry))
  }

  // The schedule names, step by step, the goroutine that moves.
  ghost predicate Runs(cfg: Config, o: Oracle, r: Round, schedule: seq<nat>, end: Round)
    decreases |schedule|
  {
    if schedule == [] then end == r
    else
      && schedule[0] < |r.workers| && r.workers[schedule[0]].Live()
      && Runs(cfg, o, RoundStep(cfg, o, r, schedule[0]), schedule[1..], end)
  }

  // Both WaitGroups are done.
  predicate Complete(r: Round) {
    forall i :: 0 <= i < |r.workers| ==> !r.workers[i].Live()
  }

  // ---- Writes of different rows commute

  lemma ApplyCommutes(table: Table, a: Write, b: Write)
    requires a.id != b.id
    ensures Apply(Apply(table, a), b) == Apply(Apply(table, b), a)
  {
  }

  lemma {:induction false} ApplyAllPast(table: Table, ws: seq<Write>, x: Option<Write>)
    requires x.Some? ==> forall w :: w in ws ==> w.id != x.value.id
    ensures ApplyAll(ApplyOpt(table, x), ws) == ApplyOpt(ApplyAll(table, ws), x)
  {
    if x.Some? && ws != [] {
      ApplyCommutes(table, x.value, ws[0]);
      ApplyAllPast(Apply(table, ws[0]), ws[1..], x);
    }
  }

  lemma OutcomeStaysOnRow(cfg: Config, round: nat, e: EventValue, s: Script)
    ensures forall w :: w in TraceOf(PublishOutcome(cfg, round, e, s)).writes ==> w.id == e.id
    ensures forall x :: x in PublishOutcome(cfg, round, e, s).entries ==> !x.Fetched? && x.id == e.id
  {
  }

  // Every write and every entry is of one of the ids.
  ghost predicate Within(t: Trace, ids: set<int>) {
    && (forall w :: w in t.writes ==> w.id in ids)
    && (forall x :: x in t.entries ==> !x.Fetched? && x.id in ids)
  }

  lemma ThenWithin(a: Trace, b: Trace, ids: set<int>)
    requires Within(a, ids) && Within(b, ids)
    ensures Within(Then(a, b), ids)
  {
  }

  lemma {:induction false} GroupRunStaysInGroup(cfg: Config, round: nat, o: Oracle, events: seq<EventValue>,
                                                ordered: bool)
    ensures Within(GroupRun(cfg, round, o, events, ordered), Ids(events))
  {
    if events != [] {
      var first := PublishOutcome(cfg, round, events[0], o(events[0].id));
      var rest := if ordered && !first.isOk then NOTHING else GroupRun(cfg, round, o, events[1..], ordered);
      GroupRunStaysInGroup(cfg, round, o, events[1..], ordered);
      IdsOfTail(events, 1);
      OutcomeStaysOnRow(cfg, round, events[0], o(events[0].id));
      assert events[0].id in Ids(events);
      ThenWithin(TraceOf(first), rest, Ids(events));
    }
  }

  lemma IdsOfTail(events: seq<EventValue>, n: nat)
    requires n <= |events|
    ensures Ids(events[n..]) <= Ids(events)
  {
    forall id | id in Ids(events[n..]) ensures id in Ids(events) {
      var i :| 0 <= i < |events[n..]| && events[n..][i].id == id;
      assert events[n + i].id == id;
    }
  }

  lemma CallStaysOnRow(cfg: Config, w: Worker, s: Script)
    requires w.Live()
    ensures var call := RestOfCall(cfg, w, s);
            && (call.write.Some? ==> call.write.value.id == w.Current().id)
            && forall e :: e in call.entries ==> !e.Fetched? && e.id == w.Current().id
  {
  }

  lemma RemainingStaysInGroup(cfg: Config, o: Oracle, w: Worker)
    ensures Within(Remaining(cfg, o, w), Ids(w.events))
  {
    if w.Live() {
      var call := RestOfCall(cfg, w, o(w.Current().id));
      assert w.Current().id in Ids(w.events);
      CallStaysOnRow(cfg, w, o(w.Current().id));
      GroupRunStaysInGroup(cfg, w.round, o, w.events[w.Idx() + 1..], w.ordered);
      IdsOfTail(w.events, w.Idx() + 1);
      ThenWithin(TraceOf(call), LaterCalls(cfg, o, w, call.isOk), Ids(w.events));
    }
  }

  // ---- The table the groups lead to when run one after another

  function Flat(lists: seq<seq<Write>>): seq<Write> {
    if lists == [] then [] else lists[0] + Flat(lists[1..])
  }

  function WritesLeft(cfg: Config, o: Oracle, ws: seq<Worker>): (lists: seq<seq<Write>>)
    ensures |lists| == |ws|
    ensures forall k :: 0 <= k < |ws| ==> lists[k] == Remaining(cfg, o, ws[k]).writes
  {
    seq(|ws|, k requires 0 <= k < |ws| => Remaining(cfg, o, ws[k]).writes)
  }

  function OneAfterAnother(cfg: Config, o: Oracle, r: Round): Table {
    ApplyAll(r.table, Flat(WritesLeft(cfg, o, r.workers)))
  }

  // The first write of a list may be made at once when the lists before it touch other rows.
  lemma {:induction false} WriteMayComeEarly(table: Table, lists: seq<seq<Write>>, i: nat,
                                             x: Option<Write>, rest: seq<Write>)
    requires i < |lists| && lists[i] == OptSeq(x) + rest
    requires x.Some? ==> forall j, w: Write :: 0 <= j < i && w in lists[j] ==> w.id != x.value.id
    ensures ApplyAll(ApplyOpt(table, x), Flat(lists[i := rest])) == ApplyAll(table, Flat(lists))
    decreases i
  {
    if i == 0 {
      assert lists[0 := rest][1..] == lists[1..];
      assert lists[0] + Flat(lists[1..]) == OptSeq(x) + (rest + Flat(lists[1..]));
      FirstWrite(table, x, rest + Flat(lists[1..]));
    } else {
      var tail := lists[1..];
      assert lists[i := rest][1..] == tail[i - 1 := rest];
      ApplyAllConcat(table, lists[0], Flat(tail));
      ApplyAllConcat(ApplyOpt(table, x), lists[0], Flat(tail[i - 1 := rest]));
      ApplyAllPast(table, lists[0], x);
      WriteMayComeEarly(ApplyAll(table, lists[0]), tail, i - 1, x, rest);
    }
  }

  lemma StepKeepsTable(cfg: Config, o: Oracle, r: Round, i: nat)
    requires Separate(r.workers) && i < |r.workers| && r.workers[i].Live()
    ensures OneAfterAnother(cfg, o, RoundStep(cfg, o, r, i)) == OneAfterAnother(cfg, o, r)
  {
    var w := r.workers[i];
    var m := MicroStep(cfg, w, o(w.Current().id));
    StepSplitsRemaining(cfg, o, w);
    StepWritesOwnRow(cfg, w, o(w.Current().id));
    var lists, rest := WritesLeft(cfg, o, r.workers), Remaining(cfg, o, m.worker).writes;
    if m.write.Some? {
      forall j, x: Write | 0 <= j < i && x in lists[j] ensures x.id != m.write.value.id {
        RemainingStaysInGroup(cfg, o, r.workers[j]);
        assert Ids(r.workers[j].events) !! Ids(w.events);
      }
    }
    assert WritesLeft(cfg, o, r.workers[i := m.worker]) == lists[i := rest];
    WriteMayComeEarly(r.table, lists, i, m.write, rest);
  }

  lemma StepWritesOwnRow(cfg: Config, w: Worker, s: Script)
    requires w.Live()
    ensures w.Current().id in Ids(w.events)
    ensures var m := MicroStep(cfg, w, s);
            && m.worker.events == w.events && m.worker.ordered == w.ordered && m.worker.round == w.round
            && (m.write.Some? ==> m.write.value.id == w.Current().id)
            && (m.entry.Some? ==> !m.entry.value.Fetched? && m.entry.value.id == w.Current().id)
  {
  }

  // ---- The log of one group

  function LogOf(log: seq<Entry>, ids: set<int>): seq<Entry> {
    if log == [] then [] else
    var n := |log| - 1;
    LogOf(log[..n], ids) + if !log[n].Fetched? && log[n].id in ids then [log[n]] else []
  }

  lemma LogOfSnoc(log: seq<Entry>, x: Option<Entry>, ids: set<int>)
    ensures LogOf(log + OptSeq(x), ids)
         == LogOf(log, ids) + if x.Some? && !x.value.Fetched? && x.value.id in ids then [x.value] else []
  {
    if x.Some? {
      assert (log + [x.value])[..|log|] == log;
    } else {
      assert log + [] == log;
    }
  }

  // What a goroutine has done and what it has left, together.
  ghost predicate Accounted(cfg: Config, o: Oracle, w0: Worker, log0: seq<Entry>, w: Worker, log: seq<Entry>) {
    && w.events == w0.events
    && w.results + Remaining(cfg, o, w).results == w0.results + Remaining(cfg, o, w0).results
    && LogOf(log, Ids(w.events)) + Remaining(cfg, o, w).entries
       == LogOf(log0, Ids(w.events)) + Remaining(cfg, o, w0).entries
  }

  lemma StepKeepsAccount(cfg: Config, o: Oracle, w0: Worker, log0: seq<Entry>, w: Worker, log: seq<Entry>)
    requires w.Live() && Accounted(cfg, o, w0, log0, w, log)
    ensures var m := MicroStep(cfg, w, o(w.Current().id));
            Accounted(cfg, o, w0, log0, m.worker, log + OptSeq(m.entry))
  {
    var m := MicroStep(cfg, w, o(w.Current().id));
    var ids := Ids(w.events);
    StepSplitsRemaining(cfg, o, w);
    StepWritesOwnRow(cfg, w, o(w.Current().id));
    LogOfSnoc(log, m.entry, ids);
    var left := Remaining(cfg, o, m.worker);
    assert Remaining(cfg, o, w).results == m.worker.results[w.Idx()..] + left.results;
    assert Remaining(cfg, o, w).entries == OptSeq(m.entry) + left.entries;
    PrefixAssociates(w.results, m.worker.results, left.results);
    assert LogOf(log + OptSeq(m.entry), ids) == LogOf(log, ids) + OptSeq(m.entry);
    Associates(LogOf(log, ids), OptSeq(m.entry), left.entries);
  }

  lemma Associates<T>(a: seq<T>, b: seq<T>, c: seq<T>)
    ensures a + b + c == a + (b + c)
  {
  }

  lemma PrefixAssociates<T>(a: seq<T>, b: seq<T>, c: seq<T>)
    requires a <= b
    ensures b + c == a + (b[|a|..] + c)
  {
    assert b == a + b[|a|..];
  }

  lemma OtherStepKeepsAccount(cfg: Config, o: Oracle, w0: Worker, log0: seq<Entry>, w: Worker, log: seq<Entry>,
                              x: Option<Entry>)
    requires Accounted(cfg, o, w0, log0, w, log)
    requires x.Some? ==> !x.value.Fetched? && x.value.id !in Ids(w.events)
    ensures Accounted(cfg, o, w0, log0, w, log + OptSeq(x))
  {
    LogOfSnoc(log, x, Ids(w.events));
  }

  ghost predicate AllAccounted(cfg: Config, o: Oracle, r0: Round, r: Round) {
    && |r.workers| == |r0.workers|
    && forall k :: 0 <= k < |r.workers| ==>
         Accounted(cfg, o, r0.workers[k], r0.log, r.workers[k], r.log)
  }

  lemma RoundStepKeeps(cfg: Config, o: Oracle, r0: Round, r: Round, i: nat)
    requires Separate(r.workers) && AllAccounted(cfg, o, r0, r)
    requires i < |r.workers| && r.workers[i].Live()
    ensures var next := RoundStep(cfg, o, r, i);
            && Separate(next.workers)
            && AllAccounted(cfg, o, r0, next)
            && OneAfterAnother(cfg, o, next) == OneAfterAnother(cfg, o, r)
  {
    var w := r.workers[i];
    var m := MicroStep(cfg, w, o(w.Current().id));
    var next := RoundStep(cfg, o, r, i);
    StepWritesOwnRow(cfg, w, o(w.Current().id));
    StepKeepsTable(cfg, o, r, i);
    forall k | 0 <= k < |next.workers|
      ensures Accounted(cfg, o, r0.workers[k], r0.log, next.workers[k], next.log)
    {
      if k == i {
        StepKeepsAccount(cfg, o, r0.workers[k], r0.log, w, r.log);
      } else {
        assert Ids(r.workers[k].events) !! Ids(w.events);
        OtherStepKeepsAccount(cfg, o, r0.workers[k], r0.log, r.workers[k], r.log, m.entry);
      }
    }
  }

  lemma {:induction false} RunsKeep(cfg: Config, o: Oracle, r0: Round, r: Round, schedule: seq<nat>, end: Round)
    requires Separate(r.workers) && AllAccounted(cfg, o, r0, r) && Runs(cfg, o, r, schedule, end)
    ensures AllAccounted(cfg, o, r0, end)
    ensures OneAfterAnother(cfg, o, end) == OneAfterAnother(cfg, o, r)
    decreases |schedule|
  {
    if schedule != [] {
      RoundStepKeeps(cfg, o, r0, r, schedule[0]);
      RunsKeep(cfg, o, r0, RoundStep(cfg, o, r, schedule[0]), schedule[1..], end);
    }
  }

  lemma {:induction false} FlatOfNothing(lists: seq<seq<Write>>)
    requires forall i :: 0 <= i < |lists| ==> lists[i] == []
    ensures Flat(lists) == []
  {
    if lists != [] {
      FlatOfNothing(lists[1..]);
    }
  }

  // Every complete schedule ends in the table that running the groups one after another gives,
  // and every group has made the same calls with the same results and logged the same entries in
  // the same order.
  lemma InterleavingsAgree(cfg: Config, o: Oracle, r: Round, schedule: seq<nat>, end: Round)
    requires Separate(r.workers) && Runs(cfg, o, r, schedule, end) && Complete(end)
    ensures |end.workers| == |r.workers|
    ensures end.table == OneAfterAnother(cfg, o, r)
    ensures forall k :: 0 <= k < |r.workers| ==>
              && end.workers[k].results == r.workers[k].results + Remaining(cfg, o, r.workers[k]).results
              && LogOf(end.log, Ids(r.workers[k].events))
                 == LogOf(r.log, Ids(r.workers[k].events)) + Remaining(cfg, o, r.workers[k]).entries
  {
    RunsKeep(cfg, o, r, r, schedule, end);
    FlatOfNothing(WritesLeft(cfg, o, end.workers));
    forall k | 0 <= k < |r.workers|
      ensures end.workers[k].results == r.workers[k].results + Remaining(cfg, o, r.workers[k]).results
      ensures LogOf(end.log, Ids(r.workers[k].events))
           == LogOf(r.log, Ids(r.workers[k].events)) + Remaining(cfg, o, r.workers[k]).entries
    {
      assert Accounted(cfg, o, r.workers[k], r.log, end.workers[k], end.log);
      assert !end.workers[k].Live();
    }
  }

  // No schedule goes on for ever.
  function TotalStepsLeft(ws: seq<Worker>): nat {
    if ws == [] then 0 else StepsLeft(ws[0]) + TotalStepsLeft(ws[1..])
  }

  lemma {:induction false} FewerStepsLeft(ws: seq<Worker>, i: nat, w: Worker)
    requires i < |ws| && StepsLeft(w) < StepsLeft(ws[i])
    ensures TotalStepsLeft(ws[i := w]) < TotalStepsLeft(ws)
  {
    if i == 0 {
      assert ws[0 := w][1..] == ws[1..];
    } else {
      assert ws[i := w][1..] == ws[1..][i - 1 := w];
      FewerStepsLeft(ws[1..], i - 1, w);
    }
  }

  lemma {:induction false} SchedulesAreBounded(cfg: Config, o: Oracle, r: Round, schedule: seq<nat>, end: Round)
    requires Runs(cfg, o, r, schedule, end)
    ensures |schedule| + TotalStepsLeft(end.workers) <= TotalStepsLeft(r.workers)
    decreases |schedule|
  {
    if schedule != [] {
      var i := schedule[0];
      var w := r.workers[i];
      StepMakesProgress(cfg, w, o(w.Current().id));
      FewerStepsLeft(r.workers, i, MicroStep(cfg, w, o(w.Current().id)).worker);
      SchedulesAreBounded(cfg, o, RoundStep(cfg, o, r, i), schedule[1..], end);
    }
  }
}
