// pkg/service/polling/implement.go: a group's goroutine as a machine, one observable action a
// step, so that the goroutines of a round can be interleaved.
module Worker {
  import opened Options
  import opened Outbox
  import opened Repository
  import opened Polling

  // Where a goroutine stands in its current publishEvent call. "dueAt" is the reading at which
  // the event was found due. After Record the closure holds the event it has updated.
  datatype Pc =
    | Check
    | Send(dueAt: Time)
    | Record(published: bool, dueAt: Time)
    | Commit(isOk: bool, updated: EventValue, at: Time)
    | Done

  datatype Worker = Worker(
    round: nat,
    ordered: bool,
    events: seq<EventValue>,
    pc: Pc,
    results: seq<bool>)
  {
    // publishEvent has returned once for each event before this one.
    function Idx(): nat {
      |results|
    }

    predicate Live() {
      pc != Done && Idx() < |events|
    }

    function Current(): EventValue
      requires Live()
    {
      events[Idx()]
    }
  }

  // The goroutine as spawned. It has nothing to do when its group is empty.
  function Spawn(round: nat, events: seq<EventValue>, ordered: bool): Worker {
    Worker(round, ordered, events, if events == [] then Done else Check, [])
  }

  datatype Micro = Micro(worker: Worker, write: Option<Write>, entry: Option<Entry>)

  // publishEvent returns isOk: the loop stops, ends, or goes on to the next event.
  function Return(w: Worker, isOk: bool): Worker {
    var results := w.results + [isOk];
    var over := (w.ordered && !isOk) || |results| >= |w.events|;
    w.(results := results, pc := if over then Done else Check)
  }

  function MicroStep(cfg: Config, w: Worker, s: Script): Micro
    requires w.Live()
  {
    var e := w.Current();
    match w.pc
    case Check =>
      if e.CanNotRetry(s.checkAt)
      then Micro(Return(w, false), None, Some(Waiting(w.round, e.id, s.checkAt)))
      else Micro(w.(pc := Send(s.checkAt)), None, None)
    case Send(dueAt) =>
      (match s.answer
       case NotFoundKey => Micro(Return(w, false), None, Some(Unresolved(w.round, e.id, dueAt)))
       case Ack => Micro(w.(pc := Record(true, dueAt)), None, Some(Accepted(w.round, e.id, dueAt)))
       case Nack => Micro(w.(pc := Record(false, dueAt)), None, Some(Refused(w.round, e.id, dueAt))))
    case Record(published, _) =>
      var updated := if published then e.Sent(s.recordAt) else RetriedUnder(cfg, e, s.recordAt);
      Micro(w.(pc := Commit(published, updated, s.recordAt)), None, None)
    case Commit(isOk, updated, at) =>
      var retryAt := if updated.retryAt.Some? then updated.retryAt.value else at;
      var write := if isOk then MarkSent(e.id, s.storeAt) else SaveRetry(e.id, updated.retryCount, retryAt);
      var entry := if isOk then Marked(w.round, e.id, s.Commits()) else Failed(w.round, e.id, at, s.Commits());
      Micro(Return(w, isOk && s.Commits()), if s.Commits() then Some(write) else None, Some(entry))
  }

  // ---- What a goroutine has left to do, given everything it will observe

  // The rest of the current call.
  function RestOfCall(cfg: Config, w: Worker, s: Script): Outcome
    requires w.Live()
  {
    var e := w.Current();
    match w.pc
    case Check => PublishOutcome(cfg, w.round, e, s)
    case Send(dueAt) =>
      (match s.answer
       case NotFoundKey => Outcome(false, None, [Unresolved(w.round, e.id, dueAt)])
       case Ack => AfterAnswer(cfg, w, s, true, [Accepted(w.round, e.id, dueAt)])
       case Nack => AfterAnswer(cfg, w, s, false, [Refused(w.round, e.id, dueAt)]))
    case Record(published, _) => AfterAnswer(cfg, w, s, published, [])
    case Commit(isOk, _, _) =>
      var m := MicroStep(cfg, w, s);
      Outcome(isOk && s.Commits(), m.write, OptSeq(m.entry))
  }

  function AfterAnswer(cfg: Config, w: Worker, s: Script, published: bool, logged: seq<Entry>): Outcome
    requires w.Live()
  {
    var e := w.Current();
    var r := RetriedUnder(cfg, e, s.recordAt);
    var write := if published then MarkSent(e.id, s.storeAt) else SaveRetry(e.id, r.retryCount, r.retryAt.value);
    var entry := if published then Marked(w.round, e.id, s.Commits())
                 else Failed(w.round, e.id, s.recordAt, s.Commits());
    Outcome(published && s.Commits(), if s.Commits() then Some(write) else None, logged + [entry])
  }

  // The calls after the current one, which returns isOk.
  function LaterCalls(cfg: Config, o: Oracle, w: Worker, isOk: bool): Trace
    requires w.Live()
  {
    if w.ordered && !isOk then NOTHING
    else GroupRun(cfg, w.round, o, w.events[w.Idx() + 1..], w.ordered)
  }

  function Remaining(cfg: Config, o: Oracle, w: Worker): Trace {
    if !w.Live() then NOTHING
    else
      var now := RestOfCall(cfg, w, o(w.Current().id));
      Then(TraceOf(now), LaterCalls(cfg, o, w, now.isOk))
  }

  // What one step emits, as a trace; a step that ends a call also adds its result.
  function Emitted(w: Worker, m: Micro): Trace
    requires |m.worker.results| >= w.Idx()
  {
    Trace(m.worker.results[w.Idx()..], OptSeq(m.write), OptSeq(m.entry))
  }

  lemma SpawnedRemaining(cfg: Config, o: Oracle, round: nat, events: seq<EventValue>, ordered: bool)
    ensures Remaining(cfg, o, Spawn(round, events, ordered)) == GroupRun(cfg, round, o, events, ordered)
  {
    if events != [] {
      assert events[0..] == events;
      GroupRunUnfolds(cfg, round, o, events, 0, ordered);
    }
  }

  lemma ReturnedRemaining(cfg: Config, o: Oracle, w: Worker, isOk: bool)
    requires w.Live()
    ensures Remaining(cfg, o, Return(w, isOk)) == LaterCalls(cfg, o, w, isOk)
  {
    var next := w.Idx() + 1;
    if next < |w.events| {
      GroupRunUnfolds(cfg, w.round, o, w.events, next, w.ordered);
    }
  }

  // A step emits the first of what is left and leaves the rest.
  lemma StepSplitsRemaining(cfg: Config, o: Oracle, w: Worker)
    requires w.Live()
    ensures var m := MicroStep(cfg, w, o(w.Current().id));
            && w.results <= m.worker.results
            && Remaining(cfg, o, w) == Then(Emitted(w, m), Remaining(cfg, o, m.worker))
  {
    var s := o(w.Current().id);
    var m := MicroStep(cfg, w, s);
    if m.worker.results == w.results {
      CallSplits(cfg, w, s);
      StepWithinCall(cfg, o, w, m, RestOfCall(cfg, w, s), RestOfCall(cfg, m.worker, s));
    } else {
      CallEnds(cfg, w, s);
      ReturnedRemaining(cfg, o, w, RestOfCall(cfg, w, s).isOk);
    }
  }

  lemma StepWithinCall(cfg: Config, o: Oracle, w: Worker, m: Micro, now: Outcome, later: Outcome)
    requires w.Live() && m.worker.Live() && m.worker == w.(pc := m.worker.pc) && m.write.None?
    requires now == RestOfCall(cfg, w, o(w.Current().id))
    requires later == RestOfCall(cfg, m.worker, o(w.Current().id))
    requires now == later.(entries := OptSeq(m.entry) + later.entries)
    ensures Remaining(cfg, o, w) == Then(Emitted(w, m), Remaining(cfg, o, m.worker))
  {
    assert m.worker.results[w.Idx()..] == [];
    assert TraceOf(now) == Then(Emitted(w, m), TraceOf(later));
    ThenAssociates(Emitted(w, m), TraceOf(later), LaterCalls(cfg, o, w, now.isOk));
  }

  lemma CallEnds(cfg: Config, w: Worker, s: Script)
    requires w.Live() && MicroStep(cfg, w, s).worker.results != w.results
    ensures var m := MicroStep(cfg, w, s);
            && m.worker == Return(w, RestOfCall(cfg, w, s).isOk)
            && Emitted(w, m) == TraceOf(RestOfCall(cfg, w, s))
  {
    var m := MicroStep(cfg, w, s);
    var isOk := RestOfCall(cfg, w, s).isOk;
    assert m.worker.results == w.results + [isOk];
    assert (w.results + [isOk])[w.Idx()..] == [isOk];
  }

  lemma CallSplits(cfg: Config, w: Worker, s: Script)
    requires w.Live() && MicroStep(cfg, w, s).worker.results == w.results
    ensures var m := MicroStep(cfg, w, s);
            && m.worker.Live() && m.write.None?
            && m.worker.Current() == w.Current()
            && m.worker == w.(pc := m.worker.pc)
            && var later := RestOfCall(cfg, m.worker, s);
               RestOfCall(cfg, w, s) == later.(entries := OptSeq(m.entry) + later.entries)
  {
  }

  // ---- Every goroutine ends

  function CallStepsLeft(pc: Pc): nat {
    match pc
    case Check => 4
    case Send(_) => 3
    case Record(_, _) => 2
    case Commit(_, _, _) => 1
    case Done => 0
  }

  function StepsLeft(w: Worker): nat {
    if !w.Live() then 0 else 4 * (|w.events| - w.Idx() - 1) + CallStepsLeft(w.pc)
  }

  lemma StepMakesProgress(cfg: Config, w: Worker, s: Script)
    requires w.Live()
    ensures StepsLeft(MicroStep(cfg, w, s).worker) < StepsLeft(w)
  {
  }
}
