// A round inside a run, application steps and all, is a round of the interleaving machine, so what
// is proved of all schedules holds there.
module RoundsInRuns {
  import opened Options
  import opened Repository
  import opened Grouping
  import opened Polling
  import opened Worker
  import opened Interleaving
  import opened Rounds
  import opened System
  import opened Provenance

  function RoundOf(s: Sys): Round {
    Round(s.table, s.workers, s.log)
  }

  // Between states j and k no new round begins; goroutines and the application move freely.
  ghost predicate SameRound(states: seq<Sys>, actions: seq<Action>, j: nat, k: nat)
    requires |states| == |actions| + 1
  {
    j <= k < |states| && forall n :: j <= n < k ==> !actions[n].Poll?
  }

  // ---- The oracle of a round

  // What a step at this place in the call reads of c is what s says.
  predicate Observes(pc: Pc, c: Script, s: Script) {
    match pc
    case Check => c.checkAt == s.checkAt
    case Send(_) => c.answer == s.answer
    case Record(_, _) => c.recordAt == s.recordAt
    case Commit(_, _, _) => c.storeAt == s.storeAt && c.outcome == s.outcome
    case Done => true
  }

  lemma ObservingIsEnough(cfg: Config, w: Worker, c: Script, s: Script)
    requires w.Live() && Observes(w.pc, c, s)
    ensures MicroStep(cfg, w, c) == MicroStep(cfg, w, s)
  {
  }

  // The steps of goroutines between states j and k observe what the oracle says of their rows.
  ghost predicate Follows(states: seq<Sys>, actions: seq<Action>, o: Oracle, j: nat, k: nat)
    requires |states| == |actions| + 1 && k < |states|
  {
    forall n :: j <= n < k && actions[n].Work? ==> StepFollows(states[n], actions[n], o)
  }

  ghost predicate StepFollows(s: Sys, a: Action, o: Oracle)
    requires a.Work?
  {
    && a.i < |s.workers| && s.workers[a.i].Live()
    && Observes(s.workers[a.i].pc, a.c, o(s.workers[a.i].Current().id))
  }

  // The oracle with one more observation.
  function Told(o: Oracle, id: int, pc: Pc, c: Script): Oracle {
    var s := o(id);
    var told := match pc
      case Check => s.(checkAt := c.checkAt)
      case Send(_) => s.(answer := c.answer)
      case Record(_, _) => s.(recordAt := c.recordAt)
      case Commit(_, _, _) => s.(storeAt := c.storeAt, outcome := c.outcome)
      case Done => s;
    (x: int) => if x == id then told else o(x)
  }

  // Within a round a goroutine keeps its events and only ever gets closer to its end.
  lemma {:induction false} WorkersAdvance(cfg: Config, states: seq<Sys>, actions: seq<Action>, n: nat, k: nat, i: nat)
    requires Run(cfg, states, actions) && SameRound(states, actions, n, k) && i < |states[n].workers|
    ensures |states[k].workers| == |states[n].workers|
    ensures states[k].workers[i].events == states[n].workers[i].events
    ensures StepsLeft(states[k].workers[i]) <= StepsLeft(states[n].workers[i])
    ensures n < k && actions[n].Work? && actions[n].i == i ==>
              StepsLeft(states[k].workers[i]) < StepsLeft(states[n].workers[i])
    decreases k - n
  {
    if n < k {
      assert Step(cfg, states[n], actions[n], states[n + 1]);
      if actions[n].Work? {
        var w := states[n].workers[actions[n].i];
        StepWritesOwnRow(cfg, w, actions[n].c);
        StepMakesProgress(cfg, w, actions[n].c);
      }
      WorkersAdvance(cfg, states, actions, n + 1, k, i);
    }
  }

  // Two steps of a round that are about the same row are at different places in its call.
  lemma PlacesDiffer(cfg: Config, states: seq<Sys>, actions: seq<Action>, n: nat, k: nat)
    requires Run(cfg, states, actions) && SameRound(states, actions, n, k) && n < k < |actions|
    requires actions[n].Work? && actions[k].Work?
    ensures actions[n].i < |states[n].workers| && states[n].workers[actions[n].i].Live()
    ensures actions[k].i < |states[k].workers| && states[k].workers[actions[k].i].Live()
    ensures var w, w' := states[n].workers[actions[n].i], states[k].workers[actions[k].i];
            w.Current().id == w'.Current().id ==> CallStepsLeft(w.pc) > CallStepsLeft(w'.pc)
  {
    assert Step(cfg, states[n], actions[n], states[n + 1]) && Step(cfg, states[k], actions[k], states[k + 1]);
    var i, i' := actions[n].i, actions[k].i;
    var w, w' := states[n].workers[i], states[k].workers[i'];
    RunKeepsBase(cfg, states, actions, k);
    WorkersAdvance(cfg, states, actions, n, k, i);
    if w.Current().id == w'.Current().id {
      var held := states[k].workers[i];
      assert held.events[w.Idx()].id in Ids(held.events);
      if i != i' {
        OtherGroupsRows(states[k], i, i');
      }
      assert WorkerShape(cfg, states[k], w');
      assert w.Idx() == w'.Idx();
    }
  }

  lemma ToldKeeps(states: seq<Sys>, actions: seq<Action>, o: Oracle, n: nat, id: int, pc: Pc, c: Script)
    requires n < |actions| < |states| && actions[n].Work? && StepFollows(states[n], actions[n], o)
    requires var w := states[n].workers[actions[n].i];
             w.Current().id == id ==> CallStepsLeft(w.pc) > CallStepsLeft(pc)
    ensures StepFollows(states[n], actions[n], Told(o, id, pc, c))
  {
  }

  // Every round of every run has an oracle.
  lemma {:induction false} RoundHasOracle(cfg: Config, states: seq<Sys>, actions: seq<Action>, j: nat, k: nat)
    returns (o: Oracle)
    requires Run(cfg, states, actions) && SameRound(states, actions, j, k)
    ensures Follows(states, actions, o, j, k)
    decreases k
  {
    if j == k {
      o := (x: int) => Script(0, Ack, 0, 0, Committed);
    } else {
      var last := k - 1;
      var before := RoundHasOracle(cfg, states, actions, j, last);
      o := before;
      if actions[last].Work? {
        assert Step(cfg, states[last], actions[last], states[k]);
        var w, c := states[last].workers[actions[last].i], actions[last].c;
        o := Told(before, w.Current().id, w.pc, c);
        forall n | j <= n < last && actions[n].Work? ensures StepFollows(states[n], actions[n], o) {
          PlacesDiffer(cfg, states, actions, n, last);
          ToldKeeps(states, actions, before, n, w.Current().id, w.pc, c);
        }
      }
    }
  }

  // ---- The schedule of a round

  // The goroutines that move, without the application's steps.
  function Moves(actions: seq<Action>, j: nat, k: nat): seq<nat>
    requires j <= k <= |actions|
    decreases k - j
  {
    if j == k then []
    else MoveOf(actions[j]) + Moves(actions, j + 1, k)
  }

  function MoveOf(a: Action): seq<nat> {
    if a.Work? then [a.i] else []
  }

  // The rows still in b are as in a.
  ghost predicate SurvivorsAgree(a: Table, b: Table, ids: set<int>) {
    forall id :: id in ids && id in b ==> id in a && a[id] == b[id]
  }

  // The round machine stands where the run does, but for what the application has changed.
  ghost predicate Projects(r: Round, s: Sys, ids: set<int>) {
    && r.workers == s.workers && r.log == s.log
    && ids <= s.start.Keys && SurvivorsAgree(r.table, s.table, ids)
  }

  lemma WorkProjects(cfg: Config, s: Sys, i: nat, c: Script, s': Sys, o: Oracle, r: Round, ids: set<int>)
    requires WorkStep(cfg, s, i, c, s') && StepFollows(s, Work(i, c), o) && Projects(r, s, ids)
    ensures Projects(RoundStep(cfg, o, r, i), s', ids)
  {
    var w := s.workers[i];
    ObservingIsEnough(cfg, w, c, o(w.Current().id));
  }

  lemma AppProjects(s: Sys, s': Sys, r: Round, ids: set<int>)
    requires AppStep(s, s') && Projects(r, s, ids)
    ensures Projects(r, s', ids)
  {
  }

  // One step of the run is at most one move of the round machine.
  lemma StepProjects(cfg: Config, s: Sys, a: Action, s': Sys, o: Oracle, r: Round, ids: set<int>) returns (r': Round)
    requires Step(cfg, s, a, s') && !a.Poll? && (a.Work? ==> StepFollows(s, a, o)) && Projects(r, s, ids)
    ensures Projects(r', s', ids)
    ensures forall rest, end :: Runs(cfg, o, r', rest, end) ==> Runs(cfg, o, r, MoveOf(a) + rest, end)
  {
    if a.Work? {
      r' := RoundStep(cfg, o, r, a.i);
      WorkProjects(cfg, s, a.i, a.c, s', o, r, ids);
      forall rest, end | Runs(cfg, o, r', rest, end) ensures Runs(cfg, o, r, [a.i] + rest, end) {
        assert ([a.i] + rest)[1..] == rest;
      }
    } else {
      r' := r;
      AppProjects(s, s', r, ids);
      forall rest: seq<nat> ensures [] + rest == rest {}
    }
  }

  // The goroutines move as they would without the application, on the rows that survive it.
  lemma {:induction false} RunProjects(cfg: Config, states: seq<Sys>, actions: seq<Action>, o: Oracle,
                                       j: nat, k: nat, r: Round, ids: set<int>) returns (end: Round)
    requires Run(cfg, states, actions) && SameRound(states, actions, j, k) && Follows(states, actions, o, j, k)
    requires Projects(r, states[j], ids)
    ensures Runs(cfg, o, r, Moves(actions, j, k), end) && Projects(end, states[k], ids)
    decreases k - j
  {
    if j == k {
      end := r;
    } else {
      var next := StepProjects(cfg, states[j], actions[j], states[j + 1], o, r, ids);
      end := RunProjects(cfg, states, actions, o, j + 1, k, next, ids);
    }
  }

  // Any stretch of a run without a new fetch is a schedule of the round machine: same goroutines,
  // same log, and the same table on the rows the application has left in place.
  lemma RunFollowsSchedule(cfg: Config, states: seq<Sys>, actions: seq<Action>, o: Oracle, j: nat, k: nat)
    returns (end: Round)
    requires Run(cfg, states, actions) && SameRound(states, actions, j, k) && Follows(states, actions, o, j, k)
    ensures Runs(cfg, o, RoundOf(states[j]), Moves(actions, j, k), end)
    ensures end.workers == states[k].workers && end.log == states[k].log
    ensures forall id :: id in states[j].table && id in states[k].table ==>
              id in end.table && end.table[id] == states[k].table[id]
  {
    RunKeepsBase(cfg, states, actions, j);
    end := RunProjects(cfg, states, actions, o, j, k, RoundOf(states[j]), states[j].table.Keys);
  }

  // ---- Rounds of any run

  // The round fetched at step j has ended at state k; the application may have moved in between.
  ghost predicate RoundOfRun(cfg: Config, states: seq<Sys>, actions: seq<Action>, o: Oracle, j: nat, k: nat) {
    && Run(cfg, states, actions)
    && j < |actions| && actions[j].Poll?
    && SameRound(states, actions, j + 1, k)
    && Follows(states, actions, o, j + 1, k)
    && Complete(RoundOf(states[k]))
  }

  lemma RoundEndsInRun(cfg: Config, states: seq<Sys>, actions: seq<Action>, o: Oracle, j: nat, k: nat)
    returns (end: Round)
    requires RoundOfRun(cfg, states, actions, o, j, k)
    ensures RoundEnds(cfg, states[j + 1].round, o, states[j].table, states[j + 1].log, Find(cfg, states[j].table),
                      actions[j].keys, Moves(actions, j + 1, k), end)
    ensures end.workers == states[k].workers && end.log == states[k].log
    ensures forall id :: id in states[j].table && id in states[k].table ==>
              id in end.table && end.table[id] == states[k].table[id]
  {
    var fetched, table := states[j + 1], states[j].table;
    assert PollStep(cfg, states[j], actions[j].keys, fetched);
    FindIsLowestEligible(cfg, table);
    end := RunFollowsSchedule(cfg, states, actions, o, j + 1, k);
    assert RoundOf(fetched)
        == StartRound(fetched.round, table, fetched.log, Find(cfg, table), actions[j].keys);
  }

  // Whatever the application inserts and deletes during a round, a row fetched from and still there
  // ends as the round's effect on the fetched table says.
  lemma RoundInRun(cfg: Config, states: seq<Sys>, actions: seq<Action>, o: Oracle, j: nat, k: nat)
    requires RoundOfRun(cfg, states, actions, o, j, k)
    ensures forall id :: id in states[j].table && id in states[k].table ==>
              && states[k].table[id] == AfterRound(cfg, states[j + 1].round, o, states[j].table)[id]
              && states[k].table[id]
                 == ByColumns(cfg, o(id), states[j].table[id], Reached(cfg, o, states[j].table, id))
  {
    var fetched, table := states[j + 1], states[j].table;
    var end := RoundEndsInRun(cfg, states, actions, o, j, k);
    ExactEffect(cfg, fetched.round, o, table, fetched.log, Find(cfg, table), actions[j].keys,
                Moves(actions, j + 1, k), end);
    RoundIsAfterRound(cfg, fetched.round, o, table, end.table);
    forall id | id in table && id in states[k].table {
      RoundByColumns(cfg, fetched.round, o, table, id);
    }
  }

  // A row that came in after the fetch is not touched by the round.
  lemma LateRowsAreLeftAlone(cfg: Config, states: seq<Sys>, actions: seq<Action>, j: nat, n: nat, id: int)
    requires Run(cfg, states, actions) && j < n < |actions| && actions[j].Poll?
    requires SameRound(states, actions, j + 1, n + 1)
    requires id !in states[j].table && id in states[n].table && id in states[n + 1].table
    ensures states[n + 1].table[id] == states[n].table[id]
  {
    assert Step(cfg, states[n], actions[n], states[n + 1]);
    if actions[n].Work? {
      var w := states[n].workers[actions[n].i];
      var f := |states[j].log|;
      assert PollStep(cfg, states[j], actions[j].keys, states[j + 1]);
      assert states[j + 1].log[f] == Fetched(states[j + 1].round, states[j].table);
      LogGrows(cfg, states, actions, j + 1, n);
      RoundStays(cfg, states, actions, j + 1, n);
      RunKeepsProvenance(cfg, states, actions, n);
      assert EventsFromFetch(cfg, states[n].log[f].snapshot, w);
      StepWritesOwnRow(cfg, w, actions[n].c);
    }
  }

  lemma {:induction false} RoundStays(cfg: Config, states: seq<Sys>, actions: seq<Action>, j: nat, k: nat)
    requires Run(cfg, states, actions) && SameRound(states, actions, j, k)
    ensures states[k].round == states[j].round
    decreases k
  {
    if j < k {
      RoundStays(cfg, states, actions, j, k - 1);
      assert Step(cfg, states[k - 1], actions[k - 1], states[k]);
    }
  }

  // In every round of every run each goroutine makes exactly the calls of its sequential loop, with
  // the same results and entries: all true up to the last for an ordered group, one per event for
  // the group without an id.
  lemma CallsInRun(cfg: Config, states: seq<Sys>, actions: seq<Action>, o: Oracle, j: nat, k: nat, g: nat)
    requires RoundOfRun(cfg, states, actions, o, j, k) && g < |actions[j].keys|
    ensures var fetched, events, key := states[j + 1], Find(cfg, states[j].table), actions[j].keys[g];
            var run, ids := RunOfKey(cfg, fetched.round, o, events, key), Ids(Members(events, key));
            && |states[k].workers| == |actions[j].keys|
            && states[k].workers[g].results == run.results
            && LogOf(states[k].log, ids) == LogOf(fetched.log, ids) + run.entries
            && StopsAtFirstFailure(run.results, |Members(events, key)|, key.aggregateId != "")
  {
    var fetched, table := states[j + 1], states[j].table;
    var end := RoundEndsInRun(cfg, states, actions, o, j, k);
    CallsOfARound(cfg, fetched.round, o, table, fetched.log, Find(cfg, table), actions[j].keys,
                  Moves(actions, j + 1, k), end, g);
  }

  lemma HeadIsItsRow(cfg: Config, table: Table, key: Key)
    requires Members(Find(cfg, table), key) != []
    ensures var head := Members(Find(cfg, table), key)[0];
            head.id in table && head == ToEvent(head.id, table[head.id])
  {
    MembersOfGroup(Find(cfg, table), key);
    assert Members(Find(cfg, table), key)[0] in Members(Find(cfg, table), key);
    FoundIsEligible(cfg, table, Members(Find(cfg, table), key)[0]);
  }

  // In every round of every run, the head of an ordered group, if it is due, resolved and committed
  // and its row is still there, is marked sent or pays one unit of its budget; its group goes on
  // just when it was accepted.
  lemma HeadInRun(cfg: Config, states: seq<Sys>, actions: seq<Action>, o: Oracle, j: nat, k: nat, g: nat)
    requires RoundOfRun(cfg, states, actions, o, j, k)
    requires g < |actions[j].keys| && IsOrdered(actions[j].keys[g])
    requires Members(Find(cfg, states[j].table), actions[j].keys[g]) != []
    requires var head := Members(Find(cfg, states[j].table), actions[j].keys[g])[0];
             var s := o(head.id);
             && head.id in states[k].table
             && !head.CanNotRetry(s.checkAt) && s.answer != NotFoundKey && s.Commits()
    ensures var members := Members(Find(cfg, states[j].table), actions[j].keys[g]);
            var id := members[0].id;
            && id in states[j].table && |states[k].workers| == |actions[j].keys|
            && MarkedOrPaid(cfg, o(id), states[j].table[id], states[k].table[id])
            && (o(id).answer == Ack && |members| > 1 <==> |states[k].workers[g].results| > 1)
  {
    var fetched, table, key := states[j + 1], states[j].table, actions[j].keys[g];
    var events := Find(cfg, table);
    var end := RoundEndsInRun(cfg, states, actions, o, j, k);
    HeadIsItsRow(cfg, table, key);
    HeadIsMarkedOrPays(cfg, fetched.round, o, table, fetched.log, events, actions[j].keys,
                       Moves(actions, j + 1, k), end, g);
  }
}
