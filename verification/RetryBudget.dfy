// The retry budget over whole runs.
module RetryBudget {
  import opened Options
  import opened Repository
  import opened Grouping
  import opened Polling
  import opened Worker
  import opened Interleaving
  import opened System

  // What a row that first appeared with count c may still fail.
  function Allowance(cfg: Config, c: nat): nat {
    if c < cfg.maxRetryCount then cfg.maxRetryCount - c else 0
  }

  ghost predicate WithinBudget(cfg: Config, s: Sys) {
    forall id :: id in s.start ==> Fails(s.log, id) <= Allowance(cfg, s.start[id])
  }

  // A step records at most one failure, of a row that still had budget.
  lemma StepFails(cfg: Config, s: Sys, a: Action, s': Sys, id: int)
    requires Base(cfg, s) && Step(cfg, s, a, s')
    ensures s.start.Keys <= s'.start.Keys && (id in s.start ==> s'.start[id] == s.start[id])
    ensures Fails(s.log, id) <= Fails(s'.log, id) <= Fails(s.log, id) + 1
    ensures Fails(s'.log, id) > Fails(s.log, id) ==>
              id in s.start && s.start[id] + Fails(s.log, id) < cfg.maxRetryCount
  {
    match a
    case App =>
    case Poll(keys) =>
      var x := Some(Fetched(s'.round, s.table));
      assert s'.log == s.log + OptSeq(x);
      FailsSnoc(s.log, x, id);
    case Work(i, c) =>
      var w := s.workers[i];
      assert WorkerFresh(cfg, s.start, s.log, w);
      FailsSnoc(s.log, MicroStep(cfg, w, c).entry, id);
      FailureReturns(cfg, w, c, id);
  }

  lemma {:induction false} RunStaysWithinBudget(cfg: Config, states: seq<Sys>, actions: seq<Action>, k: nat)
    requires Run(cfg, states, actions) && k < |states|
    ensures Base(cfg, states[k]) && WithinBudget(cfg, states[k])
  {
    RunKeepsBase(cfg, states, actions, k);
    if k > 0 {
      RunStaysWithinBudget(cfg, states, actions, k - 1);
      var s, s' := states[k - 1], states[k];
      forall id | id in s'.start ensures Fails(s'.log, id) <= Allowance(cfg, s'.start[id]) {
        StepFails(cfg, s, actions[k - 1], s', id);
      }
    }
  }

  lemma {:induction false} FailsOnlyGrow(cfg: Config, states: seq<Sys>, actions: seq<Action>, j: nat, k: nat, id: int)
    requires Run(cfg, states, actions) && j <= k < |states|
    ensures states[j].start.Keys <= states[k].start.Keys
    ensures id in states[j].start ==> states[k].start[id] == states[j].start[id]
    ensures Fails(states[j].log, id) <= Fails(states[k].log, id)
    decreases k
  {
    if j < k {
      FailsOnlyGrow(cfg, states, actions, j, k - 1, id);
      RunKeepsBase(cfg, states, actions, k - 1);
      StepFails(cfg, states[k - 1], actions[k - 1], states[k], id);
    }
  }

  // In every run and interleaving: between any two states a stored retry count grows by exactly
  // the failures recorded in between, and a row that appeared at or below the maximum never passes
  // it.
  lemma RetryCountFollowsFailures(cfg: Config, states: seq<Sys>, actions: seq<Action>, j: nat, k: nat, id: int)
    requires Run(cfg, states, actions) && j <= k < |states|
    requires id in states[j].table && id in states[k].table
    ensures Fails(states[j].log, id) <= Fails(states[k].log, id)
    ensures states[k].table[id].RetryCountValue()
         == states[j].table[id].RetryCountValue() + (Fails(states[k].log, id) - Fails(states[j].log, id))
    ensures id in states[j].start && (states[j].start[id] <= cfg.maxRetryCount ==>
              states[k].table[id].RetryCountValue() <= cfg.maxRetryCount)
  {
    FailsOnlyGrow(cfg, states, actions, j, k, id);
    RunStaysWithinBudget(cfg, states, actions, j);
    RunStaysWithinBudget(cfg, states, actions, k);
  }

  // ---- Sums over rows

  function Sum(m: map<int, nat>): nat
    decreases m.Keys
  {
    if m.Keys == {} then 0 else
    var k := Min(m.Keys);
    m[k] + Sum(m - {k})
  }

  lemma {:induction false} SumWithout(m: map<int, nat>, k: int)
    requires k in m
    ensures Sum(m) == m[k] + Sum(m - {k})
    decreases m.Keys
  {
    var p := Min(m.Keys);
    if p != k {
      SumWithout(m - {p}, k);
      SumWithout(m - {k}, p);
      assert m - {p} - {k} == m - {k} - {p};
    }
  }

  lemma SumUpdate(m: map<int, nat>, k: int, v: nat)
    requires k in m
    ensures Sum(m[k := v]) == Sum(m) - m[k] + v
  {
    SumWithout(m, k);
    SumWithout(m[k := v], k);
    assert m[k := v] - {k} == m - {k};
  }

  lemma SplitKey(a: map<int, nat>, b: map<int, nat>, k: int)
    requires a.Keys !! b.Keys && k in a
    ensures k in a + b && (a + b)[k] == a[k]
    ensures (a + b) - {k} == (a - {k}) + b
    ensures (a - {k}).Keys !! b.Keys && (a - {k}).Keys < a.Keys
  {
    assert k !in (a - {k}).Keys;
  }

  lemma {:induction false} SumDisjoint(a: map<int, nat>, b: map<int, nat>)
    requires a.Keys !! b.Keys
    ensures Sum(a + b) == Sum(a) + Sum(b)
    decreases a.Keys
  {
    if a.Keys == {} {
      assert a + b == b;
    } else {
      var k := Min(a.Keys);
      SplitKey(a, b, k);
      SumWithout(a, k);
      SumWithout(a + b, k);
      SumDisjoint(a - {k}, b);
    }
  }

  // All failures ever recorded.
  function TotalFails(log: seq<Entry>): nat {
    if log == [] then 0 else
    var n := |log| - 1;
    TotalFails(log[..n]) + if log[n].Failed? && log[n].stored then 1 else 0
  }

  lemma TotalFailsSnoc(log: seq<Entry>, x: Option<Entry>)
    ensures TotalFails(log + OptSeq(x))
         == TotalFails(log) + if x.Some? && x.value.Failed? && x.value.stored then 1 else 0
  {
    if x.Some? {
      assert (log + [x.value])[..|log|] == log;
    } else {
      assert log + [] == log;
    }
  }

  // The budget all rows seen so far came with, and what is left of it.
  function Granted(cfg: Config, s: Sys): map<int, nat> {
    map id | id in s.start :: Allowance(cfg, s.start[id])
  }

  function LeftOf(cfg: Config, s: Sys): map<int, nat>
    requires WithinBudget(cfg, s)
  {
    map id | id in s.start :: Allowance(cfg, s.start[id]) - Fails(s.log, id)
  }

  // What the rows appearing in an application step bring with them.
  function Brought(cfg: Config, s: Sys, s': Sys): map<int, nat> {
    map id | id in s'.start && id !in s.start :: Allowance(cfg, s'.start[id])
  }

  // The budget left is a measure: a recorded failure takes exactly one from it, the application
  // adds what its new rows bring, and every other step leaves it alone.
  lemma BudgetMeasure(cfg: Config, s: Sys, a: Action, s': Sys)
    requires Base(cfg, s) && WithinBudget(cfg, s) && Step(cfg, s, a, s')
    ensures WithinBudget(cfg, s')
    ensures Sum(LeftOf(cfg, s')) + (TotalFails(s'.log) - TotalFails(s.log))
         == Sum(LeftOf(cfg, s)) + Sum(Brought(cfg, s, s'))
    ensures Sum(Granted(cfg, s')) == Sum(Granted(cfg, s)) + Sum(Brought(cfg, s, s'))
    ensures a != App ==> Brought(cfg, s, s') == map[]
  {
    forall id ensures id in s'.start ==> Fails(s'.log, id) <= Allowance(cfg, s'.start[id]) {
      StepFails(cfg, s, a, s', id);
    }
    match a
    case App => AppBrings(cfg, s, s');
    case Poll(keys) => PollSpendsNothing(cfg, s, keys, s');
    case Work(i, c) => WorkSpends(cfg, s, i, c, s');
  }

  lemma AppBrings(cfg: Config, s: Sys, s': Sys)
    requires WithinBudget(cfg, s) && WithinBudget(cfg, s') && s'.log == s.log
    requires s.start.Keys <= s'.start.Keys && forall id :: id in s.start ==> s'.start[id] == s.start[id]
    requires forall id :: id !in s.start ==> Fails(s.log, id) == 0
    ensures Sum(LeftOf(cfg, s')) == Sum(LeftOf(cfg, s)) + Sum(Brought(cfg, s, s'))
    ensures Sum(Granted(cfg, s')) == Sum(Granted(cfg, s)) + Sum(Brought(cfg, s, s'))
  {
    MapsGrow(LeftOf(cfg, s), Brought(cfg, s, s'), LeftOf(cfg, s'));
    MapsGrow(Granted(cfg, s), Brought(cfg, s, s'), Granted(cfg, s'));
  }

  lemma MapsGrow(a: map<int, nat>, b: map<int, nat>, c: map<int, nat>)
    requires a.Keys !! b.Keys && c.Keys == a.Keys + b.Keys
    requires forall k :: k in c ==> c[k] == if k in a then a[k] else b[k]
    ensures Sum(c) == Sum(a) + Sum(b)
  {
    SameMap(c, a + b);
    SumDisjoint(a, b);
  }

  lemma NothingBrought(cfg: Config, s: Sys, s': Sys)
    requires s'.start == s.start
    ensures Brought(cfg, s, s') == map[] && Sum(Brought(cfg, s, s')) == 0
    ensures Granted(cfg, s') == Granted(cfg, s)
  {
    assert Brought(cfg, s, s').Keys == {};
  }

  lemma PollSpendsNothing(cfg: Config, s: Sys, keys: seq<Key>, s': Sys)
    requires WithinBudget(cfg, s) && PollStep(cfg, s, keys, s') && WithinBudget(cfg, s')
    ensures LeftOf(cfg, s') == LeftOf(cfg, s) && TotalFails(s'.log) == TotalFails(s.log)
    ensures Brought(cfg, s, s') == map[] && Sum(Brought(cfg, s, s')) == 0
  {
    var x := Some(Fetched(s'.round, s.table));
    assert s'.log == s.log + OptSeq(x);
    TotalFailsSnoc(s.log, x);
    NothingBrought(cfg, s, s');
    forall id ensures Fails(s'.log, id) == Fails(s.log, id) {
      FailsSnoc(s.log, x, id);
    }
    SameFailsSameLeft(cfg, s, s');
  }

  lemma SameFailsSameLeft(cfg: Config, s: Sys, s': Sys)
    requires WithinBudget(cfg, s) && WithinBudget(cfg, s') && s'.start == s.start
    requires forall id :: Fails(s'.log, id) == Fails(s.log, id)
    ensures LeftOf(cfg, s') == LeftOf(cfg, s)
  {
    SameMap(LeftOf(cfg, s'), LeftOf(cfg, s));
  }

  lemma WorkSpends(cfg: Config, s: Sys, i: nat, c: Script, s': Sys)
    requires Base(cfg, s) && WithinBudget(cfg, s) && WorkStep(cfg, s, i, c, s') && WithinBudget(cfg, s')
    ensures Sum(LeftOf(cfg, s')) + (TotalFails(s'.log) - TotalFails(s.log)) == Sum(LeftOf(cfg, s))
    ensures Brought(cfg, s, s') == map[] && Sum(Brought(cfg, s, s')) == 0
  {
    NothingBrought(cfg, s, s');
    var w := s.workers[i];
    var x := MicroStep(cfg, w, c).entry;
    var id := w.Current().id;
    assert WorkerFresh(cfg, s.start, s.log, w);
    TotalFailsSnoc(s.log, x);
    StepWritesOwnRow(cfg, w, c);
    forall j ensures Fails(s'.log, j) == Fails(s.log, j) + if x.Some? && IsFailure(x.value, j) then 1 else 0 {
      FailsSnoc(s.log, x, j);
    }
    if x.Some? && IsFailure(x.value, id) {
      OneUnitSpent(cfg, s, s', id);
    } else {
      SameMap(LeftOf(cfg, s'), LeftOf(cfg, s));
    }
  }

  lemma OneUnitSpent(cfg: Config, s: Sys, s': Sys, id: int)
    requires WithinBudget(cfg, s) && WithinBudget(cfg, s') && s'.start == s.start && id in s.start
    requires forall j :: Fails(s'.log, j) == Fails(s.log, j) + if j == id then 1 else 0
    ensures Sum(LeftOf(cfg, s')) + 1 == Sum(LeftOf(cfg, s))
  {
    var left, left' := LeftOf(cfg, s), LeftOf(cfg, s');
    SameMap(left', left[id := left[id] - 1]);
    SumUpdate(left, id, left[id] - 1);
  }

  // Over any run the failures recorded and the budget left add up to the budget granted, so there
  // are never more failures than the rows' maximum minus starting count, summed.
  lemma {:induction false} FailuresNeverExceedBudget(cfg: Config, states: seq<Sys>, actions: seq<Action>, k: nat)
    requires Run(cfg, states, actions) && k < |states|
    ensures WithinBudget(cfg, states[k])
    ensures TotalFails(states[k].log) + Sum(LeftOf(cfg, states[k])) == Sum(Granted(cfg, states[k]))
    ensures TotalFails(states[k].log) <= Sum(Granted(cfg, states[k]))
  {
    RunStaysWithinBudget(cfg, states, actions, k);
    if k == 0 {
      assert LeftOf(cfg, states[0]) == Granted(cfg, states[0]);
    } else {
      FailuresNeverExceedBudget(cfg, states, actions, k - 1);
      RunKeepsBase(cfg, states, actions, k - 1);
      BudgetMeasure(cfg, states[k - 1], actions[k - 1], states[k]);
    }
  }
}
