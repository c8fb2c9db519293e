// How far the backoff bound reaches: exactly as far as the delays fit 64 bits.
module BackoffLimit {
  import opened Options
  import opened Backoff
  import opened Outbox
  import opened Repository
  import opened Polling
  import opened Rounds
  import opened System
  import opened BackoffBound
  import opened Scenarios

  // In every run, a publish after n recorded failures of a row that appeared with count c keeps
  // the bound.
  ghost predicate BoundHolds(cfg: Config, seconds: nat, c: nat, n: nat) {
    forall states: seq<Sys>, actions: seq<Action>, k: int, p: int ::
      Run(cfg, states, actions) && 0 <= k < |states| && PublishAfter(states[k], c, n, p) ==>
        BoundAt(seconds, c, states[k].log, p)
  }

  ghost predicate PublishAfter(s: Sys, c: nat, n: nat, p: int) {
    && 0 <= p < |s.log| && IsPublish(s.log[p])
    && s.log[p].id in s.start && s.start[s.log[p].id] == c
    && Fails(s.log[..p], s.log[p].id) == n
  }

  // The row after n failures from count c.
  function FailedRow(cfg: Config, row: Row, count: nat, at: Time): Row {
    row.(retryCount := Some(count),
    retryAt := Some(at + NextRetryDuration(cfg.retryBackOff, count, cfg.outOfRange)))
  }

  // The earliest reading at which the row is due again.
  function DueAt(cfg: Config, count: nat, now: Time): Time {
    var delay := NextRetryDuration(cfg.retryBackOff, count, cfg.outOfRange);
    if delay > 0 then now + delay else now
  }

  ghost predicate FailedSoFar(cfg: Config, seconds: nat, row: Row, c: nat, n: nat, s: Sys)
    requires n > 0
  {
    && Idle(s) && s.start == map[2 := c]
    && s.table == map[2 := FailedRow(cfg, row, c + n, s.now)]
    && Fails(s.log, 2) == n && FirstFail(s.log, 2) == 0
    && 0 <= s.now <= WaitSum(seconds, c, n - 1) * SECOND
  }

  lemma DueWithinExact(cfg: Config, seconds: nat, c: nat, n: nat, now: Time)
    requires WholeSeconds(cfg, seconds) && n > 0 && 0 <= now <= WaitSum(seconds, c, n - 1) * SECOND
    ensures now <= DueAt(cfg, c + n, now) <= WaitSum(seconds, c, n) * SECOND
    ensures !Fits(cfg.retryBackOff, c + n) ==> DueAt(cfg, c + n, now) < WaitSum(seconds, c, n) * SECOND
  {
    var exact := ExactDelay(cfg.retryBackOff, c + n);
    DelayFallsShort(cfg.retryBackOff, c + n, cfg.outOfRange);
    DelayMonotone(cfg.retryBackOff, c + n, c + n);
    DelayExactForWholeSeconds(seconds, c + n);
    Reorder(seconds, Pow2(c + n));
    WaitSumGrows(seconds, c, n - 1);
    assert c + (n - 1) + 1 == c + n;
    assert WaitSum(seconds, c, n) * SECOND == WaitSum(seconds, c, n - 1) * SECOND + exact;
    if !Fits(cfg.retryBackOff, c + n) {
      DelayBracketsProduct(cfg.retryBackOff, c + n);
      assert exact > 0;
    }
  }

  // A round with one recorded failure of the row.
  lemma FailureCounted(log: seq<Entry>, x: Entry, y: Entry, z: Entry)
    requires x.Fetched? && y.Refused? && z.Failed? && z.id == 2 && z.stored
    ensures Fails(log + [x], 2) == Fails(log, 2)
    ensures Fails(log, 2) > 0 ==> FirstFail(log + [x], 2) == FirstFail(log, 2)
    ensures Fails(log + [x] + [y, z], 2) == Fails(log, 2) + 1
    ensures FirstFail(log + [x] + [y, z], 2) == if Fails(log, 2) > 0 then FirstFail(log, 2) else z.at
  {
    var a, b := log + [x], log + [x] + [y];
    assert a == log + OptSeq(Some(x)) && b == a + OptSeq(Some(y));
    assert a + [y, z] == b + OptSeq(Some(z));
    FailsSnoc(log, Some(x), 2);
    FailsSnoc(a, Some(y), 2);
    FailsSnoc(b, Some(z), 2);
    FirstFailSnoc(log, Some(x), 2);
    FirstFailSnoc(a, Some(y), 2);
    FirstFailSnoc(b, Some(z), 2);
  }

  lemma FailAgain(cfg: Config, seconds: nat, row: Row, c: nat, n: nat, states: seq<Sys>, actions: seq<Action>)
    returns (states': seq<Sys>, actions': seq<Action>)
    requires WholeSeconds(cfg, seconds) && Allowed(cfg.whitelist, cfg.blacklist, cfg.skipEvents, row)
    requires n > 0 && c + n < cfg.maxRetryCount
    requires Run(cfg, states, actions) && FailedSoFar(cfg, seconds, row, c, n, Last(states))
    ensures Run(cfg, states', actions') && FailedSoFar(cfg, seconds, row, c, n + 1, Last(states'))
  {
    var s := Last(states);
    var at := DueAt(cfg, c + n, s.now);
    DueWithinExact(cfg, seconds, c, n, s.now);
    var script := Script(at, Nack, at, at, Committed);
    var more, moreActions := LoneRound(cfg, s, 2, script);
    StepsJoin(cfg, states, actions, more, moreActions);
    states', actions' := Joined(states, more), actions + moreActions;
    OneMoreFailed(cfg, seconds, row, c, n, s, Last(more), script);
  }

  lemma OneMoreFailed(cfg: Config, seconds: nat, row: Row, c: nat, n: nat, s: Sys, t: Sys, script: Script)
    requires n > 0 && FailedSoFar(cfg, seconds, row, c, n, s)
    requires var at := script.checkAt;
             script == Script(at, Nack, at, at, Committed) && 0 <= at <= WaitSum(seconds, c, n) * SECOND
    requires var e := ToEvent(2, s.table[2]);
             && !e.CanNotRetry(script.checkAt) && Idle(t) && t.start == s.start && t.now == script.recordAt
             && t.table == s.table[2 := Effect(cfg, e, script, s.table[2])]
             && t.log == s.log + [Fetched(s.round + 1, s.table)] + PublishOutcome(cfg, s.round + 1, e, script).entries
    ensures FailedSoFar(cfg, seconds, row, c, n + 1, t)
  {
    var at := script.checkAt;
    FailureCounted(s.log, Fetched(s.round + 1, s.table), Refused(s.round + 1, 2, at),
                   Failed(s.round + 1, 2, at, true));
    assert t.table == map[2 := FailedRow(cfg, row, c + n + 1, at)];
  }

  lemma FailFirst(cfg: Config, seconds: nat, row: Row, c: nat) returns (states: seq<Sys>, actions: seq<Action>)
    requires Allowed(cfg.whitelist, cfg.blacklist, cfg.skipEvents, row) && c < cfg.maxRetryCount
    ensures Run(cfg, states, actions) && FailedSoFar(cfg, seconds, row, c, 1, Last(states))
  {
    var table: Table := map[2 := row.(retryCount := Some(c), retryAt := Options.None)];
    states, actions := FirstRound(cfg, table, Script(0, Nack, 0, 0, Committed));
    FailureCounted([], Fetched(1, table), Refused(1, 2, 0), Failed(1, 2, 0, true));
    assert [] + [Fetched(1, table)] == [Fetched(1, table)];
    WaitSumGrows(seconds, c, 0);
    assert Last(states).table == map[2 := FailedRow(cfg, row, c + 1, 0)];
  }

  // A run in which the row fails n times, each time as soon as it is due.
  lemma {:induction false} FailingRun(cfg: Config, seconds: nat, row: Row, c: nat, n: nat)
    returns (states: seq<Sys>, actions: seq<Action>)
    requires WholeSeconds(cfg, seconds) && Allowed(cfg.whitelist, cfg.blacklist, cfg.skipEvents, row)
    requires n > 0 && c + n <= cfg.maxRetryCount
    ensures Run(cfg, states, actions) && FailedSoFar(cfg, seconds, row, c, n, Last(states))
  {
    if n == 1 {
      states, actions := FailFirst(cfg, seconds, row, c);
    } else {
      states, actions := FailingRun(cfg, seconds, row, c, n - 1);
      states, actions := FailAgain(cfg, seconds, row, c, n - 1, states, actions);
    }
  }

  // A run that breaks the bound where the delay does not fit: after n failures the row is published
  // as soon as it is due.
  lemma EarlyPublish(cfg: Config, seconds: nat, row: Row, c: nat, n: nat)
    returns (states: seq<Sys>, actions: seq<Action>, p: nat)
    requires WholeSeconds(cfg, seconds) && Allowed(cfg.whitelist, cfg.blacklist, cfg.skipEvents, row)
    requires n > 0 && c + n < cfg.maxRetryCount && !Fits(cfg.retryBackOff, c + n)
    ensures Run(cfg, states, actions)
    ensures PublishAfter(Last(states), c, n, p) && !BoundAt(seconds, c, Last(states).log, p)
  {
    var before, beforeActions := FailingRun(cfg, seconds, row, c, n);
    var s := Last(before);
    var at := DueAt(cfg, c + n, s.now);
    DueWithinExact(cfg, seconds, c, n, s.now);
    var more, moreActions := LoneRound(cfg, s, 2, Script(at, Ack, at, at, Committed));
    StepsJoin(cfg, before, beforeActions, more, moreActions);
    states, actions, p := Joined(before, more), beforeActions + moreActions, |s.log| + 1;
    var x := Fetched(s.round + 1, s.table);
    FailureCounted(s.log, x, Refused(0, 2, 0), Failed(0, 2, 0, true));
    assert Last(states).log[p] == Accepted(s.round + 1, 2, at);
    assert Last(states).log[..p] == s.log + [x];
  }

  // The bound after n failures holds in every run exactly when the n-th delay fits 64 bits or the
  // budget is spent by then, so that no publish comes after it.
  lemma BoundHoldsIffFits(cfg: Config, seconds: nat, row: Row, c: nat, n: nat)
    requires WholeSeconds(cfg, seconds) && Allowed(cfg.whitelist, cfg.blacklist, cfg.skipEvents, row) && n > 0
    ensures BoundHolds(cfg, seconds, c, n) <==> Fits(cfg.retryBackOff, c + n) || c + n >= cfg.maxRetryCount
  {
    if Fits(cfg.retryBackOff, c + n) || c + n >= cfg.maxRetryCount {
      forall states: seq<Sys>, actions: seq<Action>, k: int, p: int |
        Run(cfg, states, actions) && 0 <= k < |states| && PublishAfter(states[k], c, n, p)
        ensures BoundAt(seconds, c, states[k].log, p)
      {
        BackoffHoldsOverRuns(cfg, seconds, states, actions, k, p);
      }
    } else {
      var states, actions, p := EarlyPublish(cfg, seconds, row, c, n);
      assert Last(states) == states[|states| - 1];
    }
  }
}
