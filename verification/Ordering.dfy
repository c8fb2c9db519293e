// Order within a group, and truth of the sent mark, over whole runs.
module Ordering {
  import opened Options
  import opened Outbox
  import opened Repository
  import opened Grouping
  import opened Polling
  import opened Worker
  import opened Interleaving
  import opened Rounds
  import opened System
  import opened Provenance

  // An attempt to hand an event to the publisher.
  predicate IsAttempt(e: Entry) {
    e.Accepted? || e.Refused? || e.Unresolved?
  }

  // In this round the backend has accepted the event.
  ghost predicate AcceptedIn(log: seq<Entry>, round: nat, id: int) {
    exists q :: 0 <= q < |log| && log[q].Accepted? && log[q].round == round && log[q].id == id
  }

  // In this round the backend has accepted the event and, later, its transaction has committed.
  ghost predicate DoneIn(log: seq<Entry>, round: nat, id: int) {
    exists q :: 0 <= q < |log| && log[q] == Marked(round, id, true) && AcceptedIn(log[..q], round, id)
  }

  // Row i comes before row j in the same ordered group.
  ghost predicate Before(snapshot: Table, i: int, j: int) {
    && i in snapshot && j in snapshot && i < j
    && snapshot[i].aggregateType == snapshot[j].aggregateType
    && snapshot[i].aggregateId == snapshot[j].aggregateId != ""
  }

  // ... and was eligible when the round fetched.
  ghost predicate Precedes(cfg: Config, snapshot: Table, i: int, j: int) {
    Before(snapshot, i, j) && Eligible(cfg, snapshot[i])
  }

  // The attempt at p respects the fetch at f, if both belong to one round.
  ghost predicate InOrder(cfg: Config, log: seq<Entry>, f: nat, p: nat)
    requires f < |log| && p < |log|
  {
    log[f].Fetched? && IsAttempt(log[p]) && log[f].round == log[p].round ==>
      forall i :: Precedes(cfg, log[f].snapshot, i, log[p].id) ==> DoneIn(log[..p], log[p].round, i)
  }

  // Entries carry the round of the last fetch before them.
  ghost predicate FetchedIn(log: seq<Entry>, round: nat) {
    exists f :: 0 <= f < |log| && log[f].Fetched? && log[f].round == round
  }

  ghost predicate RoundsGrow(log: seq<Entry>) {
    && (forall q, f :: 0 <= q < f < |log| && log[f].Fetched? ==> log[q].round < log[f].round)
    && (forall p :: 0 <= p < |log| && IsAttempt(log[p]) ==> FetchedIn(log[..p], log[p].round))
  }

  // A sent mark is preceded by an acceptance in its round.
  ghost predicate TrueMark(log: seq<Entry>, p: nat)
    requires p < |log|
  {
    log[p].Marked? ==> AcceptedIn(log[..p], log[p].round, log[p].id)
  }

  // ---- Logs only grow

  lemma AcceptedStays(log: seq<Entry>, x: Option<Entry>, round: nat, id: int)
    requires AcceptedIn(log, round, id)
    ensures AcceptedIn(log + OptSeq(x), round, id)
  {
    var q :| 0 <= q < |log| && log[q].Accepted? && log[q].round == round && log[q].id == id;
    assert (log + OptSeq(x))[q] == log[q];
  }

  lemma DoneStays(log: seq<Entry>, x: Option<Entry>, round: nat, id: int)
    requires DoneIn(log, round, id)
    ensures DoneIn(log + OptSeq(x), round, id)
  {
    var q :| 0 <= q < |log| && log[q] == Marked(round, id, true) && AcceptedIn(log[..q], round, id);
    assert (log + OptSeq(x))[..q] == log[..q];
  }

  // ---- The invariant

  // What a fetch promises about the goroutines it spawned: an eligible predecessor of an event
  // sits before it in the same goroutine.
  ghost predicate Covers(cfg: Config, snapshot: Table, w: Worker) {
    forall m, i :: 0 <= m < |w.events| && Precedes(cfg, snapshot, i, w.events[m].id) ==>
      w.ordered && exists n :: 0 <= n < m && w.events[n].id == i
  }

  ghost predicate CallsDone(log: seq<Entry>, w: Worker) {
    && (forall n :: 0 <= n < |w.results| && n < |w.events| && w.results[n] ==> DoneIn(log, w.round, w.events[n].id))
    && (w.Live() && SaysAccepted(w.pc) ==> AcceptedIn(log, w.round, w.Current().id))
  }

  ghost predicate Ordered(cfg: Config, s: Sys) {
    && (forall f, p :: 0 <= f < |s.log| && 0 <= p < |s.log| ==> InOrder(cfg, s.log, f, p))
    && (forall p :: 0 <= p < |s.log| ==> TrueMark(s.log, p))
    && RoundsGrow(s.log)
    && (forall f :: 0 <= f < |s.log| ==> s.log[f].round <= s.round)
    && (s.workers != [] ==> FetchedIn(s.log, s.round))
    && (forall i, f :: 0 <= i < |s.workers| && 0 <= f < |s.log| && s.log[f].Fetched? && s.log[f].round == s.round ==>
          Covers(cfg, s.log[f].snapshot, s.workers[i]))
    && (forall i :: 0 <= i < |s.workers| ==> CallsDone(s.log, s.workers[i]))
  }

  // ---- A fetch

  // The fetch takes the lowest eligible ids, so a predecessor of a fetched event is fetched too.
  lemma PredecessorIsFetched(cfg: Config, snapshot: Table, e: EventValue, i: int) returns (before: EventValue)
    requires e in Find(cfg, snapshot) && Precedes(cfg, snapshot, i, e.id)
    ensures before in Find(cfg, snapshot) && before.id == i && KeyOf(before) == KeyOf(e)
  {
    var events := Find(cfg, snapshot);
    FindIsLowestEligible(cfg, snapshot);
    var a :| 0 <= a < |events| && events[a] == e;
    assert !Holds(events, i) ==> e.id < i;
    var b :| 0 <= b < |events| && events[b].id == i;
    before := events[b];
  }

  lemma FetchedHasGroupId(cfg: Config, snapshot: Table, e: EventValue)
    requires e in Find(cfg, snapshot)
    ensures e.id in snapshot && KeyOf(e) == Key(snapshot[e.id].aggregateType, snapshot[e.id].aggregateId)
  {
    FoundIsEligible(cfg, snapshot, e);
  }

  lemma PredecessorSitsBefore(cfg: Config, snapshot: Table, key: Key, m: nat, i: int)
    requires m < |Members(Find(cfg, snapshot), key)|
    requires Precedes(cfg, snapshot, i, Members(Find(cfg, snapshot), key)[m].id)
    ensures IsOrdered(key) && exists n :: 0 <= n < m && Members(Find(cfg, snapshot), key)[n].id == i
  {
    var events := Find(cfg, snapshot);
    var members := Members(events, key);
    var e := members[m];
    MembersOfGroup(events, key);
    FindIsLowestEligible(cfg, snapshot);
    assert e in members;
    FetchedHasGroupId(cfg, snapshot, e);
    var before := PredecessorIsFetched(cfg, snapshot, e, i);
    assert before in members;
    var n :| 0 <= n < |members| && members[n] == before;
    assert Ascending(members);
  }

  lemma FetchCovers(cfg: Config, snapshot: Table, round: nat, keys: seq<Key>, k: nat)
    requires k < |keys|
    ensures Covers(cfg, snapshot, SpawnAll(round, Find(cfg, snapshot), keys)[k])
  {
    var w := SpawnAll(round, Find(cfg, snapshot), keys)[k];
    forall m, i | 0 <= m < |w.events| && Precedes(cfg, snapshot, i, w.events[m].id)
      ensures w.ordered && exists n :: 0 <= n < m && w.events[n].id == i
    {
      PredecessorSitsBefore(cfg, snapshot, keys[k], m, i);
    }
  }

  // ---- One more entry

  // Appending an entry keeps all that was true of the log, given what is true of the new entry.
  lemma LogStaysOrdered(cfg: Config, log: seq<Entry>, x: Entry)
    requires forall f, p :: 0 <= f < |log| && 0 <= p < |log| ==> InOrder(cfg, log, f, p)
    requires forall p :: 0 <= p < |log| ==> TrueMark(log, p)
    requires x.Fetched? ==> forall p :: 0 <= p < |log| ==> log[p].round < x.round
    requires IsAttempt(x) ==>
               forall f, i | 0 <= f < |log| && log[f].Fetched? && log[f].round == x.round ::
                 Precedes(cfg, log[f].snapshot, i, x.id) ==> DoneIn(log, x.round, i)
    requires x.Marked? ==> AcceptedIn(log, x.round, x.id)
    ensures var log' := log + [x];
            && (forall f, p :: 0 <= f < |log'| && 0 <= p < |log'| ==> InOrder(cfg, log', f, p))
            && (forall p :: 0 <= p < |log'| ==> TrueMark(log', p))
  {
    var log', n := log + [x], |log|;
    assert log'[..n] == log;
    forall f, p | 0 <= f < |log'| && 0 <= p < |log'| ensures InOrder(cfg, log', f, p) {
      if p < n {
        assert log'[..p] == log[..p];
        if f < n {
          assert InOrder(cfg, log, f, p);
        }
      }
    }
    forall p | 0 <= p < |log'| ensures TrueMark(log', p) {
      if p < n {
        assert log'[..p] == log[..p];
        assert TrueMark(log, p);
      }
    }
  }

  lemma RoundsStayGrowing(log: seq<Entry>, x: Entry)
    requires RoundsGrow(log)
    requires x.Fetched? ==> forall p :: 0 <= p < |log| ==> log[p].round < x.round
    requires IsAttempt(x) ==> FetchedIn(log, x.round)
    ensures RoundsGrow(log + [x])
    ensures x.Fetched? ==> FetchedIn(log + [x], x.round)
    ensures forall r :: FetchedIn(log, r) ==> FetchedIn(log + [x], r)
  {
    var log', n := log + [x], |log|;
    assert log'[n] == x && log'[..n] == log;
    forall p | 0 <= p < |log'| && IsAttempt(log'[p]) ensures FetchedIn(log'[..p], log'[p].round) {
      if p < n {
        assert log'[..p] == log[..p];
      }
    }
    forall r | FetchedIn(log, r) ensures FetchedIn(log', r) {
      var f :| 0 <= f < |log| && log[f].Fetched? && log[f].round == r;
      assert log'[f] == log[f];
    }
  }

  lemma PollKeepsOrdered(cfg: Config, s: Sys, keys: seq<Key>, s': Sys)
    requires Ordered(cfg, s) && PollStep(cfg, s, keys, s')
    ensures Ordered(cfg, s')
  {
    var x := Fetched(s'.round, s.table);
    assert s'.log == s.log + [x];
    LogStaysOrdered(cfg, s.log, x);
    RoundsStayGrowing(s.log, x);
    forall i, f | 0 <= i < |s'.workers| && 0 <= f < |s'.log| && s'.log[f].Fetched? && s'.log[f].round == s'.round
      ensures Covers(cfg, s'.log[f].snapshot, s'.workers[i])
    {
      assert f == |s.log|;
      FetchCovers(cfg, s.table, s'.round, keys, i);
    }
    forall i | 0 <= i < |s'.workers| ensures CallsDone(s'.log, s'.workers[i]) {
      assert s'.workers[i].results == [];
    }
  }

  // The event being attempted has every eligible predecessor behind it, done.
  lemma AttemptIsInOrder(cfg: Config, s: Sys, k: nat, f: nat, i: int)
    requires Base(cfg, s) && Ordered(cfg, s)
    requires k < |s.workers| && s.workers[k].Live()
    requires f < |s.log| && s.log[f].Fetched? && s.log[f].round == s.round
    requires Precedes(cfg, s.log[f].snapshot, i, s.workers[k].Current().id)
    ensures DoneIn(s.log, s.round, i)
  {
    var w := s.workers[k];
    assert WorkerShape(cfg, s, w) && CallsDone(s.log, w);
    assert Covers(cfg, s.log[f].snapshot, w);
    var n :| 0 <= n < |w.results| && w.events[n].id == i;
    assert w.results[n];
  }

  lemma OwnCallsDone(cfg: Config, s: Sys, i: nat, c: Script, s': Sys)
    requires WorkStep(cfg, s, i, c, s') && CallsDone(s.log, s.workers[i])
    ensures CallsDone(s'.log, s'.workers[i])
  {
    var w, w' := s.workers[i], s'.workers[i];
    var x := MicroStep(cfg, w, c).entry;
    EntryOfCall(cfg, w, c);
    StepWritesOwnRow(cfg, w, c);
    if w'.results != w.results {
      StepReturns(cfg, w, c);
    }
    if x.Some? {
      assert s'.log[|s.log|] == x.value && s'.log[..|s.log|] == s.log;
    }
    forall n | 0 <= n < |w'.results| && n < |w'.events| && w'.results[n]
      ensures DoneIn(s'.log, w'.round, w'.events[n].id)
    {
      if n < |w.results| {
        assert w.results[n] == w'.results[n];
        DoneStays(s.log, x, w.round, w.events[n].id);
      }
    }
    if w'.Live() && SaysAccepted(w'.pc) && SaysAccepted(w.pc) {
      AcceptedStays(s.log, x, w.round, w.Current().id);
    }
  }

  lemma OtherCallsDone(log: seq<Entry>, x: Option<Entry>, w: Worker)
    requires CallsDone(log, w)
    ensures CallsDone(log + OptSeq(x), w)
  {
    forall n | 0 <= n < |w.results| && n < |w.events| && w.results[n]
      ensures DoneIn(log + OptSeq(x), w.round, w.events[n].id)
    {
      DoneStays(log, x, w.round, w.events[n].id);
    }
    if w.Live() && SaysAccepted(w.pc) {
      AcceptedStays(log, x, w.round, w.Current().id);
    }
  }

  lemma WorkKeepsOrdered(cfg: Config, s: Sys, i: nat, c: Script, s': Sys)
    requires Base(cfg, s) && Ordered(cfg, s) && WorkStep(cfg, s, i, c, s')
    ensures Ordered(cfg, s')
  {
    var w := s.workers[i];
    var x := MicroStep(cfg, w, c).entry;
    assert WorkerShape(cfg, s, w) && CallsDone(s.log, w);
    EntryOfCall(cfg, w, c);
    StepWritesOwnRow(cfg, w, c);
    if x.Some? {
      forall f, j | 0 <= f < |s.log| && s.log[f].Fetched? && s.log[f].round == x.value.round &&
                    Precedes(cfg, s.log[f].snapshot, j, x.value.id)
        ensures DoneIn(s.log, s.round, j)
      {
        AttemptIsInOrder(cfg, s, i, f, j);
      }
      LogStaysOrdered(cfg, s.log, x.value);
      RoundsStayGrowing(s.log, x.value);
    } else {
      assert s'.log == s.log;
    }
    forall k | 0 <= k < |s'.workers| ensures CallsDone(s'.log, s'.workers[k]) {
      if k == i {
        OwnCallsDone(cfg, s, i, c, s');
      } else {
        OtherCallsDone(s.log, x, s.workers[k]);
      }
    }
    forall k, f | 0 <= k < |s'.workers| && 0 <= f < |s'.log| && s'.log[f].Fetched? && s'.log[f].round == s'.round
      ensures Covers(cfg, s'.log[f].snapshot, s'.workers[k])
    {
      assert s'.log[f] == s.log[f];
      assert Covers(cfg, s.log[f].snapshot, s.workers[k]);
      assert s'.workers[k].events == s.workers[k].events;
    }
  }

  lemma {:induction false} RunStaysOrdered(cfg: Config, states: seq<Sys>, actions: seq<Action>, k: nat)
    requires Run(cfg, states, actions) && k < |states|
    ensures Base(cfg, states[k]) && Ordered(cfg, states[k])
  {
    RunKeepsBase(cfg, states, actions, k);
    if k > 0 {
      RunStaysOrdered(cfg, states, actions, k - 1);
      match actions[k - 1]
      case App =>
      case Poll(keys) => PollKeepsOrdered(cfg, states[k - 1], keys, states[k]);
      case Work(i, c) => WorkKeepsOrdered(cfg, states[k - 1], i, c, states[k]);
    }
  }

  // ---- Main results

  // Between positions f and p, in that round, the row was accepted by the backend and then its
  // transaction committed.
  ghost predicate DoneBetween(log: seq<Entry>, f: nat, p: nat, round: nat, id: int)
    requires p <= |log|
  {
    exists a, b :: f < a < b < p
      && log[a].Accepted? && log[a].round == round && log[a].id == id
      && log[b] == Marked(round, id, true)
  }

  // Whenever the publisher is called for a row, its round has one fetch, earlier in the log, and
  // every eligible predecessor has since been accepted and had its transaction commit.
  lemma PredecessorsAreDone(cfg: Config, states: seq<Sys>, actions: seq<Action>, k: nat, p: nat) returns (f: nat)
    requires Run(cfg, states, actions) && k < |states|
    requires p < |states[k].log| && IsAttempt(states[k].log[p])
    ensures var log := states[k].log;
            var r, j := log[p].round, log[p].id;
            && f < p && log[f].Fetched? && log[f].round == r
            && (forall g :: 0 <= g < |log| && log[g].Fetched? && log[g].round == r ==> g == f)
            && (forall i :: Precedes(cfg, log[f].snapshot, i, j) ==> DoneBetween(log, f, p, r, i))
  {
    RunStaysOrdered(cfg, states, actions, k);
    var log := states[k].log;
    var r, before := log[p].round, log[..p];
    f :| 0 <= f < p && before[f].Fetched? && before[f].round == r;
    forall i | Precedes(cfg, log[f].snapshot, i, log[p].id) ensures DoneBetween(log, f, p, r, i) {
      assert InOrder(cfg, log, f, p);
      var b :| 0 <= b < p && before[b] == Marked(r, i, true) && AcceptedIn(before[..b], r, i);
      var a :| 0 <= a < b && before[..b][a].Accepted? && before[..b][a].round == r && before[..b][a].id == i;
      assert log[a] == before[..b][a] && log[b] == before[b];
      assert f < a;
    }
  }

  // Order in a group, exactly. A row the publisher is called for was eligible at its round's only
  // fetch. Of the lower rows of its ordered group, those that were eligible at that fetch, and no
  // others, have since been accepted in that round and had their transaction commit. Nor has any
  // row that was not in the fetched table, such as one inserted later with a lower id.
  lemma GroupsPublishInOrder(cfg: Config, states: seq<Sys>, actions: seq<Action>, k: nat, p: nat) returns (f: nat)
    requires Run(cfg, states, actions) && k < |states|
    requires p < |states[k].log| && IsAttempt(states[k].log[p])
    ensures var log := states[k].log;
            var r, j := log[p].round, log[p].id;
            && f < p && log[f].Fetched? && log[f].round == r
            && (forall g :: 0 <= g < |log| && log[g].Fetched? && log[g].round == r ==> g == f)
            && Fetchable(cfg, log[f].snapshot, j)
            && (forall i :: Before(log[f].snapshot, i, j) ==>
                  (Eligible(cfg, log[f].snapshot[i]) <==> DoneBetween(log, f, p, r, i)))
            && (forall i :: DoneBetween(log, f, p, r, i) ==> Fetchable(cfg, log[f].snapshot, i))
  {
    f := PredecessorsAreDone(cfg, states, actions, k, p);
    RunKeepsProvenance(cfg, states, actions, k);
    var log := states[k].log;
    assert EntryFromFetch(cfg, log, f, p);
    forall i | DoneBetween(log, f, p, log[p].round, i) ensures Fetchable(cfg, log[f].snapshot, i)
    {
      var a :| f < a < p && log[a].Accepted? && log[a].round == log[p].round && log[a].id == i;
      assert EntryFromFetch(cfg, log, f, a);
    }
    forall i | Before(log[f].snapshot, i, log[p].id) && Eligible(cfg, log[f].snapshot[i])
      ensures DoneBetween(log, f, p, log[p].round, i)
    {
      assert Precedes(cfg, log[f].snapshot, i, log[p].id);
    }
  }

  // Whenever a step of the worker changes sent_at of a row, the log holds an acceptance of that
  // row in the same round.
  lemma NoFalseSentMark(cfg: Config, states: seq<Sys>, actions: seq<Action>, k: nat, id: int)
    requires Run(cfg, states, actions) && k < |actions|
    requires id in states[k].table && id in states[k + 1].table
    requires states[k + 1].table[id].sentAt != states[k].table[id].sentAt
    ensures AcceptedIn(states[k].log, states[k].round, id)
    ensures states[k + 1].log == states[k].log + [Marked(states[k].round, id, true)]
  {
    RunStaysOrdered(cfg, states, actions, k);
    var s, s' := states[k], states[k + 1];
    assert Step(cfg, s, actions[k], s');
    match actions[k]
    case App =>
    case Poll(keys) =>
    case Work(i, c) =>
      assert WorkerShape(cfg, s, s.workers[i]) && CallsDone(s.log, s.workers[i]);
      StepWritesOwnRow(cfg, s.workers[i], c);
  }

  // A row in both tables changes only by the stored mark of an acceptance, or by the recorded
  // failure of a refusal, of that row in that round, and then only in those columns.
  lemma RowChangesAreLogged(cfg: Config, states: seq<Sys>, actions: seq<Action>, k: nat, id: int)
    requires Run(cfg, states, actions) && k < |actions|
    requires id in states[k].table && id in states[k + 1].table
    requires states[k + 1].table[id] != states[k].table[id]
    ensures var before, after := states[k].table[id], states[k + 1].table[id];
            var log, round := states[k].log, states[k].round;
            || (&& after == before.(sentAt := after.sentAt)
                && states[k + 1].log == log + [Marked(round, id, true)]
                && AcceptedIn(log, round, id))
            || (&& after == before.(retryCount := Some(before.RetryCountValue() + 1), retryAt := after.retryAt)
                && RefusedIn(log, round, id)
                && exists at :: states[k + 1].log == log + [Failed(round, id, at, true)])
  {
    RunKeepsProvenance(cfg, states, actions, k);
    RunStaysOrdered(cfg, states, actions, k);
    var s, s' := states[k], states[k + 1];
    assert Step(cfg, s, actions[k], s');
    match actions[k]
    case App =>
    case Poll(keys) =>
    case Work(i, c) =>
      var w := s.workers[i];
      assert WorkerShape(cfg, s, w) && WorkerFresh(cfg, s.start, s.log, w);
      assert CallOpen(s.log, w) && CallsDone(s.log, w);
      StepWritesOwnRow(cfg, w, c);
      assert w.pc.Commit? && id == w.Current().id;
      if !w.pc.isOk {
        assert s'.log == s.log + [Failed(s.round, id, w.pc.at, true)];
      }
  }
}
