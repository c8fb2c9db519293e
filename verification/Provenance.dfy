// Where the entries of a log come from, over whole runs: rows of a round's fetch, one outcome a
// call, a refusal before every failure.
module Provenance {
  import opened Options
  import opened Repository
  import opened Grouping
  import opened Polling
  import opened Worker
  import opened Interleaving
  import opened Rounds
  import opened System

  // ---- Logs only grow

  lemma {:induction false} LogGrows(cfg: Config, states: seq<Sys>, actions: seq<Action>, j: nat, k: nat)
    requires Run(cfg, states, actions) && j <= k < |states|
    ensures states[j].log <= states[k].log
    decreases k
  {
    if j < k {
      LogGrows(cfg, states, actions, j, k - 1);
      assert Step(cfg, states[k - 1], actions[k - 1], states[k]);
    }
  }

  // Every entry is the last of the log after the step that made it.
  lemma {:induction false} EntryHasStep(cfg: Config, states: seq<Sys>, actions: seq<Action>, k: nat, p: nat)
    returns (j: nat)
    requires Run(cfg, states, actions) && k < |states| && p < |states[k].log|
    ensures j < k && states[j].log == states[k].log[..p] && states[j + 1].log == states[k].log[..p + 1]
    decreases k
  {
    assert Step(cfg, states[k - 1], actions[k - 1], states[k]);
    j := k - 1;
    if p < |states[j].log| {
      var log, log' := states[j].log, states[k].log;
      assert log'[..p] == log[..p] && log'[..p + 1] == log[..p + 1];
      j := EntryHasStep(cfg, states, actions, j, p);
    } else {
      assert states[k].log[..p] == states[j].log && states[k].log[..p + 1] == states[k].log;
    }
  }

  // ---- Entries of a round are about eligible rows of its fetch

  ghost predicate Fetchable(cfg: Config, snapshot: Table, id: int) {
    id in snapshot && Eligible(cfg, snapshot[id])
  }

  ghost predicate EntryFromFetch(cfg: Config, log: seq<Entry>, f: nat, p: nat)
    requires f < |log| && p < |log|
  {
    log[f].Fetched? && !log[p].Fetched? && log[f].round == log[p].round ==>
      Fetchable(cfg, log[f].snapshot, log[p].id)
  }

  ghost predicate EventsFromFetch(cfg: Config, snapshot: Table, w: Worker) {
    forall m :: 0 <= m < |w.events| ==> Fetchable(cfg, snapshot, w.events[m].id)
  }

  ghost predicate FromFetch(cfg: Config, s: Sys) {
    && (forall p :: 0 <= p < |s.log| ==> s.log[p].round <= s.round)
    && (forall f, p :: 0 <= f < |s.log| && 0 <= p < |s.log| ==> EntryFromFetch(cfg, s.log, f, p))
    && (forall f, i :: 0 <= f < |s.log| && 0 <= i < |s.workers| && s.log[f].Fetched? && s.log[f].round == s.round ==>
          EventsFromFetch(cfg, s.log[f].snapshot, s.workers[i]))
  }

  lemma SpawnedFromFetch(cfg: Config, table: Table, round: nat, keys: seq<Key>, i: nat)
    requires i < |keys|
    ensures EventsFromFetch(cfg, table, SpawnAll(round, Find(cfg, table), keys)[i])
  {
    var events := Find(cfg, table);
    var members := Members(events, keys[i]);
    MembersOfGroup(events, keys[i]);
    forall m | 0 <= m < |members| ensures Fetchable(cfg, table, members[m].id) {
      assert members[m] in members;
      FoundIsEligible(cfg, table, members[m]);
    }
  }

  lemma PollKeepsFromFetch(cfg: Config, s: Sys, keys: seq<Key>, s': Sys)
    requires FromFetch(cfg, s) && PollStep(cfg, s, keys, s')
    ensures FromFetch(cfg, s')
  {
    var n := |s.log|;
    forall f, p | 0 <= f < |s'.log| && 0 <= p < |s'.log| ensures EntryFromFetch(cfg, s'.log, f, p) {
      if f < n && p < n {
        assert EntryFromFetch(cfg, s.log, f, p);
      }
    }
    forall f, i | 0 <= f < |s'.log| && 0 <= i < |s'.workers| && s'.log[f].Fetched? && s'.log[f].round == s'.round
      ensures EventsFromFetch(cfg, s'.log[f].snapshot, s'.workers[i])
    {
      assert f == n;
      SpawnedFromFetch(cfg, s.table, s'.round, keys, i);
    }
  }

  lemma WorkKeepsFromFetch(cfg: Config, s: Sys, i: nat, c: Script, s': Sys)
    requires Base(cfg, s) && FromFetch(cfg, s) && WorkStep(cfg, s, i, c, s')
    ensures FromFetch(cfg, s')
  {
    var w := s.workers[i];
    assert WorkerShape(cfg, s, w);
    StepWritesOwnRow(cfg, w, c);
    EntryOfCall(cfg, w, c);
    forall f, p | 0 <= f < |s'.log| && 0 <= p < |s'.log| ensures EntryFromFetch(cfg, s'.log, f, p) {
      if f < |s.log| {
        if p < |s.log| {
          assert EntryFromFetch(cfg, s.log, f, p);
        } else if s.log[f].Fetched? && s.log[f].round == s.round {
          assert EventsFromFetch(cfg, s.log[f].snapshot, w);
        }
      }
    }
    forall f, k | 0 <= f < |s'.log| && 0 <= k < |s'.workers| && s'.log[f].Fetched? && s'.log[f].round == s'.round
      ensures EventsFromFetch(cfg, s'.log[f].snapshot, s'.workers[k])
    {
      assert EventsFromFetch(cfg, s.log[f].snapshot, s.workers[k]);
    }
  }

  // ---- One outcome a call

  // The entry with which a publishEvent call returns.
  predicate IsOutcome(e: Entry) {
    e.Waiting? || e.Unresolved? || e.Marked? || e.Failed?
  }

  predicate SaysAccepted(pc: Pc) {
    (pc.Record? && pc.published) || (pc.Commit? && pc.isOk)
  }

  predicate SaysRefused(pc: Pc) {
    (pc.Record? && !pc.published) || (pc.Commit? && !pc.isOk)
  }

  // How a step's entry stands to the call that makes it.
  lemma EntryOfCall(cfg: Config, w: Worker, c: Script)
    requires w.Live()
    ensures var m := MicroStep(cfg, w, c);
            && (m.entry.Some? ==> !m.entry.value.Fetched? && m.entry.value.round == w.round)
            && (m.worker.results == w.results <==> !(m.entry.Some? && IsOutcome(m.entry.value)))
            && (m.worker.results == w.results ==> m.worker.Live())
            && (m.entry.Some? && m.entry.value.Marked? <==> w.pc.Commit? && w.pc.isOk)
            && (m.entry.Some? && m.entry.value.Failed? <==> w.pc.Commit? && !w.pc.isOk)
            && (m.entry.Some? && m.entry.value.Accepted? <==> w.pc.Send? && c.answer == Ack)
            && (m.worker.results == w.results && SaysAccepted(m.worker.pc) ==>
                  SaysAccepted(w.pc) || (m.entry.Some? && m.entry.value.Accepted?))
            && (m.worker.results == w.results && SaysRefused(m.worker.pc) ==>
                  SaysRefused(w.pc) || (m.entry.Some? && m.entry.value.Refused?))
            && (m.worker.results == w.results && SaysAccepted(w.pc) ==> SaysAccepted(m.worker.pc))
            && (m.entry.Some? && m.entry.value.Accepted? ==> SaysAccepted(m.worker.pc))
            && (m.worker.results != w.results && m.worker.Live() ==> m.worker.pc == Check)
            && (m.worker.results != w.results && m.worker.results[w.Idx()] ==>
                  SaysAccepted(w.pc) && m.entry == Some(Marked(w.round, w.Current().id, true)))
  {
  }

  ghost predicate NoOutcome(log: seq<Entry>, round: nat, id: int) {
    forall p :: 0 <= p < |log| && IsOutcome(log[p]) && log[p].round == round ==> log[p].id != id
  }

  ghost predicate RefusedIn(log: seq<Entry>, round: nat, id: int) {
    exists q :: 0 <= q < |log| && log[q].Refused? && log[q].round == round && log[q].id == id
  }

  // A recorded failure is preceded by a refusal in its round.
  ghost predicate TrueFailure(log: seq<Entry>, p: nat)
    requires p < |log|
  {
    log[p].Failed? ==> RefusedIn(log[..p], log[p].round, log[p].id)
  }

  // No round holds two outcomes of one row.
  ghost predicate OneOutcome(log: seq<Entry>, p: nat, q: nat)
    requires p < |log| && q < |log|
  {
    IsOutcome(log[p]) && IsOutcome(log[q]) && log[p].round == log[q].round && log[p].id == log[q].id ==> p == q
  }

  // A goroutine holds the row as accepted and has not run its transaction yet.
  ghost predicate Pending(s: Sys, round: nat, id: int) {
    exists i :: 0 <= i < |s.workers| && Carries(s.workers[i], round, id)
  }

  predicate Carries(w: Worker, round: nat, id: int) {
    w.Live() && SaysAccepted(w.pc) && w.round == round && w.Current().id == id
  }

  // An acceptance is settled by the entry that says how its transaction ended, or is pending.
  ghost predicate Settled(s: Sys, q: nat)
    requires q < |s.log|
  {
    s.log[q].Accepted? ==> Pending(s, s.log[q].round, s.log[q].id) || MarkedAfter(s.log, q)
  }

  ghost predicate MarkedAfter(log: seq<Entry>, q: nat)
    requires q < |log| && !log[q].Fetched?
  {
    exists p :: q < p < |log| && log[p].Marked? && log[p].round == log[q].round && log[p].id == log[q].id
  }

  ghost predicate CallOpen(log: seq<Entry>, w: Worker) {
    w.Live() ==>
      && (forall m :: |w.results| <= m < |w.events| ==> NoOutcome(log, w.round, w.events[m].id))
      && (SaysRefused(w.pc) ==> RefusedIn(log, w.round, w.Current().id))
  }

  ghost predicate Accounts(s: Sys) {
    && (forall p :: 0 <= p < |s.log| ==> s.log[p].round <= s.round)
    && (forall p, q :: 0 <= p < |s.log| && 0 <= q < |s.log| ==> OneOutcome(s.log, p, q))
    && (forall p :: 0 <= p < |s.log| ==> TrueFailure(s.log, p))
    && (forall q :: 0 <= q < |s.log| ==> Settled(s, q))
    && (forall i :: 0 <= i < |s.workers| ==> CallOpen(s.log, s.workers[i]))
  }

  lemma RefusedStays(log: seq<Entry>, x: Option<Entry>, round: nat, id: int)
    requires RefusedIn(log, round, id)
    ensures RefusedIn(log + OptSeq(x), round, id)
  {
    var q :| 0 <= q < |log| && log[q].Refused? && log[q].round == round && log[q].id == id;
    assert (log + OptSeq(x))[q] == log[q];
  }

  lemma MarkedStays(log: seq<Entry>, x: Option<Entry>, q: nat)
    requires q < |log| && !log[q].Fetched? && MarkedAfter(log, q)
    ensures MarkedAfter(log + OptSeq(x), q)
  {
    var log' := log + OptSeq(x);
    var p :| q < p < |log| && log[p].Marked? && log[p].round == log[q].round && log[p].id == log[q].id;
    assert log'[p] == log[p] && log'[q] == log[q];
  }

  // Appending an entry keeps the pairwise and the backward-looking parts.
  lemma LogStaysAccounted(log: seq<Entry>, x: Entry)
    requires forall p, q :: 0 <= p < |log| && 0 <= q < |log| ==> OneOutcome(log, p, q)
    requires forall p :: 0 <= p < |log| ==> TrueFailure(log, p)
    requires IsOutcome(x) ==> NoOutcome(log, x.round, x.id)
    requires x.Failed? ==> RefusedIn(log, x.round, x.id)
    ensures var log' := log + [x];
            && (forall p, q :: 0 <= p < |log'| && 0 <= q < |log'| ==> OneOutcome(log', p, q))
            && (forall p :: 0 <= p < |log'| ==> TrueFailure(log', p))
  {
    var log', n := log + [x], |log|;
    assert log'[..n] == log;
    forall p, q | 0 <= p < |log'| && 0 <= q < |log'| ensures OneOutcome(log', p, q) {
      if p < n && q < n {
        assert OneOutcome(log, p, q);
      }
    }
    forall p | 0 <= p < |log'| ensures TrueFailure(log', p) {
      if p < n {
        assert log'[..p] == log[..p];
        assert TrueFailure(log, p);
      }
    }
  }

  lemma PollKeepsAccounts(cfg: Config, s: Sys, keys: seq<Key>, s': Sys)
    requires Accounts(s) && PollStep(cfg, s, keys, s')
    ensures Accounts(s')
  {
    var x := Fetched(s'.round, s.table);
    assert s'.log == s.log + [x] == s.log + OptSeq(Some(x));
    LogStaysAccounted(s.log, x);
    forall q | 0 <= q < |s'.log| ensures Settled(s', q) {
      if q < |s.log| && s.log[q].Accepted? {
        assert Settled(s, q) && !Pending(s, s.log[q].round, s.log[q].id);
        MarkedStays(s.log, Some(x), q);
      }
    }
    forall i | 0 <= i < |s'.workers| ensures CallOpen(s'.log, s'.workers[i]) {
      SpawnedIsOpen(s'.log, s'.round, s'.workers[i]);
    }
  }

  lemma SpawnedIsOpen(log: seq<Entry>, round: nat, w: Worker)
    requires forall p :: 0 <= p < |log| && log[p].round >= round ==> log[p].Fetched?
    requires w.round == round && (w.Live() ==> w.pc == Check)
    ensures CallOpen(log, w)
  {
  }

  lemma OwnCallOpen(cfg: Config, s: Sys, i: nat, c: Script, s': Sys)
    requires Base(cfg, s) && WorkStep(cfg, s, i, c, s') && CallOpen(s.log, s.workers[i])
    ensures CallOpen(s'.log, s'.workers[i])
  {
    var w, w' := s.workers[i], s'.workers[i];
    var x := MicroStep(cfg, w, c).entry;
    assert WorkerShape(cfg, s, w);
    StepWritesOwnRow(cfg, w, c);
    EntryOfCall(cfg, w, c);
    if w'.results != w.results {
      StepReturns(cfg, w, c);
    } else if w'.Live() && SaysRefused(w'.pc) {
      if SaysRefused(w.pc) {
        RefusedStays(s.log, x, w.round, w.Current().id);
      } else {
        assert s'.log[|s.log|] == x.value;
      }
    }
  }

  lemma OtherCallOpen(cfg: Config, s: Sys, i: nat, c: Script, s': Sys, k: nat)
    requires Base(cfg, s) && WorkStep(cfg, s, i, c, s') && k < |s.workers| && k != i
    requires CallOpen(s.log, s.workers[k])
    ensures CallOpen(s'.log, s'.workers[k])
  {
    var w := s.workers[k];
    var x := MicroStep(cfg, s.workers[i], c).entry;
    StepWritesOwnRow(cfg, s.workers[i], c);
    OtherGroupsRows(s, i, k);
    if w.Live() && SaysRefused(w.pc) {
      RefusedStays(s.log, x, w.round, w.Current().id);
    }
  }

  // A pending acceptance stays pending until its own goroutine logs how the transaction ended.
  lemma WorkSettles(cfg: Config, s: Sys, i: nat, c: Script, s': Sys, q: nat)
    requires Base(cfg, s) && WorkStep(cfg, s, i, c, s')
    requires q < |s'.log| && (q < |s.log| ==> Settled(s, q))
    ensures Settled(s', q)
  {
    var w := s.workers[i];
    var x := MicroStep(cfg, w, c).entry;
    assert WorkerShape(cfg, s, w);
    StepWritesOwnRow(cfg, w, c);
    EntryOfCall(cfg, w, c);
    if q == |s.log| {
      if x.value.Accepted? {
        assert Carries(s'.workers[i], x.value.round, x.value.id);
      }
    } else if s.log[q].Accepted? {
      var round, id := s.log[q].round, s.log[q].id;
      if Pending(s, round, id) {
        var k :| 0 <= k < |s.workers| && Carries(s.workers[k], round, id);
        if k != i {
          assert Carries(s'.workers[k], round, id);
        } else if w.pc.Commit? {
          assert s'.log[|s.log|] == x.value;
        } else {
          assert Carries(s'.workers[i], round, id);
        }
      } else {
        MarkedStays(s.log, x, q);
      }
    }
  }

  lemma WorkKeepsAccounts(cfg: Config, s: Sys, i: nat, c: Script, s': Sys)
    requires Base(cfg, s) && Accounts(s) && WorkStep(cfg, s, i, c, s')
    ensures Accounts(s')
  {
    var w := s.workers[i];
    var x := MicroStep(cfg, w, c).entry;
    assert WorkerShape(cfg, s, w) && CallOpen(s.log, w);
    StepWritesOwnRow(cfg, w, c);
    EntryOfCall(cfg, w, c);
    if x.Some? {
      LogStaysAccounted(s.log, x.value);
    } else {
      assert s'.log == s.log;
    }
    forall q | 0 <= q < |s'.log| ensures Settled(s', q) {
      WorkSettles(cfg, s, i, c, s', q);
    }
    forall k | 0 <= k < |s'.workers| ensures CallOpen(s'.log, s'.workers[k]) {
      if k == i {
        OwnCallOpen(cfg, s, i, c, s');
      } else {
        OtherCallOpen(cfg, s, i, c, s', k);
      }
    }
  }

  lemma AppKeepsAccounts(s: Sys, s': Sys)
    requires Accounts(s) && s'.log == s.log && s'.workers == s.workers && s'.round == s.round
    ensures Accounts(s')
  {
    forall q | 0 <= q < |s'.log| ensures Settled(s', q) {
      assert Settled(s, q);
      assert s.log[q].Accepted? ==>
               (Pending(s, s.log[q].round, s.log[q].id) ==> Pending(s', s.log[q].round, s.log[q].id));
    }
  }

  lemma {:induction false} RunKeepsProvenance(cfg: Config, states: seq<Sys>, actions: seq<Action>, k: nat)
    requires Run(cfg, states, actions) && k < |states|
    ensures Base(cfg, states[k]) && FromFetch(cfg, states[k]) && Accounts(states[k])
  {
    RunKeepsBase(cfg, states, actions, k);
    if k > 0 {
      RunKeepsProvenance(cfg, states, actions, k - 1);
      var s, s' := states[k - 1], states[k];
      match actions[k - 1]
      case App =>
        AppKeepsAccounts(s, s');
      case Poll(keys) =>
        PollKeepsFromFetch(cfg, s, keys, s');
        PollKeepsAccounts(cfg, s, keys, s');
      case Work(i, c) =>
        WorkKeepsFromFetch(cfg, s, i, c, s');
        WorkKeepsAccounts(cfg, s, i, c, s');
    }
  }

  // ---- The sent mark over runs

  // The step's transaction writes sent_at of the row.
  ghost predicate StoresMark(cfg: Config, s: Sys, a: Action, id: int) {
    && a.Work? && a.i < |s.workers| && s.workers[a.i].Live()
    && var write := MicroStep(cfg, s.workers[a.i], a.c).write;
       write.Some? && write.value.MarkSent? && write.value.id == id
  }

  lemma MarkIsLogged(cfg: Config, s: Sys, a: Action, s': Sys, id: int)
    requires Base(cfg, s) && Step(cfg, s, a, s')
    ensures StoresMark(cfg, s, a, id) <==> s'.log == s.log + [Marked(s.round, id, true)]
  {
    if a.Work? {
      assert WorkerShape(cfg, s, s.workers[a.i]);
      StepWritesOwnRow(cfg, s.workers[a.i], a.c);
      EntryOfCall(cfg, s.workers[a.i], a.c);
      var x := MicroStep(cfg, s.workers[a.i], a.c).entry;
      assert s'.log == s.log + [Marked(s.round, id, true)] <==> x == Some(Marked(s.round, id, true)) by {
        assert s'.log == s.log + OptSeq(x);
        assert s'.log == s.log + [Marked(s.round, id, true)] ==> s'.log[|s.log|] == Marked(s.round, id, true);
      }
    } else if a.Poll? {
      assert s'.log[|s.log|].Fetched?;
    }
  }

  // A row still in the table when its mark is written holds it, with all other columns as they
  // were; no other step changes sent_at of a row that stays.
  ghost predicate MarkHeld(cfg: Config, s: Sys, a: Action, s': Sys, id: int)
    requires id in s.table
  {
    if StoresMark(cfg, s, a, id)
    then id in s'.table && s'.table[id] == s.table[id].(sentAt := Some(a.c.storeAt))
    else id in s'.table ==> s'.table[id].sentAt == s.table[id].sentAt
  }

  lemma MarkIsHeld(cfg: Config, s: Sys, a: Action, s': Sys, id: int)
    requires Step(cfg, s, a, s') && id in s.table
    ensures MarkHeld(cfg, s, a, s', id)
  {
  }

  // The round writes sent_at of the row in some step before state k.
  ghost predicate MarkedInRound(cfg: Config, states: seq<Sys>, actions: seq<Action>, k: nat, round: nat, id: int)
    requires |states| == |actions| + 1 && k < |states|
  {
    exists j :: 0 <= j < k && states[j].round == round && StoresMark(cfg, states[j], actions[j], id)
  }

  // An accepted row whose call has returned has exactly one outcome in that round, the entry at
  // p, and the round writes its sent_at if and only if that entry says its transaction committed.
  // Step by step, a row that stays in the table holds what was written, and only that.
  lemma AcceptedIsMarkedIffStored(cfg: Config, states: seq<Sys>, actions: seq<Action>, k: nat, q: nat)
    returns (p: nat)
    requires Run(cfg, states, actions) && k < |states|
    requires q < |states[k].log| && states[k].log[q].Accepted?
    requires !Pending(states[k], states[k].log[q].round, states[k].log[q].id)
    ensures var log := states[k].log;
            var round, id := log[q].round, log[q].id;
            && q < p < |log| && log[p].Marked? && log[p].round == round && log[p].id == id
            && (forall x :: 0 <= x < |log| && IsOutcome(log[x]) && log[x].round == round && log[x].id == id ==>
                  x == p)
            && (MarkedInRound(cfg, states, actions, k, round, id) <==> log[p].stored)
            && (forall j :: 0 <= j < k && id in states[j].table ==>
                  MarkHeld(cfg, states[j], actions[j], states[j + 1], id))
  {
    RunKeepsProvenance(cfg, states, actions, k);
    var log := states[k].log;
    var round, id := log[q].round, log[q].id;
    forall j | 0 <= j < k && id in states[j].table ensures MarkHeld(cfg, states[j], actions[j], states[j + 1], id) {
      MarkIsHeld(cfg, states[j], actions[j], states[j + 1], id);
    }
    assert Settled(states[k], q);
    p :| q < p < |log| && log[p].Marked? && log[p].round == round && log[p].id == id;
    forall x | 0 <= x < |log| && IsOutcome(log[x]) && log[x].round == round && log[x].id == id ensures x == p {
      assert OneOutcome(log, x, p);
    }
    if log[p].stored {
      StoredMarkHasStep(cfg, states, actions, k, p);
    }
    if j :| 0 <= j < k && states[j].round == round && StoresMark(cfg, states[j], actions[j], id) {
      RunKeepsBase(cfg, states, actions, j);
      MarkIsLogged(cfg, states[j], actions[j], states[j + 1], id);
      LogGrows(cfg, states, actions, j + 1, k);
      assert log[|states[j].log|] == states[j + 1].log[|states[j].log|] == Marked(round, id, true);
    }
  }

  lemma StoredMarkHasStep(cfg: Config, states: seq<Sys>, actions: seq<Action>, k: nat, p: nat)
    requires Run(cfg, states, actions) && k < |states|
    requires p < |states[k].log| && states[k].log[p].Marked? && states[k].log[p].stored
    ensures MarkedInRound(cfg, states, actions, k, states[k].log[p].round, states[k].log[p].id)
  {
    var log := states[k].log;
    var j := EntryHasStep(cfg, states, actions, k, p);
    var s, s' := states[j], states[j + 1];
    RunKeepsBase(cfg, states, actions, j);
    assert s'.log == s.log + [log[p]];
    assert s'.log[|s.log|] == log[p];
    assert Step(cfg, s, actions[j], s');
    assert actions[j].Work?;
    var w, c := s.workers[actions[j].i], actions[j].c;
    assert WorkerShape(cfg, s, w);
    EntryOfCall(cfg, w, c);
    var x := MicroStep(cfg, w, c).entry;
    assert s'.log == s.log + OptSeq(x);
    assert x == Some(log[p]);
    MarkIsLogged(cfg, s, actions[j], s', log[p].id);
  }
}
