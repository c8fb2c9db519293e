// Runs that show where a promise ends: a row overtaken in its group, an accepted row left unmarked,
// a marked row published again.
module Scenarios {
  import opened Options
  import opened Outbox
  import opened Repository
  import opened Grouping
  import opened Polling
  import opened Worker
  import opened Rounds
  import opened System
  import opened Ordering
  import opened Provenance

  // ---- Building runs

  ghost predicate Steps(cfg: Config, states: seq<Sys>, actions: seq<Action>) {
    && |states| == |actions| + 1
    && forall k :: 0 <= k < |actions| ==> Step(cfg, states[k], actions[k], states[k + 1])
  }

  function Last(states: seq<Sys>): Sys
    requires states != []
  {
    states[|states| - 1]
  }

  function Joined(states: seq<Sys>, more: seq<Sys>): seq<Sys>
    requires more != []
  {
    states + more[1..]
  }

  lemma StepsJoin(cfg: Config, states: seq<Sys>, actions: seq<Action>, more: seq<Sys>, moreActions: seq<Action>)
    requires Run(cfg, states, actions) && Steps(cfg, more, moreActions) && Last(states) == more[0]
    ensures Run(cfg, Joined(states, more), actions + moreActions)
    ensures Last(Joined(states, more)) == Last(more)
  {
    var link := (s: Sys, a: Action, s': Sys) => Step(cfg, s, a, s');
    LinksJoin(link, states, actions, more, moreActions);
  }

  // Two chains of links, joined where they meet, are a chain.
  lemma LinksJoin<A>(link: (Sys, A, Sys) -> bool, states: seq<Sys>, actions: seq<A>, more: seq<Sys>,
                     moreActions: seq<A>)
    requires |states| == |actions| + 1 && |more| == |moreActions| + 1 && Last(states) == more[0]
    requires forall k :: 0 <= k < |actions| ==> link(states[k], actions[k], states[k + 1])
    requires forall k :: 0 <= k < |moreActions| ==> link(more[k], moreActions[k], more[k + 1])
    ensures var all, allActions := Joined(states, more), actions + moreActions;
            && |all| == |allActions| + 1 && all[0] == states[0] && Last(all) == Last(more)
            && forall k :: 0 <= k < |allActions| ==> link(all[k], allActions[k], all[k + 1])
  {
    var all, allActions, n := Joined(states, more), actions + moreActions, |actions|;
    JoinedAt(states, more, n);
    forall k | 0 <= k < |allActions| ensures link(all[k], allActions[k], all[k + 1]) {
      if k < n {
        assert link(states[k], actions[k], states[k + 1]);
      } else {
        var m := k - n;
        assert link(more[m], moreActions[m], more[m + 1]);
        assert all[n + m] == more[m] && all[n + (m + 1)] == more[m + 1];
      }
    }
  }

  lemma JoinedAt(states: seq<Sys>, more: seq<Sys>, n: nat)
    requires |states| == n + 1 && more != [] && Last(states) == more[0]
    ensures |Joined(states, more)| == n + |more|
    ensures forall k :: 0 <= k <= n ==> Joined(states, more)[k] == states[k]
    ensures forall k :: 0 <= k < |more| ==> Joined(states, more)[n + k] == more[k]
  {
  }

  ghost predicate Idle(s: Sys) {
    forall i :: 0 <= i < |s.workers| ==> !s.workers[i].Live()
  }

  ghost predicate OnlyEligible(cfg: Config, table: Table, id: int) {
    forall i :: i in table && Eligible(cfg, table[i]) <==> i == id
  }

  lemma OnlyEligibleIsFound(cfg: Config, table: Table, id: int)
    requires OnlyEligible(cfg, table, id)
    ensures id in table && Find(cfg, table) == [ToEvent(id, table[id])]
  {
    assert id in table && Eligible(cfg, table[id]);
    assert [ToEvent(id, table[id])][0] == ToEvent(id, table[id]);
    assert Holds([ToEvent(id, table[id])], id);
    LowestEligibleIsUnique(cfg, table, [ToEvent(id, table[id])]);
  }

  lemma OneIsEnumerated(e: EventValue)
    ensures Enumerates([KeyOf(e)], [e])
  {
    assert [e][0] == e && KeyOf(e) in [KeyOf(e)];
  }

  // The goroutine of a group with a single event.
  lemma OneMember(e: EventValue, round: nat) returns (w: Worker)
    ensures w == Worker(round, IsOrdered(KeyOf(e)), [e], Check, [])
    ensures SpawnAll(round, [e], [KeyOf(e)]) == [w]
  {
    w := Worker(round, IsOrdered(KeyOf(e)), [e], Check, []);
    GroupSnoc([], e, KeyOf(e));
    assert [] + [e] == [e];
    assert Group([], KeyOf(e)) == [];
    assert SortById([e]) == [e];
  }

  lemma OneStep(cfg: Config, s: Sys, w: Worker, c: Script, m: Micro) returns (s': Sys)
    requires s.workers == [w] && w.Live() && m == MicroStep(cfg, w, c) && s.now <= Reading(w, c, s.now)
    ensures Step(cfg, s, Work(0, c), s')
    ensures s' == s.(table := ApplyOpt(s.table, m.write), now := Reading(w, c, s.now), workers := [m.worker],
                     log := s.log + OptSeq(m.entry))
  {
    s' := s.(table := ApplyOpt(s.table, m.write), now := Reading(w, c, s.now), workers := [m.worker],
             log := s.log + OptSeq(m.entry));
    assert s.workers[0 := m.worker] == [m.worker];
  }

  lemma OnePoll(cfg: Config, s: Sys, id: int) returns (s': Sys, keys: seq<Key>)
    requires Idle(s) && OnlyEligible(cfg, s.table, id)
    ensures id in s.table && Step(cfg, s, Poll(keys), s')
    ensures var e := ToEvent(id, s.table[id]);
            s' == s.(round := s.round + 1,
                     workers := [Worker(s.round + 1, IsOrdered(KeyOf(e)), [e], Check, [])],
                     log := s.log + [Fetched(s.round + 1, s.table)])
  {
    OnlyEligibleIsFound(cfg, s.table, id);
    var e := ToEvent(id, s.table[id]);
    var w := OneMember(e, s.round + 1);
    OneIsEnumerated(e);
    keys := [KeyOf(e)];
    s' := s.(round := s.round + 1, workers := [w], log := s.log + [Fetched(s.round + 1, s.table)]);
    assert PollStep(cfg, s, keys, s');
  }

  // A round that fetches one row, due and resolved, and runs its call to the end.
  lemma LoneRound(cfg: Config, s: Sys, id: int, c: Script) returns (states: seq<Sys>, actions: seq<Action>)
    requires Idle(s) && OnlyEligible(cfg, s.table, id) && id in s.table
    requires !ToEvent(id, s.table[id]).CanNotRetry(c.checkAt) && c.answer != NotFoundKey
    requires s.now <= c.checkAt <= c.recordAt
    ensures Steps(cfg, states, actions) && states[0] == s
    ensures var e, t := ToEvent(id, s.table[id]), Last(states);
            && Idle(t)
            && t.table == s.table[id := Effect(cfg, e, c, s.table[id])] && t.start == s.start
            && t.now == c.recordAt && t.round == s.round + 1
            && t.log == s.log + [Fetched(s.round + 1, s.table)] + PublishOutcome(cfg, s.round + 1, e, c).entries
  {
    var e := ToEvent(id, s.table[id]);
    var s1, keys := OnePoll(cfg, s, id);
    var s2, s3, s4, answer := LoneCall(cfg, s1, e, c);
    var s5 := LoneEnd(cfg, s4, e, c, answer, s1.log);
    states, actions := FiveSteps(cfg, s, s1, s2, s3, s4, s5, Poll(keys), Work(0, c));
  }

  lemma FiveSteps(cfg: Config, s: Sys, s1: Sys, s2: Sys, s3: Sys, s4: Sys, s5: Sys, poll: Action, work: Action)
    returns (states: seq<Sys>, actions: seq<Action>)
    requires Step(cfg, s, poll, s1) && Step(cfg, s1, work, s2) && Step(cfg, s2, work, s3)
    requires Step(cfg, s3, work, s4) && Step(cfg, s4, work, s5)
    ensures Steps(cfg, states, actions) && states[0] == s && Last(states) == s5
  {
    states, actions := [s, s1, s2, s3, s4, s5], [poll, work, work, work, work];
  }

  // The steps of the only goroutine up to its transaction.
  lemma LoneCall(cfg: Config, s1: Sys, e: EventValue, c: Script)
    returns (s2: Sys, s3: Sys, s4: Sys, answer: Entry)
    requires s1.workers == [Worker(s1.round, IsOrdered(KeyOf(e)), [e], Check, [])]
    requires !e.CanNotRetry(c.checkAt) && c.answer != NotFoundKey && s1.now <= c.checkAt <= c.recordAt
    ensures Step(cfg, s1, Work(0, c), s2) && Step(cfg, s2, Work(0, c), s3) && Step(cfg, s3, Work(0, c), s4)
    ensures answer == AnswerTo(s1.round, e, c)
    ensures s4 == s1.(now := c.recordAt, log := s1.log + [answer],
                      workers := [s1.workers[0].(pc := AtCommit(cfg, e, c))])
  {
    var w := s1.workers[0];
    var w2 := w.(pc := Send(c.checkAt));
    var w3 := w.(pc := Record(c.answer == Ack, c.checkAt));
    answer := AnswerTo(s1.round, e, c);
    s2 := OneStep(cfg, s1, w, c, Micro(w2, Options.None, Options.None));
    assert s2.log == s1.log;
    s3 := OneStep(cfg, s2, w2, c, Micro(w3, Options.None, Some(answer)));
    s4 := OneStep(cfg, s3, w3, c, Micro(w.(pc := AtCommit(cfg, e, c)), Options.None, Options.None));
    assert s4.log == s3.log;
  }

  function AnswerTo(round: nat, e: EventValue, c: Script): Entry {
    if c.answer == Ack then Accepted(round, e.id, c.checkAt) else Refused(round, e.id, c.checkAt)
  }

  function AtCommit(cfg: Config, e: EventValue, c: Script): Pc {
    Commit(c.answer == Ack, AfterCall(cfg, e, c), c.recordAt)
  }

  // Its transaction, with which the round ends.
  lemma LoneEnd(cfg: Config, s: Sys, e: EventValue, c: Script, answer: Entry, log: seq<Entry>) returns (s': Sys)
    requires e.id in s.table && !e.CanNotRetry(c.checkAt) && c.answer != NotFoundKey
    requires s.workers == [Worker(s.round, IsOrdered(KeyOf(e)), [e], AtCommit(cfg, e, c), [])]
    requires answer == AnswerTo(s.round, e, c) && s.log == log + [answer]
    ensures Step(cfg, s, Work(0, c), s') && Idle(s')
    ensures s' == s.(table := s.table[e.id := Effect(cfg, e, c, s.table[e.id])], workers := s'.workers,
                     log := log + PublishOutcome(cfg, s.round, e, c).entries)
  {
    var m := MicroStep(cfg, s.workers[0], c);
    s' := OneStep(cfg, s, s.workers[0], c, m);
    assert PublishOutcome(cfg, s.round, e, c).entries == [answer] + OptSeq(m.entry);
    assert log + [answer] + OptSeq(m.entry) == log + ([answer] + OptSeq(m.entry));
  }

  function Fresh(table: Table): Sys {
    Sys(table, map id | id in table :: table[id].RetryCountValue(), 0, 0, [], [])
  }

  // A run whose only round fetches the row with id 2 and runs its call to the end.
  lemma FirstRound(cfg: Config, table: Table, c: Script) returns (states: seq<Sys>, actions: seq<Action>)
    requires OnlyEligible(cfg, table, 2) && 2 in table && table[2].retryAt.None?
    requires c.answer != NotFoundKey && 0 <= c.checkAt <= c.recordAt
    ensures Run(cfg, states, actions) && states[0].table == table
    ensures var e, t := ToEvent(2, table[2]), Last(states);
            && Idle(t) && t.table == table[2 := Effect(cfg, e, c, table[2])] && t.start == Fresh(table).start
            && t.now == c.recordAt && t.round == 1
            && t.log == [Fetched(1, table)] + PublishOutcome(cfg, 1, e, c).entries
  {
    states, actions := LoneRound(cfg, Fresh(table), 2, c);
    assert Init(states[0]);
    assert [] + [Fetched(1, table)] == [Fetched(1, table)];
  }

  // ---- What the runs show

  // A row that is not eligible at the fetch, because its budget is spent or because a list leaves it
  // out, is overtaken by the next row of its ordered group, though it was never accepted.
  lemma IneligibleIsOvertaken(cfg: Config, left: Row, next: Row) returns (states: seq<Sys>, actions: seq<Action>)
    requires left.aggregateType == next.aggregateType && left.aggregateId == next.aggregateId != ""
    requires !Eligible(cfg, left) && Eligible(cfg, next) && next.retryAt.None?
    ensures Run(cfg, states, actions) && Before(states[0].table, 1, 2)
    ensures states[0].table == map[1 := left, 2 := next]
    ensures Last(states).log == [Fetched(1, states[0].table), Accepted(1, 2, 0), Marked(1, 2, true)]
  {
    var table: Table := map[1 := left, 2 := next];
    states, actions := FirstRound(cfg, table, Script(0, Ack, 0, 0, Committed));
  }

  // A run in which the backend accepts a row and its transaction fails: no step of the round marks
  // the row, which keeps every column.
  lemma AcceptedButNotMarked(cfg: Config, row: Row) returns (states: seq<Sys>, actions: seq<Action>)
    requires Eligible(cfg, row) && row.retryAt.None?
    ensures Run(cfg, states, actions) && states[0].table == Last(states).table == map[2 := row]
    ensures Last(states).log == [Fetched(1, map[2 := row]), Accepted(1, 2, 0), Marked(1, 2, false)]
    ensures !MarkedInRound(cfg, states, actions, |actions|, 1, 2)
  {
    var table: Table := map[2 := row];
    states, actions := FirstRound(cfg, table, Script(0, Ack, 0, 0, CommitFailed));
    assert table[2 := row] == table;
    var p := AcceptedIsMarkedIffStored(cfg, states, actions, |actions|, 1);
    assert p == 2;
  }

  // A run in which a row is accepted and marked sent in one round, and accepted again in the next.
  lemma SentRowIsPublishedAgain(cfg: Config, row: Row) returns (states: seq<Sys>, actions: seq<Action>, k: nat)
    requires Eligible(cfg, row) && row.retryAt.None?
    ensures Run(cfg, states, actions) && k < |states|
    ensures 2 in states[k].table && states[k].table[2].sentAt == Some(0)
    ensures states[k].log == [Fetched(1, map[2 := row]), Accepted(1, 2, 0), Marked(1, 2, true)]
    ensures Last(states).log
         == states[k].log + [Fetched(2, states[k].table), Accepted(2, 2, 0), Marked(2, 2, true)]
  {
    var c := Script(0, Ack, 0, 0, Committed);
    states, actions := FirstRound(cfg, map[2 := row], c);
    k := |actions|;
    var s := states[k];
    var more, moreActions := LoneRound(cfg, s, 2, c);
    StepsJoin(cfg, states, actions, more, moreActions);
    states, actions := Joined(states, more), actions + moreActions;
    assert states[k] == s;
  }
}
