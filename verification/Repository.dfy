// pkg/infrastructure/repository/outbox/client.go: which rows a fetch selects, and which columns
// a commit changes.
module Repository {
  import opened Options
  import opened Outbox

  type Positive = n: nat | n > 0 witness 1

  datatype Config = Config(
    maxRetryCount: Positive,
    findEventLimit: Positive,
    retryBackOff: int,
    outOfRange: int,
    whitelist: seq<string>,
    blacklist: seq<string>,
    skipEvents: seq<string>)

  // A row of the outbox table; retry_at, retry_count and sent_at are nullable.
  datatype Row = Row(
    aggregateType: string,
    aggregateId: string,
    event: string,
    payload: string,
    retryAt: Option<Time>,
    retryCount: Option<nat>,
    sentAt: Option<Time>)
  {
    // A null count reads as 0.
    function RetryCountValue(): nat {
      if retryCount.Some? then retryCount.value else 0
    }
  }

  // The rows by primary key.
  type Table = map<int, Row>

  function ToEvent(id: int, row: Row): EventValue {
    EventValue(id, row.aggregateType, row.aggregateId, row.event, row.payload,
               row.retryAt, row.RetryCountValue(), row.sentAt)
  }

  // ---- Conditions, with the three truth values of SQL

  datatype Column = RetryCount | AggregateType | EventName

  datatype Expression =
    | IsNull(column: Column)
    | Lt(column: Column, bound: int)
    | In(column: Column, values: seq<string>)
    | NotIn(column: Column, values: seq<string>)
    | And(all: seq<Expression>)
    | Or(any: seq<Expression>)

  datatype Truth = True | False | Unknown

  datatype Cell = Null | Number(n: int) | Text(s: string)

  function CellOf(row: Row, column: Column): Cell {
    match column
    case RetryCount => if row.retryCount.Some? then Number(row.retryCount.value) else Null
    case AggregateType => Text(row.aggregateType)
    case EventName => Text(row.event)
  }

  function Known(b: bool): Truth {
    if b then True else False
  }

  function Eval(e: Expression, row: Row): Truth
    decreases e, 0
  {
    match e
    case IsNull(c) => Known(CellOf(row, c).Null?)
    case Lt(c, bound) =>
      var cell := CellOf(row, c);
      if cell.Number? then Known(cell.n < bound) else Unknown
    case In(c, vs) =>
      var cell := CellOf(row, c);
      if cell.Text? then Known(cell.s in vs) else Unknown
    case NotIn(c, vs) =>
      var cell := CellOf(row, c);
      if cell.Text? then Known(cell.s !in vs) else Unknown
    case And(es) => EvalAll(es, row)
    case Or(es) => EvalAny(es, row)
  }

  function EvalAll(es: seq<Expression>, row: Row): Truth
    decreases es, 1
  {
    if es == [] then True
    else
      var first, rest := Eval(es[0], row), EvalAll(es[1..], row);
      if first.False? || rest.False? then False
      else if first.True? && rest.True? then True
      else Unknown
  }

  function EvalAny(es: seq<Expression>, row: Row): Truth
    decreases es, 1
  {
    if es == [] then False
    else
      var first, rest := Eval(es[0], row), EvalAny(es[1..], row);
      if first.True? || rest.True? then True
      else if first.False? && rest.False? then False
      else Unknown
  }

  // ---- What the lists and the retry budget mean

  predicate Allowed(whitelist: seq<string>, blacklist: seq<string>, skipEvents: seq<string>, row: Row) {
    && (whitelist == [] || row.aggregateType in whitelist)
    && row.aggregateType !in blacklist
    && row.event !in skipEvents
  }

  predicate HasBudget(maxRetryCount: int, row: Row) {
    row.retryCount.None? || row.retryCount.value < maxRetryCount
  }

  predicate Eligible(cfg: Config, row: Row) {
    && HasBudget(cfg.maxRetryCount, row)
    && Allowed(cfg.whitelist, cfg.blacklist, cfg.skipEvents, row)
  }

  lemma EvalTwo(a: Expression, b: Expression, row: Row)
    ensures Eval(And([a, b]), row).True? <==> Eval(a, row).True? && Eval(b, row).True?
    ensures Eval(Or([a, b]), row).True? <==> Eval(a, row).True? || Eval(b, row).True?
  {
    assert [a, b][1..] == [b];
    assert EvalAll([b], row) == Eval(b, row);
    assert EvalAny([b], row) == Eval(b, row);
  }

  lemma EvalOne(a: Expression, row: Row)
    ensures Eval(And([a]), row).True? <==> Eval(a, row).True?
  {
    assert [a][1..] == [];
    assert Eval(And([a]), row) == EvalAll([a], row);
    assert EvalAll([], row) == True;
  }

  // The optional condition on type and event: nil when all three lists are empty.
  method OutboxTableExpressions(whitelist: seq<string>, blacklist: seq<string>, skipEvents: seq<string>)
    returns (expr: Option<Expression>)
    ensures expr.None? <==> whitelist == [] && blacklist == [] && skipEvents == []
    ensures forall row :: Allowed(whitelist, blacklist, skipEvents, row)
                     <==> (expr.None? || Eval(expr.value, row).True?)
    ensures forall row: Row ::
              (expr.None? || Eval(expr.value, row).True?)
                <==> && (whitelist == [] || row.aggregateType in whitelist)
                     && row.aggregateType !in blacklist
                     && row.event !in skipEvents
  {
    var resourceExpr := [];
    if |whitelist| > 0 {
      resourceExpr := resourceExpr + [In(AggregateType, whitelist)];
    }
    if |blacklist| > 0 {
      resourceExpr := resourceExpr + [NotIn(AggregateType, blacklist)];
    }
    var expressions := None;
    if |resourceExpr| > 0 {
      expressions := Some(And(resourceExpr));
    }
    forall row
      ensures (expressions.None? || Eval(expressions.value, row).True?)
         <==> Allowed(whitelist, blacklist, [], row)
    {
      var listed, unlisted := In(AggregateType, whitelist), NotIn(AggregateType, blacklist);
      EvalOne(listed, row);
      EvalOne(unlisted, row);
      EvalTwo(listed, unlisted, row);
      assert Eval(listed, row) == Known(row.aggregateType in whitelist);
      assert Eval(unlisted, row) == Known(row.aggregateType !in blacklist);
      if whitelist != [] && blacklist != [] {
        assert resourceExpr == [listed, unlisted];
      } else if whitelist != [] {
        assert resourceExpr == [listed];
      } else if blacklist != [] {
        assert resourceExpr == [unlisted];
      }
    }
    if |skipEvents| > 0 {
      var skip := NotIn(EventName, skipEvents);
      if expressions.Some? {
        forall row { EvalTwo(expressions.value, skip, row); }
        return Some(And([expressions.value, skip]));
      } else {
        return Some(skip);
      }
    }
    return expressions;
  }

  // ---- Order by id, limit

  ghost predicate IsLeast(m: int, s: set<int>) {
    m in s && forall x :: x in s ==> m <= x
  }

  lemma Pick<T>(s: set<T>) returns (x: T)
    requires s != {}
    ensures x in s
  {
    x :| x in s;
  }

  lemma {:induction false} MinExists(s: set<int>) returns (least: int)
    requires s != {}
    ensures IsLeast(least, s)
  {
    var m := Pick(s);
    if s == {m} {
      least := m;
    } else {
      var n := MinExists(s - {m});
      least := if n < m then n else m;
      assert forall x :: x in s ==> x == m || x in s - {m};
    }
  }

  function Min(s: set<int>): (m: int)
    requires s != {}
    ensures m in s && forall x :: x in s ==> m <= x
  {
    assert exists m :: m in s && forall x :: x in s ==> m <= x by {
      var m := MinExists(s);
      assert m in s;
    }
    var m :| m in s && forall x :: x in s ==> m <= x;
    m
  }

  function SortedIds(s: set<int>): (ids: seq<int>)
    ensures forall i, j :: 0 <= i < j < |ids| ==> ids[i] < ids[j]
    ensures forall x :: x in s <==> x in ids
  {
    if s == {} then [] else
    var m := Min(s);
    [m] + SortedIds(s - {m})
  }

  function Take<T>(limit: nat, s: seq<T>): (t: seq<T>)
    ensures forall x :: x in t ==> x in s
  {
    if |s| <= limit then s else s[..limit]
  }

  // SELECT ... WHERE ... ORDER BY id ASC LIMIT ...: the engine's answer.
  function SelectIds(table: Table, conditions: Expression, limit: nat): seq<int> {
    Take(limit, SortedIds(set id | id in table && Eval(conditions, table[id]).True?))
  }

  function ToEvents(ids: seq<int>, table: Table): (es: seq<EventValue>)
    requires forall id :: id in ids ==> id in table
    ensures |es| == |ids|
    ensures forall i :: 0 <= i < |ids| ==> es[i] == ToEvent(ids[i], table[ids[i]])
  {
    seq(|ids|, i requires 0 <= i < |ids| => ToEvent(ids[i], table[ids[i]]))
  }

  // The events one fetch returns.
  function Find(cfg: Config, table: Table): seq<EventValue> {
    var ids := Take(cfg.findEventLimit, SortedIds(set id | id in table && Eligible(cfg, table[id])));
    ToEvents(ids, table)
  }

  // The conditions FindEvents builds select the events Find describes.
  lemma SelectIsFind(cfg: Config, conditions: seq<Expression>, lists: Option<Expression>, table: Table)
    requires conditions == [RetryBudget(cfg)] + (if lists.Some? then [lists.value] else [])
    requires forall row :: Allowed(cfg.whitelist, cfg.blacklist, cfg.skipEvents, row)
                      <==> (lists.None? || Eval(lists.value, row).True?)
    ensures forall id :: id in SelectIds(table, And(conditions), cfg.findEventLimit) ==> id in table
    ensures ToEvents(SelectIds(table, And(conditions), cfg.findEventLimit), table) == Find(cfg, table)
  {
    forall row ensures Eval(And(conditions), row).True? <==> Eligible(cfg, row) {
      EvalTwo(IsNull(RetryCount), Lt(RetryCount, cfg.maxRetryCount), row);
      EvalOne(RetryBudget(cfg), row);
      if lists.Some? {
        EvalTwo(RetryBudget(cfg), lists.value, row);
        assert conditions == [RetryBudget(cfg), lists.value];
      } else {
        assert conditions == [RetryBudget(cfg)];
      }
    }
    assert (set id | id in table && Eval(And(conditions), table[id]).True?)
        == (set id | id in table && Eligible(cfg, table[id]));
  }

  function RetryBudget(cfg: Config): Expression {
    Or([IsNull(RetryCount), Lt(RetryCount, cfg.maxRetryCount)])
  }

  // "The lowest eligible rows, up to the limit", without saying how they are found.
  ghost predicate LowestEligible(cfg: Config, table: Table, es: seq<EventValue>) {
    && Ascending(es)
    && |es| <= cfg.findEventLimit
    && (forall i :: 0 <= i < |es| ==>
          es[i].id in table && Eligible(cfg, table[es[i].id]) && es[i] == ToEvent(es[i].id, table[es[i].id]))
    && (forall id :: id in table && Eligible(cfg, table[id]) && !Holds(es, id) ==>
          |es| == cfg.findEventLimit && forall i :: 0 <= i < |es| ==> es[i].id < id)
  }

  ghost predicate Holds(es: seq<EventValue>, id: int) {
    exists i :: 0 <= i < |es| && es[i].id == id
  }

  // What is left out of a taken prefix lies above it, and the prefix is full.
  lemma TakeKeepsLowest(ids: seq<int>, limit: nat, id: int)
    requires forall i, j :: 0 <= i < j < |ids| ==> ids[i] < ids[j]
    requires id in ids && id !in Take(limit, ids)
    ensures |Take(limit, ids)| == limit
    ensures forall i :: 0 <= i < limit ==> Take(limit, ids)[i] < id
  {
    assert forall i :: 0 <= i < |Take(limit, ids)| ==> ids[i] == Take(limit, ids)[i] && ids[i] in Take(limit, ids);
    var k :| 0 <= k < |ids| && ids[k] == id;
    assert k >= |Take(limit, ids)|;
  }

  function EligibleIds(cfg: Config, table: Table): seq<int> {
    SortedIds(set id | id in table && Eligible(cfg, table[id]))
  }

  // The ids of a fetch are the first of the eligible ids.
  lemma FindTakesIds(cfg: Config, table: Table)
    ensures var ids, es := Take(cfg.findEventLimit, EligibleIds(cfg, table)), Find(cfg, table);
            && |es| == |ids| <= cfg.findEventLimit && ids <= EligibleIds(cfg, table)
            && forall i :: 0 <= i < |es| ==> ids[i] in table && es[i] == ToEvent(ids[i], table[ids[i]])
  {
    var ids := Take(cfg.findEventLimit, EligibleIds(cfg, table));
    assert forall i :: 0 <= i < |ids| ==> ids[i] in ids && ids[i] in EligibleIds(cfg, table);
  }

  lemma FindHoldsEligible(cfg: Config, table: Table, i: nat)
    requires i < |Find(cfg, table)|
    ensures var e := Find(cfg, table)[i];
            e.id in table && Eligible(cfg, table[e.id]) && e == ToEvent(e.id, table[e.id])
  {
    FindTakesIds(cfg, table);
    var ids := Take(cfg.findEventLimit, EligibleIds(cfg, table));
    assert ids[i] in ids && ids[i] in EligibleIds(cfg, table);
  }

  lemma FindLeavesHigher(cfg: Config, table: Table, id: int)
    requires id in table && Eligible(cfg, table[id]) && !Holds(Find(cfg, table), id)
    ensures |Find(cfg, table)| == cfg.findEventLimit
    ensures forall i :: 0 <= i < |Find(cfg, table)| ==> Find(cfg, table)[i].id < id
  {
    FindTakesIds(cfg, table);
    var all, es := EligibleIds(cfg, table), Find(cfg, table);
    var ids := Take(cfg.findEventLimit, all);
    assert forall i :: 0 <= i < |ids| ==> es[i].id == ids[i] && Holds(es, ids[i]);
    assert id in all;
    TakeKeepsLowest(all, cfg.findEventLimit, id);
  }

  lemma FindIsLowestEligible(cfg: Config, table: Table)
    ensures LowestEligible(cfg, table, Find(cfg, table))
  {
    FindTakesIds(cfg, table);
    var es := Find(cfg, table);
    forall i | 0 <= i < |es|
      ensures es[i].id in table && Eligible(cfg, table[es[i].id]) && es[i] == ToEvent(es[i].id, table[es[i].id])
    {
      FindHoldsEligible(cfg, table, i);
    }
    forall id | id in table && Eligible(cfg, table[id]) && !Holds(es, id)
      ensures |es| == cfg.findEventLimit && forall i :: 0 <= i < |es| ==> es[i].id < id
    {
      FindLeavesHigher(cfg, table, id);
    }
  }

  lemma FoundIsEligible(cfg: Config, table: Table, e: EventValue)
    requires e in Find(cfg, table)
    ensures e.id in table && Eligible(cfg, table[e.id]) && e == ToEvent(e.id, table[e.id])
  {
    FindIsLowestEligible(cfg, table);
    var es := Find(cfg, table);
    var i :| 0 <= i < |es| && es[i] == e;
  }

  // The eligible ids below an id.
  function EligibleBelow(cfg: Config, table: Table, id: int): set<int> {
    set i | i in table && i < id && Eligible(cfg, table[i])
  }

  // The ids of the first n events.
  function FirstIds(es: seq<EventValue>, n: nat): set<int>
    requires n <= |es|
  {
    set i | 0 <= i < n :: es[i].id
  }

  lemma {:induction false} FirstIdsCount(es: seq<EventValue>, n: nat)
    requires Ascending(es) && n <= |es|
    ensures |FirstIds(es, n)| == n
  {
    if n > 0 {
      FirstIdsCount(es, n - 1);
      FirstIdsSnoc(es, n - 1);
    }
  }

  lemma FirstIdsSnoc(es: seq<EventValue>, n: nat)
    requires Ascending(es) && n < |es|
    ensures FirstIds(es, n + 1) == FirstIds(es, n) + {es[n].id} && es[n].id !in FirstIds(es, n)
  {
  }

  lemma SubsetCount<T>(a: set<T>, b: set<T>)
    requires a <= b
    ensures |a| <= |b|
  {
    assert b == a + (b - a);
  }

  lemma HeldHasRoom(cfg: Config, table: Table, es: seq<EventValue>, id: int)
    requires LowestEligible(cfg, table, es) && Holds(es, id)
    ensures id in table && Eligible(cfg, table[id]) && |EligibleBelow(cfg, table, id)| < cfg.findEventLimit
  {
    var below := EligibleBelow(cfg, table, id);
    var a :| 0 <= a < |es| && es[a].id == id;
    forall i | i in below ensures i in FirstIds(es, a) {
      assert Holds(es, i);
      var b :| 0 <= b < |es| && es[b].id == i;
    }
    SubsetCount(below, FirstIds(es, a));
    FirstIdsCount(es, a);
  }

  lemma LeftOutHasNoRoom(cfg: Config, table: Table, es: seq<EventValue>, id: int)
    requires LowestEligible(cfg, table, es) && id in table && Eligible(cfg, table[id]) && !Holds(es, id)
    ensures |EligibleBelow(cfg, table, id)| >= cfg.findEventLimit
  {
    assert FirstIds(es, |es|) <= EligibleBelow(cfg, table, id);
    SubsetCount(FirstIds(es, |es|), EligibleBelow(cfg, table, id));
    FirstIdsCount(es, |es|);
  }

  ghost predicate HasRoom(cfg: Config, table: Table, id: int) {
    id in table && Eligible(cfg, table[id]) && |EligibleBelow(cfg, table, id)| < cfg.findEventLimit
  }

  lemma HeldIffRoom(cfg: Config, table: Table, es: seq<EventValue>, id: int)
    requires LowestEligible(cfg, table, es)
    ensures Holds(es, id) <==> HasRoom(cfg, table, id)
  {
    if Holds(es, id) {
      HeldHasRoom(cfg, table, es, id);
    } else if id in table && Eligible(cfg, table[id]) {
      LeftOutHasNoRoom(cfg, table, es, id);
    }
  }

  // A row is fetched exactly when it is eligible and fewer eligible rows than the limit lie below
  // it. Rows marked sent stay eligible, so enough of them shut out every higher id.
  lemma FetchedIffRoomBelow(cfg: Config, table: Table, id: int)
    ensures Holds(Find(cfg, table), id)
       <==> id in table && Eligible(cfg, table[id]) && |EligibleBelow(cfg, table, id)| < cfg.findEventLimit
  {
    FindIsLowestEligible(cfg, table);
    HeldIffRoom(cfg, table, Find(cfg, table), id);
  }

  // A fetched event carries every column of its row, a null count as 0, and its row meets the retry
  // condition and all three lists.
  lemma FetchedByColumns(cfg: Config, table: Table, e: EventValue)
    requires e in Find(cfg, table)
    ensures e.id in table
    ensures var row := table[e.id];
            && e.aggregateType == row.aggregateType && e.aggregateId == row.aggregateId
            && e.event == row.event && e.payload == row.payload
            && e.retryAt == row.retryAt && e.sentAt == row.sentAt
            && e.retryCount == (if row.retryCount.Some? then row.retryCount.value else 0)
    ensures cfg.whitelist == [] || e.aggregateType in cfg.whitelist
    ensures e.aggregateType !in cfg.blacklist && e.event !in cfg.skipEvents
    ensures table[e.id].retryCount.None? || table[e.id].retryCount.value < cfg.maxRetryCount
  {
    FoundIsEligible(cfg, table, e);
  }

  // Exactly the rows with a null count or one below the maximum that the lists let through, and
  // that have fewer such rows than the limit below them, are fetched.
  lemma FetchedExactly(cfg: Config, table: Table, id: int)
    ensures var meets := (row: Row) =>
              && (row.retryCount.None? || row.retryCount.value < cfg.maxRetryCount)
              && (cfg.whitelist == [] || row.aggregateType in cfg.whitelist)
              && row.aggregateType !in cfg.blacklist && row.event !in cfg.skipEvents;
            (exists e :: e in Find(cfg, table) && e.id == id)
              <==> && id in table && meets(table[id])
                   && |set i | i in table && i < id && meets(table[i])| < cfg.findEventLimit
  {
    var meets := (row: Row) =>
      && (row.retryCount.None? || row.retryCount.value < cfg.maxRetryCount)
      && (cfg.whitelist == [] || row.aggregateType in cfg.whitelist)
      && row.aggregateType !in cfg.blacklist && row.event !in cfg.skipEvents;
    assert forall row :: meets(row) <==> Eligible(cfg, row);
    assert EligibleBelow(cfg, table, id) == set i | i in table && i < id && meets(table[i]);
    FetchedIffRoomBelow(cfg, table, id);
    var es := Find(cfg, table);
    if Holds(es, id) {
      var i :| 0 <= i < |es| && es[i].id == id;
      assert es[i] in es;
    }
    if e :| e in es && e.id == id {
      var i :| 0 <= i < |es| && es[i] == e;
    }
  }

  lemma SameMembers(cfg: Config, table: Table, a: seq<EventValue>, b: seq<EventValue>, e: EventValue)
    requires LowestEligible(cfg, table, a) && LowestEligible(cfg, table, b) && e in a
    ensures e in b
  {
    var i :| 0 <= i < |a| && a[i] == e;
    assert Holds(a, e.id);
    HeldIffRoom(cfg, table, a, e.id);
    HeldIffRoom(cfg, table, b, e.id);
    var j :| 0 <= j < |b| && b[j].id == e.id;
    assert b[j] == e;
  }

  // The description of a fetch has one answer.
  lemma LowestEligibleIsUnique(cfg: Config, table: Table, es: seq<EventValue>)
    ensures LowestEligible(cfg, table, es) <==> es == Find(cfg, table)
  {
    FindIsLowestEligible(cfg, table);
    var found := Find(cfg, table);
    if LowestEligible(cfg, table, es) {
      forall e ensures e in es <==> e in found {
        if e in es {
          SameMembers(cfg, table, es, found, e);
        }
        if e in found {
          SameMembers(cfg, table, found, es, e);
        }
      }
      AscendingIsUnique(es, found);
    }
  }

  // Sent rows keep their budget: marking a row sent takes it out of no fetch.
  lemma SentRowsKeepTheirPlace(cfg: Config, table: Table, id: int, at: Time, other: int)
    requires id in table
    ensures Holds(Find(cfg, Apply(table, MarkSent(id, at))), other) <==> Holds(Find(cfg, table), other)
  {
    var table' := Apply(table, MarkSent(id, at));
    FetchedIffRoomBelow(cfg, table, other);
    FetchedIffRoomBelow(cfg, table', other);
    assert table'.Keys == table.Keys;
    assert forall i :: i in table ==> (Eligible(cfg, table'[i]) <==> Eligible(cfg, table[i]));
    SameEligibleBelow(cfg, table, table', other);
  }

  lemma SameEligibleBelow(cfg: Config, a: Table, b: Table, id: int)
    requires a.Keys == b.Keys && forall i :: i in a ==> (Eligible(cfg, b[i]) <==> Eligible(cfg, a[i]))
    ensures EligibleBelow(cfg, b, id) == EligibleBelow(cfg, a, id)
  {
  }

  // Two tables with the same rows.
  lemma SameMap<K, V>(a: map<K, V>, b: map<K, V>)
    requires a.Keys == b.Keys && forall k :: k in a ==> a[k] == b[k]
    ensures a == b
  {
  }

  // ---- Writes

  // What one committed transaction stores.
  datatype Write = MarkSent(id: int, at: Time) | SaveRetry(id: int, count: nat, retryAt: Time)

  // An update by primary key; without such a row it changes nothing and is no error.
  function Apply(table: Table, w: Write): Table {
    if w.id !in table then table
    else table[w.id := Updated(table[w.id], w)]
  }

  function Updated(row: Row, w: Write): Row {
    match w
    case MarkSent(_, at) => row.(sentAt := Some(at))
    case SaveRetry(_, count, at) => row.(retryCount := Some(count), retryAt := Some(at))
  }

  // Where a transaction can fail; every failure leaves it rolled back.
  datatype TxOutcome = Committed | BeginFailed | ExecFailed | CommitFailed

  class Client {
    const cfg: Config
    var table: Table

    constructor (cfg: Config, table: Table)
      ensures this.cfg == cfg && this.table == table
    {
      this.cfg, this.table := cfg, table;
    }

    // "fault": the query could not be built or run.
    method FindEvents(fault: bool) returns (results: seq<Event>, err: bool)
      ensures err == fault
      ensures fault ==> results == []
      ensures forall e :: e in results ==> fresh(e)
      ensures forall i, j :: 0 <= i < j < |results| ==> results[i] != results[j]
      ensures !fault ==> Values(results) == Find(cfg, table)
      ensures forall e :: e in results ==>
                && e.id in table
                && var row := table[e.id];
                   && e.aggregateType == row.aggregateType && e.aggregateId == row.aggregateId
                   && e.event == row.event && e.payload == row.payload
                   && e.retryAt == row.retryAt && e.sentAt == row.sentAt
                   && e.retryCount == (if row.retryCount.Some? then row.retryCount.value else 0)
    {
      var expressions := [RetryBudget(cfg)];
      var expr := OutboxTableExpressions(cfg.whitelist, cfg.blacklist, cfg.skipEvents);
      if expr.Some? {
        expressions := expressions + [expr.value];
      }
      if fault {
        return [], true;
      }
      var ids := SelectIds(table, And(expressions), cfg.findEventLimit);
      SelectIsFind(cfg, expressions, expr, table);
      results := NewEvents(ToEvents(ids, table));
      err := false;
      forall e | e in results ensures e.Value() in Find(cfg, table) {
        var i :| 0 <= i < |results| && results[i] == e;
        assert Values(results)[i] == e.Value();
      }
      forall v | v in Find(cfg, table) {
        FetchedByColumns(cfg, table, v);
      }
    }

    // One event object a row.
    method NewEvents(values: seq<EventValue>) returns (results: seq<Event>)
      ensures forall e :: e in results ==> fresh(e)
      ensures forall i, j :: 0 <= i < j < |results| ==> results[i] != results[j]
      ensures Values(results) == values
    {
      results := [];
      var idx := 0;
      while idx < |values|
        invariant 0 <= idx <= |values| && |results| == idx
        invariant forall i :: 0 <= i < idx ==> fresh(results[i])
        invariant forall i, j :: 0 <= i < j < idx ==> results[i] != results[j]
        invariant forall i :: 0 <= i < idx ==> results[i].Value() == values[i]
      {
        var event := new Event(values[idx]);
        results := results + [event];
        idx := idx + 1;
      }
    }

    // Retry fields are stored from the event, so a failed publish must have set its retry time.
    method Transaction(isOk: bool, event: Event, now: Time, outcome: TxOutcome) returns (err: bool)
      requires !isOk ==> event.retryAt.Some?
      modifies this`table
      ensures err <==> outcome != Committed
      ensures err ==> table == old(table)
      ensures !err && event.id !in old(table) ==> table == old(table)
      ensures !err && event.id in old(table) && isOk ==>
                table == old(table)[event.id := old(table)[event.id].(sentAt := Some(now))]
      ensures !err && event.id in old(table) && !isOk ==>
                table == old(table)[event.id := old(table)[event.id].(retryCount := Some(event.retryCount),
                                                                      retryAt := event.retryAt)]
    {
      if outcome == BeginFailed {
        return true;
      }
      var snapshot := table;
      if isOk {
        err := TxUpdateSentAtField(event, now, outcome);
      } else {
        err := TxUpdateRetryField(event, outcome);
      }
      if err {
        table := snapshot;
      } else if outcome == CommitFailed {
        table := snapshot;
        err := true;
      }
    }

    method TxUpdateSentAtField(event: Event, now: Time, outcome: TxOutcome) returns (err: bool)
      modifies this`table
      ensures err <==> outcome == ExecFailed
      ensures !err && event.id !in old(table) ==> table == old(table)
      ensures !err && event.id in old(table) ==>
                table == old(table)[event.id := old(table)[event.id].(sentAt := Some(now))]
    {
      if outcome == ExecFailed {
        return true;
      }
      if event.id in table {
        table := table[event.id := table[event.id].(sentAt := Some(now))];
      }
      err := false;
    }

    method TxUpdateRetryField(event: Event, outcome: TxOutcome) returns (err: bool)
      requires event.retryAt.Some?
      modifies this`table
      ensures err <==> outcome == ExecFailed
      ensures !err && event.id !in old(table) ==> table == old(table)
      ensures !err && event.id in old(table) ==>
                table == old(table)[event.id := old(table)[event.id].(retryCount := Some(event.retryCount),
                                                                      retryAt := event.retryAt)]
    {
      if outcome == ExecFailed {
        return true;
      }
      if event.id in table {
        var row := table[event.id];
        table := table[event.id := row.(retryCount := Some(event.retryCount), retryAt := event.retryAt)];
      }
      err := false;
    }
  }
}
