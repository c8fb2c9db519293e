# Outbox worker: a verified model

The outbox worker polls a table of events, publishes each to a message backend and writes the
outcome back. This project models that worker in Dafny and proves what its rounds and runs keep.

The model has four layers.

- **Data and single operations.** `Outbox` (events, retry state, sorting), `Backoff` (the delay
  formula), `Repository` (the table, the fetch and the transactions), `Grouping` (the two-level
  split), `Polling` (one `publishEvent` call with its deferred closure, and the loop over one group).
- **One round.** `Worker` is a group's goroutine as a machine with one observable action a step:
  check whether the event is due, publish, read the clock and update the event, run the
  transaction, then go on or stop. `Interleaving` lets a scheduler pick any live goroutine at each
  step; `Rounds` covers a round from the fetch to the end of both WaitGroups, and the polling loop.
- **Runs.** `System` is the machine of all rounds: the application inserts and deletes rows at any
  point, also in the middle of a round; the worker polls when the last round is over; goroutines
  step with a clock that never goes back. `RetryBudget`, `BackoffBound`, `Provenance`, `Ordering` and
  `HeadOfLine` are invariants of every run. `RoundsInRuns` shows that every round of every run, with
  whatever the application does meanwhile, is a round of `Rounds` on the rows that are still there.
  `Scenarios` and `BackoffLimit` hold runs that show where a promise ends.
- **Two supporting cores.** `ResourceName` and `Dispatch` (recogniser, parser and choice of backend),
  `Topics` (the SNS topic store), `Resources` (the whitelist without the blacklist).

A round is driven by an oracle that fixes, per event, the clock readings, the publisher's answer and
the transaction's ending; a run chooses these anew at every step, and every round of a run has such
an oracle (`RoundHasOracle`).

## Where the code and its documentation differ

"README" below is the worker's own README.md, at the root of its repository.

- README line 46 and line 154 give the retry time as `backoff * 2^retry_count` with the current
  count. `Retry` raises the count first (pkg/domain/outbox/model.go:79-84), so the first delay is
  twice the backoff. The model follows the code.
- README line 213 says only whitelisted topics are sent to. A whitelist wholly inside the blacklist
  leaves an empty list, which drops the condition: every type outside the blacklist is fetched.
  `SubtractingKeepsSelection` and `SubtractingKeepsFetches` say exactly when subtraction is harmless.
- With the default 20s backoff the delay no longer fits 64 bits at the 29th attempt and the next
  retry time lies in the past (`DelayOverflowsIntoThePast`). That takes a `retryCount` above its default
  of 10 (pkg/config/outbox_polling.go:15). `DelayExactIffFits` is the exact boundary.
- README line 35 stops a group at a failed publish to keep its order. Among the lower rows of its group,
  exactly those eligible at the round's fetch are accepted and committed before a row is attempted
  (`GroupsPublishInOrder`). A row whose budget is spent, or that `skipEvents` leaves out, is overtaken
  (`IneligibleIsOvertaken`), and so is a row with a lower id inserted after the fetch.

Not a difference, but worth knowing: README line 51 says rows marked sent are fetched again, and they
are, since the poller never calls `CanPublish`. `SentRowIsPublishedAgain` is such a run. Sent
rows also keep their place in the limit: `findEventLimit` of them left in the table shut out every
higher id (`FetchedIffRoomBelow`). Nothing here claims exactly-once delivery.

## Assumptions

One worker runs. Ids are unique and not used again. `MaxRetryCount` and `FindEventLimit` are at least
1. Retry counts start non-negative. Only the worker writes `retry_at`, `retry_count` and `sent_at`.
Stored values read back exactly. A transaction is applied with no error or rolled back with one.
The whole-run backoff bound further assumes a whole-second backoff; `BoundHoldsIffFits` says exactly
for which failure counts it then holds.

## Model

| member | source | states |
|---|---|---|
| Interleaving.InterleavingsAgree | pkg/service/polling/implement.go:95-146 | Every complete schedule of a round's goroutines ends in the table of running the groups one after another, with the same calls, results and log entries per group. |
| Interleaving.StepKeepsTable | pkg/service/polling/implement.go:125-144 | No step of any goroutine changes the table the round is heading for, as long as no two hold the same row. |
| Interleaving.RoundStepKeeps | pkg/service/polling/implement.go:125-144 | Separation, the accounts of all groups and the final table survive any step. |
| Interleaving.SchedulesAreBounded | pkg/service/polling/implement.go:95-146 | No schedule runs for ever: its length is bounded by the steps the goroutines have left. |
| Worker.StepSplitsRemaining | pkg/service/polling/implement.go:148-234 | The machine refines the sequential call: a step emits the first of what is left of the group's loop and leaves the rest. |
| Worker.SpawnedRemaining | pkg/service/polling/implement.go:127-143 | A fresh goroutine has exactly the sequential loop over its group before it. |
| Worker.StepMakesProgress | pkg/service/polling/implement.go:132-142 | Each step takes a goroutine closer to its end. |
| Rounds.SpawnedSeparate | pkg/service/polling/implement.go:100-144 | No row of a fetch is held by two goroutines. |
| Rounds.CallsOfARound | pkg/service/polling/implement.go:125-144 | In every schedule the calls for a group with an aggregate id are a prefix of its sorted events with all but the last true; the group without an id gets one call per event. |
| Rounds.ExactEffect | pkg/service/polling/implement.go:148-234 | After a round a row differs only by sent_at if it was accepted and committed, or by retry_count and retry_at if refused and committed; unreached, waiting, unresolved and rolled-back rows keep every column. |
| Rounds.SequentialEffect | pkg/service/polling/implement.go:125-144 | Running the groups one after another has that same effect on every row. |
| Rounds.OrderDoesNotMatter | pkg/service/polling/implement.go:101-109 | Neither the order in which the maps are walked nor the schedule shows in the resulting table. |
| Rounds.HeadIsMarkedOrPays | pkg/service/polling/implement.go:125-144 | The head of an ordered group, if due, resolved and committed, is marked sent, or pays one unit of its budget and gets the retry time of the new count; the group goes on exactly if it was accepted. |
| Rounds.SpawnWorkers | pkg/service/polling/implement.go:100-108 | Walking the types in any order starts one goroutine for every (type, id) that occurs, each with its own events. |
| Rounds.SpawnType | pkg/service/polling/implement.go:122-144 | Within a type, one goroutine per aggregate id, sorted when the id is not empty. |
| Rounds.RunToCompletion | pkg/service/polling/implement.go:124-145 | Whatever goroutine moves next, the wait ends, in the table of the sequential run. |
| Rounds.ProcessingEvent | pkg/service/polling/implement.go:95-110 | A whole round has exactly the effect stated for it. |
| Rounds.Processing | pkg/service/polling/implement.go:68-93 | The polling loop applies one round's effect per tick to the table it fetches from; a failed or empty fetch changes nothing. |
| Rounds.CalledIffPredecessorsSucceed | pkg/service/polling/implement.go:132-142 | publishEvent is called for a fetched event exactly if it has no aggregate id or every lower event of its group was due, accepted and committed. |
| Rounds.RoundByColumns | pkg/service/polling/implement.go:95-234 | A round changes a row exactly if it is fetched, reached, due, resolved and committed, and then sent_at alone if accepted, the count and the retry time alone if refused. |
| Rounds.RoundIsAfterRound | pkg/service/polling/implement.go:95-110 | The stated effect determines the table after a round, row by row. |
| Polling.CallByColumns | pkg/service/polling/implement.go:160-206 | A call returns true exactly if due, accepted and committed; a committed call writes only sent_at, or only the count and a retry time counted from the second clock reading with the new count's delay; any other call writes nothing. |
| Polling.OutboxPolling.PublishEvent | pkg/service/polling/implement.go:148-234 | Return value, table, log and event after a call, for a waiting, unresolved, accepted and refused event and either ending of the transaction. |
| Polling.OutboxPolling.Deferred | pkg/service/polling/implement.go:177-207 | The deferred closure: nothing when skipped; otherwise it records the outcome and turns a success into a failure if the transaction fails. |
| Polling.OutboxPolling.GroupWorker | pkg/service/polling/implement.go:127-143 | A goroutine run alone performs the group's calls, on the sorted events when the aggregate id is not empty. |
| Polling.OutboxPolling.PublishInOrder | pkg/service/polling/implement.go:132-142 | The indexed loop with its break makes the calls of the group's run, with their writes and entries. |
| Polling.GroupRunStopsAtFirstFailure | pkg/service/polling/implement.go:132-142 | An ordered group is cut short only by a failed call, and each result is that of its own event's call. |
| RoundsInRuns.RoundHasOracle | pkg/service/polling/implement.go:148-234 | Every round of every run has one: each call reads each clock, answer and ending at most once, so one script per row explains all its steps. |
| RoundsInRuns.RunFollowsSchedule | pkg/service/polling/implement.go:95-146 | Any stretch of a run without a new fetch, application steps included, is a schedule of the round machine: same goroutines, same log, same rows where the application left them in place. |
| RoundsInRuns.RoundInRun | pkg/service/polling/implement.go:68-110 | In every run, whatever is inserted and deleted during a round, each row of the fetched table that is still there ends as the round's effect says, which is also given by columns. |
| RoundsInRuns.LateRowsAreLeftAlone | pkg/service/polling/implement.go:71-82 | A row inserted after a round's fetch is not touched by that round. |
| RoundsInRuns.CallsInRun | pkg/service/polling/implement.go:125-144 | In every round of every run each goroutine makes exactly the calls of its sequential loop, with the same results and entries, and the prefix property holds. |
| RoundsInRuns.HeadInRun | pkg/service/polling/implement.go:125-144 | In every round of every run the head of an ordered group, if due, resolved, committed and still there, is marked sent, or pays one unit of its budget and gets the retry time of the new count; the group goes on exactly if it was accepted. |
| System.RunKeepsBase | pkg/service/polling/implement.go:68-146 | In every run stored counts equal starting count plus recorded failures, goroutines hold separate rows, and events still to be handled match their rows. |
| System.StepKeepsBase | pkg/service/polling/implement.go:68-146 | Every step of the application, the poll and any goroutine keeps that invariant. |
| RetryBudget.RetryCountFollowsFailures | pkg/infrastructure/repository/outbox/client.go:193-207 | Between any two states of a run a stored count grows by exactly the failures recorded in between, and never passes the maximum if it started at or below it. |
| RetryBudget.RunStaysWithinBudget | pkg/infrastructure/repository/outbox/client.go:81-86 | In every run a row's recorded failures stay within the maximum minus its starting count. |
| RetryBudget.BudgetMeasure | pkg/service/polling/implement.go:183-206 | The summed budget is a decreasing measure: one unit per recorded failure, raised only by rows the application brings. |
| RetryBudget.FailuresNeverExceedBudget | pkg/service/polling/implement.go:183-206 | Over any run recorded failures and remaining budget add up to the budget granted. |
| BackoffBound.BackoffHoldsOverRuns | pkg/service/polling/implement.go:160-206 | After its n-th recorded failure a row is not published before t1 + b * (2^(n+1) - 2) seconds (and the corresponding bound for a row starting at another count) if its n-th delay fits 64 bits, whatever lies in between. |
| BackoffLimit.BoundHoldsIffFits | pkg/domain/outbox/utils.go:10-12 | For every starting count c and every n the bound holds in all runs if and only if the n-th delay fits 64 bits or the budget is spent by then. |
| BackoffLimit.EarlyPublish | pkg/domain/outbox/utils.go:10-12 | Where the n-th delay does not fit, a run in which the row is published before the bound. |
| BackoffBound.FailureSpaces | pkg/domain/outbox/model.go:67-84 | One recorded failure of a due event moves its retry time to the next bound, if its delay fits. |
| BackoffBound.DelayInRun | pkg/domain/outbox/utils.go:8-12 | With a whole-second backoff a fitting stored delay is exactly backoff * 2^attempt. |
| Ordering.GroupsPublishInOrder | pkg/service/polling/implement.go:125-143 | When the publisher is called for a row, that row was eligible at its round's only fetch, and a lower row of its ordered group has since, in that round, been accepted and then committed if and only if it was eligible at that fetch; a row not in the fetched table never has. |
| Ordering.NoFalseSentMark | pkg/service/polling/implement.go:177-209 | sent_at changes only in a step that logs a stored mark, after an acceptance of that row in the same round. |
| Ordering.RowChangesAreLogged | pkg/infrastructure/repository/outbox/client.go:126-218 | In any step of a run a surviving row changes only by the logged mark of a row accepted in that round, or by the logged failure of a row refused in that round, and in those columns. |
| Ordering.FetchCovers | pkg/infrastructure/repository/outbox/client.go:91-96 | Ordering and limit keep predecessors: an eligible lower row of a fetched event's group is fetched and sits before it in the same goroutine. |
| Ordering.RunStaysOrdered | pkg/service/polling/implement.go:125-206 | The ordering invariant, true marks and growing round numbers hold in every state of every run. |
| Provenance.RunKeepsProvenance | pkg/service/polling/implement.go:125-234 | In every run a round's entries are about eligible rows of its fetch, no row has two outcomes in a round, a recorded failure follows a refusal of its round, and an acceptance is pending or followed by the entry of its transaction. |
| Provenance.AcceptedIsMarkedIffStored | pkg/service/polling/implement.go:202-206 | In every run an accepted row whose call has returned has one outcome in that round, and the round writes its sent_at if and only if that outcome says the transaction committed; a row still in the table at that step then holds the mark, and no other step changes sent_at of a row that stays. |
| Scenarios.AcceptedButNotMarked | pkg/service/polling/implement.go:202-206 | The converse of the sent mark fails: a run in which an accepted row is marked in no step of the round and keeps every column. |
| Scenarios.IneligibleIsOvertaken | pkg/infrastructure/repository/outbox/client.go:81-89 | A run in which a row that is not eligible, for whatever reason, is overtaken by the next row of its ordered group without having been accepted. |
| Scenarios.SentRowIsPublishedAgain | pkg/infrastructure/repository/outbox/client.go:81-96 | A run in which a row is accepted and marked sent in one round, and accepted again in the next. |
| HeadOfLine.ReportedMaximumEndsFetching | pkg/service/polling/implement.go:186-194 | In every run a recorded failure reports the maximum reached exactly when its row is left without budget, and then no later fetch returns the row. |
| HeadOfLine.HeadIsRefusedAtMost | pkg/service/polling/implement.go:133-142 | In every run a row's refusals are its recorded failures, its rolled-back ones and the one in flight, and are at most its allowance plus its rolled-back ones; so with its own transactions committing it stops its group at most MaxRetryCount times. |
| HeadOfLine.SpentRowsLeaveTheFetch | pkg/infrastructure/repository/outbox/client.go:82-85 | In every run a row has budget left exactly while its recorded failures are below its allowance, and a spent row is not fetched. |
| HeadOfLine.HeadIsLowestEligible | pkg/infrastructure/repository/outbox/client.go:91-96 | The head of an ordered group in a fetch is the lowest eligible row of that group. |
| Repository.OutboxTableExpressions | pkg/infrastructure/repository/outbox/client.go:220-244 | For every combination of lists the condition built, also the nil one, evaluates in SQL's three-valued logic to true exactly on rows of a whitelisted type, or any with no whitelist, that are not of a blacklisted type and not a skipped event. |
| Repository.SelectIsFind | pkg/infrastructure/repository/outbox/client.go:81-96 | Together with the retry condition it selects the rows with budget left that the lists allow. |
| Repository.FindIsLowestEligible | pkg/infrastructure/repository/outbox/client.go:91-96 | A fetch ascends, holds eligible rows only, and leaves an eligible row out only if it is full and all it holds are lower. |
| Repository.FetchedByColumns | pkg/infrastructure/repository/outbox/client.go:108-122 | A fetched event carries each column of its row, a null count as 0, and its row meets the retry condition, the whitelist, the blacklist and the skipped events. |
| Repository.FetchedExactly | pkg/infrastructure/repository/outbox/client.go:81-96 | The rows fetched are exactly those with a null count or one below the maximum that all three lists let through and that have fewer such rows than the limit below them. |
| Repository.FetchedIffRoomBelow | pkg/infrastructure/repository/outbox/client.go:91-96 | A row is fetched if and only if it is eligible and fewer eligible rows than the limit have a lower id. |
| Repository.SentRowsKeepTheirPlace | pkg/infrastructure/repository/outbox/client.go:81-96 | Marking a row sent changes no row's place in the fetch. |
| Repository.LowestEligibleIsUnique | pkg/infrastructure/repository/outbox/client.go:91-96 | That description has exactly one answer, the fetch. |
| Repository.Client.FindEvents | pkg/infrastructure/repository/outbox/client.go:72-124 | Returns fresh, distinct events of exactly the rows fetched, each with every column of its row, or nothing with an error. |
| Repository.Client.NewEvents | pkg/infrastructure/repository/outbox/client.go:108-122 | One fresh event object per row, in order. |
| Repository.Client.Transaction | pkg/infrastructure/repository/outbox/client.go:126-154 | Applied with no error or rolled back with one; which write is applied depends on isOk. |
| Repository.Client.TxUpdateSentAtField | pkg/infrastructure/repository/outbox/client.go:156-185 | Sets sent_at of that id alone; no such row is no error. |
| Repository.Client.TxUpdateRetryField | pkg/infrastructure/repository/outbox/client.go:187-218 | Sets retry_count and retry_at of that id alone; no such row is no error. |
| Grouping.EventToGroupingByAggregateType | pkg/service/polling/utils.go:7-13 | The map holds the types that occur, each with the events of that type. |
| Grouping.EventToGroupingAggregateId | pkg/service/polling/utils.go:15-21 | The map holds the ids that occur, each with the events of that id. |
| Grouping.GroupKeepsOrder | pkg/service/polling/utils.go:7-21 | A group of both splits is the input filtered by its key: increasing positions, none left out. |
| Grouping.GroupMembers | pkg/service/polling/utils.go:7-21 | A group holds exactly the events of its type and id. |
| Grouping.GroupingConserves | pkg/service/polling/implement.go:100-125 | The groups together are a permutation of the fetch, and each event is in exactly one of them. |
| Grouping.GroupAscends | pkg/service/polling/utils.go:15-21 | A group of an ascending fetch ascends. |
| Grouping.SortingAGroupChangesNothing | pkg/service/polling/implement.go:129-131 | Sorting a group of an ascending fetch leaves it as it is. |
| Outbox.SortByID | pkg/domain/outbox/model.go:88-92 | Sorts the slice in place: ascending ids and a permutation of the objects given. |
| Outbox.SortedEventsAreSortById | pkg/domain/outbox/model.go:88-92 | With distinct ids any such result is the reference sort of the values given. |
| Outbox.SortByIdOfDistinct | pkg/domain/outbox/model.go:88-92 | With distinct ids there is exactly one ascending permutation, the reference sort. |
| Outbox.AscendingIsUnique | pkg/domain/outbox/model.go:88-92 | Two strictly ascending lists with the same members are equal. |
| Outbox.Event.Retry | pkg/domain/outbox/model.go:79-84 | The count goes up by one and the retry time counts the delay of the new count from the clock. |
| Outbox.Event.SetSentAt | pkg/domain/outbox/model.go:75-77 | Changes sent_at alone. |
| Outbox.Event.IncrementToRetryCount | pkg/domain/outbox/model.go:59-61 | Raises the count alone, by one. |
| Backoff.DelayBracketsProduct | pkg/domain/outbox/utils.go:8-12 | The delay is a whole number of seconds, at most backoff * 2^attempt and less than a second below it. |
| Backoff.DelayIsUnique | pkg/domain/outbox/utils.go:8-12 | No other whole number of seconds lies there. |
| Backoff.DelayDoubles | pkg/domain/outbox/utils.go:8-12 | One more attempt waits at least twice as long. |
| Backoff.DelayMonotone | pkg/domain/outbox/utils.go:8-12 | The delay is non-negative and never falls with the attempt. |
| Backoff.DelayExactForWholeSeconds | pkg/domain/outbox/utils.go:8-12 | A whole-second backoff loses nothing to truncation. |
| Backoff.DelayExactIffFits | pkg/domain/outbox/utils.go:11 | The 64-bit result is the exact delay if and only if the product stays below 9223372037 seconds, whatever an out-of-range conversion yields. |
| Backoff.DelayWraps | pkg/domain/outbox/utils.go:11 | While the conversion to an integer is in range, the 64-bit result is the exact delay wrapped around. |
| Backoff.DelayFallsShort | pkg/domain/outbox/utils.go:11 | The 64-bit delay is never longer than the exact one, and shorter exactly where the product does not fit. |
| Backoff.FitsBelow | pkg/domain/outbox/utils.go:11 | If one attempt fits, all earlier ones do. |
| Backoff.DelayOverflowsIntoThePast | pkg/domain/outbox/utils.go:11 | With a 20s backoff the 29th attempt does not fit and its delay is negative. |
| ResourceName.IsRNIffParses | pkg/internal/rn/rn.go:25-45 | For every string the recogniser accepts exactly if the parser gives no error. |
| ResourceName.SplitLength | pkg/internal/rn/rn.go:29-32 | The number of sections is the delimiter count plus one, up to the limit. |
| ResourceName.SplitJoins | pkg/internal/rn/rn.go:29 | Sections rejoin to the string, and all but the last are free of delimiters. |
| ResourceName.JoinSplits | pkg/internal/rn/rn.go:29 | Joined sections, all but the last free of delimiters, split back. |
| ResourceName.ParseOfJoined | pkg/internal/rn/rn.go:25-37 | "rn" or "arn", four delimiter-free sections and any resource, joined, parse to the third and sixth section. |
| ResourceName.ParsedIsJoined | pkg/internal/rn/rn.go:25-37 | Every accepted string is such a join. |
| ResourceName.SectionsParse | pkg/internal/rn/rn.go:25-37 | prefix:partition:service:region:account:resource, with prefix "rn" or "arn", parses to that service and that resource. |
| ResourceName.ParsedHasSections | pkg/internal/rn/rn.go:25-37 | Whatever parses is of that form. |
| Dispatch.Service.Choose | pkg/service/publisher.go:38-47 | For prefix:partition:service:region:account:resource the backend registered under that service, else the default; for any other string the default. A failed parse is never looked up although its error is dropped. |
| Topics.KeyOfType | pkg/service/backend/aws/aws_sns.go:61-66 | The key is the resource of a resource name that has one, and otherwise the type as it stands. |
| Topics.AwsSNS.Resolve | pkg/service/backend/aws/aws_sns.go:61-70 | The target is the ARN stored under the parsed resource if there is a non-empty one, and under the type itself otherwise, or not found; in a faithful store it has the resource asked for. |
| Topics.AwsSNS.FindBackendResources | pkg/service/backend/aws/aws_sns.go:117-162 | One page stores the readable topics before the first malformed ARN, and fails exactly if listing failed or one is malformed. |
| Topics.AwsSNS.FindResources | pkg/service/backend/aws/aws_sns.go:96-115 | The token loop stores page after page up to the first failure, and fails exactly if a page does. |
| Topics.AwsSNS.StoreInfo | pkg/service/backend/aws/aws_sns.go:143-159 | A deduplication id is set exactly for FIFO topics with content-based deduplication present and off. |
| Topics.LearnAllKeeps | pkg/service/backend/aws/aws_sns.go:125-160 | A listing keeps every key the resource of the ARN under it and loses no key. |
| Topics.LearnPagesKeeps | pkg/service/backend/aws/aws_sns.go:96-115 | So do all pages of a fetch, also of one that fails. |
| Topics.ListedIsFound | pkg/service/backend/aws/aws_sns.go:96-162 | A readable topic listed before any failure is in the store after the fetch, under its resource. |
| Topics.LastReadableWins | pkg/service/backend/aws/aws_sns.go:143-159 | After a listing a key holds the last readable topic of that name, and its deduplication flag is set exactly if that topic is FIFO with content-based deduplication off. |
| Topics.LastListedWins | pkg/service/backend/aws/aws_sns.go:96-162 | The same after a whole fetch, whichever page listed the topic. |
| Topics.PageFailsIff | pkg/service/backend/aws/aws_sns.go:121-132 | A page fails exactly if it could not be listed or lists a malformed ARN. |
| Topics.UnlistedKeysStay | pkg/service/backend/aws/aws_sns.go:125-160 | Keys a listing does not name keep what they held. |
| Topics.RunKeepsFaithful | pkg/service/backend/aws/aws_sns.go:61-70 | The store's invariant holds in every interleaving of refetched topics and publishes. |
| Topics.RunGrows | pkg/service/backend/store/store.go:32-36 | In every such interleaving keys are never lost. |
| Topics.ResolutionIsTrueAndStays | pkg/service/backend/aws/aws_sns.go:61-70 | Once a publish resolves it targets its own resource, and so does every later publish of that type. |
| Topics.OwnArnResolves | pkg/service/backend/aws/aws_sns.go:61-70 | A publish to the ARN of a readable listed topic resolves. |
| Topics.Store.Load | pkg/service/backend/store/store.go:16-30 | Finds exactly the stored keys, with their value; otherwise not found. |
| Topics.Store.Add | pkg/service/backend/store/store.go:32-36 | Sets that key alone. |
| Resources.Resource.GetWhitelist | pkg/config/resource.go:18-32 | Whatever call it is, the whitelist without the blacklisted entries, in order. |
| Resources.SubtractMembers | pkg/config/resource.go:20-29 | Exactly the whitelisted entries not blacklisted. |
| Resources.SubtractKeepsOrder | pkg/config/resource.go:24-29 | The entries left keep their order and number. |
| Resources.SubtractingKeepsSelection | pkg/config/resource.go:18-32 | Subtraction changes no row's selection if and only if the whitelist is empty or something of it is left. |
| Resources.SubtractingKeepsFetches | pkg/infrastructure/repository/outbox/client.go:226-235 | The same for whole fetches over all tables. |

## Left out

- SQL text, drivers, dialects, time zones and datetime precision: the table is a map, a query is a filter, a sort and a limit.
- The producer name of events, a constant of the configuration that no decision reads.
- The 64-bit width of ids and points in time, and the 32-bit width of the stored count; the width of the delay is modelled.
- Panics and `recover` in `Transaction`, failing rollbacks, and commits with an unknown outcome.
- The rate limiter: a wait before each call, which the scheduler's freedom already covers.
- Floating-point rounding in the backoff: the product is taken in exact reals, so for a backoff that is not a whole number of seconds the truncated delay may differ from the computed one.
- Spawning as steps of its own: a round starts with all its goroutines ready, and the outer goroutine per type does nothing observable of its own.
- Publishes on the network, message attributes, UUID and hash ids, the NATS client: a publish is accepted, refused or not found.
- The message handed to the publisher: the log names the row, whose columns the event carries unchanged.
- The AWS SDK's ARN parser is a parameter of the topic store; only `OwnArnResolves` takes the six-section split for it.
- Termination of topic pagination, which depends on the server's tokens: pages are a finite list.
- `RefetchResources` and joining errors over backends: the refetch appears as steps that store one topic each.
- `IsIgnoreFetchErrorResources`, which only silences a warning.
- Configuration loading, logging, tracing, health check, command line and `pkg/utils/mapper.go`.
- Rounds.ExactEffect: is about the round machine alone, as are Rounds.CallsOfARound and Rounds.HeadIsMarkedOrPays; RoundsInRuns.RoundInRun, CallsInRun and HeadInRun carry them to every round of a run with application steps in it.
- Rounds.Processing: covers finitely many ticks of the endless loop, and the application changes the table between rounds only; System covers inserts and deletes at any point.
- Outbox.SortByID: the library's sorting algorithm is replaced by an insertion sort with the same contract; the order among equal ids is not promised.
- Polling.OutboxPolling.PublishEvent: the reads of the clock, the publisher's answer and the transaction's ending are parameters.
