# Verification of the CDR fraud detector

A Dafny model of the streaming fraud detector: the fraud consumer (`services/fraud`), the in-memory engine that mirrors
it (`cmd/playground`), and the alert sink (`services/read-api`). `dafny verify dfyconfig.toml` checks all of it.

## What is modelled

**The fraud consumer** is a state machine over single remote operations (`Pipeline`). Its state is the partition's
committed offset, the consumer's memory, Redis with its five key families and their deadlines, the alert topic and the
dead-letter topic. Its program counter names the next Redis, Kafka or gRPC operation. Every operation may succeed, fail
before its effect or fail after it; time may pass, the shutdown signal may arrive, and the process may die between any
two operations and restart from the committed offset. `Consumer` holds the same code as the source has it, methods with
early returns over mutable fields, and proves that whatever the methods do is a run of that state machine.

What is proved about it:

- *Effectively once* (`ExactlyOnce`, `EffectivelyOnce`). In every calm run, whatever fails and however often the process
  restarts, the windows, last locations and seen flags are those of handling each record once in log order; every alert
  in the topic, copies included, is the verdict on that state; and no verdict is lost. A run is calm when reference data
  is available, records are handled in time, no seen flag has expired when it is asked for, nothing is dead-lettered,
  and nothing is fetched after a message was given up on. `Punctual` shows that seen flags need no assumption of their
  own: if the question comes in time, the flag is still there.
- *Commit safety* (`CommitSafety`). Holds in a run if and only if every accepted commit found no unresolved message
  behind it. A loop that commits only while it has given up on nothing is always safe, and within one session without
  ambiguous dead-letter writes that check is exact; without it, a run exists that loses a record, whatever the settings
  and the messages.
- *One alert per window* (`AlertRate`). Holds in a run if and only if no alert was written while an earlier one of its
  rule and subscriber, younger than a cooldown, was without its flag; hence in every run in which no alert write times
  out, no flag write is lost and no crash comes between the two. For every other run there is an upper bound on the rate,
  and `Repeats` shows how one timeout repeats an alert. `Muting` shows that a rule is only ever muted by the flag of an
  alert of its own that was flagged less than a cooldown before.
- *Retries* (`Retries`, `Consumer.Processor.RunWithRetry`). How often a record is tried, what it takes to dead-letter it,
  and exactly when the loop moves on from a record it has not handled.
- *Destinations* (`Destinations`). In every run, calls to numbers outside the catalog touch no spend window.
- *Partitions* (`Partitions`, `OneSubscriber`). Consumers that own different subscribers share Redis and the clock; in
  every interleaving each behaves as if it were alone, and each subscriber's state is that of its records alone.

`CodeResults` carries these results over from runs to the fields of the code.

**The pieces** are proved separately: window contents for any arrival order (`Windows`), invisible expiry (`Redis`), the
string keyspace (`Keyspace`), the spend encoding and its rounding (`Spend`), the verdicts and when forgetting a location
is harmless (`Rules`), longest-prefix lookup (`TariffCatalog`), and the reference cache under interleaved gets
(`RefCache`).

**The playground engine** (`Playground`) is a class over maps. `PlaygroundRefinement` proves that it raises the service's
alerts in the service's order, in every run without faults in which each record is handled at the moment it starts, under
conditions the source's comment leaves out: distinct record ids, event times in order from the epoch on, costs that are
exact at four decimals, positive windows and cooldown, and cells that can be travelled between, at the maximum speed, in
the time after which a location is forgotten. `PlaygroundLimits` shows that the conditions on ids, costs and speed are
needed, those on costs and speed with the exact bound. `CleanRun` gives the service's handle in one piece, and `OnTime`
proves that every such run of the state machine computes it. `PlaygroundVerdicts` proves that the playground's rules reach
the verdicts of exactly-once handling and when an alert follows from them. `Subscribers` proves that scoring commutes with
filtering by subscriber. `Bursts`, `Trips` and `Charges` say exactly when the engine raises an alert of each rule, and with
what score, in terms of the records alone.

**The alert sink** (`AlertSink`) is a second state machine with its code beside it, and `EndToEnd` follows the alerts of
a whole fleet through it: the table holds exactly the verdicts, once each. A run without failures drains the topic.

## Where code and documentation differ

The model follows the code.

- `services/fraud/dlq.go:21-23` says that a failed dead-letter write leaves the offset uncommitted so that the record is
  delivered again. The loop fetches on and the next commit covers it (`CommitSafety.CommitCanLoseARecord`).
- `services/fraud/main.go:292-295` and the README promise one alert per subscriber and window. An ambiguous write is
  repeated at once (`Repeats.AnAlertCanRepeat`); `AlertRate.OneAlertPerWindowIff` gives the exact condition,
  `AlertRate.AlertsAreRateLimited` an upper bound for all runs, and the table behind the sink does have one row for each
  record and rule (`EndToEnd.RowsAreVerdicts`).
- `cmd/playground/main.go:77-78` says that `score` does exactly what `handle` does. It does not when a record id comes
  back (`PlaygroundLimits.RepeatedIdsDiffer`), when a cost needs rounding (`PlaygroundLimits.AgreementNeedsExactCost`), or
  when a location is forgotten too soon (`PlaygroundLimits.AgreementNeedsForgettable`).
- `services/fraud/dlq.go:21-23` names one reason to return false; shutdown is another (`services/fraud/dlq.go:30-36`).

## Conventions

Milliseconds and nanoseconds are unbounded integers and costs, speeds and scores are reals. A key with a deadline is
live strictly before it. `time.Time.UnixMilli` floors. A transaction takes effect as a whole or not at all, a commit sets
the partition's offset, and inserting a row whose key exists does nothing: these are assumptions about Redis, Kafka and
Postgres. Distances are an arbitrary symmetric function bounded by half a great circle. A cell id or a callee is looked
up in reference data that does not change during a run.

## Model

| member | source | states |
|---|---|---|
| ExactlyOnce.StepKeeps | services/fraud/main.go:164-263 | one operation, crash or pause of a calm run keeps the invariant: the lasting state is that of k complete messages and the first stage state changes of the next, every alert is a verdict, and every verdict of a completed message was written or met a live flag |
| ExactlyOnce.RunKeeps | services/fraud/main.go:121-191 | hence the invariant holds after every calm run from an empty Redis |
| ExactlyOnce.MarkKeeps | services/fraud/main.go:189-190 | marking a record, whether the write succeeds, fails or times out, completes it or leaves it to be redone, and never skips a verdict |
| ExactlyOnce.LocSetKeeps | services/fraud/main.go:229-237 | the location advances only after the travel verdict was answered, so a retry judges against the same prior location |
| EffectivelyOnce.StateIsExactlyOnce | services/fraud/window.go:28-37 | at every moment of a calm run the lasting state is that of some first k messages handled once each plus a prefix of the next one's changes, with k at or past the committed offset |
| EffectivelyOnce.DrainedStateIsIdeal | services/fraud/main.go:121-143 | once everything is committed Redis holds exactly what handling each record once, in log order, gives |
| EffectivelyOnce.EveryAlertIsAVerdict | services/fraud/main.go:292-309 | every alert in the topic, repeated ones included, carries the score of its rule on the exactly-once state |
| EffectivelyOnce.NoVerdictIsLost | services/fraud/main.go:229-237 | for every completed record and triggering rule the alert was written, or the cooldown flag was found live: then an alert of that rule on that subscriber had been written, and flagged less than a cooldown before |
| Ideal.RecountIsHarmless | services/fraud/window.go:14-26 | counting a redelivered record again, at whatever stage it was left, changes neither the state nor the count |
| Ideal.RechargeIsHarmless | services/fraud/spend.go:16-39 | charging a redelivered record again changes neither the state nor the sum |
| Punctual.PromptRunIsCalm | services/fraud/main.go:111-111 | with seen flags that live for three windows, a run whose records are asked about in time never meets an expired one |
| CommitSafety.StepIsSafeIff | services/fraud/main.go:132-141 | one event keeps everything below the committed offset resolved if and only if it is no accepted commit with an unresolved message behind it |
| CommitSafety.AlwaysSafeIffGuarded | services/fraud/main.go:132-141 | a whole run is safe at every moment if and only if every accepted commit was guarded in that way |
| CommitSafety.CheckedRunIsSafe | services/fraud/main.go:132-141 | a loop that commits only while it has given up on nothing is safe at every moment of every run |
| CommitSafety.PlainRunIsSafeIffChecked | services/fraud/main.go:132-141 | in a run without restarts and ambiguous dead-letter writes that check is exact: safe at every moment if and only if nothing was committed after a message was given up on |
| CommitSafety.CommitCanLoseARecord | services/fraud/dlq.go:41-45 | for any settings, whatever the second message, there is a run that commits past a record nobody handled and nobody dead-lettered |
| AlertRate.StepIsSpacedIff | services/fraud/main.go:292-309 | one event keeps all alerts of one rule on one subscriber a cooldown apart if and only if it writes none, or none behind a younger one whose flag never took effect |
| AlertRate.OneAlertPerWindowIff | services/fraud/main.go:292-309 | over a whole run there is one alert per window if and only if every alert was written under that condition |
| AlertRate.CarefulRunsAlertOncePerWindow | services/fraud/main.go:292-309 | hence one alert per window in every run in which no alert write times out after its effect, no flag write is lost, and no crash comes between the two |
| AlertRate.AlertsAreRateLimited | services/fraud/main.go:296-309 | upper bound: in any run and any interval of length L, the alerts of one rule on one subscriber number at most L / cooldown + 1 plus the emissions whose flag never took effect |
| Muting.MutedOnlyWithinCooldown | services/fraud/main.go:297-304 | in any run a rule is muted on a record only where one of its alerts on the subscriber had been written and then flagged less than a cooldown before |
| Repeats.AnAlertCanRepeat | services/fraud/main.go:305-308 | from every reachable state in which a record is about to raise a velocity alert and has another attempt, a single timed-out write puts two copies of the alert into the topic at one instant |
| Retries.CallsAreBounded | services/fraud/dlq.go:24-39 | in every run handle is called at most maxAttempts times on a message before it is fetched again, and again only after it failed |
| Retries.DeadLettersAreEarned | services/fraud/dlq.go:24-60 | in every run an event that changes the dead-letter topic adds one letter, with the unchanged message, after maxAttempts calls that all failed since it was fetched, and names the last error |
| Retries.MovesOnExactlyWhen | services/fraud/dlq.go:24-46 | the loop leaves a record it is working on without handling it exactly when an operation fails or the pause is cut short under shutdown, or the dead-letter write fails, and commits nothing by that |
| Retries.AfterAPause | services/fraud/dlq.go:26-41 | the pause is followed by another call while attempts are left and by the dead-letter write after the last |
| Retries.PoisonIsBuried | services/fraud/dlq.go:18-24 | a record on which every call fails, at its first operation, is dead-lettered as it is and committed, so that it does not block the partition |
| Retries.UnparseableIsSkipped | services/fraud/main.go:164-169 | a message that does not decode is committed and leaves no other trace |
| Consumer.Processor.RunWithRetry | services/fraud/dlq.go:24-48 | at most maxAttempts calls, none after a success, and fewer only under shutdown or after a success; at most one dead letter, only after maxAttempts failures, with the original message and the last error; true iff a call or that write succeeded |
| Consumer.Processor.Handle | services/fraud/main.go:164-191 | handle takes the steps of the state machine and ends completed, or failed with the operation that failed as the cause |
| Consumer.Processor.MaybeEmit | services/fraud/main.go:296-309 | an error stops at the operation that failed; otherwise the machine has gone through guard, emission and flag or past a live flag |
| Consumer.Processor.CheckImpossibleTravel | services/fraud/main.go:205-238 | the rule is skipped without reference data; otherwise read, judge, emit and only then store the location |
| Consumer.Processor.CheckIRSF | services/fraud/main.go:240-263 | only premium destinations accrue, and the sum that is judged is that of the stored members; a call to a number no catalog entry begins leaves Redis and the alerts as they are |
| Consumer.Processor.CommitMessages | services/fraud/main.go:139-141 | the offset becomes that of the message just handled, or stays if the commit failed |
| Consumer.Processor.Consume | services/fraud/main.go:121-142 | after any number of rounds Redis, the topics and the offset are exactly those of a run of the state machine |
| Consumer.Processor.Restart | services/fraud/main.go:94-121 | memory is lost, fetching resumes at the committed offset, and Redis and the topics stay as they are |
| Consumer.Processor.CodeIsARun | services/fraud/main.go:121-191 | whatever the code has done, between any two operations and across any restarts, is a run of the state machine whose operations are those the environment decided |
| CodeResults.CodeAgreesWithPlayground | services/fraud/main.go:121-191 | run without faults and on time, the code has emitted exactly the playground's alerts whenever its loop is between two records |
| CodeResults.CodeIsEffectivelyOnce | services/fraud/main.go:121-191 | after a calm run that has committed everything the code's store holds what handling each record once gives |
| CodeResults.CodeCommitsSafely | services/fraud/main.go:132-141 | the offset the code has committed is safe if it committed only while it had given up on nothing |
| CodeResults.CodeAlertsOncePerWindowIff | services/fraud/main.go:292-309 | the code's alerts of one rule on one subscriber are a cooldown apart if and only if none was written behind a younger one without its flag |
| Windows.SlidContents | services/fraud/window.go:14-17 | for any arrival order a member is in the window with a time iff the last call with that id has that time and is younger than the window before every call from it on, or lies before the epoch, where the trim does not reach |
| Windows.ShiftedContents | cmd/playground/main.go:124-141 | the same for the playground's map |
| Windows.InOrderSetCount | services/fraud/window.go:11-26 | for calls in order the sorted set holds exactly the distinct calls in the half-open window before the last one |
| Windows.InOrderCount | cmd/playground/main.go:124-141 | the same for the playground's map |
| Windows.SlideTwice | services/fraud/window.go:14-15 | adding the latest record again changes nothing |
| Redis.ExpiryIsInvisible | services/fraud/window.go:16-26 | if calls are handled at most A before and L after their start and A + L is at most the window, a set that expires after two windows always holds what one that never expires would |
| Redis.SlideIgnoresExpiry | services/fraud/spend.go:22-29 | the same for one pipeline on either kind of window |
| Redis.SilenceEmpties | services/fraud/window.go:14-20 | a window is there until exactly twice its length after its last call; the next call after that is alone in it |
| Redis.SetLives | services/fraud/window.go:35-37 | a value set with an expiration is there strictly until it, with none for good, and no other key changes |
| Pipeline.WritesLast | services/fraud/main.go:111-112 | a seen flag is there for exactly three velocity windows, a cooldown flag for the cooldown, a location for 24 hours; zero means for good |
| Keyspace.KeyStringInjective | services/fraud/main.go:194-308 | no two keys, of one family or of two, are spelled alike, for all subscribers and record ids |
| Keyspace.FlatGet | services/fraud/lastloc.go:22-35 | reading through the key string finds exactly the typed entry |
| Keyspace.FlatSet | services/fraud/lastloc.go:37-43 | writing through the key string changes that one typed entry and no other |
| Spend.MemberSplits | services/fraud/spend.go:20-37 | splitting a member at its last bar recovers the record id, bars included, and parsing recovers the cost |
| Spend.MemberInjective | services/fraud/spend.go:20-20 | two members are equal only for the same record and cost |
| Spend.SumMembers | services/fraud/spend.go:31-39 | the loop returns the total of the members' amounts, in whatever order they come |
| Spend.CostByTheMinute | services/fraud/main.go:252-252 | sixty times the cost is the seconds times the rate per minute |
| Spend.UnitsRoundHalfEven | services/fraud/spend.go:20-20 | what a member carries is the nearest ten-thousandth to the cost, and of two the even one |
| Spend.PrintLooksRight | services/fraud/spend.go:20-20 | the text of an amount: four decimals, sign and leading zeros included |
| Spend.WindowTotalIsClose | services/fraud/spend.go:19-40 | for n calls at cent rates the window total is within n/3 of 0.0001 of what is owed: the sum of seconds times cents per minute, over 6000 |
| Rules.TravelTriggers | internal/rules/impossible_travel.go:17-35 | the rule triggers exactly when the distance cannot be covered in the floored interval, and then the score exceeds 1 |
| Rules.TravelExactly | internal/rules/impossible_travel.go:17-35 | in numbers: it triggers iff distance times 3.6e12 exceeds the maximum speed times the nanoseconds, counted as a second at least, and score times that product is distance times 3.6e12 |
| Rules.EarlierCallsAreJudgedAlike | services/fraud/main.go:222-228 | a call from before the stored one is judged as if the two had come in order |
| Rules.VelocityTriggers | internal/rules/velocity.go:17-24 | triggers iff the threshold is positive and reached; the score is the count in multiples of it |
| Rules.IrsfTriggers | internal/rules/irsf.go:15-22 | triggers iff the threshold is positive and reached, and stays silent below it; the score is the spend in multiples of it |
| Rules.ForgettingIsHarmlessExactlyWhen | services/fraud/main.go:216-237 | no pair that far apart in time triggers, at whatever distance, if and only if half the globe can be covered in that time |
| Rules.OldLocationIsHarmless | services/fraud/main.go:216-237 | the same with the milliseconds that flooring loses |
| Rules.DayIsLongEnough | services/fraud/main.go:216-237 | a location 24 hours old never triggers from 834 km/h on, and from 1000 km/h on not even with 3 h 59 min of clock skew |
| TariffCatalog.Lookup | internal/tariff/tariff.go:28-41 | the loop returns a longest matching entry of any catalog; for a number that no prefix begins, the rate is 1.00 per minute and the destination is not premium |
| TariffCatalog.UnlistedIsOrdinary | internal/tariff/tariff.go:28-41 | the same for the function the theorems use: not premium, whatever the catalog |
| TariffCatalog.LongestMatchUnique | internal/tariff/tariff.go:33-41 | with distinct prefixes there is only one longest match |
| TariffCatalog.LookupIgnoresOrder | internal/tariff/tariff.go:33-41 | so every permutation of the catalog gives the same result |
| TariffCatalog.OrderMattersForEqualPrefixes | internal/tariff/tariff.go:33-41 | with two equal prefixes the order of the catalog decides |
| RefCache.Cache.Get | services/fraud/cache.go:32-50 | an entry younger than the lifetime is returned without a load and the map stays; otherwise the load's result is returned, and stored only if it succeeded |
| RefCache.GetThriceWithinLifetime | services/fraud/cache.go:32-50 | after a get has loaded a value, and whatever a get of another key does, a get within the lifetime returns it without a load, even if the backend is down |
| RefCache.FreshEntryIsServed | services/fraud/cache.go:32-50 | in every interleaving: once a value has been stored, and until another is stored for the key, every get called within the lifetime returns it without a load and leaves the map alone |
| RefCache.GetIsFresh | services/fraud/cache.go:32-50 | in every interleaving a get called at now that succeeds returns a value the backend held later than now - ttl |
| RefCache.StaticBackendShowsThrough | services/fraud/cache.go:8-13 | over a backend that never changes every successful get returns the backend's value, whatever the lifetime |
| RefCache.OlderLoadCanOverwrite | services/fraud/cache.go:40-49 | a slow load can replace an entry that is newer by any amount |
| RefCache.OnlyStoresChangeTheMap | services/fraud/cache.go:29-49 | only the store of a successful load changes the map; a failed load changes nothing and is returned as such |
| Playground.Engine.VelocityCount | cmd/playground/main.go:127-141 | adds the record, drops what is out of the window, counts the rest, and touches only this subscriber's window |
| Playground.Engine.SpendInWindow | cmd/playground/main.go:145-162 | the same for costs, with the exact sum of what remains |
| Playground.Engine.ScoreRecord | cmd/playground/main.go:79-122 | the engine's maps and alerts after a record are those of the function the theorems below are about |
| CleanRun.RecordRuns | services/fraud/main.go:121-191 | without faults the state machine fetches, handles and commits a record with exactly the big-step result |
| PlaygroundRefinement.RecordAgrees | cmd/playground/main.go:77-122 | on one record engine and service raise the same alerts and stay in agreement |
| OnTime.OnTimeRunServes | services/fraud/main.go:121-191 | every run without faults in which each record is handled at the moment it starts has, whenever it is between two records, committed, stored and emitted what handling them one after the other gives |
| PlaygroundRefinement.ServiceAgrees | cmd/playground/main.go:77-122 | serving a well-behaved log and scoring it raise the same alerts in the same order |
| PlaygroundRefinement.PlaygroundAgrees | cmd/playground/main.go:77-122 | in every such run, whenever the service is between two records, it has emitted exactly the playground's alerts on the records so far |
| PlaygroundLimits.AgreementNeedsForgettable | services/fraud/main.go:216-237 | service and playground agree on every well-behaved log if and only if any two cells can be travelled between in the time after which a location is forgotten |
| PlaygroundRefinement.FastIsForgettable | services/fraud/main.go:216-237 | from 834 km/h on any two points of the globe can be travelled between in that time |
| PlaygroundLimits.AgreementNeedsExactCost | services/fraud/spend.go:19-40 | on one premium call above the threshold they agree if and only if its cost needs no rounding at four decimals |
| PlaygroundLimits.RepeatedIdsDiffer | services/fraud/main.go:171-177 | they differ when a record id comes back from a cell too far away before its seen flag expires |
| PlaygroundVerdicts.ACalmRunDrains | services/fraud/main.go:121-191 | every well-behaved log has a calm run that commits all of it, leaves the exactly-once state in Redis and emits the playground's alerts |
| PlaygroundVerdicts.EngineReachesTheVerdict | cmd/playground/main.go:77-122 | on every record of a well-behaved log the playground's rules reach the verdicts of the exactly-once state |
| PlaygroundVerdicts.PlaygroundAlertsAreVerdicts | cmd/playground/main.go:77-122 | every alert the playground raises on a record is the verdict of its rule on that state |
| PlaygroundVerdicts.PlaygroundAlertsExactlyWhen | cmd/playground/main.go:164-180 | it raises one exactly when the rule triggers on that state and no alert of that rule on the subscriber was raised less than a cooldown before |
| Subscribers.FilteringCommutes | services/fraud/lastloc.go:12-15 | keeping one subscriber's alerts of a scored list gives the same alerts, and the same state, as scoring its records alone |
| Subscribers.InterleavingIsIrrelevant | services/fraud/lastloc.go:12-15 | logs that interleave the same per-subscriber lists differently raise the same alerts about each subscriber |
| Bursts.AlertsExactlyWhen | cmd/playground/main.go:164-180 | record i raises an alert iff its rule triggers and no alert of that rule for that subscriber was raised within the cooldown |
| Bursts.VelocityAlertIsBacked | cmd/playground/main.go:83-90 | a velocity alert is backed by at least threshold distinct calls in the last window, and its score is their number over the threshold |
| Bursts.BurstIsAlerted | cmd/playground/main.go:83-90 | a record that completes a burst has a velocity alert about its subscriber within the cooldown that ends with it |
| Charges.SpendWindowContents | cmd/playground/main.go:143-162 | for any arrival order the spend window holds, with its cost, exactly the last premium call with each id that no later one of the subscriber has pushed out |
| Charges.SpendAlertsExactlyWhen | cmd/playground/main.go:110-119 | a record raises a spend alert iff it is a premium call, the premium calls of its subscriber in the last window together cost the threshold or more, seconds times rate over sixty each, and none was raised within the cooldown |
| Charges.SpendAlertIsBacked | cmd/playground/main.go:110-119 | the score of a spend alert is that cost over the threshold |
| Charges.SpendIsAlerted | cmd/playground/main.go:110-119 | where the cost reaches the threshold there is a spend alert about the subscriber within the cooldown that ends with the record |
| Trips.TravelAlertsExactlyWhen | cmd/playground/main.go:92-108 | a record raises a travel alert iff its cell is known, the subscriber's last call from a known cell is too far away for the time between the two, and none was raised within the cooldown |
| Trips.TravelAlertIsBacked | cmd/playground/main.go:92-108 | the score of a travel alert is kilometres over hours, over the maximum speed |
| Destinations.EngineChargesNothing | cmd/playground/main.go:110-119 | a call to a number no catalog entry begins leaves every spend window as it was and raises no spend alert |
| Destinations.UnlistedCallsAreFree | services/fraud/main.go:243-250 | the same for the service, in every run: no operation, failure, crash or restart on such a call touches a spend window or writes a spend alert |
| Partitions.StepIsLocal | services/fraud/lastloc.go:12-15 | a step depends only on the keys of its own partition's records and changes no others |
| Partitions.EachRunsAsIfAlone | services/fraud/lastloc.go:12-15 | in every interleaving of consumers over separate subscribers each one's offset, memory, topics and keys are those of a run alone |
| OneSubscriber.SubscribersAreIndependent | services/fraud/lastloc.go:12-15 | exactly-once handling of a log leaves about a subscriber what its records alone would |
| OneSubscriber.FleetIsExactlyOnce | services/fraud/main.go:121-191 | a drained partition of a fleet under faults holds about each subscriber what handling its records alone, once each, gives |
| OneSubscriber.FleetAlertsAreVerdicts | services/fraud/main.go:292-309 | every alert of a fleet carries the score its rule gives on the subscriber's records alone |
| AlertSink.TurnKeepsSound | services/read-api/main.go:101-143 | every fetch, store, commit, restart or reassignment, failed or not, keeps the table a first-wins fold over prefixes that reach the fetch positions |
| AlertSink.ReassignTurn | services/read-api/main.go:101-106 | for a partition handed over and back fetching resumes at its committed offset, and nothing else changes |
| AlertSink.TableIsFirstWins | services/read-api/main.go:101-152 | hence for any schedule the table is that fold, over prefixes that reach the committed offsets |
| AlertSink.FirstWinsIsFirst | services/read-api/main.go:145-152 | a row is under a key iff it is the first alert posted with that record id and rule |
| AlertSink.CommittedAlertsHaveRows | services/read-api/main.go:120-141 | every parseable alert below a committed offset has its row, the first one posted with its key |
| AlertSink.MessageGoesThrough | services/read-api/main.go:104-141 | one message fetched, stored and committed: both offsets are one further, its alert is in, and nothing else changes |
| AlertSink.OkRunAdvances | services/read-api/main.go:104-141 | in every run without failures the messages still to come and those committed add up to those there were |
| AlertSink.OkRunDrainsWhenDone | services/read-api/main.go:104-141 | such a run has committed everything iff it has committed as many messages as there are |
| AlertSink.OkRunExists | services/read-api/main.go:104-141 | from every state between two messages of such a run one that commits everything follows |
| AlertSink.DrainedSinkHasAllRows | services/read-api/main.go:120-141 | then every alert that can be parsed has a row |
| AlertSink.RowsComeFromTheTopic | services/read-api/main.go:145-152 | every row is an alert that was posted |
| AlertSink.Reader.ConsumeAlerts | services/read-api/main.go:101-143 | the loop, with its inner retries, leaves table and offsets as a schedule of the sink does; if no call fails and there is time for three calls per message, it commits every message |
| AlertSink.Reader.CommitMessages | services/read-api/main.go:135-137 | an accepted commit sets the offset to one past the message, and the next fetch is one further whether or not it was accepted |
| AlertSink.Reader.SettledAlertsHaveRows | services/read-api/main.go:120-141 | with every message committed the code's table has a row for every alert that can be parsed |
| AlertSink.Reader.RestartReader | services/read-api/main.go:101-112 | after a restart fetching resumes at the committed offsets |
| AlertSink.Reader.TableIsRight | services/read-api/main.go:101-152 | so the code's table is the first-wins fold |
| EndToEnd.RowsAreVerdicts | services/read-api/main.go:145-152 | behind a fleet in a calm run every row is the verdict of its rule on its record |
| EndToEnd.VerdictsHaveRows | services/read-api/main.go:120-141 | once both sides are drained every triggering verdict has exactly its row, unless a live cooldown flag muted it, and then the alert whose flag that was, written before and flagged less than a cooldown before, has its row |

## Left out

- ExactlyOnce.RunKeeps: covers calm runs only; with failing reference data, expired seen flags, dead letters or fetching past a message that was given up on, the state can differ from the exactly-once one.
- PlaygroundRefinement.PlaygroundAgrees: covers the service without faults; under faults `EffectivelyOnce` speaks about state and verdicts instead of the order of alerts.
- Spend.WindowTotalIsClose: is about rationals; binary rounding of floating-point costs and sums is not modelled.
- Consumer.Processor.RunWithRetry: requires at least one attempt, which `services/fraud/main.go:61-64` sees to; called on its own with none, the source would dereference a missing error.
- Consumer.Processor.Consume: runs to the end of a round; a crash inside a round is covered by restarting after any of the methods for single operations.
- Playground.Engine.ScoreRecord: reads reference data and settings that are fixed; `configure` between two records is not modelled.
- RefCache.Cache.Get: has no mutex, since nothing interleaves with a method; the interleavings are those of the state machine in the same module, one turn for each locked section and one for the load.
- AlertSink.Reader.ConsumeAlerts: takes the next message from the partition the broker prefers, if it has one, or from another that has; stops after a given number of calls, so that its unbounded retry loop can be a terminating method; the bound is arbitrary.
- Partitions.EachRunsAsIfAlone: gives each partition one consumer at a time; a consumer that keeps writing after its partition was handed over is not modelled.
- Trigonometry and floating point: distances, speeds and scores are reals, and the distance function is arbitrary within the bound.
- Integer widths: event milliseconds, nanosecond differences (where Go's Duration saturates) and counters do not overflow.
- A cost that rounds to zero from below prints as `-0.0000` in Go and as `0.0000` here; both are worth nothing.
- strconv.ParseFloat beyond sign, digits, point and four digits, which is all the encoder produces.
- Redis's time granularity and eviction policies, Kafka's group protocol, gRPC deadlines and Postgres itself are behind the abstract operations.
- JSON: a message either decodes or it does not; a stored last location always decodes.
- Clocks that run backwards: time passes by non-negative amounts.
- Evidence texts, detection times, metrics, logging, configuration parsing, topic creation and the HTTP endpoint.
- The subscriber service, the generator, the load generator and the browser glue: no property that is not already in the lookups.
