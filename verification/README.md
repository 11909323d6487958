# MoonLight Cloud: verification model

A Dafny model of the parts of MoonLight Cloud whose correctness is hardest to see by
reading: the leased notification outbox, scheduled reports, commerce convergence,
device commands and their recovery, fleet targets, the catalog projector, catalog
comparison forms, signed releases, page cursors and order analytics.

`dafny verify dfyconfig.toml` checks the whole project.

## Layout

| file | models |
|---|---|
| Calendar, Schedule | civil dates, the O(1) slot search, windows and their UTC bounds |
| Outbox, Dispatcher | the outbox protocol as a transition system, and the dispatcher running against it |
| Delivery | out-of-order delivery callbacks |
| ReportRun, ReportRunner | one report run as a transition system, and the worker running against it |
| OperationKey, Commerce | retry keys; one product sync against a mapping store and an arbitrary provider |
| Contention | several syncs of one product without its lock |
| DeviceControl, Recovery | device commands; the reconnect recovery action and its workers |
| Reconnect | recovery and command table together |
| Projector | the drain loop of a catalog projector |
| NormalForms, Sorting | comparison forms of catalog snapshots |
| Release, Base64 | release manifests: encoding, signing, verification, install policy |
| Cursor, Analytics, Fleet | page cursors, order analytics, rollout targets |
| Backoff, Text, Wrappers | shared arithmetic, texts and datatypes |

Concurrent parts come in two halves. A transition system has one event per atomic
step of one participant, a total `Next`, and `Run`, the fold over any sequence of
events; its lemmas speak about all runs. The imperative half is a class whose methods
perform those steps in the order of the Go code, with an adversary adding any events
of the other participants in between; what is proved of all runs therefore holds at
every step of it. Store calls may fail, or take effect with their reply lost. Store
operations follow the SQL statements and the PostgreSQL adapter.

## Findings

Where a promise fails, a lemma gives an input and another the exact condition.

- The closed-form day number is one too large in January and February of year 0
  (`DifferenceIsExactIff`). Slot search is right there nevertheless: its third step
  makes up for the day (`TenDayJump`).
- A date whose midnight is skipped and resolved backwards starts a day early: its
  start instant is the start of the day before (`StartInstantOnDateIff`,
  `StartInstantCanBeADayEarly`). The forward walk of startOfLocalDay steps by whole
  minutes and can miss the first instant of a day (`StartOfDayIsFirstIff`,
  `WalkCanOvershoot`).
- A callback that repeats ACCEPTED with a timestamp can make delivery state depend on
  order (`OrderMattersOtherwise`); provider evidence alone never does.
- A worker that lost its lease can still insert the notification of a delivery
  (`StaleOwnerChangesOnly`, `LateHandOver`); the idempotency key makes it the same one
  (`OneNotificationPerDelivery`), and run and delivery rows stay untouched.
- The second block after a blocked barrier, and the second finish after a lost
  terminal race, never take effect or are never reached (`SecondBlockIsStale`,
  `Settle`).
- After a product moved to a new external parent, an unchanged variant's row keeps
  naming the old one while its inventory is addressed under the new one
  (`ParentIsCurrentIff`, `ParentCanBeStale`).
- A sync that goes on without its product's lock never overwrites another identity
  than it read (`IdentitiesFormAChain`), but its inventory can go to an identity that
  is no longer mapped: a save compares nothing when the provider confirms what was
  read (`UncheckedSaveMisdirects`), and a compared save leaves a gap before the call
  (`CheckedSaveMisdirects`). Every call is addressed exactly for a single session
  (`AlwaysAddressedIff`), and for any number of them under the lock
  (`LockedCallsAreAddressed`).
- Recovery claims take no lease, count attempts on the row but compare with the count
  they read, and do not count a request whose result is lost. Ten requests are the
  limit exactly for a single worker that loses no result
  (`TenAttemptsIffOneWorker`, `LimitIff`, `WorstIsReached`, `LostResultsAreNotCounted`).
- A Sync Now request can be told that a sync is already active when the active command
  is the one of its own key (`BlamesItselfIff`, `SameKeyRace`). A report that
  contradicts the recorded outcome is judged by its status, not by its code
  (`ContradictionAcceptedIff`, `TwoFailureCodes`).
- A failure that a device reports twice uses up two of a target's attempts
  (`RepetitionCountsIff`, `RepeatedFailureCountsTwice`).
- A locale with two different translations, or a currency with two different prices,
  which the product validator lets through, makes their order significant
  (`FormIdentifiesIff`, `RepeatedLocaleIsTold`).
- A catalog event refused for its content is answered as blocked also when its row is
  not due and stays as it is (`BlockedButOpenIff`). A drain over such an event goes on
  for ever exactly when in every round the clock steps back across its retry time
  between discovery and claim (`RepeatsIff`, `NeverEndsIff`, run by `FirstRounds`); it
  ends if the clock goes forward sooner or later (`Drain`).

## Model

| member | source | states |
|---|---|---|
| Calendar.DayNumberAddDays | internal/report/period.go:64-67 | AddDays(d, n) lies exactly n days from d, for every real date and every n of either sign |
| Calendar.CompareIsDayOrder | internal/businessreports/schedule.go:174-195 | the field-by-field comparison, the day numbers and equality are one order |
| Calendar.ClosedFormIsDayNumber | internal/businessreports/schedule.go:206-217 | the O(1) closed form equals the number of days counted one by one, for every date of a non-negative year, except that it is one too large in January and February of year 0 |
| Calendar.DifferenceIsExactIff | internal/businessreports/schedule.go:200-202 | moving a by the computed difference arrives at b exactly when both dates lie on the same side of 0000-03-01 |
| Calendar.LeapDayOfYearZeroIsLost | internal/businessreports/schedule.go:206-217 | the failing input: 0000-02-29 and the day after it are computed to be zero days apart |
| Calendar.FormatParses | internal/report/period.go:76-95 | a date survives being written and read exactly when its year has four digits |
| Calendar.ParseFormats | internal/report/period.go:82-95 | a text that parses is the one text of its date |
| Calendar.TextOrderIsDateOrder | internal/report/period.go:136-160 | string order, which the custom range compares by, is date order on four-digit dates |
| Schedule.StartOfLocalDay | internal/report/period.go:178-194 | the walk stops as its unbounded description says, and in a valid zone returns the first instant of the day of its argument exactly when that instant lies a whole number of minutes, at most a day, after the instant that midnight resolves to |
| Schedule.StartOfDayIsFirstIff | internal/report/period.go:178-194 | both exact conditions: when the walk ends on the first instant of the day, and when it ends on the day at all, then less than a minute after its first instant |
| Schedule.WalkCanOvershoot | internal/report/period.go:178-194 | the failing input: clocks that change half a minute past a whole minute make the walk miss the first half minute of the day |
| Schedule.StartInstantOnDateIff | internal/report/period.go:71-73 | a date's start instant lies on that date, as its first instant, exactly when midnight resolves on it; otherwise it is the start of the date before |
| Schedule.StartInstantMonotone | internal/report/period.go:71-73 | later dates never start earlier, in any zone |
| Schedule.WesternZoneIsValid | internal/report/period.go:178-194 | the zone of the counterexample meets every assumption made about zones |
| Schedule.StartInstantCanBeADayEarly | internal/report/period.go:71-73 | the failing input: a midnight that is skipped and resolved backwards makes the day start a day early |
| Schedule.LocalTimeIs | internal/businessreports/reports.go:107-127 | a text is a local time exactly when it is two digits, a colon and two digits below 24:00, and says that minute of the day |
| Schedule.LinearSlotIsFirst | internal/businessreports/schedule.go:139-143 | the reference search returns the first date of the chain whose instant is after the reference, and skips none |
| Schedule.TenDayJump | internal/businessreports/schedule.go:152-160 | the O(1) jump lands on an aligned date, not before the anchor and at most two cycles before the reference date |
| Schedule.NextTenDaySlot | internal/businessreports/schedule.go:141-172 | for every anchor, time, instant and zone the three-step loop returns exactly what the unbounded linear search returns and never falls through; it fails exactly for malformed input or a slot beyond year 9999 |
| Schedule.NextDailySlot | internal/businessreports/schedule.go:114-137 | the bounded daily loop equals the unbounded linear search from the reference date |
| Schedule.DailySlotIsEarliest | internal/businessreports/schedule.go:114-137 | no date at all before the returned one has an instant after the reference |
| Schedule.PlanSlotMeaning | internal/businessreports/schedule.go:230-254 | exactly which slots are planned, and that the period is the 1 or 10 civil days before the slot, turned into UTC |
| Schedule.AdvancesIff | internal/businessreports/schedule.go:94-110 | exactly which slots have a next one, and that it is one or ten days on |
| Schedule.SlotAfterIsAligned | internal/businessreports/schedule.go:94-110 | iterating AdvanceSlotDate i times lands exactly i cadences after the first slot |
| Schedule.WindowsAbut | internal/businessreports/schedule.go:55-110 | the window of every slot ends at the instant the next one starts, for daily and ten-day schedules in every zone |
| Schedule.WindowsCover | internal/businessreports/schedule.go:230-254 | an instant between the first start and the last end lies in some window: no gap |
| Schedule.WindowsDisjoint | internal/businessreports/schedule.go:230-254 | no instant lies in two windows: no overlap |
| Schedule.PeriodRoundTripIff | internal/businessreports/runner.go:540-553 | the runner recovers the civil bounds of a persisted window exactly when both boundary midnights resolve on their own dates |
| Schedule.ResolveCustom | internal/report/period.go:136-170 | the day-by-day counting loop ends and accepts exactly ranges of 1 to 366 days, with the error of each other case |
| Backoff.CappedDoubling | internal/notifications/dispatcher.go:246-258 | the doubling loop computes base * 2^(attempt-1) capped, for every attempt |
| Backoff.DelayMonotone | internal/businessreports/runner.go:556-568 | delays never shrink from attempt to attempt and never exceed the cap |
| Backoff.DelayDoubles | internal/notifications/dispatcher.go:246-258 | the delay is the base for the first attempt and doubles with every further one, up to the cap |
| Outbox.RetryAtBounds | internal/notifications/dispatcher.go:193-203 | a retry waits at least its backoff and at most an hour, whatever hint the provider gives |
| Outbox.RunIsSafe | internal/notifications/store.go:57-99 | the invariant of rows, sends and dispatcher memories holds after every sequence of events: claims, expiries, crashes, lost replies and provider outcomes interleaved at will |
| Outbox.AtMostOneSendCounts | internal/notifications/dispatcher.go:116-229 | in every run at most one send of a notification is not closed by an explicitly recorded retry |
| Outbox.ResendOnlyAfterRetry | internal/notifications/dispatcher.go:148-211 | whenever a provider is called again, the previous call returned a failure of kind temporary or rate-limited, under an older claim, and was recorded as retry |
| Outbox.TerminalForever | db/queries/notifications.sql:105-136 | accepted, blocked and ambiguous rows never change in any continuation of any run |
| Outbox.TerminalRowsAreTruthful | internal/notifications/dispatcher.go:167-228 | an accepted row names the message id of its last send; a blocked one was explicitly refused every time; nobody is about to send for either |
| Outbox.NoSendOnceSettled | internal/notifications/dispatcher.go:116-229 | after acceptance or blocking no continuation of the run calls the provider for that notification |
| Outbox.OutcomesAreRecorded | internal/notifications/dispatcher.go:167-228 | in every run a finish that takes effect leaves the row accepted exactly for a sent message, to be retried exactly for a temporary or rate-limited refusal, blocked with its code exactly for each other refusal, and ambiguous exactly for an ambiguous or unclassified error |
| Outbox.RetriesFallDue | internal/notifications/dispatcher.go:193-203 | in every run a retry falls due after the backoff of its attempt, or when a rate limit asks for more, after what it asks for, an hour at most |
| Outbox.ClaimsTake | db/queries/notifications.sql:76-97 | in every run a claim is possible exactly on an open row that is due and not leased; it takes the row under the next generation and counts the attempt |
| Outbox.UnsentAreRecorded | internal/notifications/dispatcher.go:116-147 | in every run a claim that sends nothing leaves the row ambiguous after an earlier start, and blocked for an unknown provider |
| Outbox.MarksAreDurable | db/queries/notifications.sql:99-103 | in every run a mark changes exactly the row that its token still holds, and lets the dispatcher on only if it is known to have taken effect |
| Dispatcher.Deployment.ClaimNotification | db/queries/notifications.sql:76-97 | leases a due row under a fresh generation, or reports that none is due |
| Dispatcher.Deployment.MarkNotificationSendStarted | db/queries/notifications.sql:99-103 | tells applied, stale and failed apart; only an applied mark lets the dispatcher on |
| Dispatcher.Deployment.FinishNotification | db/queries/notifications.sql:105-136 | writes the one finish the event stands for, exactly if the claim token still holds |
| Dispatcher.Dispatcher.NextAttempt | internal/notifications/dispatcher.go:193-203 | the retry time as computed from the backoff, the provider's hint and three clock readings |
| Dispatcher.ScriptMeans | internal/notifications/dispatcher.go:116-229 | what a pass does, by cases: it gives up after an earlier start, refuses an unknown provider, otherwise marks, and after a known mark sends once and finishes unless the context ended |
| Dispatcher.PassesClaimFirst | internal/notifications/dispatcher.go:91-115 | a pass claims for five minutes and then does what its script says |
| Dispatcher.Dispatcher.ProcessOne | internal/notifications/dispatcher.go:116-229 | one pass contributes exactly the scripted actions: at most one provider call, only after its own durable mark, then the one finish that fits the outcome; it always lets go of the claim |
| Dispatcher.Dispatcher.Drain | internal/notifications/dispatcher.go:91-106 | a scan's own actions are exactly the claims and scripts of its passes; it stops with a full batch, or because the context ended, a claim failed or nothing was due |
| Delivery.LatestWins | internal/notifications/dispatch.go:294-314 | the latest evidence by timestamp and precedence stays current from its arrival on |
| Delivery.OfOneInstant | internal/notifications/dispatch.go:59-74 | of two callbacks for one instant the one later in the order SENT, DELIVERED, READ, FAILED stays, whichever came first |
| Delivery.NothingSaid | internal/notifications/dispatch.go:294-314 | a callback without a time or a known status changes nothing in any run |
| Delivery.OrderIsIrrelevant | internal/notifications/dispatch.go:294-314 | folding converging callbacks gives the same state in every order and under duplication: the maximum by (timestamp, precedence) |
| Delivery.OrderMattersOtherwise | internal/notifications/dispatch.go:294-314 | for callbacks outside the stated condition two orders with different results exist, so the condition is exact |
| Delivery.EvidenceAloneConverges | internal/notifications/dispatch.go:59-74 | SENT, DELIVERED, READ and FAILED callbacks mixed with UNKNOWN or untimestamped ones always converge |
| ReportRun.RunIsSafe | internal/businessreports/runner.go:109-178 | the invariant of run, deliveries, outbox and worker memories holds after every interleaving, crash and lost reply |
| ReportRun.BodiesAllOrNone | internal/businessreports/runner.go:198-268 | in every run either no delivery has a body or all have one, each in its own locale, from one summary |
| ReportRun.NothingBeforeTheBarrier | internal/businessreports/runner.go:298-334 | nothing is handed over and no delivery leaves pending before all bodies are committed |
| ReportRun.OneNotificationPerDelivery | internal/businessreports/runner.go:298-334 | a notification carries its delivery's persisted body, is never replaced in any continuation, and is the one an enqueued delivery names |
| ReportRun.CompletedMeansDelivered | internal/businessreports/runner.go:340-388 | a completed run has at least one delivery and every one is enqueued under the notification that carries its body |
| ReportRun.FirstVerdictStands | db/queries/business_reports.sql:172-194 | a completed or blocked run row never changes again |
| ReportRun.DecisionsAreFinal | db/queries/business_reports.sql:172-257 | bodies, terminal deliveries, notifications and verdicts survive every continuation unchanged |
| ReportRun.ClaimFencesOthers | db/queries/business_reports.sql:150-170 | a later claim permanently takes the run from every worker that held it |
| ReportRun.StaleOwnerChangesOnly | internal/businessreports/runner.go:298-334 | an action under a claim that no longer holds never changes the run or a delivery, and adds a notification exactly when it hands over a delivery that has none yet |
| ReportRun.LateHandOver | internal/businessreports/runner.go:298-334 | the failing input: a worker that passed the barrier loses the run to another and still adds the notification |
| ReportRun.NeverPartial | internal/businessreports/runner.go:213-223 | runs created without bodies never reach the partial-set branch, its code is never recorded, and a blocked run always has a code |
| ReportRun.SecondBlockIsStale | internal/businessreports/runner.go:392-418 | the block from durable rows after a barrier block never takes effect: the run is already blocked |
| ReportRun.CompletesOnlyEnqueued | internal/businessreports/runner.go:362-387 | the verdict is completed exactly when nothing is pending and every row is enqueued, given that blocked rows carry codes |
| ReportRun.VerdictIs | internal/businessreports/runner.go:362-387 | the verdict is retry exactly while something pends, with the next attempt after the backoff; otherwise blocked exactly when a blocked row carries a code, with the code of the first such row |
| ReportRun.BlockedMeansRefused | internal/businessreports/runner.go:340-388 | in every run, a run blocked for its deliveries has none pending, and its code is the one of the first delivery that is not enqueued |
| ReportRun.BlockedWithoutRecipients | internal/businessreports/runner.go:109-140 | in every run only a run without recipients is blocked for having none |
| ReportRun.BarrierDecides | internal/businessreports/runner.go:198-236 | what a worker does about the rows it listed, exactly by which of them lack a body and which have one |
| ReportRun.VerdictComesLast | internal/businessreports/runner.go:160-177 | the verdict is possible exactly once every listed delivery was visited |
| ReportRun.RunsAreTaken | db/queries/business_reports.sql:150-170 | a claim is possible exactly on an open run that is due and whose lease has run out, and what it leaves |
| ReportRun.RunsAreFinished | db/queries/business_reports.sql:172-194 | every write of the run row takes effect exactly under its own owner and generation, and what each leaves there |
| ReportRun.DeliveriesAreSettled | db/queries/business_reports.sql:221-257 | a delivery is settled exactly by the unexpired holder while it pends, and what is left; a refused write leaves the worker with a pending delivery |
| ReportRun.DeliveriesAreHandedOver | internal/businessreports/runner.go:298-334 | which rows are handed over or skipped, what the outbox holds afterwards, and what each answer of the service leads to |
| ReportRun.BodiesAreStored | internal/adapter/postgres/business_reports.go:951-1002 | a pass stores all of its bodies or none, exactly as unexpired holder of a run in which none of them was stored |
| ReportRun.PersistKeeps | internal/adapter/postgres/business_reports.go:951-1002 | a snapshot set that applies finds no body anywhere and leaves every body from its one summary |
| ReportRunner.Runner.Survey | internal/businessreports/runner.go:199-212 | the first loop finds exactly the rows that lack a body and whether any row has one |
| ReportRunner.Runner.Render | internal/businessreports/runner.go:238-255 | the rendering loop yields a body for every missing row from the one summary, or the first failure in row order |
| ReportRunner.Runner.SnapshotBarrier | internal/businessreports/runner.go:198-268 | every path of the barrier takes only steps the protocol allows at that moment and reports the outcome that the protocol reached |
| ReportRunner.Runner.EnqueueDelivery | internal/businessreports/runner.go:298-334 | one delivery is skipped, left for later, handed over or aborted exactly as the protocol prescribes |
| ReportRunner.Runner.FinishDelivery | internal/businessreports/runner.go:320-334 | the delivery is recorded as enqueued or blocked; a fenced-out write is left for later, a store failure aborts |
| ReportRunner.Runner.Decide | internal/businessreports/runner.go:362-387 | the loop over authoritative rows computes the verdict that module ReportRun reasons about |
| ReportRunner.Runner.FinishAggregate | internal/businessreports/runner.go:340-388 | the verdict that is written is the one decided over freshly listed rows |
| ReportRunner.Runner.EnqueueAll | internal/businessreports/runner.go:160-177 | all listed deliveries are visited in order and the flag for pending ones reaches the verdict |
| ReportRunner.Runner.ProcessOne | internal/businessreports/runner.go:109-178 | every step of a pass is the one that is due, given its phase and what its environment answers, among arbitrary steps of other workers; it stops in the middle only on a failed listing or cancellation, and ends with nothing in hand |
| ReportRunner.OneStepIsNext | internal/businessreports/runner.go:109-178 | in every run and whatever the environment answers, exactly one step is due for a worker in the middle of a pass, so a pass is determined by what it meets |
| OperationKey.RevisionBytesInjective | internal/commerce/operations.go:91-95 | the eight bytes of a revision determine it, negative ones included |
| OperationKey.BytesAre | internal/commerce/operations.go:80-102 | how flags and revisions are written into a key |
| OperationKey.NamesAre | internal/commerce/operations.go:18-78 | the bytes that name the four kinds of keys spell what the source names them |
| OperationKey.OperationKeyBytes | internal/commerce/operations.go:71-89 | the writing loop produces the length-prefixed encoding, or stops on an overlong field |
| OperationKey.EncodeInjective | internal/commerce/operations.go:71-89 | the hashed byte string delimits itself: it determines the list of fields |
| OperationKey.KeysAgreeExactly | internal/commerce/operations.go:20-66 | two keys of any of the four kinds hash the same bytes exactly when kind and every argument agree |
| Commerce.RetryKeysAgreeIff | internal/commerce/operations.go:18-77 | the calls of any two syncs hash the same bytes exactly when they ask the same provider for the same thing: product or variant, revisions, quantity, publication, readiness and fingerprints with their versions |
| Commerce.ApplyKeepsConstraints | internal/adapter/postgres/commerce_mapping.go:79-163 | no mapping write breaks the uniqueness constraints, and a refused one changes nothing |
| Commerce.WritesSucceedIff | internal/adapter/postgres/commerce_mapping.go:79-511 | exactly when each mapping write succeeds: what is there is never replaced, only found again or moved from what the caller knew to what nobody else has |
| Commerce.WritesLeave | internal/adapter/postgres/commerce_mapping.go:79-511 | what each mapping write that succeeds leaves in its row |
| Commerce.GetDesiredCommerceProduct | internal/commerce/source.go:176-275 | the assembled desired state offers stock only when every publication condition holds, else zero for the product and each variant |
| Commerce.DesiredIs | internal/commerce/source.go:176-275 | a product is published exactly when it is active, sold online by its policy and allowed online, and quantities are zero otherwise |
| Commerce.ScriptIsSafe | internal/commerce/service.go:194-218 | which calls a sync makes and what each carries; whatever the provider answers, a product with variants gets no quantity of its own, each variant gets its own, and an unpublished product only zeros |
| Commerce.TransitionsAreExact | internal/commerce/service.go:275-300 | in an accepted set the claimed transitions are exactly the identities that change, and the returned ids exactly the desired ones |
| Commerce.CommerceService.ValidateVariants | internal/commerce/service.go:275-300 | the three loops accept exactly the sets that are usable as a whole |
| Commerce.CommerceService.Persist | internal/adapter/postgres/commerce_mapping.go:272-294 | one atomic write that can fail, or take effect with its reply lost |
| Commerce.CommerceService.CallProvider | internal/commerce/service.go:205-218 | an inventory call is made only if it addresses what the durable mapping says at that moment |
| Commerce.CommerceService.PersistVariants | internal/commerce/service.go:301-322 | rows only move from unmapped, or by a proven parent-to-child transition, to what was returned; on success all are there and created ones are counted |
| Commerce.CommerceService.PublishVariants | internal/commerce/service.go:323-339 | every variant's quantity is sent in order to its mapped id, up to the first failure |
| Commerce.CommerceService.SyncVariants | internal/commerce/service.go:242-342 | no variant row changes unless the whole set was usable; no quantity is sent before every variant is mapped |
| Commerce.CommerceService.PersistProduct | internal/commerce/service.go:159-178 | the product's row is created or moved by compare-and-set from the identity that was known |
| Commerce.CommerceService.PersistConfigurations | internal/commerce/service.go:183-188 | on success every returned configuration identity is stored under the product's current external id |
| Commerce.CommerceService.Identify | internal/commerce/service.go:123-188 | one provider call; on success the returned identity is durable, and it differs from a known one only with the transition marker |
| Commerce.CommerceService.Publish | internal/commerce/service.go:190-224 | quantities go out per variant, or once for a product without variants |
| Commerce.CommerceService.SyncProduct | internal/commerce/service.go:69-225 | for every catalog state, provider, failure and interference: the calls follow the script with what the provider answered, rows change only as proven transitions allow, success means all of it is done, and failure has one of the stated reasons |
| Commerce.ParentIsCurrentIff | internal/adapter/postgres/commerce_mapping.go:478-511 | after a successful sync a variant row names the parent its inventory call addressed exactly if it did before, or is new |
| Commerce.ParentCanBeStale | internal/commerce/service.go:301-339 | the failing input: a product moves to a new parent with its variation unchanged; the one write of that sync leaves the row with the old parent |
| Contention.RunIsSafe | internal/commerce/service.go:69-225 | the invariant of mapping and sessions over every interleaving of syncs of one product without its lock |
| Contention.IdentitiesFormAChain | internal/adapter/postgres/commerce_mapping.go:272-293 | also without the lock no sync overwrites an identity other than the one it had read, and every later identity is proven by the provider |
| Contention.MisdirectedByAnother | internal/commerce/service.go:168-218 | in every run a call that misses the mapped identity was overtaken: only other sessions moved it since the caller last saw it, and the last of those moves led elsewhere |
| Contention.AlwaysAddressedIff | internal/commerce/service.go:168-218 | without the lock all inventory calls of all runs address the mapped identity if and only if there is a single session |
| Contention.LockedCallsAreAddressed | internal/adapter/postgres/commerce_coordination.go:20-73 | where every sync starts only while no other one is in progress, every inventory call addresses the identity mapped at that moment |
| Contention.UncheckedSaveMisdirects | internal/adapter/postgres/commerce_mapping.go:275-277 | the failing input: a sync whose identity the provider confirms saves without comparing, after another sync moved it |
| Contention.CheckedSaveMisdirects | internal/commerce/service.go:168-218 | the other failing input: a sync whose identity is moved after its save was compared and before its call goes out |
| Contention.VariantMovesAtMostOnce | internal/adapter/postgres/commerce_mapping.go:478-511 | over any mapping writes in any order a variant row keeps its parent and store, and its identity changes at most once, from the parent to a child |
| DeviceControl.RunIsSafe | db/migrations/00017_device_connectivity_control.sql:19-48 | over every sequence of guarded statements the table keeps its constraints and outcomes match their codes |
| DeviceControl.KeysAre | internal/devicecontrol/devicecontrol.go:75-90 | an idempotency key is valid exactly with 1 to 128 letters, digits or the signs _ : . ~ - |
| DeviceControl.AtMostOneCommand | db/migrations/00017_device_connectivity_control.sql:40-48 | in every run a device has at most one active command and a key names at most one command |
| DeviceControl.KeysAreNeverReused | internal/operations/operations.go:223-227 | a key that named a command names the same one ever after: one reconnect command per incident |
| DeviceControl.OutcomesAreFinal | db/queries/device_control.sql:90-125 | statuses never go back and the first outcome stays, with its code, over every continuation |
| DeviceControl.StatementsMatch | db/queries/device_control.sql:42-125 | which rows each guarded statement meets, by device and status, and which outcomes with which codes a finish may record |
| DeviceControl.StatementsWrite | db/queries/device_control.sql:42-125 | what each statement that meets its row leaves in it, and that it touches no other |
| DeviceControl.Service.CreateSyncRequest | internal/devicecontrol/service.go:38-80 | among arbitrary concurrent operations and store failures the answer is the one of SyncAnswer; success names the command of this key, and a key taken on entry can only answer that command |
| DeviceControl.QuietSync | internal/devicecontrol/service.go:38-80 | an undisturbed request gets the command of its key, else is told of the active one, else creates its own |
| DeviceControl.BlamesItselfIff | internal/devicecontrol/service.go:38-80 | over all interleavings and failures a request is never told that its own command is in its way exactly when its key names a command before it starts, or no other request with the key runs meanwhile |
| DeviceControl.SameKeyRace | internal/devicecontrol/service.go:52-63 | the failing input: a second request with the key, between the two lookups of the first |
| DeviceControl.Service.Converge | internal/devicecontrol/service.go:64-78 | a lost creation race is answered with the winner of the key, the active command, or a conflict |
| DeviceControl.Service.Progress | internal/devicecontrol/service.go:92-144 | receipt and progress never take a command back and say nothing new after its outcome; undisturbed, a receipt leaves it accepted or running and progress running |
| DeviceControl.Service.Advance | internal/devicecontrol/service.go:106-118 | among arbitrary other statements a receipt is recorded as ACCEPTED and progress as RUNNING, exactly for the statuses the statement allows; otherwise the command is read again |
| DeviceControl.Service.ReportTerminal | internal/devicecontrol/service.go:147-219 | among arbitrary concurrent operations and store failures the answer is the one of ReportAnswer; success means the command carries the reported status, and a command terminal on entry stays as it is |
| DeviceControl.QuietReport | internal/devicecontrol/service.go:147-200 | the first report of an outcome is recorded and answered with its own status and code |
| DeviceControl.ContradictionAcceptedIff | internal/devicecontrol/service.go:165-174 | a report that contradicts the recorded outcome is accepted exactly when both say FAILED with different codes |
| DeviceControl.TwoFailureCodes | internal/devicecontrol/service.go:165-174 | the failing input: a network failure and then an authentication failure, both acknowledged |
| DeviceControl.Service.Settle | internal/devicecontrol/service.go:176-215 | a finish that matches no row found a command that already has its outcome, so the source's second attempt is never reached |
| Recovery.RunIsSafe | db/queries/operations.sql:151-173 | the counting invariant over every interleaving of claims, results, crashes and lost records of n workers |
| Recovery.ClaimsRead | db/queries/operations.sql:151-158 | a worker takes a pending row that is due, and remembers the attempts it has counted |
| Recovery.ResultsAreRecorded | internal/operations/recovery.go:56-113 | what each recorded outcome leaves in a pending row: the command with its result, a block with its code, or the next attempt a minute later for every attempt that was read; and which outcomes count as requests |
| Recovery.AnswersMean | internal/operations/recovery.go:56-97 | a created command is queued, an active one adopted, and every other answer left to be retried |
| Recovery.AttemptsAreBounded | internal/operations/recovery.go:99-113 | n workers record at most 8 + n failed attempts and ask at most 8 + 2n times and once more for every lost result |
| Recovery.WorstIsReached | internal/operations/recovery.go:99-113 | for every n and every number of lost results there is a run of n workers that asks exactly 8 + 2n times and once for each of them |
| Recovery.TenAttemptsIffOneWorker | internal/operations/recovery.go:99-113 | over all runs ten requests are the limit exactly for a single worker that loses no result, and ten besides those whose result was lost exactly for a single worker |
| Recovery.LimitIff | internal/operations/recovery.go:99-113 | a number of requests is a limit over all runs exactly when it leaves room for 8 + 2n and every lost result |
| Recovery.LostResultsAreNotCounted | internal/operations/recovery.go:73-97 | the failing input with one worker: eleven requests whose results are lost, and a row that counted none |
| Recovery.FinishedForever | db/queries/operations.sql:160-173 | a completed or blocked action never changes |
| Recovery.RecoveryWorker.ProcessOne | internal/operations/recovery.go:44-97 | a pass makes one claim, at most one request, and the one decision that the claimed count calls for, among arbitrary steps of others |
| Recovery.RecoveryWorker.RetryOrBlock | internal/operations/recovery.go:99-113 | blocks on the tenth attempt, else backs off by the minute up to thirty |
| Reconnect.KeysTellIncidents | internal/operations/operations.go:225-227 | two incidents never share an idempotency key |
| Reconnect.Ask | internal/operations/recovery.go:73-97 | what a worker learns from the command service, among all other operations on the table, is true of the table, and it is the answer of the command service passed on: its command, the active one, or a failure |
| Reconnect.AnswerStaysTrue | internal/operations/recovery.go:73-97 | what a worker was told stays true until it records it, whatever happens to the table meanwhile |
| Reconnect.HalvesAreRuns | internal/operations/recovery.go:44-113 | a joint run of recovery and command table is a run of each, so what is proved of each holds together |
| Reconnect.OneCommandAnIncident | internal/operations/recovery.go:44-113 | one incident: bounded requests, a completed action names an existing command of the device (its own if queued for it), and no second command ever carries its key |
| Projector.ApplySettles | db/queries/catalog_projection.sql:265-306 | no step but an arrival or a graph advance opens an event or re-arms a block, whether of this projector or of another instance |
| Projector.AttemptKeeps | internal/catalog/projector.go:311-333 | after any attempt the event is remembered and, without an outside change, no longer open |
| Projector.RearmsExactly | db/queries/catalog_projection.sql:281-306 | re-arming makes exactly those blocked rows pending and due whose missing category has been projected since, and leaves none behind |
| Projector.ClaimsMark | internal/adapter/postgres/catalog.go:679-780 | a claim works on new, pending and fallen-due rows alone, and marks them with what the attempt came to |
| Projector.Projector.Discover | internal/catalog/projector.go:292-310 | re-arms first: unless an arrival or advance came meanwhile nothing is left to be re-armed, and undisturbed every re-armed row is among the due ones that the batch is taken from |
| Projector.Projector.PendingCatalogEvents | db/queries/catalog_projection.sql:5-23 | discovery returns up to a batch of distinct due events, and all of them when they fit |
| Projector.Projector.ProjectOnce | internal/adapter/postgres/catalog.go:679-780 | what a terminal outcome leaves: a terminal row, or a condemned event whose row was not due at its claim; no other event gets a retry; what cannot be loaded is retryable |
| Projector.BlockedButOpenIff | internal/adapter/postgres/catalog.go:757-780 | a blocked answer leaves no terminal row exactly for a condemned event whose row is not due |
| Projector.Projector.DrainBatch | internal/catalog/projector.go:311-333 | whatever the clock says, deferred events are skipped and those tried in vain become deferred; where every terminal outcome closes its event or is accounted for, a batch that attempts anything comes nearer to the end |
| Projector.Projector.Round | internal/catalog/projector.go:292-341 | one round keeps the same two promises, names its reason to stop, and over a single condemned event does what CondemnedRound says |
| Projector.Projector.FirstRounds | internal/catalog/projector.go:288-342 | however long a drain goes on and whatever the clock says, no event is tried again that was tried in vain; over a single condemned event its rounds are those of CondemnedRounds |
| Projector.Projector.Drain | internal/catalog/projector.go:288-342 | the loop ends if nothing is condemned, however often other instances fail, or if sooner or later the clock goes forward and their failures are finitely many; a retryable or not-due event is attempted once; where that holds from the start, any other again only after an outside change; it stops with nothing due or nothing new; unless an arrival or advance came meanwhile it finds nothing due only when no block is left to be re-armed |
| Projector.RepeatsIff | internal/catalog/projector.go:305-333 | over a single condemned event, after any number of rounds the drain goes on as it began exactly when in each of them the clock stepped back across the retry time between discovery and claim |
| Projector.NeverEndsIff | internal/catalog/projector.go:288-342 | such a drain goes on for ever exactly when the clock steps back so in every round |
| Cursor.UnescapeSucceedsIff | internal/operations/operations.go:254-270 | percent-decoding fails exactly at a percent sign, wherever it stands, that is not followed by two upper-case hexadecimal digits |
| Cursor.UnescapeEscape | internal/operations/operations.go:237-270 | unescaping inverts escaping for every byte string |
| Cursor.EscapeIsPlain | internal/operations/operations.go:237-250 | an escaped cursor contains only unreserved characters and percent signs |
| Cursor.EscapesExactly | internal/operations/operations.go:237-250 | letters, digits and four signs stand for themselves, every other byte for its two hexadecimal digits |
| Cursor.ColonNumberIs | internal/operations/operations.go:272-280 | a minute or second of a cursor time is a colon and exactly two digits below 60 |
| Cursor.TimestampParses | internal/operations/operations.go:238 | every UTC timestamp of section 5.6 of RFC 3339, with any nanoseconds, is read back from its text |
| Cursor.LocalParses | internal/operations/operations.go:275-279 | every timestamp in any zone is read as that time taken back by the offset, or refused with the offset |
| Cursor.OtherZoneDecodes | internal/operations/operations.go:253-280 | a cursor written with the offset of any zone decodes to the same instant, in UTC, and the same id |
| Cursor.RoundTrip | internal/operations/operations.go:237-280 | decoding inverts encoding for every timestamp and every non-empty id of any bytes |
| Cursor.EmptyIdIsRejected | internal/operations/operations.go:271-274 | the empty id is the one that does not survive |
| Cursor.EncodeCursor | internal/operations/operations.go:237-250 | the byte loop computes the encoding the round trip is proved of |
| Cursor.DecodeCursor | internal/operations/operations.go:253-280 | the byte loop computes the decoding the round trip is proved of, with every failure |
| Analytics.AddAnalytics | internal/dashboard/service.go:1553-1561 | adds exactly, or fails exactly when the sum leaves 64 bits |
| Analytics.RowsAdd | internal/dashboard/service.go:1230-1330 | what one more row adds to each published number; pending, processing, held and completed orders are the active ones |
| Analytics.AddRow | internal/dashboard/service.go:1342-1386 | a row changes exactly its own currency, status and provider groups, by its amounts |
| Analytics.Aggregate | internal/dashboard/service.go:1336-1386 | every tally is the exact sum of its rows, the groups are those of rows with a currency, and it fails exactly when some running total leaves 64 bits |
| Analytics.BreakdownsAgree | internal/dashboard/service.go:1387-1405 | orders summed over currencies, over statuses and over providers all equal the orders of all rows with a currency |
| Analytics.OrderAnalytics | internal/dashboard/service.go:1320-1407 | the published lists are exact, list exactly the groups that rows have, in strict key order, or there are none because a running total would overflow |
| Base64.EncodeDecodes | internal/release/release.go:261-267 | section 4 of RFC 4648: decoding inverts encoding for every byte string, with the exact length |
| Base64.TestVectors | internal/release/release.go:421-426 | the test vectors of RFC 4648, section 10 |
| Base64.DecodeIsCanonical | internal/release/release.go:261-267 | strict decoding accepts one text for every byte string, up to line ends |
| Release.ManifestScans | internal/release/release.go:211-222 | every manifest whose texts need no escaping is read back from its printed form |
| Release.ManifestReads | internal/release/release.go:208-222 | the canonical text of a manifest, field by field |
| Release.ArtifactReads | internal/release/release.go:208-222 | the canonical text of an artifact, field by field |
| Release.CanonicalIgnoresOrder | internal/release/release.go:211-232 | encodings are equal exactly for manifests that are the same up to the order of artifacts, for all others, if and only if no platform and package comes with two different artifacts |
| Release.Validate | internal/release/release.go:313-352 | accepts exactly the valid manifests, and reports only an unknown version as unsupported |
| Release.ValidManifestsAre | internal/release/release.go:283-352 | what every valid manifest is, field by field, with its bounds and the strict order by platform |
| Release.ValidArtifactsAre | internal/release/release.go:320-346 | what every artifact of a valid manifest is, field by field |
| Release.CanonicalIsSmall | internal/release/release.go:46-54 | a valid manifest encodes to at most 18000 bytes, within the 32 KiB bound |
| Release.ParseManifestIff | internal/release/release.go:284-311 | reading accepts exactly the canonical encodings of valid manifests: one byte string for each |
| Release.IdsAndDigestsAre | internal/release/release.go:157-160 | a key id is the first eight bytes of the hash of the key, and a digest the whole hash, in small hexadecimal digits |
| Release.Sign | internal/release/release.go:400-432 | signs the given manifest and no other: same release, same artifacts in strict order, the id of the key, defaults only for what is unset; succeeds exactly when that manifest is valid, and returns its canonical bytes, digest and envelope |
| Release.SignedVerifies | internal/release/release.go:242-280 | verifying a signed envelope under a trusted key, by any reader that reads canonical envelopes, returns that manifest, bytes and digest, inside both size bounds |
| Release.VerifiedIsGenuine | internal/release/release.go:242-280 | whatever verifies, in any spelling its reader accepts, is a valid manifest in its one encoding, signed under a trusted key that it names itself |
| Release.VerifyIff | internal/release/release.go:242-280 | an envelope of a known key is accepted exactly when its signature verifies and its manifest reads and names that key; otherwise a bad signature is what it is refused for |
| Release.UnknownKeysAreRefused | internal/release/release.go:242-280 | an envelope is refused for an unknown key exactly when it is well formed up to its key id and that key is not trusted |
| Release.SequenceDecides | internal/release/release.go:381-397 | each answer of the install policy exactly for its condition on sequences and digests |
| Release.InstallsOnlyForward | internal/release/release.go:381-397 | over every run of offers installed sequences strictly increase and each release found the sequence it requires |
| Release.SequenceNamesOneRelease | internal/release/release.go:381-397 | no two installed releases share a sequence number |
| Release.ReplayIsHarmless | internal/release/release.go:381-397 | over every run, offering again any installed release or anything as old, in any order and number, changes nothing |
| Release.ReplayIsAnswered | internal/release/release.go:385-390 | in every run an offer with the number of an installed release is a downgrade if a later one followed, else installed exactly for its digest and a conflict for any other |
| Release.InstallsExactly | internal/release/release.go:381-397 | in every run an offer is installed exactly when it is newer than what is there and finds the sequence it requires |
| Sorting.SortIdentifies | internal/catalog/fingerprint.go:114-139 | without ties, sorting gives equal results exactly for equal multisets |
| Sorting.SortIdentifiesIff | internal/catalog/fingerprint.go:114-139 | sorting identifies the elements for all other arrangements if and only if there are no ties |
| Sorting.SortedIsUnique | internal/catalog/fingerprint.go:114-139 | without ties there is one sorted arrangement, whatever algorithm finds it |
| NormalForms.TrimIsMiddle | internal/catalog/fingerprint.go:80-89 | trimming yields the one text without outer space that remains when outer space is removed |
| NormalForms.SpacesAre | internal/catalog/fingerprint.go:80-91 | white space is that of Unicode, one by one |
| NormalForms.NormalDescriptionIs | internal/catalog/fingerprint.go:80-91 | a description counts as absent exactly when it is absent or all white space, and otherwise as its trimmed text |
| NormalForms.NormalizeProductSnapshot | internal/catalog/fingerprint.go:114-139 | the copying loops and sorts compute the normal form the identification is proved of |
| NormalForms.SameProductIff | internal/catalog/fingerprint.go:114-139 | without clashes two snapshots have equal normal forms exactly when they agree up to order of tags, translations and prices, outer space of descriptions, and the SKU |
| NormalForms.FormIdentifiesIff | internal/catalog/fingerprint.go:114-139 | a normal form identifies its product among all snapshots if and only if no locale comes with two different translations and no currency with two different prices |
| NormalForms.NoiseIsIgnored | internal/catalog/fingerprint.go:114-139 | any other SKU, added outer space and reordered tags leave the normal form as it is |
| NormalForms.OnlySubcategoryOrderShows | internal/catalog/fingerprint.go:114-139 | when all four lists are reordered the normal form stays exactly if the subcategories kept their order |
| NormalForms.RepeatedLocaleIsTold | internal/catalog/fingerprint.go:120-127 | the failing input: with one locale twice, reordered translations are told apart |
| NormalForms.FormsAreOrdered | internal/catalog/fingerprint.go:114-142 | translations stand by locale, prices by currency, tags by text and attributes by position and code, and none is lost |
| NormalForms.ValidateAttributes | internal/catalog/variants.go:135-166 | the loop accepts exactly at most 32 valid attributes with distinct definition codes |
| NormalForms.ValidAttributesAre | internal/catalog/variants.go:135-196 | the bounds of every text of a valid attribute |
| NormalForms.SameVariantIff | internal/catalog/variants.go:284-300 | distinct definition codes, which the validator demands, make equal normal forms mean the same variant up to order of attributes and mirrored fields |
| Fleet.ApplyReport | internal/fleetupdate/fleetupdate.go:154-182 | the decision filled in step by step is the one the run properties are proved of |
| Fleet.ReportsMean | internal/fleetupdate/fleetupdate.go:97-145 | which local states and codes stand for each target state |
| Fleet.ReportsAreTaken | internal/fleetupdate/fleetupdate.go:154-183 | an open target takes what its device reports; a failure uses up an attempt and re-offers with its backoff, the fifth is final |
| Fleet.DecisionsAreTold | internal/fleetupdate/fleetupdate.go:154-183 | a decision is marked as changed, finished or overruling a cancel exactly when it is |
| Fleet.OthersMove | db/queries/fleet_updates.sql:97-172 | promotion, delivery, platform checks and cancellation move a target exactly out of the states they are meant for |
| Fleet.AttemptsAreBounded | internal/fleetupdate/fleetupdate.go:154-182 | over every sequence of events at most five failed attempts and at most four re-offers, each due after its own delay |
| Fleet.ReoffersFallDueLater | internal/fleetupdate/fleetupdate.go:185-194 | with a clock that does not go back every re-offer falls due later than it was decided and later than every earlier one |
| Fleet.TerminalForever | internal/fleetupdate/fleetupdate.go:80-87 | every final state but CANCELLED absorbs all further events |
| Fleet.CancelledIsLeftOnlyForTruth | internal/fleetupdate/fleetupdate.go:156-162 | CANCELLED is left exactly for a report of activation or of its outcome, with attempts untouched |
| Fleet.ReofferExactlyWhen | internal/fleetupdate/fleetupdate.go:169-177 | a re-offer is scheduled exactly for a retryable failure of an open target with fewer than four before |
| Fleet.RepeatedFailureCountsTwice | internal/fleetupdate/fleetupdate.go:169-177 | the failing input: the same failure reported twice counts two attempts |
| Fleet.RepetitionCountsIff | internal/fleetupdate/fleetupdate.go:154-182 | in every run a repeated report changes the row again exactly when it is a retryable failure of an open target with a re-offer left, and then counts two attempts |

## Left out

- Time zones: a zone maps instants to civil dates without going back and maps a civil minute to an instant on that date or, in a gap, possibly on the date before; the time-zone database and other choices for missing or repeated wall times are not modelled.
- Nil checks on locations and the wall-clock detail of AddDate(0, 0, -1) in periodCivilDates, which only ever sees local midnights.
- Fmt scanning and normalisation inside parseCivilDate: both parsers are the pattern followed by the existence of the date.
- Which due row a claim picks (order and SKIP LOCKED): any due row may be picked.
- The timers, wake channels and metrics around drain loops, and the bounded claim loop of the report runner, which adds nothing to one pass.
- PersistDeliverySnapshot for a single delivery, which nothing calls, and deliveries added after a run was created.
- Template resolution, recipients and provider message ids that collide: a colliding id is one of the store failures.
- Provider adapters, the registry, mutation barriers and the guard that detects a lost session before a provider call: a provider may answer anything. Module Commerce gives a sync its product's lock to the end; module Contention has no lock and follows the product's own identity and the variant rows, not configurations.
- Commerce.CommerceService.SyncProduct: variant rows of other products are assumed never to carry a variant id of this product, as variant ids belong to one product.
- Labels, attributes, prices and fingerprints inside the desired commerce state, and ConfiguredPrice: they pass through unchanged or are single checks.
- Presence rows and timestamps of commands (seen, accepted, running, finished), and Overview: last-writer bookkeeping without influence on commands.
- Device deletion, which removes commands by cascade.
- Incident detection, alert deliveries and the claim of several recovery actions at once; the model follows one action row.
- Which relations re-arm a block: a graph advance may concern any set of events.
- General JSON: manifests are read in their canonical spelling, which is all the source accepts; the envelope reader, with its rejection of duplicate keys, is a parameter of which only the canonical spelling is asked.
- SHA-256 and Ed25519 are parameters; only that signatures verify and have their lengths is assumed, not that they cannot be forged.
- SelectArtifact, TrustSet construction and public-key parsing.
- The algorithm of sort.Slice: sorting is a function, and without ties its result is proved not to depend on the algorithm; with ties only that sorted input stays as it is matters. Sign also reorders the caller's slice, which the model does not show.
- JSON encoding and hashing of comparison forms, and the forms of categories, tags, policies and inventory, which only copy and sort.
- Rollout scheduling, percentage buckets and rollout completion.
- HTTP, configuration, migrations as such, the dashboard, human accounts.
