# Pulse, verified

Pulse is an uptime monitor. Its logic lives in small transactions over one PostgreSQL database: workers record
check results, a state machine turns them into incidents and notifications, a notifier delivers those, a retention
job condenses raw results into daily summaries, and plan limits, billing and team seats decide what a tenant may
do. This project models those machines and proves what they keep over whole histories and interleavings.

Every service is modelled twice. A `class` holds the mutable state and its methods run the source's steps in the
source's order (`Alerting.Store`, `Notifier.Service`, `Retention.Store`, `Scheduler.Scheduler`,
`RateLimiter.RateLimiter`, `Admission.Tables`, `Team.Tables`, `Billing.Webhook`, `StripeSetup.Setup`). Where the
source decides the outcome, a method is proved equal to a function on values; where the database or Stripe decides
(which rows a DELETE with LIMIT takes, when a call fails), it is proved to meet a relation between the states before
and after: `Retention.Store.DeleteBatch`, `DeleteExpired`, `Prune` and `RunPass`, and `StripeSetup.Setup`. The
theorems are about runs of those functions and relations. A run is a sequence of events of any length; the clock, check outcomes, send
outcomes, which rows a LIMIT picks, and which statements fail are inputs.

| file | source | about |
|---|---|---|
| `Common.dfy` | | time, in microseconds, and `Option` |
| `Alerting.dfy` | `internal/alerting/incidents.go` | the transactions: results, incidents, queueing, the sweep |
| `AlertRuns.dfy` | same | workers, sweepers and users interleaved; closed form of a result history |
| `AlertNotices.dfy` | same | who is told, exactly once, and when the two kinds of notice agree |
| `AlertDelays.dfy` | same | the alert delay |
| `AlertChannels.dfy` | same | which channels, which incidents: tenant, routing, verification, windows, delay |
| `Notifier.dfy` | `apps/notifier/cmd/notifier/main.go` | retry, backoff, dead letters |
| `Downtime.dfy` | `internal/retention/retention.go` | incidents cut at midnights |
| `Percentiles.dfy` | same | `percentile_disc` |
| `Retention.dfy` | `internal/retention/retention.go`, and the bars of `internal/http/public_handlers.go` | rollup, batched prune, status page bars |
| `RetentionRuns.dfy` | same, and `apps/retention/cmd/retention/main.go` | inserts, the three statements of a rollup, and prunes over time |
| `RetentionFigures.dfy` | same, and the bars of `internal/http/public_handlers.go` | what the figures of a summary and of a bar mean |
| `RetentionLosses.dfy` | same | two runs that lose a day |
| `DowntimeRuns.dfy` | same | the downtime column over time, while incidents open and close |
| `Admission.dfy` | `internal/plans/plans.go`, monitor and channel handlers | count-then-insert, statement by statement |
| `Scheduler.dfy` | `apps/scheduler/cmd/scheduler/main.go` | claiming, fairness, spacing |
| `Billing.dfy` | `internal/http/billing_handlers.go` | checkout price, webhook, subscriptions |
| `BillingEffects.dfy` | same | what each event makes of a tenant |
| `StripeSetup.dfy` | `apps/stripe-setup/cmd/stripe-setup/main.go` | creating and storing prices |
| `RateLimiter.dfy` | `internal/http/ratelimit.go` | fixed-window counter, client key |
| `Team.dfy` | `internal/http/team_handlers.go` and `Signup` | seats and ownership |
| `TeamEffects.dfy` | same | when each request goes through, what it changes, whom it leaves alone |

A function on values says what a step does, not that this is right. So beside the runs there are theorems that name
no such function and speak of the tables' own columns: `AlertChannels`, `RetentionFigures`, `BillingEffects` and
`TeamEffects`, and the closing lemmas of the other modules.

Some expectations turned out false of the code. They are kept as lemmas that exhibit the run, next to the exact
condition under which the code does meet them:

* A swept alert does not look at `resolved_at` again, so a scan, a recovery and then the scanned item tell people
  of an outage that is over and never of its end (`LateItemIsHeardOnlyAsDown`; exact condition in
  `BothToldIffNotAnnouncedLate`).
* A rollup's aggregation and its marker each ask for the date. If midnight falls between them, the marker passes a
  day no summary has, and none ever will (`MidnightLosesADay`); and `runPass` prunes although its rollup failed, so
  raw rows can leave before any summary has them (`FailingRollupsLoseADay`). `CertainIffKeeps` and
  `CertainThroughoutIff` have the exact condition on markers and prunes for a table that is right and certain to
  stay so, `OnTimeRunsKeep` and `PruneIsSafeIff` what suffices on the clocks. A day no rollup has
  reached shows as "no data" (`BarIsRightIff`), and a day lost does so for ever (`LostDayShowsNoData`).
* A message that was accepted but whose row could not be updated can always be delivered again
  (`LostDeliveryIsRepeated`; exact condition in `OnceIffDeliveriesStored`). Other lost updates do no such harm.
* A Stripe event is lost for good when the price lookup fails, which is answered as success, or when the event fails
  and cannot be un-recorded (`FailedLookupLosesTheUpgrade`, `LostEventIsNeverHandled`; exact condition in `LostIff`).
* The price setup leaves columns of plans it skips as they are. A stale one can hold an id that another plan sells at
  (`StaleColumnCollides`; exact condition in `DistinctIffNoneStale`).
* Ownership is transferred by whoever's token says "owner". If that token is out of date the tenant ends up with
  two owners (`StaleTokenRun`; exact condition in `OneOwnerIff`).
* A monitor's rank alone does not bound its wait: others created or re-enabled at its due time or before jump in
  (`BoundFailsAtTheInstant`). `RankRisesIff` says exactly which events do; counting them, the bound holds
  (`NoStarvation`).

Where code and comments differ, the model follows the code: the notifier's comment lists six waits, of which the
sixth never happens because the sixth failure is final; the incidents code says planned incidents do not count
against uptime, but the downtime statement includes them.

## Model

| member | source | states |
|---|---|---|
| Alerting.Store.ProcessResult | internal/alerting/incidents.go:26-139 | the transaction has exactly the effect of `Process` on all tables, and fails exactly for an unknown monitor |
| Alerting.Store.QueueNotifications | internal/alerting/incidents.go:145-164 | one row per wanted channel, none that is there already, nothing else written |
| Alerting.Store.SweepDelayedAlerts | internal/alerting/incidents.go:280-327 | a sweep with nothing else committing announces what its scan found, each item at its own time, items that fail left out |
| AlertRuns.LongRunsListed | internal/alerting/incidents.go:45-56 | the runs tracked result by result are, in order, exactly the maximal failure runs of two or more |
| AlertRuns.HistoryDeterminesIncidents | internal/alerting/incidents.go:45-135 | in every reachable state a monitor's counter is its trailing failure run, it is down iff that run is at least 2, and its incidents are one for one, in order and with start and end, the maximal failure runs of at least 2 |
| AlertRuns.DownMeansOneOpenIncident | internal/alerting/incidents.go:64-116 | down if and only if exactly one incident is open; otherwise none is |
| AlertRuns.IncidentsNeverOverlap | internal/alerting/incidents.go:64-116 | on a clock that does not run backwards one monitor's incidents are disjoint, in order, and only the last may be open |
| AlertNotices.QueueRowsEffect | internal/alerting/incidents.go:145-164 | rows are only appended, uniqueness survives, and the channels told are those told before plus those wanted |
| AlertNotices.NoticesAreSound | migrations/000002_alerting.up.sql:35-38 | with any number of workers and sweepers: one row per incident, channel and kind; each belongs to an unplanned, announced incident; each recovery row to a resolved one |
| AlertNotices.BothToldIffNotAnnouncedLate | internal/alerting/incidents.go:304-325 | for a resolved incident on fixed channels: the same channels hold "down" and "recovered" if and only if it was not first announced after its end (or has no channels) |
| AlertNotices.UndisturbedIsNeverLate | internal/alerting/incidents.go:280-327 | if no result of the monitor commits between scan and item, no announcement is late and no resolved incident is still held by a sweeper |
| AlertNotices.SameChannelsHearBoth | internal/alerting/incidents.go:125-135 | with sweeps so undisturbed and fixed channels, both kinds always reach the same set of channels |
| AlertDelays.AnnounceAllEffect | internal/alerting/incidents.go:304-325 | a sweep marks and announces exactly the scanned items that do not fail, whatever their order |
| AlertDelays.ScanListsTheOverdue | internal/alerting/incidents.go:281-302 | a scan lists exactly the incidents that are open, unplanned, unannounced and past a delay other than 0 |
| AlertDelays.SweepLeavesNoneOverdue | internal/alerting/incidents.go:280-327 | after a sweep without failures every incident that was open, unplanned, unannounced and past a delay other than 0 is announced, no other was touched, and none is left so |
| AlertDelays.SweepAnnouncesAllDue | internal/alerting/incidents.go:280-327 | with anything committing in between: once a replica has handled all items of its scan and none rolled back, every incident that was so at the scan is announced |
| AlertDelays.NoAlertWithinDelay | internal/alerting/incidents.go:88-105 | with a fixed positive delay no "down" row is queued at or before start plus delay, in any interleaving |
| AlertDelays.BriefOutageIsSilent | internal/alerting/incidents.go:125-131 | and an incident over by then is never announced and has no rows at all, in any interleaving |
| AlertDelays.LateItemIsHeardOnlyAsDown | internal/alerting/incidents.go:304-325 | the interleaving in which a channel is told of an outage after its end, and never of its end |
| AlertChannels.OnlyRightChannelsAreTold | internal/alerting/incidents.go:145-164 | over any run, every row added is for a channel of the incident's own tenant that is enabled, verified if it is email, and routed to if the monitor has routes |
| AlertChannels.EveryRightChannelIsTold | internal/alerting/incidents.go:97-104 | and once an announcement commits, every such channel holds a "down" row |
| AlertChannels.EveryRightChannelHearsTheEnd | internal/alerting/incidents.go:125-135 | and once the end of an announced incident commits, a "recovered" row |
| AlertChannels.OpenedIncident | internal/alerting/incidents.go:65-105 | an incident opens planned if and only if a window of its tenant covers the moment and its monitor, or all monitors; and announced at once if and only if it is not and there is no delay |
| AlertChannels.SettingsTakeEffect | internal/alerting/incidents.go:145-164 | channels, routes, windows and delays that users set are what later commits see |
| Notifier.Service.DeliverOne | apps/notifier/cmd/notifier/main.go:126-172 | one job attempts one send and writes the row as success or failure demand |
| Notifier.Service.Drain | apps/notifier/cmd/notifier/main.go:95-173 | a pass handles its picked rows one by one, each from the attempts its scan read |
| Notifier.EveryRunLives | apps/notifier/cmd/notifier/main.go:126-172 | in every reachable state with deliveries stored, each row's status and attempts fit its log of attempts; with all updates stored they are equal to it, with the doubling waits between attempts, to the microsecond |
| Notifier.DeliveredAtMostOnce | apps/notifier/cmd/notifier/main.go:145-153 | if the update after each accepted message is stored, whatever else fails: no message is accepted twice, and a row is sent iff its message was |
| Notifier.DeadMeansSixFailures | apps/notifier/cmd/notifier/main.go:155-172 | if all updates are stored: at most 6 attempts; dead iff exactly 6 failures, and then the last is at least 31 minutes after the first |
| Notifier.BackoffIsExact | apps/notifier/cmd/notifier/main.go:166-171 | a failed row is due exactly 1, 2, 4, 8 or 16 minutes after its first to fifth attempt was written |
| Notifier.DueRowsAreAttempted | apps/notifier/cmd/notifier/main.go:106-110 | a pass with room among its 50 attempts exactly the pending and failed rows that are due |
| Notifier.NewRowsAreAttempted | apps/notifier/cmd/notifier/main.go:106-110 | a row just queued among them |
| Notifier.EarliestAreAttempted | apps/notifier/cmd/notifier/main.go:108-109 | a full pass attempts none that is due later than one it leaves out |
| Notifier.OnceIffDeliveriesStored | apps/notifier/cmd/notifier/main.go:145-153 | after a pass, at most one delivery per message is certain over all further runs that store theirs, if and only if the pass stored its own |
| Notifier.LostDeliveryIsRepeated | apps/notifier/cmd/notifier/main.go:98-153 | in any run, a pass that loses the update of an accepted message has a continuation without any fault that delivers it again |
| Notifier.PassSettles | apps/notifier/cmd/notifier/main.go:106-109 | each stored update of a pass lowers the sum of (6 - attempts) |
| Notifier.SettledIsFinal | apps/notifier/cmd/notifier/main.go:106-109 | sent and dead are final, in every run and whatever updates are lost |
| Notifier.PassesAreFinite | apps/notifier/cmd/notifier/main.go:95-173 | without new rows or lost updates, at most that many passes pick anything |
| Downtime.ShareOfADay | internal/retention/retention.go:91-93 | a day's share of an incident is between 0 and 24 hours, and exactly 24 for a day in the middle |
| Downtime.DowntimeIsConserved | internal/retention/retention.go:88-101 | the shares over all its days sum exactly to end minus start |
| Downtime.SeparatedSpansFit | internal/retention/retention.go:88-101 | disjoint incidents fill no more of a day than has passed by the end of the last |
| Downtime.ShareIsOverlap | internal/retention/retention.go:91-101 | an incident's share of a day is its overlap with the day, days it does not touch included |
| Downtime.MinutesAreNearest | internal/retention/retention.go:91-94 | minutes are rounded to the nearest |
| Downtime.DowntimeFitsInADay | internal/retention/retention.go:86-102 | in every reachable state of the alert pipeline a monitor's rounded downtime for a day is between 0 and 1440 minutes |
| Downtime.PastDaysAreSettled | internal/retention/retention.go:92 | once a day is over its figure is final: incidents that open, and open ones that close, later change neither the time down nor whether there is any |
| Downtime.PipelineAgesIncidents | internal/alerting/incidents.go:64-116 | every run of the alert pipeline changes incidents in those ways only |
| DowntimeRuns.DowntimeIsSettled | internal/retention/retention.go:84-104 | over any run: from the first downtime statement that succeeds after a day is summed up, its row holds the minutes of all incidents, and still does whatever opens, closes, runs or fails later |
| DowntimeRuns.PipelineReadingsAge | internal/retention/retention.go:88-101 | downtime statements that read the alert pipeline's incidents, in the order of its commits, are such runs |
| DowntimeRuns.StoredDowntimeFits | internal/retention/retention.go:86-102 | no downtime ever stored is below 0 or above 1440 minutes, statements failing or not |
| Percentiles.PercentileIsLeastToReach | internal/retention/retention.go:49-56 | the percentile is an observed value that reaches its fraction of the data, and no smaller number does |
| Percentiles.PercentilesAscend | internal/retention/retention.go:49-56 | a higher percentile is never a smaller value |
| Percentiles.PercentileOfPermutation | internal/retention/retention.go:49-56 | it depends on the multiset of values only |
| Retention.FiguresAscend | internal/retention/retention.go:47-57 | p50 <= p95 <= p99 <= max, all four absent together exactly when no check succeeded |
| Retention.UpsertOne | internal/retention/retention.go:63-75 | upserting group after group, in any order, is upserting all at once; a row's downtime is kept |
| Retention.Store.UpsertGroups | internal/retention/retention.go:63-77 | the aggregation statement, one group at a time |
| Retention.Store.RecordDowntime | internal/retention/retention.go:86-102 | row by row: figures stay, rows with incidents that day get their rounded minutes, all others stay as they are |
| Retention.Store.SumUp | internal/retention/retention.go:35-79 | aggregates from the day after the marker (or from the oldest row) to yesterday by its own clock, and counts the rows |
| Retention.Store.Rollup | internal/retention/retention.go:22-113 | the three statements, each at its own time and failing or not: table, marker, count of rows and error |
| Retention.Store.DeleteBatch | internal/retention/retention.go:122-131 | one statement removes at most a batch of expired rows, all of them if there are fewer |
| Retention.Store.Prune | internal/retention/retention.go:119-153 | the loop ends though each statement reads clock and plan windows anew and may fail; only rows expired at a reading go, and their number is returned; uncut, nothing expired at the last reading is left, the number is booked, and it took one statement more than there are full batches |
| Retention.Store.DeleteExpired | internal/retention/retention.go:121-145 | the same of the loop itself, which touches raw rows only |
| Retention.PruneIsExact | internal/retention/retention.go:122-131 | while windows do not change, an uncut prune deletes exactly the rows older than their tenant's window at its last statement |
| Retention.PruneStep | internal/retention/retention.go:122-140 | seen from the first statement, the batches are disjoint and add up, all they take had expired, and a short one leaves nothing expired |
| Retention.Store.RunPass | apps/retention/cmd/retention/main.go:60-78 | rollup, then prune regardless; after a good rollup, on plans of two days or more and no later than the next date, only rows of days up to the marker go |
| Retention.Store.DailyBars | internal/http/public_handlers.go:119-155 | 90 cells, oldest first, each from the summary, or live for today, or "no data" |
| RetentionRuns.PruneIsSafeIff | internal/retention/retention.go:122-131 | a window spares all rows there could be of days not done if and only if it reaches back to the midnight the first of them began; without a marker it never does |
| RetentionRuns.OnTimeRunsKeep | apps/retention/cmd/retention/main.go:60-78 | runs whose markers are set on the date of their aggregation, and whose prunes come while every window reaches so far, heed the condition of CertainThroughoutIff |
| RetentionRuns.TwoDaysReach | apps/retention/cmd/retention/main.go:60-78 | windows of two days or more reach on the date of the last rollup and the one after it |
| RetentionRuns.GroupsMissNothing | internal/retention/retention.go:30-38 | an aggregation takes only days over and not done of which all rows are there, and every such day with rows unless the table has it already |
| RetentionRuns.CertainThroughoutIff | internal/retention/retention.go:79-107 | over any run of inserts, aggregations, downtime statements, markers (each at its own time, failing or not) and prunes, the table is right all along, and certain to stay so at every point, if and only if no marker passes a day with rows that its aggregation had not over yet, and no prune takes rows but of done days or of days the table has and of which it leaves none |
| RetentionRuns.CertainIffKeeps | internal/retention/retention.go:79-131 | after one more event of such a run, every summary is right, every done day with rows has one, and this is certain over all continuations that heed the condition, if and only if the event heeds it |
| RetentionRuns.EveryRunIsFaithful | internal/retention/retention.go:22-113 | under that condition, in every reachable state: every summary present is the aggregate of all rows ever recorded that day, it is present once the day is done, and until then either no row is missing or none is left and the summary is there |
| RetentionRuns.IncrementalIsFromScratch | internal/retention/retention.go:22-113 | under that condition the table equals, for the days done, one aggregation of every row ever recorded, pruned or not |
| RetentionFigures.SummariesDescribeTheDay | internal/retention/retention.go:40-62 | under that condition each summary counts all checks ever recorded that day and all that succeeded; p50, p95 and p99 are each the least observed latency within which that percentage succeeded, max the greatest, all absent if none did |
| RetentionRuns.BarIsRightIff | internal/http/public_handlers.go:119-155 | under that condition the public bar of a day equals the computation from all rows ever recorded if and only if the day is summarised, is today, or has no rows; always for a day that is done |
| RetentionFigures.BarIsUptime | internal/http/public_handlers.go:119-155 | the bar of a done day, or of today, is "no data" iff there was no check, else the share of successes to the nearest hundredth of a percent, and 100% iff the failures round to nothing |
| RetentionFigures.BarIsRounded | internal/http/public_handlers.go:124-130 | the rounding of one bar, from its counts |
| RetentionRuns.LostDayStaysLost | internal/retention/retention.go:30-33 | in any run at all, a day done without a summary never gets one |
| RetentionRuns.LostDayShowsNoData | internal/http/public_handlers.go:119-155 | and its bar shows no data from then on |
| RetentionLosses.MidnightLosesADay | internal/retention/retention.go:79-107 | the run in which midnight between the aggregation and the marker loses a day, whatever follows |
| RetentionLosses.FailingRollupsLoseADay | apps/retention/cmd/retention/main.go:63-71 | the run in which a prune after three days of failing rollups loses a day, whatever follows |
| Admission.CommitIsWithinThePlan | internal/plans/plans.go:81-143 | in every interleaving of requests, deletes and plan changes, a committed insert leaves the count within the plan in force at that commit, and a monitor's interval no shorter than it allows |
| Admission.OneRequestPerTenant | internal/plans/plans.go:138-143 | two requests of one tenant are never past the lock together |
| Admission.NeverOverTheLimit | internal/http/monitor_handlers.go:124-165 | a tenant within its plan that is not downgraded stays within it, whatever interleaves |
| Admission.ScriptEffect | internal/http/channel_handlers.go:107-138 | run alone, the handler's statements insert the row exactly when the plan admits it and otherwise leave no trace, locks included |
| Admission.InsertedIffRoom | internal/plans/plans.go:81-136 | run alone, a monitor is inserted iff there are fewer than max_monitors and it is no more frequent than min_interval, a channel iff there are fewer than max_channels |
| Admission.EachKindWithinItsLimit | internal/plans/plans.go:81-136 | in every interleaving a committed monitor leaves at most max_monitors, a committed channel at most max_channels |
| Admission.ChangesTakeEffect | internal/plans/plans.go:138-143 | a tenant's plan change takes effect iff none of its requests is past the lock; a delete always does |
| Admission.LocksAreHeld | internal/plans/plans.go:138-143 | a tenant row is locked only by a request of that tenant in progress |
| Admission.Tables.Create | internal/http/monitor_handlers.go:124-166 | the handler in one go is that script; it answers "created" exactly when the plan admits the row |
| Scheduler.Scheduler.Tick | apps/scheduler/cmd/scheduler/main.go:42-78 | picked monitors are re-stamped, accepted ids appended to the queue in order and counted, at most 500 |
| Scheduler.AcceptedAreQueued | apps/scheduler/cmd/scheduler/main.go:61-68 | the queue gets the picked ids it did not refuse |
| Scheduler.ClaimExists | apps/scheduler/cmd/scheduler/main.go:45-49 | for any table there is a claim as ORDER BY and LIMIT demand it |
| Scheduler.RankStep | apps/scheduler/cmd/scheduler/main.go:42-51 | a waiting monitor stays enabled and keeps its due time; an event raises its rank, by one, only if it jumps in, and a tick that passes it over when due cuts the rank by 500 |
| Scheduler.RankRisesIff | internal/http/monitor_handlers.go:228-245 | of all events, exactly creating a monitor or re-enabling a paused one, at t or before, raises the rank at t, and by one |
| Scheduler.NoStarvation | apps/scheduler/cmd/scheduler/main.go:42-51 | a monitor due at t with r enabled monitors at or before it, and j created or re-enabled at or before t meanwhile, is claimed within ceil((r + j)/500) ticks that find it due and unlocked, whatever else happens |
| Scheduler.OverdueIsClaimed | apps/scheduler/cmd/scheduler/main.go:42-51 | once no other event is stamped with its due time or before, its rank alone bounds the wait |
| Scheduler.BoundFailsAtTheInstant | apps/scheduler/cmd/scheduler/main.go:45-49 | the run in which a monitor of rank 1 is passed over for 500 created at its due time: those that jump in must be counted |
| Scheduler.StampHolds | internal/http/monitor_handlers.go:228-245 | only a claim or a re-enable moves a monitor's next run |
| Scheduler.ClaimsAreSpaced | apps/scheduler/cmd/scheduler/main.go:43 | claims with no re-enable between them are at least the interval of the earlier one apart |
| Scheduler.DueAgainAfterTheInterval | apps/scheduler/cmd/scheduler/main.go:43-49 | a claimed monitor is due again exactly the interval later, and a tick with room takes it iff it is enabled, due and unlocked |
| Scheduler.EditsTakeEffect | internal/http/monitor_handlers.go:228-245 | what creating, editing, deleting and claiming do to a monitor's switch and interval, and that they touch no other monitor |
| Billing.Webhook.Receive | internal/http/billing_handlers.go:184-214 | record, handle, un-record on failure: outcome and both tables, with recording, price lookup, handling or un-recording failing |
| Billing.EachEventCountsOnce | internal/http/billing_handlers.go:184-213 | over any list of deliveries whatever fails: the tenants are the fold of the handler over the deliveries that took effect, and recorded are exactly their ids and the lost ones |
| Billing.HandledAreTheProcessed | internal/http/billing_handlers.go:184-213 | the deliveries that took effect are, in order, exactly those whose outcome was processed and whose lookup did not fail |
| Billing.HandledAreDistinct | internal/http/billing_handlers.go:184-201 | no event id takes effect twice, and none that is lost takes effect |
| Billing.LostIff | internal/http/billing_handlers.go:203-210 | an event id is lost if and only if one of its deliveries, the first to be recorded, failed in the price lookup, or failed otherwise and was not un-recorded |
| Billing.LostEventIsNeverHandled | internal/http/billing_handlers.go:197-201 | retries of a lost event, however many and however they go, change no tenant |
| Billing.RetryIsHandledIff | internal/http/billing_handlers.go:187-210 | a delivery not handled in full is made good by a retry without faults, unless it lost its event: then the retry is taken for a duplicate |
| Billing.FailedLookupLosesTheUpgrade | internal/http/billing_handlers.go:298-309 | one failed price lookup, answered as processed, leaves a paying customer on the free plan for ever |
| Billing.OnlyTheTrackedSubscriptionCounts | internal/http/billing_handlers.go:241-263 | any run of created, updated or deleted events of other subscriptions leaves a tenant's row as it is |
| Billing.LookupInvertsCheckout | internal/http/billing_handlers.go:298-309 | with distinct price ids the webhook's lookup returns the plan and period checkout chose the price for |
| Billing.CheckoutDeliversThePlan | internal/http/billing_handlers.go:41-61 | so a live subscription bought at checkout puts its customer on that plan and period, by name |
| BillingEffects.PaidStaysLive | internal/http/billing_handlers.go:311-317 | over any deliveries, a plan other than "free" means active, on trial, or past due |
| BillingEffects.ChangeIsApplied | internal/http/billing_handlers.go:288-342 | an accepted change at a known price puts the tenant on a plan sold at it if active or on trial, on "free" otherwise; status, subscription, cancellation and dates are the subscription's |
| BillingEffects.UnknownPriceIsIgnored | internal/http/billing_handlers.go:289-309 | a change without a price, or at one no plan is sold at, changes nothing |
| BillingEffects.DeletionEndsFree | internal/http/billing_handlers.go:248-263 | deleting the tracked subscription ends on "free", canceled, with none tracked |
| BillingEffects.FailedPaymentOnlyWarns | internal/http/billing_handlers.go:265-275 | a failed payment changes the status only |
| BillingEffects.CheckoutStartsTrial | internal/http/billing_handlers.go:219-239 | a completed checkout sets the plan bought, its period, its subscription and the trial |
| BillingEffects.OtherTenantsUntouched | internal/http/billing_handlers.go:216-282 | no delivery touches a tenant other than the one, or those of the customer, it names |
| BillingEffects.SubscriptionsStayDistinct | migrations/000006_billing.up.sql:3-4 | over any deliveries no subscription is tracked by two tenants |
| StripeSetup.Setup.FindPrice | apps/stripe-setup/cmd/stripe-setup/main.go:122-135 | the loop over the listing finds the newest active match, if there is one |
| StripeSetup.NewestMatchIsTaken | apps/stripe-setup/cmd/stripe-setup/main.go:122-135 | if any price matches, the one taken does and is no older |
| StripeSetup.Setup.FindOrCreatePrice | apps/stripe-setup/cmd/stripe-setup/main.go:120-157 | the newest active price of the given product that matches, and then nothing is created; otherwise a new one that matches |
| StripeSetup.Setup.StorePrice | apps/stripe-setup/cmd/stripe-setup/main.go:159-163 | the plan's column of this period, and no other, holds that price; a failure leaves all plans alone |
| StripeSetup.Setup.SetUpPlan | apps/stripe-setup/cmd/stripe-setup/main.go:80-166 | one plan's three periods, up to where something fails |
| StripeSetup.Setup.Run | apps/stripe-setup/cmd/stripe-setup/main.go:47-166 | over any plans and catalogue, and however many plans are read, each column written holds the matching price of that very plan and period, the others are left alone; uncut, every column on sale is written; nothing that is there is created again |
| StripeSetup.StoredPricesAreThePlans | apps/stripe-setup/cmd/stripe-setup/main.go:67-118 | a complete run stores active prices of the plan's own product and amounts: monthly every month, quarterly every three months, yearly every year |
| StripeSetup.DistinctIffNoneStale | apps/stripe-setup/cmd/stripe-setup/main.go:47-166 | after a complete run over any table, stored price ids are pairwise distinct if and only if no column the run leaves alone holds an id that another column will hold, which can be told before |
| StripeSetup.RunsStoreDistinctPrices | apps/stripe-setup/cmd/stripe-setup/main.go:69-166 | from a table with no prices stored, after any number of runs, cut short or not, with cost changes and edits of the catalogue in between, stored ids are pairwise distinct |
| StripeSetup.StaleColumnCollides | apps/stripe-setup/cmd/stripe-setup/main.go:59-64 | the table on which a complete run makes the stale column of a skipped plan and a plan on sale share a price |
| StripeSetup.StaleRunExists | apps/stripe-setup/cmd/stripe-setup/main.go:59-166 | and there is such a run |
| StripeSetup.SecondRunChangesNothing | apps/stripe-setup/cmd/stripe-setup/main.go:120-135 | repeating a complete run, with the search finding the products it used, creates nothing and changes no column |
| RateLimiter.RateLimiter.constructor | internal/http/ratelimit.go:24-31 | no counts, and a first window from now |
| RateLimiter.RateLimiter.Allow | internal/http/ratelimit.go:33-43 | counts the call, in a fresh window if the old one is over, and allows it while the count is within the limit |
| RateLimiter.EpochAllowsTheFirstCalls | internal/http/ratelimit.go:37-42 | within one window epoch exactly the first `limit` calls of a key pass |
| RateLimiter.EpochLastsOneWindow | internal/http/ratelimit.go:37-40 | after a reset the next comes with the first call later than one window after the reset's second clock reading |
| RateLimiter.SpanPhase | internal/http/ratelimit.go:37-42 | what the limiter's state says of the calls allowed in a span so far: one epoch, two, or span over |
| RateLimiter.AtMostTwiceTheLimit | internal/http/ratelimit.go:33-43 | a key is allowed at most twice the limit in any closed span as long as the window, from any state |
| RateLimiter.TwiceTheLimitIsReached | internal/http/ratelimit.go:37-40 | and that bound is attained, for every limit and window |
| RateLimiter.TrimSpace | internal/http/ratelimit.go:82-90 | the string without the blanks around it |
| RateLimiter.ClientKey | internal/http/ratelimit.go:63-80 | behind a trusted proxy, the trimmed text after the last comma of a non-empty header; otherwise the peer |
| RateLimiter.LastEntryIsUnique | internal/http/ratelimit.go:67-72 | there is only one such entry |
| RateLimiter.TrimmedIsUnique | internal/http/ratelimit.go:82-90 | and only one way to trim it |
| Team.Tables.InviteMember | internal/http/team_handlers.go:87-166 | invites exactly when role, address (unless asking for it failed), seats and token allow, replacing the address's old invitation |
| Team.Tables.RevokeInvitation | internal/http/team_handlers.go:168-178 | deletes a pending invitation of this tenant, and says whether it did |
| Team.Tables.AcceptInvitation | internal/http/team_handlers.go:187-236 | consumes a live invitation and creates its user, or does neither |
| Team.Tables.ChangeRole | internal/http/team_handlers.go:244-291 | changes the role and demotes whoever transfers ownership, or rolls both back |
| Team.Tables.RemoveMember | internal/http/team_handlers.go:294-312 | removes another member of the tenant who is not an owner |
| Team.Tables.Signup | internal/http/auth_handlers.go:34-56 | a new tenant with its owner, or neither |
| Team.AcceptConservesSeats | internal/http/team_handlers.go:194-232 | acceptance, granted or refused, leaves every tenant's seats as they were |
| Team.InviteCostsOneSeat | internal/http/team_handlers.go:136-142 | an invitation costs its tenant one seat, or none if it replaces a live one, and other tenants nothing |
| Team.NothingElseAddsSeats | internal/plans/plans.go:106-116 | revoking, removing, role and plan changes and other tenants' signups never raise seats |
| Team.ClockAddsNoSeats | internal/plans/plans.go:109-115 | neither does the clock |
| Team.SeatsStayWithinThePlan | internal/plans/plans.go:101-120 | over any run without a downgrade no tenant exceeds its plan's member limit |
| Team.TransferKeepsOneOwnerIff | internal/http/team_handlers.go:269-285 | a role change keeps a tenant's one owner if and only if it is no transfer, is refused, or is asked for by that owner |
| Team.EveryTenantHasOneOwner | internal/http/team_handlers.go:242-312 | over any run in which transfers that go through come from the current owner, every tenant has exactly one owner |
| Team.OneOwnerIff | internal/http/team_handlers.go:269-285 | every tenant has exactly one owner all along if and only if every transfer that goes through is asked for by the current owner |
| Team.StaleTokenMakesTwoOwners | internal/http/team_handlers.go:269-285 | in any state, a transfer and then another by the former owner leave exactly the two receivers as owners |
| Team.StaleTokenRun | internal/http/middleware.go:44-50 | the run from signup to a tenant with two owners |
| TeamEffects.SeatsCountUsersAndPending | internal/plans/plans.go:101-120 | the same of seats, counted in the tables: users, and invitations neither accepted nor expired |
| TeamEffects.InviteEffect | internal/http/team_handlers.go:101-147 | exactly when an invitation goes through; it is good for seven days and replaces the address's earlier one only |
| TeamEffects.AcceptEffect | internal/http/team_handlers.go:201-228 | exactly when an invitation is accepted; its user gets its tenant, address and role |
| TeamEffects.RevokeEffect | internal/http/team_handlers.go:170-176 | exactly which invitation is withdrawn |
| TeamEffects.RemoveEffect | internal/http/team_handlers.go:297-310 | exactly another member of the tenant who is no owner can be removed, and only that one goes |
| TeamEffects.RoleChangeEffect | internal/http/team_handlers.go:257-285 | exactly whose role changes to what, in a transfer and otherwise |
| TeamEffects.SignupEffect | internal/http/auth_handlers.go:34-56 | a new tenant and its owner, unless the address has an account |
| TeamEffects.PlanChangeEffect | internal/plans/plans.go:41-53 | a plan change sets the limit whatever the tenant holds |
| TeamEffects.OtherTenantsUntouched | internal/http/team_handlers.go:168-312 | no request touches another tenant's limit, users or invitations |

## Left out

- Probing over HTTP, TCP, TLS and DNS, mail and Slack sends, Redis, and the Stripe API: foreign I/O; their outcomes are inputs. In the price setup a refusal by Stripe or the database is a choice at each call.
- Deleting monitors, channels, incidents or tenants and the cascades that follow: the alert pipeline's monitors exist from the start and are never deleted. Admission does model deletes.
- Clocks: commits come in the order of their transactions' times, as `now()` gives them. Theorems that need it say so (`Clocked`).
- Certificate expiry, message wording, metrics, logging, configuration, exports, passwords, tokens and JWTs.
- Alerting.Store.SweepDelayedAlerts: is the sweep with nothing else committing in between; scan and items as separate steps, interleaved with everything else, are `AlertRuns.Step`, which the theorems are about.
- AlertDelays.NoAlertWithinDelay: needs the monitor's delay fixed while the incident is open, because the sweep compares with the delay of the moment and ignores monitors whose delay is 0 by then.
- The order in which channels get their rows, and ids other than positions. `RETURNING` with more than one open incident would yield any of them; the model takes the first, and `DownMeansOneOpenIncident` proves there never is a second.
- Notifier.DeliveredAtMostOnce: one notifier. The SELECT's row locks end with the statement, so replicas are not exclusive. Duration formatting of the backoff is left out.
- RetentionRuns.EveryRunIsFaithful: one retention process at a time, and rows are stamped with the time they are inserted. A row stamped before midnight and committed after that day's aggregation is outside it.
- Retention.Store.Prune: rows of a tenant without a plan are never pruned, and nothing is inserted between its batches (`RetentionRuns` has both interleaved).
- Rollup groups by monitor and tenant; the model groups by monitor, because a monitor never changes tenants. Every result has a latency, as the worker always writes one. Days are UTC days.
- The status page's `uptime_90d`, incident list and monitor selection; a bar's percentage is kept in hundredths of a percent and its conversion to floating point left out.
- Maintenance windows are only asked whether they cover a monitor now; how a window comes to list its monitors is not modelled.
- Admission.CommitIsWithinThePlan: the limits of a plan code do not change while requests run; plan changes of tenants, which wait for the row lock, do. Retries and timeouts of lock waits are left out: a waiting statement changes nothing.
- Admission.Tables.Create: validates nothing but the plan; field defaults and formats of the request are left out.
- Scheduler.NoStarvation: the monitor must stay enabled, and only ticks that find it due and its row unlocked count. The database always runs the claim; a failed claim changes nothing.
- Billing.Webhook.Receive: deliveries are sequential. Signature checks and JSON decoding are left out, decoding errors being handler failures. The UPDATE in `internal/http/billing_handlers.go:325-338` names `billing_period` and `trial_ends_at` twice, which PostgreSQL rejects; the single assignment it means is modelled. An event that two tenants would match applies to both or neither, in one statement.
- Billing.CheckoutDeliversThePlan: the checkout session itself, the trial days and the customer's creation are Stripe's.
- StripeSetup.DistinctIffNoneStale: ids stored in the table are ids Stripe has; product search finds a product of the plan it is asked for, if any; Stripe lists prices newest first. How many plans the driver reads, which may stop at a NULL price, is an input.
- RateLimiter.ClientKey: splitting host and port of the peer's address; the host is an input.
- Team.EveryTenantHasOneOwner: requests are atomic steps. Address parsing and the minimum password length are left out.
- The frontends, container images and infrastructure code.
