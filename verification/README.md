# VPN platform: state machines and their guarantees

The Go services of the platform keep their logic in rows of a database: guarded updates,
journals, inboxes, outboxes. This project models each of those machines in Dafny and proves
what they keep over every run. One SQL transaction is one atomic step. Where the source changes
rows or fields in place there is a class whose methods follow it statement by statement and are
proved to end in the state a specification function names; the theorems are about every run of
those functions. Instants and durations are seconds, sizes are bytes, a day is 86400 s. Clocks,
the broker, the payment provider and the moment a process dies are parameters of the steps.

| file | component |
|---|---|
| `CdnQuota`, `CdnQuotaStore` | the CDN quota row, its repository, the calendar reset pass |
| `TrafficClassify` | splitting a traffic report per user |
| `Subscription`, `SubscriptionStore` | the subscription row, grant journal, referrals and payment inbox |
| `GrantLedger`, `Referrals`, `Access` | what every run of that ledger keeps |
| `Lifecycle` | when each operation of the ledger goes through, and what it leaves |
| `Projection` | the orchestrator's copy of a user's access |
| `Outbox`, `OutboxRuns` | the outbox table and any number of publishers |
| `Consumer` | fetch, in-place retry, dead letters, commit, inbox |
| `Allocator` | the server of each country |
| `Routing`, `RoutingCache` | the routing manifest, its two compilers, the hot-reload cache |
| `Feed` | feed links against node registrations |
| `Recurring` | recurring charges, retries, grace |
| `RateLimit` | the fallback rate limiter |

`dafny verify dfyconfig.toml` checks everything.

## Where the code and its description part

Each of these is a theorem. Where the condition is exact the theorem is an if-and-only-if;
example runs stand beside it.

- A quota period can be charged for more than moved in it exactly if the counter led the row when
  the period was opened (`CdnQuota.FairPeriodIffNoLead`); the report right after bills that lead
  (`CdnQuota.ResetCarriesUnreported`).
- The uplink and downlink shown to a user over all his nodes add up to the charged usage exactly if
  on none of them the uplink part exceeds it; a reset leaves the uplink baseline behind (`CdnQuota.SplitAddsUp`,
  `CdnQuota.ResetSplit`), although the query's comment (`cdn_quota_repository.go:325-328`)
  promises the sum.
- The journal interval of a grant on top of a running period is not the interval the days cover
  (`GrantLedger.JournalIntervalIsReal`); a payment without an id is not journaled at all
  (`GrantLedger.RepeatedPaymentProlongs`).
- A redemption in grace prolongs the period, not the access (`Access.RedeemInGraceGivesNoAccess`),
  and the grace event goes out whatever became of the row (`Access.GraceEventTellsTheTruth`).
- Per-key order holds within a publisher's pass only; across passes a later event overtakes an
  earlier one that waits for its backoff (`Outbox.OrderKeptIffNothingSkipped`,
  `OutboxRuns.LaterPassOvertakes`), and the order is that of the batch, which SQL does not fix
  (`Outbox.IdOrderKeptIffListedSo`, `OutboxRuns.EveryPassPublishesPrefix`). The README of the repository (line 75) and ADR 0001
  (lines 42-44) promise more.
- Waiting behind a failing event uses up attempts. A dropped event has no dead-letter record
  exactly if its last turn was spent waiting or the insert failed (`OutboxRuns.DroppedIff`), and
  was never offered to the broker exactly if all 20 were (`OutboxRuns.DroppedUnaskedIffAlwaysBlocked`,
  a run in `OutboxRuns.DroppedUnasked`). A row is stranded exactly by the death of the publisher
  that holds it, which strands the rest of its batch (`OutboxRuns.DyingStrands`), or by a turn whose
  status update fails (`OutboxRuns.StrandedIff`).
- A delivery moves on from a message without effect or dead letter exactly if it gives up or skips,
  no dead letter gets out, and no run of the handler took effect unnoticed
  (`Consumer.DeliveryLosesIff`); when it commits is `Consumer.DeliveryCommitsIff`. Until the next commit a restart makes up for it
  (`Consumer.PassedOverIsNotYetLost`); that commit makes it final (`Consumer.CommittedIsFinal`). A
  committed offset has neither exactly if no step of the run ever handled its message or got its dead
  letter out (`Consumer.LostIffNeverSeenThrough`; `Consumer.RefusedDeadLetterIsLost`,
  `Consumer.RefusedSkipIsLost`).
- A failing message is given up exactly at the first failure for which the attempt store answers with
  a full counter, increments stored without an answer included (`Consumer.PoisonIsGivenUp`). So it
  never is while the store gives no answers, however many failures it has stored
  (`Consumer.UncountedNeverEnds`), and a counter can pass 20 by as many (`Consumer.CountersAreBounded`).
- The limiter's window is not a sliding one unless the limit is one (`RateLimit.SlidesIffLimitIsOne`).
  A sweep of its cleaner can be told by the answers after it exactly if it drops a counter as stale
  that at the next request's reading of the clock is not (`RateLimit.SweepShowsIff`). That takes a
  later reading handled first, and the source reads the clock before locking, so a race for the lock
  is enough even under a monotonic clock (`RateLimit.SweepShowsWhenClockGoesBack`).
- A late cancellation reopens charging exactly if auto-renewal is on (`Recurring.LateCancelReopensIffOn`).
  A row that was switched off or expired becomes chargeable again exactly by a saved payment, and
  an automatic charge still in flight is one (`Recurring.StaysUnwillingIff`,
  `Recurring.ChargeInFlightSwitchesBackOn`). A payment survives the next suspension exactly if no
  sweep stands between its lock and that suspension (`Recurring.PaymentSurvivesIffSweepsClosed`).
- The Happ compiler trims entries, the Xray compiler does not (`Routing.ClientsAgreeIff`,
  `Routing.EmptyEntryDivides`, `Routing.PaddedEntryDivides`); the CDN
  allowlist trims an inbound tag, the registration does not (`Feed.TagCountedIffTrimmed`); a shared
  tag gives a Reality link a flow its account lacks (`Feed.RealityFlowMatchesIff`).
- Projections converge only as far as events of one revision carry one row
  (`Projection.ConvergesIffOneTopRow`). Grace and cancellation events do not raise the revision, and
  the row of a cancellation depends on the instant of its processing: a user's events converge
  exactly if those of his highest revision agree in kind and end and none is a cancellation that
  leaves a period running (`Projection.UserConvergesIff`, a run in `Projection.GraceDoesNotConverge`).

## Model

| member | source | states |
|---|---|---|
| `CdnQuota.RunKeepsRowSound` | migrations/vpn-orchestrator-service/0015_cdn_quota.sql:58-66 | no run of reports and resets trips a CHECK of the table, and an active row is below its limit |
| `CdnQuota.RollbackCharge` | internal/vpn_orchestrator/cdn_quota_repository.go:117-158 | after a counter rollback the charge is min(used, reading), total and uplink alike; it survives iff the reading is at least that large |
| `CdnQuota.RevisionCountsTransitions` | internal/vpn_orchestrator/cdn_quota_repository.go:173-243 | over every run the revision is the number of exhaustions plus effective resets, and exhaustions alternate with resets |
| `CdnQuota.ExhaustedUntilReset` | internal/vpn_orchestrator/cdn_quota_repository.go:173-243 | without an effective reset an exhausted row stays exhausted at the same revision in the same period, whatever is reported |
| `CdnQuota.NeverOvercharged` | internal/vpn_orchestrator/cdn_quota_repository.go:103-158 | against a true counter that restarts at will, usage never exceeds what moved since the period opened plus the bytes by which the counter led the row then, none in the first period; 0 <= baseline <= observed |
| `CdnQuota.HistoryAccounted` | internal/vpn_orchestrator/cdn_quota_repository.go:103-243 | the accounting invariant behind it holds over every history of transfers, restarts, reports and resets |
| `CdnQuota.ResetCarriesUnreported` | internal/vpn_orchestrator/cdn_quota_repository.go:212-243 | a report right after a reset bills exactly the lead of the counter |
| `CdnQuota.FairPeriodIffNoLead` | internal/vpn_orchestrator/cdn_quota_repository.go:103-243 | over every history of the period that a reset opens, no more is charged than moved in it iff the counter did not lead the row at the reset |
| `CdnQuota.FirstPeriodIsFair` | internal/vpn_orchestrator/cdn_quota_repository.go:103-108 | the first period of a row is never overcharged |
| `CdnQuota.FoldIsHighWater` | internal/vpn_orchestrator/cdn_quota_repository.go:117-198 | folding reports that are not below the baseline equals raising two high-water marks and latching once |
| `CdnQuota.ReportsCommute` | internal/vpn_orchestrator/cdn_quota_repository.go:117-198 | such reports may be reordered and repeated: the whole row is the same, exhausted iff the final usage reaches the limit |
| `CdnQuota.SplitAddsUp` | internal/vpn_orchestrator/cdn_quota_repository.go:322-353 | over all nodes of a user, uplink plus downlink as shown are never less than the charged usage, and equal it iff on no node the uplink part exceeds the usage |
| `CdnQuota.ResetSplit` | internal/vpn_orchestrator/cdn_quota_repository.go:212-243 | a reset zeroes the usage and leaves the uplink part, so the split is right iff no uplink had been counted |
| `CdnQuota.ResetSplitExample` | internal/vpn_orchestrator/cdn_quota_repository.go:224-238 | a reachable row that shows upload in a period in which nothing was charged |
| `CdnQuota.ReportIsJudgedByItsLimit` | internal/vpn_orchestrator/cdn_quota_repository.go:117-198 | every accepted report leaves the limit it brings; the row is exhausted afterwards iff its usage then reaches that limit or it was before; the usage rises to the distance of the reading from the baseline, or after a rollback keeps what the reading can hold |
| `CdnQuota.LimitIsLastGiven` | internal/vpn_orchestrator/cdn_quota_repository.go:117-243 | over every run the stored limit is that of the last accepted report or effective reset |
| `CdnQuota.ResetOpensPeriod` | internal/vpn_orchestrator/cdn_quota_repository.go:212-243 | a reset to another period starts it active, at zero, under its own limit; a repeated one does nothing |
| `CdnQuotaStore.QuotaStore.ApplyObservationTx` | internal/vpn_orchestrator/cdn_quota_repository.go:59-201 | refuses exactly the invalid reports and then changes nothing; otherwise stores the specified row, with the reported limit and exhausted iff its usage reaches that limit or it was before, and reports usage, state, just-exhausted and rebased |
| `CdnQuotaStore.QuotaStore.ResetQuotaTx` | internal/vpn_orchestrator/cdn_quota_repository.go:212-243 | resets iff the row exists with another period key; says whether it did; an empty key is refused |
| `CdnQuotaStore.QuotaStore.ResetQuotaForUserTx` | internal/vpn_orchestrator/cdn_quota_repository.go:249-289 | resets all rows of the user and no other; returns exactly the nodes really reset |
| `CdnQuotaStore.QuotaStore.ListQuotasForCalendarReset` | internal/vpn_orchestrator/cdn_quota_repository.go:404-441 | the page is the least keys after the cursor with another period, in order, up to the limit |
| `CdnQuotaStore.QuotaStore.ResetPage` | internal/vpn_orchestrator/cdn_quota_worker.go:118-140 | one page of the pass: the rows reset so far, the cursor and the count |
| `CdnQuotaStore.QuotaStore.RunCalendarReset` | internal/vpn_orchestrator/cdn_quota_worker.go:87-151 | for any table and batch size the pass ends, resets each out-of-period row after the first cursor once unless its update fails, and counts them |
| `CdnQuotaStore.PassReachesAll` | internal/vpn_orchestrator/cdn_quota_worker.go:87-151 | a clean pass leaves the whole table on the target period iff no other row sits at or before the first cursor; positive user ids never do |
| `CdnQuotaStore.PassIsResumable` | internal/vpn_orchestrator/cdn_quota_worker.go:87-151 | a later clean pass finishes exactly what failed; a second clean pass changes nothing |
| `CdnQuotaStore.StrLessIsTotalOrder` | internal/vpn_orchestrator/cdn_quota_repository.go:419-426 | the row comparison of the keyset condition is a total order on node ids |
| `CdnQuotaStore.KeyLessIsTotalOrder` | internal/vpn_orchestrator/cdn_quota_repository.go:419-426 | and on (user, node) pairs |
| `CdnQuotaStore.FirstDifferenceDecides` | internal/vpn_orchestrator/cdn_quota_repository.go:419-426 | node ids compare at their first difference, and a prefix comes first |
| `TrafficClassify.ClassifyTrafficItems` | internal/vpn_orchestrator/traffic_classify.go:55-93 | every figure of the aggregate is the sum over exactly the items it names, and exactly the users with such items appear |
| `TrafficClassify.ClassificationIgnoresOrder` | internal/vpn_orchestrator/traffic_classify.go:55-93 | reordering the items of a report gives the same aggregate |
| `TrafficClassify.CdnIsPartOfTotal` | internal/vpn_orchestrator/traffic_classify.go:55-93 | CDN bytes of a user are part of his bytes in both directions; an empty allowlist charges nobody |
| `TrafficClassify.OneItemCounts` | internal/vpn_orchestrator/traffic_classify.go:55-93 | what one item adds: nothing without a user; CDN bytes iff its tag is in the allowlist; unclassified iff there is an allowlist and it has no tag |
| `TrafficClassify.PartsAddUp` | internal/vpn_orchestrator/traffic_classify.go:55-93 | every figure of a report of two parts is the sum of those of the parts, and the users those of both |
| `SubscriptionStore.Store.EnsureUserAndState` | internal/user_subscription/repository.go:42-67 | inserts the initial row exactly when there is none |
| `SubscriptionStore.Store.GetStateForUpdate` | internal/user_subscription/repository.go:133-208 | returns and stores the row, expired when its time is over |
| `SubscriptionStore.Store.StartTrialTx` | internal/user_subscription/repository.go:252-370 | ends in the specified world: trial once, journal before days, deferred in grace, on top of a paid period |
| `SubscriptionStore.Store.ActivatePaidTx` | internal/user_subscription/repository.go:372-474 | ends in the specified world, days on top of GREATEST(end, now); applied iff there are days and the payment has no id or is in neither message table, journal nor last payment |
| `SubscriptionStore.Store.CancelTx` | internal/user_subscription/repository.go:476-532 | ends in the specified world for each status |
| `SubscriptionStore.Store.MarkAutoRenewDisabledTx` | internal/user_subscription/repository.go:534-548 | changes the two flags and nothing else |
| `SubscriptionStore.Store.MarkGraceStartedTx` | internal/user_subscription/repository.go:550-569 | starts grace only from active or grace |
| `SubscriptionStore.Store.MarkSuspendedTx` | internal/user_subscription/repository.go:631-658 | expires the row without looking at it and raises the revision |
| `SubscriptionStore.Store.RedeemReferralMonthsTx` | internal/user_subscription/referral_repository.go:138-197 | grants exactly the months available and records them as rewarded |
| `SubscriptionStore.Store.MarkReferralConvertedTx` | internal/user_subscription/referral_repository.go:94-109 | converts a pending referral once |
| `SubscriptionStore.Store.HandleBillingPaymentSucceeded` | internal/user_subscription/service.go:457-547 | grant, conversion and event in one transaction |
| `SubscriptionStore.Store.ProcessPaymentOnce` | internal/user_subscription/kafka_handlers.go:156-207 | the inbox mark and the business transaction are separate: every crash between them is a specified world |
| `Lifecycle.PaymentAppliedIff` | internal/user_subscription/repository.go:372-461 | over every run a payment with days is applied iff it has no id, or neither the message table nor any prolongation of the run knows it, whatever the row looks like; a duplicate leaves the row as the read expired it |
| `Lifecycle.PaymentDeliveredIff` | internal/user_subscription/kafka_handlers.go:156-207 | over every run, a delivery of it prolongs the period from its end or from now and sends the activation iff the message is unmarked, the process lives to handle it and the payment is unknown; it is marked afterwards iff it was or the process lives to the end |
| `Lifecycle.PaymentLeaves` | internal/user_subscription/repository.go:440-474 | the first start stays, a pending cancellation and a grace are gone, the trial flag is as it was, one revision more |
| `Lifecycle.TrialGrantedIff` | internal/user_subscription/repository.go:273-370 | over every run a trial with days is granted iff the run has granted the user none and he is not in grace, on top of a payment iff one runs; then the period is prolonged and the trial announced, else nothing is given |
| `Lifecycle.TrialLeaves` | internal/user_subscription/repository.go:313-331 | the first start stays, a grace that was over is gone, the status is trial unless a payment runs |
| `Lifecycle.RedeemedIff` | internal/user_subscription/referral_repository.go:138-197 | as many whole prices as are converted and not rewarded yet are granted, on top of a running period, and announced; with none the world stays as it is |
| `Lifecycle.RedemptionLeaves` | internal/user_subscription/referral_repository.go:175-185 | an expired or new user becomes active; but for end and revision the row stays as it was |
| `Lifecycle.ConversionCounts` | internal/user_subscription/referral_repository.go:94-136 | a conversion counts one for the referrer, once, and nothing for anybody else |
| `Lifecycle.AttributedIff` | internal/user_subscription/referral_repository.go:63-89 | an invitation is recorded iff it is not for oneself and none was; it counts only when converted |
| `Lifecycle.ExpiryIsLazy` | internal/user_subscription/repository.go:133-208 | expiring on the read changes nobody's access from then on and happens exactly to rows that claim access and have none |
| `Lifecycle.LookingKeepsAccess` | internal/user_subscription/repository.go:133-208 | a look at the status shows the access the user has and only expires |
| `Lifecycle.SuspendedHasNoAccess` | internal/user_subscription/repository.go:631-658 | a suspended user has no access at any instant, his period ends by then, renewal is off, and the event says so; trial and payments stay on record |
| `Lifecycle.CancelEndsTrialOnly` | internal/user_subscription/repository.go:476-532 | a cancellation acts exactly on a user with access; it ends a trial at once, a paid period or a grace runs on to its end with renewal off, and the event says which |
| `Lifecycle.RenewalOffKeepsAccess` | internal/user_subscription/repository.go:534-548 | switching automatic renewal off takes nobody's access |
| `Lifecycle.GraceGivesAccess` | internal/user_subscription/repository.go:550-569 | a grace gives an active user, or one in grace, access until its own end instead of the period's |
| `GrantLedger.EachPaymentProlongsOnce` | internal/user_subscription/repository.go:335-434 | over every run, with redelivery, crashes and purged message tables, no trial and no payment id prolongs a user twice |
| `GrantLedger.RepeatedPaymentProlongs` | internal/user_subscription/repository.go:382-434 | after a purge a repeated event prolongs again iff its payment id is empty |
| `GrantLedger.GrantedTimeIsConserved` | internal/user_subscription/repository.go:313-461 | whatever the clocks read and whatever befalls others, while no running period of the user is cut his granted intervals are ordered, disjoint and together as long as the days granted; lapse, suspension and a new payment included |
| `GrantLedger.JournalIntervalIsReal` | internal/user_subscription/repository.go:415-434 | the journal row of a payment spans the days it covers iff the previous period was over |
| `GrantLedger.GrantsCommute` | internal/user_subscription/referral_repository.go:175-185 | two grants at one instant leave the same end in either order |
| `GrantLedger.RedeemEmpties` | internal/user_subscription/referral_repository.go:138-197 | a second redemption finds nothing |
| `Referrals.RewardsNeverExceedConversions` | internal/user_subscription/referral_repository.go:94-197 | at a fixed price, months rewarded never exceed converted referrals divided by the price, over every run |
| `Access.NullIsTheOnlyDifference` | internal/vpn_orchestrator/repository.go:638-652 | the feed's decision and the SQL filter differ exactly on a row whose deciding column is NULL |
| `Access.ReconcileAgreesWithFeed` | internal/vpn_orchestrator/service.go:168-180 | on every reachable row, at every instant, they agree |
| `Access.RaisingEventsAscend` | internal/user_subscription/repository.go:313-331 | trial, activation and suspension events of a user carry strictly ascending revisions |
| `Access.TrialKeepsWhatIsPaid` | internal/user_subscription/repository.go:286-370 | a trial on top of a running payment keeps plan, payment and renewal, and adds its days; in grace it is kept for later |
| `Access.PaymentGivesAccess` | internal/user_subscription/repository.go:440-474 | access from now to the prolonged end; renewal may be switched on and a cancellation lifted, never the reverse |
| `Access.RedeemInGraceGivesNoAccess` | internal/user_subscription/referral_repository.go:175-185 | the prolonged period is accessible iff the user is not in grace or the grace outlasts it |
| `Access.GraceEventTellsTheTruth` | internal/user_subscription/service.go:589-626 | the published grace is the stored one iff the row was active or in grace and the grace is not over |
| `Access.GraceDoesNotRevive` | internal/user_subscription/repository.go:550-569 | a late grace gives an expired user no access |
| `Projection.ProjectionTable.UpsertAccessProjectionTx` | internal/vpn_orchestrator/repository.go:513-542 | the row changes exactly when the event's revision is not older; other users' rows stay |
| `Projection.LastTopIsStored` | internal/vpn_orchestrator/repository.go:521-537 | any deliveries leave the last event among those of the highest revision |
| `Projection.ProjectedServes` | internal/vpn_orchestrator/service.go:504-574 | when each kind of event, as stored, gives access: trial, activation and grace until the instant they name, a suspension never, a cancellation only while it leaves a period that still runs when it is processed |
| `Projection.ConvergesIffOneTopRow` | internal/vpn_orchestrator/repository.go:521-537 | the result is independent of order and repetition iff the highest revision names one row |
| `Projection.UserConvergesIff` | internal/vpn_orchestrator/service.go:504-574 | over every run of the ledger, all five kinds of a user's events, delivered in any order, repeatedly and at any instants, end in one row iff those of the highest revision agree in kind and end and none is a cancellation that leaves a period running |
| `Projection.GraceDoesNotConverge` | internal/user_subscription/repository.go:550-569 | a payment followed by a grace: two events of one revision, and the row is active or in grace as the one or the other is delivered last |
| `Projection.LatestEventWins` | internal/vpn_orchestrator/service.go:504-574 | over every run of the ledger, whatever selection of the events up to a trial, activation or suspension arrives in whatever order, each with its country, that one wins if it arrives |
| `Outbox.Pick` | internal/common/outbox/outbox.go:60-75 | the selection is ascending and within the limit |
| `Outbox.PickExact` | internal/common/outbox/outbox.go:60-75 | it holds due, unlocked rows only and passes over none before its last |
| `Outbox.LockRows` | internal/common/outbox/outbox.go:71-76 | exactly the selected rows become processing with one attempt more |
| `Outbox.BlockedExactly` | internal/common/outbox/worker.go:60-80 | a key is blocked iff some earlier turn of the pass ended without the broker's consent |
| `Outbox.PassPublishesPrefix` | internal/common/outbox/worker.go:60-80 | within a pass the events of a key the broker took are a prefix of that key's events |
| `Outbox.IdOrderKeptIffListedSo` | internal/common/outbox/outbox.go:71-91 | a pass over a batch in any order keeps the id order of each key, whatever the broker answers, iff the batch lists the events of each key in it |
| `Outbox.OrderKeptIffNothingSkipped` | internal/common/outbox/worker.go:58-80 | a pass over the selected rows in any order lets no event overtake an unpublished one of its key, whatever the broker answers, iff the batch skips no earlier event and lists each key by id |
| `OutboxRuns.RunKeepsSound` | internal/common/outbox/outbox.go:60-113 | with any number of publishers interleaved and dying: attempts by status, copies within requests within attempts, no event in two hands |
| `OutboxRuns.LocksAreBounded` | internal/common/outbox/outbox.go:60-113 | all locks together are the sum of attempts, at most 20 per event; dropped rows have 20, waiting rows fewer, published rows at least one copy |
| `OutboxRuns.EveryPassPublishesPrefix` | internal/common/outbox/worker.go:60-80 | the prefix property in every run, in the order in which the database listed the batch, whatever other publishers do meanwhile; in order of id if the batches are listed so |
| `OutboxRuns.RestIsForever` | internal/common/outbox/outbox.go:60-76 | a row out of the queue and in nobody's batch never changes again |
| `OutboxRuns.DyingStrands` | internal/common/outbox/worker.go:47-80 | when a publisher dies, the rows at rest afterwards are those at rest before and those it still held, and the latter stay processing |
| `OutboxRuns.StrandedIff` | internal/common/outbox/worker.go:47-80 | over every run, a step leaves a row at rest in processing that was not at rest iff it is the death of its holder or the row's turn with a failed status update |
| `OutboxRuns.LaterPassOvertakes` | internal/common/outbox/outbox.go:102-113 | a run in which a later event of a key is published while the earlier one waits |
| `OutboxRuns.BackoffIsShort` | internal/common/outbox/outbox.go:107-110 | the delay is between 1 and 1024 s, so the cap of 3600 never applies |
| `OutboxRuns.TurnDropsIff` | internal/common/outbox/worker.go:64-78 | a turn drops its row iff it is the 20th, ends without consent and the update goes through; the record exists iff the broker was asked and the insert went through |
| `OutboxRuns.TurnPublishesIff` | internal/common/outbox/worker.go:60-80 | a turn publishes its row iff the broker was asked and consented and the update goes through; puts it back, due after its backoff, iff it ends without consent before the 20th attempt and the update goes through; requests and copies are accounted for |
| `OutboxRuns.PublishedIff` | internal/common/outbox/worker.go:60-80 | after every run, an event becomes published exactly by such a turn of its own, and goes back to wait exactly by the other kind |
| `OutboxRuns.RetryIsDueAfterBackoff` | internal/common/outbox/outbox.go:102-113 | an event put back is due again exactly when its backoff is over |
| `OutboxRuns.BackoffDoubles` | internal/common/outbox/outbox.go:102-113 | the backoff doubles with each attempt from one second to 1024 and stays there |
| `OutboxRuns.AddedIsDueAtOnce` | internal/common/outbox/outbox.go:21-35 | an added event is the last row, due from its instant on and not before |
| `OutboxRuns.DroppedIff` | internal/common/outbox/worker.go:64-78 | after every run, a step drops an event iff it is such a turn, with the same law for the record |
| `OutboxRuns.DroppedUnaskedIffAlwaysBlocked` | internal/common/outbox/worker.go:64-69 | over every run a dropped event was never offered to the broker iff all its 20 turns were spent waiting; then it has no copy and no record |
| `OutboxRuns.DroppedUnasked` | internal/common/outbox/worker.go:64-78 | a run in which that happens |
| `OutboxRuns.OutboxTable.AddTx` | internal/common/outbox/outbox.go:21-35 | appends a pending row due at once |
| `OutboxRuns.OutboxTable.SelectPending` | internal/common/outbox/outbox.go:62-70 | the scan returns the specified selection |
| `OutboxRuns.OutboxTable.LockPending` | internal/common/outbox/outbox.go:60-91 | returns the selected rows with their keys, in whatever order the database lists them, and locks exactly those |
| `OutboxRuns.OutboxTable.MarkPublished` | internal/common/outbox/outbox.go:93-100 | one row becomes published |
| `OutboxRuns.OutboxTable.MarkRetry` | internal/common/outbox/outbox.go:102-114 | failed from 20 attempts on, else retry after the backoff |
| `OutboxRuns.OutboxTable.PublishOne` | internal/common/outbox/worker.go:64-80 | one turn of the loop, including ignored errors of the status updates: published iff the broker was asked and consented and the update went through |
| `OutboxRuns.OutboxTable.PublishBatch` | internal/common/outbox/worker.go:60-80 | the loop leaves the table the specification of a pass names |
| `OutboxRuns.BatchIsARun` | internal/common/outbox/worker.go:60-80 | that pass is the turns of one publisher in a run |
| `Consumer.RunKeeps` | internal/common/kafka/consumer.go:111-272 | every run: effects match inbox rows and purges, offsets are settled in order, the commit never passes the reader |
| `Consumer.AppliedOncePerPurge` | internal/vpn_orchestrator/kafka_handlers.go:186-206 | an effect happens at most once per message id plus once per purge of its inbox row |
| `Consumer.CommittedIsSafe` | internal/common/kafka/consumer.go:129-272 | if the configured dead-letter topic refuses nothing, every committed offset has its effect or its dead letter |
| `Consumer.CountersAreBounded` | internal/common/kafka/attempt_store.go:66-90 | a counter exceeds 20 by no more than the deliveries that ended with it full and the increments stored without an answer |
| `Consumer.PoisonIsGivenUp` | internal/common/kafka/consumer.go:145-225 | for any mixture of failures counted, stored without an answer, or not stored: given up at the first whose answered count is full, with everything stored up to it; if there is none, still retrying with everything stored |
| `Consumer.FirstFullIsFirst` | internal/common/kafka/consumer.go:147-220 | that failure is answered with 20 or more, what was stored before included, and none before it is |
| `Consumer.DeadIffCountedOut` | internal/common/kafka/consumer.go:145-256 | with a working dead-letter topic a failing message is out there iff some failure was answered with a full counter, then committed with its counter cleared; its effect is never applied |
| `Consumer.SuccessAfterRetries` | internal/common/kafka/consumer.go:186-272 | success after any failures, none answered with a full counter, applies the effect once, commits and clears the counter |
| `Consumer.TryAppliesIff` | internal/vpn_orchestrator/kafka_handlers.go:168-207 | the effect comes with its inbox row, exactly if the transaction of an unmarked message went through, and the caller learns of a skip, of success, or of an error |
| `Consumer.FailureIsCounted` | internal/common/kafka/attempt_store.go:66-84 | a failure is stored unless the store fails outright, and reported with its number only if the store answers; other keys keep their count |
| `Consumer.DeliveryCommitsIff` | internal/common/kafka/consumer.go:129-272 | a delivery commits iff the broker does not refuse the commit and it was resolved, or given up with no dead-letter topic or the dead letter taken, or its first run skipped and the process lived to publish; with what becomes of the consumer and the counter |
| `Consumer.CommitMovesIff` | internal/common/kafka/consumer.go:129-272 | over every run the commit moves exactly by such a delivery, by one offset |
| `Consumer.RefusedIsRedelivered` | internal/common/kafka/consumer.go:220-248 | a counted-out message whose dead letter is refused stays uncommitted, and a restart delivers it again |
| `Consumer.UncountedNeverEnds` | internal/common/kafka/attempt_store.go:78-82 | failures for which the store gives an error never end the retries, stored or not |
| `Consumer.DeliveryLosesIff` | internal/common/kafka/consumer.go:129-272 | one delivery moves on from a message without effect or dead letter iff it gave up or skipped, no dead letter got out, and no run of the handler took effect unanswered |
| `Consumer.LostIffNeverSeenThrough` | internal/common/kafka/consumer.go:129-272 | over every run, a committed offset has neither effect nor dead letter iff no step ever handled its message, under whatever offset or consumer, or got its dead letter out |
| `Consumer.CommittedIsFinal` | internal/common/kafka/consumer.go:129-272 | once the commit is past an offset no later step of the run delivers it or sends its dead letter |
| `Consumer.PassedOverIsNotYetLost` | internal/common/kafka/consumer.go:230-248 | a run in which an offset is passed over, a restart comes before the commit, and the effect is applied after all |
| `Consumer.LeftBehindIff` | internal/common/kafka/consumer.go:129-272 | over every run, the history of passed-over offsets holds one iff some delivery of it gave up or skipped and no dead letter got out; a committed offset that is not in it has its effect or its dead letter |
| `Consumer.RefusedDeadLetterIsLost` | internal/common/kafka/consumer.go:230-248 | a poison message whose dead letter is refused is behind the next commit with neither effect nor dead letter |
| `Consumer.RefusedSkipIsLost` | internal/common/kafka/consumer.go:134-143 | so is a message skipped at once |
| `Consumer.PartitionConsumer.ProcessMessageOnce` | internal/vpn_orchestrator/kafka_handlers.go:168-207 | verdict and state for every way the transaction can end |
| `Consumer.PartitionConsumer.IncAttempts` | internal/common/kafka/attempt_store.go:66-84 | counts, or reports one when the store gives an error, whether or not it counted |
| `Consumer.PartitionConsumer.Commit` | internal/common/kafka/consumer.go:249-256 | resets the counter, commits the offset; a commit error stops the consumer |
| `Consumer.PartitionConsumer.SkipAtOnce` | internal/common/kafka/consumer.go:134-143 | the first skip commits whatever became of the dead letter |
| `Consumer.PartitionConsumer.DeadLetterThenCommit` | internal/common/kafka/consumer.go:220-257 | commits iff the dead letter is out or none is configured and the broker takes the commit; else it fetches on |
| `Consumer.PartitionConsumer.ConsumeOne` | internal/common/kafka/consumer.go:111-272 | the loop with its in-place retries ends in the state the specification names, for every behaviour of the outside world |
| `Allocator.ScoreIsLargerPressure` | internal/vpn_orchestrator/repository.go:124-162 | the score is the larger of the user pressure and, where it is known, the channel pressure |
| `Allocator.FullChannelWeighsAsFullNode` | internal/vpn_orchestrator/repository.go:124-162 | a fully used channel weighs what a node full of users weighs |
| `Allocator.SortIsStable` | internal/vpn_orchestrator/allocator.go:32-42 | sorting keeps the order of elements that tie |
| `Allocator.AllocatorService.constructor` | internal/vpn_orchestrator/allocator.go:24-29 | a non-positive heartbeat age becomes 90 s |
| `Allocator.AllocatorService.SliceStable` | internal/vpn_orchestrator/allocator.go:32-42 | sorted, a permutation, and the elements that tie with any given one keep their order |
| `Allocator.AllocatorService.SortPoolItems` | internal/vpn_orchestrator/allocator.go:32-42 | sorted by place then id, a permutation |
| `Allocator.AllocatorService.IndexServers` | internal/vpn_orchestrator/allocator.go:58-63 | the index finds the last entry of a key |
| `Allocator.AllocatorService.GroupByCountry` | internal/vpn_orchestrator/allocator.go:65-77 | the enabled items of each country, countries by first appearance |
| `Allocator.AllocatorService.SplitByCapacity` | internal/vpn_orchestrator/allocator.go:92-107 | the living candidates with and without room |
| `Allocator.AllocatorService.PoolOf` | internal/vpn_orchestrator/allocator.go:109-121 | those with room, else those without if the policy overflows |
| `Allocator.AllocatorService.PickFrom` | internal/vpn_orchestrator/allocator.go:123-143 | the first bound candidate, else the first after the stable sort by load |
| `Allocator.AllocatorService.Allocate` | internal/vpn_orchestrator/allocator.go:57-150 | the whole result equals the specification |
| `Allocator.CountryServedIffEligible` | internal/vpn_orchestrator/allocator.go:81-121 | a country appears, and once, iff it has an eligible server |
| `Allocator.GivenIsBest` | internal/vpn_orchestrator/allocator.go:123-145 | the server given is eligible, bound if any eligible one is, else beaten by none on load, place, id |
| `Allocator.AllocationGives` | internal/vpn_orchestrator/allocator.go:57-150 | the output is exactly the given servers, sorted, countries apart |
| `Allocator.CountryServedIffNodeFit` | internal/vpn_orchestrator/allocator.go:79-121 | a country is served iff one of its enabled items sits on a node that is up and has room for one user more, or is up at all when overflowing is allowed |
| `Allocator.GivenBeatsOthers` | internal/vpn_orchestrator/allocator.go:79-145 | against any other item of the country whose node is up, the given one has room if the other has, and among those with the same room is kept if the other is, else no worse in load, place, id |
| `Allocator.FirstKeptIsGiven` | internal/vpn_orchestrator/allocator.go:123-130 | of several servers the user is kept on, the first listed of those that may be given is given |
| `Allocator.AllocationIsOrdered` | internal/vpn_orchestrator/allocator.go:145-150 | the output is in order of place, then id |
| `Allocator.OrderIrrelevantIffOneBound` | internal/vpn_orchestrator/allocator.go:123-145 | with unique ids, order and repetition of the input are irrelevant iff no country has two bound eligible servers |
| `Allocator.ServersInAnyOrder` | internal/vpn_orchestrator/allocator.go:58-63 | without a key listed twice the order of servers is irrelevant |
| `Routing.AppendXrayRules` | internal/vpn_orchestrator/routing_compile.go:192-204 | domains and addresses become rules of their own |
| `Routing.CompileXrayRouting` | internal/vpn_orchestrator/routing_compile.go:138-181 | empty iff the manifest has no rules; the client decides every destination as the manifest says |
| `Routing.XrayMeansManifest` | internal/vpn_orchestrator/routing_compile.go:138-204 | first match over the rules is the manifest's decision for every manifest and destination |
| `Routing.JoinedRuleNeedsBoth` | internal/vpn_orchestrator/routing_compile.go:183-191 | one joined rule decides like the two iff domain and address match together |
| `Routing.DecidedByEntries` | internal/vpn_orchestrator/routing_manifest.go:27-54 | entry by entry, which destinations the manifest blocks, sends direct and sends by the proxy, the geo lists included only when enabled |
| `Routing.ValuesOneByOne` | internal/vpn_orchestrator/routing_compile.go:260-270 | each entry by itself is dropped when blank and trimmed otherwise, and the order stays |
| `Routing.PayloadDeliveredIff` | internal/vpn_orchestrator/routing_compile.go:138-325 | exactly when a payload is delivered to either client |
| `Routing.HappValues` | internal/vpn_orchestrator/routing_compile.go:260-270 | trims and drops blanks, in order |
| `Routing.CompileHappRouting` | internal/vpn_orchestrator/routing_compile.go:275-325 | the client decides as the trimmed manifest, also without a profile |
| `Routing.HappMeansTrimmed` | internal/vpn_orchestrator/routing_compile.go:275-325 | the same as a law of the payload |
| `Routing.AlikeIffSameRules` | internal/vpn_orchestrator/routing_manifest.go:27-54 | two manifests decide alike everywhere iff their effective entries are the same |
| `Routing.ClientsAgreeIff` | internal/vpn_orchestrator/routing_compile.go:138-325 | both clients route every destination alike iff trimming keeps the effective entries, a destination being free to match any set of entries |
| `Routing.CleanManifestsAgree` | internal/vpn_orchestrator/routing_compile.go:138-325 | with trimmed, non-blank entries both do what the manifest says |
| `Routing.EmptyEntryDivides` | internal/vpn_orchestrator/routing_compile.go:260-270 | with an empty direct entry every destination it matches goes direct in one client and through the proxy in the other |
| `Routing.PaddedEntryDivides` | internal/vpn_orchestrator/routing_compile.go:260-270 | an entry with a leading blank directs the host it means in the Happ client only |
| `RoutingCache.CachedRouting.Load` | internal/vpn_orchestrator/routing_manifest.go:96-160 | fields and payloads after every branch |
| `RoutingCache.LooksAgainIff` | internal/vpn_orchestrator/routing_manifest.go:96-160 | a file of another path is always read, one of the same path again ten seconds after the last look and not before; what a look remembers |
| `RoutingCache.CacheIsTransparent` | internal/vpn_orchestrator/routing_manifest.go:96-160 | if stamps tell files apart, after any loads at any times the cache serves what re-reading at the check times would |
| `RoutingCache.StaleIffHidden` | internal/vpn_orchestrator/routing_manifest.go:131-135 | a check strays from re-reading iff an unchanged stamp hides a file that would give something else |
| `RoutingCache.SameStampServesOldRules` | internal/vpn_orchestrator/routing_manifest.go:131-135 | a run with two files of one stamp in which it does |
| `RoutingCache.BrokenElsewhereServesOldPath` | internal/vpn_orchestrator/routing_manifest.go:144-149 | a broken file under a new path is answered with the old path's rules |
| `Feed.SelectForServer` | internal/vpn_orchestrator/cdn_config.go:142-152 | the first endpoint bound to the server, none exactly if there is none; no fallback |
| `Feed.BuildGroupedFeedLines` | internal/vpn_orchestrator/feed_builder.go:50-110 | lines and counted servers equal the specification |
| `Feed.LinesOf` | internal/vpn_orchestrator/feed_builder.go:68-107 | one item: main line, alternatives only for a server not seen before |
| `Feed.AlternatesFor` | internal/vpn_orchestrator/feed_builder.go:83-106 | CDN, gRPC, Hysteria, Reality, in this order, counted iff the CDN link is there |
| `Feed.OncePerServer` | internal/vpn_orchestrator/feed_builder.go:76-81 | no server gets an alternative transport twice |
| `Feed.LineAppearsIff` | internal/vpn_orchestrator/feed_builder.go:65-110 | an alternative appears iff some item is the first of its server with a UUID, with this UUID, and the first endpoint of its transport there has what the link needs |
| `Feed.MainLineAppearsIff` | internal/vpn_orchestrator/feed_builder.go:65-75 | a main line appears iff it is some item's URL, trimmed and not blank |
| `Feed.LinesInOrder` | internal/vpn_orchestrator/feed_builder.go:65-110 | an item's lines follow those of the items before it: main, CDN, gRPC, Hysteria, Reality |
| `Feed.CdnLinesAreCounted` | internal/vpn_orchestrator/feed_builder.go:83-90 | the number of CDN lines is the size of the counted set, server by server |
| `Feed.BuildUserProfiles` | internal/vpn_orchestrator/service.go:302-357 | the account list equals the specification |
| `Feed.ProfileList.Add` | internal/vpn_orchestrator/service.go:303-312 | adds unless the key is there |
| `Feed.LinksAreRegistered` | internal/vpn_orchestrator/feed_builder.go:65-109 | every CDN, gRPC or Reality line has an account on its server with the endpoint's tag and the line's UUID |
| `Feed.ProfilesRegister` | internal/vpn_orchestrator/service.go:302-357 | each endpoint bound to the server has its account, whatever the deduplication dropped |
| `Feed.AccountCarries` | internal/vpn_orchestrator/service.go:302-357 | tag or its default, UUID, address and flow of the account of each transport |
| `Feed.AccountsApart` | internal/vpn_orchestrator/service.go:302-357 | no two accounts of a list share tag and address, and none is the CDN account when that is skipped |
| `Feed.MarkedKeysDiffer` | internal/vpn_orchestrator/service.go:303-312 | tag and address joined by a bar never confuse the plain account with the CDN one |
| `Feed.CdnEmailIsolates` | internal/vpn_orchestrator/cdn_quota.go:140-151 | marking is idempotent, changes every unmarked address, and fails only without local part or domain |
| `Feed.MarkedAddress` | internal/vpn_orchestrator/cdn_quota.go:140-151 | the mark goes between the local part and the last at sign, unless it is there |
| `Feed.RevokeCoversSync` | internal/vpn_orchestrator/service.go:439-502 | a revocation lists tag, address and UUID of everything any synchronisation listed |
| `Feed.CdnInboundAllowlist` | internal/vpn_orchestrator/cdn_quota.go:153-170 | the trimmed tags; a registered tag is in it iff it is trimmed |
| `Feed.TagCountedIffTrimmed` | internal/vpn_orchestrator/service.go:273-291 | traffic through the registered tag counts iff the configured tag has no blanks around it |
| `Feed.RealityFlowMatchesIff` | internal/vpn_orchestrator/service.go:332-354 | the Reality account has the link's flow iff no earlier account took its tag or the flows coincide |
| `Recurring.ProfileRow.UpdateNextChargeAt` | internal/billing/repository.go:192-205 | moves the next charge to the end of the activation and makes the row active iff auto-renewal is on; else changes nothing |
| `Recurring.ProfileRow.LockDueRenewal` | internal/billing/repository.go:207-249 | claims the row iff due, or stuck in processing for 30 minutes |
| `Recurring.ProfileRow.LockExpiredGrace` | internal/billing/repository.go:251-291 | claims the row iff its grace is over, or it is stuck in expiring |
| `Recurring.ProfileRow.UpsertRecurringProfileTx` | internal/billing/repository.go:467-497 | a fresh active row with auto-renewal on |
| `Recurring.ProfileRow.DisableAutoRenewTx` | internal/billing/repository.go:499-513 | switches an existing row off |
| `Recurring.ProfileRow.ScheduleRenewalRetryTx` | internal/billing/repository.go:515-531 | retry at the given time with the given count, whatever the status was |
| `Recurring.ProfileRow.StartGracePeriodTx` | internal/billing/repository.go:533-549 | grace without a next charge |
| `Recurring.ProfileRow.MarkRecurringSuccessTx` | internal/billing/repository.go:551-568 | an existing row becomes active, count zero, unlocked |
| `Recurring.ProfileRow.SuspendExpiredGraceTx` | internal/billing/repository.go:570-585 | expired and off, whatever the status was |
| `Recurring.ProfileRow.HandlePaymentSucceeded` | internal/billing/service.go:516-570 | a saved method renews the row, another switches it off |
| `Recurring.ProfileRow.HandleRecurringPaymentFailed` | internal/billing/service.go:860-911 | the next retry of the schedule, or grace |
| `Recurring.ProfileRow.ChargeRecurringProfile` | internal/billing/service.go:766-858 | asks the provider iff the locked copy is willing, and records each answer |
| `Recurring.ActivationSetsNextCharge` | internal/billing/repository.go:192-226 | after an activation of a row with auto-renewal on, a charge is due at exactly the instants from its end on, and nothing else of it changes but the status; with it off nothing changes |
| `Recurring.ChargedFromActivationOn` | internal/billing/repository.go:192-226 | after every run, from such an activation on workers find nothing however often they look before its end, and the first to look from then on claims the row |
| `Recurring.PaymentSetsNextCharge` | internal/billing/repository.go:467-568 | a payment with a saved method, however it arrives, is next charged from the given instant on at the first attempt; one without is never charged |
| `Recurring.FailureSetsNextCharge` | internal/billing/service.go:860-911 | a failure, declined, unanswered or cancelled, is charged again from the end of its delay on iff renewal is on; beyond the schedule its grace is swept from its end on |
| `Recurring.StuckIsReclaimed` | internal/billing/repository.go:207-291 | a claimed row is claimed again iff held for more than half an hour, a sweep likewise; switching off and suspending end both |
| `Recurring.AskedIffHeld` | internal/billing/service.go:766-858 | the provider is asked exactly by a charge whose attempt a worker holds, once, and the attempt is let go of |
| `Recurring.UnrecordedLeavesRow` | internal/billing/service.go:766-858 | a charge left pending or not recorded, and a worker's death, leave the row as it was claimed |
| `Recurring.RetriesAreBounded` | internal/billing/service.go:860-911 | over every interleaving of charges and webhooks the count stays within the schedule, every attempt number has its place, and only willing rows are charged |
| `Recurring.StaysUnwillingIff` | internal/billing/repository.go:467-585 | a switched-off or expired row stays so under a step iff the step is not a saved checkout, a saved late success of an issued attempt, or a recorded saved success of a charge in flight |
| `Recurring.NoChargeUnlessRevived` | internal/billing/repository.go:207-226 | over every run from such a row: it stays so throughout iff no such payment comes, and then no charge is started that no worker held already, late webhooks or not |
| `Recurring.OffAndExpiredAreUnwilling` | internal/billing/repository.go:499-585 | both steps lead there from every reachable row |
| `Recurring.FailuresEndInExpiry` | internal/billing/service.go:653-911 | n + 1 failures in due time, each declined, unanswered, or cancelled by a later webhook: n + 1 charges, retries 1 to n, grace, and the sweep expires the row |
| `Recurring.EveryPaymentStartsAfresh` | internal/billing/repository.go:467-497 | from any state a payment with a saved method grants the full schedule of such failures again, no more and no less |
| `Recurring.FailingRunIsARun` | internal/billing/service.go:653-858 | the failures these theorems speak of are runs of lock, charge and, where the charge was left pending or unrecorded, the webhook's cancellation |
| `Recurring.FailuresClimb` | internal/billing/service.go:860-911 | the same from any retry on, step by step |
| `Recurring.LateCancelReopensIffOn` | internal/billing/service.go:653-697 | a late cancellation makes the row chargeable again iff auto-renewal is on |
| `Recurring.LateCancelRepeatsRetries` | internal/billing/repository.go:515-531 | in grace it sets the count back and the remaining retries are charged once more |
| `Recurring.ChargeInFlightSwitchesBackOn` | internal/billing/service.go:766-858 | a charge already locked is made despite switching off, and undoes it iff it succeeds with a saved method and is recorded |
| `Recurring.PaymentSurvivesIffSweepsClosed` | internal/billing/service.go:719-757 | over every run a payment survives the next suspension iff every sweep that locked has suspended |
| `Recurring.PaymentSurvivesIffNoSweep` | internal/billing/repository.go:570-585 | the same for any state |
| `Recurring.SweepUndoesPayment` | internal/billing/service.go:719-757 | a payment between the sweep's lock and its suspension is undone |
| `RateLimit.Limiter.constructor` | internal/common/ratelimit/ratelimit.go:36-47 | a non-positive window becomes a minute |
| `RateLimit.Limiter.Allow` | internal/common/ratelimit/ratelimit.go:55-71 | answer and counter of the key; other keys stay |
| `RateLimit.Limiter.Cleanup` | internal/common/ratelimit/ratelimit.go:84-92 | drops exactly the stale counters |
| `RateLimit.AllowedIffAmongTheFirst` | internal/common/ratelimit/ratelimit.go:55-71 | over every run, clock readings in any order, a request gets through iff there is no limit or it is among the first `limit` since its window was opened |
| `RateLimit.FewerThanTwiceTheLimit` | internal/common/ratelimit/ratelimit.go:55-71 | in any stretch shorter than the window at most 2 * limit - 1 requests get through |
| `RateLimit.BoundIsReached` | internal/common/ratelimit/ratelimit.go:65-70 | for every limit that many do, within one instant |
| `RateLimit.SlidesIffLimitIsOne` | internal/common/ratelimit/ratelimit.go:9-14 | at most the limit in every such stretch iff the limit is one |
| `RateLimit.SweepsAreInvisible` | internal/common/ratelimit/ratelimit.go:73-94 | with a clock that does not go back, cleaning at any moments changes no answer |
| `RateLimit.SweepInvisibleIff` | internal/common/ratelimit/ratelimit.go:59-92 | for any counter, a sweep read at s changes no answer to whatever follows a request read at r iff it does not drop the counter as stale at s while it is not stale at r |
| `RateLimit.SweepShowsIff` | internal/common/ratelimit/ratelimit.go:59-92 | the same after any history with clock readings in any order; with s <= r a sweep never shows |
| `RateLimit.SweepShowsWhenClockGoesBack` | internal/common/ratelimit/ratelimit.go:59-92 | a run of three calls in which it does |

## Left out

- NeverOvercharged: bounds usage by bytes since the period opened plus the counter's lead; without the lead it is false, `FairPeriodIffNoLead` says exactly when.
- LockPending: ids are given at commit here; a sequence gives them at insert.
- LoadScore: real arithmetic instead of float64, so near-ties that rounding would merge stay apart.
- Allocate: servers arrive as one list; the source ranges over a map of lists in random order, which matters only for a key listed twice (`ServersInAnyOrder`).
- ClientsAgreeIff: a destination may match any set of entries; real matchers tie entries together, which leaves agreement where it holds and may remove a difference.
- SliceStable: insertion instead of the library's block merge; any stable sort has this result.
- Load: the stamp and the content of the manifest are read at one instant; an edit between the two is not modelled.
- CommittedIsSafe: one consumer per partition with restarts and rebalances; two consumers of one generation are Kafka's to prevent. `ConsumeOne` says what happens when a dead letter is refused.
- LinksAreRegistered: Hysteria lines need no registration; a link's port, path and display name are not modelled, nor is a CDN account of an exhausted node. Items without a node id, which synchronisation skips, are assumed away.
- LockDueRenewal: one user's row; the batch limit, its order and rows locked by other workers are not modelled. `payment_method_id` is non-empty on every row, as only the upsert writes it.
- LockExpiredGrace: the same; the batch limit and order of the sweep are not modelled.
- ChargeRecurringProfile: order ids and idempotence keys repeat across billing cycles; what the provider makes of a repeated key is not modelled.
- RewardsNeverExceedConversions: a fixed number of users per month; the environment may change it between restarts.
- RunCalendarReset: a failing transaction begin or a cancelled context in mid-pass is not modelled; single failing row updates are.
- KeyLessIsTotalOrder: node ids compare by code point; the database's collation may order them otherwise.
- Columns that decide nothing (audit instants, `exhausted_at`, country, titles, raw responses) and the token table.
- The 64-bit width of byte counters and the range of timestamps: integers are unbounded.
- Errors of the database: a failed transaction is no step. Where the source ignores an error, the step has both outcomes.
- The expiry sweep's selection and the reminder workers: a suspension may follow at any time.
- The cleaners' ages: inbox rows and counters may be purged at any time.
- Crypto billing, refunds, card binding: the same payment pattern with less state.
- Node commands on the wire, heartbeats, reconcile batching, advisory locks.
- HTTP, Telegram texts and keyboards, Telegraph, metrics, Redis, admin CRUD, environment parsing, URL strings, base64 and JSON.
