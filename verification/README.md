# Billing and subscription protocols, modelled and proved

A Dafny model of the money, subscription and delivery protocols of the lurus-identity service, and
proofs of what every run of them keeps. The service performs its protocols as separate database
transactions, started by concurrent webhooks, administrators and cron jobs; the model takes each
transaction or conditional update as one atomic step, and lets steps fail, stop half-way and interleave.

| file | what it models |
|---|---|
| `Ledger.dfy` | wallets, the append-only ledger, redemption codes; any run of credits, debits and redemptions |
| `Payout.dfy` | claim once, then pay in a second transaction: the shape shared by topups, refunds and rewards |
| `Topup.dfy` | payment orders: webhook deliveries that flip and then credit, crashes, the stale-order sweep |
| `Refunds.dfy` | refund requests, concurrent approvals and rejections, the unguarded completion |
| `OrderMoney.dfy` | topups and refunds of the same orders in one run: what the ledger pays for an order |
| `Calendar.dfy` | Gregorian dates, clamped month addition, billing-cycle expiry |
| `Entitlements.dfy`, `EntitlementCache.dfy` | rows derived from plan features, and the cache-aside service over them |
| `Subscriptions.dfy` | activation, grace, expiry and cancellation, and the expiry job's batch loops |
| `Renewal.dfy` | the debit / activate / compensate saga with backoff |
| `Outbox.dfy` | the event relay: retry cap, batch limit, order, blocking |
| `RateLimit.dfy` | the sliding-window limiter |
| `Checkin.dfy` | streaks and check-in rewards |
| `Rewards.dfy`, `Referral.dfy` | rewards under a unique constraint, and referral rewards |
| `Decimal.dfy`, `Base64.dfy`, `Session.dfy` | number text, unpadded base64 (section 5 of RFC 4648), session tokens (section 7.1 of RFC 7515) |
| `Base.dfy`, `Sums.dfy` | results, and sums over sequences and maps |

Where the code works by changing stored state, the model is a class with those fields; each method is
proved equal to a specification function or to steps of a state machine, and the properties are proved
about those, for every run.

## Conventions

- Money is an integer number of 0.0001 LB, the precision of the balance column; the lifetime columns hold
  0.01 LB and round half away from zero. Check-in rewards are exact reals until they are credited.
- Clocks, the answers of the store, of Redis and of the broker, and the order in which concurrent callers
  run are inputs: the theorems quantify over all of them.
- Subscription ids are positions in the table; rows are never deleted. Order, refund and event numbers are
  fresh when used.
- Between the two queries of an expiry tick, and between a query of the renewal job and the loop over its result, no
  other call touches the same account and product. A turn of the expiry job's loops may come late, after any other
  calls, as an event of its own.
- The partial unique index on live subscriptions (migrations/001_identity_schema.sql:92-94) is part of `Expire`; no
  other write can meet it.
- An upsert of an entitlement leaves a column alone whose new value is zero, as GORM's `Assign` with a struct does.
- Of the descriptions of ledger rows those of refunds, redemptions and referral rewards are modelled; the others are empty.
- Whole-row saves of a payment order happen before its payment page is handed out, so before any callback.

## What was found

Properties that do not hold as one might expect, with the condition under which they do and, where it takes a
run to get there, a run:

- A delivery that dies between marking an order paid and crediting the wallet is never repaired by
  redelivery (`Topup.LostCreditStaysLost`, `Topup.PaidNeverCredited`).
- An approved refund whose credit is lost or refused stays approved and uncredited; the reconciliation job a comment
  speaks of is not in the repository (`Refunds.LostRefundStaysLost`). Nor is a lost reward made good
  (`Rewards.LostRewardStaysLost`).
- After a completed refund the same order can be refunded again exactly while its window is open
  (`Refunds.RefundedAgainIff`, `Refunds.OrderRefundedTwice`), and never after (`Refunds.NoRefundAfterWindow`).
- A refund request does not look at the order's type or earlier credits: the ledger pays more for an order than
  it cost exactly if its topup and its credited refunds are together at least two (`OrderMoney.OrderTotalCounts`),
  as for a credited topup that is refunded (`OrderMoney.RefundedTopupPaysTwice`).
- A topup or a debit that is not a whole number of cents makes its lifetime column drift
  (`Ledger.TopupKeepsLifetimeIff`, `Ledger.DebitKeepsLifetimeIff`); the internal debit calls accept any positive
  amount (internal/adapter/handler/internal_api.go:203-212).
- A turn of the expiry job that comes late cannot leave two live rows: the index refuses it exactly if the pair has
  another (`Subscriptions.ExpireOneLive`, `Subscriptions.OvertakenExpireRefused`). A row it put in grace is due for its
  end exactly after the grace days (`Subscriptions.GraceLasts`).
- Nothing refuses the end of a grace period that comes late: if the pair was activated since the row was listed, the
  new subscription stays live and loses its grants, save a plan that grants nothing but free
  (`Subscriptions.OvertakenEndWipes`, `Subscriptions.EndKeepsIff`, with a run in `Subscriptions.LateEndLosesPlan`).
- The comment in `renewal.go` says a failed activation enters backoff; the code leaves the retry state
  alone (`Renewal.FailedActivationSkipsBackoff`).
- A failed debit whose retry state is not stored is not counted, and the row stays due
  (`Renewal.DueAfterFailureIff`). So three failures are the limit if all are counted (`Renewal.RetriesBounded`), and
  otherwise there is none (`Renewal.UncountedFailures`).
- A renewed subscription has auto-renew off, and its pair is not due again in any later run until something switches it
  on, which nothing in the service does (`Renewal.RenewedPairNotDueAgain`, `Renewal.SwitchedOnDueIff`). From an empty
  table the job never renews anything (`Renewal.NothingRenewed`); a pair migrated with auto-renew
  (scripts/migrate-from-lurus-api.sql:117-134) is renewed at most once (`Renewal.MigratedRenewedOnce`).
- Stored grants expire with the subscription: a live, synced subscription with an expiry is answered with what its
  plan grants exactly before that time, or if the plan grants nothing but `plan_code` free. In grace it is not
  (`Entitlements.AnswerOfPlan`, `Subscriptions.LiveAnswerIff`).
- A sync to a plan without expiry leaves the expiry of rows that are already there (`Entitlements.SyncHoldsIff`), so an
  unexpiring subscription is answered exactly while the rows its activation met are current
  (`Subscriptions.LiveAnswerIff`): a pair that moves there from a monthly plan is answered as free once the month is
  over (`Subscriptions.ForeverPlanExpires`).
- A feature named `plan_code` overrides the plan's code (`Entitlements.PlanCodeStoredIff`), and grants of an
  earlier plan stay (`Entitlements.OldGrantsStay`).
- A sync that fails half-way and a lost invalidation leave the old answer in the cache; that is right exactly if it
  already said what the rows written say (`EntitlementCache.CoherentKeptIff`, with runs in `EntitlementCache.StaleAnswer`).
- An event is published once more for each time its mark is not stored (`Outbox.EmissionsCounted`), without bound
  (`Outbox.EmittedEveryPoll`).
- Fifty dead letters at the front are exactly what stops the outbox for good (`Outbox.BlockedForeverIff`); fifty
  events and ten polls during an outage get there (`Outbox.OutageBlocks`).
- A session token is not one text: the signature has four spellings that validate alike, line breaks aside
  (`Session.SignatureSpellings`).
- The check-in cap of 1.0 is never reached (`Checkin.PaidRewardBound`).
- A pair earns as many royalties as its renewals have different numbers of at most six
  (`Referral.RoyaltiesCounted`). Numbers below 1 are not refused: numbering from 0 earns seven
  (`Referral.SeventhRoyalty`). Nothing in the repository calls `OnRenewal` yet.

## Model

| member | source | states |
|---|---|---|
| Ledger.LedgerExplainsBalances | internal/adapter/repo/wallet.go:41-121 | over every run, each balance is the sum of its account's rows and each balance_after the prefix sum up to its row |
| Ledger.NeverOverdrawn | internal/adapter/repo/wallet.go:88-102 | with non-negative amounts no wallet is overdrawn and no row ever recorded a negative balance |
| Ledger.LifetimeTopupIsSum | internal/adapter/repo/wallet.go:49-54 | over every run whose topups are whole cents, whatever is debited, lifetime_topup is the sum of the topup rows |
| Ledger.LifetimeSpendIsSum | internal/adapter/repo/wallet.go:90-97 | over every run whose debits are whole cents, whatever is credited, lifetime_spend is the sum of the debit rows |
| Ledger.TopupKeepsLifetimeIff | internal/domain/entity/wallet.go:15-16 | in every reachable book a topup keeps lifetime_topup equal to its rows exactly if it is a whole number of cents |
| Ledger.DebitKeepsLifetimeIff | internal/domain/entity/wallet.go:15-16 | the same for a debit, of any positive amount the wallet covers, and lifetime_spend |
| Ledger.CodesNeverOverused | internal/adapter/repo/wallet.go:248-286 | a code's counter is the number of ledger rows that reference it, and at most its limit |
| Ledger.RedeemPaysUsesLeft | internal/adapter/repo/wallet.go:231-289 | any number of attempts pays the code's value once per use left, to that account only |
| Ledger.DebitThenCredit | internal/adapter/repo/wallet.go:80-121 | a debit succeeds exactly if the wallet covers it; crediting it back restores every balance |
| Ledger.CreditEffect | internal/adapter/repo/wallet.go:41-76 | a credit goes through exactly with a wallet, adds the amount, writes one row, and moves lifetime_topup, to the nearest cent, for topups only |
| Ledger.DebitEffect | internal/adapter/repo/wallet.go:80-121 | a debit goes through exactly if the wallet covers it, else with the error for its cause; it takes the amount and writes one negative row |
| Ledger.RedeemIff | internal/adapter/repo/wallet.go:231-289 | a redemption changes the book exactly for a known, unexpired, unexhausted credits code and an account with a wallet; the first failing condition is the error |
| Ledger.OpenAndIssue | internal/adapter/repo/wallet.go:22-28 | a wallet or code is added empty, and one that is there is left alone |
| Ledger.WalletRepo.Credit | internal/adapter/repo/wallet.go:41-76 | the transaction's effect on wallet and ledger, or the error and no effect |
| Ledger.WalletRepo.Debit | internal/adapter/repo/wallet.go:80-121 | the same for a debit, refused without a wallet or without funds |
| Ledger.WalletRepo.RedeemCode | internal/adapter/repo/wallet.go:231-289 | the same for a redemption, with each refusal in the order it is checked |
| Payout.ClaimsAddUp | internal/app/wallet_service.go:140-155 | the claimed total is what claim winners hold, have lost and have paid |
| Topup.CreditedAtMostOnce | internal/app/wallet_service.go:140-155 | in every reachable state an order has at most one ledger row, exactly one if its single winner got through, none if it is not a paid topup |
| Topup.OnlyPaidTopups | internal/app/wallet_service.go:149 | over every run an order has a payer exactly if it is paid and its type is topup; no other order is ever credited |
| Topup.DeliveryPays | internal/app/wallet_service.go:140-155 | an undisturbed delivery of a pending order pays it, credits the amount of a topup by one row, and leaves the book for any other order |
| Topup.DeliverIff | internal/adapter/repo/wallet.go:208-227 | a delivery changes a state exactly if the order is pending, and then makes it paid |
| Topup.CreateIff | internal/app/wallet_service.go:93-110 | an order is created exactly for a fresh number and, as a topup, a positive amount |
| Topup.SweepIff | internal/app/cron/expiry.go:159-169 | a sweep expires exactly the pending orders older than a day |
| Topup.RowsMatchOrders | internal/app/wallet_service.go:148-152 | every row that references an order credits that paid topup order's account with its amount |
| Topup.TopupMoneyConserved | internal/app/wallet_service.go:140-155 | credited topups plus amounts held or lost past the flip are the total of paid topup orders |
| Topup.OrderFinal | internal/adapter/repo/wallet.go:208-227 | orders never disappear, change only their status, and not once it left pending |
| Topup.LostCreditStaysLost | internal/app/wallet_service.go:148-152 | no redelivery makes good a credit lost after the flip |
| Topup.PaidNeverCredited | internal/app/wallet_service.go:140-155 | a run from the empty state that ends in such an order, uncredited in every continuation |
| Topup.CreditedStaysCreditedOnce | internal/app/wallet_service.go:140-155 | no redelivery or sweep credits a credited order again |
| Topup.LedgerStaysExplained | internal/app/wallet_service.go:39-50 | the whole protocol keeps balances equal to ledger sums |
| Topup.WalletService.MarkOrderPaid | internal/app/wallet_service.go:140-155 | an uninterrupted delivery is the protocol's flip followed by its credit; repeated deliveries change nothing |
| Topup.WalletService.MarkPaymentOrderPaid | internal/adapter/repo/wallet.go:208-227 | the conditional update, and whether this call made the transition |
| Topup.WalletService.ExpireStalePendingOrders | internal/adapter/repo/wallet.go:292-299 | expires exactly the pending orders older than a day, and counts them |
| Topup.WalletService.CreateTopup | internal/app/wallet_service.go:93-110 | creates a pending order exactly for a positive amount and a fresh number |
| Refunds.RefundCreditedOnce | internal/app/refund_service.go:124-187 | under any interleaving and crash a refund is credited at most once, once if completed, never if pending or rejected |
| Refunds.RefundMoneyConserved | internal/app/refund_service.go:144-153 | refund rows pay the refund's account its amount; with amounts held or lost they total all approvals |
| Refunds.StatusMoves | internal/adapter/repo/refund.go:57-85 | statuses move only pending to approved to completed or pending to rejected, although MarkCompleted checks nothing |
| Refunds.RefundFinal | internal/app/refund_service.go:189-209 | completed and rejected refunds never change again |
| Refunds.OneRefundInProgress | internal/adapter/repo/refund.go:41-53 | an order has at most one refund pending or approved |
| Refunds.ApprovalCompletes | internal/app/refund_service.go:124-187 | an approval left alone completes the refund, credits it exactly once and changes no other balance |
| Refunds.RequestIff | internal/app/refund_service.go:61-102 | a request adds a refund exactly for the owner of a paid order at most seven days old with none in progress, and changes nothing otherwise |
| Refunds.ReadIff | internal/app/refund_service.go:124-134 | a review starts exactly for a pending refund |
| Refunds.RejectionRejects | internal/app/refund_service.go:190-209 | a rejection left alone rejects, and no later run credits the refund |
| Refunds.LostRefundStaysLost | internal/app/refund_service.go:154-164 | an approval that dies or is refused before its credit leaves the refund approved and uncredited in every later run |
| Refunds.RefundedAgainIff | internal/app/refund_service.go:75-88 | after a completed refund a further request and approval credit the order in full again exactly while its window is open |
| Refunds.NoRefundAfterWindow | internal/app/refund_service.go:75-79 | once every request for an order comes after its window, no run adds a refund of it |
| Refunds.OrderRefundedTwice | internal/app/refund_service.go:61-187 | a run from the empty desk in which an order is refunded twice |
| Refunds.LedgerStaysExplained | internal/app/refund_service.go:144-153 | the whole protocol keeps balances equal to ledger sums |
| Refunds.RefundService.RequestRefund | internal/app/refund_service.go:61-102 | the request step of the protocol, with each refusal in order |
| Refunds.ApprovalRuns | internal/app/refund_service.go:124-187 | the protocol steps of an approval lead to the outcome its method establishes |
| Refunds.RefundService.ApproveRefund | internal/app/refund_service.go:124-187 | an uninterrupted approval reaches the outcome of those steps, failing exactly in the listed cases |
| Refunds.RefundService.RejectRefund | internal/app/refund_service.go:190-209 | an uninterrupted rejection is the protocol's read and compare-and-set |
| OrderMoney.OrderTotalCounts | internal/app/refund_service.go:64-88 | over every joint run the ledger pays for an order its amount times its topup and refund credits; nothing if unpaid, more than it cost exactly from two credits on |
| OrderMoney.RefundedTopupPaysTwice | internal/app/refund_service.go:64-102 | a run in which a credited topup is refunded and the ledger pays twice its amount |
| Calendar.YearsInCycles | internal/app/subscription_service.go:180-184 | the day count of years agrees with the closed Gregorian formula, for all years |
| Calendar.DayNumberClosed | internal/app/subscription_service.go:180-184 | day numbers, month lengths included, agree with one closed expression counted from March |
| Calendar.ValidDates | internal/app/subscription_service.go:180-184 | which dates exist |
| Calendar.OrderIsDayOrder | internal/app/subscription_service.go:161-178 | calendar order is day-number order, and a date is its day number |
| Calendar.NextDayCounts | internal/app/subscription_service.go:145-146 | stepping a day keeps dates valid and adds one to the day number |
| Calendar.PrevDayCounts | internal/adapter/repo/checkin_repo.go:88-94 | stepping back subtracts one and undoes a step forward |
| Calendar.DaysInMonthIsLength | internal/app/subscription_service.go:181-184 | day zero of the next month gives the month's length, which is also its span in day numbers |
| Calendar.AddMonthsClamped | internal/app/subscription_service.go:163-178 | lands exactly the given number of months later, on the same day or the month's last, clock unchanged |
| Calendar.MonthsOnMonotone | internal/app/subscription_service.go:163-178 | a later start never gives an earlier end |
| Calendar.ExpiryAdvance | internal/app/subscription_service.go:142-159 | weekly, monthly, quarterly and yearly advance by 7, 28-31, 89-92 and 365-366 days; forever and one_time never expire |
| Calendar.ExpiryDate | internal/app/subscription_service.go:142-159 | monthly and quarterly end on the same day or the month's last, yearly on the same day save 29 February, weekly after seven days |
| Calendar.InstantScale | internal/app/subscription_service.go:142-159 | points in time are compared in nanoseconds from one fixed midnight |
| Calendar.CalculateExpiry | internal/app/subscription_service.go:142-159 | computes the expiry those bounds are about |
| Entitlements.SameAnswerIff | internal/adapter/repo/subscription.go:116-122 | two times give the same answer exactly if no row is current at only one of them, save a plan_code row saying free |
| Entitlements.AnsweredIff | internal/app/entitlement_service.go:40-55 | a key is answered exactly by a row before its expiry instant, or as free for plan_code without one |
| Entitlements.GrantedTexts | internal/app/entitlement_service.go:71-77 | which text a plan grants under each key, by the kind of its feature |
| Entitlements.AnswerOfPlan | internal/app/entitlement_service.go:40-55 | stored grants are answered exactly until they expire, or if they are what anyone is answered; after that none of them is |
| Entitlements.AnswerAfterSync | internal/app/entitlement_service.go:57-99 | after a complete sync over any rows, exactly when the answer names everything the plan grants |
| Entitlements.SyncHoldsIff | internal/adapter/repo/subscription.go:104-113 | a complete sync leaves every grant stored with the subscription's expiry exactly if no earlier row has an expiry or text the new plan lacks |
| EntitlementCache.CacheCoherent | internal/app/entitlement_service.go:27-119 | over every serial run, with failures of the database and of Redis at every call: after a call that mends the pair, a cached answer is what the rows stored now gave when it was filled, if the later calls are harmless |
| EntitlementCache.CoherentUntil | internal/app/entitlement_service.go:81-118 | after such a run a further call for the pair leaves the cached answer right exactly if it is harmless |
| EntitlementCache.CachedAnswerIff | internal/app/entitlement_service.go:27-37 | such an answer names a plan and is right exactly if no row expired since it was filled |
| EntitlementCache.CoherentKeptIff | internal/app/entitlement_service.go:81-118 | a call keeps a right cached answer right exactly if it is harmless: it invalidates what it changed, or the answer already says what it writes |
| EntitlementCache.CachedAfter | internal/app/entitlement_service.go:27-119 | what is cached for a pair after each call and failure |
| EntitlementCache.StoredAfterReset | internal/app/entitlement_service.go:102-119 | what a reset leaves stored for each failure |
| EntitlementCache.StaleAnswer | internal/app/entitlement_service.go:81-97 | from the empty state a read and then a partial sync, or a lost invalidation, leave the free answer cached although the rows name the plan |
| EntitlementCache.EntitlementService.Refresh | internal/app/entitlement_service.go:40-55 | returns and caches the answer computed from the current rows, or fails with the row read |
| EntitlementCache.EntitlementService.Get | internal/app/entitlement_service.go:27-37 | answers from the cache if it can, else computes and fills, or fails |
| EntitlementCache.EntitlementService.SyncFromSubscription | internal/app/entitlement_service.go:59-99 | fails without its plan; upserts in any order, stops at the first failure, invalidates only after all |
| EntitlementCache.EntitlementService.ResetToFree | internal/app/entitlement_service.go:102-119 | leaves exactly the free row, or says which part failed |
| Subscriptions.AtMostOneLive | migrations/001_identity_schema.sql:92-94 | over every run, with failures at every store call and turns of the expiry job that come late, at most one live subscription per pair |
| Subscriptions.GrantsHeld | internal/app/subscription_service.go:28-117 | over every run whose late turns are harmless, the live subscription's grants are stored if its sync succeeded |
| Subscriptions.NextKeepsIff | internal/app/subscription_service.go:75-106 | a step keeps that exactly if it is harmless |
| Subscriptions.LiveOrigin | internal/app/subscription_service.go:37-71 | every row comes from an activation, and while it is live and synced its pair's rows are as that activation left them |
| Subscriptions.LiveAnswerIff | internal/app/entitlement_service.go:57-99 | over every run, by the rows its activation met, exactly when a live synced subscription is answered with everything its plan grants |
| Subscriptions.ForeverPlanExpires | internal/app/subscription_service.go:37-71 | a run in which the live subscription never expires and its plan is no longer answered |
| Subscriptions.ActivateLeavesNewest | internal/app/subscription_service.go:37-71 | a successful activation leaves the new row as the pair's only live one and other pairs untouched; exactly when its grants are stored as the plan says |
| Subscriptions.ActivateIff | internal/app/subscription_service.go:28-72 | exactly when an activation succeeds, the new row it writes, the one it retires, and what a failure leaves |
| Subscriptions.PartialSync | internal/app/entitlement_service.go:81-97 | a sync that stops stores the keys it got to and no others |
| Subscriptions.CancelEffect | internal/app/subscription_service.go:109-117 | a cancellation leaves the pair without a live row and that row without auto-renew, and nothing else changed |
| Subscriptions.TickLeaves | internal/adapter/repo/subscription.go:64-83 | a tick leaves alone an active row until its expiry, a row in grace until its end, and every other row |
| Subscriptions.TickEntersGrace | internal/app/cron/expiry.go:118-136 | an active row past its expiry enters grace for the grace days |
| Subscriptions.TickEndsGrace | internal/app/cron/expiry.go:138-157 | a row whose grace has passed expires, and its pair is answered as free |
| Subscriptions.StaysActive | internal/adapter/repo/subscription.go:64-72 | over every run an active row stays as it is until its expiry, whatever happens to other pairs |
| Subscriptions.ActivatedStaysActive | internal/app/subscription_service.go:37-71 | so a new subscription is active to the end of its cycle |
| Subscriptions.ActivationTerm | internal/app/subscription_service.go:60-62 | an activation expires its cycle's number of days later, to the nanosecond |
| Subscriptions.ExpireOneLive | internal/app/subscription_service.go:75-90 | Expire on any id keeps subscriptions unique; the index refuses it exactly if another row of the pair is live |
| Subscriptions.OvertakenExpireRefused | internal/app/cron/expiry.go:118-136 | a listed row that is renewed before its turn is left alone |
| Subscriptions.EndKeepsIff | internal/app/subscription_service.go:93-106 | ending the grace of any id keeps all stored grants exactly if no other live synced row of the pair needs more than the free entitlement |
| Subscriptions.OvertakenEndWipes | internal/app/subscription_service.go:93-106 | a listed row whose pair is activated before its turn is ended all the same; the new row stays live and keeps its answer exactly if its plan grants only free |
| Subscriptions.LateEndLosesPlan | internal/app/cron/expiry.go:138-157 | a run from the empty table in which this happens |
| Subscriptions.ExpireEachEffect | internal/app/cron/expiry.go:124-136 | the first loop turns exactly the rows it got through into grace |
| Subscriptions.EndEachSubs | internal/app/cron/expiry.go:145-157 | the second loop expires exactly the rows it got through |
| Subscriptions.EndedPairIsFree | internal/app/subscription_service.go:93-106 | a pair whose grace ended has no live subscription and exactly the free entitlement |
| Subscriptions.Select | internal/adapter/repo/subscription.go:64-95 | the three list queries return exactly the matching ids, each once |
| Subscriptions.GetActive | internal/adapter/repo/subscription.go:37-46 | finds the live row of the pair with the lowest id, exactly if there is one |
| Subscriptions.SubscriptionService.Activate | internal/app/subscription_service.go:28-72 | the activation step, failing where a store call fails |
| Subscriptions.SubscriptionService.Expire | internal/app/subscription_service.go:75-90 | the step into grace, refused by the index |
| Subscriptions.SubscriptionService.EndGrace | internal/app/subscription_service.go:93-106 | the final expiry and the reset to free |
| Subscriptions.SubscriptionService.Cancel | internal/app/subscription_service.go:109-117 | cancels the pair's live subscription, if there is one |
| Subscriptions.ExpiryJob.RunExpiry | internal/app/cron/expiry.go:114-170 | both loops are one tick of the lifecycle, cut short by a failing query, and then the sweep; processed and failed add up to rows scanned and orders swept |
| Renewal.BatchConservesMoney | internal/app/cron/renewal.go:124-240 | each account pays exactly for its renewals; failed debits and compensated activations net to zero, a failed compensation loses the price |
| Renewal.AttemptedIff | internal/adapter/repo/subscription.go:87-95 | a tick attempts exactly the active auto-renew rows with a day or less to go, fewer than three counted failures and no retry time ahead |
| Renewal.OutcomeIff | internal/app/cron/renewal.go:150-240 | exactly how an attempt ends, by the wallet, the activation and the store |
| Renewal.AttemptRows | internal/app/cron/renewal.go:159-188 | the ledger rows of each outcome |
| Renewal.FailedRow | internal/app/cron/renewal.go:222-256 | a failed debit counts one more failure and waits one, four or twelve hours |
| Renewal.RenewedRow | internal/app/cron/renewal.go:168-214 | a renewal expires the old row, clears its retry state and creates the next |
| Renewal.RenewalHappens | internal/app/cron/renewal.go:150-221 | a run from the empty table in which a funded subscription is renewed and its price taken |
| Renewal.BatchRows | internal/app/cron/renewal.go:132-143 | at the end of a batch each row is as its own attempt left it |
| Renewal.BatchLeavesOthers | internal/app/cron/renewal.go:124-145 | rows not due are untouched and the lifecycle invariant holds |
| Renewal.DuePairsDiffer | internal/adapter/repo/subscription.go:87-95 | rows due belong to different pairs |
| Renewal.RetriesBounded | internal/app/cron/renewal.go:225-256 | over every run, late turns included, a row has at most three counted failed debits, each followed by its backoff, three in all if every count is stored; it is renewed at most once and not listed afterwards |
| Renewal.DueAfterFailureIff | internal/app/cron/renewal.go:222-228 | exactly when a row is due again after a failed debit, counted or not |
| Renewal.UncountedFailures | internal/app/cron/renewal.go:225-228 | a run from the empty table with any number of failed debits of one row, none counted |
| Renewal.FailedActivationSkipsBackoff | internal/app/cron/renewal.go:179-211 | a failed activation leaves the retry state; the row is due again at once unless it was already retired |
| Renewal.RenewedPairNotDueAgain | internal/app/subscription_service.go:50-58 | after a renewal the pair is not due at any time in any later run in which nothing switches auto-renew on for it |
| Renewal.SwitchedOnDueIff | internal/adapter/repo/subscription.go:87-95 | switched on, the new row is due exactly in the day before it expires |
| Renewal.CancelledNotDueAgain | internal/app/subscription_service.go:109-117 | a cancelled pair is not due in any later run in which nothing switches auto-renew on for it |
| Renewal.MigratedRenewedOnce | scripts/migrate-from-lurus-api.sql:117-134 | from any table a pair is renewed at most once unless something switches auto-renew on, and is not due after that |
| Renewal.NothingRenewed | internal/app/subscription_service.go:50-58 | from a table without auto-renew, such as the empty one, no renewal tick of any run does anything |
| Renewal.BatchKeepsLedger | internal/app/cron/renewal.go:159-192 | a batch keeps balances equal to ledger sums |
| Renewal.RenewalJob.ProcessSub | internal/app/cron/renewal.go:150-240 | one attempt of the saga, with every failure branch |
| Renewal.RenewalJob.RunRenewal | internal/app/cron/renewal.go:124-145 | the loop is one renewal tick, an empty one if the query fails; its counters count renewals and failures |
| Outbox.PollProgressIff | internal/app/cron/outbox_relay.go:75-120 | with a working store a poll uses up attempts exactly if its list holds a live row, and otherwise changes nothing |
| Outbox.PollProgress | internal/app/cron/outbox_relay.go:75-115 | with fewer than fifty dead rows and a live one, every poll makes progress |
| Outbox.PublishedAfterPublish | internal/app/cron/outbox_relay.go:97-114 | a row becomes published only if it was live, its own publish succeeded and the write was stored |
| Outbox.PollRow | internal/app/cron/outbox_relay.go:75-115 | a poll writes a row exactly if it is unpublished, has fewer than ten failures and fewer than fifty unpublished rows before it, and how |
| Outbox.BrokerDown | internal/app/cron/outbox_relay.go:97-105 | while publishing fails nothing is emitted and each listed live row has used up one attempt |
| Outbox.RelaySafe | internal/app/cron/outbox_relay.go:75-146 | over every run attempts stay within ten, published rows were emitted, and nothing leaves unsent |
| Outbox.EmissionsCounted | internal/app/cron/outbox_relay.go:86-115 | over every run an event is emitted or waits as often as it was inserted, and is emitted once more per mark that was not stored |
| Outbox.EmittedOnce | internal/app/cron/outbox_relay.go:107-114 | if every mark is stored each insertion is emitted exactly once or still waits |
| Outbox.EmittedEveryPoll | internal/app/cron/outbox_relay.go:107-114 | a run in which one event is emitted at each of any number of polls |
| Outbox.EmitsPrefix | internal/app/cron/outbox_relay.go:75-146 | if nothing fails, what is emitted is a prefix of what was inserted, in order |
| Outbox.KeptExactly | internal/adapter/repo/outbox.go:75-80 | a sweep deletes exactly the rows published before the cutoff and keeps the others in order, each as often |
| Outbox.SweptExactly | internal/app/cron/outbox_relay.go:136-146 | a sweep deletes exactly the rows published more than seven days ago |
| Outbox.PollEmitsOnlyPublished | internal/app/cron/outbox_relay.go:97-105 | a poll without a successful publish emits nothing |
| Outbox.EmitsIffNotStuck | internal/app/cron/outbox_relay.go:86-95 | a poll can emit exactly if its list holds a live row |
| Outbox.BlockedForeverIff | internal/app/cron/outbox_relay.go:86-95 | no later run ever emits anything exactly if a full batch of dead rows is in front |
| Outbox.OutageBlocks | internal/app/cron/outbox_relay.go:86-105 | a run that gets there: fifty events and ten polls while publishing fails |
| Outbox.OutboxRelay.PollAndPublish | internal/app/cron/outbox_relay.go:75-120 | the loop is one poll of the model, row by row, an empty one if the query fails |
| Outbox.OutboxRelay.RelayOne | internal/app/cron/outbox_relay.go:86-115 | one turn: skip, count the failure, or publish and mark |
| Outbox.OutboxRelay.CleanupPublished | internal/app/cron/outbox_relay.go:136-146 | the retention sweep and its count, nothing if the delete fails |
| RateLimit.PrunedSetIsHistory | internal/pkg/ratelimit/limiter.go:113-121 | the pruned set is the full history filtered to the window, for every key, despite pruning and expiry |
| RateLimit.AdmitsIff | internal/pkg/ratelimit/limiter.go:109-130 | over every run a call is admitted exactly if Redis does not answer or fewer than limit earlier requests of its key lie in the window |
| RateLimit.NeverOverLimit | internal/pkg/ratelimit/limiter.go:106-130 | no interval as long as the window admits more than limit requests of a key |
| RateLimit.AllowEffect | internal/pkg/ratelimit/limiter.go:109-130 | one call is admitted without a trace if Redis is down, else counted for the window and kept a second longer |
| RateLimit.Limiter.Allow | internal/pkg/ratelimit/limiter.go:109-130 | one call: prune, count, insert, set the time to live; admits if Redis is down |
| Checkin.TextOrderIsDateOrder | internal/adapter/repo/checkin_repo.go:55-58 | comparing stored yyyy-MM-dd texts is comparing dates |
| Checkin.CountConsecutive | internal/adapter/repo/checkin_repo.go:53-85 | counts exactly the run of check-in days ending at the date, cut off at 30 |
| Checkin.StreakUnique | internal/adapter/repo/checkin_repo.go:53-85 | that determines the count |
| Checkin.StreakIsMaximalRun | internal/adapter/repo/checkin_repo.go:53-85 | it is the minimum of 30 and the maximal run |
| Checkin.CalculateReward | internal/app/checkin_service.go:144-158 | the loop computes the capped power |
| Checkin.RewardMonotone | internal/app/checkin_service.go:144-158 | rewards grow with the streak and stay between base and cap |
| Checkin.CapBindsIff | internal/app/checkin_service.go:153-156 | the cap is reached exactly from 42 days on |
| Checkin.PaidRewardBound | internal/app/checkin_service.go:103-113 | no check-in earns more than four tiers, so never the cap |
| Checkin.RewardByWeek | internal/app/checkin_service.go:144-158 | the reward for each week of a streak, in LB and in ledger units |
| Checkin.UnitsNearest | internal/app/checkin_service.go:127-130 | the credited amount is the reward to the nearest unit |
| Checkin.DaysOfIff | internal/adapter/repo/checkin_repo.go:53-56 | the days that count for an account are those of its own records |
| Checkin.CheckinPays | internal/app/checkin_service.go:127-133 | with a wallet a recorded check-in is credited by one row that references it |
| Checkin.CheckinsConserved | internal/app/checkin_service.go:115-133 | the ledger has one row for an account and day if that check-in got through, otherwise none; credited plus outstanding is what was recorded |
| Checkin.CheckinRowsMatch | internal/app/checkin_service.go:127-130 | every check-in row credits the account and reward of its record |
| Checkin.CheckinService.DoCheckin | internal/app/checkin_service.go:91-141 | records today once with the reward of the streak up to yesterday plus one, then credits it, or fails at any of its store calls |
| Referral.ReferralsConserved | internal/app/referral_service.go:167-201 | the ledger has one row for a referrer, referee and event if its call got through, otherwise none; credited plus outstanding is what was recorded |
| Referral.ReferralRowsMatch | internal/app/referral_service.go:194-200 | every referral row credits the referrer of its event with the event's amount |
| Referral.AskRecords | internal/app/referral_service.go:73-101 | what each call records: 5, 10 and 30 LB, five percent of a renewal up to the sixth, once |
| Referral.ReceiptText | internal/app/referral_service.go:194-200 | what the ledger row of a reward says |
| Referral.RoyaltiesCounted | internal/app/referral_service.go:91-101 | over every run a pair has as many royalties as its recorded calls with a positive amount have different numbers up to six, and at most as many ledger rows |
| Referral.AtMostSixRoyalties | internal/app/referral_service.go:88-101 | with renewals numbered from 1 a pair has at most six royalties, recorded and in the ledger |
| Referral.UndisturbedRoyalties | internal/app/referral_service.go:91-101 | with nothing lost the ledger shows exactly that many royalties |
| Referral.SeventhRoyalty | internal/app/referral_service.go:91-94 | a run numbered from 0 in which the ledger pays seven |
| Referral.OneSlotPerNumber | internal/app/referral_service.go:99-100 | every renewal number has its own slot in the unique constraint |
| Referral.ReferralService.Reward | internal/app/referral_service.go:167-201 | insert, skip a duplicate, create the wallet, credit, failing where the store does |
| Rewards.RunKeeps | internal/app/referral_service.go:173-200 | in every reachable state the ledger rows of the rewards are, each as often, the receipts of the records paid |
| Rewards.RewardPaidOnce | internal/adapter/repo/referral_repo.go:46-58 | a record's receipt is on exactly one ledger row if it was paid, otherwise on none |
| Rewards.RecordedIff | internal/adapter/repo/referral_repo.go:46-58 | a record is there exactly if some call inserted it, and says what the first asked for |
| Rewards.PaysIff | internal/app/referral_service.go:191-200 | a call that holds its record pays it exactly if the wallet is there or created first |
| Rewards.LostRewardStaysLost | internal/app/referral_service.go:173-200 | a call that dies before its credit loses it in every later run |
| Rewards.RewardRowsMatch | internal/app/referral_service.go:194-200 | every ledger row of a reward is the receipt of a paid record |
| Rewards.RewardMoneyConserved | internal/app/referral_service.go:173-200 | credited plus held or lost is the total recorded |
| Rewards.LedgerStaysExplained | internal/app/referral_service.go:191-200 | rewards keep balances equal to ledger sums |
| Decimal.ParseFormat | internal/pkg/auth/session.go:86-89 | printing and ParseInt are inverse on exactly the 64-bit integers |
| Decimal.FormatPlain | internal/pkg/auth/session.go:25-31 | the printed form is the plain decimal one |
| Decimal.AcceptedIff | internal/pkg/auth/session.go:86-89 | which texts ParseInt accepts |
| Base64.DecodeEncode | internal/pkg/auth/session.go:99-101 | decoding undoes encoding, and no encoding contains a dot |
| Base64.DecodeIff | internal/pkg/auth/session.go:50-58 | a text decodes to given bytes exactly if, line breaks aside, it is one of their sixteen, four or one spellings |
| Base64.LineBreaksSkipped | internal/pkg/auth/session.go:50-58 | line breaks anywhere do not change what decodes, and nothing else is skipped |
| Base64.Alphabet | internal/pkg/auth/session.go:99-101 | the URL-safe alphabet of section 5 of RFC 4648 |
| Base64.EncodeMore | internal/pkg/auth/session.go:99-101 | whole groups of three bytes are encoded one after the other (section 4 of RFC 4648) |
| Base64.KnownEncodings | internal/pkg/auth/session.go:99-101 | the test vectors of section 10 of RFC 4648 |
| Session.SplitThree | internal/pkg/auth/session.go:45-48 | splitting gives exactly the joined parts |
| Session.IssuedTokenValidIff | internal/pkg/auth/session.go:20-91 | an issued token whose claims decode again validates to its account exactly if the id is a positive 64-bit integer and the expiry has not passed |
| Session.HeaderBytes | internal/pkg/auth/session.go:24 | the token header, byte by byte |
| Session.IssuedText | internal/pkg/auth/session.go:20-36 | what an issued token says |
| Session.ValidateIff | internal/pkg/auth/session.go:41-91 | what any text validates to: the account of its subject, or the error of the first failing condition |
| Session.ValidTokenIsSigned | internal/pkg/auth/session.go:41-91 | whatever validates is three parts signed with the secret, by the issuer, unexpired |
| Session.SignatureSpellings | internal/pkg/auth/session.go:50-60 | with given first parts exactly the spellings of the MAC validate, all to the same account |
| Session.ValidityEndsOnce | internal/pkg/auth/session.go:77-79 | a token valid at some time validates to the same account at every earlier one |

## Left out

- HTTP and gRPC handlers, routers, the front end, configuration, metrics, tracing and logging, including the counters that are only logged.
- Payment providers, the mail, SMS, identity and broker clients: a foreign call succeeds or fails.
- SQL, GORM and Redis beyond one atomic step per transaction, query or pipeline; a pipeline that fails half-way.
- Numeric overflow of database columns and of 64-bit ids.
- Float rounding: amounts are exact; a royalty and a check-in reward are rounded once, to the ledger's precision.
- JSON text and HMAC-SHA256: parameters of the session model, which needs only that the claims of the token at hand decode again.
- Description texts of topup, check-in and renewal rows.
- The value types of entitlements, and the decimal text of fractional feature values.
- VIP levels: the threshold scan and the maximum of two grants would add only easy members.
- Bulk generation of redemption codes and uniqueness by chance.
- The cancellation and the event that follow a completed refund, and the events of the expiry and renewal jobs: best-effort calls after the steps modelled here.
- Subscription activation by webhook is not tied to the pending-to-paid transition in the code, so at-most-once is claimed for topup credits only.
- Two activations of the same pair at the same time: an activation is one step that may fail part-way; in the database the partial unique index rejects the second row.
- Redis locks around the cron jobs and the webhook deduplication: nothing here relies on them.
- Several relays at once: they can publish an event twice and exceed the attempt cap.
- Referral rewards without the event store, where nothing removes duplicates.
- Entitlement reads that overlap a write: the cache theorems are about serial runs.
- Accounts, registration, organizations, products, invoices, discounts and administration.
