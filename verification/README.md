# Verification of the live auction backend

A Dafny model of a live auction backend: proxy bidding on a price grid, the auction, order and timer rows with the
transactions that write them, ordered delivery of events to clients, and the caches and buffers that must agree with
something simpler. Check it with `dafny verify dfyconfig.toml`.

## What is modelled

**Rules and proxy bidding** (`BidRules`, `Settlement`, `SettlementLaws`, `Ties`, `ProxyBidding`). Users leave private
maximum bids. `Tx.ApplyAutoMaxBid` is the settlement loop on the intent rows: a listing ranked by amount, age and id
and cut at 100, a choice, an accepted bid, marks, up to 100 rounds. `Settlement.Awards` gives its automatic bids in
closed form, at most two of them, for any number of intents, and `SettlementLaws.SealedBid` states who leads at what
price: the best bound wins, one increment above the next best where that one could still bid. The loop is proved equal
to the formula, so neither the listing limit nor the round limit ever changes a result. `Ties` says the same in the
columns of the rows: who wins, at what price, and what becomes of every row.

**The auction machine** (`AuctionState`, `Transactions`, `Repository`, `Invariants`, `P0Checks`, `Idempotency`,
`BidKeyCheck`, `OpenKeys`, `MachineLaws`, `Extensions`, `DeadTimer`, `FrozenRules`, `BlockedRuns`, `CallerLaws`,
`Answers`, `StepLaws`, `TimerLocks`). `World` holds the rows of one auction; `Transactions` has one function for every
write transaction, and `Repository.Database` has the same transactions as methods that change the rows statement by
statement and commit or leave them alone, each proved against its function. A concurrent history is taken as a
sequence of `Step`s; theorems about `Run` hold for every such sequence, failed and repeated steps included. That is
justified by the row locks. A transaction decides only on rows it has locked and keeps the locks to its commit, or
changes a row in one guarded statement: bids, starts, host calls and the closing of the auction lock the auction row
first; payments and expiries lock the order row, and the auction row as well when they write an event; a payment's
initiation locks and changes the order row alone; the scheduler's claim locks and changes one job row alone, and its
mark of failure is one update of that row. So the locks order any two transactions that touch a common row. The
repository's own P0 checks, written there as SQL, are the specification; `Answers`, `StepLaws` and `TimerLocks` say in
columns what a call answers, what a transaction demands, changes and tells, and when a worker gets a timer.

**Ordered delivery** (`OutboxRelay`, `RowLocks`, `LateRelay`, `RelayWorker`, `HistoryCheck`, `Recovery`, `EndToEnd`,
`LiveQueue`, `Hub`). Any number of relay workers claim rows of the delivery table, push them to the Redis list, offer
them to the hub, mark them, and may crash or see a false failure at any of these points. A client subscribes first and
reads the list afterwards. The rows of the delivery table are the `outbox` rows of `World`, which `LogInv` numbers 1,
2, 3, ...; row i here carries number i + 1. `EndToEnd` joins the two machines: a transaction writes the delivery rows
of its own events, and the list and the recovered messages carry the events themselves.

**Caches and buffers** (`Gcra`, `RedisGuard`, `GuardRuns`, `GuardLaws`, `Ledger`). A rate limiter over a key that
expires, a guard that rejects on a stale projection, and two consumers of a bid log.

**A brace scanner** (`BraceScanner`, `JsonText`), against a printer of JSON texts after sections 2 to 7 of RFC 8259.

## Assumptions

- The clock readings of a transaction are inputs, in any order: a bid or a start, each automatic bid
  (`backend/internal/auction/bid.go:1047`), an order's expiry and a presented confirmation read it separately.
- Integers are unbounded, time is in whole seconds (milliseconds in the rate limiter).
- Generated ids are inputs; an intent's id stands for its place in the sort order. The request hash of a bid is
  collision free, and under one key only the amount can differ, so the amount stands for the hash.
- A client bid id is any text. `AutoForm(i, n)` is the text `auto:<i>:<n>` that an automatic bid of intent i at number
  n uses (`backend/internal/auction/bid.go:1060`), whoever sends it; `Plain` is every other text.
- Whether another auction of the room is active is an input of a start (`roomFree`).
- A signature check is a Boolean. A webhook with a valid signature pays the order whatever its event type, as the code
  does.
- In `OutboxRelay` a relay worker pushes, offers and marks only while its 30 s lock lasts, or never: the statements
  themselves do not look at who holds it. `LateRelay` drops the assumption: `LateRelay.LateRunExactly` says exactly
  which late steps do no harm, `LateOrderExactly` when the list and the offers stay in order, and `LatePushStepsBack`,
  `LateFailureStepsBack` and `LateMarkStepsBack` give runs in which they do not.
- Sending and closing a slow queue are two critical sections of the hub, so Publish calls may overlap. The byte
  accounts and the safety of the closed channel hold under any interleaving; the order holds exactly when no publisher
  overtakes one that was turned away (`LiveQueue.SubscriberSeesPrefix`), and `LiveQueue.OverlapMakesHole` shows one
  that does.
- The rate limiter's clock and Redis's agree and do not step back.
- One consumer per ledger partition; it commits the messages it fetched in the order it fetched them.

## Where the code does less than one might think

- A change of the rules under live maximum bids (unschedule, edit, schedule) can leave bounds off the grid. There is a
  run after which the auction cannot start (`BlockedRuns.EditedGridBlocksStart`) and one after which a live auction
  loses an acceptable bid of 120 whatever its key, with bounds of 155 and 190 on a grid of 10
  (`BlockedRuns.StrandedBoundLosesBids`). `FrozenRules.StartFailsExactly` and `FrozenRules.TakeFailsExactly` say
  exactly when that happens.
- A manual bid may use the key of an automatic one. The table of bids has one row per auction, user and client bid id
  (`backend/migrations/202605220001_init_core.sql:94`), so a user with the best bound who first sends any bid,
  rejected or not, under the key its next automatic bid will need makes every acceptable bid of the others fail, on
  every retry (`BlockedRuns.UsedKeyBlocks`, and `BlockedRuns.CollisionBlocksBids` in a reachable state). The other way
  round, a confirmation may be asked for under the key of an automatic row, or an automatic bid be placed under the
  key of an open confirmation: exactly such a step makes the P0 check on bid idempotency fail, for ever
  (`OpenKeys.StepBreaksExactly`, `RunBreaksExactly`, `FailingStaysFailing`), as it does in a reachable state
  (`OpenKeys.CheckFailsReachably`). While no rules set a positive threshold it never does
  (`OpenKeys.NoThresholdPassesCheck`).
- As long as the rules are not edited under live maximum bids and no caller's key has the automatic form, neither
  happens: `FrozenRules.SettlementNeverFails`, `BidKeyCheck.PlainKeysPassCheck`.
- The guard is sound exactly for the projections that fit the row, which `RedisGuard.GuardIsSoundExactly` spells out.
  Under frozen rules it rejects nothing the authority would accept, however stale the projection
  (`GuardRuns.GuardIsSound`); after an edit of the rules it may (`GuardRuns.EditedRulesBreakTheGuard`).
- A manual bid that meets the cap sells the auction without a settlement (`backend/internal/auction/bid.go:271`), so
  intents may stay ACTIVE on a SOLD auction; nothing here claims otherwise.
- An automatic bid does not look at the end time again. It extends by its own reading of the clock, so one transaction
  can extend twice (`Extensions.OneBidExtendsTwice`) or extend behind the end, beyond the extension budget
  (`Extensions.LateAnswerOverruns`). `Extensions.ExtendsExactly` and `ExtendsAgainExactly` say exactly when a bid
  does, `BidExtendsExactly` and `StartExtendsExactly` when a whole transaction extends once and when again, and
  `Extensions.ExtensionsAreBounded` what bounds the end all the same.
- A bid on an auction that has not started fails with an error rather than a rejection: the row lock reads `end_at`,
  which is NULL until then.
- A timer that fails five times is DEAD while its auction may still be active (`DeadTimer.RetiredTimerIsReachable`).
  It is claimed again exactly when a worker that claimed it earlier processes it before the end of the auction, and so
  reschedules it (`DeadTimer.RetiredTimerRevivesExactly`).

## Model

| member | source | states |
|---|---|---|
| BidRules.ValidateRuleExact | backend/internal/auction/rules.go:25-85 | the validator is silent exactly on sound rules: ranges respected and the cap a positive number of increments above the start |
| BidRules.SuggestedCapsAreReachable | backend/internal/auction/rules.go:57-85 | every cap the validator suggests would be accepted in place of the bad one |
| BidRules.ClassifyExact | backend/internal/auction/rules.go:97-117 | an amount is taken iff it is a positive whole number of increments above the base and within the cap, and sells iff it meets the cap |
| SettlementLaws.NextAmountIsLegal | backend/internal/auction/bid.go:1135-1144 | while the auction is active and below its cap the next executable amount is on the grid, within the cap and accepted |
| SettlementLaws.AcceptedRowLaws | backend/internal/auction/bid.go:945-1000 | an accepted bid raises the price to a grid point at least one step higher, sells iff it meets the cap, and otherwise leaves a live row |
| SettlementLaws.DefenceIsReachable | backend/internal/auction/bid.go:1115-1127 | a defence against an affordable challenger is never below the next amount: the branch that skips it is dead |
| SettlementLaws.AwardsUnfold | backend/internal/auction/bid.go:1023-1086 | after the first automatic bid the formula for the new rows is the rest of the formula for the old ones |
| SettlementLaws.AwardsOutcome | backend/internal/auction/bid.go:1023-1086 | settlement places at most two bids, fails iff the last of them is off the grid or a bid row already holds the key of one of them, and ends unsold with only the leader's intent active and able to bid again |
| SettlementLaws.SettlementIsSealedBid | backend/internal/auction/bid.go:1023-1168 | for any number of grid-aligned intents settlement fails iff a bid row already holds the key of an automatic bid, and otherwise leaves the winner and price of the sealed-bid formula |
| SettlementLaws.LastAwardIsSealedBid | backend/internal/auction/bid.go:1146-1168 | the last automatic bid is the sealed-bid outcome and lies on the grid |
| SettlementLaws.ClashIsOffGrid | backend/internal/auction/bid.go:1094-1168 | the last automatic bid is off the grid iff the two bounds that decide the settlement meet beside it |
| SettlementLaws.BlockedByDueKeys | backend/internal/auction/bid.go:1060-1072 | the keys of the automatic bids are, in order, the keys due by the best rival and the leader's own bound |
| Ties.SettledByColumns | backend/internal/auction/bid.go:1023-1168 | behind a successful settlement with an affordable bound the active row with the highest bound leads, among equal bounds the oldest, among equally old ones that with the smallest id, at a price given by its own bound, the second bound, the step and the cap |
| Ties.OlderBoundWins | backend/internal/auction/bid.go:1146-1154 | of two equal highest bounds the older wins at that bound, and of two equally old ones the smaller id |
| Ties.NothingAffordable | backend/internal/auction/bid.go:1104-1114 | without an affordable bound of anybody but the leader a settlement moves neither the auction row nor the result |
| Ties.IntentsAfterSettlement | backend/internal/auction/bid.go:1170-1214 | behind a settlement every intent row keeps owner, bound and age; the top row carries the number of its last automatic bid and stays active while it can bid on, every other active row is spent, and a sold auction leaves none active |
| ProxyBidding.RankedLaws | backend/internal/auction/max_bid_intent.go:262-291 | the ranking lists exactly the active intents, strictly ordered |
| ProxyBidding.Tx.ListActiveMaxBidIntents | backend/internal/auction/max_bid_intent.go:262-291 | the limited listing has active rows only, by greater bound, then earlier creation, then smaller id, and leaves out only rows every listed one comes before |
| ProxyBidding.FirstRivalIsBest | backend/internal/auction/bid.go:1110-1114 | the first rival of a listing is the best rival of the whole table, whatever the limit cut off |
| ProxyBidding.Tx.NextAutoMaxBidStep | backend/internal/auction/bid.go:1094-1133 | a round chooses the first bid of the formula and changes nothing, or none is due and it has only marked unaffordable rivals |
| ProxyBidding.Tx.PlaceAward | backend/internal/auction/bid.go:1044-1081 | one automatic bid moves the row, adds its bid row and marks its intents as specified, or fails with the specified error |
| ProxyBidding.Tx.ApplyAutoMaxBid | backend/internal/auction/bid.go:1023-1086 | the loop computes the settlement exactly, failures included, reports a result iff it bid, and never reaches its iteration limit |
| Transactions.BidReplaysOrDecides | backend/internal/auction/bid.go:204-392 | a bidding call that commits either replays a stored response and changes nothing or decides its bid |
| Answers.PlaceAnswers | backend/internal/auction/bid.go:204-293 | a first call under its key is refused for the first reason that applies, with its row and its event exactly when others are told; or asks for confirmation for 30 seconds; or is taken, and then the answer's number, price, winner and end are those of the committed row, Sold iff the row is, Extended iff the last bid of the transaction extended, with one numbered event for each bid row |
| Answers.PlaceDecidesNothing | backend/internal/auction/bid.go:204-238 | the calls that decide nothing, each with its error or the stored response |
| Answers.ConfirmAnswers | backend/internal/auction/bid.go:297-392 | a confirmation is decided only with its own token and in time, at the amount that was asked about, and answers as a placed bid does |
| Answers.ConfirmDecidesNothing | backend/internal/auction/bid.go:297-342 | the confirmations that decide nothing, each with its error or the stored response |
| Repository.Database.UpdateRules | backend/internal/auction/repository.go:279-331 | commits exactly the specified rows in DRAFT, refuses otherwise, and keeps the invariant |
| Repository.Database.Schedule | backend/internal/auction/repository.go:333-347 | DRAFT to SCHEDULED with one event, or refused with nothing changed |
| Repository.Database.Unschedule | backend/internal/auction/repository.go:349-359 | SCHEDULED to DRAFT with one event, or refused with nothing changed |
| Repository.Database.Start | backend/internal/auction/repository.go:361-413 | opens, arms the end timer and settles in one transaction; nothing is committed if the room has another active auction or the settlement fails, and the error says which |
| Repository.Database.Cancel | backend/internal/auction/repository.go:415-452 | cancels any auction not yet final |
| Repository.Database.Shorten | backend/internal/auction/repository.go:454-505 | brings the end and the timer forward together, only to a strictly earlier end |
| Repository.Database.StartNarrating | backend/internal/auction/repository.go:507-546 | one event unless the auction is final, another of the room is active or another is narrated |
| Repository.Database.StopNarrating | backend/internal/auction/repository.go:548-579 | one event, always |
| Repository.Database.PutIntent | backend/internal/auction/max_bid_intent.go:118-160 | upserts one intent under the table's keys, or refuses |
| Repository.Database.CancelIntent | backend/internal/auction/max_bid_intent.go:199-240 | cancels an active intent, leaves any other as it is |
| Repository.Database.PlaceBid | backend/internal/auction/bid.go:204-293 | replay, conflict or decision as specified, or nothing at all when a bid row finds its key used; the PROCESSING record it writes first is never committed |
| Repository.Database.ConfirmBid | backend/internal/auction/bid.go:297-392 | decides the pending bid once, against the amount that was asked about, or changes nothing when a bid row finds its key used |
| Repository.ProcessingIsInvisible | backend/internal/auction/bid.go:240-285 | the PROCESSING record is overwritten before the commit and influences nothing in between |
| Repository.AwardsIgnoreRecords | backend/internal/auction/bid.go:1023-1086 | settlement neither reads nor writes idempotency records |
| Repository.Database.InitiateMock | backend/internal/auction/bid.go:398-501 | a mock payment marks the winner's open order initiated with a write-once payment id |
| Repository.Database.InitiateAlipay | backend/internal/gateway/alipay_handlers.go:315-363 | the same step for the other provider |
| Repository.Database.HandleWebhook | backend/internal/auction/bid.go:503-618 | pays an open order with a matching payment id, once |
| Repository.Database.ClaimEndJob | backend/internal/scheduler/scheduler.go:150-191 | takes the end timer iff it is due and unlocked, and changes the rows iff it does |
| Repository.Database.ClaimExpireJob | backend/internal/scheduler/scheduler.go:150-191 | takes the expiry timer iff it is due and unlocked, and changes the rows iff it does |
| Repository.Database.ProcessEndAuction | backend/internal/scheduler/scheduler.go:205-307 | finishes, reschedules or closes: sold to the winner with one order, or ended |
| Repository.Database.ProcessExpireOrder | backend/internal/scheduler/scheduler.go:309-352 | finishes, reschedules or lapses the order |
| Repository.Database.MarkFailure | backend/internal/scheduler/scheduler.go:354-391 | one more attempt; dead iff the attempts are used up |
| Invariants.AcceptKeepsCore | backend/internal/auction/bid.go:945-1021 | an accepted bid with its bid row keeps log, price, bids, order and timers consistent |
| Invariants.SettleKeepsCore | backend/internal/auction/bid.go:1023-1086 | the whole settlement keeps the invariant and ends active or sold |
| Invariants.StepKeepsCore | backend/internal/auction/repository.go:71-505 | every transaction, from any of the modules, keeps the invariant |
| Invariants.RunKeepsCore | backend/internal/scheduler/scheduler.go:205-352 | so does every interleaving of them with the scheduler |
| P0Checks.CorePassesP0 | backend/internal/invariant/checks.go:9-286 | a state that satisfies the invariant passes the P0 checks on events, terminal events, bids, orders and outbox together |
| P0Checks.ReachablePassesP0 | backend/internal/invariant/checks.go:9-286 | every state any interleaving can reach passes them |
| Idempotency.StepKeepsKeys | backend/internal/auction/bid.go:1247-1332 | records only go from absent to settled and from asking to decided; a key owns a manual bid row iff it is decided, and then one |
| Idempotency.OneRowPerKey | backend/internal/auction/bid.go:204-392 | in every reachable state a key has at most one manual bid row and no record is left in progress |
| Idempotency.DecisionIsReplayed | backend/internal/auction/bid.go:1302-1332 | after a decided bid every later call under its key, after any run, returns that response and changes nothing, and any other amount is refused |
| Idempotency.ConfirmationIsReplayed | backend/internal/auction/bid.go:297-392 | the same for a confirmation |
| BidKeyCheck.CheckPassesExactly | backend/internal/invariant/checks.go:434-475 | in a state that satisfies the invariants the P0 check on bid idempotency passes iff no automatic row lies under the key of an open confirmation: decided records never fail it |
| BidKeyCheck.ReachableCheckExactly | backend/internal/invariant/checks.go:434-475 | the same equivalence in every state any interleaving can reach |
| OpenKeys.StepBreaksExactly | backend/internal/auction/bid.go:240-285 | from a passing state a step breaks that check iff it asks for confirmation under a key that has a row, or commits a settlement that places an automatic bid under the key of an open confirmation |
| OpenKeys.RunBreaksExactly | backend/internal/invariant/checks.go:434-475 | after any run from the creation the check passes iff no step was of these two kinds |
| OpenKeys.FailingStaysFailing | backend/internal/auction/bid.go:297-392 | a confirmation asked for on an automatic row can never be given, so a check that fails fails for ever |
| OpenKeys.NoThresholdPassesCheck | backend/internal/auction/bid.go:895-905 | while no rules set a positive threshold every reachable state passes the check, whatever the keys |
| OpenKeys.CheckFailsReachably | backend/internal/invariant/checks.go:434-475 | there is a reachable state that fails the check |
| BidKeyCheck.PlainKeysPassCheck | backend/internal/invariant/checks.go:434-475 | if callers send no key of the automatic form, every reachable state passes that check |
| MachineLaws.SettleMovesForward | backend/internal/auction/bid.go:1023-1086 | a settlement lets rules, price, count and end only move forward and extends at most once for each automatic bid it counts |
| MachineLaws.StepMovesForward | backend/internal/auction/bid.go:957-964 | a started auction only moves forward: rules stay, price and number rise, final statuses stay, extensions never exceed the accepted bids, bids never shorten the end, and no other step prolongs it |
| Extensions.ExtendsExactly | backend/internal/auction/rules.go:119-131 | an accepted bid that does not sell extends, from its clock reading on, iff it is within the window and an extension is left, and costs more than its share iff it comes behind the end |
| Extensions.ExtendsAgainExactly | backend/internal/auction/bid.go:957-964 | after an extension the next bid extends again iff it does not sell, an extension is left and the clock has moved on by what the extension exceeds the window |
| Extensions.BidExtendsExactly | backend/internal/auction/bid.go:945-1086 | for any clock readings a bid transaction extends iff one of its bids does on the row it found, extends again iff, behind the first that extends, a bid that does not sell is timed by what the extension exceeds the window later with an extension left, and so at most once with close readings |
| Extensions.StartExtendsExactly | backend/internal/auction/repository.go:361-413 | the same of the settlement of a start |
| Extensions.ExtensionsAreBounded | backend/internal/auction/rules.go:119-131 | over any run after the start, host shortening included, the end is at most the original end, one extension for each counted one, and what automatic bids were timed behind the end; the count stays within its maximum |
| Extensions.OneBidExtendsTwice | backend/internal/auction/bid.go:1044-1054 | in a reachable state one bid transaction extends twice |
| Extensions.LateAnswerOverruns | backend/internal/auction/bid.go:1044-1054 | in a reachable state an automatic bid timed behind the end meets the bound with its overrun exactly, and so exceeds the bound without it |
| MachineLaws.StepMovesOrder | backend/internal/auction/bid.go:503-618 | an order keeps its terms and its payment id, PAID and ORDER_EXPIRED are final, and only a signed webhook or a due expiry leads there |
| MachineLaws.OrderStory | backend/internal/scheduler/scheduler.go:309-352 | in every reachable state the deposit is held, refunded or forfeited as the order is open, paid or lapsed, with exactly one matching event |
| StepLaws.StatusMovesExactly | backend/internal/auction/repository.go:361-505 | no status changes but along the listed moves, and the listed calls move it whenever they may |
| StepLaws.StepTellsExactly | backend/internal/auction/repository.go:715-757 | every step but a bid or a start appends exactly the one event that is due, with its user and amount, to log and outbox under the next number, or none |
| StepLaws.StepTouches | backend/internal/auction/repository.go:279-505 | such a step changes rules and price only as an edit of a draft, the end only as a shortening, bounds only as a put or a cancel, and bids, records, winner and counts never |
| StepLaws.CreationWrites | backend/internal/auction/repository.go:71-109 | a new auction is a draft at its starting price with the event of its creation and nothing else |
| StepLaws.RulesAreTakenExactly | backend/internal/auction/repository.go:279-331 | exactly sound rules make an auction or change a draft, with the price at the new start |
| StepLaws.HostCallsExactly | backend/internal/auction/repository.go:333-505 | when each host call succeeds, what it sets, and its error otherwise |
| StepLaws.StartWrites | backend/internal/auction/repository.go:361-413 | a start tells of itself first, sets the end, and then writes one numbered event for each automatic bid |
| StepLaws.PutKeepsAge | backend/internal/auction/max_bid_intent.go:118-160 | a bound put again keeps its row's id, age and number, so an older bidder stays older; a new one is a new row; nobody else's row changes |
| StepLaws.PutIsTakenExactly | backend/internal/auction/max_bid_intent.go:118-160 | a bound is taken exactly on a scheduled or active auction as a bid of that amount would be |
| StepLaws.CancelEndsBound | backend/internal/auction/max_bid_intent.go:199-240 | a cancel ends an active bound, leaves any other row as it is, and fails without one |
| StepLaws.MockIsInitiatedExactly | backend/internal/auction/bid.go:398-501 | only the winner initiates a mock payment, of an order not lapsed, for a first payment id only when the books agree; the id is given once |
| StepLaws.AlipayIsInitiatedExactly | backend/internal/gateway/alipay_handlers.go:315-363 | an order not lapsed takes a payment id exactly when it has none or the same |
| StepLaws.WebhookIsTakenExactly | backend/internal/auction/bid.go:503-618 | a webhook is taken exactly with a valid signature and the order's own payment id before the order lapses; it pays an unpaid order and leaves a paid one |
| StepLaws.NothingToPay | backend/internal/auction/bid.go:398-618 | without an order no payment call does anything |
| StepLaws.ClosingOpensOrder | backend/internal/scheduler/scheduler.go:205-307 | closing an auction that is led opens the leader's order at the final price, unpaid, deposit held, for 15 minutes |
| StepLaws.SellingOpensOrder | backend/internal/auction/bid.go:1216-1230 | a bid that sells opens the same order for its bidder |
| StepLaws.ExpiryLapsesExactly | backend/internal/scheduler/scheduler.go:309-352 | an expiry lapses the order and forfeits the deposit exactly when the order is unpaid and its deadline has come |
| MachineLaws.EndsOnTime | backend/internal/scheduler/scheduler.go:205-307 | an active auction is ended only at or after its end, and sold only then or by a bid at the cap |
| MachineLaws.TimerEndsAuction | backend/internal/scheduler/scheduler.go:150-307 | a worker that comes after the end claims the timer and closes the auction |
| MachineLaws.TimerStory | backend/internal/scheduler/scheduler.go:408-435 | in every reachable state an active auction has an unfinished end timer due no later than its end |
| TimerLocks.EndTimerIsHeld | backend/internal/scheduler/scheduler.go:150-191 | who gets the end timer at t has it for five seconds: over any run in which it is not finished, rescheduled, failed or set anew, no claim before t + 5 succeeds |
| TimerLocks.EndTimerIsFreed | backend/internal/scheduler/scheduler.go:150-191 | and if nobody else claims it meanwhile the next claim succeeds exactly from t + 5 on |
| TimerLocks.FailedEndTimerWaits | backend/internal/scheduler/scheduler.go:354-391 | a failed timer can be claimed exactly from its retry on, while it has attempts left |
| TimerLocks.StartedTimerIsDue | backend/internal/auction/repository.go:361-413 | a started auction's timer can be claimed exactly from the end the start set, automatic bids or not |
| TimerLocks.ShortenedTimerIsDue | backend/internal/auction/repository.go:759-772 | a shortened auction's timer can be claimed exactly from the new end on, free of lock and retry, unless it is finished or dead; its attempts still count |
| TimerLocks.ProcessedTimer | backend/internal/scheduler/scheduler.go:205-307 | a timer processed before the end can be claimed exactly from the end on, one processed later never |
| TimerLocks.ExpiryTimerIsHeld | backend/internal/scheduler/scheduler.go:150-191 | the same five seconds for the expiry timer |
| TimerLocks.ExpiryTimerIsFreed | backend/internal/scheduler/scheduler.go:150-191 | and no longer |
| TimerLocks.FailedExpiryTimerWaits | backend/internal/scheduler/scheduler.go:354-391 | a failed expiry waits for its retry |
| TimerLocks.ClosedOrderExpires | backend/internal/scheduler/scheduler.go:205-307 | the order of a closed auction has its deadline 15 minutes later, and its timer is due exactly then |
| TimerLocks.SoldOrderExpires | backend/internal/auction/bid.go:1216-1230 | and so has the order of a bid that sells |
| TimerLocks.ProcessedExpiry | backend/internal/scheduler/scheduler.go:309-352 | an expiry that comes too early can be claimed exactly from the deadline on, any other never again |
| DeadTimer.RetiredStep | backend/internal/scheduler/scheduler.go:205-436 | of all transactions exactly a stale processing before the end of an active auction brings a timer without attempts back, and it always does |
| DeadTimer.RetiredTimerRevivesExactly | backend/internal/scheduler/scheduler.go:150-307 | over any run a timer without attempts can be claimed again iff that happens in it |
| DeadTimer.RetiredTimerIsReachable | backend/internal/scheduler/scheduler.go:354-391 | under any rules five claims and failures leave the auction active and its timer dead |
| FrozenRules.StartFailsExactly | backend/internal/auction/repository.go:361-413 | a start fails iff another auction of the room is active or the two highest active bounds meet beside the grid |
| FrozenRules.SettleFailsExactly | backend/internal/auction/bid.go:1023-1086 | a settlement fails iff the two deciding bounds meet beside the grid or a bid row holds one of the at most two keys that are due by the bounds |
| FrozenRules.TakeFailsExactly | backend/internal/auction/bid.go:262-283 | an acceptable bid fails iff its own key is used or, when it does not sell the auction, the bounds then meet beside the grid or a bid row holds a key then due |
| FrozenRules.SettlementNeverFails | backend/internal/auction/bid.go:946-949 | as long as no rules are edited under live bounds and no caller's key has the automatic form, every start in a free room and every acceptable bid under an undecided key succeeds, the price stays below the cap and a legal next bid exists |
| FrozenRules.PlainKeyIsFree | backend/migrations/202605220001_init_core.sql:94 | in such a state a key is used only by the decided bid that owns it |
| BlockedRuns.EditedGridBlocksStart | backend/internal/auction/repository.go:279-359 | a reachable auction whose rules were edited under live bounds cannot start |
| BlockedRuns.StrandedBoundLosesBids | backend/internal/auction/repository.go:279-359 | a reachable live auction loses every bid of 120 though it is acceptable, because of bounds from before the edit |
| BlockedRuns.UsedKeyBlocks | backend/internal/auction/bid.go:1060-1072 | whatever other bounds there are, a bid row under the key of the best bound's next automatic bid makes every bid that bound would answer fail |
| BlockedRuns.CollisionBlocksBids | backend/migrations/202605220001_init_core.sql:94 | in a reachable state, after one rejected bid under such a key, every acceptable bid of anybody else up to 190 changes nothing |
| CallerLaws.OnlyActiveIntentsCount | backend/internal/auction/max_bid_intent.go:262-274 | the automatic bids depend on the set of active intents alone |
| CallerLaws.PutIsPut | backend/internal/auction/max_bid_intent.go:118-160 | after a put the user has exactly one intent, active with that bound, and nobody else's row has changed |
| CallerLaws.CancelSilences | backend/internal/auction/max_bid_intent.go:199-240 | after a cancel the user has no active intent and nobody else's row has changed |
| CallerLaws.CancelUndoesPut | backend/internal/auction/max_bid_intent.go:182-240 | putting and cancelling a bound leaves the automatic bids as if the user had not bid |
| CallerLaws.PaymentWins | backend/internal/auction/bid.go:503-618 | payment before expiry: paid, refunded, one event, and the expiry only ends its timer |
| CallerLaws.ExpiryWins | backend/internal/scheduler/scheduler.go:309-352 | expiry before payment: lapsed, forfeited, one event, and the payment is refused |
| CallerLaws.RaceIsFinal | backend/internal/auction/bid.go:503-618 | no later run changes the outcome of the race |
| OutboxRelay.StepKeepsInv | backend/internal/outbox/relay.go:266-623 | every relay step in time keeps rows started in order, list and offers sorted and matched by the rows, and at most one unexpired lock |
| OutboxRelay.ClaimFindsNobody | backend/internal/outbox/relay.go:266-322 | when a row can be claimed no worker holds an unexpired lock |
| OutboxRelay.OrderedDelivery | backend/internal/outbox/relay.go:360-407 | over every interleaving neither the list nor the offers step back or have a hole but dead rows, and rows are published head of line first |
| OutboxRelay.RunOnlyAppends | backend/internal/outbox/relay.go:387-404 | the list and the offers to the hub only grow |
| RowLocks.NewRowIsClaimed | backend/internal/outbox/relay.go:266-322 | until somebody claims it a new row can be claimed exactly while every row before it is published or dead |
| RowLocks.FailedRowWaits | backend/internal/outbox/relay.go:544-568 | over any run nobody gets a failed row before its retry time |
| RowLocks.FailedRowIsRetried | backend/internal/outbox/relay.go:544-568 | and until somebody does the next worker gets it exactly from that time on |
| RowLocks.HeldRowWaits | backend/internal/outbox/relay.go:266-322 | over any run in which the holder does not mark its row, nobody gets it for thirty seconds |
| RowLocks.HeldRowIsFreed | backend/internal/outbox/relay.go:266-322 | and unless somebody does the next worker gets it exactly when they are over |
| RowLocks.DeliveredRowIsDone | backend/internal/outbox/relay.go:516-542 | over any run a published row is never claimed again |
| RowLocks.RefusedRowIsDone | backend/internal/outbox/relay.go:570-590 | nor is one refused as invalid |
| LateRelay.LateStepExactly | backend/internal/outbox/relay.go:360-590 | without the lock assumption a step keeps the delivery invariant iff it is harmless: no push or offer behind a greater number, no mark of another's row, no row put back under a started one |
| LateRelay.LateRunExactly | backend/internal/outbox/relay.go:211-590 | a run with late steps satisfies the invariant throughout iff each of its steps is harmless |
| LateRelay.LateOrderExactly | backend/internal/outbox/relay.go:360-407 | over any run, late steps included, the list is in order iff every push that took effect found no greater number, and the offers iff every offer did |
| LateRelay.InTimeIsHarmless | backend/internal/outbox/relay.go:266-322 | a step while the lock lasts is harmless |
| LateRelay.LatePushStepsBack | backend/internal/outbox/relay.go:387-404 | a run in which a push after the lock expired makes the list 1, 2, 1 |
| LateRelay.LateFailureStepsBack | backend/internal/outbox/relay.go:544-590 | a run in which a late mark of failure puts a published row back, so that it is pushed again behind number 2 |
| LateRelay.LateFailureDisorders | backend/internal/outbox/relay.go:544-590 | in general a failure marked late behind a greater number in the list has a continuation in time that disorders the list |
| LateRelay.LateMarkDisorders | backend/internal/outbox/relay.go:516-542 | a success marked late while another worker holds the row unpushed has one too, if the next row is due or yet to come |
| LateRelay.LateMarkStepsBack | backend/internal/outbox/relay.go:516-542 | and that state is reachable |
| RelayWorker.Relay.ClaimOne | backend/internal/outbox/relay.go:266-322 | claims the claimable row, which is the only one, or there is none |
| RelayWorker.Relay.PublishRow | backend/internal/outbox/relay.go:360-407 | refuses an invalid envelope before any effect; otherwise pushes before it offers |
| RelayWorker.Relay.MarkFailure | backend/internal/outbox/relay.go:544-590 | an invalid event is dead at once, any other fault is retried |
| RelayWorker.Relay.ProcessOne | backend/internal/outbox/relay.go:246-264 | one round is a run of the delivery machine whatever fails, the statement that marks included; a clean one delivers its row |
| RelayWorker.Relay.ProcessBatch | backend/internal/outbox/relay.go:211-237 | a batch is such a run, reports a fault only on a failed statement or push or an invalid row, and without one delivers the next rows in order, each once, stops early only when nothing can be claimed, and delivers as many as it may when all are ready |
| HistoryCheck.ValidateHistory | backend/internal/reconcile/checker.go:335-400 | reports exactly the unreadable entries, exactly the gaps with both numbers, and the last number iff it differs |
| HistoryCheck.IsClean | backend/internal/reconcile/checker.go:335-400 | no drift is reported iff every entry is numbered, they count up, and the last is the auction's |
| HistoryCheck.DrainedHistory | backend/internal/reconcile/checker.go:335-400 | on a drained relay the retained list is clean iff no push was repeated in it and no event from its first number on is dead |
| Recovery.RecoveryMessages | backend/internal/realtime/server.go:480-507 | serves from the list iff the unseen entries are there and count up from the client's next number, and then returns exactly those |
| Recovery.ServedExactly | backend/internal/realtime/server.go:480-507 | from any remaining suffix of the list a client with a last number is served from history iff the newest entry is new to it, the one behind its last is there, none above its last is repeated, and no event up to the newest is dead |
| Recovery.OneMissedEventIsServed | backend/internal/realtime/server.go:480-507 | a client that misses the one newest event is sent that event |
| Recovery.RecoveredIsExact | backend/internal/realtime/server.go:480-507 | recovered messages are the events after the client's last, without gap or repeat, up to the newest pushed |
| Recovery.HandOff | backend/internal/realtime/server.go:316-332 | every event after the client's last that was ever offered is recovered or was offered to its queue |
| Recovery.StreamHasNoGap | backend/internal/realtime/server.go:316-332 | what is offered after the subscription never steps back, and every live number between the client's last and an offered one was recovered or offered before it |
| Recovery.RepeatForcesSnapshot | backend/internal/realtime/server.go:489-500 | a repeat among the unseen entries sends the client to the snapshot |
| EndToEnd.MoveKeepsInv | backend/internal/auction/repository.go:715-757 | transactions and relay steps together keep both invariants and one delivery row for every outbox row |
| EndToEnd.ClientIsToldTheEvents | backend/internal/realtime/server.go:480-507 | over every interleaving of transactions and relay steps a client served from the list is told exactly the auction's own events after its last, contents included, and none that was offered is missing |
| EndToEnd.ClientIsServedExactly | backend/internal/realtime/server.go:480-507 | over every interleaving of transactions and relay steps the same equivalence decides between list and snapshot |
| EndToEnd.ClientStreamHasNoGap | backend/internal/realtime/server.go:316-332 | what a client receives from its queue is the first so many of the events offered since it subscribed, and with the recovered messages they leave no gap |
| EndToEnd.ReconciliationIsExact | backend/internal/reconcile/checker.go:335-400 | on a drained relay the list agrees with the auction's sequence number iff no retained push was repeated and no event from the first retained on is dead |
| LiveQueue.StepKeepsAccounts | backend/internal/realtime/hub.go:146-204 | queued bytes are the bytes sent and not acknowledged and stay within the limit, under any interleaving |
| LiveQueue.AckReleasesExactly | backend/internal/realtime/hub.go:146-156 | an acknowledgement releases its own bytes; the clamp at zero never fires |
| LiveQueue.SubscriberSeesPrefix | backend/internal/realtime/hub.go:100-136 | under any interleaving the bytes are accounted for, and a client gets the first messages published since it subscribed iff no publisher overtakes one that was turned away |
| LiveQueue.NothingIsLostExactly | backend/internal/realtime/hub.go:158-189 | under any interleaving everything published since the subscription was received or is queued, in order, iff every message found the queue open, below its capacity and with room for its bytes |
| LiveQueue.OneAtATimeIsSafe | backend/internal/realtime/hub.go:100-136 | publishes that do not overlap never overtake |
| LiveQueue.OverlapMakesHole | backend/internal/realtime/hub.go:110-131 | two overlapping publishes can make a client miss a message and receive the next |
| Hub.Subscription.TrySend | backend/internal/realtime/hub.go:158-189 | at any time, overlapping publishes included: queues the message iff open and within both limits, never sends to a closed channel, and stays in step iff it does not overtake |
| Hub.Subscription.CloseSlow | backend/internal/realtime/hub.go:191-204 | whatever came between, closes once and notifies once |
| Hub.Subscription.Ack | backend/internal/realtime/hub.go:142-156 | releases the oldest unacknowledged message |
| Hub.Room.Subscribe | backend/internal/realtime/hub.go:76-88 | a new empty queue joins the others |
| Hub.Room.Unsubscribe | backend/internal/realtime/hub.go:90-98 | the queue leaves and is closed, once |
| Hub.Room.Publish | backend/internal/realtime/hub.go:100-136 | every subscriber gets the message or is closed, whatever the others do, and the statistics are exactly the counts and maxima of what was found |
| Hub.OfferedExactly | backend/internal/realtime/hub.go:100-136 | a publish leaves every queue that had room open with the message last in it and closes every other one |
| Hub.TallyExactly | backend/internal/realtime/hub.go:100-136 | the statistics of a publish are the number of subscribers, how many of them were closed for it, and the greatest queue in messages and bytes of all and of the closed ones |
| Gcra.Limiter.Eval | backend/internal/gateway/bid_admission.go:30-43 | the script's answer and the key it leaves |
| Gcra.Limiter.EvalAll | backend/internal/gateway/bid_admission.go:30-43 | a limiter built for a limit and a window, from an empty key, keeps that rate over every run of requests, and answers as the specification |
| Gcra.ConfiguredRate | backend/internal/gateway/bid_admission.go:228-246 | between two admitted requests of any run there are `limit` admissions, and further ones only one for each window / limit, rounded down and at least 1 ms, of their distance |
| Gcra.ConfiguredSpacing | backend/internal/gateway/bid_admission.go:228-246 | and no less: requests at least window / limit apart are all admitted |
| Gcra.ConfiguredBurst | backend/internal/gateway/bid_admission.go:228-246 | from an empty key exactly `limit` simultaneous requests are admitted |
| Gcra.ConfiguredWait | backend/internal/gateway/bid_admission.go:228-246 | the next is told to wait window / limit, rounded down and at least 1 ms |
| Gcra.ExpiryIsInvisible | backend/internal/gateway/bid_admission.go:228-246 | on every run from an empty key the limiter decides as one that never forgets |
| Gcra.AdmissionBoundWithin | backend/internal/gateway/bid_admission.go:30-43 | n admissions between two admitted requests of any run satisfy n * emission <= their distance + limit * emission |
| Gcra.SpacedIsAdmitted | backend/internal/gateway/bid_admission.go:30-43 | requests one emission apart are never rejected |
| Gcra.IdleAdmitsBurst | backend/internal/gateway/bid_admission.go:30-43 | an idle key admits n simultaneous requests iff n is within the limit |
| Gcra.WaitIsLeast | backend/internal/gateway/bid_admission.go:37-39 | a returned wait is the least delay after which an unopposed retry is admitted |
| RedisGuard.GuardKey.Check | backend/internal/gateway/redis_guard.go:33-98 | the script's verdict on the stored projection, with the figures a rejection reports |
| RedisGuard.GuardKey.WriteProjection | backend/internal/outbox/relay.go:452-480 | a projection replaces the key whole |
| RedisGuard.GuardKey.RefreshAfterAcceptedBid | backend/internal/gateway/redis_guard.go:100-134 | an older response changes nothing, a newer one the moving fields only; the outcome says which |
| RedisGuard.GuardIsSoundExactly | backend/internal/gateway/redis_guard.go:33-98 | for every projection, stale or fresh, and every sound row the guard rejects nothing the row would take iff the projection fits it: first amount, cap and grid |
| GuardLaws.ActiveRowIsJudged | backend/internal/gateway/redis_guard.go:33-98 | on a fresh projection of an active row the guard gives the authority's own reason with the row's figures, the leader's bids excepted; on an old one it rejects what is too low or above the cap and has the rest reloaded |
| GuardLaws.OtherRowIsJudged | backend/internal/gateway/redis_guard.go:33-98 | final rows reject every bid, rows not yet active leave it to the authority |
| GuardLaws.PlacedBidIsShown | backend/internal/gateway/redis_guard.go:100-134 | refreshed with the answer to an accepted bid, a projection that showed the row judges every later bid as a new projection of the committed row would |
| GuardLaws.ConfirmedBidIsShown | backend/internal/gateway/redis_guard.go:100-134 | the same for a bid that is confirmed |
| RedisGuard.TakesMeansNotRefused | backend/internal/auction/bid.go:868-892 | at any time before the end, a bid the row takes is exactly one the authority accepts or asks to confirm |
| GuardRuns.RejectionIsShared | backend/internal/auction/bid.go:868-892 | what the guard rejects on a projection behind the row, the authority does not accept |
| GuardRuns.StepGoesOnward | backend/internal/auction/bid.go:945-1021 | under unchanged rules no transaction lowers the price, leaves the grid or revives a final status |
| GuardRuns.DecisionIsBehind | backend/internal/gateway/redis_guard.go:267-301 | an accepted response reports a price the auction has had and a sale only of a sold auction |
| GuardRuns.GuardIsSound | backend/internal/gateway/redis_guard.go:33-134 | over every interleaving of transactions with lost, late and repeated Redis writes under frozen rules, the guard never rejects what the authority would accept |
| GuardRuns.EditedRulesBreakTheGuard | backend/internal/gateway/redis_guard.go:100-134 | one run from the creation of an auction: a projection from before an edit of the rules, refreshed by an accepted bid, rejects what the authority would accept |
| Ledger.KafkaLedger.FetchBatch | backend/internal/redisengine/kafka_ledger.go:250-286 | returns the first uncommitted records, as many as the limit, the buffer or the arrivals allow, and nothing only when none arrives; what it pulls is buffered |
| Ledger.KafkaLedger.Forget | backend/internal/redisengine/kafka_ledger.go:311-323 | the in-place filter keeps exactly the uncommitted messages, in order |
| Ledger.KafkaLedger.CommitBatch | backend/internal/redisengine/kafka_ledger.go:292-326 | a reported success forgets exactly the committed messages; a reported failure, whether it took effect or not, forgets none |
| Ledger.WithoutPrefix | backend/internal/redisengine/kafka_ledger.go:311-323 | filtering out a prefix of consecutive offsets leaves the rest |
| Ledger.MemoryLedger.FetchBatch | backend/internal/redisengine/kafka_ledger.go:457-479 | returns the first uncommitted records, as many as there are up to the limit |
| Ledger.MemoryLedger.CommitBatch | backend/internal/redisengine/kafka_ledger.go:485-499 | advances the log by the number of committed messages |
| Ledger.AtLeastOnce | backend/internal/redisengine/kafka_ledger.go:250-326 | under any pattern of partial processing, commits, redelivery and restarts no record is passed over and every committed one was processed |
| BraceScanner.ScanObject | backend/internal/ai/chat_provider.go:163-200 | from an opening brace it returns the shortest slice balanced outside strings, or there is none |
| BraceScanner.ExtractFirstJSONObject | backend/internal/ai/chat_provider.go:163-200 | the same from the first opening brace of any text |
| BraceScanner.ExtractAlipaySignedResponseContent | backend/internal/gateway/alipay_handlers.go:621-663 | the same from the first opening brace behind the first mention of the quoted name |
| JsonText.ValueIsQuiet | backend/internal/ai/chat_provider.go:163-200 | every printed JSON value closes all it opens and ends outside strings |
| JsonText.ExtractInvertsPrint | backend/internal/ai/chat_provider.go:163-200 | around any text, from the place where an object is printed, the scanner returns exactly that object |
| JsonText.RoundTrip | backend/internal/ai/chat_provider.go:163-200 | any prefix without an opening brace and any suffix give back the printed object |
| JsonText.AlipayRoundTrip | backend/internal/gateway/alipay_handlers.go:621-663 | the signed content behind the quoted name is given back as printed |

## Left out

- Repository.Database.PutIntent: the idempotency records of maximum-bid calls, intent versions, and the source field with its refusal are left out.
- Repository.Database.InitiateMock: payment idempotency records, payment events and the provider call are left out; the call's own webhook is a separate step.
- Repository.Database.InitiateAlipay: the payment event row is left out.
- Repository.Database.HandleWebhook: payment events with their duplicate check, anomaly rows and the required fields of the event are left out, and so is the uniqueness of a payment id across the orders of several auctions.
- Repository.Database.ClaimEndJob: which of several due jobs of different auctions is taken is left out.
- Repository.Database.ProcessEndAuction: the engine fencer is taken as absent; a fencer that moves the end time is not modelled.
- Repository.Database.MarkFailure: back-off delays are an input, anomaly rows are left out.
- RelayWorker.Relay.MarkFailure: the retry time is an input; attempts, anomaly rows and the gap notice are left out, and so is the signal that revives a dead row.
- RelayWorker.Relay.ClaimOne: one auction's rows only, in the order of their numbers; shard leases, which only decide who may claim, are left out.
- RelayWorker.Relay.ProcessBatch: the refresh of the watermark, which no decision reads, is left out.
- Recovery.RecoveryMessages: the snapshot fallback is one outcome without content, because a rebuilt snapshot can be older than the list.
- Hub.Room.Publish: one auction's subscribers rather than the room table.
- Hub.Subscription.Ack: acknowledgements come in the order of receipt, as the connection loop gives them.
- Ledger.KafkaLedger.CommitBatch: one partition; the dead letter topic is left out.
- Ledger.MemoryLedger.FetchBatch: the wait for a first record is left out; the call starts when there is one or gives nothing.
- JsonText.ValueIsQuiet: numbers are any text of numeric characters, a superset of section 6 of RFC 8259.
- Narration keeps its events but not its flag; whether another auction of the room is narrated is an input.
- Deposits' amounts, money formatting, leaderboards, HTTP handlers, access control, metrics and the front end are plumbing or easy members.
- The Redis bid engine, its settlement worker and rebuild code are not part of this model.
- The local in-flight permits of the bid admission and the fail-open path on Redis errors are left out.
