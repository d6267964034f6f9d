/** The inductive invariant of the auction machine: every transaction keeps it. */
module Invariants {
  import opened Wrappers
  import opened BidRules
  import opened AuctionState
  import opened Settlement
  import opened SettlementLaws
  import opened Transactions

  // ---- The parts --------------------------------------------------------------------

  function CountKind(events: seq<Event>, kind: EventKind): nat {
    if events == [] then 0
    else CountKind(events[..|events| - 1], kind) + (if events[|events| - 1].kind == kind then 1 else 0)
  }

  function Indicator(b: bool): nat {
    if b then 1 else 0
  }

  predicate IsTracked(kind: EventKind) {
    kind in {EventKind.AuctionSold, EventKind.AuctionEnded, EventKind.AuctionCancelled,
             EventKind.OrderPaid, EventKind.OrderExpired}
  }

  /** How often a milestone event must have been written by now. */
  function Expected(status: Status, orders: seq<Order>, kind: EventKind): nat {
    match kind
    case AuctionSold => Indicator(status == Sold)
    case AuctionEnded => Indicator(status == Ended)
    case AuctionCancelled => Indicator(status == Cancelled)
    case OrderPaid => Indicator(orders != [] && orders[0].status == Paid)
    case OrderExpired => Indicator(orders != [] && orders[0].status == OrderLapsed)
    case _ => 0
  }

  ghost predicate Numbered(events: seq<Event>) {
    forall i :: 0 <= i < |events| ==> events[i].seqNo == i + 1
  }

  ghost predicate Milestones(events: seq<Event>, status: Status, orders: seq<Order>) {
    forall kind :: IsTracked(kind) ==> CountKind(events, kind) == Expected(status, orders, kind)
  }

  ghost predicate LogInv(w: World) {
    && w.auction.seqNo == |w.events|
    && w.outbox == w.events
    && Numbered(w.events)
    && Milestones(w.events, w.auction.status, w.orders)
  }

  predicate NotStarted(a: Auction) {
    a.status in {Draft, Scheduled}
  }

  ghost predicate RowInv(a: Auction) {
    && SoundRules(a.rules)
    && PriceOnGrid(a)
    && (a.rules.cap.Some? ==> a.price <= a.rules.cap.value)
    && (a.endAt.None? ==> a.acceptedCount == 0 && a.status !in {Active, Sold, Ended})
    && (NotStarted(a) ==> a.endAt.None?)
    && (a.status == Active ==> LiveRow(a))
    && (a.status == Sold ==> a.winner.Some?)
    && a.extendCount <= a.rules.maxExtend
    && (a.endAt.None? ==> a.extendCount == 0)
  }

  function AcceptedRows(bids: seq<BidRow>): seq<BidRow> {
    if bids == [] then []
    else
      var front, b := AcceptedRows(bids[..|bids| - 1]), bids[|bids| - 1];
      if b.accepted then front + [b] else front
  }

  ghost predicate Rising(rows: seq<BidRow>, seqNo: nat) {
    && (forall i :: 0 <= i < |rows| ==> rows[i].seqNo.Some? && rows[i].seqNo.value <= seqNo)
    && (forall i, j :: 0 <= i < j < |rows| ==>
          rows[i].seqNo.value < rows[j].seqNo.value && rows[i].amount < rows[j].amount)
  }

  /** UNIQUE (auction_id, user_id, client_bid_id). */
  ghost predicate DistinctKeys(bids: seq<BidRow>) {
    forall i, j :: 0 <= i < j < |bids| ==> bids[i].user != bids[j].user || bids[i].key != bids[j].key
  }

  ghost predicate BidInv(bids: seq<BidRow>, a: Auction) {
    var rows := AcceptedRows(bids);
    && |rows| == a.acceptedCount
    && DistinctKeys(bids)
    && (a.endAt.None? ==> bids == [])
    && (forall i :: 0 <= i < |bids| && bids[i].source == AutoMaxBid ==> bids[i].key.AutoForm?)
    && Rising(rows, a.seqNo)
    && (rows != [] ==>
          var last := rows[|rows| - 1];
          a.winner == Some(last.user) && a.price == last.amount)
  }

  function DepositFor(status: OrderStatus): DepositStatus {
    match status
    case Paid => Refunded
    case OrderLapsed => Forfeited
    case _ => Held
  }

  ghost predicate OrderInv(orders: seq<Order>, a: Auction) {
    if a.status == Sold then
      && |orders| == 1
      && a.winner == Some(orders[0].winner) && a.price == orders[0].amount
      && orders[0].deposit == DepositFor(orders[0].status)
    else orders == []
  }

  predicate IsOpen(o: Order) {
    o.status in {OrderPending, PaymentInitiated}
  }

  /** A timer that is still due no later than its deadline. */
  predicate Armed(job: Option<Job>, deadline: int) {
    job.Some? && job.value.status != JobSucceeded && job.value.runAt <= deadline
  }

  ghost predicate TimerInv(w: World) {
    && (NotStarted(w.auction) ==> w.endJob.None?)
    && (w.auction.status == Active ==> w.auction.endAt.Some? && Armed(w.endJob, w.auction.endAt.value))
    && (w.orders == [] ==> w.expireJob.None?)
    && (w.orders != [] && IsOpen(w.orders[0]) ==> Armed(w.expireJob, w.orders[0].expireAt))
  }

  ghost predicate CoreInv(w: World) {
    && LogInv(w)
    && RowInv(w.auction)
    && BidInv(w.bids, w.auction)
    && OrderInv(w.orders, w.auction)
    && DistinctIntents(w.intents)
    && TimerInv(w)
  }

  // ---- Appending --------------------------------------------------------------------

  lemma CountAppend(events: seq<Event>, e: Event, kind: EventKind)
    ensures CountKind(events + [e], kind) == CountKind(events, kind) + Indicator(e.kind == kind)
  {
    assert (events + [e])[..|events + [e]| - 1] == events;
  }

  lemma AcceptedAppend(bids: seq<BidRow>, b: BidRow)
    ensures AcceptedRows(bids + [b]) == if b.accepted then AcceptedRows(bids) + [b] else AcceptedRows(bids)
  {
    assert (bids + [b])[..|bids + [b]| - 1] == bids;
  }

  /** One event with its outbox twin, appended after a change that makes exactly that milestone due. */
  lemma AppendKeepsLog(w: World, moved: World, kind: EventKind, user: Option<UserId>, amount: Option<int>)
    requires LogInv(w)
    requires moved.events == w.events && moved.outbox == w.outbox && moved.auction.seqNo == w.auction.seqNo
    requires forall k :: IsTracked(k) ==>
      Expected(moved.auction.status, moved.orders, k)
      == Expected(w.auction.status, w.orders, k) + Indicator(k == kind)
    ensures LogInv(AppendEvent(moved, kind, user, amount))
  {
    var e := Event(moved.auction.seqNo + 1, kind, user, amount);
    forall k | IsTracked(k)
      ensures CountKind(w.events + [e], k) == Expected(moved.auction.status, moved.orders, k)
    {
      CountAppend(w.events, e, k);
    }
  }

  // ---- Accepted bids ----------------------------------------------------------------

  lemma AcceptKeepsBids(bids: seq<BidRow>, a: Auction, next: Auction, b: BidRow)
    requires BidInv(bids, a) && b.accepted && b.seqNo == Some(next.seqNo) && next.seqNo == a.seqNo + 1
    requires !KeyTaken(bids, b.user, b.key) && next.endAt.Some? && (b.source == AutoMaxBid ==> b.key.AutoForm?)
    requires next.acceptedCount == a.acceptedCount + 1 && next.winner == Some(b.user) && next.price == b.amount
    requires a.price < b.amount
    ensures BidInv(bids + [b], next)
  {
    AcceptedAppend(bids, b);
  }

  lemma AcceptKeepsRow(a: Auction, user: UserId, amount: int, now: int)
    requires RowInv(a) && a.status == Active && Classify(a, amount) in {Accepted, AcceptedSold}
    ensures RowInv(AcceptedRow(a, user, amount, now).0.(seqNo := a.seqNo + 1))
    ensures a.price < amount
    ensures AcceptedRow(a, user, amount, now).0.endAt.value >= a.endAt.value
  {
    AcceptedRowLaws(a, user, amount, now);
  }

  lemma AcceptKeepsLog(w: World, user: UserId, amount: int, now: int, ordered: int)
    requires CoreInv(w) && w.auction.status == Active
    requires ApplyAccepted(w, user, amount, now, ordered).Ok?
    ensures LogInv(ApplyAccepted(w, user, amount, now, ordered).value.0)
  {
    var (row, result) := AcceptedRow(w.auction, user, amount, now);
    AcceptedRowLaws(w.auction, user, amount, now);
    var taken := w.(auction := row);
    if result == ResultSold {
      var order := NewOrder(user, amount, ordered);
      var sold := taken.(orders := [order], expireJob := UpsertJob(w.expireJob, order.expireAt));
      AppendKeepsLog(w, sold, EventKind.AuctionSold, Some(user), Some(amount));
    } else {
      AppendKeepsLog(w, taken, BidAccepted, Some(user), Some(amount));
    }
  }

  /** An accepted bid together with its bid row, before any settlement. */
  lemma AcceptKeepsCore(w: World, row: BidRow, now: int, ordered: int)
    requires CoreInv(w) && w.auction.status == Active
    requires ApplyAccepted(w, row.user, row.amount, now, ordered).Ok?
    requires row.accepted && row.seqNo == Some(w.auction.seqNo + 1) && !KeyTaken(w.bids, row.user, row.key)
    requires row.source == AutoMaxBid ==> row.key.AutoForm?
    ensures
      var moved := ApplyAccepted(w, row.user, row.amount, now, ordered).value.0;
      CoreInv(moved.(bids := moved.bids + [row]))
  {
    var user, amount := row.user, row.amount;
    var moved := ApplyAccepted(w, user, amount, now, ordered).value.0;
    AcceptKeepsRow(w.auction, user, amount, now);
    AcceptKeepsLog(w, user, amount, now, ordered);
    AcceptKeepsBids(w.bids, w.auction, moved.auction, row);
  }

  lemma MarksKeepCore(w: World, xs: seq<Intent>)
    requires CoreInv(w) && SameOwners(w.intents, xs)
    ensures CoreInv(w.(intents := xs))
  {
  }

  lemma AwardKeepsCore(w: World, award: Award, clock: Clock)
    requires CoreInv(w) && w.auction.status == Active && ApplyAward(w, award, clock).Ok?
    ensures CoreInv(ApplyAward(w, award, clock).value.0)
  {
    var at := w.auction.seqNo + 1;
    AwardShape(w, award, clock);
    AcceptKeepsCore(w, AwardRow(award, at), AutoTime(clock, at), clock.ordered);
    MarkedKeepsOwners(w.intents, award, at);
    var moved := ApplyAccepted(w, award.user, award.amount, AutoTime(clock, at), clock.ordered).value.0;
    MarksKeepCore(moved.(bids := w.bids + [AwardRow(award, at)]), Marked(w.intents, award, at));
  }

  lemma {:induction false} SettleKeepsCore(w: World, last: BidResult, clock: Clock)
    requires CoreInv(w) && w.auction.status in {Active, Sold}
    requires Settle(w, last, clock).Ok?
    ensures CoreInv(Settle(w, last, clock).value.0)
    ensures Settle(w, last, clock).value.0.auction.status in {Active, Sold}
    decreases |Awards(w.auction, w.intents)|
  {
    var awards := Awards(w.auction, w.intents);
    if awards == [] {
      MarksKeepCore(w, CloseIntents(w).intents);
    } else {
      var (next, result) := ApplyAward(w, awards[0], clock).value;
      AwardsUnfold(w, clock);
      AwardKeepsCore(w, awards[0], clock);
      SettleKeepsCore(next, result, clock);
    }
  }

  // ---- Transactions -----------------------------------------------------------------

  lemma CreateEstablishesCore(rules: Rules)
    requires CreateAuction(rules).Ok?
    ensures CoreInv(CreateAuction(rules).value)
  {
    ValidateRuleExact(rules);
    GridShift(rules.start, rules.start, rules.increment);
    if rules.cap.Some? { CapReachableIsGrid(rules, rules.cap.value); }
    var row := Auction(Draft, rules, rules.start, None, 0, None, 0, 0);
    var empty := World(row, [], [], [], [], [], map[], None, None);
    AppendKeepsLog(empty, empty, AuctionCreated, None, None);
  }

  lemma UpdateRulesKeepsCore(w: World, rules: Rules)
    requires CoreInv(w) && UpdateRules(w, rules).Ok?
    ensures CoreInv(UpdateRules(w, rules).value)
  {
    ValidateRuleExact(rules);
    GridShift(rules.start, rules.start, rules.increment);
    if rules.cap.Some? { CapReachableIsGrid(rules, rules.cap.value); }
    AppendKeepsLog(w, w.(auction := w.auction.(rules := rules, price := rules.start)), RulesUpdated, None, None);
  }

  /** A status change among the non-final statuses, or to CANCELLED. */
  lemma TouchKeepsCore(w: World, status: Status, kind: EventKind)
    requires CoreInv(w) && !IsTerminal(w.auction.status)
    requires
      || (status in {Draft, Scheduled} && NotStarted(w.auction) && !IsTracked(kind))
      || (status == Cancelled && kind == EventKind.AuctionCancelled)
    ensures CoreInv(Note(Touch(w, status), kind))
  {
    AppendKeepsLog(w, Touch(w, status), kind, None, None);
  }

  /** An event that marks no milestone and moves nothing but the clock of an active auction. */
  lemma NoteKeepsCore(w: World, kind: EventKind, user: Option<UserId>, amount: Option<int>)
    requires CoreInv(w) && !IsTracked(kind)
    ensures CoreInv(AppendEvent(w, kind, user, amount))
  {
    AppendKeepsLog(w, w, kind, user, amount);
  }

  lemma OpenKeepsCore(w: World, now: int)
    requires CoreInv(w) && w.auction.status == Scheduled
    ensures CoreInv(Opened(w, now))
  {
    var a := w.auction;
    if a.rules.cap.Some? { CapReachableIsGrid(a.rules, a.rules.cap.value); }
    var end := now + a.rules.duration;
    var live := w.(auction := a.(status := Active, endAt := Some(end)), endJob := UpsertJob(w.endJob, end));
    AppendKeepsLog(w, live, AuctionStarted, None, None);
  }

  lemma ShortenKeepsCore(w: World, remaining: int, now: int)
    requires CoreInv(w) && Shorten(w, remaining, now).Ok?
    ensures CoreInv(Shorten(w, remaining, now).value)
  {
    var end := now + remaining;
    var moved := w.(auction := w.auction.(endAt := Some(end)), endJob := UpsertJob(w.endJob, end));
    AppendKeepsLog(w, moved, AuctionEndShortened, None, None);
  }

  lemma {:induction false} FindIntentIs(xs: seq<Intent>, user: UserId)
    ensures FindIntent(xs, user).None? ==> forall i :: 0 <= i < |xs| ==> xs[i].user != user
    ensures FindIntent(xs, user).Some? ==>
      FindIntent(xs, user).value < |xs| && xs[FindIntent(xs, user).value].user == user
  {
    if xs != [] { FindIntentIs(xs[..|xs| - 1], user); }
  }

  lemma IntentsKeepCore(w: World, step: Step)
    requires CoreInv(w) && (step.DoPutIntent? || step.DoCancelIntent?) && Try(w, step).Ok?
    ensures CoreInv(Try(w, step).value)
  {
    FindIntentIs(w.intents, step.user);
  }

  lemma RefuseKeepsCore(w: World, user: UserId, key: BidKey, amount: int, code: RejectCode)
    requires CoreInv(w) && w.auction.endAt.Some? && RefuseBid(w, user, key, amount, code).Ok?
    ensures CoreInv(RefuseBid(w, user, key, amount, code).value.0)
  {
    if IsBroadcast(code) {
      NoteKeepsCore(w, BidRejected, Some(user), Some(amount));
      var told := AppendEvent(w, BidRejected, Some(user), Some(amount));
      RejectedRowKeepsCore(told, RejectedRow(user, key, amount, Some(told.auction.seqNo)));
    } else {
      RejectedRowKeepsCore(w, RejectedRow(user, key, amount, None));
    }
  }

  lemma RejectedRowKeepsCore(w: World, row: BidRow)
    requires CoreInv(w) && w.auction.endAt.Some?
    requires !row.accepted && row.source == Manual && !KeyTaken(w.bids, row.user, row.key)
    ensures CoreInv(w.(bids := w.bids + [row]))
  {
    AcceptedAppend(w.bids, row);
  }

  lemma PlacedKeepsCore(w: World, user: UserId, key: BidKey, amount: int, clock: Clock)
    requires CoreInv(w) && w.auction.status == Active && Placed(w, user, key, amount, clock).Ok?
    ensures
      var (taken, result) := Placed(w, user, key, amount, clock).value;
      && CoreInv(taken) && taken.auction.endAt.Some? && taken.auction.status in {Active, Sold}
      && (result == ResultSold <==> taken.auction.status == Sold)
  {
    AcceptKeepsCore(w, TakenRow(user, key, amount, w.auction.seqNo + 1), clock.first, clock.ordered);
    AcceptedRowLaws(w.auction, user, amount, clock.first);
  }

  lemma TakeKeepsCore(w: World, user: UserId, key: BidKey, amount: int, clock: Clock)
    requires CoreInv(w) && w.auction.status == Active && TakeBid(w, user, key, amount, clock).Ok?
    ensures CoreInv(TakeBid(w, user, key, amount, clock).value.0)
    ensures TakeBid(w, user, key, amount, clock).value.0.auction.endAt.Some?
    ensures TakeBid(w, user, key, amount, clock).value.0.auction.status in {Active, Sold}
  {
    PlacedKeepsCore(w, user, key, amount, clock);
    var (taken, result) := Placed(w, user, key, amount, clock).value;
    if result != ResultSold { SettleKeepsCore(taken, result, clock); }
  }

  lemma CompleteKeepsCore(w: World, user: UserId, key: BidKey, amount: int, response: Response)
    requires CoreInv(w)
    ensures CoreInv(Complete(w, user, key, amount, response))
  {
  }

  lemma DecideKeepsCore(w: World, user: UserId, key: BidKey, amount: int, token: string, clock: Clock, skip: bool)
    requires CoreInv(w) && DecideBid(w, user, key, amount, token, clock, skip).Ok?
    ensures CoreInv(DecideBid(w, user, key, amount, token, clock, skip).value.0)
  {
    var response := DecideBid(w, user, key, amount, token, clock, skip).value.1;
    match EvaluateBid(w.auction, user, amount, clock.first, skip)
    case Refuse(code) =>
      RefuseKeepsCore(w, user, key, amount, code);
      CompleteKeepsCore(RefuseBid(w, user, key, amount, code).value.0, user, key, amount, response);
    case AskConfirm =>
      CompleteKeepsCore(w, user, key, amount, response);
    case Take =>
      TakeKeepsCore(w, user, key, amount, clock);
      CompleteKeepsCore(TakeBid(w, user, key, amount, clock).value.0, user, key, amount, response);
  }

  lemma InitiateKeepsCore(w: World, step: Step)
    requires CoreInv(w) && Try(w, step).Ok? && (step.DoInitiateMock? || step.DoInitiateAlipay?)
    ensures CoreInv(Try(w, step).value)
  {
  }

  lemma WebhookKeepsCore(w: World, paymentId: string, valid: bool)
    requires CoreInv(w) && Webhook(w, paymentId, valid).Ok?
    ensures CoreInv(Webhook(w, paymentId, valid).value)
  {
    var o := w.orders[0];
    if o.status != Paid {
      var paid := o.(status := Paid, deposit := Refunded, paymentId := Some(paymentId));
      AppendKeepsLog(w, WithOrder(w, paid), EventKind.OrderPaid, Some(o.winner), Some(o.amount));
    }
  }

  lemma ExpireKeepsCore(w: World, now: int)
    requires CoreInv(w) && ExpireOrder(w, now).Ok?
    ensures CoreInv(ExpireOrder(w, now).value)
  {
    var o := w.orders[0];
    if IsOpen(o) && now >= o.expireAt {
      var lapsed := WithOrder(w, o.(status := OrderLapsed, deposit := Forfeited));
      AppendKeepsLog(w, lapsed, EventKind.OrderExpired, Some(o.winner), None);
    }
  }

  lemma CloseKeepsCore(w: World, now: int)
    requires CoreInv(w) && w.auction.status == Active
    ensures CoreInv(CloseAuction(w, now).(endJob := FinishJob(w.endJob)))
  {
    if w.auction.winner.None? {
      AppendKeepsLog(w, Touch(w, Ended), EventKind.AuctionEnded, None, None);
    } else {
      var winner := w.auction.winner.value;
      var order := NewOrder(winner, w.auction.price, now);
      var sold := Touch(w, Sold).(orders := [order], expireJob := UpsertJob(w.expireJob, order.expireAt));
      AppendKeepsLog(w, sold, EventKind.AuctionSold, Some(winner), Some(w.auction.price));
    }
  }

  lemma EndKeepsCore(w: World, now: int)
    requires CoreInv(w) && EndAuction(w, now).Ok?
    ensures CoreInv(EndAuction(w, now).value)
  {
    if w.auction.status == Active && now >= w.auction.endAt.value {
      CloseKeepsCore(w, now);
      assert CloseAuction(w, now).endJob == w.endJob;
    }
  }

  /** Claiming and failing a timer. */
  lemma JobStepKeepsCore(w: World, step: Step)
    requires CoreInv(w) && (step.DoClaimEnd? || step.DoFailEnd? || step.DoClaimExpire? || step.DoFailExpire?)
    ensures CoreInv(Next(w, step))
  {
    var next := Next(w, step);
    JobStepKeepsTimers(w, step);
    TimersKeepCore(w, next.endJob, next.expireJob);
  }

  lemma JobStepKeepsTimers(w: World, step: Step)
    requires step.DoClaimEnd? || step.DoFailEnd? || step.DoClaimExpire? || step.DoFailExpire?
    ensures
      var next := Next(w, step);
      && next == w.(endJob := next.endJob, expireJob := next.expireJob)
      && SameTimer(w.endJob, next.endJob) && SameTimer(w.expireJob, next.expireJob)
  {
  }

  /** The same deadline, and not newly finished. */
  predicate SameTimer(before: Option<Job>, after: Option<Job>) {
    if before.None? || after.None? then before == after
    else
      && after.value.runAt == before.value.runAt
      && (after.value.status == JobSucceeded ==> before.value.status == JobSucceeded)
  }

  lemma TimersKeepCore(w: World, endJob: Option<Job>, expireJob: Option<Job>)
    requires CoreInv(w) && SameTimer(w.endJob, endJob) && SameTimer(w.expireJob, expireJob)
    ensures CoreInv(w.(endJob := endJob, expireJob := expireJob))
  {
  }

  lemma BidStepKeepsCore(w: World, step: Step)
    requires CoreInv(w) && IsBid(step)
    ensures CoreInv(Next(w, step))
  {
    if Try(w, step).Ok? {
      BidReplaysOrDecides(w, step);
      if BidDecision(w, step).Ok? {
        DecideKeepsCore(w, step.user, step.key, BidAmount(w, step),
          if step.DoConfirm? then "" else step.token, step.clock, step.DoConfirm?);
      }
    }
  }

  predicate IsLifecycle(step: Step) {
    || step.DoUpdateRules? || step.DoSchedule? || step.DoUnschedule? || step.DoStart? || step.DoCancel?
    || step.DoShorten? || step.DoNarrateStart? || step.DoNarrateStop?
  }

  lemma LifecycleKeepsCore(w: World, step: Step)
    requires CoreInv(w) && IsLifecycle(step) && Try(w, step).Ok?
    ensures CoreInv(Next(w, step))
  {
    match step
    case DoUpdateRules(rules) => UpdateRulesKeepsCore(w, rules);
    case DoSchedule => TouchKeepsCore(w, Scheduled, AuctionScheduled);
    case DoUnschedule => TouchKeepsCore(w, Draft, AuctionUnscheduled);
    case DoStart(clock, _) =>
      OpenKeepsCore(w, clock.first);
      SettleKeepsCore(Opened(w, clock.first), ResultAccepted, clock);
    case DoCancel => TouchKeepsCore(w, Cancelled, EventKind.AuctionCancelled);
    case DoShorten(remaining, now) => ShortenKeepsCore(w, remaining, now);
    case DoNarrateStart(_, _) => NoteKeepsCore(w, NarrateStarted, None, None);
    case DoNarrateStop => NoteKeepsCore(w, NarrateStopped, None, None);
  }

  /** Every committed transaction keeps the invariant. */
  lemma StepKeepsCore(w: World, step: Step)
    requires CoreInv(w)
    ensures CoreInv(Next(w, step))
  {
    if IsBid(step) {
      BidStepKeepsCore(w, step);
    } else if Try(w, step).Ok? {
      if IsLifecycle(step) {
        LifecycleKeepsCore(w, step);
      } else {
        RestKeepsCore(w, step);
      }
    }
  }

  /** Intents, payments and the scheduler. */
  lemma RestKeepsCore(w: World, step: Step)
    requires CoreInv(w) && !IsBid(step) && !IsLifecycle(step) && Try(w, step).Ok?
    ensures CoreInv(Next(w, step))
  {
    match step
    case DoPutIntent(_, _, _, _) => IntentsKeepCore(w, step);
    case DoCancelIntent(_) => IntentsKeepCore(w, step);
    case DoEnd(now) => EndKeepsCore(w, now);
    case DoWebhook(paymentId, valid) => WebhookKeepsCore(w, paymentId, valid);
    case DoExpire(now) => ExpireKeepsCore(w, now);
    case DoInitiateMock(_, _, _) => InitiateKeepsCore(w, step);
    case DoInitiateAlipay(_) => InitiateKeepsCore(w, step);
    case _ => JobStepKeepsCore(w, step);
  }

  lemma {:induction false} RunKeepsCore(w: World, steps: seq<Step>)
    requires CoreInv(w)
    ensures CoreInv(Run(w, steps))
    decreases |steps|
  {
    if steps != [] {
      StepKeepsCore(w, steps[0]);
      RunKeepsCore(Next(w, steps[0]), steps[1..]);
    }
  }
}
