/** What every transaction but a bid does, in the columns of the rows: how the status moves, which event is told, and what
    the host's, the bidder's and the payment's calls demand and change. */
module StepLaws {
  import opened Wrappers
  import opened BidRules
  import opened AuctionState
  import opened Settlement
  import opened SettlementLaws
  import opened Transactions
  import opened Invariants
  import opened MachineLaws
  import Answers
  import OpenKeys

  // ---- The status ---------------------------------------------------------------------------

  predicate IsFinalStatus(status: Status) {
    status == Sold || status == Ended || status == Cancelled
  }

  /** Every way a status can change. */
  predicate MayMove(step: Step, before: Status, after: Status) {
    || (step.DoSchedule? && before == Draft && after == Scheduled)
    || (step.DoUnschedule? && before == Scheduled && after == Draft)
    || (step.DoStart? && before == Scheduled && (after == Active || after == Sold))
    || (step.DoCancel? && !IsFinalStatus(before) && after == Cancelled)
    || (IsBid(step) && before == Active && after == Sold)
    || (step.DoEnd? && before == Active && (after == Sold || after == Ended))
  }

  /** The steps that move it whenever they may. */
  function MustMove(w: World, step: Step): Option<Status> {
    match step
    case DoSchedule => if w.auction.status == Draft then Some(Scheduled) else None
    case DoUnschedule => if w.auction.status == Scheduled then Some(Draft) else None
    case DoCancel => if IsFinalStatus(w.auction.status) then None else Some(Cancelled)
    case DoEnd(now) =>
      if w.auction.status == Active && w.auction.endAt.Some? && now >= w.auction.endAt.value
      then Some(if w.auction.winner.Some? then Sold else Ended) else None
    case _ => None
  }

  lemma StatusMovesExactly(w: World, step: Step)
    requires CoreInv(w)
    ensures
      var before, after := w.auction.status, Next(w, step).auction.status;
      && (after != before ==> MayMove(step, before, after))
      && (MustMove(w, step).Some? ==> after == MustMove(w, step).value)
  {
    if IsBid(step) {
      if w.auction.status == Active {
        BidEndsAtCap(w, step);
      } else if Try(w, step).Ok? {
        BidReplaysOrDecides(w, step);
      }
    } else if step.DoStart? {
      if Try(w, step).Ok? {
        OpenKeepsCore(w, step.clock.first);
        SettleKeepsCore(Opened(w, step.clock.first), ResultAccepted, step.clock);
      }
    } else {
      OtherStatusMoves(w, step);
    }
  }

  lemma OtherStatusMoves(w: World, step: Step)
    requires CoreInv(w) && !IsBid(step) && !step.DoStart?
    ensures
      var before, after := w.auction.status, Next(w, step).auction.status;
      && (after != before ==> MayMove(step, before, after))
      && (MustMove(w, step).Some? ==> after == MustMove(w, step).value)
  {
  }

  // ---- The events ---------------------------------------------------------------------------

  /** The event a step tells, bids and starts aside: its kind, and the user and amount it names. */
  function Told(w: World, step: Step): Option<(EventKind, Option<UserId>, Option<int>)> {
    var a := w.auction;
    match step
    case DoUpdateRules(rules) =>
      if a.status == Draft && ValidateRule(rules) == [] then Some((RulesUpdated, None, None)) else None
    case DoSchedule => if a.status == Draft then Some((AuctionScheduled, None, None)) else None
    case DoUnschedule => if a.status == Scheduled then Some((AuctionUnscheduled, None, None)) else None
    case DoCancel => if IsFinalStatus(a.status) then None else Some((EventKind.AuctionCancelled, None, None))
    case DoShorten(remaining, now) =>
      if a.status == Active && a.endAt.Some? && 5 <= remaining <= 120 && now + remaining < a.endAt.value
      then Some((AuctionEndShortened, None, None)) else None
    case DoNarrateStart(roomFree, voiceFree) =>
      if !IsFinalStatus(a.status) && roomFree && voiceFree then Some((NarrateStarted, None, None)) else None
    case DoNarrateStop => Some((NarrateStopped, None, None))
    case DoWebhook(paymentId, valid) =>
      if valid && paymentId != "" && w.orders != [] && w.orders[0].status in {OrderPending, PaymentInitiated}
         && (w.orders[0].paymentId == None || w.orders[0].paymentId == Some(paymentId))
      then Some((EventKind.OrderPaid, Some(w.orders[0].winner), Some(w.orders[0].amount))) else None
    case DoEnd(now) =>
      if a.status == Active && a.endAt.Some? && a.endAt.value <= now then
        if a.winner.Some? then Some((EventKind.AuctionSold, a.winner, Some(a.price)))
        else Some((EventKind.AuctionEnded, None, None))
      else None
    case DoExpire(now) =>
      if w.orders != [] && w.orders[0].status in {OrderPending, PaymentInitiated} && w.orders[0].expireAt <= now
      then Some((EventKind.OrderExpired, Some(w.orders[0].winner), None)) else None
    case _ => None
  }

  /** Exactly the event due is appended, to the log and the outbox alike, under the next number. */
  lemma StepTellsExactly(w: World, step: Step)
    requires CoreInv(w) && !IsBid(step) && !step.DoStart?
    ensures TellsExactly(w, step, Next(w, step))
  {
    if IsLifecycle(step) {
      LifecycleTells(w, step);
    } else if step.DoEnd? {
      EndTells(w, step);
    } else if step.DoWebhook? || step.DoExpire? {
      OrderStepTells(w, step);
    } else {
      SilentStepTells(w, step);
    }
  }

  ghost predicate TellsExactly(w: World, step: Step, next: World) {
    var told := Told(w, step);
    if told.None? then next.events == w.events && next.outbox == w.outbox && next.auction.seqNo == w.auction.seqNo
    else
      var e := Event(w.auction.seqNo + 1, told.value.0, told.value.1, told.value.2);
      next.events == w.events + [e] && next.outbox == w.outbox + [e] && next.auction.seqNo == w.auction.seqNo + 1
  }

  lemma LifecycleTells(w: World, step: Step)
    requires CoreInv(w) && IsLifecycle(step) && !step.DoStart?
    ensures TellsExactly(w, step, Next(w, step))
  {
    if step.DoUpdateRules? { ValidateRuleExact(step.newRules); }
  }

  lemma EndTells(w: World, step: Step)
    requires CoreInv(w) && step.DoEnd?
    ensures TellsExactly(w, step, Next(w, step))
  {
  }

  lemma OrderStepTells(w: World, step: Step)
    requires CoreInv(w) && (step.DoWebhook? || step.DoExpire?)
    ensures TellsExactly(w, step, Next(w, step))
  {
  }

  lemma SilentStepTells(w: World, step: Step)
    requires !IsBid(step) && !IsLifecycle(step) && !(step.DoWebhook? || step.DoEnd? || step.DoExpire?)
    ensures TellsExactly(w, step, Next(w, step))
  {
  }

  // ---- The host -----------------------------------------------------------------------------

  /** Which of the auction's columns a step other than a bid or a start may touch. */
  lemma StepTouches(w: World, step: Step)
    requires CoreInv(w) && !IsBid(step) && !step.DoStart?
    ensures Touches(w, step, Next(w, step))
  {
    if IsLifecycle(step) {
      LifecycleTouches(w, step);
    } else if step.DoEnd? {
      EndTouches(w, step);
    } else if step.DoWebhook? || step.DoExpire? {
      OrderStepTouches(w, step);
    } else {
      SilentStepTouches(w, step);
    }
  }

  ghost predicate Touches(w: World, step: Step, next: World) {
    var a, b := w.auction, next.auction;
    && (a.rules != b.rules || a.price != b.price ==>
          step.DoUpdateRules? && a.status == Draft && b.rules == step.newRules && b.price == step.newRules.start)
    && (a.endAt != b.endAt ==>
          && step.DoShorten? && b.endAt == Some(step.now + step.remaining)
          && a.endAt.Some? && b.endAt.value < a.endAt.value)
    && a.winner == b.winner && a.acceptedCount == b.acceptedCount && a.extendCount == b.extendCount
    && next.bids == w.bids && next.records == w.records
    && (next.intents != w.intents ==> step.DoPutIntent? || step.DoCancelIntent?)
  }

  lemma EndTouches(w: World, step: Step)
    requires step.DoEnd?
    ensures Touches(w, step, Next(w, step))
  {
  }

  lemma OrderStepTouches(w: World, step: Step)
    requires step.DoWebhook? || step.DoExpire?
    ensures Touches(w, step, Next(w, step))
  {
  }

  lemma SilentStepTouches(w: World, step: Step)
    requires !IsBid(step) && !IsLifecycle(step) && !(step.DoWebhook? || step.DoEnd? || step.DoExpire?)
    ensures Touches(w, step, Next(w, step))
  {
  }

  lemma LifecycleTouches(w: World, step: Step)
    requires CoreInv(w) && IsLifecycle(step) && !step.DoStart?
    ensures Touches(w, step, Next(w, step))
  {
  }

  /** Exactly sound rules make an auction and change a draft. */
  lemma RulesAreTakenExactly(w: World, rules: Rules)
    requires CoreInv(w)
    ensures CreateAuction(rules).Ok? <==> SoundRules(rules)
    ensures UpdateRules(w, rules).Ok? <==> w.auction.status == Draft && SoundRules(rules)
    ensures UpdateRules(w, rules).Ok? ==>
      UpdateRules(w, rules).value.auction.rules == rules && UpdateRules(w, rules).value.auction.price == rules.start
    ensures UpdateRules(w, rules).Err? ==>
      UpdateRules(w, rules).error == if w.auction.status != Draft then RuleFrozen else InvalidArgument
  {
    ValidateRuleExact(rules);
  }

  /** A new auction is a draft at its starting price, with nothing but the event of its creation. */
  lemma CreationWrites(rules: Rules)
    requires SoundRules(rules)
    ensures
      var r, e := CreateAuction(rules), Event(1, AuctionCreated, None, None);
      && r.Ok? && r.value.auction == Auction(Draft, rules, rules.start, None, 0, None, 0, 1)
      && r.value.events == r.value.outbox == [e]
      && r.value.intents == [] && r.value.bids == [] && r.value.orders == [] && r.value.records == map[]
      && r.value.endJob == r.value.expireJob == None
  {
    ValidateRuleExact(rules);
  }

  lemma HostCallsExactly(w: World, remaining: int, now: int)
    requires CoreInv(w)
    ensures Shorten(w, remaining, now).Ok? <==>
      5 <= remaining <= 120 && w.auction.status == Active && now + remaining < w.auction.endAt.value
    ensures Shorten(w, remaining, now).Ok? ==> Shorten(w, remaining, now).value.auction.endAt == Some(now + remaining)
    ensures Shorten(w, remaining, now).Err? ==>
      Shorten(w, remaining, now).error
      == (if remaining < 5 || remaining > 120 then InvalidArgument
          else if w.auction.endAt.None? then ConstraintViolation else StatusConflict)
    ensures Schedule(w).Err? ==> Schedule(w).error == RuleFrozen
    ensures Unschedule(w).Err? ==> Unschedule(w).error == StatusConflict
    ensures Cancel(w).Err? ==> Cancel(w).error == InvalidArgument
  {
  }

  /** What was written behind the opening, with the opening's own event. */
  lemma OpeningWrote(w: World, now: int, next: World, rows: seq<BidRow>)
    requires CoreInv(w) && w.auction.status == Scheduled && Answers.Wrote(Opened(w, now), next, rows)
    ensures w.bids == [] && next.bids == rows && next.records == w.records
    ensures
      next.events
      == w.events + [Event(w.auction.seqNo + 1, AuctionStarted, None, None)] + Answers.EventsFor(rows, w.auction.rules.cap)
    ensures next.auction.seqNo == w.auction.seqNo + 1 + |rows| && next.auction.acceptedCount == |rows|
    ensures forall i :: 0 <= i < |rows| ==> rows[i].accepted && rows[i].seqNo == Some(w.auction.seqNo + 2 + i)
  {
    assert [] + rows == rows;
  }

  /** A start without automatic bids leaves the opened row. */
  lemma QuietStart(w: World, clock: Clock)
    requires CoreInv(w) && Start(w, clock, true).Ok? && Awards(Opened(w, clock.first).auction, w.intents) == []
    ensures Start(w, clock, true).value.auction == Opened(w, clock.first).auction
  {
  }

  /** A start tells of itself first, sets the end, and then writes what the settlement's automatic bids write. */
  lemma StartWrites(w: World, clock: Clock)
    requires CoreInv(w) && Start(w, clock, true).Ok?
    ensures
      var next, e := Start(w, clock, true).value, Event(w.auction.seqNo + 1, AuctionStarted, None, None);
      var rows := next.bids;
      && w.auction.status == Scheduled
      && next.events == w.events + [e] + Answers.EventsFor(rows, w.auction.rules.cap)
      && next.auction.seqNo == w.auction.seqNo + 1 + |rows| && next.auction.acceptedCount == |rows|
      && (rows == [] ==>
            next.auction.endAt == Some(clock.first + w.auction.rules.duration) && next.auction.status == Active)
      && next.records == w.records
      && forall i :: 0 <= i < |rows| ==> rows[i].accepted && rows[i].seqNo == Some(w.auction.seqNo + 2 + i)
  {
    var live, next := Opened(w, clock.first), Start(w, clock, true).value;
    var rows := OpenKeys.AwardRows(Awards(live.auction, live.intents), live.auction.seqNo);
    OpenKeepsCore(w, clock.first);
    Answers.SettleWrote(live, ResultAccepted, clock);
    OpeningWrote(w, clock.first, next, rows);
    if rows == [] {
      assert Awards(live.auction, live.intents) == [];
      QuietStart(w, clock);
    }
  }

  // ---- The bidder's bounds ------------------------------------------------------------------

  ghost predicate IsOwn(xs: seq<Intent>, i: int, user: UserId) {
    0 <= i < |xs| && xs[i].user == user
  }

  /** A bound put again keeps its row: id, age and number stay, so an older bidder stays older; a new bound is a new row at
      the end. Nobody else's row changes. */
  lemma PutKeepsAge(w: World, user: UserId, max: int, id: IntentId, now: int)
    requires CoreInv(w) && PutIntent(w, user, max, id, now).Ok?
    ensures
      var xs, ys := w.intents, PutIntent(w, user, max, id, now).value.intents;
      && (forall i :: IsOwn(xs, i, user) ==>
            && |ys| == |xs|
            && ys[i] == Intent(xs[i].id, user, max, xs[i].createdAt, IntentActive, xs[i].lastAppliedSeq)
            && forall j :: 0 <= j < |xs| && j != i ==> ys[j] == xs[j])
      && ((forall i :: 0 <= i < |xs| ==> !IsOwn(xs, i, user)) ==>
            ys == xs + [Intent(id, user, max, now, IntentActive, None)])
  {
    FindIntentIs(w.intents, user);
  }

  /** A bound is taken exactly on a scheduled or active auction, as a bid of that amount would be, and new ids are new. */
  lemma PutIsTakenExactly(w: World, user: UserId, max: int, id: IntentId, now: int)
    requires CoreInv(w)
    ensures PutIntent(w, user, max, id, now).Ok? <==>
      && user != "" && max > 0 && w.auction.status in {Scheduled, Active}
      && (w.auction.rules.cap.Some? ==> max <= w.auction.rules.cap.value)
      && max - Answers.BasePrice(w.auction) >= w.auction.rules.increment
      && (max - Answers.BasePrice(w.auction)) % w.auction.rules.increment == 0
      && ((exists i :: IsOwn(w.intents, i, user)) || forall i :: 0 <= i < |w.intents| ==> w.intents[i].id != id)
  {
    FindIntentIs(w.intents, user);
    var found := FindIntent(w.intents, user);
    if found.Some? { assert IsOwn(w.intents, found.value, user); }
    assert (exists i :: IsOwn(w.intents, i, user)) <==> found.Some?;
    BoundClass(w.auction, max);
  }

  lemma BoundClass(a: Auction, max: int)
    ensures Classify(a, max) in {Accepted, AcceptedSold} <==>
      && (a.rules.cap.Some? ==> max <= a.rules.cap.value)
      && max - Answers.BasePrice(a) >= a.rules.increment
      && (max - Answers.BasePrice(a)) % a.rules.increment == 0
  {
  }

  /** Cancelling ends an active bound, leaves any other row of the user as it is, and fails without one. */
  lemma CancelEndsBound(w: World, user: UserId, i: int)
    requires CoreInv(w)
    ensures IsOwn(w.intents, i, user) ==>
      && CancelIntent(w, user).Ok?
      && var status := if w.intents[i].status == IntentActive then IntentCancelled else w.intents[i].status;
         CancelIntent(w, user).value == w.(intents := w.intents[i := w.intents[i].(status := status)])
    ensures (forall j :: 0 <= j < |w.intents| ==> !IsOwn(w.intents, j, user)) ==> CancelIntent(w, user) == Err(NotFound)
  {
    FindIntentIs(w.intents, user);
    if IsOwn(w.intents, i, user) {
      var found := FindIntent(w.intents, user);
      assert found.Some?;
      OnlyOwn(w.intents, i, found.value);
      assert w.intents[i := w.intents[i].(status := w.intents[i].status)] == w.intents;
    } else if FindIntent(w.intents, user).Some? {
      assert IsOwn(w.intents, FindIntent(w.intents, user).value, user);
    }
  }

  lemma OnlyOwn(xs: seq<Intent>, i: int, j: int)
    requires DistinctIntents(xs) && 0 <= i < |xs| && 0 <= j < |xs| && xs[i].user == xs[j].user
    ensures i == j
  {
  }

  // ---- The order ----------------------------------------------------------------------------

  predicate IsUnpaid(o: Order) {
    o.status == OrderPending || o.status == PaymentInitiated
  }

  /** Only the winner initiates a mock payment, of an order that has not lapsed, and for a first payment id only when the
      books agree; the id is given once. */
  lemma MockIsInitiatedExactly(w: World, user: UserId, newId: string, converged: bool)
    requires CoreInv(w) && w.orders != []
    ensures
      var o, r := w.orders[0], InitiateMock(w, user, newId, converged);
      && (r.Ok? <==> user == o.winner && o.status != OrderLapsed && (o.status == Paid || o.paymentId.Some? || converged))
      && (r.Ok? ==>
            var id := if o.paymentId.Some? then o.paymentId else Some(newId);
            r.value.orders == [if IsUnpaid(o) then o.(status := PaymentInitiated, paymentId := id) else o])
      && (r.Err? ==>
            r.error
            == if user != o.winner then Forbidden else if o.status == OrderLapsed then AlreadyExpired else RetryLater)
  {
  }

  lemma AlipayIsInitiatedExactly(w: World, paymentId: string)
    requires CoreInv(w) && w.orders != []
    ensures
      var o, r := w.orders[0], InitiateAlipay(w, paymentId);
      && (r.Ok? <==> o.status != OrderLapsed && (o.paymentId == None || o.paymentId == Some(paymentId)))
      && (r.Ok? ==>
            r.value.orders == [if IsUnpaid(o) then o.(status := PaymentInitiated, paymentId := Some(paymentId)) else o])
      && (r.Err? ==>
            r.error == if o.paymentId.Some? && o.paymentId.value != paymentId then InvalidArgument else AlreadyExpired)
  {
  }

  /** A webhook is taken exactly with a valid signature and the order's own payment id, if it has one, before the order
      lapses; it pays an unpaid order and leaves a paid one. */
  lemma WebhookIsTakenExactly(w: World, paymentId: string, valid: bool)
    requires CoreInv(w) && w.orders != []
    ensures
      var o, r := w.orders[0], Webhook(w, paymentId, valid);
      && (r.Ok? <==>
            valid && paymentId != "" && o.status != OrderLapsed && (o.paymentId == None || o.paymentId == Some(paymentId)))
      && (r.Ok? ==>
            r.value.orders
            == [if IsUnpaid(o) then o.(status := Paid, deposit := Refunded, paymentId := Some(paymentId)) else o])
      && (r.Err? && valid && paymentId != "" && (o.paymentId == None || o.paymentId == Some(paymentId)) ==>
            r.error == AlreadyExpired)
  {
  }

  /** Without an order no payment call does anything. */
  lemma NothingToPay(w: World, user: UserId, id: string, flag: bool)
    requires w.orders == []
    ensures InitiateMock(w, user, id, flag) == Err(NotFound) && InitiateAlipay(w, id) == Err(NotFound)
    ensures Webhook(w, id, flag).Err?
  {
  }

  /** The order a closing auction opens: the winner's, at the final price, unpaid and with the deposit held. */
  lemma ClosingOpensOrder(w: World, now: int)
    requires CoreInv(w) && w.auction.status == Active && w.auction.winner.Some? && EndAuction(w, now).Ok?
    requires now >= w.auction.endAt.value
    ensures EndAuction(w, now).value.orders
      == [Order(w.auction.winner.value, w.auction.price, OrderPending, Held, now + 900, None)]
  {
  }

  /** The order of a bid that sells at the cap. */
  lemma SellingOpensOrder(w: World, user: UserId, key: BidKey, amount: int, clock: Clock)
    requires CoreInv(w) && w.auction.status == Active && w.auction.rules.cap == Some(amount)
    requires TakeBid(w, user, key, amount, clock).Ok?
    ensures TakeBid(w, user, key, amount, clock).value.0.orders
      == [Order(user, amount, OrderPending, Held, clock.ordered + 900, None)]
  {
  }

  /** An expiry that is due forfeits the deposit of an unpaid order and touches no other column of it. */
  lemma ExpiryLapsesExactly(w: World, now: int)
    requires CoreInv(w) && w.orders != []
    ensures ExpireOrder(w, now).Ok? <==> w.expireJob.Some?
    ensures ExpireOrder(w, now).Ok? ==>
      var o := w.orders[0];
      ExpireOrder(w, now).value.orders
      == [if IsUnpaid(o) && now >= o.expireAt then o.(status := OrderLapsed, deposit := Forfeited) else o]
  {
  }
}
