/** What the auction machine guarantees beyond the P0 checks: a started auction only moves forward, orders end once,
    and the end timer is kept. */
module MachineLaws {
  import opened Wrappers
  import opened BidRules
  import opened AuctionState
  import opened Settlement
  import opened SettlementLaws
  import opened Transactions
  import opened Invariants

  // ---- Forward motion ---------------------------------------------------------------

  /** How a started auction may change: rules fixed, price and count rising, final status final, and no more
      extensions than accepted bids. */
  ghost predicate Forward(a: Auction, b: Auction) {
    && a.endAt.Some? && b.endAt.Some?
    && b.rules == a.rules
    && b.acceptedCount >= a.acceptedCount && b.price >= a.price && PreviousPrice(b) >= PreviousPrice(a)
    && b.seqNo >= a.seqNo
    && (IsTerminal(a.status) ==> b.status == a.status)
    && 0 <= b.extendCount - a.extendCount <= b.acceptedCount - a.acceptedCount
  }

  /** Bids never bring the end forward. */
  ghost predicate NoEarlier(a: Auction, b: Auction) {
    a.endAt.Some? && b.endAt.Some? && b.endAt.value >= a.endAt.value
  }

  lemma AcceptMovesForward(a: Auction, user: UserId, amount: int, now: int)
    requires RowInv(a) && a.status == Active && Classify(a, amount) in {Accepted, AcceptedSold}
    ensures
      var row := AcceptedRow(a, user, amount, now).0;
      Forward(a, row) && NoEarlier(a, row)
  {
    AcceptedRowLaws(a, user, amount, now);
  }

  lemma AwardMovesForward(w: World, award: Award, clock: Clock)
    requires CoreInv(w) && w.auction.status == Active && ApplyAward(w, award, clock).Ok?
    ensures
      var b := ApplyAward(w, award, clock).value.0.auction;
      Forward(w.auction, b) && NoEarlier(w.auction, b) && b.acceptedCount == w.auction.acceptedCount + 1
  {
    AwardEffect(w, award, clock);
    AcceptMovesForward(w.auction, award.user, award.amount, AutoTime(clock, w.auction.seqNo + 1));
  }

  lemma ForwardJoins(a: Auction, b: Auction, c: Auction)
    requires Forward(a, b) && NoEarlier(a, b) && Forward(b, c) && NoEarlier(b, c)
    ensures Forward(a, c) && NoEarlier(a, c)
  {
  }

  lemma {:induction false} SettleMovesForward(w: World, last: BidResult, clock: Clock)
    requires CoreInv(w) && w.auction.status in {Active, Sold} && w.auction.endAt.Some? && Settle(w, last, clock).Ok?
    ensures
      var final := Settle(w, last, clock).value.0.auction;
      && Forward(w.auction, final) && NoEarlier(w.auction, final)
      && final.acceptedCount == w.auction.acceptedCount + |Awards(w.auction, w.intents)|
    decreases |Awards(w.auction, w.intents)|
  {
    var awards := Awards(w.auction, w.intents);
    if awards != [] {
      var (next, result) := ApplyAward(w, awards[0], clock).value;
      AwardsUnfold(w, clock);
      AwardKeepsCore(w, awards[0], clock);
      AwardMovesForward(w, awards[0], clock);
      assert Settle(w, last, clock) == Settle(next, result, clock);
      SettleMovesForward(next, result, clock);
      ForwardJoins(w.auction, next.auction, Settle(next, result, clock).value.0.auction);
    }
  }

  lemma AtMostTwoAwards(a: Auction, xs: seq<Intent>)
    ensures |Awards(a, xs)| <= 2
  {
  }

  lemma TakeMovesForward(w: World, user: UserId, key: BidKey, amount: int, clock: Clock)
    requires CoreInv(w) && w.auction.status == Active && TakeBid(w, user, key, amount, clock).Ok?
    ensures
      var final := TakeBid(w, user, key, amount, clock).value.0.auction;
      Forward(w.auction, final) && NoEarlier(w.auction, final) && final.acceptedCount <= w.auction.acceptedCount + 3
  {
    var (taken, result) := Placed(w, user, key, amount, clock).value;
    PlacedKeepsCore(w, user, key, amount, clock);
    AcceptMovesForward(w.auction, user, amount, clock.first);
    if result != ResultSold {
      SettleMovesForward(taken, result, clock);
      AtMostTwoAwards(taken.auction, taken.intents);
    }
  }

  lemma DecideMovesForward(w: World, user: UserId, key: BidKey, amount: int, token: string, clock: Clock, skip: bool)
    requires CoreInv(w) && DecideBid(w, user, key, amount, token, clock, skip).Ok?
    ensures
      var final := DecideBid(w, user, key, amount, token, clock, skip).value.0.auction;
      Forward(w.auction, final) && NoEarlier(w.auction, final) && final.acceptedCount <= w.auction.acceptedCount + 3
  {
    if EvaluateBid(w.auction, user, amount, clock.first, skip).Take? {
      TakeMovesForward(w, user, key, amount, clock);
    }
  }

  lemma BidMovesForward(w: World, step: Step)
    requires CoreInv(w) && w.auction.endAt.Some? && IsBid(step)
    ensures
      var next := Next(w, step).auction;
      Forward(w.auction, next) && NoEarlier(w.auction, next) && next.acceptedCount <= w.auction.acceptedCount + 3
  {
    if Try(w, step).Ok? {
      BidReplaysOrDecides(w, step);
      if BidDecision(w, step).Ok? {
        DecideMovesForward(w, step.user, step.key, BidAmount(w, step),
          if step.DoConfirm? then "" else step.token, step.clock, step.DoConfirm?);
      }
    }
  }

  /** No bids, and the end no later. */
  ghost predicate NoBids(a: Auction, b: Auction) {
    && a.endAt.Some? && b.endAt.Some? && b.endAt.value <= a.endAt.value
    && b.rules == a.rules && b.extendCount == a.extendCount
    && b.acceptedCount == a.acceptedCount && b.price == a.price && b.seqNo >= a.seqNo
    && (IsTerminal(a.status) ==> b.status == a.status)
  }

  lemma OtherStepLeavesBids(w: World, step: Step)
    requires CoreInv(w) && w.auction.endAt.Some? && !IsBid(step)
    ensures NoBids(w.auction, Next(w, step).auction)
  {
    if IsLifecycle(step) { LifecycleLeavesBids(w, step); }
  }

  lemma LifecycleLeavesBids(w: World, step: Step)
    requires CoreInv(w) && w.auction.endAt.Some? && IsLifecycle(step)
    ensures NoBids(w.auction, Next(w, step).auction)
  {
  }

  lemma NoBidsIsForward(a: Auction, b: Auction)
    requires NoBids(a, b)
    ensures Forward(a, b)
  {
  }

  /** A started auction only moves forward; only a bid, with at most two automatic ones behind it, moves the count, and
      a bid never brings the end forward. */
  lemma StepMovesForward(w: World, step: Step)
    requires CoreInv(w) && w.auction.endAt.Some?
    ensures
      var next := Next(w, step).auction;
      && Forward(w.auction, next)
      && next.acceptedCount <= w.auction.acceptedCount + (if IsBid(step) then 3 else 0)
      && (IsBid(step) ==> NoEarlier(w.auction, next))
      && (!IsBid(step) ==> next.endAt.value <= w.auction.endAt.value)
  {
    if IsBid(step) {
      BidMovesForward(w, step);
    } else {
      OtherStepLeavesBids(w, step);
      NoBidsIsForward(w.auction, Next(w, step).auction);
    }
  }

  lemma {:induction false} RunMovesForward(w: World, steps: seq<Step>)
    requires CoreInv(w) && w.auction.endAt.Some?
    ensures Forward(w.auction, Run(w, steps).auction)
    decreases |steps|
  {
    if steps != [] {
      StepKeepsCore(w, steps[0]);
      StepMovesForward(w, steps[0]);
      RunMovesForward(Next(w, steps[0]), steps[1..]);
    }
  }

  lemma StartMovesForward(w: World, clock: Clock)
    requires CoreInv(w) && Start(w, clock, true).Ok?
    ensures
      var a := Start(w, clock, true).value.auction;
      Forward(Opened(w, clock.first).auction, a) && NoEarlier(Opened(w, clock.first).auction, a)
  {
    OpenKeepsCore(w, clock.first);
    SettleMovesForward(Opened(w, clock.first), ResultAccepted, clock);
  }

  // ---- The sequence number ------------------------------------------------------------

  lemma UnstartedSeqGrows(w: World, step: Step)
    requires CoreInv(w) && w.auction.endAt.None? && !IsBid(step) && !step.DoStart?
    ensures Next(w, step).auction.seqNo >= w.auction.seqNo
  {
  }

  lemma SeqGrows(w: World, step: Step)
    requires CoreInv(w)
    ensures Next(w, step).auction.seqNo >= w.auction.seqNo
  {
    if w.auction.endAt.Some? {
      StepMovesForward(w, step);
    } else if IsBid(step) {
      if Try(w, step).Ok? { BidReplaysOrDecides(w, step); }
    } else if step.DoStart? {
      if Start(w, step.clock, step.roomFree).Ok? {
        StartMovesForward(w, step.clock);
      }
    } else {
      UnstartedSeqGrows(w, step);
    }
  }

  // ---- Orders -----------------------------------------------------------------------

  /** How an order may change: it keeps its terms and its payment id, and PAID and ORDER_EXPIRED are final. */
  ghost predicate OrderMoves(before: seq<Order>, after: seq<Order>) {
    before != [] ==>
      && |after| == 1
      && after[0].winner == before[0].winner && after[0].amount == before[0].amount
      && after[0].expireAt == before[0].expireAt
      && (before[0].paymentId.Some? ==> after[0].paymentId == before[0].paymentId)
      && (!IsOpen(before[0]) ==> after[0] == before[0])
  }

  lemma BidLeavesOrder(w: World, step: Step)
    requires CoreInv(w) && w.orders != [] && IsBid(step)
    ensures Next(w, step).orders == w.orders
  {
    if Try(w, step).Ok? { BidReplaysOrDecides(w, step); }
  }

  lemma StartLeavesOrder(w: World, step: Step)
    requires CoreInv(w) && w.orders != [] && step.DoStart?
    ensures Next(w, step) == w
  {
  }

  predicate IsPayment(step: Step) {
    step.DoInitiateMock? || step.DoInitiateAlipay? || step.DoWebhook?
  }

  /** The steps that look at the order. */
  predicate ActsOnOrder(step: Step) {
    IsPayment(step) || step.DoEnd? || step.DoExpire?
  }

  lemma QuietStepLeavesOrder(w: World, step: Step)
    requires !IsBid(step) && !step.DoStart? && !ActsOnOrder(step)
    ensures Next(w, step).orders == w.orders
  {
  }

  lemma PaymentMovesOrder(w: World, step: Step)
    requires |w.orders| == 1 && IsPayment(step)
    ensures OrderMoves(w.orders, Next(w, step).orders)
    ensures IsOpen(w.orders[0]) && Next(w, step).orders[0].status == Paid ==> step.DoWebhook? && step.signatureValid
    ensures IsOpen(w.orders[0]) ==> Next(w, step).orders[0].status != OrderLapsed
  {
  }

  /** Closing an auction that has an order leaves the order as it is. */
  lemma EndLeavesOrder(w: World, now: int)
    requires |w.orders| == 1
    ensures Next(w, DoEnd(now)).orders == w.orders
  {
  }

  lemma ExpiryMovesOrder(w: World, now: int)
    requires |w.orders| == 1
    ensures OrderMoves(w.orders, Next(w, DoExpire(now)).orders)
    ensures IsOpen(w.orders[0]) ==> Next(w, DoExpire(now)).orders[0].status != Paid
    ensures IsOpen(w.orders[0]) && Next(w, DoExpire(now)).orders[0].status == OrderLapsed ==> now >= w.orders[0].expireAt
  {
  }

  lemma OtherStepMovesOrder(w: World, step: Step)
    requires CoreInv(w) && w.orders != [] && !IsBid(step) && !step.DoStart?
    ensures OrderMoves(w.orders, Next(w, step).orders)
    ensures IsOpen(w.orders[0]) && Next(w, step).orders[0].status == Paid ==> step.DoWebhook? && step.signatureValid
    ensures IsOpen(w.orders[0]) && Next(w, step).orders[0].status == OrderLapsed ==>
      step.DoExpire? && step.now >= w.orders[0].expireAt
  {
    if IsPayment(step) {
      PaymentMovesOrder(w, step);
    } else if step.DoEnd? {
      EndLeavesOrder(w, step.now);
    } else if step.DoExpire? {
      ExpiryMovesOrder(w, step.now);
    } else {
      QuietStepLeavesOrder(w, step);
    }
  }

  lemma StepMovesOrder(w: World, step: Step)
    requires CoreInv(w)
    ensures OrderMoves(w.orders, Next(w, step).orders)
    ensures w.orders != [] && IsOpen(w.orders[0]) && Next(w, step).orders[0].status == Paid ==>
      step.DoWebhook? && step.signatureValid
    ensures w.orders != [] && IsOpen(w.orders[0]) && Next(w, step).orders[0].status == OrderLapsed ==>
      step.DoExpire? && step.now >= w.orders[0].expireAt
  {
    if w.orders == [] {
    } else if IsBid(step) {
      BidLeavesOrder(w, step);
    } else if step.DoStart? {
      StartLeavesOrder(w, step);
    } else {
      OtherStepMovesOrder(w, step);
    }
  }

  lemma {:induction false} RunMovesOrder(w: World, steps: seq<Step>)
    requires CoreInv(w)
    ensures OrderMoves(w.orders, Run(w, steps).orders)
    decreases |steps|
  {
    if steps != [] {
      StepKeepsCore(w, steps[0]);
      StepMovesOrder(w, steps[0]);
      RunMovesOrder(Next(w, steps[0]), steps[1..]);
    }
  }

  ghost predicate OrderTold(w: World) {
    && |w.orders| <= 1
    && CountKind(w.events, EventKind.OrderPaid) == Indicator(w.orders != [] && w.orders[0].status == Paid)
    && CountKind(w.events, EventKind.OrderExpired) == Indicator(w.orders != [] && w.orders[0].status == OrderLapsed)
    && (w.orders != [] ==>
          && (w.orders[0].deposit == Held <==> IsOpen(w.orders[0]))
          && (w.orders[0].deposit == Refunded <==> w.orders[0].status == Paid)
          && (w.orders[0].deposit == Forfeited <==> w.orders[0].status == OrderLapsed))
  }

  lemma CoreTellsOrder(w: World)
    requires CoreInv(w)
    ensures OrderTold(w)
  {
    assert IsTracked(EventKind.OrderPaid) && IsTracked(EventKind.OrderExpired);
  }

  /** In every reachable state the order, its deposit and its events tell the same story. */
  lemma OrderStory(rules: Rules, steps: seq<Step>)
    requires CreateAuction(rules).Ok?
    ensures OrderTold(Run(CreateAuction(rules).value, steps))
  {
    CreateEstablishesCore(rules);
    RunKeepsCore(CreateAuction(rules).value, steps);
    CoreTellsOrder(Run(CreateAuction(rules).value, steps));
  }

  // ---- The end timer ----------------------------------------------------------------

  /** No step ends an auction early: it sells at its cap, or the scheduler closes it at or after its end. */
  lemma EndsOnTime(w: World, step: Step)
    requires CoreInv(w) && w.auction.status == Active
    ensures Next(w, step).auction.status == Ended ==> step.DoEnd? && step.now >= w.auction.endAt.value
    ensures Next(w, step).auction.status == Sold ==>
      || (step.DoEnd? && step.now >= w.auction.endAt.value)
      || (IsBid(step) && w.auction.rules.cap == Some(Next(w, step).auction.price))
  {
    if Try(w, step).Ok? && IsBid(step) {
      StepKeepsCore(w, step);
      BidEndsAtCap(w, step);
    }
  }

  lemma TakeEndsAtCap(w: World, user: UserId, key: BidKey, amount: int, clock: Clock)
    requires CoreInv(w) && w.auction.status == Active && TakeBid(w, user, key, amount, clock).Ok?
    ensures
      var final := TakeBid(w, user, key, amount, clock).value.0.auction;
      && final.status in {Active, Sold}
      && (final.status == Sold ==> w.auction.rules.cap == Some(final.price))
  {
    var (taken, result) := Placed(w, user, key, amount, clock).value;
    PlacedKeepsCore(w, user, key, amount, clock);
    AcceptedRowLaws(w.auction, user, amount, clock.first);
    if result != ResultSold { AwardsOutcome(taken, result, clock); }
  }

  lemma DecideEndsAtCap(w: World, user: UserId, key: BidKey, amount: int, token: string, clock: Clock, skip: bool)
    requires CoreInv(w) && w.auction.status == Active && DecideBid(w, user, key, amount, token, clock, skip).Ok?
    ensures
      var final := DecideBid(w, user, key, amount, token, clock, skip).value.0.auction;
      final.status in {Active, Sold} && (final.status == Sold ==> w.auction.rules.cap == Some(final.price))
  {
    if EvaluateBid(w.auction, user, amount, clock.first, skip).Take? { TakeEndsAtCap(w, user, key, amount, clock); }
  }

  lemma BidEndsAtCap(w: World, step: Step)
    requires CoreInv(w) && w.auction.status == Active && IsBid(step)
    ensures
      var final := Next(w, step).auction;
      final.status in {Active, Sold} && (final.status == Sold ==> w.auction.rules.cap == Some(final.price))
  {
    if Try(w, step).Ok? {
      BidReplaysOrDecides(w, step);
      if BidDecision(w, step).Ok? {
        DecideEndsAtCap(w, step.user, step.key, BidAmount(w, step),
          if step.DoConfirm? then "" else step.token, step.clock, step.DoConfirm?);
      }
    }
  }

  /** The timer is not lost: while it has not died of failed attempts, a worker that comes at or after the end,
      once the back-off and any lock have passed, claims it and closes the auction. */
  lemma TimerEndsAuction(w: World, now: int)
    requires CoreInv(w) && w.auction.status == Active
    requires w.endJob.Some? ==> w.endJob.value.status != JobDead && w.endJob.value.nextAttemptAt <= now
    requires w.endJob.Some? && w.endJob.value.status == JobRunning ==>
      w.endJob.value.lockedUntil.Some? && w.endJob.value.lockedUntil.value <= now
    requires now >= w.auction.endAt.value
    ensures w.endJob.Some? && Claimable(w.endJob.value, now)
    ensures
      var closed := Run(w, [DoClaimEnd(now), DoEnd(now)]);
      && closed.auction.status == (if w.auction.winner.Some? then Sold else Ended)
      && closed.endJob.Some? && closed.endJob.value.status == JobSucceeded
      && (w.auction.winner.Some? ==> closed.orders == [NewOrder(w.auction.winner.value, w.auction.price, now)])
  {
    TwoSteps(w, DoClaimEnd(now), DoEnd(now));
  }

  lemma {:induction false} RunExtends(w: World, steps: seq<Step>, last: Step)
    ensures Run(w, steps + [last]) == Next(Run(w, steps), last)
    decreases |steps|
  {
    if steps == [] {
      assert [last][1..] == [] && Run(Next(w, last), []) == Next(w, last);
    } else {
      assert (steps + [last])[0] == steps[0] && (steps + [last])[1..] == steps[1..] + [last];
      RunExtends(Next(w, steps[0]), steps[1..], last);
    }
  }

  lemma TwoSteps(w: World, first: Step, second: Step)
    ensures Run(w, [first, second]) == Next(Next(w, first), second)
  {
    assert [first, second][1..] == [second] && [second][1..] == [];
    var mid := Next(w, first);
    assert Run(mid, [second]) == Run(Next(mid, second), []);
  }

  /** In every reachable state: an active auction has an end timer due no later than its end and not finished. */
  lemma TimerStory(rules: Rules, steps: seq<Step>)
    requires CreateAuction(rules).Ok?
    ensures
      var w := Run(CreateAuction(rules).value, steps);
      && (w.auction.status == Active ==> w.auction.endAt.Some? && Armed(w.endJob, w.auction.endAt.value))
      && (w.endJob.Some? && w.endJob.value.status == JobSucceeded ==> w.auction.status != Active)
      && (w.orders != [] && IsOpen(w.orders[0]) ==> Armed(w.expireJob, w.orders[0].expireAt))
  {
    CreateEstablishesCore(rules);
    RunKeepsCore(CreateAuction(rules).value, steps);
  }
}
