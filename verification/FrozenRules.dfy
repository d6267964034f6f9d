/** When a start or an acceptable bid fails all the same: exactly when two bounds meet beside the grid or a bid row
    already holds an automatic bid's key. Neither happens as long as the rules are not edited under live maximum bids
    and callers do not use keys of the automatic form. */
module FrozenRules {
  import opened Wrappers
  import opened BidRules
  import opened AuctionState
  import opened Settlement
  import opened SettlementLaws
  import opened Transactions
  import opened Invariants
  import opened Idempotency
  import opened MachineLaws

  // ---- Exactly when they fail -------------------------------------------------------------

  /** A start fails exactly when another auction of the room is active or the two highest bounds meet beside the grid. */
  lemma StartFailsExactly(w: World, clock: Clock, roomFree: bool)
    requires CoreInv(w) && w.auction.status == Scheduled
    ensures Start(w, clock, roomFree).Err? <==> !roomFree || OpeningClash(w.auction.rules, w.intents)
  {
    var live := Opened(w, clock.first);
    OpenKeepsCore(w, clock.first);
    SettleFailsExactly(live, ResultAccepted, clock);
    OpeningClashIs(live.auction, w.intents);
  }

  /** With nobody in the lead the two bounds that decide are the two highest. */
  lemma OpeningClashIs(a: Auction, xs: seq<Intent>)
    requires LiveRow(a) && a.winner.None? && DistinctIntents(xs)
    ensures Clash(a, xs) <==> OpeningClash(a.rules, xs)
  {
    LeaderIntentIs(xs, None);
    var top := BestRival(xs, None);
    if top.Some? {
      BestRivalIsBest(xs, None);
      BestRivalIsBest(xs, Some(top.value.user));
      var second := BestRival(xs, Some(top.value.user));
      if second.Some? { ChallengerLeads(xs, None, top.value, second.value); }
    }
  }

  /** The two highest active bounds of an auction nobody leads, and where they would meet. */
  predicate OpeningClash(rules: RuleColumns, xs: seq<Intent>) {
    var top := BestRival(xs, None);
    top.Some?
    && var second := BestRival(xs, Some(top.value.user));
       && second.Some? && second.value.max >= rules.start + 2 * rules.increment
       && rules.cap != Some(rules.start + rules.increment)
       && !SameGrid(CapAt(rules, Min(second.value.max + rules.increment, top.value.max)), rules.start, rules.increment)
  }

  lemma SettleFailsExactly(w: World, last: BidResult, clock: Clock)
    requires Settleable(w)
    ensures Settle(w, last, clock).Err? <==>
      Clash(w.auction, w.intents) || AnyTaken(w.bids, DueKeys(w.auction, w.intents))
  {
    AwardsOutcome(w, last, clock);
    BlockedByDueKeys(w.bids, w.auction, w.intents);
    ClashIsOffGrid(w.auction, w.intents);
  }

  lemma PlacedFailsExactly(w: World, user: UserId, key: BidKey, amount: int, clock: Clock)
    requires CoreInv(w) && w.auction.status == Active && Classify(w.auction, amount) in {Accepted, AcceptedSold}
    ensures Placed(w, user, key, amount, clock).Err? <==> KeyTaken(w.bids, user, key)
    ensures Placed(w, user, key, amount, clock).Ok? ==>
      var (taken, result) := Placed(w, user, key, amount, clock).value;
      && taken.bids == w.bids + [TakenRow(user, key, amount, w.auction.seqNo + 1)]
      && taken.auction == AcceptedRow(w.auction, user, amount, clock.first).0.(seqNo := w.auction.seqNo + 1)
      && taken.intents == w.intents
      && (result == ResultSold <==> w.auction.rules.cap == Some(amount))
      && (result != ResultSold ==> Settleable(taken))
  {
    AcceptedRowLaws(w.auction, user, amount, clock.first);
  }

  /** An acceptable bid fails exactly when its own key is used, or, unless it sells the auction, when the two bounds
      that decide after it meet beside the grid, or a bid row holds one of the keys then due. */
  lemma TakeFailsExactly(w: World, user: UserId, key: BidKey, amount: int, clock: Clock)
    requires CoreInv(w) && w.auction.status == Active && Classify(w.auction, amount) in {Accepted, AcceptedSold}
    ensures TakeBid(w, user, key, amount, clock).Err? <==>
      || KeyTaken(w.bids, user, key)
      || (w.auction.rules.cap != Some(amount) && BidClash(w, user, key, amount, clock))
  {
    PlacedFailsExactly(w, user, key, amount, clock);
    if Placed(w, user, key, amount, clock).Ok? {
      var (taken, result) := Placed(w, user, key, amount, clock).value;
      if result != ResultSold { SettleFailsExactly(taken, result, clock); }
    }
  }

  ghost predicate BidClash(w: World, user: UserId, key: BidKey, amount: int, clock: Clock)
    requires w.auction.endAt.Some?
  {
    var led := LedRow(w.auction, user, amount, clock);
    var bids := w.bids + [TakenRow(user, key, amount, led.seqNo)];
    Clash(led, w.intents) || AnyTaken(bids, DueKeys(led, w.intents))
  }

  // ---- Runs that keep clear of it -----------------------------------------------------------

  /** The rules change only while no maximum bid is standing, and no caller's key has the automatic form. */
  predicate KeepsClear(w: World, step: Step) {
    && (step.DoUpdateRules? ==> forall i :: 0 <= i < |w.intents| ==> w.intents[i].status != IntentActive)
    && (IsBid(step) ==> step.key.Plain?)
  }

  predicate ClearRun(w: World, steps: seq<Step>)
    decreases |steps|
  {
    steps == [] || (KeepsClear(w, steps[0]) && ClearRun(Next(w, steps[0]), steps[1..]))
  }

  /** Keys of the automatic form carry only numbers already passed. */
  ghost predicate FutureFree(bids: seq<BidRow>, seqNo: nat) {
    forall i :: 0 <= i < |bids| && bids[i].key.AutoForm? ==> bids[i].key.atSeq <= seqNo
  }

  /** The bounds are aligned and the keys of bids to come are free. */
  ghost predicate IsClear(w: World) {
    AlignedIntents(w.auction, w.intents) && FutureFree(w.bids, w.auction.seqNo)
  }

  lemma MarksStayAligned(a: Auction, b: Auction, xs: seq<Intent>, ys: seq<Intent>)
    requires AlignedIntents(a, xs) && SameOwners(xs, ys) && b.rules == a.rules
    requires forall i :: 0 <= i < |xs| && ys[i].status == IntentActive ==> xs[i].status == IntentActive
    ensures AlignedIntents(b, ys)
  {
    forall i | 0 <= i < |ys| && ys[i].status == IntentActive ensures AlignedBound(b, ys[i].max) {
      assert AlignedBound(a, xs[i].max);
    }
  }

  lemma AwardStaysClear(w: World, award: Award, clock: Clock)
    requires IsClear(w) && ApplyAward(w, award, clock).Ok?
    ensures IsClear(ApplyAward(w, award, clock).value.0)
  {
    var at := w.auction.seqNo + 1;
    AwardEffect(w, award, clock);
    AwardShape(w, award, clock);
    MarkedKeepsOwners(w.intents, award, at);
    MarksStayAligned(w.auction, ApplyAward(w, award, clock).value.0.auction, w.intents, Marked(w.intents, award, at));
  }

  /** A clear settlement succeeds and stays clear. */
  lemma {:induction false} SettleStaysClear(w: World, last: BidResult, clock: Clock)
    requires CoreInv(w) && IsClear(w)
    requires w.auction.status == Sold || (w.auction.status == Active && w.orders == [])
    ensures Settle(w, last, clock).Ok? && IsClear(Settle(w, last, clock).value.0)
    decreases |Awards(w.auction, w.intents)|
  {
    var awards := Awards(w.auction, w.intents);
    if awards == [] {
      MarksStayAligned(w.auction, w.auction, w.intents, CloseIntents(w).intents);
    } else {
      SettlementIsSealedBid(w, last, clock);
      var (next, result) := ApplyAward(w, awards[0], clock).value;
      AwardsUnfold(w, clock);
      AwardKeepsCore(w, awards[0], clock);
      AwardStaysClear(w, awards[0], clock);
      SettleStaysClear(next, result, clock);
    }
  }

  /** A bound the endpoint accepts is on the grid and within the cap. */
  lemma AcceptedBoundIsAligned(a: Auction, max: int)
    requires PriceOnGrid(a) && Classify(a, max) in {Accepted, AcceptedSold}
    ensures AlignedBound(a, max)
  {
    var n, base := a.rules.increment, PreviousPrice(a);
    GridShift(a.rules.start, a.rules.start, n);
    GridJoin(max, base, a.rules.start, n);
  }

  lemma PlacedStaysClear(w: World, user: UserId, key: BidKey, amount: int, clock: Clock)
    requires CoreInv(w) && IsClear(w) && key.Plain? && w.auction.status == Active && Placed(w, user, key, amount, clock).Ok?
    ensures IsClear(Placed(w, user, key, amount, clock).value.0)
    ensures
      var (taken, result) := Placed(w, user, key, amount, clock).value;
      result != ResultSold ==> taken.orders == []
  {
    var taken := Placed(w, user, key, amount, clock).value.0;
    MarksStayAligned(w.auction, taken.auction, w.intents, taken.intents);
  }

  /** An acceptable bid under an unused plain key is taken, settlement included. */
  lemma TakeStaysClear(w: World, user: UserId, key: BidKey, amount: int, clock: Clock)
    requires CoreInv(w) && IsClear(w) && key.Plain? && !KeyTaken(w.bids, user, key)
    requires w.auction.status == Active && Classify(w.auction, amount) in {Accepted, AcceptedSold}
    ensures TakeBid(w, user, key, amount, clock).Ok? && IsClear(TakeBid(w, user, key, amount, clock).value.0)
  {
    AcceptedRowLaws(w.auction, user, amount, clock.first);
    PlacedKeepsCore(w, user, key, amount, clock);
    PlacedStaysClear(w, user, key, amount, clock);
    var (taken, result) := Placed(w, user, key, amount, clock).value;
    if result != ResultSold { SettleStaysClear(taken, result, clock); }
  }

  lemma RefuseStaysClear(w: World, user: UserId, key: BidKey, amount: int, code: RejectCode)
    requires IsClear(w) && key.Plain? && w.auction.endAt.Some? && RefuseBid(w, user, key, amount, code).Ok?
    ensures IsClear(RefuseBid(w, user, key, amount, code).value.0)
  {
    var next := RefuseBid(w, user, key, amount, code).value.0;
    MarksStayAligned(w.auction, next.auction, w.intents, next.intents);
  }

  lemma DecideStaysClear(w: World, user: UserId, key: BidKey, amount: int, token: string, clock: Clock, skip: bool)
    requires CoreInv(w) && IsClear(w) && key.Plain? && DecideBid(w, user, key, amount, token, clock, skip).Ok?
    ensures IsClear(DecideBid(w, user, key, amount, token, clock, skip).value.0)
  {
    match EvaluateBid(w.auction, user, amount, clock.first, skip)
    case Refuse(code) => RefuseStaysClear(w, user, key, amount, code);
    case AskConfirm =>
    case Take => TakeStaysClear(w, user, key, amount, clock);
  }

  lemma StartStaysClear(w: World, clock: Clock)
    requires CoreInv(w) && IsClear(w) && w.auction.status == Scheduled
    ensures Start(w, clock, true).Ok? && IsClear(Start(w, clock, true).value)
  {
    var live := Opened(w, clock.first);
    OpenKeepsCore(w, clock.first);
    MarksStayAligned(w.auction, live.auction, w.intents, live.intents);
    SettleStaysClear(live, ResultAccepted, clock);
  }

  lemma IntentStepStaysClear(w: World, step: Step)
    requires CoreInv(w) && IsClear(w) && (step.DoPutIntent? || step.DoCancelIntent?) && Try(w, step).Ok?
    ensures IsClear(Next(w, step))
  {
    FindIntentIs(w.intents, step.user);
    if step.DoPutIntent? { AcceptedBoundIsAligned(w.auction, step.max); }
    var xs, ys := w.intents, Next(w, step).intents;
    forall i | 0 <= i < |ys| && ys[i].status == IntentActive ensures AlignedBound(w.auction, ys[i].max) {
      if i < |xs| && ys[i] == xs[i] { assert AlignedBound(w.auction, xs[i].max); }
    }
  }

  lemma OtherStepLeavesIntents(w: World, step: Step)
    requires !IsBid(step) && !step.DoStart? && !step.DoPutIntent? && !step.DoCancelIntent?
    ensures Next(w, step).intents == w.intents
    ensures !step.DoUpdateRules? ==> Next(w, step).auction.rules == w.auction.rules
  {
  }

  lemma StepStaysClear(w: World, step: Step)
    requires CoreInv(w) && IsClear(w) && KeepsClear(w, step)
    ensures IsClear(Next(w, step))
  {
    if Try(w, step).Ok? {
      if IsBid(step) {
        BidReplaysOrDecides(w, step);
        if BidDecision(w, step).Ok? {
          DecideStaysClear(w, step.user, step.key, BidAmount(w, step),
            if step.DoConfirm? then "" else step.token, step.clock, step.DoConfirm?);
        }
      } else if step.DoStart? {
        StartStaysClear(w, step.clock);
      } else if step.DoPutIntent? || step.DoCancelIntent? {
        IntentStepStaysClear(w, step);
      } else {
        OtherStepLeavesIntents(w, step);
        OtherStepsLeaveKeys(w, step);
        SeqGrows(w, step);
      }
    }
  }

  lemma {:induction false} ClearRunStaysClear(w: World, steps: seq<Step>)
    requires CoreInv(w) && IsClear(w) && ClearRun(w, steps)
    ensures IsClear(Run(w, steps))
    decreases |steps|
  {
    if steps != [] {
      StepKeepsCore(w, steps[0]);
      StepStaysClear(w, steps[0]);
      ClearRunStaysClear(Next(w, steps[0]), steps[1..]);
    }
  }

  // ---- The service that follows ---------------------------------------------------------------

  /** What a clear state can do: start whenever the room is free, and take every acceptable bid whose key is plain
      and not yet decided. */
  ghost predicate Serves(w: World, user: UserId, key: BidKey, amount: int, clock: Clock) {
    && (w.auction.status == Scheduled ==> Start(w, clock, true).Ok?)
    && (w.auction.status == Active ==>
          && w.auction.endAt.Some?
          && Classify(w.auction, NextAmount(w.auction)) in {Accepted, AcceptedSold}
          && (w.auction.rules.cap.Some? ==> w.auction.price < w.auction.rules.cap.value)
          && (EvaluateBid(w.auction, user, amount, clock.first, true) == Take
              && key.Plain? && !((user, key) in w.records && IsFinal(w.records[(user, key)]))
              ==> TakeBid(w, user, key, amount, clock).Ok?))
  }

  /** A plain key is used only by the decided bid that owns it. */
  lemma PlainKeyIsFree(w: World, user: UserId, key: BidKey)
    requires BidInv(w.bids, w.auction) && KeyInv(w) && key.Plain?
    requires !((user, key) in w.records && IsFinal(w.records[(user, key)]))
    ensures !KeyTaken(w.bids, user, key)
  {
    if KeyTaken(w.bids, user, key) {
      var i: nat :| i < |w.bids| && w.bids[i].user == user && w.bids[i].key == key;
      ManualRowCounts(w.bids, user, key, i);
    }
  }

  lemma ClearStateServes(w: World, user: UserId, key: BidKey, amount: int, clock: Clock)
    requires CoreInv(w) && KeyInv(w) && IsClear(w)
    ensures Serves(w, user, key, amount, clock)
  {
    if w.auction.status == Scheduled { StartStaysClear(w, clock); }
    if w.auction.status == Active {
      NextAmountIsLegal(w.auction);
      if EvaluateBid(w.auction, user, amount, clock.first, true) == Take && key.Plain?
         && !((user, key) in w.records && IsFinal(w.records[(user, key)])) {
        PlainKeyIsFree(w, user, key);
        TakeStaysClear(w, user, key, amount, clock);
      }
    }
  }

  /** As long as the rules are not edited under live maximum bids and no caller's key has the automatic form, neither
      a start nor an acceptable bid is ever lost to the settlement, and while the auction is active a legal next bid
      exists. */
  lemma SettlementNeverFails(rules: Rules, steps: seq<Step>, user: UserId, key: BidKey, amount: int, clock: Clock)
    requires CreateAuction(rules).Ok? && ClearRun(CreateAuction(rules).value, steps)
    ensures Serves(Run(CreateAuction(rules).value, steps), user, key, amount, clock)
  {
    var created := CreateAuction(rules).value;
    CreateEstablishesCore(rules);
    RunKeepsCore(created, steps);
    RunKeepsKeys(created, steps);
    ClearRunStaysClear(created, steps);
    ClearStateServes(Run(created, steps), user, key, amount, clock);
  }
}
