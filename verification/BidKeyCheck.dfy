/** The repository's P0 check on bid idempotency: a decided record has its bid row, and any bid row under a record's key
    is the row of that very request. An automatic bid row has a request hash of its own, so it never is. */
module BidKeyCheck {
  import opened BidRules
  import opened AuctionState
  import opened Settlement
  import opened Transactions
  import opened Invariants
  import opened Idempotency

  ghost predicate HasRow(bids: seq<BidRow>, user: UserId, key: BidKey) {
    exists i :: 0 <= i < |bids| && bids[i].user == user && bids[i].key == key
  }

  ghost predicate BidIdempotencyConsistent(w: World) {
    forall user, key :: (user, key) in w.records ==>
      var r := w.records[(user, key)];
      && (r.status == Completed ==> r.response.Some?)
      && (r.status == Completed && IsFinal(r) ==> HasRow(w.bids, user, key))
      && (forall i :: 0 <= i < |w.bids| && w.bids[i].user == user && w.bids[i].key == key ==>
            w.bids[i].source == Manual && w.bids[i].amount == r.hash)
  }

  /** Every manual row is the row of its key's decided record. */
  ghost predicate RowsAgree(w: World) {
    forall i :: 0 <= i < |w.bids| && w.bids[i].source == Manual ==>
      var k := (w.bids[i].user, w.bids[i].key);
      k in w.records && w.records[k].hash == w.bids[i].amount
  }

  /** A record that waits for its confirmation. */
  predicate IsOpenAsk(r: Record) {
    r.response.Some? && r.response.value.ConfirmRequired?
  }

  predicate OpenAt(records: map<(UserId, BidKey), Record>, key: (UserId, BidKey)) {
    key in records && IsOpenAsk(records[key])
  }

  /** No automatic row lies under the key of an open confirmation. */
  ghost predicate RowsUnasked(bids: seq<BidRow>, records: map<(UserId, BidKey), Record>) {
    forall i :: 0 <= i < |bids| && bids[i].source == AutoMaxBid ==> !OpenAt(records, (bids[i].user, bids[i].key))
  }

  lemma {:induction false} CountFindsRow(bids: seq<BidRow>, user: UserId, key: BidKey) returns (i: nat)
    requires ManualRows(bids, user, key) > 0
    ensures i < |bids| && IsManual(bids[i], user, key)
  {
    i := |bids| - 1;
    if !IsManual(bids[i], user, key) { i := CountFindsRow(bids[..i], user, key); }
  }

  /** A decided record owns the one row under its key, so that row is not automatic. */
  lemma DecidedKeyIsManual(w: World, user: UserId, key: BidKey, j: nat)
    requires BidInv(w.bids, w.auction) && KeyInv(w) && (user, key) in w.records && IsFinal(w.records[(user, key)])
    requires j < |w.bids| && w.bids[j].user == user && w.bids[j].key == key
    ensures w.bids[j].source == Manual
  {
    assert ManualRows(w.bids, user, key) == 1;
    var i := CountFindsRow(w.bids, user, key);
  }

  /** The check passes exactly when no automatic bid lies under the key of an open confirmation: the rows and amounts of
      decided records are right whatever happens. */
  lemma CheckPassesExactly(w: World)
    requires CoreInv(w) && KeyInv(w) && RowsAgree(w)
    ensures BidIdempotencyConsistent(w) <==> RowsUnasked(w.bids, w.records)
  {
    forall user, key | (user, key) in w.records && IsFinal(w.records[(user, key)]) ensures HasRow(w.bids, user, key) {
      assert ManualRows(w.bids, user, key) == 1;
      var i := CountFindsRow(w.bids, user, key);
    }
    if RowsUnasked(w.bids, w.records) { UnaskedPasses(w); }
  }

  lemma UnaskedPasses(w: World)
    requires CoreInv(w) && KeyInv(w) && RowsAgree(w) && RowsUnasked(w.bids, w.records)
    ensures forall i :: 0 <= i < |w.bids| && (w.bids[i].user, w.bids[i].key) in w.records ==> w.bids[i].source == Manual
  {
    forall i | 0 <= i < |w.bids| && (w.bids[i].user, w.bids[i].key) in w.records ensures w.bids[i].source == Manual {
      var user, key := w.bids[i].user, w.bids[i].key;
      assert IsSettled(w.records[(user, key)]);
      if IsFinal(w.records[(user, key)]) { DecidedKeyIsManual(w, user, key, i); }
    }
  }

  // ---- Manual rows and records stay together ----------------------------------------------------

  /** The only manual rows added are of this request. */
  ghost predicate AddsOnly(before: seq<BidRow>, after: seq<BidRow>, user: UserId, key: BidKey, amount: int) {
    forall i :: 0 <= i < |after| && after[i].source == Manual ==>
      (i < |before| && after[i] == before[i]) || (after[i].user == user && after[i].key == key && after[i].amount == amount)
  }

  lemma {:induction false} AwardsAddNoManual(w: World, awards: seq<Award>, last: BidResult, clock: Clock)
    requires ApplyAwards(w, awards, last, clock).Ok?
    ensures
      var after := ApplyAwards(w, awards, last, clock).value.0.bids;
      w.bids <= after && forall i :: |w.bids| <= i < |after| ==> after[i].source == AutoMaxBid
    decreases |awards|
  {
    if awards != [] {
      var (next, result) := ApplyAward(w, awards[0], clock).value;
      AwardsAddNoManual(next, awards[1..], result, clock);
    }
  }

  lemma TakeAddsOnly(w: World, user: UserId, key: BidKey, amount: int, clock: Clock)
    requires TakeBid(w, user, key, amount, clock).Ok?
    ensures AddsOnly(w.bids, TakeBid(w, user, key, amount, clock).value.0.bids, user, key, amount)
  {
    var (taken, result) := Placed(w, user, key, amount, clock).value;
    if result != ResultSold { AwardsAddNoManual(taken, Awards(taken.auction, taken.intents), result, clock); }
  }

  lemma CompleteKeepsAgreement(w: World, mid: World, user: UserId, key: BidKey, amount: int, response: Response)
    requires RowsAgree(w) && AddsOnly(w.bids, mid.bids, user, key, amount) && mid.records == w.records
    requires (user, key) in w.records ==> w.records[(user, key)].hash == amount
    ensures RowsAgree(Complete(mid, user, key, amount, response))
  {
  }

  lemma DecideKeepsAgreement(w: World, user: UserId, key: BidKey, amount: int, token: string, clock: Clock, skip: bool)
    requires RowsAgree(w) && DecideBid(w, user, key, amount, token, clock, skip).Ok?
    requires (user, key) in w.records ==> w.records[(user, key)].hash == amount
    ensures RowsAgree(DecideBid(w, user, key, amount, token, clock, skip).value.0)
  {
    var response := DecideBid(w, user, key, amount, token, clock, skip).value.1;
    match EvaluateBid(w.auction, user, amount, clock.first, skip)
    case Refuse(code) =>
      CompleteKeepsAgreement(w, RefuseBid(w, user, key, amount, code).value.0, user, key, amount, response);
    case AskConfirm =>
      CompleteKeepsAgreement(w, w, user, key, amount, response);
    case Take =>
      TakeAddsOnly(w, user, key, amount, clock);
      TakeAddsOneRow(w, user, key, amount, clock);
      CompleteKeepsAgreement(w, TakeBid(w, user, key, amount, clock).value.0, user, key, amount, response);
  }

  lemma StepKeepsAgreement(w: World, step: Step)
    requires RowsAgree(w)
    ensures RowsAgree(Next(w, step))
  {
    if Try(w, step).Ok? {
      match step
      case DoPlace(user, key, amount, token, clock) =>
        if (user, key) !in w.records { DecideKeepsAgreement(w, user, key, amount, token, clock, false); }
      case DoPlaceTx(user, key, amount, token, clock) => DecideKeepsAgreement(w, user, key, amount, token, clock, false);
      case DoConfirm(user, key, token, clock) =>
        var response := w.records[(user, key)].response.value;
        if response.ConfirmRequired? { DecideKeepsAgreement(w, user, key, response.amount, "", clock, true); }
      case DoStart(clock, _) =>
        var live := Opened(w, clock.first);
        AwardsAddNoManual(live, Awards(live.auction, live.intents), ResultAccepted, clock);
        AwardsLeaveKeys(live, Awards(live.auction, live.intents), ResultAccepted, clock);
      case _ => OtherStepsLeaveKeys(w, step);
    }
  }

  lemma {:induction false} RunKeepsAgreement(w: World, steps: seq<Step>)
    requires RowsAgree(w)
    ensures RowsAgree(Run(w, steps))
    decreases |steps|
  {
    if steps != [] {
      StepKeepsAgreement(w, steps[0]);
      RunKeepsAgreement(Next(w, steps[0]), steps[1..]);
    }
  }

  lemma ReachableFits(rules: Rules, steps: seq<Step>)
    requires CreateAuction(rules).Ok?
    ensures
      var w := Run(CreateAuction(rules).value, steps);
      CoreInv(w) && KeyInv(w) && RowsAgree(w)
  {
    CreateEstablishesCore(rules);
    RunKeepsCore(CreateAuction(rules).value, steps);
    RunKeepsKeys(CreateAuction(rules).value, steps);
    RunKeepsAgreement(CreateAuction(rules).value, steps);
  }

  /** In every reachable state the check passes exactly when no automatic bid lies under the key of an open
      confirmation. */
  lemma ReachableCheckExactly(rules: Rules, steps: seq<Step>)
    requires CreateAuction(rules).Ok?
    ensures
      var w := Run(CreateAuction(rules).value, steps);
      BidIdempotencyConsistent(w) <==> RowsUnasked(w.bids, w.records)
  {
    ReachableFits(rules, steps);
    CheckPassesExactly(Run(CreateAuction(rules).value, steps));
  }

  // ---- Plain keys keep the two apart --------------------------------------------------------------

  ghost predicate PlainRecords(records: map<(UserId, BidKey), Record>) {
    forall user, key :: (user, key) in records ==> key.Plain?
  }

  predicate PlainKeys(steps: seq<Step>) {
    forall i :: 0 <= i < |steps| && IsBid(steps[i]) ==> steps[i].key.Plain?
  }

  lemma StepKeepsPlainRecords(w: World, step: Step)
    requires PlainRecords(w.records) && (IsBid(step) ==> step.key.Plain?)
    ensures PlainRecords(Next(w, step).records)
  {
    if Try(w, step).Ok? {
      if IsBid(step) {
        BidWritesItsRecord(w, step);
      } else if step.DoStart? {
        var live := Opened(w, step.clock.first);
        AwardsLeaveKeys(live, Awards(live.auction, live.intents), ResultAccepted, step.clock);
      } else {
        OtherStepsLeaveKeys(w, step);
      }
    }
  }

  /** A bidding step writes no record but its own. */
  lemma BidWritesItsRecord(w: World, step: Step)
    requires IsBid(step) && Try(w, step).Ok?
    ensures forall k :: k in Next(w, step).records ==> k in w.records || k == (step.user, step.key)
  {
    BidReplaysOrDecides(w, step);
    if BidDecision(w, step).Ok? {
      var amount := BidAmount(w, step);
      if EvaluateBid(w.auction, step.user, amount, step.clock.first, step.DoConfirm?).Take? {
        TakeAddsOneRow(w, step.user, step.key, amount, step.clock);
      }
    }
  }

  lemma {:induction false} RunKeepsPlainRecords(w: World, steps: seq<Step>)
    requires PlainRecords(w.records) && PlainKeys(steps)
    ensures PlainRecords(Run(w, steps).records)
    decreases |steps|
  {
    if steps != [] {
      StepKeepsPlainRecords(w, steps[0]);
      RunKeepsPlainRecords(Next(w, steps[0]), steps[1..]);
    }
  }

  /** As long as callers use plain keys, every reachable state passes the check. */
  lemma PlainKeysPassCheck(rules: Rules, steps: seq<Step>)
    requires CreateAuction(rules).Ok? && PlainKeys(steps)
    ensures BidIdempotencyConsistent(Run(CreateAuction(rules).value, steps))
  {
    ReachableFits(rules, steps);
    RunKeepsPlainRecords(CreateAuction(rules).value, steps);
    ReachableCheckExactly(rules, steps);
    PlainRowsAreUnasked(Run(CreateAuction(rules).value, steps));
  }

  lemma PlainRowsAreUnasked(w: World)
    requires BidInv(w.bids, w.auction) && PlainRecords(w.records)
    ensures RowsUnasked(w.bids, w.records)
  {
  }
}
