/** One effect per idempotency key, over any run of first attempts, retries, races and confirmations. */
module Idempotency {
  import opened Wrappers
  import opened BidRules
  import opened AuctionState
  import opened Settlement
  import opened Transactions
  import opened Invariants

  predicate IsManual(b: BidRow, user: UserId, key: BidKey) {
    b.user == user && b.key == key && b.source == Manual
  }

  function ManualRows(bids: seq<BidRow>, user: UserId, key: BidKey): nat {
    if bids == [] then 0
    else
      var b := bids[|bids| - 1];
      ManualRows(bids[..|bids| - 1], user, key) + (if IsManual(b, user, key) then 1 else 0)
  }

  predicate IsFinal(r: Record) {
    r.response.Some? && r.response.value.Decision?
  }

  /** A committed record is finished: a decision, or a request to confirm the very amount it was made for. */
  predicate IsSettled(r: Record) {
    && r.status == Completed && r.response.Some? && r.hash > 0
    && (r.response.value.ConfirmRequired? ==> r.response.value.amount == r.hash)
  }

  /** Exactly the keys with a final decision own a manual bid row, and they own one. */
  ghost predicate KeyInv(w: World) {
    && (forall k :: k in w.records ==> IsSettled(w.records[k]))
    && (forall user, key :: ManualRows(w.bids, user, key)
          == Indicator((user, key) in w.records && IsFinal(w.records[(user, key)])))
  }

  /** Records only move forward: absent to settled, asking to decided, and decided is for ever. */
  ghost predicate Advances(before: map<(UserId, BidKey), Record>, after: map<(UserId, BidKey), Record>) {
    forall k :: k in before ==>
      && k in after && after[k].hash == before[k].hash
      && (IsFinal(before[k]) ==> after[k] == before[k])
      && (after[k] != before[k] ==> IsFinal(after[k]))
  }

  lemma RowsAppend(bids: seq<BidRow>, b: BidRow, user: UserId, key: BidKey)
    ensures ManualRows(bids + [b], user, key)
      == ManualRows(bids, user, key) + Indicator(IsManual(b, user, key))
  {
    assert (bids + [b])[..|bids + [b]| - 1] == bids;
  }

  lemma {:induction false} ManualRowCounts(bids: seq<BidRow>, user: UserId, key: BidKey, i: nat)
    requires i < |bids| && IsManual(bids[i], user, key)
    ensures ManualRows(bids, user, key) >= 1
    decreases |bids|
  {
    if i < |bids| - 1 { ManualRowCounts(bids[..|bids| - 1], user, key, i); }
  }

  /** Automatic bids neither use nor touch the manual keys. */
  lemma {:induction false} AwardsLeaveKeys(w: World, awards: seq<Award>, last: BidResult, clock: Clock)
    requires ApplyAwards(w, awards, last, clock).Ok?
    ensures
      var final := ApplyAwards(w, awards, last, clock).value.0;
      && final.records == w.records
      && forall user, key :: ManualRows(final.bids, user, key) == ManualRows(w.bids, user, key)
    decreases |awards|
  {
    if awards != [] {
      var (next, result) := ApplyAward(w, awards[0], clock).value;
      forall user, key ensures ManualRows(next.bids, user, key) == ManualRows(w.bids, user, key) {
        RowsAppend(w.bids, next.bids[|w.bids|], user, key);
      }
      AwardsLeaveKeys(next, awards[1..], result, clock);
    }
  }

  /** The rows a decided bid adds: one, under its own key. */
  ghost predicate AddsOneRow(before: World, after: World, user: UserId, key: BidKey) {
    && after.records == before.records
    && forall u, k :: ManualRows(after.bids, u, k) == ManualRows(before.bids, u, k) + Indicator(u == user && k == key)
  }

  lemma TakeAddsOneRow(w: World, user: UserId, key: BidKey, amount: int, clock: Clock)
    requires TakeBid(w, user, key, amount, clock).Ok?
    ensures AddsOneRow(w, TakeBid(w, user, key, amount, clock).value.0, user, key)
  {
    var (taken, result) := Placed(w, user, key, amount, clock).value;
    forall u, k ensures ManualRows(taken.bids, u, k) == ManualRows(w.bids, u, k) + Indicator(u == user && k == key) {
      RowsAppend(w.bids, taken.bids[|w.bids|], u, k);
    }
    if result != ResultSold { AwardsLeaveKeys(taken, Awards(taken.auction, taken.intents), result, clock); }
  }

  lemma RefuseAddsOneRow(w: World, user: UserId, key: BidKey, amount: int, code: RejectCode)
    requires w.auction.endAt.Some? && RefuseBid(w, user, key, amount, code).Ok?
    ensures AddsOneRow(w, RefuseBid(w, user, key, amount, code).value.0, user, key)
  {
    var next := RefuseBid(w, user, key, amount, code).value.0;
    forall u, k ensures ManualRows(next.bids, u, k) == ManualRows(w.bids, u, k) + Indicator(u == user && k == key) {
      RowsAppend(w.bids, next.bids[|w.bids|], u, k);
    }
  }

  /** Completing the record closes the transaction: the row, if any, and the record agree again. */
  lemma CompleteKeepsKeys(w: World, mid: World, user: UserId, key: BidKey, amount: int, response: Response)
    requires KeyInv(w) && mid.records == w.records && amount > 0
    requires (user, key) in w.records ==> !IsFinal(w.records[(user, key)]) && w.records[(user, key)].hash == amount
    requires
      if response.Decision? then AddsOneRow(w, mid, user, key)
      else mid.bids == w.bids && response.amount == amount && (user, key) !in w.records
    ensures KeyInv(Complete(mid, user, key, amount, response))
    ensures Advances(w.records, Complete(mid, user, key, amount, response).records)
  {
    var next := Complete(mid, user, key, amount, response);
    assert next.bids == mid.bids;
    forall u, k
      ensures ManualRows(next.bids, u, k) == Indicator((u, k) in next.records && IsFinal(next.records[(u, k)]))
    {
      assert ManualRows(w.bids, u, k) == Indicator((u, k) in w.records && IsFinal(w.records[(u, k)]));
    }
  }

  lemma DecideKeepsKeys(w: World, user: UserId, key: BidKey, amount: int, token: string, clock: Clock, skip: bool)
    requires KeyInv(w) && amount > 0
    requires (user, key) in w.records ==> skip && !IsFinal(w.records[(user, key)]) && w.records[(user, key)].hash == amount
    requires DecideBid(w, user, key, amount, token, clock, skip).Ok?
    ensures
      var (next, response) := DecideBid(w, user, key, amount, token, clock, skip).value;
      && KeyInv(next) && Advances(w.records, next.records)
      && (skip ==> response.Decision?)
      && (user, key) in next.records && next.records[(user, key)] == Record(amount, Completed, Some(response))
  {
    var response := DecideBid(w, user, key, amount, token, clock, skip).value.1;
    match EvaluateBid(w.auction, user, amount, clock.first, skip)
    case Refuse(code) =>
      RefuseAddsOneRow(w, user, key, amount, code);
      CompleteKeepsKeys(w, RefuseBid(w, user, key, amount, code).value.0, user, key, amount, response);
    case AskConfirm =>
      CompleteKeepsKeys(w, w, user, key, amount, response);
    case Take =>
      TakeAddsOneRow(w, user, key, amount, clock);
      CompleteKeepsKeys(w, TakeBid(w, user, key, amount, clock).value.0, user, key, amount, response);
  }

  lemma StartKeepsKeys(w: World, clock: Clock, roomFree: bool)
    requires KeyInv(w) && Start(w, clock, roomFree).Ok?
    ensures KeyInv(Start(w, clock, roomFree).value) && Start(w, clock, roomFree).value.records == w.records
  {
    var live := Opened(w, clock.first);
    AwardsLeaveKeys(live, Awards(live.auction, live.intents), ResultAccepted, clock);
  }

  /** Only bidding steps and the start touch the bid rows and the records. */
  lemma OtherStepsLeaveKeys(w: World, step: Step)
    requires !step.DoPlace? && !step.DoPlaceTx? && !step.DoConfirm? && !step.DoStart?
    ensures Next(w, step).bids == w.bids && Next(w, step).records == w.records
  {
  }

  lemma StepKeepsKeys(w: World, step: Step)
    requires KeyInv(w)
    ensures KeyInv(Next(w, step)) && Advances(w.records, Next(w, step).records)
  {
    if Try(w, step).Ok? {
      match step
      case DoPlace(user, key, amount, token, clock) =>
        if (user, key) !in w.records { DecideKeepsKeys(w, user, key, amount, token, clock, false); }
      case DoPlaceTx(user, key, amount, token, clock) => DecideKeepsKeys(w, user, key, amount, token, clock, false);
      case DoConfirm(user, key, token, clock) =>
        var response := w.records[(user, key)].response.value;
        if response.ConfirmRequired? { DecideKeepsKeys(w, user, key, response.amount, "", clock, true); }
      case DoStart(clock, roomFree) => StartKeepsKeys(w, clock, roomFree);
      case _ => OtherStepsLeaveKeys(w, step);
    }
  }

  lemma {:induction false} RunKeepsKeys(w: World, steps: seq<Step>)
    requires KeyInv(w)
    ensures KeyInv(Run(w, steps)) && Advances(w.records, Run(w, steps).records)
    decreases |steps|
  {
    if steps != [] {
      StepKeepsKeys(w, steps[0]);
      RunKeepsKeys(Next(w, steps[0]), steps[1..]);
    }
  }

  /** In every reachable state a key has at most one manual bid row and no record is left in progress. */
  lemma OneRowPerKey(rules: Rules, steps: seq<Step>, user: UserId, key: BidKey)
    requires CreateAuction(rules).Ok?
    ensures
      var w := Run(CreateAuction(rules).value, steps);
      && ManualRows(w.bids, user, key) <= 1
      && (ManualRows(w.bids, user, key) == 1 <==> (user, key) in w.records && IsFinal(w.records[(user, key)]))
      && ((user, key) in w.records ==> w.records[(user, key)].status == Completed)
  {
    RunKeepsKeys(CreateAuction(rules).value, steps);
  }

  /** A decided record answers every call under its key, and the call changes nothing. */
  ghost predicate Replays(w: World, user: UserId, key: BidKey, amount: int, response: Response) {
    && (forall token, clock :: PlaceBid(w, user, key, amount, token, clock) == Ok((w, response)))
    && (forall token, clock :: token != "" ==> ConfirmBid(w, user, key, token, clock) == Ok((w, response)))
    && (forall other, token, clock :: other != amount ==> PlaceBid(w, user, key, other, token, clock).Err?)
  }

  lemma DecidedRecordReplays(w: World, user: UserId, key: BidKey, amount: int, response: Response)
    requires key != NO_KEY && amount > 0 && response.Decision?
    requires (user, key) in w.records && w.records[(user, key)] == Record(amount, Completed, Some(response))
    ensures Replays(w, user, key, amount, response)
  {
  }

  lemma PlaceLeavesRecord(w: World, user: UserId, key: BidKey, amount: int, token: string, clock: Clock)
    requires KeyInv(w) && PlaceBid(w, user, key, amount, token, clock).Ok?
    ensures
      var (next, response) := PlaceBid(w, user, key, amount, token, clock).value;
      && key != NO_KEY && amount > 0
      && (user, key) in next.records && next.records[(user, key)] == Record(amount, Completed, Some(response))
  {
    if (user, key) !in w.records { DecideKeepsKeys(w, user, key, amount, token, clock, false); }
  }

  lemma ConfirmLeavesRecord(w: World, user: UserId, key: BidKey, token: string, clock: Clock)
    requires KeyInv(w) && ConfirmBid(w, user, key, token, clock).Ok?
    ensures
      var (next, response) := ConfirmBid(w, user, key, token, clock).value;
      && key != NO_KEY && response.Decision? && (user, key) in w.records && w.records[(user, key)].hash > 0
      && (user, key) in next.records
      && next.records[(user, key)] == Record(w.records[(user, key)].hash, Completed, Some(response))
  {
    var response := w.records[(user, key)].response.value;
    if response.ConfirmRequired? { DecideKeepsKeys(w, user, key, response.amount, "", clock, true); }
  }

  /** Once a bid is decided, every later call under its key returns that decision and changes nothing. */
  lemma DecisionIsReplayed(w: World, place: Step, later: seq<Step>)
    requires KeyInv(w) && place.DoPlace?
    requires PlaceBid(w, place.user, place.key, place.amount, place.token, place.clock).Ok?
    requires PlaceBid(w, place.user, place.key, place.amount, place.token, place.clock).value.1.Decision?
    ensures
      var response := PlaceBid(w, place.user, place.key, place.amount, place.token, place.clock).value.1;
      Replays(Run(Next(w, place), later), place.user, place.key, place.amount, response)
  {
    var (next, response) := PlaceBid(w, place.user, place.key, place.amount, place.token, place.clock).value;
    PlaceLeavesRecord(w, place.user, place.key, place.amount, place.token, place.clock);
    StepKeepsKeys(w, place);
    assert next == Next(w, place);
    RunKeepsKeys(next, later);
    DecidedRecordReplays(Run(next, later), place.user, place.key, place.amount, response);
  }

  /** A confirmation decides the bid it was asked for, once: whatever follows replays its decision. */
  lemma ConfirmationIsReplayed(w: World, confirm: Step, later: seq<Step>)
    requires KeyInv(w) && confirm.DoConfirm?
    requires ConfirmBid(w, confirm.user, confirm.key, confirm.token, confirm.clock).Ok?
    ensures
      var response := ConfirmBid(w, confirm.user, confirm.key, confirm.token, confirm.clock).value.1;
      && (confirm.user, confirm.key) in w.records
      && Replays(Run(Next(w, confirm), later), confirm.user, confirm.key,
                 w.records[(confirm.user, confirm.key)].hash, response)
  {
    var (next, response) := ConfirmBid(w, confirm.user, confirm.key, confirm.token, confirm.clock).value;
    ConfirmLeavesRecord(w, confirm.user, confirm.key, confirm.token, confirm.clock);
    StepKeepsKeys(w, confirm);
    assert next == Next(w, confirm);
    RunKeepsKeys(next, later);
    var amount := w.records[(confirm.user, confirm.key)].hash;
    DecidedRecordReplays(Run(next, later), confirm.user, confirm.key, amount, response);
  }
}
