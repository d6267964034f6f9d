/** Exactly which steps make the P0 check on bid idempotency fail, a run that does, and the rules under which none can. */
module OpenKeys {
  import opened Wrappers
  import opened BidRules
  import opened AuctionState
  import opened Settlement
  import opened SettlementLaws
  import opened Transactions
  import opened Invariants
  import opened Idempotency
  import opened BidKeyCheck
  import BlockedRuns
  import GuardRuns

  // ---- What a settlement writes -----------------------------------------------------------

  function AwardRows(awards: seq<Award>, seqNo: nat): seq<BidRow> {
    seq(|awards|, k requires 0 <= k < |awards| => AwardRow(awards[k], seqNo + k + 1))
  }

  lemma RowsUnfold(bids: seq<BidRow>, awards: seq<Award>, seqNo: nat)
    requires awards != []
    ensures
      bids + [AwardRow(awards[0], seqNo + 1)] + AwardRows(awards[1..], seqNo + 1) == bids + AwardRows(awards, seqNo)
  {
  }

  /** No bid row holds the key of one of these awards. */
  ghost predicate KeysFree(bids: seq<BidRow>, awards: seq<Award>, seqNo: nat) {
    forall k :: 0 <= k < |awards| ==> !KeyTaken(bids, awards[k].user, AutoForm(awards[k].id, seqNo + k + 1))
  }

  lemma KeysFreeUnfold(bids: seq<BidRow>, row: BidRow, awards: seq<Award>, seqNo: nat)
    requires awards != [] && !KeyTaken(bids, awards[0].user, AutoForm(awards[0].id, seqNo + 1))
    requires KeysFree(bids + [row], awards[1..], seqNo + 1)
    ensures KeysFree(bids, awards, seqNo)
  {
    forall k | 0 <= k < |awards| ensures !KeyTaken(bids, awards[k].user, AutoForm(awards[k].id, seqNo + k + 1)) {
      if k > 0 {
        assert awards[1..][k - 1] == awards[k];
        assert !KeyTaken(bids + [row], awards[k].user, AutoForm(awards[k].id, seqNo + 1 + (k - 1) + 1));
        TakenAfter(bids, row, awards[k].user, AutoForm(awards[k].id, seqNo + k + 1));
      }
    }
  }

  /** What one award leaves for the rows behind it. */
  lemma AwardWritesRow(w: World, award: Award, clock: Clock)
    requires ApplyAward(w, award, clock).Ok?
    ensures
      var next := ApplyAward(w, award, clock).value.0;
      && next.bids == w.bids + [AwardRow(award, w.auction.seqNo + 1)] && next.records == w.records
      && next.auction.seqNo == w.auction.seqNo + 1
      && !KeyTaken(w.bids, award.user, AutoForm(award.id, w.auction.seqNo + 1))
  {
    AwardShape(w, award, clock);
  }

  /** The automatic rows of these awards are added, under keys that were free, and no record is written. */
  ghost predicate Wrote(w: World, awards: seq<Award>, final: World) {
    && final.bids == w.bids + AwardRows(awards, w.auction.seqNo) && final.records == w.records
    && KeysFree(w.bids, awards, w.auction.seqNo)
  }

  lemma WroteUnfolds(w: World, next: World, awards: seq<Award>, final: World)
    requires awards != [] && Wrote(next, awards[1..], final)
    requires next.bids == w.bids + [AwardRow(awards[0], w.auction.seqNo + 1)] && next.records == w.records
    requires next.auction.seqNo == w.auction.seqNo + 1
    requires !KeyTaken(w.bids, awards[0].user, AutoForm(awards[0].id, w.auction.seqNo + 1))
    ensures Wrote(w, awards, final)
  {
    RowsUnfold(w.bids, awards, w.auction.seqNo);
    KeysFreeUnfold(w.bids, AwardRow(awards[0], w.auction.seqNo + 1), awards, w.auction.seqNo);
  }

  lemma {:induction false} AwardsWriteRows(w: World, awards: seq<Award>, last: BidResult, clock: Clock)
    requires ApplyAwards(w, awards, last, clock).Ok?
    ensures Wrote(w, awards, ApplyAwards(w, awards, last, clock).value.0)
    decreases |awards|
  {
    if awards == [] {
      assert w.bids + [] == w.bids;
    } else {
      var (next, result) := ApplyAward(w, awards[0], clock).value;
      AwardWritesRow(w, awards[0], clock);
      AwardsWriteRows(next, awards[1..], result, clock);
      WroteUnfolds(w, next, awards, ApplyAwards(next, awards[1..], result, clock).value.0);
    }
  }

  // ---- Rows under open confirmations --------------------------------------------------------

  predicate AnyOpen(records: map<(UserId, BidKey), Record>, keys: seq<(UserId, BidKey)>) {
    exists k :: 0 <= k < |keys| && OpenAt(records, keys[k])
  }

  lemma RowsUnaskedJoin(a: seq<BidRow>, b: seq<BidRow>, records: map<(UserId, BidKey), Record>)
    ensures RowsUnasked(a + b, records) <==> RowsUnasked(a, records) && RowsUnasked(b, records)
  {
    if RowsUnasked(a + b, records) {
      assert forall i :: 0 <= i < |a| ==> (a + b)[i] == a[i];
      assert forall i :: 0 <= i < |b| ==> (a + b)[|a| + i] == b[i];
    }
  }

  /** The automatic rows of a settlement are clear of open confirmations exactly when the keys due are. */
  lemma DueRowsUnasked(a: Auction, xs: seq<Intent>, records: map<(UserId, BidKey), Record>)
    ensures RowsUnasked(AwardRows(Awards(a, xs), a.seqNo), records) <==> !AnyOpen(records, DueKeys(a, xs))
  {
    var rows, keys := AwardRows(Awards(a, xs), a.seqNo), DueKeys(a, xs);
    DueKeysAreAwards(a, xs);
    assert forall k :: 0 <= k < |keys| ==> keys[k] == (rows[k].user, rows[k].key) && rows[k].source == AutoMaxBid;
  }

  /** Deciding a record leaves alone the rows that are not under its key. */
  lemma DecidedLeavesRows(
      rows: seq<BidRow>, records: map<(UserId, BidKey), Record>, user: UserId, key: BidKey, decided: Record)
    requires !KeyTaken(rows, user, key) && !IsOpenAsk(decided)
    ensures RowsUnasked(rows, records[(user, key) := decided]) <==> RowsUnasked(rows, records)
  {
    forall i | 0 <= i < |rows|
      ensures OpenAt(records[(user, key) := decided], (rows[i].user, rows[i].key))
         <==> OpenAt(records, (rows[i].user, rows[i].key))
    {
      assert rows[i].user != user || rows[i].key != key;
    }
  }

  // ---- Exactly which steps break the check --------------------------------------------------

  /** The call asks for confirmation under a key that already has a row. */
  predicate AsksUnderUsedKey(w: World, step: Step) {
    && (step.DoPlace? || step.DoPlaceTx?)
    && step.key != NO_KEY && step.amount > 0 && (step.user, step.key) !in w.records
    && w.auction.endAt.Some? && EvaluateBid(w.auction, step.user, step.amount, step.clock.first, false) == AskConfirm
    && KeyTaken(w.bids, step.user, step.key)
  }

  /** The call is a first attempt or a confirmation that is waited for, rather than a replay. */
  predicate IsFresh(w: World, step: Step)
    requires IsBid(step)
  {
    if step.DoConfirm? then OpenAt(w.records, (step.user, step.key)) else (step.user, step.key) !in w.records
  }

  /** The step commits, and the settlement it starts places an automatic bid under the key of an open confirmation. */
  predicate SettlesUnderOpenKey(w: World, step: Step) {
    && Try(w, step).Ok?
    && if step.DoStart? then AnyOpen(w.records, DueKeys(Opened(w, step.clock.first).auction, w.intents))
       else
         && IsBid(step) && IsFresh(w, step) && w.auction.endAt.Some?
         && EvaluateBid(w.auction, step.user, BidAmount(w, step), step.clock.first, step.DoConfirm?) == Take
         && AnyOpen(w.records, DueKeys(LedRow(w.auction, step.user, BidAmount(w, step), step.clock), w.intents))
  }

  lemma TakenRows(w: World, user: UserId, key: BidKey, amount: int, clock: Clock)
    requires TakeBid(w, user, key, amount, clock).Ok?
    ensures
      var next := TakeBid(w, user, key, amount, clock).value.0;
      && w.auction.endAt.Some?
      && var led := LedRow(w.auction, user, amount, clock);
      var rows := AwardRows(Awards(led, w.intents), led.seqNo);
      && next.bids == w.bids + [TakenRow(user, key, amount, led.seqNo)] + rows && next.records == w.records
      && !KeyTaken(w.bids, user, key) && !KeyTaken(rows, user, key)
  {
    var (taken, result) := Placed(w, user, key, amount, clock).value;
    var led := LedRow(w.auction, user, amount, clock);
    var row, awards := TakenRow(user, key, amount, led.seqNo), Awards(led, w.intents);
    assert taken.auction == led && taken.bids == w.bids + [row] && taken.intents == w.intents;
    if result == ResultSold {
      assert taken.bids + [] == taken.bids;
    } else {
      AwardsWriteRows(taken, awards, result, clock);
      TakenAfter(w.bids, row, user, key);
      OwnKeyIsFree(taken.bids, awards, led.seqNo, user, key);
    }
  }

  lemma OwnKeyIsFree(bids: seq<BidRow>, awards: seq<Award>, seqNo: nat, user: UserId, key: BidKey)
    requires KeyTaken(bids, user, key)
    requires KeysFree(bids, awards, seqNo)
    ensures !KeyTaken(AwardRows(awards, seqNo), user, key)
  {
    var rows := AwardRows(awards, seqNo);
    forall k | 0 <= k < |rows| ensures rows[k].user != user || rows[k].key != key {
      assert !KeyTaken(bids, awards[k].user, AutoForm(awards[k].id, seqNo + k + 1));
    }
  }

  lemma TakeBreaksExactly(w: World, user: UserId, key: BidKey, amount: int, clock: Clock, decided: Record)
    requires RowsUnasked(w.bids, w.records) && !IsOpenAsk(decided) && TakeBid(w, user, key, amount, clock).Ok?
    ensures w.auction.endAt.Some?
    ensures
      RowsUnasked(TakeBid(w, user, key, amount, clock).value.0.bids, w.records[(user, key) := decided])
      <==> !AnyOpen(w.records, DueKeys(LedRow(w.auction, user, amount, clock), w.intents))
  {
    TakenRows(w, user, key, amount, clock);
    var led, records := LedRow(w.auction, user, amount, clock), w.records[(user, key) := decided];
    var row, rows := TakenRow(user, key, amount, led.seqNo), AwardRows(Awards(led, w.intents), led.seqNo);
    RowsUnaskedJoin(w.bids + [row], rows, records);
    RowsUnaskedJoin(w.bids, [row], records);
    DecidedLeavesRows(w.bids, w.records, user, key, decided);
    DecidedLeavesRows(rows, w.records, user, key, decided);
    DueRowsUnasked(led, w.intents, w.records);
  }

  lemma RefuseKeepsUnasked(w: World, user: UserId, key: BidKey, amount: int, code: RejectCode, decided: Record)
    requires RowsUnasked(w.bids, w.records) && !IsOpenAsk(decided)
    requires w.auction.endAt.Some? && RefuseBid(w, user, key, amount, code).Ok?
    ensures RowsUnasked(RefuseBid(w, user, key, amount, code).value.0.bids, w.records[(user, key) := decided])
  {
    var next := RefuseBid(w, user, key, amount, code).value.0;
    assert |next.bids| == |w.bids| + 1 && next.bids == w.bids + [next.bids[|w.bids|]];
    RowsUnaskedJoin(w.bids, [next.bids[|w.bids|]], w.records[(user, key) := decided]);
    assert !KeyTaken(w.bids, user, key);
    DecidedLeavesRows(w.bids, w.records, user, key, decided);
  }

  /** A key without a record has no manual row, so a row under it is an automatic one. */
  lemma AskBreaksExactly(w: World, user: UserId, key: BidKey, asked: Record)
    requires KeyInv(w) && RowsUnasked(w.bids, w.records) && (user, key) !in w.records && IsOpenAsk(asked)
    ensures RowsUnasked(w.bids, w.records[(user, key) := asked]) <==> !KeyTaken(w.bids, user, key)
  {
    var records := w.records[(user, key) := asked];
    if KeyTaken(w.bids, user, key) {
      var i: nat :| i < |w.bids| && w.bids[i].user == user && w.bids[i].key == key;
      assert ManualRows(w.bids, user, key) == 0;
      if w.bids[i].source == Manual { ManualRowCounts(w.bids, user, key, i); }
      assert OpenAt(records, (w.bids[i].user, w.bids[i].key));
    } else {
      forall i | 0 <= i < |w.bids| && w.bids[i].source == AutoMaxBid
        ensures !OpenAt(records, (w.bids[i].user, w.bids[i].key))
      {
        assert w.bids[i].user != user || w.bids[i].key != key;
      }
    }
  }

  lemma DecideBreaksExactly(w: World, user: UserId, key: BidKey, amount: int, token: string, clock: Clock, skip: bool)
    requires KeyInv(w) && RowsUnasked(w.bids, w.records) && (!skip ==> (user, key) !in w.records)
    requires DecideBid(w, user, key, amount, token, clock, skip).Ok?
    ensures w.auction.endAt.Some?
    ensures
      var next := DecideBid(w, user, key, amount, token, clock, skip).value.0;
      var verdict := EvaluateBid(w.auction, user, amount, clock.first, skip);
      RowsUnasked(next.bids, next.records) <==>
        && !(verdict == AskConfirm && KeyTaken(w.bids, user, key))
        && !(verdict == Take && AnyOpen(w.records, DueKeys(LedRow(w.auction, user, amount, clock), w.intents)))
  {
    var (next, response) := DecideBid(w, user, key, amount, token, clock, skip).value;
    var record := Record(amount, Completed, Some(response));
    match EvaluateBid(w.auction, user, amount, clock.first, skip)
    case Refuse(code) => RefuseKeepsUnasked(w, user, key, amount, code, record);
    case AskConfirm => AskBreaksExactly(w, user, key, record);
    case Take =>
      TakenRows(w, user, key, amount, clock);
      TakeBreaksExactly(w, user, key, amount, clock, record);
  }

  lemma BidBreaksExactly(w: World, step: Step)
    requires KeyInv(w) && RowsUnasked(w.bids, w.records) && IsBid(step) && Try(w, step).Ok?
    ensures
      var next := Next(w, step);
      RowsUnasked(next.bids, next.records) <==> !AsksUnderUsedKey(w, step) && !SettlesUnderOpenKey(w, step)
  {
    match step
    case DoPlace(user, key, amount, token, clock) =>
      if (user, key) !in w.records { DecideBreaksExactly(w, user, key, amount, token, clock, false); }
    case DoPlaceTx(user, key, amount, token, clock) => DecideBreaksExactly(w, user, key, amount, token, clock, false);
    case DoConfirm(user, key, token, clock) =>
      var response := w.records[(user, key)].response.value;
      if response.ConfirmRequired? { DecideBreaksExactly(w, user, key, response.amount, "", clock, true); }
  }

  lemma StartBreaksExactly(w: World, clock: Clock, roomFree: bool)
    requires RowsUnasked(w.bids, w.records) && Start(w, clock, roomFree).Ok?
    ensures
      var next := Start(w, clock, roomFree).value;
      RowsUnasked(next.bids, next.records) <==> !AnyOpen(w.records, DueKeys(Opened(w, clock.first).auction, w.intents))
  {
    var live := Opened(w, clock.first);
    var awards := Awards(live.auction, live.intents);
    AwardsWriteRows(live, awards, ResultAccepted, clock);
    RowsUnaskedJoin(w.bids, AwardRows(awards, live.auction.seqNo), w.records);
    DueRowsUnasked(live.auction, live.intents, w.records);
  }

  lemma StepBreaksRows(w: World, step: Step)
    requires KeyInv(w) && RowsUnasked(w.bids, w.records)
    ensures
      var next := Next(w, step);
      RowsUnasked(next.bids, next.records) <==> !AsksUnderUsedKey(w, step) && !SettlesUnderOpenKey(w, step)
  {
    if IsBid(step) {
      if Try(w, step).Ok? { BidBreaksExactly(w, step); }
    } else if step.DoStart? {
      if Try(w, step).Ok? { StartBreaksExactly(w, step.clock, step.roomFree); }
    } else {
      OtherStepsLeaveKeys(w, step);
    }
  }

  /** From a state that passes the check, a step breaks it exactly when it asks for confirmation under a key that already
      has a row, or its settlement places an automatic bid under the key of an open confirmation. */
  lemma StepBreaksExactly(w: World, step: Step)
    requires CoreInv(w) && KeyInv(w) && RowsAgree(w) && BidIdempotencyConsistent(w)
    ensures BidIdempotencyConsistent(Next(w, step)) <==> !AsksUnderUsedKey(w, step) && !SettlesUnderOpenKey(w, step)
  {
    CheckPassesExactly(w);
    StepKeepsCore(w, step);
    StepKeepsKeys(w, step);
    StepKeepsAgreement(w, step);
    CheckPassesExactly(Next(w, step));
    StepBreaksRows(w, step);
  }

  // ---- Whole runs ---------------------------------------------------------------------------

  lemma DecideAddsRows(w: World, user: UserId, key: BidKey, amount: int, token: string, clock: Clock, skip: bool)
    requires DecideBid(w, user, key, amount, token, clock, skip).Ok?
    ensures w.bids <= DecideBid(w, user, key, amount, token, clock, skip).value.0.bids
  {
    if EvaluateBid(w.auction, user, amount, clock.first, skip).Take? { TakenRows(w, user, key, amount, clock); }
  }

  lemma StepAddsRows(w: World, step: Step)
    ensures w.bids <= Next(w, step).bids
  {
    if IsBid(step) {
      if Try(w, step).Ok? { BidReplaysOrDecides(w, step); }
      if BidDecision(w, step).Ok? {
        DecideAddsRows(w, step.user, step.key, BidAmount(w, step),
          if step.DoConfirm? then "" else step.token, step.clock, step.DoConfirm?);
      }
    } else if step.DoStart? {
      if Try(w, step).Ok? {
        var live := Opened(w, step.clock.first);
        AwardsWriteRows(live, Awards(live.auction, live.intents), ResultAccepted, step.clock);
      }
    } else {
      OtherStepsLeaveKeys(w, step);
    }
  }

  /** A confirmation asked for on an automatic row can never be given, so a check that fails fails for ever. */
  lemma FailingStaysFailing(w: World, step: Step)
    requires CoreInv(w) && KeyInv(w) && !RowsUnasked(w.bids, w.records)
    ensures !RowsUnasked(Next(w, step).bids, Next(w, step).records)
  {
    var next := Next(w, step);
    var i: nat :| i < |w.bids| && w.bids[i].source == AutoMaxBid && OpenAt(w.records, (w.bids[i].user, w.bids[i].key));
    var user, key := w.bids[i].user, w.bids[i].key;
    StepKeepsCore(w, step);
    StepKeepsKeys(w, step);
    StepAddsRows(w, step);
    assert next.bids[i] == w.bids[i] && (user, key) in next.records;
    if next.records[(user, key)] != w.records[(user, key)] { DecidedKeyIsManual(next, user, key, i); }
    assert OpenAt(next.records, (next.bids[i].user, next.bids[i].key));
  }

  predicate BreaksNowhere(w: World, steps: seq<Step>)
    decreases |steps|
  {
    || steps == []
    || (&& !AsksUnderUsedKey(w, steps[0]) && !SettlesUnderOpenKey(w, steps[0])
        && BreaksNowhere(Next(w, steps[0]), steps[1..]))
  }

  lemma {:induction false} RunBreaksFrom(w: World, steps: seq<Step>)
    requires CoreInv(w) && KeyInv(w)
    ensures
      var end := Run(w, steps);
      RowsUnasked(end.bids, end.records) <==> RowsUnasked(w.bids, w.records) && BreaksNowhere(w, steps)
    decreases |steps|
  {
    if steps != [] {
      StepKeepsCore(w, steps[0]);
      StepKeepsKeys(w, steps[0]);
      RunBreaksFrom(Next(w, steps[0]), steps[1..]);
      if RowsUnasked(w.bids, w.records) { StepBreaksRows(w, steps[0]); } else { FailingStaysFailing(w, steps[0]); }
    }
  }

  /** After any run from the creation of an auction the check passes exactly when no step was of these two kinds. */
  lemma RunBreaksExactly(rules: Rules, steps: seq<Step>)
    requires CreateAuction(rules).Ok?
    ensures
      BidIdempotencyConsistent(Run(CreateAuction(rules).value, steps)) <==> BreaksNowhere(CreateAuction(rules).value, steps)
  {
    CreateEstablishesCore(rules);
    RunBreaksFrom(CreateAuction(rules).value, steps);
    ReachableCheckExactly(rules, steps);
  }

  // ---- Without a threshold nothing is asked -------------------------------------------------

  predicate NoThreshold(rules: Rules) {
    rules.fatFinger.None? || rules.fatFinger.value <= 0
  }

  predicate SetsNoThreshold(step: Step) {
    step.DoUpdateRules? ==> NoThreshold(step.newRules)
  }

  ghost predicate NothingOpen(records: map<(UserId, BidKey), Record>) {
    forall k :: k in records ==> !IsOpenAsk(records[k])
  }

  lemma RulesStay(w: World, step: Step)
    requires CoreInv(w) && NoThreshold(w.auction.rules) && SetsNoThreshold(step)
    ensures NoThreshold(Next(w, step).auction.rules)
  {
    if !step.DoUpdateRules? { GuardRuns.StepGoesOnward(w, step); }
  }

  lemma DecideLeavesNothingOpen(
      w: World, user: UserId, key: BidKey, amount: int, token: string, clock: Clock, skip: bool)
    requires NothingOpen(w.records) && NoThreshold(w.auction.rules)
    requires DecideBid(w, user, key, amount, token, clock, skip).Ok?
    ensures NothingOpen(DecideBid(w, user, key, amount, token, clock, skip).value.0.records)
  {
    if EvaluateBid(w.auction, user, amount, clock.first, skip).Take? { TakenRows(w, user, key, amount, clock); }
  }

  lemma StepLeavesNothingOpen(w: World, step: Step)
    requires NothingOpen(w.records) && NoThreshold(w.auction.rules)
    ensures NothingOpen(Next(w, step).records)
  {
    if Try(w, step).Ok? {
      if IsBid(step) {
        BidReplaysOrDecides(w, step);
        if BidDecision(w, step).Ok? {
          DecideLeavesNothingOpen(w, step.user, step.key, BidAmount(w, step),
            if step.DoConfirm? then "" else step.token, step.clock, step.DoConfirm?);
        }
      } else if step.DoStart? {
        var live := Opened(w, step.clock.first);
        AwardsWriteRows(live, Awards(live.auction, live.intents), ResultAccepted, step.clock);
      } else {
        OtherStepsLeaveKeys(w, step);
      }
    }
  }

  lemma {:induction false} RunLeavesNothingOpen(w: World, steps: seq<Step>)
    requires CoreInv(w) && NothingOpen(w.records) && NoThreshold(w.auction.rules)
    requires forall i :: 0 <= i < |steps| ==> SetsNoThreshold(steps[i])
    ensures NothingOpen(Run(w, steps).records)
    decreases |steps|
  {
    if steps != [] {
      StepKeepsCore(w, steps[0]);
      RulesStay(w, steps[0]);
      StepLeavesNothingOpen(w, steps[0]);
      RunLeavesNothingOpen(Next(w, steps[0]), steps[1..]);
    }
  }

  /** While no rules set a positive threshold every reachable state passes the check, whatever the keys. */
  lemma NoThresholdPassesCheck(rules: Rules, steps: seq<Step>)
    requires CreateAuction(rules).Ok? && NoThreshold(rules)
    requires forall i :: 0 <= i < |steps| ==> SetsNoThreshold(steps[i])
    ensures BidIdempotencyConsistent(Run(CreateAuction(rules).value, steps))
  {
    CreateEstablishesCore(rules);
    RunLeavesNothingOpen(CreateAuction(rules).value, steps);
    ReachableCheckExactly(rules, steps);
  }

  // ---- A run that breaks the check ----------------------------------------------------------

  /** Confirmation is asked for from 50 above the price on. */
  const CAREFUL := Rules(100, 10, None, 60, 10, 10, 2, Some(50))

  const AUTO_KEY := AutoForm(1, 4)

  /** Its automatic bid is the only row, under its own key. */
  lemma BoundLeads() returns (w: World)
    ensures CreateAuction(CAREFUL).Ok? && BlockedRuns.Reachable(CAREFUL, w)
    ensures w.auction == Auction(Active, CAREFUL, 110, Some("u"), 1, Some(60), 0, 4)
    ensures |w.intents| == 1 && w.intents[0].max == 110 && w.intents[0].user == "u"
    ensures w.bids == [AwardRow(Award(1, "u", 110, None), 4)] && w.records == map[]
  {
    var waiting := BlockedRuns.ScheduleReaches(CAREFUL);
    waiting := BlockedRuns.PutReaches(CAREFUL, waiting, "u", 110, 1);
    BlockedRuns.ReachableCore(CAREFUL, waiting);
    BlockedRuns.LoneBoundLeads(waiting, BlockedRuns.Bound(1, "u", 110));
    BlockedRuns.ReachableStep(CAREFUL, waiting, DoStart(Still(0), true));
    w := Next(waiting, DoStart(Still(0), true));
  }

  /** A rival overbids: the bound of 110 cannot answer 120. */
  lemma RivalOverbids() returns (w: World)
    ensures CreateAuction(CAREFUL).Ok? && BlockedRuns.Reachable(CAREFUL, w)
    ensures w.auction == Auction(Active, CAREFUL, 120, Some("b"), 2, Some(60), 0, 5)
    ensures KeyTaken(w.bids, "u", AUTO_KEY) && NothingOpen(w.records) && ("u", AUTO_KEY) !in w.records
  {
    var led := BoundLeads();
    var bid := DoPlace("b", Plain("k"), 120, "", Still(0));
    BlockedRuns.ReachableStep(CAREFUL, led, bid);
    OverbidIsTaken(led);
    w := Next(led, bid);
    assert ("b", Plain("k")) != ("u", AUTO_KEY);
    assert w.bids[0].user == "u" && w.bids[0].key == AUTO_KEY;
  }

  lemma OverbidIsTaken(led: World)
    requires led.auction == Auction(Active, CAREFUL, 110, Some("u"), 1, Some(60), 0, 4)
    requires |led.intents| == 1 && led.intents[0].max == 110 && led.intents[0].user == "u"
    requires led.bids == [AwardRow(Award(1, "u", 110, None), 4)] && led.records == map[]
    ensures
      var w := Next(led, DoPlace("b", Plain("k"), 120, "", Still(0)));
      && w.auction == Auction(Active, CAREFUL, 120, Some("b"), 2, Some(60), 0, 5)
      && led.bids <= w.bids && NothingOpen(w.records) && w.records.Keys == {("b", Plain("k"))}
  {
    assert "b" != "u" by { assert "b"[0] != "u"[0]; }
    assert !KeyTaken(led.bids, "b", Plain("k"));
    var (taken, result) := Placed(led, "b", Plain("k"), 120, Still(0)).value;
    NoRivalLeft(taken.auction, taken.intents);
    assert Settle(taken, result, Still(0)) == Ok((CloseIntents(taken), result));
  }

  lemma NoRivalLeft(a: Auction, xs: seq<Intent>)
    requires |xs| == 1 && xs[0].max < NextAmount(a)
    ensures Awards(a, xs) == []
  {
    BestRivalIsBest(xs, a.winner);
  }

  lemma AskIsUnderUsedKey(w: World)
    requires w.auction == Auction(Active, CAREFUL, 120, Some("b"), 2, Some(60), 0, 5)
    requires KeyTaken(w.bids, "u", AUTO_KEY) && ("u", AUTO_KEY) !in w.records
    ensures AsksUnderUsedKey(w, DoPlace("u", AUTO_KEY, 200, "t", Still(0)))
  {
    assert "b" != "u" by { assert "b"[0] != "u"[0]; }
  }

  lemma ReachableFitsCheck(rules: Rules, w: World)
    requires CreateAuction(rules).Ok? && BlockedRuns.Reachable(rules, w)
    ensures CoreInv(w) && KeyInv(w) && RowsAgree(w)
  {
    var steps :| Run(CreateAuction(rules).value, steps) == w;
    ReachableFits(rules, steps);
  }

  /** The owner of the automatic row asks for 200 under its key: the confirmation asked for lies on that row, and the
      check fails in a reachable state. */
  lemma CheckFailsReachably()
    ensures CreateAuction(CAREFUL).Ok?
    ensures exists w :: BlockedRuns.Reachable(CAREFUL, w) && !BidIdempotencyConsistent(w)
  {
    var w := RivalOverbids();
    var ask := DoPlace("u", AUTO_KEY, 200, "t", Still(0));
    ReachableFitsCheck(CAREFUL, w);
    CheckPassesExactly(w);
    AskIsUnderUsedKey(w);
    StepBreaksExactly(w, ask);
    BlockedRuns.ReachableStep(CAREFUL, w, ask);
  }
}
