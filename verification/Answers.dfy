/** What a bidding call answers and writes, in the columns of the rows: the refusals and their events, the request to
    confirm, and for a bid that is taken the committed auction row, not the caller's own bid. */
module Answers {
  import opened Wrappers
  import opened BidRules
  import opened AuctionState
  import opened Settlement
  import opened SettlementLaws
  import opened Transactions
  import opened Invariants
  import opened Idempotency
  import opened Extensions
  import OpenKeys

  // ---- Refusals and confirmations ---------------------------------------------------------

  /** The price the next bid is measured against. */
  function BasePrice(a: Auction): int {
    if a.acceptedCount == 0 then a.rules.start else a.price
  }

  /** Why a bid is refused, if it is: the first reason that applies. */
  function Reason(a: Auction, user: UserId, amount: int, now: int): Option<RejectCode>
    requires a.endAt.Some?
  {
    if a.status != Active then Some(NotActive)
    else if a.endAt.value < now then Some(AuctionOver)
    else if a.winner == Some(user) then Some(SelfLeading)
    else if a.rules.cap.Some? && a.rules.cap.value < amount then Some(BidAboveCap)
    else if amount - BasePrice(a) < a.rules.increment then Some(BidTooLow)
    else if (amount - BasePrice(a)) % a.rules.increment != 0 then Some(BidIncrementMismatch)
    else None
  }

  /** Everybody is told of a bid by the leader, off the grid or above the cap; the other refusals stay with the caller. */
  predicate IsTold(code: RejectCode) {
    code == SelfLeading || code == BidIncrementMismatch || code == BidAboveCap
  }

  predicate AsksFirst(a: Auction, amount: int) {
    a.rules.fatFinger.Some? && a.rules.fatFinger.value > 0 && amount >= BasePrice(a) + a.rules.fatFinger.value
  }

  lemma EvaluationIs(a: Auction, user: UserId, amount: int, now: int, confirmed: bool)
    requires a.endAt.Some?
    ensures
      EvaluateBid(a, user, amount, now, confirmed)
      == (if Reason(a, user, amount, now).Some? then Refuse(Reason(a, user, amount, now).value)
          else if !confirmed && AsksFirst(a, amount) then AskConfirm
          else Take)
  {
  }

  /** The rows behind a refusal: one rejected bid row, an event if everybody is told, and nothing else but the number. */
  ghost predicate Refused(
      w: World, next: World, user: UserId, key: BidKey, amount: int, code: RejectCode, response: Response)
    requires w.auction.endAt.Some?
  {
    var at := w.auction.seqNo + 1;
    var told := [Event(at, BidRejected, Some(user), Some(amount))];
    && next == w.(
         auction := if IsTold(code) then w.auction.(seqNo := at) else w.auction,
         bids := w.bids + [BidRow(user, key, amount, if IsTold(code) then Some(at) else None, false, Manual)],
         events := if IsTold(code) then w.events + told else w.events,
         outbox := if IsTold(code) then w.outbox + told else w.outbox,
         records := w.records[(user, key) := Record(amount, Completed, Some(response))])
    && response == Decision(ResultRejected(code), next.auction.seqNo, w.auction.price, w.auction.winner,
                            w.auction.endAt.value)
  }

  ghost predicate Asked(
      w: World, next: World, user: UserId, key: BidKey, amount: int, token: string, now: int, response: Response)
  {
    && response == ConfirmRequired(token, w.auction.seqNo, amount, now + 30)
    && next == w.(records := w.records[(user, key) := Record(amount, Completed, Some(response))])
  }

  // ---- Bids that are taken ------------------------------------------------------------------

  /** The answer to a bid that is taken is the committed auction row, whoever leads it by then. */
  ghost predicate TellsRow(a: Auction, response: Response) {
    && response.Decision?
    && response.seqNo == a.seqNo && response.price == a.price && response.winner == a.winner
    && a.endAt == Some(response.endAt)
  }

  /** The last bid of the plan extends the row the others leave. */
  ghost predicate LastExtends(a: Auction, plan: seq<Timed>)
    requires a.endAt.Some?
  {
    plan != [] && ExtendsAt(ProlongedBy(a, plan[..|plan| - 1]), plan[|plan| - 1])
  }

  ghost predicate IsResult(result: BidResult, sold: bool, extended: bool) {
    result == if sold then ResultSold else if extended then ResultExtended else ResultAccepted
  }

  lemma AwardResult(w: World, award: Award, clock: Clock)
    requires CoreInv(w) && w.auction.status == Active && ApplyAward(w, award, clock).Ok?
    ensures w.auction.endAt.Some?
    ensures
      var (next, result) := ApplyAward(w, award, clock).value;
      IsResult(result, next.auction.status == Sold, Extends(w.auction, award.amount, AutoTime(clock, w.auction.seqNo + 1)))
  {
    AwardEffect(w, award, clock);
    ExtendsExactly(w.auction, award.user, award.amount, AutoTime(clock, w.auction.seqNo + 1));
    AcceptedRowLaws(w.auction, award.user, award.amount, AutoTime(clock, w.auction.seqNo + 1));
  }

  /** The extension of a longer plan's last bid is that of the plan behind its first. */
  lemma LastUnfolds(a: Auction, b: Auction, plan: seq<Timed>, rest: seq<Timed>)
    requires a.endAt.Some? && b.endAt.Some? && |plan| > 1 && rest == plan[1..] && SameTimes(Prolonged(a, plan[0]), b)
    ensures LastExtends(a, plan) <==> LastExtends(b, rest)
  {
    var front := plan[..|plan| - 1];
    assert front[0] == plan[0] && front[1..] == rest[..|rest| - 1];
    SameTimesProlong(Prolonged(a, plan[0]), b, rest[..|rest| - 1]);
  }

  lemma {:induction false} SettleResult(w: World, last: BidResult, clock: Clock)
    requires CoreInv(w) && w.auction.status in {Active, Sold} && w.auction.endAt.Some? && Settle(w, last, clock).Ok?
    ensures
      var (final, result) := Settle(w, last, clock).value;
      var plan := AutoPlan(w.auction, w.intents, clock);
      if plan == [] then result == last && final.auction == w.auction
      else IsResult(result, final.auction.status == Sold, LastExtends(w.auction, plan))
    decreases |Awards(w.auction, w.intents)|
  {
    var awards := Awards(w.auction, w.intents);
    if awards != [] {
      var (next, result) := ApplyAward(w, awards[0], clock).value;
      AwardsUnfold(w, clock);
      AwardKeepsCore(w, awards[0], clock);
      AwardResult(w, awards[0], clock);
      assert Settle(w, last, clock) == Settle(next, result, clock);
      SettleResult(next, result, clock);
      PlanGoesOn(w, clock);
    }
  }

  lemma PlanGoesOn(w: World, clock: Clock)
    requires CoreInv(w) && w.auction.status == Active && Awards(w.auction, w.intents) != []
    requires ApplyAward(w, Awards(w.auction, w.intents)[0], clock).Ok?
    ensures w.auction.endAt.Some?
    ensures
      var next := ApplyAward(w, Awards(w.auction, w.intents)[0], clock).value.0;
      var plan, rest := AutoPlan(w.auction, w.intents, clock), AutoPlan(next.auction, next.intents, clock);
      && next.auction.endAt.Some? && plan != [] && rest == plan[1..]
      && plan[0] == Timed(Awards(w.auction, w.intents)[0].amount, AutoTime(clock, w.auction.seqNo + 1))
      && (rest != [] ==> (LastExtends(w.auction, plan) <==> LastExtends(next.auction, rest)))
      && (rest == [] ==> (LastExtends(w.auction, plan) <==> ExtendsAt(w.auction, plan[0])))
  {
    var next := ApplyAward(w, Awards(w.auction, w.intents)[0], clock).value.0;
    AwardsUnfold(w, clock);
    AwardTimes(w, Awards(w.auction, w.intents)[0], clock);
    RestOfPlan(w.auction, w.intents, next.auction, next.intents, clock);
  }

  lemma RestOfPlan(a: Auction, xs: seq<Intent>, b: Auction, ys: seq<Intent>, clock: Clock)
    requires Awards(a, xs) != [] && Awards(b, ys) == Awards(a, xs)[1..] && b.seqNo == a.seqNo + 1
    requires a.endAt.Some? && b.endAt.Some?
    requires SameTimes(Prolonged(a, Timed(Awards(a, xs)[0].amount, AutoTime(clock, a.seqNo + 1))), b)
    ensures
      var plan, rest := AutoPlan(a, xs, clock), AutoPlan(b, ys, clock);
      && plan != [] && rest == plan[1..]
      && plan[0] == Timed(Awards(a, xs)[0].amount, AutoTime(clock, a.seqNo + 1))
      && (rest != [] ==> (LastExtends(a, plan) <==> LastExtends(b, rest)))
      && (rest == [] ==> (LastExtends(a, plan) <==> ExtendsAt(a, plan[0])))
  {
    var plan, rest := AutoPlan(a, xs, clock), AutoPlan(b, ys, clock);
    AutoPlanUnfolds(a, xs, b, ys, clock);
    assert plan[1..] == rest;
    if rest != [] { LastUnfolds(a, b, plan, rest); } else { assert plan[..0] == []; }
  }

  lemma TakeResult(w: World, user: UserId, key: BidKey, amount: int, clock: Clock)
    requires CoreInv(w) && w.auction.status == Active && w.auction.endAt.Some? && TakeBid(w, user, key, amount, clock).Ok?
    ensures
      var (final, result) := TakeBid(w, user, key, amount, clock).value;
      && final.auction.endAt.Some? && final.auction.status in {Active, Sold}
      && IsResult(result, final.auction.status == Sold,
                  LastExtends(w.auction, BidPlan(w.auction, w.intents, user, amount, clock)))
  {
    var (taken, result) := Placed(w, user, key, amount, clock).value;
    var plan := BidPlan(w.auction, w.intents, user, amount, clock);
    PlacedKeepsCore(w, user, key, amount, clock);
    TakeKeepsCore(w, user, key, amount, clock);
    PlacedResult(w, user, key, amount, clock);
    if result != ResultSold {
      SettleResult(taken, result, clock);
      if |plan| > 1 {
        LastUnfolds(w.auction, taken.auction, plan, plan[1..]);
      }
    }
  }

  lemma PlacedResult(w: World, user: UserId, key: BidKey, amount: int, clock: Clock)
    requires CoreInv(w) && w.auction.status == Active && w.auction.endAt.Some? && Placed(w, user, key, amount, clock).Ok?
    ensures
      var (taken, result) := Placed(w, user, key, amount, clock).value;
      var plan := BidPlan(w.auction, w.intents, user, amount, clock);
      && taken.auction.endAt.Some? && SameTimes(Prolonged(w.auction, plan[0]), taken.auction)
      && IsResult(result, taken.auction.status == Sold, Extends(w.auction, amount, clock.first))
      && plan[1..] == (if result == ResultSold then [] else AutoPlan(taken.auction, taken.intents, clock))
      && (plan[1..] == [] ==> (LastExtends(w.auction, plan) <==> Extends(w.auction, amount, clock.first)))
  {
    var (taken, result) := Placed(w, user, key, amount, clock).value;
    ExtendsExactly(w.auction, user, amount, clock.first);
    AcceptedRowLaws(w.auction, user, amount, clock.first);
    assert taken.auction == LedRow(w.auction, user, amount, clock) && taken.intents == w.intents;
    var plan := BidPlan(w.auction, w.intents, user, amount, clock);
    assert plan[0] == Timed(amount, clock.first);
    if plan[1..] == [] { assert plan[..|plan| - 1] == []; }
  }

  // ---- What is written with it --------------------------------------------------------------

  /** The event of a bid row that has a number. */
  function EventFor(row: BidRow, cap: Option<int>): Event {
    var kind :=
      if !row.accepted then BidRejected else if cap == Some(row.amount) then EventKind.AuctionSold else BidAccepted;
    Event(if row.seqNo.Some? then row.seqNo.value else 0, kind, Some(row.user), Some(row.amount))
  }

  function EventsFor(rows: seq<BidRow>, cap: Option<int>): seq<Event> {
    seq(|rows|, i requires 0 <= i < |rows| => EventFor(rows[i], cap))
  }

  /** The rows are added, each with the next number, one accepted bid and one event; the timer stays. */
  ghost predicate Wrote(w: World, next: World, rows: seq<BidRow>) {
    && next.bids == w.bids + rows
    && next.events == w.events + EventsFor(rows, w.auction.rules.cap)
    && next.outbox == w.outbox + EventsFor(rows, w.auction.rules.cap)
    && next.auction.seqNo == w.auction.seqNo + |rows| && next.auction.acceptedCount == w.auction.acceptedCount + |rows|
    && next.auction.rules == w.auction.rules && next.records == w.records && next.endJob == w.endJob
    && forall i :: 0 <= i < |rows| ==> rows[i].accepted && rows[i].seqNo == Some(w.auction.seqNo + i + 1)
  }

  lemma WroteJoin(w: World, mid: World, next: World, a: seq<BidRow>, b: seq<BidRow>)
    requires Wrote(w, mid, a) && Wrote(mid, next, b)
    ensures Wrote(w, next, a + b)
  {
    assert EventsFor(a + b, w.auction.rules.cap) == EventsFor(a, w.auction.rules.cap) + EventsFor(b, w.auction.rules.cap);
  }

  lemma AcceptedWrote(w: World, user: UserId, amount: int, now: int, ordered: int, row: BidRow)
    requires CoreInv(w) && w.auction.status == Active && ApplyAccepted(w, user, amount, now, ordered).Ok?
    requires row.user == user && row.amount == amount && row.accepted && row.seqNo == Some(w.auction.seqNo + 1)
    ensures
      var moved := ApplyAccepted(w, user, amount, now, ordered).value.0;
      Wrote(w, moved.(bids := w.bids + [row]), [row])
  {
    assert EventsFor([row], w.auction.rules.cap) == [EventFor(row, w.auction.rules.cap)];
  }

  lemma AwardWrote(w: World, award: Award, clock: Clock)
    requires CoreInv(w) && w.auction.status == Active && ApplyAward(w, award, clock).Ok?
    ensures Wrote(w, ApplyAward(w, award, clock).value.0, [AwardRow(award, w.auction.seqNo + 1)])
  {
    var now := AutoTime(clock, w.auction.seqNo + 1);
    AwardShape(w, award, clock);
    AcceptedWrote(w, award.user, award.amount, now, clock.ordered, AwardRow(award, w.auction.seqNo + 1));
  }

  lemma {:induction false} SettleWrote(w: World, last: BidResult, clock: Clock)
    requires CoreInv(w) && w.auction.status in {Active, Sold} && Settle(w, last, clock).Ok?
    ensures
      Wrote(w, Settle(w, last, clock).value.0, OpenKeys.AwardRows(Awards(w.auction, w.intents), w.auction.seqNo))
    decreases |Awards(w.auction, w.intents)|
  {
    var awards := Awards(w.auction, w.intents);
    if awards == [] {
      assert OpenKeys.AwardRows(awards, w.auction.seqNo) == [];
      NothingWritten(w);
    } else {
      var (next, result) := ApplyAward(w, awards[0], clock).value;
      AwardsUnfold(w, clock);
      AwardKeepsCore(w, awards[0], clock);
      AwardWrote(w, awards[0], clock);
      assert Settle(w, last, clock) == Settle(next, result, clock);
      SettleWrote(next, result, clock);
      var first, rest := [AwardRow(awards[0], w.auction.seqNo + 1)], OpenKeys.AwardRows(awards[1..], w.auction.seqNo + 1);
      WroteJoin(w, next, Settle(next, result, clock).value.0, first, rest);
      RowsCons(awards, w.auction.seqNo);
    }
  }

  lemma RowsCons(awards: seq<Award>, seqNo: nat)
    requires awards != []
    ensures OpenKeys.AwardRows(awards, seqNo)
      == [AwardRow(awards[0], seqNo + 1)] + OpenKeys.AwardRows(awards[1..], seqNo + 1)
  {
  }

  lemma NothingWritten(w: World)
    ensures Wrote(w, CloseIntents(w), [])
  {
    assert w.bids + [] == w.bids && w.events + [] == w.events && w.outbox + [] == w.outbox;
  }

  lemma TakeWrote(w: World, user: UserId, key: BidKey, amount: int, clock: Clock)
    requires CoreInv(w) && w.auction.status == Active && TakeBid(w, user, key, amount, clock).Ok?
    ensures
      var next := TakeBid(w, user, key, amount, clock).value.0;
      && |next.bids| > |w.bids| && w.bids <= next.bids
      && next.bids[|w.bids|] == BidRow(user, key, amount, Some(w.auction.seqNo + 1), true, Manual)
      && Wrote(w, next, next.bids[|w.bids|..])
  {
    var (taken, result) := Placed(w, user, key, amount, clock).value;
    var row := BidRow(user, key, amount, Some(w.auction.seqNo + 1), true, Manual);
    var next := TakeBid(w, user, key, amount, clock).value.0;
    PlacedKeepsCore(w, user, key, amount, clock);
    AcceptedWrote(w, user, amount, clock.first, clock.ordered, row);
    assert Wrote(w, taken, [row]);
    if result == ResultSold {
      assert next.bids[|w.bids|..] == [row];
    } else {
      var rest := OpenKeys.AwardRows(Awards(taken.auction, taken.intents), taken.auction.seqNo);
      SettleWrote(taken, result, clock);
      WroteJoin(w, taken, next, [row], rest);
      assert next.bids == w.bids + ([row] + rest);
      assert next.bids[|w.bids|..] == [row] + rest;
    }
  }

  /** A bid that is taken: its own row first, then those of the automatic bids; an event for each; and an answer that tells
      the committed row. */
  ghost predicate Taken(
      w: World, next: World, user: UserId, key: BidKey, amount: int, clock: Clock, response: Response)
    requires w.auction.endAt.Some?
  {
    && TellsRow(next.auction, response) && next.auction.status in {Active, Sold}
    && IsResult(response.result, next.auction.status == Sold,
                LastExtends(w.auction, BidPlan(w.auction, w.intents, user, amount, clock)))
    && |next.bids| > |w.bids| && w.bids <= next.bids
    && next.bids[|w.bids|] == BidRow(user, key, amount, Some(w.auction.seqNo + 1), true, Manual)
    && Wrote(w, next.(records := w.records), next.bids[|w.bids|..])
    && next.records == w.records[(user, key) := Record(amount, Completed, Some(response))]
  }

  lemma DecisionIsTaken(w: World, user: UserId, key: BidKey, amount: int, token: string, clock: Clock, skip: bool)
    requires CoreInv(w) && w.auction.endAt.Some?
    requires EvaluateBid(w.auction, user, amount, clock.first, skip) == Take
    requires DecideBid(w, user, key, amount, token, clock, skip).Ok?
    ensures
      var (next, response) := DecideBid(w, user, key, amount, token, clock, skip).value;
      Taken(w, next, user, key, amount, clock, response)
  {
    TakeResult(w, user, key, amount, clock);
    TakeWrote(w, user, key, amount, clock);
  }

  lemma DecisionIsRefused(w: World, user: UserId, key: BidKey, amount: int, token: string, clock: Clock, skip: bool)
    requires w.auction.endAt.Some? && EvaluateBid(w.auction, user, amount, clock.first, skip).Refuse?
    ensures
      var code, r := EvaluateBid(w.auction, user, amount, clock.first, skip).code,
                     DecideBid(w, user, key, amount, token, clock, skip);
      if KeyTaken(w.bids, user, key) then r == Err(ConstraintViolation)
      else r.Ok? && Refused(w, r.value.0, user, key, amount, code, r.value.1)
  {
  }

  // ---- The calls ----------------------------------------------------------------------------

  /** A first call under its key, with a key and a positive amount, on an auction that has been started. */
  lemma PlaceAnswers(w: World, user: UserId, key: BidKey, amount: int, token: string, clock: Clock)
    requires CoreInv(w) && key != Plain("") && amount > 0 && (user, key) !in w.records && w.auction.endAt.Some?
    ensures
      var r, reason := PlaceBid(w, user, key, amount, token, clock), Reason(w.auction, user, amount, clock.first);
      if reason.Some? then
        if KeyTaken(w.bids, user, key) then r == Err(ConstraintViolation)
        else r.Ok? && Refused(w, r.value.0, user, key, amount, reason.value, r.value.1)
      else if AsksFirst(w.auction, amount) then
        r.Ok? && Asked(w, r.value.0, user, key, amount, token, clock.first, r.value.1)
      else r.Ok? ==> Taken(w, r.value.0, user, key, amount, clock, r.value.1)
  {
    EvaluationIs(w.auction, user, amount, clock.first, false);
    if Reason(w.auction, user, amount, clock.first).Some? {
      DecisionIsRefused(w, user, key, amount, token, clock, false);
    } else if !AsksFirst(w.auction, amount) {
      if PlaceBid(w, user, key, amount, token, clock).Ok? { DecisionIsTaken(w, user, key, amount, token, clock, false); }
    }
  }

  /** The calls that decide nothing: without a key or an amount, before the start, or under a key that has a record. */
  lemma PlaceDecidesNothing(w: World, user: UserId, key: BidKey, amount: int, token: string, clock: Clock)
    ensures key == Plain("") || amount <= 0 ==> PlaceBid(w, user, key, amount, token, clock) == Err(InvalidArgument)
    ensures key != Plain("") && amount > 0 && (user, key) !in w.records && w.auction.endAt.None? ==>
      PlaceBid(w, user, key, amount, token, clock) == Err(ConstraintViolation)
    ensures key != Plain("") && amount > 0 && (user, key) in w.records ==>
      var record := w.records[(user, key)];
      PlaceBid(w, user, key, amount, token, clock)
      == (if record.hash != amount then Err(KeyReused)
          else if record.status == Completed && record.response.Some? then Ok((w, record.response.value))
          else Err(RetryLater))
    ensures key != Plain("") && amount > 0 && (user, key) in w.records ==>
      PlaceBidTx(w, user, key, amount, token, clock)
      == Err(if w.records[(user, key)].hash != amount then KeyReused else RetryLater)
  {
  }

  /** A confirmation of an open bid: only with its own token and in time, and then it is decided at the amount that was
      asked about, without asking again. */
  lemma ConfirmAnswers(
      w: World, user: UserId, key: BidKey, token: string, clock: Clock, expected: string, seqNo: nat, expiresAt: int)
    requires CoreInv(w) && key != Plain("") && token != "" && (user, key) in w.records
    requires
      var record := w.records[(user, key)];
      record == Record(record.hash, Completed, Some(ConfirmRequired(expected, seqNo, record.hash, expiresAt)))
    ensures
      var r, amount := ConfirmBid(w, user, key, token, clock), w.records[(user, key)].hash;
      if token != expected || clock.presented > expiresAt then r == Err(ConfirmUsed)
      else if w.auction.endAt.None? then r == Err(ConstraintViolation)
      else
        var reason := Reason(w.auction, user, amount, clock.first);
        if reason.None? then r.Ok? ==> Taken(w, r.value.0, user, key, amount, clock, r.value.1)
        else if KeyTaken(w.bids, user, key) then r == Err(ConstraintViolation)
        else r.Ok? && Refused(w, r.value.0, user, key, amount, reason.value, r.value.1)
  {
    var amount := w.records[(user, key)].hash;
    if token == expected && clock.presented <= expiresAt && w.auction.endAt.Some? {
      EvaluationIs(w.auction, user, amount, clock.first, true);
      if Reason(w.auction, user, amount, clock.first).Some? {
        DecisionIsRefused(w, user, key, amount, "", clock, true);
      } else if ConfirmBid(w, user, key, token, clock).Ok? {
        DecisionIsTaken(w, user, key, amount, "", clock, true);
      }
    }
  }

  /** The confirmations that decide nothing. */
  lemma ConfirmDecidesNothing(w: World, user: UserId, key: BidKey, token: string, clock: Clock)
    ensures key == Plain("") || token == "" ==> ConfirmBid(w, user, key, token, clock) == Err(InvalidArgument)
    ensures key != Plain("") && token != "" && (user, key) !in w.records ==>
      ConfirmBid(w, user, key, token, clock) == Err(NotFound)
    ensures key != Plain("") && token != "" && (user, key) in w.records ==>
      var record := w.records[(user, key)];
      && (record.status == Completed && record.response.Some? && record.response.value.Decision? ==>
            ConfirmBid(w, user, key, token, clock) == Ok((w, record.response.value)))
      && (record.status != Completed || record.response.None? ==>
            ConfirmBid(w, user, key, token, clock) == Err(ConfirmUsed))
  {
  }
}
