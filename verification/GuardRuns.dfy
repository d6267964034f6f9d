/** The guard among transactions and Redis writes that are lost, late and repeated: under frozen rules it never rejects
    what the authority would accept, and after an edit of the rules it may. */
module GuardRuns {
  import opened Wrappers
  import opened BidRules
  import opened AuctionState
  import opened Settlement
  import opened SettlementLaws
  import opened Transactions
  import opened Invariants
  import opened Idempotency
  import opened MachineLaws
  import opened RedisGuard

  // ---- Stale but sound ------------------------------------------------------------------

  /** A price the auction has had under its present rules. */
  ghost predicate PastPrice(price: int, a: Auction) {
    price <= a.price && SameGrid(a.price, price, a.rules.increment)
  }

  /** The projection tells nothing the row has not passed. */
  ghost predicate Behind(p: Projection, a: Auction) {
    && p.start == a.rules.start && p.increment == a.rules.increment && p.cap == CapField(a.rules)
    && PastPrice(p.price, a)
    && (p.count <= 0 ==> p.price == p.start)
    && (IsTerminal(p.status) ==> a.status == p.status)
  }

  /** The authority does not take the bid and does not ask to confirm it. */
  ghost predicate Refuses(w: World, user: UserId, key: BidKey, amount: int, token: string, clock: Clock, skip: bool) {
    var r := DecideBid(w, user, key, amount, token, clock, skip);
    r.Ok? ==> r.value.1.Decision? && r.value.1.result.ResultRejected?
  }

  /** A rejection from a projection behind the row is one the authority shares. */
  lemma RejectionIsShared(
      p: Projection, w: World, user: UserId, key: BidKey, amount: int, stale: bool, token: string, clock: Clock, skip: bool)
    requires RowInv(w.auction) && Behind(p, w.auction) && Judge(p, user, amount, stale).Reject?
    ensures Refuses(w, user, key, amount, token, clock, skip)
  {
    var a := w.auction;
    if p.status == Active && p.increment > 0 && SameGrid(amount, a.price, a.rules.increment) {
      GridJoin(amount, a.price, p.price, a.rules.increment);
    }
    assert !(Classify(a, amount) in {Accepted, AcceptedSold}) || IsTerminal(a.status);
  }

  // ---- Nothing the auction does overtakes itself ------------------------------------------

  /** One committed step under unchanged rules: prices move up the grid and final statuses stay. */
  ghost predicate Onward(a: Auction, b: Auction) {
    && b.rules == a.rules && a.price <= b.price && SameGrid(b.price, a.price, a.rules.increment)
    && (IsTerminal(a.status) ==> b.status == a.status)
  }

  lemma OnwardKeepsPast(price: int, a: Auction, b: Auction)
    requires PastPrice(price, a) && Onward(a, b)
    ensures PastPrice(price, b)
  {
    GridJoin(b.price, a.price, price, a.rules.increment);
  }

  lemma SameRulesSameGrid(a: Auction, b: Auction)
    requires PriceOnGrid(a) && PriceOnGrid(b) && b.rules == a.rules
    ensures SameGrid(b.price, a.price, a.rules.increment)
  {
    var start, n := a.rules.start, a.rules.increment;
    GridShift(start, start, n);
    GridJoin(a.price, start, start, n);
    GridJoin(b.price, start, a.price, n);
  }

  lemma UnstartedStep(w: World, step: Step)
    requires CoreInv(w) && w.auction.endAt.None? && !IsBid(step) && !step.DoUpdateRules? && !step.DoStart?
    ensures Next(w, step).auction.rules == w.auction.rules
    ensures IsTerminal(w.auction.status) ==> Next(w, step).auction.status == w.auction.status
  {
  }

  lemma UnstartedBid(w: World, step: Step)
    requires w.auction.endAt.None? && IsBid(step)
    ensures Next(w, step) == w
  {
    if Try(w, step).Ok? { BidReplaysOrDecides(w, step); }
  }

  lemma UnstartedGoesOnward(w: World, step: Step)
    requires CoreInv(w) && w.auction.endAt.None? && !step.DoUpdateRules?
    requires RowInv(Next(w, step).auction)
    ensures Onward(w.auction, Next(w, step).auction)
  {
    if IsBid(step) {
      UnstartedBid(w, step);
    } else if step.DoStart? {
      if Start(w, step.clock, step.roomFree).Ok? { StartMovesForward(w, step.clock); }
    } else {
      UnstartedStep(w, step);
    }
    SameRulesSameGrid(w.auction, Next(w, step).auction);
  }

  lemma StepGoesOnward(w: World, step: Step)
    requires CoreInv(w) && !step.DoUpdateRules?
    ensures Onward(w.auction, Next(w, step).auction)
  {
    StepKeepsCore(w, step);
    if w.auction.endAt.Some? {
      StepMovesForward(w, step);
      SameRulesSameGrid(w.auction, Next(w, step).auction);
    } else {
      UnstartedGoesOnward(w, step);
    }
  }

  // ---- Responses ----------------------------------------------------------------------

  /** An accepted response tells of a state the auction has passed. */
  ghost predicate ResponseBehind(r: Response, a: Auction) {
    IsAcceptedResponse(r) ==>
      a.endAt.Some? && PastPrice(r.price, a) && (r.result == ResultSold ==> a.status == Sold)
  }

  ghost predicate RecordsBehind(w: World) {
    forall k :: k in w.records && w.records[k].response.Some? ==> ResponseBehind(w.records[k].response.value, w.auction)
  }

  lemma {:induction false} SoldResultIsSold(w: World, last: BidResult, clock: Clock)
    requires CoreInv(w) && w.auction.status in {Active, Sold} && (last == ResultSold ==> w.auction.status == Sold)
    requires Settle(w, last, clock).Ok?
    ensures Settle(w, last, clock).value.1 == ResultSold ==> Settle(w, last, clock).value.0.auction.status == Sold
    ensures last.ResultRejected? || !Settle(w, last, clock).value.1.ResultRejected?
    decreases |Awards(w.auction, w.intents)|
  {
    var awards := Awards(w.auction, w.intents);
    if awards != [] {
      var (next, result) := ApplyAward(w, awards[0], clock).value;
      AwardsUnfold(w, clock);
      AwardKeepsCore(w, awards[0], clock);
      AcceptedRowLaws(w.auction, awards[0].user, awards[0].amount, clock.first);
      SoldResultIsSold(next, result, clock);
    }
  }

  lemma TakeResultFits(w: World, user: UserId, key: BidKey, amount: int, clock: Clock)
    requires CoreInv(w) && w.auction.status == Active && TakeBid(w, user, key, amount, clock).Ok?
    ensures
      var (next, result) := TakeBid(w, user, key, amount, clock).value;
      !result.ResultRejected? && (result == ResultSold ==> next.auction.status == Sold)
  {
    PlacedKeepsCore(w, user, key, amount, clock);
    var (taken, result) := Placed(w, user, key, amount, clock).value;
    if result != ResultSold { SoldResultIsSold(taken, result, clock); }
  }

  /** A decision reports the row it has just committed. */
  lemma DecisionIsBehind(w: World, user: UserId, key: BidKey, amount: int, token: string, clock: Clock, skip: bool)
    requires CoreInv(w) && DecideBid(w, user, key, amount, token, clock, skip).Ok?
    ensures
      var (next, response) := DecideBid(w, user, key, amount, token, clock, skip).value;
      && ResponseBehind(response, next.auction)
      && next.records == w.records[(user, key) := Record(amount, Completed, Some(response))]
  {
    var (next, response) := DecideBid(w, user, key, amount, token, clock, skip).value;
    if EvaluateBid(w.auction, user, amount, clock.first, skip).Take? {
      TakeResultFits(w, user, key, amount, clock);
      TakeAddsOneRow(w, user, key, amount, clock);
      GridShift(next.auction.price, next.auction.price, next.auction.rules.increment);
    }
  }

  lemma OnwardKeepsRecords(w: World, next: World)
    requires RecordsBehind(w) && next.records == w.records && Onward(w.auction, next.auction)
    requires w.auction.endAt.Some? ==> next.auction.endAt.Some?
    ensures RecordsBehind(next)
  {
    forall k | k in w.records && w.records[k].response.Some?
      ensures ResponseBehind(w.records[k].response.value, next.auction)
    {
      var r := w.records[k].response.value;
      if IsAcceptedResponse(r) { OnwardKeepsPast(r.price, w.auction, next.auction); }
    }
  }

  lemma BidKeepsRecordsBehind(w: World, step: Step)
    requires CoreInv(w) && RecordsBehind(w) && IsBid(step)
    ensures RecordsBehind(Next(w, step))
  {
    var next := Next(w, step);
    if Try(w, step).Ok? && next != w {
      BidReplaysOrDecides(w, step);
      StepGoesOnward(w, step);
      var user, key := step.user, step.key;
      DecisionIsBehind(w, user, key, BidAmount(w, step),
        if step.DoConfirm? then "" else step.token, step.clock, step.DoConfirm?);
      assert w.auction.endAt.Some?;
      StepMovesForward(w, step);
      OnwardKeepsRecords(w, next.(records := w.records));
      var response := BidDecision(w, step).value.1;
      assert forall k :: k in next.records && k != (user, key) ==> k in w.records && next.records[k] == w.records[k];
    }
  }

  lemma StepKeepsRecordsBehind(w: World, step: Step)
    requires CoreInv(w) && RecordsBehind(w)
    ensures RecordsBehind(Next(w, step))
  {
    if IsBid(step) {
      BidKeepsRecordsBehind(w, step);
    } else if step.DoUpdateRules? {
    } else {
      StepGoesOnward(w, step);
      if step.DoStart? {
        if Start(w, step.clock, step.roomFree).Ok? {
          var live := Opened(w, step.clock.first);
          AwardsLeaveKeys(live, Awards(live.auction, live.intents), ResultAccepted, step.clock);
          StartMovesForward(w, step.clock);
        }
      } else {
        OtherStepsLeaveKeys(w, step);
      }
      if w.auction.endAt.Some? { StepMovesForward(w, step); }
      OnwardKeepsRecords(w, Next(w, step));
    }
  }

  // ---- Every interleaving with Redis ----------------------------------------------------

  /** The database, the key, and the projections that were read and may be written at any later time. */
  datatype Guarded = Guarded(world: World, key: Option<Projection>, inFlight: seq<Projection>)

  datatype GuardStep =
    | Commit(step: Step)
    | ReadRow
    | WriteRow(index: nat, now: int)
    | Refresh(user: UserId, bidKey: BidKey, now: int)
    | Expire

  /** Redis writes may be lost, repeated and arbitrarily late: any projection ever read and any response ever
      given, which the idempotency records keep, may be applied at any time. */
  function NextGuarded(s: Guarded, g: GuardStep): Guarded {
    match g
    case Commit(step) => s.(world := Next(s.world, step))
    case ReadRow => s.(inFlight := s.inFlight + [Project(s.world.auction, 0)])
    case WriteRow(i, now) => if i < |s.inFlight| then s.(key := Some(s.inFlight[i].(projectedAt := now))) else s
    case Refresh(user, k, now) =>
      if (user, k) in s.world.records && s.world.records[(user, k)].response.Some?
         && IsAcceptedResponse(s.world.records[(user, k)].response.value)
      then s.(key := Refreshed(s.key, s.world.records[(user, k)].response.value, now))
      else s
    case Expire => s.(key := None)
  }

  function RunGuarded(s: Guarded, steps: seq<GuardStep>): Guarded
    decreases |steps|
  {
    if steps == [] then s else RunGuarded(NextGuarded(s, steps[0]), steps[1..])
  }

  predicate RulesStayFrozen(steps: seq<GuardStep>) {
    forall i :: 0 <= i < |steps| ==> !(steps[i].Commit? && steps[i].step.DoUpdateRules?)
  }

  ghost predicate GuardInv(s: Guarded) {
    && CoreInv(s.world) && RecordsBehind(s.world)
    && (s.key.Some? ==> Behind(s.key.value, s.world.auction))
    && (forall i :: 0 <= i < |s.inFlight| ==> Behind(s.inFlight[i], s.world.auction))
  }

  lemma ProjectIsBehind(a: Auction, now: int)
    requires RowInv(a)
    ensures Behind(Project(a, now), a)
  {
    GridShift(a.price, a.price, a.rules.increment);
  }

  lemma BehindGoesOnward(p: Projection, a: Auction, b: Auction)
    requires Behind(p, a) && Onward(a, b)
    ensures Behind(p, b)
  {
    OnwardKeepsPast(p.price, a, b);
  }

  lemma GuardStepKeepsInv(s: Guarded, g: GuardStep)
    requires GuardInv(s) && !(g.Commit? && g.step.DoUpdateRules?)
    ensures GuardInv(NextGuarded(s, g))
  {
    match g
    case Commit(step) =>
      var next := NextGuarded(s, g);
      StepKeepsCore(s.world, step);
      StepKeepsRecordsBehind(s.world, step);
      StepGoesOnward(s.world, step);
      if s.key.Some? { BehindGoesOnward(s.key.value, s.world.auction, next.world.auction); }
      forall i | 0 <= i < |s.inFlight| ensures Behind(s.inFlight[i], next.world.auction) {
        BehindGoesOnward(s.inFlight[i], s.world.auction, next.world.auction);
      }
    case ReadRow => ProjectIsBehind(s.world.auction, 0);
    case _ =>
  }

  lemma {:induction false} GuardRunKeepsInv(s: Guarded, steps: seq<GuardStep>)
    requires GuardInv(s) && RulesStayFrozen(steps)
    ensures GuardInv(RunGuarded(s, steps))
    decreases |steps|
  {
    if steps != [] {
      GuardStepKeepsInv(s, steps[0]);
      GuardRunKeepsInv(NextGuarded(s, steps[0]), steps[1..]);
    }
  }

  lemma {:induction false} RunKeepsRecordsBehind(w: World, steps: seq<Step>)
    requires CoreInv(w) && RecordsBehind(w)
    ensures CoreInv(Run(w, steps)) && RecordsBehind(Run(w, steps))
    decreases |steps|
  {
    if steps != [] {
      StepKeepsCore(w, steps[0]);
      StepKeepsRecordsBehind(w, steps[0]);
      RunKeepsRecordsBehind(Next(w, steps[0]), steps[1..]);
    }
  }

  /** The guard is sound on stale data. From any reachable auction on, with the key empty and the rules no longer
      edited, over every interleaving of transactions, projections, refreshes and expiries: whatever the guard
      rejects, the authority would not have accepted at that moment either. */
  lemma GuardIsSound(
      rules: Rules, before: seq<Step>, steps: seq<GuardStep>,
      user: UserId, key: BidKey, amount: int, now: int, maxStaleness: int, token: string, clock: Clock, skip: bool)
    requires CreateAuction(rules).Ok? && RulesStayFrozen(steps)
    requires
      var s := RunGuarded(Guarded(Run(CreateAuction(rules).value, before), None, []), steps);
      Guard(s.key, user, amount, now, maxStaleness).Reject?
    ensures
      var s := RunGuarded(Guarded(Run(CreateAuction(rules).value, before), None, []), steps);
      Refuses(s.world, user, key, amount, token, clock, skip)
  {
    var w := CreateAuction(rules).value;
    CreateEstablishesCore(rules);
    RunKeepsRecordsBehind(w, before);
    var s0 := Guarded(Run(w, before), None, []);
    GuardRunKeepsInv(s0, steps);
    var s := RunGuarded(s0, steps);
    RejectionIsShared(s.key.value, s.world, user, key, amount, IsStale(s.key.value, now, maxStaleness), token, clock, skip);
  }

  // ---- Why the rules must be frozen -------------------------------------------------------

  const COARSE := Rules(0, 100, None, 60, 10, 10, 1, None)
  const FINE := Rules(0, 10, None, 60, 10, 10, 1, None)

  function LiveFine(): World {
    var log := [Event(1, AuctionCreated, None, None), Event(2, RulesUpdated, None, None),
                Event(3, AuctionScheduled, None, None), Event(4, AuctionStarted, None, None)];
    var row := Auction(Active, FINE, 0, None, 0, Some(60), 0, 4);
    World(row, [], [], log, log, [], map[], Some(Job(JobPending, 60, 60, None, 0, MAX_JOB_ATTEMPTS)), None)
  }

  function ScheduledFine(): World {
    World(Auction(Scheduled, FINE, 0, None, 0, None, 0, 3), [], [],
          LiveFine().events[..3], LiveFine().events[..3], [], map[], None, None)
  }

  lemma ScheduledFineIsReachable()
    ensures CreateAuction(COARSE).Ok?
    ensures Next(Next(CreateAuction(COARSE).value, DoUpdateRules(FINE)), DoSchedule) == ScheduledFine()
  {
  }

  lemma StartedFineIsLive()
    ensures Next(ScheduledFine(), DoStart(Still(0), true)) == LiveFine()
  {
    var live := Opened(ScheduledFine(), 0);
    assert live.events == LiveFine().events;
    assert Awards(live.auction, live.intents) == [];
    assert Settle(live, ResultAccepted, Still(0)) == Ok((CloseIntents(live), ResultAccepted));
  }

  /** A bid with no cap, no threshold, no intents and no extension about it. */
  lemma PlainBid(w: World, user: UserId, key: BidKey, amount: int, clock: Clock)
    requires w.auction.status == Active && w.intents == [] && w.auction.winner != Some(user)
    requires w.auction.endAt.Some? && w.auction.endAt.value - clock.first > w.auction.rules.extendWindow >= 0
    requires w.auction.rules.fatFinger.None? && Classify(w.auction, amount) == Accepted
    requires !KeyTaken(w.bids, user, key)
    ensures
      var a := w.auction;
      var response := Decision(ResultAccepted, a.seqNo + 1, amount, Some(user), a.endAt.value);
      var r := DecideBid(w, user, key, amount, "", clock, false);
      && r.Ok? && r.value.1 == response
      && r.value.0.auction ==
           a.(price := amount, winner := Some(user), acceptedCount := a.acceptedCount + 1, seqNo := a.seqNo + 1)
      && r.value.0.intents == [] && r.value.0.bids == w.bids + [TakenRow(user, key, amount, a.seqNo + 1)]
      && r.value.0.records == w.records[(user, key) := Record(amount, Completed, Some(response))]
  {
    var taken := Placed(w, user, key, amount, clock).value.0;
    assert Awards(taken.auction, taken.intents) == [];
    assert Settle(taken, ResultAccepted, clock) == Ok((CloseIntents(taken), ResultAccepted));
  }

  lemma ThreeSteps(s: Guarded, first: GuardStep, second: GuardStep, third: GuardStep)
    ensures RunGuarded(s, [first, second, third]) == NextGuarded(NextGuarded(NextGuarded(s, first), second), third)
  {
    assert [first, second, third][1..] == [second, third] && [second, third][1..] == [third] && [third][1..] == [];
    var t := NextGuarded(NextGuarded(s, first), second);
    assert RunGuarded(t, [third]) == RunGuarded(NextGuarded(t, third), []);
  }

  lemma FourSteps(s: Guarded, zeroth: GuardStep, first: GuardStep, second: GuardStep, third: GuardStep)
    ensures RunGuarded(s, [zeroth, first, second, third])
      == NextGuarded(NextGuarded(NextGuarded(NextGuarded(s, zeroth), first), second), third)
  {
    assert [zeroth, first, second, third][1..] == [first, second, third];
    ThreeSteps(NextGuarded(s, zeroth), first, second, third);
  }

  function DraftCoarse(): Projection {
    Projection(Draft, 0, 0, 100, 0, 0, 1, 0, None, 0)
  }

  /** A projection is read, the rules are edited, and the auction goes live. */
  lemma EditedRunGoesLive()
    ensures CreateAuction(COARSE).Ok?
    ensures
      var w := CreateAuction(COARSE).value;
      RunGuarded(Guarded(w, None, []), Edited()) == Guarded(LiveFine(), None, [DraftCoarse()])
  {
    ScheduledFineIsReachable();
    StartedFineIsLive();
    FourSteps(Guarded(CreateAuction(COARSE).value, None, []),
              ReadRow, Commit(DoUpdateRules(FINE)), Commit(DoSchedule), Commit(DoStart(Still(0), true)));
  }

  function Edited(): seq<GuardStep> {
    [ReadRow, Commit(DoUpdateRules(FINE)), Commit(DoSchedule), Commit(DoStart(Still(0), true))]
  }

  function Refreshing(): seq<GuardStep> {
    [Commit(DoPlace("u", Plain("k"), 10, "", Still(0))), WriteRow(0, 1), Refresh("u", Plain("k"), 1)]
  }

  lemma {:induction false} RunJoins(s: Guarded, first: seq<GuardStep>, rest: seq<GuardStep>)
    ensures RunGuarded(s, first + rest) == RunGuarded(RunGuarded(s, first), rest)
    decreases |first|
  {
    if first == [] {
      assert first + rest == rest;
    } else {
      assert (first + rest)[0] == first[0] && (first + rest)[1..] == first[1..] + rest;
      RunJoins(NextGuarded(s, first[0]), first[1..], rest);
    }
  }

  function AfterTen(): World {
    Next(LiveFine(), DoPlace("u", Plain("k"), 10, "", Still(0)))
  }

  lemma TenIsTaken()
    ensures
      var response := Decision(ResultAccepted, 5, 10, Some("u"), 60);
      && AfterTen().auction == LiveFine().auction.(price := 10, winner := Some("u"), acceptedCount := 1, seqNo := 5)
      && AfterTen().intents == [] && AfterTen().bids == [TakenRow("u", Plain("k"), 10, 5)]
      && ("u", Plain("k")) in AfterTen().records
      && AfterTen().records[("u", Plain("k"))] == Record(10, Completed, Some(response))
  {
    PlainBid(LiveFine(), "u", Plain("k"), 10, Still(0));
    assert AfterTen() == DecideBid(LiveFine(), "u", Plain("k"), 10, "", Still(0), false).value.0;
  }

  lemma TwentyIsTaken()
    ensures !Refuses(AfterTen(), "v", Plain("k"), 20, "", Still(1), false)
  {
    TenIsTaken();
    assert "v" != "u" by { assert "v"[0] != "u"[0]; }
    PlainBid(AfterTen(), "v", Plain("k"), 20, Still(1));
  }

  function CoarseKey(): Projection {
    Projection(Active, 10, 0, 100, 0, 60, 5, 1, Some("u"), 1)
  }

  lemma CoarseKeyRejects()
    ensures Judge(CoarseKey(), "v", 20, IsStale(CoarseKey(), 1, 10)).Reject?
  {
    assert "v" != "u" by { assert "v"[0] != "u"[0]; }
  }

  /** The projection from before the edit, written late and then refreshed by the accepted bid. */
  lemma RefreshedKey()
    ensures
      RunGuarded(Guarded(LiveFine(), None, [DraftCoarse()]), Refreshing())
      == Guarded(AfterTen(), Some(CoarseKey()), [DraftCoarse()])
  {
    TenIsTaken();
    var live := Guarded(LiveFine(), None, [DraftCoarse()]);
    ThreeSteps(live, Refreshing()[0], Refreshing()[1], Refreshing()[2]);
    var t := NextGuarded(NextGuarded(live, Refreshing()[0]), Refreshing()[1]);
    assert t == Guarded(AfterTen(), Some(DraftCoarse().(projectedAt := 1)), [DraftCoarse()]);
  }

  /** One run from the creation of the auction: a projection is read, the rules are edited, the auction goes live and
      takes a bid; the old projection is written, then refreshed. The guard now rejects a bid the authority would
      accept, so frozen rules are needed. */
  lemma EditedRulesBreakTheGuard()
    ensures CreateAuction(COARSE).Ok?
    ensures
      var s := RunGuarded(Guarded(CreateAuction(COARSE).value, None, []), Edited() + Refreshing());
      && Guard(s.key, "v", 20, 1, 10).Reject?
      && !Refuses(s.world, "v", Plain("k"), 20, "", Still(1), false)
  {
    EditedRunGoesLive();
    RunJoins(Guarded(CreateAuction(COARSE).value, None, []), Edited(), Refreshing());
    RefreshedKey();
    TwentyIsTaken();
    CoarseKeyRejects();
  }
}
