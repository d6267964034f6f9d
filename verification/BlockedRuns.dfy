/** Runs after which an auction cannot start or loses acceptable bids: bounds stranded by an edit of the rules, and a
    manual bid under the key of an automatic one. */
module BlockedRuns {
  import opened Wrappers
  import opened BidRules
  import opened AuctionState
  import opened Settlement
  import opened SettlementLaws
  import opened Transactions
  import opened Invariants
  import opened MachineLaws
  import opened FrozenRules

  const FIVES := Rules(100, 5, None, 60, 10, 10, 1, None)
  const TENS := Rules(100, 10, None, 60, 10, 10, 2, None)

  /** The state after a run is one more transaction away. */
  lemma Goes(start: World, steps: seq<Step>, w: World, step: Step, next: World) returns (longer: seq<Step>)
    requires Run(start, steps) == w && Next(w, step) == next
    ensures Run(start, longer) == next
  {
    RunExtends(start, steps, step);
    longer := steps + [step];
  }

  ghost predicate Reachable(rules: Rules, w: World)
    requires CreateAuction(rules).Ok?
  {
    exists steps :: Run(CreateAuction(rules).value, steps) == w
  }

  lemma ReachableStep(rules: Rules, w: World, step: Step)
    requires CreateAuction(rules).Ok? && Reachable(rules, w)
    ensures Reachable(rules, Next(w, step))
  {
    var steps :| Run(CreateAuction(rules).value, steps) == w;
    var longer := Goes(CreateAuction(rules).value, steps, w, step, Next(w, step));
  }

  lemma ReachableCore(rules: Rules, w: World)
    requires CreateAuction(rules).Ok? && Reachable(rules, w)
    ensures CoreInv(w)
  {
    var steps :| Run(CreateAuction(rules).value, steps) == w;
    CreateEstablishesCore(rules);
    RunKeepsCore(CreateAuction(rules).value, steps);
  }

  // ---- Bounds stranded by an edit of the rules --------------------------------------------------

  function Bound(id: IntentId, user: UserId, max: int): Intent {
    Intent(id, user, max, 0, IntentActive, None)
  }

  /** A scheduled auction. */
  lemma ScheduleReaches(rules: Rules) returns (w: World)
    requires CreateAuction(rules).Ok?
    ensures Reachable(rules, w) && w.auction == Auction(Scheduled, rules, rules.start, None, 0, None, 0, 2)
    ensures w.intents == [] && w.records == map[]
  {
    var created := CreateAuction(rules).value;
    assert Run(created, []) == created;
    ReachableStep(rules, created, DoSchedule);
    w := Next(created, DoSchedule);
  }

  /** Unscheduled, edited and scheduled again: the grid is coarser and the bounds are still there. */
  lemma EditReaches(w: World) returns (edited: World)
    requires CreateAuction(FIVES).Ok? && Reachable(FIVES, w) && w.auction.status == Scheduled
    ensures Reachable(FIVES, edited) && edited.intents == w.intents
    ensures edited.auction == w.auction.(rules := TENS, price := 100, seqNo := w.auction.seqNo + 3)
  {
    ReachableStep(FIVES, w, DoUnschedule);
    ReachableStep(FIVES, Next(w, DoUnschedule), DoUpdateRules(TENS));
    edited := Next(Next(w, DoUnschedule), DoUpdateRules(TENS));
    ReachableStep(FIVES, edited, DoSchedule);
    edited := Next(edited, DoSchedule);
  }

  /** A put by a new user appends its bound. */
  lemma PutAppends(w: World, user: UserId, max: int, id: IntentId)
    requires w.auction.status in {Scheduled, Active} && user != "" && max > 0
    requires Classify(w.auction, max) == Accepted && !IdTaken(w.intents, id)
    requires forall i :: 0 <= i < |w.intents| ==> w.intents[i].user != user
    ensures Next(w, DoPutIntent(user, max, id, 0)) == w.(intents := w.intents + [Bound(id, user, max)])
  {
    FindIntentIs(w.intents, user);
  }

  lemma PutReaches(rules: Rules, w: World, user: UserId, max: int, id: IntentId) returns (next: World)
    requires CreateAuction(rules).Ok? && Reachable(rules, w)
    requires w.auction.status in {Scheduled, Active} && user != "" && max > 0
    requires Classify(w.auction, max) == Accepted && !IdTaken(w.intents, id)
    requires forall i :: 0 <= i < |w.intents| ==> w.intents[i].user != user
    ensures Reachable(rules, next) && next == w.(intents := w.intents + [Bound(id, user, max)])
  {
    PutAppends(w, user, max, id);
    next := Next(w, DoPutIntent(user, max, id, 0));
    ReachableStep(rules, w, DoPutIntent(user, max, id, 0));
  }

  /** Two bounds fit the fine grid, then the rules are edited. */
  lemma StrandedIsReachable() returns (w: World)
    ensures CreateAuction(FIVES).Ok? && Reachable(FIVES, w)
    ensures w.auction.status == Scheduled && w.auction.rules == TENS
    ensures w.intents == [Bound(1, "u", 135), Bound(2, "v", 125)]
  {
    assert "u" != "v" by { assert "u"[0] != "v"[0]; }
    w := ScheduleReaches(FIVES);
    w := PutReaches(FIVES, w, "u", 135, 1);
    w := PutReaches(FIVES, w, "v", 125, 2);
    w := EditReaches(w);
  }

  lemma StrandedClash()
    ensures OpeningClash(TENS, [Bound(1, "u", 135), Bound(2, "v", 125)])
  {
    var u, v := Bound(1, "u", 135), Bound(2, "v", 125);
    var xs := [u, v];
    assert "u" != "v" by { assert "u"[0] != "v"[0]; }
    assert u in xs && v in xs;
    BestRivalUnique(xs, None, u);
    BestRivalUnique(xs, Some("u"), v);
    assert !SameGrid(135, 100, 10);
  }

  /** Without frozen rules the settlement can fail: there is a run after which the auction cannot start. */
  lemma EditedGridBlocksStart()
    ensures CreateAuction(FIVES).Ok?
    ensures exists w :: Reachable(FIVES, w) && w.auction.status == Scheduled && Start(w, Still(0), true).Err?
  {
    var w := StrandedIsReachable();
    ReachableCore(FIVES, w);
    StrandedClash();
    StartFailsExactly(w, Still(0), true);
  }

  // ---- A stranded bound behind a live auction -------------------------------------------------------

  /** A leader whose bound is off the grid, and a higher one put against it while the auction is live. */
  function LiveRow110(): Auction {
    Auction(Active, TENS, 110, Some("l"), 1, Some(60), 0, 7)
  }

  function LiveBounds(): seq<Intent> {
    [Bound(1, "l", 155).(lastAppliedSeq := Some(7)), Bound(2, "r", 190)]
  }

  lemma OneBoundWaits() returns (w: World)
    ensures CreateAuction(FIVES).Ok? && Reachable(FIVES, w)
    ensures w.auction == Auction(Scheduled, TENS, 100, None, 0, None, 0, 5) && w.intents == [Bound(1, "l", 155)]
  {
    w := ScheduleReaches(FIVES);
    w := PutReaches(FIVES, w, "l", 155, 1);
    w := EditReaches(w);
  }

  lemma OneBoundStarts() returns (w: World)
    ensures CreateAuction(FIVES).Ok? && Reachable(FIVES, w)
    ensures w.auction == LiveRow110() && w.intents == [LiveBounds()[0]]
  {
    var waiting := OneBoundWaits();
    ReachableCore(FIVES, waiting);
    LoneBoundLeads(waiting, Bound(1, "l", 155));
    ReachableStep(FIVES, waiting, DoStart(Still(0), true));
    w := Next(waiting, DoStart(Still(0), true));
  }

  /** The only bound of a starting auction takes the lead at the first amount. */
  lemma LoneBoundLeads(w: World, x: Intent)
    requires CoreInv(w) && w.auction.status == Scheduled && w.intents == [x] && x.status == IntentActive
    requires w.auction.rules.cap.None? && w.auction.rules.duration > w.auction.rules.extendWindow
    requires x.max >= w.auction.rules.start + w.auction.rules.increment
    ensures
      var next, at := Next(w, DoStart(Still(0), true)), w.auction.seqNo + 2;
      var first := w.auction.rules.start + w.auction.rules.increment;
      var status := if x.max < first + w.auction.rules.increment then IntentExhausted else IntentActive;
      && next.auction == w.auction.(status := Active, price := first, winner := Some(x.user), acceptedCount := 1,
                                    endAt := Some(w.auction.rules.duration), seqNo := at)
      && next.intents == [x.(status := status, lastAppliedSeq := Some(at))]
      && next.bids == [AwardRow(Award(x.id, x.user, first, None), at)] && next.records == w.records
  {
    var live := Opened(w, 0);
    var award := Award(x.id, x.user, NextAmount(live.auction), None);
    OpenKeepsCore(w, 0);
    LoneAward(live.auction, x);
    NextAmountIsLegal(live.auction);
    AwardVerdict(live, award, Still(0));
    AwardEffect(live, award, Still(0));
    AwardShape(live, award, Still(0));
    LastAwardCloses(live, award, Still(0));
  }

  lemma LastAwardCloses(w: World, award: Award, clock: Clock)
    requires Awards(w.auction, w.intents) == [award] && ApplyAward(w, award, clock).Ok?
    ensures Settle(w, ResultAccepted, clock).Ok?
    ensures Settle(w, ResultAccepted, clock).value.0 == CloseIntents(ApplyAward(w, award, clock).value.0)
  {
    var (next, result) := ApplyAward(w, award, clock).value;
    assert [award][1..] == [];
    assert ApplyAwards(next, [], result, clock) == Settle(w, ResultAccepted, clock);
  }

  lemma LoneAward(a: Auction, x: Intent)
    requires LiveRow(a) && a.winner.None? && x.status == IntentActive && x.max >= NextAmount(a)
    ensures Awards(a, [x]) == [Award(x.id, x.user, NextAmount(a), None)]
  {
    assert x in [x];
    BestRivalUnique([x], None, x);
    LeaderIntentIs([x], None);
    BestRivalIsBest([x], Some(x.user));
  }

  /** Before the end the bid is acceptable, and it fails whatever its key. */
  ghost predicate LosesBids(w: World, user: UserId, amount: int) {
    && w.auction.endAt.Some?
    && forall key, clock: Clock :: clock.first <= w.auction.endAt.value ==> LosesBid(w, user, key, amount, clock)
  }

  predicate LosesBid(w: World, user: UserId, key: BidKey, amount: int, clock: Clock)
    requires w.auction.endAt.Some?
  {
    EvaluateBid(w.auction, user, amount, clock.first, false) == Take && TakeBid(w, user, key, amount, clock).Err?
  }

  /** A bid that is lost changes nothing, so it is lost again. */
  lemma LostBidChangesNothing(w: World, user: UserId, key: BidKey, amount: int, token: string, clock: Clock)
    requires w.auction.endAt.Some? && LosesBid(w, user, key, amount, clock) && (user, key) !in w.records
    ensures Next(w, DoPlace(user, key, amount, token, clock)) == w
  {
  }

  /** An acceptable bid then fails, whatever its key: the settlement it starts would end off the grid. */
  lemma StrandedBoundLosesBids()
    ensures CreateAuction(FIVES).Ok?
    ensures exists w :: Reachable(FIVES, w) && w.auction == LiveRow110() && LosesBids(w, "b", 120)
  {
    var started := OneBoundStarts();
    assert "l" != "r" && "b" != "l" && "b" != "r" by { assert "l"[0] != "r"[0] && "b"[0] != "l"[0] && "b"[0] != "r"[0]; }
    var w := PutReaches(FIVES, started, "r", 190, 2);
    ReachableCore(FIVES, w);
    StrandedStateLosesBids(w);
  }

  lemma StrandedStateLosesBids(w: World)
    requires CoreInv(w) && w.auction == LiveRow110() && w.intents == LiveBounds()
    ensures LosesBids(w, "b", 120)
  {
    assert "b" != "l" by { assert "b"[0] != "l"[0]; }
    forall key, clock: Clock | clock.first <= w.auction.endAt.value ensures LosesBid(w, "b", key, 120, clock) {
      BoundsClashUnder(LedRow(w.auction, "b", 120, clock));
      TakeFailsExactly(w, "b", key, 120, clock);
    }
  }

  lemma BoundsClashUnder(led: Auction)
    requires led.winner == Some("b") && led.price == 120 && led.acceptedCount == 2 && led.rules == TENS
    ensures Clash(led, LiveBounds())
  {
    var xs, l, r := LiveBounds(), LiveBounds()[0], LiveBounds()[1];
    assert "l" != "r" && "b" != "l" && "b" != "r" by { assert "l"[0] != "r"[0] && "b"[0] != "l"[0] && "b"[0] != "r"[0]; }
    assert l in xs && r in xs;
    LeaderIntentIs(xs, Some("b"));
    BestRivalUnique(xs, Some("b"), r);
    BestRivalUnique(xs, Some("r"), l);
    assert !SameGrid(165, 100, 10);
  }

  // ---- A manual bid under the key of an automatic one -------------------------------------------------

  /** Whatever other bounds there are: once a row of the best bound's user holds the key its next automatic bid needs,
      every acceptable bid it would answer fails, whatever that bid's key. */
  lemma UsedKeyBlocks(w: World, r: Intent, user: UserId, key: BidKey, amount: int, clock: Clock)
    requires CoreInv(w) && w.auction.status == Active && Classify(w.auction, amount) == Accepted
    requires BestRival(w.intents, Some(user)) == Some(r) && r.max >= amount + w.auction.rules.increment
    requires LeaderIntent(w.intents, Some(user)).Some? ==> !Outranks(LeaderIntent(w.intents, Some(user)).value, r)
    requires KeyTaken(w.bids, r.user, AutoForm(r.id, w.auction.seqNo + 2))
    ensures TakeBid(w, user, key, amount, clock).Err?
  {
    var led := LedRow(w.auction, user, amount, clock);
    var row := TakenRow(user, key, amount, led.seqNo);
    AcceptedRowLaws(w.auction, user, amount, clock.first);
    TakenAfter(w.bids, row, r.user, AutoForm(r.id, led.seqNo + 1));
    assert DueKeys(led, w.intents)[0] == (r.user, AutoForm(r.id, led.seqNo + 1));
    TakeFailsExactly(w, user, key, amount, clock);
  }

  /** An active auction with one bound of 200, whose owner has had a bid of 1 rejected under a key that is also the
      key of the next automatic bid. */
  function Collided(): World {
    var log := [Event(1, AuctionCreated, None, None), Event(2, AuctionScheduled, None, None),
                Event(3, AuctionStarted, None, None)];
    var row := RejectedRow("u", AutoForm(1, 5), 1, None);
    var told := Decision(ResultRejected(BidTooLow), 3, 100, None, 60);
    World(Auction(Active, TENS, 100, None, 0, Some(60), 0, 3), [Bound(1, "u", 200)], [row], log, log, [],
          map[("u", AutoForm(1, 5)) := Record(1, Completed, Some(told))],
          Some(Job(JobPending, 60, 60, None, 0, MAX_JOB_ATTEMPTS)), None)
  }

  function BeforeCollision(): World {
    Collided().(bids := [], records := map[])
  }

  lemma EmptyStart()
    ensures CreateAuction(TENS).Ok?
    ensures
      Next(Next(CreateAuction(TENS).value, DoSchedule), DoStart(Still(0), true)) == BeforeCollision().(intents := [])
  {
    var scheduled := Next(CreateAuction(TENS).value, DoSchedule);
    var live := Opened(scheduled, 0);
    assert live.events == Collided().events;
    assert Awards(live.auction, live.intents) == [];
    assert Settle(live, ResultAccepted, Still(0)) == Ok((CloseIntents(live), ResultAccepted));
  }

  lemma StandingIsReachable()
    ensures CreateAuction(TENS).Ok? && Reachable(TENS, BeforeCollision())
  {
    EmptyStart();
    var created := CreateAuction(TENS).value;
    assert Run(created, []) == created;
    ReachableStep(TENS, created, DoSchedule);
    ReachableStep(TENS, Next(created, DoSchedule), DoStart(Still(0), true));
    var live := BeforeCollision().(intents := []);
    var w := PutReaches(TENS, live, "u", 200, 1);
    assert w.intents == BeforeCollision().intents;
  }

  lemma CollidedIsReachable()
    ensures CreateAuction(TENS).Ok? && Reachable(TENS, Collided())
  {
    StandingIsReachable();
    ReachableStep(TENS, BeforeCollision(), DoPlace("u", AutoForm(1, 5), 1, "", Still(0)));
    CollisionStep();
  }

  lemma CollisionStep()
    ensures Next(BeforeCollision(), DoPlace("u", AutoForm(1, 5), 1, "", Still(0))) == Collided()
  {
  }

  /** In that reachable state every acceptable bid of anybody else up to 190 fails and changes nothing, so every
      retry of it fails the same way. */
  lemma CollisionBlocksBids(user: UserId, key: BidKey, amount: int, token: string, clock: Clock)
    requires user != "u" && amount <= 190 && EvaluateBid(Collided().auction, user, amount, clock.first, false) == Take
    ensures CreateAuction(TENS).Ok? && Reachable(TENS, Collided())
    ensures Next(Collided(), DoPlace(user, key, amount, token, clock)) == Collided()
  {
    CollidedIsReachable();
    CollidedLosesBid(user, key, amount, clock);
    LostBidChangesNothing(Collided(), user, key, amount, token, clock);
  }

  lemma CollidedLosesBid(user: UserId, key: BidKey, amount: int, clock: Clock)
    requires user != "u" && amount <= 190 && EvaluateBid(Collided().auction, user, amount, clock.first, false) == Take
    ensures LosesBid(Collided(), user, key, amount, clock)
  {
    var w, u := Collided(), Bound(1, "u", 200);
    assert CoreInv(w) by {
      CollidedIsReachable();
      ReachableCore(TENS, w);
    }
    CollidedKeyIsTaken();
    assert u in w.intents;
    BestRivalUnique(w.intents, Some(user), u);
    LeaderIntentIs(w.intents, Some(user));
    UsedKeyBlocks(w, u, user, key, amount, clock);
  }

  lemma CollidedKeyIsTaken()
    ensures
      var w, u := Collided(), Bound(1, "u", 200);
      w.intents == [u] && KeyTaken(w.bids, "u", AutoForm(1, 5))
  {
    assert Collided().bids[0].user == "u" && Collided().bids[0].key == AutoForm(1, 5);
  }
}
