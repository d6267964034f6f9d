/** The end timer that has used up its attempts: how it gets there, and exactly when it comes back. */
module DeadTimer {
  import opened Wrappers
  import opened BidRules
  import opened AuctionState
  import opened Settlement
  import opened Transactions
  import opened Invariants
  import opened MachineLaws

  // ---- Coming back ------------------------------------------------------------------------

  /** Out of attempts, or finished after that. */
  predicate Retired(job: Option<Job>) {
    job.Some? && job.value.status in {JobDead, JobSucceeded} && job.value.attempts >= job.value.maxAttempts
  }

  ghost predicate CanBeClaimed(job: Option<Job>) {
    job.Some? && exists now :: Claimable(job.value, now)
  }

  /** A worker that claimed the timer earlier processes it before the end of the active auction, and so reschedules it. */
  predicate Revives(w: World, step: Step) {
    step.DoEnd? && w.auction.status == Active && w.auction.endAt.Some? && step.now < w.auction.endAt.value
  }

  lemma {:induction false} AwardsLeaveTimer(w: World, awards: seq<Award>, last: BidResult, clock: Clock)
    requires ApplyAwards(w, awards, last, clock).Ok?
    ensures ApplyAwards(w, awards, last, clock).value.0.endJob == w.endJob
    decreases |awards|
  {
    if awards != [] {
      var (next, result) := ApplyAward(w, awards[0], clock).value;
      AwardsLeaveTimer(next, awards[1..], result, clock);
    }
  }

  lemma TakeLeavesTimer(w: World, user: UserId, key: BidKey, amount: int, clock: Clock)
    requires TakeBid(w, user, key, amount, clock).Ok?
    ensures TakeBid(w, user, key, amount, clock).value.0.endJob == w.endJob
  {
    var (taken, result) := Placed(w, user, key, amount, clock).value;
    if result != ResultSold { AwardsLeaveTimer(taken, Awards(taken.auction, taken.intents), result, clock); }
  }

  lemma DecideLeavesTimer(w: World, user: UserId, key: BidKey, amount: int, token: string, clock: Clock, skip: bool)
    requires DecideBid(w, user, key, amount, token, clock, skip).Ok?
    ensures DecideBid(w, user, key, amount, token, clock, skip).value.0.endJob == w.endJob
  {
    if EvaluateBid(w.auction, user, amount, clock.first, skip).Take? { TakeLeavesTimer(w, user, key, amount, clock); }
  }

  lemma BidLeavesTimer(w: World, step: Step)
    requires IsBid(step)
    ensures Next(w, step).endJob == w.endJob
  {
    if Try(w, step).Ok? {
      BidReplaysOrDecides(w, step);
      if BidDecision(w, step).Ok? {
        DecideLeavesTimer(w, step.user, step.key, BidAmount(w, step),
          if step.DoConfirm? then "" else step.token, step.clock, step.DoConfirm?);
      }
    }
  }

  /** Of all transactions only that one brings a retired timer back, and it always does. */
  lemma RetiredStep(w: World, step: Step)
    requires CoreInv(w) && Retired(w.endJob)
    ensures Retired(Next(w, step).endJob) <==> !Revives(w, step)
    ensures Revives(w, step) ==> CanBeClaimed(Next(w, step).endJob)
  {
    if IsBid(step) {
      BidLeavesTimer(w, step);
    } else if Revives(w, step) {
      assert Claimable(Next(w, step).endJob.value, w.auction.endAt.value);
    } else {
      OtherStepKeepsRetired(w, step);
    }
  }

  /** Finishing, rescheduling, failing or setting the timer anew. */
  predicate SetsEndTimer(step: Step) {
    step.DoStart? || step.DoShorten? || step.DoEnd? || step.DoFailEnd?
  }

  lemma OtherStepLeavesEndTimer(w: World, step: Step)
    requires !IsBid(step) && !SetsEndTimer(step) && !step.DoClaimEnd?
    ensures Next(w, step).endJob == w.endJob
  {
  }

  lemma OtherStepKeepsRetired(w: World, step: Step)
    requires CoreInv(w) && Retired(w.endJob) && !IsBid(step) && !Revives(w, step)
    ensures Retired(Next(w, step).endJob)
  {
    if SetsEndTimer(step) {
      SettingKeepsRetired(w, step);
    } else if !step.DoClaimEnd? {
      OtherStepLeavesEndTimer(w, step);
    }
  }

  lemma SettingKeepsRetired(w: World, step: Step)
    requires CoreInv(w) && Retired(w.endJob) && SetsEndTimer(step) && !Revives(w, step)
    ensures Retired(Next(w, step).endJob)
  {
  }

  /** At some point of the run a worker could claim the timer. */
  ghost predicate ClaimableIn(w: World, steps: seq<Step>)
    decreases |steps|
  {
    CanBeClaimed(w.endJob) || (steps != [] && ClaimableIn(Next(w, steps[0]), steps[1..]))
  }

  predicate RevivedIn(w: World, steps: seq<Step>)
    decreases |steps|
  {
    steps != [] && (Revives(w, steps[0]) || RevivedIn(Next(w, steps[0]), steps[1..]))
  }

  /** Over any run, a retired timer can be claimed again exactly when a worker that still holds an old claim
      processes it before the end of the auction. */
  lemma {:induction false} RetiredTimerRevivesExactly(w: World, steps: seq<Step>)
    requires CoreInv(w) && Retired(w.endJob)
    ensures ClaimableIn(w, steps) <==> RevivedIn(w, steps)
    decreases |steps|
  {
    assert !CanBeClaimed(w.endJob);
    if steps != [] {
      RetiredStep(w, steps[0]);
      StepKeepsCore(w, steps[0]);
      if !Revives(w, steps[0]) { RetiredTimerRevivesExactly(Next(w, steps[0]), steps[1..]); }
    }
  }

  // ---- Getting there ----------------------------------------------------------------------

  /** n rounds in which a worker claims the due timer and fails to process it. */
  function FailingRounds(end: int, n: nat): seq<Step> {
    if n == 0 then [] else FailingRounds(end, n - 1) + [DoClaimEnd(end)] + [DoFailEnd(end)]
  }

  function JobAfter(end: int, n: nat): Job {
    if n == 0 then Job(JobPending, end, end, None, 0, MAX_JOB_ATTEMPTS)
    else Job(if n >= MAX_JOB_ATTEMPTS then JobDead else JobFailed, end, end, None, n, MAX_JOB_ATTEMPTS)
  }

  lemma {:induction false} RoundsFail(w: World, end: int, n: nat)
    requires w.endJob == Some(JobAfter(end, 0)) && n <= MAX_JOB_ATTEMPTS
    ensures Run(w, FailingRounds(end, n)) == w.(endJob := Some(JobAfter(end, n)))
    decreases n
  {
    if n > 0 {
      RoundsFail(w, end, n - 1);
      RunExtends(w, FailingRounds(end, n - 1), DoClaimEnd(end));
      RunExtends(w, FailingRounds(end, n - 1) + [DoClaimEnd(end)], DoFailEnd(end));
      RoundFails(w.(endJob := Some(JobAfter(end, n - 1))), end, n - 1);
    }
  }

  lemma RoundFails(w: World, end: int, n: nat)
    requires w.endJob == Some(JobAfter(end, n)) && n < MAX_JOB_ATTEMPTS
    ensures Next(Next(w, DoClaimEnd(end)), DoFailEnd(end)) == w.(endJob := Some(JobAfter(end, n + 1)))
  {
    assert Claimable(JobAfter(end, n), end);
  }

  lemma StartArmsTimer(w: World, clock: Clock)
    requires w.auction.status == Scheduled && w.intents == [] && w.endJob.None?
    ensures
      var next := Next(w, DoStart(clock, true));
      next.auction.status == Active && next.endJob == Some(JobAfter(clock.first + w.auction.rules.duration, 0))
  {
    var live := Opened(w, clock.first);
    assert Awards(live.auction, live.intents) == [];
    assert Settle(live, ResultAccepted, clock) == Ok((CloseIntents(live), ResultAccepted));
  }

  /** Under any rules: after five failed attempts the auction is still active and its timer is retired. */
  lemma RetiredTimerIsReachable(rules: Rules) returns (steps: seq<Step>)
    requires CreateAuction(rules).Ok?
    ensures
      var w := Run(CreateAuction(rules).value, steps);
      w.auction.status == Active && w.endJob.Some? && w.endJob.value.status == JobDead && Retired(w.endJob)
  {
    var created, end := CreateAuction(rules).value, rules.duration;
    var scheduled := Next(created, DoSchedule);
    TwoSteps(created, DoSchedule, DoStart(Still(0), true));
    StartArmsTimer(scheduled, Still(0));
    var live := Next(scheduled, DoStart(Still(0), true));
    RoundsFail(live, end, MAX_JOB_ATTEMPTS);
    steps := [DoSchedule, DoStart(Still(0), true)] + FailingRounds(end, MAX_JOB_ATTEMPTS);
    RunSplits(created, [DoSchedule, DoStart(Still(0), true)], FailingRounds(end, MAX_JOB_ATTEMPTS));
  }

  lemma {:induction false} RunSplits(w: World, first: seq<Step>, rest: seq<Step>)
    ensures Run(w, first + rest) == Run(Run(w, first), rest)
    decreases |first|
  {
    if first == [] {
      assert first + rest == rest;
    } else {
      assert (first + rest)[0] == first[0] && (first + rest)[1..] == first[1..] + rest;
      RunSplits(Next(w, first[0]), first[1..], rest);
    }
  }
}
