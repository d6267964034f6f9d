/** When a timer can be claimed, in the results of the claims themselves: a worker holds it for five seconds, a failed one
    waits for its retry, a finished or dead one never comes, and a new one is due when it was set for. */
module TimerLocks {
  import opened Wrappers
  import opened BidRules
  import opened AuctionState
  import Settlement
  import opened Transactions
  import opened Invariants
  import opened MachineLaws
  import opened DeadTimer

  // ---- The end timer --------------------------------------------------------------------

  /** A worker that comes at this time gets the timer. */
  predicate EndClaimed(w: World, at: int) {
    Next(w, DoClaimEnd(at)) != w
  }

  predicate NoneSetsEnd(steps: seq<Step>) {
    forall i :: 0 <= i < |steps| ==> !SetsEndTimer(steps[i])
  }

  predicate NoneClaimsEnd(steps: seq<Step>) {
    forall i :: 0 <= i < |steps| ==> !steps[i].DoClaimEnd?
  }

  ghost predicate HeldUntil(job: Option<Job>, until: int) {
    job.Some? && job.value.status == JobRunning && job.value.lockedUntil.Some? && job.value.lockedUntil.value >= until
  }

  lemma StepKeepsEndHeld(w: World, step: Step, until: int)
    requires HeldUntil(w.endJob, until) && !SetsEndTimer(step)
    ensures HeldUntil(Next(w, step).endJob, until)
    ensures !step.DoClaimEnd? ==> Next(w, step).endJob == w.endJob
  {
    if IsBid(step) { BidLeavesTimer(w, step); } else if !step.DoClaimEnd? { OtherStepLeavesEndTimer(w, step); }
  }

  lemma {:induction false} RunKeepsEndHeld(w: World, steps: seq<Step>, until: int)
    requires HeldUntil(w.endJob, until) && NoneSetsEnd(steps)
    ensures HeldUntil(Run(w, steps).endJob, until)
    ensures NoneClaimsEnd(steps) ==> Run(w, steps).endJob == w.endJob
    decreases |steps|
  {
    if steps != [] {
      StepKeepsEndHeld(w, steps[0], until);
      assert forall i :: 0 <= i < |steps[1..]| ==> steps[1..][i] == steps[i + 1];
      RunKeepsEndHeld(Next(w, steps[0]), steps[1..], until);
    }
  }

  /** Who gets the end timer at t has it for five seconds: over any run in which it is not finished, rescheduled, failed
      or set anew, no worker that comes before t + 5 gets it, whatever other workers try. */
  lemma EndTimerIsHeld(w: World, t: int, steps: seq<Step>, s: int)
    requires EndClaimed(w, t) && NoneSetsEnd(steps) && s < t + 5
    ensures !EndClaimed(Run(Next(w, DoClaimEnd(t)), steps), s)
  {
    RunKeepsEndHeld(Next(w, DoClaimEnd(t)), steps, t + 5);
  }

  /** And if nobody else gets it meanwhile, the next worker gets it exactly from t + 5 on. */
  lemma EndTimerIsFreed(w: World, t: int, steps: seq<Step>, s: int)
    requires EndClaimed(w, t) && NoneSetsEnd(steps) && NoneClaimsEnd(steps)
    ensures EndClaimed(Run(Next(w, DoClaimEnd(t)), steps), s) <==> s >= t + 5
  {
    RunKeepsEndHeld(Next(w, DoClaimEnd(t)), steps, t + 5);
  }

  /** A failed timer waits for its retry, and with its attempts used up nobody gets it. */
  lemma FailedEndTimerWaits(w: World, retryAt: int, s: int)
    requires w.endJob.Some?
    ensures EndClaimed(Next(w, DoFailEnd(retryAt)), s) <==>
      w.endJob.value.attempts + 1 < w.endJob.value.maxAttempts && s >= retryAt && s >= w.endJob.value.runAt
  {
  }

  lemma StartSetsTimer(w: World, clock: Clock)
    requires CoreInv(w) && Start(w, clock, true).Ok?
    ensures
      var end := clock.first + w.auction.rules.duration;
      Start(w, clock, true).value.endJob == Some(Job(JobPending, end, end, None, 0, 5))
  {
    var live := Opened(w, clock.first);
    AwardsLeaveTimer(live, Settlement.Awards(live.auction, live.intents), ResultAccepted, clock);
  }

  /** A started auction's timer is due at the end the start set. */
  lemma StartedTimerIsDue(w: World, clock: Clock, s: int)
    requires CoreInv(w) && Start(w, clock, true).Ok?
    ensures EndClaimed(Start(w, clock, true).value, s) <==> s >= clock.first + w.auction.rules.duration
  {
    StartSetsTimer(w, clock);
  }

  /** A shortened auction's timer is due at the new end, at once free of any lock or retry, unless it is finished or dead;
      its attempts still count. */
  lemma ShortenedTimerIsDue(w: World, remaining: int, now: int, s: int)
    requires w.endJob.Some? && Shorten(w, remaining, now).Ok?
    ensures
      var before, after := w.endJob.value, Shorten(w, remaining, now).value;
      && (EndClaimed(after, s) <==> before.status !in {JobSucceeded, JobDead} && s >= now + remaining)
      && after.endJob.value.lockedUntil == None && after.endJob.value.attempts == before.attempts
  {
  }

  /** A timer processed before the end comes back at the end, whatever its state; processed later it is finished. */
  lemma ProcessedTimer(w: World, now: int, s: int)
    requires CoreInv(w) && EndAuction(w, now).Ok?
    ensures w.auction.endAt.Some?
    ensures
      EndClaimed(EndAuction(w, now).value, s) <==>
        w.auction.status == Active && now < w.auction.endAt.value && s >= w.auction.endAt.value
  {
  }

  // ---- The expiry timer -----------------------------------------------------------------

  predicate ExpiryClaimed(w: World, at: int) {
    Next(w, DoClaimExpire(at)) != w
  }

  predicate SetsExpiryTimer(step: Step) {
    step.DoExpire? || step.DoFailExpire?
  }

  predicate NoneSetsExpiry(steps: seq<Step>) {
    forall i :: 0 <= i < |steps| ==> !SetsExpiryTimer(steps[i])
  }

  predicate NoneClaimsExpiry(steps: seq<Step>) {
    forall i :: 0 <= i < |steps| ==> !steps[i].DoClaimExpire?
  }

  lemma BidLeavesExpiryTimer(w: World, step: Step)
    requires CoreInv(w) && w.expireJob.Some? && IsBid(step)
    ensures Next(w, step).expireJob == w.expireJob
  {
    if Try(w, step).Ok? { BidReplaysOrDecides(w, step); }
  }

  /** Once there is an order, only the expiry itself sets its timer. */
  lemma OtherStepLeavesExpiryTimer(w: World, step: Step)
    requires CoreInv(w) && w.expireJob.Some? && !IsBid(step) && !SetsExpiryTimer(step) && !step.DoClaimExpire?
    ensures Next(w, step).expireJob == w.expireJob
  {
  }

  lemma StepKeepsExpiryHeld(w: World, step: Step, until: int)
    requires CoreInv(w) && HeldUntil(w.expireJob, until) && !SetsExpiryTimer(step)
    ensures HeldUntil(Next(w, step).expireJob, until)
    ensures !step.DoClaimExpire? ==> Next(w, step).expireJob == w.expireJob
  {
    if IsBid(step) {
      BidLeavesExpiryTimer(w, step);
    } else if !step.DoClaimExpire? {
      OtherStepLeavesExpiryTimer(w, step);
    }
  }

  lemma {:induction false} RunKeepsExpiryHeld(w: World, steps: seq<Step>, until: int)
    requires CoreInv(w) && HeldUntil(w.expireJob, until) && NoneSetsExpiry(steps)
    ensures HeldUntil(Run(w, steps).expireJob, until)
    ensures NoneClaimsExpiry(steps) ==> Run(w, steps).expireJob == w.expireJob
    decreases |steps|
  {
    if steps != [] {
      StepKeepsCore(w, steps[0]);
      StepKeepsExpiryHeld(w, steps[0], until);
      assert forall i :: 0 <= i < |steps[1..]| ==> steps[1..][i] == steps[i + 1];
      RunKeepsExpiryHeld(Next(w, steps[0]), steps[1..], until);
    }
  }

  /** The same of the expiry timer. */
  lemma ExpiryTimerIsHeld(w: World, t: int, steps: seq<Step>, s: int)
    requires CoreInv(w) && ExpiryClaimed(w, t) && NoneSetsExpiry(steps) && s < t + 5
    ensures !ExpiryClaimed(Run(Next(w, DoClaimExpire(t)), steps), s)
  {
    StepKeepsCore(w, DoClaimExpire(t));
    RunKeepsExpiryHeld(Next(w, DoClaimExpire(t)), steps, t + 5);
  }

  lemma ExpiryTimerIsFreed(w: World, t: int, steps: seq<Step>, s: int)
    requires CoreInv(w) && ExpiryClaimed(w, t) && NoneSetsExpiry(steps) && NoneClaimsExpiry(steps)
    ensures ExpiryClaimed(Run(Next(w, DoClaimExpire(t)), steps), s) <==> s >= t + 5
  {
    StepKeepsCore(w, DoClaimExpire(t));
    RunKeepsExpiryHeld(Next(w, DoClaimExpire(t)), steps, t + 5);
  }

  lemma FailedExpiryTimerWaits(w: World, retryAt: int, s: int)
    requires w.expireJob.Some?
    ensures ExpiryClaimed(Next(w, DoFailExpire(retryAt)), s) <==>
      w.expireJob.value.attempts + 1 < w.expireJob.value.maxAttempts && s >= retryAt && s >= w.expireJob.value.runAt
  {
  }

  /** An order whose auction the scheduler closes lapses fifteen minutes later: that is its deadline, and its timer is due
      exactly then. */
  lemma ClosedOrderExpires(w: World, now: int, s: int)
    requires CoreInv(w) && w.auction.status == Active && w.auction.winner.Some? && EndAuction(w, now).Ok?
    requires now >= w.auction.endAt.value
    ensures
      var closed := EndAuction(w, now).value;
      && |closed.orders| == 1 && closed.orders[0].expireAt == now + 15 * 60
      && (ExpiryClaimed(closed, s) <==> s >= now + 15 * 60)
  {
  }

  /** And so does the order of a bid that sells, from the time the order was written. */
  lemma SoldOrderExpires(w: World, user: UserId, key: BidKey, amount: int, clock: Clock, s: int)
    requires CoreInv(w) && w.auction.status == Active && w.auction.rules.cap == Some(amount)
    requires TakeBid(w, user, key, amount, clock).Ok?
    ensures
      var sold := TakeBid(w, user, key, amount, clock).value.0;
      && |sold.orders| == 1 && sold.orders[0].expireAt == clock.ordered + 15 * 60
      && (ExpiryClaimed(sold, s) <==> s >= clock.ordered + 15 * 60)
  {
  }

  /** An expiry that comes too early comes back at the deadline; one in time, or for a settled order, is finished. */
  lemma ProcessedExpiry(w: World, now: int, s: int)
    requires CoreInv(w) && ExpireOrder(w, now).Ok?
    ensures w.orders != []
    ensures
      var o := w.orders[0];
      ExpiryClaimed(ExpireOrder(w, now).value, s) <==>
        o.status in {OrderPending, PaymentInitiated} && now < o.expireAt && s >= o.expireAt
  {
  }
}
