/** When a delivery row can be claimed, in the results of the claims themselves: a new row when everything before it is
    settled, a held one after thirty seconds, a failed one from its retry time on, a settled one never again. */
module RowLocks {
  import opened OutboxRelay

  /** A worker that comes for this row gets it. */
  ghost predicate Gets(s: State, worker: WorkerId, i: nat) {
    worker !in s.workers && worker in Next(s, Claim(worker, i)).workers
  }

  ghost predicate AllBeforeSettled(rows: seq<Row>, i: nat) {
    i < |rows| && forall j :: 0 <= j < i ==> rows[j].status in {Published, Dead}
  }

  predicate NoneClaims(steps: seq<Step>, i: nat) {
    forall k :: 0 <= k < |steps| && steps[k].Claim? ==> steps[k].row != i
  }

  predicate NeverMarks(steps: seq<Step>, worker: WorkerId) {
    forall k :: 0 <= k < |steps| && (steps[k].MarkPublished? || steps[k].MarkFailure?) ==> steps[k].worker != worker
  }

  lemma Tails(steps: seq<Step>)
    requires steps != []
    ensures forall k :: 0 <= k < |steps[1..]| ==> steps[1..][k] == steps[k + 1]
  {
  }

  // ---- A row that nobody holds --------------------------------------------------------------

  /** Only a claim of the row itself changes a row under which no lock runs. */
  lemma StepLeavesRow(s: State, step: Step, i: nat)
    requires Inv(s) && i < |s.rows| && !s.rows[i].status.Publishing?
    ensures i < |Next(s, step).rows|
    ensures Next(s, step).rows[i] == s.rows[i] || (step.Claim? && step.row == i && Gets(s, step.worker, i))
  {
    if Enabled(s, step) && ActsOnRow(step) {
      assert Live(s, step.worker) && Remembers(s, s.workers[step.worker]);
      assert s.workers[step.worker].row != i;
    }
  }

  lemma {:induction false} RunLeavesRow(s: State, steps: seq<Step>, i: nat)
    requires Inv(s) && i < |s.rows| && !s.rows[i].status.Publishing? && NoneClaims(steps, i)
    ensures i < |Run(s, steps).rows| && Run(s, steps).rows[i] == s.rows[i]
    decreases |steps|
  {
    if steps != [] {
      StepLeavesRow(s, steps[0], i);
      StepKeepsInv(s, steps[0]);
      Tails(steps);
      RunLeavesRow(Next(s, steps[0]), steps[1..], i);
    }
  }

  lemma {:induction false} NowOnlyGrows(s: State, steps: seq<Step>)
    ensures s.now <= Run(s, steps).now
    decreases |steps|
  {
    if steps != [] { NowOnlyGrows(Next(s, steps[0]), steps[1..]); }
  }

  /** A new row can be claimed, until somebody does, exactly while every row before it is published or dead. */
  lemma NewRowIsClaimed(s: State, valid: bool, steps: seq<Step>, worker: WorkerId)
    requires Inv(s) && NoneClaims(steps, |s.rows|)
    requires worker !in Run(Next(s, Append(valid)), steps).workers
    ensures
      var r := Run(Next(s, Append(valid)), steps);
      Gets(r, worker, |s.rows|) <==> AllBeforeSettled(r.rows, |s.rows|)
  {
    var t := Next(s, Append(valid));
    StepKeepsInv(s, Append(valid));
    RunLeavesRow(t, steps, |s.rows|);
    NowOnlyGrows(t, steps);
  }

  // ---- A failed row -------------------------------------------------------------------------

  lemma FailureIsMarked(s: State, holder: WorkerId, retryAt: int)
    requires Inv(s) && Holds(s, holder, Broken)
    ensures
      var t, i := Next(s, MarkFailure(holder, retryAt)), s.workers[holder].row;
      && Inv(t) && i < |t.rows| && t.rows[i].status == Failed && t.rows[i].dueAt == retryAt && t.now == s.now
  {
    StepKeepsInv(s, MarkFailure(holder, retryAt));
  }

  lemma {:induction false} NobodyIsEarly(s: State, steps: seq<Step>, i: nat)
    requires Inv(s) && i < |s.rows| && s.rows[i].status == Failed && Run(s, steps).now < s.rows[i].dueAt
    ensures i < |Run(s, steps).rows| && Run(s, steps).rows[i] == s.rows[i]
    decreases |steps|
  {
    if steps != [] {
      NowOnlyGrows(s, steps);
      StepLeavesRow(s, steps[0], i);
      StepKeepsInv(s, steps[0]);
      NobodyIsEarly(Next(s, steps[0]), steps[1..], i);
    }
  }

  /** A row that failed waits for its retry: over any run, nobody gets it before that time. */
  lemma FailedRowWaits(s: State, holder: WorkerId, retryAt: int, steps: seq<Step>, worker: WorkerId)
    requires Inv(s) && Holds(s, holder, Broken)
    requires Run(Next(s, MarkFailure(holder, retryAt)), steps).now < retryAt
    ensures !Gets(Run(Next(s, MarkFailure(holder, retryAt)), steps), worker, s.workers[holder].row)
  {
    FailureIsMarked(s, holder, retryAt);
    NobodyIsEarly(Next(s, MarkFailure(holder, retryAt)), steps, s.workers[holder].row);
  }

  /** And until somebody gets it, the next worker does exactly from that time on. */
  lemma FailedRowIsRetried(s: State, holder: WorkerId, retryAt: int, steps: seq<Step>, worker: WorkerId)
    requires Inv(s) && Holds(s, holder, Broken) && NoneClaims(steps, s.workers[holder].row)
    requires worker !in Run(Next(s, MarkFailure(holder, retryAt)), steps).workers
    ensures
      var r := Run(Next(s, MarkFailure(holder, retryAt)), steps);
      Gets(r, worker, s.workers[holder].row) <==> r.now >= retryAt
  {
    var t := Next(s, MarkFailure(holder, retryAt));
    FailureIsMarked(s, holder, retryAt);
    RunLeavesRow(t, steps, s.workers[holder].row);
    RunKeepsInv(t, steps);
  }

  // ---- A settled row ------------------------------------------------------------------------

  lemma {:induction false} SettledStays(s: State, steps: seq<Step>, i: nat)
    requires Inv(s) && i < |s.rows| && Settled(s.rows[i].status)
    ensures i < |Run(s, steps).rows| && Run(s, steps).rows[i] == s.rows[i]
    decreases |steps|
  {
    if steps != [] {
      StepLeavesRow(s, steps[0], i);
      StepKeepsInv(s, steps[0]);
      SettledStays(Next(s, steps[0]), steps[1..], i);
    }
  }

  lemma DeliveredRowIsSettled(s: State, holder: WorkerId)
    requires Inv(s) && Holds(s, holder, Phase.Offered)
    ensures
      var t, i := Next(s, MarkPublished(holder)), s.workers[holder].row;
      Inv(t) && i < |t.rows| && t.rows[i].status == Published
  {
    StepKeepsInv(s, MarkPublished(holder));
  }

  lemma RefusedRowIsSettled(s: State, holder: WorkerId, retryAt: int)
    requires Inv(s) && Holds(s, holder, Refused)
    ensures
      var t, i := Next(s, MarkFailure(holder, retryAt)), s.workers[holder].row;
      Inv(t) && i < |t.rows| && t.rows[i].status == Dead
  {
    StepKeepsInv(s, MarkFailure(holder, retryAt));
  }

  /** A row that was published is never claimed again, */
  lemma DeliveredRowIsDone(s: State, holder: WorkerId, steps: seq<Step>, worker: WorkerId)
    requires Inv(s) && Holds(s, holder, Phase.Offered)
    ensures !Gets(Run(Next(s, MarkPublished(holder)), steps), worker, s.workers[holder].row)
  {
    DeliveredRowIsSettled(s, holder);
    SettledStays(Next(s, MarkPublished(holder)), steps, s.workers[holder].row);
  }

  /** and neither is one that was refused as invalid, whatever its retry time. */
  lemma RefusedRowIsDone(s: State, holder: WorkerId, retryAt: int, steps: seq<Step>, worker: WorkerId)
    requires Inv(s) && Holds(s, holder, Refused)
    ensures !Gets(Run(Next(s, MarkFailure(holder, retryAt)), steps), worker, s.workers[holder].row)
  {
    RefusedRowIsSettled(s, holder, retryAt);
    SettledStays(Next(s, MarkFailure(holder, retryAt)), steps, s.workers[holder].row);
  }

  // ---- A held row ---------------------------------------------------------------------------

  /** The row is locked until then, and nobody but this worker may still act on it. */
  ghost predicate LockedBy(s: State, holder: WorkerId, i: nat, until: int) {
    && i < |s.rows| && s.rows[i].status == Publishing(until)
    && forall w :: Live(s, w) && s.workers[w].row == i ==> w == holder
  }

  predicate MarksFor(step: Step, worker: WorkerId) {
    (step.MarkPublished? || step.MarkFailure?) && step.worker == worker
  }

  /** A lock lasts until its holder marks the row or, once it has expired, somebody claims it. */
  lemma StepLeavesLock(s: State, step: Step, holder: WorkerId, i: nat, until: int)
    requires Inv(s) && LockedBy(s, holder, i, until) && !MarksFor(step, holder)
    requires s.now <= until || !(step.Claim? && step.row == i)
    ensures LockedBy(Next(s, step), holder, i, until)
  {
    var t := Next(s, step);
    if Enabled(s, step) {
      if ActsOnRow(step) { assert Live(s, step.worker) && Remembers(s, s.workers[step.worker]); }
      forall w | Live(t, w) && t.workers[w].row == i ensures w == holder {
        assert Live(s, w) && s.workers[w].row == i;
      }
    }
  }

  lemma {:induction false} RunLeavesLock(s: State, steps: seq<Step>, holder: WorkerId, i: nat, until: int)
    requires Inv(s) && LockedBy(s, holder, i, until) && NeverMarks(steps, holder)
    requires Run(s, steps).now <= until || NoneClaims(steps, i)
    ensures LockedBy(Run(s, steps), holder, i, until)
    decreases |steps|
  {
    if steps != [] {
      NowOnlyGrows(s, steps);
      assert !MarksFor(steps[0], holder);
      StepLeavesLock(s, steps[0], holder, i, until);
      StepKeepsInv(s, steps[0]);
      Tails(steps);
      RunLeavesLock(Next(s, steps[0]), steps[1..], holder, i, until);
    }
  }

  lemma ClaimLocks(s: State, holder: WorkerId, i: nat)
    requires Inv(s) && Gets(s, holder, i)
    ensures
      var t := Next(s, Claim(holder, i));
      Inv(t) && LockedBy(t, holder, i, s.now + 30) && t.now == s.now
  {
    StepKeepsInv(s, Claim(holder, i));
  }

  /** Who gets a row has it for thirty seconds: over any run in which it does not mark the row, nobody gets it, */
  lemma HeldRowWaits(s: State, holder: WorkerId, i: nat, steps: seq<Step>, worker: WorkerId)
    requires Inv(s) && Gets(s, holder, i) && NeverMarks(steps, holder)
    requires Run(Next(s, Claim(holder, i)), steps).now <= s.now + 30
    ensures !Gets(Run(Next(s, Claim(holder, i)), steps), worker, i)
  {
    ClaimLocks(s, holder, i);
    RunLeavesLock(Next(s, Claim(holder, i)), steps, holder, i, s.now + 30);
  }

  /** and unless somebody does, the next worker gets it exactly when they are over. */
  lemma HeldRowIsFreed(s: State, holder: WorkerId, i: nat, steps: seq<Step>, worker: WorkerId)
    requires Inv(s) && Gets(s, holder, i) && NeverMarks(steps, holder) && NoneClaims(steps, i)
    requires worker !in Run(Next(s, Claim(holder, i)), steps).workers
    ensures
      var r := Run(Next(s, Claim(holder, i)), steps);
      Gets(r, worker, i) <==> r.now > s.now + 30
  {
    var t := Next(s, Claim(holder, i));
    ClaimLocks(s, holder, i);
    RunLeavesLock(t, steps, holder, i, s.now + 30);
    RunKeepsInv(t, steps);
  }
}
