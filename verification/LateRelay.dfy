/** The relay without the lock assumption: the statements that push, offer and mark do not look at the lock again, so a
    stalled worker may carry them out late. Exactly when that does no harm, and two runs in which it does. */
module LateRelay {
  import opened OutboxRelay

  ghost function NextLate(s: State, step: Step): State {
    if Possible(s, step) then Effect(s, step) else s
  }

  ghost function RunLate(s: State, steps: seq<Step>): State
    decreases |steps|
  {
    if steps == [] then s else RunLate(NextLate(s, steps[0]), steps[1..])
  }

  // ---- Exactly when a late step does no harm --------------------------------------------------

  /** A push or an offer brings no number behind a greater one; a mark finds the row unlocked by others, and one that
      puts the row back finds nothing behind it started. */
  ghost predicate Harmless(s: State, step: Step) {
    Possible(s, step) ==>
      match step
      case Publish(worker, applied, _) =>
        applied && s.rows[s.workers[worker].row].valid ==> forall h :: h in s.history ==> h <= s.workers[worker].row + 1
      case Offer(worker) => forall h :: h in s.offered ==> h <= s.workers[worker].row + 1
      case MarkPublished(worker) => Unrivalled(s, worker)
      case MarkFailure(worker, _) =>
        Unrivalled(s, worker) && (s.workers[worker].phase == Broken ==> NothingBehind(s, s.workers[worker].row))
      case _ => true
  }

  lemma LateStepExactly(s: State, step: Step)
    requires Inv(s)
    ensures Inv(NextLate(s, step)) <==> Harmless(s, step)
  {
    if Possible(s, step) {
      match step
      case Publish(worker, applied, reported) => PushKeepsInv(s, worker, applied, reported);
      case Offer(worker) => OfferKeepsInv(s, worker);
      case MarkPublished(_) => MarkKeepsInv(s, step);
      case MarkFailure(_, _) => MarkKeepsInv(s, step);
      case _ => StepKeepsInv(s, step);
    }
  }

  /** What the lock gives: a step in time is harmless. */
  lemma InTimeIsHarmless(s: State, step: Step)
    requires Inv(s) && Enabled(s, step)
    ensures Harmless(s, step)
  {
    StepKeepsInv(s, step);
    LateStepExactly(s, step);
  }

  /** Every state the run passes satisfies the delivery invariant. */
  ghost predicate StaysSound(s: State, steps: seq<Step>)
    decreases |steps|
  {
    Inv(s) && (steps == [] || StaysSound(NextLate(s, steps[0]), steps[1..]))
  }

  ghost predicate HarmlessRun(s: State, steps: seq<Step>)
    decreases |steps|
  {
    steps == [] || (Harmless(s, steps[0]) && HarmlessRun(NextLate(s, steps[0]), steps[1..]))
  }

  /** A run with late steps keeps the delivery invariant throughout exactly when each of its steps is harmless. */
  lemma {:induction false} LateRunExactly(s: State, steps: seq<Step>)
    requires Inv(s)
    ensures StaysSound(s, steps) <==> HarmlessRun(s, steps)
    decreases |steps|
  {
    if steps != [] {
      LateStepExactly(s, steps[0]);
      if Harmless(s, steps[0]) { LateRunExactly(NextLate(s, steps[0]), steps[1..]); }
    }
  }

  // ---- Exactly when the list and the offers stay in order -----------------------------------------

  /** A push or an offer that takes effect finds no greater number. */
  ghost predicate KeepsList(s: State, step: Step) {
    step.Publish? && Possible(s, step) && step.applied && s.rows[s.workers[step.worker].row].valid ==>
      forall h :: h in s.history ==> h <= s.workers[step.worker].row + 1
  }

  ghost predicate KeepsOffers(s: State, step: Step) {
    step.Offer? && Possible(s, step) ==> forall h :: h in s.offered ==> h <= s.workers[step.worker].row + 1
  }

  ghost predicate KeepsListThroughout(s: State, steps: seq<Step>)
    decreases |steps|
  {
    steps == [] || (KeepsList(s, steps[0]) && KeepsListThroughout(NextLate(s, steps[0]), steps[1..]))
  }

  ghost predicate KeepsOffersThroughout(s: State, steps: seq<Step>)
    decreases |steps|
  {
    steps == [] || (KeepsOffers(s, steps[0]) && KeepsOffersThroughout(NextLate(s, steps[0]), steps[1..]))
  }

  lemma LateStepAppends(s: State, step: Step)
    ensures s.history <= NextLate(s, step).history && s.offered <= NextLate(s, step).offered
    ensures NonDecreasing(s.history) ==> (NonDecreasing(NextLate(s, step).history) <==> KeepsList(s, step))
    ensures NonDecreasing(s.offered) ==> (NonDecreasing(NextLate(s, step).offered) <==> KeepsOffers(s, step))
  {
    if Possible(s, step) {
      if step.Publish? && NonDecreasing(s.history) { AppendOrder(s.history, s.workers[step.worker].row + 1); }
      if step.Offer? && NonDecreasing(s.offered) { AppendOrder(s.offered, s.workers[step.worker].row + 1); }
    }
  }

  lemma {:induction false} LateRunAppends(s: State, steps: seq<Step>)
    ensures s.history <= RunLate(s, steps).history && s.offered <= RunLate(s, steps).offered
    decreases |steps|
  {
    if steps != [] {
      LateStepAppends(s, steps[0]);
      LateRunAppends(NextLate(s, steps[0]), steps[1..]);
    }
  }

  lemma PrefixStaysOrdered(numbers: seq<nat>, more: seq<nat>)
    requires numbers <= more && NonDecreasing(more)
    ensures NonDecreasing(numbers)
  {
    assert forall i :: 0 <= i < |numbers| ==> numbers[i] == more[i];
  }

  /** Whatever steps come late: the list ends in order exactly when every push that took effect found no greater number,
      and the offers exactly when every offer did. Once out of order they stay so. */
  lemma LateOrderExactly(now: int, steps: seq<Step>)
    ensures NonDecreasing(RunLate(Initial(now), steps).history) <==> KeepsListThroughout(Initial(now), steps)
    ensures NonDecreasing(RunLate(Initial(now), steps).offered) <==> KeepsOffersThroughout(Initial(now), steps)
  {
    LateListFrom(Initial(now), steps);
    LateOffersFrom(Initial(now), steps);
  }

  lemma {:induction false} LateListFrom(s: State, steps: seq<Step>)
    requires NonDecreasing(s.history)
    ensures NonDecreasing(RunLate(s, steps).history) <==> KeepsListThroughout(s, steps)
    decreases |steps|
  {
    if steps != [] {
      var t := NextLate(s, steps[0]);
      LateStepAppends(s, steps[0]);
      LateRunAppends(t, steps[1..]);
      if NonDecreasing(t.history) {
        LateListFrom(t, steps[1..]);
      } else if NonDecreasing(RunLate(s, steps).history) {
        PrefixStaysOrdered(t.history, RunLate(s, steps).history);
      }
    }
  }

  lemma {:induction false} LateOffersFrom(s: State, steps: seq<Step>)
    requires NonDecreasing(s.offered)
    ensures NonDecreasing(RunLate(s, steps).offered) <==> KeepsOffersThroughout(s, steps)
    decreases |steps|
  {
    if steps != [] {
      var t := NextLate(s, steps[0]);
      LateStepAppends(s, steps[0]);
      LateRunAppends(t, steps[1..]);
      if NonDecreasing(t.offered) {
        LateOffersFrom(t, steps[1..]);
      } else if NonDecreasing(RunLate(s, steps).offered) {
        PrefixStaysOrdered(t.offered, RunLate(s, steps).offered);
      }
    }
  }

  // ---- How a late mark disorders the list later, in time -------------------------------------------

  lemma Disordered(history: seq<nat>, h: nat, n: nat)
    requires h in history && h > n
    ensures !NonDecreasing(history + [n])
  {
    var k :| 0 <= k < |history| && history[k] == h;
    assert (history + [n])[k] > (history + [n])[|history|];
  }

  /** A free worker takes a claimable valid row and pushes it at once. */
  lemma ClaimsAndPushes(start: State, steps: seq<Step>, s: State, worker: WorkerId, i: nat)
      returns (longer: seq<Step>, t: State)
    requires Run(start, steps) == s && worker !in s.workers && Claimable(s.rows, i, s.now) && s.rows[i].valid
    ensures Run(start, longer) == t && t.history == s.history + [i + 1] && t.now == s.now && |t.rows| == |s.rows|
    ensures t.workers == s.workers[worker := Lease(i, s.now + LOCK_SECONDS, Pushed)]
    ensures forall j :: 0 <= j < |s.rows| ==> t.rows[j].valid == s.rows[j].valid
  {
    var claimed := Next(s, Claim(worker, i));
    longer := OutboxRelay.Goes(start, steps, s, Claim(worker, i), claimed);
    t := Next(claimed, Publish(worker, true, true));
    longer := OutboxRelay.Goes(start, longer, claimed, Publish(worker, true, true), t);
  }

  /** A failure marked late, when a greater number is in the list already: the row is due again, and its next push, in
      time, is behind that number. */
  lemma LateFailureDisorders(s: State, worker: WorkerId, retryAt: int, h: nat) returns (rest: seq<Step>)
    requires Inv(s) && IsIn(s, worker, Broken) && s.rows[s.workers[worker].row].valid
    requires h in s.history && h > s.workers[worker].row + 1
    ensures !NonDecreasing(Run(NextLate(s, MarkFailure(worker, retryAt)), rest).history)
  {
    var marked, i := NextLate(s, MarkFailure(worker, retryAt)), s.workers[worker].row;
    var wait: nat := if retryAt > s.now then retryAt - s.now else 0;
    var due := marked.(now := marked.now + wait);
    rest := OutboxRelay.Goes(marked, [], marked, Tick(wait), due);
    FailedRowIsFree(s, worker, retryAt, h);
    var pushed;
    rest, pushed := ClaimsAndPushes(marked, rest, due, worker, i);
    Disordered(s.history, h, i + 1);
  }

  lemma FailedRowIsFree(s: State, worker: WorkerId, retryAt: int, h: nat)
    requires Inv(s) && IsIn(s, worker, Broken) && s.rows[s.workers[worker].row].valid
    requires h in s.history && h > s.workers[worker].row + 1
    ensures
      var t, i := NextLate(s, MarkFailure(worker, retryAt)), s.workers[worker].row;
      && worker !in t.workers && t.history == s.history && |t.rows| == |s.rows| && t.rows[i].valid
      && forall now :: now >= retryAt ==> Claimable(t.rows, i, now)
  {
    assert Started(s.rows[h - 1].status);
  }

  /** A success marked late, while another worker holds the row and has not pushed it: the next row is taken, pushed
      first, and the holder's push, in time, is behind it. */
  lemma LateMarkDisorders(s: State, worker: WorkerId, holder: WorkerId) returns (rest: seq<Step>)
    requires Inv(s) && IsIn(s, worker, Phase.Offered) && holder != worker && Holds(s, holder, Claimed)
    requires s.workers[holder].row == s.workers[worker].row
    requires
      var i := s.workers[worker].row + 1;
      i < |s.rows| ==> s.rows[i].valid && s.rows[i].dueAt <= s.now
    ensures !NonDecreasing(Run(NextLate(s, Step.MarkPublished(worker)), rest).history)
  {
    var free;
    rest, free := NextRowIsFree(s, worker, holder);
    rest := HolderPushesLast(NextLate(s, Step.MarkPublished(worker)), rest, free, worker, holder);
  }

  lemma HolderPushesLast(start: State, steps: seq<Step>, s: State, worker: WorkerId, holder: WorkerId)
      returns (longer: seq<Step>)
    requires Run(start, steps) == s && worker !in s.workers && Holds(s, holder, Claimed)
    requires
      var i := s.workers[holder].row;
      s.rows[i].valid && Claimable(s.rows, i + 1, s.now) && s.rows[i + 1].valid
    ensures !NonDecreasing(Run(start, longer).history)
  {
    var pushed;
    longer, pushed := ClaimsAndPushes(start, steps, s, worker, s.workers[holder].row + 1);
    longer := HolderPushes(start, longer, pushed, holder, s.workers[holder].row);
  }

  /** A holder of a valid row pushes it behind a greater number. */
  lemma HolderPushes(start: State, steps: seq<Step>, s: State, holder: WorkerId, i: nat) returns (longer: seq<Step>)
    requires Run(start, steps) == s && Holds(s, holder, Claimed) && s.workers[holder].row == i && s.rows[i].valid
    requires i + 2 in s.history
    ensures !NonDecreasing(Run(start, longer).history)
  {
    longer := OutboxRelay.Goes(start, steps, s, Publish(holder, true, true), Next(s, Publish(holder, true, true)));
    Disordered(s.history, i + 2, i + 1);
  }

  /** Behind the late mark the next row, appended if need be, can be claimed. */
  lemma NextRowIsFree(s: State, worker: WorkerId, holder: WorkerId) returns (steps: seq<Step>, u: State)
    requires Inv(s) && IsIn(s, worker, Phase.Offered) && holder != worker && Holds(s, holder, Claimed)
    requires s.workers[holder].row == s.workers[worker].row
    requires
      var i := s.workers[worker].row + 1;
      i < |s.rows| ==> s.rows[i].valid && s.rows[i].dueAt <= s.now
    ensures
      var i := s.workers[worker].row;
      && Run(NextLate(s, Step.MarkPublished(worker)), steps) == u
      && u.now == s.now && u.workers == s.workers - {worker}
      && Claimable(u.rows, i + 1, u.now) && u.rows[i + 1].valid && u.rows[i].valid
  {
    var marked, i := NextLate(s, Step.MarkPublished(worker)), s.workers[worker].row;
    assert Remembers(s, s.workers[worker]);
    assert Live(s, holder) && s.rows[i].status == Publishing(s.workers[holder].until);
    assert forall j :: i < j < |s.rows| && Started(s.rows[j].status) ==> Settled(s.rows[i].status);
    assert forall j :: 0 <= j < i && Started(s.rows[i].status) ==> Settled(s.rows[j].status);
    if i + 1 < |s.rows| {
      steps, u := [], marked;
    } else {
      u := marked.(rows := marked.rows + [Row(true, Pending, marked.now)]);
      steps := OutboxRelay.Goes(marked, [], marked, Append(true), u);
    }
  }

  // ---- Two runs in which it does ----------------------------------------------------------------

  ghost predicate Reachable(s: State) {
    exists steps :: RunLate(Initial(0), steps) == s
  }

  lemma {:induction false} RunLateExtends(s: State, steps: seq<Step>, last: Step)
    ensures RunLate(s, steps + [last]) == NextLate(RunLate(s, steps), last)
    decreases |steps|
  {
    if steps == [] {
      assert [last][1..] == [] && RunLate(NextLate(s, last), []) == NextLate(s, last);
    } else {
      assert (steps + [last])[0] == steps[0] && (steps + [last])[1..] == steps[1..] + [last];
      RunLateExtends(NextLate(s, steps[0]), steps[1..], last);
    }
  }

  lemma Goes(s: State, step: Step, t: State)
    requires Reachable(s) && NextLate(s, step) == t
    ensures Reachable(t)
  {
    var steps :| RunLate(Initial(0), steps) == s;
    RunLateExtends(Initial(0), steps, step);
  }

  function Rows(first: Delivery, second: Delivery): seq<Row> {
    [Row(true, first, 0), Row(true, second, 0)]
  }

  /** Worker a claims row 1 and stalls; if `broken`, its push has taken effect and was reported as failed. */
  function Stalled(now: int, broken: bool): State {
    State(now, Rows(Publishing(30), Pending), if broken then [1] else [], [],
          map["a" := Lease(0, 30, if broken then Broken else Claimed)])
  }

  lemma RowsAreReachable()
    ensures Reachable(State(0, Rows(Pending, Pending), [], [], map[]))
  {
    var one := Row(true, Pending, 0);
    assert RunLate(Initial(0), []) == Initial(0);
    Goes(Initial(0), Append(true), State(0, [one], [], [], map[]));
    Goes(State(0, [one], [], [], map[]), Append(true), State(0, Rows(Pending, Pending), [], [], map[]));
  }

  lemma ClaimIsReachable()
    ensures Reachable(Stalled(0, false))
  {
    RowsAreReachable();
    Goes(State(0, Rows(Pending, Pending), [], [], map[]), Claim("a", 0), Stalled(0, false));
  }

  lemma StalledIsReachable(broken: bool)
    ensures Reachable(Stalled(31, broken))
  {
    ClaimIsReachable();
    if broken { Goes(Stalled(0, false), Publish("a", true, false), Stalled(0, true)); }
    Goes(Stalled(0, broken), Tick(31), Stalled(31, broken));
  }

  /** Worker b takes row 1 over, delivers it, and goes on to push row 2. */
  function Overtaken(broken: bool): State {
    var stalled := Stalled(31, broken);
    State(31, Rows(Published, Publishing(61)), stalled.history + [1, 2], [1],
          stalled.workers["b" := Lease(1, 61, Pushed)])
  }

  /** Worker b in some phase of row 1, with row 1 so often in the list and offered. */
  function Taking(broken: bool, phase: Phase, pushed: seq<nat>, offered: seq<nat>): State {
    var s := Stalled(31, broken);
    State(31, Rows(Publishing(61), Pending), s.history + pushed, offered, s.workers["b" := Lease(0, 61, phase)])
  }

  lemma OnePushed(broken: bool)
    ensures Reachable(Taking(broken, Pushed, [1], []))
  {
    var s := Stalled(31, broken);
    StalledIsReachable(broken);
    assert s.history + [] == s.history;
    Goes(s, Claim("b", 0), Taking(broken, Claimed, [], []));
    Goes(Taking(broken, Claimed, [], []), Publish("b", true, true), Taking(broken, Pushed, [1], []));
  }

  function Delivered(broken: bool): State {
    State(31, Rows(Published, Pending), Stalled(31, broken).history + [1], [1], Stalled(31, broken).workers)
  }

  lemma OneDelivered(broken: bool)
    ensures Reachable(Delivered(broken))
  {
    OnePushed(broken);
    var offered := Taking(broken, Phase.Offered, [1], [1]);
    Goes(Taking(broken, Pushed, [1], []), Offer("b"), offered);
    assert offered.workers - {"b"} == Stalled(31, broken).workers;
    Goes(offered, MarkPublished("b"), Delivered(broken));
  }

  lemma OvertakenIsReachable(broken: bool)
    ensures Reachable(Overtaken(broken))
  {
    var s := Stalled(31, broken);
    OneDelivered(broken);
    var claimed := State(31, Overtaken(broken).rows, s.history + [1], [1], s.workers["b" := Lease(1, 61, Claimed)]);
    Goes(Delivered(broken), Claim("b", 1), claimed);
    assert s.history + [1] + [2] == s.history + [1, 2];
    Goes(claimed, Publish("b", true, true), Overtaken(broken));
  }

  /** A push by a worker whose lock has expired writes number 1 behind number 2. */
  lemma LatePushStepsBack()
    ensures Reachable(Overtaken(false)) && !Live(Overtaken(false), "a")
    ensures
      var late := NextLate(Overtaken(false), Publish("a", true, true));
      Reachable(late) && late.history == [1, 2, 1]
  {
    OvertakenIsReachable(false);
    var late := NextLate(Overtaken(false), Publish("a", true, true));
    Goes(Overtaken(false), Publish("a", true, true), late);
    assert late.history == [1, 2] + [1];
  }

  /** Both rows delivered by worker b, while worker a still has its failure to mark. */
  function Finished(): State {
    State(31, Rows(Published, Published), [1, 1, 2], [1, 2], map["a" := Lease(0, 30, Broken)])
  }

  lemma FinishedIsReachable()
    ensures Reachable(Finished())
  {
    OvertakenIsReachable(true);
    var s := Overtaken(true);
    assert s.history == [1, 1, 2];
    var offered := s.(offered := [1, 2], workers := s.workers["b" := Lease(1, 61, Phase.Offered)]);
    assert [1] + [2] == [1, 2];
    Goes(s, Offer("b"), offered);
    assert offered.workers - {"b"} == Finished().workers;
    Goes(offered, MarkPublished("b"), Finished());
  }

  /** A late mark of failure puts the published row 1 back; it is claimed and pushed once more, behind number 2. */
  lemma LateFailureStepsBack()
    ensures Reachable(Finished()) && !Live(Finished(), "a")
    ensures
      var failed := NextLate(Finished(), MarkFailure("a", 31));
      var again := NextLate(NextLate(failed, Claim("b", 0)), Publish("b", true, true));
      && failed.rows[0] == Row(true, Failed, 31)
      && Reachable(again) && again.history == [1, 1, 2, 1]
  {
    FinishedIsReachable();
    var failed := State(31, [Row(true, Failed, 31), Row(true, Published, 0)], [1, 1, 2], [1, 2], map[]);
    assert Finished().workers - {"a"} == map[];
    Goes(Finished(), MarkFailure("a", 31), failed);
    var claimed := State(31, [Row(true, Publishing(61), 31), Row(true, Published, 0)], [1, 1, 2], [1, 2],
                         map["b" := Lease(0, 61, Claimed)]);
    Goes(failed, Claim("b", 0), claimed);
    var again := claimed.(history := [1, 1, 2, 1], workers := map["b" := Lease(0, 61, Pushed)]);
    assert [1, 1, 2] + [1] == [1, 1, 2, 1];
    Goes(claimed, Publish("b", true, true), again);
  }

  /** Worker a has offered row 1 and stalls before it marks it; worker b has just taken the row over. */
  function TakenOver(): State {
    State(31, Rows(Publishing(61), Pending), [1], [1],
          map["a" := Lease(0, 30, Phase.Offered), "b" := Lease(0, 61, Claimed)])
  }

  lemma TakenOverIsReachable()
    ensures Reachable(TakenOver())
  {
    ClaimIsReachable();
    var rows := Rows(Publishing(30), Pending);
    var pushed := State(0, rows, [1], [], map["a" := Lease(0, 30, Pushed)]);
    var offered := State(0, rows, [1], [1], map["a" := Lease(0, 30, Phase.Offered)]);
    Goes(Stalled(0, false), Publish("a", true, true), pushed);
    Goes(pushed, Offer("a"), offered);
    Goes(offered, Tick(31), offered.(now := 31));
    Goes(offered.(now := 31), Claim("b", 0), TakenOver());
  }

  /** A late mark of success in a reachable state, and steps in time behind it that disorder the list. */
  lemma LateMarkStepsBack() returns (rest: seq<Step>)
    ensures Reachable(TakenOver()) && !Live(TakenOver(), "a")
    ensures !NonDecreasing(Run(NextLate(TakenOver(), Step.MarkPublished("a")), rest).history)
  {
    TakenOverIsReachable();
    TakenOverIsSound();
    rest := LateMarkDisorders(TakenOver(), "a", "b");
  }

  lemma TakenOverIsSound()
    ensures Inv(TakenOver())
  {
    var s := TakenOver();
    assert forall h :: h in s.history <==> h == 1;
    assert s.workers.Keys == {"a", "b"} && !Live(s, "a");
    assert Remembers(s, s.workers["a"]) && Remembers(s, s.workers["b"]);
  }
}
