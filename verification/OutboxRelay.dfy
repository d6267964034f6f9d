/** Ordered delivery of one auction's outbox: several relay workers claim rows, push them to the Redis history
    list, hand them to the hub and mark them; they may crash anywhere, and a push may take effect although it is
    reported as failed. Row i of the table carries sequence number i + 1. */
module OutboxRelay {
  type WorkerId = string

  datatype Delivery = Pending | Publishing(lockedUntil: int) | Failed | Published | Dead

  /** One outbox_delivery row; `valid` is the verdict of validateEventEnvelope on its event. */
  datatype Row = Row(valid: bool, status: Delivery, dueAt: int)

  datatype Phase = Claimed | Pushed | Offered | Broken | Refused

  /** What a worker between claim and mark holds: its row, the end of its lock, and how far it has come. */
  datatype Lease = Lease(row: nat, until: int, phase: Phase)

  /** `history` is everything ever pushed to the list, before trimming; `offered` everything handed to the hub. */
  datatype State = State(
    now: int, rows: seq<Row>, history: seq<nat>, offered: seq<nat>, workers: map<WorkerId, Lease>)

  const LOCK_SECONDS := 30

  datatype Step =
    | Append(valid: bool)
    | Tick(seconds: nat)
    | Claim(worker: WorkerId, row: nat)
    | Publish(worker: WorkerId, applied: bool, reported: bool)
    | Offer(worker: WorkerId)
    | MarkPublished(worker: WorkerId)
    | MarkFailure(worker: WorkerId, retryAt: int)
    | Crash(worker: WorkerId)

  // ---- The machine ------------------------------------------------------------------

  predicate Settled(d: Delivery) {
    d.Published? || d.Dead?
  }

  predicate Started(d: Delivery) {
    !d.Pending?
  }

  predicate Due(row: Row, now: int) {
    match row.status
    case Pending => row.dueAt <= now
    case Failed => row.dueAt <= now
    case Publishing(until) => until < now
    case _ => false
  }

  /** The claim query: due, and no earlier row of the auction still on its way. */
  ghost predicate Claimable(rows: seq<Row>, i: nat, now: int) {
    && i < |rows| && Due(rows[i], now)
    && forall j :: 0 <= j < i ==> Settled(rows[j].status)
  }

  /** A worker in this phase of its row. */
  predicate IsIn(s: State, worker: WorkerId, phase: Phase) {
    worker in s.workers && s.workers[worker].phase == phase && s.workers[worker].row < |s.rows|
  }

  /** What the statements themselves allow: none that acts on a claimed row looks at the lock again. */
  ghost predicate Possible(s: State, step: Step) {
    match step
    case Append(_) => true
    case Tick(_) => true
    case Claim(worker, row) => worker !in s.workers && Claimable(s.rows, row, s.now)
    case Publish(worker, applied, reported) => IsIn(s, worker, Claimed) && (reported ==> applied)
    case Offer(worker) => IsIn(s, worker, Pushed)
    case MarkPublished(worker) => IsIn(s, worker, Phase.Offered)
    case MarkFailure(worker, _) => IsIn(s, worker, Broken) || IsIn(s, worker, Refused)
    case Crash(worker) => worker in s.workers
  }

  predicate ActsOnRow(step: Step) {
    step.Publish? || step.Offer? || step.MarkPublished? || step.MarkFailure?
  }

  predicate Live(s: State, worker: WorkerId) {
    worker in s.workers && s.now <= s.workers[worker].until
  }

  /** The assumption: a worker acts on its row only while its lock lasts, or never again. */
  ghost predicate Enabled(s: State, step: Step) {
    Possible(s, step) && (ActsOnRow(step) ==> Live(s, step.worker))
  }

  predicate Holds(s: State, worker: WorkerId, phase: Phase) {
    IsIn(s, worker, phase) && Live(s, worker)
  }

  function SetStatus(s: State, i: nat, status: Delivery, dueAt: int): State
    requires i < |s.rows|
  {
    s.(rows := s.rows[i := s.rows[i].(status := status, dueAt := dueAt)])
  }

  function Move(s: State, worker: WorkerId, phase: Phase): State
    requires worker in s.workers
  {
    s.(workers := s.workers[worker := s.workers[worker].(phase := phase)])
  }

  function Leave(s: State, worker: WorkerId): State {
    s.(workers := s.workers - {worker})
  }

  function Pushing(s: State, worker: WorkerId, applied: bool, reported: bool): State
    requires worker in s.workers && s.workers[worker].row < |s.rows|
  {
    var i := s.workers[worker].row;
    if !s.rows[i].valid then Move(s, worker, Refused)
    else
      var pushed := if applied then s.(history := s.history + [i + 1]) else s;
      Move(pushed, worker, if reported then Pushed else Broken)
  }

  ghost function Effect(s: State, step: Step): State
    requires Possible(s, step)
  {
    match step
    case Append(valid) => s.(rows := s.rows + [Row(valid, Pending, s.now)])
    case Tick(seconds) => s.(now := s.now + seconds)
    case Claim(worker, row) =>
      var until := s.now + LOCK_SECONDS;
      SetStatus(s, row, Publishing(until), s.rows[row].dueAt)
        .(workers := s.workers[worker := Lease(row, until, Claimed)])
    case Publish(worker, applied, reported) => Pushing(s, worker, applied, reported)
    case Offer(worker) => Move(s.(offered := s.offered + [s.workers[worker].row + 1]), worker, Phase.Offered)
    case MarkPublished(worker) =>
      var i := s.workers[worker].row;
      Leave(SetStatus(s, i, Published, s.rows[i].dueAt), worker)
    case MarkFailure(worker, retryAt) =>
      var lease := s.workers[worker];
      Leave(SetStatus(s, lease.row, if lease.phase == Refused then Dead else Failed, retryAt), worker)
    case Crash(worker) => Leave(s, worker)
  }

  ghost function Next(s: State, step: Step): State {
    if Enabled(s, step) then Effect(s, step) else s
  }

  ghost function Run(s: State, steps: seq<Step>): State
    decreases |steps|
  {
    if steps == [] then s else Run(Next(s, steps[0]), steps[1..])
  }

  function Initial(now: int): State {
    State(now, [], [], [], map[])
  }

  // ---- The invariant ----------------------------------------------------------------

  ghost predicate NonDecreasing(s: seq<nat>) {
    forall i, j :: 0 <= i < j < |s| ==> s[i] <= s[j]
  }

  /** Nothing behind an unsettled row has been started. */
  ghost predicate InOrder(rows: seq<Row>) {
    forall i, j :: 0 <= i < j < |rows| && Started(rows[j].status) ==> Settled(rows[i].status)
  }

  ghost predicate HistoryMatches(rows: seq<Row>, history: seq<nat>) {
    && NonDecreasing(history)
    && (forall h :: h in history ==> 1 <= h <= |rows| && rows[h - 1].valid && Started(rows[h - 1].status))
    && (forall i :: 0 <= i < |rows| && rows[i].status == Dead ==> !rows[i].valid)
  }

  /** Everything offered was pushed before, in order, and everything published was offered. */
  ghost predicate OffersMatch(rows: seq<Row>, history: seq<nat>, offered: seq<nat>) {
    && NonDecreasing(offered)
    && (forall h :: h in offered ==> h in history)
    && (forall i :: 0 <= i < |rows| && rows[i].status == Published ==> i + 1 in offered)
  }

  /** What a worker knows of its row for good, lock or no lock. */
  ghost predicate Remembers(s: State, lease: Lease) {
    && lease.row < |s.rows| && Started(s.rows[lease.row].status)
    && (lease.phase in {Pushed, Phase.Offered} ==> s.rows[lease.row].valid && lease.row + 1 in s.history)
    && (lease.phase == Phase.Offered ==> lease.row + 1 in s.offered)
    && (lease.phase == Refused ==> !s.rows[lease.row].valid)
  }

  /** An unexpired lock is the row's own, and there is at most one. */
  ghost predicate LocksFit(s: State) {
    && (forall w :: Live(s, w) && s.workers[w].row < |s.rows| ==>
          s.rows[s.workers[w].row].status == Publishing(s.workers[w].until))
    && (forall v, w :: Live(s, v) && Live(s, w) ==> v == w)
  }

  ghost predicate Inv(s: State) {
    && InOrder(s.rows) && HistoryMatches(s.rows, s.history) && OffersMatch(s.rows, s.history, s.offered)
    && (forall w :: w in s.workers ==> Remembers(s, s.workers[w]))
    && LocksFit(s)
  }

  // ---- Every step keeps it ----------------------------------------------------------

  /** A claimable row is nobody's: no unexpired lock exists at all. */
  lemma ClaimFindsNobody(s: State, i: nat, w: WorkerId)
    requires Inv(s) && Claimable(s.rows, i, s.now)
    ensures !Live(s, w)
  {
    assert w in s.workers ==> Remembers(s, s.workers[w]);
  }

  lemma ClaimKeepsInv(s: State, worker: WorkerId, i: nat)
    requires Inv(s) && Enabled(s, Claim(worker, i))
    ensures Inv(Next(s, Claim(worker, i)))
  {
    var t := Next(s, Claim(worker, i));
    forall w | w in t.workers ensures Remembers(t, t.workers[w]) {
      if w != worker { assert Remembers(s, s.workers[w]); }
    }
    forall w | Live(t, w) ensures w == worker {
      if w != worker { ClaimFindsNobody(s, i, w); }
    }
  }

  /** The row under an unexpired lock is the newest one ever pushed. */
  lemma HolderIsNewest(s: State, worker: WorkerId, h: nat)
    requires Inv(s) && Live(s, worker) && h in s.history
    ensures h <= s.workers[worker].row + 1
  {
    assert Remembers(s, s.workers[worker]);
  }

  /** The rows of the others are as they were, and so is what they know of them. */
  lemma OthersRemember(s: State, t: State, worker: WorkerId)
    requires forall w :: w in s.workers ==> Remembers(s, s.workers[w])
    requires |t.rows| >= |s.rows| && s.history <= t.history && s.offered <= t.offered
    requires forall i :: 0 <= i < |s.rows| ==>
      t.rows[i].valid == s.rows[i].valid && (Started(s.rows[i].status) ==> Started(t.rows[i].status))
    requires forall w :: w in t.workers && w != worker ==> w in s.workers && t.workers[w] == s.workers[w]
    ensures forall w :: w in t.workers && w != worker ==> Remembers(t, t.workers[w])
  {
    forall w | w in t.workers && w != worker ensures Remembers(t, t.workers[w]) {
      assert Remembers(s, s.workers[w]);
    }
  }

  lemma PusherRemembers(s: State, worker: WorkerId, applied: bool, reported: bool)
    requires Inv(s) && Possible(s, Publish(worker, applied, reported))
    ensures
      var t := Effect(s, Publish(worker, applied, reported));
      && t.rows == s.rows && t.offered == s.offered && s.history <= t.history
      && worker in t.workers && Remembers(t, t.workers[worker])
  {
    var i := s.workers[worker].row;
    assert Remembers(s, s.workers[worker]);
    assert (s.history + [i + 1])[|s.history|] == i + 1;
  }

  /** Whatever a push does to the order of the list, it keeps the rest. */
  lemma PushKeepsRest(s: State, worker: WorkerId, applied: bool, reported: bool)
    requires Inv(s) && Possible(s, Publish(worker, applied, reported))
    ensures
      var t := Effect(s, Publish(worker, applied, reported));
      && t.rows == s.rows && OffersMatch(t.rows, t.history, t.offered) && LocksFit(t)
      && forall w :: w in t.workers ==> Remembers(t, t.workers[w])
  {
    var t := Effect(s, Publish(worker, applied, reported));
    PusherRemembers(s, worker, applied, reported);
    OthersRemember(s, t, worker);
    LocksStay(s, t);
    MoreHistory(s.rows, s.history, t.history, s.offered);
  }

  lemma MoreHistory(rows: seq<Row>, history: seq<nat>, more: seq<nat>, offered: seq<nat>)
    requires OffersMatch(rows, history, offered) && history <= more
    ensures OffersMatch(rows, more, offered)
  {
  }

  /** A push keeps everything exactly when it writes no number behind a greater one. */
  lemma PushKeepsInv(s: State, worker: WorkerId, applied: bool, reported: bool)
    requires Inv(s) && Possible(s, Publish(worker, applied, reported))
    ensures Inv(Effect(s, Publish(worker, applied, reported))) <==>
      (applied && s.rows[s.workers[worker].row].valid ==> forall h :: h in s.history ==> h <= s.workers[worker].row + 1)
  {
    var i := s.workers[worker].row;
    PushKeepsRest(s, worker, applied, reported);
    if applied && s.rows[i].valid {
      assert Remembers(s, s.workers[worker]);
      AppendOrder(s.history, i + 1);
      PushedHistory(s.rows, s.history, i);
    }
  }

  lemma AppendOrder(numbers: seq<nat>, n: nat)
    requires NonDecreasing(numbers)
    ensures NonDecreasing(numbers + [n]) <==> forall h :: h in numbers ==> h <= n
  {
    var more := numbers + [n];
    if NonDecreasing(more) {
      forall h | h in numbers ensures h <= n {
        var k :| 0 <= k < |numbers| && numbers[k] == h;
        assert more[k] <= more[|numbers|];
      }
    } else if forall h :: h in numbers ==> h <= n {
      var i, j :| 0 <= i < j < |more| && more[i] > more[j];
      assert more[i] in numbers;
    }
  }

  lemma PushedHistory(rows: seq<Row>, history: seq<nat>, i: nat)
    requires HistoryMatches(rows, history) && i < |rows| && rows[i].valid && Started(rows[i].status)
    ensures HistoryMatches(rows, history + [i + 1]) <==> NonDecreasing(history + [i + 1])
    ensures i + 1 in history + [i + 1]
  {
    assert (history + [i + 1])[|history|] == i + 1;
  }

  /** Moving along with one's own row changes no lock. */
  lemma LocksStay(s: State, t: State)
    requires LocksFit(s) && t.now == s.now && t.workers.Keys <= s.workers.Keys
    requires |t.rows| == |s.rows| && forall i :: 0 <= i < |s.rows| ==> t.rows[i].status == s.rows[i].status
    requires forall w :: w in t.workers ==> t.workers[w].row == s.workers[w].row && t.workers[w].until == s.workers[w].until
    ensures LocksFit(t)
  {
    forall w | Live(t, w) ensures Live(s, w) {
    }
  }

  /** An offer likewise. */
  lemma OfferKeepsInv(s: State, worker: WorkerId)
    requires Inv(s) && Possible(s, Offer(worker))
    ensures Inv(Effect(s, Offer(worker))) <==> forall h :: h in s.offered ==> h <= s.workers[worker].row + 1
  {
    assert Remembers(s, s.workers[worker]);
    OfferKeepsRest(s, worker);
    MoreOffers(s.rows, s.history, s.offered, s.workers[worker].row);
  }

  lemma OfferKeepsRest(s: State, worker: WorkerId)
    requires Inv(s) && Possible(s, Offer(worker))
    ensures
      var t := Effect(s, Offer(worker));
      && t.rows == s.rows && t.history == s.history && LocksFit(t)
      && forall w :: w in t.workers ==> Remembers(t, t.workers[w])
  {
    var t := Effect(s, Offer(worker));
    assert Remembers(s, s.workers[worker]);
    OthersRemember(s, t, worker);
    LocksStay(s, t);
    assert t.offered[|s.offered|] == s.workers[worker].row + 1;
  }

  lemma MoreOffers(rows: seq<Row>, history: seq<nat>, offered: seq<nat>, i: nat)
    requires OffersMatch(rows, history, offered) && i + 1 in history
    ensures OffersMatch(rows, history, offered + [i + 1]) <==> forall h :: h in offered ==> h <= i + 1
  {
    AppendOrder(offered, i + 1);
  }

  /** Nobody else holds an unexpired lock on the worker's row. */
  ghost predicate Unrivalled(s: State, worker: WorkerId)
    requires worker in s.workers
  {
    forall v :: Live(s, v) && v != worker ==> s.workers[v].row != s.workers[worker].row
  }

  predicate NothingBehind(s: State, i: nat) {
    forall j :: i < j < |s.rows| ==> !Started(s.rows[j].status)
  }

  /** A mark keeps everything exactly when nobody else holds the row and, if it puts the row back, nothing behind the
      row has been started. */
  lemma MarkKeepsInv(s: State, step: Step)
    requires Inv(s) && (step.MarkPublished? || step.MarkFailure?) && Possible(s, step)
    ensures Inv(Effect(s, step)) <==>
      && Unrivalled(s, step.worker)
      && (step.MarkFailure? && s.workers[step.worker].phase == Broken ==> NothingBehind(s, s.workers[step.worker].row))
  {
    var t, worker, i := Effect(s, step), step.worker, s.workers[step.worker].row;
    assert Remembers(s, s.workers[worker]);
    OthersRemember(s, t, worker);
    if Unrivalled(s, worker) {
      forall w | Live(t, w) ensures Live(s, w) && t.rows[t.workers[w].row].status == Publishing(t.workers[w].until) {
        assert Live(s, w) && Remembers(s, s.workers[w]);
      }
    } else {
      var v :| Live(s, v) && v != worker && s.workers[v].row == i;
      assert Live(t, v) && t.workers[v].row < |t.rows|;
    }
    MarkKeepsOrder(s, step);
  }

  lemma MarkKeepsOrder(s: State, step: Step)
    requires Inv(s) && (step.MarkPublished? || step.MarkFailure?) && Possible(s, step)
    ensures
      var t := Effect(s, step);
      && HistoryMatches(t.rows, t.history) && OffersMatch(t.rows, t.history, t.offered)
      && (InOrder(t.rows) <==>
            (step.MarkFailure? && s.workers[step.worker].phase == Broken ==> NothingBehind(s, s.workers[step.worker].row)))
  {
    var i := s.workers[step.worker].row;
    assert Remembers(s, s.workers[step.worker]);
    var status :=
      if step.MarkPublished? then Published else if s.workers[step.worker].phase == Refused then Dead else Failed;
    SettingKeepsOrder(s, i, status, if step.MarkPublished? then s.rows[i].dueAt else step.retryAt);
  }

  lemma SettingKeepsOrder(s: State, i: nat, status: Delivery, dueAt: int)
    requires InOrder(s.rows) && HistoryMatches(s.rows, s.history) && OffersMatch(s.rows, s.history, s.offered)
    requires i < |s.rows| && Started(s.rows[i].status)
    requires status == Failed || (status == Dead && !s.rows[i].valid) || (status == Published && i + 1 in s.offered)
    ensures
      var t := SetStatus(s, i, status, dueAt);
      && HistoryMatches(t.rows, t.history) && OffersMatch(t.rows, t.history, t.offered)
      && (InOrder(t.rows) <==> (status == Failed ==> NothingBehind(s, i)))
  {
    var t := SetStatus(s, i, status, dueAt);
    if status == Failed && !NothingBehind(s, i) {
      var j :| i < j < |s.rows| && Started(s.rows[j].status);
      assert Started(t.rows[j].status) && !Settled(t.rows[i].status);
    }
  }

  /** The holder of an unexpired lock may always mark. */
  lemma HolderMayMark(s: State, worker: WorkerId)
    requires Inv(s) && Live(s, worker)
    ensures Unrivalled(s, worker) && NothingBehind(s, s.workers[worker].row)
  {
    assert Remembers(s, s.workers[worker]);
  }

  lemma QuietStepKeepsInv(s: State, step: Step)
    requires Inv(s) && (step.Append? || step.Tick? || step.Crash?)
    ensures Inv(Next(s, step))
  {
    var t := Next(s, step);
    if Enabled(s, step) {
      forall w | w in t.workers ensures Remembers(t, t.workers[w]) {
        assert Remembers(s, s.workers[w]);
      }
      forall w | Live(t, w) ensures Live(s, w) && t.workers[w] == s.workers[w] {
        assert Remembers(s, s.workers[w]);
      }
    }
  }

  lemma StepKeepsInv(s: State, step: Step)
    requires Inv(s)
    ensures Inv(Next(s, step))
  {
    if Enabled(s, step) {
      match step
      case Claim(worker, row) => ClaimKeepsInv(s, worker, row);
      case Publish(worker, applied, reported) =>
        forall h | h in s.history ensures h <= s.workers[worker].row + 1 { HolderIsNewest(s, worker, h); }
        PushKeepsInv(s, worker, applied, reported);
      case Offer(worker) =>
        forall h | h in s.offered ensures h <= s.workers[worker].row + 1 { HolderIsNewest(s, worker, h); }
        OfferKeepsInv(s, worker);
      case MarkPublished(worker) =>
        HolderMayMark(s, worker);
        MarkKeepsInv(s, step);
      case MarkFailure(worker, _) =>
        HolderMayMark(s, worker);
        MarkKeepsInv(s, step);
      case _ => QuietStepKeepsInv(s, step);
    }
  }

  lemma {:induction false} RunKeepsInv(s: State, steps: seq<Step>)
    requires Inv(s)
    ensures Inv(Run(s, steps))
    decreases |steps|
  {
    if steps != [] {
      StepKeepsInv(s, steps[0]);
      RunKeepsInv(Next(s, steps[0]), steps[1..]);
    }
  }

  /** The history list and the offers only grow. */
  lemma {:induction false} RunOnlyAppends(s: State, steps: seq<Step>)
    ensures s.history <= Run(s, steps).history && s.offered <= Run(s, steps).offered
    decreases |steps|
  {
    if steps != [] { RunOnlyAppends(Next(s, steps[0]), steps[1..]); }
  }

  // ---- What is delivered ------------------------------------------------------------

  /** No earlier number is missing from a list of pushes or of offers unless its row is dead. */
  ghost predicate NoHoles(rows: seq<Row>, numbers: seq<nat>) {
    forall h, n :: h in numbers && 1 <= n < h && n <= |rows| && rows[n - 1].status != Dead ==> n in numbers
  }

  /** The P0 check on the delivery table: no published row behind one still on its way. */
  ghost predicate HeadOfLine(rows: seq<Row>) {
    forall i, j :: 0 <= i < j < |rows| && rows[j].status == Published ==> Settled(rows[i].status)
  }

  /** Over every interleaving of workers, crashes and half-failed pushes: neither the history list nor the offers to
      the hub ever step back, so repeats are adjacent; they have no holes but the dead rows; and the table is published
      head of line first. */
  lemma OrderedDelivery(now: int, steps: seq<Step>)
    ensures
      var s := Run(Initial(now), steps);
      && NonDecreasing(s.history) && NoHoles(s.rows, s.history)
      && NonDecreasing(s.offered) && NoHoles(s.rows, s.offered)
      && HeadOfLine(s.rows)
  {
    RunKeepsInv(Initial(now), steps);
    InvMeansNoHoles(Run(Initial(now), steps));
  }

  lemma InvMeansNoHoles(s: State)
    requires Inv(s)
    ensures NoHoles(s.rows, s.history) && NoHoles(s.rows, s.offered)
  {
    forall h, n | h in s.history && 1 <= n < h && n <= |s.rows| && s.rows[n - 1].status != Dead
      ensures n in s.history && n in s.offered
    {
      assert Started(s.rows[h - 1].status);
      assert s.rows[n - 1].status == Published;
      assert (n - 1) + 1 in s.offered;
    }
  }

  lemma {:induction false} RunSplits(s: State, first: seq<Step>, rest: seq<Step>)
    ensures Run(s, first + rest) == Run(Run(s, first), rest)
    decreases |first|
  {
    if first == [] {
      assert first + rest == rest;
    } else {
      assert (first + rest)[0] == first[0] && (first + rest)[1..] == first[1..] + rest;
      RunSplits(Next(s, first[0]), first[1..], rest);
    }
  }

  lemma RunExtends(s: State, steps: seq<Step>, last: Step)
    ensures Run(s, steps + [last]) == Next(Run(s, steps), last)
  {
    var t := Run(s, steps);
    RunSplits(s, steps, [last]);
    assert [last][1..] == [] && Run(Next(t, last), []) == Next(t, last);
  }

  /** One more step of a run, with the state it must lead to. */
  lemma Goes(start: State, steps: seq<Step>, s: State, step: Step, t: State) returns (longer: seq<Step>)
    requires Run(start, steps) == s && Next(s, step) == t
    ensures longer == steps + [step] && Run(start, longer) == t
  {
    RunExtends(start, steps, step);
    longer := steps + [step];
  }
}
