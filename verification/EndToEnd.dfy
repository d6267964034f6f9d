/** From a committed transaction to a reconnecting client: the auction machine and its relay as one system, joined by
    the outbox. */
module EndToEnd {
  import opened Wrappers
  import opened BidRules
  import opened AuctionState
  import S = Settlement
  import T = Transactions
  import opened Invariants
  import R = OutboxRelay
  import H = HistoryCheck
  import V = Recovery
  import L = LiveQueue

  /** `wire` is what the pushes wrote to the list: for every number of the relay's history, the outbox row of that
      number at the time of the push. */
  datatype System = System(world: World, relay: R.State, wire: seq<Event>)

  /** A transaction with the verdicts on the envelopes of its new outbox rows, or a step of a relay worker. */
  datatype Move = Commit(step: T.Step, valid: seq<bool>) | Deliver(work: R.Step)

  function NewRows(n: nat, valid: seq<bool>, now: int): (rows: seq<R.Row>)
    ensures |rows| == n
  {
    seq(n, i requires 0 <= i < n => R.Row(if i < |valid| then valid[i] else true, R.Pending, now))
  }

  /** The delivery rows are written by the transaction that writes the outbox rows. */
  function Enqueued(s: R.State, upTo: nat, valid: seq<bool>): R.State {
    if upTo <= |s.rows| then s else s.(rows := s.rows + NewRows(upTo - |s.rows|, valid, s.now))
  }

  /** A push renders the outbox row of the number it pushes. */
  function Rendered(wire: seq<Event>, history: seq<nat>, outbox: seq<Event>): seq<Event> {
    if |wire| < |history| && 1 <= history[|wire|] <= |outbox| then wire + [outbox[history[|wire|] - 1]] else wire
  }

  ghost function Next(s: System, move: Move): System {
    match move
    case Commit(step, valid) =>
      var world := T.Next(s.world, step);
      s.(world := world, relay := Enqueued(s.relay, |world.outbox|, valid))
    case Deliver(work) =>
      if work.Append? then s
      else
        var relay := R.Next(s.relay, work);
        s.(relay := relay, wire := Rendered(s.wire, relay.history, s.world.outbox))
  }

  ghost function Run(s: System, moves: seq<Move>): System
    decreases |moves|
  {
    if moves == [] then s else Run(Next(s, moves[0]), moves[1..])
  }

  ghost predicate Mirrors(wire: seq<Event>, history: seq<nat>, outbox: seq<Event>) {
    |wire| == |history|
    && forall i :: 0 <= i < |wire| ==> 1 <= history[i] <= |outbox| && wire[i] == outbox[history[i] - 1]
  }

  ghost predicate SystemInv(s: System) {
    && CoreInv(s.world) && R.Inv(s.relay) && |s.relay.rows| == |s.world.outbox|
    && Mirrors(s.wire, s.relay.history, s.world.outbox)
  }

  // ---- The outbox only grows ----------------------------------------------------------------

  lemma {:induction false} AwardsAppend(w: World, awards: seq<S.Award>, last: BidResult, clock: Clock)
    requires S.ApplyAwards(w, awards, last, clock).Ok?
    ensures w.outbox <= S.ApplyAwards(w, awards, last, clock).value.0.outbox
    decreases |awards|
  {
    if awards != [] {
      var (next, result) := S.ApplyAward(w, awards[0], clock).value;
      AwardsAppend(next, awards[1..], result, clock);
    }
  }

  lemma TakeAppends(w: World, user: UserId, key: BidKey, amount: int, clock: Clock)
    requires T.TakeBid(w, user, key, amount, clock).Ok?
    ensures w.outbox <= T.TakeBid(w, user, key, amount, clock).value.0.outbox
  {
    var (taken, result) := T.Placed(w, user, key, amount, clock).value;
    if result != ResultSold { AwardsAppend(taken, S.Awards(taken.auction, taken.intents), result, clock); }
  }

  lemma DecideAppends(w: World, user: UserId, key: BidKey, amount: int, token: string, clock: Clock, skip: bool)
    requires T.DecideBid(w, user, key, amount, token, clock, skip).Ok?
    ensures w.outbox <= T.DecideBid(w, user, key, amount, token, clock, skip).value.0.outbox
  {
    if T.EvaluateBid(w.auction, user, amount, clock.first, skip).Take? { TakeAppends(w, user, key, amount, clock); }
  }

  lemma BidAppends(w: World, step: T.Step)
    requires T.IsBid(step)
    ensures w.outbox <= T.Next(w, step).outbox
  {
    if T.Try(w, step).Ok? {
      T.BidReplaysOrDecides(w, step);
      if T.BidDecision(w, step).Ok? {
        DecideAppends(w, step.user, step.key, T.BidAmount(w, step),
          if step.DoConfirm? then "" else step.token, step.clock, step.DoConfirm?);
      }
    }
  }

  lemma OtherStepAppends(w: World, step: T.Step)
    requires !T.IsBid(step) && !step.DoStart?
    ensures w.outbox <= T.Next(w, step).outbox
  {
  }

  lemma StepAppends(w: World, step: T.Step)
    ensures w.outbox <= T.Next(w, step).outbox
  {
    if T.IsBid(step) {
      BidAppends(w, step);
    } else if step.DoStart? {
      if T.Start(w, step.clock, step.roomFree).Ok? {
        var live := T.Opened(w, step.clock.first);
        AwardsAppend(live, S.Awards(live.auction, live.intents), ResultAccepted, step.clock);
      }
    } else {
      OtherStepAppends(w, step);
    }
  }

  // ---- The joint invariant ------------------------------------------------------------------

  lemma EnqueueKeepsInv(s: R.State, upTo: nat, valid: seq<bool>)
    requires R.Inv(s)
    ensures R.Inv(Enqueued(s, upTo, valid))
  {
    var t := Enqueued(s, upTo, valid);
    forall w | w in t.workers ensures R.Remembers(t, t.workers[w]) {
      assert R.Remembers(s, s.workers[w]);
    }
    forall w | R.Live(t, w) ensures R.Live(s, w) && t.rows[t.workers[w].row] == s.rows[s.workers[w].row] {
      assert R.Remembers(s, s.workers[w]);
    }
  }

  lemma RelayStepGrows(s: R.State, step: R.Step)
    requires !step.Append?
    ensures |R.Next(s, step).rows| == |s.rows|
    ensures s.history <= R.Next(s, step).history && |R.Next(s, step).history| <= |s.history| + 1
    ensures s.offered <= R.Next(s, step).offered
  {
  }

  lemma RenderKeepsMirror(wire: seq<Event>, history: seq<nat>, more: seq<nat>, outbox: seq<Event>)
    requires Mirrors(wire, history, outbox) && history <= more && |more| <= |history| + 1
    requires forall h :: h in more ==> 1 <= h <= |outbox|
    ensures Mirrors(Rendered(wire, more, outbox), more, outbox)
  {
    if |more| == |history| {
      assert more == history;
    } else {
      var n := more[|history|];
      assert n in more;
      OneMore(history, more);
      MirrorExtends(wire, history, n, outbox);
    }
  }

  lemma OneMore(history: seq<nat>, more: seq<nat>)
    requires history <= more && |more| == |history| + 1
    ensures more == history + [more[|history|]]
  {
  }

  lemma MirrorExtends(wire: seq<Event>, history: seq<nat>, n: nat, outbox: seq<Event>)
    requires Mirrors(wire, history, outbox) && 1 <= n <= |outbox|
    ensures Mirrors(wire + [outbox[n - 1]], history + [n], outbox)
  {
  }

  lemma GrowthKeepsInv(s: System, next: World, valid: seq<bool>)
    requires SystemInv(s) && CoreInv(next) && s.world.outbox <= next.outbox
    ensures SystemInv(s.(world := next, relay := Enqueued(s.relay, |next.outbox|, valid)))
  {
    EnqueueKeepsInv(s.relay, |next.outbox|, valid);
  }

  lemma CommitKeepsInv(s: System, step: T.Step, valid: seq<bool>)
    requires SystemInv(s)
    ensures SystemInv(Next(s, Commit(step, valid)))
  {
    StepKeepsCore(s.world, step);
    StepAppends(s.world, step);
    GrowthKeepsInv(s, T.Next(s.world, step), valid);
  }

  lemma DeliverKeepsInv(s: System, work: R.Step)
    requires SystemInv(s)
    ensures SystemInv(Next(s, Deliver(work)))
  {
    if !work.Append? {
      R.StepKeepsInv(s.relay, work);
      RelayStepGrows(s.relay, work);
      RenderKeepsMirror(s.wire, s.relay.history, R.Next(s.relay, work).history, s.world.outbox);
    }
  }

  /** Transactions and relay steps keep both invariants, one delivery row for every outbox row, and a list that
      mirrors the outbox. */
  lemma MoveKeepsInv(s: System, move: Move)
    requires SystemInv(s)
    ensures SystemInv(Next(s, move))
  {
    match move
    case Commit(step, valid) => CommitKeepsInv(s, step, valid);
    case Deliver(work) => DeliverKeepsInv(s, work);
  }

  lemma {:induction false} RunKeepsInv(s: System, moves: seq<Move>)
    requires SystemInv(s)
    ensures SystemInv(Run(s, moves))
    ensures s.relay.history <= Run(s, moves).relay.history && s.relay.offered <= Run(s, moves).relay.offered
    decreases |moves|
  {
    if moves != [] {
      MoveKeepsInv(s, moves[0]);
      if moves[0].Deliver? && !moves[0].work.Append? { RelayStepGrows(s.relay, moves[0].work); }
      RunKeepsInv(Next(s, moves[0]), moves[1..]);
    }
  }

  /** A new auction with the delivery row of its first event. */
  function Created(rules: Rules, now: int, valid: bool): System
    requires T.CreateAuction(rules).Ok?
  {
    System(T.CreateAuction(rules).value, Enqueued(R.Initial(now), |T.CreateAuction(rules).value.outbox|, [valid]), [])
  }

  lemma CreatedInv(rules: Rules, now: int, valid: bool)
    requires T.CreateAuction(rules).Ok?
    ensures SystemInv(Created(rules, now, valid))
  {
    CreateEstablishesCore(rules);
    FirstRowsInv(now, |T.CreateAuction(rules).value.outbox|, [valid]);
  }

  lemma FirstRowsInv(now: int, n: nat, valid: seq<bool>)
    ensures
      var s := Enqueued(R.Initial(now), n, valid);
      R.Inv(s) && |s.rows| == n && s.history == []
  {
    EnqueueKeepsInv(R.Initial(now), n, valid);
  }

  lemma ReachableInv(rules: Rules, now: int, valid: bool, moves: seq<Move>)
    requires T.CreateAuction(rules).Ok?
    ensures SystemInv(Run(Created(rules, now, valid), moves))
  {
    CreatedInv(rules, now, valid);
    RunKeepsInv(Created(rules, now, valid), moves);
  }

  // ---- What a client is told -------------------------------------------------------------------

  /** The list as a reader finds it: the rendered events of a remaining suffix, with their numbers. */
  predicate Reads(values: seq<V.Message>, wire: seq<Event>) {
    |values| == |wire| && forall i :: 0 <= i < |values| ==> values[i] == V.Message(Some(wire[i].seqNo), Some(wire[i]))
  }

  /** The messages are the auction's events lastSeq + 1, lastSeq + 2, ..., whole, each once and in order. */
  ghost predicate TellsEvents(messages: seq<V.Message>, w: World, lastSeq: int) {
    && 0 <= lastSeq && lastSeq + |messages| <= |w.events|
    && forall i :: 0 <= i < |messages| ==>
         messages[i] == V.Message(Some(lastSeq + i + 1), Some(w.events[lastSeq + i]))
  }

  lemma NumbersAreEvents(w: World)
    requires LogInv(w)
    ensures w.events == w.outbox && |w.events| == w.auction.seqNo
    ensures forall i :: 0 <= i < |w.events| ==> w.events[i].seqNo == i + 1
  {
  }

  /** A list entry carries the event of its number. */
  lemma ReadsHold(s: System, start: nat, values: seq<V.Message>)
    requires SystemInv(s) && start <= |s.wire| && Reads(values, s.wire[start..])
    ensures V.Holding(values, s.relay.history[start..])
    ensures forall m :: m in values ==>
      m.seqNo.Some? && 1 <= m.seqNo.value <= |s.world.events| && m.body == Some(s.world.events[m.seqNo.value - 1])
  {
    NumbersAreEvents(s.world);
    forall i | 0 <= i < |values|
      ensures values[i] == V.Message(Some(s.relay.history[start + i]), Some(s.world.events[s.relay.history[start + i] - 1]))
    {
      assert s.wire[start..][i] == s.wire[start + i];
    }
  }

  lemma RecoveredTellsEvents(s: System, start: nat, values: seq<V.Message>, lastSeq: int)
    requires SystemInv(s) && start <= |s.wire| && Reads(values, s.wire[start..])
    requires V.Recover(Some(values), lastSeq).FromHistory?
    ensures
      var messages := V.Recover(Some(values), lastSeq).messages;
      && TellsEvents(messages, s.world, lastSeq)
      && forall n :: n in s.relay.offered ==> n <= lastSeq + |messages|
  {
    var messages := V.Recover(Some(values), lastSeq).messages;
    ReadsHold(s, start, values);
    V.RecoveredIsExact(s.relay, start, values, lastSeq);
    V.NewerFinds(values, lastSeq);
    OfferedAreOld(s.relay);
    NumbersAreEvents(s.world);
    forall i | 0 <= i < |messages|
      ensures messages[i] == V.Message(Some(lastSeq + i + 1), Some(s.world.events[lastSeq + i]))
    {
      assert messages[i] in messages && messages[i] in values;
    }
  }

  lemma OfferedAreOld(s: R.State)
    requires R.Inv(s) && s.history != []
    ensures forall n :: n in s.offered ==> n <= s.history[|s.history| - 1]
  {
    forall n | n in s.offered ensures n <= s.history[|s.history| - 1] {
      assert n in s.history;
      var i :| 0 <= i < |s.history| && s.history[i] == n;
    }
  }

  /** Over every interleaving of transactions and relay steps: a client served from any remaining suffix of the list
      is told exactly the auction's own events after its last, contents included, and no fewer than were ever
      offered. */
  lemma ClientIsToldTheEvents(
      rules: Rules, now: int, valid: bool, moves: seq<Move>, start: nat, values: seq<V.Message>, lastSeq: int)
    requires T.CreateAuction(rules).Ok?
    requires
      var s := Run(Created(rules, now, valid), moves);
      start <= |s.wire| && Reads(values, s.wire[start..])
    requires V.Recover(Some(values), lastSeq).FromHistory?
    ensures
      var s := Run(Created(rules, now, valid), moves);
      var messages := V.Recover(Some(values), lastSeq).messages;
      && TellsEvents(messages, s.world, lastSeq)
      && forall n :: n in s.relay.offered ==> n <= lastSeq + |messages|
  {
    ReachableInv(rules, now, valid, moves);
    RecoveredTellsEvents(Run(Created(rules, now, valid), moves), start, values, lastSeq);
  }

  /** Over every interleaving: a client with a last number is served from whatever suffix of the list is left exactly when
      the newest entry is new to it, the one behind its last is there, none above its last is repeated, and no event up
      to the newest is dead. */
  lemma ClientIsServedExactly(
      rules: Rules, now: int, valid: bool, moves: seq<Move>, start: nat, values: seq<V.Message>, lastSeq: int)
    requires T.CreateAuction(rules).Ok? && lastSeq > 0
    requires
      var s := Run(Created(rules, now, valid), moves);
      start <= |s.wire| && Reads(values, s.wire[start..])
    ensures
      var s := Run(Created(rules, now, valid), moves);
      && start <= |s.relay.history|
      && (V.Recover(Some(values), lastSeq).FromHistory? <==> V.CanServe(s.relay.rows, s.relay.history[start..], lastSeq))
  {
    var s := Run(Created(rules, now, valid), moves);
    ReachableInv(rules, now, valid, moves);
    ReadsHold(s, start, values);
    V.ServedExactly(s.relay, start, values, lastSeq);
  }

  // ---- What a client is sent afterwards -----------------------------------------------------------

  /** What was offered to the hub from s to a later state t. */
  function OfferedSince(s: System, t: System): seq<nat> {
    if |s.relay.offered| <= |t.relay.offered| then t.relay.offered[|s.relay.offered|..] else []
  }

  function Published(numbers: seq<nat>, render: nat -> L.Payload): seq<L.Payload> {
    seq(|numbers|, i requires 0 <= i < |numbers| => render(numbers[i]))
  }

  /** Every number above the client's last and below one it was sent was recovered or sent before, unless its row is
      dead; and what it is sent never steps back. */
  ghost predicate NoGap(sent: seq<nat>, values: seq<V.Message>, lastSeq: int, rows: seq<R.Row>) {
    && R.NonDecreasing(sent)
    && forall k, n: nat :: 0 <= k < |sent| && lastSeq < n < sent[k] && 1 <= n <= |rows| && rows[n - 1].status != R.Dead ==>
         V.IsRecovered(values, lastSeq, n) || n in sent[..k]
  }

  /** The hand-off from the list to the live queue has no gap. A client subscribes in state s0 of the system, its list
      is read in s1, and until s2 its queue goes through any steps in which no publisher overtakes another. What the
      client has received is then the first so many of the events offered since it subscribed, and together with the
      recovered messages they leave nothing out. */
  lemma ClientStreamHasNoGap(
      s0: System, before: seq<Move>, after: seq<Move>, start: nat, values: seq<V.Message>, lastSeq: int,
      capacity: nat, limit: int, queue: seq<L.Step>, render: nat -> L.Payload)
    requires SystemInv(s0)
    requires start <= |Run(s0, before).wire| && Reads(values, Run(s0, before).wire[start..])
    requires V.Recover(Some(values), lastSeq).FromHistory?
    requires L.NoOvertaking(L.NewSub(capacity, limit), queue)
    requires L.Run(L.NewSub(capacity, limit), queue).published
      == Published(OfferedSince(s0, Run(Run(s0, before), after)), render)
    ensures
      var s2, sub := Run(Run(s0, before), after), L.Run(L.NewSub(capacity, limit), queue);
      var since := OfferedSince(s0, s2);
      && |sub.taken| <= |since| && sub.taken == Published(since[..|sub.taken|], render)
      && NoGap(since[..|sub.taken|], values, lastSeq, s2.relay.rows)
  {
    var s1, s2 := Run(s0, before), Run(Run(s0, before), after);
    RunKeepsInv(s0, before);
    RunKeepsInv(s1, after);
    ReadsHold(s1, start, values);
    var since := OfferedSince(s0, s2);
    TakenIsFirst(capacity, limit, queue, since, render);
    SentHasNoGap(s0.relay, s1.relay, s2.relay, start, values, lastSeq, |L.Run(L.NewSub(capacity, limit), queue).taken|);
  }

  lemma TakenIsFirst(capacity: nat, limit: int, queue: seq<L.Step>, since: seq<nat>, render: nat -> L.Payload)
    requires L.NoOvertaking(L.NewSub(capacity, limit), queue)
    requires L.Run(L.NewSub(capacity, limit), queue).published == Published(since, render)
    ensures
      var sub := L.Run(L.NewSub(capacity, limit), queue);
      |sub.taken| <= |since| && sub.taken == Published(since[..|sub.taken|], render)
  {
    var sub := L.Run(L.NewSub(capacity, limit), queue);
    L.SubscriberSeesPrefix(capacity, limit, queue);
    assert sub.taken == sub.published[..|sub.taken|];
  }

  lemma SentHasNoGap(
      s0: R.State, s1: R.State, s2: R.State, start: nat, values: seq<V.Message>, lastSeq: int, count: nat)
    requires R.Inv(s0) && R.Inv(s1) && R.Inv(s2) && s0.history <= s1.history && s0.offered <= s2.offered
    requires start <= |s1.history| && V.Holding(values, s1.history[start..])
    requires V.Recover(Some(values), lastSeq).FromHistory?
    requires count <= |s2.offered| - |s0.offered|
    ensures NoGap(s2.offered[|s0.offered|..][..count], values, lastSeq, s2.rows)
  {
    var base := |s0.offered|;
    var sent := s2.offered[base..][..count];
    assert forall k :: 0 <= k < count ==> sent[k] == s2.offered[base + k];
    forall k, n: nat | 0 <= k < |sent| && lastSeq < n < sent[k] && 1 <= n <= |s2.rows| && s2.rows[n - 1].status != R.Dead
      ensures V.IsRecovered(values, lastSeq, n) || n in sent[..k]
    {
      V.StreamHasNoGap(s0, s1, s2, start, values, lastSeq, base + k, n);
      if !V.IsRecovered(values, lastSeq, n) {
        var j :| base <= j < base + k && s2.offered[j] == n;
        assert sent[..k][j - base] == n;
      }
    }
  }

  // ---- What the reconciliation sees -----------------------------------------------------------------

  /** When the relay has drained, the reconciliation of the list against the auction's sequence number finds no drift
      exactly when no push was repeated in the retained list and no event from its first number on is dead. */
  lemma ReconciliationIsExact(rules: Rules, now: int, valid: bool, moves: seq<Move>, limit: nat)
    requires T.CreateAuction(rules).Ok?
    requires
      var s := Run(Created(rules, now, valid), moves);
      H.Drained(s.relay) && H.Retained(s.relay.history, limit) != []
    ensures
      var s := Run(Created(rules, now, valid), moves);
      var list := H.Retained(s.relay.history, limit);
      H.Clean(H.Entries(list), s.world.auction.seqNo) <==> H.NoRepeats(list) && H.NoDeadFrom(s.relay.rows, list[0])
  {
    ReachableInv(rules, now, valid, moves);
    var s := Run(Created(rules, now, valid), moves);
    NumbersAreEvents(s.world);
    H.DrainedList(s.relay, limit);
  }
}
