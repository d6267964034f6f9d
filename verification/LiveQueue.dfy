/** One live subscription of the hub: a bounded queue with byte accounting, and every interleaving of publishers,
    the consumer and the closing paths on it. Sending and closing a slow consumer are two critical sections. */
module LiveQueue {
  type Payload = seq<char>

  /** `published` is what was published since the subscription, `places` where in it each queued message stands,
      `taken` what the consumer received, `acked` how many of those it acknowledged, `pending` how many publishers
      failed to send and have not closed the queue yet. */
  datatype Sub = Sub(
    capacity: nat, limit: int, queue: seq<Payload>, closed: bool, queuedBytes: int,
    published: seq<Payload>, places: seq<nat>, taken: seq<Payload>, acked: nat, pending: nat)

  function NewSub(capacity: nat, limit: int): Sub {
    Sub(capacity, limit, [], false, 0, [], [], [], 0, 0)
  }

  // ---- The critical sections --------------------------------------------------------

  datatype Step = TrySend(payload: Payload) | CloseSlow | Close | Receive | Ack

  predicate Fits(s: Sub, payload: Payload) {
    !(s.limit > 0 && s.queuedBytes + |payload| > s.limit) && |s.queue| < s.capacity
  }

  /** A closed subscription swallows the message; a full one turns it away and leaves it to be closed. */
  function Sent(s: Sub, payload: Payload): Sub {
    var told := s.(published := s.published + [payload]);
    if s.closed then told
    else if Fits(s, payload) then
      told.(queue := s.queue + [payload], queuedBytes := s.queuedBytes + |payload|, places := s.places + [|s.published|])
    else told.(pending := s.pending + 1)
  }

  function Released(s: Sub): Sub
    requires s.acked < |s.taken|
  {
    var size := |s.taken[s.acked]|;
    var left := s.queuedBytes - size;
    s.(acked := s.acked + 1, queuedBytes := if size <= 0 then s.queuedBytes else if left < 0 then 0 else left)
  }

  predicate Enabled(s: Sub, step: Step) {
    match step
    case TrySend(_) => true
    case CloseSlow => s.pending > 0
    case Close => true
    case Receive => s.queue != []
    case Ack => s.acked < |s.taken|
  }

  function Next(s: Sub, step: Step): Sub {
    if !Enabled(s, step) then s
    else
      match step
      case TrySend(payload) => Sent(s, payload)
      case CloseSlow => s.(closed := true, pending := s.pending - 1)
      case Close => s.(closed := true)
      case Receive => s.(queue := s.queue[1..], taken := s.taken + [s.queue[0]])
      case Ack => Released(s)
  }

  function Run(s: Sub, steps: seq<Step>): Sub
    decreases |steps|
  {
    if steps == [] then s else Run(Next(s, steps[0]), steps[1..])
  }

  // ---- What holds of every interleaving ----------------------------------------------

  function Bytes(ps: seq<Payload>): nat {
    if ps == [] then 0 else |ps[0]| + Bytes(ps[1..])
  }

  lemma {:induction false} BytesAppend(ps: seq<Payload>, p: Payload)
    ensures Bytes(ps + [p]) == Bytes(ps) + |p|
  {
    if ps != [] {
      assert (ps + [p])[1..] == ps[1..] + [p];
      BytesAppend(ps[1..], p);
    }
  }

  /** What was sent and not yet acknowledged. */
  function Unacked(s: Sub): seq<Payload>
    requires s.acked <= |s.taken|
  {
    s.taken[s.acked..] + s.queue
  }

  ghost predicate Accounted(s: Sub) {
    && s.acked <= |s.taken| && |s.queue| <= s.capacity
    && s.queuedBytes == Bytes(Unacked(s))
    && (s.limit > 0 ==> s.queuedBytes <= s.limit)
  }

  /** The accounting holds under any interleaving at all, overlapping publishes included. */
  lemma StepKeepsAccounts(s: Sub, step: Step)
    requires Accounted(s)
    ensures Accounted(Next(s, step))
  {
    if Enabled(s, step) {
      match step
      case TrySend(payload) =>
        if !s.closed && Fits(s, payload) {
          BytesAppend(Unacked(s), payload);
          assert Unacked(Next(s, step)) == Unacked(s) + [payload];
        }
      case Receive => assert Unacked(Next(s, step)) == Unacked(s);
      case Ack => AckReleasesExactly(s);
      case _ =>
    }
  }

  /** An acknowledgement releases the message's own bytes: the clamp at zero never fires. */
  lemma AckReleasesExactly(s: Sub)
    requires Accounted(s) && s.acked < |s.taken|
    ensures s.queuedBytes >= |s.taken[s.acked]|
    ensures Released(s).queuedBytes == s.queuedBytes - |s.taken[s.acked]|
    ensures Accounted(Released(s))
  {
    assert Unacked(s)[0] == s.taken[s.acked];
    assert Unacked(s)[1..] == Unacked(Released(s));
  }

  // ---- Exactly when nothing is skipped -------------------------------------------------

  /** A message is queued although another publisher has been turned away and has not closed the queue yet. */
  predicate Overtakes(s: Sub, step: Step) {
    step.TrySend? && s.pending > 0 && !s.closed && Fits(s, step.payload)
  }

  predicate NoOvertaking(s: Sub, steps: seq<Step>)
    decreases |steps|
  {
    steps == [] || (!Overtakes(s, steps[0]) && NoOvertaking(Next(s, steps[0]), steps[1..]))
  }

  /** The queued messages are the first ones published. */
  ghost predicate InStep(s: Sub) {
    forall i :: 0 <= i < |s.places| ==> s.places[i] == i
  }

  /** The queued messages are those at their places, and as long as none was skipped an open queue lacks exactly the
      messages of the publishers still to close it. */
  ghost predicate Placed(s: Sub) {
    && |s.places| == |s.taken + s.queue| <= |s.published|
    && (forall i :: 0 <= i < |s.places| ==>
          s.places[i] < |s.published| && (s.taken + s.queue)[i] == s.published[s.places[i]])
    && (InStep(s) && !s.closed ==> |s.published| == |s.places| + s.pending)
  }

  lemma StepKeepsPlaces(s: Sub, step: Step)
    requires Placed(s)
    ensures Placed(Next(s, step))
    ensures InStep(Next(s, step)) <==> InStep(s) && !Overtakes(s, step)
  {
    var t := Next(s, step);
    if step.TrySend? && !s.closed && Fits(s, step.payload) {
      assert t.taken + t.queue == (s.taken + s.queue) + [step.payload];
      assert forall i :: 0 <= i < |s.places| ==> t.places[i] == s.places[i];
      assert t.places[|s.places|] == |s.published|;
    } else {
      assert t.places == s.places;
      if Enabled(s, step) && step.Receive? { assert t.taken + t.queue == s.taken + s.queue; }
    }
  }

  lemma {:induction false} RunKeepsPlaces(s: Sub, steps: seq<Step>)
    requires Placed(s)
    ensures Placed(Run(s, steps))
    ensures InStep(Run(s, steps)) <==> InStep(s) && NoOvertaking(s, steps)
    decreases |steps|
  {
    if steps != [] {
      StepKeepsPlaces(s, steps[0]);
      RunKeepsPlaces(Next(s, steps[0]), steps[1..]);
    }
  }

  lemma {:induction false} RunKeepsAccounts(s: Sub, steps: seq<Step>)
    requires Accounted(s)
    ensures Accounted(Run(s, steps)) && Run(s, steps).limit == s.limit
    decreases |steps|
  {
    if steps != [] {
      StepKeepsAccounts(s, steps[0]);
      RunKeepsAccounts(Next(s, steps[0]), steps[1..]);
    }
  }

  lemma InStepIsPrefix(s: Sub)
    requires Placed(s) && InStep(s)
    ensures s.taken + s.queue <= s.published && s.taken <= s.published
  {
    var all := s.taken + s.queue;
    assert forall i :: 0 <= i < |all| ==> all[i] == s.published[i];
    assert forall i :: 0 <= i < |s.taken| ==> s.taken[i] == all[i];
  }

  /** Under any interleaving at all the bytes are accounted for; and what a client is sent is, message for message, the
      first that were published since it subscribed exactly when no publisher overtakes one that was turned away. */
  lemma SubscriberSeesPrefix(capacity: nat, limit: int, steps: seq<Step>)
    ensures
      var s := Run(NewSub(capacity, limit), steps);
      && s.acked <= |s.taken| && s.queuedBytes == Bytes(Unacked(s)) && (limit > 0 ==> s.queuedBytes <= limit)
      && (InStep(s) <==> NoOvertaking(NewSub(capacity, limit), steps))
      && (InStep(s) ==> s.taken <= s.published)
  {
    RunKeepsAccounts(NewSub(capacity, limit), steps);
    RunKeepsPlaces(NewSub(capacity, limit), steps);
    if InStep(Run(NewSub(capacity, limit), steps)) { InStepIsPrefix(Run(NewSub(capacity, limit), steps)); }
  }

  // ---- Exactly when everything is received ---------------------------------------------

  /** The queue is open, holds fewer messages than it may, and the bytes not yet acknowledged leave room. */
  predicate HasRoom(s: Sub, payload: Payload) {
    !s.closed && |s.queue| < s.capacity && (s.limit <= 0 || s.queuedBytes + |payload| <= s.limit)
  }

  predicate AlwaysRoom(s: Sub, steps: seq<Step>)
    decreases |steps|
  {
    steps == [] ||
    ((steps[0].TrySend? ==> HasRoom(s, steps[0].payload)) && AlwaysRoom(Next(s, steps[0]), steps[1..]))
  }

  /** A message is queued, last, exactly when it finds room. Turned away by an open queue, it leaves it to be closed. */
  lemma SendQueuesExactly(s: Sub, payload: Payload)
    ensures
      var t := Next(s, TrySend(payload));
      && t.published == s.published + [payload] && t.closed == s.closed
      && t.queue == (if HasRoom(s, payload) then s.queue + [payload] else s.queue)
      && t.pending == (if s.closed || HasRoom(s, payload) then s.pending else s.pending + 1)
  {
  }

  lemma StepLoses(s: Sub, step: Step)
    requires |s.taken + s.queue| <= |s.published|
    ensures
      var t := Next(s, step);
      && |t.taken + t.queue| <= |t.published|
      && (|t.taken + t.queue| == |t.published| <==>
            |s.taken + s.queue| == |s.published| && (step.TrySend? ==> HasRoom(s, step.payload)))
      && (s.taken + s.queue == s.published && (step.TrySend? ==> HasRoom(s, step.payload)) ==>
            t.taken + t.queue == t.published)
  {
    var t := Next(s, step);
    if step.TrySend? {
      SendQueuesExactly(s, step.payload);
      assert HasRoom(s, step.payload) ==> t.taken + t.queue == (s.taken + s.queue) + [step.payload];
    } else if Enabled(s, step) && step.Receive? {
      assert t.taken + t.queue == s.taken + s.queue;
    }
  }

  lemma {:induction false} RunLosesExactly(s: Sub, steps: seq<Step>)
    requires |s.taken + s.queue| <= |s.published|
    ensures
      var t := Run(s, steps);
      && |t.taken + t.queue| <= |t.published|
      && (|t.taken + t.queue| == |t.published| <==> |s.taken + s.queue| == |s.published| && AlwaysRoom(s, steps))
      && (s.taken + s.queue == s.published && AlwaysRoom(s, steps) ==> t.taken + t.queue == t.published)
    decreases |steps|
  {
    if steps != [] {
      StepLoses(s, steps[0]);
      RunLosesExactly(Next(s, steps[0]), steps[1..]);
    }
  }

  /** Everything published since the subscription was received or is still to be received, in order, exactly when every
      message found room. */
  lemma NothingIsLostExactly(capacity: nat, limit: int, steps: seq<Step>)
    ensures
      var s := Run(NewSub(capacity, limit), steps);
      s.taken + s.queue == s.published <==> AlwaysRoom(NewSub(capacity, limit), steps)
  {
    RunLosesExactly(NewSub(capacity, limit), steps);
  }

  /** Publish calls do not overlap: nobody sends while another still has to close the queue it found full. */
  predicate OneAtATime(s: Sub, steps: seq<Step>)
    decreases |steps|
  {
    steps == [] || (!(steps[0].TrySend? && s.pending > 0) && OneAtATime(Next(s, steps[0]), steps[1..]))
  }

  /** Calls that do not overlap never overtake. */
  lemma {:induction false} OneAtATimeIsSafe(s: Sub, steps: seq<Step>)
    requires OneAtATime(s, steps)
    ensures NoOvertaking(s, steps)
    decreases |steps|
  {
    if steps != [] { OneAtATimeIsSafe(Next(s, steps[0]), steps[1..]); }
  }

  /** With two publishers at once the guarantee is lost: one finds the queue full, the other slips a shorter message
      in before the first has closed it, and the client receives the second without the first. */
  lemma OverlapMakesHole()
    ensures
      var s := Run(NewSub(2, 3), [TrySend("four"), TrySend("two"), Receive]);
      s.published == ["four", "two"] && s.taken == ["two"] && !(s.taken <= s.published)
  {
    var s0 := NewSub(2, 3);
    var s1, s2 := Next(s0, TrySend("four")), Next(Next(s0, TrySend("four")), TrySend("two"));
    var s3 := Next(s2, Receive);
    assert [TrySend("four"), TrySend("two"), Receive][1..] == [TrySend("two"), Receive];
    assert [TrySend("two"), Receive][1..] == [Receive];
    assert Run(s2, [Receive]) == s3 by { assert [Receive][1..] == []; }
    assert Run(s1, [TrySend("two"), Receive]) == s3;
    assert s3.taken[0] == "two" && s3.published[0] == "four";
  }
}
