/** The hub: one bounded queue per subscriber, closed when its consumer is too slow. */
module Hub {
  import opened Wrappers
  import opened LiveQueue

  /** A Go channel: sending to or closing a closed one panics, so both are forbidden here. */
  class Channel {
    const capacity: nat
    var buffer: seq<Payload>
    var closed: bool

    constructor (capacity: nat)
      ensures this.capacity == capacity && buffer == [] && !closed
    {
      this.capacity := capacity;
      buffer, closed := [], false;
    }

    method Send(payload: Payload)
      requires !closed && |buffer| < capacity
      modifies this
      ensures buffer == old(buffer) + [payload] && closed == old(closed)
    {
      buffer := buffer + [payload];
    }

    method CloseChannel()
      requires !closed
      modifies this
      ensures closed && buffer == old(buffer)
    {
      closed := true;
    }

    method Take() returns (payload: Payload)
      requires buffer != []
      modifies this
      ensures payload == old(buffer)[0] && buffer == old(buffer)[1..] && closed == old(closed)
    {
      payload := buffer[0];
      buffer := buffer[1..];
    }
  }

  datatype SlowReason = PendingBytes | PendingMessages

  datatype SlowConsumerInfo = SlowConsumerInfo(reason: SlowReason, queueDepth: nat, queueBytes: int, payloadBytes: nat)

  class Subscription {
    const ch: Channel
    const limit: int
    var closed: bool
    var queuedBytes: int
    /** The subscription as the queue machine sees it, with what it does not store itself. */
    ghost var view: Sub

    ghost predicate Valid()
      reads this, ch
    {
      && view.capacity == ch.capacity && view.limit == limit && view.queue == ch.buffer
      && view.closed == closed == ch.closed && view.queuedBytes == queuedBytes
      && Accounted(view) && Placed(view)
    }

    constructor (queueMessages: nat, queueBytes: int)
      ensures Valid() && view == NewSub(queueMessages, queueBytes) && fresh(ch)
    {
      ch := new Channel(queueMessages);
      limit, closed, queuedBytes := queueBytes, false, 0;
      view := NewSub(queueMessages, queueBytes);
    }

    method TrySend(payload: Payload) returns (depth: nat, bytes: int, slow: Option<SlowConsumerInfo>)
      requires Valid()
      modifies this, ch
      ensures Valid() && view == Next(old(view), Step.TrySend(payload))
      ensures InStep(view) <==> InStep(old(view)) && !Overtakes(old(view), Step.TrySend(payload))
      ensures depth == |ch.buffer| && bytes == queuedBytes
      ensures slow.Some? <==> !closed && !Fits(old(view), payload)
      ensures slow.Some? ==> slow.value.queueDepth == depth && slow.value.queueBytes == bytes
      ensures slow.Some? ==> slow.value.payloadBytes == |payload|
      ensures slow.Some? ==>
        (slow.value.reason == PendingBytes <==> limit > 0 && old(queuedBytes) + |payload| > limit)
    {
      StepKeepsAccounts(view, Step.TrySend(payload));
      StepKeepsPlaces(view, Step.TrySend(payload));
      view, slow := Next(view, Step.TrySend(payload)), None;
      if closed {
        return |ch.buffer|, queuedBytes, None;
      }
      if limit > 0 && queuedBytes + |payload| > limit {
        slow := Some(SlowConsumerInfo(PendingBytes, |ch.buffer|, queuedBytes, |payload|));
      } else if |ch.buffer| < ch.capacity {
        ch.Send(payload);
        queuedBytes := queuedBytes + |payload|;
      } else {
        slow := Some(SlowConsumerInfo(PendingMessages, |ch.buffer|, queuedBytes, |payload|));
      }
      return |ch.buffer|, queuedBytes, slow;
    }

    /** Close the queue of a slow consumer, once; tells whether the consumer is to be notified. */
    method CloseSlow() returns (notify: bool)
      requires Valid() && view.pending > 0
      modifies this, ch
      ensures Valid() && view == Next(old(view), Step.CloseSlow) && (InStep(view) <==> InStep(old(view)))
      ensures notify <==> !old(closed)
    {
      StepKeepsAccounts(view, Step.CloseSlow);
      StepKeepsPlaces(view, Step.CloseSlow);
      view := Next(view, Step.CloseSlow);
      if closed {
        return false;
      }
      closed := true;
      ch.CloseChannel();
      return true;
    }

    method CloseQueue()
      requires Valid()
      modifies this, ch
      ensures Valid() && view == Next(old(view), Close) && (InStep(view) <==> InStep(old(view)))
    {
      StepKeepsAccounts(view, Close);
      StepKeepsPlaces(view, Close);
      view := Next(view, Close);
      if closed {
        return;
      }
      closed := true;
      ch.CloseChannel();
    }

    /** A receive from the channel: what is left in a closed one can still be taken. */
    method Receive() returns (payload: Option<Payload>)
      requires Valid()
      modifies this, ch
      ensures Valid() && view == Next(old(view), Step.Receive) && (InStep(view) <==> InStep(old(view)))
      ensures payload == if old(ch.buffer) == [] then None else Some(old(ch.buffer)[0])
    {
      StepKeepsAccounts(view, Step.Receive);
      StepKeepsPlaces(view, Step.Receive);
      view := Next(view, Step.Receive);
      if ch.buffer == [] {
        return None;
      }
      var first := ch.Take();
      return Some(first);
    }

    /** The consumer acknowledges its messages in the order it received them. */
    method Ack(payload: Payload)
      requires Valid() && view.acked < |view.taken| && payload == view.taken[view.acked]
      modifies this
      ensures Valid() && view == Next(old(view), Step.Ack) && (InStep(view) <==> InStep(old(view)))
    {
      StepKeepsAccounts(view, Step.Ack);
      StepKeepsPlaces(view, Step.Ack);
      view := Next(view, Step.Ack);
      if |payload| <= 0 {
        return;
      }
      var left := queuedBytes - |payload|;
      queuedBytes := if left < 0 then 0 else left;
    }
  }

  /** What one Publish call does to one subscriber. */
  ghost function Offered(s: Sub, payload: Payload): Sub {
    var sent := Next(s, Step.TrySend(payload));
    if sent.pending > s.pending then Next(sent, Step.CloseSlow) else sent
  }

  datatype PublishStats = PublishStats(
    subscribers: nat, enqueued: nat, slowClosed: nat, payloadBytes: nat,
    maxQueueDepth: nat, maxQueueBytes: int, slowMaxDepth: nat, slowMaxBytes: int)

  function MaxInt(x: int, y: int): int {
    if y > x then y else x
  }

  function MaxNat(x: nat, y: nat): nat {
    if y > x then y else x
  }

  /** What one send found: the queue after it, and whether the message was taken. */
  datatype Seen = Seen(depth: nat, bytes: int, taken: bool)

  function SeenIn(s: Sub, payload: Payload): Seen {
    var sent := Sent(s, payload);
    Seen(|sent.queue|, sent.queuedBytes, sent.pending == s.pending)
  }

  function Counted(stats: PublishStats, seen: Seen): PublishStats {
    var all := stats.(
      maxQueueDepth := MaxNat(stats.maxQueueDepth, seen.depth), maxQueueBytes := MaxInt(stats.maxQueueBytes, seen.bytes));
    if seen.taken then all.(enqueued := stats.enqueued + 1)
    else all.(slowClosed := stats.slowClosed + 1, slowMaxDepth := MaxNat(stats.slowMaxDepth, seen.depth),
              slowMaxBytes := MaxInt(stats.slowMaxBytes, seen.bytes))
  }

  method Count(stats: PublishStats, depth: nat, bytes: int, slow: Option<SlowConsumerInfo>) returns (counted: PublishStats)
    requires slow.Some? ==> slow.value.queueDepth == depth && slow.value.queueBytes == bytes
    ensures counted == Counted(stats, Seen(depth, bytes, slow.None?))
  {
    counted := stats;
    if depth > counted.maxQueueDepth {
      counted := counted.(maxQueueDepth := depth);
    }
    if bytes > counted.maxQueueBytes {
      counted := counted.(maxQueueBytes := bytes);
    }
    if slow.None? {
      return counted.(enqueued := counted.enqueued + 1);
    }
    counted := counted.(slowClosed := counted.slowClosed + 1);
    if slow.value.queueDepth > counted.slowMaxDepth {
      counted := counted.(slowMaxDepth := slow.value.queueDepth);
    }
    if slow.value.queueBytes > counted.slowMaxBytes {
      counted := counted.(slowMaxBytes := slow.value.queueBytes);
    }
  }

  /** The statistics of a publish that found its subscribers in these states. */
  function Tally(before: seq<Sub>, payload: Payload): PublishStats {
    if before == [] then PublishStats(0, 0, 0, |payload|, 0, 0, 0, 0)
    else
      var front := Tally(before[..|before| - 1], payload);
      Counted(front.(subscribers := front.subscribers + 1), SeenIn(before[|before| - 1], payload))
  }

  ghost predicate AllOffered(before: seq<Sub>, after: seq<Sub>, payload: Payload) {
    |after| == |before| && forall i :: 0 <= i < |before| ==> after[i] == Offered(before[i], payload)
  }

  /** A publish leaves every queue that had room open and with the message in it, and closes every other one. */
  lemma OfferedExactly(s: Sub, payload: Payload)
    ensures
      var t := Offered(s, payload);
      && t.published == s.published + [payload] && t.taken == s.taken && t.pending == s.pending
      && t.queue == (if HasRoom(s, payload) then s.queue + [payload] else s.queue)
      && t.closed == !HasRoom(s, payload)
  {
    SendQueuesExactly(s, payload);
  }

  /** An open queue without room: the publish closes it. */
  predicate IsSlow(s: Sub, payload: Payload) {
    !s.closed && !HasRoom(s, payload)
  }

  /** What a queue holds once the publish has tried to send to it, in bytes or in messages. */
  function Load(s: Sub, payload: Payload, inBytes: bool): int {
    if inBytes then s.queuedBytes + (if HasRoom(s, payload) then |payload| else 0)
    else |s.queue| + if HasRoom(s, payload) then 1 else 0
  }

  lemma SeenExactly(s: Sub, payload: Payload)
    ensures SeenIn(s, payload)
      == Seen(Load(s, payload, false), Load(s, payload, true), !IsSlow(s, payload))
  {
    SendQueuesExactly(s, payload);
  }

  /** The greatest load of these queues, or of the slow ones among them; at least zero. */
  ghost predicate IsMost(most: int, before: seq<Sub>, payload: Payload, inBytes: bool, slowOnly: bool) {
    && most >= 0
    && (forall s :: s in before && (slowOnly ==> IsSlow(s, payload)) ==> Load(s, payload, inBytes) <= most)
    && (most > 0 ==> exists s :: s in before && (slowOnly ==> IsSlow(s, payload)) && Load(s, payload, inBytes) == most)
  }

  lemma MostGrows(most: int, before: seq<Sub>, payload: Payload, inBytes: bool, slowOnly: bool)
    requires before != [] && IsMost(most, before[..|before| - 1], payload, inBytes, slowOnly)
    ensures
      var s := before[|before| - 1];
      var load := Load(s, payload, inBytes);
      IsMost(if load > most && (slowOnly ==> IsSlow(s, payload)) then load else most, before, payload, inBytes, slowOnly)
  {
    var front, s := before[..|before| - 1], before[|before| - 1];
    assert before == front + [s];
    if most > 0 {
      var t :| t in front && (slowOnly ==> IsSlow(t, payload)) && Load(t, payload, inBytes) == most;
      assert t in before;
    }
  }

  ghost function SlowOnes(before: seq<Sub>, payload: Payload): set<nat> {
    set i: nat | i < |before| && IsSlow(before[i], payload)
  }

  lemma OneMoreSlow(before: seq<Sub>, payload: Payload)
    requires before != []
    ensures
      var s := before[|before| - 1];
      |SlowOnes(before, payload)| == |SlowOnes(before[..|before| - 1], payload)| + if IsSlow(s, payload) then 1 else 0
  {
    var n := |before| - 1;
    assert SlowOnes(before, payload) == SlowOnes(before[..n], payload) + if IsSlow(before[n], payload) then {n} else {};
  }

  /** The statistics say how many subscribers there were, how many of them were closed for this message, and how much
      the fullest queue held, in messages and in bytes, of all of them and of the closed ones. */
  lemma {:induction false} TallyExactly(before: seq<Sub>, payload: Payload)
    ensures
      var stats := Tally(before, payload);
      && stats.subscribers == |before| == stats.enqueued + stats.slowClosed
      && stats.slowClosed == |SlowOnes(before, payload)| && stats.payloadBytes == |payload|
      && IsMost(stats.maxQueueDepth, before, payload, false, false)
      && IsMost(stats.maxQueueBytes, before, payload, true, false)
      && IsMost(stats.slowMaxDepth, before, payload, false, true)
      && IsMost(stats.slowMaxBytes, before, payload, true, true)
    decreases |before|
  {
    if before != [] {
      var n := |before| - 1;
      var front := Tally(before[..n], payload);
      TallyExactly(before[..n], payload);
      SeenExactly(before[n], payload);
      OneMoreSlow(before, payload);
      MostGrows(front.maxQueueDepth, before, payload, false, false);
      MostGrows(front.maxQueueBytes, before, payload, true, false);
      MostGrows(front.slowMaxDepth, before, payload, false, true);
      MostGrows(front.slowMaxBytes, before, payload, true, true);
    }
  }

  lemma OneMoreOffered(before: seq<Sub>, after: seq<Sub>, i: nat, payload: Payload)
    requires i < |before| && AllOffered(before[..i], after, payload)
    ensures AllOffered(before[..i + 1], after + [Offered(before[i], payload)], payload)
  {
  }

  lemma TallyExtends(before: seq<Sub>, i: nat, payload: Payload, stats: PublishStats)
    requires i < |before| && stats == Tally(before[..i], payload)
    ensures Tally(before[..i + 1], payload)
      == Counted(stats.(subscribers := stats.subscribers + 1), SeenIn(before[i], payload))
  {
    assert before[..i + 1][..i] == before[..i] && before[..i + 1][i] == before[i];
  }

  /** The subscribers of one auction: one entry of the hub's room table, in the order they are iterated. */
  class Room {
    var subs: seq<Subscription>
    const queueMessages: nat
    const queueBytes: int

    ghost function Channels(): set<Channel>
      reads this
    {
      set i | 0 <= i < |subs| :: subs[i].ch
    }

    /** Every subscriber is sound, is listed once and owns its channel. */
    ghost predicate Valid()
      reads this, subs, Channels()
    {
      && (forall i :: 0 <= i < |subs| ==> subs[i].Valid())
      && (forall i, j :: 0 <= i < j < |subs| ==> subs[i] != subs[j] && subs[i].ch != subs[j].ch)
    }

    constructor (queueMessages: int, queueBytes: int)
      ensures Valid() && subs == []
      ensures this.queueMessages == if queueMessages <= 0 then 256 else queueMessages
      ensures this.queueBytes == if queueBytes <= 0 then 1048576 else queueBytes
    {
      subs := [];
      this.queueMessages := if queueMessages <= 0 then 256 else queueMessages;
      this.queueBytes := if queueBytes <= 0 then 1048576 else queueBytes;
    }

    method Subscribe() returns (sub: Subscription)
      requires Valid()
      modifies this
      ensures Valid() && fresh(sub) && fresh(sub.ch)
      ensures sub.view == NewSub(queueMessages, queueBytes) && subs == old(subs) + [sub]
    {
      sub := new Subscription(queueMessages, queueBytes);
      subs := subs + [sub];
    }

    method Unsubscribe(k: nat)
      requires Valid() && k < |subs|
      modifies this, subs[k], subs[k].ch
      ensures Valid() && subs == old(subs)[..k] + old(subs)[k + 1..]
      ensures old(subs[k]).view == Next(old(subs[k].view), Close)
    {
      var sub := subs[k];
      subs := subs[..k] + subs[k + 1..];
      sub.CloseQueue();
    }

    /** One round of Publish: send, and close the queue that turned the message away. */
    method OfferTo(k: nat, payload: Payload) returns (depth: nat, bytes: int, slow: Option<SlowConsumerInfo>)
      requires Valid() && k < |subs|
      modifies subs[k], subs[k].ch
      ensures Valid() && subs[k].view == Offered(old(subs[k].view), payload)
      ensures Seen(depth, bytes, slow.None?) == SeenIn(old(subs[k].view), payload)
      ensures slow.Some? ==> slow.value.queueDepth == depth && slow.value.queueBytes == bytes
    {
      depth, bytes, slow := subs[k].TrySend(payload);
      if slow.Some? {
        var notified := subs[k].CloseSlow();
      }
      forall i | 0 <= i < |subs| && i != k ensures subs[i].Valid() {
        assert subs[i] != subs[k] && subs[i].ch != subs[k].ch;
      }
    }

    /** The subscribers are in these states. */
    ghost predicate AreAt(views: seq<Sub>)
      reads this, subs
    {
      |views| == |subs| && forall i :: 0 <= i < |subs| ==> subs[i].view == views[i]
    }

    /** The first k subscribers have been offered the payload and the others have not. */
    ghost predicate Midway(k: nat, before: seq<Sub>, after: seq<Sub>, payload: Payload)
      reads this, subs
    {
      && k <= |subs| == |before| && AllOffered(before[..k], after, payload)
      && forall i :: 0 <= i < |subs| ==> subs[i].view == if i < k then after[i] else before[i]
    }

    method Round(k: nat, payload: Payload, stats: PublishStats, ghost before: seq<Sub>, ghost after: seq<Sub>)
      returns (counted: PublishStats, ghost more: seq<Sub>)
      requires Valid() && k < |subs| && Midway(k, before, after, payload) && stats == Tally(before[..k], payload)
      modifies subs[k], subs[k].ch
      ensures Valid() && Midway(k + 1, before, more, payload) && counted == Tally(before[..k + 1], payload)
    {
      OneMoreOffered(before, after, k, payload);
      TallyExtends(before, k, payload, stats);
      var depth, bytes, slow := OfferTo(k, payload);
      more := after + [Offered(before[k], payload)];
      counted := Count(stats.(subscribers := stats.subscribers + 1), depth, bytes, slow);
    }

    /** Every subscriber gets the payload or is closed, whatever the others do, and is counted once. */
    method Publish(payload: Payload, ghost before: seq<Sub>) returns (stats: PublishStats, ghost after: seq<Sub>)
      requires Valid() && AreAt(before)
      modifies subs, Channels()
      ensures Valid() && subs == old(subs) && AreAt(after)
      ensures AllOffered(before, after, payload) && stats == Tally(before, payload)
    {
      stats, after := PublishStats(0, 0, 0, |payload|, 0, 0, 0, 0), [];
      for i := 0 to |subs|
        invariant Valid() && Midway(i, before, after, payload) && stats == Tally(before[..i], payload)
      {
        stats, after := Round(i, payload, stats, before, after);
      }
      assert before[..|subs|] == before;
    }
  }
}
