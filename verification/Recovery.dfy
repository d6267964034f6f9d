/** Reconnecting clients: the messages recovered from the history list, and the hand-off to the live queue. */
module Recovery {
  import opened Wrappers
  import opened OutboxRelay
  import AuctionState

  type Event = AuctionState.Event

  /** A list entry with the event it carries; both are absent when the entry is not a JSON object. */
  datatype Message = Message(seqNo: Option<int>, body: Option<Event>)

  datatype Recovered = FromHistory(messages: seq<Message>) | FromSnapshot

  predicate IsNewer(m: Message, lastSeq: int) {
    m.seqNo.Some? && m.seqNo.value > lastSeq
  }

  /** What the client has not seen. */
  function Newer(values: seq<Message>, lastSeq: int): seq<Message> {
    if values == [] then []
    else
      var front, m := Newer(values[..|values| - 1], lastSeq), values[|values| - 1];
      if IsNewer(m, lastSeq) then front + [m] else front
  }

  ghost predicate CountsUp(messages: seq<Message>, from: int) {
    forall i :: 0 <= i < |messages| ==> messages[i].seqNo == Some(from + i)
  }

  /** The list serves the client when what it has not seen is there and counts up from the next number. */
  ghost function Recover(values: Option<seq<Message>>, lastSeq: int): Recovered {
    if lastSeq > 0 && values.Some? && Newer(values.value, lastSeq) != []
       && CountsUp(Newer(values.value, lastSeq), lastSeq + 1)
    then FromHistory(Newer(values.value, lastSeq))
    else FromSnapshot
  }

  lemma {:induction false} NewerOfPrefix(values: seq<Message>, i: nat, lastSeq: int)
    requires i <= |values|
    ensures Newer(values[..i], lastSeq) <= Newer(values, lastSeq)
    decreases |values|
  {
    if i == |values| {
      assert values[..i] == values;
    } else {
      assert values[..|values| - 1][..i] == values[..i];
      NewerOfPrefix(values[..|values| - 1], i, lastSeq);
    }
  }

  /** `values` is what LRANGE returned, None if the read failed. */
  method RecoveryMessages(values: Option<seq<Message>>, lastSeq: int) returns (r: Recovered)
    ensures r == Recover(values, lastSeq)
  {
    if lastSeq <= 0 {
      return FromSnapshot;
    }
    if values.Some? {
      var entries, out, next := values.value, [], lastSeq + 1;
      for i := 0 to |entries|
        invariant out == Newer(entries[..i], lastSeq) && CountsUp(out, lastSeq + 1) && next == lastSeq + 1 + |out|
      {
        assert entries[..i + 1][..i] == entries[..i];
        NewerOfPrefix(entries, i + 1, lastSeq);
        if !IsNewer(entries[i], lastSeq) {
          continue;
        }
        if entries[i].seqNo.value != next {
          assert Newer(entries, lastSeq)[|out|] == entries[i];
          return FromSnapshot;
        }
        out := out + [entries[i]];
        next := next + 1;
      }
      assert entries[..|entries|] == entries;
      if out != [] {
        return FromHistory(out);
      }
    }
    return FromSnapshot;
  }

  // ---- Recovery from a relay's list ---------------------------------------------------

  /** The list as the relay wrote it. */
  predicate Holding(values: seq<Message>, numbers: seq<nat>) {
    |values| == |numbers| && forall i :: 0 <= i < |values| ==> values[i].seqNo == Some(numbers[i])
  }

  lemma {:induction false} NewerFinds(values: seq<Message>, lastSeq: int)
    ensures forall m :: m in Newer(values, lastSeq) <==> m in values && IsNewer(m, lastSeq)
  {
    if values != [] {
      assert values == values[..|values| - 1] + [values[|values| - 1]];
      NewerFinds(values[..|values| - 1], lastSeq);
    }
  }

  /** Whatever suffix of the pushed list is left and read: recovered messages are the events after the client's
      last, without gap or repeat, up to the newest one pushed. */
  lemma RecoveredIsExact(s: State, start: nat, values: seq<Message>, lastSeq: int)
    requires Inv(s) && start <= |s.history| && Holding(values, s.history[start..])
    requires Recover(Some(values), lastSeq).FromHistory?
    ensures
      var out := Recover(Some(values), lastSeq).messages;
      && CountsUp(out, lastSeq + 1)
      && lastSeq + |out| == s.history[|s.history| - 1] <= |s.rows|
  {
    var out := Recover(Some(values), lastSeq).messages;
    NewerFinds(values, lastSeq);
    var newest := values[|values| - 1];
    assert out[|out| - 1] in out && out[|out| - 1] in values;
    var i :| 0 <= i < |values| && values[i] == out[|out| - 1];
    assert newest.seqNo == Some(s.history[|s.history| - 1]) && s.history[|s.history| - 1] in s.history;
    assert s.history[start + i] <= s.history[|s.history| - 1];
    assert newest in out;
  }

  // ---- Exactly when the list serves a client ------------------------------------------

  /** No number above the client's last is in the list twice. */
  ghost predicate NoRepeatAbove(list: seq<nat>, lastSeq: int) {
    forall i, j :: 0 <= i < j < |list| && list[i] == list[j] ==> list[i] <= lastSeq
  }

  ghost predicate NoDeadBetween(rows: seq<Row>, after: int, upTo: int) {
    forall i :: 0 <= i < |rows| && after < i + 1 <= upTo ==> rows[i].status != Dead
  }

  /** The newest entry is new to the client, the one behind its last is there, and nothing between is repeated or dead. */
  ghost predicate CanServe(rows: seq<Row>, list: seq<nat>, lastSeq: int) {
    && list != [] && list[|list| - 1] > lastSeq
    && (exists i :: 0 <= i < |list| && list[i] == lastSeq + 1)
    && NoRepeatAbove(list, lastSeq)
    && NoDeadBetween(rows, lastSeq, list[|list| - 1])
  }

  /** What the client has not seen of a sorted list is its tail. */
  lemma {:induction false} NewerOfSorted(values: seq<Message>, numbers: seq<nat>, lastSeq: int) returns (k: nat)
    requires Holding(values, numbers) && NonDecreasing(numbers)
    ensures k <= |values| && Newer(values, lastSeq) == values[k..]
    ensures (forall i :: 0 <= i < k ==> numbers[i] <= lastSeq) && (forall i :: k <= i < |numbers| ==> numbers[i] > lastSeq)
    decreases |values|
  {
    if values == [] {
      k := 0;
    } else {
      var n := |values| - 1;
      k := NewerOfSorted(values[..n], numbers[..n], lastSeq);
      assert values[n].seqNo == Some(numbers[n]) && forall i :: 0 <= i < n ==> numbers[..n][i] == numbers[i];
      assert k < n ==> lastSeq < numbers[..n][k] <= numbers[n];
      if numbers[n] > lastSeq {
        assert values[k..] == values[..n][k..] + [values[n]];
      } else {
        assert values[..n][n..] == [] == values[n + 1..];
        k := |values|;
      }
    }
  }

  lemma NextIsThere(s: State, start: nat, k: nat, lastSeq: int, i: nat)
    requires Inv(s) && start <= k && k + i + 1 < |s.history| && CanServe(s.rows, s.history[start..], lastSeq)
    requires s.history[k + i] == lastSeq + 1 + i && k + i >= start
    ensures s.history[k + i + 1] == lastSeq + 1 + (i + 1)
  {
    var list, m, next := s.history[start..], s.history[k + i], s.history[k + i + 1];
    assert list[k + i - start] == m && list[k + i + 1 - start] == next;
    var newest := list[|list| - 1];
    assert newest == s.history[|s.history| - 1] && newest in s.history;
    if next > m + 1 {
      InvMeansNoHoles(s);
      assert s.rows[m].status != Dead;
      assert m + 1 in s.history;
      var p :| 0 <= p < |s.history| && s.history[p] == m + 1;
    }
  }

  lemma {:induction false} TailCountsUp(s: State, start: nat, k: nat, lastSeq: int, i: nat)
    requires Inv(s) && start <= k && k + i < |s.history| && CanServe(s.rows, s.history[start..], lastSeq)
    requires s.history[k] == lastSeq + 1
    ensures s.history[k + i] == lastSeq + 1 + i
    decreases i
  {
    if i > 0 {
      TailCountsUp(s, start, k, lastSeq, i - 1);
      NextIsThere(s, start, k, lastSeq, i - 1);
    }
  }

  lemma ServableIsServed(s: State, start: nat, values: seq<Message>, lastSeq: int)
    requires Inv(s) && start <= |s.history| && Holding(values, s.history[start..]) && lastSeq > 0
    requires CanServe(s.rows, s.history[start..], lastSeq)
    ensures Recover(Some(values), lastSeq).FromHistory?
  {
    var list := s.history[start..];
    var k := NewerOfSorted(values, list, lastSeq);
    var j :| 0 <= j < |list| && list[j] == lastSeq + 1;
    assert k <= j && list[k] <= list[j];
    assert s.history[start + k] == lastSeq + 1;
    TailIsServed(s, start, values, lastSeq, k);
  }

  lemma TailIsServed(s: State, start: nat, values: seq<Message>, lastSeq: int, k: nat)
    requires Inv(s) && start <= |s.history| && Holding(values, s.history[start..]) && k < |values|
    requires CanServe(s.rows, s.history[start..], lastSeq) && s.history[start + k] == lastSeq + 1
    ensures CountsUp(values[k..], lastSeq + 1)
  {
    forall i | 0 <= i < |values[k..]| ensures values[k..][i].seqNo == Some(lastSeq + 1 + i) {
      TailCountsUp(s, start, start + k, lastSeq, i);
      assert values[k + i].seqNo == Some(s.history[start..][k + i]);
    }
  }

  lemma ServedIsServable(s: State, start: nat, values: seq<Message>, lastSeq: int)
    requires Inv(s) && start <= |s.history| && Holding(values, s.history[start..])
    requires Recover(Some(values), lastSeq).FromHistory?
    ensures CanServe(s.rows, s.history[start..], lastSeq)
  {
    var list := s.history[start..];
    var k := NewerOfSorted(values, list, lastSeq);
    forall i | k <= i < |list| ensures list[i] == lastSeq + 1 + (i - k) {
      assert values[k..][i - k].seqNo == Some(lastSeq + 1 + (i - k));
    }
    assert list[k] == lastSeq + 1;
    forall i | 0 <= i < |s.rows| && lastSeq < i + 1 <= list[|list| - 1] ensures s.rows[i].status != Dead {
      assert list[k + i - lastSeq] == i + 1 && s.history[start + k + i - lastSeq] == i + 1;
      assert i + 1 in s.history;
    }
  }

  /** The commonest case: a client that misses the one newest event is sent that event. */
  lemma OneMissedEventIsServed(s: State, values: seq<Message>)
    requires Inv(s) && |s.history| >= 2 && Holding(values, s.history)
    requires s.history[|s.history| - 2] + 1 == s.history[|s.history| - 1]
    ensures Recover(Some(values), s.history[|s.history| - 2]) == FromHistory([values[|values| - 1]])
  {
    var n := |s.history| - 1;
    assert s.history[n - 1] in s.history;
    var k := NewerOfSorted(values, s.history, s.history[n - 1]);
    assert values[n..] == [values[n]];
  }

  /** A client with a last number is served from whatever suffix of the list is left exactly when the newest entry is
      new to it, the entry behind its last is retained, nothing above its last is repeated, and no event up to the newest
      is dead. */
  lemma ServedExactly(s: State, start: nat, values: seq<Message>, lastSeq: int)
    requires Inv(s) && start <= |s.history| && Holding(values, s.history[start..]) && lastSeq > 0
    ensures Recover(Some(values), lastSeq).FromHistory? <==> CanServe(s.rows, s.history[start..], lastSeq)
  {
    if CanServe(s.rows, s.history[start..], lastSeq) {
      ServableIsServed(s, start, values, lastSeq);
    } else if Recover(Some(values), lastSeq).FromHistory? {
      ServedIsServable(s, start, values, lastSeq);
    }
  }

  /** What a client that subscribed after `count` offers has been sent. */
  ghost predicate OfferedSince(s: State, count: nat, n: nat) {
    exists k :: count <= k < |s.offered| && s.offered[k] == n
  }

  /** The hand-off loses nothing. The client subscribes in state s0, its list is read in s1 and the run goes on to
      s2: every event after its last that was ever offered by then is among the recovered messages or was offered
      to its live queue. */
  lemma HandOff(
      s0: State, before: seq<Step>, after: seq<Step>, start: nat, values: seq<Message>, lastSeq: int, n: nat)
    requires Inv(s0)
    requires
      var s1 := Run(s0, before);
      start <= |s1.history| && Holding(values, s1.history[start..])
    requires Recover(Some(values), lastSeq).FromHistory?
    requires n in Run(Run(s0, before), after).offered && n > lastSeq
    ensures IsRecovered(values, lastSeq, n) || OfferedSince(Run(Run(s0, before), after), |s0.offered|, n)
  {
    var s1, s2 := Run(s0, before), Run(Run(s0, before), after);
    RunKeepsInv(s0, before);
    RunOnlyAppends(s0, before);
    RunOnlyAppends(s1, after);
    OfferedEarlier(s0, s1, s2, start, values, lastSeq, n);
  }

  ghost predicate IsRecovered(values: seq<Message>, lastSeq: int, n: nat) {
    Recover(Some(values), lastSeq).FromHistory?
    && exists m :: m in Recover(Some(values), lastSeq).messages && m.seqNo == Some(n)
  }

  /** What was offered before the subscription was pushed before the read, so it is recovered. */
  lemma OfferedEarlier(
      s0: State, s1: State, s2: State, start: nat, values: seq<Message>, lastSeq: int, n: nat)
    requires Inv(s0) && Inv(s1) && s0.history <= s1.history && s0.offered <= s2.offered
    requires start <= |s1.history| && Holding(values, s1.history[start..])
    requires Recover(Some(values), lastSeq).FromHistory?
    requires n in s2.offered && n > lastSeq
    ensures IsRecovered(values, lastSeq, n) || OfferedSince(s2, |s0.offered|, n)
  {
    if !OfferedSince(s2, |s0.offered|, n) {
      assert n in s0.offered by {
        var k :| 0 <= k < |s2.offered| && s2.offered[k] == n;
      }
      assert n in s1.history;
      RecoveredIsExact(s1, start, values, lastSeq);
      var i :| 0 <= i < |s1.history| && s1.history[i] == n;
      assert n <= s1.history[|s1.history| - 1];
      var out := Recover(Some(values), lastSeq).messages;
      assert out[n - lastSeq - 1].seqNo == Some(n);
    }
  }

  /** The live stream of the same client after k of its offers: it never steps back, and every number between the
      client's last and one it was sent was recovered or sent before, unless its row is dead. */
  lemma StreamHasNoGap(
      s0: State, s1: State, s2: State, start: nat, values: seq<Message>, lastSeq: int, k: nat, n: nat)
    requires Inv(s0) && Inv(s1) && Inv(s2) && s0.history <= s1.history && s0.offered <= s2.offered
    requires start <= |s1.history| && Holding(values, s1.history[start..])
    requires Recover(Some(values), lastSeq).FromHistory?
    requires |s0.offered| <= k < |s2.offered|
    requires lastSeq < n < s2.offered[k] && 1 <= n <= |s2.rows| && s2.rows[n - 1].status != Dead
    ensures forall j :: |s0.offered| <= j < k ==> s2.offered[j] <= s2.offered[k]
    ensures IsRecovered(values, lastSeq, n) || exists j :: |s0.offered| <= j < k && s2.offered[j] == n
  {
    var h := s2.offered[k];
    assert h in s2.offered && h in s2.history;
    InvMeansNoHoles(s2);
    assert n in s2.offered;
    OfferedEarlier(s0, s1, s2, start, values, lastSeq, n);
    if !IsRecovered(values, lastSeq, n) {
      var j :| |s0.offered| <= j < |s2.offered| && s2.offered[j] == n;
      assert j < k;
    }
  }

  /** A repeated push the client has not seen sends it to the snapshot, never to a stream with a repeat. */
  lemma RepeatForcesSnapshot(values: seq<Message>, lastSeq: int, i: nat, j: nat)
    requires i < j < |values| && values[i].seqNo == values[j].seqNo && IsNewer(values[i], lastSeq)
    ensures Recover(Some(values), lastSeq) == FromSnapshot
  {
    NewerOfPrefix(values, i + 1, lastSeq);
    NewerOfPrefix(values, j + 1, lastSeq);
    NewerOfPrefix(values[..j], i + 1, lastSeq);
    assert values[..j + 1][..j] == values[..j] && values[..j][..i + 1] == values[..i + 1];
    assert values[..i + 1][..i] == values[..i];
    var all, p, q := Newer(values, lastSeq), |Newer(values[..i], lastSeq)|, |Newer(values[..j], lastSeq)|;
    assert all[p] == values[i] && all[q] == values[j] && p < q;
  }
}
