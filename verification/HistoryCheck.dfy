/** The reconciliation's check of the Redis history list, and what it says about a drained relay. */
module HistoryCheck {
  import opened Wrappers
  import opened OutboxRelay

  /** A list entry as the checker sees it. */
  datatype Entry = Unreadable | Unnumbered | Numbered(seqNo: int)

  datatype Drift =
    | InvalidEntry(index: int)
    | Gap(previous: int, current: int, index: int)
    | LastSeqDrift(expected: int, found: int)

  /** The number of the last numbered entry, 0 if there is none. */
  function LastNumber(values: seq<Entry>): int {
    if values == [] then 0
    else
      match values[|values| - 1]
      case Numbered(n) => n
      case _ => LastNumber(values[..|values| - 1])
  }

  predicate IsGap(values: seq<Entry>, i: int) {
    0 < i < |values| && values[i].Numbered? && values[i].seqNo != LastNumber(values[..i]) + 1
  }

  method ValidateHistory(values: seq<Entry>, auctionSeq: int)
    returns (drifts: seq<Drift>, first: Option<int>, last: Option<int>)
    ensures forall i :: InvalidEntry(i) in drifts <==> 0 <= i < |values| && !values[i].Numbered?
    ensures forall p, c, i :: Gap(p, c, i) in drifts <==>
      IsGap(values, i) && p == LastNumber(values[..i]) && c == values[i].seqNo
    ensures forall e, f :: LastSeqDrift(e, f) in drifts <==>
      e == auctionSeq && f == LastNumber(values) && e != f
    ensures first == if values != [] && values[0].Numbered? then Some(values[0].seqNo) else None
    ensures last == if first.None? then None else Some(LastNumber(values))
  {
    var previous := 0;
    drifts, first, last := [], None, None;
    for i := 0 to |values|
      invariant previous == LastNumber(values[..i])
      invariant forall k :: InvalidEntry(k) in drifts <==> 0 <= k < i && !values[k].Numbered?
      invariant forall p, c, k :: Gap(p, c, k) in drifts <==>
        k < i && IsGap(values, k) && p == LastNumber(values[..k]) && c == values[k].seqNo
      invariant forall d :: d in drifts ==> !d.LastSeqDrift?
      invariant first == if i > 0 && values[0].Numbered? then Some(values[0].seqNo) else None
    {
      assert values[..i + 1][..i] == values[..i];
      if !values[i].Numbered? {
        drifts := drifts + [InvalidEntry(i)];
        continue;
      }
      var n := values[i].seqNo;
      if i == 0 {
        first := Some(n);
      } else if n != previous + 1 {
        drifts := drifts + [Gap(previous, n, i)];
      }
      previous := n;
    }
    assert values[..|values|] == values;
    if first.Some? {
      last := Some(previous);
    }
    if previous != auctionSeq {
      drifts := drifts + [LastSeqDrift(auctionSeq, previous)];
    }
  }

  /** No drift of any kind. */
  ghost predicate Clean(values: seq<Entry>, auctionSeq: int) {
    && (forall i :: 0 <= i < |values| ==> values[i].Numbered?)
    && (forall i :: !IsGap(values, i))
    && LastNumber(values) == auctionSeq
  }

  method IsClean(values: seq<Entry>, auctionSeq: int) returns (clean: bool)
    ensures clean <==> Clean(values, auctionSeq)
  {
    var drifts, first, last := ValidateHistory(values, auctionSeq);
    if drifts != [] {
      match drifts[0] {
        case InvalidEntry(i) => assert InvalidEntry(i) in drifts;
        case Gap(p, c, i) => assert Gap(p, c, i) in drifts;
        case LastSeqDrift(e, f) => assert LastSeqDrift(e, f) in drifts;
      }
      return false;
    }
    assert forall i :: InvalidEntry(i) !in drifts;
    forall i ensures !IsGap(values, i) {
      if 0 < i < |values| && values[i].Numbered? {
        assert Gap(LastNumber(values[..i]), values[i].seqNo, i) !in drifts;
      }
    }
    assert LastSeqDrift(auctionSeq, LastNumber(values)) !in drifts;
    return true;
  }

  // ---- A drained relay ----------------------------------------------------------------

  function Entries(numbers: seq<nat>): (r: seq<Entry>)
    ensures |r| == |numbers|
  {
    seq(|numbers|, i requires 0 <= i < |numbers| => Numbered(numbers[i]))
  }

  /** LTRIM -n -1: the last n entries. */
  function Retained(history: seq<nat>, n: nat): seq<nat> {
    if |history| <= n then history else history[|history| - n..]
  }

  ghost predicate Consecutive(numbers: seq<nat>) {
    forall i :: 0 < i < |numbers| ==> numbers[i] == numbers[i - 1] + 1
  }

  lemma CleanIsConsecutive(numbers: seq<nat>, auctionSeq: int)
    requires numbers != []
    ensures Clean(Entries(numbers), auctionSeq) <==> Consecutive(numbers) && numbers[|numbers| - 1] == auctionSeq
  {
    var values := Entries(numbers);
    forall i | 0 < i < |numbers| ensures IsGap(values, i) <==> numbers[i] != numbers[i - 1] + 1 {
      assert values[..i][|values[..i]| - 1] == Numbered(numbers[i - 1]);
    }
  }

  ghost predicate Drained(s: State) {
    forall i :: 0 <= i < |s.rows| ==> Settled(s.rows[i].status)
  }

  ghost predicate NoRepeats(numbers: seq<nat>) {
    forall i :: 0 < i < |numbers| ==> numbers[i - 1] != numbers[i]
  }

  ghost predicate NoDeadFrom(rows: seq<Row>, first: nat) {
    forall i :: 0 <= i < |rows| && first <= i + 1 ==> rows[i].status != Dead
  }

  /** On a drained relay the retained list shows no drift exactly when no push was repeated within it and no event
      from its first number on is dead. */
  lemma DrainedHistory(now: int, steps: seq<Step>, limit: nat)
    requires
      var s := Run(Initial(now), steps);
      Drained(s) && Retained(s.history, limit) != []
    ensures
      var s := Run(Initial(now), steps);
      var list := Retained(s.history, limit);
      Clean(Entries(list), |s.rows|) <==> NoRepeats(list) && NoDeadFrom(s.rows, list[0])
  {
    RunKeepsInv(Initial(now), steps);
    DrainedList(Run(Initial(now), steps), limit);
  }

  lemma DrainedList(s: State, limit: nat)
    requires Inv(s) && Drained(s) && Retained(s.history, limit) != []
    ensures
      var list := Retained(s.history, limit);
      Clean(Entries(list), |s.rows|) <==> NoRepeats(list) && NoDeadFrom(s.rows, list[0])
  {
    var list := Retained(s.history, limit);
    CleanIsConsecutive(list, |s.rows|);
    if NoRepeats(list) && NoDeadFrom(s.rows, list[0]) {
      NoGapWithoutRepeats(s, list, |s.history| - |list|);
    }
    if Consecutive(list) && list[|list| - 1] == |s.rows| {
      ConsecutiveListIsAlive(s, list, |s.history| - |list|);
    }
  }

  lemma ConsecutiveListIsAlive(s: State, list: seq<nat>, start: nat)
    requires Inv(s) && start <= |s.history| && list == s.history[start..] && list != []
    requires Consecutive(list) && list[|list| - 1] == |s.rows|
    ensures NoDeadFrom(s.rows, list[0])
  {
    ConsecutiveCovers(list, |list| - 1);
    forall i | 0 <= i < |s.rows| && list[0] <= i + 1 ensures s.rows[i].status != Dead {
      assert list[i + 1 - list[0]] == i + 1;
      assert i + 1 in s.history;
    }
  }

  lemma {:induction false} ConsecutiveCovers(list: seq<nat>, k: nat)
    requires Consecutive(list) && k < |list|
    ensures forall i :: 0 <= i <= k ==> list[i] == list[0] + i
  {
    if k > 0 {
      ConsecutiveCovers(list, k - 1);
      assert list[k] == list[k - 1] + 1;
    }
  }

  /** Every number past the first retained one was published, so it is in the list, right after its predecessor. */
  lemma NoGapWithoutRepeats(s: State, list: seq<nat>, start: nat)
    requires Inv(s) && Drained(s) && start <= |s.history| && list == s.history[start..] && list != []
    requires NoRepeats(list) && NoDeadFrom(s.rows, list[0])
    ensures Consecutive(list) && list[|list| - 1] == |s.rows|
  {
    forall i | 0 < i < |list| ensures list[i] == list[i - 1] + 1 {
      var n := list[i - 1] + 1;
      assert s.history[start + i] == list[i] && s.history[start + i - 1] == list[i - 1];
      assert list[i - 1] <= list[i] && list[i] in s.history;
      assert s.history[start] <= s.history[start + i - 1];
      var j := PlaceOf(s, n);
    }
    var last := list[|list| - 1];
    assert last == s.history[|s.history| - 1] && last in s.history;
    assert list[0] == s.history[start] && list[0] in s.history;
    var j := PlaceOf(s, |s.rows|);
  }

  /** On a drained relay an event that is not dead was pushed. */
  lemma PlaceOf(s: State, n: nat) returns (j: nat)
    requires Inv(s) && Drained(s) && 1 <= n <= |s.rows| && s.rows[n - 1].status != Dead
    ensures j < |s.history| && s.history[j] == n
  {
    assert (n - 1) + 1 in s.offered;
    assert n in s.history;
    j :| 0 <= j < |s.history| && s.history[j] == n;
  }
}
