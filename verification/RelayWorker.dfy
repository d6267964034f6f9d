/** One relay worker as an object: it claims the next due row, publishes it, and marks what came of it. */
module RelayWorker {
  import opened Wrappers
  import opened OutboxRelay

  /** What the Redis pipeline does to one push: success, or an error that may have taken effect all the same. */
  datatype Pipeline = Fine | Broke(applied: bool)

  /** What one attempt meets: the pipeline's answer, and whether the statement that marks the row succeeds. */
  datatype Attempt = Attempt(pipeline: Pipeline, marked: bool)

  datatype Outcome = Idle | Delivered(row: nat) | Failing(row: nat) | Unmarked(row: nat)

  const DRAIN_BATCH: nat := 256

  class Tables {
    var s: State

    constructor (now: int)
      ensures s == Initial(now)
    {
      s := Initial(now);
    }
  }

  /** The rows after row i was delivered without a fault by a worker that then let go of it. */
  function AfterDelivery(s: State, i: nat): State
    requires i < |s.rows|
  {
    SetStatus(s, i, Published, s.rows[i].dueAt).(history := s.history + [i + 1], offered := s.offered + [i + 1])
  }

  lemma ClaimableIsUnique(rows: seq<Row>, i: nat, j: nat, now: int)
    requires Claimable(rows, i, now) && Claimable(rows, j, now)
    ensures i == j
  {
  }

  lemma After(s: State, first: Step, t: State, rest: seq<Step>) returns (all: seq<Step>)
    requires Next(s, first) == t
    ensures Run(s, all) == Run(t, rest)
  {
    all := [first] + rest;
    assert all[1..] == rest;
  }

  class Relay {
    const worker: WorkerId
    const tables: Tables

    constructor (worker: WorkerId, tables: Tables)
      ensures this.worker == worker && this.tables == tables
    {
      this.worker := worker;
      this.tables := tables;
    }

    /** The first row not yet settled is the only candidate; it is taken if it is due. */
    method ClaimOne() returns (claimed: Option<nat>)
      requires worker !in tables.s.workers
      modifies tables
      ensures claimed.Some? ==>
        && Claimable(old(tables.s.rows), claimed.value, tables.s.now)
        && (forall i: nat :: Claimable(old(tables.s.rows), i, tables.s.now) ==> i == claimed.value)
        && tables.s == Next(old(tables.s), Claim(worker, claimed.value))
      ensures claimed.None? ==>
        tables.s == old(tables.s) && forall i: nat :: !Claimable(tables.s.rows, i, tables.s.now)
    {
      var rows := tables.s.rows;
      for i := 0 to |rows|
        invariant tables.s == old(tables.s) && forall j :: 0 <= j < i ==> Settled(rows[j].status)
      {
        if !Settled(rows[i].status) {
          if !Due(rows[i], tables.s.now) {
            return None;
          }
          var until := tables.s.now + LOCK_SECONDS;
          tables.s := SetStatus(tables.s, i, Publishing(until), rows[i].dueAt)
            .(workers := tables.s.workers[worker := Lease(i, until, Claimed)]);
          forall j: nat | Claimable(rows, j, tables.s.now) ensures j == i {
            ClaimableIsUnique(rows, i, j, tables.s.now);
          }
          return Some(i);
        }
      }
      return None;
    }

    /** Refuse an invalid envelope; otherwise push to the list and then hand the event to the hub. */
    method PublishRow(pipeline: Pipeline) returns (ok: bool)
      requires Holds(tables.s, worker, Claimed)
      modifies tables
      ensures
        var i, valid := old(tables.s).workers[worker].row, old(tables.s).rows[old(tables.s).workers[worker].row].valid;
        var attempt := Publish(worker, pipeline.Fine? || pipeline.applied, pipeline.Fine?);
        && ok == (valid && pipeline.Fine?)
        && tables.s == if ok then Next(Next(old(tables.s), attempt), Offer(worker)) else Next(old(tables.s), attempt)
    {
      var i := tables.s.workers[worker].row;
      if !tables.s.rows[i].valid {
        tables.s := Move(tables.s, worker, Refused);
        return false;
      }
      if pipeline.Fine? || pipeline.applied {
        tables.s := tables.s.(history := tables.s.history + [i + 1]);
      }
      if pipeline.Broke? {
        tables.s := Move(tables.s, worker, Broken);
        return false;
      }
      tables.s := Move(tables.s, worker, Pushed);
      tables.s := Move(tables.s.(offered := tables.s.offered + [i + 1]), worker, Phase.Offered);
      return true;
    }

    method MarkPublished()
      requires Holds(tables.s, worker, Phase.Offered)
      modifies tables
      ensures tables.s == Next(old(tables.s), Step.MarkPublished(worker))
    {
      var i := tables.s.workers[worker].row;
      tables.s := SetStatus(tables.s, i, Published, tables.s.rows[i].dueAt);
      tables.s := Leave(tables.s, worker);
    }

    /** An invalid envelope is dead at once; any other fault is retried for ever. */
    method MarkFailure(retryAt: int)
      requires Holds(tables.s, worker, Broken) || Holds(tables.s, worker, Refused)
      modifies tables
      ensures tables.s == Next(old(tables.s), Step.MarkFailure(worker, retryAt))
    {
      var lease := tables.s.workers[worker];
      var retriable := lease.phase == Broken;
      tables.s := SetStatus(tables.s, lease.row, if retriable then Failed else Dead, retryAt);
      tables.s := Leave(tables.s, worker);
    }

    /** Claim, publish, mark: the whole is a run of the delivery machine. If the mark fails the worker is done with the
        row and leaves it locked. */
    method ProcessOne(attempt: Attempt, retryAt: int) returns (outcome: Outcome, ghost trace: seq<Step>)
      requires worker !in tables.s.workers
      modifies tables
      ensures tables.s == Run(old(tables.s), trace)
      ensures tables.s.workers == old(tables.s).workers
      ensures outcome.Idle? ==>
        tables.s == old(tables.s) && forall i: nat :: !Claimable(tables.s.rows, i, tables.s.now)
      ensures !outcome.Idle? ==>
        && Claimable(old(tables.s).rows, outcome.row, old(tables.s).now)
        && (outcome.Unmarked? <==> !attempt.marked)
        && (outcome.Delivered? <==> old(tables.s).rows[outcome.row].valid && attempt == Attempt(Fine, true))
      ensures outcome.Delivered? ==> tables.s == AfterDelivery(old(tables.s), outcome.row)
    {
      ghost var s0 := tables.s;
      var claimed := ClaimOne();
      if claimed.None? {
        return Idle, [];
      }
      ghost var s1 := tables.s;
      var ok;
      ok, trace := Deliver(attempt, retryAt);
      trace := After(s0, Claim(worker, claimed.value), s1, trace);
      if !attempt.marked {
        return Unmarked(claimed.value), trace;
      }
      return if ok then Delivered(claimed.value) else Failing(claimed.value), trace;
    }

    /** Publish the claimed row and mark what came of it. */
    method Deliver(attempt: Attempt, retryAt: int) returns (ok: bool, ghost trace: seq<Step>)
      requires Holds(tables.s, worker, Claimed)
      modifies tables
      ensures tables.s == Run(old(tables.s), trace)
      ensures tables.s.workers == old(tables.s).workers - {worker}
      ensures
        var i := old(tables.s).workers[worker].row;
        && ok == (old(tables.s).rows[i].valid && attempt.pipeline.Fine?)
        && (ok && attempt.marked ==> tables.s == AfterDelivery(old(tables.s), i).(workers := tables.s.workers))
    {
      ghost var s1, i := tables.s, tables.s.workers[worker].row;
      ok := PublishRow(attempt.pipeline);
      ghost var pushed := Publish(worker, attempt.pipeline.Fine? || attempt.pipeline.applied, attempt.pipeline.Fine?);
      ghost var s2, s3 := Next(s1, pushed), tables.s;
      trace := Goes(s1, [], s1, pushed, s2);
      if ok {
        trace := Goes(s1, trace, s2, Offer(worker), s3);
      }
      if !attempt.marked {
        GiveUp();
        trace := Goes(s1, trace, s3, Crash(worker), tables.s);
        return;
      }
      if !ok {
        MarkFailure(retryAt);
        trace := Goes(s1, trace, s3, Step.MarkFailure(worker, retryAt), tables.s);
        return;
      }
      MarkPublished();
      trace := Goes(s1, trace, s3, Step.MarkPublished(worker), tables.s);
      assert tables.s.rows == AfterDelivery(s1, i).rows;
    }

    /** The mark did not reach the table: the row keeps its lock until it expires. */
    method GiveUp()
      requires worker in tables.s.workers
      modifies tables
      ensures tables.s == Next(old(tables.s), Crash(worker))
    {
      tables.s := Leave(tables.s, worker);
    }

    /** Up to `limit` rows, stopping when nothing is due and at the first fault. Whatever happens, the batch is a
        run of the delivery machine; without a fault it delivers the next rows in order, each exactly once; and
        with every row valid and due and every statement successful it delivers as many as it may. */
    method ProcessBatch(limit: int, attempts: seq<Attempt>, retryAt: int)
      returns (processed: nat, fault: bool, ghost trace: seq<Step>)
      requires Inv(tables.s) && worker !in tables.s.workers
      modifies tables
      ensures Inv(tables.s) && tables.s == Run(old(tables.s), trace)
      ensures processed <= BatchSize(limit)
      ensures !fault ==> InOrderFrom(old(tables.s), tables.s, processed)
      ensures !fault && processed < BatchSize(limit) ==> forall i: nat :: !Claimable(tables.s.rows, i, tables.s.now)
      ensures fault ==>
        (exists a :: a in attempts && a != Attempt(Fine, true)) || exists row :: row in old(tables.s).rows && !row.valid
      ensures (forall a :: a in attempts ==> a == Attempt(Fine, true)) && AllReady(old(tables.s)) ==>
        !fault && processed == Least(BatchSize(limit), |old(tables.s).rows| - Frontier(old(tables.s).rows))
    {
      ghost var s0 := tables.s;
      FrontierIs(s0.rows);
      processed, fault, trace := 0, false, [];
      while processed < BatchSize(limit)
        invariant processed <= BatchSize(limit) && worker !in tables.s.workers
        invariant Inv(tables.s) && tables.s == Run(s0, trace)
        invariant InOrderFrom(s0, tables.s, processed)
      {
        var attempt := if processed < |attempts| then attempts[processed] else Attempt(Fine, true);
        assert processed < |attempts| ==> attempt in attempts;
        ghost var before := tables.s;
        var outcome;
        ghost var more;
        outcome, more := ProcessOne(attempt, retryAt);
        RunSplits(s0, trace, more);
        RunKeepsInv(before, more);
        trace := trace + more;
        if !outcome.Idle? {
          HeadIsNext(s0, before, processed, outcome.row);
        }
        if outcome.Failing? || outcome.Unmarked? {
          assert before.rows[outcome.row] in s0.rows;
          return processed, true, trace;
        }
        if outcome.Idle? {
          IdleMeansDone(s0, before, processed);
          return;
        }
        processed := processed + 1;
      }
    }
  }

  function BatchSize(limit: int): nat {
    if limit <= 0 then DRAIN_BATCH else limit
  }

  function Least(x: nat, y: nat): nat {
    if x < y then x else y
  }

  /** How many rows are settled before the first that is not. */
  function Frontier(rows: seq<Row>): nat {
    if rows == [] || !Settled(rows[0].status) then 0 else 1 + Frontier(rows[1..])
  }

  lemma {:induction false} FrontierIs(rows: seq<Row>)
    ensures Frontier(rows) <= |rows|
    ensures forall i :: 0 <= i < Frontier(rows) ==> Settled(rows[i].status)
    ensures Frontier(rows) < |rows| ==> !Settled(rows[Frontier(rows)].status)
  {
    if rows != [] && Settled(rows[0].status) {
      FrontierIs(rows[1..]);
      assert forall i :: 1 <= i < |rows| ==> rows[i] == rows[1..][i - 1];
    }
  }

  ghost predicate AllReady(s: State) {
    forall i :: Frontier(s.rows) <= i < |s.rows| ==> s.rows[i].valid && Due(s.rows[i], s.now)
  }

  /** From s to t the next n rows were pushed, offered and published, in order, and nothing else changed. */
  ghost predicate InOrderFrom(s: State, t: State, n: nat) {
    var f := Frontier(s.rows);
    && f + n <= |s.rows| && |t.rows| == |s.rows| && t.now == s.now && t.workers == s.workers
    && t.history == s.history + seq(n, k => f + k + 1)
    && t.offered == s.offered + seq(n, k => f + k + 1)
    && (forall i :: f <= i < f + n ==> t.rows[i].status == Published)
    && (forall i :: 0 <= i < |s.rows| && !(f <= i < f + n) ==> t.rows[i] == s.rows[i])
  }

  /** A row claimed after n deliveries is the next one, and delivering it extends the order. */
  lemma HeadIsNext(s: State, t: State, n: nat, i: nat)
    requires Inv(s) && InOrderFrom(s, t, n) && Claimable(t.rows, i, t.now)
    ensures i == Frontier(s.rows) + n
    ensures AllReady(s) ==> t.rows[i].valid
    ensures InOrderFrom(s, AfterDelivery(t, i), n + 1)
  {
    var f := Frontier(s.rows);
    FrontierIs(s.rows);
    if i > f + n { assert Settled(t.rows[f + n].status); assert Started(s.rows[f + n].status); }
    assert seq(n + 1, k => f + k + 1) == seq(n, k => f + k + 1) + [i + 1];
  }

  lemma IdleMeansDone(s: State, t: State, n: nat)
    requires Inv(s) && InOrderFrom(s, t, n) && forall i: nat :: !Claimable(t.rows, i, t.now)
    ensures AllReady(s) ==> Frontier(s.rows) + n == |s.rows|
  {
    var f := Frontier(s.rows);
    FrontierIs(s.rows);
    if AllReady(s) && f + n < |s.rows| { assert Claimable(t.rows, f + n, t.now); }
  }
}
