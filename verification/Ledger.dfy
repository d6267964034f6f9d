/** The bid ledgers: the Kafka consumer with its redelivery buffer and the in-memory stand-in, both refining one
    at-least-once log. One partition, one consumer that commits what it has processed in order. */
module Ledger {
  import opened Wrappers

  datatype Message = Message(offset: int, value: string)

  // ---- The abstract log -----------------------------------------------------------------

  datatype Log = Log(records: seq<Message>, next: nat)

  ghost predicate WellFormed(log: Log) {
    log.next <= |log.records| && Consecutive(log.records, 0)
  }

  ghost predicate Consecutive(messages: seq<Message>, from: int) {
    forall i :: 0 <= i < |messages| ==> messages[i].offset == from + i
  }

  function BatchLimit(limit: int): nat {
    if limit <= 0 then 1 else limit
  }

  function Min(x: int, y: int): int {
    if x < y then x else y
  }

  /** What a fetch may return: the next records not yet committed, at least one, at most `limit`. */
  ghost predicate IsFetch(log: Log, batch: seq<Message>, limit: int)
    requires WellFormed(log)
  {
    1 <= |batch| <= BatchLimit(limit) && batch <= log.records[log.next..]
  }

  // ---- Filtering ------------------------------------------------------------------------

  function Without(messages: seq<Message>, committed: set<int>): seq<Message> {
    if messages == [] then []
    else
      var front, m := Without(messages[..|messages| - 1], committed), messages[|messages| - 1];
      if m.offset in committed then front else front + [m]
  }

  function Offsets(messages: seq<Message>): set<int> {
    set m | m in messages :: m.offset
  }

  lemma {:induction false} WithoutAll(messages: seq<Message>, committed: set<int>)
    requires forall m :: m in messages ==> m.offset in committed
    ensures Without(messages, committed) == []
  {
    if messages != [] { WithoutAll(messages[..|messages| - 1], committed); }
  }

  lemma {:induction false} WithoutNone(messages: seq<Message>, committed: set<int>)
    requires forall m :: m in messages ==> m.offset !in committed
    ensures Without(messages, committed) == messages
  {
    if messages != [] {
      WithoutNone(messages[..|messages| - 1], committed);
      assert messages == messages[..|messages| - 1] + [messages[|messages| - 1]];
    }
  }

  lemma {:induction false} WithoutConcat(a: seq<Message>, b: seq<Message>, committed: set<int>)
    ensures Without(a + b, committed) == Without(a, committed) + Without(b, committed)
    decreases |b|
  {
    if b == [] {
      assert a + b == a;
    } else {
      assert (a + b)[..|a + b| - 1] == a + b[..|b| - 1];
      WithoutConcat(a, b[..|b| - 1], committed);
    }
  }

  /** Committing a prefix of consecutive offsets leaves exactly the rest. */
  lemma WithoutPrefix(messages: seq<Message>, k: nat, from: int)
    requires k <= |messages| && Consecutive(messages, from)
    ensures Without(messages, Offsets(messages[..k])) == messages[k..]
  {
    var committed := Offsets(messages[..k]);
    forall o | o in committed ensures from <= o < from + k {
      var m :| m in messages[..k] && m.offset == o;
    }
    assert messages == messages[..k] + messages[k..];
    WithoutAll(messages[..k], committed);
    WithoutNone(messages[k..], committed);
    WithoutConcat(messages[..k], messages[k..], committed);
  }

  /** One past the highest offset told. */
  function Highest(messages: seq<Message>): int {
    if messages == [] then 0
    else
      var front, told := Highest(messages[..|messages| - 1]), messages[|messages| - 1].offset + 1;
      if front < told then told else front
  }

  lemma {:induction false} HighestOfRun(messages: seq<Message>, from: nat)
    requires Consecutive(messages, from) && messages != []
    ensures Highest(messages) == from + |messages|
  {
    if |messages| > 1 { HighestOfRun(messages[..|messages| - 1], from); }
  }

  // ---- Kafka ----------------------------------------------------------------------------

  datatype Answer = Fine | Broke(applied: bool)

  /** The partition and this consumer group's reader on it. */
  class Reader {
    var records: seq<Message>
    var position: nat
    var committed: nat

    ghost predicate Valid()
      reads this
    {
      WellFormed(Log(records, committed)) && committed <= position <= |records|
    }

    constructor ()
      ensures Valid() && records == [] && position == committed == 0
    {
      records, position, committed := [], 0, 0;
    }

    method FetchMessage(inTime: bool) returns (message: Option<Message>)
      requires Valid()
      modifies this`position
      ensures Valid()
      ensures if inTime && old(position) < |records|
        then message == Some(records[old(position)]) && position == old(position) + 1
        else message == None && position == old(position)
    {
      if !inTime || position >= |records| {
        return None;
      }
      message := Some(records[position]);
      position := position + 1;
    }

    /** The broker is told the highest offset, plus one. A commit may take effect and be reported as failed. */
    method CommitMessages(messages: seq<Message>, answer: Answer) returns (ok: bool)
      requires Valid() && messages != [] && forall m :: m in messages ==> 0 <= m.offset < position
      modifies this`committed
      ensures Valid() && ok == answer.Fine?
      ensures committed == if ok || answer.applied then Highest(messages) else old(committed)
    {
      if answer.Fine? || answer.applied {
        var told := 0;
        for i := 0 to |messages|
          invariant told == Highest(messages[..i]) && 0 <= told <= position
        {
          assert messages[..i + 1][..i] == messages[..i] && messages[i] in messages;
          if messages[i].offset >= told {
            told := messages[i].offset + 1;
          }
        }
        assert messages[..|messages|] == messages;
        committed := told;
      }
      return answer.Fine?;
    }
  }

  class KafkaLedger {
    const reader: Reader
    var uncommitted: array<Message>
    var count: nat
    /** How many records this consumer has been told are committed. */
    ghost var acked: nat

    /** Everything pulled from the partition is acknowledged or still buffered, in order, and the broker knows at least
        what was acknowledged. */
    ghost predicate Valid()
      reads this, reader, uncommitted
    {
      && reader.Valid() && count <= uncommitted.Length
      && acked <= reader.committed && uncommitted[..count] == reader.records[acked..reader.position]
    }

    ghost function View(): Log
      reads this, reader
    {
      Log(reader.records, acked)
    }

    constructor (reader: Reader)
      requires reader.Valid()
      modifies reader
      ensures Valid() && this.reader == reader && fresh(uncommitted)
      ensures View() == old(Log(reader.records, reader.committed))
    {
      this.reader := reader;
      uncommitted := new Message[0];
      count, acked := 0, reader.committed;
      new;
      reader.position := reader.committed;  // a new consumer starts at the committed offset
    }

    /** `inTime` says how many fetches of this call return before their deadline. */
    method FetchBatch(limit: int, inTime: nat) returns (batch: seq<Message>)
      requires Valid()
      modifies this, reader`position
      ensures Valid() && View() == old(View())
      ensures batch == [] || IsFetch(View(), batch, limit)
      ensures batch == [] <==> old(count) == 0 && (inTime == 0 || old(reader.position) == |reader.records|)
      ensures old(count) > 0 ==> |batch| == Min(if limit > 0 then limit else 1, old(count))
      ensures old(count) == 0 ==>
        |batch| == Min(Min(if limit > 0 then limit else 1, inTime), |reader.records| - old(reader.position))
      ensures fresh(uncommitted) || uncommitted == old(uncommitted)
    {
      var most := BatchLimit(limit);
      if count > 0 {
        batch := uncommitted[..count];
        if |batch| > most {
          batch := batch[..most];
        }
        assert IsFetch(View(), batch, limit);
        return;
      }
      batch := Pull(most, inTime);
      if batch == [] {
        return;
      }
      assert IsFetch(View(), batch, limit);
      uncommitted := new Message[|batch|](i requires 0 <= i < |batch| => batch[i]);
      count := |batch|;
    }

    /** Wait for a first message, then take what else arrives in time. */
    method Pull(most: nat, inTime: nat) returns (batch: seq<Message>)
      requires reader.Valid() && most >= 1
      modifies reader`position
      ensures reader.Valid() && old(reader.position) <= reader.position
      ensures |batch| <= most && batch == reader.records[old(reader.position)..reader.position]
      ensures |batch| == Min(Min(most, inTime), |reader.records| - old(reader.position))
    {
      ghost var from := reader.position;
      var message := reader.FetchMessage(inTime > 0);
      if message.None? {
        return [];
      }
      batch := [message.value];
      while |batch| < most
        invariant reader.Valid() && from + |batch| == reader.position
        invariant 1 <= |batch| <= Min(most, inTime) && batch == reader.records[from..reader.position]
      {
        message := reader.FetchMessage(inTime > |batch|);
        if message.None? {
          break;
        }
        batch := batch + [message.value];
      }
    }

    /** Drop the committed messages from the buffer, in place. */
    method Forget(committed: set<int>)
      requires count <= uncommitted.Length
      modifies this`count, uncommitted
      ensures count <= uncommitted.Length
      ensures uncommitted[..count] == Without(old(uncommitted[..count]), committed)
    {
      ghost var was := uncommitted[..count];
      var remaining := 0;
      for i := 0 to count
        invariant remaining <= i <= count == |was|
        invariant uncommitted[..remaining] == Without(was[..i], committed)
        invariant forall j :: i <= j < count ==> uncommitted[j] == was[j]
      {
        assert was[..i + 1][..i] == was[..i] && was[..i + 1][i] == was[i];
        if uncommitted[i].offset !in committed {
          ghost var kept := uncommitted[..remaining];
          uncommitted[remaining] := uncommitted[i];
          assert uncommitted[..remaining + 1] == kept + [was[i]];
          remaining := remaining + 1;
        }
      }
      assert was[..count] == was;
      count := remaining;
    }

    /** Committing the first messages of a consecutive buffer leaves the others. */
    method ForgetFirst(messages: seq<Message>, ghost from: int)
      requires count <= uncommitted.Length && messages <= uncommitted[..count]
      requires Consecutive(uncommitted[..count], from)
      modifies this`count, uncommitted
      ensures count <= uncommitted.Length
      ensures uncommitted[..count] == old(uncommitted[..count])[|messages|..]
    {
      ghost var buffered := uncommitted[..count];
      assert messages == buffered[..|messages|];
      WithoutPrefix(buffered, |messages|, from);
      var committed := set m | m in messages :: m.offset;
      Forget(committed);
    }

    /** The consumer commits the first messages of what it last fetched. A commit reported as failed leaves them
        buffered, whether it took effect or not. */
    method CommitBatch(messages: seq<Message>, answer: Answer) returns (ok: bool)
      requires Valid() && messages <= View().records[View().next..reader.position]
      modifies this`count, this`acked, uncommitted, reader`committed
      ensures Valid()
      ensures View() == if ok then old(View()).(next := old(View()).next + |messages|) else old(View())
      ensures messages != [] ==> ok == answer.Fine?
    {
      if messages == [] {
        return true;
      }
      ghost var from := acked;
      PrefixOfRun(View(), reader.position, messages);
      ok := reader.CommitMessages(messages, answer);
      if !ok {
        return;
      }
      ForgetFirst(messages, from);
      acked := acked + |messages|;
    }
  }

  lemma PrefixOfRun(log: Log, position: nat, messages: seq<Message>)
    requires WellFormed(log) && log.next <= position <= |log.records|
    requires messages <= log.records[log.next..position]
    ensures forall m :: m in messages ==> 0 <= m.offset < position
    ensures messages != [] ==> Highest(messages) == log.next + |messages|
    ensures Consecutive(log.records[log.next..position], log.next)
    ensures log.records[log.next..position][|messages|..] == log.records[log.next + |messages|..position]
  {
    forall i | 0 <= i < |messages| ensures messages[i].offset == log.next + i {
      assert messages[i] == log.records[log.next..position][i];
    }
    if messages != [] { HighestOfRun(messages, log.next); }
  }

  // ---- Memory ---------------------------------------------------------------------------

  class MemoryLedger {
    var messages: seq<Message>
    var next: nat

    ghost predicate Valid()
      reads this
    {
      WellFormed(View())
    }

    ghost function View(): Log
      reads this
    {
      Log(messages, next)
    }

    constructor ()
      ensures Valid() && View() == Log([], 0)
    {
      messages, next := [], 0;
    }

    method Append(value: string)
      requires Valid()
      modifies this
      ensures Valid() && View() == Log(old(messages) + [Message(|old(messages)|, value)], old(next))
    {
      messages := messages + [Message(|messages|, value)];
    }

    /** One look at the log; the source looks again until something is there or its context ends. */
    method FetchBatch(limit: int) returns (batch: seq<Message>)
      requires Valid()
      ensures |batch| == Min(if limit > 0 then limit else 1, |messages| - next)
      ensures batch == [] <==> next == |messages|
      ensures batch == [] || IsFetch(View(), batch, limit)
    {
      if next >= |messages| {
        return [];
      }
      var end := next + BatchLimit(limit);
      if end > |messages| {
        end := |messages|;
      }
      return messages[next..end];
    }

    /** It counts the messages and does not look at them. */
    method CommitBatch(committed: seq<Message>)
      requires Valid()
      modifies this
      ensures Valid()
      ensures committed <= old(messages[next..]) ==> View() == old(View()).(next := old(next) + |committed|)
    {
      var advance := |committed|;
      if next + advance > |messages| {
        advance := |messages| - next;
      }
      next := next + advance;
    }
  }

  // ---- What a consumer of the log sees ----------------------------------------------------

  datatype Consumer = Consumer(log: Log, processed: seq<Message>)

  /** The log grows; or the consumer fetches a batch, processes some of it and is told that some of what it processed
      is committed, while the rest comes again; or it restarts at the offset the broker knows, which may be further
      than it was told, though not beyond what it processed. */
  datatype Round = Grow(value: string) | Serve(batch: seq<Message>, done: nat, commit: nat) | Restart(at: nat)

  ghost predicate Enabled(c: Consumer, round: Round)
    requires WellFormed(c.log)
  {
    match round
    case Grow(_) => true
    case Serve(batch, done, commit) => IsFetch(c.log, batch, |batch|) && commit <= done <= |batch|
    case Restart(at) => c.log.next <= at <= Seen(c.processed) && at <= |c.log.records|
  }

  ghost function Next(c: Consumer, round: Round): Consumer
    requires WellFormed(c.log)
  {
    if !Enabled(c, round) then c
    else
      match round
      case Grow(value) => c.(log := c.log.(records := c.log.records + [Message(|c.log.records|, value)]))
      case Serve(batch, done, commit) =>
        Consumer(c.log.(next := c.log.next + commit), c.processed + batch[..done])
      case Restart(at) => c.(log := c.log.(next := at))
  }

  /** One past the highest offset processed. */
  function Seen(processed: seq<Message>): int {
    if processed == [] then 0
    else
      var front, last := Seen(processed[..|processed| - 1]), processed[|processed| - 1].offset + 1;
      if front < last then last else front
  }

  /** Every record is processed at or behind the first place not yet reached: none is skipped. */
  ghost predicate NeverSkips(processed: seq<Message>) {
    forall i :: 0 <= i < |processed| ==> 0 <= processed[i].offset <= Seen(processed[..i])
  }

  ghost predicate FromLog(messages: seq<Message>, records: seq<Message>) {
    forall m :: m in messages ==> 0 <= m.offset < |records| && records[m.offset] == m
  }

  ghost predicate ConsumerInv(c: Consumer) {
    && WellFormed(c.log) && NeverSkips(c.processed) && FromLog(c.processed, c.log.records)
    && c.log.next <= Seen(c.processed) <= |c.log.records|
  }

  lemma NeverSkipsAppend(processed: seq<Message>, m: Message)
    requires NeverSkips(processed) && 0 <= m.offset <= Seen(processed)
    ensures NeverSkips(processed + [m])
    ensures Seen(processed + [m]) == if Seen(processed) < m.offset + 1 then m.offset + 1 else Seen(processed)
  {
    var more := processed + [m];
    assert more[..|more| - 1] == processed;
    forall i | 0 <= i < |more| ensures 0 <= more[i].offset <= Seen(more[..i]) {
      assert i < |processed| ==> more[..i] == processed[..i];
    }
  }

  /** Processing consecutive records from no further than the first not yet seen. */
  lemma {:induction false} ServeKeepsOrder(processed: seq<Message>, run: seq<Message>, from: nat)
    requires NeverSkips(processed) && from <= Seen(processed)
    requires Consecutive(run, from)
    ensures NeverSkips(processed + run)
    ensures Seen(processed + run) == if Seen(processed) < from + |run| then from + |run| else Seen(processed)
    decreases |run|
  {
    if run == [] {
      assert processed + run == processed;
    } else {
      var front, m := run[..|run| - 1], run[|run| - 1];
      assert processed + run == (processed + front) + [m] by { assert run == front + [m]; }
      assert m.offset == from + |front|;
      ServeKeepsOrder(processed, front, from);
      NeverSkipsAppend(processed + front, m);
    }
  }

  lemma ServeKeepsInv(c: Consumer, run: seq<Message>, commit: nat)
    requires ConsumerInv(c) && run <= c.log.records[c.log.next..] && commit <= |run|
    ensures ConsumerInv(Consumer(c.log.(next := c.log.next + commit), c.processed + run))
  {
    RunFromLog(c.log, run);
    ServeKeepsOrder(c.processed, run, c.log.next);
    assert |c.log.records[c.log.next..]| >= |run|;
    forall m | m in c.processed + run ensures 0 <= m.offset < |c.log.records| && c.log.records[m.offset] == m {
      assert m in c.processed || m in run;
    }
  }

  lemma RunFromLog(log: Log, run: seq<Message>)
    requires WellFormed(log) && run <= log.records[log.next..]
    ensures Consecutive(run, log.next)
    ensures FromLog(run, log.records)
  {
    forall i | 0 <= i < |run| ensures run[i] == log.records[log.next + i] && run[i].offset == log.next + i {
      assert run[i] == log.records[log.next..][i];
    }
    forall m | m in run ensures 0 <= m.offset < |log.records| && log.records[m.offset] == m {
      var i :| 0 <= i < |run| && run[i] == m;
    }
  }

  lemma RoundKeepsInv(c: Consumer, round: Round)
    requires ConsumerInv(c)
    ensures ConsumerInv(Next(c, round))
  {
    if Enabled(c, round) && round.Serve? {
      ServeKeepsInv(c, round.batch[..round.done], round.commit);
    }
  }

  ghost function RunRounds(c: Consumer, rounds: seq<Round>): Consumer
    requires ConsumerInv(c)
    decreases |rounds|
  {
    if rounds == [] then c
    else
      RoundKeepsInv(c, rounds[0]);
      RunRounds(Next(c, rounds[0]), rounds[1..])
  }

  lemma {:induction false} RoundsKeepInv(c: Consumer, rounds: seq<Round>)
    requires ConsumerInv(c)
    ensures ConsumerInv(RunRounds(c, rounds))
    decreases |rounds|
  {
    if rounds != [] {
      RoundKeepsInv(c, rounds[0]);
      RoundsKeepInv(Next(c, rounds[0]), rounds[1..]);
    }
  }

  lemma {:induction false} SeenIsProcessed(processed: seq<Message>, offset: int)
    requires NeverSkips(processed) && 0 <= offset < Seen(processed)
    ensures exists m :: m in processed && m.offset == offset
    decreases |processed|
  {
    var front, last := processed[..|processed| - 1], processed[|processed| - 1];
    if last.offset == offset {
      assert last in processed;
    } else {
      assert forall i :: 0 <= i < |front| ==> front[..i] == processed[..i];
      SeenIsProcessed(front, offset);
      var m :| m in front && m.offset == offset;
      assert m in processed;
    }
  }

  /** At least once and in order: whatever is fetched, processed in part, committed and redelivered, no record is
      ever passed over, and every committed record has been processed. */
  lemma AtLeastOnce(rounds: seq<Round>, offset: nat)
    ensures
      var c := RunRounds(Consumer(Log([], 0), []), rounds);
      && NeverSkips(c.processed)
      && (offset < c.log.next ==> offset < |c.log.records| && c.log.records[offset] in c.processed)
  {
    var c := RunRounds(Consumer(Log([], 0), []), rounds);
    RoundsKeepInv(Consumer(Log([], 0), []), rounds);
    if offset < c.log.next {
      SeenIsProcessed(c.processed, offset);
    }
  }
}
