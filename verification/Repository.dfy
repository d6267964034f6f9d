/** The repository and the scheduler as objects: each method opens a transaction, changes its rows one statement
    at a time and commits, or returns an error and leaves the database as it was. Every method is proved against
    the transaction function of the same name. */
module Repository {
  import opened Wrappers
  import opened BidRules
  import opened AuctionState
  import opened Settlement
  import opened Transactions
  import opened Invariants
  import opened ProxyBidding

  /** The commit protocol: all of the specified rows or none of them. */
  ghost predicate Commits(before: World, after: World, error: Option<ApiError>, spec: Outcome) {
    match spec
    case Ok(w) => after == w && error == None
    case Err(e) => after == before && error == Some(e)
  }

  ghost predicate CommitsWith<T>(
      before: World, after: World, r: Result<T, ApiError>, spec: Result<(World, T), ApiError>)
  {
    match spec
    case Ok((w, value)) => after == w && r == Ok(value)
    case Err(e) => after == before && r == Err(e)
  }

  function WithRecords(w: World, records: map<(UserId, BidKey), Record>): World {
    w.(records := records)
  }

  // ---- The settlement neither reads nor writes the idempotency records ----------------

  /** The same outcome, whatever the records. */
  ghost predicate Alike(
      r: Result<(World, BidResult), ApiError>, s: Result<(World, BidResult), ApiError>,
      records: map<(UserId, BidKey), Record>)
  {
    && (r.Ok? <==> s.Ok?)
    && (r.Ok? ==> s.value.0 == WithRecords(r.value.0, records) && s.value.1 == r.value.1)
    && (r.Err? ==> s == r)
  }

  lemma AcceptedIgnoresRecords(
      w: World, user: UserId, amount: int, now: int, ordered: int, records: map<(UserId, BidKey), Record>)
    ensures
      var r := ApplyAccepted(w, user, amount, now, ordered);
      Alike(r, ApplyAccepted(WithRecords(w, records), user, amount, now, ordered), records)
  {
  }

  lemma EnteredIgnoresRecords(
      r: Result<(World, BidResult), ApiError>, s: Result<(World, BidResult), ApiError>, award: Award,
      records: map<(UserId, BidKey), Record>)
    requires Alike(r, s, records)
    ensures Alike(Entered(r, award), Entered(s, award), records)
  {
  }

  lemma AwardIgnoresRecords(w: World, award: Award, clock: Clock, records: map<(UserId, BidKey), Record>)
    ensures Alike(ApplyAward(w, award, clock), ApplyAward(WithRecords(w, records), award, clock), records)
  {
    var now, v := AutoTime(clock, w.auction.seqNo + 1), WithRecords(w, records);
    assert v.auction == w.auction;
    var r := ApplyAccepted(w, award.user, award.amount, now, clock.ordered);
    var s := ApplyAccepted(v, award.user, award.amount, now, clock.ordered);
    assert ApplyAward(w, award, clock) == Entered(r, award) && ApplyAward(v, award, clock) == Entered(s, award);
    assert Alike(r, s, records) by { AcceptedIgnoresRecords(w, award.user, award.amount, now, clock.ordered, records); }
    EnteredIgnoresRecords(r, s, award, records);
  }

  lemma {:induction false} AwardsIgnoreRecords(
      w: World, awards: seq<Award>, last: BidResult, clock: Clock, records: map<(UserId, BidKey), Record>)
    ensures
      Alike(ApplyAwards(w, awards, last, clock), ApplyAwards(WithRecords(w, records), awards, last, clock), records)
    decreases |awards|
  {
    if awards != [] {
      AwardIgnoresRecords(w, awards[0], clock, records);
      if ApplyAward(w, awards[0], clock).Ok? {
        var (next, result) := ApplyAward(w, awards[0], clock).value;
        AwardsIgnoreRecords(next, awards[1..], result, clock, records);
      }
    }
  }

  lemma TakeIgnoresRecords(
      w: World, user: UserId, key: BidKey, amount: int, clock: Clock, records: map<(UserId, BidKey), Record>)
    ensures
      var r := Transactions.TakeBid(w, user, key, amount, clock);
      Alike(r, Transactions.TakeBid(WithRecords(w, records), user, key, amount, clock), records)
  {
    AcceptedIgnoresRecords(w, user, amount, clock.first, clock.ordered, records);
    if Placed(w, user, key, amount, clock).Ok? {
      var (taken, result) := Placed(w, user, key, amount, clock).value;
      AwardsIgnoreRecords(taken, Awards(taken.auction, taken.intents), result, clock, records);
    }
  }

  /** The PROCESSING record written first is overwritten before the commit and read by nobody in between. */
  lemma ProcessingIsInvisible(
      w: World, user: UserId, key: BidKey, amount: int, token: string, clock: Clock, record: Record)
    ensures
      var marked := WithRecords(w, w.records[(user, key) := record]);
      Transactions.DecideBid(w, user, key, amount, token, clock, false)
      == Transactions.DecideBid(marked, user, key, amount, token, clock, false)
  {
    var marked := WithRecords(w, w.records[(user, key) := record]);
    if w.auction.endAt.Some? {
      match EvaluateBid(w.auction, user, amount, clock.first, false) {
        case Refuse(code) =>
          if RefuseBid(w, user, key, amount, code).Ok? {
            var (next, response) := RefuseBid(w, user, key, amount, code).value;
            CompletedAlike(next, user, key, amount, response, record);
          }
        case AskConfirm =>
          CompletedAlike(w, user, key, amount,
            ConfirmRequired(token, w.auction.seqNo, amount, clock.first + CONFIRM_SECONDS), record);
        case Take =>
          TakeIgnoresRecords(w, user, key, amount, clock, marked.records);
          var r := Transactions.TakeBid(w, user, key, amount, clock);
          if r.Ok? && r.value.0.auction.endAt.Some? {
            TakeKeepsRecords(w, user, key, amount, clock);
            CompletedAlike(r.value.0, user, key, amount, Report(r.value.0.auction, r.value.1), record);
          }
      }
    }
  }

  lemma CompletedAlike(w: World, user: UserId, key: BidKey, amount: int, response: Response, record: Record)
    ensures Complete(WithRecords(w, w.records[(user, key) := record]), user, key, amount, response)
         == Complete(w, user, key, amount, response)
  {
    var completed := Record(amount, Completed, Some(response));
    assert w.records[(user, key) := record][(user, key) := completed] == w.records[(user, key) := completed];
  }

  lemma TakeKeepsRecords(w: World, user: UserId, key: BidKey, amount: int, clock: Clock)
    ensures
      var r := Transactions.TakeBid(w, user, key, amount, clock);
      r.Ok? ==> r.value.0.records == w.records
  {
    TakeIgnoresRecords(w, user, key, amount, clock, w.records);
    assert WithRecords(w, w.records) == w;
  }

  /** Only when no automatic bid is placed does the settlement report the result it was given. */
  lemma SettleReports(w: World, first: BidResult, last: BidResult, clock: Clock)
    ensures
      var r, s := Settle(w, first, clock), Settle(w, last, clock);
      && (r.Ok? <==> s.Ok?)
      && (r.Ok? ==> s.value == (r.value.0, if Awards(w.auction, w.intents) == [] then last else r.value.1))
      && (r.Err? ==> s == r)
  {
  }

  class Database {
    var rows: World

    constructor (rules: Rules)
      requires CreateAuction(rules).Ok?
      ensures rows == CreateAuction(rules).value && CoreInv(rows)
    {
      rows := CreateAuction(rules).value;
      CreateEstablishesCore(rules);
    }

    // ---- Lifecycle ------------------------------------------------------------------

    method UpdateRules(rules: Rules) returns (error: Option<ApiError>)
      requires CoreInv(rows)
      modifies this
      ensures CoreInv(rows) && Commits(old(rows), rows, error, Transactions.UpdateRules(old(rows), rules))
    {
      StepKeepsCore(rows, DoUpdateRules(rules));
      if rows.auction.status != Draft {
        return Some(RuleFrozen);
      }
      if rules.increment <= 0 || ValidateRule(rules) != [] {
        return Some(InvalidArgument);
      }
      var tx := new Tx(rows);
      tx.rows := tx.rows.(auction := tx.rows.auction.(rules := rules, price := rules.start));
      tx.rows := AppendEvent(tx.rows, RulesUpdated, None, None);
      rows := tx.rows;
      return None;
    }

    method Transition(from: Status, to: Status, kind: EventKind, refusal: ApiError) returns (error: Option<ApiError>)
      modifies this
      ensures rows.auction.status == old(rows.auction.status) || old(rows.auction.status) == from
      ensures Commits(old(rows), rows, error,
        if old(rows.auction.status) != from then Err(refusal) else Ok(Note(Touch(old(rows), to), kind)))
    {
      if rows.auction.status != from {
        return Some(refusal);
      }
      var tx := new Tx(rows);
      tx.rows := tx.rows.(auction := tx.rows.auction.(status := to));
      tx.rows := AppendEvent(tx.rows, kind, None, None);
      rows := tx.rows;
      return None;
    }

    method Schedule() returns (error: Option<ApiError>)
      requires CoreInv(rows)
      modifies this
      ensures CoreInv(rows) && Commits(old(rows), rows, error, Transactions.Schedule(old(rows)))
    {
      StepKeepsCore(rows, DoSchedule);
      error := Transition(Draft, Scheduled, AuctionScheduled, RuleFrozen);
    }

    method Unschedule() returns (error: Option<ApiError>)
      requires CoreInv(rows)
      modifies this
      ensures CoreInv(rows) && Commits(old(rows), rows, error, Transactions.Unschedule(old(rows)))
    {
      StepKeepsCore(rows, DoUnschedule);
      error := Transition(Scheduled, Draft, AuctionUnscheduled, StatusConflict);
    }

    method Open(tx: Tx, now: int)
      modifies tx
      ensures tx.rows == Opened(old(tx.rows), now)
    {
      var end := now + tx.rows.auction.rules.duration;
      tx.rows := tx.rows.(auction := tx.rows.auction.(status := Active, endAt := Some(end)));
      tx.rows := tx.rows.(endJob := UpsertJob(tx.rows.endJob, end));
      tx.rows := AppendEvent(tx.rows, AuctionStarted, None, None);
    }

    method Start(clock: Clock, roomFree: bool) returns (error: Option<ApiError>)
      requires CoreInv(rows)
      modifies this
      ensures CoreInv(rows) && Commits(old(rows), rows, error, Transactions.Start(old(rows), clock, roomFree))
    {
      if rows.auction.status != Scheduled {
        return Some(StatusConflict);
      }
      if !roomFree {
        return Some(ConstraintViolation);
      }
      OpenKeepsCore(rows, clock.first);
      var tx := new Tx(rows);
      Open(tx, clock.first);
      var settled := tx.ApplyAutoMaxBid(clock);
      if settled.Err? {
        return Some(settled.error);
      }
      SettleKeepsCore(Opened(rows, clock.first), ResultAccepted, clock);
      rows := tx.rows;
      return None;
    }

    method Cancel() returns (error: Option<ApiError>)
      requires CoreInv(rows)
      modifies this
      ensures CoreInv(rows) && Commits(old(rows), rows, error, Transactions.Cancel(old(rows)))
    {
      if IsTerminal(rows.auction.status) {
        return Some(InvalidArgument);
      }
      TouchKeepsCore(rows, Cancelled, EventKind.AuctionCancelled);
      var tx := new Tx(rows);
      tx.rows := tx.rows.(auction := tx.rows.auction.(status := Cancelled));
      tx.rows := AppendEvent(tx.rows, EventKind.AuctionCancelled, None, None);
      rows := tx.rows;
      return None;
    }

    method Shorten(remaining: int, now: int) returns (error: Option<ApiError>)
      requires CoreInv(rows)
      modifies this
      ensures CoreInv(rows) && Commits(old(rows), rows, error, Transactions.Shorten(old(rows), remaining, now))
    {
      if remaining < 5 || remaining > 120 {
        return Some(InvalidArgument);
      }
      if rows.auction.endAt.None? {
        return Some(ConstraintViolation);
      }
      if rows.auction.status != Active || now + remaining >= rows.auction.endAt.value {
        return Some(StatusConflict);
      }
      ShortenKeepsCore(rows, remaining, now);
      var tx := new Tx(rows);
      tx.rows := tx.rows.(auction := tx.rows.auction.(endAt := Some(now + remaining)));
      tx.rows := tx.rows.(endJob := UpsertJob(tx.rows.endJob, now + remaining));
      tx.rows := AppendEvent(tx.rows, AuctionEndShortened, None, None);
      rows := tx.rows;
      return None;
    }

    method StartNarrating(roomFree: bool, voiceFree: bool) returns (error: Option<ApiError>)
      requires CoreInv(rows)
      modifies this
      ensures CoreInv(rows) && Commits(old(rows), rows, error, NarrateStart(old(rows), roomFree, voiceFree))
    {
      if IsTerminal(rows.auction.status) {
        return Some(StatusConflict);
      }
      if !roomFree {
        return Some(StatusConflict);
      }
      if !voiceFree {
        return Some(ConstraintViolation);
      }
      NoteKeepsCore(rows, NarrateStarted, None, None);
      rows := AppendEvent(rows, NarrateStarted, None, None);
      return None;
    }

    method StopNarrating() returns (error: Option<ApiError>)
      requires CoreInv(rows)
      modifies this
      ensures CoreInv(rows) && Commits(old(rows), rows, error, NarrateStop(old(rows)))
    {
      NoteKeepsCore(rows, NarrateStopped, None, None);
      rows := AppendEvent(rows, NarrateStopped, None, None);
      return None;
    }

    method PutIntent(user: UserId, max: int, id: IntentId, now: int) returns (error: Option<ApiError>)
      requires CoreInv(rows)
      modifies this
      ensures CoreInv(rows) && Commits(old(rows), rows, error, Transactions.PutIntent(old(rows), user, max, id, now))
    {
      StepKeepsCore(rows, DoPutIntent(user, max, id, now));
      if user == "" || max <= 0 {
        return Some(InvalidArgument);
      }
      if rows.auction.status != Scheduled && rows.auction.status != Active {
        return Some(StatusConflict);
      }
      var verdict := Classify(rows.auction, max);
      if verdict != Accepted && verdict != AcceptedSold {
        return Some(Unclassified(verdict));
      }
      var upserted := UpsertIntent(rows.intents, user, max, id, now);
      if upserted.None? {
        return Some(ConstraintViolation);
      }
      rows := rows.(intents := upserted.value);
      return None;
    }

    method CancelIntent(user: UserId) returns (error: Option<ApiError>)
      requires CoreInv(rows)
      modifies this
      ensures CoreInv(rows) && Commits(old(rows), rows, error, Transactions.CancelIntent(old(rows), user))
    {
      StepKeepsCore(rows, DoCancelIntent(user));
      FindIntentIs(rows.intents, user);
      var found := FindIntent(rows.intents, user);
      if found.None? {
        return Some(NotFound);
      }
      var intent := rows.intents[found.value];
      if intent.status == IntentActive {
        rows := rows.(intents := rows.intents[found.value := intent.(status := IntentCancelled)]);
      }
      return None;
    }

    // ---- Bids -----------------------------------------------------------------------

    /** Evaluate the bid inside an open transaction, write its row, settle, and report. */
    method DecideBid(tx: Tx, user: UserId, key: BidKey, amount: int, token: string, clock: Clock, skipFatFinger: bool)
      returns (r: Result<Response, ApiError>)
      requires CoreInv(tx.rows)
      modifies tx
      ensures CommitsWith(old(tx.rows), if r.Ok? then tx.rows else old(tx.rows), r,
        Transactions.DecideBid(old(tx.rows), user, key, amount, token, clock, skipFatFinger))
    {
      var a := tx.rows.auction;
      if a.endAt.None? {
        return Err(ConstraintViolation);
      }
      match EvaluateBid(a, user, amount, clock.first, skipFatFinger) {
        case Refuse(code) =>
          var at: Option<nat> := None;
          if IsBroadcast(code) {
            tx.rows := AppendEvent(tx.rows, BidRejected, Some(user), Some(amount));
            at := Some(tx.rows.auction.seqNo);
          }
          var inserted := InsertBid(tx.rows, RejectedRow(user, key, amount, at));
          if inserted.Err? {
            return Err(inserted.error);
          }
          tx.rows := inserted.value;
          r := Ok(Report(tx.rows.auction, ResultRejected(code)));
        case AskConfirm =>
          r := Ok(ConfirmRequired(token, a.seqNo, amount, clock.first + CONFIRM_SECONDS));
        case Take =>
          r := TakeBid(tx, user, key, amount, clock);
          if r.Err? {
            return;
          }
      }
      tx.rows := Complete(tx.rows, user, key, amount, r.value);
    }

    method TakeBid(tx: Tx, user: UserId, key: BidKey, amount: int, clock: Clock) returns (r: Result<Response, ApiError>)
      requires CoreInv(tx.rows) && tx.rows.auction.status == Active
      modifies tx
      ensures r.Ok? <==> Transactions.TakeBid(old(tx.rows), user, key, amount, clock).Ok?
      ensures r.Err? ==> r.error == Transactions.TakeBid(old(tx.rows), user, key, amount, clock).error
      ensures r.Ok? ==>
        var (next, result) := Transactions.TakeBid(old(tx.rows), user, key, amount, clock).value;
        tx.rows == next && next.auction.endAt.Some? && r.value == Report(next.auction, result)
    {
      var accepted := ApplyAccepted(tx.rows, user, amount, clock.first, clock.ordered);
      if accepted.Err? {
        return Err(accepted.error);
      }
      ghost var before := tx.rows;
      tx.rows := accepted.value.0;
      var result := accepted.value.1;
      var inserted := InsertBid(tx.rows, TakenRow(user, key, amount, tx.rows.auction.seqNo));
      if inserted.Err? {
        return Err(inserted.error);
      }
      tx.rows := inserted.value;
      PlacedKeepsCore(before, user, key, amount, clock);
      if result != ResultSold {
        ghost var taken := tx.rows;
        SettleReports(taken, ResultAccepted, result, clock);
        var auto := tx.ApplyAutoMaxBid(clock);
        if auto.Err? {
          return Err(auto.error);
        }
        SettleKeepsCore(taken, result, clock);
        if auto.value.Some? {
          result := auto.value.value;
        }
      }
      return Ok(Report(tx.rows.auction, result));
    }

    method PlaceBid(user: UserId, key: BidKey, amount: int, token: string, clock: Clock)
      returns (r: Result<Response, ApiError>)
      requires CoreInv(rows)
      modifies this
      ensures CoreInv(rows)
      ensures CommitsWith(old(rows), rows, r, Transactions.PlaceBid(old(rows), user, key, amount, token, clock))
    {
      if key == NO_KEY || amount <= 0 {
        return Err(InvalidArgument);
      }
      if (user, key) in rows.records {
        var record := rows.records[(user, key)];
        if record.hash != amount {
          return Err(KeyReused);
        }
        if record.status != Completed || record.response.None? {
          return Err(RetryLater);
        }
        return Ok(record.response.value);
      }
      var tx := new Tx(rows);
      var processing := Record(amount, Processing, None);
      tx.rows := WithRecords(tx.rows, tx.rows.records[(user, key) := processing]);
      ProcessingIsInvisible(rows, user, key, amount, token, clock, processing);
      r := DecideBid(tx, user, key, amount, token, clock, false);
      if r.Ok? {
        DecideKeepsCore(rows, user, key, amount, token, clock, false);
        rows := tx.rows;
      }
    }

    method ConfirmBid(user: UserId, key: BidKey, token: string, clock: Clock) returns (r: Result<Response, ApiError>)
      requires CoreInv(rows)
      modifies this
      ensures CoreInv(rows)
      ensures CommitsWith(old(rows), rows, r, Transactions.ConfirmBid(old(rows), user, key, token, clock))
    {
      if key == NO_KEY || token == "" {
        return Err(InvalidArgument);
      }
      if (user, key) !in rows.records {
        return Err(NotFound);
      }
      var record := rows.records[(user, key)];
      if record.status != Completed || record.response.None? {
        return Err(ConfirmUsed);
      }
      var pending := record.response.value;
      if pending.Decision? {
        return Ok(pending);
      }
      if pending.token != token || clock.presented > pending.expiresAt {
        return Err(ConfirmUsed);
      }
      if record.hash != pending.amount {
        return Err(KeyReused);
      }
      var tx := new Tx(rows);
      r := DecideBid(tx, user, key, pending.amount, "", clock, true);
      if r.Ok? {
        DecideKeepsCore(rows, user, key, pending.amount, "", clock, true);
        rows := tx.rows;
      }
    }

    // ---- Payment --------------------------------------------------------------------

    method InitiateMock(user: UserId, newId: string, converged: bool) returns (error: Option<ApiError>)
      requires CoreInv(rows)
      modifies this
      ensures CoreInv(rows) && Commits(old(rows), rows, error, Transactions.InitiateMock(old(rows), user, newId, converged))
    {
      StepKeepsCore(rows, DoInitiateMock(user, newId, converged));
      if rows.orders == [] {
        return Some(NotFound);
      }
      var order := rows.orders[0];
      if order.winner != user {
        return Some(Forbidden);
      }
      if order.status == OrderLapsed {
        return Some(AlreadyExpired);
      }
      if order.status != Paid && order.paymentId.None? && !converged {
        return Some(RetryLater);
      }
      var paymentId := if order.paymentId.None? then Some(newId) else order.paymentId;
      if order.status != Paid {
        rows := rows.(orders := [order.(status := PaymentInitiated, paymentId := paymentId)]);
      }
      return None;
    }

    method InitiateAlipay(paymentId: string) returns (error: Option<ApiError>)
      requires CoreInv(rows)
      modifies this
      ensures CoreInv(rows) && Commits(old(rows), rows, error, Transactions.InitiateAlipay(old(rows), paymentId))
    {
      StepKeepsCore(rows, DoInitiateAlipay(paymentId));
      if rows.orders == [] {
        return Some(NotFound);
      }
      var order := rows.orders[0];
      if order.paymentId.Some? && order.paymentId.value != paymentId {
        return Some(InvalidArgument);
      }
      if order.status == OrderLapsed {
        return Some(AlreadyExpired);
      }
      if order.status != Paid {
        rows := rows.(orders := [order.(status := PaymentInitiated, paymentId := Some(paymentId))]);
      }
      return None;
    }

    method HandleWebhook(paymentId: string, signatureValid: bool) returns (error: Option<ApiError>)
      requires CoreInv(rows)
      modifies this
      ensures CoreInv(rows) && Commits(old(rows), rows, error, Webhook(old(rows), paymentId, signatureValid))
    {
      if !signatureValid || paymentId == "" {
        return Some(InvalidArgument);
      }
      if rows.orders == [] {
        return Some(NotFound);
      }
      var order := rows.orders[0];
      if order.paymentId.Some? && order.paymentId.value != paymentId {
        return Some(InvalidArgument);
      }
      if order.status == OrderLapsed {
        return Some(AlreadyExpired);
      }
      WebhookKeepsCore(rows, paymentId, signatureValid);
      if order.status != Paid {
        var tx := new Tx(rows);
        tx.rows := tx.rows.(orders := [order.(status := Paid, deposit := Refunded, paymentId := Some(paymentId))]);
        tx.rows := AppendEvent(tx.rows, EventKind.OrderPaid, Some(order.winner), Some(order.amount));
        rows := tx.rows;
      }
      return None;
    }

    // ---- Scheduler ------------------------------------------------------------------

    method ClaimEndJob(now: int) returns (claimed: bool)
      requires CoreInv(rows)
      modifies this
      ensures CoreInv(rows) && rows == old(rows).(endJob := ClaimJob(old(rows).endJob, now))
      ensures claimed <==> old(rows).endJob.Some? && Claimable(old(rows).endJob.value, now)
      ensures claimed <==> rows != old(rows)
    {
      StepKeepsCore(rows, DoClaimEnd(now));
      if rows.endJob.None? || !Claimable(rows.endJob.value, now) {
        return false;
      }
      var job := rows.endJob.value;
      rows := rows.(endJob := Some(job.(status := JobRunning, lockedUntil := Some(now + JOB_LOCK_SECONDS))));
      return true;
    }

    method ClaimExpireJob(now: int) returns (claimed: bool)
      requires CoreInv(rows)
      modifies this
      ensures CoreInv(rows) && rows == old(rows).(expireJob := ClaimJob(old(rows).expireJob, now))
      ensures claimed <==> old(rows).expireJob.Some? && Claimable(old(rows).expireJob.value, now)
      ensures claimed <==> rows != old(rows)
    {
      StepKeepsCore(rows, DoClaimExpire(now));
      if rows.expireJob.None? || !Claimable(rows.expireJob.value, now) {
        return false;
      }
      var job := rows.expireJob.value;
      rows := rows.(expireJob := Some(job.(status := JobRunning, lockedUntil := Some(now + JOB_LOCK_SECONDS))));
      return true;
    }

    /** markFailure for the end job or the order job; returns whether the job has run out of attempts. */
    method MarkFailure(ofEndJob: bool, retryAt: int) returns (dead: bool)
      requires CoreInv(rows) && (if ofEndJob then rows.endJob else rows.expireJob).Some?
      modifies this
      ensures CoreInv(rows)
      ensures rows == if ofEndJob then old(rows).(endJob := FailJob(old(rows).endJob, retryAt))
                      else old(rows).(expireJob := FailJob(old(rows).expireJob, retryAt))
      ensures dead <==> (if ofEndJob then rows.endJob else rows.expireJob).value.status == JobDead
    {
      StepKeepsCore(rows, if ofEndJob then DoFailEnd(retryAt) else DoFailExpire(retryAt));
      var job := (if ofEndJob then rows.endJob else rows.expireJob).value;
      dead := job.attempts + 1 >= job.maxAttempts;
      job := job.(attempts := job.attempts + 1, status := if dead then JobDead else JobFailed,
                  nextAttemptAt := retryAt, lockedUntil := None);
      if ofEndJob {
        rows := rows.(endJob := Some(job));
      } else {
        rows := rows.(expireJob := Some(job));
      }
    }

    /** The due branch of processEndAuction: sell to the winner and open the order, or end unsold. */
    method CloseAuction(tx: Tx, now: int)
      modifies tx
      ensures tx.rows == Transactions.CloseAuction(old(tx.rows), now)
    {
      var winner, price := tx.rows.auction.winner, tx.rows.auction.price;
      if winner.None? {
        tx.rows := tx.rows.(auction := tx.rows.auction.(status := Ended));
        tx.rows := AppendEvent(tx.rows, EventKind.AuctionEnded, None, None);
        return;
      }
      tx.rows := tx.rows.(auction := tx.rows.auction.(status := Sold));
      if tx.rows.orders == [] {
        tx.rows := tx.rows.(orders := [NewOrder(winner.value, price, now)]);
      } else {
        tx.rows := tx.rows.(orders := [tx.rows.orders[0]]);
      }
      tx.rows := tx.rows.(expireJob := UpsertJob(tx.rows.expireJob, tx.rows.orders[0].expireAt));
      tx.rows := AppendEvent(tx.rows, EventKind.AuctionSold, winner, Some(price));
    }

    method ProcessEndAuction(now: int) returns (error: Option<ApiError>)
      requires CoreInv(rows)
      modifies this
      ensures CoreInv(rows) && Commits(old(rows), rows, error, EndAuction(old(rows), now))
    {
      if rows.endJob.None? || rows.auction.endAt.None? {
        return Some(NotFound);
      }
      EndKeepsCore(rows, now);
      var tx := new Tx(rows);
      if rows.auction.status != Active {
        tx.rows := tx.rows.(endJob := FinishJob(tx.rows.endJob));
      } else if now < rows.auction.endAt.value {
        tx.rows := tx.rows.(endJob := RescheduleJob(tx.rows.endJob, rows.auction.endAt.value));
      } else {
        CloseAuction(tx, now);
        tx.rows := tx.rows.(endJob := FinishJob(tx.rows.endJob));
      }
      rows := tx.rows;
      return None;
    }

    /** The due branch of processExpireOrder. */
    method LapseOrder(tx: Tx)
      requires tx.rows.orders != []
      modifies tx
      ensures tx.rows == Transactions.LapseOrder(old(tx.rows))
    {
      var order := tx.rows.orders[0];
      tx.rows := tx.rows.(orders := [order.(status := OrderLapsed, deposit := Forfeited)]);
      tx.rows := AppendEvent(tx.rows, EventKind.OrderExpired, Some(order.winner), None);
    }

    method ProcessExpireOrder(now: int) returns (error: Option<ApiError>)
      requires CoreInv(rows)
      modifies this
      ensures CoreInv(rows) && Commits(old(rows), rows, error, ExpireOrder(old(rows), now))
    {
      if rows.expireJob.None? || rows.orders == [] {
        return Some(NotFound);
      }
      ExpireKeepsCore(rows, now);
      var order := rows.orders[0];
      var tx := new Tx(rows);
      if order.status != OrderPending && order.status != PaymentInitiated {
        tx.rows := tx.rows.(expireJob := FinishJob(tx.rows.expireJob));
      } else if now < order.expireAt {
        tx.rows := tx.rows.(expireJob := RescheduleJob(tx.rows.expireJob, order.expireAt));
      } else {
        LapseOrder(tx);
        tx.rows := tx.rows.(expireJob := FinishJob(tx.rows.expireJob));
      }
      rows := tx.rows;
      return None;
    }
  }
}
