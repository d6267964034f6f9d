/** Every write transaction on one auction, as a function from the rows it locks to the rows it commits.
    An error stands for a rollback. */
module Transactions {
  import opened Wrappers
  import opened BidRules
  import opened AuctionState
  import opened Settlement

  type Outcome = Result<World, ApiError>

  function Touch(w: World, status: Status): World {
    w.(auction := w.auction.(status := status))
  }

  function Note(w: World, kind: EventKind): World {
    AppendEvent(w, kind, None, None)
  }

  // ---- Lifecycle (repository.go) ----------------------------------------------------

  function CreateAuction(rules: Rules): Outcome {
    if rules.increment <= 0 || ValidateRule(rules) != [] then Err(InvalidArgument)
    else
      var row := Auction(Draft, rules, rules.start, None, 0, None, 0, 0);
      Ok(Note(World(row, [], [], [], [], [], map[], None, None), AuctionCreated))
  }

  function UpdateRules(w: World, rules: Rules): Outcome {
    if w.auction.status != Draft then Err(RuleFrozen)
    else if rules.increment <= 0 || ValidateRule(rules) != [] then Err(InvalidArgument)
    else Ok(Note(w.(auction := w.auction.(rules := rules, price := rules.start)), RulesUpdated))
  }

  function Schedule(w: World): Outcome {
    if w.auction.status != Draft then Err(RuleFrozen) else Ok(Note(Touch(w, Scheduled), AuctionScheduled))
  }

  function Unschedule(w: World): Outcome {
    if w.auction.status != Scheduled then Err(StatusConflict) else Ok(Note(Touch(w, Draft), AuctionUnscheduled))
  }

  function Opened(w: World, now: int): World {
    var end := now + w.auction.rules.duration;
    var live := w.(auction := w.auction.(status := Active, endAt := Some(end)), endJob := UpsertJob(w.endJob, end));
    Note(live, AuctionStarted)
  }

  /** `roomFree`: no other auction of the room is active, which a unique index demands. */
  function Start(w: World, clock: Clock, roomFree: bool): Outcome {
    if w.auction.status != Scheduled then Err(StatusConflict)
    else if !roomFree then Err(ConstraintViolation)
    else
      match Settle(Opened(w, clock.first), ResultAccepted, clock)
      case Err(e) => Err(e)
      case Ok((settled, _)) => Ok(settled)
  }

  predicate IsTerminal(status: Status) {
    status in {Sold, Ended, Cancelled}
  }

  function Cancel(w: World): Outcome {
    if IsTerminal(w.auction.status) then Err(InvalidArgument) else Ok(Note(Touch(w, Cancelled), EventKind.AuctionCancelled))
  }

  function Shorten(w: World, remaining: int, now: int): Outcome {
    if remaining < 5 || remaining > 120 then Err(InvalidArgument)
    else if w.auction.endAt.None? then Err(ConstraintViolation)  // end_at is read before the status is checked
    else if w.auction.status != Active then Err(StatusConflict)
    else
      var end := now + remaining;
      if end >= w.auction.endAt.value then Err(StatusConflict)
      else Ok(Note(w.(auction := w.auction.(endAt := Some(end)), endJob := UpsertJob(w.endJob, end)), AuctionEndShortened))
  }

  /** `roomFree`: no other auction of the room is active; `voiceFree`: none is being narrated, which a unique index
      demands. */
  function NarrateStart(w: World, roomFree: bool, voiceFree: bool): Outcome {
    if IsTerminal(w.auction.status) || !roomFree then Err(StatusConflict)
    else if !voiceFree then Err(ConstraintViolation)
    else Ok(Note(w, NarrateStarted))
  }

  function NarrateStop(w: World): Outcome {
    Ok(Note(w, NarrateStopped))
  }

  // ---- Maximum bids (max_bid_intent.go) ---------------------------------------------

  function FindIntent(xs: seq<Intent>, user: UserId): Option<nat> {
    if xs == [] then None
    else if xs[|xs| - 1].user == user then Some(|xs| - 1)
    else FindIntent(xs[..|xs| - 1], user)
  }

  predicate IdTaken(xs: seq<Intent>, id: IntentId) {
    exists i :: 0 <= i < |xs| && xs[i].id == id
  }

  /** INSERT ... ON CONFLICT (auction_id, user_id) DO UPDATE: a second intent of a user keeps its id and age. */
  function UpsertIntent(xs: seq<Intent>, user: UserId, max: int, id: IntentId, now: int): Option<seq<Intent>> {
    match FindIntent(xs, user)
    case Some(i) => if i < |xs| then Some(xs[i := xs[i].(max := max, status := IntentActive)]) else None
    case None => if IdTaken(xs, id) then None else Some(xs + [Intent(id, user, max, now, IntentActive, None)])
  }

  function PutIntent(w: World, user: UserId, max: int, id: IntentId, now: int): Outcome {
    if user == "" || max <= 0 then Err(InvalidArgument)
    else if w.auction.status !in {Scheduled, Active} then Err(StatusConflict)
    else
      var verdict := Classify(w.auction, max);
      if verdict !in {Accepted, AcceptedSold} then Err(Unclassified(verdict))
      else
        match UpsertIntent(w.intents, user, max, id, now)
        case None => Err(ConstraintViolation)
        case Some(xs) => Ok(w.(intents := xs))
  }

  function CancelIntent(w: World, user: UserId): Outcome {
    match FindIntent(w.intents, user)
    case None => Err(NotFound)
    case Some(i) =>
      if i < |w.intents| && w.intents[i].status == IntentActive
      then Ok(w.(intents := w.intents[i := w.intents[i].(status := IntentCancelled)]))
      else Ok(w)
  }

  // ---- Bids (bid.go) ----------------------------------------------------------------

  datatype Verdict = Refuse(code: RejectCode) | AskConfirm | Take

  function EvaluateBid(a: Auction, user: UserId, amount: int, now: int, skipFatFinger: bool): Verdict
    requires a.endAt.Some?
  {
    if a.status != Active then Refuse(NotActive)
    else if now > a.endAt.value then Refuse(AuctionOver)
    else if a.winner == Some(user) then Refuse(SelfLeading)
    else
      match Classify(a, amount)
      case TooLow => Refuse(BidTooLow)
      case IncrementMismatch => Refuse(BidIncrementMismatch)
      case AboveCap => Refuse(BidAboveCap)
      case _ =>
        var threshold := a.rules.fatFinger;
        if !skipFatFinger && threshold.Some? && threshold.value > 0 && amount - PreviousPrice(a) >= threshold.value
        then AskConfirm
        else Take
  }

  /** shouldBroadcastRejectedBid. */
  predicate IsBroadcast(code: RejectCode) {
    code !in {BidTooLow, AuctionOver, NotActive}
  }

  const CONFIRM_SECONDS := 30

  function Complete(w: World, user: UserId, key: BidKey, amount: int, response: Response): World {
    w.(records := w.records[(user, key) := Record(amount, Completed, Some(response))])
  }

  function Report(a: Auction, result: BidResult): Response
    requires a.endAt.Some?
  {
    Decision(result, a.seqNo, a.price, a.winner, a.endAt.value)
  }

  function RejectedRow(user: UserId, key: BidKey, amount: int, at: Option<nat>): BidRow {
    BidRow(user, key, amount, at, false, Manual)
  }

  function TakenRow(user: UserId, key: BidKey, amount: int, at: nat): BidRow {
    BidRow(user, key, amount, Some(at), true, Manual)
  }

  function RefuseBid(w: World, user: UserId, key: BidKey, amount: int, code: RejectCode)
    : Result<(World, Response), ApiError>
    requires w.auction.endAt.Some?
  {
    var told := if IsBroadcast(code) then AppendEvent(w, BidRejected, Some(user), Some(amount)) else w;
    var at := if IsBroadcast(code) then Some(told.auction.seqNo) else None;
    match InsertBid(told, RejectedRow(user, key, amount, at))
    case Err(e) => Err(e)
    case Ok(next) => Ok((next, Report(told.auction, ResultRejected(code))))
  }

  /** The auction row behind an accepted manual bid and its event. */
  function LedRow(a: Auction, user: UserId, amount: int, clock: Clock): Auction
    requires a.endAt.Some?
  {
    AcceptedRow(a, user, amount, clock.first).0.(seqNo := a.seqNo + 1)
  }

  /** An accepted manual bid with its row, before the settlement. */
  function Placed(w: World, user: UserId, key: BidKey, amount: int, clock: Clock): Result<(World, BidResult), ApiError> {
    match ApplyAccepted(w, user, amount, clock.first, clock.ordered)
    case Err(e) => Err(e)
    case Ok((moved, result)) =>
      match InsertBid(moved, TakenRow(user, key, amount, moved.auction.seqNo))
      case Err(e) => Err(e)
      case Ok(taken) => Ok((taken, result))
  }

  function TakeBid(w: World, user: UserId, key: BidKey, amount: int, clock: Clock): Result<(World, BidResult), ApiError> {
    match Placed(w, user, key, amount, clock)
    case Err(e) => Err(e)
    case Ok((taken, result)) => if result == ResultSold then Ok((taken, result)) else Settle(taken, result, clock)
  }

  /** Evaluate, record and settle a manual bid: what placing and confirming share. */
  function DecideBid(w: World, user: UserId, key: BidKey, amount: int, token: string, clock: Clock, skipFatFinger: bool)
    : Result<(World, Response), ApiError>
  {
    if w.auction.endAt.None? then Err(ConstraintViolation)  // the row lock reads end_at, which is NULL before the start
    else
      match EvaluateBid(w.auction, user, amount, clock.first, skipFatFinger)
      case Refuse(code) =>
        (match RefuseBid(w, user, key, amount, code)
         case Err(e) => Err(e)
         case Ok((next, response)) => Ok((Complete(next, user, key, amount, response), response)))
      case AskConfirm =>
        var response := ConfirmRequired(token, w.auction.seqNo, amount, clock.first + CONFIRM_SECONDS);
        Ok((Complete(w, user, key, amount, response), response))
      case Take =>
        match TakeBid(w, user, key, amount, clock)
        case Err(e) => Err(e)
        case Ok((next, result)) =>
          if next.auction.endAt.None? then Err(ConstraintViolation)
          else
            var response := Report(next.auction, result);
            Ok((Complete(next, user, key, amount, response), response))
  }

  const NO_KEY := Plain("")

  /** The transaction behind a new bid: any existing record turns it away. */
  function PlaceBidTx(w: World, user: UserId, key: BidKey, amount: int, token: string, clock: Clock)
    : Result<(World, Response), ApiError>
  {
    if key == NO_KEY || amount <= 0 then Err(InvalidArgument)
    else if (user, key) in w.records then
      Err(if w.records[(user, key)].hash != amount then KeyReused else RetryLater)
    else DecideBid(w, user, key, amount, token, clock, false)
  }

  /** Probe for a finished record first, then the transaction. */
  function PlaceBid(w: World, user: UserId, key: BidKey, amount: int, token: string, clock: Clock)
    : Result<(World, Response), ApiError>
  {
    if key == NO_KEY || amount <= 0 then Err(InvalidArgument)
    else if (user, key) in w.records then
      var record := w.records[(user, key)];
      if record.hash != amount then Err(KeyReused)
      else if record.status != Completed || record.response.None? then Err(RetryLater)
      else Ok((w, record.response.value))
    else PlaceBidTx(w, user, key, amount, token, clock)
  }

  function ConfirmBid(w: World, user: UserId, key: BidKey, token: string, clock: Clock)
    : Result<(World, Response), ApiError>
  {
    if key == NO_KEY || token == "" then Err(InvalidArgument)
    else if (user, key) !in w.records then Err(NotFound)
    else
      var record := w.records[(user, key)];
      if record.status != Completed || record.response.None? then Err(ConfirmUsed)
      else
        match record.response.value
        case Decision(_, _, _, _, _) => Ok((w, record.response.value))
        case ConfirmRequired(expected, _, amount, expiresAt) =>
          if token != expected || clock.presented > expiresAt then Err(ConfirmUsed)
          else if record.hash != amount then Err(KeyReused)
          else DecideBid(w, user, key, amount, "", clock, true)
  }

  // ---- Payment (bid.go, alipay_handlers.go) -----------------------------------------

  function WithOrder(w: World, order: Order): World {
    w.(orders := [order])
  }

  /** PayMockWithSecret up to its first commit. `converged` is ensurePaymentConvergenceReady. */
  function InitiateMock(w: World, user: UserId, newId: string, converged: bool): Outcome {
    if w.orders == [] then Err(NotFound)
    else
      var o := w.orders[0];
      if o.winner != user then Err(Forbidden)
      else if o.status == OrderLapsed then Err(AlreadyExpired)
      else if o.status != Paid && o.paymentId.None? && !converged then Err(RetryLater)
      else if o.status == Paid then Ok(w)
      else
        var id := if o.paymentId.None? then Some(newId) else o.paymentId;
        Ok(WithOrder(w, o.(status := PaymentInitiated, paymentId := id)))
  }

  function InitiateAlipay(w: World, paymentId: string): Outcome {
    if w.orders == [] then Err(NotFound)
    else
      var o := w.orders[0];
      if o.paymentId.Some? && o.paymentId != Some(paymentId) then Err(InvalidArgument)
      else if o.status == OrderLapsed then Err(AlreadyExpired)
      else if o.status == Paid then Ok(w)
      else Ok(WithOrder(w, o.(status := PaymentInitiated, paymentId := Some(paymentId))))
  }

  /** HandleProviderWebhook, first or repeated, early or late, also as sent by the reconciliation. */
  function Webhook(w: World, paymentId: string, signatureValid: bool): Outcome {
    if !signatureValid || paymentId == "" then Err(InvalidArgument)
    else if w.orders == [] then Err(NotFound)
    else
      var o := w.orders[0];
      if o.paymentId.Some? && o.paymentId != Some(paymentId) then Err(InvalidArgument)
      else if o.status == OrderLapsed then Err(AlreadyExpired)
      else if o.status == Paid then Ok(w)
      else
        var paid := o.(status := Paid, deposit := Refunded, paymentId := Some(paymentId));
        Ok(AppendEvent(WithOrder(w, paid), EventKind.OrderPaid, Some(o.winner), Some(o.amount)))
  }

  // ---- Scheduler (scheduler.go) -----------------------------------------------------

  const JOB_LOCK_SECONDS := 5

  predicate Claimable(job: Job, now: int) {
    && job.status in {JobPending, JobFailed, JobRunning}
    && job.runAt <= now && job.nextAttemptAt <= now
    && (job.status == JobRunning ==> job.lockedUntil.Some? && job.lockedUntil.value <= now)
  }

  function ClaimJob(job: Option<Job>, now: int): Option<Job> {
    if job.Some? && Claimable(job.value, now)
    then Some(job.value.(status := JobRunning, lockedUntil := Some(now + JOB_LOCK_SECONDS)))
    else job
  }

  function FinishJob(job: Option<Job>): Option<Job> {
    if job.None? then None else Some(job.value.(status := JobSucceeded, lockedUntil := None))
  }

  function RescheduleJob(job: Option<Job>, runAt: int): Option<Job> {
    if job.None? then None
    else Some(job.value.(status := JobPending, runAt := runAt, nextAttemptAt := runAt, lockedUntil := None))
  }

  /** markFailure: by any worker that ever claimed the job, however late. */
  function FailJob(job: Option<Job>, retryAt: int): Option<Job> {
    if job.None? then None
    else
      var n := job.value.attempts + 1;
      var status := if n >= job.value.maxAttempts then JobDead else JobFailed;
      Some(job.value.(attempts := n, status := status, nextAttemptAt := retryAt, lockedUntil := None))
  }

  function CloseAuction(w: World, now: int): World {
    match w.auction.winner
    case None => Note(Touch(w, Ended), EventKind.AuctionEnded)
    case Some(winner) =>
      var order := if w.orders == [] then NewOrder(winner, w.auction.price, now) else w.orders[0];
      var sold := Touch(w, Sold).(orders := [order], expireJob := UpsertJob(w.expireJob, order.expireAt));
      AppendEvent(sold, EventKind.AuctionSold, Some(winner), Some(w.auction.price))
  }

  /** processEndAuction, by any worker that ever claimed the job. */
  function EndAuction(w: World, now: int): Outcome {
    if w.endJob.None? || w.auction.endAt.None? then Err(NotFound)
    else if w.auction.status != Active then Ok(w.(endJob := FinishJob(w.endJob)))
    else if now < w.auction.endAt.value then Ok(w.(endJob := RescheduleJob(w.endJob, w.auction.endAt.value)))
    else Ok(CloseAuction(w, now).(endJob := FinishJob(w.endJob)))
  }

  function LapseOrder(w: World): World
    requires w.orders != []
  {
    var o := w.orders[0];
    AppendEvent(WithOrder(w, o.(status := OrderLapsed, deposit := Forfeited)), EventKind.OrderExpired, Some(o.winner), None)
  }

  function ExpireOrder(w: World, now: int): Outcome {
    if w.expireJob.None? || w.orders == [] then Err(NotFound)
    else if w.orders[0].status !in {OrderPending, PaymentInitiated} then Ok(w.(expireJob := FinishJob(w.expireJob)))
    else if now < w.orders[0].expireAt then Ok(w.(expireJob := RescheduleJob(w.expireJob, w.orders[0].expireAt)))
    else Ok(LapseOrder(w).(expireJob := FinishJob(w.expireJob)))
  }

  // ---- The machine ------------------------------------------------------------------

  datatype Step =
    | DoUpdateRules(newRules: Rules) | DoSchedule | DoUnschedule | DoStart(clock: Clock, roomFree: bool) | DoCancel
    | DoShorten(remaining: int, now: int) | DoNarrateStart(roomFree: bool, voiceFree: bool) | DoNarrateStop
    | DoPutIntent(user: UserId, max: int, id: IntentId, now: int) | DoCancelIntent(user: UserId)
    | DoPlace(user: UserId, key: BidKey, amount: int, token: string, clock: Clock)
    | DoPlaceTx(user: UserId, key: BidKey, amount: int, token: string, clock: Clock)
    | DoConfirm(user: UserId, key: BidKey, token: string, clock: Clock)
    | DoInitiateMock(user: UserId, paymentId: string, converged: bool) | DoInitiateAlipay(paymentId: string)
    | DoWebhook(paymentId: string, signatureValid: bool)
    | DoClaimEnd(now: int) | DoEnd(now: int) | DoFailEnd(retryAt: int)
    | DoClaimExpire(now: int) | DoExpire(now: int) | DoFailExpire(retryAt: int)

  function Committed<T>(r: Result<(World, T), ApiError>): Outcome {
    match r
    case Ok((w, _)) => Ok(w)
    case Err(e) => Err(e)
  }

  function Try(w: World, step: Step): Outcome {
    match step
    case DoUpdateRules(rules) => UpdateRules(w, rules)
    case DoSchedule => Schedule(w)
    case DoUnschedule => Unschedule(w)
    case DoStart(clock, roomFree) => Start(w, clock, roomFree)
    case DoCancel => Cancel(w)
    case DoShorten(remaining, now) => Shorten(w, remaining, now)
    case DoNarrateStart(roomFree, voiceFree) => NarrateStart(w, roomFree, voiceFree)
    case DoNarrateStop => NarrateStop(w)
    case DoPutIntent(user, max, id, now) => PutIntent(w, user, max, id, now)
    case DoCancelIntent(user) => CancelIntent(w, user)
    case DoPlace(user, key, amount, token, clock) => Committed(PlaceBid(w, user, key, amount, token, clock))
    case DoPlaceTx(user, key, amount, token, clock) => Committed(PlaceBidTx(w, user, key, amount, token, clock))
    case DoConfirm(user, key, token, clock) => Committed(ConfirmBid(w, user, key, token, clock))
    case DoInitiateMock(user, id, converged) => InitiateMock(w, user, id, converged)
    case DoInitiateAlipay(id) => InitiateAlipay(w, id)
    case DoWebhook(id, valid) => Webhook(w, id, valid)
    case DoClaimEnd(now) => Ok(w.(endJob := ClaimJob(w.endJob, now)))
    case DoEnd(now) => EndAuction(w, now)
    case DoFailEnd(retryAt) => Ok(w.(endJob := FailJob(w.endJob, retryAt)))
    case DoClaimExpire(now) => Ok(w.(expireJob := ClaimJob(w.expireJob, now)))
    case DoExpire(now) => ExpireOrder(w, now)
    case DoFailExpire(retryAt) => Ok(w.(expireJob := FailJob(w.expireJob, retryAt)))
  }

  /** A transaction that fails leaves the rows as they were. */
  function Next(w: World, step: Step): World {
    var r := Try(w, step);
    if r.Ok? then r.value else w
  }

  predicate IsBid(step: Step) {
    step.DoPlace? || step.DoPlaceTx? || step.DoConfirm?
  }

  /** The amount a bidding step is about: its own, or the one waiting to be confirmed. */
  function BidAmount(w: World, step: Step): int
    requires IsBid(step)
  {
    if !step.DoConfirm? then step.amount
    else if (step.user, step.key) !in w.records then 0
    else
      match w.records[(step.user, step.key)].response
      case Some(ConfirmRequired(_, _, amount, _)) => amount
      case _ => 0
  }

  function BidDecision(w: World, step: Step): Result<(World, Response), ApiError>
    requires IsBid(step)
  {
    DecideBid(w, step.user, step.key, BidAmount(w, step),
      if step.DoConfirm? then "" else step.token, step.clock, step.DoConfirm?)
  }

  /** A bidding step that commits either replays, changing nothing, or decides its bid. */
  lemma BidReplaysOrDecides(w: World, step: Step)
    requires IsBid(step) && Try(w, step).Ok?
    ensures Next(w, step) == w || (BidDecision(w, step).Ok? && Next(w, step) == BidDecision(w, step).value.0)
  {
  }

  /** Any interleaving of transactions is a sequence of steps: the row locks serialise them. */
  function Run(w: World, steps: seq<Step>): World
    decreases |steps|
  {
    if steps == [] then w else Run(Next(w, steps[0]), steps[1..])
  }
}
