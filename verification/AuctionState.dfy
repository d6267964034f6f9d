/** The database rows that belong to one auction, and the row operations the transactions share.
    Ids that the database generates are inputs; ids of max-bid intents are modelled by their sort position. */
module AuctionState {
  import opened Wrappers
  import opened BidRules

  type UserId = string
  type IntentId = int

  /** The rule columns as the table admits them: CHECK (increment_cents > 0). */
  type RuleColumns = r: Rules | r.increment > 0 witness Rules(0, 1, None, 30, 10, 10, 1, None)

  datatype Status = Draft | Scheduled | Active | Sold | Ended | Cancelled

  datatype Auction = Auction(
    status: Status, rules: RuleColumns, price: int, winner: Option<UserId>,
    acceptedCount: nat, endAt: Option<int>, extendCount: nat, seqNo: nat)

  datatype IntentStatus = IntentActive | IntentCancelled | IntentExhausted | IntentTerminal

  datatype Intent = Intent(
    id: IntentId, user: UserId, max: int, createdAt: int, status: IntentStatus, lastAppliedSeq: Option<nat>)

  datatype EventKind =
    | AuctionCreated | RulesUpdated | AuctionScheduled | AuctionUnscheduled | AuctionStarted
    | AuctionEndShortened | NarrateStarted | NarrateStopped | BidAccepted | BidRejected
    | AuctionSold | AuctionEnded | AuctionCancelled | OrderPaid | OrderExpired

  /** One auction_events row; the outbox_events row beside it has the same columns. */
  datatype Event = Event(seqNo: nat, kind: EventKind, user: Option<UserId>, amount: Option<int>)

  /** A client bid id. Automatic bids write "auto:<intent>:<seq>"; callers choose any text, that form included.
      The form is injective, so a text either has it, for one intent and one number, or is plain. */
  datatype BidKey = Plain(text: string) | AutoForm(intent: IntentId, atSeq: nat)

  datatype BidSource = Manual | AutoMaxBid

  datatype BidRow = BidRow(
    user: UserId, key: BidKey, amount: int, seqNo: Option<nat>, accepted: bool, source: BidSource)

  datatype OrderStatus = OrderPending | PaymentInitiated | Paid | OrderLapsed
  datatype DepositStatus = Held | Refunded | Forfeited

  datatype Order = Order(
    winner: UserId, amount: int, status: OrderStatus, deposit: DepositStatus,
    expireAt: int, paymentId: Option<string>)

  datatype JobStatus = JobPending | JobRunning | JobSucceeded | JobFailed | JobDead

  datatype Job = Job(
    status: JobStatus, runAt: int, nextAttemptAt: int, lockedUntil: Option<int>, attempts: nat, maxAttempts: nat)

  datatype RejectCode =
    NotActive | AuctionOver | SelfLeading | BidTooLow | BidIncrementMismatch | BidAboveCap

  datatype BidResult = ResultAccepted | ResultExtended | ResultSold | ResultRejected(code: RejectCode)

  datatype Response =
    | Decision(result: BidResult, seqNo: nat, price: int, winner: Option<UserId>, endAt: int)
    | ConfirmRequired(token: string, seqNo: nat, amount: int, expiresAt: int)

  datatype RecordStatus = Processing | Completed | Failed

  /** An idempotency record of scope 'bid'. The request hash covers the scope, the user, the key and the amount;
      under one key only the amount can vary, so a collision-free hash is the amount. */
  datatype Record = Record(hash: int, status: RecordStatus, response: Option<Response>)

  datatype World = World(
    auction: Auction, intents: seq<Intent>, bids: seq<BidRow>, events: seq<Event>, outbox: seq<Event>,
    orders: seq<Order>, records: map<(UserId, BidKey), Record>, endJob: Option<Job>, expireJob: Option<Job>)

  datatype ApiError =
    | InvalidArgument | RuleFrozen | NotFound | StatusConflict | KeyReused | RetryLater | ConfirmUsed
    | AlreadyExpired | Forbidden | ConstraintViolation | Unclassified(verdict: BidClass) | IterationLimit

  // ---- The clock -------------------------------------------------------------------

  /** What one transaction reads of the clock, which it does several times: to decide its own bid or start, for the
      automatic bid that will be event n, for the expiry of an order, and when a confirmation is presented. */
  datatype Clock = Clock(first: int, automatic: map<nat, int>, ordered: int, presented: int)

  function AutoTime(clock: Clock, n: nat): int {
    if n in clock.automatic then clock.automatic[n] else clock.first
  }

  /** The clock does not move during the transaction. */
  function Still(now: int): Clock {
    Clock(now, map[], now, now)
  }

  // ---- Row operations ---------------------------------------------------------------

  /** appendAuctionEventWithSeq: advance the row's seq and write the event and its outbox twin. */
  function AppendEvent(w: World, kind: EventKind, user: Option<UserId>, amount: Option<int>): World {
    var e := Event(w.auction.seqNo + 1, kind, user, amount);
    w.(auction := w.auction.(seqNo := e.seqNo), events := w.events + [e], outbox := w.outbox + [e])
  }

  const MAX_JOB_ATTEMPTS: nat := 5

  /** upsertSchedulerJob: a finished job keeps its status, any other becomes pending again. */
  function UpsertJob(job: Option<Job>, runAt: int): Option<Job> {
    match job
    case None => Some(Job(JobPending, runAt, runAt, None, 0, MAX_JOB_ATTEMPTS))
    case Some(j) =>
      var status := if j.status in {JobSucceeded, JobDead} then j.status else JobPending;
      Some(j.(status := status, runAt := runAt, nextAttemptAt := runAt, lockedUntil := None))
  }

  function PreviousPrice(a: Auction): int {
    if a.acceptedCount <= 0 then a.rules.start else a.price
  }

  function NextAmount(a: Auction): int {
    PreviousPrice(a) + a.rules.increment
  }

  function Classify(a: Auction, amount: int): BidClass {
    ClassifyBidAmount(a.rules.start, a.price, a.rules.increment, a.rules.cap, amount, a.acceptedCount > 0)
  }

  const ORDER_LIFETIME := 15 * 60

  function NewOrder(winner: UserId, amount: int, now: int): Order {
    Order(winner, amount, OrderPending, Held, now + ORDER_LIFETIME, None)
  }

  /** The auction row and the result after an accepted bid. */
  function AcceptedRow(a: Auction, user: UserId, amount: int, now: int): (Auction, BidResult)
    requires a.endAt.Some?
  {
    var end := a.endAt.value;
    var extended := CalculateExtension(end, now, a.rules.extendWindow, a.rules.extendBy, a.extendCount, a.rules.maxExtend);
    var taken := a.(price := amount, winner := Some(user), acceptedCount := a.acceptedCount + 1);
    if Classify(a, amount) == AcceptedSold then (taken.(status := Sold), ResultSold)
    else if extended > end then (taken.(endAt := Some(extended), extendCount := a.extendCount + 1), ResultExtended)
    else (taken, ResultAccepted)
  }

  predicate KeyTaken(bids: seq<BidRow>, user: UserId, key: BidKey) {
    exists i :: 0 <= i < |bids| && bids[i].user == user && bids[i].key == key
  }

  /** insertBidRow under UNIQUE (auction_id, user_id, client_bid_id). */
  function InsertBid(w: World, row: BidRow): Result<World, ApiError> {
    if KeyTaken(w.bids, row.user, row.key) then Err(ConstraintViolation) else Ok(w.(bids := w.bids + [row]))
  }

  /** applyAcceptedBid: move the row, open the order on a sale, append the event. The bid row is the caller's. */
  function ApplyAccepted(w: World, user: UserId, amount: int, now: int, ordered: int)
    : Result<(World, BidResult), ApiError>
  {
    var verdict := Classify(w.auction, amount);
    if verdict !in {Accepted, AcceptedSold} then Err(Unclassified(verdict))
    else if w.auction.endAt.None? then Err(ConstraintViolation)
    else
      var (row, result) := AcceptedRow(w.auction, user, amount, now);
      var moved := w.(auction := row);
      if result != ResultSold then Ok((AppendEvent(moved, BidAccepted, Some(user), Some(amount)), result))
      else if w.orders != [] then Err(ConstraintViolation)  // orders.auction_id is UNIQUE
      else
        var order := NewOrder(user, amount, ordered);
        var sold := moved.(orders := [order], expireJob := UpsertJob(w.expireJob, order.expireAt));
        Ok((AppendEvent(sold, EventKind.AuctionSold, Some(user), Some(amount)), result))
  }
}
