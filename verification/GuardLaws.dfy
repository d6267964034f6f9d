/** What the guard says of a projection that shows the row: the authority's own verdict if it is fresh, and if it is old a
    rejection only where its age cannot matter; and a refreshed projection is as good as a newly written one. */
module GuardLaws {
  import opened Wrappers
  import opened BidRules
  import opened AuctionState
  import opened SettlementLaws
  import opened Transactions
  import opened Invariants
  import opened RedisGuard
  import Answers

  /** The code of a rejection, which also reports the row. */
  ghost predicate RejectsFor(v: GuardVerdict, a: Auction, code: RejectCode)
    requires a.endAt.Some?
  {
    v == Reject(code, a.seqNo, a.price, a.winner, a.endAt.value)
  }

  /** The projection of an active row, written at `at` and asked at `now`. A fresh one gives the authority's reason, except
      that the leader's own bids pass; an old one rejects what is too low or above the cap and has the rest reloaded. */
  lemma ActiveRowIsJudged(a: Auction, user: UserId, amount: int, at: int, now: int, maxStaleness: int)
    requires RowInv(a) && a.status == Active && user != ""
    ensures
      var v, isOld := Guard(Some(Project(a, at)), user, amount, now, maxStaleness), at <= 0 || at < now - maxStaleness;
      var reason := Answers.Reason(a, user, amount, a.endAt.value);
      if reason == Some(SelfLeading) then v == Allow
      else if reason in {Some(BidTooLow), Some(BidAboveCap)} then RejectsFor(v, a, reason.value)
      else if isOld then v == Stale
      else if reason.Some? then RejectsFor(v, a, reason.value)
      else v == Allow
  {
  }

  /** The projection of any other row, old or fresh: final rows reject every bid, the others are left to the authority. */
  lemma OtherRowIsJudged(a: Auction, user: UserId, amount: int, at: int, now: int, maxStaleness: int)
    requires RowInv(a) && a.status != Active
    ensures
      var v := Guard(Some(Project(a, at)), user, amount, now, maxStaleness);
      if a.status in {Sold, Ended, Cancelled}
      then v.Reject? && v.code == NotActive && v.price == a.price && v.seqNo == a.seqNo
      else v == Allow
  {
  }

  /** The projection shows the row, except that it may count the accepted bids wrongly once there are any. */
  ghost predicate Shows(p: Projection, a: Auction) {
    && p == Project(a, p.projectedAt).(count := p.count)
    && (p.count <= 0 <==> a.acceptedCount == 0)
  }

  lemma ShownIsJudgedAlike(p: Projection, a: Auction, user: UserId, amount: int, now: int, maxStaleness: int)
    requires Shows(p, a)
    ensures Guard(Some(p), user, amount, now, maxStaleness)
      == Guard(Some(Project(a, p.projectedAt)), user, amount, now, maxStaleness)
  {
  }

  lemma TakenKeepsRules(w: World, user: UserId, key: BidKey, amount: int, clock: Clock, r: Response, next: World)
    requires CoreInv(w) && w.auction.endAt.Some? && Answers.Taken(w, next, user, key, amount, clock, r)
    ensures next.auction.rules == w.auction.rules && next.auction.seqNo > w.auction.seqNo && next.auction.acceptedCount > 0
  {
  }

  /** Refreshing a key that shows the row with the answer to a bid on it leaves a key that shows the committed row:
      whoever bids next is judged as on a projection written at that moment. */
  lemma RefreshShowsRow(
      p: Projection, w: World, next: World, user: UserId, key: BidKey, amount: int, clock: Clock, r: Response, now: int)
    requires CoreInv(w) && Shows(p, w.auction) && w.auction.endAt.Some?
    requires Answers.Taken(w, next, user, key, amount, clock, r)
    ensures IsAcceptedResponse(r)
    ensures
      var key := Refreshed(Some(p), r, now);
      && key.Some? && Shows(key.value, next.auction) && key.value.projectedAt == now
      && forall u, x, at, age :: Guard(key, u, x, at, age) == Guard(Some(Project(next.auction, now)), u, x, at, age)
  {
    TakenKeepsRules(w, user, key, amount, clock, r, next);
    var q := Refreshed(Some(p), r, now).value;
    assert Shows(q, next.auction);
    forall u, x, at, age
      ensures Guard(Some(q), u, x, at, age) == Guard(Some(Project(next.auction, now)), u, x, at, age)
    {
      ShownIsJudgedAlike(q, next.auction, u, x, at, age);
    }
  }

  /** A call that decides its bid and has it accepted. */
  predicate Accepts(r: Result<(World, Response), ApiError>) {
    r.Ok? && IsAcceptedResponse(r.value.1)
  }

  /** So it is after a bid that is placed, */
  lemma PlacedBidIsShown(
      p: Projection, w: World, user: UserId, key: BidKey, amount: int, token: string, clock: Clock, now: int)
    requires CoreInv(w) && Shows(p, w.auction) && (user, key) !in w.records
    requires Accepts(PlaceBid(w, user, key, amount, token, clock))
    ensures
      var (next, r) := PlaceBid(w, user, key, amount, token, clock).value;
      var refreshed := Refreshed(Some(p), r, now);
      && refreshed.Some? && refreshed.value.projectedAt == now
      && forall u, x, at, age ::
           Guard(refreshed, u, x, at, age) == Guard(Some(Project(next.auction, now)), u, x, at, age)
  {
    var (next, r) := PlaceBid(w, user, key, amount, token, clock).value;
    Answers.PlaceDecidesNothing(w, user, key, amount, token, clock);
    Answers.PlaceAnswers(w, user, key, amount, token, clock);
    RefreshShowsRow(p, w, next, user, key, amount, clock, r, now);
  }

  /** and after one that is confirmed. */
  lemma ConfirmedBidIsShown(p: Projection, w: World, user: UserId, key: BidKey, token: string, clock: Clock, now: int)
    requires CoreInv(w) && Shows(p, w.auction) && (user, key) in w.records
    requires
      var record := w.records[(user, key)];
      && record.status == Completed && record.response.Some? && record.response.value.ConfirmRequired?
      && record.response.value.amount == record.hash
    requires Accepts(ConfirmBid(w, user, key, token, clock))
    ensures
      var (next, r) := ConfirmBid(w, user, key, token, clock).value;
      var refreshed := Refreshed(Some(p), r, now);
      && refreshed.Some? && refreshed.value.projectedAt == now
      && forall u, x, at, age ::
           Guard(refreshed, u, x, at, age) == Guard(Some(Project(next.auction, now)), u, x, at, age)
  {
    var (next, r) := ConfirmBid(w, user, key, token, clock).value;
    var record := w.records[(user, key)];
    var asked := record.response.value;
    Answers.ConfirmDecidesNothing(w, user, key, token, clock);
    Answers.ConfirmAnswers(w, user, key, token, clock, asked.token, asked.seqNo, asked.expiresAt);
    RefreshShowsRow(p, w, next, user, key, record.hash, clock, r, now);
  }
}
