/** What single calls and pairs of calls achieve: maximum bids that are put and taken back, and the race between
    a payment and the expiry of its order. */
module CallerLaws {
  import opened Wrappers
  import opened AuctionState
  import opened Settlement
  import opened SettlementLaws
  import opened Transactions
  import opened Invariants
  import opened MachineLaws

  // ---- Maximum bids -----------------------------------------------------------------------

  ghost predicate SameActive(xs: seq<Intent>, ys: seq<Intent>) {
    forall x: Intent :: x.status == IntentActive ==> (x in xs <==> x in ys)
  }

  lemma SameActiveRival(xs: seq<Intent>, ys: seq<Intent>, leader: Option<UserId>)
    requires DistinctIntents(xs) && DistinctIntents(ys) && SameActive(xs, ys)
    ensures BestRival(xs, leader) == BestRival(ys, leader)
  {
    BestRivalIsBest(xs, leader);
    BestRivalIsBest(ys, leader);
    if BestRival(xs, leader).Some? {
      BestRivalUnique(ys, leader, BestRival(xs, leader).value);
    }
  }

  /** The automatic bids depend on the active intents alone, not on the others and not on the order of the rows. */
  lemma OnlyActiveIntentsCount(a: Auction, xs: seq<Intent>, ys: seq<Intent>)
    requires DistinctIntents(xs) && DistinctIntents(ys) && SameActive(xs, ys)
    ensures Awards(a, xs) == Awards(a, ys)
  {
    LeaderIntentIs(xs, a.winner);
    LeaderIntentIs(ys, a.winner);
    SameActiveRival(xs, ys, a.winner);
    var rival := BestRival(xs, a.winner);
    if rival.Some? { SameActiveRival(xs, ys, Some(rival.value.user)); }
  }

  /** After a successful put the user has exactly one intent, active with that bound; nobody else's row changes. */
  ghost predicate IsPut(xs: seq<Intent>, ys: seq<Intent>, user: UserId, max: int) {
    && (exists y :: y in ys && y.user == user && y.status == IntentActive && y.max == max)
    && (forall x, y :: x in ys && y in ys && x.user == user && y.user == user ==> x == y)
    && (forall x: Intent :: x.user != user ==> (x in xs <==> x in ys))
  }

  lemma RowsByUser(xs: seq<Intent>, user: UserId)
    requires DistinctIntents(xs)
    ensures forall x, y :: x in xs && y in xs && x.user == user && y.user == user ==> x == y
  {
  }

  lemma ReplacedRow(xs: seq<Intent>, i: nat, y: Intent)
    requires i < |xs| && DistinctIntents(xs) && y.user == xs[i].user
    ensures forall x: Intent :: x.user != y.user ==> (x in xs <==> x in xs[i := y])
    ensures y in xs[i := y]
  {
    var ys := xs[i := y];
    assert ys[i] == y;
    forall x: Intent | x.user != y.user ensures x in xs <==> x in ys {
      if x in xs {
        var j :| 0 <= j < |xs| && xs[j] == x;
        assert ys[j] == x;
      }
    }
  }

  lemma PutIsPut(w: World, user: UserId, max: int, id: IntentId, now: int)
    requires CoreInv(w) && PutIntent(w, user, max, id, now).Ok?
    ensures IsPut(w.intents, PutIntent(w, user, max, id, now).value.intents, user, max)
    ensures DistinctIntents(PutIntent(w, user, max, id, now).value.intents)
  {
    var xs, ys := w.intents, PutIntent(w, user, max, id, now).value.intents;
    FindIntentIs(xs, user);
    if FindIntent(xs, user).Some? {
      var i := FindIntent(xs, user).value;
      ReplacedRow(xs, i, ys[i]);
    } else {
      assert ys[|xs|] in ys;
    }
    RowsByUser(ys, user);
  }

  /** After a cancel the user has no active intent, and nobody else's row changes. */
  lemma CancelSilences(w: World, user: UserId)
    requires CoreInv(w) && CancelIntent(w, user).Ok?
    ensures
      var ys := CancelIntent(w, user).value.intents;
      && DistinctIntents(ys)
      && (forall y :: y in ys && y.user == user ==> y.status != IntentActive)
      && (forall x: Intent :: x.user != user ==> (x in w.intents <==> x in ys))
  {
    var xs, ys := w.intents, CancelIntent(w, user).value.intents;
    FindIntentIs(xs, user);
    var i := FindIntent(xs, user).value;
    ReplacedRow(xs, i, ys[i]);
    RowsByUser(ys, user);
    assert ys[i] in ys && ys[i].user == user;
  }

  /** Putting a bound and cancelling it, with nothing in between, leaves the settlement as it would have been had
      the user not bid: the same automatic bids. */
  lemma CancelUndoesPut(w: World, user: UserId, max: int, id: IntentId, now: int)
    requires CoreInv(w) && PutIntent(w, user, max, id, now).Ok?
    requires forall x :: x in w.intents && x.user == user ==> x.status != IntentActive
    ensures CancelIntent(PutIntent(w, user, max, id, now).value, user).Ok?
    ensures
      var back := CancelIntent(PutIntent(w, user, max, id, now).value, user).value;
      Awards(back.auction, back.intents) == Awards(w.auction, w.intents)
  {
    var put := PutIntent(w, user, max, id, now).value;
    PutIsPut(w, user, max, id, now);
    FindIntentIs(put.intents, user);
    CancelSilences(put, user);
    OnlyActiveIntentsCount(w.auction, w.intents, CancelIntent(put, user).value.intents);
  }

  // ---- The payment race ---------------------------------------------------------------------

  /** An open order that a webhook may pay and whose time is up. */
  ghost predicate Contested(w: World, paymentId: string, now: int) {
    && CoreInv(w) && w.orders != [] && IsOpen(w.orders[0])
    && paymentId != "" && (w.orders[0].paymentId.Some? ==> w.orders[0].paymentId.value == paymentId)
    && now >= w.orders[0].expireAt
  }

  /** Payment first: the order is paid, the deposit returned, and the expiry that follows only ends its timer. */
  lemma PaymentWins(w: World, paymentId: string, now: int)
    requires Contested(w, paymentId, now)
    ensures
      var o := w.orders[0];
      var paid := Next(w, DoWebhook(paymentId, true));
      && paid.orders == [o.(status := Paid, deposit := Refunded, paymentId := Some(paymentId))]
      && paid.events == w.events + [Event(w.auction.seqNo + 1, EventKind.OrderPaid, Some(o.winner), Some(o.amount))]
      && Next(paid, DoExpire(now)) == paid.(expireJob := FinishJob(paid.expireJob))
      && Next(paid, DoWebhook(paymentId, true)) == paid
  {
  }

  /** Expiry first: the order lapses, the deposit is forfeited, and the webhook that follows is refused. */
  lemma ExpiryWins(w: World, paymentId: string, now: int)
    requires Contested(w, paymentId, now)
    ensures
      var o := w.orders[0];
      var lapsed := Next(w, DoExpire(now));
      && lapsed.orders == [o.(status := OrderLapsed, deposit := Forfeited)]
      && lapsed.events == w.events + [Event(w.auction.seqNo + 1, EventKind.OrderExpired, Some(o.winner), None)]
      && Webhook(lapsed, paymentId, true) == Err(AlreadyExpired)
      && InitiateAlipay(lapsed, paymentId) == Err(AlreadyExpired)
  {
    assert Armed(w.expireJob, w.orders[0].expireAt);
  }

  /** Whatever runs afterwards, the winner of the race stays. */
  lemma RaceIsFinal(w: World, paymentId: string, now: int, later: seq<Step>)
    requires Contested(w, paymentId, now)
    ensures Run(Next(w, DoWebhook(paymentId, true)), later).orders == Next(w, DoWebhook(paymentId, true)).orders
    ensures Run(Next(w, DoExpire(now)), later).orders == Next(w, DoExpire(now)).orders
  {
    PaymentWins(w, paymentId, now);
    ExpiryWins(w, paymentId, now);
    StepKeepsCore(w, DoWebhook(paymentId, true));
    StepKeepsCore(w, DoExpire(now));
    RunMovesOrder(Next(w, DoWebhook(paymentId, true)), later);
    RunMovesOrder(Next(w, DoExpire(now)), later);
  }
}
