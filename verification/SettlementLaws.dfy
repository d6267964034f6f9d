/** What the sealed-bid formula guarantees, for any number of intents. */
module SettlementLaws {
  import opened Wrappers
  import opened BidRules
  import opened AuctionState
  import opened Settlement

  /** An auction row that can take bids: the price is on the grid and strictly below the cap. */
  ghost predicate LiveRow(a: Auction) {
    && a.status == Active
    && a.endAt.Some?
    && PriceOnGrid(a)
    && (a.rules.cap.Some? ==> a.price < a.rules.cap.value)
  }

  ghost predicate PriceOnGrid(a: Auction) {
    && SameGrid(a.price, a.rules.start, a.rules.increment)
    && a.price >= a.rules.start
    && (a.winner.None? <==> a.acceptedCount == 0)
    && (a.acceptedCount == 0 ==> a.price == a.rules.start)
    && (a.rules.cap.Some? ==> SameGrid(a.rules.cap.value, a.rules.start, a.rules.increment))
  }

  // ---- The best rival ---------------------------------------------------------------

  ghost predicate IsBest(xs: seq<Intent>, leader: Option<UserId>, r: Intent) {
    && r in xs && IsRival(r, leader)
    && forall y :: y in xs && IsRival(y, leader) && y != r ==> Outranks(r, y)
  }

  lemma {:induction false} BestRivalIsBest(xs: seq<Intent>, leader: Option<UserId>)
    requires DistinctIntents(xs)
    ensures BestRival(xs, leader).None? ==> forall y :: y in xs ==> !IsRival(y, leader)
    ensures BestRival(xs, leader).Some? ==> IsBest(xs, leader, BestRival(xs, leader).value)
  {
    if xs != [] {
      var front, x := xs[..|xs| - 1], xs[|xs| - 1];
      BestRivalIsBest(front, leader);
      assert xs == front + [x];
      forall y | y in front ensures y.id != x.id {
        var i :| 0 <= i < |front| && front[i] == y;
        assert xs[i].id != xs[|xs| - 1].id;
      }
    }
  }

  lemma BestRivalUnique(xs: seq<Intent>, leader: Option<UserId>, r: Intent)
    requires DistinctIntents(xs) && IsBest(xs, leader, r)
    ensures BestRival(xs, leader) == Some(r)
  {
    BestRivalIsBest(xs, leader);
  }

  lemma {:induction false} LeaderIntentIs(xs: seq<Intent>, leader: Option<UserId>)
    requires DistinctIntents(xs)
    ensures LeaderIntent(xs, leader).None? ==>
      forall y :: y in xs && y.status == IntentActive ==> leader != Some(y.user)
    ensures LeaderIntent(xs, leader).Some? ==>
      var d := LeaderIntent(xs, leader).value;
      && d in xs && d.status == IntentActive && leader == Some(d.user)
      && forall y :: y in xs && leader == Some(y.user) ==> y == d
  {
    if xs != [] {
      assert xs == [xs[0]] + xs[1..];
      LeaderIntentIs(xs[1..], leader);
    }
  }

  /** Marks never touch who owns an intent, its bound or its age. */
  ghost predicate SameOwners(xs: seq<Intent>, ys: seq<Intent>) {
    && |xs| == |ys|
    && forall i :: 0 <= i < |xs| ==>
      && xs[i].id == ys[i].id && xs[i].user == ys[i].user
      && xs[i].max == ys[i].max && xs[i].createdAt == ys[i].createdAt
  }

  lemma {:induction false} SameRivals(xs: seq<Intent>, ys: seq<Intent>, leader: Option<UserId>)
    requires |xs| == |ys|
    requires forall i :: 0 <= i < |xs| && (IsRival(xs[i], leader) || IsRival(ys[i], leader)) ==> xs[i] == ys[i]
    ensures BestRival(xs, leader) == BestRival(ys, leader)
  {
    if xs != [] { SameRivals(xs[..|xs| - 1], ys[..|ys| - 1], leader); }
  }

  /** A mark on the leader's own row leaves the best rival where it was. */
  lemma BestRivalIgnoresLeaderMark(xs: seq<Intent>, leader: Intent, at: nat)
    requires DistinctIntents(xs) && leader in xs
    ensures BestRival(MarkApplied(xs, leader.id, at), Some(leader.user)) == BestRival(xs, Some(leader.user))
  {
    var k :| 0 <= k < |xs| && xs[k] == leader;
    assert forall i :: 0 <= i < |xs| && xs[i].id == leader.id ==> i == k;
    SameRivals(xs, MarkApplied(xs, leader.id, at), Some(leader.user));
  }

  // ---- One automatic bid ------------------------------------------------------------

  /** The next executable amount is always a legal bid. */
  lemma NextAmountIsLegal(a: Auction)
    requires LiveRow(a)
    ensures Classify(a, NextAmount(a)) in {Accepted, AcceptedSold}
    ensures a.rules.cap.Some? ==> NextAmount(a) <= a.rules.cap.value
    ensures SameGrid(NextAmount(a), a.rules.start, a.rules.increment)
  {
    var n := a.rules.increment;
    GridShift(a.price, a.price, n);
    GridShift(a.price, a.rules.start, n);
    if a.rules.cap.Some? {
      GridShift(a.rules.start, a.rules.start, n);
      GridJoin(a.price, a.rules.start, a.rules.start, n);
      GridJoin(a.rules.cap.value, a.rules.start, a.price, n);
      GridGap(a.rules.cap.value, a.price, n);
    }
  }

  /** An amount within reach is legal exactly when it is on the grid. */
  lemma LegalOnGrid(a: Auction, amount: int)
    requires LiveRow(a)
    requires NextAmount(a) <= amount && (a.rules.cap.Some? ==> amount <= a.rules.cap.value)
    ensures Classify(a, amount) in {Accepted, AcceptedSold} <==> SameGrid(amount, a.rules.start, a.rules.increment)
  {
    var n, base := a.rules.increment, PreviousPrice(a);
    GridShift(a.rules.start, a.rules.start, n);
    assert SameGrid(base, a.rules.start, n);
    GridJoin(base, a.rules.start, a.rules.start, n);
    if SameGrid(amount, a.rules.start, n) { GridJoin(amount, a.rules.start, base, n); }
    if SameGrid(amount, base, n) { GridJoin(amount, base, a.rules.start, n); }
  }

  /** Taking a legal bid leaves a live row, or a sold one at the cap. */
  lemma AcceptedRowLaws(a: Auction, user: UserId, amount: int, now: int)
    requires LiveRow(a) && Classify(a, amount) in {Accepted, AcceptedSold}
    ensures
      var (row, result) := AcceptedRow(a, user, amount, now);
      && row.price == amount && row.winner == Some(user) && row.acceptedCount == a.acceptedCount + 1
      && PriceOnGrid(row) && amount >= NextAmount(a)
      && (result == ResultSold <==> row.status == Sold)
      && (row.status == Sold <==> a.rules.cap == Some(amount))
      && (row.status != Sold ==> LiveRow(row))
  {
    LegalOnGrid(a, amount);
  }

  /** A defence is never below the next amount: the branch that would skip it is dead. */
  lemma DefenceIsReachable(a: Auction, d: Intent, challenger: Intent)
    requires LiveRow(a) && Outranks(d, challenger) && challenger.max >= NextAmount(a)
    ensures
      var amount := DefendAmount(d, challenger, a.rules);
      && NextAmount(a) <= amount <= d.max
      && (a.rules.cap.Some? ==> amount <= a.rules.cap.value)
      && (a.rules.cap != Some(amount) ==> amount >= challenger.max)
  {
    NextAmountIsLegal(a);
  }

  /** What an automatic bid does to the auction row and the intent rows. */
  lemma AwardEffect(w: World, award: Award, clock: Clock)
    requires ApplyAward(w, award, clock).Ok?
    ensures
      var (next, result) := ApplyAward(w, award, clock).value;
      var now := AutoTime(clock, w.auction.seqNo + 1);
      && w.auction.endAt.Some?
      && Classify(w.auction, award.amount) in {Accepted, AcceptedSold}
      && next.auction == AcceptedRow(w.auction, award.user, award.amount, now).0.(seqNo := w.auction.seqNo + 1)
      && result == AcceptedRow(w.auction, award.user, award.amount, now).1
      && next.intents == Marked(w.intents, award, w.auction.seqNo + 1)
  {
  }

  /** An automatic bid is an accepted bid, its bid row and its marks. */
  lemma AwardShape(w: World, award: Award, clock: Clock)
    requires ApplyAward(w, award, clock).Ok?
    ensures
      var accepted := ApplyAccepted(w, award.user, award.amount, AutoTime(clock, w.auction.seqNo + 1), clock.ordered);
      && accepted.Ok?
      && var moved := accepted.value.0;
      var at := moved.auction.seqNo;
      && at == w.auction.seqNo + 1 && moved.bids == w.bids && moved.intents == w.intents
      && !KeyTaken(w.bids, award.user, AutoForm(award.id, at))
      && ApplyAward(w, award, clock).value.0
         == moved.(bids := w.bids + [AwardRow(award, at)]).(intents := Marked(w.intents, award, at))
  {
  }

  lemma MarkedKeepsOwners(xs: seq<Intent>, award: Award, at: nat)
    ensures SameOwners(xs, Marked(xs, award, at))
    ensures DistinctIntents(xs) ==> DistinctIntents(Marked(xs, award, at))
  {
  }

  lemma RivalsAfterDefence(xs: seq<Intent>, leader: Option<UserId>, c: Intent, award: Award, at: nat)
    requires DistinctIntents(xs) && IsBest(xs, leader, c) && award.beaten == Some(c.id)
    ensures forall y :: y in Marked(xs, award, at) && IsRival(y, leader) ==> y.max <= c.max
  {
    var ys := Marked(xs, award, at);
    forall y | y in ys && IsRival(y, leader) ensures y.max <= c.max {
      var i :| 0 <= i < |ys| && ys[i] == y;
      assert xs[i] in xs && IsRival(xs[i], leader);
    }
  }

  /** After the leader beats off its best rival nothing else moves. */
  lemma DefenceEndsIt(w: World, d: Intent, c: Intent, clock: Clock)
    requires LiveRow(w.auction) && DistinctIntents(w.intents)
    requires w.auction.winner == Some(d.user)
    requires BestRival(w.intents, w.auction.winner) == Some(c)
    requires Outranks(d, c) && c.max >= NextAmount(w.auction)
    requires ApplyAward(w, Defence(d, c, w.auction.rules), clock).Ok?
    ensures
      var next := ApplyAward(w, Defence(d, c, w.auction.rules), clock).value.0;
      Awards(next.auction, next.intents) == []
  {
    var award := Defence(d, c, w.auction.rules);
    var next := ApplyAward(w, award, clock).value.0;
    AwardEffect(w, award, clock);
    DefenceIsReachable(w.auction, d, c);
    AcceptedRowLaws(w.auction, d.user, award.amount, AutoTime(clock, w.auction.seqNo + 1));
    BestRivalIsBest(w.intents, w.auction.winner);
    RivalsAfterDefence(w.intents, w.auction.winner, c, award, next.auction.seqNo);
    MarkedKeepsOwners(w.intents, award, next.auction.seqNo);
    BestRivalIsBest(next.intents, next.auction.winner);
  }

  /** A challenger that takes the lead outranks everyone it leaves behind, the old leader included. */
  lemma ChallengerLeads(xs: seq<Intent>, leader: Option<UserId>, r: Intent, q: Intent)
    requires DistinctIntents(xs) && IsBest(xs, leader, r)
    requires LeaderIntent(xs, leader).Some? ==> !Outranks(LeaderIntent(xs, leader).value, r)
    requires q in xs && IsRival(q, Some(r.user))
    ensures Outranks(r, q)
  {
    LeaderIntentIs(xs, leader);
    var j, k :| 0 <= j < |xs| && 0 <= k < |xs| && xs[j] == q && xs[k] == r;
    assert xs[j].id != xs[k].id by { assert j != k; }
  }

  /** The row of `r` after the mark is the new leader's intent. */
  lemma NewLeaderIntent(xs: seq<Intent>, r: Intent, at: nat)
    requires DistinctIntents(xs) && r in xs && r.status == IntentActive
    ensures LeaderIntent(MarkApplied(xs, r.id, at), Some(r.user)) == Some(r.(lastAppliedSeq := Some(at)))
  {
    var ys := MarkApplied(xs, r.id, at);
    var k :| 0 <= k < |xs| && xs[k] == r;
    assert ys[k] == r.(lastAppliedSeq := Some(at));
    LeaderIntentIs(ys, Some(r.user));
  }

  /** After a challenger takes the lead, the rest of the formula is what its new state asks for. */
  lemma ChallengeThenDefence(w: World, r: Intent, clock: Clock)
    requires LiveRow(w.auction) && DistinctIntents(w.intents)
    requires BestRival(w.intents, w.auction.winner) == Some(r) && r.max >= NextAmount(w.auction)
    requires
      var own := LeaderIntent(w.intents, w.auction.winner);
      own.Some? ==> !Outranks(own.value, r)
    requires ApplyAward(w, Award(r.id, r.user, NextAmount(w.auction), None), clock).Ok?
    ensures
      var next := ApplyAward(w, Award(r.id, r.user, NextAmount(w.auction), None), clock).value.0;
      Awards(next.auction, next.intents) == Awards(w.auction, w.intents)[1..]
  {
    var m := NextAmount(w.auction);
    var award := Award(r.id, r.user, m, None);
    var next := ApplyAward(w, award, clock).value.0;
    AwardEffect(w, award, clock);
    AcceptedRowLaws(w.auction, r.user, m, AutoTime(clock, w.auction.seqNo + 1));
    BestRivalIsBest(w.intents, w.auction.winner);
    BestRivalIgnoresLeaderMark(w.intents, r, next.auction.seqNo);
    NewLeaderIntent(w.intents, r, next.auction.seqNo);
    var q := BestRival(w.intents, Some(r.user));
    BestRivalIsBest(w.intents, Some(r.user));
    if q.Some? { ChallengerLeads(w.intents, w.auction.winner, r, q.value); }
  }

  /** The formula follows its own first step: placing the first award leaves exactly the others to place. */
  lemma AwardsUnfold(w: World, clock: Clock)
    requires LiveRow(w.auction) && DistinctIntents(w.intents)
    requires Awards(w.auction, w.intents) != []
    requires ApplyAward(w, Awards(w.auction, w.intents)[0], clock).Ok?
    ensures
      var award := Awards(w.auction, w.intents)[0];
      var (next, result) := ApplyAward(w, award, clock).value;
      && DistinctIntents(next.intents)
      && next.auction.price == award.amount && next.auction.winner == Some(award.user)
      && next.auction.acceptedCount == w.auction.acceptedCount + 1
      && (next.auction.status == Sold <==> w.auction.rules.cap == Some(award.amount))
      && Awards(next.auction, next.intents) == Awards(w.auction, w.intents)[1..]
      && (next.auction.status == Sold || LiveRow(next.auction))
      && next.auction.rules == w.auction.rules
  {
    var own, rival := LeaderIntent(w.intents, w.auction.winner), BestRival(w.intents, w.auction.winner);
    var award := Awards(w.auction, w.intents)[0];
    LeaderIntentIs(w.intents, w.auction.winner);
    AwardEffect(w, award, clock);
    MarkedKeepsOwners(w.intents, award, w.auction.seqNo + 1);
    AcceptedRowLaws(w.auction, award.user, award.amount, AutoTime(clock, w.auction.seqNo + 1));
    if own.Some? && Outranks(own.value, rival.value) {
      DefenceEndsIt(w, own.value, rival.value, clock);
    } else {
      ChallengeThenDefence(w, rival.value, clock);
    }
  }

  // ---- The whole settlement ---------------------------------------------------------

  /** Only one open order may exist, so a settlement starts without one. */
  ghost predicate Settleable(w: World) {
    LiveRow(w.auction) && DistinctIntents(w.intents) && w.orders == []
  }

  /** Some award finds the key of its bid row already used by a row of its user. */
  ghost predicate Blocked(bids: seq<BidRow>, awards: seq<Award>, seqNo: nat) {
    exists k :: 0 <= k < |awards| && KeyTaken(bids, awards[k].user, AutoForm(awards[k].id, seqNo + k + 1))
  }

  ghost predicate OffGrid(a: Auction, awards: seq<Award>) {
    awards != [] && !SameGrid(awards[|awards| - 1].amount, a.rules.start, a.rules.increment)
  }

  /** A placed award never stands in the way of the next: their keys differ in the number. */
  lemma BlockedUnfolds(bids: seq<BidRow>, awards: seq<Award>, seqNo: nat)
    requires awards != [] && !KeyTaken(bids, awards[0].user, AutoForm(awards[0].id, seqNo + 1))
    ensures Blocked(bids, awards, seqNo) <==> Blocked(bids + [AwardRow(awards[0], seqNo + 1)], awards[1..], seqNo + 1)
  {
    var more, rest := bids + [AwardRow(awards[0], seqNo + 1)], awards[1..];
    forall k | 0 <= k < |rest|
      ensures KeyTaken(more, rest[k].user, AutoForm(rest[k].id, seqNo + 1 + k + 1))
         <==> KeyTaken(bids, awards[k + 1].user, AutoForm(awards[k + 1].id, seqNo + (k + 1) + 1))
    {
      TakenAfter(bids, AwardRow(awards[0], seqNo + 1), rest[k].user, AutoForm(rest[k].id, seqNo + 1 + k + 1));
    }
    if Blocked(bids, awards, seqNo) {
      var k :| 0 <= k < |awards| && KeyTaken(bids, awards[k].user, AutoForm(awards[k].id, seqNo + k + 1));
      assert rest[k - 1] == awards[k];
      assert KeyTaken(more, rest[k - 1].user, AutoForm(rest[k - 1].id, seqNo + 1 + (k - 1) + 1));
    }
  }

  lemma TakenAfter(bids: seq<BidRow>, row: BidRow, user: UserId, key: BidKey)
    ensures KeyTaken(bids + [row], user, key) <==> KeyTaken(bids, user, key) || (row.user == user && row.key == key)
  {
    if KeyTaken(bids, user, key) {
      var i :| 0 <= i < |bids| && bids[i].user == user && bids[i].key == key;
      assert (bids + [row])[i] == bids[i];
    }
    assert (bids + [row])[|bids|] == row;
  }

  /** Where placing the awards leads: to the last of them, with nothing more to do and only the leader's intent active. */
  ghost predicate SettledAt(a: Auction, awards: seq<Award>, final: World) {
    && Awards(final.auction, final.intents) == []
    && (awards == [] ==> final.auction == a)
    && (awards != [] ==>
          && final.auction.price == awards[|awards| - 1].amount
          && final.auction.winner == Some(awards[|awards| - 1].user))
    && final.auction.acceptedCount == a.acceptedCount + |awards|
    && final.auction.rules == a.rules
    && (final.auction.status == Sold || LiveRow(final.auction))
    && (final.auction.status == Sold <==> a.rules.cap == Some(final.auction.price))
    && (forall x :: x in final.intents && x.status == IntentActive ==>
          LiveRow(final.auction) && final.auction.winner == Some(x.user) && x.max >= NextAmount(final.auction))
  }

  /** The state after the first award, for what follows. */
  lemma FirstAwardLeads(w: World, clock: Clock)
    requires Settleable(w) && Awards(w.auction, w.intents) != []
    requires ApplyAward(w, Awards(w.auction, w.intents)[0], clock).Ok?
    ensures
      var award := Awards(w.auction, w.intents)[0];
      var next := ApplyAward(w, award, clock).value.0;
      && (next.auction.status == Sold || Settleable(next))
      && next.bids == w.bids + [AwardRow(award, w.auction.seqNo + 1)] && next.auction.seqNo == w.auction.seqNo + 1
      && !KeyTaken(w.bids, award.user, AutoForm(award.id, w.auction.seqNo + 1))
  {
    AwardsUnfold(w, clock);
    AwardShape(w, Awards(w.auction, w.intents)[0], clock);
  }

  /** What becomes of the awards: they fail exactly when the last of them is off the grid or a bid row already holds the
      key of one. */
  ghost predicate Outcome(w: World, awards: seq<Award>, last: BidResult, r: Result<(World, BidResult), ApiError>) {
    && |awards| <= 2
    && (r.Err? <==> OffGrid(w.auction, awards) || Blocked(w.bids, awards, w.auction.seqNo))
    && (r.Ok? ==> SettledAt(w.auction, awards, r.value.0) && (awards == [] ==> r.value.1 == last))
  }

  lemma SettledUnfolds(a: Auction, b: Auction, awards: seq<Award>, final: World)
    requires awards != [] && SettledAt(b, awards[1..], final)
    requires b.price == awards[0].amount && b.winner == Some(awards[0].user)
    requires b.rules == a.rules && b.acceptedCount == a.acceptedCount + 1
    ensures SettledAt(a, awards, final)
  {
    if |awards| > 1 { assert awards[1..][|awards| - 2] == awards[|awards| - 1]; }
  }

  lemma OutcomeUnfolds(
      w: World, next: World, awards: seq<Award>, last: BidResult, result: BidResult,
      r: Result<(World, BidResult), ApiError>)
    requires awards != [] && |awards| <= 2 && Outcome(next, awards[1..], result, r)
    requires SameGrid(awards[0].amount, w.auction.rules.start, w.auction.rules.increment)
    requires !KeyTaken(w.bids, awards[0].user, AutoForm(awards[0].id, w.auction.seqNo + 1))
    requires next.bids == w.bids + [AwardRow(awards[0], w.auction.seqNo + 1)] && next.auction.seqNo == w.auction.seqNo + 1
    requires next.auction.price == awards[0].amount && next.auction.winner == Some(awards[0].user)
    requires next.auction.rules == w.auction.rules && next.auction.acceptedCount == w.auction.acceptedCount + 1
    ensures Outcome(w, awards, last, r)
  {
    BlockedUnfolds(w.bids, awards, w.auction.seqNo);
    if r.Ok? { SettledUnfolds(w.auction, next.auction, awards, r.value.0); }
    if |awards| == 2 { assert awards[1..][0] == awards[1]; }
  }

  /** Placing the awards ends at the last of them. It fails exactly when that one is off the grid or a bid row of an
      awarded user already holds the key of an award. */
  lemma {:induction false} AwardsOutcome(w: World, last: BidResult, clock: Clock)
    requires Settleable(w)
    ensures Outcome(w, Awards(w.auction, w.intents), last, Settle(w, last, clock))
    decreases |Awards(w.auction, w.intents)|
  {
    var awards := Awards(w.auction, w.intents);
    if awards == [] {
      CloseLeavesLeader(w);
    } else {
      FirstAwardLegality(w, clock);
      if ApplyAward(w, awards[0], clock).Ok? {
        var (next, result) := ApplyAward(w, awards[0], clock).value;
        AwardsUnfold(w, clock);
        FirstAwardLeads(w, clock);
        if next.auction.status == Sold {
          CloseLeavesLeader(next);
        } else {
          AwardsOutcome(next, result, clock);
        }
        OutcomeUnfolds(w, next, awards, last, result, Settle(next, result, clock));
      } else {
        FirstAwardBlocks(w.auction, w.bids, awards);
      }
    }
  }

  lemma FirstAwardBlocks(a: Auction, bids: seq<BidRow>, awards: seq<Award>)
    requires 1 <= |awards| <= 2
    requires
      || !SameGrid(awards[0].amount, a.rules.start, a.rules.increment)
      || KeyTaken(bids, awards[0].user, AutoForm(awards[0].id, a.seqNo + 1))
    requires |awards| == 2 ==> SameGrid(awards[0].amount, a.rules.start, a.rules.increment)
    ensures OffGrid(a, awards) || Blocked(bids, awards, a.seqNo)
  {
    assert OffGrid(a, awards) || KeyTaken(bids, awards[0].user, AutoForm(awards[0].id, a.seqNo + 0 + 1));
  }

  /** The one open order apart, an award succeeds exactly when it is acceptable and its key is free. */
  lemma AwardVerdict(w: World, award: Award, clock: Clock)
    requires w.auction.endAt.Some? && w.orders == []
    ensures ApplyAward(w, award, clock).Ok? <==>
      && Classify(w.auction, award.amount) in {Accepted, AcceptedSold}
      && !KeyTaken(w.bids, award.user, AutoForm(award.id, w.auction.seqNo + 1))
  {
  }

  /** The first award is refused only for being off the grid, as a first of two never is, or for its key. */
  lemma FirstAwardLegality(w: World, clock: Clock)
    requires Settleable(w) && Awards(w.auction, w.intents) != []
    ensures
      var awards := Awards(w.auction, w.intents);
      && (ApplyAward(w, awards[0], clock).Ok? <==>
            && SameGrid(awards[0].amount, w.auction.rules.start, w.auction.rules.increment)
            && !KeyTaken(w.bids, awards[0].user, AutoForm(awards[0].id, w.auction.seqNo + 1)))
      && (|awards| == 2 ==> SameGrid(awards[0].amount, w.auction.rules.start, w.auction.rules.increment))
  {
    var award := Awards(w.auction, w.intents)[0];
    var own, rival := LeaderIntent(w.intents, w.auction.winner), BestRival(w.intents, w.auction.winner);
    NextAmountIsLegal(w.auction);
    if own.Some? && Outranks(own.value, rival.value) {
      DefenceIsReachable(w.auction, own.value, rival.value);
    }
    LegalOnGrid(w.auction, award.amount);
    AwardVerdict(w, award, clock);
  }

  /** When nothing moves any more, closing leaves at most the leader's own intent active. */
  lemma CloseLeavesLeader(w: World)
    requires DistinctIntents(w.intents) && Awards(w.auction, w.intents) == []
    requires LiveRow(w.auction) || w.auction.status == Sold
    ensures CloseIntents(w).auction == w.auction
    ensures Awards(w.auction, CloseIntents(w).intents) == []
    ensures forall x :: x in CloseIntents(w).intents && x.status == IntentActive ==>
      LiveRow(w.auction) && w.auction.winner == Some(x.user) && x.max >= NextAmount(w.auction)
  {
    var ys := CloseIntents(w).intents;
    BestRivalIsBest(w.intents, w.auction.winner);
    BestRivalIsBest(ys, w.auction.winner);
    forall x | x in ys && x.status == IntentActive
      ensures LiveRow(w.auction) && w.auction.winner == Some(x.user) && x.max >= NextAmount(w.auction)
    {
      var i :| 0 <= i < |ys| && ys[i] == x;
      assert w.intents[i] in w.intents;
    }
  }

  // ---- The formula in the words of the auction rules --------------------------------

  /** Every active bound is one the intent endpoint would accept: on the grid and within the cap. */
  ghost predicate AlignedIntents(a: Auction, xs: seq<Intent>) {
    forall i :: 0 <= i < |xs| && xs[i].status == IntentActive ==> AlignedBound(a, xs[i].max)
  }

  ghost predicate AlignedBound(a: Auction, max: int) {
    SameGrid(max, a.rules.start, a.rules.increment) && (a.rules.cap.Some? ==> max <= a.rules.cap.value)
  }

  /** Second-price with a one-step increment: who leads, and at what price, once everyone has bid. */
  function SealedBid(a: Auction, xs: seq<Intent>): (Option<UserId>, int) {
    var m, n := NextAmount(a), a.rules.increment;
    var own, rival := LeaderIntent(xs, a.winner), BestRival(xs, a.winner);
    if rival.None? || rival.value.max < m then (a.winner, a.price)
    else if own.Some? && Outranks(own.value, rival.value) then (a.winner, Min(own.value.max, rival.value.max + n))
    else
      var next := BestRival(xs, Some(rival.value.user));
      (Some(rival.value.user),
       if next.Some? && next.value.max >= m + n then Min(rival.value.max, next.value.max + n) else m)
  }

  lemma AlignedDefence(a: Auction, xs: seq<Intent>, d: Intent, c: Intent)
    requires AlignedIntents(a, xs) && d in xs && c in xs && Outranks(d, c)
    requires d.status == IntentActive && c.status == IntentActive
    ensures DefendAmount(d, c, a.rules) == Min(d.max, c.max + a.rules.increment)
    ensures SameGrid(DefendAmount(d, c, a.rules), a.rules.start, a.rules.increment)
  {
    var n, start := a.rules.increment, a.rules.start;
    assert AlignedBound(a, d.max) && AlignedBound(a, c.max);
    GridShift(c.max, start, n);
    GridShift(start, start, n);
    GridJoin(c.max, start, start, n);
    GridJoin(d.max, start, c.max, n);
  }

  /** On aligned bounds the last award is the sealed-bid outcome, and it is on the grid. */
  lemma LastAwardIsSealedBid(a: Auction, xs: seq<Intent>)
    requires LiveRow(a) && DistinctIntents(xs) && AlignedIntents(a, xs)
    ensures
      var awards := Awards(a, xs);
      if awards == [] then SealedBid(a, xs) == (a.winner, a.price)
      else
        var last := awards[|awards| - 1];
        SealedBid(a, xs) == (Some(last.user), last.amount) && SameGrid(last.amount, a.rules.start, a.rules.increment)
  {
    var own, rival := LeaderIntent(xs, a.winner), BestRival(xs, a.winner);
    BestRivalIsBest(xs, a.winner);
    LeaderIntentIs(xs, a.winner);
    NextAmountIsLegal(a);
    if rival.Some? && rival.value.max >= NextAmount(a) {
      if own.Some? && Outranks(own.value, rival.value) {
        AlignedDefence(a, xs, own.value, rival.value);
      } else {
        var next := BestRival(xs, Some(rival.value.user));
        BestRivalIsBest(xs, Some(rival.value.user));
        if next.Some? {
          ChallengerLeads(xs, a.winner, rival.value, next.value);
          AlignedDefence(a, xs, rival.value, next.value);
          var j :| 0 <= j < |xs| && xs[j] == next.value;
          assert AlignedBound(a, xs[j].max);
        }
      }
    }
  }

  function CapAt(rules: RuleColumns, amount: int): int {
    if rules.cap.Some? then Min(amount, rules.cap.value) else amount
  }

  /** Where the two bounds that decide meet, when they drive the price beyond the next amount. */
  function MeetingPrice(a: Auction, xs: seq<Intent>): Option<int> {
    var m, n := NextAmount(a), a.rules.increment;
    var own, rival := LeaderIntent(xs, a.winner), BestRival(xs, a.winner);
    if rival.None? || rival.value.max < m then None
    else if own.Some? && Outranks(own.value, rival.value) then
      Some(CapAt(a.rules, Min(rival.value.max + n, own.value.max)))
    else
      var next := BestRival(xs, Some(rival.value.user));
      if next.Some? && next.value.max >= m + n && a.rules.cap != Some(m)
      then Some(CapAt(a.rules, Min(next.value.max + n, rival.value.max)))
      else None
  }

  /** The two highest bounds meet beside the grid. */
  predicate Clash(a: Auction, xs: seq<Intent>) {
    MeetingPrice(a, xs).Some? && !SameGrid(MeetingPrice(a, xs).value, a.rules.start, a.rules.increment)
  }

  /** The settlement's last bid is off the grid exactly when the two highest bounds meet there. */
  lemma ClashIsOffGrid(a: Auction, xs: seq<Intent>)
    requires LiveRow(a) && DistinctIntents(xs)
    ensures OffGrid(a, Awards(a, xs)) <==> Clash(a, xs)
  {
    NextAmountIsLegal(a);
    LeaderIntentIs(xs, a.winner);
    BestRivalIsBest(xs, a.winner);
    var own, rival := LeaderIntent(xs, a.winner), BestRival(xs, a.winner);
    if rival.Some? && (own.None? || !Outranks(own.value, rival.value)) {
      BestRivalIsBest(xs, Some(rival.value.user));
      var next := BestRival(xs, Some(rival.value.user));
      if next.Some? { ChallengerLeads(xs, a.winner, rival.value, next.value); }
    }
  }

  // ---- The keys of the automatic bids -----------------------------------------------

  /** Users and keys of the automatic bids that are due, by the bounds: the leader's own if it defends itself, else the
      best rival's, and once more if that one then has to defend itself. At most two. */
  function DueKeys(a: Auction, xs: seq<Intent>): seq<(UserId, BidKey)> {
    if a.status != Active then []
    else
      var m, n := NextAmount(a), a.rules.increment;
      var own, rival := LeaderIntent(xs, a.winner), BestRival(xs, a.winner);
      if rival.None? || rival.value.max < m then []
      else if own.Some? && Outranks(own.value, rival.value) then [(own.value.user, AutoForm(own.value.id, a.seqNo + 1))]
      else
        var r := rival.value;
        var next := BestRival(xs, Some(r.user));
        [(r.user, AutoForm(r.id, a.seqNo + 1))]
        + if next.Some? && next.value.max >= m + n && a.rules.cap != Some(m)
          then [(r.user, AutoForm(r.id, a.seqNo + 2))] else []
  }

  lemma DueKeysAreAwards(a: Auction, xs: seq<Intent>)
    ensures |DueKeys(a, xs)| == |Awards(a, xs)|
    ensures forall k :: 0 <= k < |Awards(a, xs)| ==>
      DueKeys(a, xs)[k] == (Awards(a, xs)[k].user, AutoForm(Awards(a, xs)[k].id, a.seqNo + k + 1))
  {
  }

  /** A bid row holds one of these keys. */
  ghost predicate AnyTaken(bids: seq<BidRow>, keys: seq<(UserId, BidKey)>) {
    exists k :: 0 <= k < |keys| && KeyTaken(bids, keys[k].0, keys[k].1)
  }

  lemma BlockedByDueKeys(bids: seq<BidRow>, a: Auction, xs: seq<Intent>)
    ensures Blocked(bids, Awards(a, xs), a.seqNo) <==> AnyTaken(bids, DueKeys(a, xs))
  {
    var awards, keys := Awards(a, xs), DueKeys(a, xs);
    DueKeysAreAwards(a, xs);
    if AnyTaken(bids, keys) {
      var k :| 0 <= k < |keys| && KeyTaken(bids, keys[k].0, keys[k].1);
      assert KeyTaken(bids, awards[k].user, AutoForm(awards[k].id, a.seqNo + k + 1));
    }
    if Blocked(bids, awards, a.seqNo) {
      var k :| 0 <= k < |awards| && KeyTaken(bids, awards[k].user, AutoForm(awards[k].id, a.seqNo + k + 1));
      assert KeyTaken(bids, keys[k].0, keys[k].1);
    }
  }

  /** With aligned bounds the settlement succeeds exactly when no award's key is used, and then its outcome is the
      sealed-bid formula. */
  lemma SettlementIsSealedBid(w: World, last: BidResult, clock: Clock)
    requires Settleable(w) && AlignedIntents(w.auction, w.intents)
    ensures Settle(w, last, clock).Ok? <==> !Blocked(w.bids, Awards(w.auction, w.intents), w.auction.seqNo)
    ensures Settle(w, last, clock).Ok? ==>
      var final := Settle(w, last, clock).value.0;
      SealedBid(w.auction, w.intents) == (final.auction.winner, final.auction.price)
  {
    AwardsOutcome(w, last, clock);
    LastAwardIsSealedBid(w.auction, w.intents);
  }
}
