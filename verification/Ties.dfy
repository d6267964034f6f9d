/** Who wins a settlement and at what price, in the columns of the intent rows: the highest bound, among equal bounds the
    oldest, among equally old ones the smallest id. */
module Ties {
  import opened Wrappers
  import opened BidRules
  import opened AuctionState
  import opened Settlement
  import opened SettlementLaws

  /** x comes before y: a higher bound, or the same bound and older, or equally old and with the smaller id. */
  predicate ComesFirst(x: Intent, y: Intent) {
    || x.max > y.max
    || (x.max == y.max && x.createdAt < y.createdAt)
    || (x.max == y.max && x.createdAt == y.createdAt && x.id < y.id)
  }

  /** The active row that comes before every other active row. */
  ghost predicate IsTop(xs: seq<Intent>, top: Intent) {
    && top in xs && top.status == IntentActive
    && forall y :: y in xs && y.status == IntentActive && y != top ==> ComesFirst(top, y)
  }

  /** The highest active bound beside that row, if there is one. */
  ghost predicate IsSecondBound(xs: seq<Intent>, top: Intent, second: Option<int>) {
    && (second.Some? ==> exists y :: y in xs && y.status == IntentActive && y != top && y.max == second.value)
    && forall y :: y in xs && y.status == IntentActive && y != top ==> second.Some? && y.max <= second.value
  }

  function Least(x: int, y: int, cap: Option<int>): int {
    var least := if x < y then x else y;
    if cap.Some? && cap.value < least then cap.value else least
  }

  /** The first price that a new bidder can pay. */
  function FirstPrice(a: Auction): int {
    (if a.acceptedCount <= 0 then a.rules.start else a.price) + a.rules.increment
  }

  /** The price at which the top bound leads: one step above the other bound as far as that one can follow and its own
      bound and the cap allow, and else the first price it can bid, or the standing one if it leads already. */
  function FinalPrice(a: Auction, top: Intent, second: Option<int>): int {
    var first := FirstPrice(a);
    if a.winner == Some(top.user) then
      if second.Some? && second.value >= first
      then Least(top.max, second.value + a.rules.increment, a.rules.cap)
      else a.price
    else if second.Some? && second.value >= first + a.rules.increment && a.rules.cap != Some(first)
    then Least(top.max, second.value + a.rules.increment, a.rules.cap)
    else first
  }

  lemma DifferentUsers(xs: seq<Intent>, x: Intent, y: Intent)
    requires DistinctIntents(xs) && x in xs && y in xs && x != y
    ensures x.user != y.user && x.id != y.id
  {
  }

  /** The top row is the best rival, unless the leader owns it. */
  lemma TopIsBest(xs: seq<Intent>, leader: Option<UserId>, top: Intent)
    requires DistinctIntents(xs) && IsTop(xs, top) && leader != Some(top.user)
    ensures BestRival(xs, leader) == Some(top)
    ensures LeaderIntent(xs, leader).Some? ==> !Outranks(LeaderIntent(xs, leader).value, top)
  {
    BestRivalUnique(xs, leader, top);
    LeaderIntentIs(xs, leader);
  }

  /** Beside the owner of the top row, the best rival holds the second bound. */
  lemma SecondIsBest(xs: seq<Intent>, top: Intent, second: Option<int>)
    requires DistinctIntents(xs) && IsTop(xs, top) && IsSecondBound(xs, top, second)
    ensures
      var rival := BestRival(xs, Some(top.user));
      && (rival.None? <==> second.None?)
      && (rival.Some? ==> rival.value.max == second.value && Outranks(top, rival.value))
  {
    BestRivalIsBest(xs, Some(top.user));
    var rival := BestRival(xs, Some(top.user));
    if second.Some? {
      var y :| y in xs && y.status == IntentActive && y != top && y.max == second.value;
      DifferentUsers(xs, top, y);
      assert IsRival(y, Some(top.user));
    }
    if rival.Some? { assert rival.value != top; }
  }

  lemma TopLeads(xs: seq<Intent>, leader: Option<UserId>, top: Intent)
    requires DistinctIntents(xs) && IsTop(xs, top) && leader == Some(top.user)
    ensures LeaderIntent(xs, leader) == Some(top)
  {
    LeaderIntentIs(xs, leader);
  }

  /** A settlement that succeeds with an affordable bound in it: the top row's owner leads, at the final price. */
  lemma SettledByColumns(w: World, last: BidResult, clock: Clock, top: Intent, second: Option<int>)
    requires Settleable(w) && IsTop(w.intents, top) && IsSecondBound(w.intents, top, second)
    requires top.max >= FirstPrice(w.auction)
    requires Settle(w, last, clock).Ok?
    ensures
      var final := Settle(w, last, clock).value.0.auction;
      final.winner == Some(top.user) && final.price == FinalPrice(w.auction, top, second)
  {
    AwardsOutcome(w, last, clock);
    SecondIsBest(w.intents, top, second);
    if w.auction.winner == Some(top.user) {
      TopLeads(w.intents, w.auction.winner, top);
    } else {
      TopIsBest(w.intents, w.auction.winner, top);
    }
    LastAwardByColumns(w.auction, w.intents, top, second);
  }

  lemma LastAwardByColumns(a: Auction, xs: seq<Intent>, top: Intent, second: Option<int>)
    requires LiveRow(a) && DistinctIntents(xs) && IsTop(xs, top) && IsSecondBound(xs, top, second)
    requires top.max >= NextAmount(a)
    ensures
      var awards := Awards(a, xs);
      if awards == [] then a.winner == Some(top.user) && a.price == FinalPrice(a, top, second)
      else
        && awards[|awards| - 1].user == top.user
        && awards[|awards| - 1].amount == FinalPrice(a, top, second)
  {
    SecondIsBest(xs, top, second);
    if a.winner == Some(top.user) { TopLeads(xs, a.winner, top); } else { TopIsBest(xs, a.winner, top); }
  }

  /** Of two equal highest bounds the older one wins, at that bound, and of two equally old ones the smaller id. */
  lemma OlderBoundWins(w: World, last: BidResult, clock: Clock, winner: Intent, loser: Intent)
    requires Settleable(w) && Settle(w, last, clock).Ok?
    requires winner in w.intents && loser in w.intents && winner.status == loser.status == IntentActive
    requires winner.max == loser.max && winner != loser
    requires
      winner.createdAt < loser.createdAt || (winner.createdAt == loser.createdAt && winner.id < loser.id)
    requires forall y :: y in w.intents && y.status == IntentActive && y != winner && y != loser ==> y.max < winner.max
    requires winner.max >=
      (if w.auction.acceptedCount <= 0 then w.auction.rules.start else w.auction.price) + w.auction.rules.increment
    ensures Settle(w, last, clock).value.0.auction.winner == Some(winner.user)
    ensures Settle(w, last, clock).value.0.auction.price <= winner.max
  {
    SettledByColumns(w, last, clock, winner, Some(loser.max));
  }

  /** Without an affordable bound of anybody but the leader nothing moves. */
  lemma NothingAffordable(w: World, last: BidResult, clock: Clock)
    requires Settleable(w)
    requires forall y :: y in w.intents && y.status == IntentActive && w.auction.winner != Some(y.user) ==>
      y.max < FirstPrice(w.auction)
    ensures Settle(w, last, clock).Ok?
    ensures Settle(w, last, clock).value.0.auction == w.auction && Settle(w, last, clock).value.1 == last
  {
    BestRivalIsBest(w.intents, w.auction.winner);
    assert Awards(w.auction, w.intents) == [];
  }

  // ---- What becomes of the intent rows ----------------------------------------------------

  function ClosedRow(x: Intent, sold: bool, next: int): Intent {
    if x.status != IntentActive then x
    else if sold then x.(status := IntentTerminal)
    else if x.max < next then x.(status := IntentExhausted)
    else x
  }

  /** How one row may change: never its owner, bound or age, nothing at all once it is inactive, and its last number
      exactly by an award of its own. */
  ghost predicate RowMarked(x: Intent, y: Intent, own: Option<nat>) {
    && y.id == x.id && y.user == x.user && y.max == x.max && y.createdAt == x.createdAt
    && (x.status != IntentActive ==> y == x)
    && (x.status == IntentActive ==>
          && y.status in {IntentActive, IntentExhausted}
          && y.lastAppliedSeq == if own.Some? then own else x.lastAppliedSeq)
  }

  lemma OneMark(xs: seq<Intent>, award: Award, at: nat, i: nat)
    requires i < |xs| && award.beaten != Some(award.id)
    ensures
      var y := Marked(xs, award, at)[i];
      && RowMarked(xs[i], y, if xs[i].id == award.id then Some(at) else None)
      && (xs[i].status == IntentActive ==> (y.status == IntentExhausted <==> award.beaten == Some(xs[i].id)))
  {
  }

  /** Both awards belong to the owner of the top row. */
  lemma AwardsOfTop(a: Auction, xs: seq<Intent>, top: Intent, second: Option<int>)
    requires LiveRow(a) && DistinctIntents(xs) && IsTop(xs, top) && IsSecondBound(xs, top, second)
    requires top.max >= NextAmount(a)
    ensures forall k :: 0 <= k < |Awards(a, xs)| ==>
      Awards(a, xs)[k].id == top.id && Awards(a, xs)[k].beaten != Some(top.id)
  {
    var rival := RivalOfTop(xs, top, second);
    if a.winner == Some(top.user) { TopLeads(xs, a.winner, top); } else { TopIsBest(xs, a.winner, top); }
  }

  lemma RivalOfTop(xs: seq<Intent>, top: Intent, second: Option<int>) returns (rival: Option<Intent>)
    requires DistinctIntents(xs) && IsTop(xs, top) && IsSecondBound(xs, top, second)
    ensures rival == BestRival(xs, Some(top.user))
    ensures rival.Some? ==> rival.value.id != top.id && !Outranks(rival.value, top) && Outranks(top, rival.value)
  {
    SecondIsBest(xs, top, second);
    BestRivalIsBest(xs, Some(top.user));
    rival := BestRival(xs, Some(top.user));
    if rival.Some? { DifferentUsers(xs, top, rival.value); }
  }

  lemma EndStatus(w: World, last: BidResult, clock: Clock)
    requires Settleable(w) && Settle(w, last, clock).Ok?
    ensures
      var final := Settle(w, last, clock).value.0.auction;
      && final.status in {Active, Sold}
      && final.acceptedCount == w.auction.acceptedCount + |Awards(w.auction, w.intents)|
      && (final.status == Sold || NextAmount(final) == final.price + final.rules.increment)
  {
    AwardsOutcome(w, last, clock);
  }

  lemma AwardMark(w: World, award: Award, clock: Clock, i: nat)
    requires ApplyAward(w, award, clock).Ok? && i < |w.intents| && award.beaten != Some(award.id)
    ensures
      var (next, result) := ApplyAward(w, award, clock).value;
      && |next.intents| == |w.intents| && next.auction.seqNo == w.auction.seqNo + 1
      && RowMarked(w.intents[i], next.intents[i], if w.intents[i].id == award.id then Some(w.auction.seqNo + 1) else None)
      && (w.intents[i].id == award.id ==> next.intents[i].status == w.intents[i].status)
  {
    AwardEffect(w, award, clock);
    OneMark(w.intents, award, w.auction.seqNo + 1, i);
  }

  lemma MarksJoin(
      x: Intent, y: Intent, m: Intent, first: Option<nat>, rest: Option<nat>, number: Option<nat>, isOwn: bool)
    requires RowMarked(x, y, if isOwn then first else None) && RowMarked(y, m, rest)
    requires isOwn ==> y.status == x.status && number == if rest.Some? then rest else first
    requires !isOwn ==> rest == number == None
    ensures RowMarked(x, m, number)
  {
  }

  lemma CloseMark(w: World, i: nat)
    requires i < |w.intents|
    ensures |CloseIntents(w).intents| == |w.intents|
    ensures CloseIntents(w).intents[i] == ClosedRow(w.intents[i], w.auction.status != Active, NextAmount(w.auction))
  {
  }

  /** One row behind awards that all are this row's: as marked, with the number of the last one, and closed. */
  lemma {:induction false} RowApplied(w: World, awards: seq<Award>, last: BidResult, clock: Clock, id: IntentId, i: nat)
      returns (final: World, m: Intent, number: Option<nat>)
    requires ApplyAwards(w, awards, last, clock).Ok? && i < |w.intents|
    requires forall k :: 0 <= k < |awards| ==> awards[k].id == id && awards[k].beaten != Some(id)
    ensures final == ApplyAwards(w, awards, last, clock).value.0
    ensures |final.intents| == |w.intents| && final.auction.seqNo == w.auction.seqNo + |awards|
    ensures final.intents[i] == ClosedRow(m, final.auction.status != Active, NextAmount(final.auction))
    ensures RowMarked(w.intents[i], m, number) && (w.intents[i].id == id ==> m.status == w.intents[i].status)
    ensures number == if w.intents[i].id == id && |awards| > 0 then Some(w.auction.seqNo + |awards|) else None
    decreases |awards|
  {
    if awards == [] {
      CloseMark(w, i);
      final, m, number := CloseIntents(w), w.intents[i], None;
    } else {
      var (next, result) := ApplyAward(w, awards[0], clock).value;
      AwardMark(w, awards[0], clock, i);
      var mine;
      final, m, mine := RowApplied(next, awards[1..], result, clock, id, i);
      number := if w.intents[i].id == id then Some(w.auction.seqNo + |awards|) else None;
      MarksJoin(w.intents[i], next.intents[i], m, Some(w.auction.seqNo + 1), mine, number, w.intents[i].id == id);
    }
  }

  /** The column values of one row before and behind a settlement that ends at this price. */
  ghost predicate RowSettled(x: Intent, y: Intent, isTop: bool, number: Option<nat>, sold: bool, next: int) {
    && y.id == x.id && y.user == x.user && y.max == x.max && y.createdAt == x.createdAt
    && (x.status != IntentActive ==> y == x)
    && (x.status == IntentActive && isTop ==>
          && y.lastAppliedSeq == (if number.Some? then number else x.lastAppliedSeq)
          && y.status == if sold then IntentTerminal else if x.max >= next then IntentActive else IntentExhausted)
    && (x.status == IntentActive && !isTop ==>
          && y.lastAppliedSeq == x.lastAppliedSeq
          && (!sold ==> y.status == IntentExhausted)
          && (sold ==> y.status in {IntentExhausted, IntentTerminal}))
  }

  lemma RowIsSettled(x: Intent, m: Intent, y: Intent, isTop: bool, own: Option<nat>, sold: bool, minimum: int, next: int)
    requires RowMarked(x, m, own) && y == ClosedRow(m, sold, minimum) && (own.Some? ==> isTop) && (sold || minimum == next)
    requires isTop ==> m.status == x.status
    requires !isTop && !sold ==> y.status != IntentActive
    ensures RowSettled(x, y, isTop, own, sold, next)
  {
  }

  lemma RowFollows(x: Intent, m: Intent, final: World, i: nat, isTop: bool, a: Auction, n: nat, number: Option<nat>)
    requires i < |final.intents|
    requires final.auction.seqNo == a.seqNo + n && final.auction.acceptedCount == a.acceptedCount + n
    requires final.intents[i] == ClosedRow(m, final.auction.status == Sold, NextAmount(final.auction))
    requires
      final.auction.status == Sold || NextAmount(final.auction) == final.auction.price + final.auction.rules.increment
    requires RowMarked(x, m, number) && (isTop ==> m.status == x.status)
    requires number == if isTop && n > 0 then Some(a.seqNo + n) else None
    requires !isTop && final.auction.status != Sold ==> final.intents[i].status != IntentActive
    ensures
      var told := if final.auction.acceptedCount > a.acceptedCount then Some(final.auction.seqNo) else None;
      RowSettled(x, final.intents[i], isTop, if isTop then told else None, final.auction.status == Sold,
                 final.auction.price + final.auction.rules.increment)
  {
    RowIsSettled(x, m, final.intents[i], isTop, number, final.auction.status == Sold, NextAmount(final.auction),
      final.auction.price + final.auction.rules.increment);
  }

  lemma NoneLeftActive(w: World, last: BidResult, clock: Clock, top: Intent, i: nat)
    requires Settleable(w) && Settle(w, last, clock).Ok? && top in w.intents && i < |w.intents|
    ensures
      var final := Settle(w, last, clock).value.0;
      final.auction.winner == Some(top.user) && final.auction.status != Sold
      && w.intents[i] != top && i < |final.intents| && final.intents[i].user == w.intents[i].user
      ==> final.intents[i].status != IntentActive
  {
    var final := Settle(w, last, clock).value.0;
    AwardsOutcome(w, last, clock);
    if i < |final.intents| { assert final.intents[i] in final.intents; }
    if w.intents[i] != top { DifferentUsers(w.intents, top, w.intents[i]); }
  }

  /** Each intent row behind a settlement with an affordable bound: owners, bounds and ages stay and so do inactive rows;
      the top row carries the number of its last automatic bid and stays active while it can bid on; every other active
      row is spent, and a sold auction leaves none active. */
  lemma IntentsAfterSettlement(w: World, last: BidResult, clock: Clock, top: Intent, second: Option<int>, i: nat)
    requires Settleable(w) && IsTop(w.intents, top) && IsSecondBound(w.intents, top, second)
    requires top.max >= FirstPrice(w.auction)
    requires Settle(w, last, clock).Ok? && i < |w.intents|
    ensures
      var final := Settle(w, last, clock).value.0;
      var number := if final.auction.acceptedCount > w.auction.acceptedCount then Some(final.auction.seqNo) else None;
      && |final.intents| == |w.intents|
      && RowSettled(w.intents[i], final.intents[i], w.intents[i] == top, if w.intents[i] == top then number else None,
                    final.auction.status == Sold, final.auction.price + final.auction.rules.increment)
  {
    var awards := Awards(w.auction, w.intents);
    AwardsOfTop(w.auction, w.intents, top, second);
    var final, m, number := RowBehind(w, awards, last, clock, top, i);
    OthersAreSpent(w, last, clock, top, second, i);
    RowFollows(w.intents[i], m, final, i, w.intents[i] == top, w.auction, |awards|, number);
  }

  lemma OthersAreSpent(w: World, last: BidResult, clock: Clock, top: Intent, second: Option<int>, i: nat)
    requires Settleable(w) && IsTop(w.intents, top) && IsSecondBound(w.intents, top, second)
    requires top.max >= FirstPrice(w.auction) && Settle(w, last, clock).Ok? && i < |w.intents|
    ensures
      var final := Settle(w, last, clock).value.0;
      final.auction.status != Sold && w.intents[i] != top && i < |final.intents|
      && final.intents[i].user == w.intents[i].user
      ==> final.intents[i].status != IntentActive
  {
    SettledByColumns(w, last, clock, top, second);
    NoneLeftActive(w, last, clock, top, i);
  }

  /** The same behind a settlement, with the counts and the status of the final row. */
  lemma RowBehind(w: World, awards: seq<Award>, last: BidResult, clock: Clock, top: Intent, i: nat)
      returns (final: World, m: Intent, number: Option<nat>)
    requires Settleable(w) && Settle(w, last, clock).Ok? && awards == Awards(w.auction, w.intents)
    requires top in w.intents && i < |w.intents|
    requires forall k :: 0 <= k < |awards| ==> awards[k].id == top.id && awards[k].beaten != Some(top.id)
    ensures final == Settle(w, last, clock).value.0
    ensures
      var n, x, sold := |awards|, w.intents[i], final.auction.status == Sold;
      && |final.intents| == |w.intents|
      && final.auction.seqNo == w.auction.seqNo + n && final.auction.acceptedCount == w.auction.acceptedCount + n
      && final.intents[i] == ClosedRow(m, sold, NextAmount(final.auction))
      && (sold || NextAmount(final.auction) == final.auction.price + final.auction.rules.increment)
      && RowMarked(x, m, number) && (x == top ==> m.status == x.status)
      && number == (if x == top && n > 0 then Some(w.auction.seqNo + n) else None)
  {
    if w.intents[i] != top { DifferentUsers(w.intents, top, w.intents[i]); }
    final, m, number := RowApplied(w, awards, last, clock, top.id, i);
    EndStatus(w, last, clock);
  }
}
