/** The settlement loop as the repository runs it: a ranked, limited listing of the intent rows inside a
    transaction, up to 100 rounds, each placing one bid or giving up. Proved equal to the sealed-bid formula. */
module ProxyBidding {
  import opened Wrappers
  import opened AuctionState
  import opened Settlement
  import opened SettlementLaws

  // ---- The ranked listing -----------------------------------------------------------

  function InsertRanked(l: seq<Intent>, x: Intent): seq<Intent> {
    if l == [] then [x]
    else if Outranks(x, l[0]) then [x] + l
    else [l[0]] + InsertRanked(l[1..], x)
  }

  /** WHERE status = 'ACTIVE' ORDER BY rank. */
  function Ranked(xs: seq<Intent>): seq<Intent> {
    if xs == [] then []
    else
      var front, x := Ranked(xs[..|xs| - 1]), xs[|xs| - 1];
      if x.status == IntentActive then InsertRanked(front, x) else front
  }

  ghost predicate StrictlyRanked(l: seq<Intent>) {
    forall i, j :: 0 <= i < j < |l| ==> Outranks(l[i], l[j])
  }

  /** What ORDER BY rank LIMIT n promises about its result. */
  ghost predicate IsListing(l: seq<Intent>, xs: seq<Intent>, limit: nat) {
    && StrictlyRanked(l)
    && |l| <= limit
    && (forall x :: x in l ==> x in xs && x.status == IntentActive)
    && (forall x, y :: x in xs && x.status == IntentActive && x !in l && y in l ==> Outranks(y, x))
    && (|l| < limit ==> forall x :: x in xs && x.status == IntentActive ==> x in l)
  }

  lemma {:induction false} InsertRankedLaws(l: seq<Intent>, x: Intent)
    requires StrictlyRanked(l) && forall y :: y in l ==> y.id != x.id
    ensures StrictlyRanked(InsertRanked(l, x))
    ensures forall y :: y in InsertRanked(l, x) <==> y in l || y == x
  {
    if l != [] {
      assert l == [l[0]] + l[1..];
      if Outranks(x, l[0]) {
        forall j | 0 <= j < |l| ensures Outranks(x, l[j]) {
          assert j > 0 ==> Outranks(l[0], l[j]);
        }
      } else {
        var rest := InsertRanked(l[1..], x);
        InsertRankedLaws(l[1..], x);
        forall j | 0 <= j < |rest| ensures Outranks(l[0], rest[j]) {
          assert rest[j] in l[1..] || rest[j] == x;
        }
      }
    }
  }

  lemma {:induction false} RankedLaws(xs: seq<Intent>)
    requires DistinctIntents(xs)
    ensures StrictlyRanked(Ranked(xs))
    ensures forall y :: y in Ranked(xs) <==> y in xs && y.status == IntentActive
  {
    if xs != [] {
      var front, x := xs[..|xs| - 1], xs[|xs| - 1];
      assert xs == front + [x];
      RankedLaws(front);
      forall y | y in Ranked(front) ensures y.id != x.id {
        var i :| 0 <= i < |front| && front[i] == y;
        assert xs[i].id != xs[|xs| - 1].id;
      }
      InsertRankedLaws(Ranked(front), x);
    }
  }

  /** No two rows of the listing share an owner. */
  lemma ListingOwners(l: seq<Intent>, xs: seq<Intent>, limit: nat, i: nat, j: nat)
    requires IsListing(l, xs, limit) && DistinctIntents(xs) && i < j < |l|
    ensures l[i].user != l[j].user
  {
    assert l[i] in xs && l[j] in xs;
    var p, q :| 0 <= p < |xs| && 0 <= q < |xs| && xs[p] == l[i] && xs[q] == l[j];
    assert Outranks(l[i], l[j]);
    assert p != q;
  }

  /** Two rows are enough: a listing of any length shows a rival whenever there is one. */
  lemma ListingShowsRival(l: seq<Intent>, xs: seq<Intent>, limit: nat, leader: Option<UserId>)
    requires IsListing(l, xs, limit) && limit >= 2 && DistinctIntents(xs)
    requires forall j :: 0 <= j < |l| ==> !IsRival(l[j], leader)
    ensures BestRival(xs, leader).None?
  {
    BestRivalIsBest(xs, leader);
    if |l| >= 2 {
      assert l[0] in l && l[1] in l;
      ListingOwners(l, xs, limit, 0, 1);
    }
  }

  /** The first rival of the listing is the best rival of the table, whatever the limit cut off. */
  lemma FirstRivalIsBest(l: seq<Intent>, xs: seq<Intent>, limit: nat, leader: Option<UserId>, i: nat)
    requires IsListing(l, xs, limit) && DistinctIntents(xs)
    requires i < |l| && IsRival(l[i], leader) && forall j :: 0 <= j < i ==> !IsRival(l[j], leader)
    ensures BestRival(xs, leader) == Some(l[i])
  {
    assert l[i] in l;
    forall y | y in xs && IsRival(y, leader) && y != l[i] ensures Outranks(l[i], y) {
      if y in l {
        var j :| 0 <= j < |l| && l[j] == y;
      }
    }
    BestRivalUnique(xs, leader, l[i]);
  }

  /** A defender the limit cut off would not have outranked a listed rival anyway. */
  lemma DefenderInListing(l: seq<Intent>, xs: seq<Intent>, limit: nat, leader: Option<UserId>, r: Intent)
    requires IsListing(l, xs, limit) && DistinctIntents(xs) && r in l
    ensures
      var own := LeaderIntent(xs, leader);
      own.Some? && Outranks(own.value, r) ==> own.value in l
  {
    LeaderIntentIs(xs, leader);
  }

  lemma ListedLeader(l: seq<Intent>, xs: seq<Intent>, limit: nat, leader: Option<UserId>, d: Intent)
    requires IsListing(l, xs, limit) && DistinctIntents(xs) && d in l && leader == Some(d.user)
    ensures LeaderIntent(xs, leader) == Some(d)
  {
    LeaderIntentIs(xs, leader);
  }

  // ---- The transaction --------------------------------------------------------------

  const INTENT_LIMIT: nat := 100
  const ROUND_LIMIT: nat := 100

  /** Some intents below the minimum have been marked exhausted, and nothing else has changed. */
  ghost predicate Dimmed(xs: seq<Intent>, ys: seq<Intent>, minimum: int) {
    && |xs| == |ys|
    && forall i :: 0 <= i < |xs| ==>
      || ys[i] == xs[i]
      || (xs[i].status == IntentActive && xs[i].max < minimum && ys[i] == xs[i].(status := IntentExhausted))
  }

  lemma MarkDims(xs: seq<Intent>, ys: seq<Intent>, minimum: int, x: Intent)
    requires DistinctIntents(xs) && Dimmed(xs, ys, minimum) && x in xs && x.max < minimum
    ensures Dimmed(xs, MarkExhausted(ys, x.id), minimum)
  {
    var k :| 0 <= k < |xs| && xs[k] == x;
    assert forall i :: 0 <= i < |xs| && xs[i].id == x.id ==> i == k;
  }

  lemma DimmedClosesAlike(xs: seq<Intent>, ys: seq<Intent>, minimum: int)
    requires Dimmed(xs, ys, minimum)
    ensures ExhaustBelow(xs, minimum) == ExhaustBelow(ys, minimum)
  {
    forall i | 0 <= i < |xs| ensures ExhaustBelow(xs, minimum)[i] == ExhaustBelow(ys, minimum)[i] {
    }
  }

  /** An open database transaction: a private copy of the rows, published only on commit. */
  class Tx {
    var rows: World

    constructor (db: World)
      ensures rows == db
    {
      rows := db;
    }

    method ListActiveMaxBidIntents(limit: int) returns (l: seq<Intent>)
      requires DistinctIntents(rows.intents)
      ensures IsListing(l, rows.intents, if limit <= 0 then INTENT_LIMIT else limit)
      ensures forall i, j :: 0 <= i < j < |l| ==>
        || l[i].max > l[j].max
        || (l[i].max == l[j].max && l[i].createdAt < l[j].createdAt)
        || (l[i].max == l[j].max && l[i].createdAt == l[j].createdAt && l[i].id < l[j].id)
    {
      var n: nat := if limit <= 0 then INTENT_LIMIT else limit;
      var all := Ranked(rows.intents);
      RankedLaws(rows.intents);
      l := if |all| <= n then all else all[..n];
      assert forall k :: 0 <= k < |l| ==> l[k] == all[k];
      forall x, y | x in all && x !in l && y in l ensures Outranks(y, x) {
        var i, j :| 0 <= i < |all| && 0 <= j < |l| && all[i] == x && l[j] == y;
        assert i >= |l|;
      }
    }

    /** One round's choice: the first award of the formula, or the exhausted rivals marked. */
    method NextAutoMaxBidStep() returns (step: Option<Award>)
      requires LiveRow(rows.auction) && DistinctIntents(rows.intents)
      modifies this
      ensures Awards(rows.auction, old(rows.intents)) != [] ==>
        rows == old(rows) && step == Some(Awards(rows.auction, rows.intents)[0])
      ensures Awards(rows.auction, old(rows.intents)) == [] ==>
        step == None && Dimmed(old(rows.intents), rows.intents, NextAmount(rows.auction))
      ensures rows == old(rows).(intents := rows.intents)
    {
      var a := rows.auction;
      ghost var xs := rows.intents;
      var intents := ListActiveMaxBidIntents(100);
      var minimum := NextAmount(a);
      var defender := FindDefender(intents, a.winner);
      for i := 0 to |intents|
        invariant rows == old(rows).(intents := rows.intents)
        invariant Dimmed(xs, rows.intents, minimum)
        invariant forall j :: 0 <= j < i && IsRival(intents[j], a.winner) ==> intents[j].max < minimum
        invariant (forall j :: 0 <= j < i ==> !IsRival(intents[j], a.winner)) ==> rows.intents == xs
      {
        var intent := intents[i];
        assert intent in intents;
        if a.winner == Some(intent.user) {
          continue;
        }
        if intent.max < minimum {
          MarkDims(xs, rows.intents, minimum, intent);
          rows := rows.(intents := MarkExhausted(rows.intents, intent.id));
          continue;
        }
        RoundChoice(intents, xs, a, defender, i);
        if defender.Some? && Outranks(defender.value, intent) {
          var amount := DefendAmount(defender.value, intent, a.rules);
          // The source marks the challenger exhausted and goes on if amount < minimum; RoundChoice excludes that.
          return Some(Award(defender.value.id, defender.value.user, amount, Some(intent.id)));
        }
        return Some(Award(intent.id, intent.user, minimum, None));
      }
      NoAffordableRival(intents, xs, a.winner, minimum);
      return None;
    }

    /** Placing one automatic bid: the clock is read, the row moves, the bid row and the marks follow. */
    method PlaceAward(award: Award, clock: Clock) returns (r: Result<BidResult, ApiError>)
      modifies this
      ensures r.Ok? <==> ApplyAward(old(rows), award, clock).Ok?
      ensures r.Ok? ==> (rows, r.value) == ApplyAward(old(rows), award, clock).value
      ensures r.Err? ==> r.error == ApplyAward(old(rows), award, clock).error && r.error != IterationLimit
    {
      var now := AutoTime(clock, rows.auction.seqNo + 1);
      var applied := ApplyAccepted(rows, award.user, award.amount, now, clock.ordered);
      if applied.Err? {
        return Err(applied.error);
      }
      var at := applied.value.0.auction.seqNo;
      rows := applied.value.0;
      var placed := InsertBid(rows, AwardRow(award, at));
      if placed.Err? {
        return Err(placed.error);
      }
      rows := placed.value;
      rows := rows.(intents := MarkApplied(rows.intents, award.id, at));
      if award.beaten.Some? {
        rows := rows.(intents := MarkExhausted(rows.intents, award.beaten.value));
      }
      return Ok(applied.value.1);
    }

    /** The automatic settlement: at most two bids, and the sealed-bid outcome. */
    method ApplyAutoMaxBid(clock: Clock) returns (r: Result<Option<BidResult>, ApiError>)
      requires LiveRow(rows.auction) && DistinctIntents(rows.intents)
      modifies this
      ensures r.Ok? <==> Settle(old(rows), ResultAccepted, clock).Ok?
      ensures r.Ok? ==>
        && rows == Settle(old(rows), ResultAccepted, clock).value.0
        && (r.value.None? <==> Awards(old(rows).auction, old(rows).intents) == [])
        && (r.value.Some? ==> r.value.value == Settle(old(rows), ResultAccepted, clock).value.1)
      ensures r.Err? ==> r.error == Settle(old(rows), ResultAccepted, clock).error && r.error != IterationLimit
    {
      ghost var awards := Awards(rows.auction, rows.intents);
      var last: Option<BidResult> := None;
      for attempts := 0 to ROUND_LIMIT
        invariant attempts <= |awards| <= 2
        invariant awards[attempts..] == Awards(rows.auction, rows.intents)
        invariant last.None? <==> attempts == 0
        invariant ApplyAwards(rows, awards[attempts..], if last.None? then ResultAccepted else last.value, clock)
               == Settle(old(rows), ResultAccepted, clock)
        invariant DistinctIntents(rows.intents)
        invariant rows.auction.status == Sold || LiveRow(rows.auction)
      {
        if rows.auction.status != Active {
          rows := rows.(intents := MarkTerminal(rows.intents));
          return Ok(last);
        }
        ghost var before := rows;
        var step := NextAutoMaxBidStep();
        if step.None? {
          DimmedClosesAlike(before.intents, rows.intents, NextAmount(rows.auction));
          rows := rows.(intents := ExhaustBelow(rows.intents, NextAmount(rows.auction)));
          return Ok(last);
        }
        assert awards[attempts..][1..] == awards[attempts + 1..];
        var placed := PlaceAward(step.value, clock);
        if placed.Err? {
          return Err(placed.error);
        }
        AwardsUnfold(before, clock);
        last := Some(placed.value);
      }
      return Err(IterationLimit);
    }
  }

  method FindDefender(intents: seq<Intent>, leader: Option<UserId>) returns (defender: Option<Intent>)
    ensures defender.None? ==> forall j :: 0 <= j < |intents| ==> leader != Some(intents[j].user)
    ensures defender.Some? ==> defender.value in intents && leader == Some(defender.value.user)
  {
    for i := 0 to |intents|
      invariant forall j :: 0 <= j < i ==> leader != Some(intents[j].user)
    {
      if leader == Some(intents[i].user) {
        return Some(intents[i]);
      }
    }
    return None;
  }

  /** At the first affordable rival of the listing the round decides as the formula does, and the defence it
      may place is not below the minimum. */
  lemma RoundChoice(l: seq<Intent>, xs: seq<Intent>, a: Auction, defender: Option<Intent>, i: nat)
    requires LiveRow(a) && DistinctIntents(xs) && IsListing(l, xs, INTENT_LIMIT)
    requires i < |l| && IsRival(l[i], a.winner) && l[i].max >= NextAmount(a)
    requires forall j :: 0 <= j < i && IsRival(l[j], a.winner) ==> l[j].max < NextAmount(a)
    requires defender.None? ==> forall j :: 0 <= j < |l| ==> a.winner != Some(l[j].user)
    requires defender.Some? ==> defender.value in l && a.winner == Some(defender.value.user)
    ensures forall j :: 0 <= j < i ==> !IsRival(l[j], a.winner)
    ensures Awards(a, xs) != []
    ensures
      if defender.Some? && Outranks(defender.value, l[i]) then
        && DefendAmount(defender.value, l[i], a.rules) >= NextAmount(a)
        && Awards(a, xs)[0] == Defence(defender.value, l[i], a.rules)
      else Awards(a, xs)[0] == Award(l[i].id, l[i].user, NextAmount(a), None)
  {
    forall j | 0 <= j < i ensures !IsRival(l[j], a.winner) { assert Outranks(l[j], l[i]); }
    FirstRivalIsBest(l, xs, INTENT_LIMIT, a.winner, i);
    LeaderIntentIs(xs, a.winner);
    DefenderInListing(l, xs, INTENT_LIMIT, a.winner, l[i]);
    if defender.Some? {
      ListedLeader(l, xs, INTENT_LIMIT, a.winner, defender.value);
      if Outranks(defender.value, l[i]) { DefenceIsReachable(a, defender.value, l[i]); }
    }
  }

  lemma NoAffordableRival(l: seq<Intent>, xs: seq<Intent>, leader: Option<UserId>, minimum: int)
    requires DistinctIntents(xs) && IsListing(l, xs, INTENT_LIMIT)
    requires forall j :: 0 <= j < |l| && IsRival(l[j], leader) ==> l[j].max < minimum
    ensures BestRival(xs, leader).Some? ==> BestRival(xs, leader).value.max < minimum
  {
    BestRivalIsBest(xs, leader);
    if BestRival(xs, leader).Some? {
      if forall j :: 0 <= j < |l| ==> !IsRival(l[j], leader) {
        ListingShowsRival(l, xs, INTENT_LIMIT, leader);
      } else {
        var j :| 0 <= j < |l| && IsRival(l[j], leader);
        assert l[j] in l;
        var r := BestRival(xs, leader).value;
        if r in l {
          var k :| 0 <= k < |l| && l[k] == r;
        } else {
          assert Outranks(l[j], r);
        }
      }
    }
  }
}
