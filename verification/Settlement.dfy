/** Proxy bidding: the outcome of settling the private maximum bids, stated as a sealed-bid formula. */
module Settlement {
  import opened Wrappers
  import opened AuctionState

  // ---- Ranking ----------------------------------------------------------------------

  /** ORDER BY max_amount_cents DESC, created_at ASC, id ASC. */
  predicate Outranks(a: Intent, b: Intent) {
    || a.max > b.max
    || (a.max == b.max && (a.createdAt < b.createdAt || (a.createdAt == b.createdAt && a.id < b.id)))
  }

  predicate IsRival(x: Intent, leader: Option<UserId>) {
    x.status == IntentActive && leader != Some(x.user)
  }

  /** The top-ranked active intent of anyone but the leader. */
  function BestRival(xs: seq<Intent>, leader: Option<UserId>): Option<Intent> {
    if xs == [] then None
    else
      var best, x := BestRival(xs[..|xs| - 1], leader), xs[|xs| - 1];
      if IsRival(x, leader) && (best.None? || Outranks(x, best.value)) then Some(x) else best
  }

  function LeaderIntent(xs: seq<Intent>, leader: Option<UserId>): Option<Intent> {
    if xs == [] then None
    else if xs[0].status == IntentActive && leader == Some(xs[0].user) then Some(xs[0])
    else LeaderIntent(xs[1..], leader)
  }

  /** The keys the table enforces: PRIMARY KEY (id), UNIQUE (auction_id, user_id). */
  ghost predicate DistinctIntents(xs: seq<Intent>) {
    forall i, j :: 0 <= i < j < |xs| ==> xs[i].id != xs[j].id && xs[i].user != xs[j].user
  }

  // ---- The sealed-bid formula -------------------------------------------------------

  /** One automatic bid: who bids, how much, and which challenger it beats off. */
  datatype Award = Award(id: IntentId, user: UserId, amount: int, beaten: Option<IntentId>)

  function Min(x: int, y: int): int {
    if x < y then x else y
  }

  function DefendAmount(defender: Intent, challenger: Intent, rules: RuleColumns): int {
    var wanted := if defender.max > challenger.max then challenger.max + rules.increment else challenger.max;
    var own := Min(wanted, defender.max);
    if rules.cap.Some? then Min(own, rules.cap.value) else own
  }

  function Defence(d: Intent, challenger: Intent, rules: RuleColumns): Award {
    Award(d.id, d.user, DefendAmount(d, challenger, rules), Some(challenger.id))
  }

  /** The automatic bids the present intents cause, in order. There are never more than two. */
  function Awards(a: Auction, xs: seq<Intent>): seq<Award> {
    if a.status != Active then []
    else
      var m, rival, own := NextAmount(a), BestRival(xs, a.winner), LeaderIntent(xs, a.winner);
      if rival.None? || rival.value.max < m then []
      else if own.Some? && Outranks(own.value, rival.value) then [Defence(own.value, rival.value, a.rules)]
      else
        var r := rival.value;
        var next := BestRival(xs, Some(r.user));
        [Award(r.id, r.user, m, None)]
        + if a.rules.cap != Some(m) && next.Some? && next.value.max >= m + a.rules.increment
          then [Defence(r, next.value, a.rules)] else []
  }

  // ---- Effects on the intent rows ---------------------------------------------------

  function MarkExhausted(xs: seq<Intent>, id: IntentId): seq<Intent> {
    seq(|xs|, i requires 0 <= i < |xs| =>
      if xs[i].id == id && xs[i].status == IntentActive then xs[i].(status := IntentExhausted) else xs[i])
  }

  function MarkApplied(xs: seq<Intent>, id: IntentId, atSeq: nat): seq<Intent> {
    seq(|xs|, i requires 0 <= i < |xs| =>
      if xs[i].id == id && xs[i].status == IntentActive then xs[i].(lastAppliedSeq := Some(atSeq)) else xs[i])
  }

  function ExhaustBelow(xs: seq<Intent>, minimum: int): seq<Intent> {
    seq(|xs|, i requires 0 <= i < |xs| =>
      if xs[i].status == IntentActive && xs[i].max < minimum then xs[i].(status := IntentExhausted) else xs[i])
  }

  function MarkTerminal(xs: seq<Intent>): seq<Intent> {
    seq(|xs|, i requires 0 <= i < |xs| =>
      if xs[i].status == IntentActive then xs[i].(status := IntentTerminal) else xs[i])
  }

  function AwardRow(award: Award, at: nat): BidRow {
    BidRow(award.user, AutoForm(award.id, at), award.amount, Some(at), true, AutoMaxBid)
  }

  function Marked(xs: seq<Intent>, award: Award, at: nat): seq<Intent> {
    var applied := MarkApplied(xs, award.id, at);
    if award.beaten.Some? then MarkExhausted(applied, award.beaten.value) else applied
  }

  /** The bid row and the marks behind an accepted automatic bid. */
  function Entered(accepted: Result<(World, BidResult), ApiError>, award: Award): Result<(World, BidResult), ApiError> {
    match accepted
    case Err(e) => Err(e)
    case Ok((moved, result)) =>
      match InsertBid(moved, AwardRow(award, moved.auction.seqNo))
      case Err(e) => Err(e)
      case Ok(placed) => Ok((placed.(intents := Marked(moved.intents, award, moved.auction.seqNo)), result))
  }

  /** One automatic bid with its bid row and its marks. It reads the clock anew. */
  function ApplyAward(w: World, award: Award, clock: Clock): Result<(World, BidResult), ApiError> {
    var now := AutoTime(clock, w.auction.seqNo + 1);
    Entered(ApplyAccepted(w, award.user, award.amount, now, clock.ordered), award)
  }

  /** What the last round of the loop does: close out the intents nothing will move any more. */
  function CloseIntents(w: World): World {
    if w.auction.status != Active then w.(intents := MarkTerminal(w.intents))
    else w.(intents := ExhaustBelow(w.intents, NextAmount(w.auction)))
  }

  function ApplyAwards(w: World, awards: seq<Award>, last: BidResult, clock: Clock): Result<(World, BidResult), ApiError>
    decreases |awards|
  {
    if awards == [] then Ok((CloseIntents(w), last))
    else
      match ApplyAward(w, awards[0], clock)
      case Err(e) => Err(e)
      case Ok((next, result)) => ApplyAwards(next, awards[1..], result, clock)
  }

  /** The specification of applyAutoMaxBid; `last` is the result reported when no automatic bid is placed. */
  function Settle(w: World, last: BidResult, clock: Clock): Result<(World, BidResult), ApiError> {
    ApplyAwards(w, Awards(w.auction, w.intents), last, clock)
  }
}
