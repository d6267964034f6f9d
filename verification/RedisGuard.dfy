/** The Redis bid guard: a projection of the auction row, as stale as it may be, that turns bids away early. */
module RedisGuard {
  import opened Wrappers
  import opened BidRules
  import opened AuctionState
  import opened SettlementLaws
  import opened Transactions
  import opened Invariants

  /** The hash in Redis. Absent values are 0; all times are in one unit. */
  datatype Projection = Projection(
    status: Status, price: int, start: int, increment: int, cap: int, endAt: int,
    seqNo: int, count: int, winner: Option<UserId>, projectedAt: int)

  function CapField(rules: Rules): int {
    if rules.cap.Some? then rules.cap.value else 0
  }

  /** writeGuardProjection: a full projection of the row. */
  function Project(a: Auction, now: int): Projection {
    Projection(a.status, a.price, a.rules.start, a.rules.increment, CapField(a.rules),
               if a.endAt.Some? then a.endAt.value else 0, a.seqNo, a.acceptedCount, a.winner, now)
  }

  // ---- The decision script ------------------------------------------------------------

  /** A rejection tells the client what the projection knows. */
  datatype GuardVerdict =
    Allow | Stale | Missing | Reject(code: RejectCode, seqNo: int, price: int, winner: Option<UserId>, endAt: int)

  function Base(p: Projection): int {
    if p.count <= 0 then p.start else p.price
  }

  predicate IsStale(p: Projection, now: int, maxStaleness: int) {
    p.projectedAt <= 0 || now - p.projectedAt > maxStaleness
  }

  function Rejection(p: Projection, code: RejectCode): GuardVerdict {
    Reject(code, p.seqNo, p.price, p.winner, p.endAt)
  }

  function Judge(p: Projection, user: UserId, amount: int, stale: bool): GuardVerdict {
    if p.status != Active then (if IsTerminal(p.status) then Rejection(p, NotActive) else Allow)
    else if p.winner.Some? && p.winner.value != "" && p.winner.value == user then Allow
    else if p.increment <= 0 then Stale
    else if p.cap > 0 && amount > p.cap then Rejection(p, BidAboveCap)
    else if stale && amount <= p.price then Rejection(p, BidTooLow)
    else if amount < Base(p) + p.increment then Rejection(p, BidTooLow)
    else if stale then Stale
    else if (amount - Base(p)) % p.increment != 0 then Rejection(p, BidIncrementMismatch)
    else Allow
  }

  function Guard(key: Option<Projection>, user: UserId, amount: int, now: int, maxStaleness: int): GuardVerdict {
    if key.None? then Missing else Judge(key.value, user, amount, IsStale(key.value, now, maxStaleness))
  }

  // ---- The key in Redis ---------------------------------------------------------------

  predicate IsAcceptedResponse(r: Response) {
    r.Decision? && !r.result.ResultRejected?
  }

  /** The refresh script: ignored unless newer, and only the moving fields are replaced. */
  function Refreshed(key: Option<Projection>, r: Response, now: int): Option<Projection>
    requires IsAcceptedResponse(r)
  {
    if key.None? || r.seqNo <= key.value.seqNo then key
    else
      var count := if key.value.count + 1 < 1 then 1 else key.value.count + 1;
      Some(key.value.(
        status := if r.result == ResultSold then Sold else Active, price := r.price, winner := r.winner,
        endAt := r.endAt, seqNo := r.seqNo, count := count, projectedAt := now))
  }

  datatype RefreshOutcome = Skipped | NoProjection | Outdated | Updated

  class GuardKey {
    var projection: Option<Projection>

    constructor ()
      ensures projection == None
    {
      projection := None;
    }

    method WriteProjection(p: Projection, now: int)
      modifies this
      ensures projection == Some(p.(projectedAt := now))
    {
      projection := Some(p.(projectedAt := now));
    }

    method RefreshAfterAcceptedBid(r: Response, now: int) returns (outcome: RefreshOutcome)
      modifies this
      ensures outcome == Skipped <==> !IsAcceptedResponse(r) || r.seqNo <= 0
      ensures outcome == NoProjection ==> old(projection) == None
      ensures outcome == Outdated ==> old(projection).Some? && r.seqNo <= old(projection).value.seqNo
      ensures outcome == Updated ==> old(projection).Some? && r.seqNo > old(projection).value.seqNo
      ensures projection == if outcome == Skipped then old(projection) else Refreshed(old(projection), r, now)
    {
      if !IsAcceptedResponse(r) || r.seqNo <= 0 {
        return Skipped;
      }
      if projection.None? {
        return NoProjection;
      }
      var p := projection.value;
      if r.seqNo <= p.seqNo {
        return Outdated;
      }
      var count := p.count + 1;
      if count < 1 {
        count := 1;
      }
      p := p.(status := if r.result == ResultSold then Sold else Active, price := r.price, winner := r.winner);
      projection := Some(p.(endAt := r.endAt, seqNo := r.seqNo, count := count, projectedAt := now));
      return Updated;
    }

    method Check(user: UserId, amount: int, now: int, maxStaleness: int) returns (verdict: GuardVerdict)
      ensures verdict == Guard(projection, user, amount, now, maxStaleness)
    {
      if projection.None? {
        return Missing;
      }
      var p := projection.value;
      var stale := p.projectedAt <= 0 || now - p.projectedAt > maxStaleness;
      if p.status != Active {
        if p.status != Sold && p.status != Ended && p.status != Cancelled {
          return Allow;
        }
        return Rejection(p, NotActive);
      }
      if p.winner.Some? && p.winner.value != "" && p.winner.value == user {
        return Allow;
      }
      if p.increment <= 0 {
        return Stale;
      }
      if p.cap > 0 && amount > p.cap {
        return Rejection(p, BidAboveCap);
      }
      var base := p.price;
      if p.count <= 0 {
        base := p.start;
      }
      if (stale && amount <= p.price) || amount < base + p.increment {
        return Rejection(p, BidTooLow);
      }
      if stale {
        return Stale;
      }
      if (amount - base) % p.increment != 0 {
        return Rejection(p, BidIncrementMismatch);
      }
      return Allow;
    }
  }

  // ---- Exactly when a projection is sound ---------------------------------------------------

  /** Before its end the row would take this bid, or ask to confirm it. */
  predicate Takes(a: Auction, user: UserId, amount: int) {
    a.status == Active && a.winner != Some(user) && Classify(a, amount) in {Accepted, AcceptedSold}
  }

  lemma TakesMeansNotRefused(a: Auction, user: UserId, amount: int, now: int, skip: bool)
    requires a.endAt.Some? && now <= a.endAt.value
    ensures Takes(a, user, amount) <==> !EvaluateBid(a, user, amount, now, skip).Refuse?
  {
  }

  /** With this projection the guard rejects nothing the row would take. */
  ghost predicate SoundFor(p: Projection, a: Auction, stale: bool) {
    forall user, amount :: Takes(a, user, amount) ==> !Judge(p, user, amount, stale).Reject?
  }

  /** The condition: the row's first amount clears the projected minimum, its last the projected cap, and, for a
      fresh projection, its grid lies on the projected one. */
  predicate Fits(p: Projection, a: Auction, stale: bool) {
    if a.status != Active || (p.status == Active && p.increment <= 0) then true
    else if p.status != Active then !IsTerminal(p.status)
    else
      var m := NextAmount(a);
      && (p.cap > 0 ==> a.rules.cap.Some? && a.rules.cap.value <= p.cap)
      && m >= Base(p) + p.increment
      && (stale ==> m > p.price)
      && (!stale ==>
            && SameGrid(m, Base(p), p.increment)
            && (a.rules.cap == Some(m) || a.rules.increment % p.increment == 0))
  }

  /** The amounts a live row takes: every step from the next amount up to the cap. */
  lemma TakenSteps(a: Auction, j: nat)
    requires LiveRow(a) && (a.rules.cap.Some? ==> NextAmount(a) + j * a.rules.increment <= a.rules.cap.value)
    ensures Classify(a, NextAmount(a) + j * a.rules.increment) in {Accepted, AcceptedSold}
  {
    var n := a.rules.increment;
    assert NextAmount(a) + j * n == PreviousPrice(a) + (j + 1) * n;
    MultipleMod(j + 1, n);
    MultipleBound(j + 1, n);
  }

  lemma AcceptedIsStep(a: Auction, amount: int) returns (j: nat)
    requires LiveRow(a) && Classify(a, amount) in {Accepted, AcceptedSold}
    ensures amount == NextAmount(a) + j * a.rules.increment && (a.rules.cap.Some? ==> amount <= a.rules.cap.value)
  {
    var n, q := a.rules.increment, (amount - PreviousPrice(a)) / a.rules.increment;
    assert amount == PreviousPrice(a) + q * n;
    assert q >= 1;
    assert q * n == (q - 1) * n + n;
    j := q - 1;
  }

  lemma FreshUser(x: Option<UserId>, y: Option<UserId>) returns (user: UserId)
    ensures x != Some(user) && y != Some(user)
  {
    assert "a" != "b" && "a" != "c" && "b" != "c" by { assert "a"[0] != "b"[0] && "a"[0] != "c"[0] && "b"[0] != "c"[0]; }
    user := if x != Some("a") && y != Some("a") then "a" else if x != Some("b") && y != Some("b") then "b" else "c";
  }

  /** Steps of the row's grid stay on a projected grid that its increment is a multiple of. */
  lemma StepsStayOnGrid(m: int, base: int, j: nat, n: int, coarse: int)
    requires coarse > 0 && SameGrid(m, base, coarse) && n % coarse == 0
    ensures SameGrid(m + j * n, base, coarse)
  {
    var k := n / coarse;
    assert n == k * coarse;
    assert j * n == (j * k) * coarse;
    MultipleMod(j * k, coarse);
    GridJoin(m + j * n, m, base, coarse);
  }

  lemma FitsIsEnough(p: Projection, a: Auction, stale: bool, user: UserId, amount: int)
    requires RowInv(a) && Fits(p, a, stale) && Takes(a, user, amount)
    ensures !Judge(p, user, amount, stale).Reject?
  {
    if p.status == Active && p.increment > 0 {
      var j := AcceptedIsStep(a, amount);
      MultipleBound(j, a.rules.increment);
      if !stale {
        if a.rules.cap == Some(NextAmount(a)) {
          assert amount == NextAmount(a);
        } else {
          StepsStayOnGrid(NextAmount(a), Base(p), j, a.rules.increment, p.increment);
        }
      }
    }
  }

  /** What the first, the second and the last amount of the row demand of the projection. */
  lemma FitsIsNeeded(p: Projection, a: Auction, stale: bool)
    requires RowInv(a) && SoundFor(p, a, stale)
    ensures Fits(p, a, stale)
  {
    if a.status == Active && !(p.status == Active && p.increment <= 0) {
      var user := FreshUser(a.winner, p.winner);
      var m, n := NextAmount(a), a.rules.increment;
      NextAmountIsLegal(a);
      assert Takes(a, user, m);
      if p.status == Active {
        if p.cap > 0 { CapIsNeeded(p, a, stale, user); }
        if !stale && a.rules.cap != Some(m) { SecondStepIsNeeded(p, a, user); }
      }
    }
  }

  lemma CapIsNeeded(p: Projection, a: Auction, stale: bool, user: UserId)
    requires RowInv(a) && a.status == Active && SoundFor(p, a, stale) && p.status == Active && p.increment > 0
    requires a.winner != Some(user) && p.winner != Some(user) && p.cap > 0
    ensures a.rules.cap.Some? && a.rules.cap.value <= p.cap
  {
    var amount;
    if a.rules.cap.None? {
      amount := NextAmount(a) + p.cap * a.rules.increment;
      TakenSteps(a, p.cap);
      ManySteps(p.cap, a.rules.increment);
    } else {
      amount := a.rules.cap.value;
      CapIsTaken(a);
    }
    assert Takes(a, user, amount);
  }

  lemma ManySteps(k: int, n: int)
    requires k >= 0 && n >= 1
    ensures k * n >= k
  {
    assert k * n == k * (n - 1) + k;
  }

  lemma CapIsTaken(a: Auction)
    requires LiveRow(a) && a.rules.cap.Some?
    ensures Classify(a, a.rules.cap.value) in {Accepted, AcceptedSold}
  {
    NextAmountIsLegal(a);
    LegalOnGrid(a, a.rules.cap.value);
  }

  lemma SecondStepIsNeeded(p: Projection, a: Auction, user: UserId)
    requires RowInv(a) && a.status == Active && SoundFor(p, a, false) && p.status == Active && p.increment > 0
    requires a.winner != Some(user) && p.winner != Some(user) && a.rules.cap != Some(NextAmount(a))
    ensures a.rules.increment % p.increment == 0
  {
    var m, n := NextAmount(a), a.rules.increment;
    NextAmountIsLegal(a);
    assert Takes(a, user, m);
    if a.rules.cap.Some? {
      GridShift(a.rules.start, a.rules.start, n);
      GridJoin(m, a.rules.start, a.rules.start, n);
      GridJoin(a.rules.cap.value, a.rules.start, m, n);
      GridGap(a.rules.cap.value, m, n);
    }
    TakenSteps(a, 1);
    assert Takes(a, user, m + n);
    GridJoin(m, Base(p), Base(p), p.increment);
    GridJoin(m + n, Base(p), m, p.increment);
  }

  /** For every projection and every row that satisfies the invariant: the guard never rejects what the row takes
      exactly when the projection fits the row. */
  lemma GuardIsSoundExactly(p: Projection, a: Auction, stale: bool)
    requires RowInv(a)
    ensures SoundFor(p, a, stale) <==> Fits(p, a, stale)
  {
    if Fits(p, a, stale) {
      forall user, amount | Takes(a, user, amount) ensures !Judge(p, user, amount, stale).Reject? {
        FitsIsEnough(p, a, stale, user, amount);
      }
    } else if SoundFor(p, a, stale) {
      FitsIsNeeded(p, a, stale);
    }
  }
}
