/** Auction rules, the classification of a bid amount and the anti-sniping extension.
    Money is in whole cents and time in whole seconds, both unbounded integers. */
module BidRules {
  import opened Wrappers

  datatype Rules = Rules(
    start: int, increment: int, cap: Option<int>,
    duration: int, extendWindow: int, extendBy: int, maxExtend: int,
    fatFinger: Option<int>)

  // ---- Arithmetic on the price grid -------------------------------------------------

  /** `x` and `y` lie on the same grid of step `n`. */
  predicate SameGrid(x: int, y: int, n: int)
    requires n > 0
  {
    (x - y) % n == 0
  }

  lemma MultipleBound(k: int, n: int)
    requires n > 0
    ensures k >= 1 ==> k * n >= n
    ensures k <= -1 ==> k * n <= -n
  {
    if k >= 1 { assert (k - 1) * n >= 0; }
    if k <= -1 { assert (-k - 1) * n >= 0; }
  }

  lemma MultipleMod(k: int, n: int)
    requires n > 0
    ensures (k * n) % n == 0
  {
    var q, r := (k * n) / n, (k * n) % n;
    assert k * n == q * n + r;
    assert (k - q) * n == r;
    MultipleBound(k - q, n);
  }

  lemma GridJoin(x: int, y: int, z: int, n: int)
    requires n > 0 && SameGrid(x, y, n) && SameGrid(y, z, n)
    ensures SameGrid(x, z, n) && SameGrid(y, x, n)
  {
    var j, k := (x - y) / n, (y - z) / n;
    assert x - z == j * n + k * n == (j + k) * n;
    assert y - x == (-j) * n;
    MultipleMod(j + k, n);
    MultipleMod(-j, n);
  }

  lemma GridShift(x: int, y: int, n: int)
    requires n > 0
    ensures SameGrid(x + n, y, n) <==> SameGrid(x, y, n)
    ensures SameGrid(x, x, n) && SameGrid(x + n, x, n)
  {
    MultipleMod(1, n);
    if SameGrid(x, y, n) { GridJoin(x + n, x, y, n); }
    if SameGrid(x + n, y, n) {
      MultipleMod(-1, n);
      GridJoin(x, x + n, y, n);
    }
  }

  /** Two different grid points are at least one step apart. */
  lemma GridGap(x: int, y: int, n: int)
    requires n > 0 && SameGrid(x, y, n) && x > y
    ensures x >= y + n
  {
  }

  // ---- Rule validation --------------------------------------------------------------

  datatype ViolationCode = InvalidRule | CapUnreachable

  datatype Violation = Violation(code: ViolationCode, suggestedCaps: seq<int>)

  function Plain(broken: bool): seq<Violation> {
    if broken then [Violation(InvalidRule, [])] else []
  }

  function CapViolations(r: Rules): seq<Violation> {
    if r.cap.None? || r.increment <= 0 then []
    else
      var cap, minCap := r.cap.value, r.start + r.increment;
      if cap < minCap then [Violation(CapUnreachable, [minCap, minCap + r.increment])]
      else if (cap - r.start) % r.increment != 0 then
        var lower := cap - (cap - r.start) % r.increment;
        [Violation(CapUnreachable, [lower, lower + r.increment])]
      else []
  }

  function ValidateRule(r: Rules): seq<Violation> {
    Plain(r.start < 0)
    + Plain(r.increment <= 0)
    + Plain(r.duration < 30 || r.duration > 86400)
    + Plain(r.extendWindow < 10 || r.extendWindow > 30)
    + Plain(r.extendBy < 10 || r.extendBy > 30)
    + Plain(r.maxExtend < 1 || r.maxExtend > 10)
    + Plain(r.fatFinger.Some? && r.increment > 0 && r.fatFinger.value <= r.increment)
    + CapViolations(r)
  }

  /** What a frozen rule set guarantees to everything that runs under it. */
  ghost predicate SoundRules(r: Rules) {
    && r.start >= 0
    && r.increment > 0
    && 30 <= r.duration <= 86400
    && 10 <= r.extendWindow <= 30
    && 10 <= r.extendBy <= 30
    && 1 <= r.maxExtend <= 10
    && (r.fatFinger.Some? ==> r.fatFinger.value > r.increment)
    && (r.cap.Some? ==> CapReachable(r, r.cap.value))
  }

  ghost predicate CapReachable(r: Rules, cap: int)
    requires r.increment > 0
  {
    exists k: nat :: k >= 1 && cap == r.start + k * r.increment
  }

  lemma CapReachableIsGrid(r: Rules, cap: int)
    requires r.increment > 0
    ensures CapReachable(r, cap) <==> cap >= r.start + r.increment && SameGrid(cap, r.start, r.increment)
  {
    if CapReachable(r, cap) {
      var k: nat :| k >= 1 && cap == r.start + k * r.increment;
      MultipleMod(k, r.increment);
      assert (k - 1) * r.increment >= 0;
    }
    if cap >= r.start + r.increment && SameGrid(cap, r.start, r.increment) {
      var k := (cap - r.start) / r.increment;
      assert cap == r.start + k * r.increment;
    }
  }

  /** The validator is silent exactly on the sound rule sets. */
  lemma ValidateRuleExact(r: Rules)
    ensures ValidateRule(r) == [] <==> SoundRules(r)
  {
    if r.increment > 0 && r.cap.Some? { CapReachableIsGrid(r, r.cap.value); }
  }

  /** Every cap the validator suggests is one it would accept in place of the bad one. */
  lemma SuggestedCapsAreReachable(r: Rules, v: Violation, cap: int)
    requires v in CapViolations(r) && cap in v.suggestedCaps
    ensures CapViolations(r.(cap := Some(cap))) == []
  {
    var n, bad := r.increment, r.cap.value;
    if bad < r.start + n {
      GridShift(r.start, r.start, n);
      GridShift(r.start + n, r.start, n);
    } else {
      var lower := bad - (bad - r.start) % n;
      var k := (bad - r.start) / n;
      assert lower - r.start == k * n;
      MultipleMod(k, n);
      GridShift(lower, r.start, n);
      assert lower >= r.start + n by { assert k >= 1; assert k * n >= n; }
    }
  }

  // ---- Classification of an amount --------------------------------------------------

  datatype BidClass = Accepted | AcceptedSold | TooLow | IncrementMismatch | AboveCap

  function ClassifyBidAmount(
      start: int, current: int, increment: int, cap: Option<int>, amount: int, hasAcceptedBid: bool): BidClass
    requires increment > 0  // CHECK (increment_cents > 0) on the auctions table
  {
    if cap.Some? && amount > cap.value then AboveCap
    else
      var base := if hasAcceptedBid then current else start;
      if amount < base + increment then TooLow
      else if (amount - base) % increment != 0 then IncrementMismatch
      else if cap.Some? && amount == cap.value then AcceptedSold
      else Accepted
  }

  /** A bid is taken exactly when it is a whole, positive number of steps above the base and within the cap;
      it ends the auction exactly when it meets the cap. */
  lemma ClassifyExact(start: int, current: int, increment: int, cap: Option<int>, amount: int, hasBid: bool)
    requires increment > 0
    ensures
      var base := if hasBid then current else start;
      var verdict := ClassifyBidAmount(start, current, increment, cap, amount, hasBid);
      && (verdict in {Accepted, AcceptedSold} <==>
            (exists k: nat :: k >= 1 && amount == base + k * increment) && (cap.Some? ==> amount <= cap.value))
      && (verdict == AcceptedSold <==> verdict in {Accepted, AcceptedSold} && cap == Some(amount))
  {
    var base := if hasBid then current else start;
    var r := Rules(base, increment, None, 30, 10, 10, 1, None);
    CapReachableIsGrid(r, amount);
    assert CapReachable(r, amount) <==> exists k: nat :: k >= 1 && amount == base + k * increment;
  }

  // ---- Anti-sniping extension -------------------------------------------------------

  function CalculateExtension(end: int, now: int, window: int, extendBy: int, count: int, maxCount: int): int {
    if count >= maxCount then end
    else if end - now > window then end
    else if now + extendBy > end then now + extendBy
    else end
  }
}
