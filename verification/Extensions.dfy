/** The end time and what prolongs it. The clock is read anew for every automatic bid, so a transaction may extend more
    than once, and may do so behind the end: exactly when, and what bounds the end all the same. */
module Extensions {
  import opened Wrappers
  import opened BidRules
  import opened AuctionState
  import opened Settlement
  import opened SettlementLaws
  import opened Transactions
  import opened Invariants
  import opened MachineLaws
  import BlockedRuns

  // ---- One accepted bid -----------------------------------------------------------------

  /** The end time less what the extensions so far may have added. */
  function Slack(a: Auction): int
    requires a.endAt.Some?
  {
    a.endAt.value - a.extendCount * a.rules.extendBy
  }

  /** How far a reading of the clock lies behind the end. */
  function Late(reading: int, end: int): nat {
    if reading > end then reading - end else 0
  }

  predicate Extends(a: Auction, amount: int, now: int)
    requires a.endAt.Some?
  {
    && a.rules.cap != Some(amount) && a.extendCount < a.rules.maxExtend
    && a.endAt.value - now <= a.rules.extendWindow && now + a.rules.extendBy > a.endAt.value
  }

  /** An accepted bid that does not sell extends, from the reading of its clock on, exactly within the window and while
      extensions are left. It costs more than its share exactly when it comes behind the end. */
  lemma ExtendsExactly(a: Auction, user: UserId, amount: int, now: int)
    requires RowInv(a) && a.status == Active && Classify(a, amount) in {Accepted, AcceptedSold}
    ensures
      var row := AcceptedRow(a, user, amount, now).0;
      && (if Extends(a, amount, now)
          then row.endAt == Some(now + a.rules.extendBy) && row.extendCount == a.extendCount + 1
          else row.endAt == a.endAt && row.extendCount == a.extendCount)
      && row.rules == a.rules
      && (Slack(row) > Slack(a) <==> Extends(a, amount, now) && now > a.endAt.value)
      && Slack(row) <= Slack(a) + Late(now, a.endAt.value)
  {
    AcceptedRowLaws(a, user, amount, now);
    var step, n := a.rules.extendBy, a.extendCount;
    assert (n + 1) * step == n * step + step;
  }

  /** After an extension the next bid extends again exactly when it does not sell, an extension is left, and the clock
      has moved on since, by what the extension exceeds the window. */
  lemma ExtendsAgainExactly(a: Auction, user: UserId, amount: int, now: int, next: int, later: int)
    requires RowInv(a) && a.status == Active && Classify(a, amount) == Accepted && Extends(a, amount, now)
    ensures
      var row := AcceptedRow(a, user, amount, now).0;
      Extends(row, next, later) <==>
        a.rules.cap != Some(next) && a.extendCount + 1 < a.rules.maxExtend
        && later > now && later - now >= a.rules.extendBy - a.rules.extendWindow
  {
    ExtendsExactly(a, user, amount, now);
  }

  // ---- One transaction ------------------------------------------------------------------

  /** A bid of a transaction, with the reading of the clock it is decided by. */
  datatype Timed = Timed(amount: int, reading: int)

  /** The automatic bids that are due, in order. */
  function AutoPlan(a: Auction, xs: seq<Intent>, clock: Clock): seq<Timed> {
    var awards := Awards(a, xs);
    seq(|awards|, k requires 0 <= k < |awards| => Timed(awards[k].amount, AutoTime(clock, a.seqNo + k + 1)))
  }

  /** An accepted bid and, unless it sells, the automatic ones behind it. */
  function BidPlan(a: Auction, xs: seq<Intent>, user: UserId, amount: int, clock: Clock): seq<Timed>
    requires a.endAt.Some?
  {
    var led := LedRow(a, user, amount, clock);
    [Timed(amount, clock.first)] + if led.status == Sold then [] else AutoPlan(led, xs, clock)
  }

  predicate ExtendsAt(a: Auction, bid: Timed)
    requires a.endAt.Some?
  {
    Extends(a, bid.amount, bid.reading)
  }

  /** The first bid of the plan that extends. */
  ghost predicate FirstToExtend(a: Auction, plan: seq<Timed>, i: nat)
    requires a.endAt.Some?
  {
    i < |plan| && ExtendsAt(a, plan[i]) && forall k :: 0 <= k < i ==> !ExtendsAt(a, plan[k])
  }

  ghost predicate SomeExtends(a: Auction, plan: seq<Timed>)
    requires a.endAt.Some?
  {
    exists k :: 0 <= k < |plan| && ExtendsAt(a, plan[k])
  }

  /** The later bid does not sell, an extension is left for it, and the clock has moved on since the earlier one, by what
      an extension exceeds the window. */
  predicate ExtendsAfter(a: Auction, earlier: Timed, later: Timed) {
    && a.rules.cap != Some(later.amount) && a.extendCount + 1 < a.rules.maxExtend
    && later.reading > earlier.reading
    && later.reading - earlier.reading >= a.rules.extendBy - a.rules.extendWindow
  }

  ghost predicate SomeExtendsAfter(a: Auction, plan: seq<Timed>, i: nat)
    requires i < |plan|
  {
    exists j :: i < j < |plan| && ExtendsAfter(a, plan[i], plan[j])
  }

  /** No reading is behind an earlier one by as much as a second extension takes. */
  ghost predicate CloseReadings(rules: Rules, plan: seq<Timed>) {
    forall i, j :: 0 <= i < j < |plan| ==>
      plan[j].reading <= plan[i].reading || plan[j].reading - plan[i].reading < rules.extendBy - rules.extendWindow
  }

  /** The times after one bid of the plan, and after all of them. */
  function Prolonged(a: Auction, bid: Timed): Auction
    requires a.endAt.Some?
  {
    if ExtendsAt(a, bid)
    then a.(endAt := Some(bid.reading + a.rules.extendBy), extendCount := a.extendCount + 1) else a
  }

  function ProlongedBy(a: Auction, plan: seq<Timed>): (b: Auction)
    requires a.endAt.Some?
    ensures b.endAt.Some? && b.extendCount >= a.extendCount && b.rules == a.rules
    decreases |plan|
  {
    if plan == [] then a else ProlongedBy(Prolonged(a, plan[0]), plan[1..])
  }

  /** Until the first bid that extends nothing moves. */
  lemma {:induction false} FirstExtension(a: Auction, plan: seq<Timed>, i: nat)
    requires a.endAt.Some? && FirstToExtend(a, plan, i)
    ensures ProlongedBy(a, plan) == ProlongedBy(Prolonged(a, plan[i]), plan[i + 1..])
    decreases i
  {
    if i > 0 {
      assert !ExtendsAt(a, plan[0]);
      assert plan[1..][i - 1] == plan[i] && plan[1..][i..] == plan[i + 1..];
      FirstExtension(a, plan[1..], i - 1);
    }
  }

  lemma {:induction false} FirstExists(a: Auction, plan: seq<Timed>) returns (i: nat)
    requires a.endAt.Some? && SomeExtends(a, plan)
    ensures FirstToExtend(a, plan, i)
    decreases |plan|
  {
    if ExtendsAt(a, plan[0]) {
      i := 0;
    } else {
      var k :| 0 <= k < |plan| && ExtendsAt(a, plan[k]);
      assert plan[1..][k - 1] == plan[k];
      i := FirstExists(a, plan[1..]);
      i := i + 1;
    }
  }

  lemma {:induction false} NoneExtends(a: Auction, plan: seq<Timed>)
    requires a.endAt.Some? && !SomeExtends(a, plan)
    ensures ProlongedBy(a, plan) == a
    decreases |plan|
  {
    if plan != [] {
      assert !ExtendsAt(a, plan[0]);
      assert forall k :: 0 <= k < |plan[1..]| ==> plan[1..][k] == plan[k + 1];
      NoneExtends(a, plan[1..]);
    }
  }

  /** Some bid extends exactly when the row says so of one of them. */
  lemma ProlongedExactly(a: Auction, plan: seq<Timed>)
    requires a.endAt.Some?
    ensures ProlongedBy(a, plan).extendCount > a.extendCount <==> SomeExtends(a, plan)
  {
    if SomeExtends(a, plan) {
      var i := FirstExists(a, plan);
      FirstExtension(a, plan, i);
    } else {
      NoneExtends(a, plan);
    }
  }

  /** Behind an extension a bid extends again exactly under the condition on the readings. */
  lemma AfterExtension(a: Auction, earlier: Timed, later: Timed)
    requires a.endAt.Some? && ExtendsAt(a, earlier)
    ensures ExtendsAt(Prolonged(a, earlier), later) <==> ExtendsAfter(a, earlier, later)
  {
  }

  lemma SomeAfterExtension(a: Auction, plan: seq<Timed>, i: nat)
    requires a.endAt.Some? && i < |plan| && ExtendsAt(a, plan[i])
    ensures SomeExtends(Prolonged(a, plan[i]), plan[i + 1..]) <==> SomeExtendsAfter(a, plan, i)
  {
    var b, rest := Prolonged(a, plan[i]), plan[i + 1..];
    forall k | 0 <= k < |rest| ensures ExtendsAt(b, rest[k]) <==> ExtendsAfter(a, plan[i], plan[i + 1 + k]) {
      AfterExtension(a, plan[i], rest[k]);
    }
    if SomeExtendsAfter(a, plan, i) {
      var j :| i < j < |plan| && ExtendsAfter(a, plan[i], plan[j]);
      assert rest[j - i - 1] == plan[j];
    }
  }

  /** Two bids extend exactly when, after the first that does, some later one does. */
  lemma ProlongedTwiceExactly(a: Auction, plan: seq<Timed>)
    requires a.endAt.Some?
    ensures ProlongedBy(a, plan).extendCount > a.extendCount + 1 <==>
      exists i: nat :: FirstToExtend(a, plan, i) && SomeExtendsAfter(a, plan, i)
  {
    if SomeExtends(a, plan) {
      var i := FirstExists(a, plan);
      FirstExtension(a, plan, i);
      ProlongedExactly(Prolonged(a, plan[i]), plan[i + 1..]);
      SomeAfterExtension(a, plan, i);
      assert forall j: nat :: FirstToExtend(a, plan, j) ==> j == i;
    } else {
      NoneExtends(a, plan);
      assert forall j: nat :: !FirstToExtend(a, plan, j);
    }
  }

  lemma CloseReadingsExtendOnce(a: Auction, plan: seq<Timed>)
    requires a.endAt.Some? && CloseReadings(a.rules, plan)
    ensures ProlongedBy(a, plan).extendCount <= a.extendCount + 1
  {
    ProlongedTwiceExactly(a, plan);
  }

  // ---- What a transaction does follows its plan -------------------------------------------

  /** What an automatic bid does to the times. */
  lemma AwardTimes(w: World, award: Award, clock: Clock)
    requires CoreInv(w) && w.auction.status == Active && ApplyAward(w, award, clock).Ok?
    ensures
      var a, b, now := w.auction, ApplyAward(w, award, clock).value.0.auction, AutoTime(clock, w.auction.seqNo + 1);
      && a.endAt.Some? && b.endAt.Some? && b.rules == a.rules && b.seqNo == a.seqNo + 1
      && (if Extends(a, award.amount, now)
          then b.endAt == Some(now + a.rules.extendBy) && b.extendCount == a.extendCount + 1
          else b.endAt == a.endAt && b.extendCount == a.extendCount)
  {
    AwardEffect(w, award, clock);
    ExtendsExactly(w.auction, award.user, award.amount, AutoTime(clock, w.auction.seqNo + 1));
  }

  ghost predicate SameTimes(a: Auction, b: Auction) {
    b.endAt == a.endAt && b.extendCount == a.extendCount && b.rules == a.rules
  }

  lemma {:induction false} SameTimesProlong(a: Auction, b: Auction, plan: seq<Timed>)
    requires a.endAt.Some? && SameTimes(a, b)
    ensures SameTimes(ProlongedBy(a, plan), ProlongedBy(b, plan))
    decreases |plan|
  {
    if plan != [] { SameTimesProlong(Prolonged(a, plan[0]), Prolonged(b, plan[0]), plan[1..]); }
  }

  /** The plan of what is left after the first award is the rest of the plan. */
  lemma AutoPlanUnfolds(a: Auction, xs: seq<Intent>, b: Auction, ys: seq<Intent>, clock: Clock)
    requires Awards(a, xs) != [] && Awards(b, ys) == Awards(a, xs)[1..] && b.seqNo == a.seqNo + 1
    ensures AutoPlan(a, xs, clock) == [AutoPlan(a, xs, clock)[0]] + AutoPlan(b, ys, clock)
  {
  }

  lemma {:induction false} SettleFollowsPlan(w: World, last: BidResult, clock: Clock)
    requires CoreInv(w) && w.auction.status in {Active, Sold} && w.auction.endAt.Some? && Settle(w, last, clock).Ok?
    ensures
      SameTimes(ProlongedBy(w.auction, AutoPlan(w.auction, w.intents, clock)), Settle(w, last, clock).value.0.auction)
    decreases |Awards(w.auction, w.intents)|
  {
    var awards := Awards(w.auction, w.intents);
    if awards != [] {
      var (next, result) := ApplyAward(w, awards[0], clock).value;
      AwardsUnfold(w, clock);
      AwardKeepsCore(w, awards[0], clock);
      assert Settle(w, last, clock) == Settle(next, result, clock);
      SettleFollowsPlan(next, result, clock);
      AwardFollowsPlan(w, clock);
      SameTimesJoin(ProlongedBy(w.auction, AutoPlan(w.auction, w.intents, clock)),
        ProlongedBy(next.auction, AutoPlan(next.auction, next.intents, clock)),
        Settle(next, result, clock).value.0.auction);
    }
  }

  lemma SameTimesJoin(a: Auction, b: Auction, c: Auction)
    requires SameTimes(a, b) && SameTimes(b, c)
    ensures SameTimes(a, c)
  {
  }

  lemma AwardFollowsPlan(w: World, clock: Clock)
    requires CoreInv(w) && w.auction.status == Active && Awards(w.auction, w.intents) != []
    requires ApplyAward(w, Awards(w.auction, w.intents)[0], clock).Ok?
    ensures
      var next := ApplyAward(w, Awards(w.auction, w.intents)[0], clock).value.0;
      && w.auction.endAt.Some? && next.auction.endAt.Some?
      && SameTimes(ProlongedBy(w.auction, AutoPlan(w.auction, w.intents, clock)),
                   ProlongedBy(next.auction, AutoPlan(next.auction, next.intents, clock)))
  {
    var next := ApplyAward(w, Awards(w.auction, w.intents)[0], clock).value.0;
    AwardsUnfold(w, clock);
    AwardTimes(w, Awards(w.auction, w.intents)[0], clock);
    FirstOfPlan(w.auction, w.intents, next.auction, next.intents, clock);
  }

  lemma FirstOfPlan(a: Auction, xs: seq<Intent>, b: Auction, ys: seq<Intent>, clock: Clock)
    requires a.endAt.Some? && Awards(a, xs) != [] && Awards(b, ys) == Awards(a, xs)[1..] && b.seqNo == a.seqNo + 1
    requires SameTimes(Prolonged(a, Timed(Awards(a, xs)[0].amount, AutoTime(clock, a.seqNo + 1))), b)
    ensures SameTimes(ProlongedBy(a, AutoPlan(a, xs, clock)), ProlongedBy(b, AutoPlan(b, ys, clock)))
  {
    var plan := AutoPlan(a, xs, clock);
    AutoPlanUnfolds(a, xs, b, ys, clock);
    assert plan[1..] == AutoPlan(b, ys, clock);
    SameTimesProlong(Prolonged(a, plan[0]), b, plan[1..]);
  }

  lemma TakeFollowsPlan(w: World, user: UserId, key: BidKey, amount: int, clock: Clock)
    requires CoreInv(w) && w.auction.status == Active && w.auction.endAt.Some? && TakeBid(w, user, key, amount, clock).Ok?
    ensures
      SameTimes(ProlongedBy(w.auction, BidPlan(w.auction, w.intents, user, amount, clock)),
                TakeBid(w, user, key, amount, clock).value.0.auction)
  {
    var (taken, result) := Placed(w, user, key, amount, clock).value;
    PlacedKeepsCore(w, user, key, amount, clock);
    PlacedFollowsPlan(w, user, key, amount, clock);
    if result != ResultSold {
      SettleFollowsPlan(taken, result, clock);
      SameTimesJoin(ProlongedBy(w.auction, BidPlan(w.auction, w.intents, user, amount, clock)),
        ProlongedBy(taken.auction, AutoPlan(taken.auction, taken.intents, clock)),
        Settle(taken, result, clock).value.0.auction);
    }
  }

  lemma PlacedFollowsPlan(w: World, user: UserId, key: BidKey, amount: int, clock: Clock)
    requires CoreInv(w) && w.auction.status == Active && w.auction.endAt.Some? && Placed(w, user, key, amount, clock).Ok?
    ensures
      var (taken, result) := Placed(w, user, key, amount, clock).value;
      && taken.auction.endAt.Some?
      && SameTimes(
          ProlongedBy(w.auction, BidPlan(w.auction, w.intents, user, amount, clock)),
          if result == ResultSold then taken.auction
          else ProlongedBy(taken.auction, AutoPlan(taken.auction, taken.intents, clock)))
  {
    var (taken, result) := Placed(w, user, key, amount, clock).value;
    ExtendsExactly(w.auction, user, amount, clock.first);
    AcceptedRowLaws(w.auction, user, amount, clock.first);
    assert taken.auction == LedRow(w.auction, user, amount, clock) && taken.intents == w.intents;
    PlanOpens(w.auction, taken.auction, w.intents, user, amount, clock);
  }

  lemma PlanOpens(a: Auction, led: Auction, xs: seq<Intent>, user: UserId, amount: int, clock: Clock)
    requires a.endAt.Some? && led == LedRow(a, user, amount, clock)
    requires SameTimes(Prolonged(a, Timed(amount, clock.first)), led)
    ensures
      SameTimes(
        ProlongedBy(a, BidPlan(a, xs, user, amount, clock)),
        if led.status == Sold then led else ProlongedBy(led, AutoPlan(led, xs, clock)))
  {
    var plan := BidPlan(a, xs, user, amount, clock);
    assert plan[1..] == if led.status == Sold then [] else AutoPlan(led, xs, clock);
    SameTimesProlong(Prolonged(a, plan[0]), led, plan[1..]);
  }

  /** How often the row was extended from a to b. */
  function ExtensionsBetween(a: Auction, b: Auction): int {
    b.extendCount - a.extendCount
  }

  /** A whole bid transaction: it extends exactly when one of its bids does on the row it found, it extends again
      exactly when a bid behind the first that extends is timed late enough after it, and so never with close readings;
      with a clock that stands still all depends on the first bid. */
  lemma BidExtendsExactly(w: World, user: UserId, key: BidKey, amount: int, clock: Clock)
    requires CoreInv(w) && w.auction.status == Active && w.auction.endAt.Some? && TakeBid(w, user, key, amount, clock).Ok?
    ensures
      var a, plan := w.auction, BidPlan(w.auction, w.intents, user, amount, clock);
      var count := ExtensionsBetween(a, TakeBid(w, user, key, amount, clock).value.0.auction);
      && (count >= 1 <==> SomeExtends(a, plan))
      && (count >= 2 <==> exists i: nat :: FirstToExtend(a, plan, i) && SomeExtendsAfter(a, plan, i))
      && (CloseReadings(a.rules, plan) ==> count <= 1)
      && (StillReadings(plan) ==> count == if Extends(a, amount, clock.first) then 1 else 0)
  {
    var plan := BidPlan(w.auction, w.intents, user, amount, clock);
    TakeFollowsPlan(w, user, key, amount, clock);
    PlanIsExact(w.auction, plan);
    AcceptedRowLaws(w.auction, user, amount, clock.first);
    if StillReadings(plan) { StillPlan(w.auction, plan); }
  }

  /** The clock stands still during the transaction. */
  ghost predicate StillReadings(plan: seq<Timed>) {
    forall k :: 0 <= k < |plan| ==> plan[k].reading == plan[0].reading
  }

  lemma StillPlan(a: Auction, plan: seq<Timed>)
    requires a.endAt.Some? && plan != [] && StillReadings(plan)
    requires |plan| > 1 ==> a.rules.cap != Some(plan[0].amount)
    ensures CloseReadings(a.rules, plan) && (SomeExtends(a, plan) <==> ExtendsAt(a, plan[0]))
  {
  }

  lemma PlanIsExact(a: Auction, plan: seq<Timed>)
    requires a.endAt.Some?
    ensures
      var count := ExtensionsBetween(a, ProlongedBy(a, plan));
      && (count >= 1 <==> SomeExtends(a, plan))
      && (count >= 2 <==> exists i: nat :: FirstToExtend(a, plan, i) && SomeExtendsAfter(a, plan, i))
      && (CloseReadings(a.rules, plan) ==> count <= 1)
  {
    ProlongedExactly(a, plan);
    ProlongedTwiceExactly(a, plan);
    if CloseReadings(a.rules, plan) { CloseReadingsExtendOnce(a, plan); }
  }

  /** The same of the settlement of a start. */
  lemma StartExtendsExactly(w: World, clock: Clock)
    requires CoreInv(w) && Start(w, clock, true).Ok?
    ensures
      var a := Opened(w, clock.first).auction;
      var plan := AutoPlan(a, w.intents, clock);
      var count := Start(w, clock, true).value.auction.extendCount;
      && (count >= 1 <==> SomeExtends(a, plan))
      && (count >= 2 <==> exists i: nat :: FirstToExtend(a, plan, i) && SomeExtendsAfter(a, plan, i))
      && (CloseReadings(a.rules, plan) ==> count <= 1)
  {
    var live := Opened(w, clock.first);
    OpenKeepsCore(w, clock.first);
    SettleFollowsPlan(live, ResultAccepted, clock);
    PlanIsExact(live.auction, AutoPlan(live.auction, live.intents, clock));
  }

  // ---- The bound ------------------------------------------------------------------------

  /** What the end may come to, at no more than `latest`, less what the extensions so far may have added. */
  function Reach(a: Auction, latest: int): int
    requires a.endAt.Some?
  {
    Slack(a) + Late(latest, a.endAt.value)
  }

  lemma AwardStaysInReach(w: World, award: Award, clock: Clock, latest: int)
    requires CoreInv(w) && w.auction.status == Active && ApplyAward(w, award, clock).Ok?
    requires AutoTime(clock, w.auction.seqNo + 1) <= latest
    ensures
      var b := ApplyAward(w, award, clock).value.0.auction;
      && w.auction.endAt.Some? && b.endAt.Some? && b.seqNo == w.auction.seqNo + 1
      && Reach(b, latest) <= Reach(w.auction, latest)
  {
    AwardTimes(w, award, clock);
    var step, n := w.auction.rules.extendBy, w.auction.extendCount;
    assert (n + 1) * step == n * step + step;
  }

  ghost predicate ReadBy(clock: Clock, seqNo: nat, count: nat, latest: int) {
    forall n :: seqNo < n <= seqNo + count ==> AutoTime(clock, n) <= latest
  }

  /** However late the readings are, the settlement costs no more than its share and the latest of them. */
  lemma {:induction false} SettleStaysInReach(w: World, last: BidResult, clock: Clock, latest: int)
    requires CoreInv(w) && w.auction.status in {Active, Sold} && w.auction.endAt.Some? && Settle(w, last, clock).Ok?
    requires ReadBy(clock, w.auction.seqNo, |Awards(w.auction, w.intents)|, latest)
    ensures
      var final := Settle(w, last, clock).value.0.auction;
      final.endAt.Some? && Reach(final, latest) <= Reach(w.auction, latest)
    decreases |Awards(w.auction, w.intents)|
  {
    var awards := Awards(w.auction, w.intents);
    if awards != [] {
      var (next, result) := ApplyAward(w, awards[0], clock).value;
      AwardsUnfold(w, clock);
      AwardKeepsCore(w, awards[0], clock);
      AwardStaysInReach(w, awards[0], clock, latest);
      assert Settle(w, last, clock) == Settle(next, result, clock);
      SettleStaysInReach(next, result, clock, latest);
    }
  }

  /** How far behind the end the two automatic bids from number n on are timed. */
  function Overrun(clock: Clock, n: nat, end: int): nat {
    var first, second := Late(AutoTime(clock, n), end), Late(AutoTime(clock, n + 1), end);
    if first < second then second else first
  }

  function StepOverrun(w: World, step: Step): nat {
    if IsBid(step) && w.auction.endAt.Some? then Overrun(step.clock, w.auction.seqNo + 2, w.auction.endAt.value) else 0
  }

  function RunOverrun(w: World, steps: seq<Step>): nat
    decreases |steps|
  {
    if steps == [] then 0 else StepOverrun(w, steps[0]) + RunOverrun(Next(w, steps[0]), steps[1..])
  }

  lemma AutoSettleInBudget(w: World, last: BidResult, clock: Clock, end: int)
    requires CoreInv(w) && w.auction.status in {Active, Sold} && w.auction.endAt.Some? && Settle(w, last, clock).Ok?
    requires end <= w.auction.endAt.value
    ensures
      var final := Settle(w, last, clock).value.0.auction;
      final.endAt.Some? && Slack(final) <= Slack(w.auction) + Overrun(clock, w.auction.seqNo + 1, end)
  {
    var n := w.auction.seqNo + 1;
    var first, second := AutoTime(clock, n), AutoTime(clock, n + 1);
    AtMostTwoAwards(w.auction, w.intents);
    SettleStaysInReach(w, last, clock, if first < second then second else first);
  }

  lemma PlacedStaysInBudget(w: World, user: UserId, key: BidKey, amount: int, clock: Clock)
    requires CoreInv(w) && w.auction.status == Active && Placed(w, user, key, amount, clock).Ok?
    requires w.auction.endAt.Some? && clock.first <= w.auction.endAt.value
    ensures
      var taken := Placed(w, user, key, amount, clock).value.0.auction;
      && taken.endAt.Some? && taken.seqNo == w.auction.seqNo + 1
      && NoEarlier(w.auction, taken) && Slack(taken) <= Slack(w.auction)
  {
    ExtendsExactly(w.auction, user, amount, clock.first);
    AcceptMovesForward(w.auction, user, amount, clock.first);
    assert Placed(w, user, key, amount, clock).value.0.auction
        == AcceptedRow(w.auction, user, amount, clock.first).0.(seqNo := w.auction.seqNo + 1);
  }

  lemma TakeStaysInBudget(w: World, user: UserId, key: BidKey, amount: int, clock: Clock)
    requires CoreInv(w) && w.auction.status == Active && TakeBid(w, user, key, amount, clock).Ok?
    requires w.auction.endAt.Some? && clock.first <= w.auction.endAt.value
    ensures
      var final := TakeBid(w, user, key, amount, clock).value.0.auction;
      final.endAt.Some?
      && Slack(final) <= Slack(w.auction) + Overrun(clock, w.auction.seqNo + 2, w.auction.endAt.value)
  {
    var (taken, result) := Placed(w, user, key, amount, clock).value;
    PlacedKeepsCore(w, user, key, amount, clock);
    PlacedStaysInBudget(w, user, key, amount, clock);
    if result != ResultSold { AutoSettleInBudget(taken, result, clock, w.auction.endAt.value); }
  }

  lemma DecideStaysInBudget(w: World, user: UserId, key: BidKey, amount: int, token: string, clock: Clock, skip: bool)
    requires CoreInv(w) && DecideBid(w, user, key, amount, token, clock, skip).Ok?
    ensures
      var final := DecideBid(w, user, key, amount, token, clock, skip).value.0.auction;
      && w.auction.endAt.Some? && final.endAt.Some?
      && Slack(final) <= Slack(w.auction) + Overrun(clock, w.auction.seqNo + 2, w.auction.endAt.value)
  {
    if EvaluateBid(w.auction, user, amount, clock.first, skip).Take? {
      TakeStaysInBudget(w, user, key, amount, clock);
    }
  }

  lemma StepStaysInBudget(w: World, step: Step)
    requires CoreInv(w) && w.auction.endAt.Some?
    ensures Next(w, step).auction.endAt.Some? && Slack(Next(w, step).auction) <= Slack(w.auction) + StepOverrun(w, step)
  {
    StepMovesForward(w, step);
    if IsBid(step) {
      if Try(w, step).Ok? {
        BidReplaysOrDecides(w, step);
        if BidDecision(w, step).Ok? {
          DecideStaysInBudget(w, step.user, step.key, BidAmount(w, step),
            if step.DoConfirm? then "" else step.token, step.clock, step.DoConfirm?);
        }
      }
    }
  }

  lemma {:induction false} RunStaysInBudget(w: World, steps: seq<Step>)
    requires CoreInv(w) && w.auction.endAt.Some?
    ensures Run(w, steps).auction.endAt.Some?
    ensures Slack(Run(w, steps).auction) <= Slack(w.auction) + RunOverrun(w, steps)
    decreases |steps|
  {
    if steps != [] {
      StepKeepsCore(w, steps[0]);
      StepStaysInBudget(w, steps[0]);
      RunStaysInBudget(Next(w, steps[0]), steps[1..]);
    }
  }

  /** Anti-sniping is bounded: over any run after the start, host shortening included, the end is at most the original
      one, one extension for each counted one, and what automatic bids were timed behind the end. */
  lemma ExtensionsAreBounded(w: World, clock: Clock, later: seq<Step>)
    requires CoreInv(w) && Start(w, clock, true).Ok?
    ensures
      var started, end := Start(w, clock, true).value, clock.first + w.auction.rules.duration;
      var a := Run(started, later).auction;
      && a.extendCount <= a.rules.maxExtend && a.rules == w.auction.rules
      && a.endAt.Some?
      && a.endAt.value <= end + a.extendCount * w.auction.rules.extendBy
                          + Overrun(clock, w.auction.seqNo + 2, end) + RunOverrun(started, later)
  {
    var started, live := Start(w, clock, true).value, Opened(w, clock.first);
    StartMovesForward(w, clock);
    OpenKeepsCore(w, clock.first);
    AutoSettleInBudget(live, ResultAccepted, clock, live.auction.endAt.value);
    StepKeepsCore(w, DoStart(clock, true));
    assert started == Next(w, DoStart(clock, true));
    RunKeepsCore(started, later);
    RunMovesForward(started, later);
    RunStaysInBudget(started, later);
  }

  // ---- One transaction that extends twice, and one behind the end --------------------------

  /** A bid of 110 on the live auction with the one bound of 200, and the automatic bid that answers it. */
  function Answered(clock: Clock): World {
    Next(BlockedRuns.BeforeCollision(), DoPlace("b", Plain("k"), 110, "", clock))
  }

  /** The bound of 200 answers the bid with 120. */
  lemma AnswerIsDue(taken: World, led: Auction)
    requires taken.auction == led.(seqNo := 4) && taken.intents == [BlockedRuns.Bound(1, "u", 200)]
    requires led.status == Active && led.winner == Some("b") && led.price == 110 && led.acceptedCount == 1
    requires led.rules == BlockedRuns.TENS
    ensures Awards(taken.auction, taken.intents) == [Award(1, "u", 120, None)]
  {
    var u := BlockedRuns.Bound(1, "u", 200);
    assert "b" != "u" by { assert "b"[0] != "u"[0]; }
    assert u in taken.intents;
    LeaderIntentIs(taken.intents, Some("b"));
    BestRivalUnique(taken.intents, Some("b"), u);
    BestRivalIsBest(taken.intents, Some("u"));
  }

  /** One award settles it. */
  lemma OneAwardSettles(w: World, award: Award, last: BidResult, clock: Clock)
    requires Settleable(w) && Awards(w.auction, w.intents) == [award] && ApplyAward(w, award, clock).Ok?
    ensures Settle(w, last, clock).Ok?
    ensures
      var at := w.auction.seqNo + 1;
      Settle(w, last, clock).value.0.auction
      == AcceptedRow(w.auction, award.user, award.amount, AutoTime(clock, at)).0.(seqNo := at)
  {
    var (next, result) := ApplyAward(w, award, clock).value;
    AwardEffect(w, award, clock);
    assert [award][1..] == [];
    assert ApplyAwards(next, [], result, clock) == Settle(w, last, clock);
  }

  lemma BidIsPlaced(clock: Clock)
    requires clock.first <= 60
    ensures Placed(BlockedRuns.BeforeCollision(), "b", Plain("k"), 110, clock).Ok?
    ensures
      var w := BlockedRuns.BeforeCollision();
      var (taken, result) := Placed(w, "b", Plain("k"), 110, clock).value;
      && taken.auction == AcceptedRow(w.auction, "b", 110, clock.first).0.(seqNo := 4)
      && taken.intents == w.intents && taken.bids == [TakenRow("b", Plain("k"), 110, 4)] && taken.orders == []
      && result != ResultSold && taken.auction.status == Active
  {
  }

  lemma AnswerIsPlaced(w: World, award: Award, clock: Clock)
    requires Settleable(w) && Awards(w.auction, w.intents) == [award]
    requires w.auction.rules == BlockedRuns.TENS && award.amount == 120
    requires w.bids == [TakenRow("b", Plain("k"), 110, 4)]
    ensures ApplyAward(w, award, clock).Ok?
  {
    assert SameGrid(120, 100, 10);
    FirstAwardLegality(w, clock);
  }

  lemma PlacedThenSettled(w: World, user: UserId, key: BidKey, amount: int, clock: Clock)
    requires w.auction.endAt.Some? && EvaluateBid(w.auction, user, amount, clock.first, false) == Take
    requires (user, key) !in w.records && key != NO_KEY && amount > 0
    requires Placed(w, user, key, amount, clock).Ok? && Placed(w, user, key, amount, clock).value.1 != ResultSold
    requires
      var (taken, result) := Placed(w, user, key, amount, clock).value;
      Settle(taken, result, clock).Ok? && Settle(taken, result, clock).value.0.auction.endAt.Some?
    ensures
      var (taken, result) := Placed(w, user, key, amount, clock).value;
      Next(w, DoPlace(user, key, amount, "", clock)).auction == Settle(taken, result, clock).value.0.auction
  {
  }

  lemma BidIsTaken(clock: Clock)
    requires clock.first <= 60
    ensures EvaluateBid(BlockedRuns.BeforeCollision().auction, "b", 110, clock.first, false) == Take
    ensures ("b", Plain("k")) !in BlockedRuns.BeforeCollision().records
  {
  }

  lemma AnswerSettles(taken: World, led: Auction, result: BidResult, clock: Clock)
    requires CoreInv(taken) && taken.auction == led.(seqNo := 4) && taken.orders == []
    requires taken.intents == [BlockedRuns.Bound(1, "u", 200)] && taken.bids == [TakenRow("b", Plain("k"), 110, 4)]
    requires led.status == Active && led.winner == Some("b") && led.price == 110 && led.acceptedCount == 1
    requires led.rules == BlockedRuns.TENS
    ensures led.endAt.Some? && Settle(taken, result, clock).Ok?
    ensures
      Settle(taken, result, clock).value.0.auction
      == AcceptedRow(led, "u", 120, AutoTime(clock, 5)).0.(seqNo := 5)
  {
    var award := Award(1, "u", 120, None);
    AnswerIsDue(taken, led);
    AnswerIsPlaced(taken, award, clock);
    OneAwardSettles(taken, award, result, clock);
  }

  lemma PlacedIsCore(clock: Clock)
    requires clock.first <= 60
    requires Placed(BlockedRuns.BeforeCollision(), "b", Plain("k"), 110, clock).Ok?
    ensures CoreInv(Placed(BlockedRuns.BeforeCollision(), "b", Plain("k"), 110, clock).value.0)
  {
    BlockedRuns.StandingIsReachable();
    BlockedRuns.ReachableCore(BlockedRuns.TENS, BlockedRuns.BeforeCollision());
    PlacedKeepsCore(BlockedRuns.BeforeCollision(), "b", Plain("k"), 110, clock);
  }

  lemma AnswerTimes(clock: Clock)
    requires clock.first <= 60
    ensures
      var live := BlockedRuns.BeforeCollision().auction;
      var led := AcceptedRow(live, "b", 110, clock.first).0;
      Answered(clock).auction == AcceptedRow(led, "u", 120, AutoTime(clock, 5)).0.(seqNo := 5)
  {
    var taken, led, result := BidLeads(clock);
    AnswerSettles(taken, led, result, clock);
    AnsweredIsSettled(clock);
  }

  lemma BidLeads(clock: Clock) returns (taken: World, led: Auction, result: BidResult)
    requires clock.first <= 60
    ensures Placed(BlockedRuns.BeforeCollision(), "b", Plain("k"), 110, clock) == Ok((taken, result))
    ensures led == AcceptedRow(BlockedRuns.BeforeCollision().auction, "b", 110, clock.first).0
    ensures CoreInv(taken) && taken.auction == led.(seqNo := 4) && taken.orders == [] && result != ResultSold
    ensures taken.intents == [BlockedRuns.Bound(1, "u", 200)] && taken.bids == [TakenRow("b", Plain("k"), 110, 4)]
    ensures led.status == Active && led.winner == Some("b") && led.price == 110 && led.acceptedCount == 1
    ensures led.rules == BlockedRuns.TENS && led.endAt.Some?
  {
    BidIsPlaced(clock);
    PlacedIsCore(clock);
    taken := Placed(BlockedRuns.BeforeCollision(), "b", Plain("k"), 110, clock).value.0;
    result := Placed(BlockedRuns.BeforeCollision(), "b", Plain("k"), 110, clock).value.1;
    led := AcceptedRow(BlockedRuns.BeforeCollision().auction, "b", 110, clock.first).0;
  }

  lemma AnsweredIsSettled(clock: Clock)
    requires clock.first <= 60 && Placed(BlockedRuns.BeforeCollision(), "b", Plain("k"), 110, clock).Ok?
    requires
      var (taken, result) := Placed(BlockedRuns.BeforeCollision(), "b", Plain("k"), 110, clock).value;
      && result != ResultSold
      && Settle(taken, result, clock).Ok? && Settle(taken, result, clock).value.0.auction.endAt.Some?
    ensures
      var (taken, result) := Placed(BlockedRuns.BeforeCollision(), "b", Plain("k"), 110, clock).value;
      Answered(clock).auction == Settle(taken, result, clock).value.0.auction
  {
    BidIsTaken(clock);
    PlacedThenSettled(BlockedRuns.BeforeCollision(), "b", Plain("k"), 110, clock);
  }

  /** A second passes between the bid and its answer: both extend, within one transaction. */
  lemma OneBidExtendsTwice()
    ensures CreateAuction(BlockedRuns.TENS).Ok? && BlockedRuns.Reachable(BlockedRuns.TENS, BlockedRuns.BeforeCollision())
    ensures
      var a := Answered(Clock(55, map[5 := 56], 55, 55)).auction;
      a.extendCount == BlockedRuns.BeforeCollision().auction.extendCount + 2 && a.endAt == Some(66)
  {
    BlockedRuns.StandingIsReachable();
    AnswerTimes(Clock(55, map[5 := 56], 55, 55));
  }

  /** The answer is timed behind the end of 60: one extension of 10 then ends the auction at 85, so the bound without
      the overrun fails and the bound with it is met exactly. */
  lemma LateAnswerOverruns()
    ensures CreateAuction(BlockedRuns.TENS).Ok? && BlockedRuns.Reachable(BlockedRuns.TENS, BlockedRuns.BeforeCollision())
    ensures
      var clock := Clock(40, map[5 := 75], 75, 40);
      var a := Answered(clock).auction;
      && a.extendCount == 1 && a.rules.extendBy == 10 && a.endAt == Some(85)
      && 60 + a.extendCount * a.rules.extendBy + Overrun(clock, 5, 60) == 85
  {
    BlockedRuns.StandingIsReachable();
    AnswerTimes(Clock(40, map[5 := 75], 75, 40));
  }
}
