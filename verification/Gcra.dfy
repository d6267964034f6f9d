/** The bid admission rate limiter: a generic cell rate algorithm over one Redis key that expires. Times are
    milliseconds of one clock that never steps back. */
module Gcra {
  import opened Wrappers

  /** What evalGCRALimit passes to the script. */
  datatype Params = Params(emission: int, burst: int, ttl: int)

  /** What the parameters of every configuration satisfy. */
  ghost predicate Sound(p: Params) {
    p.emission >= 1 && p.burst >= 1 && p.ttl >= p.emission * p.burst
  }

  function ParamsFor(limit: int, window: int): (p: Params)
    requires limit > 0 && window >= 0
    ensures Sound(p) && p.burst == limit
    ensures window >= limit ==> p.emission * limit <= window < (p.emission + 1) * limit
    ensures window < limit ==> p.emission == 1
    ensures p.ttl == window + p.emission * limit
  {
    var emission := if window / limit <= 0 then 1 else window / limit;
    Params(emission, limit, window + emission * limit)
  }

  // ---- The limiter that never forgets -------------------------------------------------

  function AllowAt(p: Params, tat: int): int {
    tat - (p.burst - 1) * p.emission
  }

  /** The delay returned at `now`, 0 for an admission. */
  function Wait(p: Params, tat: int, now: int): int {
    if now < AllowAt(p, tat) then AllowAt(p, tat) - now else 0
  }

  function Max(x: int, y: int): int {
    if x < y then y else x
  }

  function NextTat(p: Params, tat: int, now: int): int {
    if now < AllowAt(p, tat) then tat else Max(tat, now) + p.emission
  }

  function Waits(p: Params, tat: int, times: seq<int>): (r: seq<int>)
    ensures |r| == |times|
    decreases |times|
  {
    if times == [] then []
    else [Wait(p, tat, times[0])] + Waits(p, NextTat(p, tat, times[0]), times[1..])
  }

  // ---- The key as Redis keeps it ------------------------------------------------------

  datatype Key = Key(tat: int, expiresAt: int)

  /** GET key or "0": an expired key is gone. */
  function Stored(key: Option<Key>, now: int): int {
    if key.Some? && now < key.value.expiresAt then key.value.tat else 0
  }

  function NextKey(p: Params, key: Option<Key>, now: int): Option<Key> {
    var tat := Stored(key, now);
    if now < AllowAt(p, tat) then key else Some(Key(Max(tat, now) + p.emission, now + p.ttl))
  }

  function ForgetfulWaits(p: Params, key: Option<Key>, times: seq<int>): (r: seq<int>)
    ensures |r| == |times|
    decreases |times|
  {
    if times == [] then []
    else [Wait(p, Stored(key, times[0]), times[0])] + ForgetfulWaits(p, NextKey(p, key, times[0]), times[1..])
  }

  class Limiter {
    const p: Params
    var key: Option<Key>
    ghost const limit: int
    ghost const window: int

    ghost predicate IsConfigured() {
      limit > 0 && window >= 0 && p == ParamsFor(limit, window)
    }

    constructor (limit: int, window: int)
      requires limit > 0 && window >= 0
      ensures IsConfigured() && this.limit == limit && this.window == window && key == None
    {
      p := ParamsFor(limit, window);
      this.limit, this.window := limit, window;
      key := None;
    }

    /** The script: read, compare, write back with a new expiry. */
    method Eval(now: int) returns (wait: int)
      modifies this
      ensures wait == Wait(p, Stored(old(key), now), now)
      ensures key == NextKey(p, old(key), now)
    {
      var tat := 0;
      if key.Some? && now < key.value.expiresAt {
        tat := key.value.tat;
      }
      var allowAt := tat - (p.burst - 1) * p.emission;
      if now < allowAt {
        return allowAt - now;
      }
      var newTat := (if tat < now then now else tat) + p.emission;
      key := Some(Key(newTat, now + p.ttl));
      return 0;
    }

    /** A whole run of requests. From an empty key it keeps the configured rate. */
    method EvalAll(times: seq<int>) returns (waits: seq<int>)
      requires IsConfigured()
      modifies this
      ensures waits == ForgetfulWaits(p, old(key), times)
      ensures old(key) == None && Clock(times) ==> KeepsRate(limit, window, times, waits)
    {
      if key == None && Clock(times) {
        ConfiguredRate(limit, window, times);
      }
      waits := [];
      for i := 0 to |times|
        invariant waits + ForgetfulWaits(p, key, times[i..]) == ForgetfulWaits(p, old(key), times)
      {
        assert times[i..][1..] == times[i + 1..];
        var wait := Eval(times[i]);
        waits := waits + [wait];
      }
    }
  }

  // ---- Products -------------------------------------------------------------------------

  lemma OneMore(n: int, e: int)
    ensures (n + 1) * e == n * e + e
  {
  }

  lemma Grows(m: int, n: int, e: int)
    requires e >= 0 && m <= n
    ensures m * e <= n * e
  {
  }

  // ---- The expiry is invisible ----------------------------------------------------------

  ghost predicate Clock(times: seq<int>) {
    && (forall i :: 0 <= i < |times| ==> 0 <= times[i])
    && (forall i, j :: 0 <= i < j < |times| ==> times[i] <= times[j])
  }

  /** A key expires only when its tat has passed. */
  ghost predicate KeyFits(key: Option<Key>) {
    key.Some? ==> key.value.tat <= key.value.expiresAt
  }

  /** The stored key stands for the remembered tat: equal while it lives, and both idle when it does not. */
  ghost predicate Mirrors(key: Option<Key>, tat: int, now: int) {
    && KeyFits(key)
    && (if key.Some? then key.value.tat == tat else tat <= now)
  }

  lemma EvalAlike(p: Params, key: Option<Key>, tat: int, now: int)
    requires Sound(p) && Mirrors(key, tat, now) && now >= 0
    ensures Wait(p, Stored(key, now), now) == Wait(p, tat, now)
    ensures Mirrors(NextKey(p, key, now), NextTat(p, tat, now), now)
  {
    assert (p.burst - 1) * p.emission == p.burst * p.emission - p.emission;
    assert (p.burst - 1) * p.emission >= 0;
  }

  lemma {:induction false} MirrorsDecideAlike(p: Params, key: Option<Key>, tat: int, times: seq<int>)
    requires Sound(p) && Clock(times) && (times != [] ==> Mirrors(key, tat, times[0]))
    ensures ForgetfulWaits(p, key, times) == Waits(p, tat, times)
    decreases |times|
  {
    if times != [] {
      EvalAlike(p, key, tat, times[0]);
      MirrorsDecideAlike(p, NextKey(p, key, times[0]), NextTat(p, tat, times[0]), times[1..]);
    }
  }

  /** On every run from an empty key, the limiter whose key expires decides exactly as one that never forgets. */
  lemma ExpiryIsInvisible(p: Params, times: seq<int>)
    requires Sound(p) && Clock(times)
    ensures ForgetfulWaits(p, None, times) == Waits(p, 0, times)
  {
    MirrorsDecideAlike(p, None, 0, times);
  }

  // ---- The admission bound ----------------------------------------------------------------

  function Admissions(waits: seq<int>): nat {
    if waits == [] then 0 else (if waits[0] == 0 then 1 else 0) + Admissions(waits[1..])
  }

  /** Each admission moves the tat by at least one emission; an admission at the end bounds it from above. */
  lemma {:induction false} TatGrows(p: Params, tat: int, times: seq<int>)
    requires Sound(p) && times != [] && Waits(p, tat, times)[|times| - 1] == 0
    ensures tat + Admissions(Waits(p, tat, times)) * p.emission <= times[|times| - 1] + p.burst * p.emission
    decreases |times|
  {
    var next := NextTat(p, tat, times[0]);
    var rest := Waits(p, next, times[1..]);
    assert Waits(p, tat, times)[1..] == rest;
    var n := Admissions(rest);
    OneMore(n, p.emission);
    if |times| == 1 {
      assert rest == [];
      OneMore(p.burst - 1, p.emission);
    } else {
      TatGrows(p, next, times[1..]);
    }
  }

  /** From any state and over any run whose first and last requests are admitted, the n admissions satisfy
      n * emission <= (last - first) + limit * emission. */
  lemma AdmissionBound(p: Params, tat: int, times: seq<int>)
    requires Sound(p) && Clock(times) && times != []
    requires Waits(p, tat, times)[0] == 0 && Waits(p, tat, times)[|times| - 1] == 0
    ensures Admissions(Waits(p, tat, times)) * p.emission <= times[|times| - 1] - times[0] + p.burst * p.emission
  {
    var next := NextTat(p, tat, times[0]);
    var rest := Waits(p, next, times[1..]);
    assert Waits(p, tat, times)[1..] == rest;
    OneMore(Admissions(rest), p.emission);
    if |times| == 1 {
      assert rest == [];
      Grows(1, p.burst, p.emission);
    } else {
      assert rest[|rest| - 1] == Waits(p, tat, times)[|times| - 1];
      TatGrows(p, next, times[1..]);
      assert next >= times[0] + p.emission;
    }
  }

  /** The bound for any two admitted requests of a longer run of the limiter as it is. */
  lemma AdmissionBoundWithin(p: Params, times: seq<int>, i: nat, j: nat)
    requires Sound(p) && Clock(times) && i <= j < |times|
    requires ForgetfulWaits(p, None, times)[i] == 0 && ForgetfulWaits(p, None, times)[j] == 0
    ensures Admissions(ForgetfulWaits(p, None, times)[i..j + 1]) * p.emission <= times[j] - times[i] + p.burst * p.emission
  {
    ExpiryIsInvisible(p, times);
    var tat := WaitsSplit(p, 0, times, i);
    var waits, part := Waits(p, 0, times), times[i..j + 1];
    WaitsPrefix(p, tat, times[i..], j + 1 - i);
    assert times[i..][..j + 1 - i] == part;
    assert waits[i..][..j + 1 - i] == waits[i..j + 1];
    assert Waits(p, tat, part) == waits[i..j + 1];
    AdmissionBound(p, tat, part);
  }

  lemma {:induction false} WaitsSplit(p: Params, tat: int, times: seq<int>, i: nat) returns (later: int)
    requires i <= |times|
    ensures Waits(p, tat, times)[i..] == Waits(p, later, times[i..])
    decreases i
  {
    if i == 0 {
      assert times[0..] == times;
      later := tat;
    } else {
      later := WaitsSplit(p, NextTat(p, tat, times[0]), times[1..], i - 1);
      assert times[1..][i - 1..] == times[i..];
    }
  }

  lemma {:induction false} WaitsPrefix(p: Params, tat: int, times: seq<int>, n: nat)
    requires n <= |times|
    ensures Waits(p, tat, times)[..n] == Waits(p, tat, times[..n])
    decreases n
  {
    if n > 0 {
      WaitsPrefix(p, NextTat(p, tat, times[0]), times[1..], n - 1);
      assert times[..n][1..] == times[1..][..n - 1];
    }
  }

  // ---- Who is admitted ------------------------------------------------------------------

  ghost predicate AllAdmitted(waits: seq<int>) {
    forall i :: 0 <= i < |waits| ==> waits[i] == 0
  }

  lemma AllAdmittedCons(first: int, rest: seq<int>)
    ensures AllAdmitted([first] + rest) <==> first == 0 && AllAdmitted(rest)
  {
    assert forall i :: 0 <= i < |rest| ==> rest[i] == ([first] + rest)[i + 1];
    assert ([first] + rest)[0] == first;
  }

  /** Requests at least one emission apart are all admitted, as long as the key has room for the first. */
  lemma {:induction false} SpacedIsAdmitted(p: Params, tat: int, times: seq<int>)
    requires Sound(p) && (times != [] ==> AllowAt(p, tat) <= times[0])
    requires forall i :: 0 < i < |times| ==> times[i - 1] + p.emission <= times[i]
    ensures AllAdmitted(Waits(p, tat, times))
    decreases |times|
  {
    if times != [] {
      assert (p.burst - 1) * p.emission >= 0;
      SpacedIsAdmitted(p, NextTat(p, tat, times[0]), times[1..]);
      AllAdmittedCons(Wait(p, tat, times[0]), Waits(p, NextTat(p, tat, times[0]), times[1..]));
    }
  }

  function At(now: int, n: nat): seq<int> {
    seq(n, i => now)
  }

  /** n simultaneous requests are all admitted exactly when the tat leaves room for n emissions. */
  lemma {:induction false} BurstIsAdmitted(p: Params, tat: int, now: int, n: nat)
    requires Sound(p) && now <= tat
    ensures AllAdmitted(Waits(p, tat, At(now, n))) <==> n == 0 || tat + n * p.emission <= now + p.burst * p.emission
    decreases n
  {
    if n > 0 {
      assert At(now, n)[1..] == At(now, n - 1);
      AllAdmittedCons(Wait(p, tat, now), Waits(p, NextTat(p, tat, now), At(now, n - 1)));
      OneMore(p.burst - 1, p.emission);
      OneMore(n - 1, p.emission);
      Grows(0, n - 1, p.emission);
      BurstIsAdmitted(p, NextTat(p, tat, now), now, n - 1);
    }
  }

  /** An idle key admits `burst` requests at once, and not one more. */
  lemma IdleAdmitsBurst(p: Params, tat: int, now: int, n: nat)
    requires Sound(p) && tat <= now
    ensures AllAdmitted(Waits(p, tat, At(now, n))) <==> n <= p.burst
  {
    BurstIsAdmitted(p, now, now, n);
    Grows(0, p.burst - 1, p.emission);
    assert Waits(p, tat, At(now, n)) == Waits(p, now, At(now, n));
    if n > p.burst {
      Grows(p.burst + 1, n, p.emission);
      OneMore(p.burst, p.emission);
    } else {
      Grows(n, p.burst, p.emission);
    }
  }

  /** A returned wait is the least delay after which an unopposed retry is admitted, expiry or not. */
  lemma WaitIsLeast(p: Params, key: Option<Key>, now: int, delay: nat)
    requires Sound(p) && KeyFits(key) && now >= 0 && Wait(p, Stored(key, now), now) > 0
    ensures NextKey(p, key, now) == key
    ensures Wait(p, Stored(key, now + delay), now + delay) == 0 <==> delay >= Wait(p, Stored(key, now), now)
  {
    assert (p.burst - 1) * p.emission >= 0;
  }

  // ---- The configured limit and window ----------------------------------------------------

  /** Between two admitted requests a distance d apart there are `limit` admissions, and more only as the distance
      allows: each further one takes window / limit, rounded down to whole milliseconds and at least one. */
  ghost predicate KeepsRate(limit: int, window: int, times: seq<int>, waits: seq<int>) {
    && |waits| == |times|
    && forall i, j :: 0 <= i <= j < |times| && waits[i] == 0 && waits[j] == 0 ==>
         WithinRate(limit, Max(limit, window - limit + 1), Admissions(waits[i..j + 1]), times[j] - times[i])
  }

  predicate WithinRate(limit: int, unit: int, admissions: nat, distance: int) {
    (admissions - limit) * unit <= distance * limit
  }

  lemma ScaleBound(n: nat, limit: int, e: int, unit: int, d: int)
    requires n * e <= d + limit * e && unit <= e * limit && limit > 0 && unit > 0 && d >= 0
    ensures WithinRate(limit, unit, n, d)
  {
    var extra := n - limit;
    assert extra * e <= d by { assert n * e == extra * e + limit * e; }
    if extra > 0 {
      assert extra * unit <= extra * (e * limit) by { assert extra * (e * limit - unit) >= 0; }
      assert extra * (e * limit) == (extra * e) * limit;
      assert (extra * e) * limit <= d * limit by { assert (d - extra * e) * limit >= 0; }
    } else {
      assert extra * unit <= 0;
      assert d * limit >= 0;
    }
  }

  lemma RateFrom(p: Params, unit: int, times: seq<int>, i: nat, j: nat)
    requires Sound(p) && Clock(times) && 0 < unit <= p.emission * p.burst && i <= j < |times|
    requires ForgetfulWaits(p, None, times)[i] == 0 && ForgetfulWaits(p, None, times)[j] == 0
    ensures WithinRate(p.burst, unit, Admissions(ForgetfulWaits(p, None, times)[i..j + 1]), times[j] - times[i])
  {
    var n := Admissions(ForgetfulWaits(p, None, times)[i..j + 1]);
    AdmissionBoundWithin(p, times, i, j);
    ScaleBound(n, p.burst, p.emission, unit, times[j] - times[i]);
  }

  /** The limiter built for a limit and a window keeps that rate on every run from an empty key. */
  lemma ConfiguredRate(limit: int, window: int, times: seq<int>)
    requires limit > 0 && window >= 0 && Clock(times)
    ensures KeepsRate(limit, window, times, ForgetfulWaits(ParamsFor(limit, window), None, times))
  {
    var p, unit := ParamsFor(limit, window), Max(limit, window - limit + 1);
    var waits := ForgetfulWaits(p, None, times);
    EmissionFits(limit, window);
    forall i, j | 0 <= i <= j < |times| && waits[i] == 0 && waits[j] == 0
      ensures WithinRate(limit, unit, Admissions(waits[i..j + 1]), times[j] - times[i])
    {
      RateFrom(p, unit, times, i, j);
    }
  }

  lemma EmissionFits(limit: int, window: int)
    requires limit > 0 && window >= 0
    ensures Max(limit, window - limit + 1) <= ParamsFor(limit, window).emission * limit
  {
    var e := ParamsFor(limit, window).emission;
    OneMore(e, limit);
    Grows(1, e, limit);
  }

  lemma EmissionIsLeast(limit: int, window: int, gap: int)
    requires limit > 0 && window >= 0 && gap >= 1 && gap * limit >= window
    ensures ParamsFor(limit, window).emission <= gap
  {
    var e := ParamsFor(limit, window).emission;
    if gap < e {
      Grows(gap + 1, e, limit);
      OneMore(gap, limit);
    }
  }

  lemma SpacedFrom(p: Params, times: seq<int>)
    requires Sound(p) && Clock(times) && forall i :: 0 < i < |times| ==> times[i - 1] + p.emission <= times[i]
    ensures AllAdmitted(ForgetfulWaits(p, None, times))
  {
    ExpiryIsInvisible(p, times);
    Grows(0, p.burst - 1, p.emission);
    SpacedIsAdmitted(p, 0, times);
  }

  /** And no less: requests at least window / limit apart are all admitted. */
  lemma ConfiguredSpacing(limit: int, window: int, times: seq<int>)
    requires limit > 0 && window >= 0 && Clock(times)
    requires forall i :: 0 < i < |times| ==> times[i] - times[i - 1] >= 1 && (times[i] - times[i - 1]) * limit >= window
    ensures AllAdmitted(ForgetfulWaits(ParamsFor(limit, window), None, times))
  {
    var p := ParamsFor(limit, window);
    forall i | 0 < i < |times| ensures times[i - 1] + p.emission <= times[i] {
      EmissionIsLeast(limit, window, times[i] - times[i - 1]);
    }
    SpacedFrom(p, times);
  }

  /** From an empty key exactly `limit` simultaneous requests are admitted. */
  lemma ConfiguredBurst(limit: int, window: int, now: int, n: nat)
    requires limit > 0 && window >= 0 && now >= 0
    ensures AllAdmitted(ForgetfulWaits(ParamsFor(limit, window), None, At(now, n))) <==> n <= limit
  {
    var p := ParamsFor(limit, window);
    ExpiryIsInvisible(p, At(now, n));
    IdleAdmitsBurst(p, 0, now, n);
  }

  /** The next one is told to wait window / limit, rounded down to whole milliseconds and at least one. */
  lemma ConfiguredWait(limit: int, window: int, now: int) returns (wait: int)
    requires limit > 0 && window >= 0 && now >= 0
    ensures wait == ForgetfulWaits(ParamsFor(limit, window), None, At(now, limit + 1))[limit]
    ensures if window < limit then wait == 1 else wait * limit <= window < (wait + 1) * limit
  {
    var p := ParamsFor(limit, window);
    ExpiryIsInvisible(p, At(now, limit + 1));
    wait := ForgetfulWaits(p, None, At(now, limit + 1))[limit];
    BurstTat(p, 0, now, limit);
    OneMore(limit - 1, p.emission);
  }

  /** n simultaneous requests within the burst move the tat by n emissions, and the next waits for what is missing. */
  lemma {:induction false} BurstTat(p: Params, tat: int, now: int, n: nat)
    requires Sound(p) && n <= p.burst && (tat <= now || tat + n * p.emission <= now + p.burst * p.emission)
    ensures
      var moved := if n == 0 then tat else Max(tat, now) + n * p.emission;
      Waits(p, tat, At(now, n + 1))[n] == Wait(p, moved, now)
    decreases n
  {
    assert At(now, n + 1)[0] == now && At(now, n + 1)[1..] == At(now, n);
    if n > 0 {
      OneMore(p.burst - 1, p.emission);
      OneMore(n - 1, p.emission);
      Grows(0, n - 1, p.emission);
      Grows(n, p.burst, p.emission);
      BurstTat(p, NextTat(p, tat, now), now, n - 1);
    }
  }
}
