/**
 * The relay's per-IP token bucket with amortised eviction, against the plain bucket map that
 * never forgets.  Tokens and seconds are reals; f64 rounding is not modelled.
 */
module RateLimit {
  import opened Prelude

  type Ip = nat

  /** A capacity, and the tokens that flow in during an interval of given length. */
  datatype Limits = Limits(capacity: nat, refill: real -> real) {
    function Cap(): real { capacity as real }
  }

  /** The configured limiter: a constant number of tokens per second. */
  function PerSecond(capacity: nat, refillPerSec: nat): Limits {
    Limits(capacity, (elapsed: real) => elapsed * refillPerSec as real)
  }

  /** The refill of two consecutive intervals is the refill of their union, and none is negative. */
  ghost predicate Adds(lim: Limits, x: real, y: real) {
    x >= 0.0 && y >= 0.0 ==> lim.refill(x + y) == lim.refill(x) + lim.refill(y) && lim.refill(x) >= 0.0
  }

  ghost predicate Steady(lim: Limits) { forall x: real, y: real :: Adds(lim, x, y) }

  lemma Product(x: real, y: real, r: real)
    ensures (x + y) * r == x * r + y * r
    ensures x >= 0.0 && r >= 0.0 ==> x * r >= 0.0
  {}

  lemma PerSecondAdds(capacity: nat, refillPerSec: nat, x: real, y: real)
    ensures Adds(PerSecond(capacity, refillPerSec), x, y)
  {
    Product(x, y, refillPerSec as real);
  }

  lemma PerSecondSteady(capacity: nat, refillPerSec: nat)
    ensures Steady(PerSecond(capacity, refillPerSec))
  {
    forall x: real, y: real ensures Adds(PerSecond(capacity, refillPerSec), x, y) {
      PerSecondAdds(capacity, refillPerSec, x, y);
    }
  }

  lemma NoTimeNoRefill(lim: Limits)
    requires Steady(lim)
    ensures lim.refill(0.0) == 0.0
  {
    assert Adds(lim, 0.0, 0.0);
  }

  datatype Bucket = Bucket(tokens: real, last: real)
  type Buckets = map<Ip, Bucket>
  datatype Request = Request(ip: Ip, at: real)

  const EVICT_ABOVE: nat := 100_000

  function MinReal(a: real, b: real): real { if a <= b then a else b }

  /** What a bucket holds at `now`. */
  function Level(lim: Limits, b: Bucket, now: real): real {
    MinReal(b.tokens + lim.refill(now - b.last), lim.Cap())
  }

  /** An unknown address starts full. */
  function LevelOf(lim: Limits, m: Buckets, ip: Ip, now: real): real {
    if ip in m then Level(lim, m[ip], now) else lim.Cap()
  }

  function Retained(lim: Limits, m: Buckets, now: real): Buckets {
    map ip | ip in m && Level(lim, m[ip], now) < lim.Cap() :: m[ip]
  }

  predicate Grants(lim: Limits, m: Buckets, r: Request) { LevelOf(lim, m, r.ip, r.at) >= 1.0 }

  /** The simple limiter: refill, then take one token if there is one. */
  function Taken(lim: Limits, m: Buckets, r: Request): Buckets {
    var l := LevelOf(lim, m, r.ip, r.at);
    m[r.ip := Bucket(if l >= 1.0 then l - 1.0 else l, r.at)]
  }

  /** The real limiter first forgets idle buckets when the map has grown large. */
  function Swept(lim: Limits, m: Buckets, now: real): Buckets {
    if |m| > EVICT_ABOVE then Retained(lim, m, now) else m
  }

  /** A bucket filled at `now` holds exactly its tokens at `now`. */
  lemma FreshLevel(lim: Limits, tokens: real, now: real)
    requires Steady(lim)
    ensures Level(lim, Bucket(tokens, now), now) == MinReal(tokens, lim.Cap())
  {
    assert now - now == 0.0;
    NoTimeNoRefill(lim);
  }

  // ---- runs ----

  ghost predicate Ordered(reqs: seq<Request>, from: real) {
    && (forall i :: 0 <= i < |reqs| ==> from <= reqs[i].at)
    && (forall i, j :: 0 <= i < j < |reqs| ==> reqs[i].at <= reqs[j].at)
  }

  /** The decisions on `reqs` from `m`, with or without eviction. */
  function Decisions(lim: Limits, m: Buckets, reqs: seq<Request>, evicting: bool): seq<bool>
    decreases |reqs|
  {
    if reqs == [] then []
    else
      var m1 := if evicting then Swept(lim, m, reqs[0].at) else m;
      [Grants(lim, m1, reqs[0])] + Decisions(lim, Taken(lim, m1, reqs[0]), reqs[1..], evicting)
  }

  /** Buckets as they can be at time `t`. */
  ghost predicate Sane(lim: Limits, m: Buckets, t: real) {
    forall ip :: ip in m ==> m[ip].last <= t && 0.0 <= m[ip].tokens <= lim.Cap()
  }

  /** Two maps that no request at or after `t` can tell apart. */
  ghost predicate Alike(lim: Limits, a: Buckets, b: Buckets, t: real) {
    forall ip :: LevelOf(lim, a, ip, t) == LevelOf(lim, b, ip, t)
  }

  /** Refilling to `t` and then to `u` is refilling to `u`. */
  lemma LevelLater(lim: Limits, m: Buckets, ip: Ip, t: real, u: real)
    requires Steady(lim) && Sane(lim, m, t) && t <= u
    ensures LevelOf(lim, m, ip, u) == MinReal(LevelOf(lim, m, ip, t) + lim.refill(u - t), lim.Cap())
    ensures 0.0 <= LevelOf(lim, m, ip, t) <= lim.Cap()
  {
    assert Adds(lim, u - t, 0.0);
    if ip in m {
      var b := m[ip];
      assert u - b.last == (t - b.last) + (u - t);
      assert Adds(lim, t - b.last, u - t);
    }
  }

  lemma AlikeLater(lim: Limits, a: Buckets, b: Buckets, t: real, u: real)
    requires Steady(lim) && Sane(lim, a, t) && Sane(lim, b, t) && t <= u && Alike(lim, a, b, t)
    ensures Alike(lim, a, b, u)
  {
    forall ip ensures LevelOf(lim, a, ip, u) == LevelOf(lim, b, ip, u) {
      LevelLater(lim, a, ip, t, u);
      LevelLater(lim, b, ip, t, u);
      assert LevelOf(lim, a, ip, t) == LevelOf(lim, b, ip, t);
    }
  }

  lemma SweepInvisible(lim: Limits, m: Buckets, t: real)
    requires Sane(lim, m, t)
    ensures Sane(lim, Swept(lim, m, t), t) && Alike(lim, Swept(lim, m, t), m, t)
  {
    forall ip ensures LevelOf(lim, Swept(lim, m, t), ip, t) == LevelOf(lim, m, ip, t) {}
  }

  lemma TakenLevel(lim: Limits, m: Buckets, r: Request, ip: Ip)
    requires Steady(lim) && Sane(lim, m, r.at)
    ensures Sane(lim, Taken(lim, m, r), r.at)
    ensures LevelOf(lim, Taken(lim, m, r), ip, r.at)
            == LevelOf(lim, m, ip, r.at) - (if ip == r.ip && Grants(lim, m, r) then 1.0 else 0.0)
  {
    LevelLater(lim, m, r.ip, r.at, r.at);
    var l := LevelOf(lim, m, r.ip, r.at);
    FreshLevel(lim, if l >= 1.0 then l - 1.0 else l, r.at);
  }

  lemma SaneLater(lim: Limits, m: Buckets, t: real, u: real)
    requires Sane(lim, m, t) && t <= u
    ensures Sane(lim, m, u)
  {}

  lemma {:induction false} SameDecisions(lim: Limits, a: Buckets, b: Buckets, reqs: seq<Request>, t: real)
    requires Steady(lim) && Sane(lim, a, t) && Sane(lim, b, t) && Alike(lim, a, b, t) && Ordered(reqs, t)
    ensures Decisions(lim, a, reqs, true) == Decisions(lim, b, reqs, false)
    decreases |reqs|
  {
    if reqs != [] {
      var r := reqs[0];
      SaneLater(lim, a, t, r.at);
      SaneLater(lim, b, t, r.at);
      AlikeLater(lim, a, b, t, r.at);
      SweepInvisible(lim, a, r.at);
      var a1 := Swept(lim, a, r.at);
      assert LevelOf(lim, a1, r.ip, r.at) == LevelOf(lim, a, r.ip, r.at) == LevelOf(lim, b, r.ip, r.at);
      forall ip ensures LevelOf(lim, Taken(lim, a1, r), ip, r.at) == LevelOf(lim, Taken(lim, b, r), ip, r.at) {
        TakenLevel(lim, a1, r, ip);
        TakenLevel(lim, b, r, ip);
        assert LevelOf(lim, a1, ip, r.at) == LevelOf(lim, a, ip, r.at) == LevelOf(lim, b, ip, r.at);
      }
      TakenLevel(lim, a1, r, r.ip);
      TakenLevel(lim, b, r, r.ip);
      SameDecisions(lim, Taken(lim, a1, r), Taken(lim, b, r), reqs[1..], r.at);
    }
  }

  /** Eviction is unobservable on every request sequence with nondecreasing time. */
  lemma EvictionUnobservable(capacity: nat, refillPerSec: nat, reqs: seq<Request>, t: real)
    requires Ordered(reqs, t)
    ensures var lim := PerSecond(capacity, refillPerSec);
      Decisions(lim, map[], reqs, true) == Decisions(lim, map[], reqs, false)
  {
    PerSecondSteady(capacity, refillPerSec);
    SameDecisions(PerSecond(capacity, refillPerSec), map[], map[], reqs, t);
  }

  // ---- the rate bound ----

  /** The map that the decision on a request at `now` sees. */
  function Seen(lim: Limits, m: Buckets, now: real, evicting: bool): Buckets {
    if evicting then Swept(lim, m, now) else m
  }

  /** The map after serving `reqs`, with or without eviction. */
  function After(lim: Limits, m: Buckets, reqs: seq<Request>, evicting: bool): Buckets
    decreases |reqs|
  {
    if reqs == [] then m
    else After(lim, Taken(lim, Seen(lim, m, reqs[0].at, evicting), reqs[0]), reqs[1..], evicting)
  }

  /** How many of `reqs` from `ip` are let through. */
  function Accepted(lim: Limits, m: Buckets, reqs: seq<Request>, ip: Ip): nat
    decreases |reqs|
  {
    if reqs == [] then 0
    else
      var m1 := Swept(lim, m, reqs[0].at);
      One(reqs[0].ip == ip && Grants(lim, m1, reqs[0]))
      + Accepted(lim, Taken(lim, m1, reqs[0]), reqs[1..], ip)
  }

  function One(b: bool): nat { if b then 1 else 0 }

  /** The first request, if accepted, is paid for by the level at `t` plus the refill up to it. */
  lemma FirstPaid(lim: Limits, m: Buckets, r: Request, ip: Ip, t: real)
    requires Steady(lim) && Sane(lim, m, t) && t <= r.at
    ensures var m1 := Swept(lim, m, r.at);
      && Sane(lim, Taken(lim, m1, r), r.at)
      && One(r.ip == ip && Grants(lim, m1, r)) as real + LevelOf(lim, Taken(lim, m1, r), ip, r.at)
         <= LevelOf(lim, m, ip, t) + lim.refill(r.at - t)
  {
    var m1 := Swept(lim, m, r.at);
    LevelLater(lim, m, ip, t, r.at);
    SaneLater(lim, m, t, r.at);
    SweepInvisible(lim, m, r.at);
    assert LevelOf(lim, m1, ip, r.at) == LevelOf(lim, m, ip, r.at);
    TakenLevel(lim, m1, r, ip);
  }

  /** Accepted requests are paid for by the level at the start plus what is refilled until `end`. */
  lemma {:induction false} AcceptedBounded(lim: Limits, m: Buckets, reqs: seq<Request>, ip: Ip, t: real, end: real)
    requires Steady(lim) && Sane(lim, m, t) && Ordered(reqs, t) && t <= end
    requires forall i :: 0 <= i < |reqs| ==> reqs[i].at <= end
    ensures Accepted(lim, m, reqs, ip) as real <= LevelOf(lim, m, ip, t) + lim.refill(end - t)
    decreases |reqs|
  {
    if reqs == [] {
      LevelLater(lim, m, ip, t, t);
      assert Adds(lim, end - t, 0.0);
    } else {
      var r, rest := reqs[0], reqs[1..];
      var m' := Taken(lim, Swept(lim, m, r.at), r);
      FirstPaid(lim, m, r, ip, t);
      AcceptedBounded(lim, m', rest, ip, r.at, end);
      assert end - t == (r.at - t) + (end - r.at);
      assert Adds(lim, r.at - t, end - r.at);
      assert Accepted(lim, m, reqs, ip)
        == One(r.ip == ip && Grants(lim, Swept(lim, m, r.at), r)) + Accepted(lim, m', rest, ip);
    }
  }

  lemma {:induction false} SaneAfter(lim: Limits, m: Buckets, reqs: seq<Request>, t: real, u: real)
    requires Steady(lim) && Sane(lim, m, t) && Ordered(reqs, t) && t <= u
    requires forall i :: 0 <= i < |reqs| ==> reqs[i].at <= u
    ensures Sane(lim, After(lim, m, reqs, true), u)
    decreases |reqs|
  {
    if reqs == [] {
      SaneLater(lim, m, t, u);
    } else {
      var r := reqs[0];
      SaneLater(lim, m, t, r.at);
      SweepInvisible(lim, m, r.at);
      TakenLevel(lim, Swept(lim, m, r.at), r, r.ip);
      SaneAfter(lim, Taken(lim, Swept(lim, m, r.at), r), reqs[1..], r.at, u);
    }
  }

  /** In any window of a run, one address gets at most the capacity plus the window's refill. */
  lemma WindowBound(lim: Limits, reqs: seq<Request>, i: nat, j: nat, ip: Ip)
    requires Steady(lim) && i < j <= |reqs| && Ordered(reqs, reqs[0].at)
    ensures Accepted(lim, After(lim, map[], reqs[..i], true), reqs[i..j], ip) as real
            <= lim.Cap() + lim.refill(reqs[j - 1].at - reqs[i].at)
  {
    var m, t, window := After(lim, map[], reqs[..i], true), reqs[i].at, reqs[i..j];
    PartOrdered(reqs, 0, i);
    PartOrdered(reqs, i, j);
    SaneAfter(lim, map[], reqs[..i], reqs[0].at, t);
    LevelLater(lim, m, ip, t, t);
    AcceptedBounded(lim, m, window, ip, t, reqs[j - 1].at);
  }

  lemma PartOrdered(reqs: seq<Request>, i: nat, j: nat)
    requires i <= j <= |reqs| && i < |reqs| && Ordered(reqs, reqs[0].at)
    ensures Ordered(reqs[i..j], reqs[i].at) && reqs[0].at <= reqs[i].at
    ensures forall k :: 0 <= k < |reqs[i..j]| ==> reqs[i..j][k].at <= reqs[if j > i then j - 1 else i].at
    ensures j < |reqs| ==> forall k :: 0 <= k < |reqs[i..j]| ==> reqs[i..j][k].at <= reqs[j].at
  {}

  lemma RefillIs(capacity: nat, refillPerSec: nat, d: real)
    ensures PerSecond(capacity, refillPerSec).refill(d) == d * refillPerSec as real
    ensures PerSecond(capacity, refillPerSec).Cap() == capacity as real
  {}

  /** For the configured limiter that is capacity + rate x length of the window. */
  lemma ConfiguredWindow(lim: Limits, reqs: seq<Request>, i: nat, j: nat, ip: Ip,
                         capacity: nat, rate: nat, length: real)
    requires i < j <= |reqs| && Ordered(reqs, reqs[0].at)
    requires lim == PerSecond(capacity, rate) && length == reqs[j - 1].at - reqs[i].at
    ensures Accepted(lim, After(lim, map[], reqs[..i], true), reqs[i..j], ip) as real
            <= capacity as real + length * rate as real
  {
    PerSecondSteady(capacity, rate);
    WindowBound(lim, reqs, i, j, ip);
    RefillIs(capacity, rate, length);
  }

  // ---- the exact law ----

  lemma {:induction false} AfterSnoc(lim: Limits, m: Buckets, reqs: seq<Request>, r: Request, evicting: bool)
    ensures After(lim, m, reqs + [r], evicting)
         == Taken(lim, Seen(lim, After(lim, m, reqs, evicting), r.at, evicting), r)
    decreases |reqs|
  {
    if reqs == [] {
      assert reqs + [r] == [r] && [r][1..] == [];
    } else {
      assert (reqs + [r])[1..] == reqs[1..] + [r];
      AfterSnoc(lim, Taken(lim, Seen(lim, m, reqs[0].at, evicting), reqs[0]), reqs[1..], r, evicting);
    }
  }

  /** The decision on each request is the one the map at that moment gives. */
  lemma {:induction false} DecisionAt(lim: Limits, m: Buckets, reqs: seq<Request>, n: nat, evicting: bool)
    requires n < |reqs|
    ensures |Decisions(lim, m, reqs, evicting)| == |reqs|
    ensures Decisions(lim, m, reqs, evicting)[n]
        <==> Grants(lim, Seen(lim, After(lim, m, reqs[..n], evicting), reqs[n].at, evicting), reqs[n])
    decreases |reqs|
  {
    var m1 := Taken(lim, Seen(lim, m, reqs[0].at, evicting), reqs[0]);
    if n == 0 {
      if |reqs| > 1 { DecisionAt(lim, m1, reqs[1..], 0, evicting); }
    } else {
      DecisionAt(lim, m1, reqs[1..], n - 1, evicting);
      assert reqs[..n][1..] == reqs[1..][..n - 1];
    }
  }

  /** How many of the requests `i`, ..., `n - 1` of `ip` were let through. */
  function Passed(reqs: seq<Request>, ds: seq<bool>, i: nat, n: nat, ip: Ip): nat
    requires i <= n <= |reqs| && n <= |ds|
    decreases n
  {
    if i == n then 0 else Passed(reqs, ds, i, n - 1, ip) + One(reqs[n - 1].ip == ip && ds[n - 1])
  }

  /** What request `i` leaves over at time `t`, if the bucket was full when it came. */
  function Left(lim: Limits, reqs: seq<Request>, ds: seq<bool>, i: nat, n: nat, ip: Ip, t: real): real
    requires i <= n <= |reqs| && i < |reqs| && n <= |ds|
  {
    lim.Cap() + lim.refill(t - reqs[i].at) - Passed(reqs, ds, i, n, ip) as real
  }

  /** `l` is the least of the capacity and what each earlier request of `ip` leaves over. */
  ghost predicate IsLeast(lim: Limits, reqs: seq<Request>, ds: seq<bool>, n: nat, ip: Ip, t: real, l: real)
    requires n <= |reqs| && n <= |ds|
  {
    && l <= lim.Cap()
    && (forall i :: 0 <= i < n && reqs[i].ip == ip ==> l <= Left(lim, reqs, ds, i, n, ip, t))
    && (l == lim.Cap() || exists i :: 0 <= i < n && reqs[i].ip == ip && l == Left(lim, reqs, ds, i, n, ip, t))
  }

  lemma OtherAddress(lim: Limits, reqs: seq<Request>, ds: seq<bool>, n: nat, ip: Ip, t: real, l: real)
    requires 0 < n <= |reqs| && n <= |ds| && reqs[n - 1].ip != ip && IsLeast(lim, reqs, ds, n - 1, ip, t, l)
    ensures IsLeast(lim, reqs, ds, n, ip, t, l)
  {
    assert forall i :: 0 <= i < n - 1 ==> Passed(reqs, ds, i, n, ip) == Passed(reqs, ds, i, n - 1, ip);
    if l != lim.Cap() {
      var i :| 0 <= i < n - 1 && reqs[i].ip == ip && l == Left(lim, reqs, ds, i, n - 1, ip, t);
      assert l == Left(lim, reqs, ds, i, n, ip, t);
    }
  }

  /** From one request of `ip` to the next moment: what is left shrinks by the token and grows by the refill. */
  lemma LeftLater(lim: Limits, reqs: seq<Request>, ds: seq<bool>, i: nat, n: nat, ip: Ip, t: real)
    requires Steady(lim) && i < n <= |reqs| && n <= |ds| && reqs[n - 1].ip == ip
    requires reqs[i].at <= reqs[n - 1].at <= t
    ensures Left(lim, reqs, ds, i, n, ip, t)
         == Left(lim, reqs, ds, i, n - 1, ip, reqs[n - 1].at) + lim.refill(t - reqs[n - 1].at) - One(ds[n - 1]) as real
  {
    var now := reqs[n - 1].at;
    assert Adds(lim, now - reqs[i].at, t - now);
    assert t - reqs[i].at == (now - reqs[i].at) + (t - now);
  }

  lemma SameAddress(lim: Limits, reqs: seq<Request>, ds: seq<bool>, n: nat, ip: Ip, t: real, l: real, l': real)
    requires Steady(lim) && 0 < n <= |reqs| && n <= |ds| && reqs[n - 1].ip == ip && reqs[n - 1].at <= t
    requires forall i :: 0 <= i < n ==> reqs[i].at <= reqs[n - 1].at
    requires IsLeast(lim, reqs, ds, n - 1, ip, reqs[n - 1].at, l)
    requires l' == MinReal(l - One(ds[n - 1]) as real + lim.refill(t - reqs[n - 1].at), lim.Cap())
    ensures IsLeast(lim, reqs, ds, n, ip, t, l')
  {
    var now := reqs[n - 1].at;
    NoTimeNoRefill(lim);
    forall i | 0 <= i < n && reqs[i].ip == ip
      ensures Left(lim, reqs, ds, i, n, ip, t)
           == Left(lim, reqs, ds, i, n - 1, ip, now) + lim.refill(t - now) - One(ds[n - 1]) as real
    {
      LeftLater(lim, reqs, ds, i, n, ip, t);
    }
    assert Left(lim, reqs, ds, n - 1, n - 1, ip, now) == lim.Cap();
    if l' != lim.Cap() {
      if l == lim.Cap() {
        assert l' == Left(lim, reqs, ds, n - 1, n, ip, t);
      } else {
        var i :| 0 <= i < n - 1 && reqs[i].ip == ip && l == Left(lim, reqs, ds, i, n - 1, ip, now);
        assert l' == Left(lim, reqs, ds, i, n, ip, t);
      }
    }
  }

  /** The level of an address, in terms of the decisions so far and the clock alone. */
  lemma {:induction false} LevelIs(lim: Limits, reqs: seq<Request>, ds: seq<bool>, n: nat, ip: Ip, t: real)
    requires Steady(lim) && n <= |reqs| && ds == Decisions(lim, map[], reqs, false) && |ds| == |reqs|
    requires forall i, j :: 0 <= i < j < n ==> reqs[i].at <= reqs[j].at
    requires forall i :: 0 <= i < n ==> reqs[i].at <= t
    ensures IsLeast(lim, reqs, ds, n, ip, t, LevelOf(lim, After(lim, map[], reqs[..n], false), ip, t))
    decreases n
  {
    if n > 0 {
      var r, m := reqs[n - 1], After(lim, map[], reqs[..n - 1], false);
      assert reqs[..n] == reqs[..n - 1] + [r];
      AfterSnoc(lim, map[], reqs[..n - 1], r, false);
      if r.ip != ip {
        LevelIs(lim, reqs, ds, n - 1, ip, t);
        OtherAddress(lim, reqs, ds, n, ip, t, LevelOf(lim, m, ip, t));
      } else {
        LevelIs(lim, reqs, ds, n - 1, ip, r.at);
        DecisionAt(lim, map[], reqs, n - 1, false);
        SameAddress(lim, reqs, ds, n, ip, t, LevelOf(lim, m, ip, r.at), LevelOf(lim, Taken(lim, m, r), ip, t));
      }
    }
  }

  /**
   * The law of the limiter, on decisions and times alone: request `n` is let through if and only if the
   * capacity is at least one and, counted from every earlier request of its address, one more acceptance stays
   * within the capacity plus the refill since.
   */
  ghost predicate Lawful(lim: Limits, reqs: seq<Request>, ds: seq<bool>, n: nat)
    requires n < |reqs| && n <= |ds|
  {
    && lim.Cap() >= 1.0
    && forall i :: 0 <= i < n && reqs[i].ip == reqs[n].ip ==>
         Passed(reqs, ds, i, n, reqs[n].ip) as real + 1.0 <= lim.Cap() + lim.refill(reqs[n].at - reqs[i].at)
  }

  lemma {:induction false} DecisionLaw(lim: Limits, reqs: seq<Request>, n: nat)
    requires Steady(lim) && n < |reqs| && Ordered(reqs, reqs[0].at)
    ensures |Decisions(lim, map[], reqs, true)| == |reqs|
    ensures Decisions(lim, map[], reqs, true)[n] <==> Lawful(lim, reqs, Decisions(lim, map[], reqs, true), n)
  {
    var ds, r := Decisions(lim, map[], reqs, false), reqs[n];
    SameDecisions(lim, map[], map[], reqs, reqs[0].at);
    DecisionAt(lim, map[], reqs, n, false);
    LevelIs(lim, reqs, ds, n, r.ip, r.at);
    var l := LevelOf(lim, After(lim, map[], reqs[..n], false), r.ip, r.at);
    assert l >= 1.0 <==> Lawful(lim, reqs, ds, n) by {
      forall i | 0 <= i < n && reqs[i].ip == r.ip
        ensures Left(lim, reqs, ds, i, n, r.ip, r.at) >= 1.0 <==>
          Passed(reqs, ds, i, n, r.ip) as real + 1.0 <= lim.Cap() + lim.refill(r.at - reqs[i].at)
      {}
    }
  }

  /** In figures: `passed` acceptances and one more, in `elapsed` seconds after a full bucket. */
  predicate WithinRate(capacity: nat, rate: nat, passed: nat, elapsed: real) {
    passed as real + 1.0 <= capacity as real + elapsed * rate as real
  }

  ghost predicate LawfulInFigures(capacity: nat, rate: nat, reqs: seq<Request>, ds: seq<bool>, n: nat)
    requires n < |reqs| && n <= |ds|
  {
    && capacity >= 1
    && forall i :: 0 <= i < n && reqs[i].ip == reqs[n].ip ==>
         WithinRate(capacity, rate, Passed(reqs, ds, i, n, reqs[n].ip), reqs[n].at - reqs[i].at)
  }

  lemma InFigures(capacity: nat, rate: nat, passed: nat, elapsed: real)
    ensures var lim := PerSecond(capacity, rate);
      && (lim.Cap() >= 1.0 <==> capacity >= 1)
      && (passed as real + 1.0 <= lim.Cap() + lim.refill(elapsed) <==> WithinRate(capacity, rate, passed, elapsed))
  {
    RefillIs(capacity, rate, elapsed);
  }

  lemma LawInFigures(capacity: nat, rate: nat, reqs: seq<Request>, ds: seq<bool>, n: nat)
    requires n < |reqs| && n <= |ds|
    ensures Lawful(PerSecond(capacity, rate), reqs, ds, n) <==> LawfulInFigures(capacity, rate, reqs, ds, n)
  {
    var lim := PerSecond(capacity, rate);
    InFigures(capacity, rate, 0, 0.0);
    forall i | 0 <= i < n && reqs[i].ip == reqs[n].ip
      ensures Passed(reqs, ds, i, n, reqs[n].ip) as real + 1.0 <= lim.Cap() + lim.refill(reqs[n].at - reqs[i].at)
        <==> WithinRate(capacity, rate, Passed(reqs, ds, i, n, reqs[n].ip), reqs[n].at - reqs[i].at)
    {
      InFigures(capacity, rate, Passed(reqs, ds, i, n, reqs[n].ip), reqs[n].at - reqs[i].at);
    }
  }

  /** The law for the configured limiter: capacity, rate, decisions and times. */
  lemma ExactLimit(capacity: nat, rate: nat, reqs: seq<Request>, n: nat)
    requires n < |reqs| && Ordered(reqs, reqs[0].at)
    ensures var ds := Decisions(PerSecond(capacity, rate), map[], reqs, true);
      |ds| == |reqs| && (ds[n] <==> LawfulInFigures(capacity, rate, reqs, ds, n))
  {
    PerSecondSteady(capacity, rate);
    DecisionLaw(PerSecond(capacity, rate), reqs, n);
    LawInFigures(capacity, rate, reqs, Decisions(PerSecond(capacity, rate), map[], reqs, true), n);
  }

  /** How many of the requests before `n` came from `ip`. */
  function Asked(reqs: seq<Request>, i: nat, n: nat, ip: Ip): nat
    requires i <= n <= |reqs|
    decreases n
  {
    if i == n then 0 else Asked(reqs, i, n - 1, ip) + One(reqs[n - 1].ip == ip)
  }

  lemma {:induction false} PassedWithinAsked(reqs: seq<Request>, ds: seq<bool>, i: nat, n: nat, ip: Ip)
    requires i <= n <= |reqs| && n <= |ds|
    ensures Passed(reqs, ds, i, n, ip) <= Asked(reqs, i, n, ip) <= Asked(reqs, 0, n, ip)
    decreases n
  {
    if i < n { PassedWithinAsked(reqs, ds, i, n - 1, ip); }
  }

  /** A burst is served up to the capacity: the first `capacity` requests of an address all pass. */
  lemma BurstPasses(capacity: nat, rate: nat, reqs: seq<Request>, n: nat)
    requires n < |reqs| && Ordered(reqs, reqs[0].at) && Asked(reqs, 0, n, reqs[n].ip) < capacity
    ensures |Decisions(PerSecond(capacity, rate), map[], reqs, true)| == |reqs|
    ensures Decisions(PerSecond(capacity, rate), map[], reqs, true)[n]
  {
    var ds := Decisions(PerSecond(capacity, rate), map[], reqs, true);
    ExactLimit(capacity, rate, reqs, n);
    forall i | 0 <= i < n && reqs[i].ip == reqs[n].ip
      ensures WithinRate(capacity, rate, Passed(reqs, ds, i, n, reqs[n].ip), reqs[n].at - reqs[i].at)
    {
      PassedWithinAsked(reqs, ds, i, n, reqs[n].ip);
      FewEnough(capacity, rate, Passed(reqs, ds, i, n, reqs[n].ip), reqs[n].at - reqs[i].at);
    }
    assert LawfulInFigures(capacity, rate, reqs, ds, n);
  }

  lemma FewEnough(capacity: nat, rate: nat, passed: nat, elapsed: real)
    requires passed < capacity && elapsed >= 0.0
    ensures WithinRate(capacity, rate, passed, elapsed)
  {
    Product(elapsed, 0.0, rate as real);
  }

  // ---- the object ----

  lemma {:induction false} DecisionsSnoc(lim: Limits, m: Buckets, reqs: seq<Request>, r: Request)
    ensures Decisions(lim, m, reqs + [r], true)
         == Decisions(lim, m, reqs, true) + [Grants(lim, Swept(lim, After(lim, m, reqs, true), r.at), r)]
    decreases |reqs|
  {
    if reqs == [] {
      assert reqs + [r] == [r] && [r][1..] == [];
    } else {
      assert (reqs + [r])[1..] == reqs[1..] + [r];
      DecisionsSnoc(lim, Taken(lim, Swept(lim, m, reqs[0].at), reqs[0]), reqs[1..], r);
    }
  }

  /** Refilling the entry, or a full one where there is none, gives the level of the address. */
  lemma EntryLevel(lim: Limits, m: Buckets, ip: Ip, now: real)
    requires Steady(lim)
    ensures var b := if ip in m then m[ip] else Bucket(lim.Cap(), now);
      MinReal(b.tokens + lim.refill(now - b.last), lim.Cap()) == LevelOf(lim, m, ip, now)
  {
    FreshLevel(lim, lim.Cap(), now);
  }

  /** One more request served: the map, the decisions and the law move on together. */
  lemma OneMoreServed(lim: Limits, served: seq<Request>, r: Request)
    requires Steady(lim)
    ensures var m, ds := After(lim, map[], served, true), Decisions(lim, map[], served, true);
      var ok := Grants(lim, Swept(lim, m, r.at), r);
      && After(lim, map[], served + [r], true) == Taken(lim, Swept(lim, m, r.at), r)
      && Decisions(lim, map[], served + [r], true) == ds + [ok]
      && |ds + [ok]| == |served + [r]|
      && (Ordered(served + [r], (served + [r])[0].at) ==> (ok <==> Lawful(lim, served + [r], ds + [ok], |served|)))
  {
    var all := served + [r];
    AfterSnoc(lim, map[], served, r, true);
    DecisionsSnoc(lim, map[], served, r);
    DecisionAt(lim, map[], all, |served|, true);
    if Ordered(all, all[0].at) { DecisionLaw(lim, all, |served|); }
  }

  class Relay {
    const lim: Limits
    var buckets: Buckets
    ghost var served: seq<Request>       // every request so far
    ghost var answers: seq<bool>         // and what it was told

    constructor (l: Limits)
      ensures lim == l && buckets == map[] && Valid() && served == []
    {
      lim, buckets, served, answers := l, map[], [], [];
    }

    ghost predicate Valid()
      reads this
    {
      && |answers| == |served|
      && answers == Decisions(lim, map[], served, true)
      && buckets == After(lim, map[], served, true)
    }

    /** One request.  If the clock never ran back, the answer is the one the law gives for its history. */
    method Allow(ip: Ip, now: real) returns (ok: bool)
      requires Valid() && Steady(lim)
      modifies this
      ensures Valid() && served == old(served) + [Request(ip, now)] && answers == old(answers) + [ok]
      ensures Ordered(served, served[0].at) ==> (ok <==> Lawful(lim, served, answers, |served| - 1))
    {
      OneMoreServed(lim, served, Request(ip, now));
      ok := Take(ip, now);
      served, answers := served + [Request(ip, now)], answers + [ok];
    }

    /** Evict if the map is large, refill the bucket, and take a token if there is one. */
    method Take(ip: Ip, now: real) returns (ok: bool)
      requires Steady(lim)
      modifies this`buckets
      ensures ok == Grants(lim, Swept(lim, old(buckets), now), Request(ip, now))
      ensures buckets == Taken(lim, Swept(lim, old(buckets), now), Request(ip, now))
    {
      if |buckets| > EVICT_ABOVE {
        buckets := Retained(lim, buckets, now);
      }
      var b := if ip in buckets then buckets[ip] else Bucket(lim.Cap(), now);
      EntryLevel(lim, buckets, ip, now);
      var elapsed := now - b.last;
      b := b.(tokens := MinReal(b.tokens + lim.refill(elapsed), lim.Cap()));
      b := b.(last := now);
      if b.tokens >= 1.0 {
        b := b.(tokens := b.tokens - 1.0);
        ok := true;
      } else {
        ok := false;
      }
      buckets := buckets[ip := b];
    }
  }
}
