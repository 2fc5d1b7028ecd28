/**
 The Redis fixed-window limiter. Times are whole milliseconds. A Redis key with expiry `e` is still there at
 time `e` and gone right after it, and reports a time to live of `e - now`.
 */
module RateLimit {
  import opened Prelude

  /** The counter of one identity: the window began at `start` and has seen `count` requests. */
  datatype Window = Window(start: int, count: nat)

  datatype Limits = Limits(maxRequests: int, windowSeconds: nat) {
    function Ms(): nat {
      windowSeconds * 1000
    }
    function Cap(): nat {
      if maxRequests < 0 then 0 else maxRequests
    }
  }

  datatype Decision = Decision(allowed: bool, retryAfter: int)

  predicate Alive(w: Option<Window>, l: Limits, now: int) {
    w.Some? && now <= w.value.start + l.Ms()
  }

  /** The key after the Lua script has run. */
  function Increment(w: Option<Window>, l: Limits, now: int): Window {
    if Alive(w, l, now) then w.value.(count := w.value.count + 1) else Window(now, 1)
  }

  /** `retry_after_seconds_from_ttl_ms` */
  function RetryAfter(ttl: int, windowSeconds: nat): int {
    if ttl > 0 then (ttl + 999) / 1000 else if ttl == 0 then 1 else windowSeconds
  }

  function Decide(w: Option<Window>, l: Limits, now: int): Decision {
    var v := Increment(w, l, now);
    if v.count <= l.maxRequests then Decision(true, 0)
    else Decision(false, RetryAfter(v.start + l.Ms() - now, l.windowSeconds))
  }

  // ---------- Runs of one identity ----------

  /** The counter after checks at these times. */
  function After(l: Limits, ts: seq<int>): Option<Window> {
    if ts == [] then None else Some(Increment(After(l, ts[..|ts| - 1]), l, ts[|ts| - 1]))
  }

  /** The decision on a last check after earlier ones. */
  predicate Allows(l: Limits, earlier: seq<int>, now: int) {
    Decide(After(l, earlier), l, now).allowed
  }

  predicate Ascending(ts: seq<int>) {
    forall i, k :: 0 <= i < k < |ts| ==> ts[i] <= ts[k]
  }

  /** How many checks at a time in `[lo, hi)` were allowed. */
  function AllowedIn(l: Limits, ts: seq<int>, lo: int, hi: int): nat {
    if ts == [] then 0
    else
      var m := |ts| - 1;
      AllowedIn(l, ts[..m], lo, hi) + if Allows(l, ts[..m], ts[m]) && lo <= ts[m] < hi then 1 else 0
  }

  /** How many checks were allowed in the window that began at `start`. */
  function AllowedInWindow(l: Limits, ts: seq<int>, start: int): nat {
    if ts == [] then 0
    else
      var m := |ts| - 1;
      AllowedInWindow(l, ts[..m], start) + if Allows(l, ts[..m], ts[m]) && After(l, ts).value.start == start then 1 else 0
  }

  function Min(a: nat, b: nat): nat {
    if a < b then a else b
  }

  /** The window covers the latest check. */
  lemma {:induction false} LatestInWindow(l: Limits, ts: seq<int>)
    requires Ascending(ts) && ts != []
    ensures var w := After(l, ts).value;
            w.start <= ts[|ts| - 1] <= w.start + l.Ms() && w.count >= 1
  {
    var m := |ts| - 1;
    if m > 0 {
      LatestInWindow(l, ts[..m]);
    }
  }

  /** Every window allows at most the limit, and exactly the limit once it has denied a request. */
  lemma {:induction false} WindowBound(l: Limits, ts: seq<int>, start: int)
    requires Ascending(ts)
    ensures AllowedInWindow(l, ts, start) <= l.Cap()
    ensures ts != [] ==>
              var w := After(l, ts).value;
              && (start == w.start ==> AllowedInWindow(l, ts, start) == Min(w.count, l.Cap()))
              && (start > w.start ==> AllowedInWindow(l, ts, start) == 0)
  {
    if ts != [] {
      var m := |ts| - 1;
      WindowBound(l, ts[..m], start);
      if m > 0 {
        LatestInWindow(l, ts[..m]);
      }
    }
  }

  // ---------- Any interval of window length ----------

  /** Allowed checks in `[lo, hi)`, split into those of the current window and those of earlier ones. */
  datatype Tally = Tally(earlier: nat, current: nat)

  function Count(l: Limits, ts: seq<int>, lo: int, hi: int): Tally {
    if ts == [] then Tally(0, 0)
    else
      var m := |ts| - 1;
      var t := Count(l, ts[..m], lo, hi);
      var one := if Allows(l, ts[..m], ts[m]) && lo <= ts[m] < hi then 1 else 0;
      if Alive(After(l, ts[..m]), l, ts[m]) then Tally(t.earlier, t.current + one)
      else Tally(t.earlier + t.current, one)
  }

  lemma {:induction false} CountIsAllowed(l: Limits, ts: seq<int>, lo: int, hi: int)
    ensures var t := Count(l, ts, lo, hi); t.earlier + t.current == AllowedIn(l, ts, lo, hi)
  {
    if ts != [] {
      CountIsAllowed(l, ts[..|ts| - 1], lo, hi);
    }
  }

  /**
   Why two windows are the most an interval can meet: the current one lost its first request if it began before
   the interval, and if it began inside, the next one begins after it.
   */
  ghost predicate TallyOk(l: Limits, w: Window, t: Tally, lo: int) {
    var cap, hi := l.Cap(), lo + l.Ms();
    && t.current <= Min(w.count, cap)
    && (w.start < lo && t.current > 0 ==> t.current < Min(w.count, cap))
    && (t.current > 0 ==> lo <= w.start + l.Ms() && w.start < hi)
    && (t.earlier > 0 ==> lo < w.start)
    && (w.start < hi ==> t.earlier < cap || t.earlier == 0)
    && (t.earlier == 0 || t.earlier < 2 * cap)
    && (t.earlier + t.current == 0 || t.earlier + t.current < 2 * cap)
  }

  lemma TallyAlive(l: Limits, w: Window, t: Tally, lo: int, now: int)
    requires TallyOk(l, w, t, lo) && w.start <= now <= w.start + l.Ms() && w.count >= 1
    ensures var one := if w.count + 1 <= l.maxRequests && lo <= now < lo + l.Ms() then 1 else 0;
            TallyOk(l, w.(count := w.count + 1), Tally(t.earlier, t.current + one), lo)
  {
  }

  lemma TallyFresh(l: Limits, w: Window, t: Tally, lo: int, now: int)
    requires TallyOk(l, w, t, lo) && now > w.start + l.Ms()
    ensures var one := if 1 <= l.maxRequests && lo <= now < lo + l.Ms() then 1 else 0;
            TallyOk(l, Window(now, 1), Tally(t.earlier + t.current, one), lo)
  {
  }

  lemma TallyFirst(l: Limits, lo: int, now: int)
    ensures var one := if 1 <= l.maxRequests && lo <= now < lo + l.Ms() then 1 else 0;
            TallyOk(l, Window(now, 1), Tally(0, one), lo)
  {
  }

  /** One more check, after at least one. */
  lemma TallyNext(l: Limits, ts: seq<int>, lo: int, w: Window, t: Tally)
    requires ts != [] && After(l, ts[..|ts| - 1]) == Some(w) && Count(l, ts[..|ts| - 1], lo, lo + l.Ms()) == t
    requires TallyOk(l, w, t, lo) && w.start <= ts[|ts| - 1] && w.count >= 1
    ensures TallyOk(l, After(l, ts).value, Count(l, ts, lo, lo + l.Ms()), lo)
  {
    var now := ts[|ts| - 1];
    if now <= w.start + l.Ms() {
      TallyAlive(l, w, t, lo, now);
    } else {
      TallyFresh(l, w, t, lo, now);
    }
  }

  lemma {:induction false} TallyHolds(l: Limits, ts: seq<int>, lo: int)
    requires Ascending(ts) && ts != []
    ensures TallyOk(l, After(l, ts).value, Count(l, ts, lo, lo + l.Ms()), lo)
  {
    var m := |ts| - 1;
    if m == 0 {
      TallyFirst(l, lo, ts[0]);
    } else {
      TallyHolds(l, ts[..m], lo);
      LatestInWindow(l, ts[..m]);
      TallyNext(l, ts, lo, After(l, ts[..m]).value, Count(l, ts[..m], lo, lo + l.Ms()));
    }
  }

  /**
   In any half-open interval as long as the window, at most one less than twice the limit is allowed: of the two
   windows such an interval can meet, the first began before it.
   */
  lemma IntervalBound(l: Limits, ts: seq<int>, lo: int)
    requires Ascending(ts)
    ensures AllowedIn(l, ts, lo, lo + l.Ms()) <= if l.Cap() == 0 then 0 else 2 * l.Cap() - 1
  {
    CountIsAllowed(l, ts, lo, lo + l.Ms());
    if ts != [] {
      TallyHolds(l, ts, lo);
    }
  }

  // ---------- The bound is attained ----------

  function Repeat(t: int, n: nat): seq<int> {
    seq(n, _ => t)
  }

  lemma SnocUnfolds(l: Limits, ts: seq<int>, t: int, lo: int, hi: int)
    ensures After(l, ts + [t]) == Some(Increment(After(l, ts), l, t))
    ensures AllowedIn(l, ts + [t], lo, hi) ==
            AllowedIn(l, ts, lo, hi) + if Allows(l, ts, t) && lo <= t < hi then 1 else 0
  {
    assert (ts + [t])[..|ts|] == ts;
  }

  /** `n` more checks at one time, all in the current window and within the limit. */
  lemma {:induction false} RepeatAllowed(l: Limits, ts: seq<int>, t: int, n: nat, lo: int, hi: int)
    requires ts != [] && Alive(After(l, ts), l, t) && After(l, ts).value.count + n <= l.maxRequests && lo <= t < hi
    ensures After(l, ts + Repeat(t, n)) == Some(After(l, ts).value.(count := After(l, ts).value.count + n))
    ensures AllowedIn(l, ts + Repeat(t, n), lo, hi) == AllowedIn(l, ts, lo, hi) + n
  {
    if n == 0 {
      assert ts + Repeat(t, 0) == ts;
    } else {
      RepeatAllowed(l, ts, t, n - 1, lo, hi);
      assert ts + Repeat(t, n) == ts + Repeat(t, n - 1) + [t];
      SnocUnfolds(l, ts + Repeat(t, n - 1), t, lo, hi);
    }
  }

  /** One request, the rest of the limit at the very end of its window, and the limit again right after. */
  function Burst(l: Limits): seq<int>
    requires l.maxRequests >= 1
  {
    [0] + Repeat(l.Ms(), l.maxRequests - 1) + [l.Ms() + 1] + Repeat(l.Ms() + 1, l.maxRequests - 1)
  }

  /** The burst up to the end of the first window. */
  lemma BurstFirstHalf(l: Limits, a: seq<int>)
    requires l.maxRequests >= 1 && l.windowSeconds >= 1 && a == [0] + Repeat(l.Ms(), l.maxRequests - 1)
    ensures After(l, a) == Some(Window(0, l.maxRequests)) && AllowedIn(l, a, l.Ms(), 2 * l.Ms()) == l.maxRequests - 1
  {
    SnocUnfolds(l, [], 0, l.Ms(), 2 * l.Ms());
    assert [] + [0] == [0];
    RepeatAllowed(l, [0], l.Ms(), l.maxRequests - 1, l.Ms(), 2 * l.Ms());
  }

  lemma BurstAscends(l: Limits)
    requires l.maxRequests >= 1
    ensures Ascending(Burst(l))
  {
  }

  lemma BurstAttainsBound(l: Limits)
    requires l.maxRequests >= 1 && l.windowSeconds >= 1
    ensures Ascending(Burst(l)) && AllowedIn(l, Burst(l), l.Ms(), 2 * l.Ms()) == 2 * l.Cap() - 1
  {
    BurstAscends(l);
    var w, n := l.Ms(), l.maxRequests - 1;
    var a := [0] + Repeat(w, n);
    BurstFirstHalf(l, a);
    SnocUnfolds(l, a, w + 1, w, 2 * w);
    RepeatAllowed(l, a + [w + 1], w + 1, n, w, 2 * w);
  }

  // ---------- Retry-After ----------

  /**
   Waiting as told always reaches the end of the window and is never rounded up by a whole second; a lone retry
   after exactly that wait opens a new window unless it lands on the last instant of the old one, which it
   does exactly when the time to live was a positive whole number of seconds.
   */
  lemma RetryAfterReachesEnd(l: Limits, w: Option<Window>, now: int)
    requires w.Some? ==> w.value.start <= now
    requires !Decide(w, l, now).allowed && l.windowSeconds >= 1 && l.maxRequests >= 1
    ensures var v := Increment(w, l, now);
            var ttl := v.start + l.Ms() - now;
            var later := now + Decide(w, l, now).retryAfter * 1000;
            && 0 <= ttl <= l.Ms()
            && v.start + l.Ms() <= later
            && (ttl > 0 ==> later < v.start + l.Ms() + 1000)
            && (Decide(Some(v), l, later).allowed <==> ttl == 0 || ttl % 1000 != 0)
  {
    var v := Increment(w, l, now);
    var ttl := v.start + l.Ms() - now;
    var later := now + Decide(w, l, now).retryAfter * 1000;
    RoundsUp(ttl);
    assert v.count > l.maxRequests;
    assert later <= v.start + l.Ms() <==> ttl > 0 && ttl % 1000 == 0;
  }

  /** The failed property on a real input: one request a second, and a retry after the second it was told to wait. */
  lemma PunctualRetryDenied()
    ensures var l := Limits(1, 1);
            && Allows(l, [], 0)
            && Decide(After(l, [0]), l, 0) == Decision(false, 1)
            && !Allows(l, [0, 0], 1000)
  {
    var l := Limits(1, 1);
    SnocUnfolds(l, [], 0, 0, 0);
    SnocUnfolds(l, [0], 0, 0, 0);
    assert [] + [0] == [0] && [0] + [0] == [0, 0];
  }

  lemma RoundsUp(ttl: int)
    ensures ttl > 0 ==> ttl <= (ttl + 999) / 1000 * 1000 < ttl + 1000
    ensures ttl > 0 ==> ((ttl + 999) / 1000 * 1000 == ttl <==> ttl % 1000 == 0)
  {
  }

  // ---------- Many identities ----------

  datatype Request = Request(identity: string, at: int)

  /** The check times of one identity. */
  function TimesOf(rs: seq<Request>, identity: string): seq<int> {
    if rs == [] then []
    else
      var r := rs[|rs| - 1];
      TimesOf(rs[..|rs| - 1], identity) + if r.identity == identity then [r.at] else []
  }

  function Get(keys: map<string, Window>, identity: string): Option<Window> {
    if identity in keys then Some(keys[identity]) else None
  }

  class RateLimiter {
    const limits: Limits
    var keys: map<string, Window>
    ghost var served: seq<Request>

    /** Each identity's counter depends on its own requests only. */
    ghost predicate Valid()
      reads this
    {
      forall identity :: Get(keys, identity) == After(limits, TimesOf(served, identity))
    }

    constructor (limits: Limits)
      ensures Valid() && this.limits == limits && served == []
    {
      this.limits, keys, served := limits, map[], [];
    }

    /** `check`: fails open when Redis does, and otherwise decides by the identity's own history. */
    method Check(identity: string, now: int, redisUp: bool) returns (d: Decision)
      requires Valid()
      modifies this
      ensures Valid()
      ensures !redisUp ==> d == Decision(true, 0) && served == old(served) && keys == old(keys)
      ensures redisUp ==> served == old(served) + [Request(identity, now)]
      ensures redisUp ==> d.allowed == Allows(limits, TimesOf(old(served), identity), now)
      ensures redisUp ==> forall other :: other != identity ==> Get(keys, other) == Get(old(keys), other)
    {
      if !redisUp { return Decision(true, 0); }
      var key := Get(keys, identity);
      var current := if Alive(key, limits, now) then key.value.count + 1 else 1;
      var start := if current == 1 then now else key.value.start;
      keys := keys[identity := Window(start, current)];
      var ttl := start + limits.Ms() - now;
      served := served + [Request(identity, now)];
      assert served[..|served| - 1] == old(served);
      ServedUnfolds(limits, old(served), Request(identity, now));
      if current <= limits.maxRequests { return Decision(true, 0); }
      return Decision(false, RetryAfter(ttl, limits.windowSeconds));
    }
  }

  lemma ServedUnfolds(l: Limits, rs: seq<Request>, r: Request)
    ensures forall identity :: After(l, TimesOf(rs + [r], identity)) ==
              if identity == r.identity then Some(Increment(After(l, TimesOf(rs, identity)), l, r.at))
              else After(l, TimesOf(rs, identity))
  {
    assert (rs + [r])[..|rs|] == rs;
    SnocUnfolds(l, TimesOf(rs, r.identity), r.at, 0, 0);
    forall identity | identity != r.identity ensures TimesOf(rs + [r], identity) == TimesOf(rs, identity) {
    }
  }
}
