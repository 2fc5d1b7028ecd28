/**
 The retry budget of one consumed record: the worst-case formulas, the admission-control deadline, and
 the retry loop that the apply, dead-letter and commit stages all share. Seconds are reals.
 */
module Timing {

  datatype Params = Params(
    maxAttempts: int, base: real, maxBackoff: real, jitter: real, margin: real,
    connect: real, pool: real, statement: real, overhead: real, roundTrips: int)

  // ---------- timeout_math ----------

  function Ceil(x: real): int {
    -((-x).Floor)
  }

  function EffectiveConnect(x: real): int {
    if Ceil(x) > 1 then Ceil(x) else 1
  }

  function EffectiveStatementMs(x: real): int {
    if Ceil(x * 1000.0) > 1 then Ceil(x * 1000.0) else 1
  }

  function EffectiveStatement(x: real): real {
    EffectiveStatementMs(x) as real / 1000.0
  }

  /** Never zero, never shorter than configured, and the least whole unit with that property. */
  lemma EffectiveTimeouts(x: real, n: int)
    requires n >= 1
    ensures 1 <= EffectiveConnect(x) && x <= EffectiveConnect(x) as real
    ensures x <= n as real ==> EffectiveConnect(x) <= n
    ensures 1 <= EffectiveStatementMs(x) && x <= EffectiveStatement(x)
    ensures x * 1000.0 <= n as real ==> EffectiveStatementMs(x) <= n
  {
  }

  // ---------- Formulas ----------

  /** `worst_case_attempt_seconds` */
  function AttemptBound(p: Params): real {
    p.pool + EffectiveConnect(p.connect) as real
    + p.roundTrips as real * EffectiveStatement(p.statement) + p.overhead
  }

  function TimeSum(xs: seq<real>): real {
    if xs == [] then 0.0 else TimeSum(xs[..|xs| - 1]) + xs[|xs| - 1]
  }

  lemma {:induction false} SumBound(xs: seq<real>, x: real)
    requires forall i :: 0 <= i < |xs| ==> xs[i] <= x
    ensures TimeSum(xs) <= |xs| as real * x
    ensures (forall i :: 0 <= i < |xs| ==> xs[i] == x) ==> TimeSum(xs) == |xs| as real * x
  {
    if xs != [] {
      var m := |xs| - 1;
      SumBound(xs[..m], x);
      assert |xs| as real * x == m as real * x + x;
    }
  }

  /**
   What the attempt bound bounds: a wait for a pooled connection, one connect, at most the counted statements and the
   overhead, each within its own timeout; and it is attained when each takes all of its own.
   */
  lemma AttemptBoundCovers(p: Params, pool: real, connect: real, statements: seq<real>, overhead: real)
    requires p.roundTrips >= 0 && |statements| == p.roundTrips
    requires pool <= p.pool && connect <= EffectiveConnect(p.connect) as real && overhead <= p.overhead
    requires forall i :: 0 <= i < |statements| ==> statements[i] <= EffectiveStatement(p.statement)
    ensures pool + connect + TimeSum(statements) + overhead <= AttemptBound(p)
    ensures (&& pool == p.pool && connect == EffectiveConnect(p.connect) as real && overhead == p.overhead
             && forall i :: 0 <= i < |statements| ==> statements[i] == EffectiveStatement(p.statement)) ==>
              pool + connect + TimeSum(statements) + overhead == AttemptBound(p)
  {
    SumBound(statements, EffectiveStatement(p.statement));
  }

  function Pow2(i: nat): int {
    if i == 0 then 1 else 2 * Pow2(i - 1)
  }

  function Exponential(p: Params, i: nat): real {
    if p.base * Pow2(i) as real < p.maxBackoff then p.base * Pow2(i) as real else p.maxBackoff
  }

  /** `backoff_delay_seconds` */
  function Backoff(p: Params, i: nat): real {
    Exponential(p, i) + p.jitter
  }

  /** Delays start at the base or the cap, double while that stays below the cap, and are the cap from then on. */
  lemma ExponentialGrows(p: Params, i: nat)
    requires p.base >= 0.0 && p.maxBackoff >= 0.0
    ensures Exponential(p, i) <= p.maxBackoff
    ensures Exponential(p, 0) == if p.base < p.maxBackoff then p.base else p.maxBackoff
    ensures Exponential(p, i + 1) == if 2.0 * Exponential(p, i) < p.maxBackoff then 2.0 * Exponential(p, i) else p.maxBackoff
    ensures Exponential(p, i) == p.maxBackoff ==> Exponential(p, i + 1) == p.maxBackoff
  {
    DoublePow(p.base, i);
    ScaledPow(p.base, i);
  }

  lemma DoublePow(x: real, i: nat)
    ensures x * Pow2(i + 1) as real == 2.0 * (x * Pow2(i) as real)
  {
    assert Pow2(i + 1) as real == 2.0 * Pow2(i) as real;
  }

  lemma ScaledPow(x: real, i: nat)
    requires x >= 0.0
    ensures x * Pow2(i) as real >= 0.0
  {
    Pow2Positive(i);
  }

  function BackoffSum(p: Params, n: nat): real {
    if n == 0 then 0.0 else BackoffSum(p, n - 1) + Backoff(p, n - 1)
  }

  /** The validator's copy of the sum leaves the jitter out. */
  function SettingsBackoffSum(p: Params, n: nat): real {
    if n == 0 then 0.0 else SettingsBackoffSum(p, n - 1) + Exponential(p, n - 1)
  }

  function Retries(p: Params): nat {
    if p.maxAttempts >= 1 then p.maxAttempts - 1 else 0
  }

  /** `worst_case_total_processing_seconds` */
  function TotalBound(p: Params): real {
    p.maxAttempts as real * AttemptBound(p) + BackoffSum(p, Retries(p)) + p.margin
  }

  /** The left-hand side of `_validate_consumer_retry_timing_margin`. */
  function SettingsTotal(p: Params): real {
    p.maxAttempts as real * AttemptBound(p) + SettingsBackoffSum(p, Retries(p)) + p.margin
  }

  predicate SettingsAccepts(p: Params, pollInterval: real) {
    SettingsTotal(p) < pollInterval
  }

  lemma {:induction false} BackoffSumGap(p: Params, n: nat)
    ensures BackoffSum(p, n) == SettingsBackoffSum(p, n) + n as real * p.jitter
  {
    if n > 0 {
      BackoffSumGap(p, n - 1);
      assert n as real * p.jitter == (n - 1) as real * p.jitter + p.jitter;
    }
  }

  lemma AtLeastOnce(n: real, x: real)
    requires n >= 1.0 && x >= 0.0
    ensures n * x >= x
  {
  }

  /**
   The two copies of the formula differ by exactly one jitter per retry, so a start-up check that passes
   proves the runtime bound for every poll interval exactly when there is no jitter to miss.
   */
  lemma SettingsGap(p: Params)
    requires p.jitter >= 0.0
    ensures TotalBound(p) == SettingsTotal(p) + Retries(p) as real * p.jitter
    ensures (forall poll: real :: SettingsAccepts(p, poll) ==> TotalBound(p) <= poll)
            <==> Retries(p) == 0 || p.jitter == 0.0
  {
    BackoffSumGap(p, Retries(p));
    var gap := Retries(p) as real * p.jitter;
    if Retries(p) > 0 && p.jitter > 0.0 {
      AtLeastOnce(Retries(p) as real, p.jitter);
      var poll := SettingsTotal(p) + gap / 2.0;
      assert SettingsAccepts(p, poll) && !(TotalBound(p) <= poll);
    }
  }

  // ---------- Deadline ----------

  /** What the retry machinery uses of the parameters: the derived bounds. */
  datatype Budget = Budget(attempts: int, bound: real, backoff: nat -> real, margin: real) {
    function Retries(): nat {
      if attempts >= 1 then attempts - 1 else 0
    }
  }

  function BudgetOf(p: Params): Budget {
    Budget(p.maxAttempts, AttemptBound(p), (i: nat) => Backoff(p, i), p.margin)
  }

  function DeadlineAt(b: Budget, pollInterval: real, receivedAt: real): real {
    receivedAt + (pollInterval - b.margin)
  }

  predicate CanStartAttempt(b: Budget, deadline: real, now: real) {
    now + b.bound <= deadline
  }

  predicate CanAffordBackoff(b: Budget, deadline: real, now: real, backoff: real) {
    now + (backoff + b.bound) <= deadline
  }

  // ---------- The shared retry loop ----------

  /** How one call ended: a transient error may or may not have taken effect on the server. */
  datatype Verdict = Ok | Transient(happened: bool) | Fatal

  datatype Call = Call(duration: real, verdict: Verdict)

  type Script = nat -> Call

  datatype End = Done | DeadlineExceeded | Exhausted | FatalError | ShutdownRequested

  datatype Episode = Episode(end: End, at: real, attempts: nat)

  /** When a wait ends, and whether shutdown cut it short. */
  datatype Pause = Pause(end: real, stopped: bool)

  /** Waits run as asked or are cut short by shutdown. */
  type Pauses = (nat, real, real) -> Pause

  ghost predicate PausesOk(pauses: Pauses) {
    forall k: nat, now: real, d: real ::
      && now <= pauses(k, now, d).end <= (if d > 0.0 then now + d else now)
      && (!pauses(k, now, d).stopped ==> pauses(k, now, d).end == if d > 0.0 then now + d else now)
  }

  ghost predicate ScriptOk(b: Budget, calls: Script) {
    forall k: nat :: 0.0 <= calls(k).duration <= b.bound
  }

  /** Attempt `k + 1` of a retry loop that has made `k` attempts since call `first`, at time `now`. */
  function Retry(b: Budget, deadline: real, now: real, first: nat, k: nat, calls: Script, pauses: Pauses): Episode
    decreases if b.attempts > k then b.attempts - k else 0
  {
    if !CanStartAttempt(b, deadline, now) then Episode(DeadlineExceeded, now, k)
    else
      var t := now + calls(first + k).duration;
      match calls(first + k).verdict
      case Ok => Episode(Done, t, k + 1)
      case Fatal => Episode(FatalError, t, k + 1)
      case Transient(_) =>
        if k + 1 >= b.attempts then Episode(Exhausted, t, k + 1)
        else if !CanAffordBackoff(b, deadline, t, b.backoff(k)) then Episode(DeadlineExceeded, t, k + 1)
        else
          var w := pauses(k, t, b.backoff(k));
          if w.stopped then Episode(ShutdownRequested, w.end, k + 1)
          else Retry(b, deadline, w.end, first, k + 1, calls, pauses)
  }

  function Max(a: real, b: real): real {
    if a < b then b else a
  }

  /**
   Deadline safety of one loop, for every script of outcomes: it ends no later than the deadline (or at
   once, if the deadline has already passed) after at most `max_attempts` tries, and always at least one
   unless the deadline forbids it.
   */
  lemma {:induction false} RetryMeetsDeadline(b: Budget, deadline: real, now: real, first: nat, k: nat, calls: Script, pauses: Pauses)
    requires ScriptOk(b, calls) && PausesOk(pauses)
    ensures var e := Retry(b, deadline, now, first, k, calls, pauses);
            && now <= e.at <= Max(now, deadline)
            && k <= e.attempts
            && (e.attempts <= k + 1 || e.attempts <= b.attempts)
            && (e.end.Done? || e.end.Exhausted? ==> e.at <= deadline)
    decreases if b.attempts > k then b.attempts - k else 0
  {
    if CanStartAttempt(b, deadline, now) && calls(first + k).verdict.Transient? && k + 1 < b.attempts {
      var t := now + calls(first + k).duration;
      var w := pauses(k, t, b.backoff(k));
      if CanAffordBackoff(b, deadline, t, b.backoff(k)) && !w.stopped {
        RetryMeetsDeadline(b, deadline, w.end, first, k + 1, calls, pauses);
      }
    }
  }

  /** Giving up means the configured number of tries was used up. */
  lemma {:induction false} RetryExhausts(b: Budget, deadline: real, now: real, first: nat, k: nat, calls: Script, pauses: Pauses)
    ensures var e := Retry(b, deadline, now, first, k, calls, pauses); e.end.Exhausted? ==> e.attempts >= b.attempts
    decreases if b.attempts > k then b.attempts - k else 0
  {
    if CanStartAttempt(b, deadline, now) && calls(first + k).verdict.Transient? && k + 1 < b.attempts {
      var t := now + calls(first + k).duration;
      var w := pauses(k, t, b.backoff(k));
      if CanAffordBackoff(b, deadline, t, b.backoff(k)) && !w.stopped {
        RetryExhausts(b, deadline, w.end, first, k + 1, calls, pauses);
      }
    }
  }

  // ---------- How a loop ends, said of its calls and waits ----------

  /** One retry loop: its budget and deadline, when it starts and with which call, and what its calls and waits do. */
  datatype Loop = Loop(b: Budget, deadline: real, start: real, first: nat, calls: Script, pauses: Pauses) {
    function Ends(): Episode {
      Retry(b, deadline, start, first, 0, calls, pauses)
    }

    function Call(i: nat): Call {
      calls(first + i)
    }

    /** When attempt `i` (from zero) is to start, if the loop gets there. */
    function StartOf(i: nat): real
      decreases i, 0
    {
      if i == 0 then start else pauses(i - 1, EndOf(i - 1), b.backoff(i - 1)).end
    }

    function EndOf(i: nat): real
      decreases i, 1
    {
      StartOf(i) + Call(i).duration
    }

    predicate Starts(i: nat) {
      StartOf(i) + b.bound <= deadline
    }

    /** Attempt `i` fails transiently with tries left. */
    predicate Retries(i: nat) {
      Starts(i) && Call(i).verdict.Transient? && i + 1 < b.attempts
    }

    predicate Affords(i: nat) {
      EndOf(i) + (b.backoff(i) + b.bound) <= deadline
    }

    predicate WaitStops(i: nat) {
      pauses(i, EndOf(i), b.backoff(i)).stopped
    }

    /** The loop gets to attempt `n`: every earlier one failed transiently and was waited for to the end. */
    ghost predicate Reaches(n: nat) {
      forall i: nat :: i < n ==> Retries(i) && Affords(i) && !WaitStops(i)
    }

    ghost predicate OkAt(n: nat) {
      Reaches(n) && Starts(n) && Call(n).verdict.Ok?
    }

    ghost predicate FatalAt(n: nat) {
      Reaches(n) && Starts(n) && Call(n).verdict.Fatal?
    }

    /** The tries are used up by transient failures. */
    ghost predicate OutAt(n: nat) {
      Reaches(n) && Starts(n) && Call(n).verdict.Transient? && n + 1 >= b.attempts
    }

    ghost predicate StoppedAt(n: nat) {
      Reaches(n) && Retries(n) && Affords(n) && WaitStops(n)
    }

    /** A deadline check fails, before an attempt or before a wait. */
    ghost predicate LateAt(n: nat) {
      Reaches(n) && (!Starts(n) || (Retries(n) && !Affords(n)))
    }
  }

  lemma {:induction false} ReachesRetry(l: Loop, n: nat)
    requires l.Reaches(n)
    ensures l.Ends() == Retry(l.b, l.deadline, l.StartOf(n), l.first, n, l.calls, l.pauses)
  {
    if n > 0 {
      var m: nat := n - 1;
      assert l.Reaches(m);
      ReachesRetry(l, m);
      assert l.Retries(m) && l.Affords(m) && !l.WaitStops(m);
    }
  }

  /** Each way to end shows in what the loop returns. */
  lemma EndShows(l: Loop, n: nat)
    ensures l.OkAt(n) ==> l.Ends() == Episode(Done, l.EndOf(n), n + 1)
    ensures l.FatalAt(n) ==> l.Ends() == Episode(FatalError, l.EndOf(n), n + 1)
    ensures l.OutAt(n) ==> l.Ends() == Episode(Exhausted, l.EndOf(n), n + 1)
    ensures l.StoppedAt(n) ==> l.Ends().end == ShutdownRequested && l.Ends().attempts == n + 1
    ensures l.LateAt(n) ==> l.Ends().end == DeadlineExceeded
  {
    if l.Reaches(n) {
      ReachesRetry(l, n);
    }
  }

  ghost predicate EndsSomehowAt(l: Loop, n: nat) {
    l.OkAt(n) || l.FatalAt(n) || l.OutAt(n) || l.StoppedAt(n) || l.LateAt(n)
  }

  lemma {:induction false} EndExists(l: Loop, k: nat) returns (n: nat)
    requires l.Reaches(k)
    ensures EndsSomehowAt(l, n)
    decreases if l.b.attempts > k then l.b.attempts - k else 0
  {
    if l.Retries(k) && l.Affords(k) && !l.WaitStops(k) {
      n := EndExists(l, k + 1);
    } else {
      n := k;
    }
  }

  /**
   How a loop ends, as an equivalence for each of the five ways: success, a fatal error, tries used up, a wait that
   shutdown cut short, or a failed deadline check, each at the attempt the loop gets to.
   */
  lemma RetryEndsIff(l: Loop)
    ensures l.Ends().end.Done? <==> exists n: nat :: l.OkAt(n)
    ensures l.Ends().end.FatalError? <==> exists n: nat :: l.FatalAt(n)
    ensures l.Ends().end.Exhausted? <==> exists n: nat :: l.OutAt(n)
    ensures l.Ends().end.ShutdownRequested? <==> exists n: nat :: l.StoppedAt(n)
    ensures l.Ends().end.DeadlineExceeded? <==> exists n: nat :: l.LateAt(n)
  {
    forall n: nat
      ensures l.OkAt(n) ==> l.Ends().end.Done?
      ensures l.FatalAt(n) ==> l.Ends().end.FatalError?
      ensures l.OutAt(n) ==> l.Ends().end.Exhausted?
      ensures l.StoppedAt(n) ==> l.Ends().end.ShutdownRequested?
      ensures l.LateAt(n) ==> l.Ends().end.DeadlineExceeded?
    {
      EndShows(l, n);
    }
    var n := EndExists(l, 0);
    EndShows(l, n);
  }

  // ---------- The static bound ----------

  /** The longest the first `k` attempts and the backoffs after them can take. */
  function Span(b: Budget, k: nat): real {
    if k == 0 then 0.0 else Span(b, k - 1) + b.bound + b.backoff(k - 1)
  }

  /** The longest one whole retry loop can take. */
  function LoopBound(b: Budget): real {
    Span(b, b.Retries()) + b.bound
  }

  ghost predicate BudgetOk(b: Budget) {
    b.attempts >= 1 && b.bound >= 0.0 && forall i: nat :: b.backoff(i) >= 0.0
  }

  lemma {:induction false} SpanMonotone(b: Budget, i: nat, k: nat)
    requires BudgetOk(b) && i <= k
    ensures Span(b, i) <= Span(b, k)
  {
    if i < k {
      SpanMonotone(b, i, k - 1);
    }
  }

  /** With the loop bound to spare, no outcome sequence trips a deadline check, and the loop ends in time. */
  lemma {:induction false} RetryWithinBound(
    b: Budget, deadline: real, start: real, now: real, first: nat, k: nat, calls: Script, pauses: Pauses)
    requires BudgetOk(b) && ScriptOk(b, calls) && PausesOk(pauses) && k < b.attempts
    requires now <= start + Span(b, k) && start + LoopBound(b) <= deadline
    ensures var e := Retry(b, deadline, now, first, k, calls, pauses);
            !e.end.DeadlineExceeded? && e.at <= start + LoopBound(b)
    decreases b.attempts - k
  {
    SpanMonotone(b, k, b.Retries());
    if calls(first + k).verdict.Transient? && k + 1 < b.attempts {
      SpanMonotone(b, k + 1, b.Retries());
      var t := now + calls(first + k).duration;
      var w := pauses(k, t, b.backoff(k));
      if !w.stopped {
        RetryWithinBound(b, deadline, start, w.end, first, k + 1, calls, pauses);
      }
    }
  }

  /** Every attempt takes its bound; the first `ok` attempts fail transiently, the next one succeeds. */
  function SlowCall(b: Budget, ok: nat, k: nat): Call {
    Call(b.bound, if k < ok then Transient(false) else Ok)
  }

  function FullPause(k: nat, now: real, d: real): Pause {
    Pause(if d > 0.0 then now + d else now, false)
  }

  /** The slowest script that still succeeds takes exactly the loop bound, or trips the deadline. */
  lemma {:induction false} SlowestLoop(b: Budget, deadline: real, start: real, k: nat)
    requires BudgetOk(b) && k < b.attempts
    ensures var e := Retry(b, deadline, start + Span(b, k), 0, k, (i: nat) => SlowCall(b, b.Retries(), i), FullPause);
            if start + LoopBound(b) <= deadline then e == Episode(Done, start + LoopBound(b), b.attempts)
            else e.end.DeadlineExceeded?
    decreases b.attempts - k
  {
    SpanMonotone(b, k, b.Retries());
    if k + 1 < b.attempts {
      SlowestLoop(b, deadline, start, k + 1);
      SpanMonotone(b, k + 1, b.Retries());
    }
  }

  // ---------- Several loops under one deadline ----------

  /** Retry loops one after the other, each started only when the one before succeeded. */
  function Chain(b: Budget, deadline: real, now: real, stages: seq<Script>, pauses: Pauses): Episode
    decreases |stages|
  {
    if stages == [] then Episode(Done, now, 0)
    else
      var e := Retry(b, deadline, now, 0, 0, stages[0], pauses);
      if e.end.Done? then Chain(b, deadline, e.at, stages[1..], pauses) else e
  }

  ghost predicate StagesOk(b: Budget, stages: seq<Script>) {
    forall i :: 0 <= i < |stages| ==> ScriptOk(b, stages[i])
  }

  /** Whatever the outcomes of all its loops, processing one record ends by the deadline or at once. */
  lemma {:induction false} ChainMeetsDeadline(b: Budget, deadline: real, now: real, stages: seq<Script>, pauses: Pauses)
    requires StagesOk(b, stages) && PausesOk(pauses)
    ensures now <= Chain(b, deadline, now, stages, pauses).at <= Max(now, deadline)
    decreases |stages|
  {
    if stages != [] {
      RetryMeetsDeadline(b, deadline, now, 0, 0, stages[0], pauses);
      var e := Retry(b, deadline, now, 0, 0, stages[0], pauses);
      if e.end.Done? {
        ChainMeetsDeadline(b, deadline, e.at, stages[1..], pauses);
      }
    }
  }

  /** Every outcome of every loop ends by the deadline if and only if the margin fits in the poll interval. */
  lemma EndsByDeadlineIff(b: Budget, pollInterval: real, at: real, n: nat)
    requires BudgetOk(b) && n >= 1
    ensures (forall stages: seq<Script>, pauses: Pauses :: |stages| == n && StagesOk(b, stages) && PausesOk(pauses) ==>
              Chain(b, DeadlineAt(b, pollInterval, at), at, stages, pauses).at <= DeadlineAt(b, pollInterval, at))
            <==> b.margin <= pollInterval
  {
    var deadline := DeadlineAt(b, pollInterval, at);
    if b.margin <= pollInterval {
      forall stages: seq<Script>, pauses: Pauses | |stages| == n && StagesOk(b, stages) && PausesOk(pauses)
        ensures Chain(b, deadline, at, stages, pauses).at <= deadline
      {
        ChainMeetsDeadline(b, deadline, at, stages, pauses);
      }
    } else {
      var stages: seq<Script> := seq(n, _ => SlowScript(b));
      assert StagesOk(b, stages) && PausesOk(FullPause);
      assert Chain(b, deadline, at, stages, FullPause).at == at;
    }
  }

  function Times(n: nat, x: real): real {
    if n == 0 then 0.0 else x + Times(n - 1, x)
  }

  lemma {:induction false} ChainWithinBound(b: Budget, deadline: real, now: real, stages: seq<Script>, pauses: Pauses)
    requires BudgetOk(b) && StagesOk(b, stages) && PausesOk(pauses)
    requires now + Times(|stages|, LoopBound(b)) <= deadline
    ensures !Chain(b, deadline, now, stages, pauses).end.DeadlineExceeded?
    decreases |stages|
  {
    if stages != [] {
      SpanMonotone(b, 0, b.Retries());
      TimesNonNegative(|stages| - 1, LoopBound(b));
      RetryWithinBound(b, deadline, now, now, 0, 0, stages[0], pauses);
      var e := Retry(b, deadline, now, 0, 0, stages[0], pauses);
      if e.end.Done? {
        ChainWithinBound(b, deadline, e.at, stages[1..], pauses);
      }
    }
  }

  lemma {:induction false} TimesNonNegative(n: nat, x: real)
    requires x >= 0.0
    ensures Times(n, x) >= 0.0
  {
    if n > 0 {
      TimesNonNegative(n - 1, x);
    }
  }

  function SlowScript(b: Budget): Script {
    (i: nat) => SlowCall(b, b.Retries(), i)
  }

  lemma {:induction false} SlowestChain(b: Budget, deadline: real, now: real, n: nat)
    requires BudgetOk(b) && now + Times(n, LoopBound(b)) > deadline && n >= 1
    ensures Chain(b, deadline, now, seq(n, _ => SlowScript(b)), FullPause).end.DeadlineExceeded?
    decreases n
  {
    var stages := seq(n, _ => SlowScript(b));
    SlowestLoop(b, deadline, now, 0);
    if now + LoopBound(b) <= deadline {
      assert stages[1..] == seq(n - 1, _ => SlowScript(b));
      SlowestChain(b, deadline, now + LoopBound(b), n - 1);
    }
  }

  /** No bounded outcome of any of the `n` loops makes a deadline check fail. */
  ghost predicate NeverLate(b: Budget, pollInterval: real, at: real, n: nat) {
    forall stages: seq<Script>, pauses: Pauses :: |stages| == n && StagesOk(b, stages) && PausesOk(pauses) ==>
      !Chain(b, DeadlineAt(b, pollInterval, at), at, stages, pauses).end.DeadlineExceeded?
  }

  /**
   Exactly when the deadline can never trip: `n` loops in a row never fail a deadline check, whatever their
   outcomes, if and only if `n` loop bounds plus the safety margin fit in the poll interval.
   */
  lemma NeverLateIff(b: Budget, pollInterval: real, at: real, n: nat)
    requires BudgetOk(b) && n >= 1
    ensures NeverLate(b, pollInterval, at, n) <==> Times(n, LoopBound(b)) + b.margin <= pollInterval
  {
    var deadline := DeadlineAt(b, pollInterval, at);
    if Times(n, LoopBound(b)) + b.margin <= pollInterval {
      forall stages: seq<Script>, pauses: Pauses | |stages| == n && StagesOk(b, stages) && PausesOk(pauses)
        ensures !Chain(b, deadline, at, stages, pauses).end.DeadlineExceeded?
      {
        ChainWithinBound(b, deadline, at, stages, pauses);
      }
    } else {
      SlowestChain(b, deadline, at, n);
      assert StagesOk(b, seq(n, _ => SlowScript(b)));
      assert PausesOk(FullPause);
    }
  }

  // ---------- The start-up bound ----------

  lemma {:induction false} SpanIsSum(p: Params, k: nat)
    ensures Span(BudgetOf(p), k) == k as real * AttemptBound(p) + BackoffSum(p, k)
  {
    if k > 0 {
      SpanIsSum(p, k - 1);
      assert k as real * AttemptBound(p) == (k - 1) as real * AttemptBound(p) + AttemptBound(p);
    }
  }

  lemma TotalIsLoopBound(p: Params)
    requires p.maxAttempts >= 1
    ensures TotalBound(p) == LoopBound(BudgetOf(p)) + p.margin
  {
    var n := p.maxAttempts - 1;
    SpanIsSum(p, n);
    assert p.maxAttempts as real * AttemptBound(p) == n as real * AttemptBound(p) + AttemptBound(p);
  }

  /** The start-up bound is exactly the condition for the first loop alone. */
  lemma StaticBoundIsFirstLoop(p: Params, pollInterval: real, at: real)
    requires BudgetOk(BudgetOf(p))
    ensures NeverLate(BudgetOf(p), pollInterval, at, 1) <==> TotalBound(p) <= pollInterval
  {
    var b := BudgetOf(p);
    NeverLateIff(b, pollInterval, at, 1);
    TotalIsLoopBound(p);
    assert Times(1, LoopBound(b)) == LoopBound(b) + Times(0, LoopBound(b));
  }

  /** The runner's default timing parameters. */
  const Defaults := Params(3, 1.0, 30.0, 0.0, 60.0, 5.0, 5.0, 5.0, 2.0, 8)

  lemma DefaultsAttempt()
    ensures AttemptBound(Defaults) == 52.0
  {
    assert EffectiveConnect(5.0) == 5;
    assert EffectiveStatementMs(5.0) == 5000;
    assert EffectiveStatement(5.0) == 5.0;
  }

  lemma DefaultsBackoff(i: nat)
    ensures Backoff(Defaults, i) >= 0.0
    ensures i == 0 ==> Backoff(Defaults, i) == 1.0
    ensures i == 1 ==> Backoff(Defaults, i) == 2.0
  {
    Pow2Positive(i);
    assert i == 1 ==> Pow2(i) == 2 * Pow2(0);
  }

  lemma BackoffSumTwo(p: Params)
    ensures BackoffSum(p, 2) == Backoff(p, 0) + Backoff(p, 1)
  {
    assert BackoffSum(p, 1) == BackoffSum(p, 0) + Backoff(p, 0);
  }

  lemma TotalOfThree(p: Params, attempt: real)
    requires p.maxAttempts == 3 && AttemptBound(p) == attempt
    ensures TotalBound(p) == 3.0 * attempt + BackoffSum(p, 2) + p.margin
  {
  }

  lemma DefaultsTotal()
    ensures TotalBound(Defaults) == 219.0
  {
    DefaultsAttempt();
    TotalOfThree(Defaults, 52.0);
    BackoffSumTwo(Defaults);
    DefaultsBackoff(0);
    DefaultsBackoff(1);
  }

  lemma DefaultsOk()
    ensures BudgetOk(BudgetOf(Defaults))
  {
    DefaultsAttempt();
    forall i: nat ensures BudgetOf(Defaults).backoff(i) >= 0.0 {
      DefaultsBackoff(i);
    }
  }

  lemma {:induction false} Pow2Positive(i: nat)
    ensures Pow2(i) >= 1
  {
    if i > 0 {
      Pow2Positive(i - 1);
    }
  }

  lemma TwoLoops(b: Budget, pollInterval: real, at: real)
    requires BudgetOk(b)
    ensures NeverLate(b, pollInterval, at, 2) <==> 2.0 * LoopBound(b) + b.margin <= pollInterval
  {
    NeverLateIff(b, pollInterval, at, 2);
    var x := LoopBound(b);
    assert Times(2, x) == x + (x + Times(0, x));
  }

  /**
   The start-up check does not cover the offset commit: with the defaults (219 s of a 300 s poll interval)
   some outcome sequence of apply followed by commit still trips the deadline.
   */
  lemma DefaultsLeaveCommitUncovered(at: real)
    ensures SettingsAccepts(Defaults, 300.0)
    ensures NeverLate(BudgetOf(Defaults), 300.0, at, 1) && !NeverLate(BudgetOf(Defaults), 300.0, at, 2)
  {
    DefaultsOk();
    DefaultsTotal();
    SettingsGap(Defaults);
    StaticBoundIsFirstLoop(Defaults, 300.0, at);
    TotalIsLoopBound(Defaults);
    TwoLoops(BudgetOf(Defaults), 300.0, at);
  }
}
