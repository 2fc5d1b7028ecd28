/**
 `ConsumerRunner.run_once` and the poll loop around it: one record is polled, applied or dead-lettered,
 and its offset committed, each stage in a retry loop under the record's one processing deadline. Every
 durable effect is a step of the shared world, with other processes acting before each attempt.
 */
module ConsumerRunner {
  import opened Prelude
  import opened Events
  import opened Timing
  import opened World
  import Consumer
  import Relay
  import Pipeline

  datatype ProcessOutcome = NoMessage | Applied | Duplicate | DeadLettered

  datatype Failure =
    | DeadlineExceededError | RetryExhausted | DatabaseFatal | DeadLetterPersistenceExhausted
    | OffsetCommitFailedAfterDeadLetter | CommitFatal | PollFatal

  /** How `run_once` ends, as the poll loop distinguishes it. */
  datatype RunEnd =
    | Returned(outcome: ProcessOutcome)
    | TransientKafka
    | ShutdownDuringBackoff
    | Terminal(failure: Failure)

  datatype PollResult = Polled | TransientBroker | FatalBroker

  /** Session `c` holds the record at `o`, in the given phase. */
  ghost predicate InHand(s: Pipeline.State, c: nat, o: nat, ph: Consumer.Phase) {
    && c in s.down.sessions && o < |s.up.log|
    && s.down.sessions[c] == Consumer.Session(o + 1, Some(Consumer.Hand(o, ph)))
  }

  /** Session `c` holds nothing and would poll `o` next. */
  ghost predicate AtPosition(s: Pipeline.State, c: nat, o: nat) {
    c in s.down.sessions && s.down.sessions[c] == Consumer.Session(o, None)
  }

  lemma InHandStays(s: Pipeline.State, t: Pipeline.State, c: nat, o: nat, ph: Consumer.Phase)
    requires InHand(s, c, o, ph) && Grows(s, t) && SameLocal(s, t, ConsumerSession(c))
    ensures InHand(t, c, o, ph)
  {
  }

  /** The apply transaction for the record in hand has gone through: settled, or classified poison. */
  ghost predicate Decided(s: Pipeline.State, c: nat, o: nat) {
    InHand(s, c, o, Consumer.Settled) || InHand(s, c, o, Consumer.Poisoned)
  }

  /** The record is in hand and its apply transaction may or may not have gone through. */
  ghost predicate Applying(s: Pipeline.State, c: nat, o: nat) {
    InHand(s, c, o, Consumer.Fetched) || Decided(s, c, o)
  }

  lemma ApplyingStays(s: Pipeline.State, t: Pipeline.State, c: nat, o: nat)
    requires Applying(s, c, o) && Grows(s, t) && SameLocal(s, t, ConsumerSession(c))
    ensures Applying(t, c, o)
  {
  }

  /** The event of the record at `o` has an effect in `t` that it did not have in `s`. */
  ghost predicate NewlyApplied(s: Pipeline.State, t: Pipeline.State, o: nat) {
    && o < |t.up.log| && t.up.log[o].Msg?
    && t.up.log[o].event in t.down.applied && t.up.log[o].event !in s.down.applied
  }

  lemma NewlyAppliedWidens(s: Pipeline.State, s': Pipeline.State, t: Pipeline.State, t': Pipeline.State, o: nat)
    requires NewlyApplied(s', t, o) && Grows(s, s') && Grows(t, t')
    ensures NewlyApplied(s, t', o)
  {
    var e := t.up.log[o].event;
    assert t'.up.log[o] == t.up.log[o];
    assert forall i :: 0 <= i < |t.down.applied| ==> t'.down.applied[i] == t.down.applied[i];
    assert forall i :: 0 <= i < |s.down.applied| ==> s'.down.applied[i] == s.down.applied[i];
  }

  /** An apply transaction that adds an effect adds that of the record in hand, for the first time. */
  lemma ApplyAddsOwn(s: Pipeline.State, c: nat, o: nat)
    requires Pipeline.Inv(s) && Applying(s, c, o)
    ensures var t := Pipeline.Apply(s, Pipeline.Down(Consumer.ApplyTx(c)));
            |s.down.applied| < |t.down.applied| ==> NewlyApplied(s, t, o)
  {
    var t := Pipeline.Apply(s, Pipeline.Down(Consumer.ApplyTx(c)));
    if |s.down.applied| < |t.down.applied| {
      var e := s.up.log[o].event;
      assert t.down.applied == s.down.applied + [e];
      assert s.up.log[o] in s.up.log;
      Relay.LogConsistent(s.up);
      Consumer.InboxIff(s.down, s.up.log, e);
    }
  }

  /** What an apply transaction does to the record in hand. */
  lemma ApplyEffect(s: Pipeline.State, c: nat, o: nat)
    requires Pipeline.Inv(s) && Applying(s, c, o)
    ensures Decided(Pipeline.Apply(s, Pipeline.Down(Consumer.ApplyTx(c))), c, o)
  {
    assert Consumer.SessionOk(s.down, s.up.log, s.down.sessions[c]);
  }

  /** One retry loop of a record: when it started, and with which call. */
  datatype Leg = Leg(start: real, first: nat)

  /** The loops one record went through. */
  datatype Trail = Trail(apply: Option<Leg>, dead: Option<Leg>, commit: Option<Leg>)

  /** One round of the poll loop: its first call, the offset it was at, and the loops of its record if it got one. */
  datatype Turn = Turn(first: nat, offset: nat, course: Option<Trail>)

  /** A loop tries at least once, and otherwise at most `max_attempts` times. */
  function MaxTries(b: Budget): nat {
    if b.attempts > 1 then b.attempts else 1
  }

  function Sum(xs: seq<nat>): nat {
    if xs == [] then 0 else xs[0] + Sum(xs[1..])
  }

  class ConsumerRunner {
    const c: nat
    const b: Budget
    const pollInterval: real
    const calls: Script   // duration and verdict of every database or broker call, in order
    const pauses: Pauses  // how each backoff wait ends
    const world: World

    constructor (c: nat, b: Budget, pollInterval: real, calls: Script, pauses: Pauses, world: World)
      ensures this.c == c && this.b == b && this.pollInterval == pollInterval && this.calls == calls
      ensures this.pauses == pauses && this.world == world
    {
      this.c, this.b, this.pollInterval := c, b, pollInterval;
      this.calls, this.pauses, this.world := calls, pauses, world;
    }

    /** Attempts last at most the worst-case bound; waits last as asked unless shutdown cuts them short. */
    ghost predicate Timely() {
      ScriptOk(b, calls) && PausesOk(pauses)
    }

    /** The stage that began at `start` with call `first` has made `k` attempts and goes on at `now`. */
    ghost predicate Underway(deadline: real, start: real, first: nat, k: nat, now: real) {
      Retry(b, deadline, now, first, k, calls, pauses) == Retry(b, deadline, start, first, 0, calls, pauses)
    }

    /** The stage that began at `start` with call `first` is over, as the retry specification says. */
    ghost predicate Finished(deadline: real, start: real, first: nat, e: Episode) {
      e == Retry(b, deadline, start, first, 0, calls, pauses)
    }

    /** Attempt `k + 1`, begun at `now`, failed transiently: give up, or back off and say when to go on. */
    method AfterTransient(deadline: real, ghost start: real, ghost first: nat, k: nat, ghost now: real, t: real)
      returns (over: bool, e: Episode, next: real)
      requires calls(first + k).verdict.Transient? && t == now + calls(first + k).duration
      requires CanStartAttempt(b, deadline, now) && Underway(deadline, start, first, k, now)
      ensures over ==> Finished(deadline, start, first, e) && !e.end.Done?
      ensures !over ==> Underway(deadline, start, first, k + 1, next) && k + 1 < b.attempts
    {
      var backoff := b.backoff(k);
      over, next := true, t;
      if k + 1 >= b.attempts {
        e := Episode(Exhausted, t, k + 1);
      } else if !CanAffordBackoff(b, deadline, t, backoff) {
        e := Episode(DeadlineExceeded, t, k + 1);
      } else {
        var w := pauses(k, t, backoff);
        over, next, e := w.stopped, w.end, Episode(ShutdownRequested, w.end, k + 1);
      }
    }

    /** One call that takes effect when it succeeds, or when only its acknowledgment was lost. */
    predicate TakesEffect(v: Verdict) {
      v.Ok? || (v.Transient? && v.happened)
    }

    /** One inbox transaction. A lost acknowledgment leaves the effect in place. */
    method AttemptApply(v: Verdict, ghost origin: Pipeline.State, ghost o: nat) returns (applied: bool)
      requires world.Valid() && Grows(origin, world.st) && Applying(world.st, c, o)
      modifies world
      ensures world.Valid() && old(world.history) <= world.history && Grows(origin, world.st)
      ensures Applying(world.st, c, o) && (TakesEffect(v) ==> Decided(world.st, c, o))
      ensures applied ==> NewlyApplied(origin, world.st, o)
    {
      ghost var s0 := world.st;
      world.Yield(ConsumerSession(c));
      ghost var s1 := world.st;
      GrowsTransitive(origin, s0, s1);
      ApplyingStays(s0, s1, c, o);
      if !TakesEffect(v) { return false; }
      var before := |world.st.down.applied|;
      world.Sound();
      ApplyEffect(world.st, c, o);
      ApplyAddsOwn(world.st, c, o);
      world.Take(Pipeline.Down(Consumer.ApplyTx(c)));
      GrowsTransitive(origin, s1, world.st);
      applied := before < |world.st.down.applied|;
      if applied { NewlyAppliedWidens(origin, s1, world.st, world.st, o); }
    }

    /** One dead-letter upsert. */
    method AttemptDeadLetter(v: Verdict, ghost origin: Pipeline.State, ghost o: nat, ghost ph: Consumer.Phase)
      returns (ghost ph': Consumer.Phase)
      requires world.Valid() && Grows(origin, world.st) && InHand(world.st, c, o, ph)
      requires ph.Poisoned? || ph.DeadLettered?
      modifies world
      ensures world.Valid() && old(world.history) <= world.history && Grows(origin, world.st)
      ensures (ph'.Poisoned? || ph'.DeadLettered?) && InHand(world.st, c, o, ph')
      ensures TakesEffect(v) ==> ph'.DeadLettered? && o in world.st.down.dead
    {
      ghost var s0 := world.st;
      world.Yield(ConsumerSession(c));
      ghost var s1 := world.st;
      GrowsTransitive(origin, s0, s1);
      InHandStays(s0, s1, c, o, ph);
      if !TakesEffect(v) { return ph; }
      world.Take(Pipeline.Down(Consumer.DeadLetterTx(c)));
      GrowsTransitive(origin, s1, world.st);
      ph' := Consumer.DeadLettered;
    }

    /** One synchronous offset commit. */
    method AttemptCommit(v: Verdict, ghost origin: Pipeline.State, ghost o: nat, ghost ph: Consumer.Phase)
      requires world.Valid() && Grows(origin, world.st) && InHand(world.st, c, o, ph)
      requires ph.Settled? || ph.DeadLettered?
      modifies world
      ensures world.Valid() && old(world.history) <= world.history && Grows(origin, world.st)
      ensures if v.Ok? then AtPosition(world.st, c, o + 1) && world.st.down.committed == o + 1 else InHand(world.st, c, o, ph)
    {
      ghost var s0 := world.st;
      world.Yield(ConsumerSession(c));
      ghost var s1 := world.st;
      GrowsTransitive(origin, s0, s1);
      InHandStays(s0, s1, c, o, ph);
      if !TakesEffect(v) { return; }
      world.Take(Pipeline.Down(if v.Ok? then Consumer.Commit(c) else Consumer.CommitLostAck(c)));
      GrowsTransitive(origin, s1, world.st);
    }

    /** The apply loop of `_apply_with_retry`. */
    method ApplyLoop(deadline: real, start: real, first: nat, ghost o: nat) returns (e: Episode, applied: bool)
      requires world.Valid() && Applying(world.st, c, o)
      modifies world
      ensures world.Valid() && old(world.history) <= world.history && Grows(old(world.st), world.st)
      ensures Finished(deadline, start, first, e)
      ensures Applying(world.st, c, o) && (e.end.Done? ==> Decided(world.st, c, o))
      ensures e.end.Done? && applied ==> NewlyApplied(old(world.st), world.st, o)
    {
      ghost var s0 := world.st;
      applied := false;
      var k, now := 0, start;
      while true
        invariant world.Valid() && old(world.history) <= world.history && Grows(s0, world.st)
        invariant Applying(world.st, c, o)
        invariant 0 <= k && Underway(deadline, start, first, k, now)
        decreases if b.attempts > k then b.attempts - k else 0
      {
        if !CanStartAttempt(b, deadline, now) {
          e := Episode(DeadlineExceeded, now, k);
          return;
        }
        var call := calls(first + k);
        applied := AttemptApply(call.verdict, s0, o);
        var t := now + call.duration;
        if !call.verdict.Transient? {
          e := Episode(if call.verdict.Ok? then Done else FatalError, t, k + 1);
          return;
        }
        var over;
        over, e, now := AfterTransient(deadline, start, first, k, now, t);
        if over { return; }
        k := k + 1;
      }
    }

    /** The upsert loop of `_dead_letter_and_commit`. */
    method DeadLetterLoop(deadline: real, start: real, first: nat, ghost o: nat) returns (e: Episode)
      requires world.Valid() && InHand(world.st, c, o, Consumer.Poisoned)
      modifies world
      ensures world.Valid() && old(world.history) <= world.history && Grows(old(world.st), world.st)
      ensures Finished(deadline, start, first, e)
      ensures e.end.Done? ==> InHand(world.st, c, o, Consumer.DeadLettered) && o in world.st.down.dead
    {
      ghost var s0 := world.st;
      ghost var ph := Consumer.Poisoned;
      var k, now := 0, start;
      while true
        invariant world.Valid() && old(world.history) <= world.history && Grows(s0, world.st)
        invariant (ph.Poisoned? || ph.DeadLettered?) && InHand(world.st, c, o, ph)
        invariant 0 <= k && Underway(deadline, start, first, k, now)
        decreases if b.attempts > k then b.attempts - k else 0
      {
        if !CanStartAttempt(b, deadline, now) {
          e := Episode(DeadlineExceeded, now, k);
          return;
        }
        var call := calls(first + k);
        ph := AttemptDeadLetter(call.verdict, s0, o, ph);
        var t := now + call.duration;
        if !call.verdict.Transient? {
          e := Episode(if call.verdict.Ok? then Done else FatalError, t, k + 1);
          return;
        }
        var over;
        over, e, now := AfterTransient(deadline, start, first, k, now, t);
        if over { return; }
        k := k + 1;
      }
    }

    /** `_commit_with_retry` */
    method CommitLoop(deadline: real, start: real, first: nat, ghost o: nat, ghost ph: Consumer.Phase) returns (e: Episode)
      requires world.Valid() && InHand(world.st, c, o, ph) && (ph.Settled? || ph.DeadLettered?)
      modifies world
      ensures world.Valid() && old(world.history) <= world.history && Grows(old(world.st), world.st)
      ensures Finished(deadline, start, first, e)
      ensures if e.end.Done? then AtPosition(world.st, c, o + 1) && world.st.down.committed == o + 1
              else InHand(world.st, c, o, ph)
    {
      ghost var s0 := world.st;
      var k, now := 0, start;
      while true
        invariant world.Valid() && old(world.history) <= world.history && Grows(s0, world.st)
        invariant InHand(world.st, c, o, ph)
        invariant 0 <= k && Underway(deadline, start, first, k, now)
        decreases if b.attempts > k then b.attempts - k else 0
      {
        if !CanStartAttempt(b, deadline, now) {
          e := Episode(DeadlineExceeded, now, k);
          return;
        }
        var call := calls(first + k);
        AttemptCommit(call.verdict, s0, o, ph);
        var t := now + call.duration;
        if !call.verdict.Transient? {
          e := Episode(if call.verdict.Ok? then Done else FatalError, t, k + 1);
          return;
        }
        var over;
        over, e, now := AfterTransient(deadline, start, first, k, now, t);
        if over { return; }
        k := k + 1;
      }
    }

    // ---------- The loops of one record ----------

    function LegEnd(deadline: real, leg: Leg): Episode {
      Retry(b, deadline, leg.start, leg.first, 0, calls, pauses)
    }

    function LoopOf(deadline: real, leg: Leg): Loop {
      Loop(b, deadline, leg.start, leg.first, calls, pauses)
    }

    /** The loop ran and ended this way. */
    predicate Ended(deadline: real, leg: Option<Leg>, end: End) {
      leg.Some? && LegEnd(deadline, leg.value).end == end
    }

    /** One loop follows the other: right after its success, with the next call. */
    predicate Follows(deadline: real, x: Option<Leg>, y: Option<Leg>) {
      && Ended(deadline, x, Done) && y.Some?
      && y.value.start == LegEnd(deadline, x.value).at && y.value.first == x.value.first + LegEnd(deadline, x.value).attempts
    }

    /** The commit loop runs exactly after the loop before it succeeded. */
    predicate ThenCommit(deadline: real, x: Option<Leg>, commit: Option<Leg>) {
      if Ended(deadline, x, Done) then Follows(deadline, x, commit) else commit.None?
    }

    /** The loops of a record that is dead-lettered from the start. */
    predicate DeadCourse(deadline: real, t: Trail) {
      t.dead.Some? && ThenCommit(deadline, t.dead, t.commit)
    }

    /** The loops of a decoded record: apply, then commit, or dead-letter and commit. */
    predicate ApplyCourse(deadline: real, t: Trail) {
      && t.apply.Some?
      && (if t.dead.Some? then Follows(deadline, t.apply, t.dead) && DeadCourse(deadline, t)
          else ThenCommit(deadline, t.apply, t.commit))
    }

    predicate Course(deadline: real, now: real, first: nat, poison: bool, t: Trail) {
      if poison then t.apply.None? && t.dead == Some(Leg(now, first)) && DeadCourse(deadline, t)
      else t.apply == Some(Leg(now, first)) && ApplyCourse(deadline, t)
    }

    /** Some loop of the record ended this way. */
    predicate AnyEnded(deadline: real, t: Trail, end: End) {
      Ended(deadline, t.apply, end) || Ended(deadline, t.dead, end) || Ended(deadline, t.commit, end)
    }

    /** The offset commit after an applied record used up its tries. */
    predicate CommitGivenUp(deadline: real, t: Trail) {
      t.dead.None? && Ended(deadline, t.commit, Exhausted)
    }

    /** A fatal error, a failed deadline check, or tries used up anywhere but in that commit. */
    predicate Failed(deadline: real, t: Trail) {
      || AnyEnded(deadline, t, FatalError) || AnyEnded(deadline, t, DeadlineExceeded)
      || (AnyEnded(deadline, t, Exhausted) && !CommitGivenUp(deadline, t))
    }

    /** The error says which loop failed, and how. */
    predicate Names(deadline: real, t: Trail, failure: Failure) {
      match failure
      case DeadlineExceededError => AnyEnded(deadline, t, DeadlineExceeded)
      case RetryExhausted => Ended(deadline, t.apply, Exhausted)
      case DatabaseFatal => Ended(deadline, t.apply, FatalError)
      case DeadLetterPersistenceExhausted => Ended(deadline, t.dead, Exhausted) || Ended(deadline, t.dead, FatalError)
      case OffsetCommitFailedAfterDeadLetter =>
        t.dead.Some? && (Ended(deadline, t.commit, Exhausted) || Ended(deadline, t.commit, FatalError))
      case CommitFatal => t.dead.None? && Ended(deadline, t.commit, FatalError)
      case PollFatal => false
    }

    /** What the calls and waits of a record make of its `run_once`. */
    predicate EndsAs(deadline: real, t: Trail, end: RunEnd) {
      && (end.ShutdownDuringBackoff? <==> AnyEnded(deadline, t, ShutdownRequested))
      && (end.Terminal? <==> Failed(deadline, t))
      && (end.Terminal? ==> Names(deadline, t, end.failure))
      && (end.TransientKafka? <==> CommitGivenUp(deadline, t))
      && (end.Returned? <==> Ended(deadline, t.commit, Done))
    }

    function TriesIn(deadline: real, leg: Option<Leg>): seq<nat> {
      if leg.Some? then [LegEnd(deadline, leg.value).attempts] else []
    }

    /** The tries each loop made. */
    function TriesOf(deadline: real, t: Trail): seq<nat> {
      TriesIn(deadline, t.apply) + TriesIn(deadline, t.dead) + TriesIn(deadline, t.commit)
    }

    /** Each way a loop ends, said of its calls and waits alone. */
    lemma LegEndsIff(deadline: real, leg: Leg)
      ensures var l := LoopOf(deadline, leg);
              && (Ended(deadline, Some(leg), Done) <==> exists n: nat :: l.OkAt(n))
              && (Ended(deadline, Some(leg), FatalError) <==> exists n: nat :: l.FatalAt(n))
              && (Ended(deadline, Some(leg), Exhausted) <==> exists n: nat :: l.OutAt(n))
              && (Ended(deadline, Some(leg), ShutdownRequested) <==> exists n: nat :: l.StoppedAt(n))
              && (Ended(deadline, Some(leg), DeadlineExceeded) <==> exists n: nat :: l.LateAt(n))
    {
      RetryEndsIff(LoopOf(deadline, leg));
    }

    /** One stage of processing: it ended in time and within its number of tries. */
    ghost predicate InTime(deadline: real, start: real, at: real, tries: nat) {
      start <= at <= Max(start, deadline) && tries <= MaxTries(b)
    }

    /** Every call succeeds, and there is time for `n` of them before the deadline. */
    ghost predicate Clear(n: nat, start: real, deadline: real) {
      (forall k: nat :: calls(k).verdict.Ok?) && start + Times(n, b.bound) <= deadline
    }

    lemma ClearNext(n: nat, start: real, at: real, deadline: real)
      requires Timely() && Clear(n + 1, start, deadline) && at <= start + b.bound
      ensures CanStartAttempt(b, deadline, start) && Clear(n, at, deadline)
    {
      assert 0.0 <= calls(0).duration <= b.bound;
      TimesNonNegative(n, b.bound);
    }

    lemma StageInTime(deadline: real, start: real, first: nat, e: Episode)
      requires Timely() && Finished(deadline, start, first, e)
      ensures InTime(deadline, start, e.at, e.attempts)
      ensures Clear(1, start, deadline) ==> e.end.Done?
      ensures Clear(2, start, deadline) ==> e.end.Done? && Clear(1, e.at, deadline)
      ensures Clear(3, start, deadline) ==> e.end.Done? && Clear(2, e.at, deadline)
    {
      RetryMeetsDeadline(b, deadline, start, first, 0, calls, pauses);
      ClearStage(0, deadline, start, first, e);
      ClearStage(1, deadline, start, first, e);
      ClearStage(2, deadline, start, first, e);
    }

    lemma ClearStage(n: nat, deadline: real, start: real, first: nat, e: Episode)
      requires Timely() && Finished(deadline, start, first, e)
      ensures Clear(n + 1, start, deadline) ==> e.end.Done? && Clear(n, e.at, deadline)
    {
      if Clear(n + 1, start, deadline) {
        assert calls(first).duration <= b.bound && calls(first).verdict.Ok?;
        ClearNext(n, start, start + calls(first).duration, deadline);
      }
    }

    /** The commit after an inbox transaction; running out of retries leaves the record behind and polls on. */
    method CommitApplied(deadline: real, start: real, first: nat, outcome: ProcessOutcome, ghost o: nat)
      returns (end: RunEnd, at: real, tries: nat)
      requires Timely() && world.Valid() && InHand(world.st, c, o, Consumer.Settled)
      requires outcome == Applied || outcome == Duplicate
      modifies world
      ensures world.Valid() && old(world.history) <= world.history && Grows(old(world.st), world.st)
      ensures InTime(deadline, start, at, tries)
      ensures end == Returned(outcome) || end == TransientKafka || end == ShutdownDuringBackoff || end.Terminal?
      ensures end.Returned? ==> AtPosition(world.st, c, o + 1) && world.st.down.committed == o + 1
      ensures end.TransientKafka? ==> AtPosition(world.st, c, o + 1) && tries >= b.attempts
      ensures CommitEnds(deadline, Leg(start, first), end, false) && tries == LegEnd(deadline, Leg(start, first)).attempts
      ensures Recorded(world.st, o)
      ensures Clear(1, start, deadline) ==> end.Returned?
    {
      ghost var s0 := world.st;
      SettledIsRecorded(o);
      var e := CommitLoop(deadline, start, first, o, Consumer.Settled);
      StageInTime(deadline, start, first, e);
      at, tries := e.at, e.attempts;
      match e.end
      case Done => end := Returned(outcome);
      case DeadlineExceeded => end := Terminal(DeadlineExceededError);
      case FatalError => end := Terminal(CommitFatal);
      case ShutdownRequested => end := ShutdownDuringBackoff;
      case Exhausted =>
        RetryExhausts(b, deadline, start, first, 0, calls, pauses);
        ghost var s1 := world.st;
        world.Take(Pipeline.Down(Consumer.GiveUp(c)));
        GrowsTransitive(s0, s1, world.st);
        end := TransientKafka;
    }

    /** How the commit loop decides the end. */
    predicate CommitEnds(deadline: real, leg: Leg, end: RunEnd, afterDead: bool) {
      match LegEnd(deadline, leg).end
      case Done => end.Returned?
      case ShutdownRequested => end.ShutdownDuringBackoff?
      case DeadlineExceeded => end == Terminal(DeadlineExceededError)
      case FatalError => end == Terminal(if afterDead then OffsetCommitFailedAfterDeadLetter else CommitFatal)
      case Exhausted => end == if afterDead then Terminal(OffsetCommitFailedAfterDeadLetter) else TransientKafka
    }

    /** The record at `o` is an event with its inbox row. */
    ghost predicate Recorded(s: Pipeline.State, o: nat) {
      o < |s.up.log| && s.up.log[o].Msg? && s.up.log[o].event.id in s.down.inbox
    }

    lemma SettledIsRecorded(o: nat)
      requires world.Valid() && InHand(world.st, c, o, Consumer.Settled)
      ensures Recorded(world.st, o)
    {
      world.Sound();
      assert Consumer.SessionOk(world.st.down, world.st.up.log, world.st.down.sessions[c]);
    }

    /** The commit after a dead-letter row; here running out of retries is terminal. */
    method CommitDeadLettered(deadline: real, start: real, first: nat, ghost o: nat)
      returns (end: RunEnd, at: real, tries: nat)
      requires Timely() && world.Valid() && InHand(world.st, c, o, Consumer.DeadLettered)
      modifies world
      ensures world.Valid() && old(world.history) <= world.history && Grows(old(world.st), world.st)
      ensures InTime(deadline, start, at, tries)
      ensures end == Returned(DeadLettered) || end == ShutdownDuringBackoff || end.Terminal?
      ensures end.Returned? ==> AtPosition(world.st, c, o + 1) && world.st.down.committed == o + 1
      ensures CommitEnds(deadline, Leg(start, first), end, true) && tries == LegEnd(deadline, Leg(start, first)).attempts
      ensures Clear(1, start, deadline) ==> end.Returned?
    {
      var e := CommitLoop(deadline, start, first, o, Consumer.DeadLettered);
      StageInTime(deadline, start, first, e);
      at, tries := e.at, e.attempts;
      match e.end
      case Done => end := Returned(DeadLettered);
      case DeadlineExceeded => end := Terminal(DeadlineExceededError);
      case ShutdownRequested => end := ShutdownDuringBackoff;
      case Exhausted | FatalError => end := Terminal(OffsetCommitFailedAfterDeadLetter);
    }

    /** The dead-letter loop alone decides if it does not succeed. */
    lemma DeadAlone(deadline: real, x: Leg, end: RunEnd)
      requires !Ended(deadline, Some(x), Done)
      requires match LegEnd(deadline, x).end
               case ShutdownRequested => end.ShutdownDuringBackoff?
               case DeadlineExceeded => end == Terminal(DeadlineExceededError)
               case _ => end == Terminal(DeadLetterPersistenceExhausted)
      ensures var t := Trail(None, Some(x), None);
              DeadCourse(deadline, t) && EndsAs(deadline, t, end) && TriesOf(deadline, t) == [LegEnd(deadline, x).attempts]
    {
    }

    lemma DeadThenCommit(deadline: real, x: Leg, y: Leg, end: RunEnd)
      requires Ended(deadline, Some(x), Done) && y == Leg(LegEnd(deadline, x).at, x.first + LegEnd(deadline, x).attempts)
      requires CommitEnds(deadline, y, end, true)
      ensures var t := Trail(None, Some(x), Some(y));
              && DeadCourse(deadline, t) && EndsAs(deadline, t, end)
              && TriesOf(deadline, t) == [LegEnd(deadline, x).attempts] + [LegEnd(deadline, y).attempts]
    {
    }

    /** `_dead_letter_and_commit`: the offset is committed only after the dead-letter row is durable. */
    method DeadLetterAndCommit(deadline: real, start: real, first: nat, ghost o: nat)
      returns (end: RunEnd, at: real, tries: seq<nat>, ghost t: Trail)
      requires Timely() && world.Valid() && InHand(world.st, c, o, Consumer.Poisoned)
      modifies world
      ensures world.Valid() && old(world.history) <= world.history && Grows(old(world.st), world.st)
      ensures start <= at <= Max(start, deadline)
      ensures |tries| <= 2 && forall i :: 0 <= i < |tries| ==> tries[i] <= MaxTries(b)
      ensures end == Returned(DeadLettered) || end == ShutdownDuringBackoff || end.Terminal?
      ensures end.Returned? ==> AtPosition(world.st, c, o + 1) && world.st.down.committed == o + 1
      ensures end.Returned? ==> o in world.st.down.dead
      ensures t.apply.None? && t.dead == Some(Leg(start, first)) && DeadCourse(deadline, t) && EndsAs(deadline, t, end)
      ensures tries == TriesOf(deadline, t)
      ensures Clear(2, start, deadline) ==> end.Returned?
    {
      ghost var s0 := world.st;
      var e := DeadLetterLoop(deadline, start, first, o);
      StageInTime(deadline, start, first, e);
      at, tries := e.at, [e.attempts];
      t := Trail(None, Some(Leg(start, first)), None);
      match e.end
      case DeadlineExceeded => end := Terminal(DeadlineExceededError);
      case ShutdownRequested => end := ShutdownDuringBackoff;
      case Exhausted | FatalError => end := Terminal(DeadLetterPersistenceExhausted);
      case Done =>
        ghost var s1 := world.st;
        var more, next: nat := 0, first + e.attempts;
        end, at, more := CommitDeadLettered(deadline, e.at, next, o);
        GrowsTransitive(s0, s1, world.st);
        tries := tries + [more];
        t := t.(commit := Some(Leg(e.at, next)));
        DeadThenCommit(deadline, Leg(start, first), Leg(e.at, next), end);
        return;
      DeadAlone(deadline, Leg(start, first), end);
    }

    /** What follows a successful apply loop: the commit, or the dead letter and its commit. */
    predicate AfterApplyCourse(deadline: real, start: real, first: nat, t: Trail) {
      && t.apply.None?
      && (if t.dead.Some? then t.dead == Some(Leg(start, first)) && DeadCourse(deadline, t)
          else t.commit == Some(Leg(start, first)))
    }

    lemma CommitAlone(deadline: real, leg: Leg, end: RunEnd)
      requires CommitEnds(deadline, leg, end, false)
      ensures EndsAs(deadline, Trail(None, None, Some(leg)), end)
    {
    }

    /** The apply loop before it, ended in success, changes nothing about the end. */
    lemma ApplyBefore(deadline: real, x: Leg, start: real, first: nat, t: Trail, end: RunEnd)
      requires Ended(deadline, Some(x), Done) && start == LegEnd(deadline, x).at && first == x.first + LegEnd(deadline, x).attempts
      requires AfterApplyCourse(deadline, start, first, t) && EndsAs(deadline, t, end)
      ensures ApplyCourse(deadline, t.(apply := Some(x))) && EndsAs(deadline, t.(apply := Some(x)), end)
      ensures TriesOf(deadline, t.(apply := Some(x))) == [LegEnd(deadline, x).attempts] + TriesOf(deadline, t)
    {
    }

    /** The apply loop alone decides if it does not succeed. */
    lemma ApplyAlone(deadline: real, x: Leg, end: RunEnd)
      requires !Ended(deadline, Some(x), Done)
      requires match LegEnd(deadline, x).end
               case ShutdownRequested => end.ShutdownDuringBackoff?
               case DeadlineExceeded => end == Terminal(DeadlineExceededError)
               case Exhausted => end == Terminal(RetryExhausted)
               case _ => end == Terminal(DatabaseFatal)
      ensures ApplyCourse(deadline, Trail(Some(x), None, None)) && EndsAs(deadline, Trail(Some(x), None, None), end)
      ensures TriesOf(deadline, Trail(Some(x), None, None)) == [LegEnd(deadline, x).attempts]
    {
    }

    /** The record is settled or classified poison: commit it, or dead-letter it first. */
    method AfterApply(deadline: real, start: real, first: nat, applied: bool, ghost o: nat, ghost s0: Pipeline.State)
      returns (end: RunEnd, at: real, tries: seq<nat>, ghost t: Trail)
      requires Timely() && world.Valid() && Decided(world.st, c, o) && Grows(s0, world.st)
      requires applied ==> NewlyApplied(s0, world.st, o)
      modifies world
      ensures world.Valid() && old(world.history) <= world.history && Grows(s0, world.st)
      ensures start <= at <= Max(start, deadline)
      ensures |tries| <= 2 && forall i :: 0 <= i < |tries| ==> tries[i] <= MaxTries(b)
      ensures end.Returned? ==> !end.outcome.NoMessage?
      ensures end.Returned? ==> AtPosition(world.st, c, o + 1) && world.st.down.committed == o + 1
      ensures end.TransientKafka? ==> AtPosition(world.st, c, o + 1)
      ensures end == Returned(DeadLettered) ==> o in world.st.down.dead
      ensures end == Returned(Applied) ==> NewlyApplied(s0, world.st, o)
      ensures end == Returned(Applied) || end == Returned(Duplicate) ==> Recorded(world.st, o)
      ensures AfterApplyCourse(deadline, start, first, t) && EndsAs(deadline, t, end)
      ensures tries == TriesOf(deadline, t)
      ensures Clear(2, start, deadline) ==> end.Returned?
    {
      ghost var s1 := world.st;
      if world.st.down.sessions[c].hand.value.phase.Settled? {
        var more;
        end, at, more := CommitApplied(deadline, start, first, if applied then Applied else Duplicate, o);
        tries := [more];
        t := Trail(None, None, Some(Leg(start, first)));
        CommitAlone(deadline, Leg(start, first), end);
        ClearLess(start, deadline);
        if applied { NewlyAppliedWidens(s0, s0, s1, world.st, o); }
      } else {
        end, at, tries, t := DeadLetterAndCommit(deadline, start, first, o);
      }
      GrowsTransitive(s0, s1, world.st);
    }

    lemma ClearLess(start: real, deadline: real)
      requires Timely()
      ensures Clear(2, start, deadline) ==> Clear(1, start, deadline)
    {
      assert calls(0).duration <= b.bound;
      assert Times(2, b.bound) == b.bound + Times(1, b.bound);
    }

    /** `_apply_with_retry`, with the record in hand. */
    method ApplyAndCommit(deadline: real, start: real, first: nat, ghost o: nat)
      returns (end: RunEnd, at: real, tries: seq<nat>, ghost t: Trail)
      requires Timely() && world.Valid() && InHand(world.st, c, o, Consumer.Fetched)
      modifies world
      ensures world.Valid() && old(world.history) <= world.history && Grows(old(world.st), world.st)
      ensures start <= at <= Max(start, deadline)
      ensures |tries| <= 3 && forall i :: 0 <= i < |tries| ==> tries[i] <= MaxTries(b)
      ensures end.Returned? ==> !end.outcome.NoMessage?
      ensures end.Returned? ==> AtPosition(world.st, c, o + 1) && world.st.down.committed == o + 1
      ensures end.TransientKafka? ==> AtPosition(world.st, c, o + 1)
      ensures end == Returned(DeadLettered) ==> o in world.st.down.dead
      ensures end == Returned(Applied) ==> NewlyApplied(old(world.st), world.st, o)
      ensures end == Returned(Applied) || end == Returned(Duplicate) ==> Recorded(world.st, o)
      ensures t.apply == Some(Leg(start, first)) && ApplyCourse(deadline, t) && EndsAs(deadline, t, end)
      ensures tries == TriesOf(deadline, t)
      ensures Clear(3, start, deadline) ==> end.Returned?
    {
      ghost var s0 := world.st;
      var e, applied := ApplyLoop(deadline, start, first, o);
      StageInTime(deadline, start, first, e);
      ghost var x := Leg(start, first);
      if e.end.Done? {
        var next: nat := first + e.attempts;
        var more;
        end, at, more, t := AfterApply(deadline, e.at, next, applied, o, s0);
        ApplyBefore(deadline, x, e.at, next, t, end);
        tries, t := [e.attempts] + more, t.(apply := Some(x));
        return;
      }
      at, tries, t := e.at, [e.attempts], Trail(Some(x), None, None);
      match e.end {
        case DeadlineExceeded => end := Terminal(DeadlineExceededError);
        case ShutdownRequested => end := ShutdownDuringBackoff;
        case Exhausted => end := Terminal(RetryExhausted);
        case FatalError => end := Terminal(DatabaseFatal);
      }
      ApplyAlone(deadline, x, end);
    }

    /** The session is between two records: its next call is `poll`. */
    ghost predicate Between(s: Pipeline.State) {
      c in s.down.sessions && s.down.sessions[c].hand.None?
    }

    function Position(s: Pipeline.State): nat {
      if c in s.down.sessions then s.down.sessions[c].position else 0
    }

    /** There is a record to poll. */
    ghost predicate Available(s: Pipeline.State) {
      Position(s) < |s.up.log|
    }

    /** The part of `run_once` after a record was polled: dead-letter it if it cannot be decoded, apply it otherwise. */
    method Process(deadline: real, now: real, first: nat, o: nat) returns (end: RunEnd, at: real, tries: seq<nat>, ghost t: Trail)
      requires Timely() && world.Valid() && o < |world.st.up.log|
      requires InHand(world.st, c, o, if world.st.up.log[o].Poison? then Consumer.Poisoned else Consumer.Fetched)
      modifies world
      ensures world.Valid() && old(world.history) <= world.history && Grows(old(world.st), world.st)
      ensures now <= at <= Max(now, deadline)
      ensures |tries| <= 3 && forall i :: 0 <= i < |tries| ==> tries[i] <= MaxTries(b)
      ensures end.Returned? ==> !end.outcome.NoMessage?
      ensures end.Returned? ==> AtPosition(world.st, c, o + 1) && world.st.down.committed == o + 1
      ensures end.TransientKafka? ==> AtPosition(world.st, c, o + 1)
      ensures end == Returned(DeadLettered) ==> o in world.st.down.dead
      ensures end == Returned(Applied) ==> NewlyApplied(old(world.st), world.st, o)
      ensures end == Returned(Applied) || end == Returned(Duplicate) ==> Recorded(world.st, o)
      ensures Course(deadline, now, first, old(world.st).up.log[o].Poison?, t) && EndsAs(deadline, t, end)
      ensures tries == TriesOf(deadline, t)
      ensures Clear(3, now, deadline) ==> end.Returned?
    {
      if world.st.up.log[o].Poison? {
        assert Times(3, b.bound) == b.bound + Times(2, b.bound) && calls(0).duration <= b.bound;
        end, at, tries, t := DeadLetterAndCommit(deadline, now, first, o);
      } else {
        end, at, tries, t := ApplyAndCommit(deadline, now, first, o);
      }
    }

    /** What one `run_once` did: the poll, and the loops of its record if it got one. */
    ghost predicate RoundEnds(poll: PollResult, now: real, course: Option<Trail>, end: RunEnd) {
      var deadline := DeadlineAt(b, pollInterval, now);
      && (end.ShutdownDuringBackoff? <==> course.Some? && AnyEnded(deadline, course.value, ShutdownRequested))
      && (end.Terminal? <==> RoundFailed(poll, now, course))
      && (end.Terminal? ==> if poll.FatalBroker? then end.failure == PollFatal else Names(deadline, course.value, end.failure))
      && (end.TransientKafka? <==> poll.TransientBroker? || (course.Some? && CommitGivenUp(deadline, course.value)))
      && (end.Returned? <==> poll.Polled? && (course.Some? ==> Ended(deadline, course.value.commit, Done)))
    }

    /** A fatal poll, or a failure in one of the record's loops. */
    ghost predicate RoundFailed(poll: PollResult, now: real, course: Option<Trail>) {
      poll.FatalBroker? || (course.Some? && Failed(DeadlineAt(b, pollInterval, now), course.value))
    }

    /** The record's loops are those its kind calls for. */
    ghost predicate CourseOf(s: Pipeline.State, o: nat, now: real, first: nat, course: Option<Trail>) {
      course.Some? ==> o < |s.up.log| && Course(DeadlineAt(b, pollInterval, now), now, first, s.up.log[o].Poison?, course.value)
    }

    /** `poll` and what it fetches. */
    method Fetch() returns (got: bool, o: nat)
      requires world.Valid() && Between(world.st)
      modifies world
      ensures world.Valid() && old(world.history) <= world.history && Grows(old(world.st), world.st)
      ensures o == Position(old(world.st)) && (Available(old(world.st)) ==> got)
      ensures if got then o < |world.st.up.log| && InHand(world.st, c, o, if world.st.up.log[o].Poison? then Consumer.Poisoned else Consumer.Fetched)
              else Between(world.st) && Position(world.st) == o
    {
      ghost var s0 := world.st;
      world.Yield(ConsumerSession(c));
      ghost var s1 := world.st;
      o := Position(world.st);
      got := o < |world.st.up.log|;
      if got {
        world.Take(Pipeline.Down(Consumer.Poll(c)));
        GrowsTransitive(s0, s1, world.st);
      }
    }

    /**
     One `run_once`: at most three retry loops of at most `max_attempts` tries each, all of them over by
     the record's deadline, whatever the outcomes. How it ends is decided by what its poll, calls and waits did. It
     returns normally, or raises the one error after which the poll loop polls again, only with no record in hand; a
     record it returns for is committed, and has its inbox row, or its dead-letter row exactly if that is the outcome.
     */
    method RunOnce(poll: PollResult, now: real, first: nat)
      returns (end: RunEnd, at: real, tries: seq<nat>, ghost course: Option<Trail>)
      requires Timely() && world.Valid() && Between(world.st)
      modifies world
      ensures world.Valid() && old(world.history) <= world.history && Grows(old(world.st), world.st)
      ensures now <= at <= Max(now, DeadlineAt(b, pollInterval, now))
      ensures |tries| <= 3 && forall i :: 0 <= i < |tries| ==> tries[i] <= MaxTries(b)
      ensures RoundEnds(poll, now, course, end)
      ensures tries == if course.Some? then TriesOf(DeadlineAt(b, pollInterval, now), course.value) else []
      ensures CourseOf(world.st, Position(old(world.st)), now, first, course)
      ensures (course.Some? ==> poll.Polled?) && (poll.Polled? && Available(old(world.st)) ==> course.Some?)
      ensures end == Returned(NoMessage) <==> poll.Polled? && course.None?
      ensures end.Returned? || end.TransientKafka? ==> Between(world.st)
      ensures end.Returned? && !end.outcome.NoMessage? ==>
                Position(world.st) == Position(old(world.st)) + 1 && world.st.down.committed == Position(world.st)
      ensures end == Returned(DeadLettered) ==> Position(old(world.st)) in world.st.down.dead
      ensures end == Returned(Applied) ==> NewlyApplied(old(world.st), world.st, Position(old(world.st)))
      ensures end == Returned(Applied) || end == Returned(Duplicate) ==> Recorded(world.st, Position(old(world.st)))
      ensures end == Returned(NoMessage) ==> Position(world.st) == Position(old(world.st))
      ensures poll.Polled? && Available(old(world.st)) && Clear(3, now, DeadlineAt(b, pollInterval, now)) ==>
                end.Returned? && !end.outcome.NoMessage?
      ensures end.TransientKafka? ==>
                Position(world.st) == Position(old(world.st)) + if poll.TransientBroker? then 0 else 1
    {
      at, tries, course := now, [], None;
      if poll.FatalBroker? { return Terminal(PollFatal), at, tries, course; }
      if poll.TransientBroker? { return TransientKafka, at, tries, course; }
      ghost var s0 := world.st;
      var got, o := Fetch();
      if !got { return Returned(NoMessage), at, tries, course; }
      ghost var s1 := world.st;
      ghost var t;
      end, at, tries, t := Process(DeadlineAt(b, pollInterval, now), now, first, o);
      course := Some(t);
      if end == Returned(Applied) { NewlyAppliedWidens(s0, s1, world.st, world.st, o); }
      GrowsTransitive(s0, s1, world.st);
    }

    /** Every offset below `n` is durably dealt with. */
    ghost predicate DealtWith(s: Pipeline.State, n: nat) {
      n <= |s.up.log| && forall o: nat :: o < n ==> Consumer.Handled(s.down, s.up.log, o)
    }

    lemma BetweenIsDealtWith()
      requires world.Valid() && Between(world.st)
      ensures DealtWith(world.st, Position(world.st))
    {
      world.Sound();
      assert Consumer.SessionOk(world.st.down, world.st.up.log, world.st.down.sessions[c]);
    }

    lemma DealtWithStays(s: Pipeline.State, t: Pipeline.State, n: nat)
      requires DealtWith(s, n) && Grows(s, t)
      ensures DealtWith(t, n)
    {
      forall o: nat | o < n ensures Consumer.Handled(t.down, t.up.log, o) {
        assert Consumer.Handled(s.down, s.up.log, o);
      }
    }

    /** The number of calls a round used. */
    function Used(now: real, course: Option<Trail>): nat {
      if course.Some? then Sum(TriesOf(DeadlineAt(b, pollInterval, now), course.value)) else 0
    }

    /** One iteration of the poll loop, if it goes on: everything below the new position is dealt with. */
    method Round(poll: PollResult, now: real, first: nat, position: nat)
      returns (end: RunEnd, position': nat, calls': nat, ghost turn: Turn)
      requires Timely() && world.Valid() && Between(world.st) && DealtWith(world.st, position) && position == Position(world.st)
      modifies world
      ensures world.Valid() && old(world.history) <= world.history && Grows(old(world.st), world.st)
      ensures DealtWith(world.st, position') && RoundEnds(poll, now, turn.course, end)
      ensures turn.first == first && turn.offset == position && TurnOk(world.st, now, turn)
      ensures calls' == first + Used(now, turn.course)
      ensures end.Returned? || end.TransientKafka? ==> Between(world.st) && position' == Position(world.st)
      ensures end.Returned? || end.TransientKafka? ==> position' == position + if turn.course.Some? then 1 else 0
      ensures end.ShutdownDuringBackoff? || end.Terminal? ==> position' == position
    {
      ghost var s0 := world.st;
      var at, tries;
      ghost var course;
      end, at, tries, course := RunOnce(poll, now, first);
      position', calls', turn := position, first + Sum(tries), Turn(first, position, course);
      if end.Returned? || end.TransientKafka? {
        position' := Position(world.st);
        BetweenIsDealtWith();
      } else {
        DealtWithStays(s0, world.st, position);
      }
    }

    /** The loops of the turn are those of the record at its offset, from its time and call on. */
    ghost predicate TurnOk(s: Pipeline.State, now: real, turn: Turn) {
      CourseOf(s, turn.offset, now, turn.first, turn.course)
    }

    ghost predicate TurnsOk(s: Pipeline.State, clock: nat -> real, turns: seq<Turn>) {
      forall i :: 0 <= i < |turns| ==> TurnOk(s, clock(i), turns[i])
    }

    lemma TurnsStayOk(s: Pipeline.State, t: Pipeline.State, clock: nat -> real, turns: seq<Turn>)
      requires TurnsOk(s, clock, turns) && Grows(s, t)
      ensures TurnsOk(t, clock, turns)
    {
      forall i | 0 <= i < |turns| ensures TurnOk(t, clock(i), turns[i]) {
        assert TurnOk(s, clock(i), turns[i]);
      }
    }

    /** Where the next turn takes up: after the calls used so far, at the next record if this one was dealt with. */
    predicate Leads(now: real, turn: Turn, first: nat, offset: nat) {
      first == turn.first + Used(now, turn.course) && offset == turn.offset + if turn.course.Some? then 1 else 0
    }

    ghost predicate Linked(clock: nat -> real, turns: seq<Turn>) {
      && (turns != [] ==> turns[0].first == 0)
      && forall i, k :: 0 <= i && k == i + 1 && k < |turns| ==> Leads(clock(i), turns[i], turns[k].first, turns[k].offset)
    }

    /** No round so far failed or was stopped by shutdown. */
    ghost predicate AllGoOn(polls: nat -> PollResult, clock: nat -> real, turns: seq<Turn>) {
      forall i :: 0 <= i < |turns| ==> GoesOn(polls(i), clock(i), turns[i])
    }

    ghost predicate GoesOn(poll: PollResult, now: real, turn: Turn) {
      !RoundFailed(poll, now, turn.course) && !RoundStopped(now, turn.course)
    }

    /** Shutdown cut a wait of the record's loops short. */
    ghost predicate RoundStopped(now: real, course: Option<Trail>) {
      course.Some? && AnyEnded(DeadlineAt(b, pollInterval, now), course.value, ShutdownRequested)
    }

    /** Polling failed transiently, or the offset commit of an applied record was given up. */
    ghost predicate RoundTransient(poll: PollResult, now: real, course: Option<Trail>) {
      poll.TransientBroker? || (course.Some? && CommitGivenUp(DeadlineAt(b, pollInterval, now), course.value))
    }

    /** The turn is a reason to stop. */
    ghost predicate Stops(poll: PollResult, now: real, stopWaiting: bool, turn: Turn) {
      || RoundFailed(poll, now, turn.course) || RoundStopped(now, turn.course)
      || (RoundTransient(poll, now, turn.course) && stopWaiting)
    }

    /** The last round is the reason the loop stopped early. */
    ghost predicate StopsAfter(polls: nat -> PollResult, clock: nat -> real, stopWaiting: nat -> bool, turns: seq<Turn>) {
      turns != [] && var m: nat := |turns| - 1; Stops(polls(m), clock(m), stopWaiting(m), turns[m])
    }

    /** Some round failed. */
    ghost predicate SomeFailed(polls: nat -> PollResult, clock: nat -> real, turns: seq<Turn>) {
      exists i :: 0 <= i < |turns| && RoundFailed(polls(i), clock(i), turns[i].course)
    }

    /**
     What the poll loop did over its rounds: it went on after all but the last, stopped early only for a reason, and has
     exit code 1 exactly if some round failed.
     */
    ghost predicate LoopRan(rounds: nat, polls: nat -> PollResult, clock: nat -> real, stopWaiting: nat -> bool, turns: seq<Turn>, code: int) {
      && |turns| <= rounds && Linked(clock, turns)
      && (turns != [] ==> AllGoOn(polls, clock, turns[..|turns| - 1]))
      && (|turns| < rounds ==> StopsAfter(polls, clock, stopWaiting, turns))
      && code == if SomeFailed(polls, clock, turns) then 1 else 0
    }

    lemma LoopDone(rounds: nat, polls: nat -> PollResult, clock: nat -> real, stopWaiting: nat -> bool, turns: seq<Turn>)
      requires |turns| == rounds && AllGoOn(polls, clock, turns) && Linked(clock, turns)
      ensures LoopRan(rounds, polls, clock, stopWaiting, turns, 0)
    {
      forall i | 0 <= i < |turns| ensures !RoundFailed(polls(i), clock(i), turns[i].course) {
        assert GoesOn(polls(i), clock(i), turns[i]);
      }
    }

    /** The turn to come takes up where the turns so far lead. */
    ghost predicate TakesUp(clock: nat -> real, turns: seq<Turn>, first: nat, offset: nat) {
      if turns == [] then first == 0
      else var m: nat := |turns| - 1; Leads(clock(m), turns[m], first, offset)
    }

    lemma LinkedSnoc(clock: nat -> real, turns: seq<Turn>, turn: Turn)
      requires Linked(clock, turns) && TakesUp(clock, turns, turn.first, turn.offset)
      ensures Linked(clock, turns + [turn])
    {
      var all := turns + [turn];
      forall i, k | 0 <= i && k == i + 1 && k < |all| ensures Leads(clock(i), all[i], all[k].first, all[k].offset) {
        if k < |turns| {
          assert Leads(clock(i), turns[i], turns[k].first, turns[k].offset);
        }
      }
    }

    lemma LoopNext(polls: nat -> PollResult, clock: nat -> real, turns: seq<Turn>, n: nat, turn: Turn)
      requires n == |turns| && AllGoOn(polls, clock, turns) && GoesOn(polls(n), clock(n), turn)
      ensures AllGoOn(polls, clock, turns + [turn])
    {
    }

    lemma LoopStops(rounds: nat, polls: nat -> PollResult, clock: nat -> real, stopWaiting: nat -> bool, turns: seq<Turn>, n: nat, turn: Turn)
      requires n == |turns| < rounds && AllGoOn(polls, clock, turns) && Linked(clock, turns + [turn])
      requires Stops(polls(n), clock(n), stopWaiting(n), turn)
      ensures LoopRan(rounds, polls, clock, stopWaiting, turns + [turn], if RoundFailed(polls(n), clock(n), turn.course) then 1 else 0)
    {
      var all := turns + [turn];
      assert all[..|all| - 1] == turns && all[n] == turn;
      forall i | 0 <= i < n ensures !RoundFailed(polls(i), clock(i), all[i].course) {
        assert GoesOn(polls(i), clock(i), turns[i]);
      }
    }

    /** The turns so far are in order, and the state is between two records. */
    ghost predicate InBetween(s: Pipeline.State, clock: nat -> real, turns: seq<Turn>, first: nat, position: nat) {
      && Between(s) && position == Position(s) && DealtWith(s, position)
      && TurnsOk(s, clock, turns) && Linked(clock, turns) && TakesUp(clock, turns, first, position)
    }

    /** The turns, or the position if there are none, begin at the offset. */
    ghost predicate Begins(turns: seq<Turn>, position: nat, offset: nat) {
      if turns == [] then position == offset else turns[0].offset == offset
    }

    /** One more turn, in order. */
    method NextTurn(polls: nat -> PollResult, clock: nat -> real, n: nat, first: nat, position: nat, ghost turns: seq<Turn>)
      returns (end: RunEnd, position': nat, first': nat, ghost turn: Turn)
      requires Timely() && world.Valid() && n == |turns| && InBetween(world.st, clock, turns, first, position)
      modifies world
      ensures world.Valid() && old(world.history) <= world.history && DealtWith(world.st, position')
      ensures RoundEnds(polls(n), clock(n), turn.course, end) && turn.offset == position
      ensures TurnsOk(world.st, clock, turns + [turn]) && Linked(clock, turns + [turn])
      ensures end.Returned? || end.TransientKafka? ==> InBetween(world.st, clock, turns + [turn], first', position')
    {
      ghost var s := world.st;
      end, position', first', turn := Round(polls(n), clock(n), first, position);
      TurnsStayOk(s, world.st, clock, turns);
      LinkedSnoc(clock, turns, turn);
      ghost var all := turns + [turn];
      assert |all| - 1 == n && all[n] == turn;
    }

    /** The rounds of the poll loop. */
    method Rounds(rounds: nat, polls: nat -> PollResult, clock: nat -> real, stopWaiting: nat -> bool)
      returns (code: int, position: nat, ghost turns: seq<Turn>)
      requires Timely() && world.Valid() && Between(world.st)
      modifies world
      ensures world.Valid() && old(world.history) <= world.history && DealtWith(world.st, position)
      ensures LoopRan(rounds, polls, clock, stopWaiting, turns, code) && TurnsOk(world.st, clock, turns)
      ensures Begins(turns, position, Position(old(world.st)))
    {
      position := Position(world.st);
      BetweenIsDealtWith();
      turns := [];
      var first: nat, n: nat := 0, 0;
      while n < rounds
        invariant world.Valid() && old(world.history) <= world.history
        invariant InBetween(world.st, clock, turns, first, position)
        invariant n == |turns| <= rounds && AllGoOn(polls, clock, turns)
        invariant Begins(turns, position, Position(old(world.st)))
      {
        var end;
        ghost var turn;
        end, position, first, turn := NextTurn(polls, clock, n, first, position, turns);
        if end.ShutdownDuringBackoff? || end.Terminal? || (end.TransientKafka? && stopWaiting(n)) {
          LoopStops(rounds, polls, clock, stopWaiting, turns, n, turn);
          return if end.Terminal? then 1 else 0, position, turns + [turn];
        }
        LoopNext(polls, clock, turns, n, turn);
        turns := turns + [turn];
        n := n + 1;
      }
      code := 0;
      LoopDone(rounds, polls, clock, stopWaiting, turns);
    }

    /**
     `_run_poll_loop` until shutdown is noticed at check `rounds`, a backoff is cut short, or a terminal
     error. Whichever way it ends, every offset below the poll position of its last iteration is durably
     dealt with, also when commit retries ran out on the way. Its exit code is 1 exactly if a round it ran failed, and it
     stops before its time only after such a failure, or when shutdown cut a wait short.
     */
    method PollLoop(rounds: nat, polls: nat -> PollResult, clock: nat -> real, stopWaiting: nat -> bool)
      returns (code: int, position: nat, ghost turns: seq<Turn>)
      requires Timely() && world.Valid()
      modifies world
      ensures world.Valid() && old(world.history) <= world.history
      ensures DealtWith(world.st, position) && DealtWith(world.st, world.st.down.committed)
      ensures LoopRan(rounds, polls, clock, stopWaiting, turns, code) && TurnsOk(world.st, clock, turns)
      ensures Begins(turns, position, old(world.st.down.committed))
      ensures c !in world.st.down.sessions
    {
      world.Take(Pipeline.Down(Consumer.Join(c)));
      code, position, turns := Rounds(rounds, polls, clock, stopWaiting);
      ghost var s := world.st;
      LeaveGroup(position);
      TurnsStayOk(s, world.st, clock, turns);
    }

    /** The process ends; what was dealt with stays dealt with. */
    method LeaveGroup(ghost position: nat)
      requires world.Valid() && DealtWith(world.st, position)
      modifies world
      ensures world.Valid() && old(world.history) <= world.history && Grows(old(world.st), world.st)
      ensures DealtWith(world.st, position) && DealtWith(world.st, world.st.down.committed)
      ensures c !in world.st.down.sessions
    {
      ghost var s0 := world.st;
      world.Take(Pipeline.Down(Consumer.Stop(c)));
      DealtWithStays(s0, world.st, position);
      world.Sound();
    }
  }
}
