/**
 The model-invocation ledger: logical invocations keyed by their input, physical provider attempts, fenced
 completion, reclaim of stale attempts, and the cap on malformed answers. Any number of processes run the
 transactions below in any order; an attempt is named by its place in the invocation's attempt list.
 */
module ModelLedger {
  import opened Prelude

  datatype Node = Plan | Draft | Evaluate

  /** What `build_invocation_key` hashes. */
  datatype Key = Key(job: string, node: Node, promptVersion: string, provider: string, model: string, fingerprint: string)

  datatype ErrorClass = Stale | Malformed | Other(name: string)

  datatype AttemptStatus = Started | Succeeded | Failed(error: ErrorClass)

  datatype Attempt = Attempt(status: AttemptStatus, deadline: int, started: int, finished: Option<int>)

  datatype Status = InProgress | Done | Broken

  datatype Invocation = Invocation(status: Status, output: Option<string>, started: int, finished: Option<int>, attempts: seq<Attempt>)

  type Ledger = map<Key, Invocation>

  /** Only the evaluate node caps malformed answers. */
  function CapOf(key: Key): Option<nat> {
    if key.node.Evaluate? then Some(2) else None
  }

  // ---------- Statements ----------

  function SetAttempt(v: Invocation, i: nat, st: AttemptStatus, at: int): Invocation
    requires i < |v.attempts|
  {
    v.(attempts := v.attempts[i := v.attempts[i].(status := st, finished := Some(at))])
  }

  /** `complete_attempt` and `fail_attempt`: conditional on the attempt still being STARTED. */
  function EndAttempt(v: Invocation, i: nat, st: AttemptStatus, at: int): Option<Invocation> {
    if i < |v.attempts| && v.attempts[i].status.Started? then Some(SetAttempt(v, i, st, at)) else None
  }

  /** The attempt has the greatest number of its invocation. */
  predicate Latest(v: Invocation, i: nat) {
    i + 1 == |v.attempts|
  }

  /** `complete_invocation_for_attempt` */
  function CompleteInvocation(v: Invocation, i: nat, output: string, at: int): Option<Invocation> {
    if Latest(v, i) && v.attempts[i].status.Succeeded?
    then Some(v.(status := Done, output := Some(output), finished := Some(at))) else None
  }

  /** `mark_invocation_failed_for_attempt` */
  function MarkFailed(v: Invocation, i: nat, at: int): Option<Invocation> {
    if Latest(v, i) && v.attempts[i].status.Failed? && !v.status.Done?
    then Some(v.(status := Broken, output := None, finished := Some(at))) else None
  }

  /** `reopen_invocation` */
  function Reopen(v: Invocation, at: int): Invocation {
    v.(status := InProgress, output := None, started := at, finished := None)
  }

  /** `begin_attempt` */
  function BeginAttempt(v: Invocation, deadline: int, at: int): Invocation {
    v.(attempts := v.attempts + [Attempt(Started, deadline, at, None)])
  }

  /** `count_failed_attempts_with_error_class` for malformed answers. */
  function MalformedCount(attempts: seq<Attempt>): nat {
    if attempts == [] then 0
    else MalformedCount(attempts[..|attempts| - 1]) + if attempts[|attempts| - 1].status == Failed(Malformed) then 1 else 0
  }

  // ---------- CHECK constraints ----------

  predicate AttemptCheck(a: Attempt) {
    if a.status.Started? then a.finished.None? else a.finished.Some? && a.finished.value >= a.started
  }

  predicate Check(v: Invocation) {
    && (match v.status
        case InProgress => v.finished.None? && v.output.None?
        case Done => v.finished.Some? && v.finished.value >= v.started && v.output.Some?
        case Broken => v.finished.Some? && v.finished.value >= v.started && v.output.None?)
    && forall i :: 0 <= i < |v.attempts| ==> AttemptCheck(v.attempts[i])
  }

  // ---------- Transactions ----------

  /** `_can_reclaim`, for an invocation in progress. */
  predicate CanReclaim(v: Invocation, claimValid: bool, now: int) {
    if v.attempts == [] then true
    else
      var last := v.attempts[|v.attempts| - 1];
      !(last.status.Started? && last.deadline > now) && !claimValid
  }

  /** Fail the stale latest attempt and with it the invocation; `None` where the source raises. */
  function MarkStale(v: Invocation, now: int): Option<Invocation> {
    if v.attempts == [] || !v.attempts[|v.attempts| - 1].status.Started? then Some(v)
    else
      var i := |v.attempts| - 1;
      var w := EndAttempt(v, i, Failed(Stale), now);
      if w.None? then None else MarkFailed(w.value, i, now)
  }

  datatype Opening =
    | Replay(output: string)
    | Corrupt           // SUCCEEDED without output
    | Busy              // ModelInvocationInProgressError
    | CapReached        // ModelInvalidStructuredOutputError without a provider call
    | Begun(row: Invocation)

  predicate AtCap(key: Key, v: Invocation) {
    CapOf(key).Some? && MalformedCount(v.attempts) >= CapOf(key).value
  }

  /** What the first transaction of `_execute` decides, and the row it would flush. */
  function Open(ledger: Ledger, key: Key, now: int, timeout: nat, claimValid: bool): Opening {
    if key !in ledger then Begun(BeginAttempt(Invocation(InProgress, None, now, None, []), now + timeout, now))
    else
      var v := ledger[key];
      if v.status.Done? then (if v.output.Some? then Replay(v.output.value) else Corrupt)
      else if v.status.InProgress? && !CanReclaim(v, claimValid, now) then Busy
      else
        var w := if v.status.InProgress? then MarkStale(v, now) else Some(v);
        if w.None? then Busy
        else if AtCap(key, w.value) then CapReached
        else Begun(BeginAttempt(Reopen(w.value, now), now + timeout, now))
  }

  /** The success transaction of `_execute`; `None` when the attempt lost ownership. */
  function Succeed(v: Invocation, i: nat, output: string, at: int): Option<Invocation> {
    var w := EndAttempt(v, i, Succeeded, at);
    if w.None? then None else CompleteInvocation(w.value, i, output, at)
  }

  /** The failure transaction of `_execute`. */
  function FailWith(v: Invocation, i: nat, error: ErrorClass, at: int): Option<Invocation> {
    var w := EndAttempt(v, i, Failed(error), at);
    if w.None? then None else MarkFailed(w.value, i, at)
  }

  datatype Step =
    | Begin(key: Key, now: int, timeout: nat, claimValid: bool)
    | Success(key: Key, i: nat, output: string, at: int)
    | Failure(key: Key, i: nat, error: ErrorClass, at: int)

  /** The row a transaction flushes, if it gets that far. */
  function Flushed(ledger: Ledger, step: Step): Option<Invocation> {
    match step
    case Begin(key, now, timeout, claimValid) =>
      var o := Open(ledger, key, now, timeout, claimValid);
      if o.Begun? then Some(o.row) else None
    case Success(key, i, output, at) => if key in ledger then Succeed(ledger[key], i, output, at) else None
    case Failure(key, i, error, at) => if key in ledger then FailWith(ledger[key], i, error, at) else None
  }

  function Apply(ledger: Ledger, step: Step): Ledger {
    var v := Flushed(ledger, step);
    if v.Some? && Check(v.value) then ledger[step.key := v.value] else ledger
  }

  function Run(ledger: Ledger, steps: seq<Step>): Ledger {
    if steps == [] then ledger else Apply(Run(ledger, steps[..|steps| - 1]), steps[|steps| - 1])
  }

  // ---------- The invariant ----------

  function One(b: bool): nat {
    if b then 1 else 0
  }

  /** Only the latest attempt is ever open or successful, and the invocation's status says which. */
  ghost predicate StatusFollowsLatest(v: Invocation) {
    && v.attempts != []
    && (forall i :: 0 <= i < |v.attempts| - 1 ==> v.attempts[i].status.Failed?)
    && var last := v.attempts[|v.attempts| - 1];
       && (v.status.InProgress? <==> last.status.Started?)
       && (v.status.Done? <==> last.status.Succeeded?)
       && v.started == last.started
       && last.started <= last.deadline
  }

  ghost predicate WithinCap(key: Key, v: Invocation) {
    CapOf(key).Some? ==> MalformedCount(v.attempts) + One(v.status.InProgress?) <= CapOf(key).value
  }

  ghost predicate Sound(key: Key, v: Invocation) {
    StatusFollowsLatest(v) && WithinCap(key, v) && Check(v)
  }

  ghost predicate Inv(ledger: Ledger) {
    forall key :: key in ledger ==> Sound(key, ledger[key])
  }

  lemma MalformedSnoc(attempts: seq<Attempt>, a: Attempt)
    ensures MalformedCount(attempts + [a]) == MalformedCount(attempts) + One(a.status == Failed(Malformed))
  {
    assert (attempts + [a])[..|attempts|] == attempts;
  }

  /** Ending the open latest attempt. */
  lemma MalformedLast(attempts: seq<Attempt>, a: Attempt)
    requires attempts != [] && attempts[|attempts| - 1].status.Started?
    ensures MalformedCount(attempts[|attempts| - 1 := a]) == MalformedCount(attempts) + One(a.status == Failed(Malformed))
  {
    var m := |attempts| - 1;
    assert attempts[m := a] == attempts[..m] + [a];
    MalformedSnoc(attempts[..m], a);
  }

  /** In a sound ledger only the latest attempt of an invocation in progress can still end. */
  lemma OpenAttemptIsLatest(v: Invocation, i: nat)
    requires StatusFollowsLatest(v) && i < |v.attempts| && v.attempts[i].status.Started?
    ensures Latest(v, i) && v.status.InProgress?
  {
  }

  /**
   The fences agree: once the attempt update goes through, so does the update of its invocation, so neither
   transaction ever rolls back half-way.
   */
  lemma FencesAgree(v: Invocation, i: nat, output: string, error: ErrorClass, at: int)
    requires StatusFollowsLatest(v)
    ensures Succeed(v, i, output, at).Some? <==> Latest(v, i) && v.status.InProgress?
    ensures FailWith(v, i, error, at).Some? <==> Latest(v, i) && v.status.InProgress?
  {
    if i < |v.attempts| && v.attempts[i].status.Started? {
      OpenAttemptIsLatest(v, i);
    }
  }

  lemma SucceedSound(key: Key, v: Invocation, i: nat, output: string, at: int)
    requires Sound(key, v) && Succeed(v, i, output, at).Some? && Check(Succeed(v, i, output, at).value)
    ensures Sound(key, Succeed(v, i, output, at).value)
  {
    FencesAgree(v, i, output, Stale, at);
    MalformedLast(v.attempts, v.attempts[i].(status := Succeeded, finished := Some(at)));
  }

  lemma FailSound(key: Key, v: Invocation, i: nat, error: ErrorClass, at: int)
    requires Sound(key, v) && FailWith(v, i, error, at).Some? && Check(FailWith(v, i, error, at).value)
    ensures Sound(key, FailWith(v, i, error, at).value)
  {
    FencesAgree(v, i, "", error, at);
    MalformedLast(v.attempts, v.attempts[i].(status := Failed(error), finished := Some(at)));
  }

  /**
   Marking an attempt stale: it always goes through when reclaim is allowed, meets the constraints, and
   leaves the malformed count alone.
   */
  lemma MarkStaleSound(key: Key, v: Invocation, claimValid: bool, now: int)
    requires Sound(key, v) && v.status.InProgress? && CanReclaim(v, claimValid, now)
    ensures var w := MarkStale(v, now);
            && w.Some? && Check(w.value) && StatusFollowsLatest(w.value) && w.value.status.Broken?
            && |w.value.attempts| == |v.attempts|
            && MalformedCount(w.value.attempts) == MalformedCount(v.attempts)
  {
    var i := |v.attempts| - 1;
    MalformedLast(v.attempts, v.attempts[i].(status := Failed(Stale), finished := Some(now)));
  }

  lemma BeginAttemptSound(key: Key, v: Invocation, now: int, timeout: nat)
    requires Sound(key, v) || v == Invocation(InProgress, None, now, None, [])
    requires !v.status.Done? && (v.attempts != [] ==> v.status.Broken?) && !AtCap(key, v)
    ensures Sound(key, BeginAttempt(Reopen(v, now), now + timeout, now))
  {
    MalformedSnoc(v.attempts, Attempt(Started, now + timeout, now, None));
  }

  lemma OpenSound(ledger: Ledger, key: Key, now: int, timeout: nat, claimValid: bool)
    requires Inv(ledger) && Open(ledger, key, now, timeout, claimValid).Begun?
    ensures Sound(key, Open(ledger, key, now, timeout, claimValid).row)
  {
    if key !in ledger {
      var blank := Invocation(InProgress, None, now, None, []);
      assert Reopen(blank, now) == blank;
      BeginAttemptSound(key, blank, now, timeout);
    } else if ledger[key].status.InProgress? {
      MarkStaleSound(key, ledger[key], claimValid, now);
      BeginAttemptSound(key, MarkStale(ledger[key], now).value, now, timeout);
    } else {
      BeginAttemptSound(key, ledger[key], now, timeout);
    }
  }

  lemma StepKeepsInv(ledger: Ledger, step: Step)
    requires Inv(ledger)
    ensures Inv(Apply(ledger, step))
  {
    var v := Flushed(ledger, step);
    if v.Some? && Check(v.value) {
      match step
      case Begin(key, now, timeout, claimValid) => OpenSound(ledger, key, now, timeout, claimValid);
      case Success(key, i, output, at) => SucceedSound(key, ledger[key], i, output, at);
      case Failure(key, i, error, at) => FailSound(key, ledger[key], i, error, at);
    }
  }

  lemma {:induction false} RunKeepsInv(ledger: Ledger, steps: seq<Step>)
    requires Inv(ledger)
    ensures Inv(Run(ledger, steps))
  {
    if steps != [] {
      RunKeepsInv(ledger, steps[..|steps| - 1]);
      StepKeepsInv(Run(ledger, steps[..|steps| - 1]), steps[|steps| - 1]);
    }
  }

  // ---------- Theorems ----------

  /**
   Over any number of processes: at most one attempt per invocation is open, it is the latest, and it is open
   exactly while the invocation is in progress; an evaluate key never collects more than two malformed answers.
   */
  lemma OneOpenAttempt(steps: seq<Step>, key: Key)
    requires key in Run(map[], steps)
    ensures var v := Run(map[], steps)[key];
            && v.attempts != []
            && (forall i: nat :: i < |v.attempts| && v.attempts[i].status.Started? <==> Latest(v, i) && v.status.InProgress?)
            && (forall i: nat :: i < |v.attempts| && v.attempts[i].status.Succeeded? <==> Latest(v, i) && v.status.Done?)
            && (key.node.Evaluate? ==> MalformedCount(v.attempts) <= 2)
  {
    RunKeepsInv(map[], steps);
    assert Sound(key, Run(map[], steps)[key]);
  }

  /** A result of a superseded attempt, success or failure, changes nothing. */
  lemma LateResultIgnored(ledger: Ledger, key: Key, i: nat, output: string, error: ErrorClass, at: int)
    requires Inv(ledger) && key in ledger && i + 1 < |ledger[key].attempts|
    ensures Apply(ledger, Success(key, i, output, at)) == ledger
    ensures Apply(ledger, Failure(key, i, error, at)) == ledger
  {
    FencesAgree(ledger[key], i, output, error, at);
  }

  /** Attempts are only added, so a superseded attempt stays superseded. */
  lemma {:induction false} AttemptsOnlyGrow(ledger: Ledger, steps: seq<Step>, key: Key)
    requires Inv(ledger) && key in ledger
    ensures key in Run(ledger, steps) && |ledger[key].attempts| <= |Run(ledger, steps)[key].attempts|
  {
    if steps != [] {
      var m := |steps| - 1;
      AttemptsOnlyGrow(ledger, steps[..m], key);
      RunKeepsInv(ledger, steps[..m]);
      AttemptsGrow(Run(ledger, steps[..m]), steps[m], key);
    }
  }

  lemma AttemptsGrow(ledger: Ledger, step: Step, key: Key)
    requires Inv(ledger) && key in ledger
    ensures key in Apply(ledger, step) && |ledger[key].attempts| <= |Apply(ledger, step)[key].attempts|
  {
    var v := ledger[key];
    if step.key == key && step.Begin? && v.status.InProgress? && CanReclaim(v, step.claimValid, step.now) {
      MarkStaleSound(key, v, step.claimValid, step.now);
    }
  }

  /**
   A succeeded key is final: no continuation changes its output, starts another attempt for it, or makes it
   anything but a replay.
   */
  lemma {:induction false} SucceededForever(ledger: Ledger, steps: seq<Step>, key: Key)
    requires Inv(ledger) && key in ledger && ledger[key].status.Done?
    ensures key in Run(ledger, steps) && Run(ledger, steps)[key] == ledger[key]
    ensures forall now, timeout: nat, claimValid ::
              Open(Run(ledger, steps), key, now, timeout, claimValid) == Replay(ledger[key].output.value)
  {
    assert Sound(key, ledger[key]);
    if steps != [] {
      var m := |steps| - 1;
      SucceededForever(ledger, steps[..m], key);
      DoneStays(Run(ledger, steps[..m]), steps[m], key);
    }
  }

  lemma DoneStays(ledger: Ledger, step: Step, key: Key)
    requires key in ledger && Sound(key, ledger[key]) && ledger[key].status.Done?
    ensures key in Apply(ledger, step) && Apply(ledger, step)[key] == ledger[key]
  {
    if step.key == key && !step.Begin? {
      FencesAgree(ledger[key], step.i, "", Stale, step.at);
    }
  }

  /**
   The cap is never hit in the middle of a reclaim: a begin that marks an attempt stale always goes on to start
   the next one, so the rollback that would leave the stale attempt open cannot happen.
   */
  lemma CapNeverUndoesReclaim(ledger: Ledger, key: Key, now: int, timeout: nat, claimValid: bool)
    requires Inv(ledger) && key in ledger && ledger[key].status.InProgress?
    ensures Open(ledger, key, now, timeout, claimValid) == Busy <==> claimValid || LatestLive(ledger[key], now)
    ensures !claimValid && !LatestLive(ledger[key], now) ==>
              && Open(ledger, key, now, timeout, claimValid).Begun?
              && Apply(ledger, Begin(key, now, timeout, claimValid)) != ledger
  {
    var v := ledger[key];
    assert Sound(key, v);
    if CanReclaim(v, claimValid, now) {
      MarkStaleSound(key, v, claimValid, now);
      OpenSound(ledger, key, now, timeout, claimValid);
      assert |Open(ledger, key, now, timeout, claimValid).row.attempts| == |v.attempts| + 1;
    }
  }

  /** The constraints refuse a result exactly when the clock ran backwards past the attempt's start. */
  lemma ResultRefusedIff(ledger: Ledger, key: Key, i: nat, output: string, error: ErrorClass, at: int)
    requires Inv(ledger) && key in ledger && Latest(ledger[key], i) && ledger[key].status.InProgress?
    ensures Apply(ledger, Success(key, i, output, at)) == ledger <==> at < ledger[key].started
    ensures Apply(ledger, Failure(key, i, error, at)) == ledger <==> at < ledger[key].started
  {
    var v := ledger[key];
    assert Sound(key, v);
    FencesAgree(v, i, output, error, at);
    EndCheckIff(v, i, Succeeded, at);
    EndCheckIff(v, i, Failed(error), at);
    assert Succeed(v, i, output, at).value.status.Done? && FailWith(v, i, error, at).value.status.Broken?;
  }

  lemma EndCheckIff(v: Invocation, i: nat, st: AttemptStatus, at: int)
    requires Check(v) && i < |v.attempts| && !st.Started?
    ensures (forall k :: 0 <= k < |v.attempts| ==> AttemptCheck(SetAttempt(v, i, st, at).attempts[k]))
            <==> v.attempts[i].started <= at
  {
    var w := SetAttempt(v, i, st, at);
    assert w.attempts[i] == v.attempts[i].(status := st, finished := Some(at));
    assert forall k :: 0 <= k < |v.attempts| && k != i ==> w.attempts[k] == v.attempts[k];
  }

  // ---------- Who may begin, and who may take over ----------

  /** The latest attempt's deadline is later than `now`. */
  predicate LatestLive(v: Invocation, now: int) {
    v.attempts != [] && v.attempts[|v.attempts| - 1].deadline > now
  }

  /**
   When a begin starts an attempt, said of the ledger alone: the key is new; its last attempt failed and, for an evaluate
   key, fewer than two answers were malformed; or it is in progress, its job's claim is gone and its deadline has passed.
   */
  predicate MayBegin(ledger: Ledger, key: Key, now: int, claimValid: bool) {
    || key !in ledger
    || (ledger[key].status == Broken && (key.node == Evaluate ==> MalformedCount(ledger[key].attempts) < 2))
    || (ledger[key].status == InProgress && !claimValid && !LatestLive(ledger[key], now))
  }

  lemma OpenIff(ledger: Ledger, key: Key, now: int, timeout: nat, claimValid: bool)
    requires Inv(ledger)
    ensures Open(ledger, key, now, timeout, claimValid).Begun? <==> MayBegin(ledger, key, now, claimValid)
    ensures Open(ledger, key, now, timeout, claimValid) == Busy <==>
              key in ledger && ledger[key].status == InProgress && (claimValid || LatestLive(ledger[key], now))
    ensures Open(ledger, key, now, timeout, claimValid) == CapReached <==>
              key in ledger && ledger[key].status == Broken && key.node == Evaluate && MalformedCount(ledger[key].attempts) >= 2
    ensures Open(ledger, key, now, timeout, claimValid) != Corrupt
  {
    if key in ledger {
      assert Sound(key, ledger[key]);
      if ledger[key].status.InProgress? {
        CapNeverUndoesReclaim(ledger, key, now, timeout, claimValid);
      }
    }
  }

  /** A begin changes the ledger exactly when it may, and then adds one attempt for its key. */
  lemma BeginIff(ledger: Ledger, key: Key, now: int, timeout: nat, claimValid: bool)
    requires Inv(ledger)
    ensures var l := Apply(ledger, Begin(key, now, timeout, claimValid));
            if MayBegin(ledger, key, now, claimValid)
            then && key in l && l[key].status == InProgress && l[key].started == now
                 && |l[key].attempts| == (if key in ledger then |ledger[key].attempts| else 0) + 1
                 && l[key].attempts[|l[key].attempts| - 1] == Attempt(Started, now + timeout, now, None)
            else l == ledger
  {
    OpenIff(ledger, key, now, timeout, claimValid);
    if MayBegin(ledger, key, now, claimValid) {
      OpenSound(ledger, key, now, timeout, claimValid);
      if key in ledger && ledger[key].status.InProgress? {
        MarkStaleSound(key, ledger[key], claimValid, now);
      }
    }
  }

  /** A live attempt is not taken over: while the job's claim is valid or its deadline is to come, no begin changes the key. */
  lemma LiveAttemptStands(ledger: Ledger, key: Key, now: int, timeout: nat, claimValid: bool)
    requires Inv(ledger) && key in ledger && ledger[key].status == InProgress
    requires claimValid || LatestLive(ledger[key], now)
    ensures Apply(ledger, Begin(key, now, timeout, claimValid)) == ledger
  {
    BeginIff(ledger, key, now, timeout, claimValid);
  }

  /** The result of attempt `i` of the key. */
  predicate ResultOf(step: Step, key: Key, i: nat) {
    (step.Success? || step.Failure?) && step.key == key && step.i == i
  }

  /** Only the attempt that owns the key changes it, apart from begins. */
  lemma OthersKeepKey(ledger: Ledger, step: Step, key: Key, i: nat)
    requires Inv(ledger) && key in ledger && Latest(ledger[key], i) && !ResultOf(step, key, i)
    requires step.Begin? ==> step.key != key
    ensures key in Apply(ledger, step) && Apply(ledger, step)[key] == ledger[key]
  {
    if step.key == key {
      FencesAgree(ledger[key], step.i, "", Stale, step.at);
    }
  }

  /**
   An attempt keeps its key in every continuation whose begins of it all find the job's claim valid or the deadline still
   to come, until its own result arrives.
   */
  lemma {:induction false} AttemptKeepsKey(ledger: Ledger, steps: seq<Step>, key: Key, i: nat)
    requires Inv(ledger) && key in ledger && ledger[key].status == InProgress && Latest(ledger[key], i)
    requires forall k :: 0 <= k < |steps| ==>
               && !ResultOf(steps[k], key, i)
               && (steps[k].Begin? && steps[k].key == key ==> steps[k].claimValid || LatestLive(ledger[key], steps[k].now))
    ensures key in Run(ledger, steps) && Run(ledger, steps)[key] == ledger[key]
  {
    if steps != [] {
      var m := |steps| - 1;
      AttemptKeepsKey(ledger, steps[..m], key, i);
      RunKeepsInv(ledger, steps[..m]);
      var t := Run(ledger, steps[..m]);
      if steps[m].Begin? && steps[m].key == key {
        LiveAttemptStands(t, key, steps[m].now, steps[m].timeout, steps[m].claimValid);
      } else {
        OthersKeepKey(t, steps[m], key, i);
      }
    }
  }

  /** Taking over: with the claim gone and the deadline passed, the old attempt is marked stale and a new one started. */
  lemma TakeOver(ledger: Ledger, key: Key, now: int, timeout: nat, claimValid: bool)
    requires Inv(ledger) && key in ledger && ledger[key].status == InProgress
    requires !claimValid && !LatestLive(ledger[key], now)
    ensures var v := ledger[key];
            var l := Apply(ledger, Begin(key, now, timeout, claimValid));
            var m := |v.attempts| - 1;
            && v.attempts != [] && key in l && l[key].status == InProgress
            && l[key].attempts ==
               v.attempts[m := v.attempts[m].(status := Failed(Stale), finished := Some(now))] + [Attempt(Started, now + timeout, now, None)]
  {
    assert Sound(key, ledger[key]);
    OpenIff(ledger, key, now, timeout, claimValid);
    OpenSound(ledger, key, now, timeout, claimValid);
  }

  /** What an accepted result leaves: the attempt ended as it said, and the invocation with it. */
  lemma ResultWrites(ledger: Ledger, key: Key, i: nat, output: string, error: ErrorClass, at: int)
    requires Inv(ledger) && key in ledger && Latest(ledger[key], i) && ledger[key].status == InProgress && ledger[key].started <= at
    ensures var l := Apply(ledger, Success(key, i, output, at));
            key in l && l[key].status == Done && l[key].output == Some(output)
            && |l[key].attempts| == |ledger[key].attempts| && l[key].attempts[i].status == Succeeded
    ensures var l := Apply(ledger, Failure(key, i, error, at));
            && key in l && l[key].status == Broken && l[key].output == None
            && |l[key].attempts| == |ledger[key].attempts| && l[key].attempts[i].status == Failed(error)
            && MalformedCount(l[key].attempts) == MalformedCount(ledger[key].attempts) + One(error == Malformed)
  {
    var v := ledger[key];
    assert Sound(key, v);
    ResultRefusedIff(ledger, key, i, output, error, at);
    FencesAgree(v, i, output, error, at);
    MalformedLast(v.attempts, v.attempts[i].(status := Failed(error), finished := Some(at)));
  }
}
