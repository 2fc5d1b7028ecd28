/**
 The services that drive the job tables: idempotent submission, the review decision with its two
 transactions, and one worker round. Between any two transactions other callers may run any of theirs.
 */
module JobService {
  import opened Prelude
  import opened Events
  import opened Jobs
  import Lifecycle

  /** No step of this review call. */
  predicate OtherCall(step: Step, call: nat) {
    (step.ReviewRead? || step.ReviewWrite?) ==> step.call != call
  }

  ghost predicate AllOther(steps: seq<Step>, call: nat) {
    forall i :: 0 <= i < |steps| ==> OtherCall(steps[i], call)
  }

  /** The steps that are not of this review call. */
  function Foreign(steps: seq<Step>, call: nat): (r: seq<Step>)
    ensures AllOther(r, call)
  {
    if steps == [] then []
    else Foreign(steps[..|steps| - 1], call) + if OtherCall(steps[|steps| - 1], call) then [steps[|steps| - 1]] else []
  }

  lemma RunConcat(s: State, a: seq<Step>, b: seq<Step>)
    ensures Run(s, a + b) == Run(Run(s, a), b)
  {
    RunIsFold(s, a);
    RunIsFold(s, a + b);
    RunIsFold(Run(s, a), b);
    FoldConcat(Apply, s, a, b);
  }

  /** The database, shared with callers that act according to some schedule. */
  class Store {
    var st: State
    var schedule: seq<seq<Step>>
    ghost var history: seq<Step>

    ghost predicate Valid()
      reads this
    {
      st == Run(Init(), history)
    }

    constructor (others: seq<seq<Step>>)
      ensures Valid() && st == Init()
    {
      st, schedule, history := Init(), others, [];
    }

    lemma Sound()
      requires Valid()
      ensures Inv(st)
    {
      InitInv();
      RunKeepsInv(Init(), history);
    }

    /** One transaction. */
    method Take(step: Step)
      requires Valid()
      modifies this
      ensures Valid() && st == Apply(old(st), step)
      ensures history == old(history) + [step] && schedule == old(schedule)
    {
      st := Apply(st, step);
      history := history + [step];
      assert history[..|history| - 1] == old(history);
    }

    /** Transactions of other callers; a review call in progress is only its own. */
    method Interfere(call: nat) returns (ghost tail: seq<Step>)
      requires Valid()
      modifies this
      ensures Valid() && history == old(history) + tail && AllOther(tail, call)
      ensures st == Run(old(st), tail) && (old(schedule) == [] ==> tail == [])
    {
      tail := [];
      if schedule != [] {
        var steps := Foreign(schedule[0], call);
        schedule := schedule[1..];
        RunConcat(Init(), history, steps);
        st, history, tail := Run(st, steps), history + steps, steps;
      }
    }
  }

  /** Other calls leave a review in progress alone. */
  lemma {:induction false} ReviewStays(s: State, steps: seq<Step>, call: nat)
    requires call in s.reviews && AllOther(steps, call)
    ensures call in Run(s, steps).reviews && Run(s, steps).reviews[call] == s.reviews[call]
  {
    if steps != [] {
      ReviewStays(s, steps[..|steps| - 1], call);
    }
  }

  /** The entity's own method for a transition. */
  method CallEntity(job: Lifecycle.ResearchJob, t: Lifecycle.Transition) returns (ok: bool)
    modifies job
    ensures job.Snapshot() == Lifecycle.After(old(job.Snapshot()), t)
    ensures ok <==> Lifecycle.Step(old(job.Snapshot()), t).Ok?
  {
    var r;
    match t {
    case Start(w) => r := job.Start(w);
    case ResumeFromPending(w) => r := job.ResumeFromPending(w);
    case Complete(text, w) => r := job.Complete(text, w);
    case Fail(text, w) => r := job.Fail(text, w);
    case AwaitReview(w) => r := job.AwaitReview(w);
    case ReturnToPending(w) => r := job.ReturnToPending(w);
    case ApproveToPending(w) => r := job.ApproveToPending(w);
    case FailFromReview(text, w) => r := job.FailFromReview(text, w);
    }
    ok := r.Ok?;
  }

  /**
   How every repository method changes a job: rebuild the entity from the row, let it make the transition, and copy it
   back. Rebuilding never fails for a row of the table, and the row moves as the job tables say.
   */
  method MoveRow(r: Row, t: Lifecycle.Transition) returns (moved: Option<Row>)
    requires Lifecycle.Wf(r.job)
    ensures moved == if Lifecycle.Step(r.job, t).Ok? then Some(r.(job := Lifecycle.After(r.job, t))) else None
  {
    Lifecycle.ReconstituteIff(r.job);
    var loaded := Lifecycle.Reconstitute(Lifecycle.ToColumns(r.job));
    var entity := new Lifecycle.ResearchJob(loaded.value);
    var ok := CallEntity(entity, t);
    moved := if ok then Some(r.(job := entity.Snapshot())) else None;
  }

  datatype Submitted =
    | Invalid(error: Lifecycle.Error)
    | Accepted(job: nat)
    | Repeated(job: nat)
    | KeyConflict
    | Raised

  /** Job id, key and event id are all new. */
  ghost predicate NewSubmission(s: State, job: nat, key: string, event: nat) {
    job !in s.jobs && !KeyUsed(s, key) && Fits(key) && !EventIdUsed(s.outbox, event)
  }

  /** The job is there under its key, and its created event is the last one. */
  ghost predicate Inserted(s: State, job: nat, key: string, event: nat) {
    && job in s.jobs && s.jobs[job].key == key
    && s.outbox != [] && s.outbox[|s.outbox| - 1] == Event(event, job, Created)
  }

  /** No job and no key ever disappears. */
  lemma JobsStay(s: State, steps: seq<Step>, key: string)
    ensures s.jobs.Keys <= Run(s, steps).jobs.Keys
    ensures KeyUsed(s, key) ==> KeyUsed(Run(s, steps), key)
  {
    forall j | j in s.jobs ensures j in Run(s, steps).jobs && Run(s, steps).jobs[j].key == s.jobs[j].key {
      KeyForever(s, steps, j);
    }
  }

  class ResearchJobService {
    const store: Store

    constructor (store: Store)
      ensures this.store == store
    {
      this.store := store;
    }

    /**
     `submit`: a new job with its created event in one transaction, or the job the key already belongs to
     if the question is the same, or a conflict exactly if it is another one.
     */
    method Submit(job: nat, name: string, question: string, key: string, w: Lifecycle.When, event: nat)
      returns (r: Submitted)
      requires store.Valid()
      modifies store
      ensures store.Valid() && old(store.history) <= store.history
      ensures r.Invalid? <==> Lifecycle.Create(name, question, w).Err?
      ensures r.Accepted? ==> r.job == job && Inserted(store.st, job, key, event)
      ensures old(store.schedule) == [] && !r.Invalid? && NewSubmission(old(store.st), job, key, event) ==> r == Accepted(job)
      ensures r.Repeated? ==> r.job in store.st.jobs && store.st.jobs[r.job].key == key
                              && store.st.jobs[r.job].job.question == Lifecycle.Strip(question)
      ensures r.KeyConflict? ==> exists j :: j in store.st.jobs && store.st.jobs[j].key == key
                                             && store.st.jobs[j].job.question != Lifecycle.Strip(question)
      ensures KeyUsed(old(store.st), key) && !r.Invalid? && job !in store.st.jobs ==> r.Repeated? || r.KeyConflict?
    {
      var made := Lifecycle.Create(name, question, w);
      if made.Err? { return Invalid(made.error); }
      ghost var tail := store.Interfere(0);
      JobsStay(old(store.st), tail, key);
      store.Sound();
      if job in store.st.jobs { return Raised; }
      if KeyUsed(store.st, key) {
        r := ReplayOrConflict(Lifecycle.Strip(question), key);
      } else {
        r := InsertNew(job, name, question, key, w, event);
      }
    }

    /** The insert of a job and its created event under a new id and key: both, or neither if a constraint refuses. */
    method InsertNew(job: nat, name: string, question: string, key: string, w: Lifecycle.When, event: nat) returns (r: Submitted)
      requires store.Valid() && Lifecycle.Create(name, question, w).Ok? && job !in store.st.jobs && !KeyUsed(store.st, key)
      modifies store
      ensures store.Valid() && old(store.history) <= store.history
      ensures r == (if Fits(key) && !EventIdUsed(old(store.st).outbox, event) then Accepted(job) else Raised)
      ensures r.Raised? ==> store.st == old(store.st)
      ensures r.Accepted? ==> Inserted(store.st, job, key, event)
    {
      var before := |store.st.outbox|;
      var step := Step.Submit(job, name, question, key, w, event);
      store.Sound();
      SubmitEffect(store.st, step);
      store.Take(step);
      return if before < |store.st.outbox| then Accepted(job) else Raised;
    }

    /** `_replay_or_conflict`: the key's row is still there whatever happened in between. */
    method ReplayOrConflict(question: string, key: string) returns (r: Submitted)
      requires store.Valid() && KeyUsed(store.st, key)
      modifies store
      ensures store.Valid() && old(store.history) <= store.history
      ensures (r.Repeated? || r.KeyConflict?) && old(store.st).jobs.Keys <= store.st.jobs.Keys
      ensures r.Repeated? ==> r.job in store.st.jobs && store.st.jobs[r.job].key == key
                              && store.st.jobs[r.job].job.question == question
      ensures r.KeyConflict? ==> exists j :: j in store.st.jobs && store.st.jobs[j].key == key
                                             && store.st.jobs[j].job.question != question
    {
      ghost var tail := store.Interfere(0);
      JobsStay(old(store.st), tail, key);
      var j :| j in store.st.jobs && store.st.jobs[j].key == key;
      r := if store.st.jobs[j].job.question == question then Repeated(j) else KeyConflict;
    }
  }

  /**
   The job awaits review on its own running execution, no decision has the key, key and actor fit their columns, and the
   clock is behind neither the job nor, for a rejection, the execution.
   */
  ghost predicate Decidable(s: State, job: nat, key: string, request: Request, at: int) {
    && job in s.jobs && s.jobs[job].job.status.AwaitingReview? && s.jobs[job].active.Some?
    && var x := s.jobs[job].active.value;
       && x in s.execs && s.execs[x].job == job && s.execs[x].status.ExecRunning?
       && (forall i :: 0 <= i < |s.decisions| ==> !(s.decisions[i].job == job && s.decisions[i].key == key))
       && Fits(key) && Fits(request.actor) && s.jobs[job].job.updated <= at
       && (request.ruling.Reject? ==> s.execs[x].started <= at)
  }

  /** The decision of this call can be written. */
  ghost predicate Pending(s: State, call: nat, at: int) {
    && call in s.reviews
    && var v := s.reviews[call];
       && InReview(s, v.job) && s.jobs[v.job].active == Some(v.exec) && v.exec in s.execs
       && Find(s.decisions, v.job, v.key).None? && at >= s.jobs[v.job].job.updated
       && Fits(v.key) && Fits(v.request.actor)
       && (v.request.ruling.Reject? ==> s.execs[v.exec].status.ExecRunning? && s.execs[v.exec].started <= at)
  }

  lemma PendingIffDecidable(s: State, call: nat, job: nat, key: string, request: Request, at: int)
    requires call in s.reviews && ReadyForReview(s, job, key)
    requires s.reviews[call] == Review(job, s.jobs[job].active.value, key, request)
    ensures Pending(s, call, at) <==> Decidable(s, job, key, request, at)
  {
    FindIff(s.decisions, job, key);
  }

  /** The last decision is this one, and its job is out of review. */
  ghost predicate WroteLast(s: State, id: nat, job: nat, key: string, request: Request) {
    && s.decisions != [] && !InReview(s, job)
    && exists x :: s.decisions[|s.decisions| - 1] == Decision(id, job, x, key, request)
  }

  /** The decision recorded for the key has this id and answers this request. */
  ghost predicate FirstAnswer(s: State, job: nat, key: string, request: Request, id: nat) {
    && Find(s.decisions, job, key).Some?
    && Find(s.decisions, job, key).value.id == id && Find(s.decisions, job, key).value.request == request
  }

  lemma NotDecidable(s: State, job: nat, key: string, request: Request, at: int)
    ensures !ReadyForReview(s, job, key) ==> !Decidable(s, job, key, request, at)
  {
    if Decidable(s, job, key, request, at) {
      DecidableIsReady(s, job, key, request, at);
    }
  }

  lemma NotPending(s: State, call: nat, at: int)
    requires call in s.reviews
    ensures var v := s.reviews[call];
            !(v.job in s.jobs && Find(s.decisions, v.job, v.key).None? && InReview(s, v.job)) ==> !Pending(s, call, at)
  {
  }

  lemma DecidableIsReady(s: State, job: nat, key: string, request: Request, at: int)
    requires Decidable(s, job, key, request, at)
    ensures ReadyForReview(s, job, key)
  {
    FindIff(s.decisions, job, key);
  }

  class ReviewService {
    const store: Store

    constructor (store: Store)
      ensures this.store == store
    {
      this.store := store;
    }

    /** The lookup both transactions begin with; `None` when the key is new and the job awaits review. */
    method Look(job: nat, key: string, request: Request) returns (r: Option<Reply>)
      ensures r.None? <==> job in store.st.jobs && Find(store.st.decisions, job, key).None? && InReview(store.st, job)
      ensures r.Some? ==> !r.value.Recorded? && (r.value == NoJob <==> job !in store.st.jobs)
      ensures job in store.st.jobs && Find(store.st.decisions, job, key).Some? ==>
                r == Some(Replay(Find(store.st.decisions, job, key).value, request))
      ensures r.Some? && r.value.Replayed? ==> FirstAnswer(store.st, job, key, request, r.value.id)
    {
      if job !in store.st.jobs { return Some(NoJob); }
      var d := Find(store.st.decisions, job, key);
      if d.Some? { return Some(Replay(d.value, request)); }
      if !store.st.jobs[job].job.status.AwaitingReview? { return Some(NotReady); }
      return None;
    }

    /**
     `submit_decision`. A recorded decision is the new last one and took the job out of review; a key that has a
     decision is always answered with the id first recorded for it, or a conflict if the request is another one.
     */
    method SubmitDecision(call: nat, job: nat, key: string, request: Request, id: nat, failedRun: bool, resumable: bool, at: int)
      returns (r: Reply)
      requires store.Valid()
      modifies store
      ensures store.Valid() && old(store.history) <= store.history
      ensures r.Recorded? ==> r.id == id && WroteLast(store.st, id, job, key, request)
      ensures job in old(store.st).jobs && Find(old(store.st).decisions, job, key).Some? ==>
                var d := Find(old(store.st).decisions, job, key).value;
                r == if d.request == request then Replayed(d.id) else Conflict
      ensures r == NoJob <==> job !in old(store.st).jobs
      ensures old(store.schedule) == [] ==>
                (r == Recorded(id) <==> failedRun && resumable && Decidable(old(store.st), job, key, request, at))
      ensures r.Replayed? ==> FirstAnswer(store.st, job, key, request, r.id)
    {
      var first := Look(job, key, request);
      if first.Some? {
        NotDecidable(store.st, job, key, request, at);
        return first.value;
      }
      r := Decide(call, job, key, request, id, failedRun, resumable, at);
    }

    /** The rest of the call once its first lookup found a job in review and no decision. */
    method Decide(call: nat, job: nat, key: string, request: Request, id: nat, failedRun: bool, resumable: bool, at: int)
      returns (r: Reply)
      requires store.Valid() && job in store.st.jobs && Find(store.st.decisions, job, key).None?
      modifies store
      ensures store.Valid() && old(store.history) <= store.history && r != NoJob
      ensures r.Recorded? ==> r.id == id && WroteLast(store.st, id, job, key, request)
      ensures old(store.schedule) == [] ==>
                (r.Recorded? <==> failedRun && resumable && Decidable(old(store.st), job, key, request, at))
      ensures r.Replayed? ==> FirstAnswer(store.st, job, key, request, r.id)
    {
      if !failedRun || !ReadyForReview(store.st, job, key) {
        NotDecidable(store.st, job, key, request, at);
        return NotReady;
      }
      Remember(call, job, key, request, at);
      if !resumable { return NotReady; }
      var second := Look(job, key, request);
      if second.Some? {
        NotPending(store.st, call, at);
        return second.value;
      }
      r := Write(call, job, key, request, id, at);
    }

    /** The call's own memory of its first transaction survives whatever others do before the second. */
    method Remember(call: nat, job: nat, key: string, request: Request, ghost at: int)
      requires store.Valid() && ReadyForReview(store.st, job, key)
      modifies store
      ensures store.Valid() && old(store.history) <= store.history
      ensures call in store.st.reviews
      ensures store.st.reviews[call] == Review(job, old(store.st).jobs[job].active.value, key, request)
      ensures job in store.st.jobs
      ensures old(store.schedule) == [] ==> (Pending(store.st, call, at) <==> Decidable(old(store.st), job, key, request, at))
    {
      store.Take(ReviewRead(call, job, key, request, true));
      ghost var s1 := store.st;
      PendingIffDecidable(s1, call, job, key, request, at);
      ghost var tail := store.Interfere(call);
      ReviewStays(s1, tail, call);
      JobsStay(s1, tail, key);
    }

    /** The writing transaction. */
    method Write(call: nat, job: nat, key: string, request: Request, id: nat, at: int) returns (r: Reply)
      requires store.Valid() && call in store.st.reviews
      requires var v := store.st.reviews[call]; v.job == job && v.key == key && v.request == request
      modifies store
      ensures store.Valid() && old(store.history) <= store.history
      ensures r.Recorded? || r.NotReady? || r.Conflict?
      ensures store.st == Apply(old(store.st), ReviewWrite(call, id, at))
      ensures r.Recorded? <==> store.st.decisions != old(store.st.decisions)
      ensures Pending(old(store.st), call, at) <==> r.Recorded?
      ensures r.Recorded? ==> r.id == id && WroteLast(store.st, id, job, key, request)
    {
      var v := store.st.reviews[call];
      if job !in store.st.jobs || store.st.jobs[job].active != Some(v.exec) { return NotReady; }
      var before := |store.st.decisions|;
      ghost var s := store.st;
      store.Sound();
      DecisionRecordedIff(s, call, id, at);
      DecisionIsExit(s, ReviewWrite(call, id, at));
      store.Take(ReviewWrite(call, id, at));
      if |store.st.decisions| == before { return Conflict; }
      assert store.st.decisions[before] == Decision(id, job, v.exec, key, request);
      return Recorded(id);
    }
  }

  /** How the processor call ends, as the worker sees it. */
  datatype Processing =
    | Finished(text: string)
    | TerminalFailed(code: string)
    | Deferred
    | Unrecognized
    | TimedOut
    | OwnershipLost
    | ProfileMismatch
    | Threw(name: string)

  /** The failure reason recorded for an outcome, if the worker records one. */
  function FailureReason(p: Processing): Option<string> {
    match p
    case TerminalFailed(code) => Some("Terminal: " + code)
    case Unrecognized => Some("Processing returned unrecognized outcome")
    case TimedOut => Some("Processing timed out.")
    case OwnershipLost => Some("Claim ownership lost during processing.")
    case Threw(name) => Some("Processing failed: " + name)
    case _ => None
  }

  /** The outcome leaves something to record: every one but a deferral and a profile mismatch, and no blank result. */
  ghost predicate Recordable(p: Processing) {
    && !p.Deferred? && !p.ProfileMismatch?
    && (p.Finished? ==> HasText(p.text))
  }

  lemma ReasonNotBlank(p: Processing)
    ensures FailureReason(p).Some? <==> !p.Finished? && !p.Deferred? && !p.ProfileMismatch?
    ensures FailureReason(p).Some? ==> HasText(FailureReason(p).value)
  {
    var r := FailureReason(p);
    if r.Some? {
      assert r.value[0] == 'T' || r.value[0] == 'P' || r.value[0] == 'C';
    }
  }

  /** The stored text is what the outcome says. */
  ghost predicate Stored(t: State, job: nat, p: Processing) {
    && job in t.jobs && Ended(t.jobs[job])
    && (if p.Finished? then t.jobs[job].job.result == Some(Lifecycle.Strip(p.text))
        else FailureReason(p).Some? && t.jobs[job].job.failure == Some(Lifecycle.Strip(FailureReason(p).value)))
  }

  lemma FinalizeOutcome(s: State, job: nat, token: nat, p: Processing, at: int, event: nat, step: Step)
    requires Inv(s) && (p.Finished? || FailureReason(p).Some?)
    requires step == if p.Finished? then Complete(job, token, p.text, at, event) else Fail(job, token, FailureReason(p).value, at, event)
    ensures Apply(s, step) != s <==> CanFinalize(s, job, token, at, event) && Recordable(p)
    ensures Apply(s, step) != s ==>
              && Apply(s, step).outbox == s.outbox + [Event(event, job, if p.Finished? then Completed else Failed)]
              && Stored(Apply(s, step), job, p)
  {
    ReasonNotBlank(p);
    FinalizeEffect(s, job, p, event, step);
    FinalizeSucceedsIff(s, step);
  }

  lemma FinalizeEffect(s: State, job: nat, p: Processing, event: nat, step: Step)
    requires if p.Finished? then step.Complete? && step.text == p.text
             else FailureReason(p).Some? && step.Fail? && step.text == FailureReason(p).value
    requires step.job == job && step.event == event
    ensures Apply(s, step) != s ==>
              && Apply(s, step).outbox == s.outbox + [Event(event, job, if p.Finished? then Completed else Failed)]
              && Stored(Apply(s, step), job, p)
  {
    FinalizeIsAtomic(s, step);
  }

  /** Finalization comes before the lease runs out, with no clock behind the job's, under a new event id. */
  ghost predicate Undisturbed(s: State, job: nat, now: int, lease: int, at: int, event: nat) {
    && job in s.jobs && s.jobs[job].job.updated <= at && now <= at && at < lease
    && forall i :: 0 <= i < |s.outbox| ==> s.outbox[i].id != event
  }

  class Worker {
    const store: Store
    const leaseSeconds: int
    var shutdown: bool
    var abandoned: bool // a processor that timed out may still be running

    constructor (store: Store, leaseSeconds: int)
      requires leaseSeconds > 0
      ensures this.store == store && this.leaseSeconds == leaseSeconds && !shutdown && !abandoned
    {
      this.store, this.leaseSeconds, shutdown, abandoned := store, leaseSeconds, false, false;
    }

    function LeaseEnd(now: int): int {
      now + leaseSeconds
    }

    /**
     `run_once`: claim at most one job, process it, and finalize under the claim fence. It claims exactly if it is neither
     shutting down nor still running an abandoned processor, and the job may be claimed. The terminal transition and
     its event are one transaction; a worker that no longer owns the claim changes nothing.
     */
    method RunOnce(stillRunning: bool, job: nat, token: nat, now: int, p: Processing, at: int, event: nat)
      returns (claimed: bool, finalized: bool)
      requires store.Valid() && leaseSeconds > 0
      modifies store, this`abandoned
      ensures store.Valid() && old(store.history) <= store.history
      ensures claimed <==> !old(shutdown || (abandoned && stillRunning)) && job in old(store.st).jobs
                           && MayClaim(old(store.st).jobs[job], now)
      ensures !claimed ==> store.st == old(store.st)
      ensures finalized ==> claimed && Recordable(p) && job in store.st.jobs && Ended(store.st.jobs[job])
      ensures finalized ==> store.st.outbox != [] && store.st.outbox[|store.st.outbox| - 1] ==
                            Event(event, job, if p.Finished? then Completed else Failed)
      ensures old(store.schedule) == [] && claimed && Undisturbed(old(store.st), job, now, LeaseEnd(now), at, event) ==>
                (finalized <==> Recordable(p))
      ensures claimed ==> abandoned == p.TimedOut?
    {
      claimed, finalized := false, false;
      if shutdown || (abandoned && stillRunning) { return; }
      abandoned := false;
      claimed := ClaimNext(job, token, now, LeaseEnd(now), at, event);
      if !claimed { return; }
      abandoned := p.TimedOut?;
      ghost var tail := store.Interfere(0);
      finalized := Finalize(job, token, p, at, event);
    }

    /** `_claim_next`, when the query picks this job. */
    method ClaimNext(job: nat, token: nat, now: int, lease: int, ghost at: int, ghost event: nat) returns (claimed: bool)
      requires store.Valid() && lease > now
      modifies store
      ensures store.Valid() && old(store.history) <= store.history && store.schedule == old(store.schedule)
      ensures claimed <==> job in old(store.st).jobs && MayClaim(old(store.st).jobs[job], now)
      ensures claimed ==> job in store.st.jobs && OwnedBy(store.st.jobs[job], token, lease)
      ensures !claimed ==> store.st == old(store.st)
      ensures claimed && Undisturbed(old(store.st), job, now, lease, at, event) ==>
                CanFinalize(store.st, job, token, at, event)
    {
      if job !in store.st.jobs { return false; }
      var row := store.st.jobs[job];
      ghost var s := store.st;
      store.Sound();
      if MayClaim(row, now) {
        ClaimGranted(s, job, token, now, lease);
      } else {
        ClaimRefused(s, job, token, now, lease);
      }
      store.Take(Claim(job, token, now, lease));
      claimed := store.st.jobs[job] != row;
    }

    /** `_handle_outcome`, `_finalize_completion`, `_finalize_failure` */
    method Finalize(job: nat, token: nat, p: Processing, at: int, event: nat) returns (done: bool)
      requires store.Valid()
      modifies store
      ensures store.Valid() && old(store.history) <= store.history
      ensures done <==> CanFinalize(old(store.st), job, token, at, event) && Recordable(p)
      ensures !done ==> store.st == old(store.st)
      ensures done ==> store.st.outbox == old(store.st.outbox) + [Event(event, job, if p.Finished? then Completed else Failed)]
      ensures done ==> Stored(store.st, job, p)
    {
      var reason := FailureReason(p);
      ReasonNotBlank(p);
      if !p.Finished? && reason.None? { return false; }
      var before := |store.st.outbox|;
      var step := if p.Finished? then Complete(job, token, p.text, at, event) else Fail(job, token, reason.value, at, event);
      store.Sound();
      FinalizeOutcome(store.st, job, token, p, at, event, step);
      store.Take(step);
      done := before < |store.st.outbox|;
    }
  }
}
