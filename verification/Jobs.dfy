/**
 Research jobs as many concurrent callers change them: idempotent submission, fenced claims, the worker's
 finalization with its outbox event in the same transaction, retries, and the two-transaction review
 decision. Every step is one transaction: it commits as a whole, or rolls back and leaves no trace.
 Tokens, clock readings and new ids are step parameters without constraint.
 */
module Jobs {
  import opened Prelude
  import opened Events
  import Lifecycle

  datatype Mode = NoMode | JobRetry | ReviewComplete

  datatype Row = Row(
    job: Lifecycle.Job, key: string, token: Option<nat>, lease: Option<int>, next: Option<int>,
    mode: Mode, claimed: Mode, active: Option<nat>, retries: nat)

  datatype ExecStatus = ExecRunning | ExecCompleted | ExecFailed | ExecAbandoned

  /** One workflow execution of a job. */
  datatype Exec = Exec(job: nat, status: ExecStatus, started: int, finished: Option<int>)

  datatype Ruling = Approve | Reject

  /** What the request fingerprint covers. */
  datatype Request = Request(ruling: Ruling, actor: string, run: Option<nat>)

  datatype Decision = Decision(id: nat, job: nat, exec: nat, key: string, request: Request)

  /** A review call between its two transactions. */
  datatype Review = Review(job: nat, exec: nat, key: string, request: Request)

  datatype State = State(
    jobs: map<nat, Row>, execs: map<nat, Exec>, decisions: seq<Decision>, outbox: seq<Event>,
    reviews: map<nat, Review>)

  datatype Step =
    | Submit(job: nat, name: string, question: string, key: string, w: Lifecycle.When, event: nat)
    | Claim(job: nat, token: nat, now: int, lease: int)
    | Bind(job: nat, token: nat, exec: nat, at: int)
    | FinishExec(job: nat, token: nat, exec: nat, status: ExecStatus, at: int)
    | Complete(job: nat, token: nat, text: string, at: int, event: nat)
    | Fail(job: nat, token: nat, text: string, at: int, event: nat)
    | ScheduleRetry(job: nat, token: nat, next: int, abandon: Option<nat>, at: int, event: nat)
    | Pause(job: nat, token: nat, at: int, event: nat)
    | ReviewRead(call: nat, job: nat, key: string, request: Request, failedRun: bool)
    | ReviewWrite(call: nat, id: nat, at: int)

  function Init(): State {
    State(map[], map[], [], [], map[])
  }

  // ---------- Guards and row updates ----------

  predicate Ended(r: Row) {
    r.job.status.Completed? || r.job.status.Failed?
  }

  /** `_owns_running_claim` */
  predicate Owns(s: State, j: nat, token: nat, at: int) {
    && j in s.jobs && s.jobs[j].job.status.Running? && s.jobs[j].token == Some(token)
    && s.jobs[j].lease.Some? && s.jobs[j].lease.value > at
  }

  /** The `WHERE` clause of `claim_next`. */
  predicate Claimable(r: Row, now: int) {
    || (r.job.status.Pending? && (r.next.None? || r.next.value <= now))
    || (r.job.status.Running? && r.lease.Some? && r.lease.value < now)
  }

  predicate KeyUsed(s: State, key: string) {
    exists j :: j in s.jobs && s.jobs[j].key == key
  }

  function NewRow(job: Lifecycle.Job, key: string): Row {
    Row(job, key, None, None, None, NoMode, NoMode, None, 0)
  }

  /** `_clear_claim_and_continuation` */
  function Cleared(r: Row): Row {
    r.(token := None, lease := None, next := None, mode := NoMode, claimed := NoMode, active := None)
  }

  function Begin(r: Row, now: int): Lifecycle.Transition {
    if r.job.started.None? then Lifecycle.Start(Lifecycle.Exactly(now))
    else Lifecycle.ResumeFromPending(Lifecycle.Exactly(now))
  }

  function ClaimedRow(r: Row, token: nat, now: int, lease: int): Row {
    if r.job.status.Pending? then
      r.(job := Lifecycle.After(r.job, Begin(r, now)), token := Some(token), lease := Some(lease),
         next := None, claimed := r.mode, mode := NoMode)
    else r.(token := Some(token), lease := Some(lease))
  }

  function Closed(e: Exec, status: ExecStatus, at: int): Exec {
    e.(status := status, finished := Some(at))
  }

  /** `abandon_unfinished_for_job` */
  function Abandoned(execs: map<nat, Exec>, j: nat, at: int): map<nat, Exec> {
    map x | x in execs ::
      if execs[x].job == j && execs[x].status.ExecRunning? then Closed(execs[x], ExecAbandoned, at) else execs[x]
  }

  predicate RunningExec(s: State, x: nat, j: nat) {
    x in s.execs && s.execs[x].job == j && s.execs[x].status.ExecRunning?
  }

  // ---------- Constraints ----------

  predicate Ordered(r: Row) {
    r.job.started.Some? && r.job.created <= r.job.started.value && r.job.started.value <= r.job.updated
  }

  predicate NoClaim(r: Row) {
    r.token.None? && r.lease.None? && r.claimed == NoMode
  }

  predicate Unfinished(r: Row) {
    r.job.finished.None? && r.job.result.None? && r.job.failure.None?
  }

  predicate Finished(r: Row) {
    && Ordered(r) && r.job.finished.Some?
    && r.job.started.value <= r.job.finished.value && r.job.finished.value <= r.job.updated
    && NoClaim(r) && r.next.None? && r.mode == NoMode && r.active.None?
  }

  /** The CHECK constraints on status fields and on the retry counter. */
  predicate Check(r: Row) {
    && r.retries <= 2
    && match r.job.status
       case Pending =>
         && Unfinished(r) && NoClaim(r)
         && (|| (r.job.started.None? && r.next.None? && r.mode == NoMode && r.active.None?)
             || (Ordered(r) && r.next.Some? && r.mode == JobRetry && r.active.None?)
             || (Ordered(r) && r.next.Some? && r.mode == ReviewComplete && r.active.Some?))
       case Running =>
         && Unfinished(r) && Ordered(r) && r.next.None? && r.mode == NoMode
         && (r.claimed == ReviewComplete ==> r.active.Some?)
       case AwaitingReview =>
         Unfinished(r) && Ordered(r) && NoClaim(r) && r.next.None? && r.mode == NoMode && r.active.Some?
       case Completed => Finished(r) && r.job.result.Some? && r.job.failure.None?
       case Failed => Finished(r) && r.job.failure.Some? && r.job.result.None?
  }

  /** The CHECK on an execution row. */
  predicate ExecCheck(e: Exec) {
    if e.status.ExecRunning? then e.finished.None? else e.finished.Some? && e.finished.value >= e.started
  }

  predicate ExecsOk(execs: map<nat, Exec>) {
    forall x :: x in execs ==> ExecCheck(execs[x])
  }

  /** What a key or actor column holds: at most 128 characters, not all of them spaces. */
  predicate Fits(text: string) {
    |text| <= 128 && exists i :: 0 <= i < |text| && text[i] != ' '
  }

  /** The CHECKs on a new decision row. */
  predicate DecisionsFit(before: seq<Decision>, after: seq<Decision>) {
    after == before || (after != [] && Fits(after[|after| - 1].key) && Fits(after[|after| - 1].request.actor))
  }

  // ---------- Transactions ----------

  /** What a transaction is about to flush: one job row, at most one event, executions, decisions. */
  datatype Change = Change(job: nat, row: Row, event: Option<Event>, execs: map<nat, Exec>, decisions: seq<Decision>)

  function Moving(s: State, j: nat, t: Lifecycle.Transition, row: Row, e: nat, k: Kind): Option<Change>
    requires j in s.jobs
  {
    if Lifecycle.Step(s.jobs[j].job, t).Err? then None
    else Some(Change(j, row.(job := Lifecycle.After(s.jobs[j].job, t)), Some(Event(e, j, k)), s.execs, s.decisions))
  }

  function Find(ds: seq<Decision>, j: nat, key: string): Option<Decision> {
    if ds == [] then None
    else if Find(ds[..|ds| - 1], j, key).Some? then Find(ds[..|ds| - 1], j, key)
    else
      var d := ds[|ds| - 1];
      if d.job == j && d.key == key then Some(d) else None
  }

  /** The second review transaction, once no earlier decision answers the key. */
  function Ruled(s: State, v: Review, id: nat, at: int): Option<Change>
    requires v.job in s.jobs && v.exec in s.execs
  {
    var r := s.jobs[v.job];
    var when := Lifecycle.Exactly(at);
    var ds := s.decisions + [Decision(id, v.job, v.exec, v.key, v.request)];
    match v.request.ruling
    case Approve =>
      var t := Lifecycle.ApproveToPending(when);
      if Lifecycle.Step(r.job, t).Err? then None
      else Some(Change(v.job, r.(job := Lifecycle.After(r.job, t), mode := ReviewComplete, next := Some(at),
                                 active := Some(v.exec)), None, s.execs, ds))
    case Reject =>
      var t := Lifecycle.FailFromReview("Rejected by operator review", when);
      if !s.execs[v.exec].status.ExecRunning? || Lifecycle.Step(r.job, t).Err? then None
      else Some(Change(v.job, Cleared(r).(job := Lifecycle.After(r.job, t)), None,
                       s.execs[v.exec := Closed(s.execs[v.exec], ExecFailed, at)], ds))
  }

  function Plan(s: State, step: Step): Option<Change> {
    match step
    case Submit(j, id, question, key, w, e) =>
      var c := Lifecycle.Create(id, question, w);
      if c.Err? || j in s.jobs || KeyUsed(s, key) then None
      else Some(Change(j, NewRow(c.value, key), Some(Event(e, j, Created)), s.execs, s.decisions))
    case Claim(j, token, now, lease) =>
      if j !in s.jobs || !Claimable(s.jobs[j], now) then None
      else if s.jobs[j].job.status.Pending? && Lifecycle.Step(s.jobs[j].job, Begin(s.jobs[j], now)).Err? then None
      else Some(Change(j, ClaimedRow(s.jobs[j], token, now, lease), None, s.execs, s.decisions))
    case Bind(j, token, x, at) =>
      if !Owns(s, j, token, at) || x in s.execs then None
      else Some(Change(j, s.jobs[j].(active := Some(x)), None,
                       Abandoned(s.execs, j, at)[x := Exec(j, ExecRunning, at, None)], s.decisions))
    case FinishExec(j, token, x, status, at) =>
      if !Owns(s, j, token, at) || s.jobs[j].active != Some(x) || !RunningExec(s, x, j) || status.ExecRunning? then None
      else Some(Change(j, s.jobs[j], None, s.execs[x := Closed(s.execs[x], status, at)], s.decisions))
    case Complete(j, token, text, at, e) =>
      if !Owns(s, j, token, at) then None
      else Moving(s, j, Lifecycle.Complete(text, Lifecycle.Exactly(at)), Cleared(s.jobs[j]), e, Completed)
    case Fail(j, token, text, at, e) =>
      if !Owns(s, j, token, at) then None
      else Moving(s, j, Lifecycle.Fail(text, Lifecycle.Exactly(at)), Cleared(s.jobs[j]), e, Failed)
    case ScheduleRetry(j, token, next, abandon, at, e) =>
      if !Owns(s, j, token, at) then None
      else if abandon.Some? && (s.jobs[j].active != abandon || !RunningExec(s, abandon.value, j)) then None
      else
        var r := Cleared(s.jobs[j]).(mode := JobRetry, next := Some(next), retries := s.jobs[j].retries + 1);
        var c := Moving(s, j, Lifecycle.ReturnToPending(Lifecycle.Exactly(at)), r, e, RetryScheduled);
        if c.Some? && abandon.Some?
        then Some(c.value.(execs := s.execs[abandon.value := Closed(s.execs[abandon.value], ExecAbandoned, at)])) else c
    case Pause(j, token, at, e) =>
      if !Owns(s, j, token, at) then None
      else
        var r := s.jobs[j].(token := None, lease := None, claimed := NoMode);
        Moving(s, j, Lifecycle.AwaitReview(Lifecycle.Exactly(at)), r, e, AwaitingReview)
    case ReviewRead(_, _, _, _, _) => None
    case ReviewWrite(call, id, at) =>
      if call !in s.reviews then None
      else
        var v := s.reviews[call];
        if v.job !in s.jobs || Find(s.decisions, v.job, v.key).Some? then None
        else if !s.jobs[v.job].job.status.AwaitingReview? || s.jobs[v.job].active != Some(v.exec) || v.exec !in s.execs then None
        else Ruled(s, v, id, at)
  }

  /** The first review transaction finds the job ready for a decision. */
  predicate ReadyForReview(s: State, j: nat, key: string) {
    && j in s.jobs && Find(s.decisions, j, key).None? && s.jobs[j].job.status.AwaitingReview?
    && s.jobs[j].active.Some? && RunningExec(s, s.jobs[j].active.value, j)
  }

  predicate EventIdUsed(es: seq<Event>, id: nat) {
    exists i :: 0 <= i < |es| && es[i].id == id
  }

  /** The CHECKs the flush must meet, on the job row, its key, the executions and a new decision. */
  predicate MeetsChecks(s: State, c: Change) {
    Check(c.row) && Fits(c.row.key) && ExecsOk(c.execs) && DecisionsFit(s.decisions, c.decisions)
  }

  /** Every constraint the flush must meet: the CHECKs and the event's primary key. */
  predicate Accepted(s: State, c: Change) {
    MeetsChecks(s, c) && (c.event.Some? ==> !EventIdUsed(s.outbox, c.event.value.id))
  }

  function Commit(s: State, c: Change): State {
    s.(jobs := s.jobs[c.job := c.row], execs := c.execs, decisions := c.decisions,
       outbox := if c.event.Some? then s.outbox + [c.event.value] else s.outbox)
  }

  function Apply(s: State, step: Step): State {
    match step
    case ReviewRead(call, j, key, request, failedRun) =>
      if ReadyForReview(s, j, key) && failedRun
      then s.(reviews := s.reviews[call := Review(j, s.jobs[j].active.value, key, request)]) else s
    case _ =>
      if Plan(s, step).Some? && Accepted(s, Plan(s, step).value) then Commit(s, Plan(s, step).value) else s
  }

  function Run(s: State, steps: seq<Step>): State {
    if steps == [] then s else Apply(Run(s, steps[..|steps| - 1]), steps[|steps| - 1])
  }

  lemma {:induction false} RunIsFold(s: State, steps: seq<Step>)
    ensures Run(s, steps) == Fold(Apply, s, steps)
  {
    if steps != [] {
      RunIsFold(s, steps[..|steps| - 1]);
    }
  }

  // ---------- What a transaction does to its job ----------

  /** The row before the transaction, if there was one. */
  function Before(s: State, j: nat): Option<Row> {
    if j in s.jobs then Some(s.jobs[j]) else None
  }

  ghost predicate InReview(s: State, j: nat) {
    j in s.jobs && s.jobs[j].job.status.AwaitingReview?
  }

  /**
   How status, event, retry counter and decision of one transaction hang together: the lifecycle edges the
   store can take, and what each one writes.
   */
  ghost predicate Edge(s: State, c: Change) {
    var news := c.decisions != s.decisions;
    match c.event
    case Some(e) =>
      && e.job == c.job && !news
      && (match e.kind
          case Created => c.job !in s.jobs && c.row.job.status.Pending? && c.row.retries == 0
          case Completed => From(s, c, Lifecycle.Running) && c.row.job.status.Completed?
          case Failed => From(s, c, Lifecycle.Running) && c.row.job.status.Failed?
          case RetryScheduled =>
            c.job in s.jobs && s.jobs[c.job].job.status.Running? && c.row.job.status.Pending?
            && c.row.retries == s.jobs[c.job].retries + 1
          case AwaitingReview => From(s, c, Lifecycle.Running) && c.row.job.status.AwaitingReview?)
    case None =>
      && c.job in s.jobs && c.row.retries == s.jobs[c.job].retries && !Ended(s.jobs[c.job])
      && (if news then Settles(s, c) else !s.jobs[c.job].job.status.AwaitingReview? && c.row.job.status.Running?)
  }

  ghost predicate From(s: State, c: Change, st: Lifecycle.Status) {
    c.job in s.jobs && s.jobs[c.job].job.status == st && c.row.retries == s.jobs[c.job].retries
  }

  /** One decision for the job, made while it awaits review, on the execution under review. */
  ghost predicate Settles(s: State, c: Change) {
    && |c.decisions| == |s.decisions| + 1 && c.decisions[..|s.decisions|] == s.decisions
    && var d := c.decisions[|s.decisions|];
       && d.job == c.job && InReview(s, c.job) && s.jobs[c.job].active == Some(d.exec)
       && Find(s.decisions, d.job, d.key).None?
       && (match d.request.ruling
           case Approve => c.row.job.status.Pending?
           case Reject => c.row.job.status.Failed?)
  }

  lemma RuledEdge(s: State, v: Review, id: nat, at: int)
    requires v.job in s.jobs && v.exec in s.execs && InReview(s, v.job) && s.jobs[v.job].active == Some(v.exec)
    requires Find(s.decisions, v.job, v.key).None?
    ensures Ruled(s, v, id, at).Some? ==> Edge(s, Ruled(s, v, id, at).value)
  {
    if Ruled(s, v, id, at).Some? {
      var c := Ruled(s, v, id, at).value;
      assert c.decisions[..|s.decisions|] == s.decisions;
    }
  }

  lemma PlanEdge(s: State, step: Step)
    ensures Plan(s, step).Some? ==> Edge(s, Plan(s, step).value)
  {
    if step.ReviewWrite? && Plan(s, step).Some? {
      RuledEdge(s, s.reviews[step.call], step.id, step.at);
    }
  }

  /** The lifecycle transition a transaction makes on an existing job, if it makes one. */
  function MoveOf(s: State, step: Step): Option<Lifecycle.Transition> {
    match step
    case Claim(j, _, now, _) =>
      if j in s.jobs && s.jobs[j].job.status.Pending? then Some(Begin(s.jobs[j], now)) else None
    case Complete(_, _, text, at, _) => Some(Lifecycle.Complete(text, Lifecycle.Exactly(at)))
    case Fail(_, _, text, at, _) => Some(Lifecycle.Fail(text, Lifecycle.Exactly(at)))
    case ScheduleRetry(_, _, _, _, at, _) => Some(Lifecycle.ReturnToPending(Lifecycle.Exactly(at)))
    case Pause(_, _, at, _) => Some(Lifecycle.AwaitReview(Lifecycle.Exactly(at)))
    case ReviewWrite(call, _, at) =>
      if call in s.reviews && s.reviews[call].request.ruling.Reject?
      then Some(Lifecycle.FailFromReview("Rejected by operator review", Lifecycle.Exactly(at)))
      else Some(Lifecycle.ApproveToPending(Lifecycle.Exactly(at)))
    case _ => None
  }

  /** Existing jobs change only through their lifecycle transitions and keep their idempotency key. */
  ghost predicate Lawful(s: State, c: Change, m: Option<Lifecycle.Transition>) {
    c.job in s.jobs ==>
      && c.row.key == s.jobs[c.job].key
      && c.row.job == if m.Some? then Lifecycle.After(s.jobs[c.job].job, m.value) else s.jobs[c.job].job
  }

  lemma PlanLawful(s: State, step: Step)
    ensures Plan(s, step).Some? ==> Lawful(s, Plan(s, step).value, MoveOf(s, step))
  {
  }

  lemma PlanWf(s: State, step: Step)
    requires forall j :: j in s.jobs ==> Lifecycle.Wf(s.jobs[j].job)
    ensures Plan(s, step).Some? ==> Lifecycle.Wf(Plan(s, step).value.row.job)
  {
    if step.Submit? {
      Lifecycle.CreateWf(step.name, step.question, step.w);
    } else if Plan(s, step).Some? {
      var c, m := Plan(s, step).value, MoveOf(s, step);
      PlanEdge(s, step);
      PlanLawful(s, step);
      if m.Some? {
        Lifecycle.StepWf(s.jobs[c.job].job, m.value);
      }
    }
  }

  // ---------- The ledger ----------

  /** How many events of this kind the outbox holds for the job. */
  function Count(es: seq<Event>, j: nat, k: Kind): nat {
    if es == [] then 0
    else
      var e := es[|es| - 1];
      Count(es[..|es| - 1], j, k) + if e.job == j && e.kind == k then 1 else 0
  }

  /** How many review decisions the job has had. */
  function Decided(ds: seq<Decision>, j: nat): nat {
    if ds == [] then 0 else Decided(ds[..|ds| - 1], j) + if ds[|ds| - 1].job == j then 1 else 0
  }

  /** How many of them rejected it. */
  function Rejected(ds: seq<Decision>, j: nat): nat {
    if ds == [] then 0
    else
      var d := ds[|ds| - 1];
      Rejected(ds[..|ds| - 1], j) + if d.job == j && d.request.ruling.Reject? then 1 else 0
  }

  function One(b: bool): nat {
    if b then 1 else 0
  }

  predicate HasStatus(s: State, j: nat, st: Lifecycle.Status) {
    j in s.jobs && s.jobs[j].job.status == st
  }

  /**
   The outbox and the decisions account for every job exactly: one created event, one completed event if and
   only if it completed, one failed event or one rejection if and only if it failed, one retry event per
   counted retry, and one review event per decision plus one while it still awaits review.
   */
  ghost predicate Ledger(s: State, j: nat) {
    && Count(s.outbox, j, Created) == One(j in s.jobs)
    && Count(s.outbox, j, Completed) == One(HasStatus(s, j, Lifecycle.Completed))
    && Count(s.outbox, j, Failed) + Rejected(s.decisions, j) == One(HasStatus(s, j, Lifecycle.Failed))
    && Count(s.outbox, j, RetryScheduled) == (if j in s.jobs then s.jobs[j].retries else 0)
    && Count(s.outbox, j, AwaitingReview) == Decided(s.decisions, j) + One(HasStatus(s, j, Lifecycle.AwaitingReview))
  }

  lemma CountSnoc(es: seq<Event>, e: Event, j: nat, k: Kind)
    ensures Count(es + [e], j, k) == Count(es, j, k) + One(e.job == j && e.kind == k)
  {
    assert (es + [e])[..|es|] == es;
  }

  lemma CountsSnoc(es: seq<Event>, e: Event, j: nat)
    ensures forall k :: Count(es + [e], j, k) == Count(es, j, k) + One(e.job == j && e.kind == k)
  {
    forall k ensures Count(es + [e], j, k) == Count(es, j, k) + One(e.job == j && e.kind == k) {
      CountSnoc(es, e, j, k);
    }
  }

  lemma DecidedGrows(ds: seq<Decision>, ds': seq<Decision>, j: nat)
    requires |ds'| == |ds| + 1 && ds'[..|ds|] == ds
    ensures Decided(ds', j) == Decided(ds, j) + One(ds'[|ds|].job == j)
    ensures Rejected(ds', j) == Rejected(ds, j) + One(ds'[|ds|].job == j && ds'[|ds|].request.ruling.Reject?)
  {
  }

  lemma {:induction false} TerminatedIffCounted(es: seq<Event>, j: nat)
    ensures Terminated(es, j) <==> Count(es, j, Completed) + Count(es, j, Failed) >= 1
  {
    if es != [] {
      var m := |es| - 1;
      TerminatedIffCounted(es[..m], j);
      TerminatedSnoc(es[..m], es[m]);
      assert es == es[..m] + [es[m]];
    }
  }

  lemma EventKeepsLedger(s: State, c: Change, j: nat)
    requires Edge(s, c) && c.event.Some? && Ledger(s, j)
    ensures Ledger(Commit(s, c), j)
  {
    CountsSnoc(s.outbox, c.event.value, j);
  }

  lemma QuietKeepsLedger(s: State, c: Change, j: nat)
    requires Edge(s, c) && c.event.None? && Ledger(s, j)
    ensures Ledger(Commit(s, c), j)
  {
    if c.decisions != s.decisions {
      DecidedGrows(s.decisions, c.decisions, j);
    }
  }

  // ---------- The invariant ----------

  ghost predicate RowsOk(s: State) {
    forall j :: j in s.jobs ==> Lifecycle.Wf(s.jobs[j].job) && Check(s.jobs[j]) && Fits(s.jobs[j].key)
  }

  /** UNIQUE (idempotency_key) */
  ghost predicate KeysOk(s: State) {
    forall i, j :: i in s.jobs && j in s.jobs && s.jobs[i].key == s.jobs[j].key ==> i == j
  }

  /** UNIQUE (research_job_id, idempotency_key) on decisions */
  ghost predicate DecisionKeysOk(ds: seq<Decision>) {
    forall i, k :: 0 <= i < k < |ds| ==> !(ds[i].job == ds[k].job && ds[i].key == ds[k].key)
  }

  ghost predicate LedgerOk(s: State) {
    forall j: nat :: Ledger(s, j)
  }

  ghost predicate Inv(s: State) {
    && RowsOk(s) && ExecsOk(s.execs) && KeysOk(s) && LedgerOk(s) && DecisionKeysOk(s.decisions)
    && DistinctIds(s.outbox) && HistoryOk(s.outbox)
  }

  lemma InitInv()
    ensures Inv(Init())
  {
  }

  /** An event is only ever written for a job without a terminal event. */
  lemma EventNotAfterTerminal(s: State, c: Change)
    requires LedgerOk(s) && Edge(s, c) && c.event.Some?
    ensures !Terminated(s.outbox, c.job)
  {
    TerminatedIffCounted(s.outbox, c.job);
    assert Ledger(s, c.job);
  }

  lemma HistoryOkSnoc(es: seq<Event>, e: Event)
    requires HistoryOk(es) && !Terminated(es, e.job)
    ensures HistoryOk(es + [e])
  {
  }

  lemma CommitKeepsOutbox(s: State, c: Change)
    requires Inv(s) && Edge(s, c) && Accepted(s, c)
    ensures HistoryOk(Commit(s, c).outbox) && DistinctIds(Commit(s, c).outbox)
  {
    if c.event.Some? {
      EventNotAfterTerminal(s, c);
      HistoryOkSnoc(s.outbox, c.event.value);
    }
  }

  lemma {:induction false} FindIff(ds: seq<Decision>, j: nat, key: string)
    ensures Find(ds, j, key).None? <==> forall i :: 0 <= i < |ds| ==> !(ds[i].job == j && ds[i].key == key)
    ensures Find(ds, j, key).Some? ==> Find(ds, j, key).value in ds
  {
    if ds != [] {
      FindIff(ds[..|ds| - 1], j, key);
    }
  }

  lemma CommitKeepsDecisions(s: State, c: Change)
    requires DecisionKeysOk(s.decisions) && Edge(s, c)
    ensures DecisionKeysOk(c.decisions)
  {
    if c.decisions != s.decisions {
      var n := |s.decisions|;
      FindIff(s.decisions, c.decisions[n].job, c.decisions[n].key);
      assert forall i :: 0 <= i < n ==> c.decisions[i] == s.decisions[i];
    }
  }

  /** A transaction keeps the key of an existing job and uses a new one for a new job. */
  ghost predicate KeyLaw(s: State, c: Change) {
    if c.job in s.jobs then c.row.key == s.jobs[c.job].key else !KeyUsed(s, c.row.key)
  }

  lemma PlanKey(s: State, step: Step)
    ensures Plan(s, step).Some? ==> KeyLaw(s, Plan(s, step).value)
  {
    PlanEdge(s, step);
    PlanLawful(s, step);
  }

  lemma CommitKeepsKeys(s: State, c: Change)
    requires KeysOk(s) && KeyLaw(s, c)
    ensures KeysOk(Commit(s, c))
  {
    if c.job !in s.jobs {
      assert forall j :: j in s.jobs ==> s.jobs[j].key != c.row.key;
    }
  }

  lemma CommitKeepsInv(s: State, step: Step)
    requires Inv(s) && Plan(s, step).Some? && Accepted(s, Plan(s, step).value)
    ensures Inv(Commit(s, Plan(s, step).value))
  {
    var c := Plan(s, step).value;
    PlanEdge(s, step);
    PlanWf(s, step);
    CommitKeepsOutbox(s, c);
    CommitKeepsDecisions(s, c);
    PlanKey(s, step);
    CommitKeepsKeys(s, c);
    forall j: nat ensures Ledger(Commit(s, c), j) {
      assert Ledger(s, j);
      if c.event.Some? { EventKeepsLedger(s, c, j); } else { QuietKeepsLedger(s, c, j); }
    }
  }

  lemma StepKeepsInv(s: State, step: Step)
    requires Inv(s)
    ensures Inv(Apply(s, step))
  {
    if !step.ReviewRead? && Plan(s, step).Some? && Accepted(s, Plan(s, step).value) {
      CommitKeepsInv(s, step);
    } else {
      ReadKeepsInv(s, Apply(s, step));
    }
  }

  lemma ReadKeepsInv(s: State, t: State)
    requires Inv(s) && t == s.(reviews := t.reviews)
    ensures Inv(t)
  {
    forall j: nat ensures Ledger(t, j) {
      assert Ledger(s, j);
    }
  }

  lemma {:induction false} RunKeepsInv(s: State, steps: seq<Step>)
    requires Inv(s)
    ensures Inv(Run(s, steps))
  {
    if steps != [] {
      RunKeepsInv(s, steps[..|steps| - 1]);
      StepKeepsInv(Run(s, steps[..|steps| - 1]), steps[|steps| - 1]);
    }
  }

  // ---------- Theorems ----------

  /**
   Job history over every run: the ledger balances for every job, no two jobs share an idempotency key, every
   row meets its constraints, and nothing follows a terminal event in the outbox.
   */
  lemma JobHistory(steps: seq<Step>)
    ensures var s := Run(Init(), steps);
            && (forall j: nat :: Ledger(s, j))
            && HistoryOk(s.outbox) && DistinctIds(s.outbox)
            && KeysOk(s) && RowsOk(s) && ExecsOk(s.execs)
  {
    InitInv();
    RunKeepsInv(Init(), steps);
  }

  /** A finished job never changes again. */
  lemma {:induction false} TerminalForever(s: State, steps: seq<Step>, j: nat)
    requires j in s.jobs && Ended(s.jobs[j])
    ensures j in Run(s, steps).jobs && Run(s, steps).jobs[j] == s.jobs[j]
  {
    if steps != [] {
      var m := |steps| - 1;
      TerminalForever(s, steps[..m], j);
      PlanEdge(Run(s, steps[..m]), steps[m]);
    }
  }

  /** A write fenced by this claim token. */
  predicate Fenced(step: Step, j: nat, token: nat) {
    && (step.Bind? || step.FinishExec? || step.Complete? || step.Fail? || step.ScheduleRetry? || step.Pause?)
    && step.job == j && step.token == token
  }

  lemma TokenOnlyFromClaim(s: State, step: Step)
    ensures Plan(s, step).Some? ==>
              var c := Plan(s, step).value;
              || c.row.token == None
              || (c.job in s.jobs && c.row.token == s.jobs[c.job].token)
              || (step.Claim? && step.job == c.job && c.row.token == Some(step.token))
  {
  }

  lemma TokenStaysLost(s: State, step: Step, j: nat, token: nat)
    requires j in s.jobs && s.jobs[j].token != Some(token)
    requires step.Claim? && step.job == j ==> step.token != token
    ensures j in Apply(s, step).jobs && Apply(s, step).jobs[j].token != Some(token)
  {
    TokenOnlyFromClaim(s, step);
  }

  lemma LostTokenWritesNothing(s: State, late: Step, j: nat, token: nat)
    requires j in s.jobs && s.jobs[j].token != Some(token) && Fenced(late, j, token)
    ensures Apply(s, late) == s
  {
  }

  /**
   A claim token that no longer owns the job writes nothing ever again, in any continuation in which no
   claim draws the same token a second time.
   */
  lemma {:induction false} SupersededForever(s: State, steps: seq<Step>, j: nat, token: nat, late: Step)
    requires j in s.jobs && s.jobs[j].token != Some(token)
    requires forall i :: 0 <= i < |steps| && steps[i].Claim? && steps[i].job == j ==> steps[i].token != token
    requires Fenced(late, j, token)
    ensures j in Run(s, steps).jobs && Run(s, steps).jobs[j].token != Some(token)
    ensures Apply(Run(s, steps), late) == Run(s, steps)
  {
    if steps != [] {
      var m := |steps| - 1;
      SupersededForever(s, steps[..m], j, token, late);
      TokenStaysLost(Run(s, steps[..m]), steps[m], j, token);
    }
    LostTokenWritesNothing(Run(s, steps), late, j, token);
  }

  /** What a transaction does to the tables: nothing, remember a review call, or commit its change. */
  lemma ApplyCommits(s: State, step: Step)
    ensures || Apply(s, step) == s.(reviews := Apply(s, step).reviews)
            || (Plan(s, step).Some? && Apply(s, step) == Commit(s, Plan(s, step).value))
  {
  }

  lemma KeyCommit(s: State, c: Change, m: Option<Lifecycle.Transition>, j: nat)
    requires j in s.jobs && Lawful(s, c, m)
    ensures var t := Commit(s, c);
            j in t.jobs && t.jobs[j].key == s.jobs[j].key && t.jobs[j].job.question == s.jobs[j].job.question
  {
  }

  lemma KeyStays(s: State, step: Step, j: nat)
    requires j in s.jobs
    ensures j in Apply(s, step).jobs && Apply(s, step).jobs[j].key == s.jobs[j].key
    ensures Apply(s, step).jobs[j].job.question == s.jobs[j].job.question
  {
    ApplyCommits(s, step);
    PlanLawful(s, step);
    if Plan(s, step).Some? {
      KeyCommit(s, Plan(s, step).value, MoveOf(s, step), j);
    }
  }

  /** A submission binds its key and question to one job for good. */
  lemma {:induction false} KeyForever(s: State, steps: seq<Step>, j: nat)
    requires j in s.jobs
    ensures j in Run(s, steps).jobs && Run(s, steps).jobs[j].key == s.jobs[j].key
    ensures Run(s, steps).jobs[j].job.question == s.jobs[j].job.question
  {
    if steps != [] {
      var m := |steps| - 1;
      KeyForever(s, steps[..m], j);
      KeyStays(Run(s, steps[..m]), steps[m], j);
    }
  }

  lemma ClaimMeetsCheck(r: Row, token: nat, now: int, lease: int)
    requires Check(r) && Lifecycle.Wf(r.job) && Claimable(r, now)
    requires r.job.status.Pending? ==> Lifecycle.Step(r.job, Begin(r, now)).Ok?
    ensures Check(ClaimedRow(r, token, now, lease))
  {
  }

  /** A row whose job moved on from a running claim, with the claim columns reset. */
  lemma FinishedMeetsCheck(r: Row, t: Lifecycle.Transition)
    requires Check(r) && Lifecycle.Wf(r.job) && Lifecycle.Step(r.job, t).Ok?
    requires t.Complete? || t.Fail? || t.FailFromReview?
    ensures Check(Cleared(r).(job := Lifecycle.After(r.job, t)))
  {
  }

  lemma RetryMeetsCheckIff(r: Row, next: int, w: Lifecycle.When)
    requires Check(r) && Lifecycle.Wf(r.job) && Lifecycle.Step(r.job, Lifecycle.ReturnToPending(w)).Ok?
    ensures var row := Cleared(r).(mode := JobRetry, next := Some(next), retries := r.retries + 1);
            Check(row.(job := Lifecycle.After(r.job, Lifecycle.ReturnToPending(w)))) <==> r.retries < 2
  {
  }

  lemma PauseMeetsCheckIff(r: Row, w: Lifecycle.When)
    requires Check(r) && Lifecycle.Wf(r.job) && Lifecycle.Step(r.job, Lifecycle.AwaitReview(w)).Ok?
    ensures var row := r.(token := None, lease := None, claimed := NoMode);
            Check(row.(job := Lifecycle.After(r.job, Lifecycle.AwaitReview(w)))) <==> r.active.Some?
  {
  }

  lemma RuledMeetsCheck(s: State, v: Review, id: nat, at: int)
    requires v.job in s.jobs && v.exec in s.execs && Check(s.jobs[v.job]) && Lifecycle.Wf(s.jobs[v.job].job)
    ensures Ruled(s, v, id, at).Some? ==> Check(Ruled(s, v, id, at).value.row)
  {
    var t := Lifecycle.FailFromReview("Rejected by operator review", Lifecycle.Exactly(at));
    if v.request.ruling.Reject? && Lifecycle.Step(s.jobs[v.job].job, t).Ok? {
      FinishedMeetsCheck(s.jobs[v.job], t);
    }
  }

  lemma OtherStepsMeetCheck(s: State, step: Step)
    requires RowsOk(s) && Plan(s, step).Some? && !step.ScheduleRetry? && !step.Pause?
    ensures Check(Plan(s, step).value.row)
  {
    match step
    case Claim(j, token, now, lease) => ClaimMeetsCheck(s.jobs[j], token, now, lease);
    case Complete(j, _, text, at, _) => FinishedMeetsCheck(s.jobs[j], Lifecycle.Complete(text, Lifecycle.Exactly(at)));
    case Fail(j, _, text, at, _) => FinishedMeetsCheck(s.jobs[j], Lifecycle.Fail(text, Lifecycle.Exactly(at)));
    case ReviewWrite(call, id, at) => RuledMeetsCheck(s, s.reviews[call], id, at);
    case _ =>
  }

  /** Closing one execution meets its CHECK exactly if the clock is not behind the execution's start. */
  lemma CloseMeetsCheckIff(execs: map<nat, Exec>, x: nat, status: ExecStatus, at: int)
    requires ExecsOk(execs) && x in execs && !status.ExecRunning?
    ensures ExecsOk(execs[x := Closed(execs[x], status, at)]) <==> execs[x].started <= at
  {
    var after := execs[x := Closed(execs[x], status, at)];
    assert after[x] == Closed(execs[x], status, at);
  }

  /** Abandoning all running executions of a job and starting a new one. */
  lemma BindMeetsCheckIff(s: State, j: nat, x: nat, at: int)
    requires ExecsOk(s.execs) && x !in s.execs
    ensures ExecsOk(Abandoned(s.execs, j, at)[x := Exec(j, ExecRunning, at, None)])
            <==> forall y :: RunningExec(s, y, j) ==> s.execs[y].started <= at
  {
    var after := Abandoned(s.execs, j, at)[x := Exec(j, ExecRunning, at, None)];
    forall y | RunningExec(s, y, j) ensures ExecCheck(after[y]) <==> s.execs[y].started <= at {
    }
    forall y | y in s.execs && !RunningExec(s, y, j) ensures ExecCheck(after[y]) {
      assert after[y] == s.execs[y];
    }
  }

  /** The execution a transaction closes was started later than its own clock reading. */
  ghost predicate ClockBehindExecution(s: State, step: Step) {
    match step
    case Bind(j, _, _, at) => exists x :: RunningExec(s, x, j) && at < s.execs[x].started
    case FinishExec(_, _, x, _, at) => x in s.execs && at < s.execs[x].started
    case ScheduleRetry(_, _, _, abandon, at, _) =>
      abandon.Some? && abandon.value in s.execs && at < s.execs[abandon.value].started
    case ReviewWrite(call, _, at) =>
      && call in s.reviews && s.reviews[call].request.ruling.Reject?
      && s.reviews[call].exec in s.execs && at < s.execs[s.reviews[call].exec].started
    case _ => false
  }

  /** A key or actor that does not fit its column. */
  predicate TextMisfit(s: State, step: Step) {
    match step
    case Submit(_, _, _, key, _, _) => !Fits(key)
    case ReviewWrite(call, _, _) => call in s.reviews && !(Fits(s.reviews[call].key) && Fits(s.reviews[call].request.actor))
    case _ => false
  }

  /** What the CHECK on status fields and retry counter refuses. */
  predicate RowMisfit(s: State, step: Step) {
    || (step.Pause? && step.job in s.jobs && s.jobs[step.job].active.None?)
    || (step.ScheduleRetry? && step.job in s.jobs && s.jobs[step.job].retries == 2)
  }

  lemma RetryCheckIff(s: State, step: Step)
    requires step.ScheduleRetry? && Plan(s, step).Some? && Check(s.jobs[step.job]) && Lifecycle.Wf(s.jobs[step.job].job)
    ensures !Check(Plan(s, step).value.row) <==> s.jobs[step.job].retries == 2
  {
    RetryMeetsCheckIff(s.jobs[step.job], step.next, Lifecycle.Exactly(step.at));
  }

  lemma PauseCheckIff(s: State, step: Step)
    requires step.Pause? && Plan(s, step).Some? && Check(s.jobs[step.job]) && Lifecycle.Wf(s.jobs[step.job].job)
    ensures !Check(Plan(s, step).value.row) <==> s.jobs[step.job].active.None?
  {
    PauseMeetsCheckIff(s.jobs[step.job], Lifecycle.Exactly(step.at));
  }

  lemma RowCheckIff(s: State, step: Step)
    requires RowsOk(s) && Plan(s, step).Some?
    ensures !Check(Plan(s, step).value.row) <==> RowMisfit(s, step)
  {
    if step.ScheduleRetry? {
      RetryCheckIff(s, step);
    } else if step.Pause? {
      PauseCheckIff(s, step);
    } else {
      OtherStepsMeetCheck(s, step);
    }
  }

  lemma ExecsCheckIff(s: State, step: Step)
    requires ExecsOk(s.execs) && Plan(s, step).Some?
    ensures !ExecsOk(Plan(s, step).value.execs) <==> ClockBehindExecution(s, step)
  {
    match step
    case Bind(j, _, x, at) => BindMeetsCheckIff(s, j, x, at);
    case FinishExec(_, _, x, status, at) => CloseMeetsCheckIff(s.execs, x, status, at);
    case ScheduleRetry(_, _, _, abandon, at, _) =>
      if abandon.Some? { CloseMeetsCheckIff(s.execs, abandon.value, ExecAbandoned, at); }
    case ReviewWrite(call, _, at) => CloseMeetsCheckIff(s.execs, s.reviews[call].exec, ExecFailed, at);
    case _ =>
  }

  lemma TextCheckIff(s: State, step: Step)
    requires RowsOk(s) && Plan(s, step).Some?
    ensures var c := Plan(s, step).value;
            !(Fits(c.row.key) && DecisionsFit(s.decisions, c.decisions)) <==> TextMisfit(s, step)
  {
    var c := Plan(s, step).value;
    PlanTexts(s, step);
    if c.job in s.jobs {
      assert Fits(s.jobs[c.job].key);
    }
  }

  /** Which texts a transaction writes: the key of a new job, or the key and actor of a new decision. */
  lemma PlanTexts(s: State, step: Step)
    ensures Plan(s, step).Some? ==>
              var c := Plan(s, step).value;
              && (if step.Submit? then c.row.key == step.key else c.job in s.jobs && c.row.key == s.jobs[c.job].key)
              && (if step.ReviewWrite?
                  then step.call in s.reviews && Writes(s, c, s.reviews[step.call])
                  else c.decisions == s.decisions)
  {
  }

  ghost predicate Writes(s: State, c: Change, v: Review) {
    && |c.decisions| == |s.decisions| + 1
    && c.decisions[|s.decisions|].key == v.key && c.decisions[|s.decisions|].request == v.request
  }

  /**
   When the CHECKs refuse a transaction the code attempts: exactly for a pause without a bound execution, a third
   retry, a key or actor that is blank or too long, and a clock behind the start of the execution to be closed.
   */
  lemma CheckRefusesIff(s: State, step: Step)
    requires RowsOk(s) && ExecsOk(s.execs) && Plan(s, step).Some?
    ensures !MeetsChecks(s, Plan(s, step).value) <==>
            RowMisfit(s, step) || TextMisfit(s, step) || ClockBehindExecution(s, step)
  {
    RowCheckIff(s, step);
    ExecsCheckIff(s, step);
    TextCheckIff(s, step);
  }

  /** Finalization is all or nothing: the terminal row and its event together, under the claim, or no change. */
  lemma FinalizeIsAtomic(s: State, step: Step)
    requires step.Complete? || step.Fail?
    ensures var t := Apply(s, step);
            || t == s
            || (&& Owns(s, step.job, step.token, step.at)
                && t.outbox == s.outbox + [Event(step.event, step.job, if step.Complete? then Completed else Failed)]
                && step.job in t.jobs && Ended(t.jobs[step.job])
                && (if step.Complete? then t.jobs[step.job].job.result == Some(Lifecycle.Strip(step.text))
                    else t.jobs[step.job].job.failure == Some(Lifecycle.Strip(step.text))))
  {
  }

  /** A submission of a valid new job under a new key goes through exactly if the key fits and its event id is new. */
  lemma SubmitEffect(s: State, step: Step)
    requires step.Submit? && Lifecycle.Create(step.name, step.question, step.w).Ok?
    requires step.job !in s.jobs && !KeyUsed(s, step.key) && ExecsOk(s.execs)
    ensures var t := Apply(s, step);
            if EventIdUsed(s.outbox, step.event) || !Fits(step.key) then t == s
            else t.outbox == s.outbox + [Event(step.event, step.job, Created)] && step.job in t.jobs && t.jobs[step.job].key == step.key
  {
  }

  // ---------- Who may claim ----------

  /** The row as a claim by this token leaves it. */
  predicate OwnedBy(r: Row, token: nat, lease: int) {
    r.job.status.Running? && r.token == Some(token) && r.lease == Some(lease)
  }

  /**
   Who may claim a job, said of its row alone: a running job whose lease lies before the clock reading, and a pending job
   that is due and not ahead of the clock.
   */
  predicate MayClaim(r: Row, now: int) {
    match r.job.status
    case Running => r.lease.Some? && r.lease.value < now
    case Pending => (r.next.None? || r.next.value <= now) && r.job.updated <= now
    case _ => false
  }

  lemma ClaimRefused(s: State, j: nat, token: nat, now: int, lease: int)
    requires j in s.jobs && !MayClaim(s.jobs[j], now)
    ensures Apply(s, Claim(j, token, now, lease)) == s
  {
  }

  lemma ClaimPlanned(s: State, j: nat, token: nat, now: int, lease: int)
    requires j in s.jobs && MayClaim(s.jobs[j], now) && Lifecycle.Wf(s.jobs[j].job)
    ensures var c := Plan(s, Claim(j, token, now, lease));
            && c.Some? && c.value.job == j && OwnedBy(c.value.row, token, lease) && c.value.event.None?
            && c.value.execs == s.execs && c.value.decisions == s.decisions
            && c.value.row.active == s.jobs[j].active && c.value.row.retries == s.jobs[j].retries
            && c.value.row.claimed == (if s.jobs[j].job.status.Pending? then s.jobs[j].mode else s.jobs[j].claimed)
            && c.value.row.job.updated <= (if s.jobs[j].job.status.Pending? then now else s.jobs[j].job.updated)
  {
  }

  /** A claim that may be made goes through: the token owns the job, and nothing else about it is lost. */
  lemma ClaimGranted(s: State, j: nat, token: nat, now: int, lease: int)
    requires RowsOk(s) && ExecsOk(s.execs) && j in s.jobs && MayClaim(s.jobs[j], now)
    ensures var t := Apply(s, Claim(j, token, now, lease));
            && j in t.jobs && OwnedBy(t.jobs[j], token, lease)
            && t.outbox == s.outbox && t.decisions == s.decisions && t.execs == s.execs
            && t.jobs[j].active == s.jobs[j].active
            && t.jobs[j].claimed == (if s.jobs[j].job.status.Pending? then s.jobs[j].mode else s.jobs[j].claimed)
            && t.jobs[j].job.updated <= (if s.jobs[j].job.status.Pending? then now else s.jobs[j].job.updated)
  {
    ClaimPlanned(s, j, token, now, lease);
    CheckRefusesIff(s, Claim(j, token, now, lease));
  }

  /** A live claim stands: a running job whose lease has not passed does not change under any claim. */
  lemma LiveClaimStands(s: State, j: nat, token: nat, now: int, lease: int)
    requires j in s.jobs && s.jobs[j].job.status.Running?
    requires s.jobs[j].lease.Some? ==> now <= s.jobs[j].lease.value
    ensures Apply(s, Claim(j, token, now, lease)) == s
  {
    ClaimRefused(s, j, token, now, lease);
  }

  /** Only claims write a token or a lease on a job that stays running. */
  lemma StaysWithOwner(s: State, step: Step, j: nat)
    requires j in s.jobs && s.jobs[j].job.status.Running? && !(step.Claim? && step.job == j)
    ensures j in Apply(s, step).jobs
    ensures Apply(s, step).jobs[j].job.status.Running? ==>
              Apply(s, step).jobs[j].token == s.jobs[j].token && Apply(s, step).jobs[j].lease == s.jobs[j].lease
  {
    ApplyCommits(s, step);
    PlanKeepsClaim(s, step);
  }

  lemma PlanKeepsClaim(s: State, step: Step)
    ensures Plan(s, step).Some? && !step.Claim? && Plan(s, step).value.job in s.jobs ==>
              var c := Plan(s, step).value;
              c.row.job.status.Running? ==> c.row.token == s.jobs[c.job].token && c.row.lease == s.jobs[c.job].lease
    ensures Plan(s, step).Some? && step.Claim? ==> Plan(s, step).value.job == step.job
  {
  }

  /** The job is running in every state of the run. */
  ghost predicate RunningThroughout(s: State, steps: seq<Step>, j: nat) {
    forall k: nat :: k <= |steps| ==> HasStatus(Run(s, steps[..k]), j, Lifecycle.Running)
  }

  /**
   A claim keeps its job: in every continuation whose claims of the job all read a clock not after its lease, the token
   and lease stay until the job leaves the running state.
   */
  lemma {:induction false} ClaimKeepsJob(s: State, steps: seq<Step>, j: nat)
    requires HasStatus(s, j, Lifecycle.Running) && RunningThroughout(s, steps, j) && s.jobs[j].lease.Some?
    requires forall i :: 0 <= i < |steps| && steps[i].Claim? && steps[i].job == j ==> steps[i].now <= s.jobs[j].lease.value
    ensures var t := Run(s, steps);
            j in t.jobs && t.jobs[j].token == s.jobs[j].token && t.jobs[j].lease == s.jobs[j].lease
  {
    if steps != [] {
      var m: nat := |steps| - 1;
      assert steps[..|steps|] == steps;
      RunningPrefix(s, steps, j);
      ClaimKeepsJob(s, steps[..m], j);
      var t := Run(s, steps[..m]);
      if steps[m].Claim? && steps[m].job == j {
        LiveClaimStands(t, j, steps[m].token, steps[m].now, steps[m].lease);
      } else {
        StaysWithOwner(t, steps[m], j);
      }
    }
  }

  lemma RunningPrefix(s: State, steps: seq<Step>, j: nat)
    requires steps != [] && RunningThroughout(s, steps, j)
    ensures RunningThroughout(s, steps[..|steps| - 1], j) && HasStatus(Run(s, steps), j, Lifecycle.Running)
  {
    var pre := steps[..|steps| - 1];
    forall k: nat | k <= |pre| ensures HasStatus(Run(s, pre[..k]), j, Lifecycle.Running) {
      assert pre[..k] == steps[..k];
    }
    assert steps[..|steps|] == steps;
  }

  /** A worker whose claim went through owns the job until the lease runs out. */
  lemma ClaimThenOwns(s: State, job: nat, token: nat, now: int, lease: int, at: int)
    requires RowsOk(s) && ExecsOk(s.execs) && job in s.jobs && MayClaim(s.jobs[job], now)
    requires at < lease && now <= at && s.jobs[job].job.updated <= at
    ensures var t := Apply(s, Claim(job, token, now, lease));
            t.outbox == s.outbox && job in t.jobs && t.jobs[job].job.updated <= at && Owns(t, job, token, at)
  {
    ClaimGranted(s, job, token, now, lease);
  }

  /** The job runs under the token with a lease later than `at`, is not ahead of that clock, and the event id is new. */
  ghost predicate CanFinalize(s: State, job: nat, token: nat, at: int, event: nat) {
    && job in s.jobs && s.jobs[job].job.status == Lifecycle.Running && s.jobs[job].token == Some(token)
    && s.jobs[job].lease.Some? && at < s.jobs[job].lease.value && s.jobs[job].job.updated <= at
    && forall i :: 0 <= i < |s.outbox| ==> s.outbox[i].id != event
  }

  /** Not only white space. */
  ghost predicate HasText(text: string) {
    exists i :: 0 <= i < |text| && !Lifecycle.Space(text[i])
  }

  lemma FinalizePlan(s: State, step: Step)
    requires step.Complete? || step.Fail?
    ensures Plan(s, step).Some? <==>
            && Owns(s, step.job, step.token, step.at) && Lifecycle.Strip(step.text) != []
            && step.at >= s.jobs[step.job].job.updated
    ensures Plan(s, step).Some? ==> Plan(s, step).value.event.Some? && Plan(s, step).value.event.value.id == step.event
  {
  }

  lemma FinalizeMeetsChecks(s: State, step: Step)
    requires RowsOk(s) && ExecsOk(s.execs) && (step.Complete? || step.Fail?) && Plan(s, step).Some?
    ensures MeetsChecks(s, Plan(s, step).value)
  {
    CheckRefusesIff(s, step);
  }

  lemma CommitChanges(s: State, c: Change)
    requires c.event.Some?
    ensures Commit(s, c) != s
  {
    assert |Commit(s, c).outbox| > |s.outbox|;
  }

  /** Exactly when finalization takes effect. */
  lemma FinalizeSucceedsIff(s: State, step: Step)
    requires RowsOk(s) && ExecsOk(s.execs) && (step.Complete? || step.Fail?)
    ensures Apply(s, step) != s <==> CanFinalize(s, step.job, step.token, step.at, step.event) && HasText(step.text)
  {
    FinalizePlan(s, step);
    Lifecycle.StripTrims(step.text);
    if Plan(s, step).Some? {
      FinalizeMeetsChecks(s, step);
      CommitChanges(s, Plan(s, step).value);
    }
  }

  /** The job runs under this token, with a lease later than `at`. */
  predicate Holds(s: State, j: nat, token: nat, at: int) {
    && j in s.jobs && s.jobs[j].job.status == Lifecycle.Running
    && s.jobs[j].token == Some(token) && s.jobs[j].lease.Some? && at < s.jobs[j].lease.value
  }

  /** Exactly when a job goes to review, and what it then is: unclaimed, with the execution under review still its own. */
  lemma PauseIff(s: State, step: Step)
    requires RowsOk(s) && ExecsOk(s.execs) && step.Pause?
    ensures Apply(s, step) != s <==>
            && Holds(s, step.job, step.token, step.at) && s.jobs[step.job].job.updated <= step.at
            && s.jobs[step.job].active.Some? && !EventIdUsed(s.outbox, step.event)
    ensures Apply(s, step) != s ==>
              var r := Apply(s, step).jobs[step.job];
              r.job.status.AwaitingReview? && r.token.None? && r.active == s.jobs[step.job].active
  {
    if Plan(s, step).Some? {
      CheckRefusesIff(s, step);
      CommitChanges(s, Plan(s, step).value);
    }
  }

  /** The execution to abandon is the job's own, still running, and did not start after `at`. */
  predicate MayAbandon(s: State, j: nat, abandon: Option<nat>, at: int)
    requires j in s.jobs
  {
    abandon.Some? ==>
      && s.jobs[j].active == abandon && abandon.value in s.execs && s.execs[abandon.value].job == j
      && s.execs[abandon.value].status.ExecRunning? && s.execs[abandon.value].started <= at
  }

  /** Exactly when a retry is scheduled, and what the job then is: due at the given time, free, for a fresh execution. */
  lemma RetryIff(s: State, step: Step)
    requires RowsOk(s) && ExecsOk(s.execs) && step.ScheduleRetry?
    ensures Apply(s, step) != s <==>
            && Holds(s, step.job, step.token, step.at) && s.jobs[step.job].job.updated <= step.at
            && MayAbandon(s, step.job, step.abandon, step.at)
            && s.jobs[step.job].retries < 2 && !EventIdUsed(s.outbox, step.event)
    ensures Apply(s, step) != s ==>
              var r := Apply(s, step).jobs[step.job];
              && r.job.status.Pending? && r.job.updated == step.at && r.token.None? && r.next == Some(step.next)
              && r.mode == JobRetry && r.active.None? && r.retries == s.jobs[step.job].retries + 1
  {
    RetryPlan(s, step);
    if Plan(s, step).Some? {
      CheckRefusesIff(s, step);
      CommitChanges(s, Plan(s, step).value);
    }
  }

  lemma RetryPlan(s: State, step: Step)
    requires step.ScheduleRetry?
    ensures Plan(s, step).Some? <==>
            && Holds(s, step.job, step.token, step.at) && s.jobs[step.job].job.updated <= step.at
            && (step.abandon.Some? ==> s.jobs[step.job].active == step.abandon && RunningExec(s, step.abandon.value, step.job))
    ensures Plan(s, step).Some? ==>
              var c := Plan(s, step).value;
              && c.job == step.job && c.event.Some? && c.event.value.id == step.event
              && c.row.job.status.Pending? && c.row.job.updated == step.at && c.row.token.None? && c.row.next == Some(step.next)
              && c.row.mode == JobRetry && c.row.active.None? && c.row.retries == s.jobs[step.job].retries + 1
  {
  }

  /** A scheduled retry can be claimed exactly from its time on, and the claimer learns that it is a retry. */
  lemma RetryThenClaim(s: State, step: Step, token: nat, now: int, lease: int)
    requires Inv(s) && step.ScheduleRetry? && Apply(s, step) != s
    ensures var t := Apply(s, step);
            var u := Apply(t, Claim(step.job, token, now, lease));
            if step.next <= now && step.at <= now
            then step.job in u.jobs && OwnedBy(u.jobs[step.job], token, lease) && u.jobs[step.job].claimed == JobRetry
            else u == t
  {
    var t := Apply(s, step);
    RetryIff(s, step);
    StepKeepsInv(s, step);
    KeyStays(s, step, step.job);
    if step.next <= now && step.at <= now {
      ClaimGranted(t, step.job, token, now, lease);
    } else {
      ClaimRefused(t, step.job, token, now, lease);
    }
  }

  /** Exactly when a new execution is bound; it is then the only running one of its job. */
  lemma BindIff(s: State, step: Step)
    requires RowsOk(s) && ExecsOk(s.execs) && step.Bind?
    ensures Apply(s, step) != s <==>
            && Holds(s, step.job, step.token, step.at) && step.exec !in s.execs
            && forall x :: RunningExec(s, x, step.job) ==> s.execs[x].started <= step.at
    ensures Apply(s, step) != s ==>
              var t := Apply(s, step);
              && step.job in t.jobs && t.jobs[step.job].active == Some(step.exec)
              && forall x :: RunningExec(t, x, step.job) <==> x == step.exec
  {
    if Plan(s, step).Some? {
      CheckRefusesIff(s, step);
      assert step.exec in Commit(s, Plan(s, step).value).execs;
    }
  }

  // ---------- Review decisions ----------

  /** The transaction takes exactly the job of the new decision out of review. */
  ghost predicate ExitBy(s: State, t: State, d: Decision) {
    && InReview(s, d.job) && !InReview(t, d.job) && s.jobs[d.job].active == Some(d.exec)
    && forall j :: InReview(s, j) && j != d.job ==> InReview(t, j)
  }

  /** Every decision is one exit from review, on the execution under review, and every exit is one decision. */
  lemma DecisionIsExit(s: State, step: Step)
    ensures var t := Apply(s, step);
            if t.decisions == s.decisions then forall j :: InReview(s, j) ==> InReview(t, j)
            else |t.decisions| == |s.decisions| + 1 && t.decisions[..|s.decisions|] == s.decisions
                 && ExitBy(s, t, t.decisions[|s.decisions|])
  {
    PlanEdge(s, step);
  }

  /** Exactly when the writing transaction records its decision. */
  lemma DecisionRecordedIff(s: State, call: nat, id: nat, at: int)
    requires RowsOk(s) && ExecsOk(s.execs) && call in s.reviews
    ensures var v := s.reviews[call];
            Apply(s, ReviewWrite(call, id, at)).decisions != s.decisions <==>
            && InReview(s, v.job) && s.jobs[v.job].active == Some(v.exec) && v.exec in s.execs
            && Find(s.decisions, v.job, v.key).None? && at >= s.jobs[v.job].job.updated
            && Fits(v.key) && Fits(v.request.actor)
            && (v.request.ruling.Reject? ==> s.execs[v.exec].status.ExecRunning? && s.execs[v.exec].started <= at)
  {
    var v, step := s.reviews[call], ReviewWrite(call, id, at);
    if InReview(s, v.job) && v.exec in s.execs && s.jobs[v.job].active == Some(v.exec) && Find(s.decisions, v.job, v.key).None? {
      RuledIff(s, v, id, at);
      if Plan(s, step).Some? {
        CheckRefusesIff(s, step);
      }
    }
  }

  lemma RuledIff(s: State, v: Review, id: nat, at: int)
    requires InReview(s, v.job) && v.exec in s.execs
    ensures Ruled(s, v, id, at).Some? <==>
            at >= s.jobs[v.job].job.updated && (v.request.ruling.Reject? ==> s.execs[v.exec].status.ExecRunning?)
    ensures Ruled(s, v, id, at).Some? ==>
              |Ruled(s, v, id, at).value.decisions| == |s.decisions| + 1 && Ruled(s, v, id, at).value.event.None?
  {
    StripReason();
  }

  lemma StripReason()
    ensures Lifecycle.Strip("Rejected by operator review") != []
  {
    Lifecycle.StripTrims("Rejected by operator review");
    assert "Rejected by operator review"[0] == 'R';
  }

  /** What an approval leaves: a free pending job, due at once, with the execution under review still its own. */
  lemma ApprovedRow(s: State, call: nat, id: nat, at: int)
    requires call in s.reviews && s.reviews[call].request.ruling.Approve?
    requires Apply(s, ReviewWrite(call, id, at)).decisions != s.decisions
    ensures var v := s.reviews[call];
            var t := Apply(s, ReviewWrite(call, id, at));
            && v.job in t.jobs && t.jobs[v.job].job.status.Pending? && t.jobs[v.job].job.updated == at
            && t.jobs[v.job].next == Some(at) && t.jobs[v.job].active == Some(v.exec) && t.jobs[v.job].mode == ReviewComplete
  {
  }

  /** An approved job can be claimed at once, keeps the execution under review, and its claimer is to complete it. */
  lemma ApproveThenClaim(s: State, call: nat, id: nat, at: int, token: nat, now: int, lease: int)
    requires Inv(s) && call in s.reviews && s.reviews[call].request.ruling.Approve?
    requires Apply(s, ReviewWrite(call, id, at)).decisions != s.decisions
    ensures var v := s.reviews[call];
            var t := Apply(s, ReviewWrite(call, id, at));
            var u := Apply(t, Claim(v.job, token, now, lease));
            if at <= now
            then && v.job in u.jobs && OwnedBy(u.jobs[v.job], token, lease)
                 && u.jobs[v.job].active == Some(v.exec) && u.jobs[v.job].claimed == ReviewComplete
            else u == t
  {
    var v, t := s.reviews[call], Apply(s, ReviewWrite(call, id, at));
    ApprovedRow(s, call, id, at);
    StepKeepsInv(s, ReviewWrite(call, id, at));
    if at <= now {
      ClaimGranted(t, v.job, token, now, lease);
    } else {
      ClaimRefused(t, v.job, token, now, lease);
    }
  }

  /** However many callers compete, a stay in review gets at most one decision, and one exactly if it ended. */
  lemma OneDecisionPerStay(s: State, steps: seq<Step>, j: nat)
    requires Inv(s) && InReview(s, j)
    requires Count(Run(s, steps).outbox, j, AwaitingReview) == Count(s.outbox, j, AwaitingReview)
    ensures Decided(Run(s, steps).decisions, j) == Decided(s.decisions, j) + One(!InReview(Run(s, steps), j))
  {
    RunKeepsInv(s, steps);
    assert Ledger(s, j) && Ledger(Run(s, steps), j);
  }

  datatype Reply = Recorded(id: nat) | Replayed(id: nat) | Conflict | NotReady | NoJob

  /** How a review call answers an idempotency key that already has a decision. */
  function Replay(d: Decision, request: Request): Reply {
    if d.request == request then Replayed(d.id) else Conflict
  }

  lemma FindSnoc(ds: seq<Decision>, ds': seq<Decision>, j: nat, key: string)
    requires |ds'| == |ds| + 1 && ds'[..|ds|] == ds && Find(ds, j, key).Some?
    ensures Find(ds', j, key) == Find(ds, j, key)
  {
  }

  /** A recorded key answers with the original decision for good. */
  lemma {:induction false} ReplayForever(s: State, steps: seq<Step>, j: nat, key: string)
    requires Find(s.decisions, j, key).Some?
    ensures Find(Run(s, steps).decisions, j, key) == Find(s.decisions, j, key)
  {
    if steps != [] {
      var m := |steps| - 1;
      var t := Run(s, steps[..m]);
      ReplayForever(s, steps[..m], j, key);
      DecisionIsExit(t, steps[m]);
      if Apply(t, steps[m]).decisions != t.decisions {
        FindSnoc(t.decisions, Apply(t, steps[m]).decisions, j, key);
      }
    }
  }

  /**
   An operator rejection fails the job without a failed event: a failed job has one exactly if no decision
   rejected it.
   */
  lemma RejectionIsSilent(steps: seq<Step>, j: nat)
    ensures var s := Run(Init(), steps);
            HasStatus(s, j, Lifecycle.Failed) ==> (Terminated(s.outbox, j) <==> Rejected(s.decisions, j) == 0)
  {
    JobHistory(steps);
    var s := Run(Init(), steps);
    assert Ledger(s, j);
    TerminatedIffCounted(s.outbox, j);
  }

  // ---------- A rejected job ----------

  /** Submit, claim, bind an execution, pause for review, and have an operator reject. */
  function RejectionRun(): seq<Step> {
    [Submit(0, "j", "q", "k", Lifecycle.Exactly(0), 0), Claim(0, 1, 0, 10), Bind(0, 1, 7, 0), Pause(0, 1, 0, 1),
     ReviewRead(0, 0, "r", Request(Reject, "a", None), true), ReviewWrite(0, 5, 0)]
  }

  lemma ShortText(c: char)
    requires !Lifecycle.Space(c) && c != ' '
    ensures Lifecycle.Strip([c]) == [c] && Fits([c])
  {
    Lifecycle.StripTrims([c]);
    assert [c][0] == c;
  }

  function SubmittedState(): State {
    var job := Lifecycle.Job("j", "q", Lifecycle.Pending, 0, 0, None, None, None, None);
    State(map[0 := NewRow(job, "k")], map[], [], [Event(0, 0, Created)], map[])
  }

  function RunningRow(active: Option<nat>): Row {
    var job := Lifecycle.Job("j", "q", Lifecycle.Running, 0, 0, Some(0), None, None, None);
    Row(job, "k", Some(1), Some(10), None, NoMode, NoMode, active, 0)
  }

  function ClaimedState(): State {
    State(map[0 := RunningRow(None)], map[], [], [Event(0, 0, Created)], map[])
  }

  function BoundState(): State {
    State(map[0 := RunningRow(Some(7))], map[7 := Exec(0, ExecRunning, 0, None)], [], [Event(0, 0, Created)], map[])
  }

  function PausedRow(): Row {
    var job := Lifecycle.Job("j", "q", Lifecycle.AwaitingReview, 0, 0, Some(0), None, None, None);
    Row(job, "k", None, None, None, NoMode, NoMode, Some(7), 0)
  }

  function PausedState(): State {
    State(map[0 := PausedRow()], map[7 := Exec(0, ExecRunning, 0, None)], [],
          [Event(0, 0, Created), Event(1, 0, AwaitingReview)], map[])
  }

  function ReadState(): State {
    PausedState().(reviews := map[0 := Review(0, 7, "r", Request(Reject, "a", None))])
  }

  lemma StepSubmits()
    ensures Apply(Init(), RejectionRun()[0]) == SubmittedState()
  {
    ShortText('j');
    ShortText('q');
    ShortText('k');
  }

  lemma StepClaims()
    ensures Apply(SubmittedState(), RejectionRun()[1]) == ClaimedState()
  {
    ShortText('k');
  }

  lemma StepBinds()
    ensures Apply(ClaimedState(), RejectionRun()[2]) == BoundState()
  {
    ShortText('k');
  }

  lemma StepPauses()
    ensures Apply(BoundState(), RejectionRun()[3]) == PausedState()
  {
    ShortText('k');
  }

  lemma StepReads()
    ensures Apply(PausedState(), RejectionRun()[4]) == ReadState()
  {
    assert Find([], 0, "r").None?;
  }

  lemma RunTake(s: State, steps: seq<Step>, n: nat)
    requires n < |steps|
    ensures Run(s, steps[..n + 1]) == Apply(Run(s, steps[..n]), steps[n])
  {
    assert steps[..n + 1][..n] == steps[..n];
  }

  lemma ClaimReached()
    ensures Run(Init(), RejectionRun()[..2]) == ClaimedState()
  {
    RunTake(Init(), RejectionRun(), 0);
    RunTake(Init(), RejectionRun(), 1);
    assert RejectionRun()[..0] == [];
    StepSubmits();
    StepClaims();
  }

  lemma PauseReached()
    ensures Run(Init(), RejectionRun()[..4]) == PausedState()
  {
    ClaimReached();
    RunTake(Init(), RejectionRun(), 2);
    RunTake(Init(), RejectionRun(), 3);
    StepBinds();
    StepPauses();
  }

  lemma ReadReached()
    ensures Run(Init(), RejectionRun()[..5]) == ReadState()
  {
    PauseReached();
    RunTake(Init(), RejectionRun(), 4);
    StepReads();
  }

  /** What a writing transaction that records anything records. */
  lemma WhatIsRecorded(s: State, call: nat, id: nat, at: int)
    requires call in s.reviews && Apply(s, ReviewWrite(call, id, at)).decisions != s.decisions
    ensures var v := s.reviews[call];
            Apply(s, ReviewWrite(call, id, at)).decisions == s.decisions + [Decision(id, v.job, v.exec, v.key, v.request)]
  {
  }

  lemma ReadStateDecides()
    ensures RowsOk(ReadState()) && ExecsOk(ReadState().execs)
            ==> Apply(ReadState(), ReviewWrite(0, 5, 0)).decisions != []
  {
    var s := ReadState();
    ShortText('r');
    ShortText('a');
    if RowsOk(s) && ExecsOk(s.execs) {
      assert Find(s.decisions, 0, "r").None?;
      DecisionRecordedIff(s, 0, 5, 0);
    }
  }

  lemma OneRejection(ds: seq<Decision>, d: Decision)
    requires ds == [] + [d] && d.request.ruling.Reject?
    ensures Rejected(ds, d.job) == 1
  {
    assert ds[..0] == [];
    assert Rejected(ds, d.job) == Rejected(ds[..0], d.job) + 1;
  }

  /** The failed property on a real input: a rejected, failed job without a terminal event. */
  lemma RejectionHappens()
    ensures var s := Run(Init(), RejectionRun());
            HasStatus(s, 0, Lifecycle.Failed) && Rejected(s.decisions, 0) == 1 && !Terminated(s.outbox, 0)
  {
    var read, s := Run(Init(), RejectionRun()[..5]), Run(Init(), RejectionRun());
    InitInv();
    RunKeepsInv(Init(), RejectionRun()[..5]);
    ReadReached();
    ReadStateDecides();
    WhatIsRecorded(read, 0, 5, 0);
    RunTake(Init(), RejectionRun(), 5);
    assert RejectionRun()[..6] == RejectionRun();
    OneRejection(s.decisions, Decision(5, 0, 7, "r", Request(Reject, "a", None)));
    RejectedIsSilent(RejectionRun());
  }

  /** A rejected job is failed and has no terminal event, in every run. */
  lemma RejectedIsSilent(steps: seq<Step>)
    ensures var s := Run(Init(), steps);
            forall j: nat :: Rejected(s.decisions, j) > 0 ==> HasStatus(s, j, Lifecycle.Failed) && !Terminated(s.outbox, j)
  {
    JobHistory(steps);
    var s := Run(Init(), steps);
    forall j: nat | Rejected(s.decisions, j) > 0 ensures HasStatus(s, j, Lifecycle.Failed) && !Terminated(s.outbox, j) {
      assert Ledger(s, j);
      TerminatedIffCounted(s.outbox, j);
    }
  }
}
