/**
 Evaluation runs: one row per execution, profile and attempt, owned by whoever drew its latest ownership
 token. Any interleaving of begin and finalize transactions is allowed, together with arbitrary changes of the
 job rows they consult; a transaction that violates a constraint rolls back as a whole.
 */
module Evaluation {
  import opened Prelude
  import Canonical

  datatype Status = InProgress | Succeeded | Failed

  datatype Slot = Slot(exec: nat, profile: string, attempt: int)

  datatype Dimension = Dimension(name: string, score: real, passed: bool, weight: real)

  datatype RunRow = RunRow(
    id: nat, job: nat, slot: Slot, status: Status, owner: nat, fingerprint: string, claim: nat,
    passed: Option<bool>, score: Option<real>, hint: Option<string>, deadline: int, started: int,
    finished: Option<int>, dimensions: seq<Dimension>)

  /** What a job row contributes: its claim, its bound profile, and the attempt counter. */
  datatype JobRow = JobRow(running: bool, token: Option<nat>, lease: Option<int>, profile: Option<string>, count: nat)

  datatype State = State(jobs: map<nat, JobRow>, execs: map<nat, nat>, runs: seq<RunRow>)

  const MaxAttempts := 4

  datatype Request = Request(slot: Slot, job: nat, fingerprint: string, deadline: int, claim: nat)

  datatype Verdict = Verdict(score: real, passed: bool, dimensions: seq<Dimension>, hint: string)

  datatype Step =
    | Begin(request: Request, now: int, id: nat, owner: nat)
    | Succeed(id: nat, owner: nat, verdict: Verdict, at: int)
    | Fail(id: nat, owner: nat, at: int)
    | AddJob(job: nat)
    | AddExec(exec: nat, job: nat)
    | JobChanged(job: nat, running: bool, token: Option<nat>, lease: Option<int>, profile: Option<string>)

  function Init(): State {
    State(map[], map[], [])
  }

  // ---------- Lookups ----------

  function FindSlot(runs: seq<RunRow>, slot: Slot): (r: Option<nat>)
    ensures r.Some? ==> r.value < |runs| && runs[r.value].slot == slot
    ensures r.None? ==> forall i :: 0 <= i < |runs| ==> runs[i].slot != slot
  {
    if runs == [] then None
    else if runs[|runs| - 1].slot == slot then Some(|runs| - 1)
    else FindSlot(runs[..|runs| - 1], slot)
  }

  function FindId(runs: seq<RunRow>, id: nat): (r: Option<nat>)
    ensures r.Some? ==> r.value < |runs| && runs[r.value].id == id
    ensures r.None? ==> forall i :: 0 <= i < |runs| ==> runs[i].id != id
  {
    if runs == [] then None
    else if runs[|runs| - 1].id == id then Some(|runs| - 1)
    else FindId(runs[..|runs| - 1], id)
  }

  /** The caller holds the job's current claim. */
  predicate HoldsClaim(s: State, j: nat, token: nat, now: int) {
    && j in s.jobs && s.jobs[j].running && s.jobs[j].token == Some(token)
    && s.jobs[j].lease.Some? && s.jobs[j].lease.value > now
  }

  // ---------- Row updates ----------

  function NewRun(q: Request, id: nat, owner: nat, now: int): RunRow {
    RunRow(id, q.job, q.slot, InProgress, owner, q.fingerprint, q.claim, None, None, None, q.deadline, now, None, [])
  }

  function ReclaimedRun(r: RunRow, q: Request, owner: nat, now: int): RunRow {
    r.(status := InProgress, owner := owner, fingerprint := q.fingerprint, claim := q.claim, passed := None,
       score := None, hint := None, deadline := q.deadline, started := now, finished := None, dimensions := [])
  }

  predicate KnownHint(h: string) {
    h == "complete" || h == "terminal" || h == "repair" || h == "await_review" || h == "retry"
  }

  function SucceededRun(r: RunRow, v: Verdict, at: int): RunRow {
    r.(status := Succeeded, passed := Some(v.passed), score := Some(v.score),
       hint := Some(if KnownHint(v.hint) then v.hint else "terminal"), finished := Some(at), dimensions := v.dimensions)
  }

  function FailedRun(r: RunRow, at: int): RunRow {
    r.(status := Failed, passed := None, score := None, hint := Some("terminal"), finished := Some(at), dimensions := [])
  }

  // ---------- Constraints ----------

  predicate DimensionsCheck(ds: seq<Dimension>) {
    && (forall i, k :: 0 <= i < k < |ds| ==> ds[i].name != ds[k].name)
    && (forall i :: 0 <= i < |ds| ==> 0.0 <= ds[i].score <= 1.0 && 0.0 <= ds[i].weight <= 1.0)
  }

  predicate Check(r: RunRow) {
    && r.slot.attempt >= 1
    && (r.score.Some? ==> 0.0 <= r.score.value <= 1.0)
    && DimensionsCheck(r.dimensions)
    && match r.status
       case InProgress => r.finished.None? && r.passed.None? && r.score.None?
       case Succeeded => r.finished.Some? && r.finished.value >= r.started && r.passed.Some? && r.score.Some?
       case Failed => r.finished.Some? && r.finished.value >= r.started
  }

  // ---------- Transactions ----------

  datatype Opening =
    | NotOfJob | ProfileMismatch | Conflict | NoClaim | Busy | CapReached | Refused
    | Replay(i: nat)
    | Reclaim(i: nat, row: RunRow)
    | Create(row: RunRow)

  /** What `begin_or_resume` decides. */
  function Open(s: State, q: Request, now: int, id: nat, owner: nat): Opening {
    if q.slot.exec !in s.execs || s.execs[q.slot.exec] != q.job then NotOfJob
    else if q.job !in s.jobs || s.jobs[q.job].profile != Some(q.slot.profile) then ProfileMismatch
    else
      var found := FindSlot(s.runs, q.slot);
      if found.Some? && s.runs[found.value].status.Succeeded? then
        if s.runs[found.value].fingerprint != q.fingerprint then Conflict else Replay(found.value)
      else if !HoldsClaim(s, q.job, q.claim, now) then NoClaim
      else if found.Some? then
        var r := s.runs[found.value];
        if r.status.InProgress? && now <= r.deadline then Busy
        else if r.fingerprint != q.fingerprint then Conflict
        else Reclaim(found.value, ReclaimedRun(r, q, owner, now))
      else if s.jobs[q.job].count >= MaxAttempts then CapReached
      else if FindId(s.runs, id).Some? || !Check(NewRun(q, id, owner, now)) then Refused
      else Create(NewRun(q, id, owner, now))
  }

  /** The row a finalizing transaction may change: in progress and owned by the token. */
  function Owned(s: State, id: nat, owner: nat): Option<nat> {
    var found := FindId(s.runs, id);
    if found.Some? && s.runs[found.value].status.InProgress? && s.runs[found.value].owner == owner then found else None
  }

  function Put(s: State, i: nat, r: RunRow): State
    requires i < |s.runs|
  {
    if Check(r) then s.(runs := s.runs[i := r]) else s
  }

  /** Adding a row under a new id and slot, and counting it. */
  function Append(s: State, r: RunRow): State
    requires r.job in s.jobs
  {
    s.(runs := s.runs + [r], jobs := s.jobs[r.job := s.jobs[r.job].(count := s.jobs[r.job].count + 1)])
  }

  function Apply(s: State, step: Step): State {
    match step
    case Begin(q, now, id, owner) =>
      (match Open(s, q, now, id, owner)
       case Reclaim(i, row) => if i < |s.runs| then Put(s, i, row) else s
       case Create(row) =>
         if row.job in s.jobs then Append(s, row) else s
       case _ => s)
    case Succeed(id, owner, v, at) =>
      var i := Owned(s, id, owner);
      if i.Some? then Put(s, i.value, SucceededRun(s.runs[i.value], v, at)) else s
    case Fail(id, owner, at) =>
      var i := Owned(s, id, owner);
      if i.Some? then Put(s, i.value, FailedRun(s.runs[i.value], at)) else s
    case AddJob(j) => if j in s.jobs then s else s.(jobs := s.jobs[j := JobRow(false, None, None, None, 0)])
    case AddExec(x, j) => if x in s.execs || j !in s.jobs then s else s.(execs := s.execs[x := j])
    case JobChanged(j, running, token, lease, profile) =>
      if j in s.jobs then s.(jobs := s.jobs[j := JobRow(running, token, lease, profile, s.jobs[j].count)]) else s
  }

  function Run(s: State, steps: seq<Step>): State {
    if steps == [] then s else Apply(Run(s, steps[..|steps| - 1]), steps[|steps| - 1])
  }

  // ---------- The invariant ----------

  /** How many runs the job has. */
  function RunsOf(runs: seq<RunRow>, j: nat): nat {
    if runs == [] then 0 else RunsOf(runs[..|runs| - 1], j) + if runs[|runs| - 1].job == j then 1 else 0
  }

  ghost predicate RowOk(s: State, r: RunRow) {
    && Check(r) && (!r.status.Succeeded? ==> r.dimensions == [])
    && r.slot.exec in s.execs && s.execs[r.slot.exec] == r.job && r.job in s.jobs
  }

  ghost predicate RowsOk(s: State) {
    forall i :: 0 <= i < |s.runs| ==> RowOk(s, s.runs[i])
  }

  ghost predicate UniqueOk(runs: seq<RunRow>) {
    forall i, k :: 0 <= i < k < |runs| ==> runs[i].id != runs[k].id && runs[i].slot != runs[k].slot
  }

  /** The attempt counter is the number of rows, and within the cap. */
  ghost predicate CountOk(s: State) {
    forall j :: j in s.jobs ==> s.jobs[j].count == RunsOf(s.runs, j) && s.jobs[j].count <= MaxAttempts
  }

  ghost predicate NoStrayRuns(s: State) {
    forall j :: j !in s.jobs ==> RunsOf(s.runs, j) == 0
  }

  ghost predicate Inv(s: State) {
    RowsOk(s) && UniqueOk(s.runs) && CountOk(s) && NoStrayRuns(s)
  }

  lemma RunsOfSnoc(runs: seq<RunRow>, r: RunRow, j: nat)
    ensures RunsOf(runs + [r], j) == RunsOf(runs, j) + if r.job == j then 1 else 0
  {
    assert (runs + [r])[..|runs|] == runs;
  }

  lemma {:induction false} RunsOfUpdate(runs: seq<RunRow>, i: nat, r: RunRow, j: nat)
    requires i < |runs| && r.job == runs[i].job
    ensures RunsOf(runs[i := r], j) == RunsOf(runs, j)
  {
    var m := |runs| - 1;
    if i < m {
      RunsOfUpdate(runs[..m], i, r, j);
      assert runs[i := r][..m] == runs[..m][i := r];
    } else {
      assert runs[i := r][..m] == runs[..m];
    }
  }

  /** What a row keeps for good. */
  ghost predicate SameIdentity(r: RunRow, t: RunRow) {
    t.id == r.id && t.job == r.job && t.slot == r.slot && t.fingerprint == r.fingerprint
  }

  /** Replacing a row by one with the same identity that meets the constraints. */
  lemma PutKeepsInv(s: State, i: nat, r: RunRow)
    requires Inv(s) && i < |s.runs| && SameIdentity(s.runs[i], r)
    requires !r.status.Succeeded? ==> r.dimensions == []
    ensures Inv(Put(s, i, r))
  {
    if Check(r) {
      var t := Put(s, i, r);
      forall j ensures RunsOf(t.runs, j) == RunsOf(s.runs, j) {
        RunsOfUpdate(s.runs, i, r, j);
      }
      forall k | 0 <= k < |t.runs| ensures RowOk(t, t.runs[k]) {
        assert RowOk(s, s.runs[k]) && RowOk(s, s.runs[i]);
      }
    }
  }

  lemma AppendKeepsInv(s: State, r: RunRow)
    requires Inv(s) && RowOk(s, r) && FindId(s.runs, r.id).None? && FindSlot(s.runs, r.slot).None?
    requires s.jobs[r.job].count < MaxAttempts
    ensures Inv(Append(s, r))
  {
    AppendKeepsRows(s, r);
    AppendKeepsCounts(s, r);
    AppendKeepsUnique(s.runs, r);
  }

  lemma AppendKeepsRows(s: State, r: RunRow)
    requires RowsOk(s) && RowOk(s, r)
    ensures RowsOk(Append(s, r))
  {
    var t := Append(s, r);
    forall k | 0 <= k < |t.runs| ensures RowOk(t, t.runs[k]) {
      assert k < |s.runs| ==> RowOk(s, s.runs[k]);
    }
  }

  lemma AppendKeepsCounts(s: State, r: RunRow)
    requires CountOk(s) && NoStrayRuns(s) && r.job in s.jobs && s.jobs[r.job].count < MaxAttempts
    ensures CountOk(Append(s, r)) && NoStrayRuns(Append(s, r))
  {
    forall j ensures RunsOf(s.runs + [r], j) == RunsOf(s.runs, j) + if j == r.job then 1 else 0 {
      RunsOfSnoc(s.runs, r, j);
    }
  }

  lemma AppendKeepsUnique(runs: seq<RunRow>, r: RunRow)
    requires UniqueOk(runs) && FindId(runs, r.id).None? && FindSlot(runs, r.slot).None?
    ensures UniqueOk(runs + [r])
  {
  }

  /** Steps of the surroundings leave the runs alone and add jobs and executions only. */
  lemma SurroundingsKeepInv(s: State, t: State)
    requires Inv(s) && t.runs == s.runs
    requires forall j :: j in s.jobs ==> j in t.jobs && t.jobs[j].count == s.jobs[j].count
    requires forall j :: j in t.jobs && j !in s.jobs ==> t.jobs[j].count == 0
    requires forall x :: x in s.execs ==> x in t.execs && t.execs[x] == s.execs[x]
    ensures Inv(t)
  {
    forall k | 0 <= k < |t.runs| ensures RowOk(t, t.runs[k]) {
      assert RowOk(s, s.runs[k]);
    }
  }

  lemma StepKeepsInv(s: State, step: Step)
    requires Inv(s)
    ensures Inv(Apply(s, step))
  {
    match step
    case Begin(q, now, id, owner) =>
      var o := Open(s, q, now, id, owner);
      if o.Reclaim? {
        PutKeepsInv(s, o.i, o.row);
      } else if o.Create? {
        AppendKeepsInv(s, o.row);
      }
    case Succeed(id, owner, v, at) =>
      var i := Owned(s, id, owner);
      if i.Some? {
        PutKeepsInv(s, i.value, SucceededRun(s.runs[i.value], v, at));
      }
    case Fail(id, owner, at) =>
      var i := Owned(s, id, owner);
      if i.Some? {
        PutKeepsInv(s, i.value, FailedRun(s.runs[i.value], at));
      }
    case _ => SurroundingsKeepInv(s, Apply(s, step));
  }

  lemma {:induction false} RunKeepsInv(s: State, steps: seq<Step>)
    requires Inv(s)
    ensures Inv(Run(s, steps))
  {
    if steps != [] {
      RunKeepsInv(s, steps[..|steps| - 1]);
      StepKeepsInv(Run(s, steps[..|steps| - 1]), steps[|steps| - 1]);
    }
  }

  // ---------- Theorems ----------

  /**
   Over every interleaving: each job's attempt counter is exactly its number of runs and at most four, every
   row meets its constraints, and only succeeded runs have dimension rows.
   */
  lemma AttemptsConserved(steps: seq<Step>)
    ensures var s := Run(Init(), steps);
            && (forall j :: j in s.jobs ==> s.jobs[j].count == RunsOf(s.runs, j) && s.jobs[j].count <= 4)
            && (forall i :: 0 <= i < |s.runs| ==>
                  Check(s.runs[i]) && (s.runs[i].dimensions != [] ==> s.runs[i].status.Succeeded?))
            && UniqueOk(s.runs)
  {
    RunKeepsInv(Init(), steps);
    var s := Run(Init(), steps);
    forall i | 0 <= i < |s.runs|
      ensures Check(s.runs[i]) && (s.runs[i].dimensions != [] ==> s.runs[i].status.Succeeded?)
    {
      assert RowOk(s, s.runs[i]);
    }
  }

  /** How one step may change one row. */
  lemma RowChange(s: State, step: Step, i: nat)
    requires i < |s.runs|
    ensures i < |Apply(s, step).runs|
    ensures var r, t := s.runs[i], Apply(s, step).runs[i];
            && SameIdentity(r, t)
            && (r.status.Succeeded? ==> t == r)
            && (t != r && !step.Begin? ==> r.status.InProgress? && (step.Succeed? || step.Fail?) && step.owner == r.owner)
            && (t.owner == r.owner || (step.Begin? && t.owner == step.owner))
            && (t.status.InProgress? && !r.status.InProgress? ==> step.Begin? && t.owner == step.owner)
  {
  }

  /** A row keeps its job, its slot and its input fingerprint for good. */
  lemma {:induction false} IdentityForever(s: State, steps: seq<Step>, i: nat)
    requires i < |s.runs|
    ensures i < |Run(s, steps).runs| && SameIdentity(s.runs[i], Run(s, steps).runs[i])
  {
    if steps != [] {
      var m := |steps| - 1;
      IdentityForever(s, steps[..m], i);
      RowChange(Run(s, steps[..m]), steps[m], i);
    }
  }

  /** A succeeded row never changes again. */
  lemma {:induction false} SucceededForever(s: State, steps: seq<Step>, i: nat)
    requires i < |s.runs| && s.runs[i].status.Succeeded?
    ensures i < |Run(s, steps).runs| && Run(s, steps).runs[i] == s.runs[i]
  {
    if steps != [] {
      var m := |steps| - 1;
      SucceededForever(s, steps[..m], i);
      RowChange(Run(s, steps[..m]), steps[m], i);
    }
  }

  /** The token can no longer finalize the row. */
  predicate Spent(r: RunRow, owner: nat) {
    r.owner != owner || !r.status.InProgress?
  }

  /**
   A token that has finalized a run, or whose run was reclaimed, never finalizes it again, in any continuation
   in which no begin draws the same token a second time.
   */
  lemma {:induction false} SpentForever(s: State, steps: seq<Step>, i: nat, owner: nat)
    requires i < |s.runs| && Spent(s.runs[i], owner)
    requires forall k :: 0 <= k < |steps| && steps[k].Begin? ==> steps[k].owner != owner
    ensures i < |Run(s, steps).runs| && Spent(Run(s, steps).runs[i], owner)
  {
    if steps != [] {
      var m := |steps| - 1;
      SpentForever(s, steps[..m], i, owner);
      RowChange(Run(s, steps[..m]), steps[m], i);
    }
  }

  /** A finalize with a spent or foreign token changes nothing. */
  lemma SpentTokenWritesNothing(s: State, i: nat, step: Step)
    requires UniqueOk(s.runs) && i < |s.runs| && (step.Succeed? || step.Fail?) && step.id == s.runs[i].id
    requires Spent(s.runs[i], step.owner)
    ensures Apply(s, step) == s
  {
    var found := FindId(s.runs, step.id);
    assert found == Some(i);
  }

  /** Finalizing spends the token. */
  lemma FinalizeSpends(s: State, step: Step, i: nat)
    requires UniqueOk(s.runs) && i < |s.runs| && (step.Succeed? || step.Fail?) && step.id == s.runs[i].id
    requires Apply(s, step) != s
    ensures Spent(Apply(s, step).runs[i], step.owner) && !Spent(s.runs[i], step.owner)
  {
    assert FindId(s.runs, step.id) == Some(i);
  }

  /** Writing a finished row changes the table and leaves nothing for any token to finalize. */
  lemma PutFinalizes(s: State, i: nat, r: RunRow)
    requires UniqueOk(s.runs) && i < |s.runs| && s.runs[i].status.InProgress?
    requires r.id == s.runs[i].id && r.slot == s.runs[i].slot && !r.status.InProgress? && Check(r)
    ensures Put(s, i, r) != s && forall owner :: Owned(Put(s, i, r), r.id, owner).None?
  {
    var t := Put(s, i, r);
    assert t.runs[i] == r;
    assert FindId(t.runs, r.id) == Some(i);
  }

  /**
   The constraints refuse the owner's success exactly when the clock ran backwards past the start or a score,
   weight or dimension name is out of bounds, and its failure exactly when the clock did; a reclaim is never
   refused.
   */
  lemma FinalizeRefusedIff(s: State, i: nat, v: Verdict, at: int)
    requires Inv(s) && i < |s.runs| && s.runs[i].status.InProgress?
    ensures var r := s.runs[i];
            && (Apply(s, Succeed(r.id, r.owner, v, at)) == s <==>
                  at < r.started || !(0.0 <= v.score <= 1.0) || !DimensionsCheck(v.dimensions))
            && (Apply(s, Fail(r.id, r.owner, at)) == s <==> at < r.started)
  {
    var r := s.runs[i];
    assert FindId(s.runs, r.id) == Some(i);
    assert RowOk(s, r);
    var t := Apply(s, Succeed(r.id, r.owner, v, at));
    assert Check(SucceededRun(r, v, at)) ==> t.runs[i] == SucceededRun(r, v, at);
    var u := Apply(s, Fail(r.id, r.owner, at));
    assert Check(FailedRun(r, at)) ==> u.runs[i] == FailedRun(r, at);
  }

  lemma ReclaimNeverRefused(s: State, q: Request, now: int, id: nat, owner: nat)
    requires Inv(s) && Open(s, q, now, id, owner).Reclaim?
    ensures var o := Open(s, q, now, id, owner);
            && Check(o.row) && Apply(s, Begin(q, now, id, owner)).runs[o.i] == o.row
            && Apply(s, Begin(q, now, id, owner)).jobs == s.jobs
  {
    var o := Open(s, q, now, id, owner);
    assert RowOk(s, s.runs[o.i]);
  }

  // ---------- Who may begin, and who may take over ----------

  /** Row `i` is the run of this slot. */
  predicate RunOfSlot(s: State, q: Request, i: nat) {
    i < |s.runs| && s.runs[i].slot == q.slot
  }

  /** The execution is the job's and the job is bound to the profile. */
  predicate Admitted(s: State, q: Request) {
    && q.slot.exec in s.execs && s.execs[q.slot.exec] == q.job
    && q.job in s.jobs && s.jobs[q.job].profile == Some(q.slot.profile)
  }

  /** The caller's token is the job's, which is running under a lease later than `now`. */
  predicate ClaimProven(s: State, q: Request, now: int) {
    && q.job in s.jobs && s.jobs[q.job].running && s.jobs[q.job].token == Some(q.claim)
    && s.jobs[q.job].lease.Some? && now < s.jobs[q.job].lease.value
  }

  /** A run in progress whose deadline has not passed. */
  predicate Live(r: RunRow, now: int) {
    r.status == InProgress && now <= r.deadline
  }

  lemma FoundSlot(s: State, q: Request, i: nat)
    requires UniqueOk(s.runs) && RunOfSlot(s, q, i)
    ensures FindSlot(s.runs, q.slot) == Some(i)
  {
  }

  /** A live run is nobody else's: no begin whose clock is within its deadline changes it. */
  lemma LiveRunStands(s: State, q: Request, now: int, id: nat, owner: nat, i: nat)
    requires UniqueOk(s.runs) && i < |s.runs| && s.runs[i].status == InProgress && now <= s.runs[i].deadline
    ensures i < |Apply(s, Begin(q, now, id, owner)).runs| && Apply(s, Begin(q, now, id, owner)).runs[i] == s.runs[i]
  {
    if RunOfSlot(s, q, i) {
      FoundSlot(s, q, i);
    }
  }

  /** A step that is a finalize of this run by its owner. */
  predicate OwnFinalize(step: Step, r: RunRow) {
    (step.Succeed? || step.Fail?) && step.id == r.id && step.owner == r.owner
  }

  /**
   A run in progress stays as it is, with its owner, in every continuation whose begins all come within its deadline, until
   its owner finalizes it.
   */
  lemma {:induction false} OwnerKeepsRun(s: State, steps: seq<Step>, i: nat)
    requires Inv(s) && i < |s.runs| && s.runs[i].status == InProgress
    requires forall k :: 0 <= k < |steps| ==>
               (steps[k].Begin? ==> steps[k].now <= s.runs[i].deadline) && !OwnFinalize(steps[k], s.runs[i])
    ensures i < |Run(s, steps).runs| && Run(s, steps).runs[i] == s.runs[i]
  {
    if steps != [] {
      var m := |steps| - 1;
      OwnerKeepsRun(s, steps[..m], i);
      RunKeepsInv(s, steps[..m]);
      var t := Run(s, steps[..m]);
      if steps[m].Begin? {
        LiveRunStands(t, steps[m].request, steps[m].now, steps[m].id, steps[m].owner, i);
      } else {
        OthersKeepRun(t, steps[m], i);
      }
    }
  }

  lemma OthersKeepRun(s: State, step: Step, i: nat)
    requires UniqueOk(s.runs) && i < |s.runs| && !step.Begin? && !OwnFinalize(step, s.runs[i])
    ensures i < |Apply(s, step).runs| && Apply(s, step).runs[i] == s.runs[i]
  {
  }

  /**
   Taking over: the holder of the job's claim, with the same input, becomes the owner of a failed run, or of a run in
   progress whose deadline has passed, with a fresh deadline and no results.
   */
  lemma TakeOver(s: State, q: Request, now: int, id: nat, owner: nat, i: nat)
    requires Inv(s) && RunOfSlot(s, q, i) && Admitted(s, q) && ClaimProven(s, q, now)
    requires s.runs[i].fingerprint == q.fingerprint
    requires s.runs[i].status == Failed || (s.runs[i].status == InProgress && s.runs[i].deadline < now)
    ensures var t := Apply(s, Begin(q, now, id, owner));
            && |t.runs| == |s.runs| && t.jobs == s.jobs
            && t.runs[i] == s.runs[i].(status := InProgress, owner := owner, claim := q.claim, passed := None, score := None,
                                       hint := None, deadline := q.deadline, started := now, finished := None, dimensions := [])
  {
    FoundSlot(s, q, i);
    ReclaimNeverRefused(s, q, now, id, owner);
  }

  /** No row for the slot. */
  ghost predicate NoRun(s: State, q: Request) {
    forall i :: 0 <= i < |s.runs| ==> s.runs[i].slot != q.slot
  }

  /** Some row of the slot, with the given status test. */
  ghost predicate SlotIs(s: State, q: Request, st: Status) {
    exists i: nat :: RunOfSlot(s, q, i) && s.runs[i].status == st
  }

  ghost predicate SlotLive(s: State, q: Request, now: int) {
    exists i: nat :: RunOfSlot(s, q, i) && Live(s.runs[i], now)
  }

  ghost predicate OtherInput(s: State, q: Request) {
    exists i: nat :: RunOfSlot(s, q, i) && s.runs[i].fingerprint != q.fingerprint
  }

  /** The slot's run is over, or open to the caller. */
  ghost predicate Decided(s: State, q: Request, now: int) {
    SlotIs(s, q, Succeeded) || (ClaimProven(s, q, now) && !SlotLive(s, q, now))
  }

  /** What decides a begin once the slot's row is known. */
  lemma OpenOfRow(s: State, q: Request, now: int, id: nat, owner: nat, i: nat)
    requires UniqueOk(s.runs) && RunOfSlot(s, q, i) && Admitted(s, q)
    ensures var o := Open(s, q, now, id, owner);
            var r := s.runs[i];
            if r.status == Succeeded then o == if r.fingerprint != q.fingerprint then Conflict else Replay(i)
            else if !ClaimProven(s, q, now) then o == NoClaim
            else if Live(r, now) then o == Busy
            else if r.fingerprint != q.fingerprint then o == Conflict
            else o.Reclaim? && o.i == i
    ensures SlotIs(s, q, Succeeded) <==> s.runs[i].status == Succeeded
    ensures SlotLive(s, q, now) <==> Live(s.runs[i], now)
    ensures OtherInput(s, q) <==> s.runs[i].fingerprint != q.fingerprint
  {
    FoundSlot(s, q, i);
  }

  lemma OpenOfNone(s: State, q: Request, now: int, id: nat, owner: nat)
    requires NoRun(s, q) && Admitted(s, q)
    ensures var o := Open(s, q, now, id, owner);
            if !ClaimProven(s, q, now) then o == NoClaim
            else if s.jobs[q.job].count >= 4 then o == CapReached
            else o == Refused || o.Create?
    ensures !SlotIs(s, q, Succeeded) && !SlotLive(s, q, now) && !OtherInput(s, q)
  {
    assert FindSlot(s.runs, q.slot).None?;
  }

  /** A begin on a slot without a run, by the holder of the job's claim and below the cap, adds its own row and counts it. */
  lemma FreshRun(s: State, q: Request, now: int, id: nat, owner: nat)
    requires Admitted(s, q) && ClaimProven(s, q, now) && NoRun(s, q) && s.jobs[q.job].count < 4
    requires q.slot.attempt >= 1 && forall i :: 0 <= i < |s.runs| ==> s.runs[i].id != id
    ensures var t := Apply(s, Begin(q, now, id, owner));
            && t.runs == s.runs + [RunRow(id, q.job, q.slot, InProgress, owner, q.fingerprint, q.claim, None, None, None,
                                          q.deadline, now, None, [])]
            && t.jobs == s.jobs[q.job := s.jobs[q.job].(count := s.jobs[q.job].count + 1)]
  {
    assert FindSlot(s.runs, q.slot).None?;
    assert FindId(s.runs, id).None?;
  }

  /** Why a begin is turned away, each reason as an equivalence over the rows. */
  lemma TurnedAwayIff(s: State, q: Request, now: int, id: nat, owner: nat)
    requires UniqueOk(s.runs)
    ensures var o := Open(s, q, now, id, owner);
            && ((o == NotOfJob || o == ProfileMismatch) <==> !Admitted(s, q))
            && (o == NoClaim <==> Admitted(s, q) && !ClaimProven(s, q, now) && !SlotIs(s, q, Succeeded))
            && (o == Busy <==> Admitted(s, q) && ClaimProven(s, q, now) && SlotLive(s, q, now))
            && (o == Conflict <==> Admitted(s, q) && OtherInput(s, q) && Decided(s, q, now))
            && (o == CapReached <==> Admitted(s, q) && ClaimProven(s, q, now) && NoRun(s, q) && s.jobs[q.job].count >= 4)
            && (o.Replay? <==> Admitted(s, q) && SlotIs(s, q, Succeeded) && !OtherInput(s, q))
  {
    if Admitted(s, q) {
      if i: nat :| RunOfSlot(s, q, i) {
        OpenOfRow(s, q, now, id, owner, i);
      } else {
        forall i | 0 <= i < |s.runs| ensures s.runs[i].slot != q.slot {
          assert !RunOfSlot(s, q, i);
        }
        OpenOfNone(s, q, now, id, owner);
      }
    }
  }

  // ---------- Replay ----------

  datatype Result = Result(
    id: nat, slot: Slot, fingerprint: string, passed: Option<bool>, score: Option<real>, hint: Option<string>,
    dimensions: seq<Dimension>)

  function NameLeq(): (Dimension, Dimension) -> bool {
    (a: Dimension, b: Dimension) => Canonical.StringLeq()(a.name, b.name)
  }

  /** `list_dimensions`: the rows of a run in the order of their names. */
  function ListDimensions(r: RunRow): seq<Dimension> {
    Canonical.Sort(NameLeq(), r.dimensions)
  }

  ghost predicate SortedByName(ds: seq<Dimension>) {
    Canonical.Sorted(NameLeq(), ds)
  }

  /** `to_result`: only two of the hints are reported, and the dimensions come sorted by name. */
  function ToResult(r: RunRow): Result {
    var hint := if r.hint == Some("complete") || r.hint == Some("terminal") then r.hint else None;
    Result(r.id, r.slot, r.fingerprint, r.passed, r.score, hint, ListDimensions(r))
  }

  /**
   After a success, every later begin for the slot replays the very result the finalizer returned, if the
   input is the same and the job is still bound to the profile, and is a conflict for any other input.
   */
  lemma ReplayForever(s: State, steps: seq<Step>, i: nat, q: Request, now: int, id: nat, owner: nat)
    requires Inv(s) && i < |s.runs| && s.runs[i].status.Succeeded? && q.slot == s.runs[i].slot && q.job == s.runs[i].job
    ensures var t := Run(s, steps);
            && i < |t.runs| && q.job in t.jobs
            && (t.jobs[q.job].profile == Some(q.slot.profile) ==>
                  if q.fingerprint == s.runs[i].fingerprint
                  then Open(t, q, now, id, owner) == Replay(i) && ToResult(t.runs[i]) == ToResult(s.runs[i])
                  else Open(t, q, now, id, owner) == Conflict)
  {
    SucceededForever(s, steps, i);
    RunKeepsInv(s, steps);
    var t := Run(s, steps);
    assert RowOk(t, t.runs[i]);
    assert FindSlot(t.runs, q.slot) == Some(i);
  }

  lemma NamePreorder()
    ensures Canonical.TotalPreorder(NameLeq())
  {
    Canonical.OrdersTotal();
    var leq := Canonical.StringLeq();
    forall a: Dimension, b: Dimension ensures NameLeq()(a, b) || NameLeq()(b, a) {
      assert leq(a.name, b.name) || leq(b.name, a.name);
    }
    forall a: Dimension, b: Dimension, c: Dimension | NameLeq()(a, b) && NameLeq()(b, c) ensures NameLeq()(a, c) {
      assert leq(a.name, b.name) && leq(b.name, c.name);
    }
  }

  lemma HintsDiffer()
    ensures "complete" != "terminal" && "repair" != "terminal" && "await_review" != "terminal" && "retry" != "terminal"
  {
    assert "terminal"[0] == 't' && "complete"[0] == 'c' && "repair"[0] == 'r' && "await_review"[0] == 'a' && "retry"[0] == 'r';
  }

  /** The verdict as a reader of the result sees it. */
  function VerdictOf(back: Result): Option<Verdict> {
    if back.score.Some? && back.passed.Some? && back.hint.Some?
    then Some(Verdict(back.score.value, back.passed.value, back.dimensions, back.hint.value)) else None
  }

  /**
   The round trip of a verdict through its row: score and pass always come back; the dimensions come back as their
   rearrangement in name order; the whole verdict comes back unchanged exactly if its hint is one of the two reported
   ones and its dimensions were in name order already.
   */
  lemma VerdictRoundTripIff(r: RunRow, v: Verdict, at: int)
    ensures var back := ToResult(SucceededRun(r, v, at));
            && back.passed == Some(v.passed) && back.score == Some(v.score)
            && SortedByName(back.dimensions) && multiset(back.dimensions) == multiset(v.dimensions)
            && (back.dimensions == v.dimensions <==> SortedByName(v.dimensions))
            && (back.hint == Some(v.hint) <==> v.hint == "complete" || v.hint == "terminal")
            && (VerdictOf(back) == Some(v) <==> (v.hint == "complete" || v.hint == "terminal") && SortedByName(v.dimensions))
  {
    HintsDiffer();
    NamePreorder();
    Canonical.SortSorts(NameLeq(), v.dimensions);
    Canonical.SortFixedIff(NameLeq(), v.dimensions);
  }

  /** The graders' order, in which a run's dimensions are written. */
  function GraderOrder(): seq<string> {
    ["citation_integrity", "tool_use", "report_structure", "coverage", "completeness", "lexical_id_groundedness",
     "semantic_groundedness"]
  }

  /** The graders write their dimensions in an order of their own, so no graded verdict comes back as it was written. */
  lemma GradedVerdictIsReordered(r: RunRow, v: Verdict, at: int)
    requires |v.dimensions| == 7 && forall i :: 0 <= i < 7 ==> v.dimensions[i].name == GraderOrder()[i]
    ensures ToResult(SucceededRun(r, v, at)).dimensions != v.dimensions
    ensures VerdictOf(ToResult(SucceededRun(r, v, at))) != Some(v)
  {
    var t, u := v.dimensions[1], v.dimensions[2];
    assert t.name == "tool_use" && u.name == "report_structure";
    assert t.name[0] == 't' && u.name[0] == 'r';
    Canonical.FirstCharDecides(t.name, u.name);
    assert !NameLeq()(t, u);
    VerdictRoundTripIff(r, v, at);
  }
}
