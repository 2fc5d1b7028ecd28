/**
 Jobs, relays, topic and consumers as one system: a job transaction that writes an event appends it to the
 outbox the relays read, and nothing else does. The job ledger supplies the history hypothesis of the
 pipeline, so its conclusions hold of every run without any assumption.
 */
module Platform {
  import opened Events
  import opened Outbox
  import Lifecycle
  import Jobs
  import Relay
  import Pipeline

  datatype State = State(jobs: Jobs.State, pipe: Pipeline.State)

  datatype Step = Work(job: Jobs.Step) | Transport(pipe: Pipeline.Step)

  function Init(): State {
    State(Jobs.Init(), Pipeline.Init())
  }

  predicate IsEnqueue(step: Pipeline.Step) {
    step.Up? && step.u.Enqueue?
  }

  function Apply(s: State, step: Step): State {
    match step
    case Work(w) =>
      var t := Jobs.Apply(s.jobs, w);
      if |t.outbox| > |s.jobs.outbox|
      then State(t, Pipeline.Apply(s.pipe, Pipeline.Up(Relay.Enqueue(t.outbox[|t.outbox| - 1]))))
      else State(t, s.pipe)
    case Transport(p) => if IsEnqueue(p) then s else State(s.jobs, Pipeline.Apply(s.pipe, p))
  }

  function Run(s: State, steps: seq<Step>): State {
    if steps == [] then s else Apply(Run(s, steps[..|steps| - 1]), steps[|steps| - 1])
  }

  ghost predicate Inv(s: State) {
    Jobs.Inv(s.jobs) && Pipeline.Inv(s.pipe) && EventsOf(s.pipe.up.rows) == s.jobs.outbox
  }

  /** A job transaction writes at most one event, at the end. */
  lemma OutboxGrowsByOne(s: Jobs.State, step: Jobs.Step)
    ensures var t := Jobs.Apply(s, step);
            t.outbox == s.outbox || (t.outbox != [] && t.outbox[..|t.outbox| - 1] == s.outbox)
  {
  }

  lemma EnqueueAppends(s: Pipeline.State, e: Event)
    requires forall i :: 0 <= i < |s.up.rows| ==> s.up.rows[i].event.id != e.id
    ensures EventsOf(Pipeline.Apply(s, Pipeline.Up(Relay.Enqueue(e))).up.rows) == EventsOf(s.up.rows) + [e]
  {
  }

  lemma TransportKeepsOutbox(s: Pipeline.State, p: Pipeline.Step)
    requires !IsEnqueue(p)
    ensures EventsOf(Pipeline.Apply(s, p).up.rows) == EventsOf(s.up.rows)
  {
    if p.Up? {
      Relay.StepGrows(s.up, p.u);
      RowsStay(s.up, p.u);
    }
  }

  lemma RowsStay(s: Relay.State, u: Relay.Step)
    requires !u.Enqueue?
    ensures |Relay.Apply(s, u).rows| == |s.rows|
  {
  }

  lemma WorkKeepsInv(s: State, w: Jobs.Step)
    requires Inv(s)
    ensures Inv(Apply(s, Work(w)))
  {
    var t := Jobs.Apply(s.jobs, w);
    Jobs.StepKeepsInv(s.jobs, w);
    OutboxGrowsByOne(s.jobs, w);
    if |t.outbox| > |s.jobs.outbox| {
      var m := |s.jobs.outbox|;
      var e := t.outbox[m];
      Pipeline.StepKeepsInv(s.pipe, Pipeline.Up(Relay.Enqueue(e)));
      forall i | 0 <= i < |s.pipe.up.rows| ensures s.pipe.up.rows[i].event.id != e.id {
        assert s.pipe.up.rows[i].event == s.jobs.outbox[i] && t.outbox[i] == s.jobs.outbox[i];
      }
      EnqueueAppends(s.pipe, e);
      assert t.outbox == s.jobs.outbox + [e];
    }
  }

  lemma StepKeepsInv(s: State, step: Step)
    requires Inv(s)
    ensures Inv(Apply(s, step))
  {
    match step
    case Work(w) => WorkKeepsInv(s, w);
    case Transport(p) =>
      if !IsEnqueue(p) {
        Pipeline.StepKeepsInv(s.pipe, p);
        TransportKeepsOutbox(s.pipe, p);
      }
  }

  lemma {:induction false} RunKeepsInv(s: State, steps: seq<Step>)
    requires Inv(s)
    ensures Inv(Run(s, steps))
  {
    if steps != [] {
      RunKeepsInv(s, steps[..|steps| - 1]);
      StepKeepsInv(Run(s, steps[..|steps| - 1]), steps[|steps| - 1]);
    }
  }

  lemma Reached(steps: seq<Step>)
    ensures Inv(Run(Init(), steps))
  {
    Jobs.InitInv();
    Pipeline.InitInv();
    RunKeepsInv(Init(), steps);
  }

  // ---------- Theorems ----------

  /**
   Exactly once, in order, with no assumption left: in every run of the whole system the applied effects are a
   duplicate-free prefix of the outbox, and the lifecycle violation is never raised.
   */
  lemma ExactlyOnceInOrder(steps: seq<Step>)
    ensures var s := Run(Init(), steps);
            Pipeline.Ordered(s.pipe) && s.pipe.down.applied <= s.jobs.outbox
  {
    Reached(steps);
    Pipeline.OrderedHistory(Run(Init(), steps).pipe);
  }

  lemma {:induction false} CountedIff(es: seq<Event>, j: nat, k: Kind)
    ensures Jobs.Count(es, j, k) >= 1 <==> exists i :: 0 <= i < |es| && es[i].job == j && es[i].kind == k
  {
    if es != [] {
      var m := |es| - 1;
      CountedIff(es[..m], j, k);
      if i :| 0 <= i < |es| && es[i].job == j && es[i].kind == k {
        assert i < m ==> es[..m][i] == es[i];
      }
    }
  }

  lemma {:induction false} ProjectMembers(es: seq<Event>, j: nat)
    ensures j in Project(es) ==> Project(es)[j].job == j && Project(es)[j] in es
  {
    if es != [] {
      ProjectMembers(es[..|es| - 1], j);
    }
  }

  /** What the read model shows of a job is an event of the outbox. */
  lemma ShownIsCounted(s: State, j: nat)
    requires Inv(s) && j in s.pipe.down.projection
    ensures Jobs.Count(s.jobs.outbox, j, s.pipe.down.projection[j].kind) >= 1
  {
    Pipeline.OrderedHistory(s.pipe);
    ProjectMembers(s.pipe.down.applied, j);
    var e := s.pipe.down.projection[j];
    assert e in s.jobs.outbox;
    CountedIff(s.jobs.outbox, j, e.kind);
  }

  /** The read model never runs ahead: a job it shows as completed or failed is so in the job table. */
  lemma ProjectionNeverAhead(steps: seq<Step>, j: nat)
    ensures var s := Run(Init(), steps);
            j in s.pipe.down.projection ==>
              && (s.pipe.down.projection[j].kind.Completed? ==> Jobs.HasStatus(s.jobs, j, Lifecycle.Completed))
              && (s.pipe.down.projection[j].kind.Failed? ==> Jobs.HasStatus(s.jobs, j, Lifecycle.Failed))
  {
    var s := Run(Init(), steps);
    Reached(steps);
    if j in s.pipe.down.projection {
      ShownIsCounted(s, j);
      assert Jobs.Ledger(s.jobs, j);
    }
  }

  /**
   Once everything is published and consumed, the read model agrees with the job table on which jobs completed
   and which failed, except that a job an operator rejected still shows as unfinished.
   */
  lemma DrainedProjection(steps: seq<Step>, j: nat)
    requires var s := Run(Init(), steps).pipe;
             && (forall p :: 0 <= p < |s.up.rows| ==> s.up.rows[p].published)
             && s.down.committed == |s.up.log|
    ensures var s := Run(Init(), steps);
            var shown := s.pipe.down.projection;
            && s.pipe.down.applied == s.jobs.outbox
            && (j in shown && Terminal(shown[j].kind) <==>
                Jobs.HasStatus(s.jobs, j, Lifecycle.Completed)
                || (Jobs.HasStatus(s.jobs, j, Lifecycle.Failed) && Jobs.Rejected(s.jobs.decisions, j) == 0))
  {
    var s := Run(Init(), steps);
    Reached(steps);
    Pipeline.DrainedState(s.pipe);
    AcceptIdentity(s.jobs.outbox);
    ProjectTerminalIff(s.jobs.outbox, j);
    Jobs.TerminatedIffCounted(s.jobs.outbox, j);
    assert Jobs.Ledger(s.jobs, j);
  }

  /** The read model never shows a rejected job as ended, in any run. */
  lemma RejectedNeverShownEnded(steps: seq<Step>, j: nat)
    requires Jobs.Rejected(Run(Init(), steps).jobs.decisions, j) > 0
    ensures var shown := Run(Init(), steps).pipe.down.projection; !(j in shown && Terminal(shown[j].kind))
  {
    var s := Run(Init(), steps);
    Reached(steps);
    if j in s.pipe.down.projection {
      ShownIsCounted(s, j);
      assert Jobs.Ledger(s.jobs, j);
    }
  }

  function Working(steps: seq<Jobs.Step>): (r: seq<Step>)
    ensures |r| == |steps|
  {
    seq(|steps|, i requires 0 <= i < |steps| => Work(steps[i]))
  }

  lemma {:induction false} WorkingRuns(steps: seq<Jobs.Step>)
    ensures Run(Init(), Working(steps)).jobs == Jobs.Run(Jobs.Init(), steps)
  {
    if steps != [] {
      var m := |steps| - 1;
      WorkingRuns(steps[..m]);
      assert Working(steps)[..m] == Working(steps[..m]);
    }
  }

  /** There is such a job: failed in the job table, and never to be shown as ended. */
  lemma RejectedJobExists()
    ensures var s := Run(Init(), Working(Jobs.RejectionRun()));
            Jobs.HasStatus(s.jobs, 0, Lifecycle.Failed) && Jobs.Rejected(s.jobs.decisions, 0) > 0
  {
    WorkingRuns(Jobs.RejectionRun());
    Jobs.RejectionHappens();
  }
}
