/**
 One shared world for the imperative processes: the outbox table, the topic, and the consumer's durable
 state, with every other process free to act between any two operations of this one. `history` records
 all steps taken, so `Valid` says the world is always the result of a run of the pipeline.
 */
module World {
  import opened Prelude
  import opened Events
  import opened Outbox
  import Relay
  import Consumer
  import Pipeline

  /** Who takes a step. */
  datatype Process = RelayProcess(r: nat) | ConsumerSession(c: nat) | Environment

  function Actor(step: Pipeline.Step): Process {
    match step
    case Up(u) => if Relay.Actor(u).Some? then RelayProcess(Relay.Actor(u).value) else Environment
    case Down(d) => ConsumerSession(d.c)
  }

  /** Published rows stay published, the topic only grows, and so do inbox, effects and dead letters. */
  ghost predicate Grows(s: Pipeline.State, t: Pipeline.State) {
    Relay.Grows(s.up, t.up) && Consumer.Grows(s.down, t.down)
  }

  lemma StepGrows(s: Pipeline.State, step: Pipeline.Step)
    ensures Grows(s, Pipeline.Apply(s, step))
  {
    match step
    case Up(u) => Relay.StepGrows(s.up, u);
    case Down(d) => Consumer.StepGrows(s.down, s.up.log, d);
  }

  lemma GrowsTransitive(s: Pipeline.State, t: Pipeline.State, u: Pipeline.State)
    requires Grows(s, t) && Grows(t, u)
    ensures Grows(s, u)
  {
    forall p | 0 <= p < |s.up.rows|
      ensures u.up.rows[p].event == s.up.rows[p].event && (s.up.rows[p].published ==> u.up.rows[p].published)
    {
      assert t.up.rows[p].event == s.up.rows[p].event;
    }
  }

  /** What belongs to process `me` alone is the same in both states. */
  ghost predicate SameLocal(s: Pipeline.State, t: Pipeline.State, me: Process) {
    match me
    case RelayProcess(r) => Relay.PcOf(s.up, r) == Relay.PcOf(t.up, r)
    case ConsumerSession(c) =>
      && (c in s.down.sessions <==> c in t.down.sessions)
      && (c in s.down.sessions ==> s.down.sessions[c] == t.down.sessions[c])
    case Environment => true
  }

  lemma OthersKeepLocal(s: Pipeline.State, step: Pipeline.Step, me: Process)
    requires Actor(step) != me
    ensures SameLocal(s, Pipeline.Apply(s, step), me)
  {
    match step
    case Up(u) => if me.RelayProcess? { Relay.OnlyActorMoves(s.up, u, me.r); }
    case Down(d) =>
  }

  /** The steps that are not of process `me`. */
  function Foreign(steps: seq<Pipeline.Step>, me: Process): (r: seq<Pipeline.Step>)
    ensures forall i :: 0 <= i < |r| ==> Actor(r[i]) != me && r[i] in steps
  {
    if steps == [] then []
    else
      var last := steps[|steps| - 1];
      Foreign(steps[..|steps| - 1], me) + if Actor(last) != me then [last] else []
  }

  /** What the others do at the next opportunity, and the opportunities left after it. */
  function Tail(schedule: seq<seq<Pipeline.Step>>, me: Process): seq<Pipeline.Step> {
    if schedule == [] then [] else Foreign(schedule[0], me)
  }

  function Rest(schedule: seq<seq<Pipeline.Step>>): seq<seq<Pipeline.Step>> {
    if schedule == [] then [] else schedule[1..]
  }

  lemma GrowsReflexive(s: Pipeline.State)
    ensures Grows(s, s)
  {
  }

  lemma {:induction false} OthersRun(s: Pipeline.State, steps: seq<Pipeline.Step>, me: Process)
    requires forall i :: 0 <= i < |steps| ==> Actor(steps[i]) != me
    ensures Grows(s, Pipeline.Run(s, steps)) && SameLocal(s, Pipeline.Run(s, steps), me)
  {
    if steps == [] {
      GrowsReflexive(s);
    } else {
      var m := |steps| - 1;
      var t := Pipeline.Run(s, steps[..m]);
      OthersRun(s, steps[..m], me);
      StepGrows(t, steps[m]);
      OthersKeepLocal(t, steps[m], me);
      GrowsTransitive(s, t, Pipeline.Apply(t, steps[m]));
    }
  }

  class World {
    var st: Pipeline.State
    var schedule: seq<seq<Pipeline.Step>> // what the other processes do at each opportunity
    ghost var history: seq<Pipeline.Step>

    ghost predicate Valid()
      reads this
    {
      st == Pipeline.Run(Pipeline.Init(), history)
    }

    constructor (others: seq<seq<Pipeline.Step>>)
      ensures Valid() && st == Pipeline.Init() && schedule == others
    {
      st, schedule, history := Pipeline.Init(), others, [];
    }

    /** Every state the world can be in keeps the pipeline invariant. */
    lemma Sound()
      requires Valid()
      ensures Pipeline.Inv(st)
    {
      Pipeline.InitInv();
      Pipeline.RunKeepsInv(Pipeline.Init(), history);
    }

    /** One atomic step of the pipeline. */
    method Take(step: Pipeline.Step)
      requires Valid()
      modifies this
      ensures Valid() && st == Pipeline.Apply(old(st), step)
      ensures history == old(history) + [step] && schedule == old(schedule)
      ensures Grows(old(st), st)
    {
      StepGrows(st, step);
      st := Pipeline.Apply(st, step);
      history := history + [step];
      assert history[..|history| - 1] == old(history);
    }

    /** The other processes run for a while. */
    method Interfere(me: Process)
      requires Valid()
      modifies this
      ensures Valid() && history == old(history) + Tail(old(schedule), me) && schedule == Rest(old(schedule))
      ensures st == Pipeline.Run(old(st), Tail(old(schedule), me))
      ensures Grows(old(st), st) && SameLocal(old(st), st, me)
    {
      var steps := Tail(schedule, me);
      OthersRun(st, steps, me);
      Pipeline.RunConcat(Pipeline.Init(), history, steps);
      st, history, schedule := Pipeline.Run(st, steps), history + steps, Rest(schedule);
    }

    /** The same for a process that needs to know only what it keeps. */
    method Yield(me: Process)
      requires Valid()
      modifies this
      ensures Valid() && old(history) <= history
      ensures Grows(old(st), st) && SameLocal(old(st), st, me)
    {
      Interfere(me);
    }
  }
}
