/**
 Relays, topic and consumers together. A run is any interleaving of their steps from the empty state;
 every theorem below is about all runs.
 */
module Pipeline {
  import opened Prelude
  import opened Events
  import opened Outbox
  import Relay
  import Consumer

  datatype State = State(up: Relay.State, down: Consumer.State)

  datatype Step = Up(u: Relay.Step) | Down(d: Consumer.Step)

  function Init(): State {
    State(Relay.Init(), Consumer.Init())
  }

  function Apply(s: State, step: Step): State {
    match step
    case Up(u) => s.(up := Relay.Apply(s.up, u))
    case Down(d) => s.(down := Consumer.Apply(s.down, s.up.log, d))
  }

  function Run(s: State, steps: seq<Step>): State {
    if steps == [] then s else Apply(Run(s, steps[..|steps| - 1]), steps[|steps| - 1])
  }

  ghost predicate Inv(s: State) {
    Relay.Inv(s.up) && Consumer.Inv(s.down, s.up.log)
  }

  lemma InitInv()
    ensures Inv(Init())
  {
  }

  lemma StepKeepsInv(s: State, step: Step)
    requires Inv(s)
    ensures Inv(Apply(s, step))
  {
    match step
    case Up(u) =>
      Relay.StepKeepsInv(s.up, u);
      Relay.StepGrows(s.up, u);
      Consumer.LogGrowthKeepsInv(s.down, s.up.log, Apply(s, step).up.log);
    case Down(d) =>
      Relay.LogConsistent(s.up);
      Consumer.StepKeepsInv(s.down, s.up.log, d);
  }

  lemma {:induction false} RunKeepsInv(s: State, steps: seq<Step>)
    requires Inv(s)
    ensures Inv(Run(s, steps))
  {
    if steps != [] {
      RunKeepsInv(s, steps[..|steps| - 1]);
      StepKeepsInv(Run(s, steps[..|steps| - 1]), steps[|steps| - 1]);
    }
  }

  lemma {:induction false} RunIsFold(s: State, steps: seq<Step>)
    ensures Run(s, steps) == Fold(Apply, s, steps)
  {
    if steps != [] {
      RunIsFold(s, steps[..|steps| - 1]);
    }
  }

  lemma RunConcat(s: State, a: seq<Step>, b: seq<Step>)
    ensures Run(s, a + b) == Run(Run(s, a), b)
  {
    RunIsFold(s, a);
    RunIsFold(s, a + b);
    RunIsFold(Run(s, a), b);
    FoldConcat(Apply, s, a, b);
  }

  /** How many outbox positions the settled part of the topic covers. */
  ghost function Covered(s: State): nat
    requires s.down.settled <= |s.up.log|
  {
    |Firsts(s.up.log[..s.down.settled])|
  }

  /** The applied effects in terms of the outbox alone, for any state that keeps the invariant. */
  lemma AppliedFromOutbox(s: State)
    requires Inv(s)
    ensures var n := Covered(s);
            && n <= |s.up.rows|
            && Firsts(s.up.log[..s.down.settled]) == EventsOf(s.up.rows)[..n]
            && s.down.applied == Accept(EventsOf(s.up.rows)[..n])
  {
    FirstsMonotone(s.up.log, s.down.settled);
  }

  // ---------- Theorems ----------

  /**
   End to end, with no assumption on the history: the applied effects are what a fail-closed projection
   accepts of an outbox prefix, in outbox order, no event twice, and the projection is their last
   event per job. Every settled event was applied, or refused because its job had already terminated.
   */
  lemma EndToEnd(steps: seq<Step>)
    ensures var s := Run(Init(), steps);
            && s.down.settled <= |s.up.log|
            && Covered(s) <= |s.up.rows|
            && s.down.applied == Accept(EventsOf(s.up.rows)[..Covered(s)])
            && DistinctIds(s.down.applied)
            && s.down.projection == Project(s.down.applied)
            && forall o: nat :: o < s.down.settled && s.up.log[o].Msg? ==>
                 s.up.log[o].event in s.down.applied || Consumer.Refused(s.down.applied, s.up.log[o].event)
  {
    InitInv();
    RunKeepsInv(Init(), steps);
    var s := Run(Init(), steps);
    AppliedFromOutbox(s);
    AcceptKeepsDistinct(EventsOf(s.up.rows)[..Covered(s)]);
    forall o: nat | o < s.down.settled && s.up.log[o].Msg?
      ensures s.up.log[o].event in s.down.applied || Consumer.Refused(s.down.applied, s.up.log[o].event)
    {
      Consumer.SettledMembers(s.down, s.up.log, o);
    }
  }

  /**
   The effects are an exact outbox prefix if and only if that prefix keeps the lifecycle order, that
   is, no job has an event after its terminal one.
   */
  lemma ExactPrefixIff(steps: seq<Step>)
    ensures var s := Run(Init(), steps);
            && s.down.settled <= |s.up.log|
            && Covered(s) <= |s.up.rows|
            && var prefix := EventsOf(s.up.rows)[..Covered(s)];
               (s.down.applied == prefix <==> HistoryOk(prefix))
  {
    EndToEnd(steps);
    var s := Run(Init(), steps);
    AcceptIsIdentityIff(EventsOf(s.up.rows)[..Covered(s)]);
  }

  /** Session `c` is about to apply a decoded event. */
  ghost predicate HoldsEvent(s: State, c: nat) {
    Consumer.Holds(s.down, s.up.log, c, Consumer.Fetched) && s.up.log[Consumer.HeldOffset(s.down, c)].Msg?
  }

  /** Session `c` is about to poll again and its position is past `o`. */
  ghost predicate PolledPast(s: State, c: nat, o: nat) {
    c in s.down.sessions && s.down.sessions[c].hand.None? && o < s.down.sessions[c].position
  }

  /**
   If no job has an event after its terminal one, the effects are a duplicate-free prefix of the outbox,
   no session ever meets `LifecycleOrderViolationError`, and only undecodable records are dead-lettered.
   */
  lemma NoLifecycleViolation(steps: seq<Step>)
    requires HistoryOk(EventsOf(Run(Init(), steps).up.rows))
    ensures Ordered(Run(Init(), steps))
  {
    InitInv();
    RunKeepsInv(Init(), steps);
    OrderedHistory(Run(Init(), steps));
  }

  /** The effects are an outbox prefix and no lifecycle violation is on record or about to happen. */
  ghost predicate Ordered(s: State) {
    && s.down.applied <= EventsOf(s.up.rows) && DistinctIds(s.down.applied)
    && (forall o: nat :: o in s.down.dead ==> o < |s.up.log| && s.up.log[o].Poison?)
    && (forall c: nat :: HoldsEvent(s, c) ==> !Violates(s, c))
  }

  /** The apply transaction of session `c` would raise the lifecycle violation. */
  ghost predicate Violates(s: State, c: nat) {
    Consumer.Holds(Apply(s, Down(Consumer.ApplyTx(c))).down, s.up.log, c, Consumer.Poisoned)
  }

  lemma OrderedHistory(s: State)
    requires Inv(s) && HistoryOk(EventsOf(s.up.rows))
    ensures Ordered(s)
  {
    var es, n := EventsOf(s.up.rows), Covered(s);
    AppliedFromOutbox(s);
    HistoryOkPrefix(es, n);
    AcceptIsIdentityIff(es[..n]);
    forall o: nat | o in s.down.dead ensures o < |s.up.log| && s.up.log[o].Poison? {
      if s.up.log[o].Msg? {
        NotRefused(s, s.up.log[o].event);
      }
    }
    forall c: nat | HoldsEvent(s, c) ensures !Violates(s, c) {
      NoViolation(s, c);
    }
  }

  lemma NoViolation(s: State, c: nat)
    requires Inv(s) && HistoryOk(EventsOf(s.up.rows)) && HoldsEvent(s, c)
    ensures !Violates(s, c)
  {
    var e := s.up.log[Consumer.HeldOffset(s.down, c)].event;
    assert Msg(e) in s.up.log;
    NotRefused(s, e);
    Relay.LogConsistent(s.up);
    Consumer.RefusesIff(s.down, s.up.log, e);
    Consumer.InboxIff(s.down, s.up.log, e);
  }

  /** In an ordered history no delivered event is ever refused. */
  lemma NotRefused(s: State, e: Event)
    requires Inv(s) && HistoryOk(EventsOf(s.up.rows)) && Msg(e) in s.up.log
    ensures !Consumer.Refused(s.down.applied, e)
  {
    var es, a := EventsOf(s.up.rows), s.down.applied;
    AppliedFromOutbox(s);
    HistoryOkPrefix(es, Covered(s));
    AcceptIdentity(es[..Covered(s)]);
    FirstsMembers(s.up.log);
    assert e in es;
    OrderedPrefixNotRefused(es, Covered(s), e);
  }

  /** In an ordered history, an event whose job terminated within a prefix lies in that prefix. */
  lemma OrderedPrefixNotRefused(es: seq<Event>, n: nat, e: Event)
    requires HistoryOk(es) && n <= |es| && e in es
    ensures !Consumer.Refused(es[..n], e)
  {
    var k :| 0 <= k < |es| && es[k] == e;
    if k < n {
      assert es[..n][k] == e;
    }
  }

  /**
   No lost record, over every run: each offset below the committed offset, and each offset below the
   poll position of any session that is about to poll again, has an inbox row for its event or a
   dead-letter row of its own.
   */
  lemma NoLostRecord(steps: seq<Step>)
    ensures var s := Run(Init(), steps);
            && s.down.committed <= |s.up.log|
            && (forall o: nat :: o < s.down.committed ==> Consumer.Handled(s.down, s.up.log, o))
            && (forall c: nat, o: nat :: PolledPast(s, c, o) ==>
                 o < |s.up.log| && Consumer.Handled(s.down, s.up.log, o))
  {
    InitInv();
    RunKeepsInv(Init(), steps);
    var s := Run(Init(), steps);
    forall c: nat, o: nat | PolledPast(s, c, o)
      ensures o < |s.up.log| && Consumer.Handled(s.down, s.up.log, o)
    {
      assert Consumer.SessionOk(s.down, s.up.log, s.down.sessions[c]);
    }
  }

  /**
   Nothing is lost end to end: once every outbox row is published and the committed offset has reached
   the end of the topic, the whole outbox has been accepted; with an ordered history every event of it
   was applied, exactly once and in order.
   */
  lemma DrainedPipeline(steps: seq<Step>)
    requires var s := Run(Init(), steps);
             && (forall p :: 0 <= p < |s.up.rows| ==> s.up.rows[p].published)
             && s.down.committed == |s.up.log|
    ensures var s := Run(Init(), steps);
            && s.down.applied == Accept(EventsOf(s.up.rows))
            && (s.down.applied == EventsOf(s.up.rows) <==> HistoryOk(EventsOf(s.up.rows)))
  {
    InitInv();
    RunKeepsInv(Init(), steps);
    DrainedState(Run(Init(), steps));
    AcceptIsIdentityIff(EventsOf(Run(Init(), steps).up.rows));
  }

  lemma DrainedState(s: State)
    requires Inv(s) && s.down.committed == |s.up.log|
    requires forall p :: 0 <= p < |s.up.rows| ==> s.up.rows[p].published
    ensures s.down.applied == Accept(EventsOf(s.up.rows))
  {
    AppliedFromOutbox(s);
    assert s.up.log[..s.down.settled] == s.up.log;
    Relay.PublishedCount(s.up);
    assert s.up.rows != [] ==> s.up.rows[|s.up.rows| - 1].published;
    assert EventsOf(s.up.rows)[..Covered(s)] == EventsOf(s.up.rows);
  }
}
