/**
 The inbox-deduplicating consumer as a step system over a growing topic. Every step is one PostgreSQL
 transaction or one broker call; sessions may overlap (a rebalance), stop at any point, lose the
 acknowledgment of a commit, or keep polling after commit retries ran out. `settled` is a history
 variable: the furthest offset below which some session has durably dealt with every record.
 */
module Consumer {
  import opened Prelude
  import opened Events

  datatype Phase =
    | Fetched      // polled, decodable, not yet applied
    | Poisoned     // classified permanent poison, not yet dead-lettered
    | Settled      // inbox transaction committed (applied or duplicate)
    | DeadLettered // dead-letter row committed

  datatype Hand = Hand(offset: nat, phase: Phase)

  /** A consumer-group member: its in-memory poll position and the record it holds. */
  datatype Session = Session(position: nat, hand: Option<Hand>)

  datatype State = State(
    inbox: set<nat>,
    applied: seq<Event>,
    projection: map<nat, Event>,
    dead: map<nat, nat>, // offset -> dead_letter_delivery_count
    committed: nat,
    sessions: map<nat, Session>,
    settled: nat)

  datatype Step =
    | Join(c: nat)
    | Poll(c: nat)
    | ApplyTx(c: nat)
    | DeadLetterTx(c: nat)
    | CommitLostAck(c: nat)
    | Commit(c: nat)
    | GiveUp(c: nat)
    | Stop(c: nat)

  function Init(): State {
    State({}, [], map[], map[], 0, map[], 0)
  }

  function Max(a: nat, b: nat): nat {
    if a < b then b else a
  }

  /** The session is at this phase with this record of the topic in hand. */
  predicate Holds(s: State, log: seq<Record>, c: nat, ph: Phase) {
    && c in s.sessions && s.sessions[c].hand.Some?
    && s.sessions[c].hand.value.phase == ph && s.sessions[c].hand.value.offset < |log|
  }

  function HeldOffset(s: State, c: nat): nat
    requires c in s.sessions && s.sessions[c].hand.Some?
  {
    s.sessions[c].hand.value.offset
  }

  function SetPhase(s: State, c: nat, ph: Phase): State
    requires c in s.sessions && s.sessions[c].hand.Some?
  {
    s.(sessions := s.sessions[c := s.sessions[c].(hand := Some(Hand(HeldOffset(s, c), ph)))])
  }

  function DropHand(s: State, c: nat): State
    requires c in s.sessions
  {
    s.(sessions := s.sessions[c := s.sessions[c].(hand := None)])
  }

  /** The projection refuses an event for a job whose row is already terminal. */
  predicate Refuses(projection: map<nat, Event>, e: Event) {
    e.job in projection && Terminal(projection[e.job].kind)
  }

  /** `record_and_apply`: duplicate, lifecycle violation (rolled back), or effect plus inbox row. */
  function RecordAndApply(s: State, c: nat, e: Event): State
    requires c in s.sessions && s.sessions[c].hand.Some?
  {
    var o := HeldOffset(s, c);
    if e.id in s.inbox then
      SetPhase(s.(settled := Max(s.settled, o + 1)), c, Settled)
    else if Refuses(s.projection, e) then
      SetPhase(s, c, Poisoned)
    else
      SetPhase(s.(inbox := s.inbox + {e.id}, applied := s.applied + [e],
                  projection := s.projection[e.job := e], settled := Max(s.settled, o + 1)), c, Settled)
  }

  function Upsert(dead: map<nat, nat>, o: nat): map<nat, nat> {
    dead[o := if o in dead then dead[o] + 1 else 1]
  }

  function Apply(s: State, log: seq<Record>, step: Step): State {
    match step
    case Join(c) => s.(sessions := s.sessions[c := Session(s.committed, None)])
    case Poll(c) =>
      if c in s.sessions && s.sessions[c].hand.None? && s.sessions[c].position < |log| then
        var o := s.sessions[c].position;
        var ph := if log[o].Poison? then Poisoned else Fetched;
        s.(sessions := s.sessions[c := Session(o + 1, Some(Hand(o, ph)))])
      else s
    case ApplyTx(c) =>
      if Holds(s, log, c, Fetched) && log[HeldOffset(s, c)].Msg?
      then RecordAndApply(s, c, log[HeldOffset(s, c)].event) else s
    case DeadLetterTx(c) =>
      if Holds(s, log, c, Poisoned) || Holds(s, log, c, DeadLettered) then
        var o := HeldOffset(s, c);
        SetPhase(s.(dead := Upsert(s.dead, o), settled := Max(s.settled, o + 1)), c, DeadLettered)
      else s
    case CommitLostAck(c) =>
      if Holds(s, log, c, Settled) || Holds(s, log, c, DeadLettered)
      then s.(committed := HeldOffset(s, c) + 1) else s
    case Commit(c) =>
      if Holds(s, log, c, Settled) || Holds(s, log, c, DeadLettered)
      then DropHand(s.(committed := HeldOffset(s, c) + 1), c) else s
    case GiveUp(c) => if Holds(s, log, c, Settled) then DropHand(s, c) else s
    case Stop(c) => s.(sessions := s.sessions - {c})
  }

  // ---------- The invariant ----------

  /** The record at `o` has a durable inbox row for its event, or its own dead-letter row. */
  ghost predicate Handled(s: State, log: seq<Record>, o: nat)
    requires o < |log|
  {
    o in s.dead || (log[o].Msg? && log[o].event.id in s.inbox)
  }

  /** Everything the database holds is a function of the settled part of the topic. */
  ghost predicate StoreOk(s: State, log: seq<Record>) {
    && s.settled <= |log|
    && s.applied == Accept(Firsts(log[..s.settled]))
    && s.projection == Project(s.applied)
    && (forall i :: i in s.inbox <==> exists e :: e in s.applied && e.id == i)
  }

  ghost predicate HandledOk(s: State, log: seq<Record>) {
    s.settled <= |log| && forall o: nat :: o < s.settled ==> Handled(s, log, o)
  }

  /** The event came after its job had terminated and will never be applied. */
  ghost predicate Refused(applied: seq<Event>, e: Event) {
    Terminated(applied, e.job) && e !in applied
  }

  /** Dead-letter rows belong to undecodable records and to refused events only. */
  ghost predicate DeadOk(s: State, log: seq<Record>) {
    forall o: nat :: o in s.dead ==> o < |log| && (log[o].Msg? ==> Refused(s.applied, log[o].event))
  }

  ghost predicate HandOk(s: State, log: seq<Record>, h: Hand) {
    && h.offset < |log|
    && match h.phase
       case Fetched => h.offset <= s.settled && log[h.offset].Msg?
       case Poisoned =>
         h.offset <= s.settled && (log[h.offset].Msg? ==> Refused(s.applied, log[h.offset].event))
       case Settled => h.offset < s.settled && log[h.offset].Msg? && log[h.offset].event.id in s.inbox
       case DeadLettered => h.offset < s.settled && h.offset in s.dead
  }

  ghost predicate SessionOk(s: State, log: seq<Record>, n: Session) {
    match n.hand
    case None => n.position <= s.settled
    case Some(h) => n.position == h.offset + 1 && HandOk(s, log, h)
  }

  ghost predicate SessionsOk(s: State, log: seq<Record>) {
    forall c: nat :: c in s.sessions ==> SessionOk(s, log, s.sessions[c])
  }

  ghost predicate Inv(s: State, log: seq<Record>) {
    && StoreOk(s, log) && HandledOk(s, log) && DeadOk(s, log)
    && s.committed <= s.settled
    && SessionsOk(s, log)
  }

  // ---------- The store ----------

  /** Whatever the projection refuses is terminated, and conversely. */
  lemma RefusesIff(s: State, log: seq<Record>, e: Event)
    requires StoreOk(s, log)
    ensures Refuses(s.projection, e) <==> Terminated(s.applied, e.job)
  {
    AcceptHistoryOk(Firsts(log[..s.settled]));
    ProjectTerminalIff(s.applied, e.job);
  }

  /** An event of the settled part was applied, or its job had already terminated. */
  lemma SettledMembers(s: State, log: seq<Record>, o: nat)
    requires StoreOk(s, log) && o < s.settled && log[o].Msg?
    ensures log[o].event in s.applied || Terminated(s.applied, log[o].event.job)
  {
    var pre := log[..s.settled];
    assert pre[o] == log[o];
    FirstsMembers(pre);
    AcceptMembers(Firsts(pre));
  }

  /** Only events of the settled part are applied, each of them once. */
  lemma AppliedMembers(s: State, log: seq<Record>)
    requires StoreOk(s, log)
    ensures forall e :: e in s.applied ==> Msg(e) in log[..s.settled]
  {
    FirstsMembers(log[..s.settled]);
    AcceptMembers(Firsts(log[..s.settled]));
  }

  /** Deduplication by id is deduplication by event. */
  lemma InboxIff(s: State, log: seq<Record>, e: Event)
    requires StoreOk(s, log) && Consistent(log) && Msg(e) in log
    ensures e.id in s.inbox <==> e in s.applied
  {
    AppliedMembers(s, log);
    if e.id in s.inbox {
      var f :| f in s.applied && f.id == e.id;
      assert Msg(f) in log;
    }
  }

  /** What settling one more record adds to the applied effects. */
  lemma SettleOne(s: State, log: seq<Record>)
    requires StoreOk(s, log) && s.settled < |log|
    ensures var r := log[s.settled];
            Accept(Firsts(log[..s.settled + 1])) ==
            if r.Poison? || r.event in s.applied || Terminated(s.applied, r.event.job) then s.applied
            else s.applied + [r.event]
  {
    FirstsTake(log, s.settled);
    if log[s.settled].Msg? {
      AcceptNext(Firsts(log[..s.settled]), log[s.settled].event);
    }
  }

  /** Settling a record that changes no effect. */
  lemma SettleQuietly(s: State, t: State, log: seq<Record>, o: nat)
    requires StoreOk(s, log) && o <= s.settled && o < |log|
    requires log[o].Msg? ==> log[o].event in s.applied || Terminated(s.applied, log[o].event.job)
    requires t.inbox == s.inbox && t.applied == s.applied && t.projection == s.projection
    requires t.settled == Max(s.settled, o + 1)
    ensures StoreOk(t, log)
  {
    if o == s.settled {
      SettleOne(s, log);
    }
  }

  /** Settling the next record by applying its event. */
  lemma SettleApplying(s: State, t: State, log: seq<Record>, e: Event)
    requires StoreOk(s, log) && s.settled < |log| && log[s.settled] == Msg(e)
    requires e !in s.applied && !Terminated(s.applied, e.job)
    requires t.inbox == s.inbox + {e.id} && t.applied == s.applied + [e] && t.projection == s.projection[e.job := e]
    requires t.settled == s.settled + 1
    ensures StoreOk(t, log)
  {
    SettleOne(s, log);
    ProjectSnoc(s.applied, e);
    InboxSnoc(s, log, e);
  }

  // ---------- Preservation ----------

  lemma ApplyKeepsStore(s: State, log: seq<Record>, c: nat)
    requires Inv(s, log) && Consistent(log)
    ensures StoreOk(Apply(s, log, ApplyTx(c)), log)
  {
    if Holds(s, log, c, Fetched) && log[HeldOffset(s, c)].Msg? {
      var o := HeldOffset(s, c);
      var e := log[o].event;
      assert SessionOk(s, log, s.sessions[c]);
      assert log[o] in log;
      RefusesIff(s, log, e);
      InboxIff(s, log, e);
      if o < s.settled {
        SettledMembers(s, log, o);
      }
      var t := RecordAndApply(s, c, e);
      if e.id in s.inbox {
        SettleQuietly(s, t, log, o);
      } else if !Refuses(s.projection, e) {
        SettleApplying(s, t, log, e);
      }
    }
  }

  lemma InboxSnoc(s: State, log: seq<Record>, e: Event)
    requires StoreOk(s, log)
    ensures forall i :: i in s.inbox + {e.id} <==> exists f :: f in s.applied + [e] && f.id == i
  {
    forall i ensures i in s.inbox + {e.id} <==> exists f :: f in s.applied + [e] && f.id == i {
      if i in s.inbox {
        var f :| f in s.applied && f.id == i;
        assert f in s.applied + [e];
      }
      if i == e.id {
        assert e in s.applied + [e];
      }
    }
  }

  lemma DeadLetterKeepsStore(s: State, log: seq<Record>, c: nat)
    requires Inv(s, log)
    ensures StoreOk(Apply(s, log, DeadLetterTx(c)), log)
  {
    if Holds(s, log, c, Poisoned) || Holds(s, log, c, DeadLettered) {
      assert SessionOk(s, log, s.sessions[c]);
      SettleQuietly(s, Apply(s, log, DeadLetterTx(c)), log, HeldOffset(s, c));
    }
  }

  lemma StepKeepsStore(s: State, log: seq<Record>, step: Step)
    requires Inv(s, log) && Consistent(log)
    ensures StoreOk(Apply(s, log, step), log)
  {
    if step.ApplyTx? {
      ApplyKeepsStore(s, log, step.c);
    } else if step.DeadLetterTx? {
      DeadLetterKeepsStore(s, log, step.c);
    }
  }

  /** What no step takes back. */
  ghost predicate Grows(s: State, t: State) {
    && s.settled <= t.settled
    && s.inbox <= t.inbox
    && s.applied <= t.applied
    && s.dead.Keys <= t.dead.Keys
  }

  lemma StepGrows(s: State, log: seq<Record>, step: Step)
    ensures Grows(s, Apply(s, log, step))
  {
  }

  lemma StepKeepsHandled(s: State, log: seq<Record>, step: Step)
    requires Inv(s, log)
    ensures HandledOk(Apply(s, log, step), log)
  {
    var t := Apply(s, log, step);
    StepGrows(s, log, step);
    if t != s && (step.ApplyTx? || step.DeadLetterTx?) {
      assert SessionOk(s, log, s.sessions[step.c]);
    }
    forall o: nat | o < t.settled ensures Handled(t, log, o) {
      if o < s.settled {
        assert Handled(s, log, o);
      }
    }
  }

  lemma TerminatedGrows(es: seq<Event>, fs: seq<Event>, j: nat)
    requires es <= fs
    ensures Terminated(es, j) ==> Terminated(fs, j)
  {
    if Terminated(es, j) {
      var i :| 0 <= i < |es| && es[i].job == j && Terminal(es[i].kind);
      assert fs[i] == es[i];
    }
  }

  /** Once refused, an event stays refused: its job never leaves the terminal row. */
  ghost predicate KeepsRefused(s: State, t: State) {
    forall e :: Refused(s.applied, e) ==> Refused(t.applied, e)
  }

  lemma StepKeepsRefused(s: State, log: seq<Record>, step: Step)
    requires Inv(s, log)
    ensures KeepsRefused(s, Apply(s, log, step))
  {
    var t := Apply(s, log, step);
    if t.applied != s.applied {
      var f := log[HeldOffset(s, step.c)].event;
      assert t.applied == s.applied + [f];
      RefusesIff(s, log, f);
      forall e | Refused(s.applied, e) ensures Refused(t.applied, e) {
        TerminatedGrows(s.applied, t.applied, e.job);
      }
    }
  }

  lemma StepKeepsDead(s: State, log: seq<Record>, step: Step)
    requires Inv(s, log)
    ensures DeadOk(Apply(s, log, step), log)
  {
    var t := Apply(s, log, step);
    StepKeepsRefused(s, log, step);
    if t.dead != s.dead {
      assert SessionOk(s, log, s.sessions[step.c]);
    }
  }

  lemma GrowsKeepsSession(s: State, t: State, log: seq<Record>, n: Session)
    requires Grows(s, t) && KeepsRefused(s, t) && SessionOk(s, log, n)
    ensures SessionOk(t, log, n)
  {
  }

  lemma ActorKeepsSession(s: State, log: seq<Record>, step: Step)
    requires Inv(s, log) && Consistent(log) && step.c in Apply(s, log, step).sessions
    ensures var t := Apply(s, log, step); SessionOk(t, log, t.sessions[step.c])
  {
    var t := Apply(s, log, step);
    if step.c in s.sessions {
      StepGrows(s, log, step);
      StepKeepsRefused(s, log, step);
      assert SessionOk(s, log, s.sessions[step.c]);
      GrowsKeepsSession(s, t, log, s.sessions[step.c]);
    }
    if step.ApplyTx? && t != s {
      var e := log[HeldOffset(s, step.c)].event;
      assert Msg(e) in log;
      RefusesIff(s, log, e);
      InboxIff(s, log, e);
    }
  }

  lemma StepKeepsSessions(s: State, log: seq<Record>, step: Step)
    requires Inv(s, log) && Consistent(log)
    ensures SessionsOk(Apply(s, log, step), log)
  {
    var t := Apply(s, log, step);
    StepGrows(s, log, step);
    StepKeepsRefused(s, log, step);
    forall c: nat | c in t.sessions ensures SessionOk(t, log, t.sessions[c]) {
      if c == step.c {
        ActorKeepsSession(s, log, step);
      } else {
        assert t.sessions[c] == s.sessions[c];
        GrowsKeepsSession(s, t, log, s.sessions[c]);
      }
    }
  }

  lemma StepKeepsCommitted(s: State, log: seq<Record>, step: Step)
    requires Inv(s, log)
    ensures var t := Apply(s, log, step); t.committed <= t.settled
  {
    if step.c in s.sessions {
      assert SessionOk(s, log, s.sessions[step.c]);
    }
  }

  lemma StepKeepsInv(s: State, log: seq<Record>, step: Step)
    requires Inv(s, log) && Consistent(log)
    ensures Inv(Apply(s, log, step), log)
  {
    StepKeepsStore(s, log, step);
    StepKeepsHandled(s, log, step);
    StepKeepsDead(s, log, step);
    StepKeepsCommitted(s, log, step);
    StepKeepsSessions(s, log, step);
  }

  /** The topic growing underneath the consumer changes nothing it has established. */
  lemma LogGrowthKeepsInv(s: State, log: seq<Record>, log': seq<Record>)
    requires Inv(s, log) && log <= log'
    ensures Inv(s, log')
  {
    assert log'[..s.settled] == log[..s.settled];
    forall o: nat | o < s.settled ensures Handled(s, log', o) {
      assert Handled(s, log, o);
    }
    forall c: nat | c in s.sessions ensures SessionOk(s, log', s.sessions[c]) {
      LogGrowthKeepsSession(s, log, log', s.sessions[c]);
    }
  }

  lemma LogGrowthKeepsSession(s: State, log: seq<Record>, log': seq<Record>, n: Session)
    requires SessionOk(s, log, n) && log <= log'
    ensures SessionOk(s, log', n)
  {
    if n.hand.Some? {
      assert log'[n.hand.value.offset] == log[n.hand.value.offset];
    }
  }
}
