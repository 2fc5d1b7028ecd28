/**
 Any number of outbox relays as a step system: claim, hand to the producer, acknowledge, fenced mark,
 fenced release, crash. The broker may append an event that was once handed over at any later time and
 any number of times, and foreign undecodable records may appear. Clock readings and tokens are step
 parameters with no constraint, and neither is the advisory lock assumed to be exclusive: publication
 order needs none of that.
 */
module Relay {
  import opened Prelude
  import opened Events
  import opened Outbox

  /** Where one `run_once` call stands. `batch[i]` is the record it is working on. */
  datatype Pc =
    | Idle
    | Busy(stage: Stage, token: nat, batch: seq<nat>, i: nat)
    | Releasing(token: nat, rest: seq<nat>)

  datatype Stage =
    | Ready   // about to call the producer
    | Waiting // the producer call is in flight
    | Acked   // the broker confirmed delivery

  datatype State = State(rows: seq<Row>, relays: map<nat, Pc>, handed: set<nat>, log: seq<Record>)

  datatype Step =
    | Enqueue(event: Event)
    | Claim(r: nat, token: nat, at: int, lease: int, size: nat, locked: set<nat>)
    | Hand(r: nat)
    | Deliver(p: nat)
    | Foreign
    | Ack(r: nat)
    | Fail(r: nat)
    | MarkStep(r: nat, at: int)
    | ReleaseStep(r: nat, at: int)
    | Crash(r: nat)

  function Init(): State {
    State([], map[], {}, [])
  }

  function PcOf(s: State, r: nat): Pc {
    if r in s.relays then s.relays[r] else Idle
  }

  function Put(s: State, r: nat, pc: Pc): State {
    s.(relays := s.relays[r := pc])
  }

  predicate Fresh(rows: seq<Row>, e: Event) {
    forall p :: 0 <= p < |rows| ==> rows[p].event.id != e.id
  }

  /** The relay is at this stage of a record of the table. */
  predicate At(s: State, pc: Pc, stage: Stage) {
    pc.Busy? && pc.stage == stage && pc.i < |pc.batch| && pc.batch[pc.i] < |s.rows|
  }

  function Advance(pc: Pc): Pc
    requires pc.Busy?
  {
    if pc.i + 1 < |pc.batch| then Busy(Ready, pc.token, pc.batch, pc.i + 1) else Idle
  }

  /** One atomic step; a step whose guard fails leaves the state unchanged. */
  function Apply(s: State, step: Step): State {
    match step
    case Enqueue(e) => if Fresh(s.rows, e) then s.(rows := s.rows + [NewRow(e)]) else s
    case Claim(r, token, at, lease, size, locked) =>
      if !PcOf(s, r).Idle? || lease <= at || size == 0 then s
      else
        var b := Batch(s.rows, at, size, locked);
        if b == [] then s
        else Put(s.(rows := Stamp(s.rows, b, token, lease)), r, Busy(Ready, token, b, 0))
    case Hand(r) =>
      var pc := PcOf(s, r);
      if At(s, pc, Ready)
      then Put(s.(handed := s.handed + {pc.batch[pc.i]}), r, pc.(stage := Waiting)) else s
    case Deliver(p) =>
      if p in s.handed && p < |s.rows| then s.(log := s.log + [Msg(s.rows[p].event)]) else s
    case Foreign => s.(log := s.log + [Poison])
    case Ack(r) =>
      var pc := PcOf(s, r);
      if At(s, pc, Waiting) && Msg(s.rows[pc.batch[pc.i]].event) in s.log
      then Put(s, r, pc.(stage := Acked)) else s
    case Fail(r) =>
      var pc := PcOf(s, r);
      if At(s, pc, Waiting) then Put(s, r, Releasing(pc.token, pc.batch[pc.i..])) else s
    case MarkStep(r, at) =>
      var pc := PcOf(s, r);
      if !At(s, pc, Acked) then s
      else
        var p := pc.batch[pc.i];
        if Owns(s.rows[p], pc.token, at)
        then Put(s.(rows := Mark(s.rows, p, pc.token, at)), r, Advance(pc))
        else Put(s, r, Releasing(pc.token, pc.batch[pc.i + 1..]))
    case ReleaseStep(r, at) =>
      var pc := PcOf(s, r);
      if !pc.Releasing? then s
      else if pc.rest == [] || pc.rest[0] >= |s.rows| then Put(s, r, Idle)
      else Put(s.(rows := Release(s.rows, pc.rest[0], pc.token, at)), r, Releasing(pc.token, pc.rest[1..]))
    case Crash(r) => Put(s, r, Idle)
  }

  function Run(s: State, steps: seq<Step>): State {
    if steps == [] then s else Apply(Run(s, steps[..|steps| - 1]), steps[|steps| - 1])
  }

  // ---------- The invariant ----------

  ghost predicate Published(s: State, p: nat) {
    p < |s.rows| && s.rows[p].published
  }

  /** Published rows are a prefix of the table and each was delivered first. */
  ghost predicate PublishedOk(s: State) {
    forall p: nat :: Published(s, p) ==> AllPublishedBelow(s.rows, p) && Msg(s.rows[p].event) in s.log
  }

  /** Whatever was handed to the producer had everything below it published. */
  ghost predicate HandedOk(s: State) {
    forall p :: p in s.handed ==> p < |s.rows| && AllPublishedBelow(s.rows, p)
  }

  ghost predicate Contiguous(batch: seq<nat>, n: nat) {
    forall k :: 0 <= k < |batch| ==> batch[k] == batch[0] + k && batch[k] < n
  }

  /** A relay works through a contiguous batch with everything below its current record published. */
  ghost predicate PcOk(s: State, pc: Pc) {
    pc.Busy? ==>
      && pc.i < |pc.batch|
      && Contiguous(pc.batch, |s.rows|)
      && AllPublishedBelow(s.rows, pc.batch[pc.i])
      && (pc.stage.Acked? ==> pc.batch[pc.i] < |s.rows| && Msg(s.rows[pc.batch[pc.i]].event) in s.log)
  }

  ghost predicate PcsOk(s: State) {
    forall r: nat :: PcOk(s, PcOf(s, r))
  }

  /** First occurrences in the topic are the outbox in position order, from the start. */
  ghost predicate LogOrder(s: State) {
    Firsts(s.log) <= EventsOf(s.rows)
  }

  ghost predicate Inv(s: State) {
    && DistinctIds(EventsOf(s.rows))
    && PublishedOk(s) && HandedOk(s) && PcsOk(s) && LogOrder(s)
  }

  // ---------- Preservation ----------

  /** What no step ever takes back. */
  ghost predicate Grows(s: State, t: State) {
    && |s.rows| <= |t.rows|
    && s.log <= t.log
    && s.handed <= t.handed
    && forall p :: 0 <= p < |s.rows| ==>
         t.rows[p].event == s.rows[p].event && (s.rows[p].published ==> t.rows[p].published)
  }

  lemma StepGrows(s: State, step: Step)
    ensures Grows(s, Apply(s, step))
  {
  }

  lemma BelowGrows(s: State, t: State, p: nat)
    requires Grows(s, t) && AllPublishedBelow(s.rows, p)
    ensures AllPublishedBelow(t.rows, p)
  {
  }

  lemma ContiguousGrows(batch: seq<nat>, m: nat, n: nat)
    requires Contiguous(batch, m) && m <= n
    ensures Contiguous(batch, n)
  {
  }

  lemma GrowsKeepsPc(s: State, t: State, pc: Pc)
    requires Grows(s, t) && PcOk(s, pc)
    ensures PcOk(t, pc)
  {
    if pc.Busy? {
      BelowGrows(s, t, pc.batch[pc.i]);
      ContiguousGrows(pc.batch, |s.rows|, |t.rows|);
    }
  }

  /** Only the acting relay's program counter moves. */
  function Actor(step: Step): Option<nat> {
    match step
    case Claim(r, _, _, _, _, _) => Some(r)
    case Hand(r) => Some(r)
    case Ack(r) => Some(r)
    case Fail(r) => Some(r)
    case MarkStep(r, _) => Some(r)
    case ReleaseStep(r, _) => Some(r)
    case Crash(r) => Some(r)
    case Enqueue(_) => None
    case Deliver(_) => None
    case Foreign => None
  }

  lemma OnlyActorMoves(s: State, step: Step, r: nat)
    requires Actor(step) != Some(r)
    ensures PcOf(Apply(s, step), r) == PcOf(s, r)
  {
  }

  /** Nothing is published past the first unpublished row. */
  lemma UnpublishedTail(s: State)
    requires PublishedOk(s)
    ensures forall q :: NextUnpublished(s.rows, 0) <= q < |s.rows| ==> !s.rows[q].published
  {
    var h := NextUnpublished(s.rows, 0);
    forall q | h <= q < |s.rows| ensures !s.rows[q].published {
      assert Published(s, q) ==> AllPublishedBelow(s.rows, q);
      assert !s.rows[h].published;
    }
  }

  lemma ClaimKeepsPc(s: State, step: Step)
    requires step.Claim? && PublishedOk(s) && PcOk(s, PcOf(s, step.r))
    ensures var t := Apply(s, step); PcOk(t, PcOf(t, step.r))
  {
    var t := Apply(s, step);
    StepGrows(s, step);
    if t == s {
      GrowsKeepsPc(s, t, PcOf(s, step.r));
    } else {
      var h := NextUnpublished(s.rows, 0);
      UnpublishedTail(s);
      ClaimRunContiguous(s.rows, h, step.at, step.size, step.locked);
      BelowGrows(s, t, h);
    }
  }

  lemma MarkKeepsPc(s: State, step: Step)
    requires step.MarkStep? && PcOk(s, PcOf(s, step.r))
    ensures var t := Apply(s, step); PcOk(t, PcOf(t, step.r))
  {
    var pc, t := PcOf(s, step.r), Apply(s, step);
    StepGrows(s, step);
    if PcOf(t, step.r).Busy? {
      if t == s {
        GrowsKeepsPc(s, t, pc);
      } else {
        var p := pc.batch[pc.i];
        assert pc.batch[pc.i + 1] == p + 1;
        BelowGrows(s, t, p);
        assert t.rows[p].published;
      }
    }
  }

  lemma StepKeepsPcs(s: State, step: Step)
    requires Inv(s)
    ensures PcsOk(Apply(s, step))
  {
    var t := Apply(s, step);
    StepGrows(s, step);
    forall r: nat ensures PcOk(t, PcOf(t, r)) {
      GrowsKeepsPc(s, t, PcOf(s, r));
      if Actor(step) != Some(r) {
        OnlyActorMoves(s, step, r);
      } else if step.Claim? {
        ClaimKeepsPc(s, step);
      } else if step.MarkStep? {
        MarkKeepsPc(s, step);
      }
    }
  }

  lemma StepKeepsPublished(s: State, step: Step)
    requires Inv(s)
    ensures PublishedOk(Apply(s, step))
  {
    var t := Apply(s, step);
    StepGrows(s, step);
    forall p: nat | Published(t, p) ensures AllPublishedBelow(t.rows, p) && Msg(t.rows[p].event) in t.log {
      if p < |s.rows| && s.rows[p].published {
        assert Published(s, p);
      } else if step.MarkStep? {
        assert PcOk(s, PcOf(s, step.r));
      }
      BelowGrows(s, t, p);
    }
  }

  lemma StepKeepsHanded(s: State, step: Step)
    requires Inv(s)
    ensures HandedOk(Apply(s, step))
  {
    var t := Apply(s, step);
    StepGrows(s, step);
    forall p | p in t.handed ensures p < |t.rows| && AllPublishedBelow(t.rows, p) {
      if p !in s.handed {
        assert PcOk(s, PcOf(s, step.r));
      }
      BelowGrows(s, t, p);
    }
  }

  /** A published position lies within the delivered prefix. */
  lemma PublishedCount(s: State)
    requires Inv(s)
    ensures forall p :: 0 <= p < |s.rows| && s.rows[p].published ==> p < |Firsts(s.log)|
  {
    var d, es := Firsts(s.log), EventsOf(s.rows);
    FirstsMembers(s.log);
    forall p | 0 <= p < |s.rows| && s.rows[p].published ensures p < |d| {
      assert Published(s, p);
      assert es[p] in d;
      var k :| 0 <= k < |d| && d[k] == es[p];
      assert es[k] == d[k];
    }
  }

  /** Delivering a handed position extends the first occurrences by that position or not at all. */
  lemma DeliverInOrder(s: State, p: nat)
    requires Inv(s) && p in s.handed
    ensures s.rows[p].event in Firsts(s.log) || |Firsts(s.log)| == p
  {
    var d := Firsts(s.log);
    assert AllPublishedBelow(s.rows, p);
    PublishedCount(s);
    assert p > 0 ==> s.rows[p - 1].published;
    assert |d| > p ==> d[p] == EventsOf(s.rows)[p];
  }

  lemma DeliverKeepsLogOrder(s: State, p: nat)
    requires Inv(s)
    ensures LogOrder(Apply(s, Deliver(p)))
  {
    if p in s.handed && p < |s.rows| {
      FirstsSnoc(s.log, Msg(s.rows[p].event));
      DeliverInOrder(s, p);
      assert s.rows[p].event == EventsOf(s.rows)[p];
    }
  }

  lemma StepKeepsLogOrder(s: State, step: Step)
    requires Inv(s)
    ensures LogOrder(Apply(s, step))
  {
    if step.Deliver? {
      DeliverKeepsLogOrder(s, step.p);
    } else if step.Foreign? {
      FirstsSnoc(s.log, Poison);
    } else {
      LogUntouched(s, step);
      StepGrows(s, step);
      EventsGrow(s, Apply(s, step));
    }
  }

  lemma EventsGrow(s: State, t: State)
    requires Grows(s, t)
    ensures EventsOf(s.rows) <= EventsOf(t.rows)
  {
  }

  lemma LogUntouched(s: State, step: Step)
    requires !step.Deliver? && !step.Foreign?
    ensures Apply(s, step).log == s.log
  {
  }

  lemma StepKeepsIds(s: State, step: Step)
    requires Inv(s)
    ensures DistinctIds(EventsOf(Apply(s, step).rows))
  {
    var t := Apply(s, step);
    StepGrows(s, step);
    var es, fs := EventsOf(s.rows), EventsOf(t.rows);
    assert |fs| > |es| ==> step.Enqueue?;
    forall i, k | 0 <= i < k < |fs| ensures fs[i].id != fs[k].id {
      assert fs[i] == es[i];
      if k < |es| {
        assert fs[k] == es[k];
      }
    }
  }

  lemma StepKeepsInv(s: State, step: Step)
    requires Inv(s)
    ensures Inv(Apply(s, step))
  {
    StepKeepsIds(s, step);
    StepKeepsPublished(s, step);
    StepKeepsHanded(s, step);
    StepKeepsPcs(s, step);
    StepKeepsLogOrder(s, step);
  }

  lemma {:induction false} RunKeepsInv(s: State, steps: seq<Step>)
    requires Inv(s)
    ensures Inv(Run(s, steps))
  {
    if steps != [] {
      RunKeepsInv(s, steps[..|steps| - 1]);
      StepKeepsInv(Run(s, steps[..|steps| - 1]), steps[|steps| - 1]);
    }
  }

  // ---------- Theorems ----------

  /**
   Relay order, over every run: whenever a relay hands a position to the producer, every lower
   position is already durably published and was delivered before.
   */
  lemma HandsInOrder(steps: seq<Step>, r: nat)
    ensures var s := Run(Init(), steps);
            var pc := PcOf(s, r);
            Apply(s, Hand(r)) != s ==>
              && At(s, pc, Ready)
              && AllPublishedBelow(s.rows, pc.batch[pc.i])
              && forall q :: 0 <= q < pc.batch[pc.i] ==> Msg(s.rows[q].event) in s.log
  {
    var s := Run(Init(), steps);
    RunKeepsInv(Init(), steps);
    var pc := PcOf(s, r);
    if At(s, pc, Ready) {
      assert PcOk(s, pc);
      assert AllPublishedBelow(s.rows, pc.batch[pc.i]);
      forall q | 0 <= q < pc.batch[pc.i] ensures Msg(s.rows[q].event) in s.log {
        assert Published(s, q);
      }
    }
  }

  /** First occurrences in the topic ascend by outbox position with no gap, over every run. */
  lemma LogFollowsOutbox(steps: seq<Step>)
    ensures var s := Run(Init(), steps);
            && Firsts(s.log) <= EventsOf(s.rows)
            && (forall p :: 0 <= p < |s.rows| && s.rows[p].published ==> p < |Firsts(s.log)|)
  {
    var s := Run(Init(), steps);
    RunKeepsInv(Init(), steps);
    PublishedCount(s);
  }

  /**
   Rows must become visible in position order: a row that appears late at index `i` keeps the topic an
   outbox prefix exactly when the topic has not yet reached that index.
   */
  lemma LateRowKeepsOrderIff(s: State, i: nat, e: Event)
    requires Inv(s) && i <= |s.rows| && Fresh(s.rows, e)
    ensures Firsts(s.log) <= EventsOf(s.rows[..i] + [NewRow(e)] + s.rows[i..]) <==> |Firsts(s.log)| <= i
  {
    var d, es, fs := Firsts(s.log), EventsOf(s.rows), EventsOf(s.rows[..i] + [NewRow(e)] + s.rows[i..]);
    assert forall k :: 0 <= k < i ==> fs[k] == es[k];
    assert fs[i] == e;
    if i < |d| {
      assert d[i] == es[i] && es[i].id != e.id;
    }
  }

  lemma LogConsistent(s: State)
    requires Inv(s)
    ensures Consistent(s.log)
  {
    FirstsMembers(s.log);
    var d, es := Firsts(s.log), EventsOf(s.rows);
    forall e, f | Msg(e) in s.log && Msg(f) in s.log && e.id == f.id ensures e == f {
      var i :| 0 <= i < |d| && d[i] == e;
      var k :| 0 <= k < |d| && d[k] == f;
      assert es[i] == e && es[k] == f;
    }
  }

  // ---------- Leases ----------

  /** No relay but `r` works with this token. */
  ghost predicate OthersLack(s: State, r: nat, token: nat) {
    forall q: nat :: q != r && !PcOf(s, q).Idle? ==> PcOf(s, q).token != token
  }

  /** A step of another process, before the lease runs out and not drawing our token. */
  predicate Before(step: Step, r: nat, token: nat, lease: int) {
    && Actor(step) != Some(r)
    && (step.Claim? ==> step.token != token && step.at < lease)
  }

  lemma OthersStillLack(s: State, step: Step, r: nat, token: nat, lease: int)
    requires OthersLack(s, r, token) && Before(step, r, token, lease)
    ensures OthersLack(Apply(s, step), r, token)
  {
    var t := Apply(s, step);
    forall q: nat | q != r && !PcOf(t, q).Idle? ensures PcOf(t, q).token != token {
      if Actor(step) != Some(q) {
        OnlyActorMoves(s, step, q);
      }
    }
  }

  /** The row is claimed under this token and lease and not yet published. */
  predicate Held(s: State, p: nat, token: nat, lease: int) {
    p < |s.rows| && !s.rows[p].published && s.rows[p].token == Some(token) && s.rows[p].lease == Some(lease)
  }

  lemma HeldStays(s: State, step: Step, r: nat, p: nat, token: nat, lease: int)
    requires OthersLack(s, r, token) && Before(step, r, token, lease) && Held(s, p, token, lease)
    ensures Held(Apply(s, step), p, token, lease)
  {
    if step.Claim? {
      ClaimRunClaimable(s.rows, NextUnpublished(s.rows, 0), step.at, step.size, step.locked);
      assert !Claimable(s.rows[p], step.at);
    }
  }

  /**
   A running lease protects a claim: whatever other relays, the broker and writers do, the claimed row stays
   claimed, so its owner's mark before the lease runs out succeeds and publishes it.
   */
  lemma {:induction false} LeaseProtects(s: State, steps: seq<Step>, r: nat, p: nat, token: nat, lease: int)
    requires OthersLack(s, r, token) && Held(s, p, token, lease)
    requires forall i :: 0 <= i < |steps| ==> Before(steps[i], r, token, lease)
    ensures OthersLack(Run(s, steps), r, token) && Held(Run(s, steps), p, token, lease)
    ensures PcOf(Run(s, steps), r) == PcOf(s, r)
    ensures forall at :: at < lease ==> Mark(Run(s, steps).rows, p, token, at)[p].published
  {
    if steps != [] {
      var m := |steps| - 1;
      LeaseProtects(s, steps[..m], r, p, token, lease);
      OthersStillLack(Run(s, steps[..m]), steps[m], r, token, lease);
      HeldStays(Run(s, steps[..m]), steps[m], r, p, token, lease);
      OnlyActorMoves(Run(s, steps[..m]), steps[m], r);
    }
  }
}
