/** `OutboxRelay.run_once`: claim, publish outside the transaction, then fenced mark or release. */
module OutboxRelay {
  import opened Prelude
  import opened Outbox
  import opened World
  import Relay
  import Pipeline

  datatype Outcome = Empty | Published | RecoverableFailure | FatalFailure | OwnershipLost | UnexpectedFailure

  /** How a producer call ends: broker-confirmed delivery, or one of the three kinds of exception. */
  datatype PublishResult = Confirmed | Recoverable | Fatal | Unexpected

  function FailureOutcome(r: PublishResult): Outcome {
    match r
    case Fatal => FatalFailure
    case Unexpected => UnexpectedFailure
    case _ => RecoverableFailure
  }

  /** Why a batch ended early: the call failed, or it was confirmed and the fenced mark found the claim gone. */
  function StopOutcome(r: PublishResult): Outcome {
    if r.Confirmed? then OwnershipLost else FailureOutcome(r)
  }

  /** The outcome of a batch that ended early names what the last producer call did. */
  predicate Stops(outcome: Outcome, r: PublishResult) {
    match r
    case Confirmed => outcome == OwnershipLost
    case Recoverable => outcome == RecoverableFailure
    case Fatal => outcome == FatalFailure
    case Unexpected => outcome == UnexpectedFailure
  }

  datatype RunResult = NotOwner | Ended(outcome: Outcome, published: nat)

  /** The relay's own view of its place in the batch agrees with the world's, and the batch is of the table. */
  ghost predicate Standing(s: Pipeline.State, r: nat, stage: Relay.Stage, token: nat, batch: seq<nat>, i: nat) {
    && Relay.PcOf(s.up, r) == Relay.Busy(stage, token, batch, i)
    && i < |batch| && InTable(s, batch)
    && (stage.Waiting? ==> batch[i] in s.up.handed)
  }

  ghost predicate InTable(s: Pipeline.State, batch: seq<nat>) {
    forall k :: 0 <= k < |batch| ==> batch[k] < |s.up.rows|
  }

  lemma StandingStays(s: Pipeline.State, t: Pipeline.State, r: nat, stage: Relay.Stage, token: nat, batch: seq<nat>, i: nat)
    requires Standing(s, r, stage, token, batch, i) && Grows(s, t) && SameLocal(s, t, RelayProcess(r))
    ensures Standing(t, r, stage, token, batch, i)
  {
  }

  /** The first `n` records of the batch are durably published. */
  ghost predicate PublishedUpTo(s: Pipeline.State, batch: seq<nat>, n: nat) {
    n <= |batch| && forall k :: 0 <= k < n ==> batch[k] < |s.up.rows| && s.up.rows[batch[k]].published
  }

  /** From `start` on, nothing durable was lost and the first `n` records of the batch were published. */
  ghost predicate Progress(start: Pipeline.State, s: Pipeline.State, batch: seq<nat>, n: nat) {
    Grows(start, s) && PublishedUpTo(s, batch, n)
  }

  lemma ProgressGrows(start: Pipeline.State, s: Pipeline.State, t: Pipeline.State, batch: seq<nat>, n: nat)
    requires Progress(start, s, batch, n) && Grows(s, t)
    ensures Progress(start, t, batch, n)
  {
    GrowsTransitive(start, s, t);
  }

  /** How many records are up for release: the rest of the batch, without the one whose mark was lost. */
  function Unpublished(outcome: Outcome, batch: seq<nat>, published: nat): int {
    |batch| - published - if outcome.OwnershipLost? then 1 else 0
  }

  /** The relay is to release these records of the table, in this order. */
  ghost predicate Listed(s: Pipeline.State, r: nat, rest: seq<nat>) {
    && Relay.PcOf(s.up, r).Releasing? && Relay.PcOf(s.up, r).rest == rest
    && forall k :: 0 <= k < |rest| ==> rest[k] < |s.up.rows|
  }

  predicate IsRelease(step: Pipeline.Step, r: nat) {
    step.Up? && step.u.ReleaseStep? && step.u.r == r
  }

  /** How many release transactions the relay has made. */
  ghost function Releases(h: seq<Pipeline.Step>, r: nat): nat {
    if h == [] then 0 else Releases(h[..|h| - 1], r) + if IsRelease(h[|h| - 1], r) then 1 else 0
  }

  lemma ReleasesSnoc(h: seq<Pipeline.Step>, step: Pipeline.Step, r: nat)
    ensures Releases(h + [step], r) == Releases(h, r) + if IsRelease(step, r) then 1 else 0
  {
    assert (h + [step])[..|h|] == h;
  }

  lemma {:induction false} ReleasesGrow(h: seq<Pipeline.Step>, h': seq<Pipeline.Step>, r: nat)
    requires h <= h'
    ensures Releases(h, r) <= Releases(h', r)
  {
    if |h| < |h'| {
      ReleasesGrow(h, h'[..|h'| - 1], r);
    } else {
      assert h == h';
    }
  }

  lemma ClaimEffect(s: Pipeline.State, r: nat, token: nat, at: int, lease: int, size: nat, locked: set<nat>)
    requires Relay.PcOf(s.up, r).Idle? && lease > at && size > 0
    ensures var b := Batch(s.up.rows, at, size, locked);
            Pipeline.Apply(s, Pipeline.Up(Relay.Claim(r, token, at, lease, size, locked))) ==
            if b == [] then s
            else s.(up := s.up.(rows := Stamp(s.up.rows, b, token, lease),
                                relays := s.up.relays[r := Relay.Busy(Relay.Ready, token, b, 0)]))
  {
  }

  // ---------- Under a running lease ----------

  /** A claim in force: its token, its lease, its batch, and how many records of it are done. */
  datatype Guard = Guard(token: nat, lease: int, batch: seq<nat>, done: nat)

  /** A step of another process that leaves the claim alone: no claim after the lease or with the same token. */
  ghost predicate Harmless(step: Pipeline.Step, r: nat, g: Guard) {
    step.Up? && Relay.Actor(step.u) != Some(r) ==> Relay.Before(step.u, r, g.token, g.lease)
  }

  ghost predicate AllHarmless(steps: seq<Pipeline.Step>, r: nat, g: Guard) {
    forall i :: 0 <= i < |steps| ==> Harmless(steps[i], r, g)
  }

  ghost predicate Quiet(schedule: seq<seq<Pipeline.Step>>, r: nat, g: Guard) {
    forall i :: 0 <= i < |schedule| ==> AllHarmless(schedule[i], r, g)
  }

  /** Nobody else draws the token or claims after the lease, and every record not yet done is still claimed. */
  ghost predicate Guarded(s: Pipeline.State, schedule: seq<seq<Pipeline.Step>>, r: nat, g: Guard) {
    && Quiet(schedule, r, g) && Ascending(g.batch) && Protected(s, r, g)
  }

  ghost predicate Protected(s: Pipeline.State, r: nat, g: Guard) {
    && Relay.OthersLack(s.up, r, g.token)
    && forall k :: g.done <= k < |g.batch| ==> Relay.Held(s.up, g.batch[k], g.token, g.lease)
  }

  /** The relay steps among steps of the pipeline. */
  function UpSteps(steps: seq<Pipeline.Step>): seq<Relay.Step> {
    if steps == [] then []
    else UpSteps(steps[..|steps| - 1]) + if steps[|steps| - 1].Up? then [steps[|steps| - 1].u] else []
  }

  lemma RelayRunSnoc(s: Relay.State, ups: seq<Relay.Step>, u: Relay.Step)
    ensures Relay.Run(s, ups + [u]) == Relay.Apply(Relay.Run(s, ups), u)
  {
    assert (ups + [u])[..|ups|] == ups;
  }

  lemma {:induction false} UpRun(s: Pipeline.State, steps: seq<Pipeline.Step>)
    ensures Pipeline.Run(s, steps).up == Relay.Run(s.up, UpSteps(steps))
  {
    if steps != [] {
      var m := |steps| - 1;
      UpRun(s, steps[..m]);
      if steps[m].Up? {
        RelayRunSnoc(s.up, UpSteps(steps[..m]), steps[m].u);
      } else {
        assert UpSteps(steps) == UpSteps(steps[..m]);
      }
    }
  }

  lemma {:induction false} UpBefore(steps: seq<Pipeline.Step>, r: nat, g: Guard)
    requires AllHarmless(steps, r, g) && forall i :: 0 <= i < |steps| ==> Actor(steps[i]) != RelayProcess(r)
    ensures forall i :: 0 <= i < |UpSteps(steps)| ==> Relay.Before(UpSteps(steps)[i], r, g.token, g.lease)
  {
    if steps != [] {
      UpBefore(steps[..|steps| - 1], r, g);
      assert Harmless(steps[|steps| - 1], r, g);
    }
  }

  lemma ForeignHarmless(steps: seq<Pipeline.Step>, r: nat, g: Guard)
    requires AllHarmless(steps, r, g)
    ensures AllHarmless(Foreign(steps, RelayProcess(r)), r, g)
  {
    var f := Foreign(steps, RelayProcess(r));
    forall i | 0 <= i < |f| ensures Harmless(f[i], r, g) {
      var k :| 0 <= k < |steps| && steps[k] == f[i];
    }
  }

  /** The claim outlives whatever the others do at one opportunity. */
  lemma GuardedRun(s: Pipeline.State, schedule: seq<seq<Pipeline.Step>>, r: nat, g: Guard)
    requires Guarded(s, schedule, r, g)
    ensures Guarded(Pipeline.Run(s, Tail(schedule, RelayProcess(r))), Rest(schedule), r, g)
  {
    var steps := Tail(schedule, RelayProcess(r));
    if schedule != [] {
      assert AllHarmless(schedule[0], r, g);
      ForeignHarmless(schedule[0], r, g);
      ProtectedRun(s, steps, r, g);
    }
  }

  lemma ProtectedRun(s: Pipeline.State, steps: seq<Pipeline.Step>, r: nat, g: Guard)
    requires Protected(s, r, g) && AllHarmless(steps, r, g)
    requires forall i :: 0 <= i < |steps| ==> Actor(steps[i]) != RelayProcess(r)
    ensures Protected(Pipeline.Run(s, steps), r, g)
  {
    UpRun(s, steps);
    UpBefore(steps, r, g);
    var t := Pipeline.Run(s, steps);
    forall k | g.done <= k < |g.batch| ensures Relay.Held(t.up, g.batch[k], g.token, g.lease) {
      Relay.LeaseProtects(s.up, UpSteps(steps), r, g.batch[k], g.token, g.lease);
    }
    OthersLackRun(s.up, UpSteps(steps), r, g);
  }

  lemma {:induction false} OthersLackRun(s: Relay.State, ups: seq<Relay.Step>, r: nat, g: Guard)
    requires Relay.OthersLack(s, r, g.token)
    requires forall i :: 0 <= i < |ups| ==> Relay.Before(ups[i], r, g.token, g.lease)
    ensures Relay.OthersLack(Relay.Run(s, ups), r, g.token)
  {
    if ups != [] {
      var m := |ups| - 1;
      OthersLackRun(s, ups[..m], r, g);
      Relay.OthersStillLack(Relay.Run(s, ups[..m]), ups[m], r, g.token, g.lease);
    }
  }

  /** Rows and the other relays as they were. */
  ghost predicate SameClaims(s: Pipeline.State, t: Pipeline.State, r: nat) {
    t.up.rows == s.up.rows && forall q: nat :: q != r ==> Relay.PcOf(t.up, q) == Relay.PcOf(s.up, q)
  }

  lemma SameClaimsGuarded(s: Pipeline.State, t: Pipeline.State, schedule: seq<seq<Pipeline.Step>>, r: nat, g: Guard)
    requires SameClaims(s, t, r)
    ensures Guarded(s, schedule, r, g) ==> Guarded(t, schedule, r, g)
  {
  }

  /** The mark of the next record, in time, goes through and leaves the rest of the claim in force. */
  lemma GuardedMark(s: Pipeline.State, schedule: seq<seq<Pipeline.Step>>, r: nat, g: Guard, at: int)
    requires Guarded(s, schedule, r, g) && g.done < |g.batch| && at < g.lease
    requires Relay.PcOf(s.up, r) == Relay.Busy(Relay.Acked, g.token, g.batch, g.done)
    ensures var t := Pipeline.Apply(s, Pipeline.Up(Relay.MarkStep(r, at)));
            && Owns(s.up.rows[g.batch[g.done]], g.token, at)
            && Protected(t, r, g.(done := g.done + 1))
  {
    var t := Pipeline.Apply(s, Pipeline.Up(Relay.MarkStep(r, at)));
    assert Relay.Held(s.up, g.batch[g.done], g.token, g.lease);
    forall k | g.done + 1 <= k < |g.batch| ensures Relay.Held(t.up, g.batch[k], g.token, g.lease) {
      assert Relay.Held(s.up, g.batch[k], g.token, g.lease);
      ClaimRunAscending(g.batch, k);
    }
    forall q: nat | q != r && !Relay.PcOf(t.up, q).Idle? ensures Relay.PcOf(t.up, q).token != g.token {
      assert Relay.PcOf(t.up, q) == Relay.PcOf(s.up, q);
    }
  }

  /** The oldest unpublished row is missing, locked by another transaction, or under another claim's running lease. */
  ghost predicate HeadBarred(rows: seq<Row>, at: int, locked: set<nat>) {
    forall p: nat :: FirstAfter(rows, -1, p) ==> Barred(rows, p, at, locked)
  }

  lemma EmptyIff(rows: seq<Row>, at: int, size: nat, locked: set<nat>)
    requires size >= 1
    ensures Takes(rows, -1, at, size, locked, Batch(rows, at, size, locked))
    ensures Batch(rows, at, size, locked) == [] <==> HeadBarred(rows, at, locked)
  {
    BatchTakes(rows, at, size, locked);
  }

  /** Where a claim leaves the relay. */
  lemma ClaimStands(s: Pipeline.State, r: nat, token: nat, at: int, lease: int, size: nat, locked: set<nat>)
    requires Relay.PcOf(s.up, r).Idle? && lease > at && size > 0
    ensures var b := Batch(s.up.rows, at, size, locked);
            var t := Pipeline.Apply(s, Pipeline.Up(Relay.Claim(r, token, at, lease, size, locked)));
            if b == [] then Relay.PcOf(t.up, r).Idle? else Standing(t, r, Relay.Ready, token, b, 0)
  {
    ClaimEffect(s, r, token, at, lease, size, locked);
    ClaimRunClaimable(s.up.rows, NextUnpublished(s.up.rows, 0), at, size, locked);
  }

  /** A new claim puts its batch under guard. */
  lemma GuardedClaim(s: Pipeline.State, r: nat, token: nat, at: int, lease: int, size: nat, locked: set<nat>)
    requires Relay.PcOf(s.up, r).Idle? && lease > at && size > 0 && Relay.OthersLack(s.up, r, token)
    ensures var b := Batch(s.up.rows, at, size, locked);
            var t := Pipeline.Apply(s, Pipeline.Up(Relay.Claim(r, token, at, lease, size, locked)));
            b != [] ==> Ascending(b) && Protected(t, r, Guard(token, lease, b, 0))
  {
    var b := Batch(s.up.rows, at, size, locked);
    var t := Pipeline.Apply(s, Pipeline.Up(Relay.Claim(r, token, at, lease, size, locked)));
    ClaimEffect(s, r, token, at, lease, size, locked);
    ClaimRunFollows(s.up.rows, NextUnpublished(s.up.rows, 0), at, size, locked);
    ClaimRunClaimable(s.up.rows, NextUnpublished(s.up.rows, 0), at, size, locked);
    if b != [] {
      forall q: nat | q != r && !Relay.PcOf(t.up, q).Idle? ensures Relay.PcOf(t.up, q).token != token {
        assert Relay.PcOf(t.up, q) == Relay.PcOf(s.up, q);
      }
    }
  }

  /** Nobody else has the token, draws it, or claims after the lease. */
  ghost predicate Free(s: Pipeline.State, schedule: seq<seq<Pipeline.Step>>, r: nat, g: Guard) {
    Relay.OthersLack(s.up, r, g.token) && Quiet(schedule, r, g)
  }

  lemma ClaimGuards(s: Pipeline.State, schedule: seq<seq<Pipeline.Step>>, r: nat, token: nat, at: int, lease: int, size: nat, locked: set<nat>)
    requires Relay.PcOf(s.up, r).Idle? && lease > at && size > 0
    ensures var b := Batch(s.up.rows, at, size, locked);
            var t := Pipeline.Apply(s, Pipeline.Up(Relay.Claim(r, token, at, lease, size, locked)));
            b != [] && Free(s, schedule, r, Guard(token, lease, b, 0)) ==> Guarded(t, schedule, r, Guard(token, lease, b, 0))
  {
    if Relay.OthersLack(s.up, r, token) {
      GuardedClaim(s, r, token, at, lease, size, locked);
    }
  }

  lemma QuietDone(schedule: seq<seq<Pipeline.Step>>, r: nat, g: Guard)
    ensures Quiet(schedule, r, g) ==> Quiet(schedule, r, g.(done := g.done + 1))
  {
    if Quiet(schedule, r, g) {
      forall i | 0 <= i < |schedule| ensures AllHarmless(schedule[i], r, g.(done := g.done + 1)) {
        assert AllHarmless(schedule[i], r, g);
      }
    }
  }

  /** Every call is confirmed and every mark is made while the lease runs. */
  ghost predicate Smooth(producer: nat -> PublishResult, clock: nat -> int, lease: int, n: nat) {
    forall k: nat :: k < n ==> producer(k).Confirmed? && clock(k + 1) < lease
  }

  // ---------- Repository calls, each in a session of its own ----------

  method ClaimRows(rows: seq<Row>, token: nat, at: int, lease: int, size: int, locked: set<nat>)
    returns (batch: seq<nat>, rows': seq<Row>)
    requires size >= 1 && lease > at
    ensures batch == Batch(rows, at, size, locked) && rows' == Stamp(rows, batch, token, lease)
  {
    var table := new OutboxTable(rows);
    var ok;
    ok, batch := table.ClaimBatch(token, at, lease, size, locked);
    rows' := table.rows;
  }

  method MarkRow(rows: seq<Row>, p: nat, token: nat, at: int) returns (marked: bool, rows': seq<Row>)
    requires p < |rows|
    ensures marked == Owns(rows[p], token, at) && rows' == Mark(rows, p, token, at)
  {
    var table := new OutboxTable(rows);
    marked := table.MarkPublished(p, token, at);
    rows' := table.rows;
  }

  method ReleaseRow(rows: seq<Row>, p: nat, token: nat, at: int) returns (released: bool, rows': seq<Row>)
    requires p < |rows|
    ensures released == Owns(rows[p], token, at) && rows' == Release(rows, p, token, at)
  {
    var table := new OutboxTable(rows);
    released := table.ReleaseFailedClaim(p, token, at);
    rows' := table.rows;
  }

  class OutboxRelay {
    const id: nat
    const size: int
    const leaseSeconds: int
    const world: World

    constructor (id: nat, size: int, leaseSeconds: int, world: World)
      requires size >= 1 && leaseSeconds > 0
      ensures this.id == id && this.size == size && this.leaseSeconds == leaseSeconds && this.world == world
    {
      this.id, this.size, this.leaseSeconds, this.world := id, size, leaseSeconds, world;
    }

    ghost predicate Ready()
      reads this
    {
      size >= 1 && leaseSeconds > 0
    }

    function LeaseEnd(at: int): int
      reads this
    {
      at + leaseSeconds
    }

    /** Nobody else has or draws the token or claims after the lease, and every call is confirmed in time. */
    ghost predicate Undisturbed(
      s: Pipeline.State, schedule: seq<seq<Pipeline.Step>>, token: nat, clock: nat -> int, producer: nat -> PublishResult, batch: seq<nat>)
      reads this
    {
      && Free(s, schedule, id, Guard(token, LeaseEnd(clock(0)), batch, 0))
      && Smooth(producer, clock, LeaseEnd(clock(0)), |batch|)
    }

    /** The claim transaction: the repository's claim is the step of the world, and it puts its batch under guard. */
    method Claim(token: nat, at: int, lease: int, locked: set<nat>) returns (batch: seq<nat>)
      requires Ready() && lease > at && world.Valid() && Relay.PcOf(world.st.up, id).Idle?
      modifies world
      ensures world.Valid() && old(world.history) <= world.history && Grows(old(world.st), world.st)
      ensures batch == Batch(old(world.st.up.rows), at, size, locked) && Takes(old(world.st.up.rows), -1, at, size, locked, batch)
      ensures batch == [] <==> HeadBarred(old(world.st.up.rows), at, locked)
      ensures if batch == [] then Relay.PcOf(world.st.up, id).Idle? else Standing(world.st, id, Relay.Ready, token, batch, 0)
      ensures batch != [] && Free(old(world.st), old(world.schedule), id, Guard(token, lease, batch, 0)) ==>
                Guarded(world.st, world.schedule, id, Guard(token, lease, batch, 0))
    {
      ghost var s := world.st;
      var rows;
      batch, rows := ClaimRows(world.st.up.rows, token, at, lease, size, locked);
      EmptyIff(s.up.rows, at, size, locked);
      ClaimStands(s, id, token, at, lease, size, locked);
      ClaimGuards(s, world.schedule, id, token, at, lease, size, locked);
      world.Take(Pipeline.Up(Relay.Claim(id, token, at, lease, size, locked)));
    }

    /** The other processes act; the relay keeps its place, and its claim while the lease protects it. */
    method Pass(ghost stage: Relay.Stage, ghost g: Guard, ghost start: Pipeline.State)
      requires world.Valid() && Grows(start, world.st) && Standing(world.st, id, stage, g.token, g.batch, g.done)
      modifies world
      ensures world.Valid() && old(world.history) <= world.history && Grows(start, world.st)
      ensures Standing(world.st, id, stage, g.token, g.batch, g.done)
      ensures Guarded(old(world.st), old(world.schedule), id, g) ==> Guarded(world.st, world.schedule, id, g)
    {
      ghost var s, sched := world.st, world.schedule;
      world.Interfere(RelayProcess(id));
      StandingStays(s, world.st, id, stage, g.token, g.batch, g.done);
      GrowsTransitive(start, s, world.st);
      if Guarded(s, sched, id, g) { GuardedRun(s, sched, id, g); }
    }

    /** The event goes to the producer. */
    method HandOver(ghost g: Guard, ghost start: Pipeline.State)
      requires world.Valid() && Grows(start, world.st) && Standing(world.st, id, Relay.Ready, g.token, g.batch, g.done)
      modifies world
      ensures world.Valid() && old(world.history) <= world.history && Grows(start, world.st)
      ensures Standing(world.st, id, Relay.Waiting, g.token, g.batch, g.done)
      ensures Guarded(old(world.st), old(world.schedule), id, g) ==> Guarded(world.st, world.schedule, id, g)
    {
      ghost var s := world.st;
      world.Take(Pipeline.Up(Relay.Hand(id)));
      GrowsTransitive(start, s, world.st);
      SameClaimsGuarded(s, world.st, world.schedule, id, g);
    }

    /** The broker appends the record and acknowledges it. */
    method Confirm(ghost g: Guard, ghost start: Pipeline.State)
      requires world.Valid() && Grows(start, world.st) && Standing(world.st, id, Relay.Waiting, g.token, g.batch, g.done)
      modifies world
      ensures world.Valid() && old(world.history) <= world.history && Grows(start, world.st)
      ensures Standing(world.st, id, Relay.Acked, g.token, g.batch, g.done)
      ensures Guarded(old(world.st), old(world.schedule), id, g) ==> Guarded(world.st, world.schedule, id, g)
    {
      ghost var s := world.st;
      var pc := Relay.PcOf(world.st.up, id);
      world.Take(Pipeline.Up(Relay.Deliver(pc.batch[pc.i])));
      ghost var s1 := world.st;
      GrowsTransitive(start, s, s1);
      world.Take(Pipeline.Up(Relay.Ack(id)));
      GrowsTransitive(start, s1, world.st);
      SameClaimsGuarded(s, world.st, world.schedule, id, g);
    }

    /** The fenced mark; on lost ownership the rest of the batch is up for release. */
    method MarkCurrent(at: int, ghost g: Guard, ghost start: Pipeline.State) returns (marked: bool)
      requires world.Valid() && Grows(start, world.st) && Standing(world.st, id, Relay.Acked, g.token, g.batch, g.done)
      modifies world
      ensures world.Valid() && old(world.history) <= world.history && Grows(start, world.st)
      ensures marked ==> Reached(world.st, g.token, g.batch, g.done + 1) && Relay.Published(world.st.up, g.batch[g.done])
      ensures !marked ==> Listed(world.st, id, g.batch[g.done + 1..])
      ensures Guarded(old(world.st), old(world.schedule), id, g) && at < g.lease ==>
                marked && Guarded(world.st, world.schedule, id, g.(done := g.done + 1))
    {
      ghost var s := world.st;
      var pc := Relay.PcOf(world.st.up, id);
      var rows;
      marked, rows := MarkRow(world.st.up.rows, pc.batch[pc.i], pc.token, at);
      if Guarded(s, world.schedule, id, g) && at < g.lease { GuardedMark(s, world.schedule, id, g, at); }
      world.Take(Pipeline.Up(Relay.MarkStep(id, at)));
      assert world.st.up.rows == rows;
      GrowsTransitive(start, s, world.st);
      QuietDone(world.schedule, id, g);
    }

    /** The call failed: the record and all after it are up for release. */
    method GiveUp(ghost g: Guard, ghost start: Pipeline.State)
      requires world.Valid() && Grows(start, world.st) && Standing(world.st, id, Relay.Waiting, g.token, g.batch, g.done)
      modifies world
      ensures world.Valid() && old(world.history) <= world.history && Grows(start, world.st)
      ensures Listed(world.st, id, g.batch[g.done..])
    {
      ghost var s := world.st;
      world.Take(Pipeline.Up(Relay.Fail(id)));
      GrowsTransitive(start, s, world.st);
    }

    /** `_release_remaining`: one fenced release per record still listed, each with its own clock reading. */
    method ReleaseRemaining(clock: nat -> int, ghost rest: seq<nat>)
      requires world.Valid() && Listed(world.st, id, rest)
      modifies world
      ensures world.Valid() && old(world.history) <= world.history && Grows(old(world.st), world.st)
      ensures Relay.PcOf(world.st.up, id).Idle?
      ensures Releases(world.history, id) >= Releases(old(world.history), id) + |rest|
    {
      ghost var start := world.st;
      var left := |Relay.PcOf(world.st.up, id).rest|;
      var k := 0;
      while k < left
        invariant 0 <= k <= left && left == |rest|
        invariant world.Valid() && old(world.history) <= world.history && Grows(start, world.st)
        invariant Listed(world.st, id, rest[k..])
        invariant Releases(world.history, id) >= Releases(old(world.history), id) + k
      {
        ReleaseNext(clock(k), rest[k..], start);
        assert rest[k..][1..] == rest[k + 1..];
        k := k + 1;
      }
      GoIdle(clock(k), start);
    }

    /** Nothing is left to release. */
    method GoIdle(at: int, ghost start: Pipeline.State)
      requires world.Valid() && Listed(world.st, id, []) && Grows(start, world.st)
      modifies world
      ensures world.Valid() && old(world.history) <= world.history && Grows(start, world.st)
      ensures Relay.PcOf(world.st.up, id).Idle?
      ensures Releases(world.history, id) >= Releases(old(world.history), id)
    {
      ghost var s0 := world.st;
      world.Take(Pipeline.Up(Relay.ReleaseStep(id, at)));
      GrowsTransitive(start, s0, world.st);
      ReleasesGrow(old(world.history), world.history, id);
    }

    /** `_release_owned` for the first record still listed. */
    method ReleaseNext(at: int, ghost rest: seq<nat>, ghost start: Pipeline.State)
      requires world.Valid() && Listed(world.st, id, rest) && rest != [] && Grows(start, world.st)
      modifies world
      ensures world.Valid() && old(world.history) <= world.history && Grows(start, world.st)
      ensures Listed(world.st, id, rest[1..])
      ensures Releases(world.history, id) >= Releases(old(world.history), id) + 1
    {
      ghost var s0 := world.st;
      world.Interfere(RelayProcess(id));
      ghost var s1, h1 := world.st, world.history;
      GrowsTransitive(start, s0, s1);
      ReleasesGrow(old(world.history), h1, id);
      var pc := Relay.PcOf(world.st.up, id);
      var released, rows := ReleaseRow(world.st.up.rows, pc.rest[0], pc.token, at);
      world.Take(Pipeline.Up(Relay.ReleaseStep(id, at)));
      assert world.st.up.rows == rows;
      ReleasesSnoc(h1, Pipeline.Up(Relay.ReleaseStep(id, at)), id);
      GrowsTransitive(start, s1, world.st);
    }

    /** Where the relay stands after `n` records of the batch: at the next one, or done. */
    ghost predicate Reached(s: Pipeline.State, token: nat, batch: seq<nat>, n: nat)
      reads this
    {
      if n < |batch| then Standing(s, id, Relay.Ready, token, batch, n) else Relay.PcOf(s.up, id).Idle?
    }

    /**
     One round of the loop, with the other processes free to act before the hand-over, before the answer and before
     the mark: one more record is published, or the rest is listed for release.
     */
    method PublishNext(result: PublishResult, at: int, ghost g: Guard, ghost start: Pipeline.State) returns (marked: bool)
      requires world.Valid() && Grows(start, world.st) && Standing(world.st, id, Relay.Ready, g.token, g.batch, g.done)
      modifies world
      ensures world.Valid() && old(world.history) <= world.history && Grows(start, world.st)
      ensures marked ==> result.Confirmed? && Reached(world.st, g.token, g.batch, g.done + 1)
      ensures marked ==> Relay.Published(world.st.up, g.batch[g.done])
      ensures !marked ==> Listed(world.st, id, g.batch[if result.Confirmed? then g.done + 1 else g.done..])
      ensures Guarded(old(world.st), old(world.schedule), id, g) && at < g.lease && result.Confirmed? ==>
                marked && Guarded(world.st, world.schedule, id, g.(done := g.done + 1))
    {
      Pass(Relay.Ready, g, start);
      HandOver(g, start);
      Pass(Relay.Waiting, g, start);
      if result.Confirmed? {
        Confirm(g, start);
        Pass(Relay.Acked, g, start);
        marked := MarkCurrent(at, g, start);
      } else {
        GiveUp(g, start);
        marked := false;
      }
    }

    /** The rest of the batch is given up. */
    method StopEarly(result: PublishResult, later: nat -> int, ghost batch: seq<nat>, ghost published: nat, ghost start: Pipeline.State)
      returns (outcome: Outcome)
      requires world.Valid() && published < |batch| && Progress(start, world.st, batch, published)
      requires Listed(world.st, id, batch[if result.Confirmed? then published + 1 else published..])
      modifies world
      ensures world.Valid() && old(world.history) <= world.history && Progress(start, world.st, batch, published)
      ensures Relay.PcOf(world.st.up, id).Idle? && outcome == StopOutcome(result)
      ensures Releases(world.history, id) >= Releases(old(world.history), id) + Unpublished(outcome, batch, published)
    {
      ghost var s0 := world.st;
      ReleaseRemaining(later, batch[if result.Confirmed? then published + 1 else published..]);
      ProgressGrows(start, s0, world.st, batch, published);
      return StopOutcome(result);
    }

    /** The loop over the claimed batch: stop at the first failure or lost mark, releasing what is left. */
    method PublishBatch(token: nat, batch: seq<nat>, clock: nat -> int, later: nat -> int, producer: nat -> PublishResult, ghost lease: int)
      returns (outcome: Outcome, published: nat)
      requires world.Valid() && Standing(world.st, id, Relay.Ready, token, batch, 0)
      modifies world
      ensures world.Valid() && old(world.history) <= world.history
      ensures Progress(old(world.st), world.st, batch, published) && Relay.PcOf(world.st.up, id).Idle?
      ensures !outcome.Empty? && (outcome.Published? <==> published == |batch|)
      ensures !outcome.Published? ==> outcome == StopOutcome(producer(published))
      ensures !outcome.Published? ==>
                Releases(world.history, id) >= Releases(old(world.history), id) + Unpublished(outcome, batch, published)
      ensures Guarded(old(world.st), old(world.schedule), id, Guard(token, lease, batch, 0)) && Smooth(producer, clock, lease, |batch|) ==>
                outcome.Published?
    {
      ghost var start := world.st;
      ghost var safe := Guarded(world.st, world.schedule, id, Guard(token, lease, batch, 0)) && Smooth(producer, clock, lease, |batch|);
      published := 0;
      while published < |batch|
        invariant world.Valid() && old(world.history) <= world.history && Progress(start, world.st, batch, published)
        invariant published <= |batch| && Reached(world.st, token, batch, published)
        invariant safe ==> Guarded(world.st, world.schedule, id, Guard(token, lease, batch, published))
        decreases |batch| - published
      {
        var marked := OneMore(producer(published), clock(published + 1), Guard(token, lease, batch, published), start);
        if !marked {
          ReleasesGrow(old(world.history), world.history, id);
          outcome := StopEarly(producer(published), later, batch, published, start);
          return;
        }
        published := published + 1;
      }
      outcome := Published;
    }

    /** A round of the loop as the loop sees it. */
    method OneMore(result: PublishResult, at: int, ghost g: Guard, ghost start: Pipeline.State) returns (marked: bool)
      requires world.Valid() && g.done < |g.batch| && Reached(world.st, g.token, g.batch, g.done)
      requires Progress(start, world.st, g.batch, g.done)
      modifies world
      ensures world.Valid() && old(world.history) <= world.history
      ensures marked ==> Reached(world.st, g.token, g.batch, g.done + 1) && Progress(start, world.st, g.batch, g.done + 1)
      ensures !marked ==> Listed(world.st, id, g.batch[if result.Confirmed? then g.done + 1 else g.done..])
      ensures !marked ==> Progress(start, world.st, g.batch, g.done)
      ensures Guarded(old(world.st), old(world.schedule), id, g) && at < g.lease && result.Confirmed? ==>
                marked && Guarded(world.st, world.schedule, id, g.(done := g.done + 1))
    {
      ghost var s := world.st;
      marked := PublishNext(result, at, g, s);
      ProgressGrows(start, s, world.st, g.batch, g.done);
    }

    /**
     One batch. Whatever the other processes do in between, every row counted as published is durably
     published, the run is a run of the pipeline, and the call leaves no work in progress behind. If nobody else
     draws its token or claims after its lease, and every call is confirmed in time, the whole batch is published.
     */
    method RunOnce(held: bool, token: nat, clock: nat -> int, later: nat -> int, locked: set<nat>, producer: nat -> PublishResult)
      returns (result: RunResult, ghost batch: seq<nat>)
      requires Ready() && world.Valid() && Relay.PcOf(world.st.up, id).Idle?
      modifies world
      ensures world.Valid() && old(world.history) <= world.history && Grows(old(world.st), world.st)
      ensures Relay.PcOf(world.st.up, id).Idle?
      ensures result.NotOwner? <==> !held
      ensures result.NotOwner? ==> world.st == old(world.st)
      ensures held ==> batch == Batch(old(world.st.up.rows), clock(0), size, locked)
      ensures held ==> PublishedUpTo(world.st, batch, result.published)
      ensures held ==> Takes(old(world.st.up.rows), -1, clock(0), size, locked, batch)
      ensures held ==> (result.outcome.Empty? <==> HeadBarred(old(world.st.up.rows), clock(0), locked))
      ensures held && batch != [] ==> (result.outcome.Published? <==> result.published == |batch|)
      ensures held && batch != [] && !result.outcome.Published? ==>
                && Stops(result.outcome, producer(result.published))
                && Releases(world.history, id) >=
                   Releases(old(world.history), id) + Unpublished(result.outcome, batch, result.published)
      ensures held && batch != [] && Undisturbed(old(world.st), old(world.schedule), token, clock, producer, batch) ==>
                result.outcome.Published?
    {
      if !held { return NotOwner, []; }
      var claimed := Claim(token, clock(0), LeaseEnd(clock(0)), locked);
      if claimed == [] { return Ended(Empty, 0), claimed; }
      ghost var s1 := world.st;
      ReleasesGrow(old(world.history), world.history, id);
      var outcome, published := PublishBatch(token, claimed, clock, later, producer, LeaseEnd(clock(0)));
      GrowsTransitive(old(world.st), s1, world.st);
      return Ended(outcome, published), claimed;
    }
  }
}
