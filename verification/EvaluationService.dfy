/** `EvaluationService` over its repository: rows changed in place, statement by statement, inside one transaction. */
module EvaluationService {
  import opened Prelude
  import opened Evaluation

  datatype BeginResult = Raised(why: Opening) | Working(id: nat, owner: nat) | Replayed(result: Result)

  class EvaluationService {
    var st: State

    constructor ()
      ensures st == Init()
    {
      st := Init();
    }

    // ---------- Repository statements ----------

    method ClearDimensions(i: nat)
      requires i < |st.runs|
      modifies this
      ensures st == old(st).(runs := old(st).runs[i := old(st).runs[i].(dimensions := [])])
    {
      st := st.(runs := st.runs[i := st.runs[i].(dimensions := [])]);
    }

    /** Delete, then insert one row per dimension. */
    method ReplaceDimensions(i: nat, dimensions: seq<Dimension>)
      requires i < |st.runs|
      modifies this
      ensures st == old(st).(runs := old(st).runs[i := old(st).runs[i].(dimensions := dimensions)])
    {
      ClearDimensions(i);
      for k := 0 to |dimensions|
        invariant st == old(st).(runs := old(st).runs[i := old(st).runs[i].(dimensions := dimensions[..k])])
      {
        assert dimensions[..k + 1] == dimensions[..k] + [dimensions[k]];
        st := st.(runs := st.runs[i := st.runs[i].(dimensions := st.runs[i].dimensions + [dimensions[k]])]);
      }
      assert dimensions[..|dimensions|] == dimensions;
    }

    method ReclaimRun(i: nat, q: Request, owner: nat, now: int)
      requires i < |st.runs|
      modifies this
      ensures st == old(st).(runs := old(st).runs[i := ReclaimedRun(old(st).runs[i], q, owner, now)])
    {
      var r := st.runs[i];
      r := r.(status := InProgress, owner := owner, fingerprint := q.fingerprint, claim := q.claim);
      r := r.(passed := None, score := None, hint := None, deadline := q.deadline, started := now, finished := None);
      st := st.(runs := st.runs[i := r]);
      ClearDimensions(i);
    }

    /** `increment_evaluation_attempt_count` under the claim fence. */
    method ReserveAttempt(job: nat, claim: nat, now: int) returns (reserved: bool)
      modifies this
      ensures reserved == (HoldsClaim(old(st), job, claim, now) && old(st).jobs[job].count < MaxAttempts)
      ensures st == if reserved
                    then old(st).(jobs := old(st).jobs[job := old(st).jobs[job].(count := old(st).jobs[job].count + 1)])
                    else old(st)
    {
      if !HoldsClaim(st, job, claim, now) || st.jobs[job].count >= MaxAttempts { return false; }
      st := st.(jobs := st.jobs[job := st.jobs[job].(count := st.jobs[job].count + 1)]);
      return true;
    }

    /** The insert; an integrity error leaves the row out. */
    method CreateRun(r: RunRow) returns (ok: bool)
      modifies this
      ensures ok == (FindId(old(st).runs, r.id).None? && FindSlot(old(st).runs, r.slot).None? && Check(r))
      ensures st == if ok then old(st).(runs := old(st).runs + [r]) else old(st)
    {
      ok := FindId(st.runs, r.id).None? && FindSlot(st.runs, r.slot).None? && Check(r);
      if ok { st := st.(runs := st.runs + [r]); }
    }

    // ---------- Service ----------

    /**
     `begin_or_resume`: the attempt slot is reserved and the row created together or not at all; reclaim and
     replay reserve nothing.
     */
    method BeginOrResume(q: Request, now: int, id: nat, owner: nat) returns (r: BeginResult)
      requires Inv(st)
      modifies this
      ensures Inv(st) && st == Apply(old(st), Begin(q, now, id, owner))
      ensures match Open(old(st), q, now, id, owner)
              case Replay(i) => i < |st.runs| && r == Replayed(ToResult(st.runs[i])) && st == old(st)
              case Reclaim(i, row) => r == Working(row.id, owner) && st.jobs == old(st).jobs && |st.runs| == |old(st).runs|
              case Create(row) => r == Working(id, owner) && |st.runs| == |old(st).runs| + 1
              case why => r == Raised(why) && st == old(st)
      ensures r == Raised(Busy) <==> Admitted(old(st), q) && ClaimProven(old(st), q, now) && SlotLive(old(st), q, now)
      ensures r == Raised(NoClaim) <==> Admitted(old(st), q) && !ClaimProven(old(st), q, now) && !SlotIs(old(st), q, Succeeded)
      ensures r == Raised(Conflict) <==> Admitted(old(st), q) && OtherInput(old(st), q) && Decided(old(st), q, now)
      ensures r == Raised(CapReached) <==>
                Admitted(old(st), q) && ClaimProven(old(st), q, now) && NoRun(old(st), q) && old(st).jobs[q.job].count >= 4
    {
      TurnedAwayIff(st, q, now, id, owner);
      StepKeepsInv(st, Begin(q, now, id, owner));
      if q.slot.exec !in st.execs || st.execs[q.slot.exec] != q.job { return Raised(NotOfJob); }
      if q.job !in st.jobs || st.jobs[q.job].profile != Some(q.slot.profile) { return Raised(ProfileMismatch); }
      var found := FindSlot(st.runs, q.slot);
      if found.Some? && st.runs[found.value].status.Succeeded? {
        if st.runs[found.value].fingerprint != q.fingerprint { return Raised(Conflict); }
        return Replayed(ToResult(st.runs[found.value]));
      }
      if !HoldsClaim(st, q.job, q.claim, now) { return Raised(NoClaim); }
      if found.Some? {
        r := Resume(found.value, q, now, id, owner);
      } else {
        r := Reserve(q, now, id, owner);
      }
    }

    /** An expired or failed row with the same input is reclaimed. */
    method Resume(i: nat, q: Request, now: int, ghost id: nat, owner: nat) returns (r: BeginResult)
      requires Inv(st) && i < |st.runs| && FindSlot(st.runs, q.slot) == Some(i) && !st.runs[i].status.Succeeded?
      requires HoldsClaim(st, q.job, q.claim, now) && st.jobs[q.job].profile == Some(q.slot.profile)
      requires q.slot.exec in st.execs && st.execs[q.slot.exec] == q.job
      modifies this
      ensures st == Apply(old(st), Begin(q, now, id, owner))
      ensures var o := Open(old(st), q, now, id, owner);
              if o.Reclaim? then r == Working(o.row.id, owner) && st.jobs == old(st).jobs && |st.runs| == |old(st).runs|
              else (o == Busy || o == Conflict) && r == Raised(o)
    {
      var row := st.runs[i];
      if row.status.InProgress? && now <= row.deadline { return Raised(Busy); }
      if row.fingerprint != q.fingerprint { return Raised(Conflict); }
      ReclaimNeverRefused(st, q, now, id, owner);
      ReclaimRun(i, q, owner, now);
      return Working(row.id, owner);
    }

    /** A new row: reserve, then insert, undoing the reservation if the insert fails. */
    method Reserve(q: Request, now: int, id: nat, owner: nat) returns (r: BeginResult)
      requires FindSlot(st.runs, q.slot).None?
      requires HoldsClaim(st, q.job, q.claim, now) && st.jobs[q.job].profile == Some(q.slot.profile)
      requires q.slot.exec in st.execs && st.execs[q.slot.exec] == q.job
      modifies this
      ensures st == Apply(old(st), Begin(q, now, id, owner))
      ensures var o := Open(old(st), q, now, id, owner);
              if o.Create? then r == Working(id, owner) && |st.runs| == |old(st).runs| + 1
              else (o == CapReached || o == Refused) && r == Raised(o) && st == old(st)
    {
      var saved := st;
      var reserved := ReserveAttempt(q.job, q.claim, now);
      if !reserved { return Raised(CapReached); }
      var ok := CreateRun(NewRun(q, id, owner, now));
      if !ok {
        st := saved;
        return Raised(Refused);
      }
      return Working(id, owner);
    }

    /** `finalize_success`: dimensions and status are written together, by the current owner, or not at all. */
    method FinalizeSuccess(id: nat, owner: nat, v: Verdict, at: int) returns (ok: bool)
      requires Inv(st)
      modifies this
      ensures Inv(st) && st == Apply(old(st), Succeed(id, owner, v, at))
      ensures ok <==> st != old(st)
      ensures ok ==> Owned(old(st), id, owner).Some? && Owned(st, id, owner).None?
    {
      StepKeepsInv(st, Succeed(id, owner, v, at));
      var i := Owned(st, id, owner);
      if i.None? { return false; }
      var saved := st;
      ReplaceDimensions(i.value, v.dimensions);
      var r := st.runs[i.value];
      r := r.(status := Succeeded, passed := Some(v.passed), score := Some(v.score),
              hint := Some(if KnownHint(v.hint) then v.hint else "terminal"), finished := Some(at));
      ok := Flush(saved, i.value, r);
    }

    /** The conditional update and the commit: the row takes its place if it meets the constraints, or all rolls back. */
    method Flush(saved: State, i: nat, r: RunRow) returns (ok: bool)
      requires UniqueOk(saved.runs) && i < |saved.runs| && saved.runs[i].status.InProgress?
      requires r.id == saved.runs[i].id && r.slot == saved.runs[i].slot && !r.status.InProgress?
      modifies this
      ensures st == Put(saved, i, r) && (ok <==> st != saved)
      ensures ok ==> forall owner :: Owned(st, r.id, owner).None?
    {
      ok := Check(r);
      st := if ok then saved.(runs := saved.runs[i := r]) else saved;
      if ok { PutFinalizes(saved, i, r); }
    }

    /** `finalize_failure` */
    method FinalizeFailure(id: nat, owner: nat, at: int) returns (ok: bool)
      requires Inv(st)
      modifies this
      ensures Inv(st) && st == Apply(old(st), Fail(id, owner, at))
      ensures ok <==> st != old(st)
      ensures ok ==> Owned(old(st), id, owner).Some? && Owned(st, id, owner).None?
    {
      StepKeepsInv(st, Fail(id, owner, at));
      var i := Owned(st, id, owner);
      if i.None? { return false; }
      var saved := st;
      ClearDimensions(i.value);
      var r := st.runs[i.value];
      r := r.(status := Failed, passed := None, score := None, hint := Some("terminal"), finished := Some(at));
      ok := Flush(saved, i.value, r);
    }
  }
}
