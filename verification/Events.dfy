/**
 The research-job event catalogue and the three sequence functions that say what a
 consumer of the reserved topic must end up with:

  - `Firsts`  the first occurrences in an at-least-once log,
  - `Accept`  the events a fail-closed projection lets through,
  - `Project` the last accepted event of every job.
 */
module Events {

  datatype Kind = Created | AwaitingReview | RetryScheduled | Completed | Failed

  /** `research_job.completed` and `research_job.failed` are the terminal event types. */
  predicate Terminal(k: Kind) {
    k.Completed? || k.Failed?
  }

  /** One domain event: its UUID, the job it belongs to (`aggregate_id`) and its type. */
  datatype Event = Event(id: nat, job: nat, kind: Kind)

  /** A record of the topic: a decodable event, or anything `decode_message` rejects. */
  datatype Record = Msg(event: Event) | Poison

  /** Some event in `es` is terminal for `job`. */
  ghost predicate Terminated(es: seq<Event>, job: nat) {
    exists i :: 0 <= i < |es| && es[i].job == job && Terminal(es[i].kind)
  }

  /** No event follows a terminal event of the same job. */
  ghost predicate HistoryOk(es: seq<Event>) {
    forall i, k :: 0 <= i < k < |es| && es[i].job == es[k].job ==> !Terminal(es[i].kind)
  }

  /** No two entries share an event id (the primary key of the outbox table). */
  ghost predicate DistinctIds(es: seq<Event>) {
    forall i, k :: 0 <= i < k < |es| ==> es[i].id != es[k].id
  }

  ghost predicate NoDuplicates(es: seq<Event>) {
    forall i, k :: 0 <= i < k < |es| ==> es[i] != es[k]
  }

  /** Equal ids mean equal events, wherever they occur in the log. */
  ghost predicate Consistent(log: seq<Record>) {
    forall e, f :: Msg(e) in log && Msg(f) in log && e.id == f.id ==> e == f
  }

  /** The events of a log in order of first occurrence. */
  ghost function Firsts(log: seq<Record>): seq<Event> {
    if log == [] then []
    else
      var d := Firsts(log[..|log| - 1]);
      var r := log[|log| - 1];
      if r.Poison? || r.event in d then d else d + [r.event]
  }

  /** What a projection that refuses every event after a terminal one accepts of `es`. */
  ghost function Accept(es: seq<Event>): seq<Event> {
    if es == [] then []
    else
      var a := Accept(es[..|es| - 1]);
      var e := es[|es| - 1];
      if Terminated(a, e.job) then a else a + [e]
  }

  /** The last event of each job. */
  ghost function Project(es: seq<Event>): map<nat, Event> {
    if es == [] then map[]
    else Project(es[..|es| - 1])[es[|es| - 1].job := es[|es| - 1]]
  }

  // ---------- Firsts ----------

  lemma FirstsSnoc(log: seq<Record>, r: Record)
    ensures Firsts(log + [r]) ==
            if r.Poison? || r.event in Firsts(log) then Firsts(log) else Firsts(log) + [r.event]
  {
    assert (log + [r])[..|log|] == log;
  }

  lemma FirstsTake(log: seq<Record>, n: nat)
    requires n < |log|
    ensures Firsts(log[..n + 1]) ==
            if log[n].Poison? || log[n].event in Firsts(log[..n]) then Firsts(log[..n])
            else Firsts(log[..n]) + [log[n].event]
  {
    assert log[..n + 1] == log[..n] + [log[n]];
    FirstsSnoc(log[..n], log[n]);
  }

  /** Exactly the events of the log, none twice. */
  lemma {:induction false} FirstsMembers(log: seq<Record>)
    ensures forall e :: e in Firsts(log) <==> Msg(e) in log
    ensures NoDuplicates(Firsts(log))
  {
    if log != [] {
      var m := |log| - 1;
      FirstsMembers(log[..m]);
      assert log == log[..m] + [log[m]];
      forall e ensures e in Firsts(log) <==> Msg(e) in log {
        assert Msg(e) in log <==> Msg(e) in log[..m] || log[m] == Msg(e);
      }
    }
  }

  /** A longer log keeps the first occurrences of a shorter one as a prefix. */
  lemma {:induction false} FirstsMonotone(log: seq<Record>, n: nat)
    requires n <= |log|
    ensures Firsts(log[..n]) <= Firsts(log)
  {
    if n == |log| {
      assert log[..n] == log;
    } else {
      var m := |log| - 1;
      FirstsMonotone(log[..m], n);
      assert log[..m][..n] == log[..n];
    }
  }

  // ---------- Accept ----------

  lemma AcceptSnoc(es: seq<Event>, e: Event)
    ensures Accept(es + [e]) == if Terminated(Accept(es), e.job) then Accept(es) else Accept(es) + [e]
  {
    assert (es + [e])[..|es|] == es;
  }

  lemma {:induction false} AcceptMembers(es: seq<Event>)
    ensures forall e :: e in Accept(es) ==> e in es
    ensures forall e :: e in es ==> e in Accept(es) || Terminated(Accept(es), e.job)
  {
    if es != [] {
      var m := |es| - 1;
      AcceptMembers(es[..m]);
      var a, e := Accept(es[..m]), es[m];
      assert es == es[..m] + [e];
      if !Terminated(a, e.job) {
        TerminatedSnoc(a, e);
        assert e in a + [e];
      }
      forall f | f in es ensures f in Accept(es) || Terminated(Accept(es), f.job) {
        assert f == e || f in es[..m];
      }
    }
  }

  /** Accepting one more first occurrence. */
  lemma AcceptNext(d: seq<Event>, e: Event)
    ensures Accept(if e in d then d else d + [e]) ==
            if e in Accept(d) || Terminated(Accept(d), e.job) then Accept(d) else Accept(d) + [e]
  {
    AcceptSnoc(d, e);
    AcceptMembers(d);
  }

  lemma TerminatedSnoc(es: seq<Event>, e: Event)
    ensures forall j :: Terminated(es + [e], j) <==>
                        Terminated(es, j) || (e.job == j && Terminal(e.kind))
  {
    forall j ensures Terminated(es + [e], j) <==> Terminated(es, j) || (e.job == j && Terminal(e.kind)) {
      if Terminated(es, j) {
        var i :| 0 <= i < |es| && es[i].job == j && Terminal(es[i].kind);
        assert (es + [e])[i] == es[i];
      }
      if e.job == j && Terminal(e.kind) {
        assert (es + [e])[|es|] == e;
      }
    }
  }

  /** Accepting never lets an event follow a terminal one. */
  lemma {:induction false} AcceptHistoryOk(es: seq<Event>)
    ensures HistoryOk(Accept(es))
  {
    if es != [] {
      AcceptHistoryOk(es[..|es| - 1]);
    }
  }

  /** Nothing is refused exactly when the history already keeps the lifecycle order. */
  lemma {:induction false} AcceptIsIdentityIff(es: seq<Event>)
    ensures Accept(es) == es <==> HistoryOk(es)
  {
    AcceptHistoryOk(es);
    if HistoryOk(es) {
      AcceptIdentity(es);
    }
  }

  lemma {:induction false} AcceptIdentity(es: seq<Event>)
    requires HistoryOk(es)
    ensures Accept(es) == es
  {
    if es != [] {
      var m := |es| - 1;
      assert es == es[..m] + [es[m]];
      AcceptIdentity(es[..m]);
    }
  }

  lemma HistoryOkPrefix(es: seq<Event>, n: nat)
    requires HistoryOk(es) && n <= |es|
    ensures HistoryOk(es[..n])
  {
  }

  /** Accepting a prefix gives a prefix of what is accepted in the end. */
  lemma {:induction false} AcceptMonotone(es: seq<Event>, n: nat)
    requires n <= |es|
    ensures Accept(es[..n]) <= Accept(es)
  {
    if n == |es| {
      assert es[..n] == es;
    } else {
      var m := |es| - 1;
      AcceptMonotone(es[..m], n);
      assert es[..m][..n] == es[..n];
    }
  }

  lemma {:induction false} AcceptKeepsDistinct(es: seq<Event>)
    requires DistinctIds(es)
    ensures DistinctIds(Accept(es))
  {
    if es != [] {
      var m := |es| - 1;
      AcceptKeepsDistinct(es[..m]);
      AcceptMembers(es[..m]);
      var a := Accept(es[..m]);
      forall i | 0 <= i < |a| ensures a[i].id != es[m].id {
        assert a[i] in es[..m];
      }
    }
  }

  // ---------- Project ----------

  lemma ProjectSnoc(es: seq<Event>, e: Event)
    ensures Project(es + [e]) == Project(es)[e.job := e]
  {
    assert (es + [e])[..|es|] == es;
  }

  /** In an ordered history the projection row is terminal exactly for terminated jobs. */
  lemma {:induction false} ProjectTerminalIff(es: seq<Event>, j: nat)
    requires HistoryOk(es)
    ensures j in Project(es) && Terminal(Project(es)[j].kind) <==> Terminated(es, j)
  {
    if es != [] {
      var m := |es| - 1;
      var e := es[m];
      assert es == es[..m] + [e];
      HistoryOkPrefix(es, m);
      ProjectTerminalIff(es[..m], j);
      TerminatedSnoc(es[..m], e);
    }
  }
}
