/** The in-memory repositories: reference contracts for the inbox and the dead-letter store. */
module Fakes {
  import opened Events
  import Consumer

  datatype InboxOutcome = Applied | Duplicate | Raised

  class InMemoryInbox {
    var seen: set<nat>
    var applied: seq<Event>
    ghost var served: seq<Record> // the events of all calls that returned

    /** Seen ids are those of the applied effects, and the effects are the first occurrences among the served. */
    ghost predicate Valid()
      reads this
    {
      && (forall i :: i in seen <==> exists e :: e in applied && e.id == i)
      && DistinctIds(applied)
      && (Consistent(served) ==> applied == Firsts(served))
    }

    constructor ()
      ensures Valid() && applied == [] && served == []
    {
      seen, applied, served := {}, [], [];
    }

    /** `record_and_apply`: a duplicate has no effect, and neither has a call whose effect raises. */
    method RecordAndApply(e: Event, raises: bool) returns (outcome: InboxOutcome)
      requires Valid()
      modifies this
      ensures Valid()
      ensures outcome == if e.id in old(seen) then Duplicate else if raises then Raised else Applied
      ensures applied == if outcome == Applied then old(applied) + [e] else old(applied)
      ensures seen == if outcome == Applied then old(seen) + {e.id} else old(seen)
      ensures served == if outcome == Raised then old(served) else old(served) + [Msg(e)]
    {
      if e.id in seen {
        FirstsSnoc(served, Msg(e));
        KnownId(served, applied, e);
        served := served + [Msg(e)];
        return Duplicate;
      }
      if raises { return Raised; }
      FirstsSnoc(served, Msg(e));
      ConsistentPrefix(served, Msg(e));
      assert e !in applied;
      SeenSnoc(seen, applied, e);
      applied := applied + [e];
      seen := seen + {e.id};
      served := served + [Msg(e)];
      return Applied;
    }
  }

  lemma SeenSnoc(seen: set<nat>, applied: seq<Event>, e: Event)
    requires forall i :: i in seen <==> exists f :: f in applied && f.id == i
    ensures forall i :: i in seen + {e.id} <==> exists f :: f in applied + [e] && f.id == i
  {
    forall i ensures i in seen + {e.id} <==> exists f :: f in applied + [e] && f.id == i {
      if i in seen {
        var f :| f in applied && f.id == i;
        assert f in applied + [e];
      }
      assert e in applied + [e];
    }
  }

  lemma ConsistentPrefix(log: seq<Record>, r: Record)
    ensures Consistent(log + [r]) ==> Consistent(log)
  {
    assert forall x :: x in log ==> x in log + [r];
  }

  /** In a consistent log, an event whose id was applied before was itself applied before. */
  lemma KnownId(served: seq<Record>, applied: seq<Event>, e: Event)
    requires exists f :: f in applied && f.id == e.id
    requires Consistent(served) ==> applied == Firsts(served)
    ensures Consistent(served + [Msg(e)]) ==> Consistent(served) && e in Firsts(served)
  {
    ConsistentPrefix(served, Msg(e));
    if Consistent(served + [Msg(e)]) {
      var f :| f in applied && f.id == e.id;
      FirstsMembers(served);
      assert Msg(f) in served + [Msg(e)] && Msg(e) in served + [Msg(e)];
    }
  }

  /** A dead-letter row: how often it was delivered, and when first and last. */
  datatype Letter = Letter(id: nat, code: string, attempts: nat, deliveries: nat, first: int, last: int)

  datatype Upsert = Upsert(offset: nat, code: string, attempts: nat, at: int)

  /** The delivery counts, as the consumer's own state keeps them. */
  function Deliveries(rows: map<nat, Letter>): map<nat, nat> {
    map o | o in rows :: rows[o].deliveries
  }

  /** The upserts of one offset, in order. */
  function For(us: seq<Upsert>, offset: nat): seq<Upsert> {
    if us == [] then []
    else For(us[..|us| - 1], offset) + if us[|us| - 1].offset == offset then [us[|us| - 1]] else []
  }

  /** The row of an offset keeps its first failure and counts every delivery. */
  ghost predicate LetterOk(rows: map<nat, Letter>, history: seq<Upsert>, offset: nat) {
    var us := For(history, offset);
    if us == [] then offset !in rows
    else
      && offset in rows && rows[offset].deliveries == |us|
      && rows[offset].code == us[0].code && rows[offset].attempts == us[0].attempts
      && rows[offset].first == us[0].at && rows[offset].last == us[|us| - 1].at
  }

  /** The table after an upsert. */
  function Upserted(rows: map<nat, Letter>, u: Upsert, freshId: nat): map<nat, Letter> {
    if u.offset in rows
    then rows[u.offset := rows[u.offset].(deliveries := rows[u.offset].deliveries + 1, last := u.at)]
    else rows[u.offset := Letter(freshId, u.code, u.attempts, 1, u.at, u.at)]
  }

  lemma ForSnoc(history: seq<Upsert>, u: Upsert, offset: nat)
    ensures For(history + [u], offset) == For(history, offset) + if u.offset == offset then [u] else []
  {
    assert (history + [u])[..|history|] == history;
  }

  lemma UpsertKeeps(rows: map<nat, Letter>, history: seq<Upsert>, u: Upsert, freshId: nat, offset: nat)
    requires LetterOk(rows, history, offset)
    ensures LetterOk(Upserted(rows, u, freshId), history + [u], offset)
  {
    ForSnoc(history, u, offset);
  }

  lemma UpsertCounts(rows: map<nat, Letter>, u: Upsert, freshId: nat)
    ensures Deliveries(Upserted(rows, u, freshId)) == Consumer.Upsert(Deliveries(rows), u.offset)
  {
  }

  class InMemoryDeadLetters {
    var rows: map<nat, Letter>
    ghost var history: seq<Upsert>

    ghost predicate Valid()
      reads this
    {
      forall offset: nat :: LetterOk(rows, history, offset)
    }

    constructor ()
      ensures Valid() && history == []
    {
      rows, history := map[], [];
    }

    /** `upsert`: one row for all deliveries of an offset, under the id it first got. */
    method Put(u: Upsert, freshId: nat) returns (id: nat)
      requires Valid()
      modifies this
      ensures Valid() && history == old(history) + [u]
      ensures rows == Upserted(old(rows), u, freshId) && rows[u.offset].id == id
      ensures id == if u.offset in old(rows) then old(rows)[u.offset].id else freshId
      ensures Deliveries(rows) == Consumer.Upsert(Deliveries(old(rows)), u.offset)
    {
      forall offset: nat ensures LetterOk(Upserted(rows, u, freshId), history + [u], offset) {
        UpsertKeeps(rows, history, u, freshId, offset);
      }
      UpsertCounts(rows, u, freshId);
      if u.offset in rows {
        var r := rows[u.offset];
        rows := rows[u.offset := r.(deliveries := r.deliveries + 1, last := u.at)];
        id := r.id;
      } else {
        rows := rows[u.offset := Letter(freshId, u.code, u.attempts, 1, u.at, u.at)];
        id := freshId;
      }
      history := history + [u];
    }
  }
}
