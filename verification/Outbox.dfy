/**
 The transactional outbox table and the three fenced statements the relay runs against it.
 A row's index is its rank by `outbox_position`; rows are never deleted.
 */
module Outbox {
  import opened Prelude
  import opened Events

  datatype Row = Row(event: Event, published: bool, token: Option<nat>, lease: Option<int>, attempts: nat)

  function NewRow(e: Event): Row {
    Row(e, false, None, None, 0)
  }

  function EventsOf(rows: seq<Row>): (es: seq<Event>)
    ensures |es| == |rows|
    ensures forall p :: 0 <= p < |rows| ==> es[p] == rows[p].event
  {
    seq(|rows|, p requires 0 <= p < |rows| => rows[p].event)
  }

  /** Every row before `p` is durably marked published. */
  ghost predicate AllPublishedBelow(rows: seq<Row>, p: nat) {
    p <= |rows| && forall q :: 0 <= q < p ==> rows[q].published
  }

  predicate Claimable(row: Row, at: int) {
    !row.published && (row.token.None? || row.lease.None? || row.lease.value <= at)
  }

  /** The `WHERE` clause shared by mark and release: still ours and the lease still runs. */
  predicate Owns(row: Row, token: nat, at: int) {
    row.token == Some(token) && !row.published && row.lease.Some? && row.lease.value > at
  }

  /** The first unpublished position at or after `from`, or `|rows|`. */
  function NextUnpublished(rows: seq<Row>, from: nat): (p: nat)
    requires from <= |rows|
    ensures from <= p <= |rows|
    ensures p < |rows| ==> !rows[p].published
    ensures forall q :: from <= q < p ==> rows[q].published
    decreases |rows| - from
  {
    if from == |rows| || !rows[from].published then from else NextUnpublished(rows, from + 1)
  }

  /**
   The run a claim takes from unpublished position `p` on: each next unpublished position while it
   is neither locked by another transaction nor under a running lease, at most `size` of them.
   */
  function ClaimRun(rows: seq<Row>, p: nat, at: int, size: nat, locked: set<nat>): seq<nat>
    requires p <= |rows|
    decreases size
  {
    if size == 0 || p == |rows| || p in locked || !Claimable(rows[p], at) then []
    else [p] + ClaimRun(rows, NextUnpublished(rows, p + 1), at, size - 1, locked)
  }

  /** The batch claimed at `at`: the run from the global head, empty when the head is a barrier. */
  function Batch(rows: seq<Row>, at: int, size: nat, locked: set<nat>): seq<nat> {
    ClaimRun(rows, NextUnpublished(rows, 0), at, size, locked)
  }

  ghost predicate Ascending(batch: seq<nat>) {
    forall i :: 0 <= i < |batch| - 1 ==> batch[i] < batch[i + 1]
  }

  /** A row as a claim leaves it: owner, lease, and one more claim attempt. */
  function Claimed(row: Row, token: nat, lease: int): Row {
    row.(token := Some(token), lease := Some(lease), attempts := row.attempts + 1)
  }

  function Stamp(rows: seq<Row>, batch: seq<nat>, token: nat, lease: int): (rs: seq<Row>)
    ensures |rs| == |rows|
    ensures forall p :: 0 <= p < |rows| ==> rs[p].event == rows[p].event && rs[p].published == rows[p].published
    ensures forall p :: 0 <= p < |rows| && p !in batch ==> rs[p] == rows[p]
  {
    seq(|rows|, p requires 0 <= p < |rows| =>
      if p in batch then Claimed(rows[p], token, lease) else rows[p])
  }

  function Mark(rows: seq<Row>, p: nat, token: nat, at: int): seq<Row>
    requires p < |rows|
  {
    if Owns(rows[p], token, at) then rows[p := rows[p].(published := true, token := None, lease := None)] else rows
  }

  function Release(rows: seq<Row>, p: nat, token: nat, at: int): seq<Row>
    requires p < |rows|
  {
    if Owns(rows[p], token, at) then rows[p := rows[p].(token := None, lease := None)] else rows
  }

  /** Position `y` is claimed right after `x`: it is the next unpublished one. */
  ghost predicate Follows(rows: seq<Row>, x: nat, y: nat) {
    x < |rows| && y == NextUnpublished(rows, x + 1)
  }

  /** A claimed batch holds only claimable, unlocked rows. */
  lemma {:induction false} ClaimRunClaimable(rows: seq<Row>, p: nat, at: int, size: nat, locked: set<nat>)
    requires p <= |rows|
    ensures var b := ClaimRun(rows, p, at, size, locked);
            && |b| <= size
            && forall k :: 0 <= k < |b| ==> b[k] < |rows| && Claimable(rows[b[k]], at) && b[k] !in locked
    decreases size
  {
    if ClaimRun(rows, p, at, size, locked) != [] {
      ClaimRunClaimable(rows, NextUnpublished(rows, p + 1), at, size - 1, locked);
    }
  }

  /** A claimed batch starts at `p` and skips published rows only. */
  lemma {:induction false} ClaimRunFollows(rows: seq<Row>, p: nat, at: int, size: nat, locked: set<nat>)
    requires p <= |rows|
    ensures var b := ClaimRun(rows, p, at, size, locked);
            && (b != [] ==> b[0] == p)
            && (forall k :: 0 <= k < |b| - 1 ==> Follows(rows, b[k], b[k + 1]))
            && Ascending(b)
    decreases size
  {
    var b := ClaimRun(rows, p, at, size, locked);
    if b != [] {
      var n := NextUnpublished(rows, p + 1);
      ClaimRunFollows(rows, n, at, size - 1, locked);
      var t := ClaimRun(rows, n, at, size - 1, locked);
      assert b == [p] + t;
      forall k | 0 <= k < |b| - 1 ensures Follows(rows, b[k], b[k + 1]) {
        assert b[k + 1] == t[k];
        assert k > 0 ==> b[k] == t[k - 1];
      }
    }
  }

  /** When the published rows are a prefix, a batch is a contiguous range starting right after it. */
  lemma {:induction false} ClaimRunContiguous(rows: seq<Row>, p: nat, at: int, size: nat, locked: set<nat>)
    requires p <= |rows|
    requires forall q :: p <= q < |rows| ==> !rows[q].published
    ensures var b := ClaimRun(rows, p, at, size, locked);
            && p + |b| <= |rows|
            && forall k :: 0 <= k < |b| ==> b[k] == p + k
    decreases size
  {
    var b := ClaimRun(rows, p, at, size, locked);
    if b != [] {
      ClaimRunContiguous(rows, p + 1, at, size - 1, locked);
      assert b == [p] + ClaimRun(rows, p + 1, at, size - 1, locked);
    }
  }

  /** An ascending batch repeats no position. */
  lemma {:induction false} ClaimRunAscending(batch: seq<nat>, k: nat)
    requires k < |batch|
    requires Ascending(batch)
    ensures batch[k] !in batch[..k]
    ensures forall i :: 0 <= i < k ==> batch[i] < batch[k]
  {
    if k > 0 {
      ClaimRunAscending(batch, k - 1);
    }
  }

  /** Stamping one more row of an ascending batch. */
  lemma StampNext(rows: seq<Row>, batch: seq<nat>, k: nat, token: nat, lease: int)
    requires k < |batch| && batch[k] < |rows|
    requires Ascending(batch)
    ensures var rs := Stamp(rows, batch[..k], token, lease);
            Stamp(rows, batch[..k + 1], token, lease) == rs[batch[k] := Claimed(rs[batch[k]], token, lease)]
  {
    ClaimRunAscending(batch, k);
    assert batch[..k + 1] == batch[..k] + [batch[k]];
  }

  /** A claim fences its rows: the token owns them and nobody can claim them again, exactly while the lease runs. */
  lemma ClaimFences(rows: seq<Row>, batch: seq<nat>, token: nat, lease: int, p: nat, at: int)
    requires p in batch && p < |rows| && !rows[p].published
    ensures var row := Stamp(rows, batch, token, lease)[p];
            && (Owns(row, token, at) <==> at < lease)
            && (Claimable(row, at) <==> lease <= at)
            && (forall other :: other != token ==> !Owns(row, other, at))
  {
  }

  /** Releasing undoes a claim, except that the attempt stays counted; marking ends the row's career. */
  lemma ReleaseUndoesClaim(rows: seq<Row>, batch: seq<nat>, token: nat, lease: int, p: nat, at: int)
    requires p in batch && p < |rows| && !rows[p].published && at < lease
    ensures var claimed := Stamp(rows, batch, token, lease);
            var free := Release(claimed, p, token, at);
            var marked := Mark(claimed, p, token, at);
            && free == claimed[p := rows[p].(token := None, lease := None, attempts := rows[p].attempts + 1)]
            && (forall now :: Claimable(free[p], now))
            && marked[p].published && (forall now :: !Claimable(marked[p], now))
            && (forall now, other :: !Owns(marked[p], other, now) && !Owns(free[p], other, now))
  {
  }

  // ---------- What a claim takes ----------

  /** The first unpublished position after `x`. */
  ghost predicate FirstAfter(rows: seq<Row>, x: int, p: nat) {
    x < p && p < |rows| && !rows[p].published && forall q: nat :: x < q && q < p ==> rows[q].published
  }

  /** Another claim's lease is running. */
  predicate Leased(row: Row, at: int) {
    row.token.Some? && row.lease.Some? && row.lease.value > at
  }

  /** The position cannot be taken now. */
  predicate Barred(rows: seq<Row>, p: nat, at: int, locked: set<nat>) {
    p in locked || (p < |rows| && Leased(rows[p], at))
  }

  function LastOf(x: int, batch: seq<nat>): int {
    if batch == [] then x else batch[|batch| - 1]
  }

  /**
   What a claim of at most `size` rows after `x` takes, said of the rows alone: each next unpublished row, none of them
   barred, and it stops short only where the next unpublished row is missing or barred.
   */
  ghost predicate Takes(rows: seq<Row>, x: int, at: int, size: nat, locked: set<nat>, batch: seq<nat>) {
    && |batch| <= size
    && (batch != [] ==> FirstAfter(rows, x, batch[0]))
    && (forall i, k :: 0 <= i && k == i + 1 && k < |batch| ==> FirstAfter(rows, batch[i], batch[k]))
    && (forall k :: 0 <= k < |batch| ==> !Barred(rows, batch[k], at, locked))
    && (|batch| < size ==> forall p: nat :: FirstAfter(rows, LastOf(x, batch), p) ==> Barred(rows, p, at, locked))
  }

  lemma TakesCons(rows: seq<Row>, x: int, at: int, size: nat, locked: set<nat>, p: nat, t: seq<nat>)
    requires size >= 1 && FirstAfter(rows, x, p) && !Barred(rows, p, at, locked) && Takes(rows, p, at, size - 1, locked, t)
    ensures Takes(rows, x, at, size, locked, [p] + t)
  {
    var b := [p] + t;
    forall i, k | 0 <= i && k == i + 1 && k < |b| ensures FirstAfter(rows, b[i], b[k]) {
      assert b[k] == t[k - 1];
      assert i > 0 ==> b[i] == t[i - 1];
    }
    assert LastOf(x, b) == LastOf(p, t);
  }

  lemma TakesTail(rows: seq<Row>, x: int, at: int, size: nat, locked: set<nat>, b: seq<nat>)
    requires Takes(rows, x, at, size, locked, b) && b != []
    ensures Takes(rows, b[0], at, size - 1, locked, b[1..])
  {
    var t := b[1..];
    forall i, k | 0 <= i && k == i + 1 && k < |t| ensures FirstAfter(rows, t[i], t[k]) {
      assert t[i] == b[i + 1] && t[k] == b[k + 1];
    }
    assert t != [] ==> FirstAfter(rows, b[0], b[1]);
    assert LastOf(x, b) == LastOf(b[0], t);
  }

  lemma {:induction false} ClaimRunTakes(rows: seq<Row>, x: int, p: nat, at: int, size: nat, locked: set<nat>)
    requires p <= |rows| && x < p && (forall q: nat :: x < q && q < p ==> rows[q].published)
    requires p < |rows| ==> !rows[p].published
    ensures Takes(rows, x, at, size, locked, ClaimRun(rows, p, at, size, locked))
    decreases size
  {
    if size > 0 && p < |rows| && p !in locked && Claimable(rows[p], at) {
      ClaimRunTakes(rows, p, NextUnpublished(rows, p + 1), at, size - 1, locked);
      TakesCons(rows, x, at, size, locked, p, ClaimRun(rows, NextUnpublished(rows, p + 1), at, size - 1, locked));
    }
  }

  /** The batch takes everything a claim may take, and nothing else. */
  lemma BatchTakes(rows: seq<Row>, at: int, size: nat, locked: set<nat>)
    ensures Takes(rows, -1, at, size, locked, Batch(rows, at, size, locked))
    ensures Batch(rows, at, size, locked) != [] <==>
              size >= 1 && exists p: nat :: FirstAfter(rows, -1, p) && !Barred(rows, p, at, locked)
  {
    var h := NextUnpublished(rows, 0);
    ClaimRunTakes(rows, -1, h, at, size, locked);
    if p: nat :| FirstAfter(rows, -1, p) && !Barred(rows, p, at, locked) {
      assert p == h;
    }
  }

  /** That description leaves no choice: there is one such batch. */
  lemma {:induction false} TakesUnique(rows: seq<Row>, x: int, at: int, size: nat, locked: set<nat>, a: seq<nat>, b: seq<nat>)
    requires Takes(rows, x, at, size, locked, a) && Takes(rows, x, at, size, locked, b)
    ensures a == b
    decreases size
  {
    if a != [] && b != [] {
      assert a[0] == b[0];
      TakesTail(rows, x, at, size, locked, a);
      TakesTail(rows, x, at, size, locked, b);
      TakesUnique(rows, a[0], at, size - 1, locked, a[1..], b[1..]);
      assert a == [a[0]] + a[1..] && b == [b[0]] + b[1..];
    }
  }

  /** The selection loop of `claim_batch`. */
  method SelectRun(rows: seq<Row>, at: int, size: nat, locked: set<nat>) returns (batch: seq<nat>)
    ensures batch == Batch(rows, at, size, locked) && Takes(rows, -1, at, size, locked, batch)
  {
    batch := SelectLoop(rows, at, size, locked);
    BatchTakes(rows, at, size, locked);
  }

  method SelectLoop(rows: seq<Row>, at: int, size: nat, locked: set<nat>) returns (batch: seq<nat>)
    ensures batch == Batch(rows, at, size, locked)
  {
    batch := [];
    var p: nat := NextUnpublished(rows, 0);
    while |batch| < size && p < |rows| && p !in locked && Claimable(rows[p], at)
      invariant p <= |rows| && |batch| <= size
      invariant batch + ClaimRun(rows, p, at, size - |batch|, locked) == Batch(rows, at, size, locked)
      decreases size - |batch|
    {
      ghost var rest := ClaimRun(rows, NextUnpublished(rows, p + 1), at, size - |batch| - 1, locked);
      assert batch + ([p] + rest) == (batch + [p]) + rest;
      batch := batch + [p];
      p := NextUnpublished(rows, p + 1);
    }
  }

  /** The table as the repository object mutates it. */
  class OutboxTable {
    var rows: seq<Row>

    constructor (rows: seq<Row>)
      ensures this.rows == rows
    {
      this.rows := rows;
    }

    method Enqueue(e: Event) returns (ok: bool)
      modifies this
      ensures ok == (forall p :: 0 <= p < |old(rows)| ==> old(rows)[p].event.id != e.id)
      ensures rows == if ok then old(rows) + [NewRow(e)] else old(rows)
    {
      ok := true;
      for p := 0 to |rows|
        invariant rows == old(rows)
        invariant ok == (forall q :: 0 <= q < p ==> rows[q].event.id != e.id)
      {
        if rows[p].event.id == e.id { ok := false; }
      }
      if ok { rows := rows + [NewRow(e)]; }
    }

    /** `claim_batch`: peek the head, extend the run row by row, then stamp every claimed row. */
    method ClaimBatch(token: nat, at: int, lease: int, size: int, locked: set<nat>)
      returns (ok: bool, batch: seq<nat>)
      modifies this
      ensures ok == (size >= 1 && lease > at)
      ensures ok ==> batch == Batch(old(rows), at, size, locked) && rows == Stamp(old(rows), batch, token, lease)
      ensures ok ==> Takes(old(rows), -1, at, size, locked, batch)
      ensures !ok ==> batch == [] && rows == old(rows)
    {
      if size < 1 || lease <= at { return false, []; }
      ok := true;
      batch := SelectRun(rows, at, size, locked);
      ClaimRunClaimable(rows, NextUnpublished(rows, 0), at, size, locked);
      ClaimRunFollows(rows, NextUnpublished(rows, 0), at, size, locked);
      StampBatch(batch, token, lease);
    }

    /** The update loop of `claim_batch`. */
    method StampBatch(batch: seq<nat>, token: nat, lease: int)
      requires Ascending(batch) && forall k :: 0 <= k < |batch| ==> batch[k] < |rows|
      modifies this
      ensures rows == Stamp(old(rows), batch, token, lease)
    {
      for k := 0 to |batch|
        invariant rows == Stamp(old(rows), batch[..k], token, lease)
      {
        StampNext(old(rows), batch, k, token, lease);
        rows := rows[batch[k] := Claimed(rows[batch[k]], token, lease)];
      }
      assert batch[..|batch|] == batch;
    }

    method MarkPublished(p: nat, token: nat, at: int) returns (marked: bool)
      requires p < |rows|
      modifies this
      ensures marked <==> old(rows)[p].token == Some(token) && !old(rows)[p].published && Leased(old(rows)[p], at)
      ensures marked ==> rows == old(rows)[p := old(rows)[p].(published := true, token := None, lease := None)]
      ensures !marked ==> rows == old(rows)
      ensures rows == Mark(old(rows), p, token, at)
    {
      marked := Owns(rows[p], token, at);
      if marked { rows := rows[p := rows[p].(published := true, token := None, lease := None)]; }
    }

    method ReleaseFailedClaim(p: nat, token: nat, at: int) returns (released: bool)
      requires p < |rows|
      modifies this
      ensures released <==> old(rows)[p].token == Some(token) && !old(rows)[p].published && Leased(old(rows)[p], at)
      ensures released ==> rows == old(rows)[p := old(rows)[p].(token := None, lease := None)]
      ensures !released ==> rows == old(rows)
      ensures rows == Release(old(rows), p, token, at)
    {
      released := Owns(rows[p], token, at);
      if released { rows := rows[p := rows[p].(token := None, lease := None)]; }
    }
  }
}
