/** The sliced, shutdown-aware backoff wait. Shutdown is a flag that is set at one instant and stays set. */
module Wait {
  import opened Prelude

  datatype Waited = Waited(end: real, stopped: bool)

  predicate Requested(stop: Option<real>, now: real) {
    stop.Some? && stop.value <= now
  }

  /** Enough slices to cover the whole wait; the termination measure of the loop. */
  lemma EnoughSlices(total: real, slice: real) returns (n: nat)
    requires slice > 0.0
    ensures total <= n as real * slice
  {
    if total <= 0.0 { return 0; }
    var q := total / slice;
    assert q * slice == total;
    assert q > 0.0;
    n := q.Floor + 1;
    assert q <= n as real;
    assert q * slice <= n as real * slice;
  }

  /** `_wait`, started at `now`: sleep slice by slice, looking at the flag before and after each slice. */
  method ShutdownAwareWait(now: real, total: real, slice: real, stop: Option<real>) returns (w: Waited)
    requires slice > 0.0
    ensures w.stopped <==> Requested(stop, now) || (total > 0.0 && Requested(stop, now + total))
    ensures !w.stopped ==> w.end == if total > 0.0 then now + total else now
    ensures w.stopped && Requested(stop, now) ==> w.end == now
    ensures w.stopped && !Requested(stop, now) ==> stop.value <= w.end < stop.value + slice && w.end <= now + total
  {
    if Requested(stop, now) { return Waited(now, true); }
    var t, remaining := now, total;
    ghost var n := EnoughSlices(total, slice);
    while remaining > 0.0
      invariant !Requested(stop, t)
      invariant total > 0.0 ==> remaining >= 0.0 && t + remaining == now + total
      invariant total <= 0.0 ==> t == now && remaining == total
      invariant remaining <= n as real * slice
      decreases n
    {
      assert n > 0 && (n - 1) as real * slice == n as real * slice - slice;
      n := n - 1;
      var thisSlice := if slice < remaining then slice else remaining;
      t := t + thisSlice;
      remaining := remaining - thisSlice;
      if Requested(stop, t) { return Waited(t, true); }
    }
    return Waited(t, false);
  }
}
