/** Overlapping windows over a text: `chunk_normalized_text`. */
module Chunking {

  datatype Chunk = Chunk(ordinal: nat, text: string, start: nat, end: nat)

  datatype Error = BadSize | BadOverlap | EmptyText | TooManyChunks

  datatype Result = Ok(chunks: seq<Chunk>) | Err(error: Error)

  function Min(a: nat, b: nat): nat {
    if a < b then a else b
  }

  /** The window that begins at `start`. */
  function Window(text: string, size: nat, start: nat, ordinal: nat): Chunk
    requires start < |text|
  {
    var end := Min(start + size, |text|);
    Chunk(ordinal, text[start..end], start, end)
  }

  /** The windows from `start` on, each `step` after the one before, until one reaches the end. */
  function WindowsFrom(text: string, size: nat, step: nat, start: nat, ordinal: nat): (w: seq<Chunk>)
    requires 1 <= step <= size && start < |text|
    ensures w != []
    decreases |text| - start
  {
    [Window(text, size, start, ordinal)]
    + if start + size >= |text| then [] else WindowsFrom(text, size, step, start + step, ordinal + 1)
  }

  /** The ceiling of `a / b`. */
  function CeilDiv(a: nat, b: nat): nat
    requires b >= 1
  {
    (a + b - 1) / b
  }

  /** Quotient and remainder are unique. */
  lemma DivUnique(a: int, b: int, q: int, r: int)
    requires 0 <= r < b && a == q * b + r
    ensures a / b == q
  {
    var d := a / b - q;
    assert a == (a / b) * b + a % b;
    assert d * b == r - a % b;
    assert d >= 1 ==> d * b >= b;
    assert d <= -1 ==> d * b <= -b;
  }

  lemma DivStep(a: nat, b: nat)
    requires b >= 1
    ensures (a + b) / b == a / b + 1
    ensures a < b ==> a / b == 0
  {
    assert a == (a / b) * b + a % b;
    assert (a / b + 1) * b == (a / b) * b + b;
    DivUnique(a + b, b, a / b + 1, a % b);
    if a < b {
      DivUnique(a, b, 0, a);
    }
  }

  /** One more step is one more window. */
  lemma CeilStep(a: nat, b: nat)
    requires a >= 1 && b >= 1
    ensures CeilDiv(a, b) == if a <= b then 1 else CeilDiv(a - b, b) + 1
  {
    DivStep(a - 1, b);
    if a > b {
      DivStep(a - b - 1, b);
      assert a - b + b - 1 == a - 1;
      assert a - b - 1 + b == a - 1;
    }
  }

  /** The number of windows in closed form. */
  lemma {:induction false} WindowCount(text: string, size: nat, step: nat, start: nat, ordinal: nat)
    requires 1 <= step <= size && start < |text|
    ensures |WindowsFrom(text, size, step, start, ordinal)| ==
            if start + size >= |text| then 1 else CeilDiv(|text| - size - start, step) + 1
    decreases |text| - start
  {
    if start + size < |text| {
      WindowCount(text, size, step, start + step, ordinal + 1);
      CeilStep(|text| - size - start, step);
    }
  }

  /** The method's arguments pass its checks. */
  predicate Valid(text: string, size: int, overlap: int) {
    size >= 1 && 0 <= overlap < size && text != []
  }

  /** The windows of a whole text. */
  function Windows(text: string, size: nat, overlap: nat): seq<Chunk>
    requires Valid(text, size, overlap)
  {
    WindowsFrom(text, size, size - overlap, 0, 0)
  }

  /**
   `chunk_normalized_text`. The error cases in the order of the checks; a text longer than one window is
   refused exactly when the number of windows it needs exceeds the limit, which a short text never consults.
   */
  method ChunkText(text: string, size: int, overlap: int, maxChunks: int) returns (r: Result)
    ensures r == Err(BadSize) <==> size < 1
    ensures r == Err(BadOverlap) <==> size >= 1 && !(0 <= overlap < size)
    ensures r == Err(EmptyText) <==> size >= 1 && 0 <= overlap < size && text == []
    ensures r == Err(TooManyChunks) <==>
              Valid(text, size, overlap) && |text| > size && CeilDiv(|text| - size, size - overlap) + 1 > maxChunks
    ensures r.Ok? ==> Valid(text, size, overlap) && r.chunks == Windows(text, size, overlap)
  {
    if size < 1 { return Err(BadSize); }
    if overlap < 0 || overlap >= size { return Err(BadOverlap); }
    if text == [] { return Err(EmptyText); }
    WindowCount(text, size, size - overlap, 0, 0);
    if |text| <= size {
      assert text[0..|text|] == text;
      return Ok([Chunk(0, text, 0, |text|)]);
    }
    r := WindowLoop(text, size, size - overlap, maxChunks);
  }

  /** The loop: all windows, unless one more than the limit is needed. */
  method WindowLoop(text: string, size: nat, step: nat, maxChunks: int) returns (r: Result)
    requires 1 <= step <= size && text != []
    ensures var all := WindowsFrom(text, size, step, 0, 0);
            r == if |all| > maxChunks then Err(TooManyChunks) else Ok(all)
  {
    ghost var all := WindowsFrom(text, size, step, 0, 0);
    var chunks: seq<Chunk> := [];
    var start, ordinal := 0, 0;
    while true
      invariant 0 <= start < |text| && ordinal == |chunks|
      invariant chunks + WindowsFrom(text, size, step, start, ordinal) == all
      decreases |text| - start
    {
      if ordinal >= maxChunks { return Err(TooManyChunks); }
      var window := Window(text, size, start, ordinal);
      ghost var later := WindowsFrom(text, size, step, start, ordinal)[1..];
      assert chunks + ([window] + later) == (chunks + [window]) + later;
      chunks := chunks + [window];
      if window.end >= |text| { break; }
      start, ordinal := start + step, ordinal + 1;
    }
    r := Ok(chunks);
  }

  // ---------- What the windows are ----------

  /** The window is what it says it is. */
  ghost predicate Honest(text: string, c: Chunk) {
    c.start < c.end <= |text| && c.text == text[c.start..c.end]
  }

  /** `d` follows `c`: they share exactly the overlap, `c` is full, and `d` adds something. */
  ghost predicate Adjoins(c: Chunk, d: Chunk, size: nat, overlap: nat) {
    && d.ordinal == c.ordinal + 1
    && c.end == c.start + size && d.start + overlap == c.end && c.end < d.end
  }

  lemma WindowHonest(text: string, size: nat, start: nat, ordinal: nat)
    requires start < |text| && size >= 1
    ensures Honest(text, Window(text, size, start, ordinal))
  {
  }

  ghost predicate AllHonest(text: string, w: seq<Chunk>) {
    forall i :: 0 <= i < |w| ==> Honest(text, w[i])
  }

  ghost predicate AllAdjoin(w: seq<Chunk>, size: nat, overlap: nat) {
    forall i, k :: 0 <= i && k == i + 1 && k < |w| ==> Adjoins(w[i], w[k], size, overlap)
  }

  lemma {:induction false} WindowsHonest(text: string, size: nat, step: nat, start: nat, ordinal: nat)
    requires 1 <= step <= size && start < |text|
    ensures AllHonest(text, WindowsFrom(text, size, step, start, ordinal))
    decreases |text| - start
  {
    WindowHonest(text, size, start, ordinal);
    if start + size < |text| {
      WindowsHonest(text, size, step, start + step, ordinal + 1);
    }
  }

  lemma {:induction false} WindowsReachEnd(text: string, size: nat, step: nat, start: nat, ordinal: nat)
    requires 1 <= step <= size && start < |text|
    ensures var w := WindowsFrom(text, size, step, start, ordinal); w[|w| - 1].end == |text|
    decreases |text| - start
  {
    if start + size < |text| {
      WindowsReachEnd(text, size, step, start + step, ordinal + 1);
    }
  }

  lemma NextAdjoins(text: string, size: nat, step: nat, start: nat, ordinal: nat)
    requires 1 <= step <= size && start + size < |text|
    ensures Adjoins(Window(text, size, start, ordinal), Window(text, size, start + step, ordinal + 1), size, size - step)
  {
  }

  lemma SingleAdjoins(c: Chunk, size: nat, overlap: nat)
    ensures AllAdjoin([c], size, overlap)
  {
  }

  lemma {:induction false} WindowsAdjoin(text: string, size: nat, step: nat, start: nat, ordinal: nat)
    requires 1 <= step <= size && start < |text|
    ensures AllAdjoin(WindowsFrom(text, size, step, start, ordinal), size, size - step)
    decreases |text| - start
  {
    var c := Window(text, size, start, ordinal);
    if start + size < |text| {
      var t := WindowsFrom(text, size, step, start + step, ordinal + 1);
      WindowsAdjoin(text, size, step, start + step, ordinal + 1);
      NextAdjoins(text, size, step, start, ordinal);
      ConsAdjoins(c, t, size, size - step);
      assert WindowsFrom(text, size, step, start, ordinal) == [c] + t;
    } else {
      SingleAdjoins(c, size, size - step);
      assert WindowsFrom(text, size, step, start, ordinal) == [c];
    }
  }

  lemma ConsAdjoins(c: Chunk, t: seq<Chunk>, size: nat, overlap: nat)
    requires t != [] && Adjoins(c, t[0], size, overlap) && AllAdjoin(t, size, overlap)
    ensures AllAdjoin([c] + t, size, overlap)
  {
    var w := [c] + t;
    forall i, k | 0 <= i && k == i + 1 && k < |w| ensures Adjoins(w[i], w[k], size, overlap) {
      assert i > 0 ==> Adjoins(t[i - 1], t[k - 1], size, overlap);
    }
  }

  /** Every window is at least as long as the overlap. */
  ghost predicate Overlapping(chunks: seq<Chunk>, overlap: nat) {
    forall i :: 0 <= i < |chunks| ==> overlap <= |chunks[i].text|
  }

  /** The first window and what each later one adds to it. */
  ghost function Rebuild(chunks: seq<Chunk>, overlap: nat): string
    requires Overlapping(chunks, overlap)
  {
    if chunks == [] then []
    else if |chunks| == 1 then chunks[0].text
    else Rebuild(chunks[..|chunks| - 1], overlap) + chunks[|chunks| - 1].text[overlap..]
  }

  /** All windows are what they say and each adjoins the next. */
  ghost predicate Chained(text: string, chunks: seq<Chunk>, size: nat, overlap: nat) {
    AllHonest(text, chunks) && AllAdjoin(chunks, size, overlap)
  }

  lemma {:induction false} RebuildPrefix(text: string, chunks: seq<Chunk>, size: nat, overlap: nat)
    requires chunks != [] && overlap < size && chunks[0].start == 0
    requires Chained(text, chunks, size, overlap) && Overlapping(chunks, overlap)
    ensures Rebuild(chunks, overlap) == text[..chunks[|chunks| - 1].end]
  {
    var m := |chunks| - 1;
    assert Honest(text, chunks[m]);
    if m > 0 {
      RebuildPrefix(text, chunks[..m], size, overlap);
      var c, d := chunks[m - 1], chunks[m];
      assert Adjoins(c, d, size, overlap);
      assert d.text[overlap..] == text[c.end..d.end];
      assert text[..d.end] == text[..c.end] + text[c.end..d.end];
    }
  }

  /** Two windows share exactly the overlap, and the second adds at least one character. */
  ghost predicate Shares(c: Chunk, d: Chunk, size: nat, overlap: nat) {
    && |c.text| == size && overlap < |d.text| && overlap <= size
    && c.text[size - overlap..] == d.text[..overlap]
  }

  ghost predicate AllShare(w: seq<Chunk>, size: nat, overlap: nat) {
    forall i, k :: 0 <= i && k == i + 1 && k < |w| ==> Shares(w[i], w[k], size, overlap)
  }

  lemma SharedOverlap(text: string, c: Chunk, d: Chunk, size: nat, overlap: nat)
    requires Honest(text, c) && Honest(text, d) && overlap < size && Adjoins(c, d, size, overlap)
    ensures Shares(c, d, size, overlap)
  {
    assert c.text[size - overlap..] == text[c.end - overlap..c.end];
    assert d.text[..overlap] == text[d.start..d.start + overlap];
  }

  lemma ChainedOverlapping(text: string, chunks: seq<Chunk>, size: nat, overlap: nat)
    requires Chained(text, chunks, size, overlap) && overlap < size && chunks != []
    requires overlap <= |chunks[0].text|
    ensures Overlapping(chunks, overlap)
    ensures AllShare(chunks, size, overlap)
  {
    forall i, k | 0 <= i && k == i + 1 && k < |chunks| ensures Shares(chunks[i], chunks[k], size, overlap) {
      assert Adjoins(chunks[i], chunks[k], size, overlap);
      SharedOverlap(text, chunks[i], chunks[k], size, overlap);
    }
    forall i | 0 <= i < |chunks| ensures overlap <= |chunks[i].text| {
      assert i > 0 ==> Shares(chunks[i - 1], chunks[i], size, overlap);
    }
  }

  /**
   The windows of a text longer than one: adjacent ones share exactly `overlap` characters, every later one adds
   at least one, and putting them back together gives the text.
   */
  lemma WindowsRebuild(text: string, size: nat, overlap: nat)
    requires Valid(text, size, overlap) && |text| > size
    ensures var w := Windows(text, size, overlap);
            && Chained(text, w, size, overlap) && Overlapping(w, overlap)
            && AllShare(w, size, overlap)
            && Rebuild(w, overlap) == text
  {
    var w := Windows(text, size, overlap);
    WindowsHonest(text, size, size - overlap, 0, 0);
    WindowsReachEnd(text, size, size - overlap, 0, 0);
    WindowsAdjoin(text, size, size - overlap, 0, 0);
    assert w[0] == Window(text, size, 0, 0);
    ChainedOverlapping(text, w, size, overlap);
    RebuildPrefix(text, w, size, overlap);
    assert text[..|text|] == text;
  }
}
