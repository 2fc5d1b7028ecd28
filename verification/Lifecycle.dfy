/**
 The research-job entity: validated construction, the eight lifecycle transitions, and rebuilding from
 durable columns. Timestamps are instants on the UTC time line; a naive timestamp has none and is refused.
 */
module Lifecycle {
  import opened Prelude

  datatype Status = Pending | Running | AwaitingReview | Completed | Failed

  datatype Job = Job(
    id: string, question: string, status: Status, created: int, updated: int,
    started: Option<int>, finished: Option<int>, result: Option<string>, failure: Option<string>)

  /** A caller's timestamp: with or without a time zone. */
  datatype Stamp = Naive | Aware(instant: int)

  /** What a transition is given: an optional timestamp, and the clock it falls back to. */
  datatype When = When(at: Option<Stamp>, clock: int)

  datatype Reason =
    | EmptyText | IdTooLong | NaiveTimestamp | BeforeUpdate | AlreadyStarted | NeverStarted
    | OutOfOrder | FieldsContradictStatus

  datatype Error = InvalidTransition(current: Status, attempted: Status) | InvalidJob(reason: Reason)

  datatype Result<T> = Ok(value: T) | Err(error: Error)

  const MaxIdLength := 128

  // ---------- Text ----------

  /** The characters `str.strip` removes. */
  predicate Space(c: char) {
    var n := c as int;
    || 0x09 <= n <= 0x0D || 0x1C <= n <= 0x20 || n == 0x85 || n == 0xA0 || n == 0x1680
    || 0x2000 <= n <= 0x200A || n == 0x2028 || n == 0x2029 || n == 0x202F || n == 0x205F || n == 0x3000
  }

  function LStrip(s: string): string {
    if s != [] && Space(s[0]) then LStrip(s[1..]) else s
  }

  function RStrip(s: string): string {
    if s != [] && Space(s[|s| - 1]) then RStrip(s[..|s| - 1]) else s
  }

  function Strip(s: string): string {
    RStrip(LStrip(s))
  }

  /** Neither end is white space. */
  predicate Trimmed(s: string) {
    s == [] || (!Space(s[0]) && !Space(s[|s| - 1]))
  }

  lemma {:induction false} LStripStart(s: string)
    ensures LStrip(s) != [] ==> !Space(LStrip(s)[0])
    ensures LStrip(s) == [] <==> forall i :: 0 <= i < |s| ==> Space(s[i])
  {
    if s != [] && Space(s[0]) {
      LStripStart(s[1..]);
      assert forall i :: 1 <= i < |s| ==> s[i] == s[1..][i - 1];
    }
  }

  lemma {:induction false} RStripEnd(s: string)
    ensures RStrip(s) <= s
    ensures RStrip(s) != [] ==> !Space(RStrip(s)[|RStrip(s)| - 1])
    ensures s != [] && !Space(s[0]) ==> RStrip(s) != []
  {
    if s != [] && Space(s[|s| - 1]) {
      RStripEnd(s[..|s| - 1]);
    }
  }

  /** Stripping trims, empties exactly the blank strings, and changes exactly the untrimmed ones. */
  lemma StripTrims(s: string)
    ensures Trimmed(Strip(s))
    ensures Strip(s) == [] <==> forall i :: 0 <= i < |s| ==> Space(s[i])
    ensures Strip(s) == s <==> Trimmed(s)
  {
    LStripStart(s);
    RStripEnd(LStrip(s));
  }

  predicate Blank(s: string) {
    forall i :: 0 <= i < |s| ==> Space(s[i])
  }

  lemma {:induction false} LStripPart(s: string) returns (i: nat)
    ensures i <= |s| && LStrip(s) == s[i..] && Blank(s[..i])
  {
    i := 0;
    if s != [] && Space(s[0]) {
      var k := LStripPart(s[1..]);
      i := k + 1;
      assert s[1..][k..] == s[i..];
      forall n | 0 <= n < i ensures Space(s[n]) {
        assert n > 0 ==> s[n] == s[1..][..k][n - 1];
      }
    }
  }

  lemma {:induction false} RStripPart(s: string) returns (k: nat)
    ensures k <= |s| && RStrip(s) == s[..k] && Blank(s[k..])
  {
    k := |s|;
    if s != [] && Space(s[|s| - 1]) {
      var t := s[..|s| - 1];
      k := RStripPart(t);
      assert t[..k] == s[..k];
      forall n | 0 <= n < |s[k..]| ensures Space(s[k..][n]) {
        assert n < |t[k..]| ==> s[k..][n] == t[k..][n];
      }
    }
  }

  /** Stripping takes a contiguous part out of a string, with only white space around it. */
  lemma StripIsPart(s: string)
    ensures exists i: nat, k: nat :: i <= k && k <= |s| && Strip(s) == s[i..k] && Blank(s[..i]) && Blank(s[k..])
  {
    var i := LStripPart(s);
    var t := s[i..];
    var n := RStripPart(t);
    var k := i + n;
    assert t[..n] == s[i..k] && t[n..] == s[k..];
  }

  lemma StripIdempotent(s: string)
    ensures Strip(Strip(s)) == Strip(s)
  {
    StripTrims(s);
    StripTrims(Strip(s));
  }

  // ---------- Validation ----------

  function RequireText(s: string): Result<string> {
    if Strip(s) == [] then Err(InvalidJob(EmptyText)) else Ok(Strip(s))
  }

  function RequireId(s: string): Result<string> {
    if Strip(s) == [] then Err(InvalidJob(EmptyText))
    else if |Strip(s)| > MaxIdLength then Err(InvalidJob(IdTooLong))
    else Ok(Strip(s))
  }

  function Resolve(w: When): Result<int> {
    match w.at
    case None => Ok(w.clock)
    case Some(Naive) => Err(InvalidJob(NaiveTimestamp))
    case Some(Aware(t)) => Ok(t)
  }

  function Create(id: string, question: string, w: When): Result<Job> {
    if RequireId(id).Err? then Err(RequireId(id).error)
    else if RequireText(question).Err? then Err(RequireText(question).error)
    else if Resolve(w).Err? then Err(Resolve(w).error)
    else
      var t := Resolve(w).value;
      Ok(Job(Strip(id), Strip(question), Pending, t, t, None, None, None, None))
  }

  // ---------- Transitions ----------

  datatype Transition =
    | Start(w: When)
    | ResumeFromPending(w: When)
    | Complete(text: string, w: When)
    | Fail(text: string, w: When)
    | AwaitReview(w: When)
    | ReturnToPending(w: When)
    | ApproveToPending(w: When)
    | FailFromReview(text: string, w: When)

  function From(t: Transition): Status {
    match t
    case Start(_) => Pending
    case ResumeFromPending(_) => Pending
    case ApproveToPending(_) => AwaitingReview
    case FailFromReview(_, _) => AwaitingReview
    case _ => Running
  }

  function To(t: Transition): Status {
    match t
    case Start(_) => Running
    case ResumeFromPending(_) => Running
    case Complete(_, _) => Completed
    case Fail(_, _) => Failed
    case AwaitReview(_) => AwaitingReview
    case ReturnToPending(_) => Pending
    case ApproveToPending(_) => Pending
    case FailFromReview(_, _) => Failed
  }

  /** What a transition checks after its source status and before its timestamp. */
  function Precheck(j: Job, t: Transition): Option<Reason> {
    match t
    case Start(_) => if j.started.Some? then Some(AlreadyStarted) else None
    case ResumeFromPending(_) => if j.started.None? then Some(NeverStarted) else None
    case Complete(text, _) => if Strip(text) == [] then Some(EmptyText) else None
    case Fail(text, _) => if Strip(text) == [] then Some(EmptyText) else None
    case FailFromReview(text, _) => if Strip(text) == [] then Some(EmptyText) else None
    case _ => None
  }

  /** The job after a transition at instant `at`. */
  function Moved(j: Job, t: Transition, at: int): Job {
    var m := j.(status := To(t), updated := at);
    match t
    case Start(_) => m.(started := Some(at))
    case Complete(text, _) => m.(result := Some(Strip(text)), failure := None, finished := Some(at))
    case Fail(text, _) => m.(failure := Some(Strip(text)), result := None, finished := Some(at))
    case FailFromReview(text, _) => m.(failure := Some(Strip(text)), result := None, finished := Some(at))
    case ReturnToPending(_) => m.(finished := None, result := None, failure := None)
    case _ => m
  }

  function Step(j: Job, t: Transition): Result<Job> {
    if j.status != From(t) then Err(InvalidTransition(j.status, To(t)))
    else if Precheck(j, t).Some? then Err(InvalidJob(Precheck(j, t).value))
    else if Resolve(t.w).Err? then Err(Resolve(t.w).error)
    else if Resolve(t.w).value < j.updated then Err(InvalidJob(BeforeUpdate))
    else Ok(Moved(j, t, Resolve(t.w).value))
  }

  /** A refused transition leaves the job as it was. */
  function After(j: Job, t: Transition): Job {
    if Step(j, t).Ok? then Step(j, t).value else j
  }

  function Run(j: Job, ts: seq<Transition>): Job {
    if ts == [] then j else After(Run(j, ts[..|ts| - 1]), ts[|ts| - 1])
  }

  // ---------- Rebuilding ----------

  /** The durable columns. */
  datatype Columns = Columns(
    id: string, question: string, status: Status, created: Stamp, updated: Stamp,
    started: Option<Stamp>, finished: Option<Stamp>, result: Option<string>, failure: Option<string>)

  function ToColumns(j: Job): Columns {
    Columns(j.id, j.question, j.status, Aware(j.created), Aware(j.updated),
            if j.started.Some? then Some(Aware(j.started.value)) else None,
            if j.finished.Some? then Some(Aware(j.finished.value)) else None, j.result, j.failure)
  }

  predicate Readable(s: Option<Stamp>) {
    s.Some? ==> s.value.Aware?
  }

  function Instant(s: Option<Stamp>): Option<int>
    requires Readable(s)
  {
    if s.Some? then Some(s.value.instant) else None
  }

  predicate TextOk(s: Option<string>) {
    s.Some? ==> Strip(s.value) != []
  }

  function Cleaned(s: Option<string>): Option<string> {
    if s.Some? then Some(Strip(s.value)) else None
  }

  /** Which optional fields each status has. */
  predicate FieldsFit(j: Job) {
    match j.status
    case Pending => j.finished.None? && j.result.None? && j.failure.None?
    case Running => j.started.Some? && j.finished.None? && j.result.None? && j.failure.None?
    case AwaitingReview => j.started.Some? && j.finished.None? && j.result.None? && j.failure.None?
    case Completed => j.started.Some? && j.finished.Some? && j.result.Some? && j.failure.None?
    case Failed => j.started.Some? && j.finished.Some? && j.failure.Some? && j.result.None?
  }

  /** created <= started <= finished <= updated, as far as they are set. */
  predicate InOrder(j: Job) {
    && (j.started.Some? ==> j.created <= j.started.value)
    && (if j.started.Some? && j.finished.Some? then j.started.value <= j.finished.value && j.finished.value <= j.updated
        else j.started.Some? ==> j.started.value <= j.updated)
  }

  function Reconstitute(c: Columns): Result<Job> {
    if RequireId(c.id).Err? then Err(RequireId(c.id).error)
    else if RequireText(c.question).Err? then Err(InvalidJob(EmptyText))
    else if c.created.Naive? || c.updated.Naive? || !Readable(c.started) || !Readable(c.finished)
    then Err(InvalidJob(NaiveTimestamp))
    else if !TextOk(c.result) || !TextOk(c.failure) then Err(InvalidJob(EmptyText))
    else
      var j := Job(Strip(c.id), Strip(c.question), c.status, c.created.instant, c.updated.instant,
                   Instant(c.started), Instant(c.finished), Cleaned(c.result), Cleaned(c.failure));
      if j.updated < j.created then Err(InvalidJob(OutOfOrder))
      else if !FieldsFit(j) then Err(InvalidJob(FieldsContradictStatus))
      else if !InOrder(j) then Err(InvalidJob(OutOfOrder))
      else Ok(j)
  }

  // ---------- Well-formed jobs ----------

  predicate CleanText(s: string) {
    s != [] && Trimmed(s)
  }

  predicate CleanOption(s: Option<string>) {
    s.Some? ==> CleanText(s.value)
  }

  /** Everything the entity promises of itself. */
  predicate Wf(j: Job) {
    && CleanText(j.id) && |j.id| <= MaxIdLength && CleanText(j.question)
    && CleanOption(j.result) && CleanOption(j.failure)
    && j.created <= j.updated && FieldsFit(j) && InOrder(j)
  }

  lemma CreateWf(id: string, question: string, w: When)
    ensures Create(id, question, w).Ok? ==> Wf(Create(id, question, w).value)
  {
    StripTrims(id);
    StripTrims(question);
  }

  lemma StepWf(j: Job, t: Transition)
    requires Wf(j)
    ensures Wf(After(j, t))
  {
    match t
    case Complete(text, _) => StripTrims(text);
    case Fail(text, _) => StripTrims(text);
    case FailFromReview(text, _) => StripTrims(text);
    case _ =>
  }

  lemma {:induction false} RunWf(j: Job, ts: seq<Transition>)
    requires Wf(j)
    ensures Wf(Run(j, ts))
  {
    if ts != [] {
      RunWf(j, ts[..|ts| - 1]);
      StepWf(Run(j, ts[..|ts| - 1]), ts[|ts| - 1]);
    }
  }

  /** Rebuilding accepts exactly well-formed jobs, unchanged, and never yields anything else. */
  lemma ReconstituteIff(j: Job)
    ensures Reconstitute(ToColumns(j)) == Ok(j) <==> Wf(j)
  {
    StripTrims(j.id);
    StripTrims(j.question);
    if j.result.Some? { StripTrims(j.result.value); }
    if j.failure.Some? { StripTrims(j.failure.value); }
  }

  lemma ReconstituteWf(c: Columns)
    ensures Reconstitute(c).Ok? ==> Wf(Reconstitute(c).value)
  {
    StripTrims(c.id);
    StripTrims(c.question);
    if c.result.Some? { StripTrims(c.result.value); }
    if c.failure.Some? { StripTrims(c.failure.value); }
  }

  // ---------- What is accepted ----------

  /** The instant a transition is given, if it is one. */
  function InstantOf(w: When): Option<int> {
    match w.at
    case None => Some(w.clock)
    case Some(s) => if s == Naive then None else Some(s.instant)
  }

  /** Creation accepts exactly non-blank texts, an id that fits once trimmed, and a timestamp with a zone. */
  lemma CreateIff(id: string, question: string, w: When)
    ensures Create(id, question, w).Ok? <==> !Blank(id) && |Strip(id)| <= 128 && !Blank(question) && InstantOf(w).Some?
    ensures Create(id, question, w).Ok? ==>
              var j := Create(id, question, w).value;
              && j.id == Strip(id) && j.question == Strip(question) && j.status == Pending
              && Some(j.created) == InstantOf(w) && j.updated == j.created
              && j.started == None && j.finished == None && j.result == None && j.failure == None
  {
    StripTrims(id);
    StripTrims(question);
  }

  /** The lifecycle as a table: from which status each transition starts, and what else it asks of the job. */
  predicate Legal(j: Job, t: Transition) {
    match t
    case Start(_) => j.status == Pending && j.started == None
    case ResumeFromPending(_) => j.status == Pending && j.started != None
    case Complete(text, _) => j.status == Running && !Blank(text)
    case Fail(text, _) => j.status == Running && !Blank(text)
    case AwaitReview(_) => j.status == Running
    case ReturnToPending(_) => j.status == Running
    case ApproveToPending(_) => j.status == AwaitingReview
    case FailFromReview(text, _) => j.status == AwaitingReview && !Blank(text)
  }

  /** A transition is made exactly if it is legal, has an instant, and that is not before the last update. */
  lemma StepIff(j: Job, t: Transition)
    ensures Step(j, t).Ok? <==> Legal(j, t) && InstantOf(t.w).Some? && j.updated <= InstantOf(t.w).value
  {
    match t
    case Complete(text, _) => StripTrims(text);
    case Fail(text, _) => StripTrims(text);
    case FailFromReview(text, _) => StripTrims(text);
    case _ =>
  }

  /** What a transition leaves alone, and what it writes. */
  lemma StepWrites(j: Job, t: Transition)
    requires Step(j, t).Ok?
    ensures var k := Step(j, t).value;
            && k.id == j.id && k.question == j.question && k.created == j.created && Some(k.updated) == InstantOf(t.w)
            && (if t.Start? then k.started == InstantOf(t.w) else k.started == j.started)
            && (k.status == Completed <==> t.Complete?) && (k.status == Failed <==> t.Fail? || t.FailFromReview?)
            && (k.status == AwaitingReview <==> t.AwaitReview?)
            && (k.status == Running <==> t.Start? || t.ResumeFromPending?)
            && (t.Complete? ==> k.result == Some(Strip(t.text)) && k.finished == InstantOf(t.w))
            && (t.Fail? || t.FailFromReview? ==> k.failure == Some(Strip(t.text)) && k.finished == InstantOf(t.w))
  {
  }

  /** The job the columns describe, with its texts trimmed. */
  function Described(c: Columns): Option<Job> {
    if c.created.Naive? || c.updated.Naive? || !Readable(c.started) || !Readable(c.finished) then None
    else Some(Job(Strip(c.id), Strip(c.question), c.status, c.created.instant, c.updated.instant,
                  Instant(c.started), Instant(c.finished), Cleaned(c.result), Cleaned(c.failure)))
  }

  /** Rebuilding accepts exactly the columns that describe a well-formed job, and yields that job. */
  lemma ReconstituteAcceptsIff(c: Columns)
    ensures Reconstitute(c).Ok? <==> Described(c).Some? && Wf(Described(c).value)
    ensures Reconstitute(c).Ok? ==> Some(Reconstitute(c).value) == Described(c)
  {
    StripTrims(c.id);
    StripTrims(c.question);
    if c.result.Some? { StripTrims(c.result.value); }
    if c.failure.Some? { StripTrims(c.failure.value); }
  }

  // ---------- Theorems ----------

  /** `j` is some job created and then taken through some transitions, failed ones included. */
  ghost predicate Reachable(j: Job) {
    exists id, question, w, ts :: Create(id, question, w).Ok? && Run(Create(id, question, w).value, ts) == j
  }

  /** Nothing but transitions touches `updated_at`. */
  predicate Tight(j: Job) {
    && (j.status.Pending? && j.started.None? ==> j.created == j.updated)
    && (j.finished.Some? ==> j.finished.value == j.updated)
  }

  /** Every reachable job survives the round trip through its columns. */
  lemma RoundTrip(j: Job)
    requires Reachable(j)
    ensures Reconstitute(ToColumns(j)) == Ok(j)
  {
    var id, question, w, ts :| Create(id, question, w).Ok? && Run(Create(id, question, w).value, ts) == j;
    CreateWf(id, question, w);
    RunWf(Create(id, question, w).value, ts);
    ReconstituteIff(j);
  }

  lemma {:induction false} RunTight(j: Job, ts: seq<Transition>)
    requires Wf(j) && Tight(j)
    ensures Tight(Run(j, ts))
  {
    if ts != [] {
      RunTight(j, ts[..|ts| - 1]);
      RunWf(j, ts[..|ts| - 1]);
    }
  }

  /** Terminal states absorb: every transition is refused by status, in every continuation. */
  lemma {:induction false} TerminalAbsorbs(j: Job, ts: seq<Transition>)
    requires j.status.Completed? || j.status.Failed?
    ensures Run(j, ts) == j
    ensures forall t :: Step(j, t) == Err(InvalidTransition(j.status, To(t)))
  {
    if ts != [] {
      TerminalAbsorbs(j, ts[..|ts| - 1]);
    }
  }

  function Exactly(t: int): When {
    When(Some(Aware(t)), 0)
  }

  /** The transitions that lead from creation to a started job in the given status. */
  function Route(j: Job): seq<Transition>
    requires Wf(j)
  {
    if j.started.None? then []
    else
      var begin, at := Exactly(j.started.value), Exactly(j.updated);
      match j.status
      case Pending => [Start(begin), ReturnToPending(at)]
      case Running => [Start(begin), ReturnToPending(at), ResumeFromPending(at)]
      case AwaitingReview => [Start(begin), AwaitReview(at)]
      case Completed => [Start(begin), Complete(j.result.value, at)]
      case Failed => [Start(begin), Fail(j.failure.value, at)]
  }

  lemma RunTwo(j: Job, a: Transition, b: Transition)
    ensures Run(j, [a, b]) == After(After(j, a), b)
  {
    assert [a, b][..1] == [a] && [a][..0] == [];
    assert Run(j, [a]) == After(Run(j, []), a);
  }

  lemma RunThree(j: Job, a: Transition, b: Transition, c: Transition)
    ensures Run(j, [a, b, c]) == After(After(After(j, a), b), c)
  {
    assert [a, b, c][..2] == [a, b];
    RunTwo(j, a, b);
  }

  /** The job right after it was started. */
  function Begun(j: Job): Job
    requires j.started.Some?
  {
    Job(j.id, j.question, Running, j.created, j.started.value, j.started, None, None, None)
  }

  lemma BegunArrives(j: Job)
    requires Wf(j)
    ensures var c := Create(j.id, j.question, Exactly(j.created));
            && c.Ok? && c.value == Job(j.id, j.question, Pending, j.created, j.created, None, None, None, None)
            && (j.started.Some? ==> After(c.value, Start(Exactly(j.started.value))) == Begun(j))
  {
    StripTrims(j.id);
    StripTrims(j.question);
  }

  lemma RouteArrives(j: Job)
    requires Wf(j) && Tight(j)
    ensures var c := Create(j.id, j.question, Exactly(j.created)); c.Ok? && Run(c.value, Route(j)) == j
  {
    BegunArrives(j);
    var c := Create(j.id, j.question, Exactly(j.created)).value;
    if j.started.Some? {
      var r := Route(j);
      if j.result.Some? { StripTrims(j.result.value); }
      if j.failure.Some? { StripTrims(j.failure.value); }
      if j.status.Running? {
        RunThree(c, r[0], r[1], r[2]);
      } else {
        RunTwo(c, r[0], r[1]);
      }
    }
  }

  /**
   Exactly which jobs the lifecycle can produce: those that rebuilding accepts and whose `updated_at` is
   still the creation time (never started) or the finishing time (finished).
   */
  lemma ReachableIff(j: Job)
    ensures Reachable(j) <==> Reconstitute(ToColumns(j)) == Ok(j) && Tight(j)
  {
    ReconstituteIff(j);
    if Reachable(j) {
      RoundTrip(j);
      var id, question, w, ts :| Create(id, question, w).Ok? && Run(Create(id, question, w).value, ts) == j;
      CreateWf(id, question, w);
      RunTight(Create(id, question, w).value, ts);
    }
    if Wf(j) && Tight(j) {
      RouteArrives(j);
    }
  }

  // ---------- The entity ----------

  class ResearchJob {
    var id: string
    var question: string
    var status: Status
    var created: int
    var updated: int
    var started: Option<int>
    var finished: Option<int>
    var result: Option<string>
    var failure: Option<string>

    function Snapshot(): Job
      reads this
    {
      Job(id, question, status, created, updated, started, finished, result, failure)
    }

    constructor (j: Job)
      ensures Snapshot() == j
    {
      id, question, status, created, updated := j.id, j.question, j.status, j.created, j.updated;
      started, finished, result, failure := j.started, j.finished, j.result, j.failure;
    }

    /** The status and timestamp checks every transition makes, in the source's order. */
    method Admit(t: Transition) returns (r: Result<int>)
      ensures r.Ok? <==> Step(Snapshot(), t).Ok?
      ensures r.Ok? ==> r == Resolve(t.w) && status == From(t) && Precheck(Snapshot(), t).None?
      ensures r.Err? ==> r.error == Step(Snapshot(), t).error
    {
      if status != From(t) { return Err(InvalidTransition(status, To(t))); }
      var bad := Precheck(Snapshot(), t);
      if bad.Some? { return Err(InvalidJob(bad.value)); }
      r := Resolve(t.w);
      if r.Ok? && r.value < updated { r := Err(InvalidJob(BeforeUpdate)); }
    }

    method Start(w: When) returns (r: Result<int>)
      modifies this
      ensures Snapshot() == After(old(Snapshot()), Transition.Start(w))
      ensures r.Ok? <==> Step(old(Snapshot()), Transition.Start(w)).Ok?
    {
      r := Admit(Transition.Start(w));
      if r.Ok? { status, started, updated := Running, Some(r.value), r.value; }
    }

    method ResumeFromPending(w: When) returns (r: Result<int>)
      modifies this
      ensures Snapshot() == After(old(Snapshot()), Transition.ResumeFromPending(w))
      ensures r.Ok? <==> Step(old(Snapshot()), Transition.ResumeFromPending(w)).Ok?
    {
      r := Admit(Transition.ResumeFromPending(w));
      if r.Ok? { status, updated := Running, r.value; }
    }

    method Complete(text: string, w: When) returns (r: Result<int>)
      modifies this
      ensures Snapshot() == After(old(Snapshot()), Transition.Complete(text, w))
      ensures r.Ok? <==> Step(old(Snapshot()), Transition.Complete(text, w)).Ok?
    {
      r := Admit(Transition.Complete(text, w));
      if r.Ok? {
        status, result, failure := Completed, Some(Strip(text)), None;
        finished, updated := Some(r.value), r.value;
      }
    }

    method Fail(text: string, w: When) returns (r: Result<int>)
      modifies this
      ensures Snapshot() == After(old(Snapshot()), Transition.Fail(text, w))
      ensures r.Ok? <==> Step(old(Snapshot()), Transition.Fail(text, w)).Ok?
    {
      r := Admit(Transition.Fail(text, w));
      if r.Ok? {
        status, failure, result := Failed, Some(Strip(text)), None;
        finished, updated := Some(r.value), r.value;
      }
    }

    method AwaitReview(w: When) returns (r: Result<int>)
      modifies this
      ensures Snapshot() == After(old(Snapshot()), Transition.AwaitReview(w))
      ensures r.Ok? <==> Step(old(Snapshot()), Transition.AwaitReview(w)).Ok?
    {
      r := Admit(Transition.AwaitReview(w));
      if r.Ok? { status, updated := AwaitingReview, r.value; }
    }

    method ReturnToPending(w: When) returns (r: Result<int>)
      modifies this
      ensures Snapshot() == After(old(Snapshot()), Transition.ReturnToPending(w))
      ensures r.Ok? <==> Step(old(Snapshot()), Transition.ReturnToPending(w)).Ok?
    {
      r := Admit(Transition.ReturnToPending(w));
      if r.Ok? {
        status, finished, result, failure := Pending, None, None, None;
        updated := r.value;
      }
    }

    method ApproveToPending(w: When) returns (r: Result<int>)
      modifies this
      ensures Snapshot() == After(old(Snapshot()), Transition.ApproveToPending(w))
      ensures r.Ok? <==> Step(old(Snapshot()), Transition.ApproveToPending(w)).Ok?
    {
      r := Admit(Transition.ApproveToPending(w));
      if r.Ok? { status, updated := Pending, r.value; }
    }

    method FailFromReview(text: string, w: When) returns (r: Result<int>)
      modifies this
      ensures Snapshot() == After(old(Snapshot()), Transition.FailFromReview(text, w))
      ensures r.Ok? <==> Step(old(Snapshot()), Transition.FailFromReview(text, w)).Ok?
    {
      r := Admit(Transition.FailFromReview(text, w));
      if r.Ok? {
        status, failure, result := Failed, Some(Strip(text)), None;
        finished, updated := Some(r.value), r.value;
      }
    }
  }
}
