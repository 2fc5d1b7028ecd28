/** `ModelInvocationService._execute` and `evaluate_semantic` over a ledger that other processes share. */
module ModelService {
  import opened Prelude
  import opened ModelLedger

  /** What the provider call yields: a validated answer, or a model error. */
  datatype Answer = Text(text: string) | Error(error: ErrorClass)

  datatype Outcome =
    | Value(text: string)
    | InProgressError
    | ModelError(error: ErrorClass)
    | OwnershipLost
    | Unknown    // the stored output is missing or no longer fits the schema
    | RolledBack // the constraints refused the result

  /** What the caller gets when its attempt keeps ownership. */
  function Expected(answer: Answer): Outcome {
    if answer.Text? then Value(answer.text) else ModelError(answer.error)
  }

  lemma {:induction false} RunIsFold(ledger: Ledger, steps: seq<Step>)
    ensures Run(ledger, steps) == Fold(Apply, ledger, steps)
  {
    if steps != [] {
      RunIsFold(ledger, steps[..|steps| - 1]);
    }
  }

  lemma RunConcat(ledger: Ledger, a: seq<Step>, b: seq<Step>)
    ensures Run(ledger, a + b) == Run(Run(ledger, a), b)
  {
    RunIsFold(ledger, a);
    RunIsFold(ledger, a + b);
    RunIsFold(Run(ledger, a), b);
    FoldConcat(Apply, ledger, a, b);
  }

  class LedgerTable {
    var rows: Ledger
    var schedule: seq<seq<Step>> // what other processes do at each opportunity
    ghost var history: seq<Step>

    ghost predicate Valid()
      reads this
    {
      rows == Run(map[], history)
    }

    constructor (others: seq<seq<Step>>)
      ensures Valid() && rows == map[]
    {
      rows, schedule, history := map[], others, [];
    }

    lemma IsSound()
      requires Valid()
      ensures Inv(rows)
    {
      RunKeepsInv(map[], history);
    }

    method Take(step: Step)
      requires Valid()
      modifies this
      ensures Valid() && rows == Apply(old(rows), step) && history == old(history) + [step] && schedule == old(schedule)
    {
      rows := Apply(rows, step);
      history := history + [step];
      assert history[..|history| - 1] == old(history);
    }

    method Interfere() returns (ghost tail: seq<Step>)
      requires Valid()
      modifies this
      ensures Valid() && history == old(history) + tail && rows == Run(old(rows), tail)
      ensures old(schedule) == [] ==> tail == [] && schedule == []
    {
      tail := [];
      if schedule != [] {
        var steps := schedule[0];
        schedule := schedule[1..];
        RunConcat(map[], history, steps);
        rows, history, tail := Run(rows, steps), history + steps, steps;
      }
    }
  }

  /** Attempt `i` is the latest of an invocation in progress. */
  predicate Running(ledger: Ledger, key: Key, i: nat) {
    key in ledger && Latest(ledger[key], i) && ledger[key].status.InProgress?
  }

  /** Malformed answers so far. */
  function Malformeds(ledger: Ledger, key: Key): nat {
    if key in ledger then MalformedCount(ledger[key].attempts) else 0
  }

  /** What an undisturbed call leaves: the answer as output, or the failure, counted if it was malformed. */
  ghost predicate AfterAnswer(before: Ledger, after: Ledger, key: Key, answer: Answer) {
    && key in after
    && (if answer.Text? then after[key].status == Done && after[key].output == Some(answer.text)
        else after[key].status == Broken && Malformeds(after, key) == Malformeds(before, key) + One(answer.error == Malformed))
  }

  lemma BeginCounts(ledger: Ledger, key: Key, now: int, timeout: nat, claimValid: bool)
    requires Inv(ledger) && MayBegin(ledger, key, now, claimValid)
    ensures Malformeds(Apply(ledger, Begin(key, now, timeout, claimValid)), key) == Malformeds(ledger, key)
  {
    OpenIff(ledger, key, now, timeout, claimValid);
    OpenSound(ledger, key, now, timeout, claimValid);
    var a := Attempt(Started, now + timeout, now, None);
    if key !in ledger {
      MalformedSnoc([], a);
    } else if ledger[key].status.InProgress? {
      assert Sound(key, ledger[key]);
      MarkStaleSound(key, ledger[key], claimValid, now);
      MalformedSnoc(MarkStale(ledger[key], now).value.attempts, a);
    } else {
      MalformedSnoc(ledger[key].attempts, a);
    }
  }

  /** An attempt may begin, and no answer was malformed so far. */
  ghost predicate Untried(ledger: Ledger, key: Key, now: int, claimValid: bool) {
    MayBegin(ledger, key, now, claimValid) && Malformeds(ledger, key) == 0
  }

  /** The key has its durable output. */
  predicate HasOutput(ledger: Ledger, key: Key) {
    key in ledger && ledger[key].status.Done? && ledger[key].output.Some?
  }

  /** A stored output, if it still fits the caller's schema. */
  function Replayed(output: string, fits: string -> bool): Outcome {
    if fits(output) then Value(output) else Unknown
  }

  class ModelInvocationService {
    const table: LedgerTable

    constructor (table: LedgerTable)
      ensures this.table == table
    {
      this.table := table;
    }

    /**
     One `_execute`: replay, refuse, or begin an attempt, call the provider once and record its answer under
     the attempt's fence. It calls the provider exactly if the key is new, failed below the cap, or in progress with its
     job's claim gone and its deadline passed; a key that had succeeded is replayed, or refused by the schema. A value it
     returns is the durable output of the key.
     */
    method Execute(key: Key, now: int, timeout: nat, claimValid: bool, answer: Answer, finished: int, fits: string -> bool)
      returns (r: Outcome, called: bool)
      requires table.Valid()
      modifies table
      ensures table.Valid() && old(table.history) <= table.history
      ensures called <==> MayBegin(old(table.rows), key, now, claimValid)
      ensures !called ==> table.rows == old(table.rows) && table.schedule == old(table.schedule)
      ensures r == InProgressError <==> key in old(table.rows) && old(table.rows)[key].status.InProgress? && !called
      ensures r == ModelError(Malformed) && !called <==>
                key in old(table.rows) && old(table.rows)[key].status.Broken? && !called
      ensures HasOutput(old(table.rows), key) ==> !called && r == Replayed(old(table.rows)[key].output.value, fits)
      ensures r.Value? ==> key in table.rows && table.rows[key].status.Done? && table.rows[key].output == Some(r.text)
      ensures called ==> r == Expected(answer) || r.OwnershipLost? || r.RolledBack?
      ensures called && old(table.schedule) == [] && finished >= now ==>
                r == Expected(answer) && table.schedule == [] && AfterAnswer(old(table.rows), table.rows, key, answer)
    {
      table.IsSound();
      assert key in table.rows ==> Sound(key, table.rows[key]);
      OpenIff(table.rows, key, now, timeout, claimValid);
      called := false;
      match Open(table.rows, key, now, timeout, claimValid)
      case Replay(output) => return Replayed(output, fits), called;
      case Corrupt => return Unknown, called;
      case Busy => return InProgressError, called;
      case CapReached => return ModelError(Malformed), called;
      case Begun(row) =>
        called := true;
        r := Attempt(key, now, timeout, claimValid, answer, finished);
    }

    /** Begin an attempt, call the provider, and record what it answers. */
    method Attempt(key: Key, now: int, timeout: nat, claimValid: bool, answer: Answer, finished: int) returns (r: Outcome)
      requires table.Valid() && MayBegin(table.rows, key, now, claimValid)
      modifies table
      ensures table.Valid() && old(table.history) <= table.history
      ensures r == Expected(answer) || r.OwnershipLost? || r.RolledBack?
      ensures r.Value? ==> key in table.rows && table.rows[key].status.Done? && table.rows[key].output == Some(r.text)
      ensures old(table.schedule) == [] && finished >= now ==>
                r == Expected(answer) && table.schedule == [] && AfterAnswer(old(table.rows), table.rows, key, answer)
    {
      table.IsSound();
      BeginIff(table.rows, key, now, timeout, claimValid);
      BeginCounts(table.rows, key, now, timeout, claimValid);
      table.Take(Begin(key, now, timeout, claimValid));
      var i: nat := |table.rows[key].attempts| - 1;
      r := Record(key, i, answer, finished);
    }

    /** The provider call, during which anything may happen, and the transaction that records its answer. */
    method Record(key: Key, i: nat, answer: Answer, finished: int) returns (r: Outcome)
      requires table.Valid()
      modifies table
      ensures table.Valid() && old(table.history) <= table.history
      ensures r.Value? || r.ModelError? || r.OwnershipLost? || r.RolledBack?
      ensures r.Value? ==> key in table.rows && table.rows[key].status.Done? && table.rows[key].output == Some(r.text)
      ensures r.Value? ==> answer == Text(r.text)
      ensures r.ModelError? ==> answer == Error(r.error)
      ensures old(table.schedule) == [] && Running(old(table.rows), key, i) && finished >= old(table.rows)[key].started ==>
                r == Expected(answer) && table.schedule == [] && AfterAnswer(old(table.rows), table.rows, key, answer)
    {
      ghost var tail := table.Interfere();
      var step := if answer.Text? then Success(key, i, answer.text, finished) else Failure(key, i, answer.error, finished);
      var row := Flushed(table.rows, step);
      table.IsSound();
      if Running(table.rows, key, i) {
        var text, error := if answer.Text? then answer.text else "", if answer.Text? then Stale else answer.error;
        ResultRefusedIff(table.rows, key, i, text, error, finished);
        if finished >= table.rows[key].started { ResultWrites(table.rows, key, i, text, error, finished); }
      }
      if row.None? { return OwnershipLost; }
      if !Check(row.value) { return RolledBack; }
      table.Take(step);
      r := Expected(answer);
    }

    /**
     `evaluate_semantic`: one retry after a malformed answer, at most two provider calls. Undisturbed, a first malformed
     answer leads to whatever the second call answers.
     */
    method EvaluateSemantic(key: Key, clock: nat -> int, timeout: nat, claimValid: nat -> bool, answers: nat -> Answer, fits: string -> bool)
      returns (r: Outcome, calls: nat)
      requires table.Valid() && key.node.Evaluate?
      modifies table
      ensures table.Valid() && old(table.history) <= table.history
      ensures calls <= 2 && (HasOutput(old(table.rows), key) ==> calls == 0)
      ensures r.Value? ==> key in table.rows && table.rows[key].status.Done? && table.rows[key].output == Some(r.text)
      ensures old(table.schedule) == [] && clock(0) <= clock(1) && clock(2) <= clock(3) && Untried(old(table.rows), key, clock(0), claimValid(0)) ==>
                if answers(0) == Error(Malformed) then calls == 2 && r == Expected(answers(1))
                else calls == 1 && r == Expected(answers(0))
    {
      var called;
      r, called := Execute(key, clock(0), timeout, claimValid(0), answers(0), clock(1), fits);
      calls := if called then 1 else 0;
      if r == ModelError(Malformed) {
        ghost var tail := table.Interfere();
        r, called := Execute(key, clock(2), timeout, claimValid(1), answers(1), clock(3), fits);
        calls := calls + if called then 1 else 0;
      }
    }
  }
}
