/** What the operations of a workflow context do, retries included, as functions on the tables and the context of one
    execution; each is a sequence of the moves of DurableSteps. */
module OperationMoves {
  import opened Options
  import opened Workflows
  import opened DurableSteps

  const MAX_RETRY_WAIT_MS: real := 2000.0
  const BACKOFF_FACTOR: real := 1.5
  const MAX_RETRY_INTERVAL_SEC: real := 3600.0
  const MAX_RETRIES_REACHED: string := "Step reached maximum retries."

  // ---- what the operations do, as moves ---------------------------------------------------------

  function AttemptSpec(app: App, t: Tables, c: Ctx, fate: Fate): (Tables, Ctx)
    requires NextAction(app, c.wf, c.hist).Transactional()
  {
    var d := CheckTxStep(app, t, c);
    if d.phase.Checked? then RunTxStep(app, t, d, fate) else (t, d)
  }

  /** `transaction`: attempts that fail to serialize are retried, a body's error is recorded. */
  function TransactionSpec(app: App, t: Tables, c: Ctx, fates: seq<Fate>): (Tables, Ctx)
    requires NextAction(app, c.wf, c.hist).Transactional()
    decreases |fates|
  {
    var (t', d) := AttemptSpec(app, t, c, if fates == [] then Success else fates[0]);
    if d.phase.Aborting? then RecordErrorStep(app, t', d)
    else if fates != [] && d.phase.Ready? && |d.hist| == |c.hist| then TransactionSpec(app, t', d, fates[1..])
    else (t', d)
  }

  /** A body's error is recorded; any other end of an attempt stands. */
  function Recorded(app: App, spec: (Tables, Ctx)): (Tables, Ctx) {
    if spec.1.phase.Aborting? then RecordErrorStep(app, spec.0, spec.1) else spec
  }

  function FateAt(fates: seq<Fate>, i: nat): Fate {
    if i < |fates| then fates[i] else Success
  }

  /** A failure to serialize, which leaves the execution where it was, goes on with the next attempt. */
  lemma SpecRetries(app: App, t: Tables, c: Ctx, fates: seq<Fate>, i: nat, t': Tables, d: Ctx)
    requires NextAction(app, c.wf, c.hist).Transactional() && i < |fates|
    requires AttemptSpec(app, t, c, fates[i]) == (t', d) && d.phase.Ready? && d.wf == c.wf && d.hist == c.hist
    ensures TransactionSpec(app, t, c, fates[i..]) == TransactionSpec(app, t', d, fates[i + 1..])
  {
    assert fates[i..][0] == fates[i] && fates[i..][1..] == fates[i + 1..];
  }

  /** Any other attempt is the last. */
  lemma SpecEnds(app: App, t: Tables, c: Ctx, fates: seq<Fate>, i: nat)
    requires NextAction(app, c.wf, c.hist).Transactional() && i <= |fates|
    ensures
      var spec := AttemptSpec(app, t, c, FateAt(fates, i));
      !spec.1.phase.Ready? || |spec.1.hist| != |c.hist| ==>
        TransactionSpec(app, t, c, fates[i..]) == Recorded(app, spec)
  {
  }

  /** The wait before retry `i`, in milliseconds: it grows by a factor up to a cap. */
  function WaitAt(i: nat): (r: real)
    ensures 1.0 <= r <= MAX_RETRY_WAIT_MS
  {
    if i == 0 then 1.0
    else
      var longer := WaitAt(i - 1) * BACKOFF_FACTOR;
      if longer < MAX_RETRY_WAIT_MS then longer else MAX_RETRY_WAIT_MS
  }

  /** How every other operation begins: flush if it flushes, and look itself up. */
  function BeginSpec(app: App, t: Tables, c: Ctx): (Tables, Ctx) {
    var (t', d) := if NextAction(app, c.wf, c.hist).FlushesFirst() then FlushStep(t, c) else (t, c);
    if d.phase.Conflict? then (t', d) else (t', CheckOpStep(app, t', d))
  }

  /** If it has found no row, it runs: `wait` is the end of its wait, if it has to wait; with outcome `o` it records
      itself. */
  function OperationSpec(app: App, t: Tables, c: Ctx, o: Outcome, wait: Option<Value>): (Tables, Ctx) {
    var (t', e) := BeginSpec(app, t, c);
    if e.phase.Checked? then RecordOpStep(app, Waited(t', e, wait), e, o) else (t', e)
  }

  function Waited(t: Tables, c: Ctx, wait: Option<Value>): Tables {
    match wait
    case None => t
    case Some(until) => StartWaitStep(t, c, until)
  }

  /** What a step function yields over its attempts: the first success, or an error. */
  function StepOutcome(call: nat -> Outcome, retriesAllowed: bool, maxAttempts: nat): Outcome {
    if retriesAllowed then FirstSuccess(call, 0, maxAttempts) else call(0)
  }

  function FirstSuccess(call: nat -> Outcome, from: nat, maxAttempts: nat): Outcome
    decreases maxAttempts - from
  {
    if from >= maxAttempts then Err(MAX_RETRIES_REACHED)
    else if call(from).Ok? then call(from)
    else FirstSuccess(call, from + 1, maxAttempts)
  }

  /** The attempt is the first to succeed. */
  ghost predicate FirstAt(call: nat -> Outcome, i: nat) {
    call(i).Ok? && forall j: nat :: j < i ==> call(j).Err?
  }

  /** How many attempts a step takes. */
  ghost predicate Attempts(call: nat -> Outcome, retriesAllowed: bool, maxAttempts: nat, n: nat) {
    if !retriesAllowed then n == 1
    else if n > 0 && FirstAt(call, n - 1) then n <= maxAttempts
    else n == maxAttempts && forall i: nat :: i < maxAttempts ==> call(i).Err?
  }

  /** What a step yields: its only attempt, or its first success within the limit, or an error. */
  ghost predicate StepYields(call: nat -> Outcome, retriesAllowed: bool, maxAttempts: nat, o: Outcome) {
    if !retriesAllowed then o == call(0)
    else
      || (exists i: nat :: i < maxAttempts && FirstAt(call, i) && o == call(i))
      || (o == Err(MAX_RETRIES_REACHED) && forall i: nat :: i < maxAttempts ==> call(i).Err?)
  }

  lemma {:induction false} FirstSuccessYields(call: nat -> Outcome, from: nat, maxAttempts: nat)
    requires from <= maxAttempts && forall j: nat :: j < from ==> call(j).Err?
    ensures StepYields(call, true, maxAttempts, FirstSuccess(call, from, maxAttempts))
    decreases maxAttempts - from
  {
    if from < maxAttempts {
      if call(from).Ok? { assert FirstAt(call, from); } else { FirstSuccessYields(call, from + 1, maxAttempts); }
    }
  }

  /** A step yields its first success within the limit, or an error if there is none. */
  lemma StepOutcomeYields(call: nat -> Outcome, retriesAllowed: bool, maxAttempts: nat)
    ensures StepYields(call, retriesAllowed, maxAttempts, StepOutcome(call, retriesAllowed, maxAttempts))
  {
    if retriesAllowed { FirstSuccessYields(call, 0, maxAttempts); }
  }

  function Power(i: nat): real { if i == 0 then 1.0 else Power(i - 1) * 1.5 }

  lemma {:induction false} PowersGrow(i: nat)
    ensures Power(i) >= 1.0
  {
    if i > 0 { PowersGrow(i - 1); }
  }

  /** The waits grow by half each time, from a millisecond, up to two seconds. */
  lemma {:induction false} WaitsGrow(i: nat)
    ensures WaitAt(i) == if Power(i) < 2000.0 then Power(i) else 2000.0
  {
    if i > 0 {
      WaitsGrow(i - 1);
      PowersGrow(i - 1);
    }
  }

  function PerformAll(app: App, t: Tables, c: Ctx, ms: seq<Move>): (Tables, Ctx)
    decreases |ms|
  {
    if ms == [] || !Enabled(app, c, ms[0]) then (t, c)
    else
      var (t', d) := Perform(app, t, c, ms[0]);
      PerformAll(app, t', d, ms[1..])
  }

  /** `ms` can be performed in order. */
  ghost predicate Performable(app: App, t: Tables, c: Ctx, ms: seq<Move>)
    decreases |ms|
  {
    ms == [] || (
      && Enabled(app, c, ms[0])
      && var (t', d) := Perform(app, t, c, ms[0]);
         Performable(app, t', d, ms[1..]))
  }

  /** A transactional operation is a sequence of moves of the run model. */
  lemma {:induction false} TransactionIsMoves(app: App, t: Tables, c: Ctx, fates: seq<Fate>) returns (ms: seq<Move>)
    requires NextAction(app, c.wf, c.hist).Transactional() && c.phase.Ready?
    ensures Performable(app, t, c, ms) && PerformAll(app, t, c, ms) == TransactionSpec(app, t, c, fates)
    decreases |fates|
  {
    var fate := if fates == [] then Success else fates[0];
    var d := CheckTxStep(app, t, c);
    if d.phase.Checked? {
      var (t', e) := RunTxStep(app, t, d, fate);
      if e.phase.Aborting? {
        ms := [RecordError];
        OneMove(app, t', e, RecordError);
      } else if fates != [] && e.phase.Ready? && |e.hist| == |c.hist| {
        ms := TransactionIsMoves(app, t', e, fates[1..]);
      } else {
        ms := [];
      }
      Prepend(app, t, d, RunTx(fate), ms);
      ms := [RunTx(fate)] + ms;
    } else if d.phase.Aborting? {
      ms := [RecordError];
      OneMove(app, t, d, RecordError);
    } else {
      ms := [];
    }
    Prepend(app, t, c, CheckTx, ms);
    ms := [CheckTx] + ms;
  }

  lemma Prepend(app: App, t: Tables, c: Ctx, m: Move, ms: seq<Move>)
    requires Enabled(app, c, m) && Performable(app, Perform(app, t, c, m).0, Perform(app, t, c, m).1, ms)
    ensures Performable(app, t, c, [m] + ms)
    ensures PerformAll(app, t, c, [m] + ms) == PerformAll(app, Perform(app, t, c, m).0, Perform(app, t, c, m).1, ms)
  {
    assert ([m] + ms)[1..] == ms;
  }

  lemma OneMove(app: App, t: Tables, c: Ctx, m: Move)
    requires Enabled(app, c, m)
    ensures Performable(app, t, c, [m]) && PerformAll(app, t, c, [m]) == Perform(app, t, c, m)
  {
    assert [m][1..] == [];
  }

  /** So is every other operation. */
  lemma OperationIsMoves(app: App, t: Tables, c: Ctx, o: Outcome, wait: Option<Value>) returns (ms: seq<Move>)
    requires NextAction(app, c.wf, c.hist).Operational() && c.phase.Ready?
    requires Possible(NextAction(app, c.wf, c.hist), o)
    requires wait.Some? ==> NextAction(app, c.wf, c.hist).Waits()
    ensures Performable(app, t, c, ms) && PerformAll(app, t, c, ms) == OperationSpec(app, t, c, o, wait)
  {
    var a := NextAction(app, c.wf, c.hist);
    var (t', d) := if a.FlushesFirst() then FlushStep(t, c) else (t, c);
    if d.phase.Conflict? {
      ms := [];
    } else {
      var e := CheckOpStep(app, t', d);
      ms := if e.phase.Checked? then RunMoves(app, t', e, o, wait) else [];
      Prepend(app, t', d, CheckOp, ms);
      ms := [CheckOp] + ms;
    }
    if a.FlushesFirst() {
      Prepend(app, t, c, Flush, ms);
      ms := [Flush] + ms;
    }
  }

  function RunMoves(app: App, t: Tables, c: Ctx, o: Outcome, wait: Option<Value>): (ms: seq<Move>)
    requires Enabled(app, c, RecordOp(o)) && (wait.Some? ==> NextAction(app, c.wf, c.hist).Waits())
    ensures Performable(app, t, c, ms)
    ensures PerformAll(app, t, c, ms) == RecordOpStep(app, Waited(t, c, wait), c, o)
  {
    match wait
    case None =>
      OneMove(app, t, c, RecordOp(o));
      [RecordOp(o)]
    case Some(until) =>
      var t' := StartWaitStep(t, c, until);
      OneMove(app, t', c, RecordOp(o));
      Prepend(app, t, c, StartWait(until), [RecordOp(o)]);
      [StartWait(until)] + [RecordOp(o)]
  }
}
