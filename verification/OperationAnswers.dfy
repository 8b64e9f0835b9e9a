/** What the workflow function gets back from its operations and what they leave in the tables, told by what the
    operations were given: the body's result, the step's attempts, the messages that wait. */
module OperationAnswers {
  import opened Options
  import opened Workflows
  import opened DurableSteps
  import opened OperationMoves

  // ---- what is there to be met --------------------------------------------------------------------

  /** No buffered result has a row already. */
  predicate BufferFree(t: Tables, c: Ctx) {
    forall k :: k in c.buffer ==> Key(c.wf, k) !in t.tx
  }

  /** The old rows, and those of the buffer. */
  ghost predicate Flushes(t: Tables, c: Ctx, tx: map<Key, TxRow>) {
    && (forall k :: k in tx <==> k in t.tx || (k.wf == c.wf && k.id in c.buffer))
    && (forall k :: k in t.tx ==> tx[k] == t.tx[k])
    && (forall k :: k in c.buffer ==> tx[Key(c.wf, k)] == TxRow(Ok(c.buffer[k]), false))
  }

  /** The execution has got one more outcome, and is ready for the next operation. */
  predicate Got(c: Ctx, d: Ctx, a: Action, o: Outcome) {
    d.hist == c.hist + [Entry(c.Id(), a, o)] && d.phase.Ready? && d.wf == c.wf && d.preset == c.preset
  }

  // ---- operations that record themselves ----------------------------------------------------------

  /** What an operation that really runs returns, and what it does to mailboxes and events. */
  ghost predicate Answers(ex: Exchange, ex': Exchange, k: Key, a: Action, given: Outcome, o: Outcome) {
    match a
    case Send(wf, topic, message) =>
      var to := Address(wf, topic);
      && o == Ok(UNIT) && ex'.events == ex.events
      && ex'.Waiting(to) == ex.Waiting(to) + [message]
      && forall b :: b != to ==> ex'.Waiting(b) == ex.Waiting(b)
    case Recv(topic) =>
      var at := Address(k.wf, topic);
      && ex'.events == ex.events
      && (forall b :: b != at ==> ex'.Waiting(b) == ex.Waiting(b))
      && (ex.Waiting(at) == [] ==> o == Ok(NULL) && ex'.Waiting(at) == [])
      && (ex.Waiting(at) != [] ==> o.Ok? && ex.Waiting(at) == [o.value] + ex'.Waiting(at))
    case SetEvent(name, payload) =>
      && o == Ok(UNIT) && (forall b :: ex'.Waiting(b) == ex.Waiting(b))
      && ex'.events == ex.events[EventKey(k.wf, name) := payload]
    case GetEvent(wf, name) =>
      && ex' == ex && (o == given || o == Ok(NULL))
      && (given.Ok? && EventSet(EventKey(wf, name), given.value) in ex.sets ==> o == given)
    case _ => ex' == ex && o == given
  }

  /** The rows, with one for the end of a wait. */
  function Waits(ops: map<Key, Outcome>, k: Key, wait: Option<Value>): map<Key, Outcome> {
    if wait.None? || k in ops then ops else ops[k := Ok(wait.value)]
  }

  /** Nothing but the rows of flushed results is different. */
  ghost predicate Begun(t: Tables, c: Ctx, a: Action, t': Tables, buffer: map<nat, Value>) {
    && (if a.FlushesFirst() then Flushes(t, c, t'.tx) && buffer == map[] else t'.tx == t.tx && buffer == c.buffer)
    && t'.db == t.db && t'.effects == t.effects
  }

  lemma BeginsNew(app: App, t: Tables, c: Ctx)
    requires
      var a := NextAction(app, c.wf, c.hist);
      && a.Operational() && c.phase.Ready? && (a.FlushesFirst() ==> BufferFree(t, c)) && c.MyKey() !in t.ops
    ensures
      var (t', e) := BeginSpec(app, t, c);
      Begun(t, c, NextAction(app, c.wf, c.hist), t', e.buffer) && t'.ops == t.ops && t'.ex == t.ex
      && e == c.(buffer := e.buffer, phase := Checked)
  {
  }

  lemma RecordAnswers(app: App, t: Tables, c: Ctx, given: Outcome)
    requires NextAction(app, c.wf, c.hist).Operational() && Possible(NextAction(app, c.wf, c.hist), given)
    requires c.MyKey() !in t.ops
    ensures
      var a := NextAction(app, c.wf, c.hist);
      var (t', d) := RecordOpStep(app, t, c, given);
      && d.hist != [] && Got(c, d, a, d.hist[|d.hist| - 1].outcome) && d.buffer == c.buffer
      && Answers(t.ex, t'.ex, c.MyKey(), a, given, d.hist[|d.hist| - 1].outcome)
      && t' == t.(ops := t.ops[c.MyKey() := d.hist[|d.hist| - 1].outcome], ex := t'.ex)
  {
  }

  /** A NEW OPERATION: with no row of its own, and none for what is buffered if it flushes, an operation records what it
      was given, or what it found, returns the same, and flushes if it is one that does; nothing else changes. */
  lemma {:induction false} NewOperation(app: App, t: Tables, c: Ctx, given: Outcome, wait: Option<Value>)
    returns (o: Outcome)
    requires
      var a := NextAction(app, c.wf, c.hist);
      && a.Operational() && Possible(a, given) && c.phase.Ready? && (wait.Some? ==> a.Waits())
      && (a.FlushesFirst() ==> BufferFree(t, c)) && c.MyKey() !in t.ops
    ensures
      var a := NextAction(app, c.wf, c.hist);
      var (t', d) := OperationSpec(app, t, c, given, wait);
      && Got(c, d, a, o) && Answers(t.ex, t'.ex, c.MyKey(), a, given, o)
      && t'.ops == Waits(t.ops, c.WaitKey(), wait)[c.MyKey() := o]
      && Begun(t, c, a, t', d.buffer)
  {
    BeginsNew(app, t, c);
    var (t', e) := BeginSpec(app, t, c);
    var w := Waited(t', e, wait);
    assert e.MyKey() == c.MyKey() && w == t'.(ops := Waits(t.ops, c.WaitKey(), wait)) && c.MyKey() !in w.ops;
    assert OperationSpec(app, t, c, given, wait) == RecordOpStep(app, w, e, given);
    RecordAnswers(app, w, e, given);
    var d := RecordOpStep(app, w, e, given).1;
    o := d.hist[|d.hist| - 1].outcome;
  }

  /** What a replay makes of a row: an output is returned as it is; `send`, `setEvent` and `sleep` have nothing to
      return; an error is thrown again by a step only. */
  predicate Replays(a: Action, row: Outcome, o: Outcome) {
    match a
    case External(_) => o == row
    case Send(_, _, _) => o == Ok(UNIT)
    case SetEvent(_, _) => o == Ok(UNIT)
    case Sleep => o == Ok(UNIT)
    case _ => o == if row.Ok? then row else Ok(NULL)
  }

  /** A RECORDED OPERATION is not done again: it returns what its row says. */
  lemma {:induction false} RecordedOperation(app: App, t: Tables, c: Ctx, given: Outcome, wait: Option<Value>)
    returns (o: Outcome)
    requires
      var a := NextAction(app, c.wf, c.hist);
      && a.Operational() && c.phase.Ready? && (a.FlushesFirst() ==> BufferFree(t, c)) && c.MyKey() in t.ops
    ensures
      var a := NextAction(app, c.wf, c.hist);
      var (t', d) := OperationSpec(app, t, c, given, wait);
      && Got(c, d, a, o) && Replays(a, t.ops[c.MyKey()], o)
      && Begun(t, c, a, t', d.buffer) && t'.ops == t.ops && t'.ex == t.ex
  {
    var d := OperationSpec(app, t, c, given, wait).1;
    o := d.hist[|d.hist| - 1].outcome;
  }

  /** An operation that cannot flush ends in a conflict, and changes nothing. */
  lemma HinderedOperation(app: App, t: Tables, c: Ctx, given: Outcome, wait: Option<Value>)
    requires NextAction(app, c.wf, c.hist).FlushesFirst() && !BufferFree(t, c)
    ensures OperationSpec(app, t, c, given, wait) == (t, c.(phase := Conflict))
  {
  }

  /** How an operation ends: in a conflict if it cannot flush; with what its row says if it has one; and otherwise with
      what it was given or has found, which is recorded. */
  ghost predicate OperationEnds(t: Tables, c: Ctx, a: Action, given: Outcome, wait: Option<Value>, t': Tables, d: Ctx) {
    if a.FlushesFirst() && !BufferFree(t, c) then t' == t && d == c.(phase := Conflict)
    else
      && d.hist != [] && Begun(t, c, a, t', d.buffer)
      && var o := d.hist[|d.hist| - 1].outcome;
         && Got(c, d, a, o)
         && if c.MyKey() in t.ops then Replays(a, t.ops[c.MyKey()], o) && t'.ops == t.ops && t'.ex == t.ex
            else
              && Answers(t.ex, t'.ex, c.MyKey(), a, given, o)
              && t'.ops == Waits(t.ops, c.WaitKey(), wait)[c.MyKey() := o]
  }

  lemma OperationsEnd(app: App, t: Tables, c: Ctx, given: Outcome, wait: Option<Value>)
    requires
      var a := NextAction(app, c.wf, c.hist);
      a.Operational() && Possible(a, given) && c.phase.Ready? && (wait.Some? ==> a.Waits())
    ensures
      var (t', d) := OperationSpec(app, t, c, given, wait);
      OperationEnds(t, c, NextAction(app, c.wf, c.hist), given, wait, t', d)
  {
    var a := NextAction(app, c.wf, c.hist);
    if a.FlushesFirst() && !BufferFree(t, c) {
      HinderedOperation(app, t, c, given, wait);
    } else if c.MyKey() in t.ops {
      var o := RecordedOperation(app, t, c, given, wait);
    } else {
      var o := NewOperation(app, t, c, given, wait);
    }
  }

  /** A step that has no row yet yields, and records, its first success within the limit. */
  lemma StepEnds(t: Tables, c: Ctx, a: Action, call: nat -> Outcome, retriesAllowed: bool, maxAttempts: nat, t': Tables,
                 d: Ctx)
    requires a.External? && OperationEnds(t, c, a, StepOutcome(call, retriesAllowed, maxAttempts), None, t', d)
    ensures BufferFree(t, c) && c.MyKey() !in t.ops ==>
      && d.phase.Ready? && d.hist != []
      && StepYields(call, retriesAllowed, maxAttempts, d.hist[|d.hist| - 1].outcome)
      && t'.ops == t.ops[c.MyKey() := d.hist[|d.hist| - 1].outcome]
  {
    StepOutcomeYields(call, retriesAllowed, maxAttempts);
  }

  // ---- transactions -------------------------------------------------------------------------------

  /** The transaction has no row yet, and nothing is in its way. */
  predicate Unhindered(t: Tables, c: Ctx) {
    BufferFree(t, c) && c.MyKey() !in t.tx && c.Id() !in c.buffer
  }

  /** The rows after a transaction with a row of its own: those of the buffer are there if it was not cleared. */
  ghost predicate RowAdded(t: Tables, c: Ctx, tx: map<Key, TxRow>, row: TxRow, kept: bool) {
    && c.MyKey() in tx && tx[c.MyKey()] == row
    && (forall k :: k in t.tx ==> k in tx && tx[k] == t.tx[k])
    && (kept ==> forall k :: k in c.buffer ==> Key(c.wf, k) in tx && tx[Key(c.wf, k)] == TxRow(Ok(c.buffer[k]), false))
    && (forall k :: k in tx ==> k == c.MyKey() || k in t.tx || (kept && k.wf == c.wf && k.id in c.buffer))
  }

  /** What the body of a writing transaction did is what is left behind and returned. */
  ghost predicate WriteAnswers(app: App, t: Tables, c: Ctx, a: Action, t': Tables, d: Ctx, kept: bool)
    requires a.Write?
  {
    match app.run(a.code, t.db)
    case Commit(db, v) =>
      && Got(c, d, a, Ok(v)) && d.buffer == map[]
      && t'.db == db && t'.effects == t.effects + [Effect(c.MyKey(), a.code, v)]
      && RowAdded(t, c, t'.tx, TxRow(Ok(v), true), kept)
    case Abort(e) =>
      && Got(c, d, a, Err(e)) && d.buffer == map[]
      && t'.db == t.db && t'.effects == t.effects && RowAdded(t, c, t'.tx, TxRow(Err(e), false), kept)
  }

  /** The output of a read-only transaction waits in the buffer; its error is recorded. */
  ghost predicate ReadAnswers(app: App, t: Tables, c: Ctx, a: Action, t': Tables, d: Ctx)
    requires a.Read?
  {
    match app.view(a.code, t.db)
    case Ok(v) => Got(c, d, a, Ok(v)) && d.buffer == c.buffer[c.Id() := v] && t' == t
    case Err(e) =>
      && Got(c, d, a, Err(e)) && d.buffer == map[]
      && t'.db == t.db && t'.effects == t.effects && RowAdded(t, c, t'.tx, TxRow(Err(e), false), true)
  }

  /** No attempt loses the buffer. */
  predicate NoCommitFails(fates: seq<Fate>) {
    forall i :: 0 <= i < |fates| ==> !fates[i].CommitFailure?
  }

  ghost predicate TransactionAnswers(app: App, t: Tables, c: Ctx, kept: bool, t': Tables, d: Ctx) {
    var a := NextAction(app, c.wf, c.hist);
    && t'.ops == t.ops && t'.ex == t.ex
    && (a.Write? ==> WriteAnswers(app, t, c, a, t', d, kept))
    && (a.Read? ==> ReadAnswers(app, t, c, a, t', d))
  }

  /** The buffer before another attempt: as it was, or cleared by a writing transaction that failed at COMMIT, or with
      the output of a read that did. */
  predicate Retrying(app: App, t: Tables, c: Ctx, now: Ctx, kept: bool) {
    var a := NextAction(app, c.wf, c.hist);
    && now == c.(buffer := now.buffer)
    && (kept && a.Write? ==> now.buffer == c.buffer)
    && (!kept ==> a.Write? && now.buffer == map[])
    && (a.Read? ==>
          || now.buffer == c.buffer
          || (app.view(a.code, t.db).Ok? && now.buffer == c.buffer[c.Id() := app.view(a.code, t.db).value]))
  }

  lemma RowIsAdded(t: Tables, c: Ctx, now: Ctx, row: TxRow, kept: bool)
    requires Unhindered(t, c) && now.wf == c.wf && now.hist == c.hist && now.buffer == if kept then c.buffer else map[]
    ensures RowAdded(t, c, (t.tx + BufferRows(now))[c.MyKey() := row], row, kept)
    ensures !Clashes(t, now)
  {
  }

  lemma ErrorAnswers(app: App, t: Tables, c: Ctx, now: Ctx, kept: bool)
    requires Unhindered(t, c) && now.wf == c.wf && now.hist == c.hist && now.preset == c.preset && now.phase.Aborting?
    requires now.buffer == if kept then c.buffer else map[]
    ensures
      var (t', d) := RecordErrorStep(app, t, now);
      && t' == t.(tx := t'.tx) && Got(c, d, NextAction(app, c.wf, c.hist), Err(now.phase.error)) && d.buffer == map[]
      && RowAdded(t, c, t'.tx, TxRow(Err(now.phase.error), false), kept)
  {
    RowIsAdded(t, c, now, TxRow(Err(now.phase.error), false), kept);
  }

  lemma ReadAttempt(app: App, t: Tables, c: Ctx, now: Ctx, fate: Fate)
    requires NextAction(app, c.wf, c.hist).Read? && c.phase.Ready?
    requires Unhindered(t, c) && Retrying(app, t, c, now, true)
    ensures
      var (t', d) := AttemptSpec(app, t, now, fate);
      if d.phase.Ready? && |d.hist| == |c.hist| then t' == t && !fate.Success? && Retrying(app, t, c, d, true)
      else
        var (u, e) := Recorded(app, AttemptSpec(app, t, now, fate));
        TransactionAnswers(app, t, c, true, u, e)
  {
    var (t', d) := AttemptSpec(app, t, now, fate);
    assert CheckTxStep(app, t, now) == now.(phase := Checked);
    if d.phase.Aborting? { ErrorAnswers(app, t, c, d, true); }
  }

  lemma WriteAttempt(app: App, t: Tables, c: Ctx, now: Ctx, fate: Fate, kept: bool)
    requires NextAction(app, c.wf, c.hist).Write? && c.phase.Ready?
    requires Unhindered(t, c) && Retrying(app, t, c, now, kept)
    ensures
      var (t', d) := AttemptSpec(app, t, now, fate);
      if d.phase.Ready? && |d.hist| == |c.hist| then
        t' == t && !fate.Success? && Retrying(app, t, c, d, kept && !fate.CommitFailure?)
      else
        var (u, e) := Recorded(app, AttemptSpec(app, t, now, fate));
        TransactionAnswers(app, t, c, kept, u, e)
  {
    var a := NextAction(app, c.wf, c.hist);
    var checked := now.(phase := Checked);
    assert CheckTxStep(app, t, now) == checked;
    var result := app.run(a.code, t.db);
    RowIsAdded(t, c, checked, TxRow(Ok(if result.Commit? then result.value else ""), true), kept);
    var (t', d) := AttemptSpec(app, t, now, fate);
    if d.phase.Aborting? { ErrorAnswers(app, t, c, d, kept); }
  }

  /** A NEW TRANSACTION returns what its body makes of the database as it is, however many attempts fail: a write and
      its row and the buffered results appear together, with the buffer unless a COMMIT failed; the output of a
      read is buffered; and an error is recorded. */
  lemma {:induction false} NewTransaction(app: App, t: Tables, c: Ctx, now: Ctx, fates: seq<Fate>, before: bool)
    returns (kept: bool)
    requires NextAction(app, c.wf, c.hist).Transactional() && c.phase.Ready?
    requires Unhindered(t, c) && Retrying(app, t, c, now, before)
    ensures
      var (t', d) := TransactionSpec(app, t, now, fates);
      TransactionAnswers(app, t, c, kept, t', d) && (before && NoCommitFails(fates) ==> kept)
    decreases |fates|
  {
    var fate := if fates == [] then Success else fates[0];
    var (t', d) := AttemptSpec(app, t, now, fate);
    var a := NextAction(app, c.wf, c.hist);
    if a.Read? { ReadAttempt(app, t, c, now, fate); } else { WriteAttempt(app, t, c, now, fate, before); }
    kept := before;
    if d.phase.Ready? && |d.hist| == |c.hist| {
      kept := NewTransaction(app, t, c, d, fates[1..], before && (a.Write? ==> !fate.CommitFailure?));
    }
  }

  /** A RECORDED TRANSACTION is not run again by an execution that looks: its output is returned. */
  lemma RecordedTransaction(app: App, t: Tables, c: Ctx, fates: seq<Fate>)
    requires NextAction(app, c.wf, c.hist).Transactional() && c.phase.Ready? && c.preset
    requires c.MyKey() in t.tx && t.tx[c.MyKey()].outcome.Ok?
    ensures
      var (t', d) := TransactionSpec(app, t, c, fates);
      t' == t && Got(c, d, NextAction(app, c.wf, c.hist), t.tx[c.MyKey()].outcome) && d.buffer == c.buffer
  {
  }

  /** A HINDERED WRITE ends in a conflict and changes nothing. */
  lemma {:induction false} HinderedWrite(app: App, t: Tables, c: Ctx, fates: seq<Fate>)
    requires NextAction(app, c.wf, c.hist).Write? && c.phase.Ready? && !Unhindered(t, c)
    requires !(c.preset && c.MyKey() in t.tx)
    ensures TransactionSpec(app, t, c, fates) == (t, c.(phase := Conflict))
    decreases |fates|
  {
    var fate := if fates == [] then Success else fates[0];
    var (t', d) := AttemptSpec(app, t, c, fate);
    if d.phase.Ready? {
      assert (t', d) == (t, c) && fates != [];
      HinderedWrite(app, t, c, fates[1..]);
    }
  }

  /** How a transaction ends: with its row, if it has one and looks for it; with what its body makes of the database, if
      nothing is in its way; and in a conflict, if it writes and something is. */
  ghost predicate TransactionEnds(app: App, t: Tables, c: Ctx, fates: seq<Fate>, t': Tables, d: Ctx) {
    var a := NextAction(app, c.wf, c.hist);
    if c.preset && c.MyKey() in t.tx then
      t.tx[c.MyKey()].outcome.Ok? ==> t' == t && Got(c, d, a, t.tx[c.MyKey()].outcome) && d.buffer == c.buffer
    else if Unhindered(t, c) then
      && (TransactionAnswers(app, t, c, true, t', d) || TransactionAnswers(app, t, c, false, t', d))
      && (NoCommitFails(fates) ==> TransactionAnswers(app, t, c, true, t', d))
    else a.Write? ==> t' == t && d == c.(phase := Conflict)
  }

  lemma TransactionsEnd(app: App, t: Tables, c: Ctx, fates: seq<Fate>)
    requires NextAction(app, c.wf, c.hist).Transactional() && c.phase.Ready?
    ensures TransactionEnds(app, t, c, fates, TransactionSpec(app, t, c, fates).0, TransactionSpec(app, t, c, fates).1)
  {
    if c.preset && c.MyKey() in t.tx {
      if t.tx[c.MyKey()].outcome.Ok? { RecordedTransaction(app, t, c, fates); }
    } else if Unhindered(t, c) {
      var kept := NewTransaction(app, t, c, c, fates, true);
    } else if NextAction(app, c.wf, c.hist).Write? {
      HinderedWrite(app, t, c, fates);
    }
  }

  // ---- the end of a workflow ----------------------------------------------------------------------

  /** THE END: an execution that has reached the end of its program can finish, with what the program returns or throws;
      and if it returns, the background flush can then write all it has left in its buffer. */
  lemma EndsAndFlushes(app: App, t: Tables, c: Ctx)
    requires NextAction(app, c.wf, c.hist).Final() && c.phase.Ready?
    ensures Enabled(app, c, Finish) && Perform(app, t, c, Finish).0 == t
    ensures
      var d := Perform(app, t, c, Finish).1;
      match NextAction(app, c.wf, c.hist)
      case Throw(e) => d == c.(phase := Done(Err(e))) && !Enabled(app, d, FlushFinished)
      case Return(v) =>
        && d == c.(phase := Done(Ok(v))) && Enabled(app, d, FlushFinished)
        && var (t', e) := Perform(app, t, d, FlushFinished);
           if BufferFree(t, c) then Flushes(t, c, t'.tx) && t' == t.(tx := t'.tx) && e == d.(buffer := map[])
           else t' == t && e == d
      case _ => false
  {
  }
}
