/** The workflow context itself: one execution's operations as they run against the two databases,
    each proved to do exactly what OperationMoves says. */
module WorkflowContexts {
  import opened Options
  import opened Workflows
  import opened DurableSteps
  import opened OperationMoves
  import opened OperationAnswers

  /** How an operation ends for the workflow function that called it: with an outcome, or with the
      conflict error of a lost primary-key race. */
  datatype Return = Returned(outcome: Outcome) | ConflictError

  /** How one database transaction of `transaction` ends. */
  datatype Attempt = Completed(outcome: Outcome) | Failed(error: string) | KeyConflict | Serialization

  // ---- how attempts end -------------------------------------------------------------------------

  lemma PhaseDoesNotFlush(t: Tables, c: Ctx, phase: Phase)
    ensures Clashes(t, c.(phase := phase)) == Clashes(t, c)
    ensures BufferRows(c.(phase := phase)) == BufferRows(c)
  {
  }

  /** An attempt that meets a key conflict changes nothing, and recording anything would meet it again. */
  lemma ConflictPersists(app: App, t: Tables, c: Ctx, fate: Fate)
    requires NextAction(app, c.wf, c.hist).Transactional() && c.phase.Ready?
    requires AttemptSpec(app, t, c, fate).1.phase.Conflict?
    ensures AttemptSpec(app, t, c, fate) == (t, c.(phase := Conflict))
    ensures Clashes(t, c) || c.MyKey() in t.tx || c.Id() in c.buffer
  {
    PhaseDoesNotFlush(t, c, Checked);
  }

  /** How the rest of a writing transaction ends once its body has returned. */
  ghost predicate EndsAfterBody(t: Tables, c: Ctx, fate: Fate, a: Action, result: TxResult, spec: (Tables, Ctx))
    requires result.Commit? && a.Write?
  {
    var (t', d) := spec;
    if c.MyKey() in t.tx || c.Id() in c.buffer then t' == t && d == c.(phase := Conflict)
    else if fate.CommitFailure? then t' == t && d == c.(buffer := map[], phase := Ready)
    else
      && t'.tx == (t.tx + BufferRows(c))[c.MyKey() := TxRow(Ok(result.value), true)] && t'.ops == t.ops
      && t'.ex == t.ex && t'.db == result.db
      && t'.effects == t.effects + [Effect(c.MyKey(), a.code, result.value)]
      && d == c.(buffer := map[]).Append(a, Ok(result.value))
  }

  lemma AfterTheBody(app: App, t: Tables, c: Ctx, fate: Fate)
    requires NextAction(app, c.wf, c.hist).Write? && !fate.SerializationFailure? && !Clashes(t, c)
    requires app.run(NextAction(app, c.wf, c.hist).code, t.db).Commit?
    ensures
      var a := NextAction(app, c.wf, c.hist);
      EndsAfterBody(t, c, fate, a, app.run(a.code, t.db), RunTxStep(app, t, c, fate))
  {
  }

  /** The first `n` attempts fail to serialize. */
  ghost predicate AllFail(fates: seq<Fate>, n: nat) {
    n <= |fates| && forall i :: 0 <= i < n ==> !fates[i].Success?
  }

  /** The waits so far, and the next one. */
  ghost predicate WaitsSoFar(waits: seq<real>, next: real) {
    next == WaitAt(|waits|) && forall j :: 0 <= j < |waits| ==> waits[j] == WaitAt(j)
  }

  /** The waits of a step: the configured interval, whatever its length, and then each by the rate longer than the one
      before, up to an hour. */
  ghost predicate Intervals(waits: seq<real>, first: real, rate: real) {
    && (waits != [] ==> waits[0] == first)
    && forall i :: 0 < i < |waits| ==>
         waits[i] == if waits[i - 1] * rate < 3600.0 then waits[i - 1] * rate else 3600.0
  }

  method Wait(before: seq<real>, retryWaitMillis: real) returns (waits: seq<real>, next: real)
    requires WaitsSoFar(before, retryWaitMillis)
    ensures |waits| == |before| + 1 && WaitsSoFar(waits, next)
  {
    waits := before + [retryWaitMillis];
    next := retryWaitMillis * BACKOFF_FACTOR;
    next := if next < MAX_RETRY_WAIT_MS then next else MAX_RETRY_WAIT_MS;
  }

  // ---- the databases ----------------------------------------------------------------------------

  /** The user database: the application's data and `transaction_outputs`. */
  class UserDatabase {
    var outputs: map<Key, TxRow>
    var data: Db
    ghost var effects: seq<Effect>

    constructor (data: Db)
      ensures outputs == map[] && this.data == data && effects == []
    {
      this.outputs, this.data, this.effects := map[], data, [];
    }

    /** One INSERT statement with all of `rows`: all or nothing. */
    method Insert(rows: map<Key, TxRow>) returns (conflict: bool)
      modifies this`outputs
      ensures conflict <==> exists k :: k in rows && k in old(outputs)
      ensures outputs == if conflict then old(outputs) else old(outputs) + rows
    {
      conflict := exists k :: k in rows && k in outputs;
      if !conflict { outputs := outputs + rows; }
    }
  }

  /** The part of the system database the operations use; `mail` is the mailbox that the notifications make up. */
  class SystemDatabase {
    var outputs: map<Key, Outcome>
    var events: map<EventKey, Value>
    var mail: map<Address, seq<Value>>
    ghost var sets: seq<EventSet>
    ghost var sent: seq<Letter>
    ghost var received: seq<Letter>

    constructor ()
      ensures outputs == map[] && Ex() == NO_EXCHANGE
    {
      outputs, events, mail, sets, sent, received := map[], map[], map[], [], [], [];
    }

    ghost function Ex(): Exchange
      reads this
    {
      Exchange(events, mail, sets, sent, received)
    }

    method CheckOperationOutput(k: Key) returns (r: Option<Outcome>)
      ensures r == if k in outputs then Some(outputs[k]) else None
    {
      if k in outputs { r := Some(outputs[k]); } else { r := None; }
    }

    method RecordOperation(k: Key, o: Outcome) returns (conflict: bool)
      modifies this`outputs
      ensures conflict <==> k in old(outputs)
      ensures outputs == if conflict then old(outputs) else old(outputs)[k := o]
    {
      conflict := k in outputs;
      if !conflict { outputs := outputs[k := o]; }
    }

    /** The event and its output row commit together or not at all. */
    method SetEvent(k: Key, name: string, value: Value) returns (conflict: bool)
      modifies this
      ensures conflict <==> k in old(outputs)
      ensures outputs == if conflict then old(outputs) else old(outputs)[k := Ok(UNIT)]
      ensures Ex() == if conflict then old(Ex()) else Exchanged(old(Ex()), k, Action.SetEvent(name, value))
    {
      var saved := events;
      events := events[EventKey(k.wf, name) := value];
      conflict := RecordOperation(k, Ok(UNIT));
      if conflict { events := saved; } else { sets := sets + [EventSet(EventKey(k.wf, name), value)]; }
    }

    method Waiting(a: Address) returns (messages: seq<Value>)
      ensures messages == Ex().Waiting(a)
    {
      if a in mail { messages := mail[a]; } else { messages := []; }
    }

    /** The message and its output row commit together or not at all. */
    method Send(k: Key, to: Address, message: Value) returns (conflict: bool)
      modifies this
      ensures conflict <==> k in old(outputs)
      ensures outputs == if conflict then old(outputs) else old(outputs)[k := Ok(UNIT)]
      ensures Ex() == if conflict then old(Ex()) else Exchanged(old(Ex()), k, Action.Send(to.wf, to.topic, message))
    {
      var saved := mail;
      var waiting := Waiting(to);
      mail := mail[to := waiting + [message]];
      conflict := RecordOperation(k, Ok(UNIT));
      if conflict { mail := saved; } else { sent := sent + [Letter(k, to, message)]; }
    }

    /** The end of a sleep is recorded once; a row that exists stands. */
    method Sleepms(k: Key, until: Value)
      modifies this`outputs
      ensures outputs == if k in old(outputs) then old(outputs) else old(outputs)[k := Ok(until)]
    {
      if k !in outputs { outputs := outputs[k := Ok(until)]; }
    }

    /** The oldest message leaves the mailbox and is recorded, or a conflict undoes it; with none waiting, that is
        recorded. */
    method Recv(k: Key, topic: string) returns (conflict: bool, o: Outcome)
      modifies this
      ensures o == Yields(old(Ex()), k.wf, Action.Recv(topic), o)
      ensures conflict <==> k in old(outputs)
      ensures outputs == if conflict then old(outputs) else old(outputs)[k := o]
      ensures Ex() == if conflict then old(Ex()) else Exchanged(old(Ex()), k, Action.Recv(topic))
    {
      var at := Address(k.wf, topic);
      var saved := mail;
      var waiting := Waiting(at);
      o := Ok(NULL);
      if waiting != [] {
        o := Ok(waiting[0]);
        mail := mail[at := waiting[1..]];
      }
      conflict := RecordOperation(k, o);
      if conflict {
        mail := saved;
      } else if waiting != [] {
        received := received + [Letter(k, at, waiting[0])];
      }
    }
  }

  // ---- the context ------------------------------------------------------------------------------

  class WorkflowContext {
    const wf: WfId
    const presetUUID: bool
    const user: UserDatabase
    const system: SystemDatabase
    var functionID: nat
    var resultBuffer: map<nat, Value>
    ghost var hist: seq<Entry>

    constructor (wf: WfId, presetUUID: bool, user: UserDatabase, system: SystemDatabase)
      ensures this.wf == wf && this.presetUUID == presetUUID && this.user == user && this.system == system
      ensures Valid() && hist == [] && resultBuffer == map[]
    {
      this.wf, this.presetUUID, this.user, this.system := wf, presetUUID, user, system;
      functionID, resultBuffer, hist := 0, map[], [];
    }

    /** Between operations the counter is where the history left it. */
    ghost predicate Valid()
      reads this
    {
      functionID == NextId(hist)
    }

    ghost function T(): Tables
      reads user, system
    {
      Tables(user.outputs, system.outputs, system.Ex(), user.data, user.effects)
    }

    ghost function C(phase: Phase): Ctx
      reads this
    {
      Ctx(wf, presetUUID, hist, resultBuffer, phase)
    }

    /** The state after an operation is `spec`, and `r` tells the caller how it ended. */
    ghost predicate Matches(spec: (Tables, Ctx), r: Return, before: seq<Entry>)
      reads this, user, system
    {
      && T() == spec.0
      && C(spec.1.phase) == spec.1
      && match r
         case ConflictError => spec.1.phase.Conflict? && hist == before
         case Returned(o) =>
           spec.1.phase.Ready? && |hist| == |before| + 1 && hist[|before|].outcome == o && Valid()
    }

    /** The operation has ended with `r`, as it must by what it was given. */
    ghost predicate Ends(t: Tables, c: Ctx, a: Action, given: Outcome, wait: Option<Value>, r: Return)
      reads this, user, system
    {
      && OperationEnds(t, c, a, given, wait, T(), C(if r.ConflictError? then Conflict else Ready))
      && (r.Returned? ==> hist != [] && hist[|hist| - 1].outcome == r.outcome)
    }

    method FunctionIDGetIncrement() returns (id: nat)
      modifies this`functionID
      ensures id == old(functionID) && functionID == old(functionID) + 1
    {
      id := functionID;
      functionID := functionID + 1;
    }

    method CheckExecution(id: nat) returns (r: Option<Outcome>)
      ensures r == if Key(wf, id) in user.outputs then Some(user.outputs[Key(wf, id)].outcome) else None
    {
      if Key(wf, id) in user.outputs { r := Some(user.outputs[Key(wf, id)].outcome); } else { r := None; }
    }

    /** Collects a row per buffered output and inserts them in one statement. */
    method FlushResultBuffer() returns (conflict: bool)
      modifies user`outputs
      ensures conflict <==> old(Clashes(T(), C(Ready)))
      ensures user.outputs == if conflict then old(user.outputs) else old(user.outputs + BufferRows(C(Ready)))
    {
      if resultBuffer == map[] {
        assert user.outputs + BufferRows(C(Ready)) == user.outputs;
        return false;
      }
      var rows: map<Key, TxRow> := map[];
      var ids := resultBuffer.Keys;
      while ids != {}
        invariant ids <= resultBuffer.Keys
        invariant forall k :: k in rows <==> k.wf == wf && k.id in resultBuffer && k.id !in ids
        invariant forall k :: k in rows ==> rows[k] == TxRow(Ok(resultBuffer[k.id]), false)
        decreases ids
      {
        var id :| id in ids;
        rows := rows[Key(wf, id) := TxRow(Ok(resultBuffer[id]), false)];
        ids := ids - {id};
      }
      assert rows == BufferRows(C(Ready));
      conflict := user.Insert(rows);
      assert conflict ==> exists id :: id in resultBuffer && Key(wf, id) in old(user.outputs);
      assert forall id :: id in resultBuffer ==> Key(wf, id) in rows;
    }

    /** What one database transaction leaves behind, and what it throws. */
    ghost predicate AttemptMatches(spec: (Tables, Ctx), r: Attempt, a: Action, id: nat)
      reads this, user, system
    {
      var (t', d) := spec;
      && T() == t' && resultBuffer == d.buffer && d.wf == wf && d.preset == presetUUID
      && match r
         case Completed(o) => d.phase.Ready? && d.hist == hist + [Entry(id, a, o)]
         case Failed(e) => d.phase == Aborting(e) && d.hist == hist
         case KeyConflict => d.phase.Conflict? && d.hist == hist
         case Serialization => d.phase.Ready? && d.hist == hist
    }

    /** A writing transaction's body: flush, run, record, COMMIT.  What the database did is undone by
        ROLLBACK; what the context did to its buffer is not. */
    method RunWrite(app: App, a: Action, id: nat, fate: Fate) returns (r: Attempt)
      requires a == NextAction(app, wf, hist) && a.Write? && id == NextId(hist) && !fate.SerializationFailure?
      modifies user, this`resultBuffer
      ensures AttemptMatches(old(RunTxStep(app, T(), C(Checked), fate)), r, a, id)
      ensures r.Serialization? ==> !fate.Success?
    {
      ghost var t, c := T(), C(Checked);
      PhaseDoesNotFlush(t, c, Ready);
      var outputs, data := user.outputs, user.data;
      var conflict := FlushResultBuffer();
      if conflict {
        assert T() == t;
        return KeyConflict;
      }
      var result := app.run(a.code, user.data);
      if result.Abort? {
        user.outputs := outputs;
        assert T() == t;
        return Failed(result.error);
      }
      AfterTheBody(app, t, c, fate);
      r := RecordAndCommit(a, id, fate, result, t, c, RunTxStep(app, t, c, fate), outputs, data);
    }

    /** The rest of a writing transaction, after its body has returned. */
    method RecordAndCommit(a: Action, id: nat, fate: Fate, result: TxResult, ghost t: Tables, ghost c: Ctx,
                           ghost spec: (Tables, Ctx), outputs: map<Key, TxRow>, data: Db) returns (r: Attempt)
      requires a.Write? && id == NextId(hist) && !fate.SerializationFailure? && result.Commit?
      requires c == C(Checked) && EndsAfterBody(t, c, fate, a, result, spec)
      requires T() == t.(tx := t.tx + BufferRows(c)) && outputs == t.tx && data == t.db
      modifies user, this`resultBuffer
      ensures AttemptMatches(spec, r, a, id)
      ensures r.Serialization? ==> !fate.Success?
    {
      user.data := result.db;
      var conflict := InsertOwn(c, id, TxRow(Ok(result.value), true), outputs);
      if conflict {
        user.outputs, user.data := outputs, data;
        assert T() == t;
        return KeyConflict;
      }
      resultBuffer := map[];
      if fate.CommitFailure? {
        user.outputs, user.data := outputs, data;
        assert T() == t;
        return Serialization;
      }
      user.effects := user.effects + [Effect(Key(wf, id), a.code, result.value)];
      return Completed(Ok(result.value));
    }

    /** Inserts the operation's own row after a flush. */
    method InsertOwn(ghost c: Ctx, id: nat, row: TxRow, ghost before: map<Key, TxRow>) returns (conflict: bool)
      requires c.wf == wf && c.buffer == resultBuffer && user.outputs == before + BufferRows(c)
      modifies user`outputs
      ensures conflict <==> Key(wf, id) in before || id in c.buffer
      ensures !conflict ==> user.outputs == (before + BufferRows(c))[Key(wf, id) := row]
    {
      var own := map[Key(wf, id) := row];
      assert Key(wf, id) in own;
      conflict := user.Insert(own);
    }

    /** A read-only transaction's body: run, and buffer the output. */
    method RunRead(app: App, a: Action, id: nat, fate: Fate) returns (r: Attempt)
      requires a == NextAction(app, wf, hist) && a.Read? && id == NextId(hist) && !fate.SerializationFailure?
      modifies this`resultBuffer
      ensures AttemptMatches(old(RunTxStep(app, T(), C(Checked), fate)), r, a, id)
      ensures r.Serialization? ==> !fate.Success?
    {
      var result := app.view(a.code, user.data);
      if result.Err? { return Failed(result.error); }
      resultBuffer := resultBuffer[id := result.value];
      if fate.CommitFailure? { return Serialization; }
      return Completed(result);
    }

    /** One database transaction around a body, with the look-up that precedes it. */
    method RunAttempt(app: App, a: Action, id: nat, fate: Fate) returns (r: Attempt)
      requires a == NextAction(app, wf, hist) && a.Transactional() && id == NextId(hist)
      modifies user, this`resultBuffer
      ensures AttemptMatches(old(AttemptSpec(app, T(), C(Ready), fate)), r, a, id)
      ensures r.Serialization? ==> !fate.Success? && user.outputs == old(user.outputs)
      ensures fate.SerializationFailure? && !(presetUUID && Key(wf, id) in old(user.outputs)) ==> r.Serialization?
    {
      if presetUUID {
        var check := CheckExecution(id);
        if check.Some? {
          if check.value.Ok? { return Completed(check.value); }
          return Failed(check.value.error);
        }
      }
      if fate.SerializationFailure? { return Serialization; }
      if a.Read? {
        r := RunRead(app, a, id, fate);
      } else {
        r := RunWrite(app, a, id, fate);
      }
    }

    /** The database transaction that records a thrown error, and the clearing of the buffer after it. */
    method RecordThrown(ghost app: App, id: nat, error: string) returns (conflict: bool)
      requires id == NextId(hist)
      modifies user`outputs, this`resultBuffer
      ensures conflict <==> old(Clashes(T(), C(Ready)) || Key(wf, id) in user.outputs || id in resultBuffer)
      ensures
        var (t', d) := old(RecordErrorStep(app, T(), C(Aborting(error))));
        T() == t' && resultBuffer == d.buffer && (conflict <==> d.phase.Conflict?)
    {
      ghost var t, c := T(), C(Ready);
      PhaseDoesNotFlush(t, c, Aborting(error));
      var outputs := user.outputs;
      conflict := FlushResultBuffer();
      if !conflict {
        conflict := InsertOwn(c, id, TxRow(Err(error), false), outputs);
        if conflict {
          user.outputs := outputs;
          assert T() == t;
        }
      }
      if !conflict { resultBuffer := map[]; }
    }

    /** `fates` says how each attempt ends; when it is used up, serialization no longer fails. */
    method Transaction(app: App, a: Action, fates: seq<Fate>) returns (r: Return, waits: seq<real>)
      requires Valid() && a == NextAction(app, wf, hist) && a.Transactional()
      modifies this, user
      ensures Matches(old(TransactionSpec(app, T(), C(Ready), fates)), r, old(hist))
      ensures
        && TransactionEnds(app, old(T()), old(C(Ready)), fates, T(), C(if r.ConflictError? then Conflict else Ready))
        && (r.Returned? ==> hist != [] && hist[|hist| - 1].outcome == r.outcome)
      ensures AllFail(fates, |waits|) && forall i :: 0 <= i < |waits| ==> waits[i] == WaitAt(i)
      ensures
        || (presetUUID && Key(wf, NextId(old(hist))) in old(user.outputs))
        || !FateAt(fates, |waits|).SerializationFailure?
    {
      TransactionsEnd(app, T(), C(Ready), fates);
      var id := FunctionIDGetIncrement();
      var attempt;
      ghost var t, c;
      attempt, waits, t, c := AttemptUntilSettled(app, a, id, fates);
      r := ConcludeAttempt(app, a, id, attempt, FateAt(fates, |waits|), t, c);
    }

    /** Repeats the database transaction until one neither fails to serialize nor fails at COMMIT; it started from `t`
        and `c`. */
    method AttemptUntilSettled(app: App, a: Action, id: nat, fates: seq<Fate>)
      returns (attempt: Attempt, waits: seq<real>, ghost t: Tables, ghost c: Ctx)
      requires a == NextAction(app, wf, hist) && a.Transactional() && id == NextId(hist)
      modifies user, this`resultBuffer
      ensures !attempt.Serialization? && c.phase.Ready? && c.wf == wf && c.hist == hist
      ensures AttemptMatches(AttemptSpec(app, t, c, FateAt(fates, |waits|)), attempt, a, id)
      ensures Recorded(app, AttemptSpec(app, t, c, FateAt(fates, |waits|)))
              == old(TransactionSpec(app, T(), C(Ready), fates))
      ensures AllFail(fates, |waits|) && forall i :: 0 <= i < |waits| ==> waits[i] == WaitAt(i)
      ensures (presetUUID && Key(wf, id) in old(user.outputs)) || !FateAt(fates, |waits|).SerializationFailure?
    {
      ghost var target := TransactionSpec(app, T(), C(Ready), fates);
      var retryWaitMillis: real := 1.0;
      waits := [];
      var i: nat := 0;
      t, c := T(), C(Ready);
      attempt := RunAttempt(app, a, id, FateAt(fates, i));
      assert fates[0..] == fates;
      while attempt.Serialization?
        invariant i <= |fates| && |waits| == i && WaitsSoFar(waits, retryWaitMillis)
        invariant c.phase.Ready? && c.wf == wf && c.hist == hist
        invariant TransactionSpec(app, t, c, fates[i..]) == target
        invariant AttemptMatches(AttemptSpec(app, t, c, FateAt(fates, i)), attempt, a, id)
        invariant AllFail(fates, i) && (attempt.Serialization? ==> AllFail(fates, i + 1))
        invariant attempt.Serialization? ==> user.outputs == old(user.outputs)
        invariant
          || (presetUUID && Key(wf, id) in old(user.outputs))
          || attempt.Serialization? || !FateAt(fates, i).SerializationFailure?
        decreases |fates| - i
      {
        SpecRetries(app, t, c, fates, i, T(), C(Ready));
        waits, retryWaitMillis := Wait(waits, retryWaitMillis);
        i := i + 1;
        t, c := T(), C(Ready);
        attempt := RunAttempt(app, a, id, FateAt(fates, i));
      }
      SpecEnds(app, t, c, fates, i);
    }

    method ConcludeAttempt(ghost app: App, a: Action, id: nat, attempt: Attempt, ghost fate: Fate,
                           ghost t: Tables, ghost c: Ctx) returns (r: Return)
      requires a == NextAction(app, wf, hist) && a.Transactional() && id == NextId(hist) && functionID == id + 1
      requires NextAction(app, c.wf, c.hist) == a && c.phase.Ready? && c.wf == wf && c.hist == hist
      requires AttemptMatches(AttemptSpec(app, t, c, fate), attempt, a, id) && !attempt.Serialization?
      modifies this, user
      ensures Matches(Recorded(app, AttemptSpec(app, t, c, fate)), r, old(hist))
    {
      if attempt.KeyConflict? { ConflictPersists(app, t, c, fate); }
      r := Conclude(app, a, id, attempt, AttemptSpec(app, t, c, fate));
    }

    /** Returns a completed attempt's outcome; records and throws an error. */
    method Conclude(ghost app: App, a: Action, id: nat, attempt: Attempt, ghost spec: (Tables, Ctx)) returns (r: Return)
      requires a == NextAction(app, wf, hist) && a.Transactional() && id == NextId(hist) && functionID == id + 1
      requires AttemptMatches(spec, attempt, a, id) && !attempt.Serialization?
      requires attempt.KeyConflict? ==> Clashes(T(), C(Ready)) || Key(wf, id) in user.outputs || id in resultBuffer
      modifies this, user
      ensures Matches(Recorded(app, spec), r, old(hist))
    {
      if attempt.Completed? {
        hist := hist + [Entry(id, a, attempt.outcome)];
        return Returned(attempt.outcome);
      }
      var error := if attempt.Failed? then attempt.error else "";
      assert attempt.Failed? ==> spec.1 == C(Aborting(error));
      var conflict := RecordThrown(app, id, error);
      if conflict { return ConflictError; }
      hist := hist + [Entry(id, a, Err(error))];
      return Returned(Err(error));
    }

    /** The flush in a transaction of its own, then the clearing of the buffer. */
    method FlushInOwnTransaction() returns (conflict: bool)
      modifies user`outputs, this`resultBuffer
      ensures
        var (t', d) := old(FlushStep(T(), C(Ready)));
        && T() == t' && (conflict <==> d.phase.Conflict?) && resultBuffer == d.buffer
    {
      conflict := FlushResultBuffer();
      if !conflict { resultBuffer := map[]; }
    }

    /** The part common to all operations of `operation_outputs`: take the identifiers, flush. */
    method Begin(a: Action) returns (id: nat, conflict: bool)
      requires Valid()
      modifies this`functionID, this`resultBuffer, user`outputs
      ensures id == NextId(hist) && functionID == id + a.IdsTaken()
      ensures
        var (t', d) := old(if a.FlushesFirst() then FlushStep(T(), C(Ready)) else (T(), C(Ready)));
        && T() == t' && (conflict <==> d.phase.Conflict?) && resultBuffer == d.buffer
    {
      id, conflict := functionID, false;
      functionID := functionID + a.IdsTaken();
      if a.FlushesFirst() { conflict := FlushInOwnTransaction(); }
    }

    /** Runs a step function until it succeeds or its attempts are used up.  The first wait is the
        configured interval, whatever its length; later ones are capped. */
    method RunStep(call: nat -> Outcome, retriesAllowed: bool, maxAttempts: nat,
                   intervalSeconds: real, backoffRate: real)
      returns (o: Outcome, waits: seq<real>)
      ensures o == StepOutcome(call, retriesAllowed, maxAttempts)
      ensures StepYields(call, retriesAllowed, maxAttempts, o)
      ensures Attempts(call, retriesAllowed, maxAttempts, if retriesAllowed && maxAttempts == 0 then 0 else |waits| + 1)
      ensures Intervals(waits, intervalSeconds, backoffRate)
    {
      waits := [];
      if !retriesAllowed { return call(0), []; }
      var numAttempts, interval := 0, intervalSeconds;
      while numAttempts < maxAttempts
        invariant numAttempts <= maxAttempts
        invariant |waits| == if 0 < numAttempts == maxAttempts then numAttempts - 1 else numAttempts
        invariant forall j: nat :: j < numAttempts ==> call(j).Err?
        invariant FirstSuccess(call, numAttempts, maxAttempts) == FirstSuccess(call, 0, maxAttempts)
        invariant Intervals(waits, intervalSeconds, backoffRate)
        invariant numAttempts < maxAttempts ==> Intervals(waits + [interval], intervalSeconds, backoffRate)
      {
        StepOutcomeYields(call, retriesAllowed, maxAttempts);
        var result := call(numAttempts);
        if result.Ok? { return result, waits; }
        numAttempts := numAttempts + 1;
        if numAttempts < maxAttempts {
          waits := waits + [interval];
          interval := interval * backoffRate;
          interval := if interval < MAX_RETRY_INTERVAL_SEC then interval else MAX_RETRY_INTERVAL_SEC;
        }
      }
      StepOutcomeYields(call, retriesAllowed, maxAttempts);
      return Err(MAX_RETRIES_REACHED), waits;
    }

    /** A step: a recorded outcome is returned or thrown as it is, else the step runs and is recorded. */
    method External(ghost app: App, a: Action, call: nat -> Outcome, retriesAllowed: bool, maxAttempts: nat,
                    intervalSeconds: real, backoffRate: real)
      returns (r: Return)
      requires Valid() && a == NextAction(app, wf, hist) && a.External?
      modifies this, user, system
      ensures Matches(old(OperationSpec(app, T(), C(Ready), StepOutcome(call, retriesAllowed, maxAttempts), None)), r,
                      old(hist))
      ensures Ends(old(T()), old(C(Ready)), a, StepOutcome(call, retriesAllowed, maxAttempts), None, r)
      ensures
        var k := Key(wf, NextId(old(hist)));
        old(BufferFree(T(), C(Ready))) && k !in old(system.outputs) ==>
          && r.Returned? && StepYields(call, retriesAllowed, maxAttempts, r.outcome)
          && system.outputs == old(system.outputs)[k := r.outcome]
    {
      ghost var t, c := T(), C(Ready);
      OperationsEnd(app, t, c, StepOutcome(call, retriesAllowed, maxAttempts), None);
      var id, replayed := BeginOrReplay(app, a);
      if replayed.Some? { return replayed.value; }
      var o, waits := RunStep(call, retriesAllowed, maxAttempts, intervalSeconds, backoffRate);
      r := RecordOutcome(app, a, id, o);
      StepEnds(t, c, a, call, retriesAllowed, maxAttempts, T(), C(if r.ConflictError? then Conflict else Ready));
    }

    /** Flush and look up: a recorded outcome is returned as the operation reads it. */
    method BeginOrReplay(ghost app: App, a: Action) returns (id: nat, r: Option<Return>)
      requires Valid() && a == NextAction(app, wf, hist) && a.Operational()
      modifies this, user
      ensures id == old(functionID) == old(NextId(hist))
      ensures
        var (t', e) := old(BeginSpec(app, T(), C(Ready)));
        if e.phase.Checked? then
          && r.None? && T() == t' && C(Checked) == e && e.hist == old(hist) && Key(wf, id) !in system.outputs
          && functionID == id + a.IdsTaken()
        else r.Some? && Matches((t', e), r.value, old(hist))
    {
      var conflict: bool;
      id, conflict := Begin(a);
      if conflict { return id, Some(ConflictError); }
      var check := system.CheckOperationOutput(Key(wf, id));
      if check.None? { return id, None; }
      hist := hist + [Entry(id, a, Replayed(a, check.value))];
      r := Some(Returned(Replayed(a, check.value)));
    }

    method Send(ghost app: App, a: Action) returns (r: Return)
      requires Valid() && a == NextAction(app, wf, hist) && a.Send?
      modifies this, user, system
      ensures Matches(old(OperationSpec(app, T(), C(Ready), Ok(UNIT), None)), r, old(hist))
      ensures Ends(old(T()), old(C(Ready)), a, Ok(UNIT), None, r)
    {
      OperationsEnd(app, T(), C(Ready), Ok(UNIT), None);
      var id, replayed := BeginOrReplay(app, a);
      if replayed.Some? { return replayed.value; }
      r := Deliver(app, a, id);
    }

    /** The transaction of a send. */
    method Deliver(ghost app: App, a: Action, id: nat) returns (r: Return)
      requires a == NextAction(app, wf, hist) && a.Send? && id == NextId(hist) && functionID == id + a.IdsTaken()
      requires Key(wf, id) !in system.outputs
      modifies this`hist, system
      ensures Matches(old(RecordOpStep(app, T(), C(Checked), Ok(UNIT))), r, old(hist))
    {
      var conflict := system.Send(Key(wf, id), Address(a.destination, a.topic), a.message);
      if conflict { return ConflictError; }
      hist := hist + [Entry(id, a, Ok(UNIT))];
      return Returned(Ok(UNIT));
    }

    /** The final transaction of a receive. */
    method TakeMessage(ghost app: App, a: Action, id: nat) returns (r: Return)
      requires a == NextAction(app, wf, hist) && a.Recv? && id == NextId(hist) && functionID == id + a.IdsTaken()
      requires Key(wf, id) !in system.outputs
      modifies this`hist, system
      ensures Matches(old(RecordOpStep(app, T(), C(Checked), Ok(NULL))), r, old(hist))
    {
      var conflict, o := system.Recv(Key(wf, id), a.topic);
      if conflict { return ConflictError; }
      hist := hist + [Entry(id, a, o)];
      return Returned(o);
    }

    /** The record of an operation that has no other effect. */
    method RecordOutcome(ghost app: App, a: Action, id: nat, o: Outcome) returns (r: Return)
      requires a == NextAction(app, wf, hist) && (a.External? || a.GetEvent? || a.GetStatus? || a.Sleep?)
      requires id == NextId(hist) && functionID == id + a.IdsTaken()
      requires Key(wf, id) !in system.outputs && o == Yields(system.Ex(), wf, a, o)
      modifies this`hist, system`outputs
      ensures Matches(old(RecordOpStep(app, T(), C(Checked), o)), r, old(hist))
    {
      var conflict := system.RecordOperation(Key(wf, id), o);
      if conflict { return ConflictError; }
      hist := hist + [Entry(id, a, o)];
      return Returned(o);
    }

    /** With no message waiting, a wait begins, recorded with its end; after it, or at once, the oldest message is
        taken if there is one. */
    method WaitAndTake(ghost app: App, a: Action, id: nat, until: Value) returns (r: Return)
      requires a == NextAction(app, wf, hist) && a.Recv? && id == NextId(hist) && functionID == id + a.IdsTaken()
      requires Key(wf, id) !in system.outputs
      modifies this`hist, system
      ensures
        var wait := old(WaitOf(Address(wf, a.topic), until));
        Matches(old(RecordOpStep(app, Waited(T(), C(Checked), wait), C(Checked), Ok(NULL))), r, old(hist))
    {
      ghost var t, c := T(), C(Checked);
      ghost var wait := WaitOf(Address(wf, a.topic), until);
      var waiting := system.Waiting(Address(wf, a.topic));
      if waiting == [] { system.Sleepms(Key(wf, id + 1), until); }
      assert T() == Waited(t, c, wait);
      r := TakeMessage(app, a, id);
    }

    ghost function WaitOf(at: Address, until: Value): Option<Value>
      reads system
    {
      if system.Ex().Waiting(at) == [] then Some(until) else None
    }

    method Recv(ghost app: App, a: Action, until: Value) returns (r: Return)
      requires Valid() && a == NextAction(app, wf, hist) && a.Recv?
      modifies this, user, system
      ensures
        var wait := old(WaitOf(Address(wf, a.topic), until));
        Matches(old(OperationSpec(app, T(), C(Ready), Ok(NULL), wait)), r, old(hist))
      ensures Ends(old(T()), old(C(Ready)), a, Ok(NULL), old(WaitOf(Address(wf, a.topic), until)), r)
    {
      OperationsEnd(app, T(), C(Ready), Ok(NULL), WaitOf(Address(wf, a.topic), until));
      var id, replayed := BeginOrReplay(app, a);
      if replayed.Some? { return replayed.value; }
      r := WaitAndTake(app, a, id, until);
    }

    /** An event that is set is read at once.  Otherwise a wait begins, recorded with its end; `seen` is what the query
        after it returns. */
    method GetEvent(ghost app: App, a: Action, until: Value, seen: Option<Value>) returns (r: Return)
      requires Valid() && a == NextAction(app, wf, hist) && a.GetEvent?
      requires forall e :: e in system.events ==> EventSet(e, system.events[e]) in system.sets
      requires seen.Some? ==> EventSet(EventKey(a.target, a.key), seen.value) in system.sets
      modifies this, user, system
      ensures
        var e := EventKey(a.target, a.key);
        var now := if e in old(system.events) then Some(old(system.events)[e]) else None;
        var value := if now.Some? then now else seen;
        var o := Ok(if value.Some? then value.value else NULL);
        var wait := if now.Some? then None else Some(until);
        && Matches(old(OperationSpec(app, T(), C(Ready), o, wait)), r, old(hist))
        && Ends(old(T()), old(C(Ready)), a, o, wait, r)
    {
      ghost var now := if EventKey(a.target, a.key) in system.events then Some(system.events[EventKey(a.target, a.key)])
                       else None;
      ghost var found := if now.Some? then now else seen;
      OperationsEnd(app, T(), C(Ready), Ok(if found.Some? then found.value else NULL),
                    if now.Some? then None else Some(until));
      var id, replayed := BeginOrReplay(app, a);
      if replayed.Some? { return replayed.value; }
      r := WaitAndRead(app, a, id, until, seen);
    }

    method WaitAndRead(ghost app: App, a: Action, id: nat, until: Value, seen: Option<Value>) returns (r: Return)
      requires a == NextAction(app, wf, hist) && a.GetEvent? && id == NextId(hist) && functionID == id + a.IdsTaken()
      requires Key(wf, id) !in system.outputs
      requires forall e :: e in system.events ==> EventSet(e, system.events[e]) in system.sets
      requires seen.Some? ==> EventSet(EventKey(a.target, a.key), seen.value) in system.sets
      modifies this`hist, system`outputs
      ensures
        var e := EventKey(a.target, a.key);
        var now := if e in system.events then Some(system.events[e]) else None;
        var value := if now.Some? then now else seen;
        var wait := if now.Some? then None else Some(until);
        Matches(old(RecordOpStep(app, Waited(T(), C(Checked), wait), C(Checked),
                                 Ok(if value.Some? then value.value else NULL))), r, old(hist))
    {
      var e := EventKey(a.target, a.key);
      var value := seen;
      if e in system.events {
        value := Some(system.events[e]);
      } else {
        system.Sleepms(Key(wf, id + 1), until);
      }
      r := RecordOutcome(app, a, id, Ok(if value.Some? then value.value else NULL));
    }

    method Sleep(ghost app: App, a: Action) returns (r: Return)
      requires Valid() && a == NextAction(app, wf, hist) && a.Sleep?
      modifies this, user, system
      ensures Matches(old(OperationSpec(app, T(), C(Ready), Ok(UNIT), None)), r, old(hist))
      ensures Ends(old(T()), old(C(Ready)), a, Ok(UNIT), None, r)
    {
      OperationsEnd(app, T(), C(Ready), Ok(UNIT), None);
      var id, replayed := BeginOrReplay(app, a);
      if replayed.Some? { return replayed.value; }
      r := RecordOutcome(app, a, id, Ok(UNIT));
    }

    /** Retrieves a handle and asks for the status; `seen` is what the query returns. */
    method GetStatus(ghost app: App, a: Action, seen: Option<Value>) returns (r: Return)
      requires Valid() && a == NextAction(app, wf, hist) && a.GetStatus?
      modifies this, user, system
      ensures
        var o := Ok(if seen.Some? then seen.value else NULL);
        && Matches(old(OperationSpec(app, T(), C(Ready), o, None)), r, old(hist))
        && Ends(old(T()), old(C(Ready)), a, o, None, r)
    {
      OperationsEnd(app, T(), C(Ready), Ok(if seen.Some? then seen.value else NULL), None);
      var id, replayed := BeginOrReplay(app, a);
      if replayed.Some? { return replayed.value; }
      r := RecordOutcome(app, a, id, Ok(if seen.Some? then seen.value else NULL));
    }

    method SetEvent(ghost app: App, a: Action) returns (r: Return)
      requires Valid() && a == NextAction(app, wf, hist) && a.SetEvent?
      modifies this, user, system
      ensures Matches(old(OperationSpec(app, T(), C(Ready), Ok(UNIT), None)), r, old(hist))
      ensures Ends(old(T()), old(C(Ready)), a, Ok(UNIT), None, r)
    {
      OperationsEnd(app, T(), C(Ready), Ok(UNIT), None);
      var id, replayed := BeginOrReplay(app, a);
      if replayed.Some? { return replayed.value; }
      r := StoreEvent(app, a, id);
    }

    /** The transaction of an event. */
    method StoreEvent(ghost app: App, a: Action, id: nat) returns (r: Return)
      requires a == NextAction(app, wf, hist) && a.SetEvent? && id == NextId(hist) && functionID == id + a.IdsTaken()
      requires Key(wf, id) !in system.outputs
      modifies this`hist, system
      ensures Matches(old(RecordOpStep(app, T(), C(Checked), Ok(UNIT))), r, old(hist))
    {
      var conflict := system.SetEvent(Key(wf, id), a.key, a.payload);
      if conflict { return ConflictError; }
      hist := hist + [Entry(id, a, Ok(UNIT))];
      return Returned(Ok(UNIT));
    }
  }
}
