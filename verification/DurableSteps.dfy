/** The atomic database steps of one workflow execution, as functions on the durable tables and on
    the execution's volatile context. */
module DurableSteps {
  import opened Workflows

  /** A row of `transaction_outputs`.  `byWrite` says that the row carries a transaction id, that is,
      it was written in the same database transaction as the effect of a writing transaction. */
  datatype TxRow = TxRow(outcome: Outcome, byWrite: bool)

  /** A committed effect on the user database. */
  datatype Effect = Effect(key: Key, code: int, value: Value)

  datatype EventSet = EventSet(event: EventKey, value: Value)

  /** A message that a recorded operation has sent or received. */
  datatype Letter = Letter(key: Key, address: Address, message: Value)

  /** Events, and the messages that wait at each address, oldest first.  The rest is history: the events set, the
      messages sent and the messages received, in the order of their transactions. */
  datatype Exchange = Exchange(
    events: map<EventKey, Value>,
    mail: map<Address, seq<Value>>,
    sets: seq<EventSet>,
    sent: seq<Letter>,
    received: seq<Letter>)
  {
    function Waiting(a: Address): seq<Value> { if a in mail then mail[a] else [] }
  }

  const NO_EXCHANGE: Exchange := Exchange(map[], map[], [], [], [])

  /** Everything that survives a crash. */
  datatype Tables = Tables(
    tx: map<Key, TxRow>,
    ops: map<Key, Outcome>,
    ex: Exchange,
    db: Db,
    effects: seq<Effect>)

  datatype Phase =
    | Ready                      // between operations
    | Checked                    // the check for a recorded outcome found none (or was skipped)
    | Flushed                    // a flushing operation has written the buffer, not yet looked itself up
    | Aborting(error: string)    // a transaction body threw; its error is not recorded yet
    | Conflict                   // lost a primary-key race
    | Done(outcome: Outcome)     // the workflow function returned or threw

  /** The volatile part of one execution: lost in a crash. */
  datatype Ctx = Ctx(wf: WfId, preset: bool, hist: seq<Entry>, buffer: map<nat, Value>, phase: Phase)
  {
    function Id(): nat { NextId(hist) }

    function MyKey(): Key { Key(wf, Id()) }

    /** The second identifier of an operation that waits. */
    function WaitKey(): Key { Key(wf, Id() + 1) }

    function Append(action: Action, outcome: Outcome): Ctx {
      this.(hist := hist + [Entry(Id(), action, outcome)], phase := Ready)
    }
  }

  /** How one database transaction of a transactional operation ends, as far as serialization goes:
      it may fail before the buffer is cleared, or at COMMIT, after the buffer was cleared. */
  datatype Fate = Success | SerializationFailure | CommitFailure

  datatype Move =
    | CheckTx
    | RunTx(fate: Fate)
    | RecordError
    | Flush
    | CheckOp
    | StartWait(until: Value)    // the end of a wait is recorded when the wait begins
    | RecordOp(outcome: Outcome)
    | Finish
    | FlushFinished

  /** The rows a flush of the result buffer inserts. */
  function BufferRows(c: Ctx): map<Key, TxRow> {
    map k | k in c.buffer :: Key(c.wf, k) := TxRow(Ok(c.buffer[k]), false)
  }

  /** A flush would hit a primary key that is already taken. */
  predicate Clashes(t: Tables, c: Ctx) {
    exists k :: k in c.buffer && Key(c.wf, k) in t.tx
  }

  /** What an operation returns when its row already exists: `send`, `setEvent` and `sleep` ignore the
      row's content, `recv`, `getEvent` and `getStatus` read its output column only. */
  function Replayed(a: Action, row: Outcome): Outcome {
    if a.Send? || a.SetEvent? || a.Sleep? then Ok(UNIT)
    else if (a.Recv? || a.GetEvent? || a.GetStatus?) && row.Err? then Ok(NULL)
    else row
  }

  /** The outcomes an operation can have when it really runs. */
  predicate Possible(a: Action, o: Outcome) {
    && (a.Send? || a.SetEvent? || a.Sleep? ==> o == Ok(UNIT))
    && (a.Recv? || a.GetEvent? || a.GetStatus? ==> o.Ok?)
  }

  /** What an operation that would yield `o` is recorded with: `recv` takes the oldest message waiting, if there is
      one; `getEvent` has read a value of the event before, or none. */
  function Yields(ex: Exchange, wf: WfId, a: Action, o: Outcome): Outcome {
    match a
    case Recv(topic) => Ok(if ex.Waiting(Address(wf, topic)) == [] then NULL else ex.Waiting(Address(wf, topic))[0])
    case GetEvent(target, name) =>
      if o.Ok? && EventSet(EventKey(target, name), o.value) in ex.sets then o else Ok(NULL)
    case _ => o
  }

  /** The effect of an operation, in the same database transaction as its row. */
  function Exchanged(ex: Exchange, k: Key, a: Action): Exchange {
    match a
    case SetEvent(name, payload) =>
      var event := EventKey(k.wf, name);
      ex.(events := ex.events[event := payload], sets := ex.sets + [EventSet(event, payload)])
    case Send(destination, topic, message) =>
      var to := Address(destination, topic);
      ex.(mail := ex.mail[to := ex.Waiting(to) + [message]], sent := ex.sent + [Letter(k, to, message)])
    case Recv(topic) =>
      var at := Address(k.wf, topic);
      var waiting := ex.Waiting(at);
      if waiting == [] then ex
      else ex.(mail := ex.mail[at := waiting[1..]], received := ex.received + [Letter(k, at, waiting[0])])
    case _ => ex
  }

  predicate Enabled(app: App, c: Ctx, m: Move) {
    var a := NextAction(app, c.wf, c.hist);
    match m
    case CheckTx => c.phase.Ready? && a.Transactional()
    case RunTx(_) => c.phase.Checked? && a.Transactional()
    case RecordError => c.phase.Aborting? && a.Transactional()
    case Flush => c.phase.Ready? && a.FlushesFirst()
    case CheckOp => a.Operational() && (if a.FlushesFirst() then c.phase.Flushed? else c.phase.Ready?)
    case StartWait(_) => c.phase.Checked? && a.Waits()
    case RecordOp(o) => c.phase.Checked? && a.Operational() && Possible(a, o)
    case Finish => c.phase.Ready? && a.Final()
    case FlushFinished => c.phase.Done? && c.phase.outcome.Ok?
  }

  /** The lookup that precedes a transaction body; executions without a preset identifier skip it.
      A recorded error is thrown inside the database transaction and so takes the path of a body that
      throws. */
  function CheckTxStep(app: App, t: Tables, c: Ctx): Ctx {
    if c.preset && c.MyKey() in t.tx then
      match t.tx[c.MyKey()].outcome
      case Ok(_) => c.Append(NextAction(app, c.wf, c.hist), t.tx[c.MyKey()].outcome)
      case Err(e) => c.(phase := Aborting(e))
    else
      c.(phase := Checked)
  }

  /** One database transaction that runs the body. */
  function RunTxStep(app: App, t: Tables, c: Ctx, fate: Fate): (Tables, Ctx)
    requires NextAction(app, c.wf, c.hist).Transactional()
  {
    var a := NextAction(app, c.wf, c.hist);
    if fate.SerializationFailure? then
      (t, c.(phase := Ready))
    else if a.Read? then
      match app.view(a.code, t.db)
      case Err(e) => (t, c.(phase := Aborting(e)))
      case Ok(v) =>
        var d := c.(buffer := c.buffer[c.Id() := v]);
        (t, if fate.CommitFailure? then d.(phase := Ready) else d.Append(a, Ok(v)))
    else if Clashes(t, c) then
      (t, c.(phase := Conflict))
    else
      match app.run(a.code, t.db)
      case Abort(e) => (t, c.(phase := Aborting(e)))
      case Commit(db, v) =>
        if c.MyKey() in t.tx || c.Id() in c.buffer then
          (t, c.(phase := Conflict))
        else if fate.CommitFailure? then
          (t, c.(buffer := map[], phase := Ready))
        else
          (t.(tx := (t.tx + BufferRows(c))[c.MyKey() := TxRow(Ok(v), true)],
              db := db,
              effects := t.effects + [Effect(c.MyKey(), a.code, v)]),
           c.(buffer := map[]).Append(a, Ok(v)))
  }

  /** The second database transaction of a failed body: flush the buffer and record the error. */
  function RecordErrorStep(app: App, t: Tables, c: Ctx): (Tables, Ctx)
    requires c.phase.Aborting?
  {
    if Clashes(t, c) || c.MyKey() in t.tx || c.Id() in c.buffer then
      (t, c.(phase := Conflict))
    else
      (t.(tx := (t.tx + BufferRows(c))[c.MyKey() := TxRow(Err(c.phase.error), false)]),
       c.(buffer := map[]).Append(NextAction(app, c.wf, c.hist), Err(c.phase.error)))
  }

  /** The flush in a database transaction of its own. */
  function FlushStep(t: Tables, c: Ctx): (Tables, Ctx) {
    if Clashes(t, c) then
      (t, c.(phase := Conflict))
    else
      (t.(tx := t.tx + BufferRows(c)), c.(buffer := map[], phase := Flushed))
  }

  function CheckOpStep(app: App, t: Tables, c: Ctx): Ctx {
    var a := NextAction(app, c.wf, c.hist);
    if c.MyKey() in t.ops then c.Append(a, Replayed(a, t.ops[c.MyKey()])) else c.(phase := Checked)
  }

  /** The first wait under an identifier records when it ends, in a statement of its own and without a flush. */
  function StartWaitStep(t: Tables, c: Ctx, until: Value): Tables {
    if c.WaitKey() in t.ops then t else t.(ops := t.ops[c.WaitKey() := Ok(until)])
  }

  /** Recording an operation: the row and the operation's effect commit together.  `sleep` inserts
      with ON CONFLICT DO NOTHING, every other operation loses the race. */
  function RecordOpStep(app: App, t: Tables, c: Ctx, o: Outcome): (Tables, Ctx) {
    var a := NextAction(app, c.wf, c.hist);
    if c.MyKey() in t.ops then
      (t, if a.Sleep? then c.Append(a, Ok(UNIT)) else c.(phase := Conflict))
    else
      var r := Yields(t.ex, c.wf, a, o);
      (t.(ops := t.ops[c.MyKey() := r], ex := Exchanged(t.ex, c.MyKey(), a)), c.Append(a, r))
  }

  function FinishStep(app: App, c: Ctx): Ctx {
    match NextAction(app, c.wf, c.hist)
    case Return(v) => c.(phase := Done(Ok(v)))
    case Throw(e) => c.(phase := Done(Err(e)))
    case _ => c
  }

  /** The executor's background flush of what an execution that returned left in its buffer; one that throws hands
      nothing over. */
  function FlushFinishedStep(t: Tables, c: Ctx): (Tables, Ctx) {
    if Clashes(t, c) then (t, c) else (t.(tx := t.tx + BufferRows(c)), c.(buffer := map[]))
  }

  function Perform(app: App, t: Tables, c: Ctx, m: Move): (Tables, Ctx)
    requires Enabled(app, c, m)
  {
    match m
    case CheckTx => (t, CheckTxStep(app, t, c))
    case RunTx(f) => RunTxStep(app, t, c, f)
    case RecordError => RecordErrorStep(app, t, c)
    case Flush => FlushStep(t, c)
    case CheckOp => (t, CheckOpStep(app, t, c))
    case StartWait(until) => (StartWaitStep(t, c, until), c)
    case RecordOp(o) => RecordOpStep(app, t, c, o)
    case Finish => (t, FinishStep(app, c))
    case FlushFinished => FlushFinishedStep(t, c)
  }
}
