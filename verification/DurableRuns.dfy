/** Runs of the durable engine: any number of executions of any number of workflows, interleaved at
    the granularity of database transactions, with crashes, recoveries, duplicate executions and
    serialization failures at any point; and what holds in all of them. */
module DurableRuns {
  import opened Workflows
  import opened DurableSteps

  /** The executions in flight, by number; `log` is a history variable, no step depends on it: the history of the
      execution that last recorded an operation of each workflow; `stored` is the final outcome in
      `workflow_status`. */
  datatype System = System(
    t: Tables,
    execs: map<nat, Ctx>,
    log: map<WfId, seq<Entry>>,
    stored: map<WfId, Outcome>)
  {
    function Log(wf: WfId): seq<Entry> { if wf in log then log[wf] else [] }
  }

  /** A start is a first execution, a recovery or a duplicate; only the first execution of a
      generated identifier runs without `preset`. */
  datatype Label =
    | Start(x: nat, wf: WfId, preset: bool)
    | Crash(x: nat)
    | Do(x: nat, move: Move)
    | Publish(x: nat)      // the outcome of an execution that returned or threw reaches workflow_status
    | Adopt(x: nat)        // an execution that lost a race takes over the stored outcome

  function Initial(db: Db): System {
    System(Tables(map[], map[], NO_EXCHANGE, db, []), map[], map[], map[])
  }

  predicate CanStep(app: App, s: System, l: Label) {
    match l
    case Start(x, _, _) => x !in s.execs
    case Crash(x) => x in s.execs
    case Do(x, m) => x in s.execs && Enabled(app, s.execs[x], m)
    case Publish(x) =>
      x in s.execs && s.execs[x].phase.Done? && NextAction(app, s.execs[x].wf, s.execs[x].hist).Final()
    case Adopt(x) => x in s.execs && s.execs[x].phase.Conflict? && s.execs[x].wf in s.stored
  }

  /** The history of an execution, and the read it is retrying, if an earlier attempt has left an output in the
      buffer before its COMMIT failed. */
  function Held(app: App, c: Ctx): seq<Entry> {
    if c.Id() in c.buffer then c.hist + [Entry(c.Id(), NextAction(app, c.wf, c.hist), Ok(c.buffer[c.Id()]))]
    else c.hist
  }

  /** What a move has recorded of its execution: the background flush writes the whole buffer. */
  function Recorded(app: App, c: Ctx, m: Move, d: Ctx): seq<Entry> {
    if m.FlushFinished? then Held(app, c) else d.hist
  }

  /** One step; a label that is not enabled changes nothing, so every label sequence is a run. */
  function Step(app: App, s: System, l: Label): System {
    if !CanStep(app, s, l) then s else
      match l
      case Start(x, wf, preset) => s.(execs := s.execs[x := Ctx(wf, preset, [], map[], Ready)])
      case Crash(x) => s.(execs := s.execs - {x})
      case Do(x, m) =>
        var c := s.execs[x];
        var (t, d) := Perform(app, s.t, c, m);
        s.(t := t,
           execs := s.execs[x := d],
           log := if !m.StartWait? && (t.tx != s.t.tx || t.ops != s.t.ops) then s.log[c.wf := Recorded(app, c, m, d)]
                  else s.log)
      case Publish(x) => s.(stored := s.stored[s.execs[x].wf := s.execs[x].phase.outcome])
      case Adopt(x) =>
        s.(execs := s.execs[x := s.execs[x].(phase := Done(s.stored[s.execs[x].wf]))])
  }

  function Run(app: App, db: Db, ls: seq<Label>): System {
    if ls == [] then Initial(db) else Step(app, Run(app, db, ls[..|ls| - 1]), ls[|ls| - 1])
  }

  // ---- exactly once -----------------------------------------------------------------------------

  /** The user database after the committed effects, each body run once, in commit order. */
  function DbAfter(app: App, db: Db, effects: seq<Effect>): Db {
    if effects == [] then db
    else
      match app.run(effects[|effects| - 1].code, DbAfter(app, db, effects[..|effects| - 1]))
      case Commit(d, _) => d
      case Abort(_) => DbAfter(app, db, effects[..|effects| - 1])
  }

  /** Effect `i` is what its body did and returned on the database its predecessors left. */
  ghost predicate Genuine(app: App, db: Db, effects: seq<Effect>, i: nat)
    requires i < |effects|
  {
    var r := app.run(effects[i].code, DbAfter(app, db, effects[..i]));
    r.Commit? && r.value == effects[i].value
  }

  ghost predicate Distinct(effects: seq<Effect>) {
    forall i, j :: 0 <= i < j < |effects| ==> effects[i].key != effects[j].key
  }

  /** The user database holds exactly the committed effects. */
  ghost predicate DatabaseIsEffects(app: App, db: Db, t: Tables) {
    && t.db == DbAfter(app, db, t.effects)
    && forall i :: 0 <= i < |t.effects| ==> Genuine(app, db, t.effects, i)
  }

  /** Effects and the rows of writing transactions correspond one to one. */
  ghost predicate RowsAreEffects(t: Tables) {
    && Distinct(t.effects)
    && (forall i :: 0 <= i < |t.effects| ==>
          t.effects[i].key in t.tx && t.tx[t.effects[i].key] == TxRow(Ok(t.effects[i].value), true))
    && (forall k :: k in t.tx && t.tx[k].byWrite ==> exists i :: 0 <= i < |t.effects| && t.effects[i].key == k)
  }

  ghost predicate ExactlyOnce(app: App, db: Db, t: Tables) {
    DatabaseIsEffects(app, db, t) && RowsAreEffects(t)
  }

  lemma DatabaseAddsEffect(app: App, db: Db, t: Tables, t': Tables, e: Effect)
    requires DatabaseIsEffects(app, db, t)
    requires app.run(e.code, t.db).Commit? && app.run(e.code, t.db).value == e.value
    requires t'.effects == t.effects + [e] && t'.db == app.run(e.code, t.db).db
    ensures DatabaseIsEffects(app, db, t')
  {
    var n := |t.effects|;
    assert t'.effects[..n] == t.effects;
    forall i | 0 <= i < |t'.effects| ensures Genuine(app, db, t'.effects, i) {
      assert t'.effects[..i] == t.effects[..i];
      if i < n { assert Genuine(app, db, t.effects, i); }
    }
  }

  lemma RowsAddEffect(t: Tables, t': Tables, e: Effect, rows: map<Key, TxRow>)
    requires RowsAreEffects(t)
    requires rows.Keys !! t.tx.Keys && e.key !in rows && e.key !in t.tx
    requires forall k :: k in rows ==> !rows[k].byWrite
    requires t'.tx == (t.tx + rows)[e.key := TxRow(Ok(e.value), true)] && t'.effects == t.effects + [e]
    ensures RowsAreEffects(t')
  {
    var n := |t.effects|;
    assert forall i :: 0 <= i < n ==> t'.effects[i] == t.effects[i];
    forall k | k in t'.tx && t'.tx[k].byWrite
      ensures exists i :: 0 <= i < |t'.effects| && t'.effects[i].key == k
    {
      if k == e.key {
        assert t'.effects[n].key == k;
      } else {
        var i :| 0 <= i < n && t.effects[i].key == k;
        assert t'.effects[i].key == k;
      }
    }
  }

  lemma ExactlyOnceAddsRows(app: App, db: Db, t: Tables, t': Tables, rows: map<Key, TxRow>)
    requires ExactlyOnce(app, db, t)
    requires rows.Keys !! t.tx.Keys && forall k :: k in rows ==> !rows[k].byWrite
    requires t'.tx == t.tx + rows && t'.effects == t.effects && t'.db == t.db
    ensures ExactlyOnce(app, db, t')
  {
    forall i | 0 <= i < |t'.effects| ensures Genuine(app, db, t'.effects, i) {
      assert Genuine(app, db, t.effects, i);
    }
    forall k | k in t'.tx && t'.tx[k].byWrite
      ensures exists i :: 0 <= i < |t'.effects| && t'.effects[i].key == k
    {
      assert k in t.tx && t.tx[k].byWrite;
    }
  }

  lemma ExactlyOnceRunTx(app: App, db: Db, t: Tables, c: Ctx, fate: Fate)
    requires ExactlyOnce(app, db, t) && NextAction(app, c.wf, c.hist).Transactional()
    ensures ExactlyOnce(app, db, RunTxStep(app, t, c, fate).0)
  {
    var t' := RunTxStep(app, t, c, fate).0;
    if t' != t {
      var a := NextAction(app, c.wf, c.hist);
      var e := Effect(c.MyKey(), a.code, app.run(a.code, t.db).value);
      DatabaseAddsEffect(app, db, t, t', e);
      RowsAddEffect(t, t', e, BufferRows(c));
    }
  }

  function ErrorRows(c: Ctx): map<Key, TxRow>
    requires c.phase.Aborting?
  {
    BufferRows(c)[c.MyKey() := TxRow(Err(c.phase.error), false)]
  }

  lemma AddThenSet<K, V>(m: map<K, V>, n: map<K, V>, k: K, v: V)
    ensures (m + n)[k := v] == m + n[k := v]
  {
  }

  lemma RecordErrorAddsRows(app: App, t: Tables, c: Ctx)
    requires c.phase.Aborting? && RecordErrorStep(app, t, c).0 != t
    ensures forall k :: k in ErrorRows(c) ==> k !in t.tx && !ErrorRows(c)[k].byWrite
    ensures RecordErrorStep(app, t, c).0 == t.(tx := t.tx + ErrorRows(c))
  {
    AddThenSet(t.tx, BufferRows(c), c.MyKey(), TxRow(Err(c.phase.error), false));
  }

  lemma ExactlyOnceRecordError(app: App, db: Db, t: Tables, c: Ctx)
    requires ExactlyOnce(app, db, t) && c.phase.Aborting?
    ensures ExactlyOnce(app, db, RecordErrorStep(app, t, c).0)
  {
    var t' := RecordErrorStep(app, t, c).0;
    if t' != t {
      RecordErrorAddsRows(app, t, c);
      ExactlyOnceAddsRows(app, db, t, t', ErrorRows(c));
    }
  }

  lemma ExactlyOnceFlush(app: App, db: Db, t: Tables, c: Ctx)
    requires ExactlyOnce(app, db, t)
    ensures ExactlyOnce(app, db, FlushStep(t, c).0) && FlushFinishedStep(t, c).0 == FlushStep(t, c).0
  {
    if !Clashes(t, c) {
      ExactlyOnceAddsRows(app, db, t, FlushStep(t, c).0, BufferRows(c));
    }
  }

  lemma ExactlyOnceMove(app: App, db: Db, t: Tables, c: Ctx, m: Move)
    requires ExactlyOnce(app, db, t) && Enabled(app, c, m)
    ensures ExactlyOnce(app, db, Perform(app, t, c, m).0)
  {
    if m.RunTx? {
      ExactlyOnceRunTx(app, db, t, c, m.fate);
    } else if m.RecordError? {
      ExactlyOnceRecordError(app, db, t, c);
    } else if m.Flush? || m.FlushFinished? {
      ExactlyOnceFlush(app, db, t, c);
    } else {
      ExactlyOnceAddsRows(app, db, t, Perform(app, t, c, m).0, map[]);
    }
  }

  /** In every run, whatever crashes, retries and duplicates occur, each committed effect has its own
      row, each row of a writing transaction its own effect, and the database is the effects in
      commit order. */
  lemma {:induction false} EffectsHappenExactlyOnce(app: App, db: Db, ls: seq<Label>)
    ensures ExactlyOnce(app, db, Run(app, db, ls).t)
  {
    if ls != [] {
      var n := |ls| - 1;
      EffectsHappenExactlyOnce(app, db, ls[..n]);
      var s := Run(app, db, ls[..n]);
      var l := ls[n];
      if CanStep(app, s, l) && l.Do? {
        ExactlyOnceMove(app, db, s.t, s.execs[l.x], l.move);
      }
    }
  }

  // ---- recorded outcomes ------------------------------------------------------------------------

  /** The outcome of `e` is the one its output row stands for.  Only the outputs of read-only
      transactions may be held without a row. */
  predicate Backed(t: Tables, wf: WfId, e: Entry) {
    var k := Key(wf, e.id);
    if e.action.Transactional() then
      (e.action.Read? && e.outcome.Ok?) || (k in t.tx && t.tx[k].outcome == e.outcome)
    else
      k in t.ops && Replayed(e.action, t.ops[k]) == e.outcome
  }

  ghost predicate HistoryBacked(t: Tables, c: Ctx) {
    forall i :: 0 <= i < |c.hist| ==> Backed(t, c.wf, c.hist[i])
  }

  ghost predicate AllBacked(s: System) {
    forall x :: x in s.execs ==> HistoryBacked(s.t, s.execs[x])
  }

  /** Rows are never changed or removed. */
  ghost predicate Grows(t: Tables, t': Tables) {
    && (forall k :: k in t.tx ==> k in t'.tx && t'.tx[k] == t.tx[k])
    && (forall k :: k in t.ops ==> k in t'.ops && t'.ops[k] == t.ops[k])
  }

  lemma MoveGrows(app: App, t: Tables, c: Ctx, m: Move)
    requires Enabled(app, c, m)
    ensures Grows(t, Perform(app, t, c, m).0)
  {
    match m
    case RunTx(f) => RunTxGrows(app, t, c, f);
    case RecordError => RecordErrorGrows(app, t, c);
    case _ => if !Clashes(t, c) { BufferChangesNoRow(t, c); }
  }

  lemma RunTxGrows(app: App, t: Tables, c: Ctx, fate: Fate)
    requires NextAction(app, c.wf, c.hist).Transactional()
    ensures Grows(t, RunTxStep(app, t, c, fate).0)
  {
    if !Clashes(t, c) { BufferChangesNoRow(t, c); }
  }

  lemma RecordErrorGrows(app: App, t: Tables, c: Ctx)
    requires c.phase.Aborting?
    ensures Grows(t, RecordErrorStep(app, t, c).0)
  {
    if !Clashes(t, c) { BufferChangesNoRow(t, c); }
  }

  lemma BufferChangesNoRow(t: Tables, c: Ctx)
    requires !Clashes(t, c)
    ensures forall k :: k in t.tx ==> (t.tx + BufferRows(c))[k] == t.tx[k]
  {
    forall k | k in t.tx ensures k !in BufferRows(c) {}
  }

  /** The operation a move completes has its row, unless it is a read-only transaction. */
  lemma CompletedIsBacked(app: App, t: Tables, c: Ctx, m: Move)
    requires Enabled(app, c, m) && |Perform(app, t, c, m).1.hist| == |c.hist| + 1
    ensures Backed(Perform(app, t, c, m).0, c.wf, Perform(app, t, c, m).1.hist[|c.hist|])
  {
  }

  lemma MoveBacked(app: App, t: Tables, c: Ctx, m: Move)
    requires Enabled(app, c, m) && HistoryBacked(t, c)
    ensures HistoryBacked(Perform(app, t, c, m).0, Perform(app, t, c, m).1)
  {
    var (t', d) := Perform(app, t, c, m);
    assert d.wf == c.wf;
    MoveGrows(app, t, c, m);
    StaysBacked(t, t', c);
    if d.hist != c.hist {
      MoveAppends(app, t, c, m);
      CompletedIsBacked(app, t, c, m);
    }
  }

  /** A move that completes the operation appends it and leaves the execution between operations. */
  lemma MoveAppends(app: App, t: Tables, c: Ctx, m: Move)
    requires Enabled(app, c, m) && Perform(app, t, c, m).1.hist != c.hist
    ensures
      var d := Perform(app, t, c, m).1;
      && |d.hist| == |c.hist| + 1 && d.wf == c.wf && d.phase.Ready?
      && d.hist == c.hist + [Entry(c.Id(), NextAction(app, c.wf, c.hist), d.hist[|c.hist|].outcome)]
  {
  }

  lemma StaysBacked(t: Tables, t': Tables, c: Ctx)
    requires Grows(t, t') && HistoryBacked(t, c)
    ensures HistoryBacked(t', c)
  {
    forall i | 0 <= i < |c.hist| ensures Backed(t', c.wf, c.hist[i]) {
      assert Backed(t, c.wf, c.hist[i]);
    }
  }

  /** In every run, every outcome any execution holds, except outputs of read-only transactions, is
      the recorded one. */
  lemma {:induction false} RecordedOutcomesAreHeld(app: App, db: Db, ls: seq<Label>)
    ensures AllBacked(Run(app, db, ls))
  {
    if ls != [] {
      var n := |ls| - 1;
      RecordedOutcomesAreHeld(app, db, ls[..n]);
      var s := Run(app, db, ls[..n]);
      var l := ls[n];
      var s' := Run(app, db, ls);
      if CanStep(app, s, l) && l.Do? {
        MoveGrows(app, s.t, s.execs[l.x], l.move);
        forall x | x in s'.execs ensures HistoryBacked(s'.t, s'.execs[x]) {
          if x == l.x { MoveBacked(app, s.t, s.execs[x], l.move); }
          else { StaysBacked(s.t, s'.t, s.execs[x]); }
        }
      }
    }
  }

  /** If the operation is a read-only transaction, its row is there, with this outcome. */
  predicate ReadRecorded(t: Tables, wf: WfId, e: Entry) {
    e.action.Read? ==> Key(wf, e.id) in t.tx && t.tx[Key(wf, e.id)].outcome == e.outcome
  }

  /** Agreement: in every run, executions of one workflow that hold an outcome of the same operation under the same
      identifier hold the same outcome, unless it is that of a read-only transaction which is not recorded as they hold
      it. */
  lemma {:induction false} ExecutionsAgree(app: App, db: Db, ls: seq<Label>, x: nat, y: nat, i: nat, j: nat)
    requires
      var s := Run(app, db, ls);
      && x in s.execs && y in s.execs && s.execs[x].wf == s.execs[y].wf
      && i < |s.execs[x].hist| && j < |s.execs[y].hist|
      && s.execs[x].hist[i].id == s.execs[y].hist[j].id
      && s.execs[x].hist[i].action == s.execs[y].hist[j].action
    requires
      var s := Run(app, db, ls);
      && ReadRecorded(s.t, s.execs[x].wf, s.execs[x].hist[i])
      && ReadRecorded(s.t, s.execs[y].wf, s.execs[y].hist[j])
    ensures Run(app, db, ls).execs[x].hist[i].outcome == Run(app, db, ls).execs[y].hist[j].outcome
  {
    RecordedOutcomesAreHeld(app, db, ls);
    var s := Run(app, db, ls);
    assert Backed(s.t, s.execs[x].wf, s.execs[x].hist[i]);
    assert Backed(s.t, s.execs[y].wf, s.execs[y].hist[j]);
  }

  // ---- histories follow the program -------------------------------------------------------------

  /** The outcome a program ends with. */
  function FinalOutcome(a: Action): Outcome
    requires a.Final()
  {
    if a.Return? then Ok(a.result) else Err(a.reason)
  }

  /** An execution's history is one its program can have; a flushed buffer is empty, also while a flushing operation
      runs; only transactional operations abort; the buffer holds outputs of operations before the next one, or of
      the next one if it is a read that is being retried; and an execution that has reached the end of its program
      ends as its program says. */
  ghost predicate Orderly(app: App, c: Ctx) {
    var a := NextAction(app, c.wf, c.hist);
    && Follows(app, c.wf, c.hist)
    && (c.phase.Flushed? ==> c.buffer == map[] && a.FlushesFirst())
    && (c.phase.Checked? && a.FlushesFirst() ==> c.buffer == map[])
    && (c.phase.Aborting? ==> a.Transactional())
    && BufferBelow(app, c)
    && (c.phase.Conflict? ==> !a.Final())
    && (c.phase.Done? && a.Final() ==> c.phase.outcome == FinalOutcome(a))
  }

  ghost predicate BufferBelow(app: App, c: Ctx) {
    forall k :: k in c.buffer ==> k < c.Id() || (k == c.Id() && NextAction(app, c.wf, c.hist).Read?)
  }

  ghost predicate AllOrderly(app: App, s: System) {
    forall x :: x in s.execs ==> Orderly(app, s.execs[x])
  }

  lemma AppendFollows(app: App, c: Ctx, o: Outcome)
    requires Follows(app, c.wf, c.hist) && !NextAction(app, c.wf, c.hist).Final()
    requires forall k :: k in c.buffer ==> k <= c.Id()
    ensures Orderly(app, c.Append(NextAction(app, c.wf, c.hist), o))
  {
    var a := NextAction(app, c.wf, c.hist);
    FollowsExtend(app, c.wf, c.hist, Entry(c.Id(), a, o));
  }

  lemma MoveOrderly(app: App, t: Tables, c: Ctx, m: Move)
    requires Enabled(app, c, m) && Orderly(app, c)
    ensures Orderly(app, Perform(app, t, c, m).1)
  {
    var d := Perform(app, t, c, m).1;
    if d.hist == c.hist {
      MoveKeepsPhaseOrder(app, t, c, m);
    } else {
      MoveAppends(app, t, c, m);
      MoveBuffers(app, t, c, m);
      AppendFollows(app, c.(buffer := d.buffer), d.hist[|c.hist|].outcome);
    }
  }

  /** A move may buffer an output of the operation it works on, and nothing else. */
  lemma MoveBuffers(app: App, t: Tables, c: Ctx, m: Move)
    requires Enabled(app, c, m)
    ensures
      var d := Perform(app, t, c, m).1;
      forall k :: k in d.buffer ==> k in c.buffer || (k == c.Id() && NextAction(app, c.wf, c.hist).Read?)
  {
  }

  lemma MoveKeepsPhaseOrder(app: App, t: Tables, c: Ctx, m: Move)
    requires Enabled(app, c, m) && Orderly(app, c) && Perform(app, t, c, m).1.hist == c.hist
    ensures Orderly(app, Perform(app, t, c, m).1)
  {
    var a, d := NextAction(app, c.wf, c.hist), Perform(app, t, c, m).1;
    assert BufferBelow(app, d) by { MoveBuffers(app, t, c, m); }
    if m.RunTx? {
      RunTxPhase(app, t, c, m.fate);
    } else if m.FlushFinished? || m.Flush? {
      assert d.buffer == map[] || d.buffer == c.buffer;
    }
  }

  lemma RunTxPhase(app: App, t: Tables, c: Ctx, fate: Fate)
    requires NextAction(app, c.wf, c.hist).Transactional() && |RunTxStep(app, t, c, fate).1.hist| == |c.hist|
    ensures
      var d := RunTxStep(app, t, c, fate).1;
      (d.phase.Ready? || d.phase.Aborting? || d.phase.Conflict?) && d.wf == c.wf && d.hist == c.hist
  {
  }

  lemma {:induction false} HistoriesFollowPrograms(app: App, db: Db, ls: seq<Label>)
    ensures AllOrderly(app, Run(app, db, ls))
  {
    if ls != [] {
      var n := |ls| - 1;
      HistoriesFollowPrograms(app, db, ls[..n]);
      var s := Run(app, db, ls[..n]);
      var l := ls[n];
      if CanStep(app, s, l) && l.Do? {
        MoveOrderly(app, s.t, s.execs[l.x], l.move);
      }
    }
  }
}
