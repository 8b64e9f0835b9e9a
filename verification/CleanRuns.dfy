/** Clean runs: runs in which no buffered read is dropped or overtaken by a later row.  In them the output tables
    hold, for each workflow, exactly the rows of one history of its program. */
module CleanRuns {
  import opened Workflows
  import opened DurableSteps
  import opened DurableRuns

  /** A writing transaction gets as far as COMMIT: the flush and the record met no conflict. */
  predicate ReachesCommit(app: App, t: Tables, c: Ctx) {
    var a := NextAction(app, c.wf, c.hist);
    a.Write? && !Clashes(t, c) && app.run(a.code, t.db).Commit? && c.MyKey() !in t.tx && c.Id() !in c.buffer
  }

  /** The move adds a row to `operation_outputs`. */
  predicate WritesOp(t: Tables, c: Ctx, m: Move) {
    (m.RecordOp? && c.MyKey() !in t.ops) || (m.StartWait? && c.WaitKey() !in t.ops)
  }

  /** The ways to lose a buffered read: a writing transaction fails at COMMIT, after the in-memory buffer has been
      cleared, and an operation that does not flush the buffer records itself, or the end of its wait. */
  predicate Lossy(app: App, s: System, l: Label) {
    && CanStep(app, s, l) && l.Do?
    && var c := s.execs[l.x];
       && c.buffer != map[]
       && (|| (l.move == RunTx(CommitFailure) && ReachesCommit(app, s.t, c))
           || (!NextAction(app, c.wf, c.hist).FlushesFirst() && WritesOp(s.t, c, l.move)))
  }

  ghost predicate CleanRun(app: App, db: Db, ls: seq<Label>) {
    forall i :: 0 <= i < |ls| ==> !Lossy(app, Run(app, db, ls[..i]), ls[i])
  }

  lemma CleanPrefix(app: App, db: Db, ls: seq<Label>, n: nat)
    requires CleanRun(app, db, ls) && n <= |ls|
    ensures CleanRun(app, db, ls[..n])
  {
    forall i | 0 <= i < n ensures !Lossy(app, Run(app, db, ls[..n][..i]), ls[..n][i]) {
      assert ls[..n][..i] == ls[..i];
    }
  }

  // ---- the rows of a history --------------------------------------------------------------------

  function RowOf(e: Entry): TxRow { TxRow(e.outcome, e.action.Write? && e.outcome.Ok?) }

  function TxRows(h: seq<Entry>): map<nat, TxRow> {
    if h == [] then map[]
    else
      var e := h[|h| - 1];
      var rows := TxRows(h[..|h| - 1]);
      if e.action.Transactional() then rows[e.id := RowOf(e)] else rows
  }

  function OpRows(h: seq<Entry>): map<nat, Outcome> {
    if h == [] then map[]
    else
      var e := h[|h| - 1];
      var rows := OpRows(h[..|h| - 1]);
      if e.action.Transactional() then rows else rows[e.id := e.outcome]
  }

  lemma RowsAppend(h: seq<Entry>, e: Entry)
    ensures TxRows(h + [e]) == (if e.action.Transactional() then TxRows(h)[e.id := RowOf(e)] else TxRows(h))
    ensures OpRows(h + [e]) == (if e.action.Transactional() then OpRows(h) else OpRows(h)[e.id := e.outcome])
  {
    assert (h + [e])[..|h|] == h;
  }

  /** Every row comes from an operation of the history, so its identifier is below the counter. */
  lemma {:induction false} RowsBelow(app: App, wf: WfId, h: seq<Entry>, id: nat)
    requires Follows(app, wf, h) && (id in TxRows(h) || id in OpRows(h))
    ensures id < NextId(h)
  {
    var n := |h| - 1;
    FollowsPrefix(app, wf, h, n);
    IdsIncrease(app, wf, h, n);
    assert FollowsAt(app, wf, h, n);
    if id != h[n].id {
      RowsBelow(app, wf, h[..n], id);
    }
  }

  /** Every operation of the history has its row. */
  lemma {:induction false} RowsAt(app: App, wf: WfId, h: seq<Entry>, i: nat)
    requires Follows(app, wf, h) && i < |h|
    ensures h[i].action.Transactional() ==> h[i].id in TxRows(h) && TxRows(h)[h[i].id] == RowOf(h[i])
    ensures !h[i].action.Transactional() ==> h[i].id in OpRows(h) && OpRows(h)[h[i].id] == h[i].outcome
    decreases |h|
  {
    var n := |h| - 1;
    assert FollowsAt(app, wf, h, n);
    if i < n {
      FollowsPrefix(app, wf, h, n);
      RowsAt(app, wf, h[..n], i);
      IdsIncrease(app, wf, h[..n], i);
    }
  }

  /** From `n` on, the history consists of outputs of read-only transactions that wait in `b`, and
      `b` holds nothing else. */
  ghost predicate TailBuffered(h: seq<Entry>, n: nat, b: map<nat, Value>) {
    && n <= |h|
    && (forall i :: n <= i < |h| ==>
          h[i].action.Read? && h[i].outcome.Ok? && h[i].id in b && b[h[i].id] == h[i].outcome.value)
    && (forall k :: k in b ==> exists i :: n <= i < |h| && h[i].id == k)
  }

  lemma TailShorter(app: App, wf: WfId, h: seq<Entry>, n: nat, b: map<nat, Value>)
    requires Follows(app, wf, h) && TailBuffered(h, n, b) && n < |h|
    ensures TailBuffered(h[..|h| - 1], n, b - {h[|h| - 1].id})
  {
    var m := |h| - 1;
    var b' := b - {h[m].id};
    FollowsPrefix(app, wf, h, m);
    assert FollowsAt(app, wf, h, m);
    forall i | n <= i < m ensures h[i].id != h[m].id {
      IdsIncrease(app, wf, h[..m], i);
    }
    forall k | k in b' ensures exists i :: n <= i < m && h[..m][i].id == k {
      var i :| n <= i < |h| && h[i].id == k;
      assert h[..m][i].id == k;
    }
  }

  /** The rows of buffered outputs, by function identifier. */
  function Plain(b: map<nat, Value>): map<nat, TxRow> {
    map id | id in b :: TxRow(Ok(b[id]), false)
  }

  lemma PlainSet(b: map<nat, Value>, id: nat)
    requires id in b
    ensures Plain(b) == Plain(b - {id})[id := TxRow(Ok(b[id]), false)]
  {
  }

  /** Flushing the buffer adds exactly the rows of the tail. */
  lemma {:induction false} TailRows(app: App, wf: WfId, h: seq<Entry>, n: nat, b: map<nat, Value>)
    requires Follows(app, wf, h) && TailBuffered(h, n, b)
    ensures TxRows(h) == TxRows(h[..n]) + Plain(b)
    ensures OpRows(h) == OpRows(h[..n])
    decreases |h|
  {
    if n == |h| {
      assert h[..n] == h;
      assert b == map[];
    } else {
      var m := |h| - 1;
      var rest := b - {h[m].id};
      assert Follows(app, wf, h[..m]) && TailBuffered(h[..m], n, rest) by {
        FollowsPrefix(app, wf, h, m);
        TailShorter(app, wf, h, n, b);
      }
      TailRows(app, wf, h[..m], n, rest);
      assert h[..m][..n] == h[..n];
      PlainSet(b, h[m].id);
      AddThenSet(TxRows(h[..n]), Plain(rest), h[m].id, RowOf(h[m]));
      assert RowOf(h[m]) == TxRow(Ok(b[h[m].id]), false);
    }
  }

  // ---- the invariant ----------------------------------------------------------------------------

  /** The rows of `wf` in a table are `rows`, one for one. */
  ghost predicate Slice<R(!new)>(table: map<Key, R>, wf: WfId, rows: map<nat, R>) {
    && (forall id :: Key(wf, id) in table <==> id in rows)
    && (forall id :: id in rows && Key(wf, id) in table ==> table[Key(wf, id)] == rows[id])
  }

  /** The second identifier of an operation of the history that may have waited, or of the one that comes next. */
  ghost predicate IsTimeout(app: App, wf: WfId, h: seq<Entry>, id: nat) {
    || (exists i :: 0 <= i < |h| && TimeoutOf(h[i], id))
    || (NextAction(app, wf, h).Waits() && id == NextId(h) + 1)
  }

  predicate TimeoutOf(e: Entry, id: nat) { e.action.Waits() && id == e.id + 1 }

  /** The rows of `wf` in `operation_outputs` are those of the history, one for one, and beside them only the ends of
      waits. */
  ghost predicate OpSlice(app: App, table: map<Key, Outcome>, wf: WfId, h: seq<Entry>) {
    && (forall id :: id in OpRows(h) ==> Key(wf, id) in table && table[Key(wf, id)] == OpRows(h)[id])
    && (forall id: nat :: Key(wf, id) in table ==> id in OpRows(h) || IsTimeout(app, wf, h, id))
  }

  ghost predicate Holds(app: App, t: Tables, wf: WfId, h: seq<Entry>) {
    Slice(t.tx, wf, TxRows(h)) && OpSlice(app, t.ops, wf, h)
  }

  /** A longer history has the same waits, and more. */
  lemma TimeoutsGrow(app: App, wf: WfId, g: seq<Entry>, h: seq<Entry>, id: nat)
    requires Follows(app, wf, h) && |g| <= |h| && g == h[..|g|] && IsTimeout(app, wf, g, id)
    ensures IsTimeout(app, wf, h, id)
  {
    if i :| 0 <= i < |g| && TimeoutOf(g[i], id) {
      assert TimeoutOf(h[i], id);
    } else if |g| < |h| {
      assert FollowsAt(app, wf, h, |g|);
      assert TimeoutOf(h[|g|], id);
    } else {
      assert g == h;
    }
  }

  lemma TimeoutBelow(app: App, wf: WfId, h: seq<Entry>, id: nat)
    requires Follows(app, wf, h) && IsTimeout(app, wf, h, id)
    ensures id < NextId(h) || (NextAction(app, wf, h).Waits() && id == NextId(h) + 1)
  {
    if i :| 0 <= i < |h| && TimeoutOf(h[i], id) {
      IdsIncrease(app, wf, h, i);
    }
  }

  /** The history grows, and its operations' rows with it. */
  lemma OpSliceGrows(app: App, table: map<Key, Outcome>, table': map<Key, Outcome>, wf: WfId, g: seq<Entry>,
                     h: seq<Entry>)
    requires OpSlice(app, table, wf, g) && Follows(app, wf, h) && |g| <= |h| && g == h[..|g|]
    requires forall id :: id in OpRows(h) ==> Key(wf, id) in table' && table'[Key(wf, id)] == OpRows(h)[id]
    requires forall id :: id in OpRows(g) ==> id in OpRows(h)
    requires forall id: nat :: Key(wf, id) in table' ==> Key(wf, id) in table || id in OpRows(h)
    ensures OpSlice(app, table', wf, h)
  {
    forall id: nat | Key(wf, id) in table' && id !in OpRows(h) ensures IsTimeout(app, wf, h, id) {
      TimeoutsGrow(app, wf, g, h, id);
    }
  }

  lemma SliceSet<R(!new)>(table: map<Key, R>, wf: WfId, rows: map<nat, R>, id: nat, r: R)
    requires Slice(table, wf, rows)
    ensures Slice(table[Key(wf, id) := r], wf, rows[id := r])
  {
  }

  lemma SliceFlush(table: map<Key, TxRow>, c: Ctx, rows: map<nat, TxRow>)
    requires Slice(table, c.wf, rows)
    ensures Slice(table + BufferRows(c), c.wf, rows + Plain(c.buffer))
  {
  }

  lemma SliceElsewhere<R(!new)>(table: map<Key, R>, table': map<Key, R>, wf: WfId, rows: map<nat, R>)
    requires Slice(table, wf, rows)
    requires forall k: Key :: k.wf == wf ==> (k in table' <==> k in table)
    requires forall k: Key :: k.wf == wf && k in table && k in table' ==> table'[k] == table[k]
    ensures Slice(table', wf, rows)
  {
  }

  ghost predicate AllPossible(h: seq<Entry>) {
    forall i :: 0 <= i < |h| ==> Possible(h[i].action, h[i].outcome)
  }

  ghost predicate LogExact(app: App, t: Tables, wf: WfId, h: seq<Entry>) {
    Follows(app, wf, h) && AllPossible(h) && Holds(app, t, wf, h)
  }

  /** The execution replays the log and has buffered nothing. */
  ghost predicate Replaying(c: Ctx, log: seq<Entry>) {
    |c.hist| < |log| && c.hist == log[..|c.hist|] && c.buffer == map[]
  }

  /** The execution is past the log, and everything past it waits in its buffer, with the output of a read that it
      is retrying. */
  ghost predicate Leading(app: App, c: Ctx, log: seq<Entry>) {
    |log| <= |c.hist| && log == c.hist[..|log|] && TailBuffered(Held(app, c), |log|, c.buffer)
  }

  ghost predicate Synced(app: App, c: Ctx, log: seq<Entry>) { Replaying(c, log) || Leading(app, c, log) }

  lemma HeldIsHistory(app: App, c: Ctx)
    requires Orderly(app, c) && AllPossible(c.hist)
    ensures Follows(app, c.wf, Held(app, c)) && AllPossible(Held(app, c)) && c.hist <= Held(app, c)
    ensures !NextAction(app, c.wf, c.hist).Read? ==> c.Id() !in c.buffer && Held(app, c) == c.hist
  {
    if c.Id() in c.buffer {
      var e := Entry(c.Id(), NextAction(app, c.wf, c.hist), Ok(c.buffer[c.Id()]));
      FollowsExtend(app, c.wf, c.hist, e);
      AppendPossible(c.hist, e);
    }
  }

  /** Some buffered read is already recorded by another execution: no flush can succeed any more. */
  ghost predicate Overtaken(t: Tables, c: Ctx) { Clashes(t, c) }

  ghost predicate CleanInv(app: App, s: System) {
    && AllOrderly(app, s)
    && (forall wf :: LogExact(app, s.t, wf, s.Log(wf)))
    && (forall x :: x in s.execs ==>
          AllPossible(s.execs[x].hist) &&
          (Synced(app, s.execs[x], s.Log(s.execs[x].wf)) || Overtaken(s.t, s.execs[x])))
  }

  // ---- another execution's rows -----------------------------------------------------------------

  /** When the log grows, an execution that was in step either stays in step or is overtaken. */
  lemma Reclassify(app: App, t': Tables, c: Ctx, log: seq<Entry>, log': seq<Entry>)
    requires Orderly(app, c) && AllPossible(c.hist) && LogExact(app, t', c.wf, log')
    requires |log| <= |log'| && log == log'[..|log|] && Synced(app, c, log)
    ensures Synced(app, c, log') || Overtaken(t', c)
  {
    var n := |log|;
    if Replaying(c, log) {
      assert log'[..n][..|c.hist|] == log'[..|c.hist|];
    } else if |log'| == n {
      assert log' == log;
    } else if c.buffer == map[] {
      NothingBuffered(app, c, log);
      assert c.hist == log'[..n];
    } else {
      var h := Held(app, c);
      HeldIsHistory(app, c);
      TailCounts(h, n, c.buffer);
      assert h[..n] == log'[..n];
      SameNext(app, c.wf, h, log', n);
      RowsAt(app, c.wf, log', n);
      assert Key(c.wf, h[n].id) in t'.tx;
    }
  }

  // ---- the moves of an execution that is in step ------------------------------------------------

  /** What a move must establish, `h` being what it has recorded: the log only grows, it stays exact, and the mover
      stays in step with it or is overtaken. */
  ghost predicate Kept(app: App, t: Tables, t': Tables, d: Ctx, h: seq<Entry>, log: seq<Entry>) {
    var log' := if t'.tx != t.tx || t'.ops != t.ops then h else log;
    && |log| <= |log'| && log == log'[..|log|]
    && LogExact(app, t', d.wf, log')
    && AllPossible(d.hist)
    && (Synced(app, d, log') || Overtaken(t', d))
  }

  lemma UnrecordedKept(app: App, t: Tables, d: Ctx, h: seq<Entry>, log: seq<Entry>)
    requires LogExact(app, t, d.wf, log) && AllPossible(d.hist) && (Synced(app, d, log) || Overtaken(t, d))
    ensures Kept(app, t, t, d, h, log)
  {
    assert log[..|log|] == log;
  }

  lemma RecordedKept(app: App, t: Tables, t': Tables, d: Ctx, h: seq<Entry>, log: seq<Entry>)
    requires (t'.tx != t.tx || t'.ops != t.ops) && |log| <= |h| && log == h[..|log|]
    requires LogExact(app, t', d.wf, h) && AllPossible(d.hist) && Synced(app, d, h)
    ensures Kept(app, t, t', d, h, log)
  {
  }

  ghost predicate InStep(app: App, t: Tables, c: Ctx, log: seq<Entry>) {
    Orderly(app, c) && AllPossible(c.hist) && LogExact(app, t, c.wf, log) && Synced(app, c, log)
  }

  /** A replaying execution's next operation is the log's next entry, and its row is there. */
  lemma ReplayingNext(app: App, t: Tables, c: Ctx, log: seq<Entry>)
    requires InStep(app, t, c, log) && Replaying(c, log)
    ensures
      var e := log[|c.hist|];
      && e.action == NextAction(app, c.wf, c.hist) && e.id == c.Id() && Possible(e.action, e.outcome)
      && (e.action.Transactional() ==> c.MyKey() in t.tx && t.tx[c.MyKey()] == RowOf(e))
      && (!e.action.Transactional() ==> c.MyKey() in t.ops && t.ops[c.MyKey()] == e.outcome)
  {
    var n := |c.hist|;
    assert FollowsAt(app, c.wf, log, n);
    RowsAt(app, c.wf, log, n);
  }

  /** A leading execution's next operation has no row yet, and its buffer clashes with none. */
  lemma LeadingNext(app: App, t: Tables, c: Ctx, log: seq<Entry>)
    requires InStep(app, t, c, log) && Leading(app, c, log)
    ensures c.MyKey() !in t.tx && c.MyKey() !in t.ops && !Clashes(t, c)
  {
    var h := Held(app, c);
    HeldIsHistory(app, c);
    assert h[..|log|] == log;
    forall i | |log| <= i < |h| ensures NextId(log) <= h[i].id {
      LaterId(app, c.wf, h, |log|, i);
    }
    if |log| < |c.hist| {
      LaterId(app, c.wf, c.hist, |log|, |c.hist| - 1);
      IdsIncrease(app, c.wf, c.hist, |c.hist| - 1);
    }
    forall id | id in TxRows(log) || id in OpRows(log) ensures id < NextId(log) {
      RowsBelow(app, c.wf, log, id);
    }
    NoWaitAhead(app, c, log);
  }

  /** What comes next for a leading execution is not under the identifier of a wait. */
  lemma NoWaitAhead(app: App, c: Ctx, log: seq<Entry>)
    requires Orderly(app, c) && Follows(app, c.wf, log) && Leading(app, c, log)
    ensures !IsTimeout(app, c.wf, log, c.Id())
  {
    if |log| < |c.hist| {
      assert FollowsAt(app, c.wf, c.hist, |log|);
      assert Held(app, c)[|log|] == c.hist[|log|];
      LaterId(app, c.wf, c.hist, |log|, |c.hist| - 1);
      IdsIncrease(app, c.wf, c.hist, |c.hist| - 1);
    } else {
      assert c.hist == log;
    }
    if IsTimeout(app, c.wf, log, c.Id()) { TimeoutBelow(app, c.wf, log, c.Id()); }
  }

  lemma LaterId(app: App, wf: WfId, h: seq<Entry>, n: nat, i: nat)
    requires Follows(app, wf, h) && n <= i < |h|
    ensures NextId(h[..n]) <= h[i].id
  {
    assert FollowsAt(app, wf, h, i);
    assert FollowsAt(app, wf, h, n);
    if n < i {
      FollowsPrefix(app, wf, h, i);
      IdsIncrease(app, wf, h[..i], n);
    }
  }

  lemma AppendPossible(h: seq<Entry>, e: Entry)
    requires AllPossible(h) && Possible(e.action, e.outcome)
    ensures AllPossible(h + [e])
  {
  }

  /** Replaying one entry. */
  lemma ReplayOne(app: App, t: Tables, c: Ctx, log: seq<Entry>)
    requires InStep(app, t, c, log) && Replaying(c, log)
    ensures
      var d := c.Append(log[|c.hist|].action, log[|c.hist|].outcome);
      Kept(app, t, t, d, d.hist, log)
  {
    ReplayingNext(app, t, c, log);
    var e := log[|c.hist|];
    var d := c.Append(e.action, e.outcome);
    assert d.hist == log[..|c.hist| + 1];
    if |d.hist| == |log| { assert d.hist == log; }
  }

  /** Nothing durable happened and the history is unchanged. */
  lemma PhaseOnly(app: App, t: Tables, c: Ctx, phase: Phase, log: seq<Entry>)
    requires InStep(app, t, c, log)
    ensures forall h :: Kept(app, t, t, c.(phase := phase), h, log)
  {
    assert log[..|log|] == log;
    assert Held(app, c.(phase := phase)) == Held(app, c);
  }

  lemma KeptCheckTx(app: App, t: Tables, c: Ctx, log: seq<Entry>)
    requires InStep(app, t, c, log) && Enabled(app, c, CheckTx)
    ensures Kept(app, t, t, CheckTxStep(app, t, c), CheckTxStep(app, t, c).hist, log)
  {
    var d := CheckTxStep(app, t, c);
    if d.hist == c.hist {
      PhaseOnly(app, t, c, d.phase, log);
    } else {
      if Leading(app, c, log) { LeadingNext(app, t, c, log); }
      ReplayingNext(app, t, c, log);
      ReplayOne(app, t, c, log);
    }
  }

  lemma KeptCheckOp(app: App, t: Tables, c: Ctx, log: seq<Entry>)
    requires InStep(app, t, c, log) && Enabled(app, c, CheckOp)
    ensures Kept(app, t, t, CheckOpStep(app, t, c), CheckOpStep(app, t, c).hist, log)
  {
    if c.MyKey() in t.ops {
      if Leading(app, c, log) { LeadingNext(app, t, c, log); }
      ReplayingNext(app, t, c, log);
      ReplayOne(app, t, c, log);
    } else {
      PhaseOnly(app, t, c, Checked, log);
    }
  }

  /** Writing the rows of the buffer and of one more operation extends the log by the buffered tail
      and that operation. */
  lemma TailAndOneMore(app: App, t: Tables, t': Tables, c: Ctx, log: seq<Entry>, o: Outcome)
    requires InStep(app, t, c, log) && Leading(app, c, log) && NextAction(app, c.wf, c.hist).Transactional()
    requires t'.ops == t.ops && c.Id() !in c.buffer
    requires t'.tx == (t.tx + BufferRows(c))[c.MyKey() := RowOf(Entry(c.Id(), NextAction(app, c.wf, c.hist), o))]
    ensures
      var d := c.(buffer := map[]).Append(NextAction(app, c.wf, c.hist), o);
      Kept(app, t, t', d, d.hist, log)
  {
    var a := NextAction(app, c.wf, c.hist);
    var e := Entry(c.Id(), a, o);
    var d := c.(buffer := map[]).Append(a, o);
    HeldIsHistory(app, c);
    LeadingNext(app, t, c, log);
    FollowsExtend(app, c.wf, c.hist, e);
    AppendPossible(c.hist, e);
    ExtendedTailHolds(app, t, t', c, log, e);
    AtTheLog(app, d);
    assert d.hist == c.hist + [e] && d.hist[..|log|] == log;
    assert c.MyKey() in t'.tx && c.MyKey() !in t.tx;
    RecordedKept(app, t, t', d, d.hist, log);
  }

  lemma AtTheLog(app: App, d: Ctx)
    requires d.buffer == map[]
    ensures Synced(app, d, d.hist)
  {
    assert d.hist[..|d.hist|] == d.hist && Held(app, d) == d.hist;
    assert Leading(app, d, d.hist);
  }

  lemma ExtendedTailHolds(app: App, t: Tables, t': Tables, c: Ctx, log: seq<Entry>, e: Entry)
    requires InStep(app, t, c, log) && Leading(app, c, log) && e.action.Transactional() && c.Id() !in c.buffer
    requires Follows(app, c.wf, c.hist + [e])
    requires e.id == c.Id() && t'.ops == t.ops && t'.tx == (t.tx + BufferRows(c))[c.MyKey() := RowOf(e)]
    ensures Holds(app, t', c.wf, c.hist + [e])
  {
    assert OpRows(c.hist + [e]) == OpRows(log) by {
      TailRows(app, c.wf, c.hist, |log|, c.buffer);
      RowsAppend(c.hist, e);
    }
    assert Slice(t'.tx, c.wf, TxRows(c.hist + [e])) by {
      TailRows(app, c.wf, c.hist, |log|, c.buffer);
      RowsAppend(c.hist, e);
      SliceFlush(t.tx, c, TxRows(log));
      SliceSet(t.tx + BufferRows(c), c.wf, TxRows(c.hist), c.Id(), RowOf(e));
    }
    assert (c.hist + [e])[..|log|] == log;
    OpSliceGrows(app, t.ops, t.ops, c.wf, log, c.hist + [e]);
  }

  /** Flushing a tail makes it part of the log. */
  lemma KeptTail(app: App, t: Tables, t': Tables, c: Ctx, log: seq<Entry>, phase: Phase)
    requires InStep(app, t, c, log) && Leading(app, c, log) && !Clashes(t, c) && c.buffer != map[]
    requires t'.tx == t.tx + BufferRows(c) && t'.ops == t.ops
    ensures Kept(app, t, t', c.(buffer := map[], phase := phase), Held(app, c), log)
  {
    var d := c.(buffer := map[], phase := phase);
    var h := Held(app, c);
    assert t'.tx != t.tx by {
      var k :| k in c.buffer;
      assert Key(c.wf, k) in t'.tx && Key(c.wf, k) !in t.tx;
    }
    assert LogExact(app, t', c.wf, h) by {
      HeldIsHistory(app, c);
      FlushedTailHolds(app, t, t', c, log);
    }
    HeldExtends(app, c, log);
    AfterFlush(app, c, phase);
    RecordedKept(app, t, t', d, h, log);
  }

  lemma HeldExtends(app: App, c: Ctx, log: seq<Entry>)
    requires Leading(app, c, log)
    ensures |log| <= |Held(app, c)| && log == Held(app, c)[..|log|]
  {
  }

  lemma FlushedTailHolds(app: App, t: Tables, t': Tables, c: Ctx, log: seq<Entry>)
    requires InStep(app, t, c, log) && Leading(app, c, log)
    requires t'.tx == t.tx + BufferRows(c) && t'.ops == t.ops
    ensures Holds(app, t', c.wf, Held(app, c))
  {
    var h := Held(app, c);
    HeldIsHistory(app, c);
    assert h[..|log|] == log;
    TailRows(app, c.wf, h, |log|, c.buffer);
    SliceFlush(t.tx, c, TxRows(log));
    OpSliceGrows(app, t.ops, t.ops, c.wf, log, h);
  }

  /** A read that is being retried when the buffer is flushed will be replayed. */
  lemma AfterFlush(app: App, c: Ctx, phase: Phase)
    requires Orderly(app, c) && AllPossible(c.hist)
    ensures Synced(app, c.(buffer := map[], phase := phase), Held(app, c))
  {
    var d, h := c.(buffer := map[], phase := phase), Held(app, c);
    HeldIsHistory(app, c);
    assert Held(app, d) == d.hist && h[..|c.hist|] == c.hist;
    assert if |c.hist| < |h| then Replaying(d, h) else Leading(app, d, h);
  }

  lemma NothingFlushed(t: Tables, t': Tables, c: Ctx)
    requires c.buffer == map[] && t'.tx == t.tx + BufferRows(c) && t'.ops == t.ops && t'.ex == t.ex
    requires t'.db == t.db && t'.effects == t.effects
    ensures t' == t
  {
    assert BufferRows(c) == map[];
  }

  lemma KeptFlush(app: App, t: Tables, t': Tables, c: Ctx, log: seq<Entry>, phase: Phase)
    requires InStep(app, t, c, log) && !Clashes(t, c)
    requires t'.tx == t.tx + BufferRows(c) && t'.ops == t.ops && t'.ex == t.ex
    requires t'.db == t.db && t'.effects == t.effects
    ensures Kept(app, t, t', c.(buffer := map[], phase := phase), Held(app, c), log)
  {
    if c.buffer == map[] {
      NothingFlushed(t, t', c);
      PhaseOnly(app, t, c, phase, log);
      assert c.(buffer := map[], phase := phase) == c.(phase := phase);
    } else {
      KeptTail(app, t, t', c, log, phase);
    }
  }

  /** Buffering one more output keeps the tail buffered. */
  lemma TailGrows(h: seq<Entry>, n: nat, b: map<nat, Value>, e: Entry)
    requires TailBuffered(h, n, b) && e.id !in b && e.action.Read? && e.outcome.Ok?
    ensures TailBuffered(h + [e], n, b[e.id := e.outcome.value])
  {
    var b' := b[e.id := e.outcome.value];
    var h' := h + [e];
    forall k | k in b' ensures exists i :: n <= i < |h'| && h'[i].id == k {
      if k == e.id {
        assert h'[|h|].id == k;
      } else {
        var i :| n <= i < |h| && h[i].id == k;
        assert h'[i].id == k;
      }
    }
  }

  /** The output of a read that the log already holds: the execution is overtaken. */
  lemma RereadOvertakes(app: App, t: Tables, c: Ctx, v: Value, log: seq<Entry>)
    requires InStep(app, t, c, log) && Replaying(c, log) && NextAction(app, c.wf, c.hist).Read?
    ensures Overtaken(t, c.(buffer := c.buffer[c.Id() := v]))
  {
    ReplayingNext(app, t, c, log);
    assert c.Id() in c.buffer[c.Id() := v];
  }

  /** The output of a fresh read joins the tail; that of an earlier attempt is replaced. */
  lemma ReadJoinsTail(app: App, c: Ctx, v: Value, log: seq<Entry>)
    requires Orderly(app, c) && AllPossible(c.hist) && Leading(app, c, log) && NextAction(app, c.wf, c.hist).Read?
    ensures
      var e := Entry(c.Id(), NextAction(app, c.wf, c.hist), Ok(v));
      TailBuffered(c.hist + [e], |log|, c.buffer[c.Id() := v])
  {
    var e := Entry(c.Id(), NextAction(app, c.wf, c.hist), Ok(v));
    var h, rest := Held(app, c), c.buffer - {c.Id()};
    HeldIsHistory(app, c);
    if c.Id() in c.buffer {
      TailShorter(app, c.wf, h, |log|, c.buffer);
      assert h[..|h| - 1] == c.hist;
    } else {
      assert rest == c.buffer;
    }
    TailGrows(c.hist, |log|, rest, e);
    assert rest[c.Id() := v] == c.buffer[c.Id() := v];
  }

  lemma ReadStaysLeading(app: App, c: Ctx, v: Value, log: seq<Entry>)
    requires Orderly(app, c) && AllPossible(c.hist) && Leading(app, c, log) && NextAction(app, c.wf, c.hist).Read?
    ensures
      var d := c.(buffer := c.buffer[c.Id() := v]);
      Leading(app, d.(phase := Ready), log) && Leading(app, d.Append(NextAction(app, c.wf, c.hist), Ok(v)), log)
  {
    var d := c.(buffer := c.buffer[c.Id() := v]);
    var e := Entry(c.Id(), NextAction(app, c.wf, c.hist), Ok(v));
    ReadJoinsTail(app, c, v, log);
    assert Held(app, d.(phase := Ready)) == c.hist + [e];
    var f := d.Append(NextAction(app, c.wf, c.hist), Ok(v));
    assert f.Id() == c.Id() + 1 && f.Id() !in f.buffer;
    assert Held(app, f) == c.hist + [e];
    assert (c.hist + [e])[..|log|] == log;
  }

  /** A body of a read-only transaction runs and yields an output. */
  predicate Reads(app: App, t: Tables, c: Ctx, m: Move) {
    var a := NextAction(app, c.wf, c.hist);
    m.RunTx? && !m.fate.SerializationFailure? && a.Read? && app.view(a.code, t.db).Ok?
  }

  /** A body of a read-only transaction ran: its output waits in the buffer, also if the COMMIT fails. */
  lemma KeptRead(app: App, t: Tables, c: Ctx, v: Value, log: seq<Entry>)
    requires InStep(app, t, c, log) && NextAction(app, c.wf, c.hist).Read?
    ensures
      var d := c.(buffer := c.buffer[c.Id() := v]);
      var f := d.Append(NextAction(app, c.wf, c.hist), Ok(v));
      Kept(app, t, t, d.(phase := Ready), c.hist, log) && Kept(app, t, t, f, f.hist, log)
  {
    var d := c.(buffer := c.buffer[c.Id() := v]);
    var d0, d1 := d.(phase := Ready), d.Append(NextAction(app, c.wf, c.hist), Ok(v));
    AppendPossible(c.hist, Entry(c.Id(), NextAction(app, c.wf, c.hist), Ok(v)));
    assert (Synced(app, d0, log) && Synced(app, d1, log)) || (Overtaken(t, d0) && Overtaken(t, d1)) by {
      if Replaying(c, log) { RereadOvertakes(app, t, c, v, log); } else { ReadStaysLeading(app, c, v, log); }
    }
    UnrecordedKept(app, t, d0, c.hist, log);
    UnrecordedKept(app, t, d1, d1.hist, log);
  }

  lemma ReadOutcome(app: App, t: Tables, c: Ctx, fate: Fate)
    requires NextAction(app, c.wf, c.hist).Read?
    ensures
      var a := NextAction(app, c.wf, c.hist);
      var (t', d) := RunTxStep(app, t, c, fate);
      var v := app.view(a.code, t.db);
      && t' == t
      && (if fate.SerializationFailure? || v.Err? then d == c.(phase := d.phase)
          else
            var e := c.(buffer := c.buffer[c.Id() := v.value]);
            d == if fate.CommitFailure? then e.(phase := Ready) else e.Append(a, v))
  {
  }

  lemma KeptRunRead(app: App, t: Tables, c: Ctx, fate: Fate, log: seq<Entry>)
    requires InStep(app, t, c, log) && NextAction(app, c.wf, c.hist).Read?
    ensures
      var (t', d) := RunTxStep(app, t, c, fate);
      Kept(app, t, t', d, d.hist, log)
  {
    var a := NextAction(app, c.wf, c.hist);
    ReadOutcome(app, t, c, fate);
    if !fate.SerializationFailure? && app.view(a.code, t.db).Ok? {
      KeptRead(app, t, c, app.view(a.code, t.db).value, log);
    } else {
      PhaseOnly(app, t, c, RunTxStep(app, t, c, fate).1.phase, log);
    }
  }

  lemma WriteOutcome(app: App, t: Tables, c: Ctx, fate: Fate)
    requires NextAction(app, c.wf, c.hist).Write?
    requires fate.CommitFailure? && ReachesCommit(app, t, c) ==> c.buffer == map[]
    ensures
      var a := NextAction(app, c.wf, c.hist);
      var (t', d) := RunTxStep(app, t, c, fate);
      if |d.hist| == |c.hist| then t' == t && d == c.(phase := d.phase)
      else
        && app.run(a.code, t.db).Commit? && c.MyKey() !in t.tx && c.Id() !in c.buffer && t'.ops == t.ops
        && var o: Outcome := Ok(app.run(a.code, t.db).value);
           && t'.tx == (t.tx + BufferRows(c))[c.MyKey() := RowOf(Entry(c.Id(), a, o))]
           && d == c.(buffer := map[]).Append(a, o)
  {
  }

  lemma KeptRunTx(app: App, t: Tables, c: Ctx, fate: Fate, log: seq<Entry>)
    requires InStep(app, t, c, log) && Enabled(app, c, RunTx(fate))
    requires fate.CommitFailure? && ReachesCommit(app, t, c) ==> c.buffer == map[]
    ensures
      var (t', d) := RunTxStep(app, t, c, fate);
      Kept(app, t, t', d, d.hist, log)
  {
    var a := NextAction(app, c.wf, c.hist);
    if a.Read? {
      KeptRunRead(app, t, c, fate, log);
    } else {
      var (t', d) := RunTxStep(app, t, c, fate);
      WriteOutcome(app, t, c, fate);
      if |d.hist| == |c.hist| {
        PhaseOnly(app, t, c, d.phase, log);
      } else {
        if Replaying(c, log) { ReplayingNext(app, t, c, log); }
        TailAndOneMore(app, t, t', c, log, Ok(app.run(a.code, t.db).value));
      }
    }
  }

  /** Recording an error either ends in a conflict, or adds the buffer and the error's row. */
  lemma RecordErrorAdds(app: App, t: Tables, c: Ctx)
    requires Enabled(app, c, RecordError)
    ensures
      var (t', d) := RecordErrorStep(app, t, c);
      var e := Entry(c.Id(), NextAction(app, c.wf, c.hist), Err(c.phase.error));
      if |d.hist| == |c.hist| then t' == t && d == c.(phase := d.phase)
      else
        && t'.ops == t.ops && t'.tx == (t.tx + BufferRows(c))[c.MyKey() := RowOf(e)]
        && d == c.(buffer := map[]).Append(e.action, e.outcome) && c.MyKey() !in t.tx && c.Id() !in c.buffer
  {
  }

  lemma KeptRecordError(app: App, t: Tables, c: Ctx, log: seq<Entry>)
    requires InStep(app, t, c, log) && Enabled(app, c, RecordError)
    ensures
      var (t', d) := RecordErrorStep(app, t, c);
      Kept(app, t, t', d, d.hist, log)
  {
    var (t', d) := RecordErrorStep(app, t, c);
    RecordErrorAdds(app, t, c);
    if |d.hist| == |c.hist| {
      PhaseOnly(app, t, c, d.phase, log);
    } else {
      if Replaying(c, log) { ReplayingNext(app, t, c, log); }
      TailAndOneMore(app, t, t', c, log, Err(c.phase.error));
    }
  }

  lemma TailCounts(h: seq<Entry>, n: nat, b: map<nat, Value>)
    requires TailBuffered(h, n, b)
    ensures n < |h| <==> b != map[]
    ensures n < |h| ==> h[n].id in b && h[n].action.Transactional()
  {
    assert n < |h| ==> h[n].id in b;
    if b != map[] {
      var k :| k in b;
      var i :| n <= i < |h| && h[i].id == k;
    }
  }

  /** The move loses no buffered read. */
  predicate KeepsReads(app: App, t: Tables, c: Ctx, m: Move) {
    c.buffer != map[] ==>
      && (m == RunTx(CommitFailure) ==> !ReachesCommit(app, t, c))
      && (!NextAction(app, c.wf, c.hist).FlushesFirst() ==> !WritesOp(t, c, m))
  }

  /** A leading execution with an empty buffer is exactly at the log. */
  lemma NothingBuffered(app: App, c: Ctx, log: seq<Entry>)
    requires Leading(app, c, log) && c.buffer == map[]
    ensures c.hist == log
  {
    TailCounts(Held(app, c), |log|, c.buffer);
    assert c.hist[..|log|] == c.hist;
  }

  lemma KeptRecordOp(app: App, t: Tables, c: Ctx, o: Outcome, log: seq<Entry>)
    requires InStep(app, t, c, log) && Enabled(app, c, RecordOp(o)) && (c.MyKey() in t.ops || c.buffer == map[])
    ensures
      var (t', d) := RecordOpStep(app, t, c, o);
      Kept(app, t, t', d, d.hist, log)
  {
    var a := NextAction(app, c.wf, c.hist);
    var (t', d) := RecordOpStep(app, t, c, o);
    if c.MyKey() in t.ops {
      if Leading(app, c, log) { LeadingNext(app, t, c, log); }
      if a.Sleep? {
        ReplayingNext(app, t, c, log);
        ReplayOne(app, t, c, log);
      } else {
        PhaseOnly(app, t, c, Conflict, log);
      }
    } else {
      if Replaying(c, log) { ReplayingNext(app, t, c, log); }
      NothingBuffered(app, c, log);
      var e := Entry(c.Id(), a, Yields(t.ex, c.wf, a, o));
      RowsAppend(log, e);
      FollowsExtend(app, c.wf, log, e);
      AppendPossible(log, e);
      assert d.hist == log + [e] && d.hist[..|log|] == log;
      OpSliceGrows(app, t.ops, t'.ops, c.wf, log, d.hist);
      assert c.MyKey() in t'.ops;
      assert d.hist[..|d.hist|] == d.hist;
      assert Leading(app, d, d.hist);
    }
  }

  /** The end of a wait is one of the rows that may stand beside those of the history. */
  lemma KeptStartWait(app: App, t: Tables, c: Ctx, until: Value, log: seq<Entry>)
    requires InStep(app, t, c, log) && Enabled(app, c, StartWait(until)) && (c.WaitKey() in t.ops || c.buffer == map[])
    ensures Kept(app, t, StartWaitStep(t, c, until), c, log, log)
  {
    assert log[..|log|] == log;
    if c.WaitKey() !in t.ops {
      assert IsTimeout(app, c.wf, log, c.Id() + 1) by {
        if Replaying(c, log) {
          ReplayingNext(app, t, c, log);
          assert TimeoutOf(log[|c.hist|], c.Id() + 1);
        } else {
          NothingBuffered(app, c, log);
        }
      }
    }
  }

  /** What a move leaves as the recorded history. */
  function LogAfter(app: App, c: Ctx, m: Move, d: Ctx, log: seq<Entry>): seq<Entry> {
    if m.StartWait? then log else Recorded(app, c, m, d)
  }

  lemma KeptFlushMove(app: App, t: Tables, c: Ctx, log: seq<Entry>)
    requires InStep(app, t, c, log) && Enabled(app, c, Flush)
    ensures Kept(app, t, FlushStep(t, c).0, FlushStep(t, c).1, c.hist, log)
  {
    assert Held(app, c) == c.hist by { HeldIsHistory(app, c); }
    if Clashes(t, c) {
      PhaseOnly(app, t, c, Conflict, log);
      assert FlushStep(t, c) == (t, c.(phase := Conflict));
    } else {
      KeptFlush(app, t, FlushStep(t, c).0, c, log, Flushed);
      assert FlushStep(t, c).1 == c.(buffer := map[], phase := Flushed);
    }
  }

  lemma KeptLastFlush(app: App, t: Tables, c: Ctx, log: seq<Entry>)
    requires InStep(app, t, c, log) && Enabled(app, c, FlushFinished)
    ensures
      var (t', d) := FlushFinishedStep(t, c);
      Kept(app, t, t', d, LogAfter(app, c, FlushFinished, d, log), log)
  {
    if Clashes(t, c) { PhaseOnly(app, t, c, c.phase, log); }
    else { KeptFlush(app, t, FlushFinishedStep(t, c).0, c, log, c.phase); }
  }

  lemma KeptMove(app: App, t: Tables, c: Ctx, m: Move, log: seq<Entry>)
    requires InStep(app, t, c, log) && Enabled(app, c, m) && KeepsReads(app, t, c, m)
    ensures
      var (t', d) := Perform(app, t, c, m);
      Kept(app, t, t', d, LogAfter(app, c, m, d, log), log)
  {
    match m
    case CheckTx => KeptCheckTx(app, t, c, log);
    case RunTx(f) => KeptRunTx(app, t, c, f, log);
    case RecordError => KeptRecordError(app, t, c, log);
    case Flush => KeptFlushMove(app, t, c, log);
    case CheckOp => KeptCheckOp(app, t, c, log);
    case StartWait(until) => KeptStartWait(app, t, c, until, log);
    case RecordOp(o) => KeptRecordOp(app, t, c, o, log);
    case Finish => PhaseOnly(app, t, c, FinishStep(app, c).phase, log);
    case FlushFinished => KeptLastFlush(app, t, c, log);
  }

  // ---- the moves of an overtaken execution ------------------------------------------------------

  /** An execution that has been overtaken changes nothing durable and stays overtaken. */
  lemma OvertakenMove(app: App, t: Tables, c: Ctx, m: Move)
    requires Enabled(app, c, m) && Orderly(app, c) && Overtaken(t, c)
    requires KeepsReads(app, t, c, m)
    ensures Perform(app, t, c, m).0 == t && Overtaken(t, Perform(app, t, c, m).1)
  {
    var d := Perform(app, t, c, m).1;
    var k :| k in c.buffer && Key(c.wf, k) in t.tx;
    assert !WritesOp(t, c, m);
    assert k in d.buffer && d.wf == c.wf;
  }

  lemma MovePossible(app: App, t: Tables, c: Ctx, m: Move)
    requires Enabled(app, c, m) && Orderly(app, c) && AllPossible(c.hist)
    ensures AllPossible(Perform(app, t, c, m).1.hist)
  {
    var d := Perform(app, t, c, m).1;
    if d.hist != c.hist {
      MoveAppends(app, t, c, m);
      var e := d.hist[|c.hist|];
      AppendPossible(c.hist, e);
    }
  }

  // ---- every clean run --------------------------------------------------------------------------

  lemma MoveTouchesOwnRows(app: App, t: Tables, c: Ctx, m: Move, k: Key)
    requires Enabled(app, c, m) && k.wf != c.wf
    ensures
      var t' := Perform(app, t, c, m).0;
      && (k in t'.tx <==> k in t.tx) && (k in t.tx ==> t'.tx[k] == t.tx[k])
      && (k in t'.ops <==> k in t.ops) && (k in t.ops ==> t'.ops[k] == t.ops[k])
  {
    assert k !in BufferRows(c);
    if m.RunTx? {
      RunTxTouchesOwnRows(app, t, c, m.fate, k);
    } else if m.RecordError? {
      RecordErrorTouchesOwnRows(app, t, c, k);
    }
  }

  lemma RunTxTouchesOwnRows(app: App, t: Tables, c: Ctx, fate: Fate, k: Key)
    requires NextAction(app, c.wf, c.hist).Transactional() && k.wf != c.wf
    ensures
      var t' := RunTxStep(app, t, c, fate).0;
      (k in t'.tx <==> k in t.tx) && (k in t.tx ==> t'.tx[k] == t.tx[k]) && t'.ops == t.ops
  {
    assert k !in BufferRows(c);
  }

  lemma RecordErrorTouchesOwnRows(app: App, t: Tables, c: Ctx, k: Key)
    requires c.phase.Aborting? && k.wf != c.wf
    ensures
      var t' := RecordErrorStep(app, t, c).0;
      (k in t'.tx <==> k in t.tx) && (k in t.tx ==> t'.tx[k] == t.tx[k]) && t'.ops == t.ops
  {
    assert k !in BufferRows(c);
  }

  lemma OtherWorkflowsUntouched(app: App, t: Tables, c: Ctx, m: Move, wf: WfId, h: seq<Entry>)
    requires Enabled(app, c, m) && wf != c.wf && LogExact(app, t, wf, h)
    ensures LogExact(app, Perform(app, t, c, m).0, wf, h)
  {
    var t' := Perform(app, t, c, m).0;
    forall k: Key | k.wf == wf
      ensures (k in t'.tx <==> k in t.tx) && (k in t.tx ==> t'.tx[k] == t.tx[k])
      ensures (k in t'.ops <==> k in t.ops) && (k in t.ops ==> t'.ops[k] == t.ops[k])
    {
      MoveTouchesOwnRows(app, t, c, m, k);
    }
    SliceElsewhere(t.tx, t'.tx, wf, TxRows(h));
    assert forall id: nat :: (Key(wf, id) in t'.ops <==> Key(wf, id) in t.ops)
                             && (Key(wf, id) in t.ops ==> t'.ops[Key(wf, id)] == t.ops[Key(wf, id)]);
  }

  /** What a clean step does for the mover's workflow. */
  ghost predicate MoverKept(app: App, s: System, s': System, x: nat)
    requires x in s.execs && x in s'.execs
  {
    var wf := s.execs[x].wf;
    && s'.execs[x].wf == wf
    && |s.Log(wf)| <= |s'.Log(wf)| && s.Log(wf) == s'.Log(wf)[..|s.Log(wf)|]
    && LogExact(app, s'.t, wf, s'.Log(wf))
    && Orderly(app, s'.execs[x]) && AllPossible(s'.execs[x].hist)
    && (Synced(app, s'.execs[x], s'.Log(wf)) || Overtaken(s'.t, s'.execs[x]))
  }

  lemma CleanMover(app: App, s: System, x: nat, m: Move)
    requires CleanInv(app, s) && CanStep(app, s, Do(x, m)) && !Lossy(app, s, Do(x, m))
    ensures MoverKept(app, s, Step(app, s, Do(x, m)), x)
  {
    var c := s.execs[x];
    var log := s.Log(c.wf);
    assert Orderly(app, c) && AllPossible(c.hist) && LogExact(app, s.t, c.wf, log);
    MoveOrderly(app, s.t, c, m);
    MoveKeepsWorkflow(app, s.t, c, m);
    if Overtaken(s.t, c) {
      OvertakenMove(app, s.t, c, m);
      MovePossible(app, s.t, c, m);
      assert log[..|log|] == log;
    } else {
      KeptMove(app, s.t, c, m, log);
    }
  }

  lemma MoveKeepsWorkflow(app: App, t: Tables, c: Ctx, m: Move)
    requires Enabled(app, c, m)
    ensures Perform(app, t, c, m).1.wf == c.wf
  {
  }

  lemma OvertakenStays(t: Tables, t': Tables, c: Ctx)
    requires Grows(t, t') && Overtaken(t, c)
    ensures Overtaken(t', c)
  {
  }

  lemma CleanOthers(app: App, s: System, x: nat, m: Move, y: nat)
    requires CleanInv(app, s) && CanStep(app, s, Do(x, m)) && !Lossy(app, s, Do(x, m))
    requires y in s.execs && y != x
    ensures
      var s' := Step(app, s, Do(x, m));
      Synced(app, s.execs[y], s'.Log(s.execs[y].wf)) || Overtaken(s'.t, s.execs[y])
  {
    var c, o := s.execs[x], s.execs[y];
    var s' := Step(app, s, Do(x, m));
    if Overtaken(s.t, o) {
      MoveGrows(app, s.t, c, m);
      OvertakenStays(s.t, s'.t, o);
    } else if o.wf == c.wf {
      CleanMover(app, s, x, m);
      Reclassify(app, s'.t, o, s.Log(o.wf), s'.Log(o.wf));
    }
  }

  lemma CleanLogs(app: App, s: System, x: nat, m: Move, wf: WfId)
    requires CleanInv(app, s) && CanStep(app, s, Do(x, m)) && !Lossy(app, s, Do(x, m))
    ensures LogExact(app, Step(app, s, Do(x, m)).t, wf, Step(app, s, Do(x, m)).Log(wf))
  {
    if wf == s.execs[x].wf {
      CleanMover(app, s, x, m);
    } else {
      assert LogExact(app, s.t, wf, s.Log(wf));
      OtherWorkflowsUntouched(app, s.t, s.execs[x], m, wf, s.Log(wf));
    }
  }

  lemma CleanDo(app: App, s: System, x: nat, m: Move)
    requires CleanInv(app, s) && CanStep(app, s, Do(x, m)) && !Lossy(app, s, Do(x, m))
    ensures CleanInv(app, Step(app, s, Do(x, m)))
  {
    var s' := Step(app, s, Do(x, m));
    CleanMover(app, s, x, m);
    forall wf ensures LogExact(app, s'.t, wf, s'.Log(wf)) {
      CleanLogs(app, s, x, m, wf);
    }
    forall y | y in s'.execs && y != x
      ensures Orderly(app, s'.execs[y]) && AllPossible(s'.execs[y].hist)
      ensures Synced(app, s'.execs[y], s'.Log(s'.execs[y].wf)) || Overtaken(s'.t, s'.execs[y])
    {
      CleanOthers(app, s, x, m, y);
    }
  }

  /** A step that leaves tables and logs alone only has to place the executions it changes. */
  lemma CleanQuiet(app: App, s: System, s': System)
    requires CleanInv(app, s) && s'.t == s.t && s'.log == s.log
    requires forall x :: x in s'.execs && !(x in s.execs && s'.execs[x] == s.execs[x]) ==>
               && Orderly(app, s'.execs[x]) && AllPossible(s'.execs[x].hist)
               && (Synced(app, s'.execs[x], s.Log(s'.execs[x].wf)) || Overtaken(s.t, s'.execs[x]))
    ensures CleanInv(app, s')
  {
    forall wf ensures LogExact(app, s'.t, wf, s'.Log(wf)) {
      assert LogExact(app, s.t, wf, s.Log(wf));
    }
  }

  lemma DoneIsQuiet(app: App, t: Tables, c: Ctx, log: seq<Entry>, o: Outcome)
    requires Orderly(app, c) && c.phase.Conflict?
    ensures Orderly(app, c.(phase := Done(o)))
    ensures Overtaken(t, c) ==> Overtaken(t, c.(phase := Done(o)))
    ensures Synced(app, c, log) ==> Synced(app, c.(phase := Done(o)), log)
  {
    assert Held(app, c.(phase := Done(o))) == Held(app, c);
  }

  lemma CleanAdopt(app: App, s: System, x: nat)
    requires CleanInv(app, s) && CanStep(app, s, Adopt(x))
    ensures CleanInv(app, Step(app, s, Adopt(x)))
  {
    var c := s.execs[x];
    DoneIsQuiet(app, s.t, c, s.Log(c.wf), s.stored[c.wf]);
    CleanQuiet(app, s, Step(app, s, Adopt(x)));
  }

  lemma FreshIsSynced(app: App, wf: WfId, preset: bool, log: seq<Entry>)
    ensures
      var c := Ctx(wf, preset, [], map[], Ready);
      Orderly(app, c) && AllPossible(c.hist) && Synced(app, c, log)
  {
    var c := Ctx(wf, preset, [], map[], Ready);
    assert Held(app, c) == [];
    assert if log == [] then Leading(app, c, log) else Replaying(c, log);
  }

  lemma CleanStart(app: App, s: System, x: nat, wf: WfId, preset: bool)
    requires CleanInv(app, s) && x !in s.execs
    ensures CleanInv(app, Step(app, s, Start(x, wf, preset)))
  {
    FreshIsSynced(app, wf, preset, s.Log(wf));
    CleanQuiet(app, s, Step(app, s, Start(x, wf, preset)));
  }

  lemma CleanStep(app: App, s: System, l: Label)
    requires CleanInv(app, s) && !Lossy(app, s, l)
    ensures CleanInv(app, Step(app, s, l))
  {
    if CanStep(app, s, l) {
      match l
      case Start(x, wf, preset) => CleanStart(app, s, x, wf, preset);
      case Do(x, m) => CleanDo(app, s, x, m);
      case Crash(x) => CleanQuiet(app, s, Step(app, s, l));
      case Publish(x) => CleanQuiet(app, s, Step(app, s, l));
      case Adopt(x) => CleanAdopt(app, s, x);
    }
  }

  /** In every clean run the tables hold, for each workflow, exactly the rows of one history of its program, beside
      the ends of waits of that history and of its next operation; and every live execution is replaying that history,
      or leading it with everything it has beyond it in its buffer, or has been overtaken and can never write again. */
  lemma {:induction false} CleanRunsStayExact(app: App, db: Db, ls: seq<Label>)
    requires CleanRun(app, db, ls)
    ensures CleanInv(app, Run(app, db, ls))
  {
    if ls != [] {
      var n := |ls| - 1;
      var s := Run(app, db, ls[..n]);
      assert CleanInv(app, s) by {
        CleanPrefix(app, db, ls, n);
        CleanRunsStayExact(app, db, ls[..n]);
      }
      CleanStep(app, s, ls[n]);
    }
  }
}
