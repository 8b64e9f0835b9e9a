/** Where the guarantees stop: exactly when a commit failure or an unflushed operation loses a read, exactly when a
    read that throws cannot be recorded, what a recorded transaction error does to replay, and runs that show the
    damage. */
module Limits {
  import opened Workflows
  import opened DurableSteps
  import opened DurableRuns
  import opened CleanRuns
  import opened CrashFree
  import opened Agreement

  // ---- losing a read --------------------------------------------------------------------------------

  /** A leading execution completes an operation and records nothing else: its history is durable if and only if
      nothing was buffered. */
  lemma DurableIffNothingBuffered(app: App, t: Tables, t': Tables, c: Ctx, log: seq<Entry>, e: Entry)
    requires InStep(app, t, c, log) && Leading(app, c, log) && FullyDurable(t, c.wf, log)
    requires e.id == c.Id() && c.Id() !in c.buffer
    requires OlderRowsStay(t, t', c)
    requires FullyDurable(t', c.wf, [e])
    ensures FullyDurable(t', c.wf, c.hist + [e]) <==> c.buffer == map[]
  {
    var n := |log|;
    var h := c.hist + [e];
    forall i | 0 <= i < |c.hist| ensures c.hist[i].id < c.Id() {
      IdsIncrease(app, c.wf, c.hist, i);
    }
    if c.buffer == map[] {
      NothingBuffered(app, c, log);
      forall i | 0 <= i < |h| ensures h[i] == if i < n then log[i] else [e][0] {}
    } else {
      LeadingNext(app, t, c, log);
      TailCounts(c.hist, n, c.buffer);
      assert SameRow(t.tx, t'.tx, Key(c.wf, c.hist[n].id));
      assert h[n] == c.hist[n];
    }
  }

  /** The rows of earlier operations are as they were. */
  ghost predicate OlderRowsStay(t: Tables, t': Tables, c: Ctx) {
    forall id: nat :: id < c.Id() ==>
      SameRow(t.tx, t'.tx, Key(c.wf, id)) && SameRow(t.ops, t'.ops, Key(c.wf, id))
  }

  ghost predicate SameRow<R>(table: map<Key, R>, table': map<Key, R>, k: Key) {
    (k in table <==> k in table') && (k in table && k in table' ==> table[k] == table'[k])
  }

  /** In a clean run, an execution whose next operation has no row and that has not been overtaken is leading. */
  lemma FreshIsLeading(app: App, s: System, x: nat)
    requires CleanInv(app, s) && x in s.execs && !Overtaken(s.t, s.execs[x])
    requires
      var c := s.execs[x];
      var a := NextAction(app, c.wf, c.hist);
      (a.Transactional() ==> c.MyKey() !in s.t.tx) && (!a.Transactional() ==> c.MyKey() !in s.t.ops)
    ensures
      var c := s.execs[x];
      var log := s.Log(c.wf);
      InStep(app, s.t, c, log) && Leading(app, c, log) && FullyDurable(s.t, c.wf, log)
  {
    var c := s.execs[x];
    var log := s.Log(c.wf);
    LogsAreFullyDurable(app, s, c.wf);
    assert LogExact(app, s.t, c.wf, log);
    if Replaying(c, log) { ReplayingNext(app, s.t, c, log); }
  }

  /** The failed COMMIT of a writing transaction, and its retry. */
  function Retried(app: App, s: System, x: nat): System {
    Step(app, Step(app, Step(app, s, Do(x, RunTx(CommitFailure))), Do(x, CheckTx)), Do(x, RunTx(Success)))
  }

  lemma RetryWrites(app: App, t: Tables, c: Ctx)
    requires ReachesCommit(app, t, c)
    ensures
      var a := NextAction(app, c.wf, c.hist);
      var c1 := c.(buffer := map[], phase := Ready);
      var e := Entry(c.Id(), a, Ok(app.run(a.code, t.db).value));
      var (t', d) := RunTxStep(app, t, c1.(phase := Checked), Success);
      && RunTxStep(app, t, c, CommitFailure) == (t, c1) && CheckTxStep(app, t, c1) == c1.(phase := Checked)
      && t'.tx == t.tx[c.MyKey() := RowOf(e)] && t'.ops == t.ops && d.hist == c.hist + [e] && d.wf == c.wf
  {
    WriteAlone(app, t, c.(buffer := map[], phase := Checked));
  }

  lemma RetriedIs(app: App, s: System, x: nat)
    requires CanStep(app, s, Do(x, RunTx(CommitFailure))) && ReachesCommit(app, s.t, s.execs[x])
    ensures
      var c := s.execs[x];
      var (t', d) := RunTxStep(app, s.t, c.(buffer := map[], phase := Checked), Success);
      Retried(app, s, x).t == t' && x in Retried(app, s, x).execs && Retried(app, s, x).execs[x] == d
  {
    var c := s.execs[x];
    RetryWrites(app, s.t, c);
    var s1 := Step(app, s, Do(x, RunTx(CommitFailure)));
    assert s1.t == s.t && s1.execs[x] == c.(buffer := map[], phase := Ready);
    var s2 := Step(app, s1, Do(x, CheckTx));
    assert s2.t == s.t && s2.execs[x] == c.(buffer := map[], phase := Checked);
  }

  lemma RetryIsDurable(app: App, t: Tables, c: Ctx, log: seq<Entry>)
    requires InStep(app, t, c, log) && Leading(app, c, log) && FullyDurable(t, c.wf, log) && ReachesCommit(app, t, c)
    ensures
      var (t', d) := RunTxStep(app, t, c.(buffer := map[], phase := Checked), Success);
      |d.hist| == |c.hist| + 1 && (FullyDurable(t', c.wf, d.hist) <==> c.buffer == map[])
  {
    var a := NextAction(app, c.wf, c.hist);
    var e := Entry(c.Id(), a, Ok(app.run(a.code, t.db).value));
    var t' := RunTxStep(app, t, c.(buffer := map[], phase := Checked), Success).0;
    RetryWrites(app, t, c);
    assert OlderRowsStay(t, t', c);
    assert FullyDurable(t', c.wf, [e]);
    DurableIffNothingBuffered(app, t, t', c, log, e);
  }

  /** In a clean run, a COMMIT that fails after the buffer was cleared does no harm if and only if the buffer was
      empty: then, and only then, the retry leaves everything the execution has done in the tables. */
  lemma {:induction false} CommitFailureIsHarmlessIffNothingBuffered(app: App, db: Db, ls: seq<Label>, x: nat)
    requires
      var s := Run(app, db, ls);
      && CleanRun(app, db, ls) && CanStep(app, s, Do(x, RunTx(CommitFailure))) && ReachesCommit(app, s.t, s.execs[x])
    ensures
      var s := Run(app, db, ls);
      var r := Retried(app, s, x);
      && x in r.execs && |r.execs[x].hist| == |s.execs[x].hist| + 1
      && (FullyDurable(r.t, s.execs[x].wf, r.execs[x].hist) <==> s.execs[x].buffer == map[])
  {
    var s := Run(app, db, ls);
    assert CleanInv(app, s) by { CleanRunsStayExact(app, db, ls); }
    FreshIsLeading(app, s, x);
    RetryIsDurable(app, s.t, s.execs[x], s.Log(s.execs[x].wf));
    RetriedIs(app, s, x);
  }

  lemma RecordIsDurable(app: App, t: Tables, c: Ctx, log: seq<Entry>, o: Outcome)
    requires InStep(app, t, c, log) && Leading(app, c, log) && FullyDurable(t, c.wf, log)
    requires Enabled(app, c, RecordOp(o)) && c.MyKey() !in t.ops
    ensures
      var (t', d) := RecordOpStep(app, t, c, o);
      |d.hist| == |c.hist| + 1 && (FullyDurable(t', c.wf, d.hist) <==> c.buffer == map[])
  {
    var a := NextAction(app, c.wf, c.hist);
    var e := Entry(c.Id(), a, Yields(t.ex, c.wf, a, o));
    var t' := RecordOpStep(app, t, c, o).0;
    HeldIsHistory(app, c);
    assert OlderRowsStay(t, t', c);
    assert FullyDurable(t', c.wf, [e]);
    DurableIffNothingBuffered(app, t, t', c, log, e);
  }

  /** In a clean run, `getEvent`, `getStatus` and `sleep`, which do not flush, do no harm when they record themselves
      if and only if nothing is buffered: then, and only then, everything the execution has done is in the tables. */
  lemma {:induction false} UnflushedRecordIsHarmlessIffNothingBuffered(app: App, db: Db, ls: seq<Label>, x: nat,
                                                                       o: Outcome)
    requires
      var s := Run(app, db, ls);
      && CleanRun(app, db, ls) && CanStep(app, s, Do(x, RecordOp(o)))
      && !NextAction(app, s.execs[x].wf, s.execs[x].hist).FlushesFirst()
      && s.execs[x].MyKey() !in s.t.ops && !Overtaken(s.t, s.execs[x])
    ensures
      var s := Run(app, db, ls);
      var r := Step(app, s, Do(x, RecordOp(o)));
      && |r.execs[x].hist| == |s.execs[x].hist| + 1
      && (FullyDurable(r.t, s.execs[x].wf, r.execs[x].hist) <==> s.execs[x].buffer == map[])
  {
    var s := Run(app, db, ls);
    assert CleanInv(app, s) by { CleanRunsStayExact(app, db, ls); }
    FreshIsLeading(app, s, x);
    RecordIsDurable(app, s.t, s.execs[x], s.Log(s.execs[x].wf), o);
  }

  lemma WaitIsDurable(app: App, t: Tables, c: Ctx, log: seq<Entry>, until: Value)
    requires InStep(app, t, c, log) && Synced(app, c, log) && FullyDurable(t, c.wf, log)
    requires Enabled(app, c, StartWait(until)) && c.WaitKey() !in t.ops
    ensures FullyDurable(StartWaitStep(t, c, until), c.wf, c.hist) <==> c.buffer == map[]
  {
    var t' := StartWaitStep(t, c, until);
    forall i | 0 <= i < |c.hist| ensures c.hist[i].id < c.Id() {
      IdsIncrease(app, c.wf, c.hist, i);
    }
    if Replaying(c, log) {
      forall i | 0 <= i < |c.hist| ensures c.hist[i] == log[i] {}
    } else if c.buffer == map[] {
      NothingBuffered(app, c, log);
    } else {
      HeldIsHistory(app, c);
      LeadingNext(app, t, c, log);
      TailCounts(c.hist, |log|, c.buffer);
    }
  }

  /** In a clean run, a `getEvent` that records the end of its wait, before it has read anything and without a flush,
      does no harm if and only if nothing is buffered: then, and only then, everything the execution has done is in the
      tables with that row. */
  lemma {:induction false} UnflushedWaitIsHarmlessIffNothingBuffered(app: App, db: Db, ls: seq<Label>, x: nat,
                                                                     until: Value)
    requires
      var s := Run(app, db, ls);
      && CleanRun(app, db, ls) && CanStep(app, s, Do(x, StartWait(until)))
      && s.execs[x].WaitKey() !in s.t.ops && !Overtaken(s.t, s.execs[x])
    ensures
      var s := Run(app, db, ls);
      var r := Step(app, s, Do(x, StartWait(until)));
      && s.execs[x].WaitKey() in r.t.ops && r.execs[x] == s.execs[x]
      && (FullyDurable(r.t, s.execs[x].wf, s.execs[x].hist) <==> s.execs[x].buffer == map[])
  {
    var s := Run(app, db, ls);
    var c := s.execs[x];
    assert CleanInv(app, s) by { CleanRunsStayExact(app, db, ls); }
    LogsAreFullyDurable(app, s, c.wf);
    assert LogExact(app, s.t, c.wf, s.Log(c.wf));
    WaitIsDurable(app, s.t, c, s.Log(c.wf), until);
  }

  // ---- a read that throws after its COMMIT has failed -----------------------------------------------

  /** After `m` steps the execution is at the operation that follows `h`. */
  predicate At(app: App, db: Db, ls: seq<Label>, x: nat, m: nat, h: seq<Entry>)
    requires m <= |ls|
  {
    x in Run(app, db, ls[..m]).execs && Run(app, db, ls[..m]).execs[x].hist == h
  }

  /** At step `n` the body of a read-only transaction yielded an output, and its COMMIT failed. */
  predicate FailsAt(app: App, db: Db, ls: seq<Label>, x: nat, n: nat)
    requires n < |ls|
  {
    var s := Run(app, db, ls[..n]);
    ls[n] == Do(x, RunTx(CommitFailure)) && CanStep(app, s, ls[n]) && Reads(app, s.t, s.execs[x], ls[n].move)
  }

  /** From step `n` on the execution is at the operation that follows `h`. */
  ghost predicate AtSince(app: App, db: Db, ls: seq<Label>, x: nat, n: nat, h: seq<Entry>) {
    forall m: nat :: n <= m <= |ls| ==> At(app, db, ls, x, m, h)
  }

  /** The COMMIT of an attempt at that operation has failed. */
  ghost predicate CommitFailed(app: App, db: Db, ls: seq<Label>, x: nat, h: seq<Entry>) {
    exists n: nat :: n < |ls| && FailsAt(app, db, ls, x, n) && AtSince(app, db, ls, x, n, h)
  }

  lemma SamePast(app: App, db: Db, p: seq<Label>, l: Label, x: nat, n: nat, h: seq<Entry>)
    requires n <= |p|
    ensures At(app, db, p + [l], x, n, h) <==> At(app, db, p, x, n, h)
    ensures n < |p| ==> (FailsAt(app, db, p + [l], x, n) <==> FailsAt(app, db, p, x, n))
  {
    assert (p + [l])[..n] == p[..n];
  }

  lemma SameSince(app: App, db: Db, p: seq<Label>, l: Label, x: nat, n: nat, h: seq<Entry>)
    requires n <= |p|
    ensures AtSince(app, db, p + [l], x, n, h) <==> AtSince(app, db, p, x, n, h) && At(app, db, p + [l], x, |p| + 1, h)
  {
    forall m: nat | m <= |p| ensures At(app, db, p + [l], x, m, h) <==> At(app, db, p, x, m, h) {
      SamePast(app, db, p, l, x, m, h);
    }
  }

  /** A step that leaves the execution at its operation makes no earlier failure undone, and adds at most its own. */
  lemma FailuresStay(app: App, db: Db, p: seq<Label>, l: Label, x: nat, h: seq<Entry>)
    requires At(app, db, p, x, |p|, h) && At(app, db, p + [l], x, |p| + 1, h)
    ensures CommitFailed(app, db, p + [l], x, h) <==>
            CommitFailed(app, db, p, x, h) || FailsAt(app, db, p + [l], x, |p|)
  {
    forall n: nat | n < |p|
      ensures FailsAt(app, db, p + [l], x, n) <==> FailsAt(app, db, p, x, n)
      ensures AtSince(app, db, p + [l], x, n, h) <==> AtSince(app, db, p, x, n, h)
    {
      SamePast(app, db, p, l, x, n, h);
      SameSince(app, db, p, l, x, n, h);
    }
    SameSince(app, db, p, l, x, |p|, h);
    assert AtSince(app, db, p, x, |p|, h);
  }

  /** A step after which the execution is at another operation, or new, leaves no failure. */
  lemma FailuresEnd(app: App, db: Db, p: seq<Label>, l: Label, x: nat, h: seq<Entry>)
    requires !At(app, db, p, x, |p|, h)
    ensures !CommitFailed(app, db, p + [l], x, h)
  {
    SamePast(app, db, p, l, x, |p|, h);
    assert !At(app, db, p + [l], x, |p|, h);
  }

  /** What a move does to the output of a read that is being retried. */
  lemma RetriedMove(app: App, t: Tables, c: Ctx, m: Move)
    requires Enabled(app, c, m) && Orderly(app, c) && !c.phase.Done?
    ensures
      var d := Perform(app, t, c, m).1;
      d.Id() in d.buffer <==> d.hist == c.hist && (c.Id() in c.buffer || Reads(app, t, c, m))
  {
    var d := Perform(app, t, c, m).1;
    if d.hist != c.hist {
      MoveAppends(app, t, c, m);
      MoveBuffers(app, t, c, m);
    } else if NextAction(app, c.wf, c.hist).Read? && m.RunTx? {
      ReadOutcome(app, t, c, m.fate);
    } else {
      OthersKeepRetried(app, t, c, m);
    }
  }

  lemma OthersKeepRetried(app: App, t: Tables, c: Ctx, m: Move)
    requires Enabled(app, c, m) && Orderly(app, c) && !c.phase.Done? && Perform(app, t, c, m).1.hist == c.hist
    requires !(NextAction(app, c.wf, c.hist).Read? && m.RunTx?)
    ensures c.Id() in Perform(app, t, c, m).1.buffer <==> c.Id() in c.buffer
  {
    match m
    case RunTx(f) => assert c.Id() !in c.buffer;
    case Flush => assert c.Id() !in c.buffer;
    case _ =>
  }

  /** In every run, an execution has the output of the read it is at in its buffer if and only if the COMMIT of an
      attempt at it has failed. */
  lemma {:induction false} BufferedIffCommitFailed(app: App, db: Db, ls: seq<Label>, x: nat)
    requires x in Run(app, db, ls).execs && !Run(app, db, ls).execs[x].phase.Done?
    ensures
      var c := Run(app, db, ls).execs[x];
      c.Id() in c.buffer <==> CommitFailed(app, db, ls, x, c.hist)
  {
    var p, l := ls[..|ls| - 1], ls[|ls| - 1];
    var s, h := Run(app, db, p), Run(app, db, ls).execs[x].hist;
    assert ls == p + [l] && p[..|p|] == p && ls[..|ls|] == ls && ls[..|p|] == p;
    if x in s.execs {
      BufferedIffCommitFailed(app, db, p, x);
      assert Orderly(app, s.execs[x]) by { HistoriesFollowPrograms(app, db, p); }
    }
    if At(app, db, p, x, |p|, h) { FailuresStay(app, db, p, l, x, h); } else { FailuresEnd(app, db, p, l, x, h); }
    RetriedInStep(app, s, l, x);
  }

  /** One step, and the output of the read an execution is at. */
  lemma RetriedInStep(app: App, s: System, l: Label, x: nat)
    requires x in Step(app, s, l).execs && !Step(app, s, l).execs[x].phase.Done?
    requires x in s.execs ==> Orderly(app, s.execs[x])
    ensures x in s.execs ==> !s.execs[x].phase.Done?
    ensures
      var d := Step(app, s, l).execs[x];
      d.Id() in d.buffer <==>
        && x in s.execs && d.hist == s.execs[x].hist
        && (|| s.execs[x].Id() in s.execs[x].buffer
            || (l == Do(x, RunTx(CommitFailure)) && CanStep(app, s, l) && Reads(app, s.t, s.execs[x], l.move)))
  {
    if x in s.execs && l.Do? && l.x == x && CanStep(app, s, l) {
      RetriedMove(app, s.t, s.execs[x], l.move);
      if Reads(app, s.t, s.execs[x], l.move) { ReadOutcome(app, s.t, s.execs[x], l.move.fate); }
    }
  }

  /** A THROWN RETRY: in every run, when the body of a read-only transaction has thrown and no other execution has
      recorded that read or overtaken this one, its error is taken for the conflict of a concurrent execution if and
      only if the COMMIT of an earlier attempt had failed after the body yielded an output. */
  lemma ThrownReadConflictsIffCommitFailed(app: App, db: Db, ls: seq<Label>, x: nat)
    requires
      var s := Run(app, db, ls);
      && x in s.execs && Enabled(app, s.execs[x], RecordError)
      && s.execs[x].MyKey() !in s.t.tx && !Clashes(s.t, s.execs[x])
    ensures
      var s := Run(app, db, ls);
      RecordErrorStep(app, s.t, s.execs[x]).1.phase.Conflict? <==> CommitFailed(app, db, ls, x, s.execs[x].hist)
  {
    BufferedIffCommitFailed(app, db, ls, x);
  }

  // ---- replaying a recorded transaction error ---------------------------------------------------

  function RunFrom(app: App, s: System, ls: seq<Label>): System {
    if ls == [] then s else Step(app, RunFrom(app, s, ls[..|ls| - 1]), ls[|ls| - 1])
  }

  /** A replaying execution stands at a transaction whose recorded outcome is an error. */
  predicate AtRecordedError(app: App, s: System, x: nat, h: seq<Entry>) {
    && x in s.execs
    && var c := s.execs[x];
       && c.hist == h && c.preset && NextAction(app, c.wf, c.hist).Transactional()
       && c.MyKey() in s.t.tx && s.t.tx[c.MyKey()].outcome.Err?
       && !c.phase.Checked? && !c.phase.Flushed?
  }

  lemma StaysAtRecordedError(app: App, s: System, x: nat, h: seq<Entry>, l: Label)
    requires AtRecordedError(app, s, x, h) && l != Crash(x)
    ensures AtRecordedError(app, Step(app, s, l), x, h)
  {
    if CanStep(app, s, l) && l.Do? {
      MoveGrows(app, s.t, s.execs[l.x], l.move);
      if l.x == x {
        MoveAtRecordedError(app, s.t, s.execs[x], l.move);
      }
    }
  }

  lemma MoveAtRecordedError(app: App, t: Tables, c: Ctx, m: Move)
    requires Enabled(app, c, m) && c.preset && NextAction(app, c.wf, c.hist).Transactional()
    requires c.MyKey() in t.tx && t.tx[c.MyKey()].outcome.Err? && !c.phase.Checked? && !c.phase.Flushed?
    ensures
      var d := Perform(app, t, c, m).1;
      d.hist == c.hist && d.wf == c.wf && d.preset && !d.phase.Checked? && !d.phase.Flushed?
  {
  }

  /** So a workflow that survived a failed transaction can never be replayed past it: whatever else
      happens, the execution stays there until it crashes or takes over a stored outcome. */
  lemma {:induction false} NoReplayPastARecordedError(app: App, s: System, x: nat, h: seq<Entry>, ls: seq<Label>)
    requires AtRecordedError(app, s, x, h) && Crash(x) !in ls
    ensures AtRecordedError(app, RunFrom(app, s, ls), x, h)
  {
    if ls != [] {
      var n := |ls| - 1;
      NoReplayPastARecordedError(app, s, x, h, ls[..n]);
      StaysAtRecordedError(app, RunFrom(app, s, ls[..n]), x, h, ls[n]);
    }
  }

  /** Whatever happens, short of its crash, the execution gets past its operation. */
  ghost predicate Passes(app: App, s: System, x: nat, ls: seq<Label>) {
    && x in s.execs && Crash(x) !in ls
    && x in RunFrom(app, s, ls).execs && |RunFrom(app, s, ls).execs[x].hist| > |s.execs[x].hist|
  }

  /** REPLAY OF A TRANSACTION: an execution that comes to a transaction which is recorded can get past it if and only if
      the row is an output; at a recorded error it goes down the path of a failing body, and stays. */
  lemma {:induction false} ReplayPassesIffOutput(app: App, s: System, x: nat)
    requires x in s.execs && s.execs[x].phase.Ready? && s.execs[x].preset
    requires NextAction(app, s.execs[x].wf, s.execs[x].hist).Transactional() && s.execs[x].MyKey() in s.t.tx
    ensures (exists ls :: Passes(app, s, x, ls)) <==> s.t.tx[s.execs[x].MyKey()].outcome.Ok?
  {
    var c := s.execs[x];
    if s.t.tx[c.MyKey()].outcome.Ok? {
      var ls := [Do(x, CheckTx)];
      assert ls[..0] == [] && RunFrom(app, s, ls) == Step(app, s, Do(x, CheckTx));
      assert Passes(app, s, x, ls);
    } else {
      forall ls ensures !Passes(app, s, x, ls) {
        if Crash(x) !in ls { NoReplayPastARecordedError(app, s, x, c.hist, ls); }
      }
    }
  }

  // ---- a workflow that throws -----------------------------------------------------------------------

  /** An execution that has thrown hands nothing to the background flush: whatever happens, short of a crash, the reads
      it has left in its buffer stay there. */
  lemma {:induction false} ThrownKeepsItsReads(app: App, s: System, x: nat, ls: seq<Label>)
    requires x in s.execs && s.execs[x].phase.Done? && s.execs[x].phase.outcome.Err? && Crash(x) !in ls
    ensures x in RunFrom(app, s, ls).execs && RunFrom(app, s, ls).execs[x] == s.execs[x]
  {
    if ls != [] {
      var n := |ls| - 1;
      ThrownKeepsItsReads(app, s, x, ls[..n]);
      assert ls[n] in ls;
    }
  }

  // ---- runs that lose a read --------------------------------------------------------------------

  const A: WfId := "a"
  const B: WfId := "bb"
  const W: WfId := "www"
  const C: WfId := "cccc"
  const D: WfId := "ddddd"
  const E: WfId := "eeeeee"
  const OLD: Value := ""
  const NEW: Value := "new"

  /** Workflow `A` reads `x` and then writes it; `B` reads `x` and then waits for an event or calls two external steps,
      depending on what it read; `W` just writes `x`; `C` reads `x`, and throws if it has been written; `D` returns the
      `x` it has read; `E` goes on after a transaction that throws. */
  function DemoNext(wf: WfId, os: seq<Outcome>): Action {
    if |os| == 0 then
      (if |wf| == 3 then Write(0) else if |wf| == 4 then Read(1) else if |wf| == 6 then Write(1) else Read(0))
    else if |os| == 1 && |wf| == 1 then Write(0)
    else if |os| == 1 && |wf| == 2 then (if os[0] == Ok(OLD) then GetEvent(W, "k") else External(0))
    else if |os| == 2 && |wf| == 2 then External(1)
    else if |os| == 1 && |wf| == 5 && os[0].Ok? then Return(os[0].value)
    else Return(UNIT)
  }

  function DemoRun(code: int, db: Db): TxResult {
    if code == 1 then Abort("failed") else Commit(db["x" := NEW], UNIT)
  }

  function DemoView(code: int, db: Db): Outcome {
    if code == 1 && "x" in db then Err("gone") else Ok(if "x" in db then db["x"] else OLD)
  }

  const DEMO: App := App(DemoNext, DemoRun, DemoView)

  function HistoryOf(v: Value): seq<Entry> { [Entry(0, Read(0), Ok(v))] }

  /** An execution that has read `v` and done nothing else. */
  function ReadBy(wf: WfId, v: Value): Ctx { Ctx(wf, true, HistoryOf(v), map[0 := v], Ready) }

  lemma DemoActions(v: Value)
    ensures NextId(HistoryOf(v)) == 1 && NextAction(DEMO, A, HistoryOf(v)) == Write(0)
    ensures NextAction(DEMO, B, HistoryOf(v)) == if v == OLD then GetEvent(W, "k") else External(0)
    ensures NextAction(DEMO, A, []) == NextAction(DEMO, B, []) == Read(0) && NextAction(DEMO, W, []) == Write(0)
  {
  }

  lemma RunSnoc(app: App, db: Db, ls: seq<Label>, l: Label)
    ensures Run(app, db, ls + [l]) == Step(app, Run(app, db, ls), l)
  {
    assert (ls + [l])[..|ls|] == ls;
  }

  /** One move of one execution, appended to a run. */
  lemma Advance(s: System, ls: seq<Label>, x: nat, m: Move) returns (s': System, ls': seq<Label>)
    requires s == Run(DEMO, map[], ls) && x in s.execs && Enabled(DEMO, s.execs[x], m)
    ensures ls' == ls + [Do(x, m)] && s' == Run(DEMO, map[], ls')
    ensures s'.t == Perform(DEMO, s.t, s.execs[x], m).0 && s'.stored == s.stored
    ensures s'.execs == s.execs[x := Perform(DEMO, s.t, s.execs[x], m).1]
  {
    RunSnoc(DEMO, map[], ls, Do(x, m));
    ls' := ls + [Do(x, m)];
    s' := Run(DEMO, map[], ls');
  }

  lemma Launch(s: System, ls: seq<Label>, x: nat, wf: WfId) returns (s': System, ls': seq<Label>)
    requires s == Run(DEMO, map[], ls) && x !in s.execs
    ensures ls' == ls + [Start(x, wf, true)] && s' == Run(DEMO, map[], ls')
    ensures s'.t == s.t && s'.stored == s.stored && s'.execs == s.execs[x := Ctx(wf, true, [], map[], Ready)]
  {
    RunSnoc(DEMO, map[], ls, Start(x, wf, true));
    ls' := ls + [Start(x, wf, true)];
    s' := Run(DEMO, map[], ls');
  }

  lemma Kill(s: System, ls: seq<Label>, x: nat) returns (s': System, ls': seq<Label>)
    requires s == Run(DEMO, map[], ls) && x in s.execs
    ensures ls' == ls + [Crash(x)] && s' == Run(DEMO, map[], ls')
    ensures s'.t == s.t && s'.execs == s.execs - {x}
  {
    RunSnoc(DEMO, map[], ls, Crash(x));
    ls' := ls + [Crash(x)];
    s' := Run(DEMO, map[], ls');
  }

  /** The run so far has recorded no operation but the wait for the event. */
  ghost predicate OnlyEventRecorded(ls: seq<Label>) {
    forall l :: l in ls && l.Do? && l.move.RecordOp? ==> l == Do(0, RecordOp(Ok(NULL)))
  }

  /** Nothing in the run loses a read: no COMMIT has failed, and no operation has recorded itself or a wait. */
  ghost predicate Harmless(ls: seq<Label>) {
    forall l :: l in ls && l.Do? ==> l.move != RunTx(CommitFailure) && !l.move.RecordOp? && !l.move.StartWait?
  }

  lemma HarmlessIsClean(app: App, db: Db, ls: seq<Label>)
    requires Harmless(ls)
    ensures CleanRun(app, db, ls)
  {
    assert forall i :: 0 <= i < |ls| ==> ls[i] in ls;
  }

  /** A longer run, as harmless as it was. */
  ghost predicate Longer(ls: seq<Label>, ls': seq<Label>) {
    && ls <= ls'
    && (Harmless(ls) ==> Harmless(ls'))
    && (OnlyEventRecorded(ls) ==> OnlyEventRecorded(ls'))
  }

  predicate ReadsFirst(wf: WfId) { wf == A || wf == B || wf == D }

  /** The two moves of a first read. */
  lemma FirstRead(t: Tables, wf: WfId)
    requires ReadsFirst(wf) && Key(wf, 0) !in t.tx
    ensures
      var c := Ctx(wf, true, [], map[], Ready);
      var d := c.(phase := Checked);
      && Enabled(DEMO, c, CheckTx) && CheckTxStep(DEMO, t, c) == d
      && Enabled(DEMO, d, RunTx(Success))
      && RunTxStep(DEMO, t, d, Success) == (t, ReadBy(wf, DemoView(0, t.db).value))
  {
    var c := Ctx(wf, true, [], map[], Ready);
    assert NextAction(DEMO, wf, []) == Read(0) && c.Id() == 0;
    assert [] + [Entry(0, Read(0), DemoView(0, t.db))] == HistoryOf(DemoView(0, t.db).value);
  }

  /** A fresh execution reads and buffers what it has read. */
  lemma DemoRead(s: System, ls: seq<Label>, x: nat, wf: WfId) returns (s': System, ls': seq<Label>)
    requires s == Run(DEMO, map[], ls)
    requires x !in s.execs && ReadsFirst(wf) && Key(wf, 0) !in s.t.tx
    ensures s' == Run(DEMO, map[], ls') && s'.t == s.t
    ensures s'.execs == s.execs[x := ReadBy(wf, DemoView(0, s.t.db).value)]
    ensures Longer(ls, ls')
  {
    FirstRead(s.t, wf);
    s', ls' := Launch(s, ls, x, wf);
    s', ls' := Advance(s', ls', x, CheckTx);
    s', ls' := Advance(s', ls', x, RunTx(Success));
  }

  /** A failed COMMIT of the second operation of `A`: only the buffer is gone. */
  lemma SecondOfAFails(t: Tables, c: Ctx, v: Value)
    requires c == ReadBy(A, v).(phase := Checked) && t.tx == map[]
    ensures RunTxStep(DEMO, t, c, CommitFailure) == (t, c.(buffer := map[], phase := Ready))
  {
    DemoActions(v);
    assert !Clashes(t, c);
  }

  /** A writing transaction with nothing buffered adds its own row and nothing else. */
  lemma WriteAlone(app: App, t: Tables, c: Ctx)
    requires c.buffer == map[] && ReachesCommit(app, t, c)
    ensures
      var a := NextAction(app, c.wf, c.hist);
      var r := app.run(a.code, t.db);
      var (t', d) := RunTxStep(app, t, c, Success);
      && t'.tx == t.tx[c.MyKey() := TxRow(Ok(r.value), true)] && t'.ops == t.ops && t'.db == r.db
      && d == c.Append(a, Ok(r.value))
  {
    NoRows(c);
    PlusNothing(t.tx, BufferRows(c));
  }

  lemma PlusNothing<K, V>(m: map<K, V>, n: map<K, V>)
    requires n == map[]
    ensures m + n == m
  {
  }

  lemma NoRows(c: Ctx)
    requires c.buffer == map[]
    ensures BufferRows(c) == map[]
  {
  }

  lemma DemoAttempt(s: System, ls: seq<Label>, v: Value, fate: Fate) returns (s': System, ls': seq<Label>)
    requires s == Run(DEMO, map[], ls)
    requires 0 in s.execs && s.execs[0] == ReadBy(A, v).(buffer := s.execs[0].buffer)
    requires s.t.tx == map[] && 1 !in s.execs[0].buffer && !fate.SerializationFailure?
    ensures s' == Run(DEMO, map[], ls')
    ensures
      var (t', d) := RunTxStep(DEMO, s.t, s.execs[0].(phase := Checked), fate);
      s'.t == t' && s'.execs == s.execs[0 := d]
  {
    DemoActions(v);
    s', ls' := Advance(s, ls, 0, CheckTx);
    assert s'.execs[0] == s.execs[0].(phase := Checked);
    s', ls' := Advance(s', ls', 0, RunTx(fate));
  }

  /** A COMMIT that fails after the buffer was cleared: one execution of `A` has read the old value, its
      write is durable, and a second execution that replays this write has read the new value. */
  lemma CommitFailureLosesARead() returns (ls: seq<Label>)
    ensures
      var s := Run(DEMO, map[], ls);
      && 0 in s.execs && 1 in s.execs && s.execs[0].wf == s.execs[1].wf == A
      && s.execs[0].hist == HistoryOf(OLD) + [Entry(1, Write(0), Ok(UNIT))]
      && s.execs[1].hist == HistoryOf(NEW) + [Entry(1, Write(0), Ok(UNIT))]
      && Key(A, 1) in s.t.tx && Key(A, 0) !in s.t.tx
  {
    var s: System;
    s, ls := DemoLosesRead();
    s, ls := DemoRead(s, ls, 1, A);
    DemoActions(NEW);
    s, ls := Advance(s, ls, 1, CheckTx);
  }

  lemma DemoLosesRead() returns (s: System, ls: seq<Label>)
    ensures s == Run(DEMO, map[], ls) && s.execs.Keys == {0} && s.execs[0].wf == A
    ensures s.execs[0].hist == HistoryOf(OLD) + [Entry(1, Write(0), Ok(UNIT))]
    ensures s.t.tx == map[Key(A, 1) := TxRow(Ok(UNIT), true)] && s.t.db == map["x" := NEW]
  {
    s, ls := DemoRead(Initial(map[]), [], 0, A);
    SecondOfAFails(s.t, s.execs[0].(phase := Checked), OLD);
    s, ls := DemoAttempt(s, ls, OLD, CommitFailure);
    WriteAlone(DEMO, s.t, s.execs[0].(phase := Checked)) by { DemoActions(OLD); }
    s, ls := DemoAttempt(s, ls, OLD, Success);
    DemoActions(OLD);
  }

  /** `getEvent` records itself without flushing the read before it: after a crash the workflow reads
      another value, takes another path, and its external step returns what the wait for the event returned,
      although no external step has ever been recorded. */
  lemma UnflushedGetEventMisleadsReplay() returns (ls: seq<Label>)
    ensures
      var s := Run(DEMO, map[], ls);
      && 2 in s.execs && s.execs[2].wf == B
      && s.execs[2].hist == HistoryOf(NEW) + [Entry(1, External(0), Ok(NULL))]
    ensures OnlyEventRecorded(ls)
  {
    var s: System;
    s, ls := DemoRead(Initial(map[]), [], 0, B);
    s, ls := DemoGetsEvent(s, ls);
    s, ls := DemoCrashAndWrite(s, ls);
    s, ls := DemoRead(s, ls, 2, B);
    s, ls := DemoMisled(s, ls);
  }

  lemma DemoGetsEvent(s: System, ls: seq<Label>) returns (s': System, ls': seq<Label>)
    requires s == Run(DEMO, map[], ls) && s.execs == map[0 := ReadBy(B, OLD)] && OnlyEventRecorded(ls)
    requires s.t.tx == map[] && s.t.ops == map[] && s.t.db == map[]
    ensures s' == Run(DEMO, map[], ls') && s'.execs.Keys == {0} && OnlyEventRecorded(ls')
    ensures s'.t.tx == map[] && s'.t.db == map[] && s'.t.ops == map[Key(B, 1) := Ok(NULL)]
  {
    DemoActions(OLD);
    s', ls' := Advance(s, ls, 0, CheckOp);
    assert s'.execs[0] == ReadBy(B, OLD).(phase := Checked);
    s', ls' := Advance(s', ls', 0, RecordOp(Ok(NULL)));
  }

  const WRITER: Ctx := Ctx(W, true, [], map[], Ready)

  lemma DemoCrash(s: System, ls: seq<Label>) returns (s': System, ls': seq<Label>)
    requires s == Run(DEMO, map[], ls) && s.execs.Keys == {0} && OnlyEventRecorded(ls)
    ensures s' == Run(DEMO, map[], ls') && Longer(ls, ls')
    ensures s'.t == s.t && s'.execs == map[1 := WRITER]
  {
    s', ls' := Kill(s, ls, 0);
    assert s'.execs == map[];
    s', ls' := Launch(s', ls', 1, W);
  }

  /** What the writer's two moves do. */
  lemma WriterMoves(t: Tables)
    requires t.tx == map[]
    ensures Enabled(DEMO, WRITER, CheckTx) && CheckTxStep(DEMO, t, WRITER) == WRITER.(phase := Checked)
    ensures Enabled(DEMO, WRITER.(phase := Checked), RunTx(Success))
    ensures
      var t' := RunTxStep(DEMO, t, WRITER.(phase := Checked), Success).0;
      t'.tx == map[Key(W, 0) := TxRow(Ok(UNIT), true)] && t'.ops == t.ops && t'.db == t.db["x" := NEW]
  {
    DemoActions(OLD);
    WriteAlone(DEMO, t, WRITER.(phase := Checked));
  }

  lemma DemoCrashAndWrite(s: System, ls: seq<Label>) returns (s': System, ls': seq<Label>)
    requires s == Run(DEMO, map[], ls) && s.execs.Keys == {0} && s.t.tx == map[] && OnlyEventRecorded(ls)
    ensures s' == Run(DEMO, map[], ls') && s'.execs.Keys == {1} && Longer(ls, ls')
    ensures s'.t.tx.Keys == {Key(W, 0)} && s'.t.ops == s.t.ops && s'.t.db == s.t.db["x" := NEW]
  {
    WriterMoves(s.t);
    s', ls' := DemoCrash(s, ls);
    s', ls' := Advance(s', ls', 1, CheckTx);
    s', ls' := Advance(s', ls', 1, RunTx(Success));
  }

  const FLUSHED: Ctx := ReadBy(B, NEW).(buffer := map[], phase := Flushed)

  lemma FlushBeforeStep(t: Tables)
    requires Key(B, 0) !in t.tx
    ensures Enabled(DEMO, ReadBy(B, NEW), Flush)
    ensures Perform(DEMO, t, ReadBy(B, NEW), Flush).0.ops == t.ops
    ensures Perform(DEMO, t, ReadBy(B, NEW), Flush).1 == FLUSHED
  {
    DemoActions(NEW);
    assert !Clashes(t, ReadBy(B, NEW));
  }

  lemma StepFindsEvent(t: Tables)
    requires Key(B, 1) in t.ops && t.ops[Key(B, 1)] == Ok(NULL)
    ensures Enabled(DEMO, FLUSHED, CheckOp) && CheckOpStep(DEMO, t, FLUSHED).wf == B
    ensures CheckOpStep(DEMO, t, FLUSHED).hist == HistoryOf(NEW) + [Entry(1, External(0), Ok(NULL))]
  {
    DemoActions(NEW);
  }

  lemma DemoMisled(s: System, ls: seq<Label>) returns (s': System, ls': seq<Label>)
    requires s == Run(DEMO, map[], ls) && 2 in s.execs && s.execs[2] == ReadBy(B, NEW) && OnlyEventRecorded(ls)
    requires Key(B, 0) !in s.t.tx && s.t.ops == map[Key(B, 1) := Ok(NULL)]
    ensures s' == Run(DEMO, map[], ls') && 2 in s'.execs && s'.execs[2].wf == B && OnlyEventRecorded(ls')
    ensures s'.execs[2].hist == HistoryOf(NEW) + [Entry(1, External(0), Ok(NULL))]
  {
    var s1, ls1 := DemoFlush(s, ls);
    StepFindsEvent(s1.t);
    s', ls' := Advance(s1, ls1, 2, CheckOp);
  }

  lemma DemoFlush(s: System, ls: seq<Label>) returns (s': System, ls': seq<Label>)
    requires s == Run(DEMO, map[], ls) && 2 in s.execs && s.execs[2] == ReadBy(B, NEW) && OnlyEventRecorded(ls)
    requires Key(B, 0) !in s.t.tx
    ensures s' == Run(DEMO, map[], ls') && 2 in s'.execs && s'.execs[2] == FLUSHED && OnlyEventRecorded(ls')
    ensures s'.t.ops == s.t.ops
  {
    FlushBeforeStep(s.t);
    s', ls' := Advance(s, ls, 2, Flush);
  }

  // ---- a read left in the buffer at the end ---------------------------------------------------------

  lemma ReadByReturns(v: Value)
    ensures Enabled(DEMO, ReadBy(D, v), Finish)
    ensures FinishStep(DEMO, ReadBy(D, v)) == ReadBy(D, v).(phase := Done(Ok(v)))
  {
    assert Outcomes(HistoryOf(v)) == [Ok(v)];
  }

  lemma DemoReturns(s: System, ls: seq<Label>, x: nat) returns (s': System, ls': seq<Label>)
    requires s == Run(DEMO, map[], ls) && x !in s.execs && Key(D, 0) !in s.t.tx
    ensures s' == Run(DEMO, map[], ls') && s'.t == s.t && Longer(ls, ls')
    ensures
      var v := DemoView(0, s.t.db).value;
      s'.execs == s.execs[x := ReadBy(D, v).(phase := Done(Ok(v)))]
  {
    var v := DemoView(0, s.t.db).value;
    s', ls' := DemoRead(s, ls, x, D);
    ReadByReturns(v);
    s', ls' := Advance(s', ls', x, Finish);
  }

  /** A clean run in which two executions of `D` return different values: the first crashes before the background flush
      has written the last read, and its recovery reads again. */
  lemma TrailingReadChangesOutcome() returns (before: seq<Label>, after: seq<Label>)
    ensures CleanRun(DEMO, map[], before + after)
    ensures
      var s := Run(DEMO, map[], before);
      0 in s.execs && s.execs[0].wf == D && s.execs[0].phase == Done(Ok(OLD)) && !ReadsRecorded(s.t, s.execs[0])
    ensures
      var s := Run(DEMO, map[], before + after);
      2 in s.execs && s.execs[2].wf == D && s.execs[2].phase == Done(Ok(NEW))
  {
    var s: System;
    var ls: seq<Label>;
    s, before := DemoReturns(Initial(map[]), [], 0);
    assert !ReadsRecorded(s.t, s.execs[0]) by { assert s.execs[0].hist[0] == Entry(0, Read(0), Ok(OLD)); }
    s, ls := DemoCrashAndWrite(s, before);
    var s2, ls2 := DemoReturns(s, ls, 2);
    after := ls2[|before|..];
    assert before + after == ls2;
    HarmlessIsClean(DEMO, map[], ls2);
  }

  // ---- a read whose retry throws --------------------------------------------------------------------

  const READER: Ctx := Ctx(C, true, [], map[], Ready)
  const RETRYING: Ctx := READER.(buffer := map[0 := OLD])

  lemma ReaderMoves(t: Tables)
    requires Key(C, 0) !in t.tx && "x" !in t.db
    ensures Enabled(DEMO, READER, CheckTx) && CheckTxStep(DEMO, t, READER) == READER.(phase := Checked)
    ensures Enabled(DEMO, READER.(phase := Checked), RunTx(CommitFailure))
    ensures RunTxStep(DEMO, t, READER.(phase := Checked), CommitFailure) == (t, RETRYING)
  {
    assert NextAction(DEMO, C, []) == Read(1);
  }

  lemma ThrowerMoves(t: Tables)
    requires Key(C, 0) !in t.tx && "x" in t.db
    ensures
      var a := RETRYING.(phase := Aborting("gone"));
      && Enabled(DEMO, RETRYING, CheckTx) && CheckTxStep(DEMO, t, RETRYING) == RETRYING.(phase := Checked)
      && Enabled(DEMO, RETRYING.(phase := Checked), RunTx(Success))
      && RunTxStep(DEMO, t, RETRYING.(phase := Checked), Success) == (t, a)
      && Enabled(DEMO, a, RecordError) && RecordErrorStep(DEMO, t, a) == (t, a.(phase := Conflict))
  {
    assert NextAction(DEMO, C, []) == Read(1);
  }

  lemma DemoCommitFails() returns (s: System, ls: seq<Label>)
    ensures s == Run(DEMO, map[], ls) && s.stored == map[]
    ensures s.execs == map[0 := RETRYING] && s.t == Initial(map[]).t
  {
    s, ls := Launch(Initial(map[]), [], 0, C);
    ReaderMoves(s.t);
    s, ls := Advance(s, ls, 0, CheckTx);
    s, ls := Advance(s, ls, 0, RunTx(CommitFailure));
  }

  lemma DemoOtherWrites(s: System, ls: seq<Label>) returns (s': System, ls': seq<Label>)
    requires s == Run(DEMO, map[], ls) && s.execs == map[0 := RETRYING] && s.t == Initial(map[]).t
    ensures s' == Run(DEMO, map[], ls') && s'.stored == s.stored
    ensures s'.execs.Keys == {0, 1} && s'.execs[0] == RETRYING && s'.execs[1].wf == W
    ensures s'.t.tx.Keys == {Key(W, 0)} && "x" in s'.t.db
  {
    WriterMoves(s.t);
    s', ls' := Launch(s, ls, 1, W);
    s', ls' := Advance(s', ls', 1, CheckTx);
    MoveKeepsWorkflow(DEMO, s'.t, s'.execs[1], RunTx(Success));
    s', ls' := Advance(s', ls', 1, RunTx(Success));
  }

  /** A run in which the only execution of `C` ends in a conflict although no other execution of `C` exists or has
      recorded anything, and no outcome is stored that it could take over: its read failed at COMMIT, and the retry
      threw. */
  lemma ThrownRetryWaitsForNobody() returns (ls: seq<Label>)
    ensures
      var s := Run(DEMO, map[], ls);
      && s.execs.Keys == {0, 1} && s.execs[0].wf == C && s.execs[0].phase.Conflict? && s.execs[1].wf == W
      && s.stored == map[] && forall k :: k in s.t.tx ==> k.wf == W
  {
    var s: System;
    s, ls := DemoCommitFails();
    s, ls := DemoOtherWrites(s, ls);
    ThrowerMoves(s.t);
    s, ls := Advance(s, ls, 0, CheckTx);
    s, ls := Advance(s, ls, 0, RunTx(Success));
    s, ls := Advance(s, ls, 0, RecordError);
  }

  // ---- a wait that is recorded before the read it follows ---------------------------------------------

  const UNTIL: Value := "1"

  /** An execution of `B` that has read the old value waits for its event, and crashes. */
  lemma DemoWaits(s: System, ls: seq<Label>) returns (s': System, ls': seq<Label>)
    requires s == Run(DEMO, map[], ls) && s.execs == map[0 := ReadBy(B, OLD)]
    requires s.t.tx == map[] && s.t.ops == map[] && s.t.db == map[]
    ensures s' == Run(DEMO, map[], ls') && s'.execs.Keys == {0}
    ensures ls' == ls + [Do(0, CheckOp)] + [Do(0, StartWait(UNTIL))]
    ensures s'.t.tx == map[] && s'.t.db == map[] && s'.t.ops == map[Key(B, 2) := Ok(UNTIL)]
  {
    DemoActions(OLD);
    s', ls' := Advance(s, ls, 0, CheckOp);
    assert s'.execs[0] == ReadBy(B, OLD).(phase := Checked);
    s', ls' := Advance(s', ls', 0, StartWait(UNTIL));
  }

  /** After its first step, which really runs. */
  const STEPPED: Ctx :=
    Ctx(B, true, HistoryOf(NEW) + [Entry(1, External(0), Ok(UNIT))], map[], Ready)

  lemma FirstStep(t: Tables)
    requires Key(B, 1) !in t.ops
    ensures Enabled(DEMO, FLUSHED, CheckOp) && CheckOpStep(DEMO, t, FLUSHED) == FLUSHED.(phase := Checked)
    ensures Enabled(DEMO, FLUSHED.(phase := Checked), RecordOp(Ok(UNIT)))
    ensures
      var (t', d) := RecordOpStep(DEMO, t, FLUSHED.(phase := Checked), Ok(UNIT));
      t'.ops == t.ops[Key(B, 1) := Ok(UNIT)] && d == STEPPED
  {
    DemoActions(NEW);
  }

  lemma SecondStep(t: Tables)
    requires Key(B, 2) in t.ops && t.ops[Key(B, 2)] == Ok(UNTIL)
    ensures
      var e := STEPPED.(phase := Flushed);
      && Enabled(DEMO, STEPPED, Flush) && FlushStep(t, STEPPED).1 == e && FlushStep(t, STEPPED).0.ops == t.ops
      && Enabled(DEMO, e, CheckOp)
      && CheckOpStep(DEMO, t, e).hist == STEPPED.hist + [Entry(2, External(1), Ok(UNTIL))]
  {
    assert NextAction(DEMO, B, STEPPED.hist) == External(1) && STEPPED.Id() == 2;
  }

  lemma DemoStepsOn(s: System, ls: seq<Label>) returns (s': System, ls': seq<Label>)
    requires s == Run(DEMO, map[], ls) && 2 in s.execs && s.execs[2] == FLUSHED
    requires s.t.ops == map[Key(B, 2) := Ok(UNTIL)]
    ensures s' == Run(DEMO, map[], ls') && 2 in s'.execs
    ensures s'.execs[2].hist == STEPPED.hist + [Entry(2, External(1), Ok(UNTIL))]
    ensures s'.t.ops == map[Key(B, 2) := Ok(UNTIL), Key(B, 1) := Ok(UNIT)]
  {
    FirstStep(s.t);
    s', ls' := Advance(s, ls, 2, CheckOp);
    s', ls' := Advance(s', ls', 2, RecordOp(Ok(UNIT)));
    SecondStep(s'.t);
    s', ls' := Advance(s', ls', 2, Flush);
    SecondStep(s'.t);
    s', ls' := Advance(s', ls', 2, CheckOp);
  }

  /** `getEvent` records the end of its wait without flushing the read before it: after a crash the workflow reads
      another value and calls two steps, and the second returns the time at which the wait was to end; it has never
      run, and the `getEvent` has never recorded an outcome. */
  lemma UnflushedWaitMisleadsReplay() returns (ls: seq<Label>)
    ensures
      var s := Run(DEMO, map[], ls);
      && 2 in s.execs
      && s.execs[2].hist
         == HistoryOf(NEW) + [Entry(1, External(0), Ok(UNIT))] + [Entry(2, External(1), Ok(UNTIL))]
      && s.t.ops == map[Key(B, 2) := Ok(UNTIL), Key(B, 1) := Ok(UNIT)]
  {
    var s: System;
    s, ls := DemoRead(Initial(map[]), [], 0, B);
    s, ls := DemoWaits(s, ls);
    s, ls := DemoCrashAndWrite(s, ls);
    s, ls := DemoRead(s, ls, 2, B);
    s, ls := DemoFlush(s, ls);
    s, ls := DemoStepsOn(s, ls);
  }

  // ---- a recorded error ---------------------------------------------------------------------------------

  const FAILING: Ctx := Ctx(E, true, [], map[], Ready)
  const FAILED: Ctx := FAILING.(hist := [Entry(0, Write(1), Err("failed"))])

  lemma FailingMoves(t: Tables)
    requires t.tx == map[]
    ensures Enabled(DEMO, FAILING, CheckTx) && CheckTxStep(DEMO, t, FAILING) == FAILING.(phase := Checked)
    ensures Enabled(DEMO, FAILING.(phase := Checked), RunTx(Success))
    ensures RunTxStep(DEMO, t, FAILING.(phase := Checked), Success) == (t, FAILING.(phase := Aborting("failed")))
  {
    assert NextAction(DEMO, E, []) == Write(1) && FAILING.Id() == 0;
  }

  lemma FailureRecorded(t: Tables)
    requires t.tx == map[]
    ensures
      var a := FAILING.(phase := Aborting("failed"));
      var (t', d) := RecordErrorStep(DEMO, t, a);
      && Enabled(DEMO, a, RecordError) && d == FAILED
      && Key(E, 0) in t'.tx && t'.tx[Key(E, 0)].outcome == Err("failed")
  {
    assert NextAction(DEMO, E, []) == Write(1) && FAILING.Id() == 0;
  }

  lemma FailedFinishes(t: Tables)
    ensures Enabled(DEMO, FAILED, Finish)
    ensures Perform(DEMO, t, FAILED, Finish) == (t, FAILED.(phase := Done(Ok(UNIT))))
  {
    assert NextAction(DEMO, E, FAILED.hist) == Return(UNIT);
  }

  lemma DemoThrows() returns (s: System, ls: seq<Label>)
    ensures s == Run(DEMO, map[], ls) && s.execs == map[0 := FAILING.(phase := Aborting("failed"))] && s.t.tx == map[]
  {
    s, ls := Launch(Initial(map[]), [], 0, E);
    FailingMoves(s.t);
    s, ls := Advance(s, ls, 0, CheckTx);
    s, ls := Advance(s, ls, 0, RunTx(Success));
  }

  lemma DemoRecordsFailure() returns (s: System, ls: seq<Label>)
    ensures s == Run(DEMO, map[], ls) && s.execs == map[0 := FAILED]
    ensures Key(E, 0) in s.t.tx && s.t.tx[Key(E, 0)].outcome == Err("failed")
  {
    s, ls := DemoThrows();
    FailureRecorded(s.t);
    s, ls := Advance(s, ls, 0, RecordError);
  }

  lemma DemoGoesOn() returns (s: System, ls: seq<Label>)
    ensures s == Run(DEMO, map[], ls) && s.execs == map[0 := FAILED.(phase := Done(Ok(UNIT)))]
    ensures Key(E, 0) in s.t.tx && s.t.tx[Key(E, 0)].outcome == Err("failed")
  {
    s, ls := DemoRecordsFailure();
    FailedFinishes(s.t);
    s, ls := Advance(s, ls, 0, Finish);
  }

  /** A run that comes to a recorded error: a workflow whose transaction threw, and which returned all the same, is
      executed again, and the new execution never gets past that transaction. */
  lemma RecoveryMeetsARecordedError() returns (before: seq<Label>, ls: seq<Label>)
    ensures
      var s := Run(DEMO, map[], before);
      0 in s.execs && s.execs[0].wf == E && s.execs[0].phase == Done(Ok(UNIT))
    ensures before <= ls
    ensures
      var s := Run(DEMO, map[], ls);
      && AtRecordedError(DEMO, s, 1, []) && s.execs[1].wf == E && s.execs[1].phase.Ready?
      && forall more :: !Passes(DEMO, s, 1, more)
  {
    var s: System;
    s, before := DemoGoesOn();
    s, ls := Kill(s, before, 0);
    s, ls := Launch(s, ls, 1, E);
    assert NextAction(DEMO, E, []) == Write(1);
    ReplayPassesIffOutput(DEMO, s, 1);
  }
}
