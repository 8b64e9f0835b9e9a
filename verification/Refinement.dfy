/** Clean runs refine a crash-free machine.  That machine has no executions, buffers, conflicts or
    crashes: each workflow has one history, which its program extends operation by operation, and a
    writing transaction takes effect exactly when its operation is appended. */
module Refinement {
  import opened Workflows
  import opened DurableSteps
  import opened DurableRuns
  import opened CleanRuns
  import opened CrashFree

  datatype Ideal = Ideal(effects: seq<Effect>, logs: map<WfId, seq<Entry>>, ex: Exchange)
  {
    function Log(wf: WfId): seq<Entry> { if wf in logs then logs[wf] else [] }
  }

  function Abs(s: System): Ideal { Ideal(s.t.effects, s.log, s.t.ex) }

  /** `e` is what a body without effect yields on the database `d`: the outcome of a read-only
      transaction, or the error of a writing one that aborted. */
  predicate SeenOn(app: App, d: Db, e: Entry) {
    match e.action
    case Read(code) => app.view(code, d) == e.outcome
    case Write(code) => app.run(code, d).Abort? && e.outcome == Err(app.run(code, d).error)
    case _ => false
  }

  /** `e` was seen on some committed state of the user database. */
  ghost predicate Observed(app: App, db: Db, effects: seq<Effect>, e: Entry) {
    exists j :: 0 <= j <= |effects| && SeenOn(app, DbAfter(app, db, effects[..j]), e)
  }

  /** The crash-free machine appends `more` to the history of `wf`: outputs of read-only transactions, and last any one
      operation, whose effect on the database, the mailboxes and the events, if it has one, is the only thing that
      happens; a receive takes the oldest message, and an event read is one that was set. */
  ghost predicate IdealExtend(app: App, db: Db, a: Ideal, b: Ideal, wf: WfId, more: seq<Entry>) {
    && more != []
    && b.logs == a.logs[wf := a.Log(wf) + more]
    && Follows(app, wf, b.Log(wf))
    && (forall i :: 0 <= i < |more| - 1 ==> more[i].action.Read? && Observed(app, db, a.effects, more[i]))
    && var e := more[|more| - 1];
       && b.ex == Exchanged(a.ex, Key(wf, e.id), e.action)
       && e.outcome == Yields(a.ex, wf, e.action, e.outcome)
       && if e.action.Write? && e.outcome.Ok? then
         && app.run(e.action.code, DbAfter(app, db, a.effects)).Commit?
         && app.run(e.action.code, DbAfter(app, db, a.effects)).value == e.outcome.value
         && b.effects == a.effects + [Effect(Key(wf, e.id), e.action.code, e.outcome.value)]
       else
         && b.effects == a.effects
         && (e.action.Transactional() ==> Observed(app, db, a.effects, e))
         && Possible(e.action, e.outcome)
  }

  ghost predicate IdealStep(app: App, db: Db, a: Ideal, b: Ideal) {
    exists wf, more :: IdealExtend(app, db, a, b, wf, more)
  }

  ghost predicate IdealRun(app: App, db: Db, run: seq<Ideal>) {
    && run != [] && run[0] == Ideal([], map[], NO_EXCHANGE)
    && forall i :: 0 < i < |run| ==> IdealStep(app, db, run[i - 1], run[i])
  }

  // ---- everything buffered was seen -------------------------------------------------------------

  function Failing(app: App, c: Ctx): Entry
    requires c.phase.Aborting?
  {
    Entry(c.Id(), NextAction(app, c.wf, c.hist), Err(c.phase.error))
  }

  ghost predicate TailSeen(app: App, db: Db, effects: seq<Effect>, c: Ctx, n: nat) {
    && (forall i :: n <= i < |Held(app, c)| ==> Observed(app, db, effects, Held(app, c)[i]))
    && (c.phase.Aborting? ==> Observed(app, db, effects, Failing(app, c)))
  }

  ghost predicate SeenInv(app: App, db: Db, s: System) {
    forall x :: x in s.execs && Leading(app, s.execs[x], s.Log(s.execs[x].wf)) ==>
      TailSeen(app, db, s.t.effects, s.execs[x], |s.Log(s.execs[x].wf)|)
  }

  lemma ObservedGrows(app: App, db: Db, effects: seq<Effect>, effects': seq<Effect>, e: Entry)
    requires Observed(app, db, effects, e) && effects <= effects'
    ensures Observed(app, db, effects', e)
  {
    var j :| 0 <= j <= |effects| && SeenOn(app, DbAfter(app, db, effects[..j]), e);
    assert effects'[..j] == effects[..j];
  }

  lemma TailSeenGrows(app: App, db: Db, effects: seq<Effect>, effects': seq<Effect>, c: Ctx, n: nat, n': nat)
    requires TailSeen(app, db, effects, c, n) && effects <= effects' && n <= n'
    ensures TailSeen(app, db, effects', c, n')
  {
    forall i | n' <= i < |Held(app, c)| ensures Observed(app, db, effects', Held(app, c)[i]) {
      ObservedGrows(app, db, effects, effects', Held(app, c)[i]);
    }
    if c.phase.Aborting? { ObservedGrows(app, db, effects, effects', Failing(app, c)); }
  }

  lemma SeenNow(app: App, db: Db, effects: seq<Effect>, e: Entry)
    requires SeenOn(app, DbAfter(app, db, effects), e)
    ensures Observed(app, db, effects, e)
  {
    assert effects[..|effects|] == effects;
  }

  lemma EffectsGrow(app: App, t: Tables, c: Ctx, m: Move)
    requires Enabled(app, c, m)
    ensures t.effects <= Perform(app, t, c, m).0.effects
  {
  }

  /** A leading execution's own move: what it newly holds in its tail, it has just seen. */
  lemma MoverSees(app: App, db: Db, t: Tables, c: Ctx, m: Move, log: seq<Entry>)
    requires InStep(app, t, c, log) && Leading(app, c, log) && Enabled(app, c, m)
    requires t.db == DbAfter(app, db, t.effects)
    requires TailSeen(app, db, t.effects, c, |log|)
    requires Perform(app, t, c, m).0 == t
    ensures TailSeen(app, db, t.effects, Perform(app, t, c, m).1, |log|)
  {
    LeadingNext(app, t, c, log);
    var d := Perform(app, t, c, m).1;
    forall i | |log| <= i < |Held(app, d)| ensures Observed(app, db, t.effects, Held(app, d)[i]) {
      NewTailSeen(app, db, t, c, m, i);
    }
    if d.hist == c.hist && d.phase.Aborting? && d.phase != c.phase {
      FailureSeen(app, db, t, c, m);
    } else if d.hist != c.hist {
      MoveAppends(app, t, c, m);
    }
  }

  /** Only a read-only transaction completes a fresh operation without a row. */
  lemma OnlyReadsLeaveNoRow(app: App, t: Tables, c: Ctx, m: Move)
    requires Enabled(app, c, m) && c.MyKey() !in t.tx && c.MyKey() !in t.ops
    requires |Perform(app, t, c, m).1.hist| == |c.hist| + 1
    ensures Perform(app, t, c, m).0 != t || Reads(app, t, c, m)
  {
    var t' := Perform(app, t, c, m).0;
    if !(m.RunTx? && NextAction(app, c.wf, c.hist).Read?) {
      assert c.MyKey() in t'.tx || c.MyKey() in t'.ops;
    }
  }

  /** After a read the tail ends with what it saw. */
  lemma ReadHeld(app: App, t: Tables, c: Ctx, m: Move)
    requires Enabled(app, c, m) && Reads(app, t, c, m) && Orderly(app, c)
    ensures
      var a := NextAction(app, c.wf, c.hist);
      Held(app, Perform(app, t, c, m).1) == c.hist + [Entry(c.Id(), a, app.view(a.code, t.db))]
  {
    var d := Perform(app, t, c, m).1;
    var a := NextAction(app, c.wf, c.hist);
    ReadOutcome(app, t, c, m.fate);
    if m.fate.Success? {
      assert d.Id() == c.Id() + 1 && d.Id() !in d.buffer;
    }
  }

  lemma OtherwiseHeld(app: App, t: Tables, c: Ctx, m: Move)
    requires Enabled(app, c, m) && !Reads(app, t, c, m)
    requires |Perform(app, t, c, m).1.hist| == |c.hist|
    ensures Held(app, Perform(app, t, c, m).1) <= Held(app, c)
  {
    KeptOrCleared(app, t, c, m);
  }

  lemma KeptOrCleared(app: App, t: Tables, c: Ctx, m: Move)
    requires Enabled(app, c, m) && !Reads(app, t, c, m)
    ensures
      var d := Perform(app, t, c, m).1;
      (d.buffer == c.buffer || d.buffer == map[]) && d.wf == c.wf && c.hist <= d.hist
  {
    match m
    case RunTx(f) => if NextAction(app, c.wf, c.hist).Read? { ReadOutcome(app, t, c, f); }
    case _ =>
  }

  lemma NewTailSeen(app: App, db: Db, t: Tables, c: Ctx, m: Move, i: nat)
    requires Enabled(app, c, m) && t.db == DbAfter(app, db, t.effects) && Orderly(app, c)
    requires c.MyKey() !in t.tx && c.MyKey() !in t.ops && Perform(app, t, c, m).0 == t
    requires i < |Held(app, Perform(app, t, c, m).1)|
    requires i < |Held(app, c)| ==> Observed(app, db, t.effects, Held(app, c)[i])
    ensures Observed(app, db, t.effects, Held(app, Perform(app, t, c, m).1)[i])
  {
    var d := Perform(app, t, c, m).1;
    if Reads(app, t, c, m) {
      ReadHeld(app, t, c, m);
      if i < |c.hist| { assert Held(app, c)[i] == c.hist[i]; }
      else { SeenNow(app, db, t.effects, Held(app, d)[i]); }
    } else {
      if d.hist != c.hist {
        MoveAppends(app, t, c, m);
        OnlyReadsLeaveNoRow(app, t, c, m);
      }
      OtherwiseHeld(app, t, c, m);
    }
  }

  lemma FailureSeen(app: App, db: Db, t: Tables, c: Ctx, m: Move)
    requires Enabled(app, c, m) && t.db == DbAfter(app, db, t.effects)
    requires c.MyKey() !in t.tx
    requires
      var d := Perform(app, t, c, m).1;
      d.hist == c.hist && d.phase.Aborting? && d.phase != c.phase
    ensures Observed(app, db, t.effects, Failing(app, Perform(app, t, c, m).1))
  {
    var d := Perform(app, t, c, m).1;
    assert m.RunTx?;
    SeenNow(app, db, t.effects, Failing(app, d));
  }

  /** An execution that leads a log led every earlier state of it: it was neither replaying more nor
      overtaken. */
  lemma LedBefore(app: App, t: Tables, t': Tables, o: Ctx, log: seq<Entry>, log': seq<Entry>)
    requires InStep(app, t', o, log') && Leading(app, o, log') && |log| <= |log'| && Grows(t, t')
    requires Synced(app, o, log) || Overtaken(t, o)
    ensures Leading(app, o, log)
  {
    LeadingNext(app, t', o, log');
    if Overtaken(t, o) { OvertakenStays(t, t', o); }
  }

  lemma LogsGrow(app: App, s: System, x: nat, m: Move, wf: WfId)
    requires CleanInv(app, s) && CanStep(app, s, Do(x, m)) && !Lossy(app, s, Do(x, m))
    ensures |s.Log(wf)| <= |Step(app, s, Do(x, m)).Log(wf)|
  {
    if wf == s.execs[x].wf { CleanMover(app, s, x, m); }
  }

  /** After a clean step, an execution that leads was leading before, with no shorter a tail. */
  lemma LeadersLed(app: App, s: System, x: nat, m: Move, y: nat)
    requires CleanInv(app, s) && CanStep(app, s, Do(x, m)) && !Lossy(app, s, Do(x, m))
    requires y in s.execs && y != x
    requires
      var s' := Step(app, s, Do(x, m));
      CleanInv(app, s') && Leading(app, s'.execs[y], s'.Log(s'.execs[y].wf))
    ensures
      var s' := Step(app, s, Do(x, m));
      var wf := s.execs[y].wf;
      Leading(app, s.execs[y], s.Log(wf)) && |s.Log(wf)| <= |s'.Log(wf)|
  {
    var o := s.execs[y];
    var s' := Step(app, s, Do(x, m));
    assert s'.execs[y] == o;
    LogsGrow(app, s, x, m, o.wf);
    assert Grows(s.t, s'.t) by { MoveGrows(app, s.t, s.execs[x], m); }
    assert InStep(app, s'.t, o, s'.Log(o.wf)) by { assert LogExact(app, s'.t, o.wf, s'.Log(o.wf)); }
    LedBefore(app, s.t, s'.t, o, s.Log(o.wf), s'.Log(o.wf));
  }

  lemma SeenDo(app: App, db: Db, s: System, x: nat, m: Move)
    requires CleanInv(app, s) && CanStep(app, s, Do(x, m)) && !Lossy(app, s, Do(x, m))
    requires SeenInv(app, db, s) && ExactlyOnce(app, db, s.t)
    ensures SeenInv(app, db, Step(app, s, Do(x, m)))
  {
    var c := s.execs[x];
    var s' := Step(app, s, Do(x, m));
    CleanDo(app, s, x, m);
    EffectsGrow(app, s.t, c, m);
    forall y | y in s'.execs && Leading(app, s'.execs[y], s'.Log(s'.execs[y].wf))
      ensures TailSeen(app, db, s'.t.effects, s'.execs[y], |s'.Log(s'.execs[y].wf)|)
    {
      if y != x {
        LeadersLed(app, s, x, m, y);
        TailSeenGrows(app, db, s.t.effects, s'.t.effects, s.execs[y], |s.Log(s.execs[y].wf)|, |s'.Log(s.execs[y].wf)|);
      } else {
        SeenMover(app, db, s, x, m);
      }
    }
  }

  lemma SeenMover(app: App, db: Db, s: System, x: nat, m: Move)
    requires CleanInv(app, s) && CanStep(app, s, Do(x, m)) && !Lossy(app, s, Do(x, m))
    requires SeenInv(app, db, s) && ExactlyOnce(app, db, s.t)
    requires
      var s' := Step(app, s, Do(x, m));
      CleanInv(app, s') && Leading(app, s'.execs[x], s'.Log(s'.execs[x].wf))
    ensures
      var s' := Step(app, s, Do(x, m));
      TailSeen(app, db, s'.t.effects, s'.execs[x], |s'.Log(s'.execs[x].wf)|)
  {
    var c := s.execs[x];
    var s' := Step(app, s, Do(x, m));
    var log := s.Log(c.wf);
    var d := s'.execs[x];
    MoveKeepsWorkflow(app, s.t, c, m);
    LogChange(app, s, x, m);
    assert LogExact(app, s.t, c.wf, log);
    if s'.t.tx != s.t.tx || s'.t.ops != s.t.ops {
      RowsThenNoAbort(app, s.t, c, m);
      RecordedHistory(app, s.t, c, m);
    } else {
      assert !Clashes(s'.t, d) by {
        assert LogExact(app, s'.t, d.wf, s'.Log(d.wf));
        LeadingNext(app, s'.t, d, s'.Log(d.wf));
      }
      if Overtaken(s.t, c) {
        OvertakenMove(app, s.t, c, m);
      } else if Leading(app, c, log) {
        MoverSees(app, db, s.t, c, m, log);
      } else {
        ReplayerHolds(app, s.t, c, m, log);
      }
    }
  }

  /** An execution that has replayed the last entry of the log holds nothing beyond it. */
  lemma ReplayerHolds(app: App, t: Tables, c: Ctx, m: Move, log: seq<Entry>)
    requires InStep(app, t, c, log) && Replaying(c, log) && Enabled(app, c, m)
    requires !Clashes(t, Perform(app, t, c, m).1) && Leading(app, Perform(app, t, c, m).1, log)
    ensures Held(app, Perform(app, t, c, m).1) == log && Perform(app, t, c, m).1.phase.Ready?
  {
    var d := Perform(app, t, c, m).1;
    ReplayingNext(app, t, c, log);
    MoveAppends(app, t, c, m);
    MoveBuffers(app, t, c, m);
    assert forall k :: k in d.buffer ==> k == c.Id();
    assert c.MyKey() in t.tx || !NextAction(app, c.wf, c.hist).Read?;
    assert d.buffer == map[];
    assert d.hist[..|log|] == d.hist;
  }

  lemma RowsThenNoAbort(app: App, t: Tables, c: Ctx, m: Move)
    requires Enabled(app, c, m)
    requires Perform(app, t, c, m).0.tx != t.tx || Perform(app, t, c, m).0.ops != t.ops
    requires Orderly(app, c) && KeepsReads(app, t, c, m)
    ensures !Perform(app, t, c, m).1.phase.Aborting?
    ensures Perform(app, t, c, m).1.buffer == map[]
    ensures Held(app, Perform(app, t, c, m).1) == Perform(app, t, c, m).1.hist
  {
  }

  lemma SeenQuiet(app: App, db: Db, s: System, s': System)
    requires SeenInv(app, db, s) && s'.t == s.t && s'.log == s.log
    requires forall x :: x in s'.execs ==>
      (x in s.execs && s'.execs[x].(phase := s.execs[x].phase) == s.execs[x]
       && (s'.execs[x].phase == s.execs[x].phase || s'.execs[x].phase.Done?))
      || (s'.execs[x].hist == [] && s'.execs[x].buffer == map[] && s'.execs[x].phase.Ready?)
    ensures SeenInv(app, db, s')
  {
    forall x | x in s'.execs && Leading(app, s'.execs[x], s'.Log(s'.execs[x].wf))
      ensures TailSeen(app, db, s'.t.effects, s'.execs[x], |s'.Log(s'.execs[x].wf)|)
    {
      if s'.execs[x].hist != [] || s'.execs[x].buffer != map[] || !s'.execs[x].phase.Ready? {
        assert Held(app, s'.execs[x]) == Held(app, s.execs[x]);
        assert Leading(app, s.execs[x], s.Log(s.execs[x].wf));
      }
    }
  }

  lemma SeenStep(app: App, db: Db, s: System, l: Label)
    requires CleanInv(app, s) && !Lossy(app, s, l) && SeenInv(app, db, s) && ExactlyOnce(app, db, s.t)
    ensures SeenInv(app, db, Step(app, s, l))
  {
    if l.Do? && CanStep(app, s, l) {
      SeenDo(app, db, s, l.x, l.move);
    } else {
      SeenQuiet(app, db, s, Step(app, s, l));
    }
  }

  lemma {:induction false} CleanRunsSee(app: App, db: Db, ls: seq<Label>)
    requires CleanRun(app, db, ls)
    ensures SeenInv(app, db, Run(app, db, ls))
  {
    if ls != [] {
      var n := |ls| - 1;
      var s := Run(app, db, ls[..n]);
      assert CleanInv(app, s) && SeenInv(app, db, s) by {
        CleanPrefix(app, db, ls, n);
        CleanRunsStayExact(app, db, ls[..n]);
        CleanRunsSee(app, db, ls[..n]);
      }
      assert ExactlyOnce(app, db, s.t) by { EffectsHappenExactlyOnce(app, db, ls[..n]); }
      SeenStep(app, db, s, ls[n]);
    }
  }

  // ---- refinement -------------------------------------------------------------------------------

  /** A leading execution's flush is a crash-free step. */
  lemma FlushIsIdeal(app: App, db: Db, a: Ideal, b: Ideal, t: Tables, c: Ctx, m: Move, log: seq<Entry>)
    requires Enabled(app, c, m) && Perform(app, t, c, m).1.hist == c.hist && !m.StartWait?
    requires Perform(app, t, c, m).0.tx != t.tx || Perform(app, t, c, m).0.ops != t.ops
    requires Leading(app, c, log) && a.Log(c.wf) == log && Follows(app, c.wf, Held(app, c))
    requires a.effects == t.effects && TailSeen(app, db, a.effects, c, |log|)
    requires b == Ideal(Perform(app, t, c, m).0.effects, a.logs[c.wf := Held(app, c)], Perform(app, t, c, m).0.ex)
    requires a.ex == t.ex
    ensures IdealStep(app, db, a, b)
  {
    FlushWritesTail(app, t, c, m);
    TailIsIdeal(app, db, a, c, log);
  }

  /** A leading execution's recording of an operation is a crash-free step. */
  lemma RecordingIsIdeal(app: App, db: Db, a: Ideal, b: Ideal, t: Tables, c: Ctx, m: Move, log: seq<Entry>)
    requires Enabled(app, c, m) && Perform(app, t, c, m).1.hist != c.hist && Orderly(app, c)
    requires Perform(app, t, c, m).0.tx != t.tx || Perform(app, t, c, m).0.ops != t.ops
    requires Leading(app, c, log) && a.Log(c.wf) == log && t.db == DbAfter(app, db, t.effects) && Held(app, c) == c.hist
    requires a.effects == t.effects && TailSeen(app, db, a.effects, c, |log|)
    requires b.logs == a.logs[c.wf := Perform(app, t, c, m).1.hist] && a.ex == t.ex
    requires b.effects == Perform(app, t, c, m).0.effects && b.ex == Perform(app, t, c, m).0.ex
    ensures IdealStep(app, db, a, b)
  {
    MoveAppends(app, t, c, m);
    MoveOrderly(app, t, c, m);
    LastIsIdeal(app, db, t, c, m);
    TailAndLastAreIdeal(app, db, a, b, c, log, Perform(app, t, c, m).1.hist);
  }

  /** A move that writes rows, other than that of a wait, performs one crash-free step. */
  lemma RowsAreOneIdealStep(app: App, db: Db, s: System, x: nat, m: Move)
    requires CleanInv(app, s) && CanStep(app, s, Do(x, m)) && !Lossy(app, s, Do(x, m))
    requires SeenInv(app, db, s) && ExactlyOnce(app, db, s.t)
    requires
      var s' := Step(app, s, Do(x, m));
      !m.StartWait? && (s'.t.tx != s.t.tx || s'.t.ops != s.t.ops)
    ensures IdealStep(app, db, Abs(s), Abs(Step(app, s, Do(x, m))))
  {
    var c := s.execs[x];
    var s' := Step(app, s, Do(x, m));
    LogChange(app, s, x, m);
    HeldIsHistory(app, c);
    RecordedHolds(app, s.t, c, m);
    if s'.execs[x].hist == c.hist {
      FlushIsIdeal(app, db, Abs(s), Abs(s'), s.t, c, m, s.Log(c.wf));
    } else {
      RecordingIsIdeal(app, db, Abs(s), Abs(s'), s.t, c, m, s.Log(c.wf));
    }
  }

  /** A flush records all that is held; when an operation is recorded, nothing is being retried. */
  lemma RecordedHolds(app: App, t: Tables, c: Ctx, m: Move)
    requires Enabled(app, c, m) && Orderly(app, c) && AllPossible(c.hist) && !m.StartWait?
    requires Perform(app, t, c, m).0.tx != t.tx || Perform(app, t, c, m).0.ops != t.ops
    ensures
      var d := Perform(app, t, c, m).1;
      if |d.hist| == |c.hist| then Recorded(app, c, m, d) == Held(app, c)
      else Held(app, c) == c.hist && Recorded(app, c, m, d) == d.hist
  {
    HeldIsHistory(app, c);
    var d := Perform(app, t, c, m).1;
    if |d.hist| == |c.hist| && !m.Flush? && !m.FlushFinished? {
      UnfinishedWritesNothing(app, t, c, m);
    }
  }

  /** Only a flush of a nonempty buffer, and the start of a wait, write rows without completing an operation. */
  lemma FlushWritesTail(app: App, t: Tables, c: Ctx, m: Move)
    requires Enabled(app, c, m) && |Perform(app, t, c, m).1.hist| == |c.hist| && !m.StartWait?
    ensures c.buffer == map[] ==> Perform(app, t, c, m).0.tx == t.tx && Perform(app, t, c, m).0.ops == t.ops
    ensures Perform(app, t, c, m).0.effects == t.effects && Perform(app, t, c, m).0.ex == t.ex
  {
    if m.Flush? || m.FlushFinished? {
      EmptyFlush(t, c);
    } else {
      UnfinishedWritesNothing(app, t, c, m);
    }
  }

  lemma EmptyFlush(t: Tables, c: Ctx)
    ensures c.buffer == map[] ==> t.tx + BufferRows(c) == t.tx
  {
    if c.buffer == map[] { assert BufferRows(c) == map[]; }
  }

  lemma UnfinishedWritesNothing(app: App, t: Tables, c: Ctx, m: Move)
    requires Enabled(app, c, m) && |Perform(app, t, c, m).1.hist| == |c.hist|
    requires !m.Flush? && !m.FlushFinished? && !m.StartWait?
    ensures Perform(app, t, c, m).0 == t
  {
  }

  lemma TailIsIdeal(app: App, db: Db, a: Ideal, c: Ctx, log: seq<Entry>)
    requires Leading(app, c, log) && c.buffer != map[] && a.Log(c.wf) == log && Follows(app, c.wf, Held(app, c))
    requires TailSeen(app, db, a.effects, c, |log|)
    ensures IdealExtend(app, db, a, a.(logs := a.logs[c.wf := Held(app, c)]), c.wf, Held(app, c)[|log|..])
  {
    var h := Held(app, c);
    var more := h[|log|..];
    TailCounts(h, |log|, c.buffer);
    assert log + more == h;
    forall i | 0 <= i < |more|
      ensures more[i].action.Read? && more[i].outcome.Ok? && Observed(app, db, a.effects, more[i])
    {
      assert more[i] == h[|log| + i];
    }
  }

  lemma TailAndLastAreIdeal(app: App, db: Db, a: Ideal, b: Ideal, c: Ctx, log: seq<Entry>, h: seq<Entry>)
    requires Leading(app, c, log) && a.Log(c.wf) == log && TailSeen(app, db, a.effects, c, |log|)
    requires Held(app, c) == c.hist
    requires |h| == |c.hist| + 1 && h[..|c.hist|] == c.hist && Follows(app, c.wf, h)
    requires b.logs == a.logs[c.wf := h]
    requires
      var e := h[|c.hist|];
      && b.ex == Exchanged(a.ex, Key(c.wf, e.id), e.action)
      && e.outcome == Yields(a.ex, c.wf, e.action, e.outcome)
      && if e.action.Write? && e.outcome.Ok? then
        && app.run(e.action.code, DbAfter(app, db, a.effects)).Commit?
        && app.run(e.action.code, DbAfter(app, db, a.effects)).value == e.outcome.value
        && b.effects == a.effects + [Effect(Key(c.wf, e.id), e.action.code, e.outcome.value)]
      else
        && b.effects == a.effects
        && (e.action.Transactional() ==> Observed(app, db, a.effects, e))
        && Possible(e.action, e.outcome)
    ensures IdealStep(app, db, a, b)
  {
    var more := h[|log|..];
    assert log == h[..|log|];
    assert log + more == h;
    forall i | 0 <= i < |more| - 1 ensures more[i].action.Read? && Observed(app, db, a.effects, more[i]) {
      assert more[i] == Held(app, c)[|log| + i];
    }
    assert more[|more| - 1] == h[|c.hist|];
    assert IdealExtend(app, db, a, b, c.wf, more);
  }

  /** The operation a row-writing move completes is one the crash-free machine can append. */
  lemma LastIsIdeal(app: App, db: Db, t: Tables, c: Ctx, m: Move)
    requires Enabled(app, c, m) && t.db == DbAfter(app, db, t.effects)
    requires |Perform(app, t, c, m).1.hist| == |c.hist| + 1
    requires Perform(app, t, c, m).0.tx != t.tx || Perform(app, t, c, m).0.ops != t.ops
    requires c.phase.Aborting? ==> Observed(app, db, t.effects, Failing(app, c))
    ensures
      var (t', d) := Perform(app, t, c, m);
      var e := d.hist[|c.hist|];
      && t'.ex == Exchanged(t.ex, Key(c.wf, e.id), e.action)
      && e.outcome == Yields(t.ex, c.wf, e.action, e.outcome)
      && if e.action.Write? && e.outcome.Ok? then
        && app.run(e.action.code, DbAfter(app, db, t.effects)).Commit?
        && app.run(e.action.code, DbAfter(app, db, t.effects)).value == e.outcome.value
        && t'.effects == t.effects + [Effect(Key(c.wf, e.id), e.action.code, e.outcome.value)]
      else
        && t'.effects == t.effects
        && (e.action.Transactional() ==> Observed(app, db, t.effects, e))
        && Possible(e.action, e.outcome)
  {
    var (t', d) := Perform(app, t, c, m);
    match m
    case RunTx(_) =>
    case RecordError => assert d.hist[|c.hist|] == Failing(app, c);
    case RecordOp(_) =>
    case _ =>
  }

  lemma CleanStepRefines(app: App, db: Db, s: System, l: Label)
    requires CleanInv(app, s) && !Lossy(app, s, l) && SeenInv(app, db, s) && ExactlyOnce(app, db, s.t)
    ensures Abs(Step(app, s, l)) == Abs(s) || IdealStep(app, db, Abs(s), Abs(Step(app, s, l)))
  {
    if CanStep(app, s, l) && l.Do? {
      var s' := Step(app, s, l);
      if !l.move.StartWait? && (s'.t.tx != s.t.tx || s'.t.ops != s.t.ops) {
        RowsAreOneIdealStep(app, db, s, l.x, l.move);
      } else {
        LogChange(app, s, l.x, l.move);
      }
    }
  }

  /** The last step of a clean run is a crash-free step or nothing. */
  lemma LastStepRefines(app: App, db: Db, ls: seq<Label>)
    requires ls != [] && CleanRun(app, db, ls)
    ensures CleanRun(app, db, ls[..|ls| - 1])
    ensures
      var a, b := Abs(Run(app, db, ls[..|ls| - 1])), Abs(Run(app, db, ls));
      b == a || IdealStep(app, db, a, b)
  {
    var n := |ls| - 1;
    var s := Run(app, db, ls[..n]);
    CleanPrefix(app, db, ls, n);
    assert CleanInv(app, s) by { CleanRunsStayExact(app, db, ls[..n]); }
    assert SeenInv(app, db, s) by { CleanRunsSee(app, db, ls[..n]); }
    assert ExactlyOnce(app, db, s.t) by { EffectsHappenExactlyOnce(app, db, ls[..n]); }
    CleanStepRefines(app, db, s, ls[n]);
  }

  lemma ExtendIdeal(app: App, db: Db, run: seq<Ideal>, b: Ideal)
    requires IdealRun(app, db, run) && IdealStep(app, db, run[|run| - 1], b)
    ensures IdealRun(app, db, run + [b])
  {
    var more := run + [b];
    forall i | 0 < i < |more| ensures IdealStep(app, db, more[i - 1], more[i]) {
      if i < |run| { assert IdealStep(app, db, run[i - 1], run[i]); }
    }
  }

  /** Every clean run, with all its crashes, recoveries, retries and duplicate executions, is a run of
      the crash-free machine. */
  lemma {:induction false} CleanRunsAreCrashFree(app: App, db: Db, ls: seq<Label>) returns (run: seq<Ideal>)
    requires CleanRun(app, db, ls)
    ensures IdealRun(app, db, run) && run[|run| - 1] == Abs(Run(app, db, ls))
  {
    if ls == [] {
      run := [Ideal([], map[], NO_EXCHANGE)];
    } else {
      LastStepRefines(app, db, ls);
      run := CleanRunsAreCrashFree(app, db, ls[..|ls| - 1]);
      var b := Abs(Run(app, db, ls));
      if b != run[|run| - 1] {
        ExtendIdeal(app, db, run, b);
        run := run + [b];
      }
    }
  }
}
