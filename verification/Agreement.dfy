/** When executions agree: an execution is in step with the log of a clean run exactly if every read it holds is
    recorded; and what a finished execution returned is returned by all others exactly under that condition. */
module Agreement {
  import opened Workflows
  import opened DurableSteps
  import opened DurableRuns
  import opened CleanRuns
  import opened CrashFree

  // ---- reads are all that can differ ----------------------------------------------------------------

  /** Where two histories have a read under the same identifier, it has the same outcome. */
  ghost predicate SameReads(g: seq<Entry>, h: seq<Entry>) {
    forall i, j :: 0 <= i < |g| && 0 <= j < |h| && g[i].id == h[j].id && g[i].action.Read? && g[i].action == h[j].action
      ==> g[i].outcome == h[j].outcome
  }

  lemma {:induction false} SameUpTo(app: App, db: Db, ls: seq<Label>, x: nat, y: nat, n: nat)
    requires
      var s := Run(app, db, ls);
      && x in s.execs && y in s.execs && s.execs[x].wf == s.execs[y].wf
      && SameReads(s.execs[x].hist, s.execs[y].hist) && n <= |s.execs[x].hist| && n <= |s.execs[y].hist|
    ensures
      var s := Run(app, db, ls);
      s.execs[x].hist[..n] == s.execs[y].hist[..n]
    decreases n
  {
    if n > 0 {
      var s := Run(app, db, ls);
      var g, h := s.execs[x].hist, s.execs[y].hist;
      SameUpTo(app, db, ls, x, y, n - 1);
      HistoriesFollowPrograms(app, db, ls);
      SameNext(app, s.execs[x].wf, g, h, n - 1);
      if !g[n - 1].action.Read? { ExecutionsAgree(app, db, ls, x, y, n - 1, n - 1); }
      assert g[..n] == g[..n - 1] + [g[n - 1]] && h[..n] == h[..n - 1] + [h[n - 1]];
    }
  }

  /** READS DECIDE: in every run, clean or not, of two executions of one workflow one has done exactly what the other
      did, and perhaps more, if and only if they hold the same outcomes of their reads. */
  lemma {:induction false} ReadsDecide(app: App, db: Db, ls: seq<Label>, x: nat, y: nat)
    requires
      var s := Run(app, db, ls);
      x in s.execs && y in s.execs && s.execs[x].wf == s.execs[y].wf
    ensures
      var s := Run(app, db, ls);
      var g, h := s.execs[x].hist, s.execs[y].hist;
      PrefixOf(g, h) || PrefixOf(h, g) <==> SameReads(g, h)
  {
    var s := Run(app, db, ls);
    var g, h := s.execs[x].hist, s.execs[y].hist;
    HistoriesFollowPrograms(app, db, ls);
    if SameReads(g, h) {
      SameUpTo(app, db, ls, x, y, if |g| <= |h| then |g| else |h|);
      assert g[..|g|] == g && h[..|h|] == h;
    }
    if PrefixOf(g, h) {
      PrefixReads(app, s.execs[x].wf, g, h);
    } else if PrefixOf(h, g) {
      PrefixReads(app, s.execs[x].wf, h, g);
    }
  }

  lemma PrefixReads(app: App, wf: WfId, g: seq<Entry>, h: seq<Entry>)
    requires PrefixOf(g, h) && Follows(app, wf, h)
    ensures SameReads(g, h) && SameReads(h, g)
  {
    forall i, j | 0 <= i < |g| && 0 <= j < |h| && g[i].id == h[j].id ensures i == j {
      SameIdSamePlace(app, wf, h, i, j);
    }
  }

  lemma SameIdSamePlace(app: App, wf: WfId, h: seq<Entry>, i: nat, j: nat)
    requires Follows(app, wf, h) && i < |h| && j < |h| && h[i].id == h[j].id
    ensures i == j
  {
    var a, b := if i < j then i else j, if i < j then j else i;
    if a < b {
      assert FollowsAt(app, wf, h, b);
      FollowsPrefix(app, wf, h, b);
      IdsIncrease(app, wf, h[..b], a);
    }
  }

  // ---- in step with the log -------------------------------------------------------------------------

  /** Every read the execution holds has its row, with the outcome it holds. */
  ghost predicate ReadsRecorded(t: Tables, c: Ctx) {
    forall i :: 0 <= i < |c.hist| ==> ReadRecorded(t, c.wf, c.hist[i])
  }

  /** The outcome an execution holds, if it is the recorded one, is that of the log. */
  lemma HeldIsLogged(t: Tables, wf: WfId, e: Entry, f: Entry)
    requires e.action == f.action && e.id == f.id && Possible(f.action, f.outcome) && Backed(t, wf, e)
    requires ReadRecorded(t, wf, e)
    requires if f.action.Transactional() then Key(wf, f.id) in t.tx && t.tx[Key(wf, f.id)] == RowOf(f)
             else Key(wf, f.id) in t.ops && t.ops[Key(wf, f.id)] == f.outcome
    ensures e.outcome == f.outcome
  {
  }

  /** An execution holds only recorded outcomes, and every operation of the log has its row. */
  ghost predicate Comparable(app: App, t: Tables, c: Ctx, log: seq<Entry>) {
    && Follows(app, c.wf, c.hist) && HistoryBacked(t, c) && ReadsRecorded(t, c)
    && Follows(app, c.wf, log) && AllPossible(log) && FullyDurable(t, c.wf, log)
  }

  lemma LoggedAt(app: App, t: Tables, c: Ctx, log: seq<Entry>, n: nat)
    requires Comparable(app, t, c, log) && n < |c.hist| && n < |log| && c.hist[..n] == log[..n]
    ensures c.hist[n] == log[n]
  {
    SameNext(app, c.wf, c.hist, log, n);
    assert Backed(t, c.wf, c.hist[n]);
    HeldIsLogged(t, c.wf, c.hist[n], log[n]);
  }

  lemma {:induction false} LoggedUpTo(app: App, t: Tables, c: Ctx, log: seq<Entry>, n: nat)
    requires Comparable(app, t, c, log) && n <= |c.hist| && n <= |log|
    ensures c.hist[..n] == log[..n]
    decreases n
  {
    if n > 0 {
      LoggedUpTo(app, t, c, log, n - 1);
      LoggedAt(app, t, c, log, n - 1);
      assert c.hist[..n] == c.hist[..n - 1] + [c.hist[n - 1]] && log[..n] == log[..n - 1] + [log[n - 1]];
    }
  }

  /** An execution whose reads are recorded is not past the log: what comes next has no row, and no wait has left one
      under its identifier. */
  lemma NotPastLog(app: App, t: Tables, c: Ctx, log: seq<Entry>)
    requires Comparable(app, t, c, log) && Holds(app, t, c.wf, log)
    ensures |c.hist| <= |log|
  {
    var n := |log|;
    if n < |c.hist| {
      LoggedUpTo(app, t, c, log, n);
      assert log[..n] == log;
      assert FollowsAt(app, c.wf, c.hist, n) && Backed(t, c.wf, c.hist[n]);
      NothingAtTheEnd(app, t, c.wf, log);
    }
  }

  lemma NothingAtTheEnd(app: App, t: Tables, wf: WfId, log: seq<Entry>)
    requires Follows(app, wf, log) && Holds(app, t, wf, log)
    ensures Key(wf, NextId(log)) !in t.tx && Key(wf, NextId(log)) !in t.ops
  {
    var id := NextId(log);
    if id in TxRows(log) || id in OpRows(log) { RowsBelow(app, wf, log, id); }
    if IsTimeout(app, wf, log, id) { TimeoutBelow(app, wf, log, id); }
  }

  /** IN STEP: in every clean run the history of an execution is the beginning of the log if and only if every read it
      holds is recorded; then it has done exactly what was recorded, outcome by outcome. */
  lemma {:induction false} InStepIffReadsRecorded(app: App, db: Db, ls: seq<Label>, x: nat)
    requires CleanRun(app, db, ls) && x in Run(app, db, ls).execs
    ensures
      var s := Run(app, db, ls);
      PrefixOf(s.execs[x].hist, s.Log(s.execs[x].wf)) <==> ReadsRecorded(s.t, s.execs[x])
  {
    var s := Run(app, db, ls);
    var c := s.execs[x];
    var log := s.Log(c.wf);
    assert FullyDurable(s.t, c.wf, log) && LogExact(app, s.t, c.wf, log) && Follows(app, c.wf, c.hist) by {
      CleanRunsStayExact(app, db, ls);
      LogsAreFullyDurable(app, s, c.wf);
    }
    assert HistoryBacked(s.t, c) by { RecordedOutcomesAreHeld(app, db, ls); }
    if PrefixOf(c.hist, log) {
      DurableReads(s.t, c, log);
    }
    if ReadsRecorded(s.t, c) {
      NotPastLog(app, s.t, c, log);
      LoggedUpTo(app, s.t, c, log, |c.hist|);
      assert c.hist[..|c.hist|] == c.hist;
    }
  }

  lemma DurableReads(t: Tables, c: Ctx, log: seq<Entry>)
    requires FullyDurable(t, c.wf, log) && PrefixOf(c.hist, log)
    ensures ReadsRecorded(t, c)
  {
    assert forall i :: 0 <= i < |c.hist| ==> c.hist[i] == log[i];
  }

  /** An execution with an empty buffer is in step. */
  lemma SettledIsRecorded(app: App, s: System, x: nat)
    requires CleanInv(app, s) && x in s.execs && s.execs[x].buffer == map[]
    ensures ReadsRecorded(s.t, s.execs[x])
  {
    SettledIsPrefix(app, s, x);
    LogsAreFullyDurable(app, s, s.execs[x].wf);
    DurableReads(s.t, s.execs[x], s.Log(s.execs[x].wf));
  }

  /** Deterministic replay: of two executions of one workflow with all reads recorded, one has done exactly what the
      other did, outcome by outcome, and perhaps more. */
  lemma {:induction false} SettledExecutionsAgree(app: App, db: Db, ls: seq<Label>, x: nat, y: nat)
    requires
      var s := Run(app, db, ls);
      && CleanRun(app, db, ls) && x in s.execs && y in s.execs && s.execs[x].wf == s.execs[y].wf
      && ReadsRecorded(s.t, s.execs[x]) && ReadsRecorded(s.t, s.execs[y])
    ensures
      var s := Run(app, db, ls);
      PrefixOf(s.execs[x].hist, s.execs[y].hist) || PrefixOf(s.execs[y].hist, s.execs[x].hist)
  {
    InStepIffReadsRecorded(app, db, ls, x);
    InStepIffReadsRecorded(app, db, ls, y);
    var s := Run(app, db, ls);
    var g, h, log := s.execs[x].hist, s.execs[y].hist, s.Log(s.execs[x].wf);
    assert |g| <= |h| ==> log[..|h|][..|g|] == log[..|g|];
    assert |h| <= |g| ==> log[..|g|][..|h|] == log[..|h|];
  }

  // ---- final outcomes -------------------------------------------------------------------------------

  /** The execution has reached the end of its program, and may have returned. */
  predicate AtEnd(app: App, c: Ctx) { NextAction(app, c.wf, c.hist).Final() }

  /** What it returns, or has returned. */
  function Returns(app: App, c: Ctx): Outcome
    requires AtEnd(app, c)
  {
    FinalOutcome(NextAction(app, c.wf, c.hist))
  }

  /** It returns that, whether it is about to or has. */
  lemma ReturnsAsHeld(app: App, c: Ctx)
    requires Orderly(app, c) && AtEnd(app, c)
    ensures c.phase.Done? ==> c.phase.outcome == Returns(app, c)
    ensures Enabled(app, c, Finish) ==> FinishStep(app, c).phase == Done(Returns(app, c))
  {
  }

  /** A history that has reached the end of the program is not the beginning of a longer one. */
  lemma EndStops(app: App, wf: WfId, g: seq<Entry>, h: seq<Entry>)
    requires Follows(app, wf, h) && PrefixOf(g, h) && NextAction(app, wf, g).Final()
    ensures g == h
  {
    assert |g| < |h| ==> FollowsAt(app, wf, h, |g|);
    assert h[..|h|] == h;
  }

  lemma LogGrowsInStep(app: App, s: System, l: Label, wf: WfId)
    requires CleanInv(app, s) && !Lossy(app, s, l)
    ensures PrefixOf(s.Log(wf), Step(app, s, l).Log(wf))
  {
    assert s.Log(wf)[..|s.Log(wf)|] == s.Log(wf);
    if CanStep(app, s, l) && l.Do? && wf == s.execs[l.x].wf {
      CleanMover(app, s, l.x, l.move);
    }
  }

  lemma PrefixTrans(a: seq<Entry>, b: seq<Entry>, c: seq<Entry>)
    requires PrefixOf(a, b) && PrefixOf(b, c)
    ensures PrefixOf(a, c)
  {
    assert c[..|b|][..|a|] == c[..|a|];
  }

  function LogAt(app: App, db: Db, ls: seq<Label>, n: nat, wf: WfId): seq<Entry>
    requires n <= |ls|
  {
    Run(app, db, ls[..n]).Log(wf)
  }

  /** The log of a clean run only grows. */
  lemma {:induction false} LogsOnlyGrow(app: App, db: Db, ls: seq<Label>, n: nat, m: nat, wf: WfId)
    requires CleanRun(app, db, ls) && n <= m <= |ls|
    ensures PrefixOf(LogAt(app, db, ls, n, wf), LogAt(app, db, ls, m, wf))
    decreases m
  {
    if n == m {
      PrefixOfItself(LogAt(app, db, ls, n, wf));
    } else {
      LogsOnlyGrow(app, db, ls, n, m - 1, wf);
      NextStepGrows(app, db, ls, m - 1, wf);
      PrefixTrans(LogAt(app, db, ls, n, wf), LogAt(app, db, ls, m - 1, wf), LogAt(app, db, ls, m, wf));
    }
  }

  lemma PrefixOfItself(h: seq<Entry>)
    ensures PrefixOf(h, h)
  {
    assert h[..|h|] == h;
  }

  lemma NextStepGrows(app: App, db: Db, ls: seq<Label>, n: nat, wf: WfId)
    requires CleanRun(app, db, ls) && n < |ls|
    ensures PrefixOf(LogAt(app, db, ls, n, wf), LogAt(app, db, ls, n + 1, wf))
  {
    assert ls[..n + 1][..n] == ls[..n];
    assert CleanInv(app, Run(app, db, ls[..n])) by {
      CleanPrefix(app, db, ls, n);
      CleanRunsStayExact(app, db, ls[..n]);
    }
    LogGrowsInStep(app, Run(app, db, ls[..n]), ls[n], wf);
  }

  /** Once an execution has reached the end with all reads recorded, the log is complete for good. */
  lemma EndIsLog(app: App, db: Db, ls: seq<Label>, x: nat, more: seq<Label>)
    requires
      var s := Run(app, db, ls);
      && CleanRun(app, db, ls + more) && x in s.execs && AtEnd(app, s.execs[x]) && ReadsRecorded(s.t, s.execs[x])
    ensures Run(app, db, ls + more).Log(Run(app, db, ls).execs[x].wf) == Run(app, db, ls).execs[x].hist
  {
    var c := Run(app, db, ls).execs[x];
    var log, log' := Run(app, db, ls).Log(c.wf), Run(app, db, ls + more).Log(c.wf);
    assert (ls + more)[..|ls|] == ls && (ls + more)[..|ls + more|] == ls + more;
    LogsOnlyGrow(app, db, ls + more, |ls|, |ls + more|, c.wf);
    CleanPrefix(app, db, ls + more, |ls|);
    InStepIffReadsRecorded(app, db, ls, x);
    PrefixTrans(c.hist, log, log');
    assert Follows(app, c.wf, log') by {
      CleanRunsStayExact(app, db, ls + more);
      assert LogExact(app, Run(app, db, ls + more).t, c.wf, log');
    }
    EndStops(app, c.wf, c.hist, log');
  }

  /** ONE OUTCOME: let an execution of a clean run have reached the end of its workflow, returned or not, with all
      reads recorded.  Any execution of the workflow that has reached the end, then or at any later time, has the
      same history, and so the same outcome, if and only if all its reads are recorded. */
  lemma FinalOutcomeIsUnique(app: App, db: Db, ls: seq<Label>, x: nat, more: seq<Label>, y: nat)
    requires
      var s, s' := Run(app, db, ls), Run(app, db, ls + more);
      && CleanRun(app, db, ls + more) && x in s.execs && y in s'.execs && s.execs[x].wf == s'.execs[y].wf
      && AtEnd(app, s.execs[x]) && AtEnd(app, s'.execs[y]) && ReadsRecorded(s.t, s.execs[x])
    ensures
      var c, d := Run(app, db, ls).execs[x], Run(app, db, ls + more).execs[y];
      && (d.hist == c.hist <==> ReadsRecorded(Run(app, db, ls + more).t, d))
      && (d.hist == c.hist ==>
            && Returns(app, d) == Returns(app, c)
            && (c.phase.Done? && d.phase.Done? ==> c.phase.outcome == d.phase.outcome))
  {
    var s' := Run(app, db, ls + more);
    var c, d := Run(app, db, ls).execs[x], s'.execs[y];
    EndIsLog(app, db, ls, x, more);
    InStepIffReadsRecorded(app, db, ls + more, y);
    assert c.hist[..|c.hist|] == c.hist;
    HistoriesFollowPrograms(app, db, ls);
    HistoriesFollowPrograms(app, db, ls + more);
    if PrefixOf(d.hist, c.hist) { EndStops(app, c.wf, d.hist, c.hist); }
    ReturnsAsHeld(app, c);
    ReturnsAsHeld(app, d);
  }

  // ---- stored outcomes, and those who take them over ------------------------------------------------

  /** Whoever publishes an outcome has all reads recorded by then. */
  ghost predicate PublishersRecorded(app: App, db: Db, ls: seq<Label>) {
    forall n :: 0 <= n < |ls| ==> PublishRecorded(app, Run(app, db, ls[..n]), ls[n])
  }

  ghost predicate PublishRecorded(app: App, s: System, l: Label) {
    l.Publish? && CanStep(app, s, l) ==> ReadsRecorded(s.t, s.execs[l.x])
  }

  /** The recorded history of a workflow has reached the end of its program. */
  predicate Complete(app: App, s: System, wf: WfId) { NextAction(app, wf, s.Log(wf)).Final() }

  /** The outcome that the recorded history of a workflow ends with. */
  function LoggedOutcome(app: App, s: System, wf: WfId): Outcome
    requires Complete(app, s, wf)
  {
    FinalOutcome(NextAction(app, wf, s.Log(wf)))
  }

  ghost predicate StoredIsLogged(app: App, s: System, wf: WfId) {
    wf in s.stored ==> Complete(app, s, wf) && s.stored[wf] == LoggedOutcome(app, s, wf)
  }

  /** An execution that has ended without reaching the end of its program has taken over the stored outcome. */
  ghost predicate AdoptedIsStored(app: App, s: System, x: nat)
    requires x in s.execs
  {
    var c := s.execs[x];
    c.phase.Done? && !AtEnd(app, c) ==> c.wf in s.stored && c.phase.outcome == s.stored[c.wf]
  }

  ghost predicate OutcomesAgree(app: App, s: System) {
    (forall wf :: StoredIsLogged(app, s, wf)) && (forall x :: x in s.execs ==> AdoptedIsStored(app, s, x))
  }

  lemma CompleteStays(app: App, s: System, l: Label, wf: WfId)
    requires CleanInv(app, s) && !Lossy(app, s, l) && Complete(app, s, wf)
    ensures Step(app, s, l).Log(wf) == s.Log(wf)
  {
    LogGrowsInStep(app, s, l, wf);
    assert LogExact(app, Step(app, s, l).t, wf, Step(app, s, l).Log(wf)) by { CleanStep(app, s, l); }
    EndStops(app, wf, s.Log(wf), Step(app, s, l).Log(wf));
  }

  lemma StoredStays(app: App, s: System, l: Label, wf: WfId)
    requires CleanInv(app, s) && !Lossy(app, s, l) && StoredIsLogged(app, s, wf)
    requires l.Publish? && CanStep(app, s, l) ==> s.execs[l.x].hist == s.Log(s.execs[l.x].wf)
    ensures StoredIsLogged(app, Step(app, s, l), wf)
    ensures wf in s.stored ==> wf in Step(app, s, l).stored && Step(app, s, l).stored[wf] == s.stored[wf]
  {
    if wf in s.stored { CompleteStays(app, s, l, wf); }
    if l.Publish? && CanStep(app, s, l) {
      assert Orderly(app, s.execs[l.x]);
      ReturnsAsHeld(app, s.execs[l.x]);
    }
  }

  lemma EndedBefore(app: App, t: Tables, c: Ctx, m: Move)
    requires Enabled(app, c, m) && Orderly(app, c)
    ensures
      var d := Perform(app, t, c, m).1;
      d.phase.Done? && !AtEnd(app, d) ==> d.phase == c.phase && d.wf == c.wf && !AtEnd(app, c)
  {
    var d := Perform(app, t, c, m).1;
    if d.hist != c.hist { MoveAppends(app, t, c, m); }
  }

  lemma AdoptedStays(app: App, s: System, l: Label, x: nat)
    requires CleanInv(app, s) && OutcomesAgree(app, s) && x in Step(app, s, l).execs
    requires forall wf :: wf in s.stored ==>
      wf in Step(app, s, l).stored && Step(app, s, l).stored[wf] == s.stored[wf]
    ensures AdoptedIsStored(app, Step(app, s, l), x)
  {
    if x in s.execs {
      assert AdoptedIsStored(app, s, x) && Orderly(app, s.execs[x]);
      if l.Do? && l.x == x && CanStep(app, s, l) { EndedBefore(app, s.t, s.execs[x], l.move); }
    }
  }

  lemma OutcomesStep(app: App, s: System, l: Label)
    requires CleanInv(app, s) && !Lossy(app, s, l) && OutcomesAgree(app, s)
    requires l.Publish? && CanStep(app, s, l) ==> s.execs[l.x].hist == s.Log(s.execs[l.x].wf)
    ensures OutcomesAgree(app, Step(app, s, l))
  {
    forall wf
      ensures StoredIsLogged(app, Step(app, s, l), wf)
      ensures wf in s.stored ==> wf in Step(app, s, l).stored && Step(app, s, l).stored[wf] == s.stored[wf]
    {
      StoredStays(app, s, l, wf);
    }
    forall x | x in Step(app, s, l).execs ensures AdoptedIsStored(app, Step(app, s, l), x) {
      AdoptedStays(app, s, l, x);
    }
  }

  /** ONE OUTCOME FOR ALL: in a clean run in which whoever publishes an outcome has its reads recorded, a stored outcome
      is that of the complete recorded history; an execution that lost a race returns it, and one that has reached the
      end of its program returns it if its reads are recorded. */
  lemma {:induction false} OutcomesAreOne(app: App, db: Db, ls: seq<Label>)
    requires CleanRun(app, db, ls) && PublishersRecorded(app, db, ls)
    ensures OutcomesAgree(app, Run(app, db, ls))
    ensures
      var s := Run(app, db, ls);
      forall x :: x in s.execs && s.execs[x].phase.Done? && s.execs[x].wf in s.stored
                  && (AtEnd(app, s.execs[x]) ==> ReadsRecorded(s.t, s.execs[x])) ==>
        s.execs[x].phase.outcome == s.stored[s.execs[x].wf]
  {
    OutcomesInRun(app, db, ls);
    var s := Run(app, db, ls);
    forall x | x in s.execs && s.execs[x].phase.Done? && s.execs[x].wf in s.stored
               && (AtEnd(app, s.execs[x]) ==> ReadsRecorded(s.t, s.execs[x]))
      ensures s.execs[x].phase.outcome == s.stored[s.execs[x].wf]
    {
      assert AdoptedIsStored(app, s, x) && StoredIsLogged(app, s, s.execs[x].wf);
      if AtEnd(app, s.execs[x]) {
        RecordedEndIsLog(app, db, ls, x);
        assert Orderly(app, s.execs[x]) by { HistoriesFollowPrograms(app, db, ls); }
        ReturnsAsHeld(app, s.execs[x]);
      }
    }
  }

  lemma RecordedEndIsLog(app: App, db: Db, ls: seq<Label>, x: nat)
    requires
      var s := Run(app, db, ls);
      && CleanRun(app, db, ls) && x in s.execs && AtEnd(app, s.execs[x]) && ReadsRecorded(s.t, s.execs[x])
    ensures Run(app, db, ls).execs[x].hist == Run(app, db, ls).Log(Run(app, db, ls).execs[x].wf)
  {
    assert ls + [] == ls;
    EndIsLog(app, db, ls, x, []);
  }

  lemma {:induction false} OutcomesInRun(app: App, db: Db, ls: seq<Label>)
    requires CleanRun(app, db, ls) && PublishersRecorded(app, db, ls)
    ensures OutcomesAgree(app, Run(app, db, ls))
  {
    if ls != [] {
      var n := |ls| - 1;
      var p, s := ls[..n], Run(app, db, ls[..n]);
      assert CleanRun(app, db, p) by { CleanPrefix(app, db, ls, n); }
      assert OutcomesAgree(app, s) by {
        assert PublishersRecorded(app, db, p) by { EarlierPublishers(app, db, ls, n); }
        OutcomesInRun(app, db, p);
      }
      assert CleanInv(app, s) by { CleanRunsStayExact(app, db, p); }
      assert !Lossy(app, s, ls[n]);
      assert PublishRecorded(app, s, ls[n]);
      if ls[n].Publish? && CanStep(app, s, ls[n]) { RecordedEndIsLog(app, db, p, ls[n].x); }
      OutcomesStep(app, s, ls[n]);
    }
  }

  lemma StoredInNextStep(app: App, db: Db, ls: seq<Label>, n: nat, wf: WfId)
    requires CleanRun(app, db, ls) && PublishersRecorded(app, db, ls)
    requires n < |ls| && wf in Run(app, db, ls[..n]).stored
    ensures
      var s, s' := Run(app, db, ls[..n]), Run(app, db, ls[..n + 1]);
      wf in s'.stored && s'.stored[wf] == s.stored[wf]
  {
    var p, s := ls[..n], Run(app, db, ls[..n]);
    assert CleanRun(app, db, p) by { CleanPrefix(app, db, ls, n); }
    assert StoredIsLogged(app, s, wf) by {
      assert PublishersRecorded(app, db, p) by { EarlierPublishers(app, db, ls, n); }
      OutcomesInRun(app, db, p);
    }
    assert CleanInv(app, s) by { CleanRunsStayExact(app, db, p); }
    assert !Lossy(app, s, ls[n]);
    assert PublishRecorded(app, s, ls[n]);
    if ls[n].Publish? && CanStep(app, s, ls[n]) { RecordedEndIsLog(app, db, p, ls[n].x); }
    StoredStays(app, s, ls[n], wf);
    assert ls[..n + 1][..n] == p;
  }

  /** And a stored outcome stays. */
  lemma {:induction false} StoredForever(app: App, db: Db, ls: seq<Label>, n: nat, m: nat, wf: WfId)
    requires CleanRun(app, db, ls) && PublishersRecorded(app, db, ls)
    requires n <= m <= |ls| && wf in Run(app, db, ls[..n]).stored
    ensures
      var s, s' := Run(app, db, ls[..n]), Run(app, db, ls[..m]);
      wf in s'.stored && s'.stored[wf] == s.stored[wf]
    decreases m
  {
    if n < m {
      StoredForever(app, db, ls, n, m - 1, wf);
      StoredInNextStep(app, db, ls, m - 1, wf);
    }
  }

  /** TAKEN OVER: once an execution has published its outcome, any other that loses a race, then or later, can take it
      over and returns it. */
  lemma {:induction false} LosersReturnIt(app: App, db: Db, ls: seq<Label>, x: nat, more: seq<Label>, y: nat)
    requires
      var all := ls + [Publish(x)] + more;
      var s, s' := Run(app, db, ls), Run(app, db, all);
      && CleanRun(app, db, all) && PublishersRecorded(app, db, all) && CanStep(app, s, Publish(x))
      && y in s'.execs && s'.execs[y].wf == s.execs[x].wf && s'.execs[y].phase.Conflict?
    ensures
      var s, s' := Run(app, db, ls), Run(app, db, ls + [Publish(x)] + more);
      && CanStep(app, s', Adopt(y))
      && Step(app, s', Adopt(y)).execs[y] == s'.execs[y].(phase := Done(s.execs[x].phase.outcome))
  {
    var all, n := ls + [Publish(x)] + more, |ls| + 1;
    assert all[..n] == ls + [Publish(x)] && all[..n][..|ls|] == ls && all[..|all|] == all;
    assert Run(app, db, all[..n]) == Step(app, Run(app, db, ls), Publish(x));
    StoredForever(app, db, all, n, |all|, Run(app, db, ls).execs[x].wf);
  }

  lemma EarlierPublishers(app: App, db: Db, ls: seq<Label>, n: nat)
    requires PublishersRecorded(app, db, ls) && n <= |ls|
    ensures PublishersRecorded(app, db, ls[..n])
  {
    forall m | 0 <= m < n ensures PublishRecorded(app, Run(app, db, ls[..n][..m]), ls[..n][m]) {
      assert ls[..n][..m] == ls[..m];
    }
  }
}
