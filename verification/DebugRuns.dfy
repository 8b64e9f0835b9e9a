/** The debugger on what durable runs leave behind: a workflow that has finished in a clean run is replayed
    from its output tables, operation by operation. */
module DebugRuns {
  import opened Workflows
  import opened DurableSteps
  import opened DurableRuns
  import opened CleanRuns
  import opened CrashFree
  import opened Agreement
  import D = DebugReplays

  /** The debugger's view of an operation of the durable runs, whose sleeps all take time. */
  function OpOf(a: Action): D.Op
    requires !a.Final()
  {
    match a
    case Write(code) => D.Transaction(code)
    case Read(code) => D.Transaction(code)
    case External(code) => D.Step(code)
    case Send(destination, topic, message) => D.Op.Send(destination, message)
    case Recv(topic) => D.Op.Recv(topic)
    case SetEvent(key, payload) => D.Op.SetEvent(key, payload)
    case GetEvent(target, key) => D.Op.GetEvent(target, key)
    case GetStatus(target) => D.Status(target)
    case Sleep => D.Op.Sleep(1)
  }

  function RequestOf(a: Action): D.Request {
    match a
    case Return(v) => D.Finish(Ok(v))
    case Throw(e) => D.Finish(Err(e))
    case _ => D.Do(OpOf(a))
  }

  function ProgramOf(app: App, wf: WfId): D.Program {
    (os: seq<Outcome>) => RequestOf(app.next(wf, os))
  }

  /** What the debugger reads of the output tables. */
  function RecordingOf(t: Tables): D.Recording {
    D.Recording(map k | k in t.tx :: t.tx[k].outcome, t.ops, map[])
  }

  function TakenOf(h: seq<Entry>): (r: seq<D.Taken>)
    requires forall i :: 0 <= i < |h| ==> !h[i].action.Final()
    ensures |r| == |h|
    ensures forall i :: 0 <= i < |h| ==> r[i] == D.Taken(h[i].id, OpOf(h[i].action), h[i].outcome)
  {
    seq(|h|, i requires 0 <= i < |h| => D.Taken(h[i].id, OpOf(h[i].action), h[i].outcome))
  }

  ghost predicate NoneFinal(h: seq<Entry>) {
    forall i :: 0 <= i < |h| ==> !h[i].action.Final()
  }

  lemma FollowsNoneFinal(app: App, wf: WfId, h: seq<Entry>)
    requires Follows(app, wf, h)
    ensures NoneFinal(h)
  {
    forall i | 0 <= i < |h| ensures !h[i].action.Final() {
      assert FollowsAt(app, wf, h, i);
    }
  }

  lemma {:induction false} SameOutcomes(h: seq<Entry>)
    requires NoneFinal(h)
    ensures D.Seen(TakenOf(h)) == Outcomes(h)
  {
    if h != [] {
      var n := |h| - 1;
      SameOutcomes(h[..n]);
      assert TakenOf(h)[..n] == TakenOf(h[..n]);
      assert Outcomes(h) == Outcomes(h[..n]) + [h[n].outcome];
    }
  }

  /** The durable runs and the debugger's live histories count identifiers alike. */
  lemma {:induction false} SameIds(app: App, wf: WfId, h: seq<Entry>)
    requires Follows(app, wf, h) && NoneFinal(h)
    ensures D.LiveId(TakenOf(h)) == NextId(h)
  {
    if h != [] {
      var n := |h| - 1;
      FollowsPrefix(app, wf, h, n);
      SameIds(app, wf, h[..n]);
      assert FollowsAt(app, wf, h, n);
      assert TakenOf(h)[..n] == TakenOf(h[..n]);
    }
  }

  lemma HistoryIsLive(app: App, wf: WfId, h: seq<Entry>)
    requires Follows(app, wf, h) && NoneFinal(h) && AllPossible(h)
    ensures D.Live(ProgramOf(app, wf), wf, TakenOf(h)) && D.NoIdleSleeps(TakenOf(h))
  {
    var g := TakenOf(h);
    forall i | 0 <= i < |g| ensures D.LiveAt(ProgramOf(app, wf), wf, g, i) {
      assert FollowsAt(app, wf, h, i) && Possible(h[i].action, h[i].outcome);
      FollowsPrefix(app, wf, h, i);
      assert g[..i] == TakenOf(h[..i]);
      SameOutcomes(h[..i]);
      SameIds(app, wf, h[..i]);
    }
  }

  lemma DurableIsComplete(t: Tables, wf: WfId, h: seq<Entry>)
    requires FullyDurable(t, wf, h) && NoneFinal(h)
    ensures D.Complete(RecordingOf(t), wf, TakenOf(h))
  {
    forall i | 0 <= i < |h| ensures D.CompleteAt(RecordingOf(t), wf, TakenOf(h)[i]) {
    }
  }

  /** A FINISHED WORKFLOW CAN BE DEBUGGED: in every clean run, once an execution has reached the end of its workflow,
      returned or not, with its reads recorded, the debugger replays its whole history from the tables and ends with
      its outcome. */
  lemma {:induction false} FinishedWorkflowsReplay(app: App, db: Db, ls: seq<Label>, x: nat)
    requires
      var s := Run(app, db, ls);
      && CleanRun(app, db, ls) && x in s.execs && AtEnd(app, s.execs[x]) && ReadsRecorded(s.t, s.execs[x])
    ensures NoneFinal(Run(app, db, ls).execs[x].hist)
    ensures
      var s := Run(app, db, ls);
      var c := s.execs[x];
      D.Replayed(ProgramOf(app, c.wf), RecordingOf(s.t), c.wf, |c.hist| + 1)
        == D.Finished(TakenOf(c.hist), Returns(app, c))
  {
    var s := Run(app, db, ls);
    var c := s.execs[x];
    assert s.Log(c.wf) == c.hist by {
      assert ls + [] == ls;
      EndIsLog(app, db, ls, x, []);
    }
    assert LogExact(app, s.t, c.wf, c.hist) && FullyDurable(s.t, c.wf, c.hist) by {
      CleanRunsStayExact(app, db, ls);
      LogsAreFullyDurable(app, s, c.wf);
    }
    FollowsNoneFinal(app, c.wf, c.hist);
    HistoryIsLive(app, c.wf, c.hist);
    DurableIsComplete(s.t, c.wf, c.hist);
    SameOutcomes(c.hist);
    D.ReplayIsFaithful(ProgramOf(app, c.wf), RecordingOf(s.t), c.wf, TakenOf(c.hist), Returns(app, c));
  }
}
