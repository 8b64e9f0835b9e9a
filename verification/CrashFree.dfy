/** What clean runs guarantee: durable prefixes, agreement, and events that never regress. */
module CrashFree {
  import opened Options
  import opened Workflows
  import opened DurableSteps
  import opened DurableRuns
  import opened CleanRuns

  // ---- durable prefixes -------------------------------------------------------------------------

  /** Every operation of `h` has its row, read-only transactions included. */
  ghost predicate FullyDurable(t: Tables, wf: WfId, h: seq<Entry>) {
    forall i :: 0 <= i < |h| ==>
      if h[i].action.Transactional() then Key(wf, h[i].id) in t.tx && t.tx[Key(wf, h[i].id)] == RowOf(h[i])
      else Key(wf, h[i].id) in t.ops && t.ops[Key(wf, h[i].id)] == h[i].outcome
  }

  lemma LogsAreFullyDurable(app: App, s: System, wf: WfId)
    requires CleanInv(app, s)
    ensures FullyDurable(s.t, wf, s.Log(wf))
  {
    var log := s.Log(wf);
    assert LogExact(app, s.t, wf, log);
    forall i | 0 <= i < |log|
      ensures if log[i].action.Transactional()
              then Key(wf, log[i].id) in s.t.tx && s.t.tx[Key(wf, log[i].id)] == RowOf(log[i])
              else Key(wf, log[i].id) in s.t.ops && s.t.ops[Key(wf, log[i].id)] == log[i].outcome
    {
      RowsAt(app, wf, log, i);
    }
  }

  /** Prefix durability: whenever an execution adds an output row in a clean run, that of an operation or of the end of
      a wait, every result it obtained so far, from its very first operation, has its row. */
  lemma {:induction false} RecordingMakesThePrefixDurable(app: App, db: Db, ls: seq<Label>, x: nat, m: Move)
    requires
      var s := Run(app, db, ls);
      && CleanRun(app, db, ls + [Do(x, m)]) && CanStep(app, s, Do(x, m))
      && (Step(app, s, Do(x, m)).t.tx != s.t.tx || Step(app, s, Do(x, m)).t.ops != s.t.ops)
    ensures
      var s' := Step(app, Run(app, db, ls), Do(x, m));
      FullyDurable(s'.t, s'.execs[x].wf, s'.execs[x].hist)
  {
    var s := Run(app, db, ls);
    var s' := Step(app, s, Do(x, m));
    assert CleanInv(app, s') by {
      assert (ls + [Do(x, m)])[..|ls|] == ls;
      CleanRunsStayExact(app, db, ls + [Do(x, m)]);
    }
    MoveKeepsWorkflow(app, s.t, s.execs[x], m);
    LogsAreFullyDurable(app, s', s.execs[x].wf);
    assert s'.execs[x].hist <= s'.Log(s.execs[x].wf) by {
      if m.StartWait? {
        assert !Lossy(app, s, Do(x, m)) by {
          assert (ls + [Do(x, m)])[..|ls|] == ls && (ls + [Do(x, m)])[|ls|] == Do(x, m);
        }
        assert AllOrderly(app, s) by { HistoriesFollowPrograms(app, db, ls); }
        WaitsWithNothingBuffered(app, s, x, m);
        SettledIsPrefix(app, s', x);
      } else {
        RecordedHistory(app, s.t, s.execs[x], m);
      }
    }
    DurablePrefix(s'.t, s.execs[x].wf, s'.execs[x].hist, s'.Log(s.execs[x].wf));
  }

  /** FLUSHED FIRST: in every run, clean or not, a step, a send, a receive or an event is recorded only when nothing the
      execution has read is left in its buffer; of the operations that record themselves only `getEvent`, `getStatus`
      and `sleep` can overtake a buffered read. */
  lemma {:induction false} FlushedBeforeRecording(app: App, db: Db, ls: seq<Label>, x: nat, m: Move)
    requires CanStep(app, Run(app, db, ls), Do(x, m)) && (m.RecordOp? || m.StartWait?)
    ensures
      var c := Run(app, db, ls).execs[x];
      var a := NextAction(app, c.wf, c.hist);
      && (a.External? || a.Send? || a.Recv? || a.SetEvent? ==> c.buffer == map[])
      && (Lossy(app, Run(app, db, ls), Do(x, m)) ==> a.GetEvent? || a.GetStatus? || a.Sleep?)
  {
    HistoriesFollowPrograms(app, db, ls);
    assert Orderly(app, Run(app, db, ls).execs[x]);
  }

  /** In a clean run the end of a wait is recorded only with an empty buffer. */
  lemma WaitsWithNothingBuffered(app: App, s: System, x: nat, m: Move)
    requires CanStep(app, s, Do(x, m)) && !Lossy(app, s, Do(x, m)) && m.StartWait? && AllOrderly(app, s)
    requires Step(app, s, Do(x, m)).t.ops != s.t.ops
    ensures s.execs[x].buffer == map[] && Step(app, s, Do(x, m)).execs[x] == s.execs[x]
  {
    assert Orderly(app, s.execs[x]);
  }

  /** What a move has recorded starts with the mover's history. */
  lemma RecordedHistory(app: App, t: Tables, c: Ctx, m: Move)
    requires Enabled(app, c, m)
    ensures
      var d := Perform(app, t, c, m).1;
      d.hist <= Recorded(app, c, m, d) && (m.FlushFinished? ==> d.hist == c.hist)
  {
  }

  lemma DurablePrefix(t: Tables, wf: WfId, g: seq<Entry>, h: seq<Entry>)
    requires FullyDurable(t, wf, h) && g <= h
    ensures FullyDurable(t, wf, g)
  {
    assert forall i :: 0 <= i < |g| ==> g[i] == h[i];
  }

  // ---- agreement --------------------------------------------------------------------------------

  ghost predicate PrefixOf(g: seq<Entry>, h: seq<Entry>) { |g| <= |h| && g == h[..|g|] }

  /** In a clean run, an execution whose reads are all flushed has a prefix of the log as its history. */
  lemma SettledIsPrefix(app: App, s: System, x: nat)
    requires CleanInv(app, s) && x in s.execs && s.execs[x].buffer == map[]
    ensures PrefixOf(s.execs[x].hist, s.Log(s.execs[x].wf))
  {
    var c := s.execs[x];
    var log := s.Log(c.wf);
    if Leading(app, c, log) { NothingBuffered(app, c, log); }
  }

  // ---- how a clean step changes the log ---------------------------------------------------------

  /** A clean step changes at most the mover's log, and only when the mover writes rows; then the
      mover was leading, and the log becomes its history. */
  lemma LogChange(app: App, s: System, x: nat, m: Move)
    requires CleanInv(app, s) && CanStep(app, s, Do(x, m)) && !Lossy(app, s, Do(x, m))
    ensures
      var s' := Step(app, s, Do(x, m));
      var c := s.execs[x];
      if m.StartWait? then
        s'.log == s.log && s'.t == s.t.(ops := s'.t.ops)
      else if s'.t.tx != s.t.tx || s'.t.ops != s.t.ops then
        && Leading(app, c, s.Log(c.wf)) && !Overtaken(s.t, c)
        && s'.log == s.log[c.wf := Recorded(app, c, m, s'.execs[x])]
        && PrefixOf(c.hist, s'.execs[x].hist)
      else
        s'.log == s.log && s'.t == s.t
  {
    var c := s.execs[x];
    var log := s.Log(c.wf);
    var t' := Perform(app, s.t, c, m).0;
    if m.StartWait? {
    } else if Overtaken(s.t, c) {
      OvertakenMove(app, s.t, c, m);
    } else if Replaying(c, log) {
      assert LogExact(app, s.t, c.wf, log);
      ReplayingMove(app, s.t, c, m, log);
    } else {
      RowsOrNothing(app, s.t, c, m);
      MoveExtends(app, s.t, c, m);
    }
  }

  lemma ReplayingMove(app: App, t: Tables, c: Ctx, m: Move, log: seq<Entry>)
    requires InStep(app, t, c, log) && Replaying(c, log) && Enabled(app, c, m) && !m.StartWait?
    ensures Perform(app, t, c, m).0 == t
  {
    ReplayingNext(app, t, c, log);
    RowTakenWritesNothing(app, t, c, m);
  }

  /** With an empty buffer and the operation's own row taken, no move writes a row but that of a wait. */
  lemma RowTakenWritesNothing(app: App, t: Tables, c: Ctx, m: Move)
    requires Enabled(app, c, m) && c.buffer == map[] && !m.StartWait?
    requires
      var a := NextAction(app, c.wf, c.hist);
      (a.Transactional() ==> c.MyKey() in t.tx) && (a.Operational() ==> c.MyKey() in t.ops)
    ensures Perform(app, t, c, m).0 == t
  {
    if m.Flush? || m.FlushFinished? {
      assert BufferRows(c) == map[];
      assert t.tx + map[] == t.tx;
    }
  }

  lemma RowsOrNothing(app: App, t: Tables, c: Ctx, m: Move)
    requires Enabled(app, c, m)
    ensures
      var t' := Perform(app, t, c, m).0;
      t'.tx == t.tx && t'.ops == t.ops ==> t' == t
  {
    var t' := Perform(app, t, c, m).0;
    if m.RecordOp? && t' != t { assert c.MyKey() in t'.ops && c.MyKey() !in t.ops; }
    if m.RunTx? && t' != t { assert c.MyKey() in t'.tx && c.MyKey() !in t.tx; }
    if m.RecordError? && t' != t { assert c.MyKey() in t'.tx && c.MyKey() !in t.tx; }
  }

  lemma MoveExtends(app: App, t: Tables, c: Ctx, m: Move)
    requires Enabled(app, c, m)
    ensures PrefixOf(c.hist, Perform(app, t, c, m).1.hist)
  {
    var d := Perform(app, t, c, m).1;
    if d.hist != c.hist { MoveAppends(app, t, c, m); }
    assert c.hist[..|c.hist|] == c.hist;
  }

  // ---- events -----------------------------------------------------------------------------------

  /** The value of the last `setEvent` of `name` in a history. */
  function LastSet(h: seq<Entry>, name: string): Option<Value> {
    if h == [] then None
    else
      var a := h[|h| - 1].action;
      if a.SetEvent? && a.key == name then Some(a.payload) else LastSet(h[..|h| - 1], name)
  }

  /** It is the recorded one with the largest function identifier. */
  lemma {:induction false} LastSetIsLargest(app: App, wf: WfId, h: seq<Entry>, name: string, i: nat)
    requires Follows(app, wf, h) && i < |h| && h[i].action.SetEvent? && h[i].action.key == name
    ensures exists j ::
      && 0 <= j < |h| && h[i].id <= h[j].id
      && h[j].action.SetEvent? && h[j].action.key == name && LastSet(h, name) == Some(h[j].action.payload)
    decreases |h|
  {
    var n := |h| - 1;
    var a := h[n].action;
    assert FollowsAt(app, wf, h, n);
    if a.SetEvent? && a.key == name {
      if i < n {
        FollowsPrefix(app, wf, h, n);
        IdsIncrease(app, wf, h[..n], i);
      }
    } else {
      FollowsPrefix(app, wf, h, n);
      LastSetIsLargest(app, wf, h[..n], name, i);
      var j :| && 0 <= j < n && h[..n][i].id <= h[..n][j].id
               && h[..n][j].action.SetEvent? && h[..n][j].action.key == name
               && LastSet(h[..n], name) == Some(h[..n][j].action.payload);
      assert h[..n][j] == h[j];
    }
  }

  function Stored(t: Tables, wf: WfId, name: string): Option<Value> {
    if EventKey(wf, name) in t.ex.events then Some(t.ex.events[EventKey(wf, name)]) else None
  }

  ghost predicate EventsCurrent(s: System) {
    forall wf, name :: Stored(s.t, wf, name) == LastSet(s.Log(wf), name)
  }

  lemma {:induction false} TailSetsNothing(h: seq<Entry>, n: nat, b: map<nat, Value>, name: string)
    requires TailBuffered(h, n, b)
    ensures LastSet(h, name) == LastSet(h[..n], name)
    decreases |h|
  {
    if n < |h| {
      var m := |h| - 1;
      TailOnlyReads(h, n, name);
    } else {
      assert h[..n] == h;
    }
  }

  lemma {:induction false} TailOnlyReads(h: seq<Entry>, n: nat, name: string)
    requires n <= |h| && forall i :: n <= i < |h| ==> h[i].action.Read?
    ensures LastSet(h, name) == LastSet(h[..n], name)
    decreases |h|
  {
    if n < |h| {
      TailOnlyReads(h[..|h| - 1], n, name);
      assert h[..|h| - 1][..n] == h[..n];
    } else {
      assert h[..n] == h;
    }
  }

  /** The one operation a move completes sets an event exactly when it is a newly recorded
      `setEvent`. */
  lemma EventsOfMove(app: App, t: Tables, c: Ctx, m: Move, name: string)
    requires Enabled(app, c, m) && Perform(app, t, c, m).0 != t
    ensures
      var (t', d) := Perform(app, t, c, m);
      var a := NextAction(app, c.wf, c.hist);
      Stored(t', c.wf, name) ==
        if d.hist != c.hist && a.SetEvent? && a.key == name then Some(a.payload) else Stored(t, c.wf, name)
  {
    var d := Perform(app, t, c, m).1;
    if m.RecordOp? { assert |d.hist| == |c.hist| + 1; }
  }

  lemma LastSetOfMove(app: App, t: Tables, c: Ctx, m: Move, name: string)
    requires Enabled(app, c, m)
    ensures
      var d := Perform(app, t, c, m).1;
      var a := NextAction(app, c.wf, c.hist);
      LastSet(d.hist, name) ==
        if d.hist != c.hist && a.SetEvent? && a.key == name then Some(a.payload) else LastSet(c.hist, name)
  {
    var d := Perform(app, t, c, m).1;
    if d.hist != c.hist {
      MoveAppends(app, t, c, m);
      assert d.hist[..|c.hist|] == c.hist;
    }
  }

  lemma EventsMove(app: App, s: System, x: nat, m: Move, name: string)
    requires CleanInv(app, s) && CanStep(app, s, Do(x, m)) && !Lossy(app, s, Do(x, m))
    requires
      var s' := Step(app, s, Do(x, m));
      !m.StartWait? && (s'.t.tx != s.t.tx || s'.t.ops != s.t.ops)
    requires Stored(s.t, s.execs[x].wf, name) == LastSet(s.Log(s.execs[x].wf), name)
    ensures
      var s' := Step(app, s, Do(x, m));
      Stored(s'.t, s.execs[x].wf, name) == LastSet(s'.Log(s.execs[x].wf), name)
  {
    var c := s.execs[x];
    LogChange(app, s, x, m);
    LeaderSetsNothing(app, c, s.Log(c.wf), name);
    EventsOfMove(app, s.t, c, m, name);
    LastSetOfMove(app, s.t, c, m, name);
    RecordedHistory(app, s.t, c, m);
  }

  /** Nothing that waits in a buffer sets an event. */
  lemma LeaderSetsNothing(app: App, c: Ctx, log: seq<Entry>, name: string)
    requires Orderly(app, c) && Leading(app, c, log)
    ensures LastSet(c.hist, name) == LastSet(log, name) && LastSet(Held(app, c), name) == LastSet(log, name)
  {
    var h := Held(app, c);
    TailSetsNothing(h, |log|, c.buffer, name);
    assert h[..|log|] == log;
    if |c.hist| < |h| { assert h[..|h| - 1] == c.hist; }
  }

  lemma EventsElsewhere(app: App, t: Tables, c: Ctx, m: Move, wf: WfId, name: string)
    requires Enabled(app, c, m) && wf != c.wf
    ensures Stored(Perform(app, t, c, m).0, wf, name) == Stored(t, wf, name)
  {
  }

  lemma EventsStep(app: App, s: System, l: Label)
    requires CleanInv(app, s) && EventsCurrent(s) && !Lossy(app, s, l)
    ensures EventsCurrent(Step(app, s, l))
  {
    var s' := Step(app, s, l);
    if CanStep(app, s, l) && l.Do? {
      forall wf, name ensures Stored(s'.t, wf, name) == LastSet(s'.Log(wf), name) {
        assert Stored(s.t, wf, name) == LastSet(s.Log(wf), name);
        EventStep(app, s, l.x, l.move, wf, name);
      }
    }
  }

  lemma EventStep(app: App, s: System, x: nat, m: Move, wf: WfId, name: string)
    requires CleanInv(app, s) && CanStep(app, s, Do(x, m)) && !Lossy(app, s, Do(x, m))
    requires Stored(s.t, wf, name) == LastSet(s.Log(wf), name)
    ensures
      var s' := Step(app, s, Do(x, m));
      Stored(s'.t, wf, name) == LastSet(s'.Log(wf), name)
  {
    var s' := Step(app, s, Do(x, m));
    LogChange(app, s, x, m);
    if !m.StartWait? && (s'.t.tx != s.t.tx || s'.t.ops != s.t.ops) {
      if wf == s.execs[x].wf { EventsMove(app, s, x, m, name); }
      else { EventsElsewhere(app, s.t, s.execs[x], m, wf, name); }
    }
  }

  /** Events never regress: in every clean run, whatever is re-run, the stored value of each event is
      that of the recorded `setEvent` with the largest function identifier. */
  lemma {:induction false} EventsNeverRegress(app: App, db: Db, ls: seq<Label>)
    requires CleanRun(app, db, ls)
    ensures EventsCurrent(Run(app, db, ls))
  {
    if ls != [] {
      var n := |ls| - 1;
      var s := Run(app, db, ls[..n]);
      assert CleanInv(app, s) by {
        CleanPrefix(app, db, ls, n);
        CleanRunsStayExact(app, db, ls[..n]);
      }
      assert EventsCurrent(s) by {
        CleanPrefix(app, db, ls, n);
        EventsNeverRegress(app, db, ls[..n]);
      }
      EventsStep(app, s, ls[n]);
    }
  }
}
