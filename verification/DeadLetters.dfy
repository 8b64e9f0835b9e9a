/** Recovery attempts: how often a workflow is recovered before it is put aside.  The attempt is counted by one
    statement and judged by a second; passes may overlap, and a crash may fall between the two. */
module DeadLetters {
  import opened Options
  import opened Workflows

  datatype Status = Enqueued | Pending | Finished | RetriesExceeded

  /** The row of `workflow_status`. */
  datatype Row = Row(status: Status, attempts: nat)

  // ---- the two statements -----------------------------------------------------------------------

  /** The first statement: a new row, or one more attempt for a recovery of an existing one. */
  function Counted(row: Option<Row>, status: Status, recovery: bool): Row {
    match row
    case None => Row(status, 0)
    case Some(r) => if recovery then r.(attempts := r.attempts + 1) else r
  }

  predicate Exhausted(attempts: nat, max: nat, recovery: bool) { attempts >= max && recovery }

  /** The second statement, for a recovery that has exhausted its attempts. */
  function PutAside(r: Row): Row {
    if r.status.Pending? then r.(status := RetriesExceeded) else r
  }

  // ---- runs -------------------------------------------------------------------------------------

  /** One workflow; `passes` are recoveries between their two statements, with the count they were given.
      History variables: `entered`, the counts with which recoveries have entered the workflow's body; `cuts`,
      how many recoveries were stopped between the statements with their attempts exhausted. */
  datatype System = System(row: Option<Row>, passes: map<nat, nat>, entered: set<nat>, cuts: nat)

  datatype Label =
    | Start(queued: bool)          // any start that is no recovery, the first and later ones
    | Claim                        // the queue marks an enqueued workflow pending
    | Count(x: nat)
    | Judge(x: nat)
    | Crash(x: nat)
    | Finish

  predicate CanStep(s: System, l: Label) {
    match l
    case Start(_) => true
    case Claim => s.row.Some? && s.row.value.status.Enqueued?
    case Count(x) => s.row.Some? && x !in s.passes
    case Judge(x) => s.row.Some? && x in s.passes
    case Crash(x) => x in s.passes
    case Finish => s.row.Some?
  }

  function Initial(): System { System(None, map[], {}, 0) }

  /** One step; a label that is not enabled changes nothing, so every label sequence is a run. */
  function Step(max: nat, s: System, l: Label): System {
    if !CanStep(s, l) then s else
      match l
      case Start(queued) =>
        var r := Counted(s.row, if queued then Enqueued else Pending, false);
        s.(row := Some(if Exhausted(r.attempts, max, false) then PutAside(r) else r))
      case Claim => s.(row := Some(s.row.value.(status := Pending)))
      case Count(x) =>
        var r := Counted(s.row, Pending, true);
        s.(row := Some(r), passes := s.passes[x := r.attempts])
      case Judge(x) =>
        if Exhausted(s.passes[x], max, true) then s.(row := Some(PutAside(s.row.value)), passes := s.passes - {x})
        else s.(entered := s.entered + {s.passes[x]}, passes := s.passes - {x})
      case Crash(x) =>
        s.(passes := s.passes - {x}, cuts := if Exhausted(s.passes[x], max, true) then s.cuts + 1 else s.cuts)
      case Finish => s.(row := Some(s.row.value.(status := Finished)))
  }

  function Run(max: nat, ls: seq<Label>): System {
    if ls == [] then Initial() else Step(max, Run(max, ls[..|ls| - 1]), ls[|ls| - 1])
  }

  function Attempts(s: System): nat { if s.row.Some? then s.row.value.attempts else 0 }

  /** A workflow that has finished stays finished, whatever recoveries are under way or still to come. */
  lemma {:induction false} FinishedStays(max: nat, ls: seq<Label>, more: seq<Label>)
    requires Run(max, ls).row.Some? && Run(max, ls).row.value.status.Finished?
    ensures Run(max, ls + more).row.Some? && Run(max, ls + more).row.value.status.Finished?
    decreases |more|
  {
    if more == [] {
      assert ls + more == ls;
    } else {
      var n := |more| - 1;
      assert (ls + more)[..|ls + more| - 1] == ls + more[..n];
      FinishedStays(max, ls, more[..n]);
    }
  }

  /** Neither claimed nor finished. */
  predicate Waiting(ls: seq<Label>) {
    forall i :: 0 <= i < |ls| ==> !ls[i].Claim? && !ls[i].Finish?
  }

  /** A workflow that was queued stays queued until it is claimed, whatever recoveries meet it. */
  lemma {:induction false} QueuedUntilClaimed(max: nat, ls: seq<Label>)
    requires ls != [] && ls[0] == Start(true) && Waiting(ls)
    ensures Run(max, ls).row.Some? && Run(max, ls).row.value.status.Enqueued?
  {
    var n := |ls| - 1;
    if n > 0 {
      assert ls[..n][0] == ls[0];
      QueuedUntilClaimed(max, ls[..n]);
    } else {
      assert ls[..0] == [] && ls == [ls[0]];
    }
  }

  /** A workflow that was not queued is pending from its start. */
  lemma {:induction false} ClaimedIsPending(max: nat, ls: seq<Label>)
    requires ls != [] && ls[0] == Start(true) && Waiting(ls)
    ensures Run(max, [Start(false)]).row == Some(Row(Pending, 0))
    ensures Run(max, ls + [Claim]).row == Some(Row(Pending, Attempts(Run(max, ls))))
    ensures Run(max, ls + [Claim, Finish]).row == Some(Row(Finished, Attempts(Run(max, ls))))
  {
    QueuedUntilClaimed(max, ls);
    assert [Start(false)][..0] == [];
    assert (ls + [Claim])[..|ls|] == ls && (ls + [Claim, Finish])[..|ls| + 1] == ls + [Claim];
  }

  // ---- what is counted --------------------------------------------------------------------------

  /** How many recoveries have reached their first statement. */
  function Recoveries(max: nat, ls: seq<Label>): nat {
    if ls == [] then 0
    else
      var n := |ls| - 1;
      Recoveries(max, ls[..n]) + if ls[n].Count? && CanStep(Run(max, ls[..n]), ls[n]) then 1 else 0
  }

  /** ATTEMPTS ARE RECOVERIES: in every run the attempts of a workflow are the number of its recoveries, however often
      it was started otherwise. */
  lemma {:induction false} AttemptsAreRecoveries(max: nat, ls: seq<Label>)
    ensures Attempts(Run(max, ls)) == Recoveries(max, ls)
  {
    if ls != [] { AttemptsAreRecoveries(max, ls[..|ls| - 1]); }
  }

  // ---- how often the body is entered ------------------------------------------------------------

  /** Each recovery was given a count of its own; those that entered were below the limit. */
  ghost predicate CountsOwned(max: nat, s: System) {
    && (s.row.None? ==> s.passes == map[] && s.entered == {})
    && (forall x :: x in s.passes ==> 0 < s.passes[x] <= Attempts(s) && s.passes[x] !in s.entered)
    && (forall x, y :: x in s.passes && y in s.passes && x != y ==> s.passes[x] != s.passes[y])
    && (forall n :: n in s.entered ==> 0 < n <= Attempts(s) && n < max)
  }

  lemma CountsPass(max: nat, s: System, x: nat)
    requires CountsOwned(max, s)
    ensures CountsOwned(max, Step(max, s, Count(x)))
  {
    var s' := Step(max, s, Count(x));
    if CanStep(s, Count(x)) {
      assert s'.passes[x] == Attempts(s') == Attempts(s) + 1;
      assert forall y :: y in s.passes ==> s'.passes[y] == s.passes[y];
    }
  }

  lemma CountsEnd(max: nat, s: System, l: Label)
    requires CountsOwned(max, s) && (l.Judge? || l.Crash?)
    ensures CountsOwned(max, Step(max, s, l))
  {
  }

  lemma CountsStep(max: nat, s: System, l: Label)
    requires CountsOwned(max, s)
    ensures CountsOwned(max, Step(max, s, l))
  {
    if l.Count? {
      CountsPass(max, s, l.x);
    } else if l.Judge? || l.Crash? {
      CountsEnd(max, s, l);
    }
  }

  lemma {:induction false} CountsInRuns(max: nat, ls: seq<Label>)
    ensures CountsOwned(max, Run(max, ls))
  {
    if ls != [] {
      CountsInRuns(max, ls[..|ls| - 1]);
      CountsStep(max, Run(max, ls[..|ls| - 1]), ls[|ls| - 1]);
    }
  }

  lemma {:induction false} SmallSet(ns: set<nat>, bound: nat)
    requires forall n :: n in ns ==> 0 < n <= bound
    ensures |ns| <= bound
  {
    if bound == 0 {
      forall n ensures n !in ns {}
      assert ns == {};
    } else {
      SmallSet(ns - {bound}, bound - 1);
    }
  }

  /** Every entry of a recovery adds a count, so the set of counts is as large as the number of entries. */
  lemma EachEntryCounts(max: nat, ls: seq<Label>, x: nat)
    requires CanStep(Run(max, ls), Judge(x)) && !Exhausted(Run(max, ls).passes[x], max, true)
    ensures |Step(max, Run(max, ls), Judge(x)).entered| == |Run(max, ls).entered| + 1
  {
    CountsInRuns(max, ls);
  }

  /** BOUND: however recoveries overlap and wherever they crash, fewer than the limit ever enter the body. */
  lemma EntriesAreBounded(max: nat, ls: seq<Label>)
    requires max > 0
    ensures |Run(max, ls).entered| <= max - 1
    ensures |Run(max, ls).entered| <= Attempts(Run(max, ls))
  {
    CountsInRuns(max, ls);
    SmallSet(Run(max, ls).entered, max - 1);
    SmallSet(Run(max, ls).entered, Attempts(Run(max, ls)));
  }

  // ---- one recovery at a time -------------------------------------------------------------------

  /** A recovery counts only a pending workflow, and no two recoveries overlap. */
  predicate Alone(s: System, l: Label) {
    l.Count? && s.row.Some? ==> s.row.value.status.Pending? && s.passes == map[]
  }

  ghost predicate AloneRun(max: nat, ls: seq<Label>) {
    forall n :: 0 <= n < |ls| ==> Alone(Run(max, ls[..n]), ls[n])
  }

  /** The attempts of a workflow that is pending, or not yet put aside by the recovery under way. */
  ghost predicate AloneInv(max: nat, s: System) {
    && |s.passes| <= 1
    && (forall x :: x in s.passes ==> s.passes[x] == Attempts(s))
    && Attempts(s) <= max + s.cuts
    && (s.passes != map[] ==> s.row.Some? && !s.row.value.status.Enqueued?)
    && (s.row.Some? && s.passes == map[] && (s.row.value.status.Pending? || s.row.value.status.Enqueued?) ==>
          Attempts(s) < max + s.cuts)
  }

  lemma AloneStep(max: nat, s: System, l: Label)
    requires max > 0 && AloneInv(max, s) && Alone(s, l)
    ensures AloneInv(max, Step(max, s, l))
  {
    if CanStep(s, l) && (l.Judge? || l.Crash?) {
      OnlyPass(s.passes, l.x);
    }
  }

  lemma OnlyPass(passes: map<nat, nat>, x: nat)
    requires |passes| <= 1 && x in passes
    ensures passes - {x} == map[]
  {
    assert |passes| == |passes.Keys|;
    assert |passes.Keys - {x}| == |passes.Keys| - 1;
    assert (passes - {x}).Keys == passes.Keys - {x};
  }

  lemma {:induction false} AloneInRuns(max: nat, ls: seq<Label>)
    requires max > 0 && AloneRun(max, ls)
    ensures AloneInv(max, Run(max, ls))
  {
    if ls != [] {
      var n := |ls| - 1;
      var p := ls[..n];
      assert AloneRun(max, p) by {
        forall k | 0 <= k < |p| ensures Alone(Run(max, p[..k]), p[k]) {
          assert p[..k] == ls[..k];
        }
      }
      AloneInRuns(max, p);
      assert Alone(Run(max, ls[..n]), ls[n]);
      AloneStep(max, Run(max, p), ls[n]);
    }
  }

  /** DEAD LETTERS: with one recovery at a time, the attempts never pass the limit by more than the recoveries cut
      off between their statements; with none cut off, a pending workflow at rest has attempts left. */
  lemma {:induction false} PendingHasAttemptsLeft(max: nat, ls: seq<Label>)
    requires max > 0 && AloneRun(max, ls)
    ensures
      var s := Run(max, ls);
      && Attempts(s) <= max + s.cuts
      && (s.cuts == 0 && s.passes == map[] && s.row.Some? && s.row.value.status.Pending? ==> s.row.value.attempts < max)
  {
    AloneInRuns(max, ls);
  }

  // ---- recoveries that overlap ------------------------------------------------------------------

  /** A workflow is not recovered before the queue has marked it pending. */
  predicate AfterClaim(s: System, l: Label) {
    l.Count? && s.row.Some? ==> !s.row.value.status.Enqueued?
  }

  ghost predicate ClaimedRun(max: nat, ls: seq<Label>) {
    forall n :: 0 <= n < |ls| ==> AfterClaim(Run(max, ls[..n]), ls[n])
  }

  predicate SomeExhausted(max: nat, passes: map<nat, nat>) {
    exists x :: x in passes && passes[x] >= max
  }

  /** A pending workflow without attempts left has a recovery that will put it aside, or one that was cut off. */
  ghost predicate CutInv(max: nat, s: System) {
    && (s.row.None? || s.row.value.status.Enqueued? ==> Attempts(s) == 0 && s.passes == map[] && s.cuts == 0)
    && (forall x :: x in s.passes ==> s.passes[x] <= Attempts(s))
    && (s.cuts > 0 ==> Attempts(s) >= max)
    && (s.row.Some? && s.row.value.status.Pending? && s.row.value.attempts >= max ==>
          s.cuts > 0 || SomeExhausted(max, s.passes))
  }

  lemma CutStep(max: nat, s: System, l: Label)
    requires max > 0 && CutInv(max, s) && AfterClaim(s, l)
    ensures CutInv(max, Step(max, s, l))
  {
    var s' := Step(max, s, l);
    if CanStep(s, l) && SomeExhausted(max, s.passes) && !s'.row.value.status.Finished? {
      var y :| y in s.passes && s.passes[y] >= max;
      assert l.Count? ==> s'.passes[y] == s.passes[y];
      assert (l.Judge? || l.Crash?) && l.x != y ==> s'.passes[y] == s.passes[y];
    } else if CanStep(s, l) && l.Count? {
      assert l.x in s'.passes;
    }
  }

  lemma {:induction false} CutInRuns(max: nat, ls: seq<Label>)
    requires max > 0 && ClaimedRun(max, ls)
    ensures CutInv(max, Run(max, ls))
  {
    if ls != [] {
      var n := |ls| - 1;
      var p := ls[..n];
      assert ClaimedRun(max, p) by {
        forall k | 0 <= k < |p| ensures AfterClaim(Run(max, p[..k]), p[k]) {
          assert p[..k] == ls[..k];
        }
      }
      CutInRuns(max, p);
      assert AfterClaim(Run(max, ls[..n]), ls[n]);
      CutStep(max, Run(max, p), ls[n]);
    }
  }

  /** LEFT PENDING: however recoveries overlap and wherever they crash, a workflow that is pending with no recovery
      under way has used up its attempts if and only if some recovery was cut off after using up the last. */
  lemma {:induction false} PendingExhaustedIffCut(max: nat, ls: seq<Label>)
    requires max > 0 && ClaimedRun(max, ls)
    ensures
      var s := Run(max, ls);
      s.passes == map[] && s.row.Some? && s.row.value.status.Pending? ==>
        (s.row.value.attempts >= max <==> s.cuts > 0)
  {
    CutInRuns(max, ls);
  }

  /** Such a workflow does not run again: the next recovery that is not cut off puts it aside. */
  lemma NextRecoveryPutsAside(max: nat, s: System, x: nat)
    requires s.row.Some? && s.row.value.status.Pending? && s.row.value.attempts >= max && x !in s.passes
    ensures Step(max, Step(max, s, Count(x)), Judge(x)).row == Some(Row(RetriesExceeded, s.row.value.attempts + 1))
    ensures Step(max, Step(max, s, Count(x)), Judge(x)).entered == s.entered
  {
    var t := Step(max, s, Count(x));
    assert t.passes[x] == s.row.value.attempts + 1;
  }

  /** A PENDING WORKFLOW WITHOUT ATTEMPTS LEFT: one recovery, stopped between its two statements. */
  lemma PendingWithoutAttempts()
    ensures
      var ls := [Start(false), Count(0), Crash(0)];
      Run(1, ls).row == Some(Row(Pending, 1)) && Run(1, ls).passes == map[]
  {
    var a, b, c := [Start(false)], [Start(false), Count(0)], [Start(false), Count(0), Crash(0)];
    assert a[..0] == [] && b[..1] == a && c[..2] == b;
    assert Run(1, a) == System(Some(Row(Pending, 0)), map[], {}, 0);
    assert Run(1, b) == System(Some(Row(Pending, 1)), map[0 := 1], {}, 0);
  }

  // ---- the first dispatch of a queued workflow --------------------------------------------------

  predicate Uncounted(ls: seq<Label>) {
    forall i :: 0 <= i < |ls| ==> !ls[i].Count?
  }

  lemma {:induction false} NothingCounted(max: nat, ls: seq<Label>)
    requires Uncounted(ls)
    ensures Attempts(Run(max, ls)) == 0 && Run(max, ls).passes == map[] && Run(max, ls).entered == {}
  {
    if ls != [] { NothingCounted(max, ls[..|ls| - 1]); }
  }

  /** Nothing but its own end ends a recovery. */
  predicate Leaves(ls: seq<Label>, x: nat) {
    forall i :: 0 <= i < |ls| ==> ls[i] != Judge(x) && ls[i] != Crash(x)
  }

  lemma {:induction false} PassStays(max: nat, ls: seq<Label>, more: seq<Label>, x: nat)
    requires x in Run(max, ls).passes && Leaves(more, x)
    ensures x in Run(max, ls + more).passes && Run(max, ls + more).passes[x] == Run(max, ls).passes[x]
    ensures Run(max, ls + more).row.Some? || Run(max, ls).row.None?
  {
    if more == [] {
      assert ls + more == ls;
    } else {
      var n := |more| - 1;
      assert (ls + more)[..|ls + more| - 1] == ls + more[..n];
      PassStays(max, ls, more[..n], x);
    }
  }

  /** Dispatching a queued workflow counts as a recovery.  In every run whose first count follows a claim, and
      whatever happens before that recovery is judged, it enters the body if and only if the limit is at least two;
      otherwise no recovery ever enters it, and it is put aside if it is still pending. */
  lemma DispatchRunsIffTwoAllowed(max: nat, before: seq<Label>, x: nat, more: seq<Label>)
    requires max > 0 && Uncounted(before) && Leaves(more, x)
    requires Run(max, before).row.Some? && Run(max, before).row.value.status.Pending?
    ensures
      var s := Run(max, before + [Count(x)] + more);
      var t := Step(max, s, Judge(x));
      && t == Run(max, before + [Count(x)] + more + [Judge(x)])
      && (1 in t.entered <==> max >= 2)
      && (max == 1 ==> t.entered == {} && s.row.Some? && t.row == Some(PutAside(s.row.value)))
  {
    var c := before + [Count(x)];
    var ls := c + more + [Judge(x)];
    NothingCounted(max, before);
    assert c[..|c| - 1] == before;
    PassStays(max, c, more, x);
    assert ls[..|ls| - 1] == c + more;
    CountsInRuns(max, c + more);
    if max == 1 { EntriesAreBounded(max, ls); }
  }

  // ---- the operations on the table --------------------------------------------------------------

  class StatusTable {
    var rows: map<WfId, Row>

    function Get(wf: WfId): Option<Row>
      reads this
    {
      if wf in rows then Some(rows[wf]) else None
    }

    /** Both statements, without interruption; whether the workflow may run. */
    method InitWorkflowStatus(wf: WfId, status: Status, recovery: bool, max: nat) returns (ok: bool)
      modifies this
      ensures
        var r := Counted(old(Get(wf)), status, recovery);
        && ok == !Exhausted(r.attempts, max, recovery)
        && rows == old(rows)[wf := if ok then r else PutAside(r)]
      ensures wf !in old(rows) && (max > 0 || !recovery) ==> ok && rows == old(rows)[wf := Row(status, 0)]
      ensures wf in old(rows) && !recovery ==> ok && rows == old(rows)
      ensures wf in old(rows) && recovery ==>
        var was := old(rows)[wf];
        && (ok <==> was.attempts + 1 < max)
        && rows == old(rows)[wf := Row(if !ok && was.status.Pending? then RetriesExceeded else was.status,
                                       was.attempts + 1)]
    {
      if wf in rows {
        if recovery {
          rows := rows[wf := rows[wf].(attempts := rows[wf].attempts + 1)];
        }
      } else {
        rows := rows[wf := Row(status, 0)];
      }
      var attempts := rows[wf].attempts;
      if attempts >= max && recovery {
        if rows[wf].status.Pending? {
          rows := rows[wf := rows[wf].(status := RetriesExceeded)];
        }
        assert rows == old(rows)[wf := PutAside(Counted(old(Get(wf)), status, recovery))];
        return false;
      }
      assert rows == old(rows)[wf := Counted(old(Get(wf)), status, recovery)];
      ok := true;
    }

    /** One pass over the pending workflows of executors, which may be listed more than once: each recovery uses
        an attempt; those within the limit run, a workflow without attempts left is put aside, and a recovery that
        fails does not stop the pass. */
    method RecoverPendingWorkflows(pending: seq<WfId>, max: nat) returns (running: seq<WfId>)
      requires forall w :: w in pending ==> w in rows
      modifies this
      ensures rows.Keys == old(rows).Keys
      ensures forall w :: w in rows ==> rows[w] == Recovered(old(rows)[w], multiset(pending)[w], max)
      ensures forall w :: w in rows ==>
        multiset(running)[w] == Allowed(old(rows)[w].attempts, multiset(pending)[w], max)
    {
      running := [];
      for i := 0 to |pending|
        invariant Passed(old(rows), rows, pending[..i], running, max)
      {
        var w := pending[i];
        ghost var before := rows;
        assert pending[..i + 1] == pending[..i] + [w];
        PassOne(old(rows), before, pending[..i], running, w, max);
        var ok := InitWorkflowStatus(w, Pending, true, max);
        if ok {
          running := running + [w];
        }
      }
      assert pending[..|pending|] == pending;
    }
  }

  /** What the recoveries in `done` have made of the rows, and which of them run. */
  ghost predicate Passed(was: map<WfId, Row>, now: map<WfId, Row>, done: seq<WfId>, running: seq<WfId>, max: nat) {
    && now.Keys == was.Keys
    && (forall w :: w in now ==> now[w] == Recovered(was[w], multiset(done)[w], max))
    && (forall w :: w in now ==> multiset(running)[w] == Allowed(was[w].attempts, multiset(done)[w], max))
  }

  lemma PassOne(was: map<WfId, Row>, now: map<WfId, Row>, done: seq<WfId>, running: seq<WfId>, w: WfId, max: nat)
    requires Passed(was, now, done, running, max) && w in now
    ensures
      var c := Counted(Some(now[w]), Pending, true);
      var ok := !Exhausted(c.attempts, max, true);
      Passed(was, now[w := if ok then c else PutAside(c)], done + [w], if ok then running + [w] else running, max)
  {
    PassedOverAgain(was[w], multiset(done)[w], max);
    forall v: WfId ensures multiset(done + [w])[v] == multiset(done)[v] + (if v == w then 1 else 0) {}
    forall v: WfId ensures multiset(running + [w])[v] == multiset(running)[v] + (if v == w then 1 else 0) {}
  }

  lemma PassedOverAgain(r: Row, n: nat, max: nat)
    ensures
      var c := Counted(Some(Recovered(r, n, max)), Pending, true);
      var ok := !Exhausted(c.attempts, max, true);
      && Recovered(r, n + 1, max) == (if ok then c else PutAside(c))
      && Allowed(r.attempts, n + 1, max) == Allowed(r.attempts, n, max) + (if ok then 1 else 0)
  {
  }

  /** The row after a number of recoveries. */
  function Recovered(r: Row, n: nat, max: nat): Row {
    Row(if n == 0 || r.attempts + n < max then r.status else PutAside(r).status, r.attempts + n)
  }

  /** How many of a number of recoveries run. */
  function Allowed(attempts: nat, n: nat, max: nat): nat {
    if attempts + n < max then n else if attempts < max then max - 1 - attempts else 0
  }
}
