/** What the workflow queue guarantees over whole runs: the concurrency limit and the order of claims. */
module QueueLimits {
  import opened Options
  import opened WorkflowQueue
  import opened QueueRuns

  // ---- concurrency ------------------------------------------------------------------------------

  /** Started rows lie within the oldest uncompleted rows of their queue. */
  ghost predicate StartedAreOldest(cfg: Config, t: Tables) {
    forall w :: w in t.rows && t.rows[w].started.Some? && t.rows[w].completed.None? ==> RankOk(cfg, t, w)
  }

  ghost predicate RankOk(cfg: Config, t: Tables, w: WfId)
    requires w in t.rows
  {
    var lim := cfg(t.rows[w].queue);
    lim.concurrency.Some? ==> |Older(t, t.rows[w].queue, t.rows[w].created)| < lim.concurrency.value
  }

  /** No uncompleted row can appear behind an existing one. */
  lemma OlderShrinks(a: Stamp, b: Stamp, queue: string, c: int)
    requires Later(a, b) && c <= a.newest
    ensures |Older(b.t, queue, c)| <= |Older(a.t, queue, c)|
  {
    forall w | w in Older(b.t, queue, c) ensures w in Older(a.t, queue, c) {
      assert RowLater(a, b, w);
    }
    SubsetCount(Older(b.t, queue, c), Older(a.t, queue, c));
  }

  lemma DecidedRank(cfg: Config, s: System, x: nat, w: WfId)
    requires OpensOk(cfg, s) && CanStep(cfg, s, Commit(x)) && w in s.ds[x].ids
    ensures w in s.at.t.rows && s.at.t.rows[w].queue == s.ds[x].queue && RankOk(cfg, s.at.t, w)
  {
    var d := s.ds[x];
    assert OpenOk(cfg, s, d);
    OlderShrinks(d.snap, s.at, d.queue, s.at.t.rows[w].created);
  }

  /** A row that is started after a step was started before it or has just been claimed. */
  lemma StartsComeFromCommits(cfg: Config, s: System, l: Label, w: WfId)
    requires OpensOk(cfg, s)
    requires
      var t' := Step(cfg, s, l).at.t;
      w in t'.rows && t'.rows[w].started.Some?
    ensures w in s.at.t.rows && s.at.t.rows[w].created == Step(cfg, s, l).at.t.rows[w].created
    ensures s.at.t.rows[w].queue == Step(cfg, s, l).at.t.rows[w].queue
    ensures s.at.t.rows[w].started.Some? || (l.Commit? && CanStep(cfg, s, l) && w in s.ds[l.x].ids)
  {
    if CanStep(cfg, s, l) && l.Commit? {
      MarkedRows(s.at.t, s.ds[l.x].ids, s.ds[l.x].now);
    }
  }

  lemma StartedStep(cfg: Config, s: System, l: Label)
    requires OpensOk(cfg, s) && StartedAreOldest(cfg, s.at.t)
    ensures StartedAreOldest(cfg, Step(cfg, s, l).at.t)
  {
    var s' := Step(cfg, s, l);
    var t, t' := s.at.t, s'.at.t;
    StepIsLater(cfg, s, l);
    forall w | w in t'.rows && t'.rows[w].started.Some? && t'.rows[w].completed.None? ensures RankOk(cfg, t', w) {
      StartsComeFromCommits(cfg, s, l, w);
      assert RowLater(s.at, s'.at, w);
      if t.rows[w].started.None? { DecidedRank(cfg, s, l.x, w); }
      assert RankOk(cfg, t, w);
      OlderShrinks(s.at, s'.at, t.rows[w].queue, t.rows[w].created);
    }
  }

  lemma {:induction false} StartedInRuns(cfg: Config, ls: seq<Label>)
    ensures StartedAreOldest(cfg, Run(cfg, ls).at.t)
  {
    if ls != [] {
      StartedInRuns(cfg, ls[..|ls| - 1]);
      OpensInRuns(cfg, ls[..|ls| - 1]);
      StartedStep(cfg, Run(cfg, ls[..|ls| - 1]), ls[|ls| - 1]);
    }
  }

  lemma {:induction false} Youngest(t: Tables, ws: set<WfId>) returns (w: WfId)
    requires ws != {} && forall v :: v in ws ==> v in t.rows
    ensures w in ws && forall v :: v in ws ==> t.rows[v].created <= t.rows[w].created
  {
    w :| w in ws;
    var rest := ws - {w};
    assert forall u :: u in ws ==> u == w || u in rest;
    if rest != {} {
      var v := Youngest(t, rest);
      if t.rows[w].created < t.rows[v].created { w := v; }
    }
  }

  lemma RunningAreFew(cfg: Config, a: Stamp, queue: string)
    requires Sound(a) && StartedAreOldest(cfg, a.t) && cfg(queue).concurrency.Some?
    ensures |Running(a.t, queue)| <= cfg(queue).concurrency.value
  {
    var all := Running(a.t, queue);
    if all != {} {
      var w := Youngest(a.t, all);
      assert RankOk(cfg, a.t, w);
      var older := Older(a.t, queue, a.t.rows[w].created);
      forall v | v in all ensures v in older + {w} {
        if v != w { assert a.t.rows[v].created != a.t.rows[w].created; }
      }
      SubsetCount(all, older + {w});
    }
  }

  /** CONCURRENCY: in every run, at most the limit's number of a queue's uncompleted rows are started,
      and they are among its oldest uncompleted rows. */
  lemma {:induction false} ConcurrencyHolds(cfg: Config, ls: seq<Label>, queue: string)
    requires cfg(queue).concurrency.Some?
    ensures |Running(Run(cfg, ls).at.t, queue)| <= cfg(queue).concurrency.value
    ensures StartedAreOldest(cfg, Run(cfg, ls).at.t)
  {
    StartedInRuns(cfg, ls);
    OpensInRuns(cfg, ls);
    RunningAreFew(cfg, Run(cfg, ls).at, queue);
  }

  // ---- slots are kept until they are given back -------------------------------------------------

  /** The workflows claimed on a queue by a step. */
  function ClaimedOn(log: seq<Claim>, queue: string): set<WfId> {
    set i | 0 <= i < |log| && log[i].queue == queue :: log[i].wf
  }

  /** The workflows that hold a slot of a queue: claimed on it by some step of the run, and not dequeued since. */
  ghost function Held(cfg: Config, ls: seq<Label>, queue: string): set<WfId> {
    if ls == [] then {}
    else
      var n := |ls| - 1;
      var before := Held(cfg, ls[..n], queue);
      if ls[n].Dequeue? then before - {ls[n].wf}
      else before + ClaimedOn(Run(cfg, ls).log[|Run(cfg, ls[..n]).log|..], queue)
  }

  lemma DequeueFreesTheSlot(cfg: Config, s: System, wf: WfId, now: int, queue: string)
    ensures Running(Step(cfg, s, Dequeue(wf, now)).at.t, queue) == Running(s.at.t, queue) - {wf}
    ensures Uncompleted(Step(cfg, s, Dequeue(wf, now)).at.t, queue) == Uncompleted(s.at.t, queue) - {wf}
  {
  }

  lemma ClaimedAre(d: Dispatcher, queue: string)
    requires d.Open? && forall w :: w in d.ids ==> w in d.snap.t.rows
    ensures ClaimedOn(Claimed(d), queue) == if d.queue == queue then set w | w in d.ids else {}
  {
    forall w | w in d.ids && d.queue == queue ensures w in ClaimedOn(Claimed(d), queue) {
      var i :| 0 <= i < |d.ids| && d.ids[i] == w;
      assert Claimed(d)[i].wf == w;
    }
  }

  lemma MarkedRun(t: Tables, ids: seq<WfId>, queue: string, now: int, name: string)
    requires forall w :: w in ids ==> Claimable(t, name, w)
    ensures Running(Marked(t, ids, now), queue) == Running(t, queue) + if name == queue then set w | w in ids else {}
  {
    MarkedRows(t, ids, now);
  }

  lemma CommitTakesSlots(cfg: Config, s: System, x: nat, queue: string)
    requires OpensOk(cfg, s) && CanStep(cfg, s, Commit(x))
    ensures
      Running(Step(cfg, s, Commit(x)).at.t, queue)
      == Running(s.at.t, queue) + ClaimedOn(Step(cfg, s, Commit(x)).log[|s.log|..], queue)
  {
    var d := s.ds[x];
    assert OpenOk(cfg, s, d);
    CommitMarksClaimable(cfg, s, x);
    ClaimedAre(d, queue);
    MarkedRun(s.at.t, d.ids, queue, d.now, d.queue);
    assert Step(cfg, s, Commit(x)).log[|s.log|..] == Claimed(d);
  }

  lemma OthersKeepSlots(cfg: Config, s: System, l: Label, queue: string)
    requires !l.Dequeue? && !(l.Commit? && CanStep(cfg, s, l))
    ensures Running(Step(cfg, s, l).at.t, queue) == Running(s.at.t, queue)
    ensures Step(cfg, s, l).log[|s.log|..] == []
  {
  }

  /** SLOTS: in every run the workflows that occupy a queue are exactly those that were claimed on it and not dequeued
      since; no sweep, no cancellation and no other dispatcher takes a slot away or adds one. */
  lemma {:induction false} SlotsAreHeld(cfg: Config, ls: seq<Label>, queue: string)
    ensures Running(Run(cfg, ls).at.t, queue) == Held(cfg, ls, queue)
  {
    if ls != [] {
      var n := |ls| - 1;
      var s, l := Run(cfg, ls[..n]), ls[n];
      SlotsAreHeld(cfg, ls[..n], queue);
      if l.Dequeue? {
        DequeueFreesTheSlot(cfg, s, l.wf, l.now, queue);
      } else if l.Commit? && CanStep(cfg, s, l) {
        OpensInRuns(cfg, ls[..n]);
        CommitTakesSlots(cfg, s, l.x, queue);
      } else {
        OthersKeepSlots(cfg, s, l, queue);
      }
    }
  }

  /** CLAIMS IN PROGRESS: in every run, of all workflows ever claimed on a queue at most the limit's number have not
      been dequeued since. */
  lemma HeldAreFew(cfg: Config, ls: seq<Label>, queue: string)
    requires cfg(queue).concurrency.Some?
    ensures |Held(cfg, ls, queue)| <= cfg(queue).concurrency.value
  {
    SlotsAreHeld(cfg, ls, queue);
    ConcurrencyHolds(cfg, ls, queue);
  }

  // ---- each workflow at most once, in the order of enqueueing -----------------------------------

  ghost predicate ClaimsDiffer(log: seq<Claim>) {
    forall i, j :: 0 <= i < j < |log| ==> log[i].wf != log[j].wf
  }

  ghost predicate ClaimsOrdered(log: seq<Claim>) {
    forall i, j :: 0 <= i < j < |log| && log[i].queue == log[j].queue ==> log[i].created < log[j].created
  }

  /** A claimed workflow is no longer enqueued, and whatever can still be claimed is newer. */
  ghost predicate ClaimsArePast(s: System) {
    forall i :: 0 <= i < |s.log| ==> ClaimIsPast(s, s.log[i])
  }

  ghost predicate ClaimIsPast(s: System, c: Claim) {
    && c.wf in s.at.t.status && !s.at.t.status[c.wf].Enqueued?
    && c.created <= s.at.newest
    && forall w :: Claimable(s.at.t, c.queue, w) ==> c.created < s.at.t.rows[w].created
  }

  ghost predicate LogOk(s: System) {
    ClaimsDiffer(s.log) && ClaimsOrdered(s.log) && ClaimsArePast(s)
  }

  lemma PastStays(a: System, b: System, c: Claim)
    requires Sound(a.at) && Later(a.at, b.at) && ClaimIsPast(a, c)
    ensures ClaimIsPast(b, c)
  {
    forall w | Claimable(b.at.t, c.queue, w) ensures c.created < b.at.t.rows[w].created {
      assert RowLater(a.at, b.at, w);
      if w in a.at.t.rows && a.at.t.rows[w].created == b.at.t.rows[w].created {
        assert Claimable(a.at.t, c.queue, w);
      }
    }
  }

  /** A claimable row that a commit does not take is newer than all it takes. */
  lemma LeftOversAreNewer(cfg: Config, s: System, x: nat, v: WfId, w: WfId)
    requires OpensOk(cfg, s) && CanStep(cfg, s, Commit(x))
    requires v in s.ds[x].ids && Claimable(s.at.t, s.ds[x].queue, w) && w !in s.ds[x].ids
    ensures v in s.at.t.rows && s.at.t.rows[v].created < s.at.t.rows[w].created
  {
    var d := s.ds[x];
    assert OpenOk(cfg, s, d);
    if s.at.t.rows[w].created <= s.at.t.rows[v].created {
      assert s.at.t.rows[w].created != s.at.t.rows[v].created;
      ClaimableBefore(d.snap, s.at, d.queue, w);
      assert Before(d.snap.t, w, v);
    }
  }

  lemma NewClaimIsPast(cfg: Config, s: System, x: nat, k: nat)
    requires OpensOk(cfg, s) && CanStep(cfg, s, Commit(x)) && k < |s.ds[x].ids|
    ensures ClaimIsPast(Step(cfg, s, Commit(x)), Claimed(s.ds[x])[k])
  {
    var d := s.ds[x];
    var c := Claimed(d)[k];
    var s' := Step(cfg, s, Commit(x));
    assert OpenOk(cfg, s, d);
    CommitMarksClaimable(cfg, s, x);
    MarkedRows(s.at.t, d.ids, d.now);
    MarkedStatus(s.at.t, d.ids, d.now, c.wf);
    forall w | Claimable(s'.at.t, d.queue, w) ensures c.created < s'.at.t.rows[w].created {
      MarkedStatus(s.at.t, d.ids, d.now, w);
      LeftOversAreNewer(cfg, s, x, c.wf, w);
    }
  }

  lemma AppendClaims(log: seq<Claim>, more: seq<Claim>)
    requires ClaimsDiffer(log) && ClaimsOrdered(log) && ClaimsDiffer(more) && ClaimsOrdered(more)
    requires forall i, j :: 0 <= i < |log| && 0 <= j < |more| ==> ClaimFollows(log[i], more[j])
    ensures ClaimsDiffer(log + more) && ClaimsOrdered(log + more)
  {
    var all := log + more;
    forall i, j | 0 <= i < j < |all|
      ensures all[i].wf != all[j].wf && (all[i].queue == all[j].queue ==> all[i].created < all[j].created)
    {
      if i < |log| <= j { assert ClaimFollows(log[i], more[j - |log|]); }
    }
  }

  predicate ClaimFollows(c: Claim, e: Claim) {
    c.wf != e.wf && (c.queue == e.queue ==> c.created < e.created)
  }

  lemma NewClaimsAmong(cfg: Config, d: Dispatcher)
    requires d.Open? && DecidedWell(cfg, d)
    ensures
      var more := Claimed(d);
      ClaimsDiffer(more) && ClaimsOrdered(more)
  {
  }

  lemma NewClaimFollows(cfg: Config, s: System, x: nat, c: Claim, k: nat)
    requires OpensOk(cfg, s) && CanStep(cfg, s, Commit(x)) && ClaimIsPast(s, c) && k < |s.ds[x].ids|
    ensures ClaimFollows(c, Claimed(s.ds[x])[k])
  {
    CommitMarksClaimable(cfg, s, x);
    assert Claimable(s.at.t, s.ds[x].queue, s.ds[x].ids[k]);
  }

  lemma NewClaimsOrdered(cfg: Config, s: System, x: nat)
    requires OpensOk(cfg, s) && CanStep(cfg, s, Commit(x)) && LogOk(s)
    ensures
      var log' := Step(cfg, s, Commit(x)).log;
      ClaimsDiffer(log') && ClaimsOrdered(log')
  {
    var d := s.ds[x];
    var more := Claimed(d);
    assert ClaimsDiffer(more) && ClaimsOrdered(more) by {
      assert OpenOk(cfg, s, d);
      NewClaimsAmong(cfg, d);
    }
    forall i, j | 0 <= i < |s.log| && 0 <= j < |more| ensures ClaimFollows(s.log[i], more[j]) {
      assert ClaimIsPast(s, s.log[i]);
      NewClaimFollows(cfg, s, x, s.log[i], j);
    }
    AppendClaims(s.log, more);
  }

  lemma PastAt(cfg: Config, s: System, l: Label, i: nat)
    requires OpensOk(cfg, s) && ClaimsArePast(s) && i < |Step(cfg, s, l).log|
    ensures ClaimIsPast(Step(cfg, s, l), Step(cfg, s, l).log[i])
  {
    LogGrows(cfg, s, l, i);
    if i < |s.log| {
      StepIsLater(cfg, s, l);
      assert ClaimIsPast(s, s.log[i]);
      PastStays(s, Step(cfg, s, l), s.log[i]);
    } else {
      NewClaimIsPast(cfg, s, l.x, i - |s.log|);
    }
  }

  lemma LogStep(cfg: Config, s: System, l: Label)
    requires OpensOk(cfg, s) && LogOk(s)
    ensures LogOk(Step(cfg, s, l))
  {
    var s' := Step(cfg, s, l);
    if CanStep(cfg, s, l) && l.Commit? {
      NewClaimsOrdered(cfg, s, l.x);
    } else {
      assert s'.log == s.log;
    }
    forall i | 0 <= i < |s'.log| ensures ClaimIsPast(s', s'.log[i]) {
      PastAt(cfg, s, l, i);
    }
  }

  lemma {:induction false} LogInRuns(cfg: Config, ls: seq<Label>)
    ensures LogOk(Run(cfg, ls))
  {
    if ls != [] {
      LogInRuns(cfg, ls[..|ls| - 1]);
      OpensInRuns(cfg, ls[..|ls| - 1]);
      LogStep(cfg, Run(cfg, ls[..|ls| - 1]), ls[|ls| - 1]);
    }
  }

  /** ORDER: in every run each workflow is claimed at most once, and the claims on a queue follow the order
      in which the workflows were enqueued. */
  lemma ClaimedOnceAndInOrder(cfg: Config, ls: seq<Label>)
    ensures ClaimsDiffer(Run(cfg, ls).log)
    ensures ClaimsOrdered(Run(cfg, ls).log)
  {
    LogInRuns(cfg, ls);
  }

  // ---- cancelled before it was claimed ----------------------------------------------------------

  /** The workflow is known and no longer enqueued. */
  predicate SettledIn(s: System, w: WfId) { w in s.at.t.status && !s.at.t.status[w].Enqueued? }

  ghost predicate ClaimedIn(s: System, w: WfId) { exists i :: 0 <= i < |s.log| && s.log[i].wf == w }

  lemma SettledStep(cfg: Config, s: System, l: Label, w: WfId)
    requires OpensOk(cfg, s) && SettledIn(s, w)
    ensures SettledIn(Step(cfg, s, l), w) && (ClaimedIn(Step(cfg, s, l), w) ==> ClaimedIn(s, w))
  {
    StepIsLater(cfg, s, l);
    if i :| 0 <= i < |Step(cfg, s, l).log| && Step(cfg, s, l).log[i].wf == w {
      LogGrows(cfg, s, l, i);
      if i < |s.log| { assert s.log[i].wf == w; }
    }
  }

  /** CANCELLED: in every run a workflow whose status is changed before it is claimed, by cancelling it or otherwise, is
      never claimed after that. */
  lemma {:induction false} CancelledIsNeverClaimed(cfg: Config, ls: seq<Label>, w: WfId, st: Status, more: seq<Label>)
    requires w in Run(cfg, ls).at.t.status && !st.Enqueued? && !ClaimedIn(Run(cfg, ls), w)
    ensures SettledIn(Run(cfg, ls + [Settle(w, st)] + more), w)
    ensures !ClaimedIn(Run(cfg, ls + [Settle(w, st)] + more), w)
    decreases |more|
  {
    var all := ls + [Settle(w, st)] + more;
    if more == [] {
      assert all[..|all| - 1] == ls;
    } else {
      var n := |more| - 1;
      assert all[..|all| - 1] == ls + [Settle(w, st)] + more[..n];
      CancelledIsNeverClaimed(cfg, ls, w, st, more[..n]);
      OpensInRuns(cfg, all[..|all| - 1]);
      SettledStep(cfg, Run(cfg, all[..|all| - 1]), more[n], w);
    }
  }
}
