/** Runs of the workflow queue: any number of dispatchers whose claim transactions overlap under
    snapshot isolation, among enqueues, completions, cancellations and garbage collections.

    A claim transaction reads its clock, takes its snapshot later, decides on the snapshot alone, and
    commits only if none of the rows it writes has changed since. */
module QueueRuns {
  import opened Options
  import opened WorkflowQueue

  /** The tables, and the largest creation time handed out so far. */
  datatype Stamp = Stamp(t: Tables, newest: int)

  /** A dispatcher busy with one queue; an open one has decided, on its snapshot, which workflows to
      claim.  `mark` is a history variable: the number of claims in the log when the snapshot was taken. */
  datatype Dispatcher =
    | Arrived(queue: string, now: int)
    | Open(queue: string, now: int, snap: Stamp, ids: seq<WfId>, mark: nat)
    | Sweeping(queue: string, now: int)

  datatype Claim = Claim(wf: WfId, queue: string, created: int, time: int)

  /** `log` and `swept` are history variables: all claims in commit order, and for each queue the
      latest time whose garbage collection was carried out. */
  datatype System = System(at: Stamp, ds: map<nat, Dispatcher>, log: seq<Claim>, swept: map<string, int>)

  datatype Label =
    | Insert(wf: WfId, st: Status)                       // a new workflow's status row
    | Enqueue(wf: WfId, queue: string, created: int)
    | Settle(wf: WfId, st: Status)                       // any later status: completion, error, cancellation
    | Dequeue(wf: WfId, now: int)
    | Arrive(x: nat, queue: string, now: int)
    | Snapshot(x: nat, listed: seq<WfId>)
    | Commit(x: nat)
    | Sweep(x: nat)
    | Abandon(x: nat)                                    // serialization failure, early return or crash

  type Config = string -> Limits

  function Initial(): System {
    System(Stamp(Tables(map[], map[]), 0), map[], [], map[])
  }

  /** The row a transaction saw is still what it saw, and its workflow is still enqueued. */
  predicate Fresh(t: Tables, snap: Tables, w: WfId) {
    && w in snap.rows && w in t.rows && t.rows[w] == snap.rows[w]
    && w in t.status && t.status[w].Enqueued?
  }

  ghost predicate CanStep(cfg: Config, s: System, l: Label) {
    var t := s.at.t;
    match l
    case Insert(wf, st) => wf !in t.status
    case Enqueue(wf, _, created) => wf in t.status && created > s.at.newest
    case Settle(wf, st) => wf in t.status && !st.Enqueued?
    case Dequeue(wf, _) => true
    case Arrive(x, _, _) => x !in s.ds
    case Snapshot(x, listed) =>
      x in s.ds && s.ds[x].Arrived? && Selects(t, s.ds[x].queue, cfg(s.ds[x].queue).concurrency, listed)
    case Commit(x) =>
      x in s.ds && s.ds[x].Open? && forall w :: w in s.ds[x].ids ==> Fresh(t, s.ds[x].snap.t, w)
    case Sweep(x) => x in s.ds && s.ds[x].Sweeping?
    case Abandon(x) => x in s.ds
  }

  function Claimed(d: Dispatcher): (r: seq<Claim>)
    requires d.Open? && forall w :: w in d.ids ==> w in d.snap.t.rows
    ensures |r| == |d.ids|
    ensures forall i :: 0 <= i < |r| ==> r[i] == Claim(d.ids[i], d.queue, d.snap.t.rows[d.ids[i]].created, d.now)
  {
    seq(|d.ids|, i requires 0 <= i < |d.ids| => Claim(d.ids[i], d.queue, d.snap.t.rows[d.ids[i]].created, d.now))
  }

  /** One step; a label that is not enabled changes nothing, so every label sequence is a run. */
  ghost function Step(cfg: Config, s: System, l: Label): System {
    if !CanStep(cfg, s, l) then s else
      var t := s.at.t;
      match l
      case Insert(wf, st) => s.(at := s.at.(t := t.(status := t.status[wf := st])))
      case Enqueue(wf, queue, created) =>
        s.(at := Stamp(if wf in t.rows then t else t.(rows := t.rows[wf := Row(queue, created, None, None)]), created))
      case Settle(wf, st) => s.(at := s.at.(t := t.(status := t.status[wf := st])))
      case Dequeue(wf, now) =>
        if wf in t.rows then s.(at := s.at.(t := Completed(t, wf, cfg(t.rows[wf].queue), now))) else s
      case Arrive(x, queue, now) => s.(ds := s.ds[x := Arrived(queue, now)])
      case Snapshot(x, listed) =>
        var d := s.ds[x];
        s.(ds := s.ds[x := Open(d.queue, d.now, s.at, Claims(t, d.queue, cfg(d.queue), d.now, listed), |s.log|)])
      case Commit(x) =>
        var d := s.ds[x];
        s.(at := s.at.(t := Marked(t, d.ids, d.now)),
           ds := s.ds[x := Sweeping(d.queue, d.now)],
           log := s.log + Claimed(d))
      case Sweep(x) =>
        var d := s.ds[x];
        s.(at := s.at.(t := Swept(t, d.queue, cfg(d.queue), d.now)),
           ds := s.ds - {x},
           swept := s.swept[d.queue := if d.queue in s.swept && s.swept[d.queue] > d.now then s.swept[d.queue]
                                       else d.now])
      case Abandon(x) => s.(ds := s.ds - {x})
  }

  ghost function Run(cfg: Config, ls: seq<Label>): System {
    if ls == [] then Initial() else Step(cfg, Run(cfg, ls[..|ls| - 1]), ls[|ls| - 1])
  }

  // ---- how the tables change over time ----------------------------------------------------------

  ghost predicate Sound(a: Stamp) {
    && DistinctTimes(a.t)
    && forall w :: w in a.t.rows ==> w in a.t.status && a.t.rows[w].created <= a.newest
  }

  /** A row that is still there has only been started or completed; any other row is newer. */
  predicate RowLater(a: Stamp, b: Stamp, w: WfId)
    requires w in b.t.rows
  {
    if w in a.t.rows && a.t.rows[w].created == b.t.rows[w].created then
      && a.t.rows[w].queue == b.t.rows[w].queue
      && (a.t.rows[w].started.Some? ==> b.t.rows[w].started == a.t.rows[w].started)
      && (a.t.rows[w].completed.Some? ==> b.t.rows[w].completed.Some?)
    else b.t.rows[w].created > a.newest
  }

  /** `b` can follow `a`: no workflow is enqueued again, no start or completion is undone. */
  ghost predicate Later(a: Stamp, b: Stamp) {
    && a.newest <= b.newest
    && (forall w :: w in b.t.rows ==> RowLater(a, b, w))
    && (forall w :: w in a.t.status ==> w in b.t.status && (b.t.status[w].Enqueued? ==> a.t.status[w].Enqueued?))
  }

  lemma LaterTransitive(a: Stamp, b: Stamp, c: Stamp)
    requires Sound(a) && Later(a, b) && Later(b, c)
    ensures Later(a, c)
  {
    forall w | w in c.t.rows ensures RowLater(a, c, w) {
      assert RowLater(b, c, w);
      if w in b.t.rows { assert RowLater(a, b, w); }
    }
  }

  /** What an open transaction has decided: oldest claimable rows first, skipping none, within both limits. */
  ghost predicate DecidedWell(cfg: Config, d: Dispatcher)
    requires d.Open?
  {
    var t, lim := d.snap.t, cfg(d.queue);
    && Sound(d.snap)
    && (forall w :: w in d.ids ==> Claimable(t, d.queue, w))
    && InOrder(t, d.ids)
    && (forall v, w :: v in d.ids && Claimable(t, d.queue, w) && Before(t, w, v) ==> w in d.ids)
    && (lim.concurrency.Some? ==>
          forall w :: w in d.ids ==> |Older(t, d.queue, t.rows[w].created)| < lim.concurrency.value)
    && (lim.rate.Some? && d.ids != [] ==> |Recent(t, d.queue, lim, d.now)| + |d.ids| <= lim.rate.value.limit)
  }

  lemma SnapshotDecidesWell(cfg: Config, s: System, x: nat, listed: seq<WfId>)
    requires Sound(s.at) && CanStep(cfg, s, Snapshot(x, listed))
    ensures DecidedWell(cfg, Step(cfg, s, Snapshot(x, listed)).ds[x])
  {
    var d := s.ds[x];
    ClaimFacts(s.at.t, d.queue, cfg(d.queue), d.now, listed);
  }

  /** The workflows a commit marks are unstarted, uncompleted and enqueued when it commits. */
  lemma CommitMarksClaimable(cfg: Config, s: System, x: nat)
    requires CanStep(cfg, s, Commit(x)) && DecidedWell(cfg, s.ds[x])
    ensures forall w :: w in s.ds[x].ids ==> Claimable(s.at.t, s.ds[x].queue, w)
  {
  }

  lemma MarkedLater(a: Stamp, ids: seq<WfId>, now: int)
    requires Sound(a)
    requires forall w :: w in ids ==> w in a.t.rows && a.t.rows[w].started.None? && w in a.t.status
    ensures Later(a, a.(t := Marked(a.t, ids, now))) && Sound(a.(t := Marked(a.t, ids, now)))
  {
    var b := a.(t := Marked(a.t, ids, now));
    MarkedRows(a.t, ids, now);
    forall w ensures w in b.t.status <==> w in a.t.status
      ensures w in a.t.status && b.t.status[w].Enqueued? ==> a.t.status[w].Enqueued?
    {
      MarkedStatus(a.t, ids, now, w);
    }
  }

  ghost predicate AllDecidedWell(cfg: Config, s: System) {
    forall x :: x in s.ds && s.ds[x].Open? ==> DecidedWell(cfg, s.ds[x])
  }

  lemma CompletedLater(a: Stamp, wf: WfId, lim: Limits, now: int)
    requires Sound(a) && wf in a.t.rows
    ensures Later(a, a.(t := Completed(a.t, wf, lim, now))) && Sound(a.(t := Completed(a.t, wf, lim, now)))
  {
  }

  lemma SweptLater(a: Stamp, name: string, lim: Limits, now: int)
    requires Sound(a)
    ensures Later(a, a.(t := Swept(a.t, name, lim, now))) && Sound(a.(t := Swept(a.t, name, lim, now)))
  {
  }

  lemma StepIsLater(cfg: Config, s: System, l: Label)
    requires Sound(s.at) && AllDecidedWell(cfg, s)
    ensures Later(s.at, Step(cfg, s, l).at) && Sound(Step(cfg, s, l).at)
  {
    if CanStep(cfg, s, l) {
      match l
      case Commit(x) =>
        CommitMarksClaimable(cfg, s, x);
        MarkedLater(s.at, s.ds[x].ids, s.ds[x].now);
      case Dequeue(wf, now) =>
        if wf in s.at.t.rows { CompletedLater(s.at, wf, cfg(s.at.t.rows[wf].queue), now); }
      case Sweep(x) => SweptLater(s.at, s.ds[x].queue, cfg(s.ds[x].queue), s.ds[x].now);
      case _ =>
    }
  }

  // ---- overlapping claims -----------------------------------------------------------------------

  ghost predicate ClaimedSince(s: System, queue: string, mark: nat) {
    exists i :: mark <= i < |s.log| && s.log[i].queue == queue
  }

  /** An open transaction sees a past of the tables; once another claim on its queue has committed, the
      first row it wants to write is no longer fresh. */
  ghost predicate OpenOk(cfg: Config, s: System, d: Dispatcher) {
    d.Open? ==>
      && DecidedWell(cfg, d) && Later(d.snap, s.at) && d.mark <= |s.log|
      && (ClaimedSince(s, d.queue, d.mark) && d.ids != [] ==> !Fresh(s.at.t, d.snap.t, d.ids[0]))
  }

  ghost predicate OpensOk(cfg: Config, s: System) {
    && Sound(s.at)
    && forall x :: x in s.ds ==> OpenOk(cfg, s, s.ds[x])
  }

  /** A row that is not fresh never becomes fresh again. */
  lemma StaysStale(snap: Stamp, a: Stamp, b: Stamp, queue: string, w: WfId)
    requires Later(snap, a) && Later(a, b) && Sound(snap)
    requires Claimable(snap.t, queue, w) && Fresh(b.t, snap.t, w)
    ensures Fresh(a.t, snap.t, w)
  {
    assert RowLater(a, b, w);
    assert RowLater(snap, a, w);
  }

  /** A row claimable now that is no newer than a row of the snapshot was claimable in the snapshot. */
  lemma ClaimableBefore(snap: Stamp, a: Stamp, queue: string, w: WfId)
    requires Later(snap, a) && Sound(snap) && Claimable(a.t, queue, w) && a.t.rows[w].created <= snap.newest
    ensures Claimable(snap.t, queue, w) && snap.t.rows[w].created == a.t.rows[w].created
  {
    assert RowLater(snap, a, w);
  }

  lemma NoneBefore(t: Tables, r: seq<WfId>, w: WfId)
    requires r != [] && InOrder(t, r) && w in t.rows && Before(t, w, r[0])
    ensures w !in r
  {
    assert forall k :: 0 <= k < |r| ==> t.rows[r[0]].created <= t.rows[r[k]].created;
  }

  /** The first workflow a transaction decides on, while fresh, is the oldest claimable one of its queue. */
  lemma FirstIsOldest(cfg: Config, s: System, d: Dispatcher, w: WfId)
    requires d.Open? && OpenOk(cfg, s, d) && d.ids != []
    requires Fresh(s.at.t, d.snap.t, d.ids[0]) && Claimable(s.at.t, d.queue, w)
    ensures Claimable(s.at.t, d.queue, d.ids[0])
    ensures s.at.t.rows[d.ids[0]].created <= s.at.t.rows[w].created
  {
    var r := d.ids;
    assert r[0] in r && Claimable(d.snap.t, d.queue, r[0]);
    if s.at.t.rows[w].created < s.at.t.rows[r[0]].created {
      ClaimableBefore(d.snap, s.at, d.queue, w);
      NoneBefore(d.snap.t, r, w);
      assert false;
    }
  }

  /** Two overlapping transactions that both want to claim want the same oldest workflow first. */
  lemma SameFirst(cfg: Config, s: System, d: Dispatcher, e: Dispatcher)
    requires Sound(s.at) && d.Open? && e.Open? && d.queue == e.queue && OpenOk(cfg, s, d) && OpenOk(cfg, s, e)
    requires d.ids != [] && e.ids != []
    requires Fresh(s.at.t, d.snap.t, d.ids[0]) && Fresh(s.at.t, e.snap.t, e.ids[0])
    ensures d.ids[0] == e.ids[0]
  {
    assert Claimable(d.snap.t, d.queue, d.ids[0]) by { assert d.ids[0] in d.ids; }
    assert Claimable(e.snap.t, e.queue, e.ids[0]) by { assert e.ids[0] in e.ids; }
    FirstIsOldest(cfg, s, d, e.ids[0]);
    FirstIsOldest(cfg, s, e, d.ids[0]);
  }

  lemma CommitStalesOthers(cfg: Config, s: System, x: nat, d: Dispatcher)
    requires OpensOk(cfg, s) && CanStep(cfg, s, Commit(x)) && OpenOk(cfg, s, d) && d.Open?
    requires d.queue == s.ds[x].queue && s.ds[x].ids != [] && d.ids != []
    ensures !Fresh(Step(cfg, s, Commit(x)).at.t, d.snap.t, d.ids[0])
  {
    var e := s.ds[x];
    var s' := Step(cfg, s, Commit(x));
    StepIsLater(cfg, s, Commit(x));
    var w := d.ids[0];
    if Fresh(s'.at.t, d.snap.t, w) {
      StaysStale(d.snap, s.at, s'.at, d.queue, w);
      SameFirst(cfg, s, d, e);
      MarkedStatus(s.at.t, e.ids, e.now, w);
      assert false;
    }
  }

  /** The log only grows, and only by what a commit claims. */
  lemma LogGrows(cfg: Config, s: System, l: Label, i: nat)
    requires i < |Step(cfg, s, l).log|
    ensures i < |s.log| ==> Step(cfg, s, l).log[i] == s.log[i]
    ensures i >= |s.log| ==>
      && l.Commit? && CanStep(cfg, s, l) && i - |s.log| < |s.ds[l.x].ids|
      && Step(cfg, s, l).log[i] == Claimed(s.ds[l.x])[i - |s.log|]
  {
  }

  lemma ClaimsComeFromCommits(cfg: Config, s: System, l: Label, queue: string, mark: nat)
    requires ClaimedSince(Step(cfg, s, l), queue, mark) && !ClaimedSince(s, queue, mark)
    ensures CanStep(cfg, s, l) && l.Commit? && s.ds[l.x].queue == queue && s.ds[l.x].ids != []
  {
    var s' := Step(cfg, s, l);
    var i :| mark <= i < |s'.log| && s'.log[i].queue == queue;
    LogGrows(cfg, s, l, i);
  }

  lemma OpenStays(cfg: Config, s: System, l: Label, d: Dispatcher)
    requires OpensOk(cfg, s) && OpenOk(cfg, s, d)
    ensures OpenOk(cfg, Step(cfg, s, l), d)
  {
    var s' := Step(cfg, s, l);
    if d.Open? {
      StepIsLater(cfg, s, l);
      LaterTransitive(d.snap, s.at, s'.at);
      if ClaimedSince(s', d.queue, d.mark) && d.ids != [] {
        if ClaimedSince(s, d.queue, d.mark) {
          if Fresh(s'.at.t, d.snap.t, d.ids[0]) {
            StaysStale(d.snap, s.at, s'.at, d.queue, d.ids[0]);
          }
        } else {
          ClaimsComeFromCommits(cfg, s, l, d.queue, d.mark);
          CommitStalesOthers(cfg, s, l.x, d);
        }
      }
    }
  }

  lemma OpensStep(cfg: Config, s: System, l: Label)
    requires OpensOk(cfg, s)
    ensures OpensOk(cfg, Step(cfg, s, l))
  {
    var s' := Step(cfg, s, l);
    StepIsLater(cfg, s, l);
    forall x | x in s'.ds ensures OpenOk(cfg, s', s'.ds[x]) {
      if x in s.ds && s'.ds[x] == s.ds[x] {
        OpenStays(cfg, s, l, s.ds[x]);
      } else if l.Snapshot? && CanStep(cfg, s, l) {
        SnapshotDecidesWell(cfg, s, x, l.listed);
      }
    }
  }

  /** SNAPSHOT ISOLATION SUFFICES: a transaction that claims something commits only if no other claim
      on its queue has committed since its snapshot. */
  lemma ClaimsNeverOverlap(cfg: Config, ls: seq<Label>, x: nat)
    requires CanStep(cfg, Run(cfg, ls), Commit(x)) && Run(cfg, ls).ds[x].ids != []
    ensures !ClaimedSince(Run(cfg, ls), Run(cfg, ls).ds[x].queue, Run(cfg, ls).ds[x].mark)
  {
    OpensInRuns(cfg, ls);
  }

  lemma {:induction false} OpensInRuns(cfg: Config, ls: seq<Label>)
    ensures OpensOk(cfg, Run(cfg, ls))
  {
    if ls != [] {
      OpensInRuns(cfg, ls[..|ls| - 1]);
      OpensStep(cfg, Run(cfg, ls[..|ls| - 1]), ls[|ls| - 1]);
    }
  }
}
