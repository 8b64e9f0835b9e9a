/** The rate limit of the workflow queue over all of time: how many starts any window of one period can
    hold, although rows are deleted and snapshots are taken later than clocks are read. */
module QueueRates {
  import opened Options
  import opened WorkflowQueue
  import opened QueueRuns
  import opened QueueLimits

  /** The starts of `queue` in the window (a, a + period]. */
  function InWindow(log: seq<Claim>, queue: string, a: int, period: nat): nat {
    if log == [] then 0
    else
      var c := log[|log| - 1];
      InWindow(log[..|log| - 1], queue, a, period) + if c.queue == queue && a < c.time <= a + period then 1 else 0
  }

  /** The starts of `queue` after `lo`. */
  function After(log: seq<Claim>, queue: string, lo: int): nat {
    if log == [] then 0
    else
      var c := log[|log| - 1];
      After(log[..|log| - 1], queue, lo) + if c.queue == queue && lo < c.time then 1 else 0
  }

  lemma {:induction false} WindowWithin(log: seq<Claim>, queue: string, a: int, period: nat, lo: int)
    requires lo <= a
    ensures InWindow(log, queue, a, period) <= After(log, queue, lo)
  {
    if log != [] { WindowWithin(log[..|log| - 1], queue, a, period, lo); }
  }

  /** Claims that all start at one time are in a window together or not at all. */
  lemma {:induction false} WindowAppend(log: seq<Claim>, more: seq<Claim>, name: string, now: int,
                                        queue: string, a: int, period: nat)
    requires forall i :: 0 <= i < |more| ==> more[i].queue == name && more[i].time == now
    ensures InWindow(log + more, queue, a, period)
            == InWindow(log, queue, a, period) + if name == queue && a < now <= a + period then |more| else 0
  {
    if more == [] {
      assert log + more == log;
    } else {
      var n := |more| - 1;
      assert (log + more)[..|log + more| - 1] == log + more[..n];
      WindowAppend(log, more[..n], name, now, queue, a, period);
    }
  }

  /** Starts of distinct workflows that all lie in `ws` are no more than `ws`. */
  lemma {:induction false} AfterCounts(log: seq<Claim>, queue: string, lo: int, ws: set<WfId>)
    requires ClaimsDiffer(log)
    requires forall i :: 0 <= i < |log| && log[i].queue == queue && lo < log[i].time ==> log[i].wf in ws
    ensures After(log, queue, lo) <= |ws|
  {
    if log != [] {
      var n := |log| - 1;
      var c := log[n];
      if c.queue == queue && lo < c.time {
        AfterCounts(log[..n], queue, lo, ws - {c.wf});
      } else {
        AfterCounts(log[..n], queue, lo, ws);
      }
    }
  }

  // ---- where past starts can be seen ------------------------------------------------------------

  /** A start of a rate-limited queue is still in its row, or older than the last garbage collection
      cared about. */
  ghost predicate StartKept(cfg: Config, s: System, c: Claim) {
    cfg(c.queue).rate.Some? ==>
      || (c.wf in s.at.t.rows && s.at.t.rows[c.wf].queue == c.queue && s.at.t.rows[c.wf].started == Some(c.time))
      || (c.queue in s.swept && c.time < s.swept[c.queue] - Period(cfg(c.queue)))
  }

  ghost predicate StartsKept(cfg: Config, s: System) {
    forall i :: 0 <= i < |s.log| ==> StartKept(cfg, s, s.log[i])
  }

  /** The snapshot of an open transaction shows every start, up to its mark, that its count is about. */
  ghost predicate SeesRecent(cfg: Config, s: System, d: Dispatcher) {
    d.Open? && cfg(d.queue).rate.Some? ==>
      forall i :: 0 <= i < d.mark && i < |s.log| && s.log[i].queue == d.queue
                  && d.now - Period(cfg(d.queue)) < s.log[i].time ==>
        s.log[i].wf in Recent(d.snap.t, d.queue, cfg(d.queue), d.now)
  }

  ghost predicate AllSeeRecent(cfg: Config, s: System) {
    forall x :: x in s.ds ==> SeesRecent(cfg, s, s.ds[x])
  }

  /** A snapshot is late by no more than `late`: no garbage collection of its queue has worked with a clock that much
      later. */
  ghost predicate LateBy(s: System, l: Label, late: nat) {
    l.Snapshot? && l.x in s.ds && s.ds[l.x].Arrived? && s.ds[l.x].queue in s.swept ==>
      s.swept[s.ds[l.x].queue] <= s.ds[l.x].now + late
  }

  ghost predicate LateRun(cfg: Config, ls: seq<Label>, late: nat) {
    forall n :: 0 <= n < |ls| ==> LateBy(Run(cfg, ls[..n]), ls[n], late)
  }

  /** A snapshot is taken in time if that is no more than a millisecond. */
  ghost predicate InTime(s: System, l: Label) { LateBy(s, l, 1) }

  ghost predicate InTimeRun(cfg: Config, ls: seq<Label>) { LateRun(cfg, ls, 1) }

  lemma KeptStays(cfg: Config, s: System, l: Label, c: Claim)
    requires OpensOk(cfg, s) && StartKept(cfg, s, c) && c.wf in s.at.t.status && !s.at.t.status[c.wf].Enqueued?
    ensures StartKept(cfg, Step(cfg, s, l), c)
  {
    if CanStep(cfg, s, l) && l.Commit? {
      var d := s.ds[l.x];
      CommitMarksClaimable(cfg, s, l.x);
      MarkedRows(s.at.t, d.ids, d.now);
    }
  }

  lemma NewClaimKept(cfg: Config, s: System, x: nat, k: nat)
    requires OpensOk(cfg, s) && CanStep(cfg, s, Commit(x)) && k < |s.ds[x].ids|
    ensures StartKept(cfg, Step(cfg, s, Commit(x)), Claimed(s.ds[x])[k])
  {
    var d := s.ds[x];
    CommitMarksClaimable(cfg, s, x);
    MarkedRows(s.at.t, d.ids, d.now);
    assert Claimable(s.at.t, d.queue, d.ids[k]);
  }

  lemma KeptAt(cfg: Config, s: System, l: Label, i: nat)
    requires OpensOk(cfg, s) && LogOk(s) && StartsKept(cfg, s) && i < |Step(cfg, s, l).log|
    ensures StartKept(cfg, Step(cfg, s, l), Step(cfg, s, l).log[i])
  {
    LogGrows(cfg, s, l, i);
    if i < |s.log| {
      assert StartKept(cfg, s, s.log[i]) && ClaimIsPast(s, s.log[i]);
      KeptStays(cfg, s, l, s.log[i]);
    } else {
      NewClaimKept(cfg, s, l.x, i - |s.log|);
    }
  }

  lemma KeptStep(cfg: Config, s: System, l: Label)
    requires OpensOk(cfg, s) && LogOk(s) && StartsKept(cfg, s)
    ensures StartsKept(cfg, Step(cfg, s, l))
  {
    var s' := Step(cfg, s, l);
    forall i | 0 <= i < |s'.log| ensures StartKept(cfg, s', s'.log[i]) {
      KeptAt(cfg, s, l, i);
    }
  }

  lemma SnapshotSees(cfg: Config, s: System, x: nat, listed: seq<WfId>)
    requires StartsKept(cfg, s) && CanStep(cfg, s, Snapshot(x, listed)) && InTime(s, Snapshot(x, listed))
    ensures
      var s' := Step(cfg, s, Snapshot(x, listed));
      SeesRecent(cfg, s', s'.ds[x])
  {
    var s' := Step(cfg, s, Snapshot(x, listed));
    var d := s'.ds[x];
    if cfg(d.queue).rate.Some? {
      forall i | 0 <= i < d.mark && i < |s'.log| && s'.log[i].queue == d.queue
                 && d.now - Period(cfg(d.queue)) < s'.log[i].time
        ensures s'.log[i].wf in Recent(d.snap.t, d.queue, cfg(d.queue), d.now)
      {
        assert StartKept(cfg, s, s.log[i]);
      }
    }
  }

  lemma SeesStep(cfg: Config, s: System, l: Label)
    requires OpensOk(cfg, s) && StartsKept(cfg, s) && AllSeeRecent(cfg, s) && InTime(s, l)
    ensures AllSeeRecent(cfg, Step(cfg, s, l))
  {
    var s' := Step(cfg, s, l);
    forall x | x in s'.ds ensures SeesRecent(cfg, s', s'.ds[x]) {
      if x in s.ds && s'.ds[x] == s.ds[x] {
        assert SeesRecent(cfg, s, s.ds[x]) && OpenOk(cfg, s, s.ds[x]);
        assert forall i :: 0 <= i < |s.log| ==> s'.log[i] == s.log[i];
      } else if l.Snapshot? && CanStep(cfg, s, l) {
        SnapshotSees(cfg, s, x, l.listed);
      }
    }
  }

  // ---- the limit over every window --------------------------------------------------------------

  ghost predicate WindowsOk(cfg: Config, log: seq<Claim>) {
    forall q, a :: cfg(q).rate.Some? ==> WindowOk(cfg, log, q, a)
  }

  ghost predicate WindowOk(cfg: Config, log: seq<Claim>, q: string, a: int)
    requires cfg(q).rate.Some?
  {
    InWindow(log, q, a, cfg(q).rate.value.period) <= cfg(q).rate.value.limit
  }

  lemma NoneSince(cfg: Config, s: System, x: nat)
    requires OpensOk(cfg, s) && CanStep(cfg, s, Commit(x)) && s.ds[x].ids != []
    ensures Sound(s.ds[x].snap)
    ensures forall i :: 0 <= i < |s.log| && s.log[i].queue == s.ds[x].queue ==> i < s.ds[x].mark
  {
    var d := s.ds[x];
    assert OpenOk(cfg, s, d);
    assert d.ids[0] in d.ids;
    assert !ClaimedSince(s, d.queue, d.mark);
  }

  /** What a committing claim takes fits beside every start of the period before it. */
  lemma CommitFits(cfg: Config, s: System, x: nat)
    requires OpensOk(cfg, s) && LogOk(s) && AllSeeRecent(cfg, s) && CanStep(cfg, s, Commit(x))
    requires cfg(s.ds[x].queue).rate.Some? && s.ds[x].ids != []
    ensures
      var d := s.ds[x];
      After(s.log, d.queue, d.now - cfg(d.queue).rate.value.period) + |d.ids|
      <= cfg(d.queue).rate.value.limit
  {
    var d := s.ds[x];
    var recent := Recent(d.snap.t, d.queue, cfg(d.queue), d.now);
    NoneSince(cfg, s, x);
    forall i | 0 <= i < |s.log| && s.log[i].queue == d.queue && d.now - Period(cfg(d.queue)) < s.log[i].time
      ensures s.log[i].wf in recent
    {
      assert SeesRecent(cfg, s, d);
    }
    AfterCounts(s.log, d.queue, d.now - Period(cfg(d.queue)), recent);
  }

  /** What fits beside all starts of the period before it fits in every window. */
  lemma WindowFits(log: seq<Claim>, more: seq<Claim>, name: string, now: int, q: string, a: int, rate: Rate)
    requires forall i :: 0 <= i < |more| ==> more[i].queue == name && more[i].time == now
    requires InWindow(log, q, a, rate.period) <= rate.limit
    requires more != [] && name == q ==> After(log, q, now - rate.period) + |more| <= rate.limit
    ensures InWindow(log + more, q, a, rate.period) <= rate.limit
  {
    WindowAppend(log, more, name, now, q, a, rate.period);
    if more != [] && name == q && a < now <= a + rate.period {
      WindowWithin(log, q, a, rate.period, now - rate.period);
    }
  }

  lemma WindowCommit(cfg: Config, log: seq<Claim>, d: Dispatcher, q: string, a: int)
    requires d.Open? && (forall w :: w in d.ids ==> w in d.snap.t.rows)
    requires cfg(q).rate.Some? && WindowOk(cfg, log, q, a)
    requires d.ids != [] && d.queue == q ==>
      After(log, q, d.now - cfg(q).rate.value.period) + |d.ids| <= cfg(q).rate.value.limit
    ensures WindowOk(cfg, log + Claimed(d), q, a)
  {
    WindowFits(log, Claimed(d), d.queue, d.now, q, a, cfg(q).rate.value);
  }

  lemma WindowStep(cfg: Config, s: System, l: Label, q: string, a: int)
    requires OpensOk(cfg, s) && LogOk(s) && AllSeeRecent(cfg, s)
    requires cfg(q).rate.Some? && WindowOk(cfg, s.log, q, a)
    ensures WindowOk(cfg, Step(cfg, s, l).log, q, a)
  {
    if CanStep(cfg, s, l) && l.Commit? {
      var d := s.ds[l.x];
      if d.queue == q && d.ids != [] { CommitFits(cfg, s, l.x); }
      WindowCommit(cfg, s.log, d, q, a);
    }
  }

  lemma {:induction false} RatesInRuns(cfg: Config, ls: seq<Label>)
    requires InTimeRun(cfg, ls)
    ensures
      var s := Run(cfg, ls);
      StartsKept(cfg, s) && AllSeeRecent(cfg, s) && WindowsOk(cfg, s.log)
  {
    if ls != [] {
      var n := |ls| - 1;
      var p := ls[..n];
      assert InTimeRun(cfg, p) by {
        forall k | 0 <= k < |p| ensures InTime(Run(cfg, p[..k]), p[k]) {
          assert p[..k] == ls[..k];
          assert InTime(Run(cfg, ls[..k]), ls[k]);
        }
      }
      RatesInRuns(cfg, p);
      assert InTime(Run(cfg, p), ls[n]);
      OpensInRuns(cfg, p);
      LogInRuns(cfg, p);
      KeptStep(cfg, Run(cfg, p), ls[n]);
      SeesStep(cfg, Run(cfg, p), ls[n]);
      forall q, a | cfg(q).rate.Some? ensures WindowOk(cfg, Run(cfg, ls).log, q, a) {
        assert WindowOk(cfg, Run(cfg, p).log, q, a);
        WindowStep(cfg, Run(cfg, p), ls[n], q, a);
      }
    }
  }

  /** RATE LIMIT: in every run whose snapshots are taken in time, every window of one period holds at most
      the limit's number of starts, counting starts whose rows are long deleted. */
  lemma {:induction false} RateLimitHolds(cfg: Config, ls: seq<Label>, queue: string, a: int)
    requires InTimeRun(cfg, ls) && cfg(queue).rate.Some?
    ensures InWindow(Run(cfg, ls).log, queue, a, cfg(queue).rate.value.period) <= cfg(queue).rate.value.limit
  {
    RatesInRuns(cfg, ls);
    assert WindowOk(cfg, Run(cfg, ls).log, queue, a);
  }

  /** Garbage collection at `now` is invisible to a count at `clock`, for all tables, if and only if it is at
      most a millisecond later. */
  lemma SweepInvisibleIffNotEarlier(name: string, lim: Limits, now: int, clock: int)
    requires lim.rate.Some?
    ensures (forall t :: Recent(Swept(t, name, lim, now), name, lim, clock) == Recent(t, name, lim, clock))
            <==> now <= clock + 1
  {
    if now > clock + 1 {
      var t := Tables(map["a" := Row(name, 1, Some(now - Period(lim) - 1), Some(now))], map["a" := Success]);
      assert "a" in Recent(t, name, lim, clock);
      assert "a" !in Recent(Swept(t, name, lim, now), name, lim, clock);
    }
  }
}
