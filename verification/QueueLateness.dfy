/** How late a snapshot may be: the rate limit of the workflow queue holds in all runs if and only if no snapshot is
    taken after a garbage collection whose clock is more than a millisecond ahead. */
module QueueLateness {
  import opened Options
  import opened WorkflowQueue
  import opened QueueRuns
  import opened QueueRates

  /** A rate limit and no other. */
  function Only(rate: Rate): Config {
    (_: string) => Limits(None, Some(rate))
  }

  /** Workflow identifiers, as many as there are. */
  function Name(k: nat): (w: WfId)
    ensures |w| == k
  {
    seq(k, _ => 'a')
  }

  /** A set of states that is closed under steps that are late by no more than `late`: what such runs reach is one. */
  ghost predicate Closed(rate: Rate, late: nat, reached: System -> bool) {
    forall s, l :: reached(s) && LateBy(s, l, late) ==> reached(Step(Only(rate), s, l))
  }

  ghost function ReachedBy(rate: Rate, late: nat): System -> bool {
    (s: System) => exists ls :: s == Run(Only(rate), ls) && LateRun(Only(rate), ls, late)
  }

  lemma LateOneMore(cfg: Config, ls: seq<Label>, l: Label, late: nat)
    requires LateRun(cfg, ls, late) && LateBy(Run(cfg, ls), l, late)
    ensures LateRun(cfg, ls + [l], late) && Run(cfg, ls + [l]) == Step(cfg, Run(cfg, ls), l)
  {
    var ls' := ls + [l];
    assert ls'[..|ls|] == ls;
    forall n | 0 <= n < |ls'| ensures LateBy(Run(cfg, ls'[..n]), ls'[n], late) {
      if n < |ls| {
        assert ls'[..n] == ls[..n];
        assert LateBy(Run(cfg, ls[..n]), ls[n], late);
      }
    }
  }

  lemma RunsAreClosed(rate: Rate, late: nat)
    ensures Closed(rate, late, ReachedBy(rate, late)) && ReachedBy(rate, late)(Initial())
  {
    var none: seq<Label> := [];
    assert Initial() == Run(Only(rate), none) && LateRun(Only(rate), none, late);
    forall s, l | ReachedBy(rate, late)(s) && LateBy(s, l, late)
      ensures ReachedBy(rate, late)(Step(Only(rate), s, l))
    {
      var ls :| s == Run(Only(rate), ls) && LateRun(Only(rate), ls, late);
      LateOneMore(Only(rate), ls, l, late);
    }
  }

  /** What each label does when it is enabled. */
  lemma StepIs(cfg: Config, s: System, l: Label)
    requires CanStep(cfg, s, l)
    ensures l.Arrive? ==> Step(cfg, s, l) == s.(ds := s.ds[l.x := Arrived(l.queue, l.now)])
    ensures l.Abandon? ==> Step(cfg, s, l) == s.(ds := s.ds - {l.x})
    ensures l.Insert? ==> Step(cfg, s, l) == s.(at := s.at.(t := s.at.t.(status := s.at.t.status[l.wf := l.st])))
  {
  }

  lemma Arrives(rate: Rate, reached: System -> bool, s: System, x: nat, now: int, late: nat) returns (s': System)
    requires Closed(rate, late, reached) && reached(s) && x !in s.ds
    ensures reached(s') && s' == s.(ds := s.ds[x := Arrived("", now)])
  {
    s' := s.(ds := s.ds[x := Arrived("", now)]);
    StepIs(Only(rate), s, Arrive(x, "", now));
  }

  lemma Abandons(rate: Rate, reached: System -> bool, s: System, x: nat, late: nat) returns (s': System)
    requires Closed(rate, late, reached) && reached(s) && x in s.ds
    ensures reached(s') && s' == s.(ds := s.ds - {x})
  {
    s' := s.(ds := s.ds - {x});
    StepIs(Only(rate), s, Abandon(x));
  }

  lemma Dequeues(rate: Rate, reached: System -> bool, s: System, w: WfId, now: int, late: nat) returns (s': System)
    requires Closed(rate, late, reached) && reached(s) && w in s.at.t.rows
    ensures reached(s')
    ensures s' == s.(at := s.at.(t := s.at.t.(rows := s.at.t.rows[w := s.at.t.rows[w].(completed := Some(now))])))
  {
    s' := Step(Only(rate), s, Dequeue(w, now));
  }

  lemma Sweeps(rate: Rate, reached: System -> bool, s: System, x: nat, late: nat) returns (s': System)
    requires Closed(rate, late, reached) && reached(s) && x in s.ds && s.ds[x].Sweeping? && s.swept == map[]
    ensures reached(s')
    ensures s'.at == s.at.(t := Swept(s.at.t, s.ds[x].queue, Only(rate)(s.ds[x].queue), s.ds[x].now))
    ensures s'.ds == s.ds - {x} && s'.log == s.log && s'.swept == map[s.ds[x].queue := s.ds[x].now]
  {
    s' := Step(Only(rate), s, Sweep(x));
  }

  // ---- one workflow after the other -----------------------------------------------------------------

  /** `k` workflows have been claimed at time 1 and completed, and their rows are still there. */
  ghost predicate Served(s: System, k: nat) {
    && s.ds == map[] && s.swept == map[] && s.at.newest == k
    && |s.log| == k && (forall i :: 0 <= i < k ==> s.log[i].queue == "" && s.log[i].time == 1)
    && |s.at.t.rows| <= k
    && (forall w :: w in s.at.t.rows ==> ServedRow(s.at.t.rows[w]))
    && (forall w :: w in s.at.t.rows || w in s.at.t.status ==> |w| < k)
  }

  predicate ServedRow(r: Row) { r.queue == "" && r.started == Some(1) && r.completed.Some? }

  lemma EnqueueNew(rate: Rate, reached: System -> bool, s: System, w: WfId, created: int, late: nat)
    returns (s': System)
    requires Closed(rate, late, reached) && reached(s)
    requires w !in s.at.t.status && w !in s.at.t.rows && created > s.at.newest
    ensures reached(s')
    ensures s' == s.(at := Stamp(Tables(s.at.t.rows[w := Row("", created, None, None)], s.at.t.status[w := Enqueued]),
                                 created))
  {
    s' := Step(Only(rate), s, Insert(w, Enqueued));
    StepIs(Only(rate), s, Insert(w, Enqueued));
    s' := Step(Only(rate), s', Enqueue(w, "", created));
  }

  lemma TakesOne(t: Tables, rate: Rate, now: int, w: WfId)
    requires Uncompleted(t, "") == {w} && Claimable(t, "", w) && |Recent(t, "", Only(rate)(""), now)| < rate.limit
    ensures Selects(t, "", None, [w]) && Claims(t, "", Only(rate)(""), now, [w]) == [w]
  {
    assert Unstarted(t, [w]) == [w];
    assert [w][1..] == [] && Taken(t.status, [w], |Recent(t, "", Only(rate)(""), now)|, Some(rate)) == [w];
  }

  /** A dispatcher that has read its clock takes its snapshot, and decides on the only workflow. */
  lemma ListOne(rate: Rate, reached: System -> bool, s: System, x: nat, now: int, w: WfId, late: nat)
    returns (s': System)
    requires Closed(rate, late, reached) && reached(s) && LateBy(s, Snapshot(x, [w]), late)
    requires x in s.ds && s.ds[x] == Arrived("", now)
    requires Uncompleted(s.at.t, "") == {w} && Claimable(s.at.t, "", w)
    requires |Recent(s.at.t, "", Only(rate)(""), now)| < rate.limit
    ensures reached(s')
    ensures s' == s.(ds := s.ds[x := Open("", now, s.at, [w], |s.log|)])
    ensures CanStep(Only(rate), s', Commit(x)) && s'.ds[x].ids == [w]
  {
    TakesOne(s.at.t, rate, now, w);
    s' := Step(Only(rate), s, Snapshot(x, [w]));
  }

  lemma CommitOne(rate: Rate, reached: System -> bool, s: System, x: nat, w: WfId, late: nat)
    returns (s': System)
    requires Closed(rate, late, reached) && reached(s)
    requires CanStep(Only(rate), s, Commit(x)) && s.ds[x].ids == [w]
    ensures reached(s') && w in s.ds[x].snap.t.rows
    ensures s'.at == s.at.(t := MarkedOne(s.at.t, w, s.ds[x].now)) && s'.swept == s.swept
    ensures s'.ds == s.ds[x := Sweeping(s.ds[x].queue, s.ds[x].now)]
    ensures s'.log == s.log + [Claim(w, s.ds[x].queue, s.ds[x].snap.t.rows[w].created, s.ds[x].now)]
  {
    var d := s.ds[x];
    assert w in [w] && w in d.snap.t.rows;
    s' := Step(Only(rate), s, Commit(x));
    assert Marked(s.at.t, [w], d.now) == MarkedOne(s.at.t, w, d.now);
    assert Claimed(d) == [Claim(w, d.queue, d.snap.t.rows[w].created, d.now)];
  }

  /** Of the workflows served and one more, only that one is open, and it does not count yet. */
  lemma OneOpen(rate: Rate, s: System, k: nat, t: Tables, now: int)
    requires Served(s, k)
    requires t == Tables(s.at.t.rows[Name(k) := Row("", k + 1, None, None)], s.at.t.status[Name(k) := Enqueued])
    ensures Uncompleted(t, "") == {Name(k)} && Claimable(t, "", Name(k))
    ensures |Recent(t, "", Only(rate)(""), now)| <= k
  {
    var recent := Recent(t, "", Only(rate)(""), now);
    assert Name(k) !in s.at.t.rows;
    assert recent <= s.at.t.rows.Keys;
    SubsetCount(recent, s.at.t.rows.Keys);
    assert |s.at.t.rows.Keys| == |s.at.t.rows|;
  }

  /** The next workflow is enqueued and claimed at time 1; its dispatcher then crashes. */
  lemma ClaimNext(rate: Rate, reached: System -> bool, s: System, k: nat, late: nat) returns (s': System)
    requires Closed(rate, late, reached) && reached(s) && Served(s, k) && k < rate.limit
    ensures reached(s')
    ensures s'.at == Stamp(Tables(s.at.t.rows[Name(k) := Row("", k + 1, Some(1), None)],
                                  s.at.t.status[Name(k) := Pending]), k + 1)
    ensures s'.ds == map[] && s'.swept == map[] && s'.log == s.log + [Claim(Name(k), "", k + 1, 1)]
  {
    var w := Name(k);
    s' := EnqueueNew(rate, reached, s, w, k + 1, late);
    OneOpen(rate, s, k, s'.at.t, 1);
    s' := Arrives(rate, reached, s', 0, 1, late);
    s' := ListOne(rate, reached, s', 0, 1, w, late);
    s' := CommitOne(rate, reached, s', 0, w, late);
    s' := Abandons(rate, reached, s', 0, late);
    assert s'.ds == map[];
    assert s'.at.t.rows == s.at.t.rows[w := Row("", k + 1, Some(1), None)];
    assert s'.at.t.status == s.at.t.status[w := Pending];
  }

  lemma ServeOne(rate: Rate, reached: System -> bool, s: System, k: nat, late: nat) returns (s': System)
    requires Closed(rate, late, reached) && reached(s) && Served(s, k) && k < rate.limit
    ensures reached(s') && Served(s', k + 1)
  {
    var w := Name(k);
    s' := ClaimNext(rate, reached, s, k, late);
    s' := Dequeues(rate, reached, s', w, 1, late);
    assert w !in s.at.t.rows;
    assert s'.at.t.rows == s.at.t.rows[w := Row("", k + 1, Some(1), Some(1))];
  }

  lemma {:induction false} ServeMany(rate: Rate, reached: System -> bool, k: nat, late: nat) returns (s: System)
    requires Closed(rate, late, reached) && reached(Initial()) && k <= rate.limit
    ensures reached(s) && Served(s, k)
  {
    if k == 0 {
      s := Initial();
    } else {
      s := ServeMany(rate, reached, k - 1, late);
      s := ServeOne(rate, reached, s, k - 1, late);
    }
  }

  // ---- the late snapshot ----------------------------------------------------------------------------

  /** A dispatcher that finds nothing to claim goes on to delete. */
  lemma CommitNothing(rate: Rate, reached: System -> bool, s: System, x: nat, now: int, late: nat) returns (s': System)
    requires Closed(rate, late, reached) && reached(s) && s.swept == map[]
    requires x !in s.ds && Uncompleted(s.at.t, "") == {}
    ensures reached(s') && s' == s.(ds := s.ds[x := Sweeping("", now)])
  {
    s' := Arrives(rate, reached, s, x, now, late);
    s' := ListNothing(rate, reached, s', x, now, late);
    s' := CommitEmpty(rate, reached, s', x, late);
    assert s'.ds == s.ds[x := Sweeping("", now)];
  }

  lemma ListNothing(rate: Rate, reached: System -> bool, s: System, x: nat, now: int, late: nat) returns (s': System)
    requires Closed(rate, late, reached) && reached(s) && s.swept == map[]
    requires x in s.ds && s.ds[x] == Arrived("", now) && Uncompleted(s.at.t, "") == {}
    ensures reached(s')
    ensures s' == s.(ds := s.ds[x := Open("", now, s.at, [], |s.log|)])
  {
    s' := Step(Only(rate), s, Snapshot(x, []));
    assert s'.ds[x].ids == [];
  }

  lemma CommitEmpty(rate: Rate, reached: System -> bool, s: System, x: nat, late: nat) returns (s': System)
    requires Closed(rate, late, reached) && reached(s) && x in s.ds && s.ds[x].Open? && s.ds[x].ids == []
    ensures reached(s')
    ensures s' == s.(ds := s.ds[x := Sweeping(s.ds[x].queue, s.ds[x].now)])
  {
    s' := Step(Only(rate), s, Commit(x));
    assert s'.log == s.log;
  }

  lemma ServedIsOutdated(s: System, k: nat, rate: Rate, now: int)
    requires Served(s, k) && now > rate.period + 1
    ensures Uncompleted(s.at.t, "") == {} && Swept(s.at.t, "", Only(rate)(""), now).rows == map[]
  {
    assert forall w :: w in s.at.t.rows ==> Outdated(s.at.t.rows[w], "", Only(rate)(""), now);
  }

  /** One dispatcher reads its clock at the end of the period; another, whose clock is `late` ahead, then deletes the
      rows of all starts. */
  lemma SweepAhead(rate: Rate, reached: System -> bool, late: nat) returns (s: System)
    requires Closed(rate, late, reached) && reached(Initial()) && late > 1
    ensures reached(s)
    ensures s.at.t.rows == map[] && (forall w :: w in s.at.t.status ==> |w| < rate.limit) && s.at.newest == rate.limit
    ensures s.ds == map[1 := Arrived("", rate.period)] && s.swept == map["" := rate.period + late]
    ensures |s.log| == rate.limit && forall i :: 0 <= i < |s.log| ==> s.log[i].queue == "" && s.log[i].time == 1
  {
    var now := rate.period + late;
    s := ServeMany(rate, reached, rate.limit, late);
    ServedIsOutdated(s, rate.limit, rate, now);
    s := Arrives(rate, reached, s, 1, rate.period, late);
    s := CommitNothing(rate, reached, s, 2, now, late);
    s := Sweeps(rate, reached, s, 2, late);
    assert s.ds == map[1 := Arrived("", rate.period)];
  }

  lemma {:induction false} AllInWindow(log: seq<Claim>, period: nat)
    requires period > 0 && forall i :: 0 <= i < |log| ==> log[i].queue == "" && log[i].time == 1
    ensures InWindow(log, "", 0, period) == |log|
  {
    if log != [] { AllInWindow(log[..|log| - 1], period); }
  }

  /** The first dispatcher, whose snapshot comes now, sees nothing recent and claims one more. */
  lemma ClaimBeyond(rate: Rate, reached: System -> bool, late: nat) returns (s: System)
    requires Closed(rate, late, reached) && reached(Initial()) && late > 1 && rate.limit > 0 && rate.period > 0
    ensures reached(s) && InWindow(s.log, "", 0, rate.period) == rate.limit + 1
  {
    var w := Name(rate.limit);
    s := SweepAhead(rate, reached, late);
    var starts := s.log;
    s := EnqueueNew(rate, reached, s, w, rate.limit + 1, late);
    assert Uncompleted(s.at.t, "") == {w} && Recent(s.at.t, "", Only(rate)(""), rate.period) == {};
    s := ListOne(rate, reached, s, 1, rate.period, w, late);
    s := CommitOne(rate, reached, s, 1, w, late);
    AllInWindow(starts, rate.period);
    assert s.log[..|s.log| - 1] == starts;
  }

  /** A SNAPSHOT TAKEN TOO LATE: for every rate limit and every lateness of more than a millisecond there is a run that
      is late by no more than that, and in which one window of a period holds one start more than the limit. */
  lemma LateSnapshotBreaksTheLimit(rate: Rate, late: nat) returns (ls: seq<Label>)
    requires rate.limit > 0 && rate.period > 0 && late > 1
    ensures LateRun(Only(rate), ls, late)
    ensures InWindow(Run(Only(rate), ls).log, "", 0, rate.period) == rate.limit + 1
  {
    RunsAreClosed(rate, late);
    var s := ClaimBeyond(rate, ReachedBy(rate, late), late);
    ls :| s == Run(Only(rate), ls) && LateRun(Only(rate), ls, late);
  }

  /** Every window of one period holds at most the limit's number of starts, in every run that is late by no more than
      `late`. */
  ghost predicate LimitHolds(rate: Rate, late: nat) {
    forall ls, a: int :: LateRun(Only(rate), ls, late) ==>
      InWindow(Run(Only(rate), ls).log, "", a, rate.period) <= rate.limit
  }

  /** HOW LATE: a rate limit holds in all runs that are late by no more than `late` if and only if that is no more than
      a millisecond. */
  lemma LimitHoldsIffInTime(rate: Rate, late: nat)
    requires rate.limit > 0 && rate.period > 0
    ensures LimitHolds(rate, late) <==> late <= 1
  {
    if late <= 1 {
      forall ls, a: int | LateRun(Only(rate), ls, late)
        ensures InWindow(Run(Only(rate), ls).log, "", a, rate.period) <= rate.limit
      {
        assert forall n :: 0 <= n < |ls| ==> LateBy(Run(Only(rate), ls[..n]), ls[n], late);
        RateLimitHolds(Only(rate), ls, "", a);
      }
    } else {
      var ls := LateSnapshotBreaksTheLimit(rate, late);
      assert InWindow(Run(Only(rate), ls).log, "", 0, rate.period) > rate.limit;
    }
  }
}
