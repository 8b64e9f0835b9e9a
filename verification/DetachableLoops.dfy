/** The loop of one executor, as it updates its own last time, the started workflows and the database; each of
    its rounds is a few steps of the scheduler's runs. */
module DetachableLoops {
  import opened Options
  import opened TimeMatchers
  import opened Schedulers

  /** The schedule over whole seconds. */
  function Seconds(runsAt: int -> bool): int -> bool {
    (t: int) => runsAt(t * SECOND)
  }

  lemma NextInSeconds(runsAt: int -> bool, last: int, n: int)
    requires NextAfter(After(runsAt, last * SECOND), 0, n)
    ensures NextAfter(Seconds(runsAt), last, last + n)
  {
    var found := After(runsAt, last * SECOND);
    AfterSeconds(runsAt, last, n);
    forall t | last < t < last + n ensures !Seconds(runsAt)(t) {
      AfterSeconds(runsAt, last, t - last);
      assert !found(t - last);
    }
  }

  lemma AfterSeconds(runsAt: int -> bool, last: int, k: int)
    ensures After(runsAt, last * SECOND)(k) == Seconds(runsAt)(last + k)
  {
    assert last * SECOND + k * SECOND == (last + k) * SECOND;
  }

  ghost function RunFrom(matches: int -> bool, s: System, ls: seq<Label>): System {
    if ls == [] then s else Step(matches, RunFrom(matches, s, ls[..|ls| - 1]), ls[|ls| - 1])
  }

  lemma RunOn(matches: int -> bool, s: System, ls: seq<Label>, l: Label)
    ensures RunFrom(matches, s, ls + [l]) == Step(matches, RunFrom(matches, s, ls), l)
  {
    assert (ls + [l])[..|ls|] == ls;
  }

  /** The row of `scheduler_state` and the workflows started so far. */
  class SchedulerState {
    var lastRunTime: Option<int>
    var started: set<int>

    method SetLastScheduledTime(t: int) returns (db: int)
      modifies this`lastRunTime
      ensures db == Greatest(old(lastRunTime), t) && lastRunTime == Some(db)
    {
      db := if lastRunTime.Some? && lastRunTime.value > t then lastRunTime.value else t;
      lastRunTime := Some(db);
    }
  }

  class DetachableLoop {
    var lastExec: int
    const timeMatcher: TimeMatcher
    const db: SchedulerState

    constructor (timeMatcher: TimeMatcher, db: SchedulerState, now: int)
      ensures this.timeMatcher == timeMatcher && this.db == db && lastExec == now
    {
      this.timeMatcher := timeMatcher;
      this.db := db;
      lastExec := now;
    }

    /** The database as executor `x` of a run finds it and leaves it. */
    ghost predicate Shows(s: System)
      reads db
    {
      db.lastRunTime == s.stored && db.started == s.started
    }

    method NextExecTime() returns (next: int)
      ensures NextAfter(Seconds(timeMatcher.runsAt), lastExec, next)
    {
      ghost var n: int;
      var ms: int;
      ms, n := timeMatcher.NextWakeupTime(lastExec * SECOND);
      next := ms / SECOND;
      assert next == lastExec + n;
      NextInSeconds(timeMatcher.runsAt, lastExec, n);
    }

    /** One round: search, wait, and start and record the time if it matches. */
    method Round(x: nat, ghost s: System) returns (ghost ls: seq<Label>, next: int)
      requires Shows(s) && x in s.loops && s.loops[x] == Loop(lastExec, Ready)
      modifies this`lastExec, db
      ensures NextAfter(Seconds(timeMatcher.runsAt), old(lastExec), next)
      ensures !timeMatcher.runsAt(next * 1000) ==>
        lastExec == next && db.started == old(db.started) && db.lastRunTime == old(db.lastRunTime)
      ensures timeMatcher.runsAt(next * 1000) ==>
        && db.started == old(db.started) + {next}
        && db.lastRunTime.Some? && db.lastRunTime.value >= next
        && (db.lastRunTime == Some(next) || db.lastRunTime == old(db.lastRunTime))
        && (old(db.lastRunTime).Some? ==> db.lastRunTime.value >= old(db.lastRunTime).value)
        && lastExec == if db.lastRunTime.value == 0 then next else db.lastRunTime.value
      ensures lastExec >= next
      ensures
        var s' := RunFrom(Seconds(timeMatcher.runsAt), s, ls);
        Shows(s') && x in s'.loops && s'.loops[x] == Loop(lastExec, Ready) && s'.since == s.since
    {
      var matches := Seconds(timeMatcher.runsAt);
      next := NextExecTime();
      ls := [Search(x, next)];
      RunOn(matches, s, [], Search(x, next));
      RunOn(matches, s, ls, Wake(x));
      ls := ls + [Wake(x)];
      if !matches(next) {
        lastExec := next;
        return;
      }
      db.started := db.started + {next};
      var dbTime := db.SetLastScheduledTime(next);
      RunOn(matches, s, ls, Save(x));
      ls := ls + [Save(x)];
      lastExec := if dbTime != 0 && dbTime > next then dbTime else next;
    }

    /** The start of the loop, and as many rounds as it runs before it is stopped. */
    method StartLoop(x: nat, mode: Mode, rounds: nat, ghost s: System) returns (ghost ls: seq<Label>, begin: int)
      requires Shows(s) && x !in s.loops
      modifies this`lastExec, db
      ensures
        var s' := RunFrom(Seconds(timeMatcher.runsAt), s, ls);
        Shows(s') && x in s'.loops && s'.loops[x] == Loop(lastExec, Ready)
      ensures
        var matches := Seconds(timeMatcher.runsAt);
        Inv(matches, s) ==> Covered(matches, RunFrom(matches, s, ls), lastExec)
      ensures
        var recorded := mode.ExactlyOncePerInterval? && old(db.lastRunTime).Some? && old(db.lastRunTime).value != 0;
        && begin == (if recorded then old(db.lastRunTime).value else old(lastExec))
        && (recorded ==> RunFrom(Seconds(timeMatcher.runsAt), s, ls).since == s.since)
      ensures lastExec >= begin + rounds
      ensures old(db.started) <= db.started
      ensures rounds > 0 ==> forall t :: begin < t && NextAfter(Seconds(timeMatcher.runsAt), begin, t) ==>
        (timeMatcher.runsAt(t * 1000) ==> t in db.started && db.lastRunTime.Some? && db.lastRunTime.value >= t)
    {
      var matches := Seconds(timeMatcher.runsAt);
      ls := [Boot(x, mode, lastExec)];
      RunOn(matches, s, [], Boot(x, mode, lastExec));
      if mode.ExactlyOncePerInterval? {
        if db.lastRunTime.Some? && db.lastRunTime.value != 0 {
          lastExec := db.lastRunTime.value;
        }
      }
      begin := lastExec;
      ghost var since := RunFrom(matches, s, ls).since;
      for i := 0 to rounds
        invariant Shows(RunFrom(matches, s, ls)) && x in RunFrom(matches, s, ls).loops
        invariant RunFrom(matches, s, ls).loops[x] == Loop(lastExec, Ready)
        invariant RunFrom(matches, s, ls).since == since
        invariant lastExec >= begin + i && (i == 0 ==> lastExec == begin) && old(db.started) <= db.started
        invariant i > 0 ==> forall t :: begin < t && NextAfter(matches, begin, t) && matches(t) ==>
          t in db.started && db.lastRunTime.Some? && db.lastRunTime.value >= t
      {
        var more, next := Round(x, RunFrom(matches, s, ls));
        if i == 0 {
          forall t | NextAfter(matches, begin, t) ensures t == next { NextIsUnique(matches, begin, t, next); }
        }
        RunsJoin(matches, s, ls, more);
        ls := ls + more;
      }
      if Inv(matches, s) {
        InvFrom(matches, s, ls);
        assert LoopOk(matches, RunFrom(matches, s, ls), RunFrom(matches, s, ls).loops[x]);
      }
    }
  }

  lemma {:induction false} RunsJoin(matches: int -> bool, s: System, a: seq<Label>, b: seq<Label>)
    ensures RunFrom(matches, s, a + b) == RunFrom(matches, RunFrom(matches, s, a), b)
  {
    if b == [] {
      assert a + b == a;
    } else {
      var n := |b| - 1;
      assert (a + b)[..|a + b| - 1] == a + b[..n];
      RunsJoin(matches, s, a, b[..n]);
    }
  }

  lemma {:induction false} InvFrom(matches: int -> bool, s: System, ls: seq<Label>)
    requires Inv(matches, s)
    ensures Inv(matches, RunFrom(matches, s, ls))
  {
    if ls != [] {
      InvFrom(matches, s, ls[..|ls| - 1]);
      StepKeepsInv(matches, RunFrom(matches, s, ls[..|ls| - 1]), ls[|ls| - 1]);
    }
  }
}
