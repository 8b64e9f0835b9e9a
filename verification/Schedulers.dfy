/** The scheduler: loops of several executors that start a workflow for every second a schedule matches, and
    keep the last time run in the database, across crashes and restarts. */
module Schedulers {
  import opened Options
  import opened TimeMatchers

  /** Where a loop is: about to search, waiting for the time it found, or about to record a started time. */
  datatype Phase = Ready | Sleeping(next: int) | Kicked(next: int)

  /** Times are in seconds. */
  datatype Loop = Loop(lastExec: int, phase: Phase)

  /** `stored` is the row of `scheduler_state`; `started` are the times whose workflow was started; `since` is
      a history variable: the latest clock with which a loop started without using a record. */
  datatype System = System(stored: Option<int>, started: set<int>, loops: map<nat, Loop>, since: Option<int>)

  datatype Mode = ExactlyOncePerInterval | ExactlyOncePerIntervalWhenActive

  datatype Label =
    | Boot(x: nat, mode: Mode, now: int)
    | Search(x: nat, next: int)
    | Wake(x: nat)
    | Save(x: nat)
    | Stop(x: nat)                         // a crash, or the end of the loop

  function Initial(): System { System(None, {}, map[], None) }

  /** A record of zero counts as none. */
  predicate UsesRecord(s: System, mode: Mode) {
    mode.ExactlyOncePerInterval? && s.stored.Some? && s.stored.value != 0
  }

  ghost predicate CanStep(matches: int -> bool, s: System, l: Label) {
    match l
    case Boot(x, _, _) => x !in s.loops
    case Search(x, next) => x in s.loops && s.loops[x].phase.Ready? && NextAfter(matches, s.loops[x].lastExec, next)
    case Wake(x) => x in s.loops && s.loops[x].phase.Sleeping?
    case Save(x) => x in s.loops && s.loops[x].phase.Kicked?
    case Stop(x) => x in s.loops
  }

  function Greatest(stored: Option<int>, t: int): int {
    if stored.Some? && stored.value > t then stored.value else t
  }

  /** One step; a label that is not enabled changes nothing, so every label sequence is a run. */
  ghost function Step(matches: int -> bool, s: System, l: Label): System {
    if !CanStep(matches, s, l) then s else
      match l
      case Boot(x, mode, now) =>
        if UsesRecord(s, mode) then s.(loops := s.loops[x := Loop(s.stored.value, Ready)])
        else s.(loops := s.loops[x := Loop(now, Ready)], since := Some(Greatest(s.since, now)))
      case Search(x, next) => s.(loops := s.loops[x := s.loops[x].(phase := Sleeping(next))])
      case Wake(x) =>
        var next := s.loops[x].phase.next;
        if matches(next)
        then s.(loops := s.loops[x := s.loops[x].(phase := Kicked(next))], started := s.started + {next})
        else s.(loops := s.loops[x := Loop(next, Ready)])
      case Save(x) =>
        var next := s.loops[x].phase.next;
        var db := Greatest(s.stored, next);
        s.(stored := Some(db), loops := s.loops[x := Loop(if db != 0 && db > next then db else next, Ready)])
      case Stop(x) => s.(loops := s.loops - {x})
  }

  ghost function Run(matches: int -> bool, ls: seq<Label>): System {
    if ls == [] then Initial() else Step(matches, Run(matches, ls[..|ls| - 1]), ls[|ls| - 1])
  }

  // ---- no scheduled time is skipped -------------------------------------------------------------

  /** Every matching second after the last start without a record, up to `t`, has been started. */
  ghost predicate Covered(matches: int -> bool, s: System, t: int) {
    s.since.Some? && forall u :: s.since.value < u <= t && matches(u) ==> u in s.started
  }

  ghost predicate LoopOk(matches: int -> bool, s: System, p: Loop) {
    && Covered(matches, s, p.lastExec)
    && (p.phase.Sleeping? ==> NextAfter(matches, p.lastExec, p.phase.next))
    && (p.phase.Kicked? ==>
          NextAfter(matches, p.lastExec, p.phase.next) && matches(p.phase.next) && p.phase.next in s.started)
  }

  ghost predicate Inv(matches: int -> bool, s: System) {
    && (s.stored.Some? ==> Covered(matches, s, s.stored.value))
    && forall x :: x in s.loops ==> LoopOk(matches, s, s.loops[x])
  }

  /** More is started, and a loop may have started with a later clock. */
  ghost predicate Grows(s: System, s': System) {
    s.started <= s'.started && (s.since.Some? ==> s'.since.Some? && s.since.value <= s'.since.value)
  }

  lemma CoveredStays(matches: int -> bool, s: System, s': System, t: int)
    requires Covered(matches, s, t) && Grows(s, s')
    ensures Covered(matches, s', t)
  {
  }

  /** A search passes no match: what it finds is covered as soon as it is started, or if it does not match. */
  lemma SearchCovers(matches: int -> bool, s: System, last: int, next: int)
    requires Covered(matches, s, last) && NextAfter(matches, last, next)
    requires matches(next) ==> next in s.started
    ensures Covered(matches, s, next)
  {
  }

  lemma StepKeepsInv(matches: int -> bool, s: System, l: Label)
    requires Inv(matches, s)
    ensures Grows(s, Step(matches, s, l)) && Inv(matches, Step(matches, s, l))
  {
    var s' := Step(matches, s, l);
    if CanStep(matches, s, l) {
      forall t | Covered(matches, s, t) ensures Covered(matches, s', t) { CoveredStays(matches, s, s', t); }
      forall x | x in s'.loops ensures LoopOk(matches, s', s'.loops[x]) {
        if x in s.loops { assert LoopOk(matches, s, s.loops[x]); }
        if !l.Stop? && x == l.x && (l.Wake? || l.Save?) {
          if !matches(s.loops[x].phase.next) || l.Save? {
            SearchCovers(matches, s', s.loops[x].lastExec, s.loops[x].phase.next);
          }
        }
      }
      if l.Save? {
        assert LoopOk(matches, s, s.loops[l.x]);
        SearchCovers(matches, s', s.loops[l.x].lastExec, s.loops[l.x].phase.next);
      }
    }
  }

  lemma {:induction false} InvInRuns(matches: int -> bool, ls: seq<Label>)
    ensures Inv(matches, Run(matches, ls))
  {
    if ls != [] {
      InvInRuns(matches, ls[..|ls| - 1]);
      StepKeepsInv(matches, Run(matches, ls[..|ls| - 1]), ls[|ls| - 1]);
    }
  }

  /** NO SCHEDULED TIME IS SKIPPED: in every run of any number of executors, with crashes and restarts, every
      matching second after the latest start without a record and up to the stored time has been started. */
  lemma NoTimeIsSkipped(matches: int -> bool, ls: seq<Label>, t: int)
    requires
      var s := Run(matches, ls);
      s.stored.Some? && t <= s.stored.value && matches(t)
    ensures Run(matches, ls).since.Some?
    ensures Run(matches, ls).since.value < t ==> t in Run(matches, ls).started
  {
    InvInRuns(matches, ls);
  }

  /** A loop jumps only over seconds that do not match or are started already. */
  lemma JumpsAreCovered(matches: int -> bool, ls: seq<Label>, l: Label, x: nat, t: int)
    requires
      var s, s' := Run(matches, ls), Step(matches, Run(matches, ls), l);
      x in s.loops && x in s'.loops && s.loops[x].lastExec < t <= s'.loops[x].lastExec && matches(t)
    ensures Run(matches, ls).since.Some?
    ensures Run(matches, ls).since.value < t ==> t in Run(matches, ls).started
  {
    var s := Run(matches, ls);
    InvInRuns(matches, ls);
    assert LoopOk(matches, s, s.loops[x]);
    SearchEnds(matches, s, l, x);
  }

  /** A loop only moves to the time it searched for or to the stored time. */
  lemma SearchEnds(matches: int -> bool, s: System, l: Label, x: nat)
    requires Inv(matches, s) && x in s.loops && x in Step(matches, s, l).loops
    ensures
      var to := Step(matches, s, l).loops[x].lastExec;
      || to == s.loops[x].lastExec
      || (NextAfter(matches, s.loops[x].lastExec, to) && (matches(to) ==> to in s.started))
      || (s.stored == Some(to))
  {
    assert LoopOk(matches, s, s.loops[x]);
  }

  /** The stored time never decreases. */
  lemma StoredNeverDecreases(matches: int -> bool, s: System, l: Label)
    ensures s.stored.Some? ==> Step(matches, s, l).stored.Some? && s.stored.value <= Step(matches, s, l).stored.value
  {
  }

  /** Only seconds the schedule matches are ever started. */
  lemma {:induction false} OnlyMatchesStart(matches: int -> bool, ls: seq<Label>, t: int)
    requires t in Run(matches, ls).started
    ensures matches(t)
  {
    var n := |ls| - 1;
    if t in Run(matches, ls[..n]).started { OnlyMatchesStart(matches, ls[..n], t); }
  }
}
