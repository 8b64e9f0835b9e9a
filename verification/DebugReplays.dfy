/** The debugger's replay of a recorded workflow: how its function identifiers line up with those of the live
    execution, and what it returns. */
module DebugReplays {
  import opened Workflows
  import opened Decimals

  /** What a workflow can ask of its context.  `Result` waits for a workflow it holds a handle of; that takes no
      identifier; `Status` retrieves a handle and asks for the status of the workflow. */
  datatype Op =
    | Transaction(code: int)
    | Step(code: int)
    | Send(destination: WfId, message: Value)
    | Recv(topic: string)
    | SetEvent(key: string, payload: Value)
    | GetEvent(target: WfId, key: string)
    | Child(code: int)
    | Retrieve(target: WfId)
    | Status(target: WfId)
    | Result(handle: WfId)
    | Sleep(ms: int)
  {
    /** Operations whose outcome is looked up among the operation outputs. */
    predicate Recorded() { Step? || Send? || Recv? || SetEvent? || GetEvent? || Status? }

    /** A live sleep that returns at once, before it takes an identifier. */
    predicate Idle() { Sleep? && ms <= 0 }
  }

  datatype Request = Do(op: Op) | Finish(result: Outcome)

  /** A workflow asks for its next operation by the outcomes so far. */
  type Program = seq<Outcome> -> Request

  /** What a finished workflow has left behind. */
  datatype Recording = Recording(tx: map<Key, Outcome>, ops: map<Key, Outcome>, results: map<WfId, Outcome>)

  /** An operation a history has taken. */
  datatype Taken = Taken(id: nat, op: Op, outcome: Outcome)

  datatype Reply = Known(outcome: Outcome) | DebuggerError

  function LiveIds(op: Op): nat {
    if op.Recv? || op.GetEvent? then 2 else if op.Result? || op.Idle() then 0 else 1
  }

  function DebugIds(op: Op): nat {
    if op.Recv? || op.GetEvent? then 2 else if op.Result? then 0 else 1
  }

  function ChildId(wf: WfId, id: nat): WfId { wf + "-" + ToString(id) }

  /** The children of all workflows have different identifiers. */
  lemma ChildIdsDiffer(v: WfId, i: nat, w: WfId, j: nat)
    ensures ChildId(v, i) == ChildId(w, j) <==> v == w && i == j
  {
    if |ToString(i)| <= |ToString(j)| { SameChild(v, i, w, j); } else { SameChild(w, j, v, i); }
  }

  lemma SameChild(v: WfId, i: nat, w: WfId, j: nat)
    requires |ToString(i)| <= |ToString(j)|
    ensures ChildId(v, i) == ChildId(w, j) ==> v == w && i == j
  {
    ToStringDigits(i);
    ToStringDigits(j);
    var s, t := ChildId(v, i), ChildId(w, j);
    assert t[|w| + 1..] == ToString(j) && s[|v| + 1..] == ToString(i);
    assert v == s[..|v|] && w == t[..|w|];
    if |w| < |v| < |t| {
      assert t[|v|] == ToString(j)[|v| - |w| - 1] && s[|v|] == '-' && !IsDigit('-');
    }
    ToStringInjective(i, j);
  }

  // ---- the two ways to run ----------------------------------------------------------------------

  /** The outcomes of a history. */
  function Seen(h: seq<Taken>): (r: seq<Outcome>)
    ensures |r| == |h|
  {
    if h == [] then [] else Seen(h[..|h| - 1]) + [h[|h| - 1].outcome]
  }

  /** The value of the counter after the operations of `h`. */
  function LiveId(h: seq<Taken>): nat {
    if h == [] then 0 else LiveId(h[..|h| - 1]) + LiveIds(h[|h| - 1].op)
  }

  function DebugId(h: seq<Taken>): nat {
    if h == [] then 0 else DebugId(h[..|h| - 1]) + DebugIds(h[|h| - 1].op)
  }

  /** A live history of the program: every operation is the one it asks for, under the live identifier; a
      started child and a retrieved workflow are handles. */
  ghost predicate Live(p: Program, wf: WfId, h: seq<Taken>) {
    forall i :: 0 <= i < |h| ==> LiveAt(p, wf, h, i)
  }

  ghost predicate LiveAt(p: Program, wf: WfId, h: seq<Taken>, i: nat)
    requires i < |h|
  {
    && p(Seen(h[..i])) == Do(h[i].op)
    && h[i].id == LiveId(h[..i])
    && (h[i].op.Child? ==> h[i].outcome == Ok(ChildId(wf, h[i].id)))
    && (h[i].op.Retrieve? ==> h[i].outcome == Ok(h[i].op.target))
    && (h[i].op.Sleep? || h[i].op.Send? || h[i].op.SetEvent? ==> h[i].outcome == Ok(UNIT))
  }

  /** The recording holds what the history needs: an output row for each transaction and recorded operation,
      a status for each child, and the result of each workflow waited for. */
  ghost predicate Complete(rec: Recording, wf: WfId, h: seq<Taken>) {
    forall i :: 0 <= i < |h| ==> CompleteAt(rec, wf, h[i])
  }

  predicate CompleteAt(rec: Recording, wf: WfId, e: Taken) {
    var k := Key(wf, e.id);
    && (e.op.Transaction? ==> k in rec.tx && rec.tx[k] == e.outcome)
    && (e.op.Recorded() ==> k in rec.ops && rec.ops[k] == e.outcome)
    && (e.op.Child? ==> ChildId(wf, e.id) in rec.results)
    && (e.op.Result? ==> e.op.handle in rec.results && rec.results[e.op.handle] == e.outcome)
  }

  /** What the debugger answers to an operation it gives identifier `id`. */
  function DebugReply(rec: Recording, wf: WfId, id: nat, op: Op): Reply {
    var k := Key(wf, id);
    match op
    case Transaction(_) => if k in rec.tx then Known(rec.tx[k]) else DebuggerError
    case Child(_) => if ChildId(wf, id) in rec.results then Known(Ok(ChildId(wf, id))) else DebuggerError
    case Retrieve(target) => Known(Ok(target))
    case Result(handle) => if handle in rec.results then Known(rec.results[handle]) else DebuggerError
    case Sleep(_) => Known(Ok(UNIT))
    case Send(_, _) => if k in rec.ops then Known(Done(rec.ops[k])) else DebuggerError
    case SetEvent(_, _) => if k in rec.ops then Known(Done(rec.ops[k])) else DebuggerError
    case _ => if k in rec.ops then Known(rec.ops[k]) else DebuggerError
  }

  /** An operation that returns nothing only throws the error of its row. */
  function Done(row: Outcome): Outcome { if row.Ok? then Ok(UNIT) else row }

  datatype Replay = Running(h: seq<Taken>) | Finished(h: seq<Taken>, result: Outcome) | Stopped(h: seq<Taken>)

  /** `n` steps of the program under the debugger. */
  function Replayed(p: Program, rec: Recording, wf: WfId, n: nat): Replay {
    if n == 0 then Running([])
    else
      var r := Replayed(p, rec, wf, n - 1);
      if !r.Running? then r
      else
        match p(Seen(r.h))
        case Finish(result) => Finished(r.h, result)
        case Do(op) =>
          match DebugReply(rec, wf, DebugId(r.h), op)
          case DebuggerError => Stopped(r.h)
          case Known(o) => Running(r.h + [Taken(DebugId(r.h), op, o)])
  }

  // ---- alignment --------------------------------------------------------------------------------

  function IdleSleeps(h: seq<Taken>): nat {
    if h == [] then 0 else IdleSleeps(h[..|h| - 1]) + if h[|h| - 1].op.Idle() then 1 else 0
  }

  lemma {:induction false} CountersDiffer(h: seq<Taken>)
    ensures DebugId(h) == LiveId(h) + IdleSleeps(h)
  {
    if h != [] { CountersDiffer(h[..|h| - 1]); }
  }

  lemma {:induction false} NoIdle(h: seq<Taken>)
    ensures IdleSleeps(h) == 0 <==> forall i :: 0 <= i < |h| ==> !h[i].op.Idle()
  {
    if h != [] {
      NoIdle(h[..|h| - 1]);
      assert forall i :: 0 <= i < |h| - 1 ==> h[..|h| - 1][i] == h[i];
    }
  }

  /** ALIGNMENT: after the same operations both contexts give the next one the same identifier if and only if
      none of them was a sleep of no or negative duration. */
  lemma AlignedIffNoIdleSleep(h: seq<Taken>)
    ensures DebugId(h) == LiveId(h) <==> forall i :: 0 <= i < |h| ==> !h[i].op.Idle()
  {
    CountersDiffer(h);
    NoIdle(h);
  }

  ghost predicate NoIdleSleeps(h: seq<Taken>) {
    forall i :: 0 <= i < |h| ==> !h[i].op.Idle()
  }

  lemma ReplyIsLive(p: Program, rec: Recording, wf: WfId, h: seq<Taken>, i: nat)
    requires i < |h| && Live(p, wf, h) && Complete(rec, wf, h) && NoIdleSleeps(h)
    ensures p(Seen(h[..i])) == Do(h[i].op) && DebugId(h[..i]) == h[i].id
    ensures DebugReply(rec, wf, h[i].id, h[i].op) == Known(h[i].outcome)
  {
    assert LiveAt(p, wf, h, i) && CompleteAt(rec, wf, h[i]);
    AlignedIffNoIdleSleep(h[..i]);
  }

  /** A replay that has come this far answers the next operation as it was answered live. */
  lemma ReplayStep(p: Program, rec: Recording, wf: WfId, h: seq<Taken>, n: nat)
    requires 0 < n <= |h| && Live(p, wf, h) && Complete(rec, wf, h) && NoIdleSleeps(h)
    requires Replayed(p, rec, wf, n - 1) == Running(h[..n - 1])
    ensures Replayed(p, rec, wf, n) == Running(h[..n])
  {
    var e := h[n - 1];
    ReplyIsLive(p, rec, wf, h, n - 1);
    assert DebugReply(rec, wf, DebugId(h[..n - 1]), e.op) == Known(e.outcome);
    assert Taken(e.id, e.op, e.outcome) == e;
    assert Replayed(p, rec, wf, n) == Running(h[..n - 1] + [e]);
    assert h[..n] == h[..n - 1] + [e];
  }

  lemma {:induction false} ReplayFollows(p: Program, rec: Recording, wf: WfId, h: seq<Taken>, n: nat)
    requires n <= |h| && Live(p, wf, h) && Complete(rec, wf, h) && NoIdleSleeps(h)
    ensures Replayed(p, rec, wf, n) == Running(h[..n])
  {
    if n > 0 {
      ReplayFollows(p, rec, wf, h, n - 1);
      ReplayStep(p, rec, wf, h, n);
    }
  }

  /** FAITHFUL REPLAY: for every program whose live history has a complete recording and only sleeps of positive
      duration, the debugger runs through the same history, identifier by identifier and outcome by outcome, and
      finishes with the same result. */
  lemma ReplayIsFaithful(p: Program, rec: Recording, wf: WfId, h: seq<Taken>, result: Outcome)
    requires Live(p, wf, h) && p(Seen(h)) == Finish(result)
    requires Complete(rec, wf, h) && NoIdleSleeps(h)
    ensures Replayed(p, rec, wf, |h| + 1) == Finished(h, result)
  {
    ReplayFollows(p, rec, wf, h, |h|);
    assert h[..|h|] == h;
  }

  // ---- any recording ----------------------------------------------------------------------------

  /** What an operation under identifier `id` cannot be replayed without. */
  predicate HasRow(rec: Recording, wf: WfId, id: nat, op: Op) {
    && (op.Transaction? ==> Key(wf, id) in rec.tx)
    && (op.Recorded() ==> Key(wf, id) in rec.ops)
    && (op.Child? ==> ChildId(wf, id) in rec.results)
    && (op.Result? ==> op.handle in rec.results)
  }

  /** The outcome is the one in the row, or needs none. */
  predicate IsRecorded(rec: Recording, wf: WfId, e: Taken) {
    && HasRow(rec, wf, e.id, e.op)
    && match e.op
       case Transaction(_) => e.outcome == rec.tx[Key(wf, e.id)]
       case Child(_) => e.outcome == Ok(ChildId(wf, e.id))
       case Retrieve(target) => e.outcome == Ok(target)
       case Result(handle) => e.outcome == rec.results[handle]
       case Sleep(_) => e.outcome == Ok(UNIT)
       case Send(_, _) => e.outcome == if rec.ops[Key(wf, e.id)].Ok? then Ok(UNIT) else rec.ops[Key(wf, e.id)]
       case SetEvent(_, _) => e.outcome == if rec.ops[Key(wf, e.id)].Ok? then Ok(UNIT) else rec.ops[Key(wf, e.id)]
       case _ => e.outcome == rec.ops[Key(wf, e.id)]
  }

  /** A history as the recording tells it. */
  ghost predicate Told(p: Program, rec: Recording, wf: WfId, h: seq<Taken>) {
    forall i :: 0 <= i < |h| ==> ToldAt(p, rec, wf, h, i)
  }

  ghost predicate ToldAt(p: Program, rec: Recording, wf: WfId, h: seq<Taken>, i: nat)
    requires i < |h|
  {
    p(Seen(h[..i])) == Do(h[i].op) && h[i].id == DebugId(h[..i]) && IsRecorded(rec, wf, h[i])
  }

  /** Where a replay stands: it runs, has finished with its program, or has met an operation without a row. */
  ghost predicate Stands(p: Program, rec: Recording, wf: WfId, r: Replay) {
    var next := p(Seen(r.h));
    match r
    case Running(_) => true
    case Finished(_, result) => next == Finish(result)
    case Stopped(_) => next.Do? && !HasRow(rec, wf, DebugId(r.h), next.op)
  }

  lemma ToldOneMore(p: Program, rec: Recording, wf: WfId, h: seq<Taken>, e: Taken)
    requires Told(p, rec, wf, h) && p(Seen(h)) == Do(e.op) && e.id == DebugId(h) && IsRecorded(rec, wf, e)
    ensures Told(p, rec, wf, h + [e])
  {
    var g := h + [e];
    forall i | 0 <= i < |g| ensures ToldAt(p, rec, wf, g, i) {
      if i < |h| {
        assert ToldAt(p, rec, wf, h, i) && g[..i] == h[..i];
      } else {
        assert g[..i] == h;
      }
    }
  }

  /** The debugger answers an operation, as recorded, if and only if nothing is missing for it. */
  lemma RepliesAsRecorded(rec: Recording, wf: WfId, id: nat, op: Op)
    ensures
      var reply := DebugReply(rec, wf, id, op);
      if HasRow(rec, wf, id, op) then reply.Known? && IsRecorded(rec, wf, Taken(id, op, reply.outcome))
      else reply == DebuggerError
  {
  }

  lemma NextStep(p: Program, rec: Recording, wf: WfId, n: nat)
    requires n > 0
    ensures
      var r, r' := Replayed(p, rec, wf, n - 1), Replayed(p, rec, wf, n);
      if !r.Running? then r' == r
      else
        match p(Seen(r.h))
        case Finish(result) => r' == Finished(r.h, result)
        case Do(op) =>
          if HasRow(rec, wf, DebugId(r.h), op) then
            r'.Running? && |r'.h| == |r.h| + 1 && r'.h == r.h + [Taken(DebugId(r.h), op, r'.h[|r.h|].outcome)]
            && IsRecorded(rec, wf, r'.h[|r.h|])
          else r' == Stopped(r.h)
  {
    var r := Replayed(p, rec, wf, n - 1);
    if r.Running? && p(Seen(r.h)).Do? { RepliesAsRecorded(rec, wf, DebugId(r.h), p(Seen(r.h)).op); }
  }

  /** STOPS AT THE FIRST GAP: with any recording, complete or not, the debugger answers every operation from its row,
      one a step, until the program finishes or asks for an operation whose row is missing; there, and only there, it
      stops. */
  lemma {:induction false} StopsAtTheFirstGap(p: Program, rec: Recording, wf: WfId, n: nat)
    ensures
      var r := Replayed(p, rec, wf, n);
      Told(p, rec, wf, r.h) && Stands(p, rec, wf, r) && (if r.Running? then |r.h| == n else |r.h| < n)
  {
    if n > 0 {
      StopsAtTheFirstGap(p, rec, wf, n - 1);
      NextStep(p, rec, wf, n);
      var r, r' := Replayed(p, rec, wf, n - 1), Replayed(p, rec, wf, n);
      if r.Running? && r'.Running? { ToldOneMore(p, rec, wf, r.h, r'.h[|r.h|]); }
    }
  }

  // ---- a sleep of zero --------------------------------------------------------------------------

  const ZERO_SLEEP := Taken(0, Op.Sleep(0), Ok(UNIT))

  /** Sleeps for no time, then takes two steps. */
  function SleepyProgram(): Program {
    (os: seq<Outcome>) =>
      if |os| == 0 then Do(Op.Sleep(0)) else if |os| == 1 then Do(Step(1)) else if |os| == 2 then Do(Step(2))
      else Finish(os[1])
  }

  function SleepyHistory(first: Value, second: Value): seq<Taken> {
    [ZERO_SLEEP, Taken(0, Step(1), Ok(first)), Taken(1, Step(2), Ok(second))]
  }

  function SleepyRecording(wf: WfId, first: Value, second: Value): Recording {
    Recording(map[], map[Key(wf, 0) := Ok(first), Key(wf, 1) := Ok(second)], map[])
  }

  lemma SleepyIsLive(wf: WfId, first: Value, second: Value)
    ensures Live(SleepyProgram(), wf, SleepyHistory(first, second))
    ensures Complete(SleepyRecording(wf, first, second), wf, SleepyHistory(first, second))
  {
    var h := SleepyHistory(first, second);
    var one, two := [h[0]], [h[0], h[1]];
    assert h[..0] == [] && h[..1] == one && h[..2] == two;
    assert one[..0] == [] && LiveId(one) == 0;
    assert two[..1] == one && two[1].op == Step(1) && LiveId(two) == 1;
    forall i | 0 <= i < |h| ensures LiveAt(SleepyProgram(), wf, h, i) {
    }
  }

  /** A SLEEP OF ZERO: with a complete recording the debugger answers the first step with the outcome of the
      second. */
  lemma ZeroSleepMisleadsReplay(wf: WfId, first: Value, second: Value)
    requires first != second
    ensures Live(SleepyProgram(), wf, SleepyHistory(first, second))
    ensures Complete(SleepyRecording(wf, first, second), wf, SleepyHistory(first, second))
    ensures
      Replayed(SleepyProgram(), SleepyRecording(wf, first, second), wf, 2)
      == Running([ZERO_SLEEP, Taken(1, Step(1), Ok(second))])
  {
    SleepyIsLive(wf, first, second);
    var p, rec := SleepyProgram(), SleepyRecording(wf, first, second);
    assert Replayed(p, rec, wf, 0) == Running([]);
    assert Replayed(p, rec, wf, 1) == Running([ZERO_SLEEP]);
    assert [ZERO_SLEEP][..0] == [] && DebugId([ZERO_SLEEP]) == 1;
  }

  // ---- the debug context ------------------------------------------------------------------------

  class WorkflowContextDebug {
    const workflowUUID: WfId
    const recording: Recording
    var functionID: nat

    constructor (workflowUUID: WfId, recording: Recording)
      ensures this.workflowUUID == workflowUUID && this.recording == recording && functionID == 0
    {
      this.workflowUUID := workflowUUID;
      this.recording := recording;
      functionID := 0;
    }

    method FunctionIDGetIncrement() returns (id: nat)
      modifies this
      ensures id == old(functionID) && functionID == old(functionID) + 1
    {
      id := functionID;
      functionID := functionID + 1;
    }

    method CheckOperationOutput(id: nat) returns (r: Reply)
      ensures
        var k := Key(workflowUUID, id);
        r == if k in recording.ops then Known(recording.ops[k]) else DebuggerError
    {
      var k := Key(workflowUUID, id);
      r := if k in recording.ops then Known(recording.ops[k]) else DebuggerError;
    }

    /** For an operation that returns nothing. */
    method CheckDone(id: nat) returns (r: Reply)
      ensures
        var k := Key(workflowUUID, id);
        r == if k !in recording.ops then DebuggerError else Known(Done(recording.ops[k]))
    {
      r := CheckOperationOutput(id);
      if r.Known? { r := Known(Done(r.outcome)); }
    }

    /** The methods of the context, by kind of operation. */
    method Invoke(op: Op) returns (r: Reply)
      modifies this
      ensures r == DebugReply(recording, workflowUUID, old(functionID), op)
      ensures functionID == old(functionID) + DebugIds(op)
    {
      if op.Result? {
        r := if op.handle in recording.results then Known(recording.results[op.handle]) else DebuggerError;
        return;
      }
      var id := FunctionIDGetIncrement();
      if op.Recv? || op.GetEvent? {
        var timeoutId := FunctionIDGetIncrement();
      }
      match op
      case Transaction(_) =>
        var k := Key(workflowUUID, id);
        r := if k in recording.tx then Known(recording.tx[k]) else DebuggerError;
      case Child(_) =>
        var child := ChildId(workflowUUID, id);
        r := if child in recording.results then Known(Ok(child)) else DebuggerError;
      case Retrieve(target) => r := Known(Ok(target));
      case Sleep(_) => r := Known(Ok(UNIT));
      case Send(_, _) => r := CheckDone(id);
      case SetEvent(_, _) => r := CheckDone(id);
      case _ => r := CheckOperationOutput(id);
    }

    /** Runs a workflow from its start for as long as its history goes. */
    method Replay(p: Program, steps: nat) returns (h: seq<Taken>, done: bool, ghost r: Replay)
      requires functionID == 0
      modifies this
      ensures r == Replayed(p, recording, workflowUUID, steps)
      ensures h == r.h && (done <==> !r.Running?)
    {
      h, done, r := [], false, Running([]);
      for n := 0 to steps
        invariant r == Replayed(p, recording, workflowUUID, n)
        invariant h == r.h && (done <==> !r.Running?)
        invariant !done ==> functionID == DebugId(h)
      {
        r := Replayed(p, recording, workflowUUID, n + 1);
        if !done {
          var os := Seen(h);
          match p(os)
          case Finish(_) => done := true;
          case Do(op) =>
            var id := functionID;
            var reply := Invoke(op);
            if reply.Known? {
              var e := Taken(id, op, reply.outcome);
              assert (h + [e])[..|h|] == h;
              h := h + [e];
            } else {
              done := true;
            }
        }
      }
    }
  }
}
