/** The vocabulary shared by the model of durable execution: workflow programs, the outcomes of
    their operations, and the function identifiers those operations consume.

    A workflow is a deterministic program: which operation comes next depends only on the outcomes
    of the operations before it.  Transaction bodies are functions of the user database. */
module Workflows {

  type WfId = string
  type Value = string
  type Db = map<string, string>

  /** The primary key of both output tables. */
  datatype Key = Key(wf: WfId, id: nat)

  /** Where messages are sent: a workflow and a topic. */
  datatype Address = Address(wf: WfId, topic: string)

  datatype EventKey = EventKey(wf: WfId, name: string)

  datatype Outcome = Ok(value: Value) | Err(error: string)

  /** What the body of a writing transaction does when it runs on a user database. */
  datatype TxResult = Commit(db: Db, value: Value) | Abort(error: string)

  datatype Action =
    | Write(code: int)
    | Read(code: int)
    | External(code: int)
    | Send(destination: WfId, topic: string, message: Value)
    | Recv(topic: string)
    | SetEvent(key: string, payload: Value)
    | GetEvent(target: WfId, key: string)
    | GetStatus(target: WfId)
    | Sleep
    | Return(result: Value)
    | Throw(reason: string)
  {
    predicate Transactional() { Write? || Read? }

    /** Operations whose outcome lives in `operation_outputs`. */
    predicate Operational() { External? || Send? || Recv? || SetEvent? || GetEvent? || GetStatus? || Sleep? }

    /** Operations that write buffered read-only results to the database before anything else. */
    predicate FlushesFirst() { External? || Send? || Recv? || SetEvent? }

    predicate Final() { Return? || Throw? }

    /** Operations that may have to wait: `recv` and `getEvent` take a second identifier for their timeout. */
    predicate Waits() { Recv? || GetEvent? }

    function IdsTaken(): nat {
      if Waits() then 2 else if Final() then 0 else 1
    }
  }

  const UNIT: Value := ""
  const NULL: Value := "null"

  /** The code of an application: its workflow programs and its transaction bodies. */
  datatype App = App(
    next: (WfId, seq<Outcome>) -> Action,
    run: (int, Db) -> TxResult,
    view: (int, Db) -> Outcome)

  /** One completed operation of an execution. */
  datatype Entry = Entry(id: nat, action: Action, outcome: Outcome)

  function Outcomes(h: seq<Entry>): (r: seq<Outcome>)
    ensures |r| == |h|
    ensures forall i :: 0 <= i < |h| ==> r[i] == h[i].outcome
  {
    seq(|h|, i requires 0 <= i < |h| => h[i].outcome)
  }

  /** The value of `functionID` after the operations of `h`. */
  function NextId(h: seq<Entry>): nat {
    if h == [] then 0 else h[|h| - 1].id + h[|h| - 1].action.IdsTaken()
  }

  function NextAction(app: App, wf: WfId, h: seq<Entry>): Action {
    app.next(wf, Outcomes(h))
  }

  /** `h` is a history the program of `wf` can have: each operation is the one the program asks
      for after the outcomes before it, under the identifier the counter had by then. */
  ghost predicate Follows(app: App, wf: WfId, h: seq<Entry>) {
    forall i :: 0 <= i < |h| ==> FollowsAt(app, wf, h, i)
  }

  ghost predicate FollowsAt(app: App, wf: WfId, h: seq<Entry>, i: nat)
    requires i < |h|
  {
    && h[i].action == NextAction(app, wf, h[..i])
    && h[i].id == NextId(h[..i])
    && !h[i].action.Final()
  }

  lemma FollowsExtend(app: App, wf: WfId, h: seq<Entry>, e: Entry)
    requires Follows(app, wf, h)
    requires e.action == NextAction(app, wf, h) && e.id == NextId(h) && !e.action.Final()
    ensures Follows(app, wf, h + [e])
  {
    var g := h + [e];
    forall i | 0 <= i < |g| ensures FollowsAt(app, wf, g, i) {
      if i < |h| {
        assert FollowsAt(app, wf, h, i);
        assert g[..i] == h[..i];
      } else {
        assert g[..i] == h;
      }
    }
  }

  lemma FollowsPrefix(app: App, wf: WfId, h: seq<Entry>, n: nat)
    requires Follows(app, wf, h) && n <= |h|
    ensures Follows(app, wf, h[..n])
  {
    var g := h[..n];
    forall i | 0 <= i < |g| ensures FollowsAt(app, wf, g, i) {
      assert FollowsAt(app, wf, h, i);
      assert g[..i] == h[..i];
    }
  }

  /** Two histories of one program that agree up to `n` ask for the same operation there. */
  lemma SameNext(app: App, wf: WfId, g: seq<Entry>, h: seq<Entry>, n: nat)
    requires Follows(app, wf, g) && Follows(app, wf, h)
    requires n < |g| && n < |h| && g[..n] == h[..n]
    ensures g[n].action == h[n].action && g[n].id == h[n].id
  {
    assert FollowsAt(app, wf, g, n) && FollowsAt(app, wf, h, n);
  }

  /** Identifiers grow along a history, and stay below the counter. */
  lemma {:induction false} IdsIncrease(app: App, wf: WfId, h: seq<Entry>, i: nat)
    requires Follows(app, wf, h) && i < |h|
    ensures h[i].id + h[i].action.IdsTaken() <= NextId(h)
    ensures h[i].id < NextId(h)
    decreases |h|
  {
    var n := |h| - 1;
    assert FollowsAt(app, wf, h, n);
    assert FollowsAt(app, wf, h, i);
    if i < n {
      FollowsPrefix(app, wf, h, n);
      IdsIncrease(app, wf, h[..n], i);
    }
  }
}
