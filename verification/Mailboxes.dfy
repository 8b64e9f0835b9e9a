/** Messages between workflows: what `send`, `recv` and `setEvent` mean, and the two ways they are stored,
    timestamped rows in Postgres and one list per key in FoundationDB. */
module Mailboxes {
  import opened Options
  import opened Workflows

  /** A recorded output: a send or an event records nothing, a receive what it received. */
  datatype Output = Nothing | NoMessage | Message(value: Value)

  datatype Reply = Done | Got(output: Output) | Conflict | NoSuchWorkflow

  /** An operation, up to the transaction that carries it out; a receive is its final transaction, after
      whatever waiting. */
  datatype Op =
    | Send(k: Key, to: Address, message: Value)
    | Recv(k: Key, topic: string)
    | SetEvent(k: Key, event: string, value: Value)
    | Record(k: Key, output: Output)          // the output of any other operation

  // ---- the meaning: first in, first out, each operation once ------------------------------------

  datatype Mail = Mail(boxes: map<Address, seq<Value>>, events: map<EventKey, Value>, outputs: map<Key, Output>)

  function Pending(boxes: map<Address, seq<Value>>, a: Address): seq<Value> {
    if a in boxes then boxes[a] else []
  }

  function Oldest(q: seq<Value>): Output {
    if q == [] then NoMessage else Message(q[0])
  }

  function Do(m: Mail, op: Op): (Mail, Reply) {
    match op
    case Send(k, to, message) =>
      if k in m.outputs then (m, Done)
      else (m.(boxes := m.boxes[to := Pending(m.boxes, to) + [message]], outputs := m.outputs[k := Nothing]), Done)
    case Recv(k, topic) =>
      var a := Address(k.wf, topic);
      var q := Pending(m.boxes, a);
      if k in m.outputs then (m, Conflict)
      else (m.(boxes := if q == [] then m.boxes else m.boxes[a := q[1..]], outputs := m.outputs[k := Oldest(q)]),
            Got(Oldest(q)))
    case SetEvent(k, event, value) =>
      if k in m.outputs then (m, Done)
      else (m.(events := m.events[EventKey(k.wf, event) := value], outputs := m.outputs[k := Nothing]), Done)
    case Record(k, output) =>
      if k in m.outputs then (m, Conflict) else (m.(outputs := m.outputs[k := output]), Done)
  }

  // ---- Postgres ---------------------------------------------------------------------------------

  datatype Row = Row(to: Address, message: Value, created: int)

  datatype Postgres = Postgres(rows: seq<Row>, events: map<EventKey, Value>, outputs: map<Key, Output>)

  /** An operation and what the database contributes: the time it stamps on a row, the workflows it knows,
      which of the oldest rows a receive is given, and whether the check for an earlier output came too
      late, that is, before another execution of the same workflow recorded it. */
  datatype Turn = Turn(op: Op, now: int, known: set<WfId>, pick: Option<nat>, late: bool)

  /** The messages waiting for `a`, in the order of the table. */
  function Waiting(rows: seq<Row>, a: Address): seq<Value> {
    if rows == [] then []
    else
      var r := rows[|rows| - 1];
      var before := Waiting(rows[..|rows| - 1], a);
      if r.to == a then before + [r.message] else before
  }

  /** What the DELETE of a receive leaves: it selects by address and timestamp only. */
  function Without(rows: seq<Row>, a: Address, created: int): seq<Row> {
    if rows == [] then []
    else
      var r := rows[|rows| - 1];
      var before := Without(rows[..|rows| - 1], a, created);
      if r.to == a && r.created == created then before else before + [r]
  }

  ghost predicate IsOldest(rows: seq<Row>, a: Address, i: nat) {
    && i < |rows| && rows[i].to == a
    && forall j :: 0 <= j < |rows| && rows[j].to == a ==> rows[i].created <= rows[j].created
  }

  ghost predicate PickOk(rows: seq<Row>, t: Turn) {
    t.op.Recv? ==>
      var a := Address(t.op.k.wf, t.op.topic);
      match t.pick
      case Some(i) => IsOldest(rows, a, i)
      case None => forall j :: 0 <= j < |rows| ==> rows[j].to != a
  }

  ghost function PgDo(p: Postgres, t: Turn): (Postgres, Reply)
    requires PickOk(p.rows, t)
  {
    match t.op
    case Send(k, to, message) =>
      if k in p.outputs && !t.late then (p, Done)
      else if to.wf !in t.known then (p, NoSuchWorkflow)
      else if k in p.outputs then (p, Conflict)
      else (p.(rows := p.rows + [Row(to, message, t.now)], outputs := p.outputs[k := Nothing]), Done)
    case Recv(k, topic) =>
      if k in p.outputs then (p, Conflict)
      else if t.pick.None? then (p.(outputs := p.outputs[k := NoMessage]), Got(NoMessage))
      else
        var r := p.rows[t.pick.value];
        (p.(rows := Without(p.rows, r.to, r.created), outputs := p.outputs[k := Message(r.message)]),
         Got(Message(r.message)))
    case SetEvent(k, event, value) =>
      if k in p.outputs then (p, if t.late then Conflict else Done)
      else (p.(events := p.events[EventKey(k.wf, event) := value], outputs := p.outputs[k := Nothing]), Done)
    case Record(k, output) =>
      if k in p.outputs then (p, Conflict) else (p.(outputs := p.outputs[k := output]), Done)
  }

  // ---- FoundationDB -----------------------------------------------------------------------------

  /** A key is cleared when its list runs out. */
  datatype Foundation =
    Foundation(lists: map<Address, seq<Value>>, events: map<EventKey, Value>, outputs: map<Key, Output>)

  function FdbDo(f: Foundation, op: Op): (Foundation, Reply) {
    match op
    case Send(k, to, message) =>
      if k in f.outputs then (f, Done)
      else
        (f.(lists := if to in f.lists then f.lists[to := f.lists[to] + [message]] else f.lists[to := [message]],
            outputs := f.outputs[k := Nothing]), Done)
    case Recv(k, topic) =>
      var a := Address(k.wf, topic);
      if k in f.outputs then (f, Conflict)
      else if a in f.lists && f.lists[a] != [] then
        var rest := f.lists[a][1..];
        (f.(lists := if rest != [] then f.lists[a := rest] else f.lists - {a},
            outputs := f.outputs[k := Message(f.lists[a][0])]), Got(Message(f.lists[a][0])))
      else (f.(lists := f.lists - {a}, outputs := f.outputs[k := NoMessage]), Got(NoMessage))
    case SetEvent(k, event, value) =>
      if k in f.outputs then (f, Done)
      else (f.(events := f.events[EventKey(k.wf, event) := value], outputs := f.outputs[k := Nothing]), Done)
    case Record(k, output) =>
      if k in f.outputs then (f, Conflict) else (f.(outputs := f.outputs[k := output]), Done)
  }

  // ---- what the DELETE removes ------------------------------------------------------------------

  /** The messages of the rows that share an address and a timestamp. */
  function Tied(rows: seq<Row>, a: Address, created: int): seq<Value> {
    if rows == [] then []
    else
      var r := rows[|rows| - 1];
      var before := Tied(rows[..|rows| - 1], a, created);
      if r.to == a && r.created == created then before + [r.message] else before
  }

  lemma WaitingSnoc(rows: seq<Row>, r: Row, a: Address)
    ensures Waiting(rows + [r], a) == if r.to == a then Waiting(rows, a) + [r.message] else Waiting(rows, a)
  {
    assert (rows + [r])[..|rows|] == rows;
  }

  lemma {:induction false} DeleteRemovesTied(rows: seq<Row>, a: Address, created: int)
    ensures multiset(Waiting(rows, a))
            == multiset(Waiting(Without(rows, a, created), a)) + multiset(Tied(rows, a, created))
  {
    if rows != [] {
      var n := |rows| - 1;
      DeleteRemovesTied(rows[..n], a, created);
      WaitingSnoc(Without(rows[..n], a, created), rows[n], a);
    }
  }

  lemma {:induction false} OthersStay(rows: seq<Row>, a: Address, created: int, b: Address)
    requires b != a
    ensures Waiting(Without(rows, a, created), b) == Waiting(rows, b)
  {
    if rows != [] {
      var n := |rows| - 1;
      OthersStay(rows[..n], a, created, b);
      WaitingSnoc(Without(rows[..n], a, created), rows[n], b);
    }
  }

  lemma {:induction false} TiedMember(rows: seq<Row>, a: Address, created: int, i: nat)
    requires i < |rows| && rows[i].to == a && rows[i].created == created
    ensures rows[i].message in Tied(rows, a, created)
  {
    if i < |rows| - 1 { TiedMember(rows[..|rows| - 1], a, created, i); }
  }

  ghost predicate OnlyOne(rows: seq<Row>, i: nat)
    requires i < |rows|
  {
    forall j :: 0 <= j < |rows| && rows[j].to == rows[i].to && rows[j].created == rows[i].created ==> j == i
  }

  lemma {:induction false} NoneTied(rows: seq<Row>, a: Address, created: int)
    ensures Tied(rows, a, created) == [] <==>
            forall j :: 0 <= j < |rows| ==> !(rows[j].to == a && rows[j].created == created)
  {
    if rows != [] {
      var n := |rows| - 1;
      NoneTied(rows[..n], a, created);
      assert forall j :: 0 <= j < n ==> rows[..n][j] == rows[j];
    }
  }

  lemma {:induction false} OneTied(rows: seq<Row>, i: nat)
    requires i < |rows|
    ensures |Tied(rows, rows[i].to, rows[i].created)| == 1 <==> OnlyOne(rows, i)
  {
    var n := |rows| - 1;
    var a, c := rows[i].to, rows[i].created;
    assert forall j :: 0 <= j < n ==> rows[..n][j] == rows[j];
    NoneTied(rows[..n], a, c);
    if i < n {
      OneTied(rows[..n], i);
      if rows[n].to == a && rows[n].created == c {
        TiedMember(rows[..n], a, c, i);
      }
    }
  }

  lemma Cancel(b: multiset<Value>, s: multiset<Value>, t: multiset<Value>)
    ensures b + s == b + t <==> s == t
  {
    if b + s == b + t {
      forall v ensures s[v] == t[v] {
        assert (b + s)[v] == b[v] + s[v];
        assert (b + t)[v] == b[v] + t[v];
      }
    }
  }

  lemma SingletonBag(s: seq<Value>, v: Value)
    requires v in s
    ensures multiset(s) == multiset{v} <==> |s| == 1
  {
    if |s| == 1 {
      assert s == [v];
    } else {
      assert |multiset(s)| == |s|;
    }
  }

  /** A receive that finds a message takes exactly that message out of the table if and only if no other
      message for the address carries the same timestamp. */
  lemma ReceiveTakesOneIffUnique(p: Postgres, t: Turn)
    requires PickOk(p.rows, t) && t.op.Recv? && t.op.k !in p.outputs && t.pick.Some?
    ensures
      var r := p.rows[t.pick.value];
      multiset(Waiting(p.rows, r.to)) == multiset(Waiting(PgDo(p, t).0.rows, r.to)) + multiset{r.message}
      <==> OnlyOne(p.rows, t.pick.value)
  {
    var i := t.pick.value;
    var r := p.rows[i];
    DeleteRemovesTied(p.rows, r.to, r.created);
    OneTied(p.rows, i);
    TiedMember(p.rows, r.to, r.created, i);
    SingletonBag(Tied(p.rows, r.to, r.created), r.message);
    Cancel(multiset(Waiting(Without(p.rows, r.to, r.created), r.to)),
           multiset(Tied(p.rows, r.to, r.created)), multiset{r.message});
  }
}
