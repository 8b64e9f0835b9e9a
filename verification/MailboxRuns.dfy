/** Runs of the mailboxes: conservation and order in the abstract mailbox, and the refinement of it by both
    stores. */
module MailboxRuns {
  import opened Options
  import opened Workflows
  import opened Mailboxes

  // ---- conservation and order -------------------------------------------------------------------

  /** An operation that took effect, and the output it recorded. */
  datatype Effect = Effect(op: Op, output: Output)

  function Empty(): Mail { Mail(map[], map[], map[]) }

  function Run(ops: seq<Op>): Mail {
    if ops == [] then Empty() else Do(Run(ops[..|ops| - 1]), ops[|ops| - 1]).0
  }

  /** The effects of a run, in order. */
  function Effects(ops: seq<Op>): seq<Effect> {
    if ops == [] then []
    else
      var op := ops[|ops| - 1];
      var m := Run(ops[..|ops| - 1]);
      var before := Effects(ops[..|ops| - 1]);
      if op.k in m.outputs then before else before + [Effect(op, Do(m, op).0.outputs[op.k])]
  }

  function Sent(es: seq<Effect>, a: Address): seq<Value> {
    if es == [] then []
    else
      var e := es[|es| - 1];
      var before := Sent(es[..|es| - 1], a);
      if e.op.Send? && e.op.to == a then before + [e.op.message] else before
  }

  /** A receive at `a` that found a message. */
  predicate Delivers(e: Effect, a: Address) {
    e.op.Recv? && Address(e.op.k.wf, e.op.topic) == a && e.output.Message?
  }

  function Received(es: seq<Effect>, a: Address): seq<Value> {
    if es == [] then []
    else
      var e := es[|es| - 1];
      var before := Received(es[..|es| - 1], a);
      if Delivers(e, a) then before + [e.output.value] else before
  }

  /** Effects and recorded outputs are the same thing: each identifier once. */
  ghost predicate OncePerKey(es: seq<Effect>, outputs: map<Key, Output>) {
    && (forall i, j :: 0 <= i < j < |es| ==> es[i].op.k != es[j].op.k)
    && (forall i :: 0 <= i < |es| ==> es[i].op.k in outputs && outputs[es[i].op.k] == es[i].output)
    && (forall k :: k in outputs ==> exists i :: 0 <= i < |es| && es[i].op.k == k)
  }

  /** Everything sent to an address has been received, in order, or still waits, in order. */
  ghost predicate Conserved(es: seq<Effect>, boxes: map<Address, seq<Value>>) {
    forall a :: ConservedAt(es, boxes, a)
  }

  ghost predicate ConservedAt(es: seq<Effect>, boxes: map<Address, seq<Value>>, a: Address) {
    Sent(es, a) == Received(es, a) + Pending(boxes, a)
  }

  lemma OnceStep(es: seq<Effect>, outputs: map<Key, Output>, e: Effect)
    requires OncePerKey(es, outputs) && e.op.k !in outputs
    ensures OncePerKey(es + [e], outputs[e.op.k := e.output])
  {
    var es', outputs' := es + [e], outputs[e.op.k := e.output];
    forall k | k in outputs' ensures exists i :: 0 <= i < |es'| && es'[i].op.k == k {
      if k == e.op.k {
        assert es'[|es|].op.k == k;
      } else {
        var i :| 0 <= i < |es| && es[i].op.k == k;
        assert es'[i].op.k == k;
      }
    }
  }

  lemma SentSnoc(es: seq<Effect>, e: Effect, a: Address)
    ensures Sent(es + [e], a) == if e.op.Send? && e.op.to == a then Sent(es, a) + [e.op.message] else Sent(es, a)
  {
    assert (es + [e])[..|es|] == es;
  }

  lemma ReceivedSnoc(es: seq<Effect>, e: Effect, a: Address)
    ensures
      Received(es + [e], a)
      == if Delivers(e, a) then Received(es, a) + [e.output.value] else Received(es, a)
  {
    assert (es + [e])[..|es|] == es;
  }

  lemma Regroup(x: seq<Value>, y: seq<Value>, z: seq<Value>)
    ensures (x + y) + z == x + (y + z)
  {
  }

  lemma ConservedStep(es: seq<Effect>, m: Mail, op: Op, a: Address)
    requires ConservedAt(es, m.boxes, a) && op.k !in m.outputs
    ensures ConservedAt(es + [Effect(op, Do(m, op).0.outputs[op.k])], Do(m, op).0.boxes, a)
  {
    var e := Effect(op, Do(m, op).0.outputs[op.k]);
    SentSnoc(es, e, a);
    ReceivedSnoc(es, e, a);
    var q := Pending(m.boxes, a);
    if op.Send? && op.to == a {
      Regroup(Received(es, a), q, [op.message]);
    } else if op.Recv? && Address(op.k.wf, op.topic) == a && q != [] {
      Regroup(Received(es, a), [q[0]], q[1..]);
      assert [q[0]] + q[1..] == q;
    }
  }

  lemma {:induction false} RunConserves(ops: seq<Op>)
    ensures OncePerKey(Effects(ops), Run(ops).outputs) && Conserved(Effects(ops), Run(ops).boxes)
  {
    if ops != [] {
      var n := |ops| - 1;
      var m, op, es := Run(ops[..n]), ops[n], Effects(ops[..n]);
      RunConserves(ops[..n]);
      if op.k !in m.outputs {
        var e := Effect(op, Do(m, op).0.outputs[op.k]);
        OnceStep(es, m.outputs, e);
        forall a ensures ConservedAt(es + [e], Do(m, op).0.boxes, a) {
          assert ConservedAt(es, m.boxes, a);
          ConservedStep(es, m, op, a);
        }
      }
    }
  }

  /** CONSERVATION: in every run of sends, receives and events, with any repetitions of an identifier by
      replays and duplicate executions, every identifier has taken effect exactly once if its output is
      recorded and never otherwise; and what was sent to an address is what was received there, followed by
      what still waits, in the order of sending. */
  lemma {:induction false} MailIsConserved(ops: seq<Op>, a: Address)
    ensures OncePerKey(Effects(ops), Run(ops).outputs)
    ensures Sent(Effects(ops), a) == Received(Effects(ops), a) + Pending(Run(ops).boxes, a)
  {
    RunConserves(ops);
    assert ConservedAt(Effects(ops), Run(ops).boxes, a);
  }

  /** The value an event was last set to by an effect. */
  function LastSet(es: seq<Effect>, e: EventKey): Option<Value> {
    if es == [] then None
    else
      var op := es[|es| - 1].op;
      if op.SetEvent? && EventKey(op.k.wf, op.event) == e then Some(op.value) else LastSet(es[..|es| - 1], e)
  }

  /** EVENTS: in every run an event has the value it was last set to, by a `setEvent` that was not a repetition. */
  lemma {:induction false} EventsAreLastSet(ops: seq<Op>, e: EventKey)
    ensures (if e in Run(ops).events then Some(Run(ops).events[e]) else None) == LastSet(Effects(ops), e)
  {
    if ops != [] {
      var n := |ops| - 1;
      EventsAreLastSet(ops[..n], e);
      var m, op := Run(ops[..n]), ops[n];
      if op.k !in m.outputs {
        var es := Effects(ops[..n]);
        assert (es + [Effect(op, Do(m, op).0.outputs[op.k])])[..|es|] == es;
      }
    }
  }

  /** What an effect has recorded is what its operation yields. */
  lemma {:induction false} EffectsRecord(ops: seq<Op>, i: nat)
    requires i < |Effects(ops)|
    ensures
      var e := Effects(ops)[i];
      match e.op
      case Record(_, output) => e.output == output
      case Recv(_, _) => e.output != Nothing
      case _ => e.output == Nothing
  {
    var n := |ops| - 1;
    if i < |Effects(ops[..n])| { EffectsRecord(ops[..n], i); }
  }

  /** In every run a receive that is not a repetition finds no message if and only if all that was sent to its address
      has been received, and otherwise the first of the rest; a repetition is told of the conflict. */
  lemma {:induction false} ReceivesTheNext(ops: seq<Op>, k: Key, topic: string)
    ensures
      var m, at := Run(ops), Address(k.wf, topic);
      var sent, received := Sent(Effects(ops), at), Received(Effects(ops), at);
      && |received| <= |sent|
      && Do(m, Op.Recv(k, topic)).1
         == if k in m.outputs then Reply.Conflict
            else Got(if |received| == |sent| then NoMessage else Message(sent[|received|]))
  {
    MailIsConserved(ops, Address(k.wf, topic));
  }

  // ---- FoundationDB refines the mailbox ---------------------------------------------------------

  ghost predicate ListsHold(f: Foundation, m: Mail) {
    && f.outputs == m.outputs && f.events == m.events
    && (forall a :: Pending(f.lists, a) == Pending(m.boxes, a))
    && (forall a :: a in f.lists ==> f.lists[a] != [])
  }

  lemma FdbRefines(f: Foundation, m: Mail, op: Op)
    requires ListsHold(f, m)
    ensures ListsHold(FdbDo(f, op).0, Do(m, op).0) && FdbDo(f, op).1 == Do(m, op).1
  {
    forall a ensures Pending(FdbDo(f, op).0.lists, a) == Pending(Do(m, op).0.boxes, a) {
      assert Pending(f.lists, a) == Pending(m.boxes, a);
    }
    if op.Recv? {
      var a := Address(op.k.wf, op.topic);
      assert Pending(f.lists, a) == Pending(m.boxes, a);
    }
  }

  function FdbRun(ops: seq<Op>): Foundation {
    if ops == [] then Foundation(map[], map[], map[]) else FdbDo(FdbRun(ops[..|ops| - 1]), ops[|ops| - 1]).0
  }

  lemma {:induction false} FdbRunRefines(ops: seq<Op>)
    ensures ListsHold(FdbRun(ops), Run(ops))
  {
    if ops != [] {
      FdbRunRefines(ops[..|ops| - 1]);
      FdbRefines(FdbRun(ops[..|ops| - 1]), Run(ops[..|ops| - 1]), ops[|ops| - 1]);
    }
  }

  // ---- Postgres refines the mailbox, given increasing timestamps --------------------------------

  ghost predicate InTimeOrder(rows: seq<Row>) {
    forall i, j :: 0 <= i < j < |rows| && rows[i].to == rows[j].to ==> rows[i].created < rows[j].created
  }

  /** The timestamp of a new message is later than those of the messages it waits with. */
  ghost predicate Newest(rows: seq<Row>, t: Turn) {
    t.op.Send? ==> forall i :: 0 <= i < |rows| && rows[i].to == t.op.to ==> rows[i].created < t.now
  }

  ghost predicate RowsHold(p: Postgres, m: Mail) {
    && p.outputs == m.outputs && p.events == m.events && InTimeOrder(p.rows)
    && forall a :: Waiting(p.rows, a) == Pending(m.boxes, a)
  }

  lemma {:induction false} NoneWaiting(rows: seq<Row>, a: Address)
    ensures Waiting(rows, a) == [] <==> forall j :: 0 <= j < |rows| ==> rows[j].to != a
  {
    if rows != [] {
      var n := |rows| - 1;
      NoneWaiting(rows[..n], a);
      assert forall j :: 0 <= j < n ==> rows[..n][j] == rows[j];
    }
  }

  lemma {:induction false} KeepsOthers(rows: seq<Row>, a: Address, created: int, r: Row)
    ensures r in Without(rows, a, created) <==> r in rows && !(r.to == a && r.created == created)
  {
    if rows != [] {
      var n := |rows| - 1;
      KeepsOthers(rows[..n], a, created, r);
      assert r in rows <==> r == rows[n] || r in rows[..n];
    }
  }

  lemma {:induction false} WithoutOrdered(rows: seq<Row>, a: Address, created: int)
    requires InTimeOrder(rows)
    ensures InTimeOrder(Without(rows, a, created))
  {
    if rows != [] {
      var n := |rows| - 1;
      WithoutOrdered(rows[..n], a, created);
      var rest := Without(rows[..n], a, created);
      forall j | 0 <= j < |rest| && rest[j].to == rows[n].to ensures rest[j].created < rows[n].created {
        KeepsOthers(rows[..n], a, created, rest[j]);
        var k :| 0 <= k < n && rows[..n][k] == rest[j];
        assert rows[k] == rest[j];
      }
    }
  }

  lemma LastIsOldest(rows: seq<Row>, a: Address)
    requires InTimeOrder(rows) && rows != [] && IsOldest(rows, a, |rows| - 1)
    ensures forall j :: 0 <= j < |rows| - 1 ==> rows[j].to != a
  {
    var n := |rows| - 1;
    assert forall j :: 0 <= j < n && rows[j].to == rows[n].to ==> rows[j].created < rows[n].created;
  }

  /** In a table in time order, taking the oldest message takes the first. */
  lemma {:induction false} OldestIsFirst(rows: seq<Row>, a: Address, i: nat)
    requires InTimeOrder(rows) && IsOldest(rows, a, i)
    ensures Waiting(rows, a) == [rows[i].message] + Waiting(Without(rows, a, rows[i].created), a)
  {
    var n := |rows| - 1;
    var c := rows[i].created;
    if i < n {
      assert IsOldest(rows[..n], a, i) && InTimeOrder(rows[..n]);
      OldestIsFirst(rows[..n], a, i);
      WaitingSnoc(Without(rows[..n], a, c), rows[n], a);
      Regroup([rows[i].message], Waiting(Without(rows[..n], a, c), a), [rows[n].message]);
    } else {
      LastIsOldest(rows, a);
      NoneWaiting(rows[..n], a);
      NothingToRemove(rows[..n], a, c);
    }
  }

  lemma {:induction false} NothingToRemove(rows: seq<Row>, a: Address, created: int)
    requires forall j :: 0 <= j < |rows| ==> rows[j].to != a
    ensures Without(rows, a, created) == rows
  {
    if rows != [] {
      NothingToRemove(rows[..|rows| - 1], a, created);
    }
  }

  /** An operation Postgres turns away without changing anything, which the mailbox does not. */
  ghost predicate TurnedAway(p: Postgres, t: Turn) { PickOk(p.rows, t) && (Unknown(p, t) || Overtaken(p, t)) }

  /** A send to no known workflow that is not answered from its record. */
  predicate Unknown(p: Postgres, t: Turn) {
    t.op.Send? && t.op.to.wf !in t.known && (t.late || t.op.k !in p.outputs)
  }

  /** The check for an earlier output came too late. */
  predicate Overtaken(p: Postgres, t: Turn) {
    (t.op.Send? || t.op.SetEvent?) && t.late && t.op.k in p.outputs
  }

  /** REFUSED: the reply is that there is no such workflow if and only if a message is for an unknown one and is not
      answered from its record. */
  lemma RefusedIffUnknown(p: Postgres, t: Turn)
    requires PickOk(p.rows, t)
    ensures PgDo(p, t).1.NoSuchWorkflow? <==> Unknown(p, t)
  {
  }

  lemma PgSendRefines(p: Postgres, m: Mail, t: Turn)
    requires RowsHold(p, m) && PickOk(p.rows, t) && Newest(p.rows, t) && !TurnedAway(p, t) && t.op.Send?
    ensures RowsHold(PgDo(p, t).0, Do(m, t.op).0) && PgDo(p, t).1 == Do(m, t.op).1
  {
    if t.op.k !in p.outputs {
      var r := Row(t.op.to, t.op.message, t.now);
      forall a ensures Waiting(p.rows + [r], a) == Pending(Do(m, t.op).0.boxes, a) {
        WaitingSnoc(p.rows, r, a);
        assert Waiting(p.rows, a) == Pending(m.boxes, a);
      }
    }
  }

  lemma PgRecvRefines(p: Postgres, m: Mail, t: Turn)
    requires RowsHold(p, m) && PickOk(p.rows, t) && t.op.Recv?
    ensures RowsHold(PgDo(p, t).0, Do(m, t.op).0) && PgDo(p, t).1 == Do(m, t.op).1
  {
    var a := Address(t.op.k.wf, t.op.topic);
    assert Waiting(p.rows, a) == Pending(m.boxes, a);
    NoneWaiting(p.rows, a);
    if t.op.k !in p.outputs && t.pick.Some? {
      var r := p.rows[t.pick.value];
      OldestIsFirst(p.rows, a, t.pick.value);
      WithoutOrdered(p.rows, a, r.created);
      forall b ensures Waiting(Without(p.rows, a, r.created), b) == Pending(Do(m, t.op).0.boxes, b) {
        assert Waiting(p.rows, b) == Pending(m.boxes, b);
        if b != a { OthersStay(p.rows, a, r.created, b); }
      }
    }
  }

  lemma PgRefines(p: Postgres, m: Mail, t: Turn)
    requires RowsHold(p, m) && PickOk(p.rows, t) && Newest(p.rows, t)
    ensures if TurnedAway(p, t) then PgDo(p, t) == (p, if Unknown(p, t) then NoSuchWorkflow else Conflict)
            else RowsHold(PgDo(p, t).0, Do(m, t.op).0) && PgDo(p, t).1 == Do(m, t.op).1
  {
    if !TurnedAway(p, t) {
      match t.op
      case Send(_, _, _) => PgSendRefines(p, m, t);
      case Recv(_, _) => PgRecvRefines(p, m, t);
      case SetEvent(_, _, _) =>
      case Record(_, _) =>
    }
  }

  function NoRows(): Postgres { Postgres([], map[], map[]) }

  /** A run from an empty database whose turns are possible; timestamps increase. */
  ghost predicate PgPossible(ts: seq<Turn>) {
    ts == [] ||
    (PgPossible(ts[..|ts| - 1])
     && PickOk(PgRun(ts[..|ts| - 1]).rows, ts[|ts| - 1]) && Newest(PgRun(ts[..|ts| - 1]).rows, ts[|ts| - 1]))
  }

  ghost function PgRun(ts: seq<Turn>): Postgres {
    if ts == [] then NoRows()
    else
      var p := PgRun(ts[..|ts| - 1]);
      if PickOk(p.rows, ts[|ts| - 1]) then PgDo(p, ts[|ts| - 1]).0 else p
  }

  /** The operations of a run that were not turned away. */
  ghost function Accepted(ts: seq<Turn>): seq<Op> {
    if ts == [] then []
    else
      var before := Accepted(ts[..|ts| - 1]);
      if TurnedAway(PgRun(ts[..|ts| - 1]), ts[|ts| - 1]) then before else before + [ts[|ts| - 1].op]
  }

  lemma {:induction false} PgRunRefines(ts: seq<Turn>)
    requires PgPossible(ts)
    ensures RowsHold(PgRun(ts), Run(Accepted(ts)))
  {
    if ts != [] {
      var n := |ts| - 1;
      PgRunRefines(ts[..n]);
      PgRefines(PgRun(ts[..n]), Run(Accepted(ts[..n])), ts[n]);
      assert (Accepted(ts[..n]) + [ts[n].op])[..|Accepted(ts[..n])|] == Accepted(ts[..n]);
    }
  }

  /** The Postgres mailbox conserves messages and delivers them first in, first out. */
  lemma {:induction false} PostgresConserves(ts: seq<Turn>, a: Address)
    requires PgPossible(ts)
    ensures Sent(Effects(Accepted(ts)), a) == Received(Effects(Accepted(ts)), a) + Waiting(PgRun(ts).rows, a)
    ensures OncePerKey(Effects(Accepted(ts)), PgRun(ts).outputs)
  {
    PgRunRefines(ts);
    MailIsConserved(Accepted(ts), a);
  }

  /** BOTH STORES AGREE: after the same accepted operations they have recorded the same outputs, so every
      receive has returned the same value; they hold the same events and the same waiting messages. */
  lemma {:induction false} StoresAgree(ts: seq<Turn>, a: Address)
    requires PgPossible(ts)
    ensures PgRun(ts).outputs == FdbRun(Accepted(ts)).outputs
    ensures PgRun(ts).events == FdbRun(Accepted(ts)).events
    ensures Waiting(PgRun(ts).rows, a) == Pending(FdbRun(Accepted(ts)).lists, a)
  {
    PgRunRefines(ts);
    FdbRunRefines(Accepted(ts));
  }

  /** The next reply is the same as well. */
  lemma {:induction false} RepliesAgree(ts: seq<Turn>, t: Turn)
    requires PgPossible(ts + [t]) && !TurnedAway(PgRun(ts), t)
    ensures PickOk(PgRun(ts).rows, t) && PgDo(PgRun(ts), t).1 == FdbDo(FdbRun(Accepted(ts)), t.op).1
  {
    assert (ts + [t])[..|ts|] == ts;
    PgRunRefines(ts);
    FdbRunRefines(Accepted(ts));
    PgRefines(PgRun(ts), Run(Accepted(ts)), t);
    FdbRefines(FdbRun(Accepted(ts)), Run(Accepted(ts)), t.op);
  }

  // ---- Postgres with timestamps that are only distinct ------------------------------------------

  ghost predicate DistinctTimes(rows: seq<Row>) {
    forall i, j :: 0 <= i < j < |rows| && rows[i].to == rows[j].to ==> rows[i].created != rows[j].created
  }

  ghost predicate Unused(rows: seq<Row>, t: Turn) {
    t.op.Send? ==> forall i :: 0 <= i < |rows| && rows[i].to == t.op.to ==> rows[i].created != t.now
  }

  /** A run whose messages never share a timestamp with a message they wait with. */
  ghost predicate PgDistinct(ts: seq<Turn>) {
    ts == [] ||
    (PgDistinct(ts[..|ts| - 1])
     && PickOk(PgRun(ts[..|ts| - 1]).rows, ts[|ts| - 1]) && Unused(PgRun(ts[..|ts| - 1]).rows, ts[|ts| - 1]))
  }

  /** The effects of a Postgres run, in order. */
  ghost function PgEffects(ts: seq<Turn>): seq<Effect> {
    if ts == [] then []
    else
      var p, t := PgRun(ts[..|ts| - 1]), ts[|ts| - 1];
      var before := PgEffects(ts[..|ts| - 1]);
      if PickOk(p.rows, t) && t.op.k !in p.outputs && t.op.k in PgDo(p, t).0.outputs
      then before + [Effect(t.op, PgDo(p, t).0.outputs[t.op.k])]
      else before
  }

  lemma {:induction false} WithoutDistinct(rows: seq<Row>, a: Address, created: int)
    requires DistinctTimes(rows)
    ensures DistinctTimes(Without(rows, a, created))
  {
    if rows != [] {
      var n := |rows| - 1;
      WithoutDistinct(rows[..n], a, created);
      var rest := Without(rows[..n], a, created);
      forall j | 0 <= j < |rest| && rest[j].to == rows[n].to ensures rest[j].created != rows[n].created {
        KeepsOthers(rows[..n], a, created, rest[j]);
        var k :| 0 <= k < n && rows[..n][k] == rest[j];
        assert rows[k] == rest[j];
      }
    }
  }

  lemma DistinctStep(p: Postgres, t: Turn)
    requires PickOk(p.rows, t) && DistinctTimes(p.rows) && Unused(p.rows, t)
    ensures DistinctTimes(PgDo(p, t).0.rows)
  {
    if t.op.Recv? && t.pick.Some? {
      var r := p.rows[t.pick.value];
      WithoutDistinct(p.rows, r.to, r.created);
    }
  }

  /** A receive takes the message it returns and no other. */
  lemma TakesOne(rows: seq<Row>, i: nat, a: Address)
    requires i < |rows| && DistinctTimes(rows)
    ensures
      var r := rows[i];
      multiset(Waiting(rows, a))
      == multiset(Waiting(Without(rows, r.to, r.created), a)) + (if a == r.to then multiset{r.message} else multiset{})
  {
    var r := rows[i];
    if a == r.to {
      DeleteRemovesTied(rows, a, r.created);
      assert OnlyOne(rows, i);
      OneTied(rows, i);
      TiedMember(rows, a, r.created, i);
      SingletonBag(Tied(rows, a, r.created), r.message);
    } else {
      OthersStay(rows, r.to, r.created, a);
    }
  }

  ghost predicate BagConserved(es: seq<Effect>, rows: seq<Row>, a: Address) {
    multiset(Sent(es, a)) == multiset(Received(es, a)) + multiset(Waiting(rows, a))
  }

  lemma BagReceive(es: seq<Effect>, rows: seq<Row>, e: Effect, i: nat, a: Address)
    requires i < |rows| && DistinctTimes(rows) && BagConserved(es, rows, a)
    requires e.op.Recv? && Address(e.op.k.wf, e.op.topic) == rows[i].to && e.output == Message(rows[i].message)
    ensures BagConserved(es + [e], Without(rows, rows[i].to, rows[i].created), a)
  {
    SentSnoc(es, e, a);
    ReceivedSnoc(es, e, a);
    TakesOne(rows, i, a);
  }

  lemma BagOther(es: seq<Effect>, rows: seq<Row>, e: Effect, rows': seq<Row>, a: Address)
    requires BagConserved(es, rows, a) && (e.op.Recv? ==> !e.output.Message?)
    requires if e.op.Send? then exists now :: rows' == rows + [Row(e.op.to, e.op.message, now)] else rows' == rows
    ensures BagConserved(es + [e], rows', a)
  {
    SentSnoc(es, e, a);
    ReceivedSnoc(es, e, a);
    if e.op.Send? {
      var now :| rows' == rows + [Row(e.op.to, e.op.message, now)];
      WaitingSnoc(rows, Row(e.op.to, e.op.message, now), a);
    }
  }

  lemma BagStep(p: Postgres, t: Turn, es: seq<Effect>, a: Address)
    requires PickOk(p.rows, t) && DistinctTimes(p.rows) && BagConserved(es, p.rows, a)
    requires t.op.k !in p.outputs && t.op.k in PgDo(p, t).0.outputs
    ensures BagConserved(es + [Effect(t.op, PgDo(p, t).0.outputs[t.op.k])], PgDo(p, t).0.rows, a)
  {
    var e := Effect(t.op, PgDo(p, t).0.outputs[t.op.k]);
    if t.op.Recv? && t.pick.Some? {
      BagReceive(es, p.rows, e, t.pick.value, a);
    } else {
      BagOther(es, p.rows, e, PgDo(p, t).0.rows, a);
    }
  }

  lemma {:induction false} DistinctRuns(ts: seq<Turn>)
    requires PgDistinct(ts)
    ensures DistinctTimes(PgRun(ts).rows) && OncePerKey(PgEffects(ts), PgRun(ts).outputs)
    ensures forall a :: BagConserved(PgEffects(ts), PgRun(ts).rows, a)
  {
    if ts != [] {
      var n := |ts| - 1;
      var p, t, es := PgRun(ts[..n]), ts[n], PgEffects(ts[..n]);
      DistinctRuns(ts[..n]);
      DistinctStep(p, t);
      if t.op.k !in p.outputs && t.op.k in PgDo(p, t).0.outputs {
        OnceStep(es, p.outputs, Effect(t.op, PgDo(p, t).0.outputs[t.op.k]));
        forall a ensures BagConserved(PgEffects(ts), PgRun(ts).rows, a) {
          assert BagConserved(es, p.rows, a);
          BagStep(p, t, es, a);
        }
      } else {
        assert PgDo(p, t).0 == p;
      }
    }
  }

  /** CONSERVATION WITH DISTINCT TIMESTAMPS: even if messages do not arrive in the order of their timestamps, each
      identifier takes effect once, and what was sent to an address is what was received plus what waits. */
  lemma {:induction false} PostgresConservesBags(ts: seq<Turn>, a: Address)
    requires PgDistinct(ts)
    ensures OncePerKey(PgEffects(ts), PgRun(ts).outputs)
    ensures multiset(Sent(PgEffects(ts), a))
            == multiset(Received(PgEffects(ts), a)) + multiset(Waiting(PgRun(ts).rows, a))
  {
    DistinctRuns(ts);
    assert BagConserved(PgEffects(ts), PgRun(ts).rows, a);
  }

  // ---- equal timestamps -------------------------------------------------------------------------

  /** Two messages are sent to one address in one millisecond, and a receive takes the first. */
  ghost function TiedTurns(to: Address, k: Key, l: Key, m: Key, first: Value, second: Value): seq<Turn> {
    [Turn(Op.Send(k, to, first), 1, {to.wf}, None, false),
     Turn(Op.Send(l, to, second), 1, {to.wf}, None, false),
     Turn(Op.Recv(m, to.topic), 1, {to.wf}, Some(0), false)]
  }

  lemma PgRunSnoc(ts: seq<Turn>, t: Turn)
    requires PickOk(PgRun(ts).rows, t)
    ensures PgRun(ts + [t]) == PgDo(PgRun(ts), t).0
  {
    assert (ts + [t])[..|ts|] == ts;
  }

  lemma TwoSends(to: Address, k: Key, l: Key, first: Value, second: Value)
    requires k != l
    ensures
      var t := Turn(Op.Send(k, to, first), 1, {to.wf}, None, false);
      var u := Turn(Op.Send(l, to, second), 1, {to.wf}, None, false);
      PgRun([t, u]) == Postgres([Row(to, first, 1), Row(to, second, 1)], map[], map[k := Nothing, l := Nothing])
  {
    var t := Turn(Op.Send(k, to, first), 1, {to.wf}, None, false);
    var u := Turn(Op.Send(l, to, second), 1, {to.wf}, None, false);
    PgRunSnoc([], t);
    assert [] + [t] == [t];
    assert PgRun([t]) == Postgres([Row(to, first, 1)], map[], map[k := Nothing]);
    PgRunSnoc([t], u);
    assert [t] + [u] == [t, u];
  }

  lemma BothDeleted(to: Address, first: Value, second: Value)
    ensures Without([Row(to, first, 1), Row(to, second, 1)], to, 1) == []
  {
    var a, b := Row(to, first, 1), Row(to, second, 1);
    assert [a, b][..1] == [a] && [a][..0] == [];
    assert Without([a], to, 1) == [];
  }

  /** A LOST MESSAGE: whatever the address and the messages, both sends are recorded, the first message is received, and
      the second is neither received nor waiting. */
  lemma TiedMessageIsLost(to: Address, k: Key, l: Key, m: Key, first: Value, second: Value)
    requires k != l && m != k && m != l && m.wf == to.wf
    ensures
      var p := PgRun(TiedTurns(to, k, l, m, first, second));
      && p.outputs == map[k := Nothing, l := Nothing, m := Message(first)]
      && Waiting(p.rows, to) == []
  {
    var ts := TiedTurns(to, k, l, m, first, second);
    TwoSends(to, k, l, first, second);
    BothDeleted(to, first, second);
    assert IsOldest(PgRun([ts[0], ts[1]]).rows, to, 0);
    PgRunSnoc([ts[0], ts[1]], ts[2]);
    assert [ts[0], ts[1]] + [ts[2]] == ts;
  }
}
