/** Messages and events between durable workflows: in every run each recorded send has put its message into the mailbox
    of its address once, each message has been received at most once and in order, and an event read has been set. */
module DurableMessages {
  import opened Workflows
  import opened DurableSteps
  import opened DurableRuns
  import M = Mailboxes

  /** The messages of some letters that are for one address, in order. */
  function For(ls: seq<Letter>, a: Address): seq<Value> {
    if ls == [] then []
    else
      var l := ls[|ls| - 1];
      For(ls[..|ls| - 1], a) + (if l.address == a then [l.message] else [])
  }

  lemma ForOneMore(ls: seq<Letter>, l: Letter, a: Address)
    ensures For(ls + [l], a) == For(ls, a) + (if l.address == a then [l.message] else [])
  {
    assert (ls + [l])[..|ls|] == ls;
  }

  /** What was sent to an address is what was received there, followed by what waits there, in order. */
  ghost predicate Conserved(ex: Exchange) {
    forall a: Address :: For(ex.sent, a) == For(ex.received, a) + ex.Waiting(a)
  }

  ghost predicate OneEach(ls: seq<Letter>) {
    forall i, j :: 0 <= i < j < |ls| ==> ls[i].key != ls[j].key
  }

  /** Each letter sent has the row of its send, and each letter received the row of its receive, which holds its
      message; no operation has sent or received two. */
  ghost predicate Accounted(t: Tables) {
    && OneEach(t.ex.sent) && OneEach(t.ex.received)
    && (forall l :: l in t.ex.sent ==> l.key in t.ops && t.ops[l.key] == Ok(UNIT))
    && (forall l :: l in t.ex.received ==>
          l.key in t.ops && t.ops[l.key] == Ok(l.message) && l.key.wf == l.address.wf)
  }

  /** The stored value of an event is one that was set. */
  ghost predicate EventsWereSet(ex: Exchange) {
    forall e :: e in ex.events ==> EventSet(e, ex.events[e]) in ex.sets
  }

  ghost predicate Exact(t: Tables) {
    Conserved(t.ex) && Accounted(t) && EventsWereSet(t.ex)
  }

  lemma ExchangeConserves(ex: Exchange, k: Key, a: Action)
    requires Conserved(ex)
    ensures Conserved(Exchanged(ex, k, a))
  {
    var ex' := Exchanged(ex, k, a);
    forall b: Address ensures For(ex'.sent, b) == For(ex'.received, b) + ex'.Waiting(b) {
      if a.Send? {
        SendConserves(ex, k, a, b);
      } else if a.Recv? {
        ReceiveConserves(ex, k, a, b);
      }
    }
  }

  lemma SendConserves(ex: Exchange, k: Key, a: Action, b: Address)
    requires Conserved(ex) && a.Send?
    ensures
      var ex' := Exchanged(ex, k, a);
      For(ex'.sent, b) == For(ex'.received, b) + ex'.Waiting(b)
  {
    var to := Address(a.destination, a.topic);
    ForOneMore(ex.sent, Letter(k, to, a.message), b);
    assert Exchanged(ex, k, a).Waiting(b) == ex.Waiting(b) + (if b == to then [a.message] else []);
    if b == to {
      assert For(ex.received, b) + (ex.Waiting(b) + [a.message]) == (For(ex.received, b) + ex.Waiting(b)) + [a.message];
    }
  }

  lemma ReceiveConserves(ex: Exchange, k: Key, a: Action, b: Address)
    requires Conserved(ex) && a.Recv?
    ensures
      var ex' := Exchanged(ex, k, a);
      For(ex'.sent, b) == For(ex'.received, b) + ex'.Waiting(b)
  {
    var at := Address(k.wf, a.topic);
    var waiting := ex.Waiting(at);
    if waiting != [] {
      ForOneMore(ex.received, Letter(k, at, waiting[0]), b);
      if b == at {
        assert waiting == [waiting[0]] + waiting[1..];
        assert (For(ex.received, b) + [waiting[0]]) + waiting[1..] == For(ex.received, b) + waiting;
      }
    }
  }

  lemma LettersOneMore(ls: seq<Letter>, l: Letter)
    requires OneEach(ls) && forall m :: m in ls ==> m.key != l.key
    ensures OneEach(ls + [l])
  {
    forall i, j | 0 <= i < j < |ls + [l]| ensures (ls + [l])[i].key != (ls + [l])[j].key {
      if j == |ls| { assert ls[i] in ls; }
    }
  }

  lemma RecordingAccounts(app: App, t: Tables, c: Ctx, o: Outcome)
    requires Accounted(t) && c.MyKey() !in t.ops && Possible(NextAction(app, c.wf, c.hist), o)
    ensures Accounted(RecordOpStep(app, t, c, o).0)
  {
    var a := NextAction(app, c.wf, c.hist);
    var ex' := RecordOpStep(app, t, c, o).0.ex;
    if a.Send? {
      LettersOneMore(t.ex.sent, ex'.sent[|t.ex.sent|]);
    } else if a.Recv? && ex' != t.ex {
      LettersOneMore(t.ex.received, ex'.received[|t.ex.received|]);
    }
  }

  lemma OnlyRecordingExchanges(app: App, t: Tables, c: Ctx, m: Move)
    requires Enabled(app, c, m) && !m.RecordOp?
    ensures Perform(app, t, c, m).0.ex == t.ex
    ensures forall k :: k in t.ops ==> k in Perform(app, t, c, m).0.ops && Perform(app, t, c, m).0.ops[k] == t.ops[k]
  {
  }

  lemma ExactMove(app: App, t: Tables, c: Ctx, m: Move)
    requires Enabled(app, c, m) && Exact(t)
    ensures Exact(Perform(app, t, c, m).0)
  {
    if m.RecordOp? && c.MyKey() !in t.ops {
      ExchangeConserves(t.ex, c.MyKey(), NextAction(app, c.wf, c.hist));
      RecordingAccounts(app, t, c, m.outcome);
    } else if !m.RecordOp? {
      OnlyRecordingExchanges(app, t, c, m);
    }
  }

  /** MESSAGES, ONCE AND IN ORDER: in every run, whatever crashes, is replayed or is executed twice, each recorded send
      has delivered its message once, and what was sent to an address is what recorded receives have returned there, in
      order, followed by what waits. */
  lemma {:induction false} MessagesOnceAndInOrder(app: App, db: Db, ls: seq<Label>)
    ensures Exact(Run(app, db, ls).t)
  {
    if ls != [] {
      var n := |ls| - 1;
      MessagesOnceAndInOrder(app, db, ls[..n]);
      var s := Run(app, db, ls[..n]);
      if CanStep(app, s, ls[n]) && ls[n].Do? {
        ExactMove(app, s.t, s.execs[ls[n].x], ls[n].move);
      }
    }
  }

  // ---- what an operation is recorded with -----------------------------------------------------------

  /** NEXT IN LINE: in every run, a receive that is recorded takes the first message sent to its address that no
      recorded receive has taken, and takes none if and only if all have been taken. */
  lemma {:induction false} ReceiveTakesTheNext(app: App, db: Db, ls: seq<Label>, x: nat, o: Outcome)
    requires
      var s := Run(app, db, ls);
      && CanStep(app, s, Do(x, RecordOp(o))) && s.execs[x].MyKey() !in s.t.ops
      && NextAction(app, s.execs[x].wf, s.execs[x].hist).Recv?
    ensures
      var s := Run(app, db, ls);
      var c := s.execs[x];
      var at := Address(c.wf, NextAction(app, c.wf, c.hist).topic);
      var (t', d) := RecordOpStep(app, s.t, c, o);
      var sent, taken := For(s.t.ex.sent, at), |For(s.t.ex.received, at)|;
      && taken <= |sent| && |d.hist| == |c.hist| + 1
      && if taken < |sent| then
           && d.hist[|c.hist|].outcome == Ok(sent[taken])
           && For(t'.ex.received, at) == For(s.t.ex.received, at) + [sent[taken]]
         else
           d.hist[|c.hist|].outcome == Ok(NULL) && t'.ex == s.t.ex
  {
    MessagesOnceAndInOrder(app, db, ls);
    var s := Run(app, db, ls);
    var c := s.execs[x];
    var at := Address(c.wf, NextAction(app, c.wf, c.hist).topic);
    var waiting := s.t.ex.Waiting(at);
    assert For(s.t.ex.sent, at) == For(s.t.ex.received, at) + waiting;
    if waiting != [] { ForOneMore(s.t.ex.received, Letter(c.MyKey(), at, waiting[0]), at); }
  }

  // ---- the same mailbox -----------------------------------------------------------------------------

  /** An operation of a durable workflow as an operation of the mailbox. */
  function MailOp(k: Key, a: Action): M.Op
    requires a.Send? || a.Recv? || a.SetEvent?
  {
    match a
    case Send(destination, topic, message) => M.Op.Send(k, Address(destination, topic), message)
    case Recv(topic) => M.Op.Recv(k, topic)
    case SetEvent(name, payload) => M.Op.SetEvent(k, name, payload)
  }

  /** What an output of the mailbox is to a workflow. */
  function Received(o: M.Output): Value {
    match o
    case Nothing => UNIT
    case NoMessage => NULL
    case Message(v) => v
  }

  /** ONE MAILBOX: what recording a send, a receive or an event does to mailboxes and events is what the operation of
      the mailbox does that both stores refine, and a receive yields what it replies. */
  lemma ExchangeIsMailbox(ex: Exchange, k: Key, a: Action, outputs: map<Key, M.Output>)
    requires (a.Send? || a.Recv? || a.SetEvent?) && k !in outputs
    ensures
      var (m, reply) := M.Do(M.Mail(ex.mail, ex.events, outputs), MailOp(k, a));
      && Exchanged(ex, k, a).mail == m.boxes && Exchanged(ex, k, a).events == m.events
      && k in m.outputs
      && (forall o: Outcome :: Possible(a, o) ==> Yields(ex, k.wf, a, o) == Ok(Received(m.outputs[k])))
      && reply == if a.Recv? then M.Got(m.outputs[k]) else M.Done
  {
  }
}
