/** The two system databases, as far as messages, events and operation outputs go. */
module MailboxStores {
  import opened Options
  import opened Workflows
  import opened Mailboxes

  class PostgresSystemDatabase {
    var notifications: seq<Row>
    var events: map<EventKey, Value>
    var outputs: map<Key, Output>

    function State(): Postgres
      reads this
    {
      Postgres(notifications, events, outputs)
    }

    method CheckOperationOutput(k: Key) returns (o: Option<Output>)
      ensures o == if k in outputs then Some(outputs[k]) else None
    {
      o := if k in outputs then Some(outputs[k]) else None;
    }

    /** The guarded insert every operation ends with; the primary key refuses a second row. */
    method RecordNotificationOutput(k: Key, output: Output) returns (ok: bool)
      modifies this`outputs
      ensures ok <==> k !in old(outputs)
      ensures outputs == if ok then old(outputs)[k := output] else old(outputs)
    {
      ok := k !in outputs;
      if ok { outputs := outputs[k := output]; }
    }

    /** `t.late`: the check ran before another execution recorded the same identifier. */
    method Send(t: Turn) returns (r: Reply)
      requires t.op.Send?
      modifies this
      ensures (State(), r) == PgDo(old(State()), t)
      ensures !r.Done? ==> State() == old(State())
      ensures t.op.k in old(outputs) ==> State() == old(State())
      ensures r.NoSuchWorkflow? <==> t.op.to.wf !in t.known && (t.late || t.op.k !in old(outputs))
      ensures r.Conflict? <==> t.op.to.wf in t.known && t.late && t.op.k in old(outputs)
      ensures r.Done? && t.op.k !in old(outputs) ==>
        && notifications == old(notifications) + [Row(t.op.to, t.op.message, t.now)] && events == old(events)
        && outputs == old(outputs)[t.op.k := Nothing]
    {
      var earlier := CheckOperationOutput(t.op.k);
      if earlier.Some? && !t.late {
        return Done;
      }
      var before := notifications;
      if t.op.to.wf !in t.known {
        return NoSuchWorkflow;
      }
      notifications := notifications + [Row(t.op.to, t.op.message, t.now)];
      var ok := RecordNotificationOutput(t.op.k, Nothing);
      if !ok {
        notifications := before;
        return Conflict;
      }
      r := Done;
    }

    /** A recorded receive is answered from its record; otherwise its last transaction decides. */
    method Recv(t: Turn) returns (r: Reply)
      requires t.op.Recv? && PickOk(notifications, t)
      modifies this
      ensures !t.late && t.op.k in old(outputs) ==> State() == old(State()) && r == Got(old(outputs)[t.op.k])
      ensures t.late || t.op.k !in old(outputs) ==> (State(), r) == PgDo(old(State()), t)
      ensures t.late && t.op.k in old(outputs) ==> State() == old(State()) && r.Conflict?
      ensures t.op.k !in old(outputs) ==>
        && r.Got? && outputs == old(outputs)[t.op.k := r.output] && events == old(events)
        && (t.pick.None? ==> r.output == NoMessage && notifications == old(notifications))
        && (t.pick.Some? ==> r.output == Message(old(notifications)[t.pick.value].message))
    {
      var earlier := CheckOperationOutput(t.op.k);
      if earlier.Some? && !t.late {
        return Got(earlier.value);
      }
      var before := notifications;
      var message := NoMessage;
      if t.pick.Some? {
        var oldest := notifications[t.pick.value];
        notifications := Without(notifications, oldest.to, oldest.created);
        message := Message(oldest.message);
      }
      var ok := RecordNotificationOutput(t.op.k, message);
      if !ok {
        notifications := before;
        return Conflict;
      }
      r := Got(message);
    }

    method SetEvent(t: Turn) returns (r: Reply)
      requires t.op.SetEvent?
      modifies this
      ensures (State(), r) == PgDo(old(State()), t)
      ensures t.op.k in old(outputs) ==> State() == old(State()) && r == if t.late then Conflict else Done
      ensures t.op.k !in old(outputs) ==>
        && r.Done? && notifications == old(notifications) && outputs == old(outputs)[t.op.k := Nothing]
        && events == old(events)[EventKey(t.op.k.wf, t.op.event) := t.op.value]
    {
      var earlier := CheckOperationOutput(t.op.k);
      if earlier.Some? && !t.late {
        return Done;
      }
      var before := events;
      events := events[EventKey(t.op.k.wf, t.op.event) := t.op.value];
      var ok := RecordNotificationOutput(t.op.k, Nothing);
      if !ok {
        events := before;
        return Conflict;
      }
      r := Done;
    }
  }

  class FoundationDbSystemDatabase {
    var lists: map<Address, seq<Value>>
    var events: map<EventKey, Value>
    var outputs: map<Key, Output>

    function State(): Foundation
      reads this
    {
      Foundation(lists, events, outputs)
    }

    method Send(k: Key, to: Address, message: Value) returns (r: Reply)
      modifies this
      ensures (State(), r) == FdbDo(old(State()), Op.Send(k, to, message))
    {
      if k in outputs {
        return Done;
      }
      if to !in lists {
        lists := lists[to := [message]];
      } else {
        lists := lists[to := lists[to] + [message]];
      }
      outputs := outputs[k := Nothing];
      r := Done;
    }

    /** The last transaction of a receive: it takes the first message off the list before it looks for an
        output, and a conflict undoes that. */
    method Recv(k: Key, topic: string) returns (r: Reply)
      modifies this
      ensures (State(), r) == FdbDo(old(State()), Op.Recv(k, topic))
    {
      var a := Address(k.wf, topic);
      var messages := if a in lists then lists[a] else [];
      var message := NoMessage;
      if messages != [] {
        message := Message(messages[0]);
        messages := messages[1..];
      }
      if k in outputs {
        return Conflict;
      }
      outputs := outputs[k := message];
      if messages != [] {
        lists := lists[a := messages];
      } else {
        lists := lists - {a};
      }
      r := Got(message);
    }

    method SetEvent(k: Key, event: string, value: Value) returns (r: Reply)
      modifies this
      ensures (State(), r) == FdbDo(old(State()), Op.SetEvent(k, event, value))
    {
      if k in outputs {
        return Done;
      }
      events := events[EventKey(k.wf, event) := value];
      outputs := outputs[k := Nothing];
      r := Done;
    }
  }
}
