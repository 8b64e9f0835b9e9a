/** The write-behind buffers of the system database: finished statuses and inputs wait in memory, and are
    flushed in batches that may fail while new entries arrive. */
module FlushBuffers {
  import opened Batches
  import opened Workflows

  type Entries = map<WfId, Value>

  // ---- what a flush may lose: nothing -----------------------------------------------------------

  /** What other workflows do while a flush waits for the database: statuses are buffered, errors recorded
      at once, inputs buffered. */
  datatype Arrival = Arrival(statuses: Entries, recorded: Entries, inputs: Entries)

  datatype Await = Await(arrival: Arrival, answer: Answer)

  /** Where a flush is: the entries still to write, the rows of the table, what arrived in the buffer since,
      and whose rows others wrote. */
  datatype Progress = Progress(local: Entries, rows: Entries, arrived: Entries, others: set<WfId>)

  /** Nothing of `before` is lost: what is no longer to be written is in a row, with its value or one that
      others wrote later; and rows change only by that. */
  ghost predicate Safe(before: Entries, rows: Entries, p: Progress) {
    && PartOf(p.local, before)
    && (forall w :: w in before && w !in p.local ==> w in p.rows && (p.rows[w] == before[w] || w in p.others))
    && (forall w :: w in rows ==> w in p.rows)
    && (forall w :: w in p.rows && w !in p.others ==>
          (w in rows && p.rows[w] == rows[w]) || (w in before && p.rows[w] == before[w]))
  }

  /** One batch of statuses, which overwrite; the entries written leave the local buffer. */
  function StatusRound(p: Progress, batch: Entries, a: Await): Progress {
    Progress(
      if a.answer.Written? then p.local - batch.Keys else p.local,
      (if a.answer.Refused? then p.rows else p.rows + batch) + a.arrival.recorded,
      p.arrived + a.arrival.statuses,
      p.others + a.arrival.recorded.Keys)
  }

  lemma StatusRoundSafe(before: Entries, rows: Entries, p: Progress, batch: Entries, a: Await)
    requires Safe(before, rows, p) && PartOf(batch, p.local)
    ensures Safe(before, rows, StatusRound(p, batch, a))
  {
  }

  /** A flush of `n` statements has gone on as long as all were written, and has stopped early only at one that was
      not. */
  ghost predicate StopsAtFailure(world: nat -> Await, n: nat, complete: bool) {
    if n == 0 then complete else WrittenUpTo(world, n - 1) && (complete || !world(n - 1).answer.Written?)
  }

  ghost predicate WrittenUpTo(world: nat -> Await, n: nat) {
    n == 0 || (WrittenUpTo(world, n - 1) && world(n - 1).answer.Written?)
  }

  /** The flush goes on after `n` statements, or has just failed. */
  ghost predicate Going(world: nat -> Await, n: nat, failed: bool) {
    if failed then n > 0 && WrittenUpTo(world, n - 1) && !world(n - 1).answer.Written? else WrittenUpTo(world, n)
  }

  lemma GoesOn(world: nat -> Await, n: nat, failed: bool)
    requires Going(world, n, false) && failed == !world(n).answer.Written?
    ensures Going(world, n + 1, failed)
  {
  }

  lemma GoingStops(world: nat -> Await, n: nat, failed: bool, complete: bool)
    requires Going(world, n, failed) && (!failed ==> complete)
    ensures StopsAtFailure(world, n, complete) && (AllWritten(world) ==> complete)
  {
  }

  ghost predicate AllWritten(world: nat -> Await) {
    forall i :: world(i).answer.Written?
  }

  /** Nothing arrives while a flush waits. */
  ghost predicate Quiet(world: nat -> Await) {
    forall i :: world(i).arrival.statuses == map[] && world(i).arrival.inputs == map[]
  }

  /** A buffer after `n` waits, with what arrived in it over what it held. */
  function StatusesAfter(buffer: Entries, world: nat -> Await, n: nat): Entries {
    if n == 0 then buffer else StatusesAfter(buffer, world, n - 1) + world(n - 1).arrival.statuses
  }

  function InputsAfter(buffer: Entries, world: nat -> Await, n: nat): Entries {
    if n == 0 then buffer else InputsAfter(buffer, world, n - 1) + world(n - 1).arrival.inputs
  }

  function RecordedIn(world: nat -> Await, n: nat): set<WfId> {
    if n == 0 then {} else RecordedIn(world, n - 1) + world(n - 1).arrival.recorded.Keys
  }

  /** The workflows with a status, buffered or written, after `n` waits. */
  ghost function KnownAfter(known: set<WfId>, world: nat -> Await, n: nat): set<WfId> {
    if n == 0 then known
    else KnownAfter(known, world, n - 1) + Statuses(world(n - 1).arrival)
  }

  /** The workflows that an arrival gives a status. */
  ghost function Statuses(a: Arrival): set<WfId> { a.statuses.Keys + a.recorded.Keys }

  lemma {:induction false} KnownIs(buffer: Entries, rows: set<WfId>, world: nat -> Await, n: nat)
    ensures KnownAfter(buffer.Keys + rows, world, n) ==
            StatusesAfter(buffer, world, n).Keys + (rows + RecordedIn(world, n))
  {
    if n > 0 {
      KnownIs(buffer, rows, world, n - 1);
      var a := world(n - 1).arrival;
      assert StatusesAfter(buffer, world, n).Keys == StatusesAfter(buffer, world, n - 1).Keys + a.statuses.Keys;
    }
  }

  lemma {:induction false} KnownGrows(known: set<WfId>, more: set<WfId>, world: nat -> Await, n: nat)
    requires known <= more
    ensures known <= KnownAfter(known, world, n) <= KnownAfter(more, world, n)
  {
    if n > 0 { KnownGrows(known, more, world, n - 1); }
  }

  /** Inputs are buffered only for a workflow whose status has been buffered or recorded before, at any time. */
  ghost predicate Orderly(known: set<WfId>, world: nat -> Await) {
    forall i: nat :: world(i).arrival.inputs.Keys <= KnownAfter(known, world, i + 1)
  }

  lemma {:induction false} BuffersGrow(buffer: Entries, world: nat -> Await, n: nat)
    ensures buffer.Keys <= InputsAfter(buffer, world, n).Keys
  {
    if n > 0 { BuffersGrow(buffer, world, n - 1); }
  }

  /** Then every buffered input has a status. */
  lemma {:induction false} InputsKnown(buffer: Entries, known: set<WfId>, world: nat -> Await, n: nat)
    requires buffer.Keys <= known && Orderly(known, world)
    ensures InputsAfter(buffer, world, n).Keys <= KnownAfter(known, world, n)
  {
    if n > 0 {
      InputsKnown(buffer, known, world, n - 1);
      var a := world(n - 1).arrival;
      assert InputsAfter(buffer, world, n).Keys == InputsAfter(buffer, world, n - 1).Keys + a.inputs.Keys;
      assert world(n - 1).arrival.inputs.Keys <= KnownAfter(known, world, n);
    }
  }

  /** What the world does after `m` waits. */
  function Later(world: nat -> Await, m: nat): nat -> Await { (i: nat) => world(m + i) }

  lemma {:induction false} LaterKnown(known: set<WfId>, world: nat -> Await, m: nat, n: nat)
    ensures KnownAfter(KnownAfter(known, world, m), Later(world, m), n) == KnownAfter(known, world, m + n)
  {
    if n > 0 { LaterKnown(known, world, m, n - 1); }
  }

  lemma LaterArrival(known: set<WfId>, world: nat -> Await, m: nat, now: set<WfId>, i: nat)
    requires Orderly(known, world) && KnownAfter(known, world, m) <= now
    ensures world(m + i).arrival.inputs.Keys <= KnownAfter(now, Later(world, m), i + 1)
  {
    LaterKnown(known, world, m, i + 1);
    KnownGrows(KnownAfter(known, world, m), now, Later(world, m), i + 1);
    assert world(m + i).arrival.inputs.Keys <= KnownAfter(known, world, (m + i) + 1);
    assert (m + i) + 1 == m + (i + 1);
  }

  lemma LaterOrderly(known: set<WfId>, world: nat -> Await, m: nat, now: set<WfId>)
    requires Orderly(known, world) && KnownAfter(known, world, m) <= now
    ensures Orderly(now, Later(world, m))
  {
    forall i: nat ensures Later(world, m)(i).arrival.inputs.Keys <= KnownAfter(now, Later(world, m), i + 1) {
      LaterArrival(known, world, m, now, i);
    }
  }

  lemma {:induction false} QuietBuffers(buffer: Entries, world: nat -> Await, n: nat)
    requires Quiet(world)
    ensures StatusesAfter(buffer, world, n).Keys == buffer.Keys && InputsAfter(buffer, world, n).Keys == buffer.Keys
  {
    if n > 0 {
      QuietBuffers(buffer, world, n - 1);
      assert world(n - 1).arrival.statuses == map[] && world(n - 1).arrival.inputs == map[];
    }
  }

  /** No status of the workflow is ever buffered or recorded. */
  ghost predicate NeverKnown(world: nat -> Await, w: WfId) {
    forall i :: w !in world(i).arrival.statuses && w !in world(i).arrival.recorded
  }

  lemma {:induction false} StaysUnknown(known: set<WfId>, world: nat -> Await, w: WfId, n: nat)
    requires NeverKnown(world, w) && w !in known
    ensures w !in KnownAfter(known, world, n) && w !in RecordedIn(world, n)
  {
    if n > 0 {
      StaysUnknown(known, world, w, n - 1);
      assert w !in world(n - 1).arrival.statuses && w !in world(n - 1).arrival.recorded;
    }
  }

  lemma LaterSame(world: nat -> Await, m: nat)
    ensures AllWritten(world) ==> AllWritten(Later(world, m))
    ensures Quiet(world) ==> Quiet(Later(world, m))
  {
    assert forall i: nat :: Later(world, m)(i) == world(m + i);
  }

  /** Over two flushes, one after the other. */
  lemma StaysUnknownLater(known: set<WfId>, world: nat -> Await, w: WfId, m: nat, n: nat)
    requires NeverKnown(world, w) && w !in known
    ensures w !in KnownAfter(known, world, m) && w !in RecordedIn(Later(world, m), n)
    ensures w !in KnownAfter(KnownAfter(known, world, m), Later(world, m), n)
  {
    StaysUnknown(known, world, w, m);
    assert NeverKnown(Later(world, m), w) by {
      assert forall i: nat :: Later(world, m)(i) == world(m + i);
    }
    StaysUnknown(KnownAfter(known, world, m), Later(world, m), w, n);
  }

  /** What holds `n` statements after a status flush began. */
  ghost predicate StatusInv(before: Entries, rows: Entries, world: nat -> Await, n: nat, p: Progress) {
    && Safe(before, rows, p) && p.arrived == StatusesAfter(map[], world, n)
    && p.others == RecordedIn(world, n) && p.others <= p.rows.Keys
  }

  lemma StatusRoundInv(before: Entries, rows: Entries, world: nat -> Await, n: nat, p: Progress,
                       batch: Entries)
    requires StatusInv(before, rows, world, n, p) && PartOf(batch, p.local)
    ensures StatusInv(before, rows, world, n + 1, StatusRound(p, batch, world(n)))
  {
    StatusRoundSafe(before, rows, p, batch, world(n));
  }

  /** Whatever had a status, written or to be written, still has, and nothing else has. */
  lemma StatusKnown(before: Entries, rows: Entries, world: nat -> Await, n: nat, p: Progress)
    requires StatusInv(before, rows, world, n, p)
    ensures p.local.Keys + p.arrived.Keys + p.rows.Keys == KnownAfter(before.Keys + rows.Keys, world, n)
  {
    var none: Entries := map[];
    KnownIs(none, before.Keys + rows.Keys, world, n);
    assert none.Keys + (before.Keys + rows.Keys) == before.Keys + rows.Keys;
    assert p.local.Keys + p.rows.Keys == before.Keys + rows.Keys + p.others;
  }

  // ---- inputs -----------------------------------------------------------------------------------

  /** Nothing of `before` is lost, and no input row is ever overwritten. */
  ghost predicate SafeInputs(before: Entries, rows: Entries, local: Entries, now: Entries) {
    && PartOf(local, before) && PartOf(rows, now)
    && (forall w :: w in before && w !in local ==> w in now)
    && (forall w :: w in now && w !in rows ==> w in before && now[w] == before[w])
  }

  lemma InputsRoundSafe(before: Entries, rows: Entries, local: Entries, now: Entries,
                        batch: Entries, answer: Answer)
    requires SafeInputs(before, rows, local, now) && PartOf(batch, local)
    ensures SafeInputs(before, rows, if answer.Written? then local - batch.Keys else local,
                       if answer.Refused? then now else batch + now)
  {
  }

  /** Both buffers, both tables, and the inputs still to write. */
  datatype State = State(local: Entries, inputsBuffer: Entries, statusBuffer: Entries,
                         statusRows: Entries, inputRows: Entries)

  /** The foreign key: every row of inputs has its row of status. */
  ghost predicate KeyKept(t: State) { t.inputRows.Keys <= t.statusRows.Keys }

  /** The workflows with a status, buffered or written. */
  ghost function Known(t: State): set<WfId> { t.statusBuffer.Keys + t.statusRows.Keys }

  /** Every input, still to write or buffered, has a status. */
  ghost predicate Owed(t: State) { t.local.Keys + t.inputsBuffer.Keys <= Known(t) }

  /** The database takes a batch of inputs only under the foreign key. */
  predicate Fits(t: State, batch: Entries) { batch.Keys <= t.statusRows.Keys }

  /** One batch of inputs, which do not overwrite. */
  function InputsRound(t: State, batch: Entries, a: Await): State {
    var ok := Fits(t, batch) && !a.answer.Refused?;
    State(
      if ok && a.answer.Written? then t.local - batch.Keys else t.local,
      t.inputsBuffer + a.arrival.inputs,
      t.statusBuffer + a.arrival.statuses,
      t.statusRows + a.arrival.recorded,
      if ok then batch + t.inputRows else t.inputRows)
  }

  ghost predicate CanFollow(t: State, batch: Entries) {
    PartOf(batch, t.local) && batch.Keys !! t.statusBuffer.Keys
  }

  /** Inputs buffered without any status: recording the workflow's error has failed. */
  predicate Orphan(t: State, w: WfId) { w in t.local && w !in t.statusBuffer && w !in t.statusRows }

  /** A batch is taken if and only if it has no orphan. */
  lemma FitsIffNoOrphan(t: State, batch: Entries)
    requires CanFollow(t, batch)
    ensures Fits(t, batch) <==> forall w :: w in batch ==> !Orphan(t, w)
  {
  }

  /** With inputs in order a batch is taken, and every input keeps a status. */
  lemma InputsRoundOwes(t: State, batch: Entries, a: Await)
    requires Owed(t) && CanFollow(t, batch) && a.arrival.inputs.Keys <= Known(t) + Statuses(a.arrival)
    ensures Fits(t, batch) && Owed(InputsRound(t, batch, a))
  {
    FitsIffNoOrphan(t, batch);
  }

  /** What holds `n` statements after the flush began with `t0`. */
  ghost predicate InputsInv(t0: State, world: nat -> Await, n: nat, t: State) {
    && KeyKept(t) && SafeInputs(t0.local, t0.inputRows, t.local, t.inputRows)
    && t.inputsBuffer == InputsAfter(t0.inputsBuffer, world, n)
    && t.statusBuffer == StatusesAfter(t0.statusBuffer, world, n)
    && t.statusRows.Keys == t0.statusRows.Keys + RecordedIn(world, n)
  }

  lemma InputsRoundInv(t0: State, world: nat -> Await, n: nat, t: State, batch: Entries)
    requires InputsInv(t0, world, n, t) && CanFollow(t, batch)
    ensures InputsInv(t0, world, n + 1, InputsRound(t, batch, world(n)))
  {
    InputsRoundSafe(t0.local, t0.inputRows, t.local, t.inputRows, batch,
                    if Fits(t, batch) then world(n).answer else Refused);
  }

  /** The state after a sequence of batches. */
  function Rounds(t0: State, world: nat -> Await, bs: seq<Entries>): State {
    if bs == [] then t0
    else InputsRound(Rounds(t0, world, bs[..|bs| - 1]), bs[|bs| - 1], world(|bs| - 1))
  }

  /** Each batch is part of what is left to write and skips what it must. */
  ghost predicate Possible(t0: State, world: nat -> Await, bs: seq<Entries>) {
    bs == [] ||
    (Possible(t0, world, bs[..|bs| - 1]) && CanFollow(Rounds(t0, world, bs[..|bs| - 1]), bs[|bs| - 1]))
  }

  lemma {:induction false} RoundsInv(t0: State, world: nat -> Await, bs: seq<Entries>)
    requires KeyKept(t0) && Possible(t0, world, bs)
    ensures InputsInv(t0, world, |bs|, Rounds(t0, world, bs))
  {
    if bs != [] {
      var n := |bs| - 1;
      RoundsInv(t0, world, bs[..n]);
      InputsRoundInv(t0, world, n, Rounds(t0, world, bs[..n]), bs[n]);
    }
  }

  /** If inputs are buffered in order, every input keeps a status. */
  lemma RoundsOwe(t0: State, world: nat -> Await, bs: seq<Entries>)
    requires KeyKept(t0) && Possible(t0, world, bs) && Owed(t0) && Orderly(Known(t0), world)
    ensures Owed(Rounds(t0, world, bs))
  {
    KnownInRounds(t0, world, bs);
    RoundsInv(t0, world, bs);
    InputsKnown(t0.inputsBuffer, Known(t0), world, |bs|);
    KnownGrows(Known(t0), Known(t0), world, |bs|);
    assert Rounds(t0, world, bs).local.Keys <= t0.local.Keys;
  }

  lemma KnownInRounds(t0: State, world: nat -> Await, bs: seq<Entries>)
    requires KeyKept(t0) && Possible(t0, world, bs)
    ensures Known(Rounds(t0, world, bs)) == KnownAfter(Known(t0), world, |bs|)
  {
    RoundsInv(t0, world, bs);
    KnownIs(t0.statusBuffer, t0.statusRows.Keys, world, |bs|);
  }

  /** Then no batch is refused for the foreign key. */
  lemma {:induction false} RoundsFit(t0: State, world: nat -> Await, bs: seq<Entries>, batch: Entries)
    requires KeyKept(t0) && Possible(t0, world, bs) && Owed(t0) && Orderly(Known(t0), world)
    requires CanFollow(Rounds(t0, world, bs), batch)
    ensures Fits(Rounds(t0, world, bs), batch)
  {
    RoundsOwe(t0, world, bs);
    FitsIffNoOrphan(Rounds(t0, world, bs), batch);
  }

  lemma OrphanRound(t: State, batch: Entries, a: Await, w: WfId)
    requires KeyKept(t) && w in batch && w !in t.statusRows
    ensures InputsRound(t, batch, a).local == t.local && InputsRound(t, batch, a).inputRows == t.inputRows
  {
  }

  lemma {:induction false} OrphanStays(t0: State, world: nat -> Await, bs: seq<Entries>, w: WfId)
    requires KeyKept(t0) && Possible(t0, world, bs)
    requires w in t0.local && w !in t0.statusRows && w !in RecordedIn(world, |bs|)
    ensures w in Rounds(t0, world, bs).local && w !in Rounds(t0, world, bs).inputRows
    ensures w !in Rounds(t0, world, bs).statusRows && KeyKept(Rounds(t0, world, bs))
  {
    RoundsInv(t0, world, bs);
    if bs != [] {
      var n := |bs| - 1;
      OrphanStays(t0, world, bs[..n], w);
      if w in bs[n] { OrphanRound(Rounds(t0, world, bs[..n]), bs[n], world(n), w); }
    }
  }

  lemma {:induction false} Before(t0: State, world: nat -> Await, bs: seq<Entries>, k: nat)
    requires Possible(t0, world, bs) && k <= |bs|
    ensures Possible(t0, world, bs[..k]) && RecordedIn(world, k) <= RecordedIn(world, |bs|)
  {
    if k < |bs| {
      Before(t0, world, bs[..|bs| - 1], k);
      assert bs[..|bs| - 1][..k] == bs[..k];
    } else {
      assert bs[..k] == bs;
    }
  }

  /** ORPHANS: inputs whose status is never written are never written themselves, and neither is anything in a
      batch with them. */
  lemma {:induction false} OrphanBlocks(t0: State, world: nat -> Await, bs: seq<Entries>, k: nat, w: WfId)
    requires KeyKept(t0) && Possible(t0, world, bs) && k < |bs| && w in bs[k]
    requires w in t0.local && w !in t0.statusRows && w !in RecordedIn(world, |bs|)
    ensures w in Rounds(t0, world, bs).local && w !in Rounds(t0, world, bs).inputRows
    ensures Rounds(t0, world, bs[..k + 1]).local == Rounds(t0, world, bs[..k]).local
    ensures Rounds(t0, world, bs[..k + 1]).inputRows == Rounds(t0, world, bs[..k]).inputRows
  {
    OrphanStays(t0, world, bs, w);
    Before(t0, world, bs, k);
    OrphanStays(t0, world, bs[..k], w);
    OrphanRound(Rounds(t0, world, bs[..k]), bs[k], world(k), w);
    assert bs[..k + 1][..k] == bs[..k];
  }

  /** Where the flush of the inputs ends. */
  lemma RoundsEnd(t0: State, world: nat -> Await, bs: seq<Entries>)
    requires KeyKept(t0) && Possible(t0, world, bs)
    ensures Known(Rounds(t0, world, bs)) == KnownAfter(Known(t0), world, |bs|)
    ensures Owed(t0) && Orderly(Known(t0), world) ==> Owed(Rounds(t0, world, bs))
    ensures forall w :: w in t0.local && w !in t0.statusRows && w !in RecordedIn(world, |bs|) ==>
              w in Rounds(t0, world, bs).local && w !in Rounds(t0, world, bs).inputRows
  {
    KnownInRounds(t0, world, bs);
    if Owed(t0) && Orderly(Known(t0), world) { RoundsOwe(t0, world, bs); }
    forall w | w in t0.local && w !in t0.statusRows && w !in RecordedIn(world, |bs|)
      ensures w in Rounds(t0, world, bs).local && w !in Rounds(t0, world, bs).inputRows
    {
      OrphanStays(t0, world, bs, w);
    }
  }

  lemma OneMore(t0: State, world: nat -> Await, bs: seq<Entries>, batch: Entries)
    requires Possible(t0, world, bs) && CanFollow(Rounds(t0, world, bs), batch)
    ensures Possible(t0, world, bs + [batch])
    ensures Rounds(t0, world, bs + [batch]) == InputsRound(Rounds(t0, world, bs), batch, world(|bs|))
  {
    assert (bs + [batch])[..|bs|] == bs;
  }

  lemma NoNewStatuses(t: State, batch: Entries, a: Await)
    ensures InputsRound(t, batch, a).statusBuffer.Keys == {} ==> t.statusBuffer.Keys == {}
  {
    assert t.statusBuffer.Keys <= (t.statusBuffer + a.arrival.statuses).Keys;
  }

  lemma Remaining(local: Entries, batch: Entries)
    requires PartOf(batch, local)
    ensures |local - batch.Keys| == |local| - |batch|
  {
    KeyCount(batch);
    DropCount(local, batch.Keys);
  }

  const FLUSH_BATCH_SIZE := 100

  class SystemBuffers {
    var statusBuffer: Entries
    var inputsBuffer: Entries
    var statusRows: Entries
    var inputRows: Entries

    /** Every input row has a status row. */
    ghost predicate Valid()
      reads this
    {
      inputRows.Keys <= statusRows.Keys
    }

    /** The workflows with a status, buffered or written. */
    ghost function WithStatus(): set<WfId>
      reads this
    {
      statusBuffer.Keys + statusRows.Keys
    }

    /** Every buffered input has a status. */
    ghost predicate InOrder()
      reads this
    {
      inputsBuffer.Keys <= WithStatus()
    }

    constructor ()
      ensures Valid() && InOrder() && statusBuffer == map[] && inputsBuffer == map[]
    {
      statusBuffer, inputsBuffer, statusRows, inputRows := map[], map[], map[], map[];
    }

    method Receive(a: Arrival)
      modifies this
      ensures statusBuffer == old(statusBuffer) + a.statuses && statusRows == old(statusRows) + a.recorded
      ensures inputsBuffer == old(inputsBuffer) + a.inputs && inputRows == old(inputRows)
      ensures old(Valid()) ==> Valid()
      ensures old(InOrder()) && a.inputs.Keys <= old(WithStatus()) + a.statuses.Keys + a.recorded.Keys ==> InOrder()
    {
      statusBuffer := statusBuffer + a.statuses;
      statusRows := statusRows + a.recorded;
      inputsBuffer := inputsBuffer + a.inputs;
    }

    /** One statement of the status flush, and what happens while it runs. */
    method WriteStatuses(localBuffer: Entries, a: Await, ghost p: Progress)
      returns (rest: Entries, seen: nat, ghost batch: Entries)
      requires p == Progress(localBuffer, statusRows, statusBuffer, p.others)
      modifies this
      ensures PartOf(batch, localBuffer) && seen <= 100 && (seen < 100 ==> seen == |localBuffer|)
      ensures
        var q := StatusRound(p, batch, a);
        rest == q.local && statusRows == q.rows && statusBuffer == q.arrived
      ensures inputsBuffer == old(inputsBuffer) + a.arrival.inputs && inputRows == old(inputRows)
      ensures localBuffer != map[] ==> seen > 0
      ensures a.answer.Written? ==> |rest| + seen == |localBuffer|
    {
      var next: Entries;
      next, seen := NextBatch(localBuffer, {}, FLUSH_BATCH_SIZE);
      batch := next;
      if !a.answer.Refused? {
        statusRows := statusRows + next;
      }
      Receive(a.arrival);
      rest := if a.answer.Written? then localBuffer - next.Keys else localBuffer;
      KeyCount(next);
      DropCount(localBuffer, next.Keys);
    }

    /** Where a status flush is that began with `all`, the rows `before` and the inputs `inputs`. */
    ghost predicate Flushing(all: Entries, before: Entries, inputs: Entries, world: nat -> Await, n: nat, p: Progress,
                             localBuffer: Entries)
      reads this
    {
      && StatusInv(all, before, world, n, p) && p == Progress(localBuffer, statusRows, statusBuffer, p.others)
      && inputsBuffer == InputsAfter(inputs, world, n)
    }

    /** One batch of a status flush. */
    method WriteNextStatuses(ghost all: Entries, ghost before: Entries, ghost inputs: Entries, localBuffer: Entries,
                             world: nat -> Await, n: nat, ghost p: Progress)
      returns (rest: Entries, seen: nat, failed: bool, ghost q: Progress)
      requires Flushing(all, before, inputs, world, n, p, localBuffer)
      modifies this
      ensures Flushing(all, before, inputs, world, n + 1, q, rest) && inputRows == old(inputRows)
      ensures localBuffer != map[] ==> seen > 0
      ensures failed == !world(n).answer.Written? && (!failed ==> |rest| + seen == |localBuffer|)
    {
      ghost var batch;
      rest, seen, batch := WriteStatuses(localBuffer, world(n), p);
      StatusRoundInv(all, before, world, n, p, batch);
      q := StatusRound(p, batch, world(n));
      failed := !world(n).answer.Written?;
    }

    /** The batches of the status flush. */
    method WriteStatusBatches(all: Entries, world: nat -> Await)
      returns (localBuffer: Entries, ghost p: Progress, n: nat, failed: bool)
      requires statusBuffer == map[]
      modifies this
      ensures Flushing(all, old(statusRows), old(inputsBuffer), world, n, p, localBuffer)
      ensures inputRows == old(inputRows) && Going(world, n, failed) && (!failed ==> |localBuffer| == 0)
    {
      localBuffer, p, n := all, Progress(all, statusRows, map[], {}), 0;
      var totalSize := |all|;
      var finishedCnt := 0;
      failed := false;
      while !failed && finishedCnt < totalSize
        invariant Flushing(all, old(statusRows), old(inputsBuffer), world, n, p, localBuffer)
        invariant inputRows == old(inputRows)
        invariant !failed ==> |localBuffer| + finishedCnt == totalSize
        invariant Going(world, n, failed)
        decreases !failed, totalSize - finishedCnt
      {
        var rest, seen, stopped, q := WriteNextStatuses(all, old(statusRows), old(inputsBuffer), localBuffer, world, n,
                                                        p);
        GoesOn(world, n, stopped);
        localBuffer, failed, finishedCnt, p, n := rest, stopped, finishedCnt + seen, q, n + 1;
      }
    }

    /** The flush of the statuses; `p` is where it ends, after `n` statements.  What is left over returns to
        the buffer unless something newer has arrived there. */
    method FlushWorkflowStatusBuffer(world: nat -> Await) returns (ghost p: Progress, n: nat)
      requires Valid()
      modifies this
      ensures Valid() && inputRows == old(inputRows) && inputsBuffer == InputsAfter(old(inputsBuffer), world, n)
      ensures StatusInv(old(statusBuffer), old(statusRows), world, n, p)
      ensures statusRows == p.rows && statusBuffer == p.local + p.arrived
      ensures WithStatus() == KnownAfter(old(WithStatus()), world, n)
      ensures old(InOrder()) && Orderly(old(WithStatus()), world) ==> InOrder()
      ensures AllWritten(world) ==> |p.local| == 0
      ensures StopsAtFailure(world, n, |p.local| == 0)
      ensures old(inputsBuffer).Keys <= inputsBuffer.Keys
      ensures AllWritten(world) && Quiet(world) ==>
                statusBuffer.Keys == {} && inputsBuffer.Keys == old(inputsBuffer).Keys
    {
      var localBuffer := statusBuffer;
      statusBuffer := map[];
      var failed;
      localBuffer, p, n, failed := WriteStatusBatches(localBuffer, world);
      GoingStops(world, n, failed, |p.local| == 0);
      statusBuffer := localBuffer + statusBuffer;
      StatusKnown(old(statusBuffer), old(statusRows), world, n, p);
      assert WithStatus() == p.local.Keys + p.arrived.Keys + p.rows.Keys;
      if old(InOrder()) && Orderly(old(WithStatus()), world) {
        InputsKnown(old(inputsBuffer), old(WithStatus()), world, n);
      }
      BuffersGrow(old(inputsBuffer), world, n);
      if AllWritten(world) && Quiet(world) {
        NothingIn(p.local);
        QuietBuffers(map[], world, n);
        QuietBuffers(old(inputsBuffer), world, n);
      }
    }

    /** The insert of inputs, under the foreign key. */
    method InsertInputs(batch: Entries) returns (ok: bool)
      modifies this`inputRows
      ensures ok <==> batch.Keys <= statusRows.Keys
      ensures inputRows == if ok then batch + old(inputRows) else old(inputRows)
    {
      ok := batch.Keys <= statusRows.Keys;
      if ok {
        inputRows := batch + inputRows;
      }
    }

    /** One statement of the inputs flush, and what happens while it runs. */
    method WriteInputs(localBuffer: Entries, batch: Entries, a: Await) returns (rest: Entries, written: bool)
      requires PartOf(batch, localBuffer)
      modifies this
      ensures Now(rest) == InputsRound(old(Now(localBuffer)), batch, a)
      ensures written <==> Fits(old(Now(localBuffer)), batch) && a.answer.Written?
      ensures |rest| == if written then |localBuffer| - |batch| else |localBuffer|
    {
      ghost var t := Now(localBuffer);
      var ok := false;
      if !a.answer.Refused? {
        ok := InsertInputs(batch);
      }
      assert ok <==> Fits(t, batch) && !a.answer.Refused?;
      Receive(a.arrival);
      written := ok && a.answer.Written?;
      rest := if written then localBuffer - batch.Keys else localBuffer;
      assert Now(rest) == InputsRound(t, batch, a);
      Remaining(localBuffer, batch);
    }

    ghost function Now(local: Entries): State
      reads this
    {
      State(local, inputsBuffer, statusBuffer, statusRows, inputRows)
    }

    /** The batches of the inputs flush, `n` statements in all.  An entry whose status is still buffered is
        skipped, and counted again in every batch; the count reaches the total all the same. */
    method WriteInputBatches(all: Entries, world: nat -> Await)
      returns (localBuffer: Entries, ghost bs: seq<Entries>)
      requires KeyKept(Now(all))
      modifies this
      ensures Possible(old(Now(all)), world, bs) && Now(localBuffer) == Rounds(old(Now(all)), world, bs)
      ensures old(Owed(Now(all))) && Orderly(Known(old(Now(all))), world) ==>
                statusBuffer.Keys == {} && AllWritten(world) ==> |localBuffer| == 0
    {
      localBuffer, bs := all, [];
      ghost var t0 := Now(all);
      var totalSize := |all|;
      var finishedCnt, n := 0, 0;
      var failed := false;
      while !failed && finishedCnt < totalSize
        invariant n == |bs| && Possible(t0, world, bs) && Now(localBuffer) == Rounds(t0, world, bs)
        invariant failed ==> !(Owed(t0) && Orderly(Known(t0), world) && AllWritten(world))
        invariant !failed ==> |localBuffer| + finishedCnt >= totalSize
        invariant !failed && statusBuffer.Keys == {} ==> |localBuffer| + finishedCnt == totalSize
        decreases !failed, totalSize - finishedCnt
      {
        var batch, seen := NextBatch(localBuffer, statusBuffer.Keys, FLUSH_BATCH_SIZE);
        finishedCnt := finishedCnt + seen;
        if |batch| > 0 {
          OneMore(t0, world, bs, batch);
          NoNewStatuses(Now(localBuffer), batch, world(n));
          if Owed(t0) && Orderly(Known(t0), world) { RoundsFit(t0, world, bs, batch); }
          var rest, written := WriteInputs(localBuffer, batch, world(n));
          localBuffer, failed, bs, n := rest, !written, bs + [batch], n + 1;
        }
      }
    }

    /** The flush of the inputs; `t` is where it ends, after `n` statements.  What is left over returns to the
        buffer unless something newer has arrived there. */
    method FlushWorkflowInputsBuffer(world: nat -> Await) returns (ghost t: State, ghost n: nat)
      requires Valid()
      modifies this
      ensures Valid()
      ensures InputsInv(State(old(inputsBuffer), map[], old(statusBuffer), old(statusRows), old(inputRows)),
                        world, n, t)
      ensures statusBuffer == t.statusBuffer && statusRows == t.statusRows && inputRows == t.inputRows
      ensures inputsBuffer == t.local + t.inputsBuffer
      ensures WithStatus() == KnownAfter(old(WithStatus()), world, n)
      ensures old(InOrder()) && Orderly(old(WithStatus()), world) ==>
                && InOrder()
                && (statusBuffer.Keys == {} && AllWritten(world) ==> |t.local| == 0)
      ensures old(InOrder()) && Orderly(old(WithStatus()), world) && AllWritten(world) && Quiet(world) ==>
                old(statusBuffer).Keys == {} ==> statusBuffer.Keys == {} && inputsBuffer.Keys == {}
      ensures forall w :: w in old(inputsBuffer) ==> w in inputRows || w in inputsBuffer
      ensures forall w :: w in old(inputsBuffer) && w !in old(statusRows) && w !in RecordedIn(world, n) ==>
                w in inputsBuffer && w !in inputRows
    {
      var localBuffer := inputsBuffer;
      inputsBuffer := map[];
      ghost var t0 := Now(localBuffer);
      ghost var bs: seq<Entries>;
      localBuffer, bs := WriteInputBatches(localBuffer, world);
      RoundsInv(t0, world, bs);
      RoundsEnd(t0, world, bs);
      t, n := Now(localBuffer), |bs|;
      inputsBuffer := localBuffer + inputsBuffer;
      if Quiet(world) {
        QuietBuffers(t0.statusBuffer, world, n);
        QuietBuffers(map[], world, n);
        if |t.local| == 0 { NothingIn(t.local); }
      }
    }

    /** Statuses first, because of the foreign key: an input whose status is still buffered would be skipped.
        If inputs are buffered in order, with a willing database and nothing arriving, one flush empties both
        buffers; inputs whose status never comes stay buffered in every flush. */
    method FlushWorkflowSystemBuffers(world: nat -> Await)
      requires Valid()
      modifies this
      ensures Valid()
      ensures old(InOrder()) && Orderly(old(WithStatus()), world) ==> InOrder()
      ensures old(WithStatus()) <= WithStatus()
      ensures forall w :: w in old(inputsBuffer) ==> w in inputRows || w in inputsBuffer
      ensures old(InOrder()) && Orderly(old(WithStatus()), world) && AllWritten(world) && Quiet(world) ==>
                statusBuffer.Keys == {} && inputsBuffer.Keys == {}
      ensures forall w :: w in old(inputsBuffer) && w !in old(WithStatus()) && NeverKnown(world, w) ==>
                w in inputsBuffer && w !in inputRows && w !in WithStatus()
    {
      ghost var known := WithStatus();
      var p, m := FlushWorkflowStatusBuffer(world);
      ghost var middle := WithStatus();
      if Orderly(known, world) { LaterOrderly(known, world, m, middle); }
      LaterSame(world, m);
      KnownGrows(known, known, world, m);
      var t, n := FlushWorkflowInputsBuffer(Later(world, m));
      KnownGrows(middle, middle, Later(world, m), n);
      forall w | w in old(inputsBuffer) && w !in known && NeverKnown(world, w)
        ensures w in inputsBuffer && w !in inputRows && w !in WithStatus()
      {
        StaysUnknownLater(known, world, w, m, n);
      }
    }
  }

  lemma NothingIn(m: Entries)
    requires |m| == 0
    ensures m.Keys == {}
  {
    KeyCount(m);
  }
}
