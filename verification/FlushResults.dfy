/** The flush of read-only results left over at the end of workflows: plain inserts, where one row that exists
    already fails its whole batch. */
module FlushResults {
  import opened Batches
  import opened Workflows

  /** The buffered results of one workflow, by function identifier. */
  type Results = map<nat, Value>

  datatype Await = Await(arrived: map<WfId, Results>, others: map<Key, Value>, answer: Answer)

  /** The entries still to write, and the rows of `transaction_outputs`. */
  datatype Progress = Progress(local: map<WfId, Results>, rows: map<Key, Value>)

  function RowsOf(batch: map<WfId, Results>): map<Key, Value> {
    map w, i | w in batch && i in batch[w] :: Key(w, i) := batch[w][i]
  }

  predicate Conflicts(batch: map<WfId, Results>, rows: map<Key, Value>) {
    exists w, i :: w in batch && i in batch[w] && Key(w, i) in rows
  }

  /** One statement: written as a whole, or not at all. */
  function Round(p: Progress, batch: map<WfId, Results>, a: Await): Progress {
    var ok := !Conflicts(batch, p.rows) && !a.answer.Refused?;
    Progress(
      if ok && a.answer.Written? then p.local - batch.Keys else p.local,
      a.others + (if ok then p.rows + RowsOf(batch) else p.rows))
  }

  function ArrivedAfter(buffer: map<WfId, Results>, world: nat -> Await, n: nat): map<WfId, Results> {
    if n == 0 then buffer else ArrivedAfter(buffer, world, n - 1) + world(n - 1).arrived
  }

  /** Nothing is lost: what is no longer to be written is in the table, all of it; and no row changes. */
  ghost predicate Safe(before: map<WfId, Results>, rows: map<Key, Value>, p: Progress) {
    && PartOf(p.local, before)
    && (forall k :: k in rows ==> k in p.rows && p.rows[k] == rows[k])
    && (forall w, i :: w in before && w !in p.local && i in before[w] ==>
          Key(w, i) in p.rows && p.rows[Key(w, i)] == before[w][i])
  }

  lemma RoundSafe(before: map<WfId, Results>, rows: map<Key, Value>, p: Progress, batch: map<WfId, Results>, a: Await)
    requires Safe(before, rows, p) && PartOf(batch, p.local)
    ensures Safe(before, rows, Round(p, batch, a))
  {
    var q := Round(p, batch, a);
    forall w, i | w in before && w !in q.local && i in before[w]
      ensures Key(w, i) in q.rows && q.rows[Key(w, i)] == before[w][i]
    {
      if w in p.local {
        assert Key(w, i) in RowsOf(batch);
      }
    }
  }

  /** A batch leaves the buffer if and only if the database is willing and none of its rows exists. */
  lemma WrittenIffNoConflict(p: Progress, batch: map<WfId, Results>, a: Await)
    requires PartOf(batch, p.local) && batch != map[]
    ensures (Round(p, batch, a).local == p.local - batch.Keys) <==>
            a.answer.Written? && forall w, i :: w in batch && i in batch[w] ==> Key(w, i) !in p.rows
    ensures Round(p, batch, a).local == p.local || Round(p, batch, a).local == p.local - batch.Keys
  {
    var w :| w in batch;
    assert w in p.local && w !in p.local - batch.Keys;
  }

  // ---- flushes over time ------------------------------------------------------------------------

  /** The buffer, and the entries a flush under way has taken from it. */
  datatype Flushing = Flushing(buffer: map<WfId, Results>, p: Progress)

  /** A flush takes the buffer, writes batches, and returns what it has not written; `Meanwhile` is what happens
      between flushes. */
  datatype Label =
    | Take
    | Insert(batch: map<WfId, Results>, a: Await)
    | Return
    | Meanwhile(arrived: map<WfId, Results>, others: map<Key, Value>)

  ghost predicate CanStep(s: Flushing, l: Label) {
    match l
    case Take => s.p.local == map[]
    case Insert(batch, _) => PartOf(batch, s.p.local)
    case Return => true
    case Meanwhile(_, _) => true
  }

  /** One step; a label that is not enabled changes nothing, so every label sequence is a run. */
  ghost function Step(s: Flushing, l: Label): Flushing {
    if !CanStep(s, l) then s else
      match l
      case Take => Flushing(map[], s.p.(local := s.buffer))
      case Insert(batch, a) => Flushing(s.buffer + a.arrived, Round(s.p, batch, a))
      case Return => Flushing(s.p.local + s.buffer, s.p.(local := map[]))
      case Meanwhile(arrived, others) => Flushing(s.buffer + arrived, s.p.(rows := others + s.p.rows))
  }

  ghost function Run(s: Flushing, ls: seq<Label>): Flushing {
    if ls == [] then s else Step(Run(s, ls[..|ls| - 1]), ls[|ls| - 1])
  }

  /** The results of `w` are still to be written, wherever they are; one of them, `i`, has a row already. */
  predicate Stuck(s: Flushing, w: WfId, i: nat) {
    && (w in s.buffer || w in s.p.local) && Key(w, i) in s.p.rows
    && (w in s.buffer ==> i in s.buffer[w]) && (w in s.p.local ==> i in s.p.local[w])
  }

  predicate Brings(arrived: map<WfId, Results>, w: WfId, i: nat) { w in arrived ==> i in arrived[w] }

  /** Results of `w` that arrive later have that one too. */
  predicate Again(l: Label, w: WfId, i: nat) {
    match l
    case Insert(_, a) => Brings(a.arrived, w, i)
    case Meanwhile(arrived, _) => Brings(arrived, w, i)
    case _ => true
  }

  lemma StuckStep(s: Flushing, l: Label, w: WfId, i: nat)
    requires Stuck(s, w, i) && Again(l, w, i)
    ensures Stuck(Step(s, l), w, i) && Step(s, l).p.rows[Key(w, i)] == s.p.rows[Key(w, i)]
    ensures l.Insert? && w in l.batch && CanStep(s, l) ==>
              Step(s, l).p.local == s.p.local && Step(s, l).p.rows == l.a.others + s.p.rows
  {
    if l.Insert? && CanStep(s, l) && w in l.batch {
      assert Conflicts(l.batch, s.p.rows);
    }
  }

  lemma {:induction false} StuckInRuns(s: Flushing, ls: seq<Label>, w: WfId, i: nat)
    requires Stuck(s, w, i) && forall l :: l in ls ==> Again(l, w, i)
    ensures Stuck(Run(s, ls), w, i) && Run(s, ls).p.rows[Key(w, i)] == s.p.rows[Key(w, i)]
  {
    if ls != [] {
      StuckInRuns(s, ls[..|ls| - 1], w, i);
      StuckStep(Run(s, ls[..|ls| - 1]), ls[|ls| - 1], w, i);
    }
  }

  /** EVERY TIME: once one row of a workflow exists, its results stay unwritten in every run, over any flushes and
      failures; and each batch that has them leaves everything in it unwritten. */
  lemma ConflictBlocksBatches(s: Flushing, ls: seq<Label>, w: WfId, i: nat, n: nat)
    requires Stuck(s, w, i) && n < |ls| && forall l :: l in ls ==> Again(l, w, i)
    ensures Stuck(Run(s, ls), w, i)
    ensures
      var t, l := Run(s, ls[..n]), ls[n];
      l.Insert? && w in l.batch && CanStep(t, l) ==>
        && Run(s, ls[..n + 1]).p.local == t.p.local
        && Run(s, ls[..n + 1]).p.rows == l.a.others + t.p.rows
  {
    StuckInRuns(s, ls, w, i);
    StuckInRuns(s, ls[..n], w, i);
    StuckStep(Run(s, ls[..n]), ls[n], w, i);
    assert ls[..n + 1][..n] == ls[..n];
  }

  const RESULT_BATCH_SIZE := 50

  /** The first `n` statements were all written. */
  ghost predicate WrittenUpTo(world: nat -> Await, n: nat) {
    n == 0 || (WrittenUpTo(world, n - 1) && world(n - 1).answer.Written?)
  }

  /** The flush goes on after `n` statements, or has failed at the last of them. */
  ghost predicate Going(world: nat -> Await, n: nat, failed: bool) {
    if failed then n > 0 && WrittenUpTo(world, n - 1) else WrittenUpTo(world, n)
  }

  lemma GoesOn(world: nat -> Await, n: nat, failed: bool)
    requires Going(world, n, false) && (failed || world(n).answer.Written?)
    ensures Going(world, n + 1, failed)
  {
  }

  ghost predicate AllWritten(world: nat -> Await) {
    forall i :: world(i).answer.Written?
  }

  /** The database is willing, and nobody else writes. */
  ghost predicate Willing(world: nat -> Await) {
    forall i :: world(i).answer.Written? && world(i).others == map[]
  }

  class ResultBuffers {
    var workflowResultBuffer: map<WfId, Results>
    var rows: map<Key, Value>

    /** The insert of one batch, and what happens while it runs. */
    method WriteResults(localBuffer: map<WfId, Results>, batch: map<WfId, Results>, a: Await)
      returns (rest: map<WfId, Results>, written: bool)
      requires PartOf(batch, localBuffer)
      modifies this
      ensures Progress(rest, rows) == Round(Progress(localBuffer, old(rows)), batch, a)
      ensures workflowResultBuffer == old(workflowResultBuffer) + a.arrived
      ensures written <==> a.answer.Written? && !Conflicts(batch, old(rows))
      ensures written ==> |rest| == |localBuffer| - |batch|
      ensures !written ==> rest == localBuffer
    {
      var ok := !Conflicts(batch, rows) && !a.answer.Refused?;
      if ok {
        rows := rows + RowsOf(batch);
      }
      rows := a.others + rows;
      workflowResultBuffer := workflowResultBuffer + a.arrived;
      written := ok && a.answer.Written?;
      rest := if written then localBuffer - batch.Keys else localBuffer;
      KeyCount(batch);
      DropCount(localBuffer, batch.Keys);
    }

    /** One batch of a flush that began with `all`. */
    method WriteNextBatch(ghost all: map<WfId, Results>, ghost before: map<Key, Value>, ghost p: Progress,
                          localBuffer: map<WfId, Results>, world: nat -> Await, i: nat)
      returns (rest: map<WfId, Results>, seen: nat, failed: bool)
      requires p == Progress(localBuffer, rows) && FlushInv(all, before, world, p, false)
      modifies this
      ensures FlushInv(all, before, world, Progress(rest, rows), failed)
      ensures workflowResultBuffer == old(workflowResultBuffer) + world(i).arrived
      ensures localBuffer != map[] ==> seen > 0
      ensures seen <= 50 && (seen < 50 ==> seen == |localBuffer|)
      ensures !failed ==> |rest| + seen == |localBuffer| && world(i).answer.Written?
    {
      var batch: map<WfId, Results>;
      batch, seen := NextBatch(localBuffer, {}, RESULT_BATCH_SIZE);
      if |localBuffer| < RESULT_BATCH_SIZE { WholeBatch(localBuffer, batch); }
      FlushRound(all, before, world, i, p, batch);
      var written: bool;
      rest, written := WriteResults(localBuffer, batch, world(i));
      failed := !written;
    }

    /** The batches of the flush, until one fails. */
    method WriteResultBatches(all: map<WfId, Results>, world: nat -> Await)
      returns (localBuffer: map<WfId, Results>, failed: bool, ghost p: Progress, ghost n: nat)
      modifies this
      ensures FlushInv(all, old(rows), world, p, failed) && p == Progress(localBuffer, rows)
      ensures workflowResultBuffer == ArrivedAfter(old(workflowResultBuffer), world, n)
      ensures !failed ==> |localBuffer| == 0
      ensures Going(world, n, failed)
    {
      localBuffer, failed, p, n := all, false, Progress(all, rows), 0;
      var totalSize := |localBuffer|;
      var finishedCnt, i := 0, 0;
      while !failed && finishedCnt < totalSize
        invariant i == n && workflowResultBuffer == ArrivedAfter(old(workflowResultBuffer), world, n)
        invariant p == Progress(localBuffer, rows) && FlushInv(all, old(rows), world, p, failed)
        invariant !failed ==> |localBuffer| + finishedCnt == totalSize
        invariant Going(world, n, failed)
        decreases !failed, totalSize - finishedCnt
      {
        var rest, seen, stopped := WriteNextBatch(all, old(rows), p, localBuffer, world, i);
        GoesOn(world, n, stopped);
        localBuffer, failed, finishedCnt := rest, stopped, finishedCnt + seen;
        p := Progress(localBuffer, rows);
        i, n := i + 1, n + 1;
      }
    }

    /** The flush; `p` is where it ends, after `n` statements.  What is left over returns to the buffer unless the
        workflow has newer results there.  If the database is willing and nobody else writes, everything is written
        if and only if no row exists already; in a small buffer one row that exists keeps everything unwritten. */
    method FlushWorkflowResultBuffer(world: nat -> Await) returns (ghost p: Progress, ghost n: nat)
      modifies this
      ensures Safe(old(workflowResultBuffer), old(rows), p)
      ensures rows == p.rows && workflowResultBuffer == p.local + ArrivedAfter(map[], world, n)
      ensures AllWritten(world) ==> |p.local| == 0 || Conflicts(p.local, p.rows)
      ensures n == 0 || WrittenUpTo(world, n - 1)
      ensures Willing(world) ==>
        var before := old(workflowResultBuffer);
        |p.local| == 0 <==> forall w, i :: w in before && i in before[w] ==> Key(w, i) !in old(rows)
      ensures |old(workflowResultBuffer)| < 50 && Conflicts(old(workflowResultBuffer), old(rows)) ==>
                p.local == old(workflowResultBuffer)
    {
      var localBuffer, failed := workflowResultBuffer, false;
      workflowResultBuffer := map[];
      localBuffer, failed, p, n := WriteResultBatches(localBuffer, world);
      FlushEnds(old(workflowResultBuffer), old(rows), world, p, failed);
      workflowResultBuffer := localBuffer + workflowResultBuffer;
    }
  }

  lemma FlushEnds(before: map<WfId, Results>, rows: map<Key, Value>, world: nat -> Await, p: Progress, failed: bool)
    requires FlushInv(before, rows, world, p, failed) && (!failed ==> |p.local| == 0)
    ensures AllWritten(world) ==> |p.local| == 0 || Conflicts(p.local, p.rows)
    ensures Willing(world) ==> (|p.local| == 0 <==> !Conflicts(before, rows))
  {
    assert |p.local| == 0 ==> !Conflicts(p.local, p.rows) by { KeyCount(p.local); }
    if Willing(world) {
      assert AllWritten(world) by { assert forall i :: world(i).answer.Written? && world(i).others == map[]; }
    }
  }

  /** What holds during a flush of `before`. */
  ghost predicate FlushInv(before: map<WfId, Results>, rows: map<Key, Value>, world: nat -> Await, p: Progress,
                           failed: bool)
  {
    && Safe(before, rows, p)
    && (failed && AllWritten(world) ==> Conflicts(p.local, p.rows))
    && (Willing(world) ==> (Conflicts(p.local, p.rows) <==> Conflicts(before, rows)))
    && (|before| < RESULT_BATCH_SIZE && Conflicts(before, rows) ==> p.local == before && (p.rows == rows || failed))
  }

  lemma FlushRound(before: map<WfId, Results>, rows: map<Key, Value>, world: nat -> Await, i: nat, p: Progress,
                   batch: map<WfId, Results>)
    requires FlushInv(before, rows, world, p, false) && PartOf(batch, p.local)
    requires |p.local| < RESULT_BATCH_SIZE ==> batch == p.local
    ensures
      var written := world(i).answer.Written? && !Conflicts(batch, p.rows);
      FlushInv(before, rows, world, Round(p, batch, world(i)), !written)
  {
    RoundSafe(before, rows, p, batch, world(i));
    ConflictStays(p, batch, world(i));
    if Willing(world) { NoNewConflict(p, batch, world(i)); }
  }

  /** A conflict stays a conflict of what is left to write. */
  lemma ConflictStays(p: Progress, batch: map<WfId, Results>, a: Await)
    requires PartOf(batch, p.local)
    ensures Conflicts(batch, p.rows) ==> Conflicts(p.local, p.rows)
    ensures Conflicts(p.local, p.rows) ==> Conflicts(Round(p, batch, a).local, Round(p, batch, a).rows)
  {
    var q := Round(p, batch, a);
    if Conflicts(p.local, p.rows) {
      var w, i :| w in p.local && i in p.local[w] && Key(w, i) in p.rows;
      assert Key(w, i) in q.rows;
      assert w in batch ==> i in batch[w];
      assert w in q.local && q.local[w] == p.local[w];
    }
  }

  /** Writing one batch makes no conflict for the others. */
  lemma NoNewConflict(p: Progress, batch: map<WfId, Results>, a: Await)
    requires PartOf(batch, p.local) && a.answer.Written? && a.others == map[]
    ensures Conflicts(Round(p, batch, a).local, Round(p, batch, a).rows) ==> Conflicts(p.local, p.rows)
  {
    var q := Round(p, batch, a);
    if Conflicts(q.local, q.rows) {
      var w, i :| w in q.local && i in q.local[w] && Key(w, i) in q.rows;
      assert w in p.local && q.local[w] == p.local[w];
      assert Key(w, i) in p.rows;
    }
  }

  lemma WholeBatch(local: map<WfId, Results>, batch: map<WfId, Results>)
    requires PartOf(batch, local) && batch.Keys == local.Keys
    ensures batch == local
  {
  }
}
