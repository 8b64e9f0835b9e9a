/** The workflow queue: its two tables, and the transaction that claims startable workflows under a
    concurrency limit and a rate limit. */
module WorkflowQueue {
  import opened Options
  import Workflows

  type WfId = Workflows.WfId

  datatype Status = Enqueued | Pending | Success | Error | Cancelled | RetriesExceeded

  /** At most `limit` starts in any `period` milliseconds. */
  datatype Rate = Rate(limit: nat, period: nat)

  datatype Limits = Limits(concurrency: Option<nat>, rate: Option<Rate>)

  /** A row of `workflow_queue`; times are in milliseconds. */
  datatype Row = Row(queue: string, created: int, started: Option<int>, completed: Option<int>)

  /** `workflow_queue` and the status column of `workflow_status`, both keyed by workflow. */
  datatype Tables = Tables(rows: map<WfId, Row>, status: map<WfId, Status>)

  function Period(lim: Limits): nat {
    if lim.rate.Some? then lim.rate.value.period else 0
  }

  /** The rows that count against the rate limit at time `now`. */
  function Recent(t: Tables, name: string, lim: Limits, now: int): set<WfId> {
    set w | w in t.rows && t.rows[w].queue == name && t.rows[w].started.Some?
            && t.rows[w].started.value > now - Period(lim)
  }

  /** The rows not yet completed: started ones occupy a slot of the concurrency limit. */
  function Uncompleted(t: Tables, name: string): set<WfId> {
    set w | w in t.rows && t.rows[w].queue == name && t.rows[w].completed.None?
  }

  function Running(t: Tables, name: string): set<WfId> {
    set w | w in Uncompleted(t, name) && t.rows[w].started.Some?
  }

  function Older(t: Tables, name: string, c: int): set<WfId> {
    set w | w in Uncompleted(t, name) && t.rows[w].created < c
  }

  /** What the ordered and limited query may return: the oldest uncompleted rows, oldest first. */
  ghost predicate Selects(t: Tables, name: string, concurrency: Option<nat>, listed: seq<WfId>) {
    && (forall w :: w in listed ==> w in Uncompleted(t, name))
    && (forall i, j :: 0 <= i < j < |listed| ==>
          listed[i] != listed[j] && listed[i] in t.rows && listed[j] in t.rows
          && t.rows[listed[i]].created <= t.rows[listed[j]].created)
    && (forall w, v :: w in Uncompleted(t, name) && w !in listed && v in listed ==>
          t.rows[v].created <= t.rows[w].created)
    && (concurrency.Some? ==> |listed| <= concurrency.value)
    && ((concurrency.None? || |listed| < concurrency.value) ==>
          forall w :: w in Uncompleted(t, name) ==> w in listed)
  }

  function Unstarted(t: Tables, listed: seq<WfId>): (r: seq<WfId>)
    requires forall w :: w in listed ==> w in t.rows
    ensures forall w :: w in r <==> w in listed && t.rows[w].started.None?
  {
    if listed == [] then []
    else if t.rows[listed[0]].started.None? then [listed[0]] + Unstarted(t, listed[1..])
    else Unstarted(t, listed[1..])
  }

  /** The workflows of `ids` a claim takes when `recent` starts already count: those still enqueued,
      until the limit; a workflow in another status is passed over but counted. */
  function Taken(status: map<WfId, Status>, ids: seq<WfId>, recent: nat, rate: Option<Rate>): seq<WfId> {
    if ids == [] || (rate.Some? && recent >= rate.value.limit) then []
    else
      (if ids[0] in status && status[ids[0]].Enqueued? then [ids[0]] else [])
      + Taken(status, ids[1..], recent + 1, rate)
  }

  function Claims(t: Tables, name: string, lim: Limits, now: int, listed: seq<WfId>): (r: seq<WfId>)
    requires forall w :: w in listed ==> w in t.rows
    ensures forall w :: w in r ==> w in listed && w in t.status && t.status[w].Enqueued?
  {
    TakenFits(t.status, Unstarted(t, listed), if lim.rate.Some? then |Recent(t, name, lim, now)| else 0, lim.rate);
    Taken(t.status, Unstarted(t, listed), if lim.rate.Some? then |Recent(t, name, lim, now)| else 0, lim.rate)
  }

  function MarkedOne(t: Tables, id: WfId, now: int): Tables {
    Tables(if id in t.rows then t.rows[id := t.rows[id].(started := Some(now))] else t.rows, t.status[id := Pending])
  }

  /** The tables after the workflows of `ids` were marked pending and started, one after the other. */
  function Marked(t: Tables, ids: seq<WfId>, now: int): Tables {
    if ids == [] then t else MarkedOne(Marked(t, ids[..|ids| - 1], now), ids[|ids| - 1], now)
  }

  lemma {:induction false} MarkedRows(t: Tables, ids: seq<WfId>, now: int)
    ensures
      var r := Marked(t, ids, now);
      && r.rows.Keys == t.rows.Keys
      && (forall w :: w in t.rows ==> r.rows[w] == if w in ids then t.rows[w].(started := Some(now)) else t.rows[w])
  {
    if ids != [] {
      var n := |ids| - 1;
      MarkedRows(t, ids[..n], now);
      assert forall w :: w in ids <==> w == ids[n] || w in ids[..n];
    }
  }

  lemma {:induction false} MarkedStatus(t: Tables, ids: seq<WfId>, now: int, w: WfId)
    ensures
      var r := Marked(t, ids, now);
      if w in ids then w in r.status && r.status[w].Pending?
      else (w in r.status <==> w in t.status) && (w in t.status ==> r.status[w] == t.status[w])
  {
    if ids != [] {
      var n := |ids| - 1;
      MarkedStatus(t, ids[..n], now, w);
      assert w in ids <==> w == ids[n] || w in ids[..n];
    }
  }

  /** Removes what a rate-limited queue no longer needs to count. */
  function Swept(t: Tables, name: string, lim: Limits, now: int): Tables {
    if lim.rate.None? then t
    else t.(rows := map w | w in t.rows && !Outdated(t.rows[w], name, lim, now) :: t.rows[w])
  }

  predicate Outdated(r: Row, name: string, lim: Limits, now: int) {
    r.completed.Some? && r.queue == name && r.started.Some? && r.started.value < now - Period(lim)
  }

  function Completed(t: Tables, wf: WfId, lim: Limits, now: int): Tables {
    if wf !in t.rows then t
    else if lim.rate.Some? then t.(rows := t.rows[wf := t.rows[wf].(completed := Some(now))])
    else t.(rows := t.rows - {wf})
  }

  // ---- what a claim takes -----------------------------------------------------------------------

  /** A row a claim may take. */
  predicate Claimable(t: Tables, name: string, w: WfId) {
    && w in t.rows && t.rows[w].queue == name && t.rows[w].started.None? && t.rows[w].completed.None?
    && w in t.status && t.status[w].Enqueued?
  }

  ghost predicate DistinctTimes(t: Tables) {
    forall v, w :: v in t.rows && w in t.rows && v != w ==> t.rows[v].created != t.rows[w].created
  }

  ghost predicate InOrder(t: Tables, ids: seq<WfId>) {
    && (forall w :: w in ids ==> w in t.rows)
    && forall i, j :: 0 <= i < j < |ids| ==> t.rows[ids[i]].created < t.rows[ids[j]].created
  }

  lemma {:induction false} UnstartedKeepsOrder(t: Tables, listed: seq<WfId>)
    requires InOrder(t, listed)
    ensures InOrder(t, Unstarted(t, listed))
  {
    if listed != [] {
      var rest := listed[1..];
      UnstartedKeepsOrder(t, rest);
      InOrderTail(t, listed);
      InOrderCons(t, listed[0], Unstarted(t, rest));
    }
  }

  /** A claim takes enqueued workflows of its list, and no more than the rate limit leaves. */
  lemma {:induction false} TakenFits(status: map<WfId, Status>, ids: seq<WfId>, recent: nat, rate: Option<Rate>)
    ensures
      var r := Taken(status, ids, recent, rate);
      && (forall w :: w in r ==> w in ids && w in status && status[w].Enqueued?)
      && (rate.Some? && r != [] ==> recent + |r| <= rate.value.limit)
  {
    if ids != [] {
      TakenFits(status, ids[1..], recent + 1, rate);
    }
  }

  /** An enqueued workflow ahead of one that is taken is taken too. */
  ghost predicate SkipsNone(t: Tables, ids: seq<WfId>, r: seq<WfId>)
    requires forall w :: w in ids || w in r ==> w in t.rows
  {
    forall v, w :: v in r && w in ids && w in t.status && t.status[w].Enqueued? && Before(t, w, v) ==> w in r
  }

  predicate Before(t: Tables, w: WfId, v: WfId)
    requires w in t.rows && v in t.rows
  {
    t.rows[w].created < t.rows[v].created
  }

  lemma InOrderTail(t: Tables, ids: seq<WfId>)
    requires InOrder(t, ids) && ids != []
    ensures InOrder(t, ids[1..])
    ensures forall w :: w in ids[1..] ==> Before(t, ids[0], w)
  {
    var rest := ids[1..];
    assert forall i :: 0 <= i < |rest| ==> rest[i] == ids[i + 1];
    forall w | w in rest ensures Before(t, ids[0], w) {
      var i :| 0 <= i < |rest| && rest[i] == w;
      assert ids[i + 1] == w;
    }
  }

  lemma InOrderCons(t: Tables, w: WfId, r: seq<WfId>)
    requires w in t.rows && InOrder(t, r) && forall v :: v in r ==> Before(t, w, v)
    ensures InOrder(t, [w] + r)
  {
    var s := [w] + r;
    forall i, j | 0 <= i < j < |s| ensures Before(t, s[i], s[j]) {
      assert s[j] == r[j - 1];
      if i > 0 { assert s[i] == r[i - 1]; }
    }
  }

  lemma {:induction false} TakenInOrder(t: Tables, ids: seq<WfId>, recent: nat, rate: Option<Rate>)
    requires InOrder(t, ids)
    ensures InOrder(t, Taken(t.status, ids, recent, rate))
    ensures forall w :: w in Taken(t.status, ids, recent, rate) ==> w in ids
  {
    TakenFits(t.status, ids, recent, rate);
    if ids == [] || (rate.Some? && recent >= rate.value.limit) {
    } else {
      InOrderTail(t, ids);
      TakenInOrder(t, ids[1..], recent + 1, rate);
      InOrderCons(t, ids[0], Taken(t.status, ids[1..], recent + 1, rate));
    }
  }

  lemma {:induction false} TakenSkipsNone(t: Tables, ids: seq<WfId>, recent: nat, rate: Option<Rate>)
    requires InOrder(t, ids)
    ensures forall w :: w in Taken(t.status, ids, recent, rate) ==> w in ids
    ensures SkipsNone(t, ids, Taken(t.status, ids, recent, rate))
  {
    TakenFits(t.status, ids, recent, rate);
    if ids == [] || (rate.Some? && recent >= rate.value.limit) {
    } else {
      InOrderTail(t, ids);
      TakenSkipsNone(t, ids[1..], recent + 1, rate);
    }
  }

  lemma SelectedInOrder(t: Tables, name: string, c: Option<nat>, listed: seq<WfId>)
    requires Selects(t, name, c, listed) && DistinctTimes(t)
    ensures InOrder(t, listed)
  {
  }

  lemma SubsetCount<T>(a: set<T>, b: set<T>)
    requires a <= b
    ensures |a| <= |b|
  {
    assert b == a + (b - a);
  }

  lemma {:induction false} DistinctCount<T>(s: seq<T>)
    requires forall i, j :: 0 <= i < j < |s| ==> s[i] != s[j]
    ensures |set x | x in s| == |s|
  {
    if s == [] {
    } else {
      var n := |s| - 1;
      DistinctCount(s[..n]);
      assert (set x | x in s) == (set x | x in s[..n]) + {s[n]};
    }
  }

  /** A selected row has fewer than the concurrency limit's number of older uncompleted rows. */
  lemma SelectedRank(t: Tables, name: string, limit: nat, listed: seq<WfId>, w: WfId)
    requires Selects(t, name, Some(limit), listed) && w in listed
    ensures |Older(t, name, t.rows[w].created)| < limit
  {
    var all := set x | x in listed;
    DistinctCount(listed);
    SubsetCount(Older(t, name, t.rows[w].created), all - {w});
  }

  /** Every claim takes the oldest claimable workflow of the queue and skips none: what it takes was
      claimable, is in the order of enqueueing, leaves no older claimable row behind, ranks within the
      concurrency limit, and fits what the rate limit leaves. */
  lemma ClaimFacts(t: Tables, name: string, lim: Limits, now: int, listed: seq<WfId>)
    requires Selects(t, name, lim.concurrency, listed) && DistinctTimes(t)
    ensures
      var r := Claims(t, name, lim, now, listed);
      && (forall w :: w in r ==> Claimable(t, name, w))
      && InOrder(t, r)
      && (forall v, w :: v in r && Claimable(t, name, w) && Before(t, w, v) ==> w in r)
      && (forall w :: w in r && lim.concurrency.Some? ==>
            |Older(t, name, t.rows[w].created)| < lim.concurrency.value)
      && (lim.rate.Some? && r != [] ==> |Recent(t, name, lim, now)| + |r| <= lim.rate.value.limit)
  {
    var r := Claims(t, name, lim, now, listed);
    SelectedInOrder(t, name, lim.concurrency, listed);
    UnstartedKeepsOrder(t, listed);
    var ids := Unstarted(t, listed);
    var recent := if lim.rate.Some? then |Recent(t, name, lim, now)| else 0;
    TakenFits(t.status, ids, recent, lim.rate);
    TakenInOrder(t, ids, recent, lim.rate);
    TakenSkipsNone(t, ids, recent, lim.rate);
    forall w | w in r && lim.concurrency.Some?
      ensures |Older(t, name, t.rows[w].created)| < lim.concurrency.value
    {
      SelectedRank(t, name, lim.concurrency.value, listed, w);
    }
    forall v, w | v in r && Claimable(t, name, w) && Before(t, w, v) ensures w in r {
      assert w in Uncompleted(t, name);
      assert w in listed;
      assert w in ids;
    }
  }

  /** A claim goes through its list until the rate limit is used up, by those it passes over too. */
  lemma {:induction false} TakenUpTo(status: map<WfId, Status>, ids: seq<WfId>, recent: nat, rate: Option<Rate>, i: nat)
    requires i < |ids| && forall j, k :: 0 <= j < k < |ids| ==> ids[j] != ids[k]
    ensures ids[i] in Taken(status, ids, recent, rate) <==>
            && ids[i] in status && status[ids[i]].Enqueued?
            && (rate.Some? ==> recent + i < rate.value.limit)
  {
    TakenFits(status, ids, recent, rate);
    if rate.Some? && recent >= rate.value.limit {
    } else if i == 0 {
      TakenFits(status, ids[1..], recent + 1, rate);
      assert ids[0] !in ids[1..];
    } else {
      assert forall j, k :: 0 <= j < k < |ids[1..]| ==> ids[1..][j] != ids[1..][k];
      TakenUpTo(status, ids[1..], recent + 1, rate, i - 1);
      assert ids[0] != ids[i];
    }
  }

  /** The selected rows of workflows not yet started that were enqueued before `w`. */
  function Ahead(t: Tables, listed: seq<WfId>, w: WfId): set<WfId>
    requires w in t.rows
  {
    set v | v in listed && v in t.rows && t.rows[v].started.None? && t.rows[v].created < t.rows[w].created
  }

  lemma PositionIsRank(t: Tables, listed: seq<WfId>, ids: seq<WfId>, i: nat)
    requires InOrder(t, ids) && i < |ids|
    requires forall v :: v in ids <==> v in listed && v in t.rows && t.rows[v].started.None?
    ensures |Ahead(t, listed, ids[i])| == i
  {
    var w, before := ids[i], ids[..i];
    assert forall k :: 0 <= k < i ==> ids[k] == before[k];
    forall v ensures v in before <==> v in Ahead(t, listed, w) {
      if v in before {
        var j :| 0 <= j < i && before[j] == v;
        assert ids[j] == v;
      } else if v in ids {
        var j :| 0 <= j < |ids| && ids[j] == v;
        assert j >= i;
      }
    }
    assert Ahead(t, listed, w) == set v | v in before;
    forall j, k | 0 <= j < k < |before| ensures before[j] != before[k] {
      assert Before(t, ids[j], ids[k]);
    }
    DistinctCount(before);
  }

  /** EXACTLY: a claim takes a workflow if and only if it is a claimable one among the selected rows, and those ahead of
      it that have not started leave it a start within the rate limit; so rows that are neither claimable nor completed
      still use up both limits. */
  lemma {:induction false} ClaimsExactlySelected(t: Tables, name: string, lim: Limits, now: int, listed: seq<WfId>,
                                                 w: WfId)
    requires Selects(t, name, lim.concurrency, listed) && (lim.rate.Some? ==> DistinctTimes(t))
    ensures w in Claims(t, name, lim, now, listed) <==>
            && w in listed && Claimable(t, name, w)
            && (lim.rate.Some? ==> |Recent(t, name, lim, now)| + |Ahead(t, listed, w)| < lim.rate.value.limit)
  {
    var ids := Unstarted(t, listed);
    var recent := if lim.rate.Some? then |Recent(t, name, lim, now)| else 0;
    TakenFits(t.status, ids, recent, lim.rate);
    UnstartedDistinct(t, listed);
    if w in ids {
      var i :| 0 <= i < |ids| && ids[i] == w;
      TakenUpTo(t.status, ids, recent, lim.rate, i);
      if lim.rate.Some? {
        SelectedInOrder(t, name, lim.concurrency, listed);
        UnstartedKeepsOrder(t, listed);
        PositionIsRank(t, listed, ids, i);
      }
    }
  }

  // ---- the operations on the tables -------------------------------------------------------------

  class QueueTables {
    var rows: map<WfId, Row>
    var status: map<WfId, Status>

    function State(): Tables
      reads this
    {
      Tables(rows, status)
    }

    /** A second enqueue of a workflow that still has its row changes nothing. */
    method EnqueueWorkflow(wf: WfId, queue: string, now: int)
      modifies this`rows
      ensures wf in old(rows) ==> rows == old(rows)
      ensures wf !in old(rows) ==> rows == old(rows)[wf := Row(queue, now, None, None)]
    {
      if wf !in rows {
        rows := rows[wf := Row(queue, now, None, None)];
      }
    }

    method DequeueWorkflow(wf: WfId, lim: Limits, now: int)
      modifies this`rows
      ensures State() == Completed(old(State()), wf, lim, now)
      ensures forall w :: w in rows ==>
        w in old(rows) && rows[w] == if w == wf then old(rows)[w].(completed := Some(now)) else old(rows)[w]
      ensures forall w :: w in old(rows) && w !in rows ==> w == wf && lim.rate.None?
      ensures lim.rate.None? ==> wf !in rows
    {
      if lim.rate.Some? {
        if wf in rows { rows := rows[wf := rows[wf].(completed := Some(now))]; }
      } else {
        rows := rows - {wf};
        assert wf !in old(rows) ==> rows == old(rows);
      }
    }

    /** Marks a workflow pending and started if it is still enqueued. */
    method MarkStarted(id: WfId, now: int) returns (marked: bool)
      requires id in rows
      modifies this
      ensures marked == (id in old(status) && old(status)[id].Enqueued?)
      ensures State() == if marked then MarkedOne(old(State()), id, now) else old(State())
    {
      marked := id in status && status[id].Enqueued?;
      if marked {
        status := status[id := Pending];
        rows := rows[id := rows[id].(started := Some(now))];
      }
    }

    /** Marks the workflows of `ids` in turn, until the rate limit is used up. */
    method MarkWhileAllowed(ids: seq<WfId>, already: nat, rate: Option<Rate>, now: int) returns (claimed: seq<WfId>)
      requires forall w :: w in ids ==> w in rows
      requires forall i, j :: 0 <= i < j < |ids| ==> ids[i] != ids[j]
      modifies this
      ensures claimed == Taken(old(status), ids, already, rate)
      ensures State() == Marked(old(State()), claimed, now)
    {
      claimed := [];
      ghost var t := State();
      var recent: nat := already;
      assert ids[0..] == ids;
      for i := 0 to |ids|
        invariant rows.Keys == t.rows.Keys
        invariant forall w :: w in claimed ==> w in ids[..i]
        invariant State() == Marked(t, claimed, now)
        invariant Taken(t.status, ids, already, rate) == claimed + Taken(t.status, ids[i..], recent, rate)
      {
        if rate.Some? && recent >= rate.value.limit {
          break;
        }
        TakenStep(t.status, ids, i, recent, rate, claimed);
        MarkedStatus(t, claimed, now, ids[i]);
        var marked := MarkStarted(ids[i], now);
        if marked {
          MarkedMore(t, claimed, ids[i], now);
          claimed := claimed + [ids[i]];
        }
        recent := recent + 1;
      }
    }

    /** The claim transaction; `listed` is the answer to its query. */
    method ClaimStartable(name: string, lim: Limits, now: int, listed: seq<WfId>) returns (claimed: seq<WfId>)
      requires Selects(State(), name, lim.concurrency, listed)
      modifies this
      ensures claimed == Claims(old(State()), name, lim, now, listed)
      ensures State() == Marked(old(State()), claimed, now)
    {
      var recent: nat := 0;
      if lim.rate.Some? {
        recent := |Recent(State(), name, lim, now)|;
        if recent >= lim.rate.value.limit {
          return [];
        }
      }
      UnstartedDistinct(State(), listed);
      claimed := MarkWhileAllowed(Unstarted(State(), listed), recent, lim.rate, now);
    }

    /** The whole operation: the claim, then the removal of rows the rate limit no longer counts. */
    method FindAndMarkStartable(name: string, lim: Limits, now: int, listed: seq<WfId>) returns (claimed: seq<WfId>)
      requires Selects(State(), name, lim.concurrency, listed)
      modifies this
      ensures claimed == Claims(old(State()), name, lim, now, listed)
      ensures State() == Swept(Marked(old(State()), claimed, now), name, lim, now)
      ensures forall w :: w in old(rows) ==>
        var r := old(rows)[w];
        w !in rows <==>
          && lim.rate.Some? && r.queue == name && w !in claimed
          && r.completed.Some? && r.started.Some? && r.started.value + lim.rate.value.period < now
      ensures forall w :: w in rows ==>
        w in old(rows) && rows[w] == if w in claimed then old(rows)[w].(started := Some(now)) else old(rows)[w]
      ensures forall w :: w in status <==> w in old(status) || w in claimed
      ensures forall w :: w in status ==> status[w] == if w in claimed then Pending else old(status)[w]
    {
      claimed := ClaimStartable(name, lim, now, listed);
      MarkedRows(old(State()), claimed, now);
      forall w ensures w in status <==> w in old(status) || w in claimed
        ensures w in status ==> status[w] == if w in claimed then Pending else old(status)[w]
      {
        MarkedStatus(old(State()), claimed, now, w);
      }
      if lim.rate.Some? {
        rows := map w | w in rows && !Outdated(rows[w], name, lim, now) :: rows[w];
      }
    }
  }

  lemma MarkedMore(t: Tables, ids: seq<WfId>, id: WfId, now: int)
    ensures Marked(t, ids + [id], now) == MarkedOne(Marked(t, ids, now), id, now)
  {
    assert (ids + [id])[..|ids|] == ids;
  }

  lemma TakenStep(status: map<WfId, Status>, ids: seq<WfId>, i: nat, recent: nat, rate: Option<Rate>, before: seq<WfId>)
    requires i < |ids| && (rate.Some? ==> recent < rate.value.limit)
    requires forall j, k :: 0 <= j < k < |ids| ==> ids[j] != ids[k]
    ensures ids[i] !in ids[..i] && ids[..i + 1] == ids[..i] + [ids[i]]
    ensures
      before + Taken(status, ids[i..], recent, rate)
      == (if ids[i] in status && status[ids[i]].Enqueued? then before + [ids[i]] else before)
         + Taken(status, ids[i + 1..], recent + 1, rate)
  {
    assert ids[i..][1..] == ids[i + 1..];
  }

  lemma {:induction false} UnstartedDistinct(t: Tables, listed: seq<WfId>)
    requires forall w :: w in listed ==> w in t.rows
    requires forall i, j :: 0 <= i < j < |listed| ==> listed[i] != listed[j]
    ensures forall i, j :: 0 <= i < j < |Unstarted(t, listed)| ==> Unstarted(t, listed)[i] != Unstarted(t, listed)[j]
  {
    if listed != [] {
      var rest := listed[1..];
      assert forall i, j :: 0 <= i < j < |rest| ==> rest[i] == listed[i + 1] && rest[j] == listed[j + 1];
      assert listed[0] !in rest;
      UnstartedDistinct(t, rest);
    }
  }
}
