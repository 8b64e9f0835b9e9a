/** The batches that the flush loops of the write-behind buffers take. */
module Batches {
  import opened Workflows

  /** A batch is written, refused, or written although the answer is lost. */
  datatype Answer = Written | Refused | AnswerLost

  ghost predicate PartOf<V>(part: map<WfId, V>, whole: map<WfId, V>) {
    forall w :: w in part ==> w in whole && part[w] == whole[w]
  }

  lemma KeyCount<V>(m: map<WfId, V>)
    ensures |m| == |m.Keys|
  {
  }

  lemma DropCount<V>(m: map<WfId, V>, s: set<WfId>)
    requires s <= m.Keys
    ensures |m - s| == |m| - |s|
  {
    KeyCount(m);
    KeyCount(m - s);
    assert (m - s).Keys == m.Keys - s && m.Keys == (m.Keys - s) + s;
  }

  /** The entries of `local` outside `rest` have been scanned: taken into `batch`, or skipped. */
  ghost predicate Scanned<V>(local: map<WfId, V>, skip: set<WfId>, rest: set<WfId>, batch: map<WfId, V>, seen: nat) {
    && PartOf(batch, local) && rest <= local.Keys && batch.Keys == local.Keys - rest - skip
    && seen + |rest| == |local| && |batch| <= seen && (skip == {} ==> seen == |batch|)
  }

  lemma ScanOne<V>(local: map<WfId, V>, skip: set<WfId>, rest: set<WfId>, batch: map<WfId, V>, seen: nat, w: WfId)
    requires Scanned(local, skip, rest, batch, seen) && w in rest
    ensures
      var batch' := if w in skip then batch else batch[w := local[w]];
      Scanned(local, skip, rest - {w}, batch', seen + 1) && |batch'| <= |batch| + 1
  {
    assert w !in batch;
    assert |rest - {w}| == |rest| - 1;
  }

  lemma ScanStarts<V>(local: map<WfId, V>, skip: set<WfId>)
    ensures Scanned(local, skip, local.Keys, map[], 0)
    ensures local != map[] ==> local.Keys != {}
  {
    KeyCount(local);
    if local != map[] {
      var w :| w in local;
      assert w in local.Keys;
    }
  }

  lemma ScanEnds<V>(local: map<WfId, V>, skip: set<WfId>, rest: set<WfId>, batch: map<WfId, V>, seen: nat)
    requires Scanned(local, skip, rest, batch, seen)
    ensures batch.Keys !! skip && seen <= |local|
    ensures rest == {} ==> seen == |local| && batch.Keys == local.Keys - skip
    ensures local != map[] && seen == 0 ==> rest == local.Keys
  {
    KeyCount(local);
    if seen == 0 {
      SameSize(rest, local.Keys);
    }
  }

  lemma SameSize(a: set<WfId>, b: set<WfId>)
    requires a <= b && |a| == |b|
    ensures a == b
  {
    assert b == a + (b - a);
  }

  /** The entries one batch takes, scanned in any order: at most `size`, none to be skipped; `seen` counts
      the skipped ones as well. */
  method NextBatch<V>(local: map<WfId, V>, skip: set<WfId>, size: nat) returns (batch: map<WfId, V>, seen: nat)
    requires size > 0
    ensures PartOf(batch, local) && batch.Keys !! skip
    ensures |batch| <= size && |batch| <= seen <= |local|
    ensures skip == {} ==> seen == |batch|
    ensures local != map[] ==> seen > 0
    ensures |batch| < size ==> seen == |local| && batch.Keys == local.Keys - skip
  {
    batch, seen := map[], 0;
    var rest := local.Keys;
    ScanStarts(local, skip);
    while rest != {} && |batch| < size
      invariant Scanned(local, skip, rest, batch, seen) && |batch| <= size
      invariant local != map[] && seen == 0 ==> rest != {}
      decreases |rest|
    {
      var w :| w in rest;
      ScanOne(local, skip, rest, batch, seen, w);
      if w !in skip {
        batch := batch[w := local[w]];
      }
      rest := rest - {w};
      seen := seen + 1;
    }
    ScanEnds(local, skip, rest, batch, seen);
  }
}
