/** Which batch of a recorder carried which bucket, and which of them failed
    (crates/history/src/lib.rs:445-517). */
module BatchTraces {
  import opened Base
  import opened Telemetry
  import opened Rollups
  import opened RowFigures
  import opened RecorderSpec
  import opened WriteOutcomes

  function TableOf(t: Tier): Table {
    if t.TenSec? then TenSecSamples else MinuteSamples
  }

  predicate IsBatchOf(op: Op, tab: Table) {
    op.Write? && op.batch.table == tab
  }

  // The buckets carried by the batches of one table tried since operation `from`.
  function Carried(ops: seq<Op>, from: nat, tab: Table): set<(string, nat)> {
    if |ops| <= from then {}
    else
      var last := ops[|ops| - 1];
      Carried(ops[..|ops| - 1], from, tab) + if IsBatchOf(last, tab) then last.batch.keys else {}
  }

  // Those of them whose batch failed.
  function FailedKeys(ops: seq<Op>, from: nat, tab: Table): set<(string, nat)> {
    if |ops| <= from then {}
    else
      var last := ops[|ops| - 1];
      FailedKeys(ops[..|ops| - 1], from, tab) + if IsBatchOf(last, tab) && Fails(last) then last.batch.keys else {}
  }

  // No bucket is carried twice.
  predicate CarriedOnce(ops: seq<Op>, from: nat, tab: Table) {
    |ops| <= from
    || (CarriedOnce(ops[..|ops| - 1], from, tab)
        && (IsBatchOf(ops[|ops| - 1], tab) ==> ops[|ops| - 1].batch.keys !! Carried(ops[..|ops| - 1], from, tab)))
  }

  // ---- what that says of single batches ----

  predicate CarriesAt(ops: seq<Op>, i: nat, tab: Table, k: (string, nat)) {
    i < |ops| && IsBatchOf(ops[i], tab) && k in ops[i].batch.keys
  }

  // Operation i is the one batch since `from` that carried bucket k.
  ghost predicate TheBatch(ops: seq<Op>, from: nat, tab: Table, i: nat, k: (string, nat)) {
    from <= i && CarriesAt(ops, i, tab, k) && forall j: nat :: from <= j && CarriesAt(ops, j, tab, k) ==> j == i
  }

  lemma {:induction false} CarriedHas(ops: seq<Op>, from: nat, tab: Table, k: (string, nat))
    ensures k in Carried(ops, from, tab) <==> exists j: nat :: from <= j && CarriesAt(ops, j, tab, k)
  {
    if |ops| > from {
      var front := ops[..|ops| - 1];
      CarriedHas(front, from, tab, k);
      if j: nat :| from <= j && CarriesAt(front, j, tab, k) {
        assert CarriesAt(ops, j, tab, k);
      }
      if CarriesAt(ops, |ops| - 1, tab, k) {
      } else if j: nat :| from <= j && CarriesAt(ops, j, tab, k) {
        assert CarriesAt(front, j, tab, k);
      }
    }
  }

  // Every carried bucket has one batch, and is among the failed ones if and only if that failed.
  lemma {:induction false} BatchOf(ops: seq<Op>, from: nat, tab: Table, k: (string, nat)) returns (i: nat)
    requires CarriedOnce(ops, from, tab) && k in Carried(ops, from, tab)
    ensures TheBatch(ops, from, tab, i, k)
    ensures k in FailedKeys(ops, from, tab) <==> Fails(ops[i])
  {
    var front, n := ops[..|ops| - 1], |ops| - 1;
    CarriedHas(front, from, tab, k);
    FailedAreCarried(front, from, tab);
    if CarriesAt(ops, n, tab, k) {
      i := n;
      forall j: nat | from <= j && CarriesAt(ops, j, tab, k) ensures j == i {
        assert j < n ==> CarriesAt(front, j, tab, k);
      }
    } else {
      i := BatchOf(front, from, tab, k);
      forall j: nat | from <= j && CarriesAt(ops, j, tab, k) ensures j == i {
        assert CarriesAt(front, j, tab, k);
      }
    }
  }

  lemma {:induction false} FailedAreCarried(ops: seq<Op>, from: nat, tab: Table)
    ensures FailedKeys(ops, from, tab) <= Carried(ops, from, tab)
  {
    if |ops| > from {
      FailedAreCarried(ops[..|ops| - 1], from, tab);
    }
  }

  // What was tried up to `mid` and what was tried after it.
  lemma {:induction false} SplitAt(ops: seq<Op>, from: nat, mid: nat, tab: Table)
    requires from <= mid <= |ops|
    ensures FailedKeys(ops, from, tab) == FailedKeys(ops[..mid], from, tab) + FailedKeys(ops, mid, tab)
    ensures Carried(ops, from, tab) == Carried(ops[..mid], from, tab) + Carried(ops, mid, tab)
  {
    if mid < |ops| {
      var front := ops[..|ops| - 1];
      assert front[..mid] == ops[..mid];
      SplitAt(front, from, mid, tab);
    } else {
      assert ops[..mid] == ops;
    }
  }

  // ---- the trace of one table ----

  // Since operation `from`, every complete bucket of the frames has been carried by exactly one
  // batch of the table, no other has been carried, and the lost ones are those of failed batches.
  ghost predicate Traced(ops: seq<Op>, from: nat, tab: Table, fr: Frames, t: Tier, sealed: bool, lost: set<(string, nat)>) {
    && from <= |ops| && CarriedOnce(ops, from, tab) && lost == FailedKeys(ops, from, tab)
    && forall d: string, b: nat :: (d, b) in Carried(ops, from, tab) <==> Complete(FramesOf(fr, d), t, b, sealed)
  }

  // One batch was tried, or none.
  predicate Tried(before: seq<Op>, ops: seq<Op>, batch: Option<Batch>) {
    if batch.None? then ops == before
    else |ops| == |before| + 1 && ops[..|before|] == before && ops[|before|].Write? && ops[|before|].batch == batch.value
  }

  // No batch of this table was tried.
  ghost predicate Untouched(before: seq<Op>, ops: seq<Op>, tab: Table) {
    before <= ops && forall i :: |before| <= i < |ops| ==> !IsBatchOf(ops[i], tab)
  }

  lemma {:induction false} StaysTraced(before: seq<Op>, ops: seq<Op>, from: nat, tab: Table)
    requires Untouched(before, ops, tab) && from <= |before|
    ensures Carried(ops, from, tab) == Carried(before, from, tab) && FailedKeys(ops, from, tab) == FailedKeys(before, from, tab)
    ensures CarriedOnce(ops, from, tab) == CarriedOnce(before, from, tab)
    decreases |ops|
  {
    if |before| < |ops| {
      StaysTraced(before, ops[..|ops| - 1], from, tab);
    } else {
      assert ops == before;
    }
  }

  lemma TraceUntouched(before: seq<Op>, ops: seq<Op>, from: nat, tab: Table, fr: Frames, t: Tier, sealed: bool,
                       lost: set<(string, nat)>)
    requires Traced(before, from, tab, fr, t, sealed, lost) && Untouched(before, ops, tab)
    ensures Traced(ops, from, tab, fr, t, sealed, lost)
  {
    hide Complete, CarriedOnce, Carried, FailedKeys;
    StaysTraced(before, ops, from, tab);
  }

  // A batch whose buckets had not been carried.
  lemma OneBatch(before: seq<Op>, ops: seq<Op>, from: nat, tab: Table, keys: set<(string, nat)>)
    requires Tried(before, ops, Some(Batch(tab, keys))) && from <= |before| && CarriedOnce(before, from, tab)
    requires keys !! Carried(before, from, tab)
    ensures CarriedOnce(ops, from, tab) && Carried(ops, from, tab) == Carried(before, from, tab) + keys
    ensures FailedKeys(ops, from, tab) == FailedKeys(before, from, tab) + if Fails(ops[|before|]) then keys else {}
  {
    assert ops[..|ops| - 1] == before;
  }

  // The bucket a frame closes, if any.
  function ClosingKeys(fs: seq<Frame>, d: string, f: Frame, t: Tier): set<(string, nat)> {
    if Crosses(fs, f, t) then {(d, Key(fs, t))} else {}
  }

  function ClosingBatch(fs: seq<Frame>, d: string, f: Frame, t: Tier, tab: Table): Option<Batch> {
    if Crosses(fs, f, t) then Some(Batch(tab, {(d, Key(fs, t))})) else None
  }

  lemma TraceFrame(before: seq<Op>, ops: seq<Op>, from: nat, tab: Table, fr: Frames, d: string, f: Frame, t: Tier,
                   lost: set<(string, nat)>, lost': set<(string, nat)>)
    requires Traced(before, from, tab, fr, t, false, lost)
    requires Tried(before, ops, ClosingBatch(FramesOf(fr, d), d, f, t, tab))
    requires lost' == if Crosses(FramesOf(fr, d), f, t) && Fails(ops[|before|]) then lost + {(d, Key(FramesOf(fr, d), t))} else lost
    ensures Traced(ops, from, tab, Arrived(fr, d, f), t, false, lost')
  {
    hide Complete, CarriedOnce, Carried, FailedKeys, Crosses, Key;
    var fs := FramesOf(fr, d);
    CrossedKeyOpen(fs, f, t);
    if Crosses(fs, f, t) {
      assert (d, Key(fs, t)) !in Carried(before, from, tab);
      OneBatch(before, ops, from, tab, {(d, Key(fs, t))});
    }
    forall e: string, b: nat
      ensures (e, b) in Carried(ops, from, tab) <==> Complete(FramesOf(Arrived(fr, d, f), e), t, b, false)
    {
      assert (e, b) in Carried(before, from, tab) <==> Complete(FramesOf(fr, e), t, b, false);
      ArrivalMembers(fs, f, t, b);
    }
  }

  lemma TraceSeal(before: seq<Op>, ops: seq<Op>, from: nat, tab: Table, fr: Frames, t: Tier,
                  lost: set<(string, nat)>, lost': set<(string, nat)>)
    requires Traced(before, from, tab, fr, t, false, lost)
    requires Tried(before, ops, Some(Batch(tab, OpenKeys(fr, t))))
    requires lost' == if Fails(ops[|before|]) then lost + OpenKeys(fr, t) else lost
    ensures Traced(ops, from, tab, fr, t, true, lost')
  {
    hide Complete, CarriedOnce, Carried, FailedKeys, Key, OpenKeys;
    forall d: string, b: nat
      ensures Complete(FramesOf(fr, d), t, b, true) <==> Complete(FramesOf(fr, d), t, b, false) || (d, b) in OpenKeys(fr, t)
      ensures (d, b) in OpenKeys(fr, t) ==> (d, b) !in Carried(before, from, tab)
    {
      SealedBuckets(FramesOf(fr, d), t, b);
      OpenKeysAre(fr, t, d, b);
      OpenNotComplete(fr, t, d, b);
    }
    forall k: (string, nat) | k in OpenKeys(fr, t) ensures k !in Carried(before, from, tab) {
      assert (k.0, k.1) in OpenKeys(fr, t);
    }
    OneBatch(before, ops, from, tab, OpenKeys(fr, t));
  }

  lemma OpenNotComplete(fr: Frames, t: Tier, d: string, b: nat)
    ensures (d, b) in OpenKeys(fr, t) ==> !Complete(FramesOf(fr, d), t, b, false)
  {
    OpenKeysAre(fr, t, d, b);
  }

  lemma TraceStarts(ops: seq<Op>, tab: Table, fr: Frames, t: Tier)
    requires forall d: string :: d in fr ==> fr[d] == []
    ensures Traced(ops, |ops|, tab, fr, t, false, {})
  {
    forall d: string, b: nat ensures !Complete(FramesOf(fr, d), t, b, false) {
      assert FramesOf(fr, d) == [];
    }
  }

  // ---- what became of every bucket ----

  // What a recording into an empty table, flushed once, holds for a bucket: nothing if it had no
  // frames; otherwise one batch carried it. If that failed there is no row; if it did not, the
  // row is there unless the bucket is below `kept` and was pruned; and a row that is there is
  // the reference row, which says column by column what the bucket's frames showed.
  ghost predicate BucketFate(table: SampleTable, ops: seq<Op>, fs: seq<Frame>, t: Tier, d: string, b: nat, kept: nat) {
    if Members(fs, t, b) == [] then (d, b) !in table
    else
      && ((d, b) in table ==> table[(d, b)] == RefRow(fs, t, b) && RowMeans(table[(d, b)], Members(fs, t, b)))
      && (exists i: nat :: TheBatch(ops, 0, TableOf(t), i, (d, b))
           && (if Fails(ops[i]) then (d, b) !in table else b >= kept ==> (d, b) in table))
  }

  // The same for a bucket's processes, which are written and pruned as a whole.
  ghost predicate ProcFate(table: ProcTable, ops: seq<Op>, fs: seq<Frame>, d: string, b: nat, kept: nat) {
    if Members(fs, TenSec, b) == [] then SlotIs(table, map[], d, b, map[])
    else
      exists i: nat :: TheBatch(ops, 0, Processes, i, (d, b))
                       && (if Fails(ops[i]) then SlotIs(table, map[], d, b, map[])
                           else || (SlotIs(table, map[], d, b, RefProcs(fs, b)) && ProcsMean(RefProcs(fs, b), Members(fs, TenSec, b)))
                                || (b < kept && SlotIs(table, map[], d, b, map[])))
  }

  lemma SampleFates(table: SampleTable, ops: seq<Op>, fr: Frames, t: Tier, lost: set<(string, nat)>, cut: nat, kept: nat,
                    d: string, b: nat)
    requires SamplesMatch(table, map[], fr, t, lost, cut, true) && Traced(ops, 0, TableOf(t), fr, t, true, lost)
    requires cut <= kept
    ensures BucketFate(table, ops, FramesOf(fr, d), t, d, b, kept)
  {
    hide CarriedOnce, Carried, FailedKeys, RefRow, Members, RowMeans;
    RefRowMeans(FramesOf(fr, d), t, b);
    assert RowOk(table, map[], FramesOf(fr, d), t, d, b, lost, cut, true);
    if Members(FramesOf(fr, d), t, b) != [] {
      assert Complete(FramesOf(fr, d), t, b, true) && (d, b) in Carried(ops, 0, TableOf(t));
      var i := BatchOf(ops, 0, TableOf(t), (d, b));
    }
  }

  lemma ProcFates(table: ProcTable, ops: seq<Op>, fr: Frames, lost: set<(string, nat)>, cut: nat, kept: nat, d: string, b: nat)
    requires ProcsMatch(table, map[], fr, lost, cut, true) && Traced(ops, 0, Processes, fr, TenSec, true, lost)
    requires cut <= kept
    ensures ProcFate(table, ops, FramesOf(fr, d), d, b, kept)
  {
    hide CarriedOnce, Carried, FailedKeys, RefProcs, Members, SlotIs, ProcsMean;
    RefProcsMean(FramesOf(fr, d), b);
    assert SlotOk(table, map[], FramesOf(fr, d), d, b, lost, cut, true);
    if Members(FramesOf(fr, d), TenSec, b) != [] {
      assert Complete(FramesOf(fr, d), TenSec, b, true) && (d, b) in Carried(ops, 0, Processes);
      var i := BatchOf(ops, 0, Processes, (d, b));
    }
  }
}
