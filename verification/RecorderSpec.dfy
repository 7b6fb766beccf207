/** What the tables of a recording must hold for the frames the recorder was fed
    (crates/history/src/lib.rs:385-517, crates/history/src/store.rs:797-878, 1072-1092). */
module RecorderSpec {
  import opened Base
  import opened Telemetry
  import opened Rollups
  import opened RowFigures

  // How long rows of each kind are kept.
  const RETAIN_10S_MS: nat := 172_800_000
  const RETAIN_1M_MS: nat := 2_592_000_000
  const RETAIN_EVENTS_MS: nat := 2_592_000_000

  // Every device's frames, in the order they were observed.
  type Frames = map<string, seq<Frame>>
  type SampleTable = map<(string, nat), SampleRow>
  type ProcTable = map<(string, nat, nat), ProcRow>

  function FramesOf(fr: Frames, d: string): seq<Frame> {
    if d in fr then fr[d] else []
  }

  function Arrived(fr: Frames, d: string, f: Frame): Frames {
    fr[d := FramesOf(fr, d) + [f]]
  }

  // The rows a bucket's frames amount to.
  function RefRow(fs: seq<Frame>, t: Tier, b: nat): SampleRow {
    ToRow(Aggregate(Members(fs, t, b)))
  }

  // Column by column it says what its frames showed.
  lemma RefRowMeans(fs: seq<Frame>, t: Tier, b: nat)
    ensures RowMeans(RefRow(fs, t, b), Members(fs, t, b))
  {
    ColumnsMean(Members(fs, t, b));
    hide RowMeans, Members;
  }

  // Bucket b holds frames and no further frame can be attributed to it: a later bucket is
  // open, or the recording has been sealed by its final flush.
  predicate Complete(fs: seq<Frame>, t: Tier, b: nat, sealed: bool) {
    Members(fs, t, b) != [] && (sealed || b < Key(fs, t))
  }

  // The two tables agree at a key.
  predicate SameAt<K, V(==)>(a: map<K, V>, b: map<K, V>, k: K) {
    (k in a <==> k in b) && (k in a ==> a[k] == b[k])
  }

  // A recording starts from what the table held before (`base`: nothing, or what earlier
  // flushes left). A completed bucket holds its reference row, any other key what it held
  // before; a bucket whose write failed (`lost`) counts as never written, and below `cut` a
  // prune may have removed the row.
  ghost predicate RowOk(table: SampleTable, base: SampleTable, fs: seq<Frame>, t: Tier, d: string, b: nat,
                        lost: set<(string, nat)>, cut: nat, sealed: bool)
  {
    && ((d, b) in lost ==> Complete(fs, t, b, sealed))
    && (|| (b < cut && (d, b) !in table)
        || (if Complete(fs, t, b, sealed) && (d, b) !in lost
            then (d, b) in table && table[(d, b)] == RefRow(fs, t, b)
            else SameAt(table, base, (d, b))))
  }

  ghost predicate SamplesMatch(table: SampleTable, base: SampleTable, fr: Frames, t: Tier,
                               lost: set<(string, nat)>, cut: nat, sealed: bool)
  {
    forall d: string, b: nat :: RowOk(table, base, FramesOf(fr, d), t, d, b, lost, cut, sealed)
  }

  // The rows one process bucket must hold, by pid.
  function RefProcs(fs: seq<Frame>, b: nat): map<nat, ProcRow> {
    ProcRows(ProcGroups(Sightings(Members(fs, TenSec, b))))
  }

  function ProcRows(groups: map<nat, ProcAccum>): map<nat, ProcRow> {
    map p | p in groups :: ProcToRow(groups[p])
  }

  // The part of the process table that belongs to one device's bucket: these rows, and what it
  // held before for every other pid.
  ghost predicate SlotIs(table: ProcTable, base: ProcTable, d: string, b: nat, rows: map<nat, ProcRow>) {
    forall p: nat ::
      if p in rows then (d, b, p) in table && table[(d, b, p)] == rows[p] else SameAt(table, base, (d, b, p))
  }

  // A process bucket is written and pruned as a whole.
  ghost predicate SlotOk(table: ProcTable, base: ProcTable, fs: seq<Frame>, d: string, b: nat,
                         lost: set<(string, nat)>, cut: nat, sealed: bool)
  {
    && ((d, b) in lost ==> Complete(fs, TenSec, b, sealed))
    && var rows := if Complete(fs, TenSec, b, sealed) && (d, b) !in lost then RefProcs(fs, b) else map[];
    SlotIs(table, base, d, b, rows) || (b < cut && (SlotIs(table, map[], d, b, rows) || SlotIs(table, map[], d, b, map[])))
  }

  lemma RefProcsMean(fs: seq<Frame>, b: nat)
    ensures ProcsMean(RefProcs(fs, b), Members(fs, TenSec, b))
  {
    ProcsFigures(Members(fs, TenSec, b));
    hide ProcsMean, Members, ProcGroups;
  }

  ghost predicate ProcsMatch(table: ProcTable, base: ProcTable, fr: Frames, lost: set<(string, nat)>, cut: nat, sealed: bool) {
    forall d: string, b: nat :: SlotOk(table, base, FramesOf(fr, d), d, b, lost, cut, sealed)
  }

  // Before the first frame the tables hold what they held.
  lemma NothingObserved(table: SampleTable, procs: ProcTable, fr: Frames, t: Tier)
    requires forall d: string :: d in fr ==> fr[d] == []
    ensures SamplesMatch(table, table, fr, t, {}, 0, false) && ProcsMatch(procs, procs, fr, {}, 0, false)
  {
    forall d: string, b: nat
      ensures RowOk(table, table, FramesOf(fr, d), t, d, b, {}, 0, false)
      ensures SlotOk(procs, procs, FramesOf(fr, d), d, b, {}, 0, false)
    {
      assert FramesOf(fr, d) == [] && Members([], t, b) == [] && Members([], TenSec, b) == [];
    }
  }

  // ---- one frame arrives ----

  // The frame opens a later bucket, so the open one is complete.
  predicate Crosses(fs: seq<Frame>, f: Frame, t: Tier) {
    fs != [] && BucketOf(f.s.ts, t) > Key(fs, t)
  }

  lemma ArrivalKey(fs: seq<Frame>, f: Frame, t: Tier)
    ensures Key(fs + [f], t) == if fs == [] || Crosses(fs, f, t) then BucketOf(f.s.ts, t) else Key(fs, t)
    ensures Members(fs + [f], t, Key(fs + [f], t)) ==
      if fs == [] || Crosses(fs, f, t) then [f] else Members(fs, t, Key(fs, t)) + [f]
  {
    AppendFrame(fs, f, t, Key(fs + [f], t));
    if Crosses(fs, f, t) {
      MembersBelowKey(fs, t, Key(fs + [f], t));
    }
  }

  lemma ArrivalMembers(fs: seq<Frame>, f: Frame, t: Tier, b: nat)
    ensures b != Key(fs + [f], t) ==> Members(fs + [f], t, b) == Members(fs, t, b)
    ensures Complete(fs + [f], t, b, false) <==>
      Complete(fs, t, b, false) || (Crosses(fs, f, t) && b == Key(fs, t))
    ensures Complete(fs, t, b, false) ==> b != Key(fs + [f], t)
    ensures fs != [] ==> Key(fs + [f], t) >= Key(fs, t) && !Complete(fs, t, Key(fs, t), false)
  {
    AppendFrame(fs, f, t, b);
    if fs != [] {
      MembersBelowKey(fs, t, b);
    }
  }

  // Whatever the write result, a frame keeps the table matching; the row it completes was not
  // written since the recording started, so replacing can only overwrite what was there before.
  lemma SampleFrameArrives(table: SampleTable, base: SampleTable, fr: Frames, d: string, f: Frame, t: Tier,
                           lost: set<(string, nat)>, cut: nat, ok: bool,
                           table': SampleTable, lost': set<(string, nat)>)
    requires SamplesMatch(table, base, fr, t, lost, cut, false)
    requires var fs := FramesOf(fr, d);
      if Crosses(fs, f, t) then
        && table' == (if ok then table[(d, Key(fs, t)) := RefRow(fs, t, Key(fs, t))] else table)
        && lost' == (if ok then lost else lost + {(d, Key(fs, t))})
      else table' == table && lost' == lost
    ensures SamplesMatch(table', base, Arrived(fr, d, f), t, lost', cut, false)
    ensures FramesOf(fr, d) != [] && (d, Key(FramesOf(fr, d), t)) in table ==> (d, Key(FramesOf(fr, d), t)) in base
  {
    hide RefRow, Key, Complete, BucketOf, Crosses;
    var fs, fr' := FramesOf(fr, d), Arrived(fr, d, f);
    forall e: string, b: nat ensures RowOk(table', base, FramesOf(fr', e), t, e, b, lost', cut, false) {
      assert RowOk(table, base, FramesOf(fr, e), t, e, b, lost, cut, false);
      if e == d {
        ArrivalMembers(fs, f, t, b);
        ArrivalRow(fs, f, t, b);
        CrossedKeyOpen(fs, f, t);
      }
    }
    if fs != [] {
      ArrivalMembers(fs, f, t, Key(fs, t));
      assert RowOk(table, base, fs, t, d, Key(fs, t), lost, cut, false);
    }
  }

  // The bucket a frame closes was open, so nothing was written for it yet.
  lemma CrossedKeyOpen(fs: seq<Frame>, f: Frame, t: Tier)
    ensures Crosses(fs, f, t) ==> fs != [] && !Complete(fs, t, Key(fs, t), false)
  {
  }

  lemma ArrivalRow(fs: seq<Frame>, f: Frame, t: Tier, b: nat)
    ensures Complete(fs + [f], t, b, false) ==> RefRow(fs + [f], t, b) == RefRow(fs, t, b)
    ensures Complete(fs + [f], TenSec, b, false) ==> RefProcs(fs + [f], b) == RefProcs(fs, b)
  {
    ArrivalMembers(fs, f, t, b);
    ArrivalMembers(fs, f, TenSec, b);
  }

  // One process bucket's rows, as the table keys them.
  function Keyed(d: string, b: nat, rows: map<nat, ProcRow>): ProcTable {
    map k | k in ProcKeys(d, b, rows.Keys) :: rows[k.2]
  }

  function ProcKeys(d: string, b: nat, pids: set<nat>): set<(string, nat, nat)> {
    set p | p in pids :: (d, b, p)
  }

  function BucketRows(fs: seq<Frame>, d: string, b: nat): ProcTable {
    Keyed(d, b, RefProcs(fs, b))
  }

  lemma WriteSlot(table: ProcTable, base: ProcTable, fs: seq<Frame>, d: string, b: nat)
    requires SlotIs(table, base, d, b, map[])
    ensures SlotIs(table + BucketRows(fs, d, b), base, d, b, RefProcs(fs, b))
  {
    hide RefProcs;
    forall p: nat ensures (d, b, p) in BucketRows(fs, d, b) <==> p in RefProcs(fs, b) {
      assert (d, b, p) in ProcKeys(d, b, RefProcs(fs, b).Keys) <==> p in RefProcs(fs, b);
    }
  }

  lemma OtherSlots(table: ProcTable, base: ProcTable, fs: seq<Frame>, d: string, b: nat, e: string, c: nat, rows: map<nat, ProcRow>)
    requires (e, c) != (d, b)
    ensures SlotIs(table + BucketRows(fs, d, b), base, e, c, rows) == SlotIs(table, base, e, c, rows)
  {
    hide RefProcs;
    assert forall p: nat :: (e, c, p) !in BucketRows(fs, d, b);
  }

  // Writing one bucket leaves every other bucket as good as it was ...
  lemma OtherSlotsOk(table: ProcTable, base: ProcTable, fs: seq<Frame>, d: string, b: nat, es: seq<Frame>, e: string, c: nat,
                     lost: set<(string, nat)>, cut: nat, sealed: bool)
    requires (e, c) != (d, b) && SlotOk(table, base, es, e, c, lost, cut, sealed)
    ensures SlotOk(table + BucketRows(fs, d, b), base, es, e, c, lost, cut, sealed)
  {
    hide RefProcs, Complete, SlotIs, BucketRows;
    var rows := if Complete(es, TenSec, c, sealed) && (e, c) !in lost then RefProcs(es, c) else map[];
    OtherSlots(table, base, fs, d, b, e, c, rows);
    OtherSlots(table, map[], fs, d, b, e, c, rows);
    OtherSlots(table, map[], fs, d, b, e, c, map[]);
  }

  // ... and makes its own bucket good.
  lemma OwnSlotOk(table: ProcTable, base: ProcTable, fs: seq<Frame>, d: string, b: nat, lost: set<(string, nat)>, cut: nat,
                  after: seq<Frame>, sealed: bool)
    requires SlotOk(table, base, fs, d, b, lost, cut, false) && !Complete(fs, TenSec, b, false)
    requires Complete(after, TenSec, b, sealed) && RefProcs(after, b) == RefProcs(fs, b)
    ensures SlotOk(table + BucketRows(fs, d, b), base, after, d, b, lost, cut, sealed)
    ensures SlotOk(table, base, after, d, b, lost + {(d, b)}, cut, sealed)
  {
    hide RefProcs, Complete, SlotIs, BucketRows;
    if SlotIs(table, base, d, b, map[]) {
      WriteSlot(table, base, fs, d, b);
    } else {
      WriteSlot(table, map[], fs, d, b);
    }
  }

  lemma ProcFrameArrives(table: ProcTable, base: ProcTable, fr: Frames, d: string, f: Frame,
                         lost: set<(string, nat)>, cut: nat, ok: bool,
                         table': ProcTable, lost': set<(string, nat)>)
    requires ProcsMatch(table, base, fr, lost, cut, false)
    requires var fs := FramesOf(fr, d);
      if Crosses(fs, f, TenSec) then
        && table' == (if ok then table + BucketRows(fs, d, Key(fs, TenSec)) else table)
        && lost' == (if ok then lost else lost + {(d, Key(fs, TenSec))})
      else table' == table && lost' == lost
    ensures ProcsMatch(table', base, Arrived(fr, d, f), lost', cut, false)
  {
    hide RefProcs, Key, Complete, SlotOk, BucketRows, Crosses;
    var fs, fr' := FramesOf(fr, d), Arrived(fr, d, f);
    CrossedKeyOpen(fs, f, TenSec);
    forall e: string, b: nat ensures SlotOk(table', base, FramesOf(fr', e), e, b, lost', cut, false) {
      assert SlotOk(table, base, FramesOf(fr, e), e, b, lost, cut, false);
      ProcSlotArrives(table, base, fr, d, f, lost, cut, ok, table', lost', e, b);
    }
  }

  lemma ProcSlotArrives(table: ProcTable, base: ProcTable, fr: Frames, d: string, f: Frame,
                        lost: set<(string, nat)>, cut: nat, ok: bool,
                        table': ProcTable, lost': set<(string, nat)>, e: string, b: nat)
    requires SlotOk(table, base, FramesOf(fr, e), e, b, lost, cut, false)
    requires var fs := FramesOf(fr, d);
      if Crosses(fs, f, TenSec) then
        && fs != [] && !Complete(fs, TenSec, Key(fs, TenSec), false)
        && table' == (if ok then table + BucketRows(fs, d, Key(fs, TenSec)) else table)
        && lost' == (if ok then lost else lost + {(d, Key(fs, TenSec))})
      else table' == table && lost' == lost
    ensures SlotOk(table', base, FramesOf(Arrived(fr, d, f), e), e, b, lost', cut, false)
  {
    hide RefProcs, Key, Complete, BucketRows, SlotIs, Crosses;
    var fs, fr' := FramesOf(fr, d), Arrived(fr, d, f);
    if e == d {
      ArrivalMembers(fs, f, TenSec, b);
      ArrivalRow(fs, f, TenSec, b);
    }
    if Crosses(fs, f, TenSec) && (e, b) == (d, Key(fs, TenSec)) {
      OwnSlotOk(table, base, fs, d, b, lost, cut, FramesOf(fr', d), false);
    } else if Crosses(fs, f, TenSec) && ok {
      OtherSlotsOk(table, base, fs, d, Key(fs, TenSec), FramesOf(fr, e), e, b, lost, cut, false);
    }
  }

  // ---- pruning ----

  function Pruned(table: SampleTable, cut: nat): SampleTable {
    map k | k in table && k.1 >= cut :: table[k]
  }

  function PrunedProcs(table: ProcTable, cut: nat): ProcTable {
    map k | k in table && k.1 >= cut :: table[k]
  }

  // What prunes keep, row by row: what is no older than `retained` is there unchanged, and
  // nothing else is.
  ghost predicate KeepsSince<V>(before: map<(string, nat), V>, after: map<(string, nat), V>, now: nat, retained: nat) {
    && (forall k :: k in after <==> k in before && k.1 + retained >= now)
    && forall k :: k in after ==> after[k] == before[k]
  }

  ghost predicate KeepsProcsSince(before: ProcTable, after: ProcTable, now: nat, retained: nat) {
    && (forall k :: k in after <==> k in before && k.1 + retained >= now)
    && forall k :: k in after ==> after[k] == before[k]
  }

  lemma PrunedKeeps(table: SampleTable, procs: ProcTable, now: nat, retained: nat)
    ensures KeepsSince(table, Pruned(table, SatSub(now, retained)), now, retained)
    ensures KeepsProcsSince(procs, PrunedProcs(procs, SatSub(now, retained)), now, retained)
  {
  }

  lemma PruneKeepsSamples(table: SampleTable, base: SampleTable, fr: Frames, t: Tier, lost: set<(string, nat)>, before: nat, cut: nat)
    requires SamplesMatch(table, base, fr, t, lost, before, false)
    ensures SamplesMatch(Pruned(table, cut), base, fr, t, lost, MaxNat(before, cut), false)
  {
    hide Complete, RefRow;
    forall d: string, b: nat ensures RowOk(Pruned(table, cut), base, FramesOf(fr, d), t, d, b, lost, MaxNat(before, cut), false) {
      assert RowOk(table, base, FramesOf(fr, d), t, d, b, lost, before, false);
    }
  }

  lemma PruneKeepsProcs(table: ProcTable, base: ProcTable, fr: Frames, lost: set<(string, nat)>, before: nat, cut: nat)
    requires ProcsMatch(table, base, fr, lost, before, false)
    ensures ProcsMatch(PrunedProcs(table, cut), base, fr, lost, MaxNat(before, cut), false)
  {
    hide Complete, RefProcs;
    forall d: string, b: nat ensures SlotOk(PrunedProcs(table, cut), base, FramesOf(fr, d), d, b, lost, MaxNat(before, cut), false) {
      assert SlotOk(table, base, FramesOf(fr, d), d, b, lost, before, false);
    }
  }

  // ---- the final flush ----

  // The rows of every device's open bucket.
  function OpenRows(fr: Frames, t: Tier): SampleTable {
    map k | k in OpenKeys(fr, t) :: RefRow(fr[k.0], t, k.1)
  }

  function OpenKeys(fr: Frames, t: Tier): set<(string, nat)> {
    set d | d in fr && fr[d] != [] :: (d, Key(fr[d], t))
  }

  // The same for the process buckets.
  function OpenProcs(fr: Frames): ProcTable {
    map k | k in OpenProcKeys(fr) :: RefProcs(fr[k.0], k.1)[k.2]
  }

  function OpenProcKeys(fr: Frames): set<(string, nat, nat)> {
    set d, p | d in fr && fr[d] != [] && p in RefProcs(fr[d], Key(fr[d], TenSec)) :: (d, Key(fr[d], TenSec), p)
  }

  lemma OpenKeysAre(fr: Frames, t: Tier, d: string, b: nat)
    ensures (d, b) in OpenKeys(fr, t) <==> d in fr && fr[d] != [] && b == Key(fr[d], t)
  {
    hide Key;
  }

  lemma OpenProcKeysAre(fr: Frames, d: string, b: nat, p: nat)
    ensures (d, b, p) in OpenProcKeys(fr) <==>
      d in fr && fr[d] != [] && b == Key(fr[d], TenSec) && p in RefProcs(fr[d], b)
  {
    hide Key, RefProcs;
  }

  lemma SealedBuckets(fs: seq<Frame>, t: Tier, b: nat)
    ensures Complete(fs, t, b, true) <==> Complete(fs, t, b, false) || (fs != [] && b == Key(fs, t))
    ensures fs != [] ==> !Complete(fs, t, Key(fs, t), false)
  {
    if fs != [] {
      MembersBelowKey(fs, t, b);
    }
  }

  lemma FlushSealsSamples(table: SampleTable, base: SampleTable, fr: Frames, t: Tier, lost: set<(string, nat)>, cut: nat, ok: bool,
                          table': SampleTable, lost': set<(string, nat)>)
    requires SamplesMatch(table, base, fr, t, lost, cut, false)
    requires table' == (if ok then table + OpenRows(fr, t) else table)
    requires lost' == (if ok then lost else lost + OpenKeys(fr, t))
    ensures SamplesMatch(table', base, fr, t, lost', cut, true)
  {
    hide RefRow, Key, Complete;
    forall d: string, b: nat ensures RowOk(table', base, FramesOf(fr, d), t, d, b, lost', cut, true) {
      assert RowOk(table, base, FramesOf(fr, d), t, d, b, lost, cut, false);
      SealedBuckets(FramesOf(fr, d), t, b);
      OpenKeysAre(fr, t, d, b);
    }
  }

  lemma OpenSlotRow(fr: Frames, d: string, b: nat, p: nat)
    ensures (d, b, p) in OpenProcs(fr) <==> (d, b) in OpenKeys(fr, TenSec) && p in RefProcs(FramesOf(fr, d), b)
    ensures (d, b, p) in OpenProcs(fr) ==> OpenProcs(fr)[(d, b, p)] == RefProcs(FramesOf(fr, d), b)[p]
  {
    OpenProcKeysAre(fr, d, b, p);
    OpenKeysAre(fr, TenSec, d, b);
  }

  // One bucket's share of the flush's process rows.
  lemma OpenSlots(table: ProcTable, base: ProcTable, fr: Frames, d: string, b: nat, rows: map<nat, ProcRow>)
    ensures (d, b) !in OpenKeys(fr, TenSec) ==> SlotIs(table + OpenProcs(fr), base, d, b, rows) == SlotIs(table, base, d, b, rows)
    ensures (d, b) in OpenKeys(fr, TenSec) && SlotIs(table, base, d, b, map[]) ==>
      SlotIs(table + OpenProcs(fr), base, d, b, RefProcs(FramesOf(fr, d), b))
  {
    hide RefProcs, Key, OpenProcs, OpenKeys;
    forall p: nat
      ensures (d, b, p) in OpenProcs(fr) <==> (d, b) in OpenKeys(fr, TenSec) && p in RefProcs(FramesOf(fr, d), b)
      ensures (d, b, p) in OpenProcs(fr) ==> OpenProcs(fr)[(d, b, p)] == RefProcs(FramesOf(fr, d), b)[p]
    {
      OpenSlotRow(fr, d, b, p);
    }
  }

  lemma FlushSealsProcs(table: ProcTable, base: ProcTable, fr: Frames, lost: set<(string, nat)>, cut: nat, ok: bool,
                        table': ProcTable, lost': set<(string, nat)>)
    requires ProcsMatch(table, base, fr, lost, cut, false)
    requires table' == (if ok then table + OpenProcs(fr) else table)
    requires lost' == (if ok then lost else lost + OpenKeys(fr, TenSec))
    ensures ProcsMatch(table', base, fr, lost', cut, true)
  {
    hide RefProcs, Key, Complete, SlotIs, OpenProcs;
    forall d: string, b: nat ensures SlotOk(table', base, FramesOf(fr, d), d, b, lost', cut, true) {
      assert SlotOk(table, base, FramesOf(fr, d), d, b, lost, cut, false);
      SealedBuckets(FramesOf(fr, d), TenSec, b);
      OpenKeysAre(fr, TenSec, d, b);
      OpenSlots(table, base, fr, d, b, map[]);
      OpenSlots(table, map[], fr, d, b, map[]);
      OpenSlots(table, base, fr, d, b, RefProcs(FramesOf(fr, d), b));
      OpenSlots(table, map[], fr, d, b, RefProcs(FramesOf(fr, d), b));
    }
  }

  // One frame into an empty table, and a flush that succeeds or fails.
  lemma OneFrameFlushed(d: string, f: Frame, t: Tier, ok: bool)
    ensures var fr: Frames := map[d := [f]];
      SamplesMatch(if ok then OpenRows(fr, t) else map[], map[], fr, t, if ok then {} else OpenKeys(fr, t), 0, true)
  {
    hide SamplesMatch, OpenRows, OpenKeys, Key, RefRow;
    var fr: Frames := map[d := [f]];
    NothingObserved(map[], map[], map[], t);
    assert [] + [f] == [f] && Arrived(map[], d, f) == fr;
    SampleFrameArrives(map[], map[], map[], d, f, t, {}, 0, true, map[], {});
    var none: SampleTable := map[];
    assert none + OpenRows(fr, t) == OpenRows(fr, t);
    FlushSealsSamples(map[], map[], fr, t, {}, 0, ok, if ok then OpenRows(fr, t) else map[], if ok then {} else OpenKeys(fr, t));
  }

  // ---- what a sealed recording holds ----

  // With no failed write and no prune a sealed table is exactly what it held before,
  // overwritten by the reference rows of the frames since.
  lemma SealedRow(table: SampleTable, base: SampleTable, fr: Frames, t: Tier, d: string, b: nat)
    requires SamplesMatch(table, base, fr, t, {}, 0, true)
    ensures if Members(FramesOf(fr, d), t, b) != []
      then (d, b) in table && table[(d, b)] == RefRow(FramesOf(fr, d), t, b)
        && RowMeans(table[(d, b)], Members(FramesOf(fr, d), t, b))
      else SameAt(table, base, (d, b))
  {
    hide RowMeans, RefRow, Members;
    RefRowMeans(FramesOf(fr, d), t, b);
    assert RowOk(table, base, FramesOf(fr, d), t, d, b, {}, 0, true);
  }

  function RowTotal(table: SampleTable, d: string, keys: seq<nat>): nat
    requires forall i :: 0 <= i < |keys| ==> (d, keys[i]) in table
  {
    if keys == [] then 0 else RowTotal(table, d, keys[..|keys| - 1]) + table[(d, keys[|keys| - 1])].n
  }

  // With no failed write and no prune, a sealed table has one row per bucket, in strictly
  // increasing keys, and the rows' frame counts add up to every frame observed.
  lemma SealedCountsEveryFrame(table: SampleTable, fr: Frames, t: Tier, d: string)
    requires SamplesMatch(table, map[], fr, t, {}, 0, true)
    ensures forall b: nat :: (d, b) in table <==> b in Keys(FramesOf(fr, d), t)
    ensures RowTotal(table, d, Keys(FramesOf(fr, d), t)) == |FramesOf(fr, d)|
  {
    var fs := FramesOf(fr, d);
    hide SamplesMatch, Members, Keys, RefRow;
    forall b: nat ensures (d, b) in table <==> b in Keys(fs, t) {
      KeysHaveMembers(fs, t, b);
      SealedRow(table, map[], fr, t, d, b);
    }
    EveryFrameCountedOnce(fs, t);
    RowTotalIsTotal(table, fr, t, d, Keys(fs, t));
  }

  lemma {:induction false} RowTotalIsTotal(table: SampleTable, fr: Frames, t: Tier, d: string, keys: seq<nat>)
    requires SamplesMatch(table, map[], fr, t, {}, 0, true)
    requires forall i :: 0 <= i < |keys| ==> (d, keys[i]) in table
    ensures RowTotal(table, d, keys) == Total(FramesOf(fr, d), t, keys)
  {
    hide SamplesMatch;
    if keys != [] {
      RowTotalIsTotal(table, fr, t, d, keys[..|keys| - 1]);
      SealedRow(table, map[], fr, t, d, keys[|keys| - 1]);
    }
  }

  // In a sealed recording with nothing lost or pruned each stored minute is the merge of the
  // minute's stored ten-second rows: frame and throttle counts add up, and the peak is theirs.
  function CountAt(table: SampleTable, d: string, b: nat, f: Flag): nat {
    if (d, b) !in table then 0
    else
      var row := table[(d, b)];
      match f
      case AnyReason => row.throttleN
      case Thermal => row.thermalN
      case PowerCap => row.powerN
      case HwSlowdown => row.hwN
      case Observed => row.observedN
  }

  function FramesAt(table: SampleTable, d: string, b: nat): nat {
    if (d, b) in table then table[(d, b)].n else 0
  }

  // The extremes a stored row keeps. Whole-number columns drop the fraction.
  datatype Extreme = UtilMin | UtilMax | MemMax | PowerMax | TempMax | FanMax | ClockMin | ClockMax

  predicate IsLeast(x: Extreme) {
    x.UtilMin? || x.ClockMin?
  }

  function AsReal(o: Option<int>): Option<real> {
    match o
    case None => None
    case Some(v) => Some(v as real)
  }

  function ExtremeIn(row: SampleRow, x: Extreme): Option<real> {
    match x
    case UtilMin => row.utilMin
    case UtilMax => row.utilMax
    case MemMax => AsReal(row.memMax)
    case PowerMax => AsReal(row.powerMax)
    case TempMax => row.tempMax
    case FanMax => row.fanMax
    case ClockMin => AsReal(row.smClockMin)
    case ClockMax => AsReal(row.smClockMax)
  }

  function ExtremeAt(table: SampleTable, d: string, b: nat, x: Extreme): Option<real> {
    if (d, b) in table then ExtremeIn(table[(d, b)], x) else None
  }

  function ExtremeOf(a: SampleAccum, x: Extreme): Option<real> {
    ExtremeIn(ToRow(a), x)
  }

  // Dropping fractions respects order, so the extreme of a merge is the extreme of the parts.
  lemma MergeExtreme(a: SampleAccum, b: SampleAccum, x: Extreme)
    ensures ExtremeOf(MergeAccum(a, b), x) == Pick(ExtremeOf(a, x), ExtremeOf(b, x), IsLeast(x))
  {
    WholePick(a.mem.max, b.mem.max, false);
    WholePick(a.power.max, b.power.max, false);
    WholePick(a.smClock.min, b.smClock.min, true);
    WholePick(a.smClock.max, b.smClock.max, false);
    hide Pick, Avg, Whole;
  }

  lemma WholePick(a: Option<real>, b: Option<real>, least: bool)
    ensures AsReal(Whole(Pick(a, b, least))) == Pick(AsReal(Whole(a)), AsReal(Whole(b)), least)
  {
    if a.Some? && b.Some? {
      FloorOrder(a.value, b.value);
      FloorOrder(b.value, a.value);
    }
  }

  lemma FloorOrder(u: real, v: real)
    ensures u <= v ==> u.Floor as real <= v.Floor as real
  {
    var m, n := u.Floor, v.Floor;
    assert m as real <= u && v < n as real + 1.0;
    if m > n {
      IntOrder(n + 1, m);
    } else {
      IntOrder(m, n);
    }
  }

  lemma IntOrder(m: int, n: int)
    requires m <= n
    ensures m as real <= n as real
  {
  }

  lemma StoredFigures(table: SampleTable, fr: Frames, t: Tier, d: string, b: nat, f: Flag)
    requires SamplesMatch(table, map[], fr, t, {}, 0, true)
    ensures var a := Aggregate(Members(FramesOf(fr, d), t, b));
      && FramesAt(table, d, b) == a.n && (forall x: Extreme :: ExtremeAt(table, d, b, x) == ExtremeOf(a, x))
      && CountAt(table, d, b, f) == Count(f, Members(FramesOf(fr, d), t, b))
  {
    var fs := FramesOf(fr, d);
    SealedRow(table, map[], fr, t, d, b);
    if Members(fs, t, b) == [] {
      NoReadings();
    }
  }

  function PickSix(x: Extreme, a: SampleAccum, b: SampleAccum, c: SampleAccum, e: SampleAccum, g: SampleAccum, h: SampleAccum): Option<real> {
    Pick(Pick(Pick(Pick(Pick(ExtremeOf(a, x), ExtremeOf(b, x), IsLeast(x)), ExtremeOf(c, x), IsLeast(x)),
                   ExtremeOf(e, x), IsLeast(x)), ExtremeOf(g, x), IsLeast(x)), ExtremeOf(h, x), IsLeast(x))
  }

  lemma SixExtremes(x: Extreme, a: SampleAccum, b: SampleAccum, c: SampleAccum, e: SampleAccum, g: SampleAccum, h: SampleAccum)
    ensures ExtremeOf(MergeSix(a, b, c, e, g, h), x) == PickSix(x, a, b, c, e, g, h)
  {
    hide ExtremeOf, Pick, MergeAccum;
    var ab := MergeAccum(a, b);
    var abc := MergeAccum(ab, c);
    var abce := MergeAccum(abc, e);
    MergeExtreme(a, b, x);
    MergeExtreme(ab, c, x);
    MergeExtreme(abc, e, x);
    MergeExtreme(abce, g, x);
    MergeExtreme(MergeAccum(abce, g), h, x);
  }

  lemma NoReadings()
    ensures forall m: Metric :: Readings(m, []) == []
    ensures Aggregate([]) == EMPTY_ACCUM
  {
    forall m: Metric ensures Readings(m, []) == [] {
    }
  }

  // The extreme of the minute's six stored rows.
  function MinuteExtreme(ten: SampleTable, d: string, m: nat, x: Extreme): Option<real> {
    Pick(Pick(Pick(Pick(Pick(ExtremeAt(ten, d, m, x), ExtremeAt(ten, d, m + 10_000, x), IsLeast(x)),
                        ExtremeAt(ten, d, m + 20_000, x), IsLeast(x)), ExtremeAt(ten, d, m + 30_000, x), IsLeast(x)),
              ExtremeAt(ten, d, m + 40_000, x), IsLeast(x)), ExtremeAt(ten, d, m + 50_000, x), IsLeast(x))
  }

  lemma StoredMinuteMergesTenSecs(ten: SampleTable, min: SampleTable, fr: Frames, d: string, m: nat, f: Flag)
    requires SamplesMatch(ten, map[], fr, TenSec, {}, 0, true) && SamplesMatch(min, map[], fr, OneMin, {}, 0, true)
    requires m % 60_000 == 0
    ensures FramesAt(min, d, m) == FramesAt(ten, d, m) + FramesAt(ten, d, m + 10_000) + FramesAt(ten, d, m + 20_000)
      + FramesAt(ten, d, m + 30_000) + FramesAt(ten, d, m + 40_000) + FramesAt(ten, d, m + 50_000)
    ensures CountAt(min, d, m, f) == CountAt(ten, d, m, f) + CountAt(ten, d, m + 10_000, f) + CountAt(ten, d, m + 20_000, f)
      + CountAt(ten, d, m + 30_000, f) + CountAt(ten, d, m + 40_000, f) + CountAt(ten, d, m + 50_000, f)
    ensures forall x: Extreme :: ExtremeAt(min, d, m, x) == MinuteExtreme(ten, d, m, x)
  {
    hide SamplesMatch, Aggregate, Members, Count, CountAt, FramesAt, ExtremeAt, ExtremeOf, Pick, IsLeast;
    var fs := FramesOf(fr, d);
    TiersAgree(fs, m);
    StoredFigures(min, fr, OneMin, d, m, f);
    StoredFigures(ten, fr, TenSec, d, m, f);
    StoredFigures(ten, fr, TenSec, d, m + 10_000, f);
    StoredFigures(ten, fr, TenSec, d, m + 20_000, f);
    StoredFigures(ten, fr, TenSec, d, m + 30_000, f);
    StoredFigures(ten, fr, TenSec, d, m + 40_000, f);
    StoredFigures(ten, fr, TenSec, d, m + 50_000, f);
    MinuteSplitsIntoSix(fs, m);
    var a, b, c := Members(fs, TenSec, m), Members(fs, TenSec, m + 10_000), Members(fs, TenSec, m + 20_000);
    var e, g, h := Members(fs, TenSec, m + 30_000), Members(fs, TenSec, m + 40_000), Members(fs, TenSec, m + 50_000);
    forall x: Extreme ensures ExtremeOf(MergeSix(Aggregate(a), Aggregate(b), Aggregate(c), Aggregate(e), Aggregate(g), Aggregate(h)), x) ==
      PickSix(x, Aggregate(a), Aggregate(b), Aggregate(c), Aggregate(e), Aggregate(g), Aggregate(h))
    {
      SixExtremes(x, Aggregate(a), Aggregate(b), Aggregate(c), Aggregate(e), Aggregate(g), Aggregate(h));
    }
    CountConcat(f, a, b);
    CountConcat(f, a + b, c);
    CountConcat(f, a + b + c, e);
    CountConcat(f, a + b + c + e, g);
    CountConcat(f, a + b + c + e + g, h);
  }

  // The newest bucket of a device that has frames is stored in both tiers.
  lemma NewestBucketStored(ten: SampleTable, min: SampleTable, fr: Frames, d: string)
    requires SamplesMatch(ten, map[], fr, TenSec, {}, 0, true) && SamplesMatch(min, map[], fr, OneMin, {}, 0, true)
    requires FramesOf(fr, d) != []
    ensures var k := Key(FramesOf(fr, d), TenSec);
      (d, k) in ten && (d, k - k % 60_000) in min && forall b: nat :: (d, b) in ten ==> b <= k
  {
    var fs := FramesOf(fr, d);
    MembersBelowKey(fs, TenSec, 0);
    MembersBelowKey(fs, OneMin, 0);
    MinuteOfTenSec(fs);
    hide SamplesMatch, Members, Key, RefRow;
    SealedRow(ten, map[], fr, TenSec, d, Key(fs, TenSec));
    SealedRow(min, map[], fr, OneMin, d, Key(fs, OneMin));
    forall b: nat | (d, b) in ten ensures b <= Key(fs, TenSec) {
      MembersBelowKey(fs, TenSec, b);
      SealedRow(ten, map[], fr, TenSec, d, b);
    }
  }

  // ---- a flush in the middle of a recording ----

  // Some bucket of the tier holds frames of the device from before and from after the flush.
  ghost predicate ShareABucket(early: Frames, late: Frames, t: Tier) {
    exists d: string, b: nat :: Members(FramesOf(early, d), t, b) != [] && Members(FramesOf(late, d), t, b) != []
  }

  // Every frame from before and from after the flush is counted by the stored rows.
  ghost predicate AllCounted(table: SampleTable, early: Frames, late: Frames, t: Tier) {
    forall d: string, b: nat ::
      FramesAt(table, d, b) == |Members(FramesOf(early, d), t, b)| + |Members(FramesOf(late, d), t, b)|
  }

  // The row two flushes leave for a bucket counts the later frames alone if there are any.
  lemma TwiceFlushedRow(first: SampleTable, second: SampleTable, early: Frames, late: Frames, t: Tier, d: string, b: nat)
    requires SamplesMatch(first, map[], early, t, {}, 0, true) && SamplesMatch(second, first, late, t, {}, 0, true)
    ensures var (e, l) := (|Members(FramesOf(early, d), t, b)|, |Members(FramesOf(late, d), t, b)|);
      FramesAt(second, d, b) == if l > 0 then l else e
  {
    hide SamplesMatch, Members, Key;
    SealedRow(first, map[], early, t, d, b);
    SealedRow(second, first, late, t, d, b);
  }

  // `first` is what a flush left of the early frames in an empty table, `second` what the next
  // flush left of the late ones on top of it. Every frame stays counted if and only if no
  // bucket got frames from both.
  lemma MidRunFlushConservesIff(first: SampleTable, second: SampleTable, early: Frames, late: Frames, t: Tier)
    requires SamplesMatch(first, map[], early, t, {}, 0, true) && SamplesMatch(second, first, late, t, {}, 0, true)
    ensures AllCounted(second, early, late, t) <==> !ShareABucket(early, late, t)
  {
    hide SamplesMatch, Members, FramesAt;
    forall d: string, b: nat
      ensures FramesAt(second, d, b) == |Members(FramesOf(early, d), t, b)| + |Members(FramesOf(late, d), t, b)|
        <==> !(Members(FramesOf(early, d), t, b) != [] && Members(FramesOf(late, d), t, b) != [])
    {
      TwiceFlushedRow(first, second, early, late, t, d, b);
    }
  }

  // The case the condition shuts out: one frame, a flush, and another frame of the same bucket.
  lemma MidRunFlushLosesAFrame(first: SampleTable, second: SampleTable, d: string, f: Frame)
    requires SamplesMatch(first, map[], map[d := [f]], TenSec, {}, 0, true)
    requires SamplesMatch(second, first, map[d := [f]], TenSec, {}, 0, true)
    ensures FramesAt(second, d, BucketOf(f.s.ts, TenSec)) == 1
  {
    var b := BucketOf(f.s.ts, TenSec);
    assert [] + [f] == [f] && Members([], TenSec, b) == [];
    AppendFrame([], f, TenSec, b);
    hide SamplesMatch, Members, Key;
    TwiceFlushedRow(first, second, map[d := [f]], map[d := [f]], TenSec, d, b);
  }
}
