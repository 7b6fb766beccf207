/** The recorder and the store it writes to, in their own form (crates/history/src/lib.rs:292-517,
    crates/history/src/store.rs:794-907, 1072-1092): per-device accumulators updated frame by
    frame, tables changed in place, and writes that may fail at any time. */
module RecorderModel {
  import opened Base
  import opened Telemetry
  import opened Rollups
  import opened RecorderSpec
  import opened WriteOutcomes
  import opened BatchTraces
  import EventLog

  const PRUNE_EVERY_FLUSHES: nat := 360

  datatype SampleRollup = SampleRollup(device: string, bucket: nat, row: SampleRow)
  datatype ProcRollup = ProcRollup(device: string, bucket: nat, pid: nat, row: ProcRow)

  // ---- INSERT OR REPLACE ----

  function Upsert(table: SampleTable, rows: seq<SampleRollup>): SampleTable {
    if rows == [] then table
    else
      var last := rows[|rows| - 1];
      Upsert(table, rows[..|rows| - 1])[(last.device, last.bucket) := last.row]
  }

  function UpsertProcs(table: ProcTable, rows: seq<ProcRollup>): ProcTable {
    if rows == [] then table
    else
      var last := rows[|rows| - 1];
      UpsertProcs(table, rows[..|rows| - 1])[(last.device, last.bucket, last.pid) := last.row]
  }

  lemma {:induction false} UpsertIsUnion(table: SampleTable, rows: seq<SampleRollup>)
    ensures Upsert(table, rows) == table + Upsert(map[], rows)
  {
    if rows != [] {
      UpsertIsUnion(table, rows[..|rows| - 1]);
    }
  }

  lemma {:induction false} UpsertProcsIsUnion(table: ProcTable, rows: seq<ProcRollup>)
    ensures UpsertProcs(table, rows) == table + UpsertProcs(map[], rows)
  {
    if rows != [] {
      UpsertProcsIsUnion(table, rows[..|rows| - 1]);
    }
  }

  function PrunedEvents(log: seq<EventLog.EventRow>, cut: nat): seq<EventLog.EventRow> {
    if log == [] then []
    else PrunedEvents(log[..|log| - 1], cut) + (if log[|log| - 1].ts >= cut then [log[|log| - 1]] else [])
  }

  // The events no older than `retained` are kept, in order and as often as stored, and no others.
  ghost predicate KeepsEventsSince(before: seq<EventLog.EventRow>, after: seq<EventLog.EventRow>, now: nat, retained: nat) {
    exists at: seq<nat> :: RecentAt(before, after, at, now, retained)
  }

  ghost predicate RecentAt(before: seq<EventLog.EventRow>, after: seq<EventLog.EventRow>, at: seq<nat>, now: nat, retained: nat) {
    Selects(after, before, at, (e: EventLog.EventRow) => e.ts + retained >= now)
  }

  lemma {:induction false} WhichRecent(log: seq<EventLog.EventRow>, cut: nat, keep: EventLog.EventRow -> bool) returns (at: seq<nat>)
    requires forall e: EventLog.EventRow :: keep(e) <==> e.ts >= cut
    ensures Selects(PrunedEvents(log, cut), log, at, keep)
  {
    hide Selects;
    if log == [] {
      at := [];
      SelectsNothing(keep);
    } else {
      var front, last := log[..|log| - 1], log[|log| - 1];
      at := WhichRecent(front, cut, keep);
      SelectsNext(PrunedEvents(front, cut), front, at, keep, last);
      at := if keep(last) then at + [|front|] else at;
      assert log == front + [last];
      assert PrunedEvents(front, cut) + [] == PrunedEvents(front, cut);
    }
  }

  lemma PrunedEventsKeep(log: seq<EventLog.EventRow>, now: nat, retained: nat)
    ensures KeepsEventsSince(log, PrunedEvents(log, SatSub(now, retained)), now, retained)
  {
    var at := WhichRecent(log, SatSub(now, retained), (e: EventLog.EventRow) => e.ts + retained >= now);
    assert RecentAt(log, PrunedEvents(log, SatSub(now, retained)), at, now, retained);
  }

  // The tables of one database. Every batch is one transaction: it happens whole or not at
  // all, and whether it happens is the environment's choice.
  class SqliteStore {
    var samples10: SampleTable
    var samples1m: SampleTable
    var processes10: ProcTable
    var events: seq<EventLog.EventRow>

    constructor ()
      ensures samples10 == map[] && samples1m == map[] && processes10 == map[] && events == []
    {
      samples10, samples1m, processes10, events := map[], map[], map[], [];
    }

    function Samples(t: Tier): SampleTable
      reads this
    {
      if t.TenSec? then samples10 else samples1m
    }

    method InsertSampleRollups(t: Tier, rows: seq<SampleRollup>) returns (r: Outcome)
      modifies this`samples10, this`samples1m
      ensures rows == [] ==> r.Ok?
      ensures Samples(t) == if r.Ok? then Upsert(old(Samples(t)), rows) else old(Samples(t))
      ensures t.TenSec? ==> samples1m == old(samples1m)
      ensures t.OneMin? ==> samples10 == old(samples10)
    {
      if rows == [] {
        return Ok;
      }
      var failed: bool := *;
      if failed {
        var error: string := *;
        return Err(error);
      }
      var table := Samples(t);
      for i := 0 to |rows|
        invariant table == Upsert(old(Samples(t)), rows[..i])
      {
        table := table[(rows[i].device, rows[i].bucket) := rows[i].row];
        assert rows[..i + 1][..i] == rows[..i];
      }
      assert rows[..|rows|] == rows;
      if t.TenSec? {
        samples10 := table;
      } else {
        samples1m := table;
      }
      return Ok;
    }

    method InsertProcessRollups(rows: seq<ProcRollup>) returns (r: Outcome)
      modifies this`processes10
      ensures rows == [] ==> r.Ok?
      ensures processes10 == if r.Ok? then UpsertProcs(old(processes10), rows) else old(processes10)
    {
      if rows == [] {
        return Ok;
      }
      var failed: bool := *;
      if failed {
        var error: string := *;
        return Err(error);
      }
      var table := processes10;
      for i := 0 to |rows|
        invariant table == UpsertProcs(old(processes10), rows[..i])
      {
        table := table[(rows[i].device, rows[i].bucket, rows[i].pid) := rows[i].row];
        assert rows[..i + 1][..i] == rows[..i];
      }
      assert rows[..|rows|] == rows;
      processes10 := table;
      return Ok;
    }

    // Rows whose key the log already holds are ignored.
    method InsertEvents(rows: seq<EventLog.EventRow>) returns (r: Outcome)
      modifies this`events
      ensures rows == [] ==> r.Ok?
      ensures events == if r.Ok? then EventLog.InsertAll(old(events), rows) else old(events)
      ensures old(events) <= events && (old(EventLog.UniqueKeys(events)) ==> EventLog.UniqueKeys(events))
      // every offered row has a stored one that agrees in time, device, kind and title
      ensures r.Ok? ==> forall e :: e in rows ==> EventLog.Represented(events, e)
    {
      if rows == [] {
        return Ok;
      }
      var failed: bool := *;
      if failed {
        var error: string := *;
        return Err(error);
      }
      var log := events;
      for i := 0 to |rows|
        invariant log == EventLog.InsertAll(old(events), rows[..i])
      {
        assert rows[..i + 1][..i] == rows[..i];
        if !EventLog.HasKey(log, EventLog.KeyOf(rows[i])) {
          log := log + [rows[i]];
        }
      }
      assert rows[..|rows|] == rows;
      EventLog.InsertInColumns(events, rows);
      events := log;
      return Ok;
    }

    // The v1 -> v2 migration of an old log: keep the smallest id of each key.
    method MigrateEventDedupe()
      modifies this`events
      ensures events == EventLog.InsertAll([], old(events)) && EventLog.TellsEachOnce(events, old(events))
    {
      var kept: seq<EventLog.EventRow> := [];
      var all := events;
      for i := 0 to |all|
        invariant kept == EventLog.Surviving(all, i)
      {
        if EventLog.HasMinId(all, i) {
          kept := kept + [all[i]];
        }
      }
      EventLog.MigrationIsReinsertion(all);
      EventLog.MigratedTellsEachOnce(all);
      events := kept;
    }

    method Prune(now: nat) returns (r: Outcome)
      modifies this
      ensures r.Ok? ==>
        && samples10 == Pruned(old(samples10), SatSub(now, RETAIN_10S_MS))
        && processes10 == PrunedProcs(old(processes10), SatSub(now, RETAIN_10S_MS))
        && samples1m == Pruned(old(samples1m), SatSub(now, RETAIN_1M_MS))
        && events == PrunedEvents(old(events), SatSub(now, RETAIN_EVENTS_MS))
      // two days of ten-second rows and processes, thirty days of minutes and events
      ensures r.Ok? ==>
        && KeepsSince(old(samples10), samples10, now, 172_800_000) && KeepsProcsSince(old(processes10), processes10, now, 172_800_000)
        && KeepsSince(old(samples1m), samples1m, now, 2_592_000_000) && KeepsEventsSince(old(events), events, now, 2_592_000_000)
      ensures r.Err? ==> unchanged(this)
    {
      PrunedKeeps(samples10, processes10, now, 172_800_000);
      PrunedKeeps(samples1m, processes10, now, 2_592_000_000);
      PrunedEventsKeep(events, now, 2_592_000_000);
      var failed: bool := *;
      if failed {
        var error: string := *;
        return Err(error);
      }
      samples10 := Pruned(samples10, SatSub(now, RETAIN_10S_MS));
      processes10 := PrunedProcs(processes10, SatSub(now, RETAIN_10S_MS));
      samples1m := Pruned(samples1m, SatSub(now, RETAIN_1M_MS));
      events := PrunedEvents(events, SatSub(now, RETAIN_EVENTS_MS));
      return Ok;
    }
  }

  // ---- one device's accumulators ----

  // A tier's open bucket: None before the first frame.
  datatype Open<T> = Open(bucket: Option<nat>, acc: T)

  // The open bucket a tier is in after the frames `fs`.
  function OpenSamples(fs: seq<Frame>, t: Tier): Open<SampleAccum> {
    if fs == [] then Open(None, EMPTY_ACCUM)
    else Open(Some(Key(fs, t)), Aggregate(Members(fs, t, Key(fs, t))))
  }

  function OpenProcesses(fs: seq<Frame>): Open<map<nat, ProcAccum>> {
    if fs == [] then Open(None, map[])
    else Open(Some(Key(fs, TenSec)), ProcGroups(Sightings(Members(fs, TenSec, Key(fs, TenSec)))))
  }

  // The row a frame completes, if it opens a later bucket.
  function ClosedRow(fs: seq<Frame>, f: Frame, t: Tier): Option<(nat, SampleRow)> {
    if Crosses(fs, f, t) then Some((Key(fs, t), RefRow(fs, t, Key(fs, t)))) else None
  }

  function ClosedProcesses(fs: seq<Frame>, f: Frame): Option<(nat, map<nat, ProcAccum>)> {
    if Crosses(fs, f, TenSec) then Some((Key(fs, TenSec), OpenProcesses(fs).acc)) else None
  }

  lemma EmptyAggregate()
    ensures Aggregate([]) == EMPTY_ACCUM && ProcGroups([]) == map[] && Sightings([]) == []
  {
    assert Readings(Util, []) == [] && Readings(Mem, []) == [] && Readings(Power, []) == [];
    assert Readings(Temp, []) == [] && Readings(Fan, []) == [] && Readings(SmClock, []) == [];
    assert Pids([]) == {};
  }

  // Folds one sample into a tier's open bucket, first closing it when the sample lies in a
  // later one.
  method AdvanceTier(cur: Open<SampleAccum>, t: Tier, f: Frame, ghost fs: seq<Frame>)
    returns (next: Open<SampleAccum>, closed: Option<(nat, SampleRow)>)
    requires cur == OpenSamples(fs, t)
    ensures next == OpenSamples(fs + [f], t) && closed == ClosedRow(fs, f, t)
  {
    hide Aggregate, Fold, ToRow, Members, Key, BucketOf;
    var b := BucketOf(f.s.ts, t);
    next, closed := cur, None;
    if cur.bucket.Some? && b > cur.bucket.value {
      closed := Some((cur.bucket.value, ToRow(cur.acc)));
      next := Open(Some(b), EMPTY_ACCUM);
    } else if cur.bucket.None? {
      next := Open(Some(b), cur.acc);
    }
    ghost var before := if fs == [] || Crosses(fs, f, t) then [] else Members(fs, t, Key(fs, t));
    next := Open(next.bucket, Fold(next.acc, f.s));
    ArrivalKey(fs, f, t);
    EmptyAggregate();
    FoldIsAggregate(before, f);
    assert before + [f] == Members(fs + [f], t, Key(fs + [f], t));
  }

  lemma SightingsSnoc(fs: seq<Frame>, f: Frame)
    ensures Sightings(fs + [f]) == Sightings(fs) + f.procs
  {
    assert (fs + [f])[..|fs|] == fs;
  }

  method FoldProcs(acc: map<nat, ProcAccum>, f: Frame, ghost before: seq<Frame>) returns (next: map<nat, ProcAccum>)
    requires acc == ProcGroups(Sightings(before))
    ensures next == ProcGroups(Sightings(before + [f]))
  {
    hide ProcGroups, ProcFold, ProcNew, Sightings;
    next := acc;
    ghost var seen := Sightings(before);
    assert seen + f.procs[..0] == seen;
    for i := 0 to |f.procs|
      invariant next == ProcGroups(seen + f.procs[..i])
    {
      var p := f.procs[i];
      FoldProcIsGroups(seen + f.procs[..i], p);
      assert seen + f.procs[..i] + [p] == seen + f.procs[..i + 1];
      next := FoldProc(next, p);
    }
    SightingsSnoc(before, f);
    assert f.procs[..|f.procs|] == f.procs;
  }

  lemma UpsertProcsSnoc(rows: seq<ProcRollup>, r: ProcRollup)
    ensures UpsertProcs(map[], rows + [r]) == UpsertProcs(map[], rows)[(r.device, r.bucket, r.pid) := r.row]
  {
    assert (rows + [r])[..|rows|] == rows;
  }

  lemma NoPids(d: string, b: nat)
    ensures Keyed(d, b, ProcRows(map[])) == map[] == UpsertProcs(map[], [])
  {
  }

  // The rows of a closed process bucket, in the map's order.
  method ProcessRollups(device: string, bucket: nat, procs: map<nat, ProcAccum>) returns (rows: seq<ProcRollup>)
    ensures UpsertProcs(map[], rows) == Keyed(device, bucket, ProcRows(procs)) && |rows| == |procs|
  {
    rows := [];
    var todo := procs.Keys;
    ghost var done: map<nat, ProcAccum> := map[];
    NoPids(device, bucket);
    hide UpsertProcs, Keyed, ProcRows, ProcToRow;
    while todo != {}
      invariant todo <= procs.Keys
      invariant done.Keys == procs.Keys - todo && forall p :: p in done ==> done[p] == procs[p]
      invariant UpsertProcs(map[], rows) == Keyed(device, bucket, ProcRows(done)) && |rows| + |todo| == |procs|
    {
      var p :| p in todo;
      todo := todo - {p};
      OneMorePid(device, bucket, done, p, procs[p]);
      UpsertProcsSnoc(rows, ProcRollup(device, bucket, p, ProcToRow(procs[p])));
      done := done[p := procs[p]];
      rows := rows + [ProcRollup(device, bucket, p, ProcToRow(procs[p]))];
    }
    assert done == procs;
  }

  lemma OneMorePid(d: string, b: nat, done: map<nat, ProcAccum>, p: nat, a: ProcAccum)
    requires p !in done
    ensures Keyed(d, b, ProcRows(done[p := a])) == Keyed(d, b, ProcRows(done))[(d, b, p) := ProcToRow(a)]
  {
    hide ProcToRow;
    assert ProcKeys(d, b, done[p := a].Keys) == ProcKeys(d, b, done.Keys) + {(d, b, p)};
  }

  class DevRecord {
    var s10: Open<SampleAccum>
    var s1m: Open<SampleAccum>
    var p10: Open<map<nat, ProcAccum>>

    // The accumulators are those of exactly these frames.
    ghost predicate Holds(fs: seq<Frame>)
      reads this
    {
      s10 == OpenSamples(fs, TenSec) && s1m == OpenSamples(fs, OneMin) && p10 == OpenProcesses(fs)
    }

    constructor ()
      ensures Holds([])
    {
      s10, s1m, p10 := Open(None, EMPTY_ACCUM), Open(None, EMPTY_ACCUM), Open(None, map[]);
    }

    method Reset()
      modifies this
      ensures Holds([])
    {
      s10, s1m, p10 := Open(None, EMPTY_ACCUM), Open(None, EMPTY_ACCUM), Open(None, map[]);
    }

    method FoldFrame(f: Frame, ghost fs: seq<Frame>)
      returns (ten: Option<(nat, SampleRow)>, min: Option<(nat, SampleRow)>, procs: Option<(nat, map<nat, ProcAccum>)>)
      requires Holds(fs)
      modifies this
      ensures Holds(fs + [f])
      ensures ten == ClosedRow(fs, f, TenSec) && min == ClosedRow(fs, f, OneMin)
      ensures procs == ClosedProcesses(fs, f)
    {
      hide Aggregate, Members, Key, ProcGroups, Sightings, RefRow;
      s10, ten := AdvanceTier(s10, TenSec, f, fs);
      s1m, min := AdvanceTier(s1m, OneMin, f, fs);
      var b := BucketOf(f.s.ts, TenSec);
      procs := None;
      if p10.bucket.Some? && b > p10.bucket.value {
        procs := Some((p10.bucket.value, p10.acc));
        p10 := Open(Some(b), map[]);
      } else if p10.bucket.None? {
        p10 := Open(Some(b), p10.acc);
      }
      ghost var before := if fs == [] || Crosses(fs, f, TenSec) then [] else Members(fs, TenSec, Key(fs, TenSec));
      EmptyAggregate();
      ArrivalKey(fs, f, TenSec);
      var folded := FoldProcs(p10.acc, f, before);
      p10 := Open(p10.bucket, folded);
      assert before + [f] == Members(fs + [f], TenSec, Key(fs + [f], TenSec));
    }
  }

  // ---- the recorder ----

  // The account of one recording: what the tables held when it began, the keys whose write
  // failed since, and the times below which prunes may have removed rows.
  datatype Ledger = Ledger(base10: SampleTable, base1m: SampleTable, baseProcs: ProcTable,
                           lost10: set<(string, nat)>, lost1m: set<(string, nat)>, lostProcs: set<(string, nat)>,
                           cut10: nat, cut1m: nat)
  {
    function Base(t: Tier): SampleTable {
      if t.TenSec? then base10 else base1m
    }

    function Lost(t: Tier): set<(string, nat)> {
      if t.TenSec? then lost10 else lost1m
    }

    function Cut(t: Tier): nat {
      if t.TenSec? then cut10 else cut1m
    }

    function Losing(t: Tier, keys: set<(string, nat)>): Ledger {
      if t.TenSec? then this.(lost10 := lost10 + keys) else this.(lost1m := lost1m + keys)
    }

    function LosingProcs(keys: set<(string, nat)>): Ledger {
      this.(lostProcs := lostProcs + keys)
    }

    function Cutting(ten: nat, min: nat): Ledger {
      this.(cut10 := MaxNat(cut10, ten), cut1m := MaxNat(cut1m, min))
    }

    predicate SameStart(l: Ledger) {
      base10 == l.base10 && base1m == l.base1m && baseProcs == l.baseProcs
    }

    predicate SameLosses(l: Ledger) {
      lost10 == l.lost10 && lost1m == l.lost1m && lostProcs == l.lostProcs
    }

    predicate SameCuts(l: Ledger) {
      cut10 == l.cut10 && cut1m == l.cut1m
    }
  }

  function NewLedger(s10: SampleTable, s1m: SampleTable, procs: ProcTable): Ledger {
    Ledger(s10, s1m, procs, {}, {}, {}, 0, 0)
  }

  // The three tables hold exactly the reference rows of the completed buckets on top of what
  // they held before, up to failed writes and pruned rows.
  ghost predicate TablesMatch(s10: SampleTable, s1m: SampleTable, procs: ProcTable, l: Ledger, fr: Frames, sealed: bool) {
    && SamplesMatch(s10, l.base10, fr, TenSec, l.lost10, l.cut10, sealed)
    && SamplesMatch(s1m, l.base1m, fr, OneMin, l.lost1m, l.cut1m, sealed)
    && ProcsMatch(procs, l.baseProcs, fr, l.lostProcs, l.cut10, sealed)
  }

  // Rows are added or dropped; a row present before and after is the same row, unless it was
  // there before the recording began.
  ghost predicate OnlyAdds<K, V>(before: map<K, V>, after: map<K, V>, base: map<K, V>) {
    forall k :: k in before ==> k in after && (k !in base ==> after[k] == before[k])
  }

  ghost predicate OnlyDrops<K, V>(before: map<K, V>, after: map<K, V>) {
    forall k :: k in after ==> k in before && after[k] == before[k]
  }

  ghost predicate NeverChanges<K, V>(before: map<K, V>, after: map<K, V>, base: map<K, V>) {
    forall k :: k in before && k in after && k !in base ==> after[k] == before[k]
  }

  // No row of a bucket at or above the cut is gone, whichever writes failed.
  ghost predicate KeepsRecent(before: SampleTable, after: SampleTable, cut: nat) {
    forall k :: k in before && k.1 >= cut ==> k in after
  }

  ghost predicate KeepsRecentProcs(before: ProcTable, after: ProcTable, cut: nat) {
    forall k :: k in before && k.1 >= cut ==> k in after
  }

  // A sample table through the writes of a frame and the prune that may follow them.
  ghost predicate Survives(before: SampleTable, after: SampleTable, base: SampleTable, cut: nat) {
    NeverChanges(before, after, base) && KeepsRecent(before, after, cut)
  }

  ghost predicate ProcsSurvive(before: ProcTable, after: ProcTable, base: ProcTable, cut: nat) {
    NeverChanges(before, after, base) && KeepsRecentProcs(before, after, cut)
  }

  lemma AddThenDrop(before: SampleTable, mid: SampleTable, after: SampleTable, base: SampleTable, cut: nat)
    requires OnlyAdds(before, mid, base) && OnlyDrops(mid, after) && KeepsRecent(mid, after, cut)
    ensures Survives(before, after, base, cut)
  {
  }

  lemma AddThenDropProcs(before: ProcTable, mid: ProcTable, after: ProcTable, base: ProcTable, cut: nat)
    requires OnlyAdds(before, mid, base) && OnlyDrops(mid, after) && KeepsRecentProcs(mid, after, cut)
    ensures ProcsSurvive(before, after, base, cut)
  {
  }

  // Since operation `from` every complete bucket of each table has been carried by exactly one
  // batch, and the lost ones are exactly those whose batch failed.
  ghost predicate AllTraced(ops: seq<Op>, from: nat, l: Ledger, fr: Frames, sealed: bool) {
    && Traced(ops, from, TenSecSamples, fr, TenSec, sealed, l.lost10)
    && Traced(ops, from, MinuteSamples, fr, OneMin, sealed, l.lost1m)
    && Traced(ops, from, Processes, fr, TenSec, sealed, l.lostProcs)
  }

  // A stretch of operations that carried no bucket.
  ghost predicate NoBuckets(before: seq<Op>, ops: seq<Op>) {
    Untouched(before, ops, TenSecSamples) && Untouched(before, ops, MinuteSamples) && Untouched(before, ops, Processes)
  }

  lemma TracesKept(before: seq<Op>, ops: seq<Op>, from: nat, l: Ledger, fr: Frames, sealed: bool)
    requires AllTraced(before, from, l, fr, sealed) && NoBuckets(before, ops)
    ensures AllTraced(ops, from, l, fr, sealed)
  {
    hide Traced;
    TraceUntouched(before, ops, from, TenSecSamples, fr, TenSec, sealed, l.lost10);
    TraceUntouched(before, ops, from, MinuteSamples, fr, OneMin, sealed, l.lost1m);
    TraceUntouched(before, ops, from, Processes, fr, TenSec, sealed, l.lostProcs);
  }

  // Whatever failed, what is newly lost is what the failed batches carried, and nothing else.
  ghost predicate LosesExactly(before: Ledger, after: Ledger, ops: seq<Op>, from: nat) {
    && after.lost10 == before.lost10 + FailedKeys(ops, from, TenSecSamples)
    && after.lost1m == before.lost1m + FailedKeys(ops, from, MinuteSamples)
    && after.lostProcs == before.lostProcs + FailedKeys(ops, from, Processes)
  }

  lemma LossesSplit(before: seq<Op>, l: Ledger, fr: Frames, ops: seq<Op>, l': Ledger, fr': Frames, from: nat, sealed: bool)
    requires AllTraced(before, from, l, fr, false) && AllTraced(ops, from, l', fr', sealed) && before <= ops
    ensures LosesExactly(l, l', ops, |before|)
  {
    hide Complete, CarriedOnce, Carried, FailedKeys;
    assert ops[..|before|] == before;
    SplitAt(ops, from, |before|, TenSecSamples);
    SplitAt(ops, from, |before|, MinuteSamples);
    SplitAt(ops, from, |before|, Processes);
  }

  // The only buckets the batches of a frame carry are those it closes, of its own device.
  ghost predicate OnlyCloses(ops: seq<Op>, from: nat, d: string, fs: seq<Frame>, f: Frame) {
    forall i :: from <= i < |ops| && ops[i].Write? ==>
      ops[i].batch.keys == ClosingKeys(fs, d, f, if ops[i].batch.table.MinuteSamples? then OneMin else TenSec)
  }

  lemma ClosedIffCrosses(fs: seq<Frame>, f: Frame, t: Tier)
    ensures ClosedRow(fs, f, t).Some? <==> Crosses(fs, f, t)
  {
  }

  // The bucket `f` closes saw no process at all.
  predicate ClosesEmpty(fs: seq<Frame>, f: Frame) {
    Crosses(fs, f, TenSec) && Sightings(Members(fs, TenSec, Key(fs, TenSec))) == []
  }

  lemma EmptyCloses(fs: seq<Frame>, f: Frame)
    ensures ClosesEmpty(fs, f) ==> ClosedProcesses(fs, f).Some? && ClosedProcesses(fs, f).value.1 == map[]
  {
    if ClosesEmpty(fs, f) {
      EmptyAggregate();
    }
  }

  // Nothing tried after `before` failed.
  ghost predicate NoFailureSince(before: seq<Op>, ops: seq<Op>) {
    before <= ops && forall i :: |before| <= i < |ops| ==> !Fails(ops[i])
  }

  // No prune was tried after `before`.
  ghost predicate NoPruneSince(before: seq<Op>, ops: seq<Op>) {
    before <= ops && forall i :: |before| <= i < |ops| ==> !ops[i].Prune?
  }

  class Recorder {
    const store: SqliteStore
    var devices: map<string, DevRecord>
    var flushesSincePrune: nat
    var newestTs: nat
    var failing: bool
    var failsInStreak: nat
    var pending: Option<WriteTransition>

    // Every frame observed since the last flush, and what became of the writes.
    ghost var frames: Frames
    ghost var ledger: Ledger
    // Everything tried and every edge taken, oldest first, and how much of it came before the
    // last flush.
    ghost var ops: seq<Op>
    ghost var mark: nat

    // The outcome state is the one those results lead to, and empty batches never failed.
    ghost predicate Accounted()
      reads this`failing, this`failsInStreak, this`pending, this`ops
    {
      Outcomes() == After(ops) && Possible(ops)
    }

    // The accumulators are those of the frames observed since the last flush.
    ghost predicate DevicesHold()
      reads this`devices, this`frames, devices.Values
    {
      && devices.Keys == frames.Keys
      && (forall d, e :: d in devices && e in devices && d != e ==> devices[d] != devices[e])
      && (forall d :: d in devices ==> devices[d].Holds(frames[d]))
    }

    // The tables match the ledger, whose cuts only ever reach below the retention windows.
    ghost predicate Faithful(sealed: bool, l: Ledger, fr: Frames)
      reads this`newestTs, store`samples10, store`samples1m, store`processes10
    {
      && l.cut10 <= SatSub(newestTs, RETAIN_10S_MS) && l.cut1m <= SatSub(newestTs, RETAIN_1M_MS)
      && TablesMatch(store.samples10, store.samples1m, store.processes10, l, fr, sealed)
    }

    ghost predicate Valid()
      reads this`devices, this`frames, devices.Values, this`failing, this`failsInStreak, this`pending, this`ops
      reads this`ledger, this`newestTs, this`mark, store`samples10, store`samples1m, store`processes10
    {
      Accounted() && DevicesHold() && Faithful(false, ledger, frames) && Attributed()
    }

    // Every completed bucket went into one batch, and the lost ones are those whose batch failed.
    ghost predicate Attributed()
      reads this`ops, this`mark, this`ledger, this`frames
    {
      AllTraced(ops, mark, ledger, frames, false)
    }

    ghost function Outcomes(): WriteState
      reads this`failing, this`failsInStreak, this`pending
    {
      WriteState(failing, failsInStreak, pending)
    }

    // Recording into whatever the store already holds.
    constructor (store: SqliteStore)
      ensures Valid() && frames == map[] && this.store == store && Outcomes() == HEALTHY && ops == [] && newestTs == 0
      ensures devices == map[] && flushesSincePrune == 0 && mark == 0
      ensures ledger == NewLedger(store.samples10, store.samples1m, store.processes10)
    {
      this.store := store;
      devices, flushesSincePrune, newestTs := map[], 0, 0;
      failing, failsInStreak, pending := false, 0, None;
      frames, ledger, ops, mark := map[], NewLedger(store.samples10, store.samples1m, store.processes10), [], 0;
      new;
      TracesStart([], ledger, map[]);
      NothingObserved(store.samples10, store.processes10, map[], TenSec);
      NothingObserved(store.samples1m, store.processes10, map[], OneMin);
    }

    // The last thing tried was an empty batch of process rows, which succeeded.
    ghost predicate EmptyWritten()
      reads this`ops, this`failing
    {
      !failing && ops != [] && IsBatchOf(ops[|ops| - 1], Processes) && ops[|ops| - 1].result.Ok? && ops[|ops| - 1].rows == 0
    }

    // `op` records what was tried: how many rows a batch offered, or a prune.
    method NoteWrite(r: Outcome, ghost op: Op)
      requires !op.Take? && op.result == r && (op.Write? && op.rows == 0 ==> r.Ok?)
      modifies this`failing, this`failsInStreak, this`pending, this`ops
      ensures Outcomes() == Note(old(Outcomes()), r) && ops == old(ops) + [op]
      ensures old(Accounted()) ==> Accounted()
    {
      ops := ops + [op];
      assert ops[..|ops| - 1] == old(ops);
      match r {
        case Ok =>
          if failing {
            failing := false;
            pending := Some(Recovered(failsInStreak));
            failsInStreak := 0;
          }
        case Err(e) =>
          failsInStreak := failsInStreak + 1;
          if !failing {
            failing := true;
            pending := Some(Degraded(e));
          }
      }
    }

    method TakeWriteTransition() returns (edge: Option<WriteTransition>)
      modifies this`pending, this`ops
      ensures edge == old(pending) && Outcomes() == old(Outcomes()).(pending := None) && ops == old(ops) + [Take]
      ensures old(Accounted()) ==> Accounted()
      ensures old(Attributed()) ==> Attributed()
    {
      hide AllTraced;
      ops := ops + [Take];
      assert ops[..|ops| - 1] == old(ops);
      if old(Attributed()) {
        TracesKept(old(ops), ops, mark, ledger, frames, false);
      }
      edge := pending;
      pending := None;
    }

    method EntryOrDefault(dev: string) returns (rec: DevRecord)
      requires DevicesHold()
      modifies this`devices, this`frames
      ensures DevicesHold() && dev in devices && dev in frames && rec == devices[dev]
      ensures rec in old(devices).Values || fresh(rec)
      ensures frames == old(frames)[dev := FramesOf(old(frames), dev)]
      ensures fresh(devices.Values - old(devices).Values)
    {
      hide DevRecord.Holds;
      if dev !in devices {
        AddDevice(dev);
      }
      rec := devices[dev];
    }

    method AddDevice(dev: string)
      requires DevicesHold() && dev !in devices
      modifies this`devices, this`frames
      ensures DevicesHold() && dev in devices && fresh(devices[dev]) && devices == old(devices)[dev := devices[dev]]
      ensures frames == old(frames)[dev := []]
    {
      hide DevRecord.Holds;
      var added := new DevRecord();
      devices := devices[dev := added];
      frames := frames[dev := []];
    }

    // Writes the sample row a frame completed, if any; a failed write drops the row and is
    // only noted. A row is written at most once in a recording.
    method WriteSample(t: Tier, dev: string, closed: Option<(nat, SampleRow)>, ghost f: Frame, ghost fr: Frames)
      requires closed == ClosedRow(FramesOf(fr, dev), f, t)
      modifies store`samples10, store`samples1m
      modifies this`failing, this`failsInStreak, this`pending, this`ops, this`ledger
      ensures old(SamplesMatch(store.Samples(t), ledger.Base(t), fr, t, ledger.Lost(t), ledger.Cut(t), false)) ==>
        SamplesMatch(store.Samples(t), ledger.Base(t), Arrived(fr, dev, f), t, ledger.Lost(t), ledger.Cut(t), false)
        && OnlyAdds(old(store.Samples(t)), store.Samples(t), ledger.Base(t))
      ensures t.TenSec? ==> store.samples1m == old(store.samples1m)
      ensures t.OneMin? ==> store.samples10 == old(store.samples10)
      ensures old(Accounted()) ==> Accounted()
      ensures Tried(old(ops), ops, ClosingBatch(FramesOf(fr, dev), dev, f, t, TableOf(t)))
      ensures old(Traced(ops, mark, TableOf(t), fr, t, false, ledger.Lost(t))) ==>
        Traced(ops, mark, TableOf(t), Arrived(fr, dev, f), t, false, ledger.Lost(t))
      ensures closed.None? ==> ops == old(ops) && ledger == old(ledger)
      ensures closed.Some? ==> |ops| == |old(ops)| + 1 && old(ops) < ops && ops[|ops| - 1].Write? && ops[|ops| - 1].rows == 1
      ensures closed.Some? ==>
        ledger == if Fails(ops[|ops| - 1]) then old(ledger).Losing(t, {(dev, closed.value.0)}) else old(ledger)
    {
      hide Accounted;
      hide SamplesMatch, Key, RefRow, BucketOf, Traced;
      ghost var fs := FramesOf(fr, dev);
      ClosedIs(fs, f, t);
      var ok := true;
      if closed.Some? {
        var row := SampleRollup(dev, closed.value.0, closed.value.1);
        var r := store.InsertSampleRollups(t, [row]);
        assert [row][..0] == [];
        NoteWrite(r, Write(r, 1, Batch(TableOf(t), {(dev, closed.value.0)})));
        assert ops[..|old(ops)|] == old(ops);
        ok := r.Ok?;
        if !ok {
          ledger := ledger.Losing(t, {(dev, closed.value.0)});
        }
      }
      if old(SamplesMatch(store.Samples(t), ledger.Base(t), fr, t, ledger.Lost(t), ledger.Cut(t), false)) {
        SampleFrameArrives(old(store.Samples(t)), ledger.Base(t), fr, dev, f, t, old(ledger.Lost(t)), ledger.Cut(t), ok,
                           store.Samples(t), ledger.Lost(t));
      }
      if old(Traced(ops, mark, TableOf(t), fr, t, false, ledger.Lost(t))) {
        TraceFrame(old(ops), ops, mark, TableOf(t), fr, dev, f, t, old(ledger.Lost(t)), ledger.Lost(t));
      }
    }

    // Writes the rows of the process bucket a frame completed, if any. A bucket without a
    // process makes an empty batch, which succeeds whatever the state of the database.
    method WriteProcs(dev: string, closed: Option<(nat, map<nat, ProcAccum>)>, ghost f: Frame, ghost fr: Frames)
      requires closed == ClosedProcesses(FramesOf(fr, dev), f)
      modifies store`processes10, this`failing, this`failsInStreak, this`pending, this`ops, this`ledger
      ensures old(ProcsMatch(store.processes10, ledger.baseProcs, fr, ledger.lostProcs, ledger.cut10, false)) ==>
        ProcsMatch(store.processes10, ledger.baseProcs, Arrived(fr, dev, f), ledger.lostProcs, ledger.cut10, false)
        && OnlyAdds(old(store.processes10), store.processes10, ledger.baseProcs)
      ensures old(Accounted()) ==> Accounted()
      ensures Tried(old(ops), ops, ClosingBatch(FramesOf(fr, dev), dev, f, TenSec, Processes))
      ensures old(Traced(ops, mark, Processes, fr, TenSec, false, ledger.lostProcs)) ==>
        Traced(ops, mark, Processes, Arrived(fr, dev, f), TenSec, false, ledger.lostProcs)
      ensures closed.None? ==> ops == old(ops) && ledger == old(ledger)
      ensures closed.Some? ==> |ops| == |old(ops)| + 1 && old(ops) < ops && ops[|ops| - 1].Write?
      ensures closed.Some? ==> ops[|ops| - 1].rows == |closed.value.1|
      ensures closed.Some? ==>
        ledger == if Fails(ops[|ops| - 1]) then old(ledger).LosingProcs({(dev, closed.value.0)}) else old(ledger)
      ensures closed.Some? ==> failing == Fails(ops[|ops| - 1])
      ensures closed.Some? ==>
        store.processes10 == if failing then old(store.processes10)
                             else old(store.processes10) + Keyed(dev, closed.value.0, ProcRows(closed.value.1))
      ensures closed.Some? && closed.value.1 == map[] ==> EmptyWritten()
    {
      hide Accounted;
      hide ProcsMatch, Key, BucketOf, OpenProcesses, Keyed, BucketRows, ProcRows, Traced, OnlyAdds;
      ghost var fs := FramesOf(fr, dev);
      ClosedProcsIs(fs, f);
      var ok := true;
      if closed.Some? {
        var rows := ProcessRollups(dev, closed.value.0, closed.value.1);
        UpsertProcsIsUnion(store.processes10, rows);
        ClosedProcs(FramesOf(fr, dev), dev);
        var r := store.InsertProcessRollups(rows);
        NoteWrite(r, Write(r, |rows|, Batch(Processes, {(dev, closed.value.0)})));
        assert ops[..|old(ops)|] == old(ops);
        ok := r.Ok?;
        if !ok {
          ledger := ledger.LosingProcs({(dev, closed.value.0)});
        }
      }
      if old(ProcsMatch(store.processes10, ledger.baseProcs, fr, ledger.lostProcs, ledger.cut10, false)) {
        ProcFrameArrives(old(store.processes10), ledger.baseProcs, fr, dev, f, old(ledger.lostProcs), ledger.cut10, ok,
                         store.processes10, ledger.lostProcs);
        ProcsOnlyAdd(old(store.processes10), ledger.baseProcs, fr, dev, f, old(ledger.lostProcs), ledger.cut10, store.processes10);
      }
      if old(Traced(ops, mark, Processes, fr, TenSec, false, ledger.lostProcs)) {
        TraceFrame(old(ops), ops, mark, Processes, fr, dev, f, TenSec, old(ledger.lostProcs), ledger.lostProcs);
      }
    }

    // Folds one frame into its device's accumulators and hands back what it completes.
    method Accumulate(dev: string, f: Frame)
      returns (ten: Option<(nat, SampleRow)>, min: Option<(nat, SampleRow)>, procs: Option<(nat, map<nat, ProcAccum>)>)
      requires DevicesHold()
      modifies this`devices, this`frames, devices.Values
      ensures DevicesHold() && frames == Arrived(old(frames), dev, f)
      ensures fresh(devices.Values - old(devices).Values)
      ensures var fs := FramesOf(old(frames), dev);
        ten == ClosedRow(fs, f, TenSec) && min == ClosedRow(fs, f, OneMin) && procs == ClosedProcesses(fs, f)
    {
      hide DevicesHold, DevRecord.Holds, ClosedRow, ClosedProcesses;
      var rec := EntryOrDefault(dev);
      ten, min, procs := FoldInto(dev, rec, f);
    }

    method FoldInto(dev: string, rec: DevRecord, f: Frame)
      returns (ten: Option<(nat, SampleRow)>, min: Option<(nat, SampleRow)>, procs: Option<(nat, map<nat, ProcAccum>)>)
      requires DevicesHold() && dev in devices && dev in frames && rec == devices[dev]
      modifies this`frames, rec
      ensures DevicesHold() && frames == old(frames)[dev := old(frames)[dev] + [f]]
      ensures ten == ClosedRow(old(frames)[dev], f, TenSec) && min == ClosedRow(old(frames)[dev], f, OneMin)
      ensures procs == ClosedProcesses(old(frames)[dev], f)
    {
      hide DevRecord.Holds, ClosedRow, ClosedProcesses;
      ghost var fs := frames[dev];
      ten, min, procs := rec.FoldFrame(f, fs);
      frames := frames[dev := fs + [f]];
    }

    // Pruning is due with this frame.
    ghost predicate PruneDue(dev: string, f: Frame)
      reads this`frames, this`flushesSincePrune
    {
      Crosses(FramesOf(frames, dev), f, TenSec) && flushesSincePrune + 1 >= 360
    }

    // Folds one frame into both tiers and writes what it completes. Whatever writes fail, the
    // tables stay faithful to all frames so far and the only rows newly lost are those of the
    // failed batches, which carry nothing but the buckets this frame closes; rows written since
    // the recording began are never changed, and none within retention is ever gone.
    method Observe(dev: string, f: Frame)
      requires Valid()
      modifies this, store, devices.Values
      ensures Valid() && frames == Arrived(old(frames), dev, f) && fresh(devices.Values - old(devices).Values)
      ensures Survives(old(store.samples10), store.samples10, ledger.base10, SatSub(newestTs, RETAIN_10S_MS))
      ensures Survives(old(store.samples1m), store.samples1m, ledger.base1m, SatSub(newestTs, RETAIN_1M_MS))
      ensures ProcsSurvive(old(store.processes10), store.processes10, ledger.baseProcs, SatSub(newestTs, RETAIN_10S_MS))
      ensures LosesExactly(old(ledger), ledger, ops, |old(ops)|)
      ensures OnlyCloses(ops, |old(ops)|, dev, old(FramesOf(frames, dev)), f)
      ensures old(ops) <= ops && newestTs == MaxNat(old(newestTs), f.s.ts) && mark == old(mark)
      ensures ledger.SameStart(old(ledger))
      ensures NoFailureSince(old(ops), ops) ==> ledger.SameLosses(old(ledger))
      ensures NoPruneSince(old(ops), ops) ==> ledger.SameCuts(old(ledger))
      ensures !old(PruneDue(dev, f)) ==> ledger.SameCuts(old(ledger)) && store.events == old(store.events)
      ensures !old(PruneDue(dev, f)) ==>
        && OnlyAdds(old(store.samples10), store.samples10, ledger.base10) && OnlyAdds(old(store.samples1m), store.samples1m, ledger.base1m)
        && OnlyAdds(old(store.processes10), store.processes10, ledger.baseProcs)
      ensures store.events == old(store.events) || store.events == PrunedEvents(old(store.events), SatSub(newestTs, RETAIN_EVENTS_MS))
      // a bucket without a process ends any streak of failures, whatever happened to its samples
      ensures ClosesEmpty(old(FramesOf(frames, dev)), f) && !old(PruneDue(dev, f)) ==> EmptyWritten()
    {
      hide *;
      NoteTime(f.s.ts);
      FoldAndWrite(dev, f);
    }

    // A later time only widens what may have been pruned.
    method NoteTime(ts: nat)
      requires Valid()
      modifies this`newestTs
      ensures Valid() && newestTs == MaxNat(old(newestTs), ts)
    {
      newestTs := MaxNat(newestTs, ts);
      hide Accounted, TablesMatch, DevicesHold, Attributed;
      assert Faithful(false, ledger, frames);
    }

    // The part of `observe` after the newest timestamp is noted.
    method FoldAndWrite(dev: string, f: Frame)
      requires Valid()
      modifies this`devices, this`frames, devices.Values, store, this`flushesSincePrune
      modifies this`failing, this`failsInStreak, this`pending, this`ops, this`ledger
      ensures Valid() && frames == Arrived(old(frames), dev, f) && fresh(devices.Values - old(devices).Values)
      ensures Survives(old(store.samples10), store.samples10, ledger.base10, SatSub(newestTs, RETAIN_10S_MS))
      ensures Survives(old(store.samples1m), store.samples1m, ledger.base1m, SatSub(newestTs, RETAIN_1M_MS))
      ensures ProcsSurvive(old(store.processes10), store.processes10, ledger.baseProcs, SatSub(newestTs, RETAIN_10S_MS))
      ensures LosesExactly(old(ledger), ledger, ops, |old(ops)|)
      ensures OnlyCloses(ops, |old(ops)|, dev, old(FramesOf(frames, dev)), f)
      ensures old(ops) <= ops
      ensures ledger.SameStart(old(ledger))
      ensures NoFailureSince(old(ops), ops) ==> ledger.SameLosses(old(ledger))
      ensures NoPruneSince(old(ops), ops) ==> ledger.SameCuts(old(ledger))
      ensures !old(PruneDue(dev, f)) ==> ledger.SameCuts(old(ledger)) && store.events == old(store.events)
      ensures !old(PruneDue(dev, f)) ==>
        && OnlyAdds(old(store.samples10), store.samples10, ledger.base10) && OnlyAdds(old(store.samples1m), store.samples1m, ledger.base1m)
        && OnlyAdds(old(store.processes10), store.processes10, ledger.baseProcs)
      ensures store.events == old(store.events) || store.events == PrunedEvents(old(store.events), SatSub(newestTs, RETAIN_EVENTS_MS))
      ensures ClosesEmpty(old(FramesOf(frames, dev)), f) && !old(PruneDue(dev, f)) ==> EmptyWritten()
    {
      hide Accounted, Faithful, DevicesHold, AllTraced, LosesExactly, OnlyCloses, EmptyWritten;
      hide Crosses, ClosesEmpty, PrunedEvents, Pruned, PrunedProcs, OnlyAdds, OnlyDrops, KeepsRecent, KeepsRecentProcs, Survives, ProcsSurvive;
      hide Arrived, FramesOf;
      ghost var fr, was, led := frames, ops, ledger;
      var crossed := FoldAndTry(dev, f);
      ghost var tried, mid10, mid1m, midProcs := ops, store.samples10, store.samples1m, store.processes10;
      MaybePrune(crossed);
      ClosesPruned(tried, ops, |was|, dev, FramesOf(fr, dev), f);
      LossesSplit(was, led, fr, ops, ledger, frames, mark, false);
      AddThenDrop(old(store.samples10), mid10, store.samples10, ledger.base10, SatSub(newestTs, RETAIN_10S_MS));
      AddThenDrop(old(store.samples1m), mid1m, store.samples1m, ledger.base1m, SatSub(newestTs, RETAIN_1M_MS));
      AddThenDropProcs(old(store.processes10), midProcs, store.processes10, ledger.baseProcs, SatSub(newestTs, RETAIN_10S_MS));
    }

    // Everything before the prune; tells whether a ten-second bucket was completed.
    method FoldAndTry(dev: string, f: Frame) returns (crossed: bool)
      requires Valid()
      modifies this`devices, this`frames, devices.Values, store`samples10, store`samples1m, store`processes10
      modifies this`failing, this`failsInStreak, this`pending, this`ops, this`ledger
      ensures Valid() && frames == Arrived(old(frames), dev, f) && fresh(devices.Values - old(devices).Values)
      ensures OnlyAdds(old(store.samples10), store.samples10, ledger.base10) && OnlyAdds(old(store.samples1m), store.samples1m, ledger.base1m)
      ensures OnlyAdds(old(store.processes10), store.processes10, ledger.baseProcs)
      ensures crossed == Crosses(old(FramesOf(frames, dev)), f, TenSec)
      ensures OnlyCloses(ops, |old(ops)|, dev, old(FramesOf(frames, dev)), f)
      ensures old(ops) <= ops && ledger.SameStart(old(ledger)) && ledger.SameCuts(old(ledger))
      ensures NoFailureSince(old(ops), ops) ==> ledger.SameLosses(old(ledger))
      ensures ClosesEmpty(old(FramesOf(frames, dev)), f) ==> EmptyWritten()
    {
      hide Accounted, Faithful, DevicesHold, AllTraced, OnlyCloses, EmptyWritten, NoFailureSince;
      hide Crosses, ClosesEmpty, OnlyAdds, ClosedRow, ClosedProcesses, Arrived, FramesOf;
      hide Ledger.SameStart, Ledger.SameLosses, Ledger.SameCuts;
      ghost var fr := frames;
      var ten, min, procs := Accumulate(dev, f);
      WriteCompleted(dev, f, fr, ten, min, procs);
      ClosedIffCrosses(FramesOf(fr, dev), f, TenSec);
      EmptyCloses(FramesOf(fr, dev), f);
      crossed := ten.Some?;
    }

    // The writes of one frame, in order.
    method WriteCompleted(dev: string, ghost f: Frame, ghost fr: Frames, ten: Option<(nat, SampleRow)>,
                          min: Option<(nat, SampleRow)>, procs: Option<(nat, map<nat, ProcAccum>)>)
      requires var fs := FramesOf(fr, dev);
        ten == ClosedRow(fs, f, TenSec) && min == ClosedRow(fs, f, OneMin) && procs == ClosedProcesses(fs, f)
      requires Faithful(false, ledger, fr) && AllTraced(ops, mark, ledger, fr, false)
      modifies store`samples10, store`samples1m, store`processes10
      modifies this`failing, this`failsInStreak, this`pending, this`ops, this`ledger
      ensures Faithful(false, ledger, Arrived(fr, dev, f)) && AllTraced(ops, mark, ledger, Arrived(fr, dev, f), false)
      ensures OnlyAdds(old(store.samples10), store.samples10, ledger.base10) && OnlyAdds(old(store.samples1m), store.samples1m, ledger.base1m)
      ensures OnlyAdds(old(store.processes10), store.processes10, ledger.baseProcs)
      ensures OnlyCloses(ops, |old(ops)|, dev, FramesOf(fr, dev), f)
      ensures old(Accounted()) ==> Accounted()
      ensures old(ops) <= ops
      ensures ledger.SameStart(old(ledger)) && ledger.SameCuts(old(ledger))
      ensures NoFailureSince(old(ops), ops) ==> ledger.SameLosses(old(ledger))
      ensures procs.Some? && procs.value.1 == map[] ==> EmptyWritten()
    {
      hide Accounted;
      hide SamplesMatch, ProcsMatch, ClosedRow, ClosedProcesses, Arrived, OnlyAdds, ProcRows, Keyed;
      hide Traced, Tried, ClosingBatch, OnlyCloses, EmptyWritten;
      ghost var o0, fs, fr' := ops, FramesOf(fr, dev), Arrived(fr, dev, f);
      WriteSample(TenSec, dev, ten, f, fr);
      ghost var o1 := ops;
      TriedElsewhere(o0, o1, fs, dev, f, TenSec, TenSecSamples);
      TraceUntouched(o0, o1, mark, MinuteSamples, fr, OneMin, false, ledger.lost1m);
      TraceUntouched(o0, o1, mark, Processes, fr, TenSec, false, ledger.lostProcs);
      WriteSample(OneMin, dev, min, f, fr);
      ghost var o2 := ops;
      TriedElsewhere(o1, o2, fs, dev, f, OneMin, MinuteSamples);
      TraceUntouched(o1, o2, mark, TenSecSamples, fr', TenSec, false, ledger.lost10);
      TraceUntouched(o1, o2, mark, Processes, fr, TenSec, false, ledger.lostProcs);
      WriteProcs(dev, procs, f, fr);
      TriedElsewhere(o2, ops, fs, dev, f, TenSec, Processes);
      TraceUntouched(o2, ops, mark, TenSecSamples, fr', TenSec, false, ledger.lost10);
      TraceUntouched(o2, ops, mark, MinuteSamples, fr', OneMin, false, ledger.lost1m);
      ThreeTried(o0, o1, o2, ops, fs, dev, f);
    }

    // Once an hour of completed buckets, rows past their retention window are dropped.
    method MaybePrune(crossed: bool)
      requires Faithful(false, ledger, frames) && AllTraced(ops, mark, ledger, frames, false)
      modifies store, this`flushesSincePrune, this`failing, this`failsInStreak, this`pending, this`ops, this`ledger
      ensures Faithful(false, ledger, frames) && AllTraced(ops, mark, ledger, frames, false)
      ensures OnlyDrops(old(store.samples10), store.samples10) && OnlyDrops(old(store.samples1m), store.samples1m)
      ensures OnlyDrops(old(store.processes10), store.processes10)
      ensures KeepsRecent(old(store.samples10), store.samples10, SatSub(newestTs, RETAIN_10S_MS))
      ensures KeepsRecent(old(store.samples1m), store.samples1m, SatSub(newestTs, RETAIN_1M_MS))
      ensures KeepsRecentProcs(old(store.processes10), store.processes10, SatSub(newestTs, RETAIN_10S_MS))
      ensures old(Accounted()) ==> Accounted()
      ensures old(ops) <= ops && ledger.SameLosses(old(ledger))
      ensures forall i :: |old(ops)| <= i < |ops| ==> ops[i].Prune?
      ensures flushesSincePrune ==
        if !crossed then old(flushesSincePrune) else if old(flushesSincePrune) + 1 < 360 then old(flushesSincePrune) + 1 else 0
      ensures !(crossed && old(flushesSincePrune) + 1 >= 360) ==>
        unchanged(store) && ledger == old(ledger) && ops == old(ops) && failing == old(failing)
      ensures crossed && old(flushesSincePrune) + 1 >= 360 ==> |ops| == |old(ops)| + 1 && ops[|ops| - 1].Prune?
      ensures |ops| > |old(ops)| && ops[|ops| - 1] == Prune(Ok) ==>
        && store.samples10 == Pruned(old(store.samples10), SatSub(newestTs, RETAIN_10S_MS))
        && store.processes10 == PrunedProcs(old(store.processes10), SatSub(newestTs, RETAIN_10S_MS))
        && store.samples1m == Pruned(old(store.samples1m), SatSub(newestTs, RETAIN_1M_MS))
        && store.events == PrunedEvents(old(store.events), SatSub(newestTs, RETAIN_EVENTS_MS))
        && ledger == old(ledger).Cutting(SatSub(newestTs, RETAIN_10S_MS), SatSub(newestTs, RETAIN_1M_MS))
      ensures |ops| > |old(ops)| && ops[|ops| - 1] != Prune(Ok) ==> unchanged(store) && ledger == old(ledger)
    {
      hide Accounted;
      hide SamplesMatch, ProcsMatch, Traced;
      if crossed {
        flushesSincePrune := flushesSincePrune + 1;
        if flushesSincePrune >= PRUNE_EVERY_FLUSHES {
          flushesSincePrune := 0;
          ghost var ten, min := SatSub(newestTs, RETAIN_10S_MS), SatSub(newestTs, RETAIN_1M_MS);
          PruneKeepsSamples(store.samples10, ledger.base10, frames, TenSec, ledger.lost10, ledger.cut10, ten);
          PruneKeepsSamples(store.samples1m, ledger.base1m, frames, OneMin, ledger.lost1m, ledger.cut1m, min);
          PruneKeepsProcs(store.processes10, ledger.baseProcs, frames, ledger.lostProcs, ledger.cut10, ten);
          var r := store.Prune(newestTs);
          NoteWrite(r, Prune(r));
          TracesKept(old(ops), ops, mark, ledger, frames, false);
          if r.Ok? {
            ledger := ledger.Cutting(ten, min);
          }
        }
      }
    }

    // A batch of no events ends a streak of failures without touching the log; a streak ended
    // by a batch with events leaves every one of their keys in it.
    method RecordEvents(events: seq<EventLog.EventRow>)
      modifies store`events, this`failing, this`failsInStreak, this`pending, this`ops
      ensures old(EventLog.UniqueKeys(store.events)) ==> EventLog.UniqueKeys(store.events)
      ensures old(Accounted()) ==> Accounted()
      ensures old(Attributed()) ==> Attributed()
      ensures |ops| == |old(ops)| + 1 && old(ops) < ops && ops[|ops| - 1].Write? && ops[|ops| - 1].rows == |events|
      ensures failing == Fails(ops[|ops| - 1])
      ensures !failing ==> store.events == EventLog.InsertAll(old(store.events), events)
      ensures failing ==> store.events == old(store.events) && events != []
      ensures !failing ==> forall e :: e in events ==> EventLog.Represented(store.events, e)
      ensures events == [] ==> !failing && store.events == old(store.events)
      ensures events == [] && old(failing) ==> pending == Some(Recovered(old(failsInStreak)))
    {
      var r := store.InsertEvents(events);
      NoteWrite(r, Write(r, |events|, Batch(Events, {})));
      if old(Attributed()) {
        hide Traced;
        TracesKept(old(ops), ops, mark, ledger, frames, false);
      }
    }

    method SealSamples(t: Tier, rows: seq<SampleRollup>, ghost fr: Frames)
      requires Upsert(map[], rows) == OpenRows(fr, t)
      modifies store`samples10, store`samples1m
      modifies this`failing, this`failsInStreak, this`pending, this`ops, this`ledger
      ensures old(SamplesMatch(store.Samples(t), ledger.Base(t), fr, t, ledger.Lost(t), ledger.Cut(t), false)) ==>
        SamplesMatch(store.Samples(t), ledger.Base(t), fr, t, ledger.Lost(t), ledger.Cut(t), true)
        && OnlyAdds(old(store.Samples(t)), store.Samples(t), ledger.Base(t))
      ensures Tried(old(ops), ops, Some(Batch(TableOf(t), OpenKeys(fr, t))))
      ensures old(Traced(ops, mark, TableOf(t), fr, t, false, ledger.Lost(t))) ==>
        Traced(ops, mark, TableOf(t), fr, t, true, ledger.Lost(t))
      ensures t.TenSec? ==> store.samples1m == old(store.samples1m)
      ensures t.OneMin? ==> store.samples10 == old(store.samples10)
      ensures old(Accounted()) ==> Accounted()
      ensures |ops| == |old(ops)| + 1 && old(ops) < ops && ops[|ops| - 1].Write?
      ensures ledger == if Fails(ops[|ops| - 1]) then old(ledger).Losing(t, OpenKeys(fr, t)) else old(ledger)
    {
      hide Accounted;
      hide SamplesMatch, OpenRows, OpenKeys, Traced, OnlyAdds;
      UpsertIsUnion(store.Samples(t), rows);
      var r := store.InsertSampleRollups(t, rows);
      NoteWrite(r, Write(r, |rows|, Batch(TableOf(t), OpenKeys(fr, t))));
      assert ops[..|old(ops)|] == old(ops);
      if r.Err? {
        ledger := ledger.Losing(t, OpenKeys(fr, t));
      }
      if old(SamplesMatch(store.Samples(t), ledger.Base(t), fr, t, ledger.Lost(t), ledger.Cut(t), false)) {
        FlushSealsSamples(old(store.Samples(t)), ledger.Base(t), fr, t, old(ledger.Lost(t)), ledger.Cut(t), r.Ok?,
                          store.Samples(t), ledger.Lost(t));
        SealOnlyAdds(old(store.Samples(t)), ledger.Base(t), fr, t, old(ledger.Lost(t)), ledger.Cut(t), store.Samples(t));
      }
      if old(Traced(ops, mark, TableOf(t), fr, t, false, ledger.Lost(t))) {
        TraceSeal(old(ops), ops, mark, TableOf(t), fr, t, old(ledger.Lost(t)), ledger.Lost(t));
      }
    }

    method SealProcs(rows: seq<ProcRollup>, ghost fr: Frames)
      requires UpsertProcs(map[], rows) == OpenProcs(fr)
      modifies store`processes10, this`failing, this`failsInStreak, this`pending, this`ops, this`ledger
      ensures old(ProcsMatch(store.processes10, ledger.baseProcs, fr, ledger.lostProcs, ledger.cut10, false)) ==>
        ProcsMatch(store.processes10, ledger.baseProcs, fr, ledger.lostProcs, ledger.cut10, true)
        && OnlyAdds(old(store.processes10), store.processes10, ledger.baseProcs)
      ensures Tried(old(ops), ops, Some(Batch(Processes, OpenKeys(fr, TenSec))))
      ensures old(Traced(ops, mark, Processes, fr, TenSec, false, ledger.lostProcs)) ==>
        Traced(ops, mark, Processes, fr, TenSec, true, ledger.lostProcs)
      ensures old(Accounted()) ==> Accounted()
      ensures |ops| == |old(ops)| + 1 && old(ops) < ops && ops[|ops| - 1].Write?
      ensures ledger == if Fails(ops[|ops| - 1]) then old(ledger).LosingProcs(OpenKeys(fr, TenSec)) else old(ledger)
    {
      hide Accounted;
      hide ProcsMatch, OpenProcs, OpenKeys, Traced, OnlyAdds;
      UpsertProcsIsUnion(store.processes10, rows);
      var r := store.InsertProcessRollups(rows);
      NoteWrite(r, Write(r, |rows|, Batch(Processes, OpenKeys(fr, TenSec))));
      assert ops[..|old(ops)|] == old(ops);
      if r.Err? {
        ledger := ledger.LosingProcs(OpenKeys(fr, TenSec));
      }
      if old(ProcsMatch(store.processes10, ledger.baseProcs, fr, ledger.lostProcs, ledger.cut10, false)) {
        FlushSealsProcs(old(store.processes10), ledger.baseProcs, fr, old(ledger.lostProcs), ledger.cut10, r.Ok?,
                        store.processes10, ledger.lostProcs);
        SealOnlyAddsProcs(old(store.processes10), ledger.baseProcs, fr, old(ledger.lostProcs), ledger.cut10, store.processes10);
      }
      if old(Traced(ops, mark, Processes, fr, TenSec, false, ledger.lostProcs)) {
        TraceSeal(old(ops), ops, mark, Processes, fr, TenSec, old(ledger.lostProcs), ledger.lostProcs);
      }
    }

    // The flush's three batches, in order.
    method SealAll(tens: seq<SampleRollup>, mins: seq<SampleRollup>, procs: seq<ProcRollup>, ghost fr: Frames)
      requires Upsert(map[], tens) == OpenRows(fr, TenSec) && Upsert(map[], mins) == OpenRows(fr, OneMin)
      requires UpsertProcs(map[], procs) == OpenProcs(fr)
      requires Faithful(false, ledger, fr) && AllTraced(ops, mark, ledger, fr, false)
      modifies store`samples10, store`samples1m, store`processes10
      modifies this`failing, this`failsInStreak, this`pending, this`ops, this`ledger
      ensures old(Accounted()) ==> Accounted()
      ensures Faithful(true, ledger, fr) && AllTraced(ops, mark, ledger, fr, true)
      ensures OnlyAdds(old(store.samples10), store.samples10, ledger.base10) && OnlyAdds(old(store.samples1m), store.samples1m, ledger.base1m)
      ensures OnlyAdds(old(store.processes10), store.processes10, ledger.baseProcs)
      ensures |ops| == |old(ops)| + 3 && old(ops) < ops && CarriesOpen(ops, |old(ops)|, fr)
      ensures ledger.SameStart(old(ledger)) && ledger.SameCuts(old(ledger))
      ensures NoFailureSince(old(ops), ops) ==> ledger.SameLosses(old(ledger))
    {
      hide Accounted, SamplesMatch, ProcsMatch, OpenRows, OpenProcs, OpenKeys, Traced, OnlyAdds;
      ghost var o0 := ops;
      SealSamples(TenSec, tens, fr);
      ghost var o1 := ops;
      TraceUntouched(o0, o1, mark, MinuteSamples, fr, OneMin, false, ledger.lost1m);
      TraceUntouched(o0, o1, mark, Processes, fr, TenSec, false, ledger.lostProcs);
      SealSamples(OneMin, mins, fr);
      ghost var o2 := ops;
      TraceUntouched(o1, o2, mark, TenSecSamples, fr, TenSec, true, ledger.lost10);
      TraceUntouched(o1, o2, mark, Processes, fr, TenSec, false, ledger.lostProcs);
      SealProcs(procs, fr);
      TraceUntouched(o2, ops, mark, TenSecSamples, fr, TenSec, true, ledger.lost10);
      TraceUntouched(o2, ops, mark, MinuteSamples, fr, OneMin, true, ledger.lost1m);
    }

    // Force-writes every device's open buckets and empties the accumulators. The tables then
    // hold every bucket of every frame since the last flush on top of what they held before,
    // except the pruned ones and those whose batch failed: since the last flush each bucket went
    // into exactly one batch, the open ones into this call's three. No row is dropped, and a new
    // account begins.
    method Flush() returns (ghost closing: Ledger)
      requires Valid()
      modifies this, store, devices.Values
      ensures Valid() && frames == (map d | d in old(frames) :: []) && devices == old(devices)
      ensures Faithful(true, closing, old(frames)) && AllTraced(ops, old(mark), closing, old(frames), true)
      ensures closing.SameStart(old(ledger)) && closing.SameCuts(old(ledger))
      ensures LosesExactly(old(ledger), closing, ops, |old(ops)|) && CarriesOpen(ops, |old(ops)|, old(frames))
      ensures OnlyAdds(old(store.samples10), store.samples10, closing.base10)
      ensures OnlyAdds(old(store.samples1m), store.samples1m, closing.base1m)
      ensures OnlyAdds(old(store.processes10), store.processes10, closing.baseProcs)
      ensures ledger == NewLedger(store.samples10, store.samples1m, store.processes10) && mark == |ops|
      ensures store.events == old(store.events) && newestTs == old(newestTs) && flushesSincePrune == old(flushesSincePrune)
      ensures |ops| == |old(ops)| + 3 && old(ops) < ops
      ensures NoFailureSince(old(ops), ops) ==> closing.SameLosses(old(ledger))
    {
      hide Accounted, Faithful, TablesMatch, OpenRows, OpenProcs, DevicesHold, NoFailureSince, AllTraced, LosesExactly, CarriesOpen, OnlyAdds;
      hide Ledger.SameStart, Ledger.SameLosses, Ledger.SameCuts;
      ghost var fr, was, led := frames, ops, ledger;
      var tens, mins, procs := CollectOpen();
      ClearAll();
      SealAll(tens, mins, procs, fr);
      closing := ledger;
      LossesSplit(was, led, fr, ops, closing, fr, mark, true);
      StartAccount();
    }

    // A new account of what the tables hold now.
    ghost method StartAccount()
      requires Accounted() && DevicesHold() && forall d :: d in frames ==> frames[d] == []
      modifies this`ledger, this`mark
      ensures Valid() && ledger == NewLedger(store.samples10, store.samples1m, store.processes10) && mark == |ops|
    {
      hide Accounted, DevicesHold, TablesMatch, AllTraced;
      ledger := NewLedger(store.samples10, store.samples1m, store.processes10);
      mark := |ops|;
      StartsOver(store.samples10, store.samples1m, store.processes10, frames);
      TracesStart(ops, ledger, frames);
    }

    // The rows of every open bucket.
    method CollectOpen() returns (tens: seq<SampleRollup>, mins: seq<SampleRollup>, procs: seq<ProcRollup>)
      requires DevicesHold()
      ensures Upsert(map[], tens) == OpenRows(frames, TenSec)
      ensures Upsert(map[], mins) == OpenRows(frames, OneMin)
      ensures UpsertProcs(map[], procs) == OpenProcs(frames)
    {
      hide OpenRows, OpenProcs, DevRecord.Holds;
      tens, mins, procs := [], [], [];
      var todo := devices.Keys;
      ghost var seen: Frames := map[];
      NothingOpen();
      while todo != {}
        invariant todo <= devices.Keys
        invariant seen.Keys == frames.Keys - todo && forall d :: d in seen ==> seen[d] == frames[d]
        invariant Upsert(map[], tens) == OpenRows(seen, TenSec)
        invariant Upsert(map[], mins) == OpenRows(seen, OneMin)
        invariant UpsertProcs(map[], procs) == OpenProcs(seen)
      {
        var dev :| dev in todo;
        todo := todo - {dev};
        tens, mins, procs := AddOpen(dev, devices[dev], frames[dev], seen, tens, mins, procs);
        seen := seen[dev := frames[dev]];
      }
      assert seen == frames;
    }

    // One device's open buckets, added to the rows collected for the devices before it.
    method AddOpen(dev: string, rec: DevRecord, ghost fs: seq<Frame>, ghost seen: Frames,
                   tens0: seq<SampleRollup>, mins0: seq<SampleRollup>, procs0: seq<ProcRollup>)
      returns (tens: seq<SampleRollup>, mins: seq<SampleRollup>, procs: seq<ProcRollup>)
      requires rec.Holds(fs) && dev !in seen
      requires Upsert(map[], tens0) == OpenRows(seen, TenSec) && Upsert(map[], mins0) == OpenRows(seen, OneMin)
      requires UpsertProcs(map[], procs0) == OpenProcs(seen)
      ensures Upsert(map[], tens) == OpenRows(seen[dev := fs], TenSec)
      ensures Upsert(map[], mins) == OpenRows(seen[dev := fs], OneMin)
      ensures UpsertProcs(map[], procs) == OpenProcs(seen[dev := fs])
    {
      hide OpenRows, OpenProcs, Key, Members, Aggregate, ProcGroups, Sightings, ToRow, Keyed, BucketRows, ProcRows;
      tens, mins, procs := tens0, mins0, procs0;
      OneMoreDevice(seen, dev, fs, TenSec);
      OneMoreDevice(seen, dev, fs, OneMin);
      OneMoreDeviceProcs(seen, dev, fs);
      if rec.s10.bucket.Some? {
        var row10 := SampleRollup(dev, rec.s10.bucket.value, ToRow(rec.s10.acc));
        var row1m := SampleRollup(dev, rec.s1m.bucket.value, ToRow(rec.s1m.acc));
        tens, mins := tens + [row10], mins + [row1m];
        assert tens[..|tens0|] == tens0 && mins[..|mins0|] == mins0;
        var rows := ProcessRollups(dev, rec.p10.bucket.value, rec.p10.acc);
        ClosedProcs(fs, dev);
        UpsertProcsConcat(map[], procs0, rows);
        UpsertProcsIsUnion(UpsertProcs(map[], procs0), rows);
        procs := procs + rows;
      }
    }

    lemma WithinCuts(sealed: bool, l: Ledger, fr: Frames)
      requires Faithful(sealed, l, fr)
      ensures l.cut10 <= SatSub(newestTs, RETAIN_10S_MS) && l.cut1m <= SatSub(newestTs, RETAIN_1M_MS)
      ensures TablesMatch(store.samples10, store.samples1m, store.processes10, l, fr, sealed)
    {
    }

    // What a flush with nothing lost and nothing pruned says of the sample tables.
    lemma SealedTables(l: Ledger, fr: Frames)
      requires Faithful(true, l, fr) && l == NewLedger(map[], map[], map[])
      ensures SamplesMatch(store.samples10, map[], fr, TenSec, {}, 0, true)
      ensures SamplesMatch(store.samples1m, map[], fr, OneMin, {}, 0, true)
    {
    }

    method ClearAll()
      requires DevicesHold()
      modifies this`frames, devices.Values
      ensures DevicesHold() && frames == map d | d in old(frames) :: []
    {
      hide DevRecord.Holds;
      var todo := devices.Keys;
      while todo != {}
        invariant todo <= devices.Keys
        invariant frames == old(frames)
        invariant forall d :: d in devices && d !in todo ==> devices[d].Holds([])
      {
        var dev :| dev in todo;
        todo := todo - {dev};
        devices[dev].Reset();
      }
      frames := map d | d in frames :: [];
    }
  }

  // The three batches of a flush carry the open buckets.
  ghost predicate CarriesOpen(ops: seq<Op>, from: nat, fr: Frames) {
    && |ops| == from + 3 && ops[from].Write? && ops[from + 1].Write? && ops[from + 2].Write?
    && ops[from].batch == Batch(TenSecSamples, OpenKeys(fr, TenSec))
    && ops[from + 1].batch == Batch(MinuteSamples, OpenKeys(fr, OneMin))
    && ops[from + 2].batch == Batch(Processes, OpenKeys(fr, TenSec))
  }

  lemma TracesStart(ops: seq<Op>, l: Ledger, fr: Frames)
    requires l.lost10 == {} && l.lost1m == {} && l.lostProcs == {}
    requires forall d: string :: d in fr ==> fr[d] == []
    ensures AllTraced(ops, |ops|, l, fr, false)
  {
    hide Traced;
    TraceStarts(ops, TenSecSamples, fr, TenSec);
    TraceStarts(ops, MinuteSamples, fr, OneMin);
    TraceStarts(ops, Processes, fr, TenSec);
  }

  lemma ClosedIs(fs: seq<Frame>, f: Frame, t: Tier)
    ensures ClosedRow(fs, f, t).Some? <==> Crosses(fs, f, t)
    ensures Crosses(fs, f, t) ==> ClosedRow(fs, f, t).value.0 == Key(fs, t)
  {
  }

  lemma ClosedProcsIs(fs: seq<Frame>, f: Frame)
    ensures ClosedProcesses(fs, f).Some? <==> Crosses(fs, f, TenSec)
    ensures Crosses(fs, f, TenSec) ==> ClosedProcesses(fs, f).value.0 == Key(fs, TenSec)
  {
  }

  // A frame's batch for one table is none for another.
  lemma TriedElsewhere(before: seq<Op>, ops: seq<Op>, fs: seq<Frame>, d: string, f: Frame, t: Tier, tab: Table)
    requires Tried(before, ops, ClosingBatch(fs, d, f, t, tab))
    ensures before <= ops && forall other: Table :: other != tab ==> Untouched(before, ops, other)
  {
  }

  lemma ThreeTried(o0: seq<Op>, o1: seq<Op>, o2: seq<Op>, o3: seq<Op>, fs: seq<Frame>, d: string, f: Frame)
    requires Tried(o0, o1, ClosingBatch(fs, d, f, TenSec, TenSecSamples))
    requires Tried(o1, o2, ClosingBatch(fs, d, f, OneMin, MinuteSamples))
    requires Tried(o2, o3, ClosingBatch(fs, d, f, TenSec, Processes))
    ensures OnlyCloses(o3, |o0|, d, fs, f)
  {
    hide Crosses, Key;
    forall i | |o0| <= i < |o3| && o3[i].Write?
      ensures o3[i].batch.keys == ClosingKeys(fs, d, f, if o3[i].batch.table.MinuteSamples? then OneMin else TenSec)
    {
      if i < |o1| {
        assert o3[i] == o1[i];
      } else if i < |o2| {
        assert o3[i] == o2[i];
      }
    }
  }

  // A prune carries no bucket.
  lemma ClosesPruned(tried: seq<Op>, ops: seq<Op>, from: nat, d: string, fs: seq<Frame>, f: Frame)
    requires OnlyCloses(tried, from, d, fs, f) && tried <= ops && forall i :: |tried| <= i < |ops| ==> ops[i].Prune?
    ensures OnlyCloses(ops, from, d, fs, f)
  {
    forall i | from <= i < |ops| && ops[i].Write?
      ensures ops[i].batch.keys == ClosingKeys(fs, d, f, if ops[i].batch.table.MinuteSamples? then OneMin else TenSec)
    {
      assert i < |tried| && ops[i] == tried[i];
    }
  }

  // Writing an open bucket replaces nothing written since the recording began.
  lemma SealOnlyAdds(table: SampleTable, base: SampleTable, fr: Frames, t: Tier, lost: set<(string, nat)>, cut: nat, table': SampleTable)
    requires SamplesMatch(table, base, fr, t, lost, cut, false) && (table' == table || table' == table + OpenRows(fr, t))
    ensures OnlyAdds(table, table', base)
  {
    hide Complete, RefRow, Key;
    forall k: (string, nat) | k in table && k in OpenRows(fr, t) ensures k in base {
      assert k == (k.0, k.1);
      assert RowOk(table, base, FramesOf(fr, k.0), t, k.0, k.1, lost, cut, false);
      OpenNotComplete(fr, t, k.0, k.1);
    }
  }

  lemma SealOnlyAddsProcs(table: ProcTable, base: ProcTable, fr: Frames, lost: set<(string, nat)>, cut: nat, table': ProcTable)
    requires ProcsMatch(table, base, fr, lost, cut, false) && (table' == table || table' == table + OpenProcs(fr))
    ensures OnlyAdds(table, table', base)
  {
    hide Complete, RefProcs, Key, OpenProcs;
    forall k: (string, nat, nat) | k in table && k in OpenProcs(fr) ensures k in base {
      assert k == (k.0, k.1, k.2);
      OpenSlotRow(fr, k.0, k.1, k.2);
      OpenNotComplete(fr, TenSec, k.0, k.1);
      SlotOnlyBase(table, base, FramesOf(fr, k.0), k.0, k.1, k.2, lost, cut);
    }
  }

  // A slot whose bucket is not complete holds nothing but what was there before.
  lemma SlotOnlyBase(table: ProcTable, base: ProcTable, fs: seq<Frame>, d: string, b: nat, pid: nat, lost: set<(string, nat)>, cut: nat)
    requires SlotOk(table, base, fs, d, b, lost, cut, false) && !Complete(fs, TenSec, b, false) && (d, b, pid) in table
    ensures (d, b, pid) in base
  {
    hide Complete, RefProcs;
  }

  lemma ProcsOnlyAdd(table: ProcTable, base: ProcTable, fr: Frames, d: string, f: Frame, lost: set<(string, nat)>, cut: nat, table': ProcTable)
    requires ProcsMatch(table, base, fr, lost, cut, false)
    requires var fs := FramesOf(fr, d);
      table' == table || (Crosses(fs, f, TenSec) && table' == table + BucketRows(fs, d, Key(fs, TenSec)))
    ensures OnlyAdds(table, table', base)
  {
    hide Complete, RefProcs, Key, SlotOk;
    var fs := FramesOf(fr, d);
    CrossedKeyOpen(fs, f, TenSec);
    forall k: (string, nat, nat) | table' != table && k in table && k in BucketRows(fs, d, Key(fs, TenSec)) ensures k in base {
      assert k == (d, Key(fs, TenSec), k.2);
      SlotOnlyBase(table, base, fs, d, Key(fs, TenSec), k.2, lost, cut);
    }
  }

  // A new account of tables no frame has been observed for.
  lemma StartsOver(s10: SampleTable, s1m: SampleTable, procs: ProcTable, fr: Frames)
    requires forall d: string :: d in fr ==> fr[d] == []
    ensures TablesMatch(s10, s1m, procs, NewLedger(s10, s1m, procs), fr, false)
  {
    hide SamplesMatch, ProcsMatch;
    NothingObserved(s10, procs, fr, TenSec);
    NothingObserved(s1m, procs, fr, OneMin);
  }

  // One frame, a flush, another frame of the same bucket and a flush, on a fresh recorder: the
  // stored row counts one frame although two were observed and no write failed.
  method FlushMidBucket(rec: Recorder, dev: string, f: Frame)
    requires rec.Valid() && rec.frames == map[] && rec.devices == map[]
    requires rec.store.samples10 == map[] && rec.store.samples1m == map[] && rec.store.processes10 == map[]
    requires rec.ledger == NewLedger(map[], map[], map[])
    modifies rec, rec.store
    ensures NoFailureSince(old(rec.ops), rec.ops) ==> FramesAt(rec.store.samples10, dev, BucketOf(f.s.ts, TenSec)) == 1
  {
    hide Recorder.Accounted, Recorder.DevicesHold, Recorder.Faithful, Recorder.Attributed, TablesMatch, SamplesMatch, ProcsMatch;
    hide AllTraced, FramesAt, BucketOf, Crosses, ClosesEmpty, Arrived, FramesOf;
    var first, s1 := ObserveThenFlush(rec, dev, f);
    ghost var two := rec.ops;
    var second, s2 := ObserveThenFlush(rec, dev, f);
    if NoFailureSince(old(rec.ops), rec.ops) {
      FailuresSplit(old(rec.ops), two, rec.ops);
      MidRunFlushLosesAFrame(s1, s2, dev, f);
    }
  }

  // One frame and a flush, by a recorder with no frames since its last flush.
  method ObserveThenFlush(rec: Recorder, dev: string, f: Frame) returns (ghost closing: Ledger, ghost left: SampleTable)
    requires rec.Valid() && rec.ledger == NewLedger(rec.store.samples10, rec.store.samples1m, rec.store.processes10)
    requires forall d :: d in rec.frames ==> d == dev && rec.frames[d] == []
    modifies rec, rec.store, rec.devices.Values
    ensures rec.Valid() && rec.ledger == NewLedger(rec.store.samples10, rec.store.samples1m, rec.store.processes10)
    ensures forall d :: d in rec.frames ==> d == dev && rec.frames[d] == []
    ensures fresh(rec.devices.Values - old(rec.devices).Values)
    ensures left == rec.store.samples10 && old(rec.ops) <= rec.ops
    ensures NoFailureSince(old(rec.ops), rec.ops) ==>
      SamplesMatch(left, old(rec.store.samples10), map[dev := [f]], TenSec, {}, 0, true)
  {
    hide Recorder.Accounted, Recorder.DevicesHold, Recorder.Attributed, Recorder.EmptyWritten, SamplesMatch, ProcsMatch;
    hide AllTraced, LosesExactly, OnlyCloses, CarriesOpen, OnlyAdds, Survives, ProcsSurvive, PrunedEvents;
    hide FramesAt, BucketOf, ClosesEmpty;
    assert FramesOf(rec.frames, dev) == [] && [] + [f] == [f];
    rec.Observe(dev, f);
    assert rec.frames == map[dev := [f]];
    ghost var mid := rec.ops;
    closing := rec.Flush();
    left := rec.store.samples10;
    if NoFailureSince(old(rec.ops), rec.ops) {
      FailuresSplit(old(rec.ops), mid, rec.ops);
    }
  }

  lemma FailuresSplit(a: seq<Op>, b: seq<Op>, c: seq<Op>)
    requires a <= b <= c && NoFailureSince(a, c)
    ensures NoFailureSince(a, b) && NoFailureSince(b, c)
  {
  }

  // ---- a whole recording ----

  // The frames a sequence of calls fed, device by device.
  function Fed(feed: seq<(string, Frame)>): Frames {
    if feed == [] then map[] else Arrived(Fed(feed[..|feed| - 1]), feed[|feed| - 1].0, feed[|feed| - 1].1)
  }

  function FramesFor(feed: seq<(string, Frame)>, d: string): seq<Frame> {
    if feed == [] then []
    else
      var last := feed[|feed| - 1];
      FramesFor(feed[..|feed| - 1], d) + if last.0 == d then [last.1] else []
  }

  lemma {:induction false} FedIsPerDevice(feed: seq<(string, Frame)>, d: string)
    ensures FramesOf(Fed(feed), d) == FramesFor(feed, d)
  {
    if feed != [] {
      FedIsPerDevice(feed[..|feed| - 1], d);
    }
  }

  lemma FedOneMore(feed: seq<(string, Frame)>, i: nat)
    requires i < |feed|
    ensures Fed(feed[..i + 1]) == Arrived(Fed(feed[..i]), feed[i].0, feed[i].1)
    ensures NewestOf(feed[..i + 1]) == MaxNat(NewestOf(feed[..i]), feed[i].1.s.ts)
  {
    assert feed[..i + 1][..i] == feed[..i];
  }

  // Every call succeeded, and nothing was pruned, while the ledger says so.
  ghost predicate CleanSoFar(ops: seq<Op>, l: Ledger) {
    NoFailureSince([], ops) && NoPruneSince([], ops) ==> l == NewLedger(map[], map[], map[])
  }

  lemma CleanStep(before: seq<Op>, l: Ledger, ops: seq<Op>, l': Ledger)
    requires CleanSoFar(before, l) && before <= ops && l'.SameStart(l)
    requires NoFailureSince(before, ops) ==> l'.SameLosses(l)
    requires NoPruneSince(before, ops) ==> l'.SameCuts(l)
    ensures CleanSoFar(ops, l')
  {
    if NoFailureSince([], ops) && NoPruneSince([], ops) {
      forall i | 0 <= i < |before| ensures !Fails(before[i]) && !before[i].Prune? {
        assert before[i] == ops[i];
      }
    }
  }

  // The stored rows of one device count its frames: one row per bucket, in increasing keys, and
  // the counts add up to every frame fed for it.
  ghost predicate CountsEveryFrame(table: SampleTable, feed: seq<(string, Frame)>, t: Tier, d: string) {
    var keys := Keys(FramesFor(feed, d), t);
    && (forall b: nat :: (d, b) in table <==> b in keys)
    && RowTotal(table, d, keys) == |FramesFor(feed, d)|
  }

  lemma SealedCounts(table: SampleTable, feed: seq<(string, Frame)>, t: Tier, d: string)
    requires SamplesMatch(table, map[], Fed(feed), t, {}, 0, true)
    ensures CountsEveryFrame(table, feed, t, d)
  {
    hide SamplesMatch, Keys, RowTotal, Fed, FramesFor;
    SealedCountsEveryFrame(table, Fed(feed), t, d);
    FedIsPerDevice(feed, d);
  }

  // The newest time any frame of any device was observed at.
  function NewestOf(feed: seq<(string, Frame)>): nat {
    if feed == [] then 0 else MaxNat(NewestOf(feed[..|feed| - 1]), feed[|feed| - 1].1.s.ts)
  }

  // What became of every bucket of every device, in both tiers and for the processes.
  ghost predicate EveryFate(s10: SampleTable, s1m: SampleTable, procs: ProcTable, ops: seq<Op>, feed: seq<(string, Frame)>) {
    var kept10, kept1m := SatSub(NewestOf(feed), RETAIN_10S_MS), SatSub(NewestOf(feed), RETAIN_1M_MS);
    forall d: string, b: nat ::
      && BucketFate(s10, ops, FramesFor(feed, d), TenSec, d, b, kept10)
      && BucketFate(s1m, ops, FramesFor(feed, d), OneMin, d, b, kept1m)
      && ProcFate(procs, ops, FramesFor(feed, d), d, b, kept10)
  }

  lemma FatesOfTraced(s10: SampleTable, s1m: SampleTable, procs: ProcTable, ops: seq<Op>, feed: seq<(string, Frame)>, l: Ledger)
    requires TablesMatch(s10, s1m, procs, l, Fed(feed), true) && AllTraced(ops, 0, l, Fed(feed), true)
    requires l.base10 == map[] && l.base1m == map[] && l.baseProcs == map[]
    requires l.cut10 <= SatSub(NewestOf(feed), RETAIN_10S_MS) && l.cut1m <= SatSub(NewestOf(feed), RETAIN_1M_MS)
    ensures EveryFate(s10, s1m, procs, ops, feed)
  {
    hide SamplesMatch, ProcsMatch, Traced, BucketFate, ProcFate, Fed, FramesFor, NewestOf;
    var kept10, kept1m := SatSub(NewestOf(feed), RETAIN_10S_MS), SatSub(NewestOf(feed), RETAIN_1M_MS);
    forall d: string, b: nat
      ensures BucketFate(s10, ops, FramesFor(feed, d), TenSec, d, b, kept10)
      ensures BucketFate(s1m, ops, FramesFor(feed, d), OneMin, d, b, kept1m)
      ensures ProcFate(procs, ops, FramesFor(feed, d), d, b, kept10)
    {
      FedIsPerDevice(feed, d);
      SampleFates(s10, ops, Fed(feed), TenSec, l.lost10, l.cut10, kept10, d, b);
      SampleFates(s1m, ops, Fed(feed), OneMin, l.lost1m, l.cut1m, kept1m, d, b);
      ProcFates(procs, ops, Fed(feed), l.lostProcs, l.cut10, kept10, d, b);
    }
  }

  // A recorder on an empty database, fed any frames of any devices and flushed once. Whatever
  // failed and was pruned on the way, every bucket with frames went into exactly one batch; a
  // bucket within retention has its reference row if and only if that batch did not fail, an
  // older one may have been pruned, and no other row is stored. If nothing failed and no prune
  // ran, the rows of both tiers count every frame exactly once.
  method RecordAll(store: SqliteStore, feed: seq<(string, Frame)>) returns (rec: Recorder)
    requires store.samples10 == map[] && store.samples1m == map[] && store.processes10 == map[]
    modifies store
    ensures fresh(rec) && rec.store == store && rec.Valid()
    ensures EveryFate(store.samples10, store.samples1m, store.processes10, rec.ops, feed)
    ensures NoFailureSince([], rec.ops) && NoPruneSince([], rec.ops) ==>
      forall d: string :: CountsEveryFrame(store.samples10, feed, TenSec, d) && CountsEveryFrame(store.samples1m, feed, OneMin, d)
  {
    hide *;
    rec := FeedAll(store, feed);
    ghost var before, led := rec.ops, rec.ledger;
    ghost var closing := rec.Flush();
    Sealing(before, led, rec.ops, closing);
    StartsAlike(closing, led);
    rec.WithinCuts(true, closing, Fed(feed));
    FatesOfTraced(store.samples10, store.samples1m, store.processes10, rec.ops, feed, closing);
    if NoFailureSince([], rec.ops) && NoPruneSince([], rec.ops) {
      StartsClean();
      rec.SealedTables(closing, Fed(feed));
      forall d: string ensures CountsEveryFrame(store.samples10, feed, TenSec, d) && CountsEveryFrame(store.samples1m, feed, OneMin, d) {
        SealedCounts(store.samples10, feed, TenSec, d);
        SealedCounts(store.samples1m, feed, OneMin, d);
      }
    }
  }

  lemma StartsAlike(closing: Ledger, l: Ledger)
    requires closing.SameStart(l) && l.SameStart(NewLedger(map[], map[], map[]))
    ensures closing.base10 == map[] && closing.base1m == map[] && closing.baseProcs == map[]
  {
  }

  // A flush tries no prune.
  lemma Sealing(before: seq<Op>, l: Ledger, ops: seq<Op>, closing: Ledger)
    requires CleanSoFar(before, l) && before <= ops && closing.SameStart(l) && closing.SameCuts(l)
    requires NoFailureSince(before, ops) ==> closing.SameLosses(l)
    ensures CleanSoFar(ops, closing)
  {
    CleanStep(before, l, ops, closing);
  }

  // The frames, one call after the other.
  method FeedAll(store: SqliteStore, feed: seq<(string, Frame)>) returns (rec: Recorder)
    requires store.samples10 == map[] && store.samples1m == map[] && store.processes10 == map[]
    modifies store
    ensures fresh(rec) && fresh(rec.devices.Values) && rec.store == store && rec.Valid()
    ensures rec.frames == Fed(feed) && CleanSoFar(rec.ops, rec.ledger) && rec.newestTs == NewestOf(feed)
    ensures rec.mark == 0 && rec.ledger.SameStart(NewLedger(map[], map[], map[]))
  {
    hide *;
    rec := new Recorder(store);
    StartsClean();
    for i := 0 to |feed|
      invariant fresh(rec) && fresh(rec.devices.Values) && rec.store == store && rec.Valid()
      invariant rec.frames == Fed(feed[..i]) && CleanSoFar(rec.ops, rec.ledger) && rec.newestTs == NewestOf(feed[..i])
      invariant rec.mark == 0 && rec.ledger.SameStart(NewLedger(map[], map[], map[]))
    {
      ghost var before, led := rec.ops, rec.ledger;
      FedOneMore(feed, i);
      rec.Observe(feed[i].0, feed[i].1);
      CleanStep(before, led, rec.ops, rec.ledger);
      StillSameStart(rec.ledger, led, NewLedger(map[], map[], map[]));
    }
    assert feed[..|feed|] == feed;
  }

  lemma StartsClean()
    ensures CleanSoFar([], NewLedger(map[], map[], map[])) && Fed([]) == map[] && NewestOf([]) == 0
    ensures NewLedger(map[], map[], map[]).SameStart(NewLedger(map[], map[], map[]))
  {
  }

  lemma StillSameStart(a: Ledger, b: Ledger, c: Ledger)
    requires a.SameStart(b) && b.SameStart(c)
    ensures a.SameStart(c)
  {
  }

  lemma NothingOpen()
    ensures OpenRows(map[], TenSec) == map[] && OpenRows(map[], OneMin) == map[] && OpenProcs(map[]) == map[]
  {
    assert OpenKeys(map[], TenSec) == {} && OpenKeys(map[], OneMin) == {} && OpenProcKeys(map[]) == {};
  }

  // The rows of a device's open process bucket are that bucket's reference rows.
  lemma ClosedProcs(fs: seq<Frame>, d: string)
    requires fs != []
    ensures Keyed(d, Key(fs, TenSec), ProcRows(OpenProcesses(fs).acc)) == BucketRows(fs, d, Key(fs, TenSec))
  {
  }

  lemma OneMoreDevice(fr: Frames, d: string, fs: seq<Frame>, t: Tier)
    requires d !in fr
    ensures fs == [] ==> OpenRows(fr[d := fs], t) == OpenRows(fr, t)
    ensures fs != [] ==> OpenRows(fr[d := fs], t) == OpenRows(fr, t)[(d, Key(fs, t)) := RefRow(fs, t, Key(fs, t))]
  {
    hide Key, RefRow, OpenKeys;
    var fr' := fr[d := fs];
    forall e: string, b: nat
      ensures (e, b) in OpenKeys(fr', t) <==> (e, b) in OpenKeys(fr, t) || (e == d && fs != [] && b == Key(fs, t))
      ensures (e, b) in OpenKeys(fr, t) ==> e in fr && fr[e] != []
    {
      OpenKeysAre(fr, t, e, b);
      OpenKeysAre(fr', t, e, b);
    }
  }

  lemma OneMoreDeviceProcs(fr: Frames, d: string, fs: seq<Frame>)
    requires d !in fr
    ensures fs == [] ==> OpenProcs(fr[d := fs]) == OpenProcs(fr)
    ensures fs != [] ==> OpenProcs(fr[d := fs]) == OpenProcs(fr) + BucketRows(fs, d, Key(fs, TenSec))
  {
    hide Key, RefProcs, OpenProcKeys, OpenProcs, BucketRows;
    var fr' := fr[d := fs];
    var before, after := OpenProcs(fr), OpenProcs(fr');
    var added := if fs == [] then map[] else BucketRows(fs, d, Key(fs, TenSec));
    forall k: (string, nat, nat)
      ensures k in after <==> k in before || k in added
      ensures k in after ==> after[k] == if k in added then added[k] else before[k]
    {
      OpenProcAt(fr, k);
      OpenProcAt(fr', k);
      if fs != [] {
        BucketRowAt(fs, d, Key(fs, TenSec), k);
      }
    }
    assert after == before + added;
  }

  lemma OpenProcAt(fr: Frames, k: (string, nat, nat))
    ensures k in OpenProcs(fr) <==> k.0 in fr && fr[k.0] != [] && k.1 == Key(fr[k.0], TenSec) && k.2 in RefProcs(fr[k.0], k.1)
    ensures k in OpenProcs(fr) ==> OpenProcs(fr)[k] == RefProcs(fr[k.0], k.1)[k.2]
  {
    hide Key, RefProcs;
    OpenProcKeysAre(fr, k.0, k.1, k.2);
  }

  lemma BucketRowAt(fs: seq<Frame>, d: string, b: nat, k: (string, nat, nat))
    ensures k in BucketRows(fs, d, b) <==> k.0 == d && k.1 == b && k.2 in RefProcs(fs, b)
    ensures k in BucketRows(fs, d, b) ==> BucketRows(fs, d, b)[k] == RefProcs(fs, b)[k.2]
  {
    hide RefProcs;
  }

  lemma {:induction false} UpsertProcsConcat(table: ProcTable, a: seq<ProcRollup>, b: seq<ProcRollup>)
    ensures UpsertProcs(table, a + b) == UpsertProcs(UpsertProcs(table, a), b)
  {
    if b == [] {
      assert a + b == a;
    } else {
      UpsertProcsConcat(table, a, b[..|b| - 1]);
      assert (a + b)[..|a + b| - 1] == a + b[..|b| - 1];
    }
  }
}
