/** The append-only event log (crates/history/src/store.rs:669-694, 883-907, 938-975,
    1127-1201) as a sequence of rows in insertion (id) order. */
module EventLog {
  import opened Base

  datatype EventRow = EventRow(ts: nat, device: string, kind: string, severity: string, confidence: string,
                               title: string, evidence: string)

  datatype EventKey = EventKey(ts: nat, device: string, kind: string, title: string)

  // What makes two rows the same narration: the columns of the unique index.
  function KeyOf(e: EventRow): EventKey {
    EventKey(e.ts, e.device, e.kind, e.title)
  }

  predicate HasKey(log: seq<EventRow>, k: EventKey) {
    exists i :: 0 <= i < |log| && KeyOf(log[i]) == k
  }

  // Two rows tell the same: time, device, kind and title agree.
  predicate SameNarration(a: EventRow, b: EventRow) {
    a.ts == b.ts && a.device == b.device && a.kind == b.kind && a.title == b.title
  }

  ghost predicate UniqueKeys(log: seq<EventRow>) {
    forall i, j :: 0 <= i < j < |log| ==> !SameNarration(log[i], log[j])
  }

  ghost predicate Represented(log: seq<EventRow>, e: EventRow) {
    exists i :: 0 <= i < |log| && SameNarration(log[i], e)
  }

  lemma SameIsKey(a: EventRow, b: EventRow)
    ensures SameNarration(a, b) <==> KeyOf(a) == KeyOf(b)
  {
  }

  lemma RepresentedIsKeyed(log: seq<EventRow>, e: EventRow)
    ensures Represented(log, e) <==> HasKey(log, KeyOf(e))
  {
    forall i | 0 <= i < |log| ensures SameNarration(log[i], e) <==> KeyOf(log[i]) == KeyOf(e) {
    }
  }

  // INSERT OR IGNORE of one row.
  function InsertOne(log: seq<EventRow>, e: EventRow): seq<EventRow> {
    if HasKey(log, KeyOf(e)) then log else log + [e]
  }

  function InsertAll(log: seq<EventRow>, rows: seq<EventRow>): seq<EventRow> {
    if rows == [] then log else InsertOne(InsertAll(log, rows[..|rows| - 1]), rows[|rows| - 1])
  }

  function InsertBatches(log: seq<EventRow>, batches: seq<seq<EventRow>>): seq<EventRow> {
    if batches == [] then log else InsertAll(InsertBatches(log, batches[..|batches| - 1]), batches[|batches| - 1])
  }

  function Flatten(batches: seq<seq<EventRow>>): seq<EventRow> {
    if batches == [] then [] else Flatten(batches[..|batches| - 1]) + batches[|batches| - 1]
  }

  // Row i is the first narration of its key.
  predicate IsFirst(rows: seq<EventRow>, i: nat)
    requires i < |rows|
  {
    forall j :: 0 <= j < i ==> !SameNarration(rows[j], rows[i])
  }

  // The rows among the first n that are the first of their key, in order.
  function FirstOfEach(rows: seq<EventRow>, n: nat): seq<EventRow>
    requires n <= |rows|
  {
    if n == 0 then [] else FirstOfEach(rows, n - 1) + (if IsFirst(rows, n - 1) then [rows[n - 1]] else [])
  }

  lemma {:induction false} InsertKeepsKeys(rows: seq<EventRow>, k: EventKey)
    ensures HasKey(InsertAll([], rows), k) <==> HasKey(rows, k)
    ensures UniqueKeys(InsertAll([], rows))
    ensures forall i :: 0 <= i < |InsertAll([], rows)| ==> InsertAll([], rows)[i] in rows
  {
    if rows != [] {
      var front, last := rows[..|rows| - 1], rows[|rows| - 1];
      InsertKeepsKeys(front, k);
      InsertKeepsKeys(front, KeyOf(last));
      var log := InsertAll([], front);
      assert rows == front + [last];
      if HasKey(rows, k) {
        var i :| 0 <= i < |rows| && KeyOf(rows[i]) == k;
        if i < |front| {
          assert KeyOf(front[i]) == k;
          var j :| 0 <= j < |log| && KeyOf(log[j]) == k;
          assert InsertAll([], rows)[j] == log[j];
        } else if !HasKey(log, KeyOf(last)) {
          assert InsertAll([], rows)[|log|] == last;
        }
      }
      if HasKey(log, k) {
        var i :| 0 <= i < |front| && KeyOf(front[i]) == k;
        assert KeyOf(rows[i]) == k;
      }
      assert KeyOf(rows[|front|]) == KeyOf(last);
    }
  }

  lemma {:induction false} FirstOfEachPrefix(rows: seq<EventRow>, e: EventRow, n: nat)
    requires n <= |rows|
    ensures FirstOfEach(rows + [e], n) == FirstOfEach(rows, n)
  {
    if n > 0 {
      FirstOfEachPrefix(rows, e, n - 1);
      var all := rows + [e];
      assert forall j :: 0 <= j < |rows| ==> all[j] == rows[j];
      assert IsFirst(all, n - 1) <==> IsFirst(rows, n - 1);
    }
  }

  // Whatever was offered, an initially empty log holds exactly the first row of each key, in
  // the order they came.
  lemma {:induction false} LogHoldsFirstOfEach(rows: seq<EventRow>)
    ensures InsertAll([], rows) == FirstOfEach(rows, |rows|)
  {
    if rows != [] {
      var front, last := rows[..|rows| - 1], rows[|rows| - 1];
      assert rows == front + [last];
      LogHoldsFirstOfEach(front);
      FirstOfEachPrefix(front, last, |front|);
      InsertKeepsKeys(front, KeyOf(last));
      assert IsFirst(rows, |front|) <==> !HasKey(front, KeyOf(last)) by {
        assert forall j :: 0 <= j < |front| ==> rows[j] == front[j];
      }
    }
  }

  lemma {:induction false} InsertInTwoParts(log: seq<EventRow>, a: seq<EventRow>, b: seq<EventRow>)
    ensures InsertAll(log, a + b) == InsertAll(InsertAll(log, a), b)
  {
    if b == [] {
      assert a + b == a;
    } else {
      InsertInTwoParts(log, a, b[..|b| - 1]);
      assert (a + b)[..|a + b| - 1] == a + b[..|b| - 1];
    }
  }

  // The log converges: however the rows are split into batches, and however often a batch is
  // replayed, the log is the first row of each key of everything offered.
  lemma {:induction false} BatchesConverge(batches: seq<seq<EventRow>>)
    ensures InsertBatches([], batches) == FirstOfEach(Flatten(batches), |Flatten(batches)|)
  {
    BatchesFlatten(batches);
    LogHoldsFirstOfEach(Flatten(batches));
  }

  lemma {:induction false} BatchesFlatten(batches: seq<seq<EventRow>>)
    ensures InsertBatches([], batches) == InsertAll([], Flatten(batches))
  {
    if batches != [] {
      var front := batches[..|batches| - 1];
      BatchesFlatten(front);
      InsertInTwoParts([], Flatten(front), batches[|batches| - 1]);
    }
  }

  // Inserting rows keeps every stored row where it is, adds only offered rows that agree with no
  // stored one, and leaves every offered row represented.
  lemma {:induction false} InsertInColumns(log: seq<EventRow>, rows: seq<EventRow>)
    ensures var after := InsertAll(log, rows);
      && log <= after && (UniqueKeys(log) ==> UniqueKeys(after))
      && (forall e :: e in rows ==> Represented(after, e))
      && (forall i :: |log| <= i < |after| ==> after[i] in rows && !Represented(log, after[i]))
  {
    if rows != [] {
      var front, last := rows[..|rows| - 1], rows[|rows| - 1];
      assert rows == front + [last];
      InsertInColumns(log, front);
      OneInColumns(InsertAll(log, front), last);
      forall e | e in rows ensures Represented(InsertAll(log, rows), e) {
        if e in front {
          StillRepresented(InsertAll(log, front), InsertAll(log, rows), e);
        }
      }
      if Represented(log, last) {
        StillRepresented(log, InsertAll(log, front), last);
      }
    }
  }

  // A row is ignored if a stored one agrees in time, device, kind and title, and appended if not.
  lemma OneInColumns(log: seq<EventRow>, e: EventRow)
    ensures InsertOne(log, e) == if Represented(log, e) then log else log + [e]
    ensures Represented(InsertOne(log, e), e)
    ensures UniqueKeys(log) ==> UniqueKeys(InsertOne(log, e))
  {
    RepresentedIsKeyed(log, e);
    if !Represented(log, e) {
      assert SameNarration((log + [e])[|log|], e);
    }
  }

  lemma StillRepresented(log: seq<EventRow>, after: seq<EventRow>, e: EventRow)
    requires log <= after && Represented(log, e)
    ensures Represented(after, e)
  {
    var i :| 0 <= i < |log| && SameNarration(log[i], e);
    assert SameNarration(after[i], e);
  }

  // Some stored row stands for each of two narrations, and not the same one.
  ghost predicate KeptApart(log: seq<EventRow>, e: EventRow, f: EventRow) {
    exists i, j :: 0 <= i < |log| && 0 <= j < |log| && i != j && SameNarration(log[i], e) && SameNarration(log[j], f)
  }

  lemma RepresentedApart(log: seq<EventRow>, e: EventRow, f: EventRow)
    requires Represented(log, e) && Represented(log, f) && !SameNarration(e, f)
    ensures KeptApart(log, e, f)
  {
    var i :| 0 <= i < |log| && SameNarration(log[i], e);
    var j :| 0 <= j < |log| && SameNarration(log[j], f);
  }

  // What a log says of everything ever offered to it: every narration is there, once; two that
  // differ in time, device, kind or title are both there; and it holds nothing else.
  ghost predicate TellsEachOnce(log: seq<EventRow>, offered: seq<EventRow>) {
    && (forall e :: e in offered ==> Represented(log, e)) && UniqueKeys(log)
    && (forall e, f :: e in offered && f in offered && !SameNarration(e, f) ==> KeptApart(log, e, f))
    && forall i :: 0 <= i < |log| ==> log[i] in offered
  }

  lemma InsertedTellsEachOnce(rows: seq<EventRow>)
    ensures TellsEachOnce(InsertAll([], rows), rows)
  {
    InsertInColumns([], rows);
    forall e, f | e in rows && f in rows && !SameNarration(e, f) ensures KeptApart(InsertAll([], rows), e, f) {
      RepresentedApart(InsertAll([], rows), e, f);
    }
  }

  // However rows are batched and replayed.
  lemma BatchesTellEachOnce(batches: seq<seq<EventRow>>)
    ensures TellsEachOnce(InsertBatches([], batches), Flatten(batches))
  {
    BatchesFlatten(batches);
    InsertedTellsEachOnce(Flatten(batches));
  }

  lemma {:induction false} ReplayIsNoOp(log: seq<EventRow>, rows: seq<EventRow>)
    requires forall i :: 0 <= i < |rows| ==> HasKey(log, KeyOf(rows[i]))
    ensures InsertAll(log, rows) == log
  {
    if rows != [] {
      ReplayIsNoOp(log, rows[..|rows| - 1]);
    }
  }

  // ---- the v1 -> v2 migration: keep the smallest id of each key, delete the rest ----

  // Row i survives `DELETE ... WHERE id NOT IN (SELECT MIN(id) ... GROUP BY key)`.
  predicate HasMinId(rows: seq<EventRow>, i: nat)
    requires i < |rows|
  {
    forall j :: 0 <= j < |rows| && KeyOf(rows[j]) == KeyOf(rows[i]) ==> i <= j
  }

  function Surviving(rows: seq<EventRow>, n: nat): seq<EventRow>
    requires n <= |rows|
  {
    if n == 0 then [] else Surviving(rows, n - 1) + (if HasMinId(rows, n - 1) then [rows[n - 1]] else [])
  }

  function Migrated(rows: seq<EventRow>): seq<EventRow> {
    Surviving(rows, |rows|)
  }

  lemma {:induction false} SurvivorsAreFirsts(rows: seq<EventRow>, n: nat)
    requires n <= |rows|
    ensures Surviving(rows, n) == FirstOfEach(rows, n)
  {
    if n > 0 {
      SurvivorsAreFirsts(rows, n - 1);
      assert HasMinId(rows, n - 1) <==> IsFirst(rows, n - 1);
    }
  }

  // Migrating an old log equals re-inserting its rows, in order, into an empty one.
  lemma MigrationIsReinsertion(rows: seq<EventRow>)
    ensures Migrated(rows) == InsertAll([], rows)
    ensures UniqueKeys(Migrated(rows))
  {
    SurvivorsAreFirsts(rows, |rows|);
    LogHoldsFirstOfEach(rows);
    forall k { InsertKeepsKeys(rows, k); }
    if rows != [] { InsertKeepsKeys(rows, KeyOf(rows[0])); }
  }

  // So the migration loses no narration and keeps each once.
  lemma MigratedTellsEachOnce(rows: seq<EventRow>)
    ensures TellsEachOnce(Migrated(rows), rows)
  {
    MigrationIsReinsertion(rows);
    InsertedTellsEachOnce(rows);
  }

  // Migrating twice is migrating once.
  lemma MigrationIdempotent(rows: seq<EventRow>)
    ensures Migrated(Migrated(rows)) == Migrated(rows)
  {
    MigrationIsReinsertion(rows);
    MigrationIsReinsertion(Migrated(rows));
    LogHoldsFirstOfEach(Migrated(rows));
    AlreadyUnique(Migrated(rows), |Migrated(rows)|);
  }

  lemma {:induction false} AlreadyUnique(rows: seq<EventRow>, n: nat)
    requires UniqueKeys(rows) && n <= |rows|
    ensures FirstOfEach(rows, n) == rows[..n]
  {
    if n > 0 {
      AlreadyUnique(rows, n - 1);
      assert rows[..n] == rows[..n - 1] + [rows[n - 1]];
    }
  }

  // ---- windowed reading and export ----

  function Window(rows: seq<EventRow>, from: nat, to: nat): seq<EventRow> {
    if rows == [] then []
    else
      var last := rows[|rows| - 1];
      Window(rows[..|rows| - 1], from, to) + (if from <= last.ts <= to then [last] else [])
  }

  // Place a row behind every row with the same or an earlier timestamp.
  function Place(sorted: seq<EventRow>, e: EventRow): seq<EventRow> {
    if sorted == [] || sorted[|sorted| - 1].ts <= e.ts then sorted + [e]
    else Place(sorted[..|sorted| - 1], e) + [sorted[|sorted| - 1]]
  }

  // ORDER BY ts_ms ASC, id ASC
  function ByTime(rows: seq<EventRow>): seq<EventRow> {
    if rows == [] then [] else Place(ByTime(rows[..|rows| - 1]), rows[|rows| - 1])
  }

  const KINDS: set<string> := {
    "throttle_start", "throttle_end", "process_attached", "process_exited", "vram_pressure", "idle_gap",
    "collector_stall", "history_reset", "hang_suspected", "device_lost", "device_returned", "cpu_spillover",
    "recording_started", "recording_stopped", "recording_degraded" }
  const SEVERITIES: set<string> := { "info", "warning", "critical" }
  const CONFIDENCES: set<string> := { "fact", "likely" }

  predicate Parses(e: EventRow) {
    e.kind in KINDS && e.severity in SEVERITIES && e.confidence in CONFIDENCES
  }

  // Reading drops a row whose enum tokens are unknown rather than failing the query.
  function Parsed(rows: seq<EventRow>): seq<EventRow> {
    if rows == [] then []
    else Parsed(rows[..|rows| - 1]) + (if Parses(rows[|rows| - 1]) then [rows[|rows| - 1]] else [])
  }

  // `events_between`
  function EventsBetween(rows: seq<EventRow>, from: nat, to: nat): seq<EventRow> {
    Parsed(ByTime(Window(rows, from, to)))
  }

  // The event part of `copy_window`: the source window in time order, inserted or ignored
  // into a fresh file.
  function Exported(rows: seq<EventRow>, from: nat, to: nat): seq<EventRow> {
    InsertAll([], ByTime(Window(rows, from, to)))
  }

  // A row of a kind, severity and confidence the engine writes.
  predicate Known(e: EventRow) {
    && (|| e.kind == "throttle_start" || e.kind == "throttle_end" || e.kind == "process_attached" || e.kind == "process_exited"
        || e.kind == "vram_pressure" || e.kind == "idle_gap" || e.kind == "collector_stall" || e.kind == "history_reset"
        || e.kind == "hang_suspected" || e.kind == "device_lost" || e.kind == "device_returned" || e.kind == "cpu_spillover"
        || e.kind == "recording_started" || e.kind == "recording_stopped" || e.kind == "recording_degraded")
    && (e.severity == "info" || e.severity == "warning" || e.severity == "critical")
    && (e.confidence == "fact" || e.confidence == "likely")
  }

  lemma {:induction false} WindowCounts(rows: seq<EventRow>, from: nat, to: nat, e: EventRow)
    ensures multiset(Window(rows, from, to))[e] == if from <= e.ts <= to then multiset(rows)[e] else 0
  {
    if rows != [] {
      WindowCounts(rows[..|rows| - 1], from, to, e);
      assert rows == rows[..|rows| - 1] + [rows[|rows| - 1]];
    }
  }

  lemma {:induction false} PlaceCounts(sorted: seq<EventRow>, e: EventRow)
    ensures multiset(Place(sorted, e)) == multiset(sorted) + multiset{e}
  {
    if sorted != [] && sorted[|sorted| - 1].ts > e.ts {
      PlaceCounts(sorted[..|sorted| - 1], e);
      assert sorted == sorted[..|sorted| - 1] + [sorted[|sorted| - 1]];
    }
  }

  lemma {:induction false} ByTimeCounts(rows: seq<EventRow>)
    ensures multiset(ByTime(rows)) == multiset(rows)
  {
    if rows != [] {
      ByTimeCounts(rows[..|rows| - 1]);
      PlaceCounts(ByTime(rows[..|rows| - 1]), rows[|rows| - 1]);
      assert rows == rows[..|rows| - 1] + [rows[|rows| - 1]];
    }
  }

  lemma {:induction false} ParsedCounts(rows: seq<EventRow>, e: EventRow)
    ensures multiset(Parsed(rows))[e] == if Known(e) then multiset(rows)[e] else 0
  {
    hide Parses, Known;
    if rows != [] {
      var last := rows[|rows| - 1];
      ParsedCounts(rows[..|rows| - 1], e);
      ParsesKnown(last);
      assert rows == rows[..|rows| - 1] + [last];
    }
  }

  lemma ParsesKnown(e: EventRow)
    ensures Parses(e) <==> Known(e)
  {
  }

  // Reading a window gives back every known row inside it, as often as it is stored, and no
  // other.
  lemma ReadsBack(rows: seq<EventRow>, from: nat, to: nat, e: EventRow)
    ensures multiset(EventsBetween(rows, from, to))[e] == if from <= e.ts <= to && Known(e) then multiset(rows)[e] else 0
  {
    hide Known;
    ParsedCounts(ByTime(Window(rows, from, to)), e);
    ByTimeCounts(Window(rows, from, to));
    WindowCounts(rows, from, to, e);
  }

  ghost predicate Sorted(rows: seq<EventRow>) {
    forall i, j :: 0 <= i <= j < |rows| ==> rows[i].ts <= rows[j].ts
  }

  function AtTime(rows: seq<EventRow>, t: nat): seq<EventRow> {
    if rows == [] then []
    else AtTime(rows[..|rows| - 1], t) + (if rows[|rows| - 1].ts == t then [rows[|rows| - 1]] else [])
  }

  lemma {:induction false} AtTimeSnoc(rows: seq<EventRow>, e: EventRow, t: nat)
    ensures AtTime(rows + [e], t) == AtTime(rows, t) + (if e.ts == t then [e] else [])
  {
    assert (rows + [e])[..|rows|] == rows;
  }

  lemma {:induction false} PlaceKeepsOrder(sorted: seq<EventRow>, e: EventRow)
    requires Sorted(sorted)
    ensures Sorted(Place(sorted, e)) && |Place(sorted, e)| == |sorted| + 1
    ensures forall i :: 0 <= i < |Place(sorted, e)| ==> Place(sorted, e)[i] in sorted || Place(sorted, e)[i] == e
  {
    if sorted != [] && sorted[|sorted| - 1].ts > e.ts {
      var front, last := sorted[..|sorted| - 1], sorted[|sorted| - 1];
      PlaceKeepsOrder(front, e);
      var placed := Place(front, e);
      forall i | 0 <= i < |placed| ensures placed[i].ts <= last.ts {
        assert placed[i] in front || placed[i] == e;
      }
    }
  }

  lemma {:induction false} PlaceIsStable(sorted: seq<EventRow>, e: EventRow, t: nat)
    requires Sorted(sorted)
    ensures AtTime(Place(sorted, e), t) == AtTime(sorted, t) + (if e.ts == t then [e] else [])
  {
    if sorted == [] || sorted[|sorted| - 1].ts <= e.ts {
      AtTimeSnoc(sorted, e, t);
    } else {
      var front, last := sorted[..|sorted| - 1], sorted[|sorted| - 1];
      assert sorted == front + [last];
      assert Place(sorted, e) == Place(front, e) + [last];
      PlaceIsStable(front, e, t);
      hide AtTime, Place, Sorted;
      AtTimeSnoc(Place(front, e), last, t);
      AtTimeSnoc(front, last, t);
    }
  }

  // Reading order is sorted by time, and rows of one instant stay in insertion order.
  lemma {:induction false} ByTimeIsStableSort(rows: seq<EventRow>, t: nat)
    ensures Sorted(ByTime(rows)) && |ByTime(rows)| == |rows|
    ensures AtTime(ByTime(rows), t) == AtTime(rows, t)
  {
    if rows != [] {
      var front, last := rows[..|rows| - 1], rows[|rows| - 1];
      assert rows == front + [last];
      ByTimeIsStableSort(front, t);
      PlaceKeepsOrder(ByTime(front), last);
      PlaceIsStable(ByTime(front), last, t);
      AtTimeSnoc(front, last, t);
    }
  }

  // ---- de-duplication commutes with windowing and with sorting ----

  function Deduped(rows: seq<EventRow>): seq<EventRow> {
    InsertAll([], rows)
  }

  lemma DedupedSnoc(rows: seq<EventRow>, e: EventRow)
    ensures Deduped(rows + [e]) == if HasKey(rows, KeyOf(e)) then Deduped(rows) else Deduped(rows) + [e]
  {
    assert (rows + [e])[..|rows|] == rows;
    InsertKeepsKeys(rows, KeyOf(e));
  }

  lemma WindowSnoc(rows: seq<EventRow>, e: EventRow, from: nat, to: nat)
    ensures Window(rows + [e], from, to) == if from <= e.ts <= to then Window(rows, from, to) + [e] else Window(rows, from, to)
  {
    assert (rows + [e])[..|rows|] == rows;
  }

  lemma {:induction false} WindowKeys(rows: seq<EventRow>, from: nat, to: nat, k: EventKey)
    ensures HasKey(Window(rows, from, to), k) <==> HasKey(rows, k) && from <= k.ts <= to
  {
    hide HasKey;
    if rows == [] {
      assert !HasKey([], k) by { NoKeys(k); }
    } else {
      var front, last := rows[..|rows| - 1], rows[|rows| - 1];
      WindowKeys(front, from, to, k);
      WindowSnoc(front, last, from, to);
      HasKeySnoc(front, last, k);
      HasKeySnoc(Window(front, from, to), last, k);
      assert rows == front + [last];
    }
  }

  lemma NoKeys(k: EventKey)
    ensures !HasKey([], k)
  {
  }

  lemma HasKeySnoc(rows: seq<EventRow>, e: EventRow, k: EventKey)
    ensures HasKey(rows + [e], k) <==> HasKey(rows, k) || KeyOf(e) == k
  {
    if HasKey(rows, k) {
      var i :| 0 <= i < |rows| && KeyOf(rows[i]) == k;
      assert KeyOf((rows + [e])[i]) == k;
    }
    assert (rows + [e])[|rows|] == e;
  }

  lemma {:induction false} DedupeThenWindow(rows: seq<EventRow>, from: nat, to: nat)
    ensures Window(Deduped(rows), from, to) == Deduped(Window(rows, from, to))
  {
    hide Window, Deduped, HasKey;
    if rows == [] {
      NothingToWindow(from, to);
    } else {
      var front, last := rows[..|rows| - 1], rows[|rows| - 1];
      assert rows == front + [last];
      DedupeThenWindow(front, from, to);
      DedupedSnoc(front, last);
      WindowSnoc(front, last, from, to);
      WindowSnoc(Deduped(front), last, from, to);
      DedupedSnoc(Window(front, from, to), last);
      WindowKeys(front, from, to, KeyOf(last));
    }
  }

  lemma NothingToWindow(from: nat, to: nat)
    ensures Window([], from, to) == [] && Deduped([]) == [] && ByTime([]) == []
  {
  }

  lemma {:induction false} PlaceKeys(rows: seq<EventRow>, e: EventRow, k: EventKey)
    ensures HasKey(Place(rows, e), k) <==> HasKey(rows, k) || KeyOf(e) == k
  {
    hide HasKey;
    if rows == [] || rows[|rows| - 1].ts <= e.ts {
      HasKeySnoc(rows, e, k);
    } else {
      var front, last := rows[..|rows| - 1], rows[|rows| - 1];
      PlaceKeys(front, e, k);
      HasKeySnoc(front, last, k);
      HasKeySnoc(Place(front, e), last, k);
      assert rows == front + [last];
    }
  }

  lemma {:induction false} ByTimeKeys(rows: seq<EventRow>, k: EventKey)
    ensures HasKey(ByTime(rows), k) <==> HasKey(rows, k)
  {
    hide HasKey;
    if rows != [] {
      var front, last := rows[..|rows| - 1], rows[|rows| - 1];
      ByTimeKeys(front, k);
      PlaceKeys(ByTime(front), last, k);
      HasKeySnoc(front, last, k);
      assert rows == front + [last];
    }
  }

  lemma DedupedEndsBy(rows: seq<EventRow>, t: nat)
    requires forall i :: 0 <= i < |rows| ==> rows[i].ts <= t
    ensures Deduped(rows) != [] ==> Deduped(rows)[|Deduped(rows)| - 1].ts <= t
  {
    InsertKeepsKeys(rows, EventKey(0, "", "", ""));
    if Deduped(rows) != [] {
      var last := Deduped(rows)[|Deduped(rows)| - 1];
      assert last in rows;
    }
  }

  // Placing a row into a sorted log and de-duplicating is de-duplicating and placing it,
  // unless its key is there already: rows of one key share one timestamp.
  lemma {:induction false} DedupePlaced(z: seq<EventRow>, e: EventRow)
    requires Sorted(z)
    ensures Deduped(Place(z, e)) == if HasKey(z, KeyOf(e)) then Deduped(z) else Place(Deduped(z), e)
  {
    hide HasKey, Deduped;
    if z == [] || z[|z| - 1].ts <= e.ts {
      DedupedSnoc(z, e);
      DedupedEndsBy(z, e.ts);
    } else {
      var front, last := z[..|z| - 1], z[|z| - 1];
      assert z == front + [last];
      DedupePlaced(front, e);
      DedupedSnoc(Place(front, e), last);
      PlaceKeys(front, e, KeyOf(last));
      DedupedSnoc(front, last);
      HasKeySnoc(front, last, KeyOf(e));
      if !HasKey(front, KeyOf(last)) {
        PlaceBeforeLast(Deduped(front), last, e);
      }
    }
  }

  lemma PlaceBeforeLast(rows: seq<EventRow>, last: EventRow, e: EventRow)
    requires last.ts > e.ts
    ensures Place(rows + [last], e) == Place(rows, e) + [last]
  {
    assert (rows + [last])[..|rows|] == rows;
  }

  lemma {:induction false} DedupeThenSort(rows: seq<EventRow>)
    ensures ByTime(Deduped(rows)) == Deduped(ByTime(rows))
  {
    hide HasKey, Deduped, Place;
    if rows == [] {
      NothingToWindow(0, 0);
    } else {
      var front, last := rows[..|rows| - 1], rows[|rows| - 1];
      assert rows == front + [last];
      DedupeThenSort(front);
      DedupedSnoc(front, last);
      ByTimeIsStableSort(front, 0);
      DedupePlaced(ByTime(front), last);
      ByTimeKeys(front, KeyOf(last));
      assert (Deduped(front) + [last])[..|Deduped(front)|] == Deduped(front);
    }
  }

  lemma {:induction false} SortedIsFixed(rows: seq<EventRow>)
    requires Sorted(rows)
    ensures ByTime(rows) == rows
  {
    if rows != [] {
      SortedIsFixed(rows[..|rows| - 1]);
    }
  }

  lemma {:induction false} InsideIsFixed(rows: seq<EventRow>, from: nat, to: nat)
    requires forall i :: 0 <= i < |rows| ==> from <= rows[i].ts <= to
    ensures Window(rows, from, to) == rows
  {
    if rows != [] {
      InsideIsFixed(rows[..|rows| - 1], from, to);
    }
  }

  lemma {:induction false} WindowInside(rows: seq<EventRow>, from: nat, to: nat)
    ensures forall i :: 0 <= i < |Window(rows, from, to)| ==> from <= Window(rows, from, to)[i].ts <= to
  {
    if rows != [] {
      WindowInside(rows[..|rows| - 1], from, to);
    }
  }

  // Exporting a log that was never migrated and reading the export back gives what migrating
  // the log first and reading the same window gives.
  lemma ExportEqualsMigrateThenRead(rows: seq<EventRow>, from: nat, to: nat)
    ensures EventsBetween(Exported(rows, from, to), from, to) == EventsBetween(Migrated(rows), from, to)
  {
    hide Window, ByTime, Parsed, InsertAll, Migrated;
    var w := Window(rows, from, to);
    MigrationIsReinsertion(rows);
    DedupeThenWindow(rows, from, to);
    DedupeThenSort(w);
    assert Exported(rows, from, to) == ByTime(Deduped(w));
    ByTimeIsStableSort(Deduped(w), 0);
    WindowInside(Deduped(rows), from, to);
    InsideStaysSorted(Deduped(w), from, to);
    SortedIsFixed(ByTime(Deduped(w)));
    InsideIsFixed(ByTime(Deduped(w)), from, to);
  }

  lemma {:induction false} PlaceMembers(sorted: seq<EventRow>, e: EventRow)
    ensures forall x :: x in Place(sorted, e) ==> x in sorted || x == e
  {
    if sorted != [] && sorted[|sorted| - 1].ts > e.ts {
      PlaceMembers(sorted[..|sorted| - 1], e);
    }
  }

  lemma {:induction false} InsideStaysSorted(rows: seq<EventRow>, from: nat, to: nat)
    requires forall i :: 0 <= i < |rows| ==> from <= rows[i].ts <= to
    ensures forall i :: 0 <= i < |ByTime(rows)| ==> from <= ByTime(rows)[i].ts <= to
  {
    if rows != [] {
      InsideStaysSorted(rows[..|rows| - 1], from, to);
      PlaceMembers(ByTime(rows[..|rows| - 1]), rows[|rows| - 1]);
      forall i | 0 <= i < |ByTime(rows)| ensures from <= ByTime(rows)[i].ts <= to {
        assert ByTime(rows)[i] in ByTime(rows);
      }
    }
  }
}
