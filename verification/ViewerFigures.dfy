/** The app's windows and cursor moves in milliseconds (crates/tui/src/app.rs:25-90, 498-680,
    690-760), told without the names the handlers of `Viewer` share. */
module ViewerFigures {
  import opened Base
  import opened Rollups
  import opened Viewer

  // ---- windows ----

  // The spans of the seven rungs: 1, 3, 6, 12, 24 and 48 hours and seven days.
  const SPANS: seq<nat> := [3_600_000, 10_800_000, 21_600_000, 43_200_000, 86_400_000, 172_800_000, 604_800_000]

  // `oldest` is the least bucket key of both tiers.
  ghost predicate IsOldest(rec: Recording, oldest: Option<nat>) {
    if oldest.None? then rec.ten == [] && rec.one == []
    else
      && (exists row :: row in rec.ten + rec.one && row.1 == oldest.value)
      && forall row :: row in rec.ten + rec.one ==> oldest.value <= row.1
  }

  ghost predicate IsNewest(rec: Recording, newest: Option<nat>) {
    if newest.None? then rec.ten == [] && rec.one == []
    else
      && (exists row :: row in rec.ten + rec.one && row.1 == newest.value)
      && forall row :: row in rec.ten + rec.one ==> row.1 <= newest.value
  }

  // A time at which something recorded ends: a bucket ten seconds after its key, an event at once.
  ghost predicate EndsAt(rec: Recording, ms: nat) {
    ms in rec.events || (ms >= 10_000 && IsNewest(rec, Some(ms - 10_000)))
  }

  ghost predicate IsEnd(rec: Recording, now: nat, to: nat) {
    && (forall row :: row in rec.ten + rec.one ==> row.1 + 10_000 <= to)
    && (forall e :: e in rec.events ==> e <= to)
    && (EndsAt(rec, to) || (rec.ten == [] && rec.one == [] && rec.events == [] && to == now))
  }

  // The start asked for, or the oldest bucket if that is later, rounded down to a bucket of the
  // tier on display.
  predicate IsStart(from: nat, to: nat, span: nat, oldest: Option<nat>, width: nat)
    requires width > 0
  {
    var asked := if to >= span then to - span else 0;
    var first := if oldest.Some? && oldest.value > asked then oldest.value else asked;
    from % width == 0 && from <= first < from + width
  }

  // The samples of each device: its stored keys inside the bounds.
  ghost predicate SamplesInside(samples: seq<seq<nat>>, rows: seq<(string, nat)>, ids: seq<string>, from: nat, to: nat) {
    && |samples| == |ids|
    && forall i: nat, b: nat :: i < |ids| ==> (b in samples[i] <==> (ids[i], b) in rows && from <= b <= to)
  }

  ghost predicate TimelineMeans(w: TimelineWindow, viewer: bool, rec: Recording, ids: seq<string>, zoom: nat, now: nat)
    requires zoom < 7
  {
    && w.tier == (if zoom == 0 then TenSec else OneMin)
    && (if viewer then IsEnd(rec, now, w.to) else w.to == now)
    && (exists oldest :: IsOldest(rec, oldest) && IsStart(w.from, w.to, SPANS[zoom], oldest, if zoom == 0 then 10_000 else 60_000))
    && SamplesInside(w.samples, if zoom == 0 then rec.ten else rec.one, ids, w.from, w.to)
    && ListsInside(w.events, rec.events, w.from, w.to)
  }

  ghost predicate ReplayMeans(w: ReplayWindow, rec: Recording, ids: seq<string>, cursor: nat) {
    && w.from == (if cursor >= 300_000 then cursor - 300_000 else 0) && w.to == cursor + 300_000
    && SamplesInside(w.samples, rec.ten, ids, w.from, w.to) && ListsInside(w.events, rec.events, w.from, w.to)
  }

  lemma StoredHas(rows: seq<(string, nat)>, k: nat)
    ensures k in Stored(rows) <==> exists row :: row in rows && row.1 == k
  {
    if k in Stored(rows) {
      var i :| 0 <= i < |rows| && Stored(rows)[i] == k;
      assert rows[i] in rows && rows[i].1 == k;
    }
    if row :| row in rows && row.1 == k {
      var i :| 0 <= i < |rows| && rows[i] == row;
      assert Stored(rows)[i] == k;
    }
  }

  lemma StoredBoth(rec: Recording, k: nat)
    ensures k in Stored(rec.ten) + Stored(rec.one) <==> exists row :: row in rec.ten + rec.one && row.1 == k
  {
    assert Stored(rec.ten) + Stored(rec.one) == Stored(rec.ten + rec.one);
    StoredHas(rec.ten + rec.one, k);
  }

  lemma EdgesOfStored(rec: Recording)
    ensures IsOldest(rec, EarliestBucket(rec)) && IsNewest(rec, LatestBucket(rec))
  {
    forall k: nat ensures k in Stored(rec.ten) + Stored(rec.one) <==> exists row :: row in rec.ten + rec.one && row.1 == k {
      StoredBoth(rec, k);
    }
    hide MinOf, MaxOf;
    forall row | row in rec.ten + rec.one ensures row.1 in Stored(rec.ten) + Stored(rec.one) {
      StoredBoth(rec, row.1);
    }
  }

  lemma EndOfRecording(rec: Recording, now: nat)
    ensures IsEnd(rec, now, RightEdge(true, rec, now))
  {
    EdgesOfStored(rec);
    hide EarliestBucket, LatestBucket, MaxOf, IsOldest;
    var newest, to := LatestBucket(rec), RightEdge(true, rec, now);
    if newest.Some? {
      assert newest.value + 10_000 <= to;
      if to == newest.value + 10_000 {
        assert EndsAt(rec, to);
      }
    }
  }

  lemma StartOfWindow(rec: Recording, zoom: nat, to: nat)
    requires zoom < 7
    ensures IsStart(LeftEdge(rec, zoom, to), to, SPANS[zoom], EarliestBucket(rec), if zoom == 0 then 10_000 else 60_000)
  {
    hide EarliestBucket;
    assert ZoomSpan(zoom) == SPANS[zoom];
    AlignFacts(if Clamped(rec, zoom, to) then EarliestBucket(rec).value else SatSub(to, ZoomSpan(zoom)), ZoomTier(zoom));
  }

  lemma DevicesInside(rec: Recording, tier: Tier, ids: seq<string>, from: nat, to: nat)
    ensures SamplesInside(PerDevice(rec, tier, ids, from, to), TierRows(rec, tier), ids, from, to)
  {
    forall i: nat, b: nat | i < |ids|
      ensures b in PerDevice(rec, tier, ids, from, to)[i] <==> (ids[i], b) in TierRows(rec, tier) && from <= b <= to
    {
      BetweenHolds(TierRows(rec, tier), ids[i], from, to, b);
    }
  }

  // What the overview shows at a zoom.
  lemma TimelineFigures(viewer: bool, rec: Recording, ids: seq<string>, zoom: nat, now: nat)
    requires zoom < 7
    ensures TimelineMeans(WindowAt(viewer, rec, ids, zoom, now), viewer, rec, ids, zoom, now)
  {
    var w := WindowAt(viewer, rec, ids, zoom, now);
    EndOfRecording(rec, now);
    EdgesOfStored(rec);
    StartOfWindow(rec, zoom, w.to);
    DevicesInside(rec, w.tier, ids, w.from, w.to);
    EventsInside(rec.events, w.from, w.to);
    hide IsEnd, IsOldest, IsStart, SamplesInside, ListsInside, EarliestBucket, LatestBucket, PerDevice, EventsBetween;
    hide LeftEdge, RecordedEnd, IsNewest;
  }

  // What replay shows around its cursor: five minutes to either side.
  lemma ReplayFigures(rec: Recording, ids: seq<string>, cursor: nat)
    ensures ReplayMeans(ReplayAt(rec, ids, cursor), rec, ids, cursor)
  {
    var w := ReplayAt(rec, ids, cursor);
    DevicesInside(rec, TenSec, ids, w.from, w.to);
    EventsInside(rec.events, w.from, w.to);
    hide SamplesInside, ListsInside, PerDevice, EventsBetween;
  }

  // ---- moves ----

  // Arrows, pages and ends, and the letters that stand for them.
  predicate IsMove(key: Key) {
    || key == Left || key == Right || key == PageUp || key == PageDown || key == Home || key == End
    || key == Char('a') || key == Char('d') || key == Char('A') || key == Char('D') || key == Char('g') || key == Char('G')
  }

  // What a key adds to a cursor, with a step and a page of these lengths.
  function Shift(key: Key, step: int, page: int): int {
    if key == Left || key == Char('a') then -step
    else if key == Right || key == Char('d') then step
    else if key == PageUp || key == Char('A') then -page
    else if key == PageDown || key == Char('D') then page
    else 0
  }

  // `next` is as near to `target` as the bounds allow.
  predicate Within(next: nat, target: int, lo: nat, hi: nat) {
    if target < lo then next == lo else if target > hi then next == hi else next == target
  }

  // A replay cursor moves ten seconds, or five minutes, and stops at the oldest and the newest
  // bucket; Home and End lead there.
  lemma ReplayMoves(rec: Recording, key: Key, cursor: nat, event: Option<nat>, oldest: nat, newest: nat)
    requires IsMove(key) && EarliestBucket(rec) == Some(oldest) && LatestBucket(rec) == Some(newest)
    ensures Within(NextCursor(rec, key, cursor, event),
                   if key == Home || key == Char('g') then oldest else if key == End || key == Char('G') then newest
                   else cursor + Shift(key, 10_000, 300_000), oldest, newest)
  {
    OldestBeforeNewest(rec);
    hide EarliestBucket, LatestBucket;
  }

  // One column of a strip: its span shared out among the columns, whole milliseconds, at least one.
  predicate IsColumn(ms: nat, span: nat, cols: nat) {
    if cols <= 1 then ms == (if span == 0 then 1 else span)
    else if span < cols then ms == 1
    else ms * cols <= span < (ms + 1) * cols
  }

  lemma SharedOut(span: nat, cols: nat)
    requires cols > 0
    ensures span / cols * cols <= span < (span / cols + 1) * cols
    ensures span < cols ==> span / cols == 0
    ensures span >= cols ==> span / cols >= 1
    ensures cols == 1 ==> span / cols == span
  {
    var q := span / cols;
    assert span == q * cols + span % cols;
    assert q >= 1 ==> q * cols >= cols;
  }

  // The width of a column as the app computes it.
  function ColumnMs(w: TimelineWindow, cols: nat): nat
    requires w.from <= w.to
  {
    MaxNat(MaxNat(w.to - w.from, 1) / MaxNat(cols, 1), 1)
  }

  lemma ColumnIs(w: TimelineWindow, cols: nat)
    requires w.from <= w.to
    ensures IsColumn(ColumnMs(w, cols), w.to - w.from, cols)
  {
    SharedOut(MaxNat(w.to - w.from, 1), MaxNat(cols, 1));
  }

  lemma SteppedBy(w: TimelineWindow, cols: nat, cursor: nat, n: int)
    requires w.from <= w.to && (n == 1 || n == -1 || n == 10 || n == -10)
    ensures Within(Stepped(w, cols, cursor, n), cursor + n * ColumnMs(w, cols), w.from, w.to)
  {
    var column := ColumnMs(w, cols);
    assert column * (if n < 0 then -n else n) == if n < 0 then -(n * column) else n * column;
  }

  // How many columns a key asks for.
  function Columns(key: Key): int {
    Shift(key, 1, 10)
  }

  lemma ShiftScales(key: Key, column: int)
    ensures Shift(key, column, 10 * column) == Columns(key) * column
  {
  }

  lemma AsksForSteps(w: TimelineWindow, cols: nat, key: Key, cursor: nat)
    requires IsMove(key) && w.from <= w.to && Columns(key) != 0
    ensures NextTimelineCursor(w, cols, key, cursor) == Stepped(w, cols, cursor, Columns(key))
    ensures Columns(key) in {1, -1, 10, -10}
  {
    hide Stepped;
  }

  lemma AsksForEdge(w: TimelineWindow, cols: nat, key: Key, cursor: nat)
    requires IsMove(key) && w.from <= w.to
    ensures key == Home || key == Char('g') ==> NextTimelineCursor(w, cols, key, cursor) == w.from
    ensures key == End || key == Char('G') ==> NextTimelineCursor(w, cols, key, cursor) == w.to
    ensures !(key == Home || key == Char('g') || key == End || key == Char('G')) ==> Columns(key) != 0
  {
    hide Stepped;
  }

  // A timeline cursor moves one column, or ten, and stops at the window's edges; Home and End
  // lead there.
  lemma TimelineMoves(w: TimelineWindow, cols: nat, key: Key, cursor: nat) returns (column: nat)
    requires IsMove(key) && w.from <= w.to
    ensures IsColumn(column, w.to - w.from, cols)
    ensures Within(NextTimelineCursor(w, cols, key, cursor),
                   if key == Home || key == Char('g') then w.from else if key == End || key == Char('G') then w.to
                   else cursor + Shift(key, column, 10 * column), w.from, w.to)
  {
    column := ColumnMs(w, cols);
    ColumnIs(w, cols);
    hide Stepped, IsColumn, ColumnMs, NextTimelineCursor, Shift, Columns, IsMove;
    AsksForEdge(w, cols, key, cursor);
    if !(key == Home || key == Char('g') || key == End || key == Char('G')) {
      AsksForSteps(w, cols, key, cursor);
      SteppedBy(w, cols, cursor, Columns(key));
      ShiftScales(key, column);
    }
  }
}
