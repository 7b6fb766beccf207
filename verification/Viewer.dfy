/** The modes, cursors and windows of the terminal app (crates/tui/src/app.rs). The database is
    what its tables hold: bucket keys of the two sample tiers and event times. Clock readings
    are inputs. A recording opened as a file has no live source behind it. */
module Viewer {
  import opened Base
  import opened Rollups
  import Telemetry
  import T = Timeline
  import W = Wave
  import RecorderSpec

  const REPLAY_HALF_WINDOW_MS := 300_000
  const SCRUB_STEP_MS := 10_000
  const SCRUB_PAGE_MS := 300_000
  const TIMELINE_PAGE_COLS := 10
  const HOUR_MS := 3_600_000
  const TIMELINE_ZOOMS := 7
  const TIMELINE_DEFAULT_ZOOM := 2

  // The zoom ladder: how much a window spans and the tier that feeds it.
  function ZoomSpan(zoom: nat): nat {
    match zoom
    case 0 => HOUR_MS
    case 1 => 3 * HOUR_MS
    case 2 => 6 * HOUR_MS
    case 3 => 12 * HOUR_MS
    case 4 => 24 * HOUR_MS
    case 5 => 48 * HOUR_MS
    case _ => 7 * 24 * HOUR_MS
  }

  function ZoomTier(zoom: nat): Tier {
    if zoom == 0 then TenSec else OneMin
  }

  // ---- what the database answers ----

  // Rows of the sample tables by device and bucket key; event times oldest first.
  datatype Recording = Recording(ten: seq<(string, nat)>, one: seq<(string, nat)>, events: seq<nat>)

  function Stored(rows: seq<(string, nat)>): seq<nat> {
    seq(|rows|, i requires 0 <= i < |rows| => rows[i].1)
  }

  function MinOf(ks: seq<nat>): (r: Option<nat>)
    ensures r.None? <==> ks == []
    ensures r.Some? ==> r.value in ks && forall k :: k in ks ==> r.value <= k
  {
    if ks == [] then None
    else
      assert ks == [ks[0]] + ks[1..];
      Some(MinNat(ks[0], MinOf(ks[1..]).GetOr(ks[0])))
  }

  function MaxOf(ks: seq<nat>): (r: Option<nat>)
    ensures r.None? <==> ks == []
    ensures r.Some? ==> r.value in ks && forall k :: k in ks ==> k <= r.value
  {
    if ks == [] then None
    else
      assert ks == [ks[0]] + ks[1..];
      Some(MaxNat(ks[0], MaxOf(ks[1..]).GetOr(ks[0])))
  }

  function EarliestBucket(rec: Recording): Option<nat> {
    MinOf(Stored(rec.ten) + Stored(rec.one))
  }

  function LatestBucket(rec: Recording): Option<nat> {
    MaxOf(Stored(rec.ten) + Stored(rec.one))
  }

  function SamplesBetween(rows: seq<(string, nat)>, device: string, from: nat, to: nat): seq<nat> {
    if rows == [] then []
    else
      var rest := SamplesBetween(rows[1..], device, from, to);
      if rows[0].0 == device && from <= rows[0].1 <= to then [rows[0].1] + rest else rest
  }

  function EventsBetween(events: seq<nat>, from: nat, to: nat): seq<nat> {
    if events == [] then []
    else
      var last := events[|events| - 1];
      EventsBetween(events[..|events| - 1], from, to) + (if from <= last <= to then [last] else [])
  }

  // Exactly the recorded events inside the bounds, in their order and as often as recorded.
  ghost predicate ListsInside(listed: seq<nat>, events: seq<nat>, from: nat, to: nat) {
    exists at: seq<nat> :: InsideAt(listed, events, at, from, to)
  }

  ghost predicate InsideAt(listed: seq<nat>, events: seq<nat>, at: seq<nat>, from: nat, to: nat) {
    Selects(listed, events, at, (e: nat) => from <= e <= to)
  }

  lemma {:induction false} WhichInside(events: seq<nat>, from: nat, to: nat, keep: nat -> bool) returns (at: seq<nat>)
    requires forall e: nat :: keep(e) <==> from <= e <= to
    ensures Selects(EventsBetween(events, from, to), events, at, keep)
  {
    hide Selects;
    if events == [] {
      at := [];
      SelectsNothing(keep);
    } else {
      var front, last := events[..|events| - 1], events[|events| - 1];
      at := WhichInside(front, from, to, keep);
      SelectsNext(EventsBetween(front, from, to), front, at, keep, last);
      at := if keep(last) then at + [|front|] else at;
      assert events == front + [last];
      assert EventsBetween(front, from, to) + [] == EventsBetween(front, from, to);
    }
  }

  lemma EventsInside(events: seq<nat>, from: nat, to: nat)
    ensures ListsInside(EventsBetween(events, from, to), events, from, to)
  {
    var at := WhichInside(events, from, to, (e: nat) => from <= e <= to);
    assert InsideAt(EventsBetween(events, from, to), events, at, from, to);
  }

  lemma {:induction false} InsideMembers(events: seq<nat>, from: nat, to: nat, e: nat)
    ensures e in EventsBetween(events, from, to) <==> e in events && from <= e <= to
  {
    if events != [] {
      InsideMembers(events[..|events| - 1], from, to, e);
      assert events == events[..|events| - 1] + [events[|events| - 1]];
    }
  }

  function TierRows(rec: Recording, tier: Tier): seq<(string, nat)> {
    if tier.TenSec? then rec.ten else rec.one
  }

  function PerDevice(rec: Recording, tier: Tier, ids: seq<string>, from: nat, to: nat): seq<seq<nat>> {
    seq(|ids|, i requires 0 <= i < |ids| => SamplesBetween(TierRows(rec, tier), ids[i], from, to))
  }

  // ---- windows ----

  datatype ReplayWindow = ReplayWindow(from: nat, to: nat, samples: seq<seq<nat>>, events: seq<nat>)

  datatype TimelineWindow =
    TimelineWindow(from: nat, to: nat, tier: Tier, clamped: bool, samples: seq<seq<nat>>, events: seq<nat>)

  // The end of recorded coverage: the newest bucket's end or the newest event.
  function RecordedEnd(rec: Recording): Option<nat> {
    match (LatestBucket(rec), MaxOf(rec.events))
    case (Some(b), Some(e)) => Some(MaxNat(b + TenSec.Width(), e))
    case (Some(b), None) => Some(b + TenSec.Width())
    case (None, e) => e
  }

  // A file's window ends where its recording does, a live one now.
  function RightEdge(viewer: bool, rec: Recording, now: nat): nat {
    if viewer then RecordedEnd(rec).GetOr(now) else now
  }

  function Clamped(rec: Recording, zoom: nat, to: nat): bool {
    EarliestBucket(rec).Some? && EarliestBucket(rec).value > SatSub(to, ZoomSpan(zoom))
  }

  function LeftEdge(rec: Recording, zoom: nat, to: nat): nat {
    var from := if Clamped(rec, zoom, to) then EarliestBucket(rec).value else SatSub(to, ZoomSpan(zoom));
    BucketOf(from, ZoomTier(zoom))
  }

  function WindowAt(viewer: bool, rec: Recording, ids: seq<string>, zoom: nat, now: nat): TimelineWindow {
    var to := RightEdge(viewer, rec, now);
    var from := LeftEdge(rec, zoom, to);
    TimelineWindow(from, to, ZoomTier(zoom), Clamped(rec, zoom, to),
                   PerDevice(rec, ZoomTier(zoom), ids, from, to), EventsBetween(rec.events, from, to))
  }

  function ReplayAt(rec: Recording, ids: seq<string>, cursor: nat): ReplayWindow {
    var from, to := SatSub(cursor, REPLAY_HALF_WINDOW_MS), cursor + REPLAY_HALF_WINDOW_MS;
    ReplayWindow(from, to, PerDevice(rec, TenSec, ids, from, to), EventsBetween(rec.events, from, to))
  }

  // An event is on the list of the replay window around it.
  lemma ListedAround(rec: Recording, ids: seq<string>, e: nat)
    ensures e in ReplayAt(rec, ids, e).events <==> e in rec.events
  {
    InsideMembers(rec.events, SatSub(e, REPLAY_HALF_WINDOW_MS), e + REPLAY_HALF_WINDOW_MS, e);
  }

  // u64::clamp, whose caller must have lo <= hi.
  function Clamp(x: nat, lo: nat, hi: nat): nat
    requires lo <= hi
  {
    if x < lo then lo else if x > hi then hi else x
  }

  // ---- facts about the windows ----

  lemma AlignFacts(ms: nat, t: Tier)
    ensures BucketOf(ms, t) <= ms < BucketOf(ms, t) + t.Width()
    ensures BucketOf(ms, t) % t.Width() == 0
  {
  }

  // The oldest bucket, aligned to the tier on display, lies in the future.
  predicate OldestAhead(rec: Recording, zoom: nat, now: nat) {
    EarliestBucket(rec).Some? && BucketOf(EarliestBucket(rec).value, ZoomTier(zoom)) > now
  }

  // A live window's edges are in order, and the cursor can be clamped between them, if and
  // only if the oldest bucket, aligned to the tier, is not in the future.
  lemma LiveWindowFitsIff(rec: Recording, zoom: nat, now: nat)
    ensures LeftEdge(rec, zoom, now) <= now <==> !OldestAhead(rec, zoom, now)
  {
    hide EarliestBucket;
    AlignFacts(SatSub(now, ZoomSpan(zoom)), ZoomTier(zoom));
    if EarliestBucket(rec).Some? {
      var e := EarliestBucket(rec).value;
      AlignFacts(e, ZoomTier(zoom));
      if e <= SatSub(now, ZoomSpan(zoom)) {
        assert e <= now;
      }
    }
  }

  // A clock set back behind the only recorded bucket: the window would have to begin an hour
  // after it ends.
  lemma ClockSetBack(device: string)
    ensures var rec := Recording([(device, 2 * HOUR_MS)], [], []);
      OldestAhead(rec, TIMELINE_DEFAULT_ZOOM, HOUR_MS) && LeftEdge(rec, TIMELINE_DEFAULT_ZOOM, HOUR_MS) == 2 * HOUR_MS
  {
    var rec := Recording([(device, 2 * HOUR_MS)], [], []);
    assert Stored(rec.ten) + Stored(rec.one) == [2 * HOUR_MS];
  }

  // A file's window always fits, whatever the clock says.
  lemma ViewerWindowFits(rec: Recording, zoom: nat, now: nat)
    ensures LeftEdge(rec, zoom, RightEdge(true, rec, now)) <= RightEdge(true, rec, now)
  {
    OldestBeforeNewest(rec);
    hide EarliestBucket, LatestBucket;
    var to := RightEdge(true, rec, now);
    LiveWindowFitsIff(rec, zoom, to);
    if EarliestBucket(rec).Some? {
      AlignFacts(EarliestBucket(rec).value, ZoomTier(zoom));
    }
  }

  lemma OldestBeforeNewest(rec: Recording)
    ensures EarliestBucket(rec).Some? <==> LatestBucket(rec).Some?
    ensures EarliestBucket(rec).Some? ==> EarliestBucket(rec).value <= LatestBucket(rec).value
  {
  }

  // The window reaches the end of the newest bucket and the newest event.
  ghost predicate Covers(rec: Recording, w: TimelineWindow) {
    && w.from <= w.to
    && (LatestBucket(rec).Some? ==> LatestBucket(rec).value + TenSec.Width() <= w.to)
    && (forall e :: e in rec.events ==> e <= w.to)
  }

  lemma ViewerWindowCovers(rec: Recording, ids: seq<string>, zoom: nat, now: nat)
    ensures Covers(rec, WindowAt(true, rec, ids, zoom, now))
  {
    hide LatestBucket, EarliestBucket;
    ViewerWindowFits(rec, zoom, now);
  }

  // The query asked for a device's buckets between two times.
  lemma {:induction false} BetweenHolds(rows: seq<(string, nat)>, device: string, from: nat, to: nat, b: nat)
    ensures b in SamplesBetween(rows, device, from, to) <==> (device, b) in rows && from <= b <= to
  {
    if rows != [] {
      BetweenHolds(rows[1..], device, from, to, b);
      assert rows == [rows[0]] + rows[1..];
    }
  }

  predicate InBucket(b: nat, t: Tier, ms: nat) {
    b <= ms < b + t.Width()
  }

  // Some millisecond of the bucket lies in the window, ends included.
  ghost predicate Overlaps(b: nat, t: Tier, from: nat, to: nat) {
    exists ms: nat :: InBucket(b, t, ms) && from <= ms <= to
  }

  lemma OverlapsIff(b: nat, t: Tier, from: nat, to: nat)
    ensures Overlaps(b, t, from, to) <==> from <= to && b <= to && from < b + t.Width()
  {
    assert InBucket(b, t, b) && (from < b + t.Width() && b <= from ==> InBucket(b, t, from));
  }

  lemma LeftEdgeAligned(rec: Recording, zoom: nat, to: nat)
    ensures LeftEdge(rec, zoom, to) % ZoomTier(zoom).Width() == 0
  {
    hide EarliestBucket;
    AlignFacts(if Clamped(rec, zoom, to) then EarliestBucket(rec).value else SatSub(to, ZoomSpan(zoom)), ZoomTier(zoom));
  }

  // Because a window starts on a tier boundary, what it lists for a device is exactly the
  // stored buckets that overlap it.
  lemma QueryFindsOverlapping(viewer: bool, rec: Recording, ids: seq<string>, zoom: nat, now: nat, i: nat, b: nat)
    requires i < |ids| && ((ids[i], b) in TierRows(rec, ZoomTier(zoom)) ==> b % ZoomTier(zoom).Width() == 0)
    ensures var w := WindowAt(viewer, rec, ids, zoom, now);
      b in w.samples[i] <==> (ids[i], b) in TierRows(rec, w.tier) && Overlaps(b, w.tier, w.from, w.to)
  {
    hide SamplesBetween, LeftEdge, RightEdge, Clamped;
    var w := WindowAt(viewer, rec, ids, zoom, now);
    BetweenHolds(TierRows(rec, w.tier), ids[i], w.from, w.to, b);
    LeftEdgeAligned(rec, zoom, w.to);
    OverlapsIff(b, w.tier, w.from, w.to);
    hide Overlaps, BucketOf;
    if (ids[i], b) in TierRows(rec, w.tier) && Overlaps(b, w.tier, w.from, w.to) {
      NoBoundaryBetween(w.from, b, w.tier);
    }
  }

  lemma NoBoundaryBetween(a: nat, b: nat, t: Tier)
    requires a % t.Width() == 0 && b % t.Width() == 0 && a < b + t.Width()
    ensures a <= b
  {
  }

  // The final recorded bucket in the tier on display.
  function FinalBucket(rec: Recording, t: Tier): nat
    requires LatestBucket(rec).Some?
  {
    BucketOf(LatestBucket(rec).value, t)
  }

  // The newest event lies less than the zoom's span past the final bucket's end.
  ghost predicate EventsNearEnd(rec: Recording, zoom: nat)
    requires LatestBucket(rec).Some?
  {
    forall e :: e in rec.events ==> e < FinalBucket(rec, ZoomTier(zoom)) + ZoomTier(zoom).Width() + ZoomSpan(zoom)
  }

  // The final recorded bucket overlaps a file's window if and only if no event lies a whole
  // zoom span or more past that bucket's end.
  lemma FinalBucketShownIff(rec: Recording, ids: seq<string>, zoom: nat, now: nat)
    requires LatestBucket(rec).Some? && LatestBucket(rec).value % TenSec.Width() == 0
    ensures var w := WindowAt(true, rec, ids, zoom, now);
      w.from <= FinalBucket(rec, w.tier) < w.to <==> EventsNearEnd(rec, zoom)
  {
    OldestBeforeNewest(rec);
    hide LatestBucket, EarliestBucket;
    var t := ZoomTier(zoom);
    var k, oldest := LatestBucket(rec).value, EarliestBucket(rec).value;
    var last := FinalBucket(rec, t);
    var to := RightEdge(true, rec, now);
    var start := SatSub(to, ZoomSpan(zoom));
    TenSecInTier(k, t);
    AlignFacts(k, t);
    AlignFacts(start, t);
    AlignMonotone(oldest, k, t);
    // the left edge is at or before the bucket exactly when the unclamped one is
    if start < last + t.Width() {
      NoBoundaryBetween(BucketOf(start, t), last, t);
    }
    assert LeftEdge(rec, zoom, to) <= last <==> start < last + t.Width();
  }

  // A ten-second bucket ends no later than the bucket of the displayed tier it falls in.
  lemma TenSecInTier(k: nat, t: Tier)
    requires k % TenSec.Width() == 0
    ensures k + TenSec.Width() <= BucketOf(k, t) + t.Width()
  {
    if t.OneMin? {
      var q, r := k / 60_000, k % 60_000;
      assert k == 60_000 * q + r;
      assert r == 10_000 * (k / 10_000 - 6 * q);
    }
  }

  lemma AlignMonotone(a: nat, b: nat, t: Tier)
    requires a <= b
    ensures BucketOf(a, t) <= BucketOf(b, t)
  {
  }

  // The buckets a strip is drawn from: what a window lists, with the figures to draw.
  function Drawn(keys: seq<nat>, reading: nat -> Option<real>): seq<T.Bucket> {
    seq(|keys|, j requires 0 <= j < |keys| => T.Bucket(keys[j], reading(keys[j])))
  }

  lemma FinalBucketListed(rec: Recording, ids: seq<string>, zoom: nat, now: nat, i: nat)
    requires LatestBucket(rec).Some? && LatestBucket(rec).value % TenSec.Width() == 0 && EventsNearEnd(rec, zoom)
    requires i < |ids| && (ids[i], FinalBucket(rec, ZoomTier(zoom))) in TierRows(rec, ZoomTier(zoom))
    ensures var (w, b) := (WindowAt(true, rec, ids, zoom, now), FinalBucket(rec, ZoomTier(zoom)));
      w.tier == ZoomTier(zoom) && |w.samples| == |ids| && w.from <= b < w.to && b in w.samples[i]
  {
    var w, b := WindowAt(true, rec, ids, zoom, now), FinalBucket(rec, ZoomTier(zoom));
    FinalBucketShownIff(rec, ids, zoom, now);
    AlignFacts(LatestBucket(rec).value, ZoomTier(zoom));
    OverlapsIff(b, w.tier, w.from, w.to);
    QueryFindsOverlapping(true, rec, ids, zoom, now, i, b);
    hide LatestBucket, EarliestBucket, SamplesBetween, LeftEdge, RightEdge, Clamped, EventsBetween, Overlaps;
  }

  // And the strip drawn from the window's own rows for a device that has the final bucket then
  // paints a column for it, at any width.
  lemma FinalBucketPainted(rec: Recording, ids: seq<string>, zoom: nat, now: nat, i: nat,
                           reading: nat -> Option<real>, ncols: nat) returns (c: nat)
    requires LatestBucket(rec).Some? && LatestBucket(rec).value % TenSec.Width() == 0 && EventsNearEnd(rec, zoom)
    requires i < |ids| && (ids[i], FinalBucket(rec, ZoomTier(zoom))) in TierRows(rec, ZoomTier(zoom))
    requires reading(FinalBucket(rec, ZoomTier(zoom))).Some?
    requires ncols >= 1
    ensures c < ncols
    ensures var w := WindowAt(true, rec, ids, zoom, now);
      w.from < w.to && T.Peak(Drawn(w.samples[i], reading), T.Window(w.from, w.to, w.tier.Width(), ncols), c).Some?
  {
    var w, b := WindowAt(true, rec, ids, zoom, now), FinalBucket(rec, ZoomTier(zoom));
    FinalBucketListed(rec, ids, zoom, now, i);
    hide LatestBucket, EarliestBucket, WindowAt, BucketOf, ZoomTier;
    var j: nat :| j < |w.samples[i]| && w.samples[i][j] == b;
    var tw := T.Window(w.from, w.to, w.tier.Width(), ncols);
    T.RecordedInstantPainted(Drawn(w.samples[i], reading), tw, b, j);
    c := T.TimelineColOf(b, tw.from, tw.Span(), ncols);
  }

  // The recording of these tables.
  ghost predicate Holds(rec: Recording, ten: RecorderSpec.SampleTable, one: RecorderSpec.SampleTable) {
    (forall k :: k in rec.ten <==> k in ten) && (forall k :: k in rec.one <==> k in one)
  }

  // No device has a later ten-second bucket than d.
  ghost predicate HasNewest(fr: RecorderSpec.Frames, d: string) {
    && RecorderSpec.FramesOf(fr, d) != []
    && forall e: string :: RecorderSpec.FramesOf(fr, e) != [] ==>
         Rollups.Key(RecorderSpec.FramesOf(fr, e), TenSec) <= Rollups.Key(RecorderSpec.FramesOf(fr, d), TenSec)
  }

  // Once anything was observed, some device has the newest bucket.
  lemma SomeNewest(fr: RecorderSpec.Frames, d: string) returns (newest: string)
    requires RecorderSpec.FramesOf(fr, d) != []
    ensures HasNewest(fr, newest)
  {
    hide Rollups.Key;
    newest := d;
    var todo := fr.Keys;
    while todo != {}
      invariant RecorderSpec.FramesOf(fr, newest) != []
      invariant forall e: string :: e !in todo && RecorderSpec.FramesOf(fr, e) != [] ==>
        Rollups.Key(RecorderSpec.FramesOf(fr, e), TenSec) <= Rollups.Key(RecorderSpec.FramesOf(fr, newest), TenSec)
    {
      var e :| e in todo;
      todo := todo - {e};
      if fr[e] != [] && Rollups.Key(fr[e], TenSec) > Rollups.Key(RecorderSpec.FramesOf(fr, newest), TenSec) {
        newest := e;
      }
    }
  }

  // In a recording sealed by its final flush in which the newest ten-second bucket was written,
  // for one of the devices that have it, and has not been pruned, that bucket is the newest key
  // of both tiers, whatever else was lost or pruned: coverage ends ten seconds after it.
  lemma SealedLatestBucket(rec: Recording, ten: RecorderSpec.SampleTable, one: RecorderSpec.SampleTable, fr: RecorderSpec.Frames,
                           d: string, lost: set<(string, nat)>, cut: nat, lostOne: set<(string, nat)>, cutOne: nat)
    requires RecorderSpec.SamplesMatch(ten, map[], fr, TenSec, lost, cut, true)
    requires RecorderSpec.SamplesMatch(one, map[], fr, OneMin, lostOne, cutOne, true)
    requires Holds(rec, ten, one) && HasNewest(fr, d)
    requires var k := Rollups.Key(RecorderSpec.FramesOf(fr, d), TenSec); (d, k) !in lost && k >= cut
    ensures var k := Rollups.Key(RecorderSpec.FramesOf(fr, d), TenSec);
      LatestBucket(rec) == Some(k) && (d, k) in ten && k % TenSec.Width() == 0
  {
    var fs := RecorderSpec.FramesOf(fr, d);
    var k := Rollups.Key(fs, TenSec);
    NewestIsStored(ten, fr, d, lost, cut);
    KeyIsStored(rec.ten, d, k, rec);
    var v := LatestBucket(rec).value;
    var row := RowWith(rec.ten + rec.one, v, rec);
    var e, es := row.0, RecorderSpec.FramesOf(fr, row.0);
    assert (e, v) in ten || (e, v) in one;
    StoredHasFrames(ten, one, fr, e, v, lost, cut, lostOne, cutOne);
    hide LatestBucket, RecorderSpec.SamplesMatch, Members, Rollups.Key;
    MembersBelowKey(es, TenSec, v);
    MembersBelowKey(es, OneMin, v);
    MinuteOfTenSec(es);
    AlignedKey(fs);
  }

  lemma AlignedKey(fs: seq<Frame>)
    requires fs != []
    ensures Rollups.Key(fs, TenSec) % TenSec.Width() == 0
  {
    MinuteOfTenSec(fs);
  }

  lemma StoredHasFrames(ten: RecorderSpec.SampleTable, one: RecorderSpec.SampleTable, fr: RecorderSpec.Frames, d: string, v: nat,
                        lost: set<(string, nat)>, cut: nat, lostOne: set<(string, nat)>, cutOne: nat)
    requires RecorderSpec.SamplesMatch(ten, map[], fr, TenSec, lost, cut, true)
    requires RecorderSpec.SamplesMatch(one, map[], fr, OneMin, lostOne, cutOne, true)
    requires (d, v) in ten || (d, v) in one
    ensures var fs := RecorderSpec.FramesOf(fr, d); fs != [] && (Members(fs, TenSec, v) != [] || Members(fs, OneMin, v) != [])
  {
    hide Members, RecorderSpec.RefRow;
    var fs := RecorderSpec.FramesOf(fr, d);
    assert RecorderSpec.RowOk(ten, map[], fs, TenSec, d, v, lost, cut, true);
    assert RecorderSpec.RowOk(one, map[], fs, OneMin, d, v, lostOne, cutOne, true);
    NoMembers(v);
  }

  lemma NoMembers(v: nat)
    ensures Members([], TenSec, v) == [] && Members([], OneMin, v) == []
  {
  }

  lemma NewestIsStored(ten: RecorderSpec.SampleTable, fr: RecorderSpec.Frames, d: string, lost: set<(string, nat)>, cut: nat)
    requires RecorderSpec.SamplesMatch(ten, map[], fr, TenSec, lost, cut, true) && RecorderSpec.FramesOf(fr, d) != []
    requires var k := Rollups.Key(RecorderSpec.FramesOf(fr, d), TenSec); (d, k) !in lost && k >= cut
    ensures (d, Rollups.Key(RecorderSpec.FramesOf(fr, d), TenSec)) in ten
  {
    hide Members, RecorderSpec.RefRow, Rollups.Key;
    var fs := RecorderSpec.FramesOf(fr, d);
    MembersBelowKey(fs, TenSec, Rollups.Key(fs, TenSec));
    assert RecorderSpec.RowOk(ten, map[], fs, TenSec, d, Rollups.Key(fs, TenSec), lost, cut, true);
  }

  // Prunes look back from a time some frame was observed at.
  ghost predicate CutWithin(fr: RecorderSpec.Frames, cut: nat, retained: nat) {
    cut == 0 || exists d: string, i: nat :: i < |RecorderSpec.FramesOf(fr, d)| && RecorderSpec.FramesOf(fr, d)[i].s.ts >= cut + retained
  }

  // A sealed recording, from a fresh database, with these losses and prunes up to these times.
  ghost predicate SealedWith(rec: Recording, fr: RecorderSpec.Frames, lost: set<(string, nat)>, cut: nat,
                             lostOne: set<(string, nat)>, cutOne: nat, ten: RecorderSpec.SampleTable, one: RecorderSpec.SampleTable)
  {
    && RecorderSpec.SamplesMatch(ten, map[], fr, TenSec, lost, cut, true) && CutWithin(fr, cut, RecorderSpec.RETAIN_10S_MS)
    && RecorderSpec.SamplesMatch(one, map[], fr, OneMin, lostOne, cutOne, true) && CutWithin(fr, cutOne, RecorderSpec.RETAIN_1M_MS)
    && Holds(rec, ten, one)
  }

  ghost predicate NewestIsTenSec(rec: Recording) {
    LatestBucket(rec).Some? ==> LatestBucket(rec).value in Stored(rec.ten)
  }

  // "The newest key across tiers is always a ten-second key."
  ghost predicate AlwaysTenSec(mayLose: bool) {
    forall rec: Recording, fr: RecorderSpec.Frames, lost: set<(string, nat)>, cut: nat, lostOne: set<(string, nat)>, cutOne: nat,
           ten: RecorderSpec.SampleTable, one: RecorderSpec.SampleTable ::
      SealedWith(rec, fr, lost, cut, lostOne, cutOne, ten, one) && (mayLose || lost == {}) ==> NewestIsTenSec(rec)
  }

  // Retention is longer than a bucket, so no prune reaches the newest one.
  lemma NewestOutlivesPrunes(fr: RecorderSpec.Frames, d: string, cut: nat)
    requires HasNewest(fr, d) && CutWithin(fr, cut, RecorderSpec.RETAIN_10S_MS)
    ensures Rollups.Key(RecorderSpec.FramesOf(fr, d), TenSec) >= cut
  {
    hide Rollups.Key;
    if cut > 0 {
      var e: string, i: nat :| i < |RecorderSpec.FramesOf(fr, e)|
        && RecorderSpec.FramesOf(fr, e)[i].s.ts >= cut + RecorderSpec.RETAIN_10S_MS;
      KeyIsLargest(RecorderSpec.FramesOf(fr, e), TenSec, i);
    }
  }

  lemma KeptIsTenSec(rec: Recording, fr: RecorderSpec.Frames, cut: nat, lostOne: set<(string, nat)>, cutOne: nat,
                     ten: RecorderSpec.SampleTable, one: RecorderSpec.SampleTable)
    requires SealedWith(rec, fr, {}, cut, lostOne, cutOne, ten, one)
    ensures NewestIsTenSec(rec)
  {
    hide LatestBucket, RecorderSpec.SamplesMatch, HasNewest, Rollups.Key, CutWithin;
    if LatestBucket(rec).Some? {
      var d := SomeDevice(rec, ten, one, fr, {}, cut, lostOne, cutOne);
      d := SomeNewest(fr, d);
      NewestOutlivesPrunes(fr, d, cut);
      FramesOfNewest(fr, d);
      SealedLatestBucket(rec, ten, one, fr, d, {}, cut, lostOne, cutOne);
      StoredKey(rec.ten, d, LatestBucket(rec).value);
    }
  }

  lemma FramesOfNewest(fr: RecorderSpec.Frames, d: string)
    requires HasNewest(fr, d)
    ensures RecorderSpec.FramesOf(fr, d) != []
  {
  }

  // A recording that holds anything observed some device.
  lemma SomeDevice(rec: Recording, ten: RecorderSpec.SampleTable, one: RecorderSpec.SampleTable, fr: RecorderSpec.Frames,
                   lost: set<(string, nat)>, cut: nat, lostOne: set<(string, nat)>, cutOne: nat) returns (d: string)
    requires RecorderSpec.SamplesMatch(ten, map[], fr, TenSec, lost, cut, true)
    requires RecorderSpec.SamplesMatch(one, map[], fr, OneMin, lostOne, cutOne, true)
    requires Holds(rec, ten, one) && LatestBucket(rec).Some?
    ensures RecorderSpec.FramesOf(fr, d) != []
  {
    hide RecorderSpec.SamplesMatch;
    var row := RowWith(rec.ten + rec.one, LatestBucket(rec).value, rec);
    d := row.0;
    assert row == (row.0, row.1);
    StoredHasFrames(ten, one, fr, d, row.1, lost, cut, lostOne, cutOne);
  }

  // It is if and only if no ten-second write can fail, whatever is pruned; whether minute writes
  // fail does not matter.
  lemma AlwaysTenSecIff(mayLose: bool)
    ensures AlwaysTenSec(mayLose) <==> !mayLose
  {
    hide SealedWith, NewestIsTenSec, LastLost, RecorderSpec.OpenKeys, RecorderSpec.OpenRows;
    if mayLose {
      LastWriteLost("", Frame(Telemetry.DynamicSample(0, None, None, None, None, None, None, None), []));
    } else {
      forall rec: Recording, fr: RecorderSpec.Frames, lost: set<(string, nat)>, cut: nat, lostOne: set<(string, nat)>, cutOne: nat,
             ten: RecorderSpec.SampleTable, one: RecorderSpec.SampleTable
        | SealedWith(rec, fr, lost, cut, lostOne, cutOne, ten, one) && lost == {}
        ensures NewestIsTenSec(rec)
      {
        KeptIsTenSec(rec, fr, cut, lostOne, cutOne, ten, one);
      }
    }
  }

  lemma StoredKey(rows: seq<(string, nat)>, d: string, k: nat)
    requires (d, k) in rows
    ensures k in Stored(rows)
  {
    var i :| 0 <= i < |rows| && rows[i] == (d, k);
    assert Stored(rows)[i] == k;
  }

  // One frame, and a final flush whose ten-second batch fails and whose minute batch does not.
  function LastLost(d: string, f: Frame): Recording {
    Recording([], [(d, BucketOf(f.s.ts, OneMin))], [])
  }

  lemma LastWriteLost(d: string, f: Frame)
    ensures var fr: RecorderSpec.Frames := map[d := [f]];
      SealedWith(LastLost(d, f), fr, RecorderSpec.OpenKeys(fr, TenSec), 0, {}, 0, map[], RecorderSpec.OpenRows(fr, OneMin))
    ensures !NewestIsTenSec(LastLost(d, f))
  {
    var fr: RecorderSpec.Frames := map[d := [f]];
    var rec := LastLost(d, f);
    RecorderSpec.OneFrameFlushed(d, f, TenSec, false);
    RecorderSpec.OneFrameFlushed(d, f, OneMin, true);
    RecorderSpec.ArrivalKey([], f, OneMin);
    assert [] + [f] == [f];
    forall k ensures k in rec.one <==> k in RecorderSpec.OpenRows(fr, OneMin) {
      RecorderSpec.OpenKeysAre(fr, OneMin, k.0, k.1);
    }
    assert (Stored(rec.ten) + Stored(rec.one))[0] == BucketOf(f.s.ts, OneMin);
  }

  lemma RowWith(rows: seq<(string, nat)>, v: nat, rec: Recording) returns (row: (string, nat))
    requires rows == rec.ten + rec.one && v in Stored(rec.ten) + Stored(rec.one)
    ensures row in rows && row.1 == v
  {
    var i :| 0 <= i < |Stored(rec.ten) + Stored(rec.one)| && (Stored(rec.ten) + Stored(rec.one))[i] == v;
    row := rows[i];
  }

  lemma KeyIsStored(rows: seq<(string, nat)>, d: string, k: nat, rec: Recording)
    requires rows == rec.ten && (d, k) in rows
    ensures LatestBucket(rec).Some? && k <= LatestBucket(rec).value
  {
    var i :| 0 <= i < |rows| && rows[i] == (d, k);
    assert Stored(rec.ten)[i] == k;
    assert k in Stored(rec.ten) + Stored(rec.one);
  }

  // ---- the app ----

  datatype Mode = Live | Replay | Timeline

  datatype ReplayBlock = NoPersistence | Unreadable

  datatype Key =
    | Char(c: char) | Esc | Enter | Tab | BackTab
    | Left | Right | Up | Down | PageUp | PageDown | Home | End | Other

  // Panic is the abort of a clamp whose bounds are out of order.
  datatype KeyOutcome = Quit | Continue | Panic

  // What one draw shows.
  datatype Shown = Shown(mode: Mode, replay: Option<ReplayWindow>, timeline: Option<TimelineWindow>, cursor: nat)

  // A moment the loop looks at the clock: what the collector had recorded by then, if it has
  // ticked since the moment before.
  datatype Moment = Moment(now: nat, feed: Option<Recording>)

  // One pass of the event loop: the moment it draws at, the width drawn at, the moment it
  // stops waiting for a key, and the key pressed, if any.
  datatype Pass = Pass(draw: Moment, width: nat, wake: Moment, key: Option<Key>)

  // The moments of a session, two to a pass.
  function MomentAt(passes: seq<Pass>, m: nat): Moment
    requires m < 2 * |passes|
  {
    if m % 2 == 0 then passes[m / 2].draw else passes[m / 2].wake
  }

  // What is recorded after the first n moments.
  function RecordedBy(start: Recording, passes: seq<Pass>, n: nat): Recording
    requires n <= 2 * |passes|
  {
    if n == 0 then start else MomentAt(passes, n - 1).feed.GetOr(RecordedBy(start, passes, n - 1))
  }

  // The collector has not ticked between moment m and moment n.
  ghost predicate NoTickSince(passes: seq<Pass>, m: nat, n: nat)
    requires n <= 2 * |passes|
  {
    forall j :: m < j < n ==> MomentAt(passes, j).feed.None?
  }

  // The collector never ticks behind an opened file.
  ghost predicate NeverTicks(passes: seq<Pass>) {
    forall i :: 0 <= i < |passes| ==> passes[i].draw.feed.None? && passes[i].wake.feed.None?
  }

  // The mode a key leads to; `opens` is whether a store is, or can be, opened.
  function NextMode(mode: Mode, key: Key, viewer: bool, opens: bool, onEvent: bool): Mode {
    match mode
    case Live =>
      if key == Char('r') || (key == Enter && onEvent) then (if opens then Replay else Live)
      else if key == Char('t') then (if opens then Timeline else Live)
      else Live
    case Replay =>
      if key == Esc || key == Char('r') then (if viewer then Replay else Live)
      else if key == Char('t') then (if opens then Timeline else Replay)
      else Replay
    case Timeline =>
      if key == Esc || key == Char('t') then (if viewer then Replay else Live)
      else if key == Enter then (if opens then Replay else Timeline)
      else Timeline
  }

  function Toggled(style: W.ChartStyle): (other: W.ChartStyle)
    ensures other != style
  {
    if style.Braille? then W.Solid else W.Braille
  }

  // Tab and its aliases go round the devices.
  function Cycled(selected: nat, devices: nat, forward: bool): nat {
    var n := MaxNat(devices, 1);
    if forward then (selected + 1) % n else (selected + n - 1) % n
  }

  function NextSelected(mode: Mode, key: Key, selected: nat, devices: nat): nat {
    if key == Tab || (mode.Live? && (key == Right || key == Char('d'))) then Cycled(selected, devices, true)
    else if key == BackTab || (mode.Live? && (key == Left || key == Char('a'))) then Cycled(selected, devices, false)
    else selected
  }

  // The story selection starts at the top and stops at both ends.
  function MovedSelection(story: Option<nat>, count: nat, down: bool): Option<nat> {
    if count == 0 then None
    else match story
      case None => Some(0)
      case Some(i) => Some(MinNat(if down then i + 1 else SatSub(i, 1), count - 1))
  }

  // A scrub stops at the ends of what is recorded.
  function Scrubbed(rec: Recording, cursor: nat, forward: bool, delta: nat): nat {
    var target := if forward then cursor + delta else SatSub(cursor, delta);
    OldestBeforeNewest(rec);
    if EarliestBucket(rec).Some? then Clamp(target, EarliestBucket(rec).value, LatestBucket(rec).value) else target
  }

  // The keys that move a cursor: arrows, pages and ends, with their letter aliases.
  predicate Moves(key: Key) {
    || key == Left || key == Right || key == PageUp || key == PageDown || key == Home || key == End
    || key == Char('a') || key == Char('d') || key == Char('A') || key == Char('D') || key == Char('g') || key == Char('G')
  }

  function MovedCursor(rec: Recording, key: Key, cursor: nat): nat
    requires Moves(key)
  {
    if key == Left || key == Char('a') then Scrubbed(rec, cursor, false, SCRUB_STEP_MS)
    else if key == Right || key == Char('d') then Scrubbed(rec, cursor, true, SCRUB_STEP_MS)
    else if key == PageUp || key == Char('A') then Scrubbed(rec, cursor, false, SCRUB_PAGE_MS)
    else if key == PageDown || key == Char('D') then Scrubbed(rec, cursor, true, SCRUB_PAGE_MS)
    else if key == Home || key == Char('g') then EarliestBucket(rec).GetOr(cursor)
    else LatestBucket(rec).GetOr(cursor)
  }

  // Where a key moves the replay cursor; `event` is the time of the selected event, if any.
  function NextCursor(rec: Recording, key: Key, cursor: nat, event: Option<nat>): nat {
    if Moves(key) then MovedCursor(rec, key, cursor) else if key == Enter then event.GetOr(cursor) else cursor
  }

  // Where `cols` columns of a strip `width` columns wide move the timeline cursor.
  function Stepped(w: TimelineWindow, width: nat, cursor: nat, cols: int): nat
    requires w.from <= w.to
  {
    var colMs := MaxNat(MaxNat(w.to - w.from, 1) / MaxNat(width, 1), 1);
    var delta := colMs * (if cols < 0 then -cols else cols);
    Clamp(if cols < 0 then SatSub(cursor, delta) else cursor + delta, w.from, w.to)
  }

  function MovedTimelineCursor(w: TimelineWindow, width: nat, key: Key, cursor: nat): nat
    requires w.from <= w.to && Moves(key)
  {
    if key == Left || key == Char('a') then Stepped(w, width, cursor, -1)
    else if key == Right || key == Char('d') then Stepped(w, width, cursor, 1)
    else if key == PageUp || key == Char('A') then Stepped(w, width, cursor, -TIMELINE_PAGE_COLS)
    else if key == PageDown || key == Char('D') then Stepped(w, width, cursor, TIMELINE_PAGE_COLS)
    else if key == Home || key == Char('g') then w.from
    else w.to
  }

  // One column is never less than a millisecond wide, so a step keeps the cursor in the window
  // and moves it in its direction unless it already stands at that edge.
  lemma StepMoves(w: TimelineWindow, width: nat, cursor: nat, cols: int)
    requires w.from <= cursor <= w.to
    ensures w.from <= Stepped(w, width, cursor, cols) <= w.to
    ensures cols > 0 ==> Stepped(w, width, cursor, cols) > cursor || cursor == w.to
    ensures cols < 0 ==> Stepped(w, width, cursor, cols) < cursor || cursor == w.from
    ensures cols == 0 ==> Stepped(w, width, cursor, cols) == cursor
  {
    var colMs := MaxNat(MaxNat(w.to - w.from, 1) / MaxNat(width, 1), 1);
    var n: nat := if cols < 0 then -cols else cols;
    AtLeast(colMs, n);
  }

  lemma AtLeast(a: nat, b: nat)
    requires a >= 1
    ensures a * b >= b && (b == 0 ==> a * b == 0)
  {
  }

  // Where a key moves the timeline cursor within its window.
  function NextTimelineCursor(w: TimelineWindow, width: nat, key: Key, cursor: nat): nat
    requires w.from <= w.to
  {
    if Moves(key) then MovedTimelineCursor(w, width, key, cursor) else cursor
  }

  predicate Rezooms(key: Key) {
    key == Char('+') || key == Char('=') || key == Char('-')
  }

  function Rezoomed(zoom: nat, wider: bool): nat {
    if wider then (if zoom >= 6 then 6 else zoom + 1) else if zoom == 0 then 0 else zoom - 1
  }

  // A key that leaves its mode, or the app, moves neither the selection nor a cursor, and any
  // other key stays in its mode.
  predicate Leaves(mode: Mode, key: Key) {
    || key == Char('q') || key == Esc
    || (match mode
        case Live => key == Enter || key == Char('r') || key == Char('t')
        case Replay => key == Char('r') || key == Char('t')
        case Timeline => key == Enter || key == Char('t'))
  }

  lemma LeavingMovesNothing(mode: Mode, key: Key, selected: nat, devices: nat, rec: Recording, cursor: nat, event: Option<nat>,
                            w: Option<TimelineWindow>, width: nat)
    requires Leaves(mode, key) && (w.Some? ==> w.value.from <= w.value.to)
    ensures NextSelected(mode, key, selected, devices) == selected && key != Char('c') && key != Char('p')
    ensures !Rezooms(key) && key != Up && key != Down && key != Char('w') && key != Char('s')
    ensures key != Enter ==> NextCursor(rec, key, cursor, event) == cursor
    ensures w.Some? ==> NextTimelineCursor(w.value, width, key, cursor) == cursor
  {
    hide Cycled, MovedCursor, MovedTimelineCursor;
  }

  lemma StayingKeepsMode(mode: Mode, key: Key, viewer: bool, opens: bool, onEvent: bool)
    requires !Leaves(mode, key)
    ensures NextMode(mode, key, viewer, opens, onEvent) == mode && key != Char('q')
    ensures key != Char('t') && key != Esc && (mode.Timeline? || mode.Live? ==> key != Enter) && (!mode.Timeline? ==> key != Char('r'))
  {
  }

  class App {
    var selected: nat
    var mode: Mode
    var cursorMs: nat
    var storySelected: Option<nat>
    var replayHint: Option<ReplayBlock>
    var chartStyle: W.ChartStyle
    var timelineCursorMs: nat
    var timelineZoom: nat
    var timelineCols: nat
    const viewFile: bool
    var replay: Option<ReplayWindow>
    var timeline: Option<TimelineWindow>
    var timelineBuiltSeq: nat
    var storeOpen: bool

    // What the collector shares, and what the database holds.
    var ids: seq<string>
    var liveEvents: seq<nat>
    var tickSeq: nat
    var paused: bool
    var hasDbPath: bool
    var recording: Recording

    // The clock reading the cached timeline was built at.
    ghost var builtAt: nat

    // The replay window is the one around the cursor.
    ghost predicate ReplayCurrent()
      reads this`replay, this`recording, this`ids, this`cursorMs
    {
      replay == Some(ReplayAt(recording, ids, cursorMs))
    }

    // The timeline window is the one of the current zoom, with the cursor inside it.
    ghost predicate TimelineCurrent()
      reads this`timeline, this`recording, this`ids, this`timelineZoom, this`builtAt, this`timelineCursorMs
    {
      && timeline == Some(WindowAt(viewFile, recording, ids, timelineZoom, builtAt))
      && timeline.value.from <= timelineCursorMs <= timeline.value.to
    }

    // What holds at every moment of a session pinned to a file.
    ghost predicate InViewer()
      reads this`storeOpen, this`mode, this`timeline, this`replay, this`recording, this`ids, this`cursorMs
      reads this`timelineZoom, this`builtAt, this`timelineCursorMs
    {
      && viewFile && storeOpen && !mode.Live? && ReplayCurrent()
      && (timeline.None? || TimelineCurrent())
      && (mode.Timeline? ==> timeline.Some?)
    }

    predicate Valid()
      reads this`timelineZoom, this`mode, this`storeOpen, this`timeline
    {
      && timelineZoom < 7 && (!mode.Live? ==> storeOpen)
      && (timeline.Some? ==> timeline.value.from <= timeline.value.to)
    }

    // A live session.
    constructor (ids: seq<string>, hasDbPath: bool, recording: Recording)
      ensures Valid() && !viewFile && mode.Live? && this.ids == ids && this.recording == recording && timelineZoom == 2
    {
      selected, mode, cursorMs, storySelected, replayHint, chartStyle := 0, Live, 0, None, None, W.Braille;
      timelineCursorMs, timelineZoom, timelineCols := 0, TIMELINE_DEFAULT_ZOOM, 78;
      viewFile, replay, timeline, timelineBuiltSeq, storeOpen := false, None, None, 0, false;
      this.ids, liveEvents, tickSeq, paused := ids, [], 0, false;
      this.hasDbPath, this.recording := hasDbPath, recording;
    }

    // A session pinned to a file opens in replay at the newest event.
    constructor Viewer(ids: seq<string>, recording: Recording, now: nat)
      ensures Valid() && InViewer() && mode.Replay? && this.ids == ids && this.recording == recording && timelineZoom == 2
      ensures recording.events != [] ==> Some(cursorMs) == MaxOf(recording.events)
    {
      selected, mode, cursorMs, storySelected, replayHint, chartStyle := 0, Live, 0, None, None, W.Braille;
      timelineCursorMs, timelineZoom, timelineCols := 0, TIMELINE_DEFAULT_ZOOM, 78;
      viewFile, replay, timeline, timelineBuiltSeq, storeOpen := true, None, None, 0, true;
      this.ids, liveEvents, tickSeq, paused := ids, [], 0, false;
      hasDbPath, this.recording := true, recording;
      new;
      EnterReplay(MaxOf(recording.events), now);
    }

    function RecordedRange(): Option<(nat, nat)>
      reads this
    {
      match (EarliestBucket(recording), LatestBucket(recording))
      case (Some(a), Some(b)) => Some((a, b))
      case _ => None
    }

    method EnsureStore() returns (ok: bool)
      modifies this`storeOpen, this`replayHint
      ensures ok == storeOpen && (old(storeOpen) ==> storeOpen && replayHint == old(replayHint))
      ensures !ok ==> replayHint == Some(if hasDbPath then Unreadable else NoPersistence)
    {
      if storeOpen {
        return true;
      }
      if !hasDbPath {
        replayHint := Some(NoPersistence);
        return false;
      }
      var opens: bool := *;
      if opens {
        storeOpen := true;
      } else {
        replayHint := Some(Unreadable);
      }
      return opens;
    }

    method Seek(cursor: nat)
      modifies this`cursorMs, this`replay
      ensures cursorMs == cursor
      ensures if storeOpen then ReplayCurrent() else replay == old(replay)
    {
      cursorMs := cursor;
      if storeOpen {
        replay := Some(ReplayAt(recording, ids, cursor));
      }
    }

    method Position(events: seq<nat>, ts: nat) returns (r: Option<nat>)
      ensures r.None? ==> ts !in events
      ensures r.Some? ==> r.value < |events| && events[r.value] == ts && ts !in events[..r.value]
    {
      for i := 0 to |events|
        invariant ts !in events[..i]
      {
        if events[i] == ts {
          return Some(i);
        }
      }
      return None;
    }

    method SelectAt(ts: nat)
      modifies this`storySelected
      ensures storySelected.Some? ==>
        replay.Some? && storySelected.value < |replay.value.events| && replay.value.events[storySelected.value] == ts
      ensures replay.Some? && ts in replay.value.events ==> storySelected.Some?
    {
      storySelected := None;
      if replay.Some? {
        storySelected := Position(replay.value.events, ts);
      }
    }

    method EnterReplay(cursor: Option<nat>, now: nat)
      modifies this`storeOpen, this`replayHint, this`mode, this`storySelected, this`cursorMs, this`replay
      ensures old(storeOpen) ==> storeOpen
      ensures storeOpen ==> mode.Replay? && ReplayCurrent()
      ensures storeOpen ==> cursorMs == cursor.GetOr(LatestBucket(recording).GetOr(now))
      ensures !storeOpen ==> mode == old(mode) && cursorMs == old(cursorMs) && replay == old(replay)
      // entering at a recorded event selects it in the list
      ensures storeOpen && cursor.Some? ==>
        if cursor.value in recording.events then SelectedReplay() == Some(cursor.value) else storySelected.None?
    {
      var ok := EnsureStore();
      if !ok {
        return;
      }
      var range := RecordedRange();
      OldestBeforeNewest(recording);
      var anchor := cursor.GetOr(if range.Some? then range.value.1 else now);
      mode, replayHint, storySelected := Replay, None, None;
      Seek(anchor);
      if cursor.Some? {
        ListedAround(recording, ids, cursor.value);
        SelectAt(cursor.value);
      }
    }

    // The window was built at this clock reading, from everything recorded so far ...
    ghost predicate BuiltNow(now: nat)
      reads this`builtAt, this`timelineBuiltSeq, this`tickSeq
    {
      builtAt == now && timelineBuiltSeq == tickSeq
    }

    // ... or when it was built before.
    ghost predicate KeptBuilt(at: nat, seen: nat)
      reads this`builtAt, this`timelineBuiltSeq
    {
      builtAt == at && timelineBuiltSeq == seen
    }

    // Rebuild the window; a clamp whose bounds are out of order aborts.
    method TimelineRefresh(cursor: Option<nat>, now: nat) returns (panics: bool)
      requires Valid() && storeOpen
      modifies this`timelineCursorMs, this`timelineBuiltSeq, this`timeline, this`builtAt
      ensures panics <==> !viewFile && OldestAhead(recording, timelineZoom, now)
      ensures panics ==> timeline == old(timeline) && timelineCursorMs == old(timelineCursorMs) && builtAt == old(builtAt)
      ensures !panics ==> Valid() && timeline.Some? && TimelineCurrent() && builtAt == now && BuiltNow(now)
      ensures !panics ==> timelineCursorMs == Clamp(cursor.GetOr(timeline.value.to), timeline.value.from, timeline.value.to)
    {
      ViewerWindowFits(recording, timelineZoom, now);
      LiveWindowFitsIff(recording, timelineZoom, now);
      hide EarliestBucket, LatestBucket, PerDevice, EventsBetween, ZoomSpan, RecordedEnd;
      var end := RecordedEnd(recording);
      var to := if viewFile && end.Some? then end.value else now;
      var from := SatSub(to, ZoomSpan(timelineZoom));
      var clamped := false;
      var range := RecordedRange();
      OldestBeforeNewest(recording);
      if range.Some? && range.value.0 > from {
        from := range.value.0;
        clamped := true;
      }
      var tier := ZoomTier(timelineZoom);
      from := from - from % tier.Width();
      var samples := PerDevice(recording, tier, ids, from, to);
      var events := EventsBetween(recording.events, from, to);
      if from > to {
        return true;
      }
      timelineCursorMs := Clamp(cursor.GetOr(to), from, to);
      timelineBuiltSeq := tickSeq;
      timeline := Some(TimelineWindow(from, to, tier, clamped, samples, events));
      builtAt := now;
      return false;
    }

    method EnterTimeline(now: nat) returns (panics: bool)
      requires Valid()
      modifies this`storeOpen, this`replayHint, this`mode, this`storySelected
      modifies this`timelineCursorMs, this`timelineBuiltSeq, this`timeline, this`builtAt
      ensures old(storeOpen) ==> storeOpen
      ensures panics <==> storeOpen && !viewFile && OldestAhead(recording, timelineZoom, now)
      ensures mode == (if storeOpen then Timeline else old(mode))
      ensures !panics ==> Valid()
      ensures !panics && storeOpen ==> timeline.Some? && TimelineCurrent() && BuiltNow(now)
      ensures !panics && storeOpen ==>
        timelineCursorMs == Clamp(if old(mode).Replay? then cursorMs else timeline.value.to, timeline.value.from, timeline.value.to)
      ensures !storeOpen ==> timeline == old(timeline) && timelineCursorMs == old(timelineCursorMs) && builtAt == old(builtAt)
    {
      hide TimelineCurrent, BuiltNow, OldestAhead, WindowAt;
      var ok := EnsureStore();
      if !ok {
        return false;
      }
      var anchor := if mode.Replay? then Some(cursorMs) else None;
      mode, replayHint, storySelected := Timeline, None, None;
      panics := TimelineRefresh(anchor, now);
    }

    // A live overview is rebuilt once the collector has ticked; a file does not grow.
    predicate RefreshDue()
      reads this`mode, this`tickSeq, this`timelineBuiltSeq
    {
      mode.Timeline? && !viewFile && tickSeq != timelineBuiltSeq
    }

    predicate CursorBeforeEdge()
      reads this`timeline, this`timelineCursorMs
    {
      timeline.Some? && timelineCursorMs < timeline.value.to
    }

    method TimelineTick(now: nat) returns (panics: bool)
      requires Valid()
      modifies this`timelineCursorMs, this`timelineBuiltSeq, this`timeline, this`builtAt
      ensures !old(RefreshDue()) ==>
        !panics && timeline == old(timeline) && timelineCursorMs == old(timelineCursorMs) && KeptBuilt(old(builtAt), old(timelineBuiltSeq))
      ensures panics <==> old(RefreshDue()) && OldestAhead(recording, timelineZoom, now)
      ensures old(RefreshDue()) && !panics ==> BuiltNow(now)
      ensures !panics ==> Valid()
      ensures old(RefreshDue()) && !panics ==> TimelineCurrent() && timeline.value.to == now
      ensures old(RefreshDue()) && !panics ==>
        timelineCursorMs == if old(timeline.Some? && timelineCursorMs < timeline.value.to)
                            then Clamp(old(timelineCursorMs), timeline.value.from, now) else now
    {
      if !mode.Timeline? || viewFile || tickSeq == timelineBuiltSeq {
        return false;
      }
      var cursor := if CursorBeforeEdge() then Some(timelineCursorMs) else None;
      panics := TimelineRefresh(cursor, now);
    }

    method TimelineRezoom(wider: bool, now: nat) returns (panics: bool)
      requires Valid() && storeOpen
      modifies this`timelineZoom, this`timelineCursorMs, this`timelineBuiltSeq, this`timeline, this`builtAt
      ensures panics <==> !viewFile && OldestAhead(recording, timelineZoom, now)
      ensures timelineZoom == Rezoomed(old(timelineZoom), wider)
      ensures !panics ==> Valid() && timeline.Some? && TimelineCurrent() && BuiltNow(now)
      ensures !panics ==> timelineCursorMs == Clamp(old(timelineCursorMs), timeline.value.from, timeline.value.to)
    {
      timelineZoom := MinNat(if wider then timelineZoom + 1 else SatSub(timelineZoom, 1), TIMELINE_ZOOMS - 1);
      panics := TimelineRefresh(Some(timelineCursorMs), now);
    }

    method TimelineStep(cols: int)
      requires Valid()
      modifies this`timelineCursorMs
      ensures timeline.None? ==> timelineCursorMs == old(timelineCursorMs)
      ensures old(TimelineCurrent()) ==> TimelineCurrent()
      ensures timeline.Some? ==> timelineCursorMs == Stepped(timeline.value, timelineCols, old(timelineCursorMs), cols)
      ensures timeline.Some? ==> timeline.value.from <= timelineCursorMs <= timeline.value.to
    {
      if timeline.None? {
        return;
      }
      var w := timeline.value;
      var span := MaxNat(SatSub(w.to, w.from), 1);
      var colMs := MaxNat(span / MaxNat(timelineCols, 1), 1);
      var delta := colMs * (if cols < 0 then -cols else cols);
      var target := if cols < 0 then SatSub(timelineCursorMs, delta) else timelineCursorMs + delta;
      timelineCursorMs := Clamp(target, w.from, w.to);
    }

    // Scrubbing keeps the cursor within what is recorded.
    method Scrub(forward: bool, delta: nat)
      modifies this`cursorMs, this`replay
      ensures cursorMs == Scrubbed(recording, old(cursorMs), forward, delta)
      ensures EarliestBucket(recording).Some? ==>
        EarliestBucket(recording).value <= cursorMs <= LatestBucket(recording).GetOr(cursorMs)
      ensures if storeOpen then ReplayCurrent() else replay == old(replay)
    {
      OldestBeforeNewest(recording);
      var target := if forward then cursorMs + delta else SatSub(cursorMs, delta);
      var range := RecordedRange();
      var clamped := if range.Some? then Clamp(target, range.value.0, range.value.1) else target;
      Seek(clamped);
    }

    // How many events the story selection of the current mode ranges over.
    function StoryCount(): nat
      reads this`mode, this`liveEvents, this`replay
    {
      match mode
      case Live => |liveEvents|
      case Replay => if replay.Some? then |replay.value.events| else 0
      case Timeline => 0
    }

    method MoveStorySelection(down: bool)
      modifies this`storySelected
      ensures storySelected == MovedSelection(old(storySelected), StoryCount(), down)
      ensures storySelected.Some? ==> storySelected.value < StoryCount()
    {
      var count := match mode
        case Live => |liveEvents|
        case Replay => if replay.Some? then |replay.value.events| else 0
        case Timeline => 0;
      if count == 0 {
        storySelected := None;
        return;
      }
      storySelected := match storySelected
        case None => Some(0)
        case Some(i) => Some(MinNat(if down then i + 1 else SatSub(i, 1), count - 1));
    }

    // ---- key dispatch ----

    lemma WrapOnce(x: nat, n: nat)
      requires n > 0
      ensures x % n < n
      ensures x < 2 * n ==> x % n == if x < n then x else x - n
    {
      T.Division(x, n);
      T.Cancel(x / n, 1, n);
      T.Cancel(1, x / n, n);
      T.Cancel(x / n, 2, n);
    }

    method NextDevice(forward: bool)
      modifies this`selected
      ensures selected == Cycled(old(selected), |ids|, forward)
      ensures selected < MaxNat(|ids|, 1)
      ensures old(selected) < MaxNat(|ids|, 1) ==>
        selected == if forward then (if old(selected) + 1 < MaxNat(|ids|, 1) then old(selected) + 1 else 0)
                    else if old(selected) > 0 then old(selected) - 1 else MaxNat(|ids|, 1) - 1
    {
      var n := MaxNat(|ids|, 1);
      WrapOnce(selected + 1, n);
      WrapOnce(selected + n - 1, n);
      selected := if forward then (selected + 1) % n else (selected + n - 1) % n;
    }

    // The live event the story selection points at, newest first.
    function SelectedLive(): Option<nat>
      reads this
    {
      if storySelected.Some? && storySelected.value < |liveEvents|
      then Some(liveEvents[|liveEvents| - 1 - storySelected.value])
      else None
    }

    // The live feed is listed newest first.
    lemma FeedNewestFirst()
      ensures SelectedLive() == if storySelected.Some? && storySelected.value < |liveEvents|
                                then Some(liveEvents[|liveEvents| - 1 - storySelected.value]) else None
    {
    }

    // The event of the replay window the selection points at.
    function SelectedReplay(): Option<nat>
      reads this
    {
      if storySelected.Some? && replay.Some? && storySelected.value < |replay.value.events|
      then Some(replay.value.events[storySelected.value])
      else None
    }

    // The keys that stay in the live view.
    method LiveKey(key: Key)
      requires mode.Live?
      modifies this`selected, this`paused, this`storySelected, this`chartStyle
      ensures selected == NextSelected(Live, key, old(selected), |ids|)
      ensures paused == (if key == Char('p') then !old(paused) else old(paused))
      ensures chartStyle == if key == Char('c') then Toggled(old(chartStyle)) else old(chartStyle)
      ensures storySelected ==
        if key == Up || key == Char('w') then MovedSelection(old(storySelected), |liveEvents|, false)
        else if key == Down || key == Char('s') then MovedSelection(old(storySelected), |liveEvents|, true)
        else old(storySelected)
    {
      hide Cycled, MovedSelection, Toggled;
      if key == Tab || key == Right || key == Char('d') {
        NextDevice(true);
      } else if key == Left || key == BackTab || key == Char('a') {
        NextDevice(false);
      } else if key == Char('p') {
        paused := !paused;
      } else if key == Up || key == Char('w') {
        MoveStorySelection(false);
      } else if key == Down || key == Char('s') {
        MoveStorySelection(true);
      } else if key == Char('c') {
        chartStyle := Toggled(chartStyle);
      }
    }

    method HandleKeyLive(key: Key, now: nat) returns (o: KeyOutcome)
      requires Valid() && mode.Live?
      modifies this
      ensures unchanged(this`ids, this`recording, this`liveEvents, this`tickSeq, this`hasDbPath)
      ensures o.Quit? <==> key == Char('q') || key == Esc
      ensures !o.Panic? ==> Valid() && mode == NextMode(Live, key, viewFile, storeOpen, old(SelectedLive().Some?))
      ensures !o.Panic? && mode.Timeline? ==> TimelineCurrent() && BuiltNow(now)
      ensures !o.Panic? && mode.Replay? ==> ReplayCurrent()
      ensures mode.Replay? && key != Enter ==> cursorMs == LatestBucket(recording).GetOr(now)
      // the feed is listed newest first
      ensures mode.Replay? && key == Enter ==> old(storySelected.Some? && storySelected.value < |liveEvents|)
      ensures mode.Replay? && key == Enter ==> cursorMs == old(liveEvents[|liveEvents| - 1 - storySelected.value])
      ensures mode.Live? ==> cursorMs == old(cursorMs) && replay == old(replay) && timeline == old(timeline)
      ensures mode.Replay? && key == Enter && cursorMs in recording.events ==> SelectedReplay() == Some(cursorMs)
      ensures selected == NextSelected(Live, key, old(selected), |ids|)
      ensures paused == (if key == Char('p') then !old(paused) else old(paused))
      ensures chartStyle == if key == Char('c') then Toggled(old(chartStyle)) else old(chartStyle)
      ensures key == Up || key == Char('w') ==> storySelected == MovedSelection(old(storySelected), |liveEvents|, false)
      ensures key == Down || key == Char('s') ==> storySelected == MovedSelection(old(storySelected), |liveEvents|, true)
      ensures o.Panic? ==> key == Char('t') && !viewFile && OldestAhead(recording, timelineZoom, now)
    {
      hide ReplayCurrent, TimelineCurrent, BuiltNow, OldestAhead, EarliestBucket, LatestBucket, WindowAt, ReplayAt;
      hide Cycled, Clamp, MovedSelection, Toggled, SelectedLive, NextSelected;
      FeedNewestFirst();
      if !Leaves(Live, key) {
        StayingKeepsMode(Live, key, viewFile, storeOpen, SelectedLive().Some?);
        LiveKey(key);
        return Continue;
      }
      LeavingMovesNothing(Live, key, selected, |ids|, recording, 0, None, None, 0);
      o := Continue;
      if key == Char('q') || key == Esc {
        return Quit;
      } else if key == Enter {
        var ts := SelectedLive();
        if ts.Some? {
          EnterReplay(ts, now);
        }
      } else if key == Char('r') {
        EnterReplay(None, now);
      } else {
        var panics := EnterTimeline(now);
        o := if panics then Panic else Continue;
      }
    }

    method SeekEdge(newest: bool)
      modifies this`cursorMs, this`replay
      ensures EarliestBucket(recording).None? ==> cursorMs == old(cursorMs) && replay == old(replay)
      ensures EarliestBucket(recording).Some? ==> (if storeOpen then ReplayCurrent() else replay == old(replay))
      ensures EarliestBucket(recording).Some? ==>
        Some(cursorMs) == if newest then LatestBucket(recording) else EarliestBucket(recording)
    {
      OldestBeforeNewest(recording);
      var range := RecordedRange();
      if range.Some? {
        Seek(if newest then range.value.1 else range.value.0);
      }
    }

    method SeekSelected()
      requires storeOpen
      modifies this`cursorMs, this`replay, this`storySelected
      ensures cursorMs == old(SelectedReplay()).GetOr(old(cursorMs))
      ensures old(SelectedReplay()).Some? ==> ReplayCurrent()
      ensures old(SelectedReplay()).None? ==> replay == old(replay)
      ensures old(SelectedReplay()).Some? && cursorMs in recording.events ==> SelectedReplay() == Some(cursorMs)
    {
      if replay.Some? && storySelected.Some? && storySelected.value < |replay.value.events| {
        var ts := replay.value.events[storySelected.value];
        ListedAround(recording, ids, ts);
        Seek(ts);
        SelectAt(ts);
      }
    }

    method MoveReplayCursor(key: Key)
      requires Moves(key) && storeOpen
      modifies this`cursorMs, this`replay
      ensures cursorMs == MovedCursor(recording, key, old(cursorMs))
      ensures ReplayCurrent() || (replay == old(replay) && cursorMs == old(cursorMs))
    {
      OldestBeforeNewest(recording);
      hide ReplayCurrent, EarliestBucket, LatestBucket, Scrubbed;
      if key == Left || key == Char('a') {
        Scrub(false, SCRUB_STEP_MS);
      } else if key == Right || key == Char('d') {
        Scrub(true, SCRUB_STEP_MS);
      } else if key == PageUp || key == Char('A') {
        Scrub(false, SCRUB_PAGE_MS);
      } else if key == PageDown || key == Char('D') {
        Scrub(true, SCRUB_PAGE_MS);
      } else if key == Home || key == Char('g') {
        SeekEdge(false);
      } else {
        SeekEdge(true);
      }
    }

    // The keys that stay in replay.
    method ReplayKey(key: Key)
      requires storeOpen && mode.Replay?
      modifies this`selected, this`cursorMs, this`storySelected, this`replay, this`chartStyle
      ensures old(ReplayCurrent()) ==> ReplayCurrent()
      ensures cursorMs == NextCursor(recording, key, old(cursorMs), old(SelectedReplay()))
      ensures selected == NextSelected(Replay, key, old(selected), |ids|)
      ensures chartStyle == if key == Char('c') then Toggled(old(chartStyle)) else old(chartStyle)
      ensures key == Enter && old(SelectedReplay()).Some? && cursorMs in recording.events ==> SelectedReplay() == Some(cursorMs)
      ensures key == Up || key == Char('w') ==> storySelected == MovedSelection(old(storySelected), StoryCount(), false)
      ensures key == Down || key == Char('s') ==> storySelected == MovedSelection(old(storySelected), StoryCount(), true)
    {
      hide ReplayCurrent, Cycled, MovedCursor, MovedSelection, SelectedReplay, Toggled, StoryCount;
      if Moves(key) {
        MoveReplayCursor(key);
      } else if key == Tab {
        NextDevice(true);
      } else if key == BackTab {
        NextDevice(false);
      } else if key == Up || key == Char('w') {
        MoveStorySelection(false);
      } else if key == Down || key == Char('s') {
        MoveStorySelection(true);
      } else if key == Enter {
        SeekSelected();
      } else if key == Char('c') {
        chartStyle := Toggled(chartStyle);
      }
    }

    method HandleKeyReplay(key: Key, now: nat) returns (o: KeyOutcome)
      requires Valid() && mode.Replay?
      modifies this`selected, this`mode, this`cursorMs, this`storySelected, this`replayHint, this`replay, this`storeOpen
      modifies this`chartStyle, this`timelineCursorMs, this`timeline, this`timelineBuiltSeq, this`builtAt
      ensures o.Quit? <==> key == Char('q')
      ensures !o.Panic? ==> Valid() && mode == NextMode(Replay, key, viewFile, storeOpen, false)
      ensures old(ReplayCurrent()) ==> ReplayCurrent()
      ensures cursorMs == NextCursor(recording, key, old(cursorMs), old(SelectedReplay()))
      ensures key == Enter && old(SelectedReplay()).Some? && cursorMs in recording.events ==> SelectedReplay() == Some(cursorMs)
      ensures key != Char('t') ==> timeline == old(timeline) && timelineCursorMs == old(timelineCursorMs)
      ensures key != Char('t') ==> KeptBuilt(old(builtAt), old(timelineBuiltSeq))
      ensures key == Char('t') && !o.Panic? ==> timeline.Some? && TimelineCurrent() && BuiltNow(now)
      ensures selected == NextSelected(Replay, key, old(selected), |ids|)
      ensures chartStyle == if key == Char('c') then Toggled(old(chartStyle)) else old(chartStyle)
      ensures o.Panic? ==> !viewFile && OldestAhead(recording, timelineZoom, now)
    {
      hide ReplayCurrent, TimelineCurrent, BuiltNow, OldestAhead, WindowAt, ReplayAt, EarliestBucket, LatestBucket;
      hide SelectedReplay, Toggled, Clamp, NextCursor, NextSelected, Rezooms;
      if !Leaves(Replay, key) {
        StayingKeepsMode(Replay, key, viewFile, storeOpen, false);
        ReplayKey(key);
        return Continue;
      }
      LeavingMovesNothing(Replay, key, selected, |ids|, recording, cursorMs, SelectedReplay(), None, 0);
      o := Continue;
      if key == Char('q') {
        return Quit;
      } else if key == Esc || key == Char('r') {
        LeaveReplay();
      } else {
        var panics := EnterTimeline(now);
        o := if panics then Panic else Continue;
      }
    }

    // There is no live view behind a recording to return to.
    method LeaveReplay()
      modifies this`mode, this`storySelected
      ensures mode == if viewFile then old(mode) else Live
    {
      if !viewFile {
        mode, storySelected := Live, None;
      }
    }

    method CursorToEdge(newest: bool)
      requires Valid()
      modifies this`timelineCursorMs
      ensures old(TimelineCurrent()) ==> TimelineCurrent()
      ensures timelineCursorMs ==
        if timeline.None? then old(timelineCursorMs) else if newest then timeline.value.to else timeline.value.from
    {
      if timeline.Some? {
        timelineCursorMs := if newest then timeline.value.to else timeline.value.from;
      }
    }

    method MoveTimelineCursor(key: Key)
      requires Valid() && Moves(key)
      modifies this`timelineCursorMs
      ensures timeline.None? ==> timelineCursorMs == old(timelineCursorMs)
      ensures timeline.Some? ==> timelineCursorMs == MovedTimelineCursor(timeline.value, timelineCols, key, old(timelineCursorMs))
      ensures old(TimelineCurrent()) ==> TimelineCurrent()
    {
      hide TimelineCurrent, Stepped;
      if key == Left || key == Char('a') {
        TimelineStep(-1);
      } else if key == Right || key == Char('d') {
        TimelineStep(1);
      } else if key == PageUp || key == Char('A') {
        TimelineStep(-TIMELINE_PAGE_COLS);
      } else if key == PageDown || key == Char('D') {
        TimelineStep(TIMELINE_PAGE_COLS);
      } else if key == Home || key == Char('g') {
        CursorToEdge(false);
      } else {
        CursorToEdge(true);
      }
    }

    // The keys that stay in the overview at its zoom.
    method TimelineKey(key: Key)
      requires Valid()
      modifies this`selected, this`timelineCursorMs
      ensures old(TimelineCurrent()) ==> TimelineCurrent()
      ensures timeline.None? ==> timelineCursorMs == old(timelineCursorMs)
      ensures timeline.Some? ==> timelineCursorMs == NextTimelineCursor(timeline.value, timelineCols, key, old(timelineCursorMs))
      ensures selected == NextSelected(Timeline, key, old(selected), |ids|)
    {
      hide TimelineCurrent, Cycled, MovedTimelineCursor;
      if Moves(key) {
        MoveTimelineCursor(key);
      } else if key == Tab {
        NextDevice(true);
      } else if key == BackTab {
        NextDevice(false);
      }
    }

    // The keys that stay in the overview: those that change its zoom, and those that do not.
    method StayInTimeline(key: Key, now: nat) returns (o: KeyOutcome)
      requires Valid() && mode.Timeline?
      modifies this`selected, this`timelineCursorMs, this`timelineZoom, this`timeline, this`timelineBuiltSeq, this`builtAt
      ensures !o.Quit? && (!o.Panic? ==> Valid()) && (o.Panic? ==> !viewFile && OldestAhead(recording, timelineZoom, now))
      ensures old(TimelineCurrent()) && !o.Panic? ==> TimelineCurrent()
      ensures !Rezooms(key) ==> !o.Panic? && timeline == old(timeline) && timelineZoom == old(timelineZoom)
      ensures !Rezooms(key) ==> KeptBuilt(old(builtAt), old(timelineBuiltSeq))
      ensures !Rezooms(key) && timeline.Some? ==>
        timelineCursorMs == NextTimelineCursor(timeline.value, timelineCols, key, old(timelineCursorMs))
      ensures Rezooms(key) ==> timelineZoom == Rezoomed(old(timelineZoom), key == Char('-'))
      ensures Rezooms(key) && !o.Panic? ==> timeline.Some? && TimelineCurrent() && BuiltNow(now)
      ensures Rezooms(key) && !o.Panic? ==> timelineCursorMs == Clamp(old(timelineCursorMs), timeline.value.from, timeline.value.to)
      ensures selected == NextSelected(Timeline, key, old(selected), |ids|)
    {
      hide TimelineCurrent, BuiltNow, OldestAhead, WindowAt, NextTimelineCursor, Cycled, Rezoomed, Clamp;
      o := Continue;
      if key == Char('+') || key == Char('=') || key == Char('-') {
        var panics := TimelineRezoom(key == Char('-'), now);
        o := if panics then Panic else Continue;
      } else {
        TimelineKey(key);
      }
    }

    method HandleKeyTimeline(key: Key, now: nat) returns (o: KeyOutcome)
      requires Valid() && mode.Timeline?
      modifies this`selected, this`mode, this`cursorMs, this`storySelected, this`replayHint, this`replay, this`storeOpen
      modifies this`timelineCursorMs, this`timelineZoom, this`timeline, this`timelineBuiltSeq, this`builtAt
      ensures o.Quit? <==> key == Char('q')
      ensures !o.Panic? ==> Valid() && mode == NextMode(Timeline, key, viewFile, storeOpen, false)
      ensures old(TimelineCurrent()) && !o.Panic? ==> TimelineCurrent()
      ensures key == Enter ==> cursorMs == old(timelineCursorMs) && ReplayCurrent()
      ensures key != Enter ==> cursorMs == old(cursorMs) && replay == old(replay)
      ensures !Rezooms(key) ==> timeline == old(timeline) && timelineZoom == old(timelineZoom)
      ensures !Rezooms(key) && timeline.Some? ==>
        timelineCursorMs == NextTimelineCursor(timeline.value, timelineCols, key, old(timelineCursorMs))
      ensures Rezooms(key) ==> timelineZoom == Rezoomed(old(timelineZoom), key == Char('-'))
      ensures !Rezooms(key) ==> KeptBuilt(old(builtAt), old(timelineBuiltSeq))
      ensures Rezooms(key) && !o.Panic? ==> timeline.Some? && TimelineCurrent() && BuiltNow(now)
      ensures Rezooms(key) && !o.Panic? ==> timelineCursorMs == Clamp(old(timelineCursorMs), timeline.value.from, timeline.value.to)
      ensures selected == NextSelected(Timeline, key, old(selected), |ids|)
      ensures o.Panic? ==> !viewFile && OldestAhead(recording, timelineZoom, now)
    {
      hide ReplayCurrent, TimelineCurrent, BuiltNow, OldestAhead, WindowAt, ReplayAt, EarliestBucket, LatestBucket;
      hide NextTimelineCursor, NextSelected, Rezoomed, Clamp;
      if !Leaves(Timeline, key) {
        StayingKeepsMode(Timeline, key, viewFile, storeOpen, false);
        o := StayInTimeline(key, now);
        return;
      }
      LeavingMovesNothing(Timeline, key, selected, |ids|, recording, timelineCursorMs, None, timeline, timelineCols);
      o := Continue;
      if key == Char('q') {
        return Quit;
      } else if key == Char('t') || key == Esc {
        mode := if viewFile then Replay else Live;
      } else {
        EnterReplay(Some(timelineCursorMs), now);
      }
    }

    method HandleKey(key: Key, now: nat) returns (o: KeyOutcome)
      requires Valid()
      modifies this
      ensures unchanged(this`ids, this`recording, this`liveEvents, this`tickSeq, this`hasDbPath)
      ensures o.Quit? <==> key == Char('q') || (key == Esc && old(mode).Live?)
      ensures !o.Panic? ==> Valid()
      ensures !o.Panic? ==> mode == NextMode(old(mode), key, viewFile, storeOpen, old(SelectedLive().Some?))
      ensures old(InViewer()) ==> InViewer() && !o.Panic?
      ensures o.Panic? ==> !viewFile && OldestAhead(recording, timelineZoom, now)
      ensures !o.Panic? && mode.Timeline? ==>
        (TimelineCurrent() && BuiltNow(now))
        || (old(mode).Timeline? && KeptBuilt(old(builtAt), old(timelineBuiltSeq)) && (old(TimelineCurrent()) ==> TimelineCurrent()))
    {
      hide WindowAt, ReplayAt, OldestAhead, EarliestBucket, LatestBucket, NextCursor, NextTimelineCursor, Stepped, Cycled, Clamp, NextSelected;
      match mode
      case Live => o := HandleKeyLive(key, now);
      case Replay => o := HandleKeyReplay(key, now);
      case Timeline => o := HandleKeyTimeline(key, now);
    }

    // ---- whole sessions ----

    // What the current mode's draw reads.
    function Draw(): Shown
      reads this
    {
      Shown(mode, if mode.Replay? then replay else None, if mode.Timeline? then timeline else None,
            if mode.Timeline? then timelineCursorMs else cursorMs)
    }

    // A draw of a pinned recording: never live, its window current, a timeline cursor inside a
    // window that reaches the end of what was recorded.
    static ghost predicate ShowsRecording(rec: Recording, ids: seq<string>, f: Shown) {
      match f.mode
      case Live => false
      case Replay => f.replay == Some(ReplayAt(rec, ids, f.cursor))
      case Timeline => f.timeline.Some? && Covers(rec, f.timeline.value) && f.timeline.value.from <= f.cursor <= f.timeline.value.to
    }

    lemma DrawShowsRecording()
      requires InViewer()
      ensures ShowsRecording(recording, ids, Draw())
    {
      ViewerWindowCovers(recording, ids, timelineZoom, builtAt);
      hide Covers, WindowAt;
    }

    // A draw of a live session's overview at moment n: everything recorded by then, in a window
    // of some zoom that ends at a moment since which the collector has not ticked.
    static ghost predicate ShowsLatest(start: Recording, ids: seq<string>, passes: seq<Pass>, n: nat, f: Shown)
      requires n <= 2 * |passes|
    {
      f.mode.Timeline? ==> exists m: nat, zoom: nat :: m < n && LatestWindow(start, ids, passes, m, n, zoom, f)
    }

    static ghost predicate LatestWindow(start: Recording, ids: seq<string>, passes: seq<Pass>, m: nat, n: nat, zoom: nat, f: Shown)
      requires m < n <= 2 * |passes|
    {
      && zoom < 7 && NoTickSince(passes, m, n)
      && f.timeline == Some(WindowAt(false, RecordedBy(start, passes, n), ids, zoom, MomentAt(passes, m).now))
      && f.timeline.value.from <= f.cursor <= f.timeline.value.to
    }

    // After n moments a live session's overview was built at one of them, and either from what
    // is recorded now or with a rebuild due.
    ghost predicate Follows(start: Recording, passes: seq<Pass>, n: nat, m: nat)
      reads this
      requires n <= 2 * |passes|
    {
      && !viewFile && timelineZoom < 7 && recording == RecordedBy(start, passes, n)
      && (mode.Timeline? ==> m < n && builtAt == MomentAt(passes, m).now && timelineBuiltSeq <= tickSeq)
      && (mode.Timeline? && timelineBuiltSeq == tickSeq ==> TimelineCurrent() && NoTickSince(passes, m, n))
    }

    lemma DrawShowsLatest(start: Recording, passes: seq<Pass>, n: nat, m: nat)
      requires n <= 2 * |passes| && Follows(start, passes, n, m) && (mode.Timeline? ==> timelineBuiltSeq == tickSeq)
      ensures ShowsLatest(start, ids, passes, n, Draw())
    {
      if mode.Timeline? {
        hide WindowAt, MomentAt, RecordedBy;
        assert LatestWindow(start, ids, passes, m, n, timelineZoom, Draw());
      }
    }

    // The collector ticks, or does not, and whatever it recorded is there to be read.
    method Follow(feed: Option<Recording>)
      requires Valid() && (feed.Some? ==> !viewFile)
      modifies this`recording, this`tickSeq
      ensures Valid() && recording == feed.GetOr(old(recording)) && tickSeq == old(tickSeq) + if feed.Some? then 1 else 0
    {
      if feed.Some? {
        recording, tickSeq := feed.value, tickSeq + 1;
      }
    }

    // The selected device stays on the list.
    method KeepSelection()
      modifies this`selected
      ensures ids != [] ==> selected < |ids|
    {
      if |ids| > 0 && selected >= |ids| {
        selected := |ids| - 1;
      }
    }

    // The first half of a pass: the overview follows the collector.
    method BeforeDraw(passes: seq<Pass>, i: nat, ghost start: Recording, ghost m: nat) returns (panics: bool, ghost built: nat)
      requires Valid() && i < |passes| && (passes[i].draw.feed.Some? ==> !viewFile)
      modifies this`recording, this`tickSeq, this`timelineCursorMs, this`timelineBuiltSeq, this`timeline, this`builtAt, this`selected
      ensures !panics ==> Valid()
      ensures recording == passes[i].draw.feed.GetOr(old(recording))
      ensures panics ==> !viewFile && OldestAhead(recording, timelineZoom, passes[i].draw.now)
      ensures viewFile ==> timeline == old(timeline) && timelineCursorMs == old(timelineCursorMs) && builtAt == old(builtAt)
      ensures old(Follows(start, passes, 2 * i, m)) && !panics ==>
        Follows(start, passes, 2 * i + 1, built) && (mode.Timeline? ==> timelineBuiltSeq == tickSeq)
    {
      hide WindowAt, OldestAhead;
      Follow(passes[i].draw.feed);
      built := if RefreshDue() then 2 * i else m;
      panics := TimelineTick(passes[i].draw.now);
      KeepSelection();
    }

    // The second half: the loop waits for a key.
    method AfterDraw(passes: seq<Pass>, i: nat, ghost start: Recording, ghost m: nat) returns (o: KeyOutcome, ghost built: nat)
      requires Valid() && i < |passes| && (passes[i].wake.feed.Some? ==> !viewFile)
      modifies this
      ensures !o.Panic? ==> Valid()
      ensures ids == old(ids) && recording == passes[i].wake.feed.GetOr(old(recording))
      ensures o.Panic? ==> !viewFile && OldestAhead(recording, timelineZoom, passes[i].wake.now)
      ensures old(InViewer()) ==> InViewer() && !o.Panic?
      ensures old(Follows(start, passes, 2 * i + 1, m)) && !o.Panic? ==> Follows(start, passes, 2 * i + 2, built)
    {
      hide WindowAt, ReplayAt, OldestAhead, NextMode, SelectedLive;
      timelineCols := MaxNat(SatSub(passes[i].width, 2), 1);
      Follow(passes[i].wake.feed);
      o := Continue;
      if passes[i].key.Some? {
        o := HandleKey(passes[i].key.value, passes[i].wake.now);
      }
      built := if old(mode).Timeline? && KeptBuilt(old(builtAt), old(timelineBuiltSeq)) then m else 2 * i + 1;
    }

    // The event loop over any passes: each follows the collector, draws, and waits for a key. A
    // pinned recording is shown to its end whatever is pressed; in a live session that begins
    // elsewhere, every draw of the overview shows all that is recorded by then.
    method EventLoop(passes: seq<Pass>) returns (o: KeyOutcome, draws: seq<Shown>)
      requires Valid() && (viewFile ==> NeverTicks(passes))
      modifies this
      ensures ids == old(ids) && (viewFile ==> recording == old(recording))
      ensures old(InViewer()) ==> InViewer() && !o.Panic?
      ensures old(InViewer()) ==> forall i :: 0 <= i < |draws| ==> ShowsRecording(recording, ids, draws[i])
      ensures !viewFile && !old(mode).Timeline? ==>
        forall i :: 0 <= i < |draws| ==> i < |passes| && ShowsLatest(old(recording), ids, passes, 2 * i + 1, draws[i])
      ensures |draws| <= |passes| && (o.Continue? ==> |draws| == |passes|)
      ensures o.Panic? ==> !viewFile
    {
      hide WindowAt, ReplayAt, ShowsRecording, ShowsLatest, OldestAhead, Draw;
      draws, o := [], Continue;
      ghost var m: nat := 0;
      ghost var live := !viewFile && !mode.Timeline?;
      for i := 0 to |passes|
        invariant Valid() && |draws| == i && o.Continue?
        invariant ids == old(ids) && (viewFile ==> recording == old(recording))
        invariant old(InViewer()) ==> InViewer()
        invariant old(InViewer()) ==> forall k :: 0 <= k < i ==> ShowsRecording(recording, ids, draws[k])
        invariant live ==> Follows(old(recording), passes, 2 * i, m)
        invariant live ==> forall k :: 0 <= k < i ==> ShowsLatest(old(recording), ids, passes, 2 * k + 1, draws[k])
      {
        var panics: bool;
        panics, m := BeforeDraw(passes, i, old(recording), m);
        if panics {
          return Panic, draws;
        }
        if old(InViewer()) {
          DrawShowsRecording();
        }
        if live {
          DrawShowsLatest(old(recording), passes, 2 * i + 1, m);
        }
        draws := draws + [Draw()];
        o, m := AfterDraw(passes, i, old(recording), m);
        if !o.Continue? {
          return o, draws;
        }
      }
    }
  }
}
