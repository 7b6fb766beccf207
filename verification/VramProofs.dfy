/** The VRAM trend behind a `VramPressure` event (crates/core/src/events.rs:750-837). */
module VramProofs {
  import opened Base
  import opened Telemetry
  import opened Narration

  datatype Reading = Reading(ts: nat, used: nat, total: nat)

  // The readings of the first k ticks; a tick without a used or total figure contributes none.
  function Readings(ticks: seq<Tick>, k: nat): seq<Reading>
    requires k <= |ticks|
  {
    if k == 0 then []
    else
      var t := ticks[k - 1];
      Readings(ticks, k - 1) +
      (if t.sample.memUsed.Some? && t.memTotal.Some? && t.memTotal.value > 0
       then [Reading(t.sample.ts, t.sample.memUsed.value, t.memTotal.value)] else [])
  }

  // Use fell by more than a twentieth of the memory.
  predicate DropAt(rs: seq<Reading>, i: nat)
    requires 0 < i < |rs|
  {
    20 * rs[i - 1].used > 20 * rs[i].used + rs[i].total
  }

  // Reading i is more than the trend window older than the newest reading.
  predicate StaleAt(rs: seq<Reading>, i: nat)
    requires i < |rs|
  {
    rs[|rs| - 1].ts > rs[i].ts + 180_000
  }

  lemma DropFigure(before: nat, after: nat, total: nat)
    ensures SharpDrop(before, after, total) <==> 20 * before > 20 * after + total
  {
    assert total == 20 * (total / 20) + total % 20;
  }

  predicate IsTail(w: seq<(nat, nat)>, rs: seq<Reading>, off: nat)
    requires off <= |rs|
  {
    |w| == |rs| - off && forall i :: 0 <= i < |w| ==> w[i] == (rs[off + i].ts, rs[off + i].used)
  }

  // The trend window is the longest run of newest readings with no sharp drop inside it and
  // nothing in it older than the window.
  ghost predicate LongestCalmTail(w: seq<(nat, nat)>, rs: seq<Reading>) {
    if rs == [] then w == []
    else
      && 0 < |w| <= |rs|
      && var off := |rs| - |w|;
      && IsTail(w, rs, off)
      && (forall i :: off < i < |rs| ==> !DropAt(rs, i))
      && (forall i :: off <= i < |rs| ==> !StaleAt(rs, i))
      && (off > 0 ==> DropAt(rs, off) || StaleAt(rs, off - 1))
  }

  lemma VramAt(r: Run, k: nat)
    requires IsRun(r) && k < |r.ticks|
    ensures VramStep(r.states[k + 1].procs.procs, r.states[k].vram, r.ticks[k].sample, r.ticks[k].memTotal,
                     r.states[k + 1].vram, r.outs[k].vram)
  {
    hide SpillStep, IdleStep, ProcessStep, VramStep, HangStep, ThrottleStep;
    assert StepAt(r, k);
  }

  // Dropping stale readings removes a stale prefix and keeps the rest, never the newest.
  lemma {:induction false} DropStaleTail(w: seq<(nat, nat)>, ts: nat)
    requires w != [] && w[|w| - 1].0 == ts
    ensures 0 < |DropStale(w, ts)| <= |w|
    ensures var d := |w| - |DropStale(w, ts)|;
      && DropStale(w, ts) == w[d..]
      && (forall i :: 0 <= i < d ==> ts > w[i].0 + 180_000)
      && ts <= w[d].0 + 180_000
  {
    if SatSub(ts, w[0].0) > 180_000 {
      var rest := w[1..];
      DropStaleTail(rest, ts);
      var d := |w| - |DropStale(w, ts)|;
      forall i | 0 <= i < d ensures ts > w[i].0 + 180_000 {
        assert i > 0 ==> w[i] == rest[i - 1];
      }
    }
  }

  ghost predicate SortedReadings(rs: seq<Reading>) {
    forall i, j :: 0 <= i <= j < |rs| ==> rs[i].ts <= rs[j].ts
  }

  lemma {:induction false} MonotoneReadings(r: Run, k: nat)
    requires Shaped(r) && Monotone(r) && k <= |r.ticks|
    ensures SortedReadings(Readings(r.ticks, k))
    ensures forall i :: 0 <= i < |Readings(r.ticks, k)| ==> k > 0 && Readings(r.ticks, k)[i].ts <= Ts(r, k - 1)
  {
    if k > 0 {
      MonotoneReadings(r, k - 1);
      assert k > 1 ==> Ts(r, k - 2) <= Ts(r, k - 1);
    }
  }

  // A longest tail with no sharp drop inside it that may still hold stale readings.
  ghost predicate LongestSteadyTail(w: seq<(nat, nat)>, rs: seq<Reading>) {
    && 0 < |w| <= |rs|
    && var off := |rs| - |w|;
    && IsTail(w, rs, off)
    && (forall i :: off < i < |rs| ==> !DropAt(rs, i))
    && (off > 0 ==> DropAt(rs, off) || StaleAt(rs, off - 1))
  }

  lemma AppendReading(w: seq<(nat, nat)>, rs: seq<Reading>, x: Reading)
    requires LongestCalmTail(w, rs) && SortedReadings(rs + [x])
    requires w == [] || !SharpDrop(w[|w| - 1].1, x.used, x.total)
    ensures LongestSteadyTail(w + [(x.ts, x.used)], rs + [x])
  {
    var all, off := rs + [x], |rs| - |w|;
    if w != [] {
      DropFigure(w[|w| - 1].1, x.used, x.total);
      assert w[|w| - 1] == (rs[|rs| - 1].ts, rs[|rs| - 1].used);
      assert forall i :: 0 < i < |rs| ==> DropAt(all, i) == DropAt(rs, i);
      assert off > 0 && StaleAt(rs, off - 1) ==> StaleAt(all, off - 1) by {
        assert all[|rs| - 1].ts <= all[|rs|].ts;
      }
    }
  }

  // Dropping a prefix of a tail leaves a shorter tail.
  lemma ShorterTail(w: seq<(nat, nat)>, rs: seq<Reading>, off: nat, d: nat)
    requires off <= |rs| && IsTail(w, rs, off) && d <= |w|
    ensures IsTail(w[d..], rs, off + d)
  {
    forall i | 0 <= i < |w| - d ensures w[d..][i] == (rs[off + d + i].ts, rs[off + d + i].used) {
      assert w[d..][i] == w[d + i];
    }
  }

  // In sorted readings nothing after a reading that is fresh enough is stale.
  lemma FreshOnwards(rs: seq<Reading>, off: nat)
    requires off < |rs| && SortedReadings(rs) && !StaleAt(rs, off)
    ensures forall i :: off <= i < |rs| ==> !StaleAt(rs, i)
  {
    forall i | off <= i < |rs| ensures !StaleAt(rs, i) {
      assert rs[off].ts <= rs[i].ts;
    }
  }

  lemma ShedStale(w: seq<(nat, nat)>, rs: seq<Reading>)
    requires LongestSteadyTail(w, rs) && SortedReadings(rs)
    ensures LongestCalmTail(DropStale(w, rs[|rs| - 1].ts), rs)
  {
    hide DropStale, SortedReadings, DropAt;
    var ts, off := rs[|rs| - 1].ts, |rs| - |w|;
    assert w[|w| - 1] == (rs[|rs| - 1].ts, rs[|rs| - 1].used);
    DropStaleTail(w, ts);
    var d := |w| - |DropStale(w, ts)|;
    ShorterTail(w, rs, off, d);
    assert w[d] == (rs[off + d].ts, rs[off + d].used);
    FreshOnwards(rs, off + d);
    if d > 0 {
      assert w[d - 1] == (rs[off + d - 1].ts, rs[off + d - 1].used);
    }
  }

  // One more reading: the window stays the longest calm tail.
  lemma PushKeepsTrend(w: seq<(nat, nat)>, rs: seq<Reading>, x: Reading)
    requires LongestCalmTail(w, rs) && SortedReadings(rs + [x])
    ensures LongestCalmTail(PushReading(w, x.ts, x.used, x.total), rs + [x])
  {
    if w != [] {
      DropFigure(w[|w| - 1].1, x.used, x.total);
    }
    if w != [] && SharpDrop(w[|w| - 1].1, x.used, x.total) {
      assert w[|w| - 1] == (rs[|rs| - 1].ts, rs[|rs| - 1].used);
      assert DropAt(rs + [x], |rs|);
      assert LongestSteadyTail([] + [(x.ts, x.used)], rs + [x]);
      ShedStale([] + [(x.ts, x.used)], rs + [x]);
    } else {
      AppendReading(w, rs, x);
      ShedStale(w + [(x.ts, x.used)], rs + [x]);
    }
  }

  // With a clock that never steps back the window is, before every tick, the longest calm
  // tail of the readings so far.
  lemma {:induction false} WindowIsTrend(r: Run, k: nat)
    requires IsRun(r) && Monotone(r) && k <= |r.ticks|
    ensures LongestCalmTail(r.states[k].vram.window, Readings(r.ticks, k))
  {
    hide PressureDue, Slope, PushReading, LongestCalmTail, NamedGrower;
    if k == 0 {
      EmptyTrend();
    } else {
      WindowIsTrend(r, k - 1);
      VramAt(r, k - 1);
      var t := r.ticks[k - 1];
      if VramReadable(t.sample, t.memTotal) {
        var x := Reading(t.sample.ts, t.sample.memUsed.value, t.memTotal.value);
        assert Readings(r.ticks, k) == Readings(r.ticks, k - 1) + [x];
        assert r.states[k].vram.window == PushReading(r.states[k - 1].vram.window, x.ts, x.used, x.total);
        MonotoneReadings(r, k);
        PushKeepsTrend(r.states[k - 1].vram.window, Readings(r.ticks, k - 1), x);
      } else {
        assert Readings(r.ticks, k) == Readings(r.ticks, k - 1);
      }
    }
  }

  lemma EmptyTrend()
    ensures LongestCalmTail([], [])
  {
  }

  // When the last pressure event before tick k was narrated.
  ghost function LastPressure(r: Run, k: nat): Option<nat>
    requires Shaped(r) && k <= |r.ticks|
  {
    if k == 0 then None
    else if r.outs[k - 1].vram != [] then Some(Ts(r, k - 1))
    else LastPressure(r, k - 1)
  }

  lemma {:induction false} RemembersLastPressure(r: Run, k: nat)
    requires IsRun(r) && k <= |r.ticks|
    ensures r.states[k].vram.lastEvent == LastPressure(r, k)
  {
    hide PressureDue, Slope, PushReading, NamedGrower;
    if k > 0 {
      RemembersLastPressure(r, k - 1);
      VramAt(r, k - 1);
    }
  }

  // ---- what is narrated, in figures ----

  // The device is filled to 85% or more.
  predicate NearlyFull(t: Tick) {
    && t.sample.memUsed.Some? && t.memTotal.Some? && t.memTotal.value > 0
    && 100 * t.sample.memUsed.value >= 85 * t.memTotal.value
  }

  function Span(w: seq<(nat, nat)>): int
    requires w != []
  {
    var first: int := w[0].0;
    w[|w| - 1].0 - first
  }

  function Rise(w: seq<(nat, nat)>): int
    requires w != []
  {
    var first: int := w[0].1;
    w[|w| - 1].1 - first
  }

  // A minute or more of it, at 16 MiB a minute or more.
  predicate RisesFast(w: seq<(nat, nat)>) {
    w != [] && Span(w) >= 60_000 && 60_000 * Rise(w) >= 16_777_216 * Span(w)
  }

  lemma SlopeFigures(w: seq<(nat, nat)>)
    requires w != [] && Span(w) > 0
    ensures Slope(w) * Span(w) as real == 60000.0 * Rise(w) as real
    ensures Slope(w) >= 16777216.0 <==> 60_000 * Rise(w) >= 16_777_216 * Span(w)
  {
    assert Slope(w) == Rise(w) as real / (Span(w) as real / 60000.0);
    PerMinute(Slope(w), Rise(w) as real, Span(w) as real);
    AtLeast(Slope(w), Rise(w), Span(w));
  }

  lemma AtLeast(slope: real, rise: int, span: int)
    requires span > 0 && slope * span as real == 60000.0 * rise as real
    ensures slope >= 16777216.0 <==> 60_000 * rise >= 16_777_216 * span
  {
    var most, least := slope * span as real, 16777216.0 * span as real;
    Scale(slope, span as real, 16777216.0);
    assert most == (60_000 * rise) as real && least == (16_777_216 * span) as real;
  }

  lemma PerMinute(slope: real, rise: real, span: real)
    requires span > 0.0 && slope == rise / (span / 60000.0)
    ensures slope * span == 60000.0 * rise
  {
    var minutes := span / 60000.0;
    assert slope * minutes == rise;
    assert slope * span == 60000.0 * (slope * minutes);
  }

  lemma Scale(slope: real, span: real, least: real)
    requires span > 0.0
    ensures slope >= least <==> slope * span >= least * span
  {
    if slope >= least {
      assert (slope - least) * span >= 0.0;
    } else {
      assert (least - slope) * span > 0.0;
    }
  }

  lemma FillFigure(used: nat, total: nat)
    requires total > 0
    ensures used as real / total as real >= 0.85 <==> 100 * used >= 85 * total
  {
    var f := used as real / total as real;
    assert used as real == f * total as real;
    Scale(f, total as real, 0.85);
    assert (100 * used) as real == 100.0 * used as real;
    assert (85 * total) as real == 85.0 * total as real;
  }

  lemma DueFigures(w: seq<(nat, nat)>, last: Option<nat>, t: Tick)
    requires VramReadable(t.sample, t.memTotal)
    ensures PressureDue(w, last, t.sample.ts, t.sample.memUsed.value, t.memTotal.value) <==>
      NearlyFull(t) && RisesFast(w) && (last.Some? ==> t.sample.ts >= last.value + 90_000)
  {
    FillFigure(t.sample.memUsed.value, t.memTotal.value);
    if w != [] && Span(w) > 0 {
      SlopeFigures(w);
    }
    hide Slope;
  }

  // A pressure event is narrated exactly when tick k's reading fills the device to 85% or
  // more, the trend it ends spans a minute at 16 MiB a minute or more, and the last event is
  // 90 seconds back; it prints that trend's figures.
  lemma PressureExactly(r: Run, k: nat)
    requires IsRun(r) && k < |r.ticks|
    ensures r.outs[k].vram != [] <==>
      && NearlyFull(r.ticks[k]) && RisesFast(r.states[k + 1].vram.window)
      && (LastPressure(r, k).Some? ==> Ts(r, k) >= LastPressure(r, k).value + 90_000)
    ensures r.outs[k].vram != [] ==>
      |r.outs[k].vram| == 1 && TrendReport(r, k, r.states[k + 1].vram.window, r.outs[k].vram[0])
  {
    hide PushReading, PressureDue, NamedGrower, TrendReport, NearlyFull, RisesFast;
    VramAt(r, k);
    RemembersLastPressure(r, k);
    var t, w := r.ticks[k], r.states[k + 1].vram.window;
    if VramReadable(t.sample, t.memTotal) {
      DueFigures(w, LastPressure(r, k), t);
    } else {
      Unreadable(t);
    }
    if r.outs[k].vram != [] {
      Printed(r, k, w);
    }
  }

  lemma Unreadable(t: Tick)
    requires !VramReadable(t.sample, t.memTotal)
    ensures !NearlyFull(t)
  {
  }

  lemma Printed(r: Run, k: nat, w: seq<(nat, nat)>)
    requires IsRun(r) && k < |r.ticks| && w == r.states[k + 1].vram.window && r.outs[k].vram != []
    requires NearlyFull(r.ticks[k]) && RisesFast(w)
    ensures |r.outs[k].vram| == 1 && TrendReport(r, k, w, r.outs[k].vram[0])
  {
    hide PushReading, PressureDue, Slope, StepAt;
    VramAt(r, k);
    SlopeFigures(w);
    SlopeOrder(w);
  }

  lemma SlopeOrder(w: seq<(nat, nat)>)
    requires w != [] && Span(w) > 0
    ensures w[|w| - 1].0 > w[0].0
  {
  }

  // The event prints the reading, the trend's span and its rise per minute, and names a process
  // of known size no other known one exceeds, or none if no size is known.
  ghost predicate TrendReport(r: Run, k: nat, w: seq<(nat, nat)>, e: Event)
    requires Shaped(r) && k < |r.ticks|
  {
    && w != [] && e.VramPressure? && e.ts == Ts(r, k)
    && r.ticks[k].sample.memUsed == Some(e.used) && r.ticks[k].memTotal == Some(e.total)
    && e.spanMs == Span(w) && e.slope * Span(w) as real == 60000.0 * Rise(w) as real
    && Names(r.states[k + 1].procs.procs, e.holder)
  }

  ghost predicate Names(procs: map<nat, ProcessSample>, holder: Option<nat>) {
    if holder.None? then forall p :: p in procs ==> procs[p].mem.None?
    else
      && holder.value in procs && procs[holder.value].mem.Some?
      && forall p :: p in procs && procs[p].mem.Some? ==> procs[p].mem.value <= procs[holder.value].mem.value
  }

  // There is only one longest calm tail.
  lemma OneTrend(w: seq<(nat, nat)>, v: seq<(nat, nat)>, rs: seq<Reading>)
    requires LongestCalmTail(w, rs) && LongestCalmTail(v, rs)
    ensures w == v
  {
    assert |w| == |v|;
  }

  // No pressure event was narrated in the ninety seconds before tick k.
  ghost predicate Cooled(r: Run, k: nat)
    requires Shaped(r) && k < |r.ticks|
  {
    forall j :: 0 <= j < k && r.outs[j].vram != [] ==> Ts(r, k) >= Ts(r, j) + 90_000
  }

  // The same told by the readings alone, with a clock that never steps back: the trend that
  // decides is the longest calm tail `w` of all readings up to tick k.
  lemma PressureByReadings(r: Run, k: nat, w: seq<(nat, nat)>)
    requires IsRun(r) && Monotone(r) && k < |r.ticks| && LongestCalmTail(w, Readings(r.ticks, k + 1))
    ensures r.outs[k].vram != [] <==> NearlyFull(r.ticks[k]) && RisesFast(w) && Cooled(r, k)
    ensures r.outs[k].vram != [] ==> |r.outs[k].vram| == 1 && TrendReport(r, k, w, r.outs[k].vram[0])
  {
    hide StepAt, LongestCalmTail, NearlyFull, RisesFast, TrendReport;
    WindowIsTrend(r, k + 1);
    OneTrend(w, r.states[k + 1].vram.window, Readings(r.ticks, k + 1));
    PressureExactly(r, k);
    LastIsLatest(r, k);
  }

  // The last event is the one to wait for.
  lemma LastIsLatest(r: Run, k: nat)
    requires IsRun(r) && Monotone(r) && k < |r.ticks|
    ensures Cooled(r, k) <==> (LastPressure(r, k).Some? ==> Ts(r, k) >= LastPressure(r, k).value + 90_000)
  {
    hide StepAt;
    if LastPressure(r, k).Some? {
      var j := LastPressureTick(r, k);
    }
    forall j | 0 <= j < k && r.outs[j].vram != [] ensures LastPressure(r, k).Some? && LastPressure(r, k).value >= Ts(r, j) {
      LastPressureBounds(r, j, k);
    }
  }

  lemma {:induction false} LastPressureTick(r: Run, k: nat) returns (j: nat)
    requires Shaped(r) && k <= |r.ticks| && LastPressure(r, k).Some?
    ensures j < k && r.outs[j].vram != [] && LastPressure(r, k) == Some(Ts(r, j))
  {
    if r.outs[k - 1].vram != [] {
      j := k - 1;
    } else {
      j := LastPressureTick(r, k - 1);
    }
  }

  lemma {:induction false} LastPressureBounds(r: Run, j: nat, k: nat)
    requires IsRun(r) && Monotone(r) && j < k <= |r.ticks| && r.outs[j].vram != []
    ensures LastPressure(r, k).Some? && LastPressure(r, k).value >= Ts(r, j)
  {
    if k > j + 1 {
      LastPressureBounds(r, j, k - 1);
      assert Ts(r, j) <= Ts(r, k - 1);
    }
  }

  // What a narrated pressure claims, with a clock that never steps back: at least 85% full, a
  // trend of 60 to 180 seconds rising 16 MiB a minute or more, which is the longest calm tail
  // of the readings, and at least 90 seconds since any earlier event.
  lemma PressureSound(r: Run, k: nat, e: Event)
    requires IsRun(r) && Monotone(r) && k < |r.ticks| && e in Emitted(r, k) && e.VramPressure?
    ensures e.total > 0 && 100 * e.used >= 85 * e.total
    ensures 60_000 <= e.spanMs <= 180_000 && e.slope >= 16777216.0
    ensures exists w :: LongestCalmTail(w, Readings(r.ticks, k + 1)) && RisesFast(w) && TrendReport(r, k, w, e)
    ensures Cooled(r, k)
  {
    hide Slope, StepAt;
    EventSlots(r, k, e);
    var rs, w := Readings(r.ticks, k + 1), r.states[k + 1].vram.window;
    WindowIsTrend(r, k + 1);
    PressureByReadings(r, k, w);
    assert !StaleAt(rs, |rs| - |w|);
    AtLeast(e.slope, Rise(w), Span(w));
  }
}
