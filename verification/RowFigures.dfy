/** What the columns of a stored row say, told by the frames of its bucket alone
    (crates/history/src/lib.rs:106-290). */
module RowFigures {
  import opened Base
  import opened Telemetry
  import opened Rollups

  // ---- one column ----

  ghost predicate AllAbsent(vs: seq<Option<real>>) {
    forall v :: v in vs ==> v.None?
  }

  // The least of the readings that are there, and nothing if none is.
  ghost predicate IsLeastOf(v: Option<real>, vs: seq<Option<real>>) {
    if v.None? then AllAbsent(vs) else v in vs && forall x :: x in vs && x.Some? ==> v.value <= x.value
  }

  ghost predicate IsGreatestOf(v: Option<real>, vs: seq<Option<real>>) {
    if v.None? then AllAbsent(vs) else v in vs && forall x :: x in vs && x.Some? ==> x.value <= v.value
  }

  // Times the number of readings that are there it is their sum.
  ghost predicate IsMeanOf(v: Option<real>, vs: seq<Option<real>>) {
    if v.None? then AllAbsent(vs)
    else Present(vs) != [] && v.value * |Present(vs)| as real == Sum(Present(vs))
  }

  // Whole-number columns drop the fraction.
  predicate IsFloorOf(w: Option<int>, v: Option<real>) {
    if w.None? then v.None? else v.Some? && w.value as real <= v.value < w.value as real + 1.0
  }

  ghost predicate FloorsLeast(w: Option<int>, vs: seq<Option<real>>) {
    exists v :: IsLeastOf(v, vs) && IsFloorOf(w, v)
  }

  ghost predicate FloorsGreatest(w: Option<int>, vs: seq<Option<real>>) {
    exists v :: IsGreatestOf(v, vs) && IsFloorOf(w, v)
  }

  ghost predicate FloorsMean(w: Option<int>, vs: seq<Option<real>>) {
    exists v :: IsMeanOf(v, vs) && IsFloorOf(w, v)
  }

  // The throttle state was readable and shows this.
  predicate Shows(f: Flag, s: DynamicSample) {
    s.throttle.Some? && var t := s.throttle.value;
    match f
    case AnyReason => t.thermal || t.powerCap || t.hwSlowdown || t.syncBoost || t.other
    case Thermal => t.thermal
    case PowerCap => t.powerCap
    case HwSlowdown => t.hwSlowdown
    case Observed => true
  }

  function FramesShowing(f: Flag, fs: seq<Frame>): set<nat> {
    set i: nat | i < |fs| && Shows(f, fs[i].s)
  }

  // ---- whole rows ----

  ghost predicate RowMeans(row: SampleRow, fs: seq<Frame>) {
    && row.n == |fs|
    && IsLeastOf(row.utilMin, Readings(Util, fs)) && IsMeanOf(row.utilAvg, Readings(Util, fs))
    && IsGreatestOf(row.utilMax, Readings(Util, fs))
    && FloorsMean(row.memAvg, Readings(Mem, fs)) && FloorsGreatest(row.memMax, Readings(Mem, fs))
    && FloorsMean(row.powerAvg, Readings(Power, fs)) && FloorsGreatest(row.powerMax, Readings(Power, fs))
    && IsMeanOf(row.tempAvg, Readings(Temp, fs)) && IsGreatestOf(row.tempMax, Readings(Temp, fs))
    && IsGreatestOf(row.fanMax, Readings(Fan, fs))
    && FloorsLeast(row.smClockMin, Readings(SmClock, fs)) && FloorsMean(row.smClockAvg, Readings(SmClock, fs))
    && FloorsGreatest(row.smClockMax, Readings(SmClock, fs))
    && row.throttleN == |FramesShowing(AnyReason, fs)| && row.thermalN == |FramesShowing(Thermal, fs)|
    && row.powerN == |FramesShowing(PowerCap, fs)| && row.hwN == |FramesShowing(HwSlowdown, fs)|
    && row.observedN == |FramesShowing(Observed, fs)|
  }

  // The row of one process from its samples: who it last was, its peak memory and its means.
  ghost predicate ProcMeans(row: ProcRow, ps: seq<ProcessSample>) {
    && ps != [] && var last := ps[|ps| - 1];
    && row.name == last.name && row.kind == last.kind && row.container == last.container
    && (if row.memMax.None? then forall p :: p in ps ==> p.mem.None?
        else (exists p :: p in ps && p.mem == row.memMax)
             && forall p :: p in ps && p.mem.Some? ==> p.mem.value <= row.memMax.value)
    && IsMeanOf(row.utilAvg, Utils(ps)) && IsMeanOf(row.cpuAvg, Cpus(ps))
  }

  // One row per process some frame lists.
  ghost predicate ProcsMean(rows: map<nat, ProcRow>, fs: seq<Frame>) {
    && (forall p: nat :: p in rows <==> ListedIn(fs, p))
    && forall p :: p in rows ==> ProcMeans(rows[p], OfPid(Sightings(fs), p))
  }

  ghost predicate ListedIn(fs: seq<Frame>, pid: nat) {
    exists i, j :: 0 <= i < |fs| && 0 <= j < |fs[i].procs| && fs[i].procs[j].pid == pid
  }

  // ---- proofs ----

  lemma {:induction false} PresentHas(vs: seq<Option<real>>, x: real)
    ensures x in Present(vs) <==> Some(x) in vs
  {
    if vs != [] {
      PresentHas(vs[..|vs| - 1], x);
      assert vs == vs[..|vs| - 1] + [vs[|vs| - 1]];
    }
  }

  lemma NoneThere(vs: seq<Option<real>>)
    ensures Present(vs) == [] <==> AllAbsent(vs)
  {
    if Present(vs) != [] {
      PresentHas(vs, Present(vs)[0]);
    } else {
      forall v | v in vs ensures v.None? {
        if v.Some? {
          PresentHas(vs, v.value);
        }
      }
    }
  }

  lemma LeastFigures(vs: seq<Option<real>>)
    ensures IsLeastOf(AggOf(vs).min, vs) && IsGreatestOf(AggOf(vs).max, vs)
  {
    hide AggOf, Present, AllAbsent;
    AggMeaning(vs);
    NoneThere(vs);
    forall x: real ensures x in Present(vs) <==> Some(x) in vs {
      PresentHas(vs, x);
    }
    forall v | v in vs && v.Some? ensures v.value in Present(vs) {
      assert v == Some(v.value);
    }
  }

  lemma MeanFigures(vs: seq<Option<real>>)
    ensures IsMeanOf(Avg(AggOf(vs)), vs)
  {
    hide AggOf, Present, Sum, AllAbsent;
    AggMeaning(vs);
    NoneThere(vs);
    var a := AggOf(vs);
    if a.n > 0 {
      assert a.sum / a.n as real * a.n as real == a.sum;
    }
  }

  lemma AggFigures(vs: seq<Option<real>>)
    ensures IsLeastOf(AggOf(vs).min, vs) && IsGreatestOf(AggOf(vs).max, vs) && IsMeanOf(Avg(AggOf(vs)), vs)
  {
    LeastFigures(vs);
    MeanFigures(vs);
  }

  lemma FloorFigures(v: Option<real>)
    ensures IsFloorOf(Whole(v), v)
  {
  }

  lemma Floored(vs: seq<Option<real>>)
    ensures var a := AggOf(vs);
      FloorsLeast(Whole(a.min), vs) && FloorsGreatest(Whole(a.max), vs) && FloorsMean(Whole(Avg(a)), vs)
  {
    hide IsLeastOf, IsGreatestOf, IsMeanOf, Avg, AggOf;
    AggFigures(vs);
    FloorFigures(AggOf(vs).min);
    FloorFigures(AggOf(vs).max);
    FloorFigures(Avg(AggOf(vs)));
  }

  lemma RaisedIsShown(f: Flag, s: DynamicSample)
    ensures Raised(f, s) <==> Shows(f, s)
  {
  }

  lemma OneMoreFrame(f: Flag, fs: seq<Frame>, last: Frame)
    ensures FramesShowing(f, fs + [last]) == FramesShowing(f, fs) + if Shows(f, last.s) then {|fs|} else {}
  {
    hide Shows;
  }

  lemma {:induction false} CountFigures(f: Flag, fs: seq<Frame>)
    ensures Count(f, fs) == |FramesShowing(f, fs)|
  {
    if fs == [] {
      assert FramesShowing(f, fs) == {};
    } else {
      var front, last := fs[..|fs| - 1], fs[|fs| - 1];
      assert fs == front + [last];
      hide Shows, Raised;
      CountFigures(f, front);
      RaisedIsShown(f, last.s);
      OneMoreFrame(f, front, last);
    }
  }

  // A row says of its frames what its columns are named for.
  lemma ColumnsMean(fs: seq<Frame>)
    ensures RowMeans(ToRow(Aggregate(fs)), fs)
  {
    hide IsLeastOf, IsGreatestOf, IsMeanOf, FloorsLeast, FloorsGreatest, FloorsMean, Avg, AggOf, Readings, Count, FramesShowing, Whole;
    AggFigures(Readings(Util, fs));
    AggFigures(Readings(Temp, fs));
    AggFigures(Readings(Fan, fs));
    Floored(Readings(Mem, fs));
    Floored(Readings(Power, fs));
    Floored(Readings(SmClock, fs));
    CountFigures(AnyReason, fs);
    CountFigures(Thermal, fs);
    CountFigures(PowerCap, fs);
    CountFigures(HwSlowdown, fs);
    CountFigures(Observed, fs);
  }

  lemma {:induction false} PeakFigures(ps: seq<ProcessSample>)
    ensures Peak(ps).None? <==> forall p :: p in ps ==> p.mem.None?
    ensures Peak(ps).Some? ==> exists p :: p in ps && p.mem == Peak(ps)
    ensures Peak(ps).Some? ==> forall p :: p in ps && p.mem.Some? ==> p.mem.value <= Peak(ps).value
  {
    if ps != [] {
      var front, last := ps[..|ps| - 1], ps[|ps| - 1];
      PeakFigures(front);
      assert ps == front + [last];
    }
  }

  lemma ProcFigures(ps: seq<ProcessSample>)
    requires ps != []
    ensures ProcMeans(ProcToRow(ProcAggregate(ps)), ps)
  {
    hide IsMeanOf, Avg, AggOf;
    PeakFigures(ps);
    AggFigures(Utils(ps));
    AggFigures(Cpus(ps));
  }

  lemma {:induction false} SightingsHave(fs: seq<Frame>, pid: nat)
    ensures pid in Pids(Sightings(fs)) <==> ListedIn(fs, pid)
  {
    if fs != [] {
      var front, last := fs[..|fs| - 1], fs[|fs| - 1];
      SightingsHave(front, pid);
      assert Sightings(fs) == Sightings(front) + last.procs;
      if ListedIn(front, pid) {
        var i, j :| 0 <= i < |front| && 0 <= j < |front[i].procs| && front[i].procs[j].pid == pid;
        assert fs[i] == front[i];
      }
      if ListedIn(fs, pid) {
        var i, j :| 0 <= i < |fs| && 0 <= j < |fs[i].procs| && fs[i].procs[j].pid == pid;
        if i < |front| {
          assert front[i] == fs[i];
        } else {
          assert last.procs[j] in Sightings(fs);
        }
      }
    }
  }

  lemma ProcsFigures(fs: seq<Frame>)
    ensures var groups := ProcGroups(Sightings(fs)); ProcsMean(map p | p in groups :: ProcToRow(groups[p]), fs)
  {
    hide ProcAggregate, ProcToRow, ProcMeans, Pids, Sightings;
    var ps := Sightings(fs);
    forall p: nat ensures OfPid(ps, p) != [] <==> ListedIn(fs, p) {
      OfPidNonEmpty(ps, p);
      SightingsHave(fs, p);
    }
    forall p: nat ensures p in Pids(ps) <==> ListedIn(fs, p) {
      SightingsHave(fs, p);
    }
    forall p: nat | OfPid(ps, p) != [] ensures ProcMeans(ProcToRow(ProcAggregate(OfPid(ps, p))), OfPid(ps, p)) {
      ProcFigures(OfPid(ps, p));
    }
  }
}
