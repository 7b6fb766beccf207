/** Bucket aggregates (crates/history/src/lib.rs:106-290) and the reference they refine: group
    all frames of a device by the largest bucket key seen so far, then aggregate each group. */
module Rollups {
  import opened Base
  import opened Telemetry

  // ---- one metric ----

  datatype Agg = Agg(min: Option<real>, max: Option<real>, sum: real, n: nat)

  const NO_DATA: Agg := Agg(None, None, 0.0, 0)

  function RealMin(a: real, b: real): real { if a <= b then a else b }

  function RealMax(a: real, b: real): real { if a >= b then a else b }

  function Push(a: Agg, v: Option<real>): Agg {
    match v
    case None => a
    case Some(x) =>
      Agg(Some(if a.min.Some? then RealMin(a.min.value, x) else x),
          Some(if a.max.Some? then RealMax(a.max.value, x) else x),
          a.sum + x, a.n + 1)
  }

  function Avg(a: Agg): Option<real> {
    if a.n > 0 then Some(a.sum / a.n as real) else None
  }

  // The aggregate of a list of readings, absent ones included.
  function AggOf(vs: seq<Option<real>>): Agg {
    if vs == [] then NO_DATA else Push(AggOf(vs[..|vs| - 1]), vs[|vs| - 1])
  }

  function Pick(a: Option<real>, b: Option<real>, least: bool): Option<real> {
    if a.None? then b
    else if b.None? then a
    else Some(if least then RealMin(a.value, b.value) else RealMax(a.value, b.value))
  }

  // The aggregate of two lists of readings from the aggregates of each.
  function Merge(a: Agg, b: Agg): Agg {
    Agg(Pick(a.min, b.min, true), Pick(a.max, b.max, false), a.sum + b.sum, a.n + b.n)
  }

  lemma PushIntoMerge(a: Agg, b: Agg, v: Option<real>)
    ensures Push(Merge(a, b), v) == Merge(a, Push(b, v))
  {
  }

  lemma {:induction false} AggOfConcat(x: seq<Option<real>>, y: seq<Option<real>>)
    ensures AggOf(x + y) == Merge(AggOf(x), AggOf(y))
  {
    hide Push, Merge;
    if y == [] {
      assert x + y == x;
      MergeNothing(AggOf(x));
    } else {
      var front := y[..|y| - 1];
      AggOfConcat(x, front);
      PushIntoMerge(AggOf(x), AggOf(front), y[|y| - 1]);
      assert (x + y)[..|x + y| - 1] == x + front;
    }
  }

  lemma MergeNothing(a: Agg)
    ensures Merge(a, NO_DATA) == a
  {
  }

  function Present(vs: seq<Option<real>>): seq<real> {
    if vs == [] then []
    else Present(vs[..|vs| - 1]) + (if vs[|vs| - 1].Some? then [vs[|vs| - 1].value] else [])
  }

  function Sum(xs: seq<real>): real {
    if xs == [] then 0.0 else Sum(xs[..|xs| - 1]) + xs[|xs| - 1]
  }

  // What an aggregate means: it is over the present readings only, its minimum and maximum are
  // readings that bound all others, and all-absent is None and never zero.
  lemma {:induction false} AggMeaning(vs: seq<Option<real>>)
    ensures AggOf(vs).n == |Present(vs)| && AggOf(vs).sum == Sum(Present(vs))
    ensures AggOf(vs).min.Some? <==> Present(vs) != []
    ensures AggOf(vs).max.Some? <==> Present(vs) != []
    ensures AggOf(vs).min.Some? ==> AggOf(vs).min.value in Present(vs)
    ensures AggOf(vs).min.Some? ==>
      forall x :: x in Present(vs) ==> AggOf(vs).min.value <= x
    ensures AggOf(vs).max.Some? ==> AggOf(vs).max.value in Present(vs)
    ensures AggOf(vs).max.Some? ==>
      forall x :: x in Present(vs) ==> x <= AggOf(vs).max.value
    ensures Avg(AggOf(vs)).Some? <==> Present(vs) != []
  {
    if vs != [] {
      var front, last := vs[..|vs| - 1], vs[|vs| - 1];
      AggMeaning(front);
      if last.Some? {
        assert Present(vs)[..|Present(vs)| - 1] == Present(front);
        assert last.value in Present(vs);
        assert forall x :: x in Present(front) ==> x in Present(vs);
      } else {
        assert Present(vs) == Present(front);
      }
    }
  }

  // ---- one device, one bucket ----

  datatype Metric = Util | Mem | Power | Temp | Fan | SmClock

  datatype Flag = AnyReason | Thermal | PowerCap | HwSlowdown | Observed

  function Reading(m: Metric, s: DynamicSample): Option<real> {
    match m
    case Util => s.util
    case Mem => ToReal(s.memUsed)
    case Power => ToReal(s.power)
    case Temp => s.temp
    case Fan => s.fan
    case SmClock => ToReal(s.smClock)
  }

  // An unobservable throttle state raises no flag.
  predicate Raised(f: Flag, s: DynamicSample) {
    s.throttle.Some? &&
    match f
    case AnyReason => s.throttle.value.Any()
    case Thermal => s.throttle.value.thermal
    case PowerCap => s.throttle.value.powerCap
    case HwSlowdown => s.throttle.value.hwSlowdown
    case Observed => true
  }

  datatype SampleAccum = SampleAccum(
    n: nat, util: Agg, mem: Agg, power: Agg, temp: Agg, fan: Agg, smClock: Agg,
    throttleN: nat, thermalN: nat, powerN: nat, hwN: nat, observedN: nat)

  const EMPTY_ACCUM: SampleAccum :=
    SampleAccum(0, NO_DATA, NO_DATA, NO_DATA, NO_DATA, NO_DATA, NO_DATA, 0, 0, 0, 0, 0)

  function One(b: bool): nat { if b then 1 else 0 }

  // Folding one raw frame into the running aggregates.
  function Fold(a: SampleAccum, s: DynamicSample): SampleAccum {
    var t := s.throttle.GetOr(ThrottleReasons(false, false, false, false, false));
    SampleAccum(a.n + 1, Push(a.util, s.util), Push(a.mem, ToReal(s.memUsed)), Push(a.power, ToReal(s.power)),
                Push(a.temp, s.temp), Push(a.fan, s.fan), Push(a.smClock, ToReal(s.smClock)),
                a.throttleN + One(t.Any()), a.thermalN + One(t.thermal), a.powerN + One(t.powerCap),
                a.hwN + One(t.hwSlowdown), a.observedN + One(s.throttle.Some?))
  }

  function Readings(m: Metric, fs: seq<Frame>): seq<Option<real>> {
    seq(|fs|, i requires 0 <= i < |fs| => Reading(m, fs[i].s))
  }

  function Count(f: Flag, fs: seq<Frame>): nat {
    if fs == [] then 0 else Count(f, fs[..|fs| - 1]) + One(Raised(f, fs[|fs| - 1].s))
  }

  // The reference: each metric's readings aggregated on their own, each flag counted.
  function Aggregate(fs: seq<Frame>): SampleAccum {
    SampleAccum(|fs|, AggOf(Readings(Util, fs)), AggOf(Readings(Mem, fs)), AggOf(Readings(Power, fs)),
                AggOf(Readings(Temp, fs)), AggOf(Readings(Fan, fs)), AggOf(Readings(SmClock, fs)),
                Count(AnyReason, fs), Count(Thermal, fs), Count(PowerCap, fs), Count(HwSlowdown, fs), Count(Observed, fs))
  }

  lemma ReadingsSnoc(m: Metric, fs: seq<Frame>, f: Frame)
    ensures AggOf(Readings(m, fs + [f])) == Push(AggOf(Readings(m, fs)), Reading(m, f.s))
  {
    var vs := Readings(m, fs + [f]);
    assert vs[..|vs| - 1] == Readings(m, fs);
  }

  // Folding frame by frame computes the reference aggregate.
  lemma FoldIsAggregate(fs: seq<Frame>, f: Frame)
    ensures Fold(Aggregate(fs), f.s) == Aggregate(fs + [f])
  {
    hide Push, AggOf, Readings;
    ReadingsSnoc(Util, fs, f);
    ReadingsSnoc(Mem, fs, f);
    ReadingsSnoc(Power, fs, f);
    ReadingsSnoc(Temp, fs, f);
    ReadingsSnoc(Fan, fs, f);
    ReadingsSnoc(SmClock, fs, f);
    assert (fs + [f])[..|fs + [f]| - 1] == fs;
  }

  function MergeAccum(a: SampleAccum, b: SampleAccum): SampleAccum {
    SampleAccum(a.n + b.n, Merge(a.util, b.util), Merge(a.mem, b.mem), Merge(a.power, b.power),
                Merge(a.temp, b.temp), Merge(a.fan, b.fan), Merge(a.smClock, b.smClock),
                a.throttleN + b.throttleN, a.thermalN + b.thermalN, a.powerN + b.powerN,
                a.hwN + b.hwN, a.observedN + b.observedN)
  }

  lemma ReadingsConcat(m: Metric, x: seq<Frame>, y: seq<Frame>)
    ensures AggOf(Readings(m, x + y)) == Merge(AggOf(Readings(m, x)), AggOf(Readings(m, y)))
  {
    assert Readings(m, x + y) == Readings(m, x) + Readings(m, y);
    AggOfConcat(Readings(m, x), Readings(m, y));
  }

  lemma {:induction false} CountConcat(f: Flag, x: seq<Frame>, y: seq<Frame>)
    ensures Count(f, x + y) == Count(f, x) + Count(f, y)
  {
    if y == [] {
      assert x + y == x;
    } else {
      CountConcat(f, x, y[..|y| - 1]);
      assert (x + y)[..|x + y| - 1] == x + y[..|y| - 1];
    }
  }

  // Counts and throttle counters add, sums add, minima and maxima combine.
  lemma {:induction false} AggregateConcat(x: seq<Frame>, y: seq<Frame>)
    ensures forall m: Metric :: AggOf(Readings(m, x + y)) == Merge(AggOf(Readings(m, x)), AggOf(Readings(m, y)))
    ensures forall f: Flag :: Count(f, x + y) == Count(f, x) + Count(f, y)
    ensures Aggregate(x + y) == MergeAccum(Aggregate(x), Aggregate(y))
  {
    hide AggOf, Readings, Merge, Count;
    forall m: Metric ensures AggOf(Readings(m, x + y)) == Merge(AggOf(Readings(m, x)), AggOf(Readings(m, y))) {
      ReadingsConcat(m, x, y);
    }
    forall f: Flag ensures Count(f, x + y) == Count(f, x) + Count(f, y) {
      CountConcat(f, x, y);
    }
  }

  // A throttle counter never exceeds the observed count, nor that one the frame count.
  lemma {:induction false} CountersOrdered(f: Flag, fs: seq<Frame>)
    ensures Count(f, fs) <= Count(Observed, fs) <= |fs|
    ensures Count(f, fs) == 0 <==> forall i :: 0 <= i < |fs| ==> !Raised(f, fs[i].s)
  {
    if fs != [] {
      var front := fs[..|fs| - 1];
      CountersOrdered(f, front);
      if Count(f, fs) == 0 {
        forall i | 0 <= i < |fs| ensures !Raised(f, fs[i].s) {
          assert i < |front| ==> fs[i] == front[i];
        }
      } else if Raised(f, fs[|fs| - 1].s) {
      } else {
        var i :| 0 <= i < |front| && Raised(f, front[i].s);
        assert fs[i] == front[i];
      }
    }
  }

  // ---- the stored row ----

  datatype SampleRow = SampleRow(
    n: nat, utilMin: Option<real>, utilAvg: Option<real>, utilMax: Option<real>,
    memAvg: Option<int>, memMax: Option<int>, powerAvg: Option<int>, powerMax: Option<int>,
    tempAvg: Option<real>, tempMax: Option<real>, fanMax: Option<real>,
    smClockMin: Option<int>, smClockAvg: Option<int>, smClockMax: Option<int>,
    throttleN: nat, thermalN: nat, powerN: nat, hwN: nat, observedN: nat)

  // `as u64` / `as u32` on a non-negative float drops the fraction.
  function Whole(o: Option<real>): Option<int> {
    match o
    case None => None
    case Some(v) => Some(v.Floor)
  }

  function ToRow(a: SampleAccum): SampleRow {
    SampleRow(a.n, a.util.min, Avg(a.util), a.util.max, Whole(Avg(a.mem)), Whole(a.mem.max),
              Whole(Avg(a.power)), Whole(a.power.max), Avg(a.temp), a.temp.max, a.fan.max,
              Whole(a.smClock.min), Whole(Avg(a.smClock)), Whole(a.smClock.max),
              a.throttleN, a.thermalN, a.powerN, a.hwN, a.observedN)
  }

  // ---- one process, one bucket ----

  datatype ProcAccum = ProcAccum(name: string, kind: ProcessKind, memMax: Option<nat>, util: Agg, cpu: Agg,
                                 container: Option<string>)

  // `ProcRow` keeps the last-seen identity, the peak memory and the mean utilisations.
  datatype ProcRow = ProcRow(name: string, kind: ProcessKind, memMax: Option<nat>, utilAvg: Option<real>,
                             cpuAvg: Option<real>, container: Option<string>)

  function PeakMem(a: Option<nat>, b: Option<nat>): Option<nat> {
    if b.None? then a else if a.None? then b else Some(MaxNat(a.value, b.value))
  }

  function ProcFold(a: ProcAccum, p: ProcessSample): ProcAccum {
    ProcAccum(p.name, p.kind, PeakMem(a.memMax, p.mem), Push(a.util, p.util), Push(a.cpu, p.cpu), p.container)
  }

  function ProcNew(p: ProcessSample): ProcAccum {
    ProcFold(ProcAccum(p.name, p.kind, None, NO_DATA, NO_DATA, None), p)
  }

  function ProcToRow(a: ProcAccum): ProcRow {
    ProcRow(a.name, a.kind, a.memMax, Avg(a.util), Avg(a.cpu), a.container)
  }

  function FoldProc(m: map<nat, ProcAccum>, p: ProcessSample): map<nat, ProcAccum> {
    m[p.pid := if p.pid in m then ProcFold(m[p.pid], p) else ProcNew(p)]
  }

  // All process samples of a group of frames, in the order they were seen.
  function Sightings(fs: seq<Frame>): seq<ProcessSample> {
    if fs == [] then [] else Sightings(fs[..|fs| - 1]) + fs[|fs| - 1].procs
  }

  function OfPid(ps: seq<ProcessSample>, pid: nat): seq<ProcessSample> {
    if ps == [] then []
    else OfPid(ps[..|ps| - 1], pid) + (if ps[|ps| - 1].pid == pid then [ps[|ps| - 1]] else [])
  }

  function Peak(ps: seq<ProcessSample>): Option<nat> {
    if ps == [] then None else PeakMem(Peak(ps[..|ps| - 1]), ps[|ps| - 1].mem)
  }

  function Utils(ps: seq<ProcessSample>): seq<Option<real>> {
    seq(|ps|, i requires 0 <= i < |ps| => ps[i].util)
  }

  function Cpus(ps: seq<ProcessSample>): seq<Option<real>> {
    seq(|ps|, i requires 0 <= i < |ps| => ps[i].cpu)
  }

  // The reference for one process: the identity it was last seen with, its peak memory, and
  // its utilisation and CPU readings aggregated.
  function ProcAggregate(ps: seq<ProcessSample>): ProcAccum
    requires ps != []
  {
    var last := ps[|ps| - 1];
    ProcAccum(last.name, last.kind, Peak(ps), AggOf(Utils(ps)), AggOf(Cpus(ps)), last.container)
  }

  function ProcGroups(ps: seq<ProcessSample>): map<nat, ProcAccum> {
    map p | p in Pids(ps) && OfPid(ps, p) != [] :: ProcAggregate(OfPid(ps, p))
  }

  function Pids(ps: seq<ProcessSample>): set<nat> {
    set q | q in ps :: q.pid
  }

  lemma {:induction false} OfPidNonEmpty(ps: seq<ProcessSample>, pid: nat)
    ensures OfPid(ps, pid) != [] <==> pid in Pids(ps)
  {
    if ps != [] {
      var front, last := ps[..|ps| - 1], ps[|ps| - 1];
      OfPidNonEmpty(front, pid);
      assert ps == front + [last];
      assert last in ps && forall q :: q in front ==> q in ps;
    }
  }

  lemma ProcAggregateSnoc(ps: seq<ProcessSample>, p: ProcessSample)
    ensures ProcAggregate(ps + [p]) == if ps == [] then ProcNew(p) else ProcFold(ProcAggregate(ps), p)
  {
    var all := ps + [p];
    assert all[..|all| - 1] == ps;
    AggSnoc(Utils(ps), p.util);
    AggSnoc(Cpus(ps), p.cpu);
    assert Utils(all) == Utils(ps) + [p.util];
    assert Cpus(all) == Cpus(ps) + [p.cpu];
    assert ps == [] ==> Utils(ps) == [] && Cpus(ps) == [];
    assert Peak(all) == PeakMem(Peak(ps), p.mem);
  }

  lemma AggSnoc(vs: seq<Option<real>>, v: Option<real>)
    ensures AggOf(vs + [v]) == Push(AggOf(vs), v)
  {
    assert (vs + [v])[..|vs|] == vs;
  }

  // Folding samples into the per-pid map keeps it the reference of the samples seen.
  lemma FoldProcIsGroups(ps: seq<ProcessSample>, p: ProcessSample)
    ensures FoldProc(ProcGroups(ps), p) == ProcGroups(ps + [p])
  {
    hide ProcAggregate, ProcFold, ProcNew;
    var all := ps + [p];
    assert all[..|all| - 1] == ps;
    ProcAggregateSnoc(OfPid(ps, p.pid), p);
    forall q ensures q in Pids(all) <==> q in Pids(ps) || q == p.pid {
      OfPidNonEmpty(ps, q);
      OfPidNonEmpty(all, q);
    }
    forall q ensures OfPid(ps, q) != [] <==> q in Pids(ps) {
      OfPidNonEmpty(ps, q);
    }
    assert forall q :: q != p.pid ==> OfPid(all, q) == OfPid(ps, q);
  }

  // ---- frames and their buckets ----

  // One collection frame of one device as the recorder is fed it.
  datatype Frame = Frame(s: DynamicSample, procs: seq<ProcessSample>)

  datatype Tier = TenSec | OneMin {
    function Width(): nat {
      if TenSec? then 10_000 else 60_000
    }
  }

  function BucketOf(ts: nat, t: Tier): nat {
    ts - ts % t.Width()
  }

  // The bucket the last frame is attributed to: the largest key so far, because a frame whose
  // clock stepped back is folded into the bucket already open.
  function Key(fs: seq<Frame>, t: Tier): nat
    requires fs != []
  {
    var own := BucketOf(fs[|fs| - 1].s.ts, t);
    if |fs| == 1 then own else MaxNat(Key(fs[..|fs| - 1], t), own)
  }

  lemma {:induction false} KeyIsLargest(fs: seq<Frame>, t: Tier, i: nat)
    requires i < |fs|
    ensures BucketOf(fs[i].s.ts, t) <= Key(fs, t)
  {
    if i < |fs| - 1 {
      KeyIsLargest(fs[..|fs| - 1], t, i);
    }
  }

  // It is the last multiple of the bucket's length, ten or sixty seconds, that some frame so far
  // reached.
  lemma {:induction false} KeyFigures(fs: seq<Frame>, t: Tier)
    requires fs != []
    ensures var (k, width) := (Key(fs, t), if t.TenSec? then 10_000 else 60_000);
      && k % width == 0 && (forall i :: 0 <= i < |fs| ==> fs[i].s.ts < k + width) && exists i :: 0 <= i < |fs| && fs[i].s.ts >= k
  {
    var front, last := fs[..|fs| - 1], fs[|fs| - 1];
    assert fs == front + [last];
    BucketFigures(last.s.ts, t);
    if front != [] {
      hide BucketOf;
      KeyFigures(front, t);
      var i :| 0 <= i < |front| && front[i].s.ts >= Key(front, t);
      assert fs[i] == front[i] && fs[|front|] == last;
    } else {
      assert fs[0] == last;
    }
  }

  lemma BucketFigures(ts: nat, t: Tier)
    ensures var (k, width) := (BucketOf(ts, t), if t.TenSec? then 10_000 else 60_000); k % width == 0 && k <= ts < k + width
  {
  }

  // The frames attributed to bucket b.
  function Members(fs: seq<Frame>, t: Tier, b: nat): seq<Frame> {
    if fs == [] then []
    else Members(fs[..|fs| - 1], t, b) + (if Key(fs, t) == b then [fs[|fs| - 1]] else [])
  }

  lemma AppendFrame(fs: seq<Frame>, f: Frame, t: Tier, b: nat)
    ensures Members(fs + [f], t, b) == Members(fs, t, b) + (if Key(fs + [f], t) == b then [f] else [])
    ensures Key(fs + [f], t) == if fs == [] then BucketOf(f.s.ts, t) else MaxNat(Key(fs, t), BucketOf(f.s.ts, t))
  {
    assert (fs + [f])[..|fs|] == fs;
  }

  lemma BucketAligned(ts: nat, t: Tier)
    ensures BucketOf(ts, t) % t.Width() == 0
  {
  }

  lemma {:induction false} MembersBelowKey(fs: seq<Frame>, t: Tier, b: nat)
    requires fs != []
    ensures b > Key(fs, t) ==> Members(fs, t, b) == []
    ensures Members(fs, t, Key(fs, t)) != []
    ensures Key(fs, t) % t.Width() == 0
    ensures Members(fs, t, b) != [] ==> b % t.Width() == 0
  {
    var front, f := fs[..|fs| - 1], fs[|fs| - 1];
    assert fs == front + [f];
    AppendFrame(front, f, t, b);
    AppendFrame(front, f, t, Key(fs, t));
    BucketAligned(f.s.ts, t);
    if front == [] {
      assert Members(front, t, b) == [];
    } else {
      hide Members, Key, BucketOf;
      MembersBelowKey(front, t, b);
    }
  }

  // ---- every frame is counted exactly once ----

  function OpenKey(keys: seq<nat>, k: nat): seq<nat> {
    if keys != [] && keys[|keys| - 1] == k then keys else keys + [k]
  }

  // The distinct bucket keys in the order they open.
  function Keys(fs: seq<Frame>, t: Tier): seq<nat> {
    if fs == [] then [] else OpenKey(Keys(fs[..|fs| - 1], t), Key(fs, t))
  }

  function Total(fs: seq<Frame>, t: Tier, keys: seq<nat>): nat {
    if keys == [] then 0 else Total(fs, t, keys[..|keys| - 1]) + |Members(fs, t, keys[|keys| - 1])|
  }

  ghost predicate Increasing(keys: seq<nat>) {
    forall i, j :: 0 <= i < j < |keys| ==> keys[i] < keys[j]
  }

  lemma OpenKeyFacts(keys: seq<nat>, k: nat)
    requires Increasing(keys) && (keys != [] ==> keys[|keys| - 1] <= k)
    ensures var ks := OpenKey(keys, k);
      Increasing(ks) && ks != [] && ks[|ks| - 1] == k
    ensures forall b :: b in OpenKey(keys, k) <==> b in keys || b == k
  {
  }

  lemma KeysSnoc(fs: seq<Frame>, f: Frame, t: Tier)
    ensures Keys(fs + [f], t) == OpenKey(Keys(fs, t), Key(fs + [f], t))
  {
    assert (fs + [f])[..|fs|] == fs;
  }

  // Keys open in strictly increasing order, the newest last.
  lemma {:induction false} KeysIncrease(fs: seq<Frame>, t: Tier)
    ensures Increasing(Keys(fs, t))
    ensures fs != [] ==> Keys(fs, t) != [] && Keys(fs, t)[|Keys(fs, t)| - 1] == Key(fs, t)
    ensures fs == [] ==> Keys(fs, t) == []
  {
    if fs != [] {
      var front, f := fs[..|fs| - 1], fs[|fs| - 1];
      assert fs == front + [f];
      KeysIncrease(front, t);
      KeysSnoc(front, f, t);
      AppendFrame(front, f, t, 0);
      hide Keys, Members, BucketOf, Key, Increasing, OpenKey;
      OpenKeyFacts(Keys(front, t), Key(fs, t));
    }
  }

  // They are exactly the keys with frames.
  lemma {:induction false} KeysHaveMembers(fs: seq<Frame>, t: Tier, b: nat)
    ensures b in Keys(fs, t) <==> Members(fs, t, b) != []
  {
    if fs != [] {
      var front, f := fs[..|fs| - 1], fs[|fs| - 1];
      assert fs == front + [f];
      KeysHaveMembers(front, t, b);
      KeysIncrease(front, t);
      KeysSnoc(front, f, t);
      AppendFrame(front, f, t, b);
      hide Keys, Members, BucketOf, Key, Increasing, OpenKey;
      OpenKeyFacts(Keys(front, t), Key(fs, t));
    }
  }

  lemma {:induction false} TotalOfUnchanged(fs: seq<Frame>, f: Frame, t: Tier, keys: seq<nat>)
    requires Key(fs + [f], t) !in keys
    ensures Total(fs + [f], t, keys) == Total(fs, t, keys)
  {
    hide Key, Members;
    if keys != [] {
      TotalOfUnchanged(fs, f, t, keys[..|keys| - 1]);
      AppendFrame(fs, f, t, keys[|keys| - 1]);
    }
  }

  lemma TotalSnoc(fs: seq<Frame>, t: Tier, keys: seq<nat>, k: nat)
    ensures Total(fs, t, keys + [k]) == Total(fs, t, keys) + |Members(fs, t, k)|
  {
    assert (keys + [k])[..|keys|] == keys;
  }

  lemma LastIsNew(keys: seq<nat>, k: nat)
    requires Increasing(keys) && keys != []
    ensures keys[|keys| - 1] !in keys[..|keys| - 1]
    ensures keys[|keys| - 1] < k ==> k !in keys
  {
  }

  // One more frame adds one to the total over the keys so far and its own, whether it joins
  // the newest bucket or opens one.
  lemma TotalJoins(fs: seq<Frame>, f: Frame, t: Tier, keys: seq<nat>)
    requires Increasing(keys) && keys != [] && keys[|keys| - 1] == Key(fs + [f], t)
    ensures Total(fs + [f], t, keys) == Total(fs, t, keys) + 1
  {
    var k, rest := Key(fs + [f], t), keys[..|keys| - 1];
    AppendFrame(fs, f, t, k);
    LastIsNew(keys, k);
    hide Key, Members, Total;
    assert keys == rest + [k];
    TotalOfUnchanged(fs, f, t, rest);
    TotalSnoc(fs, t, rest, k);
    TotalSnoc(fs + [f], t, rest, k);
  }

  lemma TotalOpens(fs: seq<Frame>, f: Frame, t: Tier, keys: seq<nat>)
    requires Key(fs + [f], t) !in keys && Members(fs, t, Key(fs + [f], t)) == []
    ensures Total(fs + [f], t, keys + [Key(fs + [f], t)]) == Total(fs, t, keys) + 1
  {
    var k := Key(fs + [f], t);
    AppendFrame(fs, f, t, k);
    hide Key, Members, Total;
    TotalOfUnchanged(fs, f, t, keys);
    TotalSnoc(fs + [f], t, keys, k);
  }

  lemma OneMoreCounted(fs: seq<Frame>, f: Frame, t: Tier)
    ensures Total(fs + [f], t, Keys(fs + [f], t)) == Total(fs, t, Keys(fs, t)) + 1
  {
    var ks, k := Keys(fs, t), Key(fs + [f], t);
    KeysSnoc(fs, f, t);
    KeysIncrease(fs, t);
    KeysHaveMembers(fs, t, k);
    AppendFrame(fs, f, t, k);
    hide Keys, Members, BucketOf, Key, Total;
    if ks != [] && ks[|ks| - 1] == k {
      TotalJoins(fs, f, t, ks);
    } else {
      if ks != [] {
        LastIsNew(ks, k);
      }
      TotalOpens(fs, f, t, ks);
    }
  }

  // The frames of the buckets add up to all frames: each is counted exactly once.
  lemma {:induction false} EveryFrameCountedOnce(fs: seq<Frame>, t: Tier)
    ensures Total(fs, t, Keys(fs, t)) == |fs|
  {
    if fs != [] {
      var front, f := fs[..|fs| - 1], fs[|fs| - 1];
      EveryFrameCountedOnce(front, t);
      OneMoreCounted(front, f, t);
      hide Keys, Total;
      assert fs == front + [f];
    }
  }

  // ---- the two tiers agree ----

  // The open minute is always the open ten-second bucket rounded down.
  lemma {:induction false} MinuteOfTenSec(fs: seq<Frame>)
    requires fs != []
    ensures Key(fs, OneMin) == Key(fs, TenSec) - Key(fs, TenSec) % 60_000
  {
    hide BucketOf;
    var ts := fs[|fs| - 1].s.ts;
    RoundDown(ts);
    if |fs| > 1 {
      var front := fs[..|fs| - 1];
      MinuteOfTenSec(front);
      RoundingIsMonotone(Key(front, TenSec), BucketOf(ts, TenSec));
      RoundingIsMonotone(BucketOf(ts, TenSec), Key(front, TenSec));
    }
  }

  lemma RoundingIsMonotone(a: nat, b: nat)
    ensures a <= b ==> a - a % 60_000 <= b - b % 60_000
  {
  }

  lemma RoundDown(ts: nat)
    ensures BucketOf(ts, OneMin) == BucketOf(ts, TenSec) - BucketOf(ts, TenSec) % 60_000
  {
    var q := ts / 60_000;
    var r := ts % 60_000;
    assert ts % 10_000 == r % 10_000;
    assert BucketOf(ts, TenSec) == q * 60_000 + (r - r % 10_000);
    assert 0 <= r - r % 10_000 < 60_000;
  }

  // A minute's frames are the frames of its six ten-second buckets, in order.
  lemma {:induction false} MinuteSplitsIntoSix(fs: seq<Frame>, m: nat)
    requires m % 60_000 == 0
    ensures Members(fs, OneMin, m) == Six(
      Members(fs, TenSec, m), Members(fs, TenSec, m + 10_000), Members(fs, TenSec, m + 20_000),
      Members(fs, TenSec, m + 30_000), Members(fs, TenSec, m + 40_000), Members(fs, TenSec, m + 50_000))
  {
    SixOfNothing();
    hide Members, Key, BucketOf, Six;
    if fs == [] {
      NoMembers(OneMin, m);
      forall b { NoMembers(TenSec, b); }
    } else {
      var front, x, k := fs[..|fs| - 1], fs[|fs| - 1], Key(fs, TenSec);
      MinuteSplitsIntoSix(front, m);
      MinuteOfTenSec(fs);
      LaterBucketsEmpty(fs, m);
      MembersStep(fs, OneMin, m);
      forall b ensures Members(fs, TenSec, b) == if k == b then Members(front, TenSec, b) + [x] else Members(front, TenSec, b) {
        MembersStep(fs, TenSec, b);
      }
      if k - k % 60_000 == m {
        SixKeys(k, m);
        ExtendSix(Members(front, TenSec, m), Members(front, TenSec, m + 10_000), Members(front, TenSec, m + 20_000),
                  Members(front, TenSec, m + 30_000), Members(front, TenSec, m + 40_000), Members(front, TenSec, m + 50_000), x);
      }
    }
  }

  // The six buckets of a minute, in order.
  function Six(a: seq<Frame>, b: seq<Frame>, c: seq<Frame>, d: seq<Frame>, e: seq<Frame>, f: seq<Frame>): seq<Frame> {
    a + b + c + d + e + f
  }

  lemma SixOfNothing()
    ensures Six([], [], [], [], [], []) == []
  {
  }

  // A frame joining one of them while the later ones are empty joins the minute at its end.
  lemma ExtendSix(a: seq<Frame>, b: seq<Frame>, c: seq<Frame>, d: seq<Frame>, e: seq<Frame>, f: seq<Frame>, x: Frame)
    ensures Six(a, b, c, d, e, f + [x]) == Six(a, b, c, d, e, f) + [x]
    ensures f == [] ==> Six(a, b, c, d, e + [x], f) == Six(a, b, c, d, e, f) + [x]
    ensures e == f == [] ==> Six(a, b, c, d + [x], e, f) == Six(a, b, c, d, e, f) + [x]
    ensures d == e == f == [] ==> Six(a, b, c + [x], d, e, f) == Six(a, b, c, d, e, f) + [x]
    ensures c == d == e == f == [] ==> Six(a, b + [x], c, d, e, f) == Six(a, b, c, d, e, f) + [x]
    ensures b == c == d == e == f == [] ==> Six(a + [x], b, c, d, e, f) == Six(a, b, c, d, e, f) + [x]
  {
  }

  lemma NoMembers(t: Tier, b: nat)
    ensures Members([], t, b) == []
  {
  }

  lemma MembersStep(fs: seq<Frame>, t: Tier, b: nat)
    requires fs != []
    ensures Members(fs, t, b) ==
      if Key(fs, t) == b then Members(fs[..|fs| - 1], t, b) + [fs[|fs| - 1]] else Members(fs[..|fs| - 1], t, b)
  {
  }

  lemma SixKeys(k: nat, m: nat)
    requires k % 10_000 == 0 && k - k % 60_000 == m
    ensures k == m || k == m + 10_000 || k == m + 20_000 || k == m + 30_000 || k == m + 40_000 || k == m + 50_000
  {
  }

  lemma LaterBucketsEmpty(fs: seq<Frame>, m: nat)
    requires fs != []
    ensures Key(fs, TenSec) % 10_000 == 0
    ensures forall b :: b > Key(fs, TenSec) ==> Members(fs, TenSec, b) == []
  {
    MembersBelowKey(fs, TenSec, 0);
    forall b | b > Key(fs, TenSec) ensures Members(fs, TenSec, b) == [] {
      MembersBelowKey(fs, TenSec, b);
    }
  }

  function MergeSix(a: SampleAccum, b: SampleAccum, c: SampleAccum, d: SampleAccum, e: SampleAccum, f: SampleAccum): SampleAccum {
    MergeAccum(MergeAccum(MergeAccum(MergeAccum(MergeAccum(a, b), c), d), e), f)
  }

  // Each minute's aggregate is the exact merge of its six ten-second aggregates.
  lemma TiersAgree(fs: seq<Frame>, m: nat)
    requires m % 60_000 == 0
    ensures Aggregate(Members(fs, OneMin, m)) == MergeSix(
      Aggregate(Members(fs, TenSec, m)), Aggregate(Members(fs, TenSec, m + 10_000)),
      Aggregate(Members(fs, TenSec, m + 20_000)), Aggregate(Members(fs, TenSec, m + 30_000)),
      Aggregate(Members(fs, TenSec, m + 40_000)), Aggregate(Members(fs, TenSec, m + 50_000)))
  {
    hide Aggregate, MergeAccum, Members;
    MinuteSplitsIntoSix(fs, m);
    var a, b, c := Members(fs, TenSec, m), Members(fs, TenSec, m + 10_000), Members(fs, TenSec, m + 20_000);
    var d, e, f := Members(fs, TenSec, m + 30_000), Members(fs, TenSec, m + 40_000), Members(fs, TenSec, m + 50_000);
    AggregateConcat(a, b);
    AggregateConcat(a + b, c);
    AggregateConcat(a + b + c, d);
    AggregateConcat(a + b + c + d, e);
    AggregateConcat(a + b + c + d + e, f);
  }

  // ---- reading a stored bucket back (crates/tui/src/ui.rs:353-361) ----

  // Replay's reading of a bucket: throttling, not throttling, or nobody could see.
  function BucketThrottling(throttleN: nat, observedN: nat): Option<bool> {
    if throttleN > 0 then Some(true)
    else if observedN == 0 then None
    else Some(false)
  }

  // On a recorded row the three readings are exact: some frame was observed throttling; some
  // frame was observed and none was throttling; or no frame was observed at all.
  lemma ThreeStateReading(fs: seq<Frame>)
    ensures var row := ToRow(Aggregate(fs));
      && (BucketThrottling(row.throttleN, row.observedN) == Some(true) <==>
            exists i :: 0 <= i < |fs| && fs[i].s.ObservedActive())
      && (BucketThrottling(row.throttleN, row.observedN) == None <==>
            forall i :: 0 <= i < |fs| ==> fs[i].s.throttle.None?)
      && row.throttleN <= row.observedN <= row.n
  {
    CountersOrdered(AnyReason, fs);
    CountersOrdered(Observed, fs);
    assert forall i :: 0 <= i < |fs| ==> Raised(AnyReason, fs[i].s) == fs[i].s.ObservedActive();
    assert forall i :: 0 <= i < |fs| ==> Raised(Observed, fs[i].s) == fs[i].s.throttle.Some?;
  }
}
