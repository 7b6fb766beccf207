/** Event derivation (crates/core/src/events.rs) as a relation between one device's state, one
    collection tick, the state afterwards and the events narrated. It is a relation and not a
    function only where the source leaves a choice open: the iteration order of a hash map, and
    which of several equally large holders `max_by_key` returns. Narration text is represented
    by the facts it prints. */
module Narration {
  import opened Base
  import opened Telemetry

  // ---- thresholds (crates/core/src/events.rs:98-138) ----

  const VRAM_WINDOW_MS: nat := 180_000
  const VRAM_MIN_SPAN_MS: nat := 60_000
  const VRAM_PRESSURE_FRAC: real := 0.85
  const VRAM_MIN_SLOPE: real := 16777216.0
  const VRAM_COOLDOWN_MS: nat := 90_000

  const IDLE_ACTIVE_UTIL: real := 50.0
  const IDLE_ACTIVE_MIN_MS: nat := 30_000
  const IDLE_GAP_UTIL: real := 10.0
  const IDLE_GAP_MIN_MS: nat := 10_000
  const IDLE_HOLDER_MIN_BYTES: nat := 268_435_456

  const HANG_DEVICE_UTIL: real := 2.0
  const HANG_PROC_UTIL: real := 2.0
  const HANG_HOLDER_MIN_BYTES: nat := 1_073_741_824
  const HANG_RESET_UTIL: real := 10.0
  const HANG_MIN_MS: nat := 600_000

  const SPILLOVER_HOLDER_MIN_BYTES: nat := 2_147_483_648
  const SPILLOVER_WINDOW_MS: nat := 90_000
  const SPILLOVER_MAX_MEAN_UTIL: real := 15.0
  const SPILLOVER_BUSY_UTIL: real := 30.0
  const SPILLOVER_MIN_MEAN_CPU: real := 150.0
  const SPILLOVER_MIN_CPU_SAMPLES: nat := 3
  const SPILLOVER_MIN_UTIL_COVERAGE: nat := 50

  // ---- inputs, outputs, state ----

  // One collection tick for one device. `procs` is None when the process list could not be
  // read at all, which is not the same as an empty list.
  datatype Tick = Tick(sample: DynamicSample, procs: Option<seq<ProcessSample>>, memTotal: Option<nat>)

  datatype Event =
    | ThrottleStart(ts: nat, preClock: Option<nat>)
    | ThrottleEnd(ts: nat, duration: Option<nat>, preClock: Option<nat>)
    | ProcessAttached(ts: nat, pid: nat, mem: Option<nat>)
    | ProcessExited(ts: nat, pid: nat, mem: Option<nat>)
    | HangSuspected(ts: nat, startTs: nat, pid: nat, holderMem: nat, meanUtil: real)
    | IdleGapSeen(ts: nat, startTs: nat, pid: nat, holderMem: nat, preUtil: real, meanUtil: real)
    | CpuSpillover(ts: nat, startTs: nat, pid: nat, holderMem: nat, meanUtil: real, meanCpu: real, cpuSamples: nat)
    | VramPressure(ts: nat, used: nat, total: nat, spanMs: nat, slope: real, holder: Option<nat>)

  // A printed amount held over a stretch of time can be read as exactly that much throughout or
  // as no less.
  datatype Claim = Exactly | NoLess

  predicate Bears(c: Claim, printed: nat, held: nat) {
    if c.Exactly? then held == printed else held >= printed
  }

  // One tick's events, by the derivation that produced them, in narration order.
  datatype Outs = Outs(throttle: seq<Event>, spill: seq<Event>, process: seq<Event>,
                       hang: seq<Event>, idle: seq<Event>, vram: seq<Event>)
  {
    function All(): seq<Event> {
      throttle + spill + process + hang + idle + vram
    }
  }

  datatype ThrottleState = ThrottleState(since: Option<nat>, preClock: Option<nat>)
  datatype ProcState = ProcState(procs: map<nat, ProcessSample>, seenFirst: bool)
  // `holders` maps a pid to the memory it held when the gap opened.
  datatype IdleGap = IdleGap(startTs: nat, preUtil: real, utilSum: real, utilN: nat,
                             holders: map<nat, nat>, hangNarrated: bool)
  datatype IdleState = IdleState(activeSince: Option<nat>, eligible: bool, gap: Option<IdleGap>)
  datatype HangEpisode = HangEpisode(startTs: nat, pid: nat, mem: nat, utilSum: real, utilN: nat, fired: bool)
  datatype Spillover = Spillover(mem: nat, startTs: nat, utilSum: real, utilN: nat,
                                 cpuSum: real, cpuN: nat, tickN: nat)
  // `window` holds (timestamp, used bytes), oldest first.
  datatype VramState = VramState(window: seq<(nat, nat)>, lastEvent: Option<nat>)

  datatype DeviceState = DeviceState(
    prev: Option<DynamicSample>,
    throttle: ThrottleState,
    procs: ProcState,
    idle: IdleState,
    hang: Option<HangEpisode>,
    spill: map<nat, Spillover>,
    vram: VramState)

  const INITIAL: DeviceState := DeviceState(
    None, ThrottleState(None, None), ProcState(map[], false),
    IdleState(None, false, None), None, map[], VramState([], None))

  // ---- throttle (298-372) ----

  predicate PrevActive(prev: Option<DynamicSample>) {
    prev.Some? && prev.value.ObservedActive()
  }

  function ThrottleStep(prev: Option<DynamicSample>, t: ThrottleState, s: DynamicSample)
    : (ThrottleState, seq<Event>)
  {
    if s.throttle.None? then (ThrottleState(None, None), [])
    else if !PrevActive(prev) && s.ObservedActive() then
      var pre := if prev.Some? then prev.value.smClock else None;
      (ThrottleState(Some(s.ts), pre), [ThrottleStart(s.ts, pre)])
    else if PrevActive(prev) && !s.ObservedActive() then
      var dur := match t.since case Some(t0) => Some(SatSub(s.ts, t0)) case None => None;
      (ThrottleState(None, None), [ThrottleEnd(s.ts, dur, t.preClock)])
    else (t, [])
  }

  // ---- process attach / exit (374-434) ----

  function AttachedEvents(procs: map<nat, ProcessSample>, ts: nat, now: map<nat, ProcessSample>): set<Event> {
    set p | p in now && p !in procs :: ProcessAttached(ts, p, now[p].mem)
  }

  function ExitedEvents(procs: map<nat, ProcessSample>, ts: nat, now: map<nat, ProcessSample>): set<Event> {
    set p | p in procs && p !in now :: ProcessExited(ts, p, procs[p].mem)
  }

  // Attaches come first, then exits, each group in hash-map order.
  ghost predicate ProcessStep(st: ProcState, ts: nat, now: map<nat, ProcessSample>,
                              st': ProcState, out: seq<Event>)
  {
    && st' == ProcState(now, true)
    && (if !st.seenFirst then out == []
        else
          var n := |AttachedEvents(st.procs, ts, now)|;
          && n <= |out|
          && Enumerates(out[..n], AttachedEvents(st.procs, ts, now))
          && Enumerates(out[n..], ExitedEvents(st.procs, ts, now)))
  }

  // ---- hang suspicion (545-629) ----

  predicate QuietHolder(p: ProcessSample) {
    && p.mem.GetOr(0) >= HANG_HOLDER_MIN_BYTES
    && (p.util.Some? ==> p.util.value <= HANG_PROC_UTIL)
  }

  predicate SomeQuietHolder(procs: map<nat, ProcessSample>) {
    exists p :: p in procs && QuietHolder(procs[p])
  }

  ghost predicate LargestQuietHolder(procs: map<nat, ProcessSample>, pid: nat) {
    && pid in procs && QuietHolder(procs[pid])
    && forall q :: q in procs && QuietHolder(procs[q]) ==> procs[q].mem.GetOr(0) <= procs[pid].mem.GetOr(0)
  }

  ghost predicate HangStep(procs: map<nat, ProcessSample>, h: Option<HangEpisode>, s: DynamicSample,
                           h': Option<HangEpisode>, out: seq<Event>)
  {
    if s.util.None? then h' == None && out == []
    else
      var util := s.util.value;
      var condition := util <= HANG_DEVICE_UTIL && SomeQuietHolder(procs);
      match h
      case Some(ep) =>
        if util > HANG_RESET_UTIL || ep.pid !in procs || !condition then h' == None && out == []
        else
          var sum := ep.utilSum + util;
          var n := ep.utilN + 1;
          if SatSub(s.ts, ep.startTs) >= HANG_MIN_MS && !ep.fired then
            && h' == Some(ep.(utilSum := sum, utilN := n, fired := true))
            && out == [HangSuspected(s.ts, ep.startTs, ep.pid, ep.mem, Mean(sum, n))]
          else
            h' == Some(ep.(utilSum := sum, utilN := n)) && out == []
      case None =>
        && out == []
        && (if condition then
              && h'.Some?
              && LargestQuietHolder(procs, h'.value.pid)
              && h'.value == HangEpisode(s.ts, h'.value.pid, procs[h'.value.pid].mem.GetOr(0), util, 1, false)
            else h' == None)
  }

  // A hang that fires mutes the gap still open over the same trough.
  function MuteIfFired(gap: Option<IdleGap>, hangOut: seq<Event>): Option<IdleGap> {
    if hangOut != [] && gap.Some? then Some(gap.value.(hangNarrated := true)) else gap
  }

  // ---- idle gap (436-533) ----

  function GapHolders(procs: map<nat, ProcessSample>): map<nat, nat> {
    map p | p in procs && procs[p].mem.GetOr(0) >= IDLE_HOLDER_MIN_BYTES && procs[p].mem.Some? :: procs[p].mem.value
  }

  function Surviving(holders: map<nat, nat>, procs: map<nat, ProcessSample>): map<nat, nat> {
    map p | p in holders && p in procs :: holders[p]
  }

  ghost predicate LargestHolder(holders: map<nat, nat>, pid: nat) {
    pid in holders && forall q :: q in holders ==> holders[q] <= holders[pid]
  }

  ghost predicate GapNarration(gap: IdleGap, holders: map<nat, nat>, ts: nat, out: seq<Event>) {
    if SatSub(ts, gap.startTs) >= IDLE_GAP_MIN_MS && !gap.hangNarrated && holders != map[] then
      && |out| == 1 && out[0].IdleGapSeen?
      && LargestHolder(holders, out[0].pid)
      && out[0] == IdleGapSeen(ts, gap.startTs, out[0].pid, holders[out[0].pid], gap.preUtil,
                               Mean(gap.utilSum, gap.utilN))
    else out == []
  }

  ghost predicate IdleStep(procs: map<nat, ProcessSample>, prev: Option<DynamicSample>, i: IdleState,
                           s: DynamicSample, i': IdleState, out: seq<Event>)
  {
    if s.util.None? then i' == IdleState(None, false, None) && out == []
    else
      var util := s.util.value;
      match i.gap
      case Some(gap) =>
        var holders := Surviving(gap.holders, procs);
        if util < IDLE_ACTIVE_UTIL then
          && i' == i.(gap := Some(gap.(holders := holders, utilSum := gap.utilSum + util, utilN := gap.utilN + 1)))
          && out == []
        else
          && GapNarration(gap, holders, s.ts, out)
          && i' == IdleState(Some(s.ts), false, None)
      case None =>
        && out == []
        && (if util >= IDLE_ACTIVE_UTIL then
              var since := i.activeSince.GetOr(s.ts);
              i' == IdleState(Some(since), i.eligible || SatSub(s.ts, since) >= IDLE_ACTIVE_MIN_MS, None)
            else if util >= IDLE_GAP_UTIL || !i.eligible then
              i' == IdleState(None, i.eligible, None)
            else
              var pre := if prev.Some? then prev.value.util.GetOr(util) else util;
              i' == IdleState(None, i.eligible, Some(IdleGap(s.ts, pre, util, 1, GapHolders(procs), false))))
  }

  // ---- CPU spillover (642-748) ----

  predicate OpensSpillover(st: ProcState, spill: map<nat, Spillover>, now: map<nat, ProcessSample>, p: nat) {
    st.seenFirst && p in now && p !in st.procs && p !in spill && now[p].mem.GetOr(0) >= SPILLOVER_HOLDER_MIN_BYTES
  }

  function WithOpened(st: ProcState, spill: map<nat, Spillover>, ts: nat, now: map<nat, ProcessSample>): map<nat, Spillover> {
    spill + map p | p in now && OpensSpillover(st, spill, now, p) :: Spillover(now[p].mem.GetOr(0), ts, 0.0, 0, 0.0, 0, 0)
  }

  function SpillTick(sp: Spillover, s: DynamicSample, p: ProcessSample): Spillover {
    Spillover(sp.mem, sp.startTs,
              sp.utilSum + s.util.GetOr(0.0), sp.utilN + (if s.util.Some? then 1 else 0),
              sp.cpuSum + p.cpu.GetOr(0.0), sp.cpuN + (if p.cpu.Some? then 1 else 0),
              sp.tickN + 1)
  }

  predicate SpillClosed(sp: Spillover, ts: nat) {
    SatSub(ts, sp.startTs) >= SPILLOVER_WINDOW_MS
  }

  predicate SpillConvicts(sp: Spillover) {
    && sp.utilN > 0 && sp.utilN * 100 >= sp.tickN * SPILLOVER_MIN_UTIL_COVERAGE
    && sp.cpuN >= SPILLOVER_MIN_CPU_SAMPLES
    && Mean(sp.utilSum, sp.utilN) < SPILLOVER_MAX_MEAN_UTIL
    && Mean(sp.cpuSum, sp.cpuN) >= SPILLOVER_MIN_MEAN_CPU
  }

  function SpillEvent(p: nat, sp: Spillover, ts: nat): Event {
    CpuSpillover(ts, sp.startTs, p, sp.mem, Mean(sp.utilSum, sp.utilN),
                 Mean(sp.cpuSum, sp.cpuN), sp.cpuN)
  }

  predicate GpuBusy(s: DynamicSample) {
    s.util.Some? && s.util.value >= SPILLOVER_BUSY_UTIL
  }

  // The windows still assessed this tick, after folding the tick in.
  function Assessed(open: map<nat, Spillover>, s: DynamicSample, now: map<nat, ProcessSample>): map<nat, Spillover> {
    if GpuBusy(s) then map[]
    else map p | p in open && p in now :: SpillTick(open[p], s, now[p])
  }

  function StillOpen(assessed: map<nat, Spillover>, ts: nat): map<nat, Spillover> {
    map p | p in assessed && !SpillClosed(assessed[p], ts) :: assessed[p]
  }

  function Convicted(assessed: map<nat, Spillover>, ts: nat): set<Event> {
    set p | p in assessed && SpillClosed(assessed[p], ts) && SpillConvicts(assessed[p]) :: SpillEvent(p, assessed[p], ts)
  }

  ghost predicate SpillStep(st: ProcState, spill: map<nat, Spillover>, s: DynamicSample,
                            now: map<nat, ProcessSample>, spill': map<nat, Spillover>, out: seq<Event>)
  {
    var assessed := Assessed(WithOpened(st, spill, s.ts, now), s, now);
    && spill' == StillOpen(assessed, s.ts)
    && Enumerates(out, Convicted(assessed, s.ts))
  }

  // ---- VRAM pressure (750-837) ----

  predicate VramReadable(s: DynamicSample, total: Option<nat>) {
    s.memUsed.Some? && total.Some? && total.value > 0
  }

  predicate SharpDrop(before: nat, after: nat, total: nat) {
    SatSub(before, after) > total / 20
  }

  function DropStale(w: seq<(nat, nat)>, ts: nat): (r: seq<(nat, nat)>) {
    if w != [] && SatSub(ts, w[0].0) > VRAM_WINDOW_MS then DropStale(w[1..], ts) else w
  }

  function PushReading(w: seq<(nat, nat)>, ts: nat, used: nat, total: nat): seq<(nat, nat)> {
    var base := if w != [] && SharpDrop(w[|w| - 1].1, used, total) then [] else w;
    DropStale(base + [(ts, used)], ts)
  }

  // Front-to-back rise of a window per minute.
  function Slope(w: seq<(nat, nat)>): real
    requires w != [] && w[|w| - 1].0 > w[0].0
  {
    (w[|w| - 1].1 as real - w[0].1 as real) / ((w[|w| - 1].0 - w[0].0) as real / 60000.0)
  }

  predicate PressureDue(w: seq<(nat, nat)>, last: Option<nat>, ts: nat, used: nat, total: nat)
    requires total > 0
  {
    && used as real / total as real >= VRAM_PRESSURE_FRAC
    && w != []
    && SatSub(w[|w| - 1].0, w[0].0) >= VRAM_MIN_SPAN_MS
    && Slope(w) >= VRAM_MIN_SLOPE
    && (last.Some? ==> SatSub(ts, last.value) >= VRAM_COOLDOWN_MS)
  }

  // The process named as the largest holder: one with a known size no other exceeds.
  ghost predicate NamedGrower(procs: map<nat, ProcessSample>, holder: Option<nat>) {
    match holder
    case None => forall p :: p in procs ==> procs[p].mem.None?
    case Some(p) =>
      && p in procs && procs[p].mem.Some?
      && forall q :: q in procs && procs[q].mem.Some? ==> procs[q].mem.value <= procs[p].mem.value
  }

  ghost predicate VramStep(procs: map<nat, ProcessSample>, v: VramState, s: DynamicSample, total: Option<nat>,
                           v': VramState, out: seq<Event>)
  {
    if !VramReadable(s, total) then v' == v && out == []
    else
      var used, tot := s.memUsed.value, total.value;
      var w := PushReading(v.window, s.ts, used, tot);
      if PressureDue(w, v.lastEvent, s.ts, used, tot) then
        && v' == VramState(w, Some(s.ts))
        && |out| == 1 && out[0].VramPressure?
        && NamedGrower(procs, out[0].holder)
        && out[0] == VramPressure(s.ts, used, tot, w[|w| - 1].0 - w[0].0, Slope(w), out[0].holder)
      else v' == VramState(w, v.lastEvent) && out == []
  }

  // ---- one tick (251-295) ----

  ghost predicate ProcessArm(st: DeviceState, s: DynamicSample, now: map<nat, ProcessSample>,
                             st': DeviceState, o: Outs)
  {
    && SpillStep(st.procs, st.spill, s, now, st'.spill, o.spill)
    && ProcessStep(st.procs, s.ts, now, st'.procs, o.process)
    && HangStep(now, st.hang, s, st'.hang, o.hang)
    && IdleStep(now, st.prev, st.idle.(gap := MuteIfFired(st.idle.gap, o.hang)), s, st'.idle, o.idle)
  }

  // A tick that could not see the process list drops every inference that rests on
  // continuous process observation and keeps the last observed list as it was.
  predicate BlindArm(st: DeviceState, st': DeviceState, o: Outs) {
    && st'.spill == map[] && st'.procs == st.procs && st'.hang == None
    && st'.idle == st.idle.(gap := None)
    && o.spill == [] && o.process == [] && o.hang == [] && o.idle == []
  }

  ghost predicate Step(st: DeviceState, t: Tick, st': DeviceState, o: Outs) {
    && st'.prev == Some(t.sample)
    && (st'.throttle, o.throttle) == ThrottleStep(st.prev, st.throttle, t.sample)
    && (match t.procs
        case Some(ps) => ProcessArm(st, t.sample, Collect(ps), st', o)
        case None => BlindArm(st, st', o))
    && VramStep(st'.procs.procs, st.vram, t.sample, t.memTotal, st'.vram, o.vram)
  }

  // ---- whole runs ----

  // `states[k]` is the state before tick k; `outs[k]` is what tick k narrated.
  datatype Run = Run(ticks: seq<Tick>, states: seq<DeviceState>, outs: seq<Outs>)

  predicate Shaped(r: Run) {
    |r.states| == |r.ticks| + 1 && |r.outs| == |r.ticks|
  }

  // Tick k of the run is a step of the machine. Naming it keeps the solver from unfolding every
  // step of a run whenever a proof mentions one of its states.
  ghost predicate StepAt(r: Run, k: nat)
    requires Shaped(r) && k < |r.ticks|
  {
    Step(r.states[k], r.ticks[k], r.states[k + 1], r.outs[k])
  }

  ghost predicate IsRun(r: Run) {
    && Shaped(r)
    && r.states[0] == INITIAL
    && forall k :: 0 <= k < |r.ticks| ==> StepAt(r, k)
  }

  function Emitted(r: Run, k: nat): seq<Event>
    requires k < |r.outs|
  {
    r.outs[k].All()
  }

  function Ts(r: Run, k: nat): nat
    requires k < |r.ticks|
  {
    r.ticks[k].sample.ts
  }

  // The clock never steps back over the run.
  ghost predicate Monotone(r: Run) {
    forall i, j :: 0 <= i <= j < |r.ticks| ==> Ts(r, i) <= Ts(r, j)
  }

  // The processes of a tick whose list was readable.
  function Listed(t: Tick): map<nat, ProcessSample>
    requires t.procs.Some?
  {
    Collect(t.procs.value)
  }

  // ---- every event carries its tick's timestamp, and its kind names its derivation ----

  predicate FromThrottle(e: Event) { e.ThrottleStart? || e.ThrottleEnd? }

  predicate FromProcess(e: Event) { e.ProcessAttached? || e.ProcessExited? }

  ghost predicate SlotKinds(o: Outs, ts: nat) {
    && (forall e :: e in o.throttle ==> FromThrottle(e) && e.ts == ts)
    && (forall e :: e in o.spill ==> e.CpuSpillover? && e.ts == ts)
    && (forall e :: e in o.process ==> FromProcess(e) && e.ts == ts)
    && (forall e :: e in o.hang ==> e.HangSuspected? && e.ts == ts)
    && (forall e :: e in o.idle ==> e.IdleGapSeen? && e.ts == ts)
    && (forall e :: e in o.vram ==> e.VramPressure? && e.ts == ts)
  }

  lemma ProcessKinds(st: ProcState, ts: nat, now: map<nat, ProcessSample>, st': ProcState, out: seq<Event>, e: Event)
    requires ProcessStep(st, ts, now, st', out) && e in out
    ensures FromProcess(e) && e.ts == ts
  {
    var n := |AttachedEvents(st.procs, ts, now)|;
    assert out == out[..n] + out[n..];
  }

  lemma VramKinds(procs: map<nat, ProcessSample>, v: VramState, s: DynamicSample, total: Option<nat>,
                  v': VramState, out: seq<Event>)
    requires VramStep(procs, v, s, total, v', out)
    ensures forall e :: e in out ==> e.VramPressure? && e.ts == s.ts
  {
  }

  lemma SpillKinds(st: ProcState, spill: map<nat, Spillover>, s: DynamicSample,
                   now: map<nat, ProcessSample>, spill': map<nat, Spillover>, out: seq<Event>)
    requires SpillStep(st, spill, s, now, spill', out)
    ensures forall e :: e in out ==> e.CpuSpillover? && e.ts == s.ts
  {
  }

  lemma StepKinds(st: DeviceState, t: Tick, st': DeviceState, o: Outs)
    requires Step(st, t, st', o)
    ensures SlotKinds(o, t.sample.ts)
  {
    hide VramStep, SpillStep, ProcessStep;
    VramKinds(st'.procs.procs, st.vram, t.sample, t.memTotal, st'.vram, o.vram);
    if t.procs.Some? {
      var now := Collect(t.procs.value);
      SpillKinds(st.procs, st.spill, t.sample, now, st'.spill, o.spill);
      forall e | e in o.process ensures FromProcess(e) && e.ts == t.sample.ts {
        ProcessKinds(st.procs, t.sample.ts, now, st'.procs, o.process, e);
      }
    }
  }

  // Everything narrated comes from one of the six derivations ...
  lemma InSomeSlot(o: Outs, e: Event)
    requires e in o.All()
    ensures e in o.throttle || e in o.spill || e in o.process || e in o.hang || e in o.idle || e in o.vram
  {
  }

  // ... and its kind says which.
  lemma KindNamesSlot(o: Outs, ts: nat, e: Event)
    requires SlotKinds(o, ts)
    requires e in o.throttle || e in o.spill || e in o.process || e in o.hang || e in o.idle || e in o.vram
    ensures e.ts == ts
    ensures FromThrottle(e) <==> e in o.throttle
    ensures e.CpuSpillover? <==> e in o.spill
    ensures FromProcess(e) <==> e in o.process
    ensures e.HangSuspected? <==> e in o.hang
    ensures e.IdleGapSeen? <==> e in o.idle
    ensures e.VramPressure? <==> e in o.vram
  {
  }

  lemma EventSlots(r: Run, k: nat, e: Event)
    requires IsRun(r) && k < |r.ticks| && e in Emitted(r, k)
    ensures e.ts == Ts(r, k)
    ensures FromThrottle(e) <==> e in r.outs[k].throttle
    ensures e.CpuSpillover? <==> e in r.outs[k].spill
    ensures FromProcess(e) <==> e in r.outs[k].process
    ensures e.HangSuspected? <==> e in r.outs[k].hang
    ensures e.IdleGapSeen? <==> e in r.outs[k].idle
    ensures e.VramPressure? <==> e in r.outs[k].vram
  {
    hide Step, SlotKinds, FromThrottle, FromProcess;
    assert StepAt(r, k);
    StepKinds(r.states[k], r.ticks[k], r.states[k + 1], r.outs[k]);
    InSomeSlot(r.outs[k], e);
    KindNamesSlot(r.outs[k], Ts(r, k), e);
  }
}
