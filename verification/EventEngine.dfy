/** The event engine in its own form (crates/core/src/events.rs): per-device state updated in
    place, one derivation after another. Every method is tied to the relation in `Narration`,
    and the engine keeps, as ghost state, the run each device has been through, so that every
    theorem about runs speaks about what the engine narrates. */
module EventEngineModel {
  import opened Base
  import opened Telemetry
  import opened Narration

  class DevState {
    var prev: Option<DynamicSample>
    var procs: map<nat, ProcessSample>
    var seenFirstProcs: bool
    var throttleSince: Option<nat>
    var preThrottleClock: Option<nat>
    var vramWindow: seq<(nat, nat)>
    var lastPressureEvt: Option<nat>
    var activeSince: Option<nat>
    var idleEligible: bool
    var idleGap: Option<IdleGap>
    var hang: Option<HangEpisode>
    var spillovers: map<nat, Spillover>

    ghost function State(): DeviceState
      reads this
    {
      DeviceState(prev, ThrottleState(throttleSince, preThrottleClock), ProcState(procs, seenFirstProcs),
                  IdleState(activeSince, idleEligible, idleGap), hang, spillovers,
                  VramState(vramWindow, lastPressureEvt))
    }

    constructor ()
      ensures State() == INITIAL
    {
      prev, procs, seenFirstProcs := None, map[], false;
      throttleSince, preThrottleClock := None, None;
      vramWindow, lastPressureEvt := [], None;
      activeSince, idleEligible, idleGap := None, false, None;
      hang, spillovers := None, map[];
    }

    method ThrottleEvents(sample: DynamicSample) returns (out: seq<Event>)
      modifies this`throttleSince, this`preThrottleClock
      ensures (ThrottleState(throttleSince, preThrottleClock), out)
           == ThrottleStep(prev, old(State()).throttle, sample)
    {
      out := [];
      if sample.throttle.None? {
        throttleSince, preThrottleClock := None, None;
        return;
      }
      var prevAny := prev.Some? && prev.value.throttle.Some? && prev.value.throttle.value.Any();
      var nowAny := sample.throttle.value.Any();
      if !prevAny && nowAny {
        preThrottleClock := if prev.Some? then prev.value.smClock else None;
        throttleSince := Some(sample.ts);
        out := [ThrottleStart(sample.ts, preThrottleClock)];
      } else if prevAny && !nowAny {
        var duration := None;
        if throttleSince.Some? {
          duration := Some(SatSub(sample.ts, throttleSince.value));
        }
        out := [ThrottleEnd(sample.ts, duration, preThrottleClock)];
        throttleSince, preThrottleClock := None, None;
      }
    }

    method ProcessEvents(ts: nat, processes: seq<ProcessSample>) returns (out: seq<Event>)
      modifies this`procs, this`seenFirstProcs
      ensures ProcessStep(old(State()).procs, ts, Collect(processes), ProcState(procs, seenFirstProcs), out)
    {
      var now := Collect(processes);
      out := [];
      if seenFirstProcs {
        var came := AttachEvents(procs, ts, now);
        var gone := ExitEvents(procs, ts, now);
        out := came + gone;
        ListsWholeSet(came, AttachedEvents(procs, ts, now));
        assert out[..|came|] == came && out[|came|..] == gone;
      }
      seenFirstProcs := true;
      procs := now;
    }

    method HangEvents(sample: DynamicSample) returns (out: seq<Event>)
      modifies this`hang, this`idleGap
      ensures HangStep(procs, old(hang), sample, hang, out)
      ensures idleGap == MuteIfFired(old(idleGap), out)
    {
      out := [];
      if sample.util.None? {
        hang := None;
        return;
      }
      var util := sample.util.value;
      var candidate := LargestQuiet(procs);
      var condition := util <= HANG_DEVICE_UTIL && candidate.Some?;
      if hang.Some? {
        var ep := hang.value;
        hang := None;
        if util > HANG_RESET_UTIL || ep.pid !in procs || !condition {
          return;
        }
        ep := ep.(utilSum := ep.utilSum + util, utilN := ep.utilN + 1);
        if SatSub(sample.ts, ep.startTs) >= HANG_MIN_MS && !ep.fired {
          ep := ep.(fired := true);
          out := [HangSuspected(sample.ts, ep.startTs, ep.pid, ep.mem, Mean(ep.utilSum, ep.utilN))];
          if idleGap.Some? {
            idleGap := Some(idleGap.value.(hangNarrated := true));
          }
        }
        hang := Some(ep);
        return;
      }
      if condition {
        var pid := candidate.value;
        hang := Some(HangEpisode(sample.ts, pid, procs[pid].mem.GetOr(0), util, 1, false));
      }
    }

    method IdleGapEvents(sample: DynamicSample) returns (out: seq<Event>)
      modifies this`activeSince, this`idleEligible, this`idleGap
      ensures IdleStep(procs, prev, old(State()).idle, sample, State().idle, out)
    {
      out := [];
      if sample.util.None? {
        activeSince, idleEligible, idleGap := None, false, None;
        return;
      }
      var util := sample.util.value;
      if idleGap.Some? {
        var gap := idleGap.value;
        var holders := Surviving(gap.holders, procs);
        idleGap := None;
        if util < IDLE_ACTIVE_UTIL {
          idleGap := Some(gap.(holders := holders, utilSum := gap.utilSum + util, utilN := gap.utilN + 1));
          return;
        }
        var holder := LargestOf(holders);
        if SatSub(sample.ts, gap.startTs) >= IDLE_GAP_MIN_MS && !gap.hangNarrated && holder.Some? {
          out := [IdleGapSeen(sample.ts, gap.startTs, holder.value, holders[holder.value], gap.preUtil,
                              Mean(gap.utilSum, gap.utilN))];
        }
        activeSince, idleEligible := Some(sample.ts), false;
        return;
      }
      if util >= IDLE_ACTIVE_UTIL {
        if activeSince.None? {
          activeSince := Some(sample.ts);
        }
        if SatSub(sample.ts, activeSince.value) >= IDLE_ACTIVE_MIN_MS {
          idleEligible := true;
        }
        return;
      }
      activeSince := None;
      if util >= IDLE_GAP_UTIL || !idleEligible {
        return;
      }
      var pre := if prev.Some? then prev.value.util.GetOr(util) else util;
      idleGap := Some(IdleGap(sample.ts, pre, util, 1, GapHolders(procs), false));
    }

    method SpilloverEvents(sample: DynamicSample, processes: seq<ProcessSample>) returns (out: seq<Event>)
      modifies this`spillovers
      ensures SpillStep(old(State()).procs, old(spillovers), sample, Collect(processes), spillovers, out)
    {
      var now := Collect(processes);
      ghost var st, before := State().procs, spillovers;
      if seenFirstProcs {
        spillovers := WithOpened(ProcState(procs, seenFirstProcs), spillovers, sample.ts, now);
      }
      assert spillovers == WithOpened(st, before, sample.ts, now);
      spillovers, out := JudgeWindows(spillovers, sample, now);
    }

    method VramPressureEvents(sample: DynamicSample, memTotal: Option<nat>) returns (out: seq<Event>)
      modifies this`vramWindow, this`lastPressureEvt
      ensures VramStep(procs, old(State()).vram, sample, memTotal, State().vram, out)
    {
      hide Slope;
      out := [];
      if sample.memUsed.None? || memTotal.None? || memTotal.value == 0 {
        return;
      }
      var used, total := sample.memUsed.value, memTotal.value;
      if vramWindow != [] && SatSub(vramWindow[|vramWindow| - 1].1, used) > total / 20 {
        vramWindow := [];
      }
      vramWindow := vramWindow + [(sample.ts, used)];
      ghost var pushed := vramWindow;
      assert PushReading(old(vramWindow), sample.ts, used, total) == DropStale(pushed, sample.ts);
      while vramWindow != [] && SatSub(sample.ts, vramWindow[0].0) > VRAM_WINDOW_MS
        invariant DropStale(vramWindow, sample.ts) == DropStale(pushed, sample.ts)
        invariant lastPressureEvt == old(lastPressureEvt)
        decreases |vramWindow|
      {
        vramWindow := vramWindow[1..];
      }
      assert vramWindow == PushReading(old(vramWindow), sample.ts, used, total);
      if PressureDue(vramWindow, lastPressureEvt, sample.ts, used, total) {
        lastPressureEvt := Some(sample.ts);
        var grower := LargestKnown(procs);
        var w := vramWindow;
        out := [VramPressure(sample.ts, used, total, w[|w| - 1].0 - w[0].0, Slope(w), grower)];
      }
    }

    // The derivations that rest on the process list, in order.
    method SightedEvents(sample: DynamicSample, ps: seq<ProcessSample>)
      returns (spill: seq<Event>, process: seq<Event>, hangs: seq<Event>, idles: seq<Event>)
      modifies this`spillovers, this`procs, this`seenFirstProcs, this`hang, this`idleGap, this`activeSince, this`idleEligible
      ensures ProcessArm(old(State()), sample, Collect(ps), State(), Outs([], spill, process, hangs, idles, []))
    {
      hide SpillStep, ProcessStep, HangStep, IdleStep, MuteIfFired;
      spill := SpilloverEvents(sample, ps);
      process := ProcessEvents(sample.ts, ps);
      hangs := HangEvents(sample);
      idles := IdleGapEvents(sample);
    }

    // Without one, nothing that rests on continuous observation survives.
    method DropInferences()
      modifies this`spillovers, this`hang, this`idleGap
      ensures BlindArm(old(State()), State(), Outs([], [], [], [], [], []))
    {
      hang := None;
      idleGap := None;
      spillovers := map[];
    }

    // One tick of this device, in the order the engine runs the derivations.
    method Tick(t: Tick) returns (out: seq<Event>, ghost parts: Outs)
      modifies this
      ensures Step(old(State()), t, State(), parts) && out == parts.All()
    {
      hide SpillStep, ProcessStep, HangStep, IdleStep, VramStep, ThrottleStep;
      var sample := t.sample;
      var throttle := ThrottleEvents(sample);
      var spill, process, hangs, idles: seq<Event> := [], [], [], [];
      match t.procs {
        case Some(ps) =>
          spill, process, hangs, idles := SightedEvents(sample, ps);
        case None =>
          DropInferences();
      }
      var vram := VramPressureEvents(sample, t.memTotal);
      prev := Some(sample);
      parts := Outs(throttle, spill, process, hangs, idles, vram);
      out := throttle + spill + process + hangs + idles + vram;
    }
  }

  // ---- picks and listings whose order a hash map leaves open ----

  lemma ListsWholeSet<T>(s: seq<T>, S: set<T>)
    requires Enumerates(s, S)
    ensures |s| == |S|
  {
    if s == [] {
      assert S == {};
    } else {
      var last := s[|s| - 1];
      var front := s[..|s| - 1];
      assert s == front + [last];
      assert Enumerates(front, S - {last}) by {
        forall x | x in S - {last} ensures x in front {
          assert x in s;
        }
      }
      ListsWholeSet(front, S - {last});
    }
  }

  method AttachEvents(procs: map<nat, ProcessSample>, ts: nat, now: map<nat, ProcessSample>) returns (out: seq<Event>)
    ensures Enumerates(out, AttachedEvents(procs, ts, now))
  {
    out := [];
    var todo := now.Keys;
    while todo != {}
      invariant todo <= now.Keys
      invariant NoDuplicates(out)
      invariant forall e :: e in out <==> exists p :: p in now && p !in procs && p !in todo && e == ProcessAttached(ts, p, now[p].mem)
    {
      var p :| p in todo;
      todo := todo - {p};
      if p !in procs {
        assert ProcessAttached(ts, p, now[p].mem) !in out;
        out := out + [ProcessAttached(ts, p, now[p].mem)];
      }
    }
  }

  method ExitEvents(procs: map<nat, ProcessSample>, ts: nat, now: map<nat, ProcessSample>) returns (out: seq<Event>)
    ensures Enumerates(out, ExitedEvents(procs, ts, now))
  {
    out := [];
    var todo := procs.Keys;
    while todo != {}
      invariant todo <= procs.Keys
      invariant NoDuplicates(out)
      invariant forall e :: e in out <==> exists p :: p in procs && p !in now && p !in todo && e == ProcessExited(ts, p, procs[p].mem)
    {
      var p :| p in todo;
      todo := todo - {p};
      if p !in now {
        assert ProcessExited(ts, p, procs[p].mem) !in out;
        out := out + [ProcessExited(ts, p, procs[p].mem)];
      }
    }
  }

  // Judging one more window adds it to the open ones or, if it convicts, to the narrated ones.
  lemma OneMoreVerdict(seen: map<nat, Spillover>, p: nat, sp: Spillover, ts: nat)
    requires p !in seen
    ensures StillOpen(seen[p := sp], ts) == if SpillClosed(sp, ts) then StillOpen(seen, ts) else StillOpen(seen, ts)[p := sp]
    ensures Convicted(seen[p := sp], ts)
      == Convicted(seen, ts) + if SpillClosed(sp, ts) && SpillConvicts(sp) then {SpillEvent(p, sp, ts)} else {}
    ensures SpillEvent(p, sp, ts) !in Convicted(seen, ts)
  {
    hide Mean, SpillConvicts, SpillClosed;
    var now := seen[p := sp];
    assert forall q :: q in now <==> q == p || q in seen;
    assert forall q :: q in seen ==> now[q] == seen[q];
    forall e | e in Convicted(seen, ts) + if SpillClosed(sp, ts) && SpillConvicts(sp) then {SpillEvent(p, sp, ts)} else {}
      ensures e in Convicted(now, ts)
    {
      if e in Convicted(seen, ts) {
        var q :| q in seen && SpillClosed(seen[q], ts) && SpillConvicts(seen[q]) && e == SpillEvent(q, seen[q], ts);
        assert now[q] == seen[q];
      } else {
        assert now[p] == sp;
      }
    }
  }

  // Every open window is assessed once: cancelled, kept open, or closed and judged.
  method JudgeWindows(open: map<nat, Spillover>, sample: DynamicSample, now: map<nat, ProcessSample>)
    returns (kept: map<nat, Spillover>, out: seq<Event>)
    ensures kept == StillOpen(Assessed(open, sample, now), sample.ts)
    ensures Enumerates(out, Convicted(Assessed(open, sample, now), sample.ts))
  {
    hide SpillTick, SpillConvicts, SpillClosed, StillOpen, Convicted, SpillEvent;
    var busy := GpuBusy(sample);
    kept, out := map[], [];
    ghost var seen: map<nat, Spillover> := map[];
    assert StillOpen(map[], sample.ts) == map[] && Convicted(map[], sample.ts) == {} by { NothingToJudge(sample.ts); }
    var todo := open.Keys;
    while todo != {}
      invariant todo <= open.Keys
      invariant seen.Keys == Assessed(open, sample, now).Keys - todo
      invariant forall p :: p in seen ==> seen[p] == Assessed(open, sample, now)[p]
      invariant kept == StillOpen(seen, sample.ts)
      invariant Enumerates(out, Convicted(seen, sample.ts))
    {
      var p :| p in todo;
      todo := todo - {p};
      if !busy && p in now {
        var sp := SpillTick(open[p], sample, now[p]);
        OneMoreVerdict(seen, p, sp, sample.ts);
        seen := seen[p := sp];
        if !SpillClosed(sp, sample.ts) {
          kept := kept[p := sp];
        } else if SpillConvicts(sp) {
          out := out + [SpillEvent(p, sp, sample.ts)];
        }
      }
    }
    assert seen == Assessed(open, sample, now);
  }

  lemma NothingToJudge(ts: nat)
    ensures StillOpen(map[], ts) == map[] && Convicted(map[], ts) == {}
  {
  }

  // The quiet holder with the most memory, if there is any.
  method LargestQuiet(procs: map<nat, ProcessSample>) returns (best: Option<nat>)
    ensures best.Some? <==> SomeQuietHolder(procs)
    ensures best.Some? ==> LargestQuietHolder(procs, best.value)
  {
    best := None;
    var todo := procs.Keys;
    while todo != {}
      invariant todo <= procs.Keys
      invariant best.None? ==> forall q :: q in procs && q !in todo ==> !QuietHolder(procs[q])
      invariant best.Some? ==> best.value in procs && QuietHolder(procs[best.value])
      invariant best.Some? ==> forall q :: q in procs && q !in todo && QuietHolder(procs[q]) ==>
        procs[q].mem.GetOr(0) <= procs[best.value].mem.GetOr(0)
    {
      var p :| p in todo;
      todo := todo - {p};
      if QuietHolder(procs[p]) && (best.None? || procs[p].mem.GetOr(0) >= procs[best.value].mem.GetOr(0)) {
        best := Some(p);
      }
    }
  }

  method LargestOf(holders: map<nat, nat>) returns (best: Option<nat>)
    ensures best.Some? <==> holders != map[]
    ensures best.Some? ==> LargestHolder(holders, best.value)
  {
    best := None;
    var todo := holders.Keys;
    while todo != {}
      invariant todo <= holders.Keys
      invariant best.None? ==> todo == holders.Keys
      invariant best.Some? ==> best.value in holders
      invariant best.Some? ==>
        forall q :: q in holders && q !in todo ==> holders[q] <= holders[best.value]
    {
      var p :| p in todo;
      todo := todo - {p};
      if best.None? || holders[p] >= holders[best.value] {
        best := Some(p);
      }
    }
  }

  // The process named in a pressure event: the largest one whose size is known.
  method LargestKnown(procs: map<nat, ProcessSample>) returns (best: Option<nat>)
    ensures NamedGrower(procs, best)
  {
    best := None;
    var todo := procs.Keys;
    while todo != {}
      invariant todo <= procs.Keys
      invariant best.None? ==> forall q :: q in procs && q !in todo ==> procs[q].mem.None?
      invariant best.Some? ==> best.value in procs && procs[best.value].mem.Some?
      invariant best.Some? ==>
        forall q :: q in procs && q !in todo && procs[q].mem.Some? ==> procs[q].mem.value <= procs[best.value].mem.value
    {
      var p :| p in todo;
      todo := todo - {p};
      if procs[p].mem.Some? && (best.None? || procs[p].mem.value >= procs[best.value].mem.value) {
        best := Some(p);
      }
    }
  }

  // ---- the engine ----

  ghost function EmptyRun(): Run {
    Run([], [INITIAL], [])
  }

  ghost function Extended(r: Run, t: Tick, st: DeviceState, o: Outs): Run {
    Run(r.ticks + [t], r.states + [st], r.outs + [o])
  }

  // The state a device is in is the one its run ends in.
  ghost predicate Tracks(r: Run, st: DeviceState) {
    IsRun(r) && r.states[|r.ticks|] == st
  }

  lemma TracksFromStart()
    ensures Tracks(EmptyRun(), INITIAL)
  {
  }

  lemma ExtendedIsRun(r: Run, before: DeviceState, t: Tick, st: DeviceState, o: Outs)
    requires Tracks(r, before) && Step(before, t, st, o)
    ensures Tracks(Extended(r, t, st, o), st)
  {
    hide Step;
    var q := Extended(r, t, st, o);
    forall k | 0 <= k < |q.ticks| ensures StepAt(q, k) {
      assert k < |r.ticks| ==> StepAt(r, k);
    }
  }

  class EventEngine {
    var state: map<string, DevState>
    // The run each device has been through so far.
    ghost var runs: map<string, Run>

    ghost predicate Valid()
      reads this, state.Values
    {
      && state.Keys == runs.Keys
      && (forall d, e :: d in state && e in state && d != e ==> state[d] != state[e])
      && (forall d :: d in state ==> Tracks(runs[d], state[d].State()))
    }

    ghost function RunOf(device: string): Run
      reads this
    {
      if device in runs then runs[device] else EmptyRun()
    }

    constructor ()
      ensures Valid() && state == map[] && runs == map[]
    {
      state, runs := map[], map[];
    }

    // The device's state, created on its first tick.
    method EntryOrDefault(device: string) returns (st: DevState)
      requires Valid()
      modifies this
      ensures Valid() && device in state && st == state[device]
      ensures st in old(state).Values || fresh(st)
      ensures forall d :: RunOf(d) == old(RunOf(d))
      ensures state.Keys == old(state).Keys + {device}
      ensures forall d :: d in old(state) ==> state[d] == old(state[d])
      ensures forall d :: d in old(state) ==> state[d].State() == old(state[d].State())
    {
      hide Tracks, DevState.State, EmptyRun;
      if device !in state {
        AddDevice(device);
      }
      st := state[device];
    }

    method AddDevice(device: string)
      requires Valid() && device !in state
      modifies this
      ensures Valid() && device in state && fresh(state[device]) && state == old(state)[device := state[device]]
      ensures runs == old(runs)[device := EmptyRun()]
    {
      hide Tracks, DevState.State, EmptyRun;
      TracksFromStart();
      var added := new DevState();
      state := state[device := added];
      runs := runs[device := EmptyRun()];
    }

    // The tick of a device already known, and its place in that device's run.
    method TickEntry(device: string, t: Tick) returns (out: seq<Event>, ghost after: DeviceState, ghost parts: Outs)
      requires Valid() && device in state
      modifies this`runs, state[device]
      ensures Valid()
      ensures runs == old(runs)[device := Extended(old(runs[device]), t, after, parts)] && parts.All() == out
      ensures forall d :: d in state && d != device ==> state[d].State() == old(state[d].State())
    {
      hide Tracks, Step, Extended, DevState.State, Outs.All;
      var st := state[device];
      ghost var r, before := runs[device], st.State();
      out, parts := st.Tick(t);
      after := st.State();
      ExtendedIsRun(r, before, t, after, parts);
      runs := runs[device := Extended(r, t, after, parts)];
    }

    // Derives one tick's events for one device: that device's run is extended by exactly this
    // tick, and no other device's run or state is touched.
    method Observe(device: string, t: Tick) returns (out: seq<Event>)
      requires Valid()
      modifies this, state.Values
      ensures Valid()
      ensures exists st, o :: RunOf(device) == Extended(old(RunOf(device)), t, st, o) && o.All() == out
      ensures forall d :: d != device ==> RunOf(d) == old(RunOf(d))
      ensures state.Keys == old(state).Keys + {device}
      ensures forall d :: d in old(state) ==> state[d] == old(state[d])
      ensures forall d :: d in old(state) && d != device ==> state[d].State() == old(state[d].State())
    {
      hide Tracks, Step, Extended, DevState.State, Outs.All;
      var st := EntryOrDefault(device);
      ghost var after, parts;
      out, after, parts := TickEntry(device, t);
      assert RunOf(device) == Extended(old(RunOf(device)), t, after, parts);
    }
  }
}
