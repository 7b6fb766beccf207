/** Small concrete runs of the event machine: nothing is throttled, no memory reading is given
    and the same processes are listed on every readable tick, so that only the hang and the
    idle-gap derivations have anything to do. */
module Scenes {
  import opened Base
  import opened Telemetry
  import opened Narration

  const GIB: nat := 1_073_741_824
  const QUARTER_GIB: nat := 268_435_456
  const TEN_MINUTES: nat := 600_000

  function Reading(ts: nat, util: Option<real>): DynamicSample {
    DynamicSample(ts, util, None, None, None, None, None, None)
  }

  function Holder(pid: nat, mem: Option<nat>, util: Option<real>): ProcessSample {
    ProcessSample(pid, "", Compute, mem, util, None, None)
  }

  function Sighted(ts: nat, util: Option<real>, ps: seq<ProcessSample>): Tick {
    Tick(Reading(ts, util), Some(ps), None)
  }

  function Unsighted(ts: nat, util: Option<real>): Tick {
    Tick(Reading(ts, util), None, None)
  }

  function Still(prev: DynamicSample, now: map<nat, ProcessSample>, idle: IdleState, hang: Option<HangEpisode>): DeviceState {
    DeviceState(Some(prev), ThrottleState(None, None), ProcState(now, true), idle, hang, map[], VramState([], None))
  }

  function Said(hang: seq<Event>, idle: seq<Event>): Outs {
    Outs([], [], [], hang, idle, [])
  }

  // Nothing is throttled or loading, and the processes are the ones seen before, if any were.
  predicate Quiescent(st: DeviceState, pids: set<nat>) {
    && st.throttle == ThrottleState(None, None) && (st.prev.Some? ==> st.prev.value.throttle.None?)
    && st.spill == map[] && st.vram == VramState([], None)
    && (st.procs == ProcState(map[], false) || (st.procs.seenFirst && st.procs.procs.Keys == pids))
  }

  lemma OneCollects(p: ProcessSample)
    ensures Collect([p]) == map[p.pid := p]
  {
    assert [p][..0] == [];
  }

  lemma TwoCollect(p: ProcessSample, q: ProcessSample)
    ensures Collect([p, q]) == map[p.pid := p, q.pid := q]
  {
    assert [p, q][..1] == [p];
    OneCollects(p);
  }

  // No process is newly attached, so no offload is assessed.
  lemma NothingLoads(st: ProcState, s: DynamicSample, now: map<nat, ProcessSample>)
    requires st == ProcState(map[], false) || (st.seenFirst && st.procs.Keys == now.Keys)
    ensures SpillStep(st, map[], s, now, map[], [])
  {
    var loading := WithOpened(st, map[], s.ts, now);
    assert forall p :: p !in loading;
    var assessed := Assessed(loading, s, now);
    assert forall p :: p !in assessed;
    assert forall p :: p !in StillOpen(assessed, s.ts);
    assert Convicted(assessed, s.ts) == {};
  }

  lemma NobodyMoves(st: ProcState, ts: nat, now: map<nat, ProcessSample>)
    requires st == ProcState(map[], false) || (st.seenFirst && st.procs.Keys == now.Keys)
    ensures ProcessStep(st, ts, now, ProcState(now, true), [])
  {
    if st.seenFirst {
      assert AttachedEvents(st.procs, ts, now) == {} && ExitedEvents(st.procs, ts, now) == {};
    }
  }

  // Then a tick's hang and idle-gap derivations are all there is to it ...
  lemma SightedStep(st: DeviceState, ts: nat, util: Option<real>, ps: seq<ProcessSample>, idle: IdleState,
                    hang: Option<HangEpisode>, hangOut: seq<Event>, idleOut: seq<Event>)
    requires Quiescent(st, Collect(ps).Keys)
    requires HangStep(Collect(ps), st.hang, Reading(ts, util), hang, hangOut)
    requires IdleStep(Collect(ps), st.prev, st.idle.(gap := MuteIfFired(st.idle.gap, hangOut)), Reading(ts, util), idle, idleOut)
    ensures Step(st, Sighted(ts, util, ps), Still(Reading(ts, util), Collect(ps), idle, hang), Said(hangOut, idleOut))
  {
    NothingLoads(st.procs, Reading(ts, util), Collect(ps));
    NobodyMoves(st.procs, ts, Collect(ps));
    hide HangStep, IdleStep, SpillStep, ProcessStep, Collect;
  }

  // ... and a tick that cannot list the processes closes both.
  lemma UnsightedStep(st: DeviceState, ts: nat, util: Option<real>)
    requires Quiescent(st, st.procs.procs.Keys) && st.procs.seenFirst
    ensures Step(st, Unsighted(ts, util), Still(Reading(ts, util), st.procs.procs, st.idle.(gap := None), None), Said([], []))
  {
  }
}
