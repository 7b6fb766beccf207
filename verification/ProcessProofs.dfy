/** Attach and exit facts (crates/core/src/events.rs:374-434) and what unreadable process
    lists cannot change (261-293). */
module ProcessProofs {
  import opened Base
  import opened Telemetry
  import opened Narration

  lemma ProcessAt(r: Run, k: nat)
    requires IsRun(r) && k < |r.ticks|
    ensures r.ticks[k].procs.None? ==> r.states[k + 1].procs == r.states[k].procs && r.outs[k].process == []
    ensures r.ticks[k].procs.Some? ==>
      ProcessStep(r.states[k].procs, Ts(r, k), Listed(r.ticks[k]), r.states[k + 1].procs, r.outs[k].process)
  {
    hide SpillStep, IdleStep, ProcessStep, VramStep, HangStep;
    assert StepAt(r, k);
  }

  ghost predicate Attaches(r: Run, k: nat, p: nat)
    requires Shaped(r) && k < |r.ticks|
  {
    exists e :: e in Emitted(r, k) && e.ProcessAttached? && e.pid == p
  }

  ghost predicate Exits(r: Run, k: nat, p: nat)
    requires Shaped(r) && k < |r.ticks|
  {
    exists e :: e in Emitted(r, k) && e.ProcessExited? && e.pid == p
  }

  // The last process list that was readable before tick k.
  function LastSeen(ticks: seq<Tick>, k: nat): Option<map<nat, ProcessSample>>
    requires k <= |ticks|
  {
    if k == 0 then None
    else if ticks[k - 1].procs.Some? then Some(Listed(ticks[k - 1]))
    else LastSeen(ticks, k - 1)
  }

  lemma {:induction false} KeepsLastSeen(r: Run, k: nat)
    requires IsRun(r) && k <= |r.ticks|
    ensures r.states[k].procs == match LastSeen(r.ticks, k)
      case None => ProcState(map[], false)
      case Some(m) => ProcState(m, true)
  {
    hide Listed;
    if k > 0 {
      KeepsLastSeen(r, k - 1);
      ProcessAt(r, k - 1);
    }
  }

  // A tick narrates exactly the difference between its list and the last one that was
  // readable; nothing on a blind tick, and nothing on the first list ever read.
  lemma NarratesTheDifference(r: Run, k: nat, p: nat)
    requires IsRun(r) && k < |r.ticks|
    ensures Attaches(r, k, p) <==>
      && r.ticks[k].procs.Some? && LastSeen(r.ticks, k).Some?
      && p in Listed(r.ticks[k]) && p !in LastSeen(r.ticks, k).value
    ensures Exits(r, k, p) <==>
      && r.ticks[k].procs.Some? && LastSeen(r.ticks, k).Some?
      && p !in Listed(r.ticks[k]) && p in LastSeen(r.ticks, k).value
  {
    hide Listed;
    ProcessAt(r, k);
    KeepsLastSeen(r, k);
    var out := r.outs[k].process;
    forall e | e in Emitted(r, k) ensures FromProcess(e) <==> e in out {
      EventSlots(r, k, e);
    }
    if r.ticks[k].procs.Some? && LastSeen(r.ticks, k).Some? {
      var was, now, ts := LastSeen(r.ticks, k).value, Listed(r.ticks[k]), Ts(r, k);
      var n := |AttachedEvents(was, ts, now)|;
      assert out == out[..n] + out[n..];
      if p in now && p !in was {
        var e := ProcessAttached(ts, p, now[p].mem);
        assert e in AttachedEvents(was, ts, now);
        assert e in Emitted(r, k);
      }
      if p !in now && p in was {
        var e := ProcessExited(ts, p, was[p].mem);
        assert e in ExitedEvents(was, ts, now);
        assert e in Emitted(r, k);
      }
    }
  }

  // An attach prints what the process is listed with now, an exit what it was last listed with.
  lemma PrintsAmounts(r: Run, k: nat, e: Event)
    requires IsRun(r) && k < |r.ticks| && e in Emitted(r, k)
    ensures e.ProcessAttached? ==> r.ticks[k].procs.Some? && e.pid in Listed(r.ticks[k]) && e.mem == Listed(r.ticks[k])[e.pid].mem
    ensures e.ProcessExited? ==>
      LastSeen(r.ticks, k).Some? && e.pid in LastSeen(r.ticks, k).value && e.mem == LastSeen(r.ticks, k).value[e.pid].mem
  {
    hide Listed;
    EventSlots(r, k, e);
    ProcessAt(r, k);
    KeepsLastSeen(r, k);
    if e in r.outs[k].process && LastSeen(r.ticks, k).Some? {
      var was, now, ts := LastSeen(r.ticks, k).value, Listed(r.ticks[k]), Ts(r, k);
      var n := |AttachedEvents(was, ts, now)|;
      assert r.outs[k].process == r.outs[k].process[..n] + r.outs[k].process[n..];
      assert e in AttachedEvents(was, ts, now) || e in ExitedEvents(was, ts, now);
    }
  }

  // ---- one pid's history ----

  // The attaches (true) and exits (false) narrated for `p` before tick k, in order.
  ghost function PidHistory(r: Run, k: nat, p: nat): seq<bool>
    requires Shaped(r) && k <= |r.ticks|
  {
    if k == 0 then []
    else PidHistory(r, k - 1, p)
         + (if Attaches(r, k - 1, p) then [true] else [])
         + (if Exits(r, k - 1, p) then [false] else [])
  }

  // The first process list that was readable before tick k; empty if there was none.
  function FirstSeen(ticks: seq<Tick>, k: nat): map<nat, ProcessSample>
    requires k <= |ticks|
  {
    if k == 0 || LastSeen(ticks, k).None? then map[]
    else if LastSeen(ticks, k - 1).None? then Listed(ticks[k - 1])
    else FirstSeen(ticks, k - 1)
  }

  ghost predicate Alternates(h: seq<bool>) {
    forall i :: 0 <= i < |h| - 1 ==> h[i] != h[i + 1]
  }

  // Attaches and exits of a pid strictly alternate; the first one narrated is an exit exactly
  // if the pid was already there when the list was first read; and the last observed list is
  // the first one with every attach added and every exit removed.
  lemma {:induction false} AttachExitAlternate(r: Run, k: nat, p: nat)
    requires IsRun(r) && k <= |r.ticks|
    ensures Alternates(PidHistory(r, k, p))
    ensures LastSeen(r.ticks, k).None? ==> PidHistory(r, k, p) == []
    ensures PidHistory(r, k, p) != [] ==> PidHistory(r, k, p)[0] == (p !in FirstSeen(r.ticks, k))
    ensures p in LastSeen(r.ticks, k).GetOr(map[]) <==>
      if PidHistory(r, k, p) == [] then p in FirstSeen(r.ticks, k)
      else PidHistory(r, k, p)[|PidHistory(r, k, p)| - 1]
  {
    hide Listed, Attaches, Exits;
    if k > 0 {
      AttachExitAlternate(r, k - 1, p);
      NarratesTheDifference(r, k - 1, p);
      var before, after := PidHistory(r, k - 1, p), PidHistory(r, k, p);
      assert before != [] ==> after[0] == before[0];
      assert LastSeen(r.ticks, k - 1).Some? ==> FirstSeen(r.ticks, k) == FirstSeen(r.ticks, k - 1);
    }
  }

  // ---- blind ticks are erasable ----

  // The ticks among the first k whose process list was readable.
  function Sighted(ticks: seq<Tick>, k: nat): (s: seq<Tick>)
    requires k <= |ticks|
    ensures |s| <= k
  {
    if k == 0 then []
    else Sighted(ticks, k - 1) + (if ticks[k - 1].procs.Some? then [ticks[k - 1]] else [])
  }

  // The attach/exit log of the first k ticks: one set per tick that narrated any, because the
  // order inside one tick is a hash map's.
  function Facts(out: seq<Event>): set<Event> {
    set i | 0 <= i < |out| :: out[i]
  }

  ghost function ProcessLog(r: Run, k: nat): seq<set<Event>>
    requires Shaped(r) && k <= |r.ticks|
  {
    if k == 0 then []
    else ProcessLog(r, k - 1)
         + (if r.outs[k - 1].process != [] then [Facts(r.outs[k - 1].process)] else [])
  }

  lemma {:induction false} SightedIsPrefix(ticks: seq<Tick>, k: nat, n: nat)
    requires k <= n <= |ticks|
    ensures Sighted(ticks, k) <= Sighted(ticks, n)
  {
    if k < n {
      SightedIsPrefix(ticks, k, n - 1);
    }
  }

  // A tick's listing holds the attaches and the exits and nothing else.
  lemma ListsBoth(out: seq<Event>, n: nat, came: set<Event>, gone: set<Event>)
    requires n <= |out| && Enumerates(out[..n], came) && Enumerates(out[n..], gone)
    ensures forall e :: e in out <==> e in came || e in gone
  {
    assert out == out[..n] + out[n..];
  }

  lemma FactsOfSame(a: seq<Event>, b: seq<Event>)
    requires forall e :: e in a <==> e in b
    ensures Facts(a) == Facts(b) && (a == [] <==> b == [])
  {
    assert (b != [] ==> b[0] in a) && (a != [] ==> a[0] in b);
    assert forall e :: e in Facts(a) <==> e in a;
    assert forall e :: e in Facts(b) <==> e in b;
  }

  // The same process state and list narrate the same set of facts.
  lemma SameStepSameFacts(st: ProcState, ts: nat, now: map<nat, ProcessSample>,
                          st1: ProcState, out1: seq<Event>, st2: ProcState, out2: seq<Event>)
    requires ProcessStep(st, ts, now, st1, out1) && ProcessStep(st, ts, now, st2, out2)
    ensures st1 == st2 && Facts(out1) == Facts(out2)
    ensures out1 == [] <==> out2 == []
  {
    hide AttachedEvents, ExitedEvents, Enumerates, Facts;
    var came, gone := AttachedEvents(st.procs, ts, now), ExitedEvents(st.procs, ts, now);
    if st.seenFirst {
      ListsBoth(out1, |came|, came, gone);
      ListsBoth(out2, |came|, came, gone);
      FactsOfSame(out1, out2);
    }
  }

  // Deleting every blind tick leaves the attach/exit log and the final process list unchanged.
  lemma {:induction false} BlindTicksErasable(r: Run, q: Run, k: nat)
    requires IsRun(r) && IsRun(q) && k <= |r.ticks|
    requires q.ticks == Sighted(r.ticks, |r.ticks|)
    ensures |Sighted(r.ticks, k)| <= |q.ticks|
    ensures ProcessLog(r, k) == ProcessLog(q, |Sighted(r.ticks, k)|)
    ensures r.states[k].procs == q.states[|Sighted(r.ticks, k)|].procs
  {
    hide Listed, ProcessStep;
    SightedIsPrefix(r.ticks, k, |r.ticks|);
    if k > 0 {
      BlindTicksErasable(r, q, k - 1);
      ProcessAt(r, k - 1);
      if r.ticks[k - 1].procs.Some? {
        var i := |Sighted(r.ticks, k - 1)|;
        assert Sighted(r.ticks, k)[i] == q.ticks[i];
        ProcessAt(q, i);
        SameStepSameFacts(r.states[k - 1].procs, Ts(r, k - 1), Listed(r.ticks[k - 1]),
                          r.states[k].procs, r.outs[k - 1].process, q.states[i + 1].procs, q.outs[i].process);
      }
    }
  }

  // ---- device-level derivations never look at the process argument ----

  ghost predicate SameDeviceInput(r: Run, q: Run) {
    && |r.ticks| == |q.ticks|
    && forall j :: 0 <= j < |r.ticks| ==>
         r.ticks[j].sample == q.ticks[j].sample && r.ticks[j].memTotal == q.ticks[j].memTotal
  }

  // Equal up to the process named as the largest holder.
  ghost predicate SamePressure(a: seq<Event>, b: seq<Event>) {
    && |a| == |b|
    && forall i :: 0 <= i < |a| ==> a[i].VramPressure? && b[i].VramPressure? && a[i].(holder := None) == b[i].(holder := None)
  }

  lemma DeviceStepIgnoresProcesses(st: DeviceState, t: Tick, st1: DeviceState, o: Outs,
                                   su: DeviceState, u: Tick, su1: DeviceState, p: Outs)
    requires Step(st, t, st1, o) && Step(su, u, su1, p)
    requires t.sample == u.sample && t.memTotal == u.memTotal
    requires st.prev == su.prev && st.throttle == su.throttle && st.vram == su.vram
    ensures st1.prev == su1.prev && st1.throttle == su1.throttle && st1.vram == su1.vram
    ensures o.throttle == p.throttle && SamePressure(o.vram, p.vram)
  {
    hide SpillStep, IdleStep, ProcessStep, HangStep, ThrottleStep, PressureDue, PushReading, Slope, NamedGrower;
  }

  // Throttle events, and kind, time and figures of VRAM events, do not depend on the process
  // argument at all.
  lemma {:induction false} DeviceFactsIgnoreProcesses(r: Run, q: Run, k: nat)
    requires IsRun(r) && IsRun(q) && SameDeviceInput(r, q) && k < |r.ticks|
    ensures r.states[k].prev == q.states[k].prev && r.states[k].throttle == q.states[k].throttle
      && r.states[k].vram == q.states[k].vram
    ensures r.outs[k].throttle == q.outs[k].throttle && SamePressure(r.outs[k].vram, q.outs[k].vram)
  {
    hide SamePressure;
    if k > 0 {
      DeviceFactsIgnoreProcesses(r, q, k - 1);
      assert StepAt(r, k - 1) && StepAt(q, k - 1);
      DeviceStepIgnoresProcesses(r.states[k - 1], r.ticks[k - 1], r.states[k], r.outs[k - 1],
                                 q.states[k - 1], q.ticks[k - 1], q.states[k], q.outs[k - 1]);
    }
    assert StepAt(r, k) && StepAt(q, k);
    DeviceStepIgnoresProcesses(r.states[k], r.ticks[k], r.states[k + 1], r.outs[k],
                               q.states[k], q.ticks[k], q.states[k + 1], q.outs[k]);
  }
}
