/** What a `HangSuspected` event says about the run that produced it
    (crates/core/src/events.rs:545-629). */
module HangProofs {
  import opened Base
  import opened Telemetry
  import opened Narration

  // A process that holds a gibibyte or more while its own engines are at 2% or less, or are not
  // reported.
  predicate HoldsStill(p: ProcessSample) {
    p.mem.Some? && p.mem.value >= 1_073_741_824 && (p.util.None? || p.util.value <= 2.0)
  }

  ghost predicate SomeStill(procs: map<nat, ProcessSample>) {
    exists p :: p in procs && HoldsStill(procs[p])
  }

  ghost predicate LargestStill(procs: map<nat, ProcessSample>, pid: nat) {
    && pid in procs && HoldsStill(procs[pid])
    && forall q :: q in procs && HoldsStill(procs[q]) ==> procs[q].mem.value <= procs[pid].mem.value
  }

  // These are the processes the engine counts as quiet holders.
  lemma StillIsQuiet(procs: map<nat, ProcessSample>)
    ensures SomeQuietHolder(procs) <==> SomeStill(procs)
    ensures forall pid :: LargestQuietHolder(procs, pid) <==> LargestStill(procs, pid)
  {
    assert forall p: ProcessSample :: QuietHolder(p) <==> HoldsStill(p);
  }

  // A tick on which the hang premise holds for `anchor`: process list read, device engines
  // flat, the anchor still listed, and some quiet process (not necessarily the anchor)
  // holding at least 1 GiB.
  ghost predicate DeadTick(t: Tick, anchor: nat) {
    && t.procs.Some? && t.sample.util.Some? && t.sample.util.value <= 2.0
    && anchor in Listed(t) && SomeStill(Listed(t))
  }

  function UtilSum(r: Run, s: nat, k: nat): real
    requires s <= k <= |r.ticks|
  {
    if s == k then 0.0 else UtilSum(r, s, k - 1) + r.ticks[k - 1].sample.util.GetOr(0.0)
  }

  predicate LongEnough(r: Run, s: nat, j: nat)
    requires s < |r.ticks| && j < |r.ticks|
  {
    Ts(r, j) >= Ts(r, s) + 600_000
  }

  // An episode anchored to `pid` opens at tick s.
  ghost predicate OpensAt(r: Run, s: nat, pid: nat)
    requires Shaped(r) && s < |r.ticks|
  {
    && r.states[s].hang.None? && r.states[s + 1].hang.Some? && r.states[s + 1].hang.value.pid == pid
    && DeadTick(r.ticks[s], pid) && LargestStill(Listed(r.ticks[s]), pid)
  }

  // The episode open before tick k opened at tick s, and has accumulated exactly ticks s..k-1.
  ghost predicate OpenSince(r: Run, s: nat, k: nat, pid: nat)
    requires Shaped(r) && k <= |r.ticks|
  {
    && s < k && OpensAt(r, s, pid) && r.states[k].hang.Some?
    && (forall j :: s <= j < k ==> DeadTick(r.ticks[j], pid))
    && var h := r.states[k].hang.value;
    && h.startTs == Ts(r, s) && h.pid == pid && h.mem == Listed(r.ticks[s])[pid].mem.GetOr(0)
    && h.utilN == k - s && h.utilSum == UtilSum(r, s, k)
    && (h.fired <==> exists j :: s < j < k && LongEnough(r, s, j))
  }

  // What a hang narrated at tick k for the episode opened at tick s prints.
  function Report(r: Run, s: nat, k: nat, pid: nat): Event
    requires s < k < |r.ticks| && r.ticks[s].procs.Some? && pid in Listed(r.ticks[s])
  {
    HangSuspected(Ts(r, k), Ts(r, s), pid, Listed(r.ticks[s])[pid].mem.GetOr(0),
                  Mean(UtilSum(r, s, k + 1), k + 1 - s))
  }

  // Tick k's hang derivation, blind ticks included.
  lemma HangAt(r: Run, k: nat)
    requires IsRun(r) && k < |r.ticks|
    ensures r.ticks[k].procs.None? ==> r.states[k + 1].hang == None && r.outs[k].hang == []
    ensures r.ticks[k].procs.Some? ==>
      HangStep(Listed(r.ticks[k]), r.states[k].hang, r.ticks[k].sample, r.states[k + 1].hang, r.outs[k].hang)
  {
    hide SpillStep, IdleStep, ProcessStep, VramStep, HangStep;
    assert StepAt(r, k);
  }

  // One tick of an open episode: it goes on exactly when the tick is dead for its anchor,
  // and speaks on the first dead tick that is late enough.
  lemma EpisodeStep(r: Run, s: nat, k: nat, pid: nat)
    requires IsRun(r) && k < |r.ticks| && OpenSince(r, s, k, pid)
    ensures DeadTick(r.ticks[k], pid) ==> OpenSince(r, s, k + 1, pid)
    ensures !DeadTick(r.ticks[k], pid) ==> r.states[k + 1].hang == None
    ensures r.outs[k].hang ==
      if DeadTick(r.ticks[k], pid) && LongEnough(r, s, k) && !r.states[k].hang.value.fired
      then [Report(r, s, k, pid)] else []
  {
    hide Mean, Listed, SomeQuietHolder, LargestQuietHolder, SomeStill, LargestStill;
    HangAt(r, k);
    if r.ticks[k].procs.Some? {
      StillIsQuiet(Listed(r.ticks[k]));
    }
    assert UtilSum(r, s, k + 1) == UtilSum(r, s, k) + r.ticks[k].sample.util.GetOr(0.0);
    if DeadTick(r.ticks[k], pid) {
      var h, h' := r.states[k].hang.value, r.states[k + 1].hang.value;
      assert h'.fired == (h.fired || LongEnough(r, s, k));
      if exists j :: s < j < k + 1 && LongEnough(r, s, j) {
        var j :| s < j < k + 1 && LongEnough(r, s, j);
        assert j == k || h.fired;
      }
    }
  }

  lemma EpisodeOpens(r: Run, k: nat)
    requires IsRun(r) && k < |r.ticks| && r.states[k].hang.None?
    ensures r.outs[k].hang == []
    ensures r.states[k + 1].hang.Some? ==> OpenSince(r, k, k + 1, r.states[k + 1].hang.value.pid)
    ensures r.states[k + 1].hang.Some? <==>
      && r.ticks[k].procs.Some? && r.ticks[k].sample.util.Some?
      && r.ticks[k].sample.util.value <= 2.0 && SomeStill(Listed(r.ticks[k]))
  {
    hide Mean, Listed, SomeQuietHolder, LargestQuietHolder, SomeStill;
    HangAt(r, k);
    if r.ticks[k].procs.Some? {
      StillIsQuiet(Listed(r.ticks[k]));
    }
    assert UtilSum(r, k, k + 1) == UtilSum(r, k, k) + r.ticks[k].sample.util.GetOr(0.0);
  }

  // Every open episode has one opening tick that accounts for all it has accumulated.
  lemma {:induction false} EpisodeHistory(r: Run, k: nat)
    requires IsRun(r) && k <= |r.ticks|
    ensures r.states[k].hang.Some? ==> exists s :: OpenSince(r, s, k, r.states[k].hang.value.pid)
  {
    hide Mean, Listed, SomeQuietHolder, LargestQuietHolder, SomeStill, LargestStill;
    if k > 0 {
      EpisodeHistory(r, k - 1);
      var before := r.states[k - 1].hang;
      if before.Some? {
        var s :| OpenSince(r, s, k - 1, before.value.pid);
        EpisodeStep(r, s, k - 1, before.value.pid);
      } else {
        EpisodeOpens(r, k - 1);
      }
    }
  }

  // While an anchor's ticks stay dead the episode that opened on it stays open.
  lemma {:induction false} EpisodePersists(r: Run, s: nat, k: nat, pid: nat)
    requires IsRun(r) && s < k <= |r.ticks| && OpensAt(r, s, pid)
    requires forall j :: s < j < k ==> DeadTick(r.ticks[j], pid)
    ensures OpenSince(r, s, k, pid)
  {
    hide Mean, Listed, SomeQuietHolder, LargestQuietHolder, SomeStill, LargestStill;
    if k == s + 1 {
      EpisodeOpens(r, s);
    } else {
      EpisodePersists(r, s, k - 1, pid);
      EpisodeStep(r, s, k - 1, pid);
    }
  }

  // The stretch of ticks a hang narrated at tick k stands for: an episode opened at s on its
  // largest quiet holder, every tick from s to k dead for that anchor, and k the first of
  // them at least ten minutes after s.
  ghost predicate HangSpan(r: Run, s: nat, k: nat, pid: nat)
    requires Shaped(r) && k < |r.ticks|
  {
    && s < k && OpensAt(r, s, pid)
    && (forall j :: s <= j <= k ==> DeadTick(r.ticks[j], pid))
    && LongEnough(r, s, k)
    && (forall j :: s < j < k ==> !LongEnough(r, s, j))
  }

  // Soundness: a narrated hang has a dead span of at least ten minutes behind it, and what it
  // prints (anchor, memory at the start, mean utilisation) is what that span contained.
  lemma HangSound(r: Run, k: nat, e: Event)
    requires IsRun(r) && k < |r.ticks| && e in Emitted(r, k) && e.HangSuspected?
    ensures exists s :: HangSpan(r, s, k, e.pid) && e == Report(r, s, k, e.pid)
  {
    hide Mean, Listed, SomeQuietHolder, LargestQuietHolder, SomeStill, LargestStill;
    EventSlots(r, k, e);
    EpisodeHistory(r, k);
    if r.states[k].hang.None? {
      EpisodeOpens(r, k);
    } else {
      var pid := r.states[k].hang.value.pid;
      var s :| OpenSince(r, s, k, pid);
      EpisodeStep(r, s, k, pid);
      assert HangSpan(r, s, k, pid);
    }
  }

  // Completeness: every such span is narrated, once, at its last tick.
  lemma HangComplete(r: Run, s: nat, k: nat, pid: nat)
    requires IsRun(r) && k < |r.ticks| && HangSpan(r, s, k, pid)
    ensures r.outs[k].hang == [Report(r, s, k, pid)]
  {
    hide Mean, Listed, SomeQuietHolder, LargestQuietHolder, SomeStill, LargestStill;
    EpisodePersists(r, s, k, pid);
    EpisodeStep(r, s, k, pid);
  }

  // Two spans that end at different ticks do not overlap: an episode speaks at most once.
  lemma {:induction false} SpansDisjoint(r: Run, s1: nat, k1: nat, p1: nat, s2: nat, k2: nat, p2: nat)
    requires IsRun(r) && k1 < k2 < |r.ticks|
    requires HangSpan(r, s1, k1, p1) && HangSpan(r, s2, k2, p2)
    ensures k1 < s2
  {
    hide Mean, Listed, SomeQuietHolder, LargestQuietHolder, SomeStill, LargestStill;
    if s2 <= k1 {
      // s2 is a tick on which an episode opens, so it is not inside s1's episode ...
      if s1 < s2 {
        EpisodePersists(r, s1, s2, p1);
        assert false;
      }
      if s2 < s1 {
        EpisodePersists(r, s2, s1, p2);
        assert false;
      }
      // ... and if it is s1 itself, the second span would have ended at k1 already.
    }
  }

  // Under a clock that never steps back, two narrated hangs are at least ten minutes apart.
  lemma HangsTenMinutesApart(r: Run, k1: nat, e1: Event, k2: nat, e2: Event)
    requires IsRun(r) && Monotone(r) && k1 < k2 < |r.ticks|
    requires e1 in Emitted(r, k1) && e1.HangSuspected? && e2 in Emitted(r, k2) && e2.HangSuspected?
    ensures e2.ts >= e1.ts + 600_000
  {
    hide Mean, Listed, SomeQuietHolder, LargestQuietHolder, SomeStill, LargestStill;
    HangSound(r, k1, e1);
    HangSound(r, k2, e2);
    var s1 :| HangSpan(r, s1, k1, e1.pid) && e1 == Report(r, s1, k1, e1.pid);
    var s2 :| HangSpan(r, s2, k2, e2.pid) && e2 == Report(r, s2, k2, e2.pid);
    SpansDisjoint(r, s1, k1, e1.pid, s2, k2, e2.pid);
    assert Ts(r, k1) <= Ts(r, s2);
  }
}
