/** Throttle narration is properly bracketed (crates/core/src/events.rs:298-372). */
module ThrottleProofs {
  import opened Base
  import opened Telemetry
  import opened Narration

  // Some throttle reason was seen to be set.
  predicate Active(r: Run, k: nat)
    requires k < |r.ticks|
  {
    var seen := r.ticks[k].sample.throttle;
    seen.Some? && (seen.value.thermal || seen.value.powerCap || seen.value.hwSlowdown || seen.value.syncBoost || seen.value.other)
  }

  // The throttle state was readable at tick k and no reason was set.
  predicate Quiet(r: Run, k: nat)
    requires k < |r.ticks|
  {
    r.ticks[k].sample.throttle.Some? && !Active(r, k)
  }

  predicate RisesAt(r: Run, s: nat)
    requires s < |r.ticks|
  {
    Active(r, s) && (s == 0 || !Active(r, s - 1))
  }

  function ClockBefore(r: Run, s: nat): Option<nat>
    requires s < |r.ticks|
  {
    if s == 0 then None else r.ticks[s - 1].sample.smClock
  }

  // An unbroken observed-active stretch that began at tick s and reaches up to tick k.
  ghost predicate ActiveStretch(r: Run, s: nat, k: nat)
    requires k <= |r.ticks|
  {
    s < k && RisesAt(r, s) && forall j :: s <= j < k ==> Active(r, j)
  }

  lemma ThrottleAt(r: Run, k: nat)
    requires IsRun(r) && k < |r.ticks|
    ensures (r.states[k + 1].throttle, r.outs[k].throttle)
      == ThrottleStep(r.states[k].prev, r.states[k].throttle, r.ticks[k].sample)
    ensures r.states[k].prev == if k == 0 then None else Some(r.ticks[k - 1].sample)
  {
    hide SpillStep, IdleStep, ProcessStep, VramStep, HangStep, ThrottleStep;
    assert StepAt(r, k);
    if k > 0 {
      assert StepAt(r, k - 1);
    }
  }

  // The episode clock runs exactly when the previous sample was observed active, and then it
  // holds the start of the unbroken active stretch.
  lemma {:induction false} EpisodeClock(r: Run, k: nat)
    requires IsRun(r) && k <= |r.ticks|
    ensures r.states[k].throttle.since.Some? <==> k > 0 && Active(r, k - 1)
    ensures r.states[k].throttle.since.Some? ==> exists s ::
      ActiveStretch(r, s, k) && r.states[k].throttle == ThrottleState(Some(Ts(r, s)), ClockBefore(r, s))
  {
    if k > 0 {
      EpisodeClock(r, k - 1);
      ThrottleAt(r, k - 1);
      if RisesAt(r, k - 1) {
        assert ActiveStretch(r, k - 1, k);
      } else if Active(r, k - 1) {
        var s :| ActiveStretch(r, s, k - 1)
          && r.states[k - 1].throttle == ThrottleState(Some(Ts(r, s)), ClockBefore(r, s));
        assert ActiveStretch(r, s, k);
      }
    }
  }

  // A start is narrated exactly when observed activity rises.
  lemma StartExactlyAtRise(r: Run, k: nat)
    requires IsRun(r) && k < |r.ticks|
    ensures (exists e :: e in Emitted(r, k) && e.ThrottleStart?) <==> RisesAt(r, k)
    ensures RisesAt(r, k) ==> r.outs[k].throttle == [ThrottleStart(Ts(r, k), ClockBefore(r, k))]
  {
    ThrottleAt(r, k);
    if e :| e in Emitted(r, k) && e.ThrottleStart? {
      EventSlots(r, k, e);
    }
    if RisesAt(r, k) {
      assert r.outs[k].throttle[0] in Emitted(r, k);
    }
  }

  // An end is narrated exactly when an active stretch meets an observed quiet sample, and it
  // reports that stretch's start: never across an unobservable sample, never without a start.
  lemma EndExactlyAtFall(r: Run, k: nat)
    requires IsRun(r) && k < |r.ticks|
    ensures (exists e :: e in Emitted(r, k) && e.ThrottleEnd?) <==> k > 0 && Active(r, k - 1) && Quiet(r, k)
    ensures forall e :: e in Emitted(r, k) && e.ThrottleEnd? ==> exists s :: EndsStretch(r, s, k, e)
  {
    ThrottleAt(r, k);
    EpisodeClock(r, k);
    forall e | e in Emitted(r, k) && e.ThrottleEnd?
      ensures k > 0 && Active(r, k - 1) && Quiet(r, k) && exists s :: EndsStretch(r, s, k, e)
    {
      EventSlots(r, k, e);
      var s :| ActiveStretch(r, s, k) && r.states[k].throttle == ThrottleState(Some(Ts(r, s)), ClockBefore(r, s));
      StartExactlyAtRise(r, s);
      assert EndsStretch(r, s, k, e);
    }
    if k > 0 && Active(r, k - 1) && Quiet(r, k) {
      assert r.outs[k].throttle[0] in Emitted(r, k);
    }
  }

  ghost predicate EndsStretch(r: Run, s: nat, k: nat, e: Event)
    requires Shaped(r) && k < |r.ticks|
  {
    && ActiveStretch(r, s, k) && Quiet(r, k)
    && ThrottleStart(Ts(r, s), ClockBefore(r, s)) in Emitted(r, s)
    && e == ThrottleEnd(Ts(r, k), Some(SatSub(Ts(r, k), Ts(r, s))), ClockBefore(r, s))
  }

  lemma NoRiseInside(r: Run, s: nat, k: nat, j: nat)
    requires k <= |r.ticks| && ActiveStretch(r, s, k) && s < j < k
    ensures !RisesAt(r, j)
  {
    assert Active(r, j - 1);
  }

  // The start an end belongs to is unique, and no other start or end lies between them.
  lemma BracketsMatch(r: Run, s1: nat, s2: nat, k: nat, e1: Event, e2: Event)
    requires IsRun(r) && k < |r.ticks| && EndsStretch(r, s1, k, e1) && EndsStretch(r, s2, k, e2)
    ensures s1 == s2
    ensures forall j :: s1 < j < k ==> r.outs[j].throttle == []
  {
    if s1 < s2 { NoRiseInside(r, s1, k, s2); }
    if s2 < s1 { NoRiseInside(r, s2, k, s1); }
    forall j | s1 < j < k ensures r.outs[j].throttle == [] {
      ThrottleAt(r, j);
      assert Active(r, j) && Active(r, j - 1);
    }
  }
}
