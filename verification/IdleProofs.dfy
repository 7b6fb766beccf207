/** What an `IdleGapSeen` event says about its run, how often one can be narrated, and why no
    hang is narrated between the opening of a narrated gap and its recovery
    (crates/core/src/events.rs:436-533, 561-615, and the blind arm 275-290). */
module IdleProofs {
  import opened Base
  import opened Telemetry
  import opened Narration
  import opened HangProofs

  // ---- the coupling between hang and idle gap ----

  // While a hang is open on an eligible device the trough's gap is open too, and a hang that
  // has spoken has muted any gap that is open.
  predicate Coupled(st: DeviceState) {
    && (st.hang.Some? && st.idle.eligible ==> st.idle.gap.Some?)
    && (st.hang.Some? && st.hang.value.fired && st.idle.gap.Some? ==> st.idle.gap.value.hangNarrated)
  }

  // Tick k's idle derivation, on the gap as the hang derivation of the same tick left it.
  lemma IdleAt(r: Run, k: nat)
    requires IsRun(r) && k < |r.ticks|
    ensures r.ticks[k].procs.None? ==>
      r.states[k + 1].idle == r.states[k].idle.(gap := None) && r.outs[k].idle == [] && r.outs[k].hang == []
    ensures r.ticks[k].procs.Some? ==>
      IdleStep(Listed(r.ticks[k]), r.states[k].prev,
               r.states[k].idle.(gap := MuteIfFired(r.states[k].idle.gap, r.outs[k].hang)),
               r.ticks[k].sample, r.states[k + 1].idle, r.outs[k].idle)
  {
    hide SpillStep, IdleStep, ProcessStep, VramStep, HangStep;
    assert StepAt(r, k);
  }

  // What tick k's hang derivation can have done to the hang slot.
  lemma HangEdge(r: Run, k: nat)
    requires IsRun(r) && k < |r.ticks|
    ensures r.states[k + 1].hang.Some? ==>
      r.ticks[k].procs.Some? && r.ticks[k].sample.util.Some? && r.ticks[k].sample.util.value <= 2.0
    ensures r.outs[k].hang != [] ==> r.states[k].hang.Some? && r.states[k + 1].hang.Some?
    ensures r.states[k + 1].hang.Some? && r.states[k + 1].hang.value.fired ==>
      r.outs[k].hang != [] || (r.states[k].hang.Some? && r.states[k].hang.value.fired)
  {
    hide Mean, Listed, SomeQuietHolder;
    HangAt(r, k);
  }

  lemma {:induction false} AlwaysCoupled(r: Run, k: nat)
    requires IsRun(r) && k <= |r.ticks|
    ensures Coupled(r.states[k])
  {
    hide Mean, Listed, GapHolders, Surviving, GapNarration;
    if k > 0 {
      AlwaysCoupled(r, k - 1);
      HangEdge(r, k - 1);
      IdleAt(r, k - 1);
    }
  }

  // ---- the gap in flight ----

  ghost predicate TroughTick(t: Tick) {
    t.procs.Some? && t.sample.util.Some? && t.sample.util.value < 50.0
  }

  // What a tick lists the process with.
  function AmountAt(t: Tick, p: nat): nat {
    if t.procs.Some? && p in Listed(t) then Listed(t)[p].mem.GetOr(0) else 0
  }

  // `p` is listed with 256 MiB or more.
  predicate HoldsAt(t: Tick, p: nat) {
    t.procs.Some? && p in Listed(t) && Listed(t)[p].mem.Some? && Listed(t)[p].mem.value >= 268_435_456
  }

  lemma HoldersAre(t: Tick)
    requires t.procs.Some?
    ensures forall p :: p in GapHolders(Listed(t)) <==> HoldsAt(t, p)
    ensures forall p :: p in GapHolders(Listed(t)) ==> GapHolders(Listed(t))[p] == AmountAt(t, p)
  {
    hide Listed;
  }

  // `p` held a real allocation when the gap opened at g and was listed on every tick since.
  ghost predicate StayedAttached(r: Run, g: nat, k: nat, p: nat)
    requires g < k <= |r.ticks|
  {
    && (forall j :: g <= j < k ==> r.ticks[j].procs.Some? && p in Listed(r.ticks[j]))
    && HoldsAt(r.ticks[g], p)
  }

  ghost predicate SomeoneStayed(r: Run, g: nat, k: nat)
    requires g < k <= |r.ticks|
  {
    exists p :: StayedAttached(r, g, k, p)
  }

  ghost predicate GapOpensAt(r: Run, g: nat)
    requires Shaped(r) && g < |r.ticks|
  {
    && r.states[g].idle.gap.None? && r.states[g].idle.eligible
    && TroughTick(r.ticks[g]) && r.ticks[g].sample.util.value < 10.0
  }

  // Utilisation just before the drop, as far as it was observed.
  function PreUtil(r: Run, g: nat): real
    requires g < |r.ticks| && r.ticks[g].sample.util.Some?
  {
    var own := r.ticks[g].sample.util.value;
    if g == 0 then own else r.ticks[g - 1].sample.util.GetOr(own)
  }

  ghost predicate NoHangIn(r: Run, from: nat, to: nat)
    requires Shaped(r) && to <= |r.ticks|
  {
    forall j :: from <= j < to ==> r.outs[j].hang == []
  }

  // The gap open before tick k opened at tick g; it has accumulated exactly ticks g..k-1.
  ghost predicate GapSince(r: Run, g: nat, k: nat)
    requires Shaped(r) && k <= |r.ticks|
  {
    && g < k && GapOpensAt(r, g) && r.states[k].idle.gap.Some?
    && (forall j :: g <= j < k ==> TroughTick(r.ticks[j]))
    && (forall j :: g <= j < k ==> r.outs[j].idle == [])
    && var gap := r.states[k].idle.gap.value;
    && gap.startTs == Ts(r, g) && gap.preUtil == PreUtil(r, g)
    && gap.utilN == k - g && gap.utilSum == UtilSum(r, g, k)
    && (gap.hangNarrated <==> !NoHangIn(r, g, k))
    && HoldersSince(r, g, k, gap.holders)
  }

  ghost predicate HoldersSince(r: Run, g: nat, k: nat, holders: map<nat, nat>)
    requires g < k <= |r.ticks|
  {
    && (forall p :: p in holders <==> StayedAttached(r, g, k, p))
    && (forall p :: p in holders ==> holders[p] == AmountAt(r.ticks[g], p))
  }

  lemma PrevIsLastSample(r: Run, k: nat)
    requires IsRun(r) && k <= |r.ticks|
    ensures r.states[k].prev == if k == 0 then None else Some(r.ticks[k - 1].sample)
  {
    hide SpillStep, IdleStep, ProcessStep, VramStep, HangStep;
    if k > 0 {
      assert StepAt(r, k - 1);
    }
  }

  lemma GapOpens(r: Run, k: nat)
    requires IsRun(r) && k < |r.ticks| && r.states[k].idle.gap.None?
    ensures r.outs[k].idle == []
    ensures r.states[k + 1].idle.gap.Some? <==> GapOpensAt(r, k)
    ensures GapOpensAt(r, k) ==> GapSince(r, k, k + 1)
  {
    hide Mean, Listed, GapHolders;
    IdleAt(r, k);
    HangEdge(r, k);
    AlwaysCoupled(r, k);
    PrevIsLastSample(r, k);
    assert UtilSum(r, k, k + 1) == UtilSum(r, k, k) + r.ticks[k].sample.util.GetOr(0.0);
    if GapOpensAt(r, k) {
      OpeningHolders(r, k);
    }
  }

  lemma OpeningHolders(r: Run, g: nat)
    requires g < |r.ticks| && r.ticks[g].procs.Some?
    ensures HoldersSince(r, g, g + 1, GapHolders(Listed(r.ticks[g])))
  {
    hide Listed, GapHolders, AmountAt;
    HoldersAre(r.ticks[g]);
  }

  lemma SurvivingHolders(r: Run, g: nat, k: nat, holders: map<nat, nat>)
    requires g < k < |r.ticks| && r.ticks[k].procs.Some? && HoldersSince(r, g, k, holders)
    ensures HoldersSince(r, g, k + 1, Surviving(holders, Listed(r.ticks[k])))
  {
    hide Listed, GapHolders;
    var now := Surviving(holders, Listed(r.ticks[k]));
    forall p ensures p in now <==> StayedAttached(r, g, k + 1, p) {
      if StayedAttached(r, g, k + 1, p) {
        assert StayedAttached(r, g, k, p);
        assert p in Listed(r.ticks[k]);
      }
      if p in now {
        assert StayedAttached(r, g, k, p);
      }
    }
  }

  // A tick that keeps an open gap open.
  lemma GapContinues(r: Run, g: nat, k: nat)
    requires IsRun(r) && k < |r.ticks| && GapSince(r, g, k)
    ensures TroughTick(r.ticks[k]) ==> GapSince(r, g, k + 1)
    ensures !TroughTick(r.ticks[k]) ==> r.states[k + 1].idle.gap == None
  {
    hide Mean, Listed, GapHolders, Surviving, GapNarration, HoldersSince;
    IdleAt(r, k);
    assert UtilSum(r, g, k + 1) == UtilSum(r, g, k) + r.ticks[k].sample.util.GetOr(0.0);
    if TroughTick(r.ticks[k]) {
      SurvivingHolders(r, g, k, r.states[k].idle.gap.value.holders);
    }
  }

  lemma {:induction false} GapHistory(r: Run, k: nat)
    requires IsRun(r) && k <= |r.ticks|
    ensures r.states[k].idle.gap.Some? ==> exists g :: GapSince(r, g, k)
  {
    hide TroughTick, HoldersSince;
    if k > 0 {
      GapHistory(r, k - 1);
      if r.states[k - 1].idle.gap.Some? {
        var g :| GapSince(r, g, k - 1);
        GapContinues(r, g, k - 1);
      } else {
        GapOpens(r, k - 1);
      }
    }
  }

  lemma {:induction false} GapPersists(r: Run, g: nat, k: nat)
    requires IsRun(r) && g < k <= |r.ticks| && GapOpensAt(r, g)
    requires forall j :: g <= j < k ==> TroughTick(r.ticks[j])
    ensures GapSince(r, g, k)
  {
    hide TroughTick, HoldersSince;
    if k == g + 1 {
      GapOpens(r, g);
    } else {
      GapPersists(r, g, k - 1);
      GapContinues(r, g, k - 1);
    }
  }

  // ---- what a narrated gap stands for ----

  ghost predicate RecoveryTick(t: Tick) {
    t.procs.Some? && t.sample.util.Some? && t.sample.util.value >= 50.0
  }

  // The trough a gap narrated at tick k stands for: it opened at g, utilisation stayed below
  // 50% until k, lasted at least ten seconds, and no hang was narrated anywhere in it.
  ghost predicate GapSpan(r: Run, g: nat, k: nat)
    requires Shaped(r) && k < |r.ticks|
  {
    && g < k && GapOpensAt(r, g)
    && (forall j :: g <= j < k ==> TroughTick(r.ticks[j]))
    && RecoveryTick(r.ticks[k])
    && Ts(r, k) >= Ts(r, g) + 10_000
    && NoHangIn(r, g, k + 1)
  }

  // The narrated holder is one that stayed attached from g to k inclusive, none larger.
  ghost predicate GapReport(r: Run, g: nat, k: nat, e: Event)
    requires Shaped(r) && g < k < |r.ticks| && r.ticks[g].sample.util.Some? && r.ticks[g].procs.Some?
  {
    && e.IdleGapSeen?
    && StayedAttached(r, g, k + 1, e.pid)
    && (forall q :: StayedAttached(r, g, k + 1, q) ==>
          AmountAt(r.ticks[g], q) <= AmountAt(r.ticks[g], e.pid))
    && e == IdleGapSeen(Ts(r, k), Ts(r, g), e.pid, AmountAt(r.ticks[g], e.pid),
                        PreUtil(r, g), Mean(UtilSum(r, g, k), k - g))
  }

  // What recovery from an open gap narrates: exactly one report when the span qualifies and
  // somebody stayed attached, nothing otherwise.
  lemma RecoveryNarration(r: Run, g: nat, k: nat)
    requires IsRun(r) && k < |r.ticks| && GapSince(r, g, k)
    ensures r.outs[k].idle != [] <==> GapSpan(r, g, k) && SomeoneStayed(r, g, k + 1)
    ensures r.outs[k].idle != [] ==> |r.outs[k].idle| == 1 && GapReport(r, g, k, r.outs[k].idle[0])
  {
    hide Mean, Listed, GapHolders, Surviving, StayedAttached;
    IdleAt(r, k);
    HangEdge(r, k);
    if RecoveryTick(r.ticks[k]) {
      var gap := r.states[k].idle.gap.value;
      var now := Surviving(gap.holders, Listed(r.ticks[k]));
      SurvivingHolders(r, g, k, gap.holders);
      assert SomeoneStayed(r, g, k + 1) <==> now != map[] by {
        if now != map[] { var p :| p in now; assert StayedAttached(r, g, k + 1, p); }
      }
      assert r.outs[k].hang == [];
      assert NoHangIn(r, g, k + 1) <==> NoHangIn(r, g, k);
    }
  }

  // Soundness: a narrated gap has such a trough behind it.
  lemma GapSound(r: Run, k: nat, e: Event)
    requires IsRun(r) && k < |r.ticks| && e in Emitted(r, k) && e.IdleGapSeen?
    ensures exists g :: GapSpan(r, g, k) && GapReport(r, g, k, e)
  {
    hide TroughTick, HoldersSince, StayedAttached, Listed, GapHolders;
    EventSlots(r, k, e);
    GapHistory(r, k);
    if r.states[k].idle.gap.None? {
      GapOpens(r, k);
    } else {
      var g :| GapSince(r, g, k);
      RecoveryNarration(r, g, k);
      assert e == r.outs[k].idle[0];
    }
  }

  // Completeness: every qualifying trough somebody stayed attached through is narrated.
  lemma GapComplete(r: Run, g: nat, k: nat, p: nat)
    requires IsRun(r) && k < |r.ticks| && GapSpan(r, g, k) && StayedAttached(r, g, k + 1, p)
    ensures |r.outs[k].idle| == 1 && GapReport(r, g, k, r.outs[k].idle[0])
  {
    hide HoldersSince, StayedAttached;
    GapPersists(r, g, k);
    RecoveryNarration(r, g, k);
  }

  // One trough, one narration: no hang is narrated between the start of a narrated idle gap
  // and its recovery, whichever tick of the run the gap is taken to have opened on.
  lemma OneTroughOneNarration(r: Run, g: nat, k: nat, e: Event, j: nat, h: Event)
    requires IsRun(r) && k < |r.ticks| && e in Emitted(r, k) && e.IdleGapSeen?
    requires g < k && GapOpensAt(r, g) && (forall i :: g <= i < k ==> TroughTick(r.ticks[i]))
    requires g <= j <= k && h in Emitted(r, j)
    ensures !h.HangSuspected?
  {
    hide HoldersSince, StayedAttached;
    EventSlots(r, k, e);
    EventSlots(r, j, h);
    GapPersists(r, g, k);
    RecoveryNarration(r, g, k);
  }

  // ---- the activity that must precede a gap ----

  // Utilisation was seen at 50% or more on every tick of [from, to) whose process list was
  // readable; ticks with an unreadable list are not consulted.
  ghost predicate BusyWhenSeen(r: Run, from: nat, to: nat)
    requires to <= |r.ticks|
  {
    forall j :: from <= j < to && r.ticks[j].procs.Some? ==> RecoveryTick(r.ticks[j])
  }

  ghost predicate NoGapNarratedIn(r: Run, from: nat, to: nat)
    requires Shaped(r) && to <= |r.ticks|
  {
    forall j :: from <= j < to ==> r.outs[j].idle == []
  }

  // The activity clock running before tick k started at tick a.
  ghost predicate ActiveFrom(r: Run, a: nat, k: nat)
    requires Shaped(r) && k <= |r.ticks|
  {
    && a < k && r.states[k].idle.gap.None? && r.states[k].idle.activeSince == Some(Ts(r, a))
    && RecoveryTick(r.ticks[a]) && BusyWhenSeen(r, a, k) && NoGapNarratedIn(r, a + 1, k)
  }

  // Eligibility before tick k was earned by the sustained activity of ticks a..b.
  ghost predicate EarnedBy(r: Run, a: nat, b: nat, k: nat)
    requires Shaped(r) && k <= |r.ticks|
  {
    && a < b < k && RecoveryTick(r.ticks[a]) && RecoveryTick(r.ticks[b])
    && Ts(r, b) >= Ts(r, a) + 30_000
    && BusyWhenSeen(r, a, b + 1) && NoGapNarratedIn(r, a + 1, k)
  }

  // The activity clock only runs while no gap is open.
  predicate Exclusive(st: DeviceState) {
    st.idle.activeSince.Some? ==> st.idle.gap.None?
  }

  lemma ActivityStep(r: Run, k: nat)
    requires IsRun(r) && k < |r.ticks| && Exclusive(r.states[k])
    ensures Exclusive(r.states[k + 1])
    ensures r.states[k + 1].idle.activeSince.Some? && r.ticks[k].procs.Some? ==>
      && RecoveryTick(r.ticks[k])
      && r.states[k + 1].idle.activeSince == Some(r.states[k].idle.activeSince.GetOr(Ts(r, k)))
    ensures r.states[k + 1].idle.activeSince.Some? && r.ticks[k].procs.None? ==>
      r.states[k + 1].idle.activeSince == r.states[k].idle.activeSince
    ensures r.states[k].idle.activeSince.Some? || r.states[k + 1].idle.eligible ==> r.outs[k].idle == []
    ensures r.states[k + 1].idle.eligible && !r.states[k].idle.eligible ==>
      && RecoveryTick(r.ticks[k]) && r.states[k].idle.activeSince.Some?
      && Ts(r, k) >= r.states[k].idle.activeSince.value + 30_000
  {
    hide Mean, Listed, GapHolders, Surviving;
    IdleAt(r, k);
  }

  lemma {:induction false} ActivityHistory(r: Run, k: nat)
    requires IsRun(r) && k <= |r.ticks|
    ensures Exclusive(r.states[k])
    ensures r.states[k].idle.activeSince.Some? ==> exists a :: ActiveFrom(r, a, k)
  {
    if k > 0 {
      ActivityHistory(r, k - 1);
      ActivityStep(r, k - 1);
      var now, was := r.states[k].idle, r.states[k - 1].idle;
      if now.activeSince.Some? {
        if was.activeSince.Some? {
          var a :| ActiveFrom(r, a, k - 1);
          assert ActiveFrom(r, a, k);
        } else {
          assert ActiveFrom(r, k - 1, k);
        }
      }
    }
  }

  lemma {:induction false} EligibilityHistory(r: Run, k: nat)
    requires IsRun(r) && k <= |r.ticks|
    ensures r.states[k].idle.eligible ==> exists a, b :: EarnedBy(r, a, b, k)
  {
    if k > 0 {
      EligibilityHistory(r, k - 1);
      ActivityHistory(r, k - 1);
      ActivityStep(r, k - 1);
      if r.states[k].idle.eligible {
        if r.states[k - 1].idle.eligible {
          var a, b :| EarnedBy(r, a, b, k - 1);
          assert EarnedBy(r, a, b, k);
        } else {
          var a :| ActiveFrom(r, a, k - 1);
          assert EarnedBy(r, a, k - 1, k);
        }
      }
    }
  }

  // Every narrated gap was preceded by at least 30 seconds of sustained activity, and no
  // other gap was narrated between the start of that activity and this one.
  ghost predicate EarnedGap(r: Run, a: nat, b: nat, g: nat, k: nat, e: Event)
    requires Shaped(r) && k < |r.ticks|
  {
    && GapSpan(r, g, k) && GapReport(r, g, k, e)
    && EarnedBy(r, a, b, g) && NoGapNarratedIn(r, a + 1, k)
  }

  lemma GapWasEarned(r: Run, k: nat, e: Event)
    requires IsRun(r) && k < |r.ticks| && e in Emitted(r, k) && e.IdleGapSeen?
    ensures exists a: nat, b: nat, g: nat :: EarnedGap(r, a, b, g, k, e)
  {
    hide StayedAttached, HoldersSince;
    GapSound(r, k, e);
    var g :| GapSpan(r, g, k) && GapReport(r, g, k, e);
    EligibilityHistory(r, g);
    var a: nat, b: nat :| b < g && EarnedBy(r, a, b, g);
    GapPersists(r, g, k);
    assert EarnedGap(r, a, b, g, k, e);
  }

  // Under a clock that never steps back, two narrated gaps are at least 40 seconds apart.
  lemma GapsFortySecondsApart(r: Run, k1: nat, e1: Event, k2: nat, e2: Event)
    requires IsRun(r) && Monotone(r) && k1 < k2 < |r.ticks|
    requires e1 in Emitted(r, k1) && e1.IdleGapSeen? && e2 in Emitted(r, k2) && e2.IdleGapSeen?
    ensures e2.ts >= e1.ts + 30_000 + 10_000
  {
    hide StayedAttached, HoldersSince;
    EventSlots(r, k1, e1);
    EventSlots(r, k2, e2);
    GapWasEarned(r, k2, e2);
    var a: nat, b: nat, g: nat :| EarnedGap(r, a, b, g, k2, e2);
    assert k1 <= a;
    assert Ts(r, k1) <= Ts(r, a) && Ts(r, b) <= Ts(r, g);
  }
}
