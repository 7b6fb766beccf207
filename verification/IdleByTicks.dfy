/** When a device is eligible for an idle gap and when a gap is open, told by the ticks of the
    run alone (crates/core/src/events.rs:436-533 and the blind arm 275-290). */
module IdleByTicks {
  import opened Base
  import opened Telemetry
  import opened Narration
  import opened HangProofs
  import opened IdleProofs

  // The activity stretch that tick a belongs to begins at a: since every earlier busy tick some
  // tick that was read was not busy.
  ghost predicate StretchStart(r: Run, a: nat)
    requires a < |r.ticks|
  {
    RecoveryTick(r.ticks[a]) && forall i :: 0 <= i < a && RecoveryTick(r.ticks[i]) ==> !BusyWhenSeen(r, i, a)
  }

  ghost predicate ClockRuns(r: Run, a: nat, k: nat)
    requires k <= |r.ticks|
  {
    a < k && StretchStart(r, a) && BusyWhenSeen(r, a, k)
  }

  // The activity that began at a had lasted thirty seconds by tick b.
  ghost predicate Earned(r: Run, a: nat, b: nat)
    requires b < |r.ticks|
  {
    a < b && RecoveryTick(r.ticks[b]) && ClockRuns(r, a, b) && Ts(r, b) >= Ts(r, a) + 30_000
  }

  ghost predicate BelowTenTick(t: Tick) {
    TroughTick(t) && t.sample.util.value < 10.0
  }

  // From g on, utilisation first under 10%, then never back at 50%, and always read.
  ghost predicate Trough(r: Run, g: nat, k: nat)
    requires k <= |r.ticks|
  {
    g < k && BelowTenTick(r.ticks[g]) && forall j :: g <= j < k ==> TroughTick(r.ticks[j])
  }

  // Utilisation could not be read although the processes could.
  ghost predicate ReadingLost(t: Tick) {
    t.procs.Some? && t.sample.util.None?
  }

  // What uses up activity earned by tick b: a lost reading, or a recovery from a trough.
  ghost predicate UsedUp(r: Run, b: nat, k: nat)
    requires k <= |r.ticks|
  {
    || (exists j :: b < j < k && ReadingLost(r.ticks[j]))
    || (exists g, j :: b < g < j < k && Trough(r, g, j) && RecoveryTick(r.ticks[j]))
  }

  ghost predicate Entitled(r: Run, k: nat)
    requires k <= |r.ticks|
  {
    exists a, b: nat :: b < k && Earned(r, a, b) && !UsedUp(r, b, k)
  }

  ghost predicate InGap(r: Run, k: nat)
    requires k <= |r.ticks|
  {
    exists g: nat :: g < k && Entitled(r, g) && Trough(r, g, k)
  }

  // ---- the activity clock ----

  // Tick k keeps the clock running, starts it, or stops it.
  lemma ClockStep(r: Run, k: nat)
    requires IsRun(r) && k < |r.ticks|
    ensures r.ticks[k].procs.None? ==> r.states[k + 1].idle.activeSince == r.states[k].idle.activeSince
    ensures RecoveryTick(r.ticks[k]) ==>
      r.states[k + 1].idle.activeSince == Some(r.states[k].idle.activeSince.GetOr(Ts(r, k)))
    ensures r.ticks[k].procs.Some? && !RecoveryTick(r.ticks[k]) ==> r.states[k + 1].idle.activeSince == None
  {
    hide Mean, Listed, GapHolders, Surviving, GapNarration;
    ActivityHistory(r, k);
    IdleAt(r, k);
  }

  ghost predicate SomeClock(r: Run, k: nat)
    requires k <= |r.ticks|
  {
    exists a: nat :: ClockRuns(r, a, k)
  }

  lemma {:induction false} ClockByTicks(r: Run, k: nat)
    requires IsRun(r) && k <= |r.ticks|
    ensures r.states[k].idle.activeSince.Some? <==> SomeClock(r, k)
    ensures forall a: nat :: ClockRuns(r, a, k) ==> r.states[k].idle.activeSince == Some(Ts(r, a))
  {
    assert k == 0 ==> forall a: nat :: !ClockRuns(r, a, k);
    hide StepAt, ClockRuns;
    if k > 0 {
      ClockByTicks(r, k - 1);
      ClockStep(r, k - 1);
      forall a: nat ensures ClockRuns(r, a, k) <==> ClockAfter(r, a, k - 1) {
        ClockAdvances(r, a, k - 1);
      }
      if SomeClock(r, k) {
        var a: nat :| ClockRuns(r, a, k);
        assert ClockAfter(r, a, k - 1);
      }
      if SomeClock(r, k - 1) {
        var a: nat :| ClockRuns(r, a, k - 1);
        assert r.ticks[k - 1].procs.None? || RecoveryTick(r.ticks[k - 1]) ==> ClockAfter(r, a, k - 1) && ClockRuns(r, a, k);
      } else {
        assert RecoveryTick(r.ticks[k - 1]) ==> ClockAfter(r, k - 1, k - 1) && ClockRuns(r, k - 1, k);
      }
    }
  }

  // The clock that began at a runs after tick k.
  ghost predicate ClockAfter(r: Run, a: nat, k: nat)
    requires k < |r.ticks|
  {
    if r.ticks[k].procs.None? then ClockRuns(r, a, k)
    else RecoveryTick(r.ticks[k]) && (ClockRuns(r, a, k) || (a == k && !SomeClock(r, k)))
  }

  lemma ClockAdvances(r: Run, a: nat, k: nat)
    requires k < |r.ticks|
    ensures ClockRuns(r, a, k + 1) <==> ClockAfter(r, a, k)
  {
    if a == k && RecoveryTick(r.ticks[k]) {
      ClockStarts(r, k);
    } else if a < k {
      assert BusyWhenSeen(r, a, k + 1) <==> BusyWhenSeen(r, a, k) && (r.ticks[k].procs.Some? ==> RecoveryTick(r.ticks[k]));
    }
  }

  lemma ClockStarts(r: Run, k: nat)
    requires k < |r.ticks| && RecoveryTick(r.ticks[k])
    ensures StretchStart(r, k) <==> !SomeClock(r, k)
  {
    if !StretchStart(r, k) {
      var i: nat :| i < k && RecoveryTick(r.ticks[i]) && BusyWhenSeen(r, i, k);
      var c := EarliestBusy(r, i, k);
    }
  }

  // An unbroken stretch of activity has a first tick.
  lemma {:induction false} EarliestBusy(r: Run, i: nat, k: nat) returns (c: nat)
    requires i < k <= |r.ticks| && RecoveryTick(r.ticks[i]) && BusyWhenSeen(r, i, k)
    ensures c <= i && ClockRuns(r, c, k)
    decreases i
  {
    if StretchStart(r, i) {
      c := i;
    } else {
      var j: nat :| j < i && RecoveryTick(r.ticks[j]) && BusyWhenSeen(r, j, i);
      c := EarliestBusy(r, j, k);
    }
  }

  // ---- entitlement and the open gap ----

  // What tick k does to eligibility and to the gap, given the state before it.
  lemma GapStep(r: Run, k: nat)
    requires IsRun(r) && k < |r.ticks|
    ensures var (t, now, next) := (r.ticks[k], r.states[k].idle, r.states[k + 1].idle);
      && (t.procs.None? ==> next.eligible == now.eligible && next.gap == None)
      && (ReadingLost(t) ==> !next.eligible && next.gap == None)
      && (TroughTick(t) ==> next.eligible == now.eligible)
      && (TroughTick(t) ==> (next.gap.Some? <==> now.gap.Some? || (now.eligible && BelowTenTick(t))))
      && (RecoveryTick(t) ==> next.gap == None)
      && (RecoveryTick(t) ==> (next.eligible <==> now.gap.None? && (now.eligible || ClockDone(r, k))))
  {
    hide Mean, Listed, GapHolders, Surviving, GapNarration;
    IdleAt(r, k);
  }

  predicate ClockDone(r: Run, k: nat)
    requires Shaped(r) && k < |r.ticks|
  {
    var since := r.states[k].idle.activeSince;
    since.Some? && Ts(r, k) >= since.value + 30_000
  }

  // The same, told by the ticks.
  ghost predicate EntitledAfter(r: Run, k: nat)
    requires k < |r.ticks|
  {
    var t := r.ticks[k];
    if t.procs.None? || TroughTick(t) then Entitled(r, k)
    else RecoveryTick(t) && !InGap(r, k) && (Entitled(r, k) || exists a: nat :: Earned(r, a, k))
  }

  lemma UsedUpStep(r: Run, b: nat, k: nat)
    requires b < k < |r.ticks|
    ensures UsedUp(r, b, k) ==> UsedUp(r, b, k + 1)
    ensures ReadingLost(r.ticks[k]) ==> UsedUp(r, b, k + 1)
    ensures !ReadingLost(r.ticks[k]) && !RecoveryTick(r.ticks[k]) ==> UsedUp(r, b, k + 1) == UsedUp(r, b, k)
  {
    hide Trough;
  }

  // At a recovery tick only a trough that began after b and lasted until now is spent.
  lemma UsedUpByRecovery(r: Run, b: nat, k: nat)
    requires b < k < |r.ticks| && RecoveryTick(r.ticks[k])
    ensures UsedUp(r, b, k + 1) <==> UsedUp(r, b, k) || exists g :: b < g < k && Trough(r, g, k)
  {
    hide Trough;
  }

  lemma TroughStep(r: Run, g: nat, k: nat)
    requires k < |r.ticks|
    ensures Trough(r, g, k + 1) <==>
      TroughTick(r.ticks[k]) && (Trough(r, g, k) || (g == k && BelowTenTick(r.ticks[k])))
  {
    if TroughTick(r.ticks[k]) && Trough(r, g, k) {
      assert Trough(r, g, k + 1);
    }
    if Trough(r, g, k + 1) && g < k {
      assert Trough(r, g, k);
    }
  }

  // Activity earned by now, before or after a trough that lasts until now, was earned before it.
  lemma EarnedBeforeTrough(r: Run, a: nat, b: nat, g: nat, k: nat)
    requires k < |r.ticks| && Trough(r, g, k) && b <= k && Earned(r, a, b)
    ensures b < g
  {
    assert TroughTick(r.ticks[k - 1]);
  }

  lemma InGapStep(r: Run, k: nat)
    requires k < |r.ticks|
    ensures InGap(r, k + 1) <==> TroughTick(r.ticks[k]) && (InGap(r, k) || (Entitled(r, k) && BelowTenTick(r.ticks[k])))
  {
    hide Entitled, Trough, TroughTick, BelowTenTick;
    if InGap(r, k + 1) {
      var g: nat :| g < k + 1 && Entitled(r, g) && Trough(r, g, k + 1);
      TroughStep(r, g, k);
    }
    if InGap(r, k) {
      var g: nat :| g < k && Entitled(r, g) && Trough(r, g, k);
      TroughStep(r, g, k);
    }
    TroughStep(r, k, k);
    TroughNeedsTicks(r, k);
  }

  lemma TroughNeedsTicks(r: Run, k: nat)
    requires k <= |r.ticks|
    ensures !Trough(r, k, k)
  {
  }

  lemma EntitledBy(r: Run, a: nat, b: nat, k: nat)
    requires b < k <= |r.ticks| && Earned(r, a, b) && !UsedUp(r, b, k)
    ensures Entitled(r, k)
  {
  }

  lemma EarnedHere(r: Run, a: nat, k: nat)
    requires k < |r.ticks| && Earned(r, a, k)
    ensures Entitled(r, k + 1)
  {
    EntitledBy(r, a, k, k + 1);
  }

  // What was not used up by now was not used up earlier.
  lemma UsedUpLater(r: Run, b: nat, g: nat, k: nat)
    requires b < g <= k <= |r.ticks| && UsedUp(r, b, g)
    ensures UsedUp(r, b, k)
  {
    hide Trough;
  }

  // A recovery outside a gap leaves a device entitled ...
  lemma StaysEntitled(r: Run, k: nat)
    requires k < |r.ticks| && RecoveryTick(r.ticks[k]) && !InGap(r, k) && Entitled(r, k)
    ensures Entitled(r, k + 1)
  {
    hide Trough, Earned, UsedUp;
    var a, b: nat :| b < k && Earned(r, a, b) && !UsedUp(r, b, k);
    UsedUpByRecovery(r, b, k);
    if UsedUp(r, b, k + 1) {
      var g: nat :| b < g < k && Trough(r, g, k);
      if UsedUp(r, b, g) {
        UsedUpLater(r, b, g, k);
      }
      EntitledBy(r, a, b, g);
    } else {
      EntitledBy(r, a, b, k + 1);
    }
  }

  // ... and only such a recovery does.
  lemma WasEntitled(r: Run, a: nat, b: nat, k: nat)
    requires k < |r.ticks| && RecoveryTick(r.ticks[k]) && b <= k && Earned(r, a, b) && !UsedUp(r, b, k + 1)
    ensures !InGap(r, k) && (b < k ==> Entitled(r, k))
  {
    hide Trough, Earned, UsedUp;
    if InGap(r, k) {
      var g: nat :| g < k && Entitled(r, g) && Trough(r, g, k);
      EarnedBeforeTrough(r, a, b, g, k);
      UsedUpByRecovery(r, b, k);
    }
    if b < k {
      UsedUpByRecovery(r, b, k);
      EntitledBy(r, a, b, k);
    }
  }

  lemma EntitledByRecovery(r: Run, k: nat)
    requires k < |r.ticks| && RecoveryTick(r.ticks[k])
    ensures Entitled(r, k + 1) <==> EntitledAfter(r, k)
  {
    hide Trough, UsedUp, ClockRuns;
    if EntitledAfter(r, k) {
      if Entitled(r, k) {
        StaysEntitled(r, k);
      } else {
        var a: nat :| Earned(r, a, k);
        EarnedHere(r, a, k);
      }
    }
    if Entitled(r, k + 1) {
      var a, b: nat :| b < k + 1 && Earned(r, a, b) && !UsedUp(r, b, k + 1);
      WasEntitled(r, a, b, k);
    }
  }

  lemma EntitledOtherwise(r: Run, k: nat)
    requires k < |r.ticks| && !RecoveryTick(r.ticks[k])
    ensures Entitled(r, k + 1) <==> EntitledAfter(r, k)
  {
    hide Trough, UsedUp, ClockRuns;
    if Entitled(r, k + 1) {
      var a, b: nat :| b < k + 1 && Earned(r, a, b) && !UsedUp(r, b, k + 1);
      UsedUpStep(r, b, k);
      EntitledBy(r, a, b, k);
    }
    if EntitledAfter(r, k) {
      var a, b: nat :| b < k && Earned(r, a, b) && !UsedUp(r, b, k);
      UsedUpStep(r, b, k);
      EntitledBy(r, a, b, k + 1);
    }
  }

  lemma ClockDoneByTicks(r: Run, k: nat)
    requires IsRun(r) && k < |r.ticks| && RecoveryTick(r.ticks[k])
    ensures ClockDone(r, k) <==> exists a: nat :: Earned(r, a, k)
  {
    hide StepAt, BusyWhenSeen, StretchStart;
    ClockByTicks(r, k);
    if ClockDone(r, k) {
      var a: nat :| ClockRuns(r, a, k);
      assert Earned(r, a, k);
    }
  }

  // Before any tick the device is eligible exactly when it is entitled by the ticks so far, and
  // a gap is open exactly when they are in one.
  lemma {:induction false} IdleStateByTicks(r: Run, k: nat)
    requires IsRun(r) && k <= |r.ticks|
    ensures r.states[k].idle.eligible <==> Entitled(r, k)
    ensures r.states[k].idle.gap.Some? <==> InGap(r, k)
  {
    hide StepAt, Earned, UsedUp, Trough, BelowTenTick, ClockDone;
    if k > 0 {
      IdleStateByTicks(r, k - 1);
      GapStep(r, k - 1);
      InGapStep(r, k - 1);
      if RecoveryTick(r.ticks[k - 1]) {
        EntitledByRecovery(r, k - 1);
        ClockDoneByTicks(r, k - 1);
      } else {
        EntitledOtherwise(r, k - 1);
      }
    }
  }

  // So a gap opens exactly on the first tick under 10% of a trough that the device is entitled
  // to be told of.
  lemma GapOpensByTicks(r: Run, g: nat)
    requires IsRun(r) && g < |r.ticks|
    ensures GapOpensAt(r, g) <==> Entitled(r, g) && BelowTenTick(r.ticks[g]) && !InGap(r, g)
  {
    hide StepAt, Entitled, InGap;
    IdleStateByTicks(r, g);
  }

  // Completeness told by the ticks alone: a trough of at least ten seconds that the device is
  // entitled to be told of, with no hang in it and a holder attached from beginning to
  // recovery, is narrated.
  lemma TroughIsNarrated(r: Run, g: nat, k: nat, p: nat)
    requires IsRun(r) && g < k < |r.ticks| && Entitled(r, g) && !InGap(r, g) && Trough(r, g, k)
    requires RecoveryTick(r.ticks[k]) && Ts(r, k) >= Ts(r, g) + 10_000
    requires NoHangIn(r, g, k) && StayedAttached(r, g, k + 1, p)
    ensures |r.outs[k].idle| == 1 && GapReport(r, g, k, r.outs[k].idle[0])
  {
    hide StepAt, Entitled, InGap, StayedAttached, GapReport;
    GapOpensByTicks(r, g);
    HangEdge(r, k);
    assert GapSpan(r, g, k);
    GapComplete(r, g, k, p);
  }

  // And nothing else is: every narrated gap is such a trough.
  lemma NarratedIsTrough(r: Run, k: nat, e: Event)
    requires IsRun(r) && k < |r.ticks| && e in Emitted(r, k) && e.IdleGapSeen?
    ensures exists g: nat :: NarratedTrough(r, g, k) && GapReport(r, g, k, e)
  {
    hide StepAt, Entitled, InGap, StayedAttached, GapReport;
    GapSound(r, k, e);
    var g: nat :| GapSpan(r, g, k) && GapReport(r, g, k, e);
    GapOpensByTicks(r, g);
    assert NarratedTrough(r, g, k);
  }

  ghost predicate NarratedTrough(r: Run, g: nat, k: nat)
    requires Shaped(r) && k < |r.ticks|
  {
    && g < k && Entitled(r, g) && !InGap(r, g) && Trough(r, g, k) && RecoveryTick(r.ticks[k])
    && Ts(r, k) >= Ts(r, g) + 10_000 && NoHangIn(r, g, k)
  }
}
