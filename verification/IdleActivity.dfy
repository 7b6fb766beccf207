/** Two things the idle-gap narration does less well than it reads, both because ticks with an
    unreadable process list are skipped rather than counted as breaks
    (crates/core/src/events.rs:275-290, 436-533): the activity before a gap may have been
    interrupted unseen, and one trough can be told both as a hang and as an idle gap. */
module IdleActivity {
  import opened Base
  import opened Telemetry
  import opened Narration
  import opened HangProofs
  import opened IdleProofs
  import opened Scenes

  // ---- a device with one quiet process holding a gibibyte ----

  function Alone(): seq<ProcessSample> {
    [Holder(1, Some(GIB), None)]
  }

  function AloneMap(): map<nat, ProcessSample> {
    map[1 := Holder(1, Some(GIB), None)]
  }

  function Busy(ts: nat): Tick {
    Sighted(ts, Some(90.0), Alone())
  }

  function Dropped(ts: nat): Tick {
    Sighted(ts, Some(0.0), Alone())
  }

  function BusyState(ts: nat, since: nat, eligible: bool): DeviceState {
    Still(Reading(ts, Some(90.0)), AloneMap(), IdleState(Some(since), eligible, None), None)
  }

  function BlindState(ts: nat, util: Option<real>, since: Option<nat>, eligible: bool): DeviceState {
    Still(Reading(ts, util), AloneMap(), IdleState(since, eligible, None), None)
  }

  // An entitled device has dropped to 0%: a gap and a hang episode have both begun at `since`.
  function DropState(ts: nat, since: nat, pre: real, n: nat, told: bool): DeviceState {
    Still(Reading(ts, Some(0.0)), AloneMap(),
          IdleState(None, true, Some(IdleGap(since, pre, 0.0, n, map[1 := GIB], told))),
          Some(HangEpisode(since, 1, GIB, 0.0, n, told)))
  }

  function GapTold(ts: nat, since: nat, pre: real): Event {
    IdleGapSeen(ts, since, 1, GIB, pre, Mean(0.0, 1))
  }

  function HangTold(ts: nat, since: nat, n: nat): Event {
    HangSuspected(ts, since, 1, GIB, Mean(0.0, n))
  }

  lemma AloneCollects()
    ensures Collect(Alone()) == AloneMap() && AloneMap().Keys == {1}
    ensures GapHolders(AloneMap()) == map[1 := GIB]
    ensures Surviving(map[1 := GIB], AloneMap()) == map[1 := GIB]
  {
    assert Alone()[..0] == [];
  }

  lemma AloneIsQuiet()
    ensures SomeQuietHolder(AloneMap()) && LargestQuietHolder(AloneMap(), 1)
  {
    assert 1 in AloneMap() && QuietHolder(AloneMap()[1]);
  }

  lemma BusyStep(st: DeviceState, ts: nat)
    requires st == INITIAL || (st.prev.Some? && st == Still(st.prev.value, AloneMap(), st.idle, st.hang))
    requires st.prev.Some? ==> st.prev.value.throttle.None?
    requires st.idle.gap.None?
    ensures var since := st.idle.activeSince.GetOr(ts);
      Step(st, Busy(ts), BusyState(ts, since, st.idle.eligible || SatSub(ts, since) >= 30_000), Said([], []))
  {
    AloneCollects();
    hide Collect, Step, AloneMap, SomeQuietHolder, GapHolders, Surviving;
    var since := st.idle.activeSince.GetOr(ts);
    SightedStep(st, ts, Some(90.0), Alone(), IdleState(Some(since), st.idle.eligible || SatSub(ts, since) >= 30_000, None),
                None, [], []);
  }

  // The first tick of a trough.
  lemma DropStep(st: DeviceState, ts: nat, pre: real)
    requires st.prev.Some? && st.prev.value.util == Some(pre) && st.prev.value.throttle.None?
    requires st == Still(st.prev.value, AloneMap(), IdleState(st.idle.activeSince, true, None), None)
    ensures Step(st, Dropped(ts), DropState(ts, ts, pre, 1, false), Said([], []))
  {
    AloneCollects();
    AloneIsQuiet();
    assert AloneMap()[1].mem == Some(GIB);
    hide Collect, Step, AloneMap, SomeQuietHolder, LargestQuietHolder, GapHolders, Surviving;
    var next := DropState(ts, ts, pre, 1, false);
    SightedStep(st, ts, Some(0.0), Alone(), next.idle, next.hang, [], []);
  }

  // Ten minutes on the hang is told, and its trough's gap is muted.
  lemma HangStepTold(since: nat, pre: real)
    ensures Step(DropState(since, since, pre, 1, false), Dropped(since + TEN_MINUTES),
                 DropState(since + TEN_MINUTES, since, pre, 2, true), Said([HangTold(since + TEN_MINUTES, since, 2)], []))
  {
    AloneCollects();
    AloneIsQuiet();
    assert 1 in AloneMap();
    hide Collect, Step, AloneMap, SomeQuietHolder, LargestQuietHolder, GapHolders, Surviving, Mean;
    var st, next := DropState(since, since, pre, 1, false), DropState(since + TEN_MINUTES, since, pre, 2, true);
    SightedStep(st, since + TEN_MINUTES, Some(0.0), Alone(), next.idle, next.hang, [HangTold(since + TEN_MINUTES, since, 2)], []);
  }

  // Ten seconds after a drop the device is busy again, and the gap is told.
  lemma RecoverStep(since: nat, pre: real)
    ensures var ts := since + 10_000;
      Step(DropState(since, since, pre, 1, false), Busy(ts), BusyState(ts, ts, false), Said([], [GapTold(ts, since, pre)]))
  {
    AloneCollects();
    hide Collect, Step, AloneMap, SomeQuietHolder, GapHolders, Surviving, Mean;
    var st, ts := DropState(since, since, pre, 1, false), since + 10_000;
    var holders: map<nat, nat> := map[1 := GIB];
    assert LargestHolder(holders, 1) && holders != map[];
    SightedStep(st, ts, Some(90.0), Alone(), IdleState(Some(ts), false, None), None, [], [GapTold(ts, since, pre)]);
  }

  lemma BlindStep(st: DeviceState, ts: nat, util: Option<real>)
    requires st.prev.Some? && st.prev.value.throttle.None? && st == Still(st.prev.value, AloneMap(), st.idle, st.hang)
    ensures Step(st, Unsighted(ts, util), BlindState(ts, util, st.idle.activeSince, st.idle.eligible), Said([], []))
  {
    hide Step, AloneMap;
    UnsightedStep(st, ts, util);
  }

  // ---- thirty seconds of activity, as far as anybody looked ----

  predicate ReadsBusy(t: Tick) {
    t.sample.util.Some? && t.sample.util.value >= 50.0
  }

  // On every tick whose process list was unreadable the utilisation reading was one of these.
  ghost predicate BlindReadings(r: Run, readings: iset<Option<real>>) {
    forall j :: 0 <= j < |r.ticks| && r.ticks[j].procs.None? ==> r.ticks[j].sample.util in readings
  }

  ghost predicate Unbroken(r: Run, a: nat, b: nat)
    requires b < |r.ticks|
  {
    forall j :: a <= j <= b ==> ReadsBusy(r.ticks[j])
  }

  // The activity behind a narrated gap: earned as `GapWasEarned` says, and without a break.
  ghost predicate EarnedUnbroken(r: Run, k: nat, e: Event)
    requires Shaped(r) && k < |r.ticks|
  {
    exists a: nat, b: nat, g: nat :: EarnedGap(r, a, b, g, k, e) && Unbroken(r, a, b)
  }

  ghost predicate ActivityAlwaysUnbroken(readings: iset<Option<real>>) {
    forall r: Run, k: nat, e: Event ::
      IsRun(r) && BlindReadings(r, readings) && k < |r.ticks| && e in Emitted(r, k) && e.IdleGapSeen? ==> EarnedUnbroken(r, k, e)
  }

  predicate KeepsBusy(util: Option<real>) {
    util.Some? && util.value >= 50.0
  }

  lemma BusyThroughout(r: Run, readings: iset<Option<real>>, k: nat, e: Event)
    requires IsRun(r) && BlindReadings(r, readings) && forall u :: u in readings ==> KeepsBusy(u)
    requires k < |r.ticks| && e in Emitted(r, k) && e.IdleGapSeen?
    ensures EarnedUnbroken(r, k, e)
  {
    hide StepAt, GapReport, GapOpensAt, TroughTick, Emitted, NoGapNarratedIn;
    GapWasEarned(r, k, e);
    var a: nat, b: nat, g: nat :| EarnedGap(r, a, b, g, k, e);
    forall j | a <= j <= b ensures ReadsBusy(r.ticks[j]) {
      if r.ticks[j].procs.Some? {
        assert RecoveryTick(r.ticks[j]);
      } else {
        assert KeepsBusy(r.ticks[j].sample.util);
      }
    }
    assert Unbroken(r, a, b);
  }

  // Busy, a tick nobody could list the processes of, busy again, and a trough of ten seconds.
  function BrokenRun(util: Option<real>): Run {
    Run([Busy(0), Unsighted(15_000, util), Busy(30_000), Dropped(40_000), Busy(50_000)],
        [INITIAL, BusyState(0, 0, false), BlindState(15_000, util, Some(0), false), BusyState(30_000, 0, true),
         DropState(40_000, 40_000, 90.0, 1, false), BusyState(50_000, 50_000, false)],
        [Said([], []), Said([], []), Said([], []), Said([], []), Said([], [GapTold(50_000, 40_000, 90.0)])])
  }

  lemma BrokenRunIsRun(util: Option<real>)
    ensures IsRun(BrokenRun(util)) && GapTold(50_000, 40_000, 90.0) in Emitted(BrokenRun(util), 4)
  {
    hide Step, Mean, AloneMap, Alone;
    var r := BrokenRun(util);
    BusyStep(INITIAL, 0);
    BlindStep(r.states[1], 15_000, util);
    BusyStep(r.states[2], 30_000);
    DropStep(r.states[3], 40_000, 90.0);
    RecoverStep(40_000, 90.0);
    assert StepAt(r, 0) && StepAt(r, 1) && StepAt(r, 2) && StepAt(r, 3) && StepAt(r, 4);
    assert r.outs[4].All() == [GapTold(50_000, 40_000, 90.0)];
  }

  // The device was at 0%, or could not be read, in the middle of its thirty seconds of
  // activity; no stretch of thirty seconds before the gap was busy on every tick.
  lemma ActivityMayBreak(util: Option<real>)
    requires !KeepsBusy(util)
    ensures var r := BrokenRun(util);
      && IsRun(r) && GapTold(50_000, 40_000, 90.0) in Emitted(r, 4)
      && forall a: nat, b: nat :: a < b < 5 && Ts(r, b) >= Ts(r, a) + 30_000 ==> !Unbroken(r, a, b)
  {
    BrokenRunIsRun(util);
    hide StepAt, Emitted;
    var r := BrokenRun(util);
    forall a: nat, b: nat | a < b < 5 && Ts(r, b) >= Ts(r, a) + 30_000 ensures !Unbroken(r, a, b) {
      assert a <= 1 <= b || a <= 3 <= b;
      assert !ReadsBusy(r.ticks[1]) && !ReadsBusy(r.ticks[3]);
    }
  }

  // "Thirty seconds of sustained activity" precede every narrated gap if and only if the device
  // reads 50% or more whenever its processes cannot be listed.
  lemma ActivityAlwaysUnbrokenIff(readings: iset<Option<real>>)
    ensures ActivityAlwaysUnbroken(readings) <==> forall u :: u in readings ==> KeepsBusy(u)
  {
    hide StepAt, Emitted, EarnedGap, Unbroken;
    if forall u :: u in readings ==> KeepsBusy(u) {
      forall r: Run, k: nat, e: Event | IsRun(r) && BlindReadings(r, readings) && k < |r.ticks| && e in Emitted(r, k) && e.IdleGapSeen?
        ensures EarnedUnbroken(r, k, e)
      {
        BusyThroughout(r, readings, k, e);
      }
    } else {
      var u :| u in readings && !KeepsBusy(u);
      ActivityMayBreak(u);
      assert BlindReadings(BrokenRun(u), readings);
      if EarnedUnbroken(BrokenRun(u), 4, GapTold(50_000, 40_000, 90.0)) {
        NotUnbroken(u);
      }
    }
  }

  lemma NotUnbroken(util: Option<real>)
    requires !KeepsBusy(util) && IsRun(BrokenRun(util))
    ensures !EarnedUnbroken(BrokenRun(util), 4, GapTold(50_000, 40_000, 90.0))
  {
    ActivityMayBreak(util);
    hide StepAt, Emitted, GapSpan, GapReport, NoGapNarratedIn, Unbroken;
  }

  // ---- one trough, told twice ----

  // A hang is narrated at tick j and an idle gap at tick k, and in between utilisation was
  // always read and never back at 50%.
  ghost predicate ToldTwice(r: Run, j: nat, k: nat)
    requires Shaped(r)
  {
    && j < k < |r.ticks|
    && (exists h :: h in Emitted(r, j) && h.HangSuspected?)
    && (exists e :: e in Emitted(r, k) && e.IdleGapSeen?)
    && forall i :: j <= i < k ==> r.ticks[i].sample.util.Some? && r.ticks[i].sample.util.value < 50.0
  }

  // Eligibility cannot arise below 50%.
  lemma {:induction false} EligibleEarlier(r: Run, j: nat, g: nat)
    requires IsRun(r) && j <= g <= |r.ticks| && r.states[g].idle.eligible
    requires forall i :: j <= i < g ==> TroughTick(r.ticks[i])
    ensures r.states[j].idle.eligible
  {
    hide Mean, Listed, GapHolders, Surviving, GapNarration;
    if j < g {
      IdleAt(r, g - 1);
      EligibleEarlier(r, j, g - 1);
    }
  }

  // A gap open at a tick of a trough is open on every later one.
  lemma {:induction false} GapOpenLater(r: Run, j: nat, g: nat)
    requires IsRun(r) && j <= g <= |r.ticks| && r.states[j].idle.gap.Some?
    requires forall i :: j <= i < g ==> TroughTick(r.ticks[i])
    ensures r.states[g].idle.gap.Some?
  {
    hide Mean, Listed, GapHolders, Surviving, GapNarration;
    if j < g {
      GapOpenLater(r, j, g - 1);
      IdleAt(r, g - 1);
    }
  }

  // After a narrated hang no gap opens in the trough it was told of.
  lemma NoNewGap(r: Run, j: nat, g: nat)
    requires IsRun(r) && j < g < |r.ticks| && r.outs[j].hang != []
    requires forall i :: j < i <= g ==> TroughTick(r.ticks[i])
    ensures !GapOpensAt(r, g)
  {
    hide StepAt, TroughTick;
    HangEdge(r, j);
    AlwaysCoupled(r, j + 1);
    if GapOpensAt(r, g) {
      EligibleEarlier(r, j + 1, g);
      GapOpenLater(r, j + 1, g);
    }
  }

  // In one trough a hang and a later gap are narrated only with a tick between them that could
  // not list the processes.
  lemma ToldTwiceAcrossBlindTick(r: Run, j: nat, k: nat)
    requires IsRun(r) && ToldTwice(r, j, k)
    ensures exists i :: j < i < k && r.ticks[i].procs.None?
  {
    hide StepAt, Emitted, StayedAttached, Listed, Mean, HangStep, IdleStep;
    var h :| h in Emitted(r, j) && h.HangSuspected?;
    var e :| e in Emitted(r, k) && e.IdleGapSeen?;
    EventSlots(r, j, h);
    HangEdge(r, j);
    GapSound(r, k, e);
    var g: nat :| GapSpan(r, g, k) && GapReport(r, g, k, e);
    assert r.outs[j].hang != [];
    if forall i :: j < i < k ==> r.ticks[i].procs.Some? {
      if j < g {
        NoNewGap(r, j, g);
      }
    }
  }

  function Blind(r: Run, from: nat, to: nat): nat
    requires from <= to <= |r.ticks|
  {
    if from == to then 0 else Blind(r, from, to - 1) + if r.ticks[to - 1].procs.None? then 1 else 0
  }

  lemma {:induction false} BlindCounted(r: Run, from: nat, to: nat, i: nat)
    requires from <= i < to <= |r.ticks| && r.ticks[i].procs.None?
    ensures Blind(r, from, to) >= 1
  {
    if i < to - 1 {
      BlindCounted(r, from, to - 1, i);
    }
  }

  // Active for thirty seconds, at 0% for ten minutes (a hang), one unreadable list, at 0% again
  // and busy ten seconds later (a gap).
  function TwiceRun(): Run {
    Run([Busy(0), Busy(30_000), Dropped(40_000), Dropped(640_000), Unsighted(650_000, Some(0.0)), Dropped(660_000), Busy(670_000)],
        [INITIAL, BusyState(0, 0, false), BusyState(30_000, 0, true), DropState(40_000, 40_000, 90.0, 1, false),
         DropState(640_000, 40_000, 90.0, 2, true), BlindState(650_000, Some(0.0), None, true),
         DropState(660_000, 660_000, 0.0, 1, false), BusyState(670_000, 670_000, false)],
        [Said([], []), Said([], []), Said([], []), Said([HangTold(640_000, 40_000, 2)], []), Said([], []), Said([], []),
         Said([], [GapTold(670_000, 660_000, 0.0)])])
  }

  lemma TwiceRunIsRun()
    ensures IsRun(TwiceRun())
    ensures HangTold(640_000, 40_000, 2) in Emitted(TwiceRun(), 3) && GapTold(670_000, 660_000, 0.0) in Emitted(TwiceRun(), 6)
  {
    hide Step, Mean, AloneMap, Alone;
    var r := TwiceRun();
    BusyStep(INITIAL, 0);
    BusyStep(r.states[1], 30_000);
    DropStep(r.states[2], 40_000, 90.0);
    HangStepTold(40_000, 90.0);
    BlindStep(r.states[4], 650_000, Some(0.0));
    DropStep(r.states[5], 660_000, 0.0);
    RecoverStep(660_000, 0.0);
    assert StepAt(r, 0) && StepAt(r, 1) && StepAt(r, 2) && StepAt(r, 3) && StepAt(r, 4) && StepAt(r, 5) && StepAt(r, 6);
    assert r.outs[3].All() == [HangTold(640_000, 40_000, 2)] && r.outs[6].All() == [GapTold(670_000, 660_000, 0.0)];
  }

  // One unreadable list is enough for a device whose utilisation never left 0% in between.
  lemma TroughToldTwice()
    ensures IsRun(TwiceRun()) && ToldTwice(TwiceRun(), 3, 6) && Blind(TwiceRun(), 3, 6) == 1
  {
    hide StepAt, Emitted;
    TwiceRunIsRun();
  }

  // With at most n unreadable lists between the two narrations a trough can be told twice if
  // and only if n is at least one.
  lemma ToldTwiceIff(n: nat)
    ensures (exists r: Run, j: nat, k: nat :: IsRun(r) && ToldTwice(r, j, k) && Blind(r, j, k) <= n) <==> n >= 1
  {
    hide StepAt, Emitted, TwiceRun;
    TroughToldTwice();
    if exists r: Run, j: nat, k: nat :: IsRun(r) && ToldTwice(r, j, k) && Blind(r, j, k) <= n {
      var r: Run, j: nat, k: nat :| IsRun(r) && ToldTwice(r, j, k) && Blind(r, j, k) <= n;
      ToldTwiceAcrossBlindTick(r, j, k);
      var i :| j < i < k && r.ticks[i].procs.None?;
      BlindCounted(r, j, k, i);
    }
  }
}
