/** What a narrated idle gap says about its holder (crates/core/src/events.rs:452-532): it "held"
    the printed amount "for the whole gap". The amount is the one it was listed with when the gap
    opened; afterwards holders are kept by pid alone. A tick that lists the process without a
    memory figure does not bear the sentence out. */
module GapHolder {
  import opened Base
  import opened Telemetry
  import opened Narration
  import opened HangProofs
  import opened IdleProofs
  import opened Scenes

  // ---- the sentence ----

  // On every tick of g..k the process was listed with the printed amount.
  ghost predicate HeldThroughout(r: Run, g: nat, k: nat, pid: nat, printed: nat, c: Claim)
    requires g <= k < |r.ticks|
  {
    forall j :: g <= j <= k ==> ListedWith(r.ticks[j], pid, printed, c)
  }

  ghost predicate ListedWith(t: Tick, pid: nat, printed: nat, c: Claim) {
    t.procs.Some? && pid in Listed(t) && Listed(t)[pid].mem.Some? && Bears(c, printed, Listed(t)[pid].mem.value)
  }

  ghost predicate TroughOf(r: Run, g: nat, k: nat, e: Event)
    requires Shaped(r) && k < |r.ticks|
  {
    GapSpan(r, g, k) && GapReport(r, g, k, e)
  }

  ghost predicate GapTrueToItsWord(r: Run, k: nat, e: Event, c: Claim)
    requires Shaped(r) && k < |r.ticks| && e.IdleGapSeen?
  {
    exists g: nat :: TroughOf(r, g, k, e) && HeldThroughout(r, g, k, e.pid, e.holderMem, c)
  }

  predicate GapTold(r: Run, k: nat, e: Event) {
    Shaped(r) && k < |r.ticks| && e.IdleGapSeen? && e in Emitted(r, k)
  }

  // ---- where it is true ----

  // A process and what it is listed with, which may be nothing known.
  datatype Figure = Figure(pid: nat, mem: Option<nat>)

  ghost predicate FiguresWithin(r: Run, figures: iset<Figure>) {
    forall j: nat, p: nat :: j < |r.ticks| && r.ticks[j].procs.Some? && p in Listed(r.ticks[j]) ==>
      Figure(p, Listed(r.ticks[j])[p].mem) in figures
  }

  // On a device whose processes are listed with these figures, no narrated gap is untrue.
  ghost predicate GapAlwaysTrue(figures: iset<Figure>, c: Claim) {
    forall r: Run, k: nat, e: Event :: IsRun(r) && FiguresWithin(r, figures) && GapTold(r, k, e) ==> GapTrueToItsWord(r, k, e, c)
  }

  // A process that can be a gap's holder has no second figure.
  ghost predicate HoldersSteady(figures: iset<Figure>) {
    forall f, g :: f in figures && g in figures && f.pid == g.pid && f.mem.GetOr(0) >= QUARTER_GIB ==> f == g
  }

  lemma TroughExists(r: Run, k: nat, e: Event) returns (g: nat)
    requires IsRun(r) && GapTold(r, k, e)
    ensures TroughOf(r, g, k, e)
  {
    hide StepAt, Emitted, NoHangIn, Mean, StayedAttached, UtilSum, GapHolders, Listed;
    GapSound(r, k, e);
    g :| GapSpan(r, g, k) && GapReport(r, g, k, e);
  }

  // The narrated holder was listed from the gap's first tick to its last, and on the first with
  // the printed amount.
  lemma HolderStays(r: Run, g: nat, k: nat, e: Event)
    requires Shaped(r) && k < |r.ticks| && TroughOf(r, g, k, e)
    ensures g <= k && forall j :: g <= j <= k ==> r.ticks[j].procs.Some? && e.pid in Listed(r.ticks[j])
    ensures Listed(r.ticks[g])[e.pid].mem == Some(e.holderMem) && e.holderMem >= QUARTER_GIB
  {
    hide Listed, Mean, UtilSum, NoHangIn;
    assert StayedAttached(r, g, k + 1, e.pid);
  }

  lemma SteadyGapIsTrue(r: Run, k: nat, e: Event, figures: iset<Figure>, c: Claim)
    requires IsRun(r) && GapTold(r, k, e) && FiguresWithin(r, figures) && HoldersSteady(figures)
    ensures GapTrueToItsWord(r, k, e, c)
  {
    hide StepAt, Listed, Emitted, TroughOf;
    var g := TroughExists(r, k, e);
    HolderStays(r, g, k, e);
    var first := Figure(e.pid, Some(e.holderMem));
    assert first in figures;
    forall j: nat | g <= j <= k ensures ListedWith(r.ticks[j], e.pid, e.holderMem, c) {
      assert Figure(e.pid, Listed(r.ticks[j])[e.pid].mem) == first;
    }
    assert HeldThroughout(r, g, k, e.pid, e.holderMem, c);
  }

  // However the amount is read, the sentence of every narrated gap is true if and only if no
  // process that can be its holder is ever listed with another figure.
  lemma GapAlwaysTrueIff(figures: iset<Figure>, c: Claim)
    ensures GapAlwaysTrue(figures, c) <==> HoldersSteady(figures)
  {
    hide StepAt, GapTrueToItsWord, FiguresWithin, Emitted;
    if HoldersSteady(figures) {
      forall r: Run, k: nat, e: Event | IsRun(r) && FiguresWithin(r, figures) && GapTold(r, k, e) ensures GapTrueToItsWord(r, k, e, c) {
        SteadyGapIsTrue(r, k, e, figures, c);
      }
    } else {
      var f, g :| f in figures && g in figures && f.pid == g.pid && f.mem.GetOr(0) >= QUARTER_GIB && f != g;
      if g.mem.Some? && g.mem.value > f.mem.value {
        LessBreaks(figures, f.pid, g.mem.value, f.mem, c);
      } else {
        LessBreaks(figures, f.pid, f.mem.value, g.mem, c);
      }
    }
  }

  lemma LessBreaks(figures: iset<Figure>, pid: nat, from: nat, to: Option<nat>, c: Claim)
    requires from >= QUARTER_GIB && (to.Some? ==> to.value < from)
    requires Figure(pid, Some(from)) in figures && Figure(pid, to) in figures
    ensures !GapAlwaysTrue(figures, c)
  {
    hide StepAt, GapTrueToItsWord, FiguresWithin, Emitted;
    HolderMayShrink(pid, from, to, c);
    ShrinkingGapWithin(pid, from, to, figures);
    assert GapTold(ShrinkingGap(pid, from, to), 3, GapOf(pid, from));
  }

  // ---- a holder that gives its memory back ----

  // The process works for itself, so no hang is ever suspected of it.
  function At(pid: nat, mem: Option<nat>): seq<ProcessSample> {
    [Holder(pid, mem, Some(90.0))]
  }

  function AtMap(pid: nat, mem: Option<nat>): map<nat, ProcessSample> {
    map[pid := Holder(pid, mem, Some(90.0))]
  }

  function BusyAt(ts: nat, pid: nat, mem: Option<nat>): Tick {
    Sighted(ts, Some(90.0), At(pid, mem))
  }

  function BusyIn(ts: nat, pid: nat, mem: Option<nat>, since: nat, eligible: bool): DeviceState {
    Still(Reading(ts, Some(90.0)), AtMap(pid, mem), IdleState(Some(since), eligible, None), None)
  }

  function GapIn(pid: nat, mem: nat): DeviceState {
    Still(Reading(40_000, Some(0.0)), AtMap(pid, Some(mem)),
          IdleState(None, true, Some(IdleGap(40_000, 90.0, 0.0, 1, map[pid := mem], false))), None)
  }

  function GapOf(pid: nat, mem: nat): Event {
    IdleGapSeen(50_000, 40_000, pid, mem, 90.0, Mean(0.0, 1))
  }

  // Busy for thirty seconds, at 0% for ten, and busy again; on that last tick the process is
  // listed with another figure.
  function ShrinkingGap(pid: nat, from: nat, to: Option<nat>): Run {
    var m: Option<nat> := Some(from);
    Run([BusyAt(0, pid, m), BusyAt(30_000, pid, m), Sighted(40_000, Some(0.0), At(pid, m)), BusyAt(50_000, pid, to)],
        [INITIAL, BusyIn(0, pid, m, 0, false), BusyIn(30_000, pid, m, 0, true), GapIn(pid, from),
         BusyIn(50_000, pid, to, 50_000, false)],
        [Said([], []), Said([], []), Said([], []), Said([], [GapOf(pid, from)])])
  }

  lemma AtCollects(pid: nat, mem: Option<nat>)
    ensures Collect(At(pid, mem)) == AtMap(pid, mem) && AtMap(pid, mem).Keys == {pid}
    ensures !SomeQuietHolder(AtMap(pid, mem))
    ensures mem.GetOr(0) >= QUARTER_GIB ==> GapHolders(AtMap(pid, mem)) == map[pid := mem.GetOr(0)]
    ensures forall m: nat :: Surviving(map[pid := m], AtMap(pid, mem)) == map[pid := m]
  {
    OneCollects(Holder(pid, mem, Some(90.0)));
  }

  lemma BusyAtStep(st: DeviceState, ts: nat, pid: nat, mem: Option<nat>)
    requires Quiescent(st, {pid}) && st.idle.gap.None?
    ensures var since := st.idle.activeSince.GetOr(ts);
      Step(st, BusyAt(ts, pid, mem), BusyIn(ts, pid, mem, since, st.idle.eligible || SatSub(ts, since) >= 30_000), Said([], []))
  {
    AtCollects(pid, mem);
    hide Collect, Step, AtMap, SomeQuietHolder, GapHolders, Surviving;
    var since := st.idle.activeSince.GetOr(ts);
    SightedStep(st, ts, Some(90.0), At(pid, mem), IdleState(Some(since), st.idle.eligible || SatSub(ts, since) >= 30_000, None),
                None, [], []);
  }

  lemma GapOpensStep(pid: nat, mem: nat)
    requires mem >= QUARTER_GIB
    ensures Step(BusyIn(30_000, pid, Some(mem), 0, true), Sighted(40_000, Some(0.0), At(pid, Some(mem))), GapIn(pid, mem), Said([], []))
  {
    AtCollects(pid, Some(mem));
    hide Collect, Step, AtMap, SomeQuietHolder, GapHolders, Surviving;
    SightedStep(BusyIn(30_000, pid, Some(mem), 0, true), 40_000, Some(0.0), At(pid, Some(mem)), GapIn(pid, mem).idle, None, [], []);
  }

  lemma GapClosesStep(pid: nat, from: nat, to: Option<nat>)
    ensures Step(GapIn(pid, from), BusyAt(50_000, pid, to), BusyIn(50_000, pid, to, 50_000, false), Said([], [GapOf(pid, from)]))
  {
    AtCollects(pid, to);
    AtCollects(pid, Some(from));
    var holders: map<nat, nat> := map[pid := from];
    assert LargestHolder(holders, pid) && holders != map[];
    hide Collect, Step, AtMap, SomeQuietHolder, GapHolders, Surviving, Mean;
    SightedStep(GapIn(pid, from), 50_000, Some(90.0), At(pid, to), IdleState(Some(50_000), false, None), None, [], [GapOf(pid, from)]);
  }

  lemma ShrinkingGapIsRun(pid: nat, from: nat, to: Option<nat>)
    requires from >= QUARTER_GIB
    ensures IsRun(ShrinkingGap(pid, from, to)) && GapTold(ShrinkingGap(pid, from, to), 3, GapOf(pid, from))
  {
    hide Step, Mean, At;
    var r := ShrinkingGap(pid, from, to);
    BusyAtStep(INITIAL, 0, pid, Some(from));
    BusyAtStep(r.states[1], 30_000, pid, Some(from));
    GapOpensStep(pid, from);
    GapClosesStep(pid, from, to);
    assert StepAt(r, 0) && StepAt(r, 1) && StepAt(r, 2) && StepAt(r, 3);
    assert r.outs[3].All() == [GapOf(pid, from)];
  }

  lemma ListedAt(ts: nat, util: Option<real>, pid: nat, mem: Option<nat>)
    ensures Listed(Sighted(ts, util, At(pid, mem))) == map[pid := Holder(pid, mem, Some(90.0))]
  {
    AtCollects(pid, mem);
  }

  // For any process, any amount and any smaller figure, or none, a run narrates the amount as
  // held for the whole gap, although the process ends it listed with the other.
  lemma HolderMayShrink(pid: nat, from: nat, to: Option<nat>, c: Claim)
    requires from >= QUARTER_GIB && (to.Some? ==> to.value < from)
    ensures var (r, e) := (ShrinkingGap(pid, from, to), GapOf(pid, from));
      IsRun(r) && GapTold(r, 3, e) && !GapTrueToItsWord(r, 3, e, c)
  {
    ShrinkingGapIsRun(pid, from, to);
    ListedAt(50_000, Some(90.0), pid, to);
    hide StepAt, Mean, Collect, GapReport, GapOpensAt, TroughTick, NoHangIn, Emitted, At;
    var r, e := ShrinkingGap(pid, from, to), GapOf(pid, from);
    forall g: nat | TroughOf(r, g, 3, e) ensures !HeldThroughout(r, g, 3, pid, from, c) {
      assert !ListedWith(r.ticks[3], pid, from, c);
    }
  }

  lemma ShrinkingGapWithin(pid: nat, from: nat, to: Option<nat>, figures: iset<Figure>)
    requires Figure(pid, Some(from)) in figures && Figure(pid, to) in figures
    ensures FiguresWithin(ShrinkingGap(pid, from, to), figures)
  {
    var r := ShrinkingGap(pid, from, to);
    forall j: nat, p: nat | j < |r.ticks| && p in Listed(r.ticks[j]) ensures Figure(p, Listed(r.ticks[j])[p].mem) in figures {
      ListedAt(Ts(r, j), r.ticks[j].sample.util, pid, if j == 3 then to else Some(from));
    }
  }
}
