/** What a narrated hang says about its anchor (crates/core/src/events.rs:545-629): it "held"
    the printed amount "throughout while its own engine activity stayed flat". The amount is the
    one it held when the episode opened; afterwards the code only asks that some process is a
    quiet holder and that the anchor is still listed. So the text can be false in two ways, and
    can be relied on exactly where there is never more than one quiet holding to speak of.
    "Flat" is read as the source reads it: at 2% or less, or not reported at all. */
module HangAnchor {
  import opened Base
  import opened Telemetry
  import opened Narration
  import opened HangProofs
  import opened Scenes

  // ---- the sentence ----

  type Amount = n: nat | n >= GIB witness GIB

  // A process holding an amount of at least a gibibyte without engine activity of its own.
  datatype Holding = Holding(pid: nat, mem: Amount)

  // Process `pid` is listed, holds at least a gibibyte and shows no engine activity of its own.
  ghost predicate HoldsQuietly(t: Tick, pid: nat) {
    t.procs.Some? && pid in Listed(t) && HoldsStill(Listed(t)[pid])
  }

  ghost function HoldingOf(t: Tick, pid: nat): Holding
    requires HoldsQuietly(t, pid)
  {
    Holding(pid, Listed(t)[pid].mem.GetOr(0))
  }

  // The sentence, for the span s..k: on every tick the anchor was a quiet holder of the printed
  // amount.
  ghost predicate EvidenceTrue(r: Run, s: nat, k: nat, pid: nat, printed: nat, c: Claim)
    requires s <= k < |r.ticks|
  {
    forall j :: s <= j <= k ==> HoldsQuietly(r.ticks[j], pid) && Bears(c, printed, HoldingOf(r.ticks[j], pid).mem)
  }

  ghost predicate SpanOf(r: Run, s: nat, k: nat, e: Event)
    requires Shaped(r) && k < |r.ticks| && e.HangSuspected?
  {
    HangSpan(r, s, k, e.pid) && e == Report(r, s, k, e.pid)
  }

  // The span the hang stands for bears its sentence out.
  ghost predicate TrueToItsWord(r: Run, k: nat, e: Event, c: Claim)
    requires Shaped(r) && k < |r.ticks| && e.HangSuspected?
  {
    exists s: nat :: SpanOf(r, s, k, e) && EvidenceTrue(r, s, k, e.pid, e.holderMem, c)
  }

  // ---- where it is true ----

  // Every quiet holding of a gibibyte or more that ever shows is one of these.
  ghost predicate QuietWithin(r: Run, holdings: iset<Holding>) {
    forall j: nat, p: nat :: j < |r.ticks| && HoldsQuietly(r.ticks[j], p) ==> HoldingOf(r.ticks[j], p) in holdings
  }

  predicate Told(r: Run, k: nat, e: Event) {
    Shaped(r) && k < |r.ticks| && e.HangSuspected? && e in Emitted(r, k)
  }

  // On a device whose quiet holdings are among these, no narrated hang is untrue.
  ghost predicate EvidenceAlwaysTrue(holdings: iset<Holding>, c: Claim) {
    forall r: Run, k: nat, e: Event :: IsRun(r) && QuietWithin(r, holdings) && Told(r, k, e) ==> TrueToItsWord(r, k, e, c)
  }

  ghost predicate AtMostOne(holdings: iset<Holding>) {
    forall g, h :: g in holdings && h in holdings ==> g == h
  }

  lemma SomeoneQuiet(t: Tick, pid: nat)
    requires DeadTick(t, pid)
    ensures exists q: nat :: HoldsQuietly(t, q)
  {
    var now := Listed(t);
    var q :| q in now && HoldsStill(now[q]);
    assert HoldsQuietly(t, q);
  }

  // The printed amount is what the anchor held, quietly, on the span's first tick.
  lemma OpensQuiet(r: Run, s: nat, k: nat, e: Event)
    requires Shaped(r) && k < |r.ticks| && e.HangSuspected? && SpanOf(r, s, k, e)
    ensures HoldsQuietly(r.ticks[s], e.pid) && HoldingOf(r.ticks[s], e.pid).mem == e.holderMem
  {
    hide Mean, Listed;
  }

  lemma SpanExists(r: Run, k: nat, e: Event) returns (s: nat)
    requires IsRun(r) && Told(r, k, e)
    ensures SpanOf(r, s, k, e)
  {
    hide StepAt, Emitted, Mean, Listed, LargestQuietHolder, SomeQuietHolder;
    HangSound(r, k, e);
    s :| HangSpan(r, s, k, e.pid) && e == Report(r, s, k, e.pid);
  }

  // Where no process but the anchor ever holds a gibibyte quietly, the anchor stays such a
  // holder throughout, whatever amounts it goes through.
  lemma SoleHolderStaysQuiet(r: Run, k: nat, e: Event)
    requires IsRun(r) && Told(r, k, e)
    requires forall j: nat, q: nat :: j <= k && q != e.pid ==> !HoldsQuietly(r.ticks[j], q)
    ensures exists s: nat :: SpanOf(r, s, k, e) && forall j :: s <= j <= k ==> HoldsQuietly(r.ticks[j], e.pid)
  {
    hide HoldsQuietly, StepAt, DeadTick, OpensAt, Report, Emitted;
    var s := SpanExists(r, k, e);
    forall j: nat | s <= j <= k ensures HoldsQuietly(r.ticks[j], e.pid) {
      SomeoneQuiet(r.ticks[j], e.pid);
    }
  }

  // With one quiet holding at most, that is the one printed, and it is there on every tick.
  lemma SoleHoldingHangIsTrue(r: Run, k: nat, e: Event, holdings: iset<Holding>, c: Claim)
    requires IsRun(r) && Told(r, k, e) && QuietWithin(r, holdings) && AtMostOne(holdings)
    ensures TrueToItsWord(r, k, e, c)
  {
    hide HoldsQuietly, StepAt, DeadTick, OpensAt, Report, Emitted, HoldingOf;
    var s := SpanExists(r, k, e);
    OpensQuiet(r, s, k, e);
    forall j: nat | s <= j <= k ensures HoldsQuietly(r.ticks[j], e.pid) && HoldingOf(r.ticks[j], e.pid).mem == e.holderMem {
      SomeoneQuiet(r.ticks[j], e.pid);
      var q: nat :| HoldsQuietly(r.ticks[j], q);
      assert HoldingOf(r.ticks[j], q) == HoldingOf(r.ticks[s], e.pid);
      SamePid(r.ticks[j], q, r.ticks[s], e.pid);
    }
    assert EvidenceTrue(r, s, k, e.pid, e.holderMem, c);
  }

  lemma SamePid(t: Tick, p: nat, u: Tick, q: nat)
    requires HoldsQuietly(t, p) && HoldsQuietly(u, q) && HoldingOf(t, p) == HoldingOf(u, q)
    ensures p == q
  {
  }

  // However the amount is read, the sentence of every narrated hang is true if and only if at
  // most one quiet holding can ever show on the device.
  lemma EvidenceAlwaysTrueIff(holdings: iset<Holding>, c: Claim)
    ensures EvidenceAlwaysTrue(holdings, c) <==> AtMostOne(holdings)
  {
    hide StepAt, HoldsQuietly, HoldingOf, TrueToItsWord, QuietWithin, Emitted;
    if AtMostOne(holdings) {
      forall r: Run, k: nat, e: Event | IsRun(r) && QuietWithin(r, holdings) && Told(r, k, e) ensures TrueToItsWord(r, k, e, c) {
        SoleHoldingHangIsTrue(r, k, e, holdings, c);
      }
    } else {
      var g, h :| g in holdings && h in holdings && g != h;
      if g.mem >= h.mem {
        LargerBreaks(holdings, g, h, c);
      } else {
        LargerBreaks(holdings, h, g, c);
      }
    }
  }

  // Of two holdings the larger can be printed of a span that does not bear it out.
  lemma LargerBreaks(holdings: iset<Holding>, g: Holding, h: Holding, c: Claim)
    requires g in holdings && h in holdings && g != h && g.mem >= h.mem
    ensures !EvidenceAlwaysTrue(holdings, c)
  {
    hide StepAt, HoldsQuietly, HoldingOf, TrueToItsWord, QuietWithin, Told;
    if g.pid == h.pid {
      AnchorMayShrink(g.pid, g.mem, h.mem, c);
      ShrinkingWithin(g.pid, g.mem, h.mem, holdings);
      assert Told(ShrinkingRun(g.pid, g.mem, h.mem), 1, HangOf(g, 2));
    } else {
      AnchorMayWake(g, h, c);
      WakingWithin(g, h, holdings);
      assert Told(WakingRun(g, h), 2, HangOf(g, 3));
    }
  }

  // ---- concrete hangs ----

  const NO_ACTIVITY: IdleState := IdleState(None, false, None)

  function FlatTickOf(ts: nat, ps: seq<ProcessSample>): Tick {
    Sighted(ts, Some(0.0), ps)
  }

  function FlatState(ts: nat, now: map<nat, ProcessSample>, hang: Option<HangEpisode>): DeviceState {
    Still(Reading(ts, Some(0.0)), now, NO_ACTIVITY, hang)
  }

  // A device that was never busy derives nothing about idleness.
  lemma FlatStep(st: DeviceState, ts: nat, ps: seq<ProcessSample>, hang: Option<HangEpisode>, out: seq<Event>)
    requires st.idle == NO_ACTIVITY && Quiescent(st, Collect(ps).Keys)
    requires HangStep(Collect(ps), st.hang, Reading(ts, Some(0.0)), hang, out)
    ensures Step(st, FlatTickOf(ts, ps), FlatState(ts, Collect(ps), hang), Said(out, []))
  {
    hide HangStep, Step, Collect;
    SightedStep(st, ts, Some(0.0), ps, NO_ACTIVITY, hang, out, []);
  }

  // The episode that began at time 0 with holding g, after n ticks at 0%.
  function Episode(g: Holding, n: nat, fired: bool): HangEpisode {
    HangEpisode(0, g.pid, g.mem, 0.0, n, fired)
  }

  function HangOf(g: Holding, n: nat): Event {
    HangSuspected(TEN_MINUTES, 0, g.pid, g.mem, Mean(0.0, n))
  }

  // ---- one process that gives memory back ----

  function Alone(pid: nat, mem: Amount): seq<ProcessSample> {
    [Holder(pid, Some(mem), None)]
  }

  function AloneMap(pid: nat, mem: Amount): map<nat, ProcessSample> {
    map[pid := Holder(pid, Some(mem), None)]
  }

  // Two ticks ten minutes apart: the process holds one amount on the first and less on the
  // second.
  function ShrinkingRun(pid: nat, from: Amount, to: Amount): Run {
    var g := Holding(pid, from);
    Run([FlatTickOf(0, Alone(pid, from)), FlatTickOf(TEN_MINUTES, Alone(pid, to))],
        [INITIAL, FlatState(0, AloneMap(pid, from), Some(Episode(g, 1, false))),
         FlatState(TEN_MINUTES, AloneMap(pid, to), Some(Episode(g, 2, true)))],
        [Said([], []), Said([HangOf(g, 2)], [])])
  }

  lemma AloneQuiet(pid: nat, mem: Amount)
    ensures Collect(Alone(pid, mem)) == AloneMap(pid, mem) && AloneMap(pid, mem).Keys == {pid}
    ensures SomeQuietHolder(AloneMap(pid, mem)) && LargestQuietHolder(AloneMap(pid, mem), pid)
  {
    OneCollects(Holder(pid, Some(mem), None));
    assert pid in AloneMap(pid, mem) && QuietHolder(AloneMap(pid, mem)[pid]);
  }

  lemma ShrinkingSteps(pid: nat, from: Amount, to: Amount)
    ensures var g := Holding(pid, from);
      && HangStep(AloneMap(pid, from), None, Reading(0, Some(0.0)), Some(Episode(g, 1, false)), [])
      && HangStep(AloneMap(pid, to), Some(Episode(g, 1, false)), Reading(TEN_MINUTES, Some(0.0)),
                  Some(Episode(g, 2, true)), [HangOf(g, 2)])
  {
    AloneQuiet(pid, from);
    AloneQuiet(pid, to);
    hide SomeQuietHolder, LargestQuietHolder, Mean;
  }

  lemma ShrinkingRunIsRun(pid: nat, from: Amount, to: Amount)
    ensures IsRun(ShrinkingRun(pid, from, to))
  {
    hide Step, HangStep, AloneMap, Alone;
    ShrinkingSteps(pid, from, to);
    AloneQuiet(pid, from);
    AloneQuiet(pid, to);
    var r, g := ShrinkingRun(pid, from, to), Holding(pid, from);
    FlatStep(INITIAL, 0, Alone(pid, from), Some(Episode(g, 1, false)), []);
    FlatStep(r.states[1], TEN_MINUTES, Alone(pid, to), Some(Episode(g, 2, true)), [HangOf(g, 2)]);
    assert StepAt(r, 0) && StepAt(r, 1);
  }

  lemma AloneHolds(pid: nat, ts: nat, mem: Amount, p: nat)
    ensures HoldsQuietly(FlatTickOf(ts, Alone(pid, mem)), p) <==> p == pid
    ensures p == pid ==> HoldingOf(FlatTickOf(ts, Alone(pid, mem)), p) == Holding(pid, mem)
  {
    AloneQuiet(pid, mem);
  }

  // For any process and any two amounts a run narrates the larger as held throughout, although
  // the process ends with the smaller.
  lemma AnchorMayShrink(pid: nat, from: Amount, to: Amount, c: Claim)
    requires to < from
    ensures var r, g := ShrinkingRun(pid, from, to), Holding(pid, from);
      IsRun(r) && Told(r, 1, HangOf(g, 2)) && !TrueToItsWord(r, 1, HangOf(g, 2), c)
  {
    hide StepAt, Mean, Collect, HoldsQuietly, HoldingOf, Report, Alone, AloneMap, DeadTick, OpensAt, LongEnough;
    ShrinkingRunIsRun(pid, from, to);
    AloneHolds(pid, TEN_MINUTES, to, pid);
    var r, g := ShrinkingRun(pid, from, to), Holding(pid, from);
    assert r.outs[1].All() == [HangOf(g, 2)];
    assert Told(r, 1, HangOf(g, 2));
    forall s: nat | s <= 1 ensures !EvidenceTrue(r, s, 1, pid, from, c) {
      assert HoldingOf(r.ticks[1], pid).mem == to;
    }
  }

  lemma ShrinkingWithin(pid: nat, from: Amount, to: Amount, holdings: iset<Holding>)
    requires Holding(pid, from) in holdings && Holding(pid, to) in holdings
    ensures QuietWithin(ShrinkingRun(pid, from, to), holdings)
  {
    forall p: nat
      ensures HoldsQuietly(FlatTickOf(0, Alone(pid, from)), p) ==> HoldingOf(FlatTickOf(0, Alone(pid, from)), p) in holdings
      ensures HoldsQuietly(FlatTickOf(TEN_MINUTES, Alone(pid, to)), p) ==>
        HoldingOf(FlatTickOf(TEN_MINUTES, Alone(pid, to)), p) in holdings
    {
      AloneHolds(pid, 0, from, p);
      AloneHolds(pid, TEN_MINUTES, to, p);
    }
    hide HoldsQuietly, HoldingOf, Alone;
  }

  // ---- an anchor that was at work in the middle ----

  // The anchor with holding g and some activity of its own, and a quiet holding h.
  function Pair(g: Holding, h: Holding, util: Option<real>): seq<ProcessSample> {
    [Holder(g.pid, Some(g.mem), util), Holder(h.pid, Some(h.mem), None)]
  }

  function PairMap(g: Holding, h: Holding, util: Option<real>): map<nat, ProcessSample> {
    map[g.pid := Holder(g.pid, Some(g.mem), util), h.pid := Holder(h.pid, Some(h.mem), None)]
  }

  const AT_WORK: Option<real> := Some(90.0)

  // Three ticks: the larger holder becomes the anchor, works at 90% a millisecond later while
  // the other stays quiet, and is quiet again ten minutes on.
  function WakingRun(g: Holding, h: Holding): Run {
    Run([FlatTickOf(0, Pair(g, h, None)), FlatTickOf(1, Pair(g, h, AT_WORK)), FlatTickOf(TEN_MINUTES, Pair(g, h, None))],
        [INITIAL, FlatState(0, PairMap(g, h, None), Some(Episode(g, 1, false))),
         FlatState(1, PairMap(g, h, AT_WORK), Some(Episode(g, 2, false))),
         FlatState(TEN_MINUTES, PairMap(g, h, None), Some(Episode(g, 3, true)))],
        [Said([], []), Said([], []), Said([HangOf(g, 3)], [])])
  }

  lemma PairQuiet(g: Holding, h: Holding, util: Option<real>)
    requires g.pid != h.pid && g.mem >= h.mem
    ensures Collect(Pair(g, h, util)) == PairMap(g, h, util) && PairMap(g, h, util).Keys == {g.pid, h.pid}
    ensures SomeQuietHolder(PairMap(g, h, util))
    ensures util == None ==> LargestQuietHolder(PairMap(g, h, util), g.pid)
  {
    TwoCollect(Holder(g.pid, Some(g.mem), util), Holder(h.pid, Some(h.mem), None));
    assert h.pid in PairMap(g, h, util) && QuietHolder(PairMap(g, h, util)[h.pid]);
  }

  lemma WakingSteps(g: Holding, h: Holding)
    requires g.pid != h.pid && g.mem >= h.mem
    ensures HangStep(PairMap(g, h, None), None, Reading(0, Some(0.0)), Some(Episode(g, 1, false)), [])
    ensures HangStep(PairMap(g, h, AT_WORK), Some(Episode(g, 1, false)), Reading(1, Some(0.0)), Some(Episode(g, 2, false)), [])
    ensures HangStep(PairMap(g, h, None), Some(Episode(g, 2, false)), Reading(TEN_MINUTES, Some(0.0)),
                     Some(Episode(g, 3, true)), [HangOf(g, 3)])
  {
    PairQuiet(g, h, None);
    PairQuiet(g, h, AT_WORK);
    hide SomeQuietHolder, LargestQuietHolder, Mean, Collect;
  }

  lemma PairStep(g: Holding, h: Holding, st: DeviceState, ts: nat, util: Option<real>, hang: Option<HangEpisode>, out: seq<Event>)
    requires g.pid != h.pid && g.mem >= h.mem && st.idle == NO_ACTIVITY && Quiescent(st, {g.pid, h.pid})
    requires HangStep(PairMap(g, h, util), st.hang, Reading(ts, Some(0.0)), hang, out)
    ensures Step(st, FlatTickOf(ts, Pair(g, h, util)), FlatState(ts, PairMap(g, h, util), hang), Said(out, []))
  {
    hide HangStep, Step, Collect, Pair, PairMap;
    PairQuiet(g, h, util);
    FlatStep(st, ts, Pair(g, h, util), hang, out);
  }

  lemma WakingRunIsRun(g: Holding, h: Holding)
    requires g.pid != h.pid && g.mem >= h.mem
    ensures IsRun(WakingRun(g, h))
  {
    hide Step, HangStep;
    WakingSteps(g, h);
    var r := WakingRun(g, h);
    PairStep(g, h, INITIAL, 0, None, Some(Episode(g, 1, false)), []);
    PairStep(g, h, r.states[1], 1, AT_WORK, Some(Episode(g, 2, false)), []);
    PairStep(g, h, r.states[2], TEN_MINUTES, None, Some(Episode(g, 3, true)), [HangOf(g, 3)]);
    assert StepAt(r, 0) && StepAt(r, 1) && StepAt(r, 2);
  }

  lemma PairHolds(g: Holding, h: Holding, ts: nat, util: Option<real>, p: nat)
    requires g.pid != h.pid && g.mem >= h.mem && (util == None || util == AT_WORK)
    ensures var t := FlatTickOf(ts, Pair(g, h, util));
      && (HoldsQuietly(t, p) <==> p == h.pid || (p == g.pid && util == None))
      && (HoldsQuietly(t, p) ==> HoldingOf(t, p) == if p == g.pid then g else h)
  {
    PairQuiet(g, h, util);
  }

  // For any two processes a run narrates the larger holder as flat throughout, although it was
  // at work in the middle of the span.
  lemma AnchorMayWake(g: Holding, h: Holding, c: Claim)
    requires g.pid != h.pid && g.mem >= h.mem
    ensures var r := WakingRun(g, h);
      IsRun(r) && Told(r, 2, HangOf(g, 3)) && !TrueToItsWord(r, 2, HangOf(g, 3), c)
  {
    hide StepAt, Mean, Collect, HoldsQuietly, HoldingOf, Report, Pair, PairMap, DeadTick, OpensAt, LongEnough;
    WakingRunIsRun(g, h);
    PairHolds(g, h, 1, AT_WORK, g.pid);
    var r := WakingRun(g, h);
    assert r.outs[2].All() == [HangOf(g, 3)];
    assert Told(r, 2, HangOf(g, 3));
    forall s: nat | SpanOf(r, s, 2, HangOf(g, 3)) ensures !EvidenceTrue(r, s, 2, g.pid, g.mem, c) {
      assert s <= 1 && !HoldsQuietly(r.ticks[1], g.pid);
    }
  }

  lemma WakingWithin(g: Holding, h: Holding, holdings: iset<Holding>)
    requires g.pid != h.pid && g.mem >= h.mem && g in holdings && h in holdings
    ensures QuietWithin(WakingRun(g, h), holdings)
  {
    hide HoldsQuietly, HoldingOf, Pair, PairMap;
    var r := WakingRun(g, h);
    forall j: nat, p: nat | j < |r.ticks| && HoldsQuietly(r.ticks[j], p) ensures HoldingOf(r.ticks[j], p) in holdings {
      PairHolds(g, h, Ts(r, j), if j == 1 then AT_WORK else None, p);
    }
  }
}
