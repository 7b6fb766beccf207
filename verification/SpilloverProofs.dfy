/** What a `CpuSpillover` event says about its run (crates/core/src/events.rs:642-748). */
module SpilloverProofs {
  import opened Base
  import opened Telemetry
  import opened Narration
  import opened HangProofs
  import opened ProcessProofs

  // ---- what a window over ticks s..k-1 observed ----

  function UtilCount(r: Run, s: nat, k: nat): nat
    requires s <= k <= |r.ticks|
  {
    if s == k then 0 else UtilCount(r, s, k - 1) + (if r.ticks[k - 1].sample.util.Some? then 1 else 0)
  }

  function CpuOf(t: Tick, p: nat): Option<real> {
    if t.procs.Some? && p in Listed(t) then Listed(t)[p].cpu else None
  }

  function CpuSum(r: Run, s: nat, k: nat, p: nat): real
    requires s <= k <= |r.ticks|
  {
    if s == k then 0.0 else CpuSum(r, s, k - 1, p) + CpuOf(r.ticks[k - 1], p).GetOr(0.0)
  }

  function CpuCount(r: Run, s: nat, k: nat, p: nat): nat
    requires s <= k <= |r.ticks|
  {
    if s == k then 0 else CpuCount(r, s, k - 1, p) + (if CpuOf(r.ticks[k - 1], p).Some? then 1 else 0)
  }

  // A tick that keeps an assessment of `p` alive: list read, `p` listed, device not seen at 30% or
  // more.
  ghost predicate WatchedTick(t: Tick, p: nat) {
    t.procs.Some? && p in Listed(t) && !(t.sample.util.Some? && t.sample.util.value >= 30.0)
  }

  ghost predicate WindowOver(r: Run, s: nat, j: nat)
    requires s < |r.ticks| && j < |r.ticks|
  {
    Ts(r, j) >= Ts(r, s) + 90_000
  }

  // `p` newly attached at tick s with at least 2 GiB, after a list had been read before.
  ghost predicate LoadsAt(r: Run, s: nat, p: nat)
    requires s < |r.ticks|
  {
    && WatchedTick(r.ticks[s], p)
    && LastSeen(r.ticks, s).Some? && p !in LastSeen(r.ticks, s).value
    && Listed(r.ticks[s])[p].mem.GetOr(0) >= 2_147_483_648
  }

  // The assessment a window over ticks s..k-1 amounts to.
  function WindowOf(r: Run, s: nat, k: nat, p: nat): Spillover
    requires s < k <= |r.ticks| && r.ticks[s].procs.Some? && p in Listed(r.ticks[s])
  {
    Spillover(Listed(r.ticks[s])[p].mem.GetOr(0), Ts(r, s), UtilSum(r, s, k), UtilCount(r, s, k),
              CpuSum(r, s, k, p), CpuCount(r, s, k, p), k - s)
  }

  // `p` loaded at s and every tick since has been watched without the window elapsing.
  ghost predicate WatchedSince(r: Run, s: nat, k: nat, p: nat)
    requires k <= |r.ticks|
  {
    && s < k && LoadsAt(r, s, p)
    && (forall j :: s <= j < k ==> WatchedTick(r.ticks[j], p) && !WindowOver(r, s, j))
  }

  // The assessment of `p` open before tick k, if any, is the window since `p` loaded.
  ghost predicate OpenWindow(r: Run, s: nat, k: nat, p: nat)
    requires Shaped(r) && k <= |r.ticks|
  {
    && WatchedSince(r, s, k, p) && p in r.states[k].spill && r.states[k].spill[p] == WindowOf(r, s, k, p)
  }

  lemma SpillAt(r: Run, k: nat)
    requires IsRun(r) && k < |r.ticks|
    ensures r.ticks[k].procs.None? ==> r.states[k + 1].spill == map[] && r.outs[k].spill == []
    ensures r.ticks[k].procs.Some? ==>
      SpillStep(r.states[k].procs, r.states[k].spill, r.ticks[k].sample, Listed(r.ticks[k]),
                r.states[k + 1].spill, r.outs[k].spill)
  {
    hide SpillStep, IdleStep, ProcessStep, VramStep, HangStep;
    assert StepAt(r, k);
  }

  // Only processes on the last readable list are ever under assessment.
  lemma {:induction false} AssessedAreListed(r: Run, k: nat, p: nat)
    requires IsRun(r) && k <= |r.ticks| && p in r.states[k].spill
    ensures LastSeen(r.ticks, k).Some? && p in LastSeen(r.ticks, k).value
  {
    hide Listed, SpillTick, SpillConvicts;
    if k > 0 {
      SpillAt(r, k - 1);
    }
  }

  // The assessment tick k makes of `p`: the open one continued, or a new one.
  lemma AssessmentAt(r: Run, k: nat, p: nat)
    requires IsRun(r) && k < |r.ticks| && r.ticks[k].procs.Some?
    ensures var now := Listed(r.ticks[k]);
      var assessed := Assessed(WithOpened(r.states[k].procs, r.states[k].spill, Ts(r, k), now), r.ticks[k].sample, now);
      && (p in assessed <==> WatchedTick(r.ticks[k], p) && (p in r.states[k].spill || LoadsAt(r, k, p)))
      && (p in assessed && p in r.states[k].spill ==> assessed[p] == SpillTick(r.states[k].spill[p], r.ticks[k].sample, now[p]))
      && (p in assessed && p !in r.states[k].spill ==>
            assessed[p] == SpillTick(Spillover(now[p].mem.GetOr(0), Ts(r, k), 0.0, 0, 0.0, 0, 0), r.ticks[k].sample, now[p]))
  {
    hide Listed, SpillTick, SpillConvicts;
    KeepsLastSeen(r, k);
    if p in r.states[k].spill {
      AssessedAreListed(r, k, p);
    }
  }

  lemma FirstTick(r: Run, s: nat, p: nat)
    requires s < |r.ticks| && r.ticks[s].procs.Some? && p in Listed(r.ticks[s])
    ensures SpillTick(Spillover(Listed(r.ticks[s])[p].mem.GetOr(0), Ts(r, s), 0.0, 0, 0.0, 0, 0),
                      r.ticks[s].sample, Listed(r.ticks[s])[p]) == WindowOf(r, s, s + 1, p)
  {
    hide Listed;
    assert UtilSum(r, s, s) == 0.0 && UtilCount(r, s, s) == 0 && CpuSum(r, s, s, p) == 0.0 && CpuCount(r, s, s, p) == 0;
  }

  lemma NextTick(r: Run, s: nat, k: nat, p: nat)
    requires s < k < |r.ticks| && r.ticks[s].procs.Some? && p in Listed(r.ticks[s])
    requires r.ticks[k].procs.Some? && p in Listed(r.ticks[k])
    ensures SpillTick(WindowOf(r, s, k, p), r.ticks[k].sample, Listed(r.ticks[k])[p]) == WindowOf(r, s, k + 1, p)
  {
    hide Listed;
  }

  // One tick of an assessment that has been watched since s (s == k when `p` loads just now).
  lemma WindowStep(r: Run, s: nat, k: nat, p: nat)
    requires IsRun(r) && k < |r.ticks| && s <= k && WatchedTick(r.ticks[k], p)
    requires if s == k then LoadsAt(r, k, p) else OpenWindow(r, s, k, p)
    ensures !WindowOver(r, s, k) ==> OpenWindow(r, s, k + 1, p)
    ensures WindowOver(r, s, k) ==> p !in r.states[k + 1].spill
    ensures forall e :: e in r.outs[k].spill && e.CpuSpillover? && e.pid == p ==>
      e == SpillEvent(p, WindowOf(r, s, k + 1, p), Ts(r, k))
    ensures WindowOver(r, s, k) && SpillConvicts(WindowOf(r, s, k + 1, p)) <==>
      SpillEvent(p, WindowOf(r, s, k + 1, p), Ts(r, k)) in r.outs[k].spill
  {
    hide Listed, SpillTick, SpillConvicts, Mean, WithOpened, WindowOf;
    SpillAt(r, k);
    AssessmentAt(r, k, p);
    if s == k {
      FirstTick(r, k, p);
      if p in r.states[k].spill {
        AssessedAreListed(r, k, p);
      }
    } else {
      NextTick(r, s, k, p);
    }
    WindowStart(r, s, k + 1, p);
    WindowEvents(r, k, p);
  }

  lemma WindowStart(r: Run, s: nat, k: nat, p: nat)
    requires s < k <= |r.ticks| && r.ticks[s].procs.Some? && p in Listed(r.ticks[s])
    ensures WindowOf(r, s, k, p).startTs == Ts(r, s)
  {
  }

  // The spillover events of a tick that name `p`.
  lemma WindowEvents(r: Run, k: nat, p: nat)
    requires IsRun(r) && k < |r.ticks| && r.ticks[k].procs.Some?
    ensures var now := Listed(r.ticks[k]);
      var assessed := Assessed(WithOpened(r.states[k].procs, r.states[k].spill, Ts(r, k), now), r.ticks[k].sample, now);
      forall e :: e in r.outs[k].spill && e.CpuSpillover? && e.pid == p <==>
        (p in assessed && SpillClosed(assessed[p], Ts(r, k)) && SpillConvicts(assessed[p]) && e == SpillEvent(p, assessed[p], Ts(r, k)))
  {
    hide Listed, SpillTick, SpillConvicts, Mean, WithOpened, Assessed;
    SpillAt(r, k);
  }

  // Every open assessment is the window since its process loaded.
  lemma {:induction false} WindowHistory(r: Run, k: nat, p: nat)
    requires IsRun(r) && k <= |r.ticks| && p in r.states[k].spill
    ensures exists s :: OpenWindow(r, s, k, p)
  {
    hide Listed, SpillTick, SpillConvicts, WithOpened, Assessed, WindowOf;
    if k > 0 {
      SpillAt(r, k - 1);
      AssessmentAt(r, k - 1, p);
      if p in r.states[k - 1].spill {
        WindowHistory(r, k - 1, p);
        var s :| OpenWindow(r, s, k - 1, p);
        WindowStep(r, s, k - 1, p);
      } else {
        WindowStep(r, k - 1, k - 1, p);
      }
    }
  }

  lemma {:induction false} WindowPersists(r: Run, s: nat, k: nat, p: nat)
    requires IsRun(r) && k <= |r.ticks| && WatchedSince(r, s, k, p)
    ensures OpenWindow(r, s, k, p)
  {
    hide Listed, WindowOf, SpillConvicts;
    if k == s + 1 {
      WindowStep(r, s, s, p);
    } else {
      WindowPersists(r, s, k - 1, p);
      WindowStep(r, s, k - 1, p);
    }
  }

  // What ticks s..k-1 must have shown: device utilisation on at least half of them, with a mean
  // under 15%, and three CPU figures of the process or more, with a mean of 150% or more.
  predicate Convicts(r: Run, s: nat, k: nat, p: nat)
    requires s <= k <= |r.ticks|
  {
    && UtilCount(r, s, k) > 0 && 2 * UtilCount(r, s, k) >= k - s
    && UtilSum(r, s, k) < 15.0 * UtilCount(r, s, k) as real
    && CpuCount(r, s, k, p) >= 3
    && CpuSum(r, s, k, p) >= 150.0 * CpuCount(r, s, k, p) as real
  }

  // The spillover of such a window prints its figures.
  function SpillFigures(r: Run, s: nat, k: nat, p: nat): Event
    requires s < k < |r.ticks| && r.ticks[s].procs.Some? && p in Listed(r.ticks[s])
  {
    CpuSpillover(Ts(r, k), Ts(r, s), p, Listed(r.ticks[s])[p].mem.GetOr(0),
                 Mean(UtilSum(r, s, k + 1), UtilCount(r, s, k + 1)), Mean(CpuSum(r, s, k + 1, p), CpuCount(r, s, k + 1, p)),
                 CpuCount(r, s, k + 1, p))
  }

  lemma PrintsFigures(r: Run, s: nat, k: nat, p: nat)
    requires s < k < |r.ticks| && r.ticks[s].procs.Some? && p in Listed(r.ticks[s])
    ensures SpillEvent(p, WindowOf(r, s, k + 1, p), Ts(r, k)) == SpillFigures(r, s, k, p)
  {
    hide Listed, Mean;
  }

  lemma MeanBounds(sum: real, n: nat, c: real)
    requires n > 0
    ensures Mean(sum, n) < c <==> sum < c * n as real
  {
    MeanTimes(sum, n);
    if Mean(sum, n) < c {
      assert (c - Mean(sum, n)) * n as real > 0.0;
    } else {
      assert (Mean(sum, n) - c) * n as real >= 0.0;
    }
  }

  // The engine convicts exactly on those figures.
  lemma ConvictionFigures(r: Run, s: nat, k: nat, p: nat)
    requires s < k <= |r.ticks| && r.ticks[s].procs.Some? && p in Listed(r.ticks[s])
    ensures SpillConvicts(WindowOf(r, s, k, p)) <==> Convicts(r, s, k, p)
  {
    hide Listed, Mean;
    var w := WindowOf(r, s, k, p);
    if w.utilN > 0 && w.cpuN > 0 {
      MeanBounds(w.utilSum, w.utilN, 15.0);
      MeanBounds(w.cpuSum, w.cpuN, 150.0);
    }
  }

  // The window a spillover narrated at tick k stands for: `p` loaded at s, every tick to k was
  // watched, k is the first of them at least 90 s after s, and the observations convict.
  ghost predicate SpillSpan(r: Run, s: nat, k: nat, p: nat)
    requires Shaped(r) && k < |r.ticks|
  {
    && WatchedSince(r, s, k, p) && WatchedTick(r.ticks[k], p) && WindowOver(r, s, k)
    && Convicts(r, s, k + 1, p)
  }

  ghost predicate SpillReport(r: Run, s: nat, k: nat, e: Event)
    requires Shaped(r) && k < |r.ticks|
  {
    && e.CpuSpillover? && SpillSpan(r, s, k, e.pid)
    && e == SpillFigures(r, s, k, e.pid)
    && Attaches(r, s, e.pid)
    && (forall j :: s <= j <= k ==> !Exits(r, j, e.pid))
  }

  // Soundness: every narrated spillover has such a window, and its process attached at the
  // window's first tick and was not seen to exit up to tick k.
  lemma SpilloverSound(r: Run, k: nat, e: Event)
    requires IsRun(r) && k < |r.ticks| && e in Emitted(r, k) && e.CpuSpillover?
    ensures exists s: nat :: SpillReport(r, s, k, e)
  {
    hide Listed, WindowOf, SpillConvicts, WithOpened, Assessed, SpillFigures, Convicts;
    var p := e.pid;
    EventSlots(r, k, e);
    SpillAt(r, k);
    WindowEvents(r, k, p);
    AssessmentAt(r, k, p);
    var s: nat;
    if p in r.states[k].spill {
      WindowHistory(r, k, p);
      s :| OpenWindow(r, s, k, p);
    } else {
      s := k;
    }
    WindowStep(r, s, k, p);
    assert s < k;
    ConvictionFigures(r, s, k + 1, p);
    PrintsFigures(r, s, k, p);
    NarratesTheDifference(r, s, p);
    forall j | s <= j <= k ensures !Exits(r, j, p) {
      NarratesTheDifference(r, j, p);
    }
    assert SpillReport(r, s, k, e);
  }

  // Completeness: every such window is narrated at its closing tick.
  lemma SpilloverComplete(r: Run, s: nat, k: nat, p: nat)
    requires IsRun(r) && k < |r.ticks| && SpillSpan(r, s, k, p)
    ensures SpillFigures(r, s, k, p) in Emitted(r, k)
  {
    hide Listed, WindowOf, SpillConvicts, SpillFigures, Convicts;
    ConvictionFigures(r, s, k + 1, p);
    PrintsFigures(r, s, k, p);
    WindowPersists(r, s, k, p);
    WindowStep(r, s, k, p);
  }

  // At most one spillover per attachment: between two for the same pid lies a new attach.
  lemma OneSpilloverPerAttachment(r: Run, k1: nat, e1: Event, k2: nat, e2: Event)
    requires IsRun(r) && k1 < k2 < |r.ticks|
    requires e1 in Emitted(r, k1) && e1.CpuSpillover? && e2 in Emitted(r, k2) && e2.CpuSpillover?
    requires e1.pid == e2.pid
    ensures exists s :: k1 < s < k2 && Attaches(r, s, e1.pid)
  {
    hide Listed, Convicts, SpillFigures;
    var p := e1.pid;
    SpilloverSound(r, k1, e1);
    SpilloverSound(r, k2, e2);
    var s1: nat :| SpillReport(r, s1, k1, e1);
    var s2: nat :| SpillReport(r, s2, k2, e2);
    if s1 < s2 <= k1 {
      NoReload(r, s1, s2, p);
    } else if s2 < s1 {
      NoReload(r, s2, s1, p);
    }
  }

  // A process listed on the tick before cannot load now.
  lemma NoReload(r: Run, s: nat, j: nat, p: nat)
    requires j < |r.ticks| && WatchedSince(r, s, j, p)
    ensures !LoadsAt(r, j, p)
  {
    assert WatchedTick(r.ticks[j - 1], p);
  }
}
