/** Which hangs are narrated, told by the ticks of the run alone
    (crates/core/src/events.rs:545-629). */
module HangByTicks {
  import opened Base
  import opened Telemetry
  import opened Narration
  import opened HangProofs

  // The premise of a hang, whoever anchors it: process list read, engines flat, and some quiet
  // process holding at least 1 GiB.
  ghost predicate FlatTick(t: Tick) {
    t.procs.Some? && t.sample.util.Some? && t.sample.util.value <= 2.0 && SomeStill(Listed(t))
  }

  ghost predicate LargestAt(r: Run, s: nat, pid: nat)
    requires s < |r.ticks|
  {
    FlatTick(r.ticks[s]) && LargestStill(Listed(r.ticks[s]), pid)
  }

  // Ticks s..k-1 are flat and list the process.
  ghost predicate FlatWith(r: Run, s: nat, k: nat, pid: nat)
    requires k <= |r.ticks|
  {
    forall j :: s <= j < k ==> FlatTick(r.ticks[j]) && pid in Listed(r.ticks[j])
  }

  lemma FlatIsDead(r: Run, s: nat, k: nat, pid: nat)
    requires k <= |r.ticks|
    ensures FlatWith(r, s, k, pid) <==> forall j :: s <= j < k ==> DeadTick(r.ticks[j], pid)
  {
    hide Listed, SomeStill;
  }

  // The first tick at least ten minutes after tick s.
  predicate FirstLongEnough(r: Run, s: nat, k: nat)
    requires s < |r.ticks| && k < |r.ticks|
  {
    LongEnough(r, s, k) && forall j :: s < j < k ==> !LongEnough(r, s, j)
  }

  lemma NoHangUnlessFlat(r: Run, k: nat)
    requires IsRun(r) && k < |r.ticks| && !FlatTick(r.ticks[k])
    ensures r.outs[k].hang == [] && r.states[k + 1].hang == None
  {
    hide Mean, Listed, SomeStill, LargestStill, SomeQuietHolder, LargestQuietHolder;
    HangAt(r, k);
    if r.ticks[k].procs.Some? {
      StillIsQuiet(Listed(r.ticks[k]));
    }
  }

  ghost predicate EpisodeOpensAt(r: Run, s: nat)
    requires Shaped(r) && s < |r.ticks|
  {
    exists q: nat :: OpensAt(r, s, q)
  }

  // On a flat tick with no episode open one opens.
  lemma FlatOpens(r: Run, s: nat) returns (pid: nat)
    requires IsRun(r) && s < |r.ticks| && FlatTick(r.ticks[s]) && r.states[s].hang.None?
    ensures OpensAt(r, s, pid) && LargestAt(r, s, pid)
  {
    hide Mean, Listed, SomeStill, LargestStill, StepAt;
    EpisodeOpens(r, s);
    pid := r.states[s + 1].hang.value.pid;
  }

  // ---- one stretch ----

  // The flat stretch that tick k belongs to begins at tick a.
  ghost predicate FlatSince(r: Run, a: nat, k: nat)
    requires a <= k < |r.ticks|
  {
    (a == 0 || !FlatTick(r.ticks[a - 1])) && forall j :: a <= j <= k ==> FlatTick(r.ticks[j])
  }

  // No largest quiet holder of its first tick leaves before tick k is over.
  ghost predicate LargestStay(r: Run, a: nat, k: nat)
    requires a <= k < |r.ticks|
  {
    forall p: nat :: LargestAt(r, a, p) ==> FlatWith(r, a, k + 1, p)
  }

  ghost predicate ToldOfLargest(r: Run, a: nat, k: nat)
    requires Shaped(r) && a < k < |r.ticks| && FlatTick(r.ticks[a])
  {
    exists pid: nat :: LargestAt(r, a, pid) && r.outs[k].hang == [Report(r, a, k, pid)]
  }

  // In a flat stretch whose largest quiet holders stay, a hang is narrated of one of them at the
  // first tick at least ten minutes after its beginning, and none at any other.
  lemma HangExactlyAtTenMinutes(r: Run, a: nat, k: nat)
    requires IsRun(r) && a <= k < |r.ticks| && FlatSince(r, a, k) && LargestStay(r, a, k)
    ensures r.outs[k].hang != [] <==> FirstLongEnough(r, a, k)
    ensures r.outs[k].hang != [] ==> a < k && ToldOfLargest(r, a, k)
  {
    hide Mean, Listed, FlatTick, LargestStill, StepAt;
    if a > 0 {
      NoHangUnlessFlat(r, a - 1);
    }
    var pid := FlatOpens(r, a);
    if k == a {
      EpisodeOpens(r, a);
    } else {
      EpisodeTells(r, a, k, pid);
    }
  }

  // While its anchor stays an episode tells its hang exactly once, at ten minutes.
  lemma EpisodeTells(r: Run, s: nat, k: nat, pid: nat)
    requires IsRun(r) && s < k < |r.ticks| && OpensAt(r, s, pid) && FlatWith(r, s, k + 1, pid)
    ensures r.outs[k].hang == if FirstLongEnough(r, s, k) then [Report(r, s, k, pid)] else []
  {
    hide Mean, Listed, SomeStill, LargestStill, StepAt;
    FlatIsDead(r, s, k + 1, pid);
    EpisodePersists(r, s, k, pid);
    EpisodeStep(r, s, k, pid);
  }

  // The list is read, the device is seen at 2% or less, and of the listed processes `pid` alone
  // holds a gibibyte or more with its own engines at 2% or less or not reported.
  ghost predicate SoleStill(t: Tick, pid: nat) {
    && t.procs.Some? && t.sample.util.Some? && t.sample.util.value <= 2.0 && pid in Listed(t)
    && forall q :: q in Listed(t) ==> var p := Listed(t)[q];
         (q == pid <==> p.mem.Some? && p.mem.value >= 1_073_741_824 && (p.util.None? || p.util.value <= 2.0))
  }

  lemma SoleIsLargest(r: Run, j: nat, pid: nat)
    requires j < |r.ticks| && SoleStill(r.ticks[j], pid)
    ensures FlatTick(r.ticks[j]) && pid in Listed(r.ticks[j])
    ensures forall p: nat :: LargestAt(r, j, p) <==> p == pid
  {
    hide Listed;
    assert HoldsStill(Listed(r.ticks[j])[pid]);
  }

  // What the hang of a stretch from tick a to tick k prints: the amount the process began with,
  // and the mean of what the device showed.
  ghost predicate SoleReport(r: Run, a: nat, k: nat, pid: nat, e: Event)
    requires a < k < |r.ticks|
  {
    && e.HangSuspected? && e.ts == Ts(r, k) && e.startTs == Ts(r, a) && e.pid == pid
    && r.ticks[a].procs.Some? && pid in Listed(r.ticks[a]) && Listed(r.ticks[a])[pid].mem == Some(e.holderMem)
    && e.meanUtil * (k + 1 - a) as real == UtilSum(r, a, k + 1)
  }

  // The text's own case: one process sits on its memory while nothing runs, from tick a on. One
  // hang is told, at the first tick 600,000 ms or more after a.
  lemma SoleHolderHangs(r: Run, a: nat, k: nat, pid: nat)
    requires IsRun(r) && a <= k < |r.ticks| && (a == 0 || !FlatTick(r.ticks[a - 1]))
    requires forall j :: a <= j <= k ==> SoleStill(r.ticks[j], pid)
    ensures r.outs[k].hang != [] <==>
      Ts(r, k) >= Ts(r, a) + 600_000 && forall j :: a < j < k ==> Ts(r, j) < Ts(r, a) + 600_000
    ensures r.outs[k].hang != [] ==> a < k && |r.outs[k].hang| == 1 && SoleReport(r, a, k, pid, r.outs[k].hang[0])
  {
    hide Mean, Listed, SomeStill, StepAt, LargestAt, SoleStill;
    forall j: nat | a <= j <= k
      ensures FlatTick(r.ticks[j]) && pid in Listed(r.ticks[j])
    {
      SoleIsLargest(r, j, pid);
    }
    SoleIsLargest(r, a, pid);
    assert FlatWith(r, a, k + 1, pid);
    HangExactlyAtTenMinutes(r, a, k);
    assert forall j: nat :: j < |r.ticks| ==> (LongEnough(r, a, j) <==> Ts(r, j) >= Ts(r, a) + 600_000);
    if r.outs[k].hang != [] {
      var q: nat :| LargestAt(r, a, q) && r.outs[k].hang == [Report(r, a, k, q)];
      SoleFigures(r, a, k, pid);
    }
  }

  lemma SoleFigures(r: Run, a: nat, k: nat, pid: nat)
    requires a < k < |r.ticks| && SoleStill(r.ticks[a], pid)
    ensures SoleReport(r, a, k, pid, Report(r, a, k, pid))
  {
    hide Listed, Mean;
    MeanTimes(UtilSum(r, a, k + 1), k + 1 - a);
  }

  // When its anchor leaves, an episode ends on that tick without a word, however flat the tick
  // is, and the next opens on the following one, if that is flat.
  lemma AnchorLeaves(r: Run, s: nat, k: nat, pid: nat)
    requires IsRun(r) && s < k < |r.ticks| && OpensAt(r, s, pid) && FlatWith(r, s, k, pid)
    requires FlatTick(r.ticks[k]) && pid !in Listed(r.ticks[k])
    ensures r.outs[k].hang == [] && r.states[k + 1].hang == None
    ensures k + 1 < |r.ticks| && FlatTick(r.ticks[k + 1]) ==> EpisodeOpensAt(r, k + 1)
  {
    hide Mean, Listed, SomeStill, LargestStill, StepAt;
    FlatIsDead(r, s, k, pid);
    EpisodePersists(r, s, k, pid);
    EpisodeStep(r, s, k, pid);
    if k + 1 < |r.ticks| && FlatTick(r.ticks[k + 1]) {
      var q := FlatOpens(r, k + 1);
    }
  }

  // ---- whole runs ----

  // A choice of one largest quiet holder on each flat tick; the source leaves it to the order of
  // a hash map.
  ghost predicate IsTieBreak(r: Run, who: seq<nat>) {
    |who| == |r.ticks| && forall s: nat :: s < |r.ticks| && FlatTick(r.ticks[s]) ==> LargestAt(r, s, who[s])
  }

  // An episode anchored to who[s] begins at tick s: the tick is flat, and the tick before is
  // not, or is the one on which the episode before lost its anchor.
  ghost predicate Begins(r: Run, who: seq<nat>, s: nat)
    requires |who| == |r.ticks| && s < |r.ticks|
    decreases s, 0
  {
    FlatTick(r.ticks[s]) && (s == 0 || !FlatTick(r.ticks[s - 1]) || LostOn(r, who, s - 1))
  }

  // Some episode lost its anchor on tick k.
  ghost predicate LostOn(r: Run, who: seq<nat>, k: nat)
    requires |who| == |r.ticks| && k < |r.ticks|
    decreases k, 1
  {
    exists b: nat :: b < k && LostBy(r, who, b, k)
  }

  // The episode that began at b lost its anchor on tick k.
  ghost predicate LostBy(r: Run, who: seq<nat>, b: nat, k: nat)
    requires |who| == |r.ticks| && b < k < |r.ticks|
    decreases b, 1
  {
    Begins(r, who, b) && FlatWith(r, b, k, who[b]) && FlatTick(r.ticks[k]) && who[b] !in Listed(r.ticks[k])
  }

  // Episodes that open at tick s take the holder chosen there.
  ghost predicate Takes(r: Run, who: seq<nat>, s: nat)
    requires Shaped(r) && |who| == |r.ticks| && s < |r.ticks|
  {
    forall q: nat :: OpensAt(r, s, q) ==> q == who[s]
  }

  // The run made these choices.
  ghost predicate Follows(r: Run, who: seq<nat>) {
    Shaped(r) && IsTieBreak(r, who) && forall s: nat :: s < |r.ticks| ==> Takes(r, who, s)
  }

  // Episodes open at tick s exactly as the ticks say.
  ghost predicate OpensAsTold(r: Run, who: seq<nat>, s: nat)
    requires Shaped(r) && |who| == |r.ticks| && s < |r.ticks|
  {
    forall q: nat :: OpensAt(r, s, q) <==> Begins(r, who, s) && q == who[s]
  }

  lemma {:induction false} LargestIn(procs: map<nat, ProcessSample>, todo: set<nat>, best: nat) returns (pid: nat)
    requires best in procs && HoldsStill(procs[best])
    requires forall q :: q in procs && HoldsStill(procs[q]) && q !in todo ==> procs[q].mem.value <= procs[best].mem.value
    ensures LargestStill(procs, pid)
  {
    if todo == {} {
      pid := best;
    } else {
      var q :| q in todo;
      if q in procs && HoldsStill(procs[q]) && procs[q].mem.value > procs[best].mem.value {
        pid := LargestIn(procs, todo - {q}, q);
      } else {
        pid := LargestIn(procs, todo - {q}, best);
      }
    }
  }

  // Every run made some choices.
  lemma ItsTieBreak(r: Run) returns (who: seq<nat>)
    requires IsRun(r)
    ensures Follows(r, who)
  {
    hide Mean, Listed, StepAt, FlatTick;
    who := [];
    while |who| < |r.ticks|
      invariant |who| <= |r.ticks|
      invariant forall s: nat :: s < |who| ==>
        (FlatTick(r.ticks[s]) ==> LargestAt(r, s, who[s])) && forall q: nat :: OpensAt(r, s, q) ==> q == who[s]
    {
      var s, pid := |who|, 0;
      if FlatTick(r.ticks[s]) {
        if r.states[s].hang.None? {
          pid := FlatOpens(r, s);
        } else {
          pid := SomeLargest(r, s);
        }
      } else {
        NoHangUnlessFlat(r, s);
      }
      who := who + [pid];
    }
  }

  lemma SomeLargest(r: Run, s: nat) returns (pid: nat)
    requires s < |r.ticks| && FlatTick(r.ticks[s])
    ensures LargestAt(r, s, pid)
  {
    var procs := Listed(r.ticks[s]);
    var best :| best in procs && HoldsStill(procs[best]);
    pid := LargestIn(procs, procs.Keys, best);
  }

  // Before tick s no episode is open exactly if the tick before is not flat or lost its anchor.
  lemma FreeByTicks(r: Run, who: seq<nat>, s: nat)
    requires IsRun(r) && |who| == |r.ticks| && 0 < s < |r.ticks| && FlatTick(r.ticks[s - 1])
    requires forall b: nat :: b < s ==> OpensAsTold(r, who, b)
    ensures r.states[s].hang.None? <==> LostOn(r, who, s - 1)
  {
    hide Mean, Listed, SomeStill, LargestStill, StepAt, Begins, FlatTick;
    if r.states[s].hang.None? {
      if r.states[s - 1].hang.None? {
        var q := FlatOpens(r, s - 1);
      } else {
        LostFrom(r, who, s - 1);
      }
    } else if LostOn(r, who, s - 1) {
      var b: nat :| b < s - 1 && LostBy(r, who, b, s - 1);
      assert OpensAsTold(r, who, b) && OpensAt(r, b, who[b]);
      AnchorLeaves(r, b, s - 1, who[b]);
    }
  }

  lemma LostFrom(r: Run, who: seq<nat>, k: nat)
    requires IsRun(r) && |who| == |r.ticks| && k < |r.ticks| && FlatTick(r.ticks[k])
    requires r.states[k].hang.Some? && r.states[k + 1].hang.None?
    requires forall b: nat :: b <= k ==> OpensAsTold(r, who, b)
    ensures LostOn(r, who, k)
  {
    hide Mean, Listed, SomeStill, LargestStill, StepAt, Begins;
    EpisodeHistory(r, k);
    var q := r.states[k].hang.value.pid;
    var b: nat :| OpenSince(r, b, k, q);
    FlatIsDead(r, b, k, q);
    EpisodeStep(r, b, k, q);
    assert OpensAsTold(r, who, b);
    assert LostBy(r, who, b, k);
  }

  // Under the choices a run made, episodes open exactly where the ticks say one begins.
  lemma {:induction false} OpensByTicks(r: Run, who: seq<nat>, s: nat)
    requires IsRun(r) && Follows(r, who) && s < |r.ticks|
    ensures OpensAsTold(r, who, s)
    decreases s
  {
    hide Mean, Listed, SomeStill, LargestStill, StepAt, FlatTick, LostOn;
    forall b: nat | b < s ensures OpensAsTold(r, who, b) {
      OpensByTicks(r, who, b);
    }
    if s > 0 {
      if FlatTick(r.ticks[s - 1]) {
        FreeByTicks(r, who, s);
      } else {
        NoHangUnlessFlat(r, s - 1);
      }
    }
    assert Takes(r, who, s);
    forall pid: nat | OpensAt(r, s, pid) ensures LargestAt(r, s, pid) {
      OpeningIsLargest(r, s, pid);
    }
    if FlatTick(r.ticks[s]) && r.states[s].hang.None? {
      var q := FlatOpens(r, s);
    }
  }

  lemma OpeningIsLargest(r: Run, s: nat, pid: nat)
    requires Shaped(r) && s < |r.ticks| && OpensAt(r, s, pid)
    ensures LargestAt(r, s, pid)
  {
  }

  ghost predicate TenFlatMinutes(r: Run, who: seq<nat>, s: nat, k: nat)
    requires |who| == |r.ticks| && k < |r.ticks|
  {
    s < k && Begins(r, who, s) && FlatWith(r, s, k + 1, who[s]) && FirstLongEnough(r, s, k)
  }

  // A hang is narrated at tick k exactly if an episode that begins at some tick s keeps its
  // anchor through ten flat minutes that k is the first to complete, with its figures.
  ghost predicate HangAsTold(r: Run, who: seq<nat>, k: nat)
    requires Shaped(r) && IsTieBreak(r, who) && k < |r.ticks|
  {
    && (r.outs[k].hang != [] <==> exists s: nat :: TenFlatMinutes(r, who, s, k))
    && forall s: nat :: TenFlatMinutes(r, who, s, k) ==>
         s < k && LargestAt(r, s, who[s]) && r.outs[k].hang == [Report(r, s, k, who[s])]
  }

  // In every run, ties or none: there is a choice of one largest quiet holder on each flat tick
  // for which episodes open, and hangs are narrated, exactly where the ticks say.
  lemma HangsByTicks(r: Run) returns (who: seq<nat>)
    requires IsRun(r)
    ensures IsTieBreak(r, who)
    ensures forall s: nat :: s < |r.ticks| ==> OpensAsTold(r, who, s) && HangAsTold(r, who, s)
  {
    hide Mean, Listed, StepAt, FlatTick, LargestAt, OpensAsTold, HangAsTold;
    who := ItsTieBreak(r);
    forall s: nat | s < |r.ticks| ensures OpensAsTold(r, who, s) && HangAsTold(r, who, s) {
      OpensByTicks(r, who, s);
      HangByTheTicks(r, who, s);
    }
  }

  lemma HangByTheTicks(r: Run, who: seq<nat>, k: nat)
    requires IsRun(r) && Follows(r, who) && k < |r.ticks|
    ensures HangAsTold(r, who, k)
  {
    hide Mean, Listed, SomeStill, LargestStill, StepAt, LostOn, Begins;
    forall s: nat | TenFlatMinutes(r, who, s, k)
      ensures s < k && LargestAt(r, s, who[s]) && r.outs[k].hang == [Report(r, s, k, who[s])]
    {
      OpensByTicks(r, who, s);
      assert OpensAt(r, s, who[s]);
      OpeningIsLargest(r, s, who[s]);
      EpisodeTells(r, s, k, who[s]);
    }
    if r.outs[k].hang != [] {
      var s := SpanByTicks(r, who, k);
    }
  }

  lemma SpanByTicks(r: Run, who: seq<nat>, k: nat) returns (s: nat)
    requires IsRun(r) && Follows(r, who) && k < |r.ticks| && r.outs[k].hang != []
    ensures TenFlatMinutes(r, who, s, k)
  {
    hide Mean, Listed, SomeStill, LargestStill, StepAt, Begins;
    EpisodeHistory(r, k);
    if r.states[k].hang.None? {
      EpisodeOpens(r, k);
    }
    var pid := r.states[k].hang.value.pid;
    s :| OpenSince(r, s, k, pid);
    EpisodeStep(r, s, k, pid);
    FlatIsDead(r, s, k + 1, pid);
    OpensByTicks(r, who, s);
    assert OpensAsTold(r, who, s) && OpensAt(r, s, pid);
  }
}
