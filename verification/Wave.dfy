/** The square waves of the charts (crates/tui/src/ui.rs:363-432): samples are held flat until
    the next one, holes in the recording break the trace, and the solid style thickens the
    holds without ever painting into a hole. Coordinates are real; rounding is not modelled. */
module Wave {

  datatype Pt = Pt(x: real, y: real)

  datatype ChartStyle = Braille | Solid

  const GAP_BRIDGE_S := 15.0
  const SOLID_STEP_S := 2.0

  ghost predicate Increasing(pts: seq<Pt>) {
    forall i, j :: 0 <= i < j < |pts| ==> pts[i].x < pts[j].x
  }

  function Last(s: seq<Pt>): Pt
    requires s != []
  {
    s[|s| - 1]
  }

  // ---- specification: runs of samples, and the outline of one run ----

  // The samples, broken wherever two neighbours are too far apart to be bridged.
  function Runs(pts: seq<Pt>): seq<seq<Pt>> {
    if pts == [] then []
    else
      var p, rest := Last(pts), Runs(pts[..|pts| - 1]);
      if rest != [] && p.x - Last(pts[..|pts| - 1]).x <= GAP_BRIDGE_S
      then rest[..|rest| - 1] + [rest[|rest| - 1] + [p]]
      else rest + [[p]]
  }

  // The corners of the held-then-stepped trace through a run.
  function Corners(run: seq<Pt>): (cs: seq<Pt>)
    ensures |cs| == if run == [] then 0 else 2 * |run| - 1
  {
    if |run| <= 1 then run
    else
      var p, prev := run[|run| - 1], run[|run| - 2];
      Corners(run[..|run| - 1]) + [Pt(p.x, prev.y), p]
  }

  // The last value is held for the sample's own width.
  function Outline(run: seq<Pt>, trail: real): seq<Pt> {
    if run == [] then [] else Corners(run) + [Pt(Last(run).x + trail, Last(run).y)]
  }

  // Whole steps left up to x1.
  function StepsLeft(x: real, x1: real): nat {
    if x < x1 then (x1 - x).Floor + 1 else 0
  }

  // The sub-points inside a horizontal stretch ending at x1.
  function Fill(x: real, x1: real, y: real): seq<Pt>
    decreases StepsLeft(x, x1)
  {
    if x < x1 then [Pt(x, y)] + Fill(x + SOLID_STEP_S, x1, y) else []
  }

  function Dense(seg: seq<Pt>): seq<Pt> {
    if |seg| <= 1 then seg
    else [seg[0]] + Fill(seg[0].x + SOLID_STEP_S, seg[1].x, seg[0].y) + Dense(seg[1..])
  }

  // ---- the loops of the source ----

  // The last run takes in one more sample, or a new run begins.
  function Extended(rs: seq<seq<Pt>>, p: Pt): seq<seq<Pt>>
    requires rs != []
  {
    rs[..|rs| - 1] + [rs[|rs| - 1] + [p]]
  }

  function Broken(rs: seq<seq<Pt>>, p: Pt): seq<seq<Pt>> {
    rs + [[p]]
  }

  lemma RunsSnoc(pts: seq<Pt>, p: Pt)
    ensures Runs(pts + [p]) ==
      if pts != [] && Runs(pts) != [] && p.x - Last(pts).x <= GAP_BRIDGE_S then Extended(Runs(pts), p) else Broken(Runs(pts), p)
  {
    assert (pts + [p])[..|pts|] == pts;
  }

  lemma {:induction false} RunsEnd(pts: seq<Pt>)
    ensures pts == [] <==> Runs(pts) == []
    ensures pts != [] ==> Runs(pts)[|Runs(pts)| - 1] != [] && Last(Runs(pts)[|Runs(pts)| - 1]) == Last(pts)
  {
    if pts != [] {
      RunsEnd(pts[..|pts| - 1]);
    }
  }

  lemma {:induction false} CornersEnd(run: seq<Pt>)
    requires run != []
    ensures Last(Corners(run)) == Last(run)
  {
    if |run| > 1 {
      CornersEnd(run[..|run| - 1]);
    }
  }

  // The loop's state after the samples whose runs are rs: every finished run is outlined and
  // the current one has its corners.
  ghost predicate Traced(segs: seq<seq<Pt>>, cur: seq<Pt>, rs: seq<seq<Pt>>, trail: real) {
    if rs == [] then segs == [] && cur == []
    else
      && |rs| == |segs| + 1 && rs[|segs|] != [] && cur == Corners(rs[|segs|])
      && forall i :: 0 <= i < |segs| ==> segs[i] == Outline(rs[i], trail)
  }

  lemma TracedExtended(segs: seq<seq<Pt>>, cur: seq<Pt>, rs: seq<seq<Pt>>, trail: real, p: Pt)
    requires Traced(segs, cur, rs, trail) && rs != []
    ensures cur != [] && Last(cur) == Last(rs[|rs| - 1])
    ensures Traced(segs, cur + [Pt(p.x, Last(cur).y)] + [p], Extended(rs, p), trail)
  {
    var run := rs[|segs|];
    CornersEnd(run);
    assert (run + [p])[..|run|] == run;
  }

  lemma TracedBroken(segs: seq<seq<Pt>>, cur: seq<Pt>, rs: seq<seq<Pt>>, trail: real, p: Pt)
    requires Traced(segs, cur, rs, trail) && rs != []
    ensures cur != [] && Last(cur) == Last(rs[|rs| - 1])
    ensures Traced(segs + [cur + [Pt(Last(cur).x + trail, Last(cur).y)]], [p], Broken(rs, p), trail)
  {
    hide Corners;
    CornersOne(p);
    CornersEnd(rs[|segs|]);
  }

  lemma CornersOne(p: Pt)
    ensures Corners([p]) == [p]
  {
  }

  lemma TracedFirst(segs: seq<seq<Pt>>, cur: seq<Pt>, trail: real, p: Pt)
    requires Traced(segs, cur, [], trail)
    ensures cur == [] && Traced(segs, cur + [p], Broken([], p), trail)
  {
  }

  lemma TracedEnd(segs: seq<seq<Pt>>, cur: seq<Pt>, rs: seq<seq<Pt>>, trail: real)
    requires Traced(segs, cur, rs, trail)
    ensures cur == [] <==> rs == []
    ensures rs == [] ==> segs == Outlines(rs, trail)
    ensures cur != [] ==> rs[|rs| - 1] != [] && Last(cur) == Last(rs[|rs| - 1])
    ensures cur != [] ==> segs + [cur + [Pt(Last(cur).x + trail, Last(cur).y)]] == Outlines(rs, trail)
  {
    if rs != [] {
      CornersEnd(rs[|segs|]);
    }
  }

  function Outlines(rs: seq<seq<Pt>>, trail: real): seq<seq<Pt>> {
    seq(|rs|, i requires 0 <= i < |rs| => Outline(rs[i], trail))
  }

  ghost predicate Loop(segs: seq<seq<Pt>>, cur: seq<Pt>, pts: seq<Pt>, k: nat, trail: real) {
    k <= |pts| && Traced(segs, cur, Runs(pts[..k]), trail)
  }

  lemma LoopStart(pts: seq<Pt>, trail: real)
    ensures Loop([], [], pts, 0, trail)
  {
  }

  // One sample's effect on the loop's state, in each of its three cases.
  lemma LoopStep(segs: seq<seq<Pt>>, cur: seq<Pt>, pts: seq<Pt>, k: nat, trail: real)
    requires k < |pts| && Loop(segs, cur, pts, k, trail)
    ensures cur == [] ==> Loop(segs, cur + [pts[k]], pts, k + 1, trail)
    ensures cur != [] && pts[k].x - Last(cur).x <= GAP_BRIDGE_S ==>
      Loop(segs, cur + [Pt(pts[k].x, Last(cur).y)] + [pts[k]], pts, k + 1, trail)
    ensures cur != [] && pts[k].x - Last(cur).x > GAP_BRIDGE_S ==>
      Loop(segs + [cur + [Pt(Last(cur).x + trail, Last(cur).y)]], [pts[k]], pts, k + 1, trail)
  {
    var done, p := pts[..k], pts[k];
    assert pts[..k + 1] == done + [p];
    RunsSnoc(done, p);
    RunsEnd(done);
    TracedEnd(segs, cur, Runs(done), trail);
    hide Runs, Corners, Traced, Extended, Broken, Outlines, Outline;
    if cur == [] {
      TracedFirst(segs, cur, trail, p);
    } else if p.x - Last(cur).x <= GAP_BRIDGE_S {
      TracedExtended(segs, cur, Runs(done), trail, p);
    } else {
      TracedBroken(segs, cur, Runs(done), trail, p);
    }
  }

  lemma LoopEnd(segs: seq<seq<Pt>>, cur: seq<Pt>, pts: seq<Pt>, trail: real)
    requires Loop(segs, cur, pts, |pts|, trail)
    ensures (if cur == [] then segs else segs + [cur + [Pt(Last(cur).x + trail, Last(cur).y)]]) == Outlines(Runs(pts), trail)
  {
    hide Runs, Corners, Traced, Outlines;
    assert pts[..|pts|] == pts;
    TracedEnd(segs, cur, Runs(pts), trail);
  }

  method StepSegments(pts: seq<Pt>, trail: real) returns (segs: seq<seq<Pt>>)
    ensures segs == Outlines(Runs(pts), trail)
  {
    segs := [];
    var cur: seq<Pt> := [];
    LoopStart(pts, trail);
    hide Loop, Runs, Outlines;
    for k := 0 to |pts|
      invariant Loop(segs, cur, pts, k, trail)
    {
      var p := pts[k];
      LoopStep(segs, cur, pts, k, trail);
      if cur != [] {
        var prev := Last(cur);
        if p.x - prev.x <= GAP_BRIDGE_S {
          cur := cur + [Pt(p.x, prev.y)];
          cur := cur + [p];
        } else {
          cur := cur + [Pt(prev.x + trail, prev.y)];
          segs := segs + [cur];
          cur := [p];
        }
      } else {
        cur := cur + [p];
      }
    }
    LoopEnd(segs, cur, pts, trail);
    if cur != [] {
      var prev := Last(cur);
      cur := cur + [Pt(prev.x + trail, prev.y)];
      segs := segs + [cur];
    }
  }

  // One stretch's and one sub-point's contribution.
  lemma DenseStep(out: seq<Pt>, seg: seq<Pt>, i: nat)
    requires i + 1 < |seg|
    ensures out + Dense(seg[i..]) ==
      (out + [seg[i]] + Fill(seg[i].x + SOLID_STEP_S, seg[i + 1].x, seg[i].y)) + Dense(seg[i + 1..])
  {
    assert seg[i..][1..] == seg[i + 1..];
  }

  lemma FillStep(out: seq<Pt>, x: real, x1: real, y: real)
    ensures out + Fill(x, x1, y) == if x < x1 then (out + [Pt(x, y)]) + Fill(x + SOLID_STEP_S, x1, y) else out
  {
  }

  method Densify(seg: seq<Pt>) returns (out: seq<Pt>)
    ensures out == Dense(seg)
  {
    out := [];
    if seg == [] {
      return;
    }
    assert seg[|seg| - 1..] == [Last(seg)] && Dense([Last(seg)]) == [Last(seg)];
    assert seg[0..] == seg;
    hide Dense, Fill, StepsLeft;
    for i := 0 to |seg| - 1
      invariant out + Dense(seg[i..]) == Dense(seg)
    {
      var x0, y0, x1 := seg[i].x, seg[i].y, seg[i + 1].x;
      ghost var goal := out + [seg[i]] + Fill(x0 + SOLID_STEP_S, x1, y0);
      DenseStep(out, seg, i);
      out := out + [seg[i]];
      var x := x0 + SOLID_STEP_S;
      while x < x1
        invariant out + Fill(x, x1, y0) == goal
        decreases StepsLeft(x, x1)
      {
        FillStep(out, x, x1, y0);
        StepsShrink(x, x1);
        out := out + [Pt(x, y0)];
        x := x + SOLID_STEP_S;
      }
      FillStep(out, x, x1, y0);
    }
    out := out + [Last(seg)];
  }

  lemma StepsShrink(x: real, x1: real)
    requires x < x1
    ensures StepsLeft(x + SOLID_STEP_S, x1) < StepsLeft(x, x1)
  {
  }

  method WaveSegments(pts: seq<Pt>, trail: real, style: ChartStyle) returns (segs: seq<seq<Pt>>)
    ensures |segs| == |Runs(pts)|
    ensures forall i :: 0 <= i < |segs| ==>
      segs[i] == if style.Braille? then Outline(Runs(pts)[i], trail) else Dense(Outline(Runs(pts)[i], trail))
  {
    hide Runs, Outline, Dense;
    var outlines := StepSegments(pts, trail);
    if style.Braille? {
      return outlines;
    }
    segs := [];
    for i := 0 to |outlines|
      invariant |segs| == i
      invariant forall j :: 0 <= j < i ==> segs[j] == Dense(outlines[j])
    {
      var d := Densify(outlines[i]);
      segs := segs + [d];
    }
  }

  // ---- segments are exactly the bridgeable stretches ----

  function Flatten(rs: seq<seq<Pt>>): seq<Pt> {
    if rs == [] then [] else Flatten(rs[..|rs| - 1]) + rs[|rs| - 1]
  }

  predicate Bridged(p: Pt, q: Pt) {
    q.x - p.x <= GAP_BRIDGE_S
  }

  // rs cuts pts into consecutive non-empty pieces, with bridgeable neighbours inside each
  // piece and an unbridgeable step between one piece and the next.
  ghost predicate IsSplit(rs: seq<seq<Pt>>, pts: seq<Pt>) {
    && Flatten(rs) == pts
    && (forall i :: 0 <= i < |rs| ==> rs[i] != [])
    && (forall i, j :: 0 <= i < |rs| && 0 <= j < |rs[i]| - 1 ==> Bridged(rs[i][j], rs[i][j + 1]))
    && (forall i :: 0 <= i < |rs| - 1 && rs[i] != [] && rs[i + 1] != [] ==> !Bridged(Last(rs[i]), rs[i + 1][0]))
  }

  lemma {:induction false} RunsAreTheSplit(pts: seq<Pt>)
    ensures IsSplit(Runs(pts), pts)
  {
    if pts != [] {
      var init, p := pts[..|pts| - 1], Last(pts);
      assert pts == init + [p];
      RunsAreTheSplit(init);
      RunsSnoc(init, p);
      RunsEnd(init);
      hide Runs;
      var rest := Runs(init);
      if rest != [] && Bridged(Last(init), p) {
        SplitExtended(rest, init, p);
      } else {
        SplitBroken(rest, init, p);
      }
    }
  }

  lemma SplitExtended(rest: seq<seq<Pt>>, pts: seq<Pt>, p: Pt)
    requires IsSplit(rest, pts) && rest != [] && pts != [] && Bridged(Last(pts), p)
    ensures IsSplit(Extended(rest, p), pts + [p])
  {
    var rs := Extended(rest, p);
    assert rs[..|rs| - 1] == rest[..|rest| - 1];
  }

  lemma SplitBroken(rest: seq<seq<Pt>>, pts: seq<Pt>, p: Pt)
    requires IsSplit(rest, pts) && (rest != [] ==> pts != [] && !Bridged(Last(pts), p))
    ensures IsSplit(Broken(rest, p), pts + [p])
  {
    var rs := Broken(rest, p);
    assert rs[..|rs| - 1] == rest;
  }

  lemma EmptySplit(a: seq<seq<Pt>>, pts: seq<Pt>)
    requires IsSplit(a, pts)
    ensures a == [] <==> pts == []
  {
  }

  // There is no other way to cut them.
  lemma {:induction false} SplitIsUnique(a: seq<seq<Pt>>, b: seq<seq<Pt>>, pts: seq<Pt>)
    requires IsSplit(a, pts) && IsSplit(b, pts)
    ensures a == b
    decreases |pts|
  {
    hide IsSplit;
    EmptySplit(a, pts);
    EmptySplit(b, pts);
    if pts != [] {
      var x, y := a[|a| - 1], b[|b| - 1];
      LastPiece(a, pts);
      LastPiece(b, pts);
      SameTail(pts, |x|, |y|);
      SameTail(pts, |y|, |x|);
      SplitIsUnique(a[..|a| - 1], b[..|b| - 1], pts[..|pts| - |x|]);
      assert a == a[..|a| - 1] + [x] && b == b[..|b| - 1] + [y];
    }
  }

  // No bridged tail reaches back over an unbridgeable step.
  lemma SameTail(pts: seq<Pt>, m: nat, n: nat)
    requires 0 < m <= |pts| && 0 < n <= |pts|
    requires forall k :: |pts| - m < k < |pts| ==> Bridged(pts[k - 1], pts[k])
    requires n < |pts| ==> !Bridged(pts[|pts| - n - 1], pts[|pts| - n])
    ensures m <= n
  {
  }

  // The last piece is the tail after the last unbridgeable step.
  lemma LastPiece(a: seq<seq<Pt>>, pts: seq<Pt>)
    requires IsSplit(a, pts) && a != []
    ensures var (n, x) := (|pts|, a[|a| - 1]);
      && 0 < |x| <= n && x == pts[n - |x|..]
      && IsSplit(a[..|a| - 1], pts[..n - |x|])
      && (forall k :: n - |x| < k < n ==> Bridged(pts[k - 1], pts[k]))
      && (|x| < n ==> !Bridged(pts[n - |x| - 1], pts[n - |x|]))
  {
    var a', x := a[..|a| - 1], a[|a| - 1];
    var n := |pts|;
    assert pts == Flatten(a') + x;
    assert pts[..n - |x|] == Flatten(a');
    if |x| < n {
      var z := a'[|a'| - 1];
      assert Last(z) == pts[n - |x| - 1];
    }
    forall k | n - |x| < k < n ensures Bridged(pts[k - 1], pts[k]) {
      assert Bridged(x[k - 1 - (n - |x|)], x[k - 1 - (n - |x|) + 1]);
    }
  }

  // ---- what an outline draws ----

  // Where the value of sample i stops being held.
  function HoldEnd(run: seq<Pt>, trail: real, i: nat): real
    requires i < |run|
  {
    if i + 1 < |run| then run[i + 1].x else run[i].x + trail
  }

  // Every sample is a corner, held level to the next sample (the last one for `trail`) and
  // then stepped vertically: nothing else is drawn.
  lemma {:induction false} OutlineHolds(run: seq<Pt>, trail: real, i: nat)
    requires i < |run|
    ensures |Outline(run, trail)| == 2 * |run|
    ensures Outline(run, trail)[2 * i] == run[i]
    ensures Outline(run, trail)[2 * i + 1] == Pt(HoldEnd(run, trail, i), run[i].y)
  {
    CornersAre(run, i);
    CornersAre(run, |run| - 1);
  }

  lemma {:induction false} CornersAre(run: seq<Pt>, i: nat)
    requires i < |run|
    ensures Corners(run)[2 * i] == run[i]
    ensures i + 1 < |run| ==> Corners(run)[2 * i + 1] == Pt(run[i + 1].x, run[i].y)
  {
    if |run| > 1 {
      var init := run[..|run| - 1];
      if i < |init| {
        CornersAre(init, i);
      }
    }
  }

  // ---- segments stay apart ----

  // Everything drawn in a lies strictly left of everything drawn in b.
  ghost predicate LeftOf(a: seq<Pt>, b: seq<Pt>) {
    forall p, q :: p in a && q in b ==> p.x < q.x
  }

  ghost predicate InOrder(rs: seq<seq<Pt>>) {
    && (forall i :: 0 <= i < |rs| ==> rs[i] != [] && Increasing(rs[i]))
    && (forall i, j :: 0 <= i < j < |rs| && rs[i] != [] && rs[j] != [] ==> Last(rs[i]).x + GAP_BRIDGE_S < rs[j][0].x)
  }

  lemma {:induction false} RunsInOrder(pts: seq<Pt>)
    requires Increasing(pts)
    ensures InOrder(Runs(pts))
  {
    if pts != [] {
      var init, p := pts[..|pts| - 1], Last(pts);
      assert pts == init + [p];
      IncreasingInit(init, p);
      RunsInOrder(init);
      RunsSnoc(init, p);
      RunsEnd(init);
      hide Runs, Increasing, InOrder, Extended, Broken;
      if init == [] {
        OrderOfOne(p);
      } else if p.x - Last(init).x <= GAP_BRIDGE_S {
        OrderExtended(Runs(init), p);
      } else {
        OrderBroken(Runs(init), p);
      }
    }
  }

  lemma IncreasingInit(pts: seq<Pt>, p: Pt)
    requires Increasing(pts + [p])
    ensures Increasing(pts) && (pts != [] ==> Last(pts).x < p.x)
  {
    var all := pts + [p];
    assert forall i :: 0 <= i < |pts| ==> pts[i] == all[i];
    assert all[|pts|] == p;
  }

  lemma OrderOfOne(p: Pt)
    ensures InOrder(Broken([], p))
  {
  }

  lemma OrderExtended(rs: seq<seq<Pt>>, p: Pt)
    requires InOrder(rs) && rs != [] && rs[|rs| - 1] != [] && Last(rs[|rs| - 1]).x < p.x
    ensures InOrder(Extended(rs, p))
  {
    var r := rs[|rs| - 1];
    assert forall k :: 0 <= k < |r| ==> r[k].x <= Last(r).x;
  }

  lemma OrderBroken(rs: seq<seq<Pt>>, p: Pt)
    requires InOrder(rs) && rs != [] && rs[|rs| - 1] != [] && Last(rs[|rs| - 1]).x + GAP_BRIDGE_S < p.x
    ensures InOrder(Broken(rs, p))
  {
    var r := rs[|rs| - 1];
    assert r[0].x <= Last(r).x;
  }

  // Within a segment x never moves left, and stays between the run's first sample and the end
  // of its last hold.
  lemma OutlineBounds(run: seq<Pt>, trail: real, p: Pt)
    requires Increasing(run) && run != [] && 0.0 <= trail && p in Outline(run, trail)
    ensures run[0].x <= p.x <= Last(run).x + trail
  {
    var k :| 0 <= k < |Outline(run, trail)| && Outline(run, trail)[k] == p;
    OutlineHolds(run, trail, 0);
    OutlineHolds(run, trail, k / 2);
  }

  lemma SegmentsApart(pts: seq<Pt>, trail: real, i: nat, j: nat)
    requires Increasing(pts) && 0.0 <= trail <= GAP_BRIDGE_S && i < j < |Runs(pts)|
    ensures LeftOf(Outline(Runs(pts)[i], trail), Outline(Runs(pts)[j], trail))
  {
    RunsInOrder(pts);
    var a, b := Runs(pts)[i], Runs(pts)[j];
    forall p, q | p in Outline(a, trail) && q in Outline(b, trail) ensures p.x < q.x {
      OutlineBounds(a, trail, p);
      OutlineBounds(b, trail, q);
    }
  }

  ghost predicate ApartIn(pts: seq<Pt>, trail: real, i: nat, j: nat)
    requires i < |Runs(pts)| && j < |Runs(pts)|
  {
    LeftOf(Outline(Runs(pts)[i], trail), Outline(Runs(pts)[j], trail))
  }

  ghost predicate AlwaysApart(trail: real) {
    forall pts: seq<Pt>, i: nat, j: nat :: Increasing(pts) && i < j < |Runs(pts)| ==> ApartIn(pts, trail, i, j)
  }

  // A held last value never reaches the next segment if and only if it is held no longer than
  // the gap that is still bridged.
  lemma SegmentsApartIff(trail: real)
    requires 0.0 <= trail
    ensures AlwaysApart(trail) <==> trail <= GAP_BRIDGE_S
  {
    if trail <= GAP_BRIDGE_S {
      forall pts: seq<Pt>, i: nat, j: nat | Increasing(pts) && i < j < |Runs(pts)|
        ensures ApartIn(pts, trail, i, j)
      {
        SegmentsApart(pts, trail, i, j);
      }
    } else {
      var p, q := Pt(0.0, 0.0), Pt(trail, 0.0);
      var pts := [p, q];
      assert pts[..1] == [p] && [p][..0] == [];
      assert Runs([p]) == [[p]];
      assert Runs(pts) == [[p], [q]];
      assert Outline([p], trail)[1].x == trail && Outline([q], trail)[0].x == trail;
      assert !LeftOf(Outline([p], trail), Outline([q], trail));
      assert !ApartIn(pts, trail, 0, 1);
    }
  }

  // ---- the solid style paints the same wave ----

  lemma {:induction false} FillInside(x: real, x1: real, y: real, q: Pt)
    requires q in Fill(x, x1, y)
    ensures q.y == y && x <= q.x < x1
    decreases StepsLeft(x, x1)
  {
    if q != Pt(x, y) {
      FillInside(x + SOLID_STEP_S, x1, y, q);
    }
  }

  // From x on, no stretch up to x1 longer than a step is left without a sub-point.
  lemma {:induction false} FillSpacing(x: real, x1: real, y: real, t: real) returns (q: Pt)
    requires x <= t <= x1
    ensures q in [Pt(x, y)] + Fill(x + SOLID_STEP_S, x1, y) && q.y == y && q.x <= t <= q.x + SOLID_STEP_S
    decreases StepsLeft(x, x1)
  {
    if t <= x + SOLID_STEP_S {
      q := Pt(x, y);
    } else {
      var next := x + SOLID_STEP_S;
      FewerSteps(x, x1);
      assert Fill(next, x1, y) == [Pt(next, y)] + Fill(next + SOLID_STEP_S, x1, y);
      hide Fill, StepsLeft;
      q := FillSpacing(next, x1, y, t);
    }
  }

  lemma FewerSteps(x: real, x1: real)
    requires x < x1
    ensures StepsLeft(x + SOLID_STEP_S, x1) < StepsLeft(x, x1)
  {
    if x + SOLID_STEP_S < x1 {
      var left := x1 - x;
      assert left.Floor as real <= left < left.Floor as real + 1.0;
      assert (left - SOLID_STEP_S).Floor as real <= left - SOLID_STEP_S;
    }
  }

  // Every outline corner is a point of the solid wave.
  lemma {:induction false} CornersKept(seg: seq<Pt>, i: nat)
    requires i < |seg|
    ensures seg[i] in Dense(seg)
  {
    if |seg| > 1 && i > 0 {
      CornersKept(seg[1..], i - 1);
    }
  }

  // q lies strictly inside the stretch from corner i to the next, at the height of corner i.
  predicate InsideStretch(seg: seq<Pt>, i: nat, q: Pt) {
    i + 1 < |seg| && q.y == seg[i].y && seg[i].x < q.x < seg[i + 1].x
  }

  lemma {:induction false} DenseAddsOnlyHolds(seg: seq<Pt>, q: Pt)
    requires q in Dense(seg) && q !in seg
    ensures exists i: nat :: InsideStretch(seg, i, q)
  {
    if |seg| > 1 {
      var fill := Fill(seg[0].x + SOLID_STEP_S, seg[1].x, seg[0].y);
      if q in fill {
        FillInside(seg[0].x + SOLID_STEP_S, seg[1].x, seg[0].y, q);
        assert InsideStretch(seg, 0, q);
      } else {
        DenseAddsOnlyHolds(seg[1..], q);
        var i: nat :| InsideStretch(seg[1..], i, q);
        assert InsideStretch(seg, i + 1, q);
      }
    }
  }

  lemma {:induction false} StretchFilled(seg: seq<Pt>, i: nat, t: real) returns (q: Pt)
    requires i + 1 < |seg| && seg[i].x <= t <= seg[i + 1].x
    ensures q in Dense(seg) && q.y == seg[i].y && q.x <= t <= q.x + SOLID_STEP_S
  {
    hide Fill;
    var fill := Fill(seg[0].x + SOLID_STEP_S, seg[1].x, seg[0].y);
    assert Dense(seg) == [seg[0]] + fill + Dense(seg[1..]);
    if i == 0 {
      q := FillSpacing(seg[0].x, seg[1].x, seg[0].y, t);
    } else {
      assert seg[1..][i - 1] == seg[i] && seg[1..][i] == seg[i + 1];
      hide Dense;
      q := StretchFilled(seg[1..], i - 1, t);
    }
  }

  // q shows the value of sample i at a moment that value is held.
  predicate ShowsSample(run: seq<Pt>, trail: real, i: nat, q: Pt) {
    i < |run| && q.y == run[i].y && run[i].x <= q.x <= HoldEnd(run, trail, i)
  }

  // Whatever the solid style paints is the value of some sample at a moment that value is held.
  lemma SolidIsFaithful(run: seq<Pt>, trail: real, q: Pt) returns (i: nat)
    requires run != [] && Increasing(run) && 0.0 <= trail && q in Dense(Outline(run, trail))
    ensures ShowsSample(run, trail, i, q)
  {
    hide Outline, Dense;
    var seg := Outline(run, trail);
    OutlineHolds(run, trail, 0);
    var k: nat;
    if q in seg {
      k :| 0 <= k < |seg| && seg[k] == q;
    } else {
      DenseAddsOnlyHolds(seg, q);
      k :| InsideStretch(seg, k, q);
      OutlineHolds(run, trail, (k + 1) / 2);
    }
    i := k / 2;
    OutlineHolds(run, trail, i);
  }

  // And every moment of every hold is painted, at its sample's value, to within one step: the
  // solid style shows no blank where the outline shows a line.
  lemma SolidShowsNoPhantomBlank(run: seq<Pt>, trail: real, i: nat, t: real) returns (q: Pt)
    requires i < |run| && run[i].x <= t <= HoldEnd(run, trail, i)
    ensures q in Dense(Outline(run, trail)) && q.y == run[i].y && q.x <= t <= q.x + SOLID_STEP_S
  {
    OutlineHolds(run, trail, i);
    q := StretchFilled(Outline(run, trail), 2 * i, t);
  }

  // Both styles leave the same gaps.
  lemma SolidSegmentsApart(pts: seq<Pt>, trail: real, i: nat, j: nat)
    requires Increasing(pts) && 0.0 <= trail <= GAP_BRIDGE_S && i < j < |Runs(pts)|
    ensures LeftOf(Dense(Outline(Runs(pts)[i], trail)), Dense(Outline(Runs(pts)[j], trail)))
  {
    hide Outline, Dense, Runs;
    RunsInOrder(pts);
    var a, b := Runs(pts)[i], Runs(pts)[j];
    forall p, q | p in Dense(Outline(a, trail)) && q in Dense(Outline(b, trail)) ensures p.x < q.x {
      SolidBounds(a, trail, p);
      SolidBounds(b, trail, q);
    }
  }

  lemma SolidBounds(run: seq<Pt>, trail: real, p: Pt)
    requires Increasing(run) && run != [] && 0.0 <= trail && p in Dense(Outline(run, trail))
    ensures run[0].x <= p.x <= Last(run).x + trail
  {
    var i := SolidIsFaithful(run, trail, p);
    assert i > 0 ==> run[0].x < run[i].x;
    assert i + 1 < |run| - 1 ==> run[i + 1].x < Last(run).x;
  }
}
