/** The timeline overview's folding of recorded buckets into screen columns
    (crates/tui/src/ui.rs:546-582). A bucket is its start and the metric the strip shows;
    every bucket of a tier is `width` milliseconds wide. */
module Timeline {
  import opened Base

  datatype Bucket = Bucket(ms: nat, reading: Option<real>)

  datatype Window = Window(from: nat, to: nat, width: nat, ncols: nat) {
    function Span(): nat {
      SatSub(to, from)
    }
  }

  // ---- floor division ----

  lemma FloorAtMost(x: nat, s: nat, c: nat)
    requires s > 0
    ensures c <= x / s <==> c * s <= x
  {
    var q := x / s;
    assert q * s <= x < (q + 1) * s;
    if c <= q {
      assert c * s <= q * s;
    } else {
      assert (q + 1) * s <= c * s;
    }
  }

  // The column of the millisecond `k` after the window's start.
  function Col(k: nat, span: nat, ncols: nat): nat
    requires span > 0
  {
    k * ncols / span
  }

  lemma ColMonotone(a: nat, b: nat, span: nat, ncols: nat)
    requires span > 0 && a <= b
    ensures Col(a, span, ncols) <= Col(b, span, ncols)
  {
    FloorAtMost(a * ncols, span, Col(a, span, ncols));
    assert a * ncols <= b * ncols;
    FloorAtMost(b * ncols, span, Col(a, span, ncols));
  }

  lemma ColInRange(k: nat, span: nat, ncols: nat)
    requires k < span && ncols > 0
    ensures Col(k, span, ncols) < ncols
  {
    FloorAtMost(k * ncols, span, ncols);
    assert k * ncols < span * ncols;
  }

  // ---- the specification: what one bucket reaches, and the peak of a column ----

  // The part of a bucket inside the window, as offsets from the window's start.
  function First(b: Bucket, w: Window): int { MaxNat(b.ms, w.from) - w.from }

  function Past(b: Bucket, w: Window): int { MinNat(b.ms + w.width, w.to) - w.from }

  // The columns a present reading is folded into.
  predicate Reaches(b: Bucket, w: Window, c: nat)
    requires w.Span() > 0
  {
    && b.reading.Some? && First(b, w) < Past(b, w)
    && Col(First(b, w), w.Span(), w.ncols) <= c <= Col(Past(b, w) - 1, w.Span(), w.ncols)
  }

  function Raise(o: Option<real>, v: real): Option<real> {
    match o
    case None => Some(v)
    case Some(u) => Some(if u >= v then u else v)
  }

  function Peak(bs: seq<Bucket>, w: Window, c: nat): Option<real>
    requires w.Span() > 0
  {
    if bs == [] then None
    else
      var b, rest := bs[|bs| - 1], Peak(bs[..|bs| - 1], w, c);
      if Reaches(b, w, c) then Raise(rest, b.reading.value) else rest
  }

  // ---- the two functions of the source ----

  method TimelineColumns(bs: seq<Bucket>, w: Window) returns (cols: seq<Option<real>>)
    ensures |cols| == w.ncols
    ensures w.Span() == 0 ==> forall c :: 0 <= c < w.ncols ==> cols[c] == None
    ensures w.Span() > 0 ==> forall c :: 0 <= c < w.ncols ==> cols[c] == Peak(bs, w, c)
  {
    hide Col;
    var a := new Option<real>[w.ncols](_ => None);
    var span := w.Span();
    if span == 0 || w.ncols == 0 {
      return a[..];
    }
    for i := 0 to |bs|
      invariant forall c :: 0 <= c < w.ncols ==> a[c] == Peak(bs[..i], w, c)
    {
      var b := bs[i];
      ghost var was := a[..];
      assert bs[..i + 1][..i] == bs[..i];
      var b0 := MaxNat(b.ms, w.from);
      var b1 := MinNat(b.ms + w.width, w.to);
      if b1 <= b0 {
        continue;
      }
      if b.reading.Some? {
        var v := b.reading.value;
        var c0 := Col(b0 - w.from, span, w.ncols);
        var c1 := Col(b1 - 1 - w.from, span, w.ncols);
        ColMonotone(b0 - w.from, b1 - 1 - w.from, span, w.ncols);
        ColInRange(b1 - 1 - w.from, span, w.ncols);
        for c := c0 to MinNat(c1, w.ncols - 1) + 1
          invariant forall k :: 0 <= k < w.ncols ==> a[k] == if c0 <= k < c then Raise(was[k], v) else was[k]
        {
          a[c] := Raise(a[c], v);
        }
        assert forall k: nat :: k < w.ncols ==> (Reaches(b, w, k) <==> c0 <= k <= c1);
      }
    }
    assert bs[..|bs|] == bs;
    return a[..];
  }

  // The column of a timestamp, clamped into the strip.
  function TimelineColOf(ts: nat, from: nat, span: nat, ncols: nat): nat
    requires ncols >= 1
  {
    MinNat(SatSub(ts, from) * ncols / MaxNat(span, 1), ncols - 1)
  }

  // It is the column whose share of the span the timestamp lies in; the first one before the
  // window and the last one from its end on.
  lemma EventColumn(ts: nat, from: nat, span: nat, ncols: nat)
    requires span > 0 && ncols > 0
    ensures var c := TimelineColOf(ts, from, span, ncols);
      if ts < from then c == 0 else if ts >= from + span then c == ncols - 1
      else c < ncols && c * span <= (ts - from) * ncols < (c + 1) * span
  {
    var off := SatSub(ts, from);
    Share(off, span, ncols);
  }

  lemma Share(off: nat, span: nat, ncols: nat)
    requires span > 0 && ncols > 0
    ensures var q := off * ncols / span;
      && q * span <= off * ncols < (q + 1) * span
      && (off >= span ==> q >= ncols) && (off < span ==> q < ncols) && (off == 0 ==> q == 0)
  {
    Quotient(off * ncols, span);
    var x, q := off * ncols, off * ncols / span;
    if off >= span {
      Times(span, off, ncols);
      AtLeastCols(q, span, ncols);
    } else {
      Times(off + 1, span, ncols);
      BelowCols(q, span, ncols);
    }
  }

  lemma Quotient(x: nat, span: nat)
    requires span > 0
    ensures x / span * span <= x < (x / span + 1) * span && (x == 0 ==> x / span == 0)
  {
    Division(x, span);
  }

  lemma Times(a: nat, b: nat, n: nat)
    requires a <= b
    ensures a * n <= b * n
  {
  }

  // A quotient of at least n whole spans.
  lemma AtLeastCols(q: nat, span: nat, n: nat)
    requires span > 0 && (q + 1) * span > span * n
    ensures q >= n
  {
    if q + 1 <= n {
      Times(q + 1, n, span);
    }
  }

  lemma BelowCols(q: nat, span: nat, n: nat)
    requires span > 0 && n > 0 && q * span < span * n
    ensures q < n
  {
    if q >= n {
      Times(n, q, span);
    }
  }

  // ---- what a column shows ----

  // Bucket b was recording at the instant t.
  predicate Records(b: Bucket, w: Window, t: nat) {
    b.reading.Some? && b.ms <= t < b.ms + w.width
  }

  // Column c owns the instant t.
  predicate Owns(w: Window, c: nat, t: nat)
    requires w.Span() > 0
  {
    w.from <= t < w.to && Col(t - w.from, w.Span(), w.ncols) == c
  }

  // Some instant of column c lies in bucket b.
  ghost predicate Meets(b: Bucket, w: Window, c: nat)
    requires w.Span() > 0
  {
    exists t: nat :: Records(b, w, t) && Owns(w, c, t)
  }

  // With no more columns than milliseconds, neighbouring instants lie in the same column or
  // in neighbouring ones.
  lemma NoColumnSkipped(k: nat, span: nat, ncols: nat)
    requires 0 < span && (ncols <= span || (ncols == span + 1 && k + 1 < span))
    ensures Col(k + 1, span, ncols) <= Col(k, span, ncols) + 1
  {
    var c := Col(k, span, ncols) + 2;
    FloorAtMost(k * ncols, span, c - 1);
    FloorAtMost((k + 1) * ncols, span, c);
    assert k * ncols < (c - 1) * span;
    assert (k + 1) * ncols == k * ncols + ncols && c * span == (c - 1) * span + span;
    if ncols == span + 1 {
      assert k * ncols == k * span + k;
      assert k * span <= k * ncols;
      FloorAtMost(k * ncols, span, k);
      FloorAtMost(k * ncols, span, k + 1);
      assert Col(k, span, ncols) == k;
      FloorAtMost((k + 1) * ncols, span, k + 2);
      assert (k + 1) * ncols == (k + 1) * span + k + 1;
      assert (k + 2) * span == (k + 1) * span + span;
    }
  }

  // Between two instants every column in between is met.
  lemma {:induction false} ColumnMet(a: nat, b: nat, span: nat, ncols: nat, c: nat) returns (k: nat)
    requires a <= b < span && ncols <= span + 1
    requires Col(a, span, ncols) <= c <= Col(b, span, ncols)
    ensures a <= k <= b && Col(k, span, ncols) == c
    decreases b - a
  {
    hide Col;
    if Col(a, span, ncols) == c {
      k := a;
    } else {
      NoColumnSkipped(a, span, ncols);
      k := ColumnMet(a + 1, b, span, ncols, c);
    }
  }

  // A bucket is folded into exactly the columns that own one of its milliseconds.
  lemma ReachesExactly(b: Bucket, w: Window, c: nat)
    requires 0 < w.Span() && w.ncols <= w.Span() + 1
    ensures Reaches(b, w, c) <==> Meets(b, w, c)
  {
    hide Col;
    if Reaches(b, w, c) {
      var k := ColumnMet(First(b, w), Past(b, w) - 1, w.Span(), w.ncols, c);
      assert Records(b, w, w.from + k) && Owns(w, c, w.from + k);
    }
    if Meets(b, w, c) {
      var t: nat :| Records(b, w, t) && Owns(w, c, t);
      ColMonotone(First(b, w), t - w.from, w.Span(), w.ncols);
      ColMonotone(t - w.from, Past(b, w) - 1, w.Span(), w.ncols);
    }
  }

  // `o` is the largest present reading among the buckets meeting column c, absent iff none does.
  ghost predicate IsPeak(o: Option<real>, bs: seq<Bucket>, w: Window, c: nat)
    requires w.Span() > 0
  {
    && (o.None? <==> forall i :: 0 <= i < |bs| ==> !Meets(bs[i], w, c))
    && (o.Some? ==>
          && (exists i :: 0 <= i < |bs| && Meets(bs[i], w, c) && bs[i].reading == o)
          && forall i :: 0 <= i < |bs| && Meets(bs[i], w, c) ==> bs[i].reading.value <= o.value)
  }

  // What the strip shows: for at most one column per millisecond, column c holds the peak of
  // exactly the buckets with an instant in c, and is blank iff there is none.
  lemma {:induction false} ColumnShowsPeak(bs: seq<Bucket>, w: Window, c: nat)
    requires 0 < w.Span() && w.ncols <= w.Span() + 1
    ensures IsPeak(Peak(bs, w, c), bs, w, c)
  {
    hide Reaches, Meets;
    if bs != [] {
      var n := |bs| - 1;
      var rest := bs[..n];
      ColumnShowsPeak(rest, w, c);
      ReachesExactly(bs[n], w, c);
      MeetsReads(bs[n], w, c);
      var o, p := Peak(rest, w, c), Peak(bs, w, c);
      assert forall i :: 0 <= i < n ==> bs[i] == rest[i];
      if p.Some? {
        var i: nat;
        if p == o {
          var j :| 0 <= j < |rest| && Meets(rest[j], w, c) && rest[j].reading == o;
          i := j;
        } else {
          i := n;
        }
        assert Meets(bs[i], w, c) && bs[i].reading == p;
      }
    }
  }

  lemma MeetsReads(b: Bucket, w: Window, c: nat)
    requires w.Span() > 0
    ensures Meets(b, w, c) ==> b.reading.Some?
  {
  }

  // ---- no phantom gaps ----

  // Every instant from a up to b lies in a recorded bucket.
  ghost predicate Covered(bs: seq<Bucket>, w: Window, a: nat, b: nat) {
    forall t: nat :: a <= t < b ==> Recorded(bs, w, t)
  }

  ghost predicate Recorded(bs: seq<Bucket>, w: Window, t: nat) {
    exists i :: 0 <= i < |bs| && Records(bs[i], w, t)
  }

  // A column shows at least what every bucket reaching it shows.
  lemma {:induction false} PeakAtLeast(bs: seq<Bucket>, w: Window, c: nat, i: nat)
    requires w.Span() > 0 && i < |bs| && Reaches(bs[i], w, c)
    ensures Peak(bs, w, c).Some? && Peak(bs, w, c).value >= bs[i].reading.value
  {
    hide Col;
    if i < |bs| - 1 {
      PeakAtLeast(bs[..|bs| - 1], w, c, i);
    }
  }

  // An event at a recorded instant lands in a painted column, at any width.
  lemma RecordedInstantPainted(bs: seq<Bucket>, w: Window, t: nat, i: nat)
    requires w.from <= t < w.to && w.ncols >= 1 && i < |bs| && Records(bs[i], w, t)
    ensures var c := TimelineColOf(t, w.from, w.Span(), w.ncols);
      c < w.ncols && Peak(bs, w, c).Some? && Peak(bs, w, c).value >= bs[i].reading.value
  {
    hide Col, Peak;
    var c := Col(t - w.from, w.Span(), w.ncols);
    ColInRange(t - w.from, w.Span(), w.ncols);
    ColOfIsCol(t, w);
    ColMonotone(First(bs[i], w), t - w.from, w.Span(), w.ncols);
    ColMonotone(t - w.from, Past(bs[i], w) - 1, w.Span(), w.ncols);
    PeakAtLeast(bs, w, c, i);
  }

  lemma ColOfIsCol(t: nat, w: Window)
    requires w.from <= t < w.to && w.ncols >= 1
    ensures TimelineColOf(t, w.from, w.Span(), w.ncols) == Col(t - w.from, w.Span(), w.ncols)
  {
    ColInRange(t - w.from, w.Span(), w.ncols);
  }

  lemma LastInstantInLastColumn(s: nat, n: nat, c: nat)
    requires c < n <= s
    ensures Col(s - 1, s, n) >= c
  {
    assert (s - 1) * n == s * n - n;
    assert (n - 1) * s == s * n - s;
    Cancel(c, n - 1, s);
    FloorAtMost((s - 1) * n, s, c);
  }

  // With at most one column per millisecond every column owns an instant.
  lemma EveryColumnOwns(w: Window, c: nat) returns (t: nat)
    requires c < w.ncols <= w.Span()
    ensures Owns(w, c, t)
  {
    assert Col(0, w.Span(), w.ncols) == 0;
    hide Col;
    LastInstantInLastColumn(w.Span(), w.ncols, c);
    var k := ColumnMet(0, w.Span() - 1, w.Span(), w.ncols, c);
    t := w.from + k;
  }

  // A stretch of unbroken recording paints every column from its first to its last.
  lemma CoveredStretchPainted(bs: seq<Bucket>, w: Window, a: nat, b: nat, c: nat)
    requires w.from <= a < b <= w.to && 1 <= w.ncols <= w.Span() + 1
    requires Covered(bs, w, a, b)
    requires TimelineColOf(a, w.from, w.Span(), w.ncols) <= c <= TimelineColOf(b - 1, w.from, w.Span(), w.ncols)
    ensures Peak(bs, w, c).Some?
  {
    hide Col, Peak, Records, TimelineColOf;
    ColOfIsCol(a, w);
    ColOfIsCol(b - 1, w);
    var k := ColumnMet(a - w.from, b - 1 - w.from, w.Span(), w.ncols, c);
    assert Recorded(bs, w, w.from + k);
    var i :| 0 <= i < |bs| && Records(bs[i], w, w.from + k);
    RecordedInstantPainted(bs, w, w.from + k, i);
    ColOfIsCol(w.from + k, w);
  }

  // Unbroken recording over the whole window leaves no column blank.
  lemma ContiguousPaintsAll(bs: seq<Bucket>, w: Window, c: nat)
    requires c < w.ncols <= w.Span() && Covered(bs, w, w.from, w.to)
    ensures Peak(bs, w, c).Some?
  {
    hide Col, Peak;
    var t := EveryColumnOwns(w, c);
    assert Recorded(bs, w, t);
    var i :| 0 <= i < |bs| && Records(bs[i], w, t);
    RecordedInstantPainted(bs, w, t, i);
    ColOfIsCol(t, w);
  }

  // And a real hole is never papered over: a column owning no recorded instant is blank.
  lemma HoleStaysBlank(bs: seq<Bucket>, w: Window, c: nat)
    requires 0 < w.Span() && w.ncols <= w.Span() + 1
    requires forall t: nat, i :: Owns(w, c, t) && 0 <= i < |bs| ==> !Records(bs[i], w, t)
    ensures Peak(bs, w, c) == None
  {
    hide Col, Peak, Owns, Records;
    ColumnShowsPeak(bs, w, c);
  }

  // ---- exactly when the folding is exact ----

  // Some column is skipped between two neighbouring instants.
  ghost predicate SkipsAt(k: nat, span: nat, ncols: nat)
    requires span > 0
  {
    k + 1 < span && Col(k + 1, span, ncols) > Col(k, span, ncols) + 1
  }

  lemma {:induction false} WithoutSkips(k: nat, span: nat, ncols: nat)
    requires k < span && forall j: nat :: !SkipsAt(j, span, ncols)
    ensures Col(k, span, ncols) <= k
  {
    if k == 0 {
      assert Col(0, span, ncols) == 0;
    } else {
      hide Col;
      WithoutSkips(k - 1, span, ncols);
      assert !SkipsAt(k - 1, span, ncols);
    }
  }

  lemma ManyColumnsSkip(span: nat, ncols: nat)
    requires 2 <= span && span + 2 <= ncols
    ensures exists k: nat :: SkipsAt(k, span, ncols)
  {
    FloorAtMost(ncols, span, 2);
    if ncols >= 2 * span {
      assert Col(0, span, ncols) == 0 && Col(1, span, ncols) >= 2;
      assert SkipsAt(0, span, ncols);
    } else {
      LastColumn(span, ncols);
      if forall k: nat :: !SkipsAt(k, span, ncols) {
        WithoutSkips(span - 1, span, ncols);
      }
    }
  }

  lemma LastColumn(span: nat, ncols: nat)
    requires 2 <= span && span + 2 <= ncols < 2 * span
    ensures Col(span - 1, span, ncols) >= span
  {
    assert (span - 1) * ncols >= (span - 1) * (span + 2) == span * span + span - 2;
    FloorAtMost((span - 1) * ncols, span, span);
  }

  // A bucket is folded into exactly the columns meeting it, for every bucket, if and only if
  // the strip has at most one column more than the window has milliseconds (or the window is a
  // single millisecond). Beyond that a wide bucket also paints columns that own no instant.
  lemma FoldingExactIff(w: Window)
    requires w.Span() > 0
    ensures (forall ms: nat, width: nat, v: real, c: nat ::
               Reaches(Bucket(ms, Some(v)), w.(width := width), c) <==> Meets(Bucket(ms, Some(v)), w.(width := width), c))
            <==> (w.ncols <= w.Span() + 1 || w.Span() == 1)
  {
    hide Reaches, Meets;
    if w.ncols <= w.Span() + 1 {
      forall ms: nat, width: nat, v: real, c: nat
        ensures Reaches(Bucket(ms, Some(v)), w.(width := width), c) <==> Meets(Bucket(ms, Some(v)), w.(width := width), c)
      {
        ReachesExactly(Bucket(ms, Some(v)), w.(width := width), c);
      }
    } else if w.Span() == 1 {
      forall ms: nat, width: nat, v: real, c: nat
        ensures Reaches(Bucket(ms, Some(v)), w.(width := width), c) <==> Meets(Bucket(ms, Some(v)), w.(width := width), c)
      {
        SingleInstant(Bucket(ms, Some(v)), w.(width := width), c);
      }
    } else {
      ManyColumnsSkip(w.Span(), w.ncols);
      var k: nat :| SkipsAt(k, w.Span(), w.ncols);
      var b, c := Bucket(w.from + k, Some(0.0)), Col(k, w.Span(), w.ncols) + 1;
      SkippedColumn(b, w.(width := 2), k, c);
    }
  }

  lemma SingleInstant(b: Bucket, w: Window, c: nat)
    requires w.Span() == 1
    ensures Reaches(b, w, c) <==> Meets(b, w, c)
  {
    assert Col(0, 1, w.ncols) == 0;
    if Reaches(b, w, c) {
      assert Records(b, w, w.from) && Owns(w, c, w.from);
    }
  }

  lemma SkippedColumn(b: Bucket, w: Window, k: nat, c: nat)
    requires w.Span() > 0 && SkipsAt(k, w.Span(), w.ncols) && w.width == 2
    requires b.ms == w.from + k && b.reading.Some? && c == Col(k, w.Span(), w.ncols) + 1
    ensures Reaches(b, w, c) && !Meets(b, w, c)
  {
    hide Col;
    forall t: nat | Records(b, w, t) ensures !Owns(w, c, t) {
      if t == w.from + k {
      } else {
        assert t - w.from == k + 1;
      }
    }
  }

  // ---- the documented real-valued column ranges ----

  // The documentation gives column c the real range from c*span/ncols to (c+1)*span/ncols past
  // the window's start; a slice overlaps it if it shares any positive stretch with it.
  predicate RealOverlap(first: nat, past: nat, span: nat, ncols: nat, c: nat) {
    first * ncols < (c + 1) * span && c * span < past * ncols
  }

  // The code never paints a column the documentation would leave blank.
  lemma PaintedOverlaps(first: nat, past: nat, span: nat, ncols: nat, c: nat)
    requires first < past <= span && ncols > 0
    requires Col(first, span, ncols) <= c <= Col(past - 1, span, ncols)
    ensures RealOverlap(first, past, span, ncols, c)
  {
    FloorAtMost(first * ncols, span, c + 1);
    FloorAtMost((past - 1) * ncols, span, c);
    assert (past - 1) * ncols == past * ncols - ncols;
  }

  // It can leave blank a column the documentation would paint: when a slice's last instant
  // crosses into a column by less than a millisecond. The two agree on every slice of the
  // window, wherever it begins and ends, if and only if the columns are whole milliseconds wide.
  lemma RealRangesAgreeIff(span: nat, ncols: nat)
    requires 1 <= ncols <= span
    ensures (forall first: nat, past: nat, c: nat :: first < past <= span && c < ncols ==>
               (Col(first, span, ncols) <= c <= Col(past - 1, span, ncols) <==> RealOverlap(first, past, span, ncols, c)))
            <==> span % ncols == 0
  {
    if span % ncols == 0 {
      forall first: nat, past: nat, c: nat | first < past <= span && c < ncols
        ensures Col(first, span, ncols) <= c <= Col(past - 1, span, ncols) <==> RealOverlap(first, past, span, ncols, c)
      {
        WholeColumnsAgree(first, past, span, ncols, c);
      }
    } else {
      CutColumnDiffers(span, ncols);
    }
  }

  // What the two ranges make of one slice is the same for every column.
  ghost predicate RangesAgree(first: nat, past: nat, span: nat, ncols: nat)
    requires span > 0 && past > 0
  {
    forall c: nat :: c < ncols ==>
      (Col(first, span, ncols) <= c <= Col(past - 1, span, ncols) <==> RealOverlap(first, past, span, ncols, c))
  }

  // No column begins strictly inside the last millisecond before `past`.
  predicate EndsClean(past: nat, span: nat, ncols: nat)
    requires span > 0
  {
    var r := past * ncols % span;
    r == 0 || r >= ncols
  }

  // A column is painted as documented unless it begins strictly inside that millisecond.
  lemma SliceColumn(first: nat, past: nat, span: nat, ncols: nat, c: nat)
    requires first < past <= span && 1 <= ncols <= span && first * ncols < (c + 1) * span
    ensures (Col(first, span, ncols) <= c <= Col(past - 1, span, ncols) <==> RealOverlap(first, past, span, ncols, c))
            <==> !(past * ncols - ncols < c * span < past * ncols)
  {
    hide Col;
    ColAtMost(first, span, ncols, c);
    ColAtMost(past - 1, span, ncols, c);
    assert (past - 1) * ncols == past * ncols - ncols;
  }

  lemma LeftOfSlice(first: nat, past: nat, span: nat, ncols: nat, c: nat)
    requires first < past <= span && 1 <= ncols <= span && first * ncols >= (c + 1) * span
    ensures !(Col(first, span, ncols) <= c) && !RealOverlap(first, past, span, ncols, c)
  {
    hide Col;
    ColAtMost(first, span, ncols, c);
  }

  lemma NothingBegins(past: nat, span: nat, ncols: nat, c: nat)
    requires 1 <= ncols <= span && EndsClean(past, span, ncols)
    ensures !(past * ncols - ncols < c * span < past * ncols)
  {
    var x := past * ncols;
    Division(x, span);
    if c * span < x {
      CleanBelow(c, x / span, x, span, ncols);
    }
  }

  lemma CleanSliceColumn(first: nat, past: nat, span: nat, ncols: nat, c: nat)
    requires first < past <= span && c < ncols <= span && EndsClean(past, span, ncols)
    ensures Col(first, span, ncols) <= c <= Col(past - 1, span, ncols) <==> RealOverlap(first, past, span, ncols, c)
  {
    hide Col, RealOverlap, EndsClean;
    NothingBegins(past, span, ncols, c);
    if first * ncols >= (c + 1) * span {
      LeftOfSlice(first, past, span, ncols, c);
    } else {
      SliceColumn(first, past, span, ncols, c);
    }
  }

  lemma SliceAgreesIff(first: nat, past: nat, span: nat, ncols: nat)
    requires first < past <= span && 1 <= ncols <= span
    ensures RangesAgree(first, past, span, ncols) <==> EndsClean(past, span, ncols)
  {
    hide Col, RealOverlap, EndsClean;
    if EndsClean(past, span, ncols) {
      forall c: nat | c < ncols
        ensures Col(first, span, ncols) <= c <= Col(past - 1, span, ncols) <==> RealOverlap(first, past, span, ncols, c)
      {
        CleanSliceColumn(first, past, span, ncols, c);
      }
    } else {
      var q := past * ncols / span;
      CutColumn(first, past, span, ncols, q);
      SliceColumn(first, past, span, ncols, q);
    }
  }

  // The column that begins inside the last millisecond is one of the window's.
  lemma CutColumn(first: nat, past: nat, span: nat, ncols: nat, q: nat)
    requires first < past <= span && 1 <= ncols <= span && !EndsClean(past, span, ncols) && q == past * ncols / span
    ensures q < ncols && first * ncols < (q + 1) * span && past * ncols - ncols < q * span < past * ncols
  {
    Division(past * ncols, span);
    Cancel(first, past, ncols);
    assert (q + 1) * span == q * span + span;
    assert past * ncols <= span * ncols;
    Cancel(q, ncols, span);
  }

  lemma ColAtMost(k: nat, span: nat, ncols: nat, c: nat)
    requires span > 0
    ensures Col(k, span, ncols) <= c <==> k * ncols < (c + 1) * span
    ensures c <= Col(k, span, ncols) <==> c * span <= k * ncols
  {
    FloorAtMost(k * ncols, span, c + 1);
    FloorAtMost(k * ncols, span, c);
  }

  lemma CleanBelow(c: nat, q: nat, x: nat, span: nat, ncols: nat)
    requires 1 <= ncols <= span && x == q * span + x % span && c * span < x
    requires x % span == 0 || x % span >= ncols
    ensures c * span <= x - ncols
  {
    if x % span == 0 {
      Cancel(c, q, span);
      assert (c + 1) * span <= q * span;
      assert (c + 1) * span == c * span + span;
    } else {
      assert (q + 1) * span == q * span + span;
      Cancel(c, q + 1, span);
      Cancel(c, q, span);
    }
  }

  // A tier's slices begin and end on multiples of its width, or at the window's end.
  predicate TierSlice(first: nat, past: nat, width: nat, span: nat)
    requires width > 0
  {
    first < past <= span && first % width == 0 && (past % width == 0 || past == span)
  }

  ghost predicate TierRangesAgree(width: nat, span: nat, ncols: nat)
    requires width > 0
  {
    forall first: nat, past: nat :: TierSlice(first, past, width, span) ==> RangesAgree(first, past, span, ncols)
  }

  ghost predicate BoundariesClean(width: nat, span: nat, ncols: nat)
    requires width > 0
  {
    forall past: nat :: 0 < past < span && past % width == 0 ==> EndsClean(past, span, ncols)
  }

  // On a tier's own slices the two agree if and only if no column begins strictly inside the
  // last millisecond before a bucket boundary.
  lemma TierRangesAgreeIff(width: nat, span: nat, ncols: nat)
    requires width > 0 && 1 <= ncols <= span
    ensures TierRangesAgree(width, span, ncols) <==> BoundariesClean(width, span, ncols)
  {
    hide RangesAgree, EndsClean;
    if BoundariesClean(width, span, ncols) {
      forall first: nat, past: nat | TierSlice(first, past, width, span) ensures RangesAgree(first, past, span, ncols) {
        WindowEndsClean(span, ncols);
        SliceAgreesIff(first, past, span, ncols);
      }
    }
    if TierRangesAgree(width, span, ncols) {
      forall past: nat | 0 < past < span && past % width == 0 ensures EndsClean(past, span, ncols) {
        FromTheStart(past, width, span);
        SliceAgreesIff(0, past, span, ncols);
      }
    }
  }

  lemma FromTheStart(past: nat, width: nat, span: nat)
    requires width > 0 && 0 < past < span && past % width == 0
    ensures TierSlice(0, past, width, span)
  {
  }

  lemma WindowEndsClean(span: nat, ncols: nat)
    requires span > 0
    ensures EndsClean(span, span, ncols)
  {
    var x := span * ncols;
    var q := x / span;
    Division(x, span);
    assert x == ncols * span && (q + 1) * span == q * span + span;
    Cancel(q, ncols, span);
    Cancel(ncols, q + 1, span);
    assert q * span == ncols * span;
    assert x % span == 0;
  }

  lemma WholeColumnsAgree(first: nat, past: nat, span: nat, ncols: nat, c: nat)
    requires first < past <= span && c < ncols <= span && span % ncols == 0
    ensures Col(first, span, ncols) <= c <= Col(past - 1, span, ncols) <==> RealOverlap(first, past, span, ncols, c)
  {
    FloorAtMost(first * ncols, span, c + 1);
    FloorAtMost((past - 1) * ncols, span, c);
    var q := span / ncols;
    Division(span, ncols);
    Regroup(c, q, ncols);
    Cancel(c * q, past, ncols);
    Cancel(c * q, past - 1, ncols);
  }

  lemma Division(span: nat, ncols: nat)
    requires ncols > 0
    ensures span == (span / ncols) * ncols + span % ncols
  {
  }

  lemma Cancel(x: nat, y: nat, n: nat)
    requires n > 0
    ensures x * n < y * n <==> x < y
    ensures x * n <= y * n <==> x <= y
  {
    if x < y {
      assert x * n + n <= y * n by { assert (x + 1) * n <= y * n; }
    } else {
      assert y * n <= x * n;
    }
  }

  lemma Regroup(c: nat, q: nat, n: nat)
    ensures c * (q * n) == (c * q) * n
  {
  }

  lemma OneDivides(span: nat)
    ensures span % 1 == 0
  {
  }

  // The slice ending in the millisecond that column 1 begins inside.
  lemma CutColumnDiffers(span: nat, ncols: nat)
    requires 1 <= ncols <= span && span % ncols != 0
    ensures var past := span / ncols + 1;
      && 0 < past <= span && 1 < ncols && RealOverlap(0, past, span, ncols, 1)
      && Col(past - 1, span, ncols) == 0
  {
    var q := span / ncols;
    Division(span, ncols);
    OneDivides(span);
    FloorAtMost(q * ncols, span, 1);
    assert q * ncols < span;
    assert (q + 1) * ncols == q * ncols + ncols;
    Cancel(q, span, ncols);
    FloorAtMost(span, ncols, span);
    Cancel(1, ncols, span);
  }
}
