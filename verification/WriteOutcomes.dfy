/** How the recorder turns a run of write results into edges (crates/history/src/lib.rs:336-370). */
module WriteOutcomes {
  import opened Base

  datatype Outcome = Ok | Err(error: string)

  datatype WriteTransition = Degraded(error: string) | Recovered(lost: nat)

  datatype WriteState = WriteState(failing: bool, failsInStreak: nat, pending: Option<WriteTransition>)

  const HEALTHY: WriteState := WriteState(false, 0, None)

  function Note(w: WriteState, r: Outcome): WriteState {
    match r
    case Ok =>
      if w.failing then WriteState(false, 0, Some(Recovered(w.failsInStreak))) else w
    case Err(e) =>
      WriteState(true, w.failsInStreak + 1, if w.failing then w.pending else Some(Degraded(e)))
  }

  // What a batch is for: its table, and the buckets, by device and key, whose rows it carries
  // (none for events).
  datatype Table = TenSecSamples | MinuteSamples | Processes | Events

  datatype Batch = Batch(table: Table, keys: set<(string, nat)>)

  // What happens to a recorder: a batch of `rows` rows is written, a prune runs, or the caller
  // takes the pending edge.
  datatype Op =
    | Write(result: Outcome, rows: nat, batch: Batch)
    | Prune(result: Outcome)
    | Take

  function After(ops: seq<Op>): WriteState {
    if ops == [] then HEALTHY
    else
      var w, last := After(ops[..|ops| - 1]), ops[|ops| - 1];
      if last.Take? then w.(pending := None) else Note(w, last.result)
  }

  predicate Fails(op: Op) {
    !op.Take? && op.result.Err?
  }

  // The edges taken so far, oldest first.
  function Taken(ops: seq<Op>): seq<WriteTransition> {
    if ops == [] then []
    else
      var front := ops[..|ops| - 1];
      Taken(front) + (if ops[|ops| - 1].Take? && After(front).pending.Some? then [After(front).pending.value] else [])
  }

  function Failures(ops: seq<Op>): nat {
    if ops == [] then 0
    else Failures(ops[..|ops| - 1]) + (if Fails(ops[|ops| - 1]) then 1 else 0)
  }

  function Lost(edges: seq<WriteTransition>): nat {
    if edges == [] then 0
    else Lost(edges[..|edges| - 1]) + (match edges[|edges| - 1] case Recovered(n) => n case Degraded(_) => 0)
  }

  function LostIn(edge: Option<WriteTransition>): nat {
    if edge.Some? && edge.value.Recovered? then edge.value.lost else 0
  }

  // Losses in recovery edges that a later edge replaced before anyone took them.
  function Overwritten(ops: seq<Op>): nat {
    if ops == [] then 0
    else
      var front, last := ops[..|ops| - 1], ops[|ops| - 1];
      var w := After(front);
      Overwritten(front) + (if !last.Take? && Note(w, last.result).pending != w.pending then LostIn(w.pending) else 0)
  }

  // The newest edge, whether taken already or still pending.
  function Latest(ops: seq<Op>): Option<WriteTransition> {
    var w := After(ops);
    if w.pending.Some? then w.pending
    else if Taken(ops) != [] then Some(Taken(ops)[|Taken(ops)| - 1])
    else None
  }

  // However lazily edges are taken, the newest edge tells whether writes are failing now.
  lemma {:induction false} LatestEdgeAgrees(ops: seq<Op>)
    ensures After(ops).failing <==> Latest(ops).Some? && Latest(ops).value.Degraded?
    ensures !After(ops).failing ==> After(ops).failsInStreak == 0
    ensures After(ops).failing ==> After(ops).failsInStreak > 0
  {
    if ops != [] {
      LatestEdgeAgrees(ops[..|ops| - 1]);
    }
  }

  lemma LostSnoc(edges: seq<WriteTransition>, e: WriteTransition)
    ensures Lost(edges + [e]) == Lost(edges) + LostIn(Some(e))
  {
    assert (edges + [e])[..|edges|] == edges;
  }

  // Every failed write is accounted for once: in a taken recovery edge, in the pending one, in
  // one overwritten before it was taken, or in the streak still open.
  lemma {:induction false} FailuresAccountedFor(ops: seq<Op>)
    ensures Failures(ops) == Lost(Taken(ops)) + LostIn(After(ops).pending) + Overwritten(ops) + After(ops).failsInStreak
  {
    if ops != [] {
      var front := ops[..|ops| - 1];
      FailuresAccountedFor(front);
      LatestEdgeAgrees(front);
      if ops[|ops| - 1].Take? && After(front).pending.Some? {
        LostSnoc(Taken(front), After(front).pending.value);
      } else {
        assert Taken(ops) == Taken(front);
      }
    }
  }

  // ---- one more operation ----

  lemma OneTry(ops: seq<Op>, op: Op)
    requires !op.Take?
    ensures var (w, next) := (After(ops), ops + [op]);
      && After(next) == Note(w, op.result) && Taken(next) == Taken(ops)
      && Failures(next) == Failures(ops) + (if Fails(op) then 1 else 0)
      && Overwritten(next) == Overwritten(ops) + (if Note(w, op.result).pending != w.pending then LostIn(w.pending) else 0)
  {
    assert (ops + [op])[..|ops|] == ops;
  }

  lemma OneTake(ops: seq<Op>)
    ensures var (w, next) := (After(ops), ops + [Take]);
      && After(next) == w.(pending := None) && Failures(next) == Failures(ops) && Overwritten(next) == Overwritten(ops)
      && Taken(next) == Taken(ops) + (if w.pending.Some? then [w.pending.value] else [])
  {
    assert (ops + [Take])[..|ops|] == ops;
  }

  // ---- a caller that takes after every write ----

  function Eager(tries: seq<Op>): seq<Op> {
    if tries == [] then [] else Eager(tries[..|tries| - 1]) + [tries[|tries| - 1], Take]
  }

  ghost predicate AllTries(tries: seq<Op>) {
    forall i :: 0 <= i < |tries| ==> !tries[i].Take?
  }

  ghost predicate AlternatesFromDegraded(edges: seq<WriteTransition>) {
    forall i :: 0 <= i < |edges| ==> (edges[i].Degraded? <==> i % 2 == 0)
  }

  lemma EagerStep(ops: seq<Op>, op: Op)
    requires After(ops).pending == None && !op.Take?
    ensures var w := Note(After(ops), op.result);
      && After(ops + [op, Take]) == w.(pending := None)
      && Taken(ops + [op, Take]) == Taken(ops) + (if w.pending.Some? then [w.pending.value] else [])
      && Failures(ops + [op, Take]) == Failures(ops) + (if Fails(op) then 1 else 0)
      && Overwritten(ops + [op, Take]) == Overwritten(ops)
  {
    assert ops + [op, Take] == ops + [op] + [Take];
    OneTry(ops, op);
    OneTake(ops + [op]);
  }

  lemma EagerSnoc(tries: seq<Op>, op: Op)
    ensures Eager(tries + [op]) == Eager(tries) + [op, Take]
  {
    assert (tries + [op])[..|tries|] == tries;
  }

  lemma AlternateSnoc(edges: seq<WriteTransition>, e: WriteTransition)
    requires AlternatesFromDegraded(edges) && (e.Degraded? <==> |edges| % 2 == 0)
    ensures AlternatesFromDegraded(edges + [e])
  {
  }

  // Nothing is pending, the edges taken alternate, and their number tells the present state.
  ghost predicate Settled(ops: seq<Op>) {
    && After(ops).pending == None && AlternatesFromDegraded(Taken(ops))
    && (After(ops).failing <==> |Taken(ops)| % 2 == 1)
  }

  lemma EagerStepSettles(ops: seq<Op>, op: Op)
    requires Settled(ops) && !op.Take?
    ensures Settled(ops + [op, Take]) && (After(ops + [op, Take]).failing <==> Fails(op))
  {
    EagerStep(ops, op);
    var w, edges := Note(After(ops), op.result), Taken(ops);
    hide After, Taken, AlternatesFromDegraded;
    if w.pending.Some? {
      AlternateSnoc(edges, w.pending.value);
    } else {
      assert edges + [] == edges;
    }
  }

  // Taken after each write, the edges alternate starting with a degradation, the number of
  // edges tells the present state, and the losses they report plus the open streak are all
  // the failures there were.
  lemma {:induction false} EagerEdgesAlternate(tries: seq<Op>)
    requires AllTries(tries)
    ensures Settled(Eager(tries))
    ensures After(Eager(tries)).failing <==> tries != [] && Fails(tries[|tries| - 1])
    ensures Failures(Eager(tries)) == Lost(Taken(Eager(tries))) + After(Eager(tries)).failsInStreak
  {
    NothingOverwritten(tries);
    FailuresAccountedFor(Eager(tries));
    if tries != [] {
      var front, op := tries[..|tries| - 1], tries[|tries| - 1];
      assert tries == front + [op];
      EagerEdgesAlternate(front);
      EagerSnoc(front, op);
      hide Eager, After, Taken, Failures, Overwritten, Lost, Settled;
      EagerStepSettles(Eager(front), op);
    } else {
      assert Eager(tries) == [];
    }
  }

  lemma {:induction false} NothingOverwritten(tries: seq<Op>)
    requires AllTries(tries)
    ensures After(Eager(tries)).pending == None && Overwritten(Eager(tries)) == 0
  {
    if tries != [] {
      var front, op := tries[..|tries| - 1], tries[|tries| - 1];
      assert tries == front + [op];
      NothingOverwritten(front);
      EagerSnoc(front, op);
      EagerStep(Eager(front), op);
    }
  }

  // ---- the schedule of takes that loses nothing ----

  // The last thing tried failed: nothing has ended the streak since.
  predicate LastTryFailed(ops: seq<Op>) {
    ops != [] && (if ops[|ops| - 1].Take? then LastTryFailed(ops[..|ops| - 1]) else Fails(ops[|ops| - 1]))
  }

  lemma {:induction false} FailingIsLastTry(ops: seq<Op>)
    ensures After(ops).failing <==> LastTryFailed(ops)
    ensures LostIn(After(ops).pending) > 0 <==> After(ops).pending.Some? && After(ops).pending.value.Recovered?
  {
    if ops != [] {
      FailingIsLastTry(ops[..|ops| - 1]);
      LatestEdgeAgrees(ops[..|ops| - 1]);
    }
  }

  // Operation i succeeds right after a failure.
  predicate EndsStreak(ops: seq<Op>, i: nat) {
    i < |ops| && !ops[i].Take? && ops[i].result.Ok? && LastTryFailed(ops[..i])
  }

  ghost predicate NoTakeIn(ops: seq<Op>, from: nat, to: nat)
    requires to <= |ops|
  {
    forall k :: from <= k < to ==> !ops[k].Take?
  }

  // A failing write follows a streak-ending success with no take between the two.
  ghost predicate Careless(ops: seq<Op>) {
    exists i: nat, j: nat :: i < j < |ops| && EndsStreak(ops, i) && Fails(ops[j]) && NoTakeIn(ops, i, j)
  }

  // A streak-ending success that nothing has taken or overwritten yet.
  ghost predicate Untaken(ops: seq<Op>, i: nat) {
    EndsStreak(ops, i) && forall k :: i < k < |ops| ==> !ops[k].Take? && !Fails(ops[k])
  }

  lemma EndsStreakSnoc(ops: seq<Op>, op: Op, i: nat)
    ensures i < |ops| ==> (EndsStreak(ops + [op], i) <==> EndsStreak(ops, i))
    ensures EndsStreak(ops + [op], |ops|) <==> !op.Take? && op.result.Ok? && LastTryFailed(ops)
  {
    assert i < |ops| ==> (ops + [op])[..i] == ops[..i];
    assert (ops + [op])[..|ops|] == ops;
  }

  // The pending edge is a recovery exactly while such a success is untaken.
  lemma {:induction false} PendingRecoveryIff(ops: seq<Op>)
    ensures LostIn(After(ops).pending) > 0 <==> exists i: nat :: Untaken(ops, i)
  {
    FailingIsLastTry(ops);
    if ops != [] {
      var front, op := ops[..|ops| - 1], ops[|ops| - 1];
      assert ops == front + [op];
      PendingRecoveryIff(front);
      FailingIsLastTry(front);
      LatestEdgeAgrees(front);
      if op.Take? {
        OneTake(front);
      } else {
        OneTry(front, op);
      }
      hide After, LastTryFailed, EndsStreak;
      EndsStreakSnoc(front, op, 0);
      if i: nat :| Untaken(front, i) {
        EndsStreakSnoc(front, op, i);
        assert !op.Take? && !Fails(op) ==> Untaken(ops, i);
      }
      if i: nat :| Untaken(ops, i) && i < |front| {
        EndsStreakSnoc(front, op, i);
        assert Untaken(front, i);
      }
      if LastTryFailed(front) && !op.Take? && !Fails(op) {
        assert Untaken(ops, |front|);
      }
    }
  }

  // A recovery is overwritten before it was taken exactly under a careless schedule.
  lemma {:induction false} OverwrittenIff(ops: seq<Op>)
    ensures Overwritten(ops) > 0 <==> Careless(ops)
  {
    if ops != [] {
      var front, op := ops[..|ops| - 1], ops[|ops| - 1];
      assert ops == front + [op];
      OverwrittenIff(front);
      PendingRecoveryIff(front);
      FailingIsLastTry(front);
      LatestEdgeAgrees(front);
      if op.Take? {
        OneTake(front);
      } else {
        OneTry(front, op);
      }
      hide After, Overwritten, LastTryFailed;
      CarelessSnoc(front, op);
    }
  }

  lemma CarelessSnoc(front: seq<Op>, op: Op)
    ensures Careless(front + [op]) <==> Careless(front) || (Fails(op) && exists i: nat :: Untaken(front, i))
  {
    hide EndsStreak;
    var ops := front + [op];
    assert forall k :: 0 <= k < |front| ==> ops[k] == front[k];
    if Careless(front) {
      var i: nat, j: nat :| i < j < |front| && EndsStreak(front, i) && Fails(front[j]) && NoTakeIn(front, i, j);
      EndsStreakSnoc(front, op, i);
      assert NoTakeIn(ops, i, j) && Fails(ops[j]);
    }
    if Fails(op) {
      if i: nat :| Untaken(front, i) {
        UntakenBefore(front, i);
        EndsStreakSnoc(front, op, i);
        assert NoTakeIn(ops, i, |front|) && Fails(ops[|front|]);
      }
    }
    if Careless(ops) {
      var i: nat, j: nat :| i < j < |ops| && EndsStreak(ops, i) && Fails(ops[j]) && NoTakeIn(ops, i, j);
      UntakenBefore(ops, i);
      EndsStreakSnoc(front, op, i);
      if forall k :: i < k < |front| ==> !Fails(front[k]) {
        assert j == |front|;
        assert Untaken(front, i);
      } else {
        var k :| i < k < |front| && Fails(front[k]);
        assert k <= j ==> NoTakeIn(front, i, k);
        assert j < k ==> NoTakeIn(front, i, j) && Fails(front[j]);
      }
    }
  }

  lemma UntakenBefore(ops: seq<Op>, i: nat)
    ensures EndsStreak(ops, i) ==> i < |ops| && !ops[i].Take?
  {
  }

  // Taken lazily, the reported losses are complete if and only if every streak-ending success
  // is taken before the next failure.
  lemma LazyLossesCompleteIff(ops: seq<Op>)
    ensures Failures(ops) == Lost(Taken(ops)) + LostIn(After(ops).pending) + After(ops).failsInStreak <==> !Careless(ops)
  {
    FailuresAccountedFor(ops);
    OverwrittenIff(ops);
  }

  // ... and it can be careless: fail, succeed, fail between two takes.
  lemma LazyTakingCanLoseACount(e: string, batch: Batch)
    ensures var ops := [Write(Err(e), 1, batch), Write(Ok, 1, batch), Write(Err(e), 1, batch), Take];
      Failures(ops) == 2 && Lost(Taken(ops)) == 0 && After(ops).failsInStreak == 1 && Overwritten(ops) == 1
  {
    var fail, succeed := Write(Err(e), 1, batch), Write(Ok, 1, batch);
    var a, b, c, d := [fail], [fail, succeed], [fail, succeed, fail], [fail, succeed, fail, Take];
    assert a == [] + [fail] && b == a + [succeed] && c == b + [fail] && d == c + [Take];
    OneTry([], Write(Err(e), 1, batch));
    OneTry(a, Write(Ok, 1, batch));
    OneTry(b, Write(Err(e), 1, batch));
    OneTake(c);
    LostSnoc([], Degraded(e));
    NothingYet();
    hide After, Taken, Failures, Overwritten;
    assert [] + [Degraded(e)] == [Degraded(e)];
  }

  lemma NothingYet()
    ensures After([]) == HEALTHY && Taken([]) == [] && Failures([]) == 0 && Overwritten([]) == 0
  {
  }

  // ---- recoveries from an empty batch ----

  // An empty batch returns before touching the database, so it cannot fail.
  ghost predicate Possible(ops: seq<Op>) {
    forall i :: 0 <= i < |ops| && ops[i].Write? && ops[i].rows == 0 ==> ops[i].result.Ok?
  }

  // The operations of a recorder whose batches have these sizes, with or without prunes.
  ghost predicate Within(ops: seq<Op>, sizes: set<nat>, prunes: bool) {
    forall i :: 0 <= i < |ops| ==>
      match ops[i]
      case Write(_, n, _) => n in sizes
      case Prune(_) => prunes
      case Take => true
  }

  // Whenever a streak of failures ends, a batch with rows has just been written.
  ghost predicate RecoveriesDeliver(sizes: set<nat>, prunes: bool) {
    forall ops: seq<Op>, i: nat :: Possible(ops) && Within(ops, sizes, prunes) && EndsStreak(ops, i) ==>
      ops[i].Write? && ops[i].rows > 0
  }

  // "Writes have started succeeding again" is true of every recovery if and only if no prune
  // runs and empty batches are never mixed with batches that can fail.
  lemma RecoveriesDeliverIff(sizes: set<nat>, prunes: bool)
    ensures RecoveriesDeliver(sizes, prunes) <==> !prunes && !(0 in sizes && exists n: nat :: n in sizes && n > 0)
  {
    if prunes {
      var ops := [Prune(Err("")), Prune(Ok)];
      FailThenSucceed(ops);
      assert Possible(ops) && Within(ops, sizes, prunes) && !ops[1].Write?;
    } else if n: nat :| 0 in sizes && n in sizes && n > 0 {
      var ops := [Write(Err(""), n, Batch(Events, {})), Write(Ok, 0, Batch(Events, {}))];
      FailThenSucceed(ops);
      assert Possible(ops) && Within(ops, sizes, prunes) && ops[1].rows == 0;
    } else {
      forall ops: seq<Op>, i: nat | Possible(ops) && Within(ops, sizes, prunes) && EndsStreak(ops, i)
        ensures ops[i].Write? && ops[i].rows > 0
      {
        var j := FailureBefore(ops[..i]);
        assert ops[..i][j] == ops[j] && ops[i].Write? && ops[j].Write?;
      }
    }
  }

  lemma FailThenSucceed(ops: seq<Op>)
    requires |ops| == 2 && Fails(ops[0]) && !ops[1].Take? && ops[1].result.Ok?
    ensures EndsStreak(ops, 1)
  {
    assert ops[..1] == [ops[0]];
  }

  lemma {:induction false} FailureBefore(ops: seq<Op>) returns (j: nat)
    requires LastTryFailed(ops)
    ensures j < |ops| && Fails(ops[j])
  {
    if ops[|ops| - 1].Take? {
      j := FailureBefore(ops[..|ops| - 1]);
    } else {
      j := |ops| - 1;
    }
  }

  // A full disk: a row fails, an empty batch "succeeds", and a recovery is reported with
  // nothing written.
  lemma EmptyBatchReportsRecovery(e: string, rows: nat, full: Batch, empty: Batch)
    requires rows > 0
    ensures var ops := [Write(Err(e), rows, full), Write(Ok, 0, empty)];
      Possible(ops) && After(ops) == WriteState(false, 0, Some(Recovered(1)))
  {
    var a := [Write(Err(e), rows, full)];
    assert a == [] + a && [Write(Err(e), rows, full), Write(Ok, 0, empty)] == a + [Write(Ok, 0, empty)];
    NothingYet();
    OneTry([], Write(Err(e), rows, full));
    OneTry(a, Write(Ok, 0, empty));
  }
}
