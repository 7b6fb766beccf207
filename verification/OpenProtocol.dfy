/** Opening a history database for writing (crates/history/src/store.rs:369-431, 490-590,
    613-650, 745-769) as a protocol between openers that share one path. Each opener may belong
    to a different build, may stop dead at any point, and may be interleaved with the others in
    any way. Locks, files and renames are abstract; what can fail in the environment is a choice. */
module OpenProtocol {
  import opened Base

  datatype Source = Real | Mock

  // What is at the path. `rows` lists, for every row, the source it was recorded from (None
  // for rows written through a handle that is not a recording).
  datatype File =
    | Absent
    | Garbage                                   // exists, but its version cannot be read
    | Db(version: nat, sound: bool, source: Option<Source>, rows: seq<Option<Source>>)

  // One attempt to open the path: the schema version its build writes, the source it records,
  // if it opens for recording, and the second its clock shows should it move a file aside (0
  // for a clock before 1970).
  datatype Opener = Opener(build: nat, want: Option<Source>, second: nat)

  // A file moved aside, by whom and under which second's name.
  datatype Aside = Aside(opener: nat, second: nat, file: File)

  datatype Error = Locked | LockIo | SchemaTooNew | NoDataDir | DataSourceMismatch | Sqlite

  // Where an opener stands; `existed` is whether a file was there before it connected.
  datatype Phase =
    | Idle
    | HasLock
    | Guarded                                   // the read-only version probe let it pass
    | Connected(existed: bool)                  // a read-write connection, version checked
    | Stamped(existed: bool)                    // schema initialised and stamped
    | Failed(checked: bool)                     // unusable file, to be moved aside; `checked`: its version was read
    | Cleared                                   // moved aside
    | Reconnected
    | Opened(wasReset: bool)
    | Handle(wasReset: bool)                    // a live write handle
    | Refusing(error: Error)                    // returning an error, the lock not yet dropped
    | Refused(error: Error)
    | Gone                                      // dropped or crashed

  // `quarantined` is what lies beside the path, under the second in its name; `aside` remembers
  // every file moved there, oldest first, and `touched` the openers that have changed the file
  // or moved it aside.
  datatype World = World(lock: Option<nat>, file: File, quarantined: map<nat, File>, phases: map<nat, Phase>,
                         touched: set<nat>, aside: seq<Aside>)

  predicate Holding(ph: Phase) {
    !(ph.Idle? || ph.Refused? || ph.Gone?)
  }

  function PhaseOf(w: World, p: nat): Phase {
    if p in w.phases then w.phases[p] else Idle
  }

  // p moves to phase `ph`, keeping the lock.
  function Move(w: World, p: nat, ph: Phase): World {
    w.(phases := w.phases[p := ph])
  }

  // p moves to `ph` and changes what is at the path.
  function Change(w: World, p: nat, ph: Phase, file: File): World {
    w.(phases := w.phases[p := ph], file := file, touched := w.touched + {p})
  }

  // p moves the file aside. The name carries only the second, and a rename replaces what has
  // that name already.
  function SetAside(w: World, p: nat, ph: Phase, second: nat): World {
    Change(w, p, ph, Absent).(quarantined := w.quarantined[second := w.file], aside := w.aside + [Aside(p, second, w.file)])
  }

  // p stops, and the kernel lock goes with it.
  function Release(w: World, p: nat, ph: Phase): World {
    w.(phases := w.phases[p := ph], lock := if w.lock == Some(p) then None else w.lock)
  }

  // ---- the steps of one opener ----

  predicate AcquireStep(w: World, w': World, p: nat) {
    && PhaseOf(w, p).Idle?
    && (|| (w.lock.None? && w' == Move(w, p, HasLock).(lock := Some(p)))
        || (w.lock.Some? && w' == Move(w, p, Refused(Locked)))
        || w' == Move(w, p, Refused(LockIo))
        || w' == Move(w, p, Refused(NoDataDir)))
  }

  // The read-only probe refuses a newer file; a probe that cannot read leaves the verdict open.
  predicate ProbeStep(w: World, w': World, p: nat, o: Opener) {
    && PhaseOf(w, p).HasLock?
    && (|| w' == Move(w, p, Guarded)
        || (w.file.Db? && w.file.version > o.build && w' == Move(w, p, Refusing(SchemaTooNew))))
    && (w.file.Absent? ==> w' == Move(w, p, Guarded))
  }

  // Connecting creates an absent file with version 0; the version is checked again on the
  // read-write connection before anything is written.
  predicate ConnectStep(w: World, w': World, p: nat, o: Opener) {
    && PhaseOf(w, p).Guarded?
    && (|| (w.file.Absent? && w' == Change(w, p, Connected(false), Db(0, true, None, [])))
        || (w.file.Db? && w.file.version <= o.build && w' == Move(w, p, Connected(true)))
        || (w.file.Db? && w.file.version > o.build && w' == Move(w, p, Refusing(SchemaTooNew)))
        || w' == Move(w, p, Failed(false)))
  }

  predicate StampStep(w: World, w': World, p: nat, o: Opener) {
    && PhaseOf(w, p).Connected?
    && (|| (w.file.Db? && w' == Change(w, p, Stamped(PhaseOf(w, p).existed), w.file.(version := o.build)))
        || w' == Move(w, p, Failed(true)))
  }

  // A file that was there before must pass the integrity check; a sound one may still fail
  // to answer it.
  predicate CheckStep(w: World, w': World, p: nat) {
    && PhaseOf(w, p).Stamped?
    && (|| ((PhaseOf(w, p).existed ==> w.file.Db? && w.file.sound) && w' == Move(w, p, Opened(false)))
        || (PhaseOf(w, p).existed && w' == Move(w, p, Failed(true))))
  }

  predicate QuarantineStep(w: World, w': World, p: nat, o: Opener) {
    && PhaseOf(w, p).Failed?
    && (|| (!w.file.Absent? && w' == SetAside(w, p, Cleared, o.second))
        || w' == Move(w, p, Refusing(NoDataDir)))
  }

  predicate ReconnectStep(w: World, w': World, p: nat, o: Opener) {
    && PhaseOf(w, p).Cleared?
    && (|| (w.file.Absent? && w' == Change(w, p, Reconnected, Db(0, true, None, [])))
        || (w.file.Db? && w.file.version <= o.build && w' == Move(w, p, Reconnected))
        || (w.file.Db? && w.file.version > o.build && w' == Move(w, p, Refusing(SchemaTooNew)))
        || w' == Move(w, p, Refusing(Sqlite)))
  }

  predicate RestampStep(w: World, w': World, p: nat, o: Opener) {
    && PhaseOf(w, p).Reconnected?
    && (|| (w.file.Db? && w' == Change(w, p, Opened(true), w.file.(version := o.build)))
        || w' == Move(w, p, Refusing(Sqlite)))
  }

  // A recording claims an unstamped file and refuses one stamped with the other source.
  predicate ClaimStep(w: World, w': World, p: nat, o: Opener) {
    && PhaseOf(w, p).Opened? && w.file.Db?
    && var h := Handle(PhaseOf(w, p).wasReset);
    (|| (o.want.None? && w' == Move(w, p, h))
     || (o.want.Some? && w.file.source.None? && w' == Change(w, p, h, w.file.(source := o.want)))
     || (o.want.Some? && w.file.source == o.want && w' == Move(w, p, h))
     || (o.want.Some? && w.file.source.Some? && w.file.source != o.want && w' == Move(w, p, Refusing(DataSourceMismatch)))
     || (o.want.Some? && w' == Move(w, p, Refusing(Sqlite))))
  }

  // Through a live handle rows are appended and, by retention, dropped.
  predicate WriteStep(w: World, w': World, p: nat, o: Opener) {
    && PhaseOf(w, p).Handle? && w.file.Db?
    && (|| w' == Change(w, p, PhaseOf(w, p), w.file.(rows := w.file.rows + [o.want]))
        || exists n :: 0 <= n <= |w.file.rows| && w' == Change(w, p, PhaseOf(w, p), w.file.(rows := w.file.rows[n..])))
  }

  // An error return drops the lock.
  predicate ReturnStep(w: World, w': World, p: nat) {
    PhaseOf(w, p).Refusing? && w' == Release(w, p, Refused(PhaseOf(w, p).error))
  }

  // Dropping the handle, or dying at any point.
  predicate StopStep(w: World, w': World, p: nat) {
    Holding(PhaseOf(w, p)) && w' == Release(w, p, Gone)
  }

  predicate OpeningStep(w: World, w': World, p: nat, o: Opener) {
    || AcquireStep(w, w', p)
    || ProbeStep(w, w', p, o)
    || ConnectStep(w, w', p, o)
    || StampStep(w, w', p, o)
    || CheckStep(w, w', p)
  }

  predicate RecoveryStep(w: World, w': World, p: nat, o: Opener) {
    || QuarantineStep(w, w', p, o)
    || ReconnectStep(w, w', p, o)
    || RestampStep(w, w', p, o)
  }

  predicate SessionStep(w: World, w': World, p: nat, o: Opener) {
    || ClaimStep(w, w', p, o)
    || WriteStep(w, w', p, o)
    || ReturnStep(w, w', p)
    || StopStep(w, w', p)
  }

  predicate OpenerStep(w: World, w': World, p: nat, o: Opener) {
    OpeningStep(w, w', p, o) || RecoveryStep(w, w', p, o) || SessionStep(w, w', p, o)
  }

  // ---- runs ----

  // Any opener's next step, in any interleaving.
  datatype History = History(worlds: seq<World>, who: seq<nat>, openers: map<nat, Opener>)

  ghost predicate IsHistory(h: History) {
    && |h.worlds| == |h.who| + 1
    && h.worlds[0].lock == None && h.worlds[0].quarantined == map[] && h.worlds[0].phases == map[]
    && h.worlds[0].touched == {} && h.worlds[0].aside == []
    && forall k :: 0 <= k < |h.who| ==>
         h.who[k] in h.openers && OpenerStep(h.worlds[k], h.worlds[k + 1], h.who[k], h.openers[h.who[k]])
  }

  // The lock is held by the one opener past acquisition and not yet stopped.
  ghost predicate LockInv(w: World) {
    forall p: nat :: Holding(PhaseOf(w, p)) <==> w.lock == Some(p)
  }

  // What the file must be while an opener is in a given phase.
  predicate FileFits(f: File, ph: Phase, o: Opener) {
    && (ph.Connected? || ph.Reconnected? ==> f.Db? && f.version <= o.build)
    && (ph.Stamped? || ph.Opened? || ph.Handle? ==> f.Db? && f.version == o.build)
    && (ph.Failed? && ph.checked ==> f.Db? && f.version <= o.build)
    && (ph.Cleared? ==> f.Absent?)
    && (ph.Handle? && o.want.Some? ==> f.source == o.want)
  }

  ghost predicate PhaseInv(h: History, w: World) {
    forall p :: p in h.openers ==> FileFits(w.file, PhaseOf(w, p), h.openers[p])
  }

  // Openers that have not got past the version guards have touched nothing.
  ghost predicate UntouchedInv(w: World) {
    forall p :: p in w.touched ==> MayHaveTouched(PhaseOf(w, p))
  }

  ghost predicate Inv(h: History, w: World) {
    LockInv(w) && PhaseInv(h, w) && UntouchedInv(w)
  }

  // p's own step keeps its own claim on the lock and leaves everyone else where they were.
  predicate OwnClaimKept(w: World, w': World, p: nat) {
    && (Holding(PhaseOf(w', p)) <==> w'.lock == Some(p))
    && (w'.lock == w.lock || ((w.lock == None || w.lock == Some(p)) && (w'.lock == None || w'.lock == Some(p))))
    && (w'.file != w.file || w'.aside != w.aside ==> w.lock == Some(p))
  }

  lemma OwnStep(w: World, w': World, p: nat, o: Opener)
    requires Holding(PhaseOf(w, p)) <==> w.lock == Some(p)
    requires OpenerStep(w, w', p, o)
    ensures OwnClaimKept(w, w', p)
  {
    if AcquireStep(w, w', p) || ProbeStep(w, w', p, o) || ConnectStep(w, w', p, o) {
    } else if StampStep(w, w', p, o) || CheckStep(w, w', p) || QuarantineStep(w, w', p, o) {
    } else if ReconnectStep(w, w', p, o) || RestampStep(w, w', p, o) || ClaimStep(w, w', p, o) {
    } else if WriteStep(w, w', p, o) || ReturnStep(w, w', p) || StopStep(w, w', p) {
    }
  }

  lemma OpeningOthersStay(w: World, w': World, p: nat, q: nat, o: Opener)
    requires OpeningStep(w, w', p, o) && q != p
    ensures PhaseOf(w', q) == PhaseOf(w, q)
  {
  }

  lemma RecoveryOthersStay(w: World, w': World, p: nat, q: nat, o: Opener)
    requires RecoveryStep(w, w', p, o) && q != p
    ensures PhaseOf(w', q) == PhaseOf(w, q)
  {
  }

  lemma SessionOthersStay(w: World, w': World, p: nat, q: nat, o: Opener)
    requires SessionStep(w, w', p, o) && q != p
    ensures PhaseOf(w', q) == PhaseOf(w, q)
  {
  }

  lemma OthersStay(w: World, w': World, p: nat, q: nat, o: Opener)
    requires OpenerStep(w, w', p, o) && q != p
    ensures PhaseOf(w', q) == PhaseOf(w, q)
  {
    hide OpeningStep, RecoveryStep, SessionStep, FileFits, MayHaveTouched;
    if OpeningStep(w, w', p, o) {
      OpeningOthersStay(w, w', p, q, o);
    } else if RecoveryStep(w, w', p, o) {
      RecoveryOthersStay(w, w', p, q, o);
    } else {
      SessionOthersStay(w, w', p, q, o);
    }
  }

  lemma StepKeepsLock(w: World, w': World, p: nat, o: Opener)
    requires LockInv(w) && OpenerStep(w, w', p, o)
    ensures LockInv(w')
    ensures forall q: nat :: q != p ==> PhaseOf(w', q) == PhaseOf(w, q)
    ensures w'.file != w.file || w'.aside != w.aside ==> w.lock == Some(p)
  {
    hide OpenerStep, Holding;
    assert Holding(PhaseOf(w, p)) <==> w.lock == Some(p);
    OwnStep(w, w', p, o);
    forall q: nat | q != p ensures PhaseOf(w', q) == PhaseOf(w, q) {
      OthersStay(w, w', p, q, o);
    }
    forall q: nat ensures Holding(PhaseOf(w', q)) <==> w'.lock == Some(q) {
      assert Holding(PhaseOf(w, q)) <==> w.lock == Some(q);
    }
  }

  lemma OpeningFits(w: World, w': World, p: nat, o: Opener)
    requires OpeningStep(w, w', p, o) && FileFits(w.file, PhaseOf(w, p), o)
    ensures FileFits(w'.file, PhaseOf(w', p), o)
  {
  }

  lemma RecoveryFits(w: World, w': World, p: nat, o: Opener)
    requires RecoveryStep(w, w', p, o) && FileFits(w.file, PhaseOf(w, p), o)
    ensures FileFits(w'.file, PhaseOf(w', p), o)
  {
  }

  lemma SessionFits(w: World, w': World, p: nat, o: Opener)
    requires SessionStep(w, w', p, o) && FileFits(w.file, PhaseOf(w, p), o)
    ensures FileFits(w'.file, PhaseOf(w', p), o)
  {
  }

  lemma StepFits(w: World, w': World, p: nat, o: Opener)
    requires OpenerStep(w, w', p, o) && FileFits(w.file, PhaseOf(w, p), o)
    ensures FileFits(w'.file, PhaseOf(w', p), o)
  {
    hide OpeningStep, RecoveryStep, SessionStep, FileFits, MayHaveTouched;
    if OpeningStep(w, w', p, o) {
      OpeningFits(w, w', p, o);
    } else if RecoveryStep(w, w', p, o) {
      RecoveryFits(w, w', p, o);
    } else {
      SessionFits(w, w', p, o);
    }
  }

  lemma StepKeepsInv(h: History, w: World, w': World, p: nat)
    requires Inv(h, w) && p in h.openers && OpenerStep(w, w', p, h.openers[p])
    ensures Inv(h, w')
  {
    hide OpenerStep, FileFits;
    var o := h.openers[p];
    StepKeepsLock(w, w', p, o);
    StepFits(w, w', p, o);
    StepTouches(w, w', p, o);
    forall q | q in h.openers ensures FileFits(w'.file, PhaseOf(w', q), h.openers[q]) {
      if q != p {
        // either the file is as it was, or p holds the lock and q is nowhere past it
        assert Holding(PhaseOf(w, q)) <==> w.lock == Some(q);
        assert FileFits(w.file, PhaseOf(w, q), h.openers[q]);
        NotHoldingFits(w'.file, PhaseOf(w, q), h.openers[q]);
      }
    }
  }

  lemma NotHoldingFits(f: File, ph: Phase, o: Opener)
    ensures !Holding(ph) ==> FileFits(f, ph, o)
  {
  }

  // A step that changes what is at the path records its opener, and an opener that has
  // touched the path does not fall back among those that have not.
  predicate MayHaveTouched(ph: Phase) {
    && !ph.Idle? && !ph.HasLock? && !ph.Guarded? && ph != Refused(Locked) && ph != Refused(SchemaTooNew)
    && ph != Refusing(Locked) && ph != Refusing(SchemaTooNew)
  }

  lemma TouchRecorded(w: World, w': World, p: nat, o: Opener)
    requires OpenerStep(w, w', p, o)
    ensures w.touched <= w'.touched <= w.touched + {p}
    ensures w'.file != w.file || w'.aside != w.aside ==> p in w'.touched
    ensures w'.aside == w.aside ==> w'.quarantined == w.quarantined
  {
  }

  lemma OpeningTouchStays(w: World, w': World, p: nat, o: Opener)
    requires OpeningStep(w, w', p, o) && FileFits(w.file, PhaseOf(w, p), o)
    requires p in w.touched ==> MayHaveTouched(PhaseOf(w, p))
    ensures p in w'.touched ==> MayHaveTouched(PhaseOf(w', p))
  {
  }

  lemma RecoveryTouchStays(w: World, w': World, p: nat, o: Opener)
    requires RecoveryStep(w, w', p, o) && FileFits(w.file, PhaseOf(w, p), o)
    requires p in w.touched ==> MayHaveTouched(PhaseOf(w, p))
    ensures p in w'.touched ==> MayHaveTouched(PhaseOf(w', p))
  {
  }

  lemma SessionTouchStays(w: World, w': World, p: nat, o: Opener)
    requires SessionStep(w, w', p, o) && FileFits(w.file, PhaseOf(w, p), o)
    requires p in w.touched ==> MayHaveTouched(PhaseOf(w, p))
    ensures p in w'.touched ==> MayHaveTouched(PhaseOf(w', p))
  {
  }

  lemma TouchStays(w: World, w': World, p: nat, o: Opener)
    requires OpenerStep(w, w', p, o) && FileFits(w.file, PhaseOf(w, p), o)
    requires p in w.touched ==> MayHaveTouched(PhaseOf(w, p))
    ensures p in w'.touched ==> MayHaveTouched(PhaseOf(w', p))
  {
    hide OpeningStep, RecoveryStep, SessionStep, FileFits, MayHaveTouched;
    if OpeningStep(w, w', p, o) {
      OpeningTouchStays(w, w', p, o);
    } else if RecoveryStep(w, w', p, o) {
      RecoveryTouchStays(w, w', p, o);
    } else {
      SessionTouchStays(w, w', p, o);
    }
  }

  lemma StepTouches(w: World, w': World, p: nat, o: Opener)
    requires OpenerStep(w, w', p, o) && UntouchedInv(w) && FileFits(w.file, PhaseOf(w, p), o)
    ensures UntouchedInv(w')
    ensures w'.file != w.file || w'.aside != w.aside ==> p in w'.touched
    ensures w'.aside == w.aside ==> w'.quarantined == w.quarantined
    ensures w.touched <= w'.touched
  {
    hide OpenerStep, FileFits, MayHaveTouched;
    TouchRecorded(w, w', p, o);
    TouchStays(w, w', p, o);
    forall q | q in w'.touched ensures MayHaveTouched(PhaseOf(w', q)) {
      if q != p {
        OthersStay(w, w', p, q, o);
      }
    }
  }

  lemma {:induction false} AlwaysInv(h: History, k: nat)
    requires IsHistory(h) && k <= |h.who|
    ensures Inv(h, h.worlds[k])
  {
    hide OpenerStep;
    if k > 0 {
      AlwaysInv(h, k - 1);
      StepKeepsInv(h, h.worlds[k - 1], h.worlds[k], h.who[k - 1]);
    }
  }

  // ---- safety ----

  // At most one opener at a time holds a live write handle, or is anywhere on the way to one
  // past the lock; and whoever changes the file holds it.
  lemma OneWriter(h: History, k: nat, p: nat, q: nat)
    requires IsHistory(h) && k <= |h.who|
    requires Holding(PhaseOf(h.worlds[k], p)) && Holding(PhaseOf(h.worlds[k], q))
    ensures p == q && h.worlds[k].lock == Some(p)
  {
    hide OpenerStep;
    AlwaysInv(h, k);
  }

  // An opener that ends refused as Locked or SchemaTooNew changed nothing in any step it took,
  // and moved nothing aside.
  lemma RefusalTouchesNothing(h: History, k: nat, p: nat, j: nat)
    requires IsHistory(h) && j < k <= |h.who| && h.who[j] == p
    requires PhaseOf(h.worlds[k], p) in {Refused(Locked), Refused(SchemaTooNew)}
    ensures h.worlds[j + 1].file == h.worlds[j].file && h.worlds[j + 1].aside == h.worlds[j].aside
    ensures h.worlds[j + 1].quarantined == h.worlds[j].quarantined
  {
    hide OpenerStep;
    AlwaysInv(h, k);
    AlwaysInv(h, j);
    StepTouches(h.worlds[j], h.worlds[j + 1], p, h.openers[p]);
    TouchedGrows(h, j + 1, k);
    assert p !in h.worlds[k].touched;
  }

  // Nobody is refused without cause: SchemaTooNew by a file newer than the opener's build, and
  // Locked by another opener's lock.
  lemma RefusalsAreEarned(h: History, k: nat)
    requires IsHistory(h) && k < |h.who|
    ensures var (w, w', p) := (h.worlds[k], h.worlds[k + 1], h.who[k]);
      && (PhaseOf(w', p) == Refusing(SchemaTooNew) && PhaseOf(w, p) != Refusing(SchemaTooNew) ==>
            w.file.Db? && w.file.version > h.openers[p].build)
      && (PhaseOf(w', p) == Refused(Locked) && PhaseOf(w, p).Idle? ==> w.lock.Some? && w.lock != Some(p))
  {
    AlwaysInv(h, k);
    var (w, w', p) := (h.worlds[k], h.worlds[k + 1], h.who[k]);
    assert OpenerStep(w, w', p, h.openers[p]);
    assert Holding(PhaseOf(w, p)) <==> w.lock == Some(p);
  }

  lemma {:induction false} TouchedGrows(h: History, j: nat, k: nat)
    requires IsHistory(h) && j <= k <= |h.who|
    ensures h.worlds[j].touched <= h.worlds[k].touched
  {
    hide OpenerStep;
    if j < k {
      TouchedGrows(h, j, k - 1);
      AlwaysInv(h, k - 1);
      StepTouches(h.worlds[k - 1], h.worlds[k], h.who[k - 1], h.openers[h.who[k - 1]]);
    }
  }

  // ---- the version stamp ----

  // As long as nothing is moved aside, a readable file stays readable and its version is
  // never lowered, whatever builds open it.
  lemma {:induction false} VersionNeverLowered(h: History, j: nat, k: nat)
    requires IsHistory(h) && j <= k <= |h.who|
    requires h.worlds[j].file.Db? && h.worlds[k].aside == h.worlds[j].aside
    ensures h.worlds[k].file.Db? && h.worlds[k].file.version >= h.worlds[j].file.version
  {
    hide OpenerStep;
    if j < k {
      MovesRemembered(h, j, k - 1);
      MovesRemembered(h, k - 1, k);
      VersionNeverLowered(h, j, k - 1);
      AlwaysInv(h, k - 1);
      var p := h.who[k - 1];
      VersionStep(h.worlds[k - 1], h.worlds[k], p, h.openers[p]);
    }
  }

  lemma VersionStep(w: World, w': World, p: nat, o: Opener)
    requires OpenerStep(w, w', p, o) && FileFits(w.file, PhaseOf(w, p), o)
    ensures w.file.Db? && w'.aside == w.aside ==> w'.file.Db? && w'.file.version >= w.file.version
    ensures w'.aside != w.aside ==> PhaseOf(w, p).Failed? && !w.file.Absent? && w' == SetAside(w, p, Cleared, o.second)
  {
  }

  lemma {:induction false} MovesRemembered(h: History, j: nat, k: nat)
    requires IsHistory(h) && j <= k <= |h.who|
    ensures h.worlds[j].aside <= h.worlds[k].aside
  {
    hide OpenerStep;
    if j < k {
      MovesRemembered(h, j, k - 1);
      AlwaysInv(h, k - 1);
      VersionStep(h.worlds[k - 1], h.worlds[k], h.who[k - 1], h.openers[h.who[k - 1]]);
    }
  }

  // A file is moved aside only by an opener that failed on it; one whose version check had
  // succeeded never moves aside a file newer than its own build.
  lemma MovedAsideOnlyOnFailure(h: History, k: nat)
    requires IsHistory(h) && k < |h.who| && h.worlds[k + 1].aside != h.worlds[k].aside
    ensures var (w, p) := (h.worlds[k], h.who[k]);
      && PhaseOf(w, p).Failed? && h.worlds[k + 1] == SetAside(w, p, Cleared, h.openers[p].second)
      && (PhaseOf(w, p).checked ==> w.file.Db? && w.file.version <= h.openers[p].build)
  {
    hide OpenerStep;
    AlwaysInv(h, k);
    VersionStep(h.worlds[k], h.worlds[k + 1], h.who[k], h.openers[h.who[k]]);
  }

  // ---- what was moved aside ----

  // What renaming these files in turn leaves beside the path.
  function LeftBeside(aside: seq<Aside>): map<nat, File> {
    if aside == [] then map[]
    else
      var last := aside[|aside| - 1];
      LeftBeside(aside[..|aside| - 1])[last.second := last.file]
  }

  // Every file moved aside lies there still, as it was, and none of them shares a name.
  ghost predicate AllKept(w: World) {
    && (forall i :: 0 <= i < |w.aside| ==>
          w.aside[i].second in w.quarantined && w.quarantined[w.aside[i].second] == w.aside[i].file)
    && |w.quarantined| == |w.aside|
  }

  // An opener past its move cannot come to another.
  predicate PastMove(ph: Phase) {
    !ph.Idle? && !ph.HasLock? && !ph.Guarded? && !ph.Connected? && !ph.Stamped? && !ph.Failed?
  }

  ghost predicate MoversPast(w: World, aside: seq<Aside>) {
    forall i :: 0 <= i < |aside| ==> PastMove(PhaseOf(w, aside[i].opener))
  }

  // Each opener has moved at most one file aside, under its own second.
  ghost predicate OwnSeconds(h: History, aside: seq<Aside>) {
    && (forall i :: 0 <= i < |aside| ==> aside[i].opener in h.openers && aside[i].second == h.openers[aside[i].opener].second)
    && (forall i, j :: 0 <= i < j < |aside| ==> aside[i].opener != aside[j].opener)
  }

  ghost predicate MovesInv(h: History, w: World) {
    w.quarantined == LeftBeside(w.aside) && OwnSeconds(h, w.aside) && MoversPast(w, w.aside)
  }

  lemma OpeningPastMoveStays(w: World, w': World, p: nat, o: Opener)
    requires OpeningStep(w, w', p, o)
    ensures PastMove(PhaseOf(w, p)) ==> PastMove(PhaseOf(w', p))
    ensures w'.aside == w.aside ==> w'.quarantined == w.quarantined
    ensures w'.aside != w.aside ==> !PastMove(PhaseOf(w, p)) && PastMove(PhaseOf(w', p)) && w' == SetAside(w, p, Cleared, o.second)
  {
  }

  lemma RecoveryPastMoveStays(w: World, w': World, p: nat, o: Opener)
    requires RecoveryStep(w, w', p, o)
    ensures PastMove(PhaseOf(w, p)) ==> PastMove(PhaseOf(w', p))
    ensures w'.aside == w.aside ==> w'.quarantined == w.quarantined
    ensures w'.aside != w.aside ==> !PastMove(PhaseOf(w, p)) && PastMove(PhaseOf(w', p)) && w' == SetAside(w, p, Cleared, o.second)
  {
  }

  lemma SessionPastMoveStays(w: World, w': World, p: nat, o: Opener)
    requires SessionStep(w, w', p, o)
    ensures PastMove(PhaseOf(w, p)) ==> PastMove(PhaseOf(w', p))
    ensures w'.aside == w.aside ==> w'.quarantined == w.quarantined
    ensures w'.aside != w.aside ==> !PastMove(PhaseOf(w, p)) && PastMove(PhaseOf(w', p)) && w' == SetAside(w, p, Cleared, o.second)
  {
  }

  lemma PastMoveStays(w: World, w': World, p: nat, o: Opener)
    requires OpenerStep(w, w', p, o)
    ensures PastMove(PhaseOf(w, p)) ==> PastMove(PhaseOf(w', p))
    ensures w'.aside == w.aside ==> w'.quarantined == w.quarantined
    ensures w'.aside != w.aside ==> !PastMove(PhaseOf(w, p)) && PastMove(PhaseOf(w', p)) && w' == SetAside(w, p, Cleared, o.second)
  {
    hide OpeningStep, RecoveryStep, SessionStep, PastMove, SetAside;
    if OpeningStep(w, w', p, o) {
      OpeningPastMoveStays(w, w', p, o);
    } else if RecoveryStep(w, w', p, o) {
      RecoveryPastMoveStays(w, w', p, o);
    } else {
      SessionPastMoveStays(w, w', p, o);
    }
  }

  lemma MoversStayPast(w: World, w': World, p: nat, o: Opener, aside: seq<Aside>)
    requires MoversPast(w, aside) && OpenerStep(w, w', p, o)
    ensures MoversPast(w', aside)
  {
    hide OpenerStep, PastMove, PhaseOf;
    PastMoveStays(w, w', p, o);
    forall i | 0 <= i < |aside| ensures PastMove(PhaseOf(w', aside[i].opener)) {
      if aside[i].opener != p {
        OthersStay(w, w', p, aside[i].opener, o);
      }
    }
  }

  lemma OneMoreMove(h: History, w: World, p: nat)
    requires MovesInv(h, w) && p in h.openers && !PastMove(PhaseOf(w, p))
    ensures OwnSeconds(h, w.aside + [Aside(p, h.openers[p].second, w.file)])
    ensures LeftBeside(w.aside + [Aside(p, h.openers[p].second, w.file)]) == w.quarantined[h.openers[p].second := w.file]
  {
    hide PastMove, PhaseOf;
    var next := w.aside + [Aside(p, h.openers[p].second, w.file)];
    assert next[..|w.aside|] == w.aside;
  }

  lemma StepKeepsMoves(h: History, w: World, w': World, p: nat)
    requires MovesInv(h, w) && p in h.openers && OpenerStep(w, w', p, h.openers[p])
    ensures MovesInv(h, w')
  {
    hide OpenerStep, PastMove, PhaseOf, OwnSeconds, LeftBeside;
    var o := h.openers[p];
    PastMoveStays(w, w', p, o);
    MoversStayPast(w, w', p, o, w.aside);
    if w'.aside != w.aside {
      OneMoreMove(h, w, p);
    }
  }

  lemma {:induction false} AlwaysMoves(h: History, k: nat)
    requires IsHistory(h) && k <= |h.who|
    ensures MovesInv(h, h.worlds[k])
  {
    hide OpenerStep;
    if k > 0 {
      AlwaysMoves(h, k - 1);
      StepKeepsMoves(h, h.worlds[k - 1], h.worlds[k], h.who[k - 1]);
    }
  }

  // Renames under different names leave every file.
  lemma {:induction false} DistinctNamesKept(aside: seq<Aside>)
    requires forall i, j :: 0 <= i < j < |aside| ==> aside[i].second != aside[j].second
    ensures forall i :: 0 <= i < |aside| ==> aside[i].second in LeftBeside(aside) && LeftBeside(aside)[aside[i].second] == aside[i].file
    ensures |LeftBeside(aside)| == |aside|
    ensures forall s :: s in LeftBeside(aside) ==> exists i :: 0 <= i < |aside| && aside[i].second == s
  {
    if aside != [] {
      var front := aside[..|aside| - 1];
      DistinctNamesKept(front);
      assert aside[|aside| - 1].second !in LeftBeside(front);
    }
  }

  // No two of these openers would move a file aside in the same second.
  ghost predicate SecondsDiffer(openers: map<nat, Opener>) {
    forall p, q :: p in openers && q in openers && p != q ==> openers[p].second != openers[q].second
  }

  ghost predicate NothingEverLost(openers: map<nat, Opener>) {
    forall h: History, k: nat :: IsHistory(h) && h.openers == openers && k <= |h.who| ==> AllKept(h.worlds[k])
  }

  // Files moved aside are kept as they were, in every history of these openers, if and only if
  // no two of them can do so in the same second.
  lemma MovedAsideKeptIff(openers: map<nat, Opener>)
    ensures NothingEverLost(openers) <==> SecondsDiffer(openers)
  {
    hide OpenerStep, IsHistory, AllKept;
    if SecondsDiffer(openers) {
      forall h: History, k: nat | IsHistory(h) && h.openers == openers && k <= |h.who| ensures k < |h.worlds| && AllKept(h.worlds[k]) {
        KeptWhenSecondsDiffer(h, k);
      }
    } else {
      var p, q :| p in openers && q in openers && p != q && openers[p].second == openers[q].second;
      SecondMoveOverwrites(openers, p, q);
    }
  }

  lemma KeptWhenSecondsDiffer(h: History, k: nat)
    requires IsHistory(h) && k <= |h.who| && SecondsDiffer(h.openers)
    ensures k < |h.worlds| && AllKept(h.worlds[k])
  {
    hide OpenerStep;
    AlwaysMoves(h, k);
    DistinctNamesKept(h.worlds[k].aside);
  }

  // Two openers with one second: the first moves an unreadable file aside and stops; the second
  // creates a file, fails to initialise it, and its move replaces the first.
  function Overwriting(openers: map<nat, Opener>, p: nat, q: nat): History
    requires p in openers && q in openers
  {
    var w0 := World(None, Garbage, map[], map[], {}, []);
    var w1 := Move(w0, p, HasLock).(lock := Some(p));
    var w2 := Move(w1, p, Guarded);
    var w3 := Move(w2, p, Failed(false));
    var w4 := SetAside(w3, p, Cleared, openers[p].second);
    var w5 := Release(w4, p, Gone);
    var w6 := Move(w5, q, HasLock).(lock := Some(q));
    var w7 := Move(w6, q, Guarded);
    var w8 := Change(w7, q, Connected(false), Db(0, true, None, []));
    var w9 := Move(w8, q, Failed(true));
    var w10 := SetAside(w9, q, Cleared, openers[q].second);
    History([w0, w1, w2, w3, w4, w5, w6, w7, w8, w9, w10], [p, p, p, p, p, q, q, q, q, q], openers)
  }

  lemma SecondMoveOverwrites(openers: map<nat, Opener>, p: nat, q: nat)
    requires p in openers && q in openers && p != q && openers[p].second == openers[q].second
    ensures var h := Overwriting(openers, p, q);
      && IsHistory(h) && |h.worlds| == 11 && !AllKept(h.worlds[10])
      && Aside(p, openers[p].second, Garbage) in h.worlds[10].aside && Garbage !in h.worlds[10].quarantined.Values
  {
    OverwritingIsHistory(openers, p, q);
    hide IsHistory, OpenerStep;
    var h := Overwriting(openers, p, q);
    var second := openers[p].second;
    assert h.worlds[10].quarantined == map[second := Db(0, true, None, [])];
    assert h.worlds[10].aside == [Aside(p, second, Garbage), Aside(q, second, Db(0, true, None, []))];
  }

  lemma OverwritingIsHistory(openers: map<nat, Opener>, p: nat, q: nat)
    requires p in openers && q in openers && p != q
    ensures IsHistory(Overwriting(openers, p, q))
  {
    hide IsHistory, OpenerStep, Move, Change, SetAside, Release;
    TenMoves(Overwriting(openers, p, q), p, q);
  }

  lemma TenMoves(h: History, p: nat, q: nat)
    requires |h.worlds| == 11 && |h.who| == 10 && p in h.openers && q in h.openers && p != q
    requires forall k :: 0 <= k < 10 ==> h.who[k] == if k < 5 then p else q
    requires First(h.worlds, p, h.openers[p]) && Second(h.worlds, q, h.openers[q])
    ensures IsHistory(h)
  {
    assert h.worlds[0] == World(None, Garbage, map[], map[], {}, []);
    hide OpenerStep, Move, Change, SetAside, Release, First, Second, PhaseOf;
    FirstMoves(h.worlds, p, h.openers[p], q);
    SecondMoves(h.worlds, q, h.openers[q]);
    forall k | 0 <= k < |h.who|
      ensures h.who[k] in h.openers && OpenerStep(h.worlds[k], h.worlds[k + 1], h.who[k], h.openers[h.who[k]])
    {
      assert h.who[k] == if k < 5 then p else q;
    }
  }

  // The first five moves: p finds garbage it cannot open, moves it aside and dies.
  predicate First(ws: seq<World>, p: nat, o: Opener)
    requires |ws| == 11
  {
    && ws[0] == World(None, Garbage, map[], map[], {}, [])
    && ws[1] == Move(ws[0], p, HasLock).(lock := Some(p)) && ws[2] == Move(ws[1], p, Guarded)
    && ws[3] == Move(ws[2], p, Failed(false)) && ws[4] == SetAside(ws[3], p, Cleared, o.second)
    && ws[5] == Release(ws[4], p, Gone)
  }

  // The next five: q creates a file, fails to initialise it, and moves it aside.
  predicate Second(ws: seq<World>, q: nat, o: Opener)
    requires |ws| == 11
  {
    && ws[6] == Move(ws[5], q, HasLock).(lock := Some(q)) && ws[7] == Move(ws[6], q, Guarded)
    && ws[8] == Change(ws[7], q, Connected(false), Db(0, true, None, [])) && ws[9] == Move(ws[8], q, Failed(true))
    && ws[10] == SetAside(ws[9], q, Cleared, o.second)
  }

  lemma FirstMoves(ws: seq<World>, p: nat, o: Opener, q: nat)
    requires |ws| == 11 && First(ws, p, o) && q != p
    ensures ws[5].lock.None? && ws[5].file.Absent? && PhaseOf(ws[5], q).Idle?
    ensures forall k :: 0 <= k < 5 ==> OpenerStep(ws[k], ws[k + 1], p, o)
  {
    assert AcquireStep(ws[0], ws[1], p) && ProbeStep(ws[1], ws[2], p, o) && ConnectStep(ws[2], ws[3], p, o);
    assert QuarantineStep(ws[3], ws[4], p, o) && StopStep(ws[4], ws[5], p);
  }

  lemma SecondMoves(ws: seq<World>, q: nat, o: Opener)
    requires |ws| == 11 && ws[5].lock.None? && ws[5].file.Absent? && PhaseOf(ws[5], q).Idle? && Second(ws, q, o)
    ensures forall k :: 5 <= k < 10 ==> OpenerStep(ws[k], ws[k + 1], q, o)
  {
    assert AcquireStep(ws[5], ws[6], q) && ProbeStep(ws[6], ws[7], q, o) && ConnectStep(ws[7], ws[8], q, o);
    assert StampStep(ws[8], ws[9], q, o) && QuarantineStep(ws[9], ws[10], q, o);
  }

  // One lone opener starts in front of `f` and ends having moved it aside.
  ghost predicate MovesAside(h: History, f: File, o: Opener) {
    && IsHistory(h) && h.openers == map[0 := o]
    && h.worlds[0].file == f && h.worlds[|h.who|].aside == [Aside(0, o.second, f)]
  }

  // The probe cannot read the newer file, and the read-write connection fails on it before its
  // version can be read.
  function Unread(f: File, o: Opener): History {
    var w0 := World(None, f, map[], map[], {}, []);
    var w1 := Move(w0, 0, HasLock).(lock := Some(0));
    var w2 := Move(w1, 0, Guarded);
    var w3 := Move(w2, 0, Failed(false));
    var w4 := SetAside(w3, 0, Cleared, o.second);
    History([w0, w1, w2, w3, w4], [0, 0, 0, 0], map[0 := o])
  }

  // Then the healthy newer file is moved aside.
  lemma UncheckedFailureMovesNewerAside(f: File, o: Opener)
    requires Newer(f, o)
    ensures MovesAside(Unread(f, o), f, o) && |Unread(f, o).who| == 4 && MovesNewer(Unread(f, o), 3)
  {
    var h := Unread(f, o);
    var ws := h.worlds;
    assert AcquireStep(ws[0], ws[1], 0) && ProbeStep(ws[1], ws[2], 0, o) && ConnectStep(ws[2], ws[3], 0, o);
    assert QuarantineStep(ws[3], ws[4], 0, o);
    assert OpenerStep(ws[0], ws[1], 0, o) && OpenerStep(ws[1], ws[2], 0, o);
    assert OpenerStep(ws[2], ws[3], 0, o) && OpenerStep(ws[3], ws[4], 0, o);
    hide OpenerStep;
    assert IsHistory(h);
  }

  // A database of a later schema than the opener's build writes.
  predicate Newer(f: File, o: Opener) {
    f.Db? && f.version > o.build
  }

  // Step k moves a newer database aside.
  ghost predicate MovesNewer(h: History, k: nat)
    requires IsHistory(h)
  {
    k < |h.who| && h.worlds[k + 1].aside != h.worlds[k].aside && Newer(h.worlds[k].file, h.openers[h.who[k]])
  }

  // Whether the read-only probe, and whether the read-write connection, may fail to read the
  // version of a newer database.
  datatype Reads = Reads(probeMayFail: bool, connectMayFail: bool)

  predicate Allowed(env: Reads, w: World, w': World, p: nat, o: Opener) {
    && (PhaseOf(w, p).HasLock? && PhaseOf(w', p).Guarded? && Newer(w.file, o) ==> env.probeMayFail)
    && (PhaseOf(w, p).Guarded? && PhaseOf(w', p).Failed? && Newer(w.file, o) ==> env.connectMayFail)
  }

  ghost predicate AllowedAt(env: Reads, h: History, k: nat)
    requires IsHistory(h) && k < |h.who|
  {
    Allowed(env, h.worlds[k], h.worlds[k + 1], h.who[k], h.openers[h.who[k]])
  }

  ghost predicate Within(env: Reads, h: History)
    requires IsHistory(h)
  {
    forall k :: 0 <= k < |h.who| ==> AllowedAt(env, h, k)
  }

  // An opener gets past a guard with a newer database in front of it only if that guard failed.
  predicate PassedUnread(env: Reads, f: File, ph: Phase, o: Opener) {
    && (ph.Guarded? && Newer(f, o) ==> env.probeMayFail)
    && (ph == Failed(false) && Newer(f, o) ==> env.probeMayFail && env.connectMayFail)
  }

  ghost predicate GuardInv(env: Reads, h: History, w: World) {
    forall p :: p in h.openers ==> PassedUnread(env, w.file, PhaseOf(w, p), h.openers[p])
  }

  lemma OpeningPasses(env: Reads, w: World, w': World, p: nat, o: Opener)
    requires OpeningStep(w, w', p, o) && Allowed(env, w, w', p, o) && PassedUnread(env, w.file, PhaseOf(w, p), o)
    ensures PassedUnread(env, w'.file, PhaseOf(w', p), o)
  {
  }

  lemma LaterPasses(env: Reads, w: World, w': World, p: nat, o: Opener)
    requires RecoveryStep(w, w', p, o) || SessionStep(w, w', p, o)
    ensures PassedUnread(env, w'.file, PhaseOf(w', p), o)
  {
  }

  lemma StandingPasses(env: Reads, f: File, ph: Phase, o: Opener)
    ensures !Holding(ph) ==> PassedUnread(env, f, ph, o)
  {
  }

  lemma StepKeepsGuards(env: Reads, h: History, w: World, w': World, p: nat)
    requires LockInv(w) && GuardInv(env, h, w) && p in h.openers
    requires OpenerStep(w, w', p, h.openers[p]) && Allowed(env, w, w', p, h.openers[p])
    ensures GuardInv(env, h, w')
  {
    hide OpeningStep, RecoveryStep, SessionStep, PassedUnread, Allowed, Holding;
    var o := h.openers[p];
    StepKeepsLock(w, w', p, o);
    if OpeningStep(w, w', p, o) {
      OpeningPasses(env, w, w', p, o);
    } else {
      LaterPasses(env, w, w', p, o);
    }
    forall q | q in h.openers ensures PassedUnread(env, w'.file, PhaseOf(w', q), h.openers[q]) {
      if q != p && w'.file != w.file {
        assert Holding(PhaseOf(w, q)) <==> w.lock == Some(q);
        StandingPasses(env, w'.file, PhaseOf(w, q), h.openers[q]);
      }
    }
  }

  lemma {:induction false} AlwaysGuarded(env: Reads, h: History, k: nat)
    requires IsHistory(h) && Within(env, h) && k <= |h.who|
    ensures GuardInv(env, h, h.worlds[k])
  {
    hide OpenerStep;
    if k > 0 {
      AlwaysGuarded(env, h, k - 1);
      AlwaysInv(h, k - 1);
      assert AllowedAt(env, h, k - 1);
      StepKeepsGuards(env, h, h.worlds[k - 1], h.worlds[k], h.who[k - 1]);
    }
  }

  ghost predicate NeverMovesNewer(env: Reads) {
    forall h: History, k: nat :: IsHistory(h) && Within(env, h) ==> !MovesNewer(h, k)
  }

  // No newer database is ever moved aside if and only if one of the two guards can always read
  // the version: either is enough.
  lemma NeverMovesNewerIff(env: Reads)
    ensures NeverMovesNewer(env) <==> !(env.probeMayFail && env.connectMayFail)
  {
    hide OpenerStep;
    if env.probeMayFail && env.connectMayFail {
      var f, o := Db(1, true, None, []), Opener(0, None, 0);
      UncheckedFailureMovesNewerAside(f, o);
      assert Within(env, Unread(f, o));
    } else {
      forall h: History, k: nat | IsHistory(h) && Within(env, h) ensures !MovesNewer(h, k) {
        if MovesNewer(h, k) {
          AlwaysGuarded(env, h, k);
          MovedAsideOnlyOnFailure(h, k);
        }
      }
    }
  }

  // ---- the data source ----

  // Every row recorded from a source agrees with the file's stamp.
  predicate RowsAgree(f: File) {
    f.Db? ==> forall i :: 0 <= i < |f.rows| && f.rows[i].Some? ==> f.source == f.rows[i]
  }

  lemma RowsStep(w: World, w': World, p: nat, o: Opener)
    requires OpenerStep(w, w', p, o) && FileFits(w.file, PhaseOf(w, p), o) && RowsAgree(w.file)
    requires forall i :: 0 <= i < |w.aside| ==> RowsAgree(w.aside[i].file)
    ensures RowsAgree(w'.file)
    ensures forall i :: 0 <= i < |w'.aside| ==> RowsAgree(w'.aside[i].file)
  {
  }

  // From a fresh path, mock and real recordings never mix: in every file that ever stood at
  // the path, moved aside or not, every recorded row has the source the file is stamped with.
  lemma {:induction false} SourcesNeverMix(h: History, k: nat)
    requires IsHistory(h) && k <= |h.who| && RowsAgree(h.worlds[0].file)
    ensures RowsAgree(h.worlds[k].file)
    ensures forall i :: 0 <= i < |h.worlds[k].aside| ==> RowsAgree(h.worlds[k].aside[i].file)
  {
    hide OpenerStep, RowsAgree;
    if k > 0 {
      SourcesNeverMix(h, k - 1);
      AlwaysInv(h, k - 1);
      RowsStep(h.worlds[k - 1], h.worlds[k], h.who[k - 1], h.openers[h.who[k - 1]]);
    }
  }

  // A dead opener never blocks the next one: stopping frees the lock.
  lemma StoppingFreesTheLock(h: History, k: nat, p: nat)
    requires IsHistory(h) && k < |h.who| && h.who[k] == p
    requires Holding(PhaseOf(h.worlds[k], p)) && !Holding(PhaseOf(h.worlds[k + 1], p))
    ensures h.worlds[k].lock == Some(p) && h.worlds[k + 1].lock == None
  {
    hide OpenerStep;
    AlwaysInv(h, k);
    AlwaysInv(h, k + 1);
    LockStep(h.worlds[k], h.worlds[k + 1], p, h.openers[p]);
  }

  lemma LockStep(w: World, w': World, p: nat, o: Opener)
    requires OpenerStep(w, w', p, o)
    ensures w'.lock == w.lock || w'.lock == None || w'.lock == Some(p)
  {
  }

  // ---- `open` and `open_recording` (store.rs:369-431) ----

  datatype Result = Success(wasReset: bool) | Failure(error: Error)

  // Which calls into the system work: making the directory, taking a lock, reading the version
  // beforehand, connecting, initialising, answering the integrity check, moving a file, the same
  // again on the fresh one, and reading and writing the stamp.
  datatype Environment = Environment(makes: bool, locks: bool, probes: bool, connects: bool, inits: bool, answers: bool,
                                     renames: bool, reconnects: bool, reinits: bool, stamps: bool)

  const ALL_WELL: Environment := Environment(true, true, true, true, true, true, true, true, true, true)

  // What an open of a free path comes to when everything works: a sound file of this or an older
  // schema is opened, a newer one refused, and anything else started over.
  function WhenAllWell(found: File, build: nat): Result {
    if found.Db? && found.version > build then Failure(SchemaTooNew)
    else Success(found.Garbage? || (found.Db? && !found.sound))
  }

  // A database stamped with a build's version; nothing else can be stamped.
  function Stamp(f: File, build: nat): File {
    if f.Db? then f.(version := build) else f
  }

  // What an opener moves aside is what it found, at most restamped.
  predicate MovedAside(found: File, aside: File, build: nat) {
    if found.Db? then aside == found || (found.version <= build && aside == Stamp(found, build))
    else if found.Absent? then aside == Db(0, true, None, [])
    else aside == found
  }

  // What an open that got the lock may leave at the path it found `found` at.
  ghost predicate Outcome(found: File, left: File, before: map<nat, File>, after: map<nat, File>, o: Opener, r: Result) {
    var build := o.build;
    match r
    case Success(false) =>
      && after == before && (found.Absent? || (found.Db? && found.sound && found.version <= build))
      && left == if found.Absent? then Db(build, true, None, []) else Stamp(found, build)
    case Success(true) =>
      && left == Db(build, true, None, [])
      && o.second in after && after == before[o.second := after[o.second]] && MovedAside(found, after[o.second], build)
    case Failure(SchemaTooNew) =>
      left == found && after == before && found.Db? && found.version > build
    case Failure(NoDataDir) =>
      after == before && (left == found || MovedAside(found, left, build))
    case Failure(Sqlite) =>
      && (left.Absent? || left == Db(0, true, None, []))
      && o.second in after && after == before[o.second := after[o.second]] && MovedAside(found, after[o.second], build)
    case _ => false
  }

  // h1 continues h0 by steps of p alone.
  ghost predicate Continues(h0: History, h1: History, p: nat) {
    && h0.worlds <= h1.worlds && h0.who <= h1.who && h1.openers == h0.openers
    && forall k :: |h0.who| <= k < |h1.who| ==> h1.who[k] == p
  }

  lemma OneMoreStep(h: History, w: World, p: nat, h': History)
    requires IsHistory(h) && p in h.openers && OpenerStep(h.worlds[|h.who|], w, p, h.openers[p])
    requires h' == History(h.worlds + [w], h.who + [p], h.openers)
    ensures IsHistory(h') && Continues(h, h', p)
  {
    hide OpenerStep;
    forall k | 0 <= k < |h'.who|
      ensures h'.who[k] in h'.openers && OpenerStep(h'.worlds[k], h'.worlds[k + 1], h'.who[k], h'.openers[h'.who[k]])
    {
      if k < |h.who| {
        assert OpenerStep(h.worlds[k], h.worlds[k + 1], h.who[k], h.openers[h.who[k]]);
      }
    }
  }

  // A live handle can always append a row of its source, so the laws about rows speak of files
  // that do hold rows.
  lemma HandleAppends(h: History, p: nat) returns (h': History)
    requires IsHistory(h) && p in h.openers && PhaseOf(h.worlds[|h.who|], p).Handle?
    ensures IsHistory(h') && Continues(h, h', p)
    ensures h.worlds[|h.who|].file.Db? && h'.worlds[|h'.who|].file.Db?
    ensures h'.worlds[|h'.who|].file.rows == h.worlds[|h.who|].file.rows + [h.openers[p].want]
  {
    AlwaysInv(h, |h.who|);
    var w, want := h.worlds[|h.who|], h.openers[p].want;
    assert FileFits(w.file, PhaseOf(w, p), h.openers[p]);
    var next := Change(w, p, PhaseOf(w, p), w.file.(rows := w.file.rows + [want]));
    assert WriteStep(w, next, p, h.openers[p]);
    h' := History(h.worlds + [next], h.who + [p], h.openers);
    OneMoreStep(h, next, p, h');
  }

  // The path as its openers see it. The ghost history holds every step taken so far.
  class HistoryPath {
    var lock: Option<nat>
    var file: File
    var quarantined: map<nat, File>
    const openers: map<nat, Opener>
    ghost var hist: History

    ghost function Now(): World
      reads this
      requires |hist.worlds| > 0
    {
      hist.worlds[|hist.worlds| - 1]
    }

    ghost function At(p: nat): Phase
      reads this
      requires |hist.worlds| > 0
    {
      PhaseOf(Now(), p)
    }

    ghost predicate Valid()
      reads this
    {
      && |hist.worlds| > 0 && IsHistory(hist) && hist.openers == openers
      && Now().lock == lock && Now().file == file && Now().quarantined == quarantined
    }

    constructor (file: File, openers: map<nat, Opener>)
      ensures Valid() && Now() == World(None, file, map[], map[], {}, []) && this.openers == openers
    {
      lock, this.file, quarantined, this.openers := None, file, map[], openers;
      hist := History([World(None, file, map[], map[], {}, [])], [], openers);
    }

    // One step of p, with whatever it changes.
    method Take(p: nat, lock: Option<nat>, file: File, quarantined: map<nat, File>, ghost w: World)
      requires Valid() && p in openers && OpenerStep(Now(), w, p, openers[p])
      requires w.lock == lock && w.file == file && w.quarantined == quarantined
      modifies this
      ensures Valid() && Now() == w && Continues(old(hist), hist, p)
    {
      hide OpenerStep;
      this.lock, this.file, this.quarantined := lock, file, quarantined;
      ghost var next := History(hist.worlds + [w], hist.who + [p], hist.openers);
      OneMoreStep(hist, w, p, next);
      hist := next;
    }

    method CreateDataDir(p: nat, works: bool) returns (e: Option<Error>)
      requires Valid() && p in openers && At(p).Idle?
      modifies this
      ensures Valid() && Continues(old(hist), hist, p)
      ensures lock == old(lock) && file == old(file) && quarantined == old(quarantined)
      ensures At(p) == if e.None? then Idle else Refused(e.value)
      ensures e == if works then None else Some(NoDataDir)
    {
      if works {
        return None;
      }
      Take(p, lock, file, quarantined, Move(Now(), p, Refused(NoDataDir)));
      return Some(NoDataDir);
    }

    method AcquireInstanceLock(p: nat, works: bool) returns (e: Option<Error>)
      requires Valid() && p in openers && At(p).Idle?
      modifies this
      ensures Valid() && Continues(old(hist), hist, p)
      ensures file == old(file) && quarantined == old(quarantined)
      ensures e.None? ==> old(lock) == None && lock == Some(p) && At(p).HasLock?
      ensures e.Some? ==> lock == old(lock) && At(p) == Refused(e.value) && (e.value.LockIo? || (e.value.Locked? && lock.Some?))
      ensures works && old(lock).None? ==> e.None?
    {
      if !works {
        Take(p, lock, file, quarantined, Move(Now(), p, Refused(LockIo)));
        return Some(LockIo);
      }
      if lock.Some? {
        Take(p, lock, file, quarantined, Move(Now(), p, Refused(Locked)));
        return Some(Locked);
      }
      Take(p, Some(p), file, quarantined, Move(Now(), p, HasLock).(lock := Some(p)));
      return None;
    }

    // A probe that cannot read the version says nothing.
    method CheckSchemaNotNewer(p: nat, readable: bool) returns (e: Option<Error>)
      requires Valid() && p in openers && At(p).HasLock?
      modifies this
      ensures Valid() && Continues(old(hist), hist, p)
      ensures lock == old(lock) && file == old(file) && quarantined == old(quarantined)
      ensures e.None? ==> At(p).Guarded?
      ensures e.Some? ==> At(p) == Refusing(e.value) && e.value.SchemaTooNew? && file.Db? && file.version > openers[p].build
      ensures readable && file.Db? && file.version > openers[p].build ==> e.Some?
    {
      if file.Db? && readable && file.version > openers[p].build {
        Take(p, lock, file, quarantined, Move(Now(), p, Refusing(SchemaTooNew)));
        return Some(SchemaTooNew);
      }
      Take(p, lock, file, quarantined, Move(Now(), p, Guarded));
      return None;
    }

    // The phase a failure of the read-write open leads to: the first attempt leads to
    // quarantine, the second is final.
    ghost function OnFailure(ph: Phase): Phase {
      match ph
      case Guarded => Failed(false)
      case Connected(_) => Failed(true)
      case _ => Refusing(Sqlite)
    }

    method TryOpenInit(p: nat, opens: bool, inits: bool) returns (e: Option<Error>)
      requires Valid() && p in openers
      requires At(p).Guarded? || (At(p).Cleared? && file.Absent?)
      modifies this
      ensures Valid() && Continues(old(hist), hist, p) && lock == old(lock) && quarantined == old(quarantined)
      ensures e.None? ==> At(p) == if old(At(p)).Guarded? then Stamped(!old(file.Absent?)) else Opened(true)
      ensures e.None? ==>
        file == if old(file.Absent?) then Db(openers[p].build, true, None, []) else Stamp(old(file), openers[p].build)
      ensures e.None? && !old(file.Absent?) ==> old(file.Db? && file.version <= openers[p].build)
      ensures e.Some? ==> e.value.Sqlite? || e.value.SchemaTooNew?
      ensures e == Some(SchemaTooNew) ==>
        At(p) == Refusing(SchemaTooNew) && file == old(file) && file.Db? && file.version > openers[p].build
      ensures e == Some(Sqlite) ==> if old(At(p)).Guarded? then At(p).Failed? else At(p) == Refusing(Sqlite)
      ensures e == Some(Sqlite) ==> file == old(file) || (old(file.Absent?) && file == Db(0, true, None, []))
      ensures opens && inits ==>
        e == if old(file.Garbage?) then Some(Sqlite) else if old(file.Db? && file.version > openers[p].build) then Some(SchemaTooNew) else None
    {
      if !opens || file.Garbage? {
        Take(p, lock, file, quarantined, Move(Now(), p, OnFailure(At(p))));
        return Some(Sqlite);
      }
      if file.Db? && file.version > openers[p].build {
        Take(p, lock, file, quarantined, Move(Now(), p, Refusing(SchemaTooNew)));
        return Some(SchemaTooNew);
      }
      if file.Absent? {
        var created := Db(0, true, None, []);
        Take(p, lock, created, quarantined, Change(Now(), p, if At(p).Guarded? then Connected(false) else Reconnected, created));
      } else {
        Take(p, lock, file, quarantined, Move(Now(), p, Connected(true)));
      }
      if !inits {
        Take(p, lock, file, quarantined, Move(Now(), p, OnFailure(At(p))));
        return Some(Sqlite);
      }
      var stamped := file.(version := openers[p].build);
      Take(p, lock, stamped, quarantined,
           Change(Now(), p, if At(p).Connected? then Stamped(At(p).existed) else Opened(true), stamped));
      return None;
    }

    // A file that was just created is not checked; a damaged one never passes.
    method QuickCheckOk(p: nat, existed: bool, answers: bool) returns (ok: bool)
      requires Valid() && p in openers && At(p) == Stamped(existed) && file.Db?
      modifies this
      ensures Valid() && Continues(old(hist), hist, p)
      ensures lock == old(lock) && file == old(file) && quarantined == old(quarantined)
      ensures ok ==> At(p) == Opened(false) && (existed ==> file.sound)
      ensures !existed ==> ok
      ensures !ok ==> At(p) == Failed(true)
      ensures answers && file.sound ==> ok
    {
      ok := !existed || (answers && file.sound);
      Take(p, lock, file, quarantined, Move(Now(), p, if ok then Opened(false) else Failed(true)));
    }

    method Quarantine(p: nat, renames: bool) returns (e: Option<Error>)
      requires Valid() && p in openers && At(p).Failed?
      modifies this
      ensures Valid() && Continues(old(hist), hist, p) && lock == old(lock)
      ensures e.None? ==> At(p).Cleared? && file.Absent? && !old(file.Absent?) && quarantined == old(quarantined)[openers[p].second := old(file)]
      ensures e.Some? ==> e.value.NoDataDir? && At(p) == Refusing(NoDataDir) && file == old(file) && quarantined == old(quarantined)
      ensures e.None? <==> renames && !old(file.Absent?)
    {
      if file.Absent? || !renames {
        Take(p, lock, file, quarantined, Move(Now(), p, Refusing(NoDataDir)));
        return Some(NoDataDir);
      }
      Take(p, lock, Absent, quarantined[openers[p].second := file], SetAside(Now(), p, Cleared, openers[p].second));
      return None;
    }

    method Refuse(p: nat, error: Error) returns (r: Result)
      requires Valid() && p in openers && At(p) == Refusing(error) && lock == Some(p)
      modifies this
      ensures Valid() && Continues(old(hist), hist, p) && At(p) == Refused(error) && r == Failure(error)
      ensures lock.None? && file == old(file) && quarantined == old(quarantined)
    {
      Take(p, None, file, quarantined, Release(Now(), p, Refused(error)));
      return Failure(error);
    }

    // The recovery: move the unusable file aside and start on an empty one.
    method StartFresh(p: nat, env: Environment) returns (r: Result)
      requires Valid() && p in openers && At(p).Failed? && lock == Some(p)
      modifies this
      ensures Valid() && Continues(old(hist), hist, p)
      ensures r.Success? ==> r == Success(true) && lock == Some(p) && At(p) == Opened(true)
      ensures r.Success? ==> file == Db(openers[p].build, true, None, [])
      ensures r.Failure? ==> lock == None && At(p) == Refused(r.error) && r.error in {NoDataDir, Sqlite}
      ensures r == Failure(NoDataDir) ==> file == old(file) && quarantined == old(quarantined)
      ensures r != Failure(NoDataDir) ==> !old(file.Absent?) && quarantined == old(quarantined)[openers[p].second := old(file)]
      ensures r == Failure(Sqlite) ==> file.Absent? || file == Db(0, true, None, [])
      ensures env == ALL_WELL && !old(file.Absent?) ==> r == Success(true)
    {
      hide OpenerStep, IsHistory;
      var e := Quarantine(p, env.renames);
      if e.None? {
        e := TryOpenInit(p, env.reconnects, env.reinits);
      }
      if e.Some? {
        r := Refuse(p, e.value);
      } else {
        r := Success(true);
      }
    }

    // What an open does once its read-only probe has let it pass.
    method InitOrRecover(p: nat, env: Environment) returns (r: Result)
      requires Valid() && p in openers && At(p).Guarded? && lock == Some(p)
      modifies this
      ensures Valid() && Continues(old(hist), hist, p)
      ensures r.Success? ==> lock == Some(p) && At(p) == Opened(r.wasReset)
      ensures r.Failure? ==> lock == None && At(p) == Refused(r.error)
      ensures Outcome(old(file), file, old(quarantined), quarantined, openers[p], r)
      ensures env == ALL_WELL ==> r == WhenAllWell(old(file), openers[p].build)
    {
      hide OpenerStep, IsHistory, PhaseOf;
      var existed := !file.Absent?;
      var e := TryOpenInit(p, env.connects, env.inits);
      if e == Some(SchemaTooNew) {
        r := Refuse(p, SchemaTooNew);
        return;
      }
      if e.None? {
        var ok := QuickCheckOk(p, existed, env.answers);
        if ok {
          return Success(false);
        }
      }
      r := StartFresh(p, env);
    }

    // Everything an open does once it holds the lock.
    method OpenLocked(p: nat, env: Environment) returns (r: Result)
      requires Valid() && p in openers && At(p).HasLock? && lock == Some(p)
      modifies this
      ensures Valid() && Continues(old(hist), hist, p)
      ensures r.Success? ==> lock == Some(p) && At(p) == Opened(r.wasReset)
      ensures r.Failure? ==> lock == None && At(p) == Refused(r.error)
      ensures Outcome(old(file), file, old(quarantined), quarantined, openers[p], r)
      ensures env == ALL_WELL ==> r == WhenAllWell(old(file), openers[p].build)
    {
      hide OpenerStep, IsHistory, MovedAside, Stamp;
      var e := CheckSchemaNotNewer(p, env.probes);
      if e.Some? {
        r := Refuse(p, e.value);
        return;
      }
      r := InitOrRecover(p, env);
    }

    method Open(p: nat, env: Environment) returns (r: Result)
      requires Valid() && p in openers && At(p).Idle?
      modifies this
      ensures Valid() && Continues(old(hist), hist, p)
      ensures r.Success? ==> old(lock) == None && lock == Some(p) && At(p) == Opened(r.wasReset)
      ensures r.Failure? ==> lock == old(lock) && At(p) == Refused(r.error) && !r.error.DataSourceMismatch?
      ensures r == Failure(Locked) ==> old(lock).Some?
      ensures old(lock).Some? ==> r.Failure? && r.error in {Locked, LockIo, NoDataDir}
      ensures old(lock).Some? || r in {Failure(Locked), Failure(LockIo)} ==> file == old(file) && quarantined == old(quarantined)
      ensures r.Success? || r.error.SchemaTooNew? || r.error.Sqlite? ==>
        Outcome(old(file), file, old(quarantined), quarantined, openers[p], r)
      ensures r == Failure(NoDataDir) ==>
        quarantined == old(quarantined) && (file == old(file) || MovedAside(old(file), file, openers[p].build))
      ensures r == Failure(SchemaTooNew) ==>
        file == old(file) && quarantined == old(quarantined) && file.Db? && file.version > openers[p].build
      ensures env == ALL_WELL && old(lock).None? ==> r == WhenAllWell(old(file), openers[p].build)
    {
      hide OpenerStep, IsHistory;
      var e := CreateDataDir(p, env.makes);
      if e.None? {
        e := AcquireInstanceLock(p, env.locks);
      }
      if e.Some? {
        return Failure(e.value);
      }
      r := OpenLocked(p, env);
    }

    // The stamp is checked before the handle is handed out, so before any row is written.
    method ClaimDataSource(p: nat, works: bool) returns (e: Option<Error>)
      requires Valid() && p in openers && At(p).Opened? && file.Db?
      modifies this
      ensures Valid() && Continues(old(hist), hist, p) && lock == old(lock) && quarantined == old(quarantined)
      ensures e.None? ==> At(p) == Handle(old(At(p)).wasReset)
      ensures e.None? ==> file == if openers[p].want.Some? then old(file).(source := openers[p].want) else old(file)
      ensures e.None? && openers[p].want.Some? ==> old(file).source in {None, openers[p].want}
      ensures e.Some? ==> file == old(file) && At(p) == Refusing(e.value) && e.value in {Sqlite, DataSourceMismatch}
      ensures e == Some(DataSourceMismatch) ==> file.source.Some? && file.source != openers[p].want
      ensures works && (openers[p].want.None? || file.source in {None, openers[p].want}) ==> e.None?
    {
      var want, stamp := openers[p].want, file.source;
      ghost var h := Handle(At(p).wasReset);
      if want.Some? && !works {
        Take(p, lock, file, quarantined, Move(Now(), p, Refusing(Sqlite)));
        return Some(Sqlite);
      }
      if want.Some? && stamp.Some? && stamp != want {
        Take(p, lock, file, quarantined, Move(Now(), p, Refusing(DataSourceMismatch)));
        return Some(DataSourceMismatch);
      }
      if want.Some? && stamp.None? {
        var claimed := file.(source := want);
        Take(p, lock, claimed, quarantined, Change(Now(), p, h, claimed));
      } else {
        Take(p, lock, file, quarantined, Move(Now(), p, h));
      }
      return None;
    }

    method OpenRecording(p: nat, env: Environment) returns (r: Result)
      requires Valid() && p in openers && At(p).Idle?
      modifies this
      ensures Valid() && Continues(old(hist), hist, p)
      ensures r.Success? ==> lock == Some(p) && At(p) == Handle(r.wasReset)
      ensures r.Success? ==> file.Db? && file.version == openers[p].build && (openers[p].want.Some? ==> file.source == openers[p].want)
      ensures r == Success(false) && !old(file.Absent?) ==> old(file.Db?) && file.rows == old(file.rows)
      ensures r == Success(false) && !old(file.Absent?) && openers[p].want.Some? ==> old(file.source) in {None, openers[p].want}
      ensures r.Failure? ==> lock == old(lock) && At(p) == Refused(r.error)
      ensures r.Failure? && r.error in {Locked, LockIo, SchemaTooNew} ==> file == old(file) && quarantined == old(quarantined)
      ensures r == Failure(DataSourceMismatch) ==> file.Db? && file.source.Some? && file.source != openers[p].want
      ensures r == Failure(DataSourceMismatch) ==>
        quarantined == old(quarantined) && old(file.Db?) && file == old(file).(version := openers[p].build)
      // a sound file of the same source, or of none yet, is opened with its rows
      ensures env == ALL_WELL && old(lock).None? && old(file.Db? && file.sound && file.version <= openers[p].build) ==>
        (openers[p].want.None? || old(file.source) in {None, openers[p].want} ==> r == Success(false))
    {
      hide OpenerStep, IsHistory, MovedAside, PhaseOf;
      r := Open(p, env);
      if r.Success? {
        var e := ClaimDataSource(p, env.stamps);
        if e.Some? {
          r := Refuse(p, e.value);
        }
      }
    }
  }
}
