/** Which keys of the terminal app undo one another, and exactly when (crates/tui/src/app.rs:325-468,
    650-760): the laws the handlers of `Viewer` inherit from the functions they are proved against. */
module ViewerKeys {
  import opened Base
  import opened Viewer

  // ---- cursors ----

  // Going one way and back between two stops returns to the start exactly when the way out was
  // not cut short, or ended where it could only come back to.
  lemma ThereAndBack(x: nat, d: nat, lo: nat, hi: nat)
    requires lo <= x <= hi
    ensures Clamp(SatSub(Clamp(x + d, lo, hi), d), lo, hi) == x <==> x + d <= hi || x == lo
    ensures Clamp(Clamp(SatSub(x, d), lo, hi) + d, lo, hi) == x <==> lo + d <= x || x == hi
  {
  }

  // The two directions of a scrub undo each other exactly when the first was not cut short by
  // the end of the recording, or started at the other end.
  lemma ScrubUndoneIff(rec: Recording, cursor: nat, delta: nat)
    requires EarliestBucket(rec).Some? && EarliestBucket(rec).value <= cursor <= LatestBucket(rec).GetOr(cursor)
    ensures LatestBucket(rec).Some?
    ensures Scrubbed(rec, Scrubbed(rec, cursor, true, delta), false, delta) == cursor <==>
      cursor + delta <= LatestBucket(rec).value || cursor == EarliestBucket(rec).value
    ensures Scrubbed(rec, Scrubbed(rec, cursor, false, delta), true, delta) == cursor <==>
      EarliestBucket(rec).value + delta <= cursor || cursor == LatestBucket(rec).value
  {
    OldestBeforeNewest(rec);
    hide EarliestBucket, LatestBucket, Clamp;
    ThereAndBack(cursor, delta, EarliestBucket(rec).value, LatestBucket(rec).value);
  }

  // ---- devices ----

  lemma Wraps(x: nat, n: nat)
    requires n > 0 && x < 2 * n
    ensures x % n == if x < n then x else x - n
  {
    if x >= n {
      Viewer.T.Division(x, n);
    }
  }

  // Tab and BackTab undo each other on any list of devices, and as many tabs as there are
  // devices come full circle.
  lemma CycleUndone(selected: nat, devices: nat)
    requires selected < MaxNat(devices, 1)
    ensures Cycled(Cycled(selected, devices, true), devices, false) == selected
    ensures Cycled(Cycled(selected, devices, false), devices, true) == selected
  {
    var n := MaxNat(devices, 1);
    Wraps(selected + 1, n);
    Wraps(selected + n - 1, n);
    Wraps((selected + 1) % n + n - 1, n);
    Wraps((selected + n - 1) % n + 1, n);
  }

  function Tabbed(selected: nat, devices: nat, times: nat): nat {
    if times == 0 then selected else Cycled(Tabbed(selected, devices, times - 1), devices, true)
  }

  lemma {:induction false} TabsCount(selected: nat, devices: nat, times: nat)
    requires selected < MaxNat(devices, 1) && times <= MaxNat(devices, 1)
    ensures Tabbed(selected, devices, times) ==
      if selected + times < MaxNat(devices, 1) then selected + times else selected + times - MaxNat(devices, 1)
  {
    if times > 0 {
      TabsCount(selected, devices, times - 1);
      Wraps(Tabbed(selected, devices, times - 1) + 1, MaxNat(devices, 1));
    }
  }

  lemma FullCircle(selected: nat, devices: nat)
    requires selected < MaxNat(devices, 1)
    ensures Tabbed(selected, devices, MaxNat(devices, 1)) == selected
    ensures forall times: nat :: 0 < times < MaxNat(devices, 1) ==> Tabbed(selected, devices, times) != selected
  {
    forall times: nat | times <= MaxNat(devices, 1)
      ensures Tabbed(selected, devices, times) ==
        if selected + times < MaxNat(devices, 1) then selected + times else selected + times - MaxNat(devices, 1)
    {
      TabsCount(selected, devices, times);
    }
  }

  // ---- modes ----

  // The mode some keys lead to, one after the other.
  function AfterKeys(mode: Mode, keys: seq<Key>, viewer: bool, opens: bool, onEvent: bool): Mode {
    if keys == [] then mode
    else NextMode(AfterKeys(mode, keys[..|keys| - 1], viewer, opens, onEvent), keys[|keys| - 1], viewer, opens, onEvent)
  }

  // Behind a recording no keys ever lead to the live view.
  lemma {:induction false} NeverLiveBehindAFile(mode: Mode, keys: seq<Key>, opens: bool, onEvent: bool)
    requires !mode.Live?
    ensures !AfterKeys(mode, keys, true, opens, onEvent).Live?
  {
    if keys != [] {
      NeverLiveBehindAFile(mode, keys[..|keys| - 1], opens, onEvent);
    }
  }

  // Where a store can be opened, `t` twice comes back except from a live session's replay,
  // where the second leads to the live view; `r` twice always comes back.
  lemma TwiceIff(mode: Mode, viewer: bool, onEvent: bool)
    requires viewer ==> !mode.Live?
    ensures AfterKeys(mode, [Char('t'), Char('t')], viewer, true, onEvent) == mode <==> viewer || !mode.Replay?
    ensures AfterKeys(mode, [Char('r'), Char('r')], viewer, true, onEvent) == mode
  {
    Twice(mode, Char('t'), viewer, onEvent);
    Twice(mode, Char('r'), viewer, onEvent);
  }

  lemma Twice(mode: Mode, key: Key, viewer: bool, onEvent: bool)
    ensures AfterKeys(mode, [key, key], viewer, true, onEvent) ==
      NextMode(NextMode(mode, key, viewer, true, onEvent), key, viewer, true, onEvent)
  {
    assert [key, key][..1] == [key] && [key][..0] == [];
    assert AfterKeys(mode, [key], viewer, true, onEvent) == NextMode(mode, key, viewer, true, onEvent);
  }

  // ---- aliases ----

  // The key a letter stands for in replay and in the overview.
  function Meaning(key: Key): Key {
    if key == Char('a') then Left else if key == Char('d') then Right
    else if key == Char('A') then PageUp else if key == Char('D') then PageDown
    else if key == Char('g') then Home else if key == Char('G') then End else key
  }

  // A letter moves a cursor as the key it stands for does.
  lemma LettersMeanKeys(rec: Recording, key: Key, cursor: nat, event: Option<nat>, w: TimelineWindow, width: nat)
    requires w.from <= w.to
    ensures NextCursor(rec, Meaning(key), cursor, event) == NextCursor(rec, key, cursor, event)
    ensures NextTimelineCursor(w, width, Meaning(key), cursor) == NextTimelineCursor(w, width, key, cursor)
  {
    hide Scrubbed, Stepped, EarliestBucket, LatestBucket;
  }
}
