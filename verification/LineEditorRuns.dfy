/** Runs of the predictor against the ideal line editor, and what is true of all of them. */
module LineEditorRuns {
  import opened Frames
  import opened Overlays
  import opened Prediction
  import opened PredictionInvariants
  import opened Painting
  import opened CleanCull
  import opened LineEditor

  // The predictor, the editor after every message so far, and the newest screen with the
  // number of messages it reflects.
  datatype World = World(p: State, row: nat, history: History, screen: Frame, reflected: nat)

  datatype Event =
    | Message(keys: seq<Key>, now: nat)
    | Screen(fb: Frame, reflected: nat, echoAck: nat, now: nat)
    | Tick(now: nat)
    | LinkSpeed(ms: nat)
    | Cleared

  predicate AllTypable(e: Editor, keys: seq<Key>)
    requires Sane(e, |e.line|)
    decreases |keys|
  {
    keys == [] || (Typable(e, keys[0]) && AllTypable(Press(e, keys[0]), keys[1..]))
  }

  function PressAll(e: Editor, keys: seq<Key>): (r: Editor)
    requires Sane(e, |e.line|) && AllTypable(e, keys)
    ensures Sane(r, |e.line|)
    decreases |keys|
  {
    if keys == [] then e else PressAll(Press(e, keys[0]), keys[1..])
  }

  // The bytes of one message, all typed over the display painted before it.
  function TypeKeys(s: State, keys: seq<Key>, display: Frame, now: nat): (r: State)
    requires Shaped(s)
    ensures Shaped(r) && SameSettings(r, s)
    decreases |keys|
  {
    if keys == [] then s else TypeKeys(NewUserByte(s, Acts(keys[0]), display, now), keys[1..], display, now)
  }

  predicate Good(w: World) {
    && Faithful(w.p, w.row, w.history) && Ordered(w.p) && Fits(w.p, w.screen)
    && w.p.sent < |w.history| && w.p.lateAcked <= w.reflected < |w.history|
    && Shows(w.screen, w.row, w.history[w.reflected])
  }

  // A screen may be late and may run ahead of its acknowledgement, but it shows the editor
  // as it was after some message, and acknowledgements do not go back.
  predicate Possible(w: World, e: Event)
    requires Good(w)
  {
    match e
    case Message(keys, _) => AllTypable(Now(w.history), keys)
    case Screen(fb, reflected, echoAck, _) =>
      && w.p.lateAcked <= echoAck <= reflected < |w.history|
      && Fits(w.p, fb) && Shows(fb, w.row, w.history[reflected])
    case Tick(_) => true
    case LinkSpeed(_) => true
    case Cleared => Unchanged(w.history, w.p.lateAcked)
  }

  // The editor is as it was after message `from`; so it is when nothing is outstanding.
  predicate Unchanged(h: History, from: nat) { forall k :: from <= k < |h| ==> h[k] == Now(h) }

  function Moved(w: World, e: Event): World
    requires Good(w) && Possible(w, e)
  {
    match e
    case Message(keys, now) =>
      var s := w.p.(sent := |w.history| - 1);
      w.(p := TypeKeys(s, keys, Apply(w.p, w.screen), now),
         history := w.history + [PressAll(Now(w.history), keys)])
    case Screen(fb, reflected, echoAck, now) =>
      w.(p := Cull(w.p.(lateAcked := echoAck), fb, now), screen := fb, reflected := reflected)
    case Tick(now) => w.(p := Cull(w.p, w.screen, now))
    case LinkSpeed(ms) => w.(p := w.p.(sendInterval := ms))
    case Cleared => w.(p := Reset(w.p))
  }

  // ---------- the display is a sound basis ----------

  lemma DisplayBasis(w: World)
    requires Good(w)
    ensures Basis(Apply(w.p, w.screen), w.p, w.row, Now(w.history))
  {
    var s, h := w.p, w.history;
    var d, cells := Apply(s, w.screen), RowCells(s, w.row, 0);
    var e := h[w.reflected];
    Applied(s, w.screen, w.row, 0);
    forall i | 0 <= i < s.width
      ensures !Awkward(d.grid[w.row][i])
      ensures !cells[i].base.active ==> Says(CellAt(d, w.row, i), Now(h).line[i])
    {
      Applied(s, w.screen, w.row, i);
      assert Tracks(cells[i], h, s.width, i, s.lateAcked);
      assert Says(CellAt(w.screen, w.row, i), e.line[i]) && !Awkward(w.screen.grid[w.row][i]);
    }
  }

  // ---------- a message ----------

  // In the middle of a message, typed over `display`.
  predicate Midway(s: State, display: Frame, row: nat, h: History) {
    Faithful(s, row, h) && Ordered(s) && Typing(s, h) && Basis(display, s, row, Now(h))
  }

  lemma MidwayFacts(s: State, display: Frame, row: nat, h: History)
    requires Midway(s, display, row, h)
    ensures Shaped(s) && Fits(s, display) && Sane(Now(h), |Now(h).line|) && Settled(s) && Sound(s, display)
  {
    FaithfulSettled(s, row, h);
    SettledIsSound(s, display);
  }

  lemma KeyMidway(s: State, display: Frame, row: nat, h: History, key: Key, now: nat)
    requires Midway(s, display, row, h) && Shaped(s) && Sane(Now(h), |Now(h).line|) && Typable(Now(h), key)
    ensures Midway(NewUserByte(s, Acts(key), display, now), display, row, Pressed(h, key))
  {
    MidwayFacts(s, display, row, h);
    SpeculationIsNoEvidence(s, display, now);
    var q := Cull(s, display, now);
    FaithfulCongruent(s, q, row, h);
    NewUserByteValid(s, Acts(key), display, now);
    ActFaithful(q, display, row, h, key, now);
  }

  lemma SettledIsSound(s: State, fb: Frame)
    requires Shaped(s) && Settled(s) && Fits(s, fb)
    ensures Sound(s, fb)
  {
    forall r, i | 0 <= r < |s.overlays| && 0 <= i < |s.overlays[r].cells|
      ensures !s.overlays[r].cells[i].Judge(fb, s.overlays[r].rowNum, s.lateAcked).IncorrectOrExpired?
    {
      assert RowShaped(s.overlays[r], s.height, s.width);
      assert RowQuiet(s.overlays[r], s.width, s.lateAcked);
      assert CellQuiet(s.overlays[r].cells[i], s.lateAcked);
    }
    forall k | 0 <= k < |s.cursors| ensures s.cursors[k].Judge(fb, s.lateAcked).Pending? {
      assert CursorShaped(s.cursors[k], s.height, s.width);
    }
  }

  // The reconciliations inside the bytes of a message refute nothing.
  predicate SoundKeys(s: State, keys: seq<Key>, display: Frame, now: nat)
    requires Shaped(s)
    decreases |keys|
  {
    keys == [] ||
    (Sound(s, display) && SoundKeys(NewUserByte(s, Acts(keys[0]), display, now), keys[1..], display, now))
  }

  lemma {:induction false} KeysMidway(s: State, display: Frame, row: nat, h: History, keys: seq<Key>, now: nat)
    requires Midway(s, display, row, h) && Shaped(s)
    requires Sane(Now(h), |Now(h).line|) && AllTypable(Now(h), keys)
    ensures Midway(TypeKeys(s, keys, display, now), display, row, h[|h| - 1 := PressAll(Now(h), keys)])
    ensures SoundKeys(s, keys, display, now)
    decreases |keys|
  {
    hide Midway, Sound, Press, Shaped;
    MidwayFacts(s, display, row, h);
    if keys == [] {
      assert h[|h| - 1 := Now(h)] == h;
    } else {
      KeyMidway(s, display, row, h, keys[0], now);
      var h' := Pressed(h, keys[0]);
      KeysMidway(NewUserByte(s, Acts(keys[0]), display, now), display, row, h', keys[1..], now);
      assert h'[|h| - 1 := PressAll(Now(h'), keys[1..])] == h[|h| - 1 := PressAll(Now(h), keys)];
    }
  }

  // Starting a message adds an entry to the history; nothing has changed yet.
  lemma MessageStarts(s: State, row: nat, h: History, s': State)
    requires Faithful(s, row, h) && s' == s.(sent := |h| - 1)
    ensures Faithful(s', row, h + [Now(h)]) && Typing(s', h + [Now(h)])
  {
    var h' := h + [Now(h)];
    var cells := RowCells(s, row, 0);
    assert forall other, e: nat :: 0 <= other < s.height ==> RowCells(s', other, e) == RowCells(s, other, e);
    hide RowCells, Shaped;
    forall i | 0 <= i < s.width ensures Tracks(cells[i], h', s.width, i, s.lateAcked) {
      assert Tracks(cells[i], h, s.width, i, s.lateAcked);
    }
  }

  lemma StartKeepsOrder(s: State, s': State, row: nat, d: Frame, e: Editor)
    requires Shaped(s) && Ordered(s) && s' == s.(sent := s'.sent) && s.sent <= s'.sent
    ensures Ordered(s')
    ensures Basis(d, s, row, e) ==> Basis(d, s', row, e)
  {
    assert forall other, e: nat :: 0 <= other < s.height ==> RowCells(s', other, e) == RowCells(s, other, e);
  }

  lemma MessageMidway(w: World)
    requires Good(w)
    ensures Midway(w.p.(sent := |w.history| - 1), Apply(w.p, w.screen), w.row, w.history + [Now(w.history)])
  {
    var s := w.p.(sent := |w.history| - 1);
    DisplayBasis(w);
    MessageStarts(w.p, w.row, w.history, s);
    StartKeepsOrder(w.p, s, w.row, Apply(w.p, w.screen), Now(w.history));
  }

  lemma LastReplaced(h: History, e: Editor, f: Editor)
    ensures (h + [e])[|h| := f] == h + [f]
  {
  }

  // Once a message is typed, the world has the editor as it is then.
  lemma MessageDone(w: World, p: State, display: Frame, e: Editor)
    requires Good(w) && Midway(p, display, w.row, w.history + [e]) && Fits(p, w.screen)
    requires p.sent == |w.history| - 1 && p.lateAcked == w.p.lateAcked
    ensures Good(w.(p := p, history := w.history + [e]))
  {
    hide RowTracks, RowsIdle, CursorTracks, CursorsQuiet, Shaped, AllSane, Ordered, Basis, Shows;
    assert (w.history + [e])[w.reflected] == w.history[w.reflected];
  }

  // What the keys do to the entry of their message.
  lemma LastMidway(s: State, display: Frame, row: nat, h: History, e: Editor, keys: seq<Key>, now: nat)
    requires Midway(s, display, row, h + [e]) && Shaped(s) && Sane(e, |e.line|) && AllTypable(e, keys)
    ensures Midway(TypeKeys(s, keys, display, now), display, row, h + [PressAll(e, keys)])
    ensures SoundKeys(s, keys, display, now)
  {
    hide Midway, TypeKeys, SoundKeys, Shaped, PressAll, AllTypable;
    KeysMidway(s, display, row, h + [e], keys, now);
    LastReplaced(h, e, PressAll(e, keys));
  }

  lemma MessageTyped(w: World, keys: seq<Key>, now: nat)
    requires Good(w) && AllTypable(Now(w.history), keys)
    ensures var s, d := w.p.(sent := |w.history| - 1), Apply(w.p, w.screen);
            && Midway(TypeKeys(s, keys, d, now), d, w.row, w.history + [PressAll(Now(w.history), keys)])
            && SoundKeys(s, keys, d, now) && Fits(w.p, d)
  {
    var s, d := w.p.(sent := |w.history| - 1), Apply(w.p, w.screen);
    AppliedFits(w);
    MessageMidway(w);
    hide Midway, Apply, TypeKeys, SoundKeys, PressAll, RowsShaped, CursorsShaped;
    LastMidway(s, d, w.row, w.history, Now(w.history), keys, now);
  }

  lemma GoodStarts(w: World)
    requires Good(w)
    ensures Shaped(w.p) && Fits(w.p, w.screen) && Sane(Now(w.history), |Now(w.history).line|)
  {
  }

  lemma AppliedFits(w: World)
    requires Good(w)
    ensures Fits(w.p, Apply(w.p, w.screen))
  {
    Applied(w.p, w.screen, w.row, 0);
  }

  lemma MessageGood(w: World, keys: seq<Key>, now: nat)
    requires Good(w) && AllTypable(Now(w.history), keys)
    ensures Good(Moved(w, Message(keys, now)))
    ensures SoundKeys(w.p.(sent := |w.history| - 1), keys, Apply(w.p, w.screen), now)
  {
    hide Good, Midway, Apply, TypeKeys, SoundKeys, RowsShaped, CursorsShaped, PressAll, AllTypable, Settled, Sound, Sane;
    GoodStarts(w);
    var s, d := w.p.(sent := |w.history| - 1), Apply(w.p, w.screen);
    var p, e := TypeKeys(s, keys, d, now), PressAll(Now(w.history), keys);
    MessageTyped(w, keys, now);
    MidwayFacts(p, d, w.row, w.history + [e]);
    MessageDone(w, p, d, e);
  }

  // ---------- a screen ----------

  // A screen that shows the editor after a message no older than an overlay's deadline
  // agrees with the overlay.
  lemma ScreenAgrees(w: World, fb: Frame, reflected: nat, echoAck: nat)
    requires Good(w) && Possible(w, Screen(fb, reflected, echoAck, 0))
    ensures Sound(w.p.(lateAcked := echoAck), fb)
  {
    var s, h := w.p, w.history;
    forall r, i | 0 <= r < |s.overlays| && 0 <= i < |s.overlays[r].cells|
      ensures !s.overlays[r].cells[i].Judge(fb, s.overlays[r].rowNum, echoAck).IncorrectOrExpired?
    {
      RowIndexOf(s, r);
      assert RowShaped(s.overlays[r], s.height, s.width);
      var c := s.overlays[r].cells[i];
      if s.overlays[r].rowNum == w.row {
        assert Tracks(RowCells(s, w.row, 0)[i], h, s.width, i, s.lateAcked);
        assert Says(CellAt(fb, w.row, i), h[reflected].line[i]);
        assert !Awkward(fb.grid[w.row][i]);
      } else {
        assert !RowCells(s, s.overlays[r].rowNum, 0)[i].base.active;
      }
    }
    if s.cursors != [] {
      assert CursorShaped(Last(s.cursors), s.height, s.width);
      assert s.cursors == [Last(s.cursors)];
    }
  }

  lemma ThinnedTracks(a: CellOverlay, b: CellOverlay, h: History, width: nat, i: nat, lateAcked: nat, echoAck: nat)
    requires AllSane(h, width) && i < width && Tracks(a, h, width, i, lateAcked) && lateAcked <= echoAck
    requires Thinned(a, b, echoAck)
    ensures Tracks(b, h, width, i, echoAck)
  {
    assert a.base.active && echoAck < a.base.expiration ==> CellText(a.replacement) == CellText(b.replacement);
  }

  lemma WalkedRows(s: State, t: State, row: nat)
    requires Shaped(s) && Shaped(t) && Walked(s, t, 0, 0) && row < s.height
    ensures forall i :: 0 <= i < s.width ==> Thinned(RowCells(s, row, 0)[i], RowCells(t, row, 0)[i], s.lateAcked)
  {
    var k := RowIndex(s.overlays, row);
    if k < |s.overlays| {
      assert ThinnedRow(s.overlays[k], t.overlays[k], 0, s.lateAcked);
      RowIndexOf(s, k);
      RowIndexOf(t, k);
    } else {
      assert forall j :: 0 <= j < |t.overlays| ==> t.overlays[j].rowNum != row by {
        forall j | 0 <= j < |t.overlays| ensures t.overlays[j].rowNum != row {
          assert ThinnedRow(s.overlays[j], t.overlays[j], 0, s.lateAcked);
          assert s.overlays[j].rowNum != row;
        }
      }
    }
  }

  lemma ScreenFaithful(s: State, t: State, row: nat, h: History, echoAck: nat)
    requires Faithful(s, row, h) && s.lateAcked <= echoAck < |h|
    requires Shaped(t) && Walked(s.(lateAcked := echoAck), t.(cursors := s.cursors), 0, 0)
    requires t.cursors == Waiting(s.cursors, echoAck)
    ensures Faithful(t, row, h)
  {
    var s1, t1 := s.(lateAcked := echoAck), t.(cursors := s.cursors);
    assert forall other, e: nat :: 0 <= other < s.height ==>
      RowCells(s1, other, e) == RowCells(s, other, e) && RowCells(t1, other, e) == RowCells(t, other, e);
    hide Shaped, RowsShaped;
    WalkedRows(s1, t1, row);
    hide RowCells;
    var a, b := RowCells(s, row, 0), RowCells(t, row, 0);
    forall i | 0 <= i < s.width ensures Tracks(b[i], h, s.width, i, echoAck) {
      assert Tracks(a[i], h, s.width, i, s.lateAcked);
      ThinnedTracks(a[i], b[i], h, s.width, i, s.lateAcked, echoAck);
    }
    forall other, i | 0 <= other < t.height && other != row && 0 <= i < t.width
      ensures !RowCells(t, other, 0)[i].base.active
    {
      assert !RowCells(s, other, 0)[i].base.active;
      WalkedRows(s1, t1, other);
    }
  }

  lemma ScreenGood(w: World, fb: Frame, reflected: nat, echoAck: nat, now: nat)
    requires Good(w) && Possible(w, Screen(fb, reflected, echoAck, now))
    ensures Good(Moved(w, Screen(fb, reflected, echoAck, now)))
  {
    hide Cull;
    var s := w.p.(lateAcked := echoAck);
    var t := Cull(s, fb, now);
    ScreenAgrees(w, fb, reflected, echoAck);
    CullValid(s, fb, now);
    NothingRefuted(s, fb, now);
    ScreenFaithful(w.p, t, w.row, w.history, echoAck);
  }

  lemma TickGood(w: World, now: nat)
    requires Good(w)
    ensures Good(Moved(w, Tick(now))) && Sound(w.p, w.screen)
  {
    FaithfulSettled(w.p, w.row, w.history);
    SettledIsSound(w.p, w.screen);
    SpeculationIsNoEvidence(w.p, w.screen, now);
    CullValid(w.p, w.screen, now);
    hide Cull;
    FaithfulCongruent(w.p, Cull(w.p, w.screen, now), w.row, w.history);
  }

  lemma StepGood(w: World, e: Event)
    requires Good(w) && Possible(w, e)
    ensures Good(Moved(w, e))
  {
    match e
    case Message(keys, now) => MessageGood(w, keys, now);
    case Screen(fb, reflected, echoAck, now) => ScreenGood(w, fb, reflected, echoAck, now);
    case Tick(now) => TickGood(w, now);
    case LinkSpeed(ms) =>
      var s := w.p.(sendInterval := ms);
      assert forall other, e: nat :: 0 <= other < s.height ==> RowCells(s, other, e) == RowCells(w.p, other, e);
      hide RowCells;
    case Cleared => ClearedExact(w);
  }

  // Overlays may be dropped exactly when the editor has not changed since the acknowledged
  // message: what is then painted is all there is to know.
  lemma ClearedExact(w: World)
    requires Good(w)
    ensures Good(w.(p := Reset(w.p))) <==> Unchanged(w.history, w.p.lateAcked)
  {
    var s, h := Reset(w.p), w.history;
    var cells := RowCells(s, w.row, 0);
    assert forall i :: 0 <= i < s.width ==> !cells[i].base.active;
    if Unchanged(h, s.lateAcked) {
      assert RowTracks(cells, h, s.width, s.lateAcked);
    } else if Good(w.(p := s)) {
      forall k | s.lateAcked <= k < |h| ensures h[k] == Now(h) {
        assert Sane(h[k], s.width) && Sane(Now(h), s.width);
        forall i | 0 <= i < s.width ensures h[k].line[i] == Now(h).line[i] {
          assert Tracks(cells[i], h, s.width, i, s.lateAcked);
        }
        assert h[k].line == Now(h).line;
      }
    }
  }

  // ---------- whole runs ----------

  function Next(w: World, e: Event): (r: World)
    requires Good(w) && Possible(w, e)
    ensures Good(r)
  {
    StepGood(w, e);
    Moved(w, e)
  }

  predicate AllPossible(w: World, events: seq<Event>)
    requires Good(w)
    decreases |events|
  {
    events == [] || (Possible(w, events[0]) && AllPossible(Next(w, events[0]), events[1..]))
  }

  function Run(w: World, events: seq<Event>): (r: World)
    requires Good(w) && AllPossible(w, events)
    ensures Good(r)
    decreases |events|
  {
    if events == [] then w else Run(Next(w, events[0]), events[1..])
  }

  // Every reconciliation of the step, those inside typed bytes included, refutes nothing.
  predicate SoundStep(w: World, e: Event)
    requires Good(w) && Possible(w, e)
  {
    match e
    case Message(keys, now) => SoundKeys(w.p.(sent := |w.history| - 1), keys, Apply(w.p, w.screen), now)
    case Screen(fb, _, echoAck, _) => Sound(w.p.(lateAcked := echoAck), fb)
    case Tick(_) => Sound(w.p, w.screen)
    case LinkSpeed(_) => true
    case Cleared => true
  }

  predicate AllSound(w: World, events: seq<Event>)
    requires Good(w) && AllPossible(w, events)
    decreases |events|
  {
    events == [] || (SoundStep(w, events[0]) && AllSound(Next(w, events[0]), events[1..]))
  }

  // Exactness: against an ideal line editor no prediction is ever judged wrong, for every
  // interleaving of keys with late, skipped and partly acknowledged screens.
  lemma {:induction false} NeverRefuted(w: World, events: seq<Event>)
    requires Good(w) && AllPossible(w, events)
    ensures AllSound(w, events)
    decreases |events|
  {
    if events != [] {
      StepIsSound(w, events[0]);
      hide Good, Possible, SoundStep, Next;
      NeverRefuted(Next(w, events[0]), events[1..]);
    }
  }

  lemma StepIsSound(w: World, e: Event)
    requires Good(w) && Possible(w, e)
    ensures SoundStep(w, e)
  {
    match e
    case Message(keys, now) => MessageGood(w, keys, now);
    case Screen(fb, reflected, echoAck, now) => ScreenAgrees(w, fb, reflected, echoAck);
    case Tick(now) => TickGood(w, now);
    case LinkSpeed(_) =>
    case Cleared =>
  }

  // The epochs of all overlays in the row are trusted.
  predicate Trusted(w: World)
    requires Good(w)
  {
    && (w.p.cursors != [] ==> !Last(w.p.cursors).base.Tentative(w.p.confirmedEpoch))
    && forall i :: 0 <= i < w.p.width ==>
         (RowCells(w.p, w.row, 0)[i].base.active ==> !RowCells(w.p, w.row, 0)[i].base.Tentative(w.p.confirmedEpoch))
  }

  // The point of it all: in every reachable state, once its epoch is trusted and display is
  // on, the painted row and cursor are those the remote will show after everything typed,
  // except in columns known to be unknown.
  lemma ShowsTheFuture(w: World)
    requires Good(w) && Trusted(w) && Showing(w.p)
    ensures var d := Apply(w.p, w.screen);
            && d.rows == w.p.height && d.cols == w.p.width
            && d.cursorRow == w.row && d.cursorCol == Now(w.history).col
            && forall i :: 0 <= i < d.cols ==>
                 (RowCells(w.p, w.row, 0)[i].base.active && RowCells(w.p, w.row, 0)[i].unknown)
                 || CellText(CellAt(d, w.row, i)) == Now(w.history).line[i]
  {
    var s, h := w.p, w.history;
    var d, cells := Apply(s, w.screen), RowCells(s, w.row, 0);
    Applied(s, w.screen, w.row, 0);
    forall i | 0 <= i < s.width
      ensures (cells[i].base.active && cells[i].unknown) || CellText(CellAt(d, w.row, i)) == Now(h).line[i]
    {
      Applied(s, w.screen, w.row, i);
      assert Tracks(cells[i], h, s.width, i, s.lateAcked);
      assert Says(CellAt(w.screen, w.row, i), h[w.reflected].line[i]);
    }
  }

  // A new predictor that has seen its first screen is a good place to start from.
  lemma FirstScreen(fb: Frame, row: nat, e: Editor, preference: Preference, now: nat)
    requires Shows(fb, row, e) && !preference.Never?
    ensures Good(World(Cull(INITIAL.(preference := preference), fb, now), row, [e], fb, 0))
  {
    var s := INITIAL.(preference := preference);
    CullValid(s, fb, now);
    assert Resized(s, fb).overlays == [] && Resized(s, fb).cursors == [];
    assert Cull(s, fb, now).overlays == [] && Cull(s, fb, now).cursors == [];
  }
}
