/**
 Prediction is exact against an ideal line editor. The remote edits one row: it inserts
 before the last column, rubs out, and moves left and right. Screens arrive late or not at
 all; each shows the row as it was after some message, at least the acknowledged one. Then
 no overlay is ever refuted, however keys and screens interleave, and a trusted prediction
 shows the line the remote will show once it catches up. All overlays may be dropped whenever
 the editor has not changed since the acknowledged message.
 */
module LineEditor {
  import opened Wrappers
  import opened Frames
  import opened Overlays
  import opened Prediction
  import opened PredictionInvariants
  import opened LineSplice

  // ---------- the remote ----------

  datatype Editor = Editor(line: seq<string>, col: nat)

  // `Prefix` is a byte inside an escape sequence, such as the first two of an arrow key.
  datatype Key = Insert(ch: char) | Rubout | GoRight | GoLeft | Prefix

  predicate Sane(e: Editor, width: nat) { |e.line| == width && e.col < width }

  // Characters are typed before the last column only, where they would wrap.
  predicate Typable(e: Editor, key: Key) { key.Insert? ==> e.col + 1 < |e.line| }

  function Press(e: Editor, key: Key): (r: Editor)
    requires Sane(e, |e.line|) && Typable(e, key)
    ensures Sane(r, |e.line|)
  {
    match key
    case Insert(ch) => Editor(e.line[..e.col] + [[ch]] + e.line[e.col..|e.line| - 1], e.col + 1)
    case Rubout => if e.col == 0 then e else Editor(e.line[..e.col - 1] + e.line[e.col..] + [" "], e.col - 1)
    case GoRight => if e.col + 1 < |e.line| then e.(col := e.col + 1) else e
    case GoLeft => if e.col > 0 then e.(col := e.col - 1) else e
    case Prefix => e
  }

  function Acts(key: Key): seq<Act> {
    match key
    case Insert(ch) => [Print(ch, true)]
    case Rubout => [Backspace]
    case GoRight => [Right]
    case GoLeft => [Left]
    case Prefix => []
  }

  predicate Says(cell: Cell, text: string) { CellText(cell) == text && !cell.glyph.Overflow? }

  // The frame shows the editor in `row`, with nothing in it that cannot be moved.
  predicate Shows(fb: Frame, row: nat, e: Editor) {
    && row < fb.rows && Sane(e, fb.cols) && fb.cursorRow == row && fb.cursorCol == e.col
    && forall i :: 0 <= i < fb.cols ==> Says(CellAt(fb, row, i), e.line[i]) && !Awkward(fb.grid[row][i])
  }

  // ---------- what the overlays know ----------

  // The editor after each message, from the start; the last entry is the present.
  type History = h: seq<Editor> | h != [] witness [Editor([], 0)]

  function Now(h: History): Editor { h[|h| - 1] }

  predicate AllSane(h: History, width: nat) { forall k :: 0 <= k < |h| ==> Sane(h[k], width) }

  // Column `i` has looked as it looks now ever since message `from`.
  predicate Still(h: History, width: nat, i: nat, from: nat)
    requires AllSane(h, width) && i < width
  {
    forall k :: from <= k < |h| ==> h[k].line[i] == Now(h).line[i]
  }

  // An overlay names the present text of its column, and the column has not changed since
  // the message the overlay waits for; without one it has not changed since the
  // acknowledged message.
  predicate Tracks(c: CellOverlay, h: History, width: nat, i: nat, lateAcked: nat)
    requires AllSane(h, width) && i < width
  {
    if c.base.active then
      && lateAcked < c.base.expiration < |h|
      && Still(h, width, i, c.base.expiration)
      && (!c.unknown ==> Says(c.replacement, Now(h).line[i]))
    else Still(h, width, i, lateAcked)
  }

  predicate RowTracks(cells: seq<CellOverlay>, h: History, width: nat, lateAcked: nat)
    requires AllSane(h, width) && |cells| == width
  {
    forall i :: 0 <= i < width ==> Tracks(cells[i], h, width, i, lateAcked)
  }

  predicate CursorStill(h: History, from: nat) { forall k :: from <= k < |h| ==> h[k].col == Now(h).col }

  predicate CursorTracks(cursors: seq<CursorOverlay>, row: nat, h: History, lateAcked: nat) {
    if cursors == [] then CursorStill(h, lateAcked)
    else
      var c := Last(cursors);
      c.row == row && c.col == Now(h).col && c.base.expiration < |h| && CursorStill(h, c.base.expiration)
  }

  predicate RowsIdle(s: State, row: nat)
    requires Shaped(s)
  {
    forall other, i :: 0 <= other < s.height && other != row && 0 <= i < s.width ==> !RowCells(s, other, 0)[i].base.active
  }

  // No key of the editor starts an epoch, so one cursor overlay is moved about, and it is of
  // the present epoch.
  predicate OneCursor(s: State) {
    |s.cursors| <= 1 && (s.cursors != [] ==> Last(s.cursors).base.tentativeUntil == s.predictionEpoch)
  }

  predicate Faithful(s: State, row: nat, h: History) {
    && Shaped(s) && !s.overwrite && !s.preference.Never? && row < s.height
    && AllSane(h, s.width) && s.lateAcked < |h|
    && RowTracks(RowCells(s, row, 0), h, s.width, s.lateAcked)
    && RowsIdle(s, row)
    && CursorTracks(s.cursors, row, h, s.lateAcked)
    && CursorsQuiet(s.cursors, s.lateAcked)
    && OneCursor(s)
  }

  // The display is right about every column no overlay covers.
  predicate Basis(fb: Frame, s: State, row: nat, e: Editor) {
    && Shaped(s) && Fits(s, fb) && row < s.height && Sane(e, s.width)
    && (forall i :: 0 <= i < s.width ==> !Awkward(fb.grid[row][i]))
    && (forall i :: 0 <= i < s.width && !RowCells(s, row, 0)[i].base.active ==> Says(CellAt(fb, row, i), e.line[i]))
    && (s.cursors == [] ==> fb.cursorRow == row && fb.cursorCol == e.col)
  }

  // ---------- rows of a shaped state ----------

  lemma RowIndexOf(s: State, k: nat)
    requires Shaped(s) && k < |s.overlays|
    ensures RowIndex(s.overlays, s.overlays[k].rowNum) == k && s.overlays[k].rowNum < s.height
    ensures RowCells(s, s.overlays[k].rowNum, 0) == s.overlays[k].cells
  {
    assert RowShaped(s.overlays[k], s.height, s.width);
  }

  lemma FaithfulSettled(s: State, row: nat, h: History)
    requires Faithful(s, row, h)
    ensures Settled(s)
  {
    forall k | 0 <= k < |s.overlays| ensures RowQuiet(s.overlays[k], s.width, s.lateAcked) {
      RowIndexOf(s, k);
      var cells := RowCells(s, s.overlays[k].rowNum, 0);
      forall i | 0 <= i < s.width ensures CellQuiet(cells[i], s.lateAcked) {
        if s.overlays[k].rowNum == row { assert Tracks(cells[i], h, s.width, i, s.lateAcked); }
      }
    }
  }

  lemma FreshEpochIrrelevant(s: State, row: nat, epoch: nat)
    requires Shaped(s) && row < s.height
    ensures var a, b := RowCells(s, row, 0), RowCells(s, row, epoch);
            a == b || forall i :: 0 <= i < s.width ==> !a[i].base.active && !b[i].base.active
  {
  }

  lemma FaithfulCongruent(s: State, t: State, row: nat, h: History)
    requires Faithful(s, row, h) && SameOverlays(t, s)
    ensures Faithful(t, row, h)
    ensures forall fb, e :: Basis(fb, s, row, e) ==> Basis(fb, t, row, e)
  {
    assert forall other, e: nat :: 0 <= other < s.height ==> RowCells(t, other, e) == RowCells(s, other, e);
  }

  // ---------- one key ----------

  // The present entry of the history takes the key.
  function Pressed(h: History, key: Key): History
    requires Sane(Now(h), |Now(h).line|) && Typable(Now(h), key)
  {
    h[|h| - 1 := Press(Now(h), key)]
  }

  lemma PressedSane(h: History, width: nat, key: Key)
    requires AllSane(h, width) && Typable(Now(h), key)
    ensures AllSane(Pressed(h, key), width)
  {
  }

  // A cell whose deadline is the present message tracks whatever is now there.
  lemma FreshlyDue(c: CellOverlay, h: History, width: nat, i: nat, lateAcked: nat)
    requires AllSane(h, width) && i < width && lateAcked < |h| - 1
    requires c.base.active && c.base.expiration == |h| - 1
    requires !c.unknown ==> Says(c.replacement, Now(h).line[i])
    ensures Tracks(c, h, width, i, lateAcked)
  {
  }

  // A column the key does not touch is tracked as before.
  lemma Untouched(c: CellOverlay, h: History, h': History, width: nat, i: nat, lateAcked: nat)
    requires AllSane(h, width) && AllSane(h', width) && i < width && |h| == |h'|
    requires forall k :: 0 <= k < |h| - 1 ==> h'[k] == h[k]
    requires Now(h').line[i] == Now(h).line[i] && Tracks(c, h, width, i, lateAcked)
    ensures Tracks(c, h', width, i, lateAcked)
  {
  }

  // What a donor cell passes on is the text of its column.
  lemma DonorSays(c: CellOverlay, shown: Cell, donor: CellOverlay, h: History, width: nat, i: nat, lateAcked: nat)
    requires AllSane(h, width) && i < width && Tracks(donor, h, width, i, lateAcked)
    requires !donor.base.active ==> Says(shown, Now(h).line[i])
    ensures !c.TakeFrom(donor, shown).unknown ==> Says(c.TakeFrom(donor, shown).replacement, Now(h).line[i])
  {
  }

  predicate ShownTracks(cells: seq<CellOverlay>, shown: seq<Cell>, e: Editor)
    requires |cells| == |shown| == |e.line|
  {
    forall i :: 0 <= i < |cells| && !cells[i].base.active ==> Says(shown[i], e.line[i])
  }

  predicate Ready(cells: seq<CellOverlay>, shown: seq<Cell>, h: History, width: nat, lateAcked: nat) {
    && |cells| == |shown| == width && AllSane(h, width) && lateAcked < |h| - 1
    && RowTracks(cells, h, width, lateAcked) && ShownTracks(cells, shown, Now(h))
  }

  lemma InsertedTracks(cells: seq<CellOverlay>, shown: seq<Cell>, ch: char, epoch: nat, now: nat, h: History, width: nat, lateAcked: nat, i: nat)
    requires Ready(cells, shown, h, width, lateAcked) && Typable(Now(h), Insert(ch)) && i < width
    requires AllSane(Pressed(h, Insert(ch)), width)
    ensures Tracks(InsertedCell(cells, shown, Now(h).col, width - 1, ch, epoch, |h| - 1, now, i),
                   Pressed(h, Insert(ch)), width, i, lateAcked)
  {
    var e, h' := Now(h), Pressed(h, Insert(ch));
    var typed := InsertedCell(cells, shown, e.col, width - 1, ch, epoch, |h| - 1, now, i);
    assert Tracks(cells[i], h, width, i, lateAcked);
    if i < e.col {
      Untouched(cells[i], h, h', width, i, lateAcked);
    } else {
      if e.col < i < width - 1 {
        assert Now(h').line[i] == e.line[i - 1];
        assert Tracks(cells[i - 1], h, width, i - 1, lateAcked);
        DonorSays(cells[i].Claim(epoch, |h| - 1, now, shown[i]), shown[i - 1], cells[i - 1], h, width, i - 1, lateAcked);
      }
      FreshlyDue(typed, h', width, i, lateAcked);
    }
  }

  lemma DeletedTracks(cells: seq<CellOverlay>, shown: seq<Cell>, epoch: nat, now: nat, h: History, width: nat, lateAcked: nat, i: nat)
    requires Ready(cells, shown, h, width, lateAcked) && Now(h).col > 0 && i < width
    requires AllSane(Pressed(h, Rubout), width)
    ensures Tracks(DeletedCell(cells, shown, Now(h).col - 1, epoch, |h| - 1, now, i), Pressed(h, Rubout), width, i, lateAcked)
  {
    var e, h' := Now(h), Pressed(h, Rubout);
    var erased := DeletedCell(cells, shown, e.col - 1, epoch, |h| - 1, now, i);
    assert Tracks(cells[i], h, width, i, lateAcked);
    if i < e.col - 1 {
      Untouched(cells[i], h, h', width, i, lateAcked);
    } else {
      if i + 2 < width {
        assert Now(h').line[i] == e.line[i + 1];
        assert Tracks(cells[i + 1], h, width, i + 1, lateAcked);
        DonorSays(cells[i].Claim(epoch, |h| - 1, now, shown[i]), shown[i + 1], cells[i + 1], h, width, i + 1, lateAcked);
      }
      FreshlyDue(erased, h', width, i, lateAcked);
    }
  }

  lemma InsertTracks(cells: seq<CellOverlay>, shown: seq<Cell>, ch: char, epoch: nat, now: nat, h: History, width: nat, lateAcked: nat)
    requires Ready(cells, shown, h, width, lateAcked) && Typable(Now(h), Insert(ch))
    ensures AllSane(Pressed(h, Insert(ch)), width)
    ensures RowTracks(InsertedRow(cells, shown, Now(h).col, width - 1, ch, epoch, |h| - 1, now), Pressed(h, Insert(ch)), width, lateAcked)
  {
    PressedSane(h, width, Insert(ch));
    hide InsertedCell, Tracks;
    var typed := InsertedRow(cells, shown, Now(h).col, width - 1, ch, epoch, |h| - 1, now);
    forall i | 0 <= i < width ensures Tracks(typed[i], Pressed(h, Insert(ch)), width, i, lateAcked) {
      InsertedTracks(cells, shown, ch, epoch, now, h, width, lateAcked, i);
    }
  }

  lemma RuboutTracks(cells: seq<CellOverlay>, shown: seq<Cell>, epoch: nat, now: nat, h: History, width: nat, lateAcked: nat)
    requires Ready(cells, shown, h, width, lateAcked) && Now(h).col > 0
    ensures AllSane(Pressed(h, Rubout), width)
    ensures RowTracks(DeletedRow(cells, shown, Now(h).col - 1, epoch, |h| - 1, now), Pressed(h, Rubout), width, lateAcked)
  {
    PressedSane(h, width, Rubout);
    hide DeletedCell, Tracks;
    var erased := DeletedRow(cells, shown, Now(h).col - 1, epoch, |h| - 1, now);
    forall i | 0 <= i < width ensures Tracks(erased[i], Pressed(h, Rubout), width, i, lateAcked) {
      DeletedTracks(cells, shown, epoch, now, h, width, lateAcked, i);
    }
  }

  lemma AnyEpochTracks(s: State, row: nat, epoch: nat, h: History)
    requires Shaped(s) && row < s.height && AllSane(h, s.width)
    requires RowTracks(RowCells(s, row, 0), h, s.width, s.lateAcked)
    ensures RowTracks(RowCells(s, row, epoch), h, s.width, s.lateAcked)
  {
    FreshEpochIrrelevant(s, row, epoch);
    var a, b := RowCells(s, row, 0), RowCells(s, row, epoch);
    forall i | 0 <= i < s.width ensures Tracks(b[i], h, s.width, i, s.lateAcked) {
      assert Tracks(a[i], h, s.width, i, s.lateAcked);
    }
  }

  lemma AnyEpochShown(s: State, row: nat, epoch: nat, fb: Frame, e: Editor)
    requires Basis(fb, s, row, e)
    ensures ShownTracks(RowCells(s, row, epoch), ShownRow(fb, row), e)
  {
    FreshEpochIrrelevant(s, row, epoch);
  }

  // The message being typed is the last entry of the history.
  predicate Typing(s: State, h: History) { s.sent + 1 == |h| - 1 && s.lateAcked < |h| - 1 }

  // Rewriting the row so that it tracks the pressed key, and moving the cursor with it.
  lemma EditFaithful(s: State, t: State, row: nat, cells: seq<CellOverlay>, h: History, key: Key)
    requires Faithful(s, row, h) && Typing(s, h) && s.cursors != [] && Typable(Now(h), key)
    requires AllSane(Pressed(h, key), s.width)
    requires |cells| == s.width && RowTracks(cells, Pressed(h, key), s.width, s.lateAcked)
    requires Edited(s, t, row, cells, Now(Pressed(h, key)).col)
    ensures Faithful(t, row, Pressed(h, key))
  {
    hide RowTracks, RowCells, Tracks, Shaped;
    var h' := Pressed(h, key);
    assert RowCells(t, row, 0) == cells;
    forall other, i | 0 <= other < t.height && other != row && 0 <= i < t.width
      ensures !RowCells(t, other, 0)[i].base.active
    {
      assert !RowCells(s, other, 0)[i].base.active;
    }
    assert Last(s.cursors).row == row;
  }

  lemma EditBasis(s: State, t: State, fb: Frame, row: nat, cells: seq<CellOverlay>, e: Editor, e': Editor, from: nat)
    requires Basis(fb, s, row, e) && s.cursors != [] && Sane(e', s.width) && |cells| == s.width && e'.col < s.width
    requires Edited(s, t, row, cells, e'.col)
    requires forall i :: from <= i < s.width ==> cells[i].base.active
    requires forall i :: 0 <= i < Min(from, s.width) ==>
      e'.line[i] == e.line[i] && cells[i].base.active == RowCells(s, row, 0)[i].base.active
    ensures Basis(fb, t, row, e')
  {
    hide RowCells, Shaped;
    assert RowCells(t, row, 0) == cells;
  }

  predicate Poised(s: State, fb: Frame, row: nat, h: History) {
    Faithful(s, row, h) && Typing(s, h) && Basis(fb, s, row, Now(h)) && s.cursors != []
  }

  lemma PoisedReady(s: State, fb: Frame, row: nat, h: History)
    requires Poised(s, fb, row, h)
    ensures Last(s.cursors).row == row && Last(s.cursors).col == Now(h).col
    ensures Ready(RowCells(s, row, s.predictionEpoch), ShownRow(fb, row), h, s.width, s.lateAcked)
    ensures Now(h).col + 1 < s.width ==> CanType(s, fb)
    ensures 0 < Now(h).col ==> CanErase(s, fb)
  {
    AnyEpochTracks(s, row, s.predictionEpoch, h);
    AnyEpochShown(s, row, s.predictionEpoch, fb, Now(h));
    hide RowCells, ShownRow, RowTracks, ShownTracks, Shaped;
  }

  lemma InsertFaithful(s: State, fb: Frame, row: nat, h: History, ch: char, now: nat)
    requires Poised(s, fb, row, h) && Typable(Now(h), Insert(ch))
    ensures Faithful(PredictChar(s, ch, fb, now), row, Pressed(h, Insert(ch)))
  {
    hide PredictChar, RowCells, InsertedRow, RowTracks, UnsupportedRange, Shaped, Edited, RowsIdle, Ready, Basis;
    var E := s.predictionEpoch;
    PoisedReady(s, fb, row, h);
    TypingRewrites(s, ch, fb, now);
    InsertTracks(RowCells(s, row, E), ShownRow(fb, row), ch, E, now, h, s.width, s.lateAcked);
    EditFaithful(s, PredictChar(s, ch, fb, now), row, TypedRow(s, ch, fb, now), h, Insert(ch));
  }

  lemma InsertBasis(s: State, fb: Frame, row: nat, h: History, ch: char, now: nat)
    requires Poised(s, fb, row, h) && Typable(Now(h), Insert(ch))
    ensures Basis(fb, PredictChar(s, ch, fb, now), row, Now(Pressed(h, Insert(ch))))
  {
    hide PredictChar, RowCells, InsertedRow, RowTracks, UnsupportedRange, Shaped, Edited, RowsIdle, Ready;
    var e := Now(h);
    PoisedReady(s, fb, row, h);
    FreshEpochIrrelevant(s, row, s.predictionEpoch);
    TypingRewrites(s, ch, fb, now);
    EditBasis(s, PredictChar(s, ch, fb, now), fb, row, TypedRow(s, ch, fb, now), e, Now(Pressed(h, Insert(ch))), e.col);
  }

  lemma RuboutFaithful(s: State, fb: Frame, row: nat, h: History, now: nat)
    requires Poised(s, fb, row, h) && 0 < Now(h).col
    ensures Faithful(BackspaceKey(s, fb, now), row, Pressed(h, Rubout))
  {
    hide BackspaceKey, RowCells, DeletedRow, RowTracks, UnsupportedRange, Shaped, Edited, RowsIdle, Ready, Basis;
    var E := s.predictionEpoch;
    PoisedReady(s, fb, row, h);
    ErasingRewrites(s, fb, now);
    RuboutTracks(RowCells(s, row, E), ShownRow(fb, row), E, now, h, s.width, s.lateAcked);
    EditFaithful(s, BackspaceKey(s, fb, now), row, ErasedRow(s, fb, now), h, Rubout);
  }

  lemma RuboutBasis(s: State, fb: Frame, row: nat, h: History, now: nat)
    requires Poised(s, fb, row, h) && 0 < Now(h).col
    ensures Basis(fb, BackspaceKey(s, fb, now), row, Now(Pressed(h, Rubout)))
  {
    hide BackspaceKey, RowCells, DeletedRow, RowTracks, UnsupportedRange, Shaped, Edited, RowsIdle, Ready;
    var e := Now(h);
    PoisedReady(s, fb, row, h);
    FreshEpochIrrelevant(s, row, s.predictionEpoch);
    ErasingRewrites(s, fb, now);
    EditBasis(s, BackspaceKey(s, fb, now), fb, row, ErasedRow(s, fb, now), e, Now(Pressed(h, Rubout)), e.col - 1);
  }

  lemma RuboutKey(s: State, fb: Frame, row: nat, h: History, now: nat)
    requires Poised(s, fb, row, h)
    ensures Faithful(BackspaceKey(s, fb, now), row, Pressed(h, Rubout))
    ensures Basis(fb, BackspaceKey(s, fb, now), row, Now(Pressed(h, Rubout)))
  {
    PoisedReady(s, fb, row, h);
    if Now(h).col == 0 {
      assert Pressed(h, Rubout) == h;
      assert BackspaceKey(s, fb, now) == s;
    } else {
      RuboutFaithful(s, fb, row, h, now);
      RuboutBasis(s, fb, row, h, now);
    }
  }

  lemma ArrowKey(s: State, fb: Frame, row: nat, h: History, key: Key, now: nat)
    requires Poised(s, fb, row, h)
    requires key.GoRight? || key.GoLeft?
    requires Now(Pressed(h, key)).col != Now(h).col
    ensures Faithful(MoveTo(s, Now(Pressed(h, key)).col, now), row, Pressed(h, key))
    ensures Basis(fb, MoveTo(s, Now(Pressed(h, key)).col, now), row, Now(Pressed(h, key)))
  {
    var h' := Pressed(h, key);
    var t := MoveTo(s, Now(h').col, now);
    assert forall other, e: nat :: 0 <= other < s.height ==> RowCells(t, other, e) == RowCells(s, other, e);
    hide RowCells, Shaped, MoveTo;
    forall i | 0 <= i < s.width ensures Tracks(RowCells(t, row, 0)[i], h', s.width, i, s.lateAcked) {
      assert Tracks(RowCells(s, row, 0)[i], h, s.width, i, s.lateAcked);
      Untouched(RowCells(s, row, 0)[i], h, h', s.width, i, s.lateAcked);
    }
    assert RowTracks(RowCells(t, row, 0), h', t.width, t.lateAcked);
  }

  // A cursor overlay is there to be moved, and knows where the cursor is.
  lemma InitFaithful(s: State, fb: Frame, row: nat, h: History)
    requires Faithful(s, row, h) && Typing(s, h) && Basis(fb, s, row, Now(h))
    ensures Faithful(InitCursor(s, fb), row, h) && Typing(InitCursor(s, fb), h)
    ensures Basis(fb, InitCursor(s, fb), row, Now(h)) && InitCursor(s, fb).cursors != []
  {
    var t := InitCursor(s, fb);
    assert forall other, e: nat :: 0 <= other < s.height ==> RowCells(t, other, e) == RowCells(s, other, e);
    hide RowCells, Shaped, Tracks;
    assert RowTracks(RowCells(t, row, 0), h, t.width, t.lateAcked);
  }

  lemma ArrowAct(s: State, fb: Frame, row: nat, h: History, key: Key, now: nat)
    requires Poised(s, fb, row, h)
    requires key.GoRight? || key.GoLeft?
    ensures var t := if key.GoRight? then CursorRight(s, now) else CursorLeft(s, now);
            Faithful(t, row, Pressed(h, key)) && Basis(fb, t, row, Now(Pressed(h, key)))
  {
    assert Last(s.cursors).col == Now(h).col && |Now(h).line| == s.width;
    hide RowCells, Shaped, MoveTo, RowTracks;
    if Now(Pressed(h, key)).col == Now(h).col {
      assert Pressed(h, key) == h;
    } else {
      ArrowKey(s, fb, row, h, key, now);
    }
  }

  lemma ActFaithful(s: State, fb: Frame, row: nat, h: History, key: Key, now: nat)
    requires Faithful(s, row, h) && Typing(s, h) && Basis(fb, s, row, Now(h)) && Typable(Now(h), key)
    ensures var t := DoActs(s, Acts(key), fb, now);
            Faithful(t, row, Pressed(h, key)) && Basis(fb, t, row, Now(Pressed(h, key)))
  {
    hide Faithful, Shaped, Fits, PredictChar, BackspaceKey, InitCursor, CursorRight, CursorLeft;
    InitFaithful(s, fb, row, h);
    var s1 := InitCursor(s, fb);
    if !key.Prefix? {
      assert Acts(key)[1..] == [];
    }
    match key
    case Insert(ch) =>
      InsertFaithful(s1, fb, row, h, ch, now);
      InsertBasis(s1, fb, row, h, ch, now);
    case Rubout => RuboutKey(s1, fb, row, h, now);
    case GoRight => ArrowAct(s1, fb, row, h, key, now);
    case GoLeft => ArrowAct(s1, fb, row, h, key, now);
    case Prefix => assert Pressed(h, key) == h;
  }
}
