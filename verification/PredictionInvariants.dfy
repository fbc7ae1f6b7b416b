/**
 What every predictor operation keeps. Overlays are ordered by the input frame they wait
 for, nothing outlives the newest cursor, and after a reconciliation only overlays that
 still wait for their frame are left.
 */
module PredictionInvariants {
  import opened Wrappers
  import opened Frames
  import opened Overlays
  import opened Prediction

  // ---------- the invariant ----------

  // The frame the newest cursor waits for; zero when there is none.
  function NewestDue(cursors: seq<CursorOverlay>): nat {
    if cursors == [] then 0 else Last(cursors).base.expiration
  }

  predicate CellOrdered(c: CellOverlay, limit: nat, epoch: nat) {
    c.base.active ==> 1 <= c.base.expiration <= limit && c.base.tentativeUntil <= epoch
  }

  predicate RowOrdered(row: Row, limit: nat, epoch: nat) {
    forall i :: 0 <= i < |row.cells| ==> CellOrdered(row.cells[i], limit, epoch)
  }

  predicate RowsOrdered(overlays: seq<Row>, limit: nat, epoch: nat) {
    forall r :: 0 <= r < |overlays| ==> RowOrdered(overlays[r], limit, epoch)
  }

  predicate CursorsOrdered(cursors: seq<CursorOverlay>, limit: nat, epoch: nat) {
    && (forall k :: 0 <= k < |cursors| ==>
          1 <= cursors[k].base.expiration <= limit && cursors[k].base.tentativeUntil <= epoch)
    && (forall j, k :: 0 <= j < k < |cursors| ==> cursors[j].base.expiration <= cursors[k].base.expiration)
  }

  // Cursor deadlines never decrease and none lies beyond the message being typed; no cell
  // waits longer than the newest cursor; no epoch lies in the future.
  predicate Ordered(s: State) {
    && CursorsOrdered(s.cursors, s.sent + 1, s.predictionEpoch)
    && RowsOrdered(s.overlays, NewestDue(s.cursors), s.predictionEpoch)
    && s.confirmedEpoch <= s.predictionEpoch
  }

  predicate Valid(s: State) { Shaped(s) && Ordered(s) }

  // The claim the order exists for: without a cursor overlay there is no cell overlay, so
  // `Active` could be answered from the cursors alone.
  lemma ActiveMeansCursor(s: State)
    requires Valid(s)
    ensures Active(s) <==> s.cursors != []
  {
    if s.cursors == [] {
      forall r, i | 0 <= r < |s.overlays| && 0 <= i < |s.overlays[r].cells|
        ensures !s.overlays[r].cells[i].base.active
      {
        assert RowOrdered(s.overlays[r], 0, s.predictionEpoch);
        assert CellOrdered(s.overlays[r].cells[i], 0, s.predictionEpoch);
      }
    }
  }

  // ---------- order is kept by typing ----------

  lemma RowsOrderedWeaken(overlays: seq<Row>, limit: nat, epoch: nat, limit': nat, epoch': nat)
    requires RowsOrdered(overlays, limit, epoch) && limit <= limit' && epoch <= epoch'
    ensures RowsOrdered(overlays, limit', epoch')
  {
    forall r | 0 <= r < |overlays| ensures RowOrdered(overlays[r], limit', epoch') {
      assert RowOrdered(overlays[r], limit, epoch);
      forall i | 0 <= i < |overlays[r].cells| ensures CellOrdered(overlays[r].cells[i], limit', epoch') {
        assert CellOrdered(overlays[r].cells[i], limit, epoch);
      }
    }
  }

  lemma BecomeTentativeOrdered(s: State)
    requires Ordered(s)
    ensures Ordered(BecomeTentative(s))
  {
    RowsOrderedWeaken(s.overlays, NewestDue(s.cursors), s.predictionEpoch, NewestDue(s.cursors), s.predictionEpoch + 1);
  }

  lemma InitCursorOrdered(s: State, fb: Frame)
    requires Valid(s) && Fits(s, fb)
    ensures Ordered(InitCursor(s, fb))
    ensures Last(InitCursor(s, fb).cursors).base.tentativeUntil == s.predictionEpoch
  {
    var r := InitCursor(s, fb);
    RowsOrderedWeaken(s.overlays, NewestDue(s.cursors), s.predictionEpoch, NewestDue(r.cursors), s.predictionEpoch);
  }

  lemma MoveToOrdered(s: State, col: nat, now: nat)
    requires Valid(s) && s.cursors != [] && col < s.width
    ensures Ordered(MoveTo(s, col, now)) && NewestDue(MoveTo(s, col, now).cursors) == s.sent + 1
  {
    RowsOrderedWeaken(s.overlays, NewestDue(s.cursors), s.predictionEpoch, s.sent + 1, s.predictionEpoch);
  }

  lemma RowCellsOrdered(s: State, rowNum: nat, epoch: nat, limit: nat)
    requires Shaped(s) && rowNum < s.height && RowsOrdered(s.overlays, limit, s.predictionEpoch)
    ensures RowOrdered(Row(rowNum, RowCells(s, rowNum, epoch)), limit, s.predictionEpoch)
  {
    var k := RowIndex(s.overlays, rowNum);
    if k < |s.overlays| {
      assert RowOrdered(s.overlays[k], limit, s.predictionEpoch);
    }
  }

  lemma PutRowOrdered(s: State, rowNum: nat, epoch: nat, cells: seq<CellOverlay>, limit: nat)
    requires Shaped(s) && rowNum < s.height && |cells| == s.width && ColumnsKept(cells)
    requires RowsOrdered(s.overlays, limit, s.predictionEpoch)
    requires RowOrdered(Row(rowNum, cells), limit, s.predictionEpoch)
    ensures RowsOrdered(PutRow(s, rowNum, epoch, cells).overlays, limit, s.predictionEpoch)
  {
  }

  lemma WithCellsOrdered(s: State, pos: nat, cells: seq<CellOverlay>, limit: nat)
    requires Shaped(s) && pos < |s.overlays| && |cells| == s.width && ColumnsKept(cells)
    requires RowsOrdered(s.overlays, limit, s.predictionEpoch)
    requires RowOrdered(s.overlays[pos].(cells := cells), limit, s.predictionEpoch)
    ensures RowsOrdered(WithCells(s, pos, cells).overlays, limit, s.predictionEpoch)
  {
  }

  // All overlays are allowed to wait for the message being typed.
  lemma RelaxLimit(s: State)
    requires Ordered(s)
    ensures RowsOrdered(s.overlays, s.sent + 1, s.predictionEpoch)
  {
    RowsOrderedWeaken(s.overlays, NewestDue(s.cursors), s.predictionEpoch, s.sent + 1, s.predictionEpoch);
  }

  lemma TypeCellsOrdered(s: State, row: nat, col: nat, rightmost: nat, ch: char, rowEpoch: nat, fb: Frame, now: nat)
    requires Valid(s) && Fits(s, fb) && row < s.height && col <= rightmost < s.width
    ensures RowsOrdered(TypeCells(s, row, col, rightmost, ch, rowEpoch, fb, now).overlays, s.sent + 1, s.predictionEpoch)
  {
    RelaxLimit(s);
    var cells := RowCells(s, row, rowEpoch);
    RowCellsOrdered(s, row, rowEpoch, s.sent + 1);
    var typed := InsertedRow(cells, ShownRow(fb, row), col, rightmost, ch, s.predictionEpoch, s.sent + 1, now);
    InsertedRowOrdered(cells, ShownRow(fb, row), col, rightmost, ch, s.predictionEpoch, s.sent + 1, now);
    PutRowOrdered(s, row, rowEpoch, typed, s.sent + 1);
  }

  lemma InsertedRowOrdered(cells: seq<CellOverlay>, shown: seq<Cell>, col: nat, rightmost: nat, ch: char,
                           epoch: nat, frame: nat, now: nat)
    requires |cells| == |shown| && col <= rightmost < |cells| && 1 <= frame
    requires forall i :: 0 <= i < |cells| ==> CellOrdered(cells[i], frame, epoch)
    ensures forall i :: 0 <= i < |cells| ==>
      CellOrdered(InsertedRow(cells, shown, col, rightmost, ch, epoch, frame, now)[i], frame, epoch)
  {
  }

  lemma DeletedRowOrdered(cells: seq<CellOverlay>, shown: seq<Cell>, col: nat, epoch: nat, frame: nat, now: nat)
    requires |cells| == |shown| && 1 <= frame
    requires forall i :: 0 <= i < |cells| ==> CellOrdered(cells[i], frame, epoch)
    ensures forall i :: 0 <= i < |cells| ==>
      CellOrdered(DeletedRow(cells, shown, col, epoch, frame, now)[i], frame, epoch)
  {
  }

  lemma DeleteCellsOrdered(s: State, row: nat, col: nat, fb: Frame, now: nat)
    requires Valid(s) && Fits(s, fb) && row < s.height && col < s.width
    ensures RowsOrdered(DeleteCells(s, row, col, fb, now).overlays, s.sent + 1, s.predictionEpoch)
  {
    hide PutRow, RowCells, DeletedRow;
    RelaxLimit(s);
    var cells, shown := RowCells(s, row, s.predictionEpoch), ShownRow(fb, row);
    RowCellsOrdered(s, row, s.predictionEpoch, s.sent + 1);
    if s.overwrite {
      var erased := ErasedCell(cells[col], shown[col], s.predictionEpoch, s.sent + 1, now);
      PutRowOrdered(s, row, s.predictionEpoch, cells[col := erased], s.sent + 1);
    } else {
      DeletedRowOrdered(cells, shown, col, s.predictionEpoch, s.sent + 1, now);
      PutRowOrdered(s, row, s.predictionEpoch,
                    DeletedRow(cells, shown, col, s.predictionEpoch, s.sent + 1, now), s.sent + 1);
    }
  }

  lemma BlankRowOrdered(s: State, row: nat, now: nat)
    requires Valid(s) && row < s.height && NewestDue(s.cursors) == s.sent + 1
    ensures Ordered(BlankRow(s, row, now))
  {
    RowCellsOrdered(s, row, s.predictionEpoch, s.sent + 1);
    PutRowOrdered(s, row, s.predictionEpoch,
                  BlankedRow(RowCells(s, row, s.predictionEpoch), s.predictionEpoch, s.sent + 1, now), s.sent + 1);
  }

  lemma JumpToOrdered(s: State, row: nat)
    requires Valid(s) && s.cursors != [] && row < s.height
    ensures Ordered(JumpTo(s, row)) && NewestDue(JumpTo(s, row).cursors) == NewestDue(s.cursors)
  {
  }

  lemma NewlineOrdered(s: State, fb: Frame, now: nat)
    requires Valid(s) && Fits(s, fb)
    requires s.cursors == [] || Last(s.cursors).base.tentativeUntil < s.predictionEpoch
    ensures Ordered(NewlineCarriageReturn(s, fb, now))
  {
    InitCursorOrdered(s, fb);
    var s1 := InitCursor(s, fb);
    assert NewestDue(s1.cursors) == s.sent + 1;
    var row := Last(s1.cursors).row;
    assert CursorShaped(Last(s1.cursors), s.height, s.width);
    if row < s.height - 1 {
      JumpToOrdered(s1, row + 1);
    } else {
      JumpToOrdered(s1, row);
      if RowHasLink(fb, row) {
        BecomeTentativeOrdered(JumpTo(s1, row));
      } else {
        BlankRowOrdered(JumpTo(s1, row), row, now);
      }
    }
  }

  // Rewriting a row and then moving the newest cursor, which is what typing does.
  lemma EditThenMoveOrdered(s: State, edited: State, col: nat, now: nat)
    requires Ordered(s) && s.cursors != []
    requires Shaped(edited) && edited == s.(overlays := edited.overlays) && col < edited.width
    requires RowsOrdered(edited.overlays, s.sent + 1, s.predictionEpoch)
    ensures Ordered(MoveTo(edited, col, now))
  {
  }

  lemma TypeThenMoveOrdered(s: State, rightmost: nat, ch: char, fb: Frame, now: nat)
    requires Valid(s) && Fits(s, fb) && s.cursors != []
    requires Last(s.cursors).row < s.height && Last(s.cursors).col < s.width - 1
    requires Last(s.cursors).col <= rightmost < s.width
    ensures var c := Last(s.cursors);
            Ordered(MoveTo(TypeCells(s, c.row, c.col, rightmost, ch, s.predictionEpoch, fb, now), c.col + 1, now))
  {
    var c := Last(s.cursors);
    TypeCellsOrdered(s, c.row, c.col, rightmost, ch, s.predictionEpoch, fb, now);
    EditThenMoveOrdered(s, TypeCells(s, c.row, c.col, rightmost, ch, s.predictionEpoch, fb, now), c.col + 1, now);
  }

  lemma PredictCharOrdered(s: State, ch: char, fb: Frame, now: nat)
    requires Valid(s) && Fits(s, fb) && s.cursors != []
    ensures Ordered(PredictChar(s, ch, fb, now))
  {
    hide UnsupportedRange, TypeCells, WrapChar, MoveTo, Ordered;
    var c := Last(s.cursors);
    assert CursorShaped(c, s.height, s.width);
    var rightmost := if s.overwrite then c.col else s.width - 1;
    var r := PredictChar(s, ch, fb, now);
    if UnsupportedRange(fb, c.row, c.col, rightmost) {
      assert r == BecomeTentative(s);
      BecomeTentativeOrdered(s);
    } else if c.col + 1 < s.width {
      assert r == MoveTo(TypeCells(s, c.row, c.col, rightmost, ch, s.predictionEpoch, fb, now), c.col + 1, now);
      TypeThenMoveOrdered(s, rightmost, ch, fb, now);
    } else {
      assert r == WrapChar(s, ch, fb, now);
      WrapOrdered(s, ch, fb, now);
    }
  }

  lemma WrapOrdered(s: State, ch: char, fb: Frame, now: nat)
    requires Valid(s) && Fits(s, fb) && s.cursors != [] && Last(s.cursors).col == s.width - 1
    ensures Ordered(WrapChar(s, ch, fb, now))
  {
    var c := Last(s.cursors);
    assert CursorShaped(c, s.height, s.width);
    var s0 := BecomeTentative(s);
    BecomeTentativeOrdered(s);
    TypeCellsOrdered(s0, c.row, c.col, c.col, ch, s.predictionEpoch, fb, now);
    var typed := TypeCells(s0, c.row, c.col, c.col, ch, s.predictionEpoch, fb, now);
    EditThenMoveOrdered(s0, typed, c.col, now);
    var s1 := MoveTo(typed, c.col, now);
    BecomeTentativeOrdered(s1);
    NewlineOrdered(BecomeTentative(s1), fb, now);
  }

  lemma BackspaceOrdered(s: State, fb: Frame, now: nat)
    requires Valid(s) && Fits(s, fb) && s.cursors != []
    ensures Ordered(BackspaceKey(s, fb, now))
  {
    var c := Last(s.cursors);
    assert CursorShaped(c, s.height, s.width);
    if c.col != 0 {
      var col := c.col - 1;
      if UnsupportedRange(fb, c.row, col, if s.overwrite then col else s.width - 1) {
        BecomeTentativeOrdered(s);
      } else {
        DeleteCellsOrdered(s, c.row, col, fb, now);
        EditThenMoveOrdered(s, DeleteCells(s, c.row, col, fb, now), col, now);
      }
    }
  }

  lemma DoActOrdered(s: State, act: Act, fb: Frame, now: nat)
    requires Valid(s) && Fits(s, fb)
    ensures Valid(DoAct(s, act, fb, now))
  {
    InitCursorOrdered(s, fb);
    var s1 := InitCursor(s, fb);
    assert CursorShaped(Last(s1.cursors), s1.height, s1.width);
    match act
    case Print(ch, narrow) =>
      if narrow { PredictCharOrdered(s1, ch, fb, now); } else { BecomeTentativeOrdered(s1); }
    case Backspace => BackspaceOrdered(s1, fb, now);
    case CarriageReturn =>
      BecomeTentativeOrdered(s);
      NewlineOrdered(BecomeTentative(s), fb, now);
    case Right =>
      if Last(s1.cursors).col < s.width - 1 { MoveToOrdered(s1, Last(s1.cursors).col + 1, now); }
    case Left =>
      if Last(s1.cursors).col > 0 { MoveToOrdered(s1, Last(s1.cursors).col - 1, now); }
    case Other => BecomeTentativeOrdered(s);
  }

  lemma DoActsOrdered(s: State, acts: seq<Act>, fb: Frame, now: nat)
    requires Valid(s) && Fits(s, fb)
    ensures Valid(DoActs(s, acts, fb, now))
    decreases |acts|
  {
    if acts != [] {
      DoActOrdered(s, acts[0], fb, now);
      DoActsOrdered(DoAct(s, acts[0], fb, now), acts[1..], fb, now);
    }
  }

  // ---------- order is kept by reconciliation ----------

  lemma {:induction false} KeepCursorsOrdered(cursors: seq<CursorOverlay>, keep: CursorOverlay -> bool, limit: nat, epoch: nat)
    requires CursorsOrdered(cursors, limit, epoch)
    ensures CursorsOrdered(KeepCursors(cursors, keep), limit, epoch)
  {
    if cursors != [] {
      KeepCursorsOrdered(cursors[..|cursors| - 1], keep, limit, epoch);
    }
  }

  lemma KillEpochOrdered(s: State, epoch: nat, fb: Frame)
    requires Valid(s) && Fits(s, fb)
    ensures Ordered(KillEpoch(s, epoch, fb))
  {
    var past := SaturatingSub(epoch, 1);
    var keep := (c: CursorOverlay) => !c.base.Tentative(past);
    KeepCursorsOrdered(s.cursors, keep, s.sent + 1, s.predictionEpoch);
    var r := KillEpoch(s, epoch, fb);
    assert NewestDue(r.cursors) == s.sent + 1;
    forall k | 0 <= k < |r.overlays| ensures RowOrdered(r.overlays[k], s.sent + 1, r.predictionEpoch) {
      assert RowOrdered(s.overlays[k], NewestDue(s.cursors), s.predictionEpoch);
      forall i | 0 <= i < |r.overlays[k].cells|
        ensures CellOrdered(r.overlays[k].cells[i], s.sent + 1, r.predictionEpoch)
      {
        assert CellOrdered(s.overlays[k].cells[i], NewestDue(s.cursors), s.predictionEpoch);
      }
    }
  }

  lemma CreditOrdered(s: State, r: nat, i: nat, now: nat, cells: seq<CellOverlay>)
    requires Valid(s) && r < |s.overlays| && i < s.width && s.overlays[r].cells[i].base.active
    requires |cells| == s.width && ColumnsKept(cells)
    requires RowOrdered(s.overlays[r].(cells := cells), NewestDue(s.cursors), s.predictionEpoch)
    ensures Valid(WithCells(Credit(s, s.overlays[r].cells[i].base, now), r, cells))
  {
    assert RowOrdered(s.overlays[r], NewestDue(s.cursors), s.predictionEpoch);
    assert CellOrdered(s.overlays[r].cells[i], NewestDue(s.cursors), s.predictionEpoch);
    WithCellsOrdered(Credit(s, s.overlays[r].cells[i].base, now), r, cells, NewestDue(s.cursors));
  }

  lemma CullCellOrdered(s: State, r: nat, i: nat, fb: Frame, now: nat)
    requires Valid(s) && Fits(s, fb) && r < |s.overlays| && i < s.width
    ensures Valid(CullCell(s, r, i, fb, now).state)
  {
    var row := s.overlays[r];
    var cell := row.cells[i];
    assert RowShaped(row, s.height, s.width);
    assert RowOrdered(row, NewestDue(s.cursors), s.predictionEpoch);
    match cell.Judge(fb, row.rowNum, s.lateAcked)
    case IncorrectOrExpired =>
      if cell.base.Tentative(s.confirmedEpoch) { KillEpochOrdered(s, cell.base.tentativeUntil, fb); }
    case Correct =>
      var restyled := Restyled(row.cells, i, CellAt(fb, row.rowNum, cell.base.col));
      CreditOrdered(s, r, i, now, restyled[i := restyled[i].Reset()]);
    case CorrectNoCredit =>
      WithCellsOrdered(s, r, row.cells[i := cell.Reset()], NewestDue(s.cursors));
    case Pending =>
    case Inactive =>
  }

  // ---------- nothing due is left ----------

  predicate CellQuiet(c: CellOverlay, lateAcked: nat) { c.base.active ==> lateAcked < c.base.expiration }

  predicate CursorsQuiet(cursors: seq<CursorOverlay>, lateAcked: nat) {
    forall k :: 0 <= k < |cursors| ==> lateAcked < cursors[k].base.expiration
  }

  predicate RowQuiet(row: Row, upTo: nat, lateAcked: nat) {
    forall i :: 0 <= i < |row.cells| && i < upTo ==> CellQuiet(row.cells[i], lateAcked)
  }

  // The cells before position (r, i), in reading order, wait for a later frame.
  predicate QuietUpTo(s: State, r: nat, i: nat) {
    && (forall k :: 0 <= k < |s.overlays| && k < r ==> RowQuiet(s.overlays[k], s.width, s.lateAcked))
    && (r < |s.overlays| ==> RowQuiet(s.overlays[r], i, s.lateAcked))
  }

  // Every overlay waits for a frame the server has not acknowledged.
  predicate Settled(s: State) {
    && CursorsQuiet(s.cursors, s.lateAcked)
    && forall k :: 0 <= k < |s.overlays| ==> RowQuiet(s.overlays[k], s.width, s.lateAcked)
  }

  lemma CullCellQuiet(s: State, r: nat, i: nat, fb: Frame, now: nat)
    requires Shaped(s) && Fits(s, fb) && r < |s.overlays| && i < s.width && QuietUpTo(s, r, i)
    requires CullCell(s, r, i, fb, now).Continue?
    ensures QuietUpTo(CullCell(s, r, i, fb, now).state, r, i + 1)
    ensures CullCell(s, r, i, fb, now).state.lateAcked == s.lateAcked
  {
    var row := s.overlays[r];
    var cell := row.cells[i];
    var t := CullCell(s, r, i, fb, now).state;
    if cell.Judge(fb, row.rowNum, s.lateAcked).IncorrectOrExpired? {
      assert KilledCell(cell, SaturatingSub(cell.base.tentativeUntil, 1)) == cell.Reset();
    }
    forall k | 0 <= k < |t.overlays| && k < r ensures RowQuiet(t.overlays[k], s.width, s.lateAcked) {
      assert RowQuiet(s.overlays[k], s.width, s.lateAcked);
    }
    assert RowQuiet(t.overlays[r], i + 1, s.lateAcked);
  }

  // Walking over all cells keeps the invariant and leaves only cells that wait.
  lemma CullFromValid(s: State, r: nat, i: nat, fb: Frame, now: nat)
    requires Valid(s) && Fits(s, fb) && r <= |s.overlays| && i <= s.width && QuietUpTo(s, r, i)
    ensures Valid(CullFrom(s, r, i, fb, now).state)
    ensures CullFrom(s, r, i, fb, now).Continue? ==>
      var t := CullFrom(s, r, i, fb, now).state;
      t.lateAcked == s.lateAcked && QuietUpTo(t, |t.overlays|, 0)
    decreases |s.overlays| - r, s.width - i
  {
    if r == |s.overlays| {
    } else if i == s.width {
      CullFromValid(s, r + 1, 0, fb, now);
    } else {
      CullCellOrdered(s, r, i, fb, now);
      var p := CullCell(s, r, i, fb, now);
      if p.Continue? {
        CullCellQuiet(s, r, i, fb, now);
        CullFromValid(p.state, r, i + 1, fb, now);
      }
    }
  }

  // Cells that wait for a frame after `lateAcked`, but for none after `limit`, are not there.
  lemma DueCellsGone(s: State, limit: nat, limit': nat)
    requires Shaped(s) && QuietUpTo(s, |s.overlays|, 0)
    requires RowsOrdered(s.overlays, limit, s.predictionEpoch) && limit <= s.lateAcked
    ensures RowsOrdered(s.overlays, limit', s.predictionEpoch)
  {
    forall k, i | 0 <= k < |s.overlays| && 0 <= i < |s.overlays[k].cells|
      ensures CellOrdered(s.overlays[k].cells[i], limit', s.predictionEpoch)
    {
      assert RowQuiet(s.overlays[k], s.width, s.lateAcked);
      assert RowOrdered(s.overlays[k], limit, s.predictionEpoch);
      assert RowShaped(s.overlays[k], s.height, s.width);
      assert CellQuiet(s.overlays[k].cells[i], s.lateAcked);
      assert CellOrdered(s.overlays[k].cells[i], limit, s.predictionEpoch);
    }
  }

  lemma CullCursorsValid(s: State, fb: Frame)
    requires Valid(s) && Fits(s, fb) && QuietUpTo(s, |s.overlays|, 0)
    ensures Valid(CullCursors(s, fb)) && Settled(CullCursors(s, fb))
  {
    if s.cursors == [] || !Last(s.cursors).Judge(fb, s.lateAcked).IncorrectOrExpired? {
      KeptCursorsValid(s, fb);
    }
  }

  lemma KeptCursorsValid(s: State, fb: Frame)
    requires Valid(s) && QuietUpTo(s, |s.overlays|, 0)
    requires s.cursors == [] || !Last(s.cursors).Judge(fb, s.lateAcked).IncorrectOrExpired?
    ensures var kept := KeepCursors(s.cursors, (c: CursorOverlay) => c.Judge(fb, s.lateAcked).Pending?);
            && CursorsOrdered(kept, s.sent + 1, s.predictionEpoch) && CursorsQuiet(kept, s.lateAcked)
            && RowsOrdered(s.overlays, NewestDue(kept), s.predictionEpoch)
  {
    var keep := (c: CursorOverlay) => c.Judge(fb, s.lateAcked).Pending?;
    var kept := KeepCursors(s.cursors, keep);
    KeepCursorsOrdered(s.cursors, keep, s.sent + 1, s.predictionEpoch);
    if s.cursors != [] && !keep(Last(s.cursors)) {
      // The newest cursor was due, so every cell was, and none of those is left.
      assert CursorShaped(Last(s.cursors), s.height, s.width);
      DueCellsGone(s, NewestDue(s.cursors), NewestDue(kept));
    }
  }

  // Reconciliation keeps the invariant, and what it leaves is on the screen and waits
  // for a frame that has not been acknowledged.
  lemma CullValid(s: State, fb: Frame, now: nat)
    requires Valid(s)
    ensures Valid(Cull(s, fb, now))
    ensures !s.preference.Never? ==> Settled(Cull(s, fb, now)) && Fits(Cull(s, fb, now), fb)
  {
    if !s.preference.Never? {
      var s1 := Triggered(Resized(s, fb));
      assert Valid(s1);
      CullFromValid(s1, 0, 0, fb, now);
      var p := CullFrom(s1, 0, 0, fb, now);
      if p.Abandon? {
        AbandonIsReset(s1, 0, 0, fb, now);
      } else {
        CullCursorsValid(p.state, fb);
      }
    }
  }

  lemma AbandonIsReset(s: State, r: nat, i: nat, fb: Frame, now: nat)
    requires Shaped(s) && Fits(s, fb) && r <= |s.overlays| && i <= s.width
    requires CullFrom(s, r, i, fb, now).Abandon?
    ensures CullFrom(s, r, i, fb, now).state.overlays == [] && CullFrom(s, r, i, fb, now).state.cursors == []
    decreases |s.overlays| - r, s.width - i
  {
    if r < |s.overlays| {
      if i == s.width {
        AbandonIsReset(s, r + 1, 0, fb, now);
      } else if CullCell(s, r, i, fb, now).Continue? {
        AbandonIsReset(CullCell(s, r, i, fb, now).state, r, i + 1, fb, now);
      }
    }
  }

  lemma NewUserByteValid(s: State, acts: seq<Act>, display: Frame, now: nat)
    requires Valid(s)
    ensures Valid(NewUserByte(s, acts, display, now))
  {
    if !s.preference.Never? {
      CullValid(s, display, now);
      DoActsOrdered(Cull(s, display, now), acts, display, now);
    }
  }

  // ---------- speculation is never evidence ----------

  // Nothing but the display triggers differs.
  predicate SameOverlays(a: State, b: State) {
    && a.overlays == b.overlays && a.cursors == b.cursors
    && a.predictionEpoch == b.predictionEpoch && a.confirmedEpoch == b.confirmedEpoch
    && SameGeometry(a, b)
  }

  lemma CullFromIdle(s: State, r: nat, i: nat, fb: Frame, now: nat)
    requires Shaped(s) && Fits(s, fb) && Settled(s) && r <= |s.overlays| && i <= s.width
    ensures CullFrom(s, r, i, fb, now).Continue? && SameOverlays(CullFrom(s, r, i, fb, now).state, s)
    decreases |s.overlays| - r, s.width - i
  {
    if r < |s.overlays| {
      if i == s.width {
        CullFromIdle(s, r + 1, 0, fb, now);
      } else {
        assert RowShaped(s.overlays[r], s.height, s.width);
        assert RowQuiet(s.overlays[r], s.width, s.lateAcked);
        assert CellQuiet(s.overlays[r].cells[i], s.lateAcked);
        CullFromIdle(CullCell(s, r, i, fb, now).state, r, i + 1, fb, now);
      }
    }
  }

  lemma {:induction false} KeepAll(cursors: seq<CursorOverlay>, keep: CursorOverlay -> bool)
    requires forall k :: 0 <= k < |cursors| ==> keep(cursors[k])
    ensures KeepCursors(cursors, keep) == cursors
  {
    if cursors != [] {
      KeepAll(cursors[..|cursors| - 1], keep);
    }
  }

  // Once every overlay waits for an unacknowledged frame, reconciling against any frame
  // of the same size - the speculative display included - confirms and refutes nothing.
  lemma SpeculationIsNoEvidence(s: State, display: Frame, now: nat)
    requires Shaped(s) && Settled(s) && Fits(s, display)
    ensures SameOverlays(Cull(s, display, now), s)
  {
    if !s.preference.Never? {
      var s1 := Triggered(Resized(s, display));
      assert SameOverlays(s1, s) && Settled(s1);
      CullFromIdle(s1, 0, 0, display, now);
      var s2 := CullFrom(s1, 0, 0, display, now).state;
      if s2.cursors != [] {
        assert CursorShaped(Last(s2.cursors), s2.height, s2.width);
      }
      KeepAll(s2.cursors, (c: CursorOverlay) => c.Judge(display, s2.lateAcked).Pending?);
    }
  }
}
