/**
 Typing creates only overlays that wait for the message being typed. So between two screens
 every overlay waits for an unacknowledged message, and reconciling with the speculative
 display, as each keystroke does first, resolves nothing.
 */
module SettledTyping {
  import opened Frames
  import opened Overlays
  import opened Prediction
  import opened PredictionInvariants

  predicate CellsQuiet(cells: seq<CellOverlay>, lateAcked: nat) {
    forall i :: 0 <= i < |cells| ==> CellQuiet(cells[i], lateAcked)
  }

  lemma RowCellsSettled(s: State, rowNum: nat, epoch: nat)
    requires Shaped(s) && rowNum < s.height && Settled(s)
    ensures CellsQuiet(RowCells(s, rowNum, epoch), s.lateAcked)
  {
    var k := RowIndex(s.overlays, rowNum);
    if k < |s.overlays| {
      assert RowQuiet(s.overlays[k], s.width, s.lateAcked);
      assert RowShaped(s.overlays[k], s.height, s.width);
    }
  }

  lemma PutRowSettled(s: State, rowNum: nat, epoch: nat, cells: seq<CellOverlay>)
    requires Shaped(s) && rowNum < s.height && |cells| == s.width && ColumnsKept(cells)
    requires Settled(s) && CellsQuiet(cells, s.lateAcked)
    ensures Settled(PutRow(s, rowNum, epoch, cells))
  {
  }

  lemma MoveToSettled(s: State, col: nat, now: nat)
    requires Shaped(s) && s.cursors != [] && col < s.width && Settled(s) && s.lateAcked <= s.sent
    ensures Settled(MoveTo(s, col, now))
  {
  }

  lemma TypeCellsSettled(s: State, row: nat, col: nat, rightmost: nat, ch: char, rowEpoch: nat, fb: Frame, now: nat)
    requires Shaped(s) && Fits(s, fb) && row < s.height && col <= rightmost < s.width
    requires Settled(s) && s.lateAcked <= s.sent
    ensures Settled(TypeCells(s, row, col, rightmost, ch, rowEpoch, fb, now))
  {
    RowCellsSettled(s, row, rowEpoch);
    var cells, shown := RowCells(s, row, rowEpoch), ShownRow(fb, row);
    var typed := InsertedRow(cells, shown, col, rightmost, ch, s.predictionEpoch, s.sent + 1, now);
    forall i | 0 <= i < |typed| ensures CellQuiet(typed[i], s.lateAcked) {
      assert CellQuiet(cells[i], s.lateAcked);
    }
    PutRowSettled(s, row, rowEpoch, typed);
  }

  lemma DeleteCellsSettled(s: State, row: nat, col: nat, fb: Frame, now: nat)
    requires Shaped(s) && Fits(s, fb) && row < s.height && col < s.width
    requires Settled(s) && s.lateAcked <= s.sent
    ensures Settled(DeleteCells(s, row, col, fb, now))
  {
    RowCellsSettled(s, row, s.predictionEpoch);
    var cells, shown := RowCells(s, row, s.predictionEpoch), ShownRow(fb, row);
    var deleted :=
      if s.overwrite then cells[col := ErasedCell(cells[col], shown[col], s.predictionEpoch, s.sent + 1, now)]
      else DeletedRow(cells, shown, col, s.predictionEpoch, s.sent + 1, now);
    forall i | 0 <= i < |deleted| ensures CellQuiet(deleted[i], s.lateAcked) {
      assert CellQuiet(cells[i], s.lateAcked);
    }
    PutRowSettled(s, row, s.predictionEpoch, deleted);
  }

  lemma BlankRowSettled(s: State, row: nat, now: nat)
    requires Shaped(s) && row < s.height && Settled(s) && s.lateAcked <= s.sent
    ensures Settled(BlankRow(s, row, now))
  {
    PutRowSettled(s, row, s.predictionEpoch,
                  BlankedRow(RowCells(s, row, s.predictionEpoch), s.predictionEpoch, s.sent + 1, now));
  }

  lemma InitCursorSettled(s: State, fb: Frame)
    requires Shaped(s) && Fits(s, fb) && Settled(s) && s.lateAcked <= s.sent
    ensures Settled(InitCursor(s, fb))
  {
  }

  lemma NewlineSettled(s: State, fb: Frame, now: nat)
    requires Shaped(s) && Fits(s, fb) && Settled(s) && s.lateAcked <= s.sent
    ensures Settled(NewlineCarriageReturn(s, fb, now))
  {
    var s1 := InitCursor(s, fb);
    InitCursorSettled(s, fb);
    var row := Last(s1.cursors).row;
    assert CursorShaped(Last(s1.cursors), s.height, s.width);
    if row == s.height - 1 && !RowHasLink(fb, row) {
      BlankRowSettled(JumpTo(s1, row), row, now);
    }
  }

  lemma WrapSettled(s: State, ch: char, fb: Frame, now: nat)
    requires Shaped(s) && Fits(s, fb) && s.cursors != [] && Last(s.cursors).col == s.width - 1
    requires Settled(s) && s.lateAcked <= s.sent
    ensures Settled(WrapChar(s, ch, fb, now))
  {
    var c := Last(s.cursors);
    assert CursorShaped(c, s.height, s.width);
    hide TypeCells, MoveTo, NewlineCarriageReturn, Settled;
    var s0 := BecomeTentative(s);
    TentativeSettled(s);
    TypeCellsSettled(s0, c.row, c.col, c.col, ch, s.predictionEpoch, fb, now);
    var s1 := TypeCells(s0, c.row, c.col, c.col, ch, s.predictionEpoch, fb, now);
    MoveToSettled(s1, c.col, now);
    TentativeSettled(MoveTo(s1, c.col, now));
    NewlineSettled(BecomeTentative(MoveTo(s1, c.col, now)), fb, now);
  }

  lemma PredictCharSettled(s: State, ch: char, fb: Frame, now: nat)
    requires Shaped(s) && Fits(s, fb) && s.cursors != [] && Settled(s) && s.lateAcked <= s.sent
    ensures Settled(PredictChar(s, ch, fb, now))
  {
    hide UnsupportedRange, TypeCells, MoveTo, WrapChar, Settled;
    var c := Last(s.cursors);
    assert CursorShaped(c, s.height, s.width);
    var rightmost := if s.overwrite then c.col else s.width - 1;
    if !UnsupportedRange(fb, c.row, c.col, rightmost) {
      if c.col + 1 < s.width {
        TypeCellsSettled(s, c.row, c.col, rightmost, ch, s.predictionEpoch, fb, now);
        MoveToSettled(TypeCells(s, c.row, c.col, rightmost, ch, s.predictionEpoch, fb, now), c.col + 1, now);
      } else {
        WrapSettled(s, ch, fb, now);
      }
    } else {
      TentativeSettled(s);
    }
  }

  lemma TentativeSettled(s: State)
    requires Settled(s)
    ensures Settled(BecomeTentative(s))
  {
  }

  lemma DoActSettled(s: State, act: Act, fb: Frame, now: nat)
    requires Shaped(s) && Fits(s, fb) && Settled(s) && s.lateAcked <= s.sent
    ensures Settled(DoAct(s, act, fb, now))
  {
    hide UnsupportedRange, DeleteCells, MoveTo, NewlineCarriageReturn, PredictChar, Settled, InitCursor;
    InitCursorSettled(s, fb);
    TentativeSettled(s);
    var s1 := InitCursor(s, fb);
    var c := Last(s1.cursors);
    assert CursorShaped(c, s1.height, s1.width);
    TentativeSettled(s1);
    match act
    case Print(ch, narrow) => if narrow { PredictCharSettled(s1, ch, fb, now); }
    case Backspace =>
      if c.col != 0 && !UnsupportedRange(fb, c.row, c.col - 1, if s.overwrite then c.col - 1 else s.width - 1) {
        DeleteCellsSettled(s1, c.row, c.col - 1, fb, now);
        MoveToSettled(DeleteCells(s1, c.row, c.col - 1, fb, now), c.col - 1, now);
      }
    case CarriageReturn => NewlineSettled(BecomeTentative(s), fb, now);
    case Right => if c.col < s.width - 1 { MoveToSettled(s1, c.col + 1, now); }
    case Left => if c.col > 0 { MoveToSettled(s1, c.col - 1, now); }
    case Other =>
  }

  lemma {:induction false} DoActsSettled(s: State, acts: seq<Act>, fb: Frame, now: nat)
    requires Shaped(s) && Fits(s, fb) && Settled(s) && s.lateAcked <= s.sent
    ensures Settled(DoActs(s, acts, fb, now))
    decreases |acts|
  {
    if acts != [] {
      DoActSettled(s, acts[0], fb, now);
      DoActsSettled(DoAct(s, acts[0], fb, now), acts[1..], fb, now);
    }
  }

  // One keystroke over a display of the right size: the reconciliation it starts with
  // resolves nothing, and afterwards every overlay still waits.
  lemma KeystrokeSettled(s: State, acts: seq<Act>, display: Frame, now: nat)
    requires Shaped(s) && Fits(s, display) && Settled(s) && s.lateAcked <= s.sent
    ensures SameOverlays(Cull(s, display, now), s)
    ensures var r := NewUserByte(s, acts, display, now);
            Settled(r) && Fits(r, display)
  {
    SpeculationIsNoEvidence(s, display, now);
    if !s.preference.Never? {
      DoActsSettled(Cull(s, display, now), acts, display, now);
    }
  }
}
