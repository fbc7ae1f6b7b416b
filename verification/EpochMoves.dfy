/**
 Where epochs begin and end: Enter and the wrap at the last column start new ones that stay
 invisible until a screen confirms them, a refuted epoch disappears with everything after it,
 and the glitch repair is paced.
 */
module EpochMoves {
  import opened Frames
  import opened Overlays
  import opened Prediction
  import opened PredictionInvariants
  import opened LineSplice

  // Where the next character would go: the newest cursor, or the frame's.
  function CursorRow(s: State, fb: Frame): nat { if s.cursors == [] then fb.cursorRow else Last(s.cursors).row }

  predicate SameRow(s: State, t: State, row: nat)
    requires Shaped(s) && Shaped(t) && s.height == t.height && row < s.height
  {
    RowCells(t, row, 0) == RowCells(s, row, 0)
  }

  // The newest cursor is hidden until something predicted after `epoch` is confirmed.
  predicate CursorAfter(s: State, epoch: nat) { s.cursors != [] && Last(s.cursors).base.tentativeUntil > epoch }

  // The bottom row once it has scrolled away.
  predicate Scrolled(s: State, t: State, row: nat)
    requires Shaped(t) && row < t.height
  {
    forall i :: 0 <= i < t.width ==>
      var c := RowCells(t, row, 0)[i];
      c.base.active && c.base.tentativeUntil == s.predictionEpoch && CellText(c.replacement) == " "
  }

  lemma BlankedBottom(s: State, row: nat, now: nat)
    requires Shaped(s) && row < s.height
    ensures Scrolled(s, BlankRow(s, row, now), row)
  {
    hide PutRow, RowCells, Shaped;
    var blank := BlankedRow(RowCells(s, row, s.predictionEpoch), s.predictionEpoch, s.sent + 1, now);
    PutThenRead(s, row, s.predictionEpoch, blank, row, 0);
    assert RowCells(BlankRow(s, row, now), row, 0) == blank;
  }

  lemma BlankedOther(s: State, row: nat, other: nat, now: nat)
    requires Shaped(s) && row < s.height && other < s.height && other != row
    ensures SameRow(s, BlankRow(s, row, now), other)
  {
    var blank := BlankedRow(RowCells(s, row, s.predictionEpoch), s.predictionEpoch, s.sent + 1, now);
    PutThenRead(s, row, s.predictionEpoch, blank, other, 0);
    assert BlankRow(s, row, now) == PutRow(s, row, s.predictionEpoch, blank);
    hide PutRow, RowCells, BlankRow, Shaped;
  }

  lemma NewlineCursor(s: State, fb: Frame, now: nat)
    requires Shaped(s) && Fits(s, fb)
    ensures var t, row := NewlineCarriageReturn(s, fb, now), CursorRow(s, fb);
            && t.cursors != [] && Last(t.cursors).col == 0
            && Last(t.cursors).row == (if row + 1 < s.height then row + 1 else row)
            && Last(t.cursors).base.tentativeUntil == s.predictionEpoch
            && t.predictionEpoch >= s.predictionEpoch && t.confirmedEpoch == s.confirmedEpoch
            && (row + 1 < s.height || RowHasLink(fb, row) ==> t.overlays == s.overlays)
  {
    hide RowCells, PutRow;
    var s1 := InitCursor(s, fb);
    assert Last(s1.cursors).row == CursorRow(s, fb) && Last(s1.cursors).base.tentativeUntil == s.predictionEpoch;
    assert CursorShaped(Last(s1.cursors), s.height, s.width);
  }

  lemma NewlineBlanks(s: State, fb: Frame, now: nat, other: nat)
    requires Shaped(s) && Fits(s, fb) && other < s.height
    requires CursorRow(s, fb) + 1 == s.height && !RowHasLink(fb, CursorRow(s, fb))
    ensures var t, row := NewlineCarriageReturn(s, fb, now), CursorRow(s, fb);
            if other == row then Scrolled(s, t, row) else SameRow(s, t, other)
  {
    var s1, row := InitCursor(s, fb), CursorRow(s, fb);
    assert CursorShaped(Last(s1.cursors), s.height, s.width);
    var s2 := JumpTo(s1, row);
    assert NewlineCarriageReturn(s, fb, now) == BlankRow(s2, row, now);
    hide NewlineCarriageReturn, InitCursor, JumpTo, BlankRow, RowHasLink;
    if other == row { BlankedBottom(s2, row, now); } else { BlankedOther(s2, row, other, now); }
  }

  // A new line moves the cursor to its start and touches no row, except that the bottom row
  // is predicted to scroll away blank, unless it holds a link.
  lemma NewlineRows(s: State, fb: Frame, now: nat, other: nat)
    requires Shaped(s) && Fits(s, fb) && other < s.height
    ensures var t, row := NewlineCarriageReturn(s, fb, now), CursorRow(s, fb);
            if other == row && row + 1 == s.height && !RowHasLink(fb, row) then Scrolled(s, t, row) else SameRow(s, t, other)
  {
    NewlineCursor(s, fb, now);
    if CursorRow(s, fb) + 1 == s.height && !RowHasLink(fb, CursorRow(s, fb)) { NewlineBlanks(s, fb, now, other); }
    hide NewlineCarriageReturn, RowCells, RowHasLink;
  }

  // Enter: the cursor goes to the start of the next line, or the bottom line scrolls away
  // blank, in an epoch later than that of every overlay so far. So nothing that follows is
  // shown until a screen confirms something of the new epoch.
  lemma EnterStartsAnEpoch(s: State, fb: Frame, now: nat)
    requires Valid(s) && Fits(s, fb)
    ensures var t, row := DoAct(s, CarriageReturn, fb, now), CursorRow(s, fb);
            && CursorAfter(t, s.predictionEpoch) && s.confirmedEpoch <= s.predictionEpoch < t.predictionEpoch
            && Last(t.cursors).base.Tentative(t.confirmedEpoch)
            && Last(t.cursors).col == 0 && Last(t.cursors).row == (if row + 1 < s.height then row + 1 else row)
            && (forall other :: 0 <= other < s.height && (other != row || row + 1 < s.height) ==> SameRow(s, t, other))
  {
    var s0, t := BecomeTentative(s), DoAct(s, CarriageReturn, fb, now);
    NewlineCursor(s0, fb, now);
    forall other | 0 <= other < s.height && (other != CursorRow(s, fb) || CursorRow(s, fb) + 1 < s.height)
      ensures SameRow(s, t, other)
    {
      NewlineRows(s0, fb, now, other);
      assert RowCells(s0, other, 0) == RowCells(s, other, 0);
    }
  }

  // A character would land in the last column of a line that is not the bottom one.
  predicate CanWrap(s: State, fb: Frame) {
    && Valid(s) && Fits(s, fb) && s.cursors != [] && !s.overwrite
    && Last(s.cursors).row + 1 < s.height && Last(s.cursors).col + 1 == s.width
    && !UnsupportedRange(fb, Last(s.cursors).row, s.width - 1, s.width - 1)
  }

  // The state between the typed cell and the jump to the next line.
  function Midway(s: State, ch: char, fb: Frame, now: nat): (r: State)
    requires CanWrap(s, fb)
    ensures Shaped(r) && Fits(r, fb) && r.cursors != [] && Last(r.cursors).row == Last(s.cursors).row
    ensures r.predictionEpoch == s.predictionEpoch + 2 && r.confirmedEpoch == s.confirmedEpoch
    ensures PredictChar(s, ch, fb, now) == NewlineCarriageReturn(r, fb, now)
  {
    var c := Last(s.cursors);
    assert CursorShaped(c, s.height, s.width);
    var s1 := TypeCells(BecomeTentative(s), c.row, c.col, c.col, ch, s.predictionEpoch, fb, now);
    BecomeTentative(MoveTo(s1, c.col, now))
  }

  // The wrap: the cursor goes to the start of the next line, two epochs on, hidden until a
  // screen confirms something as late.
  lemma WrapMovesCursor(s: State, ch: char, fb: Frame, now: nat)
    requires CanWrap(s, fb)
    ensures var t := PredictChar(s, ch, fb, now);
            && CursorAfter(t, s.predictionEpoch + 1) && Last(t.cursors).base.Tentative(t.confirmedEpoch)
            && Last(t.cursors).row == Last(s.cursors).row + 1 && Last(t.cursors).col == 0
            && t.confirmedEpoch == s.confirmedEpoch
  {
    NewlineCursor(Midway(s, ch, fb, now), fb, now);
    hide PredictChar, NewlineCarriageReturn, Midway, Valid, UnsupportedRange;
    assert s.confirmedEpoch <= s.predictionEpoch by { WellOrdered(s); }
  }

  lemma WellOrdered(s: State)
    requires Valid(s)
    ensures s.confirmedEpoch <= s.predictionEpoch
  {
  }

  // The last column is known to show the character, one epoch on, and the rest of the line
  // is as it was.
  lemma WrapTypesCell(s: State, ch: char, fb: Frame, now: nat)
    requires CanWrap(s, fb)
    ensures var row, w, t := Last(s.cursors).row, s.width, PredictChar(s, ch, fb, now);
            var was, cells := RowCells(s, row, s.predictionEpoch), RowCells(t, row, 0);
            && cells[..w - 1] == was[..w - 1]
            && GuessOf(cells[w - 1], CellAt(fb, row, w - 1)) == Known(CharCell(PenCell(was, ShownRow(fb, row), w - 1), ch))
            && cells[w - 1].base.tentativeUntil == s.predictionEpoch + 1
  {
    var row, w := Last(s.cursors).row, s.width;
    TypedLast(s, ch, fb, now);
    var mid := Midway(s, ch, fb, now);
    assert RowCells(mid, row, 0)
        == RowCells(TypeCells(BecomeTentative(s), row, w - 1, w - 1, ch, s.predictionEpoch, fb, now), row, 0);
    NewlineRows(mid, fb, now, row);
    hide PredictChar, NewlineCarriageReturn, Midway, TypeCells, InsertedRow, RowCells, UnsupportedRange, Valid;
  }

  // The row of the last column after a character is typed there.
  lemma TypedLast(s: State, ch: char, fb: Frame, now: nat)
    requires Shaped(s) && Fits(s, fb) && s.cursors != [] && Last(s.cursors).row < s.height
    ensures var row, w := Last(s.cursors).row, s.width;
            var was := RowCells(s, row, s.predictionEpoch);
            w >= 1 ==>
              var t := TypeCells(BecomeTentative(s), row, w - 1, w - 1, ch, s.predictionEpoch, fb, now);
              var cells := RowCells(t, row, 0);
              && cells[..w - 1] == was[..w - 1]
              && GuessOf(cells[w - 1], CellAt(fb, row, w - 1)) == Known(CharCell(PenCell(was, ShownRow(fb, row), w - 1), ch))
              && cells[w - 1].base.tentativeUntil == s.predictionEpoch + 1
  {
    if s.width >= 1 {
      var row, w := Last(s.cursors).row, s.width;
      var s0, was := BecomeTentative(s), RowCells(s, row, s.predictionEpoch);
      assert RowCells(s0, row, s.predictionEpoch) == was;
      var typed := InsertedRow(was, ShownRow(fb, row), w - 1, w - 1, ch, s0.predictionEpoch, s.sent + 1, now);
      PutThenRead(s0, row, s.predictionEpoch, typed, row, 0);
    }
  }

  // ---------- a refuted epoch ----------

  // A refuted epoch goes with all later ones; earlier overlays stay untouched; and a cursor
  // starts again where the screen has it, in an epoch that is still to be confirmed.
  lemma KilledEpochIsGone(s: State, epoch: nat, fb: Frame)
    requires Valid(s) && Fits(s, fb) && 1 <= epoch
    ensures var t := KillEpoch(s, epoch, fb);
            && |t.overlays| == |s.overlays|
            && (forall r, i :: 0 <= r < |s.overlays| && 0 <= i < s.width ==>
                  var c := s.overlays[r].cells[i];
                  t.overlays[r].rowNum == s.overlays[r].rowNum
                  && (if c.base.tentativeUntil < epoch then t.overlays[r].cells[i] == c
                      else !t.overlays[r].cells[i].base.active && t.overlays[r].cells[i].originals == []))
            && (forall k :: 0 <= k < |t.cursors| - 1 ==> t.cursors[k] in s.cursors && t.cursors[k].base.tentativeUntil < epoch)
            && Last(t.cursors) == NewCursor(s, fb.cursorRow, fb.cursorCol)
            && t.predictionEpoch == s.predictionEpoch + 1 && t.confirmedEpoch == s.confirmedEpoch
  {
    var t := KillEpoch(s, epoch, fb);
    forall r, i | 0 <= r < |s.overlays| && 0 <= i < s.width
      ensures t.overlays[r].cells[i] == KilledCell(s.overlays[r].cells[i], epoch - 1)
    {
      assert t.overlays[r] == KilledRow(s.overlays[r], epoch - 1);
      assert RowShaped(s.overlays[r], s.height, s.width);
    }
  }

  // ---------- the glitch repair ----------

  // At most one token is repaired, and no sooner than the interval after the last repair;
  // there are never more than twice the repair count.
  predicate Paced(s: State, t: State, now: nat) {
    && t.glitchTrigger <= 2 * GLITCH_REPAIR_COUNT
    && (|| (t.glitchTrigger >= s.glitchTrigger && t.lastQuickConfirmation == s.lastQuickConfirmation)
        || (t.glitchTrigger + 1 >= s.glitchTrigger && t.lastQuickConfirmation == now
            && now >= s.lastQuickConfirmation + GLITCH_REPAIR_MININTERVAL))
  }

  lemma PacedThen(s: State, t: State, u: State, now: nat)
    requires Paced(s, t, now) && Paced(t, u, now)
    ensures Paced(s, u, now)
  {
  }

  lemma CellPaced(s: State, r: nat, i: nat, fb: Frame, now: nat)
    requires Shaped(s) && Fits(s, fb) && r < |s.overlays| && i < s.width && s.glitchTrigger <= 2 * GLITCH_REPAIR_COUNT
    ensures Paced(s, CullCell(s, r, i, fb, now).state, now)
  {
  }

  lemma {:induction false} WalkPaced(s: State, r: nat, i: nat, fb: Frame, now: nat)
    requires Shaped(s) && Fits(s, fb) && r <= |s.overlays| && i <= s.width && s.glitchTrigger <= 2 * GLITCH_REPAIR_COUNT
    ensures Paced(s, CullFrom(s, r, i, fb, now).state, now)
    decreases |s.overlays| - r, s.width - i
  {
    hide CullCell, RowsShaped, CursorsShaped;
    if r < |s.overlays| {
      if i == s.width {
        WalkPaced(s, r + 1, 0, fb, now);
      } else {
        CellPaced(s, r, i, fb, now);
        var p := CullCell(s, r, i, fb, now);
        if p.Continue? {
          WalkPaced(p.state, r, i + 1, fb, now);
          PacedThen(s, p.state, CullFrom(p.state, r, i + 1, fb, now).state, now);
        }
      }
    }
  }

  // However many predictions one screen confirms, the glitch repair keeps its pace.
  lemma RepairIsPaced(s: State, fb: Frame, now: nat)
    requires Shaped(s) && s.glitchTrigger <= 2 * GLITCH_REPAIR_COUNT
    ensures Paced(s, Cull(s, fb, now), now)
  {
    if !s.preference.Never? {
      WalkPaced(Triggered(Resized(s, fb)), 0, 0, fb, now);
    }
  }
}
