/**
 Epochs and deadlines go together: of two live overlays the one of the earlier epoch is due
 no later. So when a screen confirms an epoch, nothing older is left waiting, and the only
 overlays that are not tentative are those of the confirmed epoch itself.
 */
module EpochOrder {
  import opened Frames
  import opened Overlays
  import opened Prediction
  import opened PredictionInvariants

  // ---------- live overlays ----------

  predicate Tagged(b: Base, epoch: nat, due: nat) { b.tentativeUntil == epoch && b.expiration == due }

  predicate CellLive(c: CellOverlay, epoch: nat, due: nat) { c.base.active && Tagged(c.base, epoch, due) }

  predicate CellsLive(cells: seq<CellOverlay>, epoch: nat, due: nat) {
    exists i :: 0 <= i < |cells| && CellLive(cells[i], epoch, due)
  }

  predicate CursorsLive(cursors: seq<CursorOverlay>, epoch: nat, due: nat) {
    exists k :: 0 <= k < |cursors| && Tagged(cursors[k].base, epoch, due)
  }

  // Some cursor or active cell was predicted in `epoch` and waits for message `due`.
  predicate Live(s: State, epoch: nat, due: nat) {
    || CursorsLive(s.cursors, epoch, due)
    || exists r :: 0 <= r < |s.overlays| && CellsLive(s.overlays[r].cells, epoch, due)
  }

  ghost predicate Ascending(s: State) {
    forall e: nat, d: nat, f: nat, g: nat :: Live(s, e, d) && Live(s, f, g) && e < f ==> d <= g
  }

  ghost predicate NoneOlder(s: State) {
    forall e: nat, d: nat :: Live(s, e, d) ==> s.confirmedEpoch <= e
  }

  ghost predicate AllFrom(s: State, floor: nat) {
    forall e: nat, d: nat :: Live(s, e, d) ==> floor <= e
  }

  // ---------- what can become live ----------

  // What was live in `s`, or is due with the message being typed, from epoch `floor` on.
  predicate Known(s: State, floor: nat, epoch: nat, due: nat) {
    Live(s, epoch, due) || (due == s.sent + 1 && floor <= epoch)
  }

  ghost predicate Grows(s: State, t: State, floor: nat) {
    && t.sent == s.sent && s.predictionEpoch <= t.predictionEpoch
    && forall e: nat, d: nat :: Live(t, e, d) ==> Known(s, floor, e, d)
  }

  lemma GrowsThen(s: State, t: State, u: State, floor: nat, later: nat)
    requires Grows(s, t, floor) && Grows(t, u, later) && floor <= later
    ensures Grows(s, u, floor)
  {
    forall e: nat, d: nat | Live(u, e, d) ensures Known(s, floor, e, d) {
      assert Known(t, later, e, d);
    }
  }

  lemma LiveBounds(s: State, epoch: nat, due: nat)
    requires Ordered(s) && Live(s, epoch, due)
    ensures due <= s.sent + 1 && epoch <= s.predictionEpoch
  {
    if !CursorsLive(s.cursors, epoch, due) {
      var r :| 0 <= r < |s.overlays| && CellsLive(s.overlays[r].cells, epoch, due);
      var i :| 0 <= i < |s.overlays[r].cells| && CellLive(s.overlays[r].cells[i], epoch, due);
      assert RowOrdered(s.overlays[r], NewestDue(s.cursors), s.predictionEpoch);
      assert CellOrdered(s.overlays[r].cells[i], NewestDue(s.cursors), s.predictionEpoch);
    }
  }

  lemma AscendingKept(s: State, t: State)
    requires Ordered(s) && Ascending(s) && Grows(s, t, s.predictionEpoch)
    ensures Ascending(t)
  {
    forall e: nat, d: nat, f: nat, g: nat | Live(t, e, d) && Live(t, f, g) && e < f ensures d <= g {
      assert Known(s, s.predictionEpoch, e, d) && Known(s, s.predictionEpoch, f, g);
      if Live(s, e, d) { LiveBounds(s, e, d); }
      if Live(s, f, g) { LiveBounds(s, f, g); }
    }
  }

  lemma AllFromKept(s: State, t: State, floor: nat)
    requires AllFrom(s, floor) && floor <= s.predictionEpoch && Grows(s, t, s.predictionEpoch)
    ensures AllFrom(t, floor) && floor <= t.predictionEpoch
  {
    forall e: nat, d: nat | Live(t, e, d) ensures floor <= e {
      assert Known(s, s.predictionEpoch, e, d);
    }
  }

  // ---------- typing ----------

  lemma SameOverlaysGrow(s: State, t: State, floor: nat)
    requires t.overlays == s.overlays && t.cursors == s.cursors && t.sent == s.sent && s.predictionEpoch <= t.predictionEpoch
    ensures Grows(s, t, floor)
  {
    assert forall e: nat, d: nat :: Live(t, e, d) <==> Live(s, e, d);
  }

  // The newest cursor was made in `floor` or later.
  predicate NewestFrom(s: State, floor: nat) { s.cursors != [] && Last(s.cursors).base.tentativeUntil >= floor }

  // The cursors change in the last one only, which is new or as it was.
  lemma CursorsGrow(s: State, t: State, floor: nat)
    requires t.overlays == s.overlays && t.sent == s.sent && s.predictionEpoch <= t.predictionEpoch
    requires forall k :: 0 <= k < |t.cursors| ==>
      Known(s, floor, t.cursors[k].base.tentativeUntil, t.cursors[k].base.expiration)
    ensures Grows(s, t, floor)
  {
  }

  lemma CursorLive(s: State, k: nat)
    requires k < |s.cursors|
    ensures Live(s, s.cursors[k].base.tentativeUntil, s.cursors[k].base.expiration)
  {
    assert Tagged(s.cursors[k].base, s.cursors[k].base.tentativeUntil, s.cursors[k].base.expiration);
  }

  lemma CellIsLive(s: State, r: nat, i: nat)
    requires r < |s.overlays| && i < |s.overlays[r].cells| && s.overlays[r].cells[i].base.active
    ensures var b := s.overlays[r].cells[i].base; Live(s, b.tentativeUntil, b.expiration)
  {
    var c := s.overlays[r].cells[i];
    assert CellLive(c, c.base.tentativeUntil, c.base.expiration);
    assert CellsLive(s.overlays[r].cells, c.base.tentativeUntil, c.base.expiration);
  }

  lemma InitCursorGrows(s: State, fb: Frame, floor: nat)
    requires Shaped(s) && Fits(s, fb) && floor <= s.predictionEpoch
    ensures Grows(s, InitCursor(s, fb), floor) && NewestFrom(InitCursor(s, fb), floor)
  {
    var t := InitCursor(s, fb);
    forall k | 0 <= k < |t.cursors|
      ensures Known(s, floor, t.cursors[k].base.tentativeUntil, t.cursors[k].base.expiration)
    {
      if k < |s.cursors| { CursorLive(s, k); }
    }
    CursorsGrow(s, t, floor);
  }

  lemma MoveToGrows(s: State, col: nat, now: nat, floor: nat)
    requires Shaped(s) && col < s.width && NewestFrom(s, floor)
    ensures Grows(s, MoveTo(s, col, now), floor) && NewestFrom(MoveTo(s, col, now), floor)
  {
    var t := MoveTo(s, col, now);
    forall k | 0 <= k < |t.cursors|
      ensures Known(s, floor, t.cursors[k].base.tentativeUntil, t.cursors[k].base.expiration)
    {
      if k < |s.cursors| - 1 { CursorLive(s, k); }
    }
    CursorsGrow(s, t, floor);
  }

  lemma JumpToGrows(s: State, row: nat, floor: nat)
    requires Shaped(s) && s.cursors != [] && row < s.height
    ensures Grows(s, JumpTo(s, row), floor) && Last(JumpTo(s, row).cursors).base == Last(s.cursors).base
  {
    var t := JumpTo(s, row);
    forall k | 0 <= k < |t.cursors|
      ensures Known(s, floor, t.cursors[k].base.tentativeUntil, t.cursors[k].base.expiration)
    {
      CursorLive(s, k);
    }
    CursorsGrow(s, t, floor);
  }

  predicate CellsKnown(s: State, floor: nat, cells: seq<CellOverlay>) {
    forall i :: 0 <= i < |cells| && cells[i].base.active ==>
      Known(s, floor, cells[i].base.tentativeUntil, cells[i].base.expiration)
  }

  lemma PutRowGrows(s: State, rowNum: nat, epoch: nat, cells: seq<CellOverlay>, floor: nat)
    requires Shaped(s) && rowNum < s.height && |cells| == s.width && ColumnsKept(cells) && CellsKnown(s, floor, cells)
    ensures Grows(s, PutRow(s, rowNum, epoch, cells), floor)
  {
    var t := PutRow(s, rowNum, epoch, cells);
    var n := RowIndex(s.overlays, rowNum);
    forall e: nat, d: nat | Live(t, e, d) ensures Known(s, floor, e, d) {
      if !CursorsLive(s.cursors, e, d) {
        var r :| 0 <= r < |t.overlays| && CellsLive(t.overlays[r].cells, e, d);
        if r == n {
          var i :| 0 <= i < |cells| && CellLive(cells[i], e, d);
        } else {
          assert t.overlays[r] == s.overlays[r];
        }
      }
    }
  }

  lemma RowCellsKnown(s: State, rowNum: nat, epoch: nat, floor: nat)
    requires Shaped(s) && rowNum < s.height
    ensures CellsKnown(s, floor, RowCells(s, rowNum, epoch))
  {
    var k := RowIndex(s.overlays, rowNum);
    var cells := RowCells(s, rowNum, epoch);
    forall i | 0 <= i < |cells| && cells[i].base.active
      ensures Known(s, floor, cells[i].base.tentativeUntil, cells[i].base.expiration)
    {
      if k < |s.overlays| { CellIsLive(s, k, i); }
    }
  }

  lemma TypeCellsGrows(s: State, row: nat, col: nat, rightmost: nat, ch: char, rowEpoch: nat, fb: Frame, now: nat, floor: nat)
    requires Shaped(s) && Fits(s, fb) && row < s.height && col <= rightmost < s.width && floor <= s.predictionEpoch
    ensures Grows(s, TypeCells(s, row, col, rightmost, ch, rowEpoch, fb, now), floor)
  {
    hide PutRow, Grows, InsertedRow, RowCells, Live, RowsShaped, CursorsShaped;
    RowCellsKnown(s, row, rowEpoch, floor);
    var cells, shown := RowCells(s, row, rowEpoch), ShownRow(fb, row);
    var typed := InsertedRow(cells, shown, col, rightmost, ch, s.predictionEpoch, s.sent + 1, now);
    PutRowGrows(s, row, rowEpoch, typed, floor);
  }

  lemma DeleteCellsGrows(s: State, row: nat, col: nat, fb: Frame, now: nat, floor: nat)
    requires Shaped(s) && Fits(s, fb) && row < s.height && col < s.width && floor <= s.predictionEpoch
    ensures Grows(s, DeleteCells(s, row, col, fb, now), floor)
  {
    hide PutRow, Grows, DeletedRow, ErasedCell, RowCells, Live, RowsShaped, CursorsShaped;
    RowCellsKnown(s, row, s.predictionEpoch, floor);
    var cells, shown := RowCells(s, row, s.predictionEpoch), ShownRow(fb, row);
    var deleted :=
      if s.overwrite then cells[col := ErasedCell(cells[col], shown[col], s.predictionEpoch, s.sent + 1, now)]
      else DeletedRow(cells, shown, col, s.predictionEpoch, s.sent + 1, now);
    PutRowGrows(s, row, s.predictionEpoch, deleted, floor);
  }

  lemma BlankRowGrows(s: State, row: nat, now: nat, floor: nat)
    requires Shaped(s) && row < s.height && floor <= s.predictionEpoch
    ensures Grows(s, BlankRow(s, row, now), floor)
  {
    PutRowGrows(s, row, s.predictionEpoch,
                BlankedRow(RowCells(s, row, s.predictionEpoch), s.predictionEpoch, s.sent + 1, now), floor);
  }

  lemma NewlineGrows(s: State, fb: Frame, now: nat, floor: nat)
    requires Shaped(s) && Fits(s, fb) && floor <= s.predictionEpoch
    ensures Grows(s, NewlineCarriageReturn(s, fb, now), floor)
  {
    var s1 := InitCursor(s, fb);
    var row := Last(s1.cursors).row;
    InitCursorGrows(s, fb, floor);
    assert CursorShaped(Last(s1.cursors), s.height, s.width);
    var s2 := JumpTo(s1, if row < s.height - 1 then row + 1 else row);
    JumpToGrows(s1, if row < s.height - 1 then row + 1 else row, floor);
    hide InitCursor, JumpTo, BlankRow, Grows, RowHasLink;
    GrowsThen(s, s1, s2, floor, floor);
    if row == s.height - 1 {
      AfterJump(s2, row, fb, now, floor);
      var t := if RowHasLink(fb, row) then BecomeTentative(s2) else BlankRow(s2, row, now);
      GrowsThen(s, s2, t, floor, floor);
    }
  }

  lemma AfterJump(s: State, row: nat, fb: Frame, now: nat, floor: nat)
    requires Shaped(s) && row < s.height && floor <= s.predictionEpoch
    ensures Grows(s, if RowHasLink(fb, row) then BecomeTentative(s) else BlankRow(s, row, now), floor)
  {
    if RowHasLink(fb, row) { SameOverlaysGrow(s, BecomeTentative(s), floor); } else { BlankRowGrows(s, row, now, floor); }
  }

  // Rewriting a row and then moving the newest cursor.
  lemma EditGrows(s: State, edited: State, col: nat, now: nat, floor: nat)
    requires Grows(s, edited, floor) && edited.cursors == s.cursors && NewestFrom(s, floor)
    requires Shaped(edited) && col < edited.width
    ensures Grows(s, MoveTo(edited, col, now), floor)
  {
    MoveToGrows(edited, col, now, floor);
    GrowsThen(s, edited, MoveTo(edited, col, now), floor, floor);
  }

  lemma WrapGrows(s: State, ch: char, fb: Frame, now: nat, floor: nat)
    requires Shaped(s) && Fits(s, fb) && NewestFrom(s, floor) && floor <= s.predictionEpoch
    requires Last(s.cursors).col == s.width - 1
    ensures Grows(s, WrapChar(s, ch, fb, now), floor)
  {
    var c := Last(s.cursors);
    assert CursorShaped(c, s.height, s.width);
    var s0 := BecomeTentative(s);
    var s1 := TypeCells(s0, c.row, c.col, c.col, ch, s.predictionEpoch, fb, now);
    var s2 := MoveTo(s1, c.col, now);
    SameOverlaysGrow(s, s0, floor);
    TypeCellsGrows(s0, c.row, c.col, c.col, ch, s.predictionEpoch, fb, now, floor);
    EditGrows(s0, s1, c.col, now, floor);
    SameOverlaysGrow(s2, BecomeTentative(s2), floor);
    hide TypeCells, MoveTo, NewlineCarriageReturn, Grows;
    NewlineGrows(BecomeTentative(s2), fb, now, floor);
    GrowsThen(s, s0, s2, floor, floor);
    GrowsThen(s, s2, BecomeTentative(s2), floor, floor);
    GrowsThen(s, BecomeTentative(s2), WrapChar(s, ch, fb, now), floor, floor);
  }

  lemma TypeThenMoveGrows(s: State, rightmost: nat, ch: char, fb: Frame, now: nat, floor: nat)
    requires Shaped(s) && Fits(s, fb) && NewestFrom(s, floor) && floor <= s.predictionEpoch
    requires Last(s.cursors).row < s.height && Last(s.cursors).col < s.width - 1
    requires Last(s.cursors).col <= rightmost < s.width
    ensures var c := Last(s.cursors);
            Grows(s, MoveTo(TypeCells(s, c.row, c.col, rightmost, ch, s.predictionEpoch, fb, now), c.col + 1, now), floor)
  {
    var c := Last(s.cursors);
    hide TypeCells, MoveTo, Grows;
    TypeCellsGrows(s, c.row, c.col, rightmost, ch, s.predictionEpoch, fb, now, floor);
    EditGrows(s, TypeCells(s, c.row, c.col, rightmost, ch, s.predictionEpoch, fb, now), c.col + 1, now, floor);
  }

  lemma PredictCharGrows(s: State, ch: char, fb: Frame, now: nat, floor: nat)
    requires Shaped(s) && Fits(s, fb) && NewestFrom(s, floor) && floor <= s.predictionEpoch
    ensures Grows(s, PredictChar(s, ch, fb, now), floor)
  {
    hide UnsupportedRange, TypeCells, MoveTo, WrapChar, Grows;
    var c := Last(s.cursors);
    assert CursorShaped(c, s.height, s.width);
    var rightmost := if s.overwrite then c.col else s.width - 1;
    if UnsupportedRange(fb, c.row, c.col, rightmost) {
      SameOverlaysGrow(s, BecomeTentative(s), floor);
    } else if c.col + 1 < s.width {
      TypeThenMoveGrows(s, rightmost, ch, fb, now, floor);
    } else {
      WrapGrows(s, ch, fb, now, floor);
    }
  }

  lemma BackspaceGrows(s: State, fb: Frame, now: nat, floor: nat)
    requires Shaped(s) && Fits(s, fb) && NewestFrom(s, floor) && floor <= s.predictionEpoch
    ensures Grows(s, BackspaceKey(s, fb, now), floor)
  {
    hide UnsupportedRange, DeleteCells, MoveTo, Grows;
    var c := Last(s.cursors);
    assert CursorShaped(c, s.height, s.width);
    SameOverlaysGrow(s, s, floor);
    SameOverlaysGrow(s, BecomeTentative(s), floor);
    if c.col != 0 && !UnsupportedRange(fb, c.row, c.col - 1, if s.overwrite then c.col - 1 else s.width - 1) {
      DeleteCellsGrows(s, c.row, c.col - 1, fb, now, floor);
      EditGrows(s, DeleteCells(s, c.row, c.col - 1, fb, now), c.col - 1, now, floor);
    }
  }

  lemma ArrowGrows(s: State, now: nat, floor: nat)
    requires Shaped(s) && NewestFrom(s, floor)
    ensures Grows(s, CursorRight(s, now), floor) && Grows(s, CursorLeft(s, now), floor)
  {
    var c := Last(s.cursors);
    assert CursorShaped(c, s.height, s.width);
    SameOverlaysGrow(s, s, floor);
    if c.col < s.width - 1 { MoveToGrows(s, c.col + 1, now, floor); }
    if c.col > 0 { MoveToGrows(s, c.col - 1, now, floor); }
    hide MoveTo, Grows;
  }

  // Whatever an act predicts is due with the message being typed and of the present epoch or
  // a later one.
  lemma DoActGrows(s: State, act: Act, fb: Frame, now: nat)
    requires Shaped(s) && Fits(s, fb)
    ensures Grows(s, DoAct(s, act, fb, now), s.predictionEpoch)
  {
    var floor, s1 := s.predictionEpoch, InitCursor(s, fb);
    InitCursorGrows(s, fb, floor);
    SameOverlaysGrow(s, BecomeTentative(s), floor);
    SameOverlaysGrow(s1, BecomeTentative(s1), floor);
    hide InitCursor, PredictChar, BackspaceKey, NewlineCarriageReturn, CursorLeft, CursorRight;
    assert s1.predictionEpoch >= floor;
    hide Grows;
    match act
    case Print(ch, narrow) => if narrow { PredictCharGrows(s1, ch, fb, now, floor); }
      GrowsThen(s, s1, DoAct(s, act, fb, now), floor, floor);
    case Backspace =>
      BackspaceGrows(s1, fb, now, floor);
      GrowsThen(s, s1, DoAct(s, act, fb, now), floor, floor);
    case CarriageReturn =>
      NewlineGrows(BecomeTentative(s), fb, now, floor);
      GrowsThen(s, BecomeTentative(s), DoAct(s, act, fb, now), floor, floor);
    case Right => ArrowGrows(s1, now, floor); GrowsThen(s, s1, DoAct(s, act, fb, now), floor, floor);
    case Left => ArrowGrows(s1, now, floor); GrowsThen(s, s1, DoAct(s, act, fb, now), floor, floor);
    case Other =>
  }

  lemma {:induction false} DoActsGrow(s: State, acts: seq<Act>, fb: Frame, now: nat)
    requires Shaped(s) && Fits(s, fb)
    ensures Grows(s, DoActs(s, acts, fb, now), s.predictionEpoch)
    decreases |acts|
  {
    if acts == [] {
      SameOverlaysGrow(s, s, s.predictionEpoch);
    } else {
      var t := DoAct(s, acts[0], fb, now);
      DoActGrows(s, acts[0], fb, now);
      assert s.predictionEpoch <= t.predictionEpoch;
      DoActsGrow(t, acts[1..], fb, now);
      hide Grows;
      GrowsThen(s, t, DoActs(t, acts[1..], fb, now), s.predictionEpoch, t.predictionEpoch);
    }
  }

  // ---------- reconciliation ----------

  lemma CellsGrow(s: State, t: State, floor: nat)
    requires t.sent == s.sent && s.predictionEpoch <= t.predictionEpoch
    requires forall k :: 0 <= k < |t.cursors| ==>
      Known(s, floor, t.cursors[k].base.tentativeUntil, t.cursors[k].base.expiration)
    requires |t.overlays| == |s.overlays|
    requires forall r :: 0 <= r < |s.overlays| ==> CellsKnown(s, floor, t.overlays[r].cells)
    ensures Grows(s, t, floor)
  {
    forall e: nat, d: nat | Live(t, e, d) ensures Known(s, floor, e, d) {
      if !CursorsLive(t.cursors, e, d) {
        var r :| 0 <= r < |t.overlays| && CellsLive(t.overlays[r].cells, e, d);
        var i :| 0 <= i < |t.overlays[r].cells| && CellLive(t.overlays[r].cells[i], e, d);
      }
    }
  }

  lemma KillEpochGrows(s: State, epoch: nat, fb: Frame)
    requires Shaped(s) && Fits(s, fb)
    ensures Grows(s, KillEpoch(s, epoch, fb), s.predictionEpoch)
  {
    var floor, t := s.predictionEpoch, KillEpoch(s, epoch, fb);
    forall k | 0 <= k < |t.cursors|
      ensures Known(s, floor, t.cursors[k].base.tentativeUntil, t.cursors[k].base.expiration)
    {
      if k < |t.cursors| - 1 {
        var j :| 0 <= j < |s.cursors| && s.cursors[j] == t.cursors[k];
        CursorLive(s, j);
      }
    }
    forall r | 0 <= r < |s.overlays| ensures CellsKnown(s, floor, t.overlays[r].cells) {
      forall i | 0 <= i < |t.overlays[r].cells| && t.overlays[r].cells[i].base.active
        ensures var b := t.overlays[r].cells[i].base; Known(s, floor, b.tentativeUntil, b.expiration)
      {
        CellIsLive(s, r, i);
      }
    }
    CellsGrow(s, t, floor);
  }

  // A row of which some cells were cleared and some restyled.
  lemma ClearedGrows(s: State, t: State, r: nat, cells: seq<CellOverlay>)
    requires r < |s.overlays| && t.overlays == s.overlays[r := s.overlays[r].(cells := cells)]
    requires t.cursors == s.cursors && t.sent == s.sent && t.predictionEpoch == s.predictionEpoch
    requires |cells| == |s.overlays[r].cells|
    requires forall i :: 0 <= i < |cells| && cells[i].base.active ==> cells[i].base == s.overlays[r].cells[i].base
    ensures Grows(s, t, s.predictionEpoch)
  {
    forall k | 0 <= k < |t.cursors|
      ensures Known(s, s.predictionEpoch, t.cursors[k].base.tentativeUntil, t.cursors[k].base.expiration)
    {
      CursorLive(s, k);
    }
    forall q | 0 <= q < |s.overlays| ensures CellsKnown(s, s.predictionEpoch, t.overlays[q].cells) {
      forall i | 0 <= i < |t.overlays[q].cells| && t.overlays[q].cells[i].base.active
        ensures var b := t.overlays[q].cells[i].base; Known(s, s.predictionEpoch, b.tentativeUntil, b.expiration)
      {
        CellIsLive(s, q, i);
      }
    }
    CellsGrow(s, t, s.predictionEpoch);
  }

  lemma CullCellGrows(s: State, r: nat, i: nat, fb: Frame, now: nat)
    requires Shaped(s) && Fits(s, fb) && r < |s.overlays| && i < s.width
    ensures Grows(s, CullCell(s, r, i, fb, now).state, s.predictionEpoch)
  {
    var row := s.overlays[r];
    var cell := row.cells[i];
    var t := CullCell(s, r, i, fb, now).state;
    assert RowShaped(row, s.height, s.width);
    match cell.Judge(fb, row.rowNum, s.lateAcked)
    case IncorrectOrExpired =>
      if cell.base.Tentative(s.confirmedEpoch) { KillEpochGrows(s, cell.base.tentativeUntil, fb); }
    case Correct =>
      var restyled := Restyled(row.cells, i, CellAt(fb, row.rowNum, cell.base.col));
      ClearedGrows(s, t, r, restyled[i := restyled[i].Reset()]);
    case CorrectNoCredit => ClearedGrows(s, t, r, row.cells[i := cell.Reset()]);
    case Pending => SameOverlaysGrow(s, t, s.predictionEpoch);
    case Inactive => SameOverlaysGrow(s, t, s.predictionEpoch);
  }

  // Every live overlay that still waits is at least as new as the confirmed epoch.
  ghost predicate WaitingNoneOlder(s: State) {
    forall e: nat, d: nat :: Live(s, e, d) && s.lateAcked < d ==> s.confirmedEpoch <= e
  }

  // Confirming a due cell leaves nothing older waiting: what is older was due no later.
  lemma CullCellNoneOlder(s: State, r: nat, i: nat, fb: Frame, now: nat)
    requires Valid(s) && Fits(s, fb) && r < |s.overlays| && i < s.width && Ascending(s) && WaitingNoneOlder(s)
    ensures WaitingNoneOlder(CullCell(s, r, i, fb, now).state)
  {
    hide Live;
    var t := CullCell(s, r, i, fb, now).state;
    var cell := s.overlays[r].cells[i];
    var b := cell.base;
    CullCellGrows(s, r, i, fb, now);
    assert RowShaped(s.overlays[r], s.height, s.width);
    assert t.confirmedEpoch != s.confirmedEpoch ==>
      b.active && b.expiration <= s.lateAcked && t.confirmedEpoch == b.tentativeUntil;
    if b.active { CellIsLive(s, r, i); LiveBounds(s, b.tentativeUntil, b.expiration); }
    assert t.lateAcked == s.lateAcked && t.confirmedEpoch <= s.predictionEpoch;
    forall e: nat, d: nat | Live(t, e, d) && t.lateAcked < d ensures t.confirmedEpoch <= e {
      assert Known(s, s.predictionEpoch, e, d);
    }
  }

  lemma {:induction false} CullFromKeeps(s: State, r: nat, i: nat, fb: Frame, now: nat)
    requires Valid(s) && Fits(s, fb) && r <= |s.overlays| && i <= s.width && Ascending(s) && WaitingNoneOlder(s)
    ensures var t := CullFrom(s, r, i, fb, now).state;
            Grows(s, t, s.predictionEpoch) && WaitingNoneOlder(t)
    decreases |s.overlays| - r, s.width - i
  {
    hide CullCell, Grows, Ascending, WaitingNoneOlder;
    if r == |s.overlays| {
      SameOverlaysGrow(s, s, s.predictionEpoch);
    } else if i == s.width {
      CullFromKeeps(s, r + 1, 0, fb, now);
    } else {
      var p := CullCell(s, r, i, fb, now);
      CullCellGrows(s, r, i, fb, now);
      CullCellNoneOlder(s, r, i, fb, now);
      CullCellOrdered(s, r, i, fb, now);
      AscendingKept(s, p.state);
      assert s.predictionEpoch <= p.state.predictionEpoch;
      if p.Continue? {
        CullFromKeeps(p.state, r, i + 1, fb, now);
        GrowsThen(s, p.state, CullFrom(p.state, r, i + 1, fb, now).state, s.predictionEpoch, p.state.predictionEpoch);
      }
    }
  }

  lemma CullCursorsGrows(s: State, fb: Frame)
    requires Shaped(s) && Fits(s, fb)
    ensures Grows(s, CullCursors(s, fb), s.predictionEpoch) && CullCursors(s, fb).confirmedEpoch == s.confirmedEpoch
  {
    var t := CullCursors(s, fb);
    if t.overlays == s.overlays {
      forall k | 0 <= k < |t.cursors|
        ensures Known(s, s.predictionEpoch, t.cursors[k].base.tentativeUntil, t.cursors[k].base.expiration)
      {
        var j :| 0 <= j < |s.cursors| && s.cursors[j] == t.cursors[k];
        CursorLive(s, j);
      }
      CursorsGrow(s, t, s.predictionEpoch);
    }
  }

  lemma NoOverlaysNothingLive(s: State)
    requires s.overlays == [] && s.cursors == []
    ensures Ascending(s) && NoneOlder(s)
    ensures forall t: State, floor: nat :: s.sent == t.sent && t.predictionEpoch <= s.predictionEpoch ==> Grows(t, s, floor)
  {
  }

  lemma SettledWaits(s: State, epoch: nat, due: nat)
    requires Shaped(s) && Settled(s) && Live(s, epoch, due)
    ensures s.lateAcked < due
  {
    if !CursorsLive(s.cursors, epoch, due) {
      var r :| 0 <= r < |s.overlays| && CellsLive(s.overlays[r].cells, epoch, due);
      var i :| 0 <= i < |s.overlays[r].cells| && CellLive(s.overlays[r].cells[i], epoch, due);
      assert RowShaped(s.overlays[r], s.height, s.width);
      assert RowQuiet(s.overlays[r], s.width, s.lateAcked);
      assert CellQuiet(s.overlays[r].cells[i], s.lateAcked);
    }
  }

  lemma PrepareGrows(s: State, fb: Frame)
    requires Valid(s) && Ascending(s) && NoneOlder(s)
    ensures var t := Triggered(Resized(s, fb));
            Valid(t) && Ascending(t) && WaitingNoneOlder(t) && Grows(s, t, s.predictionEpoch)
  {
    var t := Triggered(Resized(s, fb));
    if Resized(s, fb) == s {
      SameOverlaysGrow(s, t, s.predictionEpoch);
      assert forall e: nat, d: nat :: Live(t, e, d) <==> Live(s, e, d);
    } else {
      NoOverlaysNothingLive(t);
    }
  }

  // What a walk over the cells left is at least as new as the confirmed epoch once the
  // cursors are settled too, for then all of it waits.
  lemma CursorsSettleNoneOlder(s: State, fb: Frame)
    requires Valid(s) && Fits(s, fb) && WaitingNoneOlder(s)
    requires Shaped(CullCursors(s, fb)) && Settled(CullCursors(s, fb))
    ensures NoneOlder(CullCursors(s, fb)) && Grows(s, CullCursors(s, fb), s.predictionEpoch)
  {
    var t := CullCursors(s, fb);
    CullCursorsGrows(s, fb);
    hide CullCursors, Settled, Live;
    forall e: nat, d: nat | Live(t, e, d) ensures t.confirmedEpoch <= e {
      SettledWaits(t, e, d);
      assert Known(s, s.predictionEpoch, e, d);
    }
  }

  lemma WalkKeeps(s: State, fb: Frame, now: nat)
    requires Valid(s) && Fits(s, fb) && Ascending(s) && WaitingNoneOlder(s) && QuietUpTo(s, 0, 0)
    ensures var p := CullFrom(s, 0, 0, fb, now);
            var t := if p.Abandon? then p.state else CullCursors(p.state, fb);
            NoneOlder(t) && Grows(s, t, s.predictionEpoch)
  {
    var p := CullFrom(s, 0, 0, fb, now);
    CullFromKeeps(s, 0, 0, fb, now);
    if p.Abandon? {
      AbandonIsReset(s, 0, 0, fb, now);
      NoOverlaysNothingLive(p.state);
    } else {
      CullFromValid(s, 0, 0, fb, now);
      CullCursorsValid(p.state, fb);
      CursorsSettleNoneOlder(p.state, fb);
      GrowsThen(s, p.state, CullCursors(p.state, fb), s.predictionEpoch, p.state.predictionEpoch);
    }
  }

  // After a reconciliation no overlay is older than the confirmed epoch.
  lemma CullKeeps(s: State, fb: Frame, now: nat)
    requires Valid(s) && Ascending(s) && NoneOlder(s)
    ensures var t := Cull(s, fb, now);
            Valid(t) && Ascending(t) && NoneOlder(t) && Grows(s, t, s.predictionEpoch)
  {
    var t := Cull(s, fb, now);
    CullValid(s, fb, now);
    if s.preference.Never? {
      SameOverlaysGrow(s, t, s.predictionEpoch);
    } else {
      var s1 := Triggered(Resized(s, fb));
      PrepareGrows(s, fb);
      WalkKeeps(s1, fb, now);
      hide CullFrom, CullCursors, Resized, Triggered, Ascending, NoneOlder, Valid;
      GrowsThen(s, s1, t, s.predictionEpoch, s1.predictionEpoch);
      assert Ascending(t) by { AscendingKept(s, t); }
    }
  }

  // ---------- typing confirms nothing ----------

  lemma TypingConfirmsNothing(s: State, acts: seq<Act>, fb: Frame, now: nat)
    requires Shaped(s) && Fits(s, fb)
    ensures DoActs(s, acts, fb, now).confirmedEpoch == s.confirmedEpoch
    decreases |acts|
  {
    if acts != [] {
      ActConfirmsNothing(s, acts[0], fb, now);
      TypingConfirmsNothing(DoAct(s, acts[0], fb, now), acts[1..], fb, now);
    }
  }

  lemma NewlineConfirmsNothing(s: State, fb: Frame, now: nat)
    requires Shaped(s) && Fits(s, fb)
    ensures NewlineCarriageReturn(s, fb, now).confirmedEpoch == s.confirmedEpoch
  {
  }

  lemma WrapConfirmsNothing(s: State, ch: char, fb: Frame, now: nat)
    requires Shaped(s) && Fits(s, fb) && s.cursors != [] && Last(s.cursors).col == s.width - 1
    ensures WrapChar(s, ch, fb, now).confirmedEpoch == s.confirmedEpoch
  {
    hide NewlineCarriageReturn;
    var c := Last(s.cursors);
    assert CursorShaped(c, s.height, s.width);
    var s1 := TypeCells(BecomeTentative(s), c.row, c.col, c.col, ch, s.predictionEpoch, fb, now);
    NewlineConfirmsNothing(BecomeTentative(MoveTo(s1, c.col, now)), fb, now);
  }

  lemma ActConfirmsNothing(s: State, act: Act, fb: Frame, now: nat)
    requires Shaped(s) && Fits(s, fb)
    ensures DoAct(s, act, fb, now).confirmedEpoch == s.confirmedEpoch
  {
    hide NewlineCarriageReturn, WrapChar, UnsupportedRange, PutRow;
    var s1 := InitCursor(s, fb);
    assert CursorShaped(Last(s1.cursors), s.height, s.width);
    match act
    case Print(ch, narrow) =>
      if Last(s1.cursors).col == s1.width - 1 { WrapConfirmsNothing(s1, ch, fb, now); }
    case CarriageReturn => NewlineConfirmsNothing(BecomeTentative(s), fb, now);
    case _ =>
  }

  // A keystroke predicts only in epochs that are not confirmed yet.
  lemma TypingKeeps(s: State, acts: seq<Act>, fb: Frame, now: nat)
    requires Valid(s) && Fits(s, fb) && Ascending(s) && NoneOlder(s)
    ensures var t := DoActs(s, acts, fb, now);
            Valid(t) && Ascending(t) && NoneOlder(t) && Grows(s, t, s.predictionEpoch)
  {
    var t := DoActs(s, acts, fb, now);
    TypingConfirmsNothing(s, acts, fb, now);
    DoActsOrdered(s, acts, fb, now);
    DoActsGrow(s, acts, fb, now);
    AscendingKept(s, t);
    hide DoActs, Live, Ascending;
    forall e: nat, d: nat | Live(t, e, d) ensures t.confirmedEpoch <= e {
      assert Known(s, s.predictionEpoch, e, d);
    }
  }
}
