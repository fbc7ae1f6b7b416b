/** Where each grid position and the cursor of a painted frame come from. */
module Painting {
  import opened Wrappers
  import opened Frames
  import opened Overlays
  import opened Prediction

  // A position under an overlay, as it looks once the overlays are painted.
  function Drawn(c: CellOverlay, confirmed: nat, flag: bool, slot: Slot, lastCol: bool): Slot {
    if !c.base.active || c.base.Tentative(confirmed) then slot else c.Draw(slot, flag, lastCol)
  }

  predicate SameButGrid(a: Frame, b: Frame) {
    a.rows == b.rows && a.cols == b.cols && a.cursorRow == b.cursorRow && a.cursorCol == b.cursorCol
  }

  lemma {:induction false} PaintedCells(cells: seq<CellOverlay>, from: nat, rowNum: nat, confirmed: nat, flag: bool, fb: Frame)
    requires rowNum < fb.rows && from + |cells| == fb.cols
    requires forall k :: 0 <= k < |cells| ==> cells[k].base.col == from + k
    ensures var r := PaintCells(cells, rowNum, confirmed, flag, fb);
            && SameButGrid(r, fb)
            && (forall other :: 0 <= other < fb.rows && other != rowNum ==> r.grid[other] == fb.grid[other])
            && (forall c :: 0 <= c < from ==> r.grid[rowNum][c] == fb.grid[rowNum][c])
            && (forall c :: from <= c < fb.cols ==>
                  r.grid[rowNum][c] == Drawn(cells[c - from], confirmed, flag, fb.grid[rowNum][c], c == fb.cols - 1))
  {
    if cells != [] {
      var fb1 := cells[0].Paint(fb, confirmed, rowNum, flag);
      PaintedCells(cells[1..], from + 1, rowNum, confirmed, flag, fb1);
      hide PaintCells;
      var r := PaintCells(cells[1..], rowNum, confirmed, flag, fb1);
      forall c | from <= c < fb.cols
        ensures r.grid[rowNum][c] == Drawn(cells[c - from], confirmed, flag, fb.grid[rowNum][c], c == fb.cols - 1)
      {
        if from < c { assert cells[1..][c - from - 1] == cells[c - from]; }
      }
    }
  }

  lemma {:induction false} PaintedRows(overlays: seq<Row>, confirmed: nat, flag: bool, fb: Frame, row: nat, col: nat)
    requires RowsShaped(overlays, fb.rows, fb.cols) && row < fb.rows && col < fb.cols
    ensures var r := PaintRows(overlays, confirmed, flag, fb);
            var k := RowIndex(overlays, row);
            && SameButGrid(r, fb)
            && r.grid[row][col] == if k == |overlays| then fb.grid[row][col]
                                   else Drawn(overlays[k].cells[col], confirmed, flag, fb.grid[row][col], col == fb.cols - 1)
  {
    if overlays != [] {
      assert RowShaped(overlays[0], fb.rows, fb.cols);
      PaintedCells(overlays[0].cells, 0, overlays[0].rowNum, confirmed, flag, fb);
      var fb1 := PaintCells(overlays[0].cells, overlays[0].rowNum, confirmed, flag, fb);
      PaintedRows(overlays[1..], confirmed, flag, fb1, row, col);
    }
  }

  predicate AllTentative(cursors: seq<CursorOverlay>, confirmed: nat) {
    forall k :: 0 <= k < |cursors| ==> cursors[k].base.Tentative(confirmed)
  }

  // The newest cursor overlay that is not tentative.
  function TrustedCursor(cursors: seq<CursorOverlay>, confirmed: nat): (r: Option<CursorOverlay>)
    ensures r.None? <==> AllTentative(cursors, confirmed)
    ensures r.Some? ==> !r.value.base.Tentative(confirmed)
    ensures r.Some? ==> exists k :: 0 <= k < |cursors| && cursors[k] == r.value && AllTentative(cursors[k + 1..], confirmed)
    ensures cursors != [] && !Last(cursors).base.Tentative(confirmed) ==> r == Some(Last(cursors))
  {
    if cursors == [] then None
    else
      var later := TrustedCursor(cursors[1..], confirmed);
      assert forall k :: 0 < k <= |cursors| ==> cursors[1..][k - 1..] == cursors[k..];
      if later.Some? then later
      else if cursors[0].base.Tentative(confirmed) then None
      else Some(cursors[0])
  }

  predicate CursorAt(fb: Frame, c: Option<CursorOverlay>, otherwise: Frame) {
    match c
    case None => fb.cursorRow == otherwise.cursorRow && fb.cursorCol == otherwise.cursorCol
    case Some(v) => fb.cursorRow == v.row && fb.cursorCol == v.col
  }

  lemma {:induction false} PaintedCursors(cursors: seq<CursorOverlay>, confirmed: nat, fb: Frame)
    requires CursorsShaped(cursors, fb.rows, fb.cols)
    ensures var r := PaintCursors(cursors, confirmed, fb);
            && r.rows == fb.rows && r.cols == fb.cols && r.grid == fb.grid
            && CursorAt(r, TrustedCursor(cursors, confirmed), fb)
  {
    if cursors != [] {
      assert CursorShaped(cursors[0], fb.rows, fb.cols);
      PaintedCursors(cursors[1..], confirmed, cursors[0].Paint(fb, confirmed));
    }
  }

  // The frame `Apply` makes, position by position: a trusted overlay is drawn over its
  // position, and the cursor goes where the newest trusted cursor overlay is; everything
  // else, and all of it when predictions are not shown, is the frame as it was.
  lemma Applied(s: State, fb: Frame, row: nat, col: nat)
    requires Shaped(s) && Fits(s, fb) && row < fb.rows && col < fb.cols
    ensures var r := Apply(s, fb);
            && r.rows == fb.rows && r.cols == fb.cols
            && r.grid[row][col] == (if Showing(s)
                 then Drawn(RowCells(s, row, 0)[col], s.confirmedEpoch, s.flagging, fb.grid[row][col], col == fb.cols - 1)
                 else fb.grid[row][col])
            && CursorAt(r, if Showing(s) then TrustedCursor(s.cursors, s.confirmedEpoch) else None, fb)
  {
    if Showing(s) {
      PaintedCursors(s.cursors, s.confirmedEpoch, fb);
      PaintedRows(s.overlays, s.confirmedEpoch, s.flagging, PaintCursors(s.cursors, s.confirmedEpoch, fb), row, col);
    }
  }
}
