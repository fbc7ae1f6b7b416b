/**
 The predictor: an object whose methods edit overlays in place. Each method is proved to
 do what `Prediction` says, on the whole state.
 */
module LocalEcho {
  import opened Wrappers
  import opened Frames
  import opened Overlays
  import P = Prediction

  class Predictor {
    var overlays: seq<Row>
    var cursors: seq<CursorOverlay>
    var localFrameSent: nat
    var localFrameLateAcked: nat
    var predictionEpoch: nat
    var confirmedEpoch: nat
    var flagging: bool
    var srttTrigger: bool
    var glitchTrigger: nat
    var lastQuickConfirmation: nat
    var sendInterval: nat
    var lastHeight: nat
    var lastWidth: nat
    var displayPreference: P.Preference
    var predictOverwrite: bool

    ghost function View(): P.State
      reads this
    {
      P.State(overlays, cursors, localFrameSent, localFrameLateAcked, predictionEpoch, confirmedEpoch,
              flagging, srttTrigger, glitchTrigger, lastQuickConfirmation, sendInterval,
              lastHeight, lastWidth, displayPreference, predictOverwrite)
    }

    constructor ()
      ensures View() == P.INITIAL
    {
      overlays, cursors := [], [];
      localFrameSent, localFrameLateAcked := 0, 0;
      predictionEpoch, confirmedEpoch := 1, 0;
      flagging, srttTrigger := false, false;
      glitchTrigger, lastQuickConfirmation := 0, 0;
      sendInterval := 250;
      lastHeight, lastWidth := 0, 0;
      displayPreference, predictOverwrite := P.Adaptive, false;
    }

    method SetDisplayPreference(preference: P.Preference)
      modifies this
      ensures View() == old(View()).(preference := preference)
    {
      displayPreference := preference;
    }

    method SetLocalFrameSent(seqNo: nat)
      modifies this
      ensures View() == old(View()).(sent := seqNo)
    {
      localFrameSent := seqNo;
    }

    method SetLocalFrameLateAcked(seqNo: nat)
      modifies this
      ensures View() == old(View()).(lateAcked := seqNo)
    {
      localFrameLateAcked := seqNo;
    }

    method SetSendInterval(ms: nat)
      modifies this
      ensures View() == old(View()).(sendInterval := ms)
    {
      sendInterval := ms;
    }

    method BecomeTentative()
      modifies this
      ensures View() == P.BecomeTentative(old(View()))
    {
      predictionEpoch := predictionEpoch + 1;
    }

    method Reset()
      modifies this
      ensures View() == P.Reset(old(View()))
    {
      cursors := [];
      overlays := [];
      BecomeTentative();
    }

    method Active() returns (active: bool)
      ensures active == P.Active(View())
    {
      if cursors != [] { return true; }
      for r := 0 to |overlays|
        invariant forall k :: 0 <= k < r ==> !P.RowActive(overlays[k])
      {
        for i := 0 to |overlays[r].cells|
          invariant forall j :: 0 <= j < i ==> !overlays[r].cells[j].base.active
        {
          if overlays[r].cells[i].base.active {
            assert P.RowActive(overlays[r]);
            return true;
          }
        }
      }
      active := false;
    }

    method NewUserByte(acts: seq<P.Act>, display: Frame, now: nat)
      requires P.Shaped(View())
      modifies this
      ensures View() == P.NewUserByte(old(View()), acts, display, now)
    {
      if displayPreference.Never? { return; }
      Cull(display, now);
      ghost var culled := View();
      var k := 0;
      while k < |acts|
        invariant k <= |acts|
        invariant P.Shaped(View()) && P.Fits(View(), display)
        invariant P.DoActs(View(), acts[k..], display, now) == P.DoActs(culled, acts, display, now)
      {
        assert acts[k..][0] == acts[k] && acts[k..][1..] == acts[k + 1..];
        DoAct(acts[k], display, now);
        k := k + 1;
      }
    }

    method DoAct(act: P.Act, display: Frame, now: nat)
      requires P.Shaped(View()) && P.Fits(View(), display)
      modifies this
      ensures View() == P.DoAct(old(View()), act, display, now)
    {
      match act
      case Print(ch, narrow) =>
        InitCursor(display);
        if narrow { PredictChar(ch, display, now); } else { BecomeTentative(); }
      case Backspace =>
        InitCursor(display);
        Backspace(display, now);
      case CarriageReturn =>
        BecomeTentative();
        NewlineCarriageReturn(display, now);
      case Right =>
        InitCursor(display);
        var c := cursors[|cursors| - 1];
        if c.col < display.cols - 1 {
          MoveTo(c.col + 1, now);
        }
      case Left =>
        InitCursor(display);
        var c := cursors[|cursors| - 1];
        assert P.CursorShaped(c, lastHeight, lastWidth);
        if c.col > 0 {
          MoveTo(c.col - 1, now);
        }
      case Other => BecomeTentative();
    }

    method InitCursor(fb: Frame)
      requires P.Shaped(View()) && P.Fits(View(), fb)
      modifies this`cursors
      ensures View() == P.InitCursor(old(View()), fb)
    {
      var exp, epoch := localFrameSent + 1, predictionEpoch;
      if cursors == [] {
        cursors := [CursorOverlay(Base(exp, fb.cursorCol, true, epoch, NONE), fb.cursorRow, fb.cursorCol)];
      } else {
        var c := cursors[|cursors| - 1];
        if c.base.tentativeUntil != epoch {
          cursors := cursors + [CursorOverlay(Base(exp, c.col, true, epoch, NONE), c.row, c.col)];
        }
      }
    }

    method MoveTo(col: nat, now: nat)
      requires P.Shaped(View()) && cursors != [] && col < lastWidth
      modifies this`cursors
      ensures View() == P.MoveTo(old(View()), col, now)
    {
      var c := cursors[|cursors| - 1];
      cursors := cursors[|cursors| - 1 := c.(col := col, base := c.base.Expire(localFrameSent + 1, now))];
    }

    // Find the row overlay for `rowNum`, appending a blank one if there is none.
    method GetOrMakeRow(rowNum: nat, cols: nat, epoch: nat) returns (pos: nat)
      requires cols == lastWidth
      modifies this`overlays
      ensures overlays == WithRow(old(overlays), rowNum, cols, epoch)
      ensures pos == RowIndex(old(overlays), rowNum)
    {
      pos := 0;
      while pos < |overlays| && overlays[pos].rowNum != rowNum
        invariant pos <= |overlays|
        invariant forall i :: 0 <= i < pos ==> overlays[i].rowNum != rowNum
      {
        pos := pos + 1;
      }
      if pos == |overlays| {
        overlays := overlays + [FreshRow(rowNum, cols, epoch)];
      }
    }

    method Backspace(display: Frame, now: nat)
      requires P.Shaped(View()) && P.Fits(View(), display) && cursors != []
      modifies this
      ensures View() == P.BackspaceKey(old(View()), display, now)
    {
      var c := cursors[|cursors| - 1];
      assert P.CursorShaped(c, lastHeight, lastWidth);
      var rowNum, col0, width := c.row, c.col, display.cols;
      var exp, epoch := localFrameSent + 1, predictionEpoch;
      if col0 == 0 { return; }
      var col := col0 - 1;
      var to := if predictOverwrite then col else width - 1;
      if UnsupportedRange(display, rowNum, col, to) {
        BecomeTentative();
        return;
      }
      EraseCells(rowNum, col, exp, epoch, display, now);
      MoveTo(col, now);
    }

    // The cells a backspace to (rowNum, col) rewrites, from left to right.
    method EraseCells(rowNum: nat, col: nat, exp: nat, epoch: nat, display: Frame, now: nat)
      requires P.Shaped(View()) && P.Fits(View(), display) && rowNum < display.rows && col < display.cols
      requires exp == localFrameSent + 1 && epoch == predictionEpoch
      modifies this`overlays
      ensures View() == P.DeleteCells(old(View()), rowNum, col, display, now)
    {
      ghost var s := View();
      var width := display.cols;
      var pos := GetOrMakeRow(rowNum, width, epoch);
      var cells := overlays[pos].cells;
      assert cells == P.RowCells(s, rowNum, epoch);
      ghost var cells0, shown := cells, ShownRow(display, rowNum);
      if predictOverwrite {
        var actual := CellAt(display, rowNum, col);
        var cell := cells[col].Claim(epoch, exp, now, actual);
        cells := cells[col := cell.(replacement := BlankCell(actual))];
      } else {
        var i := col;
        while i < width
          invariant col <= i <= width == |cells|
          invariant forall j :: i <= j < width ==> cells[j] == cells0[j]
          invariant forall j :: 0 <= j < i ==> cells[j] == P.DeletedCell(cells0, shown, col, epoch, exp, now, j)
        {
          var cell := cells[i].Claim(epoch, exp, now, CellAt(display, rowNum, i));
          if i + 2 < width {
            cell := cell.TakeFrom(cells[i + 1], CellAt(display, rowNum, i + 1));
          } else {
            cell := cell.(unknown := true);
          }
          cells := cells[i := cell];
          i := i + 1;
        }
        assert cells == P.DeletedRow(cells0, shown, col, epoch, exp, now);
      }
      overlays := overlays[pos := Row(rowNum, cells)];
    }

    method PredictChar(ch: char, display: Frame, now: nat)
      requires P.Shaped(View()) && P.Fits(View(), display) && cursors != []
      modifies this
      ensures View() == P.PredictChar(old(View()), ch, display, now)
    {
      var c := cursors[|cursors| - 1];
      assert P.CursorShaped(c, lastHeight, lastWidth);
      var rowNum, col, width := c.row, c.col, display.cols;
      var rightmost := if predictOverwrite then col else width - 1;
      if UnsupportedRange(display, rowNum, col, rightmost) {
        BecomeTentative();
        return;
      }
      hide UnsupportedRange, P.RowsShaped;
      if col + 1 < width {
        TypeCells(rowNum, col, rightmost, ch, predictionEpoch, localFrameSent + 1, display, now);
        MoveTo(col + 1, now);
      } else {
        WrapChar(ch, display, now);
      }
    }

    // The last column: its cell starts an epoch and the new line another.
    method WrapChar(ch: char, display: Frame, now: nat)
      requires P.Shaped(View()) && P.Fits(View(), display) && cursors != []
      requires cursors[|cursors| - 1].col == lastWidth - 1
      modifies this
      ensures View() == P.WrapChar(old(View()), ch, display, now)
    {
      var c := cursors[|cursors| - 1];
      assert P.CursorShaped(c, lastHeight, lastWidth);
      var oldEpoch := predictionEpoch;
      BecomeTentative();
      hide P.RowsShaped, P.NewlineCarriageReturn;
      TypeCells(c.row, c.col, c.col, ch, oldEpoch, localFrameSent + 1, display, now);
      MoveTo(c.col, now);
      BecomeTentative();
      NewlineCarriageReturn(display, now);
    }

    // Move the cells in (col, rightmost] one to the right, from right to left.
    method ShiftRight(row: seq<CellOverlay>, rowNum: nat, col: nat, rightmost: nat, ghost ch: char,
                      epoch: nat, exp: nat, display: Frame, now: nat)
      returns (cells: seq<CellOverlay>)
      requires |row| == display.cols && rowNum < display.rows && col <= rightmost < display.cols
      ensures |cells| == |row|
      ensures forall j :: 0 <= j <= col ==> cells[j] == row[j]
      ensures forall j :: col < j < |row| ==>
        cells[j] == P.InsertedCell(row, ShownRow(display, rowNum), col, rightmost, ch, epoch, exp, now, j)
    {
      var width := display.cols;
      ghost var shown := ShownRow(display, rowNum);
      cells := row;
      var i := rightmost;
      while i > col
        invariant col <= i <= rightmost && |cells| == width
        invariant forall j :: 0 <= j <= i ==> cells[j] == row[j]
        invariant forall j :: i < j < width ==> cells[j] == P.InsertedCell(row, shown, col, rightmost, ch, epoch, exp, now, j)
      {
        var cell := cells[i].Claim(epoch, exp, now, CellAt(display, rowNum, i));
        if i == width - 1 {
          cell := cell.(unknown := true);
        } else {
          cell := cell.TakeFrom(cells[i - 1], CellAt(display, rowNum, i - 1));
        }
        cells := cells[i := cell];
        i := i - 1;
      }
    }

    // The cells that typing `ch` at (rowNum, col) rewrites, from right to left.
    method TypeCells(rowNum: nat, col: nat, rightmost: nat, ch: char, rowEpoch: nat, exp: nat, display: Frame, now: nat)
      requires P.Shaped(View()) && P.Fits(View(), display) && rowNum < display.rows && col <= rightmost < display.cols
      requires exp == localFrameSent + 1
      modifies this`overlays
      ensures View() == P.TypeCells(old(View()), rowNum, col, rightmost, ch, rowEpoch, display, now)
    {
      ghost var s := View();
      var width, epoch := display.cols, predictionEpoch;
      var pos := GetOrMakeRow(rowNum, width, rowEpoch);
      var cells := overlays[pos].cells;
      assert cells == P.RowCells(s, rowNum, rowEpoch);
      ghost var cells0, shown := cells, ShownRow(display, rowNum);
      cells := ShiftRight(cells, rowNum, col, rightmost, ch, epoch, exp, display, now);
      var pen := CellAt(display, rowNum, col);
      if col > 0 {
        var prev := cells[col - 1];
        pen := if prev.base.active && !prev.unknown then prev.replacement else CellAt(display, rowNum, col - 1);
      }
      var typed := cells[col].Claim(epoch, exp, now, CellAt(display, rowNum, col));
      cells := cells[col := typed.(replacement := CharCell(pen, ch))];
      assert cells == P.InsertedRow(cells0, shown, col, rightmost, ch, epoch, exp, now);
      overlays := overlays[pos := Row(rowNum, cells)];
    }

    method NewlineCarriageReturn(display: Frame, now: nat)
      requires P.Shaped(View()) && P.Fits(View(), display)
      modifies this
      ensures View() == P.NewlineCarriageReturn(old(View()), display, now)
    {
      hide P.InitCursor, P.BlankRow, RowHasLink;
      InitCursor(display);
      var exp, epoch := localFrameSent + 1, predictionEpoch;
      var c := cursors[|cursors| - 1];
      assert P.CursorShaped(c, lastHeight, lastWidth);
      cursors := cursors[|cursors| - 1 := c.(col := 0)];
      if c.row == display.rows - 1 {
        if RowHasLink(display, c.row) {
          BecomeTentative();
          return;
        }
        BlankRow(c.row, exp, epoch, now);
      } else {
        cursors := cursors[|cursors| - 1 := c.(col := 0, row := c.row + 1)];
      }
    }

    method BlankRow(rowNum: nat, exp: nat, epoch: nat, now: nat)
      requires P.Shaped(View()) && rowNum < lastHeight
      requires exp == localFrameSent + 1 && epoch == predictionEpoch
      modifies this`overlays
      ensures View() == P.BlankRow(old(View()), rowNum, now)
    {
      ghost var s := View();
      var pos := GetOrMakeRow(rowNum, lastWidth, epoch);
      var cells := overlays[pos].cells;
      assert cells == P.RowCells(s, rowNum, epoch);
      ghost var cells0 := cells;
      for i := 0 to |cells|
        invariant |cells| == |cells0|
        invariant forall j :: 0 <= j < i ==> cells[j] == P.BlankedCell(cells0[j], epoch, exp, now)
        invariant forall j :: i <= j < |cells| ==> cells[j] == cells0[j]
      {
        var cell := cells[i];
        cells := cells[i := cell.(base := cell.base.(active := true, tentativeUntil := epoch).Expire(exp, now),
                                  replacement := BlankCell(cell.replacement))];
      }
      assert cells == P.BlankedRow(cells0, epoch, exp, now);
      overlays := overlays[pos := Row(rowNum, cells)];
    }

    // Keep the cursors that satisfy `keep`, in order.
    method RetainCursors(keep: CursorOverlay -> bool)
      modifies this`cursors
      ensures cursors == P.KeepCursors(old(cursors), keep)
    {
      var kept := [];
      for k := 0 to |cursors|
        invariant kept == P.KeepCursors(cursors[..k], keep)
      {
        assert cursors[..k + 1][..k] == cursors[..k];
        if keep(cursors[k]) { kept := kept + [cursors[k]]; }
      }
      assert cursors[..|cursors|] == cursors;
      cursors := kept;
    }

    // `rows` are the row overlays, taken out of the object while it is reconciled.
    method KillEpoch(rows: seq<Row>, epoch: nat, fb: Frame) returns (killed: seq<Row>)
      requires P.Shaped(View().(overlays := rows)) && P.Fits(View(), fb)
      modifies this`cursors, this`predictionEpoch
      ensures View().(overlays := killed) == P.KillEpoch(old(View()).(overlays := rows), epoch, fb)
    {
      var past := SaturatingSub(epoch, 1);
      RetainCursors((c: CursorOverlay) => !c.base.Tentative(past));
      cursors := cursors + [CursorOverlay(Base(localFrameSent + 1, fb.cursorCol, true, predictionEpoch, NONE),
                                          fb.cursorRow, fb.cursorCol)];
      killed := KillRows(rows, past);
      hide P.KeepCursors, P.KilledRow, P.KilledRows, P.RowsShaped, P.CursorsShaped;
      predictionEpoch := predictionEpoch + 1;
    }

    method KillRows(rows: seq<Row>, past: nat) returns (killed: seq<Row>)
      ensures killed == P.KilledRows(rows, past)
    {
      killed := rows;
      for r := 0 to |rows|
        invariant |killed| == |rows|
        invariant forall k :: 0 <= k < r ==> killed[k] == P.KilledRow(rows[k], past)
        invariant forall k :: r <= k < |rows| ==> killed[k] == rows[k]
      {
        var row := KillCells(rows[r], past);
        killed := killed[r := row];
      }
    }

    method KillCells(row: Row, past: nat) returns (killed: Row)
      ensures killed == P.KilledRow(row, past)
    {
      var cells := row.cells;
      for i := 0 to |cells|
        invariant |cells| == |row.cells|
        invariant forall j :: 0 <= j < i ==> cells[j] == P.KilledCell(row.cells[j], past)
        invariant forall j :: i <= j < |cells| ==> cells[j] == row.cells[j]
      {
        if cells[i].base.Tentative(past) { cells := cells[i := cells[i].Reset()]; }
      }
      assert cells == P.KilledRow(row, past).cells;
      killed := row.(cells := cells);
    }

    method UpdateTriggers()
      modifies this`srttTrigger, this`flagging
      ensures View() == P.Triggered(old(View()))
    {
      var active := Active();
      if sendInterval > P.SRTT_TRIGGER_HIGH {
        srttTrigger := true;
      } else if srttTrigger && sendInterval <= P.SRTT_TRIGGER_LOW && !active {
        srttTrigger := false;
      }
      if sendInterval > P.FLAG_TRIGGER_HIGH {
        flagging := true;
      } else if sendInterval <= P.FLAG_TRIGGER_LOW {
        flagging := false;
      }
      if glitchTrigger > P.GLITCH_REPAIR_COUNT {
        flagging := true;
      }
    }

    // The trust and the repair token a confirmed prediction earns.
    method Credit(base: Base, now: nat)
      modifies this`confirmedEpoch, this`glitchTrigger, this`lastQuickConfirmation
      ensures View() == P.Credit(old(View()), base, now)
    {
      if base.tentativeUntil > confirmedEpoch {
        confirmedEpoch := base.tentativeUntil;
      }
      if SaturatingSub(now, base.predictedAt) < P.GLITCH_THRESHOLD && glitchTrigger > 0
         && SaturatingSub(now, lastQuickConfirmation) >= P.GLITCH_REPAIR_MININTERVAL
      {
        glitchTrigger := glitchTrigger - 1;
        lastQuickConfirmation := now;
      }
    }

    // Settle cell `i` of row `r`. On `abandon` the object has been reset.
    method CullCell(rows: seq<Row>, r: nat, i: nat, fb: Frame, now: nat) returns (rows': seq<Row>, abandon: bool)
      requires P.Shaped(View().(overlays := rows)) && P.Fits(View(), fb) && r < |rows| && i < lastWidth
      modifies this
      ensures abandon == P.CullCell(old(View()).(overlays := rows), r, i, fb, now).Abandon?
      ensures P.CullCell(old(View()).(overlays := rows), r, i, fb, now).state
           == if abandon then View() else View().(overlays := rows')
    {
      ghost var s := View().(overlays := rows);
      assert P.RowShaped(rows[r], s.height, s.width);
      rows', abandon := rows, false;
      var row := rows[r];
      var cell := row.cells[i];
      match cell.Judge(fb, row.rowNum, localFrameLateAcked)
      case IncorrectOrExpired =>
        if cell.base.Tentative(confirmedEpoch) {
          rows' := KillEpoch(rows, cell.base.tentativeUntil, fb);
        } else {
          Reset();
          abandon := true;
        }
      case Correct =>
        Credit(cell.base, now);
        var actual := CellAt(fb, row.rowNum, cell.base.col);
        var cells := Restyle(row.cells, i, actual);
        rows' := rows[r := row.(cells := cells[i := cells[i].Reset()])];
      case CorrectNoCredit =>
        rows' := rows[r := row.(cells := row.cells[i := cell.Reset()])];
      case Pending =>
        var pending := SaturatingSub(now, cell.base.predictedAt);
        if pending >= P.GLITCH_FLAG_THRESHOLD {
          glitchTrigger := P.GLITCH_REPAIR_COUNT * 2;
        } else if pending >= P.GLITCH_THRESHOLD && glitchTrigger < P.GLITCH_REPAIR_COUNT {
          glitchTrigger := P.GLITCH_REPAIR_COUNT;
        }
      case Inactive =>
    }

    // The rest of the row takes on the rendition of a confirmed cell.
    method Restyle(row: seq<CellOverlay>, from: nat, actual: Cell) returns (cells: seq<CellOverlay>)
      requires from <= |row|
      ensures cells == P.Restyled(row, from, actual)
    {
      cells := row;
      for k := from to |row|
        invariant |cells| == |row|
        invariant forall j :: 0 <= j < from || k <= j < |cells| ==> cells[j] == row[j]
        invariant forall j :: from <= j < k ==> cells[j] == P.Restyled(row, from, actual)[j]
      {
        cells := cells[k := cells[k].(replacement := CopyRenditions(cells[k].replacement, actual))];
      }
    }

    // A screen of another size forgets every overlay.
    method FitTo(fb: Frame)
      requires P.Shaped(View())
      modifies this
      ensures View() == P.Resized(old(View()), fb)
    {
      if lastHeight != fb.rows || lastWidth != fb.cols {
        lastHeight, lastWidth := fb.rows, fb.cols;
        Reset();
      }
    }

    method Cull(fb: Frame, now: nat)
      requires P.Shaped(View())
      modifies this
      ensures View() == P.Cull(old(View()), fb, now)
    {
      hide P.CullFrom, P.Triggered, P.CullCursors, P.Resized, P.RowsShaped, P.CursorsShaped;
      if displayPreference.Never? { return; }
      FitTo(fb);
      UpdateTriggers();
      ghost var s := View();
      var rows := overlays;
      overlays := [];
      assert View().(overlays := rows) == s && P.Shaped(s);
      var abandon;
      rows, abandon := CullRows(rows, fb, now);
      if abandon { return; }
      overlays := rows;
      assert View() == P.CullFrom(s, 0, 0, fb, now).state;
      CullCursors(fb);
    }

    // Settle all cells, row by row. All rows are on the screen here, so the source's filter
    // on row numbers keeps every one of them. On `abandon` the object has been reset.
    method CullRows(rows: seq<Row>, fb: Frame, now: nat) returns (rows': seq<Row>, abandon: bool)
      requires overlays == [] && P.Shaped(View().(overlays := rows)) && P.Fits(View(), fb)
      modifies this
      ensures abandon == P.CullFrom(old(View()).(overlays := rows), 0, 0, fb, now).Abandon?
      ensures P.CullFrom(old(View()).(overlays := rows), 0, 0, fb, now).state
           == if abandon then View() else View().(overlays := rows')
    {
      hide P.CullCell, P.RowsShaped;
      ghost var start := View().(overlays := rows);
      rows', abandon := rows, false;
      var r := 0;
      while r < |rows'|
        invariant r <= |rows'| && overlays == [] && !abandon
        invariant P.Shaped(View().(overlays := rows')) && P.Fits(View(), fb)
        invariant P.CullFrom(View().(overlays := rows'), r, 0, fb, now) == P.CullFrom(start, 0, 0, fb, now)
        decreases |rows'| - r
      {
        rows', abandon := CullRow(rows', r, fb, now);
        if abandon { return; }
        overlays := [];
        r := r + 1;
      }
    }

    method CullRow(rows: seq<Row>, r: nat, fb: Frame, now: nat) returns (rows': seq<Row>, abandon: bool)
      requires P.Shaped(View().(overlays := rows)) && P.Fits(View(), fb) && r < |rows|
      modifies this
      ensures var p := P.CullFrom(old(View()).(overlays := rows), r, 0, fb, now);
              && (abandon ==> p == P.Abandon(View()))
              && (!abandon ==>
                    && P.Shaped(View().(overlays := rows')) && P.Fits(View(), fb) && |rows'| == |rows|
                    && p == P.CullFrom(View().(overlays := rows'), r + 1, 0, fb, now))
    {
      ghost var start := View().(overlays := rows);
      rows', abandon := rows, false;
      var n := |rows[r].cells|;
      assert P.RowShaped(rows[r], lastHeight, lastWidth);
      hide P.CullCell, P.RowsShaped, P.RowShaped;
      var i := 0;
      while i < n
        invariant i <= n == lastWidth && |rows'| == |rows|
        invariant P.Shaped(View().(overlays := rows')) && P.Fits(View(), fb)
        invariant P.CullFrom(View().(overlays := rows'), r, i, fb, now) == P.CullFrom(start, r, 0, fb, now)
      {
        rows', abandon := CullCell(rows', r, i, fb, now);
        if abandon { return; }
        i := i + 1;
      }
    }

    method CullCursors(fb: Frame)
      requires P.Shaped(View()) && P.Fits(View(), fb)
      modifies this
      ensures View() == P.CullCursors(old(View()), fb)
    {
      var late := localFrameLateAcked;
      if cursors != [] && cursors[|cursors| - 1].Judge(fb, late).IncorrectOrExpired? {
        Reset();
        return;
      }
      RetainCursors((c: CursorOverlay) => c.Judge(fb, late).Pending?);
    }

    // A copy of the frame with the surviving predictions drawn over it.
    method Apply(frame: Frame) returns (out: Frame)
      ensures out == P.Apply(View(), frame)
    {
      out := frame;
      if displayPreference.Never? { return; }
      if !(srttTrigger || glitchTrigger > 0 || displayPreference.Always?) { return; }
      for k := 0 to |cursors|
        invariant P.PaintCursors(cursors[k..], confirmedEpoch, out) == P.PaintCursors(cursors, confirmedEpoch, frame)
      {
        out := cursors[k].Paint(out, confirmedEpoch);
      }
      ghost var base := out;
      for r := 0 to |overlays|
        invariant P.PaintRows(overlays[r..], confirmedEpoch, flagging, out) == P.PaintRows(overlays, confirmedEpoch, flagging, base)
      {
        ghost var before := out;
        var row := overlays[r];
        for i := 0 to |row.cells|
          invariant P.PaintCells(row.cells[i..], row.rowNum, confirmedEpoch, flagging, out)
                 == P.PaintCells(row.cells, row.rowNum, confirmedEpoch, flagging, before)
        {
          out := row.cells[i].Paint(out, confirmedEpoch, row.rowNum, flagging);
        }
      }
    }
  }
}
