/**
 What the shift loops mean. A row as the user should see it is a sequence of guesses, one
 a column; typing splices a character into it and backspace splices one out, whatever mix
 of active, inactive and unknown overlays the row holds.
 */
module LineSplice {
  import opened Frames
  import opened Overlays
  import opened Prediction

  datatype Guess = Known(cell: Cell) | Unknown

  function GuessOf(c: CellOverlay, shown: Cell): Guess {
    if !c.base.active then Known(shown) else if c.unknown then Unknown else Known(c.replacement)
  }

  function Guesses(cells: seq<CellOverlay>, shown: seq<Cell>): (g: seq<Guess>)
    requires |cells| == |shown|
    ensures |g| == |cells|
    ensures forall i :: 0 <= i < |cells| ==> g[i] == GuessOf(cells[i], shown[i])
  {
    seq(|cells|, i requires 0 <= i < |cells| => GuessOf(cells[i], shown[i]))
  }

  lemma InsertedGuess(cells: seq<CellOverlay>, shown: seq<Cell>, col: nat, ch: char, epoch: nat, frame: nat, now: nat, i: nat)
    requires |cells| == |shown| && col + 1 < |cells| && i < |cells|
    ensures GuessOf(InsertedCell(cells, shown, col, |cells| - 1, ch, epoch, frame, now, i), shown[i])
         == if i < col then GuessOf(cells[i], shown[i])
            else if i == col then Known(CharCell(PenCell(cells, shown, col), ch))
            else if i == |cells| - 1 then Unknown
            else GuessOf(cells[i - 1], shown[i - 1])
  {
  }

  lemma DeletedGuess(cells: seq<CellOverlay>, shown: seq<Cell>, col: nat, epoch: nat, frame: nat, now: nat, i: nat)
    requires |cells| == |shown| && i < |cells|
    ensures GuessOf(DeletedCell(cells, shown, col, epoch, frame, now, i), shown[i])
         == if i < col then GuessOf(cells[i], shown[i])
            else if i + 2 < |cells| then GuessOf(cells[i + 1], shown[i + 1])
            else Unknown
  {
  }

  // Typing inserts the character and pushes the rest of the line right; what falls into
  // the last column is unknown.
  lemma {:induction false} InsertSplices(cells: seq<CellOverlay>, shown: seq<Cell>, col: nat, ch: char, epoch: nat, frame: nat, now: nat)
    requires |cells| == |shown| && col + 1 < |cells|
    ensures var g := Guesses(cells, shown);
            Guesses(InsertedRow(cells, shown, col, |cells| - 1, ch, epoch, frame, now), shown)
            == g[..col] + [Known(CharCell(PenCell(cells, shown, col), ch))] + g[col..|cells| - 2] + [Unknown]
  {
    hide InsertedCell, GuessOf, PenCell, InsertedRow, Guesses;
    var w := |cells|;
    var g := Guesses(cells, shown);
    var after := Guesses(InsertedRow(cells, shown, col, w - 1, ch, epoch, frame, now), shown);
    var spliced := g[..col] + [Known(CharCell(PenCell(cells, shown, col), ch))] + g[col..w - 2] + [Unknown];
    forall i | 0 <= i < w ensures after[i] == spliced[i] {
      InsertedGuess(cells, shown, col, ch, epoch, frame, now, i);
      if col < i < w - 1 { assert spliced[i] == g[i - 1]; }
    }
  }

  // Backspace removes a character and pulls the rest of the line left; the last two
  // columns are unknown.
  lemma {:induction false} DeleteSplices(cells: seq<CellOverlay>, shown: seq<Cell>, col: nat, epoch: nat, frame: nat, now: nat)
    requires |cells| == |shown| && col + 2 <= |cells|
    ensures var g := Guesses(cells, shown);
            Guesses(DeletedRow(cells, shown, col, epoch, frame, now), shown)
            == g[..col] + g[col + 1..|cells| - 1] + [Unknown, Unknown]
  {
    hide DeletedCell, GuessOf, DeletedRow, Guesses;
    var w := |cells|;
    var g := Guesses(cells, shown);
    var after := Guesses(DeletedRow(cells, shown, col, epoch, frame, now), shown);
    var spliced := g[..col] + g[col + 1..w - 1] + [Unknown, Unknown];
    forall i | 0 <= i < w ensures after[i] == spliced[i] {
      DeletedGuess(cells, shown, col, epoch, frame, now, i);
      if col <= i < w - 2 { assert spliced[i] == g[i + 1]; }
    }
  }

  // ---------- rows of a state ----------

  lemma PutThenRead(s: State, rowNum: nat, epoch: nat, cells: seq<CellOverlay>, other: nat, epoch': nat)
    requires Shaped(s) && rowNum < s.height && |cells| == s.width && ColumnsKept(cells) && other < s.height
    ensures RowCells(PutRow(s, rowNum, epoch, cells), other, epoch')
         == if other == rowNum then cells else RowCells(s, other, epoch')
  {
    var t := PutRow(s, rowNum, epoch, cells);
    var k := RowIndex(s.overlays, rowNum);
    var j := RowIndex(s.overlays, other);
    var j' := RowIndex(t.overlays, other);
    assert t.overlays[k].rowNum == rowNum;
    if other == rowNum {
      assert j' == k;
    } else if j < |s.overlays| {
      assert t.overlays[j] == s.overlays[j];
      assert j' == j;
    } else {
      assert j' == |t.overlays|;
    }
  }

  // The line the user should see, given what the frame shows.
  function LineOf(s: State, fb: Frame, rowNum: nat): (g: seq<Guess>)
    requires Shaped(s) && Fits(s, fb) && rowNum < s.height
    ensures |g| == s.width
  {
    Guesses(RowCells(s, rowNum, 0), ShownRow(fb, rowNum))
  }

  // Which epoch a missing row would be made under does not change what it shows.
  lemma EpochOfFreshRow(s: State, fb: Frame, rowNum: nat, epoch: nat)
    requires Shaped(s) && Fits(s, fb) && rowNum < s.height
    ensures LineOf(s, fb, rowNum) == Guesses(RowCells(s, rowNum, epoch), ShownRow(fb, rowNum))
    ensures forall i :: 0 <= i < s.width ==>
      RowCells(s, rowNum, 0)[i].base.active == RowCells(s, rowNum, epoch)[i].base.active
  {
  }

  // `t` is `s` with one row rewritten and the newest cursor moved to `col`.
  ghost predicate Edited(s: State, t: State, row: nat, cells: seq<CellOverlay>, col: nat)
    requires Shaped(s) && s.cursors != [] && row < s.height
  {
    && Shaped(t) && SameGeometry(t, s) && t.predictionEpoch == s.predictionEpoch
    && |t.cursors| == |s.cursors| && Last(t.cursors).row == Last(s.cursors).row && Last(t.cursors).col == col
    && Last(t.cursors).base.expiration == s.sent + 1
    && Last(t.cursors).base.tentativeUntil == Last(s.cursors).base.tentativeUntil
    && (forall k :: 0 <= k < |s.cursors| - 1 ==> t.cursors[k] == s.cursors[k])
    && t.confirmedEpoch == s.confirmedEpoch
    && forall other, e :: 0 <= other < s.height ==>
         RowCells(t, other, e) == if other == row then cells else RowCells(s, other, e)
  }

  // Rewriting a row and moving the newest cursor: what the state then says.
  lemma EditThenRead(s: State, row: nat, epoch: nat, cells: seq<CellOverlay>, col: nat, now: nat)
    requires Shaped(s) && s.cursors != [] && row < s.height && |cells| == s.width && ColumnsKept(cells) && col < s.width
    ensures Edited(s, MoveTo(PutRow(s, row, epoch, cells), col, now), row, cells, col)
  {
    var s1 := PutRow(s, row, epoch, cells);
    var t := MoveTo(s1, col, now);
    forall other, e: nat | 0 <= other < s.height
      ensures RowCells(t, other, e) == if other == row then cells else RowCells(s, other, e)
    {
      PutThenRead(s, row, epoch, cells, other, e);
      assert RowCells(t, other, e) == RowCells(s1, other, e);
    }
  }

  // A character typed now would be predicted, and would not wrap.
  predicate CanType(s: State, fb: Frame) {
    && Shaped(s) && Fits(s, fb) && s.cursors != [] && !s.overwrite
    && Last(s.cursors).row < s.height && Last(s.cursors).col + 1 < s.width
    && !UnsupportedRange(fb, Last(s.cursors).row, Last(s.cursors).col, s.width - 1)
  }

  predicate CanErase(s: State, fb: Frame) {
    && Shaped(s) && Fits(s, fb) && s.cursors != [] && !s.overwrite
    && Last(s.cursors).row < s.height && 0 < Last(s.cursors).col < s.width
    && !UnsupportedRange(fb, Last(s.cursors).row, Last(s.cursors).col - 1, s.width - 1)
  }

  function TypedRow(s: State, ch: char, fb: Frame, now: nat): (cells: seq<CellOverlay>)
    requires CanType(s, fb)
    ensures |cells| == s.width && ColumnsKept(cells)
  {
    var c := Last(s.cursors);
    InsertedRow(RowCells(s, c.row, s.predictionEpoch), ShownRow(fb, c.row), c.col, s.width - 1, ch,
                s.predictionEpoch, s.sent + 1, now)
  }

  function ErasedRow(s: State, fb: Frame, now: nat): (cells: seq<CellOverlay>)
    requires CanErase(s, fb)
    ensures |cells| == s.width && ColumnsKept(cells)
  {
    var c := Last(s.cursors);
    DeletedRow(RowCells(s, c.row, s.predictionEpoch), ShownRow(fb, c.row), c.col - 1,
               s.predictionEpoch, s.sent + 1, now)
  }

  // Typing before the last column rewrites the cursor's row and moves the cursor.
  lemma TypingRewrites(s: State, ch: char, fb: Frame, now: nat)
    requires CanType(s, fb)
    ensures Edited(s, PredictChar(s, ch, fb, now), Last(s.cursors).row, TypedRow(s, ch, fb, now), Last(s.cursors).col + 1)
  {
    var c, E := Last(s.cursors), s.predictionEpoch;
    var typed := TypedRow(s, ch, fb, now);
    hide InsertedRow, InsertedCell, PutRow, RowCells, MoveTo, UnsupportedRange, ShownRow;
    EditThenRead(s, c.row, E, typed, c.col + 1, now);
  }

  lemma ErasingRewrites(s: State, fb: Frame, now: nat)
    requires CanErase(s, fb)
    ensures Edited(s, BackspaceKey(s, fb, now), Last(s.cursors).row, ErasedRow(s, fb, now), Last(s.cursors).col - 1)
  {
    var c, E := Last(s.cursors), s.predictionEpoch;
    var erased := ErasedRow(s, fb, now);
    hide DeletedRow, DeletedCell, PutRow, RowCells, MoveTo, UnsupportedRange, ShownRow;
    EditThenRead(s, c.row, E, erased, c.col - 1, now);
  }

  // A character can be typed over one display and taken back over another one.
  predicate CanUndo(s: State, before: Frame, between: Frame) {
    && CanType(s, before) && Fits(s, between)
    && !UnsupportedRange(between, Last(s.cursors).row, Last(s.cursors).col, s.width - 1)
    && forall i :: 0 <= i < Last(s.cursors).col ==>
         CellAt(between, Last(s.cursors).row, i) == CellAt(before, Last(s.cursors).row, i)
  }

  lemma UndoneRow(s: State, ch: char, before: Frame, between: Frame, now: nat, later: nat)
    requires CanUndo(s, before, between)
    ensures CanErase(PredictChar(s, ch, before, now), between)
    ensures ErasedRow(PredictChar(s, ch, before, now), between, later)
      == DeletedRow(TypedRow(s, ch, before, now), ShownRow(between, Last(s.cursors).row), Last(s.cursors).col,
                    s.predictionEpoch, s.sent + 1, later)
  {
    hide PredictChar, UnsupportedRange, RowCells, InsertedRow, DeletedRow, ShownRow;
    TypingRewrites(s, ch, before, now);
  }

  lemma UndoneState(s: State, ch: char, before: Frame, between: Frame, now: nat, later: nat)
    requires CanUndo(s, before, between)
    ensures var s1 := PredictChar(s, ch, before, now);
            CanErase(s1, between) &&
            Edited(s, BackspaceKey(s1, between, later), Last(s.cursors).row, ErasedRow(s1, between, later), Last(s.cursors).col)
  {
    var s1 := PredictChar(s, ch, before, now);
    UndoneRow(s, ch, before, between, now, later);
    TypingRewrites(s, ch, before, now);
    ErasingRewrites(s1, between, later);
    hide PredictChar, BackspaceKey, UnsupportedRange, RowCells, TypedRow, ErasedRow, Shaped;
  }

  // `t`, seen over the display `between`, is `s`, seen over `before`, but for the last two
  // columns of the cursor's row.
  ghost predicate Restored(s: State, t: State, before: Frame, between: Frame)
    requires Shaped(s) && Fits(s, before) && s.cursors != [] && Last(s.cursors).row < s.height && 2 <= s.width
  {
    var c := Last(s.cursors);
    && Shaped(t) && Fits(t, between) && t.height == s.height && t.width == s.width
    && |t.cursors| == |s.cursors| && Last(t.cursors).row == c.row && Last(t.cursors).col == c.col
    && LineOf(t, between, c.row) == LineOf(s, before, c.row)[..s.width - 2] + [Unknown, Unknown]
    && forall other :: 0 <= other < s.height && other != c.row ==> RowCells(t, other, 0) == RowCells(s, other, 0)
  }

  lemma RestoredFrom(s: State, t: State, before: Frame, between: Frame, cells: seq<CellOverlay>)
    requires CanUndo(s, before, between) && |cells| == s.width
    requires Edited(s, t, Last(s.cursors).row, cells, Last(s.cursors).col)
    requires var row := Last(s.cursors).row;
             Guesses(cells, ShownRow(between, row)) == LineOf(s, before, row)[..s.width - 2] + [Unknown, Unknown]
    ensures Restored(s, t, before, between)
  {
    hide RowCells, UnsupportedRange, ShownRow, Guesses, RowsShaped, CursorsShaped;
    var row := Last(s.cursors).row;
    assert RowCells(t, row, 0) == cells;
  }

  lemma UndoneGuesses(s: State, ch: char, before: Frame, between: Frame, now: nat, later: nat)
    requires CanUndo(s, before, between)
    ensures var c := Last(s.cursors);
            var shown := ShownRow(between, c.row);
            Guesses(DeletedRow(TypedRow(s, ch, before, now), shown, c.col, s.predictionEpoch, s.sent + 1, later), shown)
            == LineOf(s, before, c.row)[..s.width - 2] + [Unknown, Unknown]
  {
    hide UnsupportedRange, RowCells, InsertedRow, DeletedRow, ShownRow, Guesses, LineOf;
    var c, E := Last(s.cursors), s.predictionEpoch;
    EpochOfFreshRow(s, before, c.row, E);
    UndoneLine(RowCells(s, c.row, E), ShownRow(before, c.row), ShownRow(between, c.row), c.col, ch, E, s.sent + 1, now, later);
  }

  // Taking a character back restores the cursor and the line, except that the last two
  // columns stay unknown. The display may have been repainted in between, since every
  // column from the cursor on is then covered by an overlay.
  lemma BackspaceUndoesTyping(s: State, ch: char, before: Frame, between: Frame, now: nat, later: nat)
    requires CanUndo(s, before, between)
    ensures Restored(s, BackspaceKey(PredictChar(s, ch, before, now), between, later), before, between)
  {
    var s1 := PredictChar(s, ch, before, now);
    UndoneState(s, ch, before, between, now, later);
    UndoneRow(s, ch, before, between, now, later);
    UndoneGuesses(s, ch, before, between, now, later);
    var cells := ErasedRow(s1, between, later);
    assert |cells| == s.width;
    hide PredictChar, BackspaceKey, ErasedRow, TypedRow, CanErase, CanUndo, Edited, Guesses, LineOf, DeletedRow, ShownRow, Restored;
    RestoredFrom(s, BackspaceKey(s1, between, later), before, between, cells);
  }

  lemma {:induction false} UndoneLine(cells: seq<CellOverlay>, shown: seq<Cell>, shown': seq<Cell>, col: nat, ch: char,
                                      epoch: nat, frame: nat, now: nat, later: nat)
    requires |cells| == |shown| == |shown'| && col + 1 < |cells|
    requires forall i :: 0 <= i < col ==> shown[i] == shown'[i]
    ensures Guesses(DeletedRow(InsertedRow(cells, shown, col, |cells| - 1, ch, epoch, frame, now), shown', col, epoch, frame, later), shown')
         == Guesses(cells, shown)[..|cells| - 2] + [Unknown, Unknown]
  {
    var typed := InsertedRow(cells, shown, col, |cells| - 1, ch, epoch, frame, now);
    hide DeletedCell, DeletedRow, InsertedCell, InsertedRow, Guesses, PenCell, GuessOf;
    Covered(cells, shown, shown', col, ch, epoch, frame, now);
    InsertSplices(cells, shown, col, ch, epoch, frame, now);
    DeleteSplices(typed, shown', col, epoch, frame, later);
    SpliceBack(Guesses(cells, shown), Known(CharCell(PenCell(cells, shown, col), ch)), col);
  }

  // From `col` on every column is covered, so the frame behind the overlays is irrelevant.
  lemma Covered(cells: seq<CellOverlay>, shown: seq<Cell>, shown': seq<Cell>, col: nat, ch: char,
                epoch: nat, frame: nat, now: nat)
    requires |cells| == |shown| == |shown'| && col < |cells|
    requires forall i :: 0 <= i < col ==> shown[i] == shown'[i]
    ensures var typed := InsertedRow(cells, shown, col, |cells| - 1, ch, epoch, frame, now);
            Guesses(typed, shown') == Guesses(typed, shown)
  {
    hide Guesses, PenCell;
  }

  // Taking out what was put in leaves all but the last two columns as they were.
  lemma SpliceBack(g: seq<Guess>, put: Guess, col: nat)
    requires col + 1 < |g|
    ensures var g1 := g[..col] + [put] + g[col..|g| - 2] + [Unknown];
            |g1| == |g| && g1[..col] + g1[col + 1..|g| - 1] + [Unknown, Unknown] == g[..|g| - 2] + [Unknown, Unknown]
  {
    var g1 := g[..col] + [put] + g[col..|g| - 2] + [Unknown];
    assert g1[..col] == g[..col];
    assert g1[col + 1..|g| - 1] == g[col..|g| - 2];
    assert g[..col] + g[col..|g| - 2] == g[..|g| - 2];
  }
}
