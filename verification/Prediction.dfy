/**
 What each predictor operation does to the predictor's state, as functions on a value.
 The class in `Predictor.dfy` is proved to compute exactly these.
 */
module Prediction {
  import opened Wrappers
  import opened Frames
  import opened Overlays

  const SRTT_TRIGGER_LOW := 20
  const SRTT_TRIGGER_HIGH := 30
  const FLAG_TRIGGER_LOW := 50
  const FLAG_TRIGGER_HIGH := 80
  const GLITCH_THRESHOLD := 250
  const GLITCH_REPAIR_COUNT := 10
  const GLITCH_REPAIR_MININTERVAL := 150
  const GLITCH_FLAG_THRESHOLD := 5000

  datatype Preference = Adaptive | Always | Never

  // What the escape-sequence parser makes of the typed bytes. `narrow` says that the
  // character is at least a space and one column wide.
  datatype Act = Print(ch: char, narrow: bool) | Backspace | CarriageReturn | Left | Right | Other

  datatype State = State(
    overlays: seq<Row>,
    cursors: seq<CursorOverlay>,
    sent: nat,
    lateAcked: nat,
    predictionEpoch: nat,
    confirmedEpoch: nat,
    flagging: bool,
    srttTrigger: bool,
    glitchTrigger: nat,
    lastQuickConfirmation: nat,
    sendInterval: nat,
    height: nat,
    width: nat,
    preference: Preference,
    overwrite: bool)

  const INITIAL := State([], [], 0, 0, 1, 0, false, false, 0, 0, 250, 0, 0, Adaptive, false)

  // ---------- shape ----------

  predicate RowShaped(row: Row, height: nat, width: nat) {
    && row.rowNum < height
    && |row.cells| == width
    && forall i :: 0 <= i < width ==> row.cells[i].base.col == i
  }

  predicate CursorShaped(c: CursorOverlay, height: nat, width: nat) {
    c.base.active && c.row < height && c.col < width
  }

  predicate RowsShaped(overlays: seq<Row>, height: nat, width: nat) {
    && (forall r :: 0 <= r < |overlays| ==> RowShaped(overlays[r], height, width))
    && (forall i, j :: 0 <= i < j < |overlays| ==> overlays[i].rowNum != overlays[j].rowNum)
  }

  predicate CursorsShaped(cursors: seq<CursorOverlay>, height: nat, width: nat) {
    forall k :: 0 <= k < |cursors| ==> CursorShaped(cursors[k], height, width)
  }

  // Row overlays are distinct, as wide as the screen, and their cells know their
  // columns; cursors are on the screen.
  predicate Shaped(s: State) {
    RowsShaped(s.overlays, s.height, s.width) && CursorsShaped(s.cursors, s.height, s.width)
  }

  predicate Fits(s: State, fb: Frame) { s.height == fb.rows && s.width == fb.cols }

  // What no prediction and no reconciliation touches.
  predicate SameSettings(a: State, b: State) {
    && a.sent == b.sent && a.lateAcked == b.lateAcked && a.sendInterval == b.sendInterval
    && a.preference == b.preference && a.overwrite == b.overwrite
  }

  predicate SameGeometry(a: State, b: State) {
    a.height == b.height && a.width == b.width && SameSettings(a, b)
  }

  // ---------- small operations ----------

  function BecomeTentative(s: State): State { s.(predictionEpoch := s.predictionEpoch + 1) }

  function Reset(s: State): (r: State)
    ensures Shaped(r) && SameGeometry(r, s)
  {
    BecomeTentative(s.(cursors := [], overlays := []))
  }

  predicate RowActive(row: Row) { exists i :: 0 <= i < |row.cells| && row.cells[i].base.active }

  predicate Active(s: State) {
    s.cursors != [] || exists r :: 0 <= r < |s.overlays| && RowActive(s.overlays[r])
  }

  function NewCursor(s: State, row: nat, col: nat): CursorOverlay {
    CursorOverlay(Base(s.sent + 1, col, true, s.predictionEpoch, NONE), row, col)
  }

  function Last(cursors: seq<CursorOverlay>): CursorOverlay
    requires cursors != []
  {
    cursors[|cursors| - 1]
  }

  function WithLast(cursors: seq<CursorOverlay>, c: CursorOverlay): (r: seq<CursorOverlay>)
    requires cursors != []
    ensures |r| == |cursors| && Last(r) == c
    ensures forall k :: 0 <= k < |cursors| - 1 ==> r[k] == cursors[k]
  {
    cursors[|cursors| - 1 := c]
  }

  // There is a cursor overlay of the current epoch; a new one starts where the newest
  // one is, or where the frame's cursor is.
  function InitCursor(s: State, fb: Frame): (r: State)
    requires Shaped(s) && Fits(s, fb)
    ensures Shaped(r) && SameGeometry(r, s) && r.cursors != []
  {
    if s.cursors == [] then
      s.(cursors := [NewCursor(s, fb.cursorRow, fb.cursorCol)])
    else if Last(s.cursors).base.tentativeUntil != s.predictionEpoch then
      var c := Last(s.cursors);
      s.(cursors := s.cursors + [NewCursor(s, c.row, c.col)])
    else s
  }

  // The newest cursor goes to `col` and is due with the message being typed.
  function MoveTo(s: State, col: nat, now: nat): (r: State)
    requires Shaped(s) && s.cursors != [] && col < s.width
    ensures Shaped(r) && SameGeometry(r, s) && r.cursors != []
  {
    var c := Last(s.cursors);
    s.(cursors := WithLast(s.cursors, c.(col := col, base := c.base.Expire(s.sent + 1, now))))
  }

  // ---------- typing ----------

  // Cell `i` of a row after `ch` was typed at `col`: cells up to `rightmost` move one to
  // the right, and nobody knows what the last column will hold.
  function InsertedCell(cells: seq<CellOverlay>, shown: seq<Cell>, col: nat, rightmost: nat, ch: char,
                        epoch: nat, frame: nat, now: nat, i: nat): (c: CellOverlay)
    requires |cells| == |shown| && col <= rightmost < |cells| && i < |cells|
    ensures c.base == if col <= i <= rightmost then Base(frame, cells[i].base.col, true, epoch, now) else cells[i].base
  {
    if i < col || rightmost < i then cells[i]
    else
      var claimed := cells[i].Claim(epoch, frame, now, shown[i]);
      if i == col then claimed.(replacement := CharCell(PenCell(cells, shown, col), ch))
      else if i == |cells| - 1 then claimed.(unknown := true)
      else claimed.TakeFrom(cells[i - 1], shown[i - 1])
  }

  // The rendition of a typed character: that of its left neighbour, or of the cell it
  // covers in the first column.
  function PenCell(cells: seq<CellOverlay>, shown: seq<Cell>, col: nat): Cell
    requires |cells| == |shown| && col < |cells|
  {
    if col == 0 then shown[0]
    else if cells[col - 1].base.active && !cells[col - 1].unknown then cells[col - 1].replacement
    else shown[col - 1]
  }

  function InsertedRow(cells: seq<CellOverlay>, shown: seq<Cell>, col: nat, rightmost: nat, ch: char,
                       epoch: nat, frame: nat, now: nat): (r: seq<CellOverlay>)
    requires |cells| == |shown| && col <= rightmost < |cells|
    ensures |r| == |cells|
    ensures forall i :: 0 <= i < |cells| ==>
      r[i] == InsertedCell(cells, shown, col, rightmost, ch, epoch, frame, now, i)
  {
    seq(|cells|, i requires 0 <= i < |cells| =>
      InsertedCell(cells, shown, col, rightmost, ch, epoch, frame, now, i))
  }

  // Cell `i` of a row after a backspace to `col`: cells move one to the left, and nobody
  // knows what arrives in the last two columns.
  function DeletedCell(cells: seq<CellOverlay>, shown: seq<Cell>, col: nat,
                       epoch: nat, frame: nat, now: nat, i: nat): (c: CellOverlay)
    requires |cells| == |shown| && i < |cells|
    ensures c.base == if col <= i then Base(frame, cells[i].base.col, true, epoch, now) else cells[i].base
  {
    if i < col then cells[i]
    else
      var claimed := cells[i].Claim(epoch, frame, now, shown[i]);
      if i + 2 < |cells| then claimed.TakeFrom(cells[i + 1], shown[i + 1])
      else claimed.(unknown := true)
  }

  function DeletedRow(cells: seq<CellOverlay>, shown: seq<Cell>, col: nat,
                      epoch: nat, frame: nat, now: nat): (r: seq<CellOverlay>)
    requires |cells| == |shown|
    ensures |r| == |cells|
    ensures forall i :: 0 <= i < |cells| ==>
      r[i] == DeletedCell(cells, shown, col, epoch, frame, now, i)
  {
    seq(|cells|, i requires 0 <= i < |cells| =>
      DeletedCell(cells, shown, col, epoch, frame, now, i))
  }

  function ErasedCell(cell: CellOverlay, shown: Cell, epoch: nat, frame: nat, now: nat): (c: CellOverlay)
    ensures c.base == Base(frame, cell.base.col, true, epoch, now)
  {
    cell.Claim(epoch, frame, now, shown).(replacement := BlankCell(shown))
  }

  function BlankedCell(cell: CellOverlay, epoch: nat, frame: nat, now: nat): (c: CellOverlay)
    ensures c.base == Base(frame, cell.base.col, true, epoch, now)
  {
    cell.(base := cell.base.(active := true, tentativeUntil := epoch).Expire(frame, now),
          replacement := BlankCell(cell.replacement))
  }

  function BlankedRow(cells: seq<CellOverlay>, epoch: nat, frame: nat, now: nat): (r: seq<CellOverlay>)
    ensures |r| == |cells|
    ensures forall i :: 0 <= i < |cells| ==> r[i] == BlankedCell(cells[i], epoch, frame, now)
  {
    seq(|cells|, i requires 0 <= i < |cells| => BlankedCell(cells[i], epoch, frame, now))
  }

  predicate ColumnsKept(cells: seq<CellOverlay>) {
    forall i :: 0 <= i < |cells| ==> cells[i].base.col == i
  }

  // The cells of the row overlay for `rowNum`, made on demand under `epoch`.
  function RowCells(s: State, rowNum: nat, epoch: nat): (cells: seq<CellOverlay>)
    requires Shaped(s) && rowNum < s.height
    ensures |cells| == s.width && ColumnsKept(cells)
  {
    var r := WithRow(s.overlays, rowNum, s.width, epoch)[RowIndex(s.overlays, rowNum)];
    assert RowShaped(r, s.height, s.width);
    r.cells
  }

  // Put `cells` in the row overlay for `rowNum`, made on demand.
  function PutRow(s: State, rowNum: nat, epoch: nat, cells: seq<CellOverlay>): (r: State)
    requires Shaped(s) && rowNum < s.height && |cells| == s.width && ColumnsKept(cells)
    ensures Shaped(r) && SameGeometry(r, s)
    ensures r == s.(overlays := r.overlays)
  {
    var k := RowIndex(s.overlays, rowNum);
    var row := Row(rowNum, cells);
    assert RowShaped(row, s.height, s.width);
    s.(overlays := if k < |s.overlays| then s.overlays[k := row] else s.overlays + [row])
  }

  function WithCells(s: State, pos: nat, cells: seq<CellOverlay>): (r: State)
    requires Shaped(s) && pos < |s.overlays| && |cells| == s.width && ColumnsKept(cells)
    ensures Shaped(r) && SameGeometry(r, s) && |r.overlays| == |s.overlays|
  {
    var row := s.overlays[pos].(cells := cells);
    assert RowShaped(row, s.height, s.width);
    s.(overlays := s.overlays[pos := row])
  }

  // The state after the cells of a row are rewritten because `ch` was typed at (row, col).
  // The row is made, if it has to be, under `rowEpoch`; the cells go to the current epoch.
  function TypeCells(s: State, row: nat, col: nat, rightmost: nat, ch: char, rowEpoch: nat, fb: Frame, now: nat): (r: State)
    requires Shaped(s) && Fits(s, fb) && row < s.height && col <= rightmost < s.width
    ensures Shaped(r) && SameGeometry(r, s) && r == s.(overlays := r.overlays)
  {
    var cells := RowCells(s, row, rowEpoch);
    PutRow(s, row, rowEpoch,
           InsertedRow(cells, ShownRow(fb, row), col, rightmost, ch, s.predictionEpoch, s.sent + 1, now))
  }

  function PredictChar(s: State, ch: char, fb: Frame, now: nat): (r: State)
    requires Shaped(s) && Fits(s, fb) && s.cursors != []
    ensures Shaped(r) && SameGeometry(r, s)
  {
    var c := Last(s.cursors);
    assert CursorShaped(c, s.height, s.width);
    var rightmost := if s.overwrite then c.col else s.width - 1;
    if UnsupportedRange(fb, c.row, c.col, rightmost) then BecomeTentative(s)
    else if c.col + 1 < s.width then
      MoveTo(TypeCells(s, c.row, c.col, rightmost, ch, s.predictionEpoch, fb, now), c.col + 1, now)
    else WrapChar(s, ch, fb, now)
  }

  // A character in the last column: nobody knows whether the line will wrap, so its cell
  // starts an epoch, and the jump to the next line another one.
  function WrapChar(s: State, ch: char, fb: Frame, now: nat): (r: State)
    requires Shaped(s) && Fits(s, fb) && s.cursors != [] && Last(s.cursors).col == s.width - 1
    ensures Shaped(r) && SameGeometry(r, s)
  {
    var c := Last(s.cursors);
    assert CursorShaped(c, s.height, s.width);
    var s1 := TypeCells(BecomeTentative(s), c.row, c.col, c.col, ch, s.predictionEpoch, fb, now);
    NewlineCarriageReturn(BecomeTentative(MoveTo(s1, c.col, now)), fb, now)
  }

  // The state after the cells of a row are rewritten because of a backspace to (row, col).
  function DeleteCells(s: State, row: nat, col: nat, fb: Frame, now: nat): (r: State)
    requires Shaped(s) && Fits(s, fb) && row < s.height && col < s.width
    ensures Shaped(r) && SameGeometry(r, s) && r == s.(overlays := r.overlays)
  {
    var cells, shown := RowCells(s, row, s.predictionEpoch), ShownRow(fb, row);
    PutRow(s, row, s.predictionEpoch,
           if s.overwrite then
             cells[col := ErasedCell(cells[col], shown[col], s.predictionEpoch, s.sent + 1, now)]
           else
             DeletedRow(cells, shown, col, s.predictionEpoch, s.sent + 1, now))
  }

  function BackspaceKey(s: State, fb: Frame, now: nat): (r: State)
    requires Shaped(s) && Fits(s, fb) && s.cursors != []
    ensures Shaped(r) && SameGeometry(r, s)
  {
    var c := Last(s.cursors);
    assert CursorShaped(c, s.height, s.width);
    if c.col == 0 then s
    else
      var col := c.col - 1;
      if UnsupportedRange(fb, c.row, col, if s.overwrite then col else s.width - 1) then BecomeTentative(s)
      else MoveTo(DeleteCells(s, c.row, col, fb, now), col, now)
  }

  // The bottom row scrolled away: blank all of it.
  function BlankRow(s: State, row: nat, now: nat): (r: State)
    requires Shaped(s) && row < s.height
    ensures Shaped(r) && SameGeometry(r, s) && r == s.(overlays := r.overlays)
  {
    PutRow(s, row, s.predictionEpoch,
           BlankedRow(RowCells(s, row, s.predictionEpoch), s.predictionEpoch, s.sent + 1, now))
  }

  // The newest cursor jumps to (row, 0); its deadline stays.
  function JumpTo(s: State, row: nat): (r: State)
    requires Shaped(s) && s.cursors != [] && row < s.height
    ensures Shaped(r) && SameGeometry(r, s) && r.cursors != []
  {
    assert CursorShaped(Last(s.cursors), s.height, s.width);
    s.(cursors := WithLast(s.cursors, Last(s.cursors).(row := row, col := 0)))
  }

  function NewlineCarriageReturn(s: State, fb: Frame, now: nat): (r: State)
    requires Shaped(s) && Fits(s, fb)
    ensures Shaped(r) && SameGeometry(r, s)
  {
    var s1 := InitCursor(s, fb);
    var row := Last(s1.cursors).row;
    assert CursorShaped(Last(s1.cursors), s.height, s.width);
    if row < s.height - 1 then JumpTo(s1, row + 1)
    else
      var s2 := JumpTo(s1, row);
      if RowHasLink(fb, row) then BecomeTentative(s2) else BlankRow(s2, row, now)
  }

  function CursorRight(s: State, now: nat): (r: State)
    requires Shaped(s) && s.cursors != []
    ensures Shaped(r) && SameGeometry(r, s)
  {
    var c := Last(s.cursors);
    if c.col < s.width - 1 then MoveTo(s, c.col + 1, now) else s
  }

  function CursorLeft(s: State, now: nat): (r: State)
    requires Shaped(s) && s.cursors != []
    ensures Shaped(r) && SameGeometry(r, s)
  {
    var c := Last(s.cursors);
    assert CursorShaped(c, s.height, s.width);
    if c.col > 0 then MoveTo(s, c.col - 1, now) else s
  }

  function DoAct(s: State, act: Act, fb: Frame, now: nat): (r: State)
    requires Shaped(s) && Fits(s, fb)
    ensures Shaped(r) && SameGeometry(r, s)
  {
    match act
    case Print(ch, narrow) =>
      var s1 := InitCursor(s, fb);
      if narrow then PredictChar(s1, ch, fb, now) else BecomeTentative(s1)
    case Backspace => BackspaceKey(InitCursor(s, fb), fb, now)
    case CarriageReturn => NewlineCarriageReturn(BecomeTentative(s), fb, now)
    case Right => CursorRight(InitCursor(s, fb), now)
    case Left => CursorLeft(InitCursor(s, fb), now)
    case Other => BecomeTentative(s)
  }

  function DoActs(s: State, acts: seq<Act>, fb: Frame, now: nat): (r: State)
    requires Shaped(s) && Fits(s, fb)
    ensures Shaped(r) && SameGeometry(r, s)
    decreases |acts|
  {
    if acts == [] then s else DoActs(DoAct(s, acts[0], fb, now), acts[1..], fb, now)
  }

  // One byte from the user, given as the acts the parser emits for it, typed over
  // whatever is on display.
  function NewUserByte(s: State, acts: seq<Act>, display: Frame, now: nat): (r: State)
    requires Shaped(s)
    ensures Shaped(r) && SameSettings(r, s)
  {
    if s.preference.Never? then s else DoActs(Cull(s, display, now), acts, display, now)
  }

  // ---------- reconciliation ----------

  function KeepCursors(cursors: seq<CursorOverlay>, keep: CursorOverlay -> bool): (r: seq<CursorOverlay>)
    ensures forall k :: 0 <= k < |r| ==> r[k] in cursors && keep(r[k])
    ensures cursors != [] && keep(Last(cursors)) ==> r != [] && Last(r) == Last(cursors)
  {
    if cursors == [] then []
    else
      var n := |cursors| - 1;
      var init := KeepCursors(cursors[..n], keep);
      if keep(cursors[n]) then init + [cursors[n]] else init
  }

  function KilledCell(cell: CellOverlay, past: nat): CellOverlay {
    if cell.base.Tentative(past) then cell.Reset() else cell
  }

  function KilledRow(row: Row, past: nat): (r: Row)
    ensures r.rowNum == row.rowNum && |r.cells| == |row.cells|
    ensures forall i :: 0 <= i < |row.cells| ==> r.cells[i] == KilledCell(row.cells[i], past)
  {
    row.(cells := seq(|row.cells|, i requires 0 <= i < |row.cells| => KilledCell(row.cells[i], past)))
  }

  function KilledRows(overlays: seq<Row>, past: nat): (r: seq<Row>)
    ensures |r| == |overlays|
    ensures forall k :: 0 <= k < |overlays| ==> r[k] == KilledRow(overlays[k], past)
  {
    seq(|overlays|, k requires 0 <= k < |overlays| => KilledRow(overlays[k], past))
  }

  // Forget everything predicted in `epoch` or later and restart from the frame's cursor.
  function KillEpoch(s: State, epoch: nat, fb: Frame): (r: State)
    requires Shaped(s) && Fits(s, fb)
    ensures Shaped(r) && SameGeometry(r, s) && |r.overlays| == |s.overlays|
  {
    var past := SaturatingSub(epoch, 1);
    var kept := KeepCursors(s.cursors, (c: CursorOverlay) => !c.base.Tentative(past));
    assert CursorsShaped(kept, s.height, s.width);
    BecomeTentative(s.(cursors := kept + [NewCursor(s, fb.cursorRow, fb.cursorCol)],
                       overlays := KilledRows(s.overlays, past)))
  }

  function Restyled(cells: seq<CellOverlay>, from: nat, src: Cell): (r: seq<CellOverlay>)
    ensures |r| == |cells|
    ensures forall i :: 0 <= i < |cells| ==>
      r[i] == if i < from then cells[i] else cells[i].(replacement := CopyRenditions(cells[i].replacement, src))
  {
    seq(|cells|, i requires 0 <= i < |cells| =>
      if i < from then cells[i] else cells[i].(replacement := CopyRenditions(cells[i].replacement, src)))
  }

  // Credit for a confirmed prediction: its epoch is now trusted, and a quick
  // confirmation repairs one glitch token, at most one per interval.
  function Credit(s: State, base: Base, now: nat): (r: State)
    ensures r.overlays == s.overlays && r.cursors == s.cursors
    ensures SameGeometry(r, s)
  {
    var s1 := if base.tentativeUntil > s.confirmedEpoch then s.(confirmedEpoch := base.tentativeUntil) else s;
    if SaturatingSub(now, base.predictedAt) < GLITCH_THRESHOLD && s.glitchTrigger > 0
       && SaturatingSub(now, s.lastQuickConfirmation) >= GLITCH_REPAIR_MININTERVAL
    then s1.(glitchTrigger := s.glitchTrigger - 1, lastQuickConfirmation := now)
    else s1
  }

  function GlitchAfterWait(glitch: nat, waited: nat): nat {
    if waited >= GLITCH_FLAG_THRESHOLD then 2 * GLITCH_REPAIR_COUNT
    else if waited >= GLITCH_THRESHOLD && glitch < GLITCH_REPAIR_COUNT then GLITCH_REPAIR_COUNT
    else glitch
  }

  datatype Progress = Continue(state: State) | Abandon(state: State)

  // Settle the overlay of one cell. A wrong prediction of a trusted epoch abandons
  // everything; a wrong tentative one takes its epoch with it.
  function CullCell(s: State, r: nat, i: nat, fb: Frame, now: nat): (p: Progress)
    requires Shaped(s) && Fits(s, fb) && r < |s.overlays| && i < s.width
    ensures Shaped(p.state) && SameGeometry(p.state, s)
    ensures p.Continue? ==> |p.state.overlays| == |s.overlays|
  {
    var row := s.overlays[r];
    var cell := row.cells[i];
    match cell.Judge(fb, row.rowNum, s.lateAcked)
    case IncorrectOrExpired =>
      if cell.base.Tentative(s.confirmedEpoch) then Continue(KillEpoch(s, cell.base.tentativeUntil, fb))
      else Abandon(Reset(s))
    case Correct =>
      var restyled := Restyled(row.cells, i, CellAt(fb, row.rowNum, cell.base.col));
      Continue(WithCells(Credit(s, cell.base, now), r, restyled[i := restyled[i].Reset()]))
    case CorrectNoCredit => Continue(WithCells(s, r, row.cells[i := cell.Reset()]))
    case Pending =>
      Continue(s.(glitchTrigger := GlitchAfterWait(s.glitchTrigger, SaturatingSub(now, cell.base.predictedAt))))
    case Inactive => Continue(s)
  }

  // Settle the cells from position (r, i) on, row by row.
  function CullFrom(s: State, r: nat, i: nat, fb: Frame, now: nat): (p: Progress)
    requires Shaped(s) && Fits(s, fb) && r <= |s.overlays| && i <= s.width
    ensures Shaped(p.state) && SameGeometry(p.state, s)
    decreases |s.overlays| - r, s.width - i
  {
    if r == |s.overlays| then Continue(s)
    else if i == s.width then CullFrom(s, r + 1, 0, fb, now)
    else
      var p := CullCell(s, r, i, fb, now);
      if p.Abandon? then p else CullFrom(p.state, r, i + 1, fb, now)
  }

  function Resized(s: State, fb: Frame): (r: State)
    requires Shaped(s)
    ensures Shaped(r) && Fits(r, fb) && SameSettings(r, s)
  {
    if s.height != fb.rows || s.width != fb.cols then Reset(s.(height := fb.rows, width := fb.cols, cursors := [], overlays := []))
    else s
  }

  // Display triggers follow the link speed with hysteresis.
  function Triggered(s: State): (r: State)
    ensures r.overlays == s.overlays && r.cursors == s.cursors && SameGeometry(r, s)
  {
    var srtt := if s.sendInterval > SRTT_TRIGGER_HIGH then true
                else if s.srttTrigger && s.sendInterval <= SRTT_TRIGGER_LOW && !Active(s) then false
                else s.srttTrigger;
    var flagging := if s.sendInterval > FLAG_TRIGGER_HIGH then true
                    else if s.sendInterval <= FLAG_TRIGGER_LOW then false
                    else s.flagging;
    s.(srttTrigger := srtt, flagging := flagging || s.glitchTrigger > GLITCH_REPAIR_COUNT)
  }

  function CullCursors(s: State, fb: Frame): (r: State)
    requires Shaped(s) && Fits(s, fb)
    ensures Shaped(r) && SameGeometry(r, s)
  {
    if s.cursors != [] && Last(s.cursors).Judge(fb, s.lateAcked).IncorrectOrExpired? then Reset(s)
    else
      var kept := KeepCursors(s.cursors, (c: CursorOverlay) => c.Judge(fb, s.lateAcked).Pending?);
      assert CursorsShaped(kept, s.height, s.width);
      s.(cursors := kept)
  }

  // Reconcile every overlay with a frame.
  function Cull(s: State, fb: Frame, now: nat): (r: State)
    requires Shaped(s)
    ensures Shaped(r) && SameSettings(r, s)
    ensures !s.preference.Never? ==> Fits(r, fb)
  {
    if s.preference.Never? then s
    else
      var p := CullFrom(Triggered(Resized(s, fb)), 0, 0, fb, now);
      if p.Abandon? then p.state else CullCursors(p.state, fb)
  }

  // ---------- display ----------

  predicate Showing(s: State) {
    !s.preference.Never? && (s.srttTrigger || s.glitchTrigger > 0 || s.preference.Always?)
  }

  function PaintCursors(cursors: seq<CursorOverlay>, confirmed: nat, fb: Frame): Frame {
    if cursors == [] then fb else PaintCursors(cursors[1..], confirmed, cursors[0].Paint(fb, confirmed))
  }

  function PaintCells(cells: seq<CellOverlay>, rowNum: nat, confirmed: nat, flag: bool, fb: Frame): Frame {
    if cells == [] then fb
    else PaintCells(cells[1..], rowNum, confirmed, flag, cells[0].Paint(fb, confirmed, rowNum, flag))
  }

  function PaintRows(overlays: seq<Row>, confirmed: nat, flag: bool, fb: Frame): Frame {
    if overlays == [] then fb
    else PaintRows(overlays[1..], confirmed, flag,
                   PaintCells(overlays[0].cells, overlays[0].rowNum, confirmed, flag, fb))
  }

  function Apply(s: State, fb: Frame): Frame {
    if !Showing(s) then fb
    else PaintRows(s.overlays, s.confirmedEpoch, s.flagging, PaintCursors(s.cursors, s.confirmedEpoch, fb))
  }
}
