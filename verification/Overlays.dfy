/**
 The speculative overlays: a cell or a cursor position, tagged with the epoch it was
 predicted in and the input frame at which it must be settled.
 */
module Overlays {
  import opened Frames

  // "No frame" and "no time": u64::MAX.
  const NONE: nat := 0xFFFF_FFFF_FFFF_FFFF

  datatype Validity = Pending | Correct | CorrectNoCredit | IncorrectOrExpired | Inactive

  datatype Base = Base(expiration: nat, col: nat, active: bool, tentativeUntil: nat, predictedAt: nat)
  {
    predicate Tentative(confirmedEpoch: nat) { tentativeUntil > confirmedEpoch }

    function Reset(): Base {
      Base(NONE, col, false, NONE, NONE)
    }

    function Expire(frame: nat, now: nat): Base { this.(expiration := frame, predictedAt := now) }
  }

  datatype CellOverlay = CellOverlay(base: Base, replacement: Cell, unknown: bool, originals: seq<string>)
  {
    function Reset(): CellOverlay { CellOverlay(base.Reset(), replacement, false, []) }

    function ResetWithOrig(): CellOverlay {
      if !base.active || unknown then Reset()
      else CellOverlay(base.Reset(), replacement, unknown, originals + [CellText(replacement)])
    }

    // The steps every prediction over a cell starts with: remember what was there,
    // then claim the cell for `epoch` until input `frame` is settled.
    function Claim(epoch: nat, frame: nat, now: nat, actual: Cell): (c: CellOverlay)
      ensures c.base == Base(frame, base.col, true, epoch, now) && c.replacement == replacement && !c.unknown
    {
      var c := ResetWithOrig();
      c.(base := c.base.(active := true, tentativeUntil := epoch).Expire(frame, now),
         originals := c.originals + [CellText(actual)])
    }

    // Take over what the neighbour shows: its overlay when active, else its frame cell.
    function TakeFrom(donor: CellOverlay, shown: Cell): (c: CellOverlay)
      ensures c.base == base
    {
      if donor.base.active then
        if donor.unknown then this.(unknown := true)
        else this.(unknown := false, replacement := donor.replacement)
      else this.(unknown := false, replacement := shown)
    }

    function Judge(fb: Frame, row: nat, lateAck: nat): Validity {
      if !base.active then Inactive
      else if row >= fb.rows || base.col >= fb.cols then IncorrectOrExpired
      else if lateAck < base.expiration then Pending
      else if unknown then CorrectNoCredit
      else
        var text := CellText(replacement);
        if IsBlank(text) then CorrectNoCredit
        else if !ContentsMatch(ContentAt(fb, row, base.col), text) then IncorrectOrExpired
        else if exists i :: 0 <= i < |originals| && ContentsMatch(originals[i], text) then CorrectNoCredit
        else Correct
    }

    // The prediction drawn over a grid position; only flagged cells are underlined, and
    // neither a blank over a blank nor an unknown last column is flagged.
    function Draw(slot: Slot, flag: bool, lastCol: bool): Slot {
      var flagged := flag && !(IsBlank(CellText(replacement)) && IsBlank(SlotText(slot)));
      if unknown then if flagged && !lastCol then Underlined(slot) else slot
      else if slot.cell == replacement then slot
      else if flagged then Underlined(Overwritten(slot, replacement))
      else Overwritten(slot, replacement)
    }

    function Paint(fb: Frame, confirmedEpoch: nat, row: nat, flag: bool): Frame {
      if !base.active || row >= fb.rows || base.col >= fb.cols || base.Tentative(confirmedEpoch) then fb
      else WithSlot(fb, row, base.col, Draw(fb.grid[row][base.col], flag, base.col == fb.cols - 1))
    }
  }

  datatype CursorOverlay = CursorOverlay(base: Base, row: nat, col: nat)
  {
    function Judge(fb: Frame, lateAck: nat): Validity {
      if !base.active then Inactive
      else if row >= fb.rows || col >= fb.cols then IncorrectOrExpired
      else if lateAck < base.expiration then Pending
      else if fb.cursorCol == col && fb.cursorRow == row then Correct
      else IncorrectOrExpired
    }

    function Paint(fb: Frame, confirmedEpoch: nat): Frame {
      if base.active && !base.Tentative(confirmedEpoch) && row < fb.rows && col < fb.cols
      then SetCursor(fb, row, col)
      else fb
    }
  }

  datatype Row = Row(rowNum: nat, cells: seq<CellOverlay>)

  function FreshCell(col: nat, epoch: nat): CellOverlay {
    CellOverlay(Base(0, col, false, epoch, NONE), ZERO_CELL, false, [])
  }

  function FreshRow(rowNum: nat, width: nat, epoch: nat): (row: Row)
    ensures row.rowNum == rowNum && |row.cells| == width
    ensures forall i :: 0 <= i < width ==> row.cells[i] == FreshCell(i, epoch)
  {
    Row(rowNum, seq(width, i requires 0 <= i < width => FreshCell(i, epoch)))
  }

  // Position of the row overlay for `rowNum`, or the number of rows when there is none.
  function RowIndex(overlays: seq<Row>, rowNum: nat): (k: nat)
    ensures k <= |overlays|
    ensures k < |overlays| ==> overlays[k].rowNum == rowNum
    ensures forall i :: 0 <= i < k ==> overlays[i].rowNum != rowNum
  {
    if overlays == [] then 0
    else if overlays[0].rowNum == rowNum then 0
    else 1 + RowIndex(overlays[1..], rowNum)
  }

  function WithRow(overlays: seq<Row>, rowNum: nat, width: nat, epoch: nat): (r: seq<Row>)
    ensures RowIndex(overlays, rowNum) < |r| && overlays <= r
    ensures r[RowIndex(overlays, rowNum)].rowNum == rowNum
  {
    if RowIndex(overlays, rowNum) < |overlays| then overlays
    else overlays + [FreshRow(rowNum, width, epoch)]
  }
}
