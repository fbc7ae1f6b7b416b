/**
 Terminal frames as the predictor sees them: dimensions, a cursor and a grid of
 cells. A cell keeps the parts of its twelve bytes that decide behaviour: the
 rendition bits, the two wide-character flags, and the content, whose length field
 distinguishes blank (0), inline text (1 to 4) and text parked in the overflow
 table (7).
 */
module Frames {
  datatype Style = Style(attributes: nat, underline: bool)

  datatype Glyph = Blank | Text(text: string) | Overflow

  datatype Cell = Cell(style: Style, wide: bool, spacer: bool, glyph: Glyph)

  // A grid position: its cell, the overflow text filed under it, and whether it
  // carries a hyperlink.
  datatype Slot = Slot(cell: Cell, parked: string, link: bool)

  datatype RawFrame = RawFrame(rows: nat, cols: nat, cursorRow: nat, cursorCol: nat, grid: seq<seq<Slot>>)
  {
    predicate Valid() {
      && cursorRow < rows
      && cursorCol < cols
      && |grid| == rows
      && forall r :: 0 <= r < rows ==> |grid[r]| == cols
    }
  }

  const ZERO_CELL := Cell(Style(0, false), false, false, Blank)
  const ZERO_SLOT := Slot(ZERO_CELL, "", false)

  // `Emulator::snapshot` clamps the cursor, so every published frame is valid.
  type Frame = f: RawFrame | f.Valid() witness RawFrame(1, 1, 0, 0, [[ZERO_SLOT]])

  function CellAt(fb: Frame, row: nat, col: nat): Cell {
    if row >= fb.rows || col >= fb.cols then ZERO_CELL else fb.grid[row][col].cell
  }

  function CellText(cell: Cell): string {
    if cell.spacer then ""
    else match cell.glyph
      case Blank => " "
      case Text(text) => text
      case Overflow => ""
  }

  // `FrameState::cell_content`: like `CellText`, but it looks into the overflow table.
  function ContentAt(fb: Frame, row: nat, col: nat): string
    requires row < fb.rows && col < fb.cols
  {
    SlotText(fb.grid[row][col])
  }

  function SlotText(slot: Slot): string {
    if slot.cell.glyph.Overflow? && !slot.cell.spacer then slot.parked else CellText(slot.cell)
  }

  predicate IsBlank(s: string) { s == "" || s == " " || s == "\U{00A0}" }

  predicate ContentsMatch(a: string, b: string) { (IsBlank(a) && IsBlank(b)) || a == b }

  // Content `ch` in the style of `src`; the wide-character flags are dropped.
  function CharCell(src: Cell, ch: char): Cell { Cell(src.style, false, false, Text([ch])) }

  function BlankCell(src: Cell): Cell { Cell(src.style, false, false, Blank) }

  function CopyRenditions(dst: Cell, src: Cell): Cell { dst.(style := src.style) }

  function WithSlot(fb: Frame, row: nat, col: nat, slot: Slot): (r: Frame)
    requires row < fb.rows && col < fb.cols
  {
    fb.(grid := fb.grid[row := fb.grid[row][col := slot]])
  }

  // Writing a cell also drops any overflow text filed under it.
  function Overwritten(slot: Slot, cell: Cell): Slot { slot.(cell := cell, parked := "") }

  function Underlined(slot: Slot): Slot {
    slot.(cell := slot.cell.(style := slot.cell.style.(underline := true)))
  }

  function SetCursor(fb: Frame, row: nat, col: nat): Frame
    requires row < fb.rows && col < fb.cols
  {
    fb.(cursorRow := row, cursorCol := col)
  }

  predicate Awkward(slot: Slot) { slot.cell.glyph.Overflow? || slot.link }

  // Some cell of the range cannot be moved faithfully.
  predicate UnsupportedRange(fb: Frame, row: nat, from: nat, to: nat) {
    row < fb.rows && from <= to &&
    exists c :: from <= c <= to && c < fb.cols && Awkward(fb.grid[row][c])
  }

  predicate RowHasLink(fb: Frame, row: nat) {
    row < fb.rows && exists c :: 0 <= c < fb.cols && fb.grid[row][c].link
  }

  // The cells of one row of the frame.
  function ShownRow(fb: Frame, row: nat): (cells: seq<Cell>)
    ensures |cells| == fb.cols
    ensures forall i :: 0 <= i < fb.cols ==> cells[i] == CellAt(fb, row, i)
  {
    seq(fb.cols, i requires 0 <= i < fb.cols => CellAt(fb, row, i))
  }
}
