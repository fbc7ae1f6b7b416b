/**
 The QS2 screen format. The decoder walks a cursor over the payload and refuses whatever is
 out of range, cut short or followed by more; the encoder writes lengths of at most 16 bits
 for text and cuts longer text off.
 */
module ScreenCodec {
  import opened Wrappers
  import opened Bytes
  import opened Utf8
  import S = ClientState

  const MAX_AXIS := 512
  const CELL_SIZE := 12
  const MAX_SCREEN_RAW := 8 * 1024 * 1024
  // "QS2" and a zero byte.
  const SCREEN_MAGIC: Bytes := [0x51, 0x53, 0x32, 0]
  const U16_MAX := 0xFFFF

  datatype Header = Header(version: nat, echoAck: nat, rows: nat, cols: nat, cursorRow: nat, cursorCol: nat, mode: nat)

  datatype RawScreen = RawScreen(head: Header, title: Bytes, cells: Bytes, overflow: map<nat, Bytes>)

  datatype Error = Truncated | Magic | Invalid | Lz4 | TooLarge

  datatype Result<+T> = Ok(value: T) | Err(error: Error)
  {
    predicate IsFailure() { Err? }

    function PropagateFailure<U>(): Result<U>
      requires Err?
    {
      Err(error)
    }

    function Extract(): T
      requires Ok?
    {
      value
    }
  }

  // Reading text replaces what is not UTF-8; text that is stays as it is.
  type Lossy = Bytes -> Bytes

  ghost predicate Faithful(lossy: Lossy) { forall b :: ValidUtf8(b) ==> lossy(b) == b }

  // ---------- pieces ----------

  // Something read, and the bytes behind it.
  datatype Parsed<+T> = Parsed(value: T, rest: Bytes)

  function Read(buf: Bytes, n: nat): (r: Result<Parsed<Bytes>>)
    ensures r.Ok? <==> n <= |buf|
    ensures r.Ok? ==> |r.value.value| == n && buf == r.value.value + r.value.rest
    ensures r.Err? ==> r.error == Truncated
  {
    if |buf| < n then Err(Truncated) else Ok(Parsed(buf[..n], buf[n..]))
  }

  function ReadNum(buf: Bytes, width: nat): Result<Parsed<nat>> {
    var b :- Read(buf, width);
    Ok(Parsed(FromLe(b.value), b.rest))
  }

  function ReadNums(buf: Bytes, widths: seq<nat>): (r: Result<Parsed<seq<nat>>>)
    ensures r.Ok? ==> |r.value.value| == |widths|
    decreases |widths|
  {
    if widths == [] then Ok(Parsed([], buf))
    else
      var n :- ReadNum(buf, widths[0]);
      var more :- ReadNums(n.rest, widths[1..]);
      Ok(Parsed([n.value] + more.value, more.rest))
  }

  function WriteNums(ns: seq<nat>, widths: seq<nat>): Bytes
    requires |ns| == |widths|
    decreases |ns|
  {
    if ns == [] then [] else ToLe(ns[0], widths[0]) + WriteNums(ns[1..], widths[1..])
  }

  // A text behind its length in two bytes; longer text is cut off.
  function Cut(text: Bytes): (r: Bytes)
    ensures |r| <= U16_MAX && r <= text
  {
    if |text| <= U16_MAX then text else text[..U16_MAX]
  }

  function WriteText(text: Bytes): Bytes { ToLe(|Cut(text)|, 2) + Cut(text) }

  function ReadText(buf: Bytes): Result<Parsed<Bytes>> {
    var n :- ReadNum(buf, 2);
    Read(n.rest, n.value)
  }

  // ---------- encoding ----------

  // version, echo_ack, rows, cols, cursor row, cursor column, mode
  const WIDTHS: seq<nat> := [8, 8, 2, 2, 2, 2, 2]

  function AsNums(h: Header): seq<nat> { [h.version, h.echoAck, h.rows, h.cols, h.cursorRow, h.cursorCol, h.mode] }

  function OfNums(ns: seq<nat>): Header
    requires |ns| == 7
  {
    Header(ns[0], ns[1], ns[2], ns[3], ns[4], ns[5], ns[6])
  }

  // Overflow texts, in the order the table is walked.
  function WriteOverflow(overflow: map<nat, Bytes>, order: seq<nat>): Bytes
    requires forall k <- order :: k in overflow
    decreases |order|
  {
    if order == [] then []
    else ToLe(order[0], 4) + WriteText(overflow[order[0]]) + WriteOverflow(overflow, order[1..])
  }

  // The keys of the table, each once.
  predicate Walks(order: seq<nat>, overflow: map<nat, Bytes>) {
    && (forall k <- order :: k in overflow)
    && (forall k <- overflow :: k in order)
    && (forall i, j :: 0 <= i < j < |order| ==> order[i] != order[j])
  }

  function EncodeRaw(s: RawScreen, order: seq<nat>): Bytes
    requires Walks(order, s.overflow)
  {
    SCREEN_MAGIC + (WriteNums(AsNums(s.head), WIDTHS) + (WriteText(s.title)
      + (ToLe(|s.cells|, 4) + (s.cells + (ToLe(|order|, 4) + WriteOverflow(s.overflow, order))))))
  }

  // ---------- decoding ----------

  function CellCount(h: Header): nat { h.rows * h.cols }

  function CheckHeader(h: Header, maxCells: nat): Option<Error> {
    if CellCount(h) > maxCells then Some(TooLarge)
    else if h.rows > MAX_AXIS || h.cols > MAX_AXIS then Some(TooLarge)
    else if h.cursorRow > h.rows || h.cursorCol > h.cols then Some(Invalid)
    else None
  }

  function ReadHeader(buf: Bytes, maxCells: nat): Result<Parsed<Header>> {
    var m :- Read(buf, 4);
    if m.value != SCREEN_MAGIC then Err(Magic)
    else
      var ns :- ReadNums(m.rest, WIDTHS);
      var h := OfNums(ns.value);
      if CheckHeader(h, maxCells).Some? then Err(CheckHeader(h, maxCells).value) else Ok(Parsed(h, ns.rest))
  }

  function ReadCells(buf: Bytes, wanted: nat): Result<Parsed<Bytes>> {
    var n :- ReadNum(buf, 4);
    if n.value != wanted then Err(Invalid) else Read(n.rest, n.value)
  }

  datatype Entry = Entry(key: nat, text: Bytes)

  function ReadEntry(buf: Bytes, cells: nat): Result<Parsed<Entry>> {
    var k :- ReadNum(buf, 4);
    if k.value >= cells then Err(Invalid)
    else
      var t :- ReadText(k.rest);
      Ok(Parsed(Entry(k.value, t.value), t.rest))
  }

  function ReadEntries(buf: Bytes, count: nat, cells: nat): Result<Parsed<seq<Entry>>>
    decreases count
  {
    if count == 0 then Ok(Parsed([], buf))
    else
      var e :- ReadEntry(buf, cells);
      var more :- ReadEntries(e.rest, count - 1, cells);
      Ok(Parsed([e.value] + more.value, more.rest))
  }

  // Later entries replace earlier ones with the same key.
  function TableOf(entries: seq<Entry>, lossy: Lossy): map<nat, Bytes>
    decreases |entries|
  {
    if entries == [] then map[]
    else
      var last := entries[|entries| - 1];
      TableOf(entries[..|entries| - 1], lossy)[last.key := lossy(last.text)]
  }

  function ReadOverflow(buf: Bytes, cells: nat): Result<Parsed<seq<Entry>>> {
    var n :- ReadNum(buf, 4);
    if n.value > cells then Err(TooLarge) else ReadEntries(n.rest, n.value, cells)
  }

  // The parts behind the header.
  function ReadParts(h: Header, buf: Bytes, lossy: Lossy): Result<Parsed<RawScreen>> {
    var t :- ReadText(buf);
    var c :- ReadCells(t.rest, CellCount(h) * CELL_SIZE);
    var o :- ReadOverflow(c.rest, CellCount(h));
    Ok(Parsed(RawScreen(h, lossy(t.value), c.value, TableOf(o.value, lossy)), o.rest))
  }

  // A screen off the front of a buffer.
  function ReadScreen(buf: Bytes, maxCells: nat, lossy: Lossy): Result<Parsed<RawScreen>> {
    var h :- ReadHeader(buf, maxCells);
    ReadParts(h.value, h.rest, lossy)
  }

  function DecodeRaw(buf: Bytes, maxCells: nat, lossy: Lossy): Result<RawScreen> {
    var s :- ReadScreen(buf, maxCells, lossy);
    if s.rest != [] then Err(Invalid) else Ok(s.value)
  }

  // ---------- what was written is read back ----------

  lemma NumBack(n: nat, width: nat, rest: Bytes)
    requires FitsIn(n, width)
    ensures ReadNum(ToLe(n, width) + rest, width) == Ok(Parsed(n, rest))
  {
    LeRoundTrip(n, width);
    ReadBack(ToLe(n, width), rest);
  }

  lemma ReadBack(text: Bytes, rest: Bytes)
    ensures Read(text + rest, |text|) == Ok(Parsed(text, rest))
  {
    assert (text + rest)[..|text|] == text && (text + rest)[|text|..] == rest;
  }

  predicate AllFit(ns: seq<nat>, widths: seq<nat>)
    requires |ns| == |widths|
  {
    forall k :: 0 <= k < |ns| ==> FitsIn(ns[k], widths[k])
  }

  lemma NumsStep(buf: Bytes, widths: seq<nat>, n: nat, more: Bytes, ns: seq<nat>, rest: Bytes)
    requires widths != [] && ReadNum(buf, widths[0]) == Ok(Parsed(n, more))
    requires ReadNums(more, widths[1..]) == Ok(Parsed(ns, rest))
    ensures ReadNums(buf, widths) == Ok(Parsed([n] + ns, rest))
  {
    hide ReadNum;
  }

  lemma {:induction false} NumsBack(ns: seq<nat>, widths: seq<nat>, rest: Bytes)
    requires |ns| == |widths| && AllFit(ns, widths)
    ensures ReadNums(WriteNums(ns, widths) + rest, widths) == Ok(Parsed(ns, rest))
    decreases |ns|
  {
    if ns == [] {
      assert WriteNums(ns, widths) + rest == rest;
    } else {
      var more := WriteNums(ns[1..], widths[1..]) + rest;
      assert WriteNums(ns, widths) + rest == ToLe(ns[0], widths[0]) + more;
      NumBack(ns[0], widths[0], more);
      NumsBack(ns[1..], widths[1..], rest);
      NumsStep(WriteNums(ns, widths) + rest, widths, ns[0], more, ns[1..], rest);
      assert ns == [ns[0]] + ns[1..];
      hide ReadNum, ReadNums, WriteNums, ToLe, FitsIn;
    }
  }

  lemma TextBack(text: Bytes, rest: Bytes)
    ensures ReadText(WriteText(text) + rest) == Ok(Parsed(Cut(text), rest))
  {
    var t := Cut(text);
    FitsTwo(|t|);
    assert WriteText(text) + rest == ToLe(|t|, 2) + (t + rest);
    NumBack(|t|, 2, t + rest);
    ReadBack(t, rest);
  }

  // The entries of a table as they are sent.
  function Sent(overflow: map<nat, Bytes>, order: seq<nat>): (r: seq<Entry>)
    requires forall k <- order :: k in overflow
    ensures |r| == |order| && forall i :: 0 <= i < |order| ==> r[i] == Entry(order[i], Cut(overflow[order[i]]))
  {
    seq(|order|, i requires 0 <= i < |order| => Entry(order[i], Cut(overflow[order[i]])))
  }

  lemma EntryBack(k: nat, text: Bytes, cells: nat, rest: Bytes)
    requires k < cells < 0x1_0000_0000
    ensures ReadEntry(ToLe(k, 4) + (WriteText(text) + rest), cells) == Ok(Parsed(Entry(k, Cut(text)), rest))
  {
    FitsFour(k);
    NumBack(k, 4, WriteText(text) + rest);
    TextBack(text, rest);
  }

  lemma EntriesStep(buf: Bytes, count: nat, cells: nat, e: Entry, more: Bytes, es: seq<Entry>, rest: Bytes)
    requires count > 0 && ReadEntry(buf, cells) == Ok(Parsed(e, more))
    requires ReadEntries(more, count - 1, cells) == Ok(Parsed(es, rest))
    ensures ReadEntries(buf, count, cells) == Ok(Parsed([e] + es, rest))
  {
    hide ReadEntry;
  }

  lemma {:induction false} EntriesBack(overflow: map<nat, Bytes>, order: seq<nat>, cells: nat, rest: Bytes)
    requires forall k <- order :: k in overflow && k < cells
    requires cells < 0x1_0000_0000
    ensures ReadEntries(WriteOverflow(overflow, order) + rest, |order|, cells) == Ok(Parsed(Sent(overflow, order), rest))
    decreases |order|
  {
    if order == [] {
      assert WriteOverflow(overflow, order) + rest == rest;
    } else {
      var k, more := order[0], WriteOverflow(overflow, order[1..]) + rest;
      var buf := WriteOverflow(overflow, order) + rest;
      OverflowStep(overflow, order, rest);
      SentStep(overflow, order);
      EntryBack(k, overflow[k], cells, more);
      hide ReadEntry, ReadEntries, WriteText, WriteOverflow, ToLe, Cut, Sent;
      EntriesBack(overflow, order[1..], cells, rest);
      EntriesStep(buf, |order|, cells, Entry(k, Cut(overflow[k])), more, Sent(overflow, order[1..]), rest);
    }
  }

  lemma OverflowStep(overflow: map<nat, Bytes>, order: seq<nat>, rest: Bytes)
    requires order != [] && forall k <- order :: k in overflow
    ensures var k, more := order[0], WriteOverflow(overflow, order[1..]) + rest;
            WriteOverflow(overflow, order) + rest == ToLe(k, 4) + (WriteText(overflow[k]) + more)
  {
    Assoc4(ToLe(order[0], 4), WriteText(overflow[order[0]]), WriteOverflow(overflow, order[1..]), rest);
    hide ToLe, WriteText;
  }

  lemma SentStep(overflow: map<nat, Bytes>, order: seq<nat>)
    requires order != [] && forall k <- order :: k in overflow
    ensures Sent(overflow, order) == [Entry(order[0], Cut(overflow[order[0]]))] + Sent(overflow, order[1..])
  {
    hide Cut;
  }

  lemma TableStep(overflow: map<nat, Bytes>, order: seq<nat>, lossy: Lossy)
    requires order != [] && forall k <- order :: k in overflow
    ensures var init, last := order[..|order| - 1], order[|order| - 1];
            TableOf(Sent(overflow, order), lossy) == TableOf(Sent(overflow, init), lossy)[last := lossy(Cut(overflow[last]))]
  {
    assert Sent(overflow, order)[..|order| - 1] == Sent(overflow, order[..|order| - 1]);
  }

  // Keys sent once each keep the texts sent with them.
  lemma {:induction false} TableOfSent(overflow: map<nat, Bytes>, order: seq<nat>, lossy: Lossy)
    requires forall k <- order :: k in overflow
    requires forall i, j :: 0 <= i < j < |order| ==> order[i] != order[j]
    ensures var r := TableOf(Sent(overflow, order), lossy);
            && (forall k <- r :: k in order)
            && (forall k <- order :: k in r && r[k] == lossy(Cut(overflow[k])))
    decreases |order|
  {
    if order != [] {
      var init, last := order[..|order| - 1], order[|order| - 1];
      assert order == init + [last];
      TableStep(overflow, order, lossy);
      TableOfSent(overflow, init, lossy);
      hide TableOf, Sent, Cut;
    }
  }

  // A screen whose header and keys are in range.
  predicate Encodable(s: RawScreen, maxCells: nat) {
    && s.head.version < 0x1_0000_0000_0000_0000 && s.head.echoAck < 0x1_0000_0000_0000_0000
    && s.head.mode < 0x1_0000
    && CheckHeader(s.head, maxCells).None?
    && |s.cells| == CellCount(s.head) * CELL_SIZE
    && (forall k <- s.overflow :: k < CellCount(s.head))
  }

  // What arrives of a screen: its texts cut to 16 bits of length and made UTF-8.
  function Clipped(s: RawScreen, lossy: Lossy): RawScreen {
    s.(title := lossy(Cut(s.title)), overflow := map k | k in s.overflow :: lossy(Cut(s.overflow[k])))
  }

  predicate ShortTexts(s: RawScreen) {
    && |s.title| <= U16_MAX && ValidUtf8(s.title)
    && forall k <- s.overflow :: |s.overflow[k]| <= U16_MAX && ValidUtf8(s.overflow[k])
  }

  lemma ClippedIsSame(s: RawScreen, lossy: Lossy)
    requires Faithful(lossy) && ShortTexts(s)
    ensures Clipped(s, lossy) == s
  {
    assert Clipped(s, lossy).overflow == s.overflow;
  }

  lemma HeaderFits(s: RawScreen, maxCells: nat)
    requires Encodable(s, maxCells)
    ensures AllFit(AsNums(s.head), WIDTHS)
    ensures FitsIn(|s.cells|, 4) && CellCount(s.head) < 0x1_0000_0000
  {
    var h := s.head;
    FitsEight(h.version);
    FitsEight(h.echoAck);
    FitsTwo(h.rows);
    FitsTwo(h.cols);
    FitsTwo(h.cursorRow);
    FitsTwo(h.cursorCol);
    FitsTwo(h.mode);
    CellBound(h.rows, h.cols);
    FitsFour(|s.cells|);
  }

  lemma CellBound(rows: nat, cols: nat)
    requires rows <= MAX_AXIS && cols <= MAX_AXIS
    ensures rows * cols <= MAX_AXIS * MAX_AXIS
  {
    MulMonotone(rows, cols, MAX_AXIS);
    MulMonotone(MAX_AXIS, rows, MAX_AXIS);
  }

  lemma MulMonotone(a: nat, b: nat, c: nat)
    requires b <= c
    ensures a * b <= a * c
  {
  }

  lemma HeaderBack(s: RawScreen, maxCells: nat, rest: Bytes)
    requires Encodable(s, maxCells)
    ensures ReadHeader(SCREEN_MAGIC + (WriteNums(AsNums(s.head), WIDTHS) + rest), maxCells) == Ok(Parsed(s.head, rest))
  {
    HeaderFits(s, maxCells);
    ReadBack(SCREEN_MAGIC, WriteNums(AsNums(s.head), WIDTHS) + rest);
    NumsBack(AsNums(s.head), WIDTHS, rest);
    assert OfNums(AsNums(s.head)) == s.head;
    hide ReadNums, WriteNums, CheckHeader;
  }

  function Keys(order: seq<nat>): set<nat> { set k | k in order }

  lemma KeysBounded(order: seq<nat>, cells: nat)
    requires forall k <- order :: k < cells
    requires forall i, j :: 0 <= i < j < |order| ==> order[i] != order[j]
    ensures |order| <= cells
  {
    Distinct(order);
    Below(Keys(order), cells);
  }

  lemma {:induction false} Distinct(order: seq<nat>)
    requires forall i, j :: 0 <= i < j < |order| ==> order[i] != order[j]
    ensures |Keys(order)| == |order|
  {
    if order != [] {
      var init, last := order[..|order| - 1], order[|order| - 1];
      Distinct(init);
      assert order == init + [last];
      assert Keys(order) == Keys(init) + {last};
      assert last !in Keys(init);
    }
  }

  lemma {:induction false} Below(keys: set<nat>, n: nat)
    requires forall k <- keys :: k < n
    ensures |keys| <= n
  {
    if n == 0 {
      assert keys == {};
    } else {
      Below(keys - {n - 1}, n - 1);
      if n - 1 in keys { assert keys == (keys - {n - 1}) + {n - 1}; } else { assert keys == keys - {n - 1}; }
    }
  }

  lemma TableBack(s: RawScreen, order: seq<nat>, lossy: Lossy)
    requires Walks(order, s.overflow)
    ensures TableOf(Sent(s.overflow, order), lossy) == Clipped(s, lossy).overflow
  {
    TableOfSent(s.overflow, order, lossy);
  }

  lemma OverflowBack(s: RawScreen, order: seq<nat>, rest: Bytes)
    requires Walks(order, s.overflow) && CellCount(s.head) < 0x1_0000_0000
    requires forall k <- s.overflow :: k < CellCount(s.head)
    ensures ReadOverflow(ToLe(|order|, 4) + (WriteOverflow(s.overflow, order) + rest), CellCount(s.head))
         == Ok(Parsed(Sent(s.overflow, order), rest))
  {
    hide CellCount, WriteOverflow, ReadEntries, ReadNum, ToLe;
    KeysBounded(order, CellCount(s.head));
    FitsFour(|order|);
    NumBack(|order|, 4, WriteOverflow(s.overflow, order) + rest);
    EntriesBack(s.overflow, order, CellCount(s.head), rest);
  }

  lemma CellsBack(cells: Bytes, rest: Bytes)
    requires FitsIn(|cells|, 4)
    ensures ReadCells(ToLe(|cells|, 4) + (cells + rest), |cells|) == Ok(Parsed(cells, rest))
  {
    NumBack(|cells|, 4, cells + rest);
    ReadBack(cells, rest);
  }

  // Round trip: every screen in range comes back as it went, its texts cut to 16 bits of
  // length; a screen with short UTF-8 texts comes back unchanged.
  lemma RoundTrip(s: RawScreen, order: seq<nat>, maxCells: nat, lossy: Lossy)
    requires Encodable(s, maxCells) && Walks(order, s.overflow)
    ensures DecodeRaw(EncodeRaw(s, order), maxCells, lossy) == Ok(Clipped(s, lossy))
    ensures Faithful(lossy) && ShortTexts(s) ==> DecodeRaw(EncodeRaw(s, order), maxCells, lossy) == Ok(s)
  {
    var table := ToLe(|order|, 4) + WriteOverflow(s.overflow, order);
    var cells := ToLe(|s.cells|, 4) + (s.cells + table);
    HeaderFits(s, maxCells);
    HeaderBack(s, maxCells, WriteText(s.title) + cells);
    TextBack(s.title, cells);
    CellsBack(s.cells, table);
    OverflowBack(s, order, []);
    TableBack(s, order, lossy);
    assert WriteOverflow(s.overflow, order) + [] == WriteOverflow(s.overflow, order);
    if Faithful(lossy) && ShortTexts(s) { ClippedIsSame(s, lossy); }
    hide ReadHeader, ReadText, ReadCells, ReadOverflow, WriteNums, WriteText, WriteOverflow, CheckHeader, Encodable, TableOf;
  }

  predicate Ascii(text: Bytes) { forall k :: 0 <= k < |text| ==> text[k] < 0x80 }

  lemma {:induction false} AsciiIsUtf8(text: Bytes)
    requires Ascii(text)
    ensures ValidUtf8(text)
    decreases |text|
  {
    if text != [] { AsciiIsUtf8(text[1..]); }
  }

  // The limit is real: a plain title comes back as it went exactly when it is short enough.
  lemma AsciiTitleExact(s: RawScreen, order: seq<nat>, maxCells: nat, lossy: Lossy)
    requires Encodable(s, maxCells) && Walks(order, s.overflow) && Faithful(lossy) && Ascii(s.title)
    requires forall k <- s.overflow :: |s.overflow[k]| <= U16_MAX && ValidUtf8(s.overflow[k])
    ensures DecodeRaw(EncodeRaw(s, order), maxCells, lossy) == Ok(s) <==> |s.title| <= U16_MAX
  {
    hide DecodeRaw, EncodeRaw, Encodable, Walks;
    RoundTrip(s, order, maxCells, lossy);
    AsciiIsUtf8(s.title);
    AsciiIsUtf8(Cut(s.title));
    assert lossy(Cut(s.title)) == Cut(s.title);
  }

  // ---------- nothing short and nothing long is accepted ----------

  lemma ReadExtends(buf: Bytes, n: nat, more: Bytes)
    requires n <= |buf|
    ensures Read(buf + more, n) == Ok(Parsed(Read(buf, n).value.value, Read(buf, n).value.rest + more))
  {
    assert (buf + more)[..n] == buf[..n] && (buf + more)[n..] == buf[n..] + more;
  }

  // `r` is what reading gave, `q` what it gives with bytes appended.
  predicate Extends<T(==)>(r: Result<Parsed<T>>, q: Result<Parsed<T>>, more: Bytes) {
    r.Ok? ==> q == Ok(Parsed(r.value.value, r.value.rest + more))
  }

  lemma NumExtends(buf: Bytes, width: nat, more: Bytes)
    ensures Extends(ReadNum(buf, width), ReadNum(buf + more, width), more)
  {
    if width <= |buf| { ReadExtends(buf, width, more); }
  }

  lemma {:induction false} NumsExtend(buf: Bytes, widths: seq<nat>, more: Bytes)
    ensures Extends(ReadNums(buf, widths), ReadNums(buf + more, widths), more)
    decreases |widths|
  {
    if widths != [] {
      NumExtends(buf, widths[0], more);
      hide ReadNum;
      if ReadNum(buf, widths[0]).Ok? { NumsExtend(ReadNum(buf, widths[0]).value.rest, widths[1..], more); }
    }
  }

  lemma TextExtends(buf: Bytes, more: Bytes)
    ensures Extends(ReadText(buf), ReadText(buf + more), more)
  {
    NumExtends(buf, 2, more);
    hide ReadNum;
    var n := ReadNum(buf, 2);
    if n.Ok? && n.value.value <= |n.value.rest| { ReadExtends(n.value.rest, n.value.value, more); }
  }

  lemma HeaderExtends(buf: Bytes, maxCells: nat, more: Bytes)
    ensures Extends(ReadHeader(buf, maxCells), ReadHeader(buf + more, maxCells), more)
  {
    if 4 <= |buf| {
      ReadExtends(buf, 4, more);
      NumsExtend(Read(buf, 4).value.rest, WIDTHS, more);
      hide ReadNums, CheckHeader;
    }
  }

  lemma CellsExtend(buf: Bytes, wanted: nat, more: Bytes)
    ensures Extends(ReadCells(buf, wanted), ReadCells(buf + more, wanted), more)
  {
    NumExtends(buf, 4, more);
    hide ReadNum;
    var n := ReadNum(buf, 4);
    if n.Ok? && n.value.value <= |n.value.rest| { ReadExtends(n.value.rest, n.value.value, more); }
  }

  lemma EntryExtends(buf: Bytes, cells: nat, more: Bytes)
    requires ReadEntry(buf, cells).Ok?
    ensures ReadEntry(buf + more, cells).Ok?
    ensures ReadEntry(buf + more, cells).value.value == ReadEntry(buf, cells).value.value
    ensures ReadEntry(buf + more, cells).value.rest == ReadEntry(buf, cells).value.rest + more
  {
    NumExtends(buf, 4, more);
    hide ReadNum, ReadText;
    TextExtends(ReadNum(buf, 4).value.rest, more);
  }

  lemma EntriesParts(buf: Bytes, count: nat, cells: nat)
    requires count > 0 && ReadEntries(buf, count, cells).Ok?
    ensures ReadEntry(buf, cells).Ok?
    ensures var e, all := ReadEntry(buf, cells).value, ReadEntries(buf, count, cells).value;
            var more := ReadEntries(e.rest, count - 1, cells);
            more.Ok? && all.value == [e.value] + more.value.value && all.rest == more.value.rest
  {
    hide ReadEntry;
  }

  lemma EntriesLonger(buf: Bytes, count: nat, cells: nat, more: Bytes, e: Parsed<Entry>, shorter: Parsed<seq<Entry>>)
    requires count > 0 && ReadEntry(buf + more, cells) == Ok(e.(rest := e.rest + more))
    requires ReadEntries(e.rest + more, count - 1, cells) == Ok(shorter.(rest := shorter.rest + more))
    ensures ReadEntries(buf + more, count, cells) == Ok(Parsed([e.value] + shorter.value, shorter.rest + more))
  {
    EntriesStep(buf + more, count, cells, e.value, e.rest + more, shorter.value, shorter.rest + more);
  }

  lemma {:induction false} EntriesExtend(buf: Bytes, count: nat, cells: nat, more: Bytes)
    requires ReadEntries(buf, count, cells).Ok?
    ensures ReadEntries(buf + more, count, cells).Ok?
    ensures ReadEntries(buf + more, count, cells).value.value == ReadEntries(buf, count, cells).value.value
    ensures ReadEntries(buf + more, count, cells).value.rest == ReadEntries(buf, count, cells).value.rest + more
    decreases count
  {
    hide ReadEntry;
    if count > 0 {
      EntriesParts(buf, count, cells);
      EntryExtends(buf, cells, more);
      var e := ReadEntry(buf, cells).value;
      var shorter := ReadEntries(e.rest, count - 1, cells).value;
      EntriesExtend(e.rest, count - 1, cells, more);
      EntriesLonger(buf, count, cells, more, e, shorter);
    }
  }

  lemma OverflowExtends(buf: Bytes, cells: nat, more: Bytes)
    ensures Extends(ReadOverflow(buf, cells), ReadOverflow(buf + more, cells), more)
  {
    NumExtends(buf, 4, more);
    hide ReadNum, ReadEntries;
    var n := ReadNum(buf, 4);
    if n.Ok? && n.value.value <= cells && ReadEntries(n.value.rest, n.value.value, cells).Ok? {
      EntriesExtend(n.value.rest, n.value.value, cells, more);
    }
  }

  lemma PartsExtend(h: Header, buf: Bytes, lossy: Lossy, more: Bytes)
    ensures Extends(ReadParts(h, buf, lossy), ReadParts(h, buf + more, lossy), more)
  {
    TextExtends(buf, more);
    hide ReadText, ReadCells, ReadOverflow;
    var t := ReadText(buf);
    if t.Ok? {
      CellsExtend(t.value.rest, CellCount(h) * CELL_SIZE, more);
      var c := ReadCells(t.value.rest, CellCount(h) * CELL_SIZE);
      if c.Ok? { OverflowExtends(c.value.rest, CellCount(h), more); }
    }
  }

  lemma ScreenExtends(buf: Bytes, maxCells: nat, lossy: Lossy, more: Bytes)
    ensures Extends(ReadScreen(buf, maxCells, lossy), ReadScreen(buf + more, maxCells, lossy), more)
  {
    HeaderExtends(buf, maxCells, more);
    hide ReadHeader, ReadParts;
    var h := ReadHeader(buf, maxCells);
    if h.Ok? { PartsExtend(h.value.value, h.value.rest, lossy, more); }
  }

  // No accepted payload is a proper prefix of another: with a byte more or a byte less it is
  // refused.
  lemma ExactLength(buf: Bytes, other: Bytes, maxCells: nat, lossy: Lossy)
    requires DecodeRaw(buf, maxCells, lossy).Ok?
    ensures buf < other ==> DecodeRaw(other, maxCells, lossy) == Err(Invalid)
    ensures other < buf ==> DecodeRaw(other, maxCells, lossy).Err?
  {
    hide ReadScreen;
    if buf < other {
      var more := other[|buf|..];
      assert buf + more == other;
      ScreenExtends(buf, maxCells, lossy, more);
    } else if other < buf {
      var more := buf[|other|..];
      assert other + more == buf;
      ScreenExtends(other, maxCells, lossy, more);
    }
  }

  // ---------- the payload on the wire ----------

  // Compression: the size of the raw bytes in four bytes, then a block.
  datatype Compressor = Compressor(block: Bytes -> Bytes, unpack: Bytes -> Option<Bytes>)

  // Unpacking a whole payload gives back the bytes that were packed.
  ghost predicate Lossless(z: Compressor) {
    forall raw :: |raw| < 0x1_0000_0000 ==> z.unpack(Pack(z, raw)) == Some(raw)
  }

  function Pack(z: Compressor, raw: Bytes): Bytes { ToLe(|raw|, 4) + z.block(raw) }

  function DecodeCompressed(data: Bytes, z: Compressor, maxCells: nat, lossy: Lossy): Result<RawScreen> {
    if |data| < 4 then Err(Truncated)
    else if FromLe(data[..4]) > MAX_SCREEN_RAW then Err(TooLarge)
    else match z.unpack(data)
      case None => Err(Lz4)
      case Some(raw) => if |raw| > MAX_SCREEN_RAW then Err(TooLarge) else DecodeRaw(raw, maxCells, lossy)
  }

  // A screen survives compression exactly when its raw form is within the limit.
  lemma CompressedRoundTrip(s: RawScreen, order: seq<nat>, z: Compressor, maxCells: nat, lossy: Lossy)
    requires Encodable(s, maxCells) && Walks(order, s.overflow) && Lossless(z)
    requires |EncodeRaw(s, order)| < 0x1_0000_0000
    ensures var raw := EncodeRaw(s, order);
            DecodeCompressed(Pack(z, raw), z, maxCells, lossy)
              == if |raw| <= MAX_SCREEN_RAW then Ok(Clipped(s, lossy)) else Err(TooLarge)
  {
    hide DecodeRaw, EncodeRaw, Encodable, Walks, Pack, Lossless, Clipped;
    RoundTrip(s, order, maxCells, lossy);
    PackedSize(z, EncodeRaw(s, order));
  }

  lemma PackedSize(z: Compressor, raw: Bytes)
    requires |raw| < 0x1_0000_0000 && Lossless(z)
    ensures var data := Pack(z, raw);
            |data| >= 4 && FromLe(data[..4]) == |raw| && z.unpack(data) == Some(raw)
  {
    FitsFour(|raw|);
    LeRoundTrip(|raw|, 4);
    assert Pack(z, raw)[..4] == ToLe(|raw|, 4);
  }

  // The magic of a shared screen, read as a size, is beyond the limit, so what decodes as an
  // ordinary screen never starts with it.
  lemma OrdinaryIsNotShared(data: Bytes, z: Compressor, maxCells: nat, lossy: Lossy)
    requires S.SHARED_SCREEN_MAGIC <= data
    ensures DecodeCompressed(data, z, maxCells, lossy) == Err(TooLarge)
  {
    var m := S.SHARED_SCREEN_MAGIC;
    assert data[..4] == m;
    assert m[1..][1..][1..] == [0x21] && m[1..][1..] == [0x31, 0x21] && m[1..] == [0x50, 0x31, 0x21];
    assert FromLe([0x21]) == 0x21;
    assert FromLe([0x31, 0x21]) == 0x31 + 256 * FromLe([0x21]);
    assert FromLe([0x50, 0x31, 0x21]) == 0x50 + 256 * FromLe([0x31, 0x21]);
    assert FromLe(m) == 0x51 + 256 * FromLe([0x50, 0x31, 0x21]);
  }

  function EncodeShared(context: S.Context, payload: Bytes): Bytes {
    S.SHARED_SCREEN_MAGIC + ToLe(context.epoch, 8) + [if context.allowed then 1 else 0] + payload
  }

  // The policy travels with the screen and is read back with it.
  lemma SharedRoundTrip(context: S.Context, payload: Bytes, decode: S.Decoder)
    requires context.epoch < 0x1_0000_0000_0000_0000 && |EncodeShared(context, payload)| + 1 <= S.MAX_FRAME
    ensures S.DecodeShared(EncodeShared(context, payload), decode)
         == if decode(payload).None? then None else Some(S.SharedScreen(context, decode(payload).value))
  {
    var b := EncodeShared(context, payload);
    FitsEight(context.epoch);
    LeRoundTrip(context.epoch, 8);
    assert b[..4] == S.SHARED_SCREEN_MAGIC && b[4..12] == ToLe(context.epoch, 8) && b[13..] == payload;
  }

  // ---------- the decoder ----------

  /** A position in a payload. */
  class Cursor {
    const data: Bytes
    var pos: nat

    ghost predicate Valid()
      reads this
    {
      pos <= |data|
    }

    ghost function Rest(): Bytes
      reads this
      requires Valid()
    {
      data[pos..]
    }

    constructor (data: Bytes)
      ensures Valid() && Rest() == data && this.data == data
    {
      this.data := data;
      pos := 0;
    }

    method ReadExact(n: nat) returns (r: Result<Bytes>)
      requires Valid()
      modifies this
      ensures Valid() && Agrees(r, Read(old(Rest()), n), Rest())
    {
      if |data| - pos < n { return Err(Truncated); }
      r := Ok(data[pos..pos + n]);
      assert data[pos..][..n] == data[pos..pos + n] && data[pos..][n..] == data[pos + n..];
      pos := pos + n;
    }

    method ReadInt(width: nat) returns (r: Result<nat>)
      requires Valid()
      modifies this
      ensures Valid() && Agrees(r, ReadNum(old(Rest()), width), Rest())
    {
      var b := ReadExact(width);
      if b.Err? { return Err(b.error); }
      r := Ok(FromLe(b.value));
    }

    method ReadString() returns (r: Result<Bytes>)
      requires Valid()
      modifies this
      ensures Valid() && Agrees(r, ReadText(old(Rest())), Rest())
    {
      var n := ReadInt(2);
      if n.Err? { return Err(n.error); }
      r := ReadExact(n.value);
    }
  }

  // A cursor read what a function read, and stands behind it.
  predicate Agrees<T(==)>(r: Result<T>, p: Result<Parsed<T>>, rest: Bytes) {
    match p
    case Err(e) => r == Err(e)
    case Ok(v) => r == Ok(v.value) && rest == v.rest
  }

  method ReadIntsAt(cur: Cursor, widths: seq<nat>) returns (r: Result<seq<nat>>)
    requires cur.Valid()
    modifies cur
    ensures cur.Valid() && Agrees(r, ReadNums(old(cur.Rest()), widths), cur.Rest())
  {
    ghost var start := cur.Rest();
    var ns: seq<nat> := [];
    PrependNone(ReadNums(start, widths));
    assert widths[0..] == widths;
    for i := 0 to |widths|
      invariant cur.Valid() && |ns| == i
      invariant ReadNums(start, widths) == Prepend(ns, ReadNums(cur.Rest(), widths[i..]))
    {
      PrependStep(ns, cur.Rest(), widths[i..]);
      assert widths[i..][1..] == widths[i + 1..];
      var n := cur.ReadInt(widths[i]);
      if n.Err? { return Err(n.error); }
      ns := ns + [n.value];
    }
    assert ns + [] == ns;
    r := Ok(ns);
  }

  method ReadHeaderAt(cur: Cursor, maxCells: nat) returns (r: Result<Header>)
    requires cur.Valid()
    modifies cur
    ensures cur.Valid() && Agrees(r, ReadHeader(old(cur.Rest()), maxCells), cur.Rest())
  {
    var magic := cur.ReadExact(4);
    if magic.Err? { return Err(magic.error); }
    if magic.value != SCREEN_MAGIC { return Err(Magic); }
    var ns := ReadIntsAt(cur, WIDTHS);
    if ns.Err? { return Err(ns.error); }
    var h := OfNums(ns.value);
    var bad := CheckHeader(h, maxCells);
    r := if bad.Some? then Err(bad.value) else Ok(h);
  }

  lemma PrependNone(r: Result<Parsed<seq<nat>>>)
    ensures Prepend([], r) == r
  {
    if r.Ok? { assert [] + r.value.value == r.value.value; }
  }

  ghost function Prepend(ns: seq<nat>, r: Result<Parsed<seq<nat>>>): Result<Parsed<seq<nat>>> {
    if r.Err? then r else Ok(Parsed(ns + r.value.value, r.value.rest))
  }

  lemma PrependStep(ns: seq<nat>, buf: Bytes, widths: seq<nat>)
    requires widths != []
    ensures var n := ReadNum(buf, widths[0]);
            Prepend(ns, ReadNums(buf, widths)) ==
              if n.Err? then Err(n.error) else Prepend(ns + [n.value.value], ReadNums(n.value.rest, widths[1..]))
  {
    hide ReadNum;
    var n := ReadNum(buf, widths[0]);
    if n.Ok? {
      var more := ReadNums(n.value.rest, widths[1..]);
      if more.Ok? { assert ns + ([n.value.value] + more.value.value) == ns + [n.value.value] + more.value.value; }
    }
  }

  method ReadCellsAt(cur: Cursor, wanted: nat) returns (r: Result<Bytes>)
    requires cur.Valid()
    modifies cur
    ensures cur.Valid() && Agrees(r, ReadCells(old(cur.Rest()), wanted), cur.Rest())
  {
    var n := cur.ReadInt(4);
    if n.Err? { return Err(n.error); }
    if n.value != wanted { return Err(Invalid); }
    r := cur.ReadExact(n.value);
  }

  method ReadEntryAt(cur: Cursor, cells: nat) returns (r: Result<Entry>)
    requires cur.Valid()
    modifies cur
    ensures cur.Valid() && Agrees(r, ReadEntry(old(cur.Rest()), cells), cur.Rest())
  {
    var k := cur.ReadInt(4);
    if k.Err? { return Err(k.error); }
    if k.value >= cells { return Err(Invalid); }
    var t := cur.ReadString();
    if t.Err? { return Err(t.error); }
    r := Ok(Entry(k.value, t.value));
  }

  // The table is filled as its entries are read.
  method ReadEntriesAt(cur: Cursor, count: nat, cells: nat, lossy: Lossy) returns (r: Result<map<nat, Bytes>>)
    requires cur.Valid()
    modifies cur
    ensures cur.Valid() && Filled(r, ReadEntries(old(cur.Rest()), count, cells), lossy, cur.Rest())
  {
    hide ReadEntries, ReadEntry;
    ghost var start := cur.Rest();
    ghost var es: seq<Entry> := [];
    var table := map[];
    FollowNone(ReadEntries(start, count, cells));
    for i := 0 to count
      invariant cur.Valid() && table == TableOf(es, lossy)
      invariant ReadEntries(start, count, cells) == Follow(es, ReadEntries(cur.Rest(), count - i, cells))
    {
      FollowStep(es, cur.Rest(), count - i, cells);
      var e := ReadEntryAt(cur, cells);
      if e.Err? { return Err(e.error); }
      TableGrows(es, e.value, lossy);
      table := table[e.value.key := lossy(e.value.text)];
      es := es + [e.value];
    }
    FollowEnd(es, cur.Rest(), cells);
    r := Ok(table);
  }

  predicate Filled(r: Result<map<nat, Bytes>>, p: Result<Parsed<seq<Entry>>>, lossy: Lossy, rest: Bytes) {
    match p
    case Err(e) => r == Err(e)
    case Ok(v) => r == Ok(TableOf(v.value, lossy)) && rest == v.rest
  }

  method ReadOverflowAt(cur: Cursor, cells: nat, lossy: Lossy) returns (r: Result<map<nat, Bytes>>)
    requires cur.Valid()
    modifies cur
    ensures cur.Valid() && Filled(r, ReadOverflow(old(cur.Rest()), cells), lossy, cur.Rest())
  {
    hide ReadEntries, ReadNum;
    var n := cur.ReadInt(4);
    if n.Err? { return Err(n.error); }
    if n.value > cells { return Err(TooLarge); }
    r := ReadEntriesAt(cur, n.value, cells, lossy);
  }

  lemma TableGrows(es: seq<Entry>, e: Entry, lossy: Lossy)
    ensures TableOf(es + [e], lossy) == TableOf(es, lossy)[e.key := lossy(e.text)]
  {
    assert (es + [e])[..|es|] == es;
  }

  lemma FollowEnd(es: seq<Entry>, rest: Bytes, cells: nat)
    ensures Follow(es, ReadEntries(rest, 0, cells)) == Ok(Parsed(es, rest))
  {
    assert es + [] == es;
  }

  ghost function Follow(es: seq<Entry>, r: Result<Parsed<seq<Entry>>>): Result<Parsed<seq<Entry>>> {
    if r.Err? then r else Ok(Parsed(es + r.value.value, r.value.rest))
  }

  lemma FollowNone(r: Result<Parsed<seq<Entry>>>)
    ensures Follow([], r) == r
  {
    if r.Ok? { assert [] + r.value.value == r.value.value; }
  }

  lemma FollowStep(es: seq<Entry>, buf: Bytes, count: nat, cells: nat)
    requires count > 0
    ensures var e := ReadEntry(buf, cells);
            Follow(es, ReadEntries(buf, count, cells)) ==
              if e.Err? then Err(e.error) else Follow(es + [e.value.value], ReadEntries(e.value.rest, count - 1, cells))
  {
    hide ReadEntry;
    var e := ReadEntry(buf, cells);
    if e.Ok? {
      var more := ReadEntries(e.value.rest, count - 1, cells);
      if more.Ok? { assert es + ([e.value.value] + more.value.value) == es + [e.value.value] + more.value.value; }
    }
  }

  method ReadPartsAt(cur: Cursor, h: Header, lossy: Lossy) returns (r: Result<RawScreen>)
    requires cur.Valid()
    modifies cur
    ensures cur.Valid() && Agrees(r, ReadParts(h, old(cur.Rest()), lossy), cur.Rest())
  {
    hide ReadText, ReadCells, ReadOverflow, TableOf, CellCount;
    var t := cur.ReadString();
    if t.Err? { return Err(t.error); }
    var n := CellCount(h);
    var c := ReadCellsAt(cur, n * CELL_SIZE);
    if c.Err? { return Err(c.error); }
    var o := ReadOverflowAt(cur, n, lossy);
    if o.Err? { return Err(o.error); }
    r := Ok(RawScreen(h, lossy(t.value), c.value, o.value));
  }

  method ReadScreenAt(cur: Cursor, maxCells: nat, lossy: Lossy) returns (r: Result<RawScreen>)
    requires cur.Valid()
    modifies cur
    ensures cur.Valid() && Agrees(r, ReadScreen(old(cur.Rest()), maxCells, lossy), cur.Rest())
  {
    hide ReadHeader, ReadParts;
    var h := ReadHeaderAt(cur, maxCells);
    if h.Err? { return Err(h.error); }
    r := ReadPartsAt(cur, h.value, lossy);
  }

  method Decode(data: Bytes, maxCells: nat, lossy: Lossy) returns (r: Result<RawScreen>)
    ensures r == DecodeRaw(data, maxCells, lossy)
  {
    hide ReadScreen;
    var cur := new Cursor(data);
    r := ReadScreenAt(cur, maxCells, lossy);
    assert |cur.Rest()| == |data| - cur.pos;
    if r.Ok? && cur.pos != |data| { r := Err(Invalid); }
  }
}
