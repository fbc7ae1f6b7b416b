/**
 The reader of CBOR data items (section 3 of RFC 8949) that decodes authenticator data, and
 the writer of heads beside it.
 */
module Cbor {
  import opened Bytes
  import opened Utf8

  datatype Item =
    | Uint(value: nat)
    | Nint(negative: int)
    | ByteString(bytes: Bytes)
    | Text(text: Bytes)                  // UTF-8
    | List(items: seq<Item>)
    | Table(entries: seq<Entry>)
    | Bool(flag: bool)
    | Null
    | Other

  datatype Entry = Entry(key: Item, value: Item)

  const TWO_32: nat := 0x1_0000_0000
  const TWO_63: nat := 0x8000_0000_0000_0000
  const TWO_64: nat := 0x1_0000_0000_0000_0000

  // ---------- reading ----------

  datatype Length = NoLength | Length(val: nat, rest: Bytes)
  datatype Read = Fail | Got(item: Item, rest: Bytes)
  datatype ReadMany = FailMany | GotMany(items: seq<Item>, rest: Bytes)
  datatype ReadPairs = FailPairs | GotPairs(entries: seq<Entry>, rest: Bytes)

  // The argument behind an initial byte.
  function ReadLen(info: nat, buf: Bytes): (r: Length)
    requires info < 32
    ensures r.Length? ==> |r.rest| <= |buf|
  {
    if info < 24 then Length(info, buf)
    else if info < 28 then
      var n := if info == 24 then 1 else if info == 25 then 2 else if info == 26 then 4 else 8;
      if |buf| < n then NoLength else Length(FromBe(buf[..n]), buf[n..])
    else NoLength
  }

  // A 64-bit number reinterpreted as signed.
  function AsI64(val: nat): int { if val < TWO_63 then val else val - TWO_64 }

  // One item off the front of a buffer; what is left is always shorter.
  function ReadCbor(buf: Bytes): (r: Read)
    ensures r.Got? ==> |r.rest| < |buf|
    decreases |buf|, 0
  {
    if buf == [] then Fail
    else match ReadLen(buf[0] % 32, buf[1..])
      case NoLength => Fail
      case Length(val, rest) => ReadBody(buf[0] / 32, buf[0] % 32, val, rest)
  }

  // The item itself, once its major type and argument are known.
  function ReadBody(major: nat, info: nat, val: nat, rest: Bytes): (r: Read)
    ensures r.Got? ==> |r.rest| <= |rest|
    decreases |rest|, 2
  {
    if major == 0 then Got(Uint(val), rest)
    else if major == 1 then Got(Nint(-1 - AsI64(val)), rest)
    else if major == 2 then
      if |rest| < val then Fail else Got(ByteString(rest[..val]), rest[val..])
    else if major == 3 then
      if |rest| < val || !ValidUtf8(rest[..val]) then Fail else Got(Text(rest[..val]), rest[val..])
    else if major == 4 then
      match ReadItems(val, rest) case FailMany => Fail case GotMany(items, r) => Got(List(items), r)
    else if major == 5 then
      match ReadEntries(val, rest) case FailPairs => Fail case GotPairs(entries, r) => Got(Table(entries), r)
    else if major == 6 then
      match ReadCbor(rest) case Fail => Fail case Got(_, r) => Got(Other, r)
    else if info == 20 then Got(Bool(false), rest)
    else if info == 21 then Got(Bool(true), rest)
    else if info == 22 || info == 23 then Got(Null, rest)
    else Got(Other, rest)
  }

  function ReadItems(n: nat, buf: Bytes): (r: ReadMany)
    ensures r.GotMany? ==> |r.rest| <= |buf| && |r.items| == n
    decreases |buf|, 1
  {
    if n == 0 then GotMany([], buf)
    else match ReadCbor(buf)
      case Fail => FailMany
      case Got(item, r) =>
        match ReadItems(n - 1, r) case FailMany => FailMany case GotMany(items, rest) => GotMany([item] + items, rest)
  }

  function ReadEntries(n: nat, buf: Bytes): (r: ReadPairs)
    ensures r.GotPairs? ==> |r.rest| <= |buf| && |r.entries| == n
    decreases |buf|, 1
  {
    if n == 0 then GotPairs([], buf)
    else match ReadCbor(buf)
      case Fail => FailPairs
      case Got(k, r) =>
        match ReadCbor(r)
        case Fail => FailPairs
        case Got(v, r2) =>
          match ReadEntries(n - 1, r2)
          case FailPairs => FailPairs
          case GotPairs(entries, rest) => GotPairs([Entry(k, v)] + entries, rest)
  }

  // ---------- writing ----------

  // The head of an item; an argument beyond 32 bits is cut off.
  function Head(major: nat, val: nat): (h: Bytes)
    requires major < 8
    ensures h != []
  {
    if val < 24 then [major * 32 + val]
    else if val < 256 then [major * 32 + 24, val]
    else if val < 65536 then [major * 32 + 25] + ToBe(val, 2)
    else [major * 32 + 26] + ToBe(val % TWO_32, 4)
  }

  function Print(c: Item): Bytes
    requires Writable(c)
    decreases c, 0
  {
    match c
    case Uint(v) => Head(0, v)
    case Nint(v) => Head(1, -1 - v)
    case ByteString(b) => Head(2, |b|) + b
    case Text(t) => Head(3, |t|) + t
    case List(items) => Head(4, |items|) + PrintItems(items)
    case Table(entries) => Head(5, |entries|) + PrintEntries(entries)
    case Bool(flag) => Head(7, if flag then 21 else 20)
    case Null => Head(7, 22)
  }

  function PrintItems(items: seq<Item>): Bytes
    requires AllWritable(items)
    decreases items, 1
  {
    if items == [] then [] else Print(items[0]) + PrintItems(items[1..])
  }

  function PrintEntries(entries: seq<Entry>): Bytes
    requires EntriesWritable(entries)
    decreases entries, 1
  {
    if entries == [] then [] else PrintEntry(entries[0]) + PrintEntries(entries[1..])
  }

  function PrintEntry(e: Entry): Bytes
    requires EntryWritable(e)
    decreases e, 0
  {
    Print(e.key) + Print(e.value)
  }

  // What the writer can say: arguments of at most 32 bits, real UTF-8.
  predicate Writable(c: Item)
    decreases c, 0
  {
    match c
    case Uint(v) => v < TWO_32
    case Nint(v) => v < 0 && -1 - v < TWO_32
    case ByteString(b) => |b| < TWO_32
    case Text(t) => |t| < TWO_32 && ValidUtf8(t)
    case List(items) => |items| < TWO_32 && AllWritable(items)
    case Table(entries) => |entries| < TWO_32 && EntriesWritable(entries)
    case Bool(_) => true
    case Null => true
    case Other => false
  }

  predicate AllWritable(items: seq<Item>)
    decreases items, 1
  {
    items == [] || (Writable(items[0]) && AllWritable(items[1..]))
  }

  predicate EntriesWritable(entries: seq<Entry>)
    decreases entries, 1
  {
    entries == [] || (EntryWritable(entries[0]) && EntriesWritable(entries[1..]))
  }

  predicate EntryWritable(e: Entry)
    decreases e, 0
  {
    Writable(e.key) && Writable(e.value)
  }

  // ---------- heads ----------

  lemma HeadWide(major: nat, val: nat, rest: Bytes)
    requires major < 8 && val >= 24
    ensures var h := Head(major, val) + rest;
            h[0] / 32 == major && ReadLen(h[0] % 32, h[1..]) == Length(if val < 65536 then val else val % TWO_32, rest)
  {
    var h := Head(major, val) + rest;
    if val < 256 {
      assert h[1..][..1] == [val] && h[1..][1..] == rest;
      assert FromBe([val]) == FromBe([]) * 256 + val by { assert [val][..0] == []; }
    } else if val < 65536 {
      assert h[1..] == ToBe(val, 2) + rest;
      FitsTwo(val);
      BeRoundTrip(val, 2);
      assert h[1..][..2] == ToBe(val, 2) && h[1..][2..] == rest;
    } else {
      assert h[1..] == ToBe(val % TWO_32, 4) + rest;
      FitsFour(val % TWO_32);
      BeRoundTrip(val % TWO_32, 4);
      assert h[1..][..4] == ToBe(val % TWO_32, 4) && h[1..][4..] == rest;
    }
  }

  // A head is read back as it was written exactly when its argument fits 32 bits; a larger
  // argument is cut off to its low 32 bits.
  lemma HeadRoundTrip(major: nat, val: nat, rest: Bytes)
    requires major < 8
    ensures var h := Head(major, val) + rest;
            && h[0] / 32 == major
            && (ReadLen(h[0] % 32, h[1..]) == Length(val, rest) <==> val < TWO_32)
            && ReadLen(h[0] % 32, h[1..]) == Length(val % TWO_32, rest)
            && (val < 24 ==> h[0] % 32 == val)
  {
    var h := Head(major, val) + rest;
    if val < 24 {
      assert h[1..] == rest;
    } else {
      HeadWide(major, val, rest);
    }
  }

  function HeadInfo(val: nat): nat { if val < 24 then val else if val < 256 then 24 else if val < 65536 then 25 else 26 }

  lemma ReadHead(major: nat, val: nat, rest: Bytes)
    requires major < 8 && val < TWO_32
    ensures ReadCbor(Head(major, val) + rest) == ReadBody(major, HeadInfo(val), val, rest)
  {
    HeadRoundTrip(major, val, rest);
    hide ReadLen, ToBe, FromBe, ReadBody;
  }

  // A negative integer means what it says exactly when its argument fits 63 bits.
  lemma NegativeExact(val: nat, rest: Bytes)
    requires val < TWO_64
    ensures ReadCbor([0x20 + 27] + ToBe(val, 8) + rest) == Got(Nint(-1 - AsI64(val)), rest)
    ensures -1 - AsI64(val) == -1 - val <==> val < TWO_63
  {
    var buf := [0x20 + 27] + ToBe(val, 8) + rest;
    FitsEight(val);
    BeRoundTrip(val, 8);
    assert buf[1..][..8] == ToBe(val, 8) && buf[1..][8..] == rest;
  }

  // ---------- the reader inverts the writer ----------

  lemma BodyOf(head: Bytes, body: Bytes, suffix: Bytes)
    ensures head + body + suffix == head + (body + suffix)
    ensures (body + suffix)[..|body|] == body && (body + suffix)[|body|..] == suffix
  {
  }

  // Every tree the writer can print is recovered, whatever follows it.
  lemma {:induction false} ReadPrinted(c: Item, suffix: Bytes)
    requires Writable(c)
    ensures ReadCbor(Print(c) + suffix) == Got(c, suffix)
    decreases c, 0
  {
    hide ReadCbor, Head, ValidUtf8;
    match c
    case Uint(v) => ReadHead(0, v, suffix);
    case Nint(v) => ReadHead(1, -1 - v, suffix);
    case ByteString(b) =>
      BodyOf(Head(2, |b|), b, suffix);
      ReadHead(2, |b|, b + suffix);
    case Text(t) =>
      BodyOf(Head(3, |t|), t, suffix);
      ReadHead(3, |t|, t + suffix);
    case List(items) =>
      BodyOf(Head(4, |items|), PrintItems(items), suffix);
      ReadHead(4, |items|, PrintItems(items) + suffix);
      ReadPrintedItems(items, suffix);
    case Table(entries) =>
      BodyOf(Head(5, |entries|), PrintEntries(entries), suffix);
      ReadHead(5, |entries|, PrintEntries(entries) + suffix);
      ReadPrintedEntries(entries, suffix);
    case Bool(flag) => ReadHead(7, if flag then 21 else 20, suffix);
    case Null => ReadHead(7, 22, suffix);
  }

  lemma {:induction false} ReadPrintedItems(items: seq<Item>, suffix: Bytes)
    requires AllWritable(items)
    ensures ReadItems(|items|, PrintItems(items) + suffix) == GotMany(items, suffix)
    decreases items, 1
  {
    if items == [] {
      assert PrintItems(items) + suffix == suffix;
    } else {
      var rest := PrintItems(items[1..]) + suffix;
      assert PrintItems(items) + suffix == Print(items[0]) + rest;
      ReadPrinted(items[0], rest);
      ReadPrintedItems(items[1..], suffix);
    }
  }

  lemma {:induction false} ReadPrintedEntries(entries: seq<Entry>, suffix: Bytes)
    requires EntriesWritable(entries)
    ensures ReadEntries(|entries|, PrintEntries(entries) + suffix) == GotPairs(entries, suffix)
    decreases entries, 1
  {
    if entries == [] {
      assert PrintEntries(entries) + suffix == suffix;
    } else {
      var rest := PrintEntries(entries[1..]) + suffix;
      assert PrintEntries(entries) + suffix == PrintEntry(entries[0]) + rest;
      ReadPrintedEntry(entries[0], rest);
      ReadPrintedEntries(entries[1..], suffix);
      hide ReadCbor, Print, Writable;
    }
  }

  lemma {:induction false} ReadPrintedEntry(e: Entry, rest: Bytes)
    requires EntryWritable(e)
    ensures ReadCbor(PrintEntry(e) + rest) == Got(e.key, Print(e.value) + rest)
    ensures ReadCbor(Print(e.value) + rest) == Got(e.value, rest)
    decreases e, 0
  {
    assert PrintEntry(e) + rest == Print(e.key) + (Print(e.value) + rest);
    ReadPrinted(e.key, Print(e.value) + rest);
    ReadPrinted(e.value, rest);
  }

  // ---------- appended bytes do not matter ----------

  lemma LenExtends(info: nat, buf: Bytes, more: Bytes)
    requires info < 32 && ReadLen(info, buf).Length?
    ensures ReadLen(info, buf + more) == Length(ReadLen(info, buf).val, ReadLen(info, buf).rest + more)
  {
    var n := |buf| - |ReadLen(info, buf).rest|;
    assert (buf + more)[..n] == buf[..n];
    assert (buf + more)[n..] == buf[n..] + more;
  }

  // Once an item is read, bytes behind it change nothing but the rest.
  lemma {:induction false} ReadExtends(buf: Bytes, more: Bytes)
    requires ReadCbor(buf).Got?
    ensures ReadCbor(buf + more) == Got(ReadCbor(buf).item, ReadCbor(buf).rest + more)
    decreases |buf|, 0
  {
    hide ReadLen, ReadBody;
    assert (buf + more)[0] == buf[0] && (buf + more)[1..] == buf[1..] + more;
    LenExtends(buf[0] % 32, buf[1..], more);
    var l := ReadLen(buf[0] % 32, buf[1..]);
    BodyExtends(buf[0] / 32, buf[0] % 32, l.val, l.rest, more);
  }

  lemma {:induction false} BodyExtends(major: nat, info: nat, val: nat, rest: Bytes, more: Bytes)
    requires ReadBody(major, info, val, rest).Got?
    ensures ReadBody(major, info, val, rest + more)
         == Got(ReadBody(major, info, val, rest).item, ReadBody(major, info, val, rest).rest + more)
    decreases |rest|, 2
  {
    hide ReadCbor, ReadItems, ReadEntries;
    if major == 2 || major == 3 {
      assert (rest + more)[..val] == rest[..val] && (rest + more)[val..] == rest[val..] + more;
    } else if major == 4 {
      ItemsExtend(val, rest, more);
    } else if major == 5 {
      EntriesExtend(val, rest, more);
    } else if major == 6 {
      ReadExtends(rest, more);
    }
  }

  lemma {:induction false} ItemsExtend(n: nat, buf: Bytes, more: Bytes)
    requires ReadItems(n, buf).GotMany?
    ensures ReadItems(n, buf + more) == GotMany(ReadItems(n, buf).items, ReadItems(n, buf).rest + more)
    decreases |buf|, 1
  {
    hide ReadCbor;
    if n > 0 {
      ReadExtends(buf, more);
      ItemsExtend(n - 1, ReadCbor(buf).rest, more);
    }
  }

  lemma {:induction false} EntriesExtend(n: nat, buf: Bytes, more: Bytes)
    requires ReadEntries(n, buf).GotPairs?
    ensures ReadEntries(n, buf + more) == GotPairs(ReadEntries(n, buf).entries, ReadEntries(n, buf).rest + more)
    decreases |buf|, 1
  {
    hide ReadCbor;
    if n > 0 {
      var r := ReadCbor(buf).rest;
      ReadExtends(buf, more);
      ReadExtends(r, more);
      EntriesExtend(n - 1, ReadCbor(r).rest, more);
    }
  }

  // ---------- exactly the consumed bytes are gone ----------

  predicate Suffix(rest: Bytes, buf: Bytes) { |rest| <= |buf| && rest == buf[|buf| - |rest|..] }

  lemma SuffixOfSuffix(a: Bytes, b: Bytes, c: Bytes)
    requires Suffix(a, b) && Suffix(b, c)
    ensures Suffix(a, c)
  {
    var k, j := |b| - |a|, |c| - |b|;
    assert c[j..][k..] == c[j + k..];
  }

  lemma LenSuffix(info: nat, buf: Bytes)
    requires info < 32 && ReadLen(info, buf).Length?
    ensures Suffix(ReadLen(info, buf).rest, buf)
  {
    assert buf[0..] == buf;
  }

  // What is left after an item is the buffer without a non-empty prefix.
  lemma {:induction false} ReadSuffix(buf: Bytes)
    requires ReadCbor(buf).Got?
    ensures Suffix(ReadCbor(buf).rest, buf) && ReadCbor(buf).rest != buf
    decreases |buf|, 0
  {
    hide ReadLen, ReadBody, Suffix;
    LenSuffix(buf[0] % 32, buf[1..]);
    var l := ReadLen(buf[0] % 32, buf[1..]);
    BodySuffix(buf[0] / 32, buf[0] % 32, l.val, l.rest);
    assert Suffix(buf[1..], buf) by { TailIsSuffix(buf); }
    SuffixOfSuffix(l.rest, buf[1..], buf);
    SuffixOfSuffix(ReadCbor(buf).rest, l.rest, buf);
  }

  lemma TailIsSuffix(buf: Bytes)
    requires buf != []
    ensures Suffix(buf[1..], buf)
  {
  }

  lemma SelfSuffix(buf: Bytes)
    ensures Suffix(buf, buf)
  {
    assert buf[0..] == buf;
  }

  lemma {:induction false} BodySuffix(major: nat, info: nat, val: nat, rest: Bytes)
    requires ReadBody(major, info, val, rest).Got?
    ensures Suffix(ReadBody(major, info, val, rest).rest, rest)
    decreases |rest|, 2
  {
    hide ReadCbor, ReadItems, ReadEntries;
    SelfSuffix(rest);
    if major == 4 {
      ItemsSuffix(val, rest);
    } else if major == 5 {
      EntriesSuffix(val, rest);
    } else if major == 6 {
      ReadSuffix(rest);
    }
  }

  lemma {:induction false} ItemsSuffix(n: nat, buf: Bytes)
    requires ReadItems(n, buf).GotMany?
    ensures Suffix(ReadItems(n, buf).rest, buf)
    decreases |buf|, 1
  {
    hide ReadCbor, Suffix;
    SelfSuffix(buf);
    if n > 0 {
      var r := ReadCbor(buf).rest;
      ReadSuffix(buf);
      ItemsSuffix(n - 1, r);
      SuffixOfSuffix(ReadItems(n, buf).rest, r, buf);
    }
  }

  lemma {:induction false} EntriesSuffix(n: nat, buf: Bytes)
    requires ReadEntries(n, buf).GotPairs?
    ensures Suffix(ReadEntries(n, buf).rest, buf)
    decreases |buf|, 1
  {
    hide ReadCbor, Suffix;
    SelfSuffix(buf);
    if n > 0 {
      var r := ReadCbor(buf).rest;
      var q := ReadCbor(r).rest;
      ReadSuffix(buf);
      ReadSuffix(r);
      EntriesSuffix(n - 1, q);
      SuffixOfSuffix(q, r, buf);
      SuffixOfSuffix(ReadEntries(n, buf).rest, q, buf);
    }
  }

  // A printed item that is cut short anywhere is refused.
  lemma CutShortFails(c: Item, part: Bytes)
    requires Writable(c) && part < Print(c)
    ensures ReadCbor(part) == Fail
  {
    if ReadCbor(part).Got? {
      var more := Print(c)[|part|..];
      assert part + more == Print(c) + [];
      ReadExtends(part, more);
      ReadPrinted(c, []);
    }
  }
}
