/**
 Length-prefixed frames on a byte stream: how one is written, how a receive buffer is cut
 into frames, and why it makes no difference how the stream is chopped up on the way.
 */
module Framing {
  import opened Wrappers
  import opened Bytes

  const MAX_FRAME := 16 * 1024 * 1024

  datatype Frame = Frame(typ: Byte, payload: Bytes)

  // A frame the other end will accept.
  predicate Legal(f: Frame) { 1 + |f.payload| <= MAX_FRAME }

  function Encode(f: Frame): Bytes {
    ToLe(1 + |f.payload|, 4) + [f.typ] + f.payload
  }

  function EncodeAll(frames: seq<Frame>): Bytes {
    if frames == [] then [] else Encode(frames[0]) + EncodeAll(frames[1..])
  }

  // What the first four bytes say; a zero or oversized length is refused before its body
  // arrives.
  datatype Peek = Unknown | TooLarge | Length(n: nat)

  function PeekLen(buf: Bytes): Peek {
    if |buf| < 4 then Unknown
    else
      var n := FromLe(buf[..4]);
      if n == 0 || n > MAX_FRAME then TooLarge else Length(n)
  }

  datatype Split = Need | Bad | Got(frame: Frame, rest: Bytes)

  function SplitFrame(buf: Bytes): (r: Split)
    ensures r.Got? ==> |r.rest| < |buf|
  {
    match PeekLen(buf)
    case Unknown => Need
    case TooLarge => Bad
    case Length(n) => if |buf| < 4 + n then Need else Got(Frame(buf[4], buf[5..4 + n]), buf[4 + n..])
  }

  // All the frames of a buffer, what is left over, and whether the stream is broken there.
  datatype Parsed = Parsed(frames: seq<Frame>, rest: Bytes, broken: bool)

  function Parse(buf: Bytes): Parsed
    decreases |buf|
  {
    match SplitFrame(buf)
    case Need => Parsed([], buf, false)
    case Bad => Parsed([], buf, true)
    case Got(f, rest) => var p := Parse(rest); p.(frames := [f] + p.frames)
  }

  // ---------- a frame can be read back ----------

  lemma SplitEncoded(f: Frame, rest: Bytes)
    requires Legal(f)
    ensures SplitFrame(Encode(f) + rest) == Got(f, rest)
  {
    var buf := Encode(f) + rest;
    var n := 1 + |f.payload|;
    FitsFour(n);
    LeRoundTrip(n, 4);
    assert buf[..4] == ToLe(n, 4);
    assert buf[5..4 + n] == f.payload;
    assert buf[4 + n..] == rest;
  }

  // A frame that has not arrived whole is waited for, never refused.
  lemma SplitPartial(f: Frame, part: Bytes)
    requires Legal(f) && part <= Encode(f) && part != Encode(f)
    ensures SplitFrame(part) == Need
  {
    var n := 1 + |f.payload|;
    FitsFour(n);
    LeRoundTrip(n, 4);
    if |part| >= 4 { assert part[..4] == Encode(f)[..4] == ToLe(n, 4); }
  }

  // Conversely, every frame that is cut off was legal and is what its bytes encode.
  lemma SplitInverts(buf: Bytes)
    requires SplitFrame(buf).Got?
    ensures Legal(SplitFrame(buf).frame) && buf == Encode(SplitFrame(buf).frame) + SplitFrame(buf).rest
  {
    var f, rest := SplitFrame(buf).frame, SplitFrame(buf).rest;
    LeSurjective(buf[..4]);
    assert buf == buf[..4] + [buf[4]] + f.payload + rest;
  }

  // ---------- chunking is invisible ----------

  // More bytes do not change a verdict.
  lemma SplitExtends(a: Bytes, b: Bytes)
    ensures SplitFrame(a).Got? ==> SplitFrame(a + b) == Got(SplitFrame(a).frame, SplitFrame(a).rest + b)
    ensures SplitFrame(a).Bad? ==> SplitFrame(a + b).Bad?
  {
    if |a| >= 4 {
      assert (a + b)[..4] == a[..4];
      if SplitFrame(a).Got? {
        var n := FromLe(a[..4]);
        assert (a + b)[5..4 + n] == a[5..4 + n];
        assert (a + b)[4 + n..] == a[4 + n..] + b;
      }
    }
  }

  // Parsing what has arrived and then the rest, behind what was left over, is parsing it
  // all at once.
  lemma {:induction false} ParseInChunks(a: Bytes, b: Bytes)
    requires !Parse(a).broken
    ensures Parse(a + b) == Parse(Parse(a).rest + b).(frames := Parse(a).frames + Parse(Parse(a).rest + b).frames)
    decreases |a|
  {
    SplitExtends(a, b);
    if SplitFrame(a).Got? {
      hide SplitFrame;
      var f, rest := SplitFrame(a).frame, SplitFrame(a).rest;
      ParseInChunks(rest, b);
      Assoc([f], Parse(rest).frames, Parse(Parse(rest).rest + b).frames);
    }
  }

  lemma {:induction false} BrokenStaysBroken(a: Bytes, b: Bytes)
    requires Parse(a).broken
    ensures Parse(a + b).broken && Parse(a + b).frames == Parse(a).frames
    decreases |a|
  {
    SplitExtends(a, b);
    if SplitFrame(a).Got? {
      BrokenStaysBroken(SplitFrame(a).rest, b);
    }
  }

  // Feeding a parser chunk by chunk.
  function ParseChunks(rest: Bytes, chunks: seq<Bytes>): Parsed
    decreases |chunks|
  {
    if chunks == [] then Parsed([], rest, false)
    else
      var p := Parse(rest + chunks[0]);
      if p.broken then p
      else var q := ParseChunks(p.rest, chunks[1..]); q.(frames := p.frames + q.frames)
  }

  function Flatten(chunks: seq<Bytes>): Bytes {
    if chunks == [] then [] else chunks[0] + Flatten(chunks[1..])
  }

  // However the stream of legal frames is cut into reads, exactly the frames come out, in
  // order, and exactly the unfinished tail is kept.
  lemma {:induction false} ChunkingIsInvisible(frames: seq<Frame>, tail: Bytes, next: Frame, chunks: seq<Bytes>)
    requires (forall k :: 0 <= k < |frames| ==> Legal(frames[k])) && Legal(next)
    requires tail <= Encode(next) && tail != Encode(next)
    requires Flatten(chunks) == EncodeAll(frames) + tail
    ensures ParseChunks([], chunks) == Parsed(frames, tail, false)
  {
    ParseStream(frames, tail, next);
    assert [] + Flatten(chunks) == Flatten(chunks);
    assert Parse([]) == Parsed([], [], false);
    ChunksAsOne([], chunks);
  }

  lemma ParseFirst(f: Frame, rest: Bytes)
    requires Legal(f)
    ensures Parse(Encode(f) + rest) == Parse(rest).(frames := [f] + Parse(rest).frames)
  {
    SplitEncoded(f, rest);
    hide SplitFrame, Encode;
  }

  // Whole frames in front of `rest` come out first.
  lemma {:induction false} ParseBehind(frames: seq<Frame>, rest: Bytes)
    requires forall k :: 0 <= k < |frames| ==> Legal(frames[k])
    ensures Parse(EncodeAll(frames) + rest) == Parse(rest).(frames := frames + Parse(rest).frames)
  {
    hide Parse, SplitFrame, Encode, Legal;
    if frames == [] {
      assert EncodeAll(frames) + rest == rest;
    } else {
      var tail := EncodeAll(frames[1..]) + rest;
      assert EncodeAll(frames) + rest == Encode(frames[0]) + tail;
      ParseFirst(frames[0], tail);
      ParseBehind(frames[1..], rest);
    }
  }

  lemma ParseStream(frames: seq<Frame>, tail: Bytes, next: Frame)
    requires (forall k :: 0 <= k < |frames| ==> Legal(frames[k])) && Legal(next)
    requires tail <= Encode(next) && tail != Encode(next)
    ensures Parse(EncodeAll(frames) + tail) == Parsed(frames, tail, false)
  {
    SplitPartial(next, tail);
    ParseBehind(frames, tail);
  }

  lemma {:induction false} ChunksAsOne(rest: Bytes, chunks: seq<Bytes>)
    requires Parse(rest) == Parsed([], rest, false)
    requires !Parse(rest + Flatten(chunks)).broken
    ensures ParseChunks(rest, chunks) == Parse(rest + Flatten(chunks))
    decreases |chunks|
  {
    if chunks == [] {
      assert rest + Flatten(chunks) == rest;
    } else {
      var a, b := rest + chunks[0], Flatten(chunks[1..]);
      assert rest + Flatten(chunks) == a + b;
      if Parse(a).broken { BrokenStaysBroken(a, b); }
      ParseInChunks(a, b);
      RestIsSettled(a);
      ChunksAsOne(Parse(a).rest, chunks[1..]);
    }
  }

  lemma {:induction false} RestIsSettled(a: Bytes)
    requires !Parse(a).broken
    ensures Parse(Parse(a).rest) == Parsed([], Parse(a).rest, false)
    decreases |a|
  {
    if SplitFrame(a).Got? { RestIsSettled(SplitFrame(a).rest); }
  }

  // Nothing is lost: the frames and the rest are the bytes.
  lemma {:induction false} ParseConserves(a: Bytes)
    ensures a == EncodeAll(Parse(a).frames) + Parse(a).rest
    decreases |a|
  {
    if SplitFrame(a).Got? {
      SplitInverts(a);
      ParseConserves(SplitFrame(a).rest);
      var p := Parse(SplitFrame(a).rest);
      assert Parse(a).frames[1..] == p.frames;
    }
  }

  /** The receiving end of a control stream. */
  class Receiver {
    var buf: Bytes

    constructor ()
      ensures buf == []
    {
      buf := [];
    }

    // Cut one frame off the front of the buffer.
    method TakeFrame() returns (r: Split)
      modifies this
      ensures r == SplitFrame(old(buf))
      ensures buf == if r.Got? then r.rest else old(buf)
    {
      if |buf| < 4 { return Need; }
      var n := FromLe(buf[..4]);
      if n == 0 || n > MAX_FRAME { return Bad; }
      if |buf| < 4 + n { return Need; }
      var body := buf[4..4 + n];
      var typ := body[0];
      assert body[1..] == buf[5..4 + n];
      buf := buf[4 + n..];
      r := Got(Frame(typ, body[1..]), buf);
    }

    // Append what was read and take out every complete frame.
    method Receive(bytes: Bytes) returns (frames: seq<Frame>, broken: bool)
      modifies this
      ensures Parsed(frames, buf, broken) == Parse(old(buf) + bytes)
    {
      buf := buf + bytes;
      ghost var all := buf;
      frames, broken := [], false;
      while true
        invariant Parse(all) == Parse(buf).(frames := frames + Parse(buf).frames)
        invariant !broken
        decreases |buf|
      {
        var r := TakeFrame();
        match r
        case Need => return;
        case Bad => return frames, true;
        case Got(f, rest) =>
          Assoc(frames, [f], Parse(buf).frames);
          frames := frames + [f];
      }
    }
  }
}
