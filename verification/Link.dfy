/**
 One control stream, end to end: a feed on one side, bytes under way, a receive buffer on
 the other. Frames may be written, carried and read in pieces of any size. The result is a
 first-in first-out queue of frames, which is how the session protocol uses it.
 */
module Link {
  import opened Wrappers
  import opened Bytes
  import F = Framing
  import opened Feeding

  datatype Stream = Stream(feed: Feed, wire: Bytes, buf: Bytes, got: seq<F.Frame>, broken: bool)

  datatype Event =
    | Send(kind: Kind, frame: F.Frame)
    | Write(n: nat)
    | Carry(n: nat)

  const OPENED := Stream(EMPTY, [], [], [], false)

  function OpOf(e: Event): Op
    requires !e.Carry?
  {
    match e
    case Send(Control, f) => DoCtrl(F.Encode(f))
    case Send(Screen, f) => DoScreen(F.Encode(f))
    case Send(Final, f) => DoFin(F.Encode(f))
    case Write(n) => DoAdvance(n)
  }

  function Next(s: Stream, e: Event): Stream {
    match e
    case Send(_, _) => s.(feed := Do(s.feed, OpOf(e)))
    case Write(n) =>
      s.(feed := Advance(s.feed, n), wire := s.wire + s.feed.out[..Min(n, |s.feed.out|)])
    case Carry(n) =>
      var k := Min(n, |s.wire|);
      var p := F.Parse(s.buf + s.wire[..k]);
      Stream(s.feed, s.wire[k..], p.rest, s.got + p.frames, s.broken || p.broken)
  }

  function Run(s: Stream, events: seq<Event>): Stream
    decreases |events|
  {
    if events == [] then s else Run(Next(s, events[0]), events[1..])
  }

  // ---------- frames of a log ----------

  predicate IsFrame(b: Bytes) { F.SplitFrame(b).Got? && F.SplitFrame(b).rest == [] }

  predicate LogOfFrames(log: seq<Item>) { forall k :: 0 <= k < |log| ==> IsFrame(log[k].frame) }

  predicate QueueOfFrames(f: Feed) {
    && (forall k :: 0 <= k < |f.ctrl| ==> IsFrame(f.ctrl[k]))
    && (f.screen.Some? ==> IsFrame(f.screen.value))
    && (f.fin.Some? ==> IsFrame(f.fin.value))
  }

  function FramesOf(log: seq<Item>): (r: seq<F.Frame>)
    requires LogOfFrames(log)
    ensures |r| == |log|
  {
    if log == [] then []
    else FramesOf(log[..|log| - 1]) + [F.SplitFrame(log[|log| - 1].frame).frame]
  }

  lemma EncodedIsFrame(f: F.Frame)
    requires F.Legal(f)
    ensures IsFrame(F.Encode(f)) && F.Encode(f) != []
  {
    F.SplitEncoded(f, []);
    assert F.Encode(f) + [] == F.Encode(f);
  }

  lemma {:induction false} EncodeAllAppend(a: seq<F.Frame>, b: seq<F.Frame>)
    ensures F.EncodeAll(a + b) == F.EncodeAll(a) + F.EncodeAll(b)
  {
    if a == [] {
      assert a + b == b;
    } else {
      FirstOfBoth(a, b);
      EncodeAllAppend(a[1..], b);
    }
  }

  lemma {:induction false} LogBytes(log: seq<Item>)
    requires LogOfFrames(log)
    ensures F.EncodeAll(FramesOf(log)) == BytesOf(log)
    ensures forall k :: 0 <= k < |log| ==> F.Legal(FramesOf(log)[k])
  {
    if log != [] {
      var init, last := log[..|log| - 1], log[|log| - 1];
      LogBytes(init);
      F.SplitInverts(last.frame);
      var f := F.SplitFrame(last.frame).frame;
      EncodeAllAppend(FramesOf(init), [f]);
      assert F.EncodeAll([f]) == F.Encode(f) + F.EncodeAll([]) == last.frame;
    }
  }

  // ---------- the invariant ----------

  predicate Sound(s: Stream) {
    && Valid(s.feed) && QueuedNonEmpty(s.feed) && LogOfFrames(s.feed.log) && QueueOfFrames(s.feed)
    && !s.broken
    && (forall k :: 0 <= k < |s.got| ==> F.Legal(s.got[k]))
    && s.feed.sent == F.EncodeAll(s.got) + s.buf + s.wire
    && F.Parse(s.buf) == F.Parsed([], s.buf, false)
  }

  // What is still on its way parses to the frames not yet received.
  lemma Outstanding(s: Stream)
    requires Sound(s)
    ensures s.got <= FramesOf(s.feed.log)
    ensures F.Parse(s.buf + s.wire + s.feed.out) == F.Parsed(FramesOf(s.feed.log)[|s.got|..], [], false)
  {
    var rest := s.buf + s.wire + s.feed.out;
    var frames := FramesOf(s.feed.log);
    LogBytes(s.feed.log);
    assert F.Parse([]) == F.Parsed([], [], false);
    hide F.Parse, F.EncodeAll, FramesOf, BytesOf, LogOfFrames, QueueOfFrames, QueuedNonEmpty, F.Legal;
    StillComing(F.EncodeAll(s.got), s.buf, s.wire, s.feed.out);
    F.ParseBehind(s.got, rest);
    F.ParseBehind(frames, []);
    assert F.EncodeAll(frames) + [] == BytesOf(s.feed.log);
    assert frames + [] == frames;
    BehindPrefix(s.got, F.Parse(rest).frames, frames);
  }

  lemma StillComing(got: Bytes, buf: Bytes, wire: Bytes, out: Bytes)
    ensures got + (buf + wire + out) == got + buf + wire + out
  {
  }

  lemma PumpFrames(f: Feed)
    requires LogOfFrames(f.log) && QueueOfFrames(f)
    ensures LogOfFrames(Pump(f).log) && QueueOfFrames(Pump(f))
  {
  }

  lemma SendFrames(f: Feed, e: Event)
    requires LogOfFrames(f.log) && QueueOfFrames(f) && !e.Carry? && (e.Send? ==> F.Legal(e.frame))
    ensures LogOfFrames(Do(f, OpOf(e)).log) && QueueOfFrames(Do(f, OpOf(e)))
  {
    match e
    case Send(kind, frame) =>
      EncodedIsFrame(frame);
      PumpFrames(f);
      PumpFrames(f.(screen := Some(F.Encode(frame))));
      PumpFrames(f.(fin := Some(F.Encode(frame)), ctrl := [], ctrlBytes := 0));
    case Write(n) =>
      var k := Min(n, |f.out|);
      PumpFrames(f.(out := f.out[k..], sent := f.sent + f.out[..k]));
  }

  // What has arrived is never refused.
  lemma CarryIntact(s: Stream, k: nat)
    requires Sound(s) && k <= |s.wire|
    ensures !F.Parse(s.buf + s.wire[..k]).broken
  {
    hide F.Parse, F.SplitFrame, FramesOf, Sound;
    var a, b := s.buf + s.wire[..k], s.wire[k..] + s.feed.out;
    Outstanding(s);
    assert a + b == s.buf + s.wire + s.feed.out;
    if F.Parse(a).broken { F.BrokenStaysBroken(a, b); }
  }

  lemma CarrySound(s: Stream, n: nat)
    requires Sound(s)
    ensures Sound(Next(s, Carry(n)))
  {
    var k := Min(n, |s.wire|);
    var a := s.buf + s.wire[..k];
    var p := F.Parse(a);
    CarryIntact(s, k);
    F.RestIsSettled(a);
    LegalFrames(a);
    F.ParseConserves(a);
    EncodeAllAppend(s.got, p.frames);
    BothLegal(s.got, p.frames);
    hide F.Parse, F.SplitFrame, F.Encode, F.EncodeAll, F.Legal, FramesOf, Valid, QueuedNonEmpty, LogOfFrames, QueueOfFrames;
    CarriedBytes(F.EncodeAll(s.got), s.buf, s.wire, k, F.EncodeAll(p.frames), p.rest);
  }

  lemma BothLegal(a: seq<F.Frame>, b: seq<F.Frame>)
    requires (forall k :: 0 <= k < |a| ==> F.Legal(a[k])) && (forall k :: 0 <= k < |b| ==> F.Legal(b[k]))
    ensures forall k :: 0 <= k < |a + b| ==> F.Legal((a + b)[k])
  {
  }

  lemma CarriedBytes(got: Bytes, buf: Bytes, wire: Bytes, k: nat, frames: Bytes, rest: Bytes)
    requires k <= |wire| && buf + wire[..k] == frames + rest
    ensures got + buf + wire == got + frames + rest + wire[k..]
  {
    assert wire == wire[..k] + wire[k..];
    Assoc(got + buf, wire[..k], wire[k..]);
    Assoc(got, buf, wire[..k]);
    Assoc(got, frames, rest);
  }

  lemma {:induction false} LegalFrames(a: Bytes)
    ensures forall k :: 0 <= k < |F.Parse(a).frames| ==> F.Legal(F.Parse(a).frames[k])
    decreases |a|
  {
    if F.SplitFrame(a).Got? {
      F.SplitInverts(a);
      LegalFrames(F.SplitFrame(a).rest);
    }
  }

  lemma NextSound(s: Stream, e: Event)
    requires Sound(s) && (e.Send? ==> F.Legal(e.frame))
    ensures Sound(Next(s, e)) && s.got <= Next(s, e).got
    ensures s.feed.log <= Next(s, e).feed.log
  {
    hide F.Parse, F.EncodeAll, F.Legal, Valid, QueuedNonEmpty, LogOfFrames, QueueOfFrames, Do, Advance;
    match e
    case Send(kind, frame) =>
      EncodedIsFrame(frame);
      SendFrames(s.feed, e);
      StepValid(s.feed, OpOf(e));
      SendKeepsSent(s.feed, OpOf(e));
    case Write(n) =>
      SendFrames(s.feed, e);
      WriteIsAdvance(s.feed, n);
      AdvanceValid(s.feed, n);
    case Carry(n) => CarrySound(s, n);
  }

  lemma WriteIsAdvance(f: Feed, n: nat)
    ensures Do(f, DoAdvance(n)) == Advance(f, n)
  {
  }

  lemma SendKeepsSent(f: Feed, op: Op)
    requires !op.DoAdvance?
    ensures Do(f, op).sent == f.sent
  {
  }

  // The stream is a queue of frames: whatever the sizes of writes, packets and reads, what
  // the receiver has got is a prefix of the frames put in flight, none is ever refused, and
  // once nothing is under way it has got them all.
  lemma {:induction false} StreamIsAQueue(s: Stream, events: seq<Event>)
    requires Sound(s) && forall k :: 0 <= k < |events| && events[k].Send? ==> F.Legal(events[k].frame)
    ensures var t := Run(s, events);
            && Sound(t) && !t.broken
            && s.got <= t.got <= FramesOf(t.feed.log) && s.feed.log <= t.feed.log
            && (t.feed.out == [] && t.wire == [] ==> t.got == FramesOf(t.feed.log) && t.buf == [])
    decreases |events|
  {
    if events == [] {
      Outstanding(s);
      assert s.feed.out == [] && s.wire == [] ==> s.buf + s.wire + s.feed.out == s.buf;
    } else {
      NextSound(s, events[0]);
      StreamIsAQueue(Next(s, events[0]), events[1..]);
    }
  }

  lemma OpenedSound()
    ensures Sound(OPENED)
  {
    assert F.Parse([]) == F.Parsed([], [], false);
  }
}
