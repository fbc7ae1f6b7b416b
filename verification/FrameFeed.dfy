/**
 The outbound side of a stream: one frame in flight, a byte-capped queue of control frames,
 one replaceable screen and one final frame. The methods are proved against functions on a
 state that also records, as history, the bytes handed out and the frames started.
 */
module Feeding {
  import opened Wrappers
  import opened Bytes

  const CTRL_CAP := 64 * 1024

  datatype Kind = Control | Screen | Final
  datatype Item = Item(kind: Kind, frame: Bytes)

  datatype Feed = Feed(
    out: Bytes,
    screen: Option<Bytes>,
    ctrl: seq<Bytes>,
    ctrlBytes: nat,
    fin: Option<Bytes>,
    sent: Bytes,        // history: every byte handed out
    log: seq<Item>)     // history: every frame moved into flight, in order

  const EMPTY := Feed([], None, [], 0, None, [], [])

  // ---------- operations ----------

  function Start(f: Feed, kind: Kind, frame: Bytes): Feed {
    f.(out := f.out + frame, log := f.log + [Item(kind, frame)])
  }

  // Nothing in flight: start the next control frame, else the screen, else the last frame.
  function Pump(f: Feed): Feed {
    if f.out != [] then f
    else if f.ctrl != [] then
      Start(f.(ctrl := f.ctrl[1..], ctrlBytes := SaturatingSub(f.ctrlBytes, |f.ctrl[0]|)), Control, f.ctrl[0])
    else if f.screen.Some? then Start(f.(screen := None), Screen, f.screen.value)
    else if f.fin.Some? then Start(f.(fin := None), Final, f.fin.value)
    else f
  }

  function PushScreen(f: Feed, frame: Bytes): Feed { Pump(f.(screen := Some(frame))) }

  predicate Accepts(f: Feed, frame: Bytes) {
    var g := Pump(f);
    (g.out == [] && g.ctrl == []) || g.ctrlBytes + |frame| <= CTRL_CAP
  }

  function PushCtrl(f: Feed, frame: Bytes): Feed {
    var g := Pump(f);
    if g.out == [] && g.ctrl == [] then Start(g, Control, frame)
    else if g.ctrlBytes + |frame| > CTRL_CAP then g
    else g.(ctrlBytes := g.ctrlBytes + |frame|, ctrl := g.ctrl + [frame])
  }

  function PushFin(f: Feed, frame: Bytes): Feed {
    Pump(f.(fin := Some(frame), ctrl := [], ctrlBytes := 0))
  }

  function Advance(f: Feed, n: nat): Feed {
    var k := Min(n, |f.out|);
    Pump(f.(out := f.out[k..], sent := f.sent + f.out[..k]))
  }

  predicate Idle(f: Feed) { f.out == [] && f.screen.None? && f.ctrl == [] && f.fin.None? }

  datatype Op = DoPump | DoScreen(frame: Bytes) | DoCtrl(frame: Bytes) | DoFin(frame: Bytes) | DoAdvance(n: nat)

  function Do(f: Feed, op: Op): Feed {
    match op
    case DoPump => Pump(f)
    case DoScreen(frame) => PushScreen(f, frame)
    case DoCtrl(frame) => PushCtrl(f, frame)
    case DoFin(frame) => PushFin(f, frame)
    case DoAdvance(n) => Advance(f, n)
  }

  function Run(f: Feed, ops: seq<Op>): Feed
    decreases |ops|
  {
    if ops == [] then f else Run(Do(f, ops[0]), ops[1..])
  }

  // ---------- what the feed promises ----------

  function BytesOf(log: seq<Item>): Bytes {
    if log == [] then [] else BytesOf(log[..|log| - 1]) + log[|log| - 1].frame
  }

  function ControlsOf(log: seq<Item>): seq<Bytes> {
    if log == [] then []
    else
      var it := log[|log| - 1];
      ControlsOf(log[..|log| - 1]) + (if it.kind.Control? then [it.frame] else [])
  }

  function Total(frames: seq<Bytes>): nat {
    if frames == [] then 0 else |frames[0]| + Total(frames[1..])
  }

  // The bytes handed out and those in flight are a concatenation of whole frames; the
  // byte count of the control queue is exact and capped; an idle stream has nothing queued.
  predicate Valid(f: Feed) {
    && f.sent + f.out == BytesOf(f.log)
    && f.ctrlBytes == Total(f.ctrl) <= CTRL_CAP
    && (f.out == [] ==> Idle(f))
  }

  predicate NonEmpty(op: Op) {
    match op
    case DoScreen(frame) => frame != []
    case DoCtrl(frame) => frame != []
    case DoFin(frame) => frame != []
    case _ => true
  }

  predicate QueuedNonEmpty(f: Feed) {
    && (forall k :: 0 <= k < |f.ctrl| ==> f.ctrl[k] != [])
    && (f.screen.Some? ==> f.screen.value != [])
    && (f.fin.Some? ==> f.fin.value != [])
  }

  lemma {:induction false} TotalAppend(frames: seq<Bytes>, frame: Bytes)
    ensures Total(frames + [frame]) == Total(frames) + |frame|
  {
    if frames != [] {
      FirstOfBoth(frames, [frame]);
      TotalAppend(frames[1..], frame);
    }
  }

  lemma LogAppend(log: seq<Item>, it: Item)
    ensures BytesOf(log + [it]) == BytesOf(log) + it.frame
    ensures ControlsOf(log + [it]) == ControlsOf(log) + (if it.kind.Control? then [it.frame] else [])
  {
    assert (log + [it])[..|log|] == log;
  }

  // Everything but the idle clause survives a pump, which then restores that clause.
  lemma PumpValid(f: Feed)
    requires f.sent + f.out == BytesOf(f.log) && f.ctrlBytes == Total(f.ctrl) <= CTRL_CAP && QueuedNonEmpty(f)
    ensures Valid(Pump(f)) && QueuedNonEmpty(Pump(f))
    ensures ControlsOf(Pump(f).log) + Pump(f).ctrl == ControlsOf(f.log) + f.ctrl
    ensures Pump(f).sent == f.sent && f.log <= Pump(f).log
  {
    if f.out == [] {
      if f.ctrl != [] {
        StartsControl(f);
      } else if f.screen.Some? {
        StartsOther(f, f.(screen := None), Screen, f.screen.value);
      } else if f.fin.Some? {
        StartsOther(f, f.(fin := None), Final, f.fin.value);
      }
    }
  }

  lemma StartsControl(f: Feed)
    requires f.sent + f.out == BytesOf(f.log) && f.ctrlBytes == Total(f.ctrl) <= CTRL_CAP && QueuedNonEmpty(f)
    requires f.out == [] && f.ctrl != []
    ensures var g := Start(f.(ctrl := f.ctrl[1..], ctrlBytes := SaturatingSub(f.ctrlBytes, |f.ctrl[0]|)), Control, f.ctrl[0]);
            Valid(g) && QueuedNonEmpty(g) && ControlsOf(g.log) + g.ctrl == ControlsOf(f.log) + f.ctrl
  {
    hide BytesOf, ControlsOf;
    var first, later := f.ctrl[0], f.ctrl[1..];
    LogAppend(f.log, Item(Control, first));
    assert f.sent + f.out + first == f.sent + (f.out + first);
    assert f.ctrl == [first] + later;
    Assoc(ControlsOf(f.log), [first], later);
  }

  lemma StartsOther(f: Feed, g: Feed, kind: Kind, frame: Bytes)
    requires f.sent + f.out == BytesOf(f.log) && f.ctrlBytes == Total(f.ctrl) <= CTRL_CAP && QueuedNonEmpty(g)
    requires g == f.(screen := g.screen, fin := g.fin) && !kind.Control? && f.out == [] && frame != []
    ensures var h := Start(g, kind, frame);
            Valid(h) && QueuedNonEmpty(h) && ControlsOf(h.log) == ControlsOf(f.log)
  {
    LogAppend(f.log, Item(kind, frame));
    hide BytesOf, ControlsOf, Total;
    assert f.sent + (f.out + frame) == f.sent + f.out + frame;
    assert ControlsOf(f.log) + [] == ControlsOf(f.log);
  }

  lemma PumpIdle(f: Feed)
    requires Valid(f)
    ensures Pump(f) == f
  {
  }

  lemma CtrlValid(f: Feed, frame: Bytes)
    requires Valid(f) && QueuedNonEmpty(f) && frame != []
    ensures var g := PushCtrl(f, frame);
            && Valid(g) && QueuedNonEmpty(g) && g.sent == f.sent && f.log <= g.log
            && ControlsOf(g.log) + g.ctrl == ControlsOf(f.log) + f.ctrl + (if Accepts(f, frame) then [frame] else [])
  {
    PumpIdle(f);
    LogAppend(f.log, Item(Control, frame));
    TotalAppend(f.ctrl, frame);
    assert ControlsOf(f.log) + (f.ctrl + [frame]) == ControlsOf(f.log) + f.ctrl + [frame];
  }

  // On an idle stream a control frame goes into flight at once; afterwards none is idle.
  lemma CtrlAtOnce(f: Feed, frame: Bytes)
    requires Valid(f) && frame != []
    ensures var g := PushCtrl(f, frame);
            && g.out != []
            && (f.out == [] ==> Idle(f) && g.log == f.log + [Item(Control, frame)] && g.ctrl == [])
  {
    PumpIdle(f);
  }

  lemma AdvanceValid(f: Feed, n: nat)
    requires Valid(f) && QueuedNonEmpty(f)
    ensures var g := Advance(f, n);
            && Valid(g) && QueuedNonEmpty(g) && g.sent == f.sent + f.out[..Min(n, |f.out|)] && f.log <= g.log
            && ControlsOf(g.log) + g.ctrl == ControlsOf(f.log) + f.ctrl
  {
    var k := Min(n, |f.out|);
    assert f.sent + f.out[..k] + f.out[k..] == f.sent + f.out;
    PumpValid(f.(out := f.out[k..], sent := f.sent + f.out[..k]));
  }

  // One operation: the invariant stays, bytes only grow, and the control frames started or
  // queued change exactly by the frame that was accepted, or by those `PushFin` discards.
  lemma StepValid(f: Feed, op: Op)
    requires Valid(f) && QueuedNonEmpty(f) && NonEmpty(op)
    ensures var g := Do(f, op);
            && Valid(g) && QueuedNonEmpty(g) && f.sent <= g.sent && f.log <= g.log
            && ControlsOf(g.log) + g.ctrl ==
                 match op
                 case DoCtrl(frame) => ControlsOf(f.log) + f.ctrl + (if Accepts(f, frame) then [frame] else [])
                 case DoFin(_) => ControlsOf(f.log)
                 case _ => ControlsOf(f.log) + f.ctrl
  {
    hide Pump, ControlsOf, BytesOf, Total, PushCtrl, Accepts, Advance;
    match op
    case DoPump => PumpValid(f);
    case DoScreen(frame) => PumpValid(f.(screen := Some(frame)));
    case DoCtrl(frame) => CtrlValid(f, frame);
    case DoFin(frame) =>
      assert Total([]) == 0 by { TotalNone(); }
      PumpValid(f.(fin := Some(frame), ctrl := [], ctrlBytes := 0));
    case DoAdvance(n) => AdvanceValid(f, n);
  }

  lemma TotalNone()
    ensures Total([]) == 0
  {
  }

  // The control frames a run accepts, in order; those still queued at a `PushFin` are lost.
  function AcceptedBy(f: Feed, ops: seq<Op>, accepted: seq<Bytes>): seq<Bytes>
    decreases |ops|
  {
    if ops == [] then accepted
    else
      var now := match ops[0]
        case DoCtrl(frame) => if Accepts(f, frame) then accepted + [frame] else accepted
        case DoFin(_) => ControlsOf(f.log)
        case _ => accepted;
      AcceptedBy(Do(f, ops[0]), ops[1..], now)
  }

  // For every run: what was handed out is a prefix of whole frames, and the control frames
  // that left or still wait are exactly those accepted, each once, in order.
  lemma {:induction false} FeedIsALog(f: Feed, ops: seq<Op>, accepted: seq<Bytes>)
    requires Valid(f) && QueuedNonEmpty(f) && (forall k :: 0 <= k < |ops| ==> NonEmpty(ops[k]))
    requires ControlsOf(f.log) + f.ctrl == accepted
    ensures var g := Run(f, ops);
            && Valid(g) && g.sent <= BytesOf(g.log) && f.log <= g.log
            && ControlsOf(g.log) + g.ctrl == AcceptedBy(f, ops, accepted)
    decreases |ops|
  {
    if ops != [] {
      var g := Do(f, ops[0]);
      StepValid(f, ops[0]);
      FeedIsALog(g, ops[1..], ControlsOf(g.log) + g.ctrl);
    }
  }

  // ---------- the final frame goes out last ----------

  function LastScreen(log: seq<Item>): Option<Bytes> {
    if log == [] then None
    else if log[|log| - 1].kind.Screen? then Some(log[|log| - 1].frame)
    else LastScreen(log[..|log| - 1])
  }

  // The screen that waits, else the one that left last.
  function NewestScreen(f: Feed): Option<Bytes> { if f.screen.Some? then f.screen else LastScreen(f.log) }

  // The screen pushed last in a run, else the one there was before.
  function Pushed(ops: seq<Op>, before: Option<Bytes>): Option<Bytes>
    decreases |ops|
  {
    if ops == [] then before
    else Pushed(ops[1..], if ops[0].DoScreen? then Some(ops[0].frame) else before)
  }

  lemma LastScreenAppend(log: seq<Item>, it: Item)
    ensures LastScreen(log + [it]) == if it.kind.Screen? then Some(it.frame) else LastScreen(log)
  {
    assert (log + [it])[..|log|] == log;
  }

  // A pump starts at most one frame, a final one only when nothing else waits, and no
  // screen is lost.
  lemma PumpStarts(f: Feed)
    ensures var g := Pump(f);
            && NewestScreen(g) == NewestScreen(f)
            && (g.log == f.log || exists it :: g.log == f.log + [it] && (it.kind.Final? ==> g.screen.None? && g.ctrl == []))
  {
    var g := Pump(f);
    if g.log != f.log {
      var it := g.log[|f.log|];
      assert g.log == f.log + [it];
      LastScreenAppend(f.log, it);
    }
  }

  lemma StepStarts(f: Feed, op: Op)
    requires Valid(f)
    ensures var g := Do(f, op);
            && NewestScreen(g) == (if op.DoScreen? then Some(op.frame) else NewestScreen(f))
            && (g.log == f.log || exists it :: g.log == f.log + [it] && (it.kind.Final? ==> g.screen.None? && g.ctrl == []))
  {
    match op
    case DoPump => PumpStarts(f);
    case DoScreen(frame) => PumpStarts(f.(screen := Some(frame)));
    case DoCtrl(frame) =>
      PumpIdle(f);
      LastScreenAppend(f.log, Item(Control, frame));
      hide Pump, LastScreen;
    case DoFin(frame) => PumpStarts(f.(fin := Some(frame), ctrl := [], ctrlBytes := 0));
    case DoAdvance(n) =>
      var k := Min(n, |f.out|);
      PumpStarts(f.(out := f.out[k..], sent := f.sent + f.out[..k]));
  }

  // At step `j` of a run the log ended with item `p`, nothing but the final frame was waiting,
  // and the last screen to leave was the last one pushed.
  predicate NothingElse(f: Feed, ops: seq<Op>, j: nat, log: seq<Item>, p: nat)
    requires j <= |ops| && p < |log|
  {
    var h := Run(f, ops[..j]);
    && h.log == log[..p + 1] && h.screen.None? && h.ctrl == []
    && LastScreen(h.log) == Pushed(ops[..j], NewestScreen(f))
  }

  // In any run: a final frame is started only when no screen and no control frame waits, and
  // the screen before it is the newest one pushed, however late.
  lemma {:induction false} ScreenBeforeFinal(f: Feed, ops: seq<Op>, p: nat)
    requires Valid(f) && QueuedNonEmpty(f) && (forall k :: 0 <= k < |ops| ==> NonEmpty(ops[k]))
    requires |f.log| <= p < |Run(f, ops).log| && Run(f, ops).log[p].kind.Final?
    ensures exists j :: 0 <= j <= |ops| && NothingElse(f, ops, j, Run(f, ops).log, p)
    decreases |ops|
  {
    if ops != [] {
      var g, r := Do(f, ops[0]), Run(f, ops);
      StepValid(f, ops[0]);
      StepStarts(f, ops[0]);
      FeedIsALog(g, ops[1..], ControlsOf(g.log) + g.ctrl);
      if p < |g.log| {
        assert r.log[..p + 1] == g.log;
        OneStep(f, ops);
        assert NothingElse(f, ops, 1, r.log, p);
      } else {
        ScreenBeforeFinal(g, ops[1..], p);
        var j :| 0 <= j <= |ops| - 1 && NothingElse(g, ops[1..], j, r.log, p);
        LaterStep(f, ops, j, r.log, p);
      }
    }
  }

  lemma LaterStep(f: Feed, ops: seq<Op>, j: nat, log: seq<Item>, p: nat)
    requires j < |ops| && p < |log| && NothingElse(Do(f, ops[0]), ops[1..], j, log, p)
    requires NewestScreen(Do(f, ops[0])) == if ops[0].DoScreen? then Some(ops[0].frame) else NewestScreen(f)
    ensures NothingElse(f, ops, j + 1, log, p)
  {
    assert ops[..j + 1][1..] == ops[1..][..j];
  }

  lemma OneStep(f: Feed, ops: seq<Op>)
    requires ops != []
    ensures Run(f, ops[..1]) == Do(f, ops[0])
    ensures Pushed(ops[..1], NewestScreen(f)) == if ops[0].DoScreen? then Some(ops[0].frame) else NewestScreen(f)
  {
    assert ops[..1][1..] == [];
  }

  // When nothing but writing follows, a final frame goes out behind the frame in flight and
  // the newest pending screen, and nothing else, however the bytes are written.
  lemma {:induction false} FinalDrains(f: Feed, writes: seq<nat>)
    requires Valid(f) && QueuedNonEmpty(f) && f.ctrl == [] && f.fin.Some? && f.out != []
    ensures var g := Run(f, seq(|writes|, k requires 0 <= k < |writes| => DoAdvance(writes[k])));
            var screen := if f.screen.Some? then [Item(Screen, f.screen.value)] else [];
            g.log <= f.log + screen + [Item(Final, f.fin.value)] && (Idle(g) ==> g.log == f.log + screen + [Item(Final, f.fin.value)])
    decreases |writes|
  {
    if writes != [] {
      var ops := seq(|writes|, k requires 0 <= k < |writes| => DoAdvance(writes[k]));
      var rest := writes[1..];
      assert ops[1..] == seq(|rest|, k requires 0 <= k < |rest| => DoAdvance(rest[k]));
      assert ops[0] == DoAdvance(writes[0]);
      var g := Advance(f, writes[0]);
      StepValid(f, DoAdvance(writes[0]));
      if g.fin.Some? {
        FinalDrains(g, rest);
        if f.screen.Some? && g.screen.None? {
          assert g.log + [] + [Item(Final, f.fin.value)] == f.log + [Item(Screen, f.screen.value)] + [Item(Final, f.fin.value)];
        }
      } else {
        OnlyWrites(g, rest);
      }
    }
  }

  lemma {:induction false} OnlyWrites(f: Feed, writes: seq<nat>)
    requires f.ctrl == [] && f.screen.None? && f.fin.None?
    ensures Run(f, seq(|writes|, k requires 0 <= k < |writes| => DoAdvance(writes[k]))).log == f.log
    decreases |writes|
  {
    if writes != [] {
      var ops := seq(|writes|, k requires 0 <= k < |writes| => DoAdvance(writes[k]));
      var rest := writes[1..];
      assert ops[1..] == seq(|rest|, k requires 0 <= k < |rest| => DoAdvance(rest[k]));
      OnlyWrites(Advance(f, writes[0]), rest);
    }
  }

  // ---------- the objects ----------

  /** Bytes waiting to go out. */
  class OutBuf {
    var buf: Bytes
    var off: nat

    ghost predicate Valid()
      reads this
    {
      off <= |buf|
    }

    ghost function Rest(): Bytes
      reads this
      requires Valid()
    {
      buf[off..]
    }

    constructor ()
      ensures Valid() && Rest() == []
    {
      buf, off := [], 0;
    }

    method Queue(bytes: Bytes)
      requires Valid()
      modifies this
      ensures Valid() && Rest() == old(Rest()) + bytes
    {
      buf := buf + bytes;
    }

    method IsEmpty() returns (empty: bool)
      requires Valid()
      ensures empty == (Rest() == [])
    {
      empty := off >= |buf|;
    }

    // Drop `n` written bytes; more than there are empties the buffer.
    method AdvanceBy(n: nat)
      requires Valid()
      modifies this
      ensures Valid() && Rest() == old(Rest())[Min(n, |old(Rest())|)..]
    {
      off := off + n;
      if off >= |buf| {
        buf, off := [], 0;
        return;
      }
      buf := buf[off..];
      off := 0;
    }
  }

  class FrameFeed {
    const out: OutBuf
    var screen: Option<Bytes>
    var ctrl: seq<Bytes>
    var ctrlBytes: nat
    var fin: Option<Bytes>
    ghost var sent: Bytes
    ghost var log: seq<Item>

    ghost predicate Valid()
      reads this, out
    {
      out.Valid()
    }

    ghost function View(): Feed
      reads this, out
      requires Valid()
    {
      Feed(out.Rest(), screen, ctrl, ctrlBytes, fin, sent, log)
    }

    constructor ()
      ensures Valid() && fresh(out) && View() == EMPTY
    {
      out := new OutBuf();
      screen, ctrl, ctrlBytes, fin := None, [], 0, None;
      sent, log := [], [];
    }

    method StartFrame(ghost kind: Kind, frame: Bytes)
      requires Valid()
      modifies this, out
      ensures Valid() && View() == Start(old(View()), kind, frame)
    {
      out.Queue(frame);
      log := log + [Item(kind, frame)];
    }

    method PumpNext()
      requires Valid()
      modifies this, out
      ensures Valid() && View() == Pump(old(View()))
    {
      var empty := out.IsEmpty();
      if !empty { return; }
      if ctrl != [] {
        var f := ctrl[0];
        ctrl := ctrl[1..];
        ctrlBytes := SaturatingSub(ctrlBytes, |f|);
        StartFrame(Control, f);
        return;
      }
      if screen.Some? {
        var f := screen.value;
        screen := None;
        StartFrame(Screen, f);
        return;
      }
      if fin.Some? {
        var f := fin.value;
        fin := None;
        StartFrame(Final, f);
      }
    }

    method Writing() returns (writing: bool)
      requires Valid()
      ensures writing == (View().out != [])
    {
      var empty := out.IsEmpty();
      writing := !empty;
    }

    method Screened(frame: Bytes)
      requires Valid()
      modifies this, out
      ensures Valid() && View() == PushScreen(old(View()), frame)
    {
      screen := Some(frame);
      PumpNext();
    }

    // Queue a control frame. Any size is taken when nothing is waiting.
    method Controlled(frame: Bytes) returns (accepted: bool)
      requires Valid()
      modifies this, out
      ensures Valid() && View() == PushCtrl(old(View()), frame)
      ensures accepted == Accepts(old(View()), frame)
    {
      PumpNext();
      var empty := out.IsEmpty();
      if empty && ctrl == [] {
        StartFrame(Control, frame);
        return true;
      }
      if ctrlBytes + |frame| > CTRL_CAP { return false; }
      ctrlBytes := ctrlBytes + |frame|;
      ctrl := ctrl + [frame];
      accepted := true;
    }

    method Finish(frame: Bytes)
      requires Valid()
      modifies this, out
      ensures Valid() && View() == PushFin(old(View()), frame)
    {
      fin := Some(frame);
      ctrl := [];
      ctrlBytes := 0;
      PumpNext();
    }

    method Written(n: nat)
      requires Valid()
      modifies this, out
      ensures Valid() && View() == Advance(old(View()), n)
    {
      sent := sent + out.Rest()[..Min(n, |out.Rest()|)];
      out.AdvanceBy(n);
      PumpNext();
    }
  }
}
