/**
 The server's side of one connection: control frames come out of a receive buffer, input
 waits in a bounded queue until the owner's command queue has room. The methods of `Session`
 and `Handler` are proved against functions on the two states.
 */
module Transport {
  import opened Wrappers
  import opened Bytes
  import opened ClientNet
  import opened Messages
  import F = Framing
  import Feeding

  const CMD_Q := 32
  const BUSY_CAP := 256 * 1024
  // Counted for each record besides its data, so tiny records are not free.
  const INPUT_RECORD_OVERHEAD := 32

  const MIN_AXIS := 2
  const MAX_AXIS := 512

  datatype Cmd = Input(message: Message) | Resize(cols: nat, rows: nat) | Ack(version: nat)

  datatype Queued = Done | Busy | Refused

  // What all handlers of a session share.
  datatype Desk = Desk(epoch: nat, lastAcked: nat, cmds: seq<Cmd>, closed: bool, shutdown: bool, maxCells: nat)

  // What one handler owns.
  datatype Line = Line(leftover: Bytes, feed: Feeding.Feed, busy: seq<Message>, resize: Option<(nat, nat)>)

  datatype Step = Step(desk: Desk, line: Line, ok: bool)

  // ---------- the desk ----------

  predicate LegalInput(data: Bytes) { 0 < |data| <= MAX_INPUT_BYTES }

  predicate LegalSize(cols: nat, rows: nat, maxCells: nat) {
    MIN_AXIS <= cols <= MAX_AXIS && MIN_AXIS <= rows <= MAX_AXIS && cols * rows <= maxCells
  }

  function Send(d: Desk, c: Cmd): (r: (Desk, Queued)) {
    if d.closed then (d, Refused)
    else if |d.cmds| >= CMD_Q then (d, Busy)
    else (d.(cmds := d.cmds + [c]), Done)
  }

  function TryInput(d: Desk, m: Message): (Desk, Queued) {
    if LegalInput(m.data) then Send(d, Input(m)) else (d, Refused)
  }

  function TryResize(d: Desk, cols: nat, rows: nat): (Desk, Queued) {
    if LegalSize(cols, rows, d.maxCells) then Send(d, Resize(cols, rows)) else (d, Refused)
  }

  function AckState(d: Desk, version: nat): Desk { d.(lastAcked := Max(d.lastAcked, version)) }

  // The acknowledgement counts even if the owner's queue is full.
  function TryAck(d: Desk, version: nat): Desk { AckState(Send(d, Ack(version)).0, version) }

  // ---------- the line ----------

  function RecordCost(m: Message): nat { INPUT_RECORD_OVERHEAD + |m.data| }

  function BusyBytes(q: seq<Message>): nat {
    if q == [] then 0 else BusyBytes(q[..|q| - 1]) + RecordCost(q[|q| - 1])
  }

  function OnControl(d: Desk, l: Line, epoch: nat, f: F.Frame): Step {
    if d.epoch != epoch then Step(d, l, true)
    else if f.typ == MSG_INPUT then
      match DecodeInput(f.payload)
      case None => Step(d, l, true)
      case Some(m) =>
        if LegalInput(m.data) then Step(d, l.(busy := l.busy + [m]), true) else Step(d, l, false)
    else if f.typ == MSG_RESIZE then
      Step(d, if DecodeResize(f.payload).Some? then l.(resize := DecodeResize(f.payload)) else l, true)
    else if f.typ == MSG_HANGUP then Step(d.(shutdown := true), l, true)
    else if f.typ == MSG_ACK_STATE then
      Step(if DecodeNumber(f.payload).Some? then TryAck(d, DecodeNumber(f.payload).value) else d, l, true)
    else if f.typ == MSG_PING then
      Step(d, l.(feed := Feeding.PushCtrl(l.feed, F.Encode(F.Frame(MSG_PONG, [])))), true)
    else Step(d, l, true)
  }

  // Why the handler leaves the buffer alone.
  predicate Stops(d: Desk, l: Line, epoch: nat) {
    || d.epoch != epoch
    || F.SplitFrame(l.leftover).Need?
    || (F.SplitFrame(l.leftover).Got? && F.SplitFrame(l.leftover).frame.typ == MSG_INPUT && BusyBytes(l.busy) >= BUSY_CAP)
  }

  function DrainLeftover(d: Desk, l: Line, epoch: nat): (r: Step)
    decreases |l.leftover|
  {
    if Stops(d, l, epoch) then Step(d, l, true)
    else match F.SplitFrame(l.leftover)
      case Bad => Step(d, l, false)
      case Got(f, rest) =>
        var s := OnControl(d, l.(leftover := rest), epoch, f);
        if s.ok then DrainLeftover(s.desk, s.line, epoch) else s
  }

  // A record the desk refuses is dropped and ends the loop.
  function DrainBusy(d: Desk, l: Line): (r: (Desk, Line))
    decreases |l.busy|
  {
    if l.busy == [] then (d, l)
    else
      var sent := TryInput(d, l.busy[0]);
      match sent.1
      case Done => DrainBusy(sent.0, l.(busy := l.busy[1..]))
      case Busy => (d, l)
      case Refused => (d, l.(busy := l.busy[1..]))
  }

  // The last screen goes out ahead of the exit message.
  function QueueExit(d: Desk, l: Line, epoch: nat, latest: Option<Bytes>, exit: Bytes): Line {
    if d.epoch != epoch then l
    else
      var feed := if latest.Some? then Feeding.PushScreen(l.feed, F.Encode(F.Frame(MSG_SCREEN, latest.value))) else l.feed;
      l.(feed := Feeding.PushFin(feed, exit))
  }

  // ---------- nothing is lost between the buffer and the queue ----------

  // The inputs among some frames, as the handler understands them.
  function InputsOf(frames: seq<F.Frame>): seq<Message> {
    if frames == [] then []
    else
      var m := if frames[0].typ == MSG_INPUT then DecodeInput(frames[0].payload) else None;
      (if m.Some? then [m.value] else []) + InputsOf(frames[1..])
  }

  // All inputs of a line that have not reached the desk, in order.
  function Waiting(l: Line): seq<Message> { l.busy + InputsOf(F.Parse(l.leftover).frames) }

  predicate LegalBusy(q: seq<Message>) { forall k :: 0 <= k < |q| ==> LegalInput(q[k].data) }

  // The queue never holds more than one record beyond its cap.
  predicate Bounded(q: seq<Message>) { BusyBytes(q) < BUSY_CAP + INPUT_RECORD_OVERHEAD + MAX_INPUT_BYTES }

  lemma ControlConserves(d: Desk, l: Line, epoch: nat, f: F.Frame)
    requires d.epoch == epoch && OnControl(d, l, epoch, f).ok && LegalBusy(l.busy)
    ensures var s := OnControl(d, l, epoch, f);
            && s.line.busy == l.busy + InputsOf([f]) && s.line.leftover == l.leftover && LegalBusy(s.line.busy)
            && s.desk.epoch == d.epoch && s.desk.lastAcked >= d.lastAcked && d.cmds <= s.desk.cmds
  {
    assert InputsOf([f]) == (if f.typ == MSG_INPUT && DecodeInput(f.payload).Some? then [DecodeInput(f.payload).value] else []) + InputsOf([]);
  }

  // Draining the buffer moves inputs to the queue in order, keeps every one, and stops only
  // for the reasons in `Stops`.
  lemma {:induction false} DrainConserves(d: Desk, l: Line, epoch: nat)
    requires LegalBusy(l.busy) && DrainLeftover(d, l, epoch).ok
    ensures var s := DrainLeftover(d, l, epoch);
            && Waiting(s.line) == Waiting(l) && l.busy <= s.line.busy && LegalBusy(s.line.busy)
            && Stops(s.desk, s.line, epoch)
            && s.desk.epoch == d.epoch && s.desk.lastAcked >= d.lastAcked && d.cmds <= s.desk.cmds
    decreases |l.leftover|
  {
    hide OnControl, F.PeekLen;
    if !Stops(d, l, epoch) {
      var f, rest := F.SplitFrame(l.leftover).frame, F.SplitFrame(l.leftover).rest;
      var next := l.(leftover := rest);
      var s := OnControl(d, next, epoch, f);
      ControlConserves(d, next, epoch, f);
      OneFrame(l.busy, f, F.Parse(rest).frames);
      DrainConserves(s.desk, s.line, epoch);
    }
  }

  lemma OneFrame(busy: seq<Message>, f: F.Frame, frames: seq<F.Frame>)
    ensures busy + InputsOf([f] + frames) == busy + InputsOf([f]) + InputsOf(frames)
  {
    assert ([f] + frames)[1..] == frames;
    assert [f][1..] == [];
  }

  lemma {:induction false} DrainBounded(d: Desk, l: Line, epoch: nat)
    requires Bounded(l.busy) && LegalBusy(l.busy)
    ensures Bounded(DrainLeftover(d, l, epoch).line.busy)
    decreases |l.leftover|
  {
    if !Stops(d, l, epoch) && F.SplitFrame(l.leftover).Got? {
      var f, rest := F.SplitFrame(l.leftover).frame, F.SplitFrame(l.leftover).rest;
      var s := OnControl(d, l.(leftover := rest), epoch, f);
      if s.ok {
        if s.line.busy != l.busy {
          assert s.line.busy[..|l.busy|] == l.busy;
        }
        DrainBounded(s.desk, s.line, epoch);
      }
    }
  }

  function AsCmds(q: seq<Message>): (r: seq<Cmd>)
    ensures |r| == |q| && forall k :: 0 <= k < |q| ==> r[k] == Input(q[k])
  {
    seq(|q|, k requires 0 <= k < |q| => Input(q[k]))
  }

  lemma CmdsStep(cmds: seq<Cmd>, busy: seq<Message>, k: nat)
    requires 1 <= k <= |busy|
    ensures cmds + [Input(busy[0])] + AsCmds(busy[1..][..k - 1]) == cmds + AsCmds(busy[..k])
    ensures busy[1..][k - 1..] == busy[k..]
  {
  }

  // While the session lives, draining the queue hands over exactly as many records as the
  // desk has room for, from the front, each once.
  lemma {:induction false} BusyGoesInOrder(d: Desk, l: Line)
    requires !d.closed && LegalBusy(l.busy)
    ensures var k := Min(|l.busy|, SaturatingSub(CMD_Q, |d.cmds|));
            var r := DrainBusy(d, l);
            && r.0 == d.(cmds := d.cmds + AsCmds(l.busy[..k]))
            && r.1 == l.(busy := l.busy[k..])
    decreases |l.busy|
  {
    var k := Min(|l.busy|, SaturatingSub(CMD_Q, |d.cmds|));
    if k == 0 {
      assert d.cmds + AsCmds(l.busy[..0]) == d.cmds;
      assert l.busy[0..] == l.busy;
    } else {
      var d1, l1 := TryInput(d, l.busy[0]).0, l.(busy := l.busy[1..]);
      BusyGoesInOrder(d1, l1);
      CmdsStep(d.cmds, l.busy, k);
    }
  }

  // ---------- the objects ----------

  class Session {
    var epoch: nat
    var lastAcked: nat
    var cmds: seq<Cmd>
    var closed: bool
    var shutdown: bool
    const maxCells: nat

    ghost function View(): Desk
      reads this
    {
      Desk(epoch, lastAcked, cmds, closed, shutdown, maxCells)
    }

    constructor (maxCells: nat)
      ensures View() == Desk(0, 0, [], false, false, maxCells)
    {
      epoch, lastAcked, cmds, closed, shutdown := 0, 0, [], false, false;
      this.maxCells := maxCells;
    }

    // A new transport gets a number no other transport has.
    method ClaimTransport() returns (next: nat)
      modifies this
      ensures next == old(epoch) + 1 && View() == old(View()).(epoch := next)
    {
      epoch := epoch + 1;
      next := epoch;
    }

    method TrySend(c: Cmd) returns (q: Queued)
      modifies this
      ensures (View(), q) == Send(old(View()), c)
    {
      if closed { return Refused; }
      if |cmds| >= CMD_Q { return Busy; }
      cmds := cmds + [c];
      q := Done;
    }

    method OfferInput(m: Message) returns (q: Queued)
      modifies this
      ensures (View(), q) == TryInput(old(View()), m)
    {
      if m.data == [] { return Refused; }
      if |m.data| > MAX_INPUT_BYTES { return Refused; }
      q := TrySend(Input(m));
    }

    method OfferResize(cols: nat, rows: nat) returns (q: Queued)
      modifies this
      ensures (View(), q) == TryResize(old(View()), cols, rows)
    {
      if cols < MIN_AXIS || rows < MIN_AXIS { return Refused; }
      if cols > MAX_AXIS || rows > MAX_AXIS { return Refused; }
      if cols * rows > maxCells { return Refused; }
      q := TrySend(Resize(cols, rows));
    }

    method Acknowledge(version: nat)
      modifies this
      ensures View() == AckState(old(View()), version)
    {
      if version > lastAcked { lastAcked := version; }
    }

    method OfferAck(version: nat)
      modifies this
      ensures View() == TryAck(old(View()), version)
    {
      var _ := TrySend(Ack(version));
      Acknowledge(version);
    }

    method RequestHangup()
      modifies this
      ensures View() == old(View()).(shutdown := true)
    {
      shutdown := true;
    }
  }

  class Handler {
    const session: Session
    const epoch: nat
    const recv: F.Receiver
    const feed: Feeding.FrameFeed
    var busy: seq<Message>
    var resize: Option<(nat, nat)>

    ghost predicate Valid()
      reads this, feed, feed.out
    {
      feed.Valid()
    }

    ghost function View(): Line
      reads this, recv, feed, feed.out
      requires Valid()
    {
      Line(recv.buf, feed.View(), busy, resize)
    }

    constructor (session: Session, epoch: nat, recv: F.Receiver)
      ensures Valid() && fresh(feed) && fresh(feed.out)
      ensures this.session == session && this.epoch == epoch && this.recv == recv
      ensures View() == Line(recv.buf, Feeding.EMPTY, [], None)
    {
      this.session, this.epoch, this.recv := session, epoch, recv;
      feed := new Feeding.FrameFeed();
      busy, resize := [], None;
    }

    method BytesWaiting() returns (n: nat)
      ensures n == BusyBytes(busy)
    {
      n := 0;
      for i := 0 to |busy|
        invariant n == BusyBytes(busy[..i])
      {
        assert busy[..i + 1][..i] == busy[..i];
        n := n + RecordCost(busy[i]);
      }
      assert busy[..|busy|] == busy;
    }

    method Control(f: F.Frame) returns (ok: bool)
      requires Valid()
      modifies this, session, feed, feed.out
      ensures Valid() && recv.buf == old(recv.buf)
      ensures Step(session.View(), View(), ok) == OnControl(old(session.View()), old(View()), epoch, f)
    {
      ok := true;
      if session.epoch != epoch { return; }
      if f.typ == MSG_INPUT {
        var m := DecodeInput(f.payload);
        if m.None? { return; }
        if m.value.data == [] { return false; }
        if |m.value.data| > MAX_INPUT_BYTES { return false; }
        busy := busy + [m.value];
      } else if f.typ == MSG_RESIZE {
        var size := DecodeResize(f.payload);
        if size.Some? { resize := size; }
      } else if f.typ == MSG_HANGUP {
        session.RequestHangup();
      } else if f.typ == MSG_ACK_STATE {
        var v := DecodeNumber(f.payload);
        if v.Some? { session.OfferAck(v.value); }
      } else if f.typ == MSG_PING {
        var _ := feed.Controlled(F.Encode(F.Frame(MSG_PONG, [])));
      }
    }

    method ReadFrames() returns (ok: bool)
      requires Valid()
      modifies this, session, recv, feed, feed.out
      ensures Valid()
      ensures Step(session.View(), View(), ok) == DrainLeftover(old(session.View()), old(View()), epoch)
    {
      ghost var all := DrainLeftover(session.View(), View(), epoch);
      while true
        invariant Valid()
        invariant DrainLeftover(session.View(), View(), epoch) == all
        decreases |recv.buf|
      {
        if session.epoch != epoch { return true; }
        var next := F.SplitFrame(recv.buf);
        if next.Need? { return true; }
        if next.Got? && next.frame.typ == MSG_INPUT {
          var n := BytesWaiting();
          if n >= BUSY_CAP { return true; }
        }
        var split := recv.TakeFrame();
        if split.Bad? { return false; }
        ok := Control(split.frame);
        if !ok { return; }
      }
    }

    // Hand the waiting records over one by one until the desk is full.
    method HandOver()
      requires Valid()
      modifies this, session
      ensures Valid() && (session.View(), View()) == DrainBusy(old(session.View()), old(View()))
    {
      ghost var all := DrainBusy(session.View(), View());
      while busy != []
        invariant Valid()
        invariant DrainBusy(session.View(), View()) == all
        decreases |busy|
      {
        var m := busy[0];
        assert busy == [m] + busy[1..];
        busy := busy[1..];
        var q := session.OfferInput(m);
        match q
        case Done =>
        case Busy =>
          busy := [m] + busy;
          return;
        case Refused => return;
      }
    }

    method Leave(latest: Option<Bytes>, exit: Bytes)
      requires Valid()
      modifies this, feed, feed.out
      ensures Valid() && View() == QueueExit(session.View(), old(View()), epoch, latest, exit)
    {
      if session.epoch != epoch { return; }
      if latest.Some? { feed.Screened(F.Encode(F.Frame(MSG_SCREEN, latest.value))); }
      feed.Finish(exit);
    }
  }
}
