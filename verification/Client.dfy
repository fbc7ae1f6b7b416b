/** The client: an object that owns a predictor and an outbound feed and edits them in place. */
module QuoshClient {
  import opened Wrappers
  import opened Bytes
  import opened Frames
  import opened ClientNet
  import opened Messages
  import S = ClientState
  import F = Framing
  import Feeding
  import P = Prediction
  import LocalEcho

  lemma NewerStep(kept: seq<Message>, ms: seq<Message>, i: nat, ack: nat)
    requires i < |ms|
    ensures kept + Newer(ms[i..], ack) == (if ms[i].seqNo > ack then kept + [ms[i]] else kept) + Newer(ms[i + 1..], ack)
  {
    assert ms[i..][1..] == ms[i + 1..];
    assert Newer(ms[i..], ack) == (if ms[i].seqNo > ack then [ms[i]] else []) + Newer(ms[i + 1..], ack);
  }

  method KeepNewer(ms: seq<Message>, ack: nat) returns (kept: seq<Message>)
    ensures kept == Newer(ms, ack)
  {
    kept := [];
    for i := 0 to |ms|
      invariant Newer(ms, ack) == kept + Newer(ms[i..], ack)
    {
      NewerStep(kept, ms, i, ack);
      if ms[i].seqNo > ack { kept := kept + [ms[i]]; }
    }
  }

  class Client {
    const identity: Bytes
    const never: bool
    const predictor: LocalEcho.Predictor
    const recv: F.Receiver
    var feed: Feeding.FrameFeed
    var cols: nat
    var rows: nat
    var shared: Option<S.Context>
    var connected: bool
    var hungup: bool
    var helloOk: bool
    var pingSent: bool
    var sentSeq: nat
    var pendingAck: Option<nat>
    var seqNo: nat
    var unacked: seq<Message>
    var confirmed: Option<Screen>
    var display: Option<Frame>
    var exitCode: int

    ghost predicate Valid()
      reads this, predictor, feed, feed.out
    {
      feed.Valid() && P.Shaped(predictor.View())
    }

    ghost function NetView(): Net
      reads this
    {
      Net(connected, hungup, seqNo, unacked, sentSeq, pendingAck, confirmed)
    }

    ghost function View(): S.Client
      reads this, predictor, recv, feed, feed.out
      requires Valid()
    {
      S.Client(identity, cols, rows, never, shared, NetView(), helloOk, feed.View(), recv.buf, pingSent,
               predictor.View(), display, exitCode)
    }

    constructor (identity: Bytes, cols: nat, rows: nat, never: bool)
      ensures Valid() && fresh(feed) && fresh(feed.out) && fresh(predictor) && fresh(recv)
      ensures View() == S.NewClient(identity, cols, rows, never)
    {
      this.identity, this.never := identity, never;
      predictor := new LocalEcho.Predictor();
      recv := new F.Receiver();
      feed := new Feeding.FrameFeed();
      this.cols, this.rows := cols, rows;
      shared, connected, hungup, helloOk, pingSent := None, false, false, false, false;
      sentSeq, pendingAck, seqNo, unacked := 0, None, 0, [];
      confirmed, display, exitCode := None, None, 0;
      new;
      predictor.SetDisplayPreference(if never then P.Never else P.Adaptive);
    }

    // ---------- sending ----------

    method Push(f: F.Frame) returns (taken: bool)
      requires Valid()
      modifies feed, feed.out
      ensures Valid() && View() == S.PushCtrl(old(View()), f) && taken == S.Takes(old(View()), f)
    {
      taken := feed.Controlled(F.Encode(f));
    }

    method FirstUnsent() returns (m: Option<Message>)
      ensures m == NextUnsent(unacked, sentSeq)
    {
      ghost var all := NextUnsent(unacked, sentSeq);
      for i := 0 to |unacked|
        invariant all == NextUnsent(unacked[i..], sentSeq)
      {
        if unacked[i].seqNo > sentSeq { return Some(unacked[i]); }
      }
      m := None;
    }

    method SendAck()
      requires Valid()
      modifies this, feed, feed.out
      ensures Valid() && View() == S.PumpAck(old(View())) && feed == old(feed)
    {
      hide P.Shaped, Feeding.PushCtrl, Feeding.Accepts;
      if pendingAck.Some? {
        var taken := Push(NumberFrame(MSG_ACK_STATE, pendingAck.value));
        if taken { pendingAck := None; }
      }
    }

    method SendInput()
      requires Valid()
      modifies this, feed, feed.out
      ensures Valid() && View() == S.PumpInput(old(View())) && feed == old(feed)
    {
      hide P.Shaped, Feeding.PushCtrl, Feeding.Accepts;
      var writing := feed.Writing();
      if writing { return; }
      var m := FirstUnsent();
      if m.Some? {
        var taken := Push(InputFrame(m.value));
        if taken { sentSeq := m.value.seqNo; }
      }
    }

    method PumpOut()
      requires Valid()
      modifies this, feed, feed.out
      ensures Valid() && View() == S.Pump(old(View())) && feed == old(feed)
    {
      hide P.Shaped, S.PumpAck, S.PumpInput;
      if !connected || hungup { return; }
      SendAck();
      SendInput();
    }

    method BeginConnection()
      requires Valid()
      modifies this, recv, feed, feed.out
      ensures Valid() && fresh(feed) && fresh(feed.out) && View() == S.BeginConnection(old(View()))
    {
      hide P.Shaped, S.PushCtrl, S.HelloFrame;
      ghost var c := View();
      connected, helloOk := true, false;
      recv.buf := [];
      feed := new Feeding.FrameFeed();
      sentSeq, pendingAck, pingSent := 0, None, false;
      assert View() == c.(net := Begin(c.net), helloOk := false, recvBuf := [], feed := Feeding.EMPTY, pingSent := false);
      var _ := Push(S.HelloFrame(identity, cols, rows));
    }

    method EndConnection()
      requires Valid()
      modifies this
      ensures Valid() && View() == S.EndConnection(old(View())) && feed == old(feed)
    {
      connected := false;
    }

    method SetSize(cols: nat, rows: nat)
      requires Valid()
      modifies this, feed, feed.out
      ensures Valid() && View() == S.SetSize(old(View()), cols, rows) && feed == old(feed)
    {
      this.cols, this.rows := cols, rows;
      if connected && !hungup { var _ := Push(ResizeFrame(cols, rows)); }
    }

    method RequestHangup()
      requires Valid()
      modifies this, feed, feed.out
      ensures Valid() && View() == S.RequestHangup(old(View())) && feed == old(feed)
    {
      feed.Finish(F.Encode(F.Frame(MSG_HANGUP, [])));
      hungup := true;
    }

    // ---------- display ----------

    method RefreshDisplay()
      requires Valid()
      modifies this`display
      ensures Valid() && View() == S.RefreshDisplay(old(View()))
    {
      if confirmed.None? {
        display := None;
        return;
      }
      var frame := predictor.Apply(confirmed.value.frame);
      display := Some(frame);
    }

    method Reset()
      requires Valid()
      modifies this`display, predictor
      ensures Valid() && View() == S.Reset(old(View()))
    {
      predictor.Reset();
      display := None;
    }

    // ---------- screens ----------

    method ApplyScreen(incoming: Screen, now: nat)
      requires Valid()
      modifies this, predictor
      ensures Valid() && View() == S.ApplyScreen(old(View()), incoming, now) && feed == old(feed)
    {
      hide P.Cull, P.Apply;
      var applied := ApplyNewer(confirmed, incoming);
      if applied.None? { return; }
      predictor.SetLocalFrameLateAcked(incoming.echoAck);
      predictor.Cull(incoming.frame, now);
      pendingAck := Some(incoming.version);
      confirmed := Some(incoming);
      RefreshDisplay();
    }

    method ApplySharedScreen(incoming: S.SharedScreen, now: nat) returns (ok: bool)
      requires Valid()
      modifies this, predictor
      ensures Valid() && feed == old(feed)
      ensures (if ok then S.Going(View()) else S.Fatal(View())) == S.ApplySharedScreen(old(View()), incoming, now)
    {
      hide P.Cull, P.Apply, S.ApplyScreen, ApplyNewer;
      ok := true;
      var applied := ApplyNewer(confirmed, incoming.screen);
      if applied.None? { return; }
      if shared.Some? && incoming.context.epoch < shared.value.epoch { return false; }
      if shared != Some(incoming.context) {
        predictor.Reset();
        predictor.SetDisplayPreference(if never || !incoming.context.allowed then P.Never else P.Adaptive);
        shared := Some(incoming.context);
      }
      ApplyScreen(incoming.screen, now);
    }

    // ---------- receiving ----------

    method DropAcked(ack: nat)
      requires Valid()
      modifies this`unacked
      ensures Valid() && View() == old(View()).(net := Acked(old(View()).net, ack))
    {
      hide P.Shaped, Newer;
      unacked := KeepNewer(unacked, ack);
    }

    method HandleFrame(f: F.Frame, decode: S.Decoder, interval: nat, now: nat) returns (ok: bool)
      requires Valid()
      modifies this, predictor
      ensures Valid() && feed == old(feed)
      ensures (if ok then S.Going(View()) else S.Fatal(View())) == S.HandleFrame(old(View()), f, decode, interval, now)
    {
      hide S.ApplyScreen, S.ApplySharedScreen, S.DecodeShared, DecodeNumber, Newer;
      ok := true;
      if f.typ == MSG_HELLO_OK {
        if |f.payload| != 30 || FromLe(f.payload[..2]) != PROTOCOL_VERSION { return false; }
        helloOk := true;
      } else if f.typ == MSG_SHARED_SCREEN {
        var s := S.DecodeShared(f.payload, decode);
        if s.None? { return false; }
        ok := ApplySharedScreen(s.value, now);
      } else if f.typ == MSG_SCREEN {
        if shared.Some? { return false; }
        var s := decode(f.payload);
        if s.Some? { ApplyScreen(s.value, now); }
      } else if f.typ == MSG_INPUT_ACK {
        var ack := DecodeNumber(f.payload);
        if ack.None? { return false; }
        DropAcked(ack.value);
      } else if f.typ == MSG_PONG {
        if pingSent {
          pingSent := false;
          predictor.SetSendInterval(interval);
        }
      } else if f.typ == MSG_EXIT {
        if |f.payload| != 4 { return false; }
        exitCode := AsSigned(FromLe(f.payload));
        hungup := true;
      } else if f.typ == MSG_ERROR {
        return false;
      }
    }

    method RecvControl(bytes: Bytes, decode: S.Decoder, interval: nat, now: nat) returns (ok: bool)
      requires Valid()
      modifies this, recv, predictor
      ensures Valid() && feed == old(feed)
      ensures (if ok then S.Going(View()) else S.Fatal(View())) == S.RecvControl(old(View()), bytes, decode, interval, now)
    {
      recv.buf := recv.buf + bytes;
      ghost var all := S.HandleAll(View(), decode, interval, now);
      while true
        invariant Valid() && feed == old(feed)
        invariant S.HandleAll(View(), decode, interval, now) == all
        decreases |recv.buf|
      {
        var split := recv.TakeFrame();
        match split
        case Need => return true;
        case Bad => return false;
        case Got(f, _) =>
          S.FrameKeepsBuffer(View(), f, decode, interval, now);
          ok := HandleFrame(f, decode, interval, now);
          if !ok { return; }
      }
    }

    method RecvDatagram(bytes: Bytes, decode: S.Decoder, now: nat)
      requires Valid()
      modifies this, predictor
      ensures Valid() && View() == S.RecvDatagram(old(View()), bytes, decode, now) && feed == old(feed)
    {
      if S.SHARED_SCREEN_MAGIC <= bytes {
        var s := S.DecodeShared(bytes, decode);
        if s.Some? { var _ := ApplySharedScreen(s.value, now); }
      } else if shared.None? {
        var s := decode(bytes);
        if s.Some? { ApplyScreen(s.value, now); }
      }
    }

    // ---------- typing ----------

    method QueueInput(data: Bytes, acts: seq<seq<P.Act>>, now: nat)
      requires Valid() && |acts| == |data|
      modifies this, predictor
      ensures Valid() && View() == S.QueueInput(old(View()), data, acts, now) && feed == old(feed)
    {
      hide P.Shaped, S.FeedPredict;
      ghost var c := View();
      seqNo := seqNo + 1;
      S.FeedPredictNet(c, NetView(), seqNo, acts, now);
      assert View() == c.(net := NetView());
      FeedPredict(seqNo, acts, now);
      unacked := unacked + [Message(seqNo, data)];
    }

    method FeedPredict(seqNo: nat, acts: seq<seq<P.Act>>, now: nat)
      requires Valid()
      modifies this`display, predictor
      ensures Valid() && View() == S.FeedPredict(old(View()), seqNo, acts, now)
    {
      hide S.TypeBytes, P.Apply;
      if shared.Some? && !shared.value.allowed { return; }
      if |acts| > S.PASTE_BYTES {
        predictor.Reset();
        RefreshDisplay();
        return;
      }
      if confirmed.None? { return; }
      predictor.SetLocalFrameSent(if seqNo > 0 then seqNo - 1 else 0);
      var basis := if display.Some? then display.value else confirmed.value.frame;
      TypeAll(acts, basis, now);
      RefreshDisplay();
    }

    method TypeAll(acts: seq<seq<P.Act>>, basis: Frame, now: nat)
      requires P.Shaped(predictor.View())
      modifies predictor
      ensures predictor.View() == S.TypeBytes(old(predictor.View()), acts, basis, now)
    {
      hide P.Shaped, P.NewUserByte;
      ghost var all := S.TypeBytes(predictor.View(), acts, basis, now);
      for i := 0 to |acts|
        invariant P.Shaped(predictor.View())
        invariant S.TypeBytes(predictor.View(), acts[i..], basis, now) == all
      {
        predictor.NewUserByte(acts[i], basis, now);
        assert acts[i..][1..] == acts[i + 1..];
      }
    }

    // ---------- time ----------

    method Reconcile(now: nat)
      requires Valid()
      modifies this`display, predictor
      ensures Valid() && View() == S.Reconcile(old(View()), now)
    {
      hide P.Shaped, P.Cull, P.Apply, P.Active;
      var active := predictor.Active();
      if active {
        if confirmed.Some? { predictor.Cull(confirmed.value.frame, now); }
        RefreshDisplay();
      }
    }

    method KeepAlive(due: bool)
      requires Valid()
      modifies this`pingSent, feed, feed.out
      ensures Valid() && View() == S.KeepAlive(old(View()), due)
    {
      hide P.Shaped, Feeding.PushCtrl, Feeding.Accepts;
      if connected && !hungup && due {
        var taken := Push(F.Frame(MSG_PING, []));
        if taken { pingSent := true; }
      }
    }

    method OnTick(due: bool, now: nat)
      requires Valid()
      modifies this, predictor, feed, feed.out
      ensures Valid() && View() == S.Tick(old(View()), due, now) && feed == old(feed)
    {
      hide P.Shaped, S.Reconcile, S.Pump, S.KeepAlive;
      Reconcile(now);
      PumpOut();
      KeepAlive(due);
    }
  }
}
