/**
 The client state machine as functions on a value: what each event does to the conversation,
 the predictor and the display.
 */
module ClientState {
  import opened Wrappers
  import opened Bytes
  import opened Frames
  import opened ClientNet
  import opened Messages
  import F = Framing
  import Feeding
  import P = Prediction

  // Longer messages are pasted text and are not predicted.
  const PASTE_BYTES := 100
  const MAX_FRAME := F.MAX_FRAME
  // "QP1!"
  const SHARED_SCREEN_MAGIC: Bytes := [0x51, 0x50, 0x31, 0x21]

  // Prediction policy of a shared session, as it travels with a screen.
  datatype Context = Context(epoch: nat, allowed: bool)

  datatype SharedScreen = SharedScreen(context: Context, screen: Screen)

  // How a screen payload is read; the layout is in `ScreenCodec`.
  type Decoder = Bytes -> Option<Screen>

  datatype Client = Client(
    identity: Bytes,           // session id and token, as they go into a Hello
    cols: nat,
    rows: nat,
    never: bool,
    shared: Option<Context>,
    net: Net,
    helloOk: bool,
    feed: Feeding.Feed,
    recvBuf: Bytes,
    pingSent: bool,
    predictor: P.State,
    display: Option<Frame>,
    exitCode: int)

  datatype Outcome = Going(client: Client) | Fatal(client: Client)

  function Preference(never: bool, shared: Option<Context>): P.Preference {
    if never || (shared.Some? && !shared.value.allowed) then P.Never else P.Adaptive
  }

  function NewClient(identity: Bytes, cols: nat, rows: nat, never: bool): Client {
    Client(identity, cols, rows, never, None, FRESH, false, Feeding.EMPTY, [], false,
           P.INITIAL.(preference := Preference(never, None)), None, 0)
  }

  // ---------- sending ----------

  function HelloFrame(identity: Bytes, cols: nat, rows: nat): F.Frame {
    F.Frame(MSG_HELLO, ToLe(PROTOCOL_VERSION, 2) + identity + ToLe(cols, 2) + ToLe(rows, 2))
  }

  // The parts that sending leaves alone.
  predicate SameView(a: Client, b: Client) {
    && a.predictor == b.predictor && a.display == b.display && a.shared == b.shared && a.never == b.never
    && a.net.confirmed == b.net.confirmed && a.net.seqNo == b.net.seqNo && a.net.unacked == b.net.unacked
  }

  predicate Takes(c: Client, f: F.Frame) { Feeding.Accepts(c.feed, F.Encode(f)) }

  function PushCtrl(c: Client, f: F.Frame): Client { c.(feed := Feeding.PushCtrl(c.feed, F.Encode(f))) }

  function PumpAck(c: Client): (r: Client)
    ensures SameView(r, c)
  {
    match c.net.pendingAck
    case None => c
    case Some(v) =>
      var f := NumberFrame(MSG_ACK_STATE, v);
      if Takes(c, f) then PushCtrl(c, f).(net := AckSent(c.net)) else PushCtrl(c, f)
  }

  // One message at a time, and only when nothing is in flight.
  function PumpInput(c: Client): (r: Client)
    ensures SameView(r, c)
  {
    if c.feed.out != [] then c
    else match NextUnsent(c.net.unacked, c.net.sentSeq)
      case None => c
      case Some(m) =>
        if Takes(c, InputFrame(m)) then PushCtrl(c, InputFrame(m)).(net := Sent(c.net, m)) else PushCtrl(c, InputFrame(m))
  }

  function Pump(c: Client): (r: Client)
    ensures SameView(r, c)
  {
    if Sending(c.net) then PumpInput(PumpAck(c)) else c
  }

  function BeginConnection(c: Client): Client {
    var d := c.(net := Begin(c.net), helloOk := false, recvBuf := [], feed := Feeding.EMPTY, pingSent := false);
    PushCtrl(d, HelloFrame(c.identity, c.cols, c.rows))
  }

  function EndConnection(c: Client): Client { c.(net := End(c.net)) }

  function SetSize(c: Client, cols: nat, rows: nat): Client {
    var d := c.(cols := cols, rows := rows);
    if Sending(c.net) then PushCtrl(d, ResizeFrame(cols, rows)) else d
  }

  function RequestHangup(c: Client): Client {
    c.(feed := Feeding.PushFin(c.feed, F.Encode(F.Frame(MSG_HANGUP, []))), net := c.net.(hungup := true))
  }

  function AdvanceOutbound(c: Client, n: nat): Client { c.(feed := Feeding.Advance(c.feed, n)) }

  // ---------- display ----------

  function RefreshDisplay(c: Client): Client {
    c.(display := if c.net.confirmed.None? then None else Some(P.Apply(c.predictor, c.net.confirmed.value.frame)))
  }

  // Drop predictions and the display, keep the confirmed screen.
  function Reset(c: Client): Client { c.(predictor := P.Reset(c.predictor), display := None) }

  // ---------- screens ----------

  // Judge the predictions by a newer screen, and only then show it.
  function ApplyScreen(c: Client, incoming: Screen, now: nat): (r: Client)
    requires P.Shaped(c.predictor)
    ensures P.Shaped(r.predictor) && r.net.unacked == c.net.unacked && r.shared == c.shared
  {
    if ApplyNewer(c.net.confirmed, incoming).None? then c
    else
      var p := P.Cull(c.predictor.(lateAcked := incoming.echoAck), incoming.frame, now);
      RefreshDisplay(c.(predictor := p, net := Shown(c.net, incoming)))
  }

  // A changed context drops all predictions, so none is judged by the wrong policy.
  function EnterContext(c: Client, context: Context): (r: Client)
    requires P.Shaped(c.predictor)
    ensures P.Shaped(r.predictor) && r.net == c.net && r.shared == Some(context)
  {
    if c.shared == Some(context) then c
    else c.(predictor := P.Reset(c.predictor).(preference := Preference(c.never, Some(context))), shared := Some(context))
  }

  function ApplySharedScreen(c: Client, incoming: SharedScreen, now: nat): (r: Outcome)
    requires P.Shaped(c.predictor)
    ensures P.Shaped(r.client.predictor) && r.client.net.unacked == c.net.unacked
  {
    if ApplyNewer(c.net.confirmed, incoming.screen).None? then Going(c)
    else if c.shared.Some? && incoming.context.epoch < c.shared.value.epoch then Fatal(c)
    else Going(ApplyScreen(EnterContext(c, incoming.context), incoming.screen, now))
  }

  // "QP1!", the epoch, a flag byte, then an ordinary screen.
  function DecodeShared(payload: Bytes, decode: Decoder): Option<SharedScreen> {
    if |payload| < 13 || |payload| + 1 > MAX_FRAME then None
    else if payload[..4] != SHARED_SCREEN_MAGIC || payload[12] > 1 then None
    else
      match decode(payload[13..])
      case None => None
      case Some(s) => Some(SharedScreen(Context(FromLe(payload[4..12]), payload[12] == 1), s))
  }

  // ---------- receiving ----------

  // One control frame. `interval` is the send interval derived from the round-trip time.
  function HandleFrame(c: Client, f: F.Frame, decode: Decoder, interval: nat, now: nat): (r: Outcome)
    requires P.Shaped(c.predictor)
    ensures P.Shaped(r.client.predictor)
  {
    if f.typ == MSG_HELLO_OK then
      if |f.payload| == 30 && FromLe(f.payload[..2]) == PROTOCOL_VERSION then Going(c.(helloOk := true)) else Fatal(c)
    else if f.typ == MSG_SHARED_SCREEN then
      match DecodeShared(f.payload, decode)
      case None => Fatal(c)
      case Some(s) => ApplySharedScreen(c, s, now)
    else if f.typ == MSG_SCREEN then
      if c.shared.Some? then Fatal(c)
      else match decode(f.payload)
        case None => Going(c)
        case Some(s) => Going(ApplyScreen(c, s, now))
    else if f.typ == MSG_INPUT_ACK then
      match DecodeNumber(f.payload)
      case None => Fatal(c)
      case Some(ack) => Going(c.(net := Acked(c.net, ack)))
    else if f.typ == MSG_PONG then
      Going(if c.pingSent then c.(pingSent := false, predictor := c.predictor.(sendInterval := interval)) else c)
    else if f.typ == MSG_EXIT then
      if |f.payload| != 4 then Fatal(c)
      else Going(c.(exitCode := AsSigned(FromLe(f.payload)), net := c.net.(hungup := true)))
    else if f.typ == MSG_ERROR then Fatal(c)
    else Going(c)
  }

  // Every complete frame of the buffer, until one is fatal.
  function HandleAll(c: Client, decode: Decoder, interval: nat, now: nat): (r: Outcome)
    requires P.Shaped(c.predictor)
    ensures P.Shaped(r.client.predictor)
    decreases |c.recvBuf|
  {
    match F.SplitFrame(c.recvBuf)
    case Need => Going(c)
    case Bad => Fatal(c)
    case Got(f, rest) =>
      FrameKeepsBuffer(c.(recvBuf := rest), f, decode, interval, now);
      var h := HandleFrame(c.(recvBuf := rest), f, decode, interval, now);
      if h.Fatal? then h else HandleAll(h.client, decode, interval, now)
  }

  lemma FrameKeepsBuffer(c: Client, f: F.Frame, decode: Decoder, interval: nat, now: nat)
    requires P.Shaped(c.predictor)
    ensures HandleFrame(c, f, decode, interval, now).client.recvBuf == c.recvBuf
  {
    hide P.Cull, P.Reset, P.Apply, DecodeNumber, DecodeShared, Acked, AsSigned, FromLe;
  }

  function RecvControl(c: Client, bytes: Bytes, decode: Decoder, interval: nat, now: nat): (r: Outcome)
    requires P.Shaped(c.predictor)
    ensures P.Shaped(r.client.predictor)
  {
    HandleAll(c.(recvBuf := c.recvBuf + bytes), decode, interval, now)
  }

  // A datagram that cannot be used is ignored.
  function RecvDatagram(c: Client, bytes: Bytes, decode: Decoder, now: nat): (r: Client)
    requires P.Shaped(c.predictor)
    ensures P.Shaped(r.predictor) && r.net.unacked == c.net.unacked
  {
    if SHARED_SCREEN_MAGIC <= bytes then
      match DecodeShared(bytes, decode)
      case None => c
      case Some(s) => ApplySharedScreen(c, s, now).client
    else if c.shared.Some? then c
    else match decode(bytes)
      case None => c
      case Some(s) => ApplyScreen(c, s, now)
  }

  // ---------- typing ----------

  // The bytes of one message, typed over one display.
  function TypeBytes(p: P.State, acts: seq<seq<P.Act>>, basis: Frame, now: nat): (r: P.State)
    requires P.Shaped(p)
    ensures P.Shaped(r) && P.SameSettings(r, p)
    decreases |acts|
  {
    if acts == [] then p else TypeBytes(P.NewUserByte(p, acts[0], basis, now), acts[1..], basis, now)
  }

  function Disallowed(shared: Option<Context>): bool { shared.Some? && !shared.value.allowed }

  // `acts` are what the parser makes of the bytes, one by one.
  function FeedPredict(c: Client, seqNo: nat, acts: seq<seq<P.Act>>, now: nat): (r: Client)
    requires P.Shaped(c.predictor)
    ensures P.Shaped(r.predictor) && r.net == c.net && r.shared == c.shared
  {
    if Disallowed(c.shared) then c
    else if |acts| > PASTE_BYTES then RefreshDisplay(c.(predictor := P.Reset(c.predictor)))
    else if c.net.confirmed.None? then c
    else
      var basis := if c.display.Some? then c.display.value else c.net.confirmed.value.frame;
      var p := c.predictor.(sent := SaturatingSub(seqNo, 1));
      RefreshDisplay(c.(predictor := TypeBytes(p, acts, basis, now)))
  }

  // Prediction does not look at the message counters.
  lemma FeedPredictNet(c: Client, net: Net, seqNo: nat, acts: seq<seq<P.Act>>, now: nat)
    requires P.Shaped(c.predictor) && net.confirmed == c.net.confirmed
    ensures FeedPredict(c.(net := net), seqNo, acts, now) == FeedPredict(c, seqNo, acts, now).(net := net)
  {
    hide P.Reset, P.Apply, TypeBytes;
  }

  function QueueInput(c: Client, data: Bytes, acts: seq<seq<P.Act>>, now: nat): (r: Client)
    requires P.Shaped(c.predictor) && |acts| == |data|
    ensures P.Shaped(r.predictor) && r.net == Queue(c.net, data) && r.shared == c.shared
  {
    var d := FeedPredict(c, c.net.seqNo + 1, acts, now);
    d.(net := Queue(c.net, data))
  }

  // ---------- time ----------

  function MaybePing(c: Client, due: bool): (r: Client)
    ensures SameView(r, c)
  {
    var f := F.Frame(MSG_PING, []);
    if !due then c
    else if Takes(c, f) then PushCtrl(c, f).(pingSent := true)
    else PushCtrl(c, f)
  }

  // Judge outstanding predictions by the screen last shown.
  function Reconcile(c: Client, now: nat): (r: Client)
    requires P.Shaped(c.predictor)
    ensures P.Shaped(r.predictor) && r.net == c.net && r.shared == c.shared
  {
    if !P.Active(c.predictor) then c
    else if c.net.confirmed.None? then RefreshDisplay(c)
    else RefreshDisplay(c.(predictor := P.Cull(c.predictor, c.net.confirmed.value.frame, now)))
  }

  function KeepAlive(c: Client, due: bool): (r: Client)
    ensures SameView(r, c)
  {
    if Sending(c.net) then MaybePing(c, due) else c
  }

  function Tick(c: Client, due: bool, now: nat): (r: Client)
    requires P.Shaped(c.predictor)
    ensures SameView(r, Reconcile(c, now))
  {
    KeepAlive(Pump(Reconcile(c, now)), due)
  }
}
