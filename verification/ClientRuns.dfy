/**
 What holds of a client in every run: the display is the confirmed screen with the
 predictions painted on, predictions are judged only by screens that may judge them, and the
 policy of a shared session is never mixed with an older one.
 */
module ClientRuns {
  import opened Wrappers
  import opened Bytes
  import opened Frames
  import opened ClientNet
  import opened Messages
  import opened ClientState
  import opened SettledTyping
  import F = Framing
  import Feeding
  import P = Prediction
  import I = PredictionInvariants
  import Painting

  predicate NoOverlays(p: P.State) { p.overlays == [] && p.cursors == [] }

  // The predictor obeys the policy and types ahead of nothing the client has not queued.
  predicate Obedient(c: Client) {
    && I.Valid(c.predictor)
    && c.predictor.preference == Preference(c.never, c.shared)
    && c.predictor.sent <= c.net.seqNo
    && (c.predictor.preference.Never? ==> NoOverlays(c.predictor))
  }

  // The display, if there is one, is the confirmed frame under the present predictions.
  predicate Shows(c: Client) {
    c.display.Some? ==>
      c.net.confirmed.Some? && c.display.value == P.Apply(c.predictor, c.net.confirmed.value.frame)
  }

  predicate Sane(c: Client) {
    && Obedient(c) && Shows(c) && I.Settled(c.predictor)
    && (match c.net.confirmed
        case None => NoOverlays(c.predictor)
        case Some(s) =>
          && c.predictor.lateAcked == s.echoAck <= c.net.seqNo
          && (c.predictor.preference.Never? || P.Fits(c.predictor, s.frame)))
  }

  lemma NewClientSane(identity: Bytes, cols: nat, rows: nat, never: bool)
    ensures Sane(NewClient(identity, cols, rows, never))
  {
  }

  // ---------- events ----------

  datatype Event =
    | Control(frame: F.Frame, interval: nat, now: nat)
    | Datagram(bytes: Bytes, now: nat)
    | Typed(data: Bytes, acts: seq<seq<P.Act>>, now: nat)
    | Ticked(due: bool, now: nat)
    | Pumped | Begun | Ended | Dropped | HungUp
    | Wrote(n: nat)
    | Sized(cols: nat, rows: nat)

  // The screen an event brings, if any.
  function Carried(e: Event, decode: Decoder): Option<Screen> {
    match e
    case Control(f, _, _) =>
      if f.typ == MSG_SHARED_SCREEN then
        (match DecodeShared(f.payload, decode) case None => None case Some(s) => Some(s.screen))
      else if f.typ == MSG_SCREEN then decode(f.payload)
      else None
    case Datagram(bytes, _) =>
      if SHARED_SCREEN_MAGIC <= bytes then
        (match DecodeShared(bytes, decode) case None => None case Some(s) => Some(s.screen))
      else decode(bytes)
    case _ => None
  }

  // Screens acknowledge only what was queued, which `Protocol.EchoWithinSent` proves of
  // every screen of a session; and a message has one list of acts for each byte.
  predicate Possible(c: Client, e: Event, decode: Decoder) {
    && (Carried(e, decode).Some? ==> Carried(e, decode).value.echoAck <= c.net.seqNo)
    && (e.Typed? ==> |e.acts| == |e.data|)
  }

  function Step(c: Client, e: Event, decode: Decoder): (r: Client)
    requires P.Shaped(c.predictor) && Possible(c, e, decode)
    ensures P.Shaped(r.predictor)
  {
    match e
    case Control(f, interval, now) => HandleFrame(c, f, decode, interval, now).client
    case Datagram(bytes, now) => RecvDatagram(c, bytes, decode, now)
    case Typed(data, acts, now) => QueueInput(c, data, acts, now)
    case Ticked(due, now) => Tick(c, due, now)
    case Pumped => Pump(c)
    case Begun => BeginConnection(c)
    case Ended => EndConnection(c)
    case Dropped => Reset(c)
    case HungUp => RequestHangup(c)
    case Wrote(n) => AdvanceOutbound(c, n)
    case Sized(cols, rows) => SetSize(c, cols, rows)
  }

  // ---------- each operation ----------

  lemma SameViewSane(c: Client, d: Client)
    requires Sane(c) && SameView(d, c)
    ensures Sane(d)
  {
  }

  lemma ResetPredictor(p: P.State)
    requires I.Valid(p)
    ensures I.Valid(P.Reset(p)) && NoOverlays(P.Reset(p)) && I.Settled(P.Reset(p))
  {
  }

  lemma ResetSane(c: Client)
    requires Sane(c)
    ensures Sane(Reset(c))
  {
    ResetPredictor(c.predictor);
    hide I.Valid, I.Settled;
  }

  lemma LateAckedFree(p: P.State, echoAck: nat)
    requires I.Valid(p)
    ensures I.Valid(p.(lateAcked := echoAck))
  {
  }

  // Culling leaves a bare predictor bare.
  lemma NeverCulls(p: P.State, fb: Frame, now: nat)
    requires P.Shaped(p) && p.preference.Never?
    ensures P.Cull(p, fb, now) == p
  {
  }

  lemma CulledSane(c: Client, s: Screen, p: P.State, now: nat)
    requires Obedient(c) && s.echoAck <= c.net.seqNo && p == P.Cull(c.predictor.(lateAcked := s.echoAck), s.frame, now)
    requires c.net.confirmed == Some(s)
    ensures Sane(RefreshDisplay(c.(predictor := p)))
  {
    hide I.Valid, P.Cull, P.Apply;
    LateAckedFree(c.predictor, s.echoAck);
    var q := c.predictor.(lateAcked := s.echoAck);
    I.CullValid(q, s.frame, now);
    if q.preference.Never? { NeverCulls(q, s.frame, now); }
  }

  lemma ApplyScreenSane(c: Client, incoming: Screen, now: nat)
    requires Obedient(c) && incoming.echoAck <= c.net.seqNo && ApplyNewer(c.net.confirmed, incoming).Some?
    ensures Sane(ApplyScreen(c, incoming, now))
  {
    var d := c.(net := Shown(c.net, incoming));
    var p := P.Cull(c.predictor.(lateAcked := incoming.echoAck), incoming.frame, now);
    CulledSane(d, incoming, p, now);
  }

  lemma ScreenSane(c: Client, incoming: Screen, now: nat)
    requires Sane(c) && incoming.echoAck <= c.net.seqNo
    ensures Sane(ApplyScreen(c, incoming, now))
  {
    if ApplyNewer(c.net.confirmed, incoming).Some? { ApplyScreenSane(c, incoming, now); }
  }

  lemma EnterContextObedient(c: Client, context: Context)
    requires Obedient(c)
    ensures Obedient(EnterContext(c, context))
    ensures c.shared != Some(context) ==> NoOverlays(EnterContext(c, context).predictor)
  {
    ResetPredictor(c.predictor);
  }

  lemma SharedScreenSane(c: Client, incoming: SharedScreen, now: nat)
    requires Sane(c) && incoming.screen.echoAck <= c.net.seqNo
    ensures Sane(ApplySharedScreen(c, incoming, now).client)
  {
    if ApplyNewer(c.net.confirmed, incoming.screen).Some? {
      EnterContextObedient(c, incoming.context);
      ApplyScreenSane(EnterContext(c, incoming.context), incoming.screen, now);
    }
  }

  // ---------- typing ----------

  // No byte of the message resolves a prediction when it is reconciled with the display.
  predicate ResolvesNothing(p: P.State, acts: seq<seq<P.Act>>, basis: Frame, now: nat)
    requires P.Shaped(p)
    decreases |acts|
  {
    acts != [] ==>
      && I.SameOverlays(P.Cull(p, basis, now), p)
      && ResolvesNothing(P.NewUserByte(p, acts[0], basis, now), acts[1..], basis, now)
  }

  lemma {:induction false} TypeBytesSettled(p: P.State, acts: seq<seq<P.Act>>, basis: Frame, now: nat)
    requires I.Valid(p) && I.Settled(p) && P.Fits(p, basis) && p.lateAcked <= p.sent
    ensures var q := TypeBytes(p, acts, basis, now);
            I.Valid(q) && I.Settled(q) && P.Fits(q, basis)
    ensures ResolvesNothing(p, acts, basis, now)
    decreases |acts|
  {
    if acts != [] {
      KeystrokeSettled(p, acts[0], basis, now);
      I.NewUserByteValid(p, acts[0], basis, now);
      hide I.Valid, I.Settled, P.NewUserByte, P.Cull;
      TypeBytesSettled(P.NewUserByte(p, acts[0], basis, now), acts[1..], basis, now);
    }
  }

  lemma {:induction false} NeverTypes(p: P.State, acts: seq<seq<P.Act>>, basis: Frame, now: nat)
    requires P.Shaped(p) && p.preference.Never?
    ensures TypeBytes(p, acts, basis, now) == p
    ensures ResolvesNothing(p, acts, basis, now)
    decreases |acts|
  {
    if acts != [] { NeverTypes(p, acts[1..], basis, now); }
  }

  lemma AppliedSize(p: P.State, fb: Frame)
    requires P.Shaped(p) && P.Fits(p, fb)
    ensures P.Fits(p, P.Apply(p, fb))
  {
    Painting.Applied(p, fb, 0, 0);
  }

  lemma SentLater(p: P.State, sent: nat)
    requires I.Valid(p) && p.sent <= sent
    ensures I.Valid(p.(sent := sent))
  {
  }

  // What the keystrokes of the next message are typed over.
  function Basis(c: Client): Frame
    requires c.net.confirmed.Some?
  {
    if c.display.Some? then c.display.value else c.net.confirmed.value.frame
  }

  // Speculation is never evidence: the reconciliation inside each keystroke of a message is
  // run against the speculative display, and it confirms and refutes nothing.
  lemma TypingResolvesNothing(c: Client, acts: seq<seq<P.Act>>, now: nat)
    requires Sane(c) && c.net.confirmed.Some?
    ensures var p := c.predictor.(sent := c.net.seqNo);
            P.Shaped(p) && ResolvesNothing(p, acts, Basis(c), now)
    ensures var q := TypeBytes(c.predictor.(sent := c.net.seqNo), acts, Basis(c), now);
            && I.Valid(q) && I.Settled(q)
            && (q.preference.Never? ==> NoOverlays(q))
            && (q.preference.Never? || P.Fits(q, c.net.confirmed.value.frame))
  {
    var p := c.predictor.(sent := c.net.seqNo);
    var fb := c.net.confirmed.value.frame;
    SentLater(c.predictor, c.net.seqNo);
    if p.preference.Never? {
      NeverTypes(p, acts, Basis(c), now);
    } else {
      AppliedSize(c.predictor, fb);
      TypeBytesSettled(p, acts, Basis(c), now);
    }
  }

  lemma PredictedSane(c: Client, p: P.State)
    requires Obedient(c) && c.net.confirmed.Some? && c.net.confirmed.value.echoAck <= c.net.seqNo
    requires I.Valid(p) && I.Settled(p) && P.SameSettings(p, c.predictor.(sent := p.sent)) && p.sent <= c.net.seqNo
    requires c.predictor.lateAcked == c.net.confirmed.value.echoAck
    requires if p.preference.Never? then NoOverlays(p) else P.Fits(p, c.net.confirmed.value.frame)
    ensures Sane(RefreshDisplay(c.(predictor := p)))
  {
    hide I.Valid, I.Settled, P.Apply;
  }

  lemma QueuedSane(c: Client, data: Bytes)
    requires Sane(c)
    ensures Sane(c.(net := Queue(c.net, data)))
  {
    hide I.Valid, I.Settled, P.Apply;
  }

  lemma FeedPredictSane(c: Client, acts: seq<seq<P.Act>>, now: nat)
    requires Sane(c)
    ensures Sane(FeedPredict(c, c.net.seqNo + 1, acts, now))
  {
    hide I.Valid, I.Settled, P.Apply, TypeBytes;
    if Disallowed(c.shared) {
    } else if |acts| > PASTE_BYTES {
      PasteSane(c);
    } else if c.net.confirmed.Some? {
      TypingResolvesNothing(c, acts, now);
      PredictedSane(c, TypeBytes(c.predictor.(sent := c.net.seqNo), acts, Basis(c), now));
    }
  }

  lemma PasteSane(c: Client)
    requires Sane(c)
    ensures Sane(RefreshDisplay(c.(predictor := P.Reset(c.predictor))))
  {
    ResetPredictor(c.predictor);
    hide I.Valid, I.Settled, P.Apply;
  }

  lemma QueueInputSane(c: Client, data: Bytes, acts: seq<seq<P.Act>>, now: nat)
    requires Sane(c) && |acts| == |data|
    ensures Sane(QueueInput(c, data, acts, now))
  {
    FeedPredictSane(c, acts, now);
    QueuedSane(FeedPredict(c, c.net.seqNo + 1, acts, now), data);
  }

  lemma ReconcileSane(c: Client, now: nat)
    requires Sane(c)
    ensures Sane(Reconcile(c, now))
  {
    if P.Active(c.predictor) && c.net.confirmed.Some? {
      var s := c.net.confirmed.value;
      assert c.predictor.(lateAcked := s.echoAck) == c.predictor;
      CulledSane(c, s, P.Cull(c.predictor, s.frame, now), now);
    }
  }

  lemma AckSane(c: Client, ack: nat)
    requires Sane(c)
    ensures Sane(c.(net := Acked(c.net, ack)))
  {
  }

  lemma IntervalSane(c: Client, interval: nat)
    requires Sane(c) && c.predictor.preference == Preference(c.never, c.shared)
    ensures Sane(c.(pingSent := false, predictor := c.predictor.(sendInterval := interval)))
  {
    var q := c.predictor.(sendInterval := interval);
    assert I.Valid(q) && I.Settled(q);
    assert forall fb :: P.Apply(q, fb) == P.Apply(c.predictor, fb);
  }

  lemma HandleFrameSane(c: Client, f: F.Frame, decode: Decoder, interval: nat, now: nat)
    requires Sane(c) && Possible(c, Control(f, interval, now), decode)
    ensures Sane(HandleFrame(c, f, decode, interval, now).client)
  {
    if f.typ == MSG_SHARED_SCREEN {
      var s := DecodeShared(f.payload, decode);
      if s.Some? { SharedScreenSane(c, s.value, now); }
    } else if f.typ == MSG_SCREEN {
      if decode(f.payload).Some? { ScreenSane(c, decode(f.payload).value, now); }
    } else {
      OtherFrameSane(c, f, decode, interval, now);
    }
  }

  lemma OtherFrameSane(c: Client, f: F.Frame, decode: Decoder, interval: nat, now: nat)
    requires Sane(c) && f.typ != MSG_SHARED_SCREEN && f.typ != MSG_SCREEN
    ensures Sane(HandleFrame(c, f, decode, interval, now).client)
  {
    if f.typ == MSG_INPUT_ACK {
      if DecodeNumber(f.payload).Some? { AckSane(c, DecodeNumber(f.payload).value); }
    } else if f.typ == MSG_PONG {
      IntervalSane(c, interval);
    } else {
      SameViewSane(c, c.(helloOk := true));
      SameViewSane(c, c.(exitCode := AsSigned(FromLe(f.payload)), net := c.net.(hungup := true)));
    }
  }

  lemma RecvDatagramSane(c: Client, bytes: Bytes, decode: Decoder, now: nat)
    requires Sane(c) && Possible(c, Datagram(bytes, now), decode)
    ensures Sane(RecvDatagram(c, bytes, decode, now))
  {
    if SHARED_SCREEN_MAGIC <= bytes {
      var s := DecodeShared(bytes, decode);
      if s.Some? { SharedScreenSane(c, s.value, now); }
    } else if decode(bytes).Some? {
      ScreenSane(c, decode(bytes).value, now);
    }
  }

  lemma StepSane(c: Client, e: Event, decode: Decoder)
    requires Sane(c) && Possible(c, e, decode)
    ensures Sane(Step(c, e, decode))
  {
    hide HandleFrame, RecvDatagram, QueueInput, Reconcile, Reset;
    assert P.Shaped(c.predictor);
    match e
    case Control(f, interval, now) => HandleFrameSane(c, f, decode, interval, now);
    case Datagram(bytes, now) => RecvDatagramSane(c, bytes, decode, now);
    case Typed(data, acts, now) => QueueInputSane(c, data, acts, now);
    case Ticked(due, now) => ReconcileSane(c, now); SameViewSane(Reconcile(c, now), Tick(c, due, now));
    case Dropped => ResetSane(c);
    case _ => SameViewSane(c, SendingStep(c, e));
  }

  // The events that concern the conversation only.
  function SendingStep(c: Client, e: Event): (r: Client)
    requires e.Pumped? || e.Begun? || e.Ended? || e.HungUp? || e.Wrote? || e.Sized?
    ensures SameView(r, c)
  {
    match e
    case Pumped => Pump(c)
    case Begun => BeginConnection(c)
    case Ended => EndConnection(c)
    case HungUp => RequestHangup(c)
    case Wrote(n) => AdvanceOutbound(c, n)
    case Sized(cols, rows) => SetSize(c, cols, rows)
  }

  // ---------- whole runs ----------

  // An impossible event does not happen.
  function Run(c: Client, events: seq<Event>, decode: Decoder): (r: Client)
    requires Sane(c)
    ensures Sane(r)
    decreases |events|
  {
    if events == [] then c
    else if Possible(c, events[0], decode) then
      StepSane(c, events[0], decode);
      Run(Step(c, events[0], decode), events[1..], decode)
    else Run(c, events[1..], decode)
  }

  // After any run the cached display agrees with recomputation, and without predictions it
  // is the confirmed frame itself.
  lemma DisplayIsRecomputed(c: Client, events: seq<Event>, decode: Decoder)
    requires Sane(c)
    ensures var r := Run(c, events, decode);
            r.display.Some? ==>
              && r.net.confirmed.Some?
              && r.display == RefreshDisplay(r).display
              && (r.never || Disallowed(r.shared) ==> r.display.value == r.net.confirmed.value.frame)
  {
    var r := Run(c, events, decode);
    hide Run;
    assert Shows(r) && Obedient(r);
  }

  // After any run, a context that forbids prediction has none.
  lemma DisallowedHasNone(c: Client, events: seq<Event>, decode: Decoder)
    requires Sane(c)
    ensures Disallowed(Run(c, events, decode).shared) ==> NoOverlays(Run(c, events, decode).predictor)
  {
    var r := Run(c, events, decode);
    hide Run;
    assert Obedient(r);
  }

  predicate ContextAhead(a: Option<Context>, b: Option<Context>) {
    a.Some? ==> b.Some? && a.value.epoch <= b.value.epoch
  }

  // The context that travels with a carried screen.
  function CarriedContext(e: Event, decode: Decoder): Option<Context> {
    var shared := match e
      case Control(f, _, _) => if f.typ == MSG_SHARED_SCREEN then DecodeShared(f.payload, decode) else None
      case Datagram(bytes, _) => DecodeShared(bytes, decode)
      case _ => None;
    match shared case None => None case Some(s) => Some(s.context)
  }

  // A screen that is not newer, whose context is from the past, or which has no context
  // although the session is shared.
  predicate Stale(c: Client, e: Event, decode: Decoder) {
    var screen, context := Carried(e, decode), CarriedContext(e, decode);
    screen.Some? &&
    (|| screen.value.version <= Version(c.net)
     || (c.shared.Some? && (context.None? || context.value.epoch < c.shared.value.epoch)))
  }

  // Whether by control frame or by datagram, shared or ordinary, a stale screen changes
  // nothing and any other becomes the screen shown.
  lemma StaleChangesNothing(c: Client, e: Event, decode: Decoder)
    requires P.Shaped(c.predictor) && Possible(c, e, decode) && Carried(e, decode).Some?
    ensures Stale(c, e, decode) ==> Step(c, e, decode) == c
    ensures !Stale(c, e, decode) ==> Step(c, e, decode).net.confirmed == Carried(e, decode)
  {
    hide ApplySharedScreen, P.Shaped;
    ShownByScreen(c, Carried(e, decode).value, e.now);
    var payload := if e.Control? then e.frame.payload else e.bytes;
    var s := DecodeShared(payload, decode);
    if s.Some? { SharedShown(c, s.value, e.now); }
    if e.Control? {
      if e.frame.typ == MSG_SHARED_SCREEN {
      } else {
      }
    } else if SHARED_SCREEN_MAGIC <= e.bytes {
    } else {
    }
  }

  lemma SharedShown(c: Client, incoming: SharedScreen, now: nat)
    requires P.Shaped(c.predictor)
    ensures var r := ApplySharedScreen(c, incoming, now).client;
            if incoming.screen.version <= Version(c.net) || (c.shared.Some? && incoming.context.epoch < c.shared.value.epoch)
            then r == c else r.net == Shown(c.net, incoming.screen)
  {
    ShownByScreen(EnterContext(c, incoming.context), incoming.screen, now);
  }

  lemma SharedScreenContext(c: Client, incoming: SharedScreen, now: nat)
    requires Sane(c) && incoming.screen.echoAck <= c.net.seqNo
    ensures var r := ApplySharedScreen(c, incoming, now).client;
            ContextAhead(c.shared, r.shared) && (r.shared != c.shared ==> NoOverlays(r.predictor))
  {
    var d := EnterContext(c, incoming.context);
    if c.shared != Some(incoming.context) && ApplySharedScreen(c, incoming, now).Going? {
      EnterContextObedient(c, incoming.context);
      BareCulls(d.predictor.(lateAcked := incoming.screen.echoAck), incoming.screen.frame, now);
    }
  }

  lemma BareCulls(p: P.State, fb: Frame, now: nat)
    requires P.Shaped(p) && NoOverlays(p)
    ensures NoOverlays(P.Cull(p, fb, now))
  {
  }

  // In every step the prediction epoch stays or rises, and a changed context leaves no
  // overlay predicted under another one.
  lemma StepContext(c: Client, e: Event, decode: Decoder)
    requires Sane(c) && Possible(c, e, decode)
    ensures var r := Step(c, e, decode);
            ContextAhead(c.shared, r.shared) && (r.shared != c.shared ==> NoOverlays(r.predictor))
  {
    hide Sane, ApplyScreen, ApplySharedScreen, QueueInput, Reconcile, Pump, MaybePing, DecodeShared;
    match e
    case Control(f, interval, now) =>
      if f.typ == MSG_SHARED_SCREEN && DecodeShared(f.payload, decode).Some? {
        SharedScreenContext(c, DecodeShared(f.payload, decode).value, now);
      }
    case Datagram(bytes, now) =>
      if SHARED_SCREEN_MAGIC <= bytes && DecodeShared(bytes, decode).Some? {
        SharedScreenContext(c, DecodeShared(bytes, decode).value, now);
      }
    case _ =>
  }

  lemma {:induction false} ContextNeverRegresses(c: Client, events: seq<Event>, decode: Decoder)
    requires Sane(c)
    ensures ContextAhead(c.shared, Run(c, events, decode).shared)
    decreases |events|
  {
    assert P.Shaped(c.predictor);
    hide Sane, Possible, Step;
    if events != [] {
      if Possible(c, events[0], decode) {
        StepContext(c, events[0], decode);
        StepSane(c, events[0], decode);
        ContextNeverRegresses(Step(c, events[0], decode), events[1..], decode);
      } else {
        ContextNeverRegresses(c, events[1..], decode);
      }
    }
  }

  // ---------- the conversation ----------

  // Sending marks an acknowledgement, then the first unsent message, as sent.
  predicate Pumps(n: Net, m: Net) {
    var next := NextUnsent(n.unacked, n.sentSeq);
    || m == n || m == AckSent(n)
    || (next.Some? && (m == Sent(n, next.value) || m == Sent(AckSent(n), next.value)))
  }

  // The moves of a client in `Protocol`: typing, sending, hearing an acknowledgement, being
  // shown a screen, hanging up, and opening and closing connections.
  predicate Moves(n: Net, m: Net, e: Event, decode: Decoder) {
    match e
    case Control(f, _, _) =>
      || m == n || m == n.(hungup := true)
      || (f.typ == MSG_INPUT_ACK && DecodeNumber(f.payload).Some? && m == Acked(n, DecodeNumber(f.payload).value))
      || (Carried(e, decode).Some? && m == Shown(n, Carried(e, decode).value))
    case Datagram(_, _) => m == n || (Carried(e, decode).Some? && m == Shown(n, Carried(e, decode).value))
    case Typed(data, _, _) => m == Queue(n, data)
    case Ticked(_, _) => Pumps(n, m)
    case Pumped => Pumps(n, m)
    case Begun => m == Begin(n)
    case Ended => m == End(n)
    case HungUp => m == n.(hungup := true)
    case _ => m == n
  }

  lemma ShownByScreen(c: Client, incoming: Screen, now: nat)
    requires P.Shaped(c.predictor)
    ensures ApplyScreen(c, incoming, now).net == Shown(c.net, incoming)
  {
  }

  lemma ShownByShared(c: Client, incoming: SharedScreen, now: nat)
    requires P.Shaped(c.predictor)
    ensures var m := ApplySharedScreen(c, incoming, now).client.net;
            m == c.net || m == Shown(c.net, incoming.screen)
  {
    ShownByScreen(EnterContext(c, incoming.context), incoming.screen, now);
  }

  lemma PumpMoves(c: Client)
    ensures Pumps(c.net, Pump(c).net)
  {
    hide Takes, Feeding.PushCtrl, NumberFrame, InputFrame, NextUnsent;
    assert PumpAck(c).net == c.net || PumpAck(c).net == AckSent(c.net);
  }

  lemma ReceivingMoves(c: Client, e: Event, decode: Decoder)
    requires P.Shaped(c.predictor) && Possible(c, e, decode) && (e.Control? || e.Datagram?)
    ensures Moves(c.net, Step(c, e, decode).net, e, decode)
  {
    hide ApplyScreen, ApplySharedScreen, DecodeShared;
    if Carried(e, decode).Some? {
      ShownByScreen(c, Carried(e, decode).value, e.now);
      var payload := if e.Control? then e.frame.payload else e.bytes;
      if DecodeShared(payload, decode).Some? { ShownByShared(c, DecodeShared(payload, decode).value, e.now); }
    }
  }

  // In every step the client makes one of the moves the session protocol is proved for; in
  // particular only typing adds to the unacknowledged messages and only an acknowledgement
  // of input takes from them.
  lemma StepMoves(c: Client, e: Event, decode: Decoder)
    requires P.Shaped(c.predictor) && Possible(c, e, decode)
    ensures Moves(c.net, Step(c, e, decode).net, e, decode)
    ensures !e.Typed? && !(e.Control? && e.frame.typ == MSG_INPUT_ACK) ==> Step(c, e, decode).net.unacked == c.net.unacked
  {
    match e
    case Control(_, _, _) => ReceivingMoves(c, e, decode);
    case Datagram(_, _) => ReceivingMoves(c, e, decode);
    case Ticked(due, now) =>
      PumpMoves(Reconcile(c, now));
      assert KeepAlive(Pump(Reconcile(c, now)), due).net == Pump(Reconcile(c, now)).net;
    case Pumped => PumpMoves(c);
    case _ => hide Pump, QueueInput, PushCtrl;
  }

  // Every step of a run makes such a move.
  predicate MovesThroughout(c: Client, events: seq<Event>, decode: Decoder)
    requires Sane(c)
    decreases |events|
  {
    events == [] ||
    if Possible(c, events[0], decode) then
      StepSane(c, events[0], decode);
      var r := Step(c, events[0], decode);
      Moves(c.net, r.net, events[0], decode) && MovesThroughout(r, events[1..], decode)
    else MovesThroughout(c, events[1..], decode)
  }

  lemma {:induction false} RunMoves(c: Client, events: seq<Event>, decode: Decoder)
    requires Sane(c)
    ensures MovesThroughout(c, events, decode)
    decreases |events|
  {
    if events != [] {
      if Possible(c, events[0], decode) {
        assert P.Shaped(c.predictor);
        StepSane(c, events[0], decode);
        hide Sane, Possible, Step, Moves;
        StepMoves(c, events[0], decode);
        RunMoves(Step(c, events[0], decode), events[1..], decode);
      } else {
        RunMoves(c, events[1..], decode);
      }
    }
  }

  // ---------- receiving is a run ----------

  // The frames a read handles, as events: all that are complete, up to a fatal one.
  function Reading(c: Client, decode: Decoder, interval: nat, now: nat): seq<Event>
    requires P.Shaped(c.predictor)
    decreases |c.recvBuf|
  {
    match F.SplitFrame(c.recvBuf)
    case Need => []
    case Bad => []
    case Got(f, rest) =>
      FrameKeepsBuffer(c.(recvBuf := rest), f, decode, interval, now);
      var h := HandleFrame(c.(recvBuf := rest), f, decode, interval, now);
      [Control(f, interval, now)] + if h.Fatal? then [] else Reading(h.client, decode, interval, now)
  }

  // No screen among the buffered frames acknowledges more than was queued.
  predicate Honest(buf: Bytes, seqNo: nat, decode: Decoder) {
    forall f :: f in F.Parse(buf).frames ==>
      var s := Carried(Control(f, 0, 0), decode); s.Some? ==> s.value.echoAck <= seqNo
  }

  lemma ScreenIgnoresBuffer(c: Client, buf: Bytes, incoming: Screen, now: nat)
    requires P.Shaped(c.predictor)
    ensures ApplyScreen(c.(recvBuf := buf), incoming, now) == ApplyScreen(c, incoming, now).(recvBuf := buf)
  {
    hide P.Cull, P.Apply, P.Shaped;
  }

  lemma ContextIgnoresBuffer(c: Client, buf: Bytes, context: Context)
    requires P.Shaped(c.predictor)
    ensures EnterContext(c.(recvBuf := buf), context) == EnterContext(c, context).(recvBuf := buf)
  {
    hide P.Reset, P.Shaped;
  }

  lemma SharedIgnoresBuffer(c: Client, buf: Bytes, incoming: SharedScreen, now: nat)
    requires P.Shaped(c.predictor)
    ensures var h, g := ApplySharedScreen(c, incoming, now), ApplySharedScreen(c.(recvBuf := buf), incoming, now);
            g.client == h.client.(recvBuf := buf) && (g.Fatal? <==> h.Fatal?)
  {
    ContextIgnoresBuffer(c, buf, incoming.context);
    ScreenIgnoresBuffer(EnterContext(c, incoming.context), buf, incoming.screen, now);
    hide ApplyScreen, EnterContext, P.Shaped, ApplyNewer;
    if ApplyNewer(c.net.confirmed, incoming.screen).None? {
    } else if c.shared.Some? && incoming.context.epoch < c.shared.value.epoch {
    } else {
    }
  }

  lemma ScreenFrameIgnoresBuffer(c: Client, buf: Bytes, f: F.Frame, decode: Decoder, interval: nat, now: nat)
    requires P.Shaped(c.predictor) && (f.typ == MSG_SHARED_SCREEN || f.typ == MSG_SCREEN)
    ensures var h, g := HandleFrame(c, f, decode, interval, now), HandleFrame(c.(recvBuf := buf), f, decode, interval, now);
            g.client == h.client.(recvBuf := buf) && (g.Fatal? <==> h.Fatal?)
  {
    hide ApplyScreen, ApplySharedScreen, DecodeShared, P.Shaped;
    if f.typ == MSG_SHARED_SCREEN {
      var s := DecodeShared(f.payload, decode);
      if s.Some? { SharedIgnoresBuffer(c, buf, s.value, now); }
    } else if decode(f.payload).Some? {
      ScreenIgnoresBuffer(c, buf, decode(f.payload).value, now);
    }
  }

  lemma FrameIgnoresBuffer(c: Client, buf: Bytes, f: F.Frame, decode: Decoder, interval: nat, now: nat)
    requires P.Shaped(c.predictor)
    ensures var h, g := HandleFrame(c, f, decode, interval, now), HandleFrame(c.(recvBuf := buf), f, decode, interval, now);
            g.client == h.client.(recvBuf := buf) && (g.Fatal? <==> h.Fatal?)
  {
    hide ApplyScreen, ApplySharedScreen, DecodeShared, DecodeNumber, FromLe, AsSigned, Acked, P.Shaped;
    if f.typ == MSG_SHARED_SCREEN || f.typ == MSG_SCREEN {
      ScreenFrameIgnoresBuffer(c, buf, f, decode, interval, now);
    } else {
    }
  }

  predicate AllControl(events: seq<Event>) { forall k :: 0 <= k < |events| ==> events[k].Control? }

  lemma {:induction false} RunIgnoresBuffer(c: Client, buf: Bytes, events: seq<Event>, decode: Decoder)
    requires Sane(c) && Sane(c.(recvBuf := buf)) && AllControl(events)
    ensures Run(c.(recvBuf := buf), events, decode) == Run(c, events, decode).(recvBuf := buf)
    decreases |events|
  {
    hide HandleFrame;
    if events != [] {
      var e, d := events[0], c.(recvBuf := buf);
      assert P.Shaped(c.predictor);
      FrameIgnoresBuffer(c, buf, e.frame, decode, e.interval, e.now);
      if Possible(c, e, decode) {
        StepSane(c, e, decode);
        StepSane(d, e, decode);
        RunIgnoresBuffer(Step(c, e, decode), buf, events[1..], decode);
      } else {
        RunIgnoresBuffer(c, buf, events[1..], decode);
      }
    }
  }

  // What a read leaves: the frames handled are the first ones of the buffer, all of them
  // unless one was fatal.
  predicate ReadsFrames(events: seq<Event>, p: F.Parsed, h: Outcome, interval: nat, now: nat) {
    && |events| <= |p.frames|
    && (forall k :: 0 <= k < |events| ==> events[k] == Control(p.frames[k], interval, now))
    && AllControl(events)
    && (h.Going? ==> |events| == |p.frames| && !p.broken && h.client.recvBuf == p.rest)
  }

  lemma ReadsOneMore(f: F.Frame, events: seq<Event>, p: F.Parsed, h: Outcome, interval: nat, now: nat)
    requires ReadsFrames(events, p, h, interval, now)
    ensures AllControl(events) && ReadsFrames([Control(f, interval, now)] + events, p.(frames := [f] + p.frames), h, interval, now)
  {
  }

  lemma RunFirst(c: Client, e: Event, more: seq<Event>, decode: Decoder)
    requires Sane(c) && Possible(c, e, decode)
    ensures Sane(Step(c, e, decode)) && Run(c, [e] + more, decode) == Run(Step(c, e, decode), more, decode)
  {
    StepSane(c, e, decode);
    assert ([e] + more)[1..] == more;
  }

  // One frame handled without its bytes in the buffer, which is how `HandleAll` does it.
  lemma FrameIsStep(c: Client, f: F.Frame, rest: Bytes, decode: Decoder, interval: nat, now: nat)
    requires Sane(c) && Possible(c, Control(f, interval, now), decode)
    ensures var h, t := HandleFrame(c.(recvBuf := rest), f, decode, interval, now), Step(c, Control(f, interval, now), decode);
            && Sane(h.client) && Sane(t) && h.client == t.(recvBuf := rest)
            && h.client.net.seqNo == c.net.seqNo
  {
    var d, e := c.(recvBuf := rest), Control(f, interval, now);
    SameViewSane(c, d);
    StepSane(c, e, decode);
    HandleFrameSane(d, f, decode, interval, now);
    ReceivingMoves(c, e, decode);
    FrameKeepsBuffer(d, f, decode, interval, now);
    FrameIgnoresBuffer(c, rest, f, decode, interval, now);
    hide HandleFrame, Sane;
  }

  lemma FirstThenMore(c: Client, e: Event, d: Client, more: seq<Event>, g: Client, decode: Decoder)
    requires Sane(c) && Possible(c, e, decode) && Sane(d) && AllControl(more)
    requires d == Step(c, e, decode).(recvBuf := d.recvBuf) && g == Run(d, more, decode).(recvBuf := g.recvBuf)
    ensures g == Run(c, [e] + more, decode).(recvBuf := g.recvBuf)
  {
    RunFirst(c, e, more, decode);
    hide Run, Step, Sane, Possible;
    RunIgnoresBuffer(Step(c, e, decode), d.recvBuf, more, decode);
  }

  lemma SaneShaped(c: Client)
    requires Sane(c)
    ensures P.Shaped(c.predictor)
  {
  }

  lemma RunNone(c: Client, decode: Decoder)
    requires Sane(c)
    ensures Run(c, [], decode) == c
  {
  }

  lemma {:induction false} HandleAllIsRun(c: Client, decode: Decoder, interval: nat, now: nat)
    requires Sane(c) && Honest(c.recvBuf, c.net.seqNo, decode)
    ensures var h, events := HandleAll(c, decode, interval, now), Reading(c, decode, interval, now);
            && h.client == Run(c, events, decode).(recvBuf := h.client.recvBuf)
            && ReadsFrames(events, F.Parse(c.recvBuf), h, interval, now)
    decreases |c.recvBuf|
  {
    hide HandleFrame, Sane, Step, Run, F.SplitFrame, Honest, Possible, P.Shaped;
    SaneShaped(c);
    RunNone(c, decode);
    if F.SplitFrame(c.recvBuf).Got? {
      var f, rest := F.SplitFrame(c.recvBuf).frame, F.SplitFrame(c.recvBuf).rest;
      FirstPossible(c, decode, interval, now);
      FrameIsStep(c, f, rest, decode, interval, now);
      var h := HandleFrame(c.(recvBuf := rest), f, decode, interval, now);
      RunNone(h.client, decode);
      SaneShaped(h.client);
      if h.Fatal? {
        assert [Control(f, interval, now)] + [] == [Control(f, interval, now)];
        FirstThenMore(c, Control(f, interval, now), h.client, [], h.client, decode);
      } else {
        HandleAllIsRun(h.client, decode, interval, now);
        ReadOn(c, f, rest, h.client, decode, interval, now);
      }
    }
  }

  // The frames after the first one, put behind it.
  lemma ReadOn(c: Client, f: F.Frame, rest: Bytes, d: Client, decode: Decoder, interval: nat, now: nat)
    requires Sane(c) && Possible(c, Control(f, interval, now), decode) && Sane(d) && P.Shaped(d.predictor)
    requires d == Step(c, Control(f, interval, now), decode).(recvBuf := d.recvBuf) && d.recvBuf == rest
    requires var g, more := HandleAll(d, decode, interval, now), Reading(d, decode, interval, now);
             && g.client == Run(d, more, decode).(recvBuf := g.client.recvBuf)
             && ReadsFrames(more, F.Parse(rest), g, interval, now)
    ensures var g, events := HandleAll(d, decode, interval, now), [Control(f, interval, now)] + Reading(d, decode, interval, now);
            && g.client == Run(c, events, decode).(recvBuf := g.client.recvBuf)
            && ReadsFrames(events, F.Parse(rest).(frames := [f] + F.Parse(rest).frames), g, interval, now)
  {
    hide HandleAll, Reading, ReadsFrames, Sane, Step, Run, Possible, F.Parse, P.Shaped;
    var g, more := HandleAll(d, decode, interval, now), Reading(d, decode, interval, now);
    ReadsOneMore(f, more, F.Parse(rest), g, interval, now);
    FirstThenMore(c, Control(f, interval, now), d, more, g.client, decode);
  }

  lemma FirstPossible(c: Client, decode: Decoder, interval: nat, now: nat)
    requires F.SplitFrame(c.recvBuf).Got? && Honest(c.recvBuf, c.net.seqNo, decode)
    ensures Possible(c, Control(F.SplitFrame(c.recvBuf).frame, interval, now), decode)
    ensures Honest(F.SplitFrame(c.recvBuf).rest, c.net.seqNo, decode)
  {
    FirstHonest(c.recvBuf, c.net.seqNo, decode);
    hide Honest, F.SplitFrame;
  }

  lemma FirstHonest(buf: Bytes, seqNo: nat, decode: Decoder)
    requires F.SplitFrame(buf).Got? && Honest(buf, seqNo, decode)
    ensures var s := Carried(Control(F.SplitFrame(buf).frame, 0, 0), decode); s.Some? ==> s.value.echoAck <= seqNo
    ensures Honest(F.SplitFrame(buf).rest, seqNo, decode)
  {
    var f, rest := F.SplitFrame(buf).frame, F.SplitFrame(buf).rest;
    assert F.Parse(buf).frames == [f] + F.Parse(rest).frames;
    assert f in F.Parse(buf).frames;
    forall g | g in F.Parse(rest).frames ensures g in F.Parse(buf).frames {}
  }

  // A frame never adds an overlay to none.
  lemma FrameLeavesBare(c: Client, e: Event, decode: Decoder)
    requires Sane(c) && Possible(c, e, decode) && e.Control? && NoOverlays(c.predictor)
    ensures NoOverlays(Step(c, e, decode).predictor)
  {
    hide ApplyScreen, ApplySharedScreen, DecodeShared, Sane;
    var f := e.frame;
    if f.typ == MSG_SHARED_SCREEN && DecodeShared(f.payload, decode).Some? {
      BareShared(c, DecodeShared(f.payload, decode).value, e.now);
    } else if f.typ == MSG_SCREEN && decode(f.payload).Some? {
      BareScreen(c, decode(f.payload).value, e.now);
    }
    if f.typ == MSG_SHARED_SCREEN {
    } else if f.typ == MSG_SCREEN {
    } else {
    }
  }

  lemma BareScreen(c: Client, incoming: Screen, now: nat)
    requires P.Shaped(c.predictor) && NoOverlays(c.predictor)
    ensures NoOverlays(ApplyScreen(c, incoming, now).predictor)
  {
    BareCulls(c.predictor.(lateAcked := incoming.echoAck), incoming.frame, now);
    hide P.Cull;
  }

  lemma BareShared(c: Client, incoming: SharedScreen, now: nat)
    requires P.Shaped(c.predictor) && NoOverlays(c.predictor)
    ensures NoOverlays(ApplySharedScreen(c, incoming, now).client.predictor)
  {
    BareScreen(EnterContext(c, incoming.context), incoming.screen, now);
    hide ApplyScreen;
  }

  lemma {:induction false} FramesContext(c: Client, events: seq<Event>, decode: Decoder)
    requires Sane(c) && AllControl(events)
    ensures var r := Run(c, events, decode);
            && ContextAhead(c.shared, r.shared)
            && (r.shared != c.shared || NoOverlays(c.predictor) ==> NoOverlays(r.predictor))
    decreases |events|
  {
    if events != [] {
      assert P.Shaped(c.predictor);
      hide Sane, Possible, Step;
      if Possible(c, events[0], decode) {
        StepSane(c, events[0], decode);
        StepContext(c, events[0], decode);
        if NoOverlays(c.predictor) { FrameLeavesBare(c, events[0], decode); }
        FramesContext(Step(c, events[0], decode), events[1..], decode);
      } else {
        FramesContext(c, events[1..], decode);
      }
    }
  }

  // What one read of the reliable stream does: it runs the complete frames of the buffer up
  // to a fatal one, and nothing more. So it keeps the invariant and makes moves of the
  // protocol only; a prediction epoch never falls, and when the context changed no overlay
  // predicted under another one is left.
  lemma RecvControlIsRun(c: Client, bytes: Bytes, decode: Decoder, interval: nat, now: nat)
    requires Sane(c) && Honest(c.recvBuf + bytes, c.net.seqNo, decode)
    ensures var h := RecvControl(c, bytes, decode, interval, now);
            var events := Reading(c.(recvBuf := c.recvBuf + bytes), decode, interval, now);
            && h.client == Run(c, events, decode).(recvBuf := h.client.recvBuf)
            && ReadsFrames(events, F.Parse(c.recvBuf + bytes), h, interval, now)
            && Sane(h.client)
            && MovesThroughout(c, events, decode)
            && ContextAhead(c.shared, h.client.shared)
            && (h.client.shared != c.shared ==> NoOverlays(h.client.predictor))
  {
    hide HandleAll, Reading, Run;
    var d := c.(recvBuf := c.recvBuf + bytes);
    SameViewSane(c, d);
    assert P.Shaped(c.predictor);
    var h, events := RecvControl(c, bytes, decode, interval, now), Reading(d, decode, interval, now);
    HandleAllIsRun(d, decode, interval, now);
    RunIgnoresBuffer(c, d.recvBuf, events, decode);
    var r := Run(c, events, decode);
    SameViewSane(r, h.client);
    RunMoves(c, events, decode);
    FramesContext(c, events, decode);
  }

  // ---------- what sending sends ----------

  // The frames a pump hands to the feed, in order: an acknowledgement, then the first
  // message not yet sent; each is marked as sent exactly if the feed took it. An input goes
  // into flight at once, so it is never among the frames that a last frame discards.
  lemma PumpSends(c: Client)
    requires Feeding.Valid(c.feed) && Feeding.QueuedNonEmpty(c.feed) && Sending(c.net)
    ensures var r := Pump(c);
            var ack := if c.net.pendingAck.Some? && r.net.pendingAck.None?
                       then [F.Encode(NumberFrame(MSG_ACK_STATE, c.net.pendingAck.value))] else [];
            var m := NextUnsent(c.net.unacked, c.net.sentSeq);
            var input := if r.net.sentSeq != c.net.sentSeq && m.Some? then [F.Encode(InputFrame(m.value))] else [];
            && Feeding.Valid(r.feed) && Feeding.QueuedNonEmpty(r.feed)
            && Queued(r.feed) == Queued(c.feed) + ack + input
            && r.net.sentSeq == (if input == [] then c.net.sentSeq else m.value.seqNo)
            && (input != [] ==> ack == [] && AtOnce(c.feed, r.feed, input[0]))
  {
    hide Queued, PumpAck, PumpInput, Feeding.Valid, Feeding.QueuedNonEmpty;
    AckSends(c);
    InputSends(PumpAck(c));
    assert Queued(c.feed) + [] == Queued(c.feed);
    assert Queued(PumpAck(c).feed) + [] == Queued(PumpAck(c).feed);
  }

  // The frame went straight from the client into flight on an idle stream.
  predicate AtOnce(f: Feeding.Feed, g: Feeding.Feed, frame: Bytes) {
    Feeding.Idle(f) && g.log == f.log + [Feeding.Item(Feeding.Control, frame)] && g.ctrl == []
  }

  // All control frames a feed has taken, whether they have left or not.
  function Queued(f: Feeding.Feed): seq<Bytes> { Feeding.ControlsOf(f.log) + f.ctrl }

  lemma AckSends(c: Client)
    requires Feeding.Valid(c.feed) && Feeding.QueuedNonEmpty(c.feed)
    ensures var r := PumpAck(c);
            var ack := if c.net.pendingAck.Some? && r.net.pendingAck.None?
                       then [F.Encode(NumberFrame(MSG_ACK_STATE, c.net.pendingAck.value))] else [];
            && Feeding.Valid(r.feed) && Feeding.QueuedNonEmpty(r.feed) && Queued(r.feed) == Queued(c.feed) + ack
            && r.net.sentSeq == c.net.sentSeq && r.net.unacked == c.net.unacked
            && (r.feed.out == [] ==> ack == [] && r.feed == c.feed)
  {
    hide Feeding.PushCtrl, Feeding.Accepts, Feeding.Valid, Feeding.QueuedNonEmpty, Feeding.ControlsOf, ToLe;
    assert Queued(c.feed) + [] == Queued(c.feed);
    if c.net.pendingAck.Some? {
      Feeding.CtrlValid(c.feed, F.Encode(NumberFrame(MSG_ACK_STATE, c.net.pendingAck.value)));
      Feeding.CtrlAtOnce(c.feed, F.Encode(NumberFrame(MSG_ACK_STATE, c.net.pendingAck.value)));
    }
  }

  lemma InputSends(c: Client)
    requires Feeding.Valid(c.feed) && Feeding.QueuedNonEmpty(c.feed)
    ensures var r := PumpInput(c);
            var m := NextUnsent(c.net.unacked, c.net.sentSeq);
            var input := if r.net.sentSeq != c.net.sentSeq && m.Some? then [F.Encode(InputFrame(m.value))] else [];
            && Feeding.Valid(r.feed) && Feeding.QueuedNonEmpty(r.feed) && Queued(r.feed) == Queued(c.feed) + input
            && r.net.sentSeq == (if input == [] then c.net.sentSeq else m.value.seqNo)
            && r.net.pendingAck == c.net.pendingAck
            && (input != [] ==> AtOnce(c.feed, r.feed, input[0]))
  {
    hide Feeding.PushCtrl, Feeding.Accepts, Feeding.Valid, Feeding.QueuedNonEmpty, Feeding.ControlsOf, ToLe;
    var m := NextUnsent(c.net.unacked, c.net.sentSeq);
    assert Queued(c.feed) + [] == Queued(c.feed);
    if c.feed.out == [] && m.Some? {
      Feeding.CtrlValid(c.feed, F.Encode(InputFrame(m.value)));
      Feeding.CtrlAtOnce(c.feed, F.Encode(InputFrame(m.value)));
    }
  }
}
