/**
 The reconnecting session: one client, any number of connections each with its handler, and
 one owner. Connections may be lost at any moment, old handlers run beside new ones, command
 queues fill up, screens are lost, repeated and reordered. A run is any sequence of events.
 The control stream of a connection is a queue of messages in each direction, which is what
 `Link.StreamIsAQueue` proves of the bytes below.
 */
module Protocol {
  import opened Wrappers
  import opened Bytes
  import opened Frames
  import opened ClientNet
  import opened Chains
  import O = SessionOwner
  import T = Transport

  // From client to server.
  datatype Up = Input(message: Message) | AckState(version: nat) | Other

  datatype Conn = Conn(
    up: seq<Up>,              // sent by the client, not yet taken out of the receive buffer
    busy: seq<Message>,       // waiting for room in the command queue
    claim: nat,               // the transport number, 0 until the handshake is done
    alive: bool,
    acks: seq<nat>,           // input acknowledgements under way to the client
    pendingAck: Option<nat>,
    ackSeen: nat)             // the accepted number last seen by the handler

  const OPENED := Conn([], [], 0, true, [], None, 0)

  datatype World = World(
    net: Net,
    log: seq<Bytes>,          // history: everything the client queued
    conns: seq<Conn>,         // oldest first; the client uses the last one
    cmds: seq<T.Cmd>,
    owner: O.Owner,
    epoch: nat,
    lastAcked: nat)

  const START := World(FRESH, [], [], [], O.STARTED, 0, 0)

  datatype Event =
    // client
    | Type(data: Bytes) | Open | Close | SendInput | SendAck | SendOther | Hangup
    | Show(version: nat) | ReadAck
    // handlers
    | Claim(i: nat) | Read(i: nat) | HandOver(i: nat) | Refuse(i: nat) | HandResize(i: nat, cols: nat, rows: nat)
    | SeeAccepted(i: nat) | PushAck(i: nat) | Die(i: nat)
    // owner
    | OwnerDoes(does: O.Event) | Dequeue(frame: Frame)

  // ---------- steps ----------

  function Current(conns: seq<Conn>): Conn
    requires conns != []
  {
    conns[|conns| - 1]
  }

  function SendUp(w: World, u: Up): World
    requires w.conns != []
  {
    var c := Current(w.conns);
    w.(conns := w.conns[|w.conns| - 1 := c.(up := c.up + [u])])
  }

  predicate Live(w: World, i: nat) { i < |w.conns| && w.conns[i].alive && w.conns[i].claim > 0 }

  predicate Enabled(w: World, e: Event)
    requires O.Valid(w.owner)
  {
    match e
    case Type(data) => T.LegalInput(data)
    case Open => true
    case Close => true
    case SendInput => Sending(w.net) && w.conns != [] && NextUnsent(w.net.unacked, w.net.sentSeq).Some?
    case SendAck => Sending(w.net) && w.conns != [] && w.net.pendingAck.Some?
    case SendOther => w.net.connected && w.conns != []
    case Hangup => true
    // Any screen ever published may arrive, on the stream or as a datagram, at any time.
    case Show(v) => w.net.connected && 1 <= v <= |w.owner.published|
    case ReadAck => w.net.connected && w.conns != [] && Current(w.conns).acks != []
    case Claim(i) => i < |w.conns| && w.conns[i].alive && w.conns[i].claim == 0
    // A handler checks that it is current before it reads, but another may take over in
    // between, so a read by an old handler is possible.
    case Read(i) =>
      Live(w, i) && w.conns[i].up != [] && (w.conns[i].up[0].Input? ==> T.BusyBytes(w.conns[i].busy) < T.BUSY_CAP)
    case HandOver(i) => Live(w, i) && w.owner.alive && w.conns[i].busy != [] && |w.cmds| < T.CMD_Q
    case Refuse(i) => Live(w, i) && !w.owner.alive && w.conns[i].busy != []
    case HandResize(i, _, _) => Live(w, i) && w.owner.alive && |w.cmds| < T.CMD_Q
    case SeeAccepted(i) => Live(w, i) && w.conns[i].ackSeen != w.owner.lastSeq
    case PushAck(i) => Live(w, i) && w.conns[i].pendingAck.Some?
    case Die(i) => i < |w.conns|
    case OwnerDoes(does) => !does.Input? && O.Enabled(w.owner, does)
    case Dequeue(_) => w.owner.alive && w.cmds != [] && O.AcceptsMore(w.owner)
  }

  function ReadOne(w: World, i: nat): World
    requires i < |w.conns| && w.conns[i].up != []
  {
    var c := w.conns[i];
    var rest := c.(up := c.up[1..]);
    match c.up[0]
    case Input(m) => w.(conns := w.conns[i := rest.(busy := c.busy + [m])])
    case AckState(v) =>
      var room := w.owner.alive && |w.cmds| < T.CMD_Q;
      w.(conns := w.conns[i := rest], lastAcked := Max(w.lastAcked, v),
         cmds := if room then w.cmds + [T.Ack(v)] else w.cmds)
    case Other => w.(conns := w.conns[i := rest])
  }

  function Obey(w: World, frame: Frame): World
    requires O.Valid(w.owner) && Enabled(w, Dequeue(frame))
  {
    var rest := w.(cmds := w.cmds[1..]);
    match w.cmds[0]
    case Input(m) => rest.(owner := O.Step(w.owner, O.Input(m.seqNo, m.data)))
    case Resize(_, _) => rest.(owner := O.Step(w.owner, O.Resized(frame)))
    case Ack(v) => rest.(lastAcked := Max(w.lastAcked, v))
  }

  function Do(w: World, e: Event): World
    requires O.Valid(w.owner) && Enabled(w, e)
  {
    match e
    case Type(data) => w.(net := Queue(w.net, data), log := w.log + [data])
    case Open => w.(net := Begin(w.net), conns := w.conns + [OPENED])
    case Close => w.(net := End(w.net))
    case SendInput =>
      var m := NextUnsent(w.net.unacked, w.net.sentSeq).value;
      SendUp(w, Input(m)).(net := Sent(w.net, m))
    case SendAck => SendUp(w, AckState(w.net.pendingAck.value)).(net := AckSent(w.net))
    case SendOther => SendUp(w, Other)
    case Hangup => w.(net := w.net.(hungup := true))
    case Show(v) =>
      var p := w.owner.published[v - 1];
      w.(net := Shown(w.net, Screen(v, p.echoAck, p.frame)))
    case ReadAck =>
      var c := Current(w.conns);
      w.(net := Acked(w.net, c.acks[0]), conns := w.conns[|w.conns| - 1 := c.(acks := c.acks[1..])])
    case Claim(i) =>
      var last := w.owner.lastSeq;
      w.(epoch := w.epoch + 1,
         conns := w.conns[i := w.conns[i].(claim := w.epoch + 1, ackSeen := last,
                                           pendingAck := if last > 0 then Some(last) else None)])
    case Read(i) => ReadOne(w, i)
    case HandOver(i) =>
      var c := w.conns[i];
      w.(cmds := w.cmds + [T.Input(c.busy[0])], conns := w.conns[i := c.(busy := c.busy[1..])])
    case Refuse(i) => w.(conns := w.conns[i := w.conns[i].(busy := w.conns[i].busy[1..])])
    case HandResize(_, cols, rows) => w.(cmds := w.cmds + [T.Resize(cols, rows)])
    case SeeAccepted(i) =>
      w.(conns := w.conns[i := w.conns[i].(ackSeen := w.owner.lastSeq, pendingAck := Some(w.owner.lastSeq))])
    case PushAck(i) =>
      var c := w.conns[i];
      w.(conns := w.conns[i := c.(acks := c.acks + [c.pendingAck.value], pendingAck := None)])
    case Die(i) => w.(conns := w.conns[i := w.conns[i].(alive := false)])
    case OwnerDoes(does) => w.(owner := O.Step(w.owner, does))
    case Dequeue(frame) => Obey(w, frame)
  }

  // ---------- what every step keeps ----------

  function UpInputs(up: seq<Up>): seq<Message> {
    if up == [] then []
    else (if up[0].Input? then [up[0].message] else []) + UpInputs(up[1..])
  }

  function CmdInputs(cmds: seq<T.Cmd>): seq<Message> {
    if cmds == [] then []
    else (if cmds[0].Input? then [cmds[0].message] else []) + CmdInputs(cmds[1..])
  }

  // The inputs of a connection that have not reached the owner's queue, in order.
  function Stream(c: Conn): seq<Message> { c.busy + UpInputs(c.up) }

  // A message that the client queued, under its number.
  predicate Genuine(m: Message, log: seq<Bytes>) { 1 <= m.seqNo <= |log| && m.data == log[m.seqNo - 1] }

  predicate AllGenuine(ms: seq<Message>, log: seq<Bytes>) { forall k :: 0 <= k < |ms| ==> Genuine(ms[k], log) }

  // The unacknowledged messages are the last ones queued, and all earlier ones were accepted.
  predicate LogKept(net: Net, log: seq<Bytes>, last: nat) {
    && net.seqNo == |log| && |net.unacked| <= |log| && net.sentSeq <= |log|
    && (forall k :: 0 <= k < |log| ==> T.LegalInput(log[k]))
    && Numbered(net.unacked, |log| - |net.unacked|, log)
    && |log| - |net.unacked| <= last
  }

  predicate Numbered(unacked: seq<Message>, from: nat, log: seq<Bytes>)
    requires from + |unacked| == |log|
  {
    forall k :: 0 <= k < |unacked| ==> unacked[k] == Message(from + 1 + k, log[from + k])
  }

  predicate AcceptedKept(owner: O.Owner, log: seq<Bytes>) { owner.accepted <= log }

  // No gap: above what the owner has, its queue is a chain, and above that every living
  // connection's stream is one.
  predicate Flows(conns: seq<Conn>, cmds: seq<T.Cmd>, last: nat) {
    && Chain(last, CmdInputs(cmds))
    && forall i :: 0 <= i < |conns| && conns[i].alive ==> Chain(Top(last, CmdInputs(cmds)), Stream(conns[i]))
  }

  // Nothing that was sent on the present connection has been lost while it lives.
  predicate SentKept(sentSeq: nat, conns: seq<Conn>, cmds: seq<T.Cmd>, last: nat) {
    conns != [] && Current(conns).alive ==> sentSeq <= Top(Top(last, CmdInputs(cmds)), Stream(Current(conns)))
  }

  predicate ConnAcks(c: Conn, last: nat) {
    && c.ackSeen <= last && (c.pendingAck.Some? ==> c.pendingAck.value <= last)
    && (forall k :: 0 <= k < |c.acks| ==> c.acks[k] <= last)
    && (c.claim == 0 ==> c.ackSeen == 0 && c.pendingAck.None? && c.acks == [])
  }

  // What the handler has seen accepted is about to be sent, under way, or has arrived.
  predicate Covered(c: Conn, unacked: seq<Message>) {
    || c.ackSeen == 0
    || c.pendingAck == Some(c.ackSeen)
    || c.ackSeen in c.acks
    || (forall k :: 0 <= k < |unacked| ==> unacked[k].seqNo > c.ackSeen)
  }

  predicate AckCovered(conns: seq<Conn>, unacked: seq<Message>) { conns != [] ==> Covered(Current(conns), unacked) }

  predicate ScreenKept(confirmed: Option<Screen>, published: seq<O.Published>) {
    confirmed.Some? ==>
      var s := confirmed.value;
      1 <= s.version <= |published| && O.Published(s.echoAck, s.frame) == published[s.version - 1]
  }

  predicate UpVersions(up: seq<Up>, version: nat) {
    forall k :: 0 <= k < |up| && up[k].AckState? ==> up[k].version <= version
  }

  predicate LevelsKept(cmds: seq<T.Cmd>, pending: Option<nat>, lastAcked: nat, version: nat) {
    && lastAcked <= version && (pending.Some? ==> pending.value <= version)
    && (forall k :: 0 <= k < |cmds| && cmds[k].Ack? ==> cmds[k].version <= version)
  }

  predicate ConnKept(c: Conn, log: seq<Bytes>, last: nat, version: nat) {
    AllGenuine(Stream(c), log) && ConnAcks(c, last) && UpVersions(c.up, version)
  }

  predicate ConnsKept(conns: seq<Conn>, log: seq<Bytes>, last: nat, version: nat) {
    forall i :: 0 <= i < |conns| ==> ConnKept(conns[i], log, last, version)
  }

  predicate Inv(w: World) {
    && O.Valid(w.owner)
    && AcceptedKept(w.owner, w.log)
    && (w.net.connected ==> w.conns != [])
    && LogKept(w.net, w.log, w.owner.lastSeq)
    && AllGenuine(CmdInputs(w.cmds), w.log)
    && ConnsKept(w.conns, w.log, w.owner.lastSeq, Version(w.net))
    && (w.owner.alive ==> Flows(w.conns, w.cmds, w.owner.lastSeq) && SentKept(w.net.sentSeq, w.conns, w.cmds, w.owner.lastSeq))
    && AckCovered(w.conns, w.net.unacked)
    && ScreenKept(w.net.confirmed, w.owner.published)
    && LevelsKept(w.cmds, w.net.pendingAck, w.lastAcked, Version(w.net))
  }

  lemma StartInv()
    ensures Inv(START)
  {
    O.StartedValid();
  }

  // ---------- lists ----------

  lemma {:induction false} UpAppend(a: seq<Up>, b: seq<Up>)
    ensures UpInputs(a + b) == UpInputs(a) + UpInputs(b)
  {
    if a == [] {
      assert a + b == b;
    } else {
      FirstOfBoth(a, b);
      UpAppend(a[1..], b);
      Assoc(if a[0].Input? then [a[0].message] else [], UpInputs(a[1..]), UpInputs(b));
    }
  }

  lemma {:induction false} CmdAppend(a: seq<T.Cmd>, b: seq<T.Cmd>)
    ensures CmdInputs(a + b) == CmdInputs(a) + CmdInputs(b)
  {
    if a == [] {
      assert a + b == b;
    } else {
      FirstOfBoth(a, b);
      CmdAppend(a[1..], b);
      Assoc(if a[0].Input? then [a[0].message] else [], CmdInputs(a[1..]), CmdInputs(b));
    }
  }

  lemma CmdPush(cmds: seq<T.Cmd>, c: T.Cmd)
    ensures CmdInputs(cmds + [c]) == CmdInputs(cmds) + (if c.Input? then [c.message] else [])
  {
    CmdAppend(cmds, [c]);
    assert CmdInputs([c]) == (if c.Input? then [c.message] else []) + CmdInputs([]);
  }

  lemma UpPush(c: Conn, u: Up)
    ensures Stream(c.(up := c.up + [u])) == Stream(c) + (if u.Input? then [u.message] else [])
  {
    UpAppend(c.up, [u]);
    assert UpInputs([u]) == (if u.Input? then [u.message] else []) + UpInputs([]);
  }

  lemma {:induction false} NewerSuffix(unacked: seq<Message>, from: nat, log: seq<Bytes>, ack: nat)
    requires from + |unacked| == |log| && Numbered(unacked, from, log)
    ensures var r := Newer(unacked, ack);
            && |r| <= |unacked| && Numbered(r, |log| - |r|, log)
            && |log| - |r| <= Max(from, ack)
    decreases |unacked|
  {
    hide Newer, Numbered;
    if unacked == [] {
      NewerAll(unacked, ack);
    } else {
      NumberedFirst(unacked, from, log);
      if unacked[0].seqNo > ack {
        AllNumberedAbove(unacked, from, log, ack);
        NewerAll(unacked, ack);
      } else {
        NumberedTail(unacked, from, log);
        NewerDrops(unacked, ack);
        NewerSuffix(unacked[1..], from + 1, log, ack);
      }
    }
  }

  lemma NumberedFirst(unacked: seq<Message>, from: nat, log: seq<Bytes>)
    requires from + |unacked| == |log| && unacked != [] && Numbered(unacked, from, log)
    ensures unacked[0] == Message(from + 1, log[from])
  {
  }

  lemma AllNumberedAbove(unacked: seq<Message>, from: nat, log: seq<Bytes>, ack: nat)
    requires from + |unacked| == |log| && Numbered(unacked, from, log) && ack <= from
    ensures forall k :: 0 <= k < |unacked| ==> unacked[k].seqNo > ack
  {
  }

  lemma NewerDrops(unacked: seq<Message>, ack: nat)
    requires unacked != [] && unacked[0].seqNo <= ack
    ensures Newer(unacked, ack) == Newer(unacked[1..], ack)
  {
    assert [] + Newer(unacked[1..], ack) == Newer(unacked[1..], ack);
  }

  lemma NumberedTail(unacked: seq<Message>, from: nat, log: seq<Bytes>)
    requires from + |unacked| == |log| && unacked != [] && Numbered(unacked, from, log)
    ensures Numbered(unacked[1..], from + 1, log)
  {
    forall k | 0 <= k < |unacked| - 1 ensures unacked[1..][k] == Message(from + 2 + k, log[from + 1 + k]) {
      assert unacked[k + 1] == Message(from + 1 + (k + 1), log[from + (k + 1)]);
    }
  }

  lemma {:induction false} NewerAll(unacked: seq<Message>, ack: nat)
    requires forall k :: 0 <= k < |unacked| ==> unacked[k].seqNo > ack
    ensures Newer(unacked, ack) == unacked
  {
    if unacked != [] { NewerAll(unacked[1..], ack); }
  }

  lemma {:induction false} NextIsNext(unacked: seq<Message>, from: nat, log: seq<Bytes>, sentSeq: nat)
    requires from + |unacked| == |log| && Numbered(unacked, from, log) && NextUnsent(unacked, sentSeq).Some?
    ensures var m := NextUnsent(unacked, sentSeq).value;
            m.seqNo == Max(from, sentSeq) + 1 && Genuine(m, log)
    decreases |unacked|
  {
    assert unacked[0] == Message(from + 1, log[from]);
    if unacked[0].seqNo <= sentSeq {
      NextIsNext(unacked[1..], from + 1, log, sentSeq);
    }
  }

  // ---------- changing one part at a time ----------

  // The chain an owner that lives is promised, for one connection.
  predicate Flow(w: World, c: Conn) {
    w.owner.alive && c.alive ==> Chain(Top(w.owner.lastSeq, CmdInputs(w.cmds)), Stream(c))
  }

  predicate Holds(w: World, c: Conn) {
    w.owner.alive && c.alive ==> w.net.sentSeq <= Top(Top(w.owner.lastSeq, CmdInputs(w.cmds)), Stream(c))
  }

  lemma ReplaceConn(w: World, i: nat, c: Conn)
    requires Inv(w) && i < |w.conns|
    requires ConnKept(c, w.log, w.owner.lastSeq, Version(w.net)) && Flow(w, c)
    requires i == |w.conns| - 1 ==> Holds(w, c) && Covered(c, w.net.unacked)
    ensures Inv(w.(conns := w.conns[i := c]))
  {
    hide O.Valid, CmdInputs, Chain, Top, Stream, ConnKept, Covered, LogKept, AllGenuine, LevelsKept;
  }

  lemma KeptAt(w: World, i: nat)
    requires Inv(w) && i < |w.conns|
    ensures ConnKept(w.conns[i], w.log, w.owner.lastSeq, Version(w.net)) && Flow(w, w.conns[i])
    ensures i == |w.conns| - 1 ==> Holds(w, w.conns[i]) && Covered(w.conns[i], w.net.unacked)
  {
    hide O.Valid, CmdInputs, Chain, Top, Stream, ConnKept, Covered, LogKept, AllGenuine, LevelsKept;
  }

  lemma CmdKeeps(w: World, c: T.Cmd)
    requires Inv(w) && !c.Input? && (c.Ack? ==> c.version <= Version(w.net))
    ensures Inv(w.(cmds := w.cmds + [c]))
  {
    CmdPush(w.cmds, c);
    assert CmdInputs(w.cmds) + [] == CmdInputs(w.cmds);
    hide O.Valid, CmdInputs, Stream, Chain, Top, ConnKept, Covered, LogKept, AllGenuine;
  }

  lemma AckedLevelKeeps(w: World, v: nat)
    requires Inv(w) && v <= Version(w.net)
    ensures Inv(w.(lastAcked := Max(w.lastAcked, v)))
  {
    hide O.Valid, CmdInputs, Stream, Chain, Top, ConnKept, Covered, LogKept, AllGenuine, Flows, SentKept, AckCovered, ConnsKept;
  }

  // ---------- client steps ----------

  lemma Grown(ms: seq<Message>, log: seq<Bytes>, data: Bytes)
    requires AllGenuine(ms, log)
    ensures AllGenuine(ms, log + [data])
  {
    forall k | 0 <= k < |ms| ensures Genuine(ms[k], log + [data]) {
      assert Genuine(ms[k], log);
    }
  }

  lemma ConnsGrown(w: World, data: Bytes)
    requires ConnsKept(w.conns, w.log, w.owner.lastSeq, Version(w.net))
    ensures ConnsKept(w.conns, w.log + [data], w.owner.lastSeq, Version(w.net))
  {
    forall i | 0 <= i < |w.conns| ensures ConnKept(w.conns[i], w.log + [data], w.owner.lastSeq, Version(w.net)) {
      assert ConnKept(w.conns[i], w.log, w.owner.lastSeq, Version(w.net));
      Grown(Stream(w.conns[i]), w.log, data);
    }
  }

  lemma Accepted(w: World)
    requires Inv(w)
    ensures |w.owner.accepted| == w.owner.lastSeq <= |w.log|
  {
  }

  lemma TypeKeeps(w: World, data: Bytes)
    requires Inv(w) && T.LegalInput(data)
    ensures Inv(Do(w, Type(data)))
  {
    Accepted(w);
    Grown(CmdInputs(w.cmds), w.log, data);
    ConnsGrown(w, data);
    if w.conns != [] {
      var c := Current(w.conns);
      assert ConnKept(c, w.log, w.owner.lastSeq, Version(w.net));
      assert Covered(c, w.net.unacked) && c.ackSeen <= w.owner.lastSeq;
    }
    hide O.Valid, CmdInputs, Stream, Chain, Top, ConnKept, AllGenuine, Flows, ConnsKept;
  }

  lemma SentKeeps(w: World, q: nat)
    requires Inv(w) && w.conns != [] && w.net.sentSeq <= q <= |w.log|
    requires Current(w.conns).alive && w.owner.alive ==> q <= Top(Top(w.owner.lastSeq, CmdInputs(w.cmds)), Stream(Current(w.conns)))
    ensures Inv(w.(net := w.net.(sentSeq := q)))
  {
    hide O.Valid, CmdInputs, Stream, Chain, Top, ConnKept, Covered, AllGenuine, Flows, ConnsKept;
  }

  lemma NextFits(w: World)
    requires Inv(w) && Enabled(w, SendInput)
    ensures var m := NextUnsent(w.net.unacked, w.net.sentSeq).value;
            && Genuine(m, w.log) && w.net.sentSeq <= m.seqNo <= |w.log|
            && m.seqNo <= Max(w.owner.lastSeq, w.net.sentSeq) + 1
  {
    hide O.Valid, NextUnsent, Numbered, ConnsKept, AllGenuine, Flows, SentKept, AckCovered, ScreenKept, LevelsKept;
    NextIsNext(w.net.unacked, |w.log| - |w.net.unacked|, w.log, w.net.sentSeq);
  }

  lemma PushKept(c: Conn, m: Message, log: seq<Bytes>, last: nat, version: nat)
    requires ConnKept(c, log, last, version) && Genuine(m, log)
    ensures var d := c.(up := c.up + [Input(m)]);
            ConnKept(d, log, last, version) && Stream(d) == Stream(c) + [m]
  {
    UpPush(c, Input(m));
    hide Stream, UpInputs;
  }

  // A message within reach goes to the end of a connection's stream.
  lemma PushFlows(w: World, c: Conn, d: Conn, m: Message)
    requires Flow(w, c) && Holds(w, c) && Stream(d) == Stream(c) + [m] && d.alive == c.alive
    requires m.seqNo <= Max(w.owner.lastSeq, w.net.sentSeq) + 1 && w.net.sentSeq <= m.seqNo
    ensures Flow(w, d) && Holds(w, d)
    ensures w.owner.alive && d.alive ==> m.seqNo <= Top(Top(w.owner.lastSeq, CmdInputs(w.cmds)), Stream(d))
  {
    if w.owner.alive && c.alive {
      Extend(Top(w.owner.lastSeq, CmdInputs(w.cmds)), Stream(c), m);
    }
    hide Stream, CmdInputs, Chain;
  }

  // The connection with the next message sent on it: it is within reach, and remembered.
  lemma SendInputConn(w: World)
    requires Inv(w) && Enabled(w, SendInput)
    ensures var m, c := NextUnsent(w.net.unacked, w.net.sentSeq).value, Current(w.conns);
            var d := c.(up := c.up + [Input(m)]);
            && ConnKept(d, w.log, w.owner.lastSeq, Version(w.net)) && Flow(w, d) && Holds(w, d)
            && Covered(d, w.net.unacked) && w.net.sentSeq <= m.seqNo <= |w.log|
            && (w.owner.alive && d.alive ==> m.seqNo <= Top(Top(w.owner.lastSeq, CmdInputs(w.cmds)), Stream(d)))
  {
    var m, c := NextUnsent(w.net.unacked, w.net.sentSeq).value, Current(w.conns);
    var d := c.(up := c.up + [Input(m)]);
    NextFits(w);
    KeptAt(w, |w.conns| - 1);
    PushKept(c, m, w.log, w.owner.lastSeq, Version(w.net));
    hide Inv, Stream, CmdInputs, NextUnsent, ConnKept, Flow, Holds, Top;
    PushFlows(w, c, d, m);
  }

  lemma SendInputKeeps(w: World)
    requires Inv(w) && Enabled(w, SendInput)
    ensures Inv(Do(w, SendInput))
  {
    hide Inv, Stream, CmdInputs, NextUnsent, ConnKept, Chain, Top, Flow, Holds, Covered;
    SendInputConn(w);
    var m, c := NextUnsent(w.net.unacked, w.net.sentSeq).value, Current(w.conns);
    var d := c.(up := c.up + [Input(m)]);
    ReplaceConn(w, |w.conns| - 1, d);
    SentKeeps(w.(conns := w.conns[|w.conns| - 1 := d]), m.seqNo);
  }

  lemma SendSmallKeeps(w: World, u: Up)
    requires Inv(w) && w.conns != [] && !u.Input? && (u.AckState? ==> u.version <= Version(w.net))
    ensures Inv(SendUp(w, u))
  {
    var c := Current(w.conns);
    UpPush(c, u);
    assert Stream(c) + [] == Stream(c);
    KeptAt(w, |w.conns| - 1);
    assert ConnKept(c.(up := c.up + [u]), w.log, w.owner.lastSeq, Version(w.net)) by { hide Stream, UpInputs; }
    ReplaceConn(w, |w.conns| - 1, c.(up := c.up + [u]));
  }

  lemma OpenKeeps(w: World)
    requires Inv(w)
    ensures Inv(Do(w, Open))
  {
    assert ConnKept(OPENED, w.log, w.owner.lastSeq, Version(w.net));
    assert Stream(OPENED) == [];
    assert Covered(OPENED, w.net.unacked);
    OneMoreFlows(w.conns, w.cmds, w.owner.lastSeq);
    OneMoreKept(w.conns, w.log, w.owner.lastSeq, Version(w.net));
    hide O.Valid, CmdInputs, Stream, ConnKept, ConnsKept, Flows, Covered, AllGenuine, Top, Chain, Numbered, ScreenKept, LevelsKept;
  }

  lemma OneMoreFlows(conns: seq<Conn>, cmds: seq<T.Cmd>, last: nat)
    ensures Flows(conns, cmds, last) ==> Flows(conns + [OPENED], cmds, last)
  {
    assert Stream(OPENED) == [];
    hide CmdInputs, Stream, Top;
  }

  lemma OneMoreKept(conns: seq<Conn>, log: seq<Bytes>, last: nat, version: nat)
    requires ConnsKept(conns, log, last, version) && ConnKept(OPENED, log, last, version)
    ensures ConnsKept(conns + [OPENED], log, last, version)
  {
    hide ConnKept;
  }

  lemma VersionsRise(w: World, version: nat)
    requires ConnsKept(w.conns, w.log, w.owner.lastSeq, Version(w.net)) && Version(w.net) <= version
    ensures ConnsKept(w.conns, w.log, w.owner.lastSeq, version)
  {
    forall i | 0 <= i < |w.conns| ensures ConnKept(w.conns[i], w.log, w.owner.lastSeq, version) {
      assert ConnKept(w.conns[i], w.log, w.owner.lastSeq, Version(w.net));
    }
  }

  lemma ShowKeeps(w: World, v: nat)
    requires Inv(w) && Enabled(w, Show(v))
    ensures Inv(Do(w, Show(v))) && Version(Do(w, Show(v)).net) == Max(Version(w.net), v)
  {
    hide O.Valid, CmdInputs, Stream, ConnsKept, Covered, AllGenuine, Top, Chain;
    VersionsRise(w, Max(Version(w.net), v));
  }

  lemma CoveredFewer(c: Conn, unacked: seq<Message>, ack: nat)
    requires Covered(c, unacked)
    ensures Covered(c, Newer(unacked, ack))
  {
  }

  lemma AckedLog(net: Net, log: seq<Bytes>, last: nat, ack: nat)
    requires LogKept(net, log, last) && ack <= last
    ensures LogKept(Acked(net, ack), log, last)
    ensures forall k :: 0 <= k < |Acked(net, ack).unacked| ==> Acked(net, ack).unacked[k].seqNo > ack
  {
    hide Newer, Numbered;
    NewerSuffix(net.unacked, |log| - |net.unacked|, log, ack);
  }

  lemma AckedKeeps(w: World, ack: nat)
    requires Inv(w) && ack <= w.owner.lastSeq
    ensures Inv(w.(net := Acked(w.net, ack)))
    ensures forall k :: 0 <= k < |Acked(w.net, ack).unacked| ==> Acked(w.net, ack).unacked[k].seqNo > ack
  {
    AckedLog(w.net, w.log, w.owner.lastSeq, ack);
    if w.conns != [] { CoveredFewer(Current(w.conns), w.net.unacked, ack); }
    hide O.Valid, CmdInputs, Stream, ConnsKept, AllGenuine, Newer, LogKept, Flows, SentKept, Covered;
  }

  lemma ReadAckKeeps(w: World)
    requires Inv(w) && Enabled(w, ReadAck)
    ensures Inv(Do(w, ReadAck))
  {
    var i, c := |w.conns| - 1, Current(w.conns);
    var d := c.(acks := c.acks[1..]);
    KeptAt(w, i);
    AckedKeeps(w, c.acks[0]);
    var v := w.(net := Acked(w.net, c.acks[0]));
    KeptAt(v, i);
    assert ConnKept(d, w.log, w.owner.lastSeq, Version(w.net)) && Stream(d) == Stream(c);
    assert Covered(d, v.net.unacked);
    hide Inv, Covered, ConnKept, Top, Chain, CmdInputs, Stream, Acked;
    ReplaceConn(v, i, d);
  }

  // ---------- handler steps ----------

  // A connection whose stream stays as it is.
  lemma SameStreamKeeps(w: World, i: nat, c: Conn)
    requires Inv(w) && i < |w.conns|
    requires c.alive ==> w.conns[i].alive
    requires Stream(c) == Stream(w.conns[i]) && UpVersions(c.up, Version(w.net)) && ConnAcks(c, w.owner.lastSeq)
    requires i == |w.conns| - 1 ==> Covered(c, w.net.unacked)
    ensures Inv(w.(conns := w.conns[i := c]))
  {
    KeptAt(w, i);
    assert ConnKept(c, w.log, w.owner.lastSeq, Version(w.net));
    hide Inv, Top, Chain, CmdInputs, Stream;
    ReplaceConn(w, i, c);
  }

  // A connection whose handler took the first frame: an input now waits with the handler.
  function TookFirst(c: Conn): Conn
    requires c.up != []
  {
    c.(up := c.up[1..], busy := if c.up[0].Input? then c.busy + [c.up[0].message] else c.busy)
  }

  lemma TookFirstSame(c: Conn)
    requires c.up != []
    ensures Stream(TookFirst(c)) == Stream(c)
  {
    if c.up[0].Input? {
      Assoc(c.busy, [c.up[0].message], UpInputs(c.up[1..]));
    } else {
      assert [] + UpInputs(c.up[1..]) == UpInputs(c.up[1..]);
    }
  }

  lemma ReadConn(w: World, i: nat)
    requires Inv(w) && Enabled(w, Read(i))
    ensures var c, d := w.conns[i], ReadOne(w, i).conns[i];
            && d == TookFirst(c) && Stream(d) == Stream(c)
            && UpVersions(d.up, Version(w.net)) && ConnAcks(d, w.owner.lastSeq)
            && (c.up[0].AckState? ==> c.up[0].version <= Version(w.net))
            && (i == |w.conns| - 1 ==> Covered(d, w.net.unacked))
  {
    KeptAt(w, i);
    TookFirstSame(w.conns[i]);
    hide Inv, Stream, O.Valid, T.BusyBytes, Flow, Holds, AllGenuine;
  }

  lemma ReadKeeps(w: World, i: nat)
    requires Inv(w) && Enabled(w, Read(i))
    ensures Inv(Do(w, Read(i)))
  {
    var c := w.conns[i];
    var d := ReadOne(w, i).conns[i];
    ReadConn(w, i);
    hide Inv, Stream, UpVersions, ConnAcks, Covered, ConnKept, Flow, Holds, O.Valid, T.BusyBytes;
    SameStreamKeeps(w, i, d);
    if c.up[0].AckState? {
      var v := w.(conns := w.conns[i := d]);
      AckedLevelKeeps(v, c.up[0].version);
      CmdKeeps(v.(lastAcked := Max(w.lastAcked, c.up[0].version)), T.Ack(c.up[0].version));
    }
  }

  lemma HandOverFlows(conns: seq<Conn>, i: nat, rest: Conn, cmds: seq<T.Cmd>, last: nat)
    requires i < |conns| && conns[i].alive && Flows(conns, cmds, last)
    requires Stream(conns[i]) != [] && Stream(rest) == Stream(conns[i])[1..]
    ensures var m := Stream(conns[i])[0];
            Flows(conns[i := rest], cmds + [T.Input(m)], last)
    ensures var m := Stream(conns[i])[0];
            && Top(Top(last, CmdInputs(cmds + [T.Input(m)])), Stream(rest)) == Top(Top(last, CmdInputs(cmds)), Stream(conns[i]))
            && Top(last, CmdInputs(cmds)) <= Top(last, CmdInputs(cmds + [T.Input(m)]))
  {
    var queue, m := CmdInputs(cmds), Stream(conns[i])[0];
    CmdPush(cmds, T.Input(m));
    Move(last, queue, Stream(conns[i]));
    hide CmdInputs, Stream, Chain, Top;
    forall j | 0 <= j < |conns| && j != i && conns[j].alive
      ensures Chain(Top(last, queue + [m]), Stream(conns[j]))
    {
      Raise(Top(last, queue), Top(last, queue + [m]), Stream(conns[j]));
    }
  }

  lemma HandOverSent(w: World, i: nat, rest: Conn, cmds: seq<T.Cmd>)
    requires w.owner.alive && i < |w.conns| && SentKept(w.net.sentSeq, w.conns, w.cmds, w.owner.lastSeq)
    requires rest.alive == w.conns[i].alive
    requires var t, t' := Top(w.owner.lastSeq, CmdInputs(w.cmds)), Top(w.owner.lastSeq, CmdInputs(cmds));
             t <= t' && Top(t', Stream(rest)) == Top(t, Stream(w.conns[i]))
    ensures SentKept(w.net.sentSeq, w.conns[i := rest], cmds, w.owner.lastSeq)
  {
    Raise(Top(w.owner.lastSeq, CmdInputs(w.cmds)), Top(w.owner.lastSeq, CmdInputs(cmds)), Stream(Current(w.conns)));
  }

  lemma HandOverLists(w: World, c: Conn)
    requires c.busy != [] && ConnKept(c, w.log, w.owner.lastSeq, Version(w.net)) && AllGenuine(CmdInputs(w.cmds), w.log)
    ensures var rest := c.(busy := c.busy[1..]);
            && Stream(c) != [] && Stream(c)[0] == c.busy[0] && Stream(rest) == Stream(c)[1..]
            && ConnKept(rest, w.log, w.owner.lastSeq, Version(w.net))
            && Covered(rest, w.net.unacked) == Covered(c, w.net.unacked)
            && AllGenuine(CmdInputs(w.cmds + [T.Input(c.busy[0])]), w.log)
  {
    assert Stream(c.(busy := c.busy[1..])) == Stream(c)[1..];
    assert Genuine(Stream(c)[0], w.log);
    CmdPush(w.cmds, T.Input(c.busy[0]));
  }

  lemma HandOverKeeps(w: World, i: nat)
    requires Inv(w) && Enabled(w, HandOver(i))
    ensures Inv(Do(w, HandOver(i)))
  {
    hide O.Valid, CmdInputs, Stream, Chain, Top, Flows, SentKept, Covered, ConnKept, LogKept, AllGenuine;
    var c := w.conns[i];
    var rest := c.(busy := c.busy[1..]);
    var cmds := w.cmds + [T.Input(c.busy[0])];
    KeptAt(w, i);
    HandOverLists(w, c);
    HandOverFlows(w.conns, i, rest, w.cmds, w.owner.lastSeq);
    HandOverSent(w, i, rest, cmds);
  }

  lemma SeeAcceptedKeeps(w: World, i: nat)
    requires Inv(w) && Enabled(w, SeeAccepted(i))
    ensures Inv(Do(w, SeeAccepted(i)))
  {
    KeptAt(w, i);
    SameStreamKeeps(w, i, w.conns[i].(ackSeen := w.owner.lastSeq, pendingAck := Some(w.owner.lastSeq)));
  }

  lemma ClaimKeeps(w: World, i: nat)
    requires Inv(w) && Enabled(w, Claim(i))
    ensures Inv(Do(w, Claim(i)))
  {
    KeptAt(w, i);
    SameStreamKeeps(w, i, Do(w, Claim(i)).conns[i]);
    hide O.Valid, CmdInputs, Stream, Chain, Top, ConnKept, Covered, LogKept, AllGenuine, LevelsKept;
  }

  lemma PushAckKeeps(w: World, i: nat)
    requires Inv(w) && Enabled(w, PushAck(i))
    ensures Inv(Do(w, PushAck(i)))
  {
    var c := w.conns[i];
    KeptAt(w, i);
    var d := Do(w, PushAck(i)).conns[i];
    assert d.acks[|c.acks|] == c.pendingAck.value;
    SameStreamKeeps(w, i, d);
  }

  lemma RefuseKeeps(w: World, i: nat)
    requires Inv(w) && Enabled(w, Refuse(i))
    ensures Inv(Do(w, Refuse(i)))
  {
    var c := w.conns[i];
    var rest := c.(busy := c.busy[1..]);
    KeptAt(w, i);
    assert Stream(c)[1..] == Stream(rest);
    ReplaceConn(w, i, rest);
  }

  lemma DieKeeps(w: World, i: nat)
    requires Inv(w) && i < |w.conns|
    ensures Inv(Do(w, Die(i)))
  {
    KeptAt(w, i);
    SameStreamKeeps(w, i, w.conns[i].(alive := false));
  }

  // ---------- owner steps ----------

  lemma OwnerKeeps(w: World, o: O.Owner)
    requires Inv(w) && O.Valid(o) && (o.alive ==> w.owner.alive)
    requires o.lastSeq == w.owner.lastSeq && o.accepted == w.owner.accepted && w.owner.published <= o.published
    ensures Inv(w.(owner := o))
  {
    hide O.Valid, CmdInputs, Stream, Chain, Top, Flows, SentKept, AckCovered, ConnsKept, LogKept, AllGenuine, LevelsKept;
  }

  lemma OtherOwnerStep(o: O.Owner, e: O.Event)
    requires O.Valid(o) && !e.Input?
    ensures var p := O.Step(o, e);
            p.lastSeq == o.lastSeq && p.accepted == o.accepted && (p.alive ==> o.alive)
  {
  }

  // Taking a command off the queue, when it is not an input.
  lemma SkipKeeps(w: World)
    requires Inv(w) && w.cmds != [] && !w.cmds[0].Input?
    ensures Inv(w.(cmds := w.cmds[1..]))
  {
    assert CmdInputs(w.cmds) == CmdInputs(w.cmds[1..]);
    hide O.Valid, CmdInputs, Stream, Chain, Top, AckCovered, ConnsKept, LogKept, AllGenuine;
  }

  lemma LastRises(conns: seq<Conn>, log: seq<Bytes>, last: nat, last': nat, version: nat)
    requires ConnsKept(conns, log, last, version) && last <= last'
    ensures ConnsKept(conns, log, last', version)
  {
    forall i | 0 <= i < |conns| ensures ConnKept(conns[i], log, last', version) {
      assert ConnKept(conns[i], log, last, version);
    }
  }

  // No gap: an input the owner takes off its queue is the next one or one it has already.
  lemma NoGap(w: World)
    requires Inv(w) && w.owner.alive && w.cmds != [] && w.cmds[0].Input?
    ensures var m := w.cmds[0].message;
            && 1 <= m.seqNo <= w.owner.lastSeq + 1
            && T.LegalInput(m.data)
            && (if m.seqNo == w.owner.lastSeq + 1 then w.owner.accepted + [m.data] <= w.log
                else w.owner.accepted[m.seqNo - 1] == m.data)
  {
    var m := w.cmds[0].message;
    Accepted(w);
    assert CmdInputs(w.cmds)[0] == m;
    assert Genuine(m, w.log);
    assert T.LegalInput(w.log[m.seqNo - 1]);
    Take(w.owner.lastSeq, CmdInputs(w.cmds));
    hide CmdInputs, Stream, Chain, Top, ConnsKept, AckCovered, Flows, SentKept, LevelsKept, ScreenKept;
    hide O.Valid, T.LegalInput;
  }

  lemma TakeFlows(conns: seq<Conn>, cmds: seq<T.Cmd>, last: nat, sentSeq: nat)
    requires cmds != [] && cmds[0].Input? && Flows(conns, cmds, last) && SentKept(sentSeq, conns, cmds, last)
    ensures var m := cmds[0].message;
            var last' := if m.seqNo == last + 1 then m.seqNo else last;
            Flows(conns, cmds[1..], last') && SentKept(sentSeq, conns, cmds[1..], last')
  {
    assert CmdInputs(cmds) == [cmds[0].message] + CmdInputs(cmds[1..]);
    Take(last, CmdInputs(cmds));
    assert CmdInputs(cmds)[1..] == CmdInputs(cmds[1..]);
    hide CmdInputs, Stream, Chain, Top;
  }

  lemma TakenKeeps(w: World, o: O.Owner, m: Message)
    requires Inv(w) && w.owner.alive && w.cmds != [] && w.cmds[0] == T.Input(m)
    requires O.Valid(o) && o.published == w.owner.published
    requires o.lastSeq == if m.seqNo == w.owner.lastSeq + 1 then m.seqNo else w.owner.lastSeq
    requires o.accepted == if m.seqNo == w.owner.lastSeq + 1 then w.owner.accepted + [m.data] else w.owner.accepted
    ensures Inv(w.(owner := o, cmds := w.cmds[1..]))
  {
    NoGap(w);
    TakeFlows(w.conns, w.cmds, w.owner.lastSeq, w.net.sentSeq);
    LastRises(w.conns, w.log, w.owner.lastSeq, o.lastSeq, Version(w.net));
    GenuineTail(m, CmdInputs(w.cmds[1..]), w.log);
    TailLevels(w.cmds, w.net.pendingAck, w.lastAcked, Version(w.net));
    HigherLog(w.net, w.log, w.owner.lastSeq, o.lastSeq);
    hide O.Valid, CmdInputs, Flows, SentKept, AckCovered, ConnsKept, AllGenuine, LogKept, LevelsKept, ScreenKept, Genuine, T.LegalInput;
  }

  lemma TailLevels(cmds: seq<T.Cmd>, pending: Option<nat>, lastAcked: nat, version: nat)
    requires cmds != [] && LevelsKept(cmds, pending, lastAcked, version)
    ensures LevelsKept(cmds[1..], pending, lastAcked, version)
  {
  }

  lemma HigherLog(net: Net, log: seq<Bytes>, last: nat, last': nat)
    requires LogKept(net, log, last) && last <= last'
    ensures LogKept(net, log, last')
  {
  }

  lemma GenuineTail(m: Message, ms: seq<Message>, log: seq<Bytes>)
    requires AllGenuine([m] + ms, log)
    ensures AllGenuine(ms, log)
  {
    forall k | 0 <= k < |ms| ensures Genuine(ms[k], log) {
      assert Genuine(([m] + ms)[k + 1], log);
    }
  }

  lemma TakeInputScreens(o: O.Owner, m: Message)
    ensures O.TakeInput(o, m.seqNo, m.data).published == o.published
  {
  }

  lemma DequeueKeeps(w: World, frame: Frame)
    requires Inv(w) && Enabled(w, Dequeue(frame))
    ensures Inv(Do(w, Dequeue(frame)))
  {
    match w.cmds[0]
    case Input(m) =>
      NoGap(w);
      O.TakeInputKeeps(w.owner, m.seqNo, m.data);
      TakeInputScreens(w.owner, m);
      assert O.Enabled(w.owner, O.Input(m.seqNo, m.data));
      hide Inv, O.Valid, O.TakeInput;
      TakenKeeps(w, O.TakeInput(w.owner, m.seqNo, m.data), m);
    case Resize(_, _) =>
      SkipKeeps(w);
      OtherOwnerStep(w.owner, O.Resized(frame));
      hide O.Valid, O.Enabled, O.Next, O.Step;
      OwnerKeeps(w.(cmds := w.cmds[1..]), O.Step(w.owner, O.Resized(frame)));
    case Ack(v) =>
      assert v <= Version(w.net);
      SkipKeeps(w);
      AckedLevelKeeps(w.(cmds := w.cmds[1..]), v);
  }

  // ---------- every step, every run ----------

  lemma ClientKeeps(w: World, e: Event)
    requires Inv(w) && Enabled(w, e)
    requires e.Type? || e.Open? || e.Close? || e.SendInput? || e.SendAck? || e.SendOther? || e.Hangup? || e.Show? || e.ReadAck?
    ensures Inv(Do(w, e))
  {
    match e
    case Type(data) => TypeKeeps(w, data);
    case Open => OpenKeeps(w);
    case SendInput => SendInputKeeps(w);
    case SendAck =>
      assert w.net.pendingAck.value <= Version(w.net);
      SendSmallKeeps(w, AckState(w.net.pendingAck.value));
      NetKeeps(SendUp(w, AckState(w.net.pendingAck.value)), AckSent(w.net));
    case SendOther => SendSmallKeeps(w, Other);
    case Close => NetKeeps(w, End(w.net));
    case Hangup => NetKeeps(w, w.net.(hungup := true));
    case Show(v) => ShowKeeps(w, v);
    case ReadAck => ReadAckKeeps(w);
  }

  lemma NetKeeps(w: World, net: Net)
    requires Inv(w)
    requires net == AckSent(w.net) || net == End(w.net) || net == w.net.(hungup := true)
    ensures Inv(w.(net := net))
  {
    hide O.Valid, CmdInputs, Flows, SentKept, AckCovered, ConnsKept, AllGenuine, Numbered;
  }

  lemma ServerKeeps(w: World, e: Event)
    requires Inv(w) && Enabled(w, e)
    requires !(e.Type? || e.Open? || e.Close? || e.SendInput? || e.SendAck? || e.SendOther? || e.Hangup? || e.Show? || e.ReadAck?)
    ensures Inv(Do(w, e))
  {
    match e
    case Claim(i) => ClaimKeeps(w, i);
    case Read(i) => ReadKeeps(w, i);
    case HandOver(i) => HandOverKeeps(w, i);
    case Refuse(i) => RefuseKeeps(w, i);
    case HandResize(_, cols, rows) => CmdKeeps(w, T.Resize(cols, rows));
    case SeeAccepted(i) => SeeAcceptedKeeps(w, i);
    case PushAck(i) => PushAckKeeps(w, i);
    case Die(i) => DieKeeps(w, i);
    case OwnerDoes(does) =>
      OtherOwnerStep(w.owner, does);
      OwnerKeeps(w, O.Step(w.owner, does));
    case Dequeue(frame) => DequeueKeeps(w, frame);
  }

  lemma DoKeeps(w: World, e: Event)
    requires Inv(w) && Enabled(w, e)
    ensures Inv(Do(w, e))
    ensures w.log <= Do(w, e).log && w.owner.accepted <= Do(w, e).owner.accepted
    ensures w.owner.echoAck <= Do(w, e).owner.echoAck && w.lastAcked <= Do(w, e).lastAcked && Version(w.net) <= Version(Do(w, e).net)
  {
    Grows(w, e);
    hide Inv, Do;
    if e.Type? || e.Open? || e.Close? || e.SendInput? || e.SendAck? || e.SendOther? || e.Hangup? || e.Show? || e.ReadAck? {
      ClientKeeps(w, e);
    } else {
      ServerKeeps(w, e);
    }
  }

  lemma Grows(w: World, e: Event)
    requires O.Valid(w.owner) && Enabled(w, e)
    ensures w.log <= Do(w, e).log && w.owner.accepted <= Do(w, e).owner.accepted
    ensures w.owner.echoAck <= Do(w, e).owner.echoAck && w.lastAcked <= Do(w, e).lastAcked && Version(w.net) <= Version(Do(w, e).net)
  {
    hide O.Valid, O.Enabled, O.Next;
  }

  // An event that is not enabled does not happen.
  function Run(w: World, events: seq<Event>): (r: World)
    requires Inv(w)
    ensures Inv(r)
    decreases |events|
  {
    if events == [] then w
    else if Enabled(w, events[0]) then
      DoKeeps(w, events[0]);
      Run(Do(w, events[0]), events[1..])
    else Run(w, events[1..])
  }

  // Exactly once, in order: in every run the messages the owner has accepted are the first
  // ones the client queued, numbered 1, 2, 3, ...; every message is accepted or still kept
  // by the client; and neither list ever loses an element.
  lemma {:induction false} ExactlyOnce(w: World, events: seq<Event>)
    requires Inv(w)
    ensures var r := Run(w, events);
            && r.owner.accepted == r.log[..r.owner.lastSeq]
            && (forall k :: r.owner.lastSeq <= k < |r.log| ==> Message(k + 1, r.log[k]) in r.net.unacked)
            && w.log <= r.log && w.owner.accepted <= r.owner.accepted
            && w.owner.echoAck <= r.owner.echoAck && w.lastAcked <= r.lastAcked && Version(w.net) <= Version(r.net)
    decreases |events|
  {
    hide O.Valid, Enabled, Do;
    if events == [] {
      AcceptedOrKept(w);
    } else if Enabled(w, events[0]) {
      DoKeeps(w, events[0]);
      ExactlyOnce(Do(w, events[0]), events[1..]);
    } else {
      ExactlyOnce(w, events[1..]);
    }
  }

  lemma AcceptedOrKept(w: World)
    requires Inv(w)
    ensures w.owner.accepted == w.log[..w.owner.lastSeq]
    ensures forall k :: w.owner.lastSeq <= k < |w.log| ==> Message(k + 1, w.log[k]) in w.net.unacked
  {
    Accepted(w);
    var from := |w.log| - |w.net.unacked|;
    forall k | w.owner.lastSeq <= k < |w.log| ensures Message(k + 1, w.log[k]) in w.net.unacked {
      assert w.net.unacked[k - from] == Message(from + 1 + (k - from), w.log[from + (k - from)]);
    }
  }

  // The present connection is up and nothing is left to send, to hand over, to obey or to
  // acknowledge.
  predicate Quiet(w: World) {
    && w.owner.alive && w.conns != [] && w.cmds == []
    && NextUnsent(w.net.unacked, w.net.sentSeq).None?
    && var c := Current(w.conns);
       && c.alive && c.claim > 0
       && Stream(c) == [] && c.acks == [] && c.pendingAck.None? && c.ackSeen == w.owner.lastSeq
  }

  // Then everything typed has been accepted and the client knows it.
  lemma QuietMeansDone(w: World)
    requires Inv(w) && Quiet(w)
    ensures w.net.unacked == [] && w.owner.lastSeq == w.net.seqNo && w.owner.accepted == w.log
  {
    AcceptedOrKept(w);
    Accepted(w);
    var c := Current(w.conns);
    assert Covered(c, w.net.unacked);
    assert w.net.sentSeq <= Top(Top(w.owner.lastSeq, CmdInputs(w.cmds)), Stream(c)) == w.owner.lastSeq;
  }

  // And once the owner has written its queue, the terminal has got exactly what was typed.
  lemma TerminalHasAll(w: World)
    requires Inv(w) && Quiet(w) && w.owner.pending.chunks == []
    ensures O.Inputs(w.owner.past) == w.log && w.owner.written == O.Flat(w.owner.past)
  {
    QuietMeansDone(w);
    O.TerminalGetsInputsInOrder(w.owner);
    assert w.owner.past + w.owner.pending.chunks == w.owner.past;
  }

  // Screens: the server's idea of the client is never ahead, the client is never ahead of
  // the server, and what it shows was published under exactly that version.
  lemma ScreenSandwich(w: World)
    requires Inv(w)
    ensures w.lastAcked <= Version(w.net) <= |w.owner.published|
    ensures w.net.confirmed.Some? ==>
              var s := w.net.confirmed.value;
              s.version >= 1 && w.owner.published[s.version - 1] == O.Published(s.echoAck, s.frame)
  {
  }

  // While the client is behind, the guard on repeating the newest screen is open, and the
  // arrival of that screen brings the client up to date.
  lemma BehindMeansResync(w: World)
    requires Inv(w) && w.net.connected && Version(w.net) < |w.owner.published|
    ensures |w.owner.published| > w.lastAcked
    ensures var v := |w.owner.published|;
            Enabled(w, Show(v)) && Version(Do(w, Show(v)).net) == v && Do(w, Show(v)).net.pendingAck == Some(v)
  {
    ShowKeeps(w, |w.owner.published|);
  }

  // No screen acknowledges a message the client has not queued.
  lemma EchoWithinSent(w: World, v: nat)
    requires Inv(w) && 1 <= v <= |w.owner.published|
    ensures w.owner.published[v - 1].echoAck <= w.owner.lastSeq <= w.net.seqNo
  {
    O.PublishedEcho(w.owner, v - 1);
    Accepted(w);
  }
}
