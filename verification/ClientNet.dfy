/**
 What a client remembers of the conversation: the messages typed and not yet acknowledged,
 how far they were sent on the present connection, and the newest screen.
 */
module ClientNet {
  import opened Wrappers
  import opened Bytes
  import opened Frames

  datatype Message = Message(seqNo: nat, data: Bytes)

  datatype Screen = Screen(version: nat, echoAck: nat, frame: Frame)

  datatype Net = Net(
    connected: bool,
    hungup: bool,
    seqNo: nat,
    unacked: seq<Message>,
    sentSeq: nat,
    pendingAck: Option<nat>,
    confirmed: Option<Screen>)

  const FRESH := Net(false, false, 0, [], 0, None, None)

  function Queue(n: Net, data: Bytes): Net {
    n.(seqNo := n.seqNo + 1, unacked := n.unacked + [Message(n.seqNo + 1, data)])
  }

  // The first message not yet sent on this connection.
  function NextUnsent(unacked: seq<Message>, sentSeq: nat): (r: Option<Message>)
    ensures r.Some? ==> r.value in unacked && r.value.seqNo > sentSeq
    ensures r.None? ==> forall k :: 0 <= k < |unacked| ==> unacked[k].seqNo <= sentSeq
  {
    if unacked == [] then None
    else if unacked[0].seqNo > sentSeq then Some(unacked[0])
    else NextUnsent(unacked[1..], sentSeq)
  }

  predicate Sending(n: Net) { n.connected && !n.hungup }

  function Sent(n: Net, m: Message): Net { n.(sentSeq := m.seqNo) }

  function AckSent(n: Net): Net { n.(pendingAck := None) }

  // Keep what is newer than `ack`.
  function Newer(unacked: seq<Message>, ack: nat): (r: seq<Message>)
    ensures forall k :: 0 <= k < |r| ==> r[k].seqNo > ack && r[k] in unacked
  {
    if unacked == [] then []
    else (if unacked[0].seqNo > ack then [unacked[0]] else []) + Newer(unacked[1..], ack)
  }

  function Acked(n: Net, ack: nat): Net { n.(unacked := Newer(n.unacked, ack)) }

  // A new transport: everything unacknowledged will be sent again.
  function Begin(n: Net): Net { n.(connected := true, sentSeq := 0, pendingAck := None) }

  function End(n: Net): Net { n.(connected := false) }

  function Version(n: Net): nat { if n.confirmed.None? then 0 else n.confirmed.value.version }

  // Last state wins; version 0 is never shown.
  function ApplyNewer(confirmed: Option<Screen>, incoming: Screen): Option<Screen> {
    match confirmed
    case None => if incoming.version > 0 then Some(incoming) else None
    case Some(c) => if incoming.version > c.version then Some(incoming) else None
  }

  function Shown(n: Net, incoming: Screen): Net {
    match ApplyNewer(n.confirmed, incoming)
    case None => n
    case Some(s) => n.(pendingAck := Some(s.version), confirmed := Some(s))
  }

  // The newest of a set of screens wins, whatever the order and however often they come:
  // the version shown is the largest version received.
  function ShownAll(n: Net, screens: seq<Screen>): Net
    decreases |screens|
  {
    if screens == [] then n else ShownAll(Shown(n, screens[0]), screens[1..])
  }

  lemma {:induction false} NewestWins(n: Net, screens: seq<Screen>)
    ensures var r := ShownAll(n, screens);
            && Version(r) >= Version(n)
            && (forall k :: 0 <= k < |screens| ==> screens[k].version <= Version(r))
            && (r == n
                || (r.confirmed.Some? && r.confirmed.value in screens && r.pendingAck == Some(Version(r)) && Version(r) > Version(n)))
    decreases |screens|
  {
    if screens != [] {
      NewestWins(Shown(n, screens[0]), screens[1..]);
      assert Shown(n, screens[0]) == n || Shown(n, screens[0]).confirmed.value == screens[0];
    }
  }
}
