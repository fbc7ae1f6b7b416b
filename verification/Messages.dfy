/** The control messages of a connection: their types and the layout of their payloads. */
module Messages {
  import opened Wrappers
  import opened Bytes
  import opened ClientNet
  import F = Framing

  const PROTOCOL_VERSION := 2
  const MAX_INPUT_BYTES := 32 * 1024

  const MSG_HELLO: Byte := 1
  const MSG_HELLO_OK: Byte := 2
  const MSG_INPUT: Byte := 3
  const MSG_RESIZE: Byte := 4
  const MSG_HANGUP: Byte := 5
  const MSG_ACK_STATE: Byte := 6
  const MSG_INPUT_ACK: Byte := 7
  const MSG_SCREEN: Byte := 8
  const MSG_EXIT: Byte := 9
  const MSG_ERROR: Byte := 10
  const MSG_PING: Byte := 11
  const MSG_PONG: Byte := 12
  const MSG_SHARED_SCREEN: Byte := 19

  function InputFrame(m: Message): F.Frame { F.Frame(MSG_INPUT, ToLe(m.seqNo, 8) + m.data) }

  function NumberFrame(typ: Byte, n: nat): F.Frame { F.Frame(typ, ToLe(n, 8)) }

  function ResizeFrame(cols: nat, rows: nat): F.Frame { F.Frame(MSG_RESIZE, ToLe(cols, 2) + ToLe(rows, 2)) }

  function DecodeInput(payload: Bytes): Option<Message> {
    if |payload| < 8 then None else Some(Message(FromLe(payload[..8]), payload[8..]))
  }

  function DecodeNumber(payload: Bytes): Option<nat> {
    if |payload| != 8 then None else Some(FromLe(payload))
  }

  function DecodeResize(payload: Bytes): Option<(nat, nat)> {
    if |payload| != 4 then None else Some((FromLe(payload[..2]), FromLe(payload[2..])))
  }

  // Four bytes read as a signed number.
  function AsSigned(n: nat): int { if n < 0x8000_0000 then n else n - 0x1_0000_0000 }

  // A sequence number or a version is read back as it was sent, as long as it fits 64 bits.
  lemma InputRoundTrip(m: Message)
    requires m.seqNo < 0x1_0000_0000_0000_0000
    ensures DecodeInput(InputFrame(m).payload) == Some(m)
  {
    FitsEight(m.seqNo);
    LeRoundTrip(m.seqNo, 8);
    assert InputFrame(m).payload[..8] == ToLe(m.seqNo, 8);
    assert InputFrame(m).payload[8..] == m.data;
  }

  lemma NumberRoundTrip(typ: Byte, n: nat)
    requires n < 0x1_0000_0000_0000_0000
    ensures DecodeNumber(NumberFrame(typ, n).payload) == Some(n)
  {
    FitsEight(n);
    LeRoundTrip(n, 8);
  }

  lemma ResizeRoundTrip(cols: nat, rows: nat)
    requires cols < 0x1_0000 && rows < 0x1_0000
    ensures DecodeResize(ResizeFrame(cols, rows).payload) == Some((cols, rows))
  {
    var p := ResizeFrame(cols, rows).payload;
    FitsTwo(cols);
    FitsTwo(rows);
    LeRoundTrip(cols, 2);
    LeRoundTrip(rows, 2);
    assert p[..2] == ToLe(cols, 2) && p[2..] == ToLe(rows, 2);
  }

  // Every input a client queues makes a frame the server will read.
  lemma InputIsLegal(m: Message)
    requires |m.data| <= MAX_INPUT_BYTES
    ensures F.Legal(InputFrame(m))
  {
  }
}
