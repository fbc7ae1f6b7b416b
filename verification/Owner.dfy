/**
 The session owner as a state machine: it accepts numbered input, writes it to the terminal
 in pieces, measures the echo checkpoint from finished messages and publishes screens. Each
 event is one arm of the owner's loop.
 */
module SessionOwner {
  import opened Wrappers
  import opened Bytes
  import opened Frames
  import opened Pending

  datatype Published = Published(echoAck: nat, frame: Frame)

  datatype Owner = Owner(
    alive: bool,
    lastSeq: nat,
    pending: Writes,
    history: seq<Completion>,
    echoAck: nat,
    clock: nat,
    published: seq<Published>,   // version v is published[v - 1]; only the last one is kept by the program
    accepted: seq<Bytes>,        // history: the messages taken, in order
    past: seq<Chunk>,            // history: the chunks written completely
    written: Bytes,              // history: everything written to the terminal
    times: seq<nat>)             // history: when each finished message was finished

  const STARTED := Owner(true, 0, Writes([], 0), [], 0, 0, [], [], [], [], [])

  datatype Event =
    | Input(seqNo: nat, data: Bytes)
    | Output(reply: Bytes, frame: Frame)   // terminal output, or a synchronised update flushed
    | Resized(frame: Frame)
    | Write(n: nat)
    | Settle(frame: Frame)
    | Wait(ms: nat)
    | Stop(frame: Frame)                   // hang-up, end of the child, or an I/O error

  function Publish(o: Owner, frame: Frame): Owner {
    o.(published := o.published + [Published(o.echoAck, frame)])
  }

  predicate AcceptsMore(o: Owner) { o.pending.unread < MAX_PENDING }

  // What the loop's guards let happen. Commands hold 1 to MAX_INPUT_BYTES bytes, which is
  // all `try_input` lets through; a write reports at most the bytes it was given.
  predicate Enabled(o: Owner, e: Event)
    requires WritesValid(o.pending)
  {
    o.alive && match e
    case Input(_, data) => AcceptsMore(o) && 0 < |data| <= MAX_INPUT_BYTES
    case Write(n) => o.pending.unread > 0 && 0 < n <= |WriteBuf(o.pending)|
    case _ => true
  }

  // Only the number that comes next is taken; failing to queue it ends the session.
  function TakeInput(o: Owner, seqNo: nat, data: Bytes): Owner {
    if seqNo != o.lastSeq + 1 then o
    else match PushInput(o.pending, seqNo, data)
      case None => o.(alive := false)
      case Some(w) => o.(pending := w, lastSeq := seqNo, accepted := o.accepted + [data])
  }

  function WriteSome(o: Owner, n: nat): Owner
    requires WritesValid(o.pending) && n <= |WriteBuf(o.pending)|
  {
    var chunks := o.pending.chunks;
    var done := chunks[..Finished(chunks, n)];
    var w := Writes(Advanced(chunks, n), SaturatingSub(o.pending.unread, n));
    o.(pending := w,
       history := o.history + Completions(Numbers(done), o.clock),
       past := o.past + done,
       written := o.written + WriteBuf(o.pending)[..n],
       times := o.times + seq(|Numbers(done)|, _ => o.clock))
  }

  function SettleEcho(o: Owner): Owner {
    o.(echoAck := NewEchoAck(o.echoAck, o.history, o.clock),
       history := o.history[SettledCount(o.history, o.clock)..])
  }

  function Next(o: Owner, e: Event): Owner
    requires WritesValid(o.pending) && Enabled(o, e)
  {
    match e
    case Input(seqNo, data) => TakeInput(o, seqNo, data)
    case Output(reply, frame) =>
      (match PushGenerated(o.pending, reply)
       case None => Publish(o.(alive := false), frame)
       case Some(w) => Publish(o.(pending := w), frame))
    case Resized(frame) => Publish(o, frame)
    case Write(n) => WriteSome(o, n)
    // The frame goes out again only when the checkpoint moved.
    case Settle(frame) =>
      var s := SettleEcho(o);
      if s.echoAck == o.echoAck then s else Publish(s, frame)
    case Wait(ms) => o.(clock := o.clock + ms)
    case Stop(frame) => Publish(o.(alive := false), frame)
  }

  // ---------- the invariant ----------

  function UpTo(from: nat, to: nat): (r: seq<nat>)
    ensures |r| == SaturatingSub(to, from) && forall k :: 0 <= k < |r| ==> r[k] == from + 1 + k
  {
    seq(SaturatingSub(to, from), k => from + 1 + k)
  }

  function Inputs(chunks: seq<Chunk>): seq<Bytes> {
    if chunks == [] then []
    else (if chunks[0].seqNo.Some? then [chunks[0].data] else []) + Inputs(chunks[1..])
  }

  function Flat(chunks: seq<Chunk>): Bytes {
    if chunks == [] then [] else chunks[0].data + Flat(chunks[1..])
  }

  // The part of the front chunk that is already written.
  function Entered(chunks: seq<Chunk>): Bytes
    requires ChunksValid(chunks)
  {
    if chunks == [] then [] else chunks[0].data[..chunks[0].off]
  }

  predicate OnlyFrontEntered(chunks: seq<Chunk>) { forall k :: 1 <= k < |chunks| ==> chunks[k].off == 0 }

  // The terminal has been given exactly the finished chunks and the entered part of the
  // next; all chunks together hold the accepted messages, numbered 1, 2, 3, ...
  predicate BytesKept(o: Owner) {
    && WritesValid(o.pending) && OnlyFrontEntered(o.pending.chunks)
    && o.written == Flat(o.past) + Entered(o.pending.chunks)
    && Numbers(o.past) == UpTo(0, |o.times|)
    && Numbers(o.pending.chunks) == UpTo(|o.times|, o.lastSeq)
    && |o.times| <= o.lastSeq == |o.accepted|
    && Inputs(o.past) + Inputs(o.pending.chunks) == o.accepted
  }

  // Messages up to the checkpoint were finished long enough ago; the others finished so far
  // are the history.
  predicate EchoKept(o: Owner) {
    && o.echoAck <= |o.times|
    && |o.history| == |o.times| - o.echoAck
    && (forall k :: 0 <= k < |o.history| ==> o.history[k] == Completion(o.echoAck + 1 + k, o.times[o.echoAck + k]))
    && (forall k :: 0 <= k < |o.times| ==> o.times[k] <= o.clock)
    && (forall k :: 0 <= k < o.echoAck ==> o.times[k] + ECHO_TIMEOUT <= o.clock)
  }

  predicate ScreensKept(o: Owner) {
    && (forall v :: 0 <= v < |o.published| ==> o.published[v].echoAck <= o.echoAck)
    && (forall v, u :: 0 <= v <= u < |o.published| ==> o.published[v].echoAck <= o.published[u].echoAck)
  }

  predicate Valid(o: Owner) { BytesKept(o) && EchoKept(o) && ScreensKept(o) }

  lemma StartedValid()
    ensures Valid(STARTED)
  {
  }

  // ---------- chunk lists ----------

  lemma {:induction false} NumbersAppend(a: seq<Chunk>, b: seq<Chunk>)
    ensures Numbers(a + b) == Numbers(a) + Numbers(b)
  {
    if a == [] {
      assert a + b == b;
    } else {
      FirstOfBoth(a, b);
      NumbersAppend(a[1..], b);
      Assoc(if a[0].seqNo.Some? then [a[0].seqNo.value] else [], Numbers(a[1..]), Numbers(b));
    }
  }

  lemma {:induction false} InputsAppend(a: seq<Chunk>, b: seq<Chunk>)
    ensures Inputs(a + b) == Inputs(a) + Inputs(b)
  {
    if a == [] {
      assert a + b == b;
    } else {
      FirstOfBoth(a, b);
      InputsAppend(a[1..], b);
      Assoc(if a[0].seqNo.Some? then [a[0].data] else [], Inputs(a[1..]), Inputs(b));
    }
  }

  lemma {:induction false} FlatAppend(a: seq<Chunk>, b: seq<Chunk>)
    ensures Flat(a + b) == Flat(a) + Flat(b)
  {
    if a == [] {
      assert a + b == b;
    } else {
      FirstOfBoth(a, b);
      FlatAppend(a[1..], b);
      Assoc(a[0].data, Flat(a[1..]), Flat(b));
    }
  }

  // Entering a chunk deeper, or growing a reply, changes neither the numbers nor the inputs.
  lemma {:induction false} SameLists(a: seq<Chunk>, b: seq<Chunk>)
    requires |a| == |b|
    requires forall k :: 0 <= k < |a| ==> a[k].seqNo == b[k].seqNo && (a[k].seqNo.Some? ==> a[k].data == b[k].data)
    ensures Numbers(a) == Numbers(b) && Inputs(a) == Inputs(b)
  {
    if a != [] { SameLists(a[1..], b[1..]); }
  }

  // What is entered plus what remains is all of the data.
  lemma {:induction false} EnteredPlusRemaining(chunks: seq<Chunk>)
    requires ChunksValid(chunks) && OnlyFrontEntered(chunks)
    ensures Entered(chunks) + Remaining(chunks) == Flat(chunks)
  {
    if chunks != [] {
      assert ChunkValid(chunks[0]);
      var front, rest := chunks[0], chunks[1..];
      EnteredPlusRemaining(rest);
      assert rest != [] ==> rest[0] == chunks[1];
      assert Entered(rest) == [] && [] + Remaining(rest) == Remaining(rest);
      assert front.data == front.data[..front.off] + front.data[front.off..];
      Assoc(front.data[..front.off], front.data[front.off..], Remaining(rest));
      hide ChunksValid, Remaining, Flat, Entered;
    }
  }

  // ---------- each arm keeps the invariant ----------

  lemma PushInputShape(w: Writes, seqNo: nat, data: Bytes)
    requires WritesValid(w) && OnlyFrontEntered(w.chunks) && data != [] && PushInput(w, seqNo, data).Some?
    ensures var v := PushInput(w, seqNo, data).value;
            && WritesValid(v) && OnlyFrontEntered(v.chunks) && Entered(v.chunks) == Entered(w.chunks)
            && Numbers(v.chunks) == Numbers(w.chunks) + [seqNo]
            && Inputs(v.chunks) == Inputs(w.chunks) + [data]
  {
    PushInputValid(w, seqNo, data);
    var c := Chunk(Some(seqNo), data, 0);
    NumbersAppend(w.chunks, [c]);
    InputsAppend(w.chunks, [c]);
    assert Numbers([c]) == [seqNo] + Numbers([]);
    assert Inputs([c]) == [data] + Inputs([]);
  }

  lemma TakeInputKeeps(o: Owner, seqNo: nat, data: Bytes)
    requires Valid(o) && AcceptsMore(o) && 0 < |data| <= MAX_INPUT_BYTES
    ensures Valid(TakeInput(o, seqNo, data)) && TakeInput(o, seqNo, data).alive == o.alive
    ensures TakeInput(o, seqNo, data).echoAck == o.echoAck
    ensures TakeInput(o, seqNo, data).lastSeq == if seqNo == o.lastSeq + 1 then seqNo else o.lastSeq
    ensures TakeInput(o, seqNo, data).accepted == if seqNo == o.lastSeq + 1 then o.accepted + [data] else o.accepted
  {
    GuardedPushSucceeds(o.pending, seqNo, data);
    if seqNo == o.lastSeq + 1 {
      PushInputShape(o.pending, seqNo, data);
      assert UpTo(|o.times|, o.lastSeq) + [seqNo] == UpTo(|o.times|, seqNo);
      assert Inputs(o.past) + (Inputs(o.pending.chunks) + [data]) == o.accepted + [data];
      hide Numbers, Inputs, Flat, Entered;
    }
  }

  lemma PushGeneratedShape(w: Writes, reply: Bytes)
    requires WritesValid(w) && OnlyFrontEntered(w.chunks) && PushGenerated(w, reply).Some?
    ensures var v := PushGenerated(w, reply).value;
            && WritesValid(v) && OnlyFrontEntered(v.chunks) && Entered(v.chunks) == Entered(w.chunks)
            && Numbers(v.chunks) == Numbers(w.chunks) && Inputs(v.chunks) == Inputs(w.chunks)
  {
    PushGeneratedValid(w, reply);
    var n := |w.chunks|;
    var v := PushGenerated(w, reply).value;
    if reply != [] {
      if n > 0 && w.chunks[n - 1].seqNo.None? {
        SameLists(w.chunks, v.chunks);
        assert ChunkValid(w.chunks[0]);
      } else {
        var c := Chunk(None, reply, 0);
        NumbersAppend(w.chunks, [c]);
        InputsAppend(w.chunks, [c]);
        assert Numbers([c]) == [] + Numbers([]);
        assert Inputs([c]) == [] + Inputs([]);
      }
    }
  }

  // A write hands over part of the front chunk: it ends that chunk exactly or enters it.
  lemma WriteShape(w: Writes, n: nat)
    requires WritesValid(w) && OnlyFrontEntered(w.chunks) && w.chunks != [] && n <= |WriteBuf(w)|
    ensures var front, left := w.chunks[0], Advanced(w.chunks, n);
            && Finished(w.chunks, n) == (if n == |WriteBuf(w)| then 1 else 0)
            && left == (if n == |WriteBuf(w)| then w.chunks[1..] else [front.(off := front.off + n)] + w.chunks[1..])
            && ChunksValid(left) && OnlyFrontEntered(left)
            && WritesValid(Writes(left, SaturatingSub(w.unread, n)))
  {
    var front := w.chunks[0];
    assert ChunkValid(front);
    AdvanceConserves(w.chunks, n);
    if n == Left(front) { AdvanceNothing(w.chunks[1..]); }
  }

  lemma FrontLists(chunks: seq<Chunk>)
    requires chunks != []
    ensures Numbers(chunks) == Numbers(chunks[..1]) + Numbers(chunks[1..])
    ensures Inputs(chunks) == Inputs(chunks[..1]) + Inputs(chunks[1..])
    ensures Flat(chunks[..1]) == chunks[0].data
    ensures |Numbers(chunks[..1])| == (if chunks[0].seqNo.Some? then 1 else 0)
  {
    assert chunks == chunks[..1] + chunks[1..];
    NumbersAppend(chunks[..1], chunks[1..]);
    InputsAppend(chunks[..1], chunks[1..]);
    assert chunks[..1][1..] == [];
    assert Flat(chunks[..1]) == chunks[0].data + Flat([]);
    assert Numbers(chunks[..1]) == (if chunks[0].seqNo.Some? then [chunks[0].seqNo.value] else []) + Numbers([]);
  }

  lemma EnterKeepsBytes(o: Owner, n: nat)
    requires BytesKept(o) && o.pending.chunks != [] && n < |WriteBuf(o.pending)|
    ensures BytesKept(WriteSome(o, n)) && WriteSome(o, n).times == o.times && WriteSome(o, n).history == o.history
  {
    var chunks := o.pending.chunks;
    WriteShape(o.pending, n);
    EnterShape(o.past, chunks, n);
    assert chunks[..0] == [];
    assert o.past + [] == o.past;
    assert o.times + [] == o.times;
    assert Completions([], o.clock) == [];
    assert o.history + [] == o.history;
    hide Numbers, Inputs, Flat, Remaining, Advanced, Finished, Entered, WritesValid, OnlyFrontEntered;
  }

  lemma EnterShape(past: seq<Chunk>, chunks: seq<Chunk>, n: nat)
    requires ChunksValid(chunks) && chunks != [] && n < Left(chunks[0])
    ensures var left := Advanced(chunks, n);
            && Numbers(left) == Numbers(chunks) && Inputs(left) == Inputs(chunks)
            && Flat(past) + Entered(chunks) + chunks[0].data[chunks[0].off..][..n] == Flat(past) + Entered(left)
  {
    var front, left := chunks[0], Advanced(chunks, n);
    assert ChunkValid(front);
    SameLists(chunks, left);
    assert front.data[..front.off + n] == front.data[..front.off] + front.data[front.off..][..n];
    Assoc(Flat(past), Entered(chunks), front.data[front.off..][..n]);
  }

  lemma FinishKeepsBytes(o: Owner)
    requires BytesKept(o) && o.pending.chunks != []
    ensures var p := WriteSome(o, |WriteBuf(o.pending)|);
            && BytesKept(p) && p.history == o.history + Completions(UpTo(|o.times|, |p.times|), o.clock)
            && o.times <= p.times && (forall k :: |o.times| <= k < |p.times| ==> p.times[k] == o.clock)
  {
    hide Numbers, Inputs, Flat, Finished, Advanced, Remaining, Entered;
    var n := |WriteBuf(o.pending)|;
    var chunks := o.pending.chunks;
    assert ChunkValid(chunks[0]);
    WriteShape(o.pending, n);
    FinishLists(o);
    FinishedBytes(o, chunks[0], chunks[1..], n);
  }

  lemma FinishLists(o: Owner)
    requires BytesKept(o) && o.pending.chunks != []
    ensures var done, rest := o.pending.chunks[..1], o.pending.chunks[1..];
            var d := |Numbers(done)|;
            && |o.times| + d <= o.lastSeq
            && Numbers(done) == UpTo(|o.times|, |o.times| + d)
            && Numbers(o.past + done) == UpTo(0, |o.times| + d) && Numbers(rest) == UpTo(|o.times| + d, o.lastSeq)
            && Inputs(o.past + done) + Inputs(rest) == o.accepted
            && Flat(o.past + done) == Flat(o.past) + o.pending.chunks[0].data
  {
    var done, rest := o.pending.chunks[..1], o.pending.chunks[1..];
    FrontLists(o.pending.chunks);
    NumbersAppend(o.past, done);
    InputsAppend(o.past, done);
    FlatAppend(o.past, done);
    Assoc(Inputs(o.past), Inputs(done), Inputs(rest));
    hide Numbers, Inputs, Flat, WriteBuf, Entered, WritesValid, OnlyFrontEntered;
    FinishedSplit(Numbers(done), Numbers(rest), |o.times|, o.lastSeq);
  }

  lemma FinishedBytes(o: Owner, front: Chunk, rest: seq<Chunk>, n: nat)
    requires BytesKept(o) && o.pending.chunks == [front] + rest && n == |WriteBuf(o.pending)|
    ensures o.written + WriteBuf(o.pending)[..n] == Flat(o.past) + front.data
    ensures Entered(rest) == []
  {
    assert ChunkValid(o.pending.chunks[0]);
    assert front.data == front.data[..front.off] + front.data[front.off..];
    assert rest != [] ==> rest[0] == o.pending.chunks[1];
  }

  lemma FinishedSplit(done: seq<nat>, rest: seq<nat>, from: nat, to: nat)
    requires done + rest == UpTo(from, to) && from <= to
    ensures from + |done| <= to
    ensures done == UpTo(from, from + |done|) && rest == UpTo(from + |done|, to)
    ensures UpTo(0, from) + done == UpTo(0, from + |done|)
  {
    assert done == (done + rest)[..|done|];
    assert rest == (done + rest)[|done|..];
  }

  lemma WriteKeeps(o: Owner, n: nat)
    requires Valid(o) && o.pending.unread > 0 && 0 < n <= |WriteBuf(o.pending)|
    ensures Valid(WriteSome(o, n)) && WriteSome(o, n).echoAck == o.echoAck && o.accepted == WriteSome(o, n).accepted
  {
    hide BytesKept, Advanced, Finished, WriteBuf;
    PendingKept(o);
    var p := WriteSome(o, n);
    if n < |WriteBuf(o.pending)| {
      EnterKeepsBytes(o, n);
    } else {
      FinishKeepsBytes(o);
    }
    assert EchoKept(p);
  }

  lemma SettleKeeps(o: Owner)
    requires Valid(o)
    ensures Valid(SettleEcho(o)) && o.echoAck <= SettleEcho(o).echoAck && o.accepted == SettleEcho(o).accepted
  {
    var k := SettledCount(o.history, o.clock);
    hide Numbers, Inputs, Flat, Entered, SettledCount;
    assert k > 0 ==> o.history[k - 1].seqNo == o.echoAck + k;
    var p := SettleEcho(o);
    assert p.echoAck == o.echoAck + k;
    forall j | o.echoAck <= j < p.echoAck ensures o.times[j] + ECHO_TIMEOUT <= o.clock {
      assert o.history[j - o.echoAck].at == o.times[j];
    }
  }

  lemma PublishKeeps(o: Owner, frame: Frame)
    requires Valid(o)
    ensures Valid(Publish(o, frame))
  {
    assert ScreensKept(Publish(o, frame));
  }

  lemma OutputKeeps(o: Owner, reply: Bytes)
    requires Valid(o) && PushGenerated(o.pending, reply).Some?
    ensures Valid(o.(pending := PushGenerated(o.pending, reply).value))
  {
    PushGeneratedShape(o.pending, reply);
  }

  lemma WaitKeeps(o: Owner, ms: nat)
    requires Valid(o)
    ensures Valid(o.(clock := o.clock + ms))
  {
  }

  lemma StopKeeps(o: Owner, frame: Frame)
    requires Valid(o)
    ensures Valid(Publish(o.(alive := false), frame))
  {
    PublishKeeps(o.(alive := false), frame);
  }

  lemma OutputStep(o: Owner, reply: Bytes, frame: Frame)
    requires Valid(o) && Enabled(o, Output(reply, frame))
    ensures var p := Next(o, Output(reply, frame));
            Valid(p) && p.echoAck == o.echoAck && p.accepted == o.accepted && o.published <= p.published
  {
    if PushGenerated(o.pending, reply).Some? {
      OutputKeeps(o, reply);
      PublishKeeps(o.(pending := PushGenerated(o.pending, reply).value), frame);
    } else {
      PublishKeeps(o.(alive := false), frame);
    }
  }

  lemma NextValid(o: Owner, e: Event)
    requires Valid(o) && Enabled(o, e)
    ensures Valid(Next(o, e))
    ensures o.echoAck <= Next(o, e).echoAck && o.accepted <= Next(o, e).accepted && o.published <= Next(o, e).published
    ensures !e.Stop? && !e.Output? ==> Next(o, e).alive
  {
    hide BytesKept, EchoKept, ScreensKept;
    match e
    case Input(seqNo, data) => TakeInputKeeps(o, seqNo, data);
    case Output(reply, frame) => OutputStep(o, reply, frame);
    case Write(n) => WriteKeeps(o, n);
    case Settle(frame) => SettleKeeps(o); PublishKeeps(SettleEcho(o), frame);
    case Wait(ms) => WaitKeeps(o, ms);
    case Resized(frame) => PublishKeeps(o, frame);
    case Stop(frame) => StopKeeps(o, frame);
  }

  // ---------- whole runs ----------

  // An event that is not enabled does not happen.
  function Step(o: Owner, e: Event): (p: Owner)
    requires Valid(o)
    ensures Valid(p)
    ensures o.echoAck <= p.echoAck && o.accepted <= p.accepted && o.published <= p.published
    ensures o.alive && !e.Stop? && !e.Output? ==> p.alive
  {
    if Enabled(o, e) then NextValid(o, e); Next(o, e) else o
  }

  function Run(o: Owner, events: seq<Event>): (p: Owner)
    requires Valid(o)
    ensures Valid(p)
    decreases |events|
  {
    if events == [] then o else Run(Step(o, events[0]), events[1..])
  }

  // Over any run the checkpoint, the accepted messages and the published screens only grow,
  // and only a stop or an oversized burst of replies ends the session: accepting input never
  // does.
  lemma {:induction false} OwnerRuns(o: Owner, events: seq<Event>)
    requires Valid(o)
    ensures var p := Run(o, events);
            && o.echoAck <= p.echoAck && o.accepted <= p.accepted && o.published <= p.published
            && (o.alive && (forall k :: 0 <= k < |events| ==> !events[k].Stop? && !events[k].Output?) ==> p.alive)
    decreases |events|
  {
    hide Valid;
    if events != [] {
      OwnerRuns(Step(o, events[0]), events[1..]);
    }
  }

  // What the terminal has got and will get is all the chunks in order; leaving out the
  // replies, those are exactly the accepted messages, numbered from 1.
  lemma TerminalGetsInputsInOrder(o: Owner)
    requires Valid(o)
    ensures var all := o.past + o.pending.chunks;
            && o.written + Remaining(o.pending.chunks) == Flat(all)
            && Inputs(all) == o.accepted
            && Numbers(all) == UpTo(0, |o.accepted|)
  {
    var chunks := o.pending.chunks;
    NumbersAppend(o.past, chunks);
    InputsAppend(o.past, chunks);
    FlatAppend(o.past, chunks);
    EnteredPlusRemaining(chunks);
    assert UpTo(0, |o.times|) + UpTo(|o.times|, o.lastSeq) == UpTo(0, o.lastSeq);
    Assoc(Flat(o.past), Entered(chunks), Remaining(chunks));
    hide Numbers, Inputs, Flat, Remaining, Entered, OnlyFrontEntered, ChunksValid, EchoKept, ScreensKept;
  }

  // The chunks up to and including message `k`.
  function Through(chunks: seq<Chunk>, k: nat): (j: nat)
    requires k <= |Inputs(chunks)|
    ensures j <= |chunks|
    decreases |chunks|
  {
    if k == 0 then 0
    else if chunks[0].seqNo.Some? then 1 + Through(chunks[1..], k - 1)
    else 1 + Through(chunks[1..], k)
  }

  lemma {:induction false} ThroughInputs(chunks: seq<Chunk>, k: nat)
    requires k <= |Inputs(chunks)|
    ensures Inputs(chunks[..Through(chunks, k)]) == Inputs(chunks)[..k]
    decreases |chunks|
  {
    if k > 0 {
      var next := if chunks[0].seqNo.Some? then k - 1 else k;
      ThroughInputs(chunks[1..], next);
      assert chunks[..Through(chunks, k)][1..] == chunks[1..][..Through(chunks[1..], next)];
    }
  }

  lemma {:induction false} InputsCount(chunks: seq<Chunk>)
    ensures |Inputs(chunks)| == |Numbers(chunks)|
  {
    if chunks != [] { InputsCount(chunks[1..]); }
  }

  lemma FlatPrefix(chunks: seq<Chunk>, j: nat)
    requires j <= |chunks|
    ensures Flat(chunks[..j]) <= Flat(chunks)
  {
    FlatAppend(chunks[..j], chunks[j..]);
    assert chunks == chunks[..j] + chunks[j..];
  }

  // A message at or below the echo checkpoint, and every one before it, has been written to
  // its last byte, and at least ECHO_TIMEOUT ago.
  lemma EchoedIsWritten(o: Owner, k: nat)
    requires Valid(o) && 1 <= k <= o.echoAck
    ensures k <= |o.accepted| && o.times[k - 1] + ECHO_TIMEOUT <= o.clock
    ensures exists j :: 0 <= j <= |o.past| && Inputs(o.past[..j]) == o.accepted[..k] && Flat(o.past[..j]) <= o.written
  {
    InputsCount(o.past);
    var j := Through(o.past, k);
    ThroughInputs(o.past, k);
    FlatPrefix(o.past, j);
    assert Inputs(o.past)[..k] == o.accepted[..k];
    assert Flat(o.past[..j]) <= o.written;
  }

  // Every published screen carries a checkpoint no later than the messages accepted so far.
  lemma PublishedEcho(o: Owner, v: nat)
    requires Valid(o) && v < |o.published|
    ensures o.published[v].echoAck <= o.echoAck <= o.lastSeq
  {
  }

  lemma PendingKept(o: Owner)
    requires Valid(o)
    ensures WritesValid(o.pending)
  {
  }

  lemma StoppedKeeps(o: Owner)
    requires Valid(o)
    ensures Valid(o.(alive := false))
  {
  }

  /** The owner's loop: one method for each arm, on the state the arms share. */
  class OwnerLoop {
    const pending: PendingWrites
    var running: bool
    var lastSeq: nat
    var history: seq<Completion>
    var echoAck: nat
    var latest: Option<Published>
    var version: nat
    ghost var clock: nat
    ghost var published: seq<Published>
    ghost var accepted: seq<Bytes>
    ghost var past: seq<Chunk>
    ghost var written: Bytes
    ghost var times: seq<nat>

    ghost function View(): Owner
      reads this, pending
    {
      Owner(running, lastSeq, pending.View(), history, echoAck, clock, published, accepted, past, written, times)
    }

    // The program keeps only the newest screen and its version number.
    ghost predicate Inv()
      reads this, pending
    {
      && Valid(View())
      && version == |published|
      && latest == (if published == [] then None else Some(published[|published| - 1]))
    }

    constructor ()
      ensures Inv() && View() == STARTED && fresh(pending)
    {
      pending := new PendingWrites();
      running, lastSeq, history, echoAck, latest, version := true, 0, [], 0, None, 0;
      clock, published, accepted, past, written, times := 0, [], [], [], [], [];
    }

    method PublishFrame(frame: Frame)
      requires Inv()
      modifies this
      ensures Inv() && View() == Publish(old(View()), frame)
    {
      PublishKeeps(View(), frame);
      version := version + 1;
      latest := Some(Published(echoAck, frame));
      published := published + [Published(echoAck, frame)];
    }

    method OnInput(seqNo: nat, data: Bytes)
      requires Inv() && Enabled(View(), Input(seqNo, data))
      modifies this, pending
      ensures Inv() && View() == Next(old(View()), Input(seqNo, data))
    {
      hide Valid, WritesValid, PushInput;
      TakeInputKeeps(View(), seqNo, data);
      PendingKept(View());
      GuardedPushSucceeds(pending.View(), seqNo, data);
      var next := if lastSeq == 0 then 1 else lastSeq + 1;
      if seqNo == next {
        var ok := pending.Input(seqNo, data);
        if !ok {
          // The session would end here; the guard on taking commands rules it out.
          assert false;
        } else {
          lastSeq := seqNo;
          accepted := accepted + [data];
        }
      }
    }

    method OnOutput(reply: Bytes, frame: Frame)
      requires Inv() && Enabled(View(), Output(reply, frame))
      modifies this, pending
      ensures Inv() && View() == Next(old(View()), Output(reply, frame))
    {
      hide Valid, WritesValid, PushGenerated;
      OutputStep(View(), reply, frame);
      ghost var o := View();
      if PushGenerated(o.pending, reply).Some? { OutputKeeps(o, reply); } else { StoppedKeeps(o); }
      PendingKept(o);
      var ok := pending.Generated(reply);
      if !ok { running := false; }
      assert View() == if ok then o.(pending := PushGenerated(o.pending, reply).value) else o.(alive := false);
      PublishFrame(frame);
    }

    method OnWritten(n: nat, now: nat)
      requires Inv() && Enabled(View(), Write(n)) && now == clock
      modifies this, pending
      ensures Inv() && View() == Next(old(View()), Write(n))
    {
      hide BytesKept, EchoKept, ScreensKept;
      ghost var o := View();
      WriteKeeps(o, n);
      PendingKept(o);
      PendingKept(WriteSome(o, n));
      ghost var done := o.pending.chunks[..Finished(o.pending.chunks, n)];
      history := pending.Advance(n, history, now);
      past, written := past + done, written + WriteBuf(o.pending)[..n];
      times := times + seq(|Numbers(done)|, _ => now);
    }

    method OnSettle(now: nat, frame: Frame)
      requires Inv() && Enabled(View(), Settle(frame)) && now == clock
      modifies this
      ensures Inv() && View() == Next(old(View()), Settle(frame))
    {
      hide Valid, SettledCount, NewEchoAck;
      ghost var o := View();
      SettleKeeps(o);
      PublishKeeps(SettleEcho(o), frame);
      var moved;
      echoAck, history, moved := AdvanceEchoAck(echoAck, history, now);
      assert View() == SettleEcho(o);
      if moved { PublishFrame(frame); }
    }
  }
}
