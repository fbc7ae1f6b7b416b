/**
 Bytes on their way to the terminal, kept in sequenced chunks so that the owner knows when
 an input message has been written completely, and the echo checkpoint measured from that.
 */
module Pending {
  import opened Wrappers
  import opened Bytes

  const MAX_PENDING := 1024 * 1024
  const PENDING_HARD_MAX := MAX_PENDING + 64 * 1024
  const MAX_INPUT_BYTES := 32 * 1024
  // Milliseconds.
  const ECHO_TIMEOUT := 50

  // An input message has a number, terminal replies have none.
  datatype Chunk = Chunk(seqNo: Option<nat>, data: Bytes, off: nat)

  datatype Writes = Writes(chunks: seq<Chunk>, unread: nat)

  // A message number and the time it was completely written.
  datatype Completion = Completion(seqNo: nat, at: nat)

  // ---------- operations ----------

  function PushInput(w: Writes, seqNo: nat, data: Bytes): Option<Writes> {
    if w.unread + |data| > PENDING_HARD_MAX then None
    else Some(Writes(w.chunks + [Chunk(Some(seqNo), data, 0)], w.unread + |data|))
  }

  // Replies join a reply chunk at the back; nothing is queued for an empty reply.
  function PushGenerated(w: Writes, bytes: Bytes): Option<Writes> {
    if bytes == [] then Some(w)
    else if w.unread + |bytes| > PENDING_HARD_MAX then None
    else
      var n := |w.chunks|;
      if n > 0 && w.chunks[n - 1].seqNo.None? then
        var back := w.chunks[n - 1];
        Some(Writes(w.chunks[n - 1 := back.(data := back.data + bytes)], w.unread + |bytes|))
      else
        Some(Writes(w.chunks + [Chunk(None, bytes, 0)], w.unread + |bytes|))
  }

  function WriteBuf(w: Writes): Bytes
    requires WritesValid(w)
  {
    if w.chunks == [] then [] else w.chunks[0].data[w.chunks[0].off..]
  }

  // How many chunks `n` written bytes finish.
  function Finished(chunks: seq<Chunk>, n: nat): (k: nat)
    requires ChunksValid(chunks)
    ensures k <= |chunks|
  {
    if chunks == [] || n < Left(chunks[0]) then 0
    else 1 + Finished(chunks[1..], n - Left(chunks[0]))
  }

  function Left(c: Chunk): nat
    requires c.off <= |c.data|
  {
    |c.data| - c.off
  }

  // What `n` written bytes leave: the finished chunks go, the next one is entered.
  function Advanced(chunks: seq<Chunk>, n: nat): (r: seq<Chunk>)
    requires ChunksValid(chunks)
    ensures ChunksValid(r)
  {
    if chunks == [] then []
    else if n < Left(chunks[0]) then
      var front := chunks[0];
      assert ChunksValid(chunks[1..]);
      [front.(off := front.off + n)] + chunks[1..]
    else Advanced(chunks[1..], n - Left(chunks[0]))
  }

  function Numbers(chunks: seq<Chunk>): seq<nat> {
    if chunks == [] then []
    else (if chunks[0].seqNo.Some? then [chunks[0].seqNo.value] else []) + Numbers(chunks[1..])
  }

  function Completions(numbers: seq<nat>, at: nat): (r: seq<Completion>)
    ensures |r| == |numbers| && forall k :: 0 <= k < |r| ==> r[k] == Completion(numbers[k], at)
  {
    seq(|numbers|, k requires 0 <= k < |numbers| => Completion(numbers[k], at))
  }

  // How many completions at the front have settled.
  function SettledCount(history: seq<Completion>, now: nat): (k: nat)
    ensures k <= |history|
    ensures forall i :: 0 <= i < k ==> history[i].at + ECHO_TIMEOUT <= now
    ensures k < |history| ==> history[k].at + ECHO_TIMEOUT > now
  {
    if history == [] || history[0].at + ECHO_TIMEOUT > now then 0 else 1 + SettledCount(history[1..], now)
  }

  function NewEchoAck(echoAck: nat, history: seq<Completion>, now: nat): nat {
    var k := SettledCount(history, now);
    if k == 0 then echoAck else history[k - 1].seqNo
  }

  // ---------- what they keep ----------

  predicate ChunkValid(c: Chunk) { c.off < |c.data| }

  predicate ChunksValid(chunks: seq<Chunk>) { forall k :: 0 <= k < |chunks| ==> ChunkValid(chunks[k]) }

  function Remaining(chunks: seq<Chunk>): Bytes
    requires ChunksValid(chunks)
  {
    if chunks == [] then [] else chunks[0].data[chunks[0].off..] + Remaining(chunks[1..])
  }

  predicate WritesValid(w: Writes) { ChunksValid(w.chunks) && w.unread == |Remaining(w.chunks)| }

  // Unwritten bytes mean a non-empty write buffer, so a zero-length write is an end of file.
  lemma UnreadMeansWork(w: Writes)
    requires WritesValid(w)
    ensures w.unread > 0 <==> WriteBuf(w) != []
  {
    if w.chunks != [] { assert ChunkValid(w.chunks[0]); }
  }

  lemma {:induction false} RemainingAppend(a: seq<Chunk>, b: seq<Chunk>)
    requires ChunksValid(a) && ChunksValid(b)
    ensures ChunksValid(a + b) && Remaining(a + b) == Remaining(a) + Remaining(b)
  {
    if a == [] {
      assert a + b == b;
    } else {
      FirstOfBoth(a, b);
      RemainingAppend(a[1..], b);
      Assoc(a[0].data[a[0].off..], Remaining(a[1..]), Remaining(b));
    }
  }

  lemma PushInputValid(w: Writes, seqNo: nat, data: Bytes)
    requires WritesValid(w) && data != [] && PushInput(w, seqNo, data).Some?
    ensures var v := PushInput(w, seqNo, data).value;
            WritesValid(v) && Remaining(v.chunks) == Remaining(w.chunks) + data
  {
    var c := [Chunk(Some(seqNo), data, 0)];
    RemainingAppend(w.chunks, c);
    assert Remaining(c) == data + Remaining([]);
  }

  lemma GrowBack(init: seq<Chunk>, back: Chunk, bytes: Bytes)
    requires ChunksValid(init) && ChunkValid(back)
    ensures var grown := back.(data := back.data + bytes);
            && ChunksValid(init + [back]) && ChunksValid(init + [grown])
            && Remaining(init + [grown]) == Remaining(init + [back]) + bytes
  {
    var grown := back.(data := back.data + bytes);
    RemainingAppend(init, [back]);
    RemainingAppend(init, [grown]);
    RemainingOne(back);
    RemainingOne(grown);
    hide Remaining;
    assert grown.data[grown.off..] == back.data[back.off..] + bytes;
    Assoc(Remaining(init), back.data[back.off..], bytes);
  }

  lemma RemainingOne(c: Chunk)
    requires ChunkValid(c)
    ensures Remaining([c]) == c.data[c.off..]
  {
    assert Remaining([c]) == c.data[c.off..] + Remaining([]);
  }

  lemma PushGeneratedValid(w: Writes, bytes: Bytes)
    requires WritesValid(w) && PushGenerated(w, bytes).Some?
    ensures var v := PushGenerated(w, bytes).value;
            WritesValid(v) && Remaining(v.chunks) == Remaining(w.chunks) + bytes
  {
    var n := |w.chunks|;
    if bytes == [] {
    } else if n > 0 && w.chunks[n - 1].seqNo.None? {
      var init, back := w.chunks[..n - 1], w.chunks[n - 1];
      assert ChunkValid(back);
      assert init + [back] == w.chunks;
      assert init + [back.(data := back.data + bytes)] == PushGenerated(w, bytes).value.chunks;
      hide Remaining;
      GrowBack(init, back, bytes);
    } else {
      var c := [Chunk(None, bytes, 0)];
      RemainingAppend(w.chunks, c);
      assert Remaining(c) == bytes + Remaining([]);
    }
  }

  lemma DropWithin(head: Bytes, tail: Bytes, n: nat)
    ensures n <= |head| ==> (head + tail)[n..] == head[n..] + tail
    ensures |head| <= n <= |head| + |tail| ==> (head + tail)[n..] == tail[n - |head|..]
  {
  }

  lemma EnteredRemains(front: Chunk, rest: seq<Chunk>, n: nat)
    requires ChunkValid(front) && ChunksValid(rest) && n < Left(front)
    ensures ChunksValid([front.(off := front.off + n)] + rest)
    ensures Remaining([front.(off := front.off + n)] + rest) == (front.data[front.off..] + Remaining(rest))[n..]
  {
    var entered := [front.(off := front.off + n)] + rest;
    assert entered[1..] == rest;
    assert front.data[front.off + n..] == front.data[front.off..][n..];
    DropWithin(front.data[front.off..], Remaining(rest), n);
  }

  // Writing takes bytes off the front of what remains.
  lemma {:induction false} AdvanceConserves(chunks: seq<Chunk>, n: nat)
    requires ChunksValid(chunks)
    ensures Remaining(Advanced(chunks, n)) == Remaining(chunks)[Min(n, |Remaining(chunks)|)..]
    decreases |chunks|
  {
    if chunks != [] {
      var front, rest := chunks[0], chunks[1..];
      assert ChunkValid(front) && ChunksValid(rest);
      if n < Left(front) {
        EnteredRemains(front, rest, n);
      } else {
        AdvanceConserves(rest, n - Left(front));
        DropWithin(front.data[front.off..], Remaining(rest), Min(n, |Remaining(chunks)|));
      }
    }
  }

  // The finished chunks are the first ones; the next one is entered, the others untouched.
  lemma {:induction false} AdvanceShape(chunks: seq<Chunk>, n: nat)
    requires ChunksValid(chunks)
    ensures var k, r := Finished(chunks, n), Advanced(chunks, n);
            && |r| == |chunks| - k
            && (k < |chunks| ==> r[0].seqNo == chunks[k].seqNo && r[0].data == chunks[k].data && r[1..] == chunks[k + 1..])
    decreases |chunks|
  {
    if chunks != [] {
      assert ChunkValid(chunks[0]);
      if n >= Left(chunks[0]) {
        AdvanceShape(chunks[1..], n - Left(chunks[0]));
      }
    }
  }

  // The owner takes a command only below the soft limit, so an input of legal size never
  // hits the hard one.
  lemma GuardedPushSucceeds(w: Writes, seqNo: nat, data: Bytes)
    requires w.unread < MAX_PENDING && |data| <= MAX_INPUT_BYTES
    ensures PushInput(w, seqNo, data).Some?
  {
  }

  class PendingWrites {
    var chunks: seq<Chunk>
    var unread: nat

    ghost function View(): Writes
      reads this
    {
      Writes(chunks, unread)
    }

    ghost predicate Valid()
      reads this
    {
      WritesValid(View())
    }

    constructor ()
      ensures Valid() && View() == Writes([], 0)
    {
      chunks, unread := [], 0;
    }

    method Input(seqNo: nat, data: Bytes) returns (ok: bool)
      requires Valid()
      modifies this
      ensures ok == PushInput(old(View()), seqNo, data).Some?
      ensures View() == if ok then PushInput(old(View()), seqNo, data).value else old(View())
      ensures data != [] ==> Valid()
    {
      if unread + |data| > PENDING_HARD_MAX { return false; }
      ghost var w := View();
      unread := unread + |data|;
      chunks := chunks + [Chunk(Some(seqNo), data, 0)];
      ok := true;
      if data != [] { PushInputValid(w, seqNo, data); }
    }

    method Generated(bytes: Bytes) returns (ok: bool)
      requires Valid()
      modifies this
      ensures Valid()
      ensures ok == PushGenerated(old(View()), bytes).Some?
      ensures View() == if ok then PushGenerated(old(View()), bytes).value else old(View())
    {
      ghost var w := View();
      if bytes == [] { return true; }
      if unread + |bytes| > PENDING_HARD_MAX { return false; }
      unread := unread + |bytes|;
      var n := |chunks|;
      if n > 0 && chunks[n - 1].seqNo.None? {
        chunks := chunks[n - 1 := chunks[n - 1].(data := chunks[n - 1].data + bytes)];
      } else {
        chunks := chunks + [Chunk(None, bytes, 0)];
      }
      ok := true;
      PushGeneratedValid(w, bytes);
    }

    // Consume `n` written bytes, recording the messages they finish.
    method Advance(n: nat, history: seq<Completion>, now: nat) returns (history': seq<Completion>)
      requires Valid()
      modifies this
      ensures Valid() && chunks == Advanced(old(chunks), n)
      ensures history' == history + Completions(Numbers(old(chunks)[..Finished(old(chunks), n)]), now)
    {
      ghost var chunks0 := chunks;
      FinishedAre(chunks0, n);
      var left := n;
      history' := history;
      while left > 0 && chunks != []
        invariant Valid()
        invariant Advanced(chunks, left) == Advanced(chunks0, n)
        invariant history' + Completions(FinishedNumbers(chunks, left), now)
               == history + Completions(FinishedNumbers(chunks0, n), now)
        decreases |chunks|, left
      {
        var front := chunks[0];
        assert ChunkValid(front);
        var take := Min(left, |front.data| - front.off);
        EnterFront(chunks, take, left, now);
        front := front.(off := front.off + take);
        left := left - take;
        unread := unread - take;
        if front.off == |front.data| {
          chunks := chunks[1..];
          if front.seqNo.Some? {
            history' := history' + [Completion(front.seqNo.value, now)];
          }
        } else {
          chunks := [front] + chunks[1..];
        }
      }
      if left == 0 { AdvanceNothing(chunks); }
    }
  }

  // The numbers of the messages that `n` written bytes finish.
  function FinishedNumbers(chunks: seq<Chunk>, n: nat): seq<nat>
    requires ChunksValid(chunks)
  {
    if chunks == [] || n < Left(chunks[0]) then []
    else (if chunks[0].seqNo.Some? then [chunks[0].seqNo.value] else []) + FinishedNumbers(chunks[1..], n - Left(chunks[0]))
  }

  lemma {:induction false} FinishedAre(chunks: seq<Chunk>, n: nat)
    requires ChunksValid(chunks)
    ensures FinishedNumbers(chunks, n) == Numbers(chunks[..Finished(chunks, n)])
    decreases |chunks|
  {
    if chunks != [] && n >= Left(chunks[0]) {
      var k := Finished(chunks[1..], n - Left(chunks[0]));
      FinishedAre(chunks[1..], n - Left(chunks[0]));
      assert chunks[..1 + k][1..] == chunks[1..][..k];
    }
  }

  lemma AdvanceNothing(chunks: seq<Chunk>)
    requires ChunksValid(chunks)
    ensures Advanced(chunks, 0) == chunks && FinishedNumbers(chunks, 0) == []
  {
    if chunks != [] {
      assert ChunkValid(chunks[0]);
      assert [chunks[0]] + chunks[1..] == chunks;
    }
  }

  // One turn of the loop: `take` bytes go to the front chunk.
  lemma EnterFront(chunks: seq<Chunk>, take: nat, left: nat, now: nat)
    requires ChunksValid(chunks) && chunks != [] && 0 < left && take == Min(left, Left(chunks[0]))
    ensures take == Left(chunks[0]) ==>
              && ChunksValid(chunks[1..]) && |Remaining(chunks)| == take + |Remaining(chunks[1..])|
              && Advanced(chunks, left) == Advanced(chunks[1..], left - take)
              && Completions(FinishedNumbers(chunks, left), now)
                 == (if chunks[0].seqNo.Some? then [Completion(chunks[0].seqNo.value, now)] else [])
                    + Completions(FinishedNumbers(chunks[1..], left - take), now)
    ensures take != Left(chunks[0]) ==>
              var next := [chunks[0].(off := chunks[0].off + take)] + chunks[1..];
              && ChunksValid(next) && |Remaining(chunks)| == take + |Remaining(next)| && left == take
              && Advanced(chunks, left) == Advanced(next, 0)
              && FinishedNumbers(chunks, left) == FinishedNumbers(next, 0) == []
  {
    assert ChunkValid(chunks[0]);
    if take != Left(chunks[0]) {
      var next := [chunks[0].(off := chunks[0].off + take)] + chunks[1..];
      assert next[1..] == chunks[1..];
      AdvanceNothing(next);
    }
  }

  // Advance the echo checkpoint to the newest message written long enough ago.
  method AdvanceEchoAck(echoAck: nat, history: seq<Completion>, now: nat)
    returns (echoAck': nat, history': seq<Completion>, moved: bool)
    ensures echoAck' == NewEchoAck(echoAck, history, now)
    ensures history' == history[SettledCount(history, now)..]
    ensures moved <==> echoAck' != echoAck
  {
    var newest := echoAck;
    history' := history;
    ghost var k: nat := 0;
    while history' != [] && history'[0].at + ECHO_TIMEOUT <= now
      invariant k <= |history| && history' == history[k..]
      invariant SettledCount(history, now) == k + SettledCount(history', now)
      invariant newest == if k == 0 then echoAck else history[k - 1].seqNo
      decreases |history'|
    {
      newest := history'[0].seqNo;
      history' := history'[1..];
      k := k + 1;
    }
    echoAck', moved := newest, newest != echoAck;
  }
}
