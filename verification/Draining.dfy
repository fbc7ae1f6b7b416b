/**
 Delivery can always be completed. From every state a session can be in, as long as the owner
 lives, the work that is left can be done in finitely many steps, and then everything typed
 has reached the terminal and the client knows that it was accepted. A new connection is all
 it takes when the present one is lost.
 */
module Draining {
  import opened Wrappers
  import opened Frames
  import opened ClientNet
  import opened Protocol
  import O = SessionOwner
  import Pending
  import T = Transport

  // The client's connection works and the handshake on it is done.
  predicate Connected(w: World) {
    && w.owner.alive && Sending(w.net) && w.conns != []
    && Current(w.conns).alive && Current(w.conns).claim > 0
  }

  // Nothing is left to do.
  predicate Drained(w: World)
    requires w.conns != []
  {
    var c := Current(w.conns);
    && w.owner.pending.chunks == [] && w.cmds == [] && c.busy == [] && c.up == []
    && NextUnsent(w.net.unacked, w.net.sentSeq).None?
    && c.ackSeen == w.owner.lastSeq && c.pendingAck.None? && c.acks == []
  }

  // The next piece of work, nearest to the terminal first.
  function Turn(w: World, fb: Frame): Event
    requires w.conns != [] && Pending.WritesValid(w.owner.pending)
  {
    var i, c := |w.conns| - 1, Current(w.conns);
    if w.owner.pending.chunks != [] then OwnerDoes(O.Write(|Pending.WriteBuf(w.owner.pending)|))
    else if w.cmds != [] then Dequeue(fb)
    else if c.busy != [] then HandOver(i)
    else if c.up != [] then Read(i)
    else if NextUnsent(w.net.unacked, w.net.sentSeq).Some? then SendInput
    else if c.ackSeen != w.owner.lastSeq then SeeAccepted(i)
    else if c.pendingAck.Some? then PushAck(i)
    else ReadAck
  }

  // Nothing is typed, opened, claimed or lost, no time passes and no screen is published but
  // in answer to a resize that was already queued.
  predicate Work(e: Event) {
    match e
    case OwnerDoes(does) => does.Write?
    case Dequeue(_) => true
    case HandOver(_) => true
    case Read(_) => true
    case SendInput => true
    case SeeAccepted(_) => true
    case PushAck(_) => true
    case ReadAck => true
    case _ => false
  }

  // How much is left, in the order in which it becomes less.
  datatype Left = Left(unsent: nat, up: nat, busy: nat, cmds: nat, chunks: nat, unseen: nat, unpushed: nat, acks: nat)

  function LeftOf(w: World): Left
    requires w.conns != []
  {
    var c := Current(w.conns);
    Left(SaturatingSub(|w.log|, w.net.sentSeq), |c.up|, |c.busy|, |w.cmds|, |w.owner.pending.chunks|,
         if c.ackSeen == w.owner.lastSeq then 0 else 1, if c.pendingAck.None? then 0 else 1, |c.acks|)
  }

  predicate Less(a: Left, b: Left) {
    if a.unsent != b.unsent then a.unsent < b.unsent
    else if a.up != b.up then a.up < b.up
    else if a.busy != b.busy then a.busy < b.busy
    else if a.cmds != b.cmds then a.cmds < b.cmds
    else if a.chunks != b.chunks then a.chunks < b.chunks
    else if a.unseen != b.unseen then a.unseen < b.unseen
    else if a.unpushed != b.unpushed then a.unpushed < b.unpushed
    else a.acks < b.acks
  }

  // ---------- each piece of work can be done, and there is less to do then ----------

  predicate Advances(w: World, t: World)
    requires Connected(w)
  {
    Connected(t) && t.log == w.log && Less(LeftOf(t), LeftOf(w))
  }

  lemma PendingValid(w: World)
    requires Inv(w)
    ensures O.Valid(w.owner) && Pending.WritesValid(w.owner.pending)
  {
  }

  // The front chunk is written to its end.
  lemma WriteDoes(o: O.Owner)
    requires O.Valid(o) && Pending.WritesValid(o.pending) && o.alive && o.pending.chunks != []
    ensures var e := O.Write(|Pending.WriteBuf(o.pending)|);
            && O.Enabled(o, e)
            && var p := O.Step(o, e); p.alive && p.lastSeq == o.lastSeq && p.pending.chunks == o.pending.chunks[1..]
  {
    hide O.Entered, Pending.Remaining, Pending.Advanced, Pending.Finished;
    Pending.UnreadMeansWork(o.pending);
    assert Pending.ChunkValid(o.pending.chunks[0]);
    O.WriteShape(o.pending, |Pending.WriteBuf(o.pending)|);
  }

  lemma WriteWorks(w: World)
    requires Inv(w) && Connected(w) && Pending.WritesValid(w.owner.pending) && w.owner.pending.chunks != []
    ensures var e := OwnerDoes(O.Write(|Pending.WriteBuf(w.owner.pending)|));
            O.Valid(w.owner) && Enabled(w, e) && Advances(w, Do(w, e))
  {
    hide Inv, O.Valid, O.Enabled, O.Step, Pending.WritesValid;
    PendingValid(w);
    WriteDoes(w.owner);
  }

  lemma NothingPending(o: O.Owner)
    requires Pending.WritesValid(o.pending) && o.pending.chunks == []
    ensures O.AcceptsMore(o)
  {
  }

  lemma DequeueWorks(w: World, fb: Frame)
    requires Inv(w) && Connected(w) && w.owner.pending.chunks == [] && w.cmds != []
    ensures O.Valid(w.owner) && Enabled(w, Dequeue(fb)) && Advances(w, Do(w, Dequeue(fb)))
  {
    hide Inv, O.Valid, O.Enabled, O.Next, Pending.WritesValid, T.LegalInput;
    PendingValid(w);
    NothingPending(w.owner);
  }

  lemma HandOverWorks(w: World)
    requires O.Valid(w.owner) && Connected(w) && w.cmds == [] && Current(w.conns).busy != []
    ensures var e := HandOver(|w.conns| - 1); Enabled(w, e) && Advances(w, Do(w, e))
  {
    hide O.Valid, O.Enabled, O.Step;
  }

  lemma ReadWorks(w: World)
    requires O.Valid(w.owner) && Connected(w) && Current(w.conns).busy == [] && Current(w.conns).up != []
    ensures var e := Read(|w.conns| - 1); Enabled(w, e) && Advances(w, Do(w, e))
  {
    hide O.Valid, O.Enabled, O.Step;
  }

  lemma SendWorks(w: World)
    requires Inv(w) && Connected(w) && NextUnsent(w.net.unacked, w.net.sentSeq).Some?
    ensures O.Valid(w.owner) && Enabled(w, SendInput) && Advances(w, Do(w, SendInput))
  {
    hide Inv, O.Valid, O.Enabled, O.Step, NextUnsent, Genuine;
    PendingValid(w);
    NextFits(w);
  }

  lemma SeeWorks(w: World)
    requires O.Valid(w.owner) && Connected(w) && Current(w.conns).ackSeen != w.owner.lastSeq
    ensures var e := SeeAccepted(|w.conns| - 1); Enabled(w, e) && Advances(w, Do(w, e))
  {
    hide O.Valid, O.Enabled, O.Step;
  }

  lemma PushWorks(w: World)
    requires O.Valid(w.owner) && Connected(w) && Current(w.conns).pendingAck.Some?
    ensures var e := PushAck(|w.conns| - 1); Enabled(w, e) && Advances(w, Do(w, e))
  {
    hide O.Valid, O.Enabled, O.Step;
  }

  lemma ReadAckWorks(w: World)
    requires O.Valid(w.owner) && Connected(w) && Current(w.conns).acks != []
    ensures Enabled(w, ReadAck) && Advances(w, Do(w, ReadAck))
  {
    hide O.Valid, O.Enabled, O.Step, Newer;
  }

  lemma TurnWorks(w: World, fb: Frame)
    requires Inv(w) && Connected(w) && !Drained(w)
    ensures O.Valid(w.owner) && Pending.WritesValid(w.owner.pending)
    ensures var e := Turn(w, fb); Enabled(w, e) && Inv(Do(w, e)) && Advances(w, Do(w, e))
  {
    hide Inv, O.Valid, Enabled, Do, Advances, Pending.WritesValid, Pending.WriteBuf, NextUnsent;
    PendingValid(w);
    var c := Current(w.conns);
    if w.owner.pending.chunks != [] { WriteWorks(w); }
    else if w.cmds != [] { DequeueWorks(w, fb); }
    else if c.busy != [] { HandOverWorks(w); }
    else if c.up != [] { ReadWorks(w); }
    else if NextUnsent(w.net.unacked, w.net.sentSeq).Some? { SendWorks(w); }
    else if c.ackSeen != w.owner.lastSeq { SeeWorks(w); }
    else if c.pendingAck.Some? { PushWorks(w); }
    else { ReadAckWorks(w); }
    DoKeeps(w, Turn(w, fb));
  }

  // ---------- doing all of it ----------

  function After(w: World, fb: Frame): (t: World)
    requires Inv(w) && Connected(w) && !Drained(w)
    ensures Inv(t) && Advances(w, t)
  {
    TurnWorks(w, fb);
    Do(w, Turn(w, fb))
  }

  // The work that is left, piece by piece.
  function Drain(w: World, fb: Frame): (events: seq<Event>)
    requires Inv(w) && Connected(w)
    decreases LeftOf(w).unsent, LeftOf(w).up, LeftOf(w).busy, LeftOf(w).cmds, LeftOf(w).chunks,
      LeftOf(w).unseen, LeftOf(w).unpushed, LeftOf(w).acks
  {
    if Drained(w) then []
    else
      PendingValid(w);
      [Turn(w, fb)] + Drain(After(w, fb), fb)
  }

  lemma TurnIsWork(w: World, fb: Frame)
    requires w.conns != [] && Pending.WritesValid(w.owner.pending)
    ensures Work(Turn(w, fb))
  {
  }

  lemma {:induction false} DrainIsWork(w: World, fb: Frame)
    requires Inv(w) && Connected(w)
    ensures forall e <- Drain(w, fb) :: Work(e)
    decreases LeftOf(w).unsent, LeftOf(w).up, LeftOf(w).busy, LeftOf(w).cmds, LeftOf(w).chunks,
      LeftOf(w).unseen, LeftOf(w).unpushed, LeftOf(w).acks
  {
    hide Inv, Turn, Drained, After, Work, Pending.WritesValid;
    if !Drained(w) {
      PendingValid(w);
      TurnIsWork(w, fb);
      DrainIsWork(After(w, fb), fb);
    }
  }

  lemma RunFirst(w: World, e: Event, more: seq<Event>)
    requires Inv(w) && Enabled(w, e)
    ensures Inv(Do(w, e)) && Run(w, [e] + more) == Run(Do(w, e), more)
  {
    hide Inv, Enabled, Do;
    DoKeeps(w, e);
    assert ([e] + more)[1..] == more;
  }

  lemma {:induction false} DrainDrains(w: World, fb: Frame)
    requires Inv(w) && Connected(w)
    ensures var r := Run(w, Drain(w, fb)); Connected(r) && Drained(r) && r.log == w.log
    decreases LeftOf(w).unsent, LeftOf(w).up, LeftOf(w).busy, LeftOf(w).cmds, LeftOf(w).chunks,
      LeftOf(w).unseen, LeftOf(w).unpushed, LeftOf(w).acks
  {
    hide Inv, Enabled, Do, Turn, Drained;
    if !Drained(w) {
      TurnWorks(w, fb);
      var t := After(w, fb);
      RunFirst(w, Turn(w, fb), Drain(t, fb));
      DrainDrains(t, fb);
    }
  }

  // Everything typed has reached the terminal, once and in order, and the client knows that
  // it was accepted.
  predicate Delivered(w: World) {
    && w.net.unacked == [] && w.owner.accepted == w.log
    && O.Inputs(w.owner.past) == w.log && w.owner.written == O.Flat(w.owner.past)
  }

  lemma DrainedDelivers(w: World)
    requires Inv(w) && Connected(w) && Drained(w)
    ensures Quiet(w) && Delivered(w)
  {
    assert Quiet(w) by { assert Stream(Current(w.conns)) == []; }
    QuietMeansDone(w);
    TerminalHasAll(w);
  }

  // While the connection works, what is left can be done without another keystroke, another
  // connection or another failure, and then everything typed is delivered.
  lemma CanFinish(w: World, fb: Frame)
    requires Inv(w) && Connected(w)
    ensures var r := Run(w, Drain(w, fb)); Quiet(r) && Delivered(r) && r.log == w.log
    ensures forall e <- Drain(w, fb) :: Work(e)
  {
    hide Inv, Run, Drain, Connected, Drained, Delivered, Quiet, Work;
    DrainIsWork(w, fb);
    DrainDrains(w, fb);
    DrainedDelivers(Run(w, Drain(w, fb)));
  }

  // A new connection, and the handshake on it.
  function Reconnecting(w: World): seq<Event> { [Open, Claim(|w.conns|)] }

  lemma ReconnectConnects(w: World)
    requires Inv(w) && w.owner.alive && !w.net.hungup
    ensures var r := Run(w, Reconnecting(w)); Connected(r) && r.log == w.log
  {
    hide Inv, O.Valid, O.Enabled, O.Step;
    PendingValid(w);
    var t := Do(w, Open);
    RunFirst(w, Open, [Claim(|w.conns|)]);
    PendingValid(t);
    RunFirst(t, Claim(|w.conns|), []);
    assert [Open] + [Claim(|w.conns|)] == Reconnecting(w);
    assert [Claim(|w.conns|)] + [] == [Claim(|w.conns|)];
  }

  // Whatever was lost before - connections, handlers, acknowledgements, screens - a new
  // connection completes delivery, as long as the owner lives and the client did not hang up.
  lemma ReconnectFinishes(w: World, fb: Frame)
    requires Inv(w) && w.owner.alive && !w.net.hungup
    ensures var t := Run(w, Reconnecting(w));
            Connected(t) && var r := Run(t, Drain(t, fb)); Quiet(r) && Delivered(r) && r.log == w.log
  {
    ReconnectConnects(w);
    hide Run, Drain, Quiet, Delivered, Inv;
    CanFinish(Run(w, Reconnecting(w)), fb);
  }
}
