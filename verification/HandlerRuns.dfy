/**
 The handler's loops are runs of the session protocol: draining the receive buffer is a
 sequence of reads, draining the waiting records a sequence of hand-overs, one event for each
 turn of the loop.
 */
module HandlerRuns {
  import opened Wrappers
  import opened ClientNet
  import opened Messages
  import opened Protocol
  import F = Framing
  import O = SessionOwner
  import T = Transport

  // A frame as the protocol sees it.
  function UpOf(f: F.Frame): Up {
    if f.typ == MSG_INPUT && DecodeInput(f.payload).Some? then Up.Input(DecodeInput(f.payload).value)
    else if f.typ == MSG_ACK_STATE && DecodeNumber(f.payload).Some? then AckState(DecodeNumber(f.payload).value)
    else Other
  }

  function UpsOf(frames: seq<F.Frame>): (r: seq<Up>)
    ensures |r| == |frames| && forall k :: 0 <= k < |frames| ==> r[k] == UpOf(frames[k])
  {
    seq(|frames|, k requires 0 <= k < |frames| => UpOf(frames[k]))
  }

  // Handler `i` of a world, as the objects have it: its waiting records and the desk.
  predicate Agrees(w: World, i: nat, d: T.Desk, l: T.Line) {
    && Live(w, i) && w.conns[i].busy == l.busy
    && w.cmds == d.cmds && w.lastAcked == d.lastAcked && w.owner.alive == !d.closed
  }

  // And it is the session's present handler, with the complete frames of its buffer in front
  // of what is still under way.
  predicate Matches(w: World, i: nat, d: T.Desk, l: T.Line) {
    Agrees(w, i, d, l) && w.conns[i].claim == d.epoch && UpsOf(F.Parse(l.leftover).frames) <= w.conns[i].up
  }

  // Inputs of a session are of legal size, so no handler ever fails on one.
  lemma ReadIsLegal(w: World, i: nat, m: Message)
    requires Inv(w) && i < |w.conns| && w.conns[i].up != [] && w.conns[i].up[0] == Up.Input(m)
    ensures T.LegalInput(m.data)
  {
    var c := w.conns[i];
    KeptAt(w, i);
    assert UpInputs(c.up)[0] == m && Stream(c)[|c.busy|] == m;
    assert Genuine(m, w.log);
  }

  // One frame, as the handler takes it and as the protocol does.
  lemma ControlAgrees(w: World, i: nat, d: T.Desk, l: T.Line, f: F.Frame)
    requires Agrees(w, i, d, l) && w.conns[i].up != [] && w.conns[i].up[0] == UpOf(f)
    requires UpOf(f).Input? ==> T.LegalInput(UpOf(f).message.data)
    ensures var s := T.OnControl(d, l, d.epoch, f);
            && s.ok && s.desk.epoch == d.epoch && s.line.leftover == l.leftover
            && Agrees(ReadOne(w, i), i, s.desk, s.line) && ReadOne(w, i).conns[i].up == w.conns[i].up[1..]
  {
    hide DecodeInput, DecodeNumber, DecodeResize;
  }

  lemma ReadEnabled(w: World, i: nat, d: T.Desk, l: T.Line, f: F.Frame)
    requires Inv(w) && Agrees(w, i, d, l) && w.conns[i].up != [] && w.conns[i].up[0] == UpOf(f)
    requires f.typ == MSG_INPUT ==> T.BusyBytes(l.busy) < T.BUSY_CAP
    ensures Enabled(w, Read(i)) && Inv(Do(w, Read(i))) && Do(w, Read(i)) == ReadOne(w, i)
  {
    hide Inv, ReadOne;
    DoKeeps(w, Read(i));
  }

  lemma OneRead(w: World, i: nat, d: T.Desk, l: T.Line)
    requires Inv(w) && Matches(w, i, d, l) && F.SplitFrame(l.leftover).Got? && !T.Stops(d, l, d.epoch)
    ensures Enabled(w, Read(i)) && Inv(Do(w, Read(i)))
    ensures var split := F.SplitFrame(l.leftover);
            var s := T.OnControl(d, l.(leftover := split.rest), d.epoch, split.frame);
            s.ok && s.desk.epoch == d.epoch && s.line.leftover == split.rest && Matches(Do(w, Read(i)), i, s.desk, s.line)
  {
    var f, rest := F.SplitFrame(l.leftover).frame, F.SplitFrame(l.leftover).rest;
    var frames, later := F.Parse(l.leftover).frames, F.Parse(rest).frames;
    assert frames == [f] + later;
    var up := w.conns[i].up;
    assert up[0] == UpsOf(frames)[0] == UpOf(f);
    PrefixTail(UpsOf(frames), up);
    assert UpsOf(frames)[1..] == UpsOf(later);
    hide Inv, F.SplitFrame, F.Parse, UpsOf, UpOf, T.OnControl, ReadOne, Enabled, Do;
    if up[0].Input? { ReadIsLegal(w, i, up[0].message); }
    ControlAgrees(w, i, d, l.(leftover := rest), f);
    ReadEnabled(w, i, d, l, f);
  }

  lemma PrefixTail(a: seq<Up>, b: seq<Up>)
    requires a != [] && a <= b
    ensures a[1..] <= b[1..]
  {
    assert b[1..][..|a| - 1] == b[..|a|][1..];
  }

  // How many frames a drain takes out.
  function Taken(d: T.Desk, l: T.Line): nat
    decreases |l.leftover|
  {
    if T.Stops(d, l, d.epoch) || !F.SplitFrame(l.leftover).Got? then 0
    else
      var split := F.SplitFrame(l.leftover);
      var s := T.OnControl(d, l.(leftover := split.rest), d.epoch, split.frame);
      if s.ok && s.line.leftover == split.rest then 1 + Taken(s.desk, s.line) else 0
  }

  function Times(e: Event, n: nat): (r: seq<Event>)
    ensures |r| == n && forall k :: 0 <= k < n ==> r[k] == e
  {
    seq(n, _ => e)
  }

  lemma OneMore(w: World, e: Event, n: nat)
    requires Inv(w) && Enabled(w, e)
    ensures Inv(Do(w, e)) && Run(w, Times(e, n + 1)) == Run(Do(w, e), Times(e, n))
  {
    DoKeeps(w, e);
    assert Times(e, n + 1)[1..] == Times(e, n);
  }

  // Draining the buffer never fails and is that many reads.
  lemma {:induction false} DrainIsReads(w: World, i: nat, d: T.Desk, l: T.Line)
    requires Inv(w) && Matches(w, i, d, l) && !F.Parse(l.leftover).broken
    ensures var s := T.DrainLeftover(d, l, d.epoch);
            s.ok && Matches(Run(w, Times(Read(i), Taken(d, l))), i, s.desk, s.line)
    decreases |l.leftover|
  {
    if !T.Stops(d, l, d.epoch) {
      OneRead(w, i, d, l);
      var split := F.SplitFrame(l.leftover);
      var s := T.OnControl(d, l.(leftover := split.rest), d.epoch, split.frame);
      OneMore(w, Read(i), Taken(s.desk, s.line));
      hide Inv, Enabled, Do, Run, Matches, T.OnControl, T.Stops;
      DrainIsReads(Do(w, Read(i)), i, s.desk, s.line);
    }
  }

  lemma {:induction false} HandOverMany(w: World, i: nat, d: T.Desk, l: T.Line, k: nat)
    requires Inv(w) && Agrees(w, i, d, l) && !d.closed && k <= |l.busy| && |d.cmds| + k <= T.CMD_Q
    ensures Agrees(Run(w, Times(HandOver(i), k)), i, d.(cmds := d.cmds + T.AsCmds(l.busy[..k])), l.(busy := l.busy[k..]))
    decreases k
  {
    hide Inv, Enabled, Run, Agrees, T.AsCmds;
    if k == 0 {
      NoneLeft(w, i, d, l);
    } else {
      OneHandOver(w, i, d, l);
      OneMore(w, HandOver(i), k - 1);
      T.CmdsStep(d.cmds, l.busy, k);
      HandOverMany(Do(w, HandOver(i)), i, d.(cmds := d.cmds + [T.Input(l.busy[0])]), l.(busy := l.busy[1..]), k - 1);
    }
  }

  // Draining the waiting records is as many hand-overs as there are records and room. It makes
  // no difference whether the handler was replaced in the meantime.
  lemma HandOverIsEvents(w: World, i: nat, d: T.Desk, l: T.Line)
    requires Inv(w) && Agrees(w, i, d, l) && !d.closed
    ensures var k := Min(|l.busy|, SaturatingSub(T.CMD_Q, |d.cmds|));
            var r := T.DrainBusy(d, l);
            Agrees(Run(w, Times(HandOver(i), k)), i, r.0, r.1)
  {
    BusyIsLegal(w, i);
    T.BusyGoesInOrder(d, l);
    NoneLeft(w, i, d, l);
    hide Inv, Agrees, Run, T.DrainBusy, T.AsCmds;
    if |d.cmds| <= T.CMD_Q {
      HandOverMany(w, i, d, l, Min(|l.busy|, T.CMD_Q - |d.cmds|));
    }
  }

  lemma NoneLeft(w: World, i: nat, d: T.Desk, l: T.Line)
    requires Inv(w)
    ensures Run(w, Times(HandOver(i), 0)) == w
    ensures d.(cmds := d.cmds + T.AsCmds(l.busy[..0])) == d && l.(busy := l.busy[0..]) == l
  {
    assert d.cmds + T.AsCmds(l.busy[..0]) == d.cmds && l.busy[0..] == l.busy;
  }

  lemma HandOverDoes(w: World, i: nat)
    requires O.Valid(w.owner) && Enabled(w, HandOver(i))
    ensures var c := w.conns[i];
            Do(w, HandOver(i)) == w.(cmds := w.cmds + [T.Input(c.busy[0])], conns := w.conns[i := c.(busy := c.busy[1..])])
  {
  }

  lemma OneHandOver(w: World, i: nat, d: T.Desk, l: T.Line)
    requires Inv(w) && Agrees(w, i, d, l) && !d.closed && l.busy != [] && |d.cmds| < T.CMD_Q
    ensures Enabled(w, HandOver(i)) && Inv(Do(w, HandOver(i)))
    ensures Agrees(Do(w, HandOver(i)), i, d.(cmds := d.cmds + [T.Input(l.busy[0])]), l.(busy := l.busy[1..]))
  {
    DoKeeps(w, HandOver(i));
    HandOverDoes(w, i);
    hide Inv, Do, F.Parse, UpsOf;
  }

  lemma BusyIsLegal(w: World, i: nat)
    requires Inv(w) && i < |w.conns|
    ensures T.LegalBusy(w.conns[i].busy)
  {
    var busy := w.conns[i].busy;
    KeptAt(w, i);
    forall k | 0 <= k < |busy| ensures T.LegalInput(busy[k].data) {
      assert Genuine(Stream(w.conns[i])[k], w.log);
    }
  }
}
