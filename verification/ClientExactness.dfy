/**
 The exactness of prediction, for the client itself. While its user edits one line at the
 remote end, every event of the client moves its predictor as `LineEditorRuns` has it; so no
 overlay of a client is ever refuted, and its display shows the line the remote will show.
 */
module ClientExactness {
  import opened Wrappers
  import opened Bytes
  import opened Frames
  import opened ClientNet
  import opened Messages
  import opened ClientState
  import R = ClientRuns
  import F = Framing
  import P = Prediction
  import I = PredictionInvariants
  import E = LineEditor
  import L = LineEditorRuns

  // Same predictor, same screen, as many messages.
  predicate Alike(c: Client, w: L.World) {
    && c.predictor == w.p && c.net.confirmed.Some? && c.net.confirmed.value.frame == w.screen
    && |w.history| == c.net.seqNo + 1
  }

  // The client is where the world of the line editor is, and what is typed next is typed over
  // the painted screen.
  predicate Matches(c: Client, w: L.World) { Alike(c, w) && R.Basis(c) == P.Apply(w.p, w.screen) }

  predicate Follows(c: Client, w: L.World) { R.Sane(c) && L.Good(w) && Matches(c, w) }

  function ActsOf(keys: seq<E.Key>): (acts: seq<seq<P.Act>>)
    ensures |acts| == |keys| && forall k :: 0 <= k < |keys| ==> acts[k] == E.Acts(keys[k])
  {
    seq(|keys|, k requires 0 <= k < |keys| => E.Acts(keys[k]))
  }

  // An event of the client, with what it means to the editor: the keys of a message, and the
  // number of messages a screen reflects.
  datatype Happening = Happening(e: R.Event, keys: seq<E.Key>, reflected: nat)

  // A screen is shown under another context than before.
  predicate ChangesContext(c: Client, e: R.Event, decode: Decoder) {
    R.CarriedContext(e, decode).Some? && R.Carried(e, decode).Some? && c.shared != R.CarriedContext(e, decode)
  }

  // What happens to the world of the editor.
  function Meant(c: Client, h: Happening, decode: Decoder): seq<L.Event> {
    match h.e
    case Typed(_, _, now) => [L.Message(h.keys, now)]
    case Ticked(_, now) => if P.Active(c.predictor) then [L.Tick(now)] else []
    case Dropped => [L.Cleared]
    case Control(f, interval, now) =>
      if R.Carried(h.e, decode).Some? then MeantByScreen(c, h, decode)
      else if f.typ == MSG_PONG && c.pingSent then [L.LinkSpeed(interval)]
      else []
    case Datagram(_, _) => if R.Carried(h.e, decode).Some? then MeantByScreen(c, h, decode) else []
    case _ => []
  }

  // A stale screen means nothing; one of another context drops the overlays first.
  function MeantByScreen(c: Client, h: Happening, decode: Decoder): seq<L.Event>
    requires (h.e.Control? || h.e.Datagram?) && R.Carried(h.e, decode).Some?
  {
    var s := R.Carried(h.e, decode).value;
    if R.Stale(c, h.e, decode) then []
    else (if ChangesContext(c, h.e, decode) then [L.Cleared] else [])
         + [L.Screen(s.frame, h.reflected, s.echoAck, h.e.now)]
  }

  // The event is one of the client's, a message is short enough to be predicted and made of
  // the keys, prediction stays allowed, and the world of the editor can go along.
  predicate Fair(c: Client, w: L.World, h: Happening, decode: Decoder)
    requires L.Good(w)
  {
    && R.Possible(c, h.e, decode)
    && (h.e.Typed? ==> h.e.acts == ActsOf(h.keys) && |h.keys| <= PASTE_BYTES)
    && (ChangesContext(c, h.e, decode) && !R.Stale(c, h.e, decode) ==> R.CarriedContext(h.e, decode).value.allowed)
    && L.AllPossible(w, Meant(c, h, decode))
  }

  // ---------- typing ----------

  lemma {:induction false} BytesAreKeys(p: P.State, keys: seq<E.Key>, basis: Frame, now: nat)
    requires P.Shaped(p)
    ensures TypeBytes(p, ActsOf(keys), basis, now) == L.TypeKeys(p, keys, basis, now)
    decreases |keys|
  {
    if keys != [] {
      assert ActsOf(keys)[1..] == ActsOf(keys[1..]);
      BytesAreKeys(P.NewUserByte(p, E.Acts(keys[0]), basis, now), keys[1..], basis, now);
    }
  }

  // Prediction is allowed: the world of the editor has a predictor that predicts.
  lemma FollowerPredicts(c: Client, w: L.World)
    requires Follows(c, w)
    ensures P.Shaped(c.predictor) && !c.never && !Disallowed(c.shared) && c.predictor.preference == P.Adaptive
  {
  }

  lemma TypedMatches(c: Client, w: L.World, data: Bytes, keys: seq<E.Key>, now: nat)
    requires Follows(c, w) && P.Shaped(c.predictor) && !Disallowed(c.shared)
    requires L.Possible(w, L.Message(keys, now)) && |keys| == |data| && |keys| <= PASTE_BYTES
    ensures Matches(QueueInput(c, data, ActsOf(keys), now), L.Moved(w, L.Message(keys, now)))
  {
    hide R.Sane, P.RowsShaped, P.CursorsShaped, TypeBytes, L.TypeKeys, P.Apply;
    BytesAreKeys(c.predictor.(sent := c.net.seqNo), keys, R.Basis(c), now);
  }

  // ---------- screens ----------

  // What a screen that is not stale does, on every path.
  lemma FreshScreen(c: Client, e: R.Event, decode: Decoder)
    requires P.Shaped(c.predictor) && R.Possible(c, e, decode) && R.Carried(e, decode).Some? && !R.Stale(c, e, decode)
    ensures var d := match R.CarriedContext(e, decode) case None => c case Some(x) => EnterContext(c, x);
            R.Step(c, e, decode) == ApplyScreen(d, R.Carried(e, decode).value, e.now)
  {
    hide ApplyScreen, EnterContext, P.RowsShaped, P.CursorsShaped;
    if e.Control? {
      if e.frame.typ == MSG_SHARED_SCREEN {
      } else {
      }
    } else if SHARED_SCREEN_MAGIC <= e.bytes {
    } else {
    }
  }

  lemma ScreenMatches(c: Client, w: L.World, s: Screen, reflected: nat, now: nat)
    requires Alike(c, w) && P.Shaped(c.predictor) && L.Good(w) && ApplyNewer(c.net.confirmed, s).Some?
    requires L.Possible(w, L.Screen(s.frame, reflected, s.echoAck, now))
    ensures Matches(ApplyScreen(c, s, now), L.Moved(w, L.Screen(s.frame, reflected, s.echoAck, now)))
  {
    hide L.Good, P.Cull, P.Apply, P.RowsShaped, P.CursorsShaped, L.Possible;
  }

  lemma ContextAlike(c: Client, w: L.World, context: Context)
    requires Alike(c, w) && P.Shaped(c.predictor) && L.Good(w) && L.Possible(w, L.Cleared)
    requires !c.never && context.allowed && c.predictor.preference == P.Adaptive && c.shared != Some(context)
    ensures Alike(EnterContext(c, context), L.Moved(w, L.Cleared))
  {
    hide L.Good, P.RowsShaped, P.CursorsShaped, L.Possible;
  }

  // ---------- the other events ----------

  lemma BareApplies(p: P.State, fb: Frame)
    requires p.overlays == [] && p.cursors == []
    ensures P.Apply(p, fb) == fb
  {
  }

  lemma DroppedMatches(c: Client, w: L.World)
    requires Follows(c, w) && L.Possible(w, L.Cleared)
    ensures Matches(Reset(c), L.Moved(w, L.Cleared))
  {
    hide R.Sane, L.Good, L.Possible, P.Apply;
    BareApplies(P.Reset(w.p), w.screen);
  }

  lemma SameViewMatches(c: Client, d: Client, w: L.World)
    requires Matches(c, w) && SameView(d, c)
    ensures Matches(d, w)
  {
  }

  lemma TickMatches(c: Client, w: L.World, due: bool, now: nat)
    requires Follows(c, w) && P.Shaped(c.predictor)
    ensures L.Possible(w, L.Tick(now))
    ensures Matches(Tick(c, due, now), if P.Active(c.predictor) then L.Moved(w, L.Tick(now)) else w)
  {
    hide R.Sane, L.Good, P.Cull, P.Apply, P.RowsShaped, P.CursorsShaped, Tick, P.Active;
    TickView(c, due, now);
    SameViewMatches(Reconcile(c, now), Tick(c, due, now), if P.Active(c.predictor) then L.Moved(w, L.Tick(now)) else w);
  }

  lemma TickView(c: Client, due: bool, now: nat)
    requires P.Shaped(c.predictor)
    ensures SameView(Tick(c, due, now), Reconcile(c, now))
  {
  }

  // What the editor does not see.
  predicate SameSeen(a: Client, b: Client) {
    && a.predictor == b.predictor && a.display == b.display
    && a.net.confirmed == b.net.confirmed && a.net.seqNo == b.net.seqNo
  }

  // Frames that carry no screen and answer no ping.
  lemma QuietFrame(c: Client, f: F.Frame, decode: Decoder, interval: nat, now: nat)
    requires P.Shaped(c.predictor) && R.Carried(R.Control(f, interval, now), decode).None?
    requires f.typ != MSG_PONG || !c.pingSent
    ensures SameSeen(HandleFrame(c, f, decode, interval, now).client, c)
  {
    hide DecodeShared, ApplyScreen, ApplySharedScreen, P.RowsShaped, P.CursorsShaped, DecodeNumber, Newer, AsSigned;
  }

  lemma IntervalMatches(c: Client, w: L.World, interval: nat)
    requires Matches(c, w) && L.Good(w)
    ensures L.Possible(w, L.LinkSpeed(interval))
    ensures Matches(c.(pingSent := false, predictor := c.predictor.(sendInterval := interval)), L.Moved(w, L.LinkSpeed(interval)))
  {
    hide L.Good, P.PaintRows, P.PaintCursors;
  }

  lemma QuietFrameMatches(c: Client, w: L.World, f: F.Frame, decode: Decoder, interval: nat, now: nat)
    requires Matches(c, w) && P.Shaped(c.predictor) && R.Carried(R.Control(f, interval, now), decode).None?
    requires L.Good(w)
    ensures L.Possible(w, L.LinkSpeed(interval))
    ensures var r := HandleFrame(c, f, decode, interval, now).client;
            Matches(r, if f.typ == MSG_PONG && c.pingSent then L.Moved(w, L.LinkSpeed(interval)) else w)
  {
    hide L.Good, P.Apply, DecodeShared, ApplyScreen, ApplySharedScreen, P.RowsShaped, P.CursorsShaped;
    IntervalMatches(c, w, interval);
    if f.typ == MSG_PONG && c.pingSent {
      assert HandleFrame(c, f, decode, interval, now)
        == Going(c.(pingSent := false, predictor := c.predictor.(sendInterval := interval)));
    } else {
      QuietFrame(c, f, decode, interval, now);
    }
  }

  // ---------- each event ----------

  lemma RunOne(w: L.World, e: L.Event)
    requires L.Good(w) && L.AllPossible(w, [e])
    ensures L.Possible(w, e) && L.Run(w, [e]) == L.Moved(w, e) && L.Good(L.Moved(w, e))
  {
    hide L.Good, L.Possible, L.Moved;
    assert [e][1..] == [];
  }

  lemma RunTwo(w: L.World, e: L.Event, f: L.Event)
    requires L.Good(w) && L.AllPossible(w, [e] + [f])
    ensures L.Possible(w, e) && L.Good(L.Moved(w, e)) && L.AllPossible(L.Moved(w, e), [f])
    ensures L.Run(w, [e] + [f]) == L.Run(L.Moved(w, e), [f])
  {
    hide L.Good, L.Possible, L.Moved;
    assert ([e] + [f])[1..] == [f];
  }

  lemma StaysPut(w: L.World)
    requires L.Good(w)
    ensures L.AllPossible(w, []) && L.Run(w, []) == w
  {
  }

  lemma MatchesAlike(c: Client, w: L.World)
    requires Matches(c, w)
    ensures Alike(c, w)
  {
  }

  lemma ScreenFollows(c: Client, w: L.World, h: Happening, decode: Decoder)
    requires Follows(c, w) && Fair(c, w, h, decode) && P.Shaped(c.predictor)
    requires (h.e.Control? || h.e.Datagram?) && R.Carried(h.e, decode).Some? && !R.Stale(c, h.e, decode)
    ensures Matches(R.Step(c, h.e, decode), L.Run(w, MeantByScreen(c, h, decode)))
  {
    hide R.Sane, L.Good, L.Possible, L.Moved, L.Run, R.Step, ApplyScreen, R.Carried, R.CarriedContext, P.Shaped, Matches;
    FollowerPredicts(c, w);
    FreshScreen(c, h.e, decode);
    MatchesAlike(c, w);
    var s, context := R.Carried(h.e, decode).value, R.CarriedContext(h.e, decode);
    var seen := L.Screen(s.frame, h.reflected, s.echoAck, h.e.now);
    if ChangesContext(c, h.e, decode) {
      RunTwo(w, L.Cleared, seen);
      var w1 := L.Moved(w, L.Cleared);
      RunOne(w1, seen);
      ContextAlike(c, w, context.value);
      ScreenMatches(EnterContext(c, context.value), w1, s, h.reflected, h.e.now);
    } else {
      assert [] + [seen] == [seen];
      RunOne(w, seen);
      ScreenMatches(c, w, s, h.reflected, h.e.now);
    }
  }

  lemma ReceivedFollows(c: Client, w: L.World, h: Happening, decode: Decoder)
    requires Follows(c, w) && Fair(c, w, h, decode) && P.Shaped(c.predictor) && (h.e.Control? || h.e.Datagram?)
    ensures Matches(R.Step(c, h.e, decode), L.Run(w, Meant(c, h, decode)))
  {
    hide R.Sane, L.Good, L.Possible, L.Run, L.Moved, L.AllPossible, HandleFrame, ApplyScreen, ApplySharedScreen, Matches;
    hide P.RowsShaped, P.CursorsShaped, R.Stale;
    StaysPut(w);
    if R.Carried(h.e, decode).Some? {
      if R.Stale(c, h.e, decode) {
        R.StaleChangesNothing(c, h.e, decode);
      } else {
        ScreenFollows(c, w, h, decode);
      }
    } else if h.e.Control? {
      var f, interval := h.e.frame, h.e.interval;
      QuietFrameMatches(c, w, f, decode, interval, h.e.now);
      if f.typ == MSG_PONG && c.pingSent { RunOne(w, L.LinkSpeed(interval)); }
    }
  }

  // Every event of the client moves it as the world of the editor moves.
  lemma StepFollows(c: Client, w: L.World, h: Happening, decode: Decoder)
    requires Follows(c, w) && Fair(c, w, h, decode)
    ensures P.Shaped(c.predictor)
    ensures Follows(R.Step(c, h.e, decode), L.Run(w, Meant(c, h, decode)))
  {
    hide R.Sane, L.Good, L.Moved, L.Possible, L.Run, L.AllPossible, Matches, QueueInput, Tick, Reset, P.Active;
    hide HandleFrame, RecvDatagram, P.RowsShaped, P.CursorsShaped, R.Carried;
    FollowerPredicts(c, w);
    R.StepSane(c, h.e, decode);
    StaysPut(w);
    match h.e
    case Typed(data, acts, now) =>
      RunOne(w, L.Message(h.keys, now));
      TypedMatches(c, w, data, h.keys, now);
    case Ticked(due, now) =>
      TickMatches(c, w, due, now);
      if P.Active(c.predictor) { RunOne(w, L.Tick(now)); }
    case Dropped =>
      RunOne(w, L.Cleared);
      DroppedMatches(c, w);
    case Control(_, _, _) => ReceivedFollows(c, w, h, decode);
    case Datagram(_, _) => ReceivedFollows(c, w, h, decode);
    case _ => SameViewMatches(c, R.SendingStep(c, h.e), w);
  }

  // ---------- whole runs ----------

  lemma {:induction false} RunAppend(w: L.World, a: seq<L.Event>, b: seq<L.Event>)
    requires L.Good(w) && L.AllPossible(w, a) && L.AllPossible(L.Run(w, a), b)
    ensures L.AllPossible(w, a + b) && L.Run(w, a + b) == L.Run(L.Run(w, a), b)
    decreases |a|
  {
    hide L.Good, L.Possible, L.Next;
    if a == [] {
      assert a + b == b;
    } else {
      FirstOfBoth(a, b);
      RunAppend(L.Next(w, a[0]), a[1..], b);
    }
  }

  function EventsOf(hs: seq<Happening>): (events: seq<R.Event>)
    ensures |events| == |hs|
  {
    if hs == [] then [] else [hs[0].e] + EventsOf(hs[1..])
  }

  // All that happens is fair when it happens.
  predicate AllFair(c: Client, w: L.World, hs: seq<Happening>, decode: Decoder)
    requires Follows(c, w)
    decreases |hs|
  {
    hs == [] ||
    (Fair(c, w, hs[0], decode) &&
     (StepFollows(c, w, hs[0], decode);
      AllFair(R.Step(c, hs[0].e, decode), L.Run(w, Meant(c, hs[0], decode)), hs[1..], decode)))
  }

  // What all of it means to the editor.
  function AllMeant(c: Client, w: L.World, hs: seq<Happening>, decode: Decoder): seq<L.Event>
    requires Follows(c, w) && AllFair(c, w, hs, decode)
    decreases |hs|
  {
    if hs == [] then []
    else
      StepFollows(c, w, hs[0], decode);
      Meant(c, hs[0], decode)
      + AllMeant(R.Step(c, hs[0].e, decode), L.Run(w, Meant(c, hs[0], decode)), hs[1..], decode)
  }

  // In every run the client is where the editor is, and nothing it predicts is ever judged
  // wrong.
  lemma {:induction false} ClientNeverRefuted(c: Client, w: L.World, hs: seq<Happening>, decode: Decoder)
    requires Follows(c, w) && AllFair(c, w, hs, decode)
    ensures var es := AllMeant(c, w, hs, decode);
            && L.AllPossible(w, es) && L.AllSound(w, es)
            && Follows(R.Run(c, EventsOf(hs), decode), L.Run(w, es))
    decreases |hs|
  {
    hide R.Sane, L.Good, L.AllPossible, L.AllSound, L.Run, R.Step, R.Possible, Matches, Meant, P.RowsShaped, P.CursorsShaped;
    StaysPut(w);
    if hs != [] {
      var e := hs[0].e;
      StepFollows(c, w, hs[0], decode);
      var d, v := R.Step(c, e, decode), L.Run(w, Meant(c, hs[0], decode));
      ClientNeverRefuted(d, v, hs[1..], decode);
      RunAppend(w, Meant(c, hs[0], decode), AllMeant(d, v, hs[1..], decode));
      assert EventsOf(hs)[1..] == EventsOf(hs[1..]);
    }
    L.NeverRefuted(w, AllMeant(c, w, hs, decode));
  }

  // And once predictions are trusted and shown, what the client displays is what the remote
  // will show, but for columns known to be unknown.
  lemma ClientShowsTheFuture(c: Client, w: L.World)
    requires Follows(c, w) && L.Trusted(w) && P.Showing(w.p) && c.display.Some?
    ensures var d := c.display.value;
            && d.rows == w.p.height && d.cols == w.p.width
            && d.cursorRow == w.row && d.cursorCol == E.Now(w.history).col
            && forall i :: 0 <= i < d.cols ==>
                 (P.RowCells(w.p, w.row, 0)[i].base.active && P.RowCells(w.p, w.row, 0)[i].unknown)
                 || CellText(CellAt(d, w.row, i)) == E.Now(w.history).line[i]
  {
    hide R.Sane, L.Good, P.Apply, L.Trusted, P.RowsShaped, P.CursorsShaped;
    L.ShowsTheFuture(w);
  }

  // ---------- where it starts ----------

  // The first screen of a client that may predict, whatever was typed before it: the editor
  // after each message so far, unchanged since the one that the screen acknowledges.
  predicate Begins(c: Client, e: R.Event, decode: Decoder, row: nat, h: E.History, reflected: nat) {
    && (e.Control? || e.Datagram?) && R.Possible(c, e, decode) && R.Carried(e, decode).Some?
    && !c.never && !c.predictor.overwrite && c.net.confirmed.None? && |h| == c.net.seqNo + 1
    && (match R.CarriedContext(e, decode)
        case None => c.shared.None?
        case Some(x) => x.allowed && (c.shared.Some? ==> c.shared.value.epoch <= x.epoch))
    && var s := R.Carried(e, decode).value;
       && s.version > 0 && s.echoAck <= reflected < |h|
       && E.AllSane(h, s.frame.cols) && E.Shows(s.frame, row, h[reflected]) && L.Unchanged(h, s.echoAck)
  }

  // The client as the screen finds it, after it has taken over the context of the screen.
  function Entered(c: Client, e: R.Event, decode: Decoder): (d: Client)
    requires P.Shaped(c.predictor)
    ensures P.Shaped(d.predictor) && d.net == c.net
  {
    match R.CarriedContext(e, decode) case None => c case Some(x) => EnterContext(c, x)
  }

  lemma EnteredBare(c: Client, e: R.Event, decode: Decoder, row: nat, h: E.History, reflected: nat)
    requires R.Sane(c) && Begins(c, e, decode, row, h, reflected) && P.Shaped(c.predictor)
    ensures var d := Entered(c, e, decode);
            && R.NoOverlays(d.predictor) && I.Valid(d.predictor) && !d.predictor.overwrite && !d.predictor.preference.Never?
            && d.predictor.sent <= c.net.seqNo
  {
    hide R.Carried, R.CarriedContext, P.RowsShaped, P.CursorsShaped;
  }

  // A predictor without overlays that has seen the screen is a good place to start from.
  lemma BareBegins(p: P.State, s: Screen, row: nat, h: E.History, reflected: nat, now: nat)
    requires I.Valid(p) && R.NoOverlays(p) && !p.overwrite && !p.preference.Never? && p.sent < |h|
    requires s.echoAck <= reflected < |h|
    requires E.AllSane(h, s.frame.cols) && E.Shows(s.frame, row, h[reflected]) && L.Unchanged(h, s.echoAck)
    ensures var q := P.Cull(p.(lateAcked := s.echoAck), s.frame, now);
            L.Good(L.World(q, row, h, s.frame, reflected))
  {
    var p1 := p.(lateAcked := s.echoAck);
    R.LateAckedFree(p, s.echoAck);
    I.CullValid(p1, s.frame, now);
    BareCulled(p1, s.frame, now);
    var q := P.Cull(p1, s.frame, now);
    hide P.Cull;
    assert forall other, i :: 0 <= other < q.height && 0 <= i < q.width ==> !P.RowCells(q, other, 0)[i].base.active;
    assert E.Sane(h[reflected], s.frame.cols);
    assert E.RowTracks(P.RowCells(q, row, 0), h, q.width, q.lateAcked);
  }

  lemma BareCulled(p: P.State, fb: Frame, now: nat)
    requires P.Shaped(p) && R.NoOverlays(p) && !p.preference.Never?
    ensures var q := P.Cull(p, fb, now);
            R.NoOverlays(q) && P.Fits(q, fb) && P.SameSettings(q, p)
  {
  }

  lemma FirstMatches(d: Client, s: Screen, row: nat, h: E.History, reflected: nat, now: nat)
    requires P.Shaped(d.predictor) && d.net.confirmed.None? && s.version > 0 && |h| == d.net.seqNo + 1
    ensures var r := ApplyScreen(d, s, now);
            && r.predictor == P.Cull(d.predictor.(lateAcked := s.echoAck), s.frame, now)
            && Matches(r, L.World(r.predictor, row, h, s.frame, reflected))
  {
    hide P.Cull, P.Apply, P.RowsShaped, P.CursorsShaped;
  }

  lemma FirstIsFresh(c: Client, e: R.Event, decode: Decoder, row: nat, h: E.History, reflected: nat)
    requires Begins(c, e, decode, row, h, reflected)
    ensures !R.Stale(c, e, decode)
  {
    hide R.Carried, R.CarriedContext;
  }

  lemma FirstScreenFollows(c: Client, e: R.Event, decode: Decoder, row: nat, h: E.History, reflected: nat)
    requires R.Sane(c) && Begins(c, e, decode, row, h, reflected)
    ensures P.Shaped(c.predictor)
    ensures var r := R.Step(c, e, decode);
            Follows(r, L.World(r.predictor, row, h, R.Carried(e, decode).value.frame, reflected))
  {
    hide R.Sane, L.Good, R.Step, R.Stale, R.Carried, R.CarriedContext, P.Cull, P.Shaped, ApplyScreen, Matches;
    R.SaneShaped(c);
    R.StepSane(c, e, decode);
    var s, d := R.Carried(e, decode).value, Entered(c, e, decode);
    FirstIsFresh(c, e, decode, row, h, reflected);
    FreshScreen(c, e, decode);
    EnteredBare(c, e, decode, row, h, reflected);
    BareBegins(d.predictor, s, row, h, reflected, e.now);
    FirstMatches(d, s, row, h, reflected, e.now);
  }
}
