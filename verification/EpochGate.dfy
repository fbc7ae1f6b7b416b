/**
 The epoch gate: a prediction is drawn only once some prediction of its own epoch has been
 confirmed by a screen that could not have looked so by accident.
 */
module EpochGate {
  import opened Wrappers
  import opened Frames
  import opened Overlays
  import opened Prediction
  import opened PredictionInvariants
  import opened EpochOrder

  // ---------- evidence ----------

  // What counts as real confirmation: the prediction is due, it named a visible
  // character, the frame shows that character, and nothing the prediction replaced did.
  predicate Evidence(c: CellOverlay, fb: Frame, row: nat, lateAcked: nat) {
    && c.base.active && row < fb.rows && c.base.col < fb.cols
    && c.base.expiration <= lateAcked
    && !c.unknown
    && !IsBlank(CellText(c.replacement))
    && ContentAt(fb, row, c.base.col) == CellText(c.replacement)
    && forall i :: 0 <= i < |c.originals| ==> c.originals[i] != CellText(c.replacement)
  }

  lemma CorrectIsEvidence(c: CellOverlay, fb: Frame, row: nat, lateAcked: nat)
    ensures c.Judge(fb, row, lateAcked).Correct? <==> Evidence(c, fb, row, lateAcked)
  {
    if row < fb.rows && c.base.col < fb.cols {
      var text := CellText(c.replacement);
      assert !IsBlank(text) ==> forall o: string :: ContentsMatch(o, text) <==> o == text;
    }
  }

  // The epochs for which a walk over the cells from (r, i) on meets evidence.
  function WitnessedFrom(s: State, r: nat, i: nat, fb: Frame, now: nat): set<nat>
    requires Shaped(s) && Fits(s, fb) && r <= |s.overlays| && i <= s.width
    decreases |s.overlays| - r, s.width - i
  {
    if r == |s.overlays| then {}
    else if i == s.width then WitnessedFrom(s, r + 1, 0, fb, now)
    else
      var c := s.overlays[r].cells[i];
      var here := if Evidence(c, fb, s.overlays[r].rowNum, s.lateAcked) then {c.base.tentativeUntil} else {};
      var p := CullCell(s, r, i, fb, now);
      if p.Abandon? then here else here + WitnessedFrom(p.state, r, i + 1, fb, now)
  }

  // ---------- runs of the predictor ----------

  datatype Event =
    | Typed(acts: seq<Act>, display: Frame, now: nat)
    | Reconciled(fb: Frame, now: nat)
    | Acked(seqNo: nat)
    | Sent(seqNo: nat)
    | LinkSpeed(ms: nat)
    | Cleared
    | Preferred(preference: Preference)
    | Overwriting(overwrite: bool)

  function Step(s: State, e: Event): (r: State)
    requires Shaped(s)
    ensures Shaped(r)
  {
    match e
    case Typed(acts, display, now) => NewUserByte(s, acts, display, now)
    case Reconciled(fb, now) => Cull(s, fb, now)
    case Acked(n) => s.(lateAcked := n)
    case Sent(n) => s.(sent := n)
    case LinkSpeed(ms) => s.(sendInterval := ms)
    case Cleared => Reset(s)
    case Preferred(p) => s.(preference := p)
    case Overwriting(b) => s.(overwrite := b)
  }

  function Run(s: State, events: seq<Event>): (r: State)
    requires Shaped(s)
    ensures Shaped(r)
    decreases |events|
  {
    if events == [] then s else Run(Step(s, events[0]), events[1..])
  }

  function Witnessed(s: State, e: Event): set<nat>
    requires Shaped(s)
  {
    if s.preference.Never? then {}
    else match e
      case Typed(_, display, now) => WitnessedFrom(Triggered(Resized(s, display)), 0, 0, display, now)
      case Reconciled(fb, now) => WitnessedFrom(Triggered(Resized(s, fb)), 0, 0, fb, now)
      case _ => {}
  }

  // Nothing of epoch `gate` or later is confirmed anywhere in the run.
  predicate NeverWitnessed(s: State, events: seq<Event>, gate: nat)
    requires Shaped(s)
    decreases |events|
  {
    events == [] ||
    ((forall e :: e in Witnessed(s, events[0]) ==> e < gate) && NeverWitnessed(Step(s, events[0]), events[1..], gate))
  }

  // ---------- the confirmed epoch moves on evidence only ----------

  lemma CullCellConfirms(s: State, r: nat, i: nat, fb: Frame, now: nat)
    requires Shaped(s) && Fits(s, fb) && r < |s.overlays| && i < s.width
    ensures var c := s.overlays[r].cells[i];
            CullCell(s, r, i, fb, now).state.confirmedEpoch
            == if Evidence(c, fb, s.overlays[r].rowNum, s.lateAcked) then Max(s.confirmedEpoch, c.base.tentativeUntil)
               else s.confirmedEpoch
  {
    CorrectIsEvidence(s.overlays[r].cells[i], fb, s.overlays[r].rowNum, s.lateAcked);
  }

  lemma {:induction false} CullFromConfirms(s: State, r: nat, i: nat, fb: Frame, now: nat)
    requires Shaped(s) && Fits(s, fb) && r <= |s.overlays| && i <= s.width
    ensures var t := CullFrom(s, r, i, fb, now).state;
            && s.confirmedEpoch <= t.confirmedEpoch
            && (t.confirmedEpoch == s.confirmedEpoch || t.confirmedEpoch in WitnessedFrom(s, r, i, fb, now))
            && forall e :: e in WitnessedFrom(s, r, i, fb, now) ==> e <= t.confirmedEpoch
    decreases |s.overlays| - r, s.width - i
  {
    hide CullCell, Evidence;
    if r == |s.overlays| {
    } else if i == s.width {
      CullFromConfirms(s, r + 1, 0, fb, now);
    } else {
      CullCellConfirms(s, r, i, fb, now);
      var p := CullCell(s, r, i, fb, now);
      if p.Continue? {
        CullFromConfirms(p.state, r, i + 1, fb, now);
      }
    }
  }

  // The confirmed epoch never falls, and when it rises it rises to an epoch for which a
  // screen gave evidence in that very step.
  lemma StepConfirms(s: State, e: Event)
    requires Shaped(s)
    ensures s.confirmedEpoch <= Step(s, e).confirmedEpoch
    ensures Step(s, e).confirmedEpoch == s.confirmedEpoch || Step(s, e).confirmedEpoch in Witnessed(s, e)
    ensures forall w :: w in Witnessed(s, e) ==> w <= Step(s, e).confirmedEpoch
  {
    hide CullFrom, WitnessedFrom, DoActs;
    if !s.preference.Never? {
      match e
      case Typed(acts, display, now) =>
        CullFromConfirms(Triggered(Resized(s, display)), 0, 0, display, now);
        TypingConfirmsNothing(Cull(s, display, now), acts, display, now);
      case Reconciled(fb, now) => CullFromConfirms(Triggered(Resized(s, fb)), 0, 0, fb, now);
      case _ =>
    }
  }

  // Nobody takes back how many messages were typed.
  predicate Rises(s: State, e: Event) { e.Sent? ==> s.sent <= e.seqNo }

  predicate Rising(s: State, events: seq<Event>)
    requires Shaped(s)
    decreases |events|
  {
    events == [] || (Rises(s, events[0]) && Rising(Step(s, events[0]), events[1..]))
  }

  lemma StepValid(s: State, e: Event)
    requires Valid(s) && Rises(s, e)
    ensures Valid(Step(s, e))
  {
    match e
    case Typed(acts, display, now) => NewUserByteValid(s, acts, display, now);
    case Reconciled(fb, now) => CullValid(s, fb, now);
    case _ =>
  }

  // The confirmed epoch never falls, and no run takes it beyond the epoch of the next
  // prediction.
  lemma {:induction false} RunConfirmsMonotonically(s: State, events: seq<Event>)
    requires Shaped(s)
    ensures s.confirmedEpoch <= Run(s, events).confirmedEpoch
    ensures Valid(s) && Rising(s, events) ==>
      Valid(Run(s, events)) && Run(s, events).confirmedEpoch <= Run(s, events).predictionEpoch
    decreases |events|
  {
    if events != [] {
      StepConfirms(s, events[0]);
      RunConfirmsMonotonically(Step(s, events[0]), events[1..]);
      if Valid(s) && Rises(s, events[0]) { StepValid(s, events[0]); }
    }
  }

  // ---------- an overlay is trusted by its own epoch ----------

  // Live overlays are due in the order of their epochs, and none is older than the
  // confirmed epoch.
  ghost predicate InOrder(s: State) { Valid(s) && Ascending(s) && NoneOlder(s) }

  lemma StartInOrder()
    ensures InOrder(INITIAL) && INITIAL.confirmedEpoch < INITIAL.predictionEpoch
  {
    NoOverlaysNothingLive(INITIAL);
  }

  lemma UnmovedInOrder(s: State, t: State)
    requires InOrder(s) && Valid(t)
    requires t.overlays == s.overlays && t.cursors == s.cursors && t.confirmedEpoch == s.confirmedEpoch
    ensures InOrder(t)
    ensures forall floor: nat :: AllFrom(s, floor) ==> AllFrom(t, floor)
  {
    assert forall e: nat, d: nat :: Live(t, e, d) <==> Live(s, e, d);
  }

  lemma TypedInOrder(s: State, acts: seq<Act>, display: Frame, now: nat)
    requires InOrder(s)
    ensures var t := NewUserByte(s, acts, display, now); InOrder(t) && Grows(s, t, s.predictionEpoch)
  {
    if s.preference.Never? {
      SameOverlaysGrow(s, s, s.predictionEpoch);
    } else {
      var t := Cull(s, display, now);
      CullKeeps(s, display, now);
      TypingKeeps(t, acts, display, now);
      hide Cull, DoActs, Live;
      GrowsThen(s, t, DoActs(t, acts, display, now), s.predictionEpoch, t.predictionEpoch);
    }
  }

  // Every step keeps the order, and whatever it predicts belongs to the present epoch or a
  // later one.
  lemma StepInOrder(s: State, e: Event, floor: nat)
    requires InOrder(s) && Rises(s, e) && AllFrom(s, floor) && floor <= s.predictionEpoch
    ensures InOrder(Step(s, e)) && AllFrom(Step(s, e), floor) && floor <= Step(s, e).predictionEpoch
  {
    hide NewUserByte, Cull;
    var t := Step(s, e);
    StepValid(s, e);
    match e
    case Typed(acts, display, now) =>
      TypedInOrder(s, acts, display, now);
      AllFromKept(s, t, floor);
    case Reconciled(fb, now) =>
      CullKeeps(s, fb, now);
      AllFromKept(s, t, floor);
    case Cleared => NoOverlaysNothingLive(t);
    case _ => UnmovedInOrder(s, t);
  }

  lemma {:induction false} RunInOrder(s: State, events: seq<Event>, floor: nat)
    requires InOrder(s) && Rising(s, events) && AllFrom(s, floor) && floor <= s.predictionEpoch
    ensures InOrder(Run(s, events)) && AllFrom(Run(s, events), floor)
    decreases |events|
  {
    if events != [] {
      StepInOrder(s, events[0], floor);
      RunInOrder(Step(s, events[0]), events[1..], floor);
    }
  }

  // The epochs for which some screen of the run gave evidence.
  function ConfirmedIn(s: State, events: seq<Event>): set<nat>
    requires Shaped(s)
    decreases |events|
  {
    if events == [] then {} else Witnessed(s, events[0]) + ConfirmedIn(Step(s, events[0]), events[1..])
  }

  lemma {:induction false} RunConfirms(s: State, events: seq<Event>)
    requires Shaped(s)
    ensures s.confirmedEpoch <= Run(s, events).confirmedEpoch
    ensures Run(s, events).confirmedEpoch == s.confirmedEpoch || Run(s, events).confirmedEpoch in ConfirmedIn(s, events)
    ensures forall w :: w in ConfirmedIn(s, events) ==> w <= Run(s, events).confirmedEpoch
    decreases |events|
  {
    if events != [] {
      StepConfirms(s, events[0]);
      RunConfirms(Step(s, events[0]), events[1..]);
    }
  }

  // A live overlay is trusted exactly when a prediction of its own epoch was confirmed, in
  // the run or before it began; and that epoch is then the newest confirmed one.
  lemma TrustedByOwnEpoch(s: State, events: seq<Event>, epoch: nat, due: nat)
    requires InOrder(s) && Rising(s, events) && Live(Run(s, events), epoch, due)
    ensures epoch <= Run(s, events).confirmedEpoch <==> epoch in {s.confirmedEpoch} + ConfirmedIn(s, events)
    ensures epoch <= Run(s, events).confirmedEpoch <==> epoch == Run(s, events).confirmedEpoch
  {
    assert Shaped(s);
    hide Live, Run, ConfirmedIn, Rising, Valid, Ascending;
    RunConfirms(s, events);
    RunInOrder(s, events, 0);
  }

  // ---------- untrusted overlays are invisible ----------

  // Overlay state with everything taken out that is of none of the given epochs.
  function Gated(c: CellOverlay, epochs: set<nat>): CellOverlay {
    if c.base.tentativeUntil in epochs then c else c.(base := c.base.(active := false))
  }

  function GatedCells(cells: seq<CellOverlay>, epochs: set<nat>): seq<CellOverlay> {
    if cells == [] then [] else [Gated(cells[0], epochs)] + GatedCells(cells[1..], epochs)
  }

  function GatedRows(overlays: seq<Row>, epochs: set<nat>): seq<Row> {
    if overlays == [] then []
    else [overlays[0].(cells := GatedCells(overlays[0].cells, epochs))] + GatedRows(overlays[1..], epochs)
  }

  function GatedCursors(cursors: seq<CursorOverlay>, epochs: set<nat>): seq<CursorOverlay> {
    if cursors == [] then []
    else (if cursors[0].base.tentativeUntil in epochs then [cursors[0]] else []) + GatedCursors(cursors[1..], epochs)
  }

  function Only(s: State, epochs: set<nat>): State {
    s.(overlays := GatedRows(s.overlays, epochs), cursors := GatedCursors(s.cursors, epochs))
  }

  function Below(gate: nat): (r: set<nat>)
    ensures forall e: nat :: e in r <==> e < gate
  {
    if gate == 0 then {} else Below(gate - 1) + {gate - 1}
  }

  // What is active is of one of the epochs, or tentative.
  predicate BaseTold(b: Base, confirmed: nat, epochs: set<nat>) {
    b.active && b.tentativeUntil !in epochs ==> b.Tentative(confirmed)
  }

  predicate CellsTold(cells: seq<CellOverlay>, confirmed: nat, epochs: set<nat>) {
    forall i :: 0 <= i < |cells| ==> BaseTold(cells[i].base, confirmed, epochs)
  }

  predicate RowsTold(overlays: seq<Row>, confirmed: nat, epochs: set<nat>) {
    forall r :: 0 <= r < |overlays| ==> CellsTold(overlays[r].cells, confirmed, epochs)
  }

  predicate CursorsTold(cursors: seq<CursorOverlay>, confirmed: nat, epochs: set<nat>) {
    forall k :: 0 <= k < |cursors| ==> BaseTold(cursors[k].base, confirmed, epochs)
  }

  lemma {:induction false} CellsUnseen(cells: seq<CellOverlay>, rowNum: nat, confirmed: nat, flag: bool, fb: Frame, epochs: set<nat>)
    requires CellsTold(cells, confirmed, epochs)
    ensures PaintCells(cells, rowNum, confirmed, flag, fb) == PaintCells(GatedCells(cells, epochs), rowNum, confirmed, flag, fb)
  {
    if cells != [] {
      assert BaseTold(cells[0].base, confirmed, epochs);
      var rest := GatedCells(cells[1..], epochs);
      assert GatedCells(cells, epochs)[1..] == rest;
      CellsUnseen(cells[1..], rowNum, confirmed, flag, cells[0].Paint(fb, confirmed, rowNum, flag), epochs);
    }
  }

  lemma {:induction false} RowsUnseen(overlays: seq<Row>, confirmed: nat, flag: bool, fb: Frame, epochs: set<nat>)
    requires RowsTold(overlays, confirmed, epochs)
    ensures PaintRows(overlays, confirmed, flag, fb) == PaintRows(GatedRows(overlays, epochs), confirmed, flag, fb)
  {
    if overlays != [] {
      assert GatedRows(overlays, epochs)[1..] == GatedRows(overlays[1..], epochs);
      CellsUnseen(overlays[0].cells, overlays[0].rowNum, confirmed, flag, fb, epochs);
      RowsUnseen(overlays[1..], confirmed, flag, PaintCells(overlays[0].cells, overlays[0].rowNum, confirmed, flag, fb), epochs);
    }
  }

  lemma {:induction false} CursorsUnseen(cursors: seq<CursorOverlay>, confirmed: nat, fb: Frame, epochs: set<nat>)
    requires CursorsTold(cursors, confirmed, epochs)
    ensures PaintCursors(cursors, confirmed, fb) == PaintCursors(GatedCursors(cursors, epochs), confirmed, fb)
  {
    if cursors != [] {
      assert BaseTold(cursors[0].base, confirmed, epochs);
      var rest := GatedCursors(cursors[1..], epochs);
      CursorsUnseen(cursors[1..], confirmed, cursors[0].Paint(fb, confirmed), epochs);
      if cursors[0].base.tentativeUntil in epochs {
        assert GatedCursors(cursors, epochs) == [cursors[0]] + rest;
      } else {
        assert GatedCursors(cursors, epochs) == rest;
      }
    }
  }

  lemma OnlyToldIsDrawn(s: State, fb: Frame, epochs: set<nat>)
    requires RowsTold(s.overlays, s.confirmedEpoch, epochs) && CursorsTold(s.cursors, s.confirmedEpoch, epochs)
    ensures Apply(s, fb) == Apply(Only(s, epochs), fb)
  {
    CursorsUnseen(s.cursors, s.confirmedEpoch, fb, epochs);
    RowsUnseen(s.overlays, s.confirmedEpoch, s.flagging, PaintCursors(s.cursors, s.confirmedEpoch, fb), epochs);
  }

  // The gate, over whole runs: as long as no screen confirms anything of epoch `gate` or
  // later, every frame is drawn as if no overlay of those epochs existed. After Enter
  // starts a new epoch at a password prompt that echoes nothing, what is typed stays dark.
  lemma {:induction false} UnconfirmedStaysDark(s: State, events: seq<Event>, gate: nat, fb: Frame)
    requires Shaped(s) && s.confirmedEpoch < gate && NeverWitnessed(s, events, gate)
    ensures Run(s, events).confirmedEpoch < gate
    ensures Apply(Run(s, events), fb) == Apply(Only(Run(s, events), Below(gate)), fb)
    decreases |events|
  {
    if events == [] {
      OnlyToldIsDrawn(s, fb, Below(gate));
    } else {
      StepConfirms(s, events[0]);
      UnconfirmedStaysDark(Step(s, events[0]), events[1..], gate, fb);
    }
  }

  // ---------- drawn exactly when the own epoch was confirmed ----------

  // An overlay is trusted exactly when its epoch is one of those given.
  predicate BaseTrusted(b: Base, confirmed: nat, epochs: set<nat>) {
    b.active ==> (!b.Tentative(confirmed) <==> b.tentativeUntil in epochs)
  }

  predicate Trusted(s: State, epochs: set<nat>) {
    && (forall k :: 0 <= k < |s.cursors| ==> BaseTrusted(s.cursors[k].base, s.confirmedEpoch, epochs))
    && (forall r, i :: 0 <= r < |s.overlays| && 0 <= i < |s.overlays[r].cells| ==>
          BaseTrusted(s.overlays[r].cells[i].base, s.confirmedEpoch, epochs))
  }

  lemma TrustedTold(s: State, epochs: set<nat>)
    requires Trusted(s, epochs)
    ensures RowsTold(s.overlays, s.confirmedEpoch, epochs) && CursorsTold(s.cursors, s.confirmedEpoch, epochs)
  {
    forall k | 0 <= k < |s.cursors| ensures BaseTold(s.cursors[k].base, s.confirmedEpoch, epochs) {
      assert BaseTrusted(s.cursors[k].base, s.confirmedEpoch, epochs);
    }
    forall r, i | 0 <= r < |s.overlays| && 0 <= i < |s.overlays[r].cells|
      ensures BaseTold(s.overlays[r].cells[i].base, s.confirmedEpoch, epochs)
    {
      assert BaseTrusted(s.overlays[r].cells[i].base, s.confirmedEpoch, epochs);
    }
  }

  lemma LiveTrusted(s: State, epochs: set<nat>)
    requires forall e: nat, d: nat :: Live(s, e, d) ==> (e <= s.confirmedEpoch <==> e in epochs)
    ensures Trusted(s, epochs)
  {
    forall k | 0 <= k < |s.cursors| ensures BaseTrusted(s.cursors[k].base, s.confirmedEpoch, epochs) {
      CursorLive(s, k);
    }
    forall r, i | 0 <= r < |s.overlays| && 0 <= i < |s.overlays[r].cells|
      ensures BaseTrusted(s.overlays[r].cells[i].base, s.confirmedEpoch, epochs)
    {
      if s.overlays[r].cells[i].base.active { CellIsLive(s, r, i); }
    }
  }

  // From any state in order, a cursor or cell overlay is trusted exactly when some screen,
  // in the run or before it, confirmed a prediction of its own epoch; and a frame is drawn
  // as if the overlays of all other epochs did not exist.
  lemma DrawnByOwnEpoch(s: State, events: seq<Event>, fb: Frame)
    requires InOrder(s) && Rising(s, events)
    ensures var r, epochs := Run(s, events), {s.confirmedEpoch} + ConfirmedIn(s, events);
            Trusted(r, epochs) && Apply(r, fb) == Apply(Only(r, epochs), fb)
  {
    var r, epochs := Run(s, events), {s.confirmedEpoch} + ConfirmedIn(s, events);
    forall e: nat, d: nat | Live(r, e, d) ensures e <= r.confirmedEpoch <==> e in epochs {
      TrustedByOwnEpoch(s, events, e, d);
    }
    LiveTrusted(r, epochs);
    TrustedTold(r, epochs);
    OnlyToldIsDrawn(r, fb, epochs);
  }

  // The documented gate: from a start without overlays and ahead of what is confirmed, the
  // first start among them, a prediction is drawn if and only if a screen of the run
  // confirmed a prediction of its own epoch.
  lemma DrawnOnlyWhenConfirmed(s: State, events: seq<Event>, fb: Frame)
    requires Valid(s) && s.overlays == [] && s.cursors == [] && s.confirmedEpoch < s.predictionEpoch
    requires Rising(s, events)
    ensures var r := Run(s, events);
            Trusted(r, ConfirmedIn(s, events)) && Apply(r, fb) == Apply(Only(r, ConfirmedIn(s, events)), fb)
  {
    var r, epochs := Run(s, events), ConfirmedIn(s, events);
    NoOverlaysNothingLive(s);
    assert AllFrom(s, s.predictionEpoch);
    RunInOrder(s, events, s.predictionEpoch);
    hide Live, Run, ConfirmedIn, Rising, Valid;
    forall e: nat, d: nat | Live(r, e, d) ensures e <= r.confirmedEpoch <==> e in epochs {
      TrustedByOwnEpoch(s, events, e, d);
      assert s.predictionEpoch <= e;
    }
    LiveTrusted(r, epochs);
    TrustedTold(r, epochs);
    OnlyToldIsDrawn(r, fb, epochs);
  }
}
