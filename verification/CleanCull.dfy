/**
 Reconciliation when nothing is refuted: due overlays go away, the others stay, in the
 rendition the server shows, and no epoch is killed.
 */
module CleanCull {
  import opened Frames
  import opened Overlays
  import opened Prediction
  import opened PredictionInvariants

  // The same prediction in another rendition.
  predicate Alike(a: CellOverlay, b: CellOverlay) {
    && a.base == b.base && a.unknown == b.unknown && a.originals == b.originals
    && a.replacement.glyph == b.replacement.glyph && a.replacement.spacer == b.replacement.spacer
  }

  // What reconciliation leaves of an overlay that is not refuted.
  predicate Thinned(a: CellOverlay, b: CellOverlay, lateAcked: nat) {
    if a.base.active && lateAcked < a.base.expiration then Alike(a, b) else !b.base.active
  }

  // No cell overlay is refuted by the frame, and no cursor overlay either, old or new.
  predicate SoundCells(s: State, fb: Frame) {
    forall r, i :: 0 <= r < |s.overlays| && 0 <= i < |s.overlays[r].cells| ==>
      !s.overlays[r].cells[i].Judge(fb, s.overlays[r].rowNum, s.lateAcked).IncorrectOrExpired?
  }

  predicate Sound(s: State, fb: Frame) {
    && SoundCells(s, fb)
    && forall k :: 0 <= k < |s.cursors| ==> !s.cursors[k].Judge(fb, s.lateAcked).IncorrectOrExpired?
  }

  predicate ThinnedRow(a: Row, b: Row, from: nat, lateAcked: nat) {
    && a.rowNum == b.rowNum && |a.cells| == |b.cells|
    && (forall i :: 0 <= i < |a.cells| && i < from ==> b.cells[i] == a.cells[i])
    && (forall i :: from <= i < |a.cells| ==> Thinned(a.cells[i], b.cells[i], lateAcked))
  }

  // Everything but the cells and what credit and waiting do to the triggers.
  predicate SameButCells(a: State, b: State) {
    && a.cursors == b.cursors && a.predictionEpoch == b.predictionEpoch && SameGeometry(a, b)
    && |a.overlays| == |b.overlays|
  }

  lemma AlikeJudge(a: CellOverlay, b: CellOverlay, fb: Frame, row: nat, lateAcked: nat)
    requires Alike(a, b)
    ensures a.Judge(fb, row, lateAcked) == b.Judge(fb, row, lateAcked)
  {
    assert CellText(a.replacement) == CellText(b.replacement);
  }

  // One step of the walk, at position (r, i).
  predicate CleanStep(s: State, t: State, r: nat, i: nat) {
    && SameButCells(t, s) && Shaped(s) && Shaped(t) && r < |s.overlays| && i < s.width
    && (forall k :: 0 <= k < |s.overlays| && k != r ==> t.overlays[k] == s.overlays[k])
    && CleanRow(s.overlays[r], t.overlays[r], i, s.lateAcked)
  }

  predicate CleanRow(a: Row, b: Row, i: nat, lateAcked: nat) {
    && a.rowNum == b.rowNum && |a.cells| == |b.cells| && i < |a.cells|
    && (forall k :: 0 <= k < i ==> b.cells[k] == a.cells[k])
    && Thinned(a.cells[i], b.cells[i], lateAcked)
    && (b.cells[i].base.active ==> Alike(a.cells[i], b.cells[i]))
    && (forall k :: i < k < |a.cells| ==> Alike(a.cells[k], b.cells[k]))
  }

  // The rest of the walk, from position (r, i) on.
  predicate Walked(s: State, t: State, r: nat, i: nat) {
    && SameButCells(t, s)
    && (forall k :: 0 <= k < |s.overlays| && k < r ==> t.overlays[k] == s.overlays[k])
    && (forall k :: r <= k < |s.overlays| ==>
          ThinnedRow(s.overlays[k], t.overlays[k], if k == r then i else 0, s.lateAcked))
  }

  lemma CleanCell(s: State, r: nat, i: nat, fb: Frame, now: nat)
    requires Shaped(s) && Fits(s, fb) && r < |s.overlays| && i < s.width && SoundCells(s, fb)
    ensures CullCell(s, r, i, fb, now).Continue? && CleanStep(s, CullCell(s, r, i, fb, now).state, r, i)
  {
    var row := s.overlays[r];
    assert RowShaped(row, s.height, s.width);
    assert !row.cells[i].Judge(fb, row.rowNum, s.lateAcked).IncorrectOrExpired?;
    hide SoundCells;
    var t := CullCell(s, r, i, fb, now).state;
    assert CleanRow(row, t.overlays[r], i, s.lateAcked);
  }

  lemma CleanStepSound(s: State, t: State, r: nat, i: nat, fb: Frame)
    requires CleanStep(s, t, r, i) && SoundCells(s, fb)
    ensures SoundCells(t, fb)
  {
    forall q, k | 0 <= q < |t.overlays| && 0 <= k < |t.overlays[q].cells|
      ensures !t.overlays[q].cells[k].Judge(fb, t.overlays[q].rowNum, t.lateAcked).IncorrectOrExpired?
    {
      assert !s.overlays[q].cells[k].Judge(fb, s.overlays[q].rowNum, s.lateAcked).IncorrectOrExpired?;
      if q == r && (i < k || (k == i && t.overlays[r].cells[i].base.active)) {
        AlikeJudge(s.overlays[q].cells[k], t.overlays[q].cells[k], fb, s.overlays[q].rowNum, s.lateAcked);
      }
    }
  }

  lemma StepThenWalk(s: State, s1: State, t: State, r: nat, i: nat)
    requires CleanStep(s, s1, r, i) && Walked(s1, t, r, i + 1)
    ensures Walked(s, t, r, i)
  {
    hide Shaped;
    var a, b, c := s.overlays[r], s1.overlays[r], t.overlays[r];
    assert ThinnedRow(b, c, i + 1, s.lateAcked);
    assert ThinnedRow(a, c, i, s.lateAcked);
  }

  lemma {:induction false} CleanWalk(s: State, r: nat, i: nat, fb: Frame, now: nat)
    requires Shaped(s) && Fits(s, fb) && r <= |s.overlays| && i <= s.width && SoundCells(s, fb)
    ensures CullFrom(s, r, i, fb, now).Continue? && Walked(s, CullFrom(s, r, i, fb, now).state, r, i)
    decreases |s.overlays| - r, s.width - i
  {
    if r < |s.overlays| {
      assert RowShaped(s.overlays[r], s.height, s.width);
      if i == s.width {
        CleanWalk(s, r + 1, 0, fb, now);
      } else {
        CleanCell(s, r, i, fb, now);
        var s1 := CullCell(s, r, i, fb, now).state;
        CleanStepSound(s, s1, r, i, fb);
        CleanWalk(s1, r, i + 1, fb, now);
        StepThenWalk(s, s1, CullFrom(s1, r, i + 1, fb, now).state, r, i);
      }
    }
  }

  // The cursors that still wait, in order.
  function Waiting(cursors: seq<CursorOverlay>, lateAcked: nat): (r: seq<CursorOverlay>)
    ensures |r| <= |cursors| && CursorsQuiet(r, lateAcked)
    ensures cursors != [] && lateAcked < Last(cursors).base.expiration ==> r != [] && Last(r) == Last(cursors)
  {
    if cursors == [] then []
    else
      var n := |cursors| - 1;
      var init := Waiting(cursors[..n], lateAcked);
      if lateAcked < cursors[n].base.expiration then init + [cursors[n]] else init
  }

  lemma {:induction false} KeptAreWaiting(cursors: seq<CursorOverlay>, keep: CursorOverlay -> bool, lateAcked: nat)
    requires forall k :: 0 <= k < |cursors| ==> (keep(cursors[k]) <==> lateAcked < cursors[k].base.expiration)
    ensures KeepCursors(cursors, keep) == Waiting(cursors, lateAcked)
  {
    if cursors != [] { KeptAreWaiting(cursors[..|cursors| - 1], keep, lateAcked); }
  }

  lemma CleanCursors(s: State, fb: Frame)
    requires Shaped(s) && Fits(s, fb) && Sound(s, fb)
    ensures CullCursors(s, fb) == s.(cursors := Waiting(s.cursors, s.lateAcked))
  {
    var keep := (c: CursorOverlay) => c.Judge(fb, s.lateAcked).Pending?;
    forall k | 0 <= k < |s.cursors| ensures keep(s.cursors[k]) <==> s.lateAcked < s.cursors[k].base.expiration {
      assert CursorShaped(s.cursors[k], s.height, s.width);
    }
    KeptAreWaiting(s.cursors, keep, s.lateAcked);
    assert CullCursors(s, fb).cursors == KeepCursors(s.cursors, keep);
  }

  // Reconciling against a frame that refutes nothing, after the acknowledgement rose.
  lemma NothingRefuted(s: State, fb: Frame, now: nat)
    requires Valid(s) && Fits(s, fb) && Sound(s, fb) && !s.preference.Never?
    ensures var t := Cull(s, fb, now);
            && Walked(s, t.(cursors := s.cursors), 0, 0)
            && t.cursors == Waiting(s.cursors, s.lateAcked)
  {
    var s1 := Triggered(Resized(s, fb));
    assert s1.overlays == s.overlays && s1.cursors == s.cursors && s1.lateAcked == s.lateAcked;
    CleanWalk(s1, 0, 0, fb, now);
    var s2 := CullFrom(s1, 0, 0, fb, now).state;
    hide CullFrom;
    StillSound(s1, s2, fb);
    CleanCursors(s2, fb);
  }

  lemma StillSound(s: State, t: State, fb: Frame)
    requires Walked(s, t, 0, 0) && Sound(s, fb) && Shaped(s) && Fits(s, fb)
    ensures Sound(t, fb)
  {
    forall q, k | 0 <= q < |t.overlays| && 0 <= k < |t.overlays[q].cells|
      ensures !t.overlays[q].cells[k].Judge(fb, t.overlays[q].rowNum, t.lateAcked).IncorrectOrExpired?
    {
      assert ThinnedRow(s.overlays[q], t.overlays[q], 0, s.lateAcked);
      assert !s.overlays[q].cells[k].Judge(fb, s.overlays[q].rowNum, s.lateAcked).IncorrectOrExpired?;
      if t.overlays[q].cells[k].base.active {
        AlikeJudge(s.overlays[q].cells[k], t.overlays[q].cells[k], fb, s.overlays[q].rowNum, s.lateAcked);
      }
    }
  }
}
