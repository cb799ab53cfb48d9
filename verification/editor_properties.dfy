/** What one frame of input does to the scene, event by event, and the
    invariant every scene reachable from the initial one keeps. */
module EditorProperties {
  import opened Wrappers
  import opened Geometry
  import opened Scene
  import opened Editor

  /** A frame in which nothing is pressed; the cursor is at (mx, my). */
  function Idle(mx: int, my: int): FrameInput
  {
    FrameInput(false, false, false, false, false, mx, my)
  }

  /** A frame in which only TAB is pressed. */
  function TabKey(mx: int, my: int): FrameInput
  {
    Idle(mx, my).(tab := true)
  }

  /** A frame in which only ESC is pressed. */
  function EscKey(mx: int, my: int): FrameInput
  {
    Idle(mx, my).(esc := true)
  }

  /** A frame in which only DELETE, or only BACKSPACE, is pressed. */
  function DeleteKey(mx: int, my: int, backspace: bool): FrameInput
  {
    Idle(mx, my).(delete := !backspace, backspace := backspace)
  }

  /** A frame in which only the left mouse button is pressed. */
  function Click(mx: int, my: int): FrameInput
  {
    Idle(mx, my).(click := true)
  }

  /** The scene without its transient state. */
  function Cleared(s: Scene): Scene
  {
    s.(selected := None, lineStart := None, preview := None)
  }

  // ----- Single events -----

  /** A frame without input changes nothing, except that in LINE mode the
      preview follows the cursor: it runs from the line start to the cursor
      while a line is started and no point is hovered, and is absent otherwise. */
  lemma IdleFrame(s: Scene, mx: int, my: int)
    ensures s.mode != LineMode ==> Step(s, Idle(mx, my)) == Ok(s)
    ensures s.mode == LineMode ==>
      Step(s, Idle(mx, my)) == Ok(s.(preview :=
        if s.lineStart.Some? && Hovered(s.points, mx, my).None?
        then Some(Preview(s.lineStart.value, mx, my)) else None))
  {
  }

  /** TAB moves to the next mode and drops the selection, the line start
      and the preview; points and lines are unchanged. */
  lemma TabSwitchesMode(s: Scene, mx: int, my: int)
    ensures Step(s, TabKey(mx, my)) == Ok(Cleared(s).(mode := NextMode(s.mode)))
  {
  }

  /** Three TABs come back to the mode one started in, with the transient
      state dropped and the figure unchanged. */
  lemma ThreeTabsRestoreMode(s: Scene, mx: int, my: int)
    ensures Run(s, [TabKey(mx, my), TabKey(mx, my), TabKey(mx, my)]) == Ok(Cleared(s))
  {
    var t := TabKey(mx, my);
    var s1 := Cleared(s).(mode := NextMode(s.mode));
    var s2 := Cleared(s).(mode := NextMode(NextMode(s.mode)));
    TabSwitchesMode(s, mx, my);
    TabSwitchesMode(s1, mx, my);
    TabSwitchesMode(s2, mx, my);
    assert Step(s2, t) == Ok(Cleared(s).(mode := NextMode(NextMode(NextMode(s.mode)))));
    assert NextMode(NextMode(NextMode(s.mode))) == s.mode;
    assert [t, t, t][1..] == [t, t] && [t, t][1..] == [t] && [t][1..] == [];
    assert Run(s, [t, t, t]) == Run(s1, [t, t]);
    assert Run(s1, [t, t]) == Run(s2, [t]);
    assert Run(s2, [t]) == Run(Cleared(s), []);
  }

  /** ESC drops the selection, the line start and the preview in every mode,
      and changes nothing else. */
  lemma EscCancels(s: Scene, mx: int, my: int)
    ensures Step(s, EscKey(mx, my)) == Ok(Cleared(s))
  {
  }

  /** DELETE or BACKSPACE with a selected point removes exactly the lines
      that have it as an endpoint, keeping the others in order, removes that
      point and no other, and clears the selection. */
  lemma DeleteCascade(s: Scene, mx: int, my: int, backspace: bool)
    requires Valid(s)
    requires s.selected.Some?
    ensures Step(s, DeleteKey(mx, my, backspace)).Ok?
    ensures var r := Step(s, DeleteKey(mx, my, backspace)).value; var p := s.selected.value;
      && (forall l :: l in r.lines <==> l in s.lines && !Connects(l, p))
      && |r.lines| == |s.lines| - Degree(s.lines, p)
      && r.lines == LinesAvoiding(s.lines, p)
      && (forall q :: q in r.points <==> q in s.points && q.id != p)
      && |r.points| == |s.points| - 1
      && r.selected.None? && r.mode == s.mode
      && r.lineStart == s.lineStart && r.preview == s.preview && r.nextId == s.nextId
  {
    RemovePointIds(s.points, s.selected.value);
  }

  /** DELETE or BACKSPACE without a selected point does what a frame without
      input does. */
  lemma DeleteWithoutSelectionIsIdle(s: Scene, mx: int, my: int, backspace: bool)
    requires s.selected.None?
    ensures Step(s, DeleteKey(mx, my, backspace)) == Step(s, Idle(mx, my))
  {
  }

  /** In POINT mode a click adds exactly one new point, at the cursor and
      with a fresh identity, if and only if no existing point is hovered;
      a click on an existing point leaves the scene as it was. */
  lemma PointModeClick(s: Scene, mx: int, my: int)
    requires s.mode == PointMode
    ensures Step(s, Click(mx, my)).Ok?
    ensures var r := Step(s, Click(mx, my)).value;
      && (r.points == s.points + [Point(s.nextId, mx, my)] <==> Hovered(s.points, mx, my).None?)
      && (Hovered(s.points, mx, my).None? ==> r.nextId == s.nextId + 1)
      && (Hovered(s.points, mx, my).Some? ==> r == s)
      && r.lines == s.lines && r.mode == PointMode && r.selected == s.selected
    ensures Valid(s) ==> s.nextId !in IdSet(s.points)
  {
    var r := Step(s, Click(mx, my)).value;
    if Hovered(s.points, mx, my).Some? {
      assert |r.points| != |s.points + [Point(s.nextId, mx, my)]|;
    }
  }

  /** In LINE mode a click on a hovered point starts a line when none is
      started; on a different hovered point it appends exactly the line from
      the start to that point and ends the construction; on the start point
      itself or on empty space it abandons the construction and adds no
      line. Points never change. */
  lemma LineModeClick(s: Scene, mx: int, my: int)
    requires s.mode == LineMode
    ensures Step(s, Click(mx, my)).Ok?
    ensures var r := Step(s, Click(mx, my)).value; var h := Hovered(s.points, mx, my);
      && r.points == s.points && r.mode == LineMode && r.selected == s.selected
      && (h.Some? && s.lineStart.None? ==>
            r.lineStart == h && r.lines == s.lines && r.preview.None?)
      && (h.Some? && s.lineStart.Some? && s.lineStart != h ==>
            r.lines == s.lines + [StraightLine(s.lineStart.value, h.value)]
            && r.lineStart.None? && r.preview.None?)
      && (h.Some? && s.lineStart == h ==>
            r.lineStart.None? && r.lines == s.lines && r.preview.None?)
      && (h.None? ==>
            r.lineStart.None? && r.lines == s.lines
            && r.preview == (if s.lineStart.Some? then Some(Preview(s.lineStart.value, mx, my)) else None))
  {
  }

  /** In SELECT mode a click on a hovered point selects it, or deselects it
      when it already is the selection; a click on empty space clears the
      selection. Points, lines and the mode never change. */
  lemma SelectModeClick(s: Scene, mx: int, my: int)
    requires s.mode == SelectMode
    ensures Step(s, Click(mx, my)).Ok?
    ensures var r := Step(s, Click(mx, my)).value; var h := Hovered(s.points, mx, my);
      && SameFigure(r, s) && r.mode == SelectMode
      && r.lineStart == s.lineStart && r.preview == s.preview
      && (h.Some? && s.selected == h ==> r.selected.None?)
      && (h.Some? && s.selected != h ==> r.selected == h)
      && (h.None? ==> r.selected.None?)
  {
  }

  /** Selection is a toggle: two clicks at the same place give back the
      scene one started with, whenever nothing else was selected before. */
  lemma SelectClickTwiceRestores(s: Scene, mx: int, my: int)
    requires s.mode == SelectMode
    requires s.selected.None? || s.selected == Hovered(s.points, mx, my)
    ensures Run(s, [Click(mx, my), Click(mx, my)]) == Ok(s)
  {
    var c := Click(mx, my);
    SelectModeClick(s, mx, my);
    var s1 := Step(s, c).value;
    SelectModeClick(s1, mx, my);
    assert Run(s, [c, c]) == Run(s1, [c]);
  }

  // ----- The scene invariant -----

  /** The application starts in a valid scene. */
  lemma InitialSceneValid()
    ensures Valid(InitialScene())
  {
  }

  /** Deleting the selected point of a valid scene succeeds and keeps it valid. */
  lemma DeletePreservesValid(s: Scene)
    requires Valid(s)
    ensures DeleteSelected(s).Ok?
    ensures Valid(DeleteSelected(s).value)
  {
    if s.selected.Some? {
      var p := s.selected.value;
      RemovePointIds(s.points, p);
      var r := DeleteSelected(s).value;
      forall l | l in r.lines
        ensures l.a != l.b && l.a in IdSet(r.points) && l.b in IdSet(r.points)
      {
        assert l in s.lines && !Connects(l, p);
      }
      assert forall q :: q in r.points ==> q in s.points;
    }
  }

  /** A click in POINT mode keeps a valid scene valid: the new point's
      identity is fresh. */
  lemma PointModePreservesValid(s: Scene, e: FrameInput)
    requires Valid(s) && s.mode == PointMode
    ensures Valid(PointModeFrame(s, e))
  {
    var r := PointModeFrame(s, e);
    if r != s {
      var np := Point(s.nextId, e.mx, e.my);
      assert r.points == s.points + [np];
      assert forall q :: q in r.points ==> q in s.points || q == np;
      assert IdSet(s.points) <= IdSet(r.points);
      forall i, j | 0 <= i < j < |r.points|
        ensures r.points[i].id != r.points[j].id
      {
        if j == |s.points| {
          assert s.points[i] in s.points;
        }
      }
    }
  }

  /** A frame in LINE mode keeps a valid scene valid: a new line joins the
      start to a different scene point, and the line start and preview
      always name a scene point. */
  lemma LineModePreservesValid(s: Scene, e: FrameInput)
    requires Valid(s) && s.mode == LineMode
    ensures Valid(LineModeFrame(s, e))
  {
    var r := LineModeFrame(s, e);
    if r.lines != s.lines {
      var nl := StraightLine(s.lineStart.value, Hovered(s.points, e.mx, e.my).value);
      assert r.lines == s.lines + [nl];
      assert forall l :: l in r.lines ==> l in s.lines || l == nl;
    }
  }

  /** The mode handler keeps a valid scene valid. */
  lemma HandleModePreservesValid(s: Scene, e: FrameInput)
    requires Valid(s)
    ensures Valid(HandleMode(s, e))
  {
    match s.mode
    case PointMode => PointModePreservesValid(s, e);
    case LineMode => LineModePreservesValid(s, e);
    case SelectMode =>
  }

  /** From a valid scene every frame succeeds and leads to a valid scene. */
  lemma StepPreservesValid(s: Scene, e: FrameInput)
    requires Valid(s)
    ensures Step(s, e).Ok?
    ensures Valid(Step(s, e).value)
  {
    var afterTab := if e.tab then CycleMode(s) else s;
    var afterEsc := if e.esc then Cancel(afterTab) else afterTab;
    assert Valid(afterTab);
    assert Valid(afterEsc);
    var afterDelete := afterEsc;
    if e.delete || e.backspace {
      DeletePreservesValid(afterEsc);
      afterDelete := DeleteSelected(afterEsc).value;
    }
    HandleModePreservesValid(afterDelete, e);
  }

  /** From a valid scene every run of frames succeeds and ends in a valid scene. */
  lemma {:induction false} RunPreservesValid(s: Scene, frames: seq<FrameInput>)
    requires Valid(s)
    ensures Run(s, frames).Ok?
    ensures Valid(Run(s, frames).value)
    decreases |frames|
  {
    if |frames| > 0 {
      StepPreservesValid(s, frames[0]);
      RunPreservesValid(Step(s, frames[0]).value, frames[1..]);
    }
  }

  /** Whatever the input, the editor never fails and every scene it reaches
      is valid: every line has two distinct endpoints that are both still in
      the scene, a selection exists only in SELECT mode, and a line start
      only in LINE mode, always naming a scene point. */
  lemma ReachableScenesValid(frames: seq<FrameInput>)
    ensures Run(InitialScene(), frames).Ok?
    ensures var r := Run(InitialScene(), frames).value;
      && (forall l :: l in r.lines ==> l.a != l.b && l.a in IdSet(r.points) && l.b in IdSet(r.points))
      && (r.selected.Some? ==> r.mode == SelectMode && r.selected.value in IdSet(r.points))
      && (r.lineStart.Some? ==> r.mode == LineMode && r.lineStart.value in IdSet(r.points))
      && UniqueIds(r.points)
  {
    InitialSceneValid();
    RunPreservesValid(InitialScene(), frames);
  }
}
