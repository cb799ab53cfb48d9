/** The editor's per-frame update as a pure step function: one frame's input
    is applied to the scene in a fixed order — TAB switches mode, ESC
    cancels, DELETE or BACKSPACE deletes the selected point with its lines,
    and then the handler of the current mode runs. */
module Editor {
  import opened Wrappers
  import opened Geometry
  import opened Scene

  /** One frame's input: which keys were pressed this frame (each press is
      reported once), whether the left mouse button was pressed, and the
      integer cursor position. */
  datatype FrameInput = FrameInput(
    tab: bool,
    esc: bool,
    delete: bool,
    backspace: bool,
    click: bool,
    mx: int,
    my: int)

  /** The frame fails when the selected point to delete is not in the scene,
      where Python's `list.remove` raises `ValueError`. */
  datatype StepError = SelectedPointMissing(id: PointId)

  /** No selection, no line start and no preview. */
  predicate NoTransientState(s: Scene)
  {
    s.selected.None? && s.lineStart.None? && s.preview.None?
  }

  /** The drawing itself — points, lines and the identity counter — is the same. */
  predicate SameFigure(r: Scene, s: Scene)
  {
    r.points == s.points && r.lines == s.lines && r.nextId == s.nextId
  }

  /** TAB: the next mode, and no state carried over from the previous one. */
  function CycleMode(s: Scene): (r: Scene)
    ensures r.mode == NextMode(s.mode) && r.mode != s.mode
    ensures NoTransientState(r)
    ensures SameFigure(r, s)
  {
    s.(mode := NextMode(s.mode), selected := None, lineStart := None, preview := None)
  }

  /** ESC: the transient state is dropped whatever the mode. */
  function Cancel(s: Scene): (r: Scene)
    ensures r.mode == s.mode
    ensures NoTransientState(r)
    ensures SameFigure(r, s)
  {
    s.(selected := None, lineStart := None, preview := None)
  }

  /** DELETE or BACKSPACE: with a selected point, remove every line that has
      it as an endpoint, then remove the point, then clear the selection.
      Without a selection nothing happens. */
  function DeleteSelected(s: Scene): (r: Result<Scene, StepError>)
    ensures s.selected.None? ==> r == Ok(s)
    ensures s.selected.Some? ==> (r.Err? <==> s.selected.value !in IdSet(s.points))
    ensures r.Err? ==> r.error == SelectedPointMissing(s.selected.value)
    ensures s.selected.Some? && r.Ok? ==>
      && r.value.lines == LinesAvoiding(s.lines, s.selected.value)
      && Some(r.value.points) == RemovePoint(s.points, s.selected.value)
      && r.value.selected.None?
      && r.value.mode == s.mode && r.value.lineStart == s.lineStart
      && r.value.preview == s.preview && r.value.nextId == s.nextId
  {
    match s.selected
    case None => Ok(s)
    case Some(p) =>
      match RemovePoint(s.points, p)
      case None => Err(SelectedPointMissing(p))
      case Some(remaining) =>
        Ok(s.(lines := LinesAvoiding(s.lines, p), points := remaining, selected := None))
  }

  /** POINT mode: a click where no point is hovered adds a new point at the
      cursor; a click on an existing point does nothing. */
  function PointModeFrame(s: Scene, e: FrameInput): (r: Scene)
    ensures r.lines == s.lines && r.mode == s.mode
    ensures r.selected == s.selected && r.lineStart == s.lineStart && r.preview == s.preview
    ensures r != s <==> e.click && Hovered(s.points, e.mx, e.my).None?
    ensures r != s ==> r.points == s.points + [Point(s.nextId, e.mx, e.my)] && r.nextId == s.nextId + 1
  {
    if e.click && Hovered(s.points, e.mx, e.my).None? then
      s.(points := s.points + [Point(s.nextId, e.mx, e.my)], nextId := s.nextId + 1)
    else s
  }

  /** The preview line for this frame: from the line start to the cursor,
      shown only while a line is started and no point is hovered. */
  function PreviewFor(s: Scene, hovered: Option<PointId>, mx: int, my: int): (r: Option<Preview>)
    ensures r.Some? <==> s.lineStart.Some? && hovered.None?
    ensures r.Some? ==> r.value == Preview(s.lineStart.value, mx, my)
  {
    if s.lineStart.Some? && hovered.None? then Some(Preview(s.lineStart.value, mx, my)) else None
  }

  /** LINE mode: recompute the preview, then on a click start a line at the
      hovered point, complete the line at a second, different hovered point,
      or abandon the line when the start point itself or empty space is
      clicked. Abandoning leaves the preview of this frame in place; the next
      frame recomputes it. */
  function LineModeFrame(s: Scene, e: FrameInput): (r: Scene)
    ensures r.points == s.points && r.mode == s.mode && r.selected == s.selected && r.nextId == s.nextId
    ensures r.lines != s.lines ==>
      && e.click && s.lineStart.Some? && Hovered(s.points, e.mx, e.my).Some?
      && s.lineStart.value != Hovered(s.points, e.mx, e.my).value
      && r.lines == s.lines + [StraightLine(s.lineStart.value, Hovered(s.points, e.mx, e.my).value)]
    ensures !e.click ==> r.lineStart == s.lineStart
  {
    var h := Hovered(s.points, e.mx, e.my);
    var s1 := s.(preview := PreviewFor(s, h, e.mx, e.my));
    if !e.click then s1
    else
      match h
      case None => s1.(lineStart := None)
      case Some(hp) =>
        if s.lineStart.None? then s1.(lineStart := Some(hp))
        else if s.lineStart.value != hp then
          s1.(lines := s.lines + [StraightLine(s.lineStart.value, hp)], lineStart := None, preview := None)
        else s1.(lineStart := None)
  }

  /** SELECT mode: a click on a hovered point selects it, or deselects it if
      it was already the selection; a click on empty space clears the
      selection. */
  function SelectModeFrame(s: Scene, e: FrameInput): (r: Scene)
    ensures SameFigure(r, s) && r.mode == s.mode && r.lineStart == s.lineStart && r.preview == s.preview
    ensures e.click && r.selected.Some? ==> r.selected == Hovered(s.points, e.mx, e.my)
    ensures !e.click ==> r == s
  {
    if !e.click then s
    else
      match Hovered(s.points, e.mx, e.my)
      case None => s.(selected := None)
      case Some(hp) =>
        if s.selected == Some(hp) then s.(selected := None)
        else s.(selected := Some(hp))
  }

  /** The handler of the current mode. Only POINT mode adds points, only
      LINE mode adds lines and touches the line start and preview, and only
      SELECT mode touches the selection; no handler changes the mode. */
  function HandleMode(s: Scene, e: FrameInput): (r: Scene)
    ensures r.mode == s.mode
    ensures s.mode != PointMode ==> r.points == s.points && r.nextId == s.nextId
    ensures s.mode == PointMode ==> r.points == s.points || r.points == s.points + [Point(s.nextId, e.mx, e.my)]
    ensures s.mode != LineMode ==> r.lines == s.lines && r.lineStart == s.lineStart && r.preview == s.preview
    ensures s.mode != SelectMode ==> r.selected == s.selected
  {
    match s.mode
    case PointMode => PointModeFrame(s, e)
    case LineMode => LineModeFrame(s, e)
    case SelectMode => SelectModeFrame(s, e)
  }

  /** One frame of the editor: TAB, then ESC, then delete, then the mode
      handler, each seeing the scene the previous one left. */
  function Step(s: Scene, e: FrameInput): (r: Result<Scene, StepError>)
    ensures r.Ok? ==> r.value.mode == (if e.tab then NextMode(s.mode) else s.mode)
    ensures r.Ok? ==> r.value.nextId >= s.nextId
    ensures r.Err? <==>
      && (e.delete || e.backspace) && !e.tab && !e.esc
      && s.selected.Some? && s.selected.value !in IdSet(s.points)
    ensures r.Err? ==> r.error == SelectedPointMissing(s.selected.value)
    ensures r.Ok? ==> forall p :: p in r.value.points && p !in s.points ==> p.id == s.nextId
  {
    var afterTab := if e.tab then CycleMode(s) else s;
    var afterEsc := if e.esc then Cancel(afterTab) else afterTab;
    var afterDelete := if e.delete || e.backspace then DeleteSelected(afterEsc) else Ok(afterEsc);
    match afterDelete
    case Err(err) => Err(err)
    case Ok(s3) =>
      assert forall p :: p in s3.points ==> p in s.points;
      Ok(HandleMode(s3, e))
  }

  /** The main loop: one `update` per frame, stopping at the first frame
      that fails. Identities only grow, and each frame either fails or
      hands its scene to the next. */
  function Run(s: Scene, frames: seq<FrameInput>): (r: Result<Scene, StepError>)
    ensures |frames| == 0 ==> r == Ok(s)
    ensures |frames| > 0 && Step(s, frames[0]).Err? ==> r == Err(Step(s, frames[0]).error)
    ensures r.Ok? ==> r.value.nextId >= s.nextId
    decreases |frames|
  {
    if |frames| == 0 then Ok(s)
    else
      match Step(s, frames[0])
      case Err(err) => Err(err)
      case Ok(next) => Run(next, frames[1..])
  }

  /** A run of a single frame is that frame's update. */
  lemma RunOne(s: Scene, f: FrameInput)
    ensures Run(s, [f]) == Step(s, f)
  {
    assert [f][1..] == [];
  }

  /** Running two batches of frames one after the other is running them
      concatenated: the second batch starts from the scene the first left,
      and an error in the first batch ends the whole run. */
  lemma {:induction false} RunAppend(s: Scene, xs: seq<FrameInput>, ys: seq<FrameInput>)
    ensures Run(s, xs + ys) == (match Run(s, xs)
                                case Ok(t) => Run(t, ys)
                                case Err(err) => Err(err))
    decreases |xs|
  {
    if |xs| == 0 {
      assert xs + ys == ys;
    } else {
      assert (xs + ys)[0] == xs[0];
      assert (xs + ys)[1..] == xs[1..] + ys;
      match Step(s, xs[0])
      case Err(_) =>
      case Ok(next) => RunAppend(next, xs[1..], ys);
    }
  }
}
