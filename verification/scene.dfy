/** The editor's scene: the ordered points and lines, the editing mode and
    the three pieces of transient interaction state, together with the
    queries and list operations the per-frame update is built from. */
module Scene {
  import opened Wrappers
  import opened Geometry

  /** The three editing modes, in the order TAB visits them. */
  datatype Mode = PointMode | LineMode | SelectMode

  /** The position of a mode in the list TAB walks through: POINT, LINE, SELECT. */
  function ModeIndex(m: Mode): nat
  {
    match m
    case PointMode => 0
    case LineMode => 1
    case SelectMode => 2
  }

  /** The mode TAB switches to: the next one in the list, wrapping from the
      last back to the first. */
  function NextMode(m: Mode): (r: Mode)
    ensures ModeIndex(r) == (ModeIndex(m) + 1) % 3
    ensures r != m
  {
    match m
    case PointMode => LineMode
    case LineMode => SelectMode
    case SelectMode => PointMode
  }

  /** The preview line drawn while a line is under construction: from the
      start point to a transient point at the cursor, which is not part of
      the scene. */
  datatype Preview = Preview(start: PointId, cursorX: int, cursorY: int)

  /** The whole editor state. `nextId` is the identity the next new point
      receives, standing in for the fresh object `Point(mx, my)` allocates. */
  datatype Scene = Scene(
    points: seq<Point>,
    lines: seq<StraightLine>,
    mode: Mode,
    selected: Option<PointId>,
    lineStart: Option<PointId>,
    preview: Option<Preview>,
    nextId: PointId)

  /** The scene the application starts with: nothing drawn, POINT mode. */
  function InitialScene(): (s: Scene)
    ensures s.points == [] && s.lines == [] && s.mode == PointMode
    ensures s.selected.None? && s.lineStart.None? && s.preview.None?
  {
    Scene([], [], PointMode, None, None, None, 0)
  }

  /** The identities of the points in `pts`. */
  function IdSet(pts: seq<Point>): set<PointId>
  {
    set p | p in pts :: p.id
  }

  /** No two points of `pts` are the same point. */
  predicate UniqueIds(pts: seq<Point>)
  {
    forall i, j :: 0 <= i < j < |pts| ==> pts[i].id != pts[j].id
  }

  /** The index of the first element of `s` that satisfies `f`, in order. */
  function FirstMatch<T>(s: seq<T>, f: T -> bool): (r: Option<nat>)
    ensures r.Some? ==> r.value < |s| && f(s[r.value])
    ensures r.Some? ==> forall j :: 0 <= j < r.value ==> !f(s[j])
    ensures r.None? <==> forall j :: 0 <= j < |s| ==> !f(s[j])
  {
    if |s| == 0 then None
    else if f(s[0]) then Some(0)
    else match FirstMatch(s[1..], f)
      case None => None
      case Some(i) => Some(i + 1)
  }

  /** Hit-testing: the index of the first point, in scene order, within the
      hover radius of the cursor; `None` when the cursor is over no point. */
  function HoveredIndex(pts: seq<Point>, mx: int, my: int): (r: Option<nat>)
    ensures r.Some? ==> r.value < |pts| && IsHovered(pts[r.value], mx, my, HoverRadius)
    ensures r.Some? ==> forall j :: 0 <= j < r.value ==> !IsHovered(pts[j], mx, my, HoverRadius)
    ensures r.None? <==> forall j :: 0 <= j < |pts| ==> !IsHovered(pts[j], mx, my, HoverRadius)
  {
    FirstMatch(pts, p => IsHovered(p, mx, my, HoverRadius))
  }

  /** The identity of the point under the cursor, if any. */
  function Hovered(pts: seq<Point>, mx: int, my: int): (r: Option<PointId>)
    ensures r.Some? ==> r.value in IdSet(pts)
    ensures r.None? <==> forall p :: p in pts ==> !IsHovered(p, mx, my, HoverRadius)
    ensures HoveredIndex(pts, mx, my).Some? ==> r == Some(pts[HoveredIndex(pts, mx, my).value].id)
  {
    match HoveredIndex(pts, mx, my)
    case None => None
    case Some(i) => Some(pts[i].id)
  }

  /** List removal of a point by identity: drops the first point that is
      `id`, keeping the others in order; `None` where Python's `list.remove`
      raises `ValueError` because the point is not in the list. */
  function RemovePoint(pts: seq<Point>, id: PointId): (r: Option<seq<Point>>)
    ensures r.None? <==> id !in IdSet(pts)
    ensures r.Some? ==> exists i :: && 0 <= i < |pts| && pts[i].id == id
                                    && (forall j :: 0 <= j < i ==> pts[j].id != id)
                                    && r.value == pts[..i] + pts[i + 1..]
    ensures r.Some? ==> |r.value| == |pts| - 1
    ensures r.Some? ==> forall p :: p in r.value ==> p in pts
  {
    match FirstMatch(pts, (p: Point) => p.id == id)
    case None =>
      assert forall p :: p in pts ==> p.id != id;
      None
    case Some(i) =>
      assert pts[i] in pts;
      assert forall p :: p in pts[..i] + pts[i + 1..] ==> p in pts[..i] || p in pts[i + 1..];
      Some(pts[..i] + pts[i + 1..])
  }

  /** Removing a point from a list of distinct points removes exactly its
      identity and keeps the others distinct. */
  lemma RemovePointIds(pts: seq<Point>, id: PointId)
    requires UniqueIds(pts)
    requires id in IdSet(pts)
    ensures RemovePoint(pts, id).Some?
    ensures forall p :: p in RemovePoint(pts, id).value <==> p in pts && p.id != id
    ensures IdSet(RemovePoint(pts, id).value) == IdSet(pts) - {id}
    ensures UniqueIds(RemovePoint(pts, id).value)
  {
    var r := RemovePoint(pts, id).value;
    var i :| 0 <= i < |pts| && pts[i].id == id && r == pts[..i] + pts[i + 1..];
    RemoveAtMembers(pts, i);
    assert IdSet(r) == IdSet(pts) - {id} by {
      forall q | q in IdSet(pts) - {id}
        ensures q in IdSet(r)
      {
        var p :| p in pts && p.id == q;
      }
    }
  }

  /** Dropping the element at index `i` of a list of distinct points keeps
      exactly the other points, still distinct. */
  lemma RemoveAtMembers(pts: seq<Point>, i: nat)
    requires UniqueIds(pts)
    requires i < |pts|
    ensures forall p :: p in pts[..i] + pts[i + 1..] <==> p in pts && p.id != pts[i].id
    ensures UniqueIds(pts[..i] + pts[i + 1..])
  {
    var r := pts[..i] + pts[i + 1..];
    assert forall k :: 0 <= k < |r| ==> r[k] == (if k < i then pts[k] else pts[k + 1]);
    forall p | p in r
      ensures p in pts && p.id != pts[i].id
    {
      var k :| 0 <= k < |r| && r[k] == p;
    }
    forall p | p in pts && p.id != pts[i].id
      ensures p in r
    {
      var k :| 0 <= k < |pts| && pts[k] == p;
      if k < i {
        assert r[k] == p;
      } else {
        assert r[k - 1] == p;
      }
    }
  }

  /** The number of lines in `ls` that have `p` as an endpoint. */
  function Degree(ls: seq<StraightLine>, p: PointId): nat
  {
    if |ls| == 0 then 0
    else (if Connects(ls[0], p) then 1 else 0) + Degree(ls[1..], p)
  }

  /** The lines of `ls` that do not have `p` as an endpoint, in their order. */
  function LinesAvoiding(ls: seq<StraightLine>, p: PointId): (r: seq<StraightLine>)
    ensures forall l :: l in r <==> l in ls && !Connects(l, p)
    ensures |r| + Degree(ls, p) == |ls|
  {
    if |ls| == 0 then []
    else if Connects(ls[0], p) then LinesAvoiding(ls[1..], p)
    else [ls[0]] + LinesAvoiding(ls[1..], p)
  }

  /** Filtering distributes over concatenation, so the kept lines stay in
      their original relative order. */
  lemma {:induction false} LinesAvoidingAppend(xs: seq<StraightLine>, ys: seq<StraightLine>, p: PointId)
    ensures LinesAvoiding(xs + ys, p) == LinesAvoiding(xs, p) + LinesAvoiding(ys, p)
  {
    if |xs| == 0 {
      assert xs + ys == ys;
    } else {
      assert (xs + ys)[1..] == xs[1..] + ys;
      LinesAvoidingAppend(xs[1..], ys, p);
    }
  }

  /** When no line has `p` as an endpoint, filtering keeps every line. */
  lemma {:induction false} LinesAvoidingUntouched(ls: seq<StraightLine>, p: PointId)
    requires forall l :: l in ls ==> !Connects(l, p)
    ensures LinesAvoiding(ls, p) == ls
  {
    if |ls| > 0 {
      assert ls[0] in ls;
      assert forall l :: l in ls[1..] ==> l in ls;
      LinesAvoidingUntouched(ls[1..], p);
      assert [ls[0]] + ls[1..] == ls;
    }
  }

  /** The invariant every reachable scene satisfies:
      - points are distinct entities, all with identities below `nextId`;
      - every line has two distinct endpoints, both still in the scene;
      - a selection exists only in SELECT mode, and names a scene point;
      - a line start and a preview exist only in LINE mode, and start at a
        scene point. */
  predicate Valid(s: Scene)
  {
    && UniqueIds(s.points)
    && (forall p :: p in s.points ==> p.id < s.nextId)
    && (forall l :: l in s.lines ==> l.a != l.b && l.a in IdSet(s.points) && l.b in IdSet(s.points))
    && (s.selected.Some? ==> s.mode == SelectMode && s.selected.value in IdSet(s.points))
    && (s.lineStart.Some? ==> s.mode == LineMode && s.lineStart.value in IdSet(s.points))
    && (s.preview.Some? ==> s.mode == LineMode && s.preview.value.start in IdSet(s.points))
  }
}
