/** The editor's geometric entities: points, straight lines between two
    points, angles formed by two lines that start at the same point, and the
    rectangle surface record.

    Points are entities, not values: two points are the same point only when
    they are the same object, never merely because their coordinates agree.
    Each point therefore carries an identity `id`, and lines and angles refer
    to points by that identity. */
module Geometry {
  import opened Wrappers

  type PointId = nat

  /** A point with its identity and integer coordinates (mouse positions are
      integers, so every point the editor creates has integer coordinates). */
  datatype Point = Point(id: PointId, x: int, y: int)

  /** A straight line from endpoint `a` to endpoint `b`, both point identities. */
  datatype StraightLine = StraightLine(a: PointId, b: PointId)

  /** The inclination of two lines `ab` and `ac` that meet at `vertex`. */
  datatype Angle = Angle(vertex: PointId, ab: StraightLine, ac: StraightLine)

  /** The rectangle surface record: its sides, the derived area and perimeter,
      and the centre point. */
  datatype Surface = Surface(length: int, width: int, area: int, position: Point, perimeter: int)

  /** The exceptions the entity constructors and helpers raise. */
  datatype GeometryError =
    | NotOnLine(p: PointId)
    | SameEndpoints
    | NoSharedVertex

  /** The hit radius the editor uses when it asks which point is under the cursor. */
  const HoverRadius: int := 8

  /** The cursor (mx, my) is over `p` when its squared distance to `p` is at
      most `radius` squared. The cursor exactly on the point always hovers
      it, and a hovered point lies within `radius` of the cursor along each
      axis. */
  predicate IsHovered(p: Point, mx: int, my: int, radius: int): (r: bool)
    ensures p.x == mx && p.y == my ==> r
    ensures r && radius >= 0 ==> -radius <= p.x - mx <= radius && -radius <= p.y - my <= radius
  {
    SquareBound(p.x - mx, p.y - my, radius);
    (p.x - mx) * (p.x - mx) + (p.y - my) * (p.y - my) <= radius * radius
  }

  /** A sum of two squares bounded by `c` squared bounds each term by `c`. */
  lemma SquareBound(a: int, b: int, c: int)
    ensures c >= 0 && a * a + b * b <= c * c ==> -c <= a <= c && -c <= b <= c
  {
    if 0 <= c < a { SquareGrows(a, c); }
    if 0 <= c < -a { SquareGrows(-a, c); }
    if 0 <= c < b { SquareGrows(b, c); }
    if 0 <= c < -b { SquareGrows(-b, c); }
  }

  /** Squaring is strictly increasing on the naturals. */
  lemma SquareGrows(m: int, c: int)
    requires 0 <= c < m
    ensures m * m > c * c
  {
    assert m * m - c * c == (m - c) * (m + c);
  }

  /** Whether the line has `p` as one of its two endpoints. */
  predicate Connects(l: StraightLine, p: PointId)
  {
    l.a == p || l.b == p
  }

  /** Swapping the two endpoints of a line does not change which points it
      connects, nor whether `OtherPoint` finds an opposite endpoint. */
  lemma ConnectsReversed(l: StraightLine, p: PointId)
    ensures Connects(l, p) <==> Connects(StraightLine(l.b, l.a), p)
    ensures OtherPoint(l, p).Ok? <==> OtherPoint(StraightLine(l.b, l.a), p).Ok?
  {
  }

  /** The endpoint of `l` opposite to `p`; fails when `p` is not an endpoint.
      When `p` is both endpoints (a degenerate line) the first test wins and
      the answer is `b`, which is `p` itself. */
  function OtherPoint(l: StraightLine, p: PointId): (r: Result<PointId, GeometryError>)
    ensures r.Ok? <==> Connects(l, p)
    ensures r.Err? ==> r.error == NotOnLine(p)
    ensures r.Ok? ==> Connects(l, r.value)
    ensures r.Ok? && l.a != l.b ==> r.value != p
  {
    if p == l.a then Ok(l.b)
    else if p == l.b then Ok(l.a)
    else Err(NotOnLine(p))
  }

  /** The first endpoint's other point is the second, and the second's is the
      first whenever the two endpoints differ. */
  lemma OtherPointOfEndpoints(l: StraightLine)
    ensures OtherPoint(l, l.a) == Ok(l.b)
    ensures l.a != l.b ==> OtherPoint(l, l.b) == Ok(l.a)
  {
  }

  /** Taking the other point twice returns to the endpoint one started from. */
  lemma OtherPointInvolution(l: StraightLine, p: PointId)
    requires Connects(l, p)
    ensures OtherPoint(l, p).Ok?
    ensures OtherPoint(l, OtherPoint(l, p).value) == Ok(p)
  {
  }

  /** The checked line constructor: a line needs two distinct points, and on
      success it keeps them in the order given. */
  function NewLine(first: Point, second: Point): (r: Result<StraightLine, GeometryError>)
    ensures r.Err? <==> first.id == second.id
    ensures r.Err? ==> r.error == SameEndpoints
    ensures r.Ok? ==> r.value.a == first.id && r.value.b == second.id
    ensures r.Ok? ==> OtherPoint(r.value, first.id) == Ok(second.id)
    ensures r.Ok? ==> OtherPoint(r.value, second.id) == Ok(first.id)
  {
    if first.id == second.id then Err(SameEndpoints)
    else Ok(StraightLine(first.id, second.id))
  }

  /** Equality of points is identity: two different points at the very same
      coordinates still make a valid line, and a point never makes a line
      with itself. */
  lemma NewLineComparesIdentity(p: Point, q: Point)
    requires p.x == q.x && p.y == q.y
    ensures NewLine(p, q).Ok? <==> p.id != q.id
    ensures NewLine(p, p).Err?
  {
  }

  /** The angle constructor: both lines must start at the same point, which
      becomes the vertex; both lines are kept unchanged. */
  function NewAngle(ab: StraightLine, ac: StraightLine): (r: Result<Angle, GeometryError>)
    ensures r.Ok? <==> ab.a == ac.a
    ensures r.Err? ==> r.error == NoSharedVertex
    ensures r.Ok? ==> r.value.ab == ab && r.value.ac == ac
    ensures r.Ok? ==> r.value.vertex == ab.a && r.value.vertex == ac.a
    ensures r.Ok? ==> Connects(ab, r.value.vertex) && Connects(ac, r.value.vertex)
  {
    if ab.a != ac.a then Err(NoSharedVertex)
    else Ok(Angle(ab.a, ab, ac))
  }

  /** The rectangle surface constructor. The `area` and `perimeter` arguments
      are accepted and then ignored: both are derived from the two sides. */
  function NewSurface(length: int, width: int, area: int, position: Point, perimeter: seq<StraightLine>): (r: Surface)
    ensures r.length == length && r.width == width && r.position == position
    ensures r.area == length * width
    ensures r.perimeter == 2 * length + 2 * width
  {
    Surface(length, width, length * width, position, length * 2 + width * 2)
  }

  /** The result of the surface constructor does not depend on the area and
      perimeter it is given. */
  lemma NewSurfaceIgnoresAreaAndPerimeter(length: int, width: int, position: Point,
                                          area1: int, perimeter1: seq<StraightLine>,
                                          area2: int, perimeter2: seq<StraightLine>)
    ensures NewSurface(length, width, area1, position, perimeter1)
         == NewSurface(length, width, area2, position, perimeter2)
  {
  }
}
