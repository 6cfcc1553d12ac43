/**
 Points and line segments of the physics module (src/physics/mod.rs).

 Coordinates are mathematical reals. A `Line` is a plain value holding its two
 end points; the source's borrowed references carry no behaviour of their own.
 */
module Geometry {

  datatype Point = Point(x: real, y: real)

  /** A segment from `a` to `b`. Lines built by `FromPoints` are canonical. */
  datatype Line = Line(a: Point, b: Point)

  /** The ordering the source promises for every line: `a` is not right of `b`. */
  predicate Canonical(l: Line) {
    l.a.x <= l.b.x
  }

  /** The slope of a line is only defined when its end points differ in x. */
  predicate NonVertical(l: Line) {
    l.a.x != l.b.x
  }

  function Min(u: real, v: real): real {
    if u <= v then u else v
  }

  function Max(u: real, v: real): real {
    if u <= v then v else u
  }

  function Abs(u: real): real {
    if u < 0.0 then -u else u
  }

  /** Builds a line from two points, swapping them when needed so that the
      left one comes first. */
  function FromPoints(p: Point, q: Point): (l: Line)
    ensures Canonical(l)
    ensures (l.a == p && l.b == q) || (l.a == q && l.b == p)
    ensures l.a.x == Min(p.x, q.x) && l.b.x == Max(p.x, q.x)
  {
    if p.x <= q.x then Line(p, q) else Line(q, p)
  }

  /** A line that is already canonical is rebuilt unchanged, so construction
      is idempotent. */
  lemma FromPointsKeepsCanonical(l: Line)
    requires Canonical(l)
    ensures FromPoints(l.a, l.b) == l
    ensures FromPoints(FromPoints(l.b, l.a).a, FromPoints(l.b, l.a).b) == FromPoints(l.b, l.a)
  {
  }

  /** The argument order does not matter, except for two distinct points
      sharing an x-coordinate, where the first argument stays first. */
  lemma FromPointsOrderIndependent(p: Point, q: Point)
    ensures FromPoints(p, q) == FromPoints(q, p) <==> (p.x != q.x || p == q)
  {
    if p.x == q.x && p != q {
      assert FromPoints(p, q).a == p;
      assert FromPoints(q, p).a == q;
    }
  }

  /** The left end point of a line. */
  function Leftest(l: Line): (p: Point)
    ensures Canonical(l) ==> p.x <= l.b.x
    ensures p == l.a
  {
    l.a
  }

  /** The right end point of a line. */
  function Rightest(l: Line): (p: Point)
    ensures Canonical(l) ==> l.a.x <= p.x
    ensures p == l.b
  {
    l.b
  }

  /** For a constructed line the two extremes are the smaller and the larger
      x-coordinate of the inputs. */
  lemma ExtremesOfConstructedLine(p: Point, q: Point)
    ensures Leftest(FromPoints(p, q)).x == Min(p.x, q.x)
    ensures Rightest(FromPoints(p, q)).x == Max(p.x, q.x)
    ensures Leftest(FromPoints(p, q)).x <= Rightest(FromPoints(p, q)).x
  {
  }

  /** Rise over run. The source divides by `b.x - a.x`, so vertical lines are
      excluded. */
  function GetSteepness(l: Line): (s: real)
    requires NonVertical(l)
    ensures s * (l.b.x - l.a.x) == l.b.y - l.a.y
  {
    (l.b.y - l.a.y) / (l.b.x - l.a.x)
  }

  /** The slope does not depend on which end point is stored first. */
  lemma SteepnessOrderIndependent(p: Point, q: Point)
    requires p.x != q.x
    ensures GetSteepness(Line(p, q)) == GetSteepness(Line(q, p))
    ensures GetSteepness(FromPoints(p, q)) == GetSteepness(Line(p, q))
  {
    var s := GetSteepness(Line(p, q));
    var t := GetSteepness(Line(q, p));
    assert s * (q.x - p.x) == t * (q.x - p.x);
  }

  /** The y-coordinate of the left end point. */
  function GetBase(l: Line): (r: real)
    ensures r == Leftest(l).y
  {
    l.a.y
  }

  /** The value of the line at `x`, as the source computes it: slope times `x`
      plus the base. */
  function At(l: Line, x: real): (r: real)
    requires NonVertical(l)
    ensures r - GetBase(l) == GetSteepness(l) * x
  {
    GetSteepness(l) * x + GetBase(l)
  }

  /** `At` is the straight line through (0, base) with the segment's slope. */
  lemma AtIsAffine(l: Line, x1: real, x2: real)
    requires NonVertical(l)
    ensures At(l, 0.0) == GetBase(l)
    ensures At(l, x2) - At(l, x1) == GetSteepness(l) * (x2 - x1)
  {
  }

  /** As written, `At` reaches the segment's own left end point only when that
      point lies on the y-axis or the segment is horizontal. */
  lemma AtPassesStartIff(l: Line)
    requires NonVertical(l)
    ensures At(l, l.a.x) == l.a.y <==> (l.a.x == 0.0 || GetSteepness(l) == 0.0)
  {
  }

  /** A concrete segment that `At` misses: from (1, 0) to (2, 1), `At` gives 1
      at x = 1 although the segment starts at height 0 there. */
  lemma AtMissesOwnStart()
    ensures var l := Line(Point(1.0, 0.0), Point(2.0, 1.0));
            NonVertical(l) && At(l, 1.0) == 1.0 && l.a.y == 0.0
  {
    var l := Line(Point(1.0, 0.0), Point(2.0, 1.0));
    assert GetSteepness(l) == 1.0;
  }

  /** The value at `x` of the straight line through both end points. */
  function AtCorrected(l: Line, x: real): (y: real)
    requires NonVertical(l)
    ensures x == l.a.x ==> y == l.a.y
    ensures x == l.b.x ==> y == l.b.y
    ensures l.a.x == 0.0 ==> y == At(l, x)
  {
    GetSteepness(l) * (x - l.a.x) + l.a.y
  }

  /** Between two abscissae the corrected value moves by slope times the
      distance, as `At` does. */
  lemma AtCorrectedIsAffine(l: Line, x1: real, x2: real)
    requires NonVertical(l)
    ensures AtCorrected(l, x2) - AtCorrected(l, x1) == At(l, x2) - At(l, x1)
  {
    var s := GetSteepness(l);
    assert s * (x2 - l.a.x) - s * (x1 - l.a.x) == s * x2 - s * x1;
  }
}
