/**
 The square particle of src/simulation/particle.rs: a position, a mesh of two
 triangles around it, a force and a mass.

 The triangle type, `Triangle::get_collisions` and `Vector2D::as_speed` are not
 part of this model: a triangle is a record of three points, and the other two
 are parameters (`getCollisions`, `asSpeed`) that the operations use without
 knowing what they compute.
 */
module SquareParticle {
  import opened Geometry
  import opened Vectors
  import opened Collisions

  datatype Triangle = Triangle(a: Point, b: Point, c: Point)

  /** The three corners of a triangle, in order. */
  function Vertices(t: Triangle): seq<Point> {
    [t.a, t.b, t.c]
  }

  datatype Particle = Particle(pos: Point, mesh: seq<Triangle>, force: Vector2D, mass: real)

  // The four corners of the square of side `size` centred on `pos`.

  function UpperLeft(pos: Point, size: real): Point {
    Point(pos.x - size / 2.0, pos.y + size / 2.0)
  }

  function UpperRight(pos: Point, size: real): Point {
    Point(pos.x + size / 2.0, pos.y + size / 2.0)
  }

  function LowerRight(pos: Point, size: real): Point {
    Point(pos.x + size / 2.0, pos.y - size / 2.0)
  }

  function LowerLeft(pos: Point, size: real): Point {
    Point(pos.x - size / 2.0, pos.y - size / 2.0)
  }

  function Corners(pos: Point, size: real): set<Point> {
    {UpperLeft(pos, size), UpperRight(pos, size), LowerRight(pos, size), LowerLeft(pos, size)}
  }

  /** The mesh the constructor builds from the corners a (upper left),
      b (upper right), c (lower right) and d (lower left): [abd, acd]. */
  function SquareMesh(pos: Point, size: real): seq<Triangle> {
    var a := UpperLeft(pos, size);
    var b := UpperRight(pos, size);
    var c := LowerRight(pos, size);
    var d := LowerLeft(pos, size);
    [Triangle(a, b, d), Triangle(a, c, d)]
  }

  /** A fresh particle: the given position, force and mass, and the two
      triangles over the corners of the square of side `size` around `pos`. */
  function New(pos: Point, force: Vector2D, mass: real, size: real): (p: Particle)
    ensures p.pos == pos && p.force == force && p.mass == mass
    ensures |p.mesh| == 2
    ensures p.mesh[0] == Triangle(UpperLeft(pos, size), UpperRight(pos, size), LowerLeft(pos, size))
    ensures p.mesh[1] == Triangle(UpperLeft(pos, size), LowerRight(pos, size), LowerLeft(pos, size))
    ensures forall i, k :: 0 <= i < 2 && 0 <= k < 3 ==> Vertices(p.mesh[i])[k] in Corners(pos, size)
    ensures forall i, k :: 0 <= i < 2 && 0 <= k < 3 ==>
              Abs(Vertices(p.mesh[i])[k].x - pos.x) == Abs(size) / 2.0 &&
              Abs(Vertices(p.mesh[i])[k].y - pos.y) == Abs(size) / 2.0
  {
    Particle(pos, SquareMesh(pos, size), force, mass)
  }

  function GetMesh(p: Particle): seq<Triangle> {
    p.mesh
  }

  function GetForce(p: Particle): Vector2D {
    p.force
  }

  /** A write through `get_force_ref_mut`: the particle with its force replaced. */
  function SetForce(p: Particle, force: Vector2D): (r: Particle)
    ensures GetForce(r) == force
    ensures r.pos == p.pos && r.mesh == p.mesh && r.mass == p.mass
  {
    p.(force := force)
  }

  /** The position as the particle reports it. */
  function Pos(p: Particle): Point {
    p.pos
  }

  /** The velocity: the force turned into a speed by the given `asSpeed`,
      which the source takes from `Vector2D`. */
  function GetSpeed(p: Particle, asSpeed: (Vector2D, real) -> Vector2D): Vector2D {
    asSpeed(p.force, p.mass)
  }

  /** Where `q` lies relative to `origin`. */
  function Offset(origin: Point, q: Point): Vector2D {
    Vector2D(q.x - origin.x, q.y - origin.y)
  }

  function Shift(q: Point, dx: real, dy: real): Point {
    Point(q.x + dx, q.y + dy)
  }

  function ShiftTriangle(t: Triangle, dx: real, dy: real): Triangle {
    Triangle(Shift(t.a, dx, dy), Shift(t.b, dx, dy), Shift(t.c, dx, dy))
  }

  /** Every vertex of every triangle moved by the same displacement. */
  function ShiftMesh(m: seq<Triangle>, dx: real, dy: real): (r: seq<Triangle>)
    ensures |r| == |m|
    ensures forall i, k :: 0 <= i < |m| && 0 <= k < 3 ==>
              Vertices(r[i])[k] == Shift(Vertices(m[i])[k], dx, dy)
  {
    seq(|m|, i requires 0 <= i < |m| => ShiftTriangle(m[i], dx, dy))
  }

  /** One tick of movement: position and every mesh vertex advance by speed
      times `tick`; force and mass stay. */
  function Mov(p: Particle, tick: real, asSpeed: (Vector2D, real) -> Vector2D): (r: Particle)
    ensures r.force == p.force && r.mass == p.mass
    ensures Pos(r).x - Pos(p).x == GetX(GetSpeed(p, asSpeed)) * tick
    ensures Pos(r).y - Pos(p).y == GetY(GetSpeed(p, asSpeed)) * tick
    ensures |r.mesh| == |p.mesh|
    ensures forall i, k :: 0 <= i < |p.mesh| && 0 <= k < 3 ==>
              Offset(r.pos, Vertices(r.mesh[i])[k]) == Offset(p.pos, Vertices(p.mesh[i])[k])
  {
    var speed := GetSpeed(p, asSpeed);
    var dx := GetX(speed) * tick;
    var dy := GetY(speed) * tick;
    p.(pos := Shift(p.pos, dx, dy), mesh := ShiftMesh(p.mesh, dx, dy))
  }

  /** Shifting by nothing leaves a mesh as it is. */
  lemma ShiftMeshZero(m: seq<Triangle>)
    ensures ShiftMesh(m, 0.0, 0.0) == m
  {
    var r := ShiftMesh(m, 0.0, 0.0);
    forall i | 0 <= i < |m|
      ensures r[i] == m[i]
    {
      assert Vertices(r[i])[0] == Vertices(m[i])[0];
      assert Vertices(r[i])[1] == Vertices(m[i])[1];
      assert Vertices(r[i])[2] == Vertices(m[i])[2];
    }
  }

  /** Two shifts of a mesh compose into one by the summed displacement. */
  lemma ShiftMeshTwice(m: seq<Triangle>, dx1: real, dy1: real, dx2: real, dy2: real)
    ensures ShiftMesh(ShiftMesh(m, dx1, dy1), dx2, dy2) == ShiftMesh(m, dx1 + dx2, dy1 + dy2)
  {
    var r := ShiftMesh(ShiftMesh(m, dx1, dy1), dx2, dy2);
    var s := ShiftMesh(m, dx1 + dx2, dy1 + dy2);
    forall i | 0 <= i < |m|
      ensures r[i] == s[i]
    {
      assert Vertices(r[i])[0] == Vertices(s[i])[0];
      assert Vertices(r[i])[1] == Vertices(s[i])[1];
      assert Vertices(r[i])[2] == Vertices(s[i])[2];
    }
  }

  /** A tick of length zero moves nothing. */
  lemma MovZeroIsIdentity(p: Particle, asSpeed: (Vector2D, real) -> Vector2D)
    ensures Mov(p, 0.0, asSpeed) == p
  {
    var v := GetSpeed(p, asSpeed);
    assert GetX(v) * 0.0 == 0.0 && GetY(v) * 0.0 == 0.0;
    ShiftMeshZero(p.mesh);
  }

  /** A move is a shift of position and mesh by speed times tick. */
  lemma MovIsShift(p: Particle, tick: real, asSpeed: (Vector2D, real) -> Vector2D, dx: real, dy: real)
    requires dx == GetX(GetSpeed(p, asSpeed)) * tick && dy == GetY(GetSpeed(p, asSpeed)) * tick
    ensures Mov(p, tick, asSpeed) == p.(pos := Shift(p.pos, dx, dy), mesh := ShiftMesh(p.mesh, dx, dy))
  {
  }

  /** Under a constant force, two ticks of lengths t1 and t2 move a particle
      as far as one tick of length t1 + t2. */
  lemma MovTwiceIsMovSum(p: Particle, t1: real, t2: real, asSpeed: (Vector2D, real) -> Vector2D)
    ensures Mov(Mov(p, t1, asSpeed), t2, asSpeed) == Mov(p, t1 + t2, asSpeed)
  {
    var v := GetSpeed(p, asSpeed);
    var dx1, dy1 := GetX(v) * t1, GetY(v) * t1;
    var dx2, dy2 := GetX(v) * t2, GetY(v) * t2;
    assert dx1 + dx2 == GetX(v) * (t1 + t2) && dy1 + dy2 == GetY(v) * (t1 + t2);
    MovIsShift(p, t1, asSpeed, dx1, dy1);
    var q := Mov(p, t1, asSpeed);
    assert GetSpeed(q, asSpeed) == v;
    MovIsShift(q, t2, asSpeed, dx2, dy2);
    MovIsShift(p, t1 + t2, asSpeed, dx1 + dx2, dy1 + dy2);
    ShiftMeshTwice(p.mesh, dx1, dy1, dx2, dy2);
  }

  /** Moving keeps the mesh the square of the same size around the new
      position: it is translated, never rotated or resized. */
  lemma MovKeepsSquare(p: Particle, size: real, tick: real, asSpeed: (Vector2D, real) -> Vector2D)
    requires p.mesh == SquareMesh(p.pos, size)
    ensures Mov(p, tick, asSpeed).mesh == SquareMesh(Mov(p, tick, asSpeed).pos, size)
  {
    var r := Mov(p, tick, asSpeed);
    var m := SquareMesh(r.pos, size);
    forall i | 0 <= i < 2
      ensures r.mesh[i] == m[i]
    {
      assert Vertices(r.mesh[i])[0] == Vertices(m[i])[0];
      assert Vertices(r.mesh[i])[1] == Vertices(m[i])[1];
      assert Vertices(r.mesh[i])[2] == Vertices(m[i])[2];
    }
  }

  /** Twice the signed area of the triangle (o, p, q): positive when `q` lies
      to the left of the ray from `o` through `p`. */
  function Cross(o: Point, p: Point, q: Point): real {
    (p.x - o.x) * (q.y - o.y) - (p.y - o.y) * (q.x - o.x)
  }

  /** `q` lies in the closed triangle `t`: on the same side of all three
      edges. */
  predicate InTriangle(q: Point, t: Triangle) {
    var d1 := Cross(t.a, t.b, q);
    var d2 := Cross(t.b, t.c, q);
    var d3 := Cross(t.c, t.a, q);
    (d1 >= 0.0 && d2 >= 0.0 && d3 >= 0.0) || (d1 <= 0.0 && d2 <= 0.0 && d3 <= 0.0)
  }

  /** `q` lies in the closed square of side `size` centred on `pos`. */
  predicate InSquare(q: Point, pos: Point, size: real) {
    Abs(q.x - pos.x) <= size / 2.0 && Abs(q.y - pos.y) <= size / 2.0
  }

  /** The mesh as built does not cover its square: for the square of side 2
      around the origin, (0.9, 0) lies in the square but in neither triangle,
      because both triangles share the left side a-d instead of a diagonal. */
  lemma SquareMeshLeavesGap(pos: Point, q: Point)
    requires pos == Point(0.0, 0.0) && q == Point(0.9, 0.0)
    ensures InSquare(q, pos, 2.0)
    ensures !InTriangle(q, SquareMesh(pos, 2.0)[0])
    ensures !InTriangle(q, SquareMesh(pos, 2.0)[1])
  {
    var m := SquareMesh(pos, 2.0);
    assert m[0] == Triangle(Point(-1.0, 1.0), Point(1.0, 1.0), Point(-1.0, -1.0));
    assert m[1] == Triangle(Point(-1.0, 1.0), Point(1.0, -1.0), Point(-1.0, -1.0));
    assert Cross(m[0].a, m[0].b, q) == -2.0;
    assert Cross(m[0].c, m[0].a, q) == -3.8;
    assert Cross(m[0].b, m[0].c, q) == 1.8;
    assert Cross(m[1].a, m[1].b, q) == 1.8;
    assert Cross(m[1].b, m[1].c, q) == -2.0;
  }

  /** The square split along its diagonal a-c, as evidently intended:
      [abc, acd]. */
  function SquareMeshCorrected(pos: Point, size: real): (m: seq<Triangle>)
    ensures |m| == 2
    ensures forall i, k :: 0 <= i < 2 && 0 <= k < 3 ==> Vertices(m[i])[k] in Corners(pos, size)
  {
    var a := UpperLeft(pos, size);
    var b := UpperRight(pos, size);
    var c := LowerRight(pos, size);
    var d := LowerLeft(pos, size);
    [Triangle(a, b, c), Triangle(a, c, d)]
  }

  /** A non-negative factor keeps the sign of the other. */
  lemma ScaleKeepsSign(k: real, y: real)
    requires k >= 0.0
    ensures y >= 0.0 ==> k * y >= 0.0
    ensures y <= 0.0 ==> k * y <= 0.0
  {
  }

  /** The upper-right triangle abc holds the points of the square on or
      above the diagonal a-c. */
  lemma UpperTriangleCovers(pos: Point, size: real, q: Point)
    requires size >= 0.0
    requires InSquare(q, pos, size)
    requires (q.x - pos.x) + (q.y - pos.y) >= 0.0
    ensures InTriangle(q, Triangle(UpperLeft(pos, size), UpperRight(pos, size), LowerRight(pos, size)))
  {
    var h := size / 2.0;
    var u := q.x - pos.x;
    var v := q.y - pos.y;
    var a, b, c := UpperLeft(pos, size), UpperRight(pos, size), LowerRight(pos, size);
    assert Cross(a, b, q) == (2.0 * h) * (v - h);
    assert Cross(b, c, q) == (2.0 * h) * (u - h);
    assert Cross(c, a, q) == (2.0 * h) * (-(u + v));
    ScaleKeepsSign(2.0 * h, v - h);
    ScaleKeepsSign(2.0 * h, u - h);
    ScaleKeepsSign(2.0 * h, -(u + v));
  }

  /** The lower-left triangle acd holds the points of the square on or below
      the diagonal a-c. */
  lemma LowerTriangleCovers(pos: Point, size: real, q: Point)
    requires size >= 0.0
    requires InSquare(q, pos, size)
    requires (q.x - pos.x) + (q.y - pos.y) <= 0.0
    ensures InTriangle(q, Triangle(UpperLeft(pos, size), LowerRight(pos, size), LowerLeft(pos, size)))
  {
    var h := size / 2.0;
    var u := q.x - pos.x;
    var v := q.y - pos.y;
    var a, c, d := UpperLeft(pos, size), LowerRight(pos, size), LowerLeft(pos, size);
    assert Cross(a, c, q) == (2.0 * h) * (u + v);
    assert Cross(c, d, q) == (2.0 * h) * (-(v + h));
    assert Cross(d, a, q) == (2.0 * h) * (-(u + h));
    ScaleKeepsSign(2.0 * h, u + v);
    ScaleKeepsSign(2.0 * h, -(v + h));
    ScaleKeepsSign(2.0 * h, -(u + h));
  }

  /** Every point of the square lies in one of the two triangles of the
      corrected mesh. */
  lemma SquareMeshCorrectedCovers(pos: Point, size: real, q: Point)
    requires size >= 0.0
    requires InSquare(q, pos, size)
    ensures InTriangle(q, SquareMeshCorrected(pos, size)[0]) || InTriangle(q, SquareMeshCorrected(pos, size)[1])
  {
    if (q.x - pos.x) + (q.y - pos.y) >= 0.0 {
      UpperTriangleCovers(pos, size, q);
    } else {
      LowerTriangleCovers(pos, size, q);
    }
  }

  /** Wall response: the force is negated and nothing else changes. */
  function Bounce(p: Particle): (r: Particle)
    ensures GetX(r.force) == -GetX(p.force) && GetY(r.force) == -GetY(p.force)
    ensures r.pos == p.pos && r.mesh == p.mesh && r.mass == p.mass
  {
    p.(force := Neg(p.force))
  }

  /** Bouncing twice restores the particle. */
  lemma BounceTwiceIsIdentity(p: Particle)
    ensures Bounce(Bounce(p)) == p
  {
  }

  /** The contact response as written: `force -= other`, which with `-=` as
      written changes nothing, so the particle is returned as it was. */
  function Collide(p: Particle, other: Vector2D): (r: Particle)
    ensures r.pos == p.pos && r.mesh == p.mesh && r.mass == p.mass
    ensures r.force == p.force
  {
    p.(force := SubAssign(p.force, other))
  }

  /** The contact response with the corrected `-=`: only the force changes,
      and it loses `other`. */
  function CollideCorrected(p: Particle, other: Vector2D): (r: Particle)
    ensures r.pos == p.pos && r.mesh == p.mesh && r.mass == p.mass
    ensures r.force == Sub(p.force, other)
  {
    p.(force := SubAssignCorrected(p.force, other))
  }

  /** The collisions of triangle `t` with the triangles `others`, in order. */
  function Row(t: Triangle, others: seq<Triangle>, getCollisions: (Triangle, Triangle) -> seq<Collision>): seq<Collision> {
    if |others| == 0 then []
    else Row(t, others[..|others| - 1], getCollisions) + getCollisions(t, others[|others| - 1])
  }

  /** The collisions of every pair (own triangle, other triangle), own
      triangles in the outer position, both in mesh order. */
  function AllPairs(own: seq<Triangle>, others: seq<Triangle>, getCollisions: (Triangle, Triangle) -> seq<Collision>): seq<Collision> {
    if |own| == 0 then []
    else AllPairs(own[..|own| - 1], others, getCollisions) + Row(own[|own| - 1], others, getCollisions)
  }

  /** A row is empty exactly when every pair in it yields nothing. */
  lemma {:induction false} RowEmptyIff(t: Triangle, others: seq<Triangle>, getCollisions: (Triangle, Triangle) -> seq<Collision>)
    ensures Row(t, others, getCollisions) == [] <==>
            forall j :: 0 <= j < |others| ==> getCollisions(t, others[j]) == []
  {
    if |others| > 0 {
      var init := others[..|others| - 1];
      RowEmptyIff(t, init, getCollisions);
      assert forall j :: 0 <= j < |init| ==> init[j] == others[j];
    }
  }

  /** All pairs give nothing exactly when every single pair gives nothing. */
  lemma {:induction false} AllPairsEmptyIff(own: seq<Triangle>, others: seq<Triangle>, getCollisions: (Triangle, Triangle) -> seq<Collision>)
    ensures AllPairs(own, others, getCollisions) == [] <==>
            forall i, j :: 0 <= i < |own| && 0 <= j < |others| ==> getCollisions(own[i], others[j]) == []
  {
    if |own| > 0 {
      var init := own[..|own| - 1];
      AllPairsEmptyIff(init, others, getCollisions);
      RowEmptyIff(own[|own| - 1], others, getCollisions);
      assert forall i :: 0 <= i < |init| ==> init[i] == own[i];
    }
  }

  /** The collisions of one own triangle with every triangle of `others`,
      in mesh order: the inner loop of `collision_with`. */
  method RowCollisions(triangle: Triangle, others: seq<Triangle>, getCollisions: (Triangle, Triangle) -> seq<Collision>)
    returns (row: seq<Collision>)
    ensures row == Row(triangle, others, getCollisions)
    ensures row == [] <==> forall j :: 0 <= j < |others| ==> getCollisions(triangle, others[j]) == []
  {
    row := [];
    for j := 0 to |others|
      invariant row == Row(triangle, others[..j], getCollisions)
    {
      assert others[..j + 1][..j] == others[..j];
      row := row + getCollisions(triangle, others[j]);
    }
    assert others[..|others|] == others;
    RowEmptyIff(triangle, others, getCollisions);
  }

  /** Gathers the collisions of every own triangle with every triangle of
      `other`, own triangles outermost, in mesh order. */
  method CollisionWith(self: Particle, other: Particle, getCollisions: (Triangle, Triangle) -> seq<Collision>)
    returns (all: seq<Collision>)
    ensures all == AllPairs(self.mesh, other.mesh, getCollisions)
    ensures all == [] <==>
            forall i, j :: 0 <= i < |self.mesh| && 0 <= j < |other.mesh| ==>
              getCollisions(self.mesh[i], other.mesh[j]) == []
  {
    all := [];
    for i := 0 to |self.mesh|
      invariant all == AllPairs(self.mesh[..i], other.mesh, getCollisions)
    {
      var collisions := RowCollisions(self.mesh[i], other.mesh, getCollisions);
      assert self.mesh[..i + 1][..i] == self.mesh[..i];
      all := all + collisions;
    }
    assert self.mesh[..|self.mesh|] == self.mesh;
    AllPairsEmptyIff(self.mesh, other.mesh, getCollisions);
  }
}
