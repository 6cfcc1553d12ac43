/**
 A contact between two segments (src/physics/collision.rs): the two lines and
 the x-coordinate `hit` at which they were found to meet.
 */
module Collisions {
  import opened Geometry

  datatype Option<T> = None | Some(value: T)

  datatype Collision = Collision(lineA: Line, lineB: Line, hit: real)

  /** Stores both lines and the hit exactly as given. */
  function New(lineA: Line, lineB: Line, hit: real): (c: Collision)
    ensures c.lineA == lineA && c.lineB == lineB && c.hit == hit
  {
    Collision(lineA, lineB, hit)
  }

  /** The contact point: the hit abscissa and the value of line A there, as the
      source computes it with `Line::at`. */
  function Pos(c: Collision): (p: Point)
    requires NonVertical(c.lineA)
    ensures p.x == c.hit
    ensures p.y - GetBase(c.lineA) == GetSteepness(c.lineA) * c.hit
  {
    Point(c.hit, At(c.lineA, c.hit))
  }

  /** The contact point never looks at line B. */
  lemma PosIgnoresLineB(lineA: Line, lineB: Line, lineB': Line, hit: real)
    requires NonVertical(lineA)
    ensures Pos(New(lineA, lineB, hit)) == Pos(New(lineA, lineB', hit))
  {
  }

  /** The contact point with the corrected line value: it lies on the straight
      line through line A's end points. */
  function PosCorrected(c: Collision): (p: Point)
    requires NonVertical(c.lineA)
    ensures p.x == c.hit
    ensures c.hit == c.lineA.a.x ==> p == c.lineA.a
    ensures c.hit == c.lineA.b.x ==> p == c.lineA.b
  {
    Point(c.hit, AtCorrected(c.lineA, c.hit))
  }
}
