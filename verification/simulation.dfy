/**
 The point particle of src/simulation/mod.rs: a position, a force, and a mesh
 holding one degenerate line from the position to itself. Contact exchanges
 force between two particles.
 */
module PointParticle {
  import opened Geometry
  import opened Vectors

  datatype Particle = Particle(pos: Point, force: Vector2D, mesh: seq<Line>)

  /** A fresh particle at `pos` whose mesh is the single line from `pos` to
      itself. */
  function New(pos: Point, force: Vector2D): (p: Particle)
    ensures p.pos == pos && GetForce(p) == force
    ensures |GetMesh(p)| == 1 && GetMesh(p)[0].a == pos && GetMesh(p)[0].b == pos
  {
    Particle(pos, force, [FromPoints(pos, pos)])
  }

  /** The constructed mesh line has no extent, so it is vertical and has no
      slope: it cannot take part in a line contact test. */
  lemma NewMeshIsVertical(pos: Point, force: Vector2D)
    ensures !NonVertical(GetMesh(New(pos, force))[0])
  {
  }

  function GetMesh(p: Particle): seq<Line> {
    p.mesh
  }

  function GetForce(p: Particle): Vector2D {
    p.force
  }

  /** A write through `get_force_ref_mut`: the particle with its force replaced. */
  function SetForce(p: Particle, force: Vector2D): (r: Particle)
    ensures GetForce(r) == force
    ensures r.pos == p.pos && r.mesh == p.mesh
  {
    p.(force := force)
  }

  /** Reading back after writing through the mutable reference gives what was
      written, and a second write replaces the first. */
  lemma SetForceThenGet(p: Particle, f: Vector2D, g: Vector2D)
    ensures GetForce(SetForce(p, f)) == f
    ensures SetForce(SetForce(p, f), g) == SetForce(p, g)
    ensures SetForce(p, GetForce(p)) == p
  {
  }

  /** The force exchange as written: `total = self.force - other.force`, then
      each side does `-= total.div(2.0)`. With `div` and `-=` as written,
      neither force changes. The pair is (self, other) after the call. */
  function Collide(self: Particle, other: Particle): (r: (Particle, Particle))
    ensures r.0.pos == self.pos && r.0.mesh == self.mesh
    ensures r.1.pos == other.pos && r.1.mesh == other.mesh
    ensures GetForce(r.0) == GetForce(self) && GetForce(r.1) == GetForce(other)
  {
    var total := Sub(GetForce(self), GetForce(other));
    var (total1, half1) := Div(total, 2.0);
    var self' := SetForce(self, SubAssign(self.force, half1));
    var (total2, half2) := Div(total1, 2.0);
    var other' := SetForce(other, SubAssign(GetForce(other), half2));
    (self', other')
  }

  /** The force exchange with the corrected `div` and `-=`. Both sides lose
      half the difference of the forces, so `self` ends at the average and
      the difference between the two forces is kept. */
  function CollideCorrected(self: Particle, other: Particle): (r: (Particle, Particle))
    ensures r.0.pos == self.pos && r.0.mesh == self.mesh
    ensures r.1.pos == other.pos && r.1.mesh == other.mesh
    ensures GetForce(r.0) == Vector2D((self.force.x + other.force.x) / 2.0, (self.force.y + other.force.y) / 2.0)
    ensures Sub(GetForce(r.0), GetForce(self)) == Sub(GetForce(r.1), GetForce(other))
    ensures Sub(GetForce(r.0), GetForce(r.1)) == Sub(GetForce(self), GetForce(other))
  {
    var total := Sub(GetForce(self), GetForce(other));
    var (total1, half1) := DivCorrected(total, 2.0);
    var self' := SetForce(self, SubAssignCorrected(self.force, half1));
    var (total2, half2) := DivCorrected(total1, 2.0);
    var other' := SetForce(other, SubAssignCorrected(GetForce(other), half2));
    (self', other')
  }
}
