/**
 The two-component force/velocity value of the physics module
 (`Vector2D` in src/physics/mod.rs), over reals.

 Operators that take `&mut self` are modelled as functions returning the
 updated receiver.
 */
module Vectors {

  datatype Vector2D = Vector2D(x: real, y: real)

  /** The zero vector. */
  function New(): (v: Vector2D)
    ensures GetX(v) == 0.0 && GetY(v) == 0.0
  {
    Vector2D(0.0, 0.0)
  }

  function FromParts(x: real, y: real): Vector2D {
    Vector2D(x, y)
  }

  function GetX(v: Vector2D): real {
    v.x
  }

  function GetY(v: Vector2D): real {
    v.y
  }

  /** Building from parts and reading them back gives the parts; every vector
      is built from its own parts. */
  lemma FromPartsRoundTrip(x: real, y: real, v: Vector2D)
    ensures GetX(FromParts(x, y)) == x && GetY(FromParts(x, y)) == y
    ensures FromParts(GetX(v), GetY(v)) == v
  {
  }

  /** Component-wise sum. */
  function Add(u: Vector2D, v: Vector2D): (r: Vector2D)
    ensures GetX(r) == GetX(u) + GetX(v) && GetY(r) == GetY(u) + GetY(v)
  {
    FromParts(u.x + v.x, u.y + v.y)
  }

  /** `+=`: the receiver after adding `rhs` in place. */
  function AddAssign(self: Vector2D, rhs: Vector2D): (r: Vector2D)
    ensures r == Add(self, rhs)
  {
    self.(x := self.x + rhs.x).(y := self.y + rhs.y)
  }

  /** Component-wise difference. */
  function Sub(u: Vector2D, v: Vector2D): (r: Vector2D)
    ensures GetX(r) == GetX(u) - GetX(v) && GetY(r) == GetY(u) - GetY(v)
  {
    FromParts(u.x - v.x, u.y - v.y)
  }

  /** `-=` as written: the body evaluates `self.x - rhs.x` and `self.y - rhs.y`
      as statements and drops both values, so the receiver keeps its value and
      `rhs` has no effect. */
  function SubAssign(self: Vector2D, rhs: Vector2D): (r: Vector2D)
    ensures r == self
  {
    self
  }

  /** `div` as written: both quotients are dropped; the receiver is left as it
      was and the result is a copy of it. The pair is (receiver after the
      call, returned value). */
  function Div(self: Vector2D, scalar: real): (r: (Vector2D, Vector2D))
    ensures r.0 == self && r.1 == self
  {
    (self, self)
  }

  /** Component-wise negation. The source's `Neg` is not part of this model;
      this is the negation the particle code relies on. */
  function Neg(v: Vector2D): (r: Vector2D)
    ensures Add(v, r) == New()
  {
    Vector2D(-v.x, -v.y)
  }

  /** The zero vector is a two-sided identity of `+` and of `+=`. */
  lemma NewIsAdditiveIdentity(v: Vector2D)
    ensures Add(New(), v) == v && Add(v, New()) == v
    ensures AddAssign(v, New()) == v && AddAssign(New(), v) == v
  {
  }

  /** `+` is commutative and associative. */
  lemma AddCommutesAndAssociates(u: Vector2D, v: Vector2D, w: Vector2D)
    ensures Add(u, v) == Add(v, u)
    ensures Add(Add(u, v), w) == Add(u, Add(v, w))
  {
  }

  /** `-` undoes `+` and vice versa. */
  lemma SubUndoesAdd(u: Vector2D, v: Vector2D)
    ensures Sub(Add(u, v), v) == u
    ensures Add(Sub(u, v), v) == u
  {
  }

  /** Negating twice restores the vector. */
  lemma NegInvolutive(v: Vector2D)
    ensures Neg(Neg(v)) == v
  {
  }

  /** The `-=` as written differs from `-`: subtracting (1, 0) from (1, 1)
      in place leaves (1, 1). */
  lemma SubAssignDiscards()
    ensures SubAssign(Vector2D(1.0, 1.0), Vector2D(1.0, 0.0)) != Sub(Vector2D(1.0, 1.0), Vector2D(1.0, 0.0))
  {
  }

  /** The `div` as written differs from division: halving (2, 4) returns (2, 4). */
  lemma DivDiscards()
    ensures Div(Vector2D(2.0, 4.0), 2.0).1 != Vector2D(1.0, 2.0)
  {
  }

  /** `-=` as evidently intended: the receiver becomes the difference. */
  function SubAssignCorrected(self: Vector2D, rhs: Vector2D): (r: Vector2D)
    ensures r == Sub(self, rhs)
    ensures Add(r, rhs) == self
  {
    self.(x := self.x - rhs.x).(y := self.y - rhs.y)
  }

  /** `div` corrected: the quotient is returned. Leaving the receiver as it
      was is a choice; fixing the dropped quotients with `/=` would divide the
      receiver in place as well. */
  function DivCorrected(self: Vector2D, scalar: real): (r: (Vector2D, Vector2D))
    requires scalar != 0.0
    ensures r.0 == self
    ensures GetX(r.1) * scalar == GetX(self) && GetY(r.1) * scalar == GetY(self)
  {
    (self, Vector2D(self.x / scalar, self.y / scalar))
  }
}
