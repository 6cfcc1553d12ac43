# particle_collider core, modelled in Dafny

This project models the geometry and body-state logic of a small 2D particle
simulation. All values are mathematical reals rather than IEEE floats.

- **Geometry** (`geometry.dfy`) holds `Point` and `Line` from `src/physics/mod.rs`.
  Construction is canonicalising: the left point comes first. It also has the
  extremes, the slope (`get_steepness`), the base and the sampled value `at`.
- **Vectors** (`vectors.dfy`) holds `Vector2D`: the zero vector, `from_parts`,
  the getters, `+`, `+=`, `-`, `-=` and `div`. The last two are modelled as
  written, and as written they throw their arithmetic away.
- **Collisions** (`collision.dfy`) holds `Collision` from `src/physics/collision.rs`.
  It stores two lines and a `hit` abscissa, and derives the contact point `pos()`.
- **Contact** (`contact.dfy`) holds the segment contact test `Line::collide`.
  It lives in its own module because it returns a `Collision`, and `Collision`
  in turn uses `Line::at`.
- **SquareParticle** (`particle.dfy`) is the particle of `src/simulation/particle.rs`.
  It covers the two-triangle square mesh, movement by one tick, `bounce`, the
  contact response and the pairwise triangle-collision gathering.
- **PointParticle** (`simulation.dfy`) is the particle of `src/simulation/mod.rs`.
  It covers the one-line degenerate mesh, force access, and the force exchange `collide`.

Methods that take `&mut self` become functions that return the updated value.
`get_force_ref_mut` is modelled as `SetForce`, a write through the returned reference.
The plain accessors have no contracts of their own: `get_mesh`, `get_force`,
`pos` and `get_speed` (SquareParticle.GetMesh, SquareParticle.GetForce,
SquareParticle.Pos, SquareParticle.GetSpeed), and `get_x`/`get_y`. The
contracts of the other members state what they return.
Each source file is modelled against its own types. The two particle files do
not agree with each other or with `src/physics/mod.rs`. For example,
`particle.rs` uses a `Triangle` type that the physics module does not define.

`Line::collide`, `Line::at`, `-=`, `div` and the square mesh are modelled as
written. Corrected versions sit alongside them, as described under "## Findings".

## Model

| member | source | states |
|---|---|---|
| Geometry.FromPoints | src/physics/mod.rs:25-33 | The result is ordered (`a.x <= b.x`) and holds exactly the two given points, possibly swapped. Its x-extremes are the minimum and maximum of the inputs. |
| Geometry.FromPointsKeepsCanonical | src/physics/mod.rs:27-33 | Rebuilding an ordered line gives that same line, so construction is idempotent. |
| Geometry.FromPointsOrderIndependent | src/physics/mod.rs:27-33 | Swapping the arguments gives the same line exactly when the points differ in x or are equal. |
| Geometry.Leftest | src/physics/mod.rs:39-41 | Returns the first end point, which on an ordered line is not right of the second. |
| Geometry.Rightest | src/physics/mod.rs:35-37 | Returns the second end point, which on an ordered line is not left of the first. |
| Geometry.ExtremesOfConstructedLine | src/physics/mod.rs:27-41 | For a constructed line, leftest has the smaller input x and rightest the larger. |
| Geometry.GetSteepness | src/physics/mod.rs:43-45 | For a non-vertical line, slope times run equals rise. |
| Geometry.SteepnessOrderIndependent | src/physics/mod.rs:43-45 | The slope does not depend on which end point is stored first, so construction does not change it. |
| Geometry.GetBase | src/physics/mod.rs:47-49 | The base is the y of the leftest point. |
| Geometry.At | src/physics/mod.rs:82-84 | The value at `x` minus the base is the slope times `x`: `at` is the straight line through (0, base), not through the segment's left end point. |
| Geometry.AtIsAffine | src/physics/mod.rs:82-84 | `at(0)` is the base, and `at` changes by slope times the change in x. |
| Geometry.AtPassesStartIff | src/physics/mod.rs:82-84 | `at(a.x) == a.y` holds if and only if `a.x` is 0 or the slope is 0. |
| Geometry.AtMissesOwnStart | src/physics/mod.rs:82-84 | For the segment (1,0)-(2,1), `at(1)` is 1 although the segment starts at height 0. |
| Geometry.AtCorrected | src/physics/mod.rs:82-84 | The corrected value passes through both end points. It agrees with `at` when `a.x` is 0. |
| Geometry.AtCorrectedIsAffine | src/physics/mod.rs:82-84 | The corrected value changes between two abscissae exactly as `at` does. |
| Vectors.New | src/physics/mod.rs:96-98 | Both components of the new vector are zero. |
| Vectors.FromPartsRoundTrip | src/physics/mod.rs:100-110 | `get_x`/`get_y` return the parts given to `from_parts`, and every vector is rebuilt from its own parts. |
| Vectors.Add | src/physics/mod.rs:127-132 | Each component of the sum is the sum of the components. |
| Vectors.AddAssign | src/physics/mod.rs:134-139 | In-place `+=` leaves the receiver equal to the `+` of the two operands. |
| Vectors.NewIsAdditiveIdentity | src/physics/mod.rs:127-139 | The zero vector is a left and right identity of `+` and of `+=`. |
| Vectors.AddCommutesAndAssociates | src/physics/mod.rs:127-132 | `+` is commutative and associative. |
| Vectors.Sub | src/physics/mod.rs:141-146 | Each component of the difference is the difference of the components. |
| Vectors.SubUndoesAdd | src/physics/mod.rs:127-146 | `(a + b) - b == a` and `(a - b) + b == a`. |
| Vectors.SubAssign | src/physics/mod.rs:148-153 | As written, `-=` leaves the receiver unchanged. |
| Vectors.SubAssignDiscards | src/physics/mod.rs:148-153 | `(1,1) -= (1,0)` leaves (1,1), which differs from `(1,1) - (1,0)`. |
| Vectors.SubAssignCorrected | src/physics/mod.rs:148-153 | The corrected `-=` yields the difference, and adding `rhs` back restores the receiver. |
| Vectors.Div | src/physics/mod.rs:120-124 | As written, `div` leaves the receiver unchanged and returns a copy equal to it. |
| Vectors.DivDiscards | src/physics/mod.rs:120-124 | `(2,4).div(2)` returns (2,4), not (1,2). |
| Vectors.DivCorrected | src/physics/mod.rs:120-124 | The corrected `div` returns a vector that, times the scalar, gives the receiver. The receiver is unchanged. |
| Vectors.Neg | src/simulation/particle.rs:95 | The negation is an additive inverse. |
| Vectors.NegInvolutive | src/simulation/particle.rs:95 | Negating twice restores the vector. |
| Collisions.New | src/physics/collision.rs:11-17 | Both lines and the hit are stored exactly as given. |
| Collisions.Pos | src/physics/collision.rs:19-24 | `pos().x` is the hit. `pos().y` minus line A's base is line A's slope times the hit, which is `line_a.at(hit)`. |
| Collisions.PosIgnoresLineB | src/physics/collision.rs:19-24 | Two collisions that differ only in line B have the same `pos()`. |
| Collisions.PosCorrected | src/physics/collision.rs:19-24 | The corrected contact point has x equal to the hit. It is line A's own end point when the hit is that end point's x. |
| Contact.Collide | src/physics/mod.rs:51-80 | Disjoint x-ranges give no contact. Past that check, equal slopes give a contact iff the `a.y` values agree, with hit 0. With unequal slopes, a reported hit lies in `[max a.x, min b.x]`. The collision holds self and other in that order. |
| Contact.CollideSymmetric | src/physics/mod.rs:51-80 | Swapping the lines gives the same presence or absence and the same hit. |
| Contact.CollideHitIsMirrored | src/physics/mod.rs:75-84 | With unequal slopes, the two `at` lines agree at minus the reported hit. |
| Contact.CollideReportsMirroredMeeting | src/physics/mod.rs:51-80 | Conversely, with unequal slopes, every `x` in `[max a.x, min b.x]` where the two `at` lines meet at `-x` is reported as a contact at hit `x`, with self and other in that order. |
| Contact.CrossingMissed | src/physics/mod.rs:75-79 | The diagonals (0,0)-(2,2) and (0,2)-(2,0) get no contact as written. |
| Contact.DiagonalsMeet | src/physics/mod.rs:75-79 | The same diagonals share the point (1,1) inside their common interval. |
| Contact.CollideCorrected | src/physics/mod.rs:51-80 | For lines built by `from_points`, a reported contact is a point where both segments are defined and pass through the same y. |
| Contact.CollideCorrectedComplete | src/physics/mod.rs:51-80 | When both lines pass through the same y at some `x` of `[max a.x, min b.x]`, the corrected test reports a contact. Together with the ensures above, it reports exactly the touching pairs of lines built by `from_points`. |
| Contact.CollideCorrectedAtCrossing | src/physics/mod.rs:75-79 | With unequal slopes, the corrected test reports the crossing exactly when the crossing lies in the shared interval. |
| Contact.CrossingFound | src/physics/mod.rs:75-79 | The corrected test finds the diagonals' contact at hit 1, with contact point (1,1). |
| SquareParticle.New | src/simulation/particle.rs:15-51 | `pos`, `force` and `mass` are stored unchanged. The mesh is exactly [upper-left, upper-right, lower-left] and [upper-left, lower-right, lower-left]. Every vertex is one of the four corners, at half the absolute size from `pos` on each axis. |
| SquareParticle.SetForce | src/simulation/particle.rs:65-67 | After a write through the mutable reference, `get_force` returns the written value. Position, mesh and mass are kept. |
| SquareParticle.Mov | src/simulation/particle.rs:69-81 | Position moves by speed times tick. Each vertex keeps its offset from the position. Force, mass and mesh length stay. |
| SquareParticle.MovZeroIsIdentity | src/simulation/particle.rs:69-81 | A tick of length 0 leaves the particle unchanged. |
| SquareParticle.MovTwiceIsMovSum | src/simulation/particle.rs:69-81 | Ticks of t1 and then t2 equal one tick of t1 + t2. |
| SquareParticle.MovKeepsSquare | src/simulation/particle.rs:69-81 | A square mesh around the position stays the same-size square around the new position. |
| SquareParticle.SquareMeshLeavesGap | src/simulation/particle.rs:40-43 | In the size-2 square at the origin, (0.9, 0) lies in neither triangle of the mesh as built. |
| SquareParticle.SquareMeshCorrected | src/simulation/particle.rs:40-43 | The corrected mesh has two triangles whose vertices are all corners of the square. |
| SquareParticle.SquareMeshCorrectedCovers | src/simulation/particle.rs:40-43 | Every point of the square lies in one of the corrected mesh's triangles. |
| SquareParticle.Bounce | src/simulation/particle.rs:94-96 | Both force components are negated. Position, mesh and mass are kept. |
| SquareParticle.BounceTwiceIsIdentity | src/simulation/particle.rs:94-96 | Two bounces restore the particle. |
| SquareParticle.Collide | src/simulation/particle.rs:89-92 | Position, mesh and mass are kept. Because `-=` is a no-op as written, the force is kept too. |
| SquareParticle.CollideCorrected | src/simulation/particle.rs:89-92 | With the corrected `-=`, only the force changes, and it becomes force minus `other`. |
| SquareParticle.AllPairsEmptyIff | src/simulation/particle.rs:98-107 | The collisions gathered over all pairs are empty iff every (own, other) triangle pair yields none. |
| SquareParticle.RowCollisions | src/simulation/particle.rs:101-104 | The inner loop returns the concatenation of `get_collisions` of one own triangle with each other triangle, in order. It is empty iff every one of those pairs yields none. |
| SquareParticle.CollisionWith | src/simulation/particle.rs:98-107 | Returns the concatenation of `get_collisions` over all pairs, own triangles outermost and both in mesh order. The result is empty iff every pair yields none. |
| PointParticle.New | src/simulation/mod.rs:18-24 | `pos` and `force` are stored. The mesh is one line whose two end points are both `pos`. |
| PointParticle.NewMeshIsVertical | src/simulation/mod.rs:22 | That mesh line is vertical, so it has no slope. |
| PointParticle.SetForce | src/simulation/mod.rs:33-41 | `get_force` returns what was written through `get_force_ref_mut`. Position and mesh are kept. |
| PointParticle.SetForceThenGet | src/simulation/mod.rs:33-41 | A write is read back, a second write replaces the first, and writing the current force changes nothing. |
| PointParticle.Collide | src/simulation/mod.rs:44-48 | Neither particle's position or mesh changes. With `-=` and `div` as written, both forces stay as they were. |
| PointParticle.CollideCorrected | src/simulation/mod.rs:44-48 | With corrected `-=` and `div`, self's force becomes the average of the two forces. Both forces shift by the same amount, so their difference is kept. Positions and meshes stay. |

## Left out

- Bevy wiring is not modelled: `PhysicsPlugin::build`, `ParticleCollider::build`, the `Component` derives and `src/main.rs`. They contain no logic.
- `Vector2D::get_total` (a square root), `Collision::angle` (arctangent, degrees) and `Vector2D::get_angle` (`todo!()`) are not modelled, because reals have no counterpart for those functions.
- `Line::has_point_collision` is not modelled because its body is empty.
- IEEE float behaviour is not modelled: the `as f32` casts in `mov`, the f32/f64 mismatch between `Collision` and `Line`, and infinities or NaN from dividing by a zero run.
- Geometry.GetSteepness, Geometry.At, Collisions.Pos and Contact.Collide require non-vertical lines. Where the source divides by the run, a vertical line gives an infinity or NaN; this model does not represent those. `Line::collide` returns `None` for disjoint x-ranges before it divides (src/physics/mod.rs:52-58), so a vertical segment whose x-range is disjoint from the other's gets a clean `None` in the source. The requires of Contact.Collide excludes that case too.
- The `Triangle` type, `Triangle::get_collisions` and `Vector2D::as_speed` are not part of this model. A triangle is a record of three points stored in the order given. `get_collisions` and `as_speed` are function parameters the model never looks inside.
- `Neg` for `Vector2D` is not part of this model. It is taken to be component-wise negation.
- The `Shape`/`Move`/`Interact` traits are not modelled as interfaces. Their methods are free functions on each particle type.
- In `simulation/mod.rs`, `collide` takes `other: &mut impl Move`; `other` is modelled as the same particle type. `collide` only touches `other` through its force accessors. Likewise, in `simulation/particle.rs`, `collision_with` takes `other: &impl Move` (particle.rs:98), and SquareParticle.CollisionWith takes a square particle. `collision_with` only reads `other` through `get_mesh`.
- `mass > 0` is not a precondition, because the source does not check it.
- The per-tick simulation loop and the arena bounds are not part of these files and are not modelled.
- Facts about the code that the model keeps as they are:
  - `Line::collide` rejects a pair only when the x-ranges are disjoint; it never looks at y-ranges.
  - It compares reals exactly, with no tolerance.
  - It has no case for vertical lines.
  - Equal slopes with equal `a.y` report hit 0, whatever the segments' x-ranges.
  - In `src/simulation/mod.rs`, `collide` applies `total = self - other` through `-=` and `div` and never reads a mass.
- Vectors.DivCorrected returns the quotient and leaves the receiver unchanged. That is a choice made here. `div` takes `&mut self` (src/physics/mod.rs:120), and fixing it the way `-=` is fixed (`self.y /= scalar; self.x /= scalar; self.clone()`) would halve the receiver in place. Under that reading, the second `total.div(2.0)` at src/simulation/mod.rs:47 yields total/4, so `other` shifts by −total/4 rather than −total/2. Self (4,0) and other (0,0) would then end at (2,0) and (−1,0). PointParticle.CollideCorrected's "both forces shift by the same amount" holds only under the receiver-unchanged choice.
- PointParticle.CollideCorrected corrects only `-=` and `div`, with `div` as in Vectors.DivCorrected. Under that choice the exchange at src/simulation/mod.rs:45-47 subtracts the same half from both forces. So `other` ends at (3·other − self)/2 and the summed force is not conserved: self (2,0) and other (0,0) become (1,0) and (−1,0). Which exchange was intended is not evident from the code, so it is not corrected here.
- Contact.CollideCorrected: only the as-written hit formula is clearly wrong. For equal slopes, the corrected test reports a contact when the segments are collinear over their shared interval, and puts it at that interval's left end. This is a choice made here, not something the source says.

## Findings

| source | as written | input that shows it | evidently intended | confidence | as-written member | corrected member |
|---|---|---|---|---|---|---|
| src/physics/mod.rs:82-84 | `at(x)` is slope·x + `a.y`: a line through (0, `a.y`) | segment (1,0)-(2,1): `at(1)` is 1, but the segment starts at height 0 | slope·(x − `a.x`) + `a.y`, the line through both end points | not executed; high | Geometry.AtMissesOwnStart | Geometry.AtCorrected |
| src/physics/mod.rs:75 | hit = (`self.a.y` − `other.a.y`) / (slope_self − slope_other) | diagonals (0,0)-(2,2) and (0,2)-(2,0): hit is −1, outside [0, 2], so no contact, although they cross at (1,1) | the x where the lines through both segments cross, accepted when both segments are defined there | not executed; high | Contact.CrossingMissed | Contact.CollideCorrected |
| src/physics/mod.rs:148-153 | `self.x - rhs.x;` and `self.y - rhs.y;` are computed and dropped | (1,1) `-=` (1,0) leaves (1,1) | `self.x -= rhs.x; self.y -= rhs.y` | not executed; high | Vectors.SubAssignDiscards | Vectors.SubAssignCorrected |
| src/physics/mod.rs:120-124 | `self.y / scalar;` and `self.x / scalar;` are dropped and a copy is returned | (2,4)`.div(2)` returns (2,4) | return the quotient (1,2); whether the receiver is also divided in place is left open (see Vectors.DivCorrected under "## Left out") | not executed; high | Vectors.DivDiscards | Vectors.DivCorrected |
| src/simulation/particle.rs:40-43 | mesh [abd, acd]: both triangles share the left side a-d | size 2 at the origin: (0.9, 0) is in the square but in neither triangle | split along the diagonal a-c, [abc, acd], which covers the square (SquareParticle.SquareMeshCorrectedCovers) | not executed; medium | SquareParticle.SquareMeshLeavesGap | SquareParticle.SquareMeshCorrected |

The as-written members model the source. The corrected members are used by
the corrected layer: Collisions.PosCorrected and Contact.CollideCorrected use
Geometry.AtCorrected. SquareParticle.CollideCorrected and
PointParticle.CollideCorrected use Vectors.SubAssignCorrected and
Vectors.DivCorrected.
