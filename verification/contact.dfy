/**
 The segment contact test `Line::collide` (src/physics/mod.rs), as written and
 in a corrected form.

 Both segments must be non-vertical because the source divides by their run.
 */
module Contact {
  import opened Geometry
  import opened Collisions

  /** The x-ranges of the two segments do not overlap. */
  predicate Disjoint(self: Line, other: Line) {
    self.a.x > other.b.x || self.b.x < other.a.x
  }

  /** The left end of the interval where both segments are defined. */
  function DefMin(self: Line, other: Line): real {
    Max(self.a.x, other.a.x)
  }

  /** The right end of the interval where both segments are defined. */
  function DefMax(self: Line, other: Line): real {
    Min(self.b.x, other.b.x)
  }

  /** The contact test as written: x-range rejection, then equal slopes
      (contact at 0 exactly when the bases agree), then the computed hit,
      accepted when it lies within the shared interval. */
  function Collide(self: Line, other: Line): (r: Option<Collision>)
    requires NonVertical(self) && NonVertical(other)
    ensures Disjoint(self, other) ==> r.None?
    ensures !Disjoint(self, other) && GetSteepness(self) == GetSteepness(other) ==>
              (r.Some? <==> self.a.y == other.a.y)
    ensures r.Some? && GetSteepness(self) == GetSteepness(other) ==> r.value.hit == 0.0
    ensures r.Some? && GetSteepness(self) != GetSteepness(other) ==>
              DefMin(self, other) <= r.value.hit <= DefMax(self, other)
    ensures r.Some? ==> r.value.lineA == self && r.value.lineB == other
  {
    if self.a.x > other.b.x then None
    else if self.b.x < other.a.x then None
    else
      var selfInc := GetSteepness(self);
      var otherInc := GetSteepness(other);
      var defMax := DefMax(self, other);
      var defMin := DefMin(self, other);
      if selfInc == otherInc then
        if self.a.y == other.a.y then Some(New(self, other, 0.0)) else None
      else
        var hit := (self.a.y - other.a.y) / (selfInc - otherInc);
        if defMax < hit || defMin > hit then None
        else Some(New(self, other, hit))
  }

  /** The test is symmetric: swapping the lines gives the same verdict and the
      same hit. */
  lemma CollideSymmetric(l1: Line, l2: Line)
    requires NonVertical(l1) && NonVertical(l2)
    ensures Collide(l1, l2).Some? <==> Collide(l2, l1).Some?
    ensures Collide(l1, l2).Some? ==> Collide(l1, l2).value.hit == Collide(l2, l1).value.hit
  {
    var s1 := GetSteepness(l1);
    var s2 := GetSteepness(l2);
    if !Disjoint(l1, l2) && s1 != s2 {
      QuotientOfNegations(l1.a.y - l2.a.y, s1 - s2);
      assert -(l1.a.y - l2.a.y) == l2.a.y - l1.a.y && -(s1 - s2) == s2 - s1;
    }
  }

  /** Negating both sides of a quotient leaves it unchanged. */
  lemma QuotientOfNegations(n: real, d: real)
    requires d != 0.0
    ensures (-n) / (-d) == n / d
  {
    var h := n / d;
    var g := (-n) / (-d);
    assert h * d == n;
    assert g * (-d) == -n;
    assert (g - h) * d == 0.0;
  }

  /** As written, the reported hit is the mirror image of where the two
      `At` lines meet: they agree at `-hit`, not at `hit`. */
  lemma CollideHitIsMirrored(l1: Line, l2: Line)
    requires NonVertical(l1) && NonVertical(l2)
    requires Collide(l1, l2).Some? && GetSteepness(l1) != GetSteepness(l2)
    ensures At(l1, -Collide(l1, l2).value.hit) == At(l2, -Collide(l1, l2).value.hit)
  {
    var s1 := GetSteepness(l1);
    var s2 := GetSteepness(l2);
    var h := Collide(l1, l2).value.hit;
    assert h * (s1 - s2) == l1.a.y - l2.a.y;
    assert s1 * (-h) - s2 * (-h) == -(h * (s1 - s2));
  }

  /** Conversely, with different slopes the test as written reports a contact
      at every `x` of the shared interval whose mirror image `-x` is where
      the two `At` lines meet. */
  lemma CollideReportsMirroredMeeting(l1: Line, l2: Line, x: real)
    requires NonVertical(l1) && NonVertical(l2)
    requires GetSteepness(l1) != GetSteepness(l2)
    requires At(l1, -x) == At(l2, -x)
    requires DefMin(l1, l2) <= x <= DefMax(l1, l2)
    ensures Collide(l1, l2) == Some(Collision(l1, l2, x))
  {
    var s1 := GetSteepness(l1);
    var s2 := GetSteepness(l2);
    assert !Disjoint(l1, l2);
    assert s1 * (-x) - s2 * (-x) == -(x * (s1 - s2));
    assert x * (s1 - s2) == l1.a.y - l2.a.y;
    QuotientIsUnique(l1.a.y - l2.a.y, s1 - s2, x);
  }

  /** The only number that times a non-zero `d` gives `n` is `n / d`. */
  lemma QuotientIsUnique(n: real, d: real, q: real)
    requires d != 0.0
    requires q * d == n
    ensures q == n / d
  {
    var h := n / d;
    assert h * d == n;
    assert (q - h) * d == 0.0;
  }

  /** The rising diagonal of the square [0, 2] x [0, 2]. */
  const Rising := Line(Point(0.0, 0.0), Point(2.0, 2.0))

  /** The falling diagonal of the square [0, 2] x [0, 2]. */
  const Falling := Line(Point(0.0, 2.0), Point(2.0, 0.0))

  /** The two diagonals share the point (1, 1). */
  lemma DiagonalsMeet()
    ensures NonVertical(Rising) && NonVertical(Falling)
    ensures GetSteepness(Rising) == 1.0 && GetSteepness(Falling) == -1.0
    ensures Meets(Rising, Falling, 1.0)
    ensures AtCorrected(Rising, 1.0) == 1.0
  {
    assert GetSteepness(Rising) == 1.0;
    assert GetSteepness(Falling) == -1.0;
  }

  /** The test as written misses the diagonals' crossing: its hit is -1,
      outside the shared interval [0, 2]. */
  lemma CrossingMissed()
    ensures NonVertical(Rising) && NonVertical(Falling)
    ensures Collide(Rising, Falling).None?
  {
    assert GetSteepness(Rising) == 1.0;
    assert GetSteepness(Falling) == -1.0;
  }

  /** Both segments are defined at `x` and pass through the same point there.
      The interval `[DefMin, DefMax]` is the shared x-range only for lines
      built by `FromPoints` (left end point first). */
  predicate Meets(l1: Line, l2: Line, x: real)
    requires NonVertical(l1) && NonVertical(l2)
  {
    DefMin(l1, l2) <= x <= DefMax(l1, l2) && AtCorrected(l1, x) == AtCorrected(l2, x)
  }

  /** The x where the straight lines through the two segments cross. */
  function Crossing(l1: Line, l2: Line): (x: real)
    requires NonVertical(l1) && NonVertical(l2)
    requires GetSteepness(l1) != GetSteepness(l2)
    ensures AtCorrected(l1, x) == AtCorrected(l2, x)
  {
    var s1 := GetSteepness(l1);
    var s2 := GetSteepness(l2);
    var k := l2.a.y - l1.a.y + s1 * l1.a.x - s2 * l2.a.x;
    var x := k / (s1 - s2);
    assert x * (s1 - s2) == k;
    assert AtCorrected(l1, x) - AtCorrected(l2, x) == x * (s1 - s2) - k;
    x
  }

  /** Only the crossing point can be a meeting point of two segments with
      different slopes. */
  lemma MeetingIsCrossing(l1: Line, l2: Line, x: real)
    requires NonVertical(l1) && NonVertical(l2)
    requires GetSteepness(l1) != GetSteepness(l2)
    requires AtCorrected(l1, x) == AtCorrected(l2, x)
    ensures x == Crossing(l1, l2)
  {
    var s1 := GetSteepness(l1);
    var s2 := GetSteepness(l2);
    var c := Crossing(l1, l2);
    assert AtCorrected(l1, x) - AtCorrected(l2, x) - (AtCorrected(l1, c) - AtCorrected(l2, c))
        == (x - c) * (s1 - s2);
  }

  /** Two segments with equal slopes differ by the same amount everywhere. */
  lemma ParallelGapIsConstant(l1: Line, l2: Line, x: real, y: real)
    requires NonVertical(l1) && NonVertical(l2)
    requires GetSteepness(l1) == GetSteepness(l2)
    ensures AtCorrected(l1, x) - AtCorrected(l2, x) == AtCorrected(l1, y) - AtCorrected(l2, y)
  {
    var s := GetSteepness(l1);
    assert s * (x - l1.a.x) - s * (x - l2.a.x) == s * (l2.a.x - l1.a.x);
    assert s * (y - l1.a.x) - s * (y - l2.a.x) == s * (l2.a.x - l1.a.x);
  }

  /** The contact test with the crossing computed from the straight lines
      through the segments; parallel segments meet when they are collinear,
      and the contact is reported at the left end of the shared interval. */
  function CollideCorrected(self: Line, other: Line): (r: Option<Collision>)
    requires NonVertical(self) && NonVertical(other)
    ensures r.Some? ==> r.value.lineA == self && r.value.lineB == other
    ensures r.Some? ==> Meets(self, other, r.value.hit)
  {
    if self.a.x > other.b.x then None
    else if self.b.x < other.a.x then None
    else
      var defMax := DefMax(self, other);
      var defMin := DefMin(self, other);
      if GetSteepness(self) == GetSteepness(other) then
        if defMin <= defMax && AtCorrected(self, defMin) == AtCorrected(other, defMin)
        then Some(New(self, other, defMin))
        else None
      else
        var hit := Crossing(self, other);
        if defMax < hit || defMin > hit then None
        else Some(New(self, other, hit))
  }

  /** The corrected test reports a contact exactly when the two segments share
      a point. */
  lemma CollideCorrectedComplete(self: Line, other: Line, x: real)
    requires NonVertical(self) && NonVertical(other)
    requires Meets(self, other, x)
    ensures CollideCorrected(self, other).Some?
  {
    if GetSteepness(self) == GetSteepness(other) {
      ParallelGapIsConstant(self, other, x, DefMin(self, other));
    } else {
      MeetingIsCrossing(self, other, x);
    }
  }

  /** With different slopes, the corrected test reports the crossing exactly
      when it lies in the shared interval. */
  lemma CollideCorrectedAtCrossing(l1: Line, l2: Line)
    requires NonVertical(l1) && NonVertical(l2)
    requires GetSteepness(l1) != GetSteepness(l2)
    ensures DefMin(l1, l2) <= Crossing(l1, l2) <= DefMax(l1, l2) <==>
            CollideCorrected(l1, l2) == Some(Collision(l1, l2, Crossing(l1, l2)))
  {
  }

  /** The straight lines through the two diagonals cross at x = 1. */
  lemma DiagonalsCrossAtOne()
    ensures NonVertical(Rising) && NonVertical(Falling)
    ensures GetSteepness(Rising) != GetSteepness(Falling)
    ensures Crossing(Rising, Falling) == 1.0
  {
    var k := Falling.a.y - Rising.a.y + 1.0 * Rising.a.x - (-1.0) * Falling.a.x;
    assert GetSteepness(Rising) == 1.0 && GetSteepness(Falling) == -1.0;
    assert k == 2.0;
    assert Crossing(Rising, Falling) == k / 2.0;
  }

  /** Both diagonals are defined on [0, 2]. */
  lemma DiagonalsOverlapZeroToTwo()
    ensures DefMin(Rising, Falling) == 0.0 && DefMax(Rising, Falling) == 2.0
  {
  }

  /** The corrected test finds the diagonals' contact at (1, 1). */
  lemma CrossingFound()
    ensures NonVertical(Rising) && NonVertical(Falling)
    ensures CollideCorrected(Rising, Falling) == Some(Collision(Rising, Falling, 1.0))
    ensures PosCorrected(Collision(Rising, Falling, 1.0)) == Point(1.0, 1.0)
  {
    DiagonalsCrossAtOne();
    DiagonalsOverlapZeroToTwo();
    CollideCorrectedAtCrossing(Rising, Falling);
    DiagonalsMeet();
  }
}
