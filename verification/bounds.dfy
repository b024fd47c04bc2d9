/** Axis-aligned bounding boxes: the per-axis min/max fold over a list of
    world-space points and the inclusive overlap test between two boxes. */
module Bounds {
  import opened Geometry

  /** A box given by its minimum and maximum corner. */
  datatype Box = Box(lo: Vec3, hi: Vec3)

  /** `m` is the least `a`-coordinate among the first `n` points: no smaller
      than any of them, and equal to one of them. */
  ghost predicate LeastOn(m: real, pts: seq<Vec3>, n: nat, a: Axis)
    requires n <= |pts|
  {
    && (forall k :: 0 <= k < n ==> m <= Coord(pts[k], a))
    && (exists k :: 0 <= k < n && Coord(pts[k], a) == m)
  }

  /** `m` is the greatest `a`-coordinate among the first `n` points. */
  ghost predicate GreatestOn(m: real, pts: seq<Vec3>, n: nat, a: Axis)
    requires n <= |pts|
  {
    && (forall k :: 0 <= k < n ==> Coord(pts[k], a) <= m)
    && (exists k :: 0 <= k < n && Coord(pts[k], a) == m)
  }

  /** `b` is the tight box around `pts`: on every axis its lower corner is the
      least coordinate and its upper corner the greatest. */
  ghost predicate Encloses(b: Box, pts: seq<Vec3>)
  {
    forall a :: LeastOn(Coord(b.lo, a), pts, |pts|, a) && GreatestOn(Coord(b.hi, a), pts, |pts|, a)
  }

  /** The least `a`-coordinate of a non-empty point list, folded left to right
      starting from the first point and replacing the running value whenever a
      strictly smaller coordinate appears. */
  function MinOn(pts: seq<Vec3>, a: Axis): (m: real)
    requires |pts| > 0
    ensures LeastOn(m, pts, |pts|, a)
  {
    if |pts| == 1 then Coord(pts[0], a)
    else
      var m := MinOn(pts[..|pts| - 1], a);
      var c := Coord(pts[|pts| - 1], a);
      if c < m then c else m
  }

  /** The greatest `a`-coordinate of a non-empty point list, folded the same
      way with a strict `>` replacement test. */
  function MaxOn(pts: seq<Vec3>, a: Axis): (m: real)
    requires |pts| > 0
    ensures GreatestOn(m, pts, |pts|, a)
  {
    if |pts| == 1 then Coord(pts[0], a)
    else
      var m := MaxOn(pts[..|pts| - 1], a);
      var c := Coord(pts[|pts| - 1], a);
      if c > m then c else m
  }

  /** The bounding box of a non-empty point list. */
  function BoxOf(pts: seq<Vec3>): (b: Box)
    requires |pts| > 0
    ensures Encloses(b, pts)
  {
    Box(Vec3(MinOn(pts, X), MinOn(pts, Y), MinOn(pts, Z)),
        Vec3(MaxOn(pts, X), MaxOn(pts, Y), MaxOn(pts, Z)))
  }

  /** The tight box is unique: whatever computes one computes `BoxOf`. */
  lemma EnclosesUnique(b: Box, pts: seq<Vec3>)
    requires |pts| > 0
    requires Encloses(b, pts)
    ensures b == BoxOf(pts)
  {
    var c := BoxOf(pts);
    forall a: Axis
      ensures Coord(b.lo, a) == Coord(c.lo, a) && Coord(b.hi, a) == Coord(c.hi, a)
    {
      assert LeastOn(Coord(b.lo, a), pts, |pts|, a);
      assert LeastOn(Coord(c.lo, a), pts, |pts|, a);
      assert GreatestOn(Coord(b.hi, a), pts, |pts|, a);
      assert GreatestOn(Coord(c.hi, a), pts, |pts|, a);
    }
    assert Coord(b.lo, X) == Coord(c.lo, X) && Coord(b.lo, Y) == Coord(c.lo, Y) && Coord(b.lo, Z) == Coord(c.lo, Z);
    assert Coord(b.hi, X) == Coord(c.hi, X) && Coord(b.hi, Y) == Coord(c.hi, Y) && Coord(b.hi, Z) == Coord(c.hi, Z);
  }

  /** A box is the tight box of `pts` when it contains every point and two of
      the points sit on its lower and upper corners. */
  lemma BoxFromCorners(pts: seq<Vec3>, b: Box, lo: nat, hi: nat)
    requires lo < |pts| && hi < |pts|
    requires pts[lo] == b.lo && pts[hi] == b.hi
    requires forall k :: 0 <= k < |pts| ==>
      b.lo.x <= pts[k].x <= b.hi.x && b.lo.y <= pts[k].y <= b.hi.y && b.lo.z <= pts[k].z <= b.hi.z
    ensures BoxOf(pts) == b
  {
    forall a: Axis
      ensures LeastOn(Coord(b.lo, a), pts, |pts|, a) && GreatestOn(Coord(b.hi, a), pts, |pts|, a)
    {
      assert Coord(pts[lo], a) == Coord(b.lo, a);
      assert Coord(pts[hi], a) == Coord(b.hi, a);
    }
    EnclosesUnique(b, pts);
  }

  /** The per-axis extrema assemble into the tight box. */
  lemma EnclosesFromAxes(b: Box, pts: seq<Vec3>)
    requires |pts| > 0
    requires LeastOn(b.lo.x, pts, |pts|, X) && GreatestOn(b.hi.x, pts, |pts|, X)
    requires LeastOn(b.lo.y, pts, |pts|, Y) && GreatestOn(b.hi.y, pts, |pts|, Y)
    requires LeastOn(b.lo.z, pts, |pts|, Z) && GreatestOn(b.hi.z, pts, |pts|, Z)
    ensures Encloses(b, pts)
    ensures b == BoxOf(pts)
  {
    forall a: Axis
      ensures LeastOn(Coord(b.lo, a), pts, |pts|, a) && GreatestOn(Coord(b.hi, a), pts, |pts|, a)
    {
    }
    EnclosesUnique(b, pts);
  }

  /** One step of the min fold: keeping the smaller of the running minimum
      and the next coordinate extends the minimum by one point. */
  lemma LeastStep(m: real, pts: seq<Vec3>, i: nat, a: Axis)
    requires i < |pts|
    requires LeastOn(m, pts, i, a)
    ensures LeastOn(if Coord(pts[i], a) < m then Coord(pts[i], a) else m, pts, i + 1, a)
  {
  }

  /** One step of the max fold. */
  lemma GreatestStep(m: real, pts: seq<Vec3>, i: nat, a: Axis)
    requires i < |pts|
    requires GreatestOn(m, pts, i, a)
    ensures GreatestOn(if Coord(pts[i], a) > m then Coord(pts[i], a) else m, pts, i + 1, a)
  {
  }

  /** The imperative fold: six running extrema seeded from the first point and
      updated by one pass over the remaining points. */
  method FoldBounds(pts: seq<Vec3>) returns (b: Box)
    requires |pts| > 0
    ensures Encloses(b, pts)
    ensures b == BoxOf(pts)
  {
    var minX, maxX := pts[0].x, pts[0].x;
    var minY, maxY := pts[0].y, pts[0].y;
    var minZ, maxZ := pts[0].z, pts[0].z;
    var i := 1;
    while i < |pts|
      invariant 1 <= i <= |pts|
      invariant LeastOn(minX, pts, i, X) && GreatestOn(maxX, pts, i, X)
      invariant LeastOn(minY, pts, i, Y) && GreatestOn(maxY, pts, i, Y)
      invariant LeastOn(minZ, pts, i, Z) && GreatestOn(maxZ, pts, i, Z)
    {
      var p := pts[i];
      LeastStep(minX, pts, i, X);
      GreatestStep(maxX, pts, i, X);
      LeastStep(minY, pts, i, Y);
      GreatestStep(maxY, pts, i, Y);
      LeastStep(minZ, pts, i, Z);
      GreatestStep(maxZ, pts, i, Z);
      if p.x < minX { minX := p.x; }
      if p.x > maxX { maxX := p.x; }
      if p.y < minY { minY := p.y; }
      if p.y > maxY { maxY := p.y; }
      if p.z < minZ { minZ := p.z; }
      if p.z > maxZ { maxZ := p.z; }
      i := i + 1;
    }
    b := Box(Vec3(minX, minY, minZ), Vec3(maxX, maxY, maxZ));
    EnclosesFromAxes(b, pts);
  }

  /** Inclusive overlap of two boxes: on each axis the first box starts no
      later than the second ends and ends no earlier than the second starts. */
  predicate Overlap(p: Box, q: Box)
  {
    p.lo.x <= q.hi.x &&
    p.hi.x >= q.lo.x &&
    p.lo.y <= q.hi.y &&
    p.hi.y >= q.lo.y &&
    p.lo.z <= q.hi.z &&
    p.hi.z >= q.lo.z
  }

  /** Overlap, one axis at a time: the closed intervals meet on every axis. */
  lemma OverlapPerAxis(p: Box, q: Box)
    ensures Overlap(p, q) <==>
      forall a :: Coord(p.lo, a) <= Coord(q.hi, a) && Coord(q.lo, a) <= Coord(p.hi, a)
  {
    if forall a :: Coord(p.lo, a) <= Coord(q.hi, a) && Coord(q.lo, a) <= Coord(p.hi, a) {
      assert Coord(p.lo, X) <= Coord(q.hi, X) && Coord(q.lo, X) <= Coord(p.hi, X);
      assert Coord(p.lo, Y) <= Coord(q.hi, Y) && Coord(q.lo, Y) <= Coord(p.hi, Y);
      assert Coord(p.lo, Z) <= Coord(q.hi, Z) && Coord(q.lo, Z) <= Coord(p.hi, Z);
    }
  }

  /** The overlap test does not depend on argument order. */
  lemma OverlapSymmetric(p: Box, q: Box)
    ensures Overlap(p, q) == Overlap(q, p)
  {
  }

  /** A box whose corners are ordered overlaps itself. */
  lemma OverlapReflexive(p: Box)
    requires p.lo.x <= p.hi.x && p.lo.y <= p.hi.y && p.lo.z <= p.hi.z
    ensures Overlap(p, p)
  {
  }

  /** Bounds are inclusive: boxes that share only a face (here the plane
      x = p.hi.x, with y and z ranges meeting) overlap. */
  lemma FaceContactOverlaps(p: Box, q: Box)
    requires p.lo.x <= p.hi.x && q.lo.x <= q.hi.x
    requires q.lo.x == p.hi.x
    requires p.lo.y <= q.hi.y && q.lo.y <= p.hi.y
    requires p.lo.z <= q.hi.z && q.lo.z <= p.hi.z
    ensures Overlap(p, q)
  {
  }

  /** Any tight box has ordered corners. */
  lemma BoxOfOrdered(pts: seq<Vec3>)
    requires |pts| > 0
    ensures BoxOf(pts).lo.x <= BoxOf(pts).hi.x
    ensures BoxOf(pts).lo.y <= BoxOf(pts).hi.y
    ensures BoxOf(pts).lo.z <= BoxOf(pts).hi.z
  {
    var b := BoxOf(pts);
    assert Coord(b.lo, X) <= Coord(pts[0], X) <= Coord(b.hi, X);
    assert Coord(b.lo, Y) <= Coord(pts[0], Y) <= Coord(b.hi, Y);
    assert Coord(b.lo, Z) <= Coord(pts[0], Z) <= Coord(b.hi, Z);
  }

  /** Some point of `ps` lies at or below some point of `qs` along axis `a`. */
  ghost predicate SomeAtOrBelow(ps: seq<Vec3>, qs: seq<Vec3>, a: Axis)
  {
    exists i, j :: 0 <= i < |ps| && 0 <= j < |qs| && Coord(ps[i], a) <= Coord(qs[j], a)
  }

  /** Overlap of tight boxes, stated without min or max: on every axis some
      point of `ps` is at or below some point of `qs`, and some point of `ps`
      is at or above some point of `qs`. */
  lemma OverlapOfPoints(ps: seq<Vec3>, qs: seq<Vec3>)
    requires |ps| > 0 && |qs| > 0
    ensures Overlap(BoxOf(ps), BoxOf(qs)) <==>
      forall a :: SomeAtOrBelow(ps, qs, a) && SomeAtOrBelow(qs, ps, a)
  {
    var p, q := BoxOf(ps), BoxOf(qs);
    OverlapPerAxis(p, q);
    forall a: Axis
      ensures (Coord(p.lo, a) <= Coord(q.hi, a)) <==> SomeAtOrBelow(ps, qs, a)
      ensures (Coord(q.lo, a) <= Coord(p.hi, a)) <==> SomeAtOrBelow(qs, ps, a)
    {
      assert LeastOn(Coord(p.lo, a), ps, |ps|, a);
      assert GreatestOn(Coord(q.hi, a), qs, |qs|, a);
      assert LeastOn(Coord(q.lo, a), qs, |qs|, a);
      assert GreatestOn(Coord(p.hi, a), ps, |ps|, a);
    }
  }
}
