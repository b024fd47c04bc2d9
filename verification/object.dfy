/** A renderable, collidable scene object: an immutable local vertex list,
    a pose, the world-space center derived from that pose, the triangle index
    count and a colour. The Rust `Object` also holds GPU buffer handles, which
    are not modelled. */
module Objects {
  import opened Geometry
  import opened Bounds

  /** An unsigned 32-bit triangle index. */
  newtype U32 = x: int | 0 <= x < 0x1_0000_0000

  const I32Modulus: int := 0x1_0000_0000
  const I32Limit: int := 0x8000_0000

  /** The two's-complement truncation of a length to a signed 32-bit value, as
      an `as i32` cast of a `usize` performs it. */
  function AsI32(n: nat): (r: int)
    ensures -I32Limit <= r < I32Limit
    ensures (n - r) % I32Modulus == 0
    ensures n < I32Limit ==> r == n
  {
    var m := n % I32Modulus;
    if m >= I32Limit then m - I32Modulus else m
  }

  datatype Object = Object(
    vertices: seq<Vec3>,
    modelMatrix: Pose,
    center: Vec3,
    indexCount: int,
    color: Vec3)

  /** The object invariant: the cached center is the translation of the pose. */
  predicate Valid(o: Object)
  {
    o.center == TranslationOf(o.modelMatrix)
  }

  /** Builds an object placed by a pure translation to `center`; the index
      count is the number of indices, truncated to a signed 32-bit value. */
  function New(vertices: seq<Vec3>, indices: seq<U32>, center: Vec3, color: Vec3): (o: Object)
    ensures Valid(o)
    ensures o.modelMatrix == Translation(center)
    ensures o.center == center
    ensures o.vertices == vertices && o.color == color
    ensures o.indexCount == AsI32(|indices|)
    ensures |indices| < I32Limit ==> o.indexCount == |indices|
  {
    Object(vertices, Translation(center), center, AsI32(|indices|), color)
  }

  /** Replaces the pose wholesale and recomputes the center from it. */
  function SetModelMatrix(o: Object, m: Pose): (r: Object)
    ensures Valid(r)
    ensures r.modelMatrix == m && r.center == TranslationOf(m)
    ensures r.vertices == o.vertices && r.color == o.color && r.indexCount == o.indexCount
  {
    o.(modelMatrix := m, center := m.wAxis)
  }

  /** The cached center; on a valid object it is the pose's translation. */
  function GetCenter(o: Object): (c: Vec3)
    ensures Valid(o) ==> c == TranslationOf(o.modelMatrix)
  {
    o.center
  }

  /** Every local vertex mapped through pose `p`, in order. */
  function TransformAll(p: Pose, vs: seq<Vec3>): (ws: seq<Vec3>)
    ensures |ws| == |vs|
  {
    seq(|vs|, i requires 0 <= i < |vs| => Transform(p, vs[i]))
  }

  /** The world-space points of an object, one per stored vertex. */
  function Aabb(o: Object): seq<Vec3>
  {
    TransformAll(o.modelMatrix, o.vertices)
  }

  /** Builds the list of world-space points by pushing one transformed vertex
      per stored vertex. */
  method GetAabb(o: Object) returns (r: seq<Vec3>)
    ensures |r| == |o.vertices|
    ensures forall i :: 0 <= i < |r| ==> r[i] == Transform(o.modelMatrix, o.vertices[i])
    ensures r == Aabb(o)
  {
    r := [];
    var i := 0;
    while i < |o.vertices|
      invariant 0 <= i <= |o.vertices|
      invariant |r| == i
      invariant forall k :: 0 <= k < i ==> r[k] == Transform(o.modelMatrix, o.vertices[k])
    {
      r := r + [Transform(o.modelMatrix, o.vertices[i])];
      i := i + 1;
    }
  }

  /** Under a pure-translation pose each world point is the vertex shifted by
      the center. */
  lemma AabbUnderTranslation(o: Object)
    requires o.modelMatrix == Translation(o.center)
    ensures |Aabb(o)| == |o.vertices|
    ensures forall i :: 0 <= i < |o.vertices| ==> Aabb(o)[i] == Add(o.vertices[i], o.center)
  {
    forall i | 0 <= i < |o.vertices|
      ensures Aabb(o)[i] == Add(o.vertices[i], o.center)
    {
      TransformTranslation(o.center, o.vertices[i]);
    }
  }

  /** Whether the tight boxes of two non-empty objects overlap, bounds
      included. */
  predicate Intersects(o: Object, other: Object)
    requires |o.vertices| > 0 && |other.vertices| > 0
  {
    Overlap(BoxOf(Aabb(o)), BoxOf(Aabb(other)))
  }

  /** The collision test: folds each object's world points into per-axis
      extrema and compares them. An object without vertices cannot be tested. */
  method Intersect(o: Object, other: Object) returns (r: bool)
    requires |o.vertices| > 0 && |other.vertices| > 0
    ensures r == Intersects(o, other)
    ensures r <==> forall a :: SomeAtOrBelow(Aabb(o), Aabb(other), a) && SomeAtOrBelow(Aabb(other), Aabb(o), a)
  {
    var pts := GetAabb(o);
    var mine := FoldBounds(pts);
    var otherPts := GetAabb(other);
    var theirs := FoldBounds(otherPts);
    r := mine.lo.x <= theirs.hi.x &&
         mine.hi.x >= theirs.lo.x &&
         mine.lo.y <= theirs.hi.y &&
         mine.hi.y >= theirs.lo.y &&
         mine.lo.z <= theirs.hi.z &&
         mine.hi.z >= theirs.lo.z;
    OverlapOfPoints(pts, otherPts);
  }

  /** The collision test does not depend on argument order. */
  lemma IntersectsSymmetric(o: Object, other: Object)
    requires |o.vertices| > 0 && |other.vertices| > 0
    ensures Intersects(o, other) == Intersects(other, o)
  {
    OverlapSymmetric(BoxOf(Aabb(o)), BoxOf(Aabb(other)));
  }

  /** Every object with at least one vertex collides with itself. */
  lemma IntersectsReflexive(o: Object)
    requires |o.vertices| > 0
    ensures Intersects(o, o)
  {
    BoxOfOrdered(Aabb(o));
  }
}
