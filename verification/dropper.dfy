/** The "Dropper" game state: a string-keyed store of scene objects, the scene
    that initialization builds, the per-frame update and the event handler.
    The camera matrices the game also keeps are not part of this model. */
module DropperGame {
  import opened Geometry
  import opened Bounds
  import opened Objects

  datatype Dropper = Dropper(objects: map<string, Object>)

  const CubeKey: string := "cube"
  const PlaneKey: string := "plane"

  const Red: Vec3 := Vec3(1.0, 0.0, 0.0)
  const Blue: Vec3 := Vec3(0.0, 0.0, 1.0)

  /** A 2x2 square in the local y = 0 plane. */
  const PlaneVertices: seq<Vec3> := [
    Vec3(-1.0, 0.0, 1.0),
    Vec3(-1.0, 0.0, -1.0),
    Vec3(1.0, 0.0, -1.0),
    Vec3(1.0, 0.0, 1.0)
  ]

  const PlaneIndices: seq<U32> := [
    0, 1, 2,
    2, 3, 0
  ]

  /** A unit cube centred on the local origin: front face (z = -0.5) first,
      then the back face (z = 0.5). */
  const CubeVertices: seq<Vec3> := [
    Vec3(-0.5, -0.5, -0.5),
    Vec3(-0.5, 0.5, -0.5),
    Vec3(0.5, 0.5, -0.5),
    Vec3(0.5, -0.5, -0.5),
    Vec3(0.5, -0.5, 0.5),
    Vec3(0.5, 0.5, 0.5),
    Vec3(-0.5, 0.5, 0.5),
    Vec3(-0.5, -0.5, 0.5)
  ]

  /** Two triangles per face: front, back, top, bottom, right, left. */
  const CubeIndices: seq<U32> := [
    0, 1, 2,  2, 3, 0,
    4, 5, 6,  6, 7, 4,
    1, 6, 5,  5, 2, 1,
    7, 0, 3,  3, 4, 7,
    3, 2, 5,  5, 4, 3,
    7, 6, 1,  1, 0, 7
  ]

  /** The plane's pose: scale (5, 1, 5), no rotation, lowered to y = -3. */
  const PlanePose: Pose := ScaleTranslation(Vec3(5.0, 1.0, 5.0), Vec3(0.0, -3.0, 0.0))

  /** Every object in the store keeps its center equal to its pose's
      translation. */
  predicate StoreValid(d: Dropper)
  {
    forall k :: k in d.objects ==> Valid(d.objects[k])
  }

  /** Every triangle index names an existing vertex. */
  predicate IndicesBelow(indices: seq<U32>, n: nat)
  {
    forall i :: 0 <= i < |indices| ==> indices[i] as int < n
  }

  /** Inserting under a key replaces whatever the key held and leaves every
      other entry alone. */
  function Insert(d: Dropper, key: string, o: Object): (r: Dropper)
    ensures r.objects.Keys == d.objects.Keys + {key}
    ensures r.objects[key] == o
    ensures forall k :: k in d.objects && k != key ==> r.objects[k] == d.objects[k]
  {
    d.(objects := d.objects[key := o])
  }

  /** Builds the scene: inserts the red cube at the origin, inserts the blue
      plane at the origin, then gives the plane its scaled and lowered pose.
      Entries already under "cube" or "plane" are overwritten. */
  function Initialize(d: Dropper): (r: Dropper)
    ensures r.objects.Keys == d.objects.Keys + {CubeKey, PlaneKey}
    ensures forall k :: k in d.objects && k != CubeKey && k != PlaneKey ==> r.objects[k] == d.objects[k]
    ensures r.objects[CubeKey] == New(CubeVertices, CubeIndices, Origin, Red)
    ensures r.objects[CubeKey].center == Origin && r.objects[CubeKey].color == Red
    ensures r.objects[CubeKey].indexCount == 36
    ensures r.objects[PlaneKey].vertices == PlaneVertices
    ensures r.objects[PlaneKey].modelMatrix == PlanePose
    ensures r.objects[PlaneKey].center == Vec3(0.0, -3.0, 0.0) && r.objects[PlaneKey].color == Blue
    ensures r.objects[PlaneKey].indexCount == 6
    ensures StoreValid(d) ==> StoreValid(r)
  {
    var withCube := Insert(d, CubeKey, New(CubeVertices, CubeIndices, Vec3(0.0, 0.0, 0.0), Red));
    var withPlane := Insert(withCube, PlaneKey, New(PlaneVertices, PlaneIndices, Vec3(0.0, 0.0, 0.0), Blue));
    Insert(withPlane, PlaneKey, SetModelMatrix(withPlane.objects[PlaneKey], PlanePose))
  }

  /** Re-applies the cube's pose as a pure translation of its current center.
      The cube must be present. */
  function Update(d: Dropper): (r: Dropper)
    requires CubeKey in d.objects
    ensures r.objects.Keys == d.objects.Keys
    ensures forall k :: k in d.objects && k != CubeKey ==> r.objects[k] == d.objects[k]
    ensures r.objects[CubeKey].center == d.objects[CubeKey].center
    ensures r.objects[CubeKey].modelMatrix == Translation(d.objects[CubeKey].center)
    ensures Valid(r.objects[CubeKey])
    ensures r.objects[CubeKey].vertices == d.objects[CubeKey].vertices
    ensures r.objects[CubeKey].color == d.objects[CubeKey].color
    ensures r.objects[CubeKey].indexCount == d.objects[CubeKey].indexCount
    ensures StoreValid(d) ==> StoreValid(r)
  {
    var cube := d.objects[CubeKey];
    Insert(d, CubeKey, SetModelMatrix(cube, Translation(GetCenter(cube))))
  }

  /** Input events of any kind are ignored. */
  function HandleEvent<E>(d: Dropper, event: E): (r: Dropper)
    ensures r == d
  {
    d
  }

  /** Initializing an empty store yields exactly the cube and the plane. */
  lemma InitializeEmptyKeys()
    ensures Initialize(Dropper(map[])).objects.Keys == {CubeKey, PlaneKey}
  {
  }

  /** Updating twice is the same as updating once. */
  lemma UpdateIdempotent(d: Dropper)
    requires CubeKey in d.objects
    ensures Update(Update(d)) == Update(d)
  {
  }

  /** On a cube already placed by a pure translation of its center, update
      changes nothing; in particular the initialized scene is a fixed point. */
  lemma UpdateKeepsTranslatedCube(d: Dropper)
    requires CubeKey in d.objects
    requires d.objects[CubeKey].modelMatrix == Translation(d.objects[CubeKey].center)
    ensures Update(d) == d
  {
    assert Update(d).objects == d.objects;
  }

  lemma UpdateAfterInitialize(d: Dropper)
    ensures Update(Initialize(d)) == Initialize(d)
  {
    UpdateKeepsTranslatedCube(Initialize(d));
  }

  /** Every cube triangle indexes one of its 8 vertices and every plane
      triangle one of its 4. */
  lemma SceneIndicesInRange()
    ensures |CubeVertices| == 8 && |PlaneVertices| == 4
    ensures IndicesBelow(CubeIndices, |CubeVertices|)
    ensures IndicesBelow(PlaneIndices, |PlaneVertices|)
    ensures |CubeIndices| % 3 == 0 && |PlaneIndices| % 3 == 0
  {
  }

  /** The world points of a cube shifted by `c` span one unit on every axis,
      centred on `c`. */
  lemma ShiftedCubeBox(pts: seq<Vec3>, c: Vec3)
    requires |pts| == |CubeVertices|
    requires forall k :: 0 <= k < |pts| ==> pts[k] == Add(CubeVertices[k], c)
    ensures BoxOf(pts) == Box(Add(c, Vec3(-0.5, -0.5, -0.5)), Add(c, Vec3(0.5, 0.5, 0.5)))
  {
    var b := Box(Add(c, Vec3(-0.5, -0.5, -0.5)), Add(c, Vec3(0.5, 0.5, 0.5)));
    forall k | 0 <= k < |pts|
      ensures b.lo.x <= pts[k].x <= b.hi.x && b.lo.y <= pts[k].y <= b.hi.y && b.lo.z <= pts[k].z <= b.hi.z
    {
      var v := CubeVertices[k];
      assert -0.5 <= v.x <= 0.5 && -0.5 <= v.y <= 0.5 && -0.5 <= v.z <= 0.5;
    }
    BoxFromCorners(pts, b, 0, 5);
  }

  /** A cube object placed by pure translation spans one unit on every axis,
      centred on its center. */
  lemma CubeBox(o: Object)
    requires o.vertices == CubeVertices
    requires o.modelMatrix == Translation(o.center)
    ensures BoxOf(Aabb(o)) == Box(Add(o.center, Vec3(-0.5, -0.5, -0.5)), Add(o.center, Vec3(0.5, 0.5, 0.5)))
  {
    AabbUnderTranslation(o);
    ShiftedCubeBox(Aabb(o), o.center);
  }

  /** The plane's world points under its initial pose span x and z in
      [-5, 5] at y = -3. */
  lemma PlacedPlaneBox(pts: seq<Vec3>)
    requires |pts| == |PlaneVertices|
    requires forall k :: 0 <= k < |pts| ==>
      pts[k] == Vec3(5.0 * PlaneVertices[k].x, PlaneVertices[k].y - 3.0, 5.0 * PlaneVertices[k].z)
    ensures BoxOf(pts) == Box(Vec3(-5.0, -3.0, -5.0), Vec3(5.0, -3.0, 5.0))
  {
    var b := Box(Vec3(-5.0, -3.0, -5.0), Vec3(5.0, -3.0, 5.0));
    forall k | 0 <= k < |pts|
      ensures b.lo.x <= pts[k].x <= b.hi.x && b.lo.y <= pts[k].y <= b.hi.y && b.lo.z <= pts[k].z <= b.hi.z
    {
      var v := PlaneVertices[k];
      assert -1.0 <= v.x <= 1.0 && v.y == 0.0 && -1.0 <= v.z <= 1.0;
    }
    BoxFromCorners(pts, b, 1, 3);
  }

  /** The plane under its initial pose spans x and z in [-5, 5] at y = -3. */
  lemma PlaneBox(o: Object)
    requires o.vertices == PlaneVertices
    requires o.modelMatrix == PlanePose
    ensures BoxOf(Aabb(o)) == Box(Vec3(-5.0, -3.0, -5.0), Vec3(5.0, -3.0, 5.0))
  {
    var pts := Aabb(o);
    forall k | 0 <= k < |pts|
      ensures pts[k] == Vec3(5.0 * PlaneVertices[k].x, PlaneVertices[k].y - 3.0, 5.0 * PlaneVertices[k].z)
    {
      TransformScaleTranslation(Vec3(5.0, 1.0, 5.0), Vec3(0.0, -3.0, 0.0), PlaneVertices[k]);
    }
    PlacedPlaneBox(pts);
  }

  /** Two translated cubes collide exactly when their centers are at most one
      unit apart on every axis; so cubes touching on a face, an edge or a
      corner collide. */
  lemma CubesIntersectIff(p: Object, q: Object)
    requires p.vertices == CubeVertices && p.modelMatrix == Translation(p.center)
    requires q.vertices == CubeVertices && q.modelMatrix == Translation(q.center)
    ensures Intersects(p, q) <==>
      (-1.0 <= p.center.x - q.center.x <= 1.0 &&
       -1.0 <= p.center.y - q.center.y <= 1.0 &&
       -1.0 <= p.center.z - q.center.z <= 1.0)
  {
    CubeBox(p);
    CubeBox(q);
  }

  /** Two unit cubes meeting only at a corner collide. */
  lemma CornerTouchingCubesIntersect()
    ensures Intersects(New(CubeVertices, CubeIndices, Origin, Red),
                       New(CubeVertices, CubeIndices, Vec3(1.0, 1.0, 1.0), Red))
  {
    CubesIntersectIff(New(CubeVertices, CubeIndices, Origin, Red),
                      New(CubeVertices, CubeIndices, Vec3(1.0, 1.0, 1.0), Red));
  }

  /** In the initialized scene the plane's box is x, z in [-5, 5] at y = -3,
      the cube's is [-0.5, 0.5] on every axis, and the two do not collide. */
  lemma InitialSceneSeparated(d: Dropper)
    ensures BoxOf(Aabb(Initialize(d).objects[PlaneKey])) == Box(Vec3(-5.0, -3.0, -5.0), Vec3(5.0, -3.0, 5.0))
    ensures BoxOf(Aabb(Initialize(d).objects[CubeKey])) == Box(Vec3(-0.5, -0.5, -0.5), Vec3(0.5, 0.5, 0.5))
    ensures !Intersects(Initialize(d).objects[CubeKey], Initialize(d).objects[PlaneKey])
  {
    var s := Initialize(d);
    CubeBox(s.objects[CubeKey]);
    PlaneBox(s.objects[PlaneKey]);
  }
}
