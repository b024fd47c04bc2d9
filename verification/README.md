# Dropper scene core, modelled in Dafny

This project models the logic core of a small OpenGL game engine and its
"Dropper" game: scene objects with a pose and a derived center,
axis-aligned bounding-box (AABB) collision between two objects, and the
string-keyed object store that the game initializes and updates each frame.
Coordinates are exact `real`s instead of 32-bit floats.

Modules, one per concern:

- `Geometry` (`geometry.dfy`): `Vec3`, the three axes, and affine poses. A
  pose is stored as three linear columns plus the translation (w) column. The
  bottom row of the 4x4 matrix is not stored because it never reaches the
  three components that survive truncation.
- `Bounds` (`bounds.dfy`): the per-axis min/max fold over world points, both
  as a left fold (`MinOn`, `MaxOn`, `BoxOf`) and as the imperative six-variable
  loop (`FoldBounds`); the inclusive overlap test `Overlap`.
- `Objects` (`object.dfy`): the `Object` record and `New`, `SetModelMatrix`,
  `GetCenter`, `GetAabb` and `Intersect`. It also has the invariant `Valid`,
  which says the center equals the pose's translation.
- `DropperGame` (`dropper.dfy`): the store `map<string, Object>`, the scene
  geometry constants, and `Initialize`, `Update` and `HandleEvent`, plus the
  facts about the initial scene.

`Object::new` accepts an empty vertex list; the first failure is the index
`[0]` in `intersect` (src/object.rs:71), which is where the model requires a
non-empty list.

## Model

| member | source | states |
|---|---|---|
| Geometry.Translation | src/object.rs:29 | a translation pose has the given vector as its translation column |
| Geometry.ScaleTranslation | src/dropper.rs:76 | a scale/identity-rotation/translation pose has the given translation column |
| Geometry.TransformTranslation | src/object.rs:55 | a pure translation maps every point v to v + t |
| Geometry.TransformScaleTranslation | src/dropper.rs:76 | a scale-and-translate pose maps each coordinate to scale * coordinate + offset |
| Geometry.TranslationIsUnitScale | src/object.rs:29 | a translation pose is the scale-and-translate pose with unit scale |
| Bounds.MinOn | src/object.rs:71-97 | the left fold with strict `<` replacement yields a value no larger than every coordinate on that axis and equal to one of them |
| Bounds.MaxOn | src/object.rs:71-97 | the left fold with strict `>` replacement yields a value no smaller than every coordinate and equal to one of them |
| Bounds.BoxOf | src/object.rs:99-125 | the folded box is tight on all three axes: each bound is attained by some point and contains every point |
| Bounds.EnclosesUnique | src/object.rs:71-125 | any tight box of a point list equals the folded box, so the extrema do not depend on how they are computed |
| Bounds.BoxFromCorners | src/object.rs:71-125 | a box that contains all points and has points on both corners is the folded box |
| Bounds.FoldBounds | src/object.rs:71-97 | the six-variable loop seeded from point 0 computes the tight box, which equals the left-fold box |
| Bounds.OverlapPerAxis | src/object.rs:127-132 | the six comparisons are the closed-interval intersection test on each axis |
| Bounds.OverlapSymmetric | src/object.rs:127-132 | the overlap test gives the same answer with its arguments swapped |
| Bounds.OverlapReflexive | src/object.rs:127-132 | a box with ordered corners overlaps itself |
| Bounds.FaceContactOverlaps | src/object.rs:127-132 | boxes that only share a face are reported as overlapping (inclusive bounds) |
| Bounds.BoxOfOrdered | src/object.rs:71-125 | a folded box has lower corner at or below its upper corner on every axis |
| Bounds.OverlapOfPoints | src/object.rs:70-133 | two folded boxes overlap exactly when, on every axis, each list has a point at or below some point of the other |
| Objects.AsI32 | src/object.rs:37 | the `as i32` cast stays in the signed 32-bit range, agrees with the length modulo 2^32, and is the length itself below 2^31 |
| Objects.New | src/object.rs:18-41 | a new object satisfies the center invariant with pose = translation(center), keeps vertices and colour, and has index count = the number of indices cast to i32 (the number itself when it fits) |
| Objects.SetModelMatrix | src/object.rs:43-46 | after replacing the pose, center = translation column of the new pose, and vertices, colour and index count are unchanged |
| Objects.GetCenter | src/object.rs:48-50 | on a valid object the returned center is the pose's translation |
| Objects.GetAabb | src/object.rs:52-59 | the loop returns exactly one transformed point per stored vertex, in vertex order |
| Objects.AabbUnderTranslation | src/object.rs:52-59 | under a pure-translation pose each world point is the vertex plus the center |
| Objects.Intersect | src/object.rs:70-133 | on non-empty objects the fold-and-compare returns true exactly when, on every axis, each object has a point at or below some point of the other |
| Objects.IntersectsSymmetric | src/object.rs:127-132 | intersect(a, b) equals intersect(b, a) |
| Objects.IntersectsReflexive | src/object.rs:70-133 | every object with at least one vertex intersects itself |
| DropperGame.Insert | src/dropper.rs:71-73 | a store insert adds the key, overwrites an existing entry, and keeps every other entry |
| DropperGame.Initialize | src/dropper.rs:14-76 | the key set gains exactly "cube" and "plane" and other keys keep their entries; the cube is red at the origin with 36 indices; the plane is blue with pose scale (5,1,5) and translation (0,-3,0), center (0,-3,0) and 6 indices; the center invariant is preserved |
| DropperGame.InitializeEmptyKeys | src/dropper.rs:71-73 | initializing an empty store gives exactly the keys {"cube", "plane"} |
| DropperGame.Update | src/dropper.rs:102-108 | with "cube" present: the key set is unchanged, other entries are untouched, and the cube keeps its center, vertices, colour and index count while its pose becomes translation(center) |
| DropperGame.UpdateIdempotent | src/dropper.rs:102-108 | applying update twice equals applying it once |
| DropperGame.UpdateKeepsTranslatedCube | src/dropper.rs:102-108 | when the cube's pose already is translation(center), update leaves the whole state unchanged |
| DropperGame.UpdateAfterInitialize | src/dropper.rs:14-108 | the initialized scene is a fixed point of update |
| DropperGame.HandleEvent | src/dropper.rs:116-118 | handling any event leaves the whole state unchanged |
| DropperGame.SceneIndicesInRange | src/dropper.rs:17-67 | every cube index is below 8, every plane index below 4, and both index lists are whole triangles |
| DropperGame.ShiftedCubeBox | src/dropper.rs:29-41 | the cube's points shifted by c have the box [c - 0.5, c + 0.5] on every axis |
| DropperGame.CubeBox | src/dropper.rs:29-41 | a cube object placed by translation spans [center - 0.5, center + 0.5] on every axis |
| DropperGame.PlacedPlaneBox | src/dropper.rs:17-22 | the plane's points after the scale (5,1,5) and the drop to y = -3 have the box x, z in [-5, 5] and y = -3 |
| DropperGame.PlaneBox | src/dropper.rs:17-22 | the plane object under its initial pose has AABB x in [-5, 5], y = -3, z in [-5, 5] |
| DropperGame.CubesIntersectIff | src/object.rs:127-132 | two translated cubes intersect exactly when their centers differ by at most 1 on every axis, so contact on a face, an edge or a corner counts |
| DropperGame.CornerTouchingCubesIntersect | src/object.rs:127-132 | unit cubes at (0,0,0) and (1,1,1), which meet only at a corner, intersect |
| DropperGame.InitialSceneSeparated | src/dropper.rs:69-76 | in the initialized scene the cube's box is [-0.5, 0.5]^3, the plane's is x, z in [-5, 5] at y = -3, and the two do not intersect |

## Left out

- Floating-point arithmetic: coordinates are exact reals. The f32 rounding in the matrix-vector products of `get_aabb` is not modelled.
- GPU handles (`vbo`, `vao`, `ibo`) and `Object::render`: these are OpenGL side effects with no logic to verify.
- The camera (`projection_matrix`, `view_matrix` and their setup at src/dropper.rs:78-99): it is built with f32 `atan` and library perspective and look-at constructors, which are floating-point library calls.
- `get_objects`: it only clones the store's values for the renderer.
- `src/graphics.rs`, `src/winsdl.rs` and `src/main.rs`: these are shader/buffer plumbing, window and context creation, and the frame loop. `src/main.rs` also constructs `Dropper` with fields the struct does not declare.
- The `Game` trait (`src/game.rs`): its method set does not match what `Dropper` implements. The Dropper operations are modelled directly.
- Event contents: `HandleEvent` is generic over the event type because the handler never inspects it.
- `Intersect` and `Update` panic in the code (an index into an empty point list, an `unwrap` of a missing "cube"). The model turns each panic into a precondition and does not model the panic itself.
