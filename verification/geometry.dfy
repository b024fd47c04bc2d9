/** Vectors and affine poses over exact reals.

    The game computes in f32 through glam; here every coordinate is an exact
    `real`. */
module Geometry {

  /** A point or direction in 3-space. */
  datatype Vec3 = Vec3(x: real, y: real, z: real)

  /** The three world axes, used to state per-axis facts once. */
  datatype Axis = X | Y | Z

  /** The coordinate of `v` along axis `a`. */
  function Coord(v: Vec3, a: Axis): real
  {
    match a
    case X => v.x
    case Y => v.y
    case Z => v.z
  }

  function Add(u: Vec3, v: Vec3): Vec3
  {
    Vec3(u.x + v.x, u.y + v.y, u.z + v.z)
  }

  function Scale(v: Vec3, k: real): Vec3
  {
    Vec3(v.x * k, v.y * k, v.z * k)
  }

  const Origin: Vec3 := Vec3(0.0, 0.0, 0.0)

  /** An affine pose, stored column by column like a 4x4 column-major matrix:
      three linear columns and the translation ("w") column. The bottom row of
      the 4x4 matrix is not stored: a point is extended with w = 1, multiplied
      and truncated back to three components, and the bottom row never reaches
      those three components. */
  datatype Pose = Pose(xAxis: Vec3, yAxis: Vec3, zAxis: Vec3, wAxis: Vec3)

  /** The translation part of a pose (the w column truncated to three
      components). */
  function TranslationOf(p: Pose): Vec3
  {
    p.wAxis
  }

  /** The image of local point `v` under pose `p`: `p * (v, 1)` truncated. */
  function Transform(p: Pose, v: Vec3): Vec3
  {
    Add(Add(Add(Scale(p.xAxis, v.x), Scale(p.yAxis, v.y)), Scale(p.zAxis, v.z)), p.wAxis)
  }

  /** A pure translation by `t` with identity linear part. */
  function Translation(t: Vec3): (p: Pose)
    ensures TranslationOf(p) == t
  {
    Pose(Vec3(1.0, 0.0, 0.0), Vec3(0.0, 1.0, 0.0), Vec3(0.0, 0.0, 1.0), t)
  }

  /** A pose with per-axis scale `s`, identity rotation and translation `t`:
      points are first scaled axis by axis, then translated. */
  function ScaleTranslation(s: Vec3, t: Vec3): (p: Pose)
    ensures TranslationOf(p) == t
  {
    Pose(Vec3(s.x, 0.0, 0.0), Vec3(0.0, s.y, 0.0), Vec3(0.0, 0.0, s.z), t)
  }

  /** A pure translation shifts every point by `t`. */
  lemma TransformTranslation(t: Vec3, v: Vec3)
    ensures Transform(Translation(t), v) == Add(v, t)
  {
  }

  /** A scale-and-translate pose scales each coordinate by its axis factor and
      then shifts it. */
  lemma TransformScaleTranslation(s: Vec3, t: Vec3, v: Vec3)
    ensures Transform(ScaleTranslation(s, t), v) == Vec3(s.x * v.x + t.x, s.y * v.y + t.y, s.z * v.z + t.z)
  {
  }

  /** A translation is the scale-and-translate pose with unit scale. */
  lemma TranslationIsUnitScale(t: Vec3)
    ensures Translation(t) == ScaleTranslation(Vec3(1.0, 1.0, 1.0), t)
  {
  }
}
