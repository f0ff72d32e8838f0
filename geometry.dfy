/** Points and vectors in model space, shared by both demo programs. */
module Geometry {

  /** A 3-component vector (GLM's `vec3`, OSG's `osg::Vec3`); float rounding is not modelled. */
  datatype Vec3 = Vec3(x: real, y: real, z: real)

  const Origin: Vec3 := Vec3(0.0, 0.0, 0.0)

  /** Vertex `v` of a flat float buffer: floats 3v, 3v + 1, 3v + 2. */
  function VertexAt(s: seq<real>, v: int): Vec3
    requires 0 <= v && 3 * v + 3 <= |s|
  {
    Vec3(s[3 * v], s[3 * v + 1], s[3 * v + 2])
  }

  /**
   * The three scalars a vertex occupies in a flat float buffer: reading a vertex back
   * from them gives the vertex.
   */
  function Coords(v: Vec3): (r: seq<real>)
    ensures |r| == 3 && VertexAt(r, 0) == v
  {
    [v.x, v.y, v.z]
  }

  function SquaredLength(v: Vec3): real
  {
    v.x * v.x + v.y * v.y + v.z * v.z
  }

  function Sub(a: Vec3, b: Vec3): Vec3
  {
    Vec3(a.x - b.x, a.y - b.y, a.z - b.z)
  }

  function Cross(a: Vec3, b: Vec3): Vec3
  {
    Vec3(a.y * b.z - a.z * b.y, a.z * b.x - a.x * b.z, a.x * b.y - a.y * b.x)
  }

  /**
   * A look-at view (`glm_lookat`, `osg::Matrixd::lookAt`) has a well-defined
   * orientation only when the viewing direction is not parallel to the up vector.
   */
  predicate LookAtWellDefined(eye: Vec3, center: Vec3, up: Vec3)
  {
    Cross(Sub(center, eye), up) != Origin
  }
}
