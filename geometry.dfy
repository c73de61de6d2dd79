/** Vectors and rays (glm::vec2, glm::vec3 and the Ray class), over the reals. */
module Geometry {

  datatype Vec2 = Vec2(x: real, y: real)

  datatype Vec3 = Vec3(x: real, y: real, z: real)

  const Origin := Vec3(0.0, 0.0, 0.0)

  function Add(a: Vec3, b: Vec3): Vec3
  {
    Vec3(a.x + b.x, a.y + b.y, a.z + b.z)
  }

  function Sub(a: Vec3, b: Vec3): Vec3
  {
    Vec3(a.x - b.x, a.y - b.y, a.z - b.z)
  }

  function Scale(t: real, a: Vec3): Vec3
  {
    Vec3(t * a.x, t * a.y, t * a.z)
  }

  /** A ray with origin `p` and direction `d`. */
  datatype Ray = Ray(p: Vec3, d: Vec3)
  {
    /** The point at parameter `t` along the ray. */
    function EvalPoint(t: real): (q: Vec3)
      ensures Sub(q, p) == Scale(t, d)
    {
      Add(p, Scale(t, d))
    }
  }

  /** What an intersection test writes to its out-parameters on success. */
  datatype Hit = Hit(point: Vec3, normal: Vec3)

  lemma EvalPointAtZero(r: Ray)
    ensures r.EvalPoint(0.0) == r.p
  {
  }

  /** Walking `s` and then `t` along the ray is walking `s + t`. */
  lemma EvalPointAdditive(r: Ray, s: real, t: real)
    ensures r.EvalPoint(s + t) == Add(r.EvalPoint(s), Scale(t, r.d))
  {
  }
}
