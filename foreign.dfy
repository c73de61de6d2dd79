/** The library routines the core calls but whose real-valued insides are not modelled:
    glm's intersection tests, distance and normalize, the per-light Lambert+Phong term
    with its float colour scaling, and texture look-ups on images loaded from files.
    A render is parameterised by one `Routines` value; every property proved holds for
    every choice of these functions. */
module Foreign {
  import opened Options
  import opened Geometry
  import opened Colors

  /** An ofImage used as a texture: either never loaded or loaded from a file. */
  datatype Texture = NoTexture | Loaded(file: string)

  /** Everything one light's Lambert+Phong contribution is computed from. */
  datatype LightInput = LightInput(
    point: Vec3, normal: Vec3, diffuse: Color, specular: Color, power: real,
    lightPosition: Vec3, intensity: real, eye: Vec3)

  datatype Routines = Routines(
    // glm::intersectRayPlane(origin, dir, planeOrigin, planeNormal, dist)
    intersectRayPlane: (Vec3, Vec3, Vec3, Vec3) -> Option<real>,
    // glm::intersectRaySphere(origin, dir, center, radius, point, normal)
    intersectRaySphere: (Vec3, Vec3, Vec3, real) -> Option<Hit>,
    // glm::distance
    distance: (Vec3, Vec3) -> real,
    // glm::normalize
    normalize: Vec3 -> Vec3,
    // theLambert + thePhong for one unshadowed light, as an ofColor
    lightTerm: LightInput -> Color,
    // int(fmod(u * size - 0.5, size)) for both axes of a texture, from tiled (u, v);
    // v is None where the source leaves it unassigned
    texelIndex: (Texture, real, Option<real>) -> (int, int),
    // ofImage::getColor(x, y) on a loaded texture
    getColor: (Texture, int, int) -> Color)
}
