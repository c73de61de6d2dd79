/** The scene's object model: the SceneObject hierarchy (Sphere, Light, Plane), the
    bounded-plane acceptance test, the plane's texture-coordinate mapping, and the
    render camera with its view plane. */
module Objects {
  import opened Options
  import opened Geometry
  import opened Colors
  import opened Foreign

  /** Which subclass of SceneObject an object was created as. */
  datatype Kind = SphereKind | LightKind | PlaneKind

  // The six axis-aligned normals a Plane is meant to have.
  const PosX := Vec3(1.0, 0.0, 0.0)
  const NegX := Vec3(-1.0, 0.0, 0.0)
  const PosY := Vec3(0.0, 1.0, 0.0)
  const NegY := Vec3(0.0, -1.0, 0.0)
  const PosZ := Vec3(0.0, 0.0, 1.0)
  const NegZ := Vec3(0.0, 0.0, -1.0)

  predicate IsCanonical(n: Vec3)
  {
    n == PosX || n == NegX || n == PosY || n == NegY || n == PosZ || n == NegZ
  }

  function Abs(a: real): real
  {
    if a < 0.0 then -a else a
  }

  /** `a` lies strictly within `half` of `c`. */
  predicate StrictlyNear(a: real, c: real, half: real)
  {
    Abs(a - c) < half
  }

  /** Where a plane of the given extents accepts a point of its infinite plane. The
      range for y is built from `width`, as in the source, for both the Z-facing and the
      X-facing planes. */
  predicate InsideExtents(position: Vec3, normal: Vec3, width: real, height: real, q: Vec3)
  {
    || ((normal == PosY || normal == NegY)
        && StrictlyNear(q.x, position.x, width / 2.0) && StrictlyNear(q.z, position.z, height / 2.0))
    || ((normal == PosZ || normal == NegZ)
        && StrictlyNear(q.x, position.x, width / 2.0) && StrictlyNear(q.y, position.y, width / 2.0))
    || ((normal == PosX || normal == NegX)
        && StrictlyNear(q.y, position.y, width / 2.0) && StrictlyNear(q.z, position.z, height / 2.0))
  }

  /** Plane::intersect: intersect the infinite plane, then keep the hit only when it lies
      strictly inside the open ranges of the two coordinates the normal selects. The model
      returns the point and normal only on acceptance; the source writes its out-parameters
      on every infinite-plane hit, but no caller reads them after a `false`. */
  function PlaneHit(rt: Routines, ray: Ray, position: Vec3, normal: Vec3, width: real, height: real): (r: Option<Hit>)
    ensures r.Some? <==>
      rt.intersectRayPlane(ray.p, ray.d, position, normal).Some? &&
      InsideExtents(position, normal, width, height,
                    ray.EvalPoint(rt.intersectRayPlane(ray.p, ray.d, position, normal).value))
    ensures r.Some? ==>
      r.value.normal == normal &&
      r.value.point == ray.EvalPoint(rt.intersectRayPlane(ray.p, ray.d, position, normal).value)
    ensures !IsCanonical(normal) ==> r.None?
  {
    match rt.intersectRayPlane(ray.p, ray.d, position, normal)
    case None => None
    case Some(dist) =>
      var point := ray.EvalPoint(dist);
      var xrange := (position.x - width / 2.0, position.x + width / 2.0);
      var yrange := (position.y - width / 2.0, position.y + width / 2.0);
      var zrange := (position.z - height / 2.0, position.z + height / 2.0);
      var insidePlane :=
        if normal == PosY || normal == NegY then
          point.x < xrange.1 && point.x > xrange.0 && point.z < zrange.1 && point.z > zrange.0
        else if normal == PosZ || normal == NegZ then
          point.x < xrange.1 && point.x > xrange.0 && point.y < yrange.1 && point.y > yrange.0
        else if normal == PosX || normal == NegX then
          point.y < yrange.1 && point.y > yrange.0 && point.z < zrange.1 && point.z > zrange.0
        else
          false;
      if insidePlane then Some(Hit(point, normal)) else None
  }

  /** A hit exactly on the edge of the x range is rejected: the ranges are open. */
  lemma PlaneRejectsEdge(rt: Routines, ray: Ray, position: Vec3, normal: Vec3, width: real, height: real, dist: real)
    requires rt.intersectRayPlane(ray.p, ray.d, position, normal) == Some(dist)
    requires normal == PosY || normal == PosZ
    requires ray.EvalPoint(dist).x == position.x + width / 2.0
    ensures PlaneHit(rt, ray, position, normal, width, height).None?
  {
  }

  /** Because y is ranged by `width`, a wall facing +Z that is wider than it is high
      accepts hits above its top edge. */
  lemma WallAcceptsAboveItsHeight(rt: Routines, ray: Ray, position: Vec3, dist: real)
    requires rt.intersectRayPlane(ray.p, ray.d, position, PosZ) == Some(dist)
    requires ray.EvalPoint(dist) == Add(position, Vec3(0.0, 7.0, 0.0))
    ensures PlaneHit(rt, ray, position, PosZ, 20.0, 10.0).Some?
    ensures ray.EvalPoint(dist).y > position.y + 10.0 / 2.0
  {
  }

  /** FLT_EPSILON, the guard ofMap uses against an empty input range. */
  const FltEpsilon: real := 0.00000011920928955078125

  /** ofMap(value, inputMin, inputMax, outputMin, outputMax) without clamping. */
  function OfMap(value: real, inMin: real, inMax: real, outMin: real, outMax: real): real
  {
    if Abs(inMin - inMax) < FltEpsilon then outMin
    else (value - inMin) / (inMax - inMin) * (outMax - outMin) + outMin
  }

  /** The tiled texture coordinates of Plane::getIJCoords and getIJCoordsSpec before the
      texel look-up: u from x always, v from z for a ground plane facing +Y and from y
      for a wall facing +Z, and v left unassigned (None) for any other normal. */
  function PlaneUV(position: Vec3, normal: Vec3, width: real, height: real, point: Vec3, numTiles: int): (uv: (real, Option<real>))
    ensures uv.1.Some? <==> normal == PosY || normal == PosZ
    ensures uv.0 == OfMap(point.x, position.x - width / 2.0, position.x + width / 2.0, 0.0, 1.0) * (numTiles as real)
    ensures normal == PosY ==>
      uv.1.value == OfMap(point.z, position.z - height / 2.0, position.z + height / 2.0, 0.0, 1.0) * (numTiles as real)
    ensures normal == PosZ ==>
      uv.1.value == OfMap(point.y, position.y - height / 2.0, position.y + height / 2.0, 0.0, 1.0) * (numTiles as real)
  {
    var u := OfMap(point.x, position.x - width / 2.0, position.x + width / 2.0, 0.0, 1.0);
    var v :=
      if normal == PosY then Some(OfMap(point.z, position.z - height / 2.0, position.z + height / 2.0, 0.0, 1.0))
      else if normal == PosZ then Some(OfMap(point.y, position.y - height / 2.0, position.y + height / 2.0, 0.0, 1.0))
      else None;
    (u * (numTiles as real), if v.Some? then Some(v.value * (numTiles as real)) else None)
  }

  /** A coordinate strictly inside an extent of at least FLT_EPSILON maps strictly inside
      (0, numTiles). */
  lemma OfMapTiledInside(a: real, c: real, extent: real, numTiles: int)
    requires extent >= FltEpsilon && numTiles >= 1
    requires StrictlyNear(a, c, extent / 2.0)
    ensures var t := OfMap(a, c - extent / 2.0, c + extent / 2.0, 0.0, 1.0) * (numTiles as real);
            0.0 < t < numTiles as real
  {
    var m := OfMap(a, c - extent / 2.0, c + extent / 2.0, 0.0, 1.0);
    assert Abs((c - extent / 2.0) - (c + extent / 2.0)) == extent;
    assert m == (a - (c - extent / 2.0)) / extent;
    assert 0.0 < a - (c - extent / 2.0) < extent;
    assert 0.0 < m < 1.0;
    var n := numTiles as real;
    assert m * n < 1.0 * n;
  }

  /** Every hit a ground plane (normal +Y) accepts has texture coordinates strictly
      inside the tiled square (0, numTiles) x (0, numTiles). */
  lemma GroundHitMapsInsideTiles(rt: Routines, ray: Ray, position: Vec3, width: real, height: real, numTiles: int)
    requires width >= FltEpsilon && height >= FltEpsilon && numTiles >= 1
    requires PlaneHit(rt, ray, position, PosY, width, height).Some?
    ensures var uv := PlaneUV(position, PosY, width, height,
                              PlaneHit(rt, ray, position, PosY, width, height).value.point, numTiles);
            0.0 < uv.0 < numTiles as real && uv.1.Some? && 0.0 < uv.1.value < numTiles as real
  {
    var q := PlaneHit(rt, ray, position, PosY, width, height).value.point;
    OfMapTiledInside(q.x, position.x, width, numTiles);
    OfMapTiledInside(q.z, position.z, height, numTiles);
  }

  /** A wall facing +Z ranges its accepted y by `width` but maps y to v by `height`, so
      the hit 7 above the centre of a 20 x 10 wall, which the wall accepts, gets
      v = 1.2 * numTiles: outside the tiled range (0, numTiles). */
  lemma WallHitAboveHeightMapsOutsideTiles(rt: Routines, ray: Ray, position: Vec3, dist: real, numTiles: int)
    requires rt.intersectRayPlane(ray.p, ray.d, position, PosZ) == Some(dist)
    requires ray.EvalPoint(dist) == Add(position, Vec3(0.0, 7.0, 0.0))
    requires numTiles >= 1
    ensures PlaneHit(rt, ray, position, PosZ, 20.0, 10.0).Some?
    ensures var uv := PlaneUV(position, PosZ, 20.0, 10.0, PlaneHit(rt, ray, position, PosZ, 20.0, 10.0).value.point, numTiles);
            uv.1 == Some(1.2 * (numTiles as real)) && uv.1.value > numTiles as real
  {
    WallAcceptsAboveItsHeight(rt, ray, position, dist);
    var q := PlaneHit(rt, ray, position, PosZ, 20.0, 10.0).value.point;
    assert q.y == position.y + 7.0;
    assert Abs((position.y - 5.0) - (position.y + 5.0)) == 10.0;
    assert OfMap(q.y, position.y - 10.0 / 2.0, position.y + 10.0 / 2.0, 0.0, 1.0) == 1.2;
  }

  /** The common base of every renderable object. One class stands for the whole
      hierarchy; `kind` records the subclass, and the fields a subclass adds are present
      (and unused) on the others. */
  class SceneObject {
    const kind: Kind
    var name: string
    var position: Vec3
    var isSelectable: bool
    var diffuseColor: Color
    var specularColor: Color
    var textured: bool
    var texture: Texture
    var specularTexture: Texture
    var radius: real      // Sphere and Light
    var intensity: real   // Light
    var normal: Vec3      // Plane
    var width: real       // Plane
    var height: real      // Plane

    /** The field initialisers every object gets before its own constructor runs. */
    ghost predicate BaseDefaults()
      reads this
    {
      !textured && texture == NoTexture && specularTexture == NoTexture && specularColor == LightGray
    }

    /** Sphere(p, r, diffuse = lightGray). */
    constructor Sphere(p: Vec3, r: real, diffuse: Color := LightGray)
      ensures kind == SphereKind && name == "sphere"
      ensures position == p && radius == r && diffuseColor == diffuse
      ensures isSelectable && BaseDefaults()
    {
      kind := SphereKind;
      name := "sphere";
      position := p;
      isSelectable := true;
      diffuseColor := diffuse;
      specularColor := LightGray;
      textured := false;
      texture := NoTexture;
      specularTexture := NoTexture;
      radius := r;
      intensity := 0.0;
      normal := Origin;
      width := 20.0;
      height := 20.0;
    }

    /** Sphere(): radius 1 at the origin, grey. */
    constructor DefaultSphere()
      ensures kind == SphereKind && name == "sphere"
      ensures position == Origin && radius == 1.0 && diffuseColor == Grey
      ensures isSelectable && BaseDefaults()
    {
      kind := SphereKind;
      name := "sphere";
      position := Origin;
      isSelectable := true;
      diffuseColor := Grey;
      specularColor := LightGray;
      textured := false;
      texture := NoTexture;
      specularTexture := NoTexture;
      radius := 1.0;
      intensity := 0.0;
      normal := Origin;
      width := 20.0;
      height := 20.0;
    }

    /** Light(p, i): a light is also a small sphere (radius 0.1) for picking and for the
        intersection test. */
    constructor Light(p: Vec3, i: real)
      ensures kind == LightKind && name == "light"
      ensures position == p && intensity == i && radius == 0.1
      ensures isSelectable && diffuseColor == Grey && BaseDefaults()
    {
      kind := LightKind;
      name := "light";
      position := p;
      isSelectable := true;
      diffuseColor := Grey;
      specularColor := LightGray;
      textured := false;
      texture := NoTexture;
      specularTexture := NoTexture;
      radius := 0.1;
      intensity := i;
      normal := Origin;
      width := 20.0;
      height := 20.0;
    }

    /** Light(): intensity 0 at the origin. */
    constructor DefaultLight()
      ensures kind == LightKind && name == "light"
      ensures position == Origin && intensity == 0.0 && radius == 0.1
      ensures isSelectable && diffuseColor == Grey && BaseDefaults()
    {
      kind := LightKind;
      name := "light";
      position := Origin;
      isSelectable := true;
      diffuseColor := Grey;
      specularColor := LightGray;
      textured := false;
      texture := NoTexture;
      specularTexture := NoTexture;
      radius := 0.1;
      intensity := 0.0;
      normal := Origin;
      width := 20.0;
      height := 20.0;
    }

    /** Plane(p, n, diffuse = green, w = 20, h = 20); a plane is never selectable. The
        rotation of the drawing primitive is left out. */
    constructor Plane(p: Vec3, n: Vec3, diffuse: Color := Green, w: real := 20.0, h: real := 20.0)
      ensures kind == PlaneKind && name == "SceneObject"
      ensures position == p && normal == n && diffuseColor == diffuse && width == w && height == h
      ensures !isSelectable && BaseDefaults()
    {
      kind := PlaneKind;
      name := "SceneObject";
      position := p;
      normal := n;
      width := w;
      height := h;
      diffuseColor := diffuse;
      isSelectable := false;
      specularColor := LightGray;
      textured := false;
      texture := NoTexture;
      specularTexture := NoTexture;
      radius := 1.0;
      intensity := 0.0;
    }

    /** Plane(): a 20 x 20 ground plane through the origin, facing +Y. */
    constructor DefaultPlane()
      ensures kind == PlaneKind && name == "SceneObject"
      ensures position == Origin && normal == PosY && width == 20.0 && height == 20.0
      ensures diffuseColor == Grey && !isSelectable && BaseDefaults()
    {
      kind := PlaneKind;
      name := "SceneObject";
      position := Origin;
      normal := PosY;
      width := 20.0;
      height := 20.0;
      diffuseColor := Grey;
      isSelectable := false;
      specularColor := LightGray;
      textured := false;
      texture := NoTexture;
      specularTexture := NoTexture;
      radius := 1.0;
      intensity := 0.0;
    }

    /** setTexture: store the diffuse texture and mark the object textured. */
    method SetTexture(theTexture: Texture)
      modifies this
      ensures texture == theTexture && textured
      ensures specularTexture == old(specularTexture) && diffuseColor == old(diffuseColor)
      ensures specularColor == old(specularColor) && position == old(position)
      ensures radius == old(radius) && intensity == old(intensity) && normal == old(normal)
      ensures width == old(width) && height == old(height)
      ensures isSelectable == old(isSelectable) && name == old(name)
    {
      texture := theTexture;
      textured := true;
    }

    /** setSpec: store the specular texture; `textured` is left as it was. */
    method SetSpec(theSpec: Texture)
      modifies this
      ensures specularTexture == theSpec && textured == old(textured)
      ensures texture == old(texture) && diffuseColor == old(diffuseColor)
      ensures specularColor == old(specularColor) && position == old(position)
      ensures radius == old(radius) && intensity == old(intensity) && normal == old(normal)
      ensures width == old(width) && height == old(height)
      ensures isSelectable == old(isSelectable) && name == old(name)
    {
      specularTexture := theSpec;
    }

    /** Sphere::setRadius. */
    method SetRadius(theR: real)
      requires kind == SphereKind
      modifies this`radius
      ensures radius == theR
    {
      radius := theR;
    }

    /** Light::setIntensity. */
    method SetIntensity(theI: real)
      requires kind == LightKind
      modifies this`intensity
      ensures intensity == theI
    {
      intensity := theI;
    }

    /** The object's current state, as the renderer reads it. */
    function State(): (st: ObjectState)
      reads this
      ensures st.kind == kind && st.position == position && st.radius == radius
      ensures st.diffuseColor == diffuseColor && st.specularColor == specularColor
      ensures st.textured == textured && st.texture == texture && st.specularTexture == specularTexture
      ensures st.intensity == intensity && st.normal == normal && st.width == width && st.height == height
    {
      ObjectState(kind, position, diffuseColor, specularColor, textured, texture, specularTexture,
                  radius, intensity, normal, width, height)
    }
  }

  /** A snapshot of a SceneObject's fields that a render reads. */
  datatype ObjectState = ObjectState(
    kind: Kind, position: Vec3, diffuseColor: Color, specularColor: Color,
    textured: bool, texture: Texture, specularTexture: Texture,
    radius: real, intensity: real, normal: Vec3, width: real, height: real)
  {
    /** The virtual intersect: spheres and lights through glm's ray-sphere test (a light
        with its radius 0.1), planes through PlaneHit. */
    function Intersect(rt: Routines, ray: Ray): (r: Option<Hit>)
      ensures kind == PlaneKind && !IsCanonical(normal) ==> r.None?
      ensures kind == PlaneKind && r.Some? ==>
        r.value.normal == normal && InsideExtents(position, normal, width, height, r.value.point)
      ensures kind != PlaneKind ==> r == rt.intersectRaySphere(ray.p, ray.d, position, radius)
    {
      match kind
      case PlaneKind => PlaneHit(rt, ray, position, normal, width, height)
      case _ => rt.intersectRaySphere(ray.p, ray.d, position, radius)
    }

    /** getIJCoords (specular == false, sized by `texture`) and getIJCoordsSpec
        (specular == true, sized by `specularTexture`): a plane maps the point to tiled
        (u, v) and then to texel indices; every other object answers (0, 0). */
    function IJCoords(rt: Routines, point: Vec3, numTiles: int, specular: bool): (ij: (int, int))
      ensures kind != PlaneKind ==> ij == (0, 0)
    {
      if kind == PlaneKind then
        var uv := PlaneUV(position, normal, width, height, point, numTiles);
        rt.texelIndex(if specular then specularTexture else texture, uv.0, uv.1)
      else
        (0, 0)
    }
  }

  /** Every hit a ground plane (+Y) reports sends the texel look-up, for the diffuse and
      the specular texture alike, tiled coordinates strictly inside (0, numTiles). */
  lemma GroundPlaneTexelArguments(rt: Routines, o: ObjectState, ray: Ray, numTiles: int, specular: bool)
    requires o.kind == PlaneKind && o.normal == PosY
    requires o.width >= FltEpsilon && o.height >= FltEpsilon && numTiles >= 1
    requires o.Intersect(rt, ray).Some?
    ensures var q := o.Intersect(rt, ray).value.point;
            var uv := PlaneUV(o.position, PosY, o.width, o.height, q, numTiles);
            && 0.0 < uv.0 < numTiles as real && uv.1.Some? && 0.0 < uv.1.value < numTiles as real
            && o.IJCoords(rt, q, numTiles, specular) == rt.texelIndex(if specular then o.specularTexture else o.texture, uv.0, uv.1)
  {
    GroundHitMapsInsideTiles(rt, ray, o.position, o.width, o.height, numTiles);
  }

  /** The states of a list of objects, in order. */
  function States(objs: seq<SceneObject>): (r: seq<ObjectState>)
    reads objs
    ensures |r| == |objs| && forall k :: 0 <= k < |objs| ==> r[k] == objs[k].State()
  {
    seq(|objs|, k requires 0 <= k < |objs| reads objs => objs[k].State())
  }

  /** The camera's image plane: a rectangle [min, max] at depth position.z. */
  datatype ViewPlane = View(min: Vec2, max: Vec2, position: Vec3, normal: Vec3)
  {
    /** width(): the extent from the left edge to the right edge. */
    function Width(): (w: real)
      ensures min.x + w == max.x
    {
      max.x - min.x
    }

    /** height(): the extent from the bottom edge to the top edge. */
    function Height(): (h: real)
      ensures min.y + h == max.y
    {
      max.y - min.y
    }

    /** getAspect; the float result for a zero height (an infinity or NaN) is not modelled. */
    function GetAspect(): (a: real)
      requires Height() != 0.0
      ensures a * Height() == Width()
    {
      Width() / Height()
    }

    // The corners: left and bottom edges come from `min`, right and top edges from `max`.
    function TopLeft(): (c: Vec2)
      ensures c.x == min.x && c.y == max.y
    {
      Vec2(min.x, max.y)
    }

    function TopRight(): (c: Vec2)
      ensures c.x == max.x && c.y == max.y
    {
      max
    }

    function BottomLeft(): (c: Vec2)
      ensures c.x == min.x && c.y == min.y
    {
      min
    }

    function BottomRight(): (c: Vec2)
      ensures c.x == max.x && c.y == min.y
    {
      Vec2(max.x, min.y)
    }

    /** setSize, on a value: the bounds replaced, everything else kept. */
    function SetSize(newMin: Vec2, newMax: Vec2): (vp: ViewPlane)
      ensures vp.min == newMin && vp.max == newMax
      ensures vp.position == position && vp.normal == normal
    {
      this.(min := newMin, max := newMax)
    }

    /** toWorld: (u, v) in the unit square to the point of the plane it names. */
    function ToWorld(u: real, v: real): (q: Vec3)
      ensures q.z == position.z
    {
      Vec3(u * Width() + min.x, v * Height() + min.y, position.z)
    }
  }

  /** ViewPlane(p0, p1): the bounds given; position and normal as a default Plane leaves them. */
  function MakeViewPlane(p0: Vec2, p1: Vec2): (vp: ViewPlane)
    ensures vp.BottomLeft() == p0 && vp.TopRight() == p1
    ensures vp.Width() == p1.x - p0.x && vp.Height() == p1.y - p0.y
    ensures vp.position == Origin && vp.normal == PosY
  {
    View(p0, p1, Origin, PosY)
  }

  /** ViewPlane(): a 6 x 4 plane at z = 5 facing +Z. */
  const DefaultViewPlane := View(Vec2(-3.0, -2.0), Vec2(3.0, 2.0), Vec3(0.0, 0.0, 5.0), PosZ)

  lemma DefaultViewPlaneGeometry()
    ensures DefaultViewPlane.Width() == 6.0 && DefaultViewPlane.Height() == 4.0
    ensures DefaultViewPlane.GetAspect() == 1.5
    ensures DefaultViewPlane.position == Vec3(0.0, 0.0, 5.0) && DefaultViewPlane.normal == PosZ
  {
  }

  /** The corners of the unit square map to the plane's corners. */
  lemma ToWorldCorners(vp: ViewPlane)
    ensures vp.ToWorld(0.0, 0.0) == Vec3(vp.BottomLeft().x, vp.BottomLeft().y, vp.position.z)
    ensures vp.ToWorld(1.0, 1.0) == Vec3(vp.TopRight().x, vp.TopRight().y, vp.position.z)
    ensures vp.ToWorld(0.0, 1.0) == Vec3(vp.TopLeft().x, vp.TopLeft().y, vp.position.z)
    ensures vp.ToWorld(1.0, 0.0) == Vec3(vp.BottomRight().x, vp.BottomRight().y, vp.position.z)
  {
  }

  /** toWorld is affine and, for a plane of non-zero size, inverted by measuring the
      offset from `min` in units of the plane's extents. */
  lemma ToWorldInverse(vp: ViewPlane, u: real, v: real)
    requires vp.Width() != 0.0 && vp.Height() != 0.0
    ensures (vp.ToWorld(u, v).x - vp.min.x) / vp.Width() == u
    ensures (vp.ToWorld(u, v).y - vp.min.y) / vp.Height() == v
  {
  }

  /** The render camera: z-axis aligned, looking through its view plane. */
  datatype RenderCam = Cam(position: Vec3, aim: Vec3, view: ViewPlane)
  {
    /** getRay: from the camera position towards toWorld(u, v). */
    function GetRay(rt: Routines, u: real, v: real): (r: Ray)
      ensures r.p == position
      ensures r.d == rt.normalize(Sub(view.ToWorld(u, v), position))
    {
      Ray(position, rt.normalize(Sub(view.ToWorld(u, v), position)))
    }
  }

  /** RenderCam(): at (0, 0, 10), aimed down -Z, with the default view plane. */
  const DefaultRenderCam := Cam(Vec3(0.0, 0.0, 10.0), Vec3(0.0, 0.0, -1.0), DefaultViewPlane)
}
