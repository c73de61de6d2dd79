/** What a render computes, as functions of the scene: the closest-hit scan, the shadow
    test, phong's ambient-plus-lights structure, the colour of one primary ray, and the
    pixels of the full, SSAA and MSAA images. The App class's loops are proved to compute
    exactly these. */
module Render {
  import opened Options
  import opened Geometry
  import opened Colors
  import opened Foreign
  import opened Objects
  import opened Filter

  /** What a render reads from the application: the scene and light lists (in order),
      the render camera, ofGetBackgroundColor() and the texture tile count. */
  datatype Scene = Scene(
    objects: seq<ObjectState>, lights: seq<ObjectState>, cam: RenderCam,
    background: Color, numTiles: int)

  /** The surviving candidate of the closest-hit scan: closestObj, its intersection and
      shortestDistance. */
  datatype Nearest = Nearest(index: nat, hit: Hit, dist: real)

  // ---------------------------------------------------------------- closest hit

  /** The scan over the first k objects: an object replaces the current candidate only
      when its distance is strictly smaller (the initial shortestDistance is infinite). */
  function Closest(rt: Routines, objs: seq<ObjectState>, ray: Ray, eye: Vec3, k: nat): (r: Option<Nearest>)
    requires k <= |objs|
    ensures r.Some? ==> r.value.index < k
    decreases k
  {
    if k == 0 then None
    else
      var prev := Closest(rt, objs, ray, eye, k - 1);
      match objs[k - 1].Intersect(rt, ray)
      case None => prev
      case Some(h) =>
        var d := rt.distance(eye, h.point);
        if prev.None? || d < prev.value.dist then Some(Nearest(k - 1, h, d)) else prev
  }

  predicate Hits(rt: Routines, objs: seq<ObjectState>, ray: Ray, m: int)
  {
    0 <= m < |objs| && objs[m].Intersect(rt, ray).Some?
  }

  function DistanceOf(rt: Routines, objs: seq<ObjectState>, ray: Ray, eye: Vec3, m: int): real
    requires Hits(rt, objs, ray, m)
  {
    rt.distance(eye, objs[m].Intersect(rt, ray).value.point)
  }

  /** The candidate is the hit of its own object at the distance the scan measured, no
      object among the first k is nearer, every object before it is strictly farther (the
      first of equally near objects wins), and there is no candidate exactly when no
      object is hit. */
  predicate IsFirstNearest(rt: Routines, objs: seq<ObjectState>, ray: Ray, eye: Vec3, k: nat, n: Nearest)
    requires k <= |objs|
  {
    && n.index < k
    && Hits(rt, objs, ray, n.index)
    && objs[n.index].Intersect(rt, ray) == Some(n.hit)
    && n.dist == DistanceOf(rt, objs, ray, eye, n.index)
    && (forall m :: 0 <= m < k && Hits(rt, objs, ray, m) ==> n.dist <= DistanceOf(rt, objs, ray, eye, m))
    && (forall m :: 0 <= m < n.index && Hits(rt, objs, ray, m) ==> n.dist < DistanceOf(rt, objs, ray, eye, m))
  }

  lemma {:induction false} ClosestIsFirstNearest(rt: Routines, objs: seq<ObjectState>, ray: Ray, eye: Vec3, k: nat)
    requires k <= |objs|
    ensures Closest(rt, objs, ray, eye, k).None? <==> forall m :: 0 <= m < k ==> !Hits(rt, objs, ray, m)
    ensures Closest(rt, objs, ray, eye, k).Some? ==>
      IsFirstNearest(rt, objs, ray, eye, k, Closest(rt, objs, ray, eye, k).value)
  {
    if k > 0 {
      ClosestIsFirstNearest(rt, objs, ray, eye, k - 1);
      if Hits(rt, objs, ray, k - 1) {
        assert Closest(rt, objs, ray, eye, k).Some?;
      } else {
        assert Closest(rt, objs, ray, eye, k) == Closest(rt, objs, ray, eye, k - 1);
      }
    }
  }

  /** The characterisation pins the candidate down: only one object can satisfy it. */
  lemma FirstNearestIsUnique(rt: Routines, objs: seq<ObjectState>, ray: Ray, eye: Vec3, k: nat, n: Nearest, n': Nearest)
    requires k <= |objs|
    requires IsFirstNearest(rt, objs, ray, eye, k, n) && IsFirstNearest(rt, objs, ray, eye, k, n')
    ensures n == n'
  {
    if n.index < n'.index {
      assert false;
    } else if n'.index < n.index {
      assert false;
    }
  }

  // ---------------------------------------------------------------- shadows

  /** inShadow's offset eps. */
  const ShadowEps: real := 0.01

  /** The shadow ray moved eps along its direction, direction kept. */
  function Offset(ray: Ray): Ray
  {
    Ray(Add(ray.p, Scale(ShadowEps, ray.d)), ray.d)
  }

  /** An object casts a shadow on the ray when it is not a Plane and the offset ray hits it. */
  predicate Occludes(rt: Routines, obj: ObjectState, ray: Ray)
  {
    obj.kind != PlaneKind && obj.Intersect(rt, Offset(ray)).Some?
  }

  predicate Shadowed(rt: Routines, objs: seq<ObjectState>, ray: Ray)
  {
    exists m :: 0 <= m < |objs| && Occludes(rt, objs[m], ray)
  }

  /** A scene of planes only (or an empty one) never shadows anything. */
  lemma PlanesNeverShadow(rt: Routines, objs: seq<ObjectState>, ray: Ray)
    requires forall m :: 0 <= m < |objs| ==> objs[m].kind == PlaneKind
    ensures !Shadowed(rt, objs, ray)
  {
  }

  // ---------------------------------------------------------------- shading

  /** The shading point and material handed to phong. */
  datatype Surface = Surface(point: Vec3, normal: Vec3, diffuse: Color, specular: Color, power: real)

  /** The ray from the shading point towards a light: Ray(p, normalize(light - p)). */
  function LightRay(rt: Routines, light: ObjectState, p: Vec3): Ray
  {
    Ray(p, rt.normalize(Sub(light.position, p)))
  }

  predicate LitBy(rt: Routines, sc: Scene, s: Surface, light: ObjectState)
  {
    !Shadowed(rt, sc.objects, LightRay(rt, light, s.point))
  }

  /** One light of phong's loop: a shadowed light leaves the colour alone, a lit one adds
      its Lambert+Phong term with ofColor's saturating addition. */
  function LightStep(rt: Routines, sc: Scene, s: Surface, color: Color, light: ObjectState): Color
  {
    if LitBy(rt, sc, s, light) then
      AddColor(color, rt.lightTerm(LightInput(s.point, s.normal, s.diffuse, s.specular, s.power,
                                              light.position, light.intensity, sc.cam.position)))
    else color
  }

  /** phong's loop over `lights`, in order, starting from `color`. */
  function ShadeFold(rt: Routines, sc: Scene, s: Surface, color: Color, lights: seq<ObjectState>): Color
    decreases |lights|
  {
    if lights == [] then color
    else ShadeFold(rt, sc, s, LightStep(rt, sc, s, color, lights[0]), lights[1..])
  }

  /** phong: the ambient term, then the loop over every scene light. */
  function Phong(rt: Routines, sc: Scene, s: Surface): Color
  {
    ShadeFold(rt, sc, s, Ambient(s.diffuse), sc.lights)
  }

  lemma {:induction false} ShadeFoldAppend(rt: Routines, sc: Scene, s: Surface, color: Color, a: seq<ObjectState>, b: seq<ObjectState>)
    ensures ShadeFold(rt, sc, s, color, a + b) == ShadeFold(rt, sc, s, ShadeFold(rt, sc, s, color, a), b)
    decreases |a|
  {
    if a == [] {
      assert a + b == b;
    } else {
      assert (a + b)[0] == a[0] && (a + b)[1..] == a[1..] + b;
      ShadeFoldAppend(rt, sc, s, LightStep(rt, sc, s, color, a[0]), a[1..], b);
    }
  }

  /** Lights only ever add: the result is at least as bright as the starting colour. */
  lemma {:induction false} ShadeFoldBrightens(rt: Routines, sc: Scene, s: Surface, color: Color, lights: seq<ObjectState>)
    ensures AtLeast(ShadeFold(rt, sc, s, color, lights), color)
    decreases |lights|
  {
    if lights != [] {
      var next := LightStep(rt, sc, s, color, lights[0]);
      if LitBy(rt, sc, s, lights[0]) {
        AddColorBrightens(color, rt.lightTerm(LightInput(s.point, s.normal, s.diffuse, s.specular, s.power,
          lights[0].position, lights[0].intensity, sc.cam.position)));
      }
      ShadeFoldBrightens(rt, sc, s, next, lights[1..]);
      AtLeastTransitive(ShadeFold(rt, sc, s, next, lights[1..]), next, color);
    }
  }

  lemma {:induction false} ShadeFoldAllShadowed(rt: Routines, sc: Scene, s: Surface, color: Color, lights: seq<ObjectState>)
    requires forall m :: 0 <= m < |lights| ==> !LitBy(rt, sc, s, lights[m])
    ensures ShadeFold(rt, sc, s, color, lights) == color
    decreases |lights|
  {
    if lights != [] {
      assert !LitBy(rt, sc, s, lights[0]);
      ShadeFoldAllShadowed(rt, sc, s, color, lights[1..]);
    }
  }

  /** With no lights, or with every light shadowed, phong returns exactly the ambient term. */
  lemma PhongIsAmbientWhenUnlit(rt: Routines, sc: Scene, s: Surface)
    requires forall m :: 0 <= m < |sc.lights| ==> !LitBy(rt, sc, s, sc.lights[m])
    ensures Phong(rt, sc, s) == Ambient(s.diffuse)
  {
    ShadeFoldAllShadowed(rt, sc, s, Ambient(s.diffuse), sc.lights);
  }

  /** phong never returns less than the ambient term. */
  lemma PhongAtLeastAmbient(rt: Routines, sc: Scene, s: Surface)
    ensures AtLeast(Phong(rt, sc, s), Ambient(s.diffuse))
  {
    ShadeFoldBrightens(rt, sc, s, Ambient(s.diffuse), sc.lights);
  }

  /** A shadowed light contributes nothing: dropping it from the light list leaves phong's
      result unchanged. */
  lemma ShadowedLightContributesNothing(rt: Routines, sc: Scene, s: Surface, k: nat)
    requires k < |sc.lights| && !LitBy(rt, sc, s, sc.lights[k])
    ensures Phong(rt, sc.(lights := sc.lights[..k] + sc.lights[k + 1..]), s) == Phong(rt, sc, s)
  {
    var ls := sc.lights;
    var sc' := sc.(lights := ls[..k] + ls[k + 1..]);
    var a0 := Ambient(s.diffuse);
    assert ls == ls[..k] + ([ls[k]] + ls[k + 1..]);
    ShadeFoldAppend(rt, sc, s, a0, ls[..k], [ls[k]] + ls[k + 1..]);
    var mid := ShadeFold(rt, sc, s, a0, ls[..k]);
    assert ([ls[k]] + ls[k + 1..])[0] == ls[k] && ([ls[k]] + ls[k + 1..])[1..] == ls[k + 1..];
    assert ShadeFold(rt, sc, s, mid, [ls[k]] + ls[k + 1..]) == ShadeFold(rt, sc, s, mid, ls[k + 1..]);
    ShadeFoldAppend(rt, sc, s, a0, ls[..k], ls[k + 1..]);
    ShadeFoldOtherLights(rt, sc, sc', s, a0, ls[..k] + ls[k + 1..]);
  }

  /** ShadeFold reads the scene only through its objects and camera, so changing the light
      list of the scene record does not change a fold over given lights. */
  lemma {:induction false} ShadeFoldOtherLights(rt: Routines, sc: Scene, sc': Scene, s: Surface, color: Color, lights: seq<ObjectState>)
    requires sc'.objects == sc.objects && sc'.cam == sc.cam
    ensures ShadeFold(rt, sc', s, color, lights) == ShadeFold(rt, sc, s, color, lights)
    decreases |lights|
  {
    if lights != [] {
      ShadeFoldOtherLights(rt, sc, sc', s, LightStep(rt, sc, s, color, lights[0]), lights[1..]);
    }
  }

  // ---------------------------------------------------------------- one primary ray

  /** The material at the nearest hit: a textured object samples its diffuse and specular
      textures at the texel indices its getIJCoords / getIJCoordsSpec give; any other
      object uses its flat colours. The shininess exponent is 1000. */
  function SurfaceAt(rt: Routines, sc: Scene, n: Nearest): (s: Surface)
    requires n.index < |sc.objects|
    ensures s.point == n.hit.point && s.normal == n.hit.normal && s.power == 1000.0
    ensures !sc.objects[n.index].textured ==>
      s.diffuse == sc.objects[n.index].diffuseColor && s.specular == sc.objects[n.index].specularColor
    ensures var obj := sc.objects[n.index];
      obj.textured ==>
        && s.diffuse == rt.getColor(obj.texture, obj.IJCoords(rt, n.hit.point, sc.numTiles, false).0,
                                    obj.IJCoords(rt, n.hit.point, sc.numTiles, false).1)
        && s.specular == rt.getColor(obj.specularTexture, obj.IJCoords(rt, n.hit.point, sc.numTiles, true).0,
                                     obj.IJCoords(rt, n.hit.point, sc.numTiles, true).1)
  {
    var obj := sc.objects[n.index];
    if obj.textured then
      var tc := obj.IJCoords(rt, n.hit.point, sc.numTiles, false);
      var specIJ := obj.IJCoords(rt, n.hit.point, sc.numTiles, true);
      Surface(n.hit.point, n.hit.normal, rt.getColor(obj.texture, tc.0, tc.1),
              rt.getColor(obj.specularTexture, specIJ.0, specIJ.1), 1000.0)
    else
      Surface(n.hit.point, n.hit.normal, obj.diffuseColor, obj.specularColor, 1000.0)
  }

  /** The colour of the ray getRay(u, v): the background on a miss, otherwise the shaded
      nearest hit, distances measured from the camera position. */
  function SampleColor(rt: Routines, sc: Scene, u: real, v: real): Color
  {
    var ray := sc.cam.GetRay(rt, u, v);
    match Closest(rt, sc.objects, ray, sc.cam.position, |sc.objects|)
    case None => sc.background
    case Some(n) => Phong(rt, sc, SurfaceAt(rt, sc, n))
  }

  /** A ray that misses every object gets the background colour. */
  lemma MissIsBackground(rt: Routines, sc: Scene, u: real, v: real)
    requires forall m :: 0 <= m < |sc.objects| ==> sc.objects[m].Intersect(rt, sc.cam.GetRay(rt, u, v)).None?
    ensures SampleColor(rt, sc, u, v) == sc.background
  {
    ClosestIsFirstNearest(rt, sc.objects, sc.cam.GetRay(rt, u, v), sc.cam.position, |sc.objects|);
  }

  /** A ray that hits something is shaded: it gets phong's colour for the first nearest
      object, which is at least that object's ambient term. */
  lemma HitIsShaded(rt: Routines, sc: Scene, u: real, v: real, m: nat)
    requires m < |sc.objects| && sc.objects[m].Intersect(rt, sc.cam.GetRay(rt, u, v)).Some?
    ensures Closest(rt, sc.objects, sc.cam.GetRay(rt, u, v), sc.cam.position, |sc.objects|).Some?
    ensures var n := Closest(rt, sc.objects, sc.cam.GetRay(rt, u, v), sc.cam.position, |sc.objects|).value;
      && IsFirstNearest(rt, sc.objects, sc.cam.GetRay(rt, u, v), sc.cam.position, |sc.objects|, n)
      && SampleColor(rt, sc, u, v) == Phong(rt, sc, SurfaceAt(rt, sc, n))
      && AtLeast(SampleColor(rt, sc, u, v), Ambient(SurfaceAt(rt, sc, n).diffuse))
  {
    var ray := sc.cam.GetRay(rt, u, v);
    ClosestIsFirstNearest(rt, sc.objects, ray, sc.cam.position, |sc.objects|);
    assert Hits(rt, sc.objects, ray, m);
    var n := Closest(rt, sc.objects, ray, sc.cam.position, |sc.objects|).value;
    PhongAtLeastAmbient(rt, sc, SurfaceAt(rt, sc, n));
  }

  // ---------------------------------------------------------------- images

  /** Pixel-centre sampling coordinate (i + 0.5) / size. */
  function Centre(i: int, size: int): real
    requires size > 0
  {
    ((i as real) + 0.5) / (size as real)
  }

  /** The colour rayTrace computes for column i of scanline j of a W x H image. */
  function FullPixel(rt: Routines, sc: Scene, w: nat, h: nat, i: int, j: int): Color
    requires w > 0 && h > 0
  {
    SampleColor(rt, sc, Centre(i, w), Centre(j, h))
  }

  /** The full render as stored: scanline j goes to row h - j - 1. */
  function RenderGrid(rt: Routines, sc: Scene, w: nat, h: nat): (g: Grid)
    ensures |g| == w && forall x :: 0 <= x < w ==> |g[x]| == h
  {
    seq(w, x requires 0 <= x < w =>
      seq(h, y requires 0 <= y < h => FullPixel(rt, sc, w, h, x, h - 1 - y)))
  }

  /** Sub-pixel offset a of K in rayTraceMSAA: samplingSplit / 2 + a * samplingSplit. */
  function SubOffset(a: int, k: int): real
    requires k > 0
  {
    (1.0 / (k as real)) / 2.0 + (a as real) * (1.0 / (k as real))
  }

  /** The image coordinate of sub-pixel sample a of pixel i: (i + offset a) / size. */
  function SampleCoord(i: int, a: int, k: int, size: int): real
    requires k > 0 && size > 0
  {
    ((i as real) + SubOffset(a, k)) / (size as real)
  }

  /** Sample (a, b) of MSAA pixel (i, j): x offset a, y offset b. */
  function MsaaSample(rt: Routines, sc: Scene, w: nat, h: nat, k: nat, i: int, j: int, a: int, b: int): Color
    requires w > 0 && h > 0 && k > 0
  {
    SampleColor(rt, sc, SampleCoord(i, a, k, w), SampleCoord(j, b, k, h))
  }

  /** Sum of the first kb y-samples at x offset a. */
  function MsaaColumnSum(rt: Routines, sc: Scene, w: nat, h: nat, k: nat, i: int, j: int, a: int, kb: nat): (s: Sum)
    requires w > 0 && h > 0 && k > 0
    ensures Bounded(s, kb)
    decreases kb
  {
    if kb == 0 then Zero
    else Plus(MsaaColumnSum(rt, sc, w, h, k, i, j, a, kb - 1), MsaaSample(rt, sc, w, h, k, i, j, a, kb - 1))
  }

  /** Sum of all K y-samples for the first ka x offsets. */
  function MsaaSum(rt: Routines, sc: Scene, w: nat, h: nat, k: nat, i: int, j: int, ka: nat): (s: Sum)
    requires w > 0 && h > 0 && k > 0
    ensures Bounded(s, k * ka)
    decreases ka
  {
    if ka == 0 then Zero
    else
      var s := AddSums(MsaaSum(rt, sc, w, h, k, i, j, ka - 1), MsaaColumnSum(rt, sc, w, h, k, i, j, ka - 1, k));
      MulStep(k, ka);
      s
  }

  /** MSAA pixel (i, j): the K x K sample colours summed and divided by K * K. */
  function MsaaPixel(rt: Routines, sc: Scene, w: nat, h: nat, k: nat, i: int, j: int): Color
    requires w > 0 && h > 0 && k > 0
  {
    Mean(MsaaSum(rt, sc, w, h, k, i, j, k), k * k)
  }

  /** The MSAA render as stored: pixel (i, j) goes to row h - j - 1. */
  function MsaaGrid(rt: Routines, sc: Scene, w: nat, h: nat, k: nat): (g: Grid)
    requires k > 0
    ensures |g| == w && forall x :: 0 <= x < w ==> |g[x]| == h
  {
    seq(w, x requires 0 <= x < w =>
      seq(h, y requires 0 <= y < h => MsaaPixel(rt, sc, w, h, k, x, h - 1 - y)))
  }

  lemma {:induction false} MsaaColumnUniform(rt: Routines, sc: Scene, w: nat, h: nat, k: nat, i: int, j: int, a: int, kb: nat, c: Color)
    requires w > 0 && h > 0 && k > 0
    requires forall b :: 0 <= b < kb ==> MsaaSample(rt, sc, w, h, k, i, j, a, b) == c
    ensures MsaaColumnSum(rt, sc, w, h, k, i, j, a, kb) == Repeat(c, kb)
    decreases kb
  {
    if kb > 0 {
      MsaaColumnUniform(rt, sc, w, h, k, i, j, a, kb - 1, c);
      assert MsaaSample(rt, sc, w, h, k, i, j, a, kb - 1) == c;
      RepeatSplit(c, kb - 1, 1);
    }
  }

  lemma {:induction false} MsaaSumUniform(rt: Routines, sc: Scene, w: nat, h: nat, k: nat, i: int, j: int, ka: nat, c: Color)
    requires w > 0 && h > 0 && k > 0
    requires forall a, b :: 0 <= a < ka && 0 <= b < k ==> MsaaSample(rt, sc, w, h, k, i, j, a, b) == c
    ensures MsaaSum(rt, sc, w, h, k, i, j, ka) == Repeat(c, k * ka)
    decreases ka
  {
    if ka > 0 {
      MsaaSumUniform(rt, sc, w, h, k, i, j, ka - 1, c);
      MsaaColumnUniform(rt, sc, w, h, k, i, j, ka - 1, k, c);
      MulStep(k, ka);
      RepeatSplit(c, k * (ka - 1), k);
    }
  }

  /** When all K x K samples of a pixel agree (say, all miss and get the background),
      the MSAA pixel is that colour. */
  lemma MsaaUniformSamples(rt: Routines, sc: Scene, w: nat, h: nat, k: nat, i: int, j: int, c: Color)
    requires w > 0 && h > 0 && k > 0
    requires forall a, b :: 0 <= a < k && 0 <= b < k ==> MsaaSample(rt, sc, w, h, k, i, j, a, b) == c
    ensures MsaaPixel(rt, sc, w, h, k, i, j) == c
  {
    MsaaSumUniform(rt, sc, w, h, k, i, j, k, c);
    MeanOfRepeat(c, k * k);
  }
}
