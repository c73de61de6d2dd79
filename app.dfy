/** The ofApp state the renderer works on, and its render and editing operations. The
    window, GUI, cameras and input handling are not part of this model; the GUI sliders
    appear as plain fields. */
module Application {
  import opened Options
  import opened Geometry
  import opened Colors
  import opened Foreign
  import opened Objects
  import opened Filter
  import opened Render
  import opened Editing

  // ------------------------------------------------------------ the render loops

  /** The closest-hit scan of rayTrace and rayTraceMSAA, distances measured from the
      render camera. */
  method ClosestHit(rt: Routines, sc: Scene, theRay: Ray) returns (best: Option<Nearest>)
    ensures best == Closest(rt, sc.objects, theRay, sc.cam.position, |sc.objects|)
  {
    best := None;
    for m := 0 to |sc.objects|
      invariant best == Closest(rt, sc.objects, theRay, sc.cam.position, m)
    {
      var hit := sc.objects[m].Intersect(rt, theRay);
      if hit.Some? {
        var currentDistance := rt.distance(sc.cam.position, hit.value.point);
        if best.None? || currentDistance < best.value.dist {
          best := Some(Nearest(m, hit.value, currentDistance));
        }
      }
    }
  }

  /** inShadow(ray). */
  method InShadow(rt: Routines, sc: Scene, theRay: Ray) returns (b: bool)
    ensures b == Shadowed(rt, sc.objects, theRay)
  {
    var eps := ShadowEps;
    for k := 0 to |sc.objects|
      invariant forall m :: 0 <= m < k ==> !Occludes(rt, sc.objects[m], theRay)
    {
      var obj := sc.objects[k];
      if obj.kind != PlaneKind {
        var hit := obj.Intersect(rt, Ray(Add(theRay.p, Scale(eps, theRay.d)), theRay.d));
        if hit.Some? {
          assert Occludes(rt, sc.objects[k], theRay);
          return true;
        }
      }
    }
    return false;
  }

  /** phong(p, norm, diffuse, specular, power): ambient, then each light that is not in
      shadow adds its term. */
  method Phong(rt: Routines, sc: Scene, s: Surface) returns (color: Color)
    ensures color == Render.Phong(rt, sc, s)
  {
    color := Ambient(s.diffuse);
    assert sc.lights[0..] == sc.lights;
    for k := 0 to |sc.lights|
      invariant ShadeFold(rt, sc, s, color, sc.lights[k..]) == Render.Phong(rt, sc, s)
    {
      var light := sc.lights[k];
      var l := rt.normalize(Sub(light.position, s.point));
      var shadow := InShadow(rt, sc, Ray(s.point, l));
      if !shadow {
        color := AddColor(color, rt.lightTerm(LightInput(s.point, s.normal, s.diffuse, s.specular, s.power,
                                                        light.position, light.intensity, sc.cam.position)));
      }
      assert sc.lights[k..][0] == light && sc.lights[k..][1..] == sc.lights[k + 1..];
    }
    assert sc.lights[|sc.lights|..] == [];
  }

  /** The colour of the primary ray getRay(u, v), as both renderers compute it. */
  method TraceSample(rt: Routines, sc: Scene, u: real, v: real) returns (c: Color)
    ensures c == SampleColor(rt, sc, u, v)
  {
    var theRay := sc.cam.GetRay(rt, u, v);
    var best := ClosestHit(rt, sc, theRay);
    if best.None? {
      c := sc.background;
    } else {
      var n := best.value;
      var closestObj := sc.objects[n.index];
      var surface;
      if closestObj.textured {
        var textureCoords := closestObj.IJCoords(rt, n.hit.point, sc.numTiles, false);
        var specCoords := closestObj.IJCoords(rt, n.hit.point, sc.numTiles, true);
        var textureColor := rt.getColor(closestObj.texture, textureCoords.0, textureCoords.1);
        var specColor := rt.getColor(closestObj.specularTexture, specCoords.0, specCoords.1);
        surface := Surface(n.hit.point, n.hit.normal, textureColor, specColor, 1000.0);
      } else {
        surface := Surface(n.hit.point, n.hit.normal, closestObj.diffuseColor, closestObj.specularColor, 1000.0);
      }
      c := Phong(rt, sc, surface);
    }
  }

  /** The first half of rayTrace: one ray through the centre of every pixel, scanline j
      stored in row H - j - 1. */
  method RenderImage(rt: Routines, sc: Scene, image: array2<Color>)
    modifies image
    ensures GridOf(image) == RenderGrid(rt, sc, image.Length0, image.Length1)
  {
    var imageWidth, imageHeight := image.Length0, image.Length1;
    var j := 0;
    while j < imageHeight
      invariant 0 <= j <= imageHeight
      invariant forall x, y :: 0 <= x < imageWidth && imageHeight - j <= y < imageHeight ==>
        image[x, y] == FullPixel(rt, sc, imageWidth, imageHeight, x, imageHeight - 1 - y)
    {
      var i := 0;
      while i < imageWidth
        invariant 0 <= i <= imageWidth
        invariant forall x, y :: 0 <= x < imageWidth && imageHeight - j <= y < imageHeight ==>
          image[x, y] == FullPixel(rt, sc, imageWidth, imageHeight, x, imageHeight - 1 - y)
        invariant forall x :: 0 <= x < i ==>
          image[x, imageHeight - j - 1] == FullPixel(rt, sc, imageWidth, imageHeight, x, j)
      {
        var u := Centre(i, imageWidth);
        var v := Centre(j, imageHeight);
        var color := TraceSample(rt, sc, u, v);
        image[i, imageHeight - j - 1] := color;
        i := i + 1;
      }
      j := j + 1;
    }
    GridOfMatches(image, RenderGrid(rt, sc, imageWidth, imageHeight));
  }

  /** The inner sample loop of rayTraceMSAA for x offset a: the K samples down the
      column added to `start`. */
  method MsaaColumn(rt: Routines, sc: Scene, w: nat, h: nat, k: nat, i: int, j: int, a: int, start: Sum)
    returns (colorSum: Sum)
    requires w > 0 && h > 0 && k > 0
    ensures colorSum == AddSums(start, MsaaColumnSum(rt, sc, w, h, k, i, j, a, k))
  {
    colorSum := start;
    var b := 0;
    while b < k
      invariant 0 <= b <= k
      invariant colorSum == AddSums(start, MsaaColumnSum(rt, sc, w, h, k, i, j, a, b))
    {
      var u := SampleCoord(i, a, k, w);
      var v := SampleCoord(j, b, k, h);
      var theColor := TraceSample(rt, sc, u, v);
      colorSum := Plus(colorSum, theColor);
      b := b + 1;
    }
  }

  /** One MSAA pixel: K x K rays at the sub-pixel offsets, their colours summed
      channel-wise and divided by K * K. */
  method MsaaSamplePixel(rt: Routines, sc: Scene, w: nat, h: nat, k: nat, i: int, j: int) returns (resultColor: Color)
    requires w > 0 && h > 0 && k > 0
    ensures resultColor == MsaaPixel(rt, sc, w, h, k, i, j)
  {
    var colorSum := Zero;
    var a := 0;
    while a < k
      invariant 0 <= a <= k
      invariant colorSum == MsaaSum(rt, sc, w, h, k, i, j, a)
    {
      colorSum := MsaaColumn(rt, sc, w, h, k, i, j, a, colorSum);
      a := a + 1;
    }
    assert colorSum == MsaaSum(rt, sc, w, h, k, i, j, k);
    resultColor := Mean(colorSum, k * k);
  }

  /** The pixel loops of rayTraceMSAA: a fresh image whose pixel (i, j), stored in row
      H - j - 1, gets its MSAA colour. */
  method MsaaImage(rt: Routines, sc: Scene, w: nat, h: nat, k: nat) returns (img: array2<Color>)
    requires k > 0
    ensures fresh(img) && img.Length0 == w && img.Length1 == h
    ensures GridOf(img) == MsaaGrid(rt, sc, w, h, k)
  {
    img := new Color[w, h];
    ghost var g := MsaaGrid(rt, sc, w, h, k);
    var j := 0;
    while j < h
      invariant 0 <= j <= h
      invariant forall x, y :: 0 <= x < w && h - j <= y < h ==> img[x, y] == g[x][y]
    {
      MsaaRow(rt, sc, img, k, j);
      j := j + 1;
    }
    GridOfMatches(img, g);
  }

  /** One output row of rayTraceMSAA: scanline j, stored in row H - j - 1. */
  method MsaaRow(rt: Routines, sc: Scene, img: array2<Color>, k: nat, j: int)
    requires k > 0 && 0 <= j < img.Length1
    modifies img
    ensures forall x :: 0 <= x < img.Length0 ==>
      img[x, img.Length1 - j - 1] == MsaaPixel(rt, sc, img.Length0, img.Length1, k, x, j)
    ensures forall x, y :: 0 <= x < img.Length0 && 0 <= y < img.Length1 && y != img.Length1 - j - 1 ==>
      img[x, y] == old(img[x, y])
  {
    var w, h := img.Length0, img.Length1;
    var i := 0;
    while i < w
      invariant 0 <= i <= w
      invariant forall x, y :: 0 <= x < w && 0 <= y < h && y != h - j - 1 ==> img[x, y] == old(img[x, y])
      invariant forall x :: 0 <= x < i ==> img[x, h - j - 1] == MsaaPixel(rt, sc, w, h, k, x, j)
    {
      var resultColor := MsaaSamplePixel(rt, sc, w, h, k, i, j);
      img[i, h - j - 1] := resultColor;
      i := i + 1;
    }
  }

  class App {
    var scene: seq<SceneObject>
    var sceneLights: seq<SceneObject>
    var selected: seq<SceneObject>
    var mousePosition: Vec3
    var renderCam: RenderCam
    /** ofGetBackgroundColor(), set to black in setup. */
    var background: Color
    /** The "Anti-Alias Sample Size" slider, range 1..8. */
    var superSampleAmt: int
    /** The "Number of Tiles" slider, range 1..10. */
    var numTiles: int

    const imageWidth: int
    const imageHeight: int
    const msaaImageWidth: int
    const msaaImageHeight: int

    var image: array2<Color>
    var aaImage: array2<Color>
    var aaImageWidth: int
    var aaImageHeight: int
    var reAAImage: array2<Color>
    var reAAImageWidth: int
    var reAAImageHeight: int
    var msaaImage: array2<Color>
    /** Whether an SSAA image exists that reSSAntiAlias may refine. */
    var aaPrev: bool
    /** How many times the SSAA filter has been applied to the current render, plus one. */
    var aaRenderNum: int

    ghost predicate Valid()
      reads this
    {
      && imageWidth >= 1 && imageHeight >= 1
      && image.Length0 == imageWidth && image.Length1 == imageHeight
      && msaaImageWidth >= 1 && msaaImageHeight >= 1
      && 1 <= superSampleAmt <= 8
      && 1 <= numTiles <= 10
      && aaImage != image
      && (aaPrev ==> aaImage.Length0 == aaImageWidth && aaImage.Length1 == aaImageHeight)
      && (forall k :: 0 <= k < |sceneLights| ==> sceneLights[k].kind == LightKind)
    }

    /** The field initialisers of ofApp and the allocation of the full-size image in setup;
        the scene population of setup is not part of this model. */
    constructor ()
      ensures Valid()
      ensures scene == [] && sceneLights == [] && selected == []
      ensures mousePosition == PosY && renderCam == DefaultRenderCam && background == Black
      ensures superSampleAmt == 2 && numTiles == 3
      ensures imageWidth == 2400 && imageHeight == 1600
      ensures msaaImageWidth == 1200 && msaaImageHeight == 800
      ensures image.Length0 == 2400 && image.Length1 == 1600
      ensures fresh(image) && fresh(aaImage) && fresh(reAAImage) && fresh(msaaImage)
      ensures aaImage != image && msaaImage != image && msaaImage != aaImage
      ensures reAAImage != image && reAAImage != aaImage && reAAImage != msaaImage
      ensures aaImage.Length0 == 0 && reAAImage.Length0 == 0 && msaaImage.Length0 == 0
      ensures !aaPrev && aaRenderNum == 2
    {
      scene, sceneLights, selected := [], [], [];
      mousePosition := PosY;
      renderCam := DefaultRenderCam;
      background := Black;
      superSampleAmt := 2;
      numTiles := 3;
      imageWidth, imageHeight := 2400, 1600;
      msaaImageWidth, msaaImageHeight := 1200, 800;
      image := new Color[2400, 1600]((x, y) => Black);
      aaImage := new Color[0, 0];
      aaImageWidth, aaImageHeight := 0, 0;
      reAAImage := new Color[0, 0];
      reAAImageWidth, reAAImageHeight := 0, 0;
      msaaImage := new Color[0, 0];
      aaPrev := false;
      aaRenderNum := 2;
    }

    /** What a render reads. Rendering never changes the scene, so the render loops work
        on this snapshot. */
    function Snapshot(): Scene
      reads this`scene, this`sceneLights, this`renderCam, this`background, this`numTiles, scene, sceneLights
    {
      Scene(States(scene), States(sceneLights), renderCam, background, numTiles)
    }

    /** objSelected(). */
    function ObjSelected(): (b: bool)
      reads this`selected
      ensures b <==> exists o :: o in selected
    {
      if |selected| > 0 then assert selected[0] in selected; true else false
    }

    // ------------------------------------------------------------ scene editing

    /** newSphere(): a sphere of radius 0.5 at the mouse position, appended to the scene. */
    method NewSphere()
      requires Valid()
      modifies this`scene
      ensures Valid()
      ensures |scene| == |old(scene)| + 1 && scene[..|old(scene)|] == old(scene)
      ensures var s := scene[|scene| - 1];
        && fresh(s) && s.kind == SphereKind && s.name == "sphere"
        && s.position == mousePosition && s.radius == 0.5 && s.diffuseColor == LightGray
        && s.isSelectable && !s.textured && s.BaseDefaults()
      ensures sceneLights == old(sceneLights)
    {
      var addSphere := new SceneObject.Sphere(mousePosition, 0.5);
      scene := scene + [addSphere];
    }

    /** newLight(): a light of intensity 0.1 at the mouse position, appended to the light
        list only. */
    method NewLight()
      requires Valid()
      modifies this`sceneLights
      ensures Valid()
      ensures |sceneLights| == |old(sceneLights)| + 1 && sceneLights[..|old(sceneLights)|] == old(sceneLights)
      ensures var l := sceneLights[|sceneLights| - 1];
        && fresh(l) && l.kind == LightKind && l.name == "light"
        && l.position == mousePosition && l.intensity == 0.1 && l.radius == 0.1
        && l.isSelectable && l.diffuseColor == Grey && !l.textured && l.BaseDefaults()
      ensures scene == old(scene)
    {
      var addLight := new SceneObject.Light(mousePosition, 0.1);
      sceneLights := sceneLights + [addLight];
    }

    /** deleteObj(): remove the first entry identical to the selection, from the light list
        when the selection is a light and from the scene otherwise. The erase happens only
        when the search finds the selection (see SecondDeleteErasesEnd for the code as
        written). The selection itself is kept. */
    method DeleteObj()
      requires Valid()
      modifies this`scene, this`sceneLights
      ensures Valid()
      ensures !ObjSelected() ==> scene == old(scene) && sceneLights == old(sceneLights)
      ensures ObjSelected() && selected[0].kind != LightKind ==>
        scene == RemoveFirst(old(scene), selected[0]) && sceneLights == old(sceneLights)
      ensures ObjSelected() && selected[0].kind == LightKind ==>
        sceneLights == RemoveFirst(old(sceneLights), selected[0]) && scene == old(scene)
    {
      if ObjSelected() {
        var sel := selected[0];
        if sel.kind != LightKind {
          var i := 0;
          var found := false;
          while i < |scene| && !found
            decreases |scene| - i, if found then 0 else 1
            invariant 0 <= i <= |scene|
            invariant found ==> i < |scene| && scene[i] == sel
            invariant forall k :: 0 <= k < i ==> scene[k] != sel
          {
            if sel == scene[i] {
              found := true;
            } else {
              i := i + 1;
            }
          }
          assert i == FindFirst(scene, sel);
          if found {
            scene := EraseAt(scene, i);
          }
        }
        if sel.kind == LightKind {
          var j := 0;
          var found := false;
          while j < |sceneLights| && !found
            decreases |sceneLights| - j, if found then 0 else 1
            invariant 0 <= j <= |sceneLights|
            invariant found ==> j < |sceneLights| && sceneLights[j] == sel
            invariant forall k :: 0 <= k < j ==> sceneLights[k] != sel
          {
            if sel == sceneLights[j] {
              found := true;
            } else {
              j := j + 1;
            }
          }
          assert j == FindFirst(sceneLights, sel);
          if found {
            sceneLights := EraseAt(sceneLights, j);
          }
        }
      }
    }

    /** Moving the "Anti-Alias Sample Size" slider. */
    method SetSuperSampleAmt(n: int)
      requires Valid() && 1 <= n <= 8
      modifies this`superSampleAmt
      ensures Valid() && superSampleAmt == n
    {
      superSampleAmt := n;
    }

    /** rayTrace(): the full render; then, only when the sample size divides both image
        dimensions, the SSAA image of (W/N) x (H/N) block means, the filter counter reset
        to 2, the full image overwritten by the blocky preview, and aaPrev set. */
    method RayTrace(rt: Routines)
      requires Valid()
      modifies image, this`aaImage, this`aaImageWidth, this`aaImageHeight, this`aaRenderNum, this`aaPrev
      ensures Valid()
      ensures var N := superSampleAmt;
        !(imageWidth % N == 0 && imageHeight % N == 0) ==>
          && GridOf(image) == RenderGrid(rt, old(Snapshot()), imageWidth, imageHeight)
          && aaImage == old(aaImage) && GridOf(aaImage) == old(GridOf(aaImage))
          && aaImageWidth == old(aaImageWidth) && aaImageHeight == old(aaImageHeight)
          && aaRenderNum == old(aaRenderNum) && aaPrev == old(aaPrev)
      ensures var N := superSampleAmt;
        imageWidth % N == 0 && imageHeight % N == 0 ==>
          && aaImageWidth == imageWidth / N && aaImageHeight == imageHeight / N
          && fresh(aaImage)
          && GridOf(aaImage) == Downsampled(RenderGrid(rt, old(Snapshot()), imageWidth, imageHeight), N, aaImageWidth, aaImageHeight)
          && aaRenderNum == 2 && aaPrev
          && (forall x, y :: 0 <= x < imageWidth && 0 <= y < imageHeight ==>
                image[x, y] == Pixel(GridOf(aaImage), x / N, y / N))
    {
      var sc := Snapshot();
      RenderImage(rt, sc, image);
      var superSampleFl := superSampleAmt;
      var antiAliasAllowed := imageWidth % superSampleFl == 0 && imageHeight % superSampleFl == 0;
      if !antiAliasAllowed {
        return;
      }
      aaImageHeight := imageHeight / superSampleAmt;
      aaImageWidth := imageWidth / superSampleAmt;
      aaImage := ReduceAndPreview(image, superSampleAmt);
      aaRenderNum := 2;
      aaPrev := true;
    }

    /** reSSAntiAlias(): nothing before a first SSAA render; otherwise the current SSAA image
        filtered once more with the current sample size (dimensions truncated, no
        divisibility check), the counter advanced by one, and the result made current. */
    method ReSSAntiAlias()
      requires Valid()
      modifies this`reAAImage, this`reAAImageWidth, this`reAAImageHeight,
               this`aaImage, this`aaImageWidth, this`aaImageHeight, this`aaRenderNum
      ensures Valid()
      ensures !old(aaPrev) ==> unchanged(this)
      ensures old(aaPrev) ==>
        && reAAImageWidth == old(aaImageWidth) / superSampleAmt
        && reAAImageHeight == old(aaImageHeight) / superSampleAmt
        && fresh(reAAImage) && aaImage == reAAImage
        && aaImageWidth == reAAImageWidth && aaImageHeight == reAAImageHeight
        && GridOf(aaImage) == Downsampled(old(GridOf(aaImage)), superSampleAmt, aaImageWidth, aaImageHeight)
        && aaRenderNum == old(aaRenderNum) + 1
    {
      if !aaPrev {
        return;
      }
      var sampleNum := superSampleAmt;
      reAAImageHeight := aaImageHeight / sampleNum;
      reAAImageWidth := aaImageWidth / sampleNum;
      QuotientFits(aaImageWidth, sampleNum);
      QuotientFits(aaImageHeight, sampleNum);
      reAAImage := Downsample(aaImage, sampleNum, reAAImageWidth, reAAImageHeight);
      aaRenderNum := aaRenderNum + 1;
      aaImage := reAAImage;
      aaImageWidth := reAAImageWidth;
      aaImageHeight := reAAImageHeight;
    }

    // ------------------------------------------------------------ MSAA

    /** rayTraceMSAA(): a fresh image whose pixel (i, j), stored in row H - j - 1, is the
        mean of its K x K samples. */
    method RayTraceMsaa(rt: Routines)
      requires Valid()
      modifies this`msaaImage
      ensures Valid()
      ensures fresh(msaaImage) && msaaImage.Length0 == msaaImageWidth && msaaImage.Length1 == msaaImageHeight
      ensures GridOf(msaaImage) == MsaaGrid(rt, old(Snapshot()), msaaImageWidth, msaaImageHeight, superSampleAmt)
    {
      var sc := Snapshot();
      msaaImage := MsaaImage(rt, sc, msaaImageWidth, msaaImageHeight, superSampleAmt);
    }
  }
}
