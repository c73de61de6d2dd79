# Ray tracer core, modelled in Dafny

This project models the bookkeeping core of an openFrameworks ray tracer (`ofApp`).
It covers these parts:

- **Object model.** Spheres, lights and bounded planes, with their constructors, defaults and texture setters. It includes the bounded-plane acceptance test and the plane's texture-coordinate mapping.
- **Camera.** The render camera and its view plane.
- **Full render.** One ray through each pixel centre, a linear closest-hit scan, a background colour on a miss, and a choice between flat and textured material. Each scanline j is stored in row H - j - 1.
- **Shading structure.** Phong starts from the ambient term, and each light that is not in shadow adds its term. The shadow test ignores planes and offsets the shadow ray by 0.01 along its direction.
- **SSAA stage.** It runs only when the sample size N divides both image dimensions. It produces a (W/N) x (H/N) image of truncated N x N block means, plus the blocky "expanded" preview. It also keeps the `aaPrev` and `aaRenderNum` bookkeeping.
- **Refinement.** `reSSAntiAlias` applies the same filter again to the reduced image.
- **MSAA render.** Each pixel is the truncated mean of K x K sub-pixel samples.
- **Scene editing.** `newSphere` and `newLight` append to a list. `deleteObj` does a linear search, then `vector::erase`.

Real-valued geometry and per-light shading are not modelled. They sit behind a `Foreign.Routines` value: glm's ray-plane and ray-sphere tests, distance and normalize, the Lambert+Phong term of one light, the texel index, and texture look-ups. A render is parameterised by that value, so every property holds for every choice of those routines.

Images are `array2<Color>` indexed `[x, y]`, as `ofImage::setColor(x, y)` is. `GridOf` turns an image into a value (`seq<seq<Color>>`), so the render and filter methods can be stated against pure functions:

| method | specification function |
|---|---|
| `RenderImage` | `RenderGrid` |
| `Downsample` | `Downsampled` / `BlockMean` |
| `MsaaImage` | `MsaaGrid` / `MsaaPixel` |
| `Phong` | `Render.Phong` |
| `ClosestHit` | `Closest` |
| `InShadow` | `Shadowed` |
| `TraceSample` | `SampleColor` |

The properties the source promises are then proved about those functions. `App` holds the application state as fields that its methods update in place. Scene objects are a `SceneObject` class: a constant `kind` field records the subclass, and pointer identity is reference identity, which `deleteObj` relies on. A render first takes a value snapshot of the scene (`App.Snapshot`). Nothing in a render changes the scene, so the loops work on that snapshot.

Integer facts the model relies on:

- **Channels.** A channel is 0..255, as ofColor over `unsigned char` stores it.
- **Sums.** The float `colorSum` accumulators of the filters hold integer sums of at most 255 * 64, which a float represents exactly. The model therefore sums exactly, and converting the quotient to `ofColor` truncates, giving `floor(sum / (N * N))`.
- **Ambient term.** `0.3f * c` truncated equals `(3 * c) / 10` for every channel value: the excess of `0.3f` over 3/10 is below 2^-23 and cannot carry a product below 77 over an integer. Adding a light's term uses ofColor's saturating `+=`.

Where the specification and the code differ, the model follows the code:

- The shader's additions and its ambient product are clamped and truncated by ofColor.
- `Plane::intersect` ranges y by `width` for both the Z-facing and the X-facing planes (`ofApp.cpp:23-24`), while `getIJCoords` maps a wall's y to v by `height` (`ofApp.h:179-181`). `WallAcceptsAboveItsHeight` and `WallHitAboveHeightMapsOutsideTiles` show the consequence: a wide wall accepts hits above its top edge and textures them with v beyond the tiled range.

The colour constants, grey (127), lightGray (211) and green (0, 255, 0), are openFrameworks' colour table as the model assumes it. That library is not part of this model.

## Model

| member | source | states |
|---|---|---|
| Geometry.Ray.EvalPoint | ofApp.h:16-18 | the point at parameter t differs from the origin by exactly t times the direction |
| Geometry.EvalPointAtZero | ofApp.h:16-18 | evalPoint(0) is the ray's origin |
| Geometry.EvalPointAdditive | ofApp.h:16-18 | walking s and then t along the ray is walking s + t |
| Colors.ScaleThreeTenths | ofApp.cpp:534 | the scaled channel is 0.3 of the input, truncated: 10a <= 3c < 10a + 10 |
| Colors.Ambient | ofApp.cpp:534 | the ambient colour is the truncated 0.3 of every diffuse channel, never brighter than the diffuse colour |
| Colors.AddColor | ofApp.cpp:553 | ofColor's `+=` on a colour gives, channel by channel, the exact sum where it fits and 255 where it overflows |
| Colors.AddChannel | ofApp.cpp:553 | ofColor addition is the exact sum when it fits and 255 otherwise, and never darker than either operand |
| Colors.AddColorBrightens | ofApp.cpp:553 | adding a light's term leaves every channel at least as bright as both operands |
| Colors.Mean | ofApp.cpp:421-422 | the averaged colour is the floor of sum / k in every channel (k * c <= s < k * c + k) |
| Colors.MeanOfRepeat | ofApp.cpp:421-422 | averaging k copies of one colour gives that colour back |
| Objects.PlaneHit | ofApp.cpp:11-55 | a hit is reported exactly when the infinite plane is hit and the point lies strictly inside the open ranges chosen by the normal (±Y: x,z; ±Z: x,y; ±X: y,z, with y ranged by width). A reported hit carries that point and the plane's normal. A non axis-aligned normal never hits |
| Objects.PlaneRejectsEdge | ofApp.cpp:21-33 | a point exactly on the edge of the x range is rejected: the ranges are open |
| Objects.WallAcceptsAboveItsHeight | ofApp.cpp:23-24 | a 20 x 10 wall facing +Z accepts a point 7 above its centre, beyond its half-height of 5, because y is ranged by width |
| Objects.PlaneUV | ofApp.h:163-183 | u is x mapped over the width; v is z mapped over the height for a ground plane facing +Y and y mapped over the height for a wall facing +Z, and is left unassigned for every other normal; both are scaled by numTiles |
| Objects.WallHitAboveHeightMapsOutsideTiles | ofApp.h:163-183 | the hit 7 above the centre of a 20 x 10 wall facing +Z is accepted, yet its v is 1.2 * numTiles, outside (0, numTiles) |
| Objects.OfMapTiledInside | ofApp.h:170-183 | a coordinate strictly inside an extent maps strictly inside (0, numTiles) after ofMap and tiling |
| Objects.GroundHitMapsInsideTiles | ofApp.h:163-183 | every hit a ground plane accepts has both tiled texture coordinates strictly inside (0, numTiles) |
| Objects.SceneObject.Sphere | ofApp.h:107 | a sphere stores position, radius and diffuse colour (lightGray by default), is named "sphere", is selectable and starts untextured with the base defaults |
| Objects.SceneObject.DefaultSphere | ofApp.h:108-110 | Sphere() is a grey sphere of radius 1 at the origin, selectable and untextured |
| Objects.SceneObject.Light | ofApp.h:69-73 | a light stores position and intensity, is named "light", and has radius 0.1 and the base defaults |
| Objects.SceneObject.DefaultLight | ofApp.h:75-77 | Light() has intensity 0 and radius 0.1 at the origin |
| Objects.SceneObject.Plane | ofApp.h:128-143 | a plane stores position, normal, diffuse colour (green by default), width and height (20 by default), and is never selectable |
| Objects.SceneObject.DefaultPlane | ofApp.h:144-148 | Plane() faces +Y, is 20 x 20 and is not selectable |
| Objects.SceneObject.SetTexture | ofApp.h:45-48 | setTexture stores the texture and sets textured; every other field is kept |
| Objects.SceneObject.SetSpec | ofApp.h:49-51 | setSpec stores the specular texture and leaves textured and every other field as they were |
| Objects.SceneObject.SetRadius | ofApp.h:117-119 | setRadius stores the radius and changes nothing else |
| Objects.SceneObject.SetIntensity | ofApp.h:95-97 | setIntensity stores the intensity and changes nothing else |
| Objects.ObjectState.Intersect | ofApp.h:111-113 | a plane whose normal is not axis-aligned is never hit, and a plane's reported hit carries its normal and lies strictly inside its extents; spheres and lights use glm's ray-sphere test at their own radius |
| Objects.ObjectState.IJCoords | ofApp.h:34-39 | an object that is not a plane answers (0, 0) for both texture look-ups |
| Objects.GroundPlaneTexelArguments | ofApp.h:163-222 | for every hit a ground plane reports, the texel look-up of either texture receives tiled coordinates strictly inside (0, numTiles) |
| Objects.ViewPlane.Width | ofApp.h:253-255 | the width is the extent from the left edge min.x to the right edge max.x |
| Objects.ViewPlane.Height | ofApp.h:256-258 | the height is the extent from the bottom edge min.y to the top edge max.y |
| Objects.ViewPlane.TopLeft | ofApp.h:262 | the top-left corner has the left edge's x and the top edge's y |
| Objects.ViewPlane.TopRight | ofApp.h:263 | the top-right corner has the right edge's x and the top edge's y |
| Objects.ViewPlane.BottomLeft | ofApp.h:264 | the bottom-left corner has the left edge's x and the bottom edge's y |
| Objects.ViewPlane.BottomRight | ofApp.h:265 | the bottom-right corner has the right edge's x and the bottom edge's y |
| Objects.ViewPlane.GetAspect | ofApp.h:244 | the aspect times the height is the width |
| Objects.ViewPlane.SetSize | ofApp.h:243 | setSize replaces both bounds and keeps the position and normal |
| Objects.ViewPlane.ToWorld | ofApp.cpp:60-64 | toWorld lands on the plane's depth |
| Objects.MakeViewPlane | ofApp.h:234 | ViewPlane(p0, p1) has p0 as bottom-left and p1 as top-right corner, and width and height p1 - p0; position and normal are the base Plane's origin and +Y |
| Objects.DefaultViewPlaneGeometry | ofApp.h:236-241 | the default view plane is 6 x 4 with aspect 1.5, at (0, 0, 5), facing +Z |
| Objects.ToWorldCorners | ofApp.cpp:60-64 | the four corners of the unit square map to the four corners of the view plane |
| Objects.ToWorldInverse | ofApp.cpp:60-64 | toWorld is affine: measuring from min in units of width and height recovers (u, v) |
| Objects.RenderCam.GetRay | ofApp.cpp:69-72 | a primary ray starts at the camera position and points along the normalised offset to toWorld(u, v); the direction is glm::normalize's result, which the `normalize` routine supplies, so no further geometric property of the ray is stated |
| Filter.AverageBlock | ofApp.cpp:405-423 | the SSAA pixel (i, j) is the truncated mean of the n x n source block at (i * n, j * n), read through fmod(u, n) |
| Filter.BlockTotal | ofApp.cpp:411-419 | the two sample loops sum exactly the n x n block, rows outer |
| Filter.RowTotal | ofApp.cpp:412-418 | the inner sample loop adds exactly the n pixels of one block row |
| Filter.ModOfSmall | ofApp.cpp:413 | fmod(u, n) is u for every sample offset u < n |
| Filter.Downsample | ofApp.cpp:401-425 | the reduced image is fresh, w x h, and every pixel is its block mean (Downsampled) |
| Filter.BlockMeanWithin | ofApp.cpp:403-424 | when every pixel of a block lies between two colours channel by channel, so does the block's reduced pixel |
| Filter.UniformBlockKeepsColor | ofApp.cpp:403-424 | a block of one colour reduces to that colour |
| Filter.Expand | ofApp.cpp:433-449 | every full-size pixel (x, y) shows the reduced pixel (int)(x * w / W), (int)(y * h / H) |
| Filter.ScaledIndexInRange | ofApp.cpp:441-444 | the preview never reads outside the reduced image |
| Filter.ExpandIndexIsBlock | ofApp.cpp:441-442 | when W = n * w, the preview's index for x is the block index x / n |
| Filter.ReduceAndPreview | ofApp.cpp:397-449 | the SSAA stage gives a fresh (W/N) x (H/N) image of the block means of the full render, and overwrites every full-size pixel with the mean of the block it lies in |
| Filter.ExactQuotient | ofApp.cpp:383 | when the gate passes, the N-blocks tile each dimension exactly |
| Filter.QuotientFits | ofApp.cpp:469-470 | the truncated refined dimensions leave room for whole blocks only |
| Render.Closest | ofApp.cpp:335-349 | the scan's candidate, if any, is one of the objects scanned |
| Render.ClosestIsFirstNearest | ofApp.cpp:335-349 | the scan finds no candidate exactly when no object is hit. Otherwise the candidate is hit, at the distance measured, no object is nearer, and every earlier object is strictly farther: the first of equally near objects wins |
| Render.FirstNearestIsUnique | ofApp.cpp:342 | the first-nearest characterisation admits exactly one candidate |
| Render.PlanesNeverShadow | ofApp.cpp:559-572 | a scene that is empty or holds only planes never shadows |
| Render.ShadeFoldAppend | ofApp.cpp:539-555 | phong's light loop over a + b is the loop over b started from the result over a |
| Render.ShadeFoldBrightens | ofApp.cpp:539-555 | the light loop never darkens the colour it starts from |
| Render.ShadeFoldAllShadowed | ofApp.cpp:539-555 | when every light is shadowed, the light loop returns its starting colour |
| Render.PhongIsAmbientWhenUnlit | ofApp.cpp:532-557 | with no lights, or every light shadowed, phong is exactly the ambient term |
| Render.PhongAtLeastAmbient | ofApp.cpp:532-557 | phong is never darker than the ambient term |
| Render.ShadowedLightContributesNothing | ofApp.cpp:549-554 | removing a shadowed light from the light list leaves phong's result unchanged |
| Render.SurfaceAt | ofApp.cpp:355-371 | shading uses the hit point and normal with shininess 1000; an untextured object uses its flat diffuse and specular colours, a textured one the colours its diffuse and specular textures hold at the texel indices getIJCoords and getIJCoordsSpec give for the hit point |
| Render.MissIsBackground | ofApp.cpp:350-351 | a primary ray that misses every object gets the background colour |
| Render.HitIsShaded | ofApp.cpp:353-372 | once any object is hit, the nearest object is found, it is the first-nearest one, and the pixel is its phong colour, at least its ambient term |
| Render.RenderGrid | ofApp.cpp:320-375 | the full render is W x H |
| Render.MsaaSum | ofApp.cpp:240-303 | the K x K sample sum is at most K * K colours' worth in each channel, so the mean is a valid colour |
| Render.MsaaGrid | ofApp.cpp:224-309 | the MSAA render is W x H |
| Render.MsaaUniformSamples | ofApp.cpp:304-307 | when all K x K samples agree (all miss, say, and get the background) the MSAA pixel is that colour |
| Editing.FindFirst | ofApp.cpp:170-176 | the search stops at the first index holding the selection, and runs to the end exactly when the selection is absent |
| Editing.EraseAt | ofApp.cpp:177 | erase(begin() + i) drops exactly position i and keeps everything else in order |
| Editing.RemoveFirst | ofApp.cpp:163-195 | the intended deletion erases the first identical element when there is one and otherwise leaves the list alone |
| Editing.RemoveFirstMultiset | ofApp.cpp:170-177 | exactly one occurrence of the selection goes, and nothing else |
| Editing.RemoveFirstKeepsOrder | ofApp.cpp:177 | the remaining elements keep their relative order |
| Editing.RemoveFirstOnlyFirst | ofApp.cpp:170-177 | only the first identical element goes; later copies stay |
| Editing.EraseAsWrittenAgreesWhenFound | ofApp.cpp:177 | when the search succeeds, the erase as written removes exactly what the intended deletion does |
| Editing.SecondDeleteErasesEnd | ofApp.cpp:163-195 | after one deletion of an object listed once, a second delete with the same selection erases at end(), which is undefined |
| Editing.SecondDeleteOfOnlyObject | ofApp.cpp:170-177 | deleting the only object of a one-element scene twice reaches that erase at end() |
| Editing.SecondDeleteIsNoOp | ofApp.cpp:163-195 | with the corrected deletion, a second delete leaves the list unchanged |
| Application.ClosestHit | ofApp.cpp:335-349 | the closest-hit loop computes exactly the scan `Closest`, distances from the camera |
| Application.InShadow | ofApp.cpp:559-572 | inShadow is true exactly when some non-plane object is hit by the ray moved 0.01 along its direction |
| Application.Phong | ofApp.cpp:532-557 | the shading loop computes exactly ambient plus the terms of the unshadowed lights, in light order |
| Application.TraceSample | ofApp.cpp:327-373 | the colour of one primary ray: background on a miss, otherwise the nearest hit shaded with the flat or textured material |
| Application.RenderImage | ofApp.cpp:320-375 | every pixel of the full render is written, scanline j to row H - j - 1: the image equals RenderGrid |
| Application.MsaaColumn | ofApp.cpp:241-302 | the inner sample loop adds exactly the K samples at one x offset |
| Application.MsaaSamplePixel | ofApp.cpp:230-306 | an MSAA pixel is the truncated mean of its K x K samples |
| Application.MsaaRow | ofApp.cpp:228-308 | one pass of the column loop writes row H - j - 1 with scanline j's MSAA colours and leaves every other row alone |
| Application.MsaaImage | ofApp.cpp:225-309 | the MSAA image is fresh, W x H, and equals MsaaGrid |
| Application.App.constructor | ofApp.cpp:76-103 | the state after setup: black background, sample size 2, 3 tiles, and a freshly allocated 2400 x 1600 image; with the field initialisers (ofApp.h:373-383) empty lists, mouse at (0, 1, 0) and MSAA size 1200 x 800; the SSAA, refined-SSAA and MSAA images are fresh, empty and distinct from the full image and from each other, aaPrev is false and aaRenderNum is 2 |
| Application.App.ObjSelected | ofApp.h:307 | objSelected() holds exactly when the selection is non-empty |
| Application.App.NewSphere | ofApp.cpp:148-151 | a fresh lightGray sphere of radius 0.5 at the mouse position, selectable, untextured and with the base defaults, is appended to the scene; the light list is unchanged and the state stays valid |
| Application.App.NewLight | ofApp.cpp:155-159 | a fresh light of intensity 0.1 and radius 0.1 at the mouse position, selectable, grey, untextured and with the base defaults, is appended to the light list only; the scene is unchanged |
| Application.App.DeleteObj | ofApp.cpp:163-195 | with nothing selected nothing changes; a selected light is removed from the light list, and anything else from the scene, as its first identical entry; the other list is unchanged |
| Application.App.SetSuperSampleAmt | ofApp.cpp:83 | the sample-size slider takes values 1..8 and keeps the state valid |
| Application.App.RayTrace | ofApp.cpp:317-456 | if N does not divide both dimensions, the full image is the full render and the SSAA state is unchanged. Otherwise the SSAA image is fresh, (W/N) x (H/N), and holds the block means of the full render; aaRenderNum is 2, aaPrev is set, and every full-size pixel shows its block's mean |
| Application.App.ReSSAntiAlias | ofApp.cpp:460-505 | nothing changes before a first SSAA render. Otherwise the dimensions become the truncated quotients, the SSAA image becomes the fresh block-mean image of the previous one, and aaRenderNum goes up by exactly one |
| Application.App.RayTraceMsaa | ofApp.cpp:224-313 | the MSAA image is fresh, 1200 x 800 by default, and holds, in row H - j - 1, the K x K sample mean for scanline j |

## Left out

- lambert: the source never calls it (ofApp.cpp:507-530).
- Numeric shading: normalize, the half-vector and pow(..., 1000) are left to the `lightTerm` routine. So is the float scaling of one light's Lambert+Phong term. Only the ambient-plus-unshadowed-lights structure is modelled.
- glm::intersectRayPlane, glm::intersectRaySphere, glm::distance and glm::normalize are routines outside the core. They are parameters.
- The texel index `int(fmod(u * size - 0.5, size))` and `ofImage::getColor` on loaded textures are parameters (`texelIndex`, `getColor`). They depend on images loaded from files.
- Floating point: coordinates, distances and offsets are reals. `shortestDistance` starts at infinity in the source, and the model accepts the first hit unconditionally. A hit at an infinite or NaN distance is not representable: in the source it would leave `closestObj` null while `hitSurface` is set.
- Application.MsaaSamplePixel: does not model the float loop `for (xOffset = split / 2; xOffset < 1.0; xOffset += split)`. It takes exactly K x K samples at offsets (a + 1/2) / K. With float rounding the source may take a different number of samples.
- Filter.Expand: models `(int)ofMap(i, 0, W, 0, w)` as the exact truncated quotient `i * w / W`, without float rounding. The two inner loops over a and b only repeat the same write, so they are not modelled.
- Application.App.ReSSAntiAlias: models `AAImage = reAAImage`, an ofImage copy, as sharing one array. Neither is written again until a later render allocates a fresh one.
- Application.App.RayTrace and Application.App.RayTraceMsaa: state their results in terms of the scene as it was when the render began. Their modifies clauses leave the scene objects untouched, so that snapshot is also the scene after the render.
- Objects.ViewPlane.GetAspect: requires a non-zero height. The float result for a zero height (an infinity or NaN) is not modelled.
- setup's scene population (the textured ground and wall, three spheres, three lights) and the loading of textures are not modelled.
- Window, GUI and input: draw, update, the sliders' widgets, the cameras, mouse picking and dragging, mouseToDragPlane and keyPressed dispatch are openFrameworks plumbing. Only the two sliders' values appear, as fields.
- File and console output: image.save and the cout messages are not modelled.
- The `plane` drawing primitive and its rotation in the Plane constructors are drawing-only. Plane::sdf and getNormal are never used by the core, and RenderCam's aim and drawFrustum are not used either.

## Findings

| source | as written | input that shows it | evidently intended | confidence | as-written member | corrected member |
|---|---|---|---|---|---|---|
| ofApp.cpp:163-195 | deleteObj erases at `begin() + i` even when the search ran off the end. It does not clear `selected`, so a second 'd' on the same selection calls `erase(end())`, which std::vector does not allow | a scene holding only sphere s, selected == [s], 'd' pressed twice | erase only when the selection is found, so that a repeated delete does nothing | not executed | Editing.SecondDeleteErasesEnd | Application.App.DeleteObj |
