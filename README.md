# A verified model of a small Rust ray tracer

This project models the core of a CPU path tracer written in Rust.

**Scene and geometry**
- Spheres are intersected with rays by solving a quadratic.
- A hit record keeps the point, the normal facing against the ray, the time and the material.
- A hittable list returns the nearest hit by shrinking its search interval as it scans.
- A bounding volume hierarchy node gates its two children behind an axis-aligned bounding box (AABB).

**Materials**
- A diffuse material, a fuzzy metal and a dielectric scatter rays.
- The dielectric uses Schlick's reflectance approximation.
- A material atlas maps material names to materials.
- A scene description is turned into that atlas plus a list of spheres.

**Cameras**
- The early binaries use a fixed camera.
- The library uses a positionable camera built with a builder, with an optional thin lens for depth of field.

**Rendering**
- `ray_color` bounces a ray through the world up to a depth and falls back to a sky gradient.
- `compute_render` paints one jittered sample per pixel onto a canvas, flipping rows because the canvas counts them downwards.
- The renderer adds up the passes, averages them and gamma-corrects the result.
- When a consumer is registered, it also sends a snapshot after each pass.

Both generations of the code are modelled:
- the older `src/` tree: linear hittable list, fixed camera, and a renderer that folds the first `samples` passes;
- the newer `raytracing_lib/` tree: BVH world, positionable camera, and a pass aggregator with snapshots.

Where both generations have the same operation, one definition models both. A lemma shows that they agree, for example for the two pixel quantisers and the two cameras.

## How the model is built

**Numbers and vectors**
- `f32` arithmetic is modelled as exact `real` arithmetic.
- `Vec3` is a value type with component-wise operations.
- `f32::INFINITY` as the upper end of a hit interval is the `Limit.Infinity` case.

**Library functions**
- `sqrt`, `tan`, `sin`, `cos`, `normalize`, `cross`, `reflect` and `refract` come from nalgebra-glm and the standard library.
- They are fields of a `Maths` record and are left uninterpreted.
- The laws some proofs need are stated as predicates: `SqrtLaw`, `TrigLaw` and `NormalizeYLaw`. These lemmas take them as preconditions.

**Randomness**
- Every random draw is a parameter: the jitter of each pixel, the lens sample, the scatter draws of each bounce, and the uniform draw of a dielectric.
- Rejection sampling (`random_in_unit_sphere`) receives its candidates as a finite sequence.

**State**
- A `Canvas` is a class over a flat `array<real>` in row-major order, three channels per pixel, with a layer count.
- Its methods are proved against functions on an abstract `CanvasValue`.
- `HittableList` and `MaterialAtlas` are classes whose `seq` or `map` field their methods update.
- `AABB::hit`, the list scan, `compute_render`, the pass aggregator and the scene conversion keep their loops.

**Trait objects**
- The `Hittable` objects form a closed sum: a sphere, a list, or a BVH node.
- The materials form another closed sum: diffuse, metal, or dielectric.

## Model

| member | source | states |
|---|---|---|
| Canvases.Zero | raytracing_lib/src/canvas.rs:18-26 | a new canvas is `height x width x 3` zeros with no layers |
| Canvases.Canvas.NewInitialized | raytracing_lib/src/canvas.rs:18-26 | `new_initialized` allocates a fresh buffer whose value is the zero canvas of that size |
| Canvases.SetPixelValue | raytracing_lib/src/canvas.rs:28-36 | writing a colour sets exactly the three channels of pixel `(i, j)` and no other, and a canvas with no layers becomes one with one layer |
| Canvases.SetPixelOnlyThatPixel | raytracing_lib/src/canvas.rs:28-36 | after `set_pixel` the pixel read back at `(i, j)` is the colour, and every other pixel is unchanged |
| Canvases.Canvas.SetPixel | raytracing_lib/src/canvas.rs:28-36 | the in-place write makes the canvas value `SetPixelValue` of the old value |
| Canvases.GammaValue | raytracing_lib/src/canvas.rs:38-40 | gamma correction replaces every channel by its square root and keeps shape and layers |
| Canvases.GammaNotIdempotent | raytracing_lib/src/canvas.rs:38-40 | applying gamma correction twice differs from applying it once, because channel 4 becomes 2 and then the square root of 2 |
| Canvases.Canvas.GammaCorrection | raytracing_lib/src/canvas.rs:38-40 | the in-place loop leaves the canvas equal to `GammaValue` of its old value |
| Canvases.NormalizeValue | raytracing_lib/src/canvas.rs:42-47 | with more than one layer every channel times the layer count gives back the old channel and one layer is left; with one layer or none the canvas is unchanged |
| Canvases.NormalizeIdempotent | raytracing_lib/src/canvas.rs:42-47 | normalising twice is the same as normalising once |
| Canvases.Canvas.Normalize | raytracing_lib/src/canvas.rs:42-47 | the in-place loop leaves the canvas equal to `NormalizeValue` of its old value |
| Canvases.AddValue | raytracing_lib/src/canvas.rs:90-101 | adding two canvases of the same shape adds channel by channel and adds the layer counts |
| Canvases.AddCommutative | raytracing_lib/src/canvas.rs:90-101 | canvas addition is commutative |
| Canvases.AddAssociative | raytracing_lib/src/canvas.rs:90-101 | canvas addition is associative |
| Canvases.Canvas.AddAssign | raytracing_lib/src/canvas.rs:103-108 | `+=` leaves the canvas equal to `AddValue` of its old value and the other canvas |
| Canvases.Canvas.Clone | raytracing_lib/src/renderer.rs:92 | a clone is a fresh canvas with the same value |
| Canvases.Accumulate | src/lib/renderer.rs:77-78 | folding passes with `+` adds every channel of every pass and every layer count |
| Canvases.AccumulateAppend | src/lib/renderer.rs:78 | folding a concatenation is folding the first part and then the second |
| Canvases.AccumulateOrderIrrelevant | raytracing_lib/src/renderer.rs:89-90 | passes that are a permutation of each other fold to the same canvas, so the order in which threads deliver them does not matter |
| Canvases.Clamp | raytracing_lib/src/canvas.rs:55-72 | the clamp lies in `[0, 0.999]` and leaves values in that range unchanged |
| Canvases.Quantize | raytracing_lib/src/canvas.rs:55-72 | a channel becomes the byte `floor(256 * clamp(x))`: 0 for non-positive values, 255 from 0.999 up |
| Canvases.QuantizeLegacy | src/lib/canvas.rs:60 | the older quantiser gives the same byte as the newer one |
| Canvases.Pixels | raytracing_lib/src/canvas.rs:55-72 | `get_pixels` yields one RGB pixel per three channels |
| Canvases.LegacyPixelsAgree | src/lib/canvas.rs:53-70 | the older `get_pixels` yields the same pixels as the newer one |
| Canvases.PixelsAt | raytracing_lib/src/canvas.rs:55-72 | pixel `p` of `get_pixels` is the quantised channels `3p`, `3p+1` and `3p+2` |
| Canvases.PixelsRowMajor | raytracing_lib/src/canvas.rs:55-72 | the pixel of `get_pixels` at `j * width + i` is the quantised colour at column `i`, row `j` |
| Canvases.AllPixelsRowMajor | raytracing_lib/src/canvas.rs:55-72 | `get_pixels` has `width * height` entries in row-major order, each the quantised colour of its pixel |
| Canvases.Canvas.GetDim | raytracing_lib/src/canvas.rs:51-53 | the dimensions are reported as `(width, height)` |
| Canvases.Canvas.GetPixels | raytracing_lib/src/canvas.rs:55-72 | the canvas' pixels are `width * height` quantised colours in row-major order |
| Canvases.RgbaMatchesPixels | raytracing_lib/src/canvas.rs:77-87 | the RGBA buffer has four bytes per pixel: the quantised red, green and blue, then 255 |
| Canvases.Canvas.WriteRgbaToBuffer | raytracing_lib/src/canvas.rs:77-87 | the buffer receives exactly the RGBA bytes of the canvas, `4 * height * width` of them |
| Utils.RandRange | src/lib/utils.rs:4-6 | a draw in `[0, 1)` lands in `[min, max)`, and a draw of 0 gives `min` |
| Utils.FirstInside | src/lib/utils.rs:8-15 | the accepted sample lies strictly inside the unit ball and is the first such candidate: every candidate before it lies outside; there is none exactly when every candidate lies outside |
| Utils.RandomInUnitSphere | src/lib/utils.rs:8-15 | the rejection loop returns the first candidate inside the unit ball, or none when the candidates run out |
| Utils.RandomUnitVector | src/lib/utils.rs:17-22 | a height drawn in `[0, 1)` gives a `z` in `[-1, 1)`; `UnitVectorOnSphere` shows the vector has length 1 |
| Utils.UnitVectorOnSphere | src/lib/utils.rs:17-22 | `random_unit_vector` has squared length 1 |
| Utils.Schlick | src/lib/utils.rs:24-28 | at normal incidence the reflectance is `r0`, and for index 1 it is `(1 - cos)^5` |
| Utils.SchlickBounds | src/lib/utils.rs:24-28 | for a non-negative index and a cosine in `[0, 1]`, `0 <= r0 <= schlick <= 1` |
| Materials.NewDiffuse | src/material/diffuse.rs:12-15 | a diffuse material keeps its albedo |
| Materials.DefaultDiffuse | src/material/diffuse.rs:32-38 | the default diffuse albedo is (0.5, 0.5, 0.5) |
| Materials.NewMetal | src/material/metal.rs:13-16 | a metal keeps its albedo and clamps its fuzziness into `[0, 1]` |
| Materials.DefaultMetal | src/material/metal.rs:36-43 | the default metal has albedo (0.5, 0.5, 0.5) and no fuzz |
| Materials.NewDielectric | src/lib/material/dielectric.rs:13-18 | a dielectric keeps its index and has a white albedo |
| Materials.DefaultDielectric | src/lib/material/dielectric.rs:51-58 | the default dielectric has index 0.5 and a white albedo |
| Materials.Albedo | src/material/diffuse.rs:27-29 | a diffuse or metal material reports its stored albedo (likewise src/material/metal.rs lines 31-33), a dielectric white |
| Records.NewHitRecord | src/lib/collision.rs:16-35 | the record is front-facing exactly when the ray runs against the outward normal; the stored normal always faces the ray, and the point is the ray at `t` |
| Scattering.DiffuseScatter | src/material/diffuse.rs:20-25 | a diffuse hit always scatters from the hit point, towards the normal plus the unit sample |
| Scattering.MetalScatter | src/material/metal.rs:21-29 | a metal scatters exactly when the fuzzed reflection leaves the surface, and then from the hit point along it |
| Scattering.MetalWithoutFuzzIsMirror | src/material/metal.rs:21-29 | without fuzz the scattered direction is the mirror reflection |
| Scattering.IndexRatio | src/lib/material/dielectric.rs:25-29 | entering the material the ratio is `1 / index`, leaving it the ratio is the index |
| Scattering.CosTheta | src/lib/material/dielectric.rs:31-32 | the cosine is `min(-d . n, 1)` |
| Scattering.DielectricScatter | src/lib/material/dielectric.rs:23-44 | a dielectric always scatters from the hit point, reflecting on total internal reflection or when the draw falls below Schlick's reflectance, and refracting otherwise |
| Scattering.TotalInternalReflectionIgnoresDraw | src/lib/material/dielectric.rs:33-37 | under total internal reflection the result does not depend on the random draw |
| Scattering.IndexOneGrazingAlwaysReflects | src/lib/material/dielectric.rs:33-42 | for index 1 at grazing incidence Schlick's reflectance is 1, so every draw reflects |
| Scattering.Scatter | raytracing_lib/src/renderer.rs:174 | dispatch to the material: any scattered ray starts at the hit point, and diffuse and dielectric materials always scatter |
| Boxes.AxisAdmits | src/lib/aabb.rs:15-25 | one iteration of the slab loop passes exactly when the slab on that axis admits the ray |
| Boxes.Hit | src/lib/aabb.rs:13-28 | the loop with early return passes exactly when all three slabs admit the ray, each checked against the interval given on entry |
| Boxes.EmptyIntervalMisses | src/lib/aabb.rs:23-25 | a box is never hit over an empty interval |
| Boxes.InsidePointHits | src/lib/aabb.rs:13-28 | no false negatives: a ray strictly inside the box at some time in the interval passes the test |
| Boxes.SeparateSlabsStillHit | src/lib/aabb.rs:21-22 | the slabs are not intersected with each other, so a ray that never enters the box can still pass |
| Boxes.SurroundingBox | src/lib/aabb.rs:30-45 | the surrounding box contains both boxes and is well formed when either of them is |
| Boxes.SurroundingBoxSmallest | src/lib/aabb.rs:30-45 | every box containing both boxes contains the surrounding box |
| Boxes.SurroundingBoxCommutative | src/lib/aabb.rs:30-45 | the surrounding box does not depend on argument order |
| Boxes.SurroundingBoxIdempotent | src/lib/aabb.rs:30-45 | the surrounding box of a box with itself is that box |
| Spheres.NewSphere | src/objects/sphere.rs:14-23 | a sphere keeps centre and radius and takes the default diffuse material when none is given |
| Spheres.PositiveDiscriminant | src/lib/object/sphere.rs:35-40 | a positive discriminant implies a nonzero direction and radius, so both divisions are defined |
| Spheres.SphereHit | src/lib/object/sphere.rs:28-63 | no hit without a positive discriminant; otherwise the near root if it lies in the interval, else the far root if it does, else none; the record carries the sphere's material |
| Spheres.RootsOrdered | src/lib/object/sphere.rs:38-50 | the near root is not after the far root |
| Spheres.RootOnSurface | src/lib/object/sphere.rs:28-63 | a root of the quadratic puts the ray point at distance `radius` from the centre |
| Spheres.RootsSolve | src/lib/object/sphere.rs:38-50 | both roots solve the quadratic |
| Spheres.SphereHitIsRoot | src/lib/object/sphere.rs:28-63 | a reported hit is at one of the two roots, at the point the ray reaches then |
| Spheres.SphereHitOnSurface | src/lib/object/sphere.rs:28-63 | every reported hit point lies on the sphere |
| Spheres.SphereHitBounded | src/lib/object/sphere.rs:28-63 | searching up to a lower bound `b` gives the unbounded answer cut at `b` |
| Spheres.SphereBox | src/lib/object/sphere.rs:65-70 | the box `centre +- radius` is well formed and contains the whole ball |
| Hittables.Hit | src/lib/bvh.rs:14-39 | `hit` of a sphere, a list or a BVH node: every record returned lies strictly inside the interval; `ListHitIsNearest` and `LeftPreferred` say which record it is |
| Hittables.ScanList | src/lib/collision.rs:65-78 | the list's scan returns its initial record or a record strictly inside the interval narrowed so far |
| Hittables.BoundingBox | src/lib/collision.rs:80-101 | a BVH node panics (`todo!()`), and a list's box, when there is one, is the box of its last item |
| Hittables.ScanBoxes | src/lib/collision.rs:88-98 | the loop over the items yields, when it yields a box, the last item's box |
| Hittables.HitInInterval | src/lib/collision.rs:65-78 | every returned record lies strictly inside the search interval |
| Hittables.ScanInInterval | src/lib/collision.rs:70-75 | the scan returns the initial record or a hit inside the shrinking interval |
| Hittables.ScanKeeps | src/lib/collision.rs:70-75 | a scan with an initial record is the scan from nothing, falling back to that record |
| Hittables.HitBounded | src/lib/collision.rs:65-78 | for lists and spheres, searching below `b` gives the full answer cut at `b` |
| Hittables.ScanBounded | src/lib/collision.rs:70-75 | a scan started with bound `b` is the full scan cut at `b` |
| Hittables.ScanIsNearest | src/lib/collision.rs:65-78 | the shrinking-interval scan equals picking the nearest of the items' own hits over the whole interval |
| Hittables.ListHitIsNearest | src/lib/collision.rs:65-78 | a list without BVH nodes returns the nearest hit among its items |
| Hittables.ScanBoxesLast | src/lib/collision.rs:85-100 | since `is_first_box` is never cleared, a scan over boxed items returns the box of the last item |
| Hittables.ListBoxIsLast | src/lib/collision.rs:80-101 | a non-empty list whose items all have boxes reports the box of its last item, not their union |
| Hittables.ScanBoxesNone | src/lib/collision.rs:95-97 | an item without a box makes the scan report none |
| Hittables.ListBoxNone | src/lib/collision.rs:95-97 | a list with an item without a box has no box |
| Hittables.ListBoxDropsEarlierItems | src/lib/collision.rs:88-94 | for two unit spheres ten apart, the list's box is the second sphere's box and does not contain the first sphere |
| Hittables.HitMaterialFrom | src/lib/collision.rs:65-78 | a hit's material is one of the world's materials |
| Hittables.ScanMaterialFrom | src/lib/collision.rs:70-75 | the scan returns only materials of its items or of the initial record |
| HittableLists.HittableList.constructor | src/lib/collision.rs:48-52 | a new list is empty |
| HittableLists.HittableList.AddHittable | src/lib/collision.rs:54-56 | adding an object appends it to the list |
| HittableLists.HittableList.Clear | src/lib/collision.rs:59-61 | clearing empties the list |
| HittableLists.HittableList.Hit | src/lib/collision.rs:65-78 | the loop returns the list's hit, inside the interval, and nothing for an empty list |
| HittableLists.HittableList.BoundingBox | src/lib/collision.rs:80-101 | the loop returns the list's box, and with all items boxed that is the last item's box |
| Bvh.GateMisses | src/lib/bvh.rs:15 | a ray that misses the node's box never hits the node |
| Bvh.PairScan | src/lib/collision.rs:65-78 | a two-item list searches the second item only up to the first item's hit |
| Bvh.LeftPreferred | src/lib/bvh.rs:14-39 | within the box, a left hit is returned as is and otherwise the right child's hit over the whole interval; any hit lies in the interval |
| Bvh.AgreesWithListIff | src/lib/bvh.rs:24-32 | within the box, the node agrees with the list of its two children exactly when the right child has no hit closer than the left child's |
| Bvh.ReturnsFartherHit | src/lib/bvh.rs:29-30 | when the right child has a closer hit, the node still returns the left hit, which is farther than the list's answer |
| MaterialAtlases.MaterialAtlas.Default | src/material_atlas.rs:9-18 | the default atlas holds only the default diffuse material, under "Default" |
| MaterialAtlases.MaterialAtlas.GetMaterial | src/material_atlas.rs:30-32 | a lookup finds a material exactly when the name is registered, and then the registered one |
| MaterialAtlases.Lookup | src/material_atlas.rs:30-32 | a lookup finds a material exactly when the name is registered, and then it is the registered one |
| MaterialAtlases.LookupAfterInsert | src/material_atlas.rs:21-28 | after inserting, the name looks up the new material |
| MaterialAtlases.InsertKeepsOthers | src/material_atlas.rs:21-28 | inserting under one name leaves every other name's lookup unchanged |
| MaterialAtlases.MaterialAtlas.InsertMaterial | src/material_atlas.rs:21-28 | insertion overwrites the name, returns the material previously stored under it, and keeps every other entry |
| MaterialAtlases.DefaultKnowsOnlyDefault | src/material_atlas.rs:9-18 | the default atlas resolves "Default" and no other name |
| FixedCameras.NewFixed | src/camera.rs:11-23 | the viewport is `width` along x and `height` along y, centred `focal` below the origin on z |
| FixedCameras.NewFromFov | src/lib/camera.rs:11-21 | the field-of-view camera sits at the origin with the viewport one unit ahead, `2 tan(fov pi / 360)` high and `aspect` times as wide |
| FixedCameras.FovIsFixed | src/lib/camera.rs:11-21 | the field-of-view camera is the fixed camera with focal length 1 and viewport `2 aspect tan(fov pi / 360)` by `2 tan(fov pi / 360)` |
| FixedCameras.GetRay | src/camera.rs:24-29 | the ray starts at the origin and reaches the viewport point `(u, v)` at time 1 |
| FixedCameras.CentreRayLooksDownZ | src/camera.rs:11-29 | the ray through the viewport centre points `focal` down the negative z axis |
| FixedCameras.FovCentreRay | src/lib/camera.rs:11-27 | the field-of-view camera's centre ray points one unit down the negative z axis |
| Cameras.DefaultBuilder | raytracing_lib/src/camera.rs:161-172 | the default builder's origin, up vector, look-at point, field of view and aspect ratio, with no focus data |
| Cameras.DefaultLooksAtItself | raytracing_lib/src/camera.rs:161-172 | the default look-at point equals the default origin, so the default frame direction is the zero vector |
| Cameras.SetOrigin | raytracing_lib/src/camera.rs:21-24 | the setter changes the origin and nothing else |
| Cameras.SetVUp | raytracing_lib/src/camera.rs:26-29 | the setter changes the up vector and nothing else |
| Cameras.SetLookAt | raytracing_lib/src/camera.rs:31-34 | the setter changes the look-at point and nothing else |
| Cameras.SetVerticalFov | raytracing_lib/src/camera.rs:36-39 | the setter changes the field of view and nothing else |
| Cameras.SetAspectRatio | raytracing_lib/src/camera.rs:41-44 | the setter changes the aspect ratio and nothing else |
| Cameras.SetFocus | raytracing_lib/src/camera.rs:46-49 | the setter sets the focus data and nothing else |
| Cameras.SettersCommute | raytracing_lib/src/camera.rs:21-49 | setters of different fields commute |
| Cameras.NewCamera | raytracing_lib/src/camera.rs:79-130 | the camera sits at the origin and has a lens exactly when focus data is given, of radius half the aperture |
| Cameras.ViewportSpan | raytracing_lib/src/camera.rs:87-119 | without focus data the viewport spans `aspect * 2 tan(fov pi / 360)` along `u` and `2 tan(fov pi / 360)` along `v`, the frame vectors from `look_at` and `v_up` |
| Cameras.ViewportCentre | raytracing_lib/src/camera.rs:110-119 | the viewport centre lies the focus distance (1 without focus data) from the origin along `-w` |
| Cameras.NoFocusIsUnitFocus | raytracing_lib/src/camera.rs:110-119 | without focus data the camera equals the one with focus distance 1, minus the lens |
| Cameras.Build | raytracing_lib/src/camera.rs:51-60 | the built camera sits at the builder's origin and has a lens exactly when focus data was set |
| Cameras.BuiltPosition | raytracing_lib/src/camera.rs:155-159 | the built camera's position is the origin last set, whatever setters follow |
| Cameras.GetRay | raytracing_lib/src/camera.rs:132-152 | every ray reaches the viewport point `(s, t)` at time 1; without a lens it starts at the origin, with one at the origin moved by the scaled disk sample along `u` and `v` |
| Cameras.SameFocalPoint | raytracing_lib/src/camera.rs:132-152 | the lens sample does not move the point reached at time 1, so the focal plane stays sharp |
| Cameras.Lensless | src/lib/camera.rs:3-8 | a fixed camera seen as a positionable camera has no lens |
| Cameras.LenslessSameRay | src/lib/camera.rs:22-27 | that lensless camera casts exactly the fixed camera's rays |
| Renderers.NewRenderer | raytracing_lib/src/renderer.rs:32-43 | a new renderer is 960 by 540 with 100 samples and 2 bounces, with no pass channel and no progress bar |
| Renderers.SetHeight | raytracing_lib/src/renderer.rs:45-48 | the setter changes the height and nothing else |
| Renderers.SetWidth | raytracing_lib/src/renderer.rs:50-53 | the setter changes the width and nothing else |
| Renderers.SetSamples | raytracing_lib/src/renderer.rs:55-58 | the setter changes the sample count and nothing else |
| Renderers.SetBounces | raytracing_lib/src/renderer.rs:60-63 | the setter changes the bounce depth and nothing else |
| Renderers.GetRenderPassRx | raytracing_lib/src/renderer.rs:65-69 | asking for the pass receiver registers a pass channel and changes nothing else |
| Renderers.WithCliProgressTracker | raytracing_lib/src/renderer.rs:71-74 | the progress bar is switched on and nothing else changes |
| Renderers.SettersCommute | raytracing_lib/src/renderer.rs:45-69 | setters of different fields commute |
| Renderers.NewLegacyRenderer | src/lib/renderer.rs:21-30 | the older renderer keeps the given world and fixed camera and has the same defaults as the newer one |
| Renderers.SetLegacyHeight | src/lib/renderer.rs:32-35 | the older setter changes the height and nothing else |
| Renderers.SetLegacyWidth | src/lib/renderer.rs:37-40 | the older setter changes the width and nothing else |
| Renderers.SetLegacySamples | src/lib/renderer.rs:42-45 | the older setter changes the sample count and nothing else |
| Renderers.SetLegacyBounces | src/lib/renderer.rs:47-50 | the older setter changes the bounce depth and nothing else |
| Renderers.LegacySettersAgree | src/lib/renderer.rs:21-50 | the older constructor and setters build the renderer the newer ones build, with the lensless camera |
| Renderers.LegacySettersCommute | src/lib/renderer.rs:32-50 | the older setters of different fields commute |
| Renderers.Sky | raytracing_lib/src/renderer.rs:182-186 | the sky colour lies on the line through white and (0.5, 0.7, 1): blue is 1 and green is `0.4 + 0.6` red |
| Renderers.RayColor | raytracing_lib/src/renderer.rs:168-187 | with no bounce left a ray is black, and a ray that hits nothing shows the sky; `ColorInUnitCube` and `DrawsBeyondDepthIgnored` state the rest |
| Renderers.SkyEnds | raytracing_lib/src/renderer.rs:182-186 | straight up the sky is (0.5, 0.7, 1), straight down it is white |
| Renderers.SkyInUnitCube | raytracing_lib/src/renderer.rs:182-186 | the sky colour lies in the unit cube |
| Renderers.EmptyWorldShowsSky | raytracing_lib/src/renderer.rs:168-187 | with depth left, a ray in an empty world shows the sky |
| Renderers.MulUnitCube | raytracing_lib/src/renderer.rs:178 | attenuating one unit-cube colour by another stays in the unit cube |
| Renderers.ColorInUnitCube | raytracing_lib/src/renderer.rs:168-187 | with albedos in the unit cube, every ray colour lies in the unit cube |
| Renderers.DrawsBeyondDepthIgnored | raytracing_lib/src/renderer.rs:168-187 | a ray's colour depends only on the draws of the first `depth` bounces |
| Renderers.PixelColor | raytracing_lib/src/renderer.rs:153-161 | the jittered pixel colour is black without bounces and lies in the unit cube when every albedo does |
| Renderers.RowRendered | raytracing_lib/src/renderer.rs:152-163 | painting part of a row keeps the canvas' shape |
| Renderers.RowsRendered | raytracing_lib/src/renderer.rs:151-164 | painting rows keeps the canvas' shape |
| Renderers.RenderValue | raytracing_lib/src/renderer.rs:143-166 | a pass is a canvas of the requested size |
| Renderers.RowPixels | raytracing_lib/src/renderer.rs:152-163 | painting the first `cols` pixels of camera row `j` sets exactly those pixels on canvas row `height - 1 - j` and leaves the rest |
| Renderers.RowsPixels | raytracing_lib/src/renderer.rs:151-164 | after `rows` camera rows, those rows hold their colours flipped vertically and every other pixel is black |
| Renderers.RenderedPixels | raytracing_lib/src/renderer.rs:143-166 | a pass holds one sample per pixel: camera pixel `(i, j)` lands on canvas row `height - 1 - j` |
| Renderers.SameColoursSameCanvas | raytracing_lib/src/renderer.rs:151-164 | two colourings that agree on every pixel paint the same canvas |
| Renderers.SameColoursSameRow | raytracing_lib/src/renderer.rs:152-163 | two colourings that agree along a row paint that row the same |
| Renderers.Paint | raytracing_lib/src/renderer.rs:150-165 | the two nested loops paint exactly the flipped canvas of the colouring |
| Renderers.ComputeRender | raytracing_lib/src/renderer.rs:143-166 | `compute_render` returns a fresh canvas equal to the pass of its job |
| Renderers.LegacyPixelColor | src/lib/renderer.rs:100-108 | the older jittered pixel colour is black without bounces and lies in the unit cube when every albedo does |
| Renderers.LegacyPixelsAgree | src/lib/renderer.rs:90-113 | with the lensless camera the older renderer's pixel colours are the newer one's |
| Renderers.ComputeRenderLegacy | src/lib/renderer.rs:90-113 | the older `compute_render` produces the same pass as the newer one with the lensless camera |
| Renderers.Snapshots | raytracing_lib/src/renderer.rs:89-103 | snapshot `q` shows the first `q` passes, averaged and gamma-corrected, and is numbered `q` |
| Renderers.Aggregate | raytracing_lib/src/renderer.rs:87-109 | the aggregator returns the sum of all passes, averaged and gamma-corrected, and sends one snapshot per pass only when a consumer is registered |
| Renderers.ArrivalOrderIrrelevant | raytracing_lib/src/renderer.rs:87-109 | the final image does not depend on the order in which passes arrive |
| Renderers.SingleLayers | raytracing_lib/src/renderer.rs:143-166 | passes of one layer each add up to as many layers as there are passes |
| Renderers.AverageOfPasses | raytracing_lib/src/renderer.rs:105 | after normalising, every channel times the number of passes is the sum of that channel over the passes |
| Renderers.Passes | raytracing_lib/src/renderer.rs:113-130 | one pass of the requested size per draw sequence |
| Renderers.Render | raytracing_lib/src/renderer.rs:76-141 | once every pass has arrived, `render` yields the averaged and gamma-corrected sum of one pass per sample, plus the snapshots (in submission order) when a pass receiver was requested |
| Renderers.MergePasses | src/lib/renderer.rs:77-81 | the older renderer folds the first `samples` passes, averages them and gamma-corrects the result |
| Renderers.RenderLegacy | src/lib/renderer.rs:52-88 | the older `render` gives the image of the newer renderer with the lensless camera |
| Scenes.ConversionsAgree | src/scene.rs:19-29 | colour and point conversions agree on equal triples |
| Scenes.Convert | src/scene.rs:59-72 | each scene material becomes the material of the same kind with the same index or albedo; a metal's fuzz is kept inside `[0, 1]`, becomes 0 below and 1 above |
| Scenes.AtlasOf | src/scene.rs:57-72 | the atlas knows the scene's material names plus "Default", each scene name mapped to its converted material |
| Scenes.Resolve | src/scene.rs:73-85 | all objects resolve exactly when every material name is registered, giving one sphere per object in order; otherwise the error names the first unknown material |
| Scenes.ErrorIgnoresLaterObjects | src/scene.rs:73-85 | objects after the first unknown material are never looked at |
| Scenes.TryFrom | src/scene.rs:57-88 | the conversion loops return the atlas and spheres of `Load`, or its error |
| Scenes.LoadedMaterialsValid | src/scene.rs:57-88 | a scene without dielectric index 0 or -1 loads only materials that can scatter |
| Scenes.SphereItems | src/scene.rs:73-85 | the spheres become the items of a hittable list, in order |

## Left out

- Threads, the thread pool, channels and the progress bar are not modelled. The passes reach the aggregator as a sequence of canvases; `ArrivalOrderIrrelevant` shows their order does not matter to the final image. The snapshots do depend on it: snapshot `q` shows the first `q` passes to finish, which `Aggregate` covers for any arrival sequence, while `Render` fixes arrival order to submission order.
- The GUI, the binaries, the benches and the image writers (PPM export) are outside the modelled core.
- `World::build`, `world.rs` and `BVHNode::new` are not part of this model. The scene conversion returns the list of spheres handed to the world builder.
- `f32` rounding, NaN and overflow are not modelled; arithmetic is exact over the reals.
- An AABB slab on an axis where the direction component is zero is modelled as the IEEE limit of `1 / 0`: the slab admits the ray exactly when the origin lies between its planes.
- Random number generation is not modelled; every draw is a parameter. `random_in_unit_sphere` samples from a finite sequence of candidates instead of looping forever.
- Serde parsing of the scene file is not modelled; the scene arrives as a value.
- Scenes.TryFrom: registers the scene materials in an arbitrary order chosen by `:|`, standing for `HashMap` iteration order; the result does not depend on it.
- Canvases.Canvas.AddAssign: requires the two canvases to have the same shape. ndarray's `+=` also accepts a right-hand canvas it can broadcast to the left one's shape (a canvas one row high is added to every row, for example) and panics only when broadcasting is impossible; broadcasting is not modelled, since the renderer only adds canvases of one size.
- Canvases.AddValue: requires the same shape as `AddAssign`, for the same reason; ndarray's `+` broadcasts compatible shapes and panics on the others.
- Canvases.SetPixelValue: requires `i < width` and `j < height`. The source panics in `slice_mut` on a pixel outside the canvas, after it has already set `layers` to 1; that panic is not modelled.
- Canvases.Canvas.SetPixel: requires `i < width` and `j < height`, like `SetPixelValue`; the out-of-bounds panic is not modelled.
- Renderers.RayColor, Renderers.ComputeRender and Renderers.Render: require every dielectric index in the world to differ from 0 and -1 (`ValidMaterial`), and the canvas to be at least 2 by 2 (`ValidJob`). The source divides by `1 + index`, by the index, and by `width - 1` and `height - 1`.
- Renderers.Paint: is proved over an abstract colouring. The colouring of a real pass is `Colours`, made of the pixel jitter, the camera ray and `ray_color`.
- Hittables.BoundingBox: the union branch of the list's `bounding_box` (src/lib/collision.rs:93) is dead code, because `is_first_box` is bound by an immutable `let` to `true` (line 85). The model leaves that branch out; `ScanBoxesLast` and `ListBoxIsLast` prove the result is the last item's box.
- The BVH node's `bounding_box` is `todo!()`; the model answers `Panic`.
- Renderers.Render: models the intended termination of the newer `render`. As written, `render` keeps its own `data_tx` alive (raytracing_lib/src/renderer.rs:82) and moves only clones into the jobs, so the aggregator's `recv` loop (line 89) never sees the channel close and the join at line 138 blocks for ever. The model returns the image the aggregator would produce once every pass has arrived.
- Renderers.MergePasses: models `take(samples)` over the passes that actually arrived; with fewer passes the model folds all of them. The source would block instead: its own sender is never dropped (src/lib/renderer.rs:56), so `take(samples)` (line 78) waits for passes that never come.
- Renderers.Snapshots and Renderers.Finish: the snapshot contents are stated through `Finish`, the normalise-then-gamma of the canvas, rather than pixel by pixel.
- Scenes.FromColor3 and Scenes.FromPoint: have no contract of their own; `ConversionsAgree` states what they do.
- Bvh.ReturnsFartherHit: states the preference for the left child in general; no numeric scene is given.
