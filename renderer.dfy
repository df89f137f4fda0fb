/**
 * The renderer: its settings, the colour carried back along a ray, one
 * render pass over the whole canvas, and the aggregation of passes into the
 * final image (with the intermediate snapshots sent to a consumer). The
 * thread pool and the channels are replaced by sequential loops; random
 * draws are parameters.
 */
module Renderers {
  import opened Vectors
  import opened Wrappers
  import opened Materials
  import opened Records
  import opened Scattering
  import opened Hittables
  import opened Canvases
  import Cameras
  import FixedCameras

  // ---------------------------------------------------------------------
  // Settings
  // ---------------------------------------------------------------------

  /** `Renderer`: the world, the camera, the canvas size, and the number of passes and bounces. */
  datatype Renderer = Renderer(
    world: Hittable,
    camera: Cameras.Camera,
    width: nat,
    height: nat,
    samples: nat,
    bounces: nat,
    passChannel: bool,
    cliProgressTracker: bool)

  /** `Renderer::new`: 960 by 540 pixels, 100 passes of 2 bounces, no consumer, no progress bar. */
  function NewRenderer(world: Hittable, camera: Cameras.Camera): (rd: Renderer)
    ensures rd.world == world && rd.camera == camera
    ensures rd.width == 960 && rd.height == 540 && rd.samples == 100 && rd.bounces == 2
    ensures !rd.passChannel && !rd.cliProgressTracker
  {
    Renderer(world, camera, 960, 540, 100, 2, false, false)
  }

  /** `Renderer::height`: only the height changes. */
  function SetHeight(rd: Renderer, height: nat): (r: Renderer)
    ensures r.height == height && r.(height := rd.height) == rd
  {
    rd.(height := height)
  }

  /** `Renderer::width`: only the width changes. */
  function SetWidth(rd: Renderer, width: nat): (r: Renderer)
    ensures r.width == width && r.(width := rd.width) == rd
  {
    rd.(width := width)
  }

  /** `Renderer::samples`: only the number of passes changes. */
  function SetSamples(rd: Renderer, samples: nat): (r: Renderer)
    ensures r.samples == samples && r.(samples := rd.samples) == rd
  {
    rd.(samples := samples)
  }

  /** `Renderer::bounces`: only the bounce depth changes. */
  function SetBounces(rd: Renderer, bounces: nat): (r: Renderer)
    ensures r.bounces == bounces && r.(bounces := rd.bounces) == rd
  {
    rd.(bounces := bounces)
  }

  /**
   * `get_render_pass_rx`: registers a consumer of render passes. The
   * receiving end of the channel is not modelled; only the flag is.
   */
  function GetRenderPassRx(rd: Renderer): (r: Renderer)
    ensures r.passChannel && r.(passChannel := rd.passChannel) == rd
  {
    rd.(passChannel := true)
  }

  /** `with_cli_progress_tracker`: switches the progress bar on. */
  function WithCliProgressTracker(rd: Renderer): (r: Renderer)
    ensures r.cliProgressTracker && r.(cliProgressTracker := rd.cliProgressTracker) == rd
  {
    rd.(cliProgressTracker := true)
  }

  /** The builder calls may come in any order: size setters on different fields commute. */
  lemma SettersCommute(rd: Renderer, width: nat, height: nat, samples: nat, bounces: nat)
    ensures SetWidth(SetHeight(rd, height), width) == SetHeight(SetWidth(rd, width), height)
    ensures SetSamples(SetBounces(rd, bounces), samples) == SetBounces(SetSamples(rd, samples), bounces)
    ensures GetRenderPassRx(SetSamples(rd, samples)) == SetSamples(GetRenderPassRx(rd), samples)
  {
  }

  /** The older `Renderer`, with a fixed camera and neither consumer nor optional progress bar. */
  datatype LegacyRenderer = LegacyRenderer(
    world: Hittable,
    camera: FixedCameras.FixedCamera,
    width: nat,
    height: nat,
    samples: nat,
    bounces: nat)

  /** The older `Renderer::new`, with the same defaults as the current one. */
  function NewLegacyRenderer(world: Hittable, camera: FixedCameras.FixedCamera): (rd: LegacyRenderer)
    ensures rd.world == world && rd.camera == camera
    ensures var current := NewRenderer(world, Cameras.Lensless(camera));
            rd.width == current.width && rd.height == current.height
            && rd.samples == current.samples && rd.bounces == current.bounces
  {
    LegacyRenderer(world, camera, 960, 540, 100, 2)
  }

  /** The older `Renderer::height`: only the height changes. */
  function SetLegacyHeight(rd: LegacyRenderer, height: nat): (r: LegacyRenderer)
    ensures r.height == height && r.(height := rd.height) == rd
  {
    rd.(height := height)
  }

  /** The older `Renderer::width`: only the width changes. */
  function SetLegacyWidth(rd: LegacyRenderer, width: nat): (r: LegacyRenderer)
    ensures r.width == width && r.(width := rd.width) == rd
  {
    rd.(width := width)
  }

  /** The older `Renderer::samples`: only the number of passes changes. */
  function SetLegacySamples(rd: LegacyRenderer, samples: nat): (r: LegacyRenderer)
    ensures r.samples == samples && r.(samples := rd.samples) == rd
  {
    rd.(samples := samples)
  }

  /** The older `Renderer::bounces`: only the bounce depth changes. */
  function SetLegacyBounces(rd: LegacyRenderer, bounces: nat): (r: LegacyRenderer)
    ensures r.bounces == bounces && r.(bounces := rd.bounces) == rd
  {
    rd.(bounces := bounces)
  }

  /**
   * The current renderer an older one stands for: the same world, size and
   * passes, the fixed camera seen as a lensless camera, no consumer and no
   * progress bar.
   */
  function AsCurrent(rd: LegacyRenderer): Renderer {
    Renderer(rd.world, Cameras.Lensless(rd.camera), rd.width, rd.height, rd.samples, rd.bounces, false, false)
  }

  /** The older constructor and setters are the current ones seen through `AsCurrent`. */
  lemma LegacySettersAgree(rd: LegacyRenderer, world: Hittable, camera: FixedCameras.FixedCamera, n: nat)
    ensures AsCurrent(NewLegacyRenderer(world, camera)) == NewRenderer(world, Cameras.Lensless(camera))
    ensures AsCurrent(SetLegacyHeight(rd, n)) == SetHeight(AsCurrent(rd), n)
    ensures AsCurrent(SetLegacyWidth(rd, n)) == SetWidth(AsCurrent(rd), n)
    ensures AsCurrent(SetLegacySamples(rd, n)) == SetSamples(AsCurrent(rd), n)
    ensures AsCurrent(SetLegacyBounces(rd, n)) == SetBounces(AsCurrent(rd), n)
  {
  }

  /** The older setters of different fields commute, like the current ones. */
  lemma LegacySettersCommute(rd: LegacyRenderer, width: nat, height: nat, samples: nat, bounces: nat)
    ensures SetLegacyWidth(SetLegacyHeight(rd, height), width) == SetLegacyHeight(SetLegacyWidth(rd, width), height)
    ensures SetLegacySamples(SetLegacyBounces(rd, bounces), samples) == SetLegacyBounces(SetLegacySamples(rd, samples), bounces)
  {
  }

  // ---------------------------------------------------------------------
  // Colour of a ray
  // ---------------------------------------------------------------------

  /** The background: white blended towards sky blue as the ray points upwards. */
  function Sky(r: Ray, m: Maths): (c: Vec3)
    ensures c.z == 1.0 && c.y == 0.4 + 0.6 * c.x
  {
    var t := 0.5 * (m.normalize(r.direction).y + 1.0);
    Lerp(White, Vec3(0.5, 0.7, 1.0), t)
  }

  /** Straight up is sky blue, straight down is white. */
  lemma SkyEnds(r: Ray, m: Maths)
    ensures m.normalize(r.direction).y == 1.0 ==> Sky(r, m) == Vec3(0.5, 0.7, 1.0)
    ensures m.normalize(r.direction).y == -1.0 ==> Sky(r, m) == White
  {
  }

  /** With a unit direction, the background is a colour in the unit cube. */
  lemma SkyInUnitCube(r: Ray, m: Maths)
    requires NormalizeYLaw(m)
    ensures InUnitCube(Sky(r, m))
  {
    var t := 0.5 * (m.normalize(r.direction).y + 1.0);
    assert 0.0 <= t <= 1.0;
  }

  /** The draws a ray needs: one scatter draw per remaining bounce, indexed by the depth left. */
  type Bounces = nat -> Draw

  /**
   * `ray_color`: black once the bounce budget is spent; otherwise the
   * nearest hit in (0.001, infinity) scatters the ray and tints the colour
   * of the scattered ray by the albedo, or absorbs it (black); a miss sees
   * the sky.
   */
  function RayColor(world: Hittable, r: Ray, depth: nat, draws: Bounces, m: Maths): (c: Vec3)
    requires AllMaterials(world, ValidMaterial)
    ensures depth == 0 ==> c == Black
    ensures depth > 0 && Hit(world, r, 0.001, Infinity, m).None? ==> c == Sky(r, m)
    decreases depth
  {
    if depth == 0 then Black
    else
      match Hit(world, r, 0.001, Infinity, m)
      case None => Sky(r, m)
      case Some(rec) =>
        HitMaterialFrom(world, r, 0.001, Infinity, m, ValidMaterial);
        match Scatter(rec.material, r, rec, draws(depth), m)
        case None => Black
        case Some(scattered) => Mul(Albedo(rec.material), RayColor(world, scattered, depth - 1, draws, m))
  }

  /** An empty world shows the sky wherever the ray points. */
  lemma EmptyWorldShowsSky(r: Ray, depth: nat, draws: Bounces, m: Maths)
    requires depth > 0
    ensures RayColor(List([]), r, depth, draws, m) == Sky(r, m)
  {
  }

  predicate AlbedoInUnitCube(mat: Material) {
    InUnitCube(Albedo(mat))
  }

  lemma MulUnitCube(a: Vec3, b: Vec3)
    requires InUnitCube(a) && InUnitCube(b)
    ensures InUnitCube(Mul(a, b))
  {
    UnitProduct(a.x, b.x);
    UnitProduct(a.y, b.y);
    UnitProduct(a.z, b.z);
  }

  /**
   * Colours stay in the unit cube: with albedos in the unit cube, every
   * bounce only darkens the sky colour it ends on.
   */
  lemma {:induction false} ColorInUnitCube(world: Hittable, r: Ray, depth: nat, draws: Bounces, m: Maths)
    requires NormalizeYLaw(m)
    requires AllMaterials(world, ValidMaterial) && AllMaterials(world, AlbedoInUnitCube)
    ensures InUnitCube(RayColor(world, r, depth, draws, m))
    decreases depth
  {
    if depth > 0 {
      match Hit(world, r, 0.001, Infinity, m)
      case None => SkyInUnitCube(r, m);
      case Some(rec) =>
        HitMaterialFrom(world, r, 0.001, Infinity, m, ValidMaterial);
        HitMaterialFrom(world, r, 0.001, Infinity, m, AlbedoInUnitCube);
        match Scatter(rec.material, r, rec, draws(depth), m)
        case None =>
        case Some(scattered) =>
          ColorInUnitCube(world, scattered, depth - 1, draws, m);
          MulUnitCube(Albedo(rec.material), RayColor(world, scattered, depth - 1, draws, m));
    }
  }

  /** A ray with `depth` bounces left uses only the draws numbered 1 to `depth`. */
  lemma {:induction false} DrawsBeyondDepthIgnored(world: Hittable, r: Ray, depth: nat, d1: Bounces, d2: Bounces, m: Maths)
    requires AllMaterials(world, ValidMaterial)
    requires forall k :: 1 <= k <= depth ==> d1(k) == d2(k)
    ensures RayColor(world, r, depth, d1, m) == RayColor(world, r, depth, d2, m)
    decreases depth
  {
    if depth > 0 {
      match Hit(world, r, 0.001, Infinity, m)
      case None =>
      case Some(rec) =>
        HitMaterialFrom(world, r, 0.001, Infinity, m, ValidMaterial);
        assert d1(depth) == d2(depth);
        match Scatter(rec.material, r, rec, d1(depth), m)
        case None =>
        case Some(scattered) =>
          DrawsBeyondDepthIgnored(world, scattered, depth - 1, d1, d2, m);
    }
  }

  // ---------------------------------------------------------------------
  // One render pass
  // ---------------------------------------------------------------------

  /** The random draws of one pixel: the two jitters, the lens sample and the bounce draws. */
  datatype PixelDraw = PixelDraw(du: real, dv: real, disk: Vec3, bounces: Bounces)

  /** What `compute_render` is given: canvas size, camera, world, bounce depth, and the draws of every pixel. */
  datatype Job = Job(
    height: nat,
    width: nat,
    camera: Cameras.Camera,
    world: Hittable,
    maxDepth: nat,
    draws: (nat, nat) -> PixelDraw)

  /**
   * The canvas has at least two rows and two columns (the jitter divides by
   * `width - 1` and `height - 1`) and every material of the world can
   * scatter.
   */
  predicate ValidJob(job: Job) {
    2 <= job.height && 2 <= job.width && AllMaterials(job.world, ValidMaterial)
  }

  /** The colour of the camera pixel `(i, j)`, `j` counted upwards from the bottom row. */
  function PixelColor(job: Job, m: Maths, i: nat, j: nat): (c: Vec3)
    requires ValidJob(job)
    ensures job.maxDepth == 0 ==> c == Black
    ensures NormalizeYLaw(m) && AllMaterials(job.world, AlbedoInUnitCube) ==> InUnitCube(c)
  {
    var d := job.draws(i, j);
    var u := (i as real + d.du) / ((job.width - 1) as real);
    var v := (j as real + d.dv) / ((job.height - 1) as real);
    var r := Cameras.GetRay(job.camera, u, v, d.disk);
    assert NormalizeYLaw(m) && AllMaterials(job.world, AlbedoInUnitCube) ==>
             InUnitCube(RayColor(job.world, r, job.maxDepth, d.bounces, m)) by {
      if NormalizeYLaw(m) && AllMaterials(job.world, AlbedoInUnitCube) {
        ColorInUnitCube(job.world, r, job.maxDepth, d.bounces, m);
      }
    }
    RayColor(job.world, r, job.maxDepth, d.bounces, m)
  }

  /** The colour each camera pixel `(i, j)` receives in a pass. */
  type Colouring = (nat, nat) -> Vec3

  /** The colouring of a job's pass. */
  function Colours(job: Job, m: Maths): Colouring
    requires ValidJob(job)
  {
    (i: nat, j: nat) => PixelColor(job, m, i, j)
  }

  /** `v` after the first `cols` pixels of camera row `j`, each written to canvas row `height - 1 - j`. */
  function RowRendered(v: CanvasValue, colour: Colouring, j: nat, cols: nat): (r: CanvasValue)
    requires Shaped(v) && j < v.height && cols <= v.width
    ensures Shaped(r) && r.height == v.height && r.width == v.width
    decreases cols
  {
    if cols == 0 then v
    else SetPixelValue(RowRendered(v, colour, j, cols - 1), cols - 1, v.height - 1 - j, colour(cols - 1, j))
  }

  /** The `height` by `width` canvas after the first `rows` camera rows. */
  function RowsRendered(height: nat, width: nat, colour: Colouring, rows: nat): (r: CanvasValue)
    requires rows <= height
    ensures Shaped(r) && r.height == height && r.width == width
  {
    if rows == 0 then Zero(height, width)
    else RowRendered(RowsRendered(height, width, colour, rows - 1), colour, rows - 1, width)
  }

  /** The canvas one pass produces. */
  function RenderValue(job: Job, m: Maths): (r: CanvasValue)
    requires ValidJob(job)
    ensures Shaped(r) && r.height == job.height && r.width == job.width
  {
    RowsRendered(job.height, job.width, Colours(job, m), job.height)
  }

  /** Writing part of a row sets exactly those pixels and leaves the rest. */
  lemma {:induction false} RowPixels(v: CanvasValue, colour: Colouring, j: nat, cols: nat)
    requires Shaped(v) && j < v.height && cols <= v.width
    ensures RowRendered(v, colour, j, cols).layers == (if cols == 0 || 0 < v.layers then v.layers else 1)
    ensures forall x: nat, y: nat :: x < v.width && y < v.height ==>
              PixelAt(RowRendered(v, colour, j, cols), x, y)
              == if y == v.height - 1 - j && x < cols then colour(x, j) else PixelAt(v, x, y)
    decreases cols
  {
    if cols > 0 {
      RowPixels(v, colour, j, cols - 1);
      var prev := RowRendered(v, colour, j, cols - 1);
      var r := RowRendered(v, colour, j, cols);
      assert r == SetPixelValue(prev, cols - 1, v.height - 1 - j, colour(cols - 1, j));
      forall x: nat, y: nat | x < v.width && y < v.height
        ensures PixelAt(r, x, y) == if y == v.height - 1 - j && x < cols then colour(x, j) else PixelAt(v, x, y)
      {
        SetPixelOnlyThatPixel(prev, cols - 1, v.height - 1 - j, colour(cols - 1, j), x, y);
      }
    }
  }

  /** After `rows` rows, their pixels hold their colours (flipped vertically) and the rest are still black. */
  lemma {:induction false} RowsPixels(height: nat, width: nat, colour: Colouring, rows: nat)
    requires rows <= height && 0 < width
    ensures var r := RowsRendered(height, width, colour, rows);
            r.layers == (if rows == 0 then 0 else 1)
            && forall x: nat, y: nat :: x < width && y < height ==>
                 PixelAt(r, x, y) == if height - 1 - y < rows then colour(x, height - 1 - y) else Black
  {
    if rows == 0 {
      var z := Zero(height, width);
      forall x: nat, y: nat | x < width && y < height
        ensures PixelAt(z, x, y) == Black
      {
        OffsetInside(height, width, x, y);
      }
    } else {
      RowsPixels(height, width, colour, rows - 1);
      RowPixels(RowsRendered(height, width, colour, rows - 1), colour, rows - 1, width);
    }
  }

  /**
   * A pass is one sample per pixel: the camera pixel `(i, j)` lands on
   * canvas row `height - 1 - j`, since the canvas counts rows downwards.
   */
  lemma RenderedPixels(job: Job, m: Maths)
    requires ValidJob(job)
    ensures RenderValue(job, m).layers == 1
    ensures forall i: nat, j: nat :: i < job.width && j < job.height ==>
              PixelAt(RenderValue(job, m), i, job.height - 1 - j) == PixelColor(job, m, i, j)
  {
    RowsPixels(job.height, job.width, Colours(job, m), job.height);
  }

  /** Rendering depends only on the colour of each pixel, not on how the colouring is written. */
  lemma {:induction false} SameColoursSameCanvas(height: nat, width: nat, c1: Colouring, c2: Colouring, rows: nat)
    requires rows <= height
    requires forall i: nat, j: nat :: i < width && j < height ==> c1(i, j) == c2(i, j)
    ensures RowsRendered(height, width, c1, rows) == RowsRendered(height, width, c2, rows)
  {
    if rows > 0 {
      SameColoursSameCanvas(height, width, c1, c2, rows - 1);
      SameColoursSameRow(RowsRendered(height, width, c1, rows - 1), c1, c2, rows - 1, width);
    }
  }

  lemma {:induction false} SameColoursSameRow(v: CanvasValue, c1: Colouring, c2: Colouring, j: nat, cols: nat)
    requires Shaped(v) && j < v.height && cols <= v.width
    requires forall i: nat :: i < cols ==> c1(i, j) == c2(i, j)
    ensures RowRendered(v, c1, j, cols) == RowRendered(v, c2, j, cols)
  {
    if cols > 0 {
      SameColoursSameRow(v, c1, c2, j, cols - 1);
    }
  }

  /**
   * The two nested loops of `compute_render`: for each camera row `j` from
   * the bottom and each column `i`, the pixel's colour is written to canvas
   * row `height - 1 - j`. The colour of a pixel (jitter, camera ray,
   * `ray_color`) is given as `colour`.
   */
  method Paint(height: nat, width: nat, colour: Colouring) returns (cv: Canvas)
    ensures fresh(cv) && fresh(cv.data) && cv.Valid() && cv.height == height && cv.width == width
    ensures cv.Value() == RowsRendered(height, width, colour, height)
  {
    cv := new Canvas.NewInitialized(height, width);
    for j := 0 to height
      invariant fresh(cv.data) && cv.Valid() && cv.height == height && cv.width == width
      invariant cv.Value() == RowsRendered(height, width, colour, j)
    {
      ghost var rowStart := cv.Value();
      for i := 0 to width
        invariant fresh(cv.data) && cv.Valid() && cv.height == height && cv.width == width
        invariant cv.Value() == RowRendered(rowStart, colour, j, i)
      {
        cv.SetPixel(i, height - 1 - j, colour(i, j));
      }
    }
  }

  /** `compute_render`: one pass over the canvas with one jittered sample per pixel. */
  method ComputeRender(height: nat, width: nat, camera: Cameras.Camera, world: Hittable, maxDepth: nat,
                       draws: (nat, nat) -> PixelDraw, m: Maths) returns (cv: Canvas)
    requires ValidJob(Job(height, width, camera, world, maxDepth, draws))
    ensures fresh(cv) && fresh(cv.data) && cv.Valid()
    ensures cv.Value() == RenderValue(Job(height, width, camera, world, maxDepth, draws), m)
  {
    cv := Paint(height, width, Colours(Job(height, width, camera, world, maxDepth, draws), m));
  }

  /** The colour of a pixel in the older renderer, through the fixed camera. */
  function LegacyPixelColor(job: Job, camera: FixedCameras.FixedCamera, m: Maths, i: nat, j: nat): (c: Vec3)
    requires ValidJob(job)
    ensures job.maxDepth == 0 ==> c == Black
    ensures NormalizeYLaw(m) && AllMaterials(job.world, AlbedoInUnitCube) ==> InUnitCube(c)
  {
    var d := job.draws(i, j);
    var u := (i as real + d.du) / ((job.width - 1) as real);
    var v := (j as real + d.dv) / ((job.height - 1) as real);
    var r := FixedCameras.GetRay(camera, u, v);
    assert NormalizeYLaw(m) && AllMaterials(job.world, AlbedoInUnitCube) ==>
             InUnitCube(RayColor(job.world, r, job.maxDepth, d.bounces, m)) by {
      if NormalizeYLaw(m) && AllMaterials(job.world, AlbedoInUnitCube) {
        ColorInUnitCube(job.world, r, job.maxDepth, d.bounces, m);
      }
    }
    RayColor(job.world, r, job.maxDepth, d.bounces, m)
  }

  /** The older renderer's pixels are those of the current renderer with the lensless camera. */
  lemma LegacyPixelsAgree(job: Job, camera: FixedCameras.FixedCamera, m: Maths)
    requires ValidJob(job) && job.camera == Cameras.Lensless(camera)
    ensures forall i: nat, j: nat :: LegacyPixelColor(job, camera, m, i, j) == PixelColor(job, m, i, j)
  {
    forall i: nat, j: nat
      ensures LegacyPixelColor(job, camera, m, i, j) == PixelColor(job, m, i, j)
    {
      var d := job.draws(i, j);
      Cameras.LenslessSameRay(camera, (i as real + d.du) / ((job.width - 1) as real),
                              (j as real + d.dv) / ((job.height - 1) as real), d.disk);
    }
  }

  /** The older `compute_render`, over a fixed camera: the same pass as the lensless camera makes. */
  method ComputeRenderLegacy(height: nat, width: nat, camera: FixedCameras.FixedCamera, world: Hittable, maxDepth: nat,
                             draws: (nat, nat) -> PixelDraw, m: Maths) returns (cv: Canvas)
    requires ValidJob(Job(height, width, Cameras.Lensless(camera), world, maxDepth, draws))
    ensures fresh(cv) && fresh(cv.data) && cv.Valid()
    ensures cv.Value() == RenderValue(Job(height, width, Cameras.Lensless(camera), world, maxDepth, draws), m)
  {
    ghost var job := Job(height, width, Cameras.Lensless(camera), world, maxDepth, draws);
    var legacy := (i: nat, j: nat) => LegacyPixelColor(Job(height, width, Cameras.Lensless(camera), world, maxDepth, draws), camera, m, i, j);
    cv := Paint(height, width, legacy);
    LegacyPixelsAgree(job, camera, m);
    SameColoursSameCanvas(height, width, legacy, Colours(job, m), height);
  }

  // ---------------------------------------------------------------------
  // Aggregating passes
  // ---------------------------------------------------------------------

  /** `RenderPass`: a snapshot of the image after `currentPass` of `totalPasses` passes. */
  datatype RenderPass = RenderPass(canvas: CanvasValue, currentPass: nat, totalPasses: nat)

  /** The image shown from a sum of passes: averaged, then gamma corrected. */
  function Finish(v: CanvasValue, sqrt: real -> real): CanvasValue {
    GammaValue(NormalizeValue(v), sqrt)
  }

  /** The snapshots sent to a consumer: the `q`-th one shows the first `q` passes and is numbered `q`. */
  function Snapshots(height: nat, width: nat, passes: seq<CanvasValue>, totalPasses: nat, sqrt: real -> real): (s: seq<RenderPass>)
    requires AllShaped(height, width, passes)
    ensures |s| == |passes|
    ensures forall q :: 1 <= q <= |s| ==>
              s[q - 1] == RenderPass(Finish(Accumulate(Zero(height, width), passes[..q]), sqrt), q, totalPasses)
    decreases |passes|
  {
    if |passes| == 0 then []
    else
      var front := passes[..|passes| - 1];
      assert forall q :: 1 <= q <= |front| ==> front[..q] == passes[..q];
      assert passes[..|passes|] == passes;
      Snapshots(height, width, front, totalPasses, sqrt)
      + [RenderPass(Finish(Accumulate(Zero(height, width), passes), sqrt), |passes|, totalPasses)]
  }

  /**
   * The aggregator thread: adds each arriving pass into a canvas; with a
   * consumer registered, sends a finished copy after every pass; at the end
   * finishes the canvas itself.
   */
  method Aggregate(height: nat, width: nat, passes: seq<CanvasValue>, totalPasses: nat, hasConsumer: bool,
                   sqrt: real -> real) returns (image: CanvasValue, snapshots: seq<RenderPass>)
    requires AllShaped(height, width, passes)
    ensures image == Finish(Accumulate(Zero(height, width), passes), sqrt)
    ensures snapshots == if hasConsumer then Snapshots(height, width, passes, totalPasses, sqrt) else []
  {
    var cv := new Canvas.NewInitialized(height, width);
    var renderPass: nat := 1;
    snapshots := [];
    for k := 0 to |passes|
      invariant fresh(cv.data) && cv.Valid() && cv.height == height && cv.width == width
      invariant cv.Value() == Accumulate(Zero(height, width), passes[..k])
      invariant hasConsumer ==> renderPass == k + 1 && snapshots == Snapshots(height, width, passes[..k], totalPasses, sqrt)
      invariant !hasConsumer ==> snapshots == []
    {
      cv.AddAssign(passes[k]);
      AccumulateAppend(Zero(height, width), passes[..k], [passes[k]]);
      assert passes[..k + 1] == passes[..k] + [passes[k]];
      if hasConsumer {
        var output := cv.Clone();
        output.Normalize();
        output.GammaCorrection(sqrt);
        snapshots := snapshots + [RenderPass(output.Value(), renderPass, totalPasses)];
        renderPass := renderPass + 1;
        assert passes[..k + 1][..k] == passes[..k];
      }
    }
    assert passes[..|passes|] == passes;
    cv.Normalize();
    cv.GammaCorrection(sqrt);
    image := cv.Value();
  }

  /** Passes reach the aggregator in whatever order the threads finish: the final image does not depend on it. */
  lemma ArrivalOrderIrrelevant(height: nat, width: nat, ps: seq<CanvasValue>, qs: seq<CanvasValue>, sqrt: real -> real)
    requires AllShaped(height, width, ps) && AllShaped(height, width, qs)
    requires multiset(ps) == multiset(qs)
    ensures Finish(Accumulate(Zero(height, width), ps), sqrt) == Finish(Accumulate(Zero(height, width), qs), sqrt)
  {
    AccumulateOrderIrrelevant(Zero(height, width), ps, qs);
  }

  lemma {:induction false} SingleLayers(passes: seq<CanvasValue>)
    requires forall q :: 0 <= q < |passes| ==> passes[q].layers == 1
    ensures LayerSum(passes) == |passes|
  {
    if |passes| > 0 {
      SingleLayers(passes[1..]);
    }
  }

  /** Before gamma correction, each channel of the image is the mean of that channel over the passes. */
  lemma AverageOfPasses(height: nat, width: nat, passes: seq<CanvasValue>)
    requires AllShaped(height, width, passes) && |passes| > 0
    requires forall q :: 0 <= q < |passes| ==> passes[q].layers == 1
    ensures var avg := NormalizeValue(Accumulate(Zero(height, width), passes));
            |avg.data| == height * width * 3
            && forall k :: 0 <= k < |avg.data| ==> avg.data[k] * (|passes| as real) == ChannelSum(passes, k)
  {
    SingleLayers(passes);
  }

  /** The pass canvases the renderer's `samples` jobs produce, in submission order. */
  function Passes(rd: Renderer, draws: seq<(nat, nat) -> PixelDraw>, m: Maths): (ps: seq<CanvasValue>)
    requires 2 <= rd.height && 2 <= rd.width && AllMaterials(rd.world, ValidMaterial)
    ensures |ps| == |draws| && AllShaped(rd.height, rd.width, ps)
    decreases |draws|
  {
    if |draws| == 0 then []
    else
      Passes(rd, draws[..|draws| - 1], m)
      + [RenderValue(Job(rd.height, rd.width, rd.camera, rd.world, rd.bounces, draws[|draws| - 1]), m)]
  }

  /**
   * `Renderer::render` run sequentially: `samples` passes, each with its
   * own draws, then the aggregation. The threads, the channels and the
   * progress bar are not modelled.
   */
  method Render(rd: Renderer, draws: seq<(nat, nat) -> PixelDraw>, m: Maths, sqrt: real -> real)
    returns (image: CanvasValue, snapshots: seq<RenderPass>)
    requires 2 <= rd.height && 2 <= rd.width && AllMaterials(rd.world, ValidMaterial)
    requires |draws| == rd.samples
    ensures image == Finish(Accumulate(Zero(rd.height, rd.width), Passes(rd, draws, m)), sqrt)
    ensures snapshots == if rd.passChannel then Snapshots(rd.height, rd.width, Passes(rd, draws, m), rd.samples, sqrt) else []
  {
    var passes: seq<CanvasValue> := [];
    for k := 0 to rd.samples
      invariant passes == Passes(rd, draws[..k], m)
    {
      var cv := ComputeRender(rd.height, rd.width, rd.camera, rd.world, rd.bounces, draws[k], m);
      passes := passes + [cv.Value()];
      assert draws[..k + 1][..k] == draws[..k];
    }
    assert draws[..rd.samples] == draws;
    image, snapshots := Aggregate(rd.height, rd.width, passes, rd.samples, rd.passChannel, sqrt);
  }

  /**
   * The older renderer's merge: a new canvas, the first `samples` passes
   * added in (`take(samples).fold`), then averaged and gamma corrected in
   * place.
   */
  method MergePasses(height: nat, width: nat, passes: seq<CanvasValue>, samples: nat, sqrt: real -> real)
    returns (cv: Canvas)
    requires AllShaped(height, width, passes)
    ensures fresh(cv) && cv.Valid()
    ensures cv.Value() == Finish(Accumulate(Zero(height, width), passes[..if samples < |passes| then samples else |passes|]), sqrt)
  {
    var n := if samples < |passes| then samples else |passes|;
    var initial := new Canvas.NewInitialized(height, width);
    cv := new Canvas.FromValue(Accumulate(initial.Value(), passes[..n]));
    cv.Normalize();
    cv.GammaCorrection(sqrt);
  }

  /** The older `Renderer::render` run sequentially: `samples` passes over the fixed camera, then the merge. */
  method RenderLegacy(rd: LegacyRenderer, draws: seq<(nat, nat) -> PixelDraw>, m: Maths, sqrt: real -> real)
    returns (image: CanvasValue)
    requires 2 <= rd.height && 2 <= rd.width && AllMaterials(rd.world, ValidMaterial)
    requires |draws| == rd.samples
    ensures var current := AsCurrent(rd);
            image == Finish(Accumulate(Zero(rd.height, rd.width), Passes(current, draws, m)), sqrt)
  {
    ghost var current := AsCurrent(rd);
    var passes: seq<CanvasValue> := [];
    for k := 0 to rd.samples
      invariant passes == Passes(current, draws[..k], m)
    {
      var cv := ComputeRenderLegacy(rd.height, rd.width, rd.camera, rd.world, rd.bounces, draws[k], m);
      passes := passes + [cv.Value()];
      assert draws[..k + 1][..k] == draws[..k];
    }
    assert draws[..rd.samples] == draws;
    var cv := MergePasses(rd.height, rd.width, passes, rd.samples, sqrt);
    assert passes[..rd.samples] == passes;
    image := cv.Value();
  }
}
