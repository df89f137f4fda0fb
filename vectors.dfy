/**
 * Three-component vectors over the reals (the renderer's `f32` vectors),
 * rays, the upper bound of a hit interval, and the library maths the
 * renderer calls but whose definitions are not part of this model.
 */
module Vectors {
  datatype Vec3 = Vec3(x: real, y: real, z: real)

  const Black := Vec3(0.0, 0.0, 0.0)
  const White := Vec3(1.0, 1.0, 1.0)

  function Add(a: Vec3, b: Vec3): Vec3 { Vec3(a.x + b.x, a.y + b.y, a.z + b.z) }

  function Sub(a: Vec3, b: Vec3): Vec3 { Vec3(a.x - b.x, a.y - b.y, a.z - b.z) }

  function Neg(a: Vec3): Vec3 { Vec3(-a.x, -a.y, -a.z) }

  function Scale(k: real, a: Vec3): Vec3 { Vec3(k * a.x, k * a.y, k * a.z) }

  /** Division of every component by a nonzero scalar. */
  function Div(a: Vec3, k: real): Vec3
    requires k != 0.0
  {
    Vec3(a.x / k, a.y / k, a.z / k)
  }

  /** Component-wise (Hadamard) product, used to tint a colour by an albedo. */
  function Mul(a: Vec3, b: Vec3): Vec3 { Vec3(a.x * b.x, a.y * b.y, a.z * b.z) }

  function Dot(a: Vec3, b: Vec3): real { a.x * b.x + a.y * b.y + a.z * b.z }

  /** Squared Euclidean length. */
  function Length2(a: Vec3): real { Dot(a, a) }

  /** Linear interpolation `a * (1 - t) + b * t`. */
  function Lerp(a: Vec3, b: Vec3, t: real): Vec3 { Add(Scale(1.0 - t, a), Scale(t, b)) }

  /** The component on axis `a` (0 = x, 1 = y, 2 = z). */
  function Coord(v: Vec3, a: nat): real
    requires a < 3
  {
    if a == 0 then v.x else if a == 1 then v.y else v.z
  }

  /** Every component lies in [0, 1]. */
  predicate InUnitCube(c: Vec3) {
    0.0 <= c.x <= 1.0 && 0.0 <= c.y <= 1.0 && 0.0 <= c.z <= 1.0
  }

  datatype Ray = Ray(origin: Vec3, direction: Vec3)

  /** The point `origin + t * direction`. */
  function At(r: Ray, t: real): Vec3 { Add(r.origin, Scale(t, r.direction)) }

  /** The upper end of a hit interval: a finite value or `f32::INFINITY`. */
  datatype Limit = Finite(value: real) | Infinity

  /** `t < bound`. */
  predicate Below(t: real, bound: Limit) {
    bound.Infinity? || t < bound.value
  }

  /** `t <= bound`. */
  predicate AtMost(t: real, bound: Limit) {
    bound.Infinity? || t <= bound.value
  }

  /** `min(t, bound)`, as a bound. */
  function MinLimit(t: real, bound: Limit): Limit {
    if bound.Finite? && bound.value <= t then bound else Finite(t)
  }

  function Max(a: real, b: real): real { if a < b then b else a }

  function Min(a: real, b: real): real { if a < b then a else b }

  /**
   * Library functions the renderer calls: `f32::sqrt`, `f32::tan`,
   * `f32::sin`, `f32::cos`, `normalize`, `cross`, `reflect_vec` and
   * `refract_vec`. They are left uninterpreted; the laws below are
   * assumed only by the lemmas that state them as preconditions.
   */
  datatype Maths = Maths(
    sqrt: real -> real,
    tan: real -> real,
    sin: real -> real,
    cos: real -> real,
    normalize: Vec3 -> Vec3,
    cross: (Vec3, Vec3) -> Vec3,
    reflect: (Vec3, Vec3) -> Vec3,
    refract: (Vec3, Vec3, real) -> Vec3)

  /** The square root of a non-negative number is its non-negative root. */
  ghost predicate SqrtLaw(m: Maths) {
    forall x: real {:trigger m.sqrt(x)} :: 0.0 <= x ==> 0.0 <= m.sqrt(x) && m.sqrt(x) * m.sqrt(x) == x
  }

  /** Under `SqrtLaw` the square root of one is one. */
  lemma SqrtOfOne(m: Maths)
    requires SqrtLaw(m)
    ensures m.sqrt(1.0) == 1.0
  {
    var s := m.sqrt(1.0);
    assert 0.0 <= s && s * s == 1.0;
    if s > 1.0 {
      PositiveProduct(s - 1.0, s + 1.0);
    } else if s < 1.0 {
      ProductSigns(s, 1.0 - s);
    }
  }

  /** `cos(x)^2 + sin(x)^2 == 1`. */
  ghost predicate TrigLaw(m: Maths) {
    forall x: real {:trigger m.cos(x)} {:trigger m.sin(x)} :: m.cos(x) * m.cos(x) + m.sin(x) * m.sin(x) == 1.0
  }

  /** A normalised vector has its y component in [-1, 1]. */
  ghost predicate NormalizeYLaw(m: Maths) {
    forall v: Vec3 {:trigger m.normalize(v)} :: -1.0 <= m.normalize(v).y <= 1.0
  }

  /** The sign of a product of two signed factors. */
  lemma ProductSigns(a: real, b: real)
    ensures 0.0 <= a && 0.0 <= b ==> 0.0 <= a * b
    ensures 0.0 < a && 0.0 < b ==> 0.0 < a * b
  {
  }

  /** A product of two values in [0, 1] stays in [0, 1] and does not exceed either factor. */
  lemma UnitProduct(a: real, b: real)
    requires 0.0 <= a <= 1.0 && 0.0 <= b <= 1.0
    ensures 0.0 <= a * b <= 1.0 && a * b <= a
  {
    ProductSigns(a, b);
    ProductSigns(a, 1.0 - b);
    assert a * (1.0 - b) == a - a * b;
  }

  /** A positive span scaled by a draw in [0, 1) stays in [0, span). */
  lemma ScaledDraw(d: real, u: real)
    requires 0.0 < d && 0.0 <= u < 1.0
    ensures 0.0 <= d * u < d
  {
    ProductSigns(d, u);
    ProductSigns(d, 1.0 - u);
    assert d * (1.0 - u) == d - d * u;
  }

  lemma PositiveProduct(a: real, b: real)
    requires 0.0 < a && 0.0 < b
    ensures 0.0 < a * b
  {
  }

  lemma SquareNonneg(x: real)
    ensures 0.0 <= x * x
  {
    if x < 0.0 {
      ProductSigns(-x, -x);
    }
  }
}
