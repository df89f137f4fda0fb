/** Sampling helpers and Schlick's reflectance approximation. */
module Utils {
  import opened Vectors
  import opened Wrappers

  /** `std::f32::consts::PI`, the `f32` value nearest to pi. */
  const F32_PI: real := 3.1415927410125732421875

  /** `rand_range_f32`, with the uniform draw `u` from `random::<f32>()` as a parameter. */
  function RandRange(min: real, max: real, u: real): (r: real)
    ensures 0.0 <= u < 1.0 && min < max ==> min <= r < max
    ensures u == 0.0 ==> r == min
  {
    var span := max - min;
    if 0.0 <= u < 1.0 && 0.0 < span then
      ScaledDraw(span, u);
      min + span * u
    else
      min + span * u
  }

  /** The first candidate strictly inside the unit sphere, if any. */
  function FirstInside(candidates: seq<Vec3>): (p: Option<Vec3>)
    ensures p.Some? ==> Length2(p.value) < 1.0
    ensures p.Some? ==> exists k :: 0 <= k < |candidates| && candidates[k] == p.value
                                   && forall q :: 0 <= q < k ==> Length2(candidates[q]) >= 1.0
    ensures p.None? <==> forall k :: 0 <= k < |candidates| ==> Length2(candidates[k]) >= 1.0
  {
    if |candidates| == 0 then None
    else if Length2(candidates[0]) < 1.0 then Some(candidates[0])
    else
      var rest := FirstInside(candidates[1..]);
      if rest.Some? then
        var k :| 0 <= k < |candidates| - 1 && candidates[1..][k] == rest.value
                 && forall q :: 0 <= q < k ==> Length2(candidates[1..][q]) >= 1.0;
        assert candidates[k + 1] == rest.value;
        assert forall q :: 0 <= q < k + 1 ==> Length2(candidates[q]) >= 1.0 by {
          forall q | 0 <= q < k + 1 ensures Length2(candidates[q]) >= 1.0 {
            if q > 0 { assert candidates[q] == candidates[1..][q - 1]; }
          }
        }
        rest
      else
        rest
  }

  /**
   * `random_in_unit_sphere`: the rejection loop, run over the sequence of
   * points `Vec3::new_random()` would produce; `None` when none of them is
   * accepted.
   */
  method RandomInUnitSphere(candidates: seq<Vec3>) returns (p: Option<Vec3>)
    ensures p == FirstInside(candidates)
    ensures p.Some? ==> Length2(p.value) < 1.0
  {
    var k := 0;
    while k < |candidates|
      invariant 0 <= k <= |candidates|
      invariant FirstInside(candidates) == FirstInside(candidates[k..])
    {
      if Length2(candidates[k]) < 1.0 {
        return Some(candidates[k]);
      }
      assert candidates[k..][1..] == candidates[k + 1..];
      k := k + 1;
    }
    return None;
  }

  /**
   * `random_unit_vector`: an angle drawn from [0, 2 pi) and a height `z`
   * from [-1, 1), with the two uniform draws as parameters.
   */
  function RandomUnitVector(u1: real, u2: real, m: Maths): (v: Vec3)
    ensures 0.0 <= u2 < 1.0 ==> -1.0 <= v.z < 1.0
  {
    var a := RandRange(0.0, 2.0 * F32_PI, u1);
    var z := RandRange(-1.0, 1.0, u2);
    var r := m.sqrt(1.0 - z * z);
    Vec3(r * m.cos(a), r * m.sin(a), z)
  }

  /** The sampled vector lies on the unit sphere. */
  lemma UnitVectorOnSphere(u1: real, u2: real, m: Maths)
    requires SqrtLaw(m) && TrigLaw(m) && 0.0 <= u2 < 1.0
    ensures Length2(RandomUnitVector(u1, u2, m)) == 1.0
  {
    var a := RandRange(0.0, 2.0 * F32_PI, u1);
    var z := RandRange(-1.0, 1.0, u2);
    assert -1.0 <= z < 1.0;
    assert z * z <= 1.0 by {
      if z >= 0.0 { assert z * z <= z * 1.0; } else { assert z * z <= (-z) * 1.0; }
    }
    var r := m.sqrt(1.0 - z * z);
    assert r * r == 1.0 - z * z;
    var c, s := m.cos(a), m.sin(a);
    assert c * c + s * s == 1.0;
    calc {
      Length2(RandomUnitVector(u1, u2, m));
      (r * c) * (r * c) + (r * s) * (r * s) + z * z;
      (r * r) * (c * c + s * s) + z * z;
      1.0;
    }
  }

  /** `f32::powi(x, 5)`. */
  function Pow5(x: real): real { x * x * x * x * x }

  /** Reflectance at normal incidence, `((1 - n) / (1 + n))^2`. */
  function R0(n: real): real
    requires n != -1.0
  {
    var q := (1.0 - n) / (1.0 + n);
    q * q
  }

  /** `schlick(cosine, refraction_index)`. */
  function Schlick(cosine: real, n: real): (p: real)
    requires n != -1.0
    ensures cosine == 1.0 ==> p == R0(n)
    ensures n == 1.0 ==> p == Pow5(1.0 - cosine)
  {
    R0(n) + (1.0 - R0(n)) * Pow5(1.0 - cosine)
  }

  lemma Pow5Unit(x: real)
    requires 0.0 <= x <= 1.0
    ensures 0.0 <= Pow5(x) <= 1.0
  {
    UnitProduct(x, x);
    UnitProduct(x * x, x);
    UnitProduct(x * x * x, x);
    UnitProduct(x * x * x * x, x);
  }

  /** For a non-negative index and a cosine in [0, 1] the reflectance lies between `R0(n)` and 1. */
  lemma SchlickBounds(cosine: real, n: real)
    requires 0.0 <= n && 0.0 <= cosine <= 1.0
    ensures 0.0 <= R0(n) <= Schlick(cosine, n) <= 1.0
  {
    var q := (1.0 - n) / (1.0 + n);
    assert q * (1.0 + n) == 1.0 - n;
    assert -1.0 < q <= 1.0;
    assert q * q <= 1.0 by {
      if q >= 0.0 { assert q * q <= q * 1.0; } else { assert q * q <= (-q) * 1.0; }
    }
    var p := Pow5(1.0 - cosine);
    Pow5Unit(1.0 - cosine);
    var r := R0(n);
    ProductSigns(1.0 - r, p);
    ProductSigns(1.0 - r, 1.0 - p);
    assert (1.0 - r) * (1.0 - p) == (1.0 - r) - (1.0 - r) * p;
  }
}
