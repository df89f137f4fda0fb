/** Axis-aligned bounding boxes: the slab test and the union of two boxes. */
module Boxes {
  import opened Vectors

  datatype Aabb = Aabb(min: Vec3, max: Vec3)

  /** Both corners are ordered on every axis. */
  predicate WellFormed(b: Aabb) {
    b.min.x <= b.max.x && b.min.y <= b.max.y && b.min.z <= b.max.z
  }

  /** `outer` contains `inner` on every axis. */
  predicate Contains(outer: Aabb, inner: Aabb) {
    outer.min.x <= inner.min.x && outer.min.y <= inner.min.y && outer.min.z <= inner.min.z &&
    inner.max.x <= outer.max.x && inner.max.y <= outer.max.y && inner.max.z <= outer.max.z
  }

  /** `p` lies strictly between the corners of `b` on every axis. */
  predicate StrictlyInside(b: Aabb, p: Vec3) {
    forall a: nat :: a < 3 ==> Coord(b.min, a) < Coord(p, a) < Coord(b.max, a)
  }

  /**
   * The times at which the ray crosses the two planes of the slab on axis
   * `a`, swapped when the inverse direction is negative.
   */
  function SlabTimes(b: Aabb, r: Ray, a: nat): (real, real)
    requires a < 3 && Coord(r.direction, a) != 0.0
  {
    var invD := 1.0 / Coord(r.direction, a);
    var t0 := Crossing(Coord(b.min, a), Coord(r.origin, a), invD);
    var t1 := Crossing(Coord(b.max, a), Coord(r.origin, a), invD);
    if invD < 0.0 then (t1, t0) else (t0, t1)
  }

  /** The time `(p - o) * inv_d` at which a ray from `o` crosses the plane at `p`. */
  function Crossing(p: real, o: real, invD: real): real {
    (p - o) * invD
  }

  /**
   * One iteration of the slab loop: the interval `(t_min, t_max)` narrowed
   * by the slab on axis `a` is not empty. A zero direction component makes
   * the inverse an infinity in `f32`; the slab then admits the ray exactly
   * when the origin lies between its planes.
   */
  predicate SlabAdmits(b: Aabb, r: Ray, tMin: real, tMax: Limit, a: nat)
    requires a < 3
  {
    if Coord(r.direction, a) == 0.0 then
      Coord(b.min, a) <= Coord(r.origin, a) <= Coord(b.max, a) && Below(tMin, tMax)
    else
      var (lo, hi) := SlabTimes(b, r, a);
      Below(Max(lo, tMin), MinLimit(hi, tMax))
  }

  /** `AABB::hit`: each axis is checked against the interval given on entry. */
  predicate Hits(b: Aabb, r: Ray, tMin: real, tMax: Limit) {
    SlabAdmits(b, r, tMin, tMax, 0) && SlabAdmits(b, r, tMin, tMax, 1) && SlabAdmits(b, r, tMin, tMax, 2)
  }

  /**
   * The body of `AABB::hit`'s loop for axis `a`: the crossing times, their
   * swap, the narrowed bounds (local to the iteration) and the emptiness test.
   */
  method AxisAdmits(b: Aabb, r: Ray, tMin: real, tMax: Limit, a: nat) returns (ok: bool)
    requires a < 3
    ensures ok == SlabAdmits(b, r, tMin, tMax, a)
  {
    var d := Coord(r.direction, a);
    var o := Coord(r.origin, a);
    if d == 0.0 {
      return Coord(b.min, a) <= o <= Coord(b.max, a) && Below(tMin, tMax);
    }
    var invD := 1.0 / d;
    var t0 := Crossing(Coord(b.min, a), o, invD);
    var t1 := Crossing(Coord(b.max, a), o, invD);
    if invD < 0.0 {
      t0, t1 := t1, t0;
    }
    var tMinA := if t0 > tMin then t0 else tMin;
    var tMaxA := if tMax.Infinity? || t1 < tMax.value then Finite(t1) else tMax;
    return Below(tMinA, tMaxA);
  }

  /** `AABB::hit` as the loop over the three axes with its early return. */
  method Hit(b: Aabb, r: Ray, tMin: real, tMax: Limit) returns (hit: bool)
    ensures hit <==> forall a: nat :: a < 3 ==> SlabAdmits(b, r, tMin, tMax, a)
    ensures hit == Hits(b, r, tMin, tMax)
  {
    for a: nat := 0 to 3
      invariant forall a2: nat :: a2 < a ==> SlabAdmits(b, r, tMin, tMax, a2)
    {
      var ok := AxisAdmits(b, r, tMin, tMax, a);
      if !ok {
        return false;
      }
    }
    return true;
  }

  /** An empty interval on entry is never hit. */
  lemma EmptyIntervalMisses(b: Aabb, r: Ray, tMin: real, tMax: Limit)
    requires !Below(tMin, tMax)
    ensures !Hits(b, r, tMin, tMax)
  {
    assert !SlabAdmits(b, r, tMin, tMax, 0);
  }

  lemma MulLeft(k: real, u: real, v: real)
    requires u <= v
    ensures 0.0 <= k ==> k * u <= k * v
    ensures k <= 0.0 ==> k * v <= k * u
  {
    assert k * v - k * u == k * (v - u);
  }

  /** After the swap the entry time does not exceed the exit time. */
  lemma SlabTimesOrdered(b: Aabb, r: Ray, a: nat)
    requires a < 3 && Coord(r.direction, a) != 0.0 && Coord(b.min, a) <= Coord(b.max, a)
    ensures SlabTimes(b, r, a).0 <= SlabTimes(b, r, a).1
  {
    var invD := 1.0 / Coord(r.direction, a);
    MulLeft(invD, Coord(b.min, a) - Coord(r.origin, a), Coord(b.max, a) - Coord(r.origin, a));
    assert Crossing(Coord(b.min, a), Coord(r.origin, a), invD) == invD * (Coord(b.min, a) - Coord(r.origin, a));
    assert Crossing(Coord(b.max, a), Coord(r.origin, a), invD) == invD * (Coord(b.max, a) - Coord(r.origin, a));
  }

  /** A point at time `t` strictly inside the slab lies between its two crossing times. */
  lemma SlabTimesAround(b: Aabb, r: Ray, a: nat, t: real)
    requires a < 3 && Coord(r.direction, a) != 0.0
    requires Coord(b.min, a) < Coord(At(r, t), a) < Coord(b.max, a)
    ensures SlabTimes(b, r, a).0 < t < SlabTimes(b, r, a).1
  {
    assert Coord(At(r, t), a) == Coord(r.origin, a) + t * Coord(r.direction, a);
    CrossingAround(Coord(b.min, a), Coord(b.max, a), Coord(r.origin, a), Coord(r.direction, a), t);
  }

  /** The arithmetic of `SlabTimesAround` on one axis. */
  lemma CrossingAround(lo: real, hi: real, o: real, d: real, t: real)
    requires d != 0.0 && lo < o + t * d < hi
    ensures var invD := 1.0 / d;
            (invD < 0.0 ==> Crossing(hi, o, invD) < t < Crossing(lo, o, invD)) &&
            (0.0 <= invD ==> Crossing(lo, o, invD) < t < Crossing(hi, o, invD))
  {
    var invD := 1.0 / d;
    MulInverse(t, d);
    MulStrict(invD, lo - o, t * d);
    MulStrict(invD, t * d, hi - o);
  }

  lemma MulInverse(t: real, d: real)
    requires d != 0.0
    ensures (t * d) * (1.0 / d) == t
  {
    assert d * (1.0 / d) == 1.0;
    assert (t * d) * (1.0 / d) == t * (d * (1.0 / d));
  }

  lemma MulStrict(k: real, u: real, v: real)
    requires u < v
    ensures 0.0 < k ==> u * k < v * k
    ensures k < 0.0 ==> v * k < u * k
  {
    assert v * k - u * k == (v - u) * k;
    ProductSigns(v - u, k);
    ProductSigns(v - u, -k);
  }

  /** No false negatives: if the ray is strictly inside the box at a time in the interval, the test passes. */
  lemma InsidePointHits(b: Aabb, r: Ray, tMin: real, tMax: Limit, t: real)
    requires tMin < t && Below(t, tMax) && StrictlyInside(b, At(r, t))
    ensures Hits(b, r, tMin, tMax)
  {
    forall a: nat | a < 3
      ensures SlabAdmits(b, r, tMin, tMax, a)
    {
      assert Coord(b.min, a) < Coord(At(r, t), a) < Coord(b.max, a);
      if Coord(r.direction, a) == 0.0 {
        assert Coord(At(r, t), a) == Coord(r.origin, a);
      } else {
        SlabTimesAround(b, r, a, t);
      }
    }
  }

  /**
   * Because the interval is not narrowed from one axis to the next, the
   * test also passes for rays whose slab intervals do not overlap: this
   * ray crosses the x slab for t in (1, 2) and the y slab for t in (3, 4),
   * so it is never inside the box, yet the test passes.
   */
  lemma SeparateSlabsStillHit()
    ensures var b := Aabb(Vec3(1.0, 3.0, -10.0), Vec3(2.0, 4.0, 10.0));
            var r := Ray(Vec3(0.0, 0.0, 0.0), Vec3(1.0, 1.0, 1.0));
            Hits(b, r, 0.0, Finite(100.0)) && forall t: real :: !StrictlyInside(b, At(r, t))
  {
    var b := Aabb(Vec3(1.0, 3.0, -10.0), Vec3(2.0, 4.0, 10.0));
    var r := Ray(Vec3(0.0, 0.0, 0.0), Vec3(1.0, 1.0, 1.0));
    assert SlabTimes(b, r, 0) == (1.0, 2.0);
    assert SlabTimes(b, r, 1) == (3.0, 4.0);
    assert SlabTimes(b, r, 2) == (-10.0, 10.0);
    forall t: real
      ensures !StrictlyInside(b, At(r, t))
    {
      var p := At(r, t);
      assert Coord(p, 0) == t && Coord(p, 1) == t;
      assert Coord(b.max, 0) == 2.0 && Coord(b.min, 1) == 3.0;
    }
  }

  /** `AABB::surrounding_box`: the smallest box containing both boxes. */
  function SurroundingBox(box0: Aabb, box1: Aabb): (r: Aabb)
    ensures Contains(r, box0) && Contains(r, box1)
    ensures WellFormed(box0) || WellFormed(box1) ==> WellFormed(r)
  {
    Aabb(Vec3(Min(box0.min.x, box1.min.x), Min(box0.min.y, box1.min.y), Min(box0.min.z, box1.min.z)),
         Vec3(Max(box0.max.x, box1.max.x), Max(box0.max.y, box1.max.y), Max(box0.max.z, box1.max.z)))
  }

  /** Every box that contains both boxes contains their surrounding box. */
  lemma SurroundingBoxSmallest(box0: Aabb, box1: Aabb, c: Aabb)
    requires Contains(c, box0) && Contains(c, box1)
    ensures Contains(c, SurroundingBox(box0, box1))
  {
  }

  lemma SurroundingBoxCommutative(box0: Aabb, box1: Aabb)
    ensures SurroundingBox(box0, box1) == SurroundingBox(box1, box0)
  {
  }

  lemma SurroundingBoxIdempotent(b: Aabb)
    ensures SurroundingBox(b, b) == b
  {
  }
}
