/** Spheres: the ray-sphere intersection and the sphere's bounding box. */
module Spheres {
  import opened Vectors
  import opened Wrappers
  import opened Materials
  import opened Records
  import opened Boxes

  datatype Sphere = Sphere(center: Vec3, radius: real, material: Material)

  /** `Sphere::new` of the older scene code: no material means a default diffuse one. */
  function NewSphere(center: Vec3, radius: real, material: Option<Material>): (s: Sphere)
    ensures s.center == center && s.radius == radius
    ensures material.Some? ==> s.material == material.value
    ensures material.None? ==> s.material == DefaultDiffuse()
  {
    Sphere(center, radius, match material case Some(mat) => mat case None => DefaultDiffuse())
  }

  /** The coefficients of `a t^2 + 2 half_b t + c = 0` for `|origin + t direction - center|^2 = radius^2`. */
  function QuadA(r: Ray): real { Length2(r.direction) }

  function HalfB(s: Sphere, r: Ray): real { Dot(Sub(r.origin, s.center), r.direction) }

  function QuadC(s: Sphere, r: Ray): real { Length2(Sub(r.origin, s.center)) - s.radius * s.radius }

  function Discriminant(s: Sphere, r: Ray): real {
    HalfB(s, r) * HalfB(s, r) - QuadA(r) * QuadC(s, r)
  }

  /**
   * A positive discriminant needs a nonzero direction and a nonzero radius,
   * so both divisions of the intersection are defined (Lagrange's identity
   * bounds `half_b^2` by `a |oc|^2`).
   */
  lemma PositiveDiscriminant(s: Sphere, r: Ray)
    requires Discriminant(s, r) > 0.0
    ensures QuadA(r) > 0.0 && s.radius != 0.0
  {
    var oc := Sub(r.origin, s.center);
    var a := QuadA(r);
    var rr := s.radius * s.radius;
    Lagrange(oc, r.direction);
    assert a * (Length2(oc) - rr) == a * Length2(oc) - a * rr;
    assert 0.0 < a * rr;
    SquareNonneg(r.direction.x);
    SquareNonneg(r.direction.y);
    SquareNonneg(r.direction.z);
  }

  /** Lagrange's identity in three dimensions, as the Cauchy-Schwarz bound it gives. */
  lemma Lagrange(u: Vec3, v: Vec3)
    ensures Dot(u, v) * Dot(u, v) <= Length2(u) * Length2(v)
  {
    LagrangeIdentity(u.x, u.y, u.z, v.x, v.y, v.z);
  }

  lemma LagrangeIdentity(a: real, b: real, c: real, x: real, y: real, z: real)
    ensures (a * x + b * y + c * z) * (a * x + b * y + c * z) <= (a * a + b * b + c * c) * (x * x + y * y + z * z)
  {
    var p, q, w := b * z - c * y, c * x - a * z, a * y - b * x;
    assert p * p == b * b * (z * z) - 2.0 * (b * z) * (c * y) + c * c * (y * y);
    assert q * q == c * c * (x * x) - 2.0 * (c * x) * (a * z) + a * a * (z * z);
    assert w * w == a * a * (y * y) - 2.0 * (a * y) * (b * x) + b * b * (x * x);
    assert (a * a + b * b + c * c) * (x * x + y * y + z * z)
      == a * a * (x * x) + a * a * (y * y) + a * a * (z * z)
       + b * b * (x * x) + b * b * (y * y) + b * b * (z * z)
       + c * c * (x * x) + c * c * (y * y) + c * c * (z * z);
    assert (a * x + b * y + c * z) * (a * x + b * y + c * z)
      == a * a * (x * x) + b * b * (y * y) + c * c * (z * z)
       + 2.0 * (a * x) * (b * y) + 2.0 * (a * x) * (c * z) + 2.0 * (b * y) * (c * z);
    SquareNonneg(p);
    SquareNonneg(q);
    SquareNonneg(w);
  }

  /** The nearer root `(-half_b - sqrt(disc)) / a`. */
  function NearRoot(s: Sphere, r: Ray, m: Maths): real
    requires Discriminant(s, r) > 0.0
  {
    PositiveDiscriminant(s, r);
    (-HalfB(s, r) - m.sqrt(Discriminant(s, r))) / QuadA(r)
  }

  /** The farther root `(-half_b + sqrt(disc)) / a`. */
  function FarRoot(s: Sphere, r: Ray, m: Maths): real
    requires Discriminant(s, r) > 0.0
  {
    PositiveDiscriminant(s, r);
    (-HalfB(s, r) + m.sqrt(Discriminant(s, r))) / QuadA(r)
  }

  /** The record for a hit at time `t`, with outward normal `(point - center) / radius`. */
  function RecordAt(s: Sphere, r: Ray, t: real): HitRecord
    requires s.radius != 0.0
  {
    NewHitRecord(r, t, Div(Sub(At(r, t), s.center), s.radius), s.material)
  }

  /** `Sphere::hit`: the nearer root if it lies in the interval, else the farther one. */
  function SphereHit(s: Sphere, r: Ray, tMin: real, tMax: Limit, m: Maths): (rec: Option<HitRecord>)
    ensures Discriminant(s, r) <= 0.0 ==> rec.None?
    ensures rec.Some? ==> InInterval(rec.value.t, tMin, tMax) && rec.value.material == s.material
    ensures Discriminant(s, r) > 0.0 ==> (
      s.radius != 0.0 &&
      (InInterval(NearRoot(s, r, m), tMin, tMax) ==> rec == Some(RecordAt(s, r, NearRoot(s, r, m)))) &&
      (!InInterval(NearRoot(s, r, m), tMin, tMax) && InInterval(FarRoot(s, r, m), tMin, tMax) ==>
         rec == Some(RecordAt(s, r, FarRoot(s, r, m)))) &&
      (!InInterval(NearRoot(s, r, m), tMin, tMax) && !InInterval(FarRoot(s, r, m), tMin, tMax) ==> rec.None?))
  {
    if Discriminant(s, r) > 0.0 then
      PositiveDiscriminant(s, r);
      var near := NearRoot(s, r, m);
      if InInterval(near, tMin, tMax) then
        Some(RecordAt(s, r, near))
      else
        var far := FarRoot(s, r, m);
        if InInterval(far, tMin, tMax) then Some(RecordAt(s, r, far)) else None
    else
      None
  }

  /** With a true square root the nearer root does not exceed the farther one. */
  lemma RootsOrdered(s: Sphere, r: Ray, m: Maths)
    requires SqrtLaw(m) && Discriminant(s, r) > 0.0
    ensures NearRoot(s, r, m) <= FarRoot(s, r, m)
  {
    PositiveDiscriminant(s, r);
    var root := m.sqrt(Discriminant(s, r));
    assert 0.0 <= root;
    var a := QuadA(r);
    assert (-HalfB(s, r) - root) <= (-HalfB(s, r) + root);
    DivMonotone(-HalfB(s, r) - root, -HalfB(s, r) + root, QuadA(r));
  }

  lemma DivMonotone(x: real, y: real, a: real)
    requires x <= y && a > 0.0
    ensures x / a <= y / a
  {
    assert y / a - x / a == (y - x) / a;
  }

  /** `t` solves `a t^2 + 2 half_b t + c = 0`. */
  predicate SolvesQuadratic(s: Sphere, r: Ray, t: real) {
    QuadA(r) * t * t + 2.0 * HalfB(s, r) * t + QuadC(s, r) == 0.0
  }

  /** `p` is `radius` away from the center. */
  predicate OnSurface(s: Sphere, p: Vec3) {
    Length2(Sub(p, s.center)) == s.radius * s.radius
  }

  /** A root of the quadratic puts the point on the sphere's surface. */
  lemma RootOnSurface(s: Sphere, r: Ray, t: real)
    requires SolvesQuadratic(s, r, t)
    ensures OnSurface(s, At(r, t))
  {
    var oc := Sub(r.origin, s.center);
    assert Sub(At(r, t), s.center) == Add(oc, Scale(t, r.direction));
  }

  /** Each root solves the quadratic. */
  lemma RootsSolve(s: Sphere, r: Ray, m: Maths, t: real)
    requires SqrtLaw(m) && Discriminant(s, r) > 0.0
    requires t == NearRoot(s, r, m) || t == FarRoot(s, r, m)
    ensures SolvesQuadratic(s, r, t)
  {
    PositiveDiscriminant(s, r);
    var root := m.sqrt(Discriminant(s, r));
    assert root * root == Discriminant(s, r);
    var a, hb, c := QuadA(r), HalfB(s, r), QuadC(s, r);
    assert a * t + hb == root || a * t + hb == -root;
    assert (a * t + hb) * (a * t + hb) == hb * hb - a * c;
    assert a * (a * t * t + 2.0 * hb * t + c) == 0.0;
  }

  /** A returned hit lies on the sphere: its time solves the quadratic and its point is `radius` from the center. */
  lemma SphereHitOnSurface(s: Sphere, r: Ray, tMin: real, tMax: Limit, m: Maths)
    requires SqrtLaw(m)
    ensures var rec := SphereHit(s, r, tMin, tMax, m);
            rec.Some? ==> SolvesQuadratic(s, r, rec.value.t) && OnSurface(s, rec.value.point)
  {
    var rec := SphereHit(s, r, tMin, tMax, m);
    if rec.Some? {
      SphereHitIsRoot(s, r, tMin, tMax, m);
      var t := rec.value.t;
      RootsSolve(s, r, m, t);
      RootOnSurface(s, r, t);
    }
  }

  /** A returned record sits at one of the two roots, at the point the ray reaches then. */
  lemma SphereHitIsRoot(s: Sphere, r: Ray, tMin: real, tMax: Limit, m: Maths)
    ensures var rec := SphereHit(s, r, tMin, tMax, m);
            rec.Some? ==>
              Discriminant(s, r) > 0.0 &&
              (rec.value.t == NearRoot(s, r, m) || rec.value.t == FarRoot(s, r, m)) &&
              rec.value.point == At(r, rec.value.t)
  {
  }

  /** Lowering the upper bound to `b` keeps exactly the hits below `b`. */
  lemma SphereHitBounded(s: Sphere, r: Ray, tMin: real, tMax: Limit, b: real, m: Maths)
    requires SqrtLaw(m) && AtMost(b, tMax)
    ensures SphereHit(s, r, tMin, Finite(b), m) == Cut(SphereHit(s, r, tMin, tMax, m), b)
  {
    if Discriminant(s, r) > 0.0 {
      RootsOrdered(s, r, m);
    }
  }

  /** `Sphere::bounding_box`: the center plus and minus the radius on every axis. */
  function SphereBox(s: Sphere): (b: Aabb)
    ensures s.radius >= 0.0 ==> WellFormed(b)
    ensures s.radius >= 0.0 ==> forall p :: Length2(Sub(p, s.center)) <= s.radius * s.radius ==> InClosedBox(b, p)
  {
    var rr := Vec3(s.radius, s.radius, s.radius);
    var b := Aabb(Sub(s.center, rr), Add(s.center, rr));
    forall p | Length2(Sub(p, s.center)) <= s.radius * s.radius && s.radius >= 0.0
      ensures InClosedBox(b, p)
    {
      var q := Sub(p, s.center);
      SquareBound(q.x, s.radius, q.y * q.y + q.z * q.z);
      SquareBound(q.y, s.radius, q.x * q.x + q.z * q.z);
      SquareBound(q.z, s.radius, q.x * q.x + q.y * q.y);
    }
    b
  }

  /** A square no larger than `r^2` (with something non-negative added) bounds the value by `r`. */
  lemma SquareBound(x: real, r: real, rest: real)
    requires 0.0 <= r && 0.0 <= rest && x * x + rest <= r * r
    ensures -r <= x <= r
  {
    if x > r {
      PositiveProduct(x - r, x + r);
    } else if x < -r {
      PositiveProduct(-x - r, -x + r);
    }
  }

  /** `p` lies between the corners of `b`, boundary included. */
  predicate InClosedBox(b: Aabb, p: Vec3) {
    b.min.x <= p.x <= b.max.x && b.min.y <= p.y <= b.max.y && b.min.z <= p.z <= b.max.z
  }
}
