/** The record of a ray hitting a surface. */
module Records {
  import opened Vectors
  import opened Materials
  import opened Wrappers

  datatype HitRecord = HitRecord(point: Vec3, normal: Vec3, t: real, frontFace: bool, material: Material)

  /**
   * `HitRecord::new`: the ray hits the front face when it travels against
   * the outward normal; the stored normal always opposes the ray.
   */
  function NewHitRecord(r: Ray, t: real, outwardNormal: Vec3, material: Material): (rec: HitRecord)
    ensures rec.frontFace <==> Dot(r.direction, outwardNormal) < 0.0
    ensures rec.frontFace ==> rec.normal == outwardNormal
    ensures !rec.frontFace ==> rec.normal == Neg(outwardNormal)
    ensures Dot(r.direction, rec.normal) <= 0.0
    ensures rec.point == At(r, t) && rec.t == t && rec.material == material
  {
    var frontFace := Dot(r.direction, outwardNormal) < 0.0;
    var normal := if frontFace then outwardNormal else Neg(outwardNormal);
    HitRecord(At(r, t), normal, t, frontFace, material)
  }

  /** The record if it lies below `bound`, otherwise no record. */
  function Cut(rec: Option<HitRecord>, bound: real): Option<HitRecord> {
    if rec.Some? && rec.value.t < bound then rec else None
  }

  /** `t` lies strictly inside the interval `(tMin, tMax)`. */
  predicate InInterval(t: real, tMin: real, tMax: Limit) {
    tMin < t && Below(t, tMax)
  }
}
