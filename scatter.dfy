/**
 * How each material scatters an incoming ray at a hit, with the random
 * samples it draws passed in as parameters.
 */
module Scattering {
  import opened Vectors
  import opened Wrappers
  import opened Utils
  import opened Materials
  import opened Records

  /**
   * The random samples one scattering event may consume: a unit vector
   * (`random_unit_vector`), a point inside the unit sphere
   * (`random_in_unit_sphere`) and a uniform number in [0, 1)
   * (`rand::random::<f32>()`).
   */
  datatype Draw = Draw(unitVector: Vec3, inUnitSphere: Vec3, uniform: real)

  /** `Diffuse::scatter`: the normal plus a random unit vector, from the hit point. */
  function DiffuseScatter(rec: HitRecord, unitVector: Vec3): (s: Option<Ray>)
    ensures s.Some? && s.value.origin == rec.point
    ensures Sub(s.value.direction, rec.normal) == unitVector
  {
    Some(Ray(rec.point, Add(rec.normal, unitVector)))
  }

  /** The mirror reflection of the incoming direction, perturbed by the fuziness. */
  function MetalDirection(fuziness: real, rayIn: Ray, rec: HitRecord, inUnitSphere: Vec3, m: Maths): Vec3 {
    Add(m.normalize(m.reflect(rayIn.direction, rec.normal)), Scale(fuziness, inUnitSphere))
  }

  /** `Metal::scatter`: absorbed when the perturbed reflection points into the surface. */
  function MetalScatter(fuziness: real, rayIn: Ray, rec: HitRecord, inUnitSphere: Vec3, m: Maths): (s: Option<Ray>)
    ensures s.Some? <==> Dot(MetalDirection(fuziness, rayIn, rec, inUnitSphere, m), rec.normal) > 0.0
    ensures s.Some? ==> s.value.origin == rec.point && s.value.direction == MetalDirection(fuziness, rayIn, rec, inUnitSphere, m)
  {
    var reflected := MetalDirection(fuziness, rayIn, rec, inUnitSphere, m);
    if Dot(reflected, rec.normal) > 0.0 then Some(Ray(rec.point, reflected)) else None
  }

  /** With no fuziness the metal is a perfect mirror, whatever the sample. */
  lemma MetalWithoutFuzzIsMirror(rayIn: Ray, rec: HitRecord, inUnitSphere: Vec3, m: Maths)
    ensures MetalDirection(0.0, rayIn, rec, inUnitSphere, m) == m.normalize(m.reflect(rayIn.direction, rec.normal))
  {
  }

  /** `etai_over_etat`: `1 / index` entering through a front face, `index` leaving. */
  function IndexRatio(refractiveIndex: real, frontFace: bool): (ratio: real)
    requires frontFace ==> refractiveIndex != 0.0
    ensures frontFace ==> ratio * refractiveIndex == 1.0
    ensures !frontFace ==> ratio == refractiveIndex
  {
    if frontFace then 1.0 / refractiveIndex else refractiveIndex
  }

  /** `cos_theta`, capped at 1. */
  function CosTheta(unitDirection: Vec3, normal: Vec3): (c: real)
    ensures c <= 1.0
    ensures Dot(Neg(unitDirection), normal) <= 1.0 ==> c == Dot(Neg(unitDirection), normal)
  {
    Min(Dot(Neg(unitDirection), normal), 1.0)
  }

  /** `ratio * sin_theta > 1`: refraction is impossible. */
  predicate TotalInternalReflection(ratio: real, cosTheta: real, m: Maths) {
    ratio * m.sqrt(1.0 - cosTheta * cosTheta) > 1.0
  }

  /** Whether a dielectric reflects, given the uniform draw. */
  predicate DielectricReflects(refractiveIndex: real, rayIn: Ray, rec: HitRecord, uniform: real, m: Maths)
    requires refractiveIndex != 0.0 && refractiveIndex != -1.0
  {
    var ratio := IndexRatio(refractiveIndex, rec.frontFace);
    var cosTheta := CosTheta(m.normalize(rayIn.direction), rec.normal);
    TotalInternalReflection(ratio, cosTheta, m) || uniform < Schlick(cosTheta, ratio)
  }

  /**
   * `Dielectric::scatter`: never absorbs. It reflects under total internal
   * reflection, and otherwise reflects when the draw falls below Schlick's
   * reflectance for the index ratio, refracting when it does not.
   */
  function DielectricScatter(refractiveIndex: real, rayIn: Ray, rec: HitRecord, uniform: real, m: Maths): (s: Option<Ray>)
    requires refractiveIndex != 0.0 && refractiveIndex != -1.0
    ensures s.Some? && s.value.origin == rec.point
    ensures var unit := m.normalize(rayIn.direction);
            s.value.direction ==
              if DielectricReflects(refractiveIndex, rayIn, rec, uniform, m) then m.reflect(unit, rec.normal)
              else m.refract(unit, rec.normal, IndexRatio(refractiveIndex, rec.frontFace))
  {
    var ratio := IndexRatio(refractiveIndex, rec.frontFace);
    var unit := m.normalize(rayIn.direction);
    var cosTheta := CosTheta(unit, rec.normal);
    if TotalInternalReflection(ratio, cosTheta, m) then
      Some(Ray(rec.point, m.reflect(unit, rec.normal)))
    else if uniform < Schlick(cosTheta, ratio) then
      Some(Ray(rec.point, m.reflect(unit, rec.normal)))
    else
      Some(Ray(rec.point, m.refract(unit, rec.normal, ratio)))
  }

  /** Under total internal reflection the draw does not matter. */
  lemma TotalInternalReflectionIgnoresDraw(refractiveIndex: real, rayIn: Ray, rec: HitRecord, u1: real, u2: real, m: Maths)
    requires refractiveIndex != 0.0 && refractiveIndex != -1.0
    requires TotalInternalReflection(IndexRatio(refractiveIndex, rec.frontFace),
                                     CosTheta(m.normalize(rayIn.direction), rec.normal), m)
    ensures DielectricScatter(refractiveIndex, rayIn, rec, u1, m) == DielectricScatter(refractiveIndex, rayIn, rec, u2, m)
  {
  }

  /**
   * An index of 1 does not make the surface transparent: at grazing
   * incidence through a front face Schlick's reflectance is 1, so every
   * draw in [0, 1) reflects.
   */
  lemma IndexOneGrazingAlwaysReflects(rayIn: Ray, rec: HitRecord, uniform: real, m: Maths)
    requires rec.frontFace && 0.0 <= uniform < 1.0
    requires CosTheta(m.normalize(rayIn.direction), rec.normal) == 0.0
    ensures DielectricReflects(1.0, rayIn, rec, uniform, m)
    ensures DielectricScatter(1.0, rayIn, rec, uniform, m).value.direction
            == m.reflect(m.normalize(rayIn.direction), rec.normal)
  {
    assert IndexRatio(1.0, true) == 1.0;
    assert Schlick(0.0, 1.0) == 1.0;
  }

  /** `Material::scatter`, dispatched on the material. */
  function Scatter(mat: Material, rayIn: Ray, rec: HitRecord, draw: Draw, m: Maths): (s: Option<Ray>)
    requires ValidMaterial(mat)
    ensures s.Some? ==> s.value.origin == rec.point
    ensures mat.Diffuse? || mat.Dielectric? ==> s.Some?
  {
    match mat
    case Diffuse(_) => DiffuseScatter(rec, draw.unitVector)
    case Metal(_, fuziness) => MetalScatter(fuziness, rayIn, rec, draw.inUnitSphere, m)
    case Dielectric(refractiveIndex) => DielectricScatter(refractiveIndex, rayIn, rec, draw.uniform, m)
  }
}
