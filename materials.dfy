/** The three surface materials, their constructors, defaults and albedos. */
module Materials {
  import opened Vectors

  datatype Material =
    | Diffuse(diffuseAlbedo: Vec3)
    | Metal(metalAlbedo: Vec3, fuziness: real)
    | Dielectric(refractiveIndex: real)

  /** `Diffuse::new`. */
  function NewDiffuse(albedo: Vec3): (mat: Material)
    ensures mat.Diffuse? && Albedo(mat) == albedo
  {
    Diffuse(albedo)
  }

  /** `Diffuse::default`: a mid-grey diffuse surface. */
  function DefaultDiffuse(): (mat: Material)
    ensures mat.Diffuse? && Albedo(mat) == Vec3(0.5, 0.5, 0.5)
  {
    Diffuse(Vec3(0.5, 0.5, 0.5))
  }

  /** `Metal::new`: the fuziness is clamped into [0, 1]. */
  function NewMetal(albedo: Vec3, fuziness: real): (mat: Material)
    ensures mat.Metal? && Albedo(mat) == albedo
    ensures 0.0 <= mat.fuziness <= 1.0
    ensures 0.0 <= fuziness <= 1.0 ==> mat.fuziness == fuziness
    ensures fuziness < 0.0 ==> mat.fuziness == 0.0
    ensures fuziness > 1.0 ==> mat.fuziness == 1.0
  {
    Metal(albedo, Min(1.0, Max(0.0, fuziness)))
  }

  /** `Metal::default`: a mid-grey perfect mirror. */
  function DefaultMetal(): (mat: Material)
    ensures mat.Metal? && Albedo(mat) == Vec3(0.5, 0.5, 0.5) && mat.fuziness == 0.0
  {
    Metal(Vec3(0.5, 0.5, 0.5), 0.0)
  }

  /** `Dielectric::new`. */
  function NewDielectric(refractiveIndex: real): (mat: Material)
    ensures mat.Dielectric? && mat.refractiveIndex == refractiveIndex && Albedo(mat) == White
  {
    Dielectric(refractiveIndex)
  }

  /** `Dielectric::default`: refractive index 0.5. */
  function DefaultDielectric(): (mat: Material)
    ensures mat.Dielectric? && mat.refractiveIndex == 0.5 && Albedo(mat) == White
  {
    Dielectric(0.5)
  }

  /** `Material::albedo`: the stored albedo; a dielectric is always white. */
  function Albedo(mat: Material): (c: Vec3)
    ensures mat.Dielectric? ==> c == White
    ensures mat.Diffuse? ==> c == mat.diffuseAlbedo
    ensures mat.Metal? ==> c == mat.metalAlbedo
  {
    match mat
    case Diffuse(albedo) => albedo
    case Metal(albedo, _) => albedo
    case Dielectric(_) => White
  }

  /**
   * Materials whose scattering is defined over the reals: a dielectric's
   * index must keep `1 / index` and `1 + ratio` away from zero.
   */
  predicate ValidMaterial(mat: Material) {
    mat.Dielectric? ==> mat.refractiveIndex != 0.0 && mat.refractiveIndex != -1.0
  }
}
