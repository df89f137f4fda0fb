/** `MaterialAtlas`: materials registered under a name. */
module MaterialAtlases {
  import opened Wrappers
  import opened Materials

  /** The name under which the default material is registered. */
  const DefaultName: string := "Default"

  /** The material registered under `name`, if any. */
  function Lookup(atlas: map<string, Material>, name: string): (r: Option<Material>)
    ensures r.Some? <==> name in atlas
    ensures r.Some? ==> atlas[name] == r.value
  {
    if name in atlas then Some(atlas[name]) else None
  }

  /** Registering a material makes a lookup of its name return it. */
  lemma LookupAfterInsert(atlas: map<string, Material>, name: string, mat: Material)
    ensures Lookup(atlas[name := mat], name) == Some(mat)
  {
  }

  /** Registering a material leaves every other name as it was. */
  lemma InsertKeepsOthers(atlas: map<string, Material>, name: string, mat: Material, other: string)
    requires other != name
    ensures Lookup(atlas[name := mat], other) == Lookup(atlas, other)
  {
  }

  /** Every registered material can scatter over the reals. */
  predicate AllValid(atlas: map<string, Material>) {
    forall name :: name in atlas ==> ValidMaterial(atlas[name])
  }

  class MaterialAtlas {
    var atlas: map<string, Material>

    /** `MaterialAtlas::default`: only the default diffuse material, under "Default". */
    constructor Default()
      ensures atlas == map[DefaultName := DefaultDiffuse()]
      ensures AllValid(atlas)
    {
      atlas := map[DefaultName := DefaultDiffuse()];
    }

    /**
     * `insert_material`: registers `mat` under `name`, replacing and
     * returning any material registered there before.
     */
    method InsertMaterial(name: string, mat: Material) returns (previous: Option<Material>)
      modifies this
      ensures atlas == old(atlas)[name := mat]
      ensures previous == Lookup(old(atlas), name)
      ensures GetMaterial(name) == Some(mat)
      ensures forall other :: other != name ==> GetMaterial(other) == Lookup(old(atlas), other)
      ensures AllValid(old(atlas)) && ValidMaterial(mat) ==> AllValid(atlas)
    {
      previous := Lookup(atlas, name);
      atlas := atlas[name := mat];
    }

    /** `get_material`: the material registered under `name`, if any. */
    function GetMaterial(name: string): (r: Option<Material>)
      reads this
      ensures r.Some? <==> name in atlas
      ensures r.Some? ==> r.value == atlas[name]
    {
      Lookup(atlas, name)
    }
  }

  /** A default atlas knows "Default" and no other name. */
  lemma DefaultKnowsOnlyDefault(name: string)
    ensures Lookup(map[DefaultName := DefaultDiffuse()], name).Some? <==> name == DefaultName
  {
  }
}
