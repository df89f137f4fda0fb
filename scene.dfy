/**
 * Loading a parsed scene description: its named materials go into a
 * material atlas, then every object is built as a sphere with the material
 * its name resolves to. Parsing itself is not modelled; the scene arrives
 * as a value.
 */
module Scenes {
  import opened Vectors
  import opened Wrappers
  import opened Materials
  import opened Spheres
  import opened MaterialAtlases
  import Hittables

  /** `Color3` and `Point`: three components as read from the scene file. */
  datatype Color3 = Color3(r: real, g: real, b: real)

  datatype Point = Point(x: real, y: real, z: real)

  /** `From<Color3> for Vec3`. */
  function FromColor3(c: Color3): Vec3 {
    Vec3(c.r, c.g, c.b)
  }

  /** `From<Point> for Vec3`. */
  function FromPoint(p: Point): Vec3 {
    Vec3(p.x, p.y, p.z)
  }

  /** Both conversions keep the components in order, so equal triples give equal vectors. */
  lemma ConversionsAgree(a: real, b: real, c: real)
    ensures FromColor3(Color3(a, b, c)) == FromPoint(Point(a, b, c)) == Vec3(a, b, c)
  {
  }

  /** The material variants of a scene file. */
  datatype SceneMaterial =
    | SceneDielectric(refractiveIndex: real)
    | SceneDiffuse(albedo: Point)
    | SceneMetal(metalAlbedo: Point, fuziness: real)

  /** The only geometry a scene object can have. */
  datatype Geometry = SphereGeometry(center: Point, radius: real)

  /** A scene object: an identifier, a geometry and the name of its material. */
  datatype SceneObject = SceneObject(objectId: string, geometry: Geometry, material: string)

  /** `Scene`: the objects in file order and the materials by name. */
  datatype Scene = Scene(objects: seq<SceneObject>, materials: map<string, SceneMaterial>)

  /** The material each variant is built into, through the matching constructor. */
  function Convert(sm: SceneMaterial): (mat: Material)
    ensures sm.SceneDielectric? <==> mat.Dielectric?
    ensures sm.SceneDiffuse? <==> mat.Diffuse?
    ensures sm.SceneMetal? <==> mat.Metal?
    ensures sm.SceneDielectric? ==> mat.refractiveIndex == sm.refractiveIndex
    ensures sm.SceneDiffuse? ==> Albedo(mat) == FromPoint(sm.albedo)
    ensures sm.SceneMetal? ==> Albedo(mat) == FromPoint(sm.metalAlbedo) && 0.0 <= mat.fuziness <= 1.0
    ensures sm.SceneMetal? && 0.0 <= sm.fuziness <= 1.0 ==> mat.fuziness == sm.fuziness
    ensures sm.SceneMetal? && sm.fuziness < 0.0 ==> mat.fuziness == 0.0
    ensures sm.SceneMetal? && sm.fuziness > 1.0 ==> mat.fuziness == 1.0
  {
    match sm
    case SceneDielectric(refractiveIndex) => NewDielectric(refractiveIndex)
    case SceneDiffuse(albedo) => NewDiffuse(FromPoint(albedo))
    case SceneMetal(albedo, fuziness) => NewMetal(FromPoint(albedo), fuziness)
  }

  /**
   * The atlas a scene produces: the default atlas, then every scene
   * material under its name. A scene material called "Default" replaces the
   * built-in one.
   */
  function AtlasOf(materials: map<string, SceneMaterial>): (atlas: map<string, Material>)
    ensures atlas.Keys == materials.Keys + {DefaultName}
    ensures forall name :: name in materials ==> atlas[name] == Convert(materials[name])
    ensures DefaultName !in materials ==> atlas[DefaultName] == DefaultDiffuse()
  {
    map name | name in materials.Keys + {DefaultName} ::
      if name in materials then Convert(materials[name]) else DefaultDiffuse()
  }

  /** The atlas after registering the materials named in `done`. */
  function PartialAtlas(materials: map<string, SceneMaterial>, done: set<string>): map<string, Material>
    requires done <= materials.Keys
  {
    map name | name in done + {DefaultName} ::
      if name in done then Convert(materials[name]) else DefaultDiffuse()
  }

  /**
   * The spheres the objects become, in order, or the error for the first
   * object whose material name is not registered.
   */
  function Resolve(atlas: map<string, Material>, objects: seq<SceneObject>): (r: Result<seq<Sphere>, string>)
    ensures r.Ok? <==> forall k :: 0 <= k < |objects| ==> objects[k].material in atlas
    ensures r.Ok? ==> |r.value| == |objects|
    ensures r.Ok? ==> forall k :: 0 <= k < |objects| ==>
              r.value[k] == Sphere(FromPoint(objects[k].geometry.center), objects[k].geometry.radius, atlas[objects[k].material])
    ensures r.Err? ==> exists k :: 0 <= k < |objects| && objects[k].material !in atlas
                                   && (forall q :: 0 <= q < k ==> objects[q].material in atlas)
                                   && r.error == "Cannot find material " + objects[k].material
    decreases |objects|
  {
    if |objects| == 0 then Ok([])
    else
      var obj := objects[0];
      match Lookup(atlas, obj.material)
      case None => Err("Cannot find material " + obj.material)
      case Some(mat) =>
        match Resolve(atlas, objects[1..])
        case Err(e) => Err(e)
        case Ok(rest) => Ok([Sphere(FromPoint(obj.geometry.center), obj.geometry.radius, mat)] + rest)
  }

  /** Objects after the first unresolvable one are never looked at: appending objects keeps the error. */
  lemma {:induction false} ErrorIgnoresLaterObjects(atlas: map<string, Material>, objects: seq<SceneObject>, more: seq<SceneObject>)
    requires Resolve(atlas, objects).Err?
    ensures Resolve(atlas, objects + more) == Resolve(atlas, objects)
    decreases |objects|
  {
    assert (objects + more)[0] == objects[0];
    assert (objects + more)[1..] == objects[1..] + more;
    if objects[0].material in atlas {
      ErrorIgnoresLaterObjects(atlas, objects[1..], more);
    }
  }

  /** What a successful conversion yields: the atlas and the spheres handed to the world builder. */
  datatype Loaded = Loaded(atlas: map<string, Material>, spheres: seq<Sphere>)

  /** The conversion as a whole. */
  function Load(scene: Scene): Result<Loaded, string> {
    var atlas := AtlasOf(scene.materials);
    match Resolve(atlas, scene.objects)
    case Ok(spheres) => Ok(Loaded(atlas, spheres))
    case Err(e) => Err(e)
  }

  /** The spheres built so far put in front of the outcome for the remaining objects. */
  function Prefixed(prefix: seq<Sphere>, r: Result<seq<Sphere>, string>): Result<seq<Sphere>, string> {
    match r
    case Ok(rest) => Ok(prefix + rest)
    case Err(e) => Err(e)
  }

  lemma PrefixedNothing(r: Result<seq<Sphere>, string>)
    ensures Prefixed([], r) == r
  {
    if r.Ok? {
      assert [] + r.value == r.value;
    }
  }

  lemma PrefixedTwice(a: seq<Sphere>, b: seq<Sphere>, r: Result<seq<Sphere>, string>)
    ensures Prefixed(a, Prefixed(b, r)) == Prefixed(a + b, r)
  {
    if r.Ok? {
      assert a + (b + r.value) == (a + b) + r.value;
    }
  }

  /** One step of `Resolve` from position `k`: an error at an unknown name, else one more sphere. */
  lemma ResolveFrom(atlas: map<string, Material>, objects: seq<SceneObject>, k: nat)
    requires k < |objects|
    ensures objects[k].material !in atlas ==>
              Resolve(atlas, objects[k..]) == Err("Cannot find material " + objects[k].material)
    ensures objects[k].material in atlas ==>
              var obj := objects[k];
              Resolve(atlas, objects[k..]) ==
                Prefixed([Sphere(FromPoint(obj.geometry.center), obj.geometry.radius, atlas[obj.material])],
                         Resolve(atlas, objects[k + 1..]))
  {
    assert objects[k..][0] == objects[k];
    assert objects[k..][1..] == objects[k + 1..];
  }

  /** Registering one more scene material extends the partial atlas by its conversion. */
  lemma PartialAtlasStep(materials: map<string, SceneMaterial>, done: set<string>, name: string)
    requires done <= materials.Keys && name in materials
    ensures PartialAtlas(materials, done + {name}) == PartialAtlas(materials, done)[name := Convert(materials[name])]
  {
  }

  /**
   * `TryFrom<Scene> for (MaterialAtlas, World)`: registers every material in
   * the map's own (unspecified) order, then resolves the objects one by one
   * and stops at the first unknown material name.
   */
  method TryFrom(scene: Scene) returns (result: Result<Loaded, string>)
    ensures result == Load(scene)
  {
    var atlas := new MaterialAtlas.Default();
    var pending := scene.materials.Keys;
    ghost var done: set<string> := {};
    while pending != {}
      invariant done + pending == scene.materials.Keys && done !! pending
      invariant atlas.atlas == PartialAtlas(scene.materials, done)
      decreases pending
    {
      var name :| name in pending;
      PartialAtlasStep(scene.materials, done, name);
      var _ := atlas.InsertMaterial(name, Convert(scene.materials[name]));
      pending := pending - {name};
      done := done + {name};
    }
    ghost var table := AtlasOf(scene.materials);
    assert atlas.atlas == table;
    var spheres: seq<Sphere> := [];
    assert scene.objects[0..] == scene.objects;
    PrefixedNothing(Resolve(table, scene.objects));
    for k := 0 to |scene.objects|
      invariant atlas.atlas == table
      invariant Resolve(table, scene.objects) == Prefixed(spheres, Resolve(table, scene.objects[k..]))
    {
      var obj := scene.objects[k];
      ResolveFrom(table, scene.objects, k);
      match atlas.GetMaterial(obj.material) {
        case None =>
          return Err("Cannot find material " + obj.material);
        case Some(mat) =>
          var sphere := Sphere(FromPoint(obj.geometry.center), obj.geometry.radius, mat);
          PrefixedTwice(spheres, [sphere], Resolve(table, scene.objects[k + 1..]));
          spheres := spheres + [sphere];
      }
    }
    assert scene.objects[|scene.objects|..] == [];
    assert spheres + [] == spheres;
    return Ok(Loaded(atlas.atlas, spheres));
  }

  /** A scene whose dielectric indices are neither 0 nor -1 yields only materials that can scatter. */
  lemma LoadedMaterialsValid(scene: Scene)
    requires forall name :: name in scene.materials && scene.materials[name].SceneDielectric? ==>
               scene.materials[name].refractiveIndex != 0.0 && scene.materials[name].refractiveIndex != -1.0
    ensures Load(scene).Ok? ==>
              AllValid(Load(scene).value.atlas)
              && Hittables.AllMaterials(Hittables.List(SphereItems(Load(scene).value.spheres)), ValidMaterial)
  {
    var atlas := AtlasOf(scene.materials);
    assert AllValid(atlas);
    match Resolve(atlas, scene.objects)
    case Err(_) =>
    case Ok(spheres) =>
      forall k | 0 <= k < |spheres|
        ensures ValidMaterial(spheres[k].material)
      {
        assert spheres[k].material == atlas[scene.objects[k].material];
      }
  }

  /** The spheres as the items of a hittable list. */
  function SphereItems(spheres: seq<Sphere>): (items: seq<Hittables.Hittable>)
    ensures |items| == |spheres|
    ensures forall k :: 0 <= k < |spheres| ==> items[k] == Hittables.SphereObject(spheres[k])
  {
    seq(|spheres|, k requires 0 <= k < |spheres| => Hittables.SphereObject(spheres[k]))
  }
}
