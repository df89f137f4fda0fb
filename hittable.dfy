/**
 * Everything a ray can hit: a sphere, a list of hittables scanned for the
 * closest hit, or a node of a bounding volume hierarchy.
 */
module Hittables {
  import opened Vectors
  import opened Wrappers
  import opened Records
  import opened Boxes
  import opened Spheres
  import Materials

  datatype Hittable =
    | SphereObject(sphere: Sphere)
    | List(items: seq<Hittable>)
    | BvhNode(left: Hittable, right: Hittable, aabb: Aabb)

  /**
   * `Hittable::hit`. A list scans its items in order, narrowing the upper
   * bound to each record found. A BVH node tests its box, probes the left
   * child over the whole interval and the right child up to the left hit,
   * and returns the left record whenever there is one.
   */
  function Hit(h: Hittable, r: Ray, tMin: real, tMax: Limit, m: Maths): (rec: Option<HitRecord>)
    ensures rec.Some? ==> InInterval(rec.value.t, tMin, tMax)
    decreases h
  {
    match h
    case SphereObject(s) => SphereHit(s, r, tMin, tMax, m)
    case List(items) => ScanList(items, r, tMin, tMax, None, m)
    case BvhNode(left, right, box) =>
      if Hits(box, r, tMin, tMax) then
        var recLeft := Hit(left, r, tMin, tMax, m);
        var recRight := Hit(right, r, tMin, if recLeft.Some? then Finite(recLeft.value.t) else tMax, m);
        if recLeft.Some? then recLeft else if recRight.Some? then recRight else None
      else
        None
  }

  /** The loop of `HittableList::hit` from the state (`closest_so_far`, `closest_hit_record`) onwards. */
  function ScanList(items: seq<Hittable>, r: Ray, tMin: real, closest: Limit, acc: Option<HitRecord>, m: Maths): (rec: Option<HitRecord>)
    ensures rec == acc || (rec.Some? && InInterval(rec.value.t, tMin, closest))
    decreases items
  {
    if |items| == 0 then acc
    else
      match Hit(items[0], r, tMin, closest, m)
      case Some(rec) => ScanList(items[1..], r, tMin, Finite(rec.t), Some(rec), m)
      case None => ScanList(items[1..], r, tMin, closest, acc, m)
  }

  /** `o` if it holds a record, else `acc`. */
  function Keep(o: Option<HitRecord>, acc: Option<HitRecord>): Option<HitRecord> {
    if o.Some? then o else acc
  }

  /** Every returned record lies strictly inside the interval. */
  lemma HitInInterval(h: Hittable, r: Ray, tMin: real, tMax: Limit, m: Maths)
    ensures Hit(h, r, tMin, tMax, m).Some? ==> InInterval(Hit(h, r, tMin, tMax, m).value.t, tMin, tMax)
    decreases h
  {
    match h
    case SphereObject(_) =>
    case List(items) =>
      ScanInInterval(items, r, tMin, tMax, None, m);
    case BvhNode(left, right, box) =>
      var recLeft := Hit(left, r, tMin, tMax, m);
      HitInInterval(left, r, tMin, tMax, m);
      HitInInterval(right, r, tMin, if recLeft.Some? then Finite(recLeft.value.t) else tMax, m);
  }

  /** The scan returns the record it started with or one inside its current bound. */
  lemma ScanInInterval(items: seq<Hittable>, r: Ray, tMin: real, closest: Limit, acc: Option<HitRecord>, m: Maths)
    ensures var o := ScanList(items, r, tMin, closest, acc, m);
            o == acc || (o.Some? && InInterval(o.value.t, tMin, closest))
    decreases items
  {
    if |items| > 0 {
      HitInInterval(items[0], r, tMin, closest, m);
      match Hit(items[0], r, tMin, closest, m)
      case Some(rec) => ScanInInterval(items[1..], r, tMin, Finite(rec.t), Some(rec), m);
      case None => ScanInInterval(items[1..], r, tMin, closest, acc, m);
    }
  }

  /** The record the scan starts with matters only when nothing is found. */
  lemma {:induction false} ScanKeeps(items: seq<Hittable>, r: Ray, tMin: real, closest: Limit, acc: Option<HitRecord>, m: Maths)
    ensures ScanList(items, r, tMin, closest, acc, m) == Keep(ScanList(items, r, tMin, closest, None, m), acc)
    decreases items
  {
    if |items| > 0 {
      match Hit(items[0], r, tMin, closest, m)
      case Some(rec) => ScanKeeps(items[1..], r, tMin, Finite(rec.t), Some(rec), m);
      case None => ScanKeeps(items[1..], r, tMin, closest, acc, m);
    }
  }

  /** Hittables without BVH nodes: spheres and (nested) lists of them. */
  predicate NoBvh(h: Hittable)
    decreases h
  {
    match h
    case SphereObject(_) => true
    case List(items) => forall k :: 0 <= k < |items| ==> NoBvh(items[k])
    case BvhNode(_, _, _) => false
  }

  /**
   * Without BVH nodes, searching up to `b` finds exactly the records the
   * full search finds below `b`.
   */
  lemma HitBounded(h: Hittable, r: Ray, tMin: real, tMax: Limit, b: real, m: Maths)
    requires SqrtLaw(m) && NoBvh(h) && AtMost(b, tMax)
    ensures Hit(h, r, tMin, Finite(b), m) == Cut(Hit(h, r, tMin, tMax, m), b)
    decreases h
  {
    match h
    case SphereObject(s) => SphereHitBounded(s, r, tMin, tMax, b, m);
    case List(items) => ScanBounded(items, r, tMin, tMax, b, m);
  }

  lemma ScanBounded(items: seq<Hittable>, r: Ray, tMin: real, closest: Limit, b: real, m: Maths)
    requires SqrtLaw(m) && AtMost(b, closest)
    requires forall k :: 0 <= k < |items| ==> NoBvh(items[k])
    ensures ScanList(items, r, tMin, Finite(b), None, m) == Cut(ScanList(items, r, tMin, closest, None, m), b)
    decreases items
  {
    if |items| > 0 {
      var rest := items[1..];
      HitBounded(items[0], r, tMin, closest, b, m);
      match Hit(items[0], r, tMin, closest, m)
      case None =>
        ScanBounded(rest, r, tMin, closest, b, m);
      case Some(rec) =>
        if rec.t < b {
          ScanInInterval(rest, r, tMin, Finite(rec.t), Some(rec), m);
        } else {
          ScanBounded(rest, r, tMin, Finite(rec.t), b, m);
          ScanKeeps(rest, r, tMin, Finite(rec.t), Some(rec), m);
        }
    }
  }

  /** The nearer of two optional records; on a tie the earlier one is kept. */
  function Closer(best: Option<HitRecord>, candidate: Option<HitRecord>): Option<HitRecord> {
    if candidate.Some? && (best.None? || candidate.value.t < best.value.t) then candidate else best
  }

  /** The nearest record among the items, each searched over the whole interval. */
  function NearestOf(items: seq<Hittable>, r: Ray, tMin: real, tMax: Limit, best: Option<HitRecord>, m: Maths): Option<HitRecord>
    decreases |items|
  {
    if |items| == 0 then best else NearestOf(items[1..], r, tMin, tMax, Closer(best, Hit(items[0], r, tMin, tMax, m)), m)
  }

  /** The upper bound the scan uses while holding `best`. */
  function BoundOf(best: Option<HitRecord>, tMax: Limit): Limit {
    if best.Some? then Finite(best.value.t) else tMax
  }

  lemma {:induction false} ScanIsNearest(items: seq<Hittable>, r: Ray, tMin: real, tMax: Limit, best: Option<HitRecord>, m: Maths)
    requires SqrtLaw(m) && forall k :: 0 <= k < |items| ==> NoBvh(items[k])
    requires best.Some? ==> AtMost(best.value.t, tMax)
    ensures ScanList(items, r, tMin, BoundOf(best, tMax), best, m) == NearestOf(items, r, tMin, tMax, best, m)
    decreases |items|
  {
    if |items| > 0 {
      var x := items[0];
      if best.Some? {
        HitBounded(x, r, tMin, tMax, best.value.t, m);
      }
      HitInInterval(x, r, tMin, BoundOf(best, tMax), m);
      var next := Closer(best, Hit(x, r, tMin, tMax, m));
      assert Hit(x, r, tMin, BoundOf(best, tMax), m) == (if next == best then None else next);
      ScanIsNearest(items[1..], r, tMin, tMax, next, m);
    }
  }

  /**
   * `HittableList::hit` on spheres and lists of them returns the nearest
   * record of all items (ties go to the earlier item).
   */
  lemma ListHitIsNearest(items: seq<Hittable>, r: Ray, tMin: real, tMax: Limit, m: Maths)
    requires SqrtLaw(m) && forall k :: 0 <= k < |items| ==> NoBvh(items[k])
    ensures Hit(List(items), r, tMin, tMax, m) == NearestOf(items, r, tMin, tMax, None, m)
  {
    ScanIsNearest(items, r, tMin, tMax, None, m);
  }

  /** The answer of `bounding_box`: a box, no box, or the panic of an unimplemented method. */
  datatype BoxAnswer = Panic | Answer(box: Option<Aabb>)

  /**
   * `Hittable::bounding_box`. A sphere always has a box; a BVH node's
   * method is `todo!()`; a list gives no box when empty or when an item has
   * none, and otherwise the box of its last item, since `is_first_box` is
   * never cleared.
   */
  function BoundingBox(h: Hittable, t0: real, t1: real): (b: BoxAnswer)
    ensures h.BvhNode? ==> b.Panic?
    ensures h.List? && b.Answer? && b.box.Some? ==>
              |h.items| > 0 && b == BoundingBox(h.items[|h.items| - 1], t0, t1)
    decreases h
  {
    match h
    case SphereObject(s) => Answer(Some(SphereBox(s)))
    case List(items) => if |items| == 0 then Answer(None) else ScanBoxes(items, t0, t1, None)
    case BvhNode(_, _, _) => Panic
  }

  /** The loop of `HittableList::bounding_box` from `output_box` onwards. */
  function ScanBoxes(items: seq<Hittable>, t0: real, t1: real, output: Option<Aabb>): (b: BoxAnswer)
    ensures |items| > 0 && b.Answer? && b.box.Some? ==> b == BoundingBox(items[|items| - 1], t0, t1)
    decreases items
  {
    if |items| == 0 then Answer(output)
    else
      match BoundingBox(items[0], t0, t1)
      case Panic => Panic
      case Answer(None) => Answer(None)
      case Answer(Some(tempBox)) => ScanBoxes(items[1..], t0, t1, Some(tempBox))
  }

  /** Every item has a box. */
  predicate AllBoxed(items: seq<Hittable>, t0: real, t1: real) {
    forall k :: 0 <= k < |items| ==> BoundingBox(items[k], t0, t1).Answer? && BoundingBox(items[k], t0, t1).box.Some?
  }

  lemma {:induction false} ScanBoxesLast(items: seq<Hittable>, t0: real, t1: real, output: Option<Aabb>)
    requires |items| > 0 && AllBoxed(items, t0, t1)
    ensures ScanBoxes(items, t0, t1, output) == BoundingBox(items[|items| - 1], t0, t1)
    decreases items
  {
    var b := BoundingBox(items[0], t0, t1);
    if |items| > 1 {
      assert AllBoxed(items[1..], t0, t1) by {
        forall k | 0 <= k < |items| - 1 ensures items[1..][k] == items[k + 1] { }
      }
      ScanBoxesLast(items[1..], t0, t1, Some(b.box.value));
    }
  }

  /** When every item has a box, the list's box is the last item's box. */
  lemma ListBoxIsLast(items: seq<Hittable>, t0: real, t1: real)
    requires |items| > 0 && AllBoxed(items, t0, t1)
    ensures BoundingBox(List(items), t0, t1) == BoundingBox(items[|items| - 1], t0, t1)
  {
    ScanBoxesLast(items, t0, t1, None);
  }

  /** An item without a box makes the list have none, unless an earlier item panics. */
  lemma {:induction false} ScanBoxesNone(items: seq<Hittable>, t0: real, t1: real, output: Option<Aabb>, k: nat)
    requires k < |items| && BoundingBox(items[k], t0, t1) == Answer(None)
    requires forall q :: 0 <= q < k ==> BoundingBox(items[q], t0, t1).Answer?
    ensures ScanBoxes(items, t0, t1, output) == Answer(None)
    decreases items
  {
    if k > 0 {
      match BoundingBox(items[0], t0, t1)
      case Answer(None) =>
      case Answer(Some(b)) =>
        ScanBoxesNone(items[1..], t0, t1, Some(b), k - 1);
    }
  }

  lemma ListBoxNone(items: seq<Hittable>, t0: real, t1: real, k: nat)
    requires k < |items| && BoundingBox(items[k], t0, t1) == Answer(None)
    requires forall q :: 0 <= q < k ==> BoundingBox(items[q], t0, t1).Answer?
    ensures BoundingBox(List(items), t0, t1) == Answer(None)
  {
    ScanBoxesNone(items, t0, t1, None, k);
  }

  /**
   * The list's box is not the union of its items' boxes: for unit spheres
   * at the origin and at x = 10 it is the second sphere's box, which leaves
   * the first sphere out.
   */
  lemma ListBoxDropsEarlierItems(t0: real, t1: real)
    ensures var first := Sphere(Vec3(0.0, 0.0, 0.0), 1.0, Materials.DefaultDiffuse());
            var second := Sphere(Vec3(10.0, 0.0, 0.0), 1.0, Materials.DefaultDiffuse());
            BoundingBox(List([SphereObject(first), SphereObject(second)]), t0, t1) == Answer(Some(SphereBox(second))) &&
            !Contains(SphereBox(second), SphereBox(first))
  {
    var first := Sphere(Vec3(0.0, 0.0, 0.0), 1.0, Materials.DefaultDiffuse());
    var second := Sphere(Vec3(10.0, 0.0, 0.0), 1.0, Materials.DefaultDiffuse());
    var items := [SphereObject(first), SphereObject(second)];
    assert items[1..] == [SphereObject(second)];
    assert ScanBoxes(items[1..], t0, t1, Some(SphereBox(first))) == Answer(Some(SphereBox(second)));
    assert ScanBoxes(items, t0, t1, None) == ScanBoxes(items[1..], t0, t1, Some(SphereBox(first)));
    assert SphereBox(first).min.x == -1.0 && SphereBox(second).min.x == 9.0;
  }

  /** Every sphere in `h` has a material satisfying `ok`. */
  predicate AllMaterials(h: Hittable, ok: Materials.Material -> bool)
    decreases h
  {
    match h
    case SphereObject(s) => ok(s.material)
    case List(items) => forall k :: 0 <= k < |items| ==> AllMaterials(items[k], ok)
    case BvhNode(left, right, _) => AllMaterials(left, ok) && AllMaterials(right, ok)
  }

  /** A record's material is the material of a sphere of the hittable. */
  lemma HitMaterialFrom(h: Hittable, r: Ray, tMin: real, tMax: Limit, m: Maths, ok: Materials.Material -> bool)
    requires AllMaterials(h, ok)
    ensures Hit(h, r, tMin, tMax, m).Some? ==> ok(Hit(h, r, tMin, tMax, m).value.material)
    decreases h
  {
    match h
    case SphereObject(_) =>
    case List(items) =>
      ScanMaterialFrom(items, r, tMin, tMax, None, m, ok);
    case BvhNode(left, right, box) =>
      var recLeft := Hit(left, r, tMin, tMax, m);
      HitMaterialFrom(left, r, tMin, tMax, m, ok);
      HitMaterialFrom(right, r, tMin, if recLeft.Some? then Finite(recLeft.value.t) else tMax, m, ok);
  }

  lemma ScanMaterialFrom(items: seq<Hittable>, r: Ray, tMin: real, closest: Limit, acc: Option<HitRecord>, m: Maths,
                         ok: Materials.Material -> bool)
    requires forall k :: 0 <= k < |items| ==> AllMaterials(items[k], ok)
    requires acc.Some? ==> ok(acc.value.material)
    ensures var o := ScanList(items, r, tMin, closest, acc, m);
            o.Some? ==> ok(o.value.material)
    decreases items
  {
    if |items| > 0 {
      HitMaterialFrom(items[0], r, tMin, closest, m, ok);
      match Hit(items[0], r, tMin, closest, m)
      case Some(rec) => ScanMaterialFrom(items[1..], r, tMin, Finite(rec.t), Some(rec), m, ok);
      case None => ScanMaterialFrom(items[1..], r, tMin, closest, acc, m, ok);
    }
  }
}
