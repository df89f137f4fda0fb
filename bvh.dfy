/**
 * The BVH node's hit as written: it answers with the left child's record
 * whenever the left child is hit, even when the right child holds a nearer
 * one.
 */
module Bvh {
  import opened Vectors
  import opened Wrappers
  import opened Records
  import Boxes
  import opened Spheres
  import opened Hittables

  /** A node whose box the ray misses reports no hit, whatever its children hold. */
  lemma GateMisses(left: Hittable, right: Hittable, box: Boxes.Aabb, r: Ray, tMin: real, tMax: Limit, m: Maths)
    requires !Boxes.Hits(box, r, tMin, tMax)
    ensures Hit(BvhNode(left, right, box), r, tMin, tMax, m).None?
  {
  }

  /** A one-item scan keeps the item's record if it has one, else the record carried in. */
  lemma ScanSingle(y: Hittable, r: Ray, tMin: real, closest: Limit, acc: Option<HitRecord>, m: Maths)
    ensures ScanList([y], r, tMin, closest, acc, m) == Keep(Hit(y, r, tMin, closest, m), acc)
  {
    assert [y][0] == y;
    assert [y][1..] == [];
  }

  /** A two-item list searches its second item below the first item's record, if any. */
  lemma PairScan(x: Hittable, y: Hittable, r: Ray, tMin: real, tMax: Limit, m: Maths)
    ensures var first := Hit(x, r, tMin, tMax, m);
            Hit(List([x, y]), r, tMin, tMax, m) ==
              if first.Some? then Keep(Hit(y, r, tMin, Finite(first.value.t), m), first)
              else Hit(y, r, tMin, tMax, m)
  {
    var first := Hit(x, r, tMin, tMax, m);
    assert [x, y][0] == x;
    assert [x, y][1..] == [y];
    assert Hit(List([x, y]), r, tMin, tMax, m) == ScanList([x, y], r, tMin, tMax, None, m);
    if first.Some? {
      assert ScanList([x, y], r, tMin, tMax, None, m) == ScanList([y], r, tMin, Finite(first.value.t), first, m);
      ScanSingle(y, r, tMin, Finite(first.value.t), first, m);
    } else {
      assert ScanList([x, y], r, tMin, tMax, None, m) == ScanList([y], r, tMin, tMax, None, m);
      ScanSingle(y, r, tMin, tMax, None, m);
    }
  }

  /**
   * Past the box test, the node agrees with a two-item list of its children
   * exactly when the right child has no hit nearer than the left child's.
   */
  lemma AgreesWithListIff(left: Hittable, right: Hittable, box: Boxes.Aabb, r: Ray, tMin: real, tMax: Limit, m: Maths)
    requires Boxes.Hits(box, r, tMin, tMax)
    ensures var l := Hit(left, r, tMin, tMax, m);
            Hit(BvhNode(left, right, box), r, tMin, tMax, m) == Hit(List([left, right]), r, tMin, tMax, m)
            <==> !(l.Some? && Hit(right, r, tMin, Finite(l.value.t), m).Some?)
  {
    var l := Hit(left, r, tMin, tMax, m);
    PairScan(left, right, r, tMin, tMax, m);
    if l.Some? {
      HitInInterval(right, r, tMin, Finite(l.value.t), m);
    }
  }

  /** The node's record lies in the interval and is the left child's whenever that one exists. */
  lemma LeftPreferred(left: Hittable, right: Hittable, box: Boxes.Aabb, r: Ray, tMin: real, tMax: Limit, m: Maths)
    ensures var rec := Hit(BvhNode(left, right, box), r, tMin, tMax, m);
            var l := Hit(left, r, tMin, tMax, m);
            (rec.Some? ==> InInterval(rec.value.t, tMin, tMax)) &&
            (Boxes.Hits(box, r, tMin, tMax) && l.Some? ==> rec == l) &&
            (Boxes.Hits(box, r, tMin, tMax) && l.None? ==> rec == Hit(right, r, tMin, tMax, m))
  {
    HitInInterval(BvhNode(left, right, box), r, tMin, tMax, m);
  }

  /**
   * The node returns the farther hit: whenever the right child has a hit
   * nearer than the left child's, the node still reports the left child's
   * record, while a two-item list of the same children reports the nearer
   * right one.
   */
  lemma ReturnsFartherHit(left: Hittable, right: Hittable, box: Boxes.Aabb, r: Ray, tMin: real, tMax: Limit, m: Maths)
    requires Boxes.Hits(box, r, tMin, tMax)
    requires Hit(left, r, tMin, tMax, m).Some?
    requires Hit(right, r, tMin, Finite(Hit(left, r, tMin, tMax, m).value.t), m).Some?
    ensures var l := Hit(left, r, tMin, tMax, m);
            var node := Hit(BvhNode(left, right, box), r, tMin, tMax, m);
            var list := Hit(List([left, right]), r, tMin, tMax, m);
            node == l && list == Hit(right, r, tMin, Finite(l.value.t), m) && list.value.t < node.value.t
  {
    var l := Hit(left, r, tMin, tMax, m);
    PairScan(left, right, r, tMin, tMax, m);
    HitInInterval(right, r, tMin, Finite(l.value.t), m);
  }
}
