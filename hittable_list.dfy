/** `HittableList`: a growable list of hittables, itself a hittable. */
module HittableLists {
  import opened Vectors
  import opened Wrappers
  import opened Records
  import Boxes
  import opened Hittables

  class HittableList {
    var hittables: seq<Hittable>

    /** `HittableList::new` (and `Default`): an empty list. */
    constructor ()
      ensures hittables == []
    {
      hittables := [];
    }

    /** `add_hittable`: appends at the end, keeping the items already there. */
    method AddHittable(h: Hittable)
      modifies this
      ensures hittables == old(hittables) + [h]
    {
      hittables := hittables + [h];
    }

    /** `clear`: removes every item. */
    method Clear()
      modifies this
      ensures hittables == []
    {
      hittables := [];
    }

    /**
     * `hit`: every item is searched up to the closest record found so far,
     * and the last record found is returned.
     */
    method Hit(r: Ray, tMin: real, tMax: Limit, m: Maths) returns (rec: Option<HitRecord>)
      ensures rec == Hittables.Hit(List(hittables), r, tMin, tMax, m)
      ensures rec.Some? ==> InInterval(rec.value.t, tMin, tMax)
      ensures hittables == [] ==> rec.None?
    {
      rec := None;
      var closest := tMax;
      for k := 0 to |hittables|
        invariant ScanList(hittables, r, tMin, tMax, None, m) == ScanList(hittables[k..], r, tMin, closest, rec, m)
      {
        assert hittables[k..][1..] == hittables[k + 1..];
        var found := Hittables.Hit(hittables[k], r, tMin, closest, m);
        if found.Some? {
          closest := Finite(found.value.t);
          rec := found;
        }
      }
      HitInInterval(List(hittables), r, tMin, tMax, m);
    }

    /**
     * `bounding_box`: no box for an empty list or when an item has none;
     * otherwise `output_box` is overwritten by each item's box (the flag
     * `is_first_box` stays set, so the union branch is never taken).
     */
    method BoundingBox(t0: real, t1: real) returns (answer: BoxAnswer)
      ensures answer == Hittables.BoundingBox(List(hittables), t0, t1)
      ensures |hittables| > 0 && AllBoxed(hittables, t0, t1) ==>
                answer == Hittables.BoundingBox(hittables[|hittables| - 1], t0, t1)
    {
      if |hittables| == 0 {
        return Answer(None);
      }
      var outputBox: Option<Boxes.Aabb> := None;
      for k := 0 to |hittables|
        invariant ScanBoxes(hittables, t0, t1, None) == ScanBoxes(hittables[k..], t0, t1, outputBox)
      {
        assert hittables[k..][1..] == hittables[k + 1..];
        match Hittables.BoundingBox(hittables[k], t0, t1)
        case Panic =>
          return Panic;
        case Answer(None) =>
          return Answer(None);
        case Answer(Some(tempBox)) =>
          outputBox := Some(tempBox);
      }
      assert hittables[|hittables|..] == [];
      if AllBoxed(hittables, t0, t1) {
        ListBoxIsLast(hittables, t0, t1);
      }
      return Answer(outputBox);
    }
  }
}
