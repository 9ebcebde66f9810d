/** Batched property retrieval (`DeviceFolder.getProperties`): the read
    results for a discovery pass arrive one by one and each is handed to the
    property mapper for the point made for its object. */
module Fetch {
  import opened Wrappers
  import opened BacnetTypes
  import opened Points
  import opened PointMapper
  import MapperProperties

  /** One read result: which object and property, and the value read. */
  datatype Reading = Reading(oid: ObjectId, pid: PropertyId, value: Wire)

  /** The points of a pass, by object, and the folder's unnamed-object
      counter. */
  datatype Batch = Batch(points: map<ObjectId, Point>, unnamed: nat)

  /** One result. A result for an object with no point reaches the mapper
      with no point, which either drops it (an error value) or throws; the
      exception is caught, so nothing changes. */
  function Apply(h: Helpers, remote: Option<ObjectId>, b: Batch, rd: Reading): (r: Batch)
    ensures r.points.Keys == b.points.Keys
    ensures forall o :: o in b.points && o != rd.oid ==> r.points[o] == b.points[o]
    ensures rd.oid !in b.points ==> r == b
  {
    if rd.oid !in b.points then b
    else
      var s := UpdatePointValue(h, remote, b.unnamed, b.points[rd.oid], rd.pid, rd.value);
      Batch(b.points[rd.oid := s.point], s.unnamed)
  }

  /** The results applied in arrival order. */
  function ApplyAll(h: Helpers, remote: Option<ObjectId>, b: Batch, rs: seq<Reading>): (r: Batch)
    ensures r.points.Keys == b.points.Keys
    decreases |rs|
  {
    if |rs| == 0 then b else Apply(h, remote, ApplyAll(h, remote, b, rs[..|rs| - 1]), rs[|rs| - 1])
  }

  /** Whether a result makes the mapper generate a name: an object name
      whose text is empty, for an object that has a point. */
  predicate NamesUnnamed(h: Helpers, keys: set<ObjectId>, rd: Reading) {
    rd.oid in keys && rd.pid == ObjectName && !rd.value.ErrorValue? && |Text(h, rd.value)| == 0
  }

  function CountUnnamed(h: Helpers, keys: set<ObjectId>, rs: seq<Reading>): nat
    decreases |rs|
  {
    if |rs| == 0 then 0
    else CountUnnamed(h, keys, rs[..|rs| - 1]) + (if NamesUnnamed(h, keys, rs[|rs| - 1]) then 1 else 0)
  }

  /** A batch keeps its objects, leaves the points no result names as they
      were, and advances the counter once per empty object name. */
  lemma {:induction false} ApplyAllFrame(h: Helpers, remote: Option<ObjectId>, b: Batch, rs: seq<Reading>)
    ensures var r := ApplyAll(h, remote, b, rs);
      && r.points.Keys == b.points.Keys
      && (forall o :: o in b.points && (forall i :: 0 <= i < |rs| ==> rs[i].oid != o) ==> r.points[o] == b.points[o])
      && r.unnamed == b.unnamed + CountUnnamed(h, b.points.Keys, rs)
    decreases |rs|
  {
    if |rs| > 0 {
      var init := rs[..|rs| - 1];
      var last := rs[|rs| - 1];
      ApplyAllFrame(h, remote, b, init);
      var m := ApplyAll(h, remote, b, init);
      forall o | o in b.points && (forall i :: 0 <= i < |rs| ==> rs[i].oid != o)
        ensures ApplyAll(h, remote, b, rs).points[o] == b.points[o]
      {
        assert forall i :: 0 <= i < |init| ==> init[i] == rs[i];
        assert last.oid != o;
      }
      if last.oid in m.points {
        if last.pid == ObjectName && !last.value.ErrorValue? {
          MapperProperties.ObjectNameRule(h, remote, m.unnamed, m.points[last.oid], last.value);
        }
      }
    }
  }

  /** `getProperties`: with no remote device nothing is read; otherwise
      every result is applied as it arrives. */
  method GetProperties(h: Helpers, remote: Option<ObjectId>, b: Batch, rs: seq<Reading>) returns (r: Batch)
    ensures remote.None? ==> r == b
    ensures remote.Some? ==> r == ApplyAll(h, remote, b, rs)
    ensures r.points.Keys == b.points.Keys
    ensures remote.Some? ==> r.unnamed == b.unnamed + CountUnnamed(h, b.points.Keys, rs)
  {
    r := b;
    if remote.None? {
      return;
    }
    var i := 0;
    while i < |rs|
      invariant 0 <= i <= |rs|
      invariant r == ApplyAll(h, remote, b, rs[..i])
    {
      assert rs[..i + 1][..i] == rs[..i];
      r := Apply(h, remote, r, rs[i]);
      i := i + 1;
    }
    assert rs[..|rs|] == rs;
    ApplyAllFrame(h, remote, b, rs);
  }

  /** Two objects of a fresh folder that both report an empty name end up
      as "unnamed device 0" and "unnamed device 1". */
  lemma TwoUnnamedDevices(h: Helpers, remote: ObjectId, a: ObjectId, pa: Point, c: ObjectId, pc: Point)
    requires a != c
    ensures var empty := Prim(CharacterStringValue(""));
      var r := ApplyAll(h, Some(remote), Batch(map[a := pa, c := pc], 0),
                        [Reading(a, ObjectName, empty), Reading(c, ObjectName, empty)]);
      && r.points[a].objectName == "unnamed device 0"
      && r.points[c].objectName == "unnamed device 1"
      && r.unnamed == 2
  {
    var empty := Prim(CharacterStringValue(""));
    var rs := [Reading(a, ObjectName, empty), Reading(c, ObjectName, empty)];
    var b0 := Batch(map[a := pa, c := pc], 0);
    assert rs[..1] == [rs[0]] && [rs[0]][..0] == [];
    MapperProperties.TwoUnnamedObjects(h, Some(remote), pa, pc);
    var b1 := Apply(h, Some(remote), b0, rs[0]);
    assert ApplyAll(h, Some(remote), b0, rs[..1]) == b1;
    assert b1.points[a].objectName == "unnamed device 0" && b1.unnamed == 1;
    assert b1.points[c] == pc;
  }
}
