/** Object discovery (`DeviceFolder.ObjectDiscoveryHandler`): the device's
    object list arrives either as one whole list or item by item; every
    object not yet in the folder's known set gets a point and its planned
    property reads. */
module Discovery {
  import opened Wrappers
  import opened BacnetTypes
  import opened PropertyPlan

  /** One progress delivery of the object list. */
  datatype Delivery = WholeList(oids: seq<ObjectId>) | Item(oid: ObjectId)

  /** A point made for a discovered object (`addObjectPoint`). */
  datatype NewPoint = NewPoint(oid: ObjectId, settable: bool)

  /** The state of a discovery pass: the folder's known set and the points
      made so far. `addObjectPoint` queues an object's planned reads exactly
      when it makes the object's point, so the pass's read requests are
      `Requests(pass)`. */
  datatype Pass = Pass(known: set<ObjectId>, created: seq<NewPoint>)

  function Elems<T>(s: seq<T>): set<T> {
    set x | x in s
  }

  predicate Distinct<T(==)>(s: seq<T>) {
    forall i, j :: 0 <= i < j < |s| ==> s[i] != s[j]
  }

  /** Reference definition of what a scan must make: the identifiers of
      `oids` that are neither known nor seen earlier in `oids`, in order. */
  function Fresh(known: set<ObjectId>, oids: seq<ObjectId>): seq<ObjectId>
    decreases |oids|
  {
    if |oids| == 0 then []
    else if oids[0] in known then Fresh(known, oids[1..])
    else [oids[0]] + Fresh(known + {oids[0]}, oids[1..])
  }

  /** `Fresh` names each unknown delivered identifier exactly once. */
  lemma {:induction false} FreshIsNewOnce(known: set<ObjectId>, oids: seq<ObjectId>)
    ensures Distinct(Fresh(known, oids))
    ensures Elems(Fresh(known, oids)) == Elems(oids) - known
    decreases |oids|
  {
    if |oids| > 0 {
      assert Elems(oids) == {oids[0]} + Elems(oids[1..]);
      if oids[0] in known {
        FreshIsNewOnce(known, oids[1..]);
      } else {
        var rest := Fresh(known + {oids[0]}, oids[1..]);
        FreshIsNewOnce(known + {oids[0]}, oids[1..]);
        assert oids[0] !in Elems(rest);
        assert Elems([oids[0]] + rest) == {oids[0]} + Elems(rest);
        var r := [oids[0]] + rest;
        forall i, j | 0 <= i < j < |r|
          ensures r[i] != r[j]
        {
          if i == 0 {
            assert r[j] == rest[j - 1] && r[j] in Elems(rest);
          } else {
            assert r[i] == rest[i - 1] && r[j] == rest[j - 1];
          }
        }
      }
    }
  }

  /** The points `addObjectPoint` makes for `oids`: each with the default
      settable flag of its type. */
  function Points(oids: seq<ObjectId>): seq<NewPoint> {
    if |oids| == 0 then [] else [NewPoint(oids[0], DefaultSettable(oids[0].objectType))] + Points(oids[1..])
  }

  /** One point per identifier, in order, each with its type's default
      settable flag. */
  lemma {:induction false} PointsFollowIds(oids: seq<ObjectId>)
    ensures OidsOf(Points(oids)) == oids
    ensures forall i :: 0 <= i < |oids| ==> Points(oids)[i].settable == DefaultSettable(oids[i].objectType)
    decreases |oids|
  {
    if |oids| > 0 {
      PointsFollowIds(oids[1..]);
      var r := Points(oids);
      assert r == [NewPoint(oids[0], DefaultSettable(oids[0].objectType))] + Points(oids[1..]);
      forall i | 0 <= i < |oids|
        ensures r[i].settable == DefaultSettable(oids[i].objectType)
      {
        if i > 0 {
          assert r[i] == Points(oids[1..])[i - 1];
        }
      }
    }
  }

  /** The reads queued for `oids`: each object's plan, in order. */
  function RefsFor(oids: seq<ObjectId>): seq<(ObjectId, PropertyId)> {
    if |oids| == 0 then [] else PlanRefs(oids[0]) + RefsFor(oids[1..])
  }

  /** A read is queued exactly for an object of `oids` and a property of
      its type's plan. */
  lemma {:induction false} RefsForCoversPlans(oids: seq<ObjectId>, o: ObjectId, pid: PropertyId)
    ensures (o, pid) in RefsFor(oids) <==> o in oids && pid in Plan(o.objectType)
    decreases |oids|
  {
    if |oids| > 0 {
      RefsForCoversPlans(oids[1..], o, pid);
      var head := PlanRefs(oids[0]);
      assert (o, pid) in head <==> o == oids[0] && pid in Plan(o.objectType) by {
        if (o, pid) in head {
          var i :| 0 <= i < |head| && head[i] == (o, pid);
        }
        if o == oids[0] && pid in Plan(o.objectType) {
          var i :| 0 <= i < |Plan(o.objectType)| && Plan(o.objectType)[i] == pid;
          assert head[i] == (o, pid);
        }
      }
      assert o in oids <==> o == oids[0] || o in oids[1..];
    }
  }

  function OidsOf(ps: seq<NewPoint>): (r: seq<ObjectId>)
    ensures |r| == |ps| && forall i :: 0 <= i < |ps| ==> r[i] == ps[i].oid
  {
    if |ps| == 0 then [] else [ps[0].oid] + OidsOf(ps[1..])
  }

  /** The read requests queued during a pass: each created point's plan, in
      order. */
  function Requests(p: Pass): seq<(ObjectId, PropertyId)> {
    RefsFor(OidsOf(p.created))
  }

  /** `addObjectPoint`: a point with the default settable flag (its planned
      reads come with it, see `Requests`). */
  function AddObjectPoint(p: Pass, oid: ObjectId): Pass {
    p.(created := p.created + [NewPoint(oid, DefaultSettable(oid.objectType))])
  }

  /** One object of a whole-list delivery: an unknown object is first added
      to the known set, then given a point. */
  function Visit(p: Pass, oid: ObjectId): Pass {
    if oid in p.known then p else AddObjectPoint(p.(known := p.known + {oid}), oid)
  }

  /** Scans a whole-list delivery: each identifier is visited in order. */
  function ScanList(p: Pass, oids: seq<ObjectId>): (r: Pass)
    ensures r.known == p.known + Elems(oids)
    decreases |oids|
  {
    if |oids| == 0 then p
    else
      assert Elems(oids) == {oids[0]} + Elems(oids[1..]);
      ScanList(Visit(p, oids[0]), oids[1..])
  }

  /** The points a scan adds are those of the fresh identifiers, in order. */
  lemma {:induction false} ScanListMakesFresh(p: Pass, oids: seq<ObjectId>)
    ensures ScanList(p, oids).created == p.created + Points(Fresh(p.known, oids))
    decreases |oids|
  {
    if |oids| == 0 {
      assert p.created + [] == p.created;
    } else {
      var q := Visit(p, oids[0]);
      ScanListMakesFresh(q, oids[1..]);
      if oids[0] !in p.known {
        var rest := Fresh(p.known + {oids[0]}, oids[1..]);
        assert Fresh(p.known, oids) == [oids[0]] + rest;
        assert ([oids[0]] + rest)[1..] == rest;
        assert Points([oids[0]] + rest) == [NewPoint(oids[0], DefaultSettable(oids[0].objectType))] + Points(rest);
      }
    }
  }

  lemma {:induction false} ScanListAppend(p: Pass, a: seq<ObjectId>, b: seq<ObjectId>)
    ensures ScanList(ScanList(p, a), b) == ScanList(p, a + b)
    decreases |a|
  {
    if |a| == 0 {
      assert a + b == b;
    } else {
      assert (a + b)[0] == a[0] && (a + b)[1..] == a[1..] + b;
      ScanListAppend(Visit(p, a[0]), a[1..], b);
      assert ScanList(p, a) == ScanList(Visit(p, a[0]), a[1..]);
      assert ScanList(p, a + b) == ScanList(Visit(p, a[0]), a[1..] + b);
    }
  }

  /** The identifiers one delivery names. */
  function Ids(d: Delivery): seq<ObjectId> {
    match d
    case WholeList(oids) => oids
    case Item(oid) => [oid]
  }

  /** The identifiers a sequence of deliveries names, in delivery order. */
  function Flatten(ds: seq<Delivery>): seq<ObjectId> {
    if |ds| == 0 then [] else Ids(ds[0]) + Flatten(ds[1..])
  }

  /** One delivery as the handler is meant to treat it: both forms check the
      known set and insert before making the point. */
  function Deliver(p: Pass, d: Delivery): Pass {
    ScanList(p, Ids(d))
  }

  /** A discovery pass over the deliveries, in order, is one scan of every
      identifier delivered, whether it came in a whole list or alone. */
  function Discover(p: Pass, ds: seq<Delivery>): (r: Pass)
    ensures r == ScanList(p, Flatten(ds))
    decreases |ds|
  {
    if |ds| == 0 then p
    else
      ScanListAppend(p, Ids(ds[0]), Flatten(ds[1..]));
      Discover(Deliver(p, ds[0]), ds[1..])
  }

  /** The handler as corrected (see `DeliverAsWritten` for the program's
      per-item branch): nothing happens before the remote device is
      resolved; otherwise a pass starts from the folder's known set with no
      points, and every unknown delivered object gets exactly one point. */
  function DiscoveryHandlerCorrected(remote: Option<ObjectId>, known: set<ObjectId>, ds: seq<Delivery>): (r: Pass)
    ensures remote.None? ==> r == Pass(known, [])
    ensures remote.Some? ==> r.known == known + Elems(Flatten(ds))
    ensures remote.Some? ==> Distinct(OidsOf(r.created)) && Elems(OidsOf(r.created)) == Elems(Flatten(ds)) - known
  {
    if remote.None? then Pass(known, [])
    else
      var r := Discover(Pass(known, []), ds);
      ScanListMakesFresh(Pass(known, []), Flatten(ds));
      assert r.created == Points(Fresh(known, Flatten(ds)));
      PointsFollowIds(Fresh(known, Flatten(ds)));
      FreshIsNewOnce(known, Flatten(ds));
      r
  }

  lemma OidsOfAppend(a: seq<NewPoint>, b: seq<NewPoint>)
    ensures OidsOf(a + b) == OidsOf(a) + OidsOf(b)
  {
    assert |OidsOf(a + b)| == |OidsOf(a) + OidsOf(b)|;
  }

  lemma {:induction false} DistinctAppend(a: seq<ObjectId>, b: seq<ObjectId>)
    requires Distinct(a) && Distinct(b) && Elems(a) !! Elems(b)
    ensures Distinct(a + b)
  {
    forall i, j | 0 <= i < j < |a + b|
      ensures (a + b)[i] != (a + b)[j]
    {
      if i < |a| <= j {
        assert (a + b)[i] in Elems(a) && (a + b)[j] in Elems(b);
      }
    }
  }

  /** After a first pass over {A, B}, a second pass over {A, B, C} makes a
      point for C alone. */
  lemma SecondPassMakesOnlyNewObject(a: ObjectId, b: ObjectId, c: ObjectId, remote: ObjectId)
    requires c != a && c != b
    ensures var first := DiscoveryHandlerCorrected(Some(remote), {}, [WholeList([a, b])]);
      var second := DiscoveryHandlerCorrected(Some(remote), first.known, [WholeList([a, b, c])]);
      second.created == [NewPoint(c, DefaultSettable(c.objectType))]
  {
    var first := DiscoveryHandlerCorrected(Some(remote), {}, [WholeList([a, b])]);
    assert Flatten([WholeList([a, b])]) == [a, b];
    assert first.known == {a, b};
    assert Flatten([WholeList([a, b, c])]) == [a, b, c];
    ScanListMakesFresh(Pass({a, b}, []), [a, b, c]);
    assert Fresh({a, b}, [a, b, c]) == [c] by {
      assert [a, b, c][1..] == [b, c] && [b, c][1..] == [c] && [c][1..] == [];
      assert Fresh({a, b, c}, []) == [];
      assert Fresh({a, b}, [c]) == [c];
      assert Fresh({a, b}, [b, c]) == [c];
    }
  }

  /** With the corrected handler, however the deliveries are split, no
      object ever gets two points across two passes on one folder (the
      handler as written breaks this, see `PerItemDeliveryRepeatsObject`). */
  lemma PassesNeverRepeatAnObject(known: set<ObjectId>, ds1: seq<Delivery>, ds2: seq<Delivery>, remote: ObjectId)
    ensures var first := DiscoveryHandlerCorrected(Some(remote), known, ds1);
      var second := DiscoveryHandlerCorrected(Some(remote), first.known, ds2);
      Distinct(OidsOf(first.created + second.created))
  {
    var first := DiscoveryHandlerCorrected(Some(remote), known, ds1);
    var second := DiscoveryHandlerCorrected(Some(remote), first.known, ds2);
    var o1, o2 := OidsOf(first.created), OidsOf(second.created);
    assert Elems(o1) <= first.known;
    assert Elems(o2) !! first.known;
    OidsOfAppend(first.created, second.created);
    DistinctAppend(o1, o2);
  }

  /** One delivery as the handler is written: the per-item form checks the
      known set but never inserts into it. */
  function DeliverAsWritten(p: Pass, d: Delivery): Pass {
    match d
    case WholeList(oids) => ScanList(p, oids)
    case Item(oid) => if oid in p.known then p else AddObjectPoint(p, oid)
  }

  /** The known set of a pass as written learns only the whole-list
      identifiers. */
  function DiscoverAsWritten(p: Pass, ds: seq<Delivery>): (r: Pass)
    ensures r.known == p.known + Elems(Flatten(WholeLists(ds)))
    decreases |ds|
  {
    if |ds| == 0 then p
    else
      var head := if ds[0].WholeList? then [ds[0]] else [];
      FlattenAppend(head, WholeLists(ds[1..]));
      assert Flatten(head) == (if ds[0].WholeList? then ds[0].oids else []) by {
        if ds[0].WholeList? {
          assert Flatten(head) == Ids(ds[0]) + Flatten([]);
        }
      }
      DiscoverAsWritten(DeliverAsWritten(p, ds[0]), ds[1..])
  }

  /** The whole-list deliveries among `ds`, in order. */
  function WholeLists(ds: seq<Delivery>): (r: seq<Delivery>)
    ensures forall i :: 0 <= i < |r| ==> r[i].WholeList?
  {
    if |ds| == 0 then []
    else (if ds[0].WholeList? then [ds[0]] else []) + WholeLists(ds[1..])
  }

  lemma {:induction false} FlattenAppend(a: seq<Delivery>, b: seq<Delivery>)
    ensures Flatten(a + b) == Flatten(a) + Flatten(b)
    decreases |a|
  {
    if |a| == 0 {
      assert a + b == b;
    } else {
      assert (a + b)[0] == a[0] && (a + b)[1..] == a[1..] + b;
      FlattenAppend(a[1..], b);
    }
  }

  /** The same object delivered twice item by item gets two points in one
      pass, and the known set does not learn it. */
  lemma PerItemDeliveryRepeatsObject(a: ObjectId)
    ensures var r := DiscoverAsWritten(Pass({}, []), [Item(a), Item(a)]);
      && OidsOf(r.created) == [a, a]
      && a !in r.known
  {
    var pt := NewPoint(a, DefaultSettable(a.objectType));
    var p1 := DeliverAsWritten(Pass({}, []), Item(a));
    assert p1 == Pass({}, [pt]);
    var p2 := DeliverAsWritten(p1, Item(a));
    assert p2 == Pass({}, [pt, pt]);
    assert [Item(a), Item(a)][1..] == [Item(a)] && [Item(a)][1..] == [];
    assert DiscoverAsWritten(p1, [Item(a)]) == DiscoverAsWritten(p2, []);
    assert OidsOf([pt, pt]) == [a, a];
  }

  /** With the same deliveries the corrected pass makes that object's point
      once and remembers it. */
  lemma PerItemDeliveryCorrected(a: ObjectId)
    ensures var r := Discover(Pass({}, []), [Item(a), Item(a)]);
      && OidsOf(r.created) == [a]
      && a in r.known
  {
    assert Flatten([Item(a), Item(a)]) == [a, a] by {
      assert [Item(a), Item(a)][1..] == [Item(a)] && [Item(a)][1..] == [];
      assert Flatten([Item(a)]) == [a] + Flatten([]);
    }
    assert Fresh({}, [a, a]) == [a] by {
      assert [a, a][1..] == [a] && [a][1..] == [];
      assert {} + {a} == {a};
      assert Fresh({a}, [a]) == Fresh({a}, []);
    }
    ScanListMakesFresh(Pass({}, []), [a, a]);
  }

  /** What a pass as written does promise: every unknown delivered object
      gets at least one point, and no known object gets one. */
  lemma {:induction false} DiscoverAsWrittenCovers(p: Pass, ds: seq<Delivery>)
    ensures Elems(OidsOf(DiscoverAsWritten(p, ds).created)) == Elems(OidsOf(p.created)) + (Elems(Flatten(ds)) - p.known)
    decreases |ds|
  {
    if |ds| == 0 {
      assert Flatten(ds) == [];
    } else {
      var q := DeliverAsWritten(p, ds[0]);
      DiscoverAsWrittenCovers(q, ds[1..]);
      assert Elems(Flatten(ds)) == Elems(Ids(ds[0])) + Elems(Flatten(ds[1..]));
      match ds[0]
      case WholeList(oids) =>
        ScanListMakesFresh(p, oids);
        PointsFollowIds(Fresh(p.known, oids));
        FreshIsNewOnce(p.known, oids);
        OidsOfAppend(p.created, Points(Fresh(p.known, oids)));
        assert Elems(OidsOf(q.created)) == Elems(OidsOf(p.created)) + (Elems(oids) - p.known);
      case Item(oid) =>
        if oid !in p.known {
          OidsOfAppend(p.created, [NewPoint(oid, DefaultSettable(oid.objectType))]);
          assert Elems(OidsOf(q.created)) == Elems(OidsOf(p.created)) + {oid};
        }
    }
  }

  /** The handler as the program writes it: nothing happens before the
      remote device is resolved; otherwise every unknown delivered object
      gets a point, but only whole-list identifiers join the known set. */
  function DiscoveryHandlerAsWritten(remote: Option<ObjectId>, known: set<ObjectId>, ds: seq<Delivery>): (r: Pass)
    ensures remote.None? ==> r == Pass(known, [])
    ensures remote.Some? ==> r.known == known + Elems(Flatten(WholeLists(ds)))
    ensures remote.Some? ==> Elems(OidsOf(r.created)) == Elems(Flatten(ds)) - known
  {
    if remote.None? then Pass(known, [])
    else
      DiscoverAsWrittenCovers(Pass(known, []), ds);
      DiscoverAsWritten(Pass(known, []), ds)
  }

  /** When the device answers with whole lists only, the handler as written
      and the corrected one agree. */
  lemma {:induction false} WholeListsAgree(p: Pass, ds: seq<Delivery>)
    requires forall i :: 0 <= i < |ds| ==> ds[i].WholeList?
    ensures DiscoverAsWritten(p, ds) == Discover(p, ds)
    decreases |ds|
  {
    if |ds| > 0 {
      WholeListsAgree(ScanList(p, ds[0].oids), ds[1..]);
    }
  }
}
