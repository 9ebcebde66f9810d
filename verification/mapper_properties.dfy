/** What the property mapper promises, property by property, and how far it
    is from being idempotent. */
module MapperProperties {
  import opened Wrappers
  import opened Decimal
  import opened BacnetTypes
  import opened Points
  import opened PropertyPlan
  import opened PointMapper
  import Ambiguous

  /** A non-empty name is stored verbatim and leaves the counter alone; an
      empty one is replaced by the generated name for the current counter,
      which then advances by one. */
  lemma ObjectNameRule(h: Helpers, remote: Option<ObjectId>, unnamed: nat, pt: Point, w: Wire)
    requires !w.ErrorValue?
    ensures var r := UpdatePointValue(h, remote, unnamed, pt, ObjectName, w);
      && r.outcome == Applied
      && (|Text(h, w)| > 0 ==>
            r.point == pt.(objectName := Text(h, w), updates := pt.updates + 1) && r.unnamed == unnamed)
      && (|Text(h, w)| == 0 ==>
            r.point == pt.(objectName := UnnamedName(unnamed), updates := pt.updates + 1)
            && r.unnamed == unnamed + 1)
  {
  }

  /** Different counter values generate different names. */
  lemma UnnamedNamesDistinct(a: nat, b: nat)
    requires a != b
    ensures UnnamedName(a) != UnnamedName(b)
  {
    if UnnamedName(a) == UnnamedName(b) {
      assert UnnamedName(a)[|UNNAMED_PREFIX|..] == UnnamedName(b)[|UNNAMED_PREFIX|..];
      NatToStringInjective(a, b);
    }
  }

  /** Two objects that both report an empty name, starting from a fresh
      folder, are called "unnamed device 0" and "unnamed device 1". */
  lemma TwoUnnamedObjects(h: Helpers, remote: Option<ObjectId>, p1: Point, p2: Point)
    ensures var empty := Prim(CharacterStringValue(""));
      var r1 := UpdatePointValue(h, remote, 0, p1, ObjectName, empty);
      var r2 := UpdatePointValue(h, remote, r1.unnamed, p2, ObjectName, empty);
      && r1.point.objectName == "unnamed device 0"
      && r2.point.objectName == "unnamed device 1"
      && r2.unnamed == 2
  {
    assert NatToString(0) == "0";
    assert NatToString(1) == "1";
  }

  /** `inactiveText` writes slot 0 and `activeText` slot 1 of the units
      description with the value's text, falling back to "0" / "1" for an
      empty text; nothing else changes. When the slot does not exist the
      write throws and the point is left alone. */
  lemma StateTextSlotRule(h: Helpers, remote: Option<ObjectId>, unnamed: nat, pt: Point, pid: PropertyId, w: Wire)
    requires pid == InactiveText || pid == ActiveText
    requires !w.ErrorValue?
    ensures var i := if pid == InactiveText then 0 else 1;
      var expected := if |Text(h, w)| > 0 then Text(h, w) else if pid == InactiveText then "0" else "1";
      var r := UpdatePointValue(h, remote, unnamed, pt, pid, w);
      && (r.outcome == Applied <==> i < |pt.unitsDescription|)
      && (i < |pt.unitsDescription| ==>
            r.point == pt.(unitsDescription := pt.unitsDescription[i := expected], updates := pt.updates + 1))
      && r.unnamed == unnamed
  {
  }

  /** An empty `activeText` leaves "1" in slot 1. */
  lemma EmptyActiveTextFallsBack(h: Helpers, remote: Option<ObjectId>, unnamed: nat, pt: Point)
    requires |pt.unitsDescription| >= 2
    ensures var r := UpdatePointValue(h, remote, unnamed, pt, ActiveText, Prim(CharacterStringValue("")));
      r.point.unitsDescription[1] == "1" && r.point.unitsDescription[0] == pt.unitsDescription[0]
  {
    StateTextSlotRule(h, remote, unnamed, pt, ActiveText, Prim(CharacterStringValue("")));
  }

  /** `units` and `outputUnits` set the abbreviation key "engUnit.abbr.<n>"
      from the unit's number and append the unit's text to the description;
      a value that is not an engineering unit throws. */
  lemma UnitsRule(h: Helpers, remote: Option<ObjectId>, unnamed: nat, pt: Point, pid: PropertyId, w: Wire)
    requires pid == Units || pid == OutputUnits
    requires !w.ErrorValue?
    ensures var r := UpdatePointValue(h, remote, unnamed, pt, pid, w);
      && (r.outcome == Applied <==> w.Prim? && w.p.EnumeratedValue?)
      && (r.outcome == Applied ==>
            && r.point.unitsDescription == pt.unitsDescription + [Text(h, w)]
            && r.point.engineeringUnits[..|UNITS_PREFIX|] == "engUnit.abbr."
            && (w.p.n < TWO_31 ==> r.point.engineeringUnits[|UNITS_PREFIX|..] == NatToString(w.p.n)))
  {
  }

  /** The mapper is not idempotent: a second delivery of the same unit
      appends its text again. */
  lemma UnitsNotIdempotent(h: Helpers, remote: Option<ObjectId>, unnamed: nat, pt: Point, code: nat)
    ensures var w := Prim(EnumeratedValue(code));
      var once := UpdatePointValue(h, remote, unnamed, pt, Units, w);
      var twice := UpdatePointValue(h, remote, once.unnamed, once.point, Units, w);
      && |twice.point.unitsDescription| == |pt.unitsDescription| + 2
      && !SameFields(twice.point, once.point)
  {
  }

  /** Nor is a repeated empty name: each delivery generates a new name. */
  lemma EmptyNameNotIdempotent(h: Helpers, remote: Option<ObjectId>, unnamed: nat, pt: Point)
    ensures var w := Prim(CharacterStringValue(""));
      var once := UpdatePointValue(h, remote, unnamed, pt, ObjectName, w);
      var twice := UpdatePointValue(h, remote, once.unnamed, once.point, ObjectName, w);
      twice.point.objectName != once.point.objectName && twice.unnamed == unnamed + 2
  {
    UnnamedNamesDistinct(unnamed, unnamed + 1);
  }

  /** The type code kept after a scan does not depend on the starting code
      once some entry is non-null. */
  lemma {:induction false} LastTypeIdStartIndependent(entries: seq<TimeValue>, c1: nat, c2: nat)
    requires exists i :: 0 <= i < |entries| && !entries[i].value.NullValue?
    ensures LastTypeId(entries, c1) == LastTypeId(entries, c2)
    decreases |entries|
  {
    var i :| 0 <= i < |entries| && !entries[i].value.NullValue?;
    if TypeId(entries[0].value) == 0 {
      assert i > 0 && entries[1..][i - 1] == entries[i];
      LastTypeIdStartIndependent(entries[1..], c1, c2);
    }
  }

  /** Scanning the same schedule twice keeps the same type code. */
  lemma LastTypeIdIdempotent(entries: seq<TimeValue>, c: nat)
    ensures LastTypeId(entries, LastTypeId(entries, c)) == LastTypeId(entries, c)
  {
    if exists i :: 0 <= i < |entries| && !entries[i].value.NullValue? {
      LastTypeIdStartIndependent(entries, LastTypeId(entries, c), c);
    }
  }

  /** The properties whose write appends or counts rather than overwrites. */
  predicate Accumulates(h: Helpers, pid: PropertyId, w: Wire) {
    pid == Units || pid == OutputUnits || pid == StateText || (pid == ObjectName && |Text(h, w)| == 0)
  }

  /** Delivering the same value a second time changes no field and no
      counter; only the notification count moves. */
  predicate RepeatStable(h: Helpers, remote: Option<ObjectId>, unnamed: nat, pt: Point, pid: PropertyId, w: Wire) {
    var once := UpdatePointValue(h, remote, unnamed, pt, pid, w);
    var twice := UpdatePointValue(h, remote, once.unnamed, once.point, pid, w);
    SameFields(twice.point, once.point) && twice.unnamed == once.unnamed
  }

  lemma RepeatStableDisplayValues(h: Helpers, remote: Option<ObjectId>, unnamed: nat, pt: Point, pid: PropertyId, w: Wire)
    requires pid in {ModelName, PropertyId.NotificationClass, LogBuffer}
      || (pid == PresentValue && !pt.oid.objectType.Schedule?)
      || (pid == ObjectName && |Text(h, w)| > 0)
    ensures RepeatStable(h, remote, unnamed, pt, pid, w)
  {
  }

  lemma RepeatStableSchedulePresentValue(h: Helpers, remote: Option<ObjectId>, unnamed: nat, pt: Point, w: Wire)
    requires pt.oid.objectType.Schedule?
    ensures RepeatStable(h, remote, unnamed, pt, PresentValue, w)
  {
    var once := UpdatePointValue(h, remote, unnamed, pt, PresentValue, w);
    match Ambiguous.Resolve(w) {
      case Some(Ok(p)) =>
        assert Ambiguous.Classify(p).GetOr(once.point.dataType) == once.point.dataType;
      case _ =>
    }
  }

  lemma RepeatStableStateSlots(h: Helpers, remote: Option<ObjectId>, unnamed: nat, pt: Point, pid: PropertyId, w: Wire)
    requires pid in {InactiveText, ActiveText}
    ensures RepeatStable(h, remote, unnamed, pt, pid, w)
  {
  }

  lemma RepeatStableLogReference(h: Helpers, remote: Option<ObjectId>, unnamed: nat, pt: Point, w: Wire)
    ensures RepeatStable(h, remote, unnamed, pt, LogDeviceObjectProperty, w)
  {
    if w.PropertyReference? {
      var p1 := WriteReference(h, remote, pt, w).(updates := pt.updates + 1);
      assert Write(h, remote, unnamed, pt, LogDeviceObjectProperty, w) == Some((WriteReference(h, remote, pt, w), unnamed));
      assert UpdatePointValue(h, remote, unnamed, pt, LogDeviceObjectProperty, w) == Step(p1, unnamed, Applied);
      WriteReferenceRepeat(h, remote, pt, w, pt.updates + 1);
      assert Write(h, remote, unnamed, p1, LogDeviceObjectProperty, w) == Some((p1, unnamed));
    } else if !w.ErrorValue? {
      var p1 := pt.(updates := pt.updates + 1);
      assert Write(h, remote, unnamed, pt, LogDeviceObjectProperty, w) == Some((pt, unnamed));
      assert Write(h, remote, unnamed, p1, LogDeviceObjectProperty, w) == Some((p1, unnamed));
    }
  }

  lemma WriteReferenceRepeat(h: Helpers, remote: Option<ObjectId>, pt: Point, w: Wire, u: nat)
    requires w.PropertyReference?
    ensures WriteReference(h, remote, WriteReference(h, remote, pt, w).(updates := u), w)
         == WriteReference(h, remote, pt, w).(updates := u)
  {
  }

  lemma RepeatStableLogCounters(h: Helpers, remote: Option<ObjectId>, unnamed: nat, pt: Point, pid: PropertyId, w: Wire)
    requires pid in {RecordCount, BufferSize, StartTime, StopTime}
    ensures RepeatStable(h, remote, unnamed, pt, pid, w)
  {
  }

  lemma RepeatStableWeekly(h: Helpers, remote: Option<ObjectId>, unnamed: nat, pt: Point, w: Wire)
    ensures RepeatStable(h, remote, unnamed, pt, WeeklySchedule, w)
  {
    if w.Weekly? {
      LastTypeIdIdempotent(Entries(w.days), pt.typeId);
    }
  }

  lemma RepeatStableDates(h: Helpers, remote: Option<ObjectId>, unnamed: nat, pt: Point, pid: PropertyId, w: Wire)
    requires pid in {EffectivePeriod, ExceptionSchedule, DateList}
    ensures RepeatStable(h, remote, unnamed, pt, pid, w)
  {
  }

  lemma RepeatStableNotificationFields(h: Helpers, remote: Option<ObjectId>, unnamed: nat, pt: Point, pid: PropertyId, w: Wire)
    requires pid in {Priority, AckRequired, RecipientList} || !HasBranch(pid)
    ensures RepeatStable(h, remote, unnamed, pt, pid, w)
  {
  }

  /** Every property value that overwrites rather than appends or counts is
      idempotent: delivering it a second time changes no field and no
      counter. */
  lemma OverwritingPropertiesIdempotent(h: Helpers, remote: Option<ObjectId>, unnamed: nat, pt: Point, pid: PropertyId, w: Wire)
    requires !Accumulates(h, pid, w)
    ensures var once := UpdatePointValue(h, remote, unnamed, pt, pid, w);
      var twice := UpdatePointValue(h, remote, once.unnamed, once.point, pid, w);
      SameFields(twice.point, once.point) && twice.unnamed == once.unnamed
  {
    if pid == PresentValue && pt.oid.objectType.Schedule? {
      RepeatStableSchedulePresentValue(h, remote, unnamed, pt, w);
    } else if pid in {ModelName, PropertyId.NotificationClass, LogBuffer, PresentValue, ObjectName} {
      RepeatStableDisplayValues(h, remote, unnamed, pt, pid, w);
    } else if pid in {InactiveText, ActiveText} {
      RepeatStableStateSlots(h, remote, unnamed, pt, pid, w);
    } else if pid == LogDeviceObjectProperty {
      RepeatStableLogReference(h, remote, unnamed, pt, w);
    } else if pid in {RecordCount, BufferSize, StartTime, StopTime} {
      RepeatStableLogCounters(h, remote, unnamed, pt, pid, w);
    } else if pid == WeeklySchedule {
      RepeatStableWeekly(h, remote, unnamed, pt, w);
    } else if pid in {EffectivePeriod, ExceptionSchedule, DateList} {
      RepeatStableDates(h, remote, unnamed, pt, pid, w);
    } else {
      RepeatStableNotificationFields(h, remote, unnamed, pt, pid, w);
    }
  }

  /** The mapper has a branch of its own for every property a plan reads;
      a property without one only triggers the change notification. */
  predicate HasBranch(pid: PropertyId) {
    !pid.ObjectList? && !pid.OtherProperty?
  }

  /** A well-typed value of property `pid` that differs from what `pt`
      already holds for it. */
  function ChangingValue(pt: Point, pid: PropertyId): Wire {
    match pid
    case ObjectName => Prim(CharacterStringValue(pt.objectName + "x"))
    case PresentValue =>
      if pt.oid.objectType.Schedule? then Ambiguous(Err(pt.presentValue + "x"))
      else Prim(CharacterStringValue(pt.presentValue + "x"))
    case ModelName => Prim(CharacterStringValue(pt.presentValue + "x"))
    case NotificationClass => Prim(CharacterStringValue(pt.presentValue + "x"))
    case Units => Prim(EnumeratedValue(0))
    case OutputUnits => Prim(EnumeratedValue(0))
    case InactiveText =>
      Prim(CharacterStringValue(if |pt.unitsDescription| > 0 then pt.unitsDescription[0] + "x" else "x"))
    case ActiveText =>
      Prim(CharacterStringValue(if |pt.unitsDescription| > 1 then pt.unitsDescription[1] + "x" else "x"))
    case StateText => CharacterStrings(["x"])
    case RecordCount => Prim(UnsignedValue(if pt.recordCount == 0 then 1 else 0))
    case BufferSize => Prim(UnsignedValue(if pt.bufferSize == 0 then 1 else 0))
    case StartTime => DateTime(pt.startTime + "x")
    case StopTime => DateTime(pt.stopTime + "x")
    case LogBuffer => Prim(CharacterStringValue(pt.logBuffer + "x"))
    case EffectivePeriod => DateRange(pt.effectivePeriod, "")
    case WeeklySchedule => Weekly(pt.weeklySchedule + [[]])
    case ExceptionSchedule => SpecialEvents(pt.exceptionSchedule + [""])
    case Priority => Unsigneds(seq(|pt.priority| + 1, i => 0))
    case AckRequired =>
      if pt.ackRequired == [false, false, false] then TransitionBits(true, false, false)
      else TransitionBits(false, false, false)
    case RecipientList => Destinations(pt.recipientList + [""])
    case DateList => CalendarEntries(pt.dateList + [""])
    case _ => ErrorValue
  }

  /** The branches that overwrite a text, number or flag field write it:
      some value of the property changes the record beyond its
      notification count. */
  lemma {:induction false} ScalarBranchWritesField(h: Helpers, remote: Option<ObjectId>, unnamed: nat, pt: Point, pid: PropertyId)
    requires pid in {ObjectName, PresentValue, ModelName, PropertyId.NotificationClass, RecordCount, BufferSize,
                     StartTime, StopTime, LogBuffer, AckRequired}
    ensures !SameFields(UpdatePointValue(h, remote, unnamed, pt, pid, ChangingValue(pt, pid)).point, pt)
  {
    var r := UpdatePointValue(h, remote, unnamed, pt, pid, ChangingValue(pt, pid));
    match pid
    case ObjectName => assert r.point.objectName != pt.objectName;
    case PresentValue =>
      if pt.oid.objectType.Schedule? {
        ScheduleConversionFailure(h, remote, unnamed, pt, pt.presentValue + "x");
      }
      assert r.point.presentValue != pt.presentValue;
    case ModelName => assert r.point.presentValue != pt.presentValue;
    case NotificationClass => assert r.point.presentValue != pt.presentValue;
    case RecordCount => assert r.point.recordCount != pt.recordCount;
    case BufferSize => assert r.point.bufferSize != pt.bufferSize;
    case StartTime => assert r.point.startTime != pt.startTime;
    case StopTime => assert r.point.stopTime != pt.stopTime;
    case LogBuffer => assert r.point.logBuffer != pt.logBuffer;
    case AckRequired => assert r.point.ackRequired != pt.ackRequired;
  }

  /** The branches that write a list or a composed text write it: some
      value of the property changes the record beyond its notification
      count, given the state slots the text branches overwrite. */
  lemma {:induction false} ListBranchWritesField(h: Helpers, remote: Option<ObjectId>, unnamed: nat, pt: Point, pid: PropertyId)
    requires pid in {Units, OutputUnits, InactiveText, ActiveText, StateText, EffectivePeriod,
                     WeeklySchedule, ExceptionSchedule, Priority, RecipientList, DateList}
    requires pid == InactiveText ==> |pt.unitsDescription| >= 1
    requires pid == ActiveText ==> |pt.unitsDescription| >= 2
    ensures !SameFields(UpdatePointValue(h, remote, unnamed, pt, pid, ChangingValue(pt, pid)).point, pt)
  {
    var r := UpdatePointValue(h, remote, unnamed, pt, pid, ChangingValue(pt, pid));
    match pid
    case Units => assert |r.point.unitsDescription| != |pt.unitsDescription|;
    case OutputUnits => assert |r.point.unitsDescription| != |pt.unitsDescription|;
    case InactiveText => assert r.point.unitsDescription[0] != pt.unitsDescription[0];
    case ActiveText => assert r.point.unitsDescription[1] != pt.unitsDescription[1];
    case StateText => assert |r.point.unitsDescription| != |pt.unitsDescription|;
    case EffectivePeriod => assert |r.point.effectivePeriod| != |pt.effectivePeriod|;
    case WeeklySchedule => assert |r.point.weeklySchedule| != |pt.weeklySchedule|;
    case ExceptionSchedule => assert |r.point.exceptionSchedule| != |pt.exceptionSchedule|;
    case Priority => assert |r.point.priority| != |pt.priority|;
    case RecipientList => assert |r.point.recipientList| != |pt.recipientList|;
    case DateList => assert |r.point.dateList| != |pt.dateList|;
  }

  /** Every property some plan reads has a branch of its own in the mapper,
      and, except for the log reference (whose written text comes only from
      the rendering helper), that branch writes a field for some value. */
  lemma PlannedPropertiesHaveBranches(h: Helpers, remote: Option<ObjectId>, unnamed: nat, t: ObjectType, pt: Point, pid: PropertyId)
    requires pid in Plan(t)
    ensures HasBranch(pid)
    ensures pid != LogDeviceObjectProperty
      && (pid == InactiveText ==> |pt.unitsDescription| >= 1)
      && (pid == ActiveText ==> |pt.unitsDescription| >= 2)
      ==> !SameFields(UpdatePointValue(h, remote, unnamed, pt, pid, ChangingValue(pt, pid)).point, pt)
  {
    PlanMatchesTable(t, pid);
    if pid != LogDeviceObjectProperty
      && (pid == InactiveText ==> |pt.unitsDescription| >= 1)
      && (pid == ActiveText ==> |pt.unitsDescription| >= 2)
    {
      if pid in {ObjectName, PresentValue, ModelName, PropertyId.NotificationClass, RecordCount, BufferSize,
                 StartTime, StopTime, LogBuffer, AckRequired} {
        ScalarBranchWritesField(h, remote, unnamed, pt, pid);
      } else {
        ListBranchWritesField(h, remote, unnamed, pt, pid);
      }
    }
  }

  lemma UnhandledPropertyOnlyNotifies(h: Helpers, remote: Option<ObjectId>, unnamed: nat, pt: Point, pid: PropertyId, w: Wire)
    requires !HasBranch(pid) || (pid == LogDeviceObjectProperty && !w.PropertyReference?)
    requires !w.ErrorValue?
    ensures UpdatePointValue(h, remote, unnamed, pt, pid, w) == Step(pt.(updates := pt.updates + 1), unnamed, Applied)
  {
  }

  /** A schedule's present value goes through ambiguous-value resolution: a
      failed conversion stores the failure message and keeps the data type. */
  lemma ScheduleConversionFailure(h: Helpers, remote: Option<ObjectId>, unnamed: nat, pt: Point, message: string)
    requires pt.oid.objectType.Schedule?
    ensures var r := UpdatePointValue(h, remote, unnamed, pt, PresentValue, Ambiguous(Err(message)));
      && r.outcome == Applied
      && r.point.presentValue == message
      && r.point.dataType == pt.dataType
  {
  }

  /** For any other object type the present value is stored as its text and
      the data type is never touched. */
  lemma PresentValueOfOtherTypes(h: Helpers, remote: Option<ObjectId>, unnamed: nat, pt: Point, w: Wire)
    requires !pt.oid.objectType.Schedule? && !w.ErrorValue?
    ensures UpdatePointValue(h, remote, unnamed, pt, PresentValue, w).point
      == pt.(presentValue := Text(h, w), presentValueSource := PresentValue, updates := pt.updates + 1)
  {
  }
}
