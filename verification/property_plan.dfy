/** Which properties a discovery pass reads for each object type
    (`DeviceFolder.addPropertyReferences`), and which discovered objects a
    point is made settable for by default (`DeviceFolder.addObjectPoint`). */
module PropertyPlan {
  import opened BacnetTypes

  predicate IsAnalog(t: ObjectType) {
    t.AnalogInput? || t.AnalogOutput? || t.AnalogValue? || t.PulseConverter?
  }

  predicate IsBinary(t: ObjectType) {
    t.BinaryInput? || t.BinaryOutput? || t.BinaryValue?
  }

  predicate IsMultiState(t: ObjectType) {
    t.MultiStateInput? || t.MultiStateOutput? || t.MultiStateValue?
  }

  /** The properties read for an object of type `t`, in request order: the
      name first, then the branch of the first family `t` belongs to. */
  function Plan(t: ObjectType): (r: seq<PropertyId>)
    ensures |r| >= 1 && r[0] == ObjectName
    ensures forall i, j :: 0 <= i < j < |r| ==> r[i] != r[j]
  {
    [ObjectName] +
    if t.Accumulator? then [Units, PresentValue]
    else if IsAnalog(t) then [Units, PresentValue]
    else if IsBinary(t) then [InactiveText, ActiveText, PresentValue]
    else if t.Device? then [ModelName]
    else if t.LifeSafetyPoint? then [Units, PresentValue]
    else if t.Loop? then [OutputUnits, PresentValue]
    else if IsMultiState(t) then [StateText, PresentValue]
    else if t.Schedule? then [PresentValue, EffectivePeriod, WeeklySchedule, ExceptionSchedule]
    else if t.TrendLog? then [LogDeviceObjectProperty, RecordCount, StartTime, StopTime, BufferSize]
    else if t.NotificationClass? then [PropertyId.NotificationClass, Priority, AckRequired, RecipientList]
    else if t.Calendar? then [PresentValue, DateList]
    else []
  }

  /** The object types that have a branch of their own in the plan. */
  predicate Listed(t: ObjectType) {
    t.Accumulator? || IsAnalog(t) || IsBinary(t) || t.Device? || t.LifeSafetyPoint? || t.Loop?
    || IsMultiState(t) || t.Schedule? || t.TrendLog? || t.NotificationClass? || t.Calendar?
  }

  /** The plan read property by property: for each property, the object types
      that request it. */
  predicate Reads(t: ObjectType, p: PropertyId) {
    match p
    case ObjectName => true
    case Units => t.Accumulator? || IsAnalog(t) || t.LifeSafetyPoint?
    case OutputUnits => t.Loop?
    case InactiveText => IsBinary(t)
    case ActiveText => IsBinary(t)
    case StateText => IsMultiState(t)
    case ModelName => t.Device?
    case PresentValue => Listed(t) && !t.Device? && !t.TrendLog? && !t.NotificationClass?
    case EffectivePeriod => t.Schedule?
    case WeeklySchedule => t.Schedule?
    case ExceptionSchedule => t.Schedule?
    case LogDeviceObjectProperty => t.TrendLog?
    case RecordCount => t.TrendLog?
    case StartTime => t.TrendLog?
    case StopTime => t.TrendLog?
    case BufferSize => t.TrendLog?
    case NotificationClass => t.NotificationClass?
    case Priority => t.NotificationClass?
    case AckRequired => t.NotificationClass?
    case RecipientList => t.NotificationClass?
    case DateList => t.Calendar?
    case _ => false
  }

  /** Every property the plan requests is one the table lists for the type. */
  lemma PlanWithinTable(t: ObjectType, p: PropertyId)
    requires p in Plan(t)
    ensures Reads(t, p)
  {
    var tail := Plan(t)[1..];
    assert p == ObjectName || p in tail;
  }

  /** Every property the table lists for the type is requested by the plan. */
  lemma TableWithinPlan(t: ObjectType, p: PropertyId)
    requires Reads(t, p)
    ensures p in Plan(t)
  {
    if p != ObjectName {
      assert Plan(t)[1..] != [];
    }
  }

  /** The type-by-type plan and the property-by-property table agree. */
  lemma PlanMatchesTable(t: ObjectType, p: PropertyId)
    ensures p in Plan(t) <==> Reads(t, p)
  {
    if p in Plan(t) {
      PlanWithinTable(t, p);
    }
    if Reads(t, p) {
      TableWithinPlan(t, p);
    }
  }

  /** A type without a branch of its own is asked only for its name; every
      listed type is asked for something more. */
  lemma UnlistedTypeReadsOnlyName(t: ObjectType)
    ensures !Listed(t) <==> Plan(t) == [ObjectName]
  {
    if Listed(t) {
      assert |Plan(t)| >= 2;
    }
  }

  /** Binary objects read their two state texts before their present value. */
  lemma BinaryPlan(t: ObjectType)
    requires IsBinary(t)
    ensures Plan(t) == [ObjectName, InactiveText, ActiveText, PresentValue]
  {
  }

  /** A discovered point is settable by default exactly for output and value
      objects of the analog, binary and multi-state families; every such
      object has its present value read. */
  function DefaultSettable(t: ObjectType): (b: bool)
    ensures b ==> PresentValue in Plan(t)
  {
    t.AnalogOutput? || t.AnalogValue? || t.BinaryOutput? || t.BinaryValue?
    || t.MultiStateOutput? || t.MultiStateValue?
  }

  /** The read requests for one object: its plan, each paired with the
      object. */
  function PlanRefs(oid: ObjectId): (r: seq<(ObjectId, PropertyId)>)
    ensures |r| == |Plan(oid.objectType)|
    ensures forall i :: 0 <= i < |r| ==> r[i] == (oid, Plan(oid.objectType)[i])
  {
    var plan := Plan(oid.objectType);
    seq(|plan|, i requires 0 <= i < |plan| => (oid, plan[i]))
  }
}
