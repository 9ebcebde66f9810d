/** The property mapper (`DeviceFolder.updatePointValue`): one property value
    read from, or pushed by, the remote device is written into a point.

    Every Java exception the mapper can raise (a failed cast to the type a
    property is expected to carry, `List.set` past the end of the units
    description, a point missing from the discovery map) is caught by its
    caller; the model reports it as outcome `Failed`, which leaves the point
    as it was and skips the change notification. That is exact for every
    cast and `List.set` that happens before a branch writes. The `stateText`
    and `weeklySchedule` branches write inside a loop over a sequence, so an
    element of the wrong type met halfway would leave the earlier writes in
    place; the model's sequences are typed (`CharacterStrings`, `Weekly`),
    so a sequence is either wholly of the expected type or not a sequence
    of that kind at all, and that partial case does not arise. */
module PointMapper {
  import opened Wrappers
  import opened Decimal
  import opened BacnetTypes
  import opened Points
  import opened PropertyPlan
  import Ambiguous

  datatype Outcome = Applied | Dropped | Failed

  /** The point after the mapper ran, with the folder's unnamed-object
      counter. */
  datatype Step = Step(point: Point, unnamed: nat, outcome: Outcome)

  const UNNAMED_PREFIX := "unnamed device "
  const UNITS_PREFIX := "engUnit.abbr."

  /** The generated name of the `n`-th object that reported an empty name. */
  function UnnamedName(n: nat): (s: string)
    ensures |s| > |UNNAMED_PREFIX|
    ensures s[..|UNNAMED_PREFIX|] == UNNAMED_PREFIX
    ensures s[|UNNAMED_PREFIX|..] == NatToString(n)
  {
    UNNAMED_PREFIX + NatToString(n)
  }

  /** The key under which an engineering unit's abbreviation is looked up:
      the prefix and the unit's `intValue()` in decimal. */
  function UnitsKey(code: nat): (s: string)
    ensures |s| > |UNITS_PREFIX|
    ensures s[..|UNITS_PREFIX|] == UNITS_PREFIX
    ensures code < TWO_31 ==> s[|UNITS_PREFIX|..] == NatToString(code)
  {
    UNITS_PREFIX + IntToString(JavaInt32(code))
  }

  /** `List.set`: replaces slot `i`, or throws when there is no such slot. */
  function SetSlot(slots: seq<string>, i: nat, s: string): (r: Option<seq<string>>)
    ensures r.Some? <==> i < |slots|
    ensures r.Some? ==> |r.value| == |slots| && r.value[i] == s
    ensures r.Some? ==> forall j :: 0 <= j < |slots| && j != i ==> r.value[j] == slots[j]
  {
    if i < |slots| then Some(slots[i := s]) else None
  }

  /** The text written for an inactive or active state: the value's text,
      or `fallback` when the value is an error or its text is empty. */
  function StateLabel(h: Helpers, w: Wire, fallback: string): (s: string)
    ensures s == fallback || (!w.ErrorValue? && s == Text(h, w) && |s| > 0)
    ensures !w.ErrorValue? && |Text(h, w)| > 0 ==> s == Text(h, w)
  {
    if w.ErrorValue? || |Text(h, w)| == 0 then fallback else Text(h, w)
  }

  /** The number a value carries as an unsigned integer; enumerated values
      are unsigned integers too. */
  function AsUnsigned(w: Wire): Option<nat> {
    match w
    case Prim(UnsignedValue(n)) => Some(n)
    case Prim(EnumeratedValue(n)) => Some(n)
    case _ => None
  }

  /** The schedule entries of a week, day after day. */
  function Entries(days: seq<seq<TimeValue>>): seq<TimeValue> {
    if |days| == 0 then [] else days[0] + Entries(days[1..])
  }

  /** The type code kept after scanning `entries` in order: each non-null
      value replaces it. */
  function LastTypeId(entries: seq<TimeValue>, current: nat): (r: nat)
    ensures (forall i :: 0 <= i < |entries| ==> entries[i].value.NullValue?) ==> r == current
    ensures r == current || exists i :: 0 <= i < |entries| && r == TypeId(entries[i].value) != 0
    ensures |entries| > 0 && !entries[|entries| - 1].value.NullValue? ==>
      r == TypeId(entries[|entries| - 1].value)
    decreases |entries|
  {
    if |entries| == 0 then current
    else
      var next := if TypeId(entries[0].value) != 0 then TypeId(entries[0].value) else current;
      var r := LastTypeId(entries[1..], next);
      assert r == next ==> r == current || r == TypeId(entries[0].value) != 0;
      assert forall i :: 0 <= i < |entries[1..]| ==> entries[1..][i] == entries[i + 1];
      r
  }

  /** The write a property makes, before the change notification: the new
      record and counter, or `None` when the write throws. */
  function Write(h: Helpers, remote: Option<ObjectId>, unnamed: nat, pt: Point, pid: PropertyId, w: Wire)
    : Option<(Point, nat)>
  {
    match pid
    case ObjectName =>
      var name := Text(h, w);
      if |name| < 1 then Some((pt.(objectName := UnnamedName(unnamed)), unnamed + 1))
      else Some((pt.(objectName := name), unnamed))
    case PresentValue =>
      if pt.oid.objectType.Schedule? then
        (match Ambiguous.HandleAmbiguous(h, pt, pid, w)
         case Some(p) => Some((p, unnamed))
         case None => None)
      else Some((pt.(presentValue := Text(h, w), presentValueSource := pid), unnamed))
    case ModelName => Some((pt.(presentValue := Text(h, w), presentValueSource := pid), unnamed))
    case NotificationClass => Some((pt.(presentValue := Text(h, w), presentValueSource := pid), unnamed))
    case Units => AddUnits(h, unnamed, pt, w)
    case OutputUnits => AddUnits(h, unnamed, pt, w)
    case InactiveText =>
      (match SetSlot(pt.unitsDescription, 0, StateLabel(h, w, "0"))
       case Some(d) => Some((pt.(unitsDescription := d), unnamed))
       case None => None)
    case ActiveText =>
      (match SetSlot(pt.unitsDescription, 1, StateLabel(h, w, "1"))
       case Some(d) => Some((pt.(unitsDescription := d), unnamed))
       case None => None)
    case StateText =>
      if w.CharacterStrings? then Some((pt.(unitsDescription := pt.unitsDescription + w.states), unnamed))
      else None
    case LogDeviceObjectProperty =>
      if w.PropertyReference? then Some((WriteReference(h, remote, pt, w), unnamed))
      else Some((pt, unnamed))
    case RecordCount =>
      (match AsUnsigned(w)
       case Some(n) => Some((pt.(recordCount := JavaInt32(n)), unnamed))
       case None => None)
    case BufferSize =>
      (match AsUnsigned(w)
       case Some(n) => Some((pt.(bufferSize := JavaInt32(n)), unnamed))
       case None => None)
    case StartTime => if w.DateTime? then Some((pt.(startTime := w.formatted), unnamed)) else None
    case StopTime => if w.DateTime? then Some((pt.(stopTime := w.formatted), unnamed)) else None
    case LogBuffer => Some((pt.(logBuffer := Text(h, w)), unnamed))
    case EffectivePeriod =>
      if w.DateRange? then Some((pt.(effectivePeriod := w.startDate + " - " + w.endDate), unnamed)) else None
    case WeeklySchedule =>
      if w.Weekly? then
        Some((pt.(weeklySchedule := w.days, typeId := LastTypeId(Entries(w.days), pt.typeId)), unnamed))
      else None
    case ExceptionSchedule =>
      if w.SpecialEvents? then Some((pt.(exceptionSchedule := w.events), unnamed)) else None
    case Priority =>
      if w.Unsigneds? then
        Some((pt.(priority := seq(|w.values|, i requires 0 <= i < |w.values| => JavaInt32(w.values[i]))), unnamed))
      else None
    case AckRequired =>
      if w.TransitionBits? then Some((pt.(ackRequired := [w.toOffnormal, w.toFault, w.toNormal]), unnamed))
      else None
    case RecipientList =>
      if w.Destinations? then Some((pt.(recipientList := w.destinations), unnamed)) else None
    case DateList =>
      if w.CalendarEntries? then Some((pt.(dateList := w.entries), unnamed)) else None
    case _ => Some((pt, unnamed))
  }

  /** `units` and `outputUnits`: the abbreviation key is replaced and the
      unit's text appended to the units description. */
  function AddUnits(h: Helpers, unnamed: nat, pt: Point, w: Wire): Option<(Point, nat)> {
    if w.Prim? && w.p.EnumeratedValue? then
      Some((pt.(engineeringUnits := UnitsKey(w.p.n), unitsDescription := pt.unitsDescription + [Text(h, w)]), unnamed))
    else None
  }

  /** `logDeviceObjectProperty`: the referenced device (or, when the
      reference names none, the remote device itself), object and property;
      a referenced object also sets the point's data type. */
  function WriteReference(h: Helpers, remote: Option<ObjectId>, pt: Point, w: Wire): Point
    requires w.PropertyReference?
  {
    var pt1 :=
      if w.device.Some? then pt.(referenceDevice := Text(h, Prim(ObjectIdentifierValue(w.device.value))))
      else if remote.Some? then pt.(referenceDevice := Text(h, Prim(ObjectIdentifierValue(remote.value))))
      else pt;
    var pt2 :=
      if w.obj.Some? then
        pt1.(referenceObject := Text(h, Prim(ObjectIdentifierValue(w.obj.value))),
             dataType := h.dataTypeOf(w.obj.value.objectType))
      else pt1;
    if w.property.Some? then pt2.(referenceProperty := Text(h, Prim(EnumeratedValue(w.property.value))))
    else pt2
  }

  /** Applies one property value to a point of a folder whose unnamed-object
      counter is `unnamed`; `remote` is the folder's remote device, if it
      is resolved. An error value is dropped before anything else; a write
      that throws leaves everything as it was; a write that succeeds ends
      with exactly one change notification. */
  function UpdatePointValue(h: Helpers, remote: Option<ObjectId>, unnamed: nat, pt: Point, pid: PropertyId, w: Wire)
    : (r: Step)
    ensures w.ErrorValue? ==> r == Step(pt, unnamed, Dropped)
    ensures r.outcome != Applied ==> r.point == pt && r.unnamed == unnamed
    ensures r.outcome == Applied ==> r.point.updates == pt.updates + 1
    ensures r.point.oid == pt.oid && r.point.settable == pt.settable
    ensures r.unnamed == unnamed || (pid == ObjectName && r.unnamed == unnamed + 1)
  {
    if w.ErrorValue? then Step(pt, unnamed, Dropped)
    else
      match Write(h, remote, unnamed, pt, pid, w)
      case Some((p, n)) => Step(p.(updates := p.updates + 1), n, Applied)
      case None => Step(pt, unnamed, Failed)
  }
}
