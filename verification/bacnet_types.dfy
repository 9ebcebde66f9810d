/** The BACnet vocabulary the synchronisation core works with: object types,
    property identifiers, object identifiers, the gateway's data types, and
    decoded wire values as a tagged union (in place of the Java code's
    `instanceof` chains over `Encodable`). */
module BacnetTypes {
  import opened Wrappers

  /** The object types the core names, plus every other type as `OtherType`.
      `OtherType` carries only the codes of types without a constructor of
      their own; the type does not enforce this, and `OtherType` with the
      code of a named type would compare unequal to that type. */
  datatype ObjectType =
    | AnalogInput | AnalogOutput | AnalogValue
    | BinaryInput | BinaryOutput | BinaryValue
    | Calendar | Command | Device | EventEnrollment | File | Group | Loop
    | MultiStateInput | MultiStateOutput | MultiStateValue
    | NotificationClass | Program | Schedule | Averaging | TrendLog
    | LifeSafetyPoint | LifeSafetyZone | Accumulator | PulseConverter
    | OtherType(code: nat)

  /** The property identifiers the core reads or dispatches on.
      `OtherProperty` carries only the codes of properties without a
      constructor of their own, under the same convention as `OtherType`. */
  datatype PropertyId =
    | ObjectName | PresentValue | ModelName | Units | OutputUnits
    | InactiveText | ActiveText | StateText
    | LogDeviceObjectProperty | RecordCount | BufferSize | StartTime | StopTime | LogBuffer
    | EffectivePeriod | WeeklySchedule | ExceptionSchedule
    | NotificationClass | Priority | AckRequired | RecipientList | DateList
    | ObjectList
    | OtherProperty(code: nat)

  /** Identifies one object of a remote device; compared structurally. */
  datatype ObjectId = ObjectId(objectType: ObjectType, instance: nat)

  /** How the gateway presents a point's value. */
  datatype DataType = Binary | Numeric | Alphanumeric | Multistate | Unknown

  /** A decoded primitive (application-tagged) BACnet value. */
  datatype Primitive =
    | NullValue
    | BooleanValue(b: bool)
    | UnsignedValue(n: nat)
    | SignedValue(i: int)
    | RealValue(r: real)
    | DoubleValue(r: real)
    | OctetStringValue(bytes: seq<bv8>)
    | CharacterStringValue(s: string)
    | BitStringValue(bits: seq<bool>)
    | EnumeratedValue(n: nat)
    | DateValue(date: string)
    | TimeOfDayValue(time: string)
    | ObjectIdentifierValue(oid: ObjectId)

  /** The application tag number of a primitive, as in section 20.2.1.4 of
      ASHRAE 135 (the BACnet standard); `NullValue` has tag 0. */
  function TypeId(p: Primitive): (t: nat)
    ensures t == 0 <==> p.NullValue?
    ensures t <= 12
  {
    match p
    case NullValue => 0
    case BooleanValue(_) => 1
    case UnsignedValue(_) => 2
    case SignedValue(_) => 3
    case RealValue(_) => 4
    case DoubleValue(_) => 5
    case OctetStringValue(_) => 6
    case CharacterStringValue(_) => 7
    case BitStringValue(_) => 8
    case EnumeratedValue(_) => 9
    case DateValue(_) => 10
    case TimeOfDayValue(_) => 11
    case ObjectIdentifierValue(_) => 12
  }

  /** One entry of a daily schedule: a time of day and the value it sets. */
  datatype TimeValue = TimeValue(time: string, value: Primitive)

  /** A decoded property value as a read or a change notification delivers
      it. Constructed values whose inner structure the core does not inspect
      (date-times, special events, destinations, calendar entries) are
      carried in the formatted text the gateway stores for them. */
  datatype Wire =
    | ErrorValue
    | Prim(p: Primitive)
    | Ambiguous(conversion: Result<Primitive, string>)
    | CharacterStrings(states: seq<string>)
    | Unsigneds(values: seq<nat>)
    | PropertyReference(device: Option<ObjectId>, obj: Option<ObjectId>, property: Option<nat>)
    | DateTime(formatted: string)
    | DateRange(startDate: string, endDate: string)
    | Weekly(days: seq<seq<TimeValue>>)
    | SpecialEvents(events: seq<string>)
    | TransitionBits(toOffnormal: bool, toFault: bool, toNormal: bool)
    | Destinations(destinations: seq<string>)
    | CalendarEntries(entries: seq<string>)

  /** The library's formatting and lookup helpers, which the model does not
      interpret: `render` is the display text of a value and `dataTypeOf`
      the data type the gateway associates with an object type. */
  datatype Helpers = Helpers(render: Wire -> string, dataTypeOf: ObjectType -> DataType)

  /** Display text of a value: a character string is its own content; every
      other value goes through the rendering helper. */
  function Text(h: Helpers, w: Wire): (s: string)
    ensures w.Prim? && w.p.CharacterStringValue? ==> s == w.p.s
  {
    match w
    case Prim(CharacterStringValue(s)) => s
    case _ => h.render(w)
  }
}
