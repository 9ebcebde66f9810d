/** The gateway's record of one remote object, as the property mapper and
    the ambiguous-value resolution write it. */
module Points {
  import opened BacnetTypes

  /** One point. `presentValueSource` is the property whose value was last
      written as the present value; `typeId` is the application tag the
      weekly schedule showed; `updates` counts the point's change
      notifications (`update()`). */
  datatype Point = Point(
    oid: ObjectId,
    objectName: string,
    presentValue: string,
    presentValueSource: PropertyId,
    dataType: DataType,
    engineeringUnits: string,
    unitsDescription: seq<string>,
    settable: bool,
    referenceDevice: string,
    referenceObject: string,
    referenceProperty: string,
    recordCount: int,
    bufferSize: int,
    startTime: string,
    stopTime: string,
    logBuffer: string,
    effectivePeriod: string,
    weeklySchedule: seq<seq<TimeValue>>,
    exceptionSchedule: seq<string>,
    priority: seq<int>,
    ackRequired: seq<bool>,
    recipientList: seq<string>,
    dateList: seq<string>,
    typeId: nat,
    updates: nat)

  /** Two records that differ at most in their notification count. */
  predicate SameFields(p: Point, q: Point) {
    p.(updates := 0) == q.(updates := 0)
  }
}
