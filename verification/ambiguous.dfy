/** Resolution of a schedule's polymorphic present value
    (`handleAmbiguous`, written identically in `DeviceFolder` and
    `LocalDeviceFolder`). */
module Ambiguous {
  import opened Wrappers
  import opened BacnetTypes
  import opened Points

  /** The data type a resolved primitive implies, if any. */
  function Classify(p: Primitive): Option<DataType> {
    match p
    case BooleanValue(_) => Some(Binary)
    case SignedValue(_) => Some(Numeric)
    case RealValue(_) => Some(Numeric)
    case DoubleValue(_) => Some(Numeric)
    case OctetStringValue(_) => Some(Alphanumeric)
    case CharacterStringValue(_) => Some(Alphanumeric)
    case EnumeratedValue(_) => Some(Multistate)
    case UnsignedValue(_) => Some(Multistate)
    case _ => None
  }

  /** The classification read off the primitive's application tag: booleans
      are binary; signed, real and double are numeric; octet and character
      strings are alphanumeric; unsigned and enumerated are multi-state; null,
      bit strings, dates, times and object identifiers set nothing. */
  lemma ClassifyByTag(p: Primitive)
    ensures Classify(p) == Some(Binary) <==> TypeId(p) == 1
    ensures Classify(p) == Some(Numeric) <==> TypeId(p) in {3, 4, 5}
    ensures Classify(p) == Some(Alphanumeric) <==> TypeId(p) in {6, 7}
    ensures Classify(p) == Some(Multistate) <==> TypeId(p) in {2, 9}
    ensures Classify(p).None? <==> TypeId(p) in {0, 8, 10, 11, 12}
  {
  }

  /** The primitive a value stands for: a primitive is itself, an ambiguous
      value is its conversion (which may fail with a message). `None` means
      the value is neither, and the cast to an ambiguous value throws. */
  function Resolve(w: Wire): (r: Option<Result<Primitive, string>>)
    ensures r.None? <==> !w.Prim? && !w.Ambiguous?
    ensures w.Prim? ==> r == Some(Ok(w.p))
    ensures w.Ambiguous? ==> r == Some(w.conversion)
  {
    match w
    case Prim(p) => Some(Ok(p))
    case Ambiguous(c) => Some(c)
    case _ => None
  }

  /** Writes a schedule's present value into `pt`. A failed conversion
      writes the failure's message and leaves the data type alone; a
      resolved primitive writes its text and, when it implies one, its data
      type. `None` is the thrown cast, which changes nothing. */
  function HandleAmbiguous(h: Helpers, pt: Point, pid: PropertyId, w: Wire): (r: Option<Point>)
    ensures r.None? <==> !w.Prim? && !w.Ambiguous?
    ensures w.Ambiguous? && w.conversion.Err? ==>
      r == Some(pt.(presentValue := w.conversion.error, presentValueSource := pid))
    ensures r.Some? ==> r.value.dataType in {pt.dataType, Binary, Numeric, Alphanumeric, Multistate}
    ensures r.Some? ==> r.value == pt.(presentValue := r.value.presentValue,
                                      presentValueSource := pid, dataType := r.value.dataType)
  {
    match Resolve(w)
    case None => None
    case Some(Err(message)) => Some(pt.(presentValue := message, presentValueSource := pid))
    case Some(Ok(p)) =>
      Some(pt.(presentValue := Text(h, Prim(p)), presentValueSource := pid,
               dataType := Classify(p).GetOr(pt.dataType)))
  }

  /** A resolved boolean makes the point binary; a resolved bit string, date,
      time or object identifier leaves the data type as it was. */
  lemma ResolvedTypeSetsDataType(h: Helpers, pt: Point, pid: PropertyId, p: Primitive)
    ensures var r := HandleAmbiguous(h, pt, pid, Ambiguous(Ok(p)));
      && r.Some?
      && r.value.presentValue == Text(h, Prim(p))
      && (TypeId(p) == 1 ==> r.value.dataType == Binary)
      && (TypeId(p) in {3, 4, 5} ==> r.value.dataType == Numeric)
      && (TypeId(p) in {6, 7} ==> r.value.dataType == Alphanumeric)
      && (TypeId(p) in {2, 9} ==> r.value.dataType == Multistate)
      && (TypeId(p) in {0, 8, 10, 11, 12} ==> r.value.dataType == pt.dataType)
  {
    ClassifyByTag(p);
  }
}
