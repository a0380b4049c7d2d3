/**
  The provider's self-describing response tree, as the reference-data
  decoder reads it. The native element API (name lookup, value counts,
  per-index access, iterators) is replaced by plain sequences: an element is
  a leaf scalar, an array of elements, or a record of named elements, and a
  message carries its correlation id, its type string and its already
  unpacked `securityData` entries.
 */
module Elements {

  /** A 32-bit signed integer as delivered by the provider. */
  type Int32 = x: int | -0x8000_0000 <= x < 0x8000_0000

  /** A 64-bit signed integer as delivered by the provider. */
  type Int64 = x: int | -0x8000_0000_0000_0000 <= x < 0x8000_0000_0000_0000

  /** A calendar date in the provider's representation; carried unchanged. */
  datatype Date = Date(year: int, month: int, day: int)

  /** A timestamp in the provider's representation, including its offset
      from UTC in minutes; carried unchanged. */
  datatype Datetime = Datetime(date: Date, hours: int, minutes: int, seconds: int,
                               milliseconds: int, offsetMinutes: int)

  /** The name of a datatype of the provider's schema other than the eight
      the decoder tells apart (BOOL, CHAR, ENUMERATION, TIME, ...). */
  type OtherTypeName = n: string
    | n !in {"INT32", "INT64", "FLOAT32", "FLOAT64", "DATE", "STRING", "DATETIME", "SEQUENCE"}
    witness "BOOL"

  /** The datatype tag of a non-array element. The seven tags the decoder
      supports, SEQUENCE (the tag of a record), and every other tag of the
      provider's schema by its name. */
  datatype Tag =
    | TInt32 | TInt64 | TFloat32 | TFloat64 | TDate | TString | TDatetime
    | TSequence
    | TOther(name: OtherTypeName)

  /** The payload of a leaf element. Each constructor fixes the leaf's
      datatype, so the tag and the stored value cannot disagree. Floats are
      kept as their IEEE 754 bit patterns and never interpreted. */
  datatype Scalar =
    | Int32Value(i32: Int32)
    | Int64Value(i64: Int64)
    | Float32Value(bits32: bv32)
    | Float64Value(bits64: bv64)
    | DateValue(d: Date)
    | StringValue(s: string)
    | DatetimeValue(t: Datetime)
    | OtherValue(typeName: OtherTypeName)  // a leaf of a datatype the decoder does not know

  /** A node of the response tree. `Array` is an element whose `isArray`
      holds; `Record` is a SEQUENCE-typed element with named children. */
  datatype Element =
    | Leaf(value: Scalar)
    | Array(items: seq<Element>)
    | Record(fields: seq<Field>)

  /** A named child of a record (`element.name` with its element). */
  datatype Field = Field(name: string, element: Element)

  /** The datatype tag of a non-array element. */
  function TagOf(e: Element): Tag
    requires !e.Array?
  {
    match e
    case Record(_) => TSequence
    case Leaf(v) =>
      match v
      case Int32Value(_) => TInt32
      case Int64Value(_) => TInt64
      case Float32Value(_) => TFloat32
      case Float64Value(_) => TFloat64
      case DateValue(_) => TDate
      case StringValue(_) => TString
      case DatetimeValue(_) => TDatetime
      case OtherValue(n) => TOther(n)
  }

  /** The printed name of a datatype tag, as it appears in error texts. */
  function TagName(t: Tag): string
  {
    match t
    case TInt32 => "INT32"
    case TInt64 => "INT64"
    case TFloat32 => "FLOAT32"
    case TFloat64 => "FLOAT64"
    case TDate => "DATE"
    case TString => "STRING"
    case TDatetime => "DATETIME"
    case TSequence => "SEQUENCE"
    case TOther(n) => n
  }

  /** The correlation token pairing a request with its responses. */
  datatype CorrelationId = CorrelationId(value: int)

  /** One entry of a message's `securityData` array: the entry's `security`
      string and the children of its `fieldData` record, in order. */
  datatype SecurityData = SecurityData(security: string, fieldData: seq<Field>)

  /** One response message of an event. */
  datatype Message = Message(correlationId: CorrelationId, messageType: string,
                             securityData: seq<SecurityData>)
}
