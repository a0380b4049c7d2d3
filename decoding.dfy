/**
  Conversion of response elements into plain values: the scalar dispatch on
  the datatype tag (`get_element_value`), and the recursive array rule that
  `process_array_type` implements, given here as the functions the
  imperative methods are proved against.
 */
module Decoding {
  import opened Elements

  /** A decoded floating-point number. Widening FLOAT32 to the host's
      double is represented, not computed: the value keeps its source bits. */
  datatype Float = Single(bits32: bv32) | Double(bits64: bv64)

  /** A decoded value: an integer, a float, a string, a date, a datetime, or
      an ordered list of decoded values. */
  datatype Value =
    | IntV(i: int)
    | FloatV(f: Float)
    | StringV(s: string)
    | DateV(d: Date)
    | DatetimeV(t: Datetime)
    | ListV(items: seq<Value>)

  /** The three ways a decode call aborts; each is raised in the source as a
      `BbergException` whose message is `ErrorText`. */
  datatype Error =
    | CorrelationMismatch
    | UnexpectedMessageType(actual: string)
    | UnsupportedDataType(typeName: string)

  datatype Option<T> = None | Some(value: T)

  datatype Result<T> = Success(value: T) | Failure(error: Error) {
    predicate IsFailure() { Failure? }
    function PropagateFailure<U>(): Result<U> requires Failure? { Failure(error) }
    function Extract(): T requires Success? { value }
  }

  /** The exception message the source raises for each error. The message
      for an unexpected type, or an unsupported datatype, ends in the
      offending name. */
  function ErrorText(e: Error): (r: string)
    ensures e.UnexpectedMessageType? ==>
      |e.actual| <= |r| && r[|r| - |e.actual|..] == e.actual
    ensures e.UnsupportedDataType? ==>
      |e.typeName| <= |r| && r[|r| - |e.typeName|..] == e.typeName
  {
    match e
    case CorrelationMismatch => "Got a response with incorrect correlation id!"
    case UnexpectedMessageType(t) => "Expected message of type ReferenceDataResponse but got " + t
    case UnsupportedDataType(n) => "Unsupported data type in response: " + n
  }

  /** The seven datatype tags that `get_element_value` converts. */
  predicate Supported(t: Tag)
  {
    t in {TInt32, TInt64, TFloat32, TFloat64, TDate, TString, TDatetime}
  }

  /** `v` is a value of the decoded kind that matches tag `t`. */
  predicate Conforms(t: Tag, v: Value)
  {
    match t
    case TInt32 => v.IntV? && -0x8000_0000 <= v.i < 0x8000_0000
    case TInt64 => v.IntV? && -0x8000_0000_0000_0000 <= v.i < 0x8000_0000_0000_0000
    case TFloat32 => v.FloatV? && v.f.Single?
    case TFloat64 => v.FloatV? && v.f.Double?
    case TDate => v.DateV?
    case TString => v.StringV?
    case TDatetime => v.DatetimeV?
    case _ => false
  }

  /** The leaf element of datatype `t` that carries the decoded value `v`:
      the inverse of the scalar conversion. */
  function Reencode(t: Tag, v: Value): Element
    requires Conforms(t, v)
  {
    match t
    case TInt32 => Leaf(Int32Value(v.i))
    case TInt64 => Leaf(Int64Value(v.i))
    case TFloat32 => Leaf(Float32Value(v.f.bits32))
    case TFloat64 => Leaf(Float64Value(v.f.bits64))
    case TDate => Leaf(DateValue(v.d))
    case TString => Leaf(StringValue(v.s))
    case TDatetime => Leaf(DatetimeValue(v.t))
  }

  /** `get_element_value`: convert a non-array element by its datatype tag.
      It succeeds exactly on the seven supported tags, with a value of the
      matching kind from which the element is recovered unchanged; on any
      other tag (a record's SEQUENCE included) it fails naming the tag. */
  function ElementValue(e: Element): (r: Result<Value>)
    requires !e.Array?
    ensures r.Success? <==> Supported(TagOf(e))
    ensures r.Failure? ==> r.error == UnsupportedDataType(TagName(TagOf(e)))
    ensures r.Success? ==> Conforms(TagOf(e), r.value) && Reencode(TagOf(e), r.value) == e
  {
    match e
    case Record(_) => Failure(UnsupportedDataType(TagName(TSequence)))
    case Leaf(v) =>
      match v
      case Int32Value(i) => Success(IntV(i as int))
      case Int64Value(i) => Success(IntV(i as int))
      case Float32Value(b) => Success(FloatV(Single(b)))
      case Float64Value(b) => Success(FloatV(Double(b)))
      case DateValue(d) => Success(DateV(d))
      case StringValue(s) => Success(StringV(s))
      case DatetimeValue(t) => Success(DatetimeV(t))
      case OtherValue(n) => Failure(UnsupportedDataType(n))
  }

  /** The value of one element: an array goes through the array rule and
      becomes a list, anything else through the scalar conversion. */
  function Decode(e: Element): Result<Value>
  {
    if e.Array? then
      match DecodeArray(e.items)
      case Success(vs) => Success(ListV(vs))
      case Failure(err) => Failure(err)
    else
      ElementValue(e)
  }

  /** The array rule: the entries' values in index order, or the error of
      the first entry (depth first) that fails. */
  function DecodeArray(items: seq<Element>): Result<seq<Value>>
  {
    if items == [] then Success([])
    else
      match Decode(items[0])
      case Failure(err) => Failure(err)
      case Success(v) =>
        match DecodeArray(items[1..])
        case Failure(err) => Failure(err)
        case Success(vs) => Success([v] + vs)
  }

  /** A partial list `p` of values in front of the outcome of the rest. */
  function Prepend(p: seq<Value>, r: Result<seq<Value>>): Result<seq<Value>>
  {
    match r
    case Success(vs) => Success(p + vs)
    case Failure(err) => Failure(err)
  }

  /** Every leaf reachable through arrays has a supported datatype; a record
      is itself such a leaf, of datatype SEQUENCE. */
  predicate Decodable(e: Element)
  {
    if e.Array? then forall i :: 0 <= i < |e.items| ==> Decodable(e.items[i])
    else Supported(TagOf(e))
  }

  /** The nesting structure of an element tree or a value tree. */
  datatype Shape = Point | Branch(children: seq<Shape>)

  function ElementShape(e: Element): Shape
  {
    if e.Array? then Branch(seq(|e.items|, i requires 0 <= i < |e.items| => ElementShape(e.items[i])))
    else Point
  }

  function ValueShape(v: Value): Shape
  {
    if v.ListV? then Branch(seq(|v.items|, i requires 0 <= i < |v.items| => ValueShape(v.items[i])))
    else Point
  }

  /** The array rule succeeds exactly when every entry does, and then yields
      one value per entry, in index order. */
  lemma {:induction false} DecodeArrayShape(items: seq<Element>)
    ensures DecodeArray(items).Success? <==> forall i :: 0 <= i < |items| ==> Decode(items[i]).Success?
    ensures DecodeArray(items).Success? ==>
      |DecodeArray(items).value| == |items| &&
      forall i :: 0 <= i < |items| ==> Decode(items[i]) == Success(DecodeArray(items).value[i])
  {
    if items != [] {
      DecodeArrayShape(items[1..]);
      assert forall i :: 1 <= i < |items| ==> items[i] == items[1..][i - 1];
    }
  }

  /** When the first `k` entries decode and entry `k` does not, the array
      fails with entry `k`'s error. */
  lemma {:induction false} DecodeArrayFirstError(items: seq<Element>, k: nat)
    requires k < |items|
    requires forall j :: 0 <= j < k ==> Decode(items[j]).Success?
    requires Decode(items[k]).Failure?
    ensures DecodeArray(items) == Failure(Decode(items[k]).error)
  {
    if k > 0 {
      assert forall j :: 0 <= j < k - 1 ==> items[1..][j] == items[j + 1];
      DecodeArrayFirstError(items[1..], k - 1);
    }
  }

  /** A value is produced exactly when no leaf of the tree is unsupported:
      a single bad leaf anywhere makes the whole element fail. */
  lemma {:induction false} DecodeSucceedsIff(e: Element)
    ensures Decode(e).Success? <==> Decodable(e)
  {
    if e.Array? {
      DecodeArrayShape(e.items);
      forall i | 0 <= i < |e.items|
        ensures Decode(e.items[i]).Success? <==> Decodable(e.items[i])
      {
        DecodeSucceedsIff(e.items[i]);
      }
    }
  }

  /** Decoding keeps the nesting: arrays of arrays become lists of lists of
      the same depth and lengths. */
  lemma {:induction false} DecodePreservesShape(e: Element)
    requires Decode(e).Success?
    ensures ValueShape(Decode(e).value) == ElementShape(e)
  {
    if e.Array? {
      var vs := DecodeArray(e.items).value;
      DecodeArrayShape(e.items);
      forall i | 0 <= i < |e.items|
        ensures ValueShape(vs[i]) == ElementShape(e.items[i])
      {
        DecodePreservesShape(e.items[i]);
      }
      assert Decode(e).value == ListV(vs);
    }
  }

  /** The datatypes of an element's leaves, depth first: a non-array element
      (a record included) is one leaf, an array contributes the leaves of its
      entries in index order. */
  function Leaves(e: Element): seq<Tag>
  {
    if e.Array? then LeavesOf(e.items) else [TagOf(e)]
  }

  /** The leaves of a sequence of elements, one element after the other. */
  function LeavesOf(items: seq<Element>): seq<Tag>
  {
    if items == [] then [] else Leaves(items[0]) + LeavesOf(items[1..])
  }

  /** The first tag in `ts` that the scalar conversion does not support. */
  function FirstUnsupported(ts: seq<Tag>): (r: Option<Tag>)
    ensures r.None? <==> forall i :: 0 <= i < |ts| ==> Supported(ts[i])
    ensures r.Some? ==> !Supported(r.value)
    ensures r.Some? ==> exists i :: 0 <= i < |ts| && ts[i] == r.value && (forall j :: 0 <= j < i ==> Supported(ts[j]))
  {
    if ts == [] then None
    else if !Supported(ts[0]) then Some(ts[0])
    else
      var r := FirstUnsupported(ts[1..]);
      assert forall i :: 1 <= i < |ts| ==> ts[i] == ts[1..][i - 1];
      if r.Some? then
        var i :| 0 <= i < |ts[1..]| && ts[1..][i] == r.value && (forall j :: 0 <= j < i ==> Supported(ts[1..][j]));
        assert ts[i + 1] == r.value && forall j :: 0 <= j < i + 1 ==> Supported(ts[j]);
        r
      else r
  }

  /** The first unsupported tag of `a + b` is that of `a`, or, when `a` has
      none, that of `b`. */
  lemma {:induction false} FirstUnsupportedAppend(a: seq<Tag>, b: seq<Tag>)
    ensures FirstUnsupported(a + b) ==
      if FirstUnsupported(a).Some? then FirstUnsupported(a) else FirstUnsupported(b)
  {
    if a == [] {
      assert a + b == b;
    } else {
      assert (a + b)[0] == a[0] && (a + b)[1..] == a[1..] + b;
      FirstUnsupportedAppend(a[1..], b);
    }
  }

  /** An element fails to decode exactly when one of its leaves has an
      unsupported datatype, and then the error names the first such leaf's
      datatype, depth first. */
  lemma {:induction false} DecodeError(e: Element)
    ensures Decode(e).Failure? <==> FirstUnsupported(Leaves(e)).Some?
    ensures Decode(e).Failure? ==>
      Decode(e).error == UnsupportedDataType(TagName(FirstUnsupported(Leaves(e)).value))
  {
    if e.Array? {
      DecodeArrayError(e.items);
    }
  }

  /** The array rule fails exactly when a leaf of one of the entries has an
      unsupported datatype, and then with the first such leaf's datatype. */
  lemma {:induction false} DecodeArrayError(items: seq<Element>)
    ensures DecodeArray(items).Failure? <==> FirstUnsupported(LeavesOf(items)).Some?
    ensures DecodeArray(items).Failure? ==>
      DecodeArray(items).error == UnsupportedDataType(TagName(FirstUnsupported(LeavesOf(items)).value))
  {
    if items != [] {
      DecodeError(items[0]);
      DecodeArrayError(items[1..]);
      FirstUnsupportedAppend(Leaves(items[0]), LeavesOf(items[1..]));
    }
  }

  /** One step of the array loop: an entry that decodes to `v` moves from
      the part still to do onto the end of the partial list. */
  lemma DecodeArrayStep(items: seq<Element>, k: nat, done: seq<Value>, v: Value)
    requires k < |items| && Decode(items[k]) == Success(v)
    ensures Prepend(done, DecodeArray(items[k..])) == Prepend(done + [v], DecodeArray(items[k + 1..]))
  {
    assert items[k..][0] == items[k] && items[k..][1..] == items[k + 1..];
    var rest := DecodeArray(items[k + 1..]);
    if rest.Success? {
      assert done + ([v] + rest.value) == (done + [v]) + rest.value;
    }
  }

  /** An entry that fails ends the array loop with its error. */
  lemma DecodeArrayStepFails(items: seq<Element>, k: nat, done: seq<Value>)
    requires k < |items| && Decode(items[k]).Failure?
    ensures Prepend(done, DecodeArray(items[k..])) == Failure(Decode(items[k]).error)
  {
  }
}
