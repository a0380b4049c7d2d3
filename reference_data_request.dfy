/**
  The reference-data request object: the constructor's normalisation of the
  identifiers and its merge of the caller's options over the defaults, and
  the response decoder that walks the messages of an event, written as the
  loops the source runs and proved equal to the functions of `Response`
  and `Decoding`.
 */
module ReferenceData {
  import opened Elements
  import opened Decoding
  import opened Response

  /** How the session connects; the request only stores it. */
  datatype SessionOptions = SessionOptions(host: string, port: int)

  /** The value of one request option. */
  datatype OptionValue =
    | Strings(items: seq<string>)
    | Flag(on: bool)
    | Overrides(pairs: seq<Override>)
    | Text(text: string)
    | Number(n: int)

  /** A field override: the field id and the value to use for it. */
  datatype Override = Override(fieldId: string, value: OptionValue)

  /** Request options keyed by the option's symbol name. */
  type Options = map<string, OptionValue>

  /** The options of a request the caller says nothing about. */
  const DefaultOptions: Options := map[
    "fields" := Strings(["PX_SETTLE"]),
    "useUTCTime" := Flag(true),
    "returnEids" := Flag(false),
    "overrides" := Overrides([])
  ]

  /** `defaults.merge(given)`: every key of either map, each given key with
      the caller's value, every other default key with its default value. */
  function MergeOptions(defaults: Options, given: Options): (r: Options)
    ensures r.Keys == defaults.Keys + given.Keys
    ensures forall k :: k in given ==> r[k] == given[k]
    ensures forall k :: k in defaults && k !in given ==> r[k] == defaults[k]
  {
    defaults + given
  }

  /** What the caller passes as identifiers: a bare identifier, or an
      enumerable collection of them. */
  datatype Identifiers = Single(id: string) | Many(ids: seq<string>)

  /** The identifier list of a request: a bare identifier becomes the list
      holding just it, an enumerable collection is kept as it is. */
  function NormalizeIdentifiers(given: Identifiers): (r: seq<string>)
    ensures given.Single? ==> |r| == 1 && r[0] == given.id
    ensures given.Many? ==> r == given.ids
  {
    match given
    case Single(id) => [id]
    case Many(ids) => ids
  }

  class ReferenceDataRequest {
    var sessionOptions: SessionOptions
    var identifiers: seq<string>
    var options: Options
    /** The correlation id responses must carry (`@req_id`); the code that
        sends the request assigns it, and it is nil until then. */
    var reqId: Option<CorrelationId>

    constructor (sessionOptions: SessionOptions, identifiers: Identifiers, optionsArg: Options := map[])
      ensures this.sessionOptions == sessionOptions
      ensures this.identifiers == NormalizeIdentifiers(identifiers)
      ensures options == MergeOptions(DefaultOptions, optionsArg)
      ensures reqId == None
    {
      this.sessionOptions := sessionOptions;
      this.identifiers := NormalizeIdentifiers(identifiers);
      options := MergeOptions(DefaultOptions, optionsArg);
      reqId := None;
    }

    /** Decode the messages of an event into one result map, or fail on the
        first message with a foreign correlation id or an unexpected type,
        or on the first field that cannot be decoded. */
    method ParseResponse(event: seq<Message>) returns (r: Result<ResultMap>)
      ensures r == Parse(reqId, event)
    {
      var result: ResultMap := map[];
      var i := 0;
      while i < |event|
        invariant 0 <= i <= |event|
        invariant Parse(reqId, event) == ParseMessages(reqId, event[i..], result)
      {
        var message := event[i];
        ParseMessagesStep(reqId, event, i, result);
        if Some(message.correlationId) != reqId {
          return Failure(CorrelationMismatch);
        }
        var msgType := message.messageType;
        if msgType != ExpectedType {
          return Failure(UnexpectedMessageType(msgType));
        }
        var securityDataArray := message.securityData;
        ghost var before := result;
        var secNum := 0;
        while secNum < |securityDataArray|
          invariant 0 <= secNum <= |securityDataArray|
          invariant AddSecurities(securityDataArray, before) == AddSecurities(securityDataArray[secNum..], result)
        {
          var securityData := securityDataArray[secNum];
          AddSecuritiesStep(securityDataArray, secNum, result);
          var securityName := securityData.security;
          var fieldData := securityData.fieldData;
          // `result[security_name] ||= Hash.new`; the loop below fills that
          // same hash, held here as `fieldMap` and stored back after it.
          var fieldMap := if securityName in result then result[securityName] else map[];
          var fieldNum := 0;
          while fieldNum < |fieldData|
            invariant 0 <= fieldNum <= |fieldData|
            invariant AddFields(fieldData, Base(result, securityName)) == AddFields(fieldData[fieldNum..], fieldMap)
          {
            var fieldElement := fieldData[fieldNum];
            AddFieldsStep(fieldData, fieldNum, fieldMap);
            var value: Result<Value>;
            if fieldElement.element.Array? {
              var items := ProcessArrayType(fieldElement.element);
              value := if items.Success? then Success(ListV(items.value)) else Failure(items.error);
            } else {
              value := ElementValue(fieldElement.element);
            }
            assert value == Decode(fieldElement.element);
            if value.Failure? {
              return Failure(value.error);
            }
            fieldMap := fieldMap[fieldElement.name := value.value];
            fieldNum := fieldNum + 1;
          }
          assert fieldData[fieldNum..] == [];
          result := result[securityName := fieldMap];
          secNum := secNum + 1;
        }
        assert securityDataArray[secNum..] == [];
        i := i + 1;
      }
      return Success(result);
    }

    /** Turn an array element into the list of its entries' values, in
        index order; an entry that is itself an array becomes a nested
        list, any other entry goes through the scalar conversion. */
    method ProcessArrayType(element: Element) returns (r: Result<seq<Value>>)
      requires element.Array?
      ensures r == DecodeArray(element.items)
      decreases element
    {
      var items := element.items;
      var result: seq<Value> := [];
      var num := 0;
      assert items[num..] == items;
      assert Prepend([], DecodeArray(items)) == DecodeArray(items) by {
        if DecodeArray(items).Success? {
          assert [] + DecodeArray(items).value == DecodeArray(items).value;
        }
      }
      while num < |items|
        invariant 0 <= num <= |items|
        invariant DecodeArray(items) == Prepend(result, DecodeArray(items[num..]))
      {
        var subElement := items[num];
        var values: Result<Value>;
        if subElement.Array? {
          var nested := ProcessArrayType(subElement);
          values := if nested.Success? then Success(ListV(nested.value)) else Failure(nested.error);
        } else {
          values := ElementValue(subElement);
        }
        assert values == Decode(subElement);
        if values.Failure? {
          DecodeArrayStepFails(items, num, result);
          return Failure(values.error);
        }
        DecodeArrayStep(items, num, result, values.value);
        result := result + [values.value];
        num := num + 1;
      }
      assert items[num..] == [] && result + [] == result;
      return Success(result);
    }

    /** Map every child of an element to its scalar value, by name. Nothing
        in the request calls it. */
    method GetElementValues(subElement: Element) returns (r: Result<FieldMap>)
      requires forall i :: 0 <= i < |Children(subElement)| ==> !Children(subElement)[i].element.Array?
      ensures r == ScalarFields(Children(subElement), map[])
    {
      var values: FieldMap := map[];
      var children := Children(subElement);
      var k := 0;
      while k < |children|
        invariant 0 <= k <= |children|
        invariant ScalarFields(children, map[]) == ScalarFields(children[k..], values)
      {
        var e := children[k];
        assert children[k..][0] == e && children[k..][1..] == children[k + 1..];
        var v := ElementValue(e.element);
        if v.Failure? {
          return Failure(v.error);
        }
        values := values[e.name := v.value];
        k := k + 1;
      }
      return Success(values);
    }
  }
}
