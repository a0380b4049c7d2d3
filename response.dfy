/**
  What one call of `parse_response` computes, as functions over the message
  sequence: each message is validated (correlation id, then type), then
  every `securityData` entry's fields are decoded and written into the
  result, `result[security][field] = value`, reusing the entry's existing
  field map. The lemmas say which keys the result has, which value each
  field ends with, and when and how the call fails.
 */
module Response {
  import opened Elements
  import opened Decoding

  /** The fields decoded for one security. */
  type FieldMap = map<string, Value>

  /** The decoded result: security name to field name to value. */
  type ResultMap = map<string, FieldMap>

  /** The only message type the decoder accepts. */
  const ExpectedType: string := "ReferenceDataResponse"

  /** The names of a sequence of fields. */
  function FieldNames(fields: seq<Field>): (r: set<string>)
    ensures forall i :: 0 <= i < |fields| ==> fields[i].name in r
  {
    if fields == [] then {} else {fields[0].name} + FieldNames(fields[1..])
  }

  /** The position of the last field named `k`. */
  function LastIndex(fields: seq<Field>, k: string): (i: nat)
    requires k in FieldNames(fields)
    ensures i < |fields| && fields[i].name == k
    ensures forall j :: i < j < |fields| ==> fields[j].name != k
  {
    if k in FieldNames(fields[1..]) then
      assert forall j :: 1 < j < |fields| ==> fields[j] == fields[1..][j - 1];
      1 + LastIndex(fields[1..], k)
    else
      assert forall j :: 1 <= j < |fields| ==> fields[j] == fields[1..][j - 1];
      0
  }

  /** The inner loop of `parse_response`: decode each field in order and
      assign it into `m`, aborting on the first field that fails. */
  function AddFields(fields: seq<Field>, m: FieldMap): Result<FieldMap>
  {
    if fields == [] then Success(m)
    else
      match Decode(fields[0].element)
      case Failure(err) => Failure(err)
      case Success(v) => AddFields(fields[1..], m[fields[0].name := v])
  }

  /** Every field of a `securityData` entry decodes. */
  predicate EntryDecodes(e: SecurityData)
  {
    forall j :: 0 <= j < |e.fieldData| ==> Decode(e.fieldData[j].element).Success?
  }

  /** The field map a security starts from: its existing one, or a fresh
      empty one (`result[security_name] ||= Hash.new`). */
  function Base(acc: ResultMap, s: string): FieldMap
  {
    if s in acc then acc[s] else map[]
  }

  /** The loop over one message's `securityData` entries. */
  function AddSecurities(entries: seq<SecurityData>, acc: ResultMap): Result<ResultMap>
  {
    if entries == [] then Success(acc)
    else
      var e := entries[0];
      match AddFields(e.fieldData, Base(acc, e.security))
      case Failure(err) => Failure(err)
      case Success(sub) => AddSecurities(entries[1..], acc[e.security := sub])
  }

  /** One step of the field loop, from position `k`. */
  lemma AddFieldsStep(fields: seq<Field>, k: nat, m: FieldMap)
    requires k < |fields|
    ensures AddFields(fields[k..], m) ==
      match Decode(fields[k].element)
      case Failure(err) => Failure(err)
      case Success(v) => AddFields(fields[k + 1..], m[fields[k].name := v])
  {
  }

  /** One step of the entry loop, from position `k`. */
  lemma AddSecuritiesStep(entries: seq<SecurityData>, k: nat, acc: ResultMap)
    requires k < |entries|
    ensures AddSecurities(entries[k..], acc) ==
      match AddFields(entries[k].fieldData, Base(acc, entries[k].security))
      case Failure(err) => Failure(err)
      case Success(sub) => AddSecurities(entries[k + 1..], acc[entries[k].security := sub])
  {
  }

  /** The security names of a sequence of entries. */
  function SecurityNames(entries: seq<SecurityData>): set<string>
  {
    if entries == [] then {} else {entries[0].security} + SecurityNames(entries[1..])
  }

  /** The fields written for security `s` by a sequence of entries, in the
      order they are written. */
  function FieldsFor(entries: seq<SecurityData>, s: string): seq<Field>
  {
    if entries == [] then []
    else (if entries[0].security == s then entries[0].fieldData else []) + FieldsFor(entries[1..], s)
  }

  /** The loop over the messages of an event, starting from result `acc`. */
  function ParseMessages(reqId: Option<CorrelationId>, msgs: seq<Message>, acc: ResultMap): Result<ResultMap>
  {
    if msgs == [] then Success(acc)
    else if Some(msgs[0].correlationId) != reqId then Failure(CorrelationMismatch)
    else if msgs[0].messageType != ExpectedType then Failure(UnexpectedMessageType(msgs[0].messageType))
    else
      match AddSecurities(msgs[0].securityData, acc)
      case Failure(err) => Failure(err)
      case Success(acc') => ParseMessages(reqId, msgs[1..], acc')
  }

  /** One step of the message loop, from position `k`. */
  lemma ParseMessagesStep(reqId: Option<CorrelationId>, msgs: seq<Message>, k: nat, acc: ResultMap)
    requires k < |msgs|
    ensures ParseMessages(reqId, msgs[k..], acc) ==
      if Some(msgs[k].correlationId) != reqId then Failure(CorrelationMismatch)
      else if msgs[k].messageType != ExpectedType then Failure(UnexpectedMessageType(msgs[k].messageType))
      else
        match AddSecurities(msgs[k].securityData, acc)
        case Failure(err) => Failure(err)
        case Success(acc') => ParseMessages(reqId, msgs[k + 1..], acc')
  {
  }

  /** `parse_response` for a request whose correlation id is `reqId`. */
  function Parse(reqId: Option<CorrelationId>, msgs: seq<Message>): Result<ResultMap>
  {
    ParseMessages(reqId, msgs, map[])
  }

  /** All `securityData` entries of an event, message after message. */
  function AllEntries(msgs: seq<Message>): seq<SecurityData>
  {
    if msgs == [] then [] else msgs[0].securityData + AllEntries(msgs[1..])
  }

  /** A message the decoder accepts in full: it answers request `reqId`, it
      has the expected type, and every one of its fields decodes. */
  predicate MessageAccepted(reqId: Option<CorrelationId>, m: Message)
  {
    && Some(m.correlationId) == reqId
    && m.messageType == ExpectedType
    && forall i :: 0 <= i < |m.securityData| ==> EntryDecodes(m.securityData[i])
  }

  /** Writing the fields `a + b` is writing `a`, then `b` over the result. */
  lemma {:induction false} AddFieldsAppend(a: seq<Field>, b: seq<Field>, m: FieldMap)
    ensures AddFields(a + b, m) ==
      match AddFields(a, m)
      case Failure(err) => Failure(err)
      case Success(m') => AddFields(b, m')
  {
    if a == [] {
      assert a + b == b;
    } else {
      assert (a + b)[0] == a[0] && (a + b)[1..] == a[1..] + b;
      match Decode(a[0].element)
      case Failure(_) =>
      case Success(v) => AddFieldsAppend(a[1..], b, m[a[0].name := v]);
    }
  }

  /** Writing fields succeeds exactly when every field decodes, whatever
      the starting map. */
  lemma {:induction false} AddFieldsSucceedsIff(fields: seq<Field>, m: FieldMap)
    ensures AddFields(fields, m).Success? <==>
      forall i :: 0 <= i < |fields| ==> Decode(fields[i].element).Success?
  {
    if fields != [] {
      var rest := fields[1..];
      assert forall i :: 1 <= i < |fields| ==> fields[i] == rest[i - 1];
      match Decode(fields[0].element)
      case Failure(_) =>
      case Success(v) => AddFieldsSucceedsIff(rest, m[fields[0].name := v]);
    }
  }

  /** A successful write of fields holds the old keys and the written
      names; a written name holds the value of its last write, and every
      other key is unchanged. */
  lemma {:induction false} AddFieldsResult(fields: seq<Field>, m: FieldMap)
    requires AddFields(fields, m).Success?
    ensures
      var r := AddFields(fields, m).value;
      && r.Keys == m.Keys + FieldNames(fields)
      && (forall k :: k in FieldNames(fields) ==>
            Decode(fields[LastIndex(fields, k)].element) == Success(r[k]))
      && (forall k :: k in m && k !in FieldNames(fields) ==> r[k] == m[k])
  {
    if fields != [] {
      var rest := fields[1..];
      var v := Decode(fields[0].element).value;
      var m1 := m[fields[0].name := v];
      assert AddFields(fields, m) == AddFields(rest, m1);
      assert FieldNames(fields) == {fields[0].name} + FieldNames(rest);
      AddFieldsResult(rest, m1);
      var r := AddFields(rest, m1).value;
      forall k | k in FieldNames(fields)
        ensures Decode(fields[LastIndex(fields, k)].element) == Success(r[k])
      {
        if k in FieldNames(rest) {
          assert LastIndex(fields, k) == 1 + LastIndex(rest, k);
          assert fields[LastIndex(fields, k)] == rest[LastIndex(rest, k)];
        } else {
          assert LastIndex(fields, k) == 0 && r[k] == m1[k] == v;
        }
      }
      forall k | k in m && k !in FieldNames(fields)
        ensures r[k] == m[k]
      {
        assert r[k] == m1[k];
      }
    }
  }

  /** Processing the entries `a + b` is processing `a`, then `b`. */
  lemma {:induction false} AddSecuritiesAppend(a: seq<SecurityData>, b: seq<SecurityData>, acc: ResultMap)
    ensures AddSecurities(a + b, acc) ==
      match AddSecurities(a, acc)
      case Failure(err) => Failure(err)
      case Success(acc') => AddSecurities(b, acc')
  {
    if a == [] {
      assert a + b == b;
    } else {
      assert (a + b)[0] == a[0] && (a + b)[1..] == a[1..] + b;
      match AddFields(a[0].fieldData, Base(acc, a[0].security))
      case Failure(_) =>
      case Success(sub) => AddSecuritiesAppend(a[1..], b, acc[a[0].security := sub]);
    }
  }

  /** Processing entries succeeds exactly when every field of every entry
      decodes, whatever the starting result. */
  lemma {:induction false} AddSecuritiesSucceedsIff(entries: seq<SecurityData>, acc: ResultMap)
    ensures AddSecurities(entries, acc).Success? <==>
      forall i :: 0 <= i < |entries| ==> EntryDecodes(entries[i])
  {
    if entries != [] {
      var e, rest := entries[0], entries[1..];
      assert forall i :: 1 <= i < |entries| ==> entries[i] == rest[i - 1];
      AddFieldsSucceedsIff(e.fieldData, Base(acc, e.security));
      match AddFields(e.fieldData, Base(acc, e.security))
      case Failure(_) =>
      case Success(sub) => AddSecuritiesSucceedsIff(rest, acc[e.security := sub]);
    }
  }

  /** A successful run over entries has the old securities and the entries'
      securities, and each security's field map is its starting map with
      all the fields written for it applied in order. */
  lemma {:induction false} AddSecuritiesResult(entries: seq<SecurityData>, acc: ResultMap)
    requires AddSecurities(entries, acc).Success?
    ensures
      var r := AddSecurities(entries, acc).value;
      && r.Keys == acc.Keys + SecurityNames(entries)
      && forall s :: s in r ==> AddFields(FieldsFor(entries, s), Base(acc, s)) == Success(r[s])
  {
    if entries != [] {
      var e, rest := entries[0], entries[1..];
      var sub := AddFields(e.fieldData, Base(acc, e.security)).value;
      var acc1 := acc[e.security := sub];
      assert AddSecurities(entries, acc) == AddSecurities(rest, acc1);
      AddSecuritiesResult(rest, acc1);
      var r := AddSecurities(rest, acc1).value;
      forall s | s in r
        ensures AddFields(FieldsFor(entries, s), Base(acc, s)) == Success(r[s])
      {
        if s == e.security {
          assert FieldsFor(entries, s) == e.fieldData + FieldsFor(rest, s);
          AddFieldsAppend(e.fieldData, FieldsFor(rest, s), Base(acc, s));
        } else {
          assert FieldsFor(entries, s) == [] + FieldsFor(rest, s) == FieldsFor(rest, s);
          assert Base(acc1, s) == Base(acc, s);
        }
      }
    }
  }

  /** Messages run in order: messages `a + b` are `a`, then `b`. */
  lemma {:induction false} ParseMessagesAppend(reqId: Option<CorrelationId>, a: seq<Message>, b: seq<Message>, acc: ResultMap)
    ensures ParseMessages(reqId, a + b, acc) ==
      match ParseMessages(reqId, a, acc)
      case Failure(err) => Failure(err)
      case Success(acc') => ParseMessages(reqId, b, acc')
  {
    if a == [] {
      assert a + b == b;
    } else {
      assert (a + b)[0] == a[0] && (a + b)[1..] == a[1..] + b;
      match AddSecurities(a[0].securityData, acc)
      case Failure(_) =>
      case Success(acc') => ParseMessagesAppend(reqId, a[1..], b, acc');
    }
  }

  /** A successful parse is the processing of all entries of all messages,
      in order. */
  lemma {:induction false} ParseMessagesIsAddSecurities(reqId: Option<CorrelationId>, msgs: seq<Message>, acc: ResultMap)
    requires ParseMessages(reqId, msgs, acc).Success?
    ensures AddSecurities(AllEntries(msgs), acc) == ParseMessages(reqId, msgs, acc)
  {
    if msgs != [] {
      var acc1 := AddSecurities(msgs[0].securityData, acc).value;
      AddSecuritiesAppend(msgs[0].securityData, AllEntries(msgs[1..]), acc);
      ParseMessagesIsAddSecurities(reqId, msgs[1..], acc1);
    }
  }

  /** The leaves of the fields' elements, field after field, depth first. */
  function FieldLeaves(fields: seq<Field>): seq<Tag>
  {
    if fields == [] then [] else Leaves(fields[0].element) + FieldLeaves(fields[1..])
  }

  /** The leaves of all fields of a sequence of entries, entry after entry. */
  function EntryLeaves(entries: seq<SecurityData>): seq<Tag>
  {
    if entries == [] then [] else FieldLeaves(entries[0].fieldData) + EntryLeaves(entries[1..])
  }

  /** The field loop fails exactly when some leaf of some field has an
      unsupported datatype, and then with the first such leaf's datatype,
      in field order and depth first within a field. */
  lemma {:induction false} AddFieldsError(fields: seq<Field>, m: FieldMap)
    ensures AddFields(fields, m).Failure? <==> FirstUnsupported(FieldLeaves(fields)).Some?
    ensures AddFields(fields, m).Failure? ==>
      AddFields(fields, m).error == UnsupportedDataType(TagName(FirstUnsupported(FieldLeaves(fields)).value))
  {
    if fields != [] {
      DecodeError(fields[0].element);
      FirstUnsupportedAppend(Leaves(fields[0].element), FieldLeaves(fields[1..]));
      match Decode(fields[0].element)
      case Failure(_) =>
      case Success(v) => AddFieldsError(fields[1..], m[fields[0].name := v]);
    }
  }

  /** The entry loop fails exactly when some leaf of some entry's fields has
      an unsupported datatype, and then with the first such leaf's datatype,
      in entry order. */
  lemma {:induction false} AddSecuritiesError(entries: seq<SecurityData>, acc: ResultMap)
    ensures AddSecurities(entries, acc).Failure? <==> FirstUnsupported(EntryLeaves(entries)).Some?
    ensures AddSecurities(entries, acc).Failure? ==>
      AddSecurities(entries, acc).error == UnsupportedDataType(TagName(FirstUnsupported(EntryLeaves(entries)).value))
  {
    if entries != [] {
      var e := entries[0];
      AddFieldsError(e.fieldData, Base(acc, e.security));
      FirstUnsupportedAppend(FieldLeaves(e.fieldData), EntryLeaves(entries[1..]));
      match AddFields(e.fieldData, Base(acc, e.security))
      case Failure(_) =>
      case Success(sub) => AddSecuritiesError(entries[1..], acc[e.security := sub]);
    }
  }

  /** The parse succeeds exactly when every message is accepted: a single
      wrong correlation id, wrong type or undecodable leaf in any message
      makes the whole call fail, and then no result map is returned. */
  lemma {:induction false} ParseSucceedsIff(reqId: Option<CorrelationId>, msgs: seq<Message>, acc: ResultMap)
    ensures ParseMessages(reqId, msgs, acc).Success? <==>
      forall i :: 0 <= i < |msgs| ==> MessageAccepted(reqId, msgs[i])
  {
    if msgs != [] {
      assert forall i :: 1 <= i < |msgs| ==> msgs[i] == msgs[1..][i - 1];
      AddSecuritiesSucceedsIff(msgs[0].securityData, acc);
      match AddSecurities(msgs[0].securityData, acc)
      case Failure(_) =>
      case Success(acc1) => ParseSucceedsIff(reqId, msgs[1..], acc1);
    }
  }

  /** When the messages before `k` are accepted, message `k` with the wrong
      correlation id fails the call with `CorrelationMismatch`; with the
      right id but the wrong type it fails with `UnexpectedMessageType`
      carrying the type it got; with the right id and type but not accepted
      it fails with `UnsupportedDataType` naming the datatype of its first
      unsupported leaf. */
  lemma {:induction false} ParseFirstError(reqId: Option<CorrelationId>, msgs: seq<Message>, acc: ResultMap, k: nat)
    requires k < |msgs|
    requires forall j :: 0 <= j < k ==> MessageAccepted(reqId, msgs[j])
    ensures Some(msgs[k].correlationId) != reqId ==>
      ParseMessages(reqId, msgs, acc) == Failure(CorrelationMismatch)
    ensures Some(msgs[k].correlationId) == reqId && msgs[k].messageType != ExpectedType ==>
      ParseMessages(reqId, msgs, acc) == Failure(UnexpectedMessageType(msgs[k].messageType))
    ensures (Some(msgs[k].correlationId) == reqId && msgs[k].messageType == ExpectedType &&
             !MessageAccepted(reqId, msgs[k])) ==>
        && FirstUnsupported(EntryLeaves(msgs[k].securityData)).Some?
        && ParseMessages(reqId, msgs, acc) ==
             Failure(UnsupportedDataType(TagName(FirstUnsupported(EntryLeaves(msgs[k].securityData)).value)))
  {
    AddSecuritiesSucceedsIff(msgs[0].securityData, acc);
    if k > 0 {
      assert forall j :: 0 <= j < k - 1 ==> msgs[1..][j] == msgs[j + 1];
      ParseFirstError(reqId, msgs[1..], AddSecurities(msgs[0].securityData, acc).value, k - 1);
    } else {
      AddSecuritiesError(msgs[0].securityData, acc);
    }
  }

  /** On success the result's keys are exactly the security names of all
      entries of all messages; a security's field names are exactly the
      names written for it, and each holds the value decoded from its last
      write (an array field through the array rule, any other through the
      scalar conversion). */
  lemma ParseResult(reqId: Option<CorrelationId>, msgs: seq<Message>)
    requires Parse(reqId, msgs).Success?
    ensures
      var r := Parse(reqId, msgs).value;
      var all := AllEntries(msgs);
      && r.Keys == SecurityNames(all)
      && forall s :: s in r ==>
           && r[s].Keys == FieldNames(FieldsFor(all, s))
           && forall f :: f in r[s] ==>
                Decode(FieldsFor(all, s)[LastIndex(FieldsFor(all, s), f)].element) == Success(r[s][f])
  {
    var r := Parse(reqId, msgs).value;
    var all := AllEntries(msgs);
    ParseMessagesIsAddSecurities(reqId, msgs, map[]);
    AddSecuritiesResult(all, map[]);
    forall s | s in r
      ensures r[s].Keys == FieldNames(FieldsFor(all, s))
      ensures forall f :: f in r[s] ==>
        Decode(FieldsFor(all, s)[LastIndex(FieldsFor(all, s), f)].element) == Success(r[s][f])
    {
      AddFieldsResult(FieldsFor(all, s), map[]);
    }
  }

  /** A later message merges into the result: securities seen before keep
      their field maps (`||=`), fields the message does not write keep their
      values, fields it writes take its last value, and its new securities
      are added. */
  lemma LaterMessageMerges(reqId: Option<CorrelationId>, msgs: seq<Message>, m: Message)
    requires Parse(reqId, msgs + [m]).Success?
    ensures Parse(reqId, msgs).Success?
    ensures
      var r1 := Parse(reqId, msgs).value;
      var r2 := Parse(reqId, msgs + [m]).value;
      && r2.Keys == r1.Keys + SecurityNames(m.securityData)
      && (forall s, f :: s in r1 && f in r1[s] && f !in FieldNames(FieldsFor(m.securityData, s)) ==>
            f in r2[s] && r2[s][f] == r1[s][f])
      && (forall s, f :: s in r2 && f in FieldNames(FieldsFor(m.securityData, s)) ==>
            var written := FieldsFor(m.securityData, s);
            f in r2[s] && Decode(written[LastIndex(written, f)].element) == Success(r2[s][f]))
  {
    ParseMessagesAppend(reqId, msgs, [m], map[]);
    var r1 := Parse(reqId, msgs).value;
    var r2 := Parse(reqId, msgs + [m]).value;
    assert [m][1..] == [];
    AddSecuritiesResult(m.securityData, r1);
    forall s | s in r2
      ensures AddFields(FieldsFor(m.securityData, s), Base(r1, s)) == Success(r2[s])
    {
    }
    forall s | s in r2 {
      AddFieldsResult(FieldsFor(m.securityData, s), Base(r1, s));
    }
  }

  /** The named children of an element, as its element iterator yields
      them: a record's fields; nothing for a leaf or an array. */
  function Children(e: Element): seq<Field>
  {
    if e.Record? then e.fields else []
  }

  /** `get_element_values`: every child converted by the scalar rule alone
      and assigned under its name, aborting on the first that fails. */
  function ScalarFields(fields: seq<Field>, m: FieldMap): Result<FieldMap>
    requires forall i :: 0 <= i < |fields| ==> !fields[i].element.Array?
  {
    if fields == [] then Success(m)
    else
      match ElementValue(fields[0].element)
      case Failure(err) => Failure(err)
      case Success(v) => ScalarFields(fields[1..], m[fields[0].name := v])
  }

  /** The scalar-only map succeeds exactly when every child has one of the
      seven supported datatypes, so a nested record child always fails. */
  lemma {:induction false} ScalarFieldsSucceedsIff(fields: seq<Field>, m: FieldMap)
    requires forall i :: 0 <= i < |fields| ==> !fields[i].element.Array?
    ensures ScalarFields(fields, m).Success? <==>
      forall i :: 0 <= i < |fields| ==> Supported(TagOf(fields[i].element))
  {
    if fields != [] {
      var rest := fields[1..];
      assert forall i :: 1 <= i < |fields| ==> fields[i] == rest[i - 1];
      match ElementValue(fields[0].element)
      case Failure(_) =>
      case Success(v) => ScalarFieldsSucceedsIff(rest, m[fields[0].name := v]);
    }
  }

  /** A successful scalar-only map holds the old keys and the children's
      names; each name holds the scalar value of its last child, and every
      other key keeps its value. */
  lemma {:induction false} ScalarFieldsResult(fields: seq<Field>, m: FieldMap)
    requires forall i :: 0 <= i < |fields| ==> !fields[i].element.Array?
    requires ScalarFields(fields, m).Success?
    ensures
      var r := ScalarFields(fields, m).value;
      && r.Keys == m.Keys + FieldNames(fields)
      && (forall k :: k in FieldNames(fields) ==>
            ElementValue(fields[LastIndex(fields, k)].element) == Success(r[k]))
      && (forall k :: k in m && k !in FieldNames(fields) ==> r[k] == m[k])
  {
    if fields != [] {
      var rest := fields[1..];
      var v := ElementValue(fields[0].element).value;
      var m1 := m[fields[0].name := v];
      assert ScalarFields(fields, m) == ScalarFields(rest, m1);
      assert FieldNames(fields) == {fields[0].name} + FieldNames(rest);
      ScalarFieldsResult(rest, m1);
      var r := ScalarFields(rest, m1).value;
      forall k | k in FieldNames(fields)
        ensures ElementValue(fields[LastIndex(fields, k)].element) == Success(r[k])
      {
        if k in FieldNames(rest) {
          assert LastIndex(fields, k) == 1 + LastIndex(rest, k);
          assert fields[LastIndex(fields, k)] == rest[LastIndex(rest, k)];
        } else {
          assert LastIndex(fields, k) == 0 && r[k] == m1[k] == v;
        }
      }
      forall k | k in m && k !in FieldNames(fields)
        ensures r[k] == m[k]
      {
        assert r[k] == m1[k];
      }
    }
  }

  /** A field holding an array of records, the shape of a dividend history,
      makes the whole parse fail: the array's entries go through the scalar
      rule, which rejects a record's SEQUENCE datatype. */
  lemma ArrayOfRecordsRejected(id: CorrelationId, price: bv64, amount: bv64, day: Date)
    ensures
      var dividend := Record([Field("DATE", Leaf(DateValue(day))), Field("AMT", Leaf(Float64Value(amount)))]);
      var entry := SecurityData("ABC", [Field("PX_SETTLE", Leaf(Float64Value(price))),
                                        Field("DVD_HIST", Array([dividend]))]);
      Parse(Some(id), [Message(id, ExpectedType, [entry])]) == Failure(UnsupportedDataType("SEQUENCE"))
  {
    var dividend := Record([Field("DATE", Leaf(DateValue(day))), Field("AMT", Leaf(Float64Value(amount)))]);
    var fields := [Field("PX_SETTLE", Leaf(Float64Value(price))), Field("DVD_HIST", Array([dividend]))];
    var err := UnsupportedDataType("SEQUENCE");
    assert DecodeArray([dividend]) == Failure(err) by {
      assert Decode(dividend) == Failure(err);
    }
    assert AddFields(fields, map[]) == Failure(err) by {
      assert fields[1..][1..] == [];
      assert AddFields(fields[1..], map["PX_SETTLE" := FloatV(Double(price))]) == Failure(err);
    }
    assert AddSecurities([SecurityData("ABC", fields)], map[]) == Failure(err);
  }
}
