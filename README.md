# Reference-data response decoder (bberg), modelled in Dafny

`Bberg::Requests::ReferenceDataRequest` asks the market-data provider for
reference data on a list of securities and decodes the reply. The reply is
an event of messages. Each message carries a correlation id, a message type,
and a `securityData` array. Each entry of that array names a security and
holds a `fieldData` record of typed elements. This project models:

- the decoder (`parse_response`, `process_array_type`, `get_element_value`,
  and the unused `get_element_values`);
- the constructor's normalisation of identifiers;
- the constructor's merge of the caller's options over `DEFAULT_OPTIONS`.

Files:

- `elements.dfy` (module `Elements`): the provider's element tree.
  - An element is a `Leaf` scalar, an `Array` of elements, or a `Record`
    of named fields.
  - A record's datatype is SEQUENCE.
  - Every leaf carries its own datatype: INT32, INT64, FLOAT32, FLOAT64,
    DATE, STRING, DATETIME, or any other by a name that is none of these
    or SEQUENCE.
  - A message holds its correlation id, its type string and its
    `securityData` entries.
- `decoding.dfy` (module `Decoding`): decoded values, the three errors and
  their exception texts, `ElementValue` (the tag dispatch), and the array
  rule `DecodeArray`, with lemmas about success, order, first error and
  shape.
- `response.dfy` (module `Response`): what `parse_response` computes, as
  three nested folds.
  - `ParseMessages` walks the messages.
  - `AddSecurities` walks one message's entries.
  - `AddFields` walks one entry's fields.
  - The lemmas state which keys the result has and which value each field
    ends with, how later messages merge into earlier ones, and when and with
    which error the call fails.
- `reference_data_request.dfy` (module `ReferenceData`): the class
  `ReferenceDataRequest`.
  - Fields: the session options, the identifier list, the merged options,
    and the correlation id `reqId`.
  - Its constructor.
  - `ParseResponse`, `ProcessArrayType` and `GetElementValues`, written as
    the loops of the source. Each is proved to return exactly what the
    corresponding function returns.

Two behaviours of the code are modelled as written:

- An entry inside an array goes straight to the scalar conversion when it
  is not itself an array (lib/bberg/requests/reference_data_request.rb:105-108).
  So an array of records is rejected with "Unsupported data type in
  response: SEQUENCE". A field shaped like a dividend history (an array of
  `{DATE, AMT}` records) therefore makes the whole `parse_response` fail
  instead of producing a list of field maps: such a field never becomes a
  list of field maps, the call raises instead
  (`Response.ArrayOfRecordsRejected`).
- A record directly under `fieldData` is rejected the same way.
  `get_element_values`, the one routine that would build a map from a
  record, is never called. It is modelled on its own
  (`GetElementValues`, `ScalarFields`), and nothing uses it.

The correlation id `@req_id` is assigned by code that sends the request.
That code is in `refdata_request`, which is not part of this model. In the
model `reqId` is a public field: `None`, Ruby's nil, until a caller assigns
it.

## Model

| member | source | states |
|---|---|---|
| `Decoding.ElementValue` | lib/bberg/requests/reference_data_request.rb:125-144 | succeeds exactly on the seven tags INT32, INT64, FLOAT32, FLOAT64, DATE, STRING, DATETIME, with a value of the matching kind (integers within their width) from which the element is recovered unchanged; any other tag, a record's SEQUENCE included, fails with `UnsupportedDataType` naming the tag |
| `Decoding.ErrorText` | lib/bberg/requests/reference_data_request.rb:71-73 | the exception message for each error; the message for an unexpected type ends with the type received, and the one for an unsupported datatype ends with the datatype's name |
| `Decoding.DecodeArrayShape` | lib/bberg/requests/reference_data_request.rb:101-113 | the array rule succeeds exactly when every entry decodes, and then yields one value per entry (length = number of values), in index order, entry i giving value i |
| `Decoding.DecodeArrayFirstError` | lib/bberg/requests/reference_data_request.rb:103-111 | when entries before k decode and entry k fails, the whole array fails with entry k's error |
| `Decoding.DecodeSucceedsIff` | lib/bberg/requests/reference_data_request.rb:105-108 | a field or entry decodes exactly when every leaf reachable through nested arrays has a supported datatype: one bad leaf anywhere aborts |
| `Decoding.DecodeError` | lib/bberg/requests/reference_data_request.rb:85-89 | a field's element fails to decode exactly when one of its leaves (depth first through nested arrays) has an unsupported datatype, and then the error is `UnsupportedDataType` naming the first such leaf's datatype |
| `Decoding.DecodeArrayError` | lib/bberg/requests/reference_data_request.rb:101-113 | the array rule fails exactly when a leaf of one of its entries has an unsupported datatype, and then with `UnsupportedDataType` naming the first such leaf's datatype, in index order and depth first |
| `Decoding.FirstUnsupported` | lib/bberg/requests/reference_data_request.rb:141-143 | the first datatype in a leaf order that the scalar conversion rejects: none exactly when all are supported; otherwise an unsupported one with every earlier one supported |
| `Decoding.DecodePreservesShape` | lib/bberg/requests/reference_data_request.rb:101-113 | a decoded value has the nesting shape of its element: arrays of arrays become lists of lists of the same depth and lengths |
| `Response.AddFieldsSucceedsIff` | lib/bberg/requests/reference_data_request.rb:83-91 | the field loop succeeds exactly when every field of the entry decodes |
| `Response.AddFieldsResult` | lib/bberg/requests/reference_data_request.rb:83-91 | after the field loop, the map holds its earlier keys plus the field names; each written name holds the value of its last write (last write wins); every other key keeps its value |
| `Response.AddFieldsAppend` | lib/bberg/requests/reference_data_request.rb:83-91 | writing fields a + b is writing a, then b into the resulting map |
| `Response.AddFieldsError` | lib/bberg/requests/reference_data_request.rb:83-91 | the field loop fails exactly when some leaf of some field has an unsupported datatype, and then with `UnsupportedDataType` naming the first such leaf's datatype, in field order |
| `Response.AddSecuritiesError` | lib/bberg/requests/reference_data_request.rb:76-92 | the entry loop fails exactly when some leaf of some entry's fields has an unsupported datatype, and then with `UnsupportedDataType` naming the first such leaf's datatype, in entry order |
| `Response.AddSecuritiesSucceedsIff` | lib/bberg/requests/reference_data_request.rb:76-92 | the entry loop succeeds exactly when every field of every entry decodes, whatever the result so far |
| `Response.AddSecuritiesResult` | lib/bberg/requests/reference_data_request.rb:76-92 | after the entry loop, the result holds its earlier securities plus every entry's security; each security's map is its existing map (or a new empty one, `||=`) with all fields written for it applied in order |
| `Response.ParseMessagesAppend` | lib/bberg/requests/reference_data_request.rb:68-93 | messages are processed in order: messages a + b are a, then b from the result of a |
| `Response.ParseMessagesIsAddSecurities` | lib/bberg/requests/reference_data_request.rb:68-93 | a successful parse equals processing all entries of all messages, in order, into one result |
| `Response.ParseSucceedsIff` | lib/bberg/requests/reference_data_request.rb:64-95 | the call succeeds exactly when every message has the request's correlation id, the type ReferenceDataResponse, and only decodable fields; otherwise it fails and returns no result map |
| `Response.ParseFirstError` | lib/bberg/requests/reference_data_request.rb:68-93 | with all earlier messages accepted, a message with a foreign correlation id fails the call with `CorrelationMismatch`; one with the right id and another type fails it with `UnexpectedMessageType` carrying that type; one with the right id and type that is still not accepted fails it with `UnsupportedDataType` naming the datatype of its first unsupported leaf (entry, field and depth-first order) |
| `Response.ParseResult` | lib/bberg/requests/reference_data_request.rb:76-90 | on success the result's keys are exactly the securities of all entries; a security's field names are exactly the names written for it; each field holds the decoded value of its last write, through the array rule when the element is an array and the scalar conversion otherwise |
| `Response.LaterMessageMerges` | lib/bberg/requests/reference_data_request.rb:81-90 | a later message adds its securities; securities seen before keep the fields it does not write, and the fields it writes take its last value |
| `Response.ScalarFieldsSucceedsIff` | lib/bberg/requests/reference_data_request.rb:115-123 | the scalar-only record map succeeds exactly when every child has a supported datatype, so a nested record child always fails |
| `Response.ScalarFieldsResult` | lib/bberg/requests/reference_data_request.rb:115-123 | on success its keys are the earlier keys and the children's names, each name holds the scalar value of its last child (last write wins), and every other key keeps its value |
| `Response.ArrayOfRecordsRejected` | lib/bberg/requests/reference_data_request.rb:105-108 | a message with a dividend-history-shaped field (array of records) fails the whole parse with `UnsupportedDataType("SEQUENCE")` |
| `ReferenceData.MergeOptions` | lib/bberg/requests/reference_data_request.rb:34 | the merged options have the keys of both maps; each key the caller gave has the caller's value; every other default key keeps its default |
| `ReferenceData.NormalizeIdentifiers` | lib/bberg/requests/reference_data_request.rb:28-32 | a bare identifier becomes the one-element list holding it; an enumerable collection is kept unchanged |
| `ReferenceData.ReferenceDataRequest.constructor` | lib/bberg/requests/reference_data_request.rb:25-35 | stores the session options, the normalised identifiers, and `DEFAULT_OPTIONS` merged with the caller's options; the correlation id is still nil |
| `ReferenceData.ReferenceDataRequest.ParseResponse` | lib/bberg/requests/reference_data_request.rb:64-95 | the nested loops return exactly `Parse(reqId, event)`: the merged result, or the first error in message, entry, field and depth-first order |
| `ReferenceData.ReferenceDataRequest.ProcessArrayType` | lib/bberg/requests/reference_data_request.rb:101-113 | the loop, recursing on nested arrays, returns exactly the array rule's outcome for the element's entries |
| `ReferenceData.ReferenceDataRequest.GetElementValues` | lib/bberg/requests/reference_data_request.rb:115-123 | the loop over the children returns exactly the scalar-only map of the element's children, whose success `ScalarFieldsSucceedsIff` and whose keys and values `ScalarFieldsResult` state |

## Left out

- `create_request` (lib/bberg/requests/reference_data_request.rb:40-59): it only drives the provider's native request API and `convert_value_to_bberg`, which is defined in `refdata_request`, and `refdata_request` is not part of this model.
- `convert_to_rb_date` and `convert_to_rb_time` are not part of this model. Dates and datetimes pass through unchanged.
- Floating point: a FLOAT32 or FLOAT64 value is carried as its bit pattern. The widening of FLOAT32 to a double is recorded, not computed.
- The native iterators and lookups (`messageIterator`, `getValueAsElement`, `getElement`, `getElementAsString`, `elementIterator`) are replaced by sequences. An entry without a `security` string or a `fieldData` record, on which the native lookup would raise, cannot be expressed.
- Decoding.ElementValue: requires a non-array element. The source never passes it an array on the `parse_response` path. What the native scalar accessors do with an array element is not modelled.
- ReferenceData.ReferenceDataRequest.GetElementValues: requires that no child is an array. Unlike `parse_response`, `get_element_values` does pass every child, an array included, to `get_element_value`; what the native scalar accessors do with an array element is not modelled, so such a child is excluded. The routine is never called.
- Ruby hashes keep insertion order; Dafny maps do not. The model does not capture the order of keys in the result or in the options.
- Identifier normalisation takes the caller's choice between one identifier and a list, in place of Ruby's `respond_to? 'each'` probe. Enumerables other than a list of strings (a Hash, say) are not modelled.
- The source raises one exception class, `BbergException`, with a message. The model tells the three causes apart by constructor and gives the message through `ErrorText`.
- The session options are only stored. Session setup, connection handling and the sending of the request (which assigns `@req_id`) are outside this model.
