# Aggregate-command request codec, modelled in Dafny

This project models the codec for the options of MongoDB's `aggregate` command. That codec is the
`AggregationRequest` class of `src/mongo/db/pipeline/aggregation_request.{h,cpp}`.

- **The decoder, `parseFromBSON`**, reads a command object, which is an ordered list of named,
  dynamically typed values. It also takes an explain verbosity that may have been supplied from
  outside. It works in three steps:
  1. It extracts the `pipeline` array.
  2. It scans every field in document order, dispatching on the field's name.
  3. It checks combinations of fields.

  It returns either a populated request or the first error it meets.
- **The encoder, `serializeToCommandObj`**, writes a request back as a command object. It writes
  only the options that differ from their defaults. It writes no cursor and no explain for an
  explain request.

Files:

- `results.dfy` defines `Option` and `Result`.
- `bson.dfy` defines documents as `seq<(string, Value)>`. It has lookup by name (`Lookup`, the
  first field of a name, as `cmdObj[name]` finds it) and the truthiness of a value.
- `aggregation_command.dfy` has:
  - the field names, the default batch size (101) and the error codes;
  - the request as a value (`Request`) and its defaults;
  - the serialiser, with lemmas for its emission policy.
- `aggregation_parse.dfy` has `Parse`, the reference decoder: `PipelineStages`, then `Scan` (a fold
  of `ApplyField` over the fields), then `CrossCheck`. It also has `FieldError`, an independent
  statement of the error each single field raises.
- `aggregation_parse_properties.dfy` has the lemmas about `Parse`:
  - the first bad field decides the error;
  - when parsing succeeds, in both directions;
  - the order of the cross-field checks;
  - the exact request built;
  - the round trip through the serialiser.
- `aggregation_request.dfy` has the class `AggregationRequest`:
  - `const` namespace and pipeline;
  - the mutable options, each with a setter that changes only its own field;
  - the imperative `ParseFromBson`, whose two loops (over the pipeline array and over the fields)
    are proved to compute `Parse`.
- `aggregation_examples.dfy` works through concrete requests.

Collaborator code that this model leaves out is replaced as follows:

- The cursor-options parser (`CursorRequest::parseCommandCursorOptions`) is always called with the
  whole command object and the default 101. Its outcome therefore depends on the command object
  alone, and it is a parameter `cursorOptions: Result<int, Error>`.
- The read-only storage flag is the parameter `readOnly`.
- Foreign field names get their well-known values: `maxTimeMS`, `writeConcern`, `readConcern`
  and `bypassDocumentValidation`.

## Model

| member | source | states |
|---|---|---|
| Bson.Lookup | src/mongo/db/pipeline/aggregation_request.cpp:70-73 | `cmdObj[name]` finds a value exactly when a field of that name exists, and the value found is that of a field of that name |
| Bson.LookupFirst | src/mongo/db/pipeline/aggregation_request.cpp:70 | `cmdObj[name]` finds the first field of that name in document order |
| Bson.LastOfLast | src/mongo/db/pipeline/aggregation_request.cpp:96-172 | `LastOf` finds the last field of a name: the one whose setter call comes last in the field loop |
| Bson.Truthy | src/mongo/db/pipeline/aggregation_request.cpp:168-169 | the bypass option's `trueValue()`: a value is false exactly when it is null, undefined, `false` or a zero integer |
| AggregationCommand.CollectEmits | src/mongo/db/pipeline/aggregation_request.cpp:210-226 | a document built from named values that may be missing contains the value of a uniquely named entry when it is present, and no field of that name when it is missing |
| AggregationCommand.Defaults | src/mongo/db/pipeline/aggregation_request.cpp:60-63 | the default options over a namespace and a pipeline; it has no contract of its own: the constructor's contract and `EmptyPipelineDefaults` state them (batch size 101, empty collation and hint, no explain, every flag false) |
| AggregationCommand.SerializedEntries | src/mongo/db/pipeline/aggregation_request.cpp:212-225 | the eight named values the encoder writes, in its order, each missing when it is at its default; it has no contract of its own: `SerializeRequired`, `SerializeFlags`, `SerializeOptions` and `SerializeNothingElse` state what they make the output hold |
| AggregationCommand.SerializeToCommandObj | src/mongo/db/pipeline/aggregation_request.cpp:210-226 | serializeToCommandObj itself; it has no contract of its own: `SerializeRequired`, `SerializeFlags`, `SerializeOptions` and `SerializeNothingElse` state its emission policy, and `SerializeRoundTrip` states that parsing its output gives the request back |
| AggregationCommand.SerializeRequired | src/mongo/db/pipeline/aggregation_request.cpp:213-214 | the output always has `aggregate` set to the collection name and `pipeline` set to the stored stages, and no other field of either name |
| AggregationCommand.SerializeFlags | src/mongo/db/pipeline/aggregation_request.cpp:215-219 | `allowDiskUse`, `fromRouter` and the bypass option appear, as `true`, exactly when they are set |
| AggregationCommand.SerializeOptions | src/mongo/db/pipeline/aggregation_request.cpp:220-225 | `collation` and `hint` appear exactly when non-empty; `cursor: {batchSize}` appears exactly when the request is not an explain |
| AggregationCommand.SerializeNothingElse | src/mongo/db/pipeline/aggregation_request.cpp:210-226 | explain is never written, and every written field is one of the eight listed |
| AggregationParse.PipelineStages | src/mongo/db/pipeline/aggregation_request.cpp:70-83 | the pipeline is accepted exactly when the field exists, is an array and holds only objects; it fails otherwise with `TypeMismatch` on `pipeline`; on success the stages are the array's objects in order |
| AggregationParse.Classify | src/mongo/db/pipeline/aggregation_request.cpp:96-108 | each field name falls under exactly one rule: a `$` name or a name parsed elsewhere is ignored, each known name gets its own rule, and any other name is unrecognised |
| AggregationParse.FieldError | src/mongo/db/pipeline/aggregation_request.cpp:110-172 | the error a single field raises, whatever came before it: a failing cursor parser or a negative batch size on `cursor`, `IllegalOperation` for allowDiskUse in read-only mode before its type check, `TypeMismatch` for a non-object collation or a non-boolean explain, fromRouter or allowDiskUse, `FailedToParse` for a hint that is neither object nor string and for an unrecognised name, and nothing for ignored names and the bypass option; it has no contract of its own: `ApplyField`'s contract ties the scan step to it, and `ScanSucceedsIff`, `ScanStopsAtFirstBadField` and `ParseFailsAtFirstBadField` state what it decides |
| AggregationParse.ApplyField | src/mongo/db/pipeline/aggregation_request.cpp:110-172 | one field fails exactly when `FieldError` names an error for it, and then with that error; a field never changes the namespace or the pipeline |
| AggregationParse.Scan | src/mongo/db/pipeline/aggregation_request.cpp:96-174 | scanning the fields never changes the namespace or the pipeline |
| AggregationParse.CrossCheck | src/mongo/db/pipeline/aggregation_request.cpp:176-205 | the checks across fields keep the namespace and the pipeline |
| AggregationParse.Parse | src/mongo/db/pipeline/aggregation_request.cpp:65-208 | a bad pipeline fails with `TypeMismatch` before any other field is looked at; a parsed request has the namespace given and the accepted stages |
| AggregationParseProperties.ScanFailurePersists | src/mongo/db/pipeline/aggregation_request.cpp:96-174 | once a field has failed, no later field changes the outcome (early return) |
| AggregationParseProperties.ScanSucceedsIff | src/mongo/db/pipeline/aggregation_request.cpp:96-174 | the scan succeeds exactly when no field raises an error of its own |
| AggregationParseProperties.ScanStopsAtFirstBadField | src/mongo/db/pipeline/aggregation_request.cpp:96-174 | the scan reports the error of the first field in document order that raises one |
| AggregationParseProperties.StepCursorExplain | src/mongo/db/pipeline/aggregation_request.cpp:110-149 | one accepted field sets the batch size and the cursor flag only if it is `cursor`, sets the explain flag only if it is `explain`, and sets `QueryPlanner` only if it is `explain: true` |
| AggregationParseProperties.StepDocuments | src/mongo/db/pipeline/aggregation_request.cpp:120-138 | one accepted field changes the collation only if it is `collation` (to its object), and the hint only if it is `hint` (an object as it is, a name `s` as `{$hint: s}`) |
| AggregationParseProperties.StepFlags | src/mongo/db/pipeline/aggregation_request.cpp:150-169 | one accepted field changes `fromRouter` or `allowDiskUse` to its boolean only if it has that name, and the bypass option to its truthiness only if it has that name |
| AggregationParseProperties.ScanCursorExplain | src/mongo/db/pipeline/aggregation_request.cpp:96-174 | after a successful scan, a cursor has been seen exactly when a `cursor` field exists, and the batch size then comes from the cursor parser; an explain field has been seen exactly when one exists; explain is `QueryPlanner` exactly when some field is `explain: true` (`explain: false` leaves it absent) |
| AggregationParseProperties.ScanDocuments | src/mongo/db/pipeline/aggregation_request.cpp:120-138 | after a successful scan, the collation and the hint are those of the last field of each name |
| AggregationParseProperties.ScanFlags | src/mongo/db/pipeline/aggregation_request.cpp:150-169 | after a successful scan, each boolean option is that of the last field of its name |
| AggregationParseProperties.ParseFailsAtFirstBadField | src/mongo/db/pipeline/aggregation_request.cpp:96-174 | once the pipeline is accepted, parsing fails with the error of the first field that raises one (an unrecognised name, a mistyped option, allowDiskUse in read-only mode, a failing cursor) |
| AggregationParseProperties.ParseSucceedsIff | src/mongo/db/pipeline/aggregation_request.cpp:65-208 | parsing succeeds exactly when the pipeline is accepted, no field raises an error, explain is not given both inside and outside, a cursor is present or explain is set, and an explain has neither `readConcern` nor `writeConcern` |
| AggregationParseProperties.ParseCrossCheckOrder | src/mongo/db/pipeline/aggregation_request.cpp:176-205 | with acceptable fields, the cross-field checks fail in this order, each with `FailedToParse`: explain given twice, no cursor outside explain, readConcern with explain, writeConcern with explain |
| AggregationParseProperties.ParseResult | src/mongo/db/pipeline/aggregation_request.cpp:65-208 | a parsed request is the namespace given, the pipeline array's objects, the cursor's batch size (or 101), each option from the last field of its name, and explain from the outside verbosity or from `explain: true` |
| AggregationParseProperties.SerializedPipeline | src/mongo/db/pipeline/aggregation_request.cpp:214 | the written pipeline is read back as the same stages |
| AggregationParseProperties.SerializedFieldsAccepted | src/mongo/db/pipeline/aggregation_request.cpp:210-226 | every written field passes its own rule when read back, given that allowDiskUse is not set in read-only mode and that, outside explain, the cursor parser reads the written `cursor: {batchSize: n}` back as `n` |
| AggregationParseProperties.SerializedCrossChecks | src/mongo/db/pipeline/aggregation_request.cpp:210-226 | a written request has no explain, readConcern or writeConcern field, and has a cursor exactly when it is not an explain |
| AggregationParseProperties.SerializedDocumentsReadBack | src/mongo/db/pipeline/aggregation_request.cpp:220-225 | the written collation and hint are read back as written |
| AggregationParseProperties.SerializedFlagsReadBack | src/mongo/db/pipeline/aggregation_request.cpp:215-219 | the written booleans are read back as written |
| AggregationParseProperties.SerializeRoundTrip | src/mongo/db/pipeline/aggregation_request.cpp:65-226 | parsing the serialised request, with its explain verbosity passed back in from outside, gives the same request; an explain's batch size returns to 101, because no cursor is written. It assumes that, outside explain, the cursor parser reads the written `cursor: {batchSize: n}` back as `n`, and that allowDiskUse is not set in read-only mode |
| AggregationExamples.EmptyPipelineDefaults | src/mongo/db/pipeline/aggregation_request.cpp:60-63 | `{pipeline: [], cursor: {}}` parses to the defaults: batch size 101, no collation or hint, not an explain, every flag false |
| AggregationExamples.HintByName | src/mongo/db/pipeline/aggregation_request.cpp:127-131 | `hint: "idx_1"` is kept as `{$hint: "idx_1"}` |
| AggregationExamples.HintWithoutCursor | src/mongo/db/pipeline/aggregation_request.cpp:187-191 | an aggregate that is not an explain and has no cursor is refused with `FailedToParse` on `cursor` |
| AggregationExamples.ExplainTwice | src/mongo/db/pipeline/aggregation_request.cpp:176-185 | `explain: true` together with an outside verbosity is refused with `FailedToParse` |
| AggregationExamples.AllowDiskUseReadOnly | src/mongo/db/pipeline/aggregation_request.cpp:157-167 | `allowDiskUse: true` is refused with `IllegalOperation` in read-only mode and kept otherwise |
| AggregationExamples.BypassTruthiness | src/mongo/db/pipeline/aggregation_request.cpp:168-169 | the bypass option stores its value's truthiness: `undefined` leaves it false and `1` sets it |
| AggregationRequests.AggregationRequest.constructor | src/mongo/db/pipeline/aggregation_request.h:76-80 | a new request has the namespace and pipeline given, batch size 101, empty collation and hint, no explain, and every flag false |
| AggregationRequests.AggregationRequest.SetBatchSize | src/mongo/db/pipeline/aggregation_request.h:142-148 | a negative size is refused and changes nothing; zero or more becomes the batch size and nothing else changes |
| AggregationRequests.AggregationRequest.SetCollation | src/mongo/db/pipeline/aggregation_request.h:150-152 | sets the collation and nothing else |
| AggregationRequests.AggregationRequest.SetHint | src/mongo/db/pipeline/aggregation_request.h:154-156 | sets the hint and nothing else |
| AggregationRequests.AggregationRequest.SetExplain | src/mongo/db/pipeline/aggregation_request.h:158-160 | sets or clears the explain mode and nothing else |
| AggregationRequests.AggregationRequest.SetAllowDiskUse | src/mongo/db/pipeline/aggregation_request.h:162-164 | sets allowDiskUse and nothing else |
| AggregationRequests.AggregationRequest.SetFromRouter | src/mongo/db/pipeline/aggregation_request.h:166-168 | sets fromRouter and nothing else |
| AggregationRequests.AggregationRequest.SetBypassDocumentValidation | src/mongo/db/pipeline/aggregation_request.h:170-172 | sets the bypass option and nothing else |
| AggregationRequests.AggregationRequest.ParsePipeline | src/mongo/db/pipeline/aggregation_request.cpp:70-83 | the `push_back` loop over the pipeline array computes `PipelineStages` |
| AggregationRequests.AggregationRequest.ParseOption | src/mongo/db/pipeline/aggregation_request.cpp:96-172 | one pass of the field loop, made through the setters, does what `ApplyField` says to the request and to the cursor and explain flags, or reports its error |
| AggregationRequests.AggregationRequest.ParseFromBson | src/mongo/db/pipeline/aggregation_request.cpp:65-208 | the imperative parser returns a new object holding exactly the request `Parse` builds, or exactly the error `Parse` reports |

## Left out

- The cursor-options parser is not modelled. Its outcome is the parameter `cursorOptions`. Its exact rules for `cursor` and `batchSize` belong to another component.
- The read-only storage flag is global server state. It is the parameter `readOnly`.
- Error messages are reduced to an error code plus the field they are about. `typeName` text is not modelled.
- Exceptions are not modelled. `setBatchSize`'s uassert (code 40203) becomes an error result (`NegativeBatchSize`), not an exception. If the cursor parser ever returned a negative size, the model would report that error as the parse's outcome, where the source would throw.
- Getters are not separate members. They are reads of the class's fields, and `State()` collects those fields.
- BSON internals are not modelled: binary layout, `getOwned()` copies and ownership, and `Value()` as "missing" in the document builder. For the last, a missing value simply leaves out its field.
- Doubles and most other BSON types are not modelled. A value of any other type is `Other`, for which `Truthy` is true. BSON's `trueValue()` is not part of this model's source. It is also false for a zero double or a zero decimal, which `Other` does not capture. `undefined` is modelled (`Undefined`), and `Truthy` treats it as false, as `trueValue()` does.
- SerializeRoundTrip: the round trip is stated given the cursor parser's reading of `cursor: {batchSize: n}` as `n`, because that parser is not part of this model.
- The batch size is a `nat`. The 64-bit width of `long long` is not modelled.
- The byte-level reading of `fieldName[0]` is not modelled. On an empty name the source reads the terminating zero, which is not `$`, so the model treats an empty name as not `$`-prefixed.
- The wider command machinery is not part of this model: pipeline stage semantics, `explain`'s outer command format, and the `readConcern`, `writeConcern` and `maxTimeMS` parsers.

## Notes

- `{pipeline: [{$match: {}}], hint: "idx_1"}` has no `cursor`, so it is refused: outside explain a cursor is required (src/mongo/db/pipeline/aggregation_request.cpp:187-191). `HintWithoutCursor` shows the refusal, and `HintByName` adds `cursor: {}`.
