/**
 * parseFromBSON as a function: the reference against which the imperative parser
 * is proved, and the lemmas that say what it accepts, what it rejects and what it
 * builds.
 *
 * The external cursor-options parser is called with the whole command object and
 * a fixed default, so its outcome is fixed by the command object: it is passed in
 * as `cursorOptions`. The read-only storage flag is passed in as `readOnly`.
 */
module AggregationParse {
  import opened Results
  import opened Bson
  import opened AggregationCommand

  /** Fields another component parses; the scan steps over them. */
  const ParsedElsewhere: seq<string> :=
    [MaxTimeMSName, WriteConcernName, PipelineName, CommandName, ReadConcernName]

  /**
   * A name beginning with '$' belongs to the command processor. An empty name is
   * not one: its first byte is the terminating zero.
   */
  predicate IsDollarPrefixed(name: string) {
    |name| > 0 && name[0] == '$'
  }

  /** Step 1: the `pipeline` field must be an array of objects; its objects become the stages. */
  function PipelineStages(cmdObj: Document): (r: Result<seq<Document>, Error>)
    ensures r.Success? <==>
      && Lookup(cmdObj, PipelineName).Some?
      && Lookup(cmdObj, PipelineName).value.Arr?
      && forall v | v in Lookup(cmdObj, PipelineName).value.elems :: v.Obj?
    ensures r.Failure? ==> r.error == Error(TypeMismatch, PipelineName)
    ensures r.Success? ==> Lookup(cmdObj, PipelineName) == Some(Arr(StageValues(r.value)))
  {
    match Lookup(cmdObj, PipelineName)
    case Some(Arr(elems)) =>
      if forall i | 0 <= i < |elems| :: elems[i].Obj? then
        var stages := seq(|elems|, i requires 0 <= i < |elems| && elems[i].Obj? => elems[i].fields);
        assert StageValues(stages) == elems;
        Success(stages)
      else
        Failure(Error(TypeMismatch, PipelineName))
    case _ => Failure(Error(TypeMismatch, PipelineName))
  }

  /** What the field scan has built so far, and whether it has seen `cursor` and `explain`. */
  datatype ScanState = ScanState(req: Request, hasCursor: bool, hasExplain: bool)

  /**
   * The error a single field raises, whatever came before it: the rules of step 2
   * stated field by field. The read-only check on `allowDiskUse` comes before its
   * type check, and the bypass option accepts any value.
   */
  function FieldError(f: Field, readOnly: bool, cursorOptions: Result<int, Error>): Option<Error> {
    var (name, v) := f;
    if IsDollarPrefixed(name) || name in ParsedElsewhere || name == BypassDocumentValidationName then None
    else if name == CursorName then
      (if cursorOptions.Failure? then Some(cursorOptions.error)
       else if cursorOptions.value < 0 then Some(Error(NegativeBatchSize, BatchSizeName))
       else None)
    else if name == AllowDiskUseName && readOnly then Some(Error(IllegalOperation, AllowDiskUseName))
    else if name in [ExplainName, FromRouterName, AllowDiskUseName] then
      (if v.Bool? then None else Some(Error(TypeMismatch, name)))
    else if name == CollationName then (if v.Obj? then None else Some(Error(TypeMismatch, name)))
    else if name == HintName then (if v.Obj? || v.Str? then None else Some(Error(FailedToParse, name)))
    else Some(Error(FailedToParse, name))
  }

  /** The hint a `hint` value leaves: an object as it is, an index name as `{$hint: name}`. */
  function HintOf(v: Option<Value>, otherwise: Document): Document {
    match v
    case Some(Obj(o)) => o
    case Some(Str(s)) => [("$hint", Str(s))]
    case _ => otherwise
  }

  /** The object a `collation` value leaves. */
  function CollationOf(v: Option<Value>, otherwise: Document): Document {
    match v
    case Some(Obj(o)) => o
    case _ => otherwise
  }

  /** The flag a boolean option leaves. */
  function FlagOf(v: Option<Value>, otherwise: bool): bool {
    match v
    case Some(Bool(b)) => b
    case _ => otherwise
  }

  /** The flag the bypass option leaves: the truthiness of its value. */
  function TruthOf(v: Option<Value>, otherwise: bool): bool {
    match v
    case Some(x) => Truthy(x)
    case None => otherwise
  }

  /** Some field is `explain: true`; `explain: false` never clears an explain already set. */
  predicate ExplainRequested(cmdObj: Document) {
    (ExplainName, Bool(true)) in cmdObj
  }

  /** Which rule of the field scan a field name falls under. */
  datatype FieldKind =
    | Ignored | CursorField | CollationField | HintField | ExplainField
    | FromRouterField | AllowDiskUseField | BypassField | Unrecognised

  /** The scan's dispatch on a field name, tried in the parser's order. */
  function Classify(name: string): (k: FieldKind)
    ensures k == Ignored <==> IsDollarPrefixed(name) || name in ParsedElsewhere
    ensures k == CursorField <==> name == CursorName
    ensures k == CollationField <==> name == CollationName
    ensures k == HintField <==> name == HintName
    ensures k == ExplainField <==> name == ExplainName
    ensures k == FromRouterField <==> name == FromRouterName
    ensures k == AllowDiskUseField <==> name == AllowDiskUseName
    ensures k == BypassField <==> name == BypassDocumentValidationName
  {
    if IsDollarPrefixed(name) || name in ParsedElsewhere then Ignored
    else if name == CursorName then CursorField
    else if name == CollationName then CollationField
    else if name == HintName then HintField
    else if name == ExplainName then ExplainField
    else if name == FromRouterName then FromRouterField
    else if name == AllowDiskUseName then AllowDiskUseField
    else if name == BypassDocumentValidationName then BypassField
    else Unrecognised
  }

  /** One step of the field scan: what the field's rule does to the state, or its error. */
  function ApplyField(f: Field, s: ScanState, readOnly: bool, cursorOptions: Result<int, Error>)
    : (r: Result<ScanState, Error>)
    ensures r.Failure? <==> FieldError(f, readOnly, cursorOptions).Some?
    ensures r.Failure? ==> FieldError(f, readOnly, cursorOptions) == Some(r.error)
    ensures r.Success? ==> r.value.req.nss == s.req.nss && r.value.req.pipeline == s.req.pipeline
  {
    var (name, v) := f;
    match Classify(name)
    case Ignored => Success(s)
    case CursorField =>
      (match cursorOptions
       case Failure(e) => Failure(e)
       case Success(batchSize) =>
         if batchSize < 0 then Failure(Error(NegativeBatchSize, BatchSizeName))
         else Success(s.(req := s.req.(batchSize := batchSize), hasCursor := true)))
    case CollationField =>
      if v.Obj? then Success(s.(req := s.req.(collation := v.fields)))
      else Failure(Error(TypeMismatch, CollationName))
    case HintField =>
      if v.Obj? then Success(s.(req := s.req.(hint := v.fields)))
      else if v.Str? then Success(s.(req := s.req.(hint := [("$hint", Str(v.s))])))
      else Failure(Error(FailedToParse, HintName))
    case ExplainField =>
      if !v.Bool? then Failure(Error(TypeMismatch, ExplainName))
      else if v.b then Success(s.(req := s.req.(explain := Some(QueryPlanner)), hasExplain := true))
      else Success(s.(hasExplain := true))
    case FromRouterField =>
      if !v.Bool? then Failure(Error(TypeMismatch, FromRouterName))
      else Success(s.(req := s.req.(fromRouter := v.b)))
    case AllowDiskUseField =>
      if readOnly then Failure(Error(IllegalOperation, AllowDiskUseName))
      else if !v.Bool? then Failure(Error(TypeMismatch, AllowDiskUseName))
      else Success(s.(req := s.req.(allowDiskUse := v.b)))
    case BypassField =>
      Success(s.(req := s.req.(bypassDocumentValidation := Truthy(v))))
    case Unrecognised => Failure(Error(FailedToParse, name))
  }

  /** Step 2: the fields in document order, stopping at the first error. */
  function Scan(s0: ScanState, fields: Document, readOnly: bool, cursorOptions: Result<int, Error>)
    : (r: Result<ScanState, Error>)
    ensures r.Success? ==> r.value.req.nss == s0.req.nss && r.value.req.pipeline == s0.req.pipeline
    decreases |fields|
  {
    if |fields| == 0 then Success(s0)
    else
      match Scan(s0, fields[..|fields| - 1], readOnly, cursorOptions)
      case Failure(e) => Failure(e)
      case Success(s) => ApplyField(fields[|fields| - 1], s, readOnly, cursorOptions)
  }

  /** Step 3: the checks across fields, in the order the parser makes them. */
  function CrossCheck(s: ScanState, cmdObj: Document, explainVerbosity: Option<Verbosity>)
    : (r: Result<Request, Error>)
    ensures r.Success? ==> r.value.nss == s.req.nss && r.value.pipeline == s.req.pipeline
  {
    if explainVerbosity.Some? && s.hasExplain then Failure(Error(FailedToParse, ExplainName))
    else
      var req := if explainVerbosity.Some? then s.req.(explain := explainVerbosity) else s.req;
      if !s.hasCursor && req.explain.None? then Failure(Error(FailedToParse, CursorName))
      else if req.explain.Some? && Lookup(cmdObj, ReadConcernName).Some? then
        Failure(Error(FailedToParse, ReadConcernName))
      else if req.explain.Some? && Lookup(cmdObj, WriteConcernName).Some? then
        Failure(Error(FailedToParse, WriteConcernName))
      else Success(req)
  }

  /** parseFromBSON: the request `cmdObj` describes over `nss`, or the first error in it. */
  ghost function Parse(nss: Namespace, cmdObj: Document, explainVerbosity: Option<Verbosity>,
                       readOnly: bool, cursorOptions: Result<int, Error>): (r: Result<Request, Error>)
    ensures PipelineStages(cmdObj).Failure? ==> r == Failure(Error(TypeMismatch, PipelineName))
    ensures r.Success? ==> r.value.nss == nss && PipelineStages(cmdObj) == Success(r.value.pipeline)
  {
    match PipelineStages(cmdObj)
    case Failure(e) => Failure(e)
    case Success(pipeline) =>
      match Scan(ScanState(Defaults(nss, pipeline), false, false), cmdObj, readOnly, cursorOptions)
      case Failure(e) => Failure(e)
      case Success(s) => CrossCheck(s, cmdObj, explainVerbosity)
  }
}
