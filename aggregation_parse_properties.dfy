/**
 * What parseFromBSON accepts, rejects and builds, stated without reference to
 * how the scan is written, and the round trip through serializeToCommandObj.
 */
module AggregationParseProperties {
  import opened Results
  import opened Bson
  import opened AggregationCommand
  import opened AggregationParse

  /** No field of `cmdObj` raises an error of its own. */
  ghost predicate NoFieldError(cmdObj: Document, readOnly: bool, cursorOptions: Result<int, Error>) {
    forall f | f in cmdObj :: FieldError(f, readOnly, cursorOptions).None?
  }

  /** The explain mode a request ends up with: the external verbosity, or `explain: true`. */
  function ExplainOf(cmdObj: Document, explainVerbosity: Option<Verbosity>): Option<Verbosity> {
    if explainVerbosity.Some? then explainVerbosity
    else if ExplainRequested(cmdObj) then Some(QueryPlanner)
    else None
  }

  lemma HasFieldSnoc(p: Document, f: Field, name: string)
    ensures HasField(p + [f], name) <==> HasField(p, name) || f.0 == name
  {
    if f.0 == name {
      assert (name, f.1) in p + [f];
    }
    if HasField(p, name) {
      var v :| (name, v) in p;
      assert (name, v) in p + [f];
    }
  }

  /** Once the scan of a prefix has failed, the scan of the whole fails with the same error. */
  lemma {:induction false} ScanFailurePersists(s0: ScanState, fields: Document, k: nat,
                                               readOnly: bool, cursorOptions: Result<int, Error>)
    requires k <= |fields|
    requires Scan(s0, fields[..k], readOnly, cursorOptions).Failure?
    ensures Scan(s0, fields, readOnly, cursorOptions) == Scan(s0, fields[..k], readOnly, cursorOptions)
    decreases |fields|
  {
    if k < |fields| {
      var p := fields[..|fields| - 1];
      assert p[..k] == fields[..k];
      ScanFailurePersists(s0, p, k, readOnly, cursorOptions);
    } else {
      assert fields[..k] == fields;
    }
  }

  /** The scan succeeds exactly when no field raises an error of its own. */
  lemma {:induction false} ScanSucceedsIff(s0: ScanState, fields: Document,
                                           readOnly: bool, cursorOptions: Result<int, Error>)
    ensures Scan(s0, fields, readOnly, cursorOptions).Success? <==> NoFieldError(fields, readOnly, cursorOptions)
    decreases |fields|
  {
    if |fields| > 0 {
      var p, f := fields[..|fields| - 1], fields[|fields| - 1];
      assert fields == p + [f];
      ScanSucceedsIff(s0, p, readOnly, cursorOptions);
    }
  }

  /** The scan reports the error of the first field that raises one. */
  lemma ScanStopsAtFirstBadField(s0: ScanState, fields: Document, k: nat,
                                 readOnly: bool, cursorOptions: Result<int, Error>)
    requires k < |fields| && FieldError(fields[k], readOnly, cursorOptions).Some?
    requires forall j | 0 <= j < k :: FieldError(fields[j], readOnly, cursorOptions).None?
    ensures Scan(s0, fields, readOnly, cursorOptions) == Failure(FieldError(fields[k], readOnly, cursorOptions).value)
  {
    var p := fields[..k];
    assert forall f | f in p :: exists j :: 0 <= j < k && fields[j] == f;
    ScanSucceedsIff(s0, p, readOnly, cursorOptions);
    assert fields[..k + 1][..k] == p;
    ScanFailurePersists(s0, fields, k + 1, readOnly, cursorOptions);
  }

  lemma LastOfSnoc(p: Document, f: Field, name: string)
    ensures LastOf(p + [f], name) == if f.0 == name then Some(f.1) else LastOf(p, name)
  {
    assert (p + [f])[..|p|] == p;
  }

  /** The value of `f` if it is called `name`. */
  function Named(f: Field, name: string): Option<Value> {
    if f.0 == name then Some(f.1) else None
  }

  /** What one successful step does to the cursor and explain state. */
  lemma StepCursorExplain(f: Field, s: ScanState, readOnly: bool, cursorOptions: Result<int, Error>)
    requires ApplyField(f, s, readOnly, cursorOptions).Success?
    ensures var t := ApplyField(f, s, readOnly, cursorOptions).value;
      && t.hasCursor == (s.hasCursor || f.0 == CursorName)
      && t.hasExplain == (s.hasExplain || f.0 == ExplainName)
      && t.req.batchSize == (if f.0 == CursorName && cursorOptions.Success?
                             then cursorOptions.value else s.req.batchSize)
      && t.req.explain == (if f == (ExplainName, Bool(true)) then Some(QueryPlanner) else s.req.explain)
  {
    var k := Classify(f.0);
    if k == CursorField {
    } else if k == ExplainField {
    }
  }

  /** What one successful step does to the collation and the hint. */
  lemma StepDocuments(f: Field, s: ScanState, readOnly: bool, cursorOptions: Result<int, Error>)
    requires ApplyField(f, s, readOnly, cursorOptions).Success?
    ensures var t := ApplyField(f, s, readOnly, cursorOptions).value;
      && t.req.collation == CollationOf(Named(f, CollationName), s.req.collation)
      && t.req.hint == HintOf(Named(f, HintName), s.req.hint)
  {
    var k := Classify(f.0);
    if k == CollationField {
    } else if k == HintField {
    }
  }

  /** What one successful step does to the three boolean options. */
  lemma StepFlags(f: Field, s: ScanState, readOnly: bool, cursorOptions: Result<int, Error>)
    requires ApplyField(f, s, readOnly, cursorOptions).Success?
    ensures var t := ApplyField(f, s, readOnly, cursorOptions).value;
      && t.req.allowDiskUse == FlagOf(Named(f, AllowDiskUseName), s.req.allowDiskUse)
      && t.req.fromRouter == FlagOf(Named(f, FromRouterName), s.req.fromRouter)
      && t.req.bypassDocumentValidation ==
           TruthOf(Named(f, BypassDocumentValidationName), s.req.bypassDocumentValidation)
  {
    var k := Classify(f.0);
    if k == AllowDiskUseField {
    } else if k == FromRouterField {
    } else if k == BypassField {
    }
  }

  /**
   * What a successful scan does to the cursor and explain state: the batch size
   * comes from the cursor parser when a `cursor` field is present, and explain
   * is set by any `explain: true`.
   */
  lemma {:induction false} ScanCursorExplain(s0: ScanState, fields: Document,
                                             readOnly: bool, cursorOptions: Result<int, Error>)
    requires Scan(s0, fields, readOnly, cursorOptions).Success?
    ensures var s := Scan(s0, fields, readOnly, cursorOptions).value;
      && s.hasCursor == (s0.hasCursor || HasField(fields, CursorName))
      && s.hasExplain == (s0.hasExplain || HasField(fields, ExplainName))
      && s.req.batchSize == (if HasField(fields, CursorName) && cursorOptions.Success?
                             then cursorOptions.value else s0.req.batchSize)
      && s.req.explain == (if ExplainRequested(fields) then Some(QueryPlanner) else s0.req.explain)
    decreases |fields|
  {
    if |fields| > 0 {
      var p, f := fields[..|fields| - 1], fields[|fields| - 1];
      assert fields == p + [f];
      ScanCursorExplain(s0, p, readOnly, cursorOptions);
      StepCursorExplain(f, Scan(s0, p, readOnly, cursorOptions).value, readOnly, cursorOptions);
      HasFieldSnoc(p, f, CursorName);
      HasFieldSnoc(p, f, ExplainName);
    }
  }

  /** After a successful scan the collation and the hint are those of the last field of each name. */
  lemma {:induction false} ScanDocuments(s0: ScanState, fields: Document,
                                         readOnly: bool, cursorOptions: Result<int, Error>)
    requires Scan(s0, fields, readOnly, cursorOptions).Success?
    ensures var s := Scan(s0, fields, readOnly, cursorOptions).value;
      && s.req.collation == CollationOf(LastOf(fields, CollationName), s0.req.collation)
      && s.req.hint == HintOf(LastOf(fields, HintName), s0.req.hint)
    decreases |fields|
  {
    if |fields| > 0 {
      var p, f := fields[..|fields| - 1], fields[|fields| - 1];
      assert fields == p + [f];
      ScanDocuments(s0, p, readOnly, cursorOptions);
      StepDocuments(f, Scan(s0, p, readOnly, cursorOptions).value, readOnly, cursorOptions);
      LastOfSnoc(p, f, CollationName);
      LastOfSnoc(p, f, HintName);
    }
  }

  /** After a successful scan each boolean option is that of the last field of its name. */
  lemma {:induction false} ScanFlags(s0: ScanState, fields: Document,
                                     readOnly: bool, cursorOptions: Result<int, Error>)
    requires Scan(s0, fields, readOnly, cursorOptions).Success?
    ensures var s := Scan(s0, fields, readOnly, cursorOptions).value;
      && s.req.allowDiskUse == FlagOf(LastOf(fields, AllowDiskUseName), s0.req.allowDiskUse)
      && s.req.fromRouter == FlagOf(LastOf(fields, FromRouterName), s0.req.fromRouter)
      && s.req.bypassDocumentValidation ==
           TruthOf(LastOf(fields, BypassDocumentValidationName), s0.req.bypassDocumentValidation)
    decreases |fields|
  {
    if |fields| > 0 {
      var p, f := fields[..|fields| - 1], fields[|fields| - 1];
      assert fields == p + [f];
      ScanFlags(s0, p, readOnly, cursorOptions);
      StepFlags(f, Scan(s0, p, readOnly, cursorOptions).value, readOnly, cursorOptions);
      LastOfSnoc(p, f, AllowDiskUseName);
      LastOfSnoc(p, f, FromRouterName);
      LastOfSnoc(p, f, BypassDocumentValidationName);
    }
  }

  /** The scan of a command object whose pipeline was accepted, as Parse starts it. */
  function InitialScan(nss: Namespace, cmdObj: Document): ScanState
    requires PipelineStages(cmdObj).Success?
  {
    ScanState(Defaults(nss, PipelineStages(cmdObj).value), false, false)
  }

  /**
   * Parsing reports the error of the first field that raises one, once the
   * pipeline has been accepted (an unrecognised name, a mistyped option, a
   * disallowed allowDiskUse or a failing cursor).
   */
  lemma ParseFailsAtFirstBadField(nss: Namespace, cmdObj: Document, explainVerbosity: Option<Verbosity>,
                                  readOnly: bool, cursorOptions: Result<int, Error>, k: nat)
    requires PipelineStages(cmdObj).Success?
    requires k < |cmdObj| && FieldError(cmdObj[k], readOnly, cursorOptions).Some?
    requires forall j | 0 <= j < k :: FieldError(cmdObj[j], readOnly, cursorOptions).None?
    ensures Parse(nss, cmdObj, explainVerbosity, readOnly, cursorOptions)
            == Failure(FieldError(cmdObj[k], readOnly, cursorOptions).value)
  {
    ScanStopsAtFirstBadField(InitialScan(nss, cmdObj), cmdObj, k, readOnly, cursorOptions);
  }

  /** Parsing succeeds exactly when every rule of the three steps is met. */
  lemma ParseSucceedsIff(nss: Namespace, cmdObj: Document, explainVerbosity: Option<Verbosity>,
                         readOnly: bool, cursorOptions: Result<int, Error>)
    ensures Parse(nss, cmdObj, explainVerbosity, readOnly, cursorOptions).Success? <==>
      && PipelineStages(cmdObj).Success?
      && NoFieldError(cmdObj, readOnly, cursorOptions)
      && !(explainVerbosity.Some? && HasField(cmdObj, ExplainName))
      && (HasField(cmdObj, CursorName) || ExplainOf(cmdObj, explainVerbosity).Some?)
      && (ExplainOf(cmdObj, explainVerbosity).Some? ==>
            !HasField(cmdObj, ReadConcernName) && !HasField(cmdObj, WriteConcernName))
  {
    if PipelineStages(cmdObj).Success? {
      var s0 := InitialScan(nss, cmdObj);
      ScanSucceedsIff(s0, cmdObj, readOnly, cursorOptions);
      if Scan(s0, cmdObj, readOnly, cursorOptions).Success? {
        ScanCursorExplain(s0, cmdObj, readOnly, cursorOptions);
      }
    }
  }

  /**
   * When pipeline and fields are acceptable, the checks across fields fail in
   * this order: explain given twice, cursor missing outside explain, readConcern
   * with explain, writeConcern with explain.
   */
  lemma ParseCrossCheckOrder(nss: Namespace, cmdObj: Document, explainVerbosity: Option<Verbosity>,
                             readOnly: bool, cursorOptions: Result<int, Error>)
    requires PipelineStages(cmdObj).Success? && NoFieldError(cmdObj, readOnly, cursorOptions)
    ensures var r := Parse(nss, cmdObj, explainVerbosity, readOnly, cursorOptions);
      var conflict := explainVerbosity.Some? && HasField(cmdObj, ExplainName);
      var explain := ExplainOf(cmdObj, explainVerbosity);
      && (conflict ==> r == Failure(Error(FailedToParse, ExplainName)))
      && (!conflict && !HasField(cmdObj, CursorName) && explain.None? ==>
            r == Failure(Error(FailedToParse, CursorName)))
      && (!conflict && explain.Some? && HasField(cmdObj, ReadConcernName) ==>
            r == Failure(Error(FailedToParse, ReadConcernName)))
      && (!conflict && explain.Some? && !HasField(cmdObj, ReadConcernName)
            && HasField(cmdObj, WriteConcernName) ==>
            r == Failure(Error(FailedToParse, WriteConcernName)))
  {
    var s0 := InitialScan(nss, cmdObj);
    ScanSucceedsIff(s0, cmdObj, readOnly, cursorOptions);
    ScanCursorExplain(s0, cmdObj, readOnly, cursorOptions);
  }

  /**
   * What a successful parse builds: the namespace given, the pipeline array's
   * objects in order, the cursor parser's batch size when a cursor is present
   * (101 otherwise), each option from the last field of its name, the hint by
   * name wrapped as `{$hint: name}`, and explain from the external verbosity or
   * from `explain: true`.
   */
  lemma ParseResult(nss: Namespace, cmdObj: Document, explainVerbosity: Option<Verbosity>,
                    readOnly: bool, cursorOptions: Result<int, Error>)
    requires Parse(nss, cmdObj, explainVerbosity, readOnly, cursorOptions).Success?
    ensures var req := Parse(nss, cmdObj, explainVerbosity, readOnly, cursorOptions).value;
      && req.nss == nss
      && Lookup(cmdObj, PipelineName) == Some(Arr(StageValues(req.pipeline)))
      && req.batchSize == (if HasField(cmdObj, CursorName) && cursorOptions.Success?
                           then cursorOptions.value else DefaultBatchSize)
      && req.collation == CollationOf(LastOf(cmdObj, CollationName), [])
      && req.hint == HintOf(LastOf(cmdObj, HintName), [])
      && req.explain == ExplainOf(cmdObj, explainVerbosity)
      && req.allowDiskUse == FlagOf(LastOf(cmdObj, AllowDiskUseName), false)
      && req.fromRouter == FlagOf(LastOf(cmdObj, FromRouterName), false)
      && req.bypassDocumentValidation == TruthOf(LastOf(cmdObj, BypassDocumentValidationName), false)
  {
    var s0 := InitialScan(nss, cmdObj);
    ScanCursorExplain(s0, cmdObj, readOnly, cursorOptions);
    ScanDocuments(s0, cmdObj, readOnly, cursorOptions);
    ScanFlags(s0, cmdObj, readOnly, cursorOptions);
  }

  /** A field whose values are all `v` is looked up, first or last, as `v`. */
  lemma EmittedLookup(d: Document, name: string, v: Value)
    requires Emits(d, name, Some(v))
    ensures Lookup(d, name) == Some(v) && LastOf(d, name) == Some(v) && HasField(d, name)
  {
    assert (name, v) in d;
  }

  /** A field that is not written is looked up as absent. */
  lemma OmittedLookup(d: Document, name: string)
    requires Emits(d, name, None)
    ensures Lookup(d, name) == None && LastOf(d, name) == None && !HasField(d, name)
  {
  }

  lemma StageValuesInjective(p: seq<Document>, q: seq<Document>)
    requires StageValues(p) == StageValues(q)
    ensures p == q
  {
    assert |p| == |StageValues(p)|;
    forall i | 0 <= i < |p| ensures p[i] == q[i] {
      assert StageValues(p)[i] == Obj(p[i]);
    }
  }

  /** The written pipeline is accepted and gives back the stages. */
  lemma SerializedPipeline(req: Request)
    ensures PipelineStages(SerializeToCommandObj(req)) == Success(req.pipeline)
  {
    SerializeRequired(req);
    EmittedLookup(SerializeToCommandObj(req), PipelineName, Arr(StageValues(req.pipeline)));
    assert forall v | v in StageValues(req.pipeline) :: v.Obj?;
    StageValuesInjective(PipelineStages(SerializeToCommandObj(req)).value, req.pipeline);
  }

  /** A field serializeToCommandObj writes passes its own rule. */
  lemma SerializedFieldAccepted(req: Request, readOnly: bool, cursorOptions: Result<int, Error>, f: Field)
    requires req.explain.None? ==> cursorOptions == Success(req.batchSize)
    requires readOnly ==> !req.allowDiskUse
    requires f in SerializeToCommandObj(req)
    ensures FieldError(f, readOnly, cursorOptions).None?
  {
    SerializeNothingElse(req);
    if f.0 == AllowDiskUseName || f.0 == FromRouterName {
      SerializedFlagAccepted(req, readOnly, cursorOptions, f);
    } else if f.0 == CursorName {
      SerializedCursorAccepted(req, readOnly, cursorOptions, f);
    } else if f.0 == CollationName || f.0 == HintName {
      SerializedDocumentAccepted(req, readOnly, cursorOptions, f);
    } else if f.0 == BypassDocumentValidationName {
    } else {
      assert f.0 in ParsedElsewhere;
    }
  }

  /** A written allowDiskUse or fromRouter flag is a boolean, and allowDiskUse is only written when allowed. */
  lemma SerializedFlagAccepted(req: Request, readOnly: bool, cursorOptions: Result<int, Error>, f: Field)
    requires readOnly ==> !req.allowDiskUse
    requires f in SerializeToCommandObj(req)
    requires f.0 == AllowDiskUseName || f.0 == FromRouterName
    ensures FieldError(f, readOnly, cursorOptions).None?
  {
    SerializeFlags(req);
    assert (f.0, f.1) in SerializeToCommandObj(req);
  }

  /** A written cursor is only written when its batch size is what the cursor parser reads. */
  lemma SerializedCursorAccepted(req: Request, readOnly: bool, cursorOptions: Result<int, Error>, f: Field)
    requires req.explain.None? ==> cursorOptions == Success(req.batchSize)
    requires f in SerializeToCommandObj(req)
    requires f.0 == CursorName
    ensures FieldError(f, readOnly, cursorOptions).None?
  {
    SerializeOptions(req);
    assert (f.0, f.1) in SerializeToCommandObj(req);
  }

  /** A written collation or hint is an object. */
  lemma SerializedDocumentAccepted(req: Request, readOnly: bool, cursorOptions: Result<int, Error>, f: Field)
    requires f in SerializeToCommandObj(req)
    requires f.0 == CollationName || f.0 == HintName
    ensures FieldError(f, readOnly, cursorOptions).None?
  {
    SerializeOptions(req);
    assert (f.0, f.1) in SerializeToCommandObj(req);
  }

  /** Every field serializeToCommandObj writes passes its own rule. */
  lemma SerializedFieldsAccepted(req: Request, readOnly: bool, cursorOptions: Result<int, Error>)
    requires req.explain.None? ==> cursorOptions == Success(req.batchSize)
    requires readOnly ==> !req.allowDiskUse
    ensures NoFieldError(SerializeToCommandObj(req), readOnly, cursorOptions)
  {
    forall f | f in SerializeToCommandObj(req)
      ensures FieldError(f, readOnly, cursorOptions).None?
    {
      SerializedFieldAccepted(req, readOnly, cursorOptions, f);
    }
  }

  /** The cross-field checks pass on a written request parsed with its own verbosity. */
  lemma SerializedCrossChecks(req: Request)
    ensures var d := SerializeToCommandObj(req);
      && !HasField(d, ExplainName)
      && ExplainOf(d, req.explain) == req.explain
      && !HasField(d, ReadConcernName) && !HasField(d, WriteConcernName)
      && (HasField(d, CursorName) <==> req.explain.None?)
  {
    var d := SerializeToCommandObj(req);
    SerializeNothingElse(req);
    OmittedLookup(d, ExplainName);
    SerializedForeignAbsent(req, ReadConcernName);
    SerializedForeignAbsent(req, WriteConcernName);
    SerializedCursor(req);
  }

  /** A name the serialiser never writes is absent from what it writes. */
  lemma SerializedForeignAbsent(req: Request, name: string)
    requires name !in [CommandName, PipelineName, AllowDiskUseName, FromRouterName,
                       BypassDocumentValidationName, CollationName, CursorName, HintName]
    ensures !HasField(SerializeToCommandObj(req), name)
  {
    SerializeNothingElse(req);
  }

  /** The cursor field is written exactly when the request is not an explain. */
  lemma SerializedCursor(req: Request)
    ensures HasField(SerializeToCommandObj(req), CursorName) <==> req.explain.None?
  {
    var d := SerializeToCommandObj(req);
    SerializeOptions(req);
    if req.explain.None? {
      EmittedLookup(d, CursorName, Obj([(BatchSizeName, Int(req.batchSize))]));
    } else {
      OmittedLookup(d, CursorName);
    }
  }

  /** The collation and the hint read back from a written request are those written. */
  lemma SerializedDocumentsReadBack(req: Request)
    ensures var d := SerializeToCommandObj(req);
      && CollationOf(LastOf(d, CollationName), []) == req.collation
      && HintOf(LastOf(d, HintName), []) == req.hint
  {
    var d := SerializeToCommandObj(req);
    SerializeOptions(req);
    if req.collation == [] { OmittedLookup(d, CollationName); }
    else { EmittedLookup(d, CollationName, Obj(req.collation)); }
    if req.hint == [] { OmittedLookup(d, HintName); }
    else { EmittedLookup(d, HintName, Obj(req.hint)); }
  }

  /** The booleans read back from a written request are those written. */
  lemma SerializedFlagsReadBack(req: Request)
    ensures var d := SerializeToCommandObj(req);
      && FlagOf(LastOf(d, AllowDiskUseName), false) == req.allowDiskUse
      && FlagOf(LastOf(d, FromRouterName), false) == req.fromRouter
      && TruthOf(LastOf(d, BypassDocumentValidationName), false) == req.bypassDocumentValidation
  {
    var d := SerializeToCommandObj(req);
    SerializeFlags(req);
    if req.allowDiskUse { EmittedLookup(d, AllowDiskUseName, Bool(true)); }
    else { OmittedLookup(d, AllowDiskUseName); }
    if req.fromRouter { EmittedLookup(d, FromRouterName, Bool(true)); }
    else { OmittedLookup(d, FromRouterName); }
    if req.bypassDocumentValidation { EmittedLookup(d, BypassDocumentValidationName, Bool(true)); }
    else { OmittedLookup(d, BypassDocumentValidationName); }
  }

  /**
   * Serializing a request and parsing the result, with its explain verbosity
   * passed alongside as the explain command does, gives the request back; only
   * an explain's batch size, which is not written, returns to the default.
   */
  lemma SerializeRoundTrip(req: Request, readOnly: bool, cursorOptions: Result<int, Error>)
    requires req.explain.None? ==> cursorOptions == Success(req.batchSize)
    requires readOnly ==> !req.allowDiskUse
    ensures Parse(req.nss, SerializeToCommandObj(req), req.explain, readOnly, cursorOptions)
            == Success(if req.explain.None? then req else req.(batchSize := DefaultBatchSize))
  {
    var d := SerializeToCommandObj(req);
    SerializedPipeline(req);
    SerializedFieldsAccepted(req, readOnly, cursorOptions);
    SerializedCrossChecks(req);
    ParseSucceedsIff(req.nss, d, req.explain, readOnly, cursorOptions);
    ParseResult(req.nss, d, req.explain, readOnly, cursorOptions);
    SerializedDocumentsReadBack(req);
    SerializedFlagsReadBack(req);
  }
}
