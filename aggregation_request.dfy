/**
 * The request object itself: a namespace and a pipeline fixed at construction,
 * and options that setters change in place. parseFromBSON builds one with two
 * loops, over the pipeline array and over the command's fields, and is proved
 * against the reference parser `AggregationParse.Parse`.
 */
module AggregationRequests {
  import opened Results
  import opened Bson
  import opened AggregationCommand
  import opened AggregationParse
  import AggregationParseProperties

  class AggregationRequest {
    const nss: Namespace
    /** The stages as sent, unparsed. */
    const pipeline: seq<Document>

    var batchSize: nat
    /** The collation asked for, or the empty document when none was. */
    var collation: Document
    /** An index key pattern, `{$hint: <index name>}`, or the empty document. */
    var hint: Document
    /** The explain verbosity, or None when the request is not an explain. */
    var explainMode: Option<Verbosity>
    var allowDiskUse: bool
    var fromRouter: bool
    var bypassDocumentValidation: bool

    /** The options the object holds, as a value. */
    function State(): Request
      reads this
    {
      Request(nss, pipeline, batchSize, collation, hint, explainMode,
              allowDiskUse, fromRouter, bypassDocumentValidation)
    }

    /** A request over `nss` running `pipeline` with every option at its default. */
    constructor (nss: Namespace, pipeline: seq<Document>)
      ensures State() == Defaults(nss, pipeline)
      ensures batchSize == DefaultBatchSize && collation == [] && hint == [] && explainMode.None?
      ensures !allowDiskUse && !fromRouter && !bypassDocumentValidation
    {
      this.nss := nss;
      this.pipeline := pipeline;
      batchSize := DefaultBatchSize;
      collation := [];
      hint := [];
      explainMode := None;
      allowDiskUse := false;
      fromRouter := false;
      bypassDocumentValidation := false;
    }

    /** A negative batch size is refused and leaves the object as it was; zero is allowed. */
    method SetBatchSize(size: int) returns (err: Option<Error>)
      modifies this
      ensures size < 0 ==> err == Some(Error(NegativeBatchSize, BatchSizeName)) && State() == old(State())
      ensures size >= 0 ==> err.None? && State() == old(State()).(batchSize := size)
    {
      if size < 0 {
        return Some(Error(NegativeBatchSize, BatchSizeName));
      }
      batchSize := size;
      return None;
    }

    method SetCollation(c: Document)
      modifies this
      ensures State() == old(State()).(collation := c)
    {
      collation := c;
    }

    method SetHint(h: Document)
      modifies this
      ensures State() == old(State()).(hint := h)
    {
      hint := h;
    }

    method SetExplain(verbosity: Option<Verbosity>)
      modifies this
      ensures State() == old(State()).(explain := verbosity)
    {
      explainMode := verbosity;
    }

    method SetAllowDiskUse(b: bool)
      modifies this
      ensures State() == old(State()).(allowDiskUse := b)
    {
      allowDiskUse := b;
    }

    method SetFromRouter(b: bool)
      modifies this
      ensures State() == old(State()).(fromRouter := b)
    {
      fromRouter := b;
    }

    method SetBypassDocumentValidation(b: bool)
      modifies this
      ensures State() == old(State()).(bypassDocumentValidation := b)
    {
      bypassDocumentValidation := b;
    }

    /** The pipeline loop of parseFromBSON: the stages, or the pipeline's type error. */
    static method ParsePipeline(cmdObj: Document) returns (r: Result<seq<Document>, Error>)
      ensures r == PipelineStages(cmdObj)
    {
      var pipelineElem := Lookup(cmdObj, PipelineName);
      if pipelineElem.None? || !pipelineElem.value.Arr? {
        return Failure(Error(TypeMismatch, PipelineName));
      }
      var elems := pipelineElem.value.elems;
      var pipeline: seq<Document> := [];
      for i := 0 to |elems|
        invariant |pipeline| == i
        invariant forall j | 0 <= j < i :: elems[j].Obj? && pipeline[j] == elems[j].fields
      {
        if !elems[i].Obj? {
          assert elems[i] in elems;
          return Failure(Error(TypeMismatch, PipelineName));
        }
        pipeline := pipeline + [elems[i].fields];
      }
      assert StageValues(pipeline) == elems;
      AggregationParseProperties.StageValuesInjective(PipelineStages(cmdObj).value, pipeline);
      return Success(pipeline);
    }

    /**
     * The body of parseFromBSON's field loop: applies one field's rule to
     * `request` and to whether `cursor` and `explain` have been seen, or
     * reports that field's error.
     */
    static method ParseOption(request: AggregationRequest, f: Field, readOnly: bool,
                              cursorOptions: Result<int, Error>, hasCursorElem: bool, hasExplainElem: bool)
      returns (err: Option<Error>, cursorSeen: bool, explainSeen: bool)
      modifies request
      ensures match ApplyField(f, ScanState(old(request.State()), hasCursorElem, hasExplainElem),
                               readOnly, cursorOptions)
              case Failure(e) => err == Some(e)
              case Success(s) => err.None? && s == ScanState(request.State(), cursorSeen, explainSeen)
    {
      var (fieldName, elem) := f;
      err, cursorSeen, explainSeen := None, hasCursorElem, hasExplainElem;
      var kind := Classify(fieldName);
      if kind == Ignored {
        // Fields for the command processor, and options another component parses.
      } else if kind == CursorField {
        match cursorOptions
        case Failure(e) =>
          err := Some(e);
        case Success(size) =>
          cursorSeen := true;
          err := request.SetBatchSize(size);
      } else if kind == CollationField {
        if !elem.Obj? {
          err := Some(Error(TypeMismatch, CollationName));
        } else {
          request.SetCollation(elem.fields);
        }
      } else if kind == HintField {
        if elem.Obj? {
          request.SetHint(elem.fields);
        } else if elem.Str? {
          request.SetHint([("$hint", Str(elem.s))]);
        } else {
          err := Some(Error(FailedToParse, HintName));
        }
      } else if kind == ExplainField {
        if !elem.Bool? {
          err := Some(Error(TypeMismatch, ExplainName));
        } else {
          explainSeen := true;
          if elem.b {
            request.SetExplain(Some(QueryPlanner));
          }
        }
      } else if kind == FromRouterField {
        if !elem.Bool? {
          err := Some(Error(TypeMismatch, FromRouterName));
        } else {
          request.SetFromRouter(elem.b);
        }
      } else if kind == AllowDiskUseField {
        if readOnly {
          err := Some(Error(IllegalOperation, AllowDiskUseName));
        } else if !elem.Bool? {
          err := Some(Error(TypeMismatch, AllowDiskUseName));
        } else {
          request.SetAllowDiskUse(elem.b);
        }
      } else if kind == BypassField {
        request.SetBypassDocumentValidation(Truthy(elem));
      } else {
        err := Some(Error(FailedToParse, fieldName));
      }
    }

    /**
     * parseFromBSON: a new request holding what `cmdObj` describes over `nss`,
     * or the error the reference parser reports.
     */
    static method ParseFromBson(nss: Namespace, cmdObj: Document, explainVerbosity: Option<Verbosity>,
                                readOnly: bool, cursorOptions: Result<int, Error>)
      returns (r: Result<AggregationRequest, Error>)
      ensures r.Failure? ==> Parse(nss, cmdObj, explainVerbosity, readOnly, cursorOptions) == Failure(r.error)
      ensures r.Success? ==>
                (fresh(r.value)
                 && Parse(nss, cmdObj, explainVerbosity, readOnly, cursorOptions) == Success(r.value.State()))
    {
      // Required parameters.
      var stages := ParsePipeline(cmdObj);
      if stages.Failure? {
        return Failure(stages.error);
      }
      var request := new AggregationRequest(nss, stages.value);
      ghost var s0 := ScanState(request.State(), false, false);
      var hasCursorElem := false;
      var hasExplainElem := false;

      // Optional parameters.
      for k := 0 to |cmdObj|
        invariant Scan(s0, cmdObj[..k], readOnly, cursorOptions)
                  == Success(ScanState(request.State(), hasCursorElem, hasExplainElem))
        invariant fresh(request)
      {
        assert cmdObj[..k + 1][..k] == cmdObj[..k];
        var err;
        err, hasCursorElem, hasExplainElem :=
          ParseOption(request, cmdObj[k], readOnly, cursorOptions, hasCursorElem, hasExplainElem);
        if err.Some? {
          AggregationParseProperties.ScanFailurePersists(s0, cmdObj, k + 1, readOnly, cursorOptions);
          return Failure(err.value);
        }
      }
      assert cmdObj[..|cmdObj|] == cmdObj;

      // Checks across fields.
      if explainVerbosity.Some? {
        if hasExplainElem {
          return Failure(Error(FailedToParse, ExplainName));
        }
        request.SetExplain(explainVerbosity);
      }
      if !hasCursorElem && request.explainMode.None? {
        return Failure(Error(FailedToParse, CursorName));
      }
      if request.explainMode.Some? && Lookup(cmdObj, ReadConcernName).Some? {
        return Failure(Error(FailedToParse, ReadConcernName));
      }
      if request.explainMode.Some? && Lookup(cmdObj, WriteConcernName).Some? {
        return Failure(Error(FailedToParse, WriteConcernName));
      }
      return Success(request);
    }
  }
}
