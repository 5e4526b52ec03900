/**
 * Concrete requests and what the parser makes of them. An empty `cursor`
 * object leaves the cursor parser's default batch size, so the cursor outcome
 * passed in is `Success(DefaultBatchSize)`.
 */
module AggregationExamples {
  import opened Results
  import opened Bson
  import opened AggregationCommand
  import opened AggregationParse
  import AggregationParseProperties

  const Coll := Namespace("db", "coll")
  const MatchAll: Document := [("$match", Obj([]))]

  /** `{pipeline: [], cursor: {}}` gives the defaults over an empty pipeline. */
  lemma EmptyPipelineDefaults()
    ensures Parse(Coll, [(PipelineName, Arr([])), (CursorName, Obj([]))], None, false,
                  Success(DefaultBatchSize as int))
            == Success(Defaults(Coll, []))
  {
    var cmdObj := [(PipelineName, Arr([])), (CursorName, Obj([]))];
    var co: Result<int, Error> := Success(DefaultBatchSize as int);
    assert PipelineStages(cmdObj) == Success([]) by {
      assert |StageValues(PipelineStages(cmdObj).value)| == 0;
    }
    var s0 := ScanState(Defaults(Coll, []), false, false);
    assert Scan(s0, cmdObj[..1], false, co) == Success(s0) by {
      assert cmdObj[..1][..0] == [];
    }
    assert Scan(s0, cmdObj, false, co) == Success(s0.(hasCursor := true)) by {
      assert cmdObj[..|cmdObj| - 1] == cmdObj[..1];
    }
  }

  /** A command whose first field is a one-stage pipeline has that stage. */
  lemma OneStage(cmdObj: Document)
    requires |cmdObj| > 0 && cmdObj[0] == (PipelineName, Arr([Obj(MatchAll)]))
    ensures PipelineStages(cmdObj) == Success([MatchAll])
  {
    assert StageValues([MatchAll]) == [Obj(MatchAll)];
    AggregationParseProperties.StageValuesInjective(PipelineStages(cmdObj).value, [MatchAll]);
  }

  /** Over a one-stage pipeline, the scan of `pipeline` then `cursor: {}` only records the cursor. */
  lemma PipelineThenCursor(cmdObj: Document, readOnly: bool)
    requires |cmdObj| == 3
    requires cmdObj[0] == (PipelineName, Arr([Obj(MatchAll)])) && cmdObj[1] == (CursorName, Obj([]))
    ensures var s0 := ScanState(Defaults(Coll, [MatchAll]), false, false);
      Scan(s0, cmdObj[..2], readOnly, Success(DefaultBatchSize as int)) == Success(s0.(hasCursor := true))
  {
    var co: Result<int, Error> := Success(DefaultBatchSize as int);
    var s0 := ScanState(Defaults(Coll, [MatchAll]), false, false);
    assert Scan(s0, cmdObj[..1], readOnly, co) == Success(s0) by {
      assert cmdObj[..1][..0] == [];
    }
    assert cmdObj[..2][..1] == cmdObj[..1];
  }

  /** An index name given as the hint is kept as `{$hint: name}`. */
  lemma HintByName()
    ensures var cmdObj := [(PipelineName, Arr([Obj(MatchAll)])), (CursorName, Obj([])), (HintName, Str("idx_1"))];
      var r := Parse(Coll, cmdObj, None, false, Success(DefaultBatchSize as int));
      r.Success? && r.value.hint == [("$hint", Str("idx_1"))]
  {
    var cmdObj := [(PipelineName, Arr([Obj(MatchAll)])), (CursorName, Obj([])), (HintName, Str("idx_1"))];
    OneStage(cmdObj);
    PipelineThenCursor(cmdObj, false);
    assert cmdObj[..|cmdObj| - 1] == cmdObj[..2];
  }

  /** The same without a cursor is refused: the cursor is required outside explain. */
  lemma HintWithoutCursor()
    ensures Parse(Coll, [(PipelineName, Arr([Obj(MatchAll)])), (HintName, Str("idx_1"))], None, false,
                  Success(DefaultBatchSize as int))
            == Failure(Error(FailedToParse, CursorName))
  {
    var cmdObj := [(PipelineName, Arr([Obj(MatchAll)])), (HintName, Str("idx_1"))];
    var co: Result<int, Error> := Success(DefaultBatchSize as int);
    OneStage(cmdObj);
    var s0 := ScanState(Defaults(Coll, [MatchAll]), false, false);
    assert Scan(s0, cmdObj[..1], false, co) == Success(s0) by {
      assert cmdObj[..1][..0] == [];
    }
    assert cmdObj[..|cmdObj| - 1] == cmdObj[..1];
  }

  /** An explain field alongside an explain verbosity is refused. */
  lemma ExplainTwice()
    ensures var cmdObj := [(PipelineName, Arr([Obj(MatchAll)])), (CursorName, Obj([])), (ExplainName, Bool(true))];
      Parse(Coll, cmdObj, Some(QueryPlanner), false, Success(DefaultBatchSize as int))
      == Failure(Error(FailedToParse, ExplainName))
  {
    var cmdObj := [(PipelineName, Arr([Obj(MatchAll)])), (CursorName, Obj([])), (ExplainName, Bool(true))];
    OneStage(cmdObj);
    PipelineThenCursor(cmdObj, false);
    assert cmdObj[..|cmdObj| - 1] == cmdObj[..2];
  }

  /** allowDiskUse is refused in read-only mode and honoured otherwise. */
  lemma AllowDiskUseReadOnly()
    ensures var cmdObj := [(PipelineName, Arr([Obj(MatchAll)])), (CursorName, Obj([])), (AllowDiskUseName, Bool(true))];
      && Parse(Coll, cmdObj, None, true, Success(DefaultBatchSize as int))
         == Failure(Error(IllegalOperation, AllowDiskUseName))
      && Parse(Coll, cmdObj, None, false, Success(DefaultBatchSize as int))
         == Success(Defaults(Coll, [MatchAll]).(allowDiskUse := true))
  {
    var cmdObj := [(PipelineName, Arr([Obj(MatchAll)])), (CursorName, Obj([])), (AllowDiskUseName, Bool(true))];
    OneStage(cmdObj);
    PipelineThenCursor(cmdObj, true);
    PipelineThenCursor(cmdObj, false);
    assert cmdObj[..|cmdObj| - 1] == cmdObj[..2];
  }

  /** The bypass option takes its value's truthiness: `undefined` leaves it false, `1` sets it. */
  lemma BypassTruthiness()
    ensures var cmdObj := [(PipelineName, Arr([Obj(MatchAll)])), (CursorName, Obj([])),
                           (BypassDocumentValidationName, Undefined)];
      Parse(Coll, cmdObj, None, false, Success(DefaultBatchSize as int)) == Success(Defaults(Coll, [MatchAll]))
    ensures var cmdObj := [(PipelineName, Arr([Obj(MatchAll)])), (CursorName, Obj([])),
                           (BypassDocumentValidationName, Int(1))];
      Parse(Coll, cmdObj, None, false, Success(DefaultBatchSize as int))
      == Success(Defaults(Coll, [MatchAll]).(bypassDocumentValidation := true))
  {
    var undef := [(PipelineName, Arr([Obj(MatchAll)])), (CursorName, Obj([])),
                  (BypassDocumentValidationName, Undefined)];
    OneStage(undef);
    PipelineThenCursor(undef, false);
    assert undef[..|undef| - 1] == undef[..2];
    var one := [(PipelineName, Arr([Obj(MatchAll)])), (CursorName, Obj([])),
                (BypassDocumentValidationName, Int(1))];
    OneStage(one);
    PipelineThenCursor(one, false);
    assert one[..|one| - 1] == one[..2];
  }
}
