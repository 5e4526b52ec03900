/**
 * The options of the aggregate command as a value: field names, defaults, the
 * error taxonomy, and the encoder that turns a request back into a command object.
 */
module AggregationCommand {
  import opened Results
  import opened Bson

  // Field names the aggregate command owns.
  const CommandName: string := "aggregate"
  const CursorName: string := "cursor"
  const BatchSizeName: string := "batchSize"
  const FromRouterName: string := "fromRouter"
  const PipelineName: string := "pipeline"
  const CollationName: string := "collation"
  const ExplainName: string := "explain"
  const AllowDiskUseName: string := "allowDiskUse"
  const HintName: string := "hint"

  // Field names owned by other components of the server.
  const MaxTimeMSName: string := "maxTimeMS"
  const WriteConcernName: string := "writeConcern"
  const ReadConcernName: string := "readConcern"
  const BypassDocumentValidationName: string := "bypassDocumentValidation"

  const DefaultBatchSize: nat := 101

  /** A database name and a collection name. */
  datatype Namespace = Namespace(db: string, coll: string)

  /** How much an explain reports. */
  datatype Verbosity = QueryPlanner | ExecStats | ExecAllPlans

  /**
   * The codes the codec reports, and the codes a collaborator may report through it.
   * NegativeBatchSize is the assertion the batch-size setter makes (code 40203).
   */
  datatype ErrorCode = TypeMismatch | FailedToParse | IllegalOperation | NegativeBatchSize | External(code: int)

  /** An error: its code and the field it is about. */
  datatype Error = Error(code: ErrorCode, field: string)

  /**
   * The state of an aggregation request. An empty `collation` or `hint` means
   * that none was given; `explain` is `None` exactly when this is not an explain.
   */
  datatype Request = Request(
    nss: Namespace,
    pipeline: seq<Document>,
    batchSize: nat,
    collation: Document,
    hint: Document,
    explain: Option<Verbosity>,
    allowDiskUse: bool,
    fromRouter: bool,
    bypassDocumentValidation: bool)

  /** A request over `nss` and `pipeline` with every option at its default. */
  function Defaults(nss: Namespace, pipeline: seq<Document>): Request {
    Request(nss, pipeline, DefaultBatchSize, [], [], None, false, false, false)
  }

  /** The pipeline as the array value it is sent as. */
  function StageValues(pipeline: seq<Document>): seq<Value> {
    seq(|pipeline|, i requires 0 <= i < |pipeline| => Obj(pipeline[i]))
  }

  /**
   * A document written from a list of named values some of which are missing;
   * a missing value is left out, as the document builder does with `Value()`.
   */
  function Collect(entries: seq<(string, Option<Value>)>): Document
  {
    if |entries| == 0 then []
    else (if entries[0].1.Some? then [(entries[0].0, entries[0].1.value)] else [])
         + Collect(entries[1..])
  }

  /**
   * The fields of `d` called `name` carry exactly the value `expected`; with
   * `expected == None` there is no such field.
   */
  ghost predicate Emits(d: Document, name: string, expected: Option<Value>) {
    forall v :: (name, v) in d <==> expected == Some(v)
  }

  /** A document collected from entries has no field that no entry names. */
  lemma {:induction false} CollectOnly(entries: seq<(string, Option<Value>)>, names: seq<string>)
    requires forall e | e in entries :: e.0 in names
    ensures forall f | f in Collect(entries) :: f.0 in names
  {
    if |entries| > 0 {
      assert entries[0] in entries;
      assert forall e | e in entries[1..] :: e in entries;
      CollectOnly(entries[1..], names);
    }
  }

  /** In a document collected from entries, a name no entry carries does not occur. */
  lemma {:induction false} CollectOmits(entries: seq<(string, Option<Value>)>, name: string)
    requires forall i | 0 <= i < |entries| :: entries[i].0 != name
    ensures Emits(Collect(entries), name, None)
  {
    if |entries| > 0 {
      CollectOmits(entries[1..], name);
    }
  }

  /** In a document collected from entries, an entry whose name is unique is written as it is. */
  lemma {:induction false} CollectEmits(entries: seq<(string, Option<Value>)>, k: nat)
    requires k < |entries|
    requires forall i | 0 <= i < |entries| && i != k :: entries[i].0 != entries[k].0
    ensures Emits(Collect(entries), entries[k].0, entries[k].1)
  {
    if k == 0 {
      CollectOmits(entries[1..], entries[0].0);
    } else {
      CollectEmits(entries[1..], k - 1);
    }
  }

  /** The named values serializeToCommandObj writes, in its order; a missing one is not written. */
  function SerializedEntries(req: Request): seq<(string, Option<Value>)> {
    [(CommandName, Some(Str(req.nss.coll))),
     (PipelineName, Some(Arr(StageValues(req.pipeline)))),
     // Booleans only when they differ from their default.
     (AllowDiskUseName, if req.allowDiskUse then Some(Bool(true)) else None),
     (FromRouterName, if req.fromRouter then Some(Bool(true)) else None),
     (BypassDocumentValidationName, if req.bypassDocumentValidation then Some(Bool(true)) else None),
     // A collation only when one was given.
     (CollationName, if req.collation == [] then None else Some(Obj(req.collation))),
     // The batch size only outside explain.
     (CursorName, if req.explain.Some? then None else Some(Obj([(BatchSizeName, Int(req.batchSize))]))),
     // A hint only when one was given.
     (HintName, if req.hint == [] then None else Some(Obj(req.hint)))]
  }

  /**
   * serializeToCommandObj: the command object for `req`. Explain is not written:
   * it travels in the enclosing explain command.
   */
  function SerializeToCommandObj(req: Request): Document {
    Collect(SerializedEntries(req))
  }

  /** The command name and the pipeline are always written, each once. */
  lemma SerializeRequired(req: Request)
    ensures Emits(SerializeToCommandObj(req), CommandName, Some(Str(req.nss.coll)))
    ensures Emits(SerializeToCommandObj(req), PipelineName, Some(Arr(StageValues(req.pipeline))))
  {
    CollectEmits(SerializedEntries(req), 0);
    CollectEmits(SerializedEntries(req), 1);
  }

  /** The three booleans are written, as true, exactly when they are true. */
  lemma SerializeFlags(req: Request)
    ensures Emits(SerializeToCommandObj(req), AllowDiskUseName,
                  if req.allowDiskUse then Some(Bool(true)) else None)
    ensures Emits(SerializeToCommandObj(req), FromRouterName,
                  if req.fromRouter then Some(Bool(true)) else None)
    ensures Emits(SerializeToCommandObj(req), BypassDocumentValidationName,
                  if req.bypassDocumentValidation then Some(Bool(true)) else None)
  {
    CollectEmits(SerializedEntries(req), 2);
    CollectEmits(SerializedEntries(req), 3);
    CollectEmits(SerializedEntries(req), 4);
  }

  /**
   * Collation and hint are written exactly when not empty; the cursor, carrying
   * the batch size, exactly when the request is not an explain.
   */
  lemma SerializeOptions(req: Request)
    ensures Emits(SerializeToCommandObj(req), CollationName,
                  if req.collation == [] then None else Some(Obj(req.collation)))
    ensures Emits(SerializeToCommandObj(req), CursorName,
                  if req.explain.None? then Some(Obj([(BatchSizeName, Int(req.batchSize))])) else None)
    ensures Emits(SerializeToCommandObj(req), HintName,
                  if req.hint == [] then None else Some(Obj(req.hint)))
  {
    CollectEmits(SerializedEntries(req), 5);
    CollectEmits(SerializedEntries(req), 6);
    CollectEmits(SerializedEntries(req), 7);
  }

  /** Explain is never written, and neither is any field but the eight above. */
  lemma SerializeNothingElse(req: Request)
    ensures Emits(SerializeToCommandObj(req), ExplainName, None)
    ensures forall f | f in SerializeToCommandObj(req) ::
      f.0 in [CommandName, PipelineName, AllowDiskUseName, FromRouterName,
              BypassDocumentValidationName, CollationName, CursorName, HintName]
  {
    CollectOmits(SerializedEntries(req), ExplainName);
    CollectOnly(SerializedEntries(req),
                [CommandName, PipelineName, AllowDiskUseName, FromRouterName,
                 BypassDocumentValidationName, CollationName, CursorName, HintName]);
  }
}
