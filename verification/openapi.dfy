/** The OpenAPI contract script: `normalize` completes a document in place, `validate` lists what is missing. */
module OpenApi {
  import opened Options
  import opened Text

  // ---- Documents --------------------------------------------------------------------------------
  //
  // Schemas, header and parameter definitions are opaque text; `rest` holds the fields nothing touches.

  datatype Media = Media(schema: Option<string>, rest: string)
  datatype Response = Response(content: Option<map<string, Media>>, headers: Option<map<string, string>>, rest: string)
  datatype Operation = Operation(
    operationId: string, parameters: Option<seq<string>>, responses: Option<map<string, Response>>, rest: string)
  type PathItem = map<string, Operation>
  datatype Components = Components(
    headers: Option<map<string, string>>, parameters: Option<map<string, string>>, schemas: Option<map<string, string>>,
    rest: string)
  datatype Document = Document(components: Option<Components>, paths: map<string, PathItem>)

  const METHODS: set<string> := {"get", "post", "put", "patch", "delete", "head"}
  const MUTATIONS: set<string> := {"post", "put", "patch"}
  const IDEMPOTENCY_KEY := "#/components/parameters/IdempotencyKey"
  const REQUEST_ID := "#/components/headers/RequestID"
  const REPLAYED := "#/components/headers/IdempotencyReplayed"
  const PROBLEM := "#/components/schemas/Problem"
  const JSON_OBJECT := "#/components/schemas/JsonObject"

  predicate ApiPath(path: string) {
    "/api/" <= path
  }

  predicate Exempt(path: string) {
    path == "/api/v1/auth/login" || path == "/api/v1/auth/logout"
  }

  predicate NeedsKey(path: string, verb: string) {
    verb in MUTATIONS && ApiPath(path) && !Exempt(path)
  }

  function OrElse<T>(o: Option<T>, otherwise: T): T {
    if o.Some? then o.value else otherwise
  }

  /** Sets the key unless it is there already. */
  function Ensure<V>(m: map<string, V>, key: string, value: V): map<string, V> {
    if key in m then m else m[key := value]
  }

  // ---- Normalising ----------------------------------------------------------------------------------

  /** Media type and schema a response should carry; none for 204 and HEAD. */
  function ResponseSchema(path: string, verb: string, code: string): Option<(string, string)> {
    if code == "204" || verb == "head" then None
    else if path == "/metrics" then Some(("text/plain", "string"))
    else if path == "/api/v1/artifacts/{id}/versions/{version}/content" then Some(("application/octet-stream", "binary"))
    else if code != "" && (code[0] == '4' || code[0] == '5') then Some(("application/problem+json", PROBLEM))
    else if path == "/api/v1/runs/{id}" && code == "200" then Some(("application/json", "#/components/schemas/RunSnapshot"))
    else if path == "/api/v1/runs/{id}/usage" && code == "200" then Some(("application/json", "#/components/schemas/Usage"))
    else Some(("application/json", JSON_OBJECT))
  }

  predicate MarksReplay(path: string, verb: string, code: string) {
    verb in MUTATIONS && code != "" && code[0] == '2' && !Exempt(path)
  }

  function CompleteResponse(path: string, verb: string, code: string, r: Response): Response {
    match ResponseSchema(path, verb, code)
    case None => r
    case Some((media, schema)) =>
      var headers := Ensure(OrElse(r.headers, map[]), "X-Request-ID", REQUEST_ID);
      Response(
        Some(Ensure(OrElse(r.content, map[]), media, Media(Some(schema), ""))),
        Some(if MarksReplay(path, verb, code) then Ensure(headers, "Idempotency-Replayed", REPLAYED) else headers),
        r.rest)
  }

  const PROBLEM_RESPONSE := Response(
    Some(map["application/problem+json" := Media(Some(PROBLEM), "")]), Some(map["X-Request-ID" := REQUEST_ID]),
    "Problem Details response")

  function CompleteResponses(path: string, verb: string, responses: map<string, Response>): map<string, Response> {
    Ensure(map code | code in responses :: CompleteResponse(path, verb, code, responses[code]), "default", PROBLEM_RESPONSE)
  }

  function CompleteParameters(path: string, verb: string, parameters: Option<seq<string>>): Option<seq<string>> {
    if !NeedsKey(path, verb) then parameters
    else
      var ps := OrElse(parameters, []);
      Some(if IDEMPOTENCY_KEY in ps then ps else ps + [IDEMPOTENCY_KEY])
  }

  function CompleteOperation(path: string, verb: string, op: Operation): Operation {
    op.(parameters := CompleteParameters(path, verb, op.parameters),
        responses := Some(CompleteResponses(path, verb, OrElse(op.responses, map[]))))
  }

  function CompleteItem(path: string, item: PathItem): PathItem {
    map m | m in item :: if m in METHODS then CompleteOperation(path, m, item[m]) else item[m]
  }

  function CompleteComponents(c: Option<Components>): Components {
    var c := OrElse(c, Components(None, None, None, ""));
    Components(
      Some(OrElse(c.headers, map[])["RequestID" := "request id"]["IdempotencyReplayed" := "replayed"]),
      Some(OrElse(c.parameters, map[])["IdempotencyKey" := "idempotency key"]),
      Some(OrElse(c.schemas, map[])
           ["JsonObject" := "object"]["Problem" := "problem"]["RunSnapshot" := "run"]["Usage" := "usage"]),
      c.rest)
  }

  function Normalize(d: Document): Document {
    Document(Some(CompleteComponents(d.components)), map p | p in d.paths :: CompleteItem(p, d.paths[p]))
  }

  // ---- Validating -----------------------------------------------------------------------------------

  datatype Problem =
    | NoOperationId(verb: string, path: string)
    | NoIdempotencyKey(verb: string, path: string)
    | NoDefault(verb: string, path: string)
    | NoSchema(verb: string, path: string, code: string)
    | DuplicateId(id: string)

  predicate IsOperation(d: Document, path: string, verb: string) {
    path in d.paths && verb in d.paths[path] && verb in METHODS
  }

  predicate Checked(verb: string, code: string) {
    code != "204" && code != "default" && verb != "head"
  }

  predicate HasSchema(r: Response) {
    r.content.Some? && exists m :: m in r.content.value && r.content.value[m].schema.Some?
  }

  ghost predicate Reported(d: Document, e: Problem) {
    match e
    case NoOperationId(m, p) => IsOperation(d, p, m) && Blank(d.paths[p][m].operationId)
    case NoIdempotencyKey(m, p) =>
      IsOperation(d, p, m) && NeedsKey(p, m) && IDEMPOTENCY_KEY !in OrElse(d.paths[p][m].parameters, [])
    case NoDefault(m, p) => IsOperation(d, p, m) && "default" !in OrElse(d.paths[p][m].responses, map[])
    case NoSchema(m, p, code) =>
      && IsOperation(d, p, m) && Checked(m, code) && code in OrElse(d.paths[p][m].responses, map[])
      && !HasSchema(OrElse(d.paths[p][m].responses, map[])[code])
    case DuplicateId(id) =>
      id != "" && exists p, m, q, n ::
        (p, m) != (q, n) && IsOperation(d, p, m) && IsOperation(d, q, n)
        && Trim(d.paths[p][m].operationId) == id && Trim(d.paths[q][n].operationId) == id
  }

  // ---- Fixpoint ---------------------------------------------------------------------------------------

  lemma CompleteResponseTwice(path: string, verb: string, code: string, r: Response)
    ensures var once := CompleteResponse(path, verb, code, r); CompleteResponse(path, verb, code, once) == once
  {
    hide ResponseSchema, MarksReplay;
  }

  lemma ParametersTwice(path: string, verb: string, parameters: Option<seq<string>>)
    ensures var once := CompleteParameters(path, verb, parameters); CompleteParameters(path, verb, once) == once
  {
    hide NeedsKey;
  }

  /** One pass completes the responses: a default is in place, or HEAD, whose responses are left alone. */
  predicate Settles(verb: string, rs: map<string, Response>) {
    "default" in rs || verb == "head"
  }

  lemma ResponsesTwice(path: string, verb: string, rs: map<string, Response>)
    requires Settles(verb, rs)
    ensures var once := CompleteResponses(path, verb, rs); CompleteResponses(path, verb, once) == once
  {
    hide CompleteResponse;
    var once := CompleteResponses(path, verb, rs);
    forall code | code in once ensures CompleteResponse(path, verb, code, once[code]) == once[code] {
      if code in rs {
        CompleteResponseTwice(path, verb, code, rs[code]);
      } else {
        HeadUntouched(path, code, once[code]);
      }
    }
    assert CompleteResponses(path, verb, once).Keys == once.Keys;
  }

  lemma HeadUntouched(path: string, code: string, r: Response)
    ensures CompleteResponse(path, "head", code, r) == r
  {
  }

  lemma OperationTwice(path: string, verb: string, op: Operation)
    requires Settles(verb, OrElse(op.responses, map[]))
    ensures var once := CompleteOperation(path, verb, op); CompleteOperation(path, verb, once) == once
  {
    hide CompleteParameters, CompleteResponses;
    ParametersTwice(path, verb, op.parameters);
    ResponsesTwice(path, verb, OrElse(op.responses, map[]));
  }

  /** The default response the script adds gains a second media type on the next pass. */
  lemma AddedDefaultChanges(path: string, verb: string, op: Operation)
    requires !Settles(verb, OrElse(op.responses, map[]))
    ensures var once := CompleteOperation(path, verb, op); CompleteOperation(path, verb, once) != once
  {
    hide CompleteParameters, CompleteResponse;
    var once := CompleteOperation(path, verb, op);
    assert once.responses.value["default"] == PROBLEM_RESPONSE;
    ProblemGains(path, verb);
    assert CompleteOperation(path, verb, once).responses.value["default"] ==
           CompleteResponse(path, verb, "default", PROBLEM_RESPONSE);
  }

  lemma ProblemGains(path: string, verb: string)
    requires verb != "head"
    ensures CompleteResponse(path, verb, "default", PROBLEM_RESPONSE) != PROBLEM_RESPONSE
  {
    hide MarksReplay;
    assert "default"[0] == 'd' && |"default"| == 7 && |"204"| == 3 && |"200"| == 3;
    var (media, schema) := ResponseSchema(path, verb, "default").value;
    assert media != "application/problem+json" by {
      assert |"text/plain"| == 10 && |"application/octet-stream"| == 24 && |"application/json"| == 16;
      assert |"application/problem+json"| == 24;
      assert "application/octet-stream"[12] == 'o' && "application/problem+json"[12] == 'p';
    }
    assert media in CompleteResponse(path, verb, "default", PROBLEM_RESPONSE).content.value;
  }

  lemma DefaultAdded(path: string, verb: string, op: Operation)
    ensures CompleteOperation(path, verb, op).responses.Some?
    ensures "default" in CompleteOperation(path, verb, op).responses.value
  {
  }

  lemma ComponentsTwice(c: Option<Components>)
    ensures CompleteComponents(Some(CompleteComponents(c))) == CompleteComponents(c)
  {
    var once := CompleteComponents(c);
    assert once.headers.value["RequestID" := "request id"]["IdempotencyReplayed" := "replayed"] == once.headers.value;
    assert once.parameters.value["IdempotencyKey" := "idempotency key"] == once.parameters.value;
    SchemasTwice(OrElse(OrElse(c, Components(None, None, None, "")).schemas, map[]));
  }

  lemma SchemasTwice(m: map<string, string>)
    ensures var once := m["JsonObject" := "object"]["Problem" := "problem"]["RunSnapshot" := "run"]["Usage" := "usage"];
            once["JsonObject" := "object"]["Problem" := "problem"]["RunSnapshot" := "run"]["Usage" := "usage"] == once
  {
    NamesDistinct();
  }

  lemma NamesDistinct()
    ensures "JsonObject" != "Problem" && "JsonObject" != "RunSnapshot" && "JsonObject" != "Usage"
    ensures "Problem" != "RunSnapshot" && "Problem" != "Usage" && "RunSnapshot" != "Usage"
  {
    assert "JsonObject"[0] == 'J' && "Problem"[0] == 'P' && "RunSnapshot"[0] == 'R' && "Usage"[0] == 'U';
  }

  ghost predicate AllSettle(d: Document) {
    forall p, m | IsOperation(d, p, m) :: Settles(m, OrElse(d.paths[p][m].responses, map[]))
  }

  lemma NormalizeTwice(d: Document)
    requires AllSettle(d)
    ensures Normalize(Normalize(d)) == Normalize(d)
  {
    hide CompleteOperation, CompleteComponents;
    var once := Normalize(d);
    ComponentsTwice(d.components);
    forall p | p in d.paths ensures CompleteItem(p, once.paths[p]) == once.paths[p] {
      forall m | m in d.paths[p] && m in METHODS ensures CompleteOperation(p, m, once.paths[p][m]) == once.paths[p][m] {
        assert IsOperation(d, p, m);
        OperationTwice(p, m, d.paths[p][m]);
      }
    }
    assert Normalize(once).paths == once.paths;
  }

  lemma SettleAfter(d: Document)
    ensures AllSettle(Normalize(d))
  {
    hide CompleteOperation;
    forall p, m | IsOperation(Normalize(d), p, m)
      ensures Settles(m, OrElse(Normalize(d).paths[p][m].responses, map[]))
    {
      DefaultAdded(p, m, d.paths[p][m]);
    }
  }

  /** Two applications reach a fixpoint on every document. */
  lemma FixpointAfterTwo(d: Document)
    ensures Normalize(Normalize(Normalize(d))) == Normalize(Normalize(d))
  {
    hide Normalize;
    SettleAfter(d);
    NormalizeTwice(Normalize(d));
  }

  /** One application is enough exactly when every operation but HEAD already has a default response. */
  lemma FixpointAfterOneIff(d: Document)
    ensures Normalize(Normalize(d)) == Normalize(d) <==> AllSettle(d)
  {
    hide CompleteOperation, CompleteComponents;
    if AllSettle(d) {
      NormalizeTwice(d);
    } else {
      var p, m :| IsOperation(d, p, m) && !Settles(m, OrElse(d.paths[p][m].responses, map[]));
      AddedDefaultChanges(p, m, d.paths[p][m]);
      assert Normalize(Normalize(d)).paths[p][m] != Normalize(d).paths[p][m];
    }
  }

  // ---- Validation after normalising -----------------------------------------------------------------------

  /** The response holds the media type that would be added, and no schema under any media type. */
  predicate SchemaMissed(path: string, verb: string, code: string, r: Response) {
    && !HasSchema(r) && r.content.Some? && ResponseSchema(path, verb, code).Some?
    && ResponseSchema(path, verb, code).value.0 in r.content.value
  }

  lemma CompletedSchema(path: string, verb: string, code: string, r: Response)
    requires Checked(verb, code)
    ensures HasSchema(CompleteResponse(path, verb, code, r)) <==> !SchemaMissed(path, verb, code, r)
  {
    hide MarksReplay;
    var (media, schema) := ResponseSchema(path, verb, code).value;
    var content := OrElse(r.content, map[]);
    var after := CompleteResponse(path, verb, code, r).content.value;
    assert after == Ensure(content, media, Media(Some(schema), ""));
    if media !in content {
      assert after[media].schema.Some?;
    } else {
      assert after == content;
    }
  }

  /** What `validate` still reports after `normalize`, exactly: operation ids as before, and responses
      whose expected media type was there without any schema. */
  lemma ReportedAfterNormalize(d: Document, e: Problem)
    ensures Reported(Normalize(d), e) <==>
            match e
            case NoOperationId(_, _) => Reported(d, e)
            case DuplicateId(_) => Reported(d, e)
            case NoIdempotencyKey(_, _) => false
            case NoDefault(_, _) => false
            case NoSchema(m, p, code) =>
              && IsOperation(d, p, m) && Checked(m, code) && code in OrElse(d.paths[p][m].responses, map[])
              && SchemaMissed(p, m, code, OrElse(d.paths[p][m].responses, map[])[code])
  {
    match e
    case NoOperationId(m, p) =>
    case NoIdempotencyKey(m, p) => if IsOperation(d, p, m) { KeyAdded(p, m, d.paths[p][m]); }
    case NoDefault(m, p) => if IsOperation(d, p, m) { DefaultAdded(p, m, d.paths[p][m]); }
    case NoSchema(m, p, code) => SchemaReported(d, m, p, code);
    case DuplicateId(id) => SameIds(d);
  }

  lemma KeyAdded(path: string, verb: string, op: Operation)
    ensures NeedsKey(path, verb) ==> IDEMPOTENCY_KEY in OrElse(CompleteOperation(path, verb, op).parameters, [])
  {
  }

  lemma SameIds(d: Document)
    ensures forall p, m :: IsOperation(Normalize(d), p, m) <==> IsOperation(d, p, m)
    ensures forall p, m | IsOperation(d, p, m) :: Normalize(d).paths[p][m].operationId == d.paths[p][m].operationId
  {
  }

  lemma OperationAt(d: Document, p: string, m: string)
    ensures IsOperation(Normalize(d), p, m) <==> IsOperation(d, p, m)
    ensures IsOperation(d, p, m) ==> Normalize(d).paths[p][m] == CompleteOperation(p, m, d.paths[p][m])
  {
    hide CompleteOperation, CompleteComponents;
  }

  lemma ResponseAt(path: string, verb: string, op: Operation, code: string)
    requires code != "default"
    ensures var rs, after := OrElse(op.responses, map[]), OrElse(CompleteOperation(path, verb, op).responses, map[]);
            (code in after <==> code in rs) && (code in rs ==> after[code] == CompleteResponse(path, verb, code, rs[code]))
  {
    hide CompleteResponse, CompleteParameters;
  }

  lemma SchemaReported(d: Document, m: string, p: string, code: string)
    ensures Reported(Normalize(d), NoSchema(m, p, code)) <==>
            && IsOperation(d, p, m) && Checked(m, code) && code in OrElse(d.paths[p][m].responses, map[])
            && SchemaMissed(p, m, code, OrElse(d.paths[p][m].responses, map[])[code])
  {
    hide Normalize, IsOperation, CompleteOperation, CompleteResponse, SchemaMissed, HasSchema;
    OperationAt(d, p, m);
    OperationExists(d, p, m);
    if IsOperation(d, p, m) && Checked(m, code) {
      ResponseAt(p, m, d.paths[p][m], code);
      var rs := OrElse(d.paths[p][m].responses, map[]);
      if code in rs {
        CompletedSchema(p, m, code, rs[code]);
      }
    }
  }

  lemma OperationExists(d: Document, p: string, m: string)
    ensures IsOperation(d, p, m) ==> p in d.paths && m in d.paths[p]
    ensures IsOperation(Normalize(d), p, m) ==> p in Normalize(d).paths && m in Normalize(d).paths[p]
  {
  }

  /** Every media entry of the document has a schema. */
  ghost predicate MediaHaveSchemas(d: Document) {
    forall p, m, code, media ::
      IsOperation(d, p, m) && code in OrElse(d.paths[p][m].responses, map[])
      && media in OrElse(OrElse(d.paths[p][m].responses, map[])[code].content, map[])
      ==> OrElse(d.paths[p][m].responses, map[])[code].content.value[media].schema.Some?
  }

  /** When media entries carry schemas, a normalised document has no problem but with operation ids. */
  lemma OnlyOperationIdsRemain(d: Document, e: Problem)
    requires MediaHaveSchemas(d) && Reported(Normalize(d), e)
    ensures e.NoOperationId? || e.DuplicateId?
  {
    hide Normalize, SchemaMissed, MediaHaveSchemas;
    ReportedAfterNormalize(d, e);
    if e.NoSchema? {
      NeverMissed(d, e.path, e.verb, e.code);
    }
  }

  lemma NeverMissed(d: Document, p: string, m: string, code: string)
    requires MediaHaveSchemas(d) && IsOperation(d, p, m) && code in OrElse(d.paths[p][m].responses, map[])
    ensures !SchemaMissed(p, m, code, OrElse(d.paths[p][m].responses, map[])[code])
  {
    hide ResponseSchema;
    var r := OrElse(d.paths[p][m].responses, map[])[code];
    if r.content.Some? && ResponseSchema(p, m, code).Some? && ResponseSchema(p, m, code).value.0 in r.content.value {
      assert ResponseSchema(p, m, code).value.0 in OrElse(r.content, map[]);
      assert r.content.value[ResponseSchema(p, m, code).value.0].schema.Some?;
    }
  }
}
