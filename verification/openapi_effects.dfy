/** Exactly what `normalize` adds to a document, and that it changes nothing else. */
module OpenApiEffects {
  import opened Options
  import opened Text
  import opened OpenApi

  // ---- What a response has to carry ----------------------------------------------------------------------

  const METRICS := "/metrics"
  const CONTENT := "/api/v1/artifacts/{id}/versions/{version}/content"
  const RUN := "/api/v1/runs/{id}"
  const USAGE := "/api/v1/runs/{id}/usage"

  /** A response without a body: no content is expected of it. */
  predicate Bodiless(verb: string, code: string) {
    verb == "head" || code == "204"
  }

  predicate IsError(code: string) {
    "4" <= code || "5" <= code
  }

  /** The media type a body has: plain text for metrics, bytes for artifact content, a problem for errors, and JSON. */
  predicate MediaOf(path: string, code: string, media: string) {
    media == if path == METRICS then "text/plain"
             else if path == CONTENT then "application/octet-stream"
             else if IsError(code) then "application/problem+json"
             else "application/json"
  }

  lemma SchemaTable(path: string, verb: string, code: string)
    ensures ResponseSchema(path, verb, code).None? <==> Bodiless(verb, code)
    ensures !Bodiless(verb, code) ==> MediaOf(path, code, ResponseSchema(path, verb, code).value.0)
    ensures !Bodiless(verb, code) && path != METRICS && path != CONTENT ==>
              && (IsError(code) ==> ResponseSchema(path, verb, code).value.1 == "#/components/schemas/Problem")
              && (code == "200" && path == RUN ==> ResponseSchema(path, verb, code).value.1 == "#/components/schemas/RunSnapshot")
              && (code == "200" && path == USAGE ==> ResponseSchema(path, verb, code).value.1 == "#/components/schemas/Usage")
              && (!IsError(code) && !(code == "200" && (path == RUN || path == USAGE)) ==>
                    ResponseSchema(path, verb, code).value.1 == "#/components/schemas/JsonObject")
  {
    assert RUN != USAGE by {
      assert |RUN| == 17 && |USAGE| == 23;
    }
    assert "200"[0] == '2' && "204"[0] == '2' && "4"[0] == '4' && "5"[0] == '5' && |"4"| == |"5"| == 1;
  }

  /** Mutations of the interface that may be repeated under a key. */
  predicate Repeatable(path: string, verb: string) {
    verb in {"post", "put", "patch"} && path != "/api/v1/auth/login" && path != "/api/v1/auth/logout"
  }

  /** Everything that was there is still there, as it was, and only `key` may be new. */
  ghost predicate OnlyAdds<V(!new)>(before: map<string, V>, after: map<string, V>, key: string) {
    (forall k | k in before :: k in after && after[k] == before[k]) && forall k | k in after :: k in before || k == key
  }

  /** One response: a body gets its media type and the request header, and a repeatable mutation's success the
      replay header; nothing is taken away or replaced. */
  lemma ResponseCompleted(path: string, verb: string, code: string, r: Response)
    ensures var after := CompleteResponse(path, verb, code, r);
            if Bodiless(verb, code) then after == r
            else
              && after.rest == r.rest && after.content.Some? && after.headers.Some?
              && var (content, headers) := (OrElse(r.content, map[]), OrElse(r.headers, map[]));
                 var (media, schema) := ResponseSchema(path, verb, code).value;
                 && MediaOf(path, code, media) && media in after.content.value && OnlyAdds(content, after.content.value, media)
                 && (media !in content ==> after.content.value[media] == Media(Some(schema), ""))
                 && (forall h | h in headers :: h in after.headers.value && after.headers.value[h] == headers[h])
                 && (forall h | h in after.headers.value :: h in headers || h == "X-Request-ID" || h == "Idempotency-Replayed")
                 && "X-Request-ID" in after.headers.value
                 && ("X-Request-ID" !in headers ==> after.headers.value["X-Request-ID"] == "#/components/headers/RequestID")
                 && ("Idempotency-Replayed" in after.headers.value <==>
                     "Idempotency-Replayed" in headers || (Repeatable(path, verb) && "2" <= code))
                 && ("Idempotency-Replayed" in after.headers.value && "Idempotency-Replayed" !in headers ==>
                       after.headers.value["Idempotency-Replayed"] == "#/components/headers/IdempotencyReplayed")
  {
    hide ResponseSchema;
    SchemaTable(path, verb, code);
    assert "X-Request-ID" != "Idempotency-Replayed" by {
      assert "X-Request-ID"[0] == 'X' && "Idempotency-Replayed"[0] == 'I';
    }
    assert "2" <= code <==> code != "" && code[0] == '2' by {
      assert "2"[0] == '2' && |"2"| == 1;
    }
  }

  // ---- Operations -----------------------------------------------------------------------------------------------

  /** The key parameter of a repeatable mutation, added at the end unless it is there. */
  lemma ParametersCompleted(path: string, verb: string, parameters: Option<seq<string>>)
    ensures var before, after := OrElse(parameters, []), CompleteParameters(path, verb, parameters);
            var key := "#/components/parameters/IdempotencyKey";
            if Repeatable(path, verb) && "/api/" <= path
            then after == Some(if key in before then before else before + [key])
            else after == parameters
  {
  }

  const PROBLEM_ONLY := Response(
    Some(map["application/problem+json" := Media(Some("#/components/schemas/Problem"), "")]),
    Some(map["X-Request-ID" := "#/components/headers/RequestID"]), "Problem Details response")

  /** One operation: its parameters and responses are completed, and a default problem response is added where there
      is none. Nothing else of it changes. */
  lemma OperationCompleted(path: string, verb: string, op: Operation, code: string)
    ensures var after := CompleteOperation(path, verb, op);
            var before := OrElse(op.responses, map[]);
            && after.operationId == op.operationId && after.rest == op.rest && after.responses.Some?
            && after.parameters == CompleteParameters(path, verb, op.parameters)
            && (code in after.responses.value <==> code in before || code == "default")
            && (code in before ==> after.responses.value[code] == CompleteResponse(path, verb, code, before[code]))
            && ("default" !in before ==> after.responses.value["default"] == PROBLEM_ONLY)
  {
    hide CompleteResponse, CompleteParameters;
  }

  /** The whole document: the same paths with the same entries; exactly the HTTP methods are completed; and of the
      components only the seven shared ones are set. */
  lemma DocumentCompleted(d: Document, path: string, verb: string)
    ensures var after := Normalize(d);
            && (path in after.paths <==> path in d.paths)
            && (path in d.paths ==>
                  && (verb in after.paths[path] <==> verb in d.paths[path])
                  && (verb in d.paths[path] ==>
                        after.paths[path][verb] ==
                        if verb in {"get", "post", "put", "patch", "delete", "head"}
                        then CompleteOperation(path, verb, d.paths[path][verb]) else d.paths[path][verb]))
  {
    hide CompleteOperation, CompleteComponents;
  }

  predicate Shared(kind: int, name: string) {
    match kind
    case 0 => name == "RequestID" || name == "IdempotencyReplayed"
    case 1 => name == "IdempotencyKey"
    case _ => name == "JsonObject" || name == "Problem" || name == "RunSnapshot" || name == "Usage"
  }

  predicate SharedSet(before: Option<map<string, string>>, after: Option<map<string, string>>, kind: int, name: string) {
    && after.Some? && (name in after.value <==> name in OrElse(before, map[]) || Shared(kind, name))
    && (name in OrElse(before, map[]) && !Shared(kind, name) ==> after.value[name] == before.value[name])
  }

  lemma ComponentsCompleted(d: Document, name: string)
    ensures var before := OrElse(d.components, Components(None, None, None, ""));
            Normalize(d).components.Some?
            && var after := Normalize(d).components.value;
               && after.rest == before.rest && SharedSet(before.headers, after.headers, 0, name)
               && SharedSet(before.parameters, after.parameters, 1, name) && SharedSet(before.schemas, after.schemas, 2, name)
  {
    hide CompleteItem;
  }

  // ---- What validation asks for -----------------------------------------------------------------------------

  predicate Named(d: Document, path: string, verb: string) {
    path in d.paths && verb in d.paths[path] && verb in {"get", "post", "put", "patch", "delete", "head"}
  }

  /** The operation has an id, the idempotency key if it is a repeatable API mutation, a default response, and a schema
      for every other response that has a body. */
  ghost predicate Clean(path: string, verb: string, op: Operation) {
    && !Blank(op.operationId)
    && (Repeatable(path, verb) && "/api/" <= path ==>
          op.parameters.Some? && "#/components/parameters/IdempotencyKey" in op.parameters.value)
    && op.responses.Some? && "default" in op.responses.value
    && forall code | code in op.responses.value && code != "default" && !Bodiless(verb, code) ::
         var content := op.responses.value[code].content;
         content.Some? && exists m :: m in content.value && content.value[m].schema.Some?
  }

  ghost predicate IdsApart(d: Document) {
    forall p, m, q, n | Named(d, p, m) && Named(d, q, n) && (p, m) != (q, n) && !Blank(d.paths[p][m].operationId) ::
      Trim(d.paths[p][m].operationId) != Trim(d.paths[q][n].operationId)
  }

  lemma {:induction false} BlankLeft(s: string)
    ensures Blank(s) <==> TrimLeft(s) == ""
    ensures TrimLeft(s) != "" ==> !IsSpace(TrimLeft(s)[0])
  {
    if s != "" && IsSpace(s[0]) {
      BlankLeft(s[1..]);
    }
  }

  lemma {:induction false} RightKeepsFirst(s: string)
    requires s != "" && !IsSpace(s[0])
    ensures TrimRight(s) != ""
  {
    if IsSpace(s[|s| - 1]) {
      RightKeepsFirst(s[..|s| - 1]);
    }
  }

  lemma BlankIsEmpty(s: string)
    ensures Blank(s) <==> Trim(s) == ""
  {
    BlankLeft(s);
    if TrimLeft(s) != "" {
      RightKeepsFirst(TrimLeft(s));
    }
  }

  lemma CleanAt(d: Document, path: string, verb: string)
    requires Named(d, path, verb)
    ensures Clean(path, verb, d.paths[path][verb]) <==>
            && !Reported(d, NoOperationId(verb, path)) && !Reported(d, NoIdempotencyKey(verb, path))
            && !Reported(d, NoDefault(verb, path)) && forall code :: !Reported(d, NoSchema(verb, path, code))
  {
    hide Blank, Trim;
    var op := d.paths[path][verb];
    assert IsOperation(d, path, verb);
    if op.responses.Some? {
      forall code | code in op.responses.value
        ensures Reported(d, NoSchema(verb, path, code)) <==>
                code != "default" && !Bodiless(verb, code) && !HasSchema(op.responses.value[code])
      {
      }
    }
  }

  lemma ApartIff(d: Document)
    ensures IdsApart(d) <==> forall id :: !Reported(d, DuplicateId(id))
  {
    hide Blank, Trim, METHODS, IsOperation, Named;
    NamedAre(d);
    if !IdsApart(d) {
      var p, m, q, n :| Named(d, p, m) && Named(d, q, n) && (p, m) != (q, n) && !Blank(d.paths[p][m].operationId)
                        && Trim(d.paths[p][m].operationId) == Trim(d.paths[q][n].operationId);
      BlankIsEmpty(d.paths[p][m].operationId);
      assert Reported(d, DuplicateId(Trim(d.paths[p][m].operationId)));
    }
    if id :| Reported(d, DuplicateId(id)) {
      var p, m, q, n :| (p, m) != (q, n) && IsOperation(d, p, m) && IsOperation(d, q, n)
                        && Trim(d.paths[p][m].operationId) == id && Trim(d.paths[q][n].operationId) == id;
      BlankIsEmpty(d.paths[p][m].operationId);
      assert Named(d, p, m) && Named(d, q, n);
    }
  }

  lemma NamedAre(d: Document)
    ensures forall p, m :: Named(d, p, m) <==> IsOperation(d, p, m)
    ensures forall p, m | Named(d, p, m) :: p in d.paths && m in d.paths[p]
  {
  }

  /** Validation finds nothing if and only if every operation is clean and no two have the same id. */
  lemma CleanIff(d: Document)
    ensures (forall e :: !Reported(d, e)) <==>
            (forall p, m | Named(d, p, m) :: Clean(p, m, d.paths[p][m])) && IdsApart(d)
  {
    hide Reported, Clean, IdsApart;
    ApartIff(d);
    forall p, m | Named(d, p, m)
      ensures Clean(p, m, d.paths[p][m]) <==>
              && !Reported(d, NoOperationId(m, p)) && !Reported(d, NoIdempotencyKey(m, p))
              && !Reported(d, NoDefault(m, p)) && forall code :: !Reported(d, NoSchema(m, p, code))
    {
      CleanAt(d, p, m);
    }
    forall e | Reported(d, e) && !e.DuplicateId?
      ensures Named(d, e.path, e.verb) && !Clean(e.path, e.verb, d.paths[e.path][e.verb])
    {
      ReportedUnclean(d, e);
    }
  }

  lemma ReportedUnclean(d: Document, e: OpenApi.Problem)
    requires Reported(d, e) && !e.DuplicateId?
    ensures Named(d, e.path, e.verb) && !Clean(e.path, e.verb, d.paths[e.path][e.verb])
  {
    hide Clean, Blank;
    CleanAt(d, e.path, e.verb);
  }
}
