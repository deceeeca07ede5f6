/** The script's loops: the document is completed entry by entry, and problems are collected the same way. */
module OpenApiScript {
  import opened Options
  import opened Text
  import opened OpenApi

  class Contract {
    var document: Document

    constructor (d: Document)
      ensures document == d
    {
      document := d;
    }

    /** Completes every entry in place, in whatever order the entries come. */
    method Normalize()
      modifies this
      ensures document == OpenApi.Normalize(old(document))
    {
      hide CompleteItem, CompleteComponents;
      document := document.(components := Some(CompleteComponents(document.components)));
      ghost var paths := document.paths;
      var rest := document.paths.Keys;
      while rest != {}
        invariant rest <= paths.Keys == document.paths.Keys
        invariant document.components == Some(CompleteComponents(old(document).components))
        invariant forall p | p in paths :: document.paths[p] == if p in rest then paths[p] else CompleteItem(p, paths[p])
        decreases |rest|
      {
        var p :| p in rest;
        var item := NormalizeItem(p, document.paths[p]);
        document := document.(paths := document.paths[p := item]);
        rest := rest - {p};
      }
      assert document.paths == OpenApi.Normalize(old(document)).paths;
    }

    method NormalizeItem(path: string, item: PathItem) returns (r: PathItem)
      ensures r == CompleteItem(path, item)
    {
      hide CompleteOperation, CompleteResponses;
      r := item;
      var rest := item.Keys;
      while rest != {}
        invariant rest <= item.Keys == r.Keys
        invariant forall m | m in item :: r[m] == if m in rest then item[m] else CompleteItem(path, item)[m]
        decreases |rest|
      {
        var m :| m in rest;
        if m in METHODS {
          var op := NormalizeOperation(path, m, r[m]);
          r := r[m := op];
        }
        rest := rest - {m};
      }
      assert r == CompleteItem(path, item);
    }

    method NormalizeOperation(path: string, verb: string, op: Operation) returns (r: Operation)
      ensures r == CompleteOperation(path, verb, op)
    {
      hide CompleteResponse, CompleteResponses;
      r := op;
      if NeedsKey(path, verb) {
        var parameters := OrElse(r.parameters, []);
        if IDEMPOTENCY_KEY !in parameters {
          parameters := parameters + [IDEMPOTENCY_KEY];
        }
        r := r.(parameters := Some(parameters));
      }
      var responses := NormalizeResponses(path, verb, OrElse(op.responses, map[]));
      r := r.(responses := Some(responses));
    }

    method NormalizeResponses(path: string, verb: string, responses: map<string, Response>)
      returns (r: map<string, Response>)
      ensures r == CompleteResponses(path, verb, responses)
    {
      hide CompleteResponse;
      r := responses;
      var rest := responses.Keys;
      while rest != {}
        invariant rest <= responses.Keys == r.Keys
        invariant forall c | c in responses ::
                    r[c] == if c in rest then responses[c] else CompleteResponse(path, verb, c, responses[c])
        decreases |rest|
      {
        var c :| c in rest;
        r := r[c := CompleteResponse(path, verb, c, r[c])];
        rest := rest - {c};
      }
      assert r == map code | code in responses :: CompleteResponse(path, verb, code, responses[code]);
      if "default" !in r {
        r := r["default" := PROBLEM_RESPONSE];
      }
    }
  }

  /** The checked responses that have no schema. */
  method SchemaProblems(path: string, verb: string, responses: map<string,
        Response>) returns (problems: set<OpenApi.Problem>)
    ensures forall e :: e in problems <==>
              e.NoSchema? && e.path == path && e.verb == verb && e.code in responses
              && Checked(verb, e.code) && !HasSchema(responses[e.code])
  {
    hide HasSchema, Checked;
    problems := {};
    var rest := responses.Keys;
    while rest != {}
      invariant rest <= responses.Keys
      invariant forall e :: e in problems <==>
                  e.NoSchema? && e.path == path && e.verb == verb && e.code in responses && e.code !in rest
                  && Checked(verb, e.code) && !HasSchema(responses[e.code])
      decreases |rest|
    {
      var code :| code in rest;
      if Checked(verb, code) && !HasSchema(responses[code]) {
        problems := problems + {NoSchema(verb, path, code)};
      }
      rest := rest - {code};
    }
  }

  /** The problems of one operation, other than repeated ids. */
  method ValidateOperation(d: Document, path: string, verb: string) returns (problems: set<OpenApi.Problem>)
    requires IsOperation(d, path, verb)
    ensures forall e :: e in problems <==> !e.DuplicateId? && e.path == path && e.verb == verb && Reported(d, e)
  {
    hide HasSchema, NeedsKey, Blank, Checked, METHODS;
    var op := d.paths[path][verb];
    problems := SchemaProblems(path, verb, OrElse(op.responses, map[]));
    if Blank(op.operationId) {
      problems := problems + {NoOperationId(verb, path)};
    }
    if NeedsKey(path, verb) && IDEMPOTENCY_KEY !in OrElse(op.parameters, []) {
      problems := problems + {NoIdempotencyKey(verb, path)};
    }
    if "default" !in OrElse(op.responses, map[]) {
      problems := problems + {NoDefault(verb, path)};
    }
  }

  // ---- The whole document ---------------------------------------------------------------------------

  ghost function IdAt(d: Document, at: (string, string)): string
    requires IsOperation(d, at.0, at.1)
  {
    Trim(d.paths[at.0][at.1].operationId)
  }

  /** `ids` are the ids of the operations `at`, which are different ones. */
  ghost predicate IdsOf(d: Document, ids: seq<string>, at: seq<(string, string)>) {
    && |ids| == |at| && (forall i, j | 0 <= i < j < |at| :: at[i] != at[j])
    && forall i | 0 <= i < |at| :: IsOperation(d, at[i].0, at[i].1) && IdAt(d, at[i]) == ids[i] != ""
  }

  /** The ids of all these operations are among them. */
  ghost predicate HasIds(d: Document, at: seq<(string, string)>, ops: set<(string, string)>) {
    && (forall op | op in ops && IsOperation(d, op.0, op.1) && IdAt(d, op) != "" :: op in at)
    && forall i | 0 <= i < |at| :: at[i] in ops
  }

  lemma ReportedAt(d: Document)
    ensures forall e | Reported(d, e) && !e.DuplicateId? :: IsOperation(d, e.path, e.verb)
  {
  }

  method ValidateItem(d: Document, path: string)
    returns (problems: set<OpenApi.Problem>, ids: seq<string>, ghost at: seq<(string, string)>)
    requires path in d.paths
    ensures forall e :: e in problems <==> !e.DuplicateId? && e.path == path && Reported(d, e)
    ensures IdsOf(d, ids, at) && HasIds(d, at, set m | m in d.paths[path] :: (path, m))
  {
    hide Reported, Blank;
    ReportedAt(d);
    problems, ids, at := {}, [], [];
    var rest := d.paths[path].Keys;
    while rest != {}
      invariant rest <= d.paths[path].Keys
      invariant forall e :: e in problems <==> !e.DuplicateId? && e.path == path && e.verb !in rest && Reported(d, e)
      invariant IdsOf(d, ids, at) && HasIds(d, at, set m | m in d.paths[path] && m !in rest :: (path, m))
      decreases |rest|
    {
      var m :| m in rest;
      if m in METHODS {
        var found := ValidateOperation(d, path, m);
        problems := problems + found;
        var id := Trim(d.paths[path][m].operationId);
        if id != "" {
          ids, at := ids + [id], at + [(path, m)];
        }
      }
      rest := rest - {m};
    }
  }

  /** The ids that stand in the list more than once. */
  method Repeated(ids: seq<string>) returns (r: set<string>)
    ensures forall id :: id in r <==> exists i, j :: 0 <= i < j < |ids| && ids[i] == ids[j] == id
  {
    var seen: set<string> := {};
    r := {};
    for n := 0 to |ids|
      invariant forall id :: id in seen <==> id in ids[..n]
      invariant forall id :: id in r <==> exists i, j :: 0 <= i < j < n && ids[i] == ids[j] == id
    {
      if ids[n] in seen {
        r := r + {ids[n]};
      }
      seen := seen + {ids[n]};
    }
  }

  lemma RepeatedIsDuplicate(d: Document, ids: seq<string>, at: seq<(string, string)>, id: string)
    requires IdsOf(d, ids, at)
    requires forall p, m | IsOperation(d, p, m) && IdAt(d, (p, m)) != "" :: (p, m) in at
    ensures (exists i, j :: 0 <= i < j < |ids| && ids[i] == ids[j] == id) <==> Reported(d, DuplicateId(id))
  {
    hide IsOperation, Reported, IdAt;
    DuplicateAt(d, id);
    if i, j :| 0 <= i < j < |ids| && ids[i] == ids[j] == id {
      assert TwoWith(d, at[i], at[j], id);
    }
    if a, b :| TwoWith(d, a, b, id) {
      assert (a.0, a.1) == a && (b.0, b.1) == b;
      var i :| 0 <= i < |at| && at[i] == a;
      var j :| 0 <= j < |at| && at[j] == b;
      assert ids[i] == id && ids[j] == id;
      assert i < j || j < i;
    }
  }

  ghost predicate TwoWith(d: Document, a: (string, string), b: (string, string), id: string) {
    && a != b && id != "" && IsOperation(d, a.0, a.1) && IsOperation(d, b.0, b.1) && IdAt(d, a) == id && IdAt(d, b) == id
  }

  lemma DuplicateAt(d: Document, id: string)
    ensures Reported(d, DuplicateId(id)) <==> exists a, b :: TwoWith(d, a, b, id)
  {
    hide METHODS, Trim;
    if Reported(d, DuplicateId(id)) {
      var p, m, q, n :| (p, m) != (q, n) && IsOperation(d, p, m) && IsOperation(d, q, n)
                        && Trim(d.paths[p][m].operationId) == id && Trim(d.paths[q][n].operationId) == id;
      assert TwoWith(d, (p, m), (q, n), id);
    }
    if a, b :| TwoWith(d, a, b, id) {
      assert (a.0, a.1) != (b.0, b.1);
    }
  }

  /** Every problem of the document is collected, and nothing else. */
  method Validate(d: Document) returns (problems: set<OpenApi.Problem>)
    ensures forall e :: e in problems <==> Reported(d, e)
  {
    hide Reported;
    ReportedAt(d);
    problems := {};
    var ids: seq<string> := [];
    ghost var at: seq<(string, string)> := [];
    var rest := d.paths.Keys;
    while rest != {}
      invariant rest <= d.paths.Keys
      invariant forall e :: e in problems <==> !e.DuplicateId? && e.path !in rest && Reported(d, e)
      invariant IdsOf(d, ids, at) && forall i | 0 <= i < |at| :: at[i].0 !in rest
      invariant forall p, m | IsOperation(d, p, m) && p !in rest && IdAt(d, (p, m)) != "" :: (p, m) in at
      decreases |rest|
    {
      var p :| p in rest;
      var found, more, where := ValidateItem(d, p);
      problems := problems + found;
      GatheredBoth(d, ids, at, more, where, p);
      ids, at := ids + more, at + where;
      rest := rest - {p};
    }
    var repeated := Repeated(ids);
    forall id ensures id in repeated <==> Reported(d, DuplicateId(id)) {
      RepeatedIsDuplicate(d, ids, at, id);
    }
    problems := problems + set id | id in repeated :: DuplicateId(id);
  }

  lemma GatheredBoth(d: Document, ids: seq<string>, at: seq<(string, string)>, more: seq<string>,
        where: seq<(string, string)>, p: string)
    requires p in d.paths && IdsOf(d, ids, at) && IdsOf(d, more, where)
    requires HasIds(d, where, set m | m in d.paths[p] :: (p, m)) && forall i | 0 <= i < |at| :: at[i].0 != p
    ensures IdsOf(d, ids + more, at + where)
    ensures forall m | IsOperation(d, p, m) && IdAt(d, (p, m)) != "" :: (p, m) in where
    ensures forall i | 0 <= i < |where| :: where[i].0 == p
  {
  }
}
