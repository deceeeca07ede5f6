/** Every run of the event store: appends, lease operations and the passing of time in any order. */
module EventStoreRuns {
  import opened Options
  import opened Envelope
  import opened EventStore
  import opened EventStoreProofs

  datatype Op =
    | AppendOp(now: Time, newId: nat -> string, req: AppendRequest)
    | AcquireOp(now: Time, tenant: string, stream: string, owner: string, ttlMicros: int)
    | RenewOp(now: Time, grant: LeaseGrant, ttlMicros: int)
    | ReleaseOp(now: Time, grant: LeaseGrant)

  const EMPTY_WORLD := World(EMPTY_DB, [])

  ghost function Step(b: Backend, w: World, op: Op): World {
    match op
    case AppendOp(now, newId, req) =>
      var (next, r) := Append(b, w.db, now, newId, req);
      if next != w.db && r.Ok? then World(next, w.commits + [Commitment(req, now, r.value.events)]) else w.(db := next)
    case AcquireOp(now, tenant, stream, owner, ttl) => w.(db := Acquire(b, w.db, now, tenant, stream, owner, ttl).0)
    case RenewOp(now, grant, ttl) => w.(db := Renew(b, w.db, now, grant, ttl).0)
    case ReleaseOp(now, grant) => w.(db := Release(b, w.db, now, grant).0)
  }

  ghost function Run(b: Backend, w: World, ops: seq<Op>): World {
    if ops == [] then w else Step(b, Run(b, w, ops[..|ops| - 1]), ops[|ops| - 1])
  }

  // ---- Integrity, in every reachable state ----------------------------------

  lemma LeasesOnly(b: Backend, w: World, leases: map<(string, string), Lease>)
    requires WorldInv(b, w)
    ensures WorldInv(b, w.(db := w.db.(leases := leases)))
  {
    hide StreamInv, ValidRequest, IdentityOf, Carried;
    var next := w.db.(leases := leases);
    assert Inv(b, next);
    forall c | c in w.commits ensures Recorded(b, next, c) && Carried(c) {
      assert Recorded(b, w.db, c);
    }
  }

  lemma StepKeepsInv(b: Backend, w: World, op: Op)
    requires WorldInv(b, w)
    ensures WorldInv(b, Step(b, w, op)) && w.commits <= Step(b, w, op).commits
  {
    hide WorldInv, Append, Write, Batch;
    match op
    case AppendOp(now, newId, req) =>
      FailureChangesNothing(b, w.db, now, newId, req);
      var (next, r) := Append(b, w.db, now, newId, req);
      if next != w.db {
        FreshStep(b, w, now, newId, req);
      }
    case AcquireOp(now, tenant, stream, owner, ttl) =>
      LeasesOnly(b, w, Acquire(b, w.db, now, tenant, stream, owner, ttl).0.leases);
    case RenewOp(now, grant, ttl) =>
      LeasesOnly(b, w, Renew(b, w.db, now, grant, ttl).0.leases);
    case ReleaseOp(now, grant) =>
      LeasesOnly(b, w, Release(b, w.db, now, grant).0.leases);
  }

  /** An append that changes the tables is a fresh append, and extends the history by itself. */
  lemma FreshStep(b: Backend, w: World, now: Time, newId: nat -> string, req: AppendRequest)
    requires WorldInv(b, w) && Append(b, w.db, now, newId, req).0 != w.db
    ensures var (next, r) := Append(b, w.db, now, newId, req);
            r.Ok? && WorldInv(b, World(next, w.commits + [Commitment(req, now, r.value.events)]))
  {
    hide WorldInv, FindReplay, AppendFresh, Write, Batch, ValidRequest, IdentityOf, Carried;
    FailureChangesNothing(b, w.db, now, newId, req);
    var digest := b.fingerprint(IdentityOf(b, req));
    FreshEffect(b, w.db, now, newId, req, digest);
    var (next, r) := AppendFresh(b, w.db, now, newId, req, digest);
    BatchNonEmpty(b, req, HeadOf(w.db, req.streamId), r.value.events);
    FreshCarries(b, w.db, now, newId, req, digest);
    FreshKeepsWorld(b, w, req, now, r.value.events, next);
  }

  lemma BatchNonEmpty(b: Backend, req: AppendRequest, previous: string, es: seq<Envelope>)
    requires ValidRequest(b, req) && Batch(b, req, 0, previous, es)
    ensures es != []
  {
  }

  lemma EmptyWorldInv(b: Backend)
    ensures WorldInv(b, EMPTY_WORLD)
  {
  }

  /** From the empty store, every run keeps each stream a contiguous verified chain of distinct keys whose
      head the stream row records, and keeps every committed request on record. */
  lemma {:induction false} RunKeepsInv(b: Backend, w: World, ops: seq<Op>)
    requires WorldInv(b, w)
    ensures WorldInv(b, Run(b, w, ops)) && w.commits <= Run(b, w, ops).commits
  {
    hide WorldInv, Step;
    if ops != [] {
      RunKeepsInv(b, w, ops[..|ops| - 1]);
      StepKeepsInv(b, Run(b, w, ops[..|ops| - 1]), ops[|ops| - 1]);
    }
  }

  /** In every state a run reaches, each stream's events are numbered from one without gaps, verify, link
      each to the one before, carry pairwise different idempotency keys, and end in the recorded head. */
  lemma ReachableStreams(b: Backend, ops: seq<Op>, streamId: string)
    ensures var db := Run(b, EMPTY_WORLD, ops).db;
            var es := Envelopes(RowsOf(db, streamId));
            && SequenceOf(db, streamId) == |es| && HeadOf(db, streamId) == Head(es)
            && (forall i | 0 <= i < |es| ::
                  es[i].sequence == i + 1 && Verify(b.p, es[i]) == None && es[i].previousDigest == Predecessor(es, i))
            && (forall i, j | 0 <= i < j < |es| :: es[i].idempotencyKey != es[j].idempotencyKey)
  {
    hide WorldInv, Verify, Run, AllCanonicalized;
    EmptyWorldInv(b);
    RunKeepsInv(b, EMPTY_WORLD, ops);
    WorldStream(b, Run(b, EMPTY_WORLD, ops), streamId);
  }

  lemma WorldStream(b: Backend, w: World, streamId: string)
    requires WorldInv(b, w)
    ensures var rows := RowsOf(w.db, streamId);
            && Chain(b.p, Envelopes(rows)) && DistinctKeys(rows)
            && SequenceOf(w.db, streamId) == |rows| && HeadOf(w.db, streamId) == Head(Envelopes(rows))
  {
    hide StreamInv, Recorded, Covered;
    StoredFacts(b, w.db, streamId);
  }

  // ---- Idempotency across whole runs ----------------------------------------

  /** Once a request has committed, repeating it at any later point, after any operations, returns the
      original events and changes nothing. */
  lemma RetriesReplayForever(
    b: Backend, w: World, ops: seq<Op>, c: Commitment, req: AppendRequest, now: Time, newId: nat -> string)
    requires WorldInv(b, w) && c in w.commits && Repeats(b, req, c)
    ensures var later := Run(b, w, ops);
            Append(b, later.db, now, newId, req) ==
            (later.db, Ok(AppendResult(c.req.expected + 1, c.req.expected + |c.es|, c.es)))
  {
    hide WorldInv, Append, Repeats, Run;
    RunKeepsInv(b, w, ops);
    assert c in Run(b, w, ops).commits;
    ReplayReturnsOriginal(b, Run(b, w, ops), c, req, now, newId);
  }

  /** Of all requests that expect the same sequence of a stream, at most one ever commits. */
  lemma StaleAppendConflicts(b: Backend, w: World, ops: seq<Op>, req: AppendRequest, now: Time, newId: nat -> string)
    requires WorldInv(b, w) && req.expected < SequenceOf(w.db, req.streamId)
    ensures Append(b, Run(b, w, ops).db, now, newId, req).0 == Run(b, w, ops).db
  {
    hide WorldInv, Append, Run;
    SequencesGrow(b, w, ops, req.streamId);
    var db := Run(b, w, ops).db;
    FailureChangesNothing(b, db, now, newId, req);
    StaleFreshFails(b, db, now, newId, req);
  }

  lemma StaleFreshFails(b: Backend, db: Db, now: Time, newId: nat -> string, req: AppendRequest)
    requires req.events != [] ==> req.expected < SequenceOf(db, req.streamId)
    ensures req.events != [] ==> forall digest :: AppendFresh(b, db, now, newId, req, digest).1.Err?
  {
    hide CommitEvents, Write;
  }

  lemma {:induction false} SequencesGrow(b: Backend, w: World, ops: seq<Op>, streamId: string)
    requires WorldInv(b, w)
    ensures SequenceOf(w.db, streamId) <= SequenceOf(Run(b, w, ops).db, streamId)
  {
    hide WorldInv, Step;
    if ops != [] {
      var before := Run(b, w, ops[..|ops| - 1]);
      SequencesGrow(b, w, ops[..|ops| - 1], streamId);
      RunKeepsInv(b, w, ops[..|ops| - 1]);
      StepSequences(b, before, ops[|ops| - 1], streamId);
    }
  }

  lemma StepSequences(b: Backend, w: World, op: Op, streamId: string)
    requires WorldInv(b, w)
    ensures SequenceOf(w.db, streamId) <= SequenceOf(Step(b, w, op).db, streamId)
  {
    hide Append, AppendFresh, Write, Batch, ValidRequest, IdentityOf, Recorded, StreamInv, Covered, FindReplay, NewRows;
    if op.AppendOp? && Append(b, w.db, op.now, op.newId, op.req).0 != w.db {
      FreshSequences(b, w, op.now, op.newId, op.req, streamId);
    }
  }

  lemma FreshSequences(b: Backend, w: World, now: Time, newId: nat -> string, req: AppendRequest, streamId: string)
    requires WorldInv(b, w) && Append(b, w.db, now, newId, req).0 != w.db
    ensures SequenceOf(w.db, streamId) <= SequenceOf(Append(b, w.db, now, newId, req).0, streamId)
  {
    hide FindReplay, AppendFresh, Write, Batch, ValidRequest, IdentityOf, Inv, Recorded, Covered, NewRows;
    FailureChangesNothing(b, w.db, now, newId, req);
    var digest := b.fingerprint(IdentityOf(b, req));
    FreshEffect(b, w.db, now, newId, req, digest);
    var (next, r) := AppendFresh(b, w.db, now, newId, req, digest);
    BatchNonEmpty(b, req, HeadOf(w.db, req.streamId), r.value.events);
    ExtendedRows(b, w.db, req, r.value.events, next);
  }

  // ---- Fencing --------------------------------------------------------------

  function Token(db: Db, at: (string, string)): int {
    if at in db.leases then db.leases[at].token else 0
  }

  ghost predicate TokensPositive(db: Db) {
    forall at | at in db.leases :: db.leases[at].token >= 1
  }

  lemma StepTokens(b: Backend, w: World, op: Op, at: (string, string))
    requires TokensPositive(w.db)
    ensures TokensPositive(Step(b, w, op).db) && Token(w.db, at) <= Token(Step(b, w, op).db, at)
  {
    hide FindReplay, CommitEvents, ValidRequest, IdentityOf, InsertRows, InsertMessages;
    if op.AppendOp? {
      AppendKeepsLeases(b, w.db, op.now, op.newId, op.req);
    }
  }

  lemma AppendKeepsLeases(b: Backend, db: Db, now: Time, newId: nat -> string, req: AppendRequest)
    ensures Append(b, db, now, newId, req).0.leases == db.leases
  {
    hide FindReplay, CommitEvents, ValidRequest, IdentityOf, Write, AppendFresh, Batch;
    FailureChangesNothing(b, db, now, newId, req);
    if Append(b, db, now, newId, req).0 != db {
      var digest := b.fingerprint(IdentityOf(b, req));
      FreshEffect(b, db, now, newId, req, digest);
      var es := AppendFresh(b, db, now, newId, req, digest).1.value.events;
      BatchNonEmpty(b, req, HeadOf(db, req.streamId), es);
      WriteEffect(b, db, req, digest, TenantOf(req), req.events[0].workspaceId, es);
    }
  }

  lemma {:induction false} TokensGrow(b: Backend, w: World, ops: seq<Op>, at: (string, string))
    requires TokensPositive(w.db)
    ensures TokensPositive(Run(b, w, ops).db) && Token(w.db, at) <= Token(Run(b, w, ops).db, at)
  {
    hide Step;
    if ops != [] {
      TokensGrow(b, w, ops[..|ops| - 1], at);
      StepTokens(b, Run(b, w, ops[..|ops| - 1]), ops[|ops| - 1], at);
    }
  }

  /** A successful acquisition supersedes every token issued for the stream before it, and is refused
      exactly when another owner's lease has not expired. */
  lemma AcquireSupersedes(b: Backend, w: World, now: Time, tenant: string, stream: string, owner: string, ttl: int)
    requires TokensPositive(w.db)
    requires b.p.validId(tenant) && b.p.validId(stream) && b.p.validId(owner) && ttl > 0
    ensures var (next, r) := Acquire(b, w.db, now, tenant, stream, owner, ttl);
            var at := (tenant, stream);
            && (r.Ok? <==> !(at in w.db.leases && w.db.leases[at].owner != owner && w.db.leases[at].expires > Micros(now)))
            && (r.Ok? ==> r.value.token == Token(next, at) > Token(w.db, at)
                          && LeaseHeld(next, at, LeaseAssertion(owner, r.value.token), now))
            && (r.Err? ==> next == w.db)
  {
  }

  /** A superseded token never writes again: after any further operations, an append that asserts it
      leaves the tables unchanged, and its grant can be neither renewed nor released. */
  lemma SupersededNeverWrites(
    b: Backend, w: World, ops: seq<Op>, req: AppendRequest, g: LeaseGrant, ttl: int, now: Time, newId: nat -> string)
    requires TokensPositive(w.db) && req.events != [] && req.lease.Some?
    requires req.lease.value.token < Token(w.db, (TenantOf(req), req.streamId))
    requires g.tenant == TenantOf(req) && g.stream == req.streamId && g.token <= req.lease.value.token
    ensures var later := Run(b, w, ops).db;
            && Append(b, later, now, newId, req).0 == later
            && Renew(b, later, now, g, ttl).1.Err? && Renew(b, later, now, g, ttl).0 == later
            && Release(b, later, now, g).1.Some? && Release(b, later, now, g).0 == later
  {
    hide Run, Append, AppendFresh;
    TokensGrow(b, w, ops, (TenantOf(req), req.streamId));
    var later := Run(b, w, ops).db;
    FailureChangesNothing(b, later, now, newId, req);
    if Append(b, later, now, newId, req).0 != later {
      FreshEffect(b, later, now, newId, req, b.fingerprint(IdentityOf(b, req)));
    }
  }
}
