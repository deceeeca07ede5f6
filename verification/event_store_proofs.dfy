/** What holds in every state an event store can reach. */
module EventStoreProofs {
  import opened Options
  import opened Envelope
  import opened EventStore

  // ---- The stored streams ---------------------------------------------------

  function Envelopes(rows: seq<Row>): seq<Envelope> {
    seq(|rows|, i requires 0 <= i < |rows| => rows[i].envelope)
  }

  predicate DistinctKeys(rows: seq<Row>) {
    forall i, j | 0 <= i < j < |rows| :: rows[i].envelope.idempotencyKey != rows[j].envelope.idempotencyKey
  }

  predicate ScopedTo(rows: seq<Row>, streamId: string, tenant: string, workspace: string) {
    forall i | 0 <= i < |rows| ::
      && rows[i].tenant == tenant && rows[i].envelope.tenantId == tenant
      && rows[i].envelope.workspaceId == workspace && rows[i].envelope.streamId == streamId
  }

  ghost predicate AllCanonicalized(rows: seq<Row>) {
    forall i | 0 <= i < |rows| :: Canonicalized(rows[i].envelope)
  }

  /** One stream: a verified chain whose length and last digest the stream row records. */
  ghost predicate StreamInv(b: Backend, streamId: string, s: Stream, rows: seq<Row>) {
    && rows != [] && Chain(b.p, Envelopes(rows)) && AllCanonicalized(rows)
    && s.sequence == |rows| && s.head == Head(Envelopes(rows))
    && ScopedTo(rows, streamId, s.tenant, s.workspace) && DistinctKeys(rows)
  }

  ghost predicate Inv(b: Backend, db: Db) {
    && db.streams.Keys == db.rows.Keys
    && (forall s | s in db.rows :: StreamInv(b, s, db.streams[s], db.rows[s]))
    && (forall at | at in db.outbox :: at.1 in db.streams && at.2 <= db.streams[at.1].sequence)
  }

  // ---- Committed requests ---------------------------------------------------

  /** A request together with the time and the events of its first success. */
  datatype Commitment = Commitment(req: AppendRequest, at: Time, es: seq<Envelope>)

  /** The committed events are the request's own, one by one, committed at that time. */
  ghost predicate Carried(c: Commitment) {
    && |c.es| == |c.req.events|
    && forall i | 0 <= i < |c.es| :: Carries(c.es[i], c.req.events[i]) && Truncates(c.es[i].committedAt, c.at)
  }

  function TenantOf(req: AppendRequest): string
    requires req.events != []
  {
    req.events[0].tenantId
  }

  /** The commitment is stored: its rows in place, its messages and its snapshot as requested. */
  ghost predicate Recorded(b: Backend, db: Db, c: Commitment) {
    && ValidRequest(b, c.req) && |c.es| == |c.req.events|
    && RowsRecorded(b, RowsOf(db, c.req.streamId), c)
    && MessagesAt(db, (TenantOf(c.req), c.req.streamId, c.req.expected + |c.es|)) == c.req.outbox
    && SnapshotIntact(db, c.req, TenantOf(c.req), c.req.expected + |c.es|)
  }

  ghost predicate RowsRecorded(b: Backend, rows: seq<Row>, c: Commitment)
    requires ValidRequest(b, c.req) && |c.es| == |c.req.events|
  {
    && c.req.expected + |c.es| <= |rows|
    && forall i | 0 <= i < |c.es| ::
         && rows[c.req.expected + i] == Row(TenantOf(c.req), c.es[i], b.fingerprint(IdentityOf(b, c.req)))
         && c.es[i].idempotencyKey == c.req.events[i].idempotencyKey
  }

  lemma RecordedAt(b: Backend, db: Db, c: Commitment, i: nat)
    requires Recorded(b, db, c) && i < |c.es|
    ensures c.req.expected >= 0 && ValidRequest(b, c.req) && c.req.expected + i < |RowsOf(db, c.req.streamId)|
    ensures RowsOf(db, c.req.streamId)[c.req.expected + i]
            == Row(TenantOf(c.req), c.es[i], b.fingerprint(IdentityOf(b, c.req)))
    ensures c.es[i].idempotencyKey == c.req.events[i].idempotencyKey
  {
  }

  ghost predicate Covers(c: Commitment, streamId: string, i: int) {
    c.req.streamId == streamId && c.req.expected <= i < c.req.expected + |c.es|
  }

  ghost predicate Covered(commits: seq<Commitment>, streamId: string, i: int) {
    exists c :: c in commits && Covers(c, streamId, i)
  }

  /** Tables plus the history of first successes. */
  datatype World = World(db: Db, commits: seq<Commitment>)

  ghost predicate WorldInv(b: Backend, w: World) {
    && Inv(b, w.db)
    && (forall c | c in w.commits :: Recorded(b, w.db, c) && Carried(c))
    && (forall s, i | s in w.db.rows && 0 <= i < |w.db.rows[s]| :: Covered(w.commits, s, i))
  }

  // ---- Effects of the parts of an append ------------------------------------

  function NewRows(es: seq<Envelope>, digest: string): seq<Row> {
    seq(|es|, i requires 0 <= i < |es| => Row(es[i].tenantId, es[i], digest))
  }

  lemma {:induction false} InsertRowsEffect(db: Db, streamId: string, es: seq<Envelope>, digest: string)
    requires InsertRows(db, streamId, es, digest).Some? && es != []
    ensures var next := InsertRows(db, streamId, es, digest).value;
            && next == db.(rows := db.rows[streamId := RowsOf(db, streamId) + NewRows(es, digest)],
                           eventIds := next.eventIds)
    decreases |es|
  {
    hide RowFits;
    var next := InsertRow(db, streamId, es[0], digest);
    assert NewRows(es, digest) == [Row(es[0].tenantId, es[0], digest)] + NewRows(es[1..], digest);
    if |es| > 1 {
      InsertRowsEffect(next, streamId, es[1..], digest);
      assert RowsOf(next, streamId) + NewRows(es[1..], digest) == RowsOf(db, streamId) + NewRows(es, digest);
      assert next.rows[streamId := RowsOf(next, streamId) + NewRows(es[1..], digest)]
             == db.rows[streamId := RowsOf(db, streamId) + NewRows(es, digest)];
    } else {
      assert es[1..] == [] && InsertRows(next, streamId, es[1..], digest) == Some(next);
      assert NewRows(es, digest) == [Row(es[0].tenantId, es[0], digest)];
    }
  }

  lemma {:induction false} InsertedKeysNew(db: Db, streamId: string, es: seq<Envelope>, digest: string, i: nat,
        row: Row)
    requires InsertRows(db, streamId, es, digest).Some? && i < |es|
    requires row in RowsOf(db, streamId) && row.tenant == es[i].tenantId
    ensures row.envelope.idempotencyKey != es[i].idempotencyKey
    decreases |es|
  {
    if i > 0 {
      var next := InsertRow(db, streamId, es[0], digest);
      assert row in RowsOf(next, streamId);
      InsertedKeysNew(next, streamId, es[1..], digest, i - 1, row);
    }
  }

  lemma {:induction false} InsertMessagesEffect(db: Db, at: (string, string, int), ms: seq<OutboxMessage>)
    requires InsertMessages(db, at, ms).Some?
    ensures var next := InsertMessages(db, at, ms).value;
            && next == db.(outbox := next.outbox, outboxKeys := next.outboxKeys)
            && MessagesAt(next, at) == MessagesAt(db, at) + ms
            && (forall k | k != at :: k in next.outbox <==> k in db.outbox)
            && (forall k | k != at && k in db.outbox :: next.outbox[k] == db.outbox[k])
    decreases |ms|
  {
    if ms != [] {
      var next := InsertMessage(db, at, ms[0]).value;
      InsertMessagesEffect(next, at, ms[1..]);
      assert ms == [ms[0]] + ms[1..];
    }
  }

  /** What a run of commits yields: linked, verified, canonical envelopes in the request's scope. */
  ghost predicate Batch(b: Backend, req: AppendRequest, i: nat, previous: string, es: seq<Envelope>)
    requires i <= |req.events|
  {
    && |es| == |req.events| - i
    && forall k | 0 <= k < |es| ::
         && Verify(b.p, es[k]) == None && Canonicalized(es[k])
         && es[k].sequence == req.expected + i + k + 1
         && es[k].previousDigest == Before(previous, es, k)
         && SameScope(es[k], req.events[i + k])
  }

  function Before(previous: string, es: seq<Envelope>, k: nat): string
    requires k <= |es|
  {
    if k == 0 then previous else es[k - 1].envelopeDigest
  }

  predicate SameScope(e: Envelope, u: Uncommitted) {
    && e.streamId == u.streamId && e.tenantId == u.tenantId && e.workspaceId == u.workspaceId
    && e.idempotencyKey == u.idempotencyKey
  }

  lemma {:induction false} CommitEventsBatch(
    b: Backend, req: AppendRequest, now: Time, newId: nat -> string, i: nat, previous: string)
    requires i <= |req.events| && CommitEvents(b, req, now, newId, i, previous).Some?
    ensures Batch(b, req, i, previous, CommitEvents(b, req, now, newId, i, previous).value)
    decreases |req.events| - i
  {
    hide Commit, Verify, Canonicalized;
    if i < |req.events| {
      var m := CommitMetadata(req.expected + i + 1, newId(i), NormalizeTime(now), previous);
      CommitVerifies(b.p, req.events[i], m);
      var e := Commit(b.p, req.events[i], m).value;
      CommitEventsBatch(b, req, now, newId, i + 1, e.envelopeDigest);
      var rest := CommitEvents(b, req, now, newId, i + 1, e.envelopeDigest).value;
      var es := [e] + rest;
      forall k | 0 <= k < |es|
        ensures Verify(b.p, es[k]) == None && Canonicalized(es[k])
        ensures es[k].sequence == req.expected + i + k + 1
        ensures es[k].previousDigest == Before(previous, es, k)
        ensures SameScope(es[k], req.events[i + k])
      {
        if k > 0 {
          assert es[k] == rest[k - 1];
          assert Before(e.envelopeDigest, rest, k - 1) == Before(previous, es, k);
        }
      }
    }
  }

  /** Each committed event is about its own event of the request, under its own identifier. */
  lemma {:induction false} CommitEventsCarry(
    b: Backend, req: AppendRequest, now: Time, newId: nat -> string, i: nat, previous: string)
    requires i <= |req.events| && CommitEvents(b, req, now, newId, i, previous).Some?
    ensures var es := CommitEvents(b, req, now, newId, i, previous).value;
            && |es| == |req.events| - i
            && forall k | 0 <= k < |es| ::
                 Carries(es[k], req.events[i + k]) && Truncates(es[k].committedAt, now) && es[k].eventId == newId(i + k)
    decreases |req.events| - i
  {
    hide Commit, Verify, Canonicalized, Carries;
    if i < |req.events| {
      var m := CommitMetadata(req.expected + i + 1, newId(i), NormalizeTime(now), previous);
      CommitVerifies(b.p, req.events[i], m);
      var e := Commit(b.p, req.events[i], m).value;
      CommitEventsCarry(b, req, now, newId, i + 1, e.envelopeDigest);
      var rest := CommitEvents(b, req, now, newId, i + 1, e.envelopeDigest).value;
      forall k | 0 <= k < |[e] + rest|
        ensures Carries(([e] + rest)[k], req.events[i + k]) && Truncates(([e] + rest)[k].committedAt, now)
        ensures ([e] + rest)[k].eventId == newId(i + k)
      {
        assert k > 0 ==> ([e] + rest)[k] == rest[k - 1] && req.events[i + k] == req.events[i + 1 + (k - 1)];
      }
    }
  }

  lemma ChainExtendAt(b: Backend, req: AppendRequest, stored: seq<Envelope>, es: seq<Envelope>, i: nat)
    requires Chain(b.p, stored) && req.expected == |stored| && Batch(b, req, 0, Head(stored), es)
    requires i < |stored + es|
    ensures var all := stored + es;
            Verify(b.p, all[i]) == None && all[i].sequence == i + 1 && all[i].previousDigest == Predecessor(all, i)
  {
    hide Verify, Canonicalized, Chain, SameScope;
    var all := stored + es;
    if i < |stored| {
      ChainAt(b.p, stored, i);
      assert all[i] == stored[i];
      assert i > 0 ==> all[i - 1] == stored[i - 1];
    } else {
      var k := i - |stored|;
      assert all[i] == es[k];
      assert k > 0 ==> all[i - 1] == es[k - 1];
      assert Before(Head(stored), es, k) == Predecessor(all, i);
    }
  }

  lemma ChainExtend(b: Backend, req: AppendRequest, stored: seq<Envelope>, es: seq<Envelope>)
    requires Chain(b.p, stored) && req.expected == |stored| && Batch(b, req, 0, Head(stored), es)
    ensures Chain(b.p, stored + es)
  {
    hide Verify, Batch;
    var all := stored + es;
    forall i | 0 <= i < |all|
      ensures Verify(b.p, all[i]) == None && all[i].sequence == i + 1 && all[i].previousDigest == Predecessor(all, i)
    {
      ChainExtendAt(b, req, stored, es, i);
    }
  }

  // ---- Fresh appends --------------------------------------------------------

  /** A fresh append commits the request's own events. */
  lemma FreshCarries(b: Backend, db: Db, now: Time, newId: nat -> string, req: AppendRequest, digest: string)
    requires req.events != [] && AppendFresh(b, db, now, newId, req, digest).1.Ok?
    ensures var es := AppendFresh(b, db, now, newId, req, digest).1.value.events;
            Carried(Commitment(req, now, es)) && forall i | 0 <= i < |es| :: es[i].eventId == newId(i)
  {
    hide CommitEvents, Write, Carries, Truncates;
    CommitEventsCarry(b, req, now, newId, 0, HeadOf(db, req.streamId));
  }

  /** A successful fresh append, taken apart. */
  lemma FreshEffect(b: Backend, db: Db, now: Time, newId: nat -> string, req: AppendRequest, digest: string)
    requires ValidRequest(b, req) && AppendFresh(b, db, now, newId, req, digest).1.Ok?
    ensures var (next, r) := AppendFresh(b, db, now, newId, req, digest);
            var es := r.value.events;
            && Batch(b, req, 0, HeadOf(db, req.streamId), es)
            && SequenceOf(db, req.streamId) == req.expected
            && (req.lease.Some? ==> LeaseHeld(db, (TenantOf(req), req.streamId), req.lease.value, now))
            && (req.streamId in db.streams ==> db.streams[req.streamId].tenant == TenantOf(req)
                                               && db.streams[req.streamId].workspace == req.events[0].workspaceId)
            && SnapshotValid(b, req, req.expected + |es|)
            && Write(db, req, digest, TenantOf(req), req.events[0].workspaceId, es) == Some(next)
            && r.value == AppendResult(req.expected + 1, req.expected + |es|, es)
  {
    hide CommitEvents, Write, Verify, Canonicalized;
    CommitEventsBatch(b, req, now, newId, 0, HeadOf(db, req.streamId));
  }

  /** The tables after a fresh append. */
  lemma WriteEffect(b: Backend, db: Db, req: AppendRequest, digest: string, tenant: string, workspace: string,
        es: seq<Envelope>)
    requires es != [] && Write(db, req, digest, tenant, workspace, es).Some?
    ensures var next := Write(db, req, digest, tenant, workspace, es).value;
            var last := es[|es| - 1];
            var at := (tenant, req.streamId, last.sequence);
            && next.streams == db.streams[req.streamId := Stream(tenant, workspace, last.sequence, last.envelopeDigest)]
            && next.rows == db.rows[req.streamId := RowsOf(db, req.streamId) + NewRows(es, digest)]
            && next.snapshots == WriteSnapshot(db, tenant, req).snapshots
            && next.leases == db.leases
            && MessagesAt(next, at) == MessagesAt(db, at) + req.outbox
            && (forall k | k != at :: k in next.outbox <==> k in db.outbox)
            && (forall k | k != at && k in db.outbox :: next.outbox[k] == db.outbox[k])
    ensures forall i, row | 0 <= i < |es| && row in RowsOf(db, req.streamId) && row.tenant == es[i].tenantId ::
              row.envelope.idempotencyKey != es[i].idempotencyKey
  {
    hide InsertRows, InsertMessages;
    InsertRowsEffect(db, req.streamId, es, digest);
    var written := InsertRows(db, req.streamId, es, digest).value;
    InsertMessagesEffect(WriteSnapshot(written, tenant, req), (tenant, req.streamId, es[|es| - 1].sequence), req.outbox);
    forall i, row | 0 <= i < |es| && row in RowsOf(db, req.streamId) && row.tenant == es[i].tenantId
      ensures row.envelope.idempotencyKey != es[i].idempotencyKey
    {
      InsertedKeysNew(db, req.streamId, es, digest, i, row);
    }
  }

  /** `next` is `db` after a fresh append of the batch `es`. */
  ghost predicate Extended(b: Backend, db: Db, req: AppendRequest, es: seq<Envelope>, next: Db) {
    && ValidRequest(b, req) && es != [] && Batch(b, req, 0, HeadOf(db, req.streamId), es)
    && SequenceOf(db, req.streamId) == req.expected
    && (req.streamId in db.streams ==> db.streams[req.streamId].tenant == TenantOf(req)
                                       && db.streams[req.streamId].workspace == req.events[0].workspaceId)
    && SnapshotValid(b, req, req.expected + |es|)
    && Write(db, req, b.fingerprint(IdentityOf(b, req)), TenantOf(req), req.events[0].workspaceId, es) == Some(next)
  }

  lemma BatchRows(b: Backend, req: AppendRequest, previous: string, es: seq<Envelope>, digest: string)
    requires ValidRequest(b, req) && Batch(b, req, 0, previous, es)
    ensures var rows := NewRows(es, digest);
            && |rows| == |es| == |req.events| && DistinctKeys(rows) && AllCanonicalized(rows)
            && (forall i | 0 <= i < |es| ::
                 && rows[i] == Row(TenantOf(req), es[i], digest)
                 && es[i].idempotencyKey == req.events[i].idempotencyKey
                 && es[i].tenantId == TenantOf(req) && es[i].workspaceId == req.events[0].workspaceId
                 && es[i].streamId == req.streamId)
            && es != [] && es[|es| - 1].sequence == req.expected + |es|
  {
    hide Verify, Canonicalized;
    forall i | 0 <= i < |es|
      ensures es[i].idempotencyKey == req.events[i].idempotencyKey && es[i].tenantId == TenantOf(req)
      ensures es[i].workspaceId == req.events[0].workspaceId && es[i].streamId == req.streamId
    {
      assert SameScope(es[i], req.events[0 + i]);
      assert ValidEvent(b, req, req.events[i]);
    }
  }

  predicate NoSharedKeys(rows: seq<Row>, es: seq<Envelope>) {
    forall i, j | 0 <= i < |es| && 0 <= j < |rows| :: rows[j].envelope.idempotencyKey != es[i].idempotencyKey
  }

  /** One stream's rows, extended by a batch, still satisfy the stream invariant. */
  lemma RowsExtended(b: Backend, req: AppendRequest, rows: seq<Row>, es: seq<Envelope>, digest: string)
    requires ValidRequest(b, req) && req.expected == |rows|
    requires Chain(b.p, Envelopes(rows)) && AllCanonicalized(rows) && DistinctKeys(rows)
    requires Batch(b, req, 0, Head(Envelopes(rows)), es) && es != [] && NoSharedKeys(rows, es)
    requires ScopedTo(rows, req.streamId, TenantOf(req), req.events[0].workspaceId)
    ensures var last := es[|es| - 1];
            StreamInv(b, req.streamId,
                      Stream(TenantOf(req), req.events[0].workspaceId, last.sequence, last.envelopeDigest),
                      rows + NewRows(es, digest))
  {
    hide Verify, Canonicalized, Chain, Batch, ValidRequest;
    var added := NewRows(es, digest);
    BatchRows(b, req, Head(Envelopes(rows)), es, digest);
    ChainExtend(b, req, Envelopes(rows), es);
    assert Envelopes(rows + added) == Envelopes(rows) + es;
    KeysStayDistinct(rows, added, es);
    ScopeExtended(rows, added, req.streamId, TenantOf(req), req.events[0].workspaceId);
  }

  lemma StreamExtended(b: Backend, db: Db, req: AppendRequest, es: seq<Envelope>, next: Db)
    requires Inv(b, db) && Extended(b, db, req, es, next)
    ensures req.streamId in next.rows && req.streamId in next.streams
    ensures StreamInv(b, req.streamId, next.streams[req.streamId], next.rows[req.streamId])
  {
    hide Verify, AllCanonicalized, Write, Chain, Inv, StreamInv, Batch, ValidRequest, DistinctKeys, NewRows;
    var digest := b.fingerprint(IdentityOf(b, req));
    var rows := RowsOf(db, req.streamId);
    BatchRows(b, req, HeadOf(db, req.streamId), es, digest);
    WriteEffect(b, db, req, digest, TenantOf(req), req.events[0].workspaceId, es);
    StoredFacts(b, db, req.streamId);
    assert NoSharedKeys(rows, es) by {
      forall i, j | 0 <= i < |es| && 0 <= j < |rows|
        ensures rows[j].envelope.idempotencyKey != es[i].idempotencyKey
      {
        assert rows[j] in rows && es[i].tenantId == TenantOf(req);
      }
    }
    RowsExtended(b, req, rows, es, digest);
  }

  lemma StoredFacts(b: Backend, db: Db, streamId: string)
    requires Inv(b, db)
    ensures var rows := RowsOf(db, streamId);
            && Chain(b.p, Envelopes(rows)) && AllCanonicalized(rows) && DistinctKeys(rows)
            && SequenceOf(db, streamId) == |rows| && HeadOf(db, streamId) == Head(Envelopes(rows))
            && (streamId in db.streams <==> streamId in db.rows)
            && (streamId in db.streams ==> ScopedTo(rows, streamId, db.streams[streamId].tenant, db.streams[streamId].workspace))
  {
    hide Verify, Canonicalized;
  }

  lemma ScopeExtended(rows: seq<Row>, added: seq<Row>, streamId: string, tenant: string, workspace: string)
    requires ScopedTo(rows, streamId, tenant, workspace) && ScopedTo(added, streamId, tenant, workspace)
    ensures ScopedTo(rows + added, streamId, tenant, workspace)
  {
  }

  lemma KeysStayDistinct(rows: seq<Row>, added: seq<Row>, es: seq<Envelope>)
    requires DistinctKeys(rows) && DistinctKeys(added) && |added| == |es|
    requires forall i | 0 <= i < |es| :: added[i].envelope == es[i]
    requires NoSharedKeys(rows, es)
    ensures DistinctKeys(rows + added)
  {
  }

  lemma FreshKeepsInv(b: Backend, db: Db, req: AppendRequest, es: seq<Envelope>, next: Db)
    requires Inv(b, db) && Extended(b, db, req, es, next)
    ensures Inv(b, next)
  {
    hide Write, StreamInv, Batch, ValidRequest, NewRows;
    var digest := b.fingerprint(IdentityOf(b, req));
    BatchRows(b, req, HeadOf(db, req.streamId), es, digest);
    WriteEffect(b, db, req, digest, TenantOf(req), req.events[0].workspaceId, es);
    StreamExtended(b, db, req, es, next);
    assert next.streams.Keys == next.rows.Keys;
  }

  /** What a fresh append leaves alone and what it adds, stream by stream. */
  lemma ExtendedRows(b: Backend, db: Db, req: AppendRequest, es: seq<Envelope>, next: Db)
    requires Inv(b, db) && Extended(b, db, req, es, next)
    ensures |es| == |req.events| && req.expected == SequenceOf(db, req.streamId) == |RowsOf(db, req.streamId)|
    ensures RowsOf(next, req.streamId) ==
            RowsOf(db, req.streamId) + NewRows(es, b.fingerprint(IdentityOf(b, req)))
    ensures forall s | s != req.streamId ::
              RowsOf(next, s) == RowsOf(db, s) && SequenceOf(next, s) == SequenceOf(db, s)
    ensures SequenceOf(next, req.streamId) == req.expected + |es|
  {
    hide Write, Inv, Batch, NewRows, IdentityOf, ValidRequest, Chain, AllCanonicalized, DistinctKeys, ScopedTo;
    ExtendedShape(b, db, req, es, next);
    var digest := b.fingerprint(IdentityOf(b, req));
    BatchRows(b, req, HeadOf(db, req.streamId), es, digest);
    WriteEffect(b, db, req, digest, TenantOf(req), req.events[0].workspaceId, es);
    StoredFacts(b, db, req.streamId);
  }

  lemma ExtendedMessages(b: Backend, db: Db, req: AppendRequest, es: seq<Envelope>, next: Db)
    requires Inv(b, db) && Extended(b, db, req, es, next)
    ensures var at := (TenantOf(req), req.streamId, req.expected + |es|);
            && MessagesAt(next, at) == req.outbox
            && forall k | k != at :: MessagesAt(next, k) == MessagesAt(db, k)
    ensures next.snapshots == WriteSnapshot(db, TenantOf(req), req).snapshots
  {
    hide Write, Inv, Batch, NewRows, IdentityOf, ValidRequest, WriteSnapshot, DistinctKeys, AllCanonicalized;
    ExtendedShape(b, db, req, es, next);
    var digest := b.fingerprint(IdentityOf(b, req));
    BatchRows(b, req, HeadOf(db, req.streamId), es, digest);
    WriteEffect(b, db, req, digest, TenantOf(req), req.events[0].workspaceId, es);
    NoMessagesAhead(b, db, (TenantOf(req), req.streamId, req.expected + |es|));
  }

  lemma NoMessagesAhead(b: Backend, db: Db, at: (string, string, int))
    requires Inv(b, db) && at.2 > SequenceOf(db, at.1)
    ensures MessagesAt(db, at) == []
  {
    hide StreamInv;
  }

  lemma FreshRecords(b: Backend, db: Db, req: AppendRequest, at: Time, es: seq<Envelope>, next: Db)
    requires Inv(b, db) && Extended(b, db, req, es, next)
    ensures Recorded(b, next, Commitment(req, at, es))
  {
    hide Write, Inv, Batch, IdentityOf, Verify, ValidRequest, NewRows, RowsRecorded;
    ExtendedShape(b, db, req, es, next);
    ExtendedRows(b, db, req, es, next);
    ExtendedMessages(b, db, req, es, next);
    NewRowsRecorded(b, req, at, RowsOf(db, req.streamId), HeadOf(db, req.streamId), es);
  }

  lemma NewRowsRecorded(b: Backend, req: AppendRequest, at: Time, rows: seq<Row>, previous: string, es: seq<Envelope>)
    requires ValidRequest(b, req) && Batch(b, req, 0, previous, es) && |rows| == req.expected
    requires |es| == |req.events|
    ensures RowsRecorded(b, rows + NewRows(es, b.fingerprint(IdentityOf(b, req))), Commitment(req, at, es))
  {
    hide ValidRequest, Batch, IdentityOf, NewRows, DistinctKeys, AllCanonicalized, TenantOf, RowsRecorded;
    BatchRows(b, req, previous, es, b.fingerprint(IdentityOf(b, req)));
    AppendedRecorded(b, rows, NewRows(es, b.fingerprint(IdentityOf(b, req))), Commitment(req, at, es));
  }

  lemma AppendedRecorded(b: Backend, rows: seq<Row>, added: seq<Row>, c: Commitment)
    requires ValidRequest(b, c.req) && |rows| == c.req.expected && |added| == |c.es| == |c.req.events|
    requires forall i | 0 <= i < |added| :: added[i] == Row(TenantOf(c.req), c.es[i], b.fingerprint(IdentityOf(b, c.req)))
    requires forall i | 0 <= i < |c.es| :: c.es[i].idempotencyKey == c.req.events[i].idempotencyKey
    ensures RowsRecorded(b, rows + added, c)
  {
    hide ValidRequest, IdentityOf, TenantOf;
  }

  lemma RowsStayRecorded(b: Backend, rows: seq<Row>, more: seq<Row>, c: Commitment)
    requires ValidRequest(b, c.req) && |c.es| == |c.req.events|
    requires RowsRecorded(b, rows, c) && rows <= more
    ensures RowsRecorded(b, more, c)
  {
    hide IdentityOf;
    assert forall i | 0 <= i < |rows| :: more[i] == rows[i];
  }

  lemma FreshKeepsRecorded(b: Backend, db: Db, req: AppendRequest, es: seq<Envelope>, next: Db, c: Commitment)
    requires Inv(b, db) && Extended(b, db, req, es, next) && Recorded(b, db, c)
    ensures Recorded(b, next, c)
  {
    hide Extended, Inv, ValidRequest, NewRows, IdentityOf, RowsRecorded;
    ExtendedRows(b, db, req, es, next);
    ExtendedMessages(b, db, req, es, next);
    ExtendedShape(b, db, req, es, next);
    RowsStayRecorded(b, RowsOf(db, c.req.streamId), RowsOf(next, c.req.streamId), c);
    RecordedExtent(b, db, c);
  }

  lemma RecordedExtent(b: Backend, db: Db, c: Commitment)
    requires Inv(b, db) && Recorded(b, db, c)
    ensures c.req.events != [] && c.req.expected + |c.es| <= SequenceOf(db, c.req.streamId)
  {
    hide StreamInv, IdentityOf;
    StoredFacts(b, db, c.req.streamId);
  }

  lemma ExtendedShape(b: Backend, db: Db, req: AppendRequest, es: seq<Envelope>, next: Db)
    requires Extended(b, db, req, es, next)
    ensures ValidRequest(b, req) && req.events != [] && es != []
  {
  }

  /** A fresh append extends the history by exactly one commitment. */
  lemma FreshKeepsWorld(b: Backend, w: World, req: AppendRequest, at: Time, es: seq<Envelope>, next: Db)
    requires WorldInv(b, w) && Extended(b, w.db, req, es, next) && Carried(Commitment(req, at, es))
    ensures WorldInv(b, World(next, w.commits + [Commitment(req, at, es)]))
  {
    hide Extended, Inv, Recorded, Covers, Carried;
    FreshKeepsInv(b, w.db, req, es, next);
    FreshRecords(b, w.db, req, at, es, next);
    var commits := w.commits + [Commitment(req, at, es)];
    forall c | c in commits ensures Recorded(b, next, c) && Carried(c) {
      if c in w.commits {
        FreshKeepsRecorded(b, w.db, req, es, next, c);
      }
    }
    forall s, i | s in next.rows && 0 <= i < |next.rows[s]| ensures Covered(commits, s, i) {
      CoverageExtended(b, w, req, at, es, next, s, i);
    }
  }

  lemma CoverageExtended(b: Backend, w: World, req: AppendRequest, at: Time, es: seq<Envelope>, next: Db, s: string,
        i: nat)
    requires WorldInv(b, w) && Extended(b, w.db, req, es, next)
    requires s in next.rows && i < |next.rows[s]|
    ensures Covered(w.commits + [Commitment(req, at, es)], s, i)
  {
    hide Write, StreamInv, Batch, ValidRequest, NewRows, Recorded, Carried;
    var digest := b.fingerprint(IdentityOf(b, req));
    BatchRows(b, req, HeadOf(w.db, req.streamId), es, digest);
    WriteEffect(b, w.db, req, digest, TenantOf(req), req.events[0].workspaceId, es);
    StoredFacts(b, w.db, req.streamId);
    var commits := w.commits + [Commitment(req, at, es)];
    if s == req.streamId && i >= req.expected {
      assert Commitment(req, at, es) in commits && Covers(Commitment(req, at, es), s, i);
    } else {
      assert Covered(w.commits, s, i);
      var c :| c in w.commits && Covers(c, s, i);
      assert c in commits;
    }
  }

  // ---- Replay ---------------------------------------------------------------

  lemma {:induction false} LookupAt(rows: seq<Row>, tenant: string, i: nat)
    requires i < |rows| && DistinctKeys(rows) && rows[i].tenant == tenant
    ensures Lookup(rows, tenant, rows[i].envelope.idempotencyKey) == Some(rows[i])
  {
    if i > 0 {
      assert rows[0].envelope.idempotencyKey != rows[i].envelope.idempotencyKey;
      assert rows[1..][i - 1] == rows[i];
      LookupAt(rows[1..], tenant, i - 1);
    }
  }

  lemma {:induction false} LookupFound(rows: seq<Row>, tenant: string, key: string)
    ensures match Lookup(rows, tenant, key)
            case None => forall row | row in rows && row.tenant == tenant :: row.envelope.idempotencyKey != key
            case Some(row) => row in rows && row.tenant == tenant && row.envelope.idempotencyKey == key
  {
    if rows != [] {
      LookupFound(rows[1..], tenant, key);
      assert rows == [rows[0]] + rows[1..];
    }
  }

  lemma RowsIntact(b: Backend, db: Db, streamId: string, row: Row)
    requires Inv(b, db) && row in RowsOf(db, streamId)
    ensures RowIntact(b, streamId, row.tenant, row)
  {
    hide Verify;
    StoredFacts(b, db, streamId);
    var rows := RowsOf(db, streamId);
    var i :| 0 <= i < |rows| && rows[i] == row;
    ChainAt(b.p, Envelopes(rows), i);
  }

  /** The request is, lease aside, the committed one. */
  ghost predicate Repeats(b: Backend, req: AppendRequest, c: Commitment) {
    ValidRequest(b, req) && ValidRequest(b, c.req) && IdentityOf(b, req) == IdentityOf(b, c.req)
  }

  lemma RepeatsFields(b: Backend, req: AppendRequest, c: Commitment)
    requires Repeats(b, req, c)
    ensures req.streamId == c.req.streamId && req.expected == c.req.expected && |req.events| == |c.req.events|
    ensures req.outbox == c.req.outbox && req.snapshot == c.req.snapshot
    ensures forall i | 0 <= i < |req.events| ::
              && req.events[i].tenantId == c.req.events[i].tenantId == TenantOf(c.req)
              && req.events[i].idempotencyKey == c.req.events[i].idempotencyKey
  {
    var a, b' := IdentityOf(b, req), IdentityOf(b, c.req);
    forall i | 0 <= i < |a.events|
      ensures req.events[i].tenantId == c.req.events[i].tenantId == TenantOf(c.req)
      ensures req.events[i].idempotencyKey == c.req.events[i].idempotencyKey
    {
      assert ValidEvent(b, req, req.events[i]) && ValidEvent(b, c.req, c.req.events[i]);
      assert a.events[i] == b'.events[i];
    }
  }

  lemma RepeatsDigest(b: Backend, req: AppendRequest, c: Commitment)
    requires Repeats(b, req, c)
    ensures ValidRequest(b, req) && ValidRequest(b, c.req) && IdentityOf(b, req) == IdentityOf(b, c.req)
  {
  }

  lemma {:induction false} CommittedRepeats(b: Backend, db: Db, req: AppendRequest, c: Commitment, i: nat)
    requires Inv(b, db) && Recorded(b, db, c) && Repeats(b, req, c) && i <= |c.es| == |req.events|
    ensures Committed(b, RowsOf(db, req.streamId), req, b.fingerprint(IdentityOf(b, req)), i, c.es[..i]) == Ok(c.es)
    decreases |c.es| - i
  {
    hide RowIntact, Inv, IdentityOf, ValidRequest, Lookup, Recorded, Repeats, Chain, AllCanonicalized, DistinctKeys,
         ScopedTo;
    RepeatsFields(b, req, c);
    RepeatsDigest(b, req, c);
    if i < |c.es| {
      RecordedAt(b, db, c, i);
      var rows := RowsOf(db, req.streamId);
      var row := rows[c.req.expected + i];
      StoredFacts(b, db, req.streamId);
      LookupAt(rows, TenantOf(c.req), c.req.expected + i);
      RowsIntact(b, db, req.streamId, row);
      assert c.es[..i] + [c.es[i]] == c.es[..i + 1];
      CommittedRepeats(b, db, req, c, i + 1);
    } else {
      assert c.es[..i] == c.es;
    }
  }

  lemma {:induction false} SortedAlready(es: seq<Envelope>, first: int)
    requires Consecutive(es, first)
    ensures SortBySequence(es) == es
  {
    if es != [] {
      var init, last := es[..|es| - 1], es[|es| - 1];
      SortedAlready(init, first);
      InsertLast(last, init);
      assert es == init + [last];
    }
  }

  lemma {:induction false} InsertLast(e: Envelope, es: seq<Envelope>)
    requires forall i | 0 <= i < |es| :: es[i].sequence < e.sequence
    ensures InsertBySequence(e, es) == es + [e]
  {
    if es != [] {
      InsertLast(e, es[1..]);
      assert es == [es[0]] + es[1..];
      assert es + [e] == [es[0]] + (es[1..] + [e]);
    }
  }

  lemma RecordedConsecutive(b: Backend, db: Db, c: Commitment)
    requires Inv(b, db) && Recorded(b, db, c)
    ensures Consecutive(c.es, c.req.expected + 1) && c.es != []
  {
    hide Verify, IdentityOf, Inv;
    StoredFacts(b, db, c.req.streamId);
    var rows := RowsOf(db, c.req.streamId);
    forall i | 0 <= i < |c.es| ensures c.es[i].sequence == c.req.expected + 1 + i {
      RecordedAt(b, db, c, i);
      ChainAt(b.p, Envelopes(rows), c.req.expected + i);
      assert rows[c.req.expected + i].envelope == c.es[i];
    }
  }

  /** Repeating a committed request returns the events of its first success and changes nothing. */
  lemma ReplayReturnsOriginal(b: Backend, w: World, c: Commitment, req: AppendRequest, now: Time, newId: nat -> string)
    requires WorldInv(b, w) && c in w.commits && Repeats(b, req, c)
    ensures Append(b, w.db, now, newId, req) ==
            (w.db, Ok(AppendResult(c.req.expected + 1, c.req.expected + |c.es|, c.es)))
  {
    hide Committed, Inv, IdentityOf, AppendFresh, SortBySequence, ValidRequest, RowsRecorded;
    RepeatsFields(b, req, c);
    RepeatsDigest(b, req, c);
    CommittedRepeats(b, w.db, req, c, 0);
    RecordedConsecutive(b, w.db, c);
    SortedAlready(c.es, c.req.expected + 1);
    assert c.es[..0] == [];
  }

  /** One of the request's keys is already used in the stream. */
  ghost predicate ReusesKey(req: AppendRequest, rows: seq<Row>) {
    exists i, row :: 0 <= i < |req.events| && row in rows
      && row.tenant == req.events[i].tenantId && row.envelope.idempotencyKey == req.events[i].idempotencyKey
  }

  ghost predicate ForeignDigest(rows: seq<Row>, digest: string) {
    forall row | row in rows :: row.appendDigest != digest
  }

  lemma {:induction false} CommittedForeign(b: Backend, rows: seq<Row>, req: AppendRequest, digest: string, i: nat)
    requires i <= |req.events| && ForeignDigest(rows, digest)
    ensures var r := Committed(b, rows, req, digest, i, []);
            if exists k, row :: i <= k < |req.events| && row in rows && row.tenant == req.events[k].tenantId
                                && row.envelope.idempotencyKey == req.events[k].idempotencyKey
            then r == Err(IdempotencyConflict) else r == Ok([])
    decreases |req.events| - i
  {
    hide RowIntact, Lookup;
    if i < |req.events| {
      LookupFound(rows, req.events[i].tenantId, req.events[i].idempotencyKey);
      CommittedForeign(b, rows, req, digest, i + 1);
    }
  }

  /** Valid requests are told apart by their digests. */
  ghost predicate Faithful(b: Backend) {
    forall r, q | ValidRequest(b, r) && ValidRequest(b, q) ::
      b.fingerprint(IdentityOf(b, r)) == b.fingerprint(IdentityOf(b, q)) ==> IdentityOf(b, r) == IdentityOf(b, q)
  }

  lemma NewIdentityForeign(b: Backend, w: World, req: AppendRequest)
    requires WorldInv(b, w) && Faithful(b) && ValidRequest(b, req)
    requires forall c | c in w.commits :: !Repeats(b, req, c)
    ensures ForeignDigest(RowsOf(w.db, req.streamId), b.fingerprint(IdentityOf(b, req)))
  {
    hide Inv, IdentityOf, ValidRequest, Recorded;
    var rows := RowsOf(w.db, req.streamId);
    forall row | row in rows ensures row.appendDigest != b.fingerprint(IdentityOf(b, req)) {
      var i :| 0 <= i < |rows| && rows[i] == row;
      assert Covered(w.commits, req.streamId, i);
      var c :| c in w.commits && Covers(c, req.streamId, i);
      RecordedAt(b, w.db, c, i - c.req.expected);
    }
  }

  /** The fate of every append in a reachable state. A repeated request replays; a new request that
      reuses a key is refused as an idempotency conflict; otherwise it is a fresh append. */
  lemma AppendOutcome(b: Backend, w: World, now: Time, newId: nat -> string, req: AppendRequest)
    requires WorldInv(b, w) && Faithful(b) && ValidRequest(b, req)
    requires forall c | c in w.commits :: !Repeats(b, req, c)
    ensures Append(b, w.db, now, newId, req) ==
            if ReusesKey(req, RowsOf(w.db, req.streamId)) then (w.db, Err(IdempotencyConflict))
            else AppendFresh(b, w.db, now, newId, req, b.fingerprint(IdentityOf(b, req)))
  {
    hide Committed, WorldInv, IdentityOf, AppendFresh, ValidRequest;
    NewIdentityForeign(b, w, req);
    CommittedForeign(b, RowsOf(w.db, req.streamId), req, b.fingerprint(IdentityOf(b, req)), 0);
  }

  /** Whatever goes wrong, the tables stay as they were; a replay leaves them alone too. */
  lemma FailureChangesNothing(b: Backend, db: Db, now: Time, newId: nat -> string, req: AppendRequest)
    ensures Append(b, db, now, newId, req).1.Err? ==> Append(b, db, now, newId, req).0 == db
    ensures Append(b, db, now, newId, req).0 != db ==>
              && ValidRequest(b, req) && req.events != []
              && FindReplay(b, db, req, b.fingerprint(IdentityOf(b, req))) == Ok(None)
              && AppendFresh(b, db, now, newId, req, b.fingerprint(IdentityOf(b, req))).1.Ok?
  {
    hide FindReplay, CommitEvents, Write, ValidEvent, IdentityOf;
  }
}
