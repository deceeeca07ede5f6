/** Exactly when a new append commits. */
module EventStoreSuccess {
  import opened Options
  import opened Envelope
  import opened EventStore
  import opened EventStoreProofs
  import opened EventStoreRuns
  import opened EventStoreReads
  import opened EventStoreLeases

  // ---- Committing the events -------------------------------------------------------------------

  predicate EventCommits(b: Backend, req: AppendRequest, now: Time, newId: nat -> string, k: nat)
    requires k < |req.events|
  {
    CanCommit(b.p, req.events[k], req.expected + k + 1, newId(k), NormalizeTime(now))
  }

  lemma {:induction false} EventsCommitIff(b: Backend, req: AppendRequest, now: Time, newId: nat -> string, i: nat,
        previous: string)
    requires i <= |req.events|
    ensures CommitEvents(b, req, now, newId, i, previous).Some? <==>
            forall k | i <= k < |req.events| :: EventCommits(b, req, now, newId, k)
    decreases |req.events| - i
  {
    hide Commit, CanCommit;
    if i < |req.events| {
      var m := CommitMetadata(req.expected + i + 1, newId(i), NormalizeTime(now), previous);
      CommitSucceedsIff(b.p, req.events[i], m);
      if Commit(b.p, req.events[i], m).Ok? {
        EventsCommitIff(b, req, now, newId, i + 1, Commit(b.p, req.events[i], m).value.envelopeDigest);
      } else {
        assert !EventCommits(b, req, now, newId, i);
      }
    }
  }

  lemma {:induction false} CommittedIds(b: Backend, req: AppendRequest, now: Time, newId: nat -> string, i: nat,
        previous: string, k: nat)
    requires i <= |req.events| && CommitEvents(b, req, now, newId, i, previous).Some?
    requires k < |CommitEvents(b, req, now, newId, i, previous).value|
    ensures CommitEvents(b, req, now, newId, i, previous).value[k].eventId == newId(i + k)
    decreases |req.events| - i
  {
    hide Commit, Verify, Canonicalized;
    if i < |req.events| {
      var m := CommitMetadata(req.expected + i + 1, newId(i), NormalizeTime(now), previous);
      CommitVerifies(b.p, req.events[i], m);
      if k > 0 {
        CommittedIds(b, req, now, newId, i + 1, Commit(b.p, req.events[i], m).value.envelopeDigest, k - 1);
      }
    }
  }

  // ---- Inserting rows and messages ----------------------------------------------------------------

  predicate Apart(a: Envelope, e: Envelope) {
    a.eventId != e.eventId && (a.tenantId == e.tenantId ==> a.sequence != e.sequence && a.idempotencyKey != e.idempotencyKey)
  }

  predicate AllApart(es: seq<Envelope>) {
    forall i, j | 0 <= i < j < |es| :: Apart(es[i], es[j])
  }

  predicate AllFit(db: Db, streamId: string, es: seq<Envelope>) {
    forall i | 0 <= i < |es| :: RowFits(db, streamId, es[i])
  }

  lemma FitsAfterInsert(db: Db, streamId: string, a: Envelope, digest: string, e: Envelope)
    ensures RowFits(InsertRow(db, streamId, a, digest), streamId, e) <==> RowFits(db, streamId, e) && Apart(a, e)
  {
    var after := InsertRow(db, streamId, a, digest);
    var added := Row(a.tenantId, a, digest);
    assert forall row :: row in RowsOf(after, streamId) <==> row in RowsOf(db, streamId) || row == added;
    assert added in RowsOf(after, streamId);
  }

  lemma {:induction false} InsertRowsIff(db: Db, streamId: string, es: seq<Envelope>, digest: string)
    ensures InsertRows(db, streamId, es, digest).Some? <==> AllFit(db, streamId, es) && AllApart(es)
    decreases |es|
  {
    hide RowFits, InsertRow, Apart;
    if es != [] {
      var after := InsertRow(db, streamId, es[0], digest);
      InsertRowsIff(after, streamId, es[1..], digest);
      forall i | 1 <= i < |es|
        ensures RowFits(after, streamId, es[i]) <==> RowFits(db, streamId, es[i]) && Apart(es[0], es[i])
      {
        FitsAfterInsert(db, streamId, es[0], digest, es[i]);
      }
      TailFits(db, after, streamId, es);
    }
  }

  lemma TailFits(db: Db, after: Db, streamId: string, es: seq<Envelope>)
    requires es != []
    requires forall i | 1 <= i < |es| :: RowFits(after, streamId, es[i]) <==> RowFits(db, streamId, es[i]) && Apart(es[0], es[i])
    ensures RowFits(db, streamId, es[0]) && AllFit(after, streamId, es[1..]) && AllApart(es[1..])
            <==> AllFit(db, streamId, es) && AllApart(es)
  {
    hide RowFits, Apart;
    var tail := es[1..];
    if RowFits(db, streamId, es[0]) && AllFit(after, streamId, tail) && AllApart(tail) {
      forall i | 1 <= i < |es| ensures RowFits(after, streamId, es[i]) {
        assert tail[i - 1] == es[i];
      }
      forall i, j | 0 <= i < j < |es| ensures Apart(es[i], es[j]) {
        if i > 0 {
          assert tail[i - 1] == es[i] && tail[j - 1] == es[j];
        }
      }
    }
    if AllFit(db, streamId, es) && AllApart(es) {
      forall i | 0 <= i < |tail| ensures RowFits(after, streamId, tail[i]) {
        assert tail[i] == es[i + 1];
      }
    }
  }

  predicate MessagesFree(db: Db, tenant: string, ms: seq<OutboxMessage>) {
    && (forall i | 0 <= i < |ms| :: (tenant, ms[i].topic, ms[i].key) !in db.outboxKeys)
    && forall i, j | 0 <= i < j < |ms| :: (ms[i].topic, ms[i].key) != (ms[j].topic, ms[j].key)
  }

  lemma {:induction false} InsertMessagesIff(db: Db, at: (string, string, int), ms: seq<OutboxMessage>)
    ensures InsertMessages(db, at, ms).Some? <==> MessagesFree(db, at.0, ms)
    decreases |ms|
  {
    if ms != [] {
      var inserted := InsertMessage(db, at, ms[0]);
      var tail := ms[1..];
      assert forall i | 1 <= i < |ms| :: ms[i] == tail[i - 1];
      if inserted.Some? {
        InsertMessagesIff(inserted.value, at, tail);
        if MessagesFree(inserted.value, at.0, tail) {
          forall i | 0 <= i < |ms| ensures (at.0, ms[i].topic, ms[i].key) !in db.outboxKeys {
            if i > 0 { assert (at.0, tail[i - 1].topic, tail[i - 1].key) !in inserted.value.outboxKeys; }
          }
          forall i, j | 0 <= i < j < |ms| ensures (ms[i].topic, ms[i].key) != (ms[j].topic, ms[j].key) {
            assert (at.0, tail[j - 1].topic, tail[j - 1].key) !in inserted.value.outboxKeys;
          }
        }
      }
    }
  }

  // ---- The new append --------------------------------------------------------------------------------

  ghost predicate IdsFresh(db: Db, newId: nat -> string, n: nat) {
    && (forall i | 0 <= i < n :: newId(i) !in db.eventIds)
    && forall i, j | 0 <= i < j < n :: newId(i) != newId(j)
  }

  /** Everything a new append needs, in terms of the request, the tables and the drawn identifiers. */
  ghost predicate Appendable(b: Backend, db: Db, now: Time, newId: nat -> string, req: AppendRequest)
    requires req.events != []
  {
    && InScope(db, req) && SequenceOf(db, req.streamId) == req.expected
    && (req.lease.Some? ==> HeldAt(db, (TenantOf(req), req.streamId), req.lease.value.owner, req.lease.value.token, now))
    && (forall k | 0 <= k < |req.events| :: EventCommits(b, req, now, newId, k))
    && (req.snapshot.Some? ==> req.snapshot.value.sequence == req.expected + |req.events|
                               && req.snapshot.value.digest == b.digestBytes(req.snapshot.value.payload))
    && IdsFresh(db, newId, |req.events|)
    && MessagesFree(db, TenantOf(req), req.outbox)
  }

  lemma EventFits(b: Backend, db: Db, req: AppendRequest, es: seq<Envelope>, i: nat)
    requires Inv(b, db) && ValidRequest(b, req) && SequenceOf(db, req.streamId) == req.expected
    requires Batch(b, req, 0, HeadOf(db, req.streamId), es) && !ReusesKey(req, RowsOf(db, req.streamId)) && i < |es|
    ensures RowFits(db, req.streamId, es[i]) <==> es[i].eventId !in db.eventIds
  {
    hide Verify, Canonicalized, Chain, IdentityOf, ValidRequest, Inv, AllCanonicalized, DistinctKeys, ScopedTo;
    StoredFacts(b, db, req.streamId);
    var rows := RowsOf(db, req.streamId);
    ChainNumbers(b, rows);
    assert SameScope(es[i], req.events[0 + i]);
    forall row | row in rows && row.tenant == es[i].tenantId
      ensures row.envelope.sequence != es[i].sequence && row.envelope.idempotencyKey != es[i].idempotencyKey
    {
      var k :| 0 <= k < |rows| && rows[k] == row;
      assert rows[k].envelope.sequence == k + 1;
    }
  }

  lemma EventsApart(b: Backend, req: AppendRequest, previous: string, es: seq<Envelope>, i: nat, j: nat)
    requires ValidRequest(b, req) && Batch(b, req, 0, previous, es) && i < j < |es|
    ensures Apart(es[i], es[j]) <==> es[i].eventId != es[j].eventId
  {
    hide Batch, ValidRequest;
    BatchAt(b, req, previous, es, i);
    BatchAt(b, req, previous, es, j);
    KeysApart(b, req, i, j);
  }

  lemma BatchAt(b: Backend, req: AppendRequest, previous: string, es: seq<Envelope>, i: nat)
    requires Batch(b, req, 0, previous, es) && i < |es|
    ensures |es| == |req.events| && es[i].sequence == req.expected + i + 1 && SameScope(es[i], req.events[i])
  {
    hide Verify, Canonicalized, SameScope, Before;
    assert SameScope(es[i], req.events[0 + i]);
  }

  lemma KeysApart(b: Backend, req: AppendRequest, i: nat, j: nat)
    requires ValidRequest(b, req) && i < j < |req.events|
    ensures req.events[i].idempotencyKey != req.events[j].idempotencyKey
  {
    hide ValidEvent;
  }

  lemma BatchFits(b: Backend, db: Db, req: AppendRequest, newId: nat -> string, es: seq<Envelope>)
    requires Inv(b, db) && ValidRequest(b, req) && SequenceOf(db, req.streamId) == req.expected
    requires Batch(b, req, 0, HeadOf(db, req.streamId), es) && !ReusesKey(req, RowsOf(db, req.streamId))
    requires forall k | 0 <= k < |es| :: es[k].eventId == newId(k)
    ensures AllFit(db, req.streamId, es) && AllApart(es) <==> IdsFresh(db, newId, |es|)
  {
    hide Inv, ValidRequest, Batch, ReusesKey, RowFits, Apart;
    forall i | 0 <= i < |es| ensures RowFits(db, req.streamId, es[i]) <==> newId(i) !in db.eventIds {
      EventFits(b, db, req, es, i);
    }
    forall i, j | 0 <= i < j < |es| ensures Apart(es[i], es[j]) <==> newId(i) != newId(j) {
      EventsApart(b, req, HeadOf(db, req.streamId), es, i, j);
    }
    if AllFit(db, req.streamId, es) && AllApart(es) {
      forall i | 0 <= i < |es| ensures newId(i) !in db.eventIds {
        assert RowFits(db, req.streamId, es[i]);
      }
      forall i, j | 0 <= i < j < |es| ensures newId(i) != newId(j) {
        assert Apart(es[i], es[j]);
      }
    }
  }

  lemma WriteIff(db: Db, req: AppendRequest, digest: string, tenant: string, workspace: string, es: seq<Envelope>)
    requires es != []
    ensures Write(db, req, digest, tenant, workspace, es).Some? <==>
            AllFit(db, req.streamId, es) && AllApart(es) && MessagesFree(db, tenant, req.outbox)
  {
    hide InsertRows, InsertMessages, AllFit, AllApart;
    InsertRowsIff(db, req.streamId, es, digest);
    if InsertRows(db, req.streamId, es, digest).Some? {
      InsertRowsEffect(db, req.streamId, es, digest);
      var written := InsertRows(db, req.streamId, es, digest).value;
      InsertMessagesIff(WriteSnapshot(written, tenant, req), (tenant, req.streamId, es[|es| - 1].sequence), req.outbox);
    }
  }

  ghost predicate InScope(db: Db, req: AppendRequest)
    requires req.events != []
  {
    req.streamId in db.streams ==> db.streams[req.streamId].tenant == TenantOf(req)
                                   && db.streams[req.streamId].workspace == req.events[0].workspaceId
  }

  /** The branches of a new append. */
  lemma FreshBranches(b: Backend, db: Db, now: Time, newId: nat -> string, req: AppendRequest, digest: string)
    requires req.events != []
    ensures var committed := CommitEvents(b, req, now, newId, 0, HeadOf(db, req.streamId));
            AppendFresh(b, db, now, newId, req, digest).1.Ok? <==>
            && InScope(db, req) && SequenceOf(db, req.streamId) == req.expected
            && (req.lease.Some? ==> LeaseHeld(db, (TenantOf(req), req.streamId), req.lease.value, now))
            && committed.Some? && committed.value != []
            && SnapshotValid(b, req, committed.value[|committed.value| - 1].sequence)
            && Write(db, req, digest, TenantOf(req), req.events[0].workspaceId, committed.value).Some?
  {
    hide CommitEvents, Write, LeaseHeld, SnapshotValid;
  }

  /** A batch that was committed can be written exactly when its identifiers and messages are unused. */
  lemma CommittedWrites(b: Backend, db: Db, now: Time, newId: nat -> string, req: AppendRequest, digest: string)
    requires Inv(b, db) && ValidRequest(b, req) && !ReusesKey(req, RowsOf(db, req.streamId)) && req.events != []
    requires SequenceOf(db, req.streamId) == req.expected
    requires CommitEvents(b, req, now, newId, 0, HeadOf(db, req.streamId)).Some?
    ensures var es := CommitEvents(b, req, now, newId, 0, HeadOf(db, req.streamId)).value;
            && es != [] && es[|es| - 1].sequence == req.expected + |req.events|
            && (Write(db, req, digest, TenantOf(req), req.events[0].workspaceId, es).Some? <==>
                IdsFresh(db, newId, |req.events|) && MessagesFree(db, TenantOf(req), req.outbox))
  {
    hide Inv, ValidRequest, CommitEvents, Write, IdsFresh, MessagesFree, AllFit, AllApart, ReusesKey, Batch;
    var es := CommitEvents(b, req, now, newId, 0, HeadOf(db, req.streamId)).value;
    CommittedBatch(b, db, now, newId, req);
    BatchFits(b, db, req, newId, es);
    WriteIff(db, req, digest, TenantOf(req), req.events[0].workspaceId, es);
  }

  lemma CommittedBatch(b: Backend, db: Db, now: Time, newId: nat -> string, req: AppendRequest)
    requires ValidRequest(b, req) && CommitEvents(b, req, now, newId, 0, HeadOf(db, req.streamId)).Some?
    ensures var es := CommitEvents(b, req, now, newId, 0, HeadOf(db, req.streamId)).value;
            && Batch(b, req, 0, HeadOf(db, req.streamId), es) && es != [] && |es| == |req.events|
            && es[|es| - 1].sequence == req.expected + |req.events|
            && forall k | 0 <= k < |es| :: es[k].eventId == newId(k)
  {
    hide ValidRequest, CommitEvents, Batch, NewRows, DistinctKeys, AllCanonicalized;
    var es := CommitEvents(b, req, now, newId, 0, HeadOf(db, req.streamId)).value;
    CommitEventsBatch(b, req, now, newId, 0, HeadOf(db, req.streamId));
    BatchRows(b, req, HeadOf(db, req.streamId), es, "");
    forall k | 0 <= k < |es| ensures es[k].eventId == newId(k) {
      CommittedIds(b, req, now, newId, 0, HeadOf(db, req.streamId), k);
    }
  }

  /** A new append succeeds if and only if the stream is in scope and at the expected sequence, the lease is
      held, every event can be committed, the snapshot matches, and identifiers and messages are unused. */
  lemma FreshSucceedsIff(b: Backend, db: Db, now: Time, newId: nat -> string, req: AppendRequest, digest: string)
    requires Inv(b, db) && ValidRequest(b, req) && !ReusesKey(req, RowsOf(db, req.streamId))
    ensures AppendFresh(b, db, now, newId, req, digest).1.Ok? <==> Appendable(b, db, now, newId, req)
  {
    hide Inv, ValidRequest, CommitEvents, Write, EventCommits, LeaseHeld, HeldAt, IdsFresh, MessagesFree, ReusesKey,
         AppendFresh;
    RequestNonEmpty(b, req);
    if req.lease.Some? {
      HeldMeans(db, (TenantOf(req), req.streamId), req.lease.value, now);
    }
    FreshBranches(b, db, now, newId, req, digest);
    EventsCommitIff(b, req, now, newId, 0, HeadOf(db, req.streamId));
    if CommitEvents(b, req, now, newId, 0, HeadOf(db, req.streamId)).Some? && SequenceOf(db, req.streamId) == req.expected {
      CommittedWrites(b, db, now, newId, req, digest);
    }
  }

  lemma RequestNonEmpty(b: Backend, req: AppendRequest)
    requires ValidRequest(b, req)
    ensures req.events != []
  {
  }

  /** What is asked of every request, whatever the tables hold: one stream, tenant and workspace, valid identifiers, a
      key of its own for every event, payloads that are JSON, and a topic and a key for every message. */
  ghost predicate InOrder(b: Backend, req: AppendRequest) {
    && 0 <= req.expected && req.events != [] && b.p.validId(req.streamId)
    && b.p.validId(req.events[0].tenantId) && b.p.validId(req.events[0].workspaceId)
    && (forall u | u in req.events ::
          && u.streamId == req.streamId && u.tenantId == req.events[0].tenantId
          && u.workspaceId == req.events[0].workspaceId && !b.blank(u.idempotencyKey)
          && CanonicalJson.Canonicalize(u.payload).Some?)
    && (forall i, j | 0 <= i < |req.events| && 0 <= j < |req.events| ::
          req.events[i].idempotencyKey == req.events[j].idempotencyKey ==> i == j)
    && (forall m | m in req.outbox :: !b.blank(m.topic) && !b.blank(m.key))
  }

  lemma InOrderIff(b: Backend, req: AppendRequest)
    ensures ValidRequest(b, req) <==> InOrder(b, req)
  {
    if InOrder(b, req) {
      forall i, j | 0 <= i < j < |req.events| ensures req.events[i].idempotencyKey != req.events[j].idempotencyKey {
        assert req.events[i].idempotencyKey == req.events[j].idempotencyKey ==> i == j;
      }
    }
  }

  /** In every reachable state, an append changes the tables if and only if its request is in order, repeats no commit,
      reuses no key and has everything a new append needs. */
  lemma AppendCommitsIff(b: Backend, ops: seq<Op>, now: Time, newId: nat -> string, req: AppendRequest)
    requires Faithful(b)
    ensures var w := Run(b, EMPTY_WORLD, ops);
            Append(b, w.db, now, newId, req).0 != w.db <==>
            && InOrder(b, req) && (forall c | c in w.commits :: !Repeats(b, req, c))
            && !ReusesKey(req, RowsOf(w.db, req.streamId)) && Appendable(b, w.db, now, newId, req)
  {
    hide Run, Append, Appendable, ReusesKey, ValidRequest, InOrder, Repeats;
    InOrderIff(b, req);
    InvalidChangesNothing(b, Run(b, EMPTY_WORLD, ops).db, now, newId, req);
    if ValidRequest(b, req) {
      ValidCommitsIff(b, ops, now, newId, req);
    }
  }

  lemma InvalidChangesNothing(b: Backend, db: Db, now: Time, newId: nat -> string, req: AppendRequest)
    ensures !ValidRequest(b, req) ==> Append(b, db, now, newId, req) == (db, Err(Invalid))
    ensures InOrder(b, req) ==> req.events != []
  {
  }

  lemma ValidCommitsIff(b: Backend, ops: seq<Op>, now: Time, newId: nat -> string, req: AppendRequest)
    requires Faithful(b) && ValidRequest(b, req)
    ensures var w := Run(b, EMPTY_WORLD, ops);
            req.events != [] &&
            (Append(b, w.db, now, newId, req).0 != w.db <==>
             (forall c | c in w.commits :: !Repeats(b, req, c))
             && !ReusesKey(req, RowsOf(w.db, req.streamId)) && Appendable(b, w.db, now, newId, req))
  {
    hide Run, Append, AppendFresh, Appendable, ReusesKey, ValidRequest, IdentityOf, WorldInv, Repeats;
    RequestNonEmpty(b, req);
    EmptyWorldInv(b);
    RunKeepsInv(b, EMPTY_WORLD, ops);
    var w := Run(b, EMPTY_WORLD, ops);
    if c :| c in w.commits && Repeats(b, req, c) {
      ReplayReturnsOriginal(b, w, c, req, now, newId);
    } else {
      AppendOutcome(b, w, now, newId, req);
      if !ReusesKey(req, RowsOf(w.db, req.streamId)) {
        var digest := b.fingerprint(IdentityOf(b, req));
        WorldTables(b, w);
        FreshSucceedsIff(b, w.db, now, newId, req, digest);
        FreshChanges(b, w.db, now, newId, req, digest);
      }
    }
  }

  lemma WorldTables(b: Backend, w: World)
    requires WorldInv(b, w)
    ensures Inv(b, w.db)
  {
    hide Inv, Recorded, Covered;
  }

  lemma FreshChanges(b: Backend, db: Db, now: Time, newId: nat -> string, req: AppendRequest, digest: string)
    requires ValidRequest(b, req)
    ensures AppendFresh(b, db, now, newId, req, digest).1.Ok? <==> AppendFresh(b, db, now, newId, req, digest).0 != db
  {
    hide ValidRequest, AppendFresh, Write, Batch, NewRows, DistinctKeys, AllCanonicalized;
    RequestNonEmpty(b, req);
    FreshFailure(b, db, now, newId, req, digest);
    if AppendFresh(b, db, now, newId, req, digest).1.Ok? {
      FreshEffect(b, db, now, newId, req, digest);
      var es := AppendFresh(b, db, now, newId, req, digest).1.value.events;
      BatchRows(b, req, HeadOf(db, req.streamId), es, digest);
      WrittenSequence(b, db, req, digest, es);
    }
  }

  lemma WrittenSequence(b: Backend, db: Db, req: AppendRequest, digest: string, es: seq<Envelope>)
    requires req.events != [] && es != []
    requires Write(db, req, digest, TenantOf(req), req.events[0].workspaceId, es).Some?
    ensures var next := Write(db, req, digest, TenantOf(req), req.events[0].workspaceId, es).value;
            SequenceOf(next, req.streamId) == es[|es| - 1].sequence
  {
    hide Write, NewRows, WriteSnapshot, MessagesAt;
    WriteEffect(b, db, req, digest, TenantOf(req), req.events[0].workspaceId, es);
  }

  lemma FreshFailure(b: Backend, db: Db, now: Time, newId: nat -> string, req: AppendRequest, digest: string)
    requires req.events != []
    ensures AppendFresh(b, db, now, newId, req, digest).1.Err? ==> AppendFresh(b, db, now, newId, req, digest).0 == db
  {
    hide CommitEvents, Write, LeaseHeld, SnapshotValid;
  }
}
