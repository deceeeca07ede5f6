/** The store object: each method is one transaction, built on a copy of the tables and made current
    only when it commits. */
module SqliteStore {
  import opened Options
  import opened Envelope
  import opened EventStore

  class Store {
    const b: Backend
    var db: Db

    constructor (b: Backend)
      ensures this.b == b && db == EMPTY_DB
    {
      this.b := b;
      db := EMPTY_DB;
    }

    /** Looks up every event of the request; a request is found entirely or not at all. */
    method FindCommitted(req: AppendRequest, digest: string) returns (r: Result<seq<Envelope>, StoreError>)
      ensures r == Committed(b, RowsOf(db, req.streamId), req, digest, 0, [])
    {
      hide RowIntact;
      var rows := RowsOf(db, req.streamId);
      var found: seq<Envelope> := [];
      for i := 0 to |req.events|
        invariant Committed(b, rows, req, digest, i, found) == Committed(b, rows, req, digest, 0, [])
      {
        var u := req.events[i];
        var existing := Lookup(rows, u.tenantId, u.idempotencyKey);
        if existing.None? {
          if found != [] {
            return Err(IdempotencyConflict);
          }
        } else if existing.value.appendDigest != digest {
          return Err(IdempotencyConflict);
        } else if !RowIntact(b, req.streamId, u.tenantId, existing.value) {
          return Err(Corrupt);
        } else {
          found := found + [existing.value.envelope];
        }
      }
      return Ok(found);
    }

    method FindReplay(req: AppendRequest, digest: string) returns (r: Result<Option<AppendResult>, StoreError>)
      ensures r == EventStore.FindReplay(b, db, req, digest)
    {
      hide Committed;
      var committed := FindCommitted(req, digest);
      if committed.Err? {
        return Err(committed.error);
      }
      if committed.value == [] {
        return Ok(None);
      }
      if |committed.value| != |req.events| {
        return Err(IdempotencyConflict);
      }
      r := CheckReplay(db, req, SortBySequence(committed.value));
    }

    method CommitEvents(req: AppendRequest, now: Time, newId: nat -> string, head: string)
      returns (r: Option<seq<Envelope>>)
      ensures r == EventStore.CommitEvents(b, req, now, newId, 0, head)
    {
      hide Commit;
      var es: seq<Envelope> := [];
      var previous := head;
      PrefixedNothing(EventStore.CommitEvents(b, req, now, newId, 0, head));
      for i := 0 to |req.events|
        invariant EventStore.CommitEvents(b, req, now, newId, 0, head)
                  == Prefixed(es, EventStore.CommitEvents(b, req, now, newId, i, previous))
      {
        var committed := Commit(b.p, req.events[i], CommitMetadata(req.expected + i + 1, newId(i), NormalizeTime(now), previous));
        if committed.Err? {
          return None;
        }
        PrefixedStep(es, committed.value, EventStore.CommitEvents(b, req, now, newId, i + 1, committed.value.envelopeDigest));
        es := es + [committed.value];
        previous := committed.value.envelopeDigest;
      }
      assert es + [] == es;
      return Some(es);
    }

    method InsertEvents(before: Db, streamId: string, es: seq<Envelope>, digest: string) returns (r: Option<Db>)
      ensures r == InsertRows(before, streamId, es, digest)
    {
      var tx := before;
      assert es[0..] == es;
      for i := 0 to |es|
        invariant InsertRows(tx, streamId, es[i..], digest) == InsertRows(before, streamId, es, digest)
      {
        hide RowFits, InsertRow;
        assert es[i..][1..] == es[i + 1..];
        if !RowFits(tx, streamId, es[i]) {
          return None;
        }
        tx := InsertRow(tx, streamId, es[i], digest);
      }
      return Some(tx);
    }

    method InsertOutbox(before: Db, at: (string, string, int), ms: seq<OutboxMessage>) returns (r: Option<Db>)
      ensures r == InsertMessages(before, at, ms)
    {
      var tx := before;
      assert ms[0..] == ms;
      for i := 0 to |ms|
        invariant InsertMessages(tx, at, ms[i..]) == InsertMessages(before, at, ms)
      {
        hide InsertMessage;
        assert ms[i..][1..] == ms[i + 1..];
        var inserted := InsertMessage(tx, at, ms[i]);
        if inserted.None? {
          return None;
        }
        tx := inserted.value;
      }
      return Some(tx);
    }

    /** A failed append leaves the tables as they were; a successful one is a replay or one new batch. */
    method Append(now: Time, newId: nat -> string, req: AppendRequest) returns (r: Result<AppendResult, StoreError>)
      modifies this
      ensures (db, r) == EventStore.Append(b, old(db), now, newId, req)
    {
      hide EventStore.FindReplay, EventStore.CommitEvents, InsertRows, InsertMessages, IdentityOf, ValidEvent,
           LeaseHeld;
      if !ValidRequest(b, req) {
        return Err(Invalid);
      }
      var digest := b.fingerprint(IdentityOf(b, req));
      var replay := FindReplay(req, digest);
      if replay.Err? {
        return Err(replay.error);
      }
      if replay.value.Some? {
        return Ok(replay.value.value);
      }
      var tenant, workspace := req.events[0].tenantId, req.events[0].workspaceId;
      if req.streamId in db.streams
         && (db.streams[req.streamId].tenant != tenant || db.streams[req.streamId].workspace != workspace) {
        return Err(ScopeMismatch);
      }
      if SequenceOf(db, req.streamId) != req.expected {
        return Err(Conflict);
      }
      if req.lease.Some? && !LeaseHeld(db, (tenant, req.streamId), req.lease.value, now) {
        return Err(LeaseLost);
      }
      var committed := CommitEvents(req, now, newId, HeadOf(db, req.streamId));
      if committed.None? || committed.value == [] {
        return Err(Invalid);
      }
      var es := committed.value;
      var last := es[|es| - 1];
      if !SnapshotValid(b, req, last.sequence) {
        return Err(Invalid);
      }
      var written := InsertEvents(db, req.streamId, es, digest);
      if written.None? {
        return Err(ConstraintViolation);
      }
      var sent := InsertOutbox(
        WriteSnapshot(written.value, tenant, req), (tenant, req.streamId, last.sequence), req.outbox);
      if sent.None? {
        return Err(ConstraintViolation);
      }
      db := sent.value.(streams := sent.value.streams[req.streamId :=
              Stream(tenant, workspace, last.sequence, last.envelopeDigest)]);
      return Ok(AppendResult(es[0].sequence, last.sequence, es));
    }

    method Acquire(now: Time, tenant: string, stream: string, owner: string, ttlMicros: int)
      returns (r: Result<LeaseGrant, StoreError>)
      modifies this
      ensures (db, r) == EventStore.Acquire(b, old(db), now, tenant, stream, owner, ttlMicros)
    {
      if !b.p.validId(tenant) || !b.p.validId(stream) || !b.p.validId(owner) || ttlMicros <= 0 {
        return Err(Invalid);
      }
      var at, token := (tenant, stream), 1;
      if at in db.leases {
        if db.leases[at].owner != owner && db.leases[at].expires > Micros(now) {
          return Err(Busy);
        }
        token := db.leases[at].token + 1;
      }
      var expires := Micros(now) + ttlMicros;
      db := db.(leases := db.leases[at := Lease(owner, token, expires)]);
      return Ok(LeaseGrant(tenant, stream, owner, token, expires));
    }

    method Renew(now: Time, g: LeaseGrant, ttlMicros: int) returns (r: Result<LeaseGrant, StoreError>)
      modifies this
      ensures (db, r) == EventStore.Renew(b, old(db), now, g, ttlMicros)
    {
      if !b.p.validId(g.tenant) || !b.p.validId(g.stream) || !b.p.validId(g.owner) || ttlMicros <= 0 || g.token <= 0 {
        return Err(Invalid);
      }
      if !GrantLive(db, g, now) {
        return Err(Lost);
      }
      var at, expires := (g.tenant, g.stream), Micros(now) + ttlMicros;
      db := db.(leases := db.leases[at := db.leases[at].(expires := expires)]);
      return Ok(g.(expires := expires));
    }

    method Release(now: Time, g: LeaseGrant) returns (r: Option<StoreError>)
      modifies this
      ensures (db, r) == EventStore.Release(b, old(db), now, g)
    {
      if !b.p.validId(g.tenant) || !b.p.validId(g.stream) || b.blank(g.owner) || g.token <= 0 {
        return Some(Invalid);
      }
      if !GrantLive(db, g, now) {
        return Some(Lost);
      }
      var at := (g.tenant, g.stream);
      db := db.(leases := db.leases[at := db.leases[at].(expires := 0)]);
      return None;
    }

    /** The scan of a page: each row against its place and its predecessor. */
    method Scan(streamId: string, rows: seq<Row>, sequence: int, previous: string) returns (r: Option<seq<Envelope>>)
      ensures r == ReadFrom(b, streamId, rows, sequence, previous)
    {
      hide Verify;
      var es: seq<Envelope> := [];
      PrefixedNothing(ReadFrom(b, streamId, rows, sequence, previous));
      var expected, digest := sequence, previous;
      assert rows[0..] == rows;
      for i := 0 to |rows|
        invariant ReadFrom(b, streamId, rows, sequence, previous)
                  == Prefixed(es, ReadFrom(b, streamId, rows[i..], expected, digest))
      {
        var e := rows[i].envelope;
        assert rows[i..][1..] == rows[i + 1..];
        if e.streamId != streamId || e.tenantId != rows[i].tenant || e.sequence != expected
           || e.previousDigest != digest || Verify(b.p, e) != None {
          return None;
        }
        PrefixedStep(es, e, ReadFrom(b, streamId, rows[i + 1..], expected + 1, e.envelopeDigest));
        es, expected, digest := es + [e], expected + 1, e.envelopeDigest;
      }
      assert es + [] == es;
      return Some(es);
    }

    method Read(streamId: string, after: int, limit: int) returns (r: Result<seq<Envelope>, StoreError>)
      ensures r == EventStore.Read(b, db, streamId, after, limit)
    {
      hide ReadFrom, Page, RowAt;
      if !b.p.validId(streamId) || after < 0 || limit < 1 || limit > MAX_READ_LIMIT {
        return Err(Invalid);
      }
      if streamId !in db.streams || after >= db.streams[streamId].sequence {
        return Ok([]);
      }
      var s, rows := db.streams[streamId], RowsOf(db, streamId);
      var previous := "";
      if after > 0 {
        var row := RowAt(rows, after);
        if row.None? {
          return Err(Corrupt);
        }
        previous := row.value.envelope.envelopeDigest;
      }
      var scanned := Scan(streamId, Page(rows, after, limit), after + 1, previous);
      if scanned.None? || scanned.value == [] {
        return Err(Corrupt);
      }
      var es := scanned.value;
      var last := es[|es| - 1];
      if |es| < limit && last.sequence < s.sequence {
        return Err(Corrupt);
      }
      if last.sequence == s.sequence && last.envelopeDigest != s.head {
        return Err(Corrupt);
      }
      return Ok(es);
    }

    method Head(streamId: string) returns (r: Result<(int, string), StoreError>)
      ensures r == ReadHead(b, db, streamId)
    {
      hide RowAt, Verify;
      if !b.p.validId(streamId) {
        return Err(Invalid);
      }
      if streamId !in db.streams {
        return Ok((0, ""));
      }
      var s := db.streams[streamId];
      if s.sequence == 0 {
        if s.head != "" {
          return Err(Corrupt);
        }
        return Ok((0, ""));
      }
      var row := RowAt(RowsOf(db, streamId), s.sequence);
      if row.None? {
        return Err(Corrupt);
      }
      var e := row.value.envelope;
      if Verify(b.p, e) != None || e.streamId != streamId || e.envelopeDigest != s.head {
        return Err(Corrupt);
      }
      return Ok((s.sequence, s.head));
    }
  }

  function Prefixed(es: seq<Envelope>, rest: Option<seq<Envelope>>): Option<seq<Envelope>> {
    if rest.None? then None else Some(es + rest.value)
  }

  lemma PrefixedNothing(rest: Option<seq<Envelope>>)
    ensures Prefixed([], rest) == rest
  {
    if rest.Some? {
      assert [] + rest.value == rest.value;
    }
  }

  lemma PrefixedStep(es: seq<Envelope>, e: Envelope, rest: Option<seq<Envelope>>)
    ensures Prefixed(es + [e], rest) == if rest.None? then None else Some(es + ([e] + rest.value))
  {
    if rest.Some? {
      assert es + [e] + rest.value == es + ([e] + rest.value);
    }
  }
}
