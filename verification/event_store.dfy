/** The event store: the append contract of the conformance suite as the SQLite adapter implements it,
    one transaction per operation. */
module EventStore {
  import opened Options
  import opened Envelope
  import CanonicalJson

  datatype OutboxMessage = OutboxMessage(topic: string, key: string, payload: string)
  datatype SnapshotWrite = SnapshotWrite(sequence: int, digest: string, payload: string)
  datatype LeaseAssertion = LeaseAssertion(owner: string, token: int)

  datatype AppendRequest = AppendRequest(
    streamId: string, expected: int, events: seq<Uncommitted>, outbox: seq<OutboxMessage>,
    snapshot: Option<SnapshotWrite>, lease: Option<LeaseAssertion>)

  datatype AppendResult = AppendResult(first: int, last: int, events: seq<Envelope>)

  datatype StoreError =
    | Invalid | ScopeMismatch | Conflict | IdempotencyConflict | LeaseLost | Corrupt | ConstraintViolation
    | Busy | Lost

  /** What makes two append requests the same request: everything but the lease, with payloads and
      times in normal form. */
  datatype AppendIdentity = AppendIdentity(
    streamId: string, expected: int, events: seq<Uncommitted>, outbox: seq<OutboxMessage>,
    snapshot: Option<SnapshotWrite>)

  /** Outside functions: the canonical digest of an append identity, the digest of raw bytes,
      and the test for blank text. */
  datatype Backend = Backend(
    p: Platform, fingerprint: AppendIdentity -> string, digestBytes: string -> string, blank: string -> bool)

  // ---- Tables ---------------------------------------------------------------

  datatype Stream = Stream(tenant: string, workspace: string, sequence: int, head: string)
  datatype Row = Row(tenant: string, envelope: Envelope, appendDigest: string)
  datatype Lease = Lease(owner: string, token: int, expires: int)

  /** `rows` holds the events of each stream in insertion order; `outbox` holds the messages of one
      append under its terminal sequence, in ordinal order. The two sets are unique indexes. */
  datatype Db = Db(
    streams: map<string, Stream>,
    rows: map<string, seq<Row>>,
    eventIds: set<string>,
    outbox: map<(string, string, int), seq<OutboxMessage>>,
    outboxKeys: set<(string, string, string)>,
    snapshots: map<(string, string), SnapshotWrite>,
    leases: map<(string, string), Lease>)

  const EMPTY_DB := Db(map[], map[], {}, map[], {}, map[], map[])

  function RowsOf(db: Db, streamId: string): seq<Row> {
    if streamId in db.rows then db.rows[streamId] else []
  }

  function SequenceOf(db: Db, streamId: string): int {
    if streamId in db.streams then db.streams[streamId].sequence else 0
  }

  function HeadOf(db: Db, streamId: string): string {
    if streamId in db.streams then db.streams[streamId].head else ""
  }

  function MessagesAt(db: Db, at: (string, string, int)): seq<OutboxMessage> {
    if at in db.outbox then db.outbox[at] else []
  }

  // ---- Validation -----------------------------------------------------------

  function Normalized(u: Uncommitted): Uncommitted
    requires CanonicalJson.Canonicalize(u.payload).Some?
  {
    u.(payload := CanonicalJson.Canonicalize(u.payload).value, occurredAt := NormalizeTime(u.occurredAt))
  }

  predicate ValidEvent(b: Backend, req: AppendRequest, u: Uncommitted)
    requires req.events != []
  {
    && u.streamId == req.streamId && u.tenantId == req.events[0].tenantId
    && u.workspaceId == req.events[0].workspaceId
    && !b.blank(u.idempotencyKey) && CanonicalJson.Canonicalize(u.payload).Some?
  }

  predicate ValidRequest(b: Backend, req: AppendRequest) {
    && req.expected >= 0 && req.events != []
    && b.p.validId(req.streamId) && b.p.validId(req.events[0].tenantId) && b.p.validId(req.events[0].workspaceId)
    && (forall i | 0 <= i < |req.events| :: ValidEvent(b, req, req.events[i]))
    && (forall i, j | 0 <= i < j < |req.events| :: req.events[i].idempotencyKey != req.events[j].idempotencyKey)
    && (forall i | 0 <= i < |req.outbox| :: !b.blank(req.outbox[i].topic) && !b.blank(req.outbox[i].key))
  }

  function IdentityOf(b: Backend, req: AppendRequest): AppendIdentity
    requires ValidRequest(b, req)
  {
    AppendIdentity(
      req.streamId, req.expected,
      seq(|req.events|, i requires 0 <= i < |req.events| =>
        assert ValidEvent(b, req, req.events[i]); Normalized(req.events[i])),
      req.outbox, req.snapshot)
  }

  // ---- Replay ---------------------------------------------------------------

  /** The row with this idempotency key, if any. */
  function Lookup(rows: seq<Row>, tenant: string, key: string): Option<Row> {
    if rows == [] then None
    else if rows[0].tenant == tenant && rows[0].envelope.idempotencyKey == key then Some(rows[0])
    else Lookup(rows[1..], tenant, key)
  }

  predicate RowIntact(b: Backend, streamId: string, tenant: string, row: Row) {
    Verify(b.p, row.envelope) == None && row.envelope.streamId == streamId && row.envelope.tenantId == tenant
  }

  /** Committed envelopes for the events from index `i` on, `found` being those before. */
  function Committed(b: Backend, rows: seq<Row>, req: AppendRequest, digest: string, i: nat, found: seq<Envelope>):
    Result<seq<Envelope>, StoreError>
    requires i <= |req.events|
    decreases |req.events| - i
  {
    if i == |req.events| then Ok(found)
    else
      match Lookup(rows, req.events[i].tenantId, req.events[i].idempotencyKey)
      case None =>
        if found == [] then Committed(b, rows, req, digest, i + 1, found) else Err(IdempotencyConflict)
      case Some(row) =>
        if row.appendDigest != digest then Err(IdempotencyConflict)
        else if !RowIntact(b, req.streamId, req.events[i].tenantId, row) then Err(Corrupt)
        else Committed(b, rows, req, digest, i + 1, found + [row.envelope])
  }

  function InsertBySequence(e: Envelope, es: seq<Envelope>): seq<Envelope> {
    if es == [] || e.sequence < es[0].sequence then [e] + es else [es[0]] + InsertBySequence(e, es[1..])
  }

  function SortBySequence(es: seq<Envelope>): (r: seq<Envelope>) {
    if es == [] then [] else InsertBySequence(es[|es| - 1], SortBySequence(es[..|es| - 1]))
  }

  predicate Consecutive(es: seq<Envelope>, first: int) {
    forall i | 0 <= i < |es| :: es[i].sequence == first + i
  }

  /** None when the request is new; the committed result when it repeats a committed request. */
  function FindReplay(b: Backend, db: Db, req: AppendRequest, digest: string):
    Result<Option<AppendResult>, StoreError>
  {
    match Committed(b, RowsOf(db, req.streamId), req, digest, 0, [])
    case Err(e) => Err(e)
    case Ok(found) =>
      if found == [] then Ok(None)
      else if |found| != |req.events| then Err(IdempotencyConflict)
      else CheckReplay(db, req, SortBySequence(found))
  }

  function CheckReplay(db: Db, req: AppendRequest, es: seq<Envelope>): Result<Option<AppendResult>, StoreError> {
    if es == [] || req.events == [] || !Consecutive(es, req.expected + 1) then Err(IdempotencyConflict)
    else
      var last := es[|es| - 1].sequence;
      var tenant := req.events[0].tenantId;
      if MessagesAt(db, (tenant, req.streamId, last)) != req.outbox then Err(Corrupt)
      else if !SnapshotIntact(db, req, tenant, last) then Err(Corrupt)
      else Ok(Some(AppendResult(es[0].sequence, last, es)))
  }

  predicate SnapshotIntact(db: Db, req: AppendRequest, tenant: string, last: int) {
    req.snapshot.Some? && SequenceOf(db, req.streamId) == last ==>
      (tenant, req.streamId) in db.snapshots && db.snapshots[(tenant, req.streamId)] == req.snapshot.value
  }

  // ---- Fresh append ---------------------------------------------------------

  predicate LeaseHeld(db: Db, at: (string, string), a: LeaseAssertion, now: Time) {
    && a.token > 0 && at in db.leases
    && db.leases[at].owner == a.owner && db.leases[at].token == a.token && db.leases[at].expires > Micros(now)
  }

  function CommitEvents(b: Backend, req: AppendRequest, now: Time, newId: nat -> string, i: nat, previous: string):
    Option<seq<Envelope>>
    requires i <= |req.events|
    decreases |req.events| - i
  {
    if i == |req.events| then Some([])
    else
      match Commit(b.p, req.events[i], CommitMetadata(req.expected + i + 1, newId(i), NormalizeTime(now), previous))
      case Err(_) => None
      case Ok(e) =>
        match CommitEvents(b, req, now, newId, i + 1, e.envelopeDigest)
        case None => None
        case Some(rest) => Some([e] + rest)
  }

  predicate SnapshotValid(b: Backend, req: AppendRequest, last: int) {
    req.snapshot.Some? ==>
      req.snapshot.value.sequence == last && b.digestBytes(req.snapshot.value.payload) == req.snapshot.value.digest
  }

  predicate RowFits(db: Db, streamId: string, e: Envelope) {
    && e.eventId !in db.eventIds
    && forall row | row in RowsOf(db, streamId) && row.tenant == e.tenantId ::
         row.envelope.sequence != e.sequence && row.envelope.idempotencyKey != e.idempotencyKey
  }

  function InsertRow(db: Db, streamId: string, e: Envelope, digest: string): Db {
    db.(rows := db.rows[streamId := RowsOf(db, streamId) + [Row(e.tenantId, e, digest)]],
        eventIds := db.eventIds + {e.eventId})
  }

  function InsertRows(db: Db, streamId: string, es: seq<Envelope>, digest: string): Option<Db>
    decreases |es|
  {
    if es == [] then Some(db)
    else if !RowFits(db, streamId, es[0]) then None
    else InsertRows(InsertRow(db, streamId, es[0], digest), streamId, es[1..], digest)
  }

  function InsertMessage(db: Db, at: (string, string, int), m: OutboxMessage): Option<Db> {
    if (at.0, m.topic, m.key) in db.outboxKeys then None
    else Some(db.(outbox := db.outbox[at := MessagesAt(db, at) + [m]],
                  outboxKeys := db.outboxKeys + {(at.0, m.topic, m.key)}))
  }

  function InsertMessages(db: Db, at: (string, string, int), ms: seq<OutboxMessage>): Option<Db>
    decreases |ms|
  {
    if ms == [] then Some(db)
    else
      match InsertMessage(db, at, ms[0])
      case None => None
      case Some(next) => InsertMessages(next, at, ms[1..])
  }

  function WriteSnapshot(db: Db, tenant: string, req: AppendRequest): Db {
    if req.snapshot.Some?
    then db.(snapshots := db.snapshots[(tenant, req.streamId) := req.snapshot.value])
    else db
  }

  /** The transaction after the replay check; None leaves the tables as they were. */
  function Write(db: Db, req: AppendRequest, digest: string, tenant: string, workspace: string, es: seq<Envelope>):
    Option<Db>
    requires es != []
  {
    match InsertRows(db, req.streamId, es, digest)
    case None => None
    case Some(written) =>
      var last := es[|es| - 1];
      match InsertMessages(WriteSnapshot(written, tenant, req), (tenant, req.streamId, last.sequence), req.outbox)
      case None => None
      case Some(sent) =>
        Some(sent.(streams := sent.streams[req.streamId :=
                     Stream(tenant, workspace, last.sequence, last.envelopeDigest)]))
  }

  function AppendFresh(b: Backend, db: Db, now: Time, newId: nat -> string, req: AppendRequest, digest: string):
    (Db, Result<AppendResult, StoreError>)
    requires req.events != []
  {
    var tenant, workspace := req.events[0].tenantId, req.events[0].workspaceId;
    if req.streamId in db.streams
       && (db.streams[req.streamId].tenant != tenant || db.streams[req.streamId].workspace != workspace)
    then (db, Err(ScopeMismatch))
    else if SequenceOf(db, req.streamId) != req.expected then (db, Err(Conflict))
    else if req.lease.Some? && !LeaseHeld(db, (tenant, req.streamId), req.lease.value, now) then (db, Err(LeaseLost))
    else
      match CommitEvents(b, req, now, newId, 0, HeadOf(db, req.streamId))
      case None => (db, Err(Invalid))
      case Some(es) =>
        if es == [] || !SnapshotValid(b, req, es[|es| - 1].sequence) then (db, Err(Invalid))
        else
          match Write(db, req, digest, tenant, workspace, es)
          case None => (db, Err(ConstraintViolation))
          case Some(next) => (next, Ok(AppendResult(es[0].sequence, es[|es| - 1].sequence, es)))
  }

  function Append(b: Backend, db: Db, now: Time, newId: nat -> string, req: AppendRequest):
    (Db, Result<AppendResult, StoreError>)
  {
    if !ValidRequest(b, req) then (db, Err(Invalid))
    else
      var digest := b.fingerprint(IdentityOf(b, req));
      match FindReplay(b, db, req, digest)
      case Err(e) => (db, Err(e))
      case Ok(Some(result)) => (db, Ok(result))
      case Ok(None) => AppendFresh(b, db, now, newId, req, digest)
  }

  // ---- Leases ---------------------------------------------------------------

  datatype LeaseGrant = LeaseGrant(tenant: string, stream: string, owner: string, token: int, expires: int)

  function Acquire(b: Backend, db: Db, now: Time, tenant: string, stream: string, owner: string, ttlMicros: int):
    (Db, Result<LeaseGrant, StoreError>)
  {
    var at := (tenant, stream);
    if !b.p.validId(tenant) || !b.p.validId(stream) || !b.p.validId(owner) || ttlMicros <= 0 then (db, Err(Invalid))
    else if at in db.leases && db.leases[at].owner != owner && db.leases[at].expires > Micros(now)
    then (db, Err(Busy))
    else
      var token := if at in db.leases then db.leases[at].token + 1 else 1;
      var expires := Micros(now) + ttlMicros;
      (db.(leases := db.leases[at := Lease(owner, token, expires)]),
       Ok(LeaseGrant(tenant, stream, owner, token, expires)))
  }

  predicate GrantLive(db: Db, g: LeaseGrant, now: Time) {
    var at := (g.tenant, g.stream);
    && at in db.leases && db.leases[at].owner == g.owner && db.leases[at].token == g.token
    && db.leases[at].expires > Micros(now)
  }

  function Renew(b: Backend, db: Db, now: Time, g: LeaseGrant, ttlMicros: int): (Db, Result<LeaseGrant, StoreError>) {
    var at := (g.tenant, g.stream);
    if !b.p.validId(g.tenant) || !b.p.validId(g.stream) || !b.p.validId(g.owner) || ttlMicros <= 0 || g.token <= 0
    then (db, Err(Invalid))
    else if !GrantLive(db, g, now) then (db, Err(Lost))
    else
      var expires := Micros(now) + ttlMicros;
      (db.(leases := db.leases[at := db.leases[at].(expires := expires)]), Ok(g.(expires := expires)))
  }

  function Release(b: Backend, db: Db, now: Time, g: LeaseGrant): (Db, Option<StoreError>) {
    var at := (g.tenant, g.stream);
    if !b.p.validId(g.tenant) || !b.p.validId(g.stream) || b.blank(g.owner) || g.token <= 0 then (db, Some(Invalid))
    else if !GrantLive(db, g, now) then (db, Some(Lost))
    else (db.(leases := db.leases[at := db.leases[at].(expires := 0)]), None)
  }

  // ---- Reading --------------------------------------------------------------

  const MAX_READ_LIMIT := 1000

  /** Rows in order, each checked against its sequence and its predecessor's digest. */
  function ReadFrom(b: Backend, streamId: string, rows: seq<Row>, sequence: int, previous: string):
    Option<seq<Envelope>>
  {
    if rows == [] then Some([])
    else
      var e := rows[0].envelope;
      if e.streamId != streamId || e.tenantId != rows[0].tenant || e.sequence != sequence
         || e.previousDigest != previous || Verify(b.p, e) != None then None
      else
        match ReadFrom(b, streamId, rows[1..], sequence + 1, e.envelopeDigest)
        case None => None
        case Some(rest) => Some([e] + rest)
  }

  /** The row with this sequence number, if any. */
  function RowAt(rows: seq<Row>, sequence: int): Option<Row> {
    if rows == [] then None
    else if rows[0].envelope.sequence == sequence then Some(rows[0])
    else RowAt(rows[1..], sequence)
  }

  function RowsAfter(rows: seq<Row>, after: int): seq<Row> {
    if rows == [] then []
    else
      var init := RowsAfter(rows[..|rows| - 1], after);
      if rows[|rows| - 1].envelope.sequence > after then init + [rows[|rows| - 1]] else init
  }

  function PlaceRow(row: Row, rows: seq<Row>): seq<Row> {
    if rows == [] || rows[|rows| - 1].envelope.sequence <= row.envelope.sequence then rows + [row]
    else PlaceRow(row, rows[..|rows| - 1]) + [rows[|rows| - 1]]
  }

  function RowsInOrder(rows: seq<Row>): seq<Row> {
    if rows == [] then [] else PlaceRow(rows[|rows| - 1], RowsInOrder(rows[..|rows| - 1]))
  }

  /** The rows after a sequence number, by sequence number, at most `limit` of them. */
  function Page(rows: seq<Row>, after: int, limit: nat): (page: seq<Row>)
    ensures |page| <= limit
  {
    var found := RowsInOrder(RowsAfter(rows, after));
    if limit <= |found| then found[..limit] else found
  }

  function Read(b: Backend, db: Db, streamId: string, after: int, limit: int): Result<seq<Envelope>, StoreError> {
    if !b.p.validId(streamId) || after < 0 || limit < 1 || limit > MAX_READ_LIMIT then Err(Invalid)
    else if streamId !in db.streams || after >= db.streams[streamId].sequence then Ok([])
    else
      var rows := RowsOf(db, streamId);
      if after > 0 && RowAt(rows, after).None? then Err(Corrupt)
      else
        var previous := if after == 0 then "" else RowAt(rows, after).value.envelope.envelopeDigest;
        match ReadFrom(b, streamId, Page(rows, after, limit), after + 1, previous)
        case None => Err(Corrupt)
        case Some(es) => if PageComplete(db.streams[streamId], limit, es) then Ok(es) else Err(Corrupt)
  }

  /** A short page must reach the recorded sequence, and a page that ends there must end in the recorded head. */
  predicate PageComplete(s: Stream, limit: int, es: seq<Envelope>) {
    && es != [] && !(|es| < limit && es[|es| - 1].sequence < s.sequence)
    && (es[|es| - 1].sequence == s.sequence ==> es[|es| - 1].envelopeDigest == s.head)
  }

  /** The recorded sequence and digest, checked against the event stored at that sequence. */
  function ReadHead(b: Backend, db: Db, streamId: string): Result<(int, string), StoreError> {
    if !b.p.validId(streamId) then Err(Invalid)
    else if streamId !in db.streams then Ok((0, ""))
    else
      var s := db.streams[streamId];
      if s.sequence == 0 then if s.head != "" then Err(Corrupt) else Ok((0, ""))
      else
        match RowAt(RowsOf(db, streamId), s.sequence)
        case None => Err(Corrupt)
        case Some(row) =>
          if Verify(b.p, row.envelope) != None || row.envelope.streamId != streamId || row.envelope.envelopeDigest != s.head
          then Err(Corrupt)
          else Ok((s.sequence, s.head))
  }
}
