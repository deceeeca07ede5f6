/** Exactly which reads detect every tampering with the event rows. The stream rows, which hold each stream's
    sequence and head digest, are trusted. */
module EventStoreTampering {
  import opened Options
  import opened Envelope
  import opened EventStore
  import opened EventStoreProofs
  import opened EventStoreReads
  import CanonicalJson

  // ---- Pages that end at the head ---------------------------------------------------------------

  /** The committed page of `n` events after `after`, up to what digests cannot distinguish. */
  ghost predicate CommittedPage(history: seq<Envelope>, after: nat, es: seq<Envelope>) {
    after + |es| <= |history| && forall i | 0 <= i < |es| :: Equivalent(es[i], history[after + i])
  }

  /** Each event verifies and names the digest of the one before. */
  ghost predicate Linked(b: Backend, es: seq<Envelope>) {
    && (forall k | 0 <= k < |es| :: Verify(b.p, es[k]) == None)
    && (forall k | 0 < k < |es| :: es[k].previousDigest == es[k - 1].envelopeDigest)
  }

  /** Digests chain backwards: linked events that end in the head of a history are that history's end. */
  lemma {:induction false} LinkedBack(b: Backend, es: seq<Envelope>, history: seq<Envelope>, k: nat)
    requires Sound(b.p) && Linked(b, es) && Chain(b.p, history) && k < |es| <= |history|
    requires es[|es| - 1].envelopeDigest == history[|history| - 1].envelopeDigest
    ensures Equivalent(es[k], history[|history| - |es| + k])
    decreases |es| - k
  {
    hide Verify, Chain, Equivalent, Sound;
    var at := |history| - |es| + k;
    ChainAt(b.p, history, at);
    if k < |es| - 1 {
      LinkedBack(b, es, history, k + 1);
      EquivalentFields(es[k + 1], history[at + 1]);
      ChainAt(b.p, history, at + 1);
    }
    SameDigestEquivalent(b.p, es[k], history[at]);
  }

  /** Whatever the rows are, a successful read whose limit reaches exactly to the recorded sequence returns
      the committed page. */
  lemma PageToHeadIsCommitted(b: Backend, w: World, streamId: string, tampered: Db, after: nat, limit: nat)
    requires WorldInv(b, w) && Sound(b.p) && streamId in w.db.streams && tampered.streams == w.db.streams
    requires after + limit == SequenceOf(w.db, streamId) && 1 <= limit <= 1000
    ensures var r := Read(b, tampered, streamId, after, limit);
            r.Ok? ==> |r.value| == limit && CommittedPage(Envelopes(RowsOf(w.db, streamId)), after, r.value)
  {
    hide Verify, WorldInv, Chain, Read, Equivalent, Sound, OfStream;
    WorldStoredFacts(b, w, streamId);
    var history := Envelopes(RowsOf(w.db, streamId));
    var r := Read(b, tampered, streamId, after, limit);
    if r.Ok? {
      ReadChecks(b, tampered, streamId, after, limit);
      assert |r.value| == limit && r.value[|r.value| - 1].envelopeDigest == Head(history);
      forall i | 0 <= i < |r.value| ensures Equivalent(r.value[i], history[after + i]) {
        LinkedBack(b, r.value, history, i);
      }
    }
  }

  // ---- Forged rows ------------------------------------------------------------------------------------

  /** A verified event with another type, moved to another place of the stream and digested again. */
  function Forge(p: Platform, e: Envelope, sequence: int, previous: string): Envelope {
    var moved := e.(eventType := e.eventType + "!", sequence := sequence, previousDigest := previous);
    match Digest(p, moved)
    case None => moved
    case Some(digest) => moved.(envelopeDigest := digest)
  }

  lemma ForgeVerifies(p: Platform, e: Envelope, sequence: int, previous: string)
    requires Verify(p, e) == None && sequence >= 1
    ensures var f := Forge(p, e, sequence, previous);
            && Verify(p, f) == None && f.sequence == sequence && f.previousDigest == previous
            && f.streamId == e.streamId && f.tenantId == e.tenantId && f.eventType != e.eventType
  {
    hide CanonicalJson.Parse, CanonicalJson.Print, DigestMembers, CanonicalJson.Canonicalize;
    var moved := e.(eventType := e.eventType + "!", sequence := sequence, previousDigest := previous);
    var payload := CanonicalJson.Parse(e.payload).value;
    MembersFacts(p, e, payload);
    MembersFacts(p, moved, payload);
    DigestIgnoresItself(p, moved, Digest(p, moved).value);
    assert |e.eventType + "!"| == |e.eventType| + 1;
  }

  function ForgedChain(p: Platform, e: Envelope, n: nat): (es: seq<Envelope>)
    ensures |es| == n
  {
    if n == 0 then [] else ForgedChain(p, e, n - 1) + [Forge(p, e, n, Head(ForgedChain(p, e, n - 1)))]
  }

  lemma ChainAppend(p: Platform, es: seq<Envelope>, f: Envelope)
    requires Chain(p, es) && Verify(p, f) == None && f.sequence == |es| + 1 && f.previousDigest == Head(es)
    ensures Chain(p, es + [f])
  {
    hide Verify;
    var all := es + [f];
    assert Chain(p, es);
    forall i | 0 <= i < |all|
      ensures Verify(p, all[i]) == None && all[i].sequence == i + 1 && all[i].previousDigest == Predecessor(all, i)
    {
      if i < |es| {
        ChainAt(p, es, i);
        assert all[i] == es[i] && Predecessor(all, i) == Predecessor(es, i);
      } else {
        assert all[i] == f && Predecessor(all, i) == Head(es);
      }
    }
  }

  lemma {:induction false} ForgedChainVerifies(p: Platform, e: Envelope, n: nat)
    requires Verify(p, e) == None
    ensures Chain(p, ForgedChain(p, e, n))
  {
    hide Verify, Forge, Chain;
    if n > 0 {
      ForgedChainVerifies(p, e, n - 1);
      var es := ForgedChain(p, e, n - 1);
      ForgeVerifies(p, e, n, Head(es));
      ChainAppend(p, es, Forge(p, e, n, Head(es)));
    } else {
      NoEvents(p);
    }
  }

  lemma NoEvents(p: Platform)
    ensures Chain(p, [])
  {
  }

  lemma {:induction false} ForgedEvent(p: Platform, e: Envelope, n: nat, i: nat)
    requires Verify(p, e) == None && i < n
    ensures var f := ForgedChain(p, e, n)[i];
            f.streamId == e.streamId && f.tenantId == e.tenantId && f.eventType != e.eventType
  {
    hide Verify, Forge;
    if i < n - 1 {
      ForgedEvent(p, e, n - 1, i);
    } else {
      ForgeVerifies(p, e, n, Head(ForgedChain(p, e, n - 1)));
    }
  }

  function RowsFor(es: seq<Envelope>): (rows: seq<Row>)
    ensures |rows| == |es|
  {
    seq(|es|, i requires 0 <= i < |es| => Row(es[i].tenantId, es[i], ""))
  }

  function Replaced(db: Db, streamId: string, es: seq<Envelope>): Db {
    db.(rows := db.rows[streamId := RowsFor(es)])
  }

  /** Rows replaced by any verified chain that covers a page which does not end at the recorded sequence
      are returned as they are. */
  lemma ForgedPageReturned(b: Backend, db: Db, streamId: string, es: seq<Envelope>, after: nat, limit: nat)
    requires b.p.validId(streamId) && streamId in db.streams && 1 <= limit <= 1000
    requires after < db.streams[streamId].sequence && after + limit != db.streams[streamId].sequence
    requires Chain(b.p, es) && after + limit <= |es| && forall i | 0 <= i < |es| :: es[i].streamId == streamId
    ensures Read(b, Replaced(db, streamId, es), streamId, after, limit) == Ok(es[after..after + limit])
  {
    hide Verify, Chain, Read;
    assert Envelopes(RowsFor(es)) == es;
    ReadOfChain(b, Replaced(db, streamId, es), streamId, after, limit);
  }

  // ---- Exactly when tampering is detected ------------------------------------------------------------

  /** However the event rows are replaced, the read fails or returns the committed page. */
  ghost predicate TamperProof(b: Backend, w: World, streamId: string, after: nat, limit: nat) {
    forall tampered: Db | tampered.streams == w.db.streams ::
      var r := Read(b, tampered, streamId, after, limit);
      r.Ok? ==> CommittedPage(Envelopes(RowsOf(w.db, streamId)), after, r.value)
  }

  lemma OtherPagesForgeable(b: Backend, w: World, streamId: string, after: nat, limit: nat)
    requires WorldInv(b, w) && b.p.validId(streamId) && after < SequenceOf(w.db, streamId)
    requires after + limit != SequenceOf(w.db, streamId) && 1 <= limit <= 1000
    ensures exists tampered: Db ::
              && tampered.streams == w.db.streams && Read(b, tampered, streamId, after, limit).Ok?
              && !CommittedPage(Envelopes(RowsOf(w.db, streamId)), after, Read(b, tampered, streamId, after, limit).value)
  {
    hide Verify, WorldInv, Chain, Read, Equivalent, ForgedChain, Replaced, OfStream;
    WorldStoredFacts(b, w, streamId);
    var history := Envelopes(RowsOf(w.db, streamId));
    ChainAt(b.p, history, after);
    var e := history[after];
    assert e.streamId == streamId by { StreamOf(RowsOf(w.db, streamId), streamId, after); }
    var es := ForgedChain(b.p, e, after + limit);
    ForgedChainVerifies(b.p, e, after + limit);
    forall i | 0 <= i < |es| ensures es[i].streamId == streamId && es[i].eventType != e.eventType {
      ForgedEvent(b.p, e, after + limit, i);
    }
    ForgedPageReturned(b, w.db, streamId, es, after, limit);
    assert es[after..after + limit][0] == es[after];
    OtherTypeDiffers(es[after], e);
    SameStreams(w.db, streamId, es);
    assert !CommittedPage(history, after, es[after..after + limit]);
  }

  lemma StreamOf(rows: seq<Row>, streamId: string, i: nat)
    requires OfStream(rows, streamId) && i < |rows|
    ensures Envelopes(rows)[i].streamId == streamId
  {
  }

  lemma SameStreams(db: Db, streamId: string, es: seq<Envelope>)
    ensures Replaced(db, streamId, es).streams == db.streams
  {
  }

  lemma OtherTypeDiffers(f: Envelope, e: Envelope)
    requires f.eventType != e.eventType
    ensures !Equivalent(f, e)
  {
  }

  /** In every reachable state a read detects every tampering with the event rows if and only if its limit
      reaches exactly to the recorded sequence. A page that ends before the head, or a limit beyond it, can be
      answered from forged rows. */
  lemma TamperProofIff(b: Backend, w: World, streamId: string, after: nat, limit: nat)
    requires WorldInv(b, w) && Sound(b.p) && b.p.validId(streamId)
    requires after < SequenceOf(w.db, streamId) && 1 <= limit <= 1000
    ensures TamperProof(b, w, streamId, after, limit) <==> after + limit == SequenceOf(w.db, streamId)
  {
    hide Verify, WorldInv, Read, Sound, CommittedPage;
    if after + limit == SequenceOf(w.db, streamId) {
      forall tampered: Db | tampered.streams == w.db.streams && Read(b, tampered, streamId, after, limit).Ok?
        ensures CommittedPage(Envelopes(RowsOf(w.db, streamId)), after, Read(b, tampered, streamId, after, limit).value)
      {
        PageToHeadIsCommitted(b, w, streamId, tampered, after, limit);
      }
    } else {
      OtherPagesForgeable(b, w, streamId, after, limit);
    }
  }

  // ---- The head ------------------------------------------------------------------------------------------

  /** Whatever the rows are, a head that is returned is the recorded one, and the event it was checked against
      is the last committed event; a stream whose last event is gone is reported corrupt. */
  lemma TamperedHeadFailsClosed(b: Backend, w: World, streamId: string, tampered: Db)
    requires WorldInv(b, w) && Sound(b.p) && b.p.validId(streamId) && streamId in w.db.streams
    requires tampered.streams == w.db.streams
    ensures var history := Envelopes(RowsOf(w.db, streamId));
            var row := RowAt(RowsOf(tampered, streamId), |history|);
            && history != []
            && (ReadHead(b, tampered, streamId).Ok? ==>
                  && ReadHead(b, tampered, streamId) == Ok((|history|, Head(history)))
                  && row.Some? && Equivalent(row.value.envelope, history[|history| - 1]))
            && (row.None? ==> ReadHead(b, tampered, streamId) == Err(Corrupt))
  {
    hide Verify, WorldInv, Chain, RowAt, Equivalent, Sound, OfStream;
    WorldStoredFacts(b, w, streamId);
    var history := Envelopes(RowsOf(w.db, streamId));
    ChainAt(b.p, history, |history| - 1);
    if ReadHead(b, tampered, streamId).Ok? {
      SameDigestEquivalent(b.p, RowAt(RowsOf(tampered, streamId), |history|).value.envelope, history[|history| - 1]);
    }
  }

  // ---- Replays ------------------------------------------------------------------------------------

  /** The event is stored under the digest of the request, verifies and belongs to the stream. */
  ghost predicate StoredUnder(b: Backend, rows: seq<Row>, streamId: string, digest: string, e: Envelope) {
    exists row :: row in rows && row.envelope == e && row.appendDigest == digest && Verify(b.p, e) == None
                  && e.streamId == streamId
  }

  lemma {:induction false} LookupStored(rows: seq<Row>, tenant: string, key: string)
    ensures Lookup(rows, tenant, key).Some? ==> Lookup(rows, tenant, key).value in rows
  {
    if rows != [] {
      LookupStored(rows[1..], tenant, key);
    }
  }

  lemma {:induction false} FoundStored(b: Backend, rows: seq<Row>, req: AppendRequest, digest: string, i: nat,
        found: seq<Envelope>)
    requires i <= |req.events| && Committed(b, rows, req, digest, i, found).Ok?
    requires forall e | e in found :: StoredUnder(b, rows, req.streamId, digest, e)
    ensures forall e | e in Committed(b, rows, req, digest, i, found).value :: StoredUnder(b, rows, req.streamId, digest, e)
    decreases |req.events| - i
  {
    hide StoredUnder, Verify;
    if i < |req.events| {
      LookupStored(rows, req.events[i].tenantId, req.events[i].idempotencyKey);
      match Lookup(rows, req.events[i].tenantId, req.events[i].idempotencyKey)
      case None => FoundStored(b, rows, req, digest, i + 1, found);
      case Some(row) =>
        RowStored(b, rows, req.streamId, req.events[i].tenantId, digest, row);
        FoundStored(b, rows, req, digest, i + 1, found + [row.envelope]);
    }
  }

  lemma RowStored(b: Backend, rows: seq<Row>, streamId: string, tenant: string, digest: string, row: Row)
    requires row in rows && row.appendDigest == digest && RowIntact(b, streamId, tenant, row)
    ensures StoredUnder(b, rows, streamId, digest, row.envelope)
  {
  }

  lemma {:induction false} InsertKeeps(e: Envelope, es: seq<Envelope>)
    ensures multiset(InsertBySequence(e, es)) == multiset(es) + multiset{e}
  {
    if es != [] && e.sequence >= es[0].sequence {
      InsertKeeps(e, es[1..]);
      assert es == [es[0]] + es[1..];
    }
  }

  lemma {:induction false} SortKeeps(es: seq<Envelope>)
    ensures multiset(SortBySequence(es)) == multiset(es)
  {
    if es != [] {
      var rest := es[..|es| - 1];
      SortKeeps(rest);
      InsertKeeps(es[|es| - 1], SortBySequence(rest));
      assert es == rest + [es[|es| - 1]];
    }
  }

  /** Whatever the tables hold, a replay is answered only with verified events of the stream that were stored under the
      digest of the request, as many as it has and numbered from its sequence on, and only while the messages and the
      last snapshot stored with them are the request's own. */
  lemma ReplayFailsClosed(b: Backend, db: Db, req: AppendRequest, digest: string)
    requires FindReplay(b, db, req, digest).Ok? && FindReplay(b, db, req, digest).value.Some?
    ensures var r := FindReplay(b, db, req, digest).value.value;
            && |r.events| == |req.events| > 0 && r.first == req.expected + 1 && r.last == req.expected + |req.events|
            && (forall i | 0 <= i < |r.events| ::
                  r.events[i].sequence == req.expected + i + 1
                  && StoredUnder(b, RowsOf(db, req.streamId), req.streamId, digest, r.events[i]))
            && var at := (req.events[0].tenantId, req.streamId, r.last);
               && req.outbox == (if at in db.outbox then db.outbox[at] else [])
               && (req.snapshot.Some? && req.streamId in db.streams && db.streams[req.streamId].sequence == r.last ==>
                     (at.0, at.1) in db.snapshots && db.snapshots[(at.0, at.1)] == req.snapshot.value)
  {
    hide StoredUnder, Committed, SortBySequence;
    var rows := RowsOf(db, req.streamId);
    FoundStored(b, rows, req, digest, 0, []);
    var found := Committed(b, rows, req, digest, 0, []).value;
    SortKeeps(found);
    var es := SortBySequence(found);
    assert |es| == |multiset(es)| == |found|;
    forall i | 0 <= i < |es| ensures StoredUnder(b, rows, req.streamId, digest, es[i]) {
      assert es[i] in multiset(es) && es[i] in found;
    }
  }
}
