/** What reads return: exactly the committed history from intact tables, and what they still guarantee when
    the event rows have been tampered with. */
module EventStoreReads {
  import opened Options
  import opened Envelope
  import opened EventStore
  import opened EventStoreProofs
  import opened EventStoreRuns

  // ---- Pages of numbered rows -------------------------------------------------------------

  /** Row `i` carries sequence number `i + 1`. */
  predicate Numbered(rows: seq<Row>) {
    forall i | 0 <= i < |rows| :: rows[i].envelope.sequence == i + 1
  }

  function End(n: nat, after: nat, limit: nat): nat
    requires after <= n
  {
    if after + limit <= n then after + limit else n
  }

  predicate Ascending(rows: seq<Row>) {
    forall i, j | 0 <= i < j < |rows| :: rows[i].envelope.sequence <= rows[j].envelope.sequence
  }

  lemma {:induction false} AfterNumbered(rows: seq<Row>, after: nat)
    requires Numbered(rows)
    ensures RowsAfter(rows, after) == if after <= |rows| then rows[after..] else []
  {
    if rows != [] {
      var init := rows[..|rows| - 1];
      AfterNumbered(init, after);
      if after < |rows| {
        assert rows[after..] == init[after..] + [rows[|rows| - 1]];
      }
    }
  }

  lemma {:induction false} OrderedAlready(rows: seq<Row>)
    requires Ascending(rows)
    ensures RowsInOrder(rows) == rows
  {
    if rows != [] {
      OrderedAlready(rows[..|rows| - 1]);
    }
  }

  lemma {:induction false} RowAtNumbered(rows: seq<Row>, sequence: nat, first: nat)
    requires forall i | 0 <= i < |rows| :: rows[i].envelope.sequence == first + i
    ensures RowAt(rows, sequence) ==
            if first <= sequence < first + |rows| then Some(rows[sequence - first]) else None
    decreases |rows|
  {
    if rows != [] {
      RowAtNumbered(rows[1..], sequence, first + 1);
    }
  }

  lemma PageNumbered(rows: seq<Row>, after: nat, limit: nat)
    requires Numbered(rows) && after <= |rows|
    ensures Page(rows, after, limit) == rows[after..End(|rows|, after, limit)]
  {
    hide RowsAfter, RowsInOrder;
    AfterNumbered(rows, after);
    OrderedAlready(rows[after..]);
  }

  // ---- Scanning a page ----------------------------------------------------------------------

  lemma ChainNumbers(b: Backend, rows: seq<Row>)
    requires Chain(b.p, Envelopes(rows))
    ensures Numbered(rows)
  {
    hide Verify, Chain;
    forall i | 0 <= i < |rows| ensures rows[i].envelope.sequence == i + 1 {
      ChainAt(b.p, Envelopes(rows), i);
    }
  }

  /** The rows name their envelope's tenant, and the envelopes this stream. */
  predicate OfStream(rows: seq<Row>, streamId: string) {
    forall k | 0 <= k < |rows| ::
      rows[k].tenant == rows[k].envelope.tenantId && rows[k].envelope.streamId == streamId
  }

  lemma {:induction false} ScanChain(b: Backend, streamId: string, rows: seq<Row>, all: seq<Row>, i: nat)
    requires Chain(b.p, Envelopes(all)) && OfStream(all, streamId) && i <= |all| && rows <= all[i..]
    ensures ReadFrom(b, streamId, rows, i + 1, Before("", Envelopes(all), i)) == Some(Envelopes(rows))
    decreases |rows|
  {
    hide Verify, Chain;
    if rows != [] {
      assert rows[0] == all[i];
      ChainAt(b.p, Envelopes(all), i);
      assert rows[1..] <= all[i + 1..];
      ScanChain(b, streamId, rows[1..], all, i + 1);
      assert Envelopes(rows) == [rows[0].envelope] + Envelopes(rows[1..]);
    } else {
      assert Envelopes(rows) == [];
    }
  }

  lemma {:induction false} ScannedRows(b: Backend, streamId: string, rows: seq<Row>, sequence: int, previous: string)
    requires ReadFrom(b, streamId, rows, sequence, previous).Some?
    ensures var es := ReadFrom(b, streamId, rows, sequence, previous).value;
            && |es| == |rows|
            && forall k | 0 <= k < |es| ::
                 && Verify(b.p, es[k]) == None && es[k].sequence == sequence + k
                 && es[k].previousDigest == Before(previous, es, k)
    decreases |rows|
  {
    hide Verify;
    if rows != [] {
      var e := rows[0].envelope;
      ScannedRows(b, streamId, rows[1..], sequence + 1, e.envelopeDigest);
      var rest := ReadFrom(b, streamId, rows[1..], sequence + 1, e.envelopeDigest).value;
      var es := [e] + rest;
      forall k | 0 <= k < |es|
        ensures Verify(b.p, es[k]) == None && es[k].sequence == sequence + k
        ensures es[k].previousDigest == Before(previous, es, k)
      {
        if k > 0 {
          assert es[k] == rest[k - 1];
          assert Before(e.envelopeDigest, rest, k - 1) == Before(previous, es, k);
        }
      }
    }
  }

  /** The digest a page is linked to. */
  function LinkBefore(rows: seq<Row>, after: nat): string
    requires after > 0 ==> RowAt(rows, after).Some?
  {
    if after == 0 then "" else RowAt(rows, after).value.envelope.envelopeDigest
  }

  lemma PageScanned(b: Backend, streamId: string, rows: seq<Row>, after: nat, limit: nat)
    requires Chain(b.p, Envelopes(rows)) && OfStream(rows, streamId) && after < |rows|
    ensures after > 0 ==> RowAt(rows, after).Some?
    ensures ReadFrom(b, streamId, Page(rows, after, limit), after + 1, LinkBefore(rows, after))
            == Some(Envelopes(rows)[after..End(|rows|, after, limit)])
  {
    hide Verify, Chain, ReadFrom, Page, RowAt;
    var end := End(|rows|, after, limit);
    ChainNumbers(b, rows);
    PageNumbered(rows, after, limit);
    RowAtNumbered(rows, after, 1);
    ScanChain(b, streamId, rows[after..end], rows, after);
    assert Envelopes(rows[after..end]) == Envelopes(rows)[after..end];
  }

  lemma CompletePage(b: Backend, s: Stream, es: seq<Envelope>, after: nat, limit: nat)
    requires Chain(b.p, es) && after < |es| && limit >= 1
    ensures var end := End(|es|, after, limit);
            PageComplete(s, limit, es[after..end]) <==>
            (end == after + limit || s.sequence <= end) && (end == s.sequence ==> es[end - 1].envelopeDigest == s.head)
  {
    hide Verify, Chain;
    var end := End(|es|, after, limit);
    ChainAt(b.p, es, end - 1);
    assert es[after..end][end - after - 1] == es[end - 1];
  }

  /** The result of reading any rows that form a verified chain of the stream, committed or forged. */
  lemma ReadOfChain(b: Backend, db: Db, streamId: string, after: nat, limit: nat)
    requires b.p.validId(streamId) && streamId in db.streams && 1 <= limit <= 1000
    requires var rows := RowsOf(db, streamId);
             Chain(b.p, Envelopes(rows)) && OfStream(rows, streamId) && after < |rows| && after < db.streams[streamId].sequence
    ensures var es := Envelopes(RowsOf(db, streamId));
            var s, end := db.streams[streamId], End(|es|, after, limit);
            Read(b, db, streamId, after, limit) ==
            if (end == after + limit || s.sequence <= end) && (end == s.sequence ==> es[end - 1].envelopeDigest == s.head)
            then Ok(es[after..end]) else Err(Corrupt)
  {
    hide Verify, Chain, ReadFrom, Page, RowAt, OfStream, PageComplete;
    PageScanned(b, streamId, RowsOf(db, streamId), after, limit);
    CompletePage(b, db.streams[streamId], Envelopes(RowsOf(db, streamId)), after, limit);
  }

  /** What a successful read of any rows has checked. */
  lemma ReadChecks(b: Backend, db: Db, streamId: string, after: nat, limit: nat)
    requires streamId in db.streams && after < db.streams[streamId].sequence && Read(b, db, streamId, after, limit).Ok?
    ensures var es := Read(b, db, streamId, after, limit).value;
            && 1 <= |es| <= limit && PageComplete(db.streams[streamId], limit, es)
            && (forall k | 0 <= k < |es| :: Verify(b.p, es[k]) == None && es[k].sequence == after + 1 + k)
            && (forall k | 0 < k < |es| :: es[k].previousDigest == es[k - 1].envelopeDigest)
  {
    hide Verify, ReadFrom, Page, RowAt;
    var rows := RowsOf(db, streamId);
    var page := Page(rows, after, limit);
    ScannedRows(b, streamId, page, after + 1, LinkBefore(rows, after));
    var es := Read(b, db, streamId, after, limit).value;
    forall k | 0 < k < |es| ensures es[k].previousDigest == es[k - 1].envelopeDigest {
      assert Before(LinkBefore(rows, after), es, k) == es[k - 1].envelopeDigest;
    }
  }

  lemma WorldStoredFacts(b: Backend, w: World, streamId: string)
    requires WorldInv(b, w)
    ensures var rows := RowsOf(w.db, streamId);
            && Chain(b.p, Envelopes(rows)) && OfStream(rows, streamId)
            && SequenceOf(w.db, streamId) == |rows| && HeadOf(w.db, streamId) == Head(Envelopes(rows))
            && (streamId in w.db.streams ==> rows != [])
  {
    hide Recorded, Covered, Verify;
    StoredFacts(b, w.db, streamId);
  }

  /** In every reachable state a read returns exactly the requested part of the committed history. */
  lemma ReadReturnsHistory(b: Backend, w: World, streamId: string, after: nat, limit: nat)
    requires WorldInv(b, w) && b.p.validId(streamId) && 1 <= limit <= 1000
    ensures var history := Envelopes(RowsOf(w.db, streamId));
            Read(b, w.db, streamId, after, limit) ==
            Ok(if after < |history| then history[after..End(|history|, after, limit)] else [])
  {
    hide Chain, WorldInv, ReadFrom, Page, RowAt, OfStream;
    WorldStoredFacts(b, w, streamId);
    if after < |RowsOf(w.db, streamId)| {
      ReadOfChain(b, w.db, streamId, after, limit);
    }
  }

  /** Only a read that names no stream, starts before the first event or asks for none or too many is refused as such. */
  lemma ReadRefusedIff(b: Backend, w: World, streamId: string, after: int, limit: int)
    requires WorldInv(b, w)
    ensures Read(b, w.db, streamId, after, limit).Err? <==>
            !b.p.validId(streamId) || after < 0 || limit < 1 || limit > 1000
  {
    hide WorldInv, Page, RowAt, ReadFrom;
    if b.p.validId(streamId) && after >= 0 && 1 <= limit <= 1000 {
      ReadReturnsHistory(b, w, streamId, after, limit);
    }
  }

  /** In every reachable state the head of a stream is its length and the digest of its last event. */
  lemma HeadReturnsLast(b: Backend, w: World, streamId: string)
    requires WorldInv(b, w) && b.p.validId(streamId)
    ensures var history := Envelopes(RowsOf(w.db, streamId)); ReadHead(b, w.db, streamId) == Ok((|history|, Head(history)))
  {
    hide Chain, WorldInv, RowAt, Verify;
    WorldStoredFacts(b, w, streamId);
    var rows := RowsOf(w.db, streamId);
    if streamId in w.db.streams {
      ChainNumbers(b, rows);
      RowAtNumbered(rows, |rows|, 1);
      ChainAt(b.p, Envelopes(rows), |rows| - 1);
    }
  }

  // ---- Reading back what was appended --------------------------------------------------------------------

  lemma RecordedRead(b: Backend, w: World, c: Commitment, i: nat)
    requires WorldInv(b, w) && c in w.commits && i < |c.es| && b.p.validId(c.req.streamId)
    ensures c.req.expected >= 0 && Read(b, w.db, c.req.streamId, c.req.expected + i, 1) == Ok([c.es[i]])
    ensures c.es[i].sequence == c.req.expected + i + 1
  {
    hide Chain, Read, WorldInv, Recorded, Carried, OfStream;
    WorldRecords(b, w, c);
    RecordedAt(b, w.db, c, i);
    WorldStoredFacts(b, w, c.req.streamId);
    var rows := RowsOf(w.db, c.req.streamId);
    var at := c.req.expected + i;
    ReadReturnsHistory(b, w, c.req.streamId, at, 1);
    ChainAt(b.p, Envelopes(rows), at);
    assert Envelopes(rows)[at..at + 1] == [c.es[i]];
  }

  lemma WorldRecords(b: Backend, w: World, c: Commitment)
    requires WorldInv(b, w) && c in w.commits
    ensures Recorded(b, w.db, c) && Carried(c)
  {
    hide Recorded, Carried, Inv;
  }

  /** An append that commits returns the request's own events, numbered on from the expected sequence, and after
      any further operations every one of them is read back unchanged. */
  lemma AppendedIsRead(
    b: Backend, w: World, now: Time, newId: nat -> string, req: AppendRequest, ops: seq<Op>, i: nat)
    requires WorldInv(b, w) && Append(b, w.db, now, newId, req).0 != w.db && i < |req.events|
    ensures var (next, r) := Append(b, w.db, now, newId, req);
            var later := Run(b, Step(b, w, AppendOp(now, newId, req)), ops).db;
            && r.Ok? && r.value.first == req.expected + 1 && r.value.last == req.expected + |req.events|
            && |r.value.events| == |req.events|
            && var e := r.value.events[i];
               && Carries(e, req.events[i]) && Truncates(e.committedAt, now) && e.eventId == newId(i)
               && e.sequence == req.expected + 1 + i
               && req.expected >= 0 && Read(b, later, req.streamId, req.expected + i, 1) == Ok([e])
  {
    hide WorldInv, Append, AppendFresh, Carries, Truncates, Read, Run, FindReplay, ValidRequest, IdentityOf, Batch, Write;
    var (next, r) := Append(b, w.db, now, newId, req);
    FailureChangesNothing(b, w.db, now, newId, req);
    RequestScope(b, req);
    var digest := b.fingerprint(IdentityOf(b, req));
    AppendIsFresh(b, w.db, now, newId, req);
    FreshEffect(b, w.db, now, newId, req, digest);
    FreshCarries(b, w.db, now, newId, req, digest);
    FreshStep(b, w, now, newId, req);
    var after := Step(b, w, AppendOp(now, newId, req));
    var c := Commitment(req, now, r.value.events);
    RunKeepsInv(b, after, ops);
    assert c in after.commits;
    RecordedRead(b, Run(b, after, ops), c, i);
  }

  lemma RequestScope(b: Backend, req: AppendRequest)
    requires ValidRequest(b, req)
    ensures b.p.validId(req.streamId) && req.events != [] && req.expected >= 0
  {
  }

  lemma AppendIsFresh(b: Backend, db: Db, now: Time, newId: nat -> string, req: AppendRequest)
    requires Append(b, db, now, newId, req).0 != db
    ensures ValidRequest(b, req) && req.events != []
    ensures Append(b, db, now, newId, req) == AppendFresh(b, db, now, newId, req, b.fingerprint(IdentityOf(b, req)))
  {
    hide AppendFresh, FindReplay, ValidRequest, IdentityOf;
    FailureChangesNothing(b, db, now, newId, req);
  }
}
