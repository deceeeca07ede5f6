/** The append-only audit ledger with a hash chain. */
module Audit {
  import opened Options

  /** What the content hash covers. */
  datatype Body = Body(
    sequence: int, tenantId: string, workspaceId: string, actorType: string, actorId: string, action: string,
    correlationId: string, payload: string, previousHash: string, createdAt: int)

  datatype Event = Event(body: Body, contentHash: string)

  /** What a caller hands in; `encodable` says whether the payload can be encoded. */
  datatype Input = Input(
    tenantId: string, workspaceId: string, actorType: string, actorId: string, action: string,
    correlationId: string, payload: string, previousHash: string, encodable: bool)

  datatype AuditError = MissingField | Unencodable | PersistFailed | Broken

  /** The digest of the encoded body. */
  type Hash = Body -> string

  datatype State = State(events: seq<Event>, disk: seq<Event>)

  const EMPTY := State([], [])

  /** Only a first event keeps the previous hash its caller gave. */
  function Link(events: seq<Event>, given: string): string {
    if events == [] then given else events[|events| - 1].contentHash
  }

  function NewEvent(hash: Hash, events: seq<Event>, i: Input, now: int): Event {
    var body := Body(|events| + 1, i.tenantId, i.workspaceId, i.actorType, i.actorId, i.action, i.correlationId,
                     i.payload, Link(events, i.previousHash), now);
    Event(body, hash(body))
  }

  function Append(hash: Hash, s: State, i: Input, now: int, persisted: bool): (State, Result<Event, AuditError>) {
    if i.tenantId == "" || i.actorId == "" || i.action == "" then (s, Err(MissingField))
    else if !i.encodable then (s, Err(Unencodable))
    else
      var e := NewEvent(hash, s.events, i, now);
      if persisted then (State(s.events + [e], s.events + [e]), Ok(e)) else (s, Err(PersistFailed))
  }

  /** Sequence numbers count up from one and every previous hash is the content hash before it, the
      first one being empty. */
  predicate Verified(events: seq<Event>) {
    forall i | 0 <= i < |events| :: EntryVerified(events, i)
  }

  predicate EntryVerified(events: seq<Event>, i: nat)
    requires i < |events|
  {
    events[i].body.sequence == i + 1 && events[i].body.previousHash == HashBefore(events, i)
  }

  function HashBefore(events: seq<Event>, i: nat): string
    requires i <= |events|
  {
    if i == 0 then "" else events[i - 1].contentHash
  }

  /** Opening a ledger reads the file back and verifies it. */
  function Reopen(s: State): Result<State, AuditError> {
    if Verified(s.disk) then Ok(State(s.disk, s.disk)) else Err(Broken)
  }

  // ---- Runs ------------------------------------------------------------------------------

  datatype Call = Call(input: Input, now: int, persisted: bool)

  function Run(hash: Hash, s: State, calls: seq<Call>): State {
    if calls == [] then s
    else
      var c := calls[|calls| - 1];
      Append(hash, Run(hash, s, calls[..|calls| - 1]), c.input, c.now, c.persisted).0
  }

  /** Every event is numbered, hashed and, from the second on, linked to the one before. */
  predicate Chained(hash: Hash, events: seq<Event>) {
    forall i | 0 <= i < |events| ::
      && events[i].body.sequence == i + 1 && events[i].contentHash == hash(events[i].body)
      && (i > 0 ==> events[i].body.previousHash == events[i - 1].contentHash)
  }

  predicate Inv(hash: Hash, s: State) {
    s.events == s.disk && Chained(hash, s.events)
  }

  lemma AppendKeepsInv(hash: Hash, s: State, c: Call)
    requires Inv(hash, s)
    ensures var (t, r) := Append(hash, s, c.input, c.now, c.persisted);
            Inv(hash, t) && t.events == if r.Ok? then s.events + [r.value] else s.events
  {
  }

  /** After every sequence of appends, failed persists included, memory equals disk and forms a chain. */
  lemma {:induction false} RunKeepsInv(hash: Hash, calls: seq<Call>)
    ensures Inv(hash, Run(hash, EMPTY, calls))
  {
    hide Append, Inv;
    if calls != [] {
      RunKeepsInv(hash, calls[..|calls| - 1]);
      AppendKeepsInv(hash, Run(hash, EMPTY, calls[..|calls| - 1]), calls[|calls| - 1]);
    } else {
      EmptyInv(hash);
    }
  }

  lemma EmptyInv(hash: Hash)
    ensures Inv(hash, EMPTY)
  {
  }

  /** The call is kept: it names its tenant, actor and action, can be encoded, and is saved. */
  predicate Kept(c: Call) {
    && c.input.tenantId != "" && c.input.actorId != "" && c.input.action != ""
    && c.input.encodable && c.persisted
  }

  /** The first call that is kept. */
  function FirstKept(calls: seq<Call>): Option<Call> {
    if calls == [] then None
    else if FirstKept(calls[..|calls| - 1]).Some? then FirstKept(calls[..|calls| - 1])
    else if Kept(calls[|calls| - 1]) then Some(calls[|calls| - 1])
    else None
  }

  /** The ledger starts with the first call that is kept, under the previous hash that call gave. */
  lemma {:induction false} FirstEvent(hash: Hash, calls: seq<Call>)
    ensures var events := Run(hash, EMPTY, calls).events;
            && (events == [] <==> FirstKept(calls).None?)
            && (events != [] ==> events[0].body.previousHash == FirstKept(calls).value.input.previousHash)
  {
    if calls != [] {
      FirstEvent(hash, calls[..|calls| - 1]);
    }
  }

  /** The calls that are kept, in order. */
  function KeptCalls(calls: seq<Call>): seq<Call> {
    if calls == [] then []
    else
      var init, last := KeptCalls(calls[..|calls| - 1]), calls[|calls| - 1];
      if Kept(last) then init + [last] else init
  }

  /** The event is this call's: what the caller said, at the time of the call, under the next number. */
  predicate Records(e: Event, c: Call, number: int) {
    && e.body.sequence == number && e.body.createdAt == c.now && e.body.tenantId == c.input.tenantId
    && e.body.workspaceId == c.input.workspaceId && e.body.actorType == c.input.actorType
    && e.body.actorId == c.input.actorId && e.body.action == c.input.action
    && e.body.correlationId == c.input.correlationId && e.body.payload == c.input.payload
  }

  /** A call is answered with its own event exactly when it is kept. */
  lemma AppendAnswers(hash: Hash, s: State, c: Call)
    requires Inv(hash, s)
    ensures var (t, r) := Append(hash, s, c.input, c.now, c.persisted);
            && (r.Ok? <==> Kept(c)) && (!Kept(c) ==> t == s)
            && (Kept(c) ==> Records(r.value, c, |s.events| + 1) && t == State(s.events + [r.value], s.events + [r.value]))
  {
  }

  /** After every sequence of appends the ledger holds exactly the calls that were kept, in order, each with what its
      caller said. */
  lemma {:induction false} LedgerIsKeptCalls(hash: Hash, calls: seq<Call>)
    ensures var events, kept := Run(hash, EMPTY, calls).events, KeptCalls(calls);
            |events| == |kept| && forall i | 0 <= i < |kept| :: Records(events[i], kept[i], i + 1)
  {
    hide Append, Records, Kept, Inv;
    if calls != [] {
      LedgerIsKeptCalls(hash, calls[..|calls| - 1]);
      RunKeepsInv(hash, calls[..|calls| - 1]);
      AppendAnswers(hash, Run(hash, EMPTY, calls[..|calls| - 1]), calls[|calls| - 1]);
    }
  }

  lemma VerifiedIff(hash: Hash, events: seq<Event>)
    requires Chained(hash, events)
    ensures Verified(events) <==> events == [] || events[0].body.previousHash == ""
  {
    if events != [] {
      assert EntryVerified(events, 0) <==> events[0].body.previousHash == "";
    }
  }

  /** A run of appends verifies, and reopens unchanged, if and only if no call was kept or the first call
      that was kept gave an empty previous hash; otherwise it does not reopen at all. */
  lemma RunVerifies(hash: Hash, calls: seq<Call>)
    ensures var s := Run(hash, EMPTY, calls);
            var sound := FirstKept(calls).None? || FirstKept(calls).value.input.previousHash == "";
            && (Verified(s.events) <==> sound)
            && Reopen(s) == if sound then Ok(s) else Err(Broken)
  {
    hide Run, FirstKept, Verified, Chained;
    RunKeepsInv(hash, calls);
    FirstEvent(hash, calls);
    VerifiedIff(hash, Run(hash, EMPTY, calls).events);
  }

  lemma {:induction false} FirstKeptStays(c: Call, more: seq<Call>)
    requires Kept(c)
    ensures FirstKept([c] + more) == Some(c)
  {
    if more == [] {
      assert [c] + more == [c];
    } else {
      FirstKeptStays(c, more[..|more| - 1]);
      assert ([c] + more)[..|more|] == [c] + more[..|more| - 1];
    }
  }

  /** One kept append with a previous hash of its own spoils the ledger: whatever is appended after it, the
      ledger neither verifies nor reopens. */
  lemma ForeignFirstHashNeverVerifies(hash: Hash, c: Call, more: seq<Call>)
    requires Kept(c) && c.input.previousHash != ""
    ensures var s := Run(hash, EMPTY, [c] + more); !Verified(s.events) && Reopen(s) == Err(Broken)
  {
    hide Run, Verified;
    FirstKeptStays(c, more);
    RunVerifies(hash, [c] + more);
  }

  // ---- Which edited files reopen ------------------------------------------------------------

  lemma EditedEntry(events: seq<Event>, i: nat, e: Event, k: nat)
    requires Verified(events) && i < |events| && k < |events|
    ensures EntryVerified(events[i := e], k) <==>
            if k == i then e.body.sequence == i + 1 && e.body.previousHash == events[i].body.previousHash
            else k == i + 1 ==> e.contentHash == events[i].contentHash
  {
    assert EntryVerified(events, k) && EntryVerified(events, i);
  }

  /** Verification does not recompute content hashes. A file whose entry `i` was replaced is accepted if and
      only if the replacement keeps its number, its link to the entry before and, unless it is the last entry,
      the content hash that the entry after it names; everything else about it may change. */
  lemma EditAcceptedIff(events: seq<Event>, i: nat, e: Event)
    requires Verified(events) && i < |events|
    ensures Verified(events[i := e]) <==>
            && e.body.sequence == i + 1 && e.body.previousHash == events[i].body.previousHash
            && (i + 1 < |events| ==> e.contentHash == events[i].contentHash)
  {
    hide EntryVerified;
    var edited := events[i := e];
    forall k | 0 <= k < |events|
      ensures EntryVerified(edited, k) <==>
              if k == i then e.body.sequence == i + 1 && e.body.previousHash == events[i].body.previousHash
              else k == i + 1 ==> e.contentHash == events[i].contentHash
    {
      EditedEntry(events, i, e, k);
    }
    if Verified(edited) {
      assert EntryVerified(edited, i);
      assert i + 1 < |events| ==> EntryVerified(edited, i + 1);
    }
  }

  /** A file is accepted after any number of entries were cut off its end. */
  lemma TruncationAccepted(events: seq<Event>, n: nat)
    requires Verified(events) && n <= |events|
    ensures Verified(events[..n]) && Reopen(State(events, events[..n])) == Ok(State(events[..n], events[..n]))
  {
    forall k | 0 <= k < n ensures EntryVerified(events[..n], k) {
      assert EntryVerified(events, k);
    }
  }

  lemma ChainedEnd(hash: Hash, events: seq<Event>)
    requires Chained(hash, events) && events != []
    ensures Chained(hash, events[..|events| - 1])
    ensures var last := events[|events| - 1];
            && last.body.sequence == |events| && last.contentHash == hash(last.body)
            && (|events| > 1 ==> last.body.previousHash == events[|events| - 2].contentHash)
  {
  }

  lemma {:induction false} LastHashFixes(hash: Hash, a: seq<Event>, b: seq<Event>)
    requires Injective(hash) && Chained(hash, a) && Chained(hash, b) && a != [] && b != []
    requires a[|a| - 1].contentHash == b[|b| - 1].contentHash
    ensures a == b
    decreases |a|
  {
    hide Chained;
    ChainedEnd(hash, a);
    ChainedEnd(hash, b);
    assert a[|a| - 1].body == b[|b| - 1].body;
    assert |a| == |b| && a[|a| - 1] == b[|b| - 1];
    if |a| > 1 {
      LastHashFixes(hash, a[..|a| - 1], b[..|b| - 1]);
    }
    assert a == a[..|a| - 1] + [a[|a| - 1]] && b == b[..|b| - 1] + [b[|b| - 1]];
  }

  /** Two ledgers filled by any appends whose last content hashes agree hold the same history. */
  lemma LastHashFixesHistory(hash: Hash, one: seq<Call>, two: seq<Call>)
    requires Injective(hash)
    requires var (a, b) := (Run(hash, EMPTY, one).events, Run(hash, EMPTY, two).events);
             a != [] && b != [] && a[|a| - 1].contentHash == b[|b| - 1].contentHash
    ensures Run(hash, EMPTY, one).events == Run(hash, EMPTY, two).events
  {
    hide Run;
    RunKeepsInv(hash, one);
    RunKeepsInv(hash, two);
    LastHashFixes(hash, Run(hash, EMPTY, one).events, Run(hash, EMPTY, two).events);
  }
}
