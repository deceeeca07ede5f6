/** The digest of an append request: requests with equal digests are the same request. */
module AppendDigest {
  import opened Options
  import opened KeyOrder
  import opened CanonicalJson
  import opened CanonicalJsonProofs
  import opened JsonObject
  import opened Envelope
  import opened EventStore
  import opened EventStoreProofs

  const EVENT_NAMES := [
    "stream_id", "event_type", "tenant_id", "workspace_id", "actor", "correlation_id", "causation_id",
    "idempotency_key", "fencing_token", "occurred_at", "classification", "payload"]
  const MESSAGE_NAMES := ["Topic", "Key", "Payload"]
  const SNAPSHOT_NAMES := ["Sequence", "Digest", "Payload"]
  const APPEND_NAMES := ["stream_id", "expected_sequence", "events", "outbox", "snapshot"]

  // ---- The document ------------------------------------------------------------------------------------

  /** The field of each name, by position. */
  function EventField(u: Uncommitted, i: nat): Field {
    match i
    case 0 => Text(u.streamId)
    case 1 => Text(u.eventType)
    case 2 => Text(u.tenantId)
    case 3 => Text(u.workspaceId)
    case 4 => ActorField(u.actor)
    case 5 => Text(u.correlationId)
    case 6 => OptionalText(u.causationId)
    case 7 => Text(u.idempotencyKey)
    case 8 => OptionalWhole(u.fencingToken)
    case 9 => Instant(Micros(u.occurredAt))
    case 10 => Text(u.classification)
    case _ => PayloadField
  }

  function EventMembers(p: Platform, u: Uncommitted, payload: Value): Members {
    seq(12, i requires 0 <= i < 12 => FieldValue(p, EventField(u, i), payload))
  }

  function PayloadOf(u: Uncommitted): Value {
    match Parse(u.payload) case Some(v) => v case None => Null
  }

  function EventValue(p: Platform, u: Uncommitted): Value {
    Obj(Build(EVENT_NAMES, EventMembers(p, u, PayloadOf(u))))
  }

  /** `encode` is the text of raw bytes. */
  function MessageValue(encode: string -> string, m: OutboxMessage): Value {
    Obj(Build(MESSAGE_NAMES, Texts([m.topic, m.key, encode(m.payload)])))
  }

  function SnapshotMembers(encode: string -> string, s: SnapshotWrite): Members {
    [Some(Num(IntText(s.sequence))), Some(Str(s.digest)), Some(Str(encode(s.payload)))]
  }

  function SnapshotValue(encode: string -> string, s: SnapshotWrite): Value {
    Obj(Build(SNAPSHOT_NAMES, SnapshotMembers(encode, s)))
  }

  /** The events of an identity, as validation leaves them. */
  predicate NormalEvent(u: Uncommitted) {
    Canonicalize(u.payload) == Some(u.payload) && NormalizeTime(u.occurredAt) == u.occurredAt
  }

  predicate NormalIdentity(id: AppendIdentity) {
    forall i | 0 <= i < |id.events| :: NormalEvent(id.events[i])
  }

  function EventValues(p: Platform, events: seq<Uncommitted>): seq<Value> {
    seq(|events|, i requires 0 <= i < |events| => EventValue(p, events[i]))
  }

  function MessageValues(encode: string -> string, outbox: seq<OutboxMessage>): seq<Value> {
    seq(|outbox|, i requires 0 <= i < |outbox| => MessageValue(encode, outbox[i]))
  }

  /** An empty outbox and a missing snapshot are left out. */
  function AppendMembers(p: Platform, encode: string -> string, id: AppendIdentity): Members {
    [Some(Str(id.streamId)), Some(Num(IntText(id.expected))), Some(Arr(EventValues(p, id.events))),
     if id.outbox == [] then None else Some(Arr(MessageValues(encode, id.outbox))),
     match id.snapshot case None => None case Some(s) => Some(SnapshotValue(encode, s))]
  }

  function AppendValue(p: Platform, encode: string -> string, id: AppendIdentity): Value {
    Obj(Build(APPEND_NAMES, AppendMembers(p, encode, id)))
  }

  function AppendText(p: Platform, encode: string -> string, id: AppendIdentity): Option<string> {
    var v := AppendValue(p, encode, id);
    if Printable(v) then Some(Print(v)) else None
  }

  // ---- Names --------------------------------------------------------------------------------------------

  lemma NamesDistinct()
    ensures Distinct(MESSAGE_NAMES) && Distinct(SNAPSHOT_NAMES) && Distinct(APPEND_NAMES)
  {
    assert |MESSAGE_NAMES[0]| == 5 && |MESSAGE_NAMES[1]| == 3 && |MESSAGE_NAMES[2]| == 7;
    assert |SNAPSHOT_NAMES[0]| == 8 && |SNAPSHOT_NAMES[1]| == 6 && |SNAPSHOT_NAMES[2]| == 7;
    assert |APPEND_NAMES[0]| == 9 && |APPEND_NAMES[1]| == 17 && |APPEND_NAMES[2]| == 6 && |APPEND_NAMES[3]| == 6
           && |APPEND_NAMES[4]| == 8 && APPEND_NAMES[2][0] == 'e' && APPEND_NAMES[3][0] == 'o';
  }

  /** Position of an event's member name, read off its length and first two letters. */
  function Place(name: string): int
    requires |name| >= 2
  {
    match |name|
    case 5 => 4
    case 7 => 11
    case 9 => if name[0] == 's' then 0 else 2
    case 10 => 1
    case 11 => 9
    case 12 => if name[0] == 'w' then 3 else 6
    case 13 => 8
    case 14 => if name[1] == 'o' then 5 else 10
    case 15 => 7
    case _ => -1
  }

  lemma EventNamesDistinct()
    ensures Distinct(EVENT_NAMES) && |EVENT_NAMES| == 12
  {
    assert forall i | 0 <= i < 12 :: |EVENT_NAMES[i]| >= 2 && Place(EVENT_NAMES[i]) == i;
  }

  // ---- Parts ----------------------------------------------------------------------------------------------

  ghost predicate EventAgrees(u: Uncommitted, v: Uncommitted, x: Value, y: Value, i: nat)
    requires WellFormed(x) && WellFormed(y)
  {
    if EventField(u, i).PayloadField? then SameJson(x, y) else EventField(u, i) == EventField(v, i)
  }

  lemma EventKinds(u: Uncommitted, v: Uncommitted, i: nat)
    ensures SameKind(EventField(u, i), EventField(v, i))
  {
  }

  lemma EventsAgree(u: Uncommitted, v: Uncommitted, x: Value, y: Value)
    requires WellFormed(x) && WellFormed(y) && forall i | 0 <= i < 12 :: EventAgrees(u, v, x, y, i)
    ensures SameJson(x, y) && Micros(u.occurredAt) == Micros(v.occurredAt)
    ensures u == v.(payload := u.payload, occurredAt := u.occurredAt)
  {
    hide SameJson, WellFormed;
    assert EventAgrees(u, v, x, y, 0) && EventAgrees(u, v, x, y, 1) && EventAgrees(u, v, x, y, 2)
           && EventAgrees(u, v, x, y, 3) && EventAgrees(u, v, x, y, 4) && EventAgrees(u, v, x, y, 5);
    assert EventAgrees(u, v, x, y, 6) && EventAgrees(u, v, x, y, 7) && EventAgrees(u, v, x, y, 8)
           && EventAgrees(u, v, x, y, 9) && EventAgrees(u, v, x, y, 10) && EventAgrees(u, v, x, y, 11);
  }

  lemma EventWritten(p: Platform, u: Uncommitted)
    requires NormalEvent(u)
    ensures WellFormed(EventValue(p, u)) && Printable(EventValue(p, u))
  {
    hide FieldValue, EventField, Build, Parse, Print;
    var x := PayloadOf(u);
    ParseWellFormed(u.payload);
    EventNamesDistinct();
    var ms := EventMembers(p, u, x);
    forall i | 0 <= i < 12 && ms[i].Some? ensures WellFormed(ms[i].value) && Printable(ms[i].value) {
      FieldFacts(p, EventField(u, i), x);
      PayloadValue(p, EventField(u, i), x);
    }
    BuildWellFormed(EVENT_NAMES, ms);
    BuildPrintable(EVENT_NAMES, ms);
  }

  /** Events are written alike only if they are equal. */
  lemma SameEvent(p: Platform, u: Uncommitted, v: Uncommitted)
    requires Sound(p) && NormalEvent(u) && NormalEvent(v)
    requires WellFormed(EventValue(p, u)) && WellFormed(EventValue(p, v)) && SameJson(EventValue(p, u), EventValue(p, v))
    ensures u == v
  {
    hide FieldValue, EventField, Build, Parse, Print, SameJson, WellFormed, Micros;
    ParseWellFormed(u.payload);
    ParseWellFormed(v.payload);
    var x, y := PayloadOf(u), PayloadOf(v);
    var a, b := EventMembers(p, u, x), EventMembers(p, v, y);
    EventNamesDistinct();
    forall i | 0 <= i < 12
      ensures (a[i].Some? ==> WellFormed(a[i].value)) && (b[i].Some? ==> WellFormed(b[i].value))
      ensures SameMember(a[i], b[i]) <==> EventAgrees(u, v, x, y, i)
    {
      EventKinds(u, v, i);
      SameFieldIff(p, EventField(u, i), EventField(v, i), x, y);
    }
    SameBuild(EVENT_NAMES, a, b);
    EventsAgree(u, v, x, y);
    CanonicalizeIffSame(u.payload, v.payload);
  }

  lemma SameMessage(encode: string -> string, m: OutboxMessage, n: OutboxMessage)
    requires Injective(encode)
    ensures WellFormed(MessageValue(encode, m)) && WellFormed(MessageValue(encode, n)) && Printable(MessageValue(encode, m))
    ensures SameJson(MessageValue(encode, m), MessageValue(encode, n)) ==> m == n
  {
    hide Build, SameJson, WellFormed, Printable;
    NamesDistinct();
    var a, b := [m.topic, m.key, encode(m.payload)], [n.topic, n.key, encode(n.payload)];
    SameTexts(MESSAGE_NAMES, a, b);
    if a == b {
      assert a[0] == b[0] && a[1] == b[1] && a[2] == b[2];
    }
  }

  lemma TextMember(x: string, y: string)
    ensures WellFormed(Str(x)) && WellFormed(Str(y)) && Printable(Str(x))
    ensures SameMember(Some(Str(x)), Some(Str(y))) <==> x == y
  {
  }

  lemma WholeMember(x: int, y: int)
    ensures WellFormed(Num(IntText(x))) && WellFormed(Num(IntText(y))) && Printable(Num(IntText(x)))
    ensures SameMember(Some(Num(IntText(x))), Some(Num(IntText(y)))) <==> x == y
  {
    hide IntText, WellFormed, Printable, SameJson;
    SameInt(x, y);
  }

  lemma SameSnapshot(encode: string -> string, s: SnapshotWrite, t: SnapshotWrite)
    requires Injective(encode)
    ensures WellFormed(SnapshotValue(encode, s)) && WellFormed(SnapshotValue(encode, t)) && Printable(SnapshotValue(encode, s))
    ensures SameJson(SnapshotValue(encode, s), SnapshotValue(encode, t)) ==> s == t
  {
    hide Build, IntText, WellFormed, Printable, SameJson, SameMember;
    NamesDistinct();
    WholeMember(s.sequence, t.sequence);
    TextMember(s.digest, t.digest);
    TextMember(encode(s.payload), encode(t.payload));
    var a, b := SnapshotMembers(encode, s), SnapshotMembers(encode, t);
    SameBuild(SNAPSHOT_NAMES, a, b);
    BuildPrintable(SNAPSHOT_NAMES, a);
    if SameJson(SnapshotValue(encode, s), SnapshotValue(encode, t)) {
      assert SameMember(a[0], b[0]) && SameMember(a[1], b[1]) && SameMember(a[2], b[2]);
    }
  }

  // ---- The whole request -----------------------------------------------------------------------------------

  lemma EventsWritten(p: Platform, events: seq<Uncommitted>)
    requires forall i | 0 <= i < |events| :: NormalEvent(events[i])
    ensures WellFormed(Arr(EventValues(p, events))) && Printable(Arr(EventValues(p, events)))
  {
    hide EventValue;
    var vs := EventValues(p, events);
    forall i | 0 <= i < |vs| ensures WellFormed(vs[i]) && Printable(vs[i]) {
      EventWritten(p, events[i]);
    }
  }

  lemma SameEvents(p: Platform, a: seq<Uncommitted>, b: seq<Uncommitted>)
    requires Sound(p) && (forall i | 0 <= i < |a| :: NormalEvent(a[i])) && (forall i | 0 <= i < |b| :: NormalEvent(b[i]))
    requires WellFormed(Arr(EventValues(p, a))) && WellFormed(Arr(EventValues(p, b)))
    requires SameJson(Arr(EventValues(p, a)), Arr(EventValues(p, b)))
    ensures a == b
  {
    hide EventValue, NormalEvent, Sound;
    var xs, ys := EventValues(p, a), EventValues(p, b);
    forall i | 0 <= i < |a| ensures a[i] == b[i] {
      assert SameJson(xs[i], ys[i]) && WellFormed(xs[i]) && WellFormed(ys[i]);
      SameEvent(p, a[i], b[i]);
    }
  }

  lemma MessagesWritten(encode: string -> string, outbox: seq<OutboxMessage>)
    requires Injective(encode)
    ensures WellFormed(Arr(MessageValues(encode, outbox))) && Printable(Arr(MessageValues(encode, outbox)))
  {
    hide MessageValue, Injective;
    var vs := MessageValues(encode, outbox);
    forall i | 0 <= i < |vs| ensures WellFormed(vs[i]) && Printable(vs[i]) {
      SameMessage(encode, outbox[i], outbox[i]);
    }
  }

  lemma SameMessages(encode: string -> string, a: seq<OutboxMessage>, b: seq<OutboxMessage>)
    requires Injective(encode)
    requires WellFormed(Arr(MessageValues(encode, a))) && WellFormed(Arr(MessageValues(encode, b)))
    requires SameJson(Arr(MessageValues(encode, a)), Arr(MessageValues(encode, b)))
    ensures a == b
  {
    hide MessageValue, Injective;
    var xs, ys := MessageValues(encode, a), MessageValues(encode, b);
    forall i | 0 <= i < |a| ensures a[i] == b[i] {
      assert SameJson(xs[i], ys[i]) && WellFormed(xs[i]) && WellFormed(ys[i]);
      SameMessage(encode, a[i], b[i]);
    }
  }

  lemma MembersWritten(p: Platform, encode: string -> string, id: AppendIdentity)
    requires NormalIdentity(id) && Injective(encode)
    ensures var ms := AppendMembers(p, encode, id);
            WellFormedMembers(ms) && forall i | 0 <= i < |ms| && ms[i].Some? :: Printable(ms[i].value)
  {
    hide EventValues, MessageValues, SnapshotValue, Injective, IntText, NormalEvent, WellFormed, Printable, SameJson;
    WholeMember(id.expected, id.expected);
    TextMember(id.streamId, id.streamId);
    EventsWritten(p, id.events);
    MessagesWritten(encode, id.outbox);
    if id.snapshot.Some? {
      SameSnapshot(encode, id.snapshot.value, id.snapshot.value);
    }
  }

  lemma SameMembersSame(p: Platform, encode: string -> string, a: AppendIdentity, b: AppendIdentity)
    requires Sound(p) && Injective(encode) && NormalIdentity(a) && NormalIdentity(b)
    requires WellFormedMembers(AppendMembers(p, encode, a)) && WellFormedMembers(AppendMembers(p, encode, b))
    requires forall i | 0 <= i < 5 :: SameMember(AppendMembers(p, encode, a)[i], AppendMembers(p, encode, b)[i])
    ensures a == b
  {
    hide EventValues, MessageValues, SnapshotValue, Injective, IntText, NormalEvent, Sound, WellFormed, SameJson;
    var ms, ns := AppendMembers(p, encode, a), AppendMembers(p, encode, b);
    assert SameMember(ms[0], ns[0]) && SameMember(ms[1], ns[1]) && SameMember(ms[2], ns[2]);
    assert SameMember(ms[3], ns[3]) && SameMember(ms[4], ns[4]);
    TextMember(a.streamId, b.streamId);
    WholeMember(a.expected, b.expected);
    SameEvents(p, a.events, b.events);
    if a.outbox != [] {
      SameMessages(encode, a.outbox, b.outbox);
    }
    if a.snapshot.Some? {
      SameSnapshot(encode, a.snapshot.value, b.snapshot.value);
    }
  }

  /** Requests can be written, and two are written alike exactly when they are the same request. */
  lemma SameAppendIff(p: Platform, encode: string -> string, a: AppendIdentity, b: AppendIdentity)
    requires Sound(p) && Injective(encode) && NormalIdentity(a) && NormalIdentity(b)
    ensures AppendText(p, encode, a).Some? && AppendText(p, encode, b).Some?
    ensures AppendText(p, encode, a) == AppendText(p, encode, b) <==> a == b
  {
    hide Build, AppendMembers, NormalIdentity, Sound, Injective, Print, SameJson, WellFormed, Printable, SameMember;
    var ms, ns := AppendMembers(p, encode, a), AppendMembers(p, encode, b);
    NamesDistinct();
    FiveMembers(p, encode, a);
    FiveMembers(p, encode, b);
    MembersWritten(p, encode, a);
    MembersWritten(p, encode, b);
    SameBuild(APPEND_NAMES, ms, ns);
    BuildPrintable(APPEND_NAMES, ms);
    BuildPrintable(APPEND_NAMES, ns);
    PrintIffSame(AppendValue(p, encode, a), AppendValue(p, encode, b));
    if AppendText(p, encode, a) == AppendText(p, encode, b) {
      SameMembersSame(p, encode, a, b);
    }
  }

  lemma FiveMembers(p: Platform, encode: string -> string, id: AppendIdentity)
    ensures |AppendMembers(p, encode, id)| == |APPEND_NAMES| == 5
  {
  }

  lemma IdentityNormal(b: Backend, req: AppendRequest)
    requires ValidRequest(b, req)
    ensures NormalIdentity(IdentityOf(b, req))
  {
    hide Canonicalize;
    forall i | 0 <= i < |req.events| ensures NormalEvent(IdentityOf(b, req).events[i]) {
      assert ValidEvent(b, req, req.events[i]);
      CanonicalizeIdempotent(req.events[i].payload);
    }
  }

  /** The adapter's digest: the hash of the canonical document. */
  ghost predicate DigestsDocument(b: Backend, encode: string -> string) {
    forall req | ValidRequest(b, req) ::
      AppendText(b.p, encode, IdentityOf(b, req)).Some? ==>
        b.fingerprint(IdentityOf(b, req)) == b.p.hash(AppendText(b.p, encode, IdentityOf(b, req)).value)
  }

  /** A store that digests the canonical document of a request tells requests apart, as long as hashes do not
      collide and timestamps and byte texts are faithful. */
  lemma DocumentDigestsFaithful(b: Backend, encode: string -> string)
    requires Sound(b.p) && Injective(encode) && DigestsDocument(b, encode)
    ensures Faithful(b)
  {
    hide ValidRequest, IdentityOf, AppendText, NormalIdentity;
    forall r, q | ValidRequest(b, r) && ValidRequest(b, q) &&
                  b.fingerprint(IdentityOf(b, r)) == b.fingerprint(IdentityOf(b, q))
      ensures IdentityOf(b, r) == IdentityOf(b, q)
    {
      IdentityNormal(b, r);
      IdentityNormal(b, q);
      SameAppendIff(b.p, encode, IdentityOf(b, r), IdentityOf(b, q));
    }
  }
}
