/** The durable event envelope of core/event: commit, verification and the digest that links events. */
module Envelope {
  import opened Options
  import opened Decimal
  import opened NumberSyntax
  import opened CanonicalNumber
  import opened CanonicalJson
  import opened CanonicalJsonProofs
  import opened KeyOrder
  import opened JsonObject

  const SCHEMA_VERSION := 1

  /** Nanoseconds since Go's zero time, 1 January of year 1 UTC. */
  type Time = int

  datatype Identity = Identity(name: string, version: string, hashAlgorithm: string, hashVersion: string)

  const CURRENT := Identity("json-canonical", "v1", "sha-256", "v1")

  datatype Actor = Actor(kind: string, id: string)

  datatype Envelope = Envelope(
    streamId: string, sequence: int, eventId: string, eventType: string, schemaVersion: int,
    tenantId: string, workspaceId: string, actor: Actor, correlationId: string, causationId: string,
    idempotencyKey: string, fencingToken: int, occurredAt: Time, committedAt: Time,
    classification: string, payload: string, payloadDigest: string, previousDigest: string,
    envelopeDigest: string, encoding: Identity)

  datatype Uncommitted = Uncommitted(
    streamId: string, eventType: string, tenantId: string, workspaceId: string, actor: Actor,
    correlationId: string, causationId: string, idempotencyKey: string, fencingToken: int,
    occurredAt: Time, classification: string, payload: string)

  datatype CommitMetadata = CommitMetadata(sequence: int, eventId: string, committedAt: Time, previousDigest: string)

  datatype Error = BadPayload | InvalidField | PayloadDigestMismatch | EnvelopeDigestMismatch

  /** What the model takes from outside: the hexadecimal SHA-256 of a text, the rendering of a
      microsecond count as a timestamp, and the syntax of identifiers. */
  datatype Platform = Platform(hash: string -> string, stamp: int -> string, validId: string -> bool)

  /** The assumption of the digest theorems: no two texts collide and timestamps are faithful. */
  ghost predicate Sound(p: Platform) {
    Injective(p.hash) && Injective(p.stamp)
  }

  // ---- Integers as JSON numbers ---------------------------------------------

  function IntText(n: int): string {
    if n < 0 then "-" + NatText(-n) else NatText(n)
  }

  lemma {:induction false} NatTextSpec(n: nat)
    ensures ValidInteger(NatText(n)) && Nat(NatText(n)) == n
    ensures n > 0 ==> NatText(n)[0] != '0'
  {
    if n < 10 {
      assert NatText(n)[..0] == "";
    } else {
      NatTextSpec(n / 10);
      assert NatText(n)[..|NatText(n)| - 1] == NatText(n / 10);
    }
  }

  lemma IntTextSpec(n: int)
    ensures Accepted(IntText(n)) && NumberValue(IntText(n)) == n as real
  {
    hide Canonical, ScanNumber, NatText, ValidInteger, Spell, PartsValue;
    var m := if n < 0 then -n else n;
    NatTextSpec(m);
    var p := Parts(n < 0, NatText(m), "", 'e', "");
    WholeSpelled(n < 0, NatText(m));
    SpellIsNumber(p);
    WholeValue(n < 0, NatText(m));
    AcceptedExactly(IntText(n));
  }

  lemma WholeSpelled(neg: bool, digits: string)
    requires ValidInteger(digits)
    ensures ValidParts(Parts(neg, digits, "", 'e', ""))
    ensures Spell(Parts(neg, digits, "", 'e', "")) == if neg then "-" + digits else digits
  {
    assert digits + "" + "" == digits && "" + digits == digits;
  }

  lemma WholeValue(neg: bool, digits: string)
    requires ValidInteger(digits)
    ensures ValidParts(Parts(neg, digits, "", 'e', ""))
    ensures PartsValue(Parts(neg, digits, "", 'e', "")) == if neg then -(Nat(digits) as real) else Nat(digits) as real
  {
    hide PartsValue, Nat, ValidInteger;
    var p := Parts(neg, digits, "", 'e', "");
    WholeSpelled(neg, digits);
    PartsMagnitude(p);
    assert digits + "" == digits;
  }

  // ---- The digest -----------------------------------------------------------

  function Micros(t: Time): int {
    t / 1000
  }

  function NormalizeTime(t: Time): Time {
    Micros(t) * 1000
  }

  const ACTOR_NAMES := ["type", "id"]

  function ActorValue(a: Actor): Value {
    Obj(Build(ACTOR_NAMES, [Some(Str(a.kind)), Some(Str(a.id))]))
  }

  const IDENTITY_NAMES := ["name", "version", "hash_algorithm", "hash_version"]

  function IdentityValue(i: Identity): Value {
    Obj(Build(IDENTITY_NAMES,
              [Some(Str(i.name)), Some(Str(i.version)), Some(Str(i.hashAlgorithm)), Some(Str(i.hashVersion))]))
  }

  const DIGEST_NAMES := [
    "stream_id", "sequence", "event_id", "event_type", "schema_version", "tenant_id", "workspace_id", "actor",
    "correlation_id", "causation_id", "idempotency_key", "fencing_token", "occurred_at", "committed_at",
    "classification", "payload", "payload_digest", "previous_digest", "encoding"]

  /** The kinds of digested member; the last two text and number kinds are dropped when empty. */
  datatype Field =
    | Text(s: string)
    | Whole(n: int)
    | OptionalText(s: string)
    | OptionalWhole(n: int)
    | Instant(micros: int)
    | ActorField(actor: Actor)
    | IdentityField(identity: Identity)
    | PayloadField

  /** The field of each name, by position. */
  function FieldOf(e: Envelope, i: nat): Field {
    match i
    case 0 => Text(e.streamId)
    case 1 => Whole(e.sequence)
    case 2 => Text(e.eventId)
    case 3 => Text(e.eventType)
    case 4 => Whole(e.schemaVersion)
    case 5 => Text(e.tenantId)
    case 6 => Text(e.workspaceId)
    case 7 => ActorField(e.actor)
    case 8 => Text(e.correlationId)
    case 9 => OptionalText(e.causationId)
    case 10 => OptionalText(e.idempotencyKey)
    case 11 => OptionalWhole(e.fencingToken)
    case 12 => Instant(Micros(e.occurredAt))
    case 13 => Instant(Micros(e.committedAt))
    case 14 => Text(e.classification)
    case 15 => PayloadField
    case 16 => Text(e.payloadDigest)
    case 17 => OptionalText(e.previousDigest)
    case _ => IdentityField(e.encoding)
  }

  function FieldValue(p: Platform, field: Field, payload: Value): Option<Value> {
    match field
    case Text(s) => Some(Str(s))
    case Whole(n) => Some(Num(IntText(n)))
    case OptionalText(s) => if s == "" then None else Some(Str(s))
    case OptionalWhole(n) => if n == 0 then None else Some(Num(IntText(n)))
    case Instant(micros) => Some(Str(p.stamp(micros)))
    case ActorField(a) => Some(ActorValue(a))
    case IdentityField(i) => Some(IdentityValue(i))
    case PayloadField => Some(payload)
  }

  function DigestMembers(p: Platform, e: Envelope, payload: Value): Members {
    seq(19, i requires 0 <= i < 19 => FieldValue(p, FieldOf(e, i), payload))
  }

  /** The document that is digested. */
  function DigestValue(p: Platform, e: Envelope, payload: Value): Value {
    Obj(Build(DIGEST_NAMES, DigestMembers(p, e, payload)))
  }

  function DigestRaw(p: Platform, raw: string): Option<string> {
    match Canonicalize(raw)
    case None => None
    case Some(text) => Some(p.hash(text))
  }

  function Digest(p: Platform, e: Envelope): Option<string> {
    match Parse(e.payload)
    case None => None
    case Some(payload) =>
      var v := DigestValue(p, e, payload);
      if Printable(v) then Some(p.hash(Print(v))) else None
  }

  // ---- Commit and verify ----------------------------------------------------

  predicate RequiredPresent(p: Platform, e: Envelope) {
    && p.validId(e.streamId) && p.validId(e.eventId) && p.validId(e.tenantId)
    && p.validId(e.workspaceId) && p.validId(e.actor.id)
    && e.sequence >= 1 && e.eventType != "" && e.correlationId != ""
    && e.actor.kind != "" && e.actor.id != "" && e.classification != ""
    && e.schemaVersion == SCHEMA_VERSION && e.encoding == CURRENT
    && e.occurredAt != 0 && e.committedAt != 0
  }

  function Commit(p: Platform, u: Uncommitted, m: CommitMetadata): Result<Envelope, Error> {
    match Canonicalize(u.payload)
    case None => Err(BadPayload)
    case Some(payload) =>
      var e := Envelope(
        u.streamId, m.sequence, m.eventId, u.eventType, SCHEMA_VERSION, u.tenantId, u.workspaceId, u.actor,
        u.correlationId, u.causationId, u.idempotencyKey, u.fencingToken, NormalizeTime(u.occurredAt),
        NormalizeTime(m.committedAt), u.classification, payload, "", m.previousDigest, "", CURRENT);
      if !RequiredPresent(p, e) then Err(InvalidField)
      else
        match DigestRaw(p, payload)
        case None => Err(BadPayload)
        case Some(payloadDigest) =>
          var digested := e.(payloadDigest := payloadDigest);
          match Digest(p, digested)
          case None => Err(BadPayload)
          case Some(digest) => Ok(digested.(envelopeDigest := digest))
  }

  /** None when the envelope verifies. */
  function Verify(p: Platform, e: Envelope): Option<Error> {
    if !RequiredPresent(p, e) then Some(InvalidField)
    else
      match DigestRaw(p, e.payload)
      case None => Some(BadPayload)
      case Some(payloadDigest) =>
        if payloadDigest != e.payloadDigest then Some(PayloadDigestMismatch)
        else
          match Digest(p, e)
          case None => Some(BadPayload)
          case Some(digest) => if digest != e.envelopeDigest then Some(EnvelopeDigestMismatch) else None
  }

  // ---- What the digest identifies -------------------------------------------

  /** Agreement on everything the digest covers: payloads as documents, times to the microsecond. */
  ghost predicate SameFields(e: Envelope, f: Envelope, v: Value, w: Value)
    requires WellFormed(v) && WellFormed(w)
  {
    && SameJson(v, w)
    && Micros(e.occurredAt) == Micros(f.occurredAt)
    && Micros(e.committedAt) == Micros(f.committedAt)
    && e == f.(payload := e.payload, occurredAt := e.occurredAt, committedAt := e.committedAt,
               envelopeDigest := e.envelopeDigest)
  }

  /** Position of a member name, read off its length and first two letters. */
  function Rank(name: string): int
    requires |name| >= 2
  {
    match |name|
    case 5 => 7
    case 7 => 15
    case 8 => if name[0] == 's' then 1 else if name[1] == 'v' then 2 else 18
    case 9 => if name[0] == 's' then 0 else 5
    case 10 => 3
    case 11 => 12
    case 12 => if name[0] == 'w' then 6 else if name[1] == 'a' then 9 else 13
    case 13 => 11
    case 14 => if name[0] == 's' then 4 else if name[0] == 'p' then 16 else if name[1] == 'o' then 8 else 14
    case 15 => if name[0] == 'i' then 10 else 17
    case _ => -1
  }

  lemma DigestNamesDistinct()
    ensures Distinct(DIGEST_NAMES) && |DIGEST_NAMES| == 19
  {
    assert forall i | 0 <= i < 19 :: |DIGEST_NAMES[i]| >= 2 && Rank(DIGEST_NAMES[i]) == i;
  }

  lemma ActorWellFormed(a: Actor, b: Actor)
    ensures WellFormed(ActorValue(a)) && WellFormed(ActorValue(b)) && Printable(ActorValue(a))
    ensures SameJson(ActorValue(a), ActorValue(b)) <==> a == b
  {
    hide Build, SameJson, WellFormed;
    ActorNamesDistinct();
    SameTexts(ACTOR_NAMES, [a.kind, a.id], [b.kind, b.id]);
    assert Texts([a.kind, a.id]) == [Some(Str(a.kind)), Some(Str(a.id))];
    assert Texts([b.kind, b.id]) == [Some(Str(b.kind)), Some(Str(b.id))];
  }

  lemma IdentityWellFormed(i: Identity, j: Identity)
    ensures WellFormed(IdentityValue(i)) && WellFormed(IdentityValue(j)) && Printable(IdentityValue(i))
    ensures SameJson(IdentityValue(i), IdentityValue(j)) <==> i == j
  {
    hide Build, SameJson, WellFormed;
    IdentityNamesDistinct();
    SameTexts(IDENTITY_NAMES, [i.name, i.version, i.hashAlgorithm, i.hashVersion],
              [j.name, j.version, j.hashAlgorithm, j.hashVersion]);
    assert Texts([i.name, i.version, i.hashAlgorithm, i.hashVersion]) ==
           [Some(Str(i.name)), Some(Str(i.version)), Some(Str(i.hashAlgorithm)), Some(Str(i.hashVersion))];
    assert Texts([j.name, j.version, j.hashAlgorithm, j.hashVersion]) ==
           [Some(Str(j.name)), Some(Str(j.version)), Some(Str(j.hashAlgorithm)), Some(Str(j.hashVersion))];
  }

  lemma IdentityNamesDistinct()
    ensures Distinct(IDENTITY_NAMES)
  {
    assert |IDENTITY_NAMES[0]| == 4 && |IDENTITY_NAMES[1]| == 7 && |IDENTITY_NAMES[2]| == 14;
    assert |IDENTITY_NAMES[3]| == 12;
  }

  lemma ActorNamesDistinct()
    ensures Distinct(ACTOR_NAMES)
  {
    assert |ACTOR_NAMES[0]| == 4 && |ACTOR_NAMES[1]| == 2;
  }

  function Texts(ts: seq<string>): Members {
    seq(|ts|, i requires 0 <= i < |ts| => Some(Str(ts[i])))
  }

  /** Objects of plain texts under the same names are the same JSON exactly when the texts are equal. */
  lemma SameTexts(names: seq<string>, a: seq<string>, b: seq<string>)
    requires Distinct(names) && |names| == |a| == |b|
    ensures WellFormed(Obj(Build(names, Texts(a)))) && WellFormed(Obj(Build(names, Texts(b))))
    ensures Printable(Obj(Build(names, Texts(a))))
    ensures SameJson(Obj(Build(names, Texts(a))), Obj(Build(names, Texts(b)))) <==> a == b
  {
    hide Build, Distinct;
    SameBuild(names, Texts(a), Texts(b));
    BuildPrintable(names, Texts(a));
    assert forall i | 0 <= i < |a| :: SameMember(Texts(a)[i], Texts(b)[i]) <==> a[i] == b[i];
  }

  lemma SameInt(a: int, b: int)
    ensures WellFormed(Num(IntText(a))) && WellFormed(Num(IntText(b))) && Printable(Num(IntText(a)))
    ensures SameJson(Num(IntText(a)), Num(IntText(b))) <==> a == b
  {
    hide IntText, IsNumber;
    IntTextSpec(a);
    IntTextSpec(b);
  }

  lemma FieldFacts(p: Platform, field: Field, payload: Value)
    ensures var m := FieldValue(p, field, payload);
            m.Some? && !field.PayloadField? ==> WellFormed(m.value) && Printable(m.value)
  {
    hide IntText, IsNumber, Canonical, ActorValue, IdentityValue, Build;
    match field
    case Whole(n) => SameInt(n, n);
    case OptionalWhole(n) => SameInt(n, n);
    case ActorField(a) => ActorWellFormed(a, a);
    case IdentityField(i) => IdentityWellFormed(i, i);
    case _ =>
  }

  lemma MembersFacts(p: Platform, e: Envelope, payload: Value)
    ensures WellFormed(payload) ==> WellFormedMembers(DigestMembers(p, e, payload))
    ensures Printable(DigestValue(p, e, payload)) <==> Printable(payload)
  {
    hide FieldOf, Build, Printable, WellFormed, FieldValue;
    var ms := DigestMembers(p, e, payload);
    forall i | 0 <= i < 19
      ensures ms[i].Some? ==> ms[i].value == payload || (WellFormed(ms[i].value) && Printable(ms[i].value))
    {
      FieldFacts(p, FieldOf(e, i), payload);
      PayloadValue(p, FieldOf(e, i), payload);
    }
    PayloadAt15(e);
    PayloadValue(p, FieldOf(e, 15), payload);
    assert ms[15] == Some(payload);
    DigestNamesDistinct();
    BuildPrintable(DIGEST_NAMES, ms);
  }

  lemma PayloadValue(p: Platform, field: Field, payload: Value)
    ensures field.PayloadField? ==> FieldValue(p, field, payload) == Some(payload)
  {
  }

  lemma PayloadAt15(e: Envelope)
    ensures FieldOf(e, 15).PayloadField?
  {
  }

  predicate SameKind(x: Field, y: Field) {
    && x.Text? == y.Text? && x.Whole? == y.Whole? && x.OptionalText? == y.OptionalText?
    && x.OptionalWhole? == y.OptionalWhole? && x.Instant? == y.Instant? && x.ActorField? == y.ActorField?
    && x.IdentityField? == y.IdentityField? && x.PayloadField? == y.PayloadField?
  }

  /** Fields of one kind are written alike exactly when they are equal. */
  lemma SameFieldIff(p: Platform, x: Field, y: Field, v: Value, w: Value)
    requires Sound(p) && SameKind(x, y) && WellFormed(v) && WellFormed(w)
    ensures var a, b := FieldValue(p, x, v), FieldValue(p, y, w);
            && (a.Some? ==> WellFormed(a.value)) && (b.Some? ==> WellFormed(b.value))
            && (SameMember(a, b) <==> if x.PayloadField? then SameJson(v, w) else x == y)
  {
    hide IntText, IsNumber, ActorValue, IdentityValue, Build;
    match x
    case Whole(n) => SameInt(n, y.n);
    case OptionalWhole(n) => SameInt(n, y.n);
    case ActorField(a) => ActorWellFormed(a, y.actor);
    case IdentityField(i) => IdentityWellFormed(i, y.identity);
    case _ =>
  }

  lemma SameMembersIff(p: Platform, e: Envelope, f: Envelope, v: Value, w: Value)
    requires Sound(p) && WellFormed(v) && WellFormed(w)
    ensures var a, b := DigestMembers(p, e, v), DigestMembers(p, f, w);
            WellFormedMembers(a) && WellFormedMembers(b) && |a| == |b| == 19
            && ((forall i | 0 <= i < 19 :: SameMember(a[i], b[i])) <==> SameFields(e, f, v, w))
  {
    hide FieldOf, FieldValue, SameMember, WellFormed, SameFields;
    var a, b := DigestMembers(p, e, v), DigestMembers(p, f, w);
    forall i | 0 <= i < 19
      ensures (a[i].Some? ==> WellFormed(a[i].value)) && (b[i].Some? ==> WellFormed(b[i].value))
      ensures SameMember(a[i], b[i]) <==> FieldAgrees(e, f, v, w, i)
    {
      KindByPosition(e, f, i);
      SameFieldIff(p, FieldOf(e, i), FieldOf(f, i), v, w);
    }
    FieldsAgree(e, f, v, w);
  }

  lemma KindByPosition(e: Envelope, f: Envelope, i: nat)
    ensures SameKind(FieldOf(e, i), FieldOf(f, i))
  {
  }

  ghost predicate FieldAgrees(e: Envelope, f: Envelope, v: Value, w: Value, i: nat)
    requires WellFormed(v) && WellFormed(w)
  {
    if FieldOf(e, i).PayloadField? then SameJson(v, w) else FieldOf(e, i) == FieldOf(f, i)
  }

  lemma FieldsAgree(e: Envelope, f: Envelope, v: Value, w: Value)
    requires WellFormed(v) && WellFormed(w)
    ensures (forall i | 0 <= i < 19 :: FieldAgrees(e, f, v, w, i)) <==> SameFields(e, f, v, w)
  {
    hide SameJson, WellFormed;
    if forall i | 0 <= i < 19 :: FieldAgrees(e, f, v, w, i) {
      FirstFields(e, f, v, w);
      LastFields(e, f, v, w);
    }
  }

  lemma FirstFields(e: Envelope, f: Envelope, v: Value, w: Value)
    requires WellFormed(v) && WellFormed(w) && forall i | 0 <= i < 19 :: FieldAgrees(e, f, v, w, i)
    ensures e.streamId == f.streamId && e.sequence == f.sequence && e.eventId == f.eventId
    ensures e.eventType == f.eventType && e.schemaVersion == f.schemaVersion && e.tenantId == f.tenantId
    ensures e.workspaceId == f.workspaceId && e.actor == f.actor && e.correlationId == f.correlationId
  {
    hide SameJson, WellFormed;
    assert FieldAgrees(e, f, v, w, 0) && FieldAgrees(e, f, v, w, 1) && FieldAgrees(e, f, v, w, 2)
           && FieldAgrees(e, f, v, w, 3) && FieldAgrees(e, f, v, w, 4) && FieldAgrees(e, f, v, w, 5)
           && FieldAgrees(e, f, v, w, 6) && FieldAgrees(e, f, v, w, 7) && FieldAgrees(e, f, v, w, 8);
  }

  lemma LastFields(e: Envelope, f: Envelope, v: Value, w: Value)
    requires WellFormed(v) && WellFormed(w) && forall i | 0 <= i < 19 :: FieldAgrees(e, f, v, w, i)
    ensures e.causationId == f.causationId && e.idempotencyKey == f.idempotencyKey
    ensures e.fencingToken == f.fencingToken && Micros(e.occurredAt) == Micros(f.occurredAt)
    ensures Micros(e.committedAt) == Micros(f.committedAt) && e.classification == f.classification
    ensures SameJson(v, w) && e.payloadDigest == f.payloadDigest && e.previousDigest == f.previousDigest
    ensures e.encoding == f.encoding
  {
    hide SameJson, WellFormed;
    assert FieldAgrees(e, f, v, w, 9) && FieldAgrees(e, f, v, w, 10) && FieldAgrees(e, f, v, w, 11)
           && FieldAgrees(e, f, v, w, 12) && FieldAgrees(e, f, v, w, 13) && FieldAgrees(e, f, v, w, 14)
           && FieldAgrees(e, f, v, w, 15) && FieldAgrees(e, f, v, w, 16) && FieldAgrees(e, f, v, w, 17)
           && FieldAgrees(e, f, v, w, 18);
  }

  /** Two digestible envelopes have equal digests exactly when they agree on everything digested. */
  lemma DigestIffSame(p: Platform, e: Envelope, f: Envelope)
    requires Sound(p) && Digest(p, e).Some? && Digest(p, f).Some?
    ensures WellFormed(Parse(e.payload).value) && WellFormed(Parse(f.payload).value)
    ensures Digest(p, e) == Digest(p, f) <==> SameFields(e, f, Parse(e.payload).value, Parse(f.payload).value)
  {
    hide Parse, Print, SameFields, DigestMembers, Build;
    ParseWellFormed(e.payload);
    ParseWellFormed(f.payload);
    var v, w := Parse(e.payload).value, Parse(f.payload).value;
    SameMembersIff(p, e, f, v, w);
    DigestNamesDistinct();
    SameBuild(DIGEST_NAMES, DigestMembers(p, e, v), DigestMembers(p, f, w));
    PrintIffSame(DigestValue(p, e, v), DigestValue(p, f, w));
  }

  // ---- Commit, verify, chain ------------------------------------------------

  /** The payload text is already canonical and the times are whole microseconds, as commit leaves them. */
  ghost predicate Canonicalized(e: Envelope) {
    && Canonicalize(e.payload) == Some(e.payload)
    && NormalizeTime(e.occurredAt) == e.occurredAt && NormalizeTime(e.committedAt) == e.committedAt
  }

  /** `t` is `full` without what is below a microsecond. */
  predicate Truncates(t: Time, full: Time) {
    t % 1000 == 0 && t <= full < t + 1000
  }

  /** The two texts hold the same document. */
  ghost predicate SamePayload(a: string, b: string) {
    && Parse(a).Some? && Parse(b).Some? && WellFormed(Parse(a).value) && WellFormed(Parse(b).value)
    && SameJson(Parse(a).value, Parse(b).value)
  }

  /** The envelope is about the event the caller handed in: every field of it, times to the microsecond and the
      payload as a document. */
  ghost predicate Carries(e: Envelope, u: Uncommitted) {
    && e.streamId == u.streamId && e.eventType == u.eventType && e.tenantId == u.tenantId
    && e.workspaceId == u.workspaceId && e.actor == u.actor && e.correlationId == u.correlationId
    && e.causationId == u.causationId && e.idempotencyKey == u.idempotencyKey && e.fencingToken == u.fencingToken
    && e.classification == u.classification && Truncates(e.occurredAt, u.occurredAt) && SamePayload(e.payload, u.payload)
  }

  /** What commit returns always verifies, carries its inputs, and is canonical. */
  lemma CommitVerifies(p: Platform, u: Uncommitted, m: CommitMetadata)
    requires Commit(p, u, m).Ok?
    ensures var e := Commit(p, u, m).value;
            && Verify(p, e) == None && Canonicalized(e) && Carries(e, u)
            && e.sequence == m.sequence && e.previousDigest == m.previousDigest && e.eventId == m.eventId
            && Truncates(e.committedAt, m.committedAt) && e.schemaVersion == 1
            && e.encoding == Identity("json-canonical", "v1", "sha-256", "v1")
  {
    hide Parse, Print, DigestMembers, Build;
    CanonicalizeIdempotent(u.payload);
    CanonicalizeIffSame(Canonicalize(u.payload).value, u.payload);
    var e := Commit(p, u, m).value;
    DigestIgnoresItself(p, e, "");
  }

  lemma DigestIgnoresItself(p: Platform, e: Envelope, other: string)
    ensures Digest(p, e.(envelopeDigest := other)) == Digest(p, e)
  {
    hide Parse, Print, FieldOf, FieldValue, Build;
    var f := e.(envelopeDigest := other);
    forall i: nat ensures FieldOf(f, i) == FieldOf(e, i) {
      FieldIgnoresDigest(e, other, i);
    }
    forall payload ensures DigestMembers(p, f, payload) == DigestMembers(p, e, payload) {
    }
  }

  lemma FieldIgnoresDigest(e: Envelope, other: string, i: nat)
    ensures FieldOf(e.(envelopeDigest := other), i) == FieldOf(e, i)
  {
  }

  /** The payload is JSON, the identifiers are valid and every required field is there. */
  predicate CanCommit(p: Platform, u: Uncommitted, sequence: int, eventId: string, committedAt: Time) {
    && Canonicalize(u.payload).Some?
    && p.validId(u.streamId) && p.validId(eventId) && p.validId(u.tenantId)
    && p.validId(u.workspaceId) && p.validId(u.actor.id)
    && sequence >= 1 && u.eventType != "" && u.correlationId != "" && u.actor.kind != ""
    && u.actor.id != "" && u.classification != ""
    && Micros(u.occurredAt) != 0 && Micros(committedAt) != 0
  }

  /** Commit succeeds exactly when the payload canonicalises and the normalised envelope is complete. */
  lemma CommitSucceedsIff(p: Platform, u: Uncommitted, m: CommitMetadata)
    ensures Commit(p, u, m).Ok? <==> CanCommit(p, u, m.sequence, m.eventId, m.committedAt)
  {
    hide Parse, Print, DigestMembers, Build;
    if Canonicalize(u.payload).Some? {
      CanonicalizeIdempotent(u.payload);
      var text := Canonicalize(u.payload).value;
      forall e: Envelope | e.payload == text ensures Digest(p, e).Some? {
        MembersFacts(p, e, Parse(text).value);
      }
    }
  }

  /** A verified stream: sequences count up from one and each event names its predecessor's digest. */
  ghost predicate Chain(p: Platform, es: seq<Envelope>) {
    forall i | 0 <= i < |es| ::
      && Verify(p, es[i]) == None
      && es[i].sequence == i + 1
      && es[i].previousDigest == Predecessor(es, i)
  }

  function Predecessor(es: seq<Envelope>, i: nat): string
    requires i < |es|
  {
    if i == 0 then "" else es[i - 1].envelopeDigest
  }

  function Head(es: seq<Envelope>): string {
    if es == [] then "" else es[|es| - 1].envelopeDigest
  }

  ghost predicate Equivalent(e: Envelope, f: Envelope) {
    && Parse(e.payload).Some? && Parse(f.payload).Some?
    && WellFormed(Parse(e.payload).value) && WellFormed(Parse(f.payload).value)
    && SameFields(e, f, Parse(e.payload).value, Parse(f.payload).value)
    && e.envelopeDigest == f.envelopeDigest
  }

  lemma VerifiedDigest(p: Platform, e: Envelope)
    requires Verify(p, e) == None
    ensures Digest(p, e) == Some(e.envelopeDigest) && e.sequence >= 1
  {
  }

  lemma SameDigestEquivalent(p: Platform, e: Envelope, f: Envelope)
    requires Sound(p) && Verify(p, e) == None && Verify(p, f) == None && e.envelopeDigest == f.envelopeDigest
    ensures Equivalent(e, f)
  {
    hide Digest, SameFields;
    VerifiedDigest(p, e);
    VerifiedDigest(p, f);
    DigestIffSame(p, e, f);
    DigestParses(p, e);
    DigestParses(p, f);
  }

  lemma DigestParses(p: Platform, e: Envelope)
    requires Digest(p, e).Some?
    ensures Parse(e.payload).Some?
  {
  }

  lemma EquivalentFields(e: Envelope, f: Envelope)
    requires Equivalent(e, f)
    ensures e.sequence == f.sequence && e.previousDigest == f.previousDigest
  {
  }

  lemma ChainPrefix(p: Platform, es: seq<Envelope>, n: nat)
    requires Chain(p, es) && n <= |es|
    ensures Chain(p, es[..n])
  {
    hide Verify;
    assert forall i | 0 <= i < n :: es[..n][i] == es[i] && Predecessor(es[..n], i) == Predecessor(es, i);
  }

  lemma {:induction false} SameTail(p: Platform, a: seq<Envelope>, b: seq<Envelope>)
    requires Sound(p) && Chain(p, a) && Chain(p, b) && |a| == |b| && Head(a) == Head(b)
    ensures forall i | 0 <= i < |a| :: Equivalent(a[i], b[i])
  {
    hide Verify, Equivalent, Chain, Sound;
    if a != [] {
      var n := |a| - 1;
      ChainAt(p, a, n);
      ChainAt(p, b, n);
      SameDigestEquivalent(p, a[n], b[n]);
      EquivalentFields(a[n], b[n]);
      ChainPrefix(p, a, n);
      ChainPrefix(p, b, n);
      SameTail(p, a[..n], b[..n]);
      assert forall i | 0 <= i < n :: a[..n][i] == a[i] && b[..n][i] == b[i];
    }
  }

  lemma ChainAt(p: Platform, es: seq<Envelope>, i: nat)
    requires Chain(p, es) && i < |es|
    ensures Verify(p, es[i]) == None && es[i].sequence == i + 1 && es[i].previousDigest == Predecessor(es, i)
  {
    hide Verify;
  }

  /** The head digest of a non-empty verified stream fixes its whole history. */
  lemma HeadFixesHistory(p: Platform, a: seq<Envelope>, b: seq<Envelope>)
    requires Sound(p) && Chain(p, a) && Chain(p, b) && a != [] && b != [] && Head(a) == Head(b)
    ensures |a| == |b| && forall i | 0 <= i < |a| :: Equivalent(a[i], b[i])
  {
    hide Verify, Equivalent, Chain, Sound;
    ChainAt(p, a, |a| - 1);
    ChainAt(p, b, |b| - 1);
    SameDigestEquivalent(p, a[|a| - 1], b[|b| - 1]);
    EquivalentFields(a[|a| - 1], b[|b| - 1]);
    SameTail(p, a, b);
  }

  /** Between canonical envelopes, equivalence is plain equality. */
  lemma EquivalentCanonicalEqual(e: Envelope, f: Envelope)
    requires Equivalent(e, f) && Canonicalized(e) && Canonicalized(f)
    ensures e == f
  {
    hide Parse;
    CanonicalizeIffSame(e.payload, f.payload);
  }

  /** Committed history is fixed exactly, byte for byte, by the head digest. */
  lemma HeadFixesCommittedHistory(p: Platform, a: seq<Envelope>, b: seq<Envelope>)
    requires Sound(p) && Chain(p, a) && Chain(p, b) && a != [] && b != [] && Head(a) == Head(b)
    requires forall i | 0 <= i < |a| :: Canonicalized(a[i])
    requires forall i | 0 <= i < |b| :: Canonicalized(b[i])
    ensures a == b
  {
    hide Verify, Equivalent, Canonicalized, Chain, Sound;
    HeadFixesHistory(p, a, b);
    forall i | 0 <= i < |a| ensures a[i] == b[i] {
      EquivalentCanonicalEqual(a[i], b[i]);
    }
  }

  // ---- Verifying is committing again --------------------------------------------------------------

  function ContentOf(e: Envelope): Uncommitted {
    Uncommitted(e.streamId, e.eventType, e.tenantId, e.workspaceId, e.actor, e.correlationId, e.causationId,
                e.idempotencyKey, e.fencingToken, e.occurredAt, e.classification, e.payload)
  }

  function MetadataOf(e: Envelope): CommitMetadata {
    CommitMetadata(e.sequence, e.eventId, e.committedAt, e.previousDigest)
  }

  function CanonicalForm(e: Envelope): Envelope
    requires Canonicalize(e.payload).Some?
  {
    e.(payload := Canonicalize(e.payload).value, occurredAt := NormalizeTime(e.occurredAt),
       committedAt := NormalizeTime(e.committedAt))
  }

  lemma SameForm(p: Platform, e: Envelope)
    requires Sound(p) && Canonicalize(e.payload).Some?
    ensures Digest(p, e).Some? && Digest(p, CanonicalForm(e)) == Digest(p, e)
    ensures DigestRaw(p, CanonicalForm(e).payload) == DigestRaw(p, e.payload)
  {
    hide Parse, Print, DigestMembers, Build, SameJson;
    CanonicalizeIdempotent(e.payload);
    CanonicalizeIffSame(CanonicalForm(e).payload, e.payload);
    Digestible(p, e);
    Digestible(p, CanonicalForm(e));
    DigestIffSame(p, CanonicalForm(e), e);
  }

  lemma Digestible(p: Platform, e: Envelope)
    requires Canonicalize(e.payload).Some?
    ensures Digest(p, e).Some?
  {
    hide Parse, Print, DigestMembers, Build;
    MembersFacts(p, e, Parse(e.payload).value);
  }

  /** An envelope whose times are not below the first microsecond verifies if and only if committing its content under
      its metadata gives it again, in canonical form: the same fields, payload digest and envelope digest. */
  lemma VerifiesIffCommits(p: Platform, e: Envelope)
    requires Sound(p)
    ensures Verify(p, e) == None && Micros(e.occurredAt) != 0 && Micros(e.committedAt) != 0 <==>
            Canonicalize(e.payload).Some? && Commit(p, ContentOf(e), MetadataOf(e)) == Ok(CanonicalForm(e))
  {
    hide Digest, Canonicalize;
    if Canonicalize(e.payload).Some? {
      SameForm(p, e);
      DigestIgnoresItself(p, CanonicalForm(e), "");
    }
  }
}
