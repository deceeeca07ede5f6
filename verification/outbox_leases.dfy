/** How long a claim on an outbox event protects it, and which events a worker is given. */
module OutboxLeases {
  import opened Options
  import opened Outbox

  // ---- Claims -----------------------------------------------------------------------------------------

  /** A claim holds for exactly the time asked for: until then nobody else gets the event under its key, and from
      then on the next caller does. */
  lemma ClaimHolds(
    events: seq<Event>, key: string, intent: Intent, owner: string, ttl: int, now: int, other: string, ttl': int, t: int)
    requires EnqueueAndClaim(events, key, intent, owner, ttl, now).1.Ok?
    requires EnqueueAndClaim(events, key, intent, owner, ttl, now).1.value.1 && other != "" && ttl' > 0
    ensures var (after, r) := EnqueueAndClaim(events, key, intent, owner, ttl, now);
            var i := r.value.0;
            && i < |after| && after[i].key == key && after[i].intent == intent
            && (t < now + ttl ==> EnqueueAndClaim(after, key, intent, other, ttl', t) == (after, Err(LeaseBusy)))
            && (t >= now + ttl ==> EnqueueAndClaim(after, key, intent, other, ttl', t).1 == Ok((i, true)))
            && Recovered(after, t)[i].state.Pending? == (t >= now + ttl)
  {
    var (after, r) := EnqueueAndClaim(events, key, intent, owner, ttl, now);
    var i := r.value.0;
    match Find(events, key) {
      case None =>
        assert forall k | 0 <= k < |events| :: events[k] in events;
        FindFirst(after, key, i);
      case Some(j) =>
        SameFind(events, after, key);
    }
  }

  /** Finding by key does not depend on the states. */
  lemma {:induction false} SameFind(a: seq<Event>, b: seq<Event>, key: string)
    requires |a| == |b| && forall k | 0 <= k < |a| :: a[k].key == b[k].key
    ensures Find(a, key) == Find(b, key)
  {
    if a != [] {
      SameFind(a[..|a| - 1], b[..|b| - 1], key);
    }
  }

  /** Under a key that is known, another intent is refused, and a published one is reported as done. */
  lemma KnownKey(events: seq<Event>, key: string, intent: Intent, owner: string, ttl: int, now: int, i: nat)
    requires DistinctKeys(events) && i < |events| && events[i].key == key && key != "" && owner != "" && ttl > 0
    ensures var (after, r) := EnqueueAndClaim(events, key, intent, owner, ttl, now);
            && |after| == |events|
            && (events[i].intent != intent ==> r == Err(Conflict) && after == events)
            && (events[i].intent == intent && events[i].state == Published ==> r == Ok((i, false)) && after == events)
            && (events[i].intent == intent && events[i].state.Pending? ==>
                  if now >= events[i].state.nextAttempt then r == Ok((i, true)) else r == Err(LeaseBusy) && after == events)
  {
    FindFirst(events, key, i);
  }

  // ---- What a worker is given ---------------------------------------------------------------------------

  lemma {:induction false} DueComplete(events: seq<Event>, now: int, limit: nat, i: nat, k: nat)
    requires i <= k < |events| && events[k].state.Pending? && events[k].state.nextAttempt <= now
    ensures var r := DueFrom(events, now, limit, i);
            k in r || (|r| == limit && forall j | 0 <= j < |r| :: r[j] < k)
    decreases |events| - i
  {
    if limit > 0 && i < k {
      DueComplete(events, now, if Due(events[i], now) then limit - 1 else limit, i + 1, k);
    }
  }

  /** How many events a claim asks for: what it says, if that is between one and a hundred, or ten. */
  lemma Asked(limit: int)
    ensures Limit(limit) == if 1 <= limit <= 100 then limit else 10
  {
  }

  /** Only a call without a key, an owner or a time is refused as such, and then nothing changes. */
  lemma RefusedIff(events: seq<Event>, key: string, intent: Intent, owner: string, ttl: int, now: int)
    ensures var (after, r) := EnqueueAndClaim(events, key, intent, owner, ttl, now);
            && (r == Err(InvalidArgument) <==> key == "" || owner == "" || ttl <= 0)
            && (r.Err? ==> after == events)
  {
  }

  /** A worker is given pending events whose time has come, in order, as many as it asks for. It is given every such
      event unless it already has that many earlier ones. Each is its own until the time asked for has passed, and no
      other event changes. */
  lemma ClaimGives(events: seq<Event>, owner: string, limit: int, ttl: int, now: int, k: nat)
    requires k < |events|
    ensures var (after, r) := Claim(events, owner, limit, ttl, now);
            && (r.Ok? <==> owner != "" && ttl > 0) && (r.Err? ==> after == events && r == Err(InvalidArgument))
            && (r.Ok? ==>
                  var asked := if 1 <= limit <= 100 then limit else 10;
                  && |r.value| <= asked && |after| == |events|
                  && (forall a, b | 0 <= a < b < |r.value| :: r.value[a] < r.value[b])
                  && (k in r.value ==>
                        && events[k].state.Pending? && events[k].state.nextAttempt <= now
                        && after[k] == events[k].(state := Processing(owner, now + ttl)))
                  && (k !in r.value ==> after[k] == events[k])
                  && (events[k].state.Pending? && events[k].state.nextAttempt <= now && k !in r.value ==>
                        |r.value| == asked && forall a | 0 <= a < |r.value| :: r.value[a] < k))
  {
    hide DueFrom;
    Asked(limit);
    if events[k].state.Pending? && events[k].state.nextAttempt <= now {
      DueComplete(events, now, Limit(limit), 0, k);
    }
  }

  /** An event is settled only by the owner of its claim: acknowledged for good, or pending from the given time. */
  lemma Settling(events: seq<Event>, i: nat, owner: string, retryAt: int)
    requires i < |events|
    ensures var mine := events[i].state.Processing? && events[i].state.owner == owner;
            var (acked, e) := Ack(events, i, owner);
            var (back, f) := Nack(events, i, owner, retryAt);
            && (e.None? <==> mine || events[i].state == Published) && (f.None? <==> mine)
            && acked == (if mine then events[i := Event(events[i].key, events[i].intent, Published)] else events)
            && back == (if mine then events[i := Event(events[i].key, events[i].intent, Pending(retryAt))] else events)
  {
  }
}
