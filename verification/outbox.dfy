/** The durable outbox of a harness session: an append-only list of effects, each pending, claimed
    under a lease, or published. An event's identifier is its position. */
module Outbox {
  import opened Options

  datatype Intent = Intent(
    pipeline: string, expectedVersion: int, stage: int, workItem: string, continuation: bool, body: string)

  datatype State = Pending(nextAttempt: int) | Processing(owner: string, until: int) | Published

  datatype Event = Event(key: string, intent: Intent, state: State)

  datatype OutboxError = Conflict | LeaseBusy | LeaseLost | NotFound | InvalidArgument

  /** The position of the event with this key. */
  function Find(events: seq<Event>, key: string): (r: Option<nat>)
    ensures r.Some? ==> r.value < |events| && events[r.value].key == key
    ensures r.None? <==> forall e | e in events :: e.key != key
  {
    if events == [] then None
    else
      match Find(events[..|events| - 1], key)
      case Some(i) => Some(i)
      case None => if events[|events| - 1].key == key then Some(|events| - 1) else None
  }

  predicate Claimable(state: State, now: int) {
    match state
    case Pending(nextAttempt) => nextAttempt <= now
    case Processing(_, until) => until <= now
    case Published => false
  }

  /** Records the effect once per key and claims it for `owner`. The result is the event and whether
      this call owns the claim. */
  function EnqueueAndClaim(events: seq<Event>, key: string, intent: Intent, owner: string, ttl: int, now: int):
    (seq<Event>, Result<(nat, bool), OutboxError>)
  {
    if key == "" || owner == "" || ttl <= 0 then (events, Err(InvalidArgument))
    else
      match Find(events, key)
      case None => (events + [Event(key, intent, Processing(owner, now + ttl))], Ok((|events|, true)))
      case Some(i) =>
        if events[i].intent != intent then (events, Err(Conflict))
        else if events[i].state == Published then (events, Ok((i, false)))
        else if !Claimable(events[i].state, now) then (events, Err(LeaseBusy))
        else (events[i := events[i].(state := Processing(owner, now + ttl))], Ok((i, true)))
  }

  predicate Due(e: Event, now: int) {
    e.state.Pending? && e.state.nextAttempt <= now
  }

  /** The first `limit` due events from position `i` on. */
  function DueFrom(events: seq<Event>, now: int, limit: nat, i: nat): (r: seq<nat>)
    requires i <= |events|
    ensures |r| <= limit
    ensures forall k | 0 <= k < |r| :: i <= r[k] < |events| && Due(events[r[k]], now)
    ensures forall k, l | 0 <= k < l < |r| :: r[k] < r[l]
    decreases |events| - i
  {
    if i == |events| || limit == 0 then []
    else if Due(events[i], now) then [i] + DueFrom(events, now, limit - 1, i + 1)
    else DueFrom(events, now, limit, i + 1)
  }

  function Limit(limit: int): nat {
    if limit <= 0 || limit > 100 then 10 else limit
  }

  /** `events` with exactly the listed positions claimed. */
  function Claimed(events: seq<Event>, chosen: seq<nat>, owner: string, until: int): (r: seq<Event>)
    ensures |r| == |events|
    ensures forall k | 0 <= k < |r| ::
              r[k] == if k in chosen then events[k].(state := Processing(owner, until)) else events[k]
  {
    seq(|events|, k requires 0 <= k < |events| =>
      if k in chosen then events[k].(state := Processing(owner, until)) else events[k])
  }

  function Claim(events: seq<Event>, owner: string, limit: int, ttl: int, now: int):
    (seq<Event>, Result<seq<nat>, OutboxError>)
  {
    if owner == "" || ttl <= 0 then (events, Err(InvalidArgument))
    else
      var chosen := DueFrom(events, now, Limit(limit), 0);
      (Claimed(events, chosen, owner, now + ttl), Ok(chosen))
  }

  /** Acknowledges by owner; the lease may have expired as long as nobody else has taken the event. */
  function Ack(events: seq<Event>, i: nat, owner: string): (seq<Event>, Option<OutboxError>) {
    if i >= |events| then (events, Some(NotFound))
    else if events[i].state == Published then (events, None)
    else if !events[i].state.Processing? || events[i].state.owner != owner then (events, Some(LeaseLost))
    else (events[i := events[i].(state := Published)], None)
  }

  function Nack(events: seq<Event>, i: nat, owner: string, retryAt: int): (seq<Event>, Option<OutboxError>) {
    if i >= |events| then (events, Some(NotFound))
    else if !events[i].state.Processing? || events[i].state.owner != owner then (events, Some(LeaseLost))
    else (events[i := events[i].(state := Pending(retryAt))], None)
  }

  predicate Expired(e: Event, now: int) {
    e.state.Processing? && e.state.until <= now
  }

  /** Expired claims become pending again. */
  function Recovered(events: seq<Event>, now: int): (r: seq<Event>)
    ensures |r| == |events|
    ensures forall k | 0 <= k < |r| :: r[k] == if Expired(events[k], now) then events[k].(state := Pending(now)) else events[k]
  {
    seq(|events|, k requires 0 <= k < |events| =>
      if Expired(events[k], now) then events[k].(state := Pending(now)) else events[k])
  }

  // ---- What every operation keeps --------------------------------------------

  predicate DistinctKeys(events: seq<Event>) {
    forall i, j | 0 <= i < j < |events| :: events[i].key != events[j].key
  }

  /** Events are never removed or rewritten, only their state moves, and a published event stays so. */
  predicate Grows(before: seq<Event>, after: seq<Event>) {
    && |before| <= |after|
    && forall i | 0 <= i < |before| ::
         && after[i].key == before[i].key && after[i].intent == before[i].intent
         && (before[i].state == Published ==> after[i].state == Published)
  }

  lemma {:induction false} FindFirst(events: seq<Event>, key: string, i: nat)
    requires i < |events| && events[i].key == key && forall k | 0 <= k < i :: events[k].key != key
    ensures Find(events, key) == Some(i)
    decreases |events|
  {
    var init := events[..|events| - 1];
    if i < |init| {
      FindFirst(init, key, i);
    } else {
      assert forall e | e in init :: e.key != key;
    }
  }

  lemma EnqueueGrows(events: seq<Event>, key: string, intent: Intent, owner: string, ttl: int, now: int)
    requires DistinctKeys(events)
    ensures var after := EnqueueAndClaim(events, key, intent, owner, ttl, now).0; Grows(events, after) && DistinctKeys(after)
  {
    if Find(events, key).None? {
      forall j | 0 <= j < |events| ensures events[j].key != key {
        assert events[j] in events;
      }
    }
  }

  lemma SameKeys(before: seq<Event>, after: seq<Event>)
    requires DistinctKeys(before) && Grows(before, after) && |before| == |after|
    ensures DistinctKeys(after)
  {
  }

  lemma ClaimGrows(events: seq<Event>, owner: string, limit: int, ttl: int, now: int)
    requires DistinctKeys(events)
    ensures var after := Claim(events, owner, limit, ttl, now).0; Grows(events, after) && DistinctKeys(after)
  {
    var after := Claim(events, owner, limit, ttl, now).0;
    assert Grows(events, after);
    SameKeys(events, after);
  }

  lemma SettleGrows(events: seq<Event>, owner: string, i: nat, retryAt: int)
    requires DistinctKeys(events)
    ensures var after := Ack(events, i, owner).0; Grows(events, after) && DistinctKeys(after)
    ensures var after := Nack(events, i, owner, retryAt).0; Grows(events, after) && DistinctKeys(after)
  {
    SameKeys(events, Ack(events, i, owner).0);
    SameKeys(events, Nack(events, i, owner, retryAt).0);
  }

  lemma RecoverGrows(events: seq<Event>, now: int)
    requires DistinctKeys(events)
    ensures Grows(events, Recovered(events, now)) && DistinctKeys(Recovered(events, now))
  {
    SameKeys(events, Recovered(events, now));
  }
}
