/** The outbox as the harness keeps it: one list, updated in place under a lock. */
module OutboxStore {
  import opened Options
  import opened Outbox

  /** The scan has reached position `i`: these items and copies are what the first `i` events give. */
  ghost predicate Scanned(
    events: seq<Event>, now: int, n: nat, owner: string, until: int, i: nat, items: seq<nat>, working: seq<Event>)
  {
    && i <= |events| == |working| && |items| <= n && (forall k | 0 <= k < |items| :: items[k] < i)
    && DueFrom(events, now, n, 0) == items + DueFrom(events, now, n - |items|, i)
    && working == Claimed(events, items, owner, until)
  }

  lemma ScanStarts(events: seq<Event>, now: int, n: nat, owner: string, until: int)
    ensures Scanned(events, now, n, owner, until, 0, [], events)
  {
    assert [] + DueFrom(events, now, n, 0) == DueFrom(events, now, n, 0);
  }

  lemma ScanSkips(
    events: seq<Event>, now: int, n: nat, owner: string, until: int, i: nat, items: seq<nat>, working: seq<Event>)
    requires Scanned(events, now, n, owner, until, i, items, working) && i < |events|
    ensures working[i] == events[i]
    ensures |items| == n || !Due(events[i], now) ==> Scanned(events, now, n, owner, until, i + 1, items, working)
  {
  }

  lemma ScanTakes(
    events: seq<Event>, now: int, n: nat, owner: string, until: int, i: nat, items: seq<nat>, working: seq<Event>)
    requires Scanned(events, now, n, owner, until, i, items, working) && i < |events| && |items| < n && Due(events[i], now)
    ensures Scanned(events, now, n, owner, until, i + 1, items + [i], working[i := events[i].(state := Processing(owner, until))])
  {
    var rest := DueFrom(events, now, n - |items| - 1, i + 1);
    assert items + ([i] + rest) == items + [i] + rest;
    assert working[i := events[i].(state := Processing(owner, until))] == Claimed(events, items + [i], owner, until);
  }

  lemma ScanEnds(
    events: seq<Event>, now: int, n: nat, owner: string, until: int, items: seq<nat>, working: seq<Event>)
    requires Scanned(events, now, n, owner, until, |events|, items, working)
    ensures items == DueFrom(events, now, n, 0) && working == Claimed(events, items, owner, until)
    ensures items == [] ==> working == events
  {
    assert items + [] == items;
  }

  /** The scan for due events, claiming each as it is met. */
  method TakeDue(events: seq<Event>, owner: string, n: nat, until: int, now: int)
    returns (items: seq<nat>, working: seq<Event>)
    ensures items == DueFrom(events, now, n, 0) && working == Claimed(events, items, owner, until)
    ensures items == [] ==> working == events
  {
    hide Scanned;
    items, working := [], events;
    ScanStarts(events, now, n, owner, until);
    for i := 0 to |events|
      invariant |items| <= n && |working| == |events| && Scanned(events, now, n, owner, until, i, items, working)
    {
      ScanSkips(events, now, n, owner, until, i, items, working);
      if |items| != n && working[i].state.Pending? && working[i].state.nextAttempt <= now {
        ScanTakes(events, now, n, owner, until, i, items, working);
        working := working[i := working[i].(state := Processing(owner, until))];
        items := items + [i];
      }
    }
    ScanEnds(events, now, n, owner, until, items, working);
  }

  /** The class holds the list in place; each method is one locked section. `persist` says whether the
      write to disk succeeds: when it does not, the list is put back. */
  class Store {
    var events: seq<Event>

    constructor ()
      ensures events == []
    {
      events := [];
    }

    method EnqueueAndClaim(key: string, intent: Intent, owner: string, ttl: int, now: int, persist: bool)
      returns (r: Option<Result<(nat, bool), OutboxError>>)
      modifies this
      ensures persist ==>
                (events, r) == (Outbox.EnqueueAndClaim(old(events), key, intent, owner, ttl, now).0,
                                Some(Outbox.EnqueueAndClaim(old(events), key, intent, owner, ttl, now).1))
      ensures !persist ==> events == old(events)
    {
      if key == "" || owner == "" || ttl <= 0 {
        return Some(Err(InvalidArgument));
      }
      var i := 0;
      while i < |events|
        invariant 0 <= i <= |events| && events == old(events)
        invariant forall k | 0 <= k < i :: events[k].key != key
      {
        if events[i].key == key {
          FindFirst(events, key, i);
          if events[i].intent != intent {
            return Some(Err(Conflict));
          }
          if events[i].state == Published {
            return Some(Ok((i, false)));
          }
          if !Claimable(events[i].state, now) {
            return Some(Err(LeaseBusy));
          }
          if !persist {
            return None;
          }
          events := events[i := events[i].(state := Processing(owner, now + ttl))];
          return Some(Ok((i, true)));
        }
        i := i + 1;
      }
      if !persist {
        return None;
      }
      var n := |events|;
      events := events + [Event(key, intent, Processing(owner, now + ttl))];
      return Some(Ok((n, true)));
    }

    method Claim(owner: string, limit: int, ttl: int, now: int, persist: bool)
      returns (r: Option<Result<seq<nat>, OutboxError>>)
      modifies this
      ensures persist ==>
                events == Outbox.Claim(old(events), owner, limit, ttl, now).0
                && r == Some(Outbox.Claim(old(events), owner, limit, ttl, now).1)
      ensures !persist ==> events == old(events)
    {
      if owner == "" || ttl <= 0 {
        return Some(Err(InvalidArgument));
      }
      var items, working := TakeDue(events, owner, Limit(limit), now + ttl, now);
      if |items| != 0 {
        if !persist {
          return None;
        }
        events := working;
      }
      return Some(Ok(items));
    }

    method Recover(now: int, persist: bool)
      modifies this
      ensures events == if persist then Recovered(old(events), now) else old(events)
    {
      var working := events;
      for i := 0 to |events|
        invariant |working| == |events|
        invariant forall k | 0 <= k < |events| :: working[k] == if k < i then Recovered(events, now)[k] else events[k]
      {
        if working[i].state.Processing? && working[i].state.until <= now {
          working := working[i := working[i].(state := Pending(now))];
        }
      }
      assert working == Recovered(events, now);
      if persist {
        events := working;
      }
    }
  }
}
