/** The ledger object: the list grows in place and shrinks again when it cannot be saved. */
module AuditLedger {
  import opened Options
  import opened Audit

  class Ledger {
    const hash: Hash
    var events: seq<Event>
    var disk: seq<Event>

    constructor (hash: Hash)
      ensures this.hash == hash && events == [] && disk == []
    {
      this.hash := hash;
      events, disk := [], [];
    }

    method Append(i: Input, now: int, persisted: bool) returns (r: Result<Event, AuditError>)
      modifies this
      ensures (State(events, disk), r) == Audit.Append(hash, old(State(events, disk)), i, now, persisted)
    {
      if i.tenantId == "" || i.actorId == "" || i.action == "" {
        return Err(MissingField);
      }
      if !i.encodable {
        return Err(Unencodable);
      }
      var e := NewEvent(hash, events, i, now);
      ghost var before := events;
      events := events + [e];
      var ok := Persist(persisted);
      if !ok {
        events := events[..|events| - 1];
        assert events == before;
        return Err(PersistFailed);
      }
      return Ok(e);
    }

    method Persist(succeeds: bool) returns (ok: bool)
      modifies this`disk
      ensures ok == succeeds && disk == if succeeds then events else old(disk)
    {
      if succeeds {
        disk := events;
      }
      return succeeds;
    }

    method Verify() returns (ok: bool)
      ensures ok <==> Verified(events)
    {
      var previous := "";
      for i := 0 to |events|
        invariant previous == HashBefore(events, i)
        invariant forall k | 0 <= k < i :: EntryVerified(events, k)
      {
        if events[i].body.sequence != i + 1 || events[i].body.previousHash != previous {
          assert !EntryVerified(events, i);
          return false;
        }
        previous := events[i].contentHash;
      }
      return true;
    }
  }
}
