/** How long a lease is good for writing. */
module EventStoreLeases {
  import opened Options
  import opened Envelope
  import opened EventStore
  import opened EventStoreProofs
  import opened EventStoreRuns

  /** The stream's lease is this owner's, under this token, and ends after `t`; leases count microseconds. */
  predicate HeldAt(db: Db, at: (string, string), owner: string, token: int, t: Time) {
    && at in db.leases && db.leases[at].owner == owner && db.leases[at].token == token && token >= 1
    && t < 1000 * db.leases[at].expires
  }

  lemma MicrosBefore(t: Time, end: int)
    ensures end > Micros(t) <==> t < 1000 * end
  {
  }

  lemma HeldMeans(db: Db, at: (string, string), a: LeaseAssertion, t: Time)
    ensures LeaseHeld(db, at, a, t) <==> HeldAt(db, at, a.owner, a.token, t)
  {
    if at in db.leases {
      MicrosBefore(t, db.leases[at].expires);
    }
  }

  /** A new append in the right scope, at the right sequence, is refused for its lease exactly when it asserts one
      that is not held at that time. */
  lemma LeaseDecides(b: Backend, db: Db, t: Time, newId: nat -> string, req: AppendRequest, digest: string)
    requires req.events != [] && SequenceOf(db, req.streamId) == req.expected
    requires req.streamId in db.streams ==> db.streams[req.streamId].tenant == req.events[0].tenantId
                                            && db.streams[req.streamId].workspace == req.events[0].workspaceId
    ensures AppendFresh(b, db, t, newId, req, digest).1 == Err(LeaseLost) <==>
            req.lease.Some?
            && !HeldAt(db, (req.events[0].tenantId, req.streamId), req.lease.value.owner, req.lease.value.token, t)
  {
    hide CommitEvents, Write, SnapshotValid, LeaseHeld, HeldAt;
    if req.lease.Some? {
      HeldMeans(db, (req.events[0].tenantId, req.streamId), req.lease.value, t);
    }
  }

  /** The operation acquires, renews or releases the lease of this stream. */
  predicate Touches(op: Op, at: (string, string)) {
    match op
    case AppendOp(_, _, _) => false
    case AcquireOp(_, tenant, stream, _, _) => (tenant, stream) == at
    case RenewOp(_, grant, _) => (grant.tenant, grant.stream) == at
    case ReleaseOp(_, grant) => (grant.tenant, grant.stream) == at
  }

  lemma {:induction false} Untouched(b: Backend, w: World, ops: seq<Op>, at: (string, string))
    requires at in w.db.leases && forall i | 0 <= i < |ops| :: !Touches(ops[i], at)
    ensures at in Run(b, w, ops).db.leases && Run(b, w, ops).db.leases[at] == w.db.leases[at]
  {
    hide Append;
    if ops != [] {
      Untouched(b, w, ops[..|ops| - 1], at);
      var before, op := Run(b, w, ops[..|ops| - 1]), ops[|ops| - 1];
      if op.AppendOp? {
        AppendKeepsLeases(b, before.db, op.now, op.newId, op.req);
      }
    }
  }

  /** What a grant promises: after any operations that leave the lease alone, it is held until its end and no longer. */
  ghost predicate HeldUntil(b: Backend, w: World, g: LeaseGrant) {
    forall ops: seq<Op>, t: Time | (forall i | 0 <= i < |ops| :: !Touches(ops[i], (g.tenant, g.stream))) ::
      HeldAt(Run(b, w, ops).db, (g.tenant, g.stream), g.owner, g.token, t) <==> t < 1000 * g.expires
  }

  lemma EntryHeld(b: Backend, w: World, g: LeaseGrant)
    requires g.token >= 1 && (g.tenant, g.stream) in w.db.leases
    requires w.db.leases[(g.tenant, g.stream)] == Lease(g.owner, g.token, g.expires)
    ensures HeldUntil(b, w, g)
  {
    hide Run, Touches;
    forall ops: seq<Op>, t: Time | (forall i | 0 <= i < |ops| :: !Touches(ops[i], (g.tenant, g.stream)))
      ensures HeldAt(Run(b, w, ops).db, (g.tenant, g.stream), g.owner, g.token, t) <==> t < 1000 * g.expires
    {
      Untouched(b, w, ops, (g.tenant, g.stream));
    }
  }

  /** A lease is granted if and only if it is asked for in order and no other owner's is running; it is then held for
      exactly the time asked for, unless it is renewed, released or taken over. */
  lemma AcquiredHolds(b: Backend, w: World, now: Time, tenant: string, stream: string, owner: string, ttl: int)
    requires TokensPositive(w.db)
    ensures var (next, r) := Acquire(b, w.db, now, tenant, stream, owner, ttl);
            var at := (tenant, stream);
            var named := b.p.validId(tenant) && b.p.validId(stream) && b.p.validId(owner) && ttl >= 1;
            && (r.Ok? <==> named && !(at in w.db.leases && w.db.leases[at].owner != owner
                                      && now < 1000 * w.db.leases[at].expires))
            && (r.Err? ==> next == w.db && r == Err(if named then Busy else Invalid))
            && (r.Ok? ==>
                  && r.value.tenant == tenant && r.value.stream == stream && r.value.owner == owner
                  && r.value.token == (if at in w.db.leases then w.db.leases[at].token + 1 else 1)
                  && 1000 * r.value.expires <= now + 1000 * ttl < 1000 * r.value.expires + 1000
                  && next == w.db.(leases := next.leases) && next.leases - {at} == w.db.leases - {at}
                  && HeldUntil(b, w.(db := next), r.value))
  {
    hide HeldUntil;
    var (next, r) := Acquire(b, w.db, now, tenant, stream, owner, ttl);
    if (tenant, stream) in w.db.leases {
      MicrosBefore(now, w.db.leases[(tenant, stream)].expires);
    }
    if r.Ok? {
      EntryHeld(b, w.(db := next), r.value);
    }
  }

  /** A grant is renewed if and only if it is still held, and is then held for the time asked for from now on, under
      its old token. */
  lemma RenewedHolds(b: Backend, w: World, now: Time, g: LeaseGrant, ttl: int)
    ensures var (next, r) := Renew(b, w.db, now, g, ttl);
            var named := b.p.validId(g.tenant) && b.p.validId(g.stream) && b.p.validId(g.owner) && ttl >= 1 && g.token >= 1;
            && (r.Ok? <==> named && HeldAt(w.db, (g.tenant, g.stream), g.owner, g.token, now))
            && (r.Err? ==> next == w.db && r == Err(if named then Lost else Invalid))
            && (r.Ok? ==>
                  && r.value == g.(expires := r.value.expires)
                  && 1000 * r.value.expires <= now + 1000 * ttl < 1000 * r.value.expires + 1000
                  && next == w.db.(leases := next.leases)
                  && next.leases - {(g.tenant, g.stream)} == w.db.leases - {(g.tenant, g.stream)}
                  && HeldUntil(b, w.(db := next), r.value))
  {
    hide HeldUntil;
    var (next, r) := Renew(b, w.db, now, g, ttl);
    if (g.tenant, g.stream) in w.db.leases {
      MicrosBefore(now, w.db.leases[(g.tenant, g.stream)].expires);
    }
    if r.Ok? {
      EntryHeld(b, w.(db := next), r.value);
    }
  }

  /** A grant is released if and only if it is still held; then it ends at once, and its token is not used again. */
  lemma ReleasedEnds(b: Backend, w: World, now: Time, g: LeaseGrant)
    ensures var (next, e) := Release(b, w.db, now, g);
            var named := b.p.validId(g.tenant) && b.p.validId(g.stream) && !b.blank(g.owner) && g.token >= 1;
            && (e.None? <==> named && HeldAt(w.db, (g.tenant, g.stream), g.owner, g.token, now))
            && (e.Some? ==> next == w.db && e == Some(if named then Lost else Invalid))
            && (e.None? ==>
                  && next == w.db.(leases := next.leases)
                  && next.leases - {(g.tenant, g.stream)} == w.db.leases - {(g.tenant, g.stream)}
                  && Token(next, (g.tenant, g.stream)) == g.token && HeldUntil(b, w.(db := next), g.(expires := 0)))
  {
    hide HeldUntil;
    var (next, e) := Release(b, w.db, now, g);
    if (g.tenant, g.stream) in w.db.leases {
      MicrosBefore(now, w.db.leases[(g.tenant, g.stream)].expires);
    }
    if e.None? {
      EntryHeld(b, w.(db := next), g.(expires := 0));
    }
  }
}
