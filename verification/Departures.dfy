/** Members that are evicted or leave, and sessions that are left or closed: who is out stays out. */
module Departures {
  import opened Protocol
  import opened Capabilities
  import opened Sessions
  import opened SessionCache
  import opened HostLogs

  /** The step takes the member `p`, who is not the host, out of a hosted session: by eviction, or by its own leave. */
  predicate Expels(self: PeerId, id: SessionId, c: Cell, op: Op, p: PeerId) {
    && (op.RemoveMember? || op.Leave?) && op.peer == p
    && HostedHere(c) && p != c.mem.value.host && Perform(self, id, c, op).reply == Ok
  }

  /** Afterwards `p` is not a member in memory, nor in the record if it was one before, and nobody else is gone. */
  lemma ExpelledIsOut(self: PeerId, id: SessionId, c: Cell, op: Op, p: PeerId)
    requires Expels(self, id, c, op, p)
    ensures var d := Perform(self, id, c, op).cell;
            && d.mem == Some(c.mem.value.(members := c.mem.value.members - {p}))
            && (p in c.mem.value.members ==>
                  c.disk.Some? && d.disk == Some(c.disk.value.(members := c.disk.value.members - {p})))
            && (p !in c.mem.value.members ==> d.disk == c.disk)
  {
    assert p !in c.mem.value.members ==> c.mem.value.members - {p} == c.mem.value.members;
  }

  /** It is refused only by the store, and a leave only to those who are no members. */
  lemma ExpulsionSucceeds(self: PeerId, id: SessionId, c: Cell, op: Op, p: PeerId)
    requires (op.RemoveMember? || op.Leave?) && op.peer == p && op.stored
    requires HostedHere(c) && c.disk.Some? && p != c.mem.value.host && p in c.mem.value.members
    ensures Expels(self, id, c, op, p)
  {
  }

  // ---- Who is out stays out ----

  /** `p` is no member of the session hosted in memory. */
  predicate OutHere(c: Cell, p: PeerId) { HostedHere(c) ==> p !in c.mem.value.members }

  /** Nor of the one a restart would host. */
  predicate OutStored(c: Cell, p: PeerId) { c.disk.Some? && c.disk.value.kind == Local ==> p !in c.disk.value.members }

  /** `p` comes in: by a join or an announcement answered Ok, or as the host of a new session. */
  predicate Enters(self: PeerId, id: SessionId, c: Cell, op: Op, p: PeerId) {
    && (op.Join? || op.EnsureMember? || op.HostCreate?) && op.peer == p
    && (Perform(self, id, c, op).reply == Ok || op.HostCreate?)
  }

  lemma StepStaysOut(self: PeerId, id: SessionId, c: Cell, op: Op, p: PeerId)
    requires OutHere(c, p) && !Enters(self, id, c, op, p) && (op.Restart? ==> OutStored(c, p))
    ensures OutHere(Perform(self, id, c, op).cell, p)
  {
  }

  lemma StepStaysUnstored(self: PeerId, id: SessionId, c: Cell, op: Op, p: PeerId)
    requires OutStored(c, p) && !Enters(self, id, c, op, p)
    ensures OutStored(Perform(self, id, c, op).cell, p)
  {
  }

  predicate EntersAt(self: PeerId, id: SessionId, ops: seq<Op>, k: nat, p: PeerId)
    requires k < |ops|
  {
    Enters(self, id, Reached(self, id, ops[..k]), ops[k], p)
  }

  predicate OutAt(self: PeerId, id: SessionId, ops: seq<Op>, k: nat, p: PeerId)
    requires k <= |ops|
  {
    OutHere(Reached(self, id, ops[..k]), p)
  }

  predicate OutStoredAt(self: PeerId, id: SessionId, ops: seq<Op>, k: nat, p: PeerId)
    requires k <= |ops|
  {
    OutStored(Reached(self, id, ops[..k]), p)
  }

  lemma OutStep(self: PeerId, id: SessionId, ops: seq<Op>, k: nat, p: PeerId)
    requires k < |ops| && !EntersAt(self, id, ops, k, p)
    ensures OutAt(self, id, ops, k, p) && (ops[k].Restart? ==> OutStoredAt(self, id, ops, k, p)) ==>
              OutAt(self, id, ops, k + 1, p)
    ensures OutStoredAt(self, id, ops, k, p) ==> OutStoredAt(self, id, ops, k + 1, p)
  {
    var c := Reached(self, id, ops[..k]);
    ReachedAt(self, id, ops, k);
    if OutHere(c, p) && (ops[k].Restart? ==> OutStored(c, p)) { StepStaysOut(self, id, c, ops[k], p); }
    if OutStored(c, p) { StepStaysUnstored(self, id, c, ops[k], p); }
  }

  /** Not let in by any step from the `n`-th on, and not read back by a restart from a record that still has it. */
  predicate KeptOut(self: PeerId, id: SessionId, ops: seq<Op>, n: nat, m: nat, p: PeerId)
    requires n <= m <= |ops|
  {
    && (forall k :: n <= k < m ==> !EntersAt(self, id, ops, k, p))
    && (OutStoredAt(self, id, ops, n, p) || forall k :: n <= k < m ==> !ops[k].Restart?)
  }

  lemma {:induction false} StaysOut(self: PeerId, id: SessionId, ops: seq<Op>, n: nat, m: nat, p: PeerId)
    requires n <= m <= |ops| && OutAt(self, id, ops, n, p) && KeptOut(self, id, ops, n, m, p)
    ensures OutAt(self, id, ops, m, p)
    ensures OutStoredAt(self, id, ops, n, p) ==> OutStoredAt(self, id, ops, m, p)
    decreases m
  {
    if n < m {
      assert !EntersAt(self, id, ops, m - 1, p);
      StaysOut(self, id, ops, n, m - 1, p);
      OutStep(self, id, ops, m - 1, p);
    }
  }

  predicate ExpelsAt(self: PeerId, id: SessionId, ops: seq<Op>, k: nat, p: PeerId)
    requires k < |ops|
  {
    Expels(self, id, Reached(self, id, ops[..k]), ops[k], p)
  }

  /** In every run: once a member has been evicted or has left, nothing it sends is sequenced until a join or an
      announcement of it is answered Ok; through restarts too if memory knew it as a member, or the record did not. */
  lemma ExpelledNeverSends(self: PeerId, id: SessionId, ops: seq<Op>, n: nat, m: nat, p: PeerId)
    requires n < m < |ops| && ExpelsAt(self, id, ops, n, p) && KeptOut(self, id, ops, n + 1, m, p)
    requires HostedAt(self, id, ops, m) && ops[m].Send? && ops[m].author.id == p
    ensures !Perform(self, id, Reached(self, id, ops[..m]), ops[m]).reply.Sent?
  {
    var c := Reached(self, id, ops[..n]);
    ExpelledIsOut(self, id, c, ops[n], p);
    ReachedAt(self, id, ops, n);
    StaysOut(self, id, ops, n + 1, m, p);
    SendReachesIff(self, id, Reached(self, id, ops[..m]), ops[m]);
  }

  /** And what memory knew as a member, or the record did not have, the record does not have afterwards. */
  lemma ExpelledIsUnstored(self: PeerId, id: SessionId, ops: seq<Op>, n: nat, p: PeerId)
    requires n < |ops| && ExpelsAt(self, id, ops, n, p)
    requires var c := Reached(self, id, ops[..n]); p in c.mem.value.members || OutStored(c, p)
    ensures OutStoredAt(self, id, ops, n + 1, p)
  {
    ExpelledIsOut(self, id, Reached(self, id, ops[..n]), ops[n], p);
    ReachedAt(self, id, ops, n);
  }

  // ---- Sessions that end ----

  /** The step ends the session on this daemon: the host leaves it, a member leaves its mirror, or a mirror is
      closed. */
  predicate Ends(self: PeerId, id: SessionId, c: Cell, op: Op) {
    && c.mem.Some? && Perform(self, id, c, op).reply == Ok
    && match op
       case Leave(peer, _) => peer == c.mem.value.host || c.mem.value.kind == Remote
       case HostClosed(_) => c.mem.value.kind == Remote
       case _ => false
  }

  /** Its record is gone at once, and its entry when the removal it owes is made; no restart brings it back. */
  lemma EndedIsGone(self: PeerId, id: SessionId, c: Cell, op: Op)
    requires Ends(self, id, c, op)
    ensures var d := Perform(self, id, c, op).cell;
            && d.disk == None && d.doomed && d.flight.unlists == c.flight.unlists + 1
            && Perform(self, id, d, Unlist).cell.mem == None && Perform(self, id, d, Unlist).cell.disk == None
            && Reloading(d).cell.mem == None
  {
  }

  /** A close is not for a session hosted here, and a leave not for those who are no members: nothing changes. */
  lemma NotTheirsToEnd(self: PeerId, id: SessionId, c: Cell, op: Op)
    requires (op.HostClosed? && HostedHere(c)) || (op.Leave? && c.mem.Some? && op.peer !in c.mem.value.members)
    ensures Perform(self, id, c, op).cell == c
  {
  }

  // ---- Joins ----

  predicate MirrorOf(s: Session, host: PeerId, epoch: nat) {
    && s.host == host && s.kind == Remote && s.members == {host} && s.log == [] && s.head == 0 && s.epoch == epoch
    && s.tickets == [] && s.envelope == None
  }

  /** A join that nothing disturbs ends with a mirror of the host at the ticket's epoch, in memory and store; if it
      has to be rolled back, nothing is left. */
  lemma UndisturbedJoin(self: PeerId, id: SessionId, c: Cell, i: nat, host: PeerId, epoch: nat)
    requires host != self && c.mem == None && c.disk == None && !c.doomed && i !in c.flight.claims
    ensures var a := Perform(self, id, c, ClaimLook(i, host, epoch)).cell;
            var b := Perform(self, id, a, ClaimStore(i, Done)).cell;
            var d := Perform(self, id, b, ClaimInsert(i)).cell;
            && d.mem.Some? && MirrorOf(d.mem.value, host, epoch) && Live(d) && Faithful(d)
            && var e := Perform(self, id, Perform(self, id, d, RollbackRemove).cell, RollbackDelete(true)).cell;
               e.mem == None && e.disk == None
  {
  }

  /** A join that has finished is not rolled back. */
  lemma FinishedJoinStays(self: PeerId, id: SessionId, c: Cell)
    requires c.flight.joining == 1
    ensures var d := Perform(self, id, c, JoinDone).cell;
            d.mem == c.mem && d.disk == c.disk && Perform(self, id, d, RollbackRemove).cell == d
  {
  }

  /** A session that is registered is not joined as if it were not. */
  lemma RegisteredIsNotClaimed(self: PeerId, id: SessionId, c: Cell, i: nat, host: PeerId, epoch: nat)
    requires c.mem.Some?
    ensures Perform(self, id, c, ClaimLook(i, host, epoch)) == Outcome(c, Ok)
  {
  }

  /** A ticket of our own, for a session that is not here, starts no join. */
  lemma OwnTicketStartsNothing(self: PeerId, id: SessionId, c: Cell, i: nat, epoch: nat)
    requires c.mem == None && i !in c.flight.claims
    ensures Perform(self, id, c, ClaimLook(i, self, epoch)) == Fail(c, UnknownSession)
  {
  }

  /** Joining what is registered makes a member, in memory and store. */
  lemma JoinedIsMember(self: PeerId, id: SessionId, c: Cell, peer: PeerId, stored: bool)
    requires Perform(self, id, c, Join(peer, stored)).reply == Ok
    ensures var d := Perform(self, id, c, Join(peer, stored)).cell;
            && c.mem.Some? && d.mem == Some(c.mem.value.(members := c.mem.value.members + {peer}))
            && (peer !in c.mem.value.members ==>
                  c.disk.Some? && d.disk == Some(c.disk.value.(members := c.disk.value.members + {peer})))
            && (peer in c.mem.value.members ==> d == c)
  {
    if c.mem.Some? { assert peer in c.mem.value.members ==> c.mem.value.members + {peer} == c.mem.value.members; }
  }

  /** A restart takes nothing with it of what was under way, and loads exactly what is stored. */
  lemma RestartIsIdle(self: PeerId, id: SessionId, c: Cell)
    ensures var d := Perform(self, id, c, Restart).cell;
            && d.disk == c.disk && d.floor == c.floor && !d.doomed && (d.mem.Some? <==> c.disk.Some?)
            && d.flight.claims == map[] && d.flight.joining == 0 && d.flight.deletes == 0 && d.flight.unlists == 0
  {
  }
}
