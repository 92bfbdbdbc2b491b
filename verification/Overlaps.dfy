/** A remote join whose mirror is left while its subscribe still runs can end in a session hosted under the same
    id: its rollback, and a second join under way, then act on what is not theirs. */
module Overlaps {
  import opened Protocol
  import opened Sessions
  import opened SessionCache
  import opened HostLogs
  import opened Admission
  import Acks
  import Ledger

  /** Two joins look; the first registers, the second has written its record; this daemon becomes a member and
      leaves while the first still subscribes. */
  function LeftEarly(self: PeerId, host: PeerId): seq<Op> {
    [ClaimLook(0, host, 0), ClaimLook(1, host, 0)] + [ClaimStore(0, Done), ClaimInsert(0)]
    + [ClaimStore(1, Done), Join(self, true)] + [Leave(self, true), Unlist]
  }

  predicate BothLooked(host: PeerId, c: Cell) {
    && c == VACANT.(flight := c.flight)
    && c.flight == IDLE.(claims := map[0 := Looked(host, 0), 1 := Looked(host, 0)])
  }

  predicate FirstRegistered(host: PeerId, c: Cell) {
    && c.mem == Some(FreshMirror(host, 0)) && c.disk.Some? && !c.doomed
    && c.flight == Flight(map[1 := Looked(host, 0)], 1, 0, 0)
  }

  predicate SecondStored(self: PeerId, host: PeerId, c: Cell) {
    && c.mem == Some(FreshMirror(host, 0).(members := {host, self})) && c.disk.Some? && !c.doomed
    && c.flight == Flight(map[1 := Stored(host, 0)], 1, 0, 0)
  }

  predicate LeftBehind(host: PeerId, c: Cell) {
    c.mem == None && c.disk == None && !c.doomed && c.flight == Flight(map[1 := Stored(host, 0)], 1, 0, 0)
  }

  lemma LookTwice(self: PeerId, id: SessionId, host: PeerId)
    requires host != self
    ensures var c := Perform(self, id, VACANT, ClaimLook(0, host, 0)).cell;
            BothLooked(host, Perform(self, id, c, ClaimLook(1, host, 0)).cell)
  {
  }

  lemma RegisterFirst(self: PeerId, id: SessionId, host: PeerId, c: Cell)
    requires BothLooked(host, c)
    ensures var d := Perform(self, id, c, ClaimStore(0, Done)).cell;
            FirstRegistered(host, Perform(self, id, d, ClaimInsert(0)).cell)
  {
  }

  lemma StoreSecond(self: PeerId, id: SessionId, host: PeerId, c: Cell)
    requires FirstRegistered(host, c) && host != self
    ensures var d := Perform(self, id, c, ClaimStore(1, Done)).cell;
            SecondStored(self, host, Perform(self, id, d, Join(self, true)).cell)
  {
    assert {host} + {self} == {host, self};
  }

  lemma LeaveNow(self: PeerId, id: SessionId, host: PeerId, c: Cell)
    requires SecondStored(self, host, c)
    ensures LeftBehind(host, Perform(self, id, Perform(self, id, c, Leave(self, true)).cell, Unlist).cell)
  {
  }

  lemma LeftState(self: PeerId, id: SessionId, host: PeerId)
    requires host != self
    ensures LeftBehind(host, Reached(self, id, LeftEarly(self, host)))
  {
    var a := [] + [ClaimLook(0, host, 0), ClaimLook(1, host, 0)];
    var b := a + [ClaimStore(0, Done), ClaimInsert(0)];
    var d := b + [ClaimStore(1, Done), Join(self, true)];
    ReachedTwo(self, id, [], ClaimLook(0, host, 0), ClaimLook(1, host, 0));
    LookTwice(self, id, host);
    ReachedTwo(self, id, a, ClaimStore(0, Done), ClaimInsert(0));
    RegisterFirst(self, id, host, Reached(self, id, a));
    ReachedTwo(self, id, b, ClaimStore(1, Done), Join(self, true));
    StoreSecond(self, id, host, Reached(self, id, b));
    ReachedTwo(self, id, d, Leave(self, true), Unlist);
    LeaveNow(self, id, host, Reached(self, id, d));
    assert d + [Leave(self, true), Unlist] == LeftEarly(self, host);
  }

  const MINT := Mint(7, ReadWrite, 0, 0)

  function HostAgain(self: PeerId): Op { HostCreate(self, MINT, true, Done) }

  predicate RolledBack(self: PeerId, host: PeerId, c: Cell) {
    && c.mem == None && !c.doomed && c.disk.Some? && c.disk.value.kind == Local && Blank(c.disk)
    && c.flight == Flight(map[1 := Stored(host, 0)], 0, 1, 0)
  }

  lemma HostThenRollBack(self: PeerId, id: SessionId, host: PeerId, c: Cell)
    requires LeftBehind(host, c)
    ensures RolledBack(self, host, Perform(self, id, Perform(self, id, c, HostAgain(self)).cell, RollbackRemove).cell)
  {
  }

  lemma RolledBackState(self: PeerId, id: SessionId, host: PeerId)
    requires host != self
    ensures RolledBack(self, host, Reached(self, id, LeftEarly(self, host) + [HostAgain(self), RollbackRemove]))
  {
    LeftState(self, id, host);
    ReachedTwo(self, id, LeftEarly(self, host), HostAgain(self), RollbackRemove);
    HostThenRollBack(self, id, host, Reached(self, id, LeftEarly(self, host)));
  }

  /** The session is hosted once more before the rollback comes to the record: a hosted session without one. */
  lemma HostedRecordDeletedWitness(self: PeerId, id: SessionId, host: PeerId)
    requires host != self
    ensures var c := Reached(self, id, LeftEarly(self, host) + [HostAgain(self), RollbackRemove]
                                       + [HostAgain(self), RollbackDelete(true)]);
            Live(c) && HostedHere(c) && c.disk == None
  {
    var ops := LeftEarly(self, host) + [HostAgain(self), RollbackRemove];
    RolledBackState(self, id, host);
    ReachedTwo(self, id, ops, HostAgain(self), RollbackDelete(true));
  }

  /** The session is hosted once more after the rollback took its entry, and nothing was deleted: the stored
      ledger starts over, and the first ticket handed out is not in it. */
  lemma TicketLostWitness(self: PeerId, id: SessionId, host: PeerId)
    requires host != self
    ensures var ops := LeftEarly(self, host) + [HostAgain(self), RollbackRemove];
            var again := HostCreate(self, MINT.(ticket := 8), true, Done);
            var c := Reached(self, id, ops + [again]);
            && Ledger.FreshTickets(ops + [again]) && Ledger.Returned(self, id, ops, 8) && ops[8].mint == MINT
            && HostedHere(c) && c.disk.Some? && c.disk.value.tickets == [LedgerEntry(again.mint)]
            && !Ledger.Durable(c, MINT, Active) && !Ledger.Durable(c, MINT, Revoked)
  {
    var left := LeftEarly(self, host);
    var ops := left + [HostAgain(self), RollbackRemove];
    assert ops[..8] == left;
    LeftState(self, id, host);
    RolledBackState(self, id, host);
    ReachedStep(self, id, ops, HostCreate(self, MINT.(ticket := 8), true, Done));
  }

  // ---- A member past the ledger ----

  /** The peer announces itself with the ticket that `HostAgain` minted. */
  function Announces(self: PeerId, id: SessionId, p: PeerId): Op {
    EnsureMember(p, Some(Acks.Proof(self, id)), 0, true, true)
  }

  /** The session is hosted and its ticket revoked; the rollback removes its entry, the second join registers its
      mirror over the hosted record; the bearer of the revoked ticket announces itself; the daemon restarts. */
  function PastLedger(self: PeerId, id: SessionId, host: PeerId, p: PeerId): seq<Op> {
    LeftEarly(self, host) + [HostAgain(self), RevokeTicket(7, true)] + [RollbackRemove, ClaimInsert(1)]
    + [Announces(self, id, p), Restart]
  }

  const REVOKED := LedgerEntry(MINT).(status := Revoked)

  predicate RevokedRecord(self: PeerId, c: Cell) {
    LocalDisk(c) && c.disk.value.host == self && c.disk.value.members == {self} && c.disk.value.tickets == [REVOKED]
  }

  predicate HostedRevoked(self: PeerId, host: PeerId, c: Cell) {
    HostedHere(c) && !c.doomed && RevokedRecord(self, c) && c.flight == Flight(map[1 := Stored(host, 0)], 1, 0, 0)
  }

  predicate Eclipsed(self: PeerId, host: PeerId, c: Cell) {
    c.mem == Some(FreshMirror(host, 0)) && RevokedRecord(self, c)
  }

  lemma HostThenRevoke(self: PeerId, id: SessionId, host: PeerId, c: Cell)
    requires LeftBehind(host, c)
    ensures HostedRevoked(self, host,
                          Perform(self, id, Perform(self, id, c, HostAgain(self)).cell, RevokeTicket(7, true)).cell)
  {
    assert Position([LedgerEntry(MINT)], 7) == 0;
  }

  lemma RollBackThenInsert(self: PeerId, id: SessionId, host: PeerId, c: Cell)
    requires HostedRevoked(self, host, c)
    ensures Eclipsed(self, host, Perform(self, id, Perform(self, id, c, RollbackRemove).cell, ClaimInsert(1)).cell)
  {
  }

  lemma EclipsedState(self: PeerId, id: SessionId, host: PeerId)
    requires host != self
    ensures Eclipsed(self, host, Reached(self, id, LeftEarly(self, host) + [HostAgain(self), RevokeTicket(7, true)]
                                                   + [RollbackRemove, ClaimInsert(1)]))
  {
    var a := LeftEarly(self, host) + [HostAgain(self), RevokeTicket(7, true)];
    LeftState(self, id, host);
    ReachedTwo(self, id, LeftEarly(self, host), HostAgain(self), RevokeTicket(7, true));
    HostThenRevoke(self, id, host, Reached(self, id, LeftEarly(self, host)));
    ReachedTwo(self, id, a, RollbackRemove, ClaimInsert(1));
    RollBackThenInsert(self, id, host, Reached(self, id, a));
  }

  predicate MemberPastLedger(p: PeerId, c: Cell) {
    HostedHere(c) && p in c.mem.value.members && c.mem.value.tickets == [REVOKED]
  }

  lemma AnnounceThenRestart(self: PeerId, id: SessionId, host: PeerId, p: PeerId, c: Cell)
    requires Eclipsed(self, host, c) && p != host
    ensures MemberPastLedger(p, Perform(self, id, Perform(self, id, c, Announces(self, id, p)).cell, Restart).cell)
  {
    BypassedIsMember(self, id, c, Announces(self, id, p));
  }

  lemma PastLedgerState(self: PeerId, id: SessionId, host: PeerId, p: PeerId)
    requires host != self && p != host
    ensures MemberPastLedger(p, Reached(self, id, PastLedger(self, id, host, p)))
  {
    var ops := LeftEarly(self, host) + [HostAgain(self), RevokeTicket(7, true)] + [RollbackRemove, ClaimInsert(1)];
    EclipsedState(self, id, host);
    ReachedTwo(self, id, ops, Announces(self, id, p), Restart);
    AnnounceThenRestart(self, id, host, p, Reached(self, id, ops));
  }

  lemma RevokeAnswered(self: PeerId, id: SessionId, host: PeerId, p: PeerId)
    requires host != self
    ensures Ledger.RevokedAt(self, id, PastLedger(self, id, host, p), 9, 7)
  {
    var left, ops := LeftEarly(self, host), PastLedger(self, id, host, p);
    LeftState(self, id, host);
    ReachedStep(self, id, left, HostAgain(self));
    assert ops[..9] == left + [HostAgain(self)];
    RevokeOk(self, id, host, Reached(self, id, left));
  }

  lemma RevokeOk(self: PeerId, id: SessionId, host: PeerId, c: Cell)
    requires LeftBehind(host, c)
    ensures Perform(self, id, Perform(self, id, c, HostAgain(self)).cell, RevokeTicket(7, true)).reply == Ok
  {
    assert Position([LedgerEntry(MINT)], 7) == 0;
  }

  /** The same run as what reaches the daemon. */
  function PastLedgerInputs(self: PeerId, id: SessionId, host: PeerId, p: PeerId): seq<Input> {
    [OwnStep(ClaimLook(0, host, 0)), OwnStep(ClaimLook(1, host, 0)), OwnStep(ClaimStore(0, Done)),
     OwnStep(ClaimInsert(0)), OwnStep(ClaimStore(1, Done)), JoinRequest(true), LeaveRequest(true), OwnStep(Unlist),
     HostRequest(MINT, true, Done, true, Done), OwnStep(RevokeTicket(7, true)), OwnStep(RollbackRemove),
     OwnStep(ClaimInsert(1)), AnnounceFrame(PeerInfo(p, ""), p, Acks.Proof(self, id), 0, true, true),
     OwnStep(Restart)]
  }

  predicate RoutedAt(self: PeerId, id: SessionId, inputs: seq<Input>, ops: seq<Op>, n: nat)
    requires n < |inputs| == |ops|
  {
    Route(self, Reached(self, id, ops[..n]), inputs[n]) == Some(ops[n])
  }

  lemma {:induction false} OpsAre(self: PeerId, id: SessionId, inputs: seq<Input>, ops: seq<Op>, n: nat)
    requires n <= |inputs| == |ops| && forall k :: 0 <= k < n ==> RoutedAt(self, id, inputs, ops, k)
    ensures Ops(self, id, inputs[..n]) == ops[..n]
  {
    if n > 0 {
      OpsAre(self, id, inputs, ops, n - 1);
      assert inputs[..n][..n - 1] == inputs[..n - 1] && ops[..n - 1] + [ops[n - 1]] == ops[..n];
      assert RoutedAt(self, id, inputs, ops, n - 1);
    }
  }

  lemma PastLedgerRoute(self: PeerId, id: SessionId, host: PeerId, p: PeerId, c: Cell, n: nat)
    requires n < 14 && (n == 8 ==> c.mem == None)
    ensures Route(self, c, PastLedgerInputs(self, id, host, p)[n]) == Some(PastLedger(self, id, host, p)[n])
  {
  }

  lemma PastLedgerRoutes(self: PeerId, id: SessionId, host: PeerId, p: PeerId, n: nat)
    requires host != self && n <= 14
    ensures Ops(self, id, PastLedgerInputs(self, id, host, p)[..n]) == PastLedger(self, id, host, p)[..n]
  {
    var inputs, ops := PastLedgerInputs(self, id, host, p), PastLedger(self, id, host, p);
    LeftState(self, id, host);
    assert ops[..8] == LeftEarly(self, host);
    forall k | 0 <= k < n ensures RoutedAt(self, id, inputs, ops, k) {
      PastLedgerRoute(self, id, host, p, Reached(self, id, ops[..k]), k);
    }
    OpsAre(self, id, inputs, ops, n);
  }

  lemma OneAnnouncement(self: PeerId, id: SessionId, host: PeerId, p: PeerId)
    requires host != self && p != self && p != host
    ensures var inputs := PastLedgerInputs(self, id, host, p);
            !WasAdmitted(self, id, inputs, p) && BypassedAt(self, id, inputs, 12, p)
  {
    var inputs, ops := PastLedgerInputs(self, id, host, p), PastLedger(self, id, host, p);
    PastLedgerRoutes(self, id, host, p, 12);
    EclipsedState(self, id, host);
    assert ops[..12] == LeftEarly(self, host) + [HostAgain(self), RevokeTicket(7, true)]
                        + [RollbackRemove, ClaimInsert(1)];
    forall n | 0 <= n < |inputs| ensures !AdmittedAt(self, id, inputs, n, p) {
      if inputs[n].AnnounceFrame? { assert n == 12; }
    }
  }

  /** A peer that no ledger ever admitted, and whose ticket was revoked before it announced itself, is a member of
      the hosted session. */
  lemma PastLedgerWitness(self: PeerId, id: SessionId, host: PeerId, p: PeerId)
    requires host != self && p != self && p != host
    ensures var inputs, ops := PastLedgerInputs(self, id, host, p), PastLedger(self, id, host, p);
            && Ops(self, id, inputs) == ops && Ledger.RevokedAt(self, id, ops, 9, 7)
            && MemberPastLedger(p, Reached(self, id, ops))
            && !WasAdmitted(self, id, inputs, p) && BypassedAt(self, id, inputs, 12, p)
  {
    var inputs, ops := PastLedgerInputs(self, id, host, p), PastLedger(self, id, host, p);
    PastLedgerRoutes(self, id, host, p, 14);
    assert inputs[..14] == inputs && ops[..14] == ops;
    PastLedgerState(self, id, host, p);
    RevokeAnswered(self, id, host, p);
    OneAnnouncement(self, id, host, p);
  }
}
