/** The issued-ticket ledger over whole runs: what was handed out stays admissible until revoked, what
    was revoked stays dead, under every failed or torn write. */
module Ledger {
  import opened Protocol
  import opened Sessions
  import opened SessionCache

  predicate Mints(op: Op) { op.HostCreate? || op.HostResume? || op.IssueTicket? }

  /** Random ticket ids do not collide. */
  predicate FreshTickets(ops: seq<Op>) {
    forall i, j :: 0 <= i < j < |ops| && Mints(ops[i]) && Mints(ops[j]) ==> ops[i].mint.ticket != ops[j].mint.ticket
  }

  function ReplyAt(self: PeerId, id: SessionId, ops: seq<Op>, i: nat): Reply
    requires i < |ops|
  {
    Perform(self, id, Reached(self, id, ops[..i]), ops[i]).reply
  }

  predicate DistinctIds(ts: seq<TicketEntry>) {
    forall i, j :: 0 <= i < j < |ts| ==> ts[i].id != ts[j].id
  }

  predicate HasId(ts: seq<TicketEntry>, t: TicketId) {
    exists i :: 0 <= i < |ts| && ts[i].id == t
  }

  predicate Knows(c: Cell, t: TicketId) {
    (c.mem.Some? && HasId(c.mem.value.tickets, t)) || (c.disk.Some? && HasId(c.disk.value.tickets, t))
  }

  predicate Dead(ts: seq<TicketEntry>, t: TicketId) {
    forall i :: 0 <= i < |ts| && ts[i].id == t ==> ts[i].status == Revoked
  }

  /** What memory holds as revoked is nowhere active in the store. */
  predicate RevokedInStore(mem: seq<TicketEntry>, disk: seq<TicketEntry>) {
    forall i :: 0 <= i < |mem| && mem[i].status == Revoked ==> Dead(disk, mem[i].id)
  }

  predicate Ids(c: Cell) {
    && (c.disk.Some? ==> DistinctIds(c.disk.value.tickets))
    && (c.mem.Some? ==> DistinctIds(c.mem.value.tickets))
    && (c.mem.Some? && c.disk.Some? ==> RevokedInStore(c.mem.value.tickets, c.disk.value.tickets))
  }

  /** The stored ledger of a live hosted session is the one in memory. */
  predicate LedgerFit(c: Cell) {
    Live(c) && c.mem.value.kind == Local ==>
      c.disk.Some? && c.disk.value.kind == Local && LedgerAgrees(c.mem.value.tickets, c.disk.value.tickets)
  }

  /** Not expired yet, or without an end, and signed by this daemon over all its terms. */
  predicate Valid(self: PeerId, id: SessionId, claim: CapClaim, nowMs: nat) {
    && (claim.expiryMs == 0 || nowMs < claim.expiryMs)
    && claim.signature == Signed(self, TicketCap(claim.ticket, id, claim.cap, claim.expiryMs, claim.epoch))
  }

  /** The ledger lists the claim's ticket as active, with the claim's terms. */
  predicate Listed(tickets: seq<TicketEntry>, claim: CapClaim) {
    exists i :: 0 <= i < |tickets| && tickets[i].id == claim.ticket && tickets[i].cap == claim.cap
                && tickets[i].expiryMs == claim.expiryMs && tickets[i].status == Active
  }

  // ---- Facts about ledgers ----

  lemma DistinctAppend(ts: seq<TicketEntry>, e: TicketEntry)
    requires DistinctIds(ts) && !HasId(ts, e.id)
    ensures DistinctIds(ts + [e])
  {
  }

  lemma HasIdAppend(ts: seq<TicketEntry>, e: TicketEntry, t: TicketId)
    ensures HasId(ts + [e], t) <==> HasId(ts, t) || e.id == t
  {
    if HasId(ts, t) { var i :| 0 <= i < |ts| && ts[i].id == t; assert (ts + [e])[i].id == t; }
    if e.id == t { assert (ts + [e])[|ts|].id == t; }
  }

  /** Same ids in the same places. */
  predicate SameIds(a: seq<TicketEntry>, b: seq<TicketEntry>) {
    |a| == |b| && forall i :: 0 <= i < |a| ==> a[i].id == b[i].id
  }

  lemma SameIdsFacts(a: seq<TicketEntry>, b: seq<TicketEntry>, t: TicketId)
    requires SameIds(a, b)
    ensures DistinctIds(a) <==> DistinctIds(b)
    ensures HasId(a, t) <==> HasId(b, t)
  {
    if HasId(a, t) { var i :| 0 <= i < |a| && a[i].id == t; assert b[i].id == t; }
    if HasId(b, t) { var i :| 0 <= i < |b| && b[i].id == t; assert a[i].id == t; }
  }

  predicate Entry(ts: seq<TicketEntry>, m: Mint, status: TicketStatus) {
    exists i :: 0 <= i < |ts| && ts[i].id == m.ticket && ts[i].cap == m.cap && ts[i].expiryMs == m.expiryMs
        && ts[i].status == status
  }

  lemma EntryAppend(ts: seq<TicketEntry>, e: TicketEntry, m: Mint, status: TicketStatus)
    requires Entry(ts, m, status)
    ensures Entry(ts + [e], m, status)
  {
    var i :| 0 <= i < |ts| && ts[i].id == m.ticket && ts[i].cap == m.cap && ts[i].expiryMs == m.expiryMs
        && ts[i].status == status;
    assert (ts + [e])[i] == ts[i];
  }

  lemma EntryNote(ts: seq<TicketEntry>, t: TicketId, peer: PeerId, m: Mint, status: TicketStatus)
    requires Entry(ts, m, status)
    ensures Entry(NoteUse(ts, t, peer), m, status)
  {
    var i :| 0 <= i < |ts| && ts[i].id == m.ticket && ts[i].cap == m.cap && ts[i].expiryMs == m.expiryMs
        && ts[i].status == status;
    assert Bare(NoteUse(ts, t, peer)[i]) == Bare(ts[i]);
  }

  lemma EntryMark(ts: seq<TicketEntry>, t: TicketId, m: Mint, status: TicketStatus)
    requires DistinctIds(ts) && Position(ts, t) < |ts| && Entry(ts, m, status)
    ensures Entry(Mark(ts, t), m, if t == m.ticket then Revoked else status)
  {
    var i :| 0 <= i < |ts| && ts[i].id == m.ticket && ts[i].cap == m.cap && ts[i].expiryMs == m.expiryMs
        && ts[i].status == status;
    var p := Position(ts, t);
    if t == m.ticket { assert p == i; }
    assert Mark(ts, t)[i] == if i == p then ts[i].(status := Revoked) else ts[i];
  }

  lemma EntryUnique(ts: seq<TicketEntry>, m: Mint, a: TicketStatus, b: TicketStatus)
    requires DistinctIds(ts) && Entry(ts, m, a) && Entry(ts, m, b)
    ensures a == b
  {
  }

  lemma MarkKills(ts: seq<TicketEntry>, t: TicketId)
    requires DistinctIds(ts) && Position(ts, t) < |ts|
    ensures Dead(Mark(ts, t), t)
    ensures forall u :: Dead(ts, u) ==> Dead(Mark(ts, t), u)
  {
  }

  lemma NoteKeepsDead(ts: seq<TicketEntry>, t: TicketId, peer: PeerId, u: TicketId)
    requires Dead(ts, u)
    ensures Dead(NoteUse(ts, t, peer), u)
  {
  }

  // ---- One step ----

  lemma RevokedAppend(ts: seq<TicketEntry>, e: TicketEntry)
    requires DistinctIds(ts + [e]) && e.status == Active
    ensures RevokedInStore(ts, ts + [e]) && RevokedInStore(ts + [e], ts + [e])
  {
    forall i | 0 <= i < |ts| && ts[i].status == Revoked ensures Dead(ts + [e], ts[i].id) {
        assert (ts + [e])[i] == ts[i]; }
  }

  lemma MarkRevoked(ts: seq<TicketEntry>, t: TicketId)
    requires DistinctIds(ts) && Position(ts, t) < |ts|
    ensures DistinctIds(Mark(ts, t)) && RevokedInStore(Mark(ts, t), Mark(ts, t))
  {
    SameIdsFacts(ts, Mark(ts, t), t);
  }

  lemma NoteRevoked(ts: seq<TicketEntry>, disk: seq<TicketEntry>, t: TicketId, peer: PeerId)
    requires DistinctIds(ts) && RevokedInStore(ts, disk)
    ensures var noted := NoteUse(ts, t, peer);
            DistinctIds(noted) && RevokedInStore(noted, noted) && RevokedInStore(noted, disk)
  {
    var noted := NoteUse(ts, t, peer);
    SameIdsFacts(ts, noted, t);
    forall i | 0 <= i < |noted| && noted[i].status == Revoked ensures Dead(disk, noted[i].id) {
        assert ts[i].status == Revoked; }
  }

  lemma ResumeIds(c: Cell, peer: PeerId, mint: Mint, put: bool, bump: Io)
    requires Ids(c) && !Knows(c, mint.ticket)
    ensures Ids(Resuming(c, peer, mint, put, bump).cell)
  {
    if c.mem.Some? {
      DistinctAppend(c.mem.value.tickets, LedgerEntry(mint));
      RevokedAppend(c.mem.value.tickets, LedgerEntry(mint));
    }
  }

  lemma IssueIds(c: Cell, mint: Mint, put: bool)
    requires Ids(c) && !Knows(c, mint.ticket)
    ensures Ids(Issuing(c, mint, put).cell)
  {
    if c.mem.Some? {
      DistinctAppend(c.mem.value.tickets, LedgerEntry(mint));
      RevokedAppend(c.mem.value.tickets, LedgerEntry(mint));
    }
  }

  lemma RevokeIds(c: Cell, t: TicketId, put: bool)
    requires Ids(c)
    ensures Ids(Revoking(c, t, put).cell)
  {
    if c.mem.Some? && Position(c.mem.value.tickets, t) < |c.mem.value.tickets| { MarkRevoked(c.mem.value.tickets, t); }
  }

  lemma EnsureIds(self: PeerId, id: SessionId, c: Cell, op: Op)
    requires Ids(c) && op.EnsureMember?
    ensures Ids(Ensuring(self, id, c, op.peer, op.proof, op.nowMs, op.stored, op.put).cell)
  {
    if c.mem.Some? && c.disk.Some? && op.proof.Some? {
      NoteRevoked(c.mem.value.tickets, c.disk.value.tickets, op.proof.value.ticket, op.peer);
    }
  }

  lemma CreateIds(c: Cell, peer: PeerId, mint: Mint, floorRead: bool, io: Io)
    requires Ids(c)
    ensures Ids(Creating(c, peer, mint, floorRead, io).cell)
  {
  }

  lemma ReloadIds(c: Cell)
    requires Ids(c)
    ensures Ids(Reloading(c).cell)
  {
  }

  lemma OtherIds(self: PeerId, id: SessionId, c: Cell, op: Op)
    requires Ids(c) && !op.HostCreate? && !op.HostResume? && !op.IssueTicket? && !op.RevokeTicket? && !op.EnsureMember?
    requires !op.Restart?
    ensures Ids(Perform(self, id, c, op).cell)
  {
  }

  /** Every step keeps ticket ids distinct, and revocations known to memory effective in the store. */
  lemma IdsStep(self: PeerId, id: SessionId, c: Cell, op: Op)
    requires Ids(c) && (Mints(op) ==> !Knows(c, op.mint.ticket))
    ensures Ids(Perform(self, id, c, op).cell)
  {
    match op
    case HostResume(peer, mint, put, bump) => ResumeIds(c, peer, mint, put, bump);
    case IssueTicket(mint, put) => IssueIds(c, mint, put);
    case RevokeTicket(t, put) => RevokeIds(c, t, put);
    case EnsureMember(_, _, _, _, _) => EnsureIds(self, id, c, op);
    case HostCreate(peer, mint, floorRead, io) => CreateIds(c, peer, mint, floorRead, io);
    case Restart => ReloadIds(c);
    case _ => OtherIds(self, id, c, op);
  }

  /** No join of the same id writes over, and no rollback deletes, the record of a live hosted session. */
  predicate Alone(c: Cell, op: Op) {
    Live(c) && c.mem.value.kind == Local ==>
      !(op.ClaimStore? && Waiting(c, op.claim) && op.create != Failed)
      && !(op.RollbackDelete? && op.deleted && c.flight.deletes > 0)
  }

  lemma EnsureFit(self: PeerId, id: SessionId, c: Cell, op: Op)
    requires LedgerFit(c) && op.EnsureMember?
    ensures LedgerFit(Ensuring(self, id, c, op.peer, op.proof, op.nowMs, op.stored, op.put).cell)
  {
    if Live(c) && op.proof.Some? && c.mem.value.kind == Local {
      NoteAgrees(c.mem.value.tickets, c.disk.value.tickets, op.proof.value.ticket, op.peer);
    }
  }

  lemma OtherFit(self: PeerId, id: SessionId, c: Cell, op: Op)
    requires LedgerFit(c) && !op.EnsureMember?
    ensures LedgerFit(Perform(self, id, c, op).cell) <==> Alone(c, op)
  {
  }

  lemma FitStepIff(self: PeerId, id: SessionId, c: Cell, op: Op)
    requires LedgerFit(c)
    ensures LedgerFit(Perform(self, id, c, op).cell) <==> Alone(c, op)
  {
    if op.EnsureMember? { EnsureFit(self, id, c, op); } else { OtherFit(self, id, c, op); }
  }

  predicate TouchesLedger(op: Op) { op.HostResume? || op.IssueTicket? || op.RevokeTicket? || op.EnsureMember? }

  lemma KnowsTouched(self: PeerId, id: SessionId, c: Cell, op: Op, t: TicketId)
    requires TouchesLedger(op) && Knows(Perform(self, id, c, op).cell, t)
    ensures Knows(c, t) || (Mints(op) && op.mint.ticket == t)
  {
    if c.mem.Some? {
      var ts := c.mem.value.tickets;
      if Mints(op) { HasIdAppend(ts, LedgerEntry(op.mint), t); }
      if op.RevokeTicket? && Position(ts, op.ticket) < |ts| { SameIdsFacts(ts, Mark(ts, op.ticket), t); }
      if op.EnsureMember? && op.proof.Some? { SameIdsFacts(ts, NoteUse(ts, op.proof.value.ticket, op.peer), t); }
    }
  }

  lemma KnowsOther(self: PeerId, id: SessionId, c: Cell, op: Op, t: TicketId)
    requires !TouchesLedger(op) && !op.HostCreate? && Knows(Perform(self, id, c, op).cell, t)
    ensures Knows(c, t)
  {
  }

  lemma KnowsStep(self: PeerId, id: SessionId, c: Cell, op: Op, t: TicketId)
    requires Knows(Perform(self, id, c, op).cell, t)
    ensures Knows(c, t) || (Mints(op) && op.mint.ticket == t)
  {
    if TouchesLedger(op) {
      KnowsTouched(self, id, c, op, t);
    } else if !op.HostCreate? {
      KnowsOther(self, id, c, op, t);
    }
  }

  predicate DeadCell(c: Cell, t: TicketId) {
    (c.mem.Some? ==> Dead(c.mem.value.tickets, t)) && (c.disk.Some? ==> Dead(c.disk.value.tickets, t))
  }

  lemma TouchedKeepsDead(self: PeerId, id: SessionId, c: Cell, op: Op, t: TicketId)
    requires TouchesLedger(op) && Ids(c) && DeadCell(c, t) && (Mints(op) ==> op.mint.ticket != t)
    ensures DeadCell(Perform(self, id, c, op).cell, t)
  {
    if c.mem.Some? {
      var ts := c.mem.value.tickets;
      if op.RevokeTicket? && Position(ts, op.ticket) < |ts| { MarkKills(ts, op.ticket); }
      if op.EnsureMember? && op.proof.Some? { NoteKeepsDead(ts, op.proof.value.ticket, op.peer, t); }
    }
  }

  lemma OtherKeepsDead(self: PeerId, id: SessionId, c: Cell, op: Op, t: TicketId)
    requires !TouchesLedger(op) && DeadCell(c, t) && (Mints(op) ==> op.mint.ticket != t)
    ensures DeadCell(Perform(self, id, c, op).cell, t)
  {
  }

  lemma StepKeepsDead(self: PeerId, id: SessionId, c: Cell, op: Op, t: TicketId)
    requires Ids(c) && DeadCell(c, t) && (Mints(op) ==> op.mint.ticket != t)
    ensures DeadCell(Perform(self, id, c, op).cell, t)
  {
    if TouchesLedger(op) { TouchedKeepsDead(self, id, c, op, t); } else { OtherKeepsDead(self, id, c, op, t); }
  }

  lemma RevokeKills(self: PeerId, id: SessionId, c: Cell, op: Op)
    requires Ids(c) && op.RevokeTicket? && Perform(self, id, c, op).reply == Ok
    ensures DeadCell(Perform(self, id, c, op).cell, op.ticket)
  {
    var ts, p := c.mem.value.tickets, Position(c.mem.value.tickets, op.ticket);
    MarkKills(ts, op.ticket);
    if ts[p].status == Revoked { assert Dead(ts, op.ticket); }
  }

  /** The ticket minted by `m` is in the stored ledger with the given status, and in memory's if the session is
      hosted. */
  predicate Durable(c: Cell, m: Mint, status: TicketStatus) {
    && c.disk.Some? && Entry(c.disk.value.tickets, m, status)
    && (HostedHere(c) ==> Entry(c.mem.value.tickets, m, status))
  }

  /** The steps that discard a stored ledger: a session created over its record while nothing is registered, a
      rollback that deletes the record, a close of a mirror, a leave by the host or out of a mirror. */
  predicate Discards(c: Cell, op: Op) {
    match op
    case HostCreate(_, _, floorRead, io) => floorRead && io == Done && c.mem == None
    case RollbackDelete(deleted) => deleted && c.flight.deletes > 0
    case HostClosed(deleted) => deleted && c.mem.Some? && c.mem.value.kind == Remote
    case Leave(peer, stored) =>
      stored && c.mem.Some? && peer in c.mem.value.members && (peer == c.mem.value.host || c.mem.value.kind == Remote)
    case _ => false
  }

  /** Whatever is answered with a ticket has stored it. */
  lemma MintDurable(self: PeerId, id: SessionId, c: Cell, op: Op)
    requires Mints(op) && Perform(self, id, c, op).reply == Minted
    ensures Durable(Perform(self, id, c, op).cell, op.mint, Active)
  {
    var d := Perform(self, id, c, op).cell;
    var ts := d.disk.value.tickets;
    assert ts[|ts| - 1] == LedgerEntry(op.mint) && d.mem.value.tickets == ts;
  }

  /** What the next step makes of a ticket's status. */
  function Onward(self: PeerId, id: SessionId, c: Cell, op: Op, m: Mint, status: TicketStatus): TicketStatus {
    if op.RevokeTicket? && op.ticket == m.ticket && Perform(self, id, c, op).reply == Ok then Revoked else status
  }

  lemma MintsBesides(self: PeerId, id: SessionId, c: Cell, op: Op, m: Mint, status: TicketStatus)
    requires Durable(c, m, status) && (op.HostResume? || op.IssueTicket?)
    ensures Durable(Perform(self, id, c, op).cell, m, status)
  {
    if HostedHere(c) { EntryAppend(c.mem.value.tickets, LedgerEntry(op.mint), m, status); }
  }

  lemma RevokeDurable(c: Cell, t: TicketId, put: bool, m: Mint, status: TicketStatus)
    requires Ids(c) && Durable(c, m, status)
    ensures var out := Revoking(c, t, put);
            Durable(out.cell, m, if t == m.ticket && out.reply == Ok then Revoked else status)
  {
    if HostedHere(c) {
      var ts := c.mem.value.tickets;
      var p := Position(ts, t);
      if p < |ts| {
        EntryMark(ts, t, m, status);
        if t == m.ticket && ts[p].status == Revoked { EntryUnique(ts, m, status, Revoked); }
      }
    }
  }

  lemma EnsureDurable(self: PeerId, id: SessionId, c: Cell, op: Op, m: Mint, status: TicketStatus)
    requires Durable(c, m, status) && op.EnsureMember?
    ensures Durable(Ensuring(self, id, c, op.peer, op.proof, op.nowMs, op.stored, op.put).cell, m, status)
  {
    if HostedHere(c) && op.proof.Some? { EntryNote(c.mem.value.tickets, op.proof.value.ticket, op.peer, m, status); }
  }

  lemma CreateDurableIff(c: Cell, op: Op, m: Mint, status: TicketStatus)
    requires Durable(c, m, status) && op.HostCreate? && !Knows(c, op.mint.ticket)
    ensures Durable(Creating(c, op.peer, op.mint, op.floorRead, op.create).cell, m, status) <==> !Discards(c, op)
  {
    var i :| 0 <= i < |c.disk.value.tickets| && c.disk.value.tickets[i].id == m.ticket;
    assert HasId(c.disk.value.tickets, m.ticket);
  }

  lemma OtherDurableIff(self: PeerId, id: SessionId, c: Cell, op: Op, m: Mint, status: TicketStatus)
    requires Durable(c, m, status) && !Mints(op) && !op.RevokeTicket? && !op.EnsureMember?
    ensures Durable(Perform(self, id, c, op).cell, m, status) <==> !Discards(c, op)
  {
  }

  /** A step keeps a stored ticket, with its capability, expiry and status up to a revocation it answers Ok, if
      and only if it is not one of the four that discard the ledger. */
  lemma StepDurableIff(self: PeerId, id: SessionId, c: Cell, op: Op, m: Mint, status: TicketStatus)
    requires Ids(c) && Durable(c, m, status) && (Mints(op) ==> !Knows(c, op.mint.ticket))
    ensures Durable(Perform(self, id, c, op).cell, m, Onward(self, id, c, op, m, status)) <==> !Discards(c, op)
  {
    match op
    case HostCreate(_, _, _, _) => CreateDurableIff(c, op, m, status);
    case HostResume(_, _, _, _) => MintsBesides(self, id, c, op, m, status);
    case IssueTicket(_, _) => MintsBesides(self, id, c, op, m, status);
    case RevokeTicket(t, put) => RevokeDurable(c, t, put, m, status);
    case EnsureMember(_, _, _, _, _) => EnsureDurable(self, id, c, op, m, status);
    case _ => OtherDurableIff(self, id, c, op, m, status);
  }

  // ---- Runs ----

  predicate MintedBy(ops: seq<Op>, t: TicketId) {
    exists i :: 0 <= i < |ops| && Mints(ops[i]) && ops[i].mint.ticket == t
  }

  lemma {:induction false} RunIds(self: PeerId, id: SessionId, ops: seq<Op>)
    requires FreshTickets(ops)
    ensures Ids(Reached(self, id, ops))
    ensures forall t :: Knows(Reached(self, id, ops), t) ==> MintedBy(ops, t)
  {
    if ops != [] {
      var init, op := ops[..|ops| - 1], ops[|ops| - 1];
      RunIds(self, id, init);
      var c := Reached(self, id, init);
      assert forall i :: 0 <= i < |init| ==> init[i] == ops[i];
      assert Mints(op) ==> !MintedBy(init, op.mint.ticket);
      IdsStep(self, id, c, op);
      forall t | Knows(Reached(self, id, ops), t) ensures MintedBy(ops, t) {
        KnowsStep(self, id, c, op, t);
        if Knows(c, t) {
          var i :| 0 <= i < |init| && Mints(init[i]) && init[i].mint.ticket == t;
          assert ops[i] == init[i];
        } else {
          assert ops[|ops| - 1] == op;
        }
      }
    }
  }

  /** After `n` steps the daemon has just restarted, or no hosted session is live, and no join or rollback of the id
      has overlapped a live hosted session since. */
  predicate AloneSince(self: PeerId, id: SessionId, ops: seq<Op>, n: nat) {
    && n <= |ops| && (Afresh(self, id, ops, n) || !HostedHere(Reached(self, id, ops[..n])))
    && forall i :: n <= i < |ops| ==> Alone(Reached(self, id, ops[..i]), ops[i])
  }

  lemma AlonePrefix(self: PeerId, id: SessionId, ops: seq<Op>, n: nat)
    requires AloneSince(self, id, ops, n) && n < |ops|
    ensures AloneSince(self, id, ops[..|ops| - 1], n)
    ensures Alone(Reached(self, id, ops[..|ops| - 1]), ops[|ops| - 1])
  {
    var init := ops[..|ops| - 1];
    assert init[..n] == ops[..n] && (n > 0 ==> init[n - 1] == ops[n - 1]);
    forall i | n <= i < |init| ensures Alone(Reached(self, id, init[..i]), init[i]) { assert init[..i] == ops[..i]; }
  }

  lemma FitAfresh(self: PeerId, id: SessionId, ops: seq<Op>)
    requires AloneSince(self, id, ops, |ops|)
    ensures LedgerFit(Reached(self, id, ops))
  {
    assert ops[..|ops|] == ops;
    if Afresh(self, id, ops, |ops|) { FaithfulAfresh(self, id, ops, |ops|); }
  }

  /** In every run, whatever lies before, the stored ledger of a live hosted session agrees with memory if no join
      or rollback has overlapped it since. */
  lemma {:induction false} RunFit(self: PeerId, id: SessionId, ops: seq<Op>, n: nat)
    requires AloneSince(self, id, ops, n)
    ensures LedgerFit(Reached(self, id, ops))
    decreases |ops|
  {
    if n == |ops| {
      FitAfresh(self, id, ops);
    } else {
      AlonePrefix(self, id, ops, n);
      RunFit(self, id, ops[..|ops| - 1], n);
      FitStepIff(self, id, Reached(self, id, ops[..|ops| - 1]), ops[|ops| - 1]);
    }
  }

  predicate RevokedAt(self: PeerId, id: SessionId, ops: seq<Op>, k: nat, t: TicketId)
    requires k < |ops|
  {
    ops[k].RevokeTicket? && ops[k].ticket == t && ReplyAt(self, id, ops, k) == Ok
  }

  /** Once a revoke was answered Ok, no later state holds the ticket as active, in memory or in the
      store, whatever resumes, failed writes, restarts, deletions and re-creations follow. */
  lemma {:induction false} RevokedStaysDead(self: PeerId, id: SessionId, ops: seq<Op>, k: nat, t: TicketId)
    requires FreshTickets(ops) && k < |ops| && RevokedAt(self, id, ops, k, t)
    ensures DeadCell(Reached(self, id, ops), t)
    ensures forall claim: CapClaim, s: Session ::
              claim.ticket == t && Reached(self, id, ops).mem == Some(s) && s.kind == Local ==>
                !TicketAdmissible(s, claim)
    decreases |ops|
  {
    var init, op := ops[..|ops| - 1], ops[|ops| - 1];
    RunIds(self, id, init);
    var c := Reached(self, id, init);
    if k == |init| {
      RevokeKills(self, id, c, op);
    } else {
      assert init[..k] == ops[..k];
      RevokedStaysDead(self, id, init, k, t);
      var before := Reached(self, id, ops[..k]);
      RunIds(self, id, ops[..k]);
      assert Knows(before, t) by { assert before.mem.value.tickets[Position(before.mem.value.tickets, t)].id == t; }
      var i :| 0 <= i < k && Mints(ops[..k][i]) && ops[..k][i].mint.ticket == t;
      assert ops[i] == ops[..k][i];
      StepKeepsDead(self, id, c, op, t);
    }
  }

  predicate RevokedSince(self: PeerId, id: SessionId, ops: seq<Op>, i: nat, t: TicketId) {
    exists k: nat :: i < k < |ops| && RevokedAt(self, id, ops, k, t)
  }

  lemma RevokedSinceStep(self: PeerId, id: SessionId, ops: seq<Op>, i: nat, t: TicketId)
    requires i + 1 < |ops|
    ensures RevokedSince(self, id, ops, i, t) <==>
              RevokedSince(self, id, ops[..|ops| - 1], i, t) || RevokedAt(self, id, ops, |ops| - 1, t)
  {
    var init := ops[..|ops| - 1];
    forall k: nat | k < |init| ensures RevokedAt(self, id, init, k, t) <==> RevokedAt(self, id, ops, k, t) {
      assert init[..k] == ops[..k];
    }
  }

  predicate Returned(self: PeerId, id: SessionId, ops: seq<Op>, i: nat) {
    i < |ops| && Mints(ops[i]) && ReplyAt(self, id, ops, i) == Minted
  }

  predicate DiscardsAt(self: PeerId, id: SessionId, ops: seq<Op>, k: nat)
    requires k < |ops|
  {
    Discards(Reached(self, id, ops[..k]), ops[k])
  }

  /** No step after the `i`-th discards the ledger. */
  predicate UndiscardedSince(self: PeerId, id: SessionId, ops: seq<Op>, i: nat) {
    forall k :: i < k < |ops| ==> !DiscardsAt(self, id, ops, k)
  }

  lemma ReturnedPrefix(self: PeerId, id: SessionId, ops: seq<Op>, i: nat)
    requires i + 1 < |ops| && Returned(self, id, ops, i) && UndiscardedSince(self, id, ops, i)
    ensures Returned(self, id, ops[..|ops| - 1], i) && UndiscardedSince(self, id, ops[..|ops| - 1], i)
  {
    var init := ops[..|ops| - 1];
    assert init[..i] == ops[..i];
    forall k | i < k < |init| ensures !DiscardsAt(self, id, init, k) {
      assert init[..k] == ops[..k];
      assert !DiscardsAt(self, id, ops, k);
    }
  }

  lemma FreshMint(self: PeerId, id: SessionId, ops: seq<Op>)
    requires ops != [] && FreshTickets(ops) && Mints(ops[|ops| - 1])
    ensures !Knows(Reached(self, id, ops[..|ops| - 1]), ops[|ops| - 1].mint.ticket)
  {
    var init, op := ops[..|ops| - 1], ops[|ops| - 1];
    RunIds(self, id, init);
  }

  /** A ticket that a create, a resume or an issue handed out stays in the stored ledger with its minted
      capability and expiry, and in memory's whenever the session is hosted, until a step discards that ledger;
      and it is marked revoked exactly when some later revoke of it was answered Ok. Registered or not,
      overlapping joins or not. */
  lemma {:induction false} ReturnedTicketKept(self: PeerId, id: SessionId, ops: seq<Op>, i: nat)
    requires FreshTickets(ops) && Returned(self, id, ops, i) && UndiscardedSince(self, id, ops, i)
    ensures Durable(Reached(self, id, ops), ops[i].mint,
                    if RevokedSince(self, id, ops, i, ops[i].mint.ticket) then Revoked else Active)
    decreases |ops|
  {
    var init, op := ops[..|ops| - 1], ops[|ops| - 1];
    var c, m := Reached(self, id, init), ops[i].mint;
    if i == |init| {
      MintDurable(self, id, c, op);
    } else {
      ReturnedPrefix(self, id, ops, i);
      ReturnedTicketKept(self, id, init, i);
      RunIds(self, id, init);
      RevokedSinceStep(self, id, ops, i, m.ticket);
      if Mints(op) { FreshMint(self, id, ops); }
      assert !DiscardsAt(self, id, ops, |init|);
      StepDurableIff(self, id, c, op, m, if RevokedSince(self, id, init, i, m.ticket) then Revoked else Active);
    }
  }

  lemma DurableAdmits(c: Cell, m: Mint, status: TicketStatus, claim: CapClaim)
    requires Ids(c) && Durable(c, m, status) && HostedHere(c)
    requires claim.ticket == m.ticket && claim.cap == m.cap && claim.expiryMs == m.expiryMs
    ensures TicketAdmissible(c.mem.value, claim) <==> status == Active
  {
    var ts := c.mem.value.tickets;
    if AdmitsIn(ts, claim) { EntryUnique(ts, m, Active, status); }
  }

  /** So whenever the session is hosted, the claim of a returned ticket passes the ledger gate exactly when the
      ticket was not revoked. */
  lemma ReturnedTicketAdmissibleIff(self: PeerId, id: SessionId, ops: seq<Op>, i: nat, claim: CapClaim)
    requires FreshTickets(ops) && Returned(self, id, ops, i) && UndiscardedSince(self, id, ops, i)
    requires claim.ticket == ops[i].mint.ticket && claim.cap == ops[i].mint.cap
    requires claim.expiryMs == ops[i].mint.expiryMs && HostedHere(Reached(self, id, ops))
    ensures TicketAdmissible(Reached(self, id, ops).mem.value, claim) <==>
              !RevokedSince(self, id, ops, i, claim.ticket)
  {
    ReturnedTicketKept(self, id, ops, i);
    RunIds(self, id, ops);
    DurableAdmits(Reached(self, id, ops), ops[i].mint,
                  if RevokedSince(self, id, ops, i, claim.ticket) then Revoked else Active, claim);
  }
}
