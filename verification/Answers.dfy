/** What the answer to an operation means for its caller, read off logs, clocks and ledgers. */
module Answers {
  import opened Protocol
  import opened Capabilities
  import opened Sessions
  import opened SessionCache
  import opened HostLogs
  import opened Ledger

  // ---- Sends ----

  predicate ReservedSend(op: Op)
    requires op.Send?
  {
    op.kind == System && (op.action == "workspace.ticket" || op.action == "workspace.upgrade")
  }

  /** The body is the daemon's own, or carries its author's signature. */
  predicate SignedBody(id: SessionId, op: Op)
    requires op.Send?
  {
    op.authoring.ByJoiner? ==>
      op.authoring.signature == Signed(op.author.id,
        Body(id, 3, op.authoring.timestampMs, op.author.id, op.kind, op.action, op.payload))
  }

  /** In every hosted state that can be reached, a send is answered with a message if and only if it is no reserved
      action, its author is a member who is the host or on whom the host's last word in the log is a grant of write
      access, its body is signed, its frame is small enough, and the store takes it. */
  lemma SendAnsweredIff(self: PeerId, id: SessionId, ops: seq<Op>, op: Op)
    requires op.Send? && HostedHere(Reached(self, id, ops))
    ensures var c := Reached(self, id, ops);
            Perform(self, id, c, op).reply.Sent? <==>
              && !ReservedSend(op) && op.author.id in c.mem.value.members
              && Granted(c.mem.value.host, c.mem.value.log, op.author.id)
              && SignedBody(id, op) && op.frameLen <= 1_047_936 && c.disk.Some? && op.io == Done
  {
    var c := Reached(self, id, ops);
    CapsAreProjection(self, id, ops);
    CanWriteIff(c.mem.value.host, c.mem.value.log, op.author.id);
    SendReachesIff(self, id, c, op);
  }

  /** The refusals, in the order they are made: whoever may not write is told so before the signature, the size and
      the store are looked at, and nothing changes. */
  lemma SendRefusals(self: PeerId, id: SessionId, ops: seq<Op>, op: Op)
    requires op.Send? && HostedHere(Reached(self, id, ops))
    ensures var c := Reached(self, id, ops);
            var s, out := c.mem.value, Perform(self, id, c, op);
            var p := op.author.id;
            && (ReservedSend(op) ==> out == Fail(c, ReservedAction))
            && (!ReservedSend(op) && p !in s.members ==> out == Fail(c, NotMember))
            && (!ReservedSend(op) && p in s.members ==>
                  && (!Granted(s.host, s.log, p) ==> out == Fail(c, CapabilityDenied))
                  && (Granted(s.host, s.log, p) && !SignedBody(id, op) ==> out == Fail(c, SignatureRejected))
                  && (Granted(s.host, s.log, p) && SignedBody(id, op) && op.frameLen > 1_047_936 ==>
                        out == Fail(c, PayloadTooLarge)))
  {
    var c := Reached(self, id, ops);
    CapsAreProjection(self, id, ops);
    CanWriteIff(c.mem.value.host, c.mem.value.log, op.author.id);
  }

  /** A mirror sequences nothing: a member's send is passed on to the host, whoever may write. */
  lemma MirrorForwards(self: PeerId, id: SessionId, c: Cell, op: Op)
    requires op.Send? && c.mem.Some? && c.mem.value.kind == Remote && !ReservedSend(op)
    ensures Perform(self, id, c, op) ==
              if op.author.id in c.mem.value.members then Outcome(c, Forwarded) else Fail(c, NotMember)
  {
  }

  /** A member other than the host whom the host last named a reader, or revoked, or never named, is denied. */
  lemma ReaderIsDenied(self: PeerId, id: SessionId, ops: seq<Op>, op: Op)
    requires op.Send? && HostedHere(Reached(self, id, ops)) && !ReservedSend(op)
    requires var s := Reached(self, id, ops).mem.value;
             && op.author.id in s.members && op.author.id != s.host
             && forall i :: 0 <= i < |s.log| && LastWord(s.host, s.log, op.author.id, i) ==>
                  s.log[i].payload != Encoded(Grant(op.author.id, ReadWrite))
    ensures Perform(self, id, Reached(self, id, ops), op) == Fail(Reached(self, id, ops), CapabilityDenied)
  {
    SendRefusals(self, id, ops, op);
  }

  /** What is answered is what was asked, under the next number of the log, signed by its author and by the host, and
      it is the last entry in memory and in the file. */
  lemma SentIsWhatWasAsked(self: PeerId, id: SessionId, ops: seq<Op>, op: Op)
    requires op.Send? && HostedHere(Reached(self, id, ops))
    requires Perform(self, id, Reached(self, id, ops), op).reply.Sent?
    ensures var c := Reached(self, id, ops);
            var out := Perform(self, id, c, op);
            var m := out.reply.message;
            && m.version == 3 && m.seqNo == MaxSeq(c.mem.value.log) + 1
            && m.peer == op.author && m.kind == op.kind && m.action == op.action && m.payload == op.payload
            && m.timestampMs == (if op.authoring.ByJoiner? then op.authoring.timestampMs else op.authoring.nowMs)
            && (op.authoring.ByJoiner? ==> m.signature == op.authoring.signature)
            && (op.authoring.ByDaemon? ==> m.signature == Signed(self,
                  Body(id, 3, m.timestampMs, m.peer.id, m.kind, m.action, m.payload)))
            && m.hostSig == Signed(self, Sequencing(id, m.seqNo, m.signature))
            && out.cell.mem.Some? && out.cell.mem.value.log == c.mem.value.log + [m]
            && c.disk.Some? && out.cell.disk.Some? && out.cell.disk.value.log == c.disk.value.log + [m]
  {
    CapsAreProjection(self, id, ops);
    SentMessage(self, id, Reached(self, id, ops), op);
  }

  lemma SentMessage(self: PeerId, id: SessionId, c: Cell, op: Op)
    requires op.Send? && Perform(self, id, c, op).reply.Sent?
    ensures var m := Perform(self, id, c, op).reply.message;
            && c.mem.Some? && c.disk.Some? && Perform(self, id, c, op).cell == Appended(c, m)
            && m.version == 3 && m.seqNo == c.mem.value.head + 1 && m.hostSig == Signed(self,
                 Sequencing(id, m.seqNo, m.signature))
            && m.peer == op.author && m.kind == op.kind && m.action == op.action && m.payload == op.payload
            && m.timestampMs == (if op.authoring.ByJoiner? then op.authoring.timestampMs else op.authoring.nowMs)
            && m.signature == if op.authoring.ByJoiner? then op.authoring.signature
                              else Signed(self, Body(id, 3, m.timestampMs, m.peer.id, m.kind, m.action, m.payload))
  {
  }

  // ---- Announcements ----

  function Announce(peer: PeerId, claim: CapClaim, nowMs: nat, stored: bool, put: bool): Op {
    EnsureMember(peer, Some(claim), nowMs, stored, put)
  }

  /** In every state an expired claim is refused as such, and changes nothing. */
  lemma ExpiredIsRefused(self: PeerId, id: SessionId, c: Cell, peer: PeerId, claim: CapClaim, nowMs: nat, stored: bool,
                         put: bool)
    requires 0 < claim.expiryMs <= nowMs
    ensures Perform(self, id, c, Announce(peer, claim, nowMs, stored, put)) == Fail(c, TicketExpired)
  {
  }

  /** And so is an unexpired one that this daemon did not sign for this session, with these terms. */
  lemma UnsignedClaimIsRefused(self: PeerId, id: SessionId, c: Cell, peer: PeerId, claim: CapClaim, nowMs: nat,
                               stored: bool, put: bool)
    requires claim.expiryMs == 0 || nowMs < claim.expiryMs
    requires claim.signature != Signed(self, TicketCap(claim.ticket, id, claim.cap, claim.expiryMs, claim.epoch))
    ensures Perform(self, id, c, Announce(peer, claim, nowMs, stored, put)) == Fail(c, InvalidCapClaim)
  {
  }

  /** And, by a session hosted here, one that its ledger does not list as active with these terms, even if its bearer
      is a member already. */
  lemma UnlistedIsRefused(self: PeerId, id: SessionId, c: Cell, peer: PeerId, claim: CapClaim, nowMs: nat,
                          stored: bool, put: bool)
    requires HostedHere(c) && Valid(self, id, claim, nowMs) && !Listed(c.mem.value.tickets, claim)
    ensures Perform(self, id, c, Announce(peer, claim, nowMs, stored, put)) == Fail(c, TicketNotAdmissible)
  {
  }

  predicate NotedOnce(e: TicketEntry) { forall i, j :: 0 <= i < j < |e.usedBy| ==> e.usedBy[i] != e.usedBy[j] }

  /** Whoever comes in by a ticket of the ledger is noted beside it, in memory and, if that write succeeds, in the
      record; once, however often it comes. */
  lemma UseIsNoted(self: PeerId, id: SessionId, c: Cell, peer: PeerId, claim: CapClaim, nowMs: nat, put: bool)
    requires HostedHere(c) && c.disk.Some? && Valid(self, id, claim, nowMs) && Listed(c.mem.value.tickets, claim)
    requires peer !in c.mem.value.members
    ensures var d := Perform(self, id, c, Announce(peer, claim, nowMs, true, put)).cell;
            var ts, i := c.mem.value.tickets, Position(c.mem.value.tickets, claim.ticket);
            && i < |ts| && d.mem.Some? && |d.mem.value.tickets| == |ts| && peer in d.mem.value.tickets[i].usedBy
            && (NotedOnce(ts[i]) ==> NotedOnce(d.mem.value.tickets[i]))
            && (put && d.mem.value.tickets != ts ==> d.disk.Some? && d.disk.value.tickets == d.mem.value.tickets)
  {
  }

  /** The bearer of `claim` is in, and nothing else has changed but the note of who used the ticket. */
  predicate LetInto(c: Cell, d: Cell, peer: PeerId) {
    && c.mem.Some? && d.mem.Some? && d.mem.value.members == c.mem.value.members + {peer}
    && d.mem.value == c.mem.value.(members := d.mem.value.members, tickets := d.mem.value.tickets)
    && |d.mem.value.tickets| == |c.mem.value.tickets|
    && (forall i :: 0 <= i < |c.mem.value.tickets| ==> Bare(d.mem.value.tickets[i]) == Bare(c.mem.value.tickets[i]))
    && (peer !in c.mem.value.members ==>
          c.disk.Some? && d.disk.Some? && d.disk.value.members == c.disk.value.members + {peer})
    && (peer in c.mem.value.members ==> d == c)
  }

  lemma AdmissibleIsLetIn(self: PeerId, id: SessionId, c: Cell, peer: PeerId, claim: CapClaim, nowMs: nat, put: bool)
    requires HostedHere(c) && c.disk.Some? && AdmitsIn(c.mem.value.tickets, claim)
    requires claim.expiryMs == 0 || nowMs < claim.expiryMs
    requires claim.signature == Signed(self, TicketCap(claim.ticket, id, claim.cap, claim.expiryMs, claim.epoch))
    ensures var out := Perform(self, id, c, Announce(peer, claim, nowMs, true, put));
            out.reply == Ok && LetInto(c, out.cell, peer)
  {
    var s := c.mem.value;
    assert peer in s.members ==> s.members + {peer} == s.members;
  }

  /** A ticket is revoked as often as one likes, with the same answer and no further change; one the ledger does not
      have is not. */
  lemma RevokedAgain(self: PeerId, id: SessionId, c: Cell, t: TicketId, put: bool)
    requires HostedHere(c)
    ensures var i := Position(c.mem.value.tickets, t);
            var out := Perform(self, id, c, RevokeTicket(t, put));
            && (i == |c.mem.value.tickets| ==> out == Fail(c, UnknownTicket))
            && (i < |c.mem.value.tickets| && c.mem.value.tickets[i].status == Revoked ==> out == Outcome(c, Ok))
  {
  }

  /** In every run with fresh ids: the bearer of a ticket that was handed out, not revoked, of a ledger not discarded
      since, announcing itself before the ticket expires, is let in whenever the session is hosted and the store
      takes it. */
  lemma ReturnedTicketLetsIn(self: PeerId, id: SessionId, ops: seq<Op>, i: nat, peer: PeerId, claim: CapClaim,
                             nowMs: nat, put: bool)
    requires FreshTickets(ops) && Returned(self, id, ops, i) && UndiscardedSince(self, id, ops, i)
    requires claim.ticket == ops[i].mint.ticket && claim.cap == ops[i].mint.cap
    requires claim.expiryMs == ops[i].mint.expiryMs && !RevokedSince(self, id, ops, i, claim.ticket)
    requires HostedHere(Reached(self, id, ops)) && Reached(self, id, ops).disk.Some?
    requires claim.expiryMs == 0 || nowMs < claim.expiryMs
    requires claim.signature == Signed(self, TicketCap(claim.ticket, id, claim.cap, claim.expiryMs, claim.epoch))
    ensures var c := Reached(self, id, ops);
            var out := Perform(self, id, c, Announce(peer, claim, nowMs, true, put));
            out.reply == Ok && LetInto(c, out.cell, peer)
  {
    ReturnedTicketAdmissibleIff(self, id, ops, i, claim);
    AdmissibleIsLetIn(self, id, Reached(self, id, ops), peer, claim, nowMs, put);
  }

  // ---- Envelopes ----

  predicate Carries(c: Cell, e: Bytes) {
    && c.mem.Some? && c.mem.value.envelope == Some(e) && c.disk.Some? && c.disk.value.envelope == Some(e)
    && var d := Reloading(c).cell; d.mem.Some? && d.mem.value.envelope == Some(e)
  }

  /** An envelope published, or received from the host, is in memory and store, and a crash gives it back. */
  lemma EnvelopeIsKept(self: PeerId, id: SessionId, c: Cell, op: Op)
    requires (op.PublishEnvelope? || op.EmitEnvelope?) && Perform(self, id, c, op).reply == Ok
    requires op.EmitEnvelope? ==> Live(c) && Faithful(c)
    ensures Carries(Perform(self, id, c, op).cell, op.envelope)
    ensures op.PublishEnvelope? ==> HostedHere(c)
    ensures op.EmitEnvelope? ==> c.mem.Some? && c.mem.value.kind == Remote && op.sender == c.mem.value.host
  {
  }

  /** And it is not refused but by the store, and to others than the host and its mirrors. */
  lemma EnvelopeIsTaken(self: PeerId, id: SessionId, c: Cell, op: Op)
    requires (op.PublishEnvelope? || op.EmitEnvelope?) && c.disk.Some? && op.stored
    requires op.PublishEnvelope? ==> HostedHere(c)
    requires op.EmitEnvelope? ==> c.mem.Some? && c.mem.value.kind == Remote && op.sender == c.mem.value.host
    ensures Perform(self, id, c, op).reply == Ok
  {
  }

  // ---- Epochs ----

  /** A watermark reported as raised is the larger of the two, in memory and in the record. */
  lemma WatermarkIsRaised(self: PeerId, id: SessionId, c: Cell, epoch: nat, stored: bool)
    requires c.mem.Some? && c.mem.value.kind == Remote
    requires Perform(self, id, c, AdvanceWatermark(epoch, stored)).reply == Ok
    ensures var d := Perform(self, id, c, AdvanceWatermark(epoch, stored)).cell;
            && d.mem.Some? && d.mem.value == c.mem.value.(epoch := Max(c.mem.value.epoch, epoch))
            && (c.disk.Some? && epoch > c.mem.value.epoch ==> d.disk == Some(c.disk.value.(epoch := epoch)))
  {
  }

  /** Only a mirror has a watermark. */
  lemma HostHasNoWatermark(self: PeerId, id: SessionId, c: Cell, epoch: nat, stored: bool)
    requires HostedHere(c)
    ensures Perform(self, id, c, AdvanceWatermark(epoch, stored)).cell == c
  {
  }

  /** A resume that fails leaves the session in memory as it was. If its ledger was written, the record has the ticket
      nobody was given; if the epoch's write was torn, no later create can use that epoch. */
  lemma FailedResume(self: PeerId, id: SessionId, c: Cell, op: Op)
    requires op.HostResume? && Perform(self, id, c, op).reply == Err(Storage)
    ensures var d := Perform(self, id, c, op).cell;
            && d.mem == c.mem && c.mem.Some?
            && (op.put && c.disk.Some? ==>
                  && d.disk == Some(c.disk.value.(tickets := c.mem.value.tickets + [LedgerEntry(op.mint)]))
                  && (op.bump == Torn ==> d.floor > NextEpoch(c.mem.value.epoch)))
            && (!op.put || c.disk == None ==> d == c)
  {
  }

  /** Every record's epoch is below the floor. */
  predicate BelowFloor(c: Cell) { c.disk.Some? ==> c.disk.value.epoch < c.floor }

  lemma StepFloor(self: PeerId, id: SessionId, c: Cell, op: Op)
    requires BelowFloor(c)
    ensures BelowFloor(Perform(self, id, c, op).cell) && c.floor <= Perform(self, id, c, op).cell.floor
  {
  }

  lemma {:induction false} RunFloor(self: PeerId, id: SessionId, ops: seq<Op>, n: nat)
    requires n <= |ops|
    ensures BelowFloor(Reached(self, id, ops)) && Reached(self, id, ops[..n]).floor <= Reached(self, id, ops).floor
    decreases |ops|
  {
    if n == |ops| { assert ops[..n] == ops; }
    if ops != [] {
      var init := ops[..|ops| - 1];
      RunFloor(self, id, init, if n < |ops| then n else |init|);
      StepFloor(self, id, Reached(self, id, init), ops[|ops| - 1]);
      if n < |ops| { assert init[..n] == ops[..n]; }
    }
  }

  /** In every run, deletions in between or not, a session created anew starts above every epoch any earlier record
      of its id had. */
  lemma CreatedAboveEveryEpoch(self: PeerId, id: SessionId, ops: seq<Op>, n: nat, op: Op)
    requires n <= |ops| && op.HostCreate? && Perform(self, id, Reached(self, id, ops), op).reply == Minted
    requires Reached(self, id, ops[..n]).disk.Some?
    ensures var d := Perform(self, id, Reached(self, id, ops), op).cell;
            && d.mem.Some? && d.disk.Some? && d.mem.value.epoch == d.disk.value.epoch
            && Reached(self, id, ops[..n]).disk.value.epoch < d.mem.value.epoch
  {
    RunFloor(self, id, ops, n);
    RunFloor(self, id, ops[..n], n);
  }

  /** A resume moves to the next epoch, in memory and in the record, and changes nothing else but the ledger. */
  lemma ResumedAtNextEpoch(self: PeerId, id: SessionId, c: Cell, op: Op)
    requires op.HostResume? && Perform(self, id, c, op).reply == Minted
    ensures HostedHere(c) && c.disk.Some? && c.mem.value.host == op.peer
    ensures var d := Perform(self, id, c, op).cell;
            var s := c.mem.value;
            var epoch := if s.epoch < 0xFFFF_FFFF_FFFF_FFFF then s.epoch + 1 else s.epoch;
            && d.mem == Some(s.(epoch := epoch, tickets := s.tickets + [LedgerEntry(op.mint)]))
            && d.disk.Some? && d.disk.value.epoch == epoch && d.disk.value.tickets == d.mem.value.tickets
  {
  }
}
