/** An operation finds its session in the map first and locks it afterwards. If the session is removed between
    the two, the operation runs on an object that is no longer registered, and writes to the store by id. */
module Strays {
  import opened Protocol
  import opened Capabilities
  import opened Sessions
  import opened SessionCache
  import opened HostLogs
  import opened Acks
  import Ledger

  /** `op` performed on the object `o`, while `c` is what is registered and stored. */
  function Strayed(self: PeerId, id: SessionId, c: Cell, o: Session, op: Op): Cell {
    var d := Perform(self, id, c.(mem := Some(o)), op).cell;
    c.(disk := d.disk, floor := d.floor)
  }

  /** A send on a stray object leaves a live hosted session in agreement with its record if and only if the
      send is refused: by the object's own members and capabilities, by its signature or size, or by the store. */
  lemma StraySendIff(self: PeerId, id: SessionId, c: Cell, o: Session, op: Op)
    requires Faithful(c) && Live(c) && HostedHere(c) && op.Send?
    ensures Faithful(Strayed(self, id, c, o, op)) <==> !Writes(self, id, c.(mem := Some(o)), op)
  {
    var at := c.(mem := Some(o));
    SendReachesIff(self, id, at, op);
    SendEffect(self, id, at, op);
    if Writes(self, id, at, op) {
      var log := Strayed(self, id, c, o, op).disk.value.log;
      if op.io == Torn { var m := TornSendEffect(self, id, at, op); }
      assert |log| == |c.disk.value.log| + 1;
    }
  }

  /** The ledger a stray ledger write puts into the record, if it writes: the object's own, with its change. */
  function StrayLedger(o: Session, op: Op): Option<seq<TicketEntry>>
    requires op.IssueTicket? || op.HostResume? || op.RevokeTicket?
  {
    if o.kind != Local || !op.put then None
    else if op.RevokeTicket? then (
      var i := Position(o.tickets, op.ticket);
      if i == |o.tickets| || o.tickets[i].status == Revoked then None else Some(Mark(o.tickets, op.ticket)))
    else if op.HostResume? && op.peer != o.host then None
    else Some(o.tickets + [LedgerEntry(op.mint)])
  }

  /** What a write by id does to the record of a live hosted session. */
  lemma RecordChange(c: Cell, members: set<PeerId>, tickets: seq<TicketEntry>, epoch: nat, floor: nat)
    requires Faithful(c) && Live(c) && HostedHere(c)
    ensures var r := c.disk.value.(members := members, tickets := tickets, epoch := epoch);
            Faithful(c.(disk := Some(r), floor := floor)) <==>
              && members == c.mem.value.members && LedgerAgrees(c.mem.value.tickets, tickets)
              && epoch == c.mem.value.epoch
  {
  }

  lemma StrayLedgerEffect(self: PeerId, id: SessionId, c: Cell, o: Session, op: Op)
    requires c.disk.Some? && (op.IssueTicket? || op.RevokeTicket?)
    ensures Strayed(self, id, c, o, op) ==
              if StrayLedger(o, op) == None then c
              else c.(disk := Some(c.disk.value.(tickets := StrayLedger(o, op).value)))
  {
  }

  /** An issue or a revoke on a stray object leaves a live hosted session in agreement with its record if and only
      if it does not write, or the object's ledger with the change still is the registered one with at most one
      entry more. */
  lemma StrayLedgerIff(self: PeerId, id: SessionId, c: Cell, o: Session, op: Op)
    requires Faithful(c) && Live(c) && HostedHere(c) && (op.IssueTicket? || op.RevokeTicket?)
    ensures Faithful(Strayed(self, id, c, o, op)) <==>
              StrayLedger(o, op) == None || LedgerAgrees(c.mem.value.tickets, StrayLedger(o, op).value)
  {
    StrayLedgerEffect(self, id, c, o, op);
    var r := c.disk.value;
    if StrayLedger(o, op).Some? { RecordChange(c, r.members, StrayLedger(o, op).value, r.epoch, c.floor); }
  }

  lemma StrayResumeEffect(self: PeerId, id: SessionId, c: Cell, o: Session, op: Op)
    requires c.disk.Some? && op.HostResume?
    ensures var d, r := Strayed(self, id, c, o, op), c.disk.value;
            if StrayLedger(o, op) == None then d == c
            else d == c.(floor := d.floor,
                         disk := Some(r.(tickets := StrayLedger(o, op).value,
                                         epoch := if op.bump == Done then NextEpoch(o.epoch) else r.epoch)))
  {
  }

  /** A resume writes the object's next epoch too. */
  lemma StrayResumeIff(self: PeerId, id: SessionId, c: Cell, o: Session, op: Op)
    requires Faithful(c) && Live(c) && HostedHere(c) && op.HostResume?
    ensures Faithful(Strayed(self, id, c, o, op)) <==>
              || StrayLedger(o, op) == None
              || (LedgerAgrees(c.mem.value.tickets, StrayLedger(o, op).value)
                  && (op.bump == Done ==> NextEpoch(o.epoch) == c.mem.value.epoch))
  {
    StrayResumeEffect(self, id, c, o, op);
    var d, r := Strayed(self, id, c, o, op), c.disk.value;
    if StrayLedger(o, op).Some? {
      RecordChange(c, r.members, StrayLedger(o, op).value,
                   if op.bump == Done then NextEpoch(o.epoch) else r.epoch, d.floor);
    }
  }

  /** The object would let the announced peer in. */
  predicate StrayEnsures(self: PeerId, id: SessionId, o: Session, op: Op)
    requires op.EnsureMember?
  {
    && op.stored && op.peer !in o.members
    && (op.proof.Some? ==>
          && Ledger.Valid(self, id, op.proof.value, op.nowMs)
          && (o.kind == Local ==> Ledger.Listed(o.tickets, op.proof.value)))
  }

  /** The ledger it then writes beside the peer: the object's own with the use noted, unless it was already. */
  function StrayNoted(o: Session, op: Op): Option<seq<TicketEntry>>
    requires op.EnsureMember?
  {
    if op.proof == None || o.kind == Remote || !op.put then None
    else
      var noted := NoteUse(o.tickets, op.proof.value.ticket, op.peer);
      if noted == o.tickets then None else Some(noted)
  }

  lemma StrayEnsureEffect(self: PeerId, id: SessionId, c: Cell, o: Session, op: Op)
    requires c.disk.Some? && op.EnsureMember?
    ensures var r := c.disk.value;
            var tickets := if StrayNoted(o, op) == None then r.tickets else StrayNoted(o, op).value;
            Strayed(self, id, c, o, op) ==
              if !StrayEnsures(self, id, o, op) then c
              else c.(disk := Some(r.(members := r.members + {op.peer}, tickets := tickets)))
  {
  }

  /** An announcement on a stray object leaves members and ledger in agreement if and only if the object refuses
      it, or the peer is a registered member and the noted ledger, if written, is the registered one with at most
      one entry more. */
  lemma StrayEnsureIff(self: PeerId, id: SessionId, c: Cell, o: Session, op: Op)
    requires Faithful(c) && Live(c) && HostedHere(c) && op.EnsureMember?
    ensures Faithful(Strayed(self, id, c, o, op)) <==>
              || !StrayEnsures(self, id, o, op)
              || (op.peer in c.mem.value.members
                  && (StrayNoted(o, op).Some? ==> LedgerAgrees(c.mem.value.tickets, StrayNoted(o, op).value)))
  {
    StrayEnsureEffect(self, id, c, o, op);
    if StrayEnsures(self, id, o, op) {
      var r := c.disk.value;
      var tickets := if StrayNoted(o, op) == None then r.tickets else StrayNoted(o, op).value;
      assert r.members + {op.peer} == r.members <==> op.peer in r.members;
      RecordChange(c, r.members + {op.peer}, tickets, r.epoch, c.floor);
    }
  }

  /** The host leaves and hosts the same id again. */
  function Rehosted(host: PeerId): seq<Op> {
    [Leave(host, true), Unlist] + [HostCreate(host, Mint(8, ReadWrite, 0, 0), true, Done)]
  }

  lemma RehostedState(host: PeerId, id: SessionId, ops: seq<Op>)
    requires var c := Reached(host, id, ops);
             Live(c) && HostedHere(c) && c.mem.value.host == host && host in c.mem.value.members
                 && c.flight.unlists == 0
    ensures var c := Reached(host, id, ops + Rehosted(host));
            Faithful(c) && Live(c) && HostedHere(c) && c.mem.value.log == [] && c.disk.Some? && c.disk.value.log == []
  {
    var c := Reached(host, id, ops);
    ReachedTwo(host, id, ops, Leave(host, true), Unlist);
    ReachedStep(host, id, ops + [Leave(host, true), Unlist], Rehosted(host)[2]);
    assert ops + [Leave(host, true), Unlist] + [Rehosted(host)[2]] == ops + Rehosted(host);
    GoneAfter(host, id, c);
    CreatedAfter(host, id, Reached(host, id, ops + [Leave(host, true), Unlist]));
  }

  lemma GoneAfter(host: PeerId, id: SessionId, c: Cell)
    requires Live(c) && HostedHere(c) && c.mem.value.host == host && host in c.mem.value.members
        && c.flight.unlists == 0
    ensures var d := Perform(host, id, Perform(host, id, c, Leave(host, true)).cell, Unlist).cell;
            d.mem == None && d.disk == None && !d.doomed
  {
  }

  lemma CreatedAfter(host: PeerId, id: SessionId, c: Cell)
    requires c.mem == None && c.disk == None && !c.doomed
    ensures var d := Perform(host, id, c, Rehosted(host)[2]).cell;
            Faithful(d) && Live(d) && HostedHere(d) && d.mem.value.log == [] && d.disk.Some? && d.disk.value.log == []
  {
    EmptyProjection(host);
  }

  lemma WriterState(host: PeerId, id: SessionId, p: PeerId)
    requires p != host
    ensures var c := Reached(host, id, WithWriter(host, id, p));
            Live(c) && HostedHere(c) && c.mem.value.host == host && host in c.mem.value.members && c.flight.unlists == 0
  {
    var ops := WithWriter(host, id, p);
    assert [] + [ops[0]] == ops[..1] && ops[..1] + [ops[1]] == ops[..2] && ops[..2] + [ops[2]] == ops;
    ReachedStep(host, id, [], ops[0]);
    ReachedStep(host, id, ops[..1], ops[1]);
    ReachedStep(host, id, ops[..2], ops[2]);
    BookkeepingEffect(host, id, Reached(host, id, ops[..1]), ops[1]);
    SendEffect(host, id, Reached(host, id, ops[..2]), ops[2]);
  }

  lemma WriterTickets(host: PeerId, id: SessionId, p: PeerId)
    requires p != host
    ensures var c := Reached(host, id, WithWriter(host, id, p));
            HostedHere(c) && c.mem.value.tickets != [] && c.mem.value.tickets[0].id == 7
  {
    var ops := WithWriter(host, id, p);
    assert [] + [ops[0]] == ops[..1] && ops[..1] + [ops[1]] == ops[..2] && ops[..2] + [ops[2]] == ops;
    ReachedStep(host, id, [], ops[0]);
    ReachedStep(host, id, ops[..1], ops[1]);
    ReachedStep(host, id, ops[..2], ops[2]);
    SendEffect(host, id, Reached(host, id, ops[..2]), ops[2]);
  }

  /** A member's send that looked before the host left: it is written into the log file of the next session. */
  lemma StraySendWitness(host: PeerId, id: SessionId, p: PeerId, body: Bytes)
    requires p != host
    ensures var o := Reached(host, id, WithWriter(host, id, p)).mem;
            var c := Reached(host, id, WithWriter(host, id, p) + Rehosted(host));
            && o.Some? && Live(c) && Faithful(c)
            && !Faithful(Strayed(host, id, c, o.value, AsSend(Ask(id, p, 0, body), 10, Done)))
  {
    var ops, op := WithWriter(host, id, p), AsSend(Ask(id, p, 0, body), 10, Done);
    WriterState(host, id, p);
    WriterCanSend(host, id, p, 0, body);
    RehostedState(host, id, ops);
    StraySendIff(host, id, Reached(host, id, ops + Rehosted(host)), Reached(host, id, ops).mem.value, op);
  }

  lemma RehostedLedger(host: PeerId, id: SessionId, ops: seq<Op>)
    requires var c := Reached(host, id, ops);
             Live(c) && HostedHere(c) && c.mem.value.host == host && host in c.mem.value.members
                 && c.flight.unlists == 0
    ensures var c := Reached(host, id, ops + Rehosted(host));
            HostedHere(c) && c.mem.value.tickets == [LedgerEntry(Rehosted(host)[2].mint)]
  {
    ReachedTwo(host, id, ops, Leave(host, true), Unlist);
    ReachedStep(host, id, ops + [Leave(host, true), Unlist], Rehosted(host)[2]);
    assert ops + [Leave(host, true), Unlist] + [Rehosted(host)[2]] == ops + Rehosted(host);
    GoneAfter(host, id, Reached(host, id, ops));
  }

  /** An issue that looked before the host left: the old session's ledger replaces that of the next. */
  lemma StrayIssueWitness(host: PeerId, id: SessionId, p: PeerId)
    requires p != host
    ensures var o := Reached(host, id, WithWriter(host, id, p)).mem;
            var c := Reached(host, id, WithWriter(host, id, p) + Rehosted(host));
            && o.Some? && Live(c) && Faithful(c)
            && !Faithful(Strayed(host, id, c, o.value, IssueTicket(Mint(9, ReadWrite, 0, 0), true)))
  {
    var ops, op := WithWriter(host, id, p), IssueTicket(Mint(9, ReadWrite, 0, 0), true);
    WriterState(host, id, p);
    WriterTickets(host, id, p);
    RehostedState(host, id, ops);
    RehostedLedger(host, id, ops);
    var o, c := Reached(host, id, ops).mem.value, Reached(host, id, ops + Rehosted(host));
    StrayLedgerIff(host, id, c, o, op);
    assert Bare(c.mem.value.tickets[0]).id == 8 && Bare((o.tickets + [LedgerEntry(op.mint)])[0]).id == 7;
  }
}
