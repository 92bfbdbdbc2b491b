/** The registry: every session of a daemon, in memory and in the store, and the tasks under way on each.
    A method is one lock hold, takes the outcomes of its store calls as parameters, and performs one step on
    one session. */
module Registries {
  import opened Protocol
  import opened Capabilities
  import opened Mirrors
  import opened Sessions
  import opened SessionCache
  import opened HostLogs
  import opened LogNumbers

  /** One call on one session, or a restart of the daemon. */
  datatype Call = On(id: SessionId, op: Op) | Reload

  /** What a sequence of calls amounts to for one session. */
  function CallsOn(calls: seq<Call>, id: SessionId): seq<Op> {
    if calls == [] then []
    else
      var call := calls[|calls| - 1];
      CallsOn(calls[..|calls| - 1], id) +
      if call.Reload? then [Op.Restart] else if call.id == id then [call.op] else []
  }

  class Registry {
    const self: PeerId
    var sessions: map<SessionId, Session>
    var disk: map<SessionId, Record>
    var floors: map<SessionId, nat>
    var doomed: set<SessionId>
    var flights: map<SessionId, Flight>

    constructor (self: PeerId)
      ensures this.self == self && forall id :: CellOf(id) == VACANT
    {
      this.self := self;
      sessions, disk, floors, doomed, flights := map[], map[], map[], {}, map[];
    }

    function FloorOf(id: SessionId): nat reads this { if id in floors then floors[id] else 0 }

    function FlightOf(id: SessionId): Flight reads this { if id in flights then flights[id] else IDLE }

    ghost function CellOf(id: SessionId): Cell reads this {
      Cell(if id in sessions then Some(sessions[id]) else None,
           if id in disk then Some(disk[id]) else None,
           FloorOf(id), id in doomed, FlightOf(id))
    }

    /** The step `op` was performed on `id`, answered `reply`, and no other session changed. */
    twostate predicate Performed(id: SessionId, op: Op, reply: Reply) reads this {
      && Outcome(CellOf(id), reply) == Perform(self, id, old(CellOf(id)), op)
      && forall k :: k != id ==> CellOf(k) == old(CellOf(k))
    }

    /** Another host call may have created the session since the look: then the caller looks again. */
    method Create(id: SessionId, peer: PeerId, mint: Mint, floorRead: bool, create: Io) returns (reply: Reply)
      modifies this
      ensures Performed(id, HostCreate(peer, mint, floorRead, create), reply)
    {
      if id in sessions { return Retry; }
      if !floorRead || create == Failed { return Err(Storage); }
      var epoch := FloorOf(id);
      var s := Session(peer, Local, {peer}, [], 0, epoch, map[peer := ReadWrite], [LedgerEntry(mint)], None);
      var prior := if id in disk then Some(disk[id]) else None;
      floors := floors[id := Max(epoch, epoch + 1)];
      if create == Torn {
        disk := disk[id := Adopt(prior, ToRecord(s).(tickets := []))];
        return Err(Storage);
      }
      disk := disk[id := Adopt(prior, ToRecord(s))];
      sessions := sessions[id := s];
      doomed := doomed - {id};
      return Minted;
    }

    /** Ledger first, epoch last. */
    method Resume(id: SessionId, peer: PeerId, mint: Mint, put: bool, bump: Io) returns (reply: Reply)
      modifies this
      ensures Performed(id, HostResume(peer, mint, put, bump), reply)
    {
      if id !in sessions { return Retry; }
      var s := sessions[id];
      if s.host != peer || s.kind != Local { return Err(SessionConflict); }
      var epoch := NextEpoch(s.epoch);
      var tickets := s.tickets + [LedgerEntry(mint)];
      if !put || id !in disk { return Err(Storage); }
      disk := disk[id := disk[id].(tickets := tickets)];
      if bump == Failed { return Err(Storage); }
      floors := floors[id := Max(FloorOf(id), epoch + 1)];
      if bump == Torn { return Err(Storage); }
      disk := disk[id := disk[id].(epoch := epoch)];
      sessions := sessions[id := s.(epoch := epoch, tickets := tickets)];
      return Minted;
    }

    /** Resume if registered, create otherwise. */
    method Host(id: SessionId, peer: PeerId, mint: Mint, put: bool, bump: Io, floorRead: bool, create: Io)
      returns (reply: Reply)
      modifies this
      ensures reply != Retry
      ensures Performed(id, if id in old(sessions) then HostResume(peer, mint, put, bump)
                            else HostCreate(peer, mint, floorRead, create), reply)
    {
      if id in sessions {
        reply := Resume(id, peer, mint, put, bump);
      } else {
        reply := Create(id, peer, mint, floorRead, create);
      }
    }

    method Issue(id: SessionId, mint: Mint, put: bool) returns (reply: Reply)
      modifies this
      ensures Performed(id, IssueTicket(mint, put), reply)
    {
      if id !in sessions { return Err(UnknownSession); }
      if sessions[id].kind != Local { return Err(NotHost); }
      var tickets := sessions[id].tickets + [LedgerEntry(mint)];
      if !put || id !in disk { return Err(Storage); }
      disk := disk[id := disk[id].(tickets := tickets)];
      sessions := sessions[id := sessions[id].(tickets := tickets)];
      return Minted;
    }

    method Revoke(id: SessionId, ticket: TicketId, put: bool) returns (reply: Reply)
      modifies this
      ensures Performed(id, RevokeTicket(ticket, put), reply)
    {
      if id !in sessions { return Err(UnknownSession); }
      if sessions[id].kind != Local { return Err(NotHost); }
      var tickets := sessions[id].tickets;
      var i := Position(tickets, ticket);
      if i == |tickets| { return Err(UnknownTicket); }
      if tickets[i].status == Revoked { return Ok; }
      tickets := tickets[i := tickets[i].(status := Revoked)];
      if !put || id !in disk { return Err(Storage); }
      disk := disk[id := disk[id].(tickets := tickets)];
      sessions := sessions[id := sessions[id].(tickets := tickets)];
      return Ok;
    }

    method JoinExisting(id: SessionId, peer: PeerId, stored: bool) returns (reply: Reply)
      modifies this
      ensures Performed(id, Join(peer, stored), reply)
    {
      if id !in sessions { return Err(UnknownSession); }
      if peer in sessions[id].members { return Ok; }
      if !stored || id !in disk { return Err(Storage); }
      disk := disk[id := disk[id].(members := disk[id].members + {peer})];
      sessions := sessions[id := sessions[id].(members := sessions[id].members + {peer})];
      return Ok;
    }

    method LookForMirror(id: SessionId, claim: nat, host: PeerId, epoch: nat) returns (reply: Reply)
      modifies this
      ensures Performed(id, ClaimLook(claim, host, epoch), reply)
    {
      if id in sessions || claim in FlightOf(id).claims { return Ok; }
      if host == self { return Err(UnknownSession); }
      var flight := FlightOf(id);
      flights := flights[id := flight.(claims := flight.claims[claim := Looked(host, epoch)])];
      return Ok;
    }

    /** With no lock held: the map may have changed since the look. */
    method StoreMirror(id: SessionId, claim: nat, create: Io) returns (reply: Reply)
      modifies this
      ensures Performed(id, ClaimStore(claim, create), reply)
    {
      var flight := FlightOf(id);
      if claim !in flight.claims || !flight.claims[claim].Looked? { return Ok; }
      var host, epoch := flight.claims[claim].host, flight.claims[claim].epoch;
      flights := flights[id := flight.(claims := flight.claims - {claim})];
      if create == Failed { return Err(Storage); }
      floors := floors[id := Max(FloorOf(id), epoch + 1)];
      disk := disk[id := Adopt(if id in disk then Some(disk[id]) else None, ToRecord(FreshMirror(host, epoch)))];
      if create == Torn { return Err(Storage); }
      flights := flights[id := flight.(claims := flight.claims[claim := Stored(host, epoch)])];
      return Ok;
    }

    method InsertMirror(id: SessionId, claim: nat) returns (reply: Reply)
      modifies this
      ensures Performed(id, ClaimInsert(claim), reply)
    {
      var flight := FlightOf(id);
      if claim !in flight.claims || !flight.claims[claim].Stored? { return Ok; }
      var gone := flight.(claims := flight.claims - {claim});
      flights := flights[id := gone];
      if id in sessions { return Ok; }
      sessions := sessions[id := FreshMirror(flight.claims[claim].host, flight.claims[claim].epoch)];
      doomed := doomed - {id};
      flights := flights[id := gone.(joining := gone.joining + 1)];
      return Ok;
    }

    method FinishJoin(id: SessionId) returns (reply: Reply)
      modifies this
      ensures Performed(id, JoinDone, reply)
    {
      var flight := FlightOf(id);
      if flight.joining > 0 { flights := flights[id := flight.(joining := flight.joining - 1)]; }
      return Ok;
    }

    /** A failed subscribe: the entry first ... */
    method RollbackEntry(id: SessionId) returns (reply: Reply)
      modifies this
      ensures Performed(id, RollbackRemove, reply)
    {
      var flight := FlightOf(id);
      if flight.joining == 0 { return Ok; }
      sessions := sessions - {id};
      doomed := doomed - {id};
      flights := flights[id := flight.(joining := flight.joining - 1, deletes := flight.deletes + 1)];
      return Ok;
    }

    /** ... the record afterwards. */
    method RollbackRecord(id: SessionId, deleted: bool) returns (reply: Reply)
      modifies this
      ensures Performed(id, RollbackDelete(deleted), reply)
    {
      var flight := FlightOf(id);
      if flight.deletes == 0 { return Ok; }
      flights := flights[id := flight.(deletes := flight.deletes - 1)];
      if deleted { disk := disk - {id}; }
      return Ok;
    }

    /** The part of a leave under the session lock. A departing host or mirror loses its record here and its
        entry in `RemoveEntry`. */
    method LeaveSession(id: SessionId, peer: PeerId, stored: bool) returns (reply: Reply)
      modifies this
      ensures Performed(id, Leave(peer, stored), reply)
    {
      if id !in sessions { return Err(UnknownSession); }
      var s := sessions[id];
      if peer !in s.members { return Err(NotMember); }
      var dropSession := peer == s.host || s.kind == Remote;
      if !stored || (!dropSession && id !in disk) { return Err(Storage); }
      sessions := sessions[id := s.(members := s.members - {peer})];
      if dropSession {
        disk := disk - {id};
        MarkDoomed(id);
      } else {
        disk := disk[id := disk[id].(members := disk[id].members - {peer})];
      }
      return Ok;
    }

    method MarkDoomed(id: SessionId)
      modifies this`doomed, this`flights
      ensures doomed == old(doomed) + {id}
      ensures flights == old(flights)[id := old(FlightOf(id)).(unlists := old(FlightOf(id)).unlists + 1)]
    {
      doomed := doomed + {id};
      flights := flights[id := FlightOf(id).(unlists := FlightOf(id).unlists + 1)];
    }

    /** The end of a leave or close, after the session lock was released. */
    method RemoveEntry(id: SessionId) returns (reply: Reply)
      modifies this
      ensures Performed(id, Unlist, reply)
    {
      var flight := FlightOf(id);
      if flight.unlists == 0 { return Ok; }
      sessions := sessions - {id};
      doomed := doomed - {id};
      flights := flights[id := flight.(unlists := flight.unlists - 1)];
      return Ok;
    }

    method Evict(id: SessionId, peer: PeerId, stored: bool) returns (reply: Reply)
      modifies this
      ensures Performed(id, RemoveMember(peer, stored), reply)
    {
      if id !in sessions { return Err(UnknownSession); }
      var s := sessions[id];
      if s.kind != Local { return Err(NotHost); }
      if peer == s.host { return Ok; }
      if peer !in s.members { return Ok; }
      if !stored || id !in disk { return Err(Storage); }
      disk := disk[id := disk[id].(members := disk[id].members - {peer})];
      sessions := sessions[id := s.(members := s.members - {peer})];
      return Ok;
    }

    method Ensure(id: SessionId, peer: PeerId, proof: Option<CapClaim>, nowMs: nat, stored: bool, put: bool)
      returns (reply: Reply)
      modifies this
      ensures Performed(id, EnsureMember(peer, proof, nowMs, stored, put), reply)
    {
      if proof.Some? {
        if !Unexpired(proof.value, nowMs) { return Err(TicketExpired); }
        if !ClaimVerifies(self, id, proof.value) { return Err(InvalidCapClaim); }
      }
      if id !in sessions { return Err(UnknownSession); }
      var s := sessions[id];
      if proof.Some? && !TicketAdmissible(s, proof.value) { return Err(TicketNotAdmissible); }
      if peer in s.members { return Ok; }
      if !stored || id !in disk { return Err(Storage); }
      disk := disk[id := disk[id].(members := disk[id].members + {peer})];
      s := s.(members := s.members + {peer});
      if proof.Some? && s.kind == Local {
        var i := Position(s.tickets, proof.value.ticket);
        if i < |s.tickets| && peer !in s.tickets[i].usedBy {
          s := s.(tickets := s.tickets[i := s.tickets[i].(usedBy := s.tickets[i].usedBy + [peer])]);
          assert s.tickets[i] != old(sessions)[id].tickets[i];
          if put { disk := disk[id := disk[id].(tickets := s.tickets)]; }
        }
      }
      sessions := sessions[id := s];
      return Ok;
    }

    /** The store's append: the log file, then the record with the new head. */
    method StoreAppend(id: SessionId, m: Message, io: Io) returns (ok: bool)
      modifies this`disk
      ensures ok <==> io == Done && id in old(disk)
      ensures disk == if io == Failed || id !in old(disk) then old(disk)
                      else var r := old(disk)[id].(log := old(disk)[id].log + [m]);
                           old(disk)[id := if io == Torn then r else r.(head := Max(r.head, m.seqNo))]
    {
      if io == Failed || id !in disk { return false; }
      disk := disk[id := disk[id].(log := disk[id].log + [m])];
      if io == Torn { return false; }
      disk := disk[id := disk[id].(head := Max(disk[id].head, m.seqNo))];
      return true;
    }

    /** Store first; memory follows only if the store took the message. */
    method Commit(id: SessionId, m: Message, io: Io) returns (reply: Reply)
      requires id in sessions
      modifies this`disk, this`sessions
      ensures var c := old(CellOf(id));
              Outcome(CellOf(id), reply) ==
                if c.disk == None || io == Failed then Fail(c, Storage)
                else if io == Torn then Fail(c.(disk := Some(c.disk.value.(log := c.disk.value.log + [m]))), Storage)
                else Outcome(Appended(c, m), Sent(m))
      ensures forall k :: k != id ==> CellOf(k) == old(CellOf(k))
    {
      var s := sessions[id];
      var stored := StoreAppend(id, m, io);
      if !stored { return Err(Storage); }
      s := s.(head := m.seqNo, log := s.log + [m]);
      if m.kind == MessageKind.Capability { s := s.(caps := ApplyCapability(s.caps, s.host, m)); }
      sessions := sessions[id := s];
      return Sent(m);
    }

    /** Sequence and append one message; membership, capability, author, size and storage are checked in that order. */
    method Append(id: SessionId, author: PeerInfo, kind: MessageKind, action: string, payload: Payload,
                  authoring: Authoring, frameLen: nat, io: Io)
      returns (reply: Reply)
      modifies this
      ensures Performed(id, Send(author, kind, action, payload, authoring, frameLen, io), reply)
    {
      if kind == System && ReservedSystemAction(action) { return Err(ReservedAction); }
      if id !in sessions { return Err(UnknownSession); }
      var s := sessions[id];
      if author.id !in s.members { return Err(NotMember); }
      if s.kind == Remote { return Forwarded; }
      if !CanWrite(s.caps, author.id) { return Err(CapabilityDenied); }
      var signed := Authored(self, id, author, kind, action, payload, authoring);
      if signed == None { return Err(SignatureRejected); }
      var m := Sequenced(self, id, s, author, kind, action, payload, signed.value);
      if frameLen > MAX_SESSION_MESSAGE_FRAME { return Err(PayloadTooLarge); }
      reply := Commit(id, m, io);
    }

    /** A gossip frame for a mirror, applied to its session and its record. */
    method ApplyFrame(id: SessionId, m: Message, io: Io) returns (reply: Reply)
      modifies this
      ensures Performed(id, MirrorFrame(m, io), reply)
    {
      if id !in sessions || sessions[id].kind != Remote || id !in disk { return Ok; }
      var s := sessions[id];
      var pos := PartitionPoint(s.log, m.seqNo);
      if pos < |s.log| && s.log[pos].seqNo == m.seqNo { return Ok; }
      if !AuthorVerifies(id, m) || !HostVerifies(s.host, id, m) { return Ok; }
      var stored := StoreAppend(id, m, io);
      if !stored { return Ok; }
      var log := s.log[..pos] + [m] + s.log[pos..];
      assert |log| == |s.log| + 1;
      sessions := sessions[id := s.(log := log, head := Max(s.head, m.seqNo))];
      return Ok;
    }

    method Advance(id: SessionId, epoch: nat, stored: bool) returns (reply: Reply)
      modifies this
      ensures Performed(id, AdvanceWatermark(epoch, stored), reply)
    {
      if id !in sessions { return Ok; }
      var s := sessions[id];
      if s.kind != Remote || epoch <= s.epoch { return Ok; }
      if !stored { return Err(Storage); }
      if id in disk {
        floors := floors[id := Max(FloorOf(id), epoch + 1)];
        disk := disk[id := disk[id].(epoch := epoch)];
      }
      sessions := sessions[id := s.(epoch := epoch)];
      return Ok;
    }

    method Publish(id: SessionId, envelope: Bytes, stored: bool) returns (reply: Reply)
      modifies this
      ensures Performed(id, PublishEnvelope(envelope, stored), reply)
    {
      if id !in sessions { return Err(UnknownSession); }
      if sessions[id].kind != Local { return Err(NotHost); }
      if !stored || id !in disk { return Err(Storage); }
      disk := disk[id := disk[id].(envelope := Some(envelope))];
      sessions := sessions[id := sessions[id].(envelope := Some(envelope))];
      return Ok;
    }

    method Emit(id: SessionId, sender: PeerId, envelope: Bytes, stored: bool) returns (reply: Reply)
      modifies this
      ensures Performed(id, EmitEnvelope(sender, envelope, stored), reply)
    {
      if id !in sessions { return Err(UnknownSession); }
      var s := sessions[id];
      if s.kind != Remote { return Err(Internal); }
      if sender != s.host { return Err(Internal); }
      if s.envelope == Some(envelope) { return Ok; }
      if !stored || id !in disk { return Err(Storage); }
      disk := disk[id := disk[id].(envelope := Some(envelope))];
      sessions := sessions[id := s.(envelope := Some(envelope))];
      return Ok;
    }

    /** The part of a close under the session lock. */
    method HostClosedSession(id: SessionId, deleted: bool) returns (reply: Reply)
      modifies this
      ensures Performed(id, HostClosed(deleted), reply)
    {
      if id !in sessions || sessions[id].kind != Remote { return Ok; }
      if !deleted { return Err(Storage); }
      disk := disk - {id};
      MarkDoomed(id);
      return Ok;
    }

    /** Startup: every record the store returns becomes a session, and nothing is under way. */
    method Load()
      modifies this
      ensures forall id :: CellOf(id) == Perform(self, id, old(CellOf(id)), Op.Restart).cell
    {
      sessions := map id | id in disk :: FromRecord(disk[id]);
      doomed, flights := {}, map[];
    }

    // ---- Any sequence of calls ----

    method ServeLedger(id: SessionId, op: Op) returns (reply: Reply)
      requires op.HostCreate? || op.HostResume? || op.IssueTicket? || op.RevokeTicket?
      modifies this
      ensures Performed(id, op, reply)
    {
      match op
      case HostCreate(peer, mint, floorRead, io) => reply := Create(id, peer, mint, floorRead, io);
      case HostResume(peer, mint, put, bump) => reply := Resume(id, peer, mint, put, bump);
      case IssueTicket(mint, put) => reply := Issue(id, mint, put);
      case RevokeTicket(ticket, put) => reply := Revoke(id, ticket, put);
    }

    method ServeMembers(id: SessionId, op: Op) returns (reply: Reply)
      requires op.Join? || op.Leave? || op.RemoveMember? || op.EnsureMember? || op.HostClosed? || op.Unlist?
      modifies this
      ensures Performed(id, op, reply)
    {
      match op
      case Join(peer, stored) => reply := JoinExisting(id, peer, stored);
      case Leave(peer, stored) => reply := LeaveSession(id, peer, stored);
      case RemoveMember(peer, stored) => reply := Evict(id, peer, stored);
      case EnsureMember(peer, proof, now, stored, put) => reply := Ensure(id, peer, proof, now, stored, put);
      case HostClosed(deleted) => reply := HostClosedSession(id, deleted);
      case Unlist => reply := RemoveEntry(id);
    }

    method ServeJoins(id: SessionId, op: Op) returns (reply: Reply)
      requires op.ClaimLook? || op.ClaimStore? || op.ClaimInsert? || op.JoinDone? || op.RollbackRemove?
          || op.RollbackDelete?
      modifies this
      ensures Performed(id, op, reply)
    {
      match op
      case ClaimLook(claim, host, epoch) => reply := LookForMirror(id, claim, host, epoch);
      case ClaimStore(claim, io) => reply := StoreMirror(id, claim, io);
      case ClaimInsert(claim) => reply := InsertMirror(id, claim);
      case JoinDone => reply := FinishJoin(id);
      case RollbackRemove => reply := RollbackEntry(id);
      case RollbackDelete(deleted) => reply := RollbackRecord(id, deleted);
    }

    method ServeContent(id: SessionId, op: Op) returns (reply: Reply)
      requires op.Send? || op.MirrorFrame? || op.AdvanceWatermark? || op.PublishEnvelope? || op.EmitEnvelope?
      modifies this
      ensures Performed(id, op, reply)
    {
      match op
      case Send(author, kind, action, payload, authoring, len, io) =>
        reply := Append(id, author, kind, action, payload, authoring, len, io);
      case MirrorFrame(m, io) => reply := ApplyFrame(id, m, io);
      case AdvanceWatermark(epoch, stored) => reply := Advance(id, epoch, stored);
      case PublishEnvelope(envelope, stored) => reply := Publish(id, envelope, stored);
      case EmitEnvelope(sender, envelope, stored) => reply := Emit(id, sender, envelope, stored);
    }

    method Serve(id: SessionId, op: Op) returns (reply: Reply)
      requires !op.Restart?
      modifies this
      ensures Performed(id, op, reply)
    {
      if op.HostCreate? || op.HostResume? || op.IssueTicket? || op.RevokeTicket? {
        reply := ServeLedger(id, op);
      } else if op.Join? || op.Leave? || op.RemoveMember? || op.EnsureMember? || op.HostClosed? || op.Unlist? {
        reply := ServeMembers(id, op);
      } else if op.Send? || op.MirrorFrame? || op.AdvanceWatermark? || op.PublishEnvelope? || op.EmitEnvelope? {
        reply := ServeContent(id, op);
      } else {
        reply := ServeJoins(id, op);
      }
    }

    /** Whatever is called, on whichever sessions, in whatever order: each session is where its own calls put
        it. So what holds of every run of operations holds of every session of the registry. */
    method ServeAll(calls: seq<Call>)
      requires forall id :: CellOf(id) == VACANT
      requires forall call :: call in calls && call.On? ==> !call.op.Restart?
      modifies this
      ensures forall id :: CellOf(id) == Reached(self, id, CallsOn(calls, id))
    {
      for i := 0 to |calls|
        invariant forall id :: CellOf(id) == Reached(self, id, CallsOn(calls[..i], id))
      {
        var call := calls[i];
        assert calls[..i + 1][..i] == calls[..i];
        if call.Reload? {
          Load();
          forall id ensures CellOf(id) == Reached(self, id, CallsOn(calls[..i + 1], id)) {
            ReachedStep(self, id, CallsOn(calls[..i], id), Op.Restart);
          }
        } else {
          assert call in calls;
          var reply := Serve(call.id, call.op);
          forall id ensures CellOf(id) == Reached(self, id, CallsOn(calls[..i + 1], id)) {
            if id == call.id {
              ReachedStep(self, id, CallsOn(calls[..i], id), call.op);
            } else {
              assert CallsOn(calls[..i + 1], id) == CallsOn(calls[..i], id);
            }
          }
        }
      }
      assert calls[..|calls|] == calls;
    }

    /** For one: the hosted logs of a registry authorise themselves, exactly when the files they were loaded from
        did, and the capability sets it keeps are their projections in any case. */
    lemma HostedLogAuthorisesItself(calls: seq<Call>, id: SessionId)
      requires CellOf(id) == Reached(self, id, CallsOn(calls, id)) && id in sessions && sessions[id].kind == Local
      ensures sessions[id].caps == ProjectCaps(sessions[id].host, sessions[id].log)
      ensures SelfAuthorising(sessions[id]) <==>
                LoadedNumbered(self, id, CallsOn(calls, id)) && LoadedAuthorised(self, id, CallsOn(calls, id))
    {
      CapsAreProjection(self, id, CallsOn(calls, id));
      LogAuthorisesItselfIff(self, id, CallsOn(calls, id));
    }

    /** And for another: a crash now loses nothing of it, if no step since the last restart, or since a moment when
        it was not live, has put memory and store at odds. */
    lemma RecordRecovers(calls: seq<Call>, id: SessionId, n: nat)
      requires CellOf(id) == Reached(self, id, CallsOn(calls, id)) && id in sessions && id !in doomed
      requires var ops := CallsOn(calls, id);
               n <= |ops| && Afresh(self, id, ops, n) && forall k :: n <= k < |ops| ==> !UnfaithfulAt(self, id, ops, k)
      ensures id in disk && Reproduces(sessions[id], FromRecord(disk[id]))
    {
      CrashReproducesSession(self, id, CallsOn(calls, id), n);
    }
  }
}
