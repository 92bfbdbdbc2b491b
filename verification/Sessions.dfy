/** One session id of a daemon: its entry in memory, its record in the store, and every registry operation
    on it. A step is one hold of the session lock, or of the map lock for a create. Joining, rolling back,
    leaving and closing let go of every lock on the way, so each is several steps. */
module Sessions {
  import opened Protocol
  import opened Capabilities
  import opened Mirrors

  datatype TicketStatus = Active | Revoked

  datatype TicketEntry = TicketEntry(
    id: TicketId, cap: Capability, expiryMs: nat, issuedAtMs: nat, status: TicketStatus, usedBy: seq<PeerId>)

  datatype SessionKind = Local | Remote

  datatype Session = Session(
    host: PeerId, kind: SessionKind, members: set<PeerId>, log: seq<Message>, head: nat, epoch: nat,
    caps: Caps, tickets: seq<TicketEntry>, envelope: Option<Bytes>)

  datatype Record = Record(
    host: PeerId, kind: SessionKind, members: set<PeerId>, log: seq<Message>, head: nat, epoch: nat,
    tickets: seq<TicketEntry>, envelope: Option<Bytes>)

  /** How far a remote join has come: it found nothing registered, or it also wrote its record. */
  datatype Claimant = Looked(host: PeerId, epoch: nat) | Stored(host: PeerId, epoch: nat)

  /** What is under way with no lock held: joins that found nothing registered, joins whose subscribe is
      running, records a rollback still has to delete, entries a leave or close still has to remove. */
  datatype Flight = Flight(claims: map<nat, Claimant>, joining: nat, deletes: nat, unlists: nat)

  const IDLE := Flight(map[], 0, 0, 0)

  /** `floor` is the lowest epoch a fresh create may use; it survives deletion of the record. `doomed`: the
      registered session's own leave or close has deleted its record and not yet removed its entry. */
  datatype Cell = Cell(mem: Option<Session>, disk: Option<Record>, floor: nat, doomed: bool, flight: Flight)

  const VACANT := Cell(None, None, 0, false, IDLE)

  /** A bearer's claim, as a join announcement carries it. */
  datatype CapClaim = CapClaim(ticket: TicketId, cap: Capability, expiryMs: nat, epoch: nat, signature: Signature)

  /** Who authored a body: this daemon, stamping the time and signing, or a joiner that already did both. */
  datatype Authoring = ByDaemon(nowMs: nat) | ByJoiner(timestampMs: nat, signature: Signature)

  datatype Mint = Mint(ticket: TicketId, cap: Capability, expiryMs: nat, nowMs: nat)

  datatype Op =
    | HostCreate(peer: PeerId, mint: Mint, floorRead: bool, create: Io)
    | HostResume(peer: PeerId, mint: Mint, put: bool, bump: Io)
    | IssueTicket(mint: Mint, put: bool)
    | RevokeTicket(ticket: TicketId, put: bool)
    | Join(peer: PeerId, stored: bool)
    | ClaimLook(claim: nat, host: PeerId, epoch: nat)
    | ClaimStore(claim: nat, create: Io)
    | ClaimInsert(claim: nat)
    | JoinDone
    | RollbackRemove
    | RollbackDelete(deleted: bool)
    | Leave(peer: PeerId, stored: bool)
    | RemoveMember(peer: PeerId, stored: bool)
    | EnsureMember(peer: PeerId, proof: Option<CapClaim>, nowMs: nat, stored: bool, put: bool)
    | Send(author: PeerInfo, kind: MessageKind, action: string, payload: Payload, authoring: Authoring,
           frameLen: nat, io: Io)
    | MirrorFrame(frame: Message, io: Io)
    | AdvanceWatermark(epoch: nat, stored: bool)
    | PublishEnvelope(envelope: Bytes, stored: bool)
    | EmitEnvelope(sender: PeerId, envelope: Bytes, stored: bool)
    | HostClosed(deleted: bool)
    | Unlist
    | Restart

  datatype Error =
    | UnknownSession | NotMember | NotHost | SessionConflict | Storage | Internal | ReservedAction
    | CapabilityDenied | SignatureRejected | PayloadTooLarge
    | TicketExpired | InvalidCapClaim | TicketNotAdmissible | UnknownTicket

  /** `Retry`: another host call won the create, look again. `Forwarded`: the host must sequence it. */
  datatype Reply = Ok | Minted | Sent(message: Message) | Forwarded | Retry | Err(error: Error)

  datatype Outcome = Outcome(cell: Cell, reply: Reply)

  // ---- Store ----

  function ToRecord(s: Session): Record {
    Record(s.host, s.kind, s.members, s.log, s.head, s.epoch, s.tickets, s.envelope)
  }

  /** Load: capabilities are projected from the log, and the head is never behind the log. */
  function FromRecord(r: Record): Session {
    Session(r.host, r.kind, r.members, r.log, Max(r.head, MaxSeq(r.log)), r.epoch,
            ProjectCaps(r.host, r.log), r.tickets, r.envelope)
  }

  /** Creating over an existing directory rewrites the metadata, adopts the log that is there, and keeps
      the ledger and envelope files it has nothing to write into. */
  function Adopt(prior: Option<Record>, r: Record): Record {
    match prior
    case None => r
    case Some(o) => r.(log := o.log + r.log,
                       tickets := if r.tickets == [] then o.tickets else r.tickets,
                       envelope := if r.envelope == None then o.envelope else r.envelope)
  }

  // ---- Tickets ----

  function LedgerEntry(m: Mint): TicketEntry {
    TicketEntry(m.ticket, m.cap, m.expiryMs, m.nowMs, Active, [])
  }

  predicate AdmitsIn(tickets: seq<TicketEntry>, claim: CapClaim) {
    exists i :: 0 <= i < |tickets| && tickets[i].id == claim.ticket && tickets[i].status == Active
                && tickets[i].cap == claim.cap && tickets[i].expiryMs == claim.expiryMs
  }

  predicate TicketAdmissible(s: Session, claim: CapClaim) {
    s.kind == Remote || AdmitsIn(s.tickets, claim)
  }

  /** First position of a ticket, or the length. */
  function Position(tickets: seq<TicketEntry>, id: TicketId): (i: nat)
    ensures i <= |tickets|
    ensures i < |tickets| ==> tickets[i].id == id
    ensures forall j :: 0 <= j < i ==> tickets[j].id != id
  {
    if tickets == [] then 0
    else
      var i := Position(tickets[..|tickets| - 1], id);
      if i < |tickets| - 1 || tickets[|tickets| - 1].id == id then i else |tickets|
  }

  function Mark(tickets: seq<TicketEntry>, id: TicketId): seq<TicketEntry>
    requires Position(tickets, id) < |tickets|
  {
    var i := Position(tickets, id);
    tickets[i := tickets[i].(status := Revoked)]
  }

  /** The advisory note of who was admitted with a ticket. */
  function NoteUse(tickets: seq<TicketEntry>, id: TicketId, peer: PeerId): seq<TicketEntry> {
    var i := Position(tickets, id);
    if i < |tickets| && peer !in tickets[i].usedBy
    then tickets[i := tickets[i].(usedBy := tickets[i].usedBy + [peer])]
    else tickets
  }

  predicate ClaimVerifies(self: PeerId, id: SessionId, c: CapClaim) {
    c.signature == Signed(self, TicketCap(c.ticket, id, c.cap, c.expiryMs, c.epoch))
  }

  predicate Unexpired(c: CapClaim, nowMs: nat) { c.expiryMs == 0 || c.expiryMs > nowMs }

  // ---- Operations ----

  function Fail(c: Cell, e: Error): Outcome { Outcome(c, Err(e)) }

  function LocalError(c: Cell): Option<Error> {
    if c.mem == None then Some(UnknownSession) else if c.mem.value.kind != Local then Some(NotHost) else None
  }

  function Creating(c: Cell, peer: PeerId, mint: Mint, floorRead: bool, io: Io): Outcome {
    if c.mem.Some? then Outcome(c, Retry)
    else if !floorRead || io == Failed then Fail(c, Storage)
    else
      var s := Session(peer, Local, {peer}, [], 0, c.floor, map[peer := ReadWrite], [LedgerEntry(mint)], None);
      var floor := Max(c.floor, c.floor + 1);
      if io == Torn then
        Outcome(c.(disk := Some(Adopt(c.disk, ToRecord(s).(tickets := []))), floor := floor), Err(Storage))
      else Outcome(c.(mem := Some(s), disk := Some(Adopt(c.disk, ToRecord(s))), floor := floor, doomed := false),
          Minted)
  }

  /** Ledger first, epoch last. */
  function Resuming(c: Cell, peer: PeerId, mint: Mint, put: bool, bump: Io): Outcome {
    if c.mem == None then Outcome(c, Retry)
    else
      var s := c.mem.value;
      if s.host != peer || s.kind != Local then Fail(c, SessionConflict)
      else if !put || c.disk == None then Fail(c, Storage)
      else
        var epoch, tickets := NextEpoch(s.epoch), s.tickets + [LedgerEntry(mint)];
        var written := c.disk.value.(tickets := tickets);
        var floor := Max(c.floor, epoch + 1);
        match bump
        case Failed => Outcome(c.(disk := Some(written)), Err(Storage))
        case Torn => Outcome(c.(disk := Some(written), floor := floor), Err(Storage))
        case Done => Outcome(c.(mem := Some(s.(epoch := epoch, tickets := tickets)),
                                disk := Some(written.(epoch := epoch)), floor := floor), Minted)
  }

  function Issuing(c: Cell, mint: Mint, put: bool): Outcome {
    if LocalError(c).Some? then Fail(c, LocalError(c).value)
    else if !put || c.disk == None then Fail(c, Storage)
    else
      var tickets := c.mem.value.tickets + [LedgerEntry(mint)];
      Outcome(c.(mem := Some(c.mem.value.(tickets := tickets)), disk := Some(c.disk.value.(tickets := tickets))),
          Minted)
  }

  function Revoking(c: Cell, id: TicketId, put: bool): Outcome {
    if LocalError(c).Some? then Fail(c, LocalError(c).value)
    else
      var s := c.mem.value;
      var i := Position(s.tickets, id);
      if i == |s.tickets| then Fail(c, UnknownTicket)
      else if s.tickets[i].status == Revoked then Outcome(c, Ok)
      else if !put || c.disk == None then Fail(c, Storage)
      else
        var tickets := Mark(s.tickets, id);
        Outcome(c.(mem := Some(s.(tickets := tickets)), disk := Some(c.disk.value.(tickets := tickets))), Ok)
  }

  function WithMembers(c: Cell, members: set<PeerId>, diskMembers: set<PeerId>): Cell
    requires c.mem.Some? && c.disk.Some?
  {
    c.(mem := Some(c.mem.value.(members := members)), disk := Some(c.disk.value.(members := diskMembers)))
  }

  /** The registered-entry path of a join. */
  function Joining(c: Cell, peer: PeerId, stored: bool): Outcome {
    if c.mem == None then Fail(c, UnknownSession)
    else if peer in c.mem.value.members then Outcome(c, Ok)
    else if !stored || c.disk == None then Fail(c, Storage)
    else Outcome(WithMembers(c, c.mem.value.members + {peer}, c.disk.value.members + {peer}), Ok)
  }

  /** The mirror a join would register. */
  function FreshMirror(host: PeerId, epoch: nat): Session {
    Session(host, Remote, {host}, [], 0, epoch, map[host := ReadWrite], [], None)
  }

  /** A ticket of our own for a session we do not have is stale or forged. */
  function Looking(self: PeerId, c: Cell, i: nat, host: PeerId, epoch: nat): Outcome {
    if c.mem.Some? || i in c.flight.claims then Outcome(c, Ok)
    else if host == self then Fail(c, UnknownSession)
    else Outcome(c.(flight := c.flight.(claims := c.flight.claims[i := Looked(host, epoch)])), Ok)
  }

  predicate Waiting(c: Cell, i: nat) { i in c.flight.claims && c.flight.claims[i].Looked? }

  predicate Ready(c: Cell, i: nat) { i in c.flight.claims && c.flight.claims[i].Stored? }

  /** The record is written with no lock held, whatever has been registered since the look. */
  function Storing(c: Cell, i: nat, io: Io): Outcome {
    if !Waiting(c, i) then Outcome(c, Ok)
    else
      var host, epoch := c.flight.claims[i].host, c.flight.claims[i].epoch;
      var gone := c.flight.(claims := c.flight.claims - {i});
      var disk, floor := Some(Adopt(c.disk, ToRecord(FreshMirror(host, epoch)))), Max(c.floor, epoch + 1);
      match io
      case Failed => Fail(c.(flight := gone), Storage)
      case Torn => Fail(c.(disk := disk, floor := floor, flight := gone), Storage)
      case Done =>
        Outcome(c.(disk := disk, floor := floor,
                   flight := c.flight.(claims := c.flight.claims[i := Stored(host, epoch)])), Ok)
  }

  /** The first to insert wins; later joins adopt what is there. */
  function Inserting(c: Cell, i: nat): Outcome {
    if !Ready(c, i) then Outcome(c, Ok)
    else
      var gone := c.flight.(claims := c.flight.claims - {i});
      if c.mem.Some? then Outcome(c.(flight := gone), Ok)
      else
        Outcome(c.(mem := Some(FreshMirror(c.flight.claims[i].host, c.flight.claims[i].epoch)), doomed := false,
                   flight := gone.(joining := gone.joining + 1)), Ok)
  }

  function Joined(c: Cell): Outcome {
    if c.flight.joining == 0 then Outcome(c, Ok)
    else Outcome(c.(flight := c.flight.(joining := c.flight.joining - 1)), Ok)
  }

  /** The entry goes first, whichever session it holds by now. */
  function RollingBack(c: Cell): Outcome {
    if c.flight.joining == 0 then Outcome(c, Ok)
    else Outcome(c.(mem := None, doomed := false,
                    flight := c.flight.(joining := c.flight.joining - 1, deletes := c.flight.deletes + 1)), Ok)
  }

  /** The record goes second, whoever has written it by now. */
  function Deleting(c: Cell, ok: bool): Outcome {
    if c.flight.deletes == 0 then Outcome(c, Ok)
    else Outcome(c.(disk := if ok then None else c.disk, flight := c.flight.(deletes := c.flight.deletes - 1)), Ok)
  }

  /** The end of a leave or close: the entry goes after the session lock was released. */
  function Unlisting(c: Cell): Outcome {
    if c.flight.unlists == 0 then Outcome(c, Ok)
    else Outcome(c.(mem := None, doomed := false, flight := c.flight.(unlists := c.flight.unlists - 1)), Ok)
  }

  /** `s` is what its own leave or close makes of the session under the session lock. */
  function Doomed(c: Cell, s: Session): Cell {
    c.(mem := Some(s), disk := None, doomed := true, flight := c.flight.(unlists := c.flight.unlists + 1))
  }

  function Leaving(c: Cell, peer: PeerId, stored: bool): Outcome {
    if c.mem == None then Fail(c, UnknownSession)
    else
      var s := c.mem.value;
      if peer !in s.members then Fail(c, NotMember)
      else if !stored then Fail(c, Storage)
      else if peer == s.host || s.kind == Remote then Outcome(Doomed(c, s.(members := s.members - {peer})), Ok)
      else if c.disk == None then Fail(c, Storage)
      else Outcome(WithMembers(c, s.members - {peer}, c.disk.value.members - {peer}), Ok)
  }

  function Removing(c: Cell, peer: PeerId, stored: bool): Outcome {
    if LocalError(c).Some? then Fail(c, LocalError(c).value)
    else
      var s := c.mem.value;
      if peer == s.host || peer !in s.members then Outcome(c, Ok)
      else if !stored || c.disk == None then Fail(c, Storage)
      else Outcome(WithMembers(c, s.members - {peer}, c.disk.value.members - {peer}), Ok)
  }

  /** Claim checks come before any state is read; the ledger gate comes before the already-member return. */
  function Ensuring(self: PeerId, id: SessionId, c: Cell, peer: PeerId, claim: Option<CapClaim>, nowMs: nat,
                    stored: bool, put: bool): Outcome
  {
    if claim.Some? && !Unexpired(claim.value, nowMs) then Fail(c, TicketExpired)
    else if claim.Some? && !ClaimVerifies(self, id, claim.value) then Fail(c, InvalidCapClaim)
    else if c.mem == None then Fail(c, UnknownSession)
    else
      var s := c.mem.value;
      if claim.Some? && !TicketAdmissible(s, claim.value) then Fail(c, TicketNotAdmissible)
      else if peer in s.members then Outcome(c, Ok)
      else if !stored || c.disk == None then Fail(c, Storage)
      else
        var admitted := WithMembers(c, s.members + {peer}, c.disk.value.members + {peer});
        if claim == None || s.kind == Remote then Outcome(admitted, Ok)
        else
          var tickets := NoteUse(s.tickets, claim.value.ticket, peer);
          var noted := admitted.(mem := Some(admitted.mem.value.(tickets := tickets)));
          Outcome(if put && tickets != s.tickets
                  then noted.(disk := Some(admitted.disk.value.(tickets := tickets))) else noted, Ok)
  }

  /** The author's signature over the body: fresh for our own bodies, checked for a joiner's. */
  function Authored(self: PeerId, id: SessionId, author: PeerInfo, kind: MessageKind, action: string,
                    payload: Payload, a: Authoring): Option<(nat, Signature)>
  {
    match a
    case ByDaemon(now) =>
      Some((now, Signed(self, Body(id, MESSAGE_FORMAT, now, author.id, kind, action, payload))))
    case ByJoiner(ts, sig) =>
      if AuthorVerifies(id, Message(MESSAGE_FORMAT, 0, ts, author, kind, action, payload, sig, Unsigned))
      then Some((ts, sig)) else None
  }

  /** The message the host would sequence next. */
  function Sequenced(self: PeerId, id: SessionId, s: Session, author: PeerInfo, kind: MessageKind,
                     action: string, payload: Payload, signed: (nat, Signature)): Message
  {
    Message(MESSAGE_FORMAT, s.head + 1, signed.0, author, kind, action, payload, signed.1,
            Signed(self, Sequencing(id, s.head + 1, signed.1)))
  }

  function Appended(c: Cell, m: Message): Cell
    requires c.mem.Some? && c.disk.Some?
  {
    var s, r := c.mem.value, c.disk.value;
    c.(mem := Some(s.(head := m.seqNo, log := s.log + [m], caps := Advance(s.caps, s.host, m))),
       disk := Some(r.(head := Max(r.head, m.seqNo), log := r.log + [m])))
  }

  function Sending(self: PeerId, id: SessionId, c: Cell, author: PeerInfo, kind: MessageKind, action: string,
                   payload: Payload, authoring: Authoring, frameLen: nat, io: Io): Outcome
  {
    if kind == System && ReservedSystemAction(action) then Fail(c, ReservedAction)
    else if c.mem == None then Fail(c, UnknownSession)
    else
      var s := c.mem.value;
      if author.id !in s.members then Fail(c, NotMember)
      else if s.kind == Remote then Outcome(c, Forwarded)
      else if !CanWrite(s.caps, author.id) then Fail(c, CapabilityDenied)
      else
        var signed := Authored(self, id, author, kind, action, payload, authoring);
        if signed == None then Fail(c, SignatureRejected)
        else if frameLen > MAX_SESSION_MESSAGE_FRAME then Fail(c, PayloadTooLarge)
        else if c.disk == None then Fail(c, Storage)
        else
          var m := Sequenced(self, id, s, author, kind, action, payload, signed.value);
          match io
          case Failed => Fail(c, Storage)
          case Torn => Fail(c.(disk := Some(c.disk.value.(log := c.disk.value.log + [m]))), Storage)
          case Done => Outcome(Appended(c, m), Sent(m))
  }

  /** A gossip frame applied to a mirror. */
  function Mirroring(id: SessionId, c: Cell, m: Message, io: Io): Outcome {
    if c.mem == None || c.disk == None || c.mem.value.kind != Remote then Outcome(c, Ok)
    else
      var s, r := c.mem.value, c.disk.value;
      var next := ApplyInbound(s.host, id, Mirror(s.log, s.head, r.log, []), m, io);
      Outcome(c.(mem := Some(s.(log := next.log, head := next.head)),
                 disk := Some(r.(log := next.disk, head := if next.log == s.log then r.head
                     else Max(r.head, m.seqNo)))), Ok)
  }

  function Advancing(c: Cell, epoch: nat, stored: bool): Outcome {
    if c.mem == None || c.mem.value.kind != Remote || epoch <= c.mem.value.epoch then Outcome(c, Ok)
    else if !stored then Fail(c, Storage)
    else Outcome(c.(mem := Some(c.mem.value.(epoch := epoch)),
                    disk := if c.disk == None then None else Some(c.disk.value.(epoch := epoch)),
                    floor := if c.disk == None then c.floor else Max(c.floor, epoch + 1)), Ok)
  }

  function WithEnvelope(c: Cell, e: Bytes): Cell
    requires c.mem.Some? && c.disk.Some?
  {
    c.(mem := Some(c.mem.value.(envelope := Some(e))), disk := Some(c.disk.value.(envelope := Some(e))))
  }

  function Publishing(c: Cell, e: Bytes, stored: bool): Outcome {
    if LocalError(c).Some? then Fail(c, LocalError(c).value)
    else if !stored || c.disk == None then Fail(c, Storage)
    else Outcome(WithEnvelope(c, e), Ok)
  }

  function Emitting(c: Cell, sender: PeerId, e: Bytes, stored: bool): Outcome {
    if c.mem == None then Fail(c, UnknownSession)
    else if c.mem.value.kind != Remote || sender != c.mem.value.host then Fail(c, Internal)
    else if c.mem.value.envelope == Some(e) then Outcome(c, Ok)
    else if !stored || c.disk == None then Fail(c, Storage)
    else Outcome(WithEnvelope(c, e), Ok)
  }

  function Closing(c: Cell, deleted: bool): Outcome {
    if c.mem == None || c.mem.value.kind != Remote then Outcome(c, Ok)
    else if !deleted then Fail(c, Storage)
    else Outcome(Doomed(c, c.mem.value), Ok)
  }

  function Reloading(c: Cell): Outcome {
    Outcome(c.(mem := if c.disk == None then None else Some(FromRecord(c.disk.value)), doomed := false,
        flight := IDLE), Ok)
  }

  function Perform(self: PeerId, id: SessionId, c: Cell, op: Op): Outcome {
    match op
    case HostCreate(peer, mint, floorRead, io) => Creating(c, peer, mint, floorRead, io)
    case HostResume(peer, mint, put, bump) => Resuming(c, peer, mint, put, bump)
    case IssueTicket(mint, put) => Issuing(c, mint, put)
    case RevokeTicket(t, put) => Revoking(c, t, put)
    case Join(peer, stored) => Joining(c, peer, stored)
    case ClaimLook(i, host, epoch) => Looking(self, c, i, host, epoch)
    case ClaimStore(i, io) => Storing(c, i, io)
    case ClaimInsert(i) => Inserting(c, i)
    case JoinDone => Joined(c)
    case RollbackRemove => RollingBack(c)
    case RollbackDelete(deleted) => Deleting(c, deleted)
    case Leave(peer, stored) => Leaving(c, peer, stored)
    case RemoveMember(peer, stored) => Removing(c, peer, stored)
    case EnsureMember(peer, claim, now, stored, put) => Ensuring(self, id, c, peer, claim, now, stored, put)
    case Send(author, kind, action, payload, authoring, len, io) =>
      Sending(self, id, c, author, kind, action, payload, authoring, len, io)
    case MirrorFrame(m, io) => Mirroring(id, c, m, io)
    case AdvanceWatermark(epoch, stored) => Advancing(c, epoch, stored)
    case PublishEnvelope(e, stored) => Publishing(c, e, stored)
    case EmitEnvelope(sender, e, stored) => Emitting(c, sender, e, stored)
    case HostClosed(deleted) => Closing(c, deleted)
    case Unlist => Unlisting(c)
    case Restart => Reloading(c)
  }

  function Reached(self: PeerId, id: SessionId, ops: seq<Op>): Cell {
    if ops == [] then VACANT
    else Perform(self, id, Reached(self, id, ops[..|ops| - 1]), ops[|ops| - 1]).cell
  }

  lemma ReachedStep(self: PeerId, id: SessionId, ops: seq<Op>, op: Op)
    ensures Reached(self, id, ops + [op]) == Perform(self, id, Reached(self, id, ops), op).cell
  {
    assert (ops + [op])[..|ops|] == ops;
  }
}
