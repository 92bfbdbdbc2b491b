/** Who can become a member of a hosted session, and how. */
module Admission {
  import opened Protocol
  import opened Capabilities
  import opened Sessions
  import opened SessionCache
  import opened HostLogs
  import Ledger

  // ---- What reaches the registry, and from whom ----

  /** A request on a local connection, a gossip frame with the neighbour that delivered it, or a step the
      daemon takes by itself. */
  datatype Input =
    | HostRequest(mint: Mint, put: bool, bump: Io, floorRead: bool, create: Io)
    | JoinRequest(stored: bool)
    | SendRequest(displayName: string, kind: MessageKind, action: string, payload: Payload, nowMs: nat,
                  frameLen: nat, io: Io)
    | LeaveRequest(stored: bool)
    | SendFrame(peer: PeerInfo, deliveredFrom: PeerId, kind: MessageKind, action: string, payload: Payload,
                timestampMs: nat, signature: Signature, frameLen: nat, io: Io)
    | AnnounceFrame(peer: PeerInfo, deliveredFrom: PeerId, proof: CapClaim, nowMs: nat, stored: bool, put: bool)
    | OwnStep(op: Op)

  predicate ActsForSomeone(op: Op) {
    op.Send? || op.HostCreate? || op.HostResume? || op.Join? || op.Leave? || op.EnsureMember?
  }

  /** Local requests act as the daemon, whatever name they carry; a frame whose body names a peer other than
      the neighbour that delivered it is dropped. */
  function Route(self: PeerId, c: Cell, input: Input): Option<Op> {
    match input
    case HostRequest(mint, put, bump, floorRead, create) =>
      Some(if c.mem.Some? then HostResume(self, mint, put, bump) else HostCreate(self, mint, floorRead, create))
    case JoinRequest(stored) => Some(Join(self, stored))
    case SendRequest(name, kind, action, payload, now, len, io) =>
      Some(Send(PeerInfo(self, name), kind, action, payload, ByDaemon(now), len, io))
    case LeaveRequest(stored) => Some(Leave(self, stored))
    case SendFrame(peer, from, kind, action, payload, ts, sig, len, io) =>
      if peer.id != from then None else Some(Send(peer, kind, action, payload, ByJoiner(ts, sig), len, io))
    case AnnounceFrame(peer, from, proof, now, stored, put) =>
      if peer.id != from then None else Some(EnsureMember(peer.id, Some(proof), now, stored, put))
    case OwnStep(op) => if ActsForSomeone(op) then None else Some(op)
  }

  /** The operations a sequence of inputs makes the registry perform on one session. */
  function Ops(self: PeerId, id: SessionId, inputs: seq<Input>): seq<Op> {
    if inputs == [] then []
    else
      var init := Ops(self, id, inputs[..|inputs| - 1]);
      var op := Route(self, Reached(self, id, init), inputs[|inputs| - 1]);
      if op == None then init else init + [op.value]
  }

  lemma RouteStamps(self: PeerId, c: Cell, input: Input)
    ensures Route(self, c, input).Some? ==> Stamped(self, Route(self, c, input).value)
  {
  }

  /** Whatever arrives, no operation acts under a name it was not entitled to. */
  lemma {:induction false} InputsAreStamped(self: PeerId, id: SessionId, inputs: seq<Input>)
    ensures StampedRun(self, Ops(self, id, inputs))
  {
    if inputs != [] {
      var init := inputs[..|inputs| - 1];
      InputsAreStamped(self, id, init);
      RouteStamps(self, Reached(self, id, Ops(self, id, init)), inputs[|inputs| - 1]);
    }
  }

  /** A frame whose body names a peer other than the neighbour that delivered it has no effect, and a local request
      acts for this daemon alone. */
  lemma MisdeliveredIsDropped(self: PeerId, id: SessionId, inputs: seq<Input>, input: Input)
    requires (input.SendFrame? || input.AnnounceFrame?) && input.peer.id != input.deliveredFrom
    ensures Ops(self, id, inputs + [input]) == Ops(self, id, inputs)
  {
    assert (inputs + [input])[..|inputs|] == inputs;
  }

  // ---- Members ----

  /** The step `op` admits `p` from the state `c`: a host-signed claim, unexpired when checked, that
      matches an active entry of the ledger at that step. */
  predicate Admits(self: PeerId, id: SessionId, c: Cell, op: Op, p: PeerId) {
    && op.EnsureMember? && op.peer == p && op.proof.Some? && Ledger.Valid(self, id, op.proof.value, op.nowMs)
    && c.mem.Some? && c.mem.value.kind == Local && Ledger.Listed(c.mem.value.tickets, op.proof.value)
    && Perform(self, id, c, op).reply == Ok
  }

  /** The input at `n` is an announcement that `p` delivered itself, and it admitted `p`. */
  predicate AdmittedAt(self: PeerId, id: SessionId, inputs: seq<Input>, n: nat, p: PeerId)
    requires n < |inputs|
  {
    && inputs[n].AnnounceFrame? && inputs[n].deliveredFrom == p
    && var c := Reached(self, id, Ops(self, id, inputs[..n]));
       Route(self, c, inputs[n]).Some? && Admits(self, id, c, Route(self, c, inputs[n]).value, p)
  }

  predicate WasAdmitted(self: PeerId, id: SessionId, inputs: seq<Input>, p: PeerId) {
    exists n :: 0 <= n < |inputs| && AdmittedAt(self, id, inputs, n, p)
  }

  /** Hosted by `self`, and every other member is in `others`. */
  predicate HostedMembers(self: PeerId, host: PeerId, members: set<PeerId>, others: set<PeerId>) {
    host == self && members <= others + {self}
  }

  predicate LocalDisk(c: Cell) { c.disk.Some? && c.disk.value.kind == Local }

  predicate Guarded(self: PeerId, c: Cell, others: set<PeerId>) {
    && (HostedHere(c) ==> HostedMembers(self, c.mem.value.host, c.mem.value.members, others))
    && (HostedHere(c) && !c.doomed ==> self in c.mem.value.members)
    && (LocalDisk(c) ==>
          && HostedMembers(self, c.disk.value.host, c.disk.value.members, others)
          && self in c.disk.value.members)
    && (c.doomed ==> !LocalDisk(c))
    && (c.doomed ==> c.mem.Some?)
  }

  /** An announcement answered Ok by a mirror's entry that stands over the record of a session hosted here: only
      the signature and the expiry of the claim are looked at, and the peer enters that record. */
  predicate Bypasses(self: PeerId, id: SessionId, c: Cell, op: Op) {
    && op.EnsureMember? && op.stored && op.proof.Some? && Ledger.Valid(self, id, op.proof.value, op.nowMs)
    && c.mem.Some? && c.mem.value.kind == Remote && op.peer !in c.mem.value.members && LocalDisk(c)
  }

  /** Whom the step lets in by the ledger. */
  function Admitted(self: PeerId, id: SessionId, c: Cell, op: Op): set<PeerId> {
    if op.EnsureMember? && Admits(self, id, c, op, op.peer) then {op.peer} else {}
  }

  lemma EnsureGuardsIff(self: PeerId, id: SessionId, c: Cell, op: Op, others: set<PeerId>)
    requires op.EnsureMember? && Stamped(self, op) && Guarded(self, c, others)
    ensures Guarded(self, Perform(self, id, c, op).cell, others + Admitted(self, id, c, op)) <==>
              !(Bypasses(self, id, c, op) && op.peer !in others + {self})
  {
  }

  lemma OtherGuards(self: PeerId, id: SessionId, c: Cell, op: Op, others: set<PeerId>)
    requires !op.EnsureMember? && Stamped(self, op) && Guarded(self, c, others)
    ensures Guarded(self, Perform(self, id, c, op).cell, others)
  {
  }

  /** Of all steps exactly one kind lets in a peer that the ledger did not admit: an announcement of a peer not
      let in before, answered by a mirror's entry over the record of a session hosted here. */
  lemma StepGuardsIff(self: PeerId, id: SessionId, c: Cell, op: Op, others: set<PeerId>)
    requires Stamped(self, op) && Guarded(self, c, others)
    ensures Guarded(self, Perform(self, id, c, op).cell, others + Admitted(self, id, c, op)) <==>
              !(Bypasses(self, id, c, op) && op.peer !in others + {self})
  {
    if op.EnsureMember? {
      EnsureGuardsIff(self, id, c, op, others);
    } else {
      OtherGuards(self, id, c, op, others);
      assert others + {} == others;
    }
  }

  lemma BypassGuards(self: PeerId, id: SessionId, c: Cell, op: Op, others: set<PeerId>)
    requires Guarded(self, c, others) && Bypasses(self, id, c, op)
    ensures Guarded(self, Perform(self, id, c, op).cell, others + {op.peer})
  {
  }

  /** And whoever comes in so is a member of the hosted session after the next restart, whatever the ledger says
      of the claim's ticket. */
  lemma BypassedIsMember(self: PeerId, id: SessionId, c: Cell, op: Op)
    requires Bypasses(self, id, c, op)
    ensures var d := Reloading(Perform(self, id, c, op).cell).cell;
            HostedHere(d) && op.peer in d.mem.value.members && d.mem.value.tickets == c.disk.value.tickets
  {
  }

  /** The input at `n` is an announcement that `p` delivered itself, and it brought `p` in past the ledger. */
  predicate BypassedAt(self: PeerId, id: SessionId, inputs: seq<Input>, n: nat, p: PeerId)
    requires n < |inputs|
  {
    && inputs[n].AnnounceFrame? && inputs[n].deliveredFrom == p
    && var c := Reached(self, id, Ops(self, id, inputs[..n]));
       Route(self, c, inputs[n]).Some? && Bypasses(self, id, c, Route(self, c, inputs[n]).value)
  }

  predicate WasBypassed(self: PeerId, id: SessionId, inputs: seq<Input>, p: PeerId) {
    exists n :: 0 <= n < |inputs| && BypassedAt(self, id, inputs, n, p)
  }

  predicate LetIn(self: PeerId, id: SessionId, inputs: seq<Input>, p: PeerId) {
    WasAdmitted(self, id, inputs, p) || WasBypassed(self, id, inputs, p)
  }

  lemma LetInLater(self: PeerId, id: SessionId, inputs: seq<Input>, p: PeerId)
    requires inputs != [] && LetIn(self, id, inputs[..|inputs| - 1], p)
    ensures LetIn(self, id, inputs, p)
  {
    var init := inputs[..|inputs| - 1];
    if WasAdmitted(self, id, init, p) {
      var n :| 0 <= n < |init| && AdmittedAt(self, id, init, n, p);
      AtLater(self, id, inputs, n, p);
    } else {
      var n :| 0 <= n < |init| && BypassedAt(self, id, init, n, p);
      AtLater(self, id, inputs, n, p);
    }
  }

  lemma AtLater(self: PeerId, id: SessionId, inputs: seq<Input>, n: nat, p: PeerId)
    requires n + 1 < |inputs|
    ensures var init := inputs[..|inputs| - 1];
            && (AdmittedAt(self, id, init, n, p) ==> AdmittedAt(self, id, inputs, n, p))
            && (BypassedAt(self, id, init, n, p) ==> BypassedAt(self, id, inputs, n, p))
  {
    assert inputs[..|inputs| - 1][..n] == inputs[..n];
  }

  lemma {:induction false} RunGuards(self: PeerId, id: SessionId, inputs: seq<Input>) returns (others: set<PeerId>)
    ensures Guarded(self, Reached(self, id, Ops(self, id, inputs)), others)
    ensures forall p :: p in others ==> LetIn(self, id, inputs, p)
  {
    others := {};
    if inputs != [] {
      var init, n := inputs[..|inputs| - 1], |inputs| - 1;
      others := RunGuards(self, id, init);
      forall p | p in others ensures LetIn(self, id, inputs, p) { LetInLater(self, id, inputs, p); }
      var c := Reached(self, id, Ops(self, id, init));
      var op := Route(self, c, inputs[n]);
      OpsStep(self, id, inputs);
      if op.Some? {
        RouteStamps(self, c, inputs[n]);
        LetInNow(self, id, inputs);
        if Bypasses(self, id, c, op.value) {
          BypassGuards(self, id, c, op.value, others);
          others := others + {op.value.peer};
        } else {
          StepGuardsIff(self, id, c, op.value, others);
          others := others + Admitted(self, id, c, op.value);
        }
      }
    }
  }

  lemma OpsStep(self: PeerId, id: SessionId, inputs: seq<Input>)
    requires inputs != []
    ensures var c := Reached(self, id, Ops(self, id, inputs[..|inputs| - 1]));
            var op := Route(self, c, inputs[|inputs| - 1]);
            Reached(self, id, Ops(self, id, inputs)) == if op == None then c else Perform(self, id, c, op.value).cell
  {
    var ops := Ops(self, id, inputs[..|inputs| - 1]);
    var op := Route(self, Reached(self, id, ops), inputs[|inputs| - 1]);
    if op.Some? { ReachedStep(self, id, ops, op.value); }
  }

  lemma LetInNow(self: PeerId, id: SessionId, inputs: seq<Input>)
    requires inputs != []
    ensures var c := Reached(self, id, Ops(self, id, inputs[..|inputs| - 1]));
            var op := Route(self, c, inputs[|inputs| - 1]);
            op.Some? && op.value.EnsureMember?
            && (Admits(self, id, c, op.value, op.value.peer) || Bypasses(self, id, c, op.value))
            ==> LetIn(self, id, inputs, op.value.peer)
  {
    var n := |inputs| - 1;
    var c := Reached(self, id, Ops(self, id, inputs[..n]));
    var op := Route(self, c, inputs[n]);
    if op.Some? && op.value.EnsureMember? {
      if Admits(self, id, c, op.value, op.value.peer) {
        assert AdmittedAt(self, id, inputs, n, op.value.peer);
      } else if Bypasses(self, id, c, op.value) {
        assert BypassedAt(self, id, inputs, n, op.value.peer);
      }
    }
  }

  /** In every run of requests, frames and internal steps, under any write failures, torn writes and restarts, a
      hosted session is hosted by this daemon, which is a member until it leaves. Every other member came in by
      an announcement it delivered itself, with a claim that was signed and unexpired, and either active in the
      ledger at that step or answered by a mirror's entry over the hosted record. */
  lemma AdmissionIsTheOnlyDoor(self: PeerId, id: SessionId, inputs: seq<Input>)
    requires HostedHere(Reached(self, id, Ops(self, id, inputs)))
    ensures var c := Reached(self, id, Ops(self, id, inputs));
            && c.mem.value.host == self && (!c.doomed ==> self in c.mem.value.members)
            && forall p :: p in c.mem.value.members && p != self ==> LetIn(self, id, inputs, p)
  {
    var others := RunGuards(self, id, inputs);
  }

  // ---- What the daemon's own requests do ----

  /** In every run, a request to host is met, if the store takes it, whenever nothing is registered or the session is
      hosted with a record: the session is hosted by this daemon, and its newest ticket is the one asked for. */
  lemma HostRequestHosts(self: PeerId, id: SessionId, inputs: seq<Input>, mint: Mint)
    requires var c := Reached(self, id, Ops(self, id, inputs)); c.mem == None || (HostedHere(c) && c.disk.Some?)
    ensures var d := Reached(self, id, Ops(self, id, inputs + [HostRequest(mint, true, Done, true, Done)]));
            && HostedHere(d) && d.mem.value.host == self && d.mem.value.tickets != []
            && d.mem.value.tickets[|d.mem.value.tickets| - 1] == LedgerEntry(mint)
            && d.disk.Some? && d.disk.value.tickets == d.mem.value.tickets
  {
    var more := inputs + [HostRequest(mint, true, Done, true, Done)];
    assert more[..|inputs|] == inputs;
    OpsStep(self, id, more);
    if HostedHere(Reached(self, id, Ops(self, id, inputs))) { AdmissionIsTheOnlyDoor(self, id, inputs); }
  }

  /** And in every run the host can write: its own request to send anything but an injected action, small enough and
      taken by the store, is the last entry of the log of the session it hosts and has not begun to leave. */
  lemma SendRequestSends(self: PeerId, id: SessionId, inputs: seq<Input>, input: Input)
    requires input.SendRequest? && input.io == Done && input.frameLen <= 1_047_936
    requires !(input.kind == System && (input.action == "workspace.ticket" || input.action == "workspace.upgrade"))
    requires var c := Reached(self, id, Ops(self, id, inputs)); HostedHere(c) && c.disk.Some? && !c.doomed
    ensures var c, d := Reached(self, id, Ops(self, id, inputs)), Reached(self, id, Ops(self, id, inputs + [input]));
            && HostedHere(d) && |d.mem.value.log| == |c.mem.value.log| + 1
            && var m := d.mem.value.log[|c.mem.value.log|];
               && d.mem.value.log == c.mem.value.log + [m] && m.peer == PeerInfo(self, input.displayName)
               && m.kind == input.kind && m.action == input.action && m.payload == input.payload
  {
    var more, c := inputs + [input], Reached(self, id, Ops(self, id, inputs));
    assert more[..|inputs|] == inputs;
    OpsStep(self, id, more);
    AdmissionIsTheOnlyDoor(self, id, inputs);
    CapsAreProjection(self, id, Ops(self, id, inputs));
    HostKeepsReadWrite(c.mem.value.host, c.mem.value.log);
    HostSends(self, id, c, input);
  }

  lemma HostSends(self: PeerId, id: SessionId, c: Cell, input: Input)
    requires input.SendRequest? && input.io == Done && input.frameLen <= 1_047_936
    requires !(input.kind == System && (input.action == "workspace.ticket" || input.action == "workspace.upgrade"))
    requires HostedHere(c) && c.disk.Some? && self in c.mem.value.members
    requires Held(c.mem.value.caps, self) == Some(ReadWrite)
    ensures var op := Route(self, c, input);
            && op.Some? && op.value.Send?
            && var out := Perform(self, id, c, op.value);
               && out.reply.Sent? && out.cell == Appended(c, out.reply.message)
               && var m := out.reply.message;
                  && m.peer == PeerInfo(self, input.displayName)
                  && m.kind == input.kind && m.action == input.action && m.payload == input.payload
  {
    var op := Route(self, c, input).value;
    SendReachesIff(self, id, c, op);
    SendEffect(self, id, c, op);
  }
}
