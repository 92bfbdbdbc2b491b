/** A joiner's send: request over gossip, sequencing by the host, signed acknowledgement back. */
module Acks {
  import opened Protocol
  import opened Capabilities
  import opened Sessions
  import opened SessionCache
  import opened HostLogs

  datatype Request = Request(
    req: nat, peer: PeerInfo, kind: MessageKind, action: string, payload: Payload, timestampMs: nat,
        signature: Signature)

  datatype Result = Accepted(message: Message) | Rejected(error: Error)

  /** An acknowledgement the host signed, with the request that caused it. The signature covers the
      request id and the result; it does not cover who asked. */
  datatype Issued = Issued(req: nat, result: Result, cause: Request)

  /** `returned` is what the joiner's sends came back with. */
  datatype World = World(cell: Cell, acks: set<Issued>, pending: map<nat, Request>, returned: map<nat, Result>)

  datatype Event =
    | HostOp(op: Op)
    | SendRemote(request: Request)
    | HostHandle(inbound: Request, deliveredFrom: PeerId, frameLen: nat, io: Io)
    | DeliverAck(ack: Issued)
    | Timeout(req: nat)

  function AsSend(r: Request, frameLen: nat, io: Io): Op {
    Send(r.peer, r.kind, r.action, r.payload, ByJoiner(r.timestampMs, r.signature), frameLen, io)
  }

  function ResultOf(reply: Reply): Result {
    match reply
    case Sent(m) => Accepted(m)
    case Err(e) => Rejected(e)
    case _ => Rejected(Internal)
  }

  function Handled(host: PeerId, id: SessionId, w: World, r: Request, frameLen: nat, io: Io): World {
    var out := Perform(host, id, w.cell, AsSend(r, frameLen, io));
    w.(cell := out.cell, acks := w.acks + {Issued(r.req, ResultOf(out.reply), r)})
  }

  /** An ack the host did not sign fails verification and is dropped. */
  function Resolved(w: World, a: Issued): World {
    if a !in w.acks || a.req !in w.pending then w
    else w.(pending := w.pending - {a.req}, returned := w.returned[a.req := a.result])
  }

  function Step(host: PeerId, id: SessionId, w: World, e: Event): World {
    match e
    case HostOp(op) => w.(cell := Perform(host, id, w.cell, op).cell)
    case SendRemote(r) =>
      if r.req in w.pending || r.req in w.returned then w else w.(pending := w.pending[r.req := r])
    case HostHandle(r, from, len, io) => if r.peer.id != from then w else Handled(host, id, w, r, len, io)
    case DeliverAck(a) => Resolved(w, a)
    case Timeout(req) => w.(pending := w.pending - {req})
  }

  function Run(host: PeerId, id: SessionId, w: World, events: seq<Event>): World {
    if events == [] then w else Step(host, id, Run(host, id, w, events[..|events| - 1]), events[|events| - 1])
  }

  /** The in-flight sends of a joiner. */
  class PendingSends {
    var pending: map<nat, Request>
    var returned: map<nat, Result>

    constructor ()
      ensures pending == map[] && returned == map[]
    {
      pending, returned := map[], map[];
    }

    method Begin(r: Request, ghost host: PeerId, ghost id: SessionId, ghost w: World)
      requires w.pending == pending && w.returned == returned && r.req !in pending && r.req !in returned
      modifies this
      ensures Step(host, id, w, SendRemote(r)).pending == pending && returned == old(returned)
    {
      pending := pending[r.req := r];
    }

    /** A verified ack resolves the one send waiting under its id, or nothing. */
    method OnAck(req: nat, result: Result, verified: bool, ghost a: Issued, ghost w: World)
      requires w.pending == pending && w.returned == returned
      requires a.req == req && a.result == result && (verified <==> a in w.acks)
      modifies this
      ensures pending == Resolved(w, a).pending && returned == Resolved(w, a).returned
    {
      if !verified { return; }
      if req in pending {
        returned := returned[req := result];
        pending := pending - {req};
      }
    }

    method Expire(req: nat)
      modifies this
      ensures pending == old(pending) - {req} && returned == old(returned)
    {
      pending := pending - {req};
    }
  }

  /** A session as its host has it, before any joiner has asked for anything. */
  function Opening(host: PeerId, id: SessionId, ops: seq<Op>): World {
    World(Reached(host, id, ops), {}, map[], map[])
  }

  // ---- What is sequenced stays in the log ----

  /** What a host has in memory is in the file of its record, as long as the record still is that of a host. */
  predicate InFile(c: Cell) {
    HostedHere(c) && c.disk.Some? && c.disk.value.kind == Local ==>
      forall m :: m in c.mem.value.log ==> m in c.disk.value.log
  }

  lemma SendKeepsFile(self: PeerId, id: SessionId, c: Cell, op: Op)
    requires op.Send? && InFile(c)
    ensures InFile(Perform(self, id, c, op).cell)
  {
    SendReachesIff(self, id, c, op);
    SendEffect(self, id, c, op);
    if Tears(self, id, c, op) { var m := TornSendEffect(self, id, c, op); }
  }

  lemma FlightKeepsFile(self: PeerId, id: SessionId, c: Cell, op: Op)
    requires InFile(c) && !op.Send? && !Bookkeeping(op)
    ensures InFile(Perform(self, id, c, op).cell)
  {
  }

  lemma StepKeepsFile(self: PeerId, id: SessionId, c: Cell, op: Op)
    requires InFile(c)
    ensures InFile(Perform(self, id, c, op).cell)
  {
    if op.Send? {
      SendKeepsFile(self, id, c, op);
    } else if Bookkeeping(op) {
      BookkeepingEffect(self, id, c, op);
    } else {
      FlightKeepsFile(self, id, c, op);
    }
  }

  lemma {:induction false} RunInFile(self: PeerId, id: SessionId, ops: seq<Op>)
    ensures InFile(Reached(self, id, ops))
  {
    if ops != [] {
      var init := ops[..|ops| - 1];
      RunInFile(self, id, init);
      StepKeepsFile(self, id, Reached(self, id, init), ops[|ops| - 1]);
    }
  }

  predicate InLog(c: Cell, m: Message) { HostedHere(c) && m in c.mem.value.log }

  lemma StepKeepsEntry(self: PeerId, id: SessionId, c: Cell, op: Op, m: Message)
    requires InFile(c) && InLog(c, m) && HostedHere(Perform(self, id, c, op).cell)
    ensures InLog(Perform(self, id, c, op).cell, m)
  {
    if op.Send? { SendEffect(self, id, c, op); } else if Bookkeeping(op) { BookkeepingEffect(self, id, c, op); }
  }

  predicate HostedSince(self: PeerId, id: SessionId, ops: seq<Op>, n: nat) {
    forall k :: n <= k <= |ops| ==> HostedAt(self, id, ops, k)
  }

  predicate LoggedAt(self: PeerId, id: SessionId, ops: seq<Op>, k: nat, m: Message)
    requires k <= |ops|
  {
    InLog(Reached(self, id, ops[..k]), m)
  }

  lemma EntryStepAt(self: PeerId, id: SessionId, ops: seq<Op>, k: nat, m: Message)
    requires k < |ops| && HostedAt(self, id, ops, k) && HostedAt(self, id, ops, k + 1)
    requires LoggedAt(self, id, ops, k, m)
    ensures LoggedAt(self, id, ops, k + 1, m)
  {
    var c := Reached(self, id, ops[..k]);
    RunInFile(self, id, ops[..k]);
    ReachedAt(self, id, ops, k);
    StepKeepsEntry(self, id, c, ops[k], m);
  }

  /** No failed or torn write, restart, or overlapping join takes an entry out of the log of a session that stays
      hosted. */
  lemma {:induction false} EntryStays(self: PeerId, id: SessionId, ops: seq<Op>, n: nat, k: nat, m: Message)
    requires n <= k <= |ops| && HostedSince(self, id, ops, n) && LoggedAt(self, id, ops, n, m)
    ensures LoggedAt(self, id, ops, k, m)
    decreases k
  {
    if n < k {
      EntryStays(self, id, ops, n, k - 1, m);
      assert HostedAt(self, id, ops, k - 1) && HostedAt(self, id, ops, k);
      EntryStepAt(self, id, ops, k - 1, m);
    }
  }

  // ---- From acks back to requests ----

  /** The host operation an event performs, if any. */
  function HostPart(e: Event): seq<Op> {
    match e
    case HostOp(op) => [op]
    case HostHandle(r, from, len, io) => if r.peer.id == from then [AsSend(r, len, io)] else []
    case _ => []
  }

  function Parts(events: seq<Event>): seq<Op> {
    if events == [] then [] else Parts(events[..|events| - 1]) + HostPart(events[|events| - 1])
  }

  lemma StepCell(host: PeerId, id: SessionId, w: World, e: Event)
    ensures Step(host, id, w, e).cell == if HostPart(e) == [] then w.cell
        else Perform(host, id, w.cell, HostPart(e)[0]).cell
  {
  }

  lemma {:induction false} CellIsReached(host: PeerId, id: SessionId, ops: seq<Op>, events: seq<Event>)
    ensures Run(host, id, Opening(host, id, ops), events).cell == Reached(host, id, ops + Parts(events))
  {
    if events == [] {
      assert ops + [] == ops;
    } else {
      var init, e := events[..|events| - 1], events[|events| - 1];
      CellIsReached(host, id, ops, init);
      StepCell(host, id, Run(host, id, Opening(host, id, ops), init), e);
      if HostPart(e) == [] {
        assert ops + Parts(events) == ops + Parts(init);
      } else {
        assert ops + Parts(events) == ops + Parts(init) + [HostPart(e)[0]];
        ReachedStep(host, id, ops + Parts(init), HostPart(e)[0]);
      }
    }
  }

  lemma {:induction false} PartsPrefix(events: seq<Event>, n: nat)
    requires n <= |events|
    ensures Parts(events[..n]) <= Parts(events)
  {
    if n < |events| {
      PartsPrefix(events[..|events| - 1], n);
      assert events[..|events| - 1][..n] == events[..n];
    } else {
      assert events[..n] == events;
    }
  }

  /** The state before the `n`-th event. */
  function Before(host: PeerId, id: SessionId, ops: seq<Op>, events: seq<Event>, n: nat): World
    requires n <= |events|
  {
    Run(host, id, Opening(host, id, ops), events[..n])
  }

  /** The `n`-th event is a request that the neighbour asking delivered itself and that is sequenced. */
  predicate SequencesAt(host: PeerId, id: SessionId, ops: seq<Op>, events: seq<Event>, n: nat)
    requires n < |events|
  {
    && events[n].HostHandle? && events[n].inbound.peer.id == events[n].deliveredFrom && events[n].io == Done
    && SendReaches(host, id, Before(host, id, ops, events, n).cell, AsSend(events[n].inbound, events[n].frameLen, Done))
  }

  /** `m` is the message that sequencing `r` produces. */
  predicate Carries(m: Message, r: Request) {
    && m.peer == r.peer && m.kind == r.kind && m.action == r.action && m.payload == r.payload
    && m.timestampMs == r.timestampMs && m.signature == r.signature
  }

  /** The message the `n`-th event's request is sequenced into, if it is. */
  predicate Yields(host: PeerId, id: SessionId, ops: seq<Op>, events: seq<Event>, n: nat, m: Message)
    requires n < |events|
  {
    SequencesAt(host, id, ops, events, n) && Carries(m, events[n].inbound)
    && InLog(Perform(host, id, Before(host, id, ops, events, n).cell,
                     AsSend(events[n].inbound, events[n].frameLen, Done)).cell, m)
  }

  lemma SequencedEffect(host: PeerId, id: SessionId, c: Cell, r: Request, len: nat, io: Io)
    ensures var out := Perform(host, id, c, AsSend(r, len, io));
            && (out.reply.Sent? <==> SendReaches(host, id, c, AsSend(r, len, io)) && io == Done)
            && (ResultOf(out.reply).Accepted? <==> out.reply.Sent?)
            && (out.reply.Sent? ==> Carries(out.reply.message, r) && InLog(out.cell, out.reply.message))
  {
    SendReachesIff(host, id, c, AsSend(r, len, io));
    SendEffect(host, id, c, AsSend(r, len, io));
  }

  /** Every accepted ack in `w` comes from a request sequenced in these events. */
  predicate AckOrigin(host: PeerId, id: SessionId, ops: seq<Op>, events: seq<Event>, a: Issued) {
    a.req == a.cause.req &&
    (a.result.Accepted? ==>
       exists n :: 0 <= n < |events| && Yields(host, id, ops, events, n, a.result.message)
           && events[n].inbound == a.cause)
  }

  lemma OriginLater(host: PeerId, id: SessionId, ops: seq<Op>, events: seq<Event>, a: Issued)
    requires events != [] && AckOrigin(host, id, ops, events[..|events| - 1], a)
    ensures AckOrigin(host, id, ops, events, a)
  {
    if a.result.Accepted? {
      var init := events[..|events| - 1];
      var n :| 0 <= n < |init| && Yields(host, id, ops, init, n, a.result.message) && init[n].inbound == a.cause;
      assert init[..n] == events[..n];
      assert Yields(host, id, ops, events, n, a.result.message);
    }
  }

  lemma OriginNow(host: PeerId, id: SessionId, ops: seq<Op>, events: seq<Event>)
    requires events != [] && events[|events| - 1].HostHandle?
    requires events[|events| - 1].inbound.peer.id == events[|events| - 1].deliveredFrom
    ensures var e, w := events[|events| - 1], Run(host, id, Opening(host, id, ops), events[..|events| - 1]);
            var out := Perform(host, id, w.cell, AsSend(e.inbound, e.frameLen, e.io));
            AckOrigin(host, id, ops, events, Issued(e.inbound.req, ResultOf(out.reply), e.inbound))
  {
    var n, e := |events| - 1, events[|events| - 1];
    var c := Before(host, id, ops, events, n).cell;
    SequencedEffect(host, id, c, e.inbound, e.frameLen, e.io);
    var out := Perform(host, id, c, AsSend(e.inbound, e.frameLen, e.io));
    if out.reply.Sent? { assert Yields(host, id, ops, events, n, out.reply.message); }
  }

  lemma {:induction false} AcksHaveOrigin(host: PeerId, id: SessionId, ops: seq<Op>, events: seq<Event>, a: Issued)
    requires a in Run(host, id, Opening(host, id, ops), events).acks
    ensures AckOrigin(host, id, ops, events, a)
  {
    if events != [] {
      var init, e := events[..|events| - 1], events[|events| - 1];
      if a in Run(host, id, Opening(host, id, ops), init).acks {
        AcksHaveOrigin(host, id, ops, init, a);
        OriginLater(host, id, ops, events, a);
      } else {
        OriginNow(host, id, ops, events);
      }
    }
  }

  /** Every sequenced request leaves an accepted ack behind. */
  lemma {:induction false} SequencedIsAcked(host: PeerId, id: SessionId, ops: seq<Op>, events: seq<Event>,
      n: nat) returns (a: Issued)
    requires n < |events| && SequencesAt(host, id, ops, events, n)
    ensures a in Run(host, id, Opening(host, id, ops), events).acks && a.cause == events[n].inbound
    ensures a.req == events[n].inbound.req && a.result.Accepted? && Carries(a.result.message, events[n].inbound)
    decreases |events|
  {
    var init := events[..|events| - 1];
    if n < |init| {
      assert init[..n] == events[..n];
      a := SequencedIsAcked(host, id, ops, init, n);
    } else {
      var e, c := events[n], Before(host, id, ops, events, n).cell;
      SequencedEffect(host, id, c, e.inbound, e.frameLen, e.io);
      a := Issued(e.inbound.req, ResultOf(Perform(host, id, c, AsSend(e.inbound, e.frameLen, e.io)).reply), e.inbound);
    }
  }

  predicate ReturnSound(w: World, req: nat) {
    req in w.returned ==> req !in w.pending && exists a :: a in w.acks && a.req == req && a.result == w.returned[req]
  }

  lemma {:induction false} ReturnsHaveAcks(host: PeerId, id: SessionId, ops: seq<Op>, events: seq<Event>, req: nat)
    ensures ReturnSound(Run(host, id, Opening(host, id, ops), events), req)
  {
    if events != [] { ReturnsHaveAcks(host, id, ops, events[..|events| - 1], req); }
  }

  // ---- Acked means logged ----

  /** From the first event on the session stays hosted. */
  predicate Attended(host: PeerId, id: SessionId, ops: seq<Op>, events: seq<Event>) {
    HostedSince(host, id, ops + Parts(events), |ops|)
  }

  lemma YieldedAtOnce(host: PeerId, id: SessionId, ops: seq<Op>, events: seq<Event>, n: nat, m: Message)
    requires n < |events| && Yields(host, id, ops, events, n, m)
    ensures InLog(Reached(host, id, ops + Parts(events[..n + 1])), m)
  {
    var op := AsSend(events[n].inbound, events[n].frameLen, Done);
    assert events[..n + 1][..n] == events[..n];
    assert ops + Parts(events[..n + 1]) == ops + Parts(events[..n]) + [op];
    CellIsReached(host, id, ops, events[..n]);
    ReachedStep(host, id, ops + Parts(events[..n]), op);
  }

  lemma YieldedIsLogged(host: PeerId, id: SessionId, ops: seq<Op>, events: seq<Event>, n: nat, m: Message)
    requires Attended(host, id, ops, events) && n < |events| && Yields(host, id, ops, events, n, m)
    ensures InLog(Reached(host, id, ops + Parts(events)), m)
  {
    var all, upTo := ops + Parts(events), ops + Parts(events[..n + 1]);
    YieldedAtOnce(host, id, ops, events, n, m);
    PartsPrefix(events, n + 1);
    assert all[..|upTo|] == upTo;
    EntryStays(host, id, all, |upTo|, |all|, m);
    assert all[..|all|] == all;
  }

  lemma NumberedEntry(s: Session, m: Message)
    requires Numbered(s.log) && m in s.log
    ensures 1 <= m.seqNo <= |s.log| && s.log[m.seqNo - 1] == m
  {
  }

  /** Whenever a joiner's send came back with a message, across any interleaving of senders, other host
      operations, failed and torn writes, restarts, lost, repeated and forged frames: the host's log holds that
      message, at its number if the log is numbered; and some request sequenced under that id asked for it. */
  lemma AckedMeansLogged(host: PeerId, id: SessionId, ops: seq<Op>, events: seq<Event>, req: nat, m: Message)
    requires Attended(host, id, ops, events)
    requires var v := Run(host, id, Opening(host, id, ops), events); req in v.returned && v.returned[req] == Accepted(m)
    ensures var v := Run(host, id, Opening(host, id, ops), events);
            && InLog(v.cell, m)
            && (Numbered(v.cell.mem.value.log) ==>
                  1 <= m.seqNo <= |v.cell.mem.value.log| && v.cell.mem.value.log[m.seqNo - 1] == m)
            && exists n :: 0 <= n < |events| && SequencesAt(host, id, ops, events, n)
                           && events[n].inbound.req == req && Carries(m, events[n].inbound)
  {
    var v := Run(host, id, Opening(host, id, ops), events);
    ReturnsHaveAcks(host, id, ops, events, req);
    var a :| a in v.acks && a.req == req && a.result == v.returned[req];
    AcksHaveOrigin(host, id, ops, events, a);
    var n :| 0 <= n < |events| && Yields(host, id, ops, events, n, m) && events[n].inbound == a.cause;
    YieldedIsLogged(host, id, ops, events, n, m);
    CellIsReached(host, id, ops, events);
    if Numbered(v.cell.mem.value.log) { NumberedEntry(v.cell.mem.value, m); }
  }

  /** In an orderly run the log is numbered unless a number was reused. */
  lemma AckedAtItsNumber(host: PeerId, id: SessionId, ops: seq<Op>, events: seq<Event>, req: nat, m: Message)
    requires Attended(host, id, ops, events)
    requires Orderly(host, id, ops + Parts(events)) && !Spoiled(host, id, ops + Parts(events))
    requires var v := Run(host, id, Opening(host, id, ops), events); req in v.returned && v.returned[req] == Accepted(m)
    ensures var v := Run(host, id, Opening(host, id, ops), events);
            InLog(v.cell, m) && 1 <= m.seqNo <= |v.cell.mem.value.log| && v.cell.mem.value.log[m.seqNo - 1] == m
  {
    AckedMeansLogged(host, id, ops, events, req, m);
    CellIsReached(host, id, ops, events);
    OrderlyNumberedIff(host, id, ops + Parts(events));
  }

  /** Delivering `a` next would return `m` to the send waiting under `req`. */
  predicate WouldReturn(v: World, a: Issued, req: nat, m: Message) {
    req in v.pending && a.req == req && var w := Resolved(v, a); req in w.returned && w.returned[req] == Accepted(m)
  }

  /** A pending send can only come back with its own body if and only if every request sequenced under its id
      so far is its own. */
  lemma OwnBodyIff(host: PeerId, id: SessionId, ops: seq<Op>, events: seq<Event>, own: Request)
    requires own.req in Run(host, id, Opening(host, id, ops), events).pending
    ensures var v := Run(host, id, Opening(host, id, ops), events);
            (forall a, m :: WouldReturn(v, a, own.req, m) ==> Carries(m, own)) <==>
            (forall n :: 0 <= n < |events| && SequencesAt(host, id, ops, events, n) && events[n].inbound.req == own.req
                         ==> events[n].inbound == own)
  {
    var v := Run(host, id, Opening(host, id, ops), events);
    ReturnsHaveAcks(host, id, ops, events, own.req);
    if forall a, m :: WouldReturn(v, a, own.req, m) ==> Carries(m, own) {
      forall n | 0 <= n < |events| && SequencesAt(host, id, ops, events, n) && events[n].inbound.req == own.req
        ensures events[n].inbound == own
      {
        var a := SequencedIsAcked(host, id, ops, events, n);
        assert WouldReturn(v, a, own.req, a.result.message);
      }
    }
    if forall n :: 0 <= n < |events| && SequencesAt(host, id, ops, events, n) && events[n].inbound.req == own.req
                   ==> events[n].inbound == own {
      forall a, m | WouldReturn(v, a, own.req, m) ensures Carries(m, own) {
        AcksHaveOrigin(host, id, ops, events, a);
        var n :| 0 <= n < |events| && Yields(host, id, ops, events, n, m) && events[n].inbound == a.cause;
        assert events[n].inbound == own;
      }
    }
  }

  /** One ack resolves one send: afterwards no ack under that id changes anything. */
  lemma AckResolvesOnce(w: World, a: Issued, b: Issued)
    requires a in w.acks && b.req == a.req
    ensures Resolved(Resolved(w, a), b) == Resolved(w, a)
  {
  }

  // ---- Another's body under one's own id ----

  lemma RunThree(host: PeerId, id: SessionId, w: World, a: Event, b: Event, c: Event)
    ensures Run(host, id, w, [a, b, c]) == Step(host, id, Step(host, id, Step(host, id, w, a), b), c)
  {
    assert [a, b, c][..2] == [a, b] && [a, b][..1] == [a] && [a][..0] == [];
    assert Run(host, id, w, [a]) == Step(host, id, w, a);
    assert Run(host, id, w, [a, b]) == Step(host, id, Step(host, id, w, a), b);
  }

  /** A request of another member under the same id is sequenced first: its ack returns that body. */
  lemma ForeignBodyReturned(host: PeerId, id: SessionId, ops: seq<Op>, own: Request, other: Request, len: nat)
    requires own.req == other.req && own != other
    requires SendReaches(host, id, Reached(host, id, ops), AsSend(other, len, Done))
    ensures exists events, m ::
              var v := Run(host, id, Opening(host, id, ops), events);
              own.req in v.returned && v.returned[own.req] == Accepted(m) && Carries(m, other) && !Carries(m, own)
  {
    var events, m := ForeignBody(host, id, Opening(host, id, ops), own, other, len);
  }

  lemma ForeignBody(host: PeerId, id: SessionId, w: World, own: Request, other: Request, len: nat)
    returns (events: seq<Event>, m: Message)
    requires own.req == other.req && own != other && own.req !in w.pending && own.req !in w.returned
    requires SendReaches(host, id, w.cell, AsSend(other, len, Done))
    ensures var v := Run(host, id, w, events);
            own.req in v.returned && v.returned[own.req] == Accepted(m) && Carries(m, other) && !Carries(m, own)
  {
    SequencedEffect(host, id, w.cell, other, len, Done);
    m := Perform(host, id, w.cell, AsSend(other, len, Done)).reply.message;
    var ask, handle := SendRemote(own), HostHandle(other, other.peer.id, len, Done);
    var ack := DeliverAck(Issued(other.req, Accepted(m), other));
    events := [ask, handle, ack];
    RunThree(host, id, w, ask, handle, ack);
  }

  function Proof(host: PeerId, id: SessionId): CapClaim {
    CapClaim(7, ReadWrite, 0, 0, Signed(host, TicketCap(7, id, ReadWrite, 0, 0)))
  }

  function Grants(host: PeerId, p: PeerId): Op {
    Send(PeerInfo(host, "host"), MessageKind.Capability, "capability", Encoded(Grant(p, ReadWrite)), ByDaemon(0),
        10, Done)
  }

  /** A host that has admitted `p` and granted it write access. */
  function WithWriter(host: PeerId, id: SessionId, p: PeerId): seq<Op> {
    [HostCreate(host, Mint(7, ReadWrite, 0, 0), true, Done), EnsureMember(p, Some(Proof(host, id)), 0, true, true),
        Grants(host, p)]
  }

  function Ask(id: SessionId, p: PeerId, req: nat, body: Bytes): Request {
    Request(req, PeerInfo(p, "joiner"), Chat, "chat.message", Raw(body), 0,
            Signed(p, Body(id, MESSAGE_FORMAT, 0, p, Chat, "chat.message", Raw(body))))
  }

  predicate Admitted(host: PeerId, p: PeerId, c: Cell) {
    HostedHere(c) && c.disk.Some? && {host, p} <= c.mem.value.members && c.mem.value.host == host
        && CanWrite(c.mem.value.caps, host)
  }

  lemma AdmittedAfter(host: PeerId, id: SessionId, p: PeerId, c: Cell)
    requires c == Perform(host, id, VACANT, WithWriter(host, id, p)[0]).cell
    ensures Admitted(host, p, Perform(host, id, c, WithWriter(host, id, p)[1]).cell)
  {
    assert c.mem.value.tickets[0].id == 7;
  }

  lemma GrantedAfter(host: PeerId, id: SessionId, p: PeerId, c: Cell)
    requires Admitted(host, p, c) && p != host
    ensures var d := Perform(host, id, c, Grants(host, p)).cell;
            HostedHere(d) && d.disk.Some? && p in d.mem.value.members && CanWrite(d.mem.value.caps, p)
  {
    SendReachesIff(host, id, c, Grants(host, p));
    SendEffect(host, id, c, Grants(host, p));
  }

  lemma WriterCanSend(host: PeerId, id: SessionId, p: PeerId, req: nat, body: Bytes)
    requires p != host
    ensures SendReaches(host, id, Reached(host, id, WithWriter(host, id, p)), AsSend(Ask(id, p, req, body), 10, Done))
  {
    var ops := WithWriter(host, id, p);
    assert [] + [ops[0]] == ops[..1] && ops[..1] + [ops[1]] == ops[..2] && ops[..2] + [ops[2]] == ops;
    ReachedStep(host, id, [], ops[0]);
    ReachedStep(host, id, ops[..1], ops[1]);
    ReachedStep(host, id, ops[..2], ops[2]);
    AdmittedAfter(host, id, p, Reached(host, id, ops[..1]));
    GrantedAfter(host, id, p, Reached(host, id, ops[..2]));
  }

  /** Two writers of one session, one request id: the first writer's send comes back with the second's body. */
  lemma ForeignBodyWitness(host: PeerId, id: SessionId, p: PeerId, own: Request)
    requires p != host && own.peer.id != p
    ensures exists ops, events, m ::
              var v := Run(host, id, Opening(host, id, ops), events);
              own.req in v.returned && v.returned[own.req] == Accepted(m) && m.peer.id == p && !Carries(m, own)
  {
    var ops, other := WithWriter(host, id, p), Ask(id, p, own.req, []);
    WriterCanSend(host, id, p, own.req, []);
    ForeignBodyReturned(host, id, ops, own, other, 10);
    var events, m :| var v := Run(host, id, Opening(host, id, ops), events);
                     own.req in v.returned && v.returned[own.req] == Accepted(m) && Carries(m, other)
                         && !Carries(m, own);
    assert m.peer.id == p;
  }

  // ---- Who is answered ----

  /** A request delivered by another than its author is dropped; every other is answered, under its own id, with what
      the host made of it. */
  lemma HandledIsAnswered(host: PeerId, id: SessionId, w: World, r: Request, from: PeerId, frameLen: nat, io: Io)
    ensures var next := Step(host, id, w, HostHandle(r, from, frameLen, io));
            var out := Perform(host, id, w.cell, AsSend(r, frameLen, io));
            if r.peer.id != from then next == w
            else && next.cell == out.cell && next.pending == w.pending && next.returned == w.returned
                 && (out.reply.Sent? ==> next.acks == w.acks + {Issued(r.req, Accepted(out.reply.message), r)})
                 && (out.reply.Err? ==> next.acks == w.acks + {Issued(r.req, Rejected(out.reply.error), r)})
  {
  }

  /** An ack that the host signed resolves the send that waits under its id, with its result; any other changes
      nothing, and so does every ack after a timeout. */
  lemma AckResolves(host: PeerId, id: SessionId, w: World, a: Issued)
    ensures var next := Step(host, id, w, DeliverAck(a));
            if a in w.acks && a.req in w.pending
            then a.req !in next.pending && a.req in next.returned && next.returned[a.req] == a.result
            else next == w
    ensures var late := Step(host, id, w, Timeout(a.req));
            a.req !in late.pending && late.returned == w.returned && Step(host, id, late, DeliverAck(a)) == late
    ensures forall r: Request :: r.req !in w.pending && r.req !in w.returned ==>
              r.req in Step(host, id, w, SendRemote(r)).pending
  {
  }
}
