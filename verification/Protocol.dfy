/** Wire and log vocabulary shared by every other module.

    Ed25519 (section 5.1 of RFC 8032) is idealised: a signature is a term that
    records who signed and exactly what was signed, so a check succeeds for a key
    and a scope exactly when that key signed that scope. */
module Protocol {

  type PeerId = nat
  type SessionId = nat
  type TicketId = nat
  type Bytes = seq<nat>

  datatype Option<+T> = None | Some(value: T)

  /** Outcome of a store call that writes several files: done, failed without effect, or torn, when the
      first file became durable and a later one did not. A single file write is all or nothing. */
  datatype Io = Done | Failed | Torn

  datatype Capability = Read | ReadWrite

  datatype CapabilityAction = Grant(peer: PeerId, cap: Capability) | Revoke(peer: PeerId)

  datatype MessageKind = Chat | Tool | System | Capability

  /** A payload is either the encoding of a capability action or bytes that do not decode as one. */
  datatype Payload = Encoded(action: CapabilityAction) | Raw(bytes: Bytes)

  /** The display name is advisory. */
  datatype PeerInfo = PeerInfo(id: PeerId, displayName: string)

  /** What a signature covers. The body scope holds the author's id but not the
      display name, and no sequence number; the sequencing scope binds a sequence
      number to an author signature and holds no epoch. */
  datatype Scope =
    | Body(session: SessionId, version: nat, timestampMs: nat, author: PeerId,
           kind: MessageKind, action: string, payload: Payload)
    | Sequencing(session: SessionId, seqNo: nat, authorSig: Signature)
    | TicketCap(ticket: TicketId, session: SessionId, cap: Capability, expiryMs: nat, epoch: nat)

  datatype Signature = Unsigned | Signed(key: PeerId, scope: Scope)

  datatype Message = Message(
    version: nat,
    seqNo: nat,
    timestampMs: nat,
    peer: PeerInfo,
    kind: MessageKind,
    action: string,
    payload: Payload,
    signature: Signature,
    hostSig: Signature)

  const MESSAGE_FORMAT: nat := 3
  const U64_MAX: nat := 0xFFFF_FFFF_FFFF_FFFF
  const U32_MAX: nat := 0xFFFF_FFFF
  const MAX_SESSION_MESSAGE_FRAME: nat := 1024 * 1024 - 512 - 128

  const UPGRADE_ACTION := "workspace.upgrade"
  const DOWNGRADE_ACTION := "workspace.downgrade"
  const ROTATE_ACTION := "workspace.rotate"
  const TICKET_ACTION := "workspace.ticket"

  function Max(a: nat, b: nat): nat { if a > b then a else b }

  /** Saturating successor on 64 bits. */
  function NextEpoch(e: nat): nat { if e < U64_MAX then e + 1 else e }

  function BodyScope(session: SessionId, m: Message): Scope {
    Body(session, m.version, m.timestampMs, m.peer.id, m.kind, m.action, m.payload)
  }

  /** The author check: current format, and signed by the claimed author over the whole body. */
  predicate AuthorVerifies(session: SessionId, m: Message) {
    m.version >= MESSAGE_FORMAT && m.signature == Signed(m.peer.id, BodyScope(session, m))
  }

  /** The sequencing check: `host` bound this sequence number to this author signature. */
  predicate HostVerifies(host: PeerId, session: SessionId, m: Message) {
    m.hostSig == Signed(host, Sequencing(session, m.seqNo, m.signature))
  }

  predicate Genuine(host: PeerId, session: SessionId, m: Message) {
    AuthorVerifies(session, m) && HostVerifies(host, session, m)
  }

  /** The two daemon-injected actions that the ingress gate and the subscribe filter reserve. */
  predicate ReservedSystemAction(action: string) {
    action == TICKET_ACTION || action == UPGRADE_ACTION
  }

  predicate Reserved(m: Message) {
    m.kind == System && ReservedSystemAction(m.action)
  }

  /** What the gossip replay may carry: no capability entry and none of four reserved actions. */
  predicate Replayable(m: Message) {
    && m.kind != MessageKind.Capability
    && !(m.kind == System && m.action in {UPGRADE_ACTION, TICKET_ACTION, DOWNGRADE_ACTION, ROTATE_ACTION})
  }

  /** Equality of everything a signature protects. */
  predicate SameUpToName(a: Message, b: Message) {
    a == b.(peer := PeerInfo(b.peer.id, a.peer.displayName))
  }

  /** `log` is a host log: entry i carries sequence number i + 1, an author
      signature that verifies and the host's sequencing signature. */
  predicate HostLog(host: PeerId, session: SessionId, log: seq<Message>) {
    forall i :: 0 <= i < |log| ==> log[i].seqNo == i + 1 && Genuine(host, session, log[i])
  }

  function Filter<T>(p: T -> bool, s: seq<T>): seq<T> {
    if s == [] then []
    else if p(s[|s| - 1]) then Filter(p, s[..|s| - 1]) + [s[|s| - 1]]
    else Filter(p, s[..|s| - 1])
  }

  lemma {:induction false} FilterMembers<T>(p: T -> bool, s: seq<T>, x: T)
    ensures x in Filter(p, s) <==> x in s && p(x)
  {
    if s != [] {
      FilterMembers(p, s[..|s| - 1], x);
      assert s == s[..|s| - 1] + [s[|s| - 1]];
    }
  }

  /** The host's answer to a replay request. */
  function LogSince(log: seq<Message>, since: nat): seq<Message> {
    Filter((m: Message) => m.seqNo > since && Replayable(m), log)
  }

  /** Entries the replay leaves to other channels: capability entries, and four workspace actions. */
  predicate Withheld(m: Message) {
    || m.kind == MessageKind.Capability
    || (m.kind == System && (m.action == "workspace.upgrade" || m.action == "workspace.ticket"
                             || m.action == "workspace.downgrade" || m.action == "workspace.rotate"))
  }

  /** The positions of `log` that hold an entry past `since` which is not withheld. */
  predicate Answering(log: seq<Message>, since: nat, i: nat) {
    i < |log| && log[i].seqNo > since && !Withheld(log[i])
  }

  /** Strictly ascending, and each one of `log` that is answering is among them. */
  predicate Positions(log: seq<Message>, since: nat, at: seq<nat>) {
    && (forall k :: 0 <= k < |at| ==> Answering(log, since, at[k]))
    && (forall k, l :: 0 <= k < l < |at| ==> at[k] < at[l])
    && (forall i :: 0 <= i < |log| && Answering(log, since, i) ==> i in at)
  }

  /** The replay answer is the log past `since` without what is withheld: each such entry once for each time the log
      holds it, in the order of the log, and nothing else. */
  lemma {:induction false} ReplayAnswer(log: seq<Message>, since: nat) returns (at: seq<nat>)
    ensures Positions(log, since, at)
    ensures |LogSince(log, since)| == |at| && forall k :: 0 <= k < |at| ==> LogSince(log, since)[k] == log[at[k]]
  {
    at := [];
    if log != [] {
      var init := log[..|log| - 1];
      at := ReplayAnswer(init, since);
      assert forall i :: 0 <= i < |init| ==> (Answering(log, since, i) <==> Answering(init, since, i));
      if Answering(log, since, |init|) { at := at + [|init|]; }
    }
  }
}
