/** Memory as a cache of the store, and the shape of the log a host builds, over every run. */
module SessionCache {
  import opened Protocol
  import opened Capabilities
  import opened Mirrors
  import opened Sessions

  // ---- Agreement of memory and store ----

  function Bare(t: TicketEntry): TicketEntry { t.(usedBy := []) }

  /** The stored ledger is the one in memory, notes of use aside, plus at most one entry whose ticket
      was never handed out. */
  predicate LedgerAgrees(mem: seq<TicketEntry>, disk: seq<TicketEntry>) {
    && |mem| <= |disk| <= |mem| + 1
    && forall i :: 0 <= i < |mem| ==> Bare(mem[i]) == Bare(disk[i])
  }

  /** The head a load would take. */
  function LoadedHead(r: Record): nat { Max(r.head, MaxSeq(r.log)) }

  /** A mirror's file is in arrival order, so its log agrees up to order. */
  predicate Agrees(s: Session, r: Record) {
    && s.host == r.host && s.kind == r.kind && s.members == r.members && s.epoch == r.epoch
    && s.envelope == r.envelope && s.head == LoadedHead(r)
    && (s.kind == Local ==> s.log == r.log && LedgerAgrees(s.tickets, r.tickets))
    && (s.kind == Remote ==> multiset(s.log) == multiset(r.log) && s.tickets == r.tickets)
  }

  predicate HostedHere(c: Cell) { c.mem.Some? && c.mem.value.kind == Local }

  /** A session is registered, and its own leave or close has not begun. */
  predicate Live(c: Cell) { c.mem.Some? && !c.doomed }

  predicate Faithful(c: Cell) {
    Live(c) ==> c.disk.Some? && Agrees(c.mem.value, c.disk.value)
  }

  // ---- What holds in every run ----

  /** The stored head is not ahead of the stored log, and only what is registered is doomed. */
  predicate Heads(c: Cell) {
    (c.disk.Some? ==> c.disk.value.head <= MaxSeq(c.disk.value.log)) && (c.doomed ==> c.mem.Some?)
  }

  /** The capability set a host keeps is the projection of its log, and its head the largest number in it. */
  predicate Projected(c: Cell) {
    HostedHere(c) ==>
      c.mem.value.caps == ProjectCaps(c.mem.value.host, c.mem.value.log) && c.mem.value.head == MaxSeq(c.mem.value.log)
  }

  // ---- The steps that break agreement ----

  predicate LogFree(o: Option<Record>) { o.Some? ==> o.value.log == [] }

  predicate Blank(o: Option<Record>) { o.Some? ==> o.value.log == [] && o.value.envelope == None }

  /** Nothing but the store stands between this send and the log file. */
  predicate SendReaches(self: PeerId, id: SessionId, c: Cell, op: Op)
    requires op.Send?
  {
    && !(op.kind == System && (op.action == "workspace.ticket" || op.action == "workspace.upgrade"))
    && c.mem.Some? && c.mem.value.kind == Local && c.disk.Some?
    && op.author.id in c.mem.value.members && Held(c.mem.value.caps, op.author.id) == Some(ReadWrite)
    && (op.authoring.ByJoiner? ==>
          op.authoring.signature == Signed(op.author.id,
            Body(id, 3, op.authoring.timestampMs, op.author.id, op.kind, op.action, op.payload)))
    && op.frameLen <= 1_047_936
  }

  /** Nothing but the store stands between this frame and the mirror's log file. */
  predicate FrameReaches(id: SessionId, c: Cell, m: Message) {
    && c.mem.Some? && c.mem.value.kind == Remote && c.disk.Some?
    && !Duplicate(c.mem.value.log, m.seqNo) && AuthorVerifies(id, m) && HostVerifies(c.mem.value.host, id, m)
  }

  /** The record a waiting join is about to write says of the registered session what memory says. */
  predicate Harmless(s: Session, k: Claimant) {
    s.kind == Remote && s.host == k.host && s.members == {k.host} && s.epoch == k.epoch
  }

  /** The steps after which memory and store disagree: an append torn between its two files; a session
      created over the remains of an earlier one; a join that writes over the record of a session
      registered since it looked; a join that registers over a record other than its own; a rollback that
      deletes the record of a session registered since. */
  predicate Unfaithful(self: PeerId, id: SessionId, c: Cell, op: Op) {
    match op
    case Send(_, _, _, _, _, _, Torn) => !c.doomed && SendReaches(self, id, c, op)
    case MirrorFrame(m, Torn) => !c.doomed && FrameReaches(id, c, m)
    case HostCreate(_, _, true, Done) => c.mem == None && !Blank(c.disk)
    case ClaimStore(i, io) => io != Failed && Waiting(c, i) && Live(c) && !Harmless(c.mem.value, c.flight.claims[i])
    case ClaimInsert(i) =>
      Ready(c, i) && c.mem == None
      && c.disk != Some(ToRecord(FreshMirror(c.flight.claims[i].host, c.flight.claims[i].epoch)))
    case RollbackDelete(true) => c.flight.deletes > 0 && Live(c)
    case _ => false
  }

  // ---- Steps ----

  lemma EmptyProjection(host: PeerId)
    ensures ProjectCaps(host, []) == map[host := ReadWrite]
  {
  }

  lemma MaxSeqGrows(log: seq<Message>, m: Message)
    ensures MaxSeq(log + [m]) == Max(MaxSeq(log), m.seqNo)
  {
    assert log + [m] == log[..|log|] + [m] + log[|log|..];
    InsertMaxSeq(log, |log|, m);
  }

  lemma CreateFaithful(c: Cell, peer: PeerId, mint: Mint, floorRead: bool, io: Io)
    requires Faithful(c) && Heads(c) && (c.mem == None && floorRead && io == Done ==> Blank(c.disk))
    ensures Faithful(Creating(c, peer, mint, floorRead, io).cell)
  {
  }

  lemma StoreFaithful(c: Cell, i: nat, io: Io)
    requires Faithful(c) && Heads(c)
    requires Waiting(c, i) && io != Failed && Live(c) ==> Harmless(c.mem.value, c.flight.claims[i])
    ensures Faithful(Storing(c, i, io).cell)
  {
    if c.disk.Some? { assert c.disk.value.log + [] == c.disk.value.log; }
  }

  lemma InsertFaithful(c: Cell, i: nat)
    requires Faithful(c)
    requires Ready(c, i) && c.mem == None ==>
               c.disk == Some(ToRecord(FreshMirror(c.flight.claims[i].host, c.flight.claims[i].epoch)))
    ensures Faithful(Inserting(c, i).cell)
  {
  }

  /** A reload agrees with the store whatever was there before. */
  lemma ReloadFaithful(c: Cell)
    ensures Faithful(Reloading(c).cell)
  {
  }

  lemma AppendedFaithful(c: Cell, m: Message)
    requires Faithful(c) && c.mem.Some? && c.disk.Some? && c.mem.value.kind == Local
    requires m.seqNo == c.mem.value.head + 1
    ensures Faithful(Appended(c, m))
  {
    MaxSeqGrows(c.disk.value.log, m);
  }

  /** A send is answered with a message exactly when it reaches the log file and is stored whole. */
  lemma SendReachesIff(self: PeerId, id: SessionId, c: Cell, op: Op)
    requires op.Send?
    ensures Perform(self, id, c, op).reply.Sent? <==> SendReaches(self, id, c, op) && op.io == Done
    ensures Perform(self, id, c, op).cell != c ==> SendReaches(self, id, c, op) && op.io != Failed
    ensures SendReaches(self, id, c, op) && op.io == Torn ==>
              Perform(self, id, c, op).cell.disk.Some? && |Perform(self, id, c,
                  op).cell.disk.value.log| == |c.disk.value.log| + 1
  {
  }

  /** A send appends the message it returns, or leaves everything as it was, or tears. */
  lemma SendEffect(self: PeerId, id: SessionId, c: Cell, op: Op)
    requires op.Send?
    ensures var out := Perform(self, id, c, op);
            if out.reply.Sent?
            then var m := out.reply.message;
                 && c.mem.Some? && c.disk.Some? && c.mem.value.kind == Local && out.cell == Appended(c, m)
                 && m.seqNo == c.mem.value.head + 1 && m.peer == op.author && CanWrite(c.mem.value.caps, m.peer.id)
            else out.cell.mem == c.mem && (op.io != Torn ==> out.cell == c)
  {
  }

  /** What a torn send leaves behind. */
  lemma TornSendEffect(self: PeerId, id: SessionId, c: Cell, op: Op) returns (m: Message)
    requires op.Send? && op.io == Torn && SendReaches(self, id, c, op)
    ensures Perform(self, id, c, op).cell == c.(disk := Some(c.disk.value.(log := c.disk.value.log + [m])))
    ensures m.seqNo == c.mem.value.head + 1 && m.peer == op.author && CanWrite(c.mem.value.caps, m.peer.id)
    ensures op.authoring.ByJoiner? || op.author.id == self ==> Genuine(self, id, m)
  {
    m := Sequenced(self, id, c.mem.value, op.author, op.kind, op.action, op.payload,
                   Authored(self, id, op.author, op.kind, op.action, op.payload, op.authoring).value);
  }

  lemma SendFaithful(self: PeerId, id: SessionId, c: Cell, op: Op)
    requires Faithful(c) && op.Send? && (op.io == Torn ==> c.doomed || !SendReaches(self, id, c, op))
    ensures Faithful(Perform(self, id, c, op).cell)
  {
    SendEffect(self, id, c, op);
    SendReachesIff(self, id, c, op);
    var out := Perform(self, id, c, op);
    if out.reply.Sent? {
      AppendedFaithful(c, out.reply.message);
    } else if out.cell != c {
      var m := TornSendEffect(self, id, c, op);
    }
  }

  function Mirrored(c: Cell, pos: nat, m: Message): Cell
    requires c.mem.Some? && c.disk.Some? && pos <= |c.mem.value.log|
  {
    var s, r := c.mem.value, c.disk.value;
    c.(mem := Some(s.(log := s.log[..pos] + [m] + s.log[pos..], head := Max(s.head, m.seqNo))),
       disk := Some(r.(log := r.log + [m], head := Max(r.head, m.seqNo))))
  }

  lemma MirrorEffect(id: SessionId, c: Cell, m: Message, io: Io)
    requires io != Torn
    ensures var out := Mirroring(id, c, m, io).cell;
            || out == c
            || (c.mem.Some? && c.disk.Some? && c.mem.value.kind == Remote
                && out == Mirrored(c, PartitionPoint(c.mem.value.log, m.seqNo), m))
  {
    if c.mem.Some? {
      var pos := PartitionPoint(c.mem.value.log, m.seqNo);
      assert |c.mem.value.log[..pos] + [m] + c.mem.value.log[pos..]| == |c.mem.value.log| + 1;
    }
  }

  lemma MirroredFaithful(c: Cell, pos: nat, m: Message)
    requires Faithful(c) && c.mem.Some? && c.disk.Some? && c.mem.value.kind == Remote && pos <= |c.mem.value.log|
    ensures Faithful(Mirrored(c, pos, m))
  {
    var s, r := c.mem.value, c.disk.value;
    assert s.log == s.log[..pos] + s.log[pos..];
    MaxSeqGrows(r.log, m);
  }

  lemma FrameFaithful(id: SessionId, c: Cell, m: Message, io: Io)
    requires Faithful(c) && (io == Torn ==> c.doomed || !FrameReaches(id, c, m))
    ensures Faithful(Mirroring(id, c, m, io).cell)
  {
    if io != Torn {
      MirrorEffect(id, c, m, io);
      if Mirroring(id, c, m, io).cell != c { MirroredFaithful(c, PartitionPoint(c.mem.value.log, m.seqNo), m); }
    }
  }

  /** Two cells that differ in ledger, epoch and floor only. */
  predicate SameButLedger(c: Cell, d: Cell) {
    && !c.doomed && !d.doomed
    && c.mem.Some? && c.disk.Some? && d.mem.Some? && d.disk.Some?
    && d.mem.value == c.mem.value.(tickets := d.mem.value.tickets, epoch := d.mem.value.epoch)
    && d.disk.value == c.disk.value.(tickets := d.disk.value.tickets, epoch := d.disk.value.epoch)
    && d.mem.value.epoch == d.disk.value.epoch
    && c.mem.value.kind == Local && LedgerAgrees(d.mem.value.tickets, d.disk.value.tickets)
  }

  lemma SameButLedgerFaithful(c: Cell, d: Cell)
    requires Faithful(c) && SameButLedger(c, d)
    ensures Faithful(d)
  {
  }

  lemma LedgerEffect(self: PeerId, id: SessionId, c: Cell, op: Op)
    requires Faithful(c) && !c.doomed && (op.HostResume? || op.IssueTicket? || op.RevokeTicket?)
    ensures var d := Perform(self, id, c, op).cell; d == c || SameButLedger(c, d)
  {
  }

  lemma LedgerFaithful(self: PeerId, id: SessionId, c: Cell, op: Op)
    requires Faithful(c) && !c.doomed && (op.HostResume? || op.IssueTicket? || op.RevokeTicket?)
    ensures Faithful(Perform(self, id, c, op).cell)
  {
    LedgerEffect(self, id, c, op);
    if Perform(self, id, c, op).cell != c { SameButLedgerFaithful(c, Perform(self, id, c, op).cell); }
  }

  lemma NoteAgrees(mem: seq<TicketEntry>, disk: seq<TicketEntry>, id: TicketId, peer: PeerId)
    requires LedgerAgrees(mem, disk)
    ensures LedgerAgrees(NoteUse(mem, id, peer), disk)
    ensures LedgerAgrees(NoteUse(mem, id, peer), NoteUse(mem, id, peer))
  {
  }

  lemma AdmitFaithful(c: Cell, peer: PeerId)
    requires Faithful(c) && !c.doomed && c.mem.Some?
    ensures Faithful(WithMembers(c, c.mem.value.members + {peer}, c.disk.value.members + {peer}))
  {
  }

  lemma AdmissionEffect(self: PeerId, id: SessionId, c: Cell, op: Op)
    requires Faithful(c) && !c.doomed && op.EnsureMember?
    ensures var d := Perform(self, id, c, op).cell;
            || d == c
            || (c.mem.Some? && var e := WithMembers(c, c.mem.value.members + {op.peer},
                c.disk.value.members + {op.peer});
                               d == e || SameButLedger(e, d))
  {
    if c.mem.Some? && op.proof.Some? && c.mem.value.kind == Local {
      NoteAgrees(c.mem.value.tickets, c.disk.value.tickets, op.proof.value.ticket, op.peer);
    }
  }

  lemma AdmissionFaithful(self: PeerId, id: SessionId, c: Cell, op: Op)
    requires Faithful(c) && !c.doomed && op.EnsureMember?
    ensures Faithful(Perform(self, id, c, op).cell)
  {
    AdmissionEffect(self, id, c, op);
    var d := Perform(self, id, c, op).cell;
    if d != c {
      AdmitFaithful(c, op.peer);
      var e := WithMembers(c, c.mem.value.members + {op.peer}, c.disk.value.members + {op.peer});
      if d != e { SameButLedgerFaithful(e, d); }
    }
  }

  lemma DepartFaithful(c: Cell, peer: PeerId)
    requires Faithful(c) && !c.doomed && c.mem.Some? && (c.mem.value.kind == Local ==> peer != c.mem.value.host)
    ensures Faithful(WithMembers(c, c.mem.value.members - {peer}, c.disk.value.members - {peer}))
  {
  }

  lemma MemberEffect(self: PeerId, id: SessionId, c: Cell, op: Op)
    requires Faithful(c) && !c.doomed && (op.Join? || op.Leave? || op.RemoveMember?)
    ensures var d := Perform(self, id, c, op).cell;
            || d == c || (c.mem.Some? && d == Doomed(c, c.mem.value.(members := c.mem.value.members - {op.peer})))
            || (c.mem.Some? && d == WithMembers(c, c.mem.value.members + {op.peer}, c.disk.value.members + {op.peer}))
            || (c.mem.Some? && op.peer != c.mem.value.host
                && d == WithMembers(c, c.mem.value.members - {op.peer}, c.disk.value.members - {op.peer}))
  {
  }

  lemma MemberFaithful(self: PeerId, id: SessionId, c: Cell, op: Op)
    requires Faithful(c) && !c.doomed && (op.Join? || op.Leave? || op.RemoveMember?)
    ensures Faithful(Perform(self, id, c, op).cell)
  {
    MemberEffect(self, id, c, op);
    if c.mem.Some? {
      DoomedFaithful(c, c.mem.value.(members := c.mem.value.members - {op.peer}));
      AdmitFaithful(c, op.peer);
      if op.peer != c.mem.value.host { DepartFaithful(c, op.peer); }
    }
  }

  lemma DoomedFaithful(c: Cell, s: Session)
    requires Faithful(c) && c.mem.Some? && s == c.mem.value.(members := s.members)
    ensures Faithful(Doomed(c, s))
  {
  }

  lemma OtherFaithful(self: PeerId, id: SessionId, c: Cell, op: Op)
    requires Faithful(c) && !c.doomed
    requires op.AdvanceWatermark? || op.PublishEnvelope? || op.EmitEnvelope? || op.HostClosed?
    ensures Faithful(Perform(self, id, c, op).cell)
  {
    if op.HostClosed? && c.mem.Some? { DoomedFaithful(c, c.mem.value); }
  }

  /** The steps that only look, or only take something away. */
  lemma FlightFaithful(self: PeerId, id: SessionId, c: Cell, op: Op)
    requires Faithful(c) && !Unfaithful(self, id, c, op)
    requires op.ClaimLook? || op.JoinDone? || op.RollbackRemove? || op.RollbackDelete? || op.Unlist?
    ensures Faithful(Perform(self, id, c, op).cell)
  {
  }

  /** The log side of two cells is the same, or the second has no record. */
  predicate SameLogs(c: Cell, d: Cell) {
    && c.mem.Some? && d.mem.Some?
    && d.mem.value.host == c.mem.value.host && d.mem.value.kind == c.mem.value.kind
    && d.mem.value.log == c.mem.value.log && d.mem.value.head == c.mem.value.head
    && d.mem.value.caps == c.mem.value.caps
    && (d.disk.Some? ==>
          && c.disk.Some? && d.disk.value.host == c.disk.value.host && d.disk.value.kind == c.disk.value.kind
          && d.disk.value.log == c.disk.value.log && d.disk.value.head == c.disk.value.head)
  }

  predicate Bookkeeping(op: Op) {
    || op.HostResume? || op.IssueTicket? || op.RevokeTicket? || op.Join? || op.Leave? || op.RemoveMember?
    || op.EnsureMember? || op.AdvanceWatermark? || op.PublishEnvelope? || op.EmitEnvelope? || op.HostClosed?
  }

  lemma BookkeepingEffect(self: PeerId, id: SessionId, c: Cell, op: Op)
    requires Bookkeeping(op)
    ensures var d := Perform(self, id, c, op).cell;
            d == c || (SameLogs(c, d) && (c.doomed ==> d.doomed)
                       && if d.doomed && !c.doomed then d.disk == None else c.disk.Some? ==> d.disk.Some? || d.doomed)
  {
  }

  lemma BookkeepingFaithful(self: PeerId, id: SessionId, c: Cell, op: Op)
    requires Faithful(c) && Bookkeeping(op)
    ensures Faithful(Perform(self, id, c, op).cell)
  {
    if c.doomed {
      BookkeepingEffect(self, id, c, op);
    } else if op.HostResume? || op.IssueTicket? || op.RevokeTicket? {
      LedgerFaithful(self, id, c, op);
    } else if op.Join? || op.Leave? || op.RemoveMember? {
      MemberFaithful(self, id, c, op);
    } else if op.EnsureMember? {
      AdmissionFaithful(self, id, c, op);
    } else {
      OtherFaithful(self, id, c, op);
    }
  }

  lemma StepKeepsFaithful(self: PeerId, id: SessionId, c: Cell, op: Op)
    requires Faithful(c) && Heads(c) && !Unfaithful(self, id, c, op)
    ensures Faithful(Perform(self, id, c, op).cell)
  {
    match op
    case HostCreate(peer, mint, floorRead, io) => CreateFaithful(c, peer, mint, floorRead, io);
    case ClaimStore(i, io) => StoreFaithful(c, i, io);
    case ClaimInsert(i) => InsertFaithful(c, i);
    case Send(_, _, _, _, _, _, _) => SendFaithful(self, id, c, op);
    case MirrorFrame(m, io) => FrameFaithful(id, c, m, io);
    case Restart => ReloadFaithful(c);
    case _ => if Bookkeeping(op) { BookkeepingFaithful(self, id, c, op); } else { FlightFaithful(self, id, c, op); }
  }

  // ---- Invariants of every run ----

  lemma SendHeads(self: PeerId, id: SessionId, c: Cell, op: Op)
    requires op.Send? && Heads(c)
    ensures Heads(Perform(self, id, c, op).cell)
  {
    SendEffect(self, id, c, op);
    SendReachesIff(self, id, c, op);
    var out := Perform(self, id, c, op);
    if out.reply.Sent? {
      MaxSeqGrows(c.disk.value.log, out.reply.message);
    } else if out.cell != c {
      var m := TornSendEffect(self, id, c, op);
      MaxSeqGrows(c.disk.value.log, m);
    }
  }

  /** What a frame does to the record: nothing, or it is appended if nothing but the store was in its way. */
  lemma FrameOnDisk(id: SessionId, c: Cell, m: Message, io: Io)
    ensures var d := Mirroring(id, c, m, io).cell;
            && d.doomed == c.doomed && d.mem.Some? == c.mem.Some?
            && if FrameReaches(id, c, m) && io != Failed
               then d.disk.Some? && d.disk.value.log == c.disk.value.log + [m]
                    && d.disk.value.head <= Max(c.disk.value.head, m.seqNo)
               else d.disk == c.disk
  {
  }

  lemma FrameHeads(id: SessionId, c: Cell, m: Message, io: Io)
    requires Heads(c)
    ensures Heads(Mirroring(id, c, m, io).cell)
  {
    FrameOnDisk(id, c, m, io);
    if FrameReaches(id, c, m) { MaxSeqGrows(c.disk.value.log, m); }
  }

  lemma OtherHeads(self: PeerId, id: SessionId, c: Cell, op: Op)
    requires Heads(c) && !op.Send? && !op.MirrorFrame? && !Bookkeeping(op)
    ensures Heads(Perform(self, id, c, op).cell)
  {
  }

  lemma StepHeads(self: PeerId, id: SessionId, c: Cell, op: Op)
    requires Heads(c)
    ensures Heads(Perform(self, id, c, op).cell)
  {
    if op.Send? {
      SendHeads(self, id, c, op);
    } else if op.MirrorFrame? {
      FrameHeads(id, c, op.frame, op.io);
    } else if Bookkeeping(op) {
      BookkeepingEffect(self, id, c, op);
    } else {
      OtherHeads(self, id, c, op);
    }
  }

  lemma CreateProjected(c: Cell, peer: PeerId, mint: Mint, floorRead: bool, io: Io)
    requires Projected(c)
    ensures Projected(Creating(c, peer, mint, floorRead, io).cell)
  {
    EmptyProjection(peer);
  }

  lemma ReloadProjected(c: Cell)
    requires Heads(c)
    ensures Projected(Reloading(c).cell)
  {
  }

  /** Joins, rollbacks and removals put no session here. */
  lemma FlightSparesHosted(self: PeerId, id: SessionId, c: Cell, op: Op)
    requires !op.Send? && !Bookkeeping(op) && !op.HostCreate? && !op.MirrorFrame? && !op.Restart?
    ensures HostedHere(Perform(self, id, c, op).cell) ==> Perform(self, id, c, op).cell.mem == c.mem
  {
  }

  lemma FrameSparesHosted(id: SessionId, c: Cell, m: Message, io: Io)
    ensures HostedHere(Mirroring(id, c, m, io).cell) ==> Mirroring(id, c, m, io).cell == c
  {
  }

  lemma StepProjected(self: PeerId, id: SessionId, c: Cell, op: Op)
    requires Heads(c) && Projected(c)
    ensures Projected(Perform(self, id, c, op).cell)
  {
    if op.Send? {
      SendEffect(self, id, c, op);
      var out := Perform(self, id, c, op);
      if out.reply.Sent? {
        ProjectAppend(c.mem.value.host, c.mem.value.log, out.reply.message);
        MaxSeqGrows(c.mem.value.log, out.reply.message);
      }
    } else if Bookkeeping(op) {
      BookkeepingEffect(self, id, c, op);
    } else if op.HostCreate? {
      CreateProjected(c, op.peer, op.mint, op.floorRead, op.create);
    } else if op.MirrorFrame? {
      FrameSparesHosted(id, c, op.frame, op.io);
    } else if op.Restart? {
      ReloadProjected(c);
    } else {
      FlightSparesHosted(self, id, c, op);
    }
  }

  lemma {:induction false} RunHeads(self: PeerId, id: SessionId, ops: seq<Op>)
    ensures Heads(Reached(self, id, ops))
  {
    if ops != [] {
      RunHeads(self, id, ops[..|ops| - 1]);
      StepHeads(self, id, Reached(self, id, ops[..|ops| - 1]), ops[|ops| - 1]);
    }
  }

  /** In every run, with no exception, the capability set a host keeps message by message is the projection of its
      whole log, and its head the largest number in that log. */
  lemma {:induction false} CapsAreProjection(self: PeerId, id: SessionId, ops: seq<Op>)
    ensures Projected(Reached(self, id, ops))
  {
    if ops != [] {
      RunHeads(self, id, ops[..|ops| - 1]);
      CapsAreProjection(self, id, ops[..|ops| - 1]);
      StepProjected(self, id, Reached(self, id, ops[..|ops| - 1]), ops[|ops| - 1]);
    }
  }

  // ---- Results ----

  lemma TornSendBreaks(self: PeerId, id: SessionId, c: Cell, op: Op)
    requires Faithful(c) && op.Send? && op.io == Torn && !c.doomed && SendReaches(self, id, c, op)
    ensures !Faithful(Perform(self, id, c, op).cell)
  {
    SendReachesIff(self, id, c, op);
    SendEffect(self, id, c, op);
    var d := Perform(self, id, c, op).cell;
    assert d.mem.value.log == c.mem.value.log && |d.disk.value.log| == |c.disk.value.log| + 1;
  }

  lemma TornFrameBreaks(id: SessionId, c: Cell, m: Message)
    requires Faithful(c) && !c.doomed && FrameReaches(id, c, m)
    ensures !Faithful(Mirroring(id, c, m, Torn).cell)
  {
    var d := Mirroring(id, c, m, Torn).cell;
    assert d.mem.value.log == c.mem.value.log && d.disk.value.log == c.disk.value.log + [m];
    assert |multiset(d.disk.value.log)| == |multiset(c.disk.value.log)| + 1;
  }

  lemma DirtyCreateBreaks(self: PeerId, id: SessionId, c: Cell, op: Op)
    requires op.HostCreate? && Unfaithful(self, id, c, op)
    ensures !Faithful(Perform(self, id, c, op).cell)
  {
    var log := c.disk.value.log;
    assert log + [] == log;
  }

  lemma OverlapBreaks(self: PeerId, id: SessionId, c: Cell, op: Op)
    requires (op.ClaimStore? || op.ClaimInsert? || op.RollbackDelete?) && Unfaithful(self, id, c, op)
    ensures !Faithful(Perform(self, id, c, op).cell)
  {
    if op.ClaimInsert? && c.disk.Some? {
      var log := c.disk.value.log;
      assert |multiset(log)| == |log|;
    }
  }

  /** After every step, whatever it answers and whichever of its writes fail, memory still agrees with the
      store if and only if the step is none of the five above. */
  lemma StepFaithfulIff(self: PeerId, id: SessionId, c: Cell, op: Op)
    requires Faithful(c) && Heads(c)
    ensures Faithful(Perform(self, id, c, op).cell) <==> !Unfaithful(self, id, c, op)
  {
    if Unfaithful(self, id, c, op) {
      match op
      case Send(_, _, _, _, _, _, _) => TornSendBreaks(self, id, c, op);
      case MirrorFrame(m, _) => TornFrameBreaks(id, c, m);
      case HostCreate(_, _, _, _) => DirtyCreateBreaks(self, id, c, op);
      case _ => OverlapBreaks(self, id, c, op);
    } else {
      StepKeepsFaithful(self, id, c, op);
    }
  }

  /** Two joins of one session look before either registers; the record of the second, written last, puts the
      store behind the mirror the first has registered. */
  lemma OverlappingJoinsWitness(self: PeerId, id: SessionId, host: PeerId, newer: nat, older: nat)
    requires host != self && older < newer
    ensures var ops := [ClaimLook(0, host, newer), ClaimLook(1, host, older), ClaimStore(0, Done), ClaimInsert(0),
                        ClaimStore(1, Done)];
            var c := Reached(self, id, ops);
            !Faithful(c) && Live(c) && c.disk.Some? && c.disk.value.epoch < c.mem.value.epoch
  {
    var a := [] + [ClaimLook(0, host, newer)];
    var b := a + [ClaimLook(1, host, older)];
    var d := b + [ClaimStore(0, Done)];
    var e := d + [ClaimInsert(0)];
    ReachedStep(self, id, [], ClaimLook(0, host, newer));
    ReachedStep(self, id, a, ClaimLook(1, host, older));
    ReachedStep(self, id, b, ClaimStore(0, Done));
    ReachedStep(self, id, d, ClaimInsert(0));
    ReachedStep(self, id, e, ClaimStore(1, Done));
    assert e + [ClaimStore(1, Done)] == [ClaimLook(0, host, newer), ClaimLook(1, host, older), ClaimStore(0, Done),
                                         ClaimInsert(0), ClaimStore(1, Done)];
  }

  /** A join rolls back while another registers: the second's record is deleted under its live mirror. */
  lemma RollbackWitness(self: PeerId, id: SessionId, host: PeerId, epoch: nat)
    requires host != self
    ensures var ops := [ClaimLook(0, host, epoch), ClaimStore(0, Done), ClaimInsert(0), RollbackRemove] +
                       [ClaimLook(1, host, epoch), ClaimStore(1, Done), ClaimInsert(1), RollbackDelete(true)];
            var c := Reached(self, id, ops);
            !Faithful(c) && Live(c) && c.disk == None
  {
    var a := [] + [ClaimLook(0, host, epoch), ClaimStore(0, Done)];
    var b := a + [ClaimInsert(0), RollbackRemove];
    var d := b + [ClaimLook(1, host, epoch), ClaimStore(1, Done)];
    ReachedTwo(self, id, [], ClaimLook(0, host, epoch), ClaimStore(0, Done));
    ReachedTwo(self, id, a, ClaimInsert(0), RollbackRemove);
    ReachedTwo(self, id, b, ClaimLook(1, host, epoch), ClaimStore(1, Done));
    ReachedTwo(self, id, d, ClaimInsert(1), RollbackDelete(true));
    assert d + [ClaimInsert(1), RollbackDelete(true)] ==
             [ClaimLook(0, host, epoch), ClaimStore(0, Done), ClaimInsert(0), RollbackRemove] +
             [ClaimLook(1, host, epoch), ClaimStore(1, Done), ClaimInsert(1), RollbackDelete(true)];
  }

  lemma ReachedAt(self: PeerId, id: SessionId, ops: seq<Op>, k: nat)
    requires k < |ops|
    ensures Reached(self, id, ops[..k + 1]) == Perform(self, id, Reached(self, id, ops[..k]), ops[k]).cell
  {
    assert ops[..k + 1] == ops[..k] + [ops[k]];
    ReachedStep(self, id, ops[..k], ops[k]);
  }

  /** Hosted after `k` steps. */
  predicate HostedAt(self: PeerId, id: SessionId, ops: seq<Op>, k: nat)
    requires k <= |ops|
  {
    HostedHere(Reached(self, id, ops[..k]))
  }

  lemma ReachedTwo(self: PeerId, id: SessionId, ops: seq<Op>, a: Op, b: Op)
    ensures Reached(self, id, ops + [a, b]) ==
              Perform(self, id, Perform(self, id, Reached(self, id, ops), a).cell, b).cell
  {
    ReachedStep(self, id, ops, a);
    ReachedStep(self, id, ops + [a], b);
    assert ops + [a] + [b] == ops + [a, b];
  }

  /** What a reload of `s` may differ in: notes of use, one entry never handed out, the order of a mirror's log. */
  predicate Reproduces(s: Session, t: Session) {
    && t.host == s.host && t.kind == s.kind && t.members == s.members && t.head == s.head
    && t.epoch == s.epoch && t.envelope == s.envelope
    && (s.kind == Local ==> t.log == s.log && t.caps == s.caps && LedgerAgrees(s.tickets, t.tickets))
    && (s.kind == Remote ==> multiset(t.log) == multiset(s.log) && t.tickets == s.tickets)
  }

  /** A crash now, and the reload after it, give back the registered session. */
  predicate Recovers(c: Cell) {
    Live(c) ==> var d := Reloading(c).cell; d.mem.Some? && Reproduces(c.mem.value, d.mem.value)
  }

  lemma ReloadReproduces(c: Cell)
    requires Faithful(c) && Projected(c)
    ensures Recovers(c)
  {
  }

  predicate UnfaithfulAt(self: PeerId, id: SessionId, ops: seq<Op>, k: nat)
    requires k < |ops|
  {
    Unfaithful(self, id, Reached(self, id, ops[..k]), ops[k])
  }

  predicate FaithfulAt(self: PeerId, id: SessionId, ops: seq<Op>, k: nat)
    requires k <= |ops|
  {
    Faithful(Reached(self, id, ops[..k]))
  }

  /** After `n` steps the daemon has just restarted, or nothing is live. */
  predicate Afresh(self: PeerId, id: SessionId, ops: seq<Op>, n: nat)
    requires n <= |ops|
  {
    (n > 0 && ops[n - 1].Restart?) || !Live(Reached(self, id, ops[..n]))
  }

  lemma FaithfulAfresh(self: PeerId, id: SessionId, ops: seq<Op>, n: nat)
    requires n <= |ops| && Afresh(self, id, ops, n)
    ensures FaithfulAt(self, id, ops, n)
  {
    if n > 0 && ops[n - 1].Restart? {
      ReachedAt(self, id, ops, n - 1);
      ReloadFaithful(Reached(self, id, ops[..n - 1]));
    }
  }

  lemma FaithfulAtStep(self: PeerId, id: SessionId, ops: seq<Op>, k: nat)
    requires k < |ops| && FaithfulAt(self, id, ops, k)
    ensures FaithfulAt(self, id, ops, k + 1) <==> !UnfaithfulAt(self, id, ops, k)
  {
    RunHeads(self, id, ops[..k]);
    ReachedAt(self, id, ops, k);
    StepFaithfulIff(self, id, Reached(self, id, ops[..k]), ops[k]);
  }

  lemma {:induction false} FaithfulSince(self: PeerId, id: SessionId, ops: seq<Op>, n: nat, m: nat)
    requires n <= m <= |ops| && Afresh(self, id, ops, n)
    requires forall k :: n <= k < m ==> !UnfaithfulAt(self, id, ops, k)
    ensures FaithfulAt(self, id, ops, m)
    decreases m
  {
    if n == m {
      FaithfulAfresh(self, id, ops, n);
    } else {
      FaithfulSince(self, id, ops, n, m - 1);
      assert !UnfaithfulAt(self, id, ops, m - 1);
      FaithfulAtStep(self, id, ops, m - 1);
    }
  }

  /** In every run, whatever lies before: if none of the five steps was taken since the last restart, or since a
      moment when nothing was live, a crash now loses nothing. */
  lemma CrashReproducesSession(self: PeerId, id: SessionId, ops: seq<Op>, n: nat)
    requires n <= |ops| && Afresh(self, id, ops, n)
    requires forall k :: n <= k < |ops| ==> !UnfaithfulAt(self, id, ops, k)
    ensures Recovers(Reached(self, id, ops))
  {
    FaithfulSince(self, id, ops, n, |ops|);
    assert ops[..|ops|] == ops;
    CapsAreProjection(self, id, ops);
    ReloadReproduces(Reached(self, id, ops));
  }
}
