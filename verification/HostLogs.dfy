/** The log of a host: rejected sends leave no trace in it, and torn appends spoil it exactly when a number is
    reused. */
module HostLogs {
  import opened Protocol
  import opened Capabilities
  import Mirrors
  import opened Sessions
  import opened SessionCache

  /** A send is answered with a message exactly when it took the next sequence number; every other
      answer leaves the session in memory untouched, and the store too unless the append was torn. */
  lemma RejectedSendConsumesNothing(self: PeerId, id: SessionId, c: Cell, op: Op)
    requires op.Send?
    ensures var out := Perform(self, id, c, op);
            if out.reply.Sent?
            then c.mem.Some? && out.cell.mem.Some?
                 && out.cell.mem.value.log == c.mem.value.log + [out.reply.message]
                 && out.cell.mem.value.head == c.mem.value.head + 1 == out.reply.message.seqNo
            else out.cell.mem == c.mem && (out.cell != c ==> op.io == Torn)
  {
    SendEffect(self, id, c, op);
  }

  // ---- Shape of a log ----

  /** Every author is the host, or one to whom the host had granted write access in the entries before, as its
      last word. */
  predicate SelfAuthorised(host: PeerId, log: seq<Message>) {
    forall i :: 0 <= i < |log| ==> Granted(host, log[..i], log[i].peer.id)
  }

  predicate Numbered(log: seq<Message>) {
    forall i :: 0 <= i < |log| ==> log[i].seqNo == i + 1
  }

  lemma NumberedMax(log: seq<Message>)
    requires Numbered(log)
    ensures MaxSeq(log) == |log|
  {
    if log != [] { assert log[|log| - 1] in log; Mirrors.MaxSeqUnique(log, |log|); }
  }

  lemma NumberedAppend(log: seq<Message>, m: Message)
    ensures Numbered(log + [m]) <==> Numbered(log) && m.seqNo == |log| + 1
  {
    var more := log + [m];
    if Numbered(more) {
      forall i | 0 <= i < |log| ensures log[i].seqNo == i + 1 { assert more[i] == log[i]; }
      assert more[|log|] == m;
    }
  }

  lemma AuthorisedAppend(host: PeerId, log: seq<Message>, m: Message)
    ensures SelfAuthorised(host, log + [m]) <==>
              SelfAuthorised(host, log) && Granted(host, log, m.peer.id)
  {
    var more := log + [m];
    assert more[..|log|] == log;
    forall i | 0 <= i < |log| ensures more[..i] == log[..i] && more[i] == log[i] { }
    if SelfAuthorised(host, more) {
      assert Granted(host, more[..|log|], more[|log|].peer.id);
      forall i | 0 <= i < |log| ensures Granted(host, log[..i], log[i].peer.id) {
        assert Granted(host, more[..i], more[i].peer.id);
      }
    }
  }

  // ---- Runs with torn appends ----

  /** A step that leaves memory and store at odds, torn appends aside, or a create that itself stops half way over
      an earlier log. */
  predicate Disorderly(self: PeerId, id: SessionId, c: Cell, op: Op) {
    || (!op.Send? && !op.MirrorFrame? && Unfaithful(self, id, c, op))
    || (op.HostCreate? && op.create == Torn && op.floorRead && c.mem == None && !LogFree(c.disk))
  }

  predicate Orderly(self: PeerId, id: SessionId, ops: seq<Op>) {
    forall i :: 0 <= i < |ops| ==> !Disorderly(self, id, Reached(self, id, ops[..i]), ops[i])
  }

  lemma OrderlyPrefix(self: PeerId, id: SessionId, ops: seq<Op>, n: nat)
    requires Orderly(self, id, ops) && n <= |ops|
    ensures Orderly(self, id, ops[..n])
  {
    forall i | 0 <= i < n ensures !Disorderly(self, id, Reached(self, id, ops[..n][..i]), ops[..n][i]) {
      assert ops[..n][..i] == ops[..i];
    }
  }

  /** The send writes to the log file, wholly or in part. */
  predicate Writes(self: PeerId, id: SessionId, c: Cell, op: Op) {
    op.Send? && op.io != Failed && SendReaches(self, id, c, op)
  }

  predicate Tears(self: PeerId, id: SessionId, c: Cell, op: Op) { Writes(self, id, c, op) && op.io == Torn }

  predicate Creates(c: Cell, op: Op) { op.HostCreate? && op.floorRead && op.create != Failed && c.mem == None }

  predicate WritesAt(self: PeerId, id: SessionId, ops: seq<Op>, i: nat)
    requires i < |ops|
  {
    Writes(self, id, Reached(self, id, ops[..i]), ops[i])
  }

  predicate TearsAt(self: PeerId, id: SessionId, ops: seq<Op>, i: nat)
    requires i < |ops|
  {
    Tears(self, id, Reached(self, id, ops[..i]), ops[i])
  }

  predicate CreatesAt(self: PeerId, id: SessionId, ops: seq<Op>, i: nat)
    requires i < |ops|
  {
    Creates(Reached(self, id, ops[..i]), ops[i])
  }

  /** The session was not created anew after step `i`. */
  predicate SameLife(self: PeerId, id: SessionId, ops: seq<Op>, i: nat) {
    forall k :: i < k < |ops| ==> !CreatesAt(self, id, ops, k)
  }

  predicate NoRestartBetween(ops: seq<Op>, i: nat, j: nat)
    requires j <= |ops|
  {
    forall k :: i < k < j ==> !ops[k].Restart?
  }

  /** A torn append is the last thing the log file holds, and memory does not know of it. */
  predicate Dangling(self: PeerId, id: SessionId, ops: seq<Op>) {
    exists i :: 0 <= i < |ops| && TearsAt(self, id, ops, i) && NoRestartBetween(ops, i, |ops|)
        && SameLife(self, id, ops, i)
  }

  /** After the torn append `i`, and before any restart, the send `j` wrote to the log file again. */
  predicate Reuse(self: PeerId, id: SessionId, ops: seq<Op>, i: nat, j: nat) {
    i < j < |ops| && ReusePair(self, id, ops, i, j) && SameLife(self, id, ops, i)
  }

  predicate Reused(self: PeerId, id: SessionId, ops: seq<Op>) {
    exists i: nat, j: nat :: i < |ops| && j < |ops| && Reuse(self, id, ops, i, j)
  }

  /** ... and a restart has read the file since. */
  predicate Spoiled(self: PeerId, id: SessionId, ops: seq<Op>) {
    exists i: nat, j: nat, k: nat :: i < |ops| && j < k < |ops| && Reuse(self, id, ops, i, j) && ops[k].Restart?
  }

  lemma AtPrefix(self: PeerId, id: SessionId, ops: seq<Op>, i: nat)
    requires i + 1 < |ops|
    ensures var init := ops[..|ops| - 1];
            && init[i] == ops[i]
            && (TearsAt(self, id, ops, i) <==> TearsAt(self, id, init, i))
            && (WritesAt(self, id, ops, i) <==> WritesAt(self, id, init, i))
            && (CreatesAt(self, id, ops, i) <==> CreatesAt(self, id, init, i))
  {
    assert ops[..|ops| - 1][..i] == ops[..i];
  }

  lemma SameLifeStep(self: PeerId, id: SessionId, ops: seq<Op>, i: nat)
    requires i + 1 < |ops|
    ensures SameLife(self, id, ops, i) <==>
              SameLife(self, id, ops[..|ops| - 1], i) && !CreatesAt(self, id, ops, |ops| - 1)
  {
    var init := ops[..|ops| - 1];
    forall k | i < k < |init| ensures CreatesAt(self, id, ops, k) <==> CreatesAt(self, id, init, k) {
      AtPrefix(self, id, ops, k);
    }
    if SameLife(self, id, init, i) && !CreatesAt(self, id, ops, |init|) {
      forall k | i < k < |ops| ensures !CreatesAt(self, id, ops, k) { if k < |init| {
          assert !CreatesAt(self, id, init, k); } }
    }
    if SameLife(self, id, ops, i) {
      forall k | i < k < |init| ensures !CreatesAt(self, id, init, k) { assert !CreatesAt(self, id, ops, k); }
    }
  }

  lemma DanglingStep(self: PeerId, id: SessionId, ops: seq<Op>)
    requires ops != []
    ensures var init, n := ops[..|ops| - 1], |ops| - 1;
            Dangling(self, id, ops) <==>
              TearsAt(self, id, ops, n) || (Dangling(self, id, init) && !ops[n].Restart?
                  && !CreatesAt(self, id, ops, n))
  {
    var init, n := ops[..|ops| - 1], |ops| - 1;
    if TearsAt(self, id, ops, n) { assert NoRestartBetween(ops, n, |ops|) && SameLife(self, id, ops, n); }
    forall i: nat | i < n
      ensures TearsAt(self, id, ops, i) && NoRestartBetween(ops, i, |ops|) && SameLife(self, id, ops, i) <==>
                && TearsAt(self, id, init, i) && NoRestartBetween(init, i, n) && SameLife(self, id, init, i)
                && !ops[n].Restart? && !CreatesAt(self, id, ops, n)
    {
      AtPrefix(self, id, ops, i);
      SameLifeStep(self, id, ops, i);
      assert NoRestartBetween(ops, i, |ops|) <==> NoRestartBetween(init, i, n) && !ops[n].Restart?;
    }
  }

  /** Two steps at which a number is reused, as far as they are concerned themselves. */
  predicate ReusePair(self: PeerId, id: SessionId, ops: seq<Op>, i: nat, j: nat)
    requires i < j < |ops|
  {
    TearsAt(self, id, ops, i) && WritesAt(self, id, ops, j) && NoRestartBetween(ops, i, j)
  }

  lemma ReusePairPrefix(self: PeerId, id: SessionId, ops: seq<Op>, i: nat, j: nat)
    requires i < j < |ops| - 1
    ensures ReusePair(self, id, ops, i, j) <==> ReusePair(self, id, ops[..|ops| - 1], i, j)
  {
    AtPrefix(self, id, ops, i);
    AtPrefix(self, id, ops, j);
  }

  lemma ReuseStep(self: PeerId, id: SessionId, ops: seq<Op>, i: nat, j: nat)
    requires i < j < |ops|
    ensures var init, n := ops[..|ops| - 1], |ops| - 1;
            Reuse(self, id, ops, i, j) <==>
              && !CreatesAt(self, id, ops, n)
              && if j < n then Reuse(self, id, init, i, j)
                 else TearsAt(self, id, init, i) && NoRestartBetween(init, i, n) && SameLife(self, id, init, i)
                      && WritesAt(self, id, ops, n)
  {
    SameLifeStep(self, id, ops, i);
    if j < |ops| - 1 { ReusePairPrefix(self, id, ops, i, j); } else { AtPrefix(self, id, ops, i); }
  }

  lemma ReusedStep(self: PeerId, id: SessionId, ops: seq<Op>)
    requires ops != []
    ensures var init, n := ops[..|ops| - 1], |ops| - 1;
            Reused(self, id, ops) <==>
              !CreatesAt(self, id, ops, n) && (Reused(self, id, init) || (Dangling(self, id, init)
                  && WritesAt(self, id, ops, n)))
  {
    var init, n := ops[..|ops| - 1], |ops| - 1;
    if Reused(self, id, ops) {
      var i: nat, j: nat :| i < |ops| && j < |ops| && Reuse(self, id, ops, i, j);
      ReuseStep(self, id, ops, i, j);
    }
    if !CreatesAt(self, id, ops, n) {
      if Reused(self, id, init) {
        var i: nat, j: nat :| i < |init| && j < |init| && Reuse(self, id, init, i, j);
        ReuseStep(self, id, ops, i, j);
      } else if Dangling(self, id, init) && WritesAt(self, id, ops, n) {
        var i: nat :| i < |init| && TearsAt(self, id, init, i) && NoRestartBetween(init, i, |init|)
            && SameLife(self, id, init, i);
        ReuseStep(self, id, ops, i, n);
      }
    }
  }

  lemma SpoiledStep(self: PeerId, id: SessionId, ops: seq<Op>)
    requires ops != []
    ensures var init, n := ops[..|ops| - 1], |ops| - 1;
            Spoiled(self, id, ops) <==>
              !CreatesAt(self, id, ops, n) && (Spoiled(self, id, init) || (Reused(self, id, init) && ops[n].Restart?))
  {
    var init, n := ops[..|ops| - 1], |ops| - 1;
    if Spoiled(self, id, ops) { SpoiledBefore(self, id, ops); }
    if !CreatesAt(self, id, ops, n) {
      if Spoiled(self, id, init) {
        var i: nat, j: nat, k: nat :| i < |init| && j < k < |init| && Reuse(self, id, init, i, j) && init[k].Restart?;
        ReuseStep(self, id, ops, i, j);
        assert ops[k].Restart?;
      } else if Reused(self, id, init) && ops[n].Restart? {
        var i: nat, j: nat :| i < |init| && j < |init| && Reuse(self, id, init, i, j);
        ReuseStep(self, id, ops, i, j);
        assert ops[n].Restart?;
      }
    }
  }

  lemma SpoiledBefore(self: PeerId, id: SessionId, ops: seq<Op>)
    requires ops != [] && Spoiled(self, id, ops)
    ensures var init, n := ops[..|ops| - 1], |ops| - 1;
            !CreatesAt(self, id, ops, n) && (Spoiled(self, id, init) || (Reused(self, id, init) && ops[n].Restart?))
  {
    var i: nat, j: nat, k: nat :| i < |ops| && j < k < |ops| && Reuse(self, id, ops, i, j) && ops[k].Restart?;
    SpoiledBeforeAt(self, id, ops, i, j, k);
  }

  lemma SpoiledBeforeAt(self: PeerId, id: SessionId, ops: seq<Op>, i: nat, j: nat, k: nat)
    requires j < k < |ops| && Reuse(self, id, ops, i, j) && ops[k].Restart?
    ensures var init, n := ops[..|ops| - 1], |ops| - 1;
            !CreatesAt(self, id, ops, n) && (Spoiled(self, id, init) || (Reused(self, id, init) && ops[n].Restart?))
  {
    var init := ops[..|ops| - 1];
    ReuseBefore(self, id, ops, i, j);
    SpoiledBy(self, id, init, i, j, k);
    if k < |init| { assert init[k] == ops[k]; } else { assert k == |init|; }
  }

  lemma ReuseBefore(self: PeerId, id: SessionId, ops: seq<Op>, i: nat, j: nat)
    requires j + 1 < |ops| && Reuse(self, id, ops, i, j)
    ensures !CreatesAt(self, id, ops, |ops| - 1) && Reuse(self, id, ops[..|ops| - 1], i, j)
  {
    ReuseStep(self, id, ops, i, j);
  }

  lemma SpoiledBy(self: PeerId, id: SessionId, ops: seq<Op>, i: nat, j: nat, k: nat)
    requires Reuse(self, id, ops, i, j) && j < k
    ensures Reused(self, id, ops) && (k < |ops| && ops[k].Restart? ==> Spoiled(self, id, ops))
  {
  }

  // ---- What memory and file hold ----

  predicate SessionShape(s: Session) {
    && s.head == MaxSeq(s.log)
    && (s.kind == Local ==> Numbered(s.log) && s.head == |s.log| && SelfAuthorised(s.host, s.log)
                            && s.caps == ProjectCaps(s.host, s.log))
  }

  lemma AppendedSession(s: Session, m: Message)
    requires s.kind == Local && SessionShape(s) && m.seqNo == s.head + 1 && CanWrite(s.caps, m.peer.id)
    ensures SessionShape(s.(head := m.seqNo, log := s.log + [m], caps := Advance(s.caps, s.host, m)))
  {
    CanWriteIff(s.host, s.log, m.peer.id);
    AuthorisedAppend(s.host, s.log, m);
    NumberedAppend(s.log, m);
    NumberedMax(s.log + [m]);
    ProjectAppend(s.host, s.log, m);
  }

  predicate Misnumbered(log: seq<Message>) {
    exists i :: 0 <= i < |log| && log[i].seqNo != i + 1
  }

  predicate FileTrack(r: Record, reused: bool) {
    if reused then Misnumbered(r.log) else Numbered(r.log) && SelfAuthorised(r.host, r.log) && r.head <= |r.log|
  }

  predicate TailTrack(s: Session, r: Record, dangling: bool) {
    if dangling then |r.log| == |s.log| + 1 && r.log[..|s.log|] == s.log else r.log == s.log
  }

  predicate SessionTrack(s: Session, spoiled: bool) {
    if spoiled then Misnumbered(s.log) else SessionShape(s)
  }

  predicate KindTrack(c: Cell) {
    && (c.doomed ==> c.mem.Some? && (c.disk.Some? ==> c.disk.value.kind == Remote))
    && (c.mem.Some? && c.disk.Some? && c.disk.value.kind == Local ==> c.mem.value.kind == Local)
    && (Live(c) && c.mem.value.kind == Local ==>
          c.disk.Some? && c.disk.value.kind == Local && c.disk.value.host == c.mem.value.host)
  }

  predicate Track(c: Cell, dangling: bool, reused: bool, spoiled: bool) {
    && KindTrack(c)
    && (spoiled ==> reused)
    && (c.disk.Some? && c.disk.value.kind == Local ==> FileTrack(c.disk.value, reused))
    && (c.mem.Some? && c.mem.value.kind == Local ==> SessionTrack(c.mem.value, spoiled))
    && (Live(c) && c.mem.value.kind == Local && !reused ==> TailTrack(c.mem.value, c.disk.value, dangling))
  }

  lemma MisnumberedGrows(log: seq<Message>, m: Message)
    requires Misnumbered(log)
    ensures Misnumbered(log + [m])
  {
    var i :| 0 <= i < |log| && log[i].seqNo != i + 1;
    assert (log + [m])[i] == log[i];
  }

  /** The file after one more entry, numbered with memory's next number. */
  lemma FileGrows(s: Session, r: Record, m: Message, head: nat, dangling: bool, reused: bool)
    requires FileTrack(r, reused) && r.host == s.host && m.seqNo == s.head + 1 && CanWrite(s.caps, m.peer.id)
    requires head == r.head || head == Max(r.head, m.seqNo)
    requires !reused ==> SessionShape(s) && s.kind == Local && TailTrack(s, r, dangling)
    ensures FileTrack(r.(log := r.log + [m], head := head), reused || dangling)
  {
    var more := r.log + [m];
    if reused {
      MisnumberedGrows(r.log, m);
    } else if dangling {
      assert more[|r.log|].seqNo != |r.log| + 1;
    } else {
      CanWriteIff(s.host, s.log, m.peer.id);
      AuthorisedAppend(s.host, s.log, m);
    }
  }

  lemma MemoryGrows(s: Session, m: Message, spoiled: bool)
    requires s.kind == Local && SessionTrack(s, spoiled) && m.seqNo == s.head + 1 && CanWrite(s.caps, m.peer.id)
    ensures SessionTrack(s.(head := m.seqNo, log := s.log + [m], caps := Advance(s.caps, s.host, m)), spoiled)
  {
    if spoiled { MisnumberedGrows(s.log, m); } else { AppendedSession(s, m); }
  }

  lemma TrackSent(c: Cell, m: Message, dangling: bool, reused: bool, spoiled: bool)
    requires Track(c, dangling, reused, spoiled) && c.mem.Some? && c.disk.Some? && c.mem.value.kind == Local
    requires m.seqNo == c.mem.value.head + 1 && CanWrite(c.mem.value.caps, m.peer.id)
    ensures Track(Appended(c, m), dangling, reused || dangling, spoiled)
  {
    MemoryGrows(c.mem.value, m, spoiled);
    if c.disk.value.kind == Local {
      FileGrows(c.mem.value, c.disk.value, m, Max(c.disk.value.head, m.seqNo), dangling, reused);
    }
  }

  lemma TrackTorn(c: Cell, m: Message, dangling: bool, reused: bool, spoiled: bool)
    requires Track(c, dangling, reused, spoiled) && c.mem.Some? && c.disk.Some? && c.mem.value.kind == Local
    requires m.seqNo == c.mem.value.head + 1 && CanWrite(c.mem.value.caps, m.peer.id)
    ensures Track(c.(disk := Some(c.disk.value.(log := c.disk.value.log + [m]))), true, reused || dangling, spoiled)
  {
    if c.disk.value.kind == Local {
      FileGrows(c.mem.value, c.disk.value, m, c.disk.value.head, dangling, reused);
    }
  }

  lemma TrackReload(c: Cell, dangling: bool, reused: bool, spoiled: bool)
    requires Track(c, dangling, reused, spoiled)
    ensures Track(Reloading(c).cell, false, reused, spoiled || reused)
  {
    if c.disk.Some? && c.disk.value.kind == Local && !reused { NumberedMax(c.disk.value.log); }
  }

  lemma TrackSameLogs(c: Cell, d: Cell, dangling: bool, reused: bool, spoiled: bool)
    requires Track(c, dangling, reused, spoiled) && SameLogs(c, d) && (c.doomed ==> d.doomed)
    requires if d.doomed && !c.doomed then d.disk == None else c.disk.Some? ==> d.disk.Some? || d.doomed
    ensures Track(d, dangling, reused, spoiled)
  {
  }

  lemma TrackCreate(c: Cell, op: Op)
    requires Creates(c, op) && c.doomed == false && LogFree(c.disk) && (op.create == Done ==> Blank(c.disk))
    ensures Track(Creating(c, op.peer, op.mint, op.floorRead, op.create).cell, false, false, false)
  {
    EmptyProjection(op.peer);
    if c.disk.Some? { assert c.disk.value.log + [] == []; }
  }

  lemma TrackFrame(id: SessionId, c: Cell, m: Message, io: Io, dangling: bool, reused: bool, spoiled: bool)
    requires Track(c, dangling, reused, spoiled)
    ensures Track(Mirroring(id, c, m, io).cell, dangling, reused, spoiled)
  {
  }

  lemma TrackStore(c: Cell, i: nat, io: Io, dangling: bool, reused: bool, spoiled: bool)
    requires Track(c, dangling, reused, spoiled)
    requires Waiting(c, i) && io != Failed && Live(c) ==> c.mem.value.kind == Remote
    ensures Track(Storing(c, i, io).cell, dangling, reused, spoiled)
  {
  }

  lemma TrackInsert(c: Cell, i: nat, dangling: bool, reused: bool, spoiled: bool)
    requires Track(c, dangling, reused, spoiled)
    requires Ready(c, i) && c.mem == None ==> c.disk.Some? && c.disk.value.kind == Remote
    ensures Track(Inserting(c, i).cell, dangling, reused, spoiled)
  {
  }

  lemma TrackFlight(self: PeerId, id: SessionId, c: Cell, op: Op, dangling: bool, reused: bool, spoiled: bool)
    requires Track(c, dangling, reused, spoiled) && !Disorderly(self, id, c, op)
    requires !op.Send? && !op.Restart? && !Bookkeeping(op) && !Creates(c, op)
    ensures Track(Perform(self, id, c, op).cell, dangling, reused, spoiled)
  {
    match op
    case MirrorFrame(m, io) => TrackFrame(id, c, m, io, dangling, reused, spoiled);
    case ClaimStore(i, io) => TrackStore(c, i, io, dangling, reused, spoiled);
    case ClaimInsert(i) => TrackInsert(c, i, dangling, reused, spoiled);
    case _ =>
  }

  lemma TrackSend(self: PeerId, id: SessionId, c: Cell, op: Op, dangling: bool, reused: bool, spoiled: bool)
    requires Track(c, dangling, reused, spoiled) && op.Send?
    ensures Track(Perform(self, id, c, op).cell, Tears(self, id, c, op) || dangling,
                  reused || (dangling && Writes(self, id, c, op)), spoiled)
  {
    SendReachesIff(self, id, c, op);
    if Tears(self, id, c, op) {
      var m := TornSendEffect(self, id, c, op);
      TrackTorn(c, m, dangling, reused, spoiled);
    } else if Writes(self, id, c, op) {
      SendEffect(self, id, c, op);
      TrackSent(c, Perform(self, id, c, op).reply.message, dangling, reused, spoiled);
    }
  }

  lemma TrackStep(self: PeerId, id: SessionId, c: Cell, op: Op, dangling: bool, reused: bool, spoiled: bool)
    requires Track(c, dangling, reused, spoiled) && !Disorderly(self, id, c, op)
    ensures var d := Perform(self, id, c, op).cell;
            if Creates(c, op) then Track(d, false, false, false)
            else Track(d, Tears(self, id, c, op) || (dangling && !op.Restart?),
                       reused || (dangling && Writes(self, id, c, op)), spoiled || (reused && op.Restart?))
  {
    if op.Send? {
      TrackSend(self, id, c, op, dangling, reused, spoiled);
    } else if op.Restart? {
      TrackReload(c, dangling, reused, spoiled);
    } else if Creates(c, op) {
      TrackCreate(c, op);
    } else if Bookkeeping(op) {
      BookkeepingEffect(self, id, c, op);
      if Perform(self, id, c, op).cell != c { TrackSameLogs(c, Perform(self, id, c, op).cell, dangling, reused,
          spoiled); }
    } else {
      TrackFlight(self, id, c, op, dangling, reused, spoiled);
    }
  }

  /** What the run so far says of memory and file. */
  predicate Tracked(self: PeerId, id: SessionId, ops: seq<Op>) {
    Track(Reached(self, id, ops), Dangling(self, id, ops), Reused(self, id, ops), Spoiled(self, id, ops))
  }

  lemma TrackedStep(self: PeerId, id: SessionId, ops: seq<Op>)
    requires ops != [] && Tracked(self, id, ops[..|ops| - 1])
    requires !Disorderly(self, id, Reached(self, id, ops[..|ops| - 1]), ops[|ops| - 1])
    ensures Tracked(self, id, ops)
  {
    var init, op := ops[..|ops| - 1], ops[|ops| - 1];
    var c, d := Reached(self, id, init), Reached(self, id, ops);
    var dangling, reused, spoiled := Dangling(self, id, init), Reused(self, id, init), Spoiled(self, id, init);
    assert ops == init + [op];
    ReachedStep(self, id, init, op);
    DanglingStep(self, id, ops);
    ReusedStep(self, id, ops);
    SpoiledStep(self, id, ops);
    TrackStep(self, id, c, op, dangling, reused, spoiled);
    if Creates(c, op) {
      assert !Tears(self, id, c, op);
      assert Track(d, false, false, false);
    } else {
      assert Track(d, Tears(self, id, c, op) || (dangling && !op.Restart?),
                   reused || (dangling && Writes(self, id, c, op)), spoiled || (reused && op.Restart?));
    }
  }

  lemma {:induction false} TrackRun(self: PeerId, id: SessionId, ops: seq<Op>)
    requires Orderly(self, id, ops)
    ensures Tracked(self, id, ops)
  {
    if ops == [] {
      TrackedAtFirst(self, id);
    } else {
      OrderlyPrefix(self, id, ops, |ops| - 1);
      TrackRun(self, id, ops[..|ops| - 1]);
      TrackedStep(self, id, ops);
    }
  }

  lemma TrackedAtFirst(self: PeerId, id: SessionId)
    ensures Tracked(self, id, [])
  {
    assert !Dangling(self, id, []) && !Reused(self, id, []) && !Spoiled(self, id, []);
  }

  predicate SelfAuthorising(s: Session) {
    && s.head == |s.log|
    && (forall i :: 0 <= i < |s.log| ==> s.log[i].seqNo == i + 1)
    && (forall i :: 0 <= i < |s.log| ==> Granted(s.host, s.log[..i], s.log[i].peer.id))
    && s.caps == ProjectCaps(s.host, s.log)
    && Held(s.caps, s.host) == Some(ReadWrite)
  }

  lemma TrackedLog(c: Cell, dangling: bool, reused: bool, spoiled: bool)
    requires Track(c, dangling, reused, spoiled) && HostedHere(c)
    ensures Numbered(c.mem.value.log) && c.mem.value.head == |c.mem.value.log| <==> !spoiled
    ensures !spoiled ==> SelfAuthorising(c.mem.value)
  {
    if !spoiled { HostKeepsReadWrite(c.mem.value.host, c.mem.value.log); }
  }

  /** In an orderly run the numbers of a hosted log are exactly 1 to head if and only if no number was reused: no
      send wrote to the log file between a torn append and a restart that then read the file back. A torn append
      alone does no harm, since the load takes its head from the file. */
  lemma OrderlyNumberedIff(self: PeerId, id: SessionId, ops: seq<Op>)
    requires Orderly(self, id, ops) && HostedHere(Reached(self, id, ops))
    ensures var s := Reached(self, id, ops).mem.value;
            Numbered(s.log) && s.head == |s.log| <==> !Spoiled(self, id, ops)
  {
    TrackRun(self, id, ops);
    TrackedLog(Reached(self, id, ops), Dangling(self, id, ops), Reused(self, id, ops), Spoiled(self, id, ops));
  }

  /** In an orderly run without a number reused, through failed and torn writes and restarts: sequence numbers are
      exactly 1 to head, each author held write access in the projection of the strictly earlier entries, and the
      capability set kept in memory is the projection of the whole log. */
  lemma OrderlyLogAuthorises(self: PeerId, id: SessionId, ops: seq<Op>)
    requires Orderly(self, id, ops) && !Spoiled(self, id, ops) && HostedHere(Reached(self, id, ops))
    ensures SelfAuthorising(Reached(self, id, ops).mem.value)
  {
    TrackRun(self, id, ops);
    TrackedLog(Reached(self, id, ops), Dangling(self, id, ops), Reused(self, id, ops), Spoiled(self, id, ops));
  }

  // ---- Signatures ----

  /** Callers stamp the daemon's own identity on what they author and host. */
  predicate Stamped(self: PeerId, op: Op) {
    && (op.Send? && op.authoring.ByDaemon? ==> op.author.id == self)
    && (op.HostCreate? || op.HostResume? || op.Join? || op.Leave? ==> op.peer == self)
    && (op.EnsureMember? ==> op.proof.Some?)
  }

  predicate StampedRun(self: PeerId, ops: seq<Op>) {
    forall i :: 0 <= i < |ops| ==> Stamped(self, ops[i])
  }

  predicate AllGenuine(self: PeerId, id: SessionId, log: seq<Message>) {
    forall i :: 0 <= i < |log| ==> Genuine(self, id, log[i])
  }

  lemma SentIsGenuine(self: PeerId, id: SessionId, c: Cell, op: Op)
    requires op.Send? && Stamped(self, op) && Perform(self, id, c, op).reply.Sent?
    ensures Genuine(self, id, Perform(self, id, c, op).reply.message)
  {
  }

  // ---- A run that reuses a number ----

  function Chatting(self: PeerId, n: nat, io: Io): Op {
    Send(PeerInfo(self, "host"), Chat, "chat.message", Raw([n]), ByDaemon(n), 100, io)
  }

  lemma OrderlyStep(self: PeerId, id: SessionId, ops: seq<Op>, op: Op)
    requires Orderly(self, id, ops) && !Disorderly(self, id, Reached(self, id, ops), op)
    ensures Orderly(self, id, ops + [op])
  {
    var more := ops + [op];
    forall i | 0 <= i < |more| ensures !Disorderly(self, id, Reached(self, id, more[..i]), more[i]) {
      if i < |ops| { assert more[..i] == ops[..i]; } else { assert more[..i] == ops; }
    }
  }

  predicate CanChat(self: PeerId, c: Cell) {
    HostedHere(c) && c.disk.Some? && self in c.mem.value.members && CanWrite(c.mem.value.caps, self)
  }

  lemma ChattingWrites(self: PeerId, id: SessionId, c: Cell, n: nat, io: Io)
    requires CanChat(self, c) && io != Failed
    ensures Writes(self, id, c, Chatting(self, n, io))
    ensures io == Torn ==> CanChat(self, Perform(self, id, c, Chatting(self, n, io)).cell)
  {
    if io == Torn { var m := TornSendEffect(self, id, c, Chatting(self, n, io)); }
  }

  predicate HostedUnnumbered(c: Cell) { HostedHere(c) && !Numbered(c.mem.value.log) }

  /** From any hosted session, however it came about, whose record is a host's: a torn send, a good send and a
      restart, and the log is not numbered. */
  lemma ReusedNumberSpoils(self: PeerId, id: SessionId, c: Cell)
    requires CanChat(self, c) && c.disk.value.kind == Local
    ensures var a := Perform(self, id, c, Chatting(self, 1, Torn)).cell;
            var b := Perform(self, id, a, Chatting(self, 2, Done)).cell;
            HostedUnnumbered(Reloading(b).cell)
  {
    var torn, good := Chatting(self, 1, Torn), Chatting(self, 2, Done);
    ChattingWrites(self, id, c, 1, Torn);
    var m := TornSendEffect(self, id, c, torn);
    var a := Perform(self, id, c, torn).cell;
    ChattingWrites(self, id, a, 2, Done);
    SendReachesIff(self, id, a, good);
    SendEffect(self, id, a, good);
    var out := Perform(self, id, a, good);
    var log, n := out.cell.disk.value.log, |c.disk.value.log|;
    assert log[n] == m && log[n + 1] == out.reply.message && log[n].seqNo == log[n + 1].seqNo;
  }

  /** Such a run is orderly, and reuses a number. */
  lemma TornThenSentSpoils(self: PeerId, id: SessionId, ops: seq<Op>)
    requires Orderly(self, id, ops) && CanChat(self, Reached(self, id, ops))
    ensures var more := ops + [Chatting(self, 1, Torn)] + [Chatting(self, 2, Done)] + [Restart];
            Orderly(self, id, more) && Spoiled(self, id, more)
  {
    var a := ops + [Chatting(self, 1, Torn)];
    AfterTorn(self, id, ops);
    AfterGood(self, id, a);
    AfterRestart(self, id, a + [Chatting(self, 2, Done)]);
  }

  lemma AfterTorn(self: PeerId, id: SessionId, ops: seq<Op>)
    requires Orderly(self, id, ops) && CanChat(self, Reached(self, id, ops))
    ensures var a := ops + [Chatting(self, 1, Torn)];
            Orderly(self, id, a) && Dangling(self, id, a) && CanChat(self, Reached(self, id, a))
  {
    var torn := Chatting(self, 1, Torn);
    ChattingWrites(self, id, Reached(self, id, ops), 1, Torn);
    OrderlyStep(self, id, ops, torn);
    ReachedStep(self, id, ops, torn);
    assert (ops + [torn])[..|ops|] == ops;
    DanglingStep(self, id, ops + [torn]);
  }

  lemma AfterGood(self: PeerId, id: SessionId, ops: seq<Op>)
    requires Orderly(self, id, ops) && Dangling(self, id, ops) && CanChat(self, Reached(self, id, ops))
    ensures var b := ops + [Chatting(self, 2, Done)]; Orderly(self, id, b) && Reused(self, id, b)
  {
    var good := Chatting(self, 2, Done);
    ChattingWrites(self, id, Reached(self, id, ops), 2, Done);
    OrderlyStep(self, id, ops, good);
    assert (ops + [good])[..|ops|] == ops;
    ReusedStep(self, id, ops + [good]);
  }

  lemma AfterRestart(self: PeerId, id: SessionId, ops: seq<Op>)
    requires Orderly(self, id, ops) && Reused(self, id, ops)
    ensures Orderly(self, id, ops + [Restart]) && Spoiled(self, id, ops + [Restart])
  {
    OrderlyStep(self, id, ops, Restart);
    assert (ops + [Restart])[..|ops|] == ops;
    SpoiledStep(self, id, ops + [Restart]);
  }

  /** Such a session exists: the one a first host call creates. */
  lemma TornAppendWitness(self: PeerId, id: SessionId)
    ensures exists ops :: Orderly(self, id, ops) && Spoiled(self, id, ops)
  {
    var ops := [HostCreate(self, Mint(7, ReadWrite, 0, 0), true, Done)];
    FirstHost(self, id);
    TornThenSentSpoils(self, id, ops);
    var more := ops + [Chatting(self, 1, Torn)] + [Chatting(self, 2, Done)] + [Restart];
    assert Orderly(self, id, more) && Spoiled(self, id, more);
  }

  lemma FirstHost(self: PeerId, id: SessionId)
    ensures var ops := [HostCreate(self, Mint(7, ReadWrite, 0, 0), true, Done)];
            Orderly(self, id, ops) && CanChat(self, Reached(self, id, ops))
  {
    var create := HostCreate(self, Mint(7, ReadWrite, 0, 0), true, Done);
    assert [] + [create] == [create];
    ReachedStep(self, id, [], create);
    OrderlyStep(self, id, [], create);
  }
}
