/** The numbers and the authors of a log in every run, with no exception: when they are in order in the file, what
    a restart makes of the file, and what memory keeps between restarts. */
module LogNumbers {
  import opened Protocol
  import opened Capabilities
  import Mirrors
  import opened Sessions
  import opened SessionCache
  import opened HostLogs

  // ---- One step on the file ----

  /** The number and the author the step writes into the log file, if it writes: a send takes the number after
      memory's head, a frame brings its own. */
  function Written(self: PeerId, id: SessionId, c: Cell, op: Op): Option<(nat, PeerId)> {
    if Writes(self, id, c, op) then Some((c.mem.value.head + 1, op.author.id))
    else if op.MirrorFrame? && FrameReaches(id, c, op.frame) && op.io != Failed
    then Some((op.frame.seqNo, op.frame.peer.id))
    else None
  }

  /** The number is not the next one of the file. */
  predicate Misplaces(self: PeerId, id: SessionId, c: Cell, op: Op) {
    var w := Written(self, id, c, op);
    w.Some? && c.disk.Some? && w.value.0 != |c.disk.value.log| + 1
  }

  /** The author had no write access in the projection of the file. */
  predicate Trespasses(self: PeerId, id: SessionId, c: Cell, op: Op) {
    var w := Written(self, id, c, op);
    w.Some? && c.disk.Some? && !Granted(c.disk.value.host, c.disk.value.log, w.value.1)
  }

  /** The record is written anew over an earlier log, under another host. */
  predicate Rehosts(c: Cell, op: Op) {
    c.disk.Some?
    && match op
       case HostCreate(peer, _, _, _) => Creates(c, op) && peer != c.disk.value.host
       case ClaimStore(i, io) => io != Failed && Waiting(c, i) && c.flight.claims[i].host != c.disk.value.host
       case _ => false
  }

  predicate NumberedFile(c: Cell) { c.disk.Some? ==> Numbered(c.disk.value.log) }

  predicate AuthorisedFile(c: Cell) { c.disk.Some? ==> SelfAuthorised(c.disk.value.host, c.disk.value.log) }

  /** The step puts one entry at the end of the file, or leaves the file alone, or the file is new or gone. */
  predicate Extends(self: PeerId, id: SessionId, c: Cell, op: Op, d: Cell) {
    c.disk.Some? && d.disk.Some? ==>
      if Written(self, id, c, op) == None then d.disk.value.log == c.disk.value.log
      else d.disk.value.host == c.disk.value.host && |d.disk.value.log| == |c.disk.value.log| + 1
           && var m := d.disk.value.log[|c.disk.value.log|];
              d.disk.value.log == c.disk.value.log + [m] && (m.seqNo, m.peer.id) == Written(self, id, c, op).value
  }

  lemma SendExtends(self: PeerId, id: SessionId, c: Cell, op: Op)
    requires op.Send?
    ensures Extends(self, id, c, op, Perform(self, id, c, op).cell)
  {
    SendReachesIff(self, id, c, op);
    SendEffect(self, id, c, op);
    if Tears(self, id, c, op) { var m := TornSendEffect(self, id, c, op); }
  }

  lemma FrameExtends(self: PeerId, id: SessionId, c: Cell, op: Op)
    requires op.MirrorFrame?
    ensures Extends(self, id, c, op, Mirroring(id, c, op.frame, op.io).cell)
  {
    FrameOnDisk(id, c, op.frame, op.io);
  }

  lemma OtherExtends(self: PeerId, id: SessionId, c: Cell, op: Op)
    requires !op.Send? && !op.MirrorFrame? && !Bookkeeping(op)
    ensures Extends(self, id, c, op, Perform(self, id, c, op).cell)
  {
    if c.disk.Some? { assert c.disk.value.log + [] == c.disk.value.log; }
  }

  lemma StepExtends(self: PeerId, id: SessionId, c: Cell, op: Op)
    ensures Extends(self, id, c, op, Perform(self, id, c, op).cell)
  {
    if op.Send? {
      SendExtends(self, id, c, op);
    } else if op.MirrorFrame? {
      FrameExtends(self, id, c, op);
    } else if Bookkeeping(op) {
      BookkeepingEffect(self, id, c, op);
    } else {
      OtherExtends(self, id, c, op);
    }
  }

  /** A new record starts with an empty log, and only the two steps that write one over another change its host. */
  lemma StepHost(self: PeerId, id: SessionId, c: Cell, op: Op)
    requires Perform(self, id, c, op).cell.disk.Some?
    ensures var r := Perform(self, id, c, op).cell.disk.value;
            && (c.disk == None ==> r.log == [] && Written(self, id, c, op) == None)
            && (c.disk.Some? && !Rehosts(c, op) ==> r.host == c.disk.value.host)
  {
    if op.Send? {
      SendReachesIff(self, id, c, op);
      SendEffect(self, id, c, op);
      if Tears(self, id, c, op) { var m := TornSendEffect(self, id, c, op); }
    } else if op.MirrorFrame? {
      FrameHost(id, c, op.frame, op.io);
    } else if Bookkeeping(op) {
      BookkeepingEffect(self, id, c, op);
    } else {
      OtherHost(self, id, c, op);
    }
  }

  lemma FrameHost(id: SessionId, c: Cell, m: Message, io: Io)
    ensures var d := Mirroring(id, c, m, io).cell;
            if c.disk == None then d == c else d.disk.Some? && d.disk.value.host == c.disk.value.host
  {
  }

  lemma OtherHost(self: PeerId, id: SessionId, c: Cell, op: Op)
    requires !op.Send? && !op.MirrorFrame? && !Bookkeeping(op) && Perform(self, id, c, op).cell.disk.Some?
    ensures var r := Perform(self, id, c, op).cell.disk.value;
            (c.disk == None ==> r.log == []) && (c.disk.Some? && !Rehosts(c, op) ==> r.host == c.disk.value.host)
  {
  }

  /** A step that leaves a record leaves its file numbered if and only if it was, or there was none, and the step
      writes no number out of place. The same of its authors, unless the step puts the record under another host. */
  lemma StepFileIff(self: PeerId, id: SessionId, c: Cell, op: Op)
    requires Perform(self, id, c, op).cell.disk.Some?
    ensures var d := Perform(self, id, c, op).cell;
            && (NumberedFile(d) <==> NumberedFile(c) && !Misplaces(self, id, c, op))
            && (!Rehosts(c, op) ==> (AuthorisedFile(d) <==> AuthorisedFile(c) && !Trespasses(self, id, c, op)))
  {
    var d := Perform(self, id, c, op).cell;
    StepHost(self, id, c, op);
    StepExtends(self, id, c, op);
    if c.disk.Some? && Written(self, id, c, op).Some? {
      NumberedAppend(c.disk.value.log, d.disk.value.log[|c.disk.value.log|]);
      AuthorisedAppend(c.disk.value.host, c.disk.value.log, d.disk.value.log[|c.disk.value.log|]);
    }
  }

  predicate SignedFile(self: PeerId, id: SessionId, c: Cell) {
    c.disk.Some? ==> AllGenuine(self, id, c.disk.value.log)
  }

  /** The step writes a frame into the file that another host has sequenced. */
  predicate Imports(self: PeerId, id: SessionId, c: Cell, op: Op) {
    op.MirrorFrame? && FrameReaches(id, c, op.frame) && op.io != Failed && !Genuine(self, id, op.frame)
  }

  lemma GenuineAppend(self: PeerId, id: SessionId, log: seq<Message>, m: Message)
    ensures AllGenuine(self, id, log + [m]) <==> AllGenuine(self, id, log) && Genuine(self, id, m)
  {
    var more := log + [m];
    assert more[|log|] == m;
    forall i | 0 <= i < |log| ensures more[i] == log[i] { }
    if AllGenuine(self, id, more) {
      forall i | 0 <= i < |log| ensures Genuine(self, id, log[i]) { assert Genuine(self, id, more[i]); }
    }
  }

  lemma SendSignedIff(self: PeerId, id: SessionId, c: Cell, op: Op)
    requires op.Send? && Stamped(self, op) && c.disk.Some?
    ensures var d := Perform(self, id, c, op).cell;
            d.disk.Some? && (SignedFile(self, id, d) <==> SignedFile(self, id, c))
  {
    SendReachesIff(self, id, c, op);
    SendEffect(self, id, c, op);
    if Tears(self, id, c, op) {
      var m := TornSendEffect(self, id, c, op);
      GenuineAppend(self, id, c.disk.value.log, m);
    } else if Perform(self, id, c, op).reply.Sent? {
      SentIsGenuine(self, id, c, op);
      GenuineAppend(self, id, c.disk.value.log, Perform(self, id, c, op).reply.message);
    }
  }

  /** A step that leaves a record leaves all its entries signed by their authors and this host if and only if they
      were and the step brings in no frame of another host. */
  lemma StepSignedIff(self: PeerId, id: SessionId, c: Cell, op: Op)
    requires Stamped(self, op) && Perform(self, id, c, op).cell.disk.Some?
    ensures SignedFile(self, id, Perform(self, id, c, op).cell) <==>
              SignedFile(self, id, c) && !Imports(self, id, c, op)
  {
    StepHost(self, id, c, op);
    if c.disk.Some? {
      if op.Send? {
        SendSignedIff(self, id, c, op);
      } else if op.MirrorFrame? {
        FrameOnDisk(id, c, op.frame, op.io);
        GenuineAppend(self, id, c.disk.value.log, op.frame);
      } else {
        StepExtends(self, id, c, op);
      }
    }
  }

  // ---- The file over a run ----

  predicate StoredAt(self: PeerId, id: SessionId, ops: seq<Op>, k: nat)
    requires k <= |ops|
  {
    Reached(self, id, ops[..k]).disk.Some?
  }

  /** After `b` steps there is a record, and there is one ever since. */
  predicate StoredFrom(self: PeerId, id: SessionId, ops: seq<Op>, b: nat, n: nat)
    requires b <= n <= |ops|
  {
    forall k :: b <= k <= n ==> StoredAt(self, id, ops, k)
  }

  predicate NumberedAt(self: PeerId, id: SessionId, ops: seq<Op>, n: nat)
    requires n <= |ops|
  {
    NumberedFile(Reached(self, id, ops[..n]))
  }

  predicate AuthorisedAt(self: PeerId, id: SessionId, ops: seq<Op>, n: nat)
    requires n <= |ops|
  {
    AuthorisedFile(Reached(self, id, ops[..n]))
  }

  predicate SignedAt(self: PeerId, id: SessionId, ops: seq<Op>, n: nat)
    requires n <= |ops|
  {
    SignedFile(self, id, Reached(self, id, ops[..n]))
  }

  predicate ImportsAt(self: PeerId, id: SessionId, ops: seq<Op>, i: nat)
    requires i < |ops|
  {
    Imports(self, id, Reached(self, id, ops[..i]), ops[i])
  }

  predicate MisplacesAt(self: PeerId, id: SessionId, ops: seq<Op>, i: nat)
    requires i < |ops|
  {
    Misplaces(self, id, Reached(self, id, ops[..i]), ops[i])
  }

  predicate TrespassesAt(self: PeerId, id: SessionId, ops: seq<Op>, i: nat)
    requires i < |ops|
  {
    Trespasses(self, id, Reached(self, id, ops[..i]), ops[i])
  }

  predicate RehostsAt(self: PeerId, id: SessionId, ops: seq<Op>, i: nat)
    requires i < |ops|
  {
    Rehosts(Reached(self, id, ops[..i]), ops[i])
  }

  lemma FileStepAt(self: PeerId, id: SessionId, ops: seq<Op>, n: nat)
    requires n < |ops| && StoredAt(self, id, ops, n + 1)
    ensures NumberedAt(self, id, ops, n + 1) <==> NumberedAt(self, id, ops, n) && !MisplacesAt(self, id, ops, n)
    ensures !RehostsAt(self, id, ops, n) ==>
              (AuthorisedAt(self, id, ops, n + 1) <==>
                 AuthorisedAt(self, id, ops, n) && !TrespassesAt(self, id, ops, n))
  {
    ReachedAt(self, id, ops, n);
    StepFileIff(self, id, Reached(self, id, ops[..n]), ops[n]);
  }

  /** There is a record all along, and it keeps its host. */
  predicate Kept(self: PeerId, id: SessionId, ops: seq<Op>, b: nat, n: nat)
    requires b <= n <= |ops|
  {
    StoredFrom(self, id, ops, b, n) && forall i :: b <= i < n ==> !RehostsAt(self, id, ops, i)
  }

  /** Whatever every step keeps exactly unless it is bad, a run keeps exactly unless one of its steps is. */
  lemma {:induction false} KeptIff(good: nat -> bool, bad: nat -> bool, b: nat, n: nat)
    requires b <= n && forall k :: b <= k < n ==> Keeps(good, bad, k)
    ensures good(n) <==> good(b) && NoneBad(bad, b, n)
    decreases n
  {
    if b < n {
      KeptIff(good, bad, b, n - 1);
      assert Keeps(good, bad, n - 1);
      assert NoneBad(bad, b, n) <==> NoneBad(bad, b, n - 1) && !bad(n - 1);
    }
  }

  predicate Keeps(good: nat -> bool, bad: nat -> bool, k: nat) { good(k + 1) <==> good(k) && !bad(k) }

  predicate NoneBad(bad: nat -> bool, b: nat, n: nat) { forall i: nat :: b <= i < n ==> !bad(i) }

  function FileNumbered(self: PeerId, id: SessionId, ops: seq<Op>): nat -> bool {
    (k: nat) => k <= |ops| && NumberedAt(self, id, ops, k)
  }

  function OutOfPlace(self: PeerId, id: SessionId, ops: seq<Op>): nat -> bool {
    (k: nat) => k < |ops| && MisplacesAt(self, id, ops, k)
  }

  function FileAuthorised(self: PeerId, id: SessionId, ops: seq<Op>): nat -> bool {
    (k: nat) => k <= |ops| && AuthorisedAt(self, id, ops, k)
  }

  function Unentitled(self: PeerId, id: SessionId, ops: seq<Op>): nat -> bool {
    (k: nat) => k < |ops| && TrespassesAt(self, id, ops, k)
  }

  function FileSigned(self: PeerId, id: SessionId, ops: seq<Op>): nat -> bool {
    (k: nat) => k <= |ops| && SignedAt(self, id, ops, k)
  }

  function Imported(self: PeerId, id: SessionId, ops: seq<Op>): nat -> bool {
    (k: nat) => k < |ops| && ImportsAt(self, id, ops, k)
  }

  lemma SignaturesKeep(self: PeerId, id: SessionId, ops: seq<Op>, k: nat)
    requires k < |ops| && StoredAt(self, id, ops, k + 1) && Stamped(self, ops[k])
    ensures Keeps(FileSigned(self, id, ops), Imported(self, id, ops), k)
  {
    ReachedAt(self, id, ops, k);
    StepSignedIff(self, id, Reached(self, id, ops[..k]), ops[k]);
  }

  lemma NumbersKeep(self: PeerId, id: SessionId, ops: seq<Op>, k: nat)
    requires k < |ops| && StoredAt(self, id, ops, k + 1)
    ensures Keeps(FileNumbered(self, id, ops), OutOfPlace(self, id, ops), k)
  {
    FileStepAt(self, id, ops, k);
  }

  lemma AuthorsKeep(self: PeerId, id: SessionId, ops: seq<Op>, k: nat)
    requires k < |ops| && StoredAt(self, id, ops, k + 1) && !RehostsAt(self, id, ops, k)
    ensures Keeps(FileAuthorised(self, id, ops), Unentitled(self, id, ops), k)
  {
    FileStepAt(self, id, ops, k);
  }

  /** In every run, from any moment since which there is a record: its log file is numbered 1, 2, 3, ... if and only
      if it was and no step since has written a number out of place. */
  lemma FileNumberedIff(self: PeerId, id: SessionId, ops: seq<Op>, b: nat, n: nat)
    requires b <= n <= |ops| && StoredFrom(self, id, ops, b, n)
    ensures FileNumbered(self, id, ops)(n) <==>
              FileNumbered(self, id, ops)(b) && NoneBad(OutOfPlace(self, id, ops), b, n)
  {
    var good, bad := FileNumbered(self, id, ops), OutOfPlace(self, id, ops);
    forall k | b <= k < n ensures Keeps(good, bad, k) {
      assert StoredAt(self, id, ops, k + 1);
      NumbersKeep(self, id, ops, k);
    }
    KeptIff(good, bad, b, n);
  }

  /** And each of its entries is by an author with write access in the projection of the strictly earlier ones if
      and only if so it was and no step since has written for one without, while the record keeps its host. */
  lemma FileAuthorisedIff(self: PeerId, id: SessionId, ops: seq<Op>, b: nat, n: nat)
    requires b <= n <= |ops| && Kept(self, id, ops, b, n)
    ensures FileAuthorised(self, id, ops)(n) <==>
              FileAuthorised(self, id, ops)(b) && NoneBad(Unentitled(self, id, ops), b, n)
  {
    var good, bad := FileAuthorised(self, id, ops), Unentitled(self, id, ops);
    forall k | b <= k < n ensures Keeps(good, bad, k) {
      assert StoredAt(self, id, ops, k + 1) && !RehostsAt(self, id, ops, k);
      AuthorsKeep(self, id, ops, k);
    }
    KeptIff(good, bad, b, n);
  }

  /** And, whoever acted under a name entitled to it, all of its entries carry their authors' signatures and this
      host's if and only if so they did and no step since has brought in a frame of another host. */
  lemma FileSignedIff(self: PeerId, id: SessionId, ops: seq<Op>, b: nat, n: nat)
    requires b <= n <= |ops| && StoredFrom(self, id, ops, b, n) && StampedRun(self, ops)
    ensures FileSigned(self, id, ops)(n) <==>
              FileSigned(self, id, ops)(b) && NoneBad(Imported(self, id, ops), b, n)
  {
    var good, bad := FileSigned(self, id, ops), Imported(self, id, ops);
    forall k | b <= k < n ensures Keeps(good, bad, k) {
      assert StoredAt(self, id, ops, k + 1) && Stamped(self, ops[k]);
      SignaturesKeep(self, id, ops, k);
    }
    KeptIff(good, bad, b, n);
  }

  /** A record comes into being with an empty log. */
  lemma NewFile(self: PeerId, id: SessionId, ops: seq<Op>, b: nat)
    requires b < |ops| && !StoredAt(self, id, ops, b) && StoredAt(self, id, ops, b + 1)
    ensures NumberedAt(self, id, ops, b + 1) && AuthorisedAt(self, id, ops, b + 1) && SignedAt(self, id, ops, b + 1)
  {
    ReachedAt(self, id, ops, b);
    StepHost(self, id, Reached(self, id, ops[..b]), ops[b]);
  }

  // ---- Memory ----

  predicate NumberedHere(c: Cell) { HostedHere(c) ==> Numbered(c.mem.value.log) }

  predicate AuthorisedHere(c: Cell) { HostedHere(c) ==> SelfAuthorised(c.mem.value.host, c.mem.value.log) }

  predicate SignedHere(self: PeerId, id: SessionId, c: Cell) {
    HostedHere(c) ==> AllGenuine(self, id, c.mem.value.log)
  }

  /** A step other than a restart that leaves a session hosted leaves its log numbered if and only if it was, its
      authors entitled if and only if they were, and its entries signed if and only if they were. */
  lemma StepHostedIff(self: PeerId, id: SessionId, c: Cell, op: Op)
    requires !op.Restart? && Projected(c) && HostedHere(Perform(self, id, c, op).cell)
    ensures var d := Perform(self, id, c, op).cell;
            && (NumberedHere(d) <==> NumberedHere(c)) && (AuthorisedHere(d) <==> AuthorisedHere(c))
            && (Stamped(self, op) ==> (SignedHere(self, id, d) <==> SignedHere(self, id, c)))
  {
    if op.Send? {
      SendHostedIff(self, id, c, op);
    } else if Bookkeeping(op) {
      BookkeepingEffect(self, id, c, op);
    } else if op.MirrorFrame? {
      FrameSparesHosted(id, c, op.frame, op.io);
    } else if !op.HostCreate? {
      FlightSparesHosted(self, id, c, op);
    }
  }

  lemma SendHostedIff(self: PeerId, id: SessionId, c: Cell, op: Op)
    requires op.Send? && Projected(c)
    ensures var d := Perform(self, id, c, op).cell;
            && (NumberedHere(d) <==> NumberedHere(c)) && (AuthorisedHere(d) <==> AuthorisedHere(c))
            && (Stamped(self, op) ==> (SignedHere(self, id, d) <==> SignedHere(self, id, c)))
  {
    SendEffect(self, id, c, op);
    var out := Perform(self, id, c, op);
    if out.reply.Sent? {
      var s, m := c.mem.value, out.reply.message;
      NumberedAppend(s.log, m);
      if Numbered(s.log) { NumberedMax(s.log); }
      CanWriteIff(s.host, s.log, m.peer.id);
      AuthorisedAppend(s.host, s.log, m);
      GenuineAppend(self, id, s.log, m);
      if Stamped(self, op) { SentIsGenuine(self, id, c, op); }
    }
  }

  /** What a restart loads is numbered, has entitled authors, or is signed, if and only if the file is or has. */
  lemma RestartHostedIff(self: PeerId, id: SessionId, c: Cell)
    requires HostedHere(Reloading(c).cell)
    ensures NumberedHere(Reloading(c).cell) <==> NumberedFile(c)
    ensures AuthorisedHere(Reloading(c).cell) <==> AuthorisedFile(c)
    ensures SignedHere(self, id, Reloading(c).cell) <==> SignedFile(self, id, c)
  {
  }

  // ---- Memory over a run ----

  /** The restart `r` is the last before step `m`, and the session it loaded has been hosted ever since. */
  predicate LoadedBy(self: PeerId, id: SessionId, ops: seq<Op>, r: nat, m: nat)
    requires r < m <= |ops|
  {
    && ops[r].Restart?
    && forall k :: r < k <= m ==> HostedAt(self, id, ops, k) && (k < m ==> !ops[k].Restart?)
  }

  /** If a restart loaded what is hosted after `m` steps, the file it read was `good`. */
  predicate Loaded(self: PeerId, id: SessionId, ops: seq<Op>, good: nat -> bool, m: nat)
    requires m <= |ops|
  {
    forall r :: 0 <= r < m && LoadedBy(self, id, ops, r, m) ==> good(r)
  }

  /** What is hosted after the step `n` is `here` exactly as it was, or as the file is if the step is a restart; a
      session hosted anew is. */
  predicate Follows(self: PeerId, id: SessionId, ops: seq<Op>, here: nat -> bool, good: nat -> bool, n: nat)
    requires n < |ops|
  {
    HostedAt(self, id, ops, n + 1) ==>
      (here(n + 1) <==> if ops[n].Restart? then good(n) else HostedAt(self, id, ops, n) ==> here(n))
  }

  lemma LoadedByStep(self: PeerId, id: SessionId, ops: seq<Op>, r: nat, n: nat)
    requires r <= n < |ops| && HostedAt(self, id, ops, n + 1)
    ensures LoadedBy(self, id, ops, r, n + 1) <==>
              if ops[n].Restart? then r == n
              else r < n && LoadedBy(self, id, ops, r, n) && HostedAt(self, id, ops, n)
  {
    if r < n && LoadedBy(self, id, ops, r, n + 1) {
      assert HostedAt(self, id, ops, n) && !ops[n].Restart?;
      forall k | r < k <= n ensures HostedAt(self, id, ops, k) && (k < n ==> !ops[k].Restart?) { }
    }
  }

  lemma LoadedStep(self: PeerId, id: SessionId, ops: seq<Op>, good: nat -> bool, n: nat)
    requires n < |ops| && HostedAt(self, id, ops, n + 1)
    ensures Loaded(self, id, ops, good, n + 1) <==>
              if ops[n].Restart? then good(n) else HostedAt(self, id, ops, n) ==> Loaded(self, id, ops, good, n)
  {
    var m := n + 1;
    forall r | 0 <= r <= n
      ensures LoadedBy(self, id, ops, r, m) <==>
                if ops[n].Restart? then r == n
                else r < n && LoadedBy(self, id, ops, r, n) && HostedAt(self, id, ops, n)
    {
      LoadedByStep(self, id, ops, r, n);
    }
    assert ops[n].Restart? ==> LoadedBy(self, id, ops, n, m);
  }

  lemma {:induction false} LoadDecides(self: PeerId, id: SessionId, ops: seq<Op>, here: nat -> bool,
                                       good: nat -> bool, m: nat)
    requires m <= |ops| && HostedAt(self, id, ops, m)
    requires forall n :: 0 <= n < |ops| ==> Follows(self, id, ops, here, good, n)
    ensures here(m) <==> Loaded(self, id, ops, good, m)
  {
    if m > 0 {
      assert Follows(self, id, ops, here, good, m - 1);
      LoadedStep(self, id, ops, good, m - 1);
      if HostedAt(self, id, ops, m - 1) { LoadDecides(self, id, ops, here, good, m - 1); }
    }
  }

  function HereNumbered(self: PeerId, id: SessionId, ops: seq<Op>): nat -> bool {
    (k: nat) => k <= |ops| && NumberedHere(Reached(self, id, ops[..k]))
  }

  function HereAuthorised(self: PeerId, id: SessionId, ops: seq<Op>): nat -> bool {
    (k: nat) => k <= |ops| && AuthorisedHere(Reached(self, id, ops[..k]))
  }

  function HereSigned(self: PeerId, id: SessionId, ops: seq<Op>): nat -> bool {
    (k: nat) => k <= |ops| && SignedHere(self, id, Reached(self, id, ops[..k]))
  }

  lemma HostedStepAt(self: PeerId, id: SessionId, ops: seq<Op>, n: nat)
    requires n < |ops|
    ensures Follows(self, id, ops, HereNumbered(self, id, ops), FileNumbered(self, id, ops), n)
    ensures Follows(self, id, ops, HereAuthorised(self, id, ops), FileAuthorised(self, id, ops), n)
    ensures Stamped(self, ops[n]) ==> Follows(self, id, ops, HereSigned(self, id, ops), FileSigned(self, id, ops), n)
  {
    if HostedAt(self, id, ops, n + 1) {
      ReachedAt(self, id, ops, n);
      if ops[n].Restart? {
        RestartHostedIff(self, id, Reached(self, id, ops[..n]));
      } else {
        CapsAreProjection(self, id, ops[..n]);
        StepHostedIff(self, id, Reached(self, id, ops[..n]), ops[n]);
      }
    }
  }

  predicate LoadedNumbered(self: PeerId, id: SessionId, ops: seq<Op>) {
    Loaded(self, id, ops, FileNumbered(self, id, ops), |ops|)
  }

  predicate LoadedAuthorised(self: PeerId, id: SessionId, ops: seq<Op>) {
    Loaded(self, id, ops, FileAuthorised(self, id, ops), |ops|)
  }

  predicate LoadedSigned(self: PeerId, id: SessionId, ops: seq<Op>) {
    Loaded(self, id, ops, FileSigned(self, id, ops), |ops|)
  }

  /** In every run, a hosted log is numbered 1, 2, 3, ... if and only if it was not loaded by a restart, and hosted
      ever since, from a file that was not. */
  lemma LogNumberedIff(self: PeerId, id: SessionId, ops: seq<Op>)
    requires HostedHere(Reached(self, id, ops))
    ensures Numbered(Reached(self, id, ops).mem.value.log) <==> LoadedNumbered(self, id, ops)
  {
    assert ops[..|ops|] == ops;
    forall n | 0 <= n < |ops|
      ensures Follows(self, id, ops, HereNumbered(self, id, ops), FileNumbered(self, id, ops), n)
    {
      HostedStepAt(self, id, ops, n);
    }
    LoadDecides(self, id, ops, HereNumbered(self, id, ops), FileNumbered(self, id, ops), |ops|);
  }

  /** Each of its authors held write access in the projection of the strictly earlier entries if and only if it was
      not so loaded from a file of which that is not true. */
  lemma LogAuthorisedIff(self: PeerId, id: SessionId, ops: seq<Op>)
    requires HostedHere(Reached(self, id, ops))
    ensures var s := Reached(self, id, ops).mem.value;
            SelfAuthorised(s.host, s.log) <==> LoadedAuthorised(self, id, ops)
  {
    assert ops[..|ops|] == ops;
    forall n | 0 <= n < |ops|
      ensures Follows(self, id, ops, HereAuthorised(self, id, ops), FileAuthorised(self, id, ops), n)
    {
      HostedStepAt(self, id, ops, n);
    }
    LoadDecides(self, id, ops, HereAuthorised(self, id, ops), FileAuthorised(self, id, ops), |ops|);
  }

  /** And, whoever acted under a name entitled to it, every entry carries its author's signature and this host's if
      and only if it was not so loaded from a file of which that is not true. */
  lemma LogSignedIff(self: PeerId, id: SessionId, ops: seq<Op>)
    requires StampedRun(self, ops) && HostedHere(Reached(self, id, ops))
    ensures AllGenuine(self, id, Reached(self, id, ops).mem.value.log) <==> LoadedSigned(self, id, ops)
  {
    assert ops[..|ops|] == ops;
    forall n | 0 <= n < |ops|
      ensures Follows(self, id, ops, HereSigned(self, id, ops), FileSigned(self, id, ops), n)
    {
      assert Stamped(self, ops[n]);
      HostedStepAt(self, id, ops, n);
    }
    LoadDecides(self, id, ops, HereSigned(self, id, ops), FileSigned(self, id, ops), |ops|);
  }

  // ---- What mirrors rely on ----

  /** So in every run a hosted log authorises itself if and only if the file it was loaded from, if any, did. */
  lemma LogAuthorisesItselfIff(self: PeerId, id: SessionId, ops: seq<Op>)
    requires HostedHere(Reached(self, id, ops))
    ensures SelfAuthorising(Reached(self, id, ops).mem.value) <==>
              LoadedNumbered(self, id, ops) && LoadedAuthorised(self, id, ops)
  {
    var s := Reached(self, id, ops).mem.value;
    LogNumberedIff(self, id, ops);
    LogAuthorisedIff(self, id, ops);
    CapsAreProjection(self, id, ops);
    if Numbered(s.log) { NumberedMax(s.log); }
    HostKeepsReadWrite(s.host, s.log);
  }

  /** The log a host builds is what a mirror relies on, numbered from one, every entry signed by its author and
      bound to its number by the host, if and only if the file it was loaded from, if any, was. */
  lemma HostBuildsHostLogIff(self: PeerId, id: SessionId, ops: seq<Op>)
    requires StampedRun(self, ops) && HostedHere(Reached(self, id, ops))
    ensures HostLog(self, id, Reached(self, id, ops).mem.value.log) <==>
              LoadedNumbered(self, id, ops) && LoadedSigned(self, id, ops)
  {
    LogNumberedIff(self, id, ops);
    LogSignedIff(self, id, ops);
    HostLogParts(self, id, Reached(self, id, ops).mem.value.log);
  }

  lemma HostLogParts(self: PeerId, id: SessionId, log: seq<Message>)
    ensures HostLog(self, id, log) <==> Numbered(log) && AllGenuine(self, id, log)
  {
  }

  /** `m` is the entry `s` holds at its number, display name aside, by an author who could write then. */
  predicate Replica(s: Session, m: Message) {
    && 1 <= m.seqNo <= |s.log| == s.head && SameUpToName(m, s.log[m.seqNo - 1])
    && Granted(s.host, s.log[..m.seqNo - 1], m.peer.id)
  }

  lemma SoundIsReplica(host: PeerId, session: SessionId, s: Session, mi: Mirrors.Mirror, m: Message)
    requires SelfAuthorising(s) && Mirrors.Sound(host, session, s.log, mi) && m in mi.log
    ensures Replica(s, m)
  {
  }

  /** Host and mirror together: whatever reaches a mirror of the session, in whatever order, through
      failures and restarts on either side, every entry it holds is the entry at that number in the log
      the host has built, display name aside. */
  lemma MirrorFollowsHost(self: PeerId, id: SessionId, ops: seq<Op>, events: seq<Mirrors.Event>, m: Message)
    requires StampedRun(self, ops) && HostedHere(Reached(self, id, ops))
    requires LoadedNumbered(self, id, ops) && LoadedAuthorised(self, id, ops) && LoadedSigned(self, id, ops)
    requires Mirrors.UnforgedRun(self, id, Reached(self, id, ops).mem.value.log, events)
    requires m in Mirrors.Run(self, id, events).log
    ensures Replica(Reached(self, id, ops).mem.value, m)
  {
    var s := Reached(self, id, ops).mem.value;
    HostBuildsHostLogIff(self, id, ops);
    LogAuthorisesItselfIff(self, id, ops);
    Mirrors.MirrorAgrees(self, id, s.log, events);
    SoundIsReplica(self, id, s, Mirrors.Run(self, id, events), m);
  }
}
