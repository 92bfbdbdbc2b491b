/** Two things a mirror does not promise, each with the exact condition under which it does:
    the display name on an entry, and strict order after a restart. */
module MirrorLimits {
  import opened Protocol
  import opened Capabilities
  import opened Mirrors

  // ---- Display names ----

  function Deliveries(frames: seq<Message>): seq<Event> {
    seq(|frames|, i requires 0 <= i < |frames| => Deliver(frames[i], Done))
  }

  function MirrorOf(host: PeerId, session: SessionId, frames: seq<Message>): Mirror {
    Run(host, session, Deliveries(frames))
  }

  predicate ExactCopy(hostLog: seq<Message>, log: seq<Message>) {
    forall m :: m in log ==> 1 <= m.seqNo <= |hostLog| && m == hostLog[m.seqNo - 1]
  }

  /** `m` verifies but is not byte for byte what the host logged. */
  predicate Renamed(host: PeerId, session: SessionId, hostLog: seq<Message>, m: Message) {
    Genuine(host, session, m) && 1 <= m.seqNo <= |hostLog| && m != hostLog[m.seqNo - 1]
  }

  lemma DeliveriesInit(frames: seq<Message>)
    requires frames != []
    ensures Deliveries(frames)[..|frames| - 1] == Deliveries(frames[..|frames| - 1])
  {
  }

  lemma {:induction false} LogComesFromFrames(host: PeerId, session: SessionId, frames: seq<Message>)
    ensures forall m :: m in MirrorOf(host, session, frames).log ==> m in frames && Genuine(host, session, m)
  {
    if frames != [] {
      var init, f := frames[..|frames| - 1], frames[|frames| - 1];
      LogComesFromFrames(host, session, init);
      DeliveriesInit(frames);
      var mi := MirrorOf(host, session, init);
      forall m | m in MirrorOf(host, session, frames).log ensures m in frames && Genuine(host, session, m) {
        InsertMembers(mi.log, PartitionPoint(mi.log, f.seqNo), f, m);
      }
    }
  }

  lemma {:induction false} FirstGenuineStays(host: PeerId, session: SessionId, frames: seq<Message>)
    requires frames != [] && Genuine(host, session, frames[0])
    ensures frames[0] in MirrorOf(host, session, frames).log
  {
    DeliveriesInit(frames);
    var init, f := frames[..|frames| - 1], frames[|frames| - 1];
    var mi := MirrorOf(host, session, init);
    if |frames| > 1 {
      FirstGenuineStays(host, session, init);
      InsertMembers(mi.log, PartitionPoint(mi.log, f.seqNo), f, frames[0]);
    } else {
      assert MirrorOf(host, session, init) == EMPTY;
    }
  }

  /** An author signature does not cover the display name, so the first genuine copy of an entry
      fixes the name the mirror keeps. The mirror is an exact copy for every order in which the
      frames may arrive if and only if none of them was renamed on the way. */
  lemma ExactForEveryOrderIff(host: PeerId, session: SessionId, hostLog: seq<Message>, frames: seq<Message>)
    requires HostLog(host, session, hostLog)
    requires forall m :: m in frames ==> Unforged(host, session, hostLog, m)
    ensures (forall order: seq<Message> :: multiset(order) == multiset(frames) ==>
               ExactCopy(hostLog, MirrorOf(host, session, order).log))
            <==> (forall m :: m in frames ==> !Renamed(host, session, hostLog, m))
  {
    if m :| m in frames && Renamed(host, session, hostLog, m) {
      var order := RenamedFirst(host, session, hostLog, frames, m);
      assert !ExactCopy(hostLog, MirrorOf(host, session, order).log);
    } else {
      forall order: seq<Message> | multiset(order) == multiset(frames)
        ensures ExactCopy(hostLog, MirrorOf(host, session, order).log)
      {
        UnrenamedExact(host, session, hostLog, frames, order);
      }
    }
  }

  /** Such a frame exists for every entry of every host log: any other display name verifies as well. */
  lemma RenamedVerifies(host: PeerId, session: SessionId, hostLog: seq<Message>, i: nat, name: string)
    requires HostLog(host, session, hostLog) && i < |hostLog| && name != hostLog[i].peer.displayName
    ensures var m := hostLog[i].(peer := PeerInfo(hostLog[i].peer.id, name));
            Renamed(host, session, hostLog, m) && Unforged(host, session, hostLog, m)
  {
    var m := hostLog[i].(peer := PeerInfo(hostLog[i].peer.id, name));
    assert BodyScope(session, m) == BodyScope(session, hostLog[i]);
  }

  /** So no nonempty host log is copied exactly by every mirror that receives it whole and unforged. */
  lemma EveryLogCanBeRenamed(host: PeerId, session: SessionId, hostLog: seq<Message>)
    requires HostLog(host, session, hostLog) && hostLog != []
    ensures exists frames: seq<Message> ::
              && (forall m :: m in hostLog ==> m in frames)
              && (forall m :: m in frames ==> Unforged(host, session, hostLog, m))
              && !ExactCopy(hostLog, MirrorOf(host, session, frames).log)
  {
    var e := hostLog[0];
    var m := e.(peer := PeerInfo(e.peer.id, e.peer.displayName + "'"));
    RenamedVerifies(host, session, hostLog, 0, e.peer.displayName + "'");
    var frames := [m] + hostLog;
    FirstGenuineStays(host, session, frames);
    forall x | x in frames ensures Unforged(host, session, hostLog, x) {
        LoggedIsUnforged(host, session, hostLog, x, m); }
  }

  lemma LoggedIsUnforged(host: PeerId, session: SessionId, hostLog: seq<Message>, x: Message, m: Message)
    requires HostLog(host, session, hostLog) && x in [m] + hostLog && Unforged(host, session, hostLog, m)
    ensures Unforged(host, session, hostLog, x)
  {
    if x != m { var i :| 0 <= i < |hostLog| && hostLog[i] == x; }
  }

  /** Delivered first, a renamed frame is the copy the mirror keeps. */
  lemma RenamedFirst(host: PeerId, session: SessionId, hostLog: seq<Message>, frames: seq<Message>, m: Message)
    returns (order: seq<Message>)
    requires m in frames && Renamed(host, session, hostLog, m)
    ensures multiset(order) == multiset(frames) && !ExactCopy(hostLog, MirrorOf(host, session, order).log)
  {
    var i :| 0 <= i < |frames| && frames[i] == m;
    order := [m] + frames[..i] + frames[i + 1..];
    assert frames == frames[..i] + [m] + frames[i + 1..];
    FirstGenuineStays(host, session, order);
  }

  lemma UnrenamedExact(host: PeerId, session: SessionId, hostLog: seq<Message>, frames: seq<Message>,
      order: seq<Message>)
    requires HostLog(host, session, hostLog) && multiset(order) == multiset(frames)
    requires forall m :: m in frames ==> Unforged(host, session, hostLog, m) && !Renamed(host, session, hostLog, m)
    ensures ExactCopy(hostLog, MirrorOf(host, session, order).log)
  {
    LogComesFromFrames(host, session, order);
    forall m | m in MirrorOf(host, session, order).log
      ensures 1 <= m.seqNo <= |hostLog| && m == hostLog[m.seqNo - 1]
    {
      assert m in multiset(order) && m in multiset(frames);
      assert m in frames;
      GenuineIsLogged(host, session, hostLog, m);
    }
  }

  // ---- Restart ----

  /** `log` can be searched: the dedup check answers exactly whether a sequence number is held. */
  ghost predicate DedupExact(log: seq<Message>) {
    forall q {:trigger Duplicate(log, q)} :: Duplicate(log, q) <==> Holds(log, q)
  }

  /** The first entry of the suffix from `k` that is not above any other of that suffix. */
  lemma {:induction false} SuffixMinimum(log: seq<Message>, k: nat) returns (j: nat)
    requires k < |log|
    ensures k <= j < |log| && forall i :: k <= i < |log| ==> log[j].seqNo <= log[i].seqNo
    decreases |log| - k
  {
    j := k;
    if k + 1 < |log| {
      var r := SuffixMinimum(log, k + 1);
      if log[r].seqNo < log[k].seqNo { j := r; }
    }
  }

  /** In a log that is not ascending, some held sequence number partitions the log and is missed. */
  lemma {:induction false} UnsortedMisses(log: seq<Message>, k: nat) returns (j: nat, p: nat)
    requires DistinctSeqs(log) && !Ascending(log) && k <= |log|
    requires forall i, i' :: 0 <= i < k && i < i' < |log| ==> log[i].seqNo < log[i'].seqNo
    ensures j < |log| && !Duplicate(log, log[j].seqNo)
    ensures p <= |log|
    ensures forall i :: 0 <= i < p ==> log[i].seqNo < log[j].seqNo
    ensures forall i :: p <= i < |log| ==> log[i].seqNo >= log[j].seqNo
    decreases |log| - k
  {
    assert k < |log|;
    j := SuffixMinimum(log, k);
    p := k;
    if j == k {
      j, p := UnsortedMisses(log, k + 1);
    } else {
      assert PartitionPoint(log, log[j].seqNo) == k;
    }
  }

  /** The log is split at `q`: the one thing a binary search asks of it. */
  ghost predicate Partitioned(log: seq<Message>, q: nat) {
    forall i, j :: 0 <= i < j < |log| && log[j].seqNo < q ==> log[i].seqNo < q
  }

  /** A binary search is entitled to look for every number a log holds if and only if the log is in order. */
  lemma SearchableIff(log: seq<Message>)
    ensures (forall q :: Holds(log, q) ==> Partitioned(log, q)) <==> NonDescending(log)
  {
    if forall q :: Holds(log, q) ==> Partitioned(log, q) {
      forall i, j | 0 <= i < j < |log| ensures log[i].seqNo <= log[j].seqNo {
        assert log[i] in log;
        assert Holds(log, log[i].seqNo);
      }
    }
  }

  /** Each number appears for the first time only after smaller ones. */
  predicate FirstsAscend(log: seq<Message>) {
    forall j :: 0 <= j < |log| ==> SeenBefore(log, j) || Exceeds(log, j)
  }

  predicate SeenBefore(log: seq<Message>, j: nat)
    requires j < |log|
  {
    exists i :: 0 <= i < j && log[i].seqNo == log[j].seqNo
  }

  predicate Exceeds(log: seq<Message>, j: nat)
    requires j < |log|
  {
    forall i :: 0 <= i < j ==> log[i].seqNo < log[j].seqNo
  }

  lemma {:induction false} FirstSeen(log: seq<Message>, j: nat) returns (i: nat)
    requires j < |log|
    ensures i <= j && log[i].seqNo == log[j].seqNo && !SeenBefore(log, i)
  {
    i := j;
    if SeenBefore(log, j) {
      var k :| 0 <= k < j && log[k].seqNo == log[j].seqNo;
      i := FirstSeen(log, k);
    }
  }

  /** The duplicate check answers exactly, for every number and every log, if and only if first appearances
      ascend: in particular on every log in order, and on a log without repetitions only on one in order. */
  lemma DedupExactIff(log: seq<Message>)
    ensures DedupExact(log) <==> FirstsAscend(log)
    ensures NonDescending(log) ==> FirstsAscend(log)
    ensures DistinctSeqs(log) ==> (FirstsAscend(log) <==> Ascending(log))
  {
    if DedupExact(log) {
      forall j | 0 <= j < |log| ensures SeenBefore(log, j) || Exceeds(log, j) {
        assert log[j] in log;
        assert Duplicate(log, log[j].seqNo);
        assert PartitionPoint(log, log[j].seqNo) <= j;
      }
    }
    if FirstsAscend(log) {
      forall q ensures Duplicate(log, q) <==> Holds(log, q) { FirstsFound(log, q); }
    }
    if DistinctSeqs(log) && FirstsAscend(log) {
      forall i, j | 0 <= i < j < |log| ensures log[i].seqNo < log[j].seqNo { assert Exceeds(log, j); }
    }
  }

  lemma FirstsFound(log: seq<Message>, q: nat)
    requires FirstsAscend(log)
    ensures Duplicate(log, q) <==> Holds(log, q)
  {
    if Holds(log, q) {
      var m :| m in log && m.seqNo == q;
      var j :| 0 <= j < |log| && log[j] == m;
      var i := FirstSeen(log, j);
      assert Exceeds(log, i);
      assert PartitionPoint(log, q) == i;
    }
  }

  function Continue(host: PeerId, session: SessionId, mi: Mirror, frames: seq<Message>): Mirror {
    After(host, session, mi, Deliveries(frames))
  }

  lemma {:induction false} ContinueAscends(host: PeerId, session: SessionId, mi: Mirror, frames: seq<Message>)
    requires Ascending(mi.log)
    ensures Ascending(Continue(host, session, mi, frames).log)
  {
    if frames != [] {
      var init, m := frames[..|frames| - 1], frames[|frames| - 1];
      DeliveriesInit(frames);
      ContinueAscends(host, session, mi, init);
      var prev := Continue(host, session, mi, init);
      AscendingDuplicateExact(prev.log, m.seqNo);
      if !Duplicate(prev.log, m.seqNo) { InsertAscends(prev.log, m); }
    }
  }

  lemma InsertAgain(log: seq<Message>, j: nat, pos: nat)
    requires j < |log| && pos <= |log|
    ensures !DistinctSeqs(log[..pos] + [log[j]] + log[pos..])
  {
    var more := log[..pos] + [log[j]] + log[pos..];
    assert more[pos] == more[if j < pos then j else j + 1] == log[j];
  }

  lemma MissedEntryDoubles(host: PeerId, session: SessionId, mi: Mirror, j: nat)
    requires j < |mi.disk| && Genuine(host, session, mi.disk[j])
    requires !Duplicate(mi.disk, mi.disk[j].seqNo)
    ensures !DistinctSeqs(Continue(host, session, Reload(mi), [mi.disk[j]]).log)
  {
    var m := mi.disk[j];
    assert Deliveries([m]) == [Deliver(m, Done)];
    AfterOne(host, session, Reload(mi), Deliver(m, Done));
    InsertAgain(mi.disk, j, PartitionPoint(mi.disk, m.seqNo));
  }

  /** The log file keeps arrival order and a restart does not sort it. After a restart the mirror
      keeps one entry per sequence number under every later delivery if and only if the file was
      ascending, that is, if the frames had been persisted in sequence order. */
  lemma RestartKeepsOneEntryPerSeqIff(host: PeerId, session: SessionId, hostLog: seq<Message>, mi: Mirror)
    requires Sound(host, session, hostLog, mi)
    ensures (forall frames: seq<Message> :: DistinctSeqs(Continue(host, session, Reload(mi), frames).log))
            <==> Ascending(mi.disk)
  {
    if Ascending(mi.disk) {
      forall frames: seq<Message> ensures DistinctSeqs(Continue(host, session, Reload(mi), frames).log) {
        ContinueAscends(host, session, Reload(mi), frames);
      }
    } else if DistinctSeqs(mi.disk) {
      var j, _ := UnsortedMisses(mi.disk, 0);
      assert mi.disk[j] in mi.disk;
      MissedEntryDoubles(host, session, mi, j);
    } else {
      assert Continue(host, session, Reload(mi), []).log == mi.disk;
    }
  }

  /** The shortest failing run: entries 2 and 1 arrive in that order, the daemon restarts, entry 1 arrives again. */
  lemma RestartDuplicatesWitness(host: PeerId, session: SessionId, m1: Message, m2: Message)
    requires Genuine(host, session, m1) && m1.seqNo == 1
    requires Genuine(host, session, m2) && m2.seqNo == 2
    ensures var run := [Deliver(m2, Done), Deliver(m1, Done), Restart, Deliver(m1, Done)];
            Run(host, session, run).log == [m1, m2, m1]
  {
    var d1, d2 := Deliver(m1, Done), Deliver(m2, Done);
    var a, b := [] + [d2], [] + [d2] + [d1];
    RunStep(host, session, [], d2);
    RunStep(host, session, a, d1);
    RunStep(host, session, b, Restart);
    RunStep(host, session, b + [Restart], d1);
    AcceptedAtFront(host, session, EMPTY, m2);
    AcceptedAtFront(host, session, Run(host, session, a), m1);
    AcceptedAtFront(host, session, Reload(Run(host, session, b)), m1);
    assert b + [Restart] + [d1] == [d2, d1, Restart, d1];
  }

  lemma TornAtStart(host: PeerId, session: SessionId, m: Message)
    requires Genuine(host, session, m)
    ensures ApplyInbound(host, session, EMPTY, m, Torn) == EMPTY.(disk := [m])
  {
  }

  /** The other way to two entries per number: a persist torn before memory took the frame, the frame again,
      a restart. */
  lemma TornPersistDuplicatesWitness(host: PeerId, session: SessionId, m: Message)
    requires Genuine(host, session, m)
    ensures Run(host, session, [Deliver(m, Torn), Deliver(m, Done), Restart]).log == [m, m]
  {
    var torn, done := Deliver(m, Torn), Deliver(m, Done);
    var a, b := [] + [torn], [] + [torn] + [done];
    RunStep(host, session, [], torn);
    RunStep(host, session, a, done);
    RunStep(host, session, b, Restart);
    TornTwice(host, session, m);
    assert b + [Restart] == [torn, done, Restart];
  }

  lemma TornTwice(host: PeerId, session: SessionId, m: Message)
    requires Genuine(host, session, m)
    ensures ApplyInbound(host, session, ApplyInbound(host, session, EMPTY, m, Torn), m, Done).disk == [m, m]
  {
    TornAtStart(host, session, m);
    AcceptedAtFront(host, session, EMPTY.(disk := [m]), m);
  }

  lemma RunStep(host: PeerId, session: SessionId, events: seq<Event>, e: Event)
    ensures Run(host, session, events + [e]) == Step(host, session, Run(host, session, events), e)
  {
    assert (events + [e])[..|events|] == events;
  }

  /** A genuine frame below the first entry goes to the front of the log and the end of the file. */
  lemma AcceptedAtFront(host: PeerId, session: SessionId, mi: Mirror, m: Message)
    requires Genuine(host, session, m) && (mi.log != [] ==> m.seqNo < mi.log[0].seqNo)
    ensures var next := ApplyInbound(host, session, mi, m, Done);
            next.log == [m] + mi.log && next.disk == mi.disk + [m]
  {
    var pos := PartitionPoint(mi.log, m.seqNo);
    assert pos == 0;
    assert mi.log[..0] + [m] + mi.log[0..] == [m] + mi.log;
  }
}
