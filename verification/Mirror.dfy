/** A joiner's mirror of a host log, rebuilt from gossip frames that may be
    duplicated, reordered, lost, forged or re-sequenced, over store writes that may fail. */
module Mirrors {
  import opened Protocol
  import opened Capabilities

  /** `log` is memory, `disk` is the log file in arrival order, `emitted` is what
      live subscribers were sent. */
  datatype Mirror = Mirror(log: seq<Message>, head: nat, disk: seq<Message>, emitted: seq<Message>)

  const EMPTY := Mirror([], 0, [], [])

  /** The binary search the mirror deduplicates with: the first position not below
      `q`, which is the only answer when the log is partitioned at `q`. */
  function PartitionPoint(log: seq<Message>, q: nat): (pos: nat)
    ensures pos <= |log|
    ensures forall i :: 0 <= i < pos ==> log[i].seqNo < q
    ensures pos < |log| ==> log[pos].seqNo >= q
  {
    if log == [] then 0
    else
      var rest := PartitionPoint(log[..|log| - 1], q);
      if rest < |log| - 1 || log[|log| - 1].seqNo >= q then rest else |log|
  }

  predicate Duplicate(log: seq<Message>, q: nat) {
    var pos := PartitionPoint(log, q);
    pos < |log| && log[pos].seqNo == q
  }

  predicate Holds(log: seq<Message>, q: nat) {
    exists m :: m in log && m.seqNo == q
  }

  /** The acceptance pipeline (a torn append leaves the frame in the log file and nothing in memory):
      deduplicate, check the author, check the host, persist, insert, emit. */
  function ApplyInbound(host: PeerId, session: SessionId, mi: Mirror, m: Message, io: Io): Mirror {
    var pos := PartitionPoint(mi.log, m.seqNo);
    if Duplicate(mi.log, m.seqNo) || !AuthorVerifies(session, m) || !HostVerifies(host, session, m) then mi
    else match io
      case Failed => mi
      case Torn => mi.(disk := mi.disk + [m])
      case Done => Mirror(mi.log[..pos] + [m] + mi.log[pos..], Max(mi.head, m.seqNo), mi.disk + [m],
                          if Reserved(m) then mi.emitted else mi.emitted + [m])
  }

  /** A restart reads the log file back as it stands and takes the head from its largest entry. */
  function Reload(mi: Mirror): Mirror {
    Mirror(mi.disk, MaxSeq(mi.disk), mi.disk, [])
  }

  datatype Event = Deliver(frame: Message, io: Io) | Restart

  function Step(host: PeerId, session: SessionId, mi: Mirror, e: Event): Mirror {
    match e
    case Deliver(m, io) => ApplyInbound(host, session, mi, m, io)
    case Restart => Reload(mi)
  }

  function Run(host: PeerId, session: SessionId, events: seq<Event>): Mirror {
    if events == [] then EMPTY
    else Step(host, session, Run(host, session, events[..|events| - 1]), events[|events| - 1])
  }

  /** A run that goes on from `mi`. */
  function After(host: PeerId, session: SessionId, mi: Mirror, events: seq<Event>): Mirror {
    if events == [] then mi
    else Step(host, session, After(host, session, mi, events[..|events| - 1]), events[|events| - 1])
  }

  lemma AfterOne(host: PeerId, session: SessionId, mi: Mirror, e: Event)
    ensures After(host, session, mi, [e]) == Step(host, session, mi, e)
  {
    assert [e][..0] == [];
    assert After(host, session, mi, [e][..0]) == mi;
  }

  lemma BothLast(host: PeerId, session: SessionId, mi: Mirror, all: seq<Event>, later: seq<Event>, e: Event)
    requires After(host, session, mi, later) == Run(host, session, all)
    ensures After(host, session, mi, later + [e]) == Run(host, session, all + [e])
  {
    assert (all + [e])[..|all|] == all && (later + [e])[..|later|] == later;
  }

  lemma {:induction false} AfterFrom(host: PeerId, session: SessionId, mi: Mirror, before: seq<Event>,
                                     later: seq<Event>)
    requires mi == Run(host, session, before)
    ensures After(host, session, mi, later) == Run(host, session, before + later)
  {
    if later == [] {
      assert before + later == before;
    } else {
      var init, e := later[..|later| - 1], later[|later| - 1];
      AfterFrom(host, session, mi, before, init);
      BothLast(host, session, mi, before + init, init, e);
      assert later == init + [e] && before + later == before + init + [e];
    }
  }

  lemma AfterRun(host: PeerId, session: SessionId, before: seq<Event>, later: seq<Event>)
    ensures After(host, session, Run(host, session, before), later) == Run(host, session, before + later)
  {
    AfterFrom(host, session, Run(host, session, before), before, later);
  }

  /** The mirror as the daemon holds it. */
  class MirrorSession {
    const host: PeerId
    const session: SessionId
    var log: seq<Message>
    var head: nat
    var disk: seq<Message>
    var emitted: seq<Message>

    constructor (host: PeerId, session: SessionId)
      ensures this.host == host && this.session == session && View() == EMPTY
    {
      this.host, this.session := host, session;
      log, head, disk, emitted := [], 0, [], [];
    }

    ghost function View(): Mirror reads this { Mirror(log, head, disk, emitted) }

    /** One inbound frame under the session lock. */
    method Receive(m: Message, io: Io)
      modifies this
      ensures View() == ApplyInbound(host, session, old(View()), m, io)
    {
      var pos := PartitionPoint(log, m.seqNo);
      if pos < |log| && log[pos].seqNo == m.seqNo { return; }
      if !AuthorVerifies(session, m) { return; }
      if !HostVerifies(host, session, m) { return; }
      if io != Failed { disk := disk + [m]; }
      if io != Done { return; }
      log := log[..pos] + [m] + log[pos..];
      if m.seqNo > head { head := m.seqNo; }
      if Reserved(m) { return; }
      emitted := emitted + [m];
    }

    method RestartDaemon()
      modifies this
      ensures View() == Reload(old(View()))
    {
      log, head, emitted := disk, MaxSeq(disk), [];
    }
  }

  // ---- Agreement with the host, over every run ----

  /** The host's key is held by the host alone: a sequencing signature under it exists only for an entry of its log. */
  predicate Unforged(host: PeerId, session: SessionId, hostLog: seq<Message>, m: Message) {
    HostVerifies(host, session, m) ==>
      1 <= m.seqNo <= |hostLog| && hostLog[m.seqNo - 1].signature == m.signature
  }

  predicate UnforgedRun(host: PeerId, session: SessionId, hostLog: seq<Message>, events: seq<Event>) {
    forall i :: 0 <= i < |events| && events[i].Deliver? ==> Unforged(host, session, hostLog, events[i].frame)
  }

  /** `m` is the host's entry at its sequence number, display name aside. */
  predicate Logged(hostLog: seq<Message>, m: Message) {
    1 <= m.seqNo <= |hostLog| && SameUpToName(m, hostLog[m.seqNo - 1])
  }

  /** Two signatures, the author's and the host's, pin a frame down to the display name. */
  lemma GenuineIsLogged(host: PeerId, session: SessionId, hostLog: seq<Message>, m: Message)
    requires HostLog(host, session, hostLog)
    requires Unforged(host, session, hostLog, m) && Genuine(host, session, m)
    ensures Logged(hostLog, m)
  {
    var e := hostLog[m.seqNo - 1];
    assert BodyScope(session, m) == BodyScope(session, e) && m.hostSig == e.hostSig;
  }

  /** Frames honest at one moment stay honest as the host's log grows. */
  lemma UnforgedMonotone(host: PeerId, session: SessionId, hostLog: seq<Message>, more: seq<Message>, m: Message)
    requires Unforged(host, session, hostLog, m)
    ensures Unforged(host, session, hostLog + more, m)
  {
  }

  predicate Sound(host: PeerId, session: SessionId, hostLog: seq<Message>, mi: Mirror) {
    && (forall m :: m in mi.disk ==> Genuine(host, session, m) && Logged(hostLog, m))
    && (forall m :: m in mi.log ==> m in mi.disk)
    && mi.head == MaxSeq(mi.log)
  }

  lemma MaxSeqUnique(log: seq<Message>, n: nat)
    requires forall m :: m in log ==> m.seqNo <= n
    requires if log == [] then n == 0 else Holds(log, n)
    ensures MaxSeq(log) == n
  {
    if log != [] { var m :| m in log && m.seqNo == n; }
  }

  lemma InsertMembers(log: seq<Message>, pos: nat, m: Message, x: Message)
    requires pos <= |log|
    ensures x in log[..pos] + [m] + log[pos..] <==> x == m || x in log
  {
    assert log == log[..pos] + log[pos..];
  }

  lemma InsertMaxSeq(log: seq<Message>, pos: nat, m: Message)
    requires pos <= |log|
    ensures MaxSeq(log[..pos] + [m] + log[pos..]) == Max(MaxSeq(log), m.seqNo)
  {
    var more, n := log[..pos] + [m] + log[pos..], Max(MaxSeq(log), m.seqNo);
    forall x | x in more ensures x.seqNo <= n { InsertMembers(log, pos, m, x); }
    var top := if m.seqNo == n then m else TopEntry(log);
    InsertMembers(log, pos, m, top);
    MaxSeqUnique(more, n);
  }

  /** An entry with the largest sequence number. */
  ghost function TopEntry(log: seq<Message>): (m: Message)
    requires log != []
    ensures m in log && m.seqNo == MaxSeq(log)
  {
    var i :| 0 <= i < |log| && log[i].seqNo == MaxSeq(log);
    log[i]
  }

  lemma ApplyKeepsSound(host: PeerId, session: SessionId, hostLog: seq<Message>, mi: Mirror, m: Message, io: Io)
    requires HostLog(host, session, hostLog) && Unforged(host, session, hostLog, m)
    requires Sound(host, session, hostLog, mi)
    ensures Sound(host, session, hostLog, ApplyInbound(host, session, mi, m, io))
  {
    var next := ApplyInbound(host, session, mi, m, io);
    if next != mi {
      GenuineIsLogged(host, session, hostLog, m);
      if io == Done {
        var pos := PartitionPoint(mi.log, m.seqNo);
        forall x ensures x in next.log <==> x == m || x in mi.log { InsertMembers(mi.log, pos, m, x); }
        InsertMaxSeq(mi.log, pos, m);
      }
    }
  }

  /** Whatever is delivered, in whatever order, through failures and restarts: every
      entry the mirror holds, in memory or on disk, is the host's entry at that
      sequence number, and the head is the largest of them. */
  lemma {:induction false} MirrorAgrees(host: PeerId, session: SessionId, hostLog: seq<Message>, events: seq<Event>)
    requires HostLog(host, session, hostLog) && UnforgedRun(host, session, hostLog, events)
    ensures Sound(host, session, hostLog, Run(host, session, events))
  {
    if events != [] {
      MirrorAgrees(host, session, hostLog, events[..|events| - 1]);
      var e := events[|events| - 1];
      if e.Deliver? {
        ApplyKeepsSound(host, session, hostLog, Run(host, session, events[..|events| - 1]), e.frame, e.io);
      }
    }
  }

  // ---- The log of a run without restarts is a function of the set of frames applied ----

  predicate NoRestart(events: seq<Event>) {
    forall i :: 0 <= i < |events| ==> events[i].Deliver?
  }

  /** A genuine frame whose append succeeds when it is new. */
  predicate Applies(host: PeerId, session: SessionId, e: Event) {
    e.Deliver? && e.io == Done && Genuine(host, session, e.frame)
  }

  predicate AppliedSeq(host: PeerId, session: SessionId, events: seq<Event>, q: nat) {
    exists i :: 0 <= i < |events| && Applies(host, session, events[i]) && events[i].frame.seqNo == q
  }

  lemma AscendingDuplicateExact(log: seq<Message>, q: nat)
    requires Ascending(log)
    ensures Duplicate(log, q) <==> Holds(log, q)
  {
    if Holds(log, q) {
      var m :| m in log && m.seqNo == q;
      var i :| 0 <= i < |log| && log[i] == m;
      assert PartitionPoint(log, q) <= i;
    }
  }

  lemma InsertAscends(log: seq<Message>, m: Message)
    requires Ascending(log) && !Duplicate(log, m.seqNo)
    ensures var pos := PartitionPoint(log, m.seqNo); Ascending(log[..pos] + [m] + log[pos..])
  {
    var pos := PartitionPoint(log, m.seqNo);
    assert forall i :: pos <= i < |log| ==> log[i].seqNo > m.seqNo;
  }

  /** Without restarts the log is strictly ascending and holds exactly the sequence numbers applied. */
  lemma {:induction false} MirrorAscends(host: PeerId, session: SessionId, events: seq<Event>)
    requires NoRestart(events)
    ensures Ascending(Run(host, session, events).log)
    ensures forall q :: Holds(Run(host, session, events).log, q) <==> AppliedSeq(host, session, events, q)
  {
    if events != [] {
      var init, e := events[..|events| - 1], events[|events| - 1];
      MirrorAscends(host, session, init);
      var mi, next := Run(host, session, init), Run(host, session, events);
      var m := e.frame;
      AscendingDuplicateExact(mi.log, m.seqNo);
      if next.log != mi.log { InsertAscends(mi.log, m); }
      forall q ensures Holds(next.log, q) <==> AppliedSeq(host, session, events, q) {
        AppliedStep(host, session, events, q);
        HoldsStep(host, session, mi, m, e.io, q);
      }
    }
  }

  lemma AppliedStep(host: PeerId, session: SessionId, events: seq<Event>, q: nat)
    requires events != []
    ensures AppliedSeq(host, session, events, q) <==>
              AppliedSeq(host, session, events[..|events| - 1], q)
              || (Applies(host, session, events[|events| - 1]) && events[|events| - 1].frame.seqNo == q)
  {
    var init := events[..|events| - 1];
    if AppliedSeq(host, session, init, q) {
      var i :| 0 <= i < |init| && Applies(host, session, init[i]) && init[i].frame.seqNo == q;
      assert events[i] == init[i];
    }
    if AppliedSeq(host, session, events, q) {
      var i :| 0 <= i < |events| && Applies(host, session, events[i]) && events[i].frame.seqNo == q;
      if i < |init| { assert init[i] == events[i]; }
    }
  }

  lemma HoldsStep(host: PeerId, session: SessionId, mi: Mirror, m: Message, io: Io, q: nat)
    ensures Holds(ApplyInbound(host, session, mi, m, io).log, q) <==>
              Holds(mi.log, q) || (io == Done && Genuine(host, session, m) && m.seqNo == q)
  {
    var next := ApplyInbound(host, session, mi, m, io);
    if Duplicate(mi.log, m.seqNo) { assert mi.log[PartitionPoint(mi.log, m.seqNo)] in mi.log; }
    if next.log != mi.log {
      var pos := PartitionPoint(mi.log, m.seqNo);
      forall x ensures x in next.log <==> x == m || x in mi.log { InsertMembers(mi.log, pos, m, x); }
      if Holds(mi.log, q) { var x :| x in mi.log && x.seqNo == q; assert x in next.log; }
      if m.seqNo == q { assert m in next.log; }
    }
  }

  function Anonymous(m: Message): Message { m.(peer := PeerInfo(m.peer.id, "")) }

  function AnonymousLog(log: seq<Message>): seq<Message> { seq(|log|, i requires 0 <= i < |log| => Anonymous(log[i])) }

  /** An ascending log is determined, number by number, by the set of numbers it holds. */
  lemma {:induction false} AscendingSameSeqs(a: seq<Message>, b: seq<Message>)
    requires Ascending(a) && Ascending(b)
    requires forall q :: Holds(a, q) <==> Holds(b, q)
    ensures |a| == |b| && forall i :: 0 <= i < |a| ==> a[i].seqNo == b[i].seqNo
  {
    if a == [] || b == [] {
      if a != [] { assert Holds(a, a[0].seqNo); }
      if b != [] { assert Holds(b, b[0].seqNo); }
    } else {
      var a', b' := a[..|a| - 1], b[..|b| - 1];
      LastIsLargest(a, b);
      LastIsLargest(b, a);
      forall q ensures Holds(a', q) <==> Holds(b', q) {
        HoldsInit(a, q);
        HoldsInit(b, q);
      }
      AscendingSameSeqs(a', b');
      forall i | 0 <= i < |a| ensures a[i].seqNo == b[i].seqNo { if i < |a'| { assert a'[i] == a[i]
          && b'[i] == b[i]; } }
    }
  }

  lemma LastIsLargest(a: seq<Message>, b: seq<Message>)
    requires a != [] && b != [] && Ascending(b) && forall q :: Holds(a, q) ==> Holds(b, q)
    ensures a[|a| - 1].seqNo <= b[|b| - 1].seqNo
  {
    assert Holds(a, a[|a| - 1].seqNo);
    var m :| m in b && m.seqNo == a[|a| - 1].seqNo;
    var i :| 0 <= i < |b| && b[i] == m;
  }

  /** Two ascending logs over the same host log with the same sequence numbers agree entry by entry. */
  lemma AscendingDetermined(hostLog: seq<Message>, a: seq<Message>, b: seq<Message>)
    requires Ascending(a) && Ascending(b)
    requires forall m :: m in a || m in b ==> Logged(hostLog, m)
    requires forall q :: Holds(a, q) <==> Holds(b, q)
    ensures AnonymousLog(a) == AnonymousLog(b)
  {
    AscendingSameSeqs(a, b);
    forall i | 0 <= i < |a| ensures Anonymous(a[i]) == Anonymous(b[i]) {
      assert Logged(hostLog, a[i]) && Logged(hostLog, b[i]);
    }
  }

  lemma HoldsInit(a: seq<Message>, q: nat)
    requires a != [] && Ascending(a)
    ensures Holds(a[..|a| - 1], q) <==> Holds(a, q) && q != a[|a| - 1].seqNo
  {
    assert a == a[..|a| - 1] + [a[|a| - 1]];
  }

  /** Convergence: two mirrors that applied the same sequence numbers, whatever the order,
      the duplication, the losses and the forgeries between them, hold the same log. */
  lemma MirrorsConverge(host: PeerId, session: SessionId, hostLog: seq<Message>, e1: seq<Event>, e2: seq<Event>)
    requires HostLog(host, session, hostLog)
    requires UnforgedRun(host, session, hostLog, e1) && UnforgedRun(host, session, hostLog, e2)
    requires NoRestart(e1) && NoRestart(e2)
    requires forall q :: AppliedSeq(host, session, e1, q) <==> AppliedSeq(host, session, e2, q)
    ensures AnonymousLog(Run(host, session, e1).log) == AnonymousLog(Run(host, session, e2).log)
    ensures Run(host, session, e1).head == Run(host, session, e2).head
  {
    MirrorAgrees(host, session, hostLog, e1);
    MirrorAgrees(host, session, hostLog, e2);
    MirrorAscends(host, session, e1);
    MirrorAscends(host, session, e2);
    var a, b := Run(host, session, e1).log, Run(host, session, e2).log;
    AscendingDetermined(hostLog, a, b);
    if a != [] { assert Holds(a, MaxSeq(a)); assert Holds(b, MaxSeq(b)); }
    assert |a| == |AnonymousLog(a)| == |AnonymousLog(b)| == |b|;
  }

  lemma {:induction false} LogWithinDisk(host: PeerId, session: SessionId, events: seq<Event>)
    ensures forall m :: m in Run(host, session, events).log ==> m in Run(host, session, events).disk
  {
    if events != [] {
      var init, e := events[..|events| - 1], events[|events| - 1];
      LogWithinDisk(host, session, init);
      var mi, next := Run(host, session, init), Run(host, session, events);
      if e.Deliver? && next.log != mi.log {
        forall x ensures x in next.log <==> x == e.frame || x in mi.log {
          InsertMembers(mi.log, PartitionPoint(mi.log, e.frame.seqNo), e.frame, x);
        }
      }
    }
  }

  // ---- The entries held after any run ----

  /** A genuine frame that is not kept from the file. */
  predicate Lands(host: PeerId, session: SessionId, e: Event, q: nat) {
    e.Deliver? && e.io != Failed && Genuine(host, session, e.frame) && e.frame.seqNo == q
  }

  predicate RestartsAfter(events: seq<Event>, i: nat) {
    exists j :: i < j < |events| && events[j].Restart?
  }

  /** The number `q` was applied, or written by a torn append that a restart has read back since. */
  predicate KeptAt(host: PeerId, session: SessionId, events: seq<Event>, i: nat, q: nat)
    requires i < |events|
  {
    Lands(host, session, events[i], q) && (events[i].io == Done || RestartsAfter(events, i))
  }

  predicate LandedSeq(host: PeerId, session: SessionId, events: seq<Event>, q: nat) {
    exists i :: 0 <= i < |events| && Lands(host, session, events[i], q)
  }

  predicate KeptSeq(host: PeerId, session: SessionId, events: seq<Event>, q: nat) {
    exists i :: 0 <= i < |events| && KeptAt(host, session, events, i, q)
  }

  lemma LandedStep(host: PeerId, session: SessionId, events: seq<Event>, q: nat)
    requires events != []
    ensures LandedSeq(host, session, events, q) <==>
              LandedSeq(host, session, events[..|events| - 1], q) || Lands(host, session, events[|events| - 1], q)
  {
    var init := events[..|events| - 1];
    if LandedSeq(host, session, init, q) {
      var i :| 0 <= i < |init| && Lands(host, session, init[i], q);
      assert events[i] == init[i];
    }
    if LandedSeq(host, session, events, q) {
      var i :| 0 <= i < |events| && Lands(host, session, events[i], q);
      if i < |init| { assert init[i] == events[i]; }
    }
  }

  lemma RestartsStep(events: seq<Event>, i: nat)
    requires i + 1 < |events|
    ensures RestartsAfter(events, i) <==> RestartsAfter(events[..|events| - 1], i) || events[|events| - 1].Restart?
  {
    var init := events[..|events| - 1];
    if RestartsAfter(init, i) { var j :| i < j < |init| && init[j].Restart?; assert events[j].Restart?; }
    if RestartsAfter(events, i) {
      var j :| i < j < |events| && events[j].Restart?;
      if j < |init| { assert init[j].Restart?; }
    }
  }

  lemma KeptStep(host: PeerId, session: SessionId, events: seq<Event>, q: nat)
    requires events != []
    ensures var init, e := events[..|events| - 1], events[|events| - 1];
            KeptSeq(host, session, events, q) <==>
              if e.Restart? then LandedSeq(host, session, init, q)
              else KeptSeq(host, session, init, q) || (Lands(host, session, e, q) && e.io == Done)
  {
    var init, n := events[..|events| - 1], |events| - 1;
    if KeptSeq(host, session, events, q) {
      var i :| 0 <= i < |events| && KeptAt(host, session, events, i, q);
      if i < n {
        RestartsStep(events, i);
        assert Lands(host, session, init[i], q);
        assert !events[n].Restart? ==> KeptAt(host, session, init, i, q);
      }
    }
    if events[n].Restart? && LandedSeq(host, session, init, q) {
      var i :| 0 <= i < |init| && Lands(host, session, init[i], q);
      RestartsStep(events, i);
      assert KeptAt(host, session, events, i, q);
    }
    if !events[n].Restart? && KeptSeq(host, session, init, q) {
      var i :| 0 <= i < |init| && KeptAt(host, session, init, i, q);
      RestartsStep(events, i);
      assert KeptAt(host, session, events, i, q);
    }
    if Lands(host, session, events[n], q) && events[n].io == Done { assert KeptAt(host, session, events, n, q); }
  }

  lemma FileHoldsStep(host: PeerId, session: SessionId, mi: Mirror, m: Message, io: Io, q: nat)
    requires forall x :: x in mi.log ==> x in mi.disk
    ensures Holds(ApplyInbound(host, session, mi, m, io).disk, q) <==>
              Holds(mi.disk, q) || Lands(host, session, Deliver(m, io), q)
  {
    var next := ApplyInbound(host, session, mi, m, io);
    if Duplicate(mi.log, m.seqNo) { assert mi.log[PartitionPoint(mi.log, m.seqNo)] in mi.disk; }
    if next.disk != mi.disk {
      assert m in next.disk;
      if Holds(mi.disk, q) { var x :| x in mi.disk && x.seqNo == q; assert x in next.disk; }
    }
  }

  /** In every run the file holds exactly the numbers that landed in it, and the mirror exactly those that were
      applied, or landed in a torn append that a restart has read back since. */
  lemma {:induction false} MirrorHoldsIff(host: PeerId, session: SessionId, events: seq<Event>, q: nat)
    ensures Holds(Run(host, session, events).disk, q) <==> LandedSeq(host, session, events, q)
    ensures Holds(Run(host, session, events).log, q) <==> KeptSeq(host, session, events, q)
  {
    if events != [] {
      var init, e := events[..|events| - 1], events[|events| - 1];
      var mi := Run(host, session, init);
      MirrorHoldsIff(host, session, init, q);
      LandedStep(host, session, events, q);
      KeptStep(host, session, events, q);
      if e.Deliver? {
        LogWithinDisk(host, session, init);
        HoldsStep(host, session, mi, e.frame, e.io, q);
        FileHoldsStep(host, session, mi, e.frame, e.io, q);
      }
    }
  }

  predicate HoldsEntry(log: seq<Message>, m: Message) {
    exists x :: x in log && SameUpToName(x, m)
  }

  lemma SameNumbersSameEntries(hostLog: seq<Message>, a: seq<Message>, b: seq<Message>, m: Message)
    requires forall x :: x in a || x in b ==> Logged(hostLog, x)
    requires forall q :: Holds(a, q) ==> Holds(b, q)
    ensures HoldsEntry(a, m) ==> HoldsEntry(b, m)
  {
    if HoldsEntry(a, m) {
      var x :| x in a && SameUpToName(x, m);
      assert Holds(a, x.seqNo);
      var y :| y in b && y.seqNo == x.seqNo;
      assert SameUpToName(y, m);
    }
  }

  lemma SameNumbersSameMax(a: seq<Message>, b: seq<Message>)
    requires forall q :: Holds(a, q) <==> Holds(b, q)
    ensures MaxSeq(a) == MaxSeq(b)
  {
    if a != [] { assert TopEntry(a) in a; assert Holds(a, MaxSeq(a)); }
    if b != [] { assert TopEntry(b) in b; assert Holds(b, MaxSeq(b)); }
  }

  /** Convergence through restarts and torn appends: two mirrors that kept the same numbers hold the same entries,
      display names aside, and the same head. */
  lemma RestartedMirrorsConverge(host: PeerId, session: SessionId, hostLog: seq<Message>, e1: seq<Event>,
                                 e2: seq<Event>, m: Message)
    requires HostLog(host, session, hostLog)
    requires UnforgedRun(host, session, hostLog, e1) && UnforgedRun(host, session, hostLog, e2)
    requires forall q :: KeptSeq(host, session, e1, q) <==> KeptSeq(host, session, e2, q)
    ensures HoldsEntry(Run(host, session, e1).log, m) <==> HoldsEntry(Run(host, session, e2).log, m)
    ensures Run(host, session, e1).head == Run(host, session, e2).head
  {
    var a, b := Run(host, session, e1).log, Run(host, session, e2).log;
    MirrorAgrees(host, session, hostLog, e1);
    MirrorAgrees(host, session, hostLog, e2);
    forall q ensures Holds(a, q) <==> Holds(b, q) {
      MirrorHoldsIff(host, session, e1, q);
      MirrorHoldsIff(host, session, e2, q);
      assert KeptSeq(host, session, e1, q) <==> KeptSeq(host, session, e2, q);
    }
    SameNumbersSameEntries(hostLog, a, b, m);
    SameNumbersSameEntries(hostLog, b, a, m);
    SameNumbersSameMax(a, b);
  }

  /** Every entry of the host's answer to a replay request was delivered, and its append succeeded. */
  predicate ReplayDelivered(hostLog: seq<Message>, since: nat, events: seq<Event>) {
    forall m :: m in LogSince(hostLog, since) ==> exists i :: 0 <= i < |events| && events[i] == Deliver(m, Done)
  }

  lemma AnswerIncludes(hostLog: seq<Message>, since: nat, q: nat)
    requires since < q <= |hostLog| && hostLog[q - 1].seqNo == q && !Withheld(hostLog[q - 1])
    ensures hostLog[q - 1] in LogSince(hostLog, since)
  {
    var at := ReplayAnswer(hostLog, since);
    assert Answering(hostLog, since, q - 1);
    var k :| 0 <= k < |at| && at[k] == q - 1;
    assert LogSince(hostLog, since)[k] == hostLog[q - 1];
  }

  lemma HeldIsEntry(hostLog: seq<Message>, log: seq<Message>, q: nat)
    requires 1 <= q <= |hostLog| && Holds(log, q) && forall x :: x in log ==> Logged(hostLog, x)
    ensures HoldsEntry(log, hostLog[q - 1])
  {
    var x :| x in log && x.seqNo == q;
    assert SameUpToName(x, hostLog[q - 1]);
  }

  /** A complete replay backfills: once the whole answer to a request since `since` has been delivered, among any
      other deliveries, failures and restarts, the mirror holds every entry of the host's log past `since` that is
      neither a capability entry nor one of the four workspace actions. */
  lemma ReplayBackfills(host: PeerId, session: SessionId, hostLog: seq<Message>, since: nat, events: seq<Event>,
                        q: nat)
    requires HostLog(host, session, hostLog) && UnforgedRun(host, session, hostLog, events)
    requires ReplayDelivered(hostLog, since, events)
    requires since < q <= |hostLog| && !Withheld(hostLog[q - 1])
    ensures HoldsEntry(Run(host, session, events).log, hostLog[q - 1])
  {
    var m := hostLog[q - 1];
    assert m.seqNo == q && Genuine(host, session, m);
    AnswerIncludes(hostLog, since, q);
    var i :| 0 <= i < |events| && events[i] == Deliver(m, Done);
    assert KeptAt(host, session, events, i, m.seqNo);
    MirrorHoldsIff(host, session, events, q);
    MirrorAgrees(host, session, hostLog, events);
    HeldIsEntry(hostLog, Run(host, session, events).log, q);
  }

  /** From any state, a frame is added to file and log if and only if the search for its number misses, it is of format
      3 or later, signed by its author over its whole body and by the host over its number, and the store takes it;
      any other changes neither, but that a torn append leaves it in the file. */
  lemma FrameTakenIff(host: PeerId, session: SessionId, mi: Mirror, m: Message, io: Io)
    ensures var next := ApplyInbound(host, session, mi, m, io);
            var good := && !Duplicate(mi.log, m.seqNo) && m.version >= 3
                        && m.signature == Signed(m.peer.id, Body(session, m.version, m.timestampMs, m.peer.id, m.kind,
                                                                 m.action, m.payload))
                        && m.hostSig == Signed(host, Sequencing(session, m.seqNo, m.signature));
            && next.disk == (if good && io != Failed then mi.disk + [m] else mi.disk)
            && (if good && io == Done then multiset(next.log) == multiset(mi.log) + multiset{m} else next.log == mi.log)
  {
    var pos := PartitionPoint(mi.log, m.seqNo);
    assert mi.log == mi.log[..pos] + mi.log[pos..];
  }
}
