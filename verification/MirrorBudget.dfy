/** The byte budget on inbound frames that were spawned but not yet applied. */
module MirrorBudget {
  import opened Protocol
  import opened Capabilities
  import opened Mirrors

  const FRAME_COST: nat := 1024

  /** A spawned apply task retains its frame; `size` is the payload length. */
  datatype Task = Task(frame: Message, size: nat)

  datatype Gate = Gate(mirror: Mirror, tasks: seq<Task>, available: nat)

  datatype GateEvent =
    | Arrive(frame: Message, size: nat, contended: bool)
    | Finish(index: nat, io: Io)

  function Min(a: nat, b: nat): nat { if a < b then a else b }

  /** Permits one frame holds: clamped to the budget so that an oversized frame can still run, then to 32 bits. */
  function Cost(budget: nat, size: nat): nat { Min(Min(FRAME_COST + size, budget), U32_MAX) }

  function TotalCost(budget: nat, tasks: seq<Task>): nat {
    if tasks == [] then 0 else TotalCost(budget, tasks[..|tasks| - 1]) + Cost(budget, tasks[|tasks| - 1].size)
  }

  predicate Unclamped(budget: nat, t: Task) { FRAME_COST + t.size <= Min(budget, U32_MAX) }

  /** Payload bytes retained by tasks whose cost was not clamped. */
  function UnclampedBytes(budget: nat, tasks: seq<Task>): nat {
    if tasks == [] then 0
    else
      var t := tasks[|tasks| - 1];
      UnclampedBytes(budget, tasks[..|tasks| - 1]) + if Unclamped(budget, t) then t.size else 0
  }

  function GateStep(host: PeerId, session: SessionId, budget: nat, g: Gate, e: GateEvent): Gate {
    match e
    case Arrive(m, size, contended) =>
      var cost := Cost(budget, size);
      if !contended && Duplicate(g.mirror.log, m.seqNo) then g
      else if cost > g.available then g
      else Gate(g.mirror, g.tasks + [Task(m, size)], g.available - cost)
    case Finish(i, io) =>
      if i >= |g.tasks| then g
      else
        var t := g.tasks[i];
        Gate(ApplyInbound(host, session, g.mirror, t.frame, io), g.tasks[..i] + g.tasks[i + 1..],
             g.available + Cost(budget, t.size))
  }

  function GateRun(host: PeerId, session: SessionId, budget: nat, events: seq<GateEvent>): Gate {
    if events == [] then Gate(EMPTY, [], budget)
    else GateStep(host, session, budget, GateRun(host, session, budget, events[..|events| - 1]), events[|events| - 1])
  }

  /** The callback the bridge hands every inbound frame to, and the completion of a spawned task. */
  class ApplyGate {
    const host: PeerId
    const session: SessionId
    const budget: nat
    var mirror: Mirror
    var tasks: seq<Task>
    var available: nat

    constructor (host: PeerId, session: SessionId, budget: nat)
      ensures this.host == host && this.session == session && this.budget == budget
      ensures View() == Gate(EMPTY, [], budget)
    {
      this.host, this.session, this.budget := host, session, budget;
      mirror, tasks, available := EMPTY, [], budget;
    }

    ghost function View(): Gate reads this { Gate(mirror, tasks, available) }

    method OnMessage(m: Message, size: nat, contended: bool) returns (spawned: bool)
      modifies this
      ensures View() == GateStep(host, session, budget, old(View()), Arrive(m, size, contended))
      ensures spawned <==> |tasks| == |old(tasks)| + 1
    {
      spawned := false;
      if !contended {
        var pos := PartitionPoint(mirror.log, m.seqNo);
        if pos < |mirror.log| && mirror.log[pos].seqNo == m.seqNo { return; }
      }
      var cost := FRAME_COST + size;
      if budget < cost { cost := budget; }
      if U32_MAX < cost { cost := U32_MAX; }
      if available < cost { return; }
      available := available - cost;
      tasks := tasks + [Task(m, size)];
      spawned := true;
    }

    method Complete(i: nat, io: Io)
      requires i < |tasks|
      modifies this
      ensures View() == GateStep(host, session, budget, old(View()), Finish(i, io))
    {
      mirror := ApplyInbound(host, session, mirror, tasks[i].frame, io);
      available := available + Cost(budget, tasks[i].size);
      tasks := tasks[..i] + tasks[i + 1..];
    }
  }

  lemma {:induction false} TotalCostRemove(budget: nat, tasks: seq<Task>, i: nat)
    requires i < |tasks|
    ensures TotalCost(budget, tasks) == TotalCost(budget, tasks[..i] + tasks[i + 1..]) + Cost(budget, tasks[i].size)
  {
    var init, t := tasks[..|tasks| - 1], tasks[|tasks| - 1];
    if i == |tasks| - 1 {
      assert tasks[..i] + tasks[i + 1..] == init;
    } else {
      TotalCostRemove(budget, init, i);
      var rest := tasks[..i] + tasks[i + 1..];
      assert rest[..|rest| - 1] == init[..i] + init[i + 1..];
    }
  }

  /** Permits are conserved: those held by tasks and those left always make up the budget. */
  lemma {:induction false} PermitsConserved(host: PeerId, session: SessionId, budget: nat, events: seq<GateEvent>)
    ensures var g := GateRun(host, session, budget, events); g.available + TotalCost(budget, g.tasks) == budget
  {
    if events != [] {
      var init, e := events[..|events| - 1], events[|events| - 1];
      PermitsConserved(host, session, budget, init);
      var g := GateRun(host, session, budget, init);
      match e
      case Arrive(m, size, _) => assert (g.tasks + [Task(m, size)])[..|g.tasks|] == g.tasks;
      case Finish(i, _) => if i < |g.tasks| { TotalCostRemove(budget, g.tasks, i); }
    }
  }

  lemma {:induction false} CostBounds(budget: nat, tasks: seq<Task>)
    ensures |tasks| * Min(FRAME_COST, budget) <= TotalCost(budget, tasks)
    ensures budget >= FRAME_COST ==> UnclampedBytes(budget, tasks) + FRAME_COST * |tasks| <= TotalCost(budget, tasks)
  {
    if tasks != [] { CostBounds(budget, tasks[..|tasks| - 1]); }
  }

  lemma FitsWithin(n: nat, floor: nat, budget: nat)
    requires 0 < floor <= budget && n * floor <= budget
    ensures n <= budget / floor && (floor == budget ==> n <= 1)
  {
    assert n * floor < (budget / floor + 1) * floor;
  }

  /** For every positive budget and every sequence of arrivals and completions: the number of tasks
      times the frame floor is within the budget, and so are the retained payload bytes. */
  lemma InflightBounded(host: PeerId, session: SessionId, budget: nat, events: seq<GateEvent>)
    requires budget > 0
    ensures var tasks := GateRun(host, session, budget, events).tasks;
            && |tasks| <= budget / Min(FRAME_COST, budget)
            && (budget >= FRAME_COST ==> UnclampedBytes(budget, tasks) <= budget - FRAME_COST * |tasks|)
            && (budget < FRAME_COST ==> |tasks| <= 1)
  {
    var tasks := GateRun(host, session, budget, events).tasks;
    PermitsConserved(host, session, budget, events);
    CostBounds(budget, tasks);
    FitsWithin(|tasks|, Min(FRAME_COST, budget), budget);
  }

  /** A sequence number once found by the early check is found ever after, on any log, sorted or not. */
  lemma DuplicateStays(host: PeerId, session: SessionId, mi: Mirror, m: Message, io: Io, q: nat)
    requires Duplicate(mi.log, q)
    ensures Duplicate(ApplyInbound(host, session, mi, m, io).log, q)
  {
    var next := ApplyInbound(host, session, mi, m, io);
    if next.log != mi.log {
      var p, at := PartitionPoint(mi.log, q), PartitionPoint(mi.log, m.seqNo);
      var p' := if at <= p then p + 1 else p;
      assert next.log[p'] == mi.log[p];
      assert forall i :: 0 <= i < p' ==> next.log[i].seqNo < q;
      assert PartitionPoint(next.log, q) == p';
    }
  }

  lemma {:induction false} DuplicateStaysRun(host: PeerId, session: SessionId, mi: Mirror, events: seq<Event>, q: nat)
    requires Duplicate(mi.log, q) && NoRestart(events)
    ensures Duplicate(After(host, session, mi, events).log, q)
  {
    if events != [] {
      var init, e := events[..|events| - 1], events[|events| - 1];
      DuplicateStaysRun(host, session, mi, init, q);
      DuplicateStays(host, session, After(host, session, mi, init), e.frame, e.io, q);
    }
  }

  lemma {:induction false} AfterConcat(host: PeerId, session: SessionId, mi: Mirror, a: seq<Event>, b: seq<Event>)
    ensures After(host, session, mi, a + b) == After(host, session, After(host, session, mi, a), b)
  {
    if b == [] {
      assert a + b == a;
    } else {
      AfterConcat(host, session, mi, a, b[..|b| - 1]);
      assert (a + b)[..|a + b| - 1] == a + b[..|b| - 1];
    }
  }

  /** The early check is invisible: a frame it sheds, had it been spawned and run at any later
      point among any other applications, would have left every mirror state as it was. */
  lemma ShedFrameIsInert(host: PeerId, session: SessionId, mi: Mirror, shed: Message, io: Io,
                         before: seq<Event>, after: seq<Event>)
    requires Duplicate(mi.log, shed.seqNo) && NoRestart(before)
    ensures After(host, session, mi, before + [Deliver(shed, io)] + after) == After(host, session, mi, before + after)
  {
    var mid := After(host, session, mi, before);
    DuplicateStaysRun(host, session, mi, before, shed.seqNo);
    AfterOne(host, session, mid, Deliver(shed, io));
    AfterConcat(host, session, mi, before, [Deliver(shed, io)]);
    AfterConcat(host, session, mi, before + [Deliver(shed, io)], after);
    AfterConcat(host, session, mi, before, after);
  }

  // ---- The gate's own runs ----

  /** The frames whose tasks have finished, in the order in which they finished. */
  function Finished(host: PeerId, session: SessionId, budget: nat, events: seq<GateEvent>): seq<Event> {
    if events == [] then []
    else
      var init, e := events[..|events| - 1], events[|events| - 1];
      var g := GateRun(host, session, budget, init);
      Finished(host, session, budget, init) +
      if e.Finish? && e.index < |g.tasks| then [Deliver(g.tasks[e.index].frame, e.io)] else []
  }

  /** The mirror behind the gate is the mirror of the deliveries that got through it. */
  lemma {:induction false} GateIsAMirror(host: PeerId, session: SessionId, budget: nat, events: seq<GateEvent>)
    ensures GateRun(host, session, budget, events).mirror == Run(host, session, Finished(host, session, budget, events))
    ensures NoRestart(Finished(host, session, budget, events))
  {
    if events != [] {
      var init := events[..|events| - 1];
      GateIsAMirror(host, session, budget, init);
      var was, all := Finished(host, session, budget, init), Finished(host, session, budget, events);
      if all != was { assert all[..|all| - 1] == was; }
    }
  }

  /** Early sheds at the `n`-th event: the frame is uncontended and its number held. */
  predicate ShedsAt(host: PeerId, session: SessionId, budget: nat, events: seq<GateEvent>, n: nat)
    requires n < |events|
  {
    events[n].Arrive? && !events[n].contended
    && Duplicate(GateRun(host, session, budget, events[..n]).mirror.log, events[n].frame.seqNo)
  }

  lemma GateRunStep(host: PeerId, session: SessionId, budget: nat, events: seq<GateEvent>, e: GateEvent)
    ensures GateRun(host, session, budget, events + [e]) ==
              GateStep(host, session, budget, GateRun(host, session, budget, events), e)
  {
    assert (events + [e])[..|events|] == events;
  }

  function GateFrom(host: PeerId, session: SessionId, budget: nat, g: Gate, events: seq<GateEvent>): Gate {
    if events == [] then g
    else GateStep(host, session, budget, GateFrom(host, session, budget, g, events[..|events| - 1]),
        events[|events| - 1])
  }

  lemma {:induction false} GateRunConcat(host: PeerId, session: SessionId, budget: nat, a: seq<GateEvent>,
      more: seq<GateEvent>)
    ensures GateRun(host, session, budget, a + more) == GateFrom(host, session, budget, GateRun(host, session,
        budget, a), more)
  {
    if more == [] {
      assert a + more == a;
    } else {
      var init, e := more[..|more| - 1], more[|more| - 1];
      GateRunConcat(host, session, budget, a, init);
      assert a + more == a + init + [e];
      GateRunStep(host, session, budget, a + init, e);
    }
  }

  /** Leaving out an arrival that the early check shed leaves the whole run as it was; and had it been let in
      instead, its task would have changed nothing, at whatever later moment it had finished. */
  lemma ShedArrivalIsInert(host: PeerId, session: SessionId, budget: nat, events: seq<GateEvent>, n: nat, io: Io,
      later: seq<Event>)
    requires n < |events| && ShedsAt(host, session, budget, events, n) && NoRestart(later)
    ensures GateRun(host, session, budget, events) == GateRun(host, session, budget, events[..n] + events[n + 1..])
    ensures var mi := GateRun(host, session, budget, events[..n]).mirror;
            After(host, session, mi, later + [Deliver(events[n].frame, io)]) == After(host, session, mi, later)
  {
    var upTo := events[..n + 1];
    assert upTo[..n] == events[..n];
    assert GateRun(host, session, budget, upTo) == GateRun(host, session, budget, events[..n]);
    GateRunConcat(host, session, budget, upTo, events[n + 1..]);
    GateRunConcat(host, session, budget, events[..n], events[n + 1..]);
    assert upTo + events[n + 1..] == events;
    var mi := GateRun(host, session, budget, events[..n]).mirror;
    ShedFrameIsInert(host, session, mi, events[n].frame, io, later, []);
    assert later + [Deliver(events[n].frame, io)] + [] == later + [Deliver(events[n].frame, io)];
    assert later + [] == later;
  }

  /** A frame whose number the mirror does not hold is spawned if and only if the permits for its payload and 1024
      bytes more, but never more than the whole budget nor than 32 bits count, are free; it then holds them. */
  lemma SpawnedIff(host: PeerId, session: SessionId, budget: nat, g: Gate, m: Message, size: nat, contended: bool)
    requires !Holds(g.mirror.log, m.seqNo)
    ensures var next := GateStep(host, session, budget, g, Arrive(m, size, contended));
            var fee := if 1024 + size <= budget then 1024 + size else budget;
            var cost := if fee <= 0xFFFF_FFFF then fee else 0xFFFF_FFFF;
            next == if cost <= g.available then Gate(g.mirror, g.tasks + [Task(m, size)], g.available - cost) else g
  {
  }

  /** So no frame is ever shed by an idle gate but one the mirror holds, and none is held for being large. */
  lemma IdleGateTakesAnyFrame(host: PeerId, session: SessionId, budget: nat, events: seq<GateEvent>, m: Message,
                              size: nat, contended: bool)
    requires var g := GateRun(host, session, budget, events); g.tasks == [] && !Holds(g.mirror.log, m.seqNo)
    ensures GateRun(host, session, budget, events + [Arrive(m, size, contended)]).tasks == [Task(m, size)]
  {
    var e := Arrive(m, size, contended);
    PermitsConserved(host, session, budget, events);
    SpawnedIff(host, session, budget, GateRun(host, session, budget, events), m, size, contended);
    assert (events + [e])[..|events|] == events;
  }
}
