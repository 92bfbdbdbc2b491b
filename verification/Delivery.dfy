/** Delivering workspace envelopes to one peer: retrying tasks that share a lane, racing newer publishes. */
module Delivery {
  import opened Protocol

  const RETRIES: nat := 5

  /** The retry driver, over what each currency check and each send reports. It stops at the first send
      that succeeds and at the first check that finds the delivery superseded, and never sends more than
      `retries` times. */
  method RunDelivery(retries: nat, current: seq<bool>, results: seq<bool>) returns (sends: nat, delivered: bool)
    requires |current| >= retries && |results| >= retries
    ensures sends <= retries
    ensures forall i :: 0 <= i < sends ==> current[i] && (results[i] ==> i == sends - 1)
    ensures delivered <==> sends > 0 && results[sends - 1]
    ensures !delivered && sends < retries ==> !current[sends]
  {
    sends, delivered := 0, false;
    for attempt := 0 to retries
      invariant sends == attempt && !delivered
      invariant forall i :: 0 <= i < attempt ==> current[i] && !results[i]
    {
      if !current[attempt] { return; }
      sends := sends + 1;
      if results[attempt] { return sends, true; }
    }
  }

  /** `origin` is the publish a task was spawned by or, at admission, the one it redelivers. */
  datatype Task = Task(bytes: Bytes, origin: nat, tries: nat, done: bool)

  /** The task inside the lane, and the newest publish its currency check saw. */
  datatype Hold = Hold(task: nat, seen: nat)

  datatype Landing = Landing(bytes: Bytes, origin: nat, seen: nat)

  datatype World = World(published: seq<Bytes>, member: bool, tasks: seq<Task>, lane: Option<Hold>,
                         landed: seq<Landing>, mirror: Option<Bytes>)

  const START := World([], false, [], None, [], None)

  datatype Event =
    | Publish(bytes: Bytes, stored: bool)
    | Admit
    | Depart
    | Enter(task: nat)
    | Land(stored: bool)
    | Leave(acked: bool)

  function Spawn(w: World): World
    requires w.published != []
  {
    if !w.member then w
    else w.(tasks := w.tasks + [Task(w.published[|w.published| - 1], |w.published| - 1, 0, false)])
  }

  /** The staleness rule. */
  predicate StillCurrent(member: bool, current: Option<Bytes>, delivering: Bytes) {
    member && current == Some(delivering)
  }

  function Newest(w: World): Option<Bytes> {
    if w.published == [] then None else Some(w.published[|w.published| - 1])
  }

  function Step(w: World, e: Event): World {
    match e
    case Publish(bytes, stored) => if stored then Spawn(w.(published := w.published + [bytes])) else w
    case Admit =>
      var now := w.(member := true);
      if w.published == [] then now else Spawn(now)
    case Depart => w.(member := false)
    case Enter(i) =>
      if w.lane.Some? || i >= |w.tasks| || w.tasks[i].done then w
      else if StillCurrent(w.member, Newest(w), w.tasks[i].bytes) then w.(lane := Some(Hold(i, |w.published| - 1)))
      else w.(tasks := w.tasks[i := w.tasks[i].(done := true)])
    case Land(stored) =>
      if w.lane == None || w.lane.value.task >= |w.tasks| then w
      else
        var t := w.tasks[w.lane.value.task];
        if w.mirror == Some(t.bytes) then w.(landed := w.landed + [Landing(t.bytes, t.origin, w.lane.value.seen)])
        else if !stored then w
        else w.(landed := w.landed + [Landing(t.bytes, t.origin, w.lane.value.seen)], mirror := Some(t.bytes))
    case Leave(acked) =>
      if w.lane == None || w.lane.value.task >= |w.tasks| then w
      else
        var i := w.lane.value.task;
        var tries := w.tasks[i].tries + 1;
        w.(lane := None, tasks := w.tasks[i := w.tasks[i].(tries := tries, done := acked || tries >= RETRIES)])
  }

  function Run(events: seq<Event>): World {
    if events == [] then START else Step(Run(events[..|events| - 1]), events[|events| - 1])
  }

  predicate TaskInv(w: World) {
    && (forall i :: 0 <= i < |w.tasks| ==>
          var t := w.tasks[i];
          t.origin < |w.published| && w.published[t.origin] == t.bytes && t.tries <= RETRIES
              && (t.tries == RETRIES ==> t.done))
    && (w.lane.Some? ==>
          var h := w.lane.value;
          h.task < |w.tasks| && !w.tasks[h.task].done && h.seen < |w.published|
          && w.tasks[h.task].origin <= h.seen && w.published[h.seen] == w.tasks[h.task].bytes)
  }

  predicate LandingInv(w: World, l: Landing) {
    l.origin <= l.seen < |w.published| && w.published[l.seen] == l.bytes == w.published[l.origin]
    && (w.lane.Some? ==> l.seen <= w.lane.value.seen)
  }

  predicate Ascend(landed: seq<Landing>) {
    forall i, j :: 0 <= i < j < |landed| ==> landed[i].seen <= landed[j].seen
  }

  predicate LandedInv(w: World) {
    && (forall l :: l in w.landed ==> LandingInv(w, l))
    && Ascend(w.landed)
    && w.mirror == if w.landed == [] then None else Some(w.landed[|w.landed| - 1].bytes)
  }

  lemma StepKeepsTasks(w: World, e: Event)
    requires TaskInv(w)
    ensures TaskInv(Step(w, e))
  { }

  /** Only a landing changes what has landed; publishes are never taken back, and a lane entered now is
      not behind any landing. */
  lemma StepEffect(w: World, e: Event)
    requires TaskInv(w)
    ensures var next := Step(w, e);
            && w.published <= next.published
            && (next.lane.Some? ==> next.lane == w.lane || next.lane.value.seen == |w.published| - 1)
            && ((next.landed == w.landed && next.mirror == w.mirror)
                || (w.lane.Some? && next.lane == w.lane
                    && var h := w.lane.value;
                    var l := Landing(w.tasks[h.task].bytes, w.tasks[h.task].origin, h.seen);
                    next.landed == w.landed + [l] && next.mirror == Some(l.bytes)))
  { }

  lemma StepKeepsLanded(w: World, e: Event)
    requires TaskInv(w) && LandedInv(w)
    ensures LandedInv(Step(w, e))
  {
    StepEffect(w, e);
    var next := Step(w, e);
    forall l | l in w.landed ensures LandingInv(next, l) { assert LandingInv(w, l); }
    if next.landed != w.landed {
      forall l | l in next.landed ensures LandingInv(next, l) { }
      assert Ascend(next.landed) by {
        forall i | 0 <= i < |w.landed| ensures w.landed[i].seen <= w.lane.value.seen { assert w.landed[i] in w.landed; }
      }
    }
  }

  lemma {:induction false} RunInv(events: seq<Event>)
    ensures TaskInv(Run(events)) && LandedInv(Run(events))
  {
    if events != [] {
      RunInv(events[..|events| - 1]);
      StepKeepsTasks(Run(events[..|events| - 1]), events[|events| - 1]);
      StepKeepsLanded(Run(events[..|events| - 1]), events[|events| - 1]);
    }
  }

  /** For every interleaving of publishes, admissions, departures and retrying tasks: what lands is some
      publish's envelope, no landing is of an older publish than one before it, the mirror keeps the
      envelope landed last, and no task sends more than its retries. */
  lemma NeverBackwards(events: seq<Event>)
    ensures var w := Run(events);
            && (forall i :: 0 <= i < |w.landed| ==>
                  w.landed[i].seen < |w.published| && w.landed[i].bytes == w.published[w.landed[i].seen])
            && Ascend(w.landed)
            && (w.landed != [] ==> w.mirror == Some(w.landed[|w.landed| - 1].bytes))
            && (forall i :: 0 <= i < |w.tasks| ==> w.tasks[i].tries <= RETRIES)
  {
    RunInv(events);
    var w := Run(events);
    forall i | 0 <= i < |w.landed| ensures LandingInv(w, w.landed[i]) { assert w.landed[i] in w.landed; }
  }

  // ---- Counting by the publish that spawned the task ----

  predicate Distinct(s: seq<Bytes>) { forall i, j :: 0 <= i < j < |s| ==> s[i] != s[j] }

  predicate OriginsAscend(w: World) {
    forall i, j :: 0 <= i < j < |w.landed| ==> w.landed[i].origin <= w.landed[j].origin
  }

  /** The stored publishes of a run, which is all of it the host chooses. */
  function Published(events: seq<Event>): seq<Bytes> {
    if events == [] then []
    else
      var e := events[|events| - 1];
      Published(events[..|events| - 1]) + if e.Publish? && e.stored then [e.bytes] else []
  }

  lemma {:induction false} PublishedIs(events: seq<Event>)
    ensures Run(events).published == Published(events)
  {
    if events != [] { PublishedIs(events[..|events| - 1]); }
  }

  /** One admission, then the publishes in order. */
  function Straight(ps: seq<Bytes>): seq<Event> {
    if ps == [] then [Admit] else Straight(ps[..|ps| - 1]) + [Publish(ps[|ps| - 1], true)]
  }

  function FreshTasks(ps: seq<Bytes>): seq<Task> {
    if ps == [] then [] else FreshTasks(ps[..|ps| - 1]) + [Task(ps[|ps| - 1], |ps| - 1, 0, false)]
  }

  lemma {:induction false} FreshTaskAt(ps: seq<Bytes>, i: nat)
    requires i < |ps|
    ensures |FreshTasks(ps)| == |ps| && FreshTasks(ps)[i] == Task(ps[i], i, 0, false)
  {
    if |ps| > 1 { FreshTaskAt(ps[..|ps| - 1], if i < |ps| - 1 then i else 0); }
  }

  lemma PublishStep(w: World, bytes: Bytes)
    requires w.member
    ensures Step(w, Publish(bytes, true)) ==
              w.(published := w.published + [bytes], tasks := w.tasks + [Task(bytes, |w.published|, 0, false)])
  { }

  lemma {:induction false} StraightPublishes(ps: seq<Bytes>)
    ensures Published(Straight(ps)) == ps
  {
    if ps == [] {
      assert [Admit][..0] == [];
    } else {
      StraightPublishes(ps[..|ps| - 1]);
      RunStep(Straight(ps[..|ps| - 1]), Publish(ps[|ps| - 1], true));
      assert ps == ps[..|ps| - 1] + [ps[|ps| - 1]];
    }
  }

  lemma {:induction false} StraightRun(ps: seq<Bytes>)
    ensures Run(Straight(ps)) == World(ps, true, FreshTasks(ps), None, [], None)
  {
    if ps == [] {
      assert Straight(ps) == [] + [Admit];
      RunStep([], Admit);
    } else {
      var front, last := ps[..|ps| - 1], Publish(ps[|ps| - 1], true);
      StraightRun(front);
      assert Run(Straight(ps)) == Step(Run(Straight(front)), last) by { RunStep(Straight(front), last); }
      PublishStep(Run(Straight(front)), ps[|ps| - 1]);
      assert ps == front + [ps[|ps| - 1]];
    }
  }

  lemma RunStep(events: seq<Event>, e: Event)
    ensures Run(events + [e]) == Step(Run(events), e)
    ensures Published(events + [e]) == Published(events) + if e.Publish? && e.stored then [e.bytes] else []
  {
    assert (events + [e])[..|events|] == events;
  }

  /** Two tasks for the same bytes: the younger may land first. */
  lemma RepeatLandsOutOfOrder(ps: seq<Bytes>, i: nat, j: nat) returns (events: seq<Event>)
    requires i < j == |ps| - 1 && ps[i] == ps[j]
    ensures Published(events) == ps && !OriginsAscend(Run(events))
  {
    events := Straight(ps);
    StraightRun(ps);
    StraightPublishes(ps);
    FreshTaskAt(ps, i);
    FreshTaskAt(ps, j);
    RunStep(events, Enter(j));
    events := events + [Enter(j)];
    RunStep(events, Land(true));
    events := events + [Land(true)];
    RunStep(events, Leave(true));
    events := events + [Leave(true)];
    RunStep(events, Enter(i));
    events := events + [Enter(i)];
    RunStep(events, Land(true));
    events := events + [Land(true)];
    var w := Run(events);
    assert w.landed[0].origin == j && w.landed[1].origin == i;
  }

  /** Ordered by the publish that spawned each task, landings of `ps` never go backwards, whatever the
      interleaving, exactly when no envelope is published twice. */
  lemma OriginsAscendIff(ps: seq<Bytes>)
    ensures Distinct(ps) <==>
              forall events :: Published(events) <= ps ==> OriginsAscend(Run(events))
  {
    if Distinct(ps) {
      forall events | Published(events) <= ps ensures OriginsAscend(Run(events)) {
        RunInv(events);
        PublishedIs(events);
        DistinctOrigins(Run(events));
      }
    } else {
      var i, j :| 0 <= i < j < |ps| && ps[i] == ps[j];
      var events := RepeatLandsOutOfOrder(ps[..j + 1], i, j);
      assert Published(events) <= ps;
    }
  }

  lemma DistinctOrigins(w: World)
    requires LandedInv(w) && Distinct(w.published)
    ensures OriginsAscend(w)
  {
    forall i | 0 <= i < |w.landed| ensures w.landed[i].origin == w.landed[i].seen {
      assert LandingInv(w, w.landed[i]) by { assert w.landed[i] in w.landed; }
    }
  }

  // ---- What is delivered ----

  /** A task takes the lane if and only if the lane is free, the task has not ended, the peer is a member, and the
      task's envelope is still the newest published; else, if the lane was free, it ends. */
  lemma EntersIff(w: World, i: nat)
    requires w.lane == None && i < |w.tasks| && !w.tasks[i].done
    ensures var next := Step(w, Enter(i));
            var ps := w.published;
            if w.member && ps != [] && ps[|ps| - 1] == w.tasks[i].bytes
            then next == w.(lane := Some(Hold(i, |ps| - 1)))
            else next == w.(tasks := w.tasks[i := w.tasks[i].(done := true)])
  { }

  /** An admission makes a member and, if anything was published, starts a delivery of the newest envelope. */
  lemma AdmissionDelivers(w: World)
    ensures var next := Step(w, Admit);
            var ps := w.published;
            && next.member && next.published == ps
            && next.tasks == w.tasks + (if ps == [] then [] else [Task(ps[|ps| - 1], |ps| - 1, 0, false)])
  { }

  /** While the peer is away nothing takes the lane, and nothing published starts a delivery. */
  lemma AwayGetsNothing(w: World, e: Event)
    requires !w.member && w.lane == None
    ensures Step(w, e).lane == None && Step(w, e).landed == w.landed && Step(w, e).mirror == w.mirror
    ensures e.Publish? ==> Step(w, e).tasks == w.tasks
  { }

  function Continue(w: World, events: seq<Event>): World {
    if events == [] then w else Step(Continue(w, events[..|events| - 1]), events[|events| - 1])
  }

  /** A peer that departs while nothing is in the lane receives nothing until it is admitted again, whatever is
      published and whoever tries. */
  lemma {:induction false} DepartedGetsNothing(w: World, later: seq<Event>)
    requires w.lane == None && Admit !in later
    ensures var next := Continue(Step(w, Depart), later);
            !next.member && next.lane == None && next.landed == w.landed && next.mirror == w.mirror
  {
    if later != [] {
      assert later[|later| - 1] in later;
      DepartedGetsNothing(w, later[..|later| - 1]);
    }
  }

  /** From any state in which the lane is free: a stored publish to a member, whose task gets the lane and whose send
      arrives, leaves the peer with that envelope. So does an admission, with the newest. */
  lemma DeliveryArrives(w: World, e: Event)
    requires w.lane == None
    requires (e.Publish? && e.stored && w.member) || (e == Admit && w.published != [])
    ensures var next := Step(w, e);
            && next.published != [] && next.tasks != []
            && Step(Step(next, Enter(|next.tasks| - 1)), Land(true)).mirror ==
                 Some(next.published[|next.published| - 1])
            && next.published == if e.Publish? then w.published + [e.bytes] else w.published
  {
    LastTaskArrives(Step(w, e));
  }

  lemma LastTaskArrives(w: World)
    requires w.lane == None && w.member && w.published != [] && w.tasks != []
    requires var t := w.tasks[|w.tasks| - 1]; !t.done && t.bytes == w.published[|w.published| - 1]
    ensures Step(Step(w, Enter(|w.tasks| - 1)), Land(true)).mirror == Some(w.published[|w.published| - 1])
  { }

  /** A task whose send was answered is over, and one that was not tries again, at most five times in all. */
  lemma LeavingEnds(w: World, acked: bool)
    requires w.lane.Some? && w.lane.value.task < |w.tasks|
    ensures var next, i := Step(w, Leave(acked)), w.lane.value.task;
            && next.lane == None && next.tasks[i].tries == w.tasks[i].tries + 1
            && (next.tasks[i].done <==> acked || w.tasks[i].tries >= 4)
  { }
}
