/** The bridge's session slots: reserve before an asynchronous subscribe, finalize after it, and forget at
    any moment between. */
module Slots {
  import opened Protocol

  datatype Slot<T> = Reserved(generation: nat) | Live(payload: T)

  datatype Table<T> = Table(slots: map<SessionId, Slot<T>>, nextGeneration: nat)

  predicate Ours<T>(t: Table<T>, s: SessionId, generation: nat) {
    s in t.slots && t.slots[s].Reserved? && t.slots[s].generation == generation
  }

  /** The counter moves even when the slot is taken. */
  function Reserve<T>(t: Table<T>, s: SessionId): (Table<T>, Option<nat>) {
    var bumped := t.(nextGeneration := t.nextGeneration + 1);
    if s in t.slots then (bumped, None)
    else (bumped.(slots := t.slots[s := Slot.Reserved(t.nextGeneration)]), Some(t.nextGeneration))
  }

  /** Installs, or hands the payload back. */
  function Finalize<T>(t: Table<T>, s: SessionId, generation: nat, payload: T): (Table<T>, Option<T>) {
    if Ours(t, s, generation) then (t.(slots := t.slots[s := Live(payload)]), None)
    else (t, Some(payload))
  }

  function Forget<T>(t: Table<T>, s: SessionId): (Table<T>, Option<T>) {
    (t.(slots := t.slots - {s}), if s in t.slots && t.slots[s].Live? then Some(t.slots[s].payload) else None)
  }

  function Release<T>(t: Table<T>, s: SessionId, generation: nat): Table<T> {
    if Ours(t, s, generation) then t.(slots := t.slots - {s}) else t
  }

  class SessionSlots<T(==)> {
    var inner: map<SessionId, Slot<T>>
    var nextGeneration: nat

    constructor ()
      ensures View() == Table(map[], 0)
    {
      inner, nextGeneration := map[], 0;
    }

    ghost function View(): Table<T> reads this { Table(inner, nextGeneration) }

    method ReserveSlot(s: SessionId) returns (reservation: Option<nat>)
      modifies this
      ensures (View(), reservation) == Reserve(old(View()), s)
    {
      var generation := nextGeneration;
      nextGeneration := nextGeneration + 1;
      if s in inner { return None; }
      inner := inner[s := Slot.Reserved(generation)];
      return Some(generation);
    }

    method FinalizeSlot(s: SessionId, generation: nat, payload: T) returns (rejected: Option<T>)
      modifies this
      ensures (View(), rejected) == Finalize(old(View()), s, generation, payload)
    {
      if s !in inner { return Some(payload); }
      match inner[s]
      case Reserved(g) =>
        if g != generation { return Some(payload); }
        inner := inner[s := Live(payload)];
        return None;
      case Live(_) => return Some(payload);
    }

    method ForgetSlot(s: SessionId) returns (live: Option<T>)
      modifies this
      ensures (View(), live) == Forget(old(View()), s)
    {
      live := None;
      if s in inner && inner[s].Live? { live := Some(inner[s].payload); }
      inner := inner - {s};
    }

    method DropReservation(s: SessionId, generation: nat, finalized: bool)
      modifies this
      ensures View() == if finalized then old(View()) else Release(old(View()), s, generation)
    {
      if finalized { return; }
      if s in inner {
        match inner[s]
        case Reserved(g) => if g == generation { inner := inner - {s}; }
        case Live(_) =>
      }
    }
  }

  // ---- Every interleaving of subscribes and teardowns ----

  /** A spawned forwarder task, identified by when it was spawned. */
  datatype Task = Task(session: SessionId, number: nat)

  /** A subscribe in flight: the reservation it holds and, once spawned, the task in its hand. */
  datatype Claim = Claim(session: SessionId, hand: Option<Task>)

  datatype World = World(table: Table<Task>, claims: map<nat, Claim>, spawned: nat, aborted: seq<Task>)

  const START := World(Table(map[], 0), map[], 0, [])

  datatype Event =
    | Subscribe(session: SessionId)
    | Spawn(generation: nat)
    | Complete(generation: nat)
    | Abandon(generation: nat)
    | Teardown(session: SessionId)

  function Step(w: World, e: Event): World {
    match e
    case Subscribe(s) =>
      var (t, g) := Reserve(w.table, s);
      w.(table := t, claims := if g == None then w.claims else w.claims[g.value := Claim(s, None)])
    case Spawn(g) =>
      if g !in w.claims || w.claims[g].hand.Some? then w
      else
        var c := w.claims[g];
        w.(claims := w.claims[g := c.(hand := Some(Task(c.session, w.spawned)))], spawned := w.spawned + 1)
    case Complete(g) =>
      if g !in w.claims || w.claims[g].hand == None then w
      else
        var c := w.claims[g];
        var (t, rejected) := Finalize(w.table, c.session, g, c.hand.value);
        w.(table := if rejected == None then t else Release(t, c.session, g), claims := w.claims - {g},
           aborted := w.aborted + Handed(rejected))
    case Abandon(g) =>
      if g !in w.claims || w.claims[g].hand.Some? then w
      else w.(table := Release(w.table, w.claims[g].session, g), claims := w.claims - {g})
    case Teardown(s) =>
      var (t, live) := Forget(w.table, s);
      w.(table := t, aborted := w.aborted + Handed(live))
  }

  function Handed(t: Option<Task>): seq<Task> { if t == None then [] else [t.value] }

  function Run(events: seq<Event>): World {
    if events == [] then START else Step(Run(events[..|events| - 1]), events[|events| - 1])
  }

  datatype Place = Hand(generation: nat) | InSlot(session: SessionId) | Aborted(index: nat)

  /** Task number `n` is at `place`. */
  predicate At(w: World, place: Place, n: nat) {
    match place
    case Hand(g) => g in w.claims && w.claims[g].hand.Some? && w.claims[g].hand.value.number == n
    case InSlot(s) => s in w.table.slots && w.table.slots[s].Live? && w.table.slots[s].payload.number == n
    case Aborted(i) => i < |w.aborted| && w.aborted[i].number == n
  }

  /** A reservation's generation was issued, the claim holding it is still in flight, and whatever a claim
      or a slot holds was spawned for that session. */
  predicate ClaimsInv(w: World) {
    && (forall g :: g in w.claims ==>
          && g < w.table.nextGeneration
          && (w.claims[g].hand.Some? ==> w.claims[g].hand.value.session == w.claims[g].session))
    && (forall s :: s in w.table.slots ==>
          match w.table.slots[s]
          case Reserved(g) => g in w.claims && w.claims[g].session == s
          case Live(task) => task.session == s)
  }

  lemma StepKeepsClaims(w: World, e: Event)
    requires ClaimsInv(w)
    ensures ClaimsInv(Step(w, e))
  { }

  /** Where a step takes a task it moves: out of a hand into its slot or back for abort, or out of a slot
      back for abort. */
  function MoveTo(w: World, e: Event): Option<(Place, Place)> {
    match e
    case Complete(g) =>
      if g in w.claims && w.claims[g].hand.Some? then
        Some((Hand(g), if Ours(w.table, w.claims[g].session, g) then InSlot(w.claims[g].session)
            else Aborted(|w.aborted|)))
      else None
    case Teardown(s) =>
      if s in w.table.slots && w.table.slots[s].Live? then Some((InSlot(s), Aborted(|w.aborted|))) else None
    case _ => None
  }

  /** A step moves at most that task, and a spawn adds one. */
  lemma StepMoves(w: World, e: Event, place: Place, n: nat)
    requires ClaimsInv(w)
    ensures var next, move := Step(w, e), MoveTo(w, e);
            At(next, place, n) <==>
              if move.Some? && place == move.value.0 then false
              else if move.Some? && place == move.value.1 then At(w, move.value.0, n)
              else At(w, place, n) || (next.spawned > w.spawned && n == w.spawned && place == Hand(e.generation))
  { }

  ghost predicate Placed(w: World, n: nat) { exists place :: At(w, place, n) }

  /** Exactly one place for each task spawned, none for any other number. */
  ghost predicate Conserved(w: World) {
    && (forall n: nat :: n < w.spawned ==> Placed(w, n))
    && (forall place, n: nat :: At(w, place, n) ==> n < w.spawned)
    && (forall p, q, n: nat :: At(w, p, n) && At(w, q, n) ==> p == q)
  }

  lemma StepConserves(w: World, e: Event)
    requires ClaimsInv(w) && Conserved(w)
    ensures Conserved(Step(w, e))
  {
    var next, move := Step(w, e), MoveTo(w, e);
    forall place, n: nat ensures At(next, place, n) ==> n < next.spawned { StepMoves(w, e, place, n); }
    forall p, q, n: nat | At(next, p, n) && At(next, q, n) ensures p == q {
      StepMoves(w, e, p, n);
      StepMoves(w, e, q, n);
    }
    forall n: nat | n < next.spawned ensures Placed(next, n) {
      if n < w.spawned {
        assert Placed(w, n);
        var place :| At(w, place, n);
        var now := if move.Some? && place == move.value.0 then move.value.1 else place;
        StepMoves(w, e, now, n);
        assert At(next, now, n);
      } else {
        assert At(next, Hand(e.generation), n);
      }
    }
  }

  /** Over every interleaving each spawned forwarder is in exactly one place: in its subscriber's hand,
      live in one slot, or handed back once for abort. */
  lemma {:induction false} ForwardersConserved(events: seq<Event>)
    ensures ClaimsInv(Run(events)) && Conserved(Run(events))
  {
    if events != [] {
      var w, e := Run(events[..|events| - 1]), events[|events| - 1];
      ForwardersConserved(events[..|events| - 1]);
      StepKeepsClaims(w, e);
      StepConserves(w, e);
    }
  }

  // ---- Stale reservations ----

  /** No slot is reserved under this generation, and none can be again. */
  predicate Dead(t: Table<Task>, generation: nat) {
    generation < t.nextGeneration && forall s :: s in t.slots ==> t.slots[s] != Slot.Reserved(generation)
  }

  lemma {:induction false} DeadStaysDead(events: seq<Event>, later: seq<Event>, generation: nat)
    requires Dead(Run(events).table, generation)
    ensures Dead(Run(events + later).table, generation)
  {
    if later == [] {
      assert events + later == events;
    } else {
      DeadStaysDead(events, later[..|later| - 1], generation);
      assert (events + later)[..|events + later| - 1] == events + later[..|later| - 1];
    }
  }

  /** A teardown after a reserve makes that reservation fail for good: whatever happens between, finalizing
      it hands its own task back and changes no slot, even if the session has been reserved anew. */
  lemma ForgottenNeverInstalls(events: seq<Event>, later: seq<Event>, generation: nat)
    requires generation in Run(events).claims
    requires var w := Run(events + [Teardown(Run(events).claims[generation].session)] + later);
             generation in w.claims && w.claims[generation].hand.Some?
    ensures var w := Run(events + [Teardown(Run(events).claims[generation].session)] + later);
            var next := Step(w, Complete(generation));
            && next.table.slots == w.table.slots
            && next.aborted == w.aborted + [w.claims[generation].hand.value]
            && generation !in next.claims
  {
    var w := Run(events);
    var s := w.claims[generation].session;
    var torn := events + [Teardown(s)];
    ForwardersConserved(events);
    assert torn[..|events|] == events;
    assert Dead(Run(torn).table, generation);
    DeadStaysDead(torn, later, generation);
  }

  /** A slot changes hands only through the claim that reserved it: completing or abandoning any other
      claim, for the same session or not, leaves the slot as it is. */
  lemma StaleTouchesNothing(events: seq<Event>, s: SessionId, generation: nat, other: nat)
    requires s in Run(events).table.slots && Run(events).table.slots[s] == Slot.Reserved(generation)
        && other != generation
    ensures forall e :: e == Complete(other) || e == Abandon(other) ==>
              var next := Step(Run(events), e).table.slots;
              s in next && next[s] == Slot.Reserved(generation)
    ensures generation in Run(events).claims && Run(events).claims[generation].session == s
  {
    ForwardersConserved(events);
  }

  /** A live slot is emptied only by a teardown of its own session. */
  lemma LiveUntilTornDown(events: seq<Event>, e: Event, s: SessionId)
    requires s in Run(events).table.slots && Run(events).table.slots[s].Live? && e != Teardown(s)
    ensures var next := Step(Run(events), e).table.slots; s in next && next[s] == Run(events).table.slots[s]
  {
    ForwardersConserved(events);
  }

  // ---- Subscribes that come through ----

  /** The subscribe with this generation holds the reservation of the slot. */
  predicate Holding(w: World, s: SessionId, generation: nat) {
    && s in w.table.slots && w.table.slots[s] == Slot.Reserved(generation)
    && generation in w.claims && w.claims[generation].session == s
  }

  /** The events that could take the reservation away. */
  predicate Interferes(e: Event, s: SessionId, generation: nat) {
    e == Teardown(s) || e == Complete(generation) || e == Abandon(generation)
  }

  lemma HoldingStep(w: World, e: Event, s: SessionId, generation: nat)
    requires ClaimsInv(w) && Holding(w, s, generation) && !Interferes(e, s, generation)
    ensures var next := Step(w, e);
            && Holding(next, s, generation)
            && (w.claims[generation].hand.Some? ==> next.claims[generation].hand == w.claims[generation].hand)
            && (e == Spawn(generation) ==> next.claims[generation].hand.Some?)
  { }

  lemma {:induction false} HoldingRun(events: seq<Event>, later: seq<Event>, s: SessionId, generation: nat)
    requires Holding(Run(events), s, generation)
    requires forall i :: 0 <= i < |later| ==> !Interferes(later[i], s, generation)
    ensures Holding(Run(events + later), s, generation)
    ensures Spawn(generation) in later ==> Run(events + later).claims[generation].hand.Some?
  {
    if later == [] {
      assert events + later == events;
    } else {
      var init, e := later[..|later| - 1], later[|later| - 1];
      HoldingRun(events, init, s, generation);
      ForwardersConserved(events + init);
      assert (events + later)[..|events + later| - 1] == events + init;
      assert later == init + [e];
      HoldingStep(Run(events + init), e, s, generation);
    }
  }

  lemma HoldsAfter(events: seq<Event>, s: SessionId)
    requires s !in Run(events).table.slots
    ensures Holding(Run(events + [Subscribe(s)]), s, Run(events).table.nextGeneration)
  {
    assert (events + [Subscribe(s)])[..|events|] == events;
  }

  lemma CompletesInto(w: World, s: SessionId, generation: nat)
    requires ClaimsInv(w) && Holding(w, s, generation) && w.claims[generation].hand.Some?
    ensures var next := Step(w, Complete(generation));
            && s in next.table.slots && next.table.slots[s] == Live(w.claims[generation].hand.value)
            && next.table.slots[s].payload.session == s && next.aborted == w.aborted
  { }

  /** From any run: a subscribe of a session without a slot, whose task is spawned and which then completes, with
      anything else in between but a teardown of the session or its own end, leaves a task of that session live in
      the slot, and not aborted. */
  lemma SubscribeComesThrough(events: seq<Event>, s: SessionId, later: seq<Event>)
    requires s !in Run(events).table.slots && Spawn(Run(events).table.nextGeneration) in later
    requires forall i :: 0 <= i < |later| ==> !Interferes(later[i], s, Run(events).table.nextGeneration)
    ensures var w := Run(events + [Subscribe(s)] + later);
            var next := Step(w, Complete(Run(events).table.nextGeneration));
            && s in next.table.slots && next.table.slots[s].Live? && next.table.slots[s].payload.session == s
            && next.aborted == w.aborted
  {
    var g, more := Run(events).table.nextGeneration, events + [Subscribe(s)];
    HoldsAfter(events, s);
    HoldingRun(more, later, s, g);
    ForwardersConserved(more + later);
    CompletesInto(Run(more + later), s, g);
  }

  /** A session that has a slot is not subscribed a second time. */
  lemma TakenSlotStays(w: World, s: SessionId)
    requires s in w.table.slots
    ensures var next := Step(w, Subscribe(s)); next.table.slots == w.table.slots && next.claims == w.claims
  { }

  /** A subscribe that is given up before its task was spawned frees the slot it holds, for the next one. */
  lemma AbandonedSlotIsFree(w: World, s: SessionId, generation: nat)
    requires Holding(w, s, generation) && w.claims[generation].hand == None
    ensures var next := Step(w, Abandon(generation));
            s !in next.table.slots && generation !in next.claims && next.aborted == w.aborted
  { }

  /** A teardown empties the slot and hands back the task that was live in it. */
  lemma TornDownIsGone(w: World, s: SessionId)
    ensures var next := Step(w, Teardown(s));
            && s !in next.table.slots && next.claims == w.claims
            && next.aborted == w.aborted
                 + (if s in w.table.slots && w.table.slots[s].Live? then [w.table.slots[s].payload] else [])
  { }
}
