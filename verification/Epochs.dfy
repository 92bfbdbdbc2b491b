/** Incarnation epochs: the host's counter, the joiner's watermark, and the gate that keeps a close
    signed in an earlier incarnation from tearing down a later one. */
module Epochs {
  import opened Protocol

  /** `floor` outlives the record: a fresh create starts there. */
  datatype HostSide = HostSide(mem: Option<nat>, disk: Option<nat>, floor: nat)

  /** How far a join has come on its way to a mirror: it found none registered, or it also wrote the record. */
  datatype Stage = Looked(ticket: nat) | Stored(ticket: nat)

  /** `live` is the watermark the close gate reads; `raising` holds beacons that were persisted and
      still have to raise it. `doomed`: the registered mirror's own leave or close deleted its record. The
      last five are under way outside every lock: joins that found nothing registered, joins whose
      subscribe is running, records a rollback still has to delete, entries a leave or close still has to
      remove, subscriptions it then still has to drop. */
  datatype JoinerSide = JoinerSide(
    mem: Option<nat>, disk: Option<nat>, live: Option<nat>, raising: set<nat>, doomed: bool,
    claims: map<nat, Stage>, joining: nat, deletes: nat, unlists: nat, forgets: nat)

  /** The three sets are every epoch the host ever signed into a ticket, a beacon or a close. A frame
      signed once can be delivered any number of times, at any later moment. */
  datatype World = World(h: HostSide, j: JoinerSide, tickets: set<nat>, beacons: set<nat>, closes: set<nat>)

  const ABSENT := JoinerSide(None, None, None, {}, false, map[], 0, 0, 0, 0)

  const INITIAL := World(HostSide(None, None, 0), ABSENT, {}, {}, {})

  /** How a create ends: nothing written, only the floor raised, the record torn, or all done. */
  datatype CreateIo = CreateDone | CreateFailed | CreateRaised | CreateTorn
  /** How a resume ends: ledger write failed, epoch write failed, epoch write torn after the floor was
      raised, daemon died after the epoch became durable, or all done. */
  datatype ResumeIo = PutFailed | BumpFailed | BumpTorn | Died | ResumeDone
  datatype PersistIo = Persisted | PersistFailed | PersistedThenDied

  datatype Event =
    | HostCreate(create: CreateIo)
    | HostResume(resume: ResumeIo)
    | HostLeave(deleted: bool)
    | HostRestart
    | ClaimLook(claim: nat, ticket: nat)
    | ClaimStore(claim: nat, stored: bool)
    | ClaimInsert(claim: nat)
    | Subscribe
    | JoinDone
    | RollbackRemove
    | RollbackDelete(removed: bool)
    | BeaconPersist(epoch: nat, persist: PersistIo)
    | BeaconRaise(raised: nat)
    | DeliverClose(closed: nat, erased: bool)
    | JoinerLeave(dropped: bool)
    | Unlist
    | Forget
    | JoinerRestart

  /** The close gate, for a close that the host signed. */
  predicate ClosePasses(w: World, c: nat) {
    w.j.live.Some? && c >= w.j.live.value
  }

  predicate HostEvent(e: Event) { e.HostCreate? || e.HostResume? || e.HostLeave? || e.HostRestart? }

  function HostStep(w: World, e: Event): World
    requires HostEvent(e)
  {
    match e
    case HostCreate(io) =>
      if w.h.mem.Some? || io == CreateFailed then w
      else
        var epoch, floor := w.h.floor, w.h.floor + 1;
        if io == CreateRaised then w.(h := w.h.(floor := floor))
        else if io == CreateTorn then w.(h := HostSide(None, Some(epoch), floor))
        else w.(h := HostSide(Some(epoch), Some(epoch), floor), tickets := w.tickets + {epoch})
    case HostResume(io) =>
      if w.h.mem == None || io == PutFailed || io == BumpFailed then w
      else
        var epoch := NextEpoch(w.h.mem.value);
        var floor := Max(w.h.floor, epoch + 1);
        if io == BumpTorn then w.(h := w.h.(floor := floor))
        else
          var h := HostSide(Some(epoch), Some(epoch), floor);
          if io == Died then w.(h := h)
          else w.(h := h, tickets := w.tickets + {epoch}, beacons := w.beacons + {epoch})
    case HostLeave(ok) =>
      if w.h.mem == None || !ok then w
      else w.(h := HostSide(None, None, w.h.floor), closes := w.closes + {w.h.mem.value})
    case HostRestart => w.(h := w.h.(mem := w.h.disk))
  }

  /** A join: the map is read, the record written with no lock held, and the map read again to insert. The
      write happens even if another join has registered a mirror meanwhile. */
  function JoinStep(w: World, e: Event): JoinerSide
    requires e.ClaimLook? || e.ClaimStore? || e.ClaimInsert?
  {
    var j, i := w.j, e.claim;
    match e
    case ClaimLook(_, t) =>
      if t !in w.tickets || j.mem.Some? || i in j.claims then j else j.(claims := j.claims[i := Looked(t)])
    case ClaimStore(_, ok) =>
      if i !in j.claims || !j.claims[i].Looked? then j
      else if !ok then j.(claims := j.claims - {i})
      else j.(disk := Some(j.claims[i].ticket), claims := j.claims[i := Stored(j.claims[i].ticket)])
    case ClaimInsert(_) =>
      if i !in j.claims || !j.claims[i].Stored? then j
      else if j.mem.Some? then j.(claims := j.claims - {i})
      else j.(mem := Some(j.claims[i].ticket), doomed := false, claims := j.claims - {i}, joining := j.joining + 1)
  }

  /** The record goes under the session lock, again if it went before; the entry goes afterwards, and the
      subscription after that. */
  function Doom(j: JoinerSide): JoinerSide {
    if j.mem == None then j else j.(disk := None, doomed := true, unlists := j.unlists + 1)
  }

  function JoinerStep(w: World, e: Event): JoinerSide
    requires !HostEvent(e)
  {
    var j := w.j;
    match e
    case ClaimLook(_, _) => JoinStep(w, e)
    case ClaimStore(_, _) => JoinStep(w, e)
    case ClaimInsert(_) => JoinStep(w, e)
    case Subscribe => if j.mem.Some? && j.live == None then j.(live := j.mem, raising := {}) else j
    case JoinDone => if j.joining == 0 then j else j.(joining := j.joining - 1)
    case RollbackRemove =>
      if j.joining == 0 then j
      else j.(mem := None, doomed := false, joining := j.joining - 1, deletes := j.deletes + 1)
    case RollbackDelete(ok) =>
      if j.deletes == 0 then j
      else j.(disk := if ok then None else j.disk, deletes := j.deletes - 1)
    case BeaconPersist(e, io) =>
      if e !in w.beacons || j.live == None || e <= j.live.value then j
      else if j.mem == None || e <= j.mem.value then j.(raising := j.raising + {e})
      else (
        var disk := if j.disk == None then None else Some(e);
        match io
        case PersistFailed => j
        case Persisted => j.(mem := Some(e), disk := disk, raising := j.raising + {e})
        case PersistedThenDied => Rebooted(j.(disk := disk)))
    case BeaconRaise(e) =>
      if e !in j.raising || j.live == None then j
      else j.(live := Some(Max(j.live.value, e)), raising := j.raising - {e})
    case DeliverClose(c, ok) => if c in w.closes && ClosePasses(w, c) && ok then Doom(j) else j
    case JoinerLeave(ok) => if ok then Doom(j) else j
    case Unlist =>
      if j.unlists == 0 then j
      else j.(mem := None, doomed := false, unlists := j.unlists - 1, forgets := j.forgets + 1)
    case Forget =>
      if j.forgets == 0 then j else j.(live := None, raising := {}, forgets := j.forgets - 1)
    case JoinerRestart => Rebooted(j)
  }

  /** Everything under way is gone; the mirror is what the record says. */
  function Rebooted(j: JoinerSide): JoinerSide {
    ABSENT.(mem := j.disk, disk := j.disk)
  }

  function Step(w: World, e: Event): World {
    if HostEvent(e) then HostStep(w, e) else w.(j := JoinerStep(w, e))
  }

  function Run(w: World, events: seq<Event>): World {
    if events == [] then w else Step(Run(w, events[..|events| - 1]), events[|events| - 1])
  }

  /** The joiner's handlers for the two control frames. */
  class Watermark {
    var mem: nat
    var disk: nat
    var live: nat
    var doomed: bool

    constructor (ticket: nat)
      ensures mem == disk == live == ticket && !doomed
    {
      mem, disk, live, doomed := ticket, ticket, ticket, false;
    }

    ghost predicate Shows(j: JoinerSide) reads this {
      && j.mem == Some(mem) && j.disk == (if doomed then None else Some(disk)) && j.live == Some(live)
      && j.raising == {} && j.doomed == doomed
    }

    /** A beacon whose signature verified: persist first, raise the live watermark after. */
    method OnBeacon(epoch: nat, persisted: bool, ghost w: World)
      requires Shows(w.j) && epoch in w.beacons && live <= mem
      modifies this
      ensures live <= mem
      ensures var io := if persisted then Persisted else PersistFailed;
              Shows(Run(w, [BeaconPersist(epoch, io), BeaconRaise(epoch)]).j)
    {
      ghost var io := if persisted then Persisted else PersistFailed;
      RunTwo(w, BeaconPersist(epoch, io), BeaconRaise(epoch));
      if epoch <= live { return; }
      if epoch > mem {
        if !persisted { return; }
        if !doomed { disk := epoch; }
        mem := epoch;
      }
      if epoch > live { live := epoch; }
    }

    /** A close whose signature verified. */
    method OnClose(epoch: nat, erased: bool, ghost w: World) returns (accepted: bool)
      requires Shows(w.j) && epoch in w.closes
      modifies this
      ensures accepted <==> epoch >= old(live)
      ensures Shows(Step(w, DeliverClose(epoch, erased)).j)
      ensures doomed == (old(doomed) || (accepted && erased))
      ensures mem == old(mem) && disk == old(disk) && live == old(live)
    {
      accepted := epoch >= live;
      if accepted && erased { doomed := true; }
    }
  }

  // ---- Nothing is above what the host signed ----

  predicate AtMost(o: Option<nat>, n: nat) { o.Some? ==> o.value <= n }

  predicate AllAtMost(s: set<nat>, n: nat) { forall e :: e in s ==> e <= n }

  predicate JoinerAtMost(j: JoinerSide, n: nat) {
    && AtMost(j.mem, n) && AtMost(j.disk, n) && AtMost(j.live, n) && AllAtMost(j.raising, n)
    && forall i :: i in j.claims ==> j.claims[i].ticket <= n
  }

  /** Nothing the host ever signed, and nothing the joiner ever learned, is above `n`. */
  predicate Bounded(w: World, n: nat) {
    && AllAtMost(w.tickets, n) && AllAtMost(w.beacons, n) && AllAtMost(w.closes, n)
    && JoinerAtMost(w.j, n)
  }

  predicate HostChain(h: HostSide) {
    && (h.disk.Some? ==> h.disk.value < h.floor)
    && (h.mem.Some? ==> h.disk == h.mem)
  }

  predicate HostBounds(w: World) {
    && HostChain(w.h)
    && (w.h.floor == 0 ==> Quiet(w.j) && w.tickets == {} && w.beacons == {} && w.closes == {})
    && (w.h.floor > 0 ==> Bounded(w, w.h.floor - 1))
    && (w.h.disk.Some? ==> Bounded(w, w.h.disk.value))
  }

  /** The joiner knows no epoch at all. */
  predicate Quiet(j: JoinerSide) {
    j.mem == None && j.disk == None && j.live == None && j.raising == {} && j.claims == map[]
  }

  lemma JoinerStepKeepsBound(w: World, e: Event, n: nat)
    requires !HostEvent(e) && Bounded(w, n)
    ensures Bounded(Step(w, e), n)
  {
  }

  lemma JoinerStepKeepsQuiet(w: World, e: Event)
    requires !HostEvent(e) && Quiet(w.j) && w.tickets == {} && w.beacons == {}
    ensures Quiet(Step(w, e).j)
  {
  }

  lemma CreateKeepsBounds(w: World, io: CreateIo)
    requires HostBounds(w)
    ensures HostBounds(HostStep(w, HostCreate(io)))
  {
    if w.h.floor > 0 { Loosen(w, w.h.floor - 1, w.h.floor); }
    Signed(w, HostStep(w, HostCreate(io)), w.h.floor);
  }

  lemma ResumeKeepsBounds(w: World, io: ResumeIo)
    requires HostBounds(w)
    ensures HostBounds(HostStep(w, HostResume(io)))
  {
    if w.h.mem.Some? {
      var epoch := NextEpoch(w.h.mem.value);
      var top := Max(w.h.floor, epoch + 1) - 1;
      Loosen(w, w.h.mem.value, epoch);
      Loosen(w, w.h.mem.value, top);
      Signed(w, HostStep(w, HostResume(io)), epoch);
      Signed(w, HostStep(w, HostResume(io)), top);
    }
  }

  lemma HostStepKeepsBounds(w: World, e: Event)
    requires HostBounds(w) && HostEvent(e)
    ensures HostBounds(HostStep(w, e))
  {
    match e
    case HostCreate(io) => CreateKeepsBounds(w, io);
    case HostResume(io) => ResumeKeepsBounds(w, io);
    case _ =>
  }

  lemma Loosen(w: World, n: nat, m: nat)
    requires Bounded(w, n) && n <= m
    ensures Bounded(w, m)
  {
  }

  /** Signing more epochs up to `n` keeps the bound. */
  lemma Signed(w: World, w': World, n: nat)
    requires Bounded(w, n) || (Quiet(w.j) && w.tickets == {} && w.beacons == {} && w.closes == {})
    requires w'.j == w.j && AllAtMost(w'.tickets - w.tickets, n) && AllAtMost(w'.beacons - w.beacons, n)
    requires w'.closes == w.closes
    ensures Bounded(w', n)
  {
    forall e | e in w'.tickets ensures e <= n { assert e in w.tickets || e in w'.tickets - w.tickets; }
    forall e | e in w'.beacons ensures e <= n { assert e in w.beacons || e in w'.beacons - w.beacons; }
  }

  /** In every run, overlapping joins and rollbacks included: no epoch anyone holds is above the host's. */
  lemma {:induction false} HostIsAhead(events: seq<Event>)
    ensures HostBounds(Run(INITIAL, events))
  {
    if events != [] {
      var w, e := Run(INITIAL, events[..|events| - 1]), events[|events| - 1];
      HostIsAhead(events[..|events| - 1]);
      if HostEvent(e) {
        HostStepKeepsBounds(w, e);
      } else {
        if w.h.floor == 0 { JoinerStepKeepsQuiet(w, e); } else { JoinerStepKeepsBound(w, e, w.h.floor - 1); }
        if w.h.disk.Some? { JoinerStepKeepsBound(w, e, w.h.disk.value); }
      }
    }
  }

  /** A close signed at the host's current epoch passes the gate of every subscribed joiner. */
  lemma CurrentCloseAlwaysPasses(events: seq<Event>)
    ensures var w := Run(INITIAL, events);
            w.h.disk.Some? && w.j.live.Some? ==> ClosePasses(w, w.h.disk.value)
  {
    HostIsAhead(events);
  }

  predicate JoinerOnly(events: seq<Event>) {
    forall i :: 0 <= i < |events| ==> !HostEvent(events[i])
  }

  /** The close the host signs on leaving keeps passing until the host starts another incarnation. */
  lemma {:induction false} DepartingCloseKeepsPassing(events: seq<Event>, later: seq<Event>)
    requires Run(INITIAL, events).h.mem.Some? && JoinerOnly(later)
    ensures var w := Run(Step(Run(INITIAL, events), HostLeave(true)), later);
            var epoch := Run(INITIAL, events).h.mem.value;
            && epoch in w.closes
            && (w.j.live.Some? ==> ClosePasses(w, epoch))
            && Bounded(w, epoch)
    decreases |later|
  {
    HostIsAhead(events);
    var start := Step(Run(INITIAL, events), HostLeave(true));
    if later != [] {
      DepartingCloseKeepsPassing(events, later[..|later| - 1]);
      JoinerStepKeepsBound(Run(start, later[..|later| - 1]), later[|later| - 1], Run(INITIAL, events).h.mem.value);
    }
  }

  // ---- What a close does ----

  /** A close the host signed, not below the watermark of a registered, subscribed mirror, deletes its record at
      once, and then its entry and its subscription. */
  lemma PassingCloseEndsMirror(w: World, c: nat)
    requires c in w.closes && w.j.mem.Some? && w.j.live.Some? && c >= w.j.live.value
    ensures var j := Step(w, DeliverClose(c, true)).j; j.disk == None && j.doomed
    ensures var j := Run(w, [DeliverClose(c, true), Unlist, Forget]).j;
            j.mem == None && j.disk == None && j.live == None
  {
    RunThree(w, [DeliverClose(c, true), Unlist, Forget]);
    DoomedEnds(Step(w, DeliverClose(c, true)));
  }

  lemma DoomedEnds(w: World)
    requires w.j.disk == None && w.j.unlists > 0
    ensures var j := Step(Step(w, Unlist), Forget).j; j.mem == None && j.disk == None && j.live == None
  {
  }

  /** One below the watermark, or never signed, or for a joiner that is not subscribed, leaves everything as it was;
      so does one whose deletion fails. */
  lemma RefusedCloseChangesNothing(w: World, c: nat, erased: bool)
    requires c !in w.closes || w.j.live == None || c < w.j.live.value || !erased
    ensures Step(w, DeliverClose(c, erased)) == w
  {
  }

  /** So after the host has left, its close ends every registered, subscribed mirror it reaches before the host starts
      another incarnation, whatever joiners do meanwhile. */
  lemma DepartingCloseEndsMirror(events: seq<Event>, later: seq<Event>)
    requires Run(INITIAL, events).h.mem.Some? && JoinerOnly(later)
    requires var w := Run(Step(Run(INITIAL, events), HostLeave(true)), later); w.j.mem.Some? && w.j.live.Some?
    ensures var w := Run(Step(Run(INITIAL, events), HostLeave(true)), later);
            var c := Run(INITIAL, events).h.mem.value;
            var j := Run(w, [DeliverClose(c, true), Unlist, Forget]).j;
            j.mem == None && j.disk == None && j.live == None
  {
    DepartingCloseKeepsPassing(events, later);
    PassingCloseEndsMirror(Run(Step(Run(INITIAL, events), HostLeave(true)), later), Run(INITIAL, events).h.mem.value);
  }

  // ---- The chain within the joiner ----

  /** Live watermark <= mirror memory <= mirror disk, for a registered mirror whose record was not deleted by
      its own leave or close. */
  predicate Chain(j: JoinerSide) {
    && (j.live.Some? && j.mem.Some? ==> j.live.value <= j.mem.value)
    && (j.mem.Some? && !j.doomed ==> j.disk.Some? && j.mem.value <= j.disk.value)
    && (j.mem.Some? ==> AllAtMost(j.raising, j.mem.value))
    && (j.live == None ==> j.raising == {})
  }

  /** A mirror whose record is gone is still owed its removal from the map. */
  predicate Owed(j: JoinerSide) { j.doomed ==> j.mem.Some? && j.unlists > 0 }

  lemma {:induction false} RemovalOwed(events: seq<Event>)
    ensures Owed(Run(INITIAL, events).j)
  {
    if events != [] { RemovalOwed(events[..|events| - 1]); }
  }

  /** The ways one join disturbs another: its record replaces one with a higher epoch; its record was replaced or
      deleted before it registers, or an earlier mirror's subscription, still there, is above its ticket; its
      rollback deletes another's record. */
  predicate Breaks(w: World, e: Event) {
    var j := w.j;
    match e
    case ClaimStore(i, ok) =>
      ok && i in j.claims && j.claims[i].Looked? && j.mem.Some? && !j.doomed && j.claims[i].ticket < j.mem.value
    case ClaimInsert(i) =>
      && i in j.claims && j.claims[i].Stored? && j.mem == None
      && !(j.disk.Some? && j.disk.value >= j.claims[i].ticket
           && AtMost(j.live, j.claims[i].ticket) && AllAtMost(j.raising, j.claims[i].ticket))
    case RollbackDelete(ok) => ok && j.deletes > 0 && j.mem.Some? && !j.doomed
    case _ => false
  }

  /** A step keeps the chain if and only if it is not one of those. */
  lemma StepKeepsChainIff(w: World, e: Event)
    requires Chain(w.j)
    ensures Chain(Step(w, e).j) <==> !Breaks(w, e)
  {
  }

  /** No mirror is registered, or the joiner has just restarted. */
  predicate Renewed(j: JoinerSide) { j.mem == None || j == Rebooted(j) }

  lemma {:induction false} NothingToRaise(events: seq<Event>)
    ensures var j := Run(INITIAL, events).j; j.live == None ==> j.raising == {}
  {
    if events != [] { NothingToRaise(events[..|events| - 1]); }
  }

  lemma RenewedHasChain(events: seq<Event>)
    requires Renewed(Run(INITIAL, events).j)
    ensures Chain(Run(INITIAL, events).j)
  {
    NothingToRaise(events);
  }

  /** After `n` events the joiner was renewed, and no step since has been one of those that break the chain. */
  predicate UndisturbedSince(events: seq<Event>, n: nat) {
    && n <= |events| && Renewed(Run(INITIAL, events[..n]).j)
    && forall i :: n <= i < |events| ==> !Breaks(Run(INITIAL, events[..i]), events[i])
  }

  lemma UndisturbedPrefix(events: seq<Event>, n: nat)
    requires UndisturbedSince(events, n) && n < |events|
    ensures UndisturbedSince(events[..|events| - 1], n)
  {
    var init := events[..|events| - 1];
    assert init[..n] == events[..n];
    forall i | n <= i < |init| ensures !Breaks(Run(INITIAL, init[..i]), init[i]) { assert init[..i] == events[..i]; }
  }

  /** In every run, whatever lies before, with resumes, failed and torn writes, crashes, replayed frames and any
      number of joins, leaves and rollbacks: if none disturbed another since the last restart, or since a moment
      when no mirror was registered, live watermark <= mirror memory <= mirror disk <= host disk. */
  lemma {:induction false} EpochChain(events: seq<Event>, n: nat)
    requires UndisturbedSince(events, n)
    ensures Chain(Run(INITIAL, events).j) && HostBounds(Run(INITIAL, events))
    decreases |events|
  {
    HostIsAhead(events);
    if n == |events| {
      assert events[..n] == events;
      RenewedHasChain(events);
    } else {
      var init := events[..|events| - 1];
      UndisturbedPrefix(events, n);
      EpochChain(init, n);
      StepKeepsChainIff(Run(INITIAL, init), events[|events| - 1]);
    }
  }

  // ---- The fence ----

  predicate AtLeast(o: Option<nat>, n: nat) { o.Some? ==> o.value >= n }

  predicate Held(j: JoinerSide, e: nat) {
    AtLeast(j.live, e) && AtLeast(j.mem, e) && AtLeast(j.disk, e)
  }

  /** No join under way was given a ticket older than `e`. */
  predicate NoOldClaim(j: JoinerSide, e: nat) {
    forall i :: i in j.claims ==> j.claims[i].ticket >= e
  }

  /** No join begins with a ticket older than `e`. */
  predicate NoOldLook(events: seq<Event>, e: nat) {
    forall i :: 0 <= i < |events| && events[i].ClaimLook? ==> events[i].ticket >= e
  }

  lemma StepKeepsFence(w: World, ev: Event, e: nat)
    requires Held(w.j, e) && NoOldClaim(w.j, e) && (ev.ClaimLook? ==> ev.ticket >= e)
    ensures Held(Step(w, ev).j, e) && NoOldClaim(Step(w, ev).j, e)
  {
  }

  lemma {:induction false} FenceHolds(w: World, later: seq<Event>, e: nat)
    requires Held(w.j, e) && NoOldClaim(w.j, e) && NoOldLook(later, e)
    ensures Held(Run(w, later).j, e) && NoOldClaim(Run(w, later).j, e)
  {
    if later != [] {
      FenceHolds(w, later[..|later| - 1], e);
      StepKeepsFence(Run(w, later[..|later| - 1]), later[|later| - 1], e);
    }
  }

  lemma {:induction false} RunConcat(w: World, a: seq<Event>, b: seq<Event>)
    ensures Run(w, a + b) == Run(Run(w, a), b)
  {
    if b == [] {
      assert a + b == a;
    } else {
      RunConcat(w, a, b[..|b| - 1]);
      assert (a + b)[..|a + b| - 1] == a + b[..|b| - 1];
    }
  }

  /** No close below `e` will pass, whatever happens, as long as no join begins with an older ticket. */
  ghost predicate Fenced(w: World, e: nat) {
    forall later, c: nat :: NoOldLook(later, e) && c < e ==> !ClosePasses(Run(w, later), c)
  }

  /** A registered mirror holds an accepted beacon everywhere a restart could look, if joins have not disturbed
      each other since then. */
  lemma AcceptedBeaconIsHeld(events: seq<Event>, n: nat, e: nat)
    requires UndisturbedSince(events, n)
    requires var j := Run(INITIAL, events).j; j.mem.Some? && j.live.Some? && j.live.value >= e && !j.doomed
    ensures Held(Run(INITIAL, events).j, e)
  {
    EpochChain(events, n);
  }

  /** From any state in which a mirror holds an epoch of at least `e`: the gate is closed for good to every
      close signed below `e`, through failures, crashes and restarts, if and only if no join already under
      way was given an older ticket. */
  lemma OldCloseNeverPassesIff(events: seq<Event>, e: nat)
    requires Run(INITIAL, events).j.mem.Some? && Held(Run(INITIAL, events).j, e)
    ensures Fenced(Run(INITIAL, events), e) <==> NoOldClaim(Run(INITIAL, events).j, e)
  {
    var w := Run(INITIAL, events);
    if NoOldClaim(w.j, e) {
      forall later, c: nat | NoOldLook(later, e) && c < e ensures !ClosePasses(Run(w, later), c) {
        FenceHolds(w, later, e);
      }
    } else {
      var i :| i in w.j.claims && w.j.claims[i].ticket < e;
      var later: seq<Event>;
      if w.j.claims[i].Looked? { later := StoreLate(w, i); } else { later := InsertLate(w, i); }
      assert ClosePasses(Run(w, later), w.j.claims[i].ticket);
    }
  }

  /** The late write of a join that will find the mirror registered, read back by a restart. */
  lemma StoreLate(w: World, i: nat) returns (later: seq<Event>)
    requires i in w.j.claims && w.j.claims[i].Looked?
    ensures forall e :: NoOldLook(later, e)
    ensures Run(w, later).j.live == Some(w.j.claims[i].ticket)
  {
    later := [ClaimStore(i, true), JoinerRestart, Subscribe];
    RunThree(w, later);
  }

  /** The joiner leaves its mirror, and everything of it is gone. */
  const LEFT := [JoinerLeave(true), Unlist, Forget]

  lemma LeftState(w: World)
    requires w.j.mem.Some?
    ensures Run(w, LEFT) == w.(j := w.j.(mem := None, disk := None, doomed := false, live := None, raising := {}))
  {
    RunThree(w, LEFT);
    assert Step(w, LEFT[0]).j == w.j.(disk := None, doomed := true, unlists := w.j.unlists + 1);
  }

  /** A join that wrote its record early and registers after the mirror was left. */
  lemma InsertLate(w: World, i: nat) returns (later: seq<Event>)
    requires w.j.mem.Some? && i in w.j.claims && w.j.claims[i].Stored?
    ensures forall e :: NoOldLook(later, e)
    ensures Run(w, later).j.live == Some(w.j.claims[i].ticket)
  {
    later := LEFT + [ClaimInsert(i), Subscribe];
    LeftState(w);
    RunTwo(Run(w, LEFT), ClaimInsert(i), Subscribe);
    RunConcat(w, LEFT, [ClaimInsert(i), Subscribe]);
  }

  /** A joiner that dropped its mirror and starts another takes its watermark from the ticket alone: the
      fence at `e` stands afterwards if and only if that ticket was minted at `e` or later. */
  lemma RejoinFenceIff(w: World, i: nat, t: nat, e: nat)
    requires w.j.mem == None && w.j.live == None && i !in w.j.claims && t in w.tickets
    ensures var w' := Run(w, [ClaimLook(i, t), ClaimStore(i, true), ClaimInsert(i), Subscribe]);
            (forall c: nat :: ClosePasses(w', c) ==> c >= e) <==> t >= e
  {
    var events := [ClaimLook(i, t), ClaimStore(i, true), ClaimInsert(i), Subscribe];
    RunFour(w, events);
    var w' := Run(w, events);
    assert w'.j.live == Some(t);
    assert ClosePasses(w', t);
  }

  // ---- Runs in which an old close passes ----

  const HOSTED := [HostCreate(CreateDone), HostLeave(true), HostCreate(CreateDone), HostResume(ResumeDone)]

  const JOINED := [ClaimLook(0, 1), ClaimLook(1, 0), ClaimStore(0, true), ClaimInsert(0)]
  const RAISED := [Subscribe, BeaconPersist(2, Persisted), BeaconRaise(2), JoinDone]

  const OVERLAPPED := [ClaimStore(1, true), ClaimInsert(1), JoinerRestart, Subscribe]

  lemma HostedTwice()
    ensures var w := Run(INITIAL, HOSTED);
            w.j == ABSENT && {0, 1} <= w.tickets && 0 in w.closes && 2 in w.beacons
  {
    RunFour(INITIAL, HOSTED);
  }

  lemma LookedTwice(w: World)
    requires w.j == ABSENT && {0, 1} <= w.tickets
    ensures Run(w, [JOINED[0], JOINED[1]]) == w.(j := ABSENT.(claims := map[0 := Looked(1), 1 := Looked(0)]))
  {
    RunTwo(w, JOINED[0], JOINED[1]);
  }

  lemma RegisteredFirst(w: World)
    requires w.j == ABSENT.(claims := map[0 := Looked(1), 1 := Looked(0)])
    ensures Run(w, [JOINED[2], JOINED[3]]) ==
              w.(j := ABSENT.(mem := Some(1), disk := Some(1), claims := map[1 := Looked(0)], joining := 1))
  {
    RunTwo(w, JOINED[2], JOINED[3]);
  }

  lemma JoinedTwice(w: World)
    requires w.j == ABSENT && {0, 1} <= w.tickets
    ensures Run(w, JOINED) ==
              w.(j := ABSENT.(mem := Some(1), disk := Some(1), claims := map[1 := Looked(0)], joining := 1))
  {
    assert JOINED[..2] == [JOINED[0], JOINED[1]] && JOINED[2..] == [JOINED[2], JOINED[3]];
    assert JOINED == JOINED[..2] + JOINED[2..];
    RunConcat(w, JOINED[..2], JOINED[2..]);
    LookedTwice(w);
    RegisteredFirst(Run(w, JOINED[..2]));
  }

  lemma RaisedTo(w: World)
    requires w.j == ABSENT.(mem := Some(1), disk := Some(1), claims := map[1 := Looked(0)], joining := 1)
    requires 2 in w.beacons
    ensures Run(w, RAISED) ==
              w.(j := ABSENT.(mem := Some(2), disk := Some(2), live := Some(2), claims := map[1 := Looked(0)]))
  {
    RunFour(w, RAISED);
  }

  predicate Contested(j: JoinerSide) {
    j == ABSENT.(mem := Some(2), disk := Some(2), live := Some(2), claims := map[1 := Looked(0)])
  }

  lemma Undercut(w: World)
    requires Contested(w.j)
    ensures Run(w, OVERLAPPED[..1]).j.disk == Some(0) && Run(w, OVERLAPPED[..1]).j.mem == Some(2)
  {
    assert OVERLAPPED[..1] == [ClaimStore(1, true)] && [ClaimStore(1, true)][..0] == [];
    assert Run(w, OVERLAPPED[..1]) == Step(w, ClaimStore(1, true));
  }

  lemma Overlapped(w: World)
    requires Contested(w.j)
    ensures Run(w, OVERLAPPED).j.live == Some(0)
  {
    RunFour(w, OVERLAPPED);
  }

  /** Two joins look before either registers. The second writes its record after the first has registered and
      accepted a beacon: the mirror's disk falls below its memory, and after a restart a close of the first
      incarnation passes although one of the third was accepted and no mirror was started from the old ticket. */
  lemma OverlappingJoinWitness()
    ensures var w := Run(INITIAL, HOSTED + JOINED + RAISED);
            && w.j.live == Some(2) && 0 in w.closes
            && Run(w, OVERLAPPED[..1]).j.disk == Some(0) && Run(w, OVERLAPPED[..1]).j.mem == Some(2)
            && ClosePasses(Run(w, OVERLAPPED), 0)
  {
    var w := RunRaised();
    Undercut(w);
    Overlapped(w);
  }

  lemma RunRaised() returns (w: World)
    ensures w == Run(INITIAL, HOSTED + JOINED + RAISED) && 0 in w.closes && 0 in w.tickets
    ensures Contested(w.j)
  {
    HostedTwice();
    RunConcat(INITIAL, HOSTED, JOINED);
    JoinedTwice(Run(INITIAL, HOSTED));
    RunConcat(INITIAL, HOSTED + JOINED, RAISED);
    RaisedTo(Run(INITIAL, HOSTED + JOINED));
    w := Run(INITIAL, HOSTED + JOINED + RAISED);
  }

  const REJOINED := [ClaimLook(2, 0), ClaimStore(2, true), ClaimInsert(2), Subscribe]

  /** The same close after the mirror was dropped and joined anew with the first ticket. */
  lemma RejoinWithOldTicketWitness()
    ensures exists events, later, e: nat, c: nat ::
              && Run(INITIAL, events).j.live == Some(e) && c < e
              && c in Run(INITIAL, events).closes && ClosePasses(Run(Run(INITIAL, events), later), c)
  {
    var w := RunRaised();
    LeftState(w);
    RejoinedState(Run(w, LEFT));
    RunConcat(w, LEFT, REJOINED);
    assert ClosePasses(Run(w, LEFT + REJOINED), 0);
  }

  lemma RejoinedState(w: World)
    requires w.j.mem == None && w.j.live == None && 0 in w.tickets && 2 !in w.j.claims
    ensures Run(w, REJOINED).j.live == Some(0)
  {
    RunFour(w, REJOINED);
  }

  lemma RunFour(w: World, es: seq<Event>)
    requires |es| == 4
    ensures Run(w, es) == Step(Step(Step(Step(w, es[0]), es[1]), es[2]), es[3])
  {
    assert es[..2] == [es[0], es[1]] && es[2..] == [es[2], es[3]] && es == es[..2] + es[2..];
    RunTwo(w, es[0], es[1]);
    RunTwo(Step(Step(w, es[0]), es[1]), es[2], es[3]);
    RunConcat(w, es[..2], es[2..]);
  }

  lemma RunThree(w: World, es: seq<Event>)
    requires |es| == 3
    ensures Run(w, es) == Step(Step(Step(w, es[0]), es[1]), es[2])
  {
    assert es[..2] == [es[0], es[1]];
    RunTwo(w, es[0], es[1]);
  }

  lemma RunTwo(w: World, a: Event, b: Event)
    ensures Run(w, [a, b]) == Step(Step(w, a), b)
  {
    assert [a, b][..1] == [a] && [a][..0] == [];
    assert Run(w, [a]) == Step(w, a);
  }

  // ---- What each step of an incarnation leaves ----

  /** A new incarnation: every epoch signed before is below it, strictly unless the counter is at its end; a ticket
      carries it, and a resume announces it to those who have joined. */
  lemma IncarnationIsNew(events: seq<Event>, e: Event)
    requires var h := Run(INITIAL, events).h;
             (e == HostCreate(CreateDone) && h.mem == None) || (e == HostResume(ResumeDone) && h.mem.Some?)
    ensures var w, next := Run(INITIAL, events), Step(Run(INITIAL, events), e);
            && next.h.mem.Some? && next.h.disk == next.h.mem && next.h.mem.value < next.h.floor
            && var epoch := next.h.mem.value;
               && epoch in next.tickets && AllAtMost(w.tickets, epoch) && AllAtMost(w.beacons, epoch)
               && AllAtMost(w.closes, epoch)
               && (e.HostResume? ==> epoch in next.beacons)
               && (e.HostResume? && w.h.mem.value < U64_MAX ==> epoch == w.h.mem.value + 1)
               && (e.HostCreate? ==> epoch !in w.tickets && epoch !in w.beacons && epoch !in w.closes)
  {
    HostIsAhead(events);
  }

  /** Writes that stop half way sign nothing; a resume that died after its epoch became durable is found at that
      epoch by the restart, and whatever was torn keeps the next create above it. */
  lemma HalfIncarnation(w: World, e: Event)
    requires w.h.mem.Some? ==> w.h.disk == w.h.mem
    requires e.HostCreate? ==> e.create != CreateDone && w.h.mem == None
    requires e.HostResume? ==> e.resume != ResumeDone && w.h.mem.Some?
    requires e.HostCreate? || e.HostResume?
    ensures var next := Step(w, e);
            && next.tickets == w.tickets && next.beacons == w.beacons && next.closes == w.closes && next.j == w.j
            && (e == HostCreate(CreateTorn) ==> next.h.disk == Some(w.h.floor))
            && (e == HostCreate(CreateRaised) || e == HostCreate(CreateTorn) ==> next.h.floor == w.h.floor + 1)
            && (e == HostResume(Died) ==> next.h.disk == Some(NextEpoch(w.h.mem.value)))
            && (e == HostResume(BumpTorn) || e == HostResume(Died) ==> next.h.floor > NextEpoch(w.h.mem.value))
    ensures Step(w, HostRestart).h == w.h.(mem := w.h.disk)
  {
  }

  /** A leave whose deletion fails signs no close and ends nothing; one that succeeds ends the incarnation, signs its
      close, and keeps the floor. */
  lemma LeaveEndsIncarnation(w: World)
    requires w.h.mem.Some?
    ensures Step(w, HostLeave(false)) == w
    ensures var next := Step(w, HostLeave(true));
            next.h == HostSide(None, None, w.h.floor) && next.closes == w.closes + {w.h.mem.value}
  {
  }

  predicate Subscribed(j: JoinerSide) {
    j.mem.Some? && j.disk.Some? && j.live.Some? && j.live.value <= j.mem.value <= j.disk.value
  }

  /** A beacon the host signed, above the watermark of a registered, subscribed mirror with a record, raises all three
      to it if its write succeeds. */
  lemma BeaconRaises(w: World, e: nat)
    requires Subscribed(w.j) && e in w.beacons && e > w.j.live.value
    ensures var j := Run(w, [BeaconPersist(e, Persisted), BeaconRaise(e)]).j;
            && j.live == Some(e) && j.mem == Some(Max(w.j.mem.value, e))
            && j.disk == if e > w.j.mem.value then Some(e) else w.j.disk
  {
    RunTwo(w, BeaconPersist(e, Persisted), BeaconRaise(e));
    PersistedBeacon(w, e);
    RaisedBeacon(Step(w, BeaconPersist(e, Persisted)), e);
  }

  lemma PersistedBeacon(w: World, e: nat)
    requires Subscribed(w.j) && e in w.beacons && e > w.j.live.value
    ensures var j := Step(w, BeaconPersist(e, Persisted)).j;
            && j.live == w.j.live && e in j.raising && j.mem == Some(Max(w.j.mem.value, e))
            && j.disk == if e > w.j.mem.value then Some(e) else w.j.disk
  {
  }

  lemma RaisedBeacon(w: World, e: nat)
    requires w.j.live.Some? && e > w.j.live.value && e in w.j.raising
    ensures var j := Step(w, BeaconRaise(e)).j; j.live == Some(e) && j.mem == w.j.mem && j.disk == w.j.disk
  {
  }

  /** One that is not above, or was never signed, raises nothing, nor does one whose write fails; one that was written
      before a crash is found by the restart. */
  lemma BeaconBounds(w: World, e: nat)
    requires Subscribed(w.j)
    ensures e !in w.beacons || e <= w.j.live.value ==> Step(w, BeaconPersist(e, Persisted)) == w
    ensures e > w.j.mem.value ==> Step(w, BeaconPersist(e, PersistFailed)) == w
    ensures e in w.beacons && e > w.j.mem.value ==> Step(w, BeaconPersist(e, PersistedThenDied)).j.mem == Some(e)
  {
  }

  /** A mirror that is registered is not joined anew, and no ticket that was never signed starts one. */
  lemma RegisteredIsNotClaimed(w: World, i: nat, t: nat)
    requires w.j.mem.Some? || t !in w.tickets
    ensures Step(w, ClaimLook(i, t)) == w
  {
  }

  /** A join that fails after it registered leaves neither entry nor record. */
  lemma RollbackEndsJoin(w: World)
    requires w.j.joining > 0
    ensures var j := Run(w, [RollbackRemove, RollbackDelete(true)]).j; j.mem == None && j.disk == None
  {
    RunTwo(w, RollbackRemove, RollbackDelete(true));
  }
}
