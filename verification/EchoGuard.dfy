/** Telling the echo of a peer's write or delete from a local edit, and the tombstones that rely on it. */
module EchoGuards {
  import opened Protocol

  type Path = string
  type Hash = nat

  datatype Guard = Guard(pending: set<Path>, published: map<Path, Hash>, deleted: set<Path>)

  const EMPTY := Guard({}, map[], {})

  /** One lock hold on one of the three collections. Every call and every release timer is a few of these,
      and concurrent calls interleave at this grain. */
  datatype Touch =
    | PendingAdd(path: Path) | PendingDrop(path: Path)
    | HashSet(path: Path, hash: Hash) | HashDrop(path: Path) | HashDropAll
    | MarkerSet(path: Path) | MarkerClear(path: Path)

  function Touched(g: Guard, t: Touch): Guard {
    match t
    case PendingAdd(p) => g.(pending := g.pending + {p})
    case PendingDrop(p) => g.(pending := g.pending - {p})
    case HashSet(p, h) => g.(published := g.published[p := h])
    case HashDrop(p) => g.(published := g.published - {p})
    case HashDropAll => g.(published := map[])
    case MarkerSet(p) => g.(deleted := g.deleted + {p})
    case MarkerClear(p) => g.(deleted := g.deleted - {p})
  }

  function Run(trace: seq<Touch>): Guard {
    if trace == [] then EMPTY else Touched(Run(trace[..|trace| - 1]), trace[|trace| - 1])
  }

  predicate SkipRemoval(g: Guard, p: Path) { p in g.deleted }

  predicate SkipLocal(g: Guard, p: Path, h: Hash) { p in g.pending || (p in g.published && g.published[p] == h) }

  datatype Mark = Fresh | Duplicate

  class EchoGuard {
    var pending: set<Path>
    var lastPublished: map<Path, Hash>
    var peerDeleted: set<Path>

    constructor ()
      ensures View() == EMPTY
    {
      pending, lastPublished, peerDeleted := {}, map[], {};
    }

    ghost function View(): Guard reads this { Guard(pending, lastPublished, peerDeleted) }

    method MarkRemoteWrite(p: Path, h: Hash)
      modifies this
      ensures View() == Touched(Touched(Touched(old(View()), PendingAdd(p)), MarkerClear(p)), HashSet(p, h))
    {
      pending := pending + {p};
      peerDeleted := peerDeleted - {p};
      lastPublished := lastPublished[p := h];
    }

    method UnmarkRemoteWrite(p: Path)
      modifies this
      ensures View() == Touched(Touched(old(View()), PendingDrop(p)), HashDrop(p))
    {
      pending := pending - {p};
      lastPublished := lastPublished - {p};
    }

    method MarkRemoteDelete(p: Path) returns (mark: Mark)
      modifies this
      ensures View() == Touched(Touched(old(View()), HashDrop(p)), MarkerSet(p))
      ensures mark == if SkipRemoval(old(View()), p) then Duplicate else Fresh
    {
      lastPublished := lastPublished - {p};
      mark := if p in peerDeleted then Duplicate else Fresh;
      peerDeleted := peerDeleted + {p};
    }

    method ReleaseTimerFires(p: Path)
      modifies this
      ensures View() == Touched(old(View()), PendingDrop(p))
    {
      pending := pending - {p};
    }

    method RecordLocalPublish(p: Path, h: Hash)
      modifies this
      ensures View() == Touched(Touched(old(View()), MarkerClear(p)), HashSet(p, h))
    {
      peerDeleted := peerDeleted - {p};
      lastPublished := lastPublished[p := h];
    }

    method Forget(p: Path)
      modifies this
      ensures View() == Touched(old(View()), HashDrop(p))
    {
      lastPublished := lastPublished - {p};
    }

    method ForgetAllPublished()
      modifies this
      ensures View() == Touched(old(View()), HashDropAll)
    {
      lastPublished := map[];
    }

    method ShouldSkipRemoval(p: Path) returns (skip: bool)
      ensures skip == SkipRemoval(View(), p)
    {
      skip := p in peerDeleted;
    }

    method ShouldSkipLocal(p: Path, h: Hash) returns (skip: bool)
      ensures skip == SkipLocal(View(), p, h)
    {
      if p in pending { return true; }
      skip := p in lastPublished && lastPublished[p] == h;
    }
  }

  // ---- What a trace suppresses ----

  /** The last touch of `p`'s marker, if any, set it. */
  predicate LastMarkerSets(trace: seq<Touch>, p: Path) {
    exists i :: 0 <= i < |trace| && trace[i] == MarkerSet(p) && NoneAfter(trace, i, {MarkerClear(p)})
  }

  predicate NoneAfter(trace: seq<Touch>, i: int, touches: set<Touch>)
    requires -1 <= i
  {
    forall j :: i < j < |trace| ==> trace[j] !in touches
  }

  /** A removal is taken for an echo exactly while the last marker touch of the path was a remote delete,
      not a remote write or a local publish. */
  lemma {:induction false} RemovalSuppressedIff(trace: seq<Touch>, p: Path)
    ensures SkipRemoval(Run(trace), p) <==> LastMarkerSets(trace, p)
  {
    if trace != [] {
      var init, t := trace[..|trace| - 1], trace[|trace| - 1];
      RemovalSuppressedIff(init, p);
      if LastMarkerSets(init, p) && t != MarkerClear(p) {
        var i :| 0 <= i < |init| && init[i] == MarkerSet(p) && NoneAfter(init, i, {MarkerClear(p)});
        assert trace[i] == MarkerSet(p) && NoneAfter(trace, i, {MarkerClear(p)});
      }
      if LastMarkerSets(trace, p) && t != MarkerSet(p) {
        var i :| 0 <= i < |trace| && trace[i] == MarkerSet(p) && NoneAfter(trace, i, {MarkerClear(p)});
        assert init[i] == MarkerSet(p) && NoneAfter(init, i, {MarkerClear(p)});
        assert t != MarkerClear(p);
      }
      if t == MarkerSet(p) { assert trace[|trace| - 1] == MarkerSet(p)
          && NoneAfter(trace, |trace| - 1, {MarkerClear(p)}); }
    }
  }

  predicate ReplacesHash(t: Touch, p: Path) {
    (t.HashSet? && t.path == p) || t == HashDrop(p) || t.HashDropAll?
  }

  predicate NoneReplaces(trace: seq<Touch>, i: int, p: Path)
    requires -1 <= i
  {
    forall j :: i < j < |trace| ==> !ReplacesHash(trace[j], p)
  }

  predicate LastHashIs(trace: seq<Touch>, p: Path, h: Hash) {
    exists i :: 0 <= i < |trace| && trace[i] == HashSet(p, h) && NoneReplaces(trace, i, p)
  }

  lemma {:induction false} HashKeptIff(trace: seq<Touch>, p: Path, h: Hash)
    ensures (p in Run(trace).published && Run(trace).published[p] == h) <==> LastHashIs(trace, p, h)
  {
    if trace != [] {
      var init, t := trace[..|trace| - 1], trace[|trace| - 1];
      HashKeptIff(init, p, h);
      if LastHashIs(init, p, h) && !ReplacesHash(t, p) {
        var i :| 0 <= i < |init| && init[i] == HashSet(p, h) && NoneReplaces(init, i, p);
        assert trace[i] == HashSet(p, h);
        forall j | i < j < |trace| ensures !ReplacesHash(trace[j], p) { if j < |init| { assert trace[j] == init[j]; } }
      }
      if LastHashIs(trace, p, h) && t != HashSet(p, h) {
        var i :| 0 <= i < |trace| && trace[i] == HashSet(p, h) && NoneReplaces(trace, i, p);
        assert init[i] == HashSet(p, h);
        assert !ReplacesHash(trace[|trace| - 1], p);
        forall j | i < j < |init| ensures !ReplacesHash(init[j], p) { assert init[j] == trace[j]; }
      }
      if t == HashSet(p, h) { assert trace[|trace| - 1] == HashSet(p, h); }
    }
  }

  predicate LastPendingAdds(trace: seq<Touch>, p: Path) {
    exists i :: 0 <= i < |trace| && trace[i] == PendingAdd(p) && NoneAfter(trace, i, {PendingDrop(p)})
  }

  lemma {:induction false} PendingIff(trace: seq<Touch>, p: Path)
    ensures p in Run(trace).pending <==> LastPendingAdds(trace, p)
  {
    if trace != [] {
      var init, t := trace[..|trace| - 1], trace[|trace| - 1];
      PendingIff(init, p);
      if LastPendingAdds(init, p) && t != PendingDrop(p) {
        var i :| 0 <= i < |init| && init[i] == PendingAdd(p) && NoneAfter(init, i, {PendingDrop(p)});
        assert trace[i] == PendingAdd(p) && NoneAfter(trace, i, {PendingDrop(p)});
      }
      if LastPendingAdds(trace, p) && t != PendingAdd(p) {
        var i :| 0 <= i < |trace| && trace[i] == PendingAdd(p) && NoneAfter(trace, i, {PendingDrop(p)});
        assert init[i] == PendingAdd(p) && NoneAfter(init, i, {PendingDrop(p)});
        assert t != PendingDrop(p);
      }
      if t == PendingAdd(p) { assert trace[|trace| - 1] == PendingAdd(p)
          && NoneAfter(trace, |trace| - 1, {PendingDrop(p)}); }
    }
  }

  /** A local change is taken for an echo exactly while a peer write of the path is in its grace, or its
      content is the one last recorded; so recorded content stays suppressed however many timers fire. */
  lemma LocalSuppressedIff(trace: seq<Touch>, p: Path, h: Hash)
    ensures SkipLocal(Run(trace), p, h) <==> LastPendingAdds(trace, p) || LastHashIs(trace, p, h)
  {
    PendingIff(trace, p);
    HashKeptIff(trace, p, h);
  }

  // ---- Fresh tombstones ----

  /** How often marking `p` reported a fresh tombstone. */
  function FreshMarks(trace: seq<Touch>, p: Path): nat {
    if trace == [] then 0
    else
      var init := trace[..|trace| - 1];
      FreshMarks(init, p) + if trace[|trace| - 1] == MarkerSet(p) && !SkipRemoval(Run(init), p) then 1 else 0
  }

  /** How often `p` was recorded as existing again while it was marked. */
  function Recreations(trace: seq<Touch>, p: Path): nat {
    if trace == [] then 0
    else
      var init := trace[..|trace| - 1];
      Recreations(init, p) + if trace[|trace| - 1] == MarkerClear(p) && SkipRemoval(Run(init), p) then 1 else 0
  }

  /** Fresh tombstones and recorded re-creations alternate, so there is at most one more of the former, and
      there is one more exactly while the path counts as deleted. */
  lemma {:induction false} FreshPerRecreation(trace: seq<Touch>, p: Path)
    ensures FreshMarks(trace, p) == Recreations(trace, p) + if SkipRemoval(Run(trace), p) then 1 else 0
  {
    if trace != [] { FreshPerRecreation(trace[..|trace| - 1], p); }
  }

  // ---- The applier's removal ----

  /** What the applier compares: no contents, and times in whole seconds. */
  datatype Fingerprint = Fingerprint(dev: nat, inode: nat, mtime: int, len: nat)

  datatype File = File(identity: Fingerprint, body: Bytes)

  /** A fresh tombstone on its way: marked, its fingerprint taken, the second fingerprint found equal. Other
      processes can write to the disk between any two of these, and before the unlink that follows. */
  datatype Applier = Idle | Marked(path: Path) | Armed(path: Path, before: Option<Fingerprint>) | Checked(path: Path)

  datatype World = World(guard: Guard, disk: map<Path, File>, applier: Applier, removed: seq<Path>)

  datatype Event =
    | Other(touch: Touch)
    | Tombstone(path: Path)
    | Snapshot
    | Compare
    | Unlink
    | LocalWrite(path: Path, file: File)
    | LocalRemove(path: Path)

  function FingerprintOf(disk: map<Path, File>, p: Path): Option<Fingerprint> {
    if p in disk then Some(disk[p].identity) else None
  }

  function Step(w: World, e: Event): World {
    match e
    case Other(t) => if t.MarkerSet? then w else w.(guard := Touched(w.guard, t))
    case Tombstone(p) =>
      if !w.applier.Idle? then w
      else w.(guard := Touched(Touched(w.guard, HashDrop(p)), MarkerSet(p)),
              applier := if SkipRemoval(w.guard, p) then Idle else Marked(p))
    case Snapshot => if w.applier.Marked? then w.(applier := Armed(w.applier.path, FingerprintOf(w.disk,
        w.applier.path))) else w
    case Compare =>
      if !w.applier.Armed? then w
      else w.(applier := if FingerprintOf(w.disk,
          w.applier.path) == w.applier.before then Checked(w.applier.path) else Idle)
    case Unlink =>
      if !w.applier.Checked? then w
      else w.(disk := w.disk - {w.applier.path}, applier := Idle, removed := w.removed + [w.applier.path])
    case LocalWrite(p, f) => w.(disk := w.disk[p := f])
    case LocalRemove(p) => w.(disk := w.disk - {p})
  }

  function Continue(w: World, events: seq<Event>): World {
    if events == [] then w else Step(Continue(w, events[..|events| - 1]), events[|events| - 1])
  }

  /** The sequential routine, with the disk as other processes have left it at each of its three accesses. */
  method ApplyTombstone(guard: EchoGuard, disk: map<Path, File>, p: Path, atSnapshot: map<Path, File>,
                        atCompare: map<Path, File>, atUnlink: map<Path, File>)
    returns (after: map<Path, File>, announced: bool)
    modifies guard
    ensures guard.View() == Touched(Touched(old(guard.View()), HashDrop(p)), MarkerSet(p))
    ensures announced <==>
              !SkipRemoval(old(guard.View()), p) && FingerprintOf(atCompare, p) == FingerprintOf(atSnapshot, p)
    ensures after == if announced then atUnlink - {p} else if SkipRemoval(old(guard.View()), p) then disk else atCompare
  {
    var mark := guard.MarkRemoteDelete(p);
    if mark == Duplicate { return disk, false; }
    var before := FingerprintOf(atSnapshot, p);
    if FingerprintOf(atCompare, p) != before { return atCompare, false; }
    return atUnlink - {p}, true;
  }

  /** The events after which nobody but the applier can have touched `p`, and no re-creation was recorded. */
  predicate HandsOff(events: seq<Event>, p: Path) {
    forall i :: 0 <= i < |events| ==>
      events[i] != Other(MarkerClear(p)) && events[i] != LocalRemove(p) && !(events[i].LocalWrite?
          && events[i].path == p)
  }

  /** The applier is not already committed to removing what is at `p`. */
  predicate Uncommitted(w: World, p: Path) {
    match w.applier
    case Idle => true
    case Marked(q) => q != p
    case Armed(q, before) => q != p || FingerprintOf(w.disk, p) != before
    case Checked(q) => q != p
  }

  lemma {:induction false} Spared(w: World, events: seq<Event>, p: Path)
    requires p in w.guard.deleted && p in w.disk && Uncommitted(w, p) && HandsOff(events, p)
    ensures var now := Continue(w, events);
            p in now.guard.deleted && p in now.disk && now.disk[p] == w.disk[p] && Uncommitted(now, p)
  {
    if events != [] {
      var init := events[..|events| - 1];
      assert HandsOff(init, p);
      Spared(w, init, p);
    }
  }

  /** The rest of a tombstone that is past its mark. */
  function Remainder(a: Applier): seq<Event> {
    match a
    case Idle => []
    case Marked(_) => [Snapshot, Compare, Unlink]
    case Armed(_, _) => [Compare, Unlink]
    case Checked(_) => [Unlink]
  }

  lemma CommittedIsLost(w: World, p: Path)
    requires !Uncommitted(w, p)
    ensures HandsOff(Remainder(w.applier), p) && p !in Continue(w, Remainder(w.applier)).disk
  {
    var events := Remainder(w.applier);
    match w.applier
    case Marked(_) =>
      assert events[..2] == [Snapshot, Compare] && [Snapshot, Compare][..1] == [Snapshot] && [Snapshot][..0] == [];
      assert Continue(w, [Snapshot]) == Step(w, Snapshot);
      assert Continue(w, [Snapshot, Compare]) == Step(Step(w, Snapshot), Compare);
    case Armed(_, _) =>
      assert events[..1] == [Compare] && [Compare][..0] == [];
      assert Continue(w, [Compare]) == Step(w, Compare);
    case Checked(_) => assert events[..0] == [];
  }

  /** At the moment a local process writes `f` to `p`: the tombstone under way, if any, will not take it. */
  predicate Spares(a: Applier, p: Path, f: File) {
    match a
    case Idle => true
    case Marked(q) => q != p
    case Armed(q, before) => q != p || before != Some(f.identity)
    case Checked(q) => q != p
  }

  /** The file is as it was written, whatever tombstones follow, until someone else touches the path or its
      re-creation is recorded. */
  ghost predicate Outlives(w: World, p: Path, f: File) {
    forall events :: HandsOff(events, p) ==> var now := Continue(w, events); p in now.disk && now.disk[p] == f
  }

  /** In every run, a file that a local process writes to a peer-deleted path outlives every later tombstone,
      duplicates included, if and only if it does not land between a fresh mark and the first fingerprint, nor
      between the fingerprints with an identity equal to the first, nor between the second and the unlink. */
  lemma LocalWriteSparedIff(events: seq<Event>, p: Path, f: File)
    requires p in Continue(NEW, events).guard.deleted
    ensures var w := Continue(NEW, events);
            Outlives(Step(w, LocalWrite(p, f)), p, f) <==> Spares(w.applier, p, f)
  {
    var w := Step(Continue(NEW, events), LocalWrite(p, f));
    if Uncommitted(w, p) {
      forall events | HandsOff(events, p)
        ensures var now := Continue(w, events); p in now.disk && now.disk[p] == f {
        Spared(w, events, p);
      }
    } else {
      CommittedIsLost(w, p);
    }
  }

  // ---- Runs that lose a local write ----

  lemma ContinueStep(w: World, events: seq<Event>, e: Event)
    ensures Continue(w, events + [e]) == Step(Continue(w, events), e)
  {
    assert (events + [e])[..|events|] == events;
  }

  /** A run from the start: a tombstone for `p` is marked and its first fingerprint taken of `was`. */
  function ArmedRun(p: Path, was: File): seq<Event> { [LocalWrite(p, was)] + [Tombstone(p)] + [Snapshot] }

  lemma ArmedState(p: Path, was: File)
    ensures var w := Continue(NEW, ArmedRun(p, was));
            w.applier == Armed(p, Some(was.identity)) && p in w.guard.deleted && w.disk == map[p := was]
  {
    assert [LocalWrite(p, was)][..0] == [];
    assert Continue(NEW, [LocalWrite(p, was)]) == Step(NEW, LocalWrite(p, was));
    ContinueStep(NEW, [LocalWrite(p, was)], Tombstone(p));
    ContinueStep(NEW, [LocalWrite(p, was)] + [Tombstone(p)], Snapshot);
  }

  /** A write of the same length within the same second, in place, hides behind the fingerprint and is removed. */
  lemma HiddenWriteLost(p: Path, was: File, f: File)
    requires f.identity == was.identity && f.body != was.body
    ensures var events := ArmedRun(p, was) + [LocalWrite(p, f)] + [Compare] + [Unlink];
            p !in Continue(NEW, events).disk && p in Continue(NEW, events).removed
  {
    var a := ArmedRun(p, was);
    ArmedState(p, was);
    ContinueStep(NEW, a, LocalWrite(p, f));
    ContinueStep(NEW, a + [LocalWrite(p, f)], Compare);
    ContinueStep(NEW, a + [LocalWrite(p, f)] + [Compare], Unlink);
    var w := Continue(NEW, a + [LocalWrite(p, f)] + [Compare]);
    assert (w.removed + [p])[|w.removed|] == p;
  }

  /** A write of any file after the comparison is removed. */
  lemma LateWriteLost(p: Path, was: File, f: File)
    ensures var events := ArmedRun(p, was) + [Compare] + [LocalWrite(p, f)] + [Unlink];
            p !in Continue(NEW, events).disk && p in Continue(NEW, events).removed
  {
    var a := ArmedRun(p, was);
    ArmedState(p, was);
    ContinueStep(NEW, a, Compare);
    ContinueStep(NEW, a + [Compare], LocalWrite(p, f));
    ContinueStep(NEW, a + [Compare] + [LocalWrite(p, f)], Unlink);
    var w := Continue(NEW, a + [Compare] + [LocalWrite(p, f)]);
    assert (w.removed + [p])[|w.removed|] == p;
  }

  // ---- Counting removals ----

  const NEW := World(EMPTY, map[], Idle, [])

  /** What an event does to the guard, as lock holds. */
  function TouchesOf(w: World, e: Event): seq<Touch> {
    match e
    case Other(t) => if t.MarkerSet? then [] else [t]
    case Tombstone(p) => if w.applier.Idle? then [HashDrop(p), MarkerSet(p)] else []
    case _ => []
  }

  function Trace(events: seq<Event>): seq<Touch> {
    if events == [] then []
    else Trace(events[..|events| - 1]) + TouchesOf(Continue(NEW, events[..|events| - 1]), events[|events| - 1])
  }

  lemma Appended(trace: seq<Touch>, t: Touch, p: Path)
    ensures Run(trace + [t]) == Touched(Run(trace), t)
    ensures FreshMarks(trace + [t], p) == FreshMarks(trace, p) + if t == MarkerSet(p)
        && !SkipRemoval(Run(trace), p) then 1 else 0
  {
    assert (trace + [t])[..|trace|] == trace;
  }

  lemma TraceStep(trace: seq<Touch>, w: World, e: Event, p: Path)
    requires Run(trace) == w.guard
    ensures Run(trace + TouchesOf(w, e)) == Step(w, e).guard
    ensures FreshMarks(trace + TouchesOf(w, e), p) ==
              FreshMarks(trace, p) + if e == Tombstone(p) && w.applier.Idle? && !SkipRemoval(w.guard, p) then 1 else 0
  {
    var more := TouchesOf(w, e);
    if |more| == 0 {
      assert trace + more == trace;
    } else if |more| == 1 {
      Appended(trace, more[0], p);
      assert more == [more[0]];
    } else {
      Appended(trace, more[0], p);
      Appended(trace + [more[0]], more[1], p);
      assert trace + more == trace + [more[0]] + [more[1]];
    }
  }

  /** Removals done and the one under way. */
  function Removals(w: World, p: Path): nat {
    multiset(w.removed)[p] + if !w.applier.Idle? && w.applier.path == p then 1 else 0
  }

  lemma RemovalsStep(w: World, e: Event, p: Path)
    ensures Removals(Step(w, e), p) <=
              Removals(w, p) + if e == Tombstone(p) && w.applier.Idle? && !SkipRemoval(w.guard, p) then 1 else 0
  { }

  lemma {:induction false} RemovalsAreFresh(events: seq<Event>, p: Path)
    ensures Run(Trace(events)) == Continue(NEW, events).guard
    ensures Removals(Continue(NEW, events), p) <= FreshMarks(Trace(events), p)
  {
    if events != [] {
      var init, e := events[..|events| - 1], events[|events| - 1];
      RemovalsAreFresh(init, p);
      TraceStep(Trace(init), Continue(NEW, init), e, p);
      RemovalsStep(Continue(NEW, init), e, p);
    }
  }

  /** The applier removes a path at most once more than the path was recorded as re-created. */
  lemma RemovalsBounded(events: seq<Event>, p: Path)
    ensures multiset(Continue(NEW, events).removed)[p] <= Recreations(Trace(events), p) + 1
  {
    RemovalsAreFresh(events, p);
    FreshPerRecreation(Trace(events), p);
  }
}
