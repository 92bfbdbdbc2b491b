/** The event pipeline: a broadcast ring drained by a forwarder, and a bounded queue filled by the client
    reader. Each may lose events, and each must say so in band. */
module Pipeline {
  import opened Protocol

  const CAPACITY: nat := 256

  datatype Item<T> = Event(value: T) | ReplayComplete | Gap

  // ---- Lossy with gaps ----

  /** `out` is `src` with some nonempty runs each replaced by one `Gap`, and nothing else changed. */
  ghost predicate Lossy<T>(src: seq<Item<T>>, out: seq<Item<T>>)
    decreases |out|
  {
    if out == [] then src == []
    else exists k: nat :: LastIs(src, out, k)
  }

  ghost predicate LastIs<T>(src: seq<Item<T>>, out: seq<Item<T>>, k: nat)
    requires out != []
    decreases |out|, 0
  {
    k < |src| && Lossy(src[..k], out[..|out| - 1])
    && (out[|out| - 1] == Gap || (k == |src| - 1 && out[|out| - 1] == src[k]))
  }

  lemma Extend<T>(src: seq<Item<T>>, out: seq<Item<T>>, run: seq<Item<T>>, x: Item<T>)
    requires Lossy(src, out) && run != []
    requires x == Gap || run == [x]
    ensures Lossy(src + run, out + [x])
  {
    assert (src + run)[..|src|] == src;
    assert (out + [x])[..|out|] == out;
    assert LastIs(src + run, out + [x], |src|);
  }

  /** A pending gap swallows whatever else is lost. */
  lemma Absorb<T>(src: seq<Item<T>>, out: seq<Item<T>>, x: Item<T>)
    requires Lossy(src, out + [Gap])
    ensures Lossy(src + [x], out + [Gap])
  {
    var k: nat :| LastIs(src, out + [Gap], k);
    assert (src + [x])[..k] == src[..k];
    assert LastIs(src + [x], out + [Gap], k);
  }

  /** Every prefix of a lossy view is a lossy view of a prefix. */
  lemma {:induction false} LossyPrefix<T>(src: seq<Item<T>>, out: seq<Item<T>>, n: nat) returns (k: nat)
    requires Lossy(src, out) && n <= |out|
    ensures k <= |src| && Lossy(src[..k], out[..n]) && (n < |out| ==> k < |src|)
    decreases |out|
  {
    if n == |out| {
      assert src[..|src|] == src && out[..n] == out;
      k := |src|;
    } else {
      var j: nat :| LastIs(src, out, j);
      k := LossyPrefix(src[..j], out[..|out| - 1], n);
      assert src[..j][..k] == src[..k];
      assert out[..|out| - 1][..n] == out[..n];
    }
  }

  /** Two lossy stages in a row are one. */
  lemma {:induction false} LossyTransitive<T>(a: seq<Item<T>>, b: seq<Item<T>>, c: seq<Item<T>>)
    requires Lossy(a, b) && Lossy(b, c)
    ensures Lossy(a, c)
    decreases |c|
  {
    if c != [] {
      var k: nat :| LastIs(b, c, k);
      if c[|c| - 1] == Gap {
        var j := LossyPrefix(a, b, k);
        LossyTransitive(a[..j], b[..k], c[..|c| - 1]);
        assert LastIs(a, c, j);
      } else {
        var j: nat :| LastIs(a, b, j);
        LossyTransitive(a[..j], b[..k], c[..|c| - 1]);
        assert LastIs(a, c, j);
      }
    }
  }

  /** A view without a gap is the source itself. */
  lemma {:induction false} GapFreeIsExact<T>(src: seq<Item<T>>, out: seq<Item<T>>)
    requires Lossy(src, out) && Gap !in out
    ensures out == src
    decreases |out|
  {
    if out != [] {
      var k: nat :| LastIs(src, out, k);
      assert out[|out| - 1] in out;
      GapFreeIsExact(src[..k], out[..|out| - 1]);
      assert src == src[..k] + [src[k]];
      assert out == out[..|out| - 1] + [out[|out| - 1]];
    }
  }

  /** Neighbours in a lossy view that are not gaps were neighbours in the source. */
  lemma NoSilentHole<T>(src: seq<Item<T>>, out: seq<Item<T>>, i: nat) returns (k: nat)
    requires Lossy(src, out) && i + 1 < |out| && out[i] != Gap && out[i + 1] != Gap
    ensures k + 1 < |src| && src[k] == out[i] && src[k + 1] == out[i + 1]
  {
    var n := LossyPrefix(src, out, i + 2);
    var top := out[..i + 2];
    var j: nat :| LastIs(src[..n], top, j);
    var before := top[..i + 1];
    assert Lossy(src[..n][..j], before);
    var h: nat :| LastIs(src[..n][..j], before, h);
    k := h;
  }

  predicate SingleGaps<T>(out: seq<Item<T>>) {
    forall i :: 0 <= i < |out| - 1 ==> !(out[i] == Gap && out[i + 1] == Gap)
  }

  /** Neighbouring gaps read as one. */
  function Coalesce<T>(out: seq<Item<T>>): seq<Item<T>> {
    if out == [] then []
    else
      var rest, x := Coalesce(out[..|out| - 1]), out[|out| - 1];
      if x == Gap && rest != [] && rest[|rest| - 1] == Gap then rest else rest + [x]
  }

  /** A stage may report one loss with two gaps in a row; read as one, each gap stands for a maximal lost
      run, since what precedes and follows it was kept. */
  lemma {:induction false} CoalescedRunsAreMaximal<T>(src: seq<Item<T>>, out: seq<Item<T>>)
    requires Lossy(src, out)
    ensures Lossy(src, Coalesce(out)) && SingleGaps(Coalesce(out))
    ensures out != [] ==> Coalesce(out) != [] && Coalesce(out)[|Coalesce(out)| - 1] == out[|out| - 1]
    decreases |out|
  {
    if out != [] {
      var k: nat :| LastIs(src, out, k);
      var front, x := out[..|out| - 1], out[|out| - 1];
      CoalescedRunsAreMaximal(src[..k], front);
      var rest := Coalesce(front);
      if x == Gap && EndsInGap(rest) {
        Widen(src, k, rest);
      } else {
        assert src == src[..k] + src[k..];
        Extend(src[..k], rest, src[k..], x);
        AppendKeepsSingle(rest, x);
      }
    }
  }

  /** A last gap stands for whatever else follows. */
  lemma Widen<T>(src: seq<Item<T>>, k: nat, out: seq<Item<T>>)
    requires k <= |src| && EndsInGap(out) && Lossy(src[..k], out)
    ensures Lossy(src, out)
  {
    var j: nat :| LastIs(src[..k], out, j);
    assert src[..k][..j] == src[..j];
    assert LastIs(src, out, j);
  }

  // ---- The daemon's forwarder ----

  function Wrap<T>(s: seq<T>): seq<Item<T>> { seq(|s|, i requires 0 <= i < |s| => Event(s[i])) }

  /** `published` is the broadcast since the subscription, of which the ring keeps the last `CAPACITY`;
      `cursor` counts what the forwarder is past, in replay, completion marker and broadcast together. */
  datatype Forwarder<T> = Forwarder(replay: seq<T>, published: seq<T>, cursor: nat, sent: seq<Item<T>>, open: bool)

  function Source<T>(f: Forwarder<T>): seq<Item<T>> { Wrap(f.replay) + [ReplayComplete] + Wrap(f.published) }

  datatype ForwarderEvent<T> = Publish(value: T) | Turn(delivered: bool) | Shutdown

  predicate Lagged<T>(f: Forwarder<T>) {
    f.cursor > |f.replay| && |Source(f)| - f.cursor > CAPACITY
  }

  function Forward<T>(f: Forwarder<T>, e: ForwarderEvent<T>): Forwarder<T> {
    match e
    case Publish(v) => f.(published := f.published + [v])
    case Shutdown => f.(open := false)
    case Turn(delivered) =>
      if !f.open || f.cursor >= |Source(f)| then f
      else if !delivered then f.(open := false)
      else if Lagged(f) then f.(cursor := |Source(f)| - CAPACITY, sent := f.sent + [Gap])
      else f.(cursor := f.cursor + 1, sent := f.sent + [Source(f)[f.cursor]])
  }

  function ForwardAll<T>(replay: seq<T>, events: seq<ForwarderEvent<T>>): Forwarder<T> {
    if events == [] then Forwarder(replay, [], 0, [], true)
    else Forward(ForwardAll(replay, events[..|events| - 1]), events[|events| - 1])
  }

  /** The forwarding task and the ring it reads. The ring drops its oldest entry when it is full, and a
      receiver left behind is moved to the oldest retained entry and told so. */
  class SubscriptionForwarder<T(==)> {
    const replay: seq<T>
    var replayed: nat
    var completed: bool
    var ring: seq<T>
    var ringStart: nat
    var position: nat
    var sent: seq<Item<T>>
    var open: bool
    ghost var published: seq<T>

    constructor (replay: seq<T>)
      ensures Valid() && this.replay == replay && View() == Forwarder(replay, [], 0, [], true)
    {
      this.replay := replay;
      replayed, completed, ring, ringStart, position, sent, open, published := 0, false, [], 0, 0, [], true, [];
    }

    ghost predicate Valid() reads this {
      && replayed <= |replay| && (completed ==> replayed == |replay|) && (position > 0 ==> completed)
      && ringStart + |ring| == |published| && ring == published[ringStart..]
      && |ring| == (if |published| <= CAPACITY then |published| else CAPACITY)
      && position <= |published|
    }

    ghost function View(): Forwarder<T> reads this {
      Forwarder(replay, published, if completed then |replay| + 1 + position else replayed, sent, open)
    }

    method Broadcast(v: T)
      requires Valid()
      modifies this`ring, this`ringStart, this`published
      ensures Valid() && View() == Forward(old(View()), Publish(v))
    {
      if |ring| == CAPACITY {
        ring, ringStart := ring[1..] + [v], ringStart + 1;
      } else {
        ring := ring + [v];
      }
      published := published + [v];
    }

    /** One pass of the task: a replayed message, the completion marker, or whatever the ring yields. */
    method Pass(delivered: bool)
      requires Valid()
      modifies this
      ensures Valid() && View() == Forward(old(View()), Turn(delivered))
    {
      if !open { return; }
      if replayed < |replay| {
        if !delivered { open := false; return; }
        sent := sent + [Event(replay[replayed])];
        replayed := replayed + 1;
      } else if !completed {
        if !delivered { open := false; return; }
        sent := sent + [ReplayComplete];
        completed := true;
      } else if position < ringStart {
        if !delivered { open := false; return; }
        position := ringStart;
        sent := sent + [Gap];
      } else if position < ringStart + |ring| {
        if !delivered { open := false; return; }
        sent := sent + [Event(ring[position - ringStart])];
        position := position + 1;
      }
    }
  }

  /** The forwarder's frames are its source, up to the cursor, with lost runs as gaps. */
  lemma {:induction false} ForwarderLossy<T>(replay: seq<T>, events: seq<ForwarderEvent<T>>)
    ensures var f := ForwardAll(replay, events);
            f.replay == replay && f.cursor <= |Source(f)| && Lossy(Source(f)[..f.cursor], f.sent)
  {
    if events != [] {
      var init, e := events[..|events| - 1], events[|events| - 1];
      ForwarderLossy(replay, init);
      var f, next := ForwardAll(replay, init), ForwardAll(replay, events);
      ForwardEffect(f, e);
      var src := Source(f);
      assert Source(next)[..f.cursor] == src[..f.cursor];
      if next.cursor != f.cursor {
        var run := src[f.cursor..next.cursor];
        assert src[..next.cursor] == src[..f.cursor] + run;
        Extend(src[..f.cursor], f.sent, run, next.sent[|f.sent|]);
      }
    }
  }

  /** A step moves on by one item, which it forwards, or by a lost run, for which it sends a gap. */
  lemma ForwardEffect<T>(f: Forwarder<T>, e: ForwarderEvent<T>)
    requires f.cursor <= |Source(f)|
    ensures var next := Forward(f, e);
            && next.replay == f.replay && Source(f) <= Source(next)
            && if next.cursor == f.cursor then next.sent == f.sent
               else && Source(next) == Source(f) && f.cursor < next.cursor <= |Source(f)|
                    && (next.sent == f.sent + [Gap] || (next.cursor == f.cursor + 1
                        && next.sent == f.sent + [Source(f)[f.cursor]]))
  {
  }

  /** The wire carries a gap only if a turn found the receiver overrun, so a forwarder that never falls
      more than a ring behind forwards everything. */
  lemma {:induction false} GapMeansLagged<T>(replay: seq<T>, events: seq<ForwarderEvent<T>>)
    ensures Gap in ForwardAll(replay, events).sent <==>
              exists n :: 0 <= n < |events| && LaggingTurn(replay, events, n)
  {
    if events != [] {
      var init := events[..|events| - 1];
      GapMeansLagged(replay, init);
      forall n | 0 <= n < |init| ensures LaggingTurn(replay, init, n) <==> LaggingTurn(replay, events, n) {
        assert init[..n] == events[..n];
      }
      assert events[..|init|] == init;
      GapNow(ForwardAll(replay, init), events[|init|]);
      if Gap in ForwardAll(replay, init).sent {
        var n :| 0 <= n < |init| && LaggingTurn(replay, init, n);
        assert LaggingTurn(replay, events, n);
      }
      assert LaggingTurn(replay, events, |init|) <==>
               ForwardAll(replay, init).open && events[|init|].Turn? && events[|init|].delivered
               && Lagged(ForwardAll(replay, init));
    }
  }

  lemma GapNow<T>(f: Forwarder<T>, e: ForwarderEvent<T>)
    ensures Gap in Forward(f, e).sent <==> Gap in f.sent || (f.open && e.Turn? && e.delivered && Lagged(f))
  {
  }

  predicate LaggingTurn<T>(replay: seq<T>, events: seq<ForwarderEvent<T>>, n: nat)
    requires n < |events|
  {
    var f := ForwardAll(replay, events[..n]);
    f.open && events[n].Turn? && events[n].delivered && Lagged(f)
  }

  predicate EndsInGap<T>(out: seq<Item<T>>) { out != [] && out[|out| - 1] == Gap }

  lemma AppendKeepsSingle<T>(out: seq<Item<T>>, x: Item<T>)
    ensures SingleGaps(out + [x]) <==> SingleGaps(out) && !(EndsInGap(out) && x == Gap)
  {
    if SingleGaps(out + [x]) {
      forall i | 0 <= i < |out| - 1 ensures !(out[i] == Gap && out[i + 1] == Gap) {
        assert (out + [x])[i] == out[i] && (out + [x])[i + 1] == out[i + 1];
      }
      if out != [] { assert (out + [x])[|out| - 1] == out[|out| - 1] && (out + [x])[|out| - 1 + 1] == x; }
    }
  }

  predicate OnlyPublishes<T>(events: seq<ForwarderEvent<T>>, n: nat, m: nat)
    requires m <= |events|
  {
    forall k :: n < k < m ==> events[k].Publish?
  }

  /** The forwarder's last act was the gap of the lagging turn `n`. */
  predicate GapLast<T>(replay: seq<T>, events: seq<ForwarderEvent<T>>, n: nat) {
    n < |events| && LaggingTurn(replay, events, n) && OnlyPublishes(events, n, |events|)
  }

  lemma LaggingPrefix<T>(replay: seq<T>, events: seq<ForwarderEvent<T>>, n: nat)
    requires n + 1 < |events|
    ensures LaggingTurn(replay, events, n) <==> LaggingTurn(replay, events[..|events| - 1], n)
  {
    assert events[..|events| - 1][..n] == events[..n];
  }

  /** Then the whole ring is still to be read, and whatever was published since has overrun it again. */
  lemma {:induction false} AfterGap<T>(replay: seq<T>, events: seq<ForwarderEvent<T>>, n: nat)
    requires GapLast(replay, events, n)
    ensures var f := ForwardAll(replay, events);
            && f.open && EndsInGap(f.sent) && f.cursor > |f.replay|
            && |Source(f)| - f.cursor == CAPACITY + (|events| - n - 1)
    decreases |events|
  {
    var init := events[..|events| - 1];
    if n < |init| {
      LaggingPrefix(replay, events, n);
      assert OnlyPublishes(init, n, |init|);
      AfterGap(replay, init, n);
      assert events[|init|].Publish?;
    } else {
      assert events[..n] == init;
    }
  }

  /** Conversely a stream that ends in a gap was left so by a lagging turn. */
  lemma {:induction false} GapWasLast<T>(replay: seq<T>, events: seq<ForwarderEvent<T>>) returns (n: nat)
    requires ForwardAll(replay, events).open && EndsInGap(ForwardAll(replay, events).sent)
    ensures GapLast(replay, events, n)
    decreases |events|
  {
    var init, e := events[..|events| - 1], events[|events| - 1];
    assert events[..|init|] == init;
    if LaggingTurn(replay, events, |init|) {
      n := |init|;
    } else {
      GapIsOlder(ForwardAll(replay, init), e);
      n := GapWasLast(replay, init);
      AfterGap(replay, init, n);
      GapIsNotLast(ForwardAll(replay, init), e);
      LaggingPrefix(replay, events, n);
    }
  }

  predicate Lags<T>(f: Forwarder<T>, e: ForwarderEvent<T>) { f.open && e.Turn? && e.delivered && Lagged(f) }

  lemma GapIsOlder<T>(f: Forwarder<T>, e: ForwarderEvent<T>)
    requires Forward(f, e).open && EndsInGap(Forward(f, e).sent) && !Lags(f, e)
    ensures f.open && EndsInGap(f.sent)
  {
  }

  lemma GapIsNotLast<T>(f: Forwarder<T>, e: ForwarderEvent<T>)
    requires f.open && f.cursor > |f.replay| && |Source(f)| - f.cursor >= CAPACITY && !Lags(f, e)
    requires Forward(f, e).open && EndsInGap(Forward(f, e).sent)
    ensures e.Publish?
  {
  }

  /** Something is published between the lagging turn `n` and the next turn `m`, and both are delivered. */
  predicate DoubleAt<T>(replay: seq<T>, events: seq<ForwarderEvent<T>>, n: nat, m: nat) {
    && n + 1 < m < |events| && LaggingTurn(replay, events, n) && OnlyPublishes(events, n, m)
    && events[m].Turn? && events[m].delivered
  }

  lemma DoublePrefix<T>(replay: seq<T>, events: seq<ForwarderEvent<T>>, n: nat, m: nat)
    requires m + 1 < |events|
    ensures DoubleAt(replay, events, n, m) <==> DoubleAt(replay, events[..|events| - 1], n, m)
  {
    if n + 1 < m {
      LaggingPrefix(replay, events, n);
      var init := events[..|events| - 1];
      assert forall k :: 0 <= k < |init| ==> init[k] == events[k];
    }
  }

  lemma DoubleNow<T>(replay: seq<T>, events: seq<ForwarderEvent<T>>)
    requires events != []
    ensures var f, m := ForwardAll(replay, events[..|events| - 1]), |events| - 1;
            LaggingTurn(replay, events, m) && EndsInGap(f.sent) <==>
              exists n :: 0 <= n < m && DoubleAt(replay, events, n, m)
  {
    var init, m := events[..|events| - 1], |events| - 1;
    assert events[..m] == init;
    if LaggingTurn(replay, events, m) && EndsInGap(ForwardAll(replay, init).sent) {
      var n := GapWasLast(replay, init);
      AfterGap(replay, init, n);
      LaggingPrefix(replay, events, n);
      assert DoubleAt(replay, events, n, m);
    }
    if exists n :: 0 <= n < m && DoubleAt(replay, events, n, m) {
      var n :| 0 <= n < m && DoubleAt(replay, events, n, m);
      LaggingPrefix(replay, events, n);
      assert GapLast(replay, init, n);
      AfterGap(replay, init, n);
    }
  }

  ghost predicate Doubled<T>(replay: seq<T>, events: seq<ForwarderEvent<T>>) {
    exists n: nat, m: nat :: n < |events| && m < |events| && DoubleAt(replay, events, n, m)
  }

  lemma DoubledStep<T>(replay: seq<T>, events: seq<ForwarderEvent<T>>)
    requires events != []
    ensures var init, m := events[..|events| - 1], |events| - 1;
            Doubled(replay, events) <==>
              Doubled(replay, init) || exists n :: 0 <= n < m && DoubleAt(replay, events, n, m)
  {
    var init, last := events[..|events| - 1], |events| - 1;
    if Doubled(replay, events) {
      var n: nat, m: nat :| n < |events| && m < |events| && DoubleAt(replay, events, n, m);
      if m < last { DoublePrefix(replay, events, n, m); }
    }
    if Doubled(replay, init) {
      var n: nat, m: nat :| n < |init| && m < |init| && DoubleAt(replay, init, n, m);
      DoublePrefix(replay, events, n, m);
    }
  }

  /** Each maximal lost run has one gap on the wire if and only if nothing is published between a turn that
      found the receiver overrun and the next turn. */
  lemma {:induction false} SingleGapsIff<T>(replay: seq<T>, events: seq<ForwarderEvent<T>>)
    ensures SingleGaps(ForwardAll(replay, events).sent) <==> !Doubled(replay, events)
  {
    if events != [] {
      var init := events[..|events| - 1];
      SingleGapsIff(replay, init);
      var f, next := ForwardAll(replay, init), ForwardAll(replay, events);
      assert events[..|init|] == init;
      DoubleNow(replay, events);
      DoubledStep(replay, events);
      assert LaggingTurn(replay, events, |init|) <==> next.sent != f.sent && next.sent[|f.sent|] == Gap;
      if next.sent != f.sent { AppendKeepsSingle(f.sent, next.sent[|f.sent|]); }
    }
  }

  function Flood<T>(v: T, n: nat): seq<ForwarderEvent<T>> {
    if n == 0 then [Turn(true)] else Flood(v, n - 1) + [Publish(v)]
  }

  lemma ForwardStep<T>(replay: seq<T>, events: seq<ForwarderEvent<T>>, e: ForwarderEvent<T>)
    ensures ForwardAll(replay, events + [e]) == Forward(ForwardAll(replay, events), e)
  {
    assert (events + [e])[..|events|] == events;
  }

  lemma {:induction false} Flooded<T>(v: T, n: nat)
    ensures var f := ForwardAll([], Flood(v, n));
            f.replay == [] && |f.published| == n && f.cursor == 1 && f.sent == [ReplayComplete] && f.open
  {
    if n == 0 {
      assert [] + [Turn(true)] == Flood(v, 0);
      ForwardStep<T>([], [], Turn(true));
    } else {
      Flooded(v, n - 1);
      ForwardStep([], Flood(v, n - 1), Publish(v));
    }
  }

  /** One event more than the ring holds, a turn, one more event, a turn: two gaps for one lost run. */
  lemma DoubleGapWitness<T>(v: T)
    ensures ForwardAll([], Flood(v,
        CAPACITY + 1) + [Turn(true)] + [Publish(v)] + [Turn(true)]).sent == [ReplayComplete, Gap, Gap]
  {
    var a := Flood(v, CAPACITY + 1);
    Flooded(v, CAPACITY + 1);
    ForwardStep([], a, Turn(true));
    ForwardStep([], a + [Turn(true)], Publish(v));
    ForwardStep([], a + [Turn(true)] + [Publish(v)], Turn(true));
  }

  // ---- The client's reader ----

  datatype Tagged<T> = Tagged(session: SessionId, item: Item<T>)

  datatype Frame<T> = Response(id: nat, body: nat) | Wire(tagged: Tagged<T>) | StrayRequest

  /** `gaps` is ordered and duplicate free, like the set it stands for; `taken` is what the consumer has
      received; `answered` lists the responses handed to their callers. */
  datatype Reader<T> = Reader(gaps: seq<SessionId>, queue: seq<Tagged<T>>, taken: seq<Tagged<T>>, open: bool,
                              pending: set<nat>, answered: seq<(nat, nat)>)

  datatype ReaderEvent<T> = Arrive(frame: Frame<T>) | FlushGap | Take | CloseReceiver | Ask(id: nat) | Cancel(id: nat)

  function Schedule(gaps: seq<SessionId>, s: SessionId): seq<SessionId> {
    if gaps == [] || s < gaps[0] then [s] + gaps
    else if s == gaps[0] then gaps
    else [gaps[0]] + Schedule(gaps[1..], s)
  }

  lemma {:induction false} ScheduleAt(gaps: seq<SessionId>, s: SessionId, i: nat)
    requires i <= |gaps| && (forall k :: 0 <= k < i ==> gaps[k] < s) && (i < |gaps| ==> s <= gaps[i])
    ensures Schedule(gaps, s) == if i < |gaps| && gaps[i] == s then gaps else gaps[..i] + [s] + gaps[i..]
  {
    if i > 0 {
      ScheduleAt(gaps[1..], s, i - 1);
      assert gaps == [gaps[0]] + gaps[1..];
      assert gaps[..i] == [gaps[0]] + gaps[1..][..i - 1] && gaps[1..][i - 1..] == gaps[i..];
    }
  }

  predicate Increasing(gaps: seq<SessionId>) {
    forall i, j :: 0 <= i < j < |gaps| ==> gaps[i] < gaps[j]
  }

  function Consume<T(==)>(r: Reader<T>, e: ReaderEvent<T>): Reader<T> {
    match e
    case Arrive(Response(id, body)) =>
      if id in r.pending then r.(pending := r.pending - {id}, answered := r.answered + [(id, body)]) else r
    case Arrive(StrayRequest) => r
    case Arrive(Wire(t)) =>
      if t.session in r.gaps || !r.open then r
      else if |r.queue| >= CAPACITY then r.(gaps := Schedule(r.gaps, t.session))
      else r.(queue := r.queue + [t])
    case FlushGap =>
      if r.gaps == [] then r
      else if !r.open then r.(gaps := [])
      else if |r.queue| >= CAPACITY then r
      else r.(gaps := r.gaps[1..], queue := r.queue + [Tagged(r.gaps[0], Gap)])
    case Take => if r.queue == [] then r else r.(queue := r.queue[1..], taken := r.taken + [r.queue[0]])
    case CloseReceiver => r.(open := false, queue := [])
    case Ask(id) => r.(pending := r.pending + {id})
    case Cancel(id) => r.(pending := r.pending - {id})
  }

  function ConsumeAll<T(==)>(events: seq<ReaderEvent<T>>): Reader<T> {
    if events == [] then Reader([], [], [], true, {}, [])
    else Consume(ConsumeAll(events[..|events| - 1]), events[|events| - 1])
  }

  class ClientReader<T(==)> {
    var gaps: seq<SessionId>
    var queue: seq<Tagged<T>>
    var open: bool
    var pending: set<nat>
    ghost var taken: seq<Tagged<T>>
    ghost var answered: seq<(nat, nat)>

    constructor ()
      ensures View() == Reader([], [], [], true, {}, [])
    {
      gaps, queue, open, pending, taken, answered := [], [], true, {}, [], [];
    }

    ghost function View(): Reader<T> reads this { Reader(gaps, queue, taken, open, pending, answered) }

    /** A response wakes its caller whatever the state of the event queue. */
    method OnFrame(frame: Frame<T>) returns (woken: Option<nat>)
      modifies this
      ensures View() == Consume(old(View()), Arrive(frame))
      ensures woken == if frame.Response? && frame.id in old(pending) then Some(frame.body) else None
    {
      woken := None;
      match frame
      case Response(id, body) =>
        if id in pending {
          pending := pending - {id};
          answered := answered + [(id, body)];
          woken := Some(body);
        }
      case Wire(t) =>
        if t.session in gaps { return; }
        if !open { return; }
        if |queue| < CAPACITY {
          queue := queue + [t];
        } else {
          ScheduleGap(t.session);
        }
      case StrayRequest =>
    }

    method ScheduleGap(s: SessionId)
      modifies this`gaps
      ensures gaps == Schedule(old(gaps), s)
    {
      var i := 0;
      while i < |gaps| && gaps[i] < s
        invariant i <= |gaps|
        invariant forall k :: 0 <= k < i ==> gaps[k] < s
      {
        i := i + 1;
      }
      ScheduleAt(gaps, s, i);
      if i < |gaps| && gaps[i] == s { return; }
      gaps := gaps[..i] + [s] + gaps[i..];
    }

    method FlushOne()
      requires gaps != []
      modifies this
      ensures View() == Consume(old(View()), FlushGap)
    {
      if !open {
        gaps := [];
      } else if |queue| < CAPACITY {
        var s := gaps[0];
        gaps := gaps[1..];
        queue := queue + [Tagged(s, Gap)];
      }
    }

    /** The consumer's side of the queue. */
    method Next() returns (t: Option<Tagged<T>>)
      modifies this
      ensures View() == Consume(old(View()), Take)
      ensures t == if old(queue) == [] then None else Some(old(queue)[0])
    {
      if queue == [] { return None; }
      t := Some(queue[0]);
      taken := taken + [queue[0]];
      queue := queue[1..];
    }
  }

  /** One session's items in a tagged stream. */
  function Of<T>(s: SessionId, q: seq<Tagged<T>>): seq<Item<T>> {
    if q == [] then []
    else Of(s, q[..|q| - 1]) + if q[|q| - 1].session == s then [q[|q| - 1].item] else []
  }

  lemma {:induction false} OfConcat<T>(s: SessionId, a: seq<Tagged<T>>, b: seq<Tagged<T>>)
    ensures Of(s, a + b) == Of(s, a) + Of(s, b)
  {
    if b == [] {
      assert a + b == a;
    } else {
      OfConcat(s, a, b[..|b| - 1]);
      assert (a + b)[..|a + b| - 1] == a + b[..|b| - 1];
    }
  }

  /** One session's items among the frames that arrived. */
  function Arrived<T>(s: SessionId, events: seq<ReaderEvent<T>>): seq<Item<T>> {
    if events == [] then []
    else
      var e := events[|events| - 1];
      Arrived(s, events[..|events| - 1]) +
      if e.Arrive? && e.frame.Wire? && e.frame.tagged.session == s then [e.frame.tagged.item] else []
  }

  /** What reached the consumer's queue for `s`, and the gap still owed to it. */
  function Delivered<T>(r: Reader<T>, s: SessionId): seq<Item<T>> {
    Of(s, r.taken + r.queue) + if s in r.gaps then [Gap] else []
  }

  lemma {:induction false} ScheduleMembers(gaps: seq<SessionId>, s: SessionId)
    requires Increasing(gaps)
    ensures Increasing(Schedule(gaps, s))
    ensures forall t :: t in Schedule(gaps, s) <==> t in gaps || t == s
  {
    if gaps != [] && s > gaps[0] {
      ScheduleMembers(gaps[1..], s);
      assert gaps == [gaps[0]] + gaps[1..];
      forall t | t in Schedule(gaps[1..], s) ensures gaps[0] < t { }
    }
  }

  lemma ConsumeKeepsGaps<T>(r: Reader<T>, e: ReaderEvent<T>)
    requires Increasing(r.gaps)
    ensures Increasing(Consume(r, e).gaps)
  {
    if e.Arrive? && e.frame.Wire? { ScheduleMembers(r.gaps, e.frame.tagged.session); }
  }

  lemma ConsumeDelivers<T>(r: Reader<T>, e: ReaderEvent<T>, s: SessionId)
    requires Increasing(r.gaps) && Consume(r, e).open
    ensures var next := Consume(r, e);
            var t := if e.Arrive? && e.frame.Wire?
                && e.frame.tagged.session == s then Some(e.frame.tagged.item) else None;
            if t == None then Delivered(next, s) == Delivered(r, s)
            else if s in r.gaps then Delivered(next, s) == Delivered(r, s)
            else Delivered(next, s) == Delivered(r, s) + [t.value] || Delivered(next, s) == Delivered(r, s) + [Gap]
  {
    var next := Consume(r, e);
    match e
    case Arrive(Wire(t)) =>
      ScheduleMembers(r.gaps, t.session);
      if next.queue != r.queue { QueueGrows(r, t, s); }
    case FlushGap =>
      if next.queue != r.queue {
        QueueGrows(r, Tagged(r.gaps[0], Gap), s);
        assert r.gaps == [r.gaps[0]] + r.gaps[1..];
      }
    case Take => assert next.taken + next.queue == r.taken + r.queue;
    case _ =>
  }

  lemma QueueGrows<T>(r: Reader<T>, t: Tagged<T>, s: SessionId)
    ensures Of(s, r.taken + (r.queue + [t])) == Of(s, r.taken + r.queue) + if t.session == s then [t.item] else []
  {
    var all := r.taken + (r.queue + [t]);
    assert all[..|all| - 1] == r.taken + r.queue;
  }

  lemma {:induction false} ReaderGaps<T>(events: seq<ReaderEvent<T>>)
    ensures Increasing(ConsumeAll(events).gaps)
  {
    if events != [] {
      ReaderGaps(events[..|events| - 1]);
      ConsumeKeepsGaps(ConsumeAll(events[..|events| - 1]), events[|events| - 1]);
    }
  }

  /** While the receiver is open, what the consumer gets of a session, with the gap still owed to it, is
      what arrived for that session with lost runs as gaps. Other sessions cost it nothing. */
  lemma {:induction false} ReaderLossy<T>(events: seq<ReaderEvent<T>>, s: SessionId)
    requires ConsumeAll(events).open
    ensures Lossy(Arrived(s, events), Delivered(ConsumeAll(events), s))
  {
    if events != [] {
      var init, e := events[..|events| - 1], events[|events| - 1];
      var r, next := ConsumeAll(init), ConsumeAll(events);
      ReaderLossy(init, s);
      ReaderGaps(init);
      ConsumeDelivers(r, e, s);
      if e.Arrive? && e.frame.Wire? && e.frame.tagged.session == s {
        var x := e.frame.tagged.item;
        if s in r.gaps {
          Absorb(Arrived(s, init), Of(s, r.taken + r.queue), x);
        } else {
          var d := Delivered(next, s);
          Extend(Arrived(s, init), Delivered(r, s), [x], d[|d| - 1]);
        }
      } else {
        assert Arrived(s, events) == Arrived(s, init);
      }
    }
  }

  // ---- When the reader owes one loss two gaps ----

  /** The `n`-th event is a frame of `s` that is not swallowed by a gap already owed. */
  predicate CountsAt<T(==)>(events: seq<ReaderEvent<T>>, n: nat, s: SessionId)
    requires n < |events|
  {
    events[n].Arrive? && events[n].frame.Wire? && events[n].frame.tagged.session == s
    && s !in ConsumeAll(events[..n]).gaps
  }

  /** ... and it finds the queue full, or is itself a gap. */
  predicate GapAt<T(==)>(events: seq<ReaderEvent<T>>, n: nat, s: SessionId)
    requires n < |events|
  {
    CountsAt(events, n, s) && (|ConsumeAll(events[..n]).queue| >= CAPACITY || events[n].frame.tagged.item == Gap)
  }

  lemma CountsPrefix<T>(events: seq<ReaderEvent<T>>, n: nat, s: SessionId)
    requires n + 1 < |events|
    ensures CountsAt(events, n, s) <==> CountsAt(events[..|events| - 1], n, s)
    ensures GapAt(events, n, s) <==> GapAt(events[..|events| - 1], n, s)
  {
    assert events[..|events| - 1][..n] == events[..n];
  }

  lemma DeliveredStep<T>(events: seq<ReaderEvent<T>>, s: SessionId)
    requires events != [] && ConsumeAll(events).open
    ensures var init, n := events[..|events| - 1], |events| - 1;
            Delivered(ConsumeAll(events), s) == Delivered(ConsumeAll(init), s) +
              if !CountsAt(events, n, s) then [] else [if GapAt(events, n, s) then Gap else events[n].frame.tagged.item]
  {
    var init, e := events[..|events| - 1], events[|events| - 1];
    assert events[..|init|] == init;
    var r := ConsumeAll(init);
    ReaderGaps(init);
    ConsumeDelivers(r, e, s);
    if e.Arrive? && e.frame.Wire? && e.frame.tagged.session == s {
      ScheduleMembers(r.gaps, s);
      if s !in r.gaps && |r.queue| < CAPACITY { QueueGrows(r, e.frame.tagged, s); }
    }
  }

  predicate NoneCounts<T(==)>(events: seq<ReaderEvent<T>>, n: nat, m: nat, s: SessionId)
    requires m <= |events|
  {
    forall k :: n < k < m ==> !CountsAt(events, k, s)
  }

  predicate LastGap<T(==)>(events: seq<ReaderEvent<T>>, s: SessionId) {
    exists n :: 0 <= n < |events| && GapAt(events, n, s) && NoneCounts(events, n, |events|, s)
  }

  /** Two frames of `s` in a row, others swallowed between them aside, that each turn into a gap. */
  predicate TwiceAt<T(==)>(events: seq<ReaderEvent<T>>, n: nat, m: nat, s: SessionId) {
    n < m < |events| && GapAt(events, n, s) && GapAt(events, m, s) && NoneCounts(events, n, m, s)
  }

  predicate Twice<T(==)>(events: seq<ReaderEvent<T>>, s: SessionId) {
    exists n: nat, m: nat :: n < |events| && m < |events| && TwiceAt(events, n, m, s)
  }

  lemma NonePrefix<T>(events: seq<ReaderEvent<T>>, n: nat, m: nat, s: SessionId)
    requires m < |events|
    ensures NoneCounts(events, n, m, s) <==> NoneCounts(events[..|events| - 1], n, m, s)
  {
    var init := events[..|events| - 1];
    forall k | n < k < m ensures CountsAt(events, k, s) <==> CountsAt(init, k, s) { CountsPrefix(events, k, s); }
    if NoneCounts(init, n, m, s) {
      forall k | n < k < m ensures !CountsAt(events, k, s) { assert !CountsAt(init, k, s); }
    }
    if NoneCounts(events, n, m, s) {
      forall k | n < k < m ensures !CountsAt(init, k, s) { assert !CountsAt(events, k, s); }
    }
  }

  lemma LastGapStep<T>(events: seq<ReaderEvent<T>>, s: SessionId)
    requires events != []
    ensures var init, m := events[..|events| - 1], |events| - 1;
            LastGap(events, s) <==> if CountsAt(events, m, s) then GapAt(events, m, s) else LastGap(init, s)
  {
    var init, m := events[..|events| - 1], |events| - 1;
    if LastGap(events, s) {
      var n :| 0 <= n < |events| && GapAt(events, n, s) && NoneCounts(events, n, |events|, s);
      if n < m {
        assert !CountsAt(events, m, s);
        CountsPrefix(events, n, s);
        assert NoneCounts(events, n, m, s);
        NonePrefix(events, n, m, s);
      }
    }
    if CountsAt(events, m, s) {
      if GapAt(events, m, s) { assert NoneCounts(events, m, |events|, s); }
    } else if LastGap(init, s) {
      var n :| 0 <= n < |init| && GapAt(init, n, s) && NoneCounts(init, n, |init|, s);
      CountsPrefix(events, n, s);
      NonePrefix(events, n, m, s);
      assert NoneCounts(events, n, |events|, s);
    }
  }

  lemma TwiceStep<T>(events: seq<ReaderEvent<T>>, s: SessionId)
    requires events != []
    ensures var init, m := events[..|events| - 1], |events| - 1;
            Twice(events, s) <==> Twice(init, s) || (GapAt(events, m, s) && LastGap(init, s))
  {
    var init, last := events[..|events| - 1], |events| - 1;
    if Twice(events, s) {
      var n: nat, m: nat :| n < |events| && m < |events| && TwiceAt(events, n, m, s);
      CountsPrefix(events, n, s);
      NonePrefix(events, n, m, s);
      if m < last { CountsPrefix(events, m, s); assert TwiceAt(init, n, m, s); }
    }
    if Twice(init, s) {
      var n: nat, m: nat :| n < |init| && m < |init| && TwiceAt(init, n, m, s);
      CountsPrefix(events, n, s);
      CountsPrefix(events, m, s);
      NonePrefix(events, n, m, s);
      assert TwiceAt(events, n, m, s);
    }
    if GapAt(events, last, s) && LastGap(init, s) {
      var n :| 0 <= n < |init| && GapAt(init, n, s) && NoneCounts(init, n, |init|, s);
      CountsPrefix(events, n, s);
      NonePrefix(events, n, last, s);
      assert TwiceAt(events, n, last, s);
    }
  }

  lemma {:induction false} EndsInGapIff<T>(events: seq<ReaderEvent<T>>, s: SessionId)
    requires ConsumeAll(events).open
    ensures EndsInGap(Delivered(ConsumeAll(events), s)) <==> LastGap(events, s)
  {
    if events != [] {
      EndsInGapIff(events[..|events| - 1], s);
      DeliveredStep(events, s);
      LastGapStep(events, s);
    }
  }

  /** Each loss of a session is reported to its consumer by one gap if and only if no frame of the session that
      meets a full queue, or is a gap, directly follows another such frame. */
  lemma {:induction false} ReaderSingleGapsIff<T>(events: seq<ReaderEvent<T>>, s: SessionId)
    requires ConsumeAll(events).open
    ensures SingleGaps(Delivered(ConsumeAll(events), s)) <==> !Twice(events, s)
  {
    if events != [] {
      var init, m := events[..|events| - 1], |events| - 1;
      ReaderSingleGapsIff(init, s);
      EndsInGapIff(init, s);
      DeliveredStep(events, s);
      TwiceStep(events, s);
      var d := Delivered(ConsumeAll(init), s);
      if CountsAt(events, m, s) {
        AppendKeepsSingle(d, if GapAt(events, m, s) then Gap else events[m].frame.tagged.item);
      } else {
        assert d + [] == d;
      }
    }
  }

  function Filling<T>(t: Tagged<T>, n: nat): seq<ReaderEvent<T>> {
    if n == 0 then [] else Filling(t, n - 1) + [Arrive(Wire(t))]
  }

  lemma ConsumeStep<T>(events: seq<ReaderEvent<T>>, e: ReaderEvent<T>)
    ensures ConsumeAll(events + [e]) == Consume(ConsumeAll(events), e)
  {
    assert (events + [e])[..|events|] == events;
  }

  lemma {:induction false} Filled<T>(t: Tagged<T>, n: nat, s: SessionId)
    requires n <= CAPACITY && t.session != s
    ensures var r := ConsumeAll(Filling(t, n));
            r.gaps == [] && |r.queue| == n && r.taken == [] && r.open && Of(s, r.queue) == []
  {
    if n > 0 {
      Filled(t, n - 1, s);
      ConsumeStep(Filling(t, n - 1), Arrive(Wire(t)));
      OneMore(ConsumeAll(Filling(t, n - 1)), t, s);
    }
  }

  lemma OneMore<T>(r: Reader<T>, t: Tagged<T>, s: SessionId)
    requires r.gaps == [] && |r.queue| < CAPACITY && r.open && t.session != s && Of(s, r.queue) == []
    ensures Consume(r, Arrive(Wire(t))) == r.(queue := r.queue + [t]) && Of(s, r.queue + [t]) == []
  {
    assert (r.queue + [t])[..|r.queue|] == r.queue;
  }

  lemma LostAtFull<T>(r: Reader<T>, s: SessionId, x: Item<T>)
    requires r.gaps == [] && |r.queue| == CAPACITY && r.open
    ensures Consume(r, Arrive(Wire(Tagged(s, x)))) == r.(gaps := [s])
  {
  }

  lemma TakenThenFlushed<T>(r: Reader<T>, s: SessionId)
    requires r.gaps == [s] && |r.queue| == CAPACITY && r.open
    ensures var q := r.queue;
            Consume(Consume(r, Take), FlushGap) ==
              r.(gaps := [], queue := q[1..] + [Tagged(s, Gap)], taken := r.taken + [q[0]])
  {
  }

  lemma GapBehind<T>(q: seq<Tagged<T>>, s: SessionId)
    requires q != [] && Of(s, q) == []
    ensures Of(s, [q[0]] + (q[1..] + [Tagged(s, Gap)])) == [Gap]
  {
    var all := q + [Tagged(s, Gap)];
    assert [q[0]] + (q[1..] + [Tagged(s, Gap)]) == all && all[..|q|] == q;
  }

  /** A full queue from which the gap of `s` just fits after one was taken. */
  lemma TwiceLost<T>(r: Reader<T>, s: SessionId, x: Item<T>)
    requires r.gaps == [] && |r.queue| == CAPACITY && r.open && r.taken == [] && Of(s, r.queue) == []
    ensures var e := Arrive(Wire(Tagged(s, x)));
            Delivered(Consume(Consume(Consume(Consume(r, e), Take), FlushGap), e), s) == [Gap, Gap]
  {
    var q := r.queue;
    LostAtFull(r, s, x);
    TakenThenFlushed(r.(gaps := [s]), s);
    var flushed := r.(queue := q[1..] + [Tagged(s, Gap)], taken := r.taken + [q[0]]);
    LostAtFull(flushed, s, x);
    assert r.taken + [q[0]] == [q[0]];
    GapBehind(q, s);
    OwedBehind(flushed.(gaps := [s]), s);
  }

  lemma OwedBehind<T>(r: Reader<T>, s: SessionId)
    requires r.gaps == [s] && Of(s, r.taken + r.queue) == [Gap]
    ensures Delivered(r, s) == [Gap, Gap]
  {
    assert s in r.gaps;
  }

  /** A full queue, a frame of `s` lost, room for its gap and no more, a frame of `s` lost again: two gaps. */
  lemma TwoGapsWitness<T>(t: Tagged<T>, s: SessionId, x: Item<T>)
    requires t.session != s
    ensures Delivered(ConsumeAll(Filling(t, CAPACITY) + [Arrive(Wire(Tagged(s, x)))] + [Take] + [FlushGap]
                                 + [Arrive(Wire(Tagged(s, x)))]), s) == [Gap, Gap]
  {
    var a, e := Filling(t, CAPACITY), Arrive(Wire(Tagged(s, x)));
    Filled(t, CAPACITY, s);
    ConsumeStep(a, e);
    ConsumeStep(a + [e], Take);
    ConsumeStep(a + [e] + [Take], FlushGap);
    ConsumeStep(a + [e] + [Take] + [FlushGap], e);
    TwiceLost(ConsumeAll(a), s, x);
  }

  /** The queue never holds more than its capacity, whatever arrives. */
  lemma {:induction false} QueueBounded<T>(events: seq<ReaderEvent<T>>)
    ensures |ConsumeAll(events).queue| <= CAPACITY
  {
    if events != [] { QueueBounded(events[..|events| - 1]); }
  }

  /** The run with every event frame, gap and consumer step left out. */
  function RequestsOnly<T>(events: seq<ReaderEvent<T>>): seq<ReaderEvent<T>> {
    if events == [] then []
    else
      var e := events[|events| - 1];
      RequestsOnly(events[..|events| - 1]) + if IsRequest(e) then [e] else []
  }

  /** Requests are answered exactly as if no event had ever arrived and no consumer had ever stalled. */
  lemma {:induction false} ResponsesUndisturbed<T>(events: seq<ReaderEvent<T>>)
    ensures var alone := RequestsOnly(events);
            ConsumeAll(events).pending == ConsumeAll(alone).pending
                && ConsumeAll(events).answered == ConsumeAll(alone).answered
  {
    if events != [] {
      var init, e := events[..|events| - 1], events[|events| - 1];
      ResponsesUndisturbed(init);
      RequestStep(ConsumeAll(init), ConsumeAll(RequestsOnly(init)), e);
      if IsRequest(e) {
        ConsumeStep(RequestsOnly(init), e);
      } else {
        assert RequestsOnly(events) == RequestsOnly(init);
      }
    }
  }

  predicate IsRequest<T>(e: ReaderEvent<T>) { e.Ask? || e.Cancel? || (e.Arrive? && e.frame.Response?) }

  lemma RequestStep<T>(r: Reader<T>, alone: Reader<T>, e: ReaderEvent<T>)
    requires r.pending == alone.pending && r.answered == alone.answered
    ensures var next, other := Consume(r, e), if IsRequest(e) then Consume(alone, e) else alone;
            next.pending == other.pending && next.answered == other.answered
  {
  }

  // ---- Both stages ----

  /** Through both buffers: any part of the stream the consumer has taken is a prefix of the session's
      source with lost runs as gaps, and a part without gaps is exactly such a prefix. */
  lemma NoSilentLoss<T>(replay: seq<T>, daemon: seq<ForwarderEvent<T>>, client: seq<ReaderEvent<T>>, s: SessionId,
      n: nat)
    returns (k: nat)
    requires Arrived(s, client) <= ForwardAll(replay, daemon).sent
    requires ConsumeAll(client).open && n <= |Of(s, ConsumeAll(client).taken)|
    ensures var view := Of(s, ConsumeAll(client).taken)[..n];
            var src := Source(ForwardAll(replay, daemon));
            && k <= |src| && Lossy(src[..k], view)
            && (Gap !in view ==> view == src[..k])
  {
    var f, r := ForwardAll(replay, daemon), ConsumeAll(client);
    var wire, d := Arrived(s, client), Delivered(r, s);
    ForwarderLossy(replay, daemon);
    ReaderLossy(client, s);
    OfConcat(s, r.taken, r.queue);
    assert d[..n] == Of(s, r.taken)[..n];
    var w := LossyPrefix(wire, d, n);
    assert f.sent[..w] == wire[..w];
    var src := Source(f);
    k := LossyPrefix(src[..f.cursor], f.sent, w);
    assert src[..f.cursor][..k] == src[..k];
    LossyTransitive(src[..k], f.sent[..w], d[..n]);
    if Gap !in d[..n] { GapFreeIsExact(src[..k], d[..n]); }
  }

  // ---- Nothing is held back ----

  /** A turn of an open forwarder that has something before it sends the next item, or, if more than 256 are before
      it, a gap in place of all but the newest 256; one that cannot be delivered ends the forwarder. */
  lemma TurnSends<T>(f: Forwarder<T>)
    requires f.open && f.cursor < |Source(f)|
    ensures var next, src := Forward(f, Turn(true)), Source(f);
            && next.open && Source(next) == src
            && if f.cursor > |f.replay| && |src| - f.cursor > 256
               then next.sent == f.sent + [Gap] && next.cursor == |src| - 256
               else next.sent == f.sent + [src[f.cursor]] && next.cursor == f.cursor + 1
    ensures Forward(f, Turn(false)) == f.(open := false)
  {
  }

  lemma ClosedSendsNothing<T>(f: Forwarder<T>, e: ForwarderEvent<T>)
    requires !f.open
    ensures !Forward(f, e).open && Forward(f, e).sent == f.sent
  {
  }

  function Turns<T>(f: Forwarder<T>, n: nat): Forwarder<T> {
    if n == 0 then f else Forward(Turns(f, n - 1), Turn(true))
  }

  /** Turns that are delivered bring an open forwarder to the end of its source, as many as are before it at most. */
  lemma {:induction false} TurnsDrain<T>(f: Forwarder<T>, n: nat)
    requires f.open && f.cursor <= |Source(f)|
    ensures var next := Turns(f, n);
            && next.open && Source(next) == Source(f) && next.cursor <= |Source(f)|
            && (n >= |Source(f)| - f.cursor ==> next.cursor == |Source(f)|)
            && (n < |Source(f)| - f.cursor ==> next.cursor >= f.cursor + n)
  {
    if n > 0 {
      TurnsDrain(f, n - 1);
      var g := Turns(f, n - 1);
      if g.cursor < |Source(g)| { TurnSends(g); }
    }
  }

  /** A reader with room queues an event of a session that is owed no gap, and a gap that is owed. */
  lemma RoomIsUsed<T>(r: Reader<T>, t: Tagged<T>)
    requires r.open && |r.queue| < 256
    ensures t.session !in r.gaps ==> Consume(r, Arrive(Wire(t))) == r.(queue := r.queue + [t])
    ensures r.gaps != [] ==>
              Consume(r, FlushGap) == r.(gaps := r.gaps[1..], queue := r.queue + [Tagged(r.gaps[0], Gap)])
  {
  }

  /** A response wakes the caller that waits for it, once, with its body, and nobody else. */
  lemma ResponseWakes<T>(r: Reader<T>, id: nat, body: nat)
    ensures var next := Consume(r, Arrive(Response(id, body)));
            if id in r.pending then next == r.(pending := r.pending - {id}, answered := r.answered + [(id, body)])
            else next == r
    ensures id in Consume(r, Ask(id)).pending && id !in Consume(r, Cancel(id)).pending
  {
  }

  function Takes<T(==)>(r: Reader<T>, n: nat): Reader<T> {
    if n == 0 then r else Consume(Takes(r, n - 1), Take)
  }

  /** What is queued is taken in the order it was queued. */
  lemma {:induction false} TakesInOrder<T>(r: Reader<T>, n: nat)
    requires n <= |r.queue|
    ensures Takes(r, n) == r.(queue := r.queue[n..], taken := r.taken + r.queue[..n])
  {
    if n > 0 {
      TakesInOrder(r, n - 1);
      assert r.queue[n - 1..][1..] == r.queue[n..] && r.queue[..n - 1] + [r.queue[n - 1]] == r.queue[..n];
    } else {
      assert r.queue[0..] == r.queue && r.taken + [] == r.taken;
    }
  }

  function ConsumeFrom<T(==)>(r: Reader<T>, events: seq<ReaderEvent<T>>): Reader<T> {
    if events == [] then r else Consume(ConsumeFrom(r, events[..|events| - 1]), events[|events| - 1])
  }

  /** Gaps owed to a receiver that is gone are owed no longer. */
  lemma ClosedIsOwedNothing<T>(r: Reader<T>)
    requires !r.open
    ensures Consume(r, FlushGap) == r.(gaps := [])
  {
  }

  /** Once the receiver is gone nothing more is queued or taken, whatever arrives. */
  lemma {:induction false} ClosedTakesNothing<T>(r: Reader<T>, later: seq<ReaderEvent<T>>)
    ensures var next := ConsumeFrom(Consume(r, CloseReceiver), later);
            !next.open && next.queue == [] && next.taken == r.taken
  {
    if later != [] { ClosedTakesNothing(r, later[..|later| - 1]); }
  }
}
