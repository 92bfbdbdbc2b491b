/** Subscribing: a replay of the log and a live receiver, taken under one hold of the session lock. */
module Subscriptions {
  import opened Protocol
  import Capabilities
  import Mirrors

  /** What a subscriber with cutoff `since` is replayed from the log. */
  function Backfill(log: seq<Message>, since: nat): seq<Message> {
    Filter((m: Message) => m.seqNo > since && !Reserved(m), log)
  }

  function TicketMessage(host: PeerId, envelope: Bytes): Message {
    Message(MESSAGE_FORMAT, 0, 0, PeerInfo(host, "host"), System, TICKET_ACTION, Raw(envelope), Unsigned, Unsigned)
  }

  function ReplayOf(host: PeerId, envelope: Option<Bytes>, log: seq<Message>, since: nat): seq<Message> {
    (if envelope.Some? then [TicketMessage(host, envelope.value)] else []) + Backfill(log, since)
  }

  // ---- On the host: append under the lock, fan out after it ----

  /** `unsent` holds the positions of entries appended and not yet fanned out. `received` holds, in
      order, the positions sent to the subscriber's receiver; `unsentThen` is `unsent` at the moment of
      subscribing and `logThen` the length of the log. */
  datatype Subscriber = Subscriber(since: nat, replay: seq<Message>, received: seq<nat>, logThen: nat,
      unsentThen: set<nat>)

  datatype Channel = Channel(log: seq<Message>, unsent: set<nat>, sub: Option<Subscriber>)

  datatype Event = Append(entry: Message) | FanOut(position: nat) | Subscribe(since: nat, envelope: Option<Bytes>)

  function Step(host: PeerId, ch: Channel, e: Event): Channel {
    match e
    case Append(m) =>
      if Reserved(m) then ch
      else ch.(log := ch.log + [m.(seqNo := |ch.log| + 1)], unsent := ch.unsent + {|ch.log|})
    case FanOut(i) =>
      if i !in ch.unsent then ch
      else ch.(unsent := ch.unsent - {i},
               sub := if ch.sub == None then None
                      else Some(ch.sub.value.(received := ch.sub.value.received + [i])))
    case Subscribe(since, envelope) =>
      if ch.sub.Some? then ch
      else ch.(sub := Some(Subscriber(since, ReplayOf(host, envelope, ch.log, since), [], |ch.log|, ch.unsent)))
  }

  function Run(host: PeerId, events: seq<Event>): Channel {
    if events == [] then Channel([], {}, None)
    else Step(host, Run(host, events[..|events| - 1]), events[|events| - 1])
  }

  /** The two halves of a send and the subscribe call, as the session performs them. */
  class EventChannel {
    const host: PeerId
    var log: seq<Message>
    var unsent: set<nat>
    var envelope: Option<Bytes>
    ghost var sub: Option<Subscriber>

    constructor (host: PeerId)
      ensures this.host == host && View() == Channel([], {}, None) && envelope == None
    {
      this.host := host;
      log, unsent, envelope, sub := [], {}, None, None;
    }

    ghost function View(): Channel reads this { Channel(log, unsent, sub) }

    method AppendUnderLock(m: Message) returns (ok: bool)
      modifies this`log, this`unsent
      ensures View() == Step(host, old(View()), Append(m))
      ensures ok <==> !Reserved(m)
    {
      ok := !(m.kind == System && ReservedSystemAction(m.action));
      if !ok { return; }
      unsent := unsent + {|log|};
      log := log + [m.(seqNo := |log| + 1)];
    }

    method FanOutAfterUnlock(i: nat)
      requires i in unsent
      modifies this`unsent, this`sub
      ensures View() == Step(host, old(View()), FanOut(i))
    {
      unsent := unsent - {i};
      if sub.Some? { sub := Some(sub.value.(received := sub.value.received + [i])); }
    }

    /** The synthetic ticket message first, then every entry past the cutoff that is not reserved. */
    method SubscribeUnderLock(since: nat) returns (replay: seq<Message>)
      requires sub == None
      modifies this`sub
      ensures View() == Step(host, old(View()), Subscribe(since, envelope))
      ensures replay == ReplayOf(host, envelope, log, since) && sub.value.replay == replay
    {
      replay := [];
      if envelope.Some? { replay := [TicketMessage(host, envelope.value)]; }
      ghost var head := replay;
      for i := 0 to |log|
        invariant replay == head + Backfill(log[..i], since)
      {
        assert log[..i + 1][..i] == log[..i];
        if log[i].seqNo > since && !Reserved(log[i]) { replay := replay + [log[i]]; }
      }
      assert log[..|log|] == log;
      sub := Some(Subscriber(since, replay, [], |log|, unsent));
    }
  }

  predicate Inv(ch: Channel) {
    && (forall i :: 0 <= i < |ch.log| ==> ch.log[i].seqNo == i + 1 && !Reserved(ch.log[i]))
    && (forall i :: i in ch.unsent ==> i < |ch.log|)
    && (ch.sub.Some? ==> SubInv(ch, ch.sub.value))
  }

  /** Every position is in exactly one of three states: fanned out before the subscription and so only
      in the replay, still to be fanned out, or sent to the receiver exactly once. */
  predicate SubInv(ch: Channel, s: Subscriber) {
    && s.logThen <= |ch.log|
    && (forall m :: m in Backfill(ch.log[..s.logThen], s.since) ==> m in s.replay)
    && (forall i :: i in s.unsentThen ==> i < s.logThen)
    && (forall k :: 0 <= k < |s.received| ==> s.received[k] < |ch.log| && s.received[k] !in ch.unsent)
    && (forall k, k' :: 0 <= k < k' < |s.received| ==> s.received[k] != s.received[k'])
    && (forall i :: 0 <= i < |ch.log| && i !in ch.unsent && i !in s.received ==> i < s.logThen && i !in s.unsentThen)
    && (forall i :: i in s.received && i < s.logThen ==> i in s.unsentThen)
    && (forall i :: i in ch.unsent && i < s.logThen ==> i in s.unsentThen)
  }

  lemma StepKeepsInv(host: PeerId, ch: Channel, e: Event)
    requires Inv(ch)
    ensures Inv(Step(host, ch, e))
  {
    var next := Step(host, ch, e);
    if e.Append? && next.sub.Some? { assert next.log[..next.sub.value.logThen] == ch.log[..next.sub.value.logThen]; }
    if e.Subscribe? && ch.sub == None { assert ch.log[..|ch.log|] == ch.log; }
  }

  lemma {:induction false} RunInv(host: PeerId, events: seq<Event>)
    ensures Inv(Run(host, events))
  {
    if events != [] {
      RunInv(host, events[..|events| - 1]);
      StepKeepsInv(host, Run(host, events[..|events| - 1]), events[|events| - 1]);
    }
  }

  /** For any number of concurrent senders and any interleaving of appends, fan-outs and the subscribe:
      an entry past the cutoff is in the replay, or was sent to the receiver, or is still due to be;
      once every fan-out has happened nothing is missing; the receiver gets no entry twice; and an entry
      comes both ways exactly when its fan-out was overtaken by the subscribe. */
  lemma SubscribeLosesNothing(host: PeerId, events: seq<Event>, i: nat)
    requires var ch := Run(host, events); ch.sub.Some? && i < |ch.log| && ch.log[i].seqNo > ch.sub.value.since
    ensures var ch := Run(host, events);
            var s := ch.sub.value;
            && (ch.log[i] in s.replay || i in s.received || i in ch.unsent)
            && (ch.unsent == {} ==> ch.log[i] in s.replay || i in s.received)
            && (forall k, k' :: 0 <= k < k' < |s.received| ==> !(s.received[k] == i == s.received[k']))
            && (i < s.logThen && i in s.received <==> i in s.unsentThen && i !in ch.unsent)
  {
    RunInv(host, events);
    var ch := Run(host, events);
    var s := ch.sub.value;
    if i < s.logThen {
      var prefix := ch.log[..s.logThen];
      assert prefix[i] == ch.log[i];
      FilterMembers((m: Message) => m.seqNo > s.since && !Reserved(m), prefix, ch.log[i]);
    }
  }

  // ---- On a mirror: inserted and sent under the same lock ----

  lemma {:induction false} FilterCounts<T>(p: T -> bool, s: seq<T>, x: T)
    ensures multiset(Filter(p, s))[x] == if p(x) then multiset(s)[x] else 0
  {
    if s != [] {
      FilterCounts(p, s[..|s| - 1], x);
      assert s == s[..|s| - 1] + [s[|s| - 1]];
    }
  }

  lemma BackfillCounts(log: seq<Message>, since: nat, m: Message)
    ensures multiset(Backfill(log, since))[m] == if m.seqNo > since && !Reserved(m) then multiset(log)[m] else 0
  {
    FilterCounts((m: Message) => m.seqNo > since && !Reserved(m), log, m);
  }

  /** The live events a subscriber sees that are past its cutoff. */
  function LiveAfter(emitted: seq<Message>, from: nat, since: nat): seq<Message>
    requires from <= |emitted|
  {
    Filter((m: Message) => m.seqNo > since, emitted[from..])
  }

  lemma LiveCounts(emitted: seq<Message>, from: nat, since: nat, m: Message)
    requires from <= |emitted|
    ensures multiset(LiveAfter(emitted, from, since))[m] == if m.seqNo > since then multiset(emitted[from..])[m] else 0
  {
    FilterCounts((m: Message) => m.seqNo > since, emitted[from..], m);
  }

  /** One delivery puts the same frame into the log and on the live channel, or into neither; a reserved
      frame goes into the log only. */
  lemma DeliveryEffect(host: PeerId, session: SessionId, mi: Mirrors.Mirror, e: Mirrors.Event)
    requires e.Deliver?
    ensures var now := Mirrors.Step(host, session, mi, e);
            || (now.log == mi.log && now.emitted == mi.emitted)
            || (multiset(now.log) == multiset(mi.log) + multiset{e.frame}
                && now.emitted == if Reserved(e.frame) then mi.emitted else mi.emitted + [e.frame])
  {
    var pos := Mirrors.PartitionPoint(mi.log, e.frame.seqNo);
    assert mi.log == mi.log[..pos] + mi.log[pos..];
  }

  lemma {:induction false} LiveTracksLog(host: PeerId, session: SessionId, mi: Mirrors.Mirror,
      later: seq<Mirrors.Event>, m: Message)
    requires Mirrors.NoRestart(later)
    ensures var now := Mirrors.After(host, session, mi, later);
            && |mi.emitted| <= |now.emitted|
            && if Reserved(m) then m !in now.emitted[|mi.emitted|..]
               else multiset(mi.log)[m] + multiset(now.emitted[|mi.emitted|..])[m] == multiset(now.log)[m]
  {
    if later != [] {
      var init, e := later[..|later| - 1], later[|later| - 1];
      LiveTracksLog(host, session, mi, init, m);
      var prev := Mirrors.After(host, session, mi, init);
      DeliveryEffect(host, session, prev, e);
      assert (prev.emitted + [e.frame])[|mi.emitted|..] == prev.emitted[|mi.emitted|..] + [e.frame];
    }
  }

  /** Whatever is delivered after a subscription, the replay and the later live events together are the
      unreserved log entries past the cutoff, each as often as the log holds it. */
  lemma MirrorSubscribeExactlyOnce(host: PeerId, session: SessionId, mi: Mirrors.Mirror, later: seq<Mirrors.Event>,
      since: nat)
    requires Mirrors.NoRestart(later)
    ensures var now := Mirrors.After(host, session, mi, later);
            && |mi.emitted| <= |now.emitted|
            && multiset(Backfill(mi.log, since)) + multiset(LiveAfter(now.emitted, |mi.emitted|, since))
               == multiset(Backfill(now.log, since))
  {
    var now := Mirrors.After(host, session, mi, later);
    LiveTracksLog(host, session, mi, later, TicketMessage(host, []));
    forall m ensures multiset(Backfill(mi.log, since))[m] + multiset(LiveAfter(now.emitted, |mi.emitted|, since))[m]
                  == multiset(Backfill(now.log, since))[m] {
      LiveTracksLog(host, session, mi, later, m);
      BackfillCounts(mi.log, since, m);
      BackfillCounts(now.log, since, m);
      LiveCounts(now.emitted, |mi.emitted|, since, m);
    }
  }

  lemma {:induction false} AscendingCounts(log: seq<Message>, m: Message)
    requires Capabilities.Ascending(log)
    ensures multiset(log)[m] == if m in log then 1 else 0
  {
    if log != [] {
      AscendingCounts(log[..|log| - 1], m);
      assert log == log[..|log| - 1] + [log[|log| - 1]];
    }
  }

  /** A mirror that has run since the session was joined shows every unreserved entry past the cutoff to a
      subscriber once: in the replay or live, never in both. */
  lemma MirrorReplayOrLive(host: PeerId, session: SessionId, before: seq<Mirrors.Event>, later: seq<Mirrors.Event>,
      since: nat, m: Message)
    requires Mirrors.NoRestart(before + later)
    requires m in Mirrors.Run(host, session, before + later).log && m.seqNo > since && !Reserved(m)
    ensures var mi, now := Mirrors.Run(host, session, before), Mirrors.Run(host, session, before + later);
            && |mi.emitted| <= |now.emitted|
            && multiset(Backfill(mi.log, since))[m] + multiset(LiveAfter(now.emitted, |mi.emitted|, since))[m] == 1
  {
    Mirrors.AfterRun(host, session, before, later);
    assert Mirrors.NoRestart(later) by {
      forall i | 0 <= i < |later| ensures later[i].Deliver? { assert (before + later)[|before| + i] == later[i]; }
    }
    MirrorSubscribeExactlyOnce(host, session, Mirrors.Run(host, session, before), later, since);
    var now := Mirrors.Run(host, session, before + later);
    Mirrors.MirrorAscends(host, session, before + later);
    AscendingCounts(now.log, m);
    BackfillCounts(now.log, since, m);
  }

  // ---- What a replay holds ----

  /** The positions of `log` a subscriber past `since` is given: everything but the two actions the daemon injects. */
  predicate Given(log: seq<Message>, since: nat, i: nat) {
    && i < |log| && log[i].seqNo > since
    && !(log[i].kind == System && (log[i].action == "workspace.ticket" || log[i].action == "workspace.upgrade"))
  }

  predicate GivenAt(log: seq<Message>, since: nat, at: seq<nat>) {
    && (forall k :: 0 <= k < |at| ==> Given(log, since, at[k]))
    && (forall k, l :: 0 <= k < l < |at| ==> at[k] < at[l])
    && (forall i :: 0 <= i < |log| && Given(log, since, i) ==> i in at)
  }

  lemma {:induction false} BackfillAt(log: seq<Message>, since: nat) returns (at: seq<nat>)
    ensures GivenAt(log, since, at)
    ensures |Backfill(log, since)| == |at| && forall k :: 0 <= k < |at| ==> Backfill(log, since)[k] == log[at[k]]
  {
    at := [];
    if log != [] {
      var init := log[..|log| - 1];
      at := BackfillAt(init, since);
      assert forall i :: 0 <= i < |init| ==> (Given(log, since, i) <==> Given(init, since, i));
      if Given(log, since, |init|) { at := at + [|init|]; }
    }
  }

  /** In every run a subscriber's replay is, in this order: the ticket message with the envelope's bytes, if there is
      an envelope, and then the entries of the log past its cutoff in the order of the log, each once, and nothing
      else. */
  lemma ReplayHolds(host: PeerId, events: seq<Event>, since: nat, envelope: Option<Bytes>) returns (at: seq<nat>)
    requires Run(host, events).sub == None
    ensures var ch := Run(host, events);
            var next := Run(host, events + [Subscribe(since, envelope)]);
            var n := if envelope == None then 0 else 1;
            && next.sub.Some? && next.sub.value.since == since && GivenAt(ch.log, since, at)
            && var replay := next.sub.value.replay;
               && |replay| == n + |at|
               && (envelope.Some? ==>
                     && replay[0].kind == System && replay[0].action == "workspace.ticket"
                     && replay[0].payload == Raw(envelope.value) && replay[0].peer.id == host && replay[0].seqNo == 0)
               && forall k :: 0 <= k < |at| ==> replay[n + k] == ch.log[at[k]]
  {
    var e := Subscribe(since, envelope);
    at := BackfillAt(Run(host, events).log, since);
    assert (events + [e])[..|events|] == events;
  }

  /** What is appended is the last entry, under the next number, and still to be fanned out; the two injected actions
      are not appended. */
  lemma AppendedIsDue(host: PeerId, ch: Channel, m: Message)
    ensures var next := Step(host, ch, Append(m));
            if m.kind == System && (m.action == "workspace.ticket" || m.action == "workspace.upgrade") then next == ch
            else && next.log == ch.log + [m.(seqNo := |ch.log| + 1)] && next.sub == ch.sub
                 && next.unsent == ch.unsent + {|ch.log|}
  {
  }
}
