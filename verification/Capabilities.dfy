/** The capability set as a projection of the log. */
module Capabilities {
  import opened Protocol

  type Caps = map<PeerId, Capability>

  /** One projection step: only the host's own, well-formed actions count, and none may target the host. */
  function ApplyCapability(caps: Caps, host: PeerId, m: Message): Caps {
    if m.peer.id != host then caps
    else match m.payload
      case Raw(_) => caps
      case Encoded(action) =>
        if action.peer == host then caps
        else match action
          case Grant(peer, cap) => caps[peer := cap]
          case Revoke(peer) => caps - {peer}
  }

  function Advance(caps: Caps, host: PeerId, m: Message): Caps {
    if m.kind == MessageKind.Capability then ApplyCapability(caps, host, m) else caps
  }

  /** Replay in the given order. */
  function Replay(host: PeerId, log: seq<Message>): Caps {
    if log == [] then map[host := ReadWrite]
    else Advance(Replay(host, log[..|log| - 1]), host, log[|log| - 1])
  }

  /** Stable insertion by sequence number: `m` goes after every entry that is not greater. */
  function Insert(sorted: seq<Message>, m: Message): seq<Message> {
    if sorted == [] || sorted[|sorted| - 1].seqNo <= m.seqNo then sorted + [m]
    else Insert(sorted[..|sorted| - 1], m) + [sorted[|sorted| - 1]]
  }

  function SortBySeq(log: seq<Message>): seq<Message> {
    if log == [] then [] else Insert(SortBySeq(log[..|log| - 1]), log[|log| - 1])
  }

  function ProjectCaps(host: PeerId, log: seq<Message>): Caps {
    Replay(host, SortBySeq(log))
  }

  predicate Ascending(log: seq<Message>) {
    forall i, j :: 0 <= i < j < |log| ==> log[i].seqNo < log[j].seqNo
  }

  predicate NonDescending(log: seq<Message>) {
    forall i, j :: 0 <= i < j < |log| ==> log[i].seqNo <= log[j].seqNo
  }

  predicate DistinctSeqs(log: seq<Message>) {
    forall i, j :: 0 <= i < j < |log| ==> log[i].seqNo != log[j].seqNo
  }

  /** `m` is an effective statement by the host about `p`. */
  predicate SpeaksOf(host: PeerId, m: Message, p: PeerId) {
    && m.kind == MessageKind.Capability && m.peer.id == host
    && m.payload.Encoded? && m.payload.action.peer == p
  }

  /** What the statement `m` leaves `p` with. */
  function Outcome(m: Message): Option<Capability>
    requires m.payload.Encoded?
  {
    match m.payload.action case Grant(_, cap) => Some(cap) case Revoke(_) => None
  }

  function Held(caps: Caps, p: PeerId): Option<Capability> {
    if p in caps then Some(caps[p]) else None
  }

  predicate CanWrite(caps: Caps, p: PeerId) {
    p in caps && caps[p] == ReadWrite
  }

  /** The projection loop. */
  method Project(host: PeerId, log: seq<Message>) returns (caps: Caps)
    ensures caps == ProjectCaps(host, log)
  {
    caps := map[host := ReadWrite];
    var ordered := SortBySeq(log);
    for i := 0 to |ordered|
      invariant caps == Replay(host, ordered[..i])
    {
      if ordered[i].kind == MessageKind.Capability {
        caps := ApplyCapability(caps, host, ordered[i]);
      }
      assert ordered[..i + 1][..i] == ordered[..i];
    }
    assert ordered[..|ordered|] == ordered;
  }

  lemma {:induction false} InsertPermutes(sorted: seq<Message>, m: Message)
    ensures multiset(Insert(sorted, m)) == multiset(sorted) + multiset{m}
  {
    if sorted != [] && sorted[|sorted| - 1].seqNo > m.seqNo {
      InsertPermutes(sorted[..|sorted| - 1], m);
      assert sorted == sorted[..|sorted| - 1] + [sorted[|sorted| - 1]];
    }
  }

  lemma {:induction false} InsertSorts(sorted: seq<Message>, m: Message, bound: nat)
    requires NonDescending(sorted)
    requires m.seqNo <= bound && forall i :: 0 <= i < |sorted| ==> sorted[i].seqNo <= bound
    ensures NonDescending(Insert(sorted, m))
    ensures forall i :: 0 <= i < |Insert(sorted, m)| ==> Insert(sorted, m)[i].seqNo <= bound
  {
    if sorted != [] && sorted[|sorted| - 1].seqNo > m.seqNo {
      InsertSorts(sorted[..|sorted| - 1], m, sorted[|sorted| - 1].seqNo);
    }
  }

  function MaxSeq(log: seq<Message>): (n: nat)
    ensures forall i :: 0 <= i < |log| ==> log[i].seqNo <= n
    ensures log != [] ==> exists i :: 0 <= i < |log| && log[i].seqNo == n
    ensures log == [] ==> n == 0
  {
    if log == [] then 0
    else
      var rest := MaxSeq(log[..|log| - 1]);
      var last := log[|log| - 1].seqNo;
      if rest > last then
        assert log[..|log| - 1] != [];
        rest
      else last
  }

  lemma {:induction false} SortPermutes(log: seq<Message>)
    ensures multiset(SortBySeq(log)) == multiset(log)
  {
    if log != [] {
      SortPermutes(log[..|log| - 1]);
      InsertPermutes(SortBySeq(log[..|log| - 1]), log[|log| - 1]);
      assert log == log[..|log| - 1] + [log[|log| - 1]];
    }
  }

  lemma {:induction false} SortSorts(log: seq<Message>)
    ensures NonDescending(SortBySeq(log))
  {
    if log != [] {
      var init, m := SortBySeq(log[..|log| - 1]), log[|log| - 1];
      SortSorts(log[..|log| - 1]);
      InsertSorts(init, m, if MaxSeq(init) > m.seqNo then MaxSeq(init) else m.seqNo);
    }
  }

  lemma InsertLast(sorted: seq<Message>, m: Message)
    requires sorted != [] ==> sorted[|sorted| - 1].seqNo <= m.seqNo
    ensures Insert(sorted, m) == sorted + [m]
  {
  }

  /** For every log, whatever it holds, the host keeps write access. */
  lemma {:induction false} HostKeepsReadWrite(host: PeerId, log: seq<Message>)
    ensures Held(Replay(host, log), host) == Some(ReadWrite)
    ensures Held(ProjectCaps(host, log), host) == Some(ReadWrite)
    decreases |log|
  {
    ReplayKeepsHost(host, log);
    ReplayKeepsHost(host, SortBySeq(log));
  }

  lemma {:induction false} ReplayKeepsHost(host: PeerId, log: seq<Message>)
    ensures Held(Replay(host, log), host) == Some(ReadWrite)
  {
    if log != [] { ReplayKeepsHost(host, log[..|log| - 1]); }
  }

  /** The last effective statement about `p` decides; with none, `p` is absent. */
  lemma {:induction false} LastStatementDecides(host: PeerId, log: seq<Message>, p: PeerId, last: int)
    requires p != host
    requires -1 <= last < |log|
    requires last >= 0 ==> SpeaksOf(host, log[last], p)
    requires forall j :: last < j < |log| ==> !SpeaksOf(host, log[j], p)
    ensures Held(Replay(host, log), p) == if last >= 0 then Outcome(log[last]) else None
  {
    if log != [] && last < |log| - 1 {
      LastStatementDecides(host, log[..|log| - 1], p, last);
    }
  }

  /** An order-free reading of the projection: among the host's statements about
      `p`, the one with the highest sequence number decides. */
  lemma HighestSeqDecides(host: PeerId, log: seq<Message>, p: PeerId, w: Message)
    requires p != host && w in log && SpeaksOf(host, w, p)
    requires forall m :: m in log && SpeaksOf(host, m, p) && m != w ==> m.seqNo < w.seqNo
    ensures Held(ProjectCaps(host, log), p) == Outcome(w)
  {
    var s := SortBySeq(log);
    SortSorts(log);
    SortPermutes(log);
    assert w in multiset(s);
    var last := LastIndex(s, w);
    forall j | last < j < |s| ensures !SpeaksOf(host, s[j], p) {
      assert s[j] in multiset(s) && s[j] in multiset(log);
    }
    LastStatementDecides(host, s, p, last);
  }

  lemma NobodySpeaks(host: PeerId, log: seq<Message>, p: PeerId)
    requires p != host
    requires forall m :: m in log ==> !SpeaksOf(host, m, p)
    ensures Held(ProjectCaps(host, log), p) == None
  {
    var s := SortBySeq(log);
    SortPermutes(log);
    forall j | 0 <= j < |s| ensures !SpeaksOf(host, s[j], p) {
      assert s[j] in multiset(s) && s[j] in multiset(log);
    }
    LastStatementDecides(host, s, p, -1);
  }

  ghost function LastIndex(s: seq<Message>, w: Message): (i: int)
    requires w in s
    ensures 0 <= i < |s| && s[i] == w && forall j :: i < j < |s| ==> s[j] != w
  {
    if s[|s| - 1] == w then |s| - 1 else LastIndex(s[..|s| - 1], w)
  }

  /** Some effective statement about `p` in `log` with the highest sequence number. */
  lemma {:induction false} HighestExists(host: PeerId, log: seq<Message>, p: PeerId) returns (w: Option<Message>)
    requires DistinctSeqs(log)
    ensures w == None ==> forall m :: m in log ==> !SpeaksOf(host, m, p)
    ensures w.Some? ==> w.value in log && SpeaksOf(host, w.value, p)
    ensures w.Some? ==> forall m :: m in log && SpeaksOf(host, m, p) && m != w.value ==> m.seqNo < w.value.seqNo
  {
    w := None;
    if log != [] {
      var init, m := log[..|log| - 1], log[|log| - 1];
      assert log == init + [m];
      w := HighestExists(host, init, p);
      if SpeaksOf(host, m, p) && (w == None || w.value.seqNo < m.seqNo) { w := Some(m); }
    }
  }

  /** The projection depends on the entries, not on the order they are held in. */
  lemma OrderIrrelevant(host: PeerId, a: seq<Message>, b: seq<Message>)
    requires DistinctSeqs(a) && DistinctSeqs(b)
    requires forall m :: m in a <==> m in b
    ensures ProjectCaps(host, a) == ProjectCaps(host, b)
  {
    forall p ensures Held(ProjectCaps(host, a), p) == Held(ProjectCaps(host, b), p) {
      if p == host {
        HostKeepsReadWrite(host, a);
        HostKeepsReadWrite(host, b);
      } else {
        var w := HighestExists(host, a, p);
        if w.Some? {
          HighestSeqDecides(host, a, p, w.value);
          HighestSeqDecides(host, b, p, w.value);
        } else {
          NobodySpeaks(host, a, p);
          NobodySpeaks(host, b, p);
        }
      }
    }
    SameHeldSameCaps(ProjectCaps(host, a), ProjectCaps(host, b));
  }

  lemma SameHeldSameCaps(a: Caps, b: Caps)
    requires forall p :: Held(a, p) == Held(b, p)
    ensures a == b
  {
    forall p ensures p in a <==> p in b { assert Held(a, p) == Held(b, p); }
    forall p | p in a ensures a[p] == b[p] { assert Held(a, p) == Held(b, p); }
  }

  function ByHost(host: PeerId): Message -> bool { (m: Message) => m.peer.id == host }

  lemma {:induction false} FilterSorted(p: Message -> bool, s: seq<Message>, bound: nat)
    requires forall i :: 0 <= i < |s| ==> s[i].seqNo <= bound
    ensures forall i :: 0 <= i < |Filter(p, s)| ==> Filter(p, s)[i].seqNo <= bound
  {
    if s != [] { FilterSorted(p, s[..|s| - 1], bound); }
  }

  lemma FilterAppend(p: Message -> bool, s: seq<Message>, m: Message)
    ensures Filter(p, s + [m]) == if p(m) then Filter(p, s) + [m] else Filter(p, s)
  {
    assert (s + [m])[..|s|] == s;
  }

  lemma InsertBefore(s: seq<Message>, last: Message, m: Message)
    requires last.seqNo > m.seqNo
    ensures Insert(s + [last], m) == Insert(s, m) + [last]
  {
    assert (s + [last])[..|s|] == s;
  }

  /** The stable sort commutes with dropping entries: inserting into the sorted rest first, or after. */
  lemma {:induction false} FilterInsert(p: Message -> bool, s: seq<Message>, m: Message)
    requires NonDescending(s)
    ensures Filter(p, Insert(s, m)) == if p(m) then Insert(Filter(p, s), m) else Filter(p, s)
  {
    if s == [] || s[|s| - 1].seqNo <= m.seqNo {
      FilterAppend(p, s, m);
      FilterSorted(p, s, m.seqNo);
      InsertLast(Filter(p, s), m);
    } else {
      var init, last := s[..|s| - 1], s[|s| - 1];
      FilterInsert(p, init, m);
      FilterAppend(p, Insert(init, m), last);
      InsertBefore(Filter(p, init), last, m);
    }
  }

  lemma {:induction false} FilterSort(p: Message -> bool, log: seq<Message>)
    ensures SortBySeq(Filter(p, log)) == Filter(p, SortBySeq(log))
  {
    if log != [] {
      var init, m := log[..|log| - 1], log[|log| - 1];
      FilterSort(p, init);
      SortSorts(init);
      FilterInsert(p, SortBySeq(init), m);
      if p(m) { assert (Filter(p, init) + [m])[..|Filter(p, init)|] == Filter(p, init); }
    }
  }

  lemma {:induction false} ReplayOwn(host: PeerId, log: seq<Message>)
    ensures Replay(host, Filter(ByHost(host), log)) == Replay(host, log)
  {
    if log != [] {
      var init, m := log[..|log| - 1], log[|log| - 1];
      ReplayOwn(host, init);
      if ByHost(host)(m) { ReplayAppend(host, Filter(ByHost(host), init), m); }
    }
  }

  /** Entries by anyone but the host are inert, in every log, with or without repeated numbers. */
  lemma OthersAreInert(host: PeerId, log: seq<Message>)
    ensures ProjectCaps(host, Filter(ByHost(host), log)) == ProjectCaps(host, log)
  {
    FilterSort(ByHost(host), log);
    ReplayOwn(host, SortBySeq(log));
  }

  /** Appending to any log an entry not below its largest number advances the projection by one step. */
  lemma ProjectAppend(host: PeerId, log: seq<Message>, m: Message)
    requires MaxSeq(log) <= m.seqNo
    ensures ProjectCaps(host, log + [m]) == Advance(ProjectCaps(host, log), host, m)
  {
    var sorted := SortBySeq(log);
    assert (log + [m])[..|log|] == log;
    SortPermutes(log);
    if sorted != [] { assert sorted[|sorted| - 1] in multiset(sorted); }
    InsertLast(sorted, m);
    ReplayAppend(host, sorted, m);
  }

  lemma ReplayAppend(host: PeerId, log: seq<Message>, m: Message)
    ensures Replay(host, log + [m]) == Advance(Replay(host, log), host, m)
  {
    assert (log + [m])[..|log|] == log;
  }

  // ---- Who may write, read off the log ----

  /** Entry `i` is the host's last word on `p`: of its statements about `p` the one with the highest number, and of
      several with that number the one appended last. */
  predicate LastWord(host: PeerId, log: seq<Message>, p: PeerId, i: nat) {
    && i < |log| && SpeaksOf(host, log[i], p)
    && forall j :: 0 <= j < |log| && j != i && SpeaksOf(host, log[j], p) ==>
         log[j].seqNo < log[i].seqNo || (log[j].seqNo == log[i].seqNo && j < i)
  }

  /** The host, or a peer on whom the host's last word is a grant of write access. */
  predicate Granted(host: PeerId, log: seq<Message>, p: PeerId) {
    p == host
    || exists i :: 0 <= i < |log| && LastWord(host, log, p, i) && log[i].payload == Encoded(Grant(p, ReadWrite))
  }

  function Speaks(host: PeerId, p: PeerId): Message -> bool { (m: Message) => SpeaksOf(host, m, p) }

  /** The last word, found by one pass over the log. */
  ghost function Word(host: PeerId, log: seq<Message>, p: PeerId): (w: Option<nat>)
    ensures w.Some? ==> LastWord(host, log, p, w.value)
    ensures w == None ==> forall j :: 0 <= j < |log| ==> !SpeaksOf(host, log[j], p)
  {
    if log == [] then None
    else
      var w, m := Word(host, log[..|log| - 1], p), log[|log| - 1];
      if SpeaksOf(host, m, p) && (w == None || log[w.value].seqNo <= m.seqNo) then Some(|log| - 1) else w
  }

  lemma LastWordUnique(host: PeerId, log: seq<Message>, p: PeerId, i: nat, j: nat)
    requires LastWord(host, log, p, i) && LastWord(host, log, p, j)
    ensures i == j
  {
  }

  lemma InsertEnds(s: seq<Message>, m: Message)
    ensures var t := Insert(s, m);
            t != [] && t[|t| - 1] == if s == [] || s[|s| - 1].seqNo <= m.seqNo then m else s[|s| - 1]
  {
  }

  /** The statements about `p`, sorted, end with the last word. */
  predicate EndsWithWord(log: seq<Message>, own: seq<Message>, w: Option<nat>) {
    if w == None then own == [] else w.value < |log| && own != [] && own[|own| - 1] == log[w.value]
  }

  lemma {:induction false} SortedEndsWithWord(host: PeerId, log: seq<Message>, p: PeerId)
    ensures EndsWithWord(log, SortBySeq(Filter(Speaks(host, p), log)), Word(host, log, p))
  {
    if log != [] {
      var init, m := log[..|log| - 1], log[|log| - 1];
      var own := Filter(Speaks(host, p), init);
      SortedEndsWithWord(host, init, p);
      if SpeaksOf(host, m, p) {
        assert Filter(Speaks(host, p), log) == own + [m] && (own + [m])[..|own|] == own;
        InsertEnds(SortBySeq(own), m);
      }
    }
  }

  lemma {:induction false} LastStatementHeld(host: PeerId, s: seq<Message>, p: PeerId)
    requires p != host
    ensures var own := Filter(Speaks(host, p), s);
            Held(Replay(host, s), p) ==
              if own == [] then None
              else if own[|own| - 1].payload.Encoded? then Outcome(own[|own| - 1]) else None
  {
    if s != [] { LastStatementHeld(host, s[..|s| - 1], p); }
  }

  /** In every log, repeated numbers included, what a peer other than the host holds is what the host's last word
      on it says: what a grant grants, and nothing after a revocation or without a word. */
  lemma LastWordDecides(host: PeerId, log: seq<Message>, p: PeerId)
    requires p != host
    ensures forall i: nat :: LastWord(host, log, p, i) ==> Held(ProjectCaps(host, log), p) == Outcome(log[i])
    ensures (forall i: nat :: !LastWord(host, log, p, i)) ==> Held(ProjectCaps(host, log), p) == None
  {
    FilterSort(Speaks(host, p), log);
    SortedEndsWithWord(host, log, p);
    LastStatementHeld(host, SortBySeq(log), p);
    var w := Word(host, log, p);
    forall i: nat | LastWord(host, log, p, i) ensures w == Some(i) {
      if w.Some? { LastWordUnique(host, log, p, i, w.value); }
    }
  }

  /** So the write gate opens exactly to the host and to those on whom its last word is a grant of write access. */
  lemma CanWriteIff(host: PeerId, log: seq<Message>, p: PeerId)
    ensures CanWrite(ProjectCaps(host, log), p) <==> Granted(host, log, p)
  {
    if p == host { HostKeepsReadWrite(host, log); } else { LastWordDecides(host, log, p); }
  }
}
