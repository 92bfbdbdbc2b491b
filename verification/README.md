# Artel session protocol: a verified model

Artel lets peers share a session: one daemon hosts it, sequences every message into an append-only log,
and signs what it sequences; other daemons mirror that log over gossip. This project models the parts of
the daemon, the client and the file workspace in which order, failure and concurrency meet, and proves
what they keep over whole runs.

- `Protocol.dfy`: messages, signatures, reserved actions, the host's replay answer.
- `Capabilities.dfy`: projecting a log to who may write.
- `Mirror.dfy`, `MirrorLimits.dfy`, `MirrorBudget.dfy`: a joiner's mirror, exactly where its guarantees
  end, and the byte budget in front of it.
- `Epochs.dfy`: incarnations of a host, a joiner's watermark, the close gate.
- `Sessions.dfy`, `Registry.dfy`: one session in memory and store under every registry operation, as
  functions and as the class that performs them.
- `Answers.dfy`, `Departures.dfy`: what the answer to each operation means, read off logs, clocks and ledgers.
- `SessionCache.dfy`, `HostLogs.dfy`, `LogNumbers.dfy`, `Ledger.dfy`, `Admission.dfy`: what every run of those
  operations keeps.
- `Acks.dfy`: a joiner's send, from request to acknowledgement.
- `Overlaps.dfy`: runs in which a join or its rollback meets a session hosted under the same id.
- `Strays.dfy`: an operation whose session is removed between its look-up and its lock.
- `Subscriptions.dfy`, `Pipeline.dfy`: replay and live events, the forwarder's ring, the client's queue.
- `Slots.dfy`, `Delivery.dfy`: the bridge's slot protocol, and retrying envelope deliveries.
- `EchoGuard.dfy`, `Keys.dfy`: echo suppression with the tombstones that rely on it, and the key codec.

State that the daemon updates in place is a class whose methods are proved against step functions; the
theorems are about all runs of those functions. `dafny verify dfyconfig.toml` checks everything.

## How the model reads the code

- A lock hold is one step. Where the code releases its locks in mid-operation the operation is several steps,
  and every interleaving is considered: a remote join (look, store, insert, subscribe), its rollback (entry,
  record), a leave or close (record, entry, subscription), fan-out after a send, a beacon persisted before it is raised,
  reserve and finalize, check and deliver, and the mark, the two fingerprints and the unlink of a tombstone.
- Finding a session in the map and locking it is one step, except in `Strays.dfy`.
- Store calls take their outcome as a parameter: done, failed, or torn between the files the file store
  writes one after another. A single file write is all or nothing, and so is a deletion.
- Signatures follow section 5.1 of RFC 8032 idealised: a check succeeds exactly when that key signed that
  content. Theorems about mirrors state as a hypothesis that the host's key signed only what it logged,
  within one lifetime of the log.
- Random ids are fresh, clocks and timers are arbitrary, and encoded sizes are parameters.
- Normalisation to composed form (section 1.2 of Unicode Standard Annex #15) is any idempotent function
  that maps names to names.

## Where the code does less than it says

Each but the last is a theorem below, with the exact condition under which the promise holds and a run or input
that fails it.

- The author's signature leaves out the display name, so mirrors agree up to it.
- A mirror's file keeps arrival order and a reload does not sort it, so the duplicate check can fail after
  a restart.
- The file store appends to the log before it rewrites the record. If the second write fails, the send is
  refused and its entry stays; a send after it uses the number again. The comment beside `create` in the store
  relies on ids never being reused for another session; a create over old files adopts what they hold.
- A remote join writes its record with no lock held (`session.rs`, lines 1839-1845), although the comment above
  it says that existence check and insert share one hold. Two overlapping joins, or a join and a rollback, leave
  the store at odds with memory, and a watermark can fall back after a restart.
- A rollback removes whatever entry it finds under its id and leaves the bridge alone (`session.rs`, lines
  1931-1940). If a session was hosted under that id meanwhile, another join can register its mirror over the hosted
  record, and a mirror asks no ledger: the bearer of a revoked ticket becomes a member of the hosted session. If
  the session is hosted once more instead, its ledger starts over and returned tickets are lost.
- An operation that found its session before it was removed writes to the store by id, into the next session's
  log, ledger or members.
- A mirror that is dropped and joined again takes its watermark from the ticket alone.
- An acknowledgement binds a request id and not a requester.
- One loss may be reported by two gaps in a row.
- The same envelope published twice may be delivered by the older task after the newer.
- The tombstone's fingerprint holds no contents and whole seconds only, and another process can write between
  its second reading and the unlink; the comment there promises that any racing local write is spared.
- An accepted key can have a normal form that is refused.
- The comment on the capability set (`session.rs`, lines 456-464) says mirrors advance it message by
  message; the code advances it on hosts only, and the model follows the code.

## Model

| member | source | states |
|---|---|---|
| `Capabilities.Project` | crates/artel-daemon/src/session.rs:643-657 | the loop that sorts a log and folds it yields the projection the lemmas below speak of |
| `Capabilities.SortPermutes` | crates/artel-daemon/src/session.rs:648-649 | sorting the log for projection keeps every entry exactly as often |
| `Capabilities.SortSorts` | crates/artel-daemon/src/session.rs:648-649 | the sorted log is in sequence order |
| `Capabilities.HostKeepsReadWrite` | crates/artel-daemon/src/session.rs:664-697 | for every log, forged or not, what the projection holds for the host is ReadWrite |
| `Capabilities.HighestSeqDecides` | crates/artel-daemon/src/session.rs:643-697 | what a peer other than the host holds is what the host's statement about it with the highest sequence number says |
| `Capabilities.NobodySpeaks` | crates/artel-daemon/src/session.rs:643-697 | a peer the host never spoke of holds nothing beyond read access |
| `Capabilities.LastWordDecides` | crates/artel-daemon/src/session.rs:643-697 | for every log, repeated numbers included, what a peer other than the host holds is what the host's last word on it grants, and nothing after a revocation or without a word |
| `Capabilities.CanWriteIff` | crates/artel-daemon/src/session.rs:594-598 | the write gate opens exactly to the host and to peers on whom its last word is a grant of ReadWrite |
| `Capabilities.OrderIrrelevant` | crates/artel-daemon/src/session.rs:632-651 | the projection is the same for every permutation of a log whose sequence numbers are distinct |
| `Capabilities.OthersAreInert` | crates/artel-daemon/src/session.rs:664-690 | for every log, with or without repeated numbers, dropping every entry the host did not author leaves the projection unchanged |
| `Capabilities.ProjectAppend` | crates/artel-daemon/src/session.rs:2745-2754 | appending to any log an entry not below its largest number advances the projection by exactly one step, which is why the incremental set may be kept |
| `Mirrors.PartitionPoint` | crates/artel-daemon/src/session.rs:3586-3591 | everything before the answer is below the number searched, and the entry at the answer is not |
| `Mirrors.MirrorSession.constructor` | crates/artel-daemon/src/session.rs:1811-1876 | a new mirror is empty in memory and in the store |
| `Mirrors.MirrorSession.Receive` | crates/artel-daemon/src/session.rs:3573-3692 | one inbound frame: deduplicate, check author, check host, persist, insert in order, emit unless reserved; each refusal changes nothing, and a torn persist only the file |
| `Mirrors.MirrorSession.RestartDaemon` | crates/artel-daemon/src/session.rs:529-567 | a restart takes the file as it stands, in arrival order, and the head from its largest entry |
| `Mirrors.GenuineIsLogged` | crates/artel-daemon/src/session.rs:3592-3624 | a frame that passes both signature checks is the host's entry at its number, display name aside |
| `Mirrors.MirrorAgrees` | crates/artel-daemon/src/session.rs:3573-3692 | over every run of duplicated, reordered, lost, forged and re-sequenced frames, failed and torn writes and restarts: each entry held is the host's entry at that number, and head is the largest number held |
| `Mirrors.MirrorAscends` | crates/artel-daemon/src/session.rs:3586-3670 | between restarts the log is strictly ascending and holds exactly the numbers of the frames applied |
| `Mirrors.MirrorsConverge` | crates/artel-daemon/src/session.rs:3573-3692 | two mirrors that applied the same set of numbers since they started hold the same log and head, whatever order, duplication, loss and forgery lay between |
| `Mirrors.MirrorHoldsIff` | crates/artel-daemon/src/session.rs:3573-3692 | in every run a mirror's file holds exactly the numbers that landed in it, and the mirror exactly those that were applied, or landed in a torn append that a restart has read back since |
| `Mirrors.FrameTakenIff` | crates/artel-daemon/src/session.rs:3586-3670 | a frame is added to file and log if and only if the search for its number misses, it is of format 3 or later, signed by its author over its whole body and by the host over its number, and the store takes it |
| `Mirrors.RestartedMirrorsConverge` | crates/artel-daemon/src/session.rs:529-567 | so through restarts and torn appends too, two mirrors that kept the same numbers hold the same entries, display names aside, and the same head |
| `Protocol.ReplayAnswer` | crates/artel-daemon/src/session.rs:2417-2435 | the answer to a replay request is every log entry past the cutoff that is no capability entry and none of the four workspace actions, once for each time the log holds it, in log order, and nothing else |
| `Mirrors.ReplayBackfills` | crates/artel-daemon/src/gossip_bridge.rs:1470-1489 | once the whole answer since any cutoff was delivered with its writes succeeding, among anything else and through restarts, the mirror holds every entry of the host's log past the cutoff that is neither a capability entry nor one of the four actions |
| `MirrorLimits.ExactForEveryOrderIff` | crates/artel-protocol/src/signing.rs:86-119 | the mirror is an exact copy for every arrival order if and only if no delivered frame was renamed, since the author's signature does not cover the display name |
| `MirrorLimits.RenamedVerifies` | crates/artel-protocol/src/signing.rs:86-119 | any entry of any host log under any other display name still passes both signature checks |
| `MirrorLimits.EveryLogCanBeRenamed` | crates/artel-protocol/src/signing.rs:86-119 | so for every nonempty host log some mirror that receives all of it, and nothing forged, is not an exact copy |
| `MirrorLimits.SearchableIff` | crates/artel-daemon/src/session.rs:3586-3591 | a binary search is entitled to look for every number a log holds if and only if the log is in order |
| `MirrorLimits.DedupExactIff` | crates/artel-daemon/src/session.rs:3586-3591 | for every log, the duplicate check answers exactly for every number if and only if each number first appears after smaller ones only; so on every log in order, and on a log without repetitions only on one in order |
| `MirrorLimits.UnsortedMisses` | crates/artel-daemon/src/session.rs:3586-3591 | in an unsorted log some held number is missed although the log is partitioned at it, so no binary search could find it |
| `MirrorLimits.RestartKeepsOneEntryPerSeqIff` | crates/artel-daemon/src/session.rs:529-567 | after a restart the mirror keeps one entry per number under every further delivery if and only if its file was strictly ascending, torn persists included |
| `MirrorLimits.RestartDuplicatesWitness` | crates/artel-daemon/src/store/fs.rs:1117-1236 | the shortest failing run: entries 2 and 1 arrive, the daemon restarts, entry 1 arrives again and is held twice |
| `MirrorLimits.TornPersistDuplicatesWitness` | crates/artel-daemon/src/store/fs.rs:214-242 | the other failing run: a torn persist, the same frame again, a restart |
| `MirrorBudget.ApplyGate.constructor` | crates/artel-daemon/src/session.rs:1483-1491 | a gate starts with the whole budget available |
| `MirrorBudget.ApplyGate.OnMessage` | crates/artel-daemon/src/session.rs:1492-1525 | sheds an uncontended duplicate, sheds what the permits do not cover, otherwise takes the clamped cost and spawns |
| `MirrorBudget.ApplyGate.Complete` | crates/artel-daemon/src/session.rs:1530-1533 | a finished task applies its frame and returns exactly the permits it took |
| `MirrorBudget.PermitsConserved` | crates/artel-daemon/src/session.rs:1483-1535 | over every sequence of arrivals and completions, permits held plus permits left are the budget |
| `MirrorBudget.InflightBounded` | crates/artel-daemon/src/session.rs:1483-1535 | tasks in flight are at most budget / min(1024, budget), and unclamped payload bytes at most budget - 1024 * tasks |
| `MirrorBudget.ShedFrameIsInert` | crates/artel-daemon/src/session.rs:1493-1507 | a frame the early check sheds would have changed nothing, at whatever later point it had been applied |
| `MirrorBudget.GateIsAMirror` | crates/artel-daemon/src/session.rs:1483-1535 | the mirror behind the gate is the mirror of exactly the deliveries that got through it, in the order they finished |
| `MirrorBudget.ShedArrivalIsInert` | crates/artel-daemon/src/session.rs:1493-1507 | leaving out an arrival the early check shed leaves the whole run of the gate as it was, and letting it in would have changed no later mirror state |
| `MirrorBudget.SpawnedIff` | crates/artel-daemon/src/session.rs:1508-1525 | a frame whose number the mirror does not hold is spawned if and only if min(1024 + size, budget, 2^32 - 1) permits are free, and then holds them |
| `MirrorBudget.IdleGateTakesAnyFrame` | crates/artel-daemon/src/session.rs:1483-1525 | so after any run an idle gate sheds no frame the mirror does not hold, however large |
| `Epochs.Watermark.constructor` | crates/artel-daemon/src/session.rs:1811-1876 | a mirror starts its watermark at the epoch of its ticket |
| `Epochs.Watermark.OnBeacon` | crates/artel-daemon/src/gossip_bridge.rs:1298-1370 | a beacon above the watermark is persisted before the live watermark moves, and a failed persist moves nothing |
| `Epochs.Watermark.OnClose` | crates/artel-daemon/src/gossip_bridge.rs:1149-1198 | a signed close is accepted exactly when its epoch is not below the live watermark, and one accepted whose deletion succeeds dooms the mirror and does nothing else |
| `Epochs.HostIsAhead` | crates/artel-daemon/src/session.rs:1026-1087 | in every run, overlapping joins and rollbacks included, no epoch in a ticket, beacon, close, record, memory or watermark is above the host's |
| `Epochs.StepKeepsChainIff` | crates/artel-daemon/src/session.rs:1832-1872 | a step keeps live watermark <= mirror memory <= mirror disk if and only if it is not a join writing a lower epoch over a registered mirror's record, a join registering with a ticket above its record or below a subscription or pending beacon that an earlier mirror left, or a rollback deleting a registered mirror's record |
| `Epochs.RemovalOwed` | crates/artel-daemon/src/session.rs:1964-2042 | in every run a mirror whose record was deleted under its lock is registered and still owed its removal from the map |
| `Epochs.EpochChain` | crates/artel-daemon/src/gossip_bridge.rs:1298-1370 | in every run, whatever lies before: if none of those was taken since the last restart, or since a moment when no mirror was registered, live watermark <= mirror memory <= mirror disk <= host disk, all below the durable floor |
| `Epochs.CurrentCloseAlwaysPasses` | crates/artel-daemon/src/gossip_bridge.rs:1149-1198 | a close signed at the host's current epoch passes the gate of every subscribed mirror, in every reachable state |
| `Epochs.DepartingCloseKeepsPassing` | crates/artel-daemon/src/session.rs:1964-2042 | the close signed on leaving keeps passing, whatever joiners do, until the host starts another incarnation |
| `Epochs.PassingCloseEndsMirror` | crates/artel-daemon/src/session.rs:2462-2486 | a signed close not below the watermark of a registered, subscribed mirror deletes its record at once and leaves neither entry nor subscription |
| `Epochs.RefusedCloseChangesNothing` | crates/artel-daemon/src/gossip_bridge.rs:1149-1198 | a close below the watermark, never signed, or for a joiner without a subscription changes nothing, nor does one whose deletion fails |
| `Epochs.DepartingCloseEndsMirror` | crates/artel-daemon/src/session.rs:1964-2042 | so in every run the close signed on leaving ends every registered, subscribed mirror it reaches before the host starts another incarnation |
| `Epochs.IncarnationIsNew` | crates/artel-daemon/src/session.rs:1026-1171 | after every run, a completed create or resume has an epoch no lower than any ever signed, unused before if created, one higher if resumed, in memory, record and a ticket, and announced if resumed |
| `Epochs.HalfIncarnation` | crates/artel-daemon/src/session.rs:1026-1171 | a create or resume that stops half way signs nothing, and whatever it made durable stays below the next create |
| `Epochs.LeaveEndsIncarnation` | crates/artel-daemon/src/session.rs:1964-2042 | a leave whose deletion fails signs no close and ends nothing; one that succeeds signs the close of its epoch and keeps the floor |
| `Epochs.BeaconRaises` | crates/artel-daemon/src/gossip_bridge.rs:1298-1370 | a signed beacon above the watermark raises watermark, memory and record to it if its write succeeds |
| `Epochs.BeaconBounds` | crates/artel-daemon/src/gossip_bridge.rs:1298-1370 | a beacon not above the watermark or never signed raises nothing, nor does one whose write fails; one written before a crash is found by the restart |
| `Epochs.RegisteredIsNotClaimed` | crates/artel-daemon/src/session.rs:1832-1837 | a registered mirror is not joined anew, and no ticket never signed starts one |
| `Epochs.RollbackEndsJoin` | crates/artel-daemon/src/session.rs:1931-1940 | a join that fails after it registered leaves neither entry nor record |
| `Epochs.AcceptedBeaconIsHeld` | crates/artel-daemon/src/session.rs:2518-2541 | then a registered mirror holds an accepted beacon in memory and store, wherever a restart could look |
| `Epochs.OldCloseNeverPassesIff` | crates/artel-daemon/src/gossip_bridge.rs:1149-1198 | once a mirror holds an epoch of at least e, no close below e passes in any continuation in which no join begins with an older ticket, if and only if no join already under way was given one |
| `Epochs.OverlappingJoinWitness` | crates/artel-daemon/src/session.rs:1811-1872 | two joins look before either registers; the second writes last; the disk falls below memory, and after a restart a close of the first incarnation passes although a beacon of the third was accepted |
| `Epochs.RejoinFenceIff` | crates/artel-daemon/src/session.rs:1811-1876 | a mirror dropped and started anew keeps the fence at e if and only if its ticket was minted at e or later |
| `Epochs.RejoinWithOldTicketWitness` | crates/artel-daemon/src/session.rs:1811-1876 | a run in which a close of the first incarnation passes after a beacon of the third had been accepted |
| `Registries.Registry.constructor` | crates/artel-daemon/src/session.rs:906-934 | a registry starts with no session in memory or in the store |
| `Registries.Registry.Create` | crates/artel-daemon/src/session.rs:1112-1171 | create under the map lock: the floor decides the epoch, store before memory, and a lost race is answered by a retry |
| `Registries.Registry.Resume` | crates/artel-daemon/src/session.rs:1012-1087 | resume: ledger before epoch, and each failure leaves memory as it was |
| `Registries.Registry.Host` | crates/artel-daemon/src/session.rs:991-1186 | resume if registered and create otherwise, never ending in a retry |
| `Registries.Registry.Issue` | crates/artel-daemon/src/session.rs:1223-1246 | a ticket enters the stored ledger before the one in memory |
| `Registries.Registry.Revoke` | crates/artel-daemon/src/session.rs:1259-1282 | revocation is stored before it is answered, and revoking twice is harmless |
| `Registries.Registry.JoinExisting` | crates/artel-daemon/src/session.rs:1400-1439 | a join of a registered session stores the member before memory shows it |
| `Registries.Registry.LookForMirror` | crates/artel-daemon/src/session.rs:1832-1837 | a remote join that finds nothing registered goes on, with no lock held |
| `Registries.Registry.StoreMirror` | crates/artel-daemon/src/session.rs:1839-1845 | its record is written whatever has been registered since the look |
| `Registries.Registry.InsertMirror` | crates/artel-daemon/src/session.rs:1847-1876 | the first to insert wins and later joins adopt |
| `Registries.Registry.FinishJoin` | crates/artel-daemon/src/session.rs:1776 | a subscribed join can no longer be rolled back |
| `Registries.Registry.RollbackEntry` | crates/artel-daemon/src/session.rs:1931-1932 | a rollback removes whatever entry the id has by now |
| `Registries.Registry.RollbackRecord` | crates/artel-daemon/src/session.rs:1933-1940 | and afterwards deletes whatever record the id has by then |
| `Registries.Registry.LeaveSession` | crates/artel-daemon/src/session.rs:1985-2021 | under the session lock a departing host or mirror loses its record, any other member only its membership |
| `Registries.Registry.MarkDoomed` | crates/artel-daemon/src/session.rs:2002-2024 | a session whose record its own leave deleted still has its entry, and is owed its removal |
| `Registries.Registry.RemoveEntry` | crates/artel-daemon/src/session.rs:2023-2024 | the entry goes after the session lock was released, whichever session it holds by then |
| `Registries.Registry.Evict` | crates/artel-daemon/src/session.rs:2068-2092 | an eviction never removes the host |
| `Registries.Registry.Ensure` | crates/artel-daemon/src/session.rs:2137-2273 | admission: expiry, signature, ledger, membership, store, note of use, in that order |
| `Registries.Registry.StoreAppend` | crates/artel-daemon/src/store/fs.rs:214-242 | the store's append is two writes, log then record, and may stop between them |
| `Registries.Registry.Commit` | crates/artel-daemon/src/session.rs:2742-2754 | memory follows only a complete append, with the capability set advanced after the log |
| `Registries.Registry.Append` | crates/artel-daemon/src/session.rs:2597-2754 | a send is refused for action, session, membership, capability, signature, size and storage in that order, and otherwise takes the next number |
| `Registries.Registry.ApplyFrame` | crates/artel-daemon/src/session.rs:3573-3692 | a frame for a mirror changes its session and its record as the mirror model says, and no other session |
| `Registries.Registry.Advance` | crates/artel-daemon/src/session.rs:2518-2541 | a mirror's epoch only rises, store first |
| `Registries.Registry.Publish` | crates/artel-daemon/src/session.rs:3332-3355 | an envelope is stored before memory holds it, on a hosted session only |
| `Registries.Registry.Emit` | crates/artel-daemon/src/session.rs:3288-3322 | an envelope from the mirror's host is stored unless it is the one already held |
| `Registries.Registry.HostClosedSession` | crates/artel-daemon/src/session.rs:2462-2478 | a closed mirror loses its record under the session lock, and nothing if the deletion fails |
| `Registries.Registry.Load` | crates/artel-daemon/src/session.rs:906-934 | startup rebuilds every session from its record and nothing else; what was under way is gone |
| `Registries.Registry.Serve` | crates/artel-daemon/src/session.rs:991-2792 | any one call performs its step on its own session and leaves every other as it was |
| `Registries.Registry.ServeAll` | crates/artel-daemon/src/session.rs:906-2792 | after any sequence of calls and restarts over any sessions, each session is where its own calls put it, so every theorem on runs of operations holds of the registry |
| `Registries.Registry.HostedLogAuthorisesItself` | crates/artel-daemon/src/session.rs:2673-2754 | after any calls on a registry, the capability set of a hosted session is the projection of its log, and the log authorises itself if and only if the file it was loaded from, if any, did |
| `Registries.Registry.RecordRecovers` | crates/artel-daemon/src/session.rs:529-567 | after any calls, a crash loses nothing of a session if no step since the last restart, or since it was not live, put memory and store at odds |
| `SessionCache.SendReachesIff` | crates/artel-daemon/src/session.rs:2597-2741 | a message is sequenced if and only if its action is ordinary, the session is hosted here, the author is a member who can write and signed this body, the frame fits, and the store took it whole |
| `SessionCache.SendEffect` | crates/artel-daemon/src/session.rs:2597-2754 | a send appends the message it answers with, or leaves memory alone |
| `Answers.SendAnsweredIff` | crates/artel-daemon/src/session.rs:2597-2754 | in every hosted state that can be reached, a send is answered with a message if and only if it is no reserved action, its author is a member who is the host or on whom the host's last word in the log is Grant(ReadWrite), its body is signed, its frame is within the limit, and the store takes it |
| `Answers.SendRefusals` | crates/artel-daemon/src/session.rs:2597-2720 | in every hosted state the refusals come in this order and change nothing: reserved action, no member, no write access, bad signature, too large |
| `Answers.MirrorForwards` | crates/artel-daemon/src/session.rs:2618-2658 | a mirror sequences nothing: a member's send is passed on, whoever may write |
| `Answers.ReaderIsDenied` | crates/artel-daemon/src/session.rs:2682-2688 | a member other than the host whom the host last named a reader, revoked, or never named is answered CapabilityDenied |
| `Answers.SentIsWhatWasAsked` | crates/artel-daemon/src/session.rs:2700-2754 | what is answered is what was asked, at the next number of the log, with both signatures, and it is the last entry in memory and file |
| `Answers.EnvelopeIsKept` | crates/artel-daemon/src/session.rs:3288-3355 | an envelope published, or received from the host, is in memory and record, and a crash gives it back |
| `Answers.EnvelopeIsTaken` | crates/artel-daemon/src/session.rs:3288-3355 | it is refused only by the store, or for the wrong session or sender |
| `Answers.WatermarkIsRaised` | crates/artel-daemon/src/session.rs:2518-2541 | a watermark reported as raised is the larger of the two in memory and record, and nothing else has changed |
| `Answers.HostHasNoWatermark` | crates/artel-daemon/src/session.rs:2518-2541 | a watermark of a session hosted here is never moved |
| `Answers.CreatedAboveEveryEpoch` | crates/artel-daemon/src/session.rs:1112-1171 | in every run, deletions in between or not, a session created anew starts above every epoch any earlier record of its id had |
| `Answers.ResumedAtNextEpoch` | crates/artel-daemon/src/session.rs:1012-1087 | a resume answered with a ticket moved memory and record to the next 64-bit epoch and changed nothing else but the ledger |
| `Answers.FailedResume` | crates/artel-daemon/src/session.rs:1012-1087 | a resume that fails leaves memory as it was; the record may have a ticket nobody was given, and a torn epoch write keeps later creates above that epoch |
| `Departures.ExpelledIsOut` | crates/artel-daemon/src/session.rs:1985-2092 | whenever an eviction or a member's own leave is answered Ok, that peer is a member neither in memory nor, if it was one, in the record, and every other member stays |
| `Departures.ExpulsionSucceeds` | crates/artel-daemon/src/session.rs:1985-2092 | it is refused only by the store, and a leave to those who are no members |
| `Departures.ExpelledNeverSends` | crates/artel-daemon/src/session.rs:2068-2092 | in every run, once a peer was evicted or has left, no send by it is answered with a message until a join or announcement of it is answered Ok or it hosts the id itself; through restarts too if the record is free of it |
| `Departures.ExpelledIsUnstored` | crates/artel-daemon/src/session.rs:2068-2092 | and the record is free of it if memory knew it as a member or the record did not |
| `Departures.EndedIsGone` | crates/artel-daemon/src/session.rs:1964-2042 | a host's leave, a leave out of a mirror and a close of a mirror delete the record at once, then the entry, and no restart brings the session back |
| `Departures.NotTheirsToEnd` | crates/artel-daemon/src/session.rs:2453-2472 | a close of a session hosted here and a leave by one who is no member change nothing |
| `Departures.UndisturbedJoin` | crates/artel-daemon/src/session.rs:1811-1940 | a join that nothing disturbs ends with an empty mirror of the host at the ticket's epoch in memory and record, and its rollback leaves nothing |
| `Departures.FinishedJoinStays` | crates/artel-daemon/src/session.rs:1876-1940 | a join that has finished is not rolled back |
| `Departures.RegisteredIsNotClaimed` | crates/artel-daemon/src/session.rs:1832-1837 | a registered session is not joined as if it were not |
| `Departures.RestartIsIdle` | crates/artel-daemon/src/session.rs:529-567 | a restart leaves nothing under way and loads exactly what is stored |
| `Departures.OwnTicketStartsNothing` | crates/artel-daemon/src/session.rs:1811-1837 | a ticket of our own for a session that is not here starts no join |
| `Departures.JoinedIsMember` | crates/artel-daemon/src/session.rs:1400-1439 | a join of a registered session answered Ok makes a member in memory and record |
| `SessionCache.CapsAreProjection` | crates/artel-daemon/src/session.rs:2745-2754 | in every run, with no exception, the capability set a host keeps message by message is the projection of its whole log, and its head is the largest number in it |
| `SessionCache.StepFaithfulIff` | crates/artel-daemon/src/store/fs.rs:154-242 | from any state in which memory agrees with the store, a step keeps the agreement if and only if it is none of five: a torn append, a create over the remains of an earlier session, a join writing over a registered session's record, a join registering over a record other than its own, a rollback deleting a live session's record |
| `SessionCache.ReloadFaithful` | crates/artel-daemon/src/session.rs:529-567 | a reload agrees with the store whatever was there before |
| `SessionCache.OverlappingJoinsWitness` | crates/artel-daemon/src/session.rs:1811-1872 | two joins that look before either registers leave the store behind the mirror in memory |
| `SessionCache.RollbackWitness` | crates/artel-daemon/src/session.rs:1931-1940 | a rollback that overlaps another join deletes the record under a live mirror |
| `SessionCache.CrashReproducesSession` | crates/artel-daemon/src/session.rs:529-567 | in every run, whatever lies before: if none of those five was taken since the last restart, or since a moment when nothing was live, a crash and reload give back the registered session, capabilities included, up to notes of use, one ticket never handed out and the order of a mirror's log |
| `HostLogs.RejectedSendConsumesNothing` | crates/artel-daemon/src/session.rs:2597-2754 | a send takes a number exactly when it is answered with a message; every refusal leaves memory as it was |
| `HostLogs.OrderlyNumberedIff` | crates/artel-daemon/src/store/fs.rs:680-692 | in runs without creates over earlier logs and overlapping joins: the numbers of a hosted log are exactly 1 to head if and only if no send wrote to the log file between a torn append and a restart that then read the file |
| `HostLogs.ReusedNumberSpoils` | crates/artel-daemon/src/store/fs.rs:214-242 | from any hosted session, however it came about: a torn send, a good send and a restart leave a log that is not numbered |
| `LogNumbers.StepFileIff` | crates/artel-daemon/src/store/fs.rs:214-242 | a step leaves a log file numbered 1, 2, 3, ... if and only if it was and the step writes no other number than the next of the file; and its authors entitled if and only if they were and the step writes for no author without access in its projection, unless the record changes host |
| `LogNumbers.StepSignedIff` | crates/artel-daemon/src/session.rs:2673-2741 | a step leaves every entry of a file signed by its author and this host if and only if it was and the step brings in no frame of another host |
| `LogNumbers.FileNumberedIff` | crates/artel-daemon/src/store/fs.rs:214-242 | in every run, creates over earlier logs and overlapping joins included, from any moment since which there is a record: the log file is numbered if and only if it was and no step since wrote a number out of place |
| `LogNumbers.FileAuthorisedIff` | crates/artel-daemon/src/store/fs.rs:214-242 | the same of its authors, while the record keeps its host: entitled if and only if they were and no step since wrote for one who was not |
| `LogNumbers.FileSignedIff` | crates/artel-daemon/src/store/fs.rs:214-242 | and of its signatures: complete if and only if they were and no step since brought in a frame of another host |
| `LogNumbers.NewFile` | crates/artel-daemon/src/store/fs.rs:154-212 | a record comes into being with a log of which all three hold |
| `LogNumbers.StepHostedIff` | crates/artel-daemon/src/session.rs:2673-2754 | every step but a restart that leaves a session hosted leaves its log numbered, its authors entitled and its entries signed if and only if they were |
| `LogNumbers.LogNumberedIff` | crates/artel-daemon/src/session.rs:2673-2754 | in every run a hosted log is numbered if and only if it was not loaded by a restart, and hosted ever since, from a file that was not |
| `LogNumbers.LogAuthorisedIff` | crates/artel-daemon/src/session.rs:2673-2754 | in every run each author of a hosted log is the host or one on whom the host's last word in the strictly earlier entries was Grant(ReadWrite), if and only if the log was not so loaded from a file of which that is not true |
| `LogNumbers.LogSignedIff` | crates/artel-daemon/src/session.rs:2673-2741 | in every run of stamped operations each entry of a hosted log carries its author's signature and the host's, under the same condition on signatures |
| `LogNumbers.LogAuthorisesItselfIff` | crates/artel-daemon/src/session.rs:2673-2754 | in every run a hosted log authorises itself (numbers exactly 1 to head, entitled authors, capability set the projection of the log, host with write access) if and only if the file it was loaded from, if any, was numbered and had entitled authors |
| `LogNumbers.RestartHostedIff` | crates/artel-daemon/src/store/fs.rs:680-692 | the log a restart loads is numbered, has entitled authors and is signed if and only if the file is or has |
| `HostLogs.OrderlyLogAuthorises` | crates/artel-daemon/src/session.rs:2673-2754 | in such runs without a number reused the log authorises itself |
| `LogNumbers.HostBuildsHostLogIff` | crates/artel-daemon/src/session.rs:2673-2741 | in every run of stamped operations a hosted log is what mirrors rely on, numbered and doubly signed, if and only if the file it was loaded from, if any, was |
| `LogNumbers.MirrorFollowsHost` | crates/artel-daemon/src/session.rs:3573-3692 | host and mirror together: every entry a mirror holds is the host's entry at that number, by an author who could write when it was sequenced |
| `HostLogs.TornThenSentSpoils` | crates/artel-daemon/src/store/fs.rs:214-242 | such a run is orderly and reuses a number |
| `HostLogs.TornAppendWitness` | crates/artel-daemon/src/store/fs.rs:214-242 | such a run exists from an empty store |
| `Overlaps.PastLedgerWitness` | crates/artel-daemon/src/session.rs:1811-1940 | a run of requests, frames and own steps that ends in a hosted session with a member no ledger admitted, whose ticket was revoked before it announced itself: a join left while subscribing, the id hosted, its ticket revoked, the rollback, a second join's insert, the announcement, a restart |
| `Overlaps.TicketLostWitness` | crates/artel-daemon/src/session.rs:1112-1171 | a run in which a returned ticket is gone from the stored ledger though nothing was deleted: the rollback took the hosted entry and the id is hosted once more |
| `Overlaps.HostedRecordDeletedWitness` | crates/artel-daemon/src/session.rs:1931-1940 | a run in which a rollback deletes the record of a live hosted session, and its tickets with it |
| `Strays.StraySendIff` | crates/artel-daemon/src/session.rs:2660-2754 | a send on a session object removed from the map between look-up and lock leaves a registered session that agrees with its record in agreement if and only if the send is refused |
| `Strays.StraySendWitness` | crates/artel-daemon/src/session.rs:2660-2754 | a member's send that looked before the host left is written into the log file of the next session of that id |
| `Strays.StrayLedgerIff` | crates/artel-daemon/src/session.rs:1223-1282 | a stray issue or revoke leaves the registered session in agreement with its record if and only if it writes nothing, or the stray ledger with the change is the registered one with at most one entry more |
| `Strays.StrayResumeIff` | crates/artel-daemon/src/session.rs:1012-1087 | the same of a stray resume, whose next epoch must also be the registered one if its second write succeeds |
| `Strays.StrayEnsureIff` | crates/artel-daemon/src/session.rs:2137-2225 | a stray announcement leaves members and ledger in agreement if and only if the stray object refuses it, or the peer is a registered member and the ledger with the use noted, if written, agrees |
| `Strays.StrayIssueWitness` | crates/artel-daemon/src/session.rs:1223-1258 | an issue that looked before the host left puts the old session's ledger in place of the next one's |
| `Ledger.IdsStep` | crates/artel-daemon/src/session.rs:991-1282 | every step keeps ticket ids distinct and revocations known to memory effective in the store |
| `Ledger.FitStepIff` | crates/artel-daemon/src/session.rs:991-1282 | a step keeps the stored ledger of a live hosted session in agreement with memory if and only if it is not a join writing over its record or a rollback deleting it |
| `Ledger.RunFit` | crates/artel-daemon/src/session.rs:991-1282 | so in every run the stored ledger of a live hosted session agrees with memory if no such join or rollback was taken since the last restart, or since no hosted session was live |
| `Ledger.MintDurable` | crates/artel-daemon/src/session.rs:991-1258 | whatever is answered with a ticket has stored it, in every state |
| `Ledger.StepDurableIff` | crates/artel-daemon/src/session.rs:991-2042 | a step keeps a stored ticket, up to a revocation it answers Ok, if and only if it is not one of four: a create while nothing is registered, a rollback's delete, a close of a mirror, a leave by the host or out of a mirror |
| `Ledger.RevokedStaysDead` | crates/artel-daemon/src/session.rs:1259-1282 | once a revoke was answered Ok, no later hosted state admits that ticket, through resumes, failed and torn writes, overlapping joins, restarts, deletion and re-creation; a mirror has no ledger to ask, and Overlaps.PastLedgerWitness lets a bearer in through one |
| `Ledger.ReturnedTicketKept` | crates/artel-daemon/src/session.rs:991-1186 | in every run with fresh ids, every ticket a create, resume or issue returned stays in the stored ledger with its capability and expiry, and in memory whenever the session is hosted, until one of those four steps; and it is marked revoked exactly when a later revoke was answered Ok |
| `Ledger.ReturnedTicketAdmissibleIff` | crates/artel-daemon/src/session.rs:609-619 | whenever the session is then hosted, the claim of a returned ticket passes the ledger gate if and only if no later revoke of it was answered Ok |
| `Answers.ExpiredIsRefused` | crates/artel-daemon/src/session.rs:2146-2148 | in every state a claim with 0 < expiry <= now is answered TicketExpired and changes nothing |
| `Answers.UnsignedClaimIsRefused` | crates/artel-daemon/src/session.rs:2149-2160 | an unexpired claim this daemon did not sign for this session over these terms is answered InvalidCapClaim and changes nothing |
| `Answers.UnlistedIsRefused` | crates/artel-daemon/src/session.rs:2161-2189 | on a hosted session a valid claim the ledger does not list as active with these terms is answered TicketNotAdmissible, even to a member |
| `Answers.UseIsNoted` | crates/artel-daemon/src/session.rs:2204-2225 | whoever comes in by a ticket is noted beside it in memory and, if that write succeeds, in the record, once however often it comes |
| `Answers.RevokedAgain` | crates/artel-daemon/src/session.rs:1259-1282 | a ticket revoked before is revoked again with the same answer and no change; an unknown one is refused |
| `Answers.ReturnedTicketLetsIn` | crates/artel-daemon/src/session.rs:2137-2273 | in every run with fresh ids, the bearer of a ticket that was handed out, not revoked and not expired, of a ledger not discarded since, is answered Ok and is a member in memory and record, whenever the session is hosted and the store takes it |
| `Admission.InputsAreStamped` | crates/artel-daemon/src/server.rs:869-1001 | whatever requests and frames arrive, no operation acts under a name it was not entitled to: local requests act as the daemon, and a frame naming a peer other than the neighbour that delivered it is dropped |
| `Admission.MisdeliveredIsDropped` | crates/artel-daemon/src/gossip_bridge.rs:1113-1143 | a frame naming a peer other than the neighbour that delivered it has no effect |
| `Admission.StepGuardsIff` | crates/artel-daemon/src/session.rs:2137-2273 | a step lets in nobody but the peer the ledger admits, if and only if it is not the announcement of a new peer answered by a mirror entry over the record of a session hosted here |
| `Admission.BypassedIsMember` | crates/artel-daemon/src/session.rs:2145-2189 | a peer let in so is a member of the hosted session after the next restart, whatever the ledger says of its ticket |
| `Admission.AdmissionIsTheOnlyDoor` | crates/artel-daemon/src/gossip_bridge.rs:1113-1143 | in every run of requests, frames and own steps a hosted session is hosted by this daemon, which is a member until it leaves, and every other member came in by an announcement it delivered itself, with a claim signed by the host and unexpired, that was active in the ledger at that step or was answered by a mirror entry over the hosted record |
| `Admission.HostRequestHosts` | crates/artel-daemon/src/server.rs:869-1001 | in every run a request to host that the store takes is met whenever nothing is registered or the session is hosted with a record: hosted by this daemon, with the ticket asked for as its newest in memory and record |
| `Admission.SendRequestSends` | crates/artel-daemon/src/server.rs:869-1001 | in every run the host's own request to send, within the limits and taken by the store, is the last entry of the log it hosts |
| `Acks.PendingSends.constructor` | crates/artel-daemon/src/gossip_bridge.rs:648-660 | no send is pending at first |
| `Acks.PendingSends.Begin` | crates/artel-daemon/src/gossip_bridge.rs:660-664 | a send registers its request id before it broadcasts |
| `Acks.PendingSends.OnAck` | crates/artel-daemon/src/gossip_bridge.rs:1268-1298 | an ack the host signed resolves and removes the send waiting under its id; any other ack changes nothing |
| `Acks.PendingSends.Expire` | crates/artel-daemon/src/gossip_bridge.rs:735-741 | a timeout removes the pending send |
| `Acks.EntryStays` | crates/artel-daemon/src/session.rs:2742-2754 | in every run, creates over earlier logs, overlapping joins and rollbacks included, no step takes an entry out of the log of a session that stays hosted |
| `Acks.AckedMeansLogged` | crates/artel-daemon/src/gossip_bridge.rs:648-744 | whenever a joiner's send came back with a message, across any interleaving of senders, other host operations, failures, restarts, lost, repeated and forged frames, while the session stays hosted: the host's log holds that message, at its number if the log is numbered, and some request sequenced under that id asked for it |
| `Acks.AckedAtItsNumber` | crates/artel-daemon/src/gossip_bridge.rs:648-744 | at its number in orderly runs without a number reused |
| `Acks.OwnBodyIff` | crates/artel-daemon/src/gossip_bridge.rs:1082-1096 | a pending send can only come back with its own body if and only if every request the host has sequenced under its id is its own, since an ack binds the id and not the requester |
| `Acks.ForeignBodyReturned` | crates/artel-daemon/src/gossip_bridge.rs:1268-1298 | whenever another writer's request under the same id can be sequenced, there is a run in which the send comes back with that body |
| `Acks.ForeignBodyWitness` | crates/artel-daemon/src/gossip_bridge.rs:1268-1298 | such a session exists for any two peers: one admitted and granted write access by the host, the other asking under the same id |
| `Acks.AckResolvesOnce` | crates/artel-daemon/src/gossip_bridge.rs:1289-1296 | after one ack under an id no further ack under it has an effect |
| `Acks.HandledIsAnswered` | crates/artel-daemon/src/gossip_bridge.rs:648-744 | a request delivered by another than its author is dropped; every other is answered under its own id with what the host made of it |
| `Acks.AckResolves` | crates/artel-daemon/src/gossip_bridge.rs:1268-1298 | a signed ack resolves the send waiting under its id with its result; any other, and every one after a timeout, changes nothing |
| `Subscriptions.EventChannel.constructor` | crates/artel-daemon/src/session.rs:496-527 | a channel starts with an empty log and nothing to fan out |
| `Subscriptions.EventChannel.AppendUnderLock` | crates/artel-daemon/src/session.rs:2742-2746 | an unreserved message enters the log under the lock, its fan-out still to come |
| `Subscriptions.EventChannel.FanOutAfterUnlock` | crates/artel-daemon/src/session.rs:2756-2764 | a fan-out reaches the subscriber registered at that moment |
| `Subscriptions.EventChannel.SubscribeUnderLock` | crates/artel-daemon/src/session.rs:3048-3092 | replay and receiver are taken under one lock hold: the ticket envelope first, then the unreserved entries past the cutoff in order |
| `Subscriptions.ReplayHolds` | crates/artel-daemon/src/session.rs:3048-3092 | in every run a replay is the ticket message with the envelope's bytes, if there is one, then the log entries past the cutoff but the two injected actions, in log order, each once, and nothing else |
| `Subscriptions.AppendedIsDue` | crates/artel-daemon/src/session.rs:2742-2754 | what is appended is the last entry under the next number and still to be fanned out; the two injected actions are not appended |
| `Subscriptions.SubscribeLosesNothing` | crates/artel-daemon/src/session.rs:3048-3092 | for any number of concurrent senders and any interleaving, an entry past the cutoff is replayed, received or still due; the receiver gets none twice; and it comes both ways exactly when its fan-out was overtaken by the subscribe |
| `Subscriptions.MirrorSubscribeExactlyOnce` | crates/artel-daemon/src/session.rs:3663-3691 | on a mirror the replay and the later live events together are the unreserved entries past the cutoff, each as often as the log holds it |
| `Subscriptions.MirrorReplayOrLive` | crates/artel-daemon/src/session.rs:3663-3691 | on a mirror that has run since it was joined, each such entry is in exactly one of the two |
| `Pipeline.LossyTransitive` | crates/artel-client/src/client.rs:391-471 | two stages that each replace lost runs by gaps compose to one such stage |
| `Pipeline.GapFreeIsExact` | crates/artel-client/src/client.rs:391-400 | a view without gaps is the source itself |
| `Pipeline.NoSilentHole` | crates/artel-client/src/client.rs:391-400 | two neighbours that are not gaps were neighbours in the source |
| `Pipeline.CoalescedRunsAreMaximal` | crates/artel-daemon/src/server.rs:1561-1600 | read with neighbouring gaps as one, each gap stands for one maximal lost run |
| `Pipeline.SubscriptionForwarder.constructor` | crates/artel-daemon/src/server.rs:1531-1538 | a forwarder starts with its whole replay to send |
| `Pipeline.SubscriptionForwarder.Broadcast` | crates/artel-daemon/src/session.rs:51 | the ring keeps the newest 256 events |
| `Pipeline.SubscriptionForwarder.Pass` | crates/artel-daemon/src/server.rs:1537-1603 | one pass sends the next replayed message, the completion marker, the next live event, or one gap for everything the ring dropped; a failed send ends the task |
| `Pipeline.ForwarderLossy` | crates/artel-daemon/src/server.rs:1537-1603 | over every interleaving of broadcasts and passes, what was sent is replay, marker and broadcast up to the cursor with lost runs as gaps |
| `Pipeline.GapMeansLagged` | crates/artel-daemon/src/server.rs:1565-1597 | a gap was sent if and only if some pass found the receiver more than a ring behind |
| `Pipeline.SingleGapsIff` | crates/artel-daemon/src/server.rs:1565-1597 | each maximal lost run has one gap on the wire if and only if nothing is published between a turn that found the receiver overrun and the next turn |
| `Pipeline.DoubleGapWitness` | crates/artel-daemon/src/server.rs:1565-1597 | one event more than the ring holds, a turn, one more event, a turn: two gaps for one lost run |
| `Pipeline.ClientReader.constructor` | crates/artel-client/src/client.rs:391-394 | a reader starts with no gap owed and no event queued |
| `Pipeline.ClientReader.OnFrame` | crates/artel-client/src/client.rs:425-469 | a response wakes its caller whatever the queue holds; an event of a session that is owed a gap is dropped; an event that does not fit schedules one |
| `Pipeline.ClientReader.ScheduleGap` | crates/artel-client/src/client.rs:394-470 | the set of owed gaps stays ordered and free of duplicates |
| `Pipeline.ClientReader.FlushOne` | crates/artel-client/src/client.rs:401-413 | the first owed gap is queued once there is room, and all are dropped once the receiver is gone |
| `Pipeline.ClientReader.Next` | crates/artel-client/src/client.rs:40-50 | the consumer receives queued events in order |
| `Pipeline.ReaderLossy` | crates/artel-client/src/client.rs:391-471 | for every session and interleaving, while the receiver is open, what the consumer gets plus the gap owed to it is what arrived for that session with lost runs as gaps |
| `Pipeline.ReaderSingleGapsIff` | crates/artel-client/src/client.rs:436-469 | each loss of a session is reported by one gap if and only if no frame of the session that meets a full queue, or is itself a gap, directly follows another such frame |
| `Pipeline.TwoGapsWitness` | crates/artel-client/src/client.rs:401-469 | a full queue, a frame lost, room for its gap and no more, a frame lost again: two gaps |
| `Pipeline.QueueBounded` | crates/artel-client/src/client.rs:50 | the queue never holds more than its capacity |
| `Pipeline.ResponsesUndisturbed` | crates/artel-client/src/client.rs:425-435 | requests are answered exactly as if no event had arrived and no consumer had stalled |
| `Pipeline.NoSilentLoss` | crates/artel-client/src/client.rs:391-471 | through both buffers, what a consumer has taken of a session is a prefix of the source with lost runs as gaps, and a part without gaps is exactly such a prefix |
| `Pipeline.TurnSends` | crates/artel-daemon/src/server.rs:1537-1603 | a turn of an open forwarder sends the next item, or a gap for all but the newest 256; one that cannot be delivered ends it |
| `Pipeline.ClosedSendsNothing` | crates/artel-daemon/src/server.rs:1537-1603 | an ended forwarder sends nothing more |
| `Pipeline.TurnsDrain` | crates/artel-daemon/src/server.rs:1537-1603 | delivered turns bring an open forwarder to the end of its source, in as many turns as items before it at most |
| `Pipeline.RoomIsUsed` | crates/artel-client/src/client.rs:425-469 | with room in the queue an event of a session owed no gap is queued, and so is an owed gap |
| `Pipeline.ResponseWakes` | crates/artel-client/src/client.rs:425-469 | a response wakes the caller waiting for it, once, and nobody else |
| `Pipeline.TakesInOrder` | crates/artel-client/src/client.rs:40-50 | what is queued is taken in the order it was queued |
| `Pipeline.ClosedTakesNothing` | crates/artel-client/src/client.rs:401-413 | once the receiver is gone nothing more is queued or taken, whatever arrives |
| `Pipeline.ClosedIsOwedNothing` | crates/artel-client/src/client.rs:401-413 | gaps owed to a receiver that is gone are dropped |
| `Slots.SessionSlots.constructor` | crates/artel-daemon/src/gossip_bridge.rs:223-228 | no session is reserved or live at first |
| `Slots.SessionSlots.ReserveSlot` | crates/artel-daemon/src/gossip_bridge.rs:234-255 | a free slot is reserved under a generation never used before; a taken one is refused |
| `Slots.SessionSlots.FinalizeSlot` | crates/artel-daemon/src/gossip_bridge.rs:301-325 | the payload is installed if the slot still holds this reservation, and handed back otherwise |
| `Slots.SessionSlots.ForgetSlot` | crates/artel-daemon/src/gossip_bridge.rs:284-293 | the slot is emptied and a live payload handed back |
| `Slots.SessionSlots.DropReservation` | crates/artel-daemon/src/gossip_bridge.rs:328-344 | an unfinalized reservation frees its own slot and no other |
| `Slots.StepMoves` | crates/artel-daemon/src/gossip_bridge.rs:198-349 | a step moves at most one task, to the place the protocol says, and a spawn adds one |
| `Slots.ForwardersConserved` | crates/artel-daemon/src/gossip_bridge.rs:757-846 | over every interleaving of reserve, spawn, finalize, drop and forget, each spawned forwarder is in exactly one place: in hand, live in one slot, or handed back once for abort |
| `Slots.ForgottenNeverInstalls` | crates/artel-daemon/src/gossip_bridge.rs:619-640 | a teardown after a reserve makes that reservation's finalize fail for good, handing back its own task and touching no slot, even if the session was reserved anew |
| `Slots.StaleTouchesNothing` | crates/artel-daemon/src/gossip_bridge.rs:309-344 | finishing or dropping any other reservation leaves a reserved slot as it is, and the claim behind a reserved slot is still in flight |
| `Slots.LiveUntilTornDown` | crates/artel-daemon/src/gossip_bridge.rs:284-293 | a live slot is emptied only by a teardown of its own session |
| `Slots.SubscribeComesThrough` | crates/artel-daemon/src/gossip_bridge.rs:772-850 | from any run, a subscribe of a session without a slot, spawned and completed with anything in between but a teardown or its own end, leaves a task of that session live in the slot |
| `Slots.TakenSlotStays` | crates/artel-daemon/src/gossip_bridge.rs:234-255 | a session that has a slot is not subscribed a second time |
| `Slots.AbandonedSlotIsFree` | crates/artel-daemon/src/gossip_bridge.rs:328-344 | a subscribe given up before its task was spawned frees the slot it holds |
| `Slots.TornDownIsGone` | crates/artel-daemon/src/gossip_bridge.rs:619-640 | a teardown empties the slot and hands back the task live in it |
| `Delivery.RunDelivery` | crates/artel-daemon/src/session.rs:3410-3453 | at most `retries` sends, each after a check that found the envelope current, ending at the first success or the first stale check |
| `Delivery.NeverBackwards` | crates/artel-daemon/src/session.rs:2329-2387 | for any interleaving of publishes, admissions, departures and retrying tasks, landed envelopes follow publish order, the mirror keeps the one landed last, and no task outsends its retries |
| `Delivery.EntersIff` | crates/artel-daemon/src/session.rs:3380-3387 | a task takes a free lane if and only if the peer is a member and the task's envelope is still the newest, and ends otherwise |
| `Delivery.AdmissionDelivers` | crates/artel-daemon/src/session.rs:2262-2272 | an admission starts a delivery of the newest envelope, if any was published |
| `Delivery.AwayGetsNothing` | crates/artel-daemon/src/session.rs:3380-3387 | while the peer is away nothing takes the lane and no publish starts a delivery |
| `Delivery.DepartedGetsNothing` | crates/artel-daemon/src/session.rs:3380-3387 | a peer that departs with the lane free receives nothing until it is admitted again, whatever is published |
| `Delivery.DeliveryArrives` | crates/artel-daemon/src/session.rs:2329-2387 | with the lane free, a stored publish to a member, or an admission, whose task gets the lane and whose send arrives leaves the peer with the newest envelope |
| `Delivery.LeavingEnds` | crates/artel-daemon/src/session.rs:3410-3453 | a task whose send was answered is over, one that was not tries again, at most five times in all |
| `Delivery.OriginsAscendIff` | crates/artel-daemon/src/session.rs:3380-3387 | counted by the publish that spawned each task, landings never go backwards for any interleaving if and only if no envelope is published twice |
| `EchoGuards.EchoGuard.constructor` | crates/artel-fs/src/echo_guard.rs:127-133 | a guard suppresses nothing at first |
| `EchoGuards.EchoGuard.MarkRemoteWrite` | crates/artel-fs/src/echo_guard.rs:145-150 | a remote write arms the grace, clears the delete marker and records the hash |
| `EchoGuards.EchoGuard.UnmarkRemoteWrite` | crates/artel-fs/src/echo_guard.rs:162-165 | undoing it drops grace and hash and does not restore a marker |
| `EchoGuards.EchoGuard.MarkRemoteDelete` | crates/artel-fs/src/echo_guard.rs:181-188 | a remote delete drops the hash and reports whether the path was newly marked |
| `EchoGuards.EchoGuard.ReleaseTimerFires` | crates/artel-fs/src/echo_guard.rs:207-213 | a timer ends the grace and nothing else |
| `EchoGuards.EchoGuard.RecordLocalPublish` | crates/artel-fs/src/echo_guard.rs:237-243 | a publish clears the marker and records the hash |
| `EchoGuards.EchoGuard.Forget` | crates/artel-fs/src/echo_guard.rs:263-265 | forgetting a path drops its hash only |
| `EchoGuards.EchoGuard.ForgetAllPublished` | crates/artel-fs/src/echo_guard.rs:283-285 | a namespace swap drops every hash and keeps grace and markers |
| `EchoGuards.EchoGuard.ShouldSkipRemoval` | crates/artel-fs/src/echo_guard.rs:201-203 | a removal is skipped exactly while the path is marked |
| `EchoGuards.EchoGuard.ShouldSkipLocal` | crates/artel-fs/src/echo_guard.rs:221-230 | a change is skipped during the grace or when its hash is the recorded one |
| `EchoGuards.RemovalSuppressedIff` | crates/artel-fs/src/echo_guard.rs:181-243 | after any trace of lock holds and timers, a removal is suppressed if and only if the last marker touch was a remote delete |
| `EchoGuards.HashKeptIff` | crates/artel-fs/src/echo_guard.rs:145-285 | a hash is on record if and only if no later operation replaced or cleared it, however many timers fired |
| `EchoGuards.LocalSuppressedIff` | crates/artel-fs/src/echo_guard.rs:207-230 | a local change is suppressed if and only if the path's grace is running or its hash is on record |
| `EchoGuards.FreshPerRecreation` | crates/artel-fs/src/echo_guard.rs:181-188 | fresh tombstones are recorded re-creations plus one exactly while the path counts as deleted |
| `EchoGuards.ApplyTombstone` | crates/artel-fs/src/applier.rs:471-534 | a duplicate touches no disk; a fresh one announces and unlinks whatever is there by then exactly when its two fingerprints are equal |
| `EchoGuards.LocalWriteSparedIff` | crates/artel-fs/src/applier.rs:453-534 | in every run, a file written locally to a peer-deleted path outlives every later tombstone until its re-creation is recorded, if and only if it does not land between a fresh mark and the first fingerprint, nor between the fingerprints with an equal identity, nor between the second and the unlink |
| `EchoGuards.HiddenWriteLost` | crates/artel-fs/src/applier.rs:453-478 | a run in which a write hidden behind an equal fingerprint is removed |
| `EchoGuards.LateWriteLost` | crates/artel-fs/src/applier.rs:471-478 | a run in which a write after the comparison is removed |
| `EchoGuards.RemovalsBounded` | crates/artel-fs/src/applier.rs:489-534 | over every run the applier removes a path at most once more than the path was recorded as re-created |
| `Keys.EncodePath` | crates/artel-fs/src/keys.rs:28-73 | the encoding loop computes the key, failing at the first component that is not a plain name |
| `Keys.FindParent` | crates/artel-fs/src/keys.rs:106-112 | finds a parent segment if there is one |
| `Keys.CountNames` | crates/artel-fs/src/keys.rs:118-136 | refuses a component that leaves the root, else counts the names |
| `Keys.DecodeKey` | crates/artel-fs/src/keys.rs:82-154 | the decoding steps compute the path or refuse |
| `Keys.SplitJoin` | crates/artel-fs/src/keys.rs:68-73 | splitting joined names gives the names back |
| `Keys.AcceptedIff` | crates/artel-fs/src/keys.rs:82-145 | a key is accepted if and only if it has the prefix "path/", then starts with no slash, no backslash and no letter followed by a colon, never says "..", and has a segment that is neither empty nor "." |
| `Keys.AcceptedStaysUnderRoot` | crates/artel-fs/src/keys.rs:82-154 | an accepted key names a path strictly under the root, through ordinary names only |
| `Keys.RoundTripIff` | crates/artel-fs/src/keys.rs:28-154 | a path encoded and decoded comes back with its names normalised if and only if it has a name and the first, normalised, has no leading backslash or drive form; otherwise its key is refused |
| `Keys.NormalisedRoundTrip` | crates/artel-fs/src/keys.rs:28-154 | for names already normalised, decoding inverts encoding under exactly that condition |
| `Keys.NormalisesOnce` | crates/artel-fs/src/keys.rs:28-154 | decoding and re-encoding an accepted key drops empty and "." segments and normalises the rest, and is idempotent exactly when the first name left may begin a key |
| `Keys.AcceptedWithRefusedNormalForm` | crates/artel-fs/src/keys.rs:94-104 | every name that may not begin a key is accepted behind a "." segment and refused in normal form |

## Left out

- Gossip transport, relay readiness, address hints and streams: delivery is an event that happens or does not.
- Encodings: payloads that decode as capability actions are told apart from those that do not, and no more.
- Overflow of 64-bit sequence numbers and of the stored floor: numbers are unbounded, except that the epoch of a resume saturates.
- Deletion of a session and re-creation of its id during one mirror's life: the sequencing signature holds no epoch, so mirror theorems are per log lifetime.
- Waiting for another join's outcome, and the retry loop of host: whether a join ends subscribed is not claimed, nor that the loop ends.
- Attachments, the in-memory store, workspaces, watcher, rule filter and progress trackers.
- Pid file, process launching, shutdown, address cache: short branching over system calls.
- Upgrade, downgrade and rotate unicasts: one-step state beside the envelope, which is modelled.
- The bridge being dropped while a subscribe is in flight: a reservation whose table is gone only hands its payload back.
- The capability grant that follows an admission: it is a send of its own.
- HostLogs.OrderlyNumberedIff: for runs in which no create finds an earlier log and no join or rollback of the same id overlaps; LogNumbers.LogNumberedIff and LogNumbers.FileNumberedIff speak of every run.
- HostLogs.OrderlyLogAuthorises: for the same runs; LogNumbers.LogAuthorisesItselfIff speaks of every run.
- Acks.AckedMeansLogged: while the host keeps the session registered, since a deleted log holds nothing.
- Stray joins, leaves and evictions, and frames or beacons delivered to a mirror object that is no longer registered: Strays.dfy covers sends, issues, resumes, revokes and announcements.
- The load's check of author signatures: a stored frame that fails it is dropped with a warning. Every frame the daemon stores was checked or signed before it was written, so this concerns files changed by others.
- A create, a mirror's record or a watermark bump that raised the floor and then failed, in Sessions.dfy: the floor only decides the epoch of a later create, and no theorem there depends on which it is. Epochs.dfy has the outcome for the host.
- Store calls that overlap inside the store: each call takes effect at one moment.
- Mirrors.PartitionPoint: on a log that is not partitioned at the number searched, which only a restart can produce, the standard library leaves the answer of its binary search open and the model takes the first position; the theorems on restarts use answers that are forced.
- MirrorLimits.DedupExactIff: on a log out of order it speaks of the model's search; MirrorLimits.SearchableIff speaks of every binary search.
- MirrorBudget.ShedFrameIsInert: on such a log it speaks of the model's search.
- Delivery.NeverBackwards: an attempt lands inside its hold of the lane or never, so a frame still on the wire after the sender's timeout is not modelled; the joiner's record lives throughout.
- Registries.Registry.JoinExisting: the registered-entry path of a join only; the remote path is LookForMirror, StoreMirror, InsertMirror and the two rollback steps.
- Epochs.EpochChain: one host and one joiner, since joiners share nothing but what the host signed; the host's own leave is one step.
- EchoGuards.ApplyTombstone: what other processes do to the disk in its gaps is a parameter.
