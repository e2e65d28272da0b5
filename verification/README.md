# faketunnel, verified

faketunnel publishes services of a private network through a public server. An *Edge* accepts visitors
on TCP, HTTP and UDP ports, checks them against an IP allowlist and a ban store, and carries their
traffic over one TLS connection to an *Agent*, which dials the local services. This project models the
parts of it whose correctness is not visible in any one function, and proves what they promise together.

- **UDP associations** (`UdpFrames`, `UdpHubModel`, `UdpProtocol`, `UdpInvariant`, `UdpLane*`, `UdpSafety`,
  `UdpReachable`, `UdpTheorems`, `UdpDelivery`): the Edge hub, the Agent's mirror, the two FIFO queues between them and the
  session gauge as a step relation, with a joint invariant over both ends and everything in flight. The
  invariant of an id is a property of its *lane*, the part of the world that mentions the id. `EdgeUdp` and
  `AgentUdp` are the hub and the stream objects with their methods, each proved against the operation that
  the step relation uses. `UdpLockSections` and `AgentLockSections` run the same code one critical section at
  a time and show what survives there and what does not; `GaugeRaces` does the same for the gauge itself.
- **Bans** (`BanRecord`, `BanHistory`, `BanModel`, `BanRuns`, `BanStore`): the timed escalation of strikes,
  temporary and permanent bans and pardons per address, its disk copy and reloads at any point.
- **Admission** (`Admission`, `AdmissionGrounds`, `EdgeGate`, `AdmissionGate`): how connection attempts feed the
  ban store, with handlers interleaved read by read, the Edge's own methods, and that a handler nobody interrupts
  does what they do.
- **Eviction** (`Eviction`, `EvictionSafety`, `EvictionExact`, `Registries`): list and ban changes that sweep the TCP, HTTP and
  UDP registries while connections are being accepted and associations entered.
- **Peeking and replay** (`Streams`, `TlsHello`, `TlsHelloTheorems`, `Http2Peek`, `Http2PeekTheorems`,
  `HttpHead`, `HttpPeek`, `HttpPeekTheorems`, `PrefixConn`): ClientHello reassembly, HTTP/1 and HTTP/2 heads,
  and reading the peeked bytes again. A `Stream` hands out its bytes in pieces of any size.
- **Wire protocol** (`Wire`, `TunnelFrames`, `TunnelMessages`, `Handshake`): frames, messages, and the
  handshake and stream-open exchanges of two ends.
- **Allowlist** (`Address`, `AddressBits`, `Allowlist`, `AllowlistRuns`, `AclStore`): addresses, masks and prefixes
  as Go's `net` package has them and as numbers, and the list and its store refined to a plain set of prefixes.

Functions and predicates say what an operation does to a value; methods and classes are the source's loops
and objects, proved against them; lemmas state the results. `dafny verify dfyconfig.toml` checks everything.

## Where the code and its documentation differ

The model follows the code.

- docs/architecture.md:8 lets allowlist misses, tunnel TLS or token failures and Admin failures add up to five
  invalid events. The code counts each kind on its own (internal/ban/store.go:185-189), ignores TLS errors that
  are not probes, and bans a probe for good at once (internal/edge/server.go:495-508).
- docs/architecture.md:130 counts UDP associations against one session limit. The code compares the limit with
  the associations of one hub (internal/edge/udp.go:188).
- The comment of `ObserveInvalid` (internal/ban/store.go:159-160) leaves out that pardoned addresses are ignored
  as well.

## Results that fail, and when

- Ids are 32-bit and wrap, and an opening does not check that its id is free. The two maps of a hub stay inverse
  exactly as long as every opening finds its id free (`UdpTheorems.CoherentIffFresh`, step by step
  `UdpHubModel.InsertCoherentIff`). Up to 2^32 openings per hub it always does, and the UDP results are stated for
  those; one more can break the index (`UdpTheorems.IdReuseBreaksCoherence`).
- An eviction between the unlock and the OpenAssoc write sends the CloseAssoc first, and the Agent is left with an
  association that only its idle reaping closes (`UdpTheorems.OvertakingStrands`); it happens to exactly the ids
  whose two frames were written in that order or whose CloseAssoc could not be written (`StrandedIffMissed`).
- Lock section by lock section, `failAssoc` can delete the address entry of the client's next association
  (`UdpLockSections.LateFailureUnindexes`, exactly when: `FailKeepsIndexIff`, over whole runs `IndexKeptIff`), and the
  gauge can drift (`ReorderingLosesUpdate`, `LateTimeoutLeaks`, exactly when and by how much: `GaugeDrift`).
- An allowlist change that cannot be saved takes effect but evicts nobody, and a UDP association is entered after
  its client was checked (`EvictionSafety.UnsavedSwapLeaves`, `LateInsertStays`). Each is harmless exactly if a change
  under way will notice whom it leaves (`UnsavedSwapSafeIff`, `InsertSafeIff`, over whole runs `WatchedIffHarmless`).
- A pardon that is not on disk is lost by the next reload, and the address can be banned again; unbanning once
  more does not help, for it finds no record, writes nothing and reports success (`BanRuns.LostPardonBlocks`). A
  pardon is for good exactly if it is on disk (`PardonIsForever`), which is if its write succeeded (`UnbanLastsIff`).
- The Admin port counts wrong tokens whether or not the address is trusted (`Admission.AdminBansListed`); being
  listed protects exactly as long as no such streak is completed (`ImmunityIff`).
- Being trusted at every moment does not protect an address: one that is first the agent's and then listed can be
  reported between the two reads of `trustedTunnelIP` (`AdmissionGrounds.ChangingGroundsFail`). What protects it is
  exactly that wherever it is unlisted it is the agent's from then on (`GroundsDecide`).

## Model

| member | source | states |
|---|---|---|
| UdpTheorems.JointInvariant | internal/edge/udp.go:173-364 | in every reachable state of Edge hub, Agent mirror, both queues and the decided-but-unwritten frames, opening and closing ones: a pending id has exactly one OpenAssoc or answer in flight, a ready id has none and is open at the Agent exactly while no CloseAssoc is on its way back, and an id the Edge dropped but the Agent holds (or will still open) has exactly one CloseAssoc on its way to it, unless that one was written before the OpenAssoc or could not be written |
| UdpTheorems.QuiescentAgreement | internal/agent/udp.go:70-150 | with nothing in flight and both ends alive, the Edge's ready ids and its indexed ids are the Agent's open ids without those whose CloseAssoc overtook their OpenAssoc or could not be written; so the ends agree if and only if no such id is open |
| UdpTheorems.StrandedIffMissed | internal/edge/udp.go:202-212 | in every reachable state, an id that the Agent holds is gone from the Edge with no CloseAssoc on its way if and only if its CloseAssoc was written before its OpenAssoc or not at all |
| UdpTheorems.OvertakingStrands | internal/edge/udp.go:200-212 | a run in which an eviction between the unlock and the OpenAssoc write leaves the Agent holding an id with nothing in flight |
| UdpTheorems.GaugeConserved | internal/metrics/metrics.go:36-47 | after every run the gauge equals the other live sessions plus the ready associations, and for every next step the clamp at zero does not fire |
| UdpTheorems.CloseSettlesGauge | internal/edge/udp.go:430-457 | closing the hub in any reachable state subtracts exactly its ready associations and empties both maps |
| UdpTheorems.NoCrossDelivery | internal/edge/udp.go:160-171 | over any run, what the local socket of an id was written is a prefix of what was forwarded on the id, what was addressed back is a prefix of what the socket produced, and every packet of the id belongs to its one owner |
| UdpDelivery.NothingLost | internal/edge/udp.go:160-171 | over any run: while the Agent holds an id, what was forwarded on it is what its socket was written followed by what is on the way, nothing missing; while the Edge does, likewise on the way back |
| UdpDelivery.ForwardArrives | internal/agent/udp.go:172-184 | a datagram forwarded on an open hub has been written to the socket of its id, right behind everything forwarded before it, once the Agent holds the id and has read what was sent on it, whatever else happened in between |
| UdpDelivery.AgentRoundRefines | internal/agent/udp.go:70-99 | the Agent's step of the protocol has the effect that the method of its read loop is proved to have: on the open ids, on every socket and on the answer |
| UdpDelivery.EdgeRoundRefines | internal/edge/udp.go:290-335 | and so has the Edge's: on the hub, on the gauge and on what is addressed to the clients |
| UdpTheorems.OwnerIsForever | internal/edge/udp.go:192-201 | the client an id was opened for never changes in any continuation of the run: ids are not handed out twice |
| UdpTheorems.IndexCoherence | internal/edge/udp.go:188-202 | up to 2^32 openings: byID and byAddr are inverse, each client has at most one association, the next id is unused at both ends, and neither side exceeds its limit |
| UdpHubModel.InsertCoherentIff | internal/edge/udp.go:192-201 | on a hub whose maps are inverse an insertion keeps them so if and only if the id it takes is free, which the source does not check |
| UdpTheorems.CoherentIffFresh | internal/edge/udp.go:192-201 | in runs of any length, beyond the wrap-around too, the two maps are inverse all along if and only if every opening found its id free |
| UdpTheorems.IdReuseBreaksCoherence | internal/edge/udp.go:192-193 | a run of 2^32 + 1 openings, one more than always find a free id, after which the maps are not inverse |
| UdpReachable.InvStep | internal/edge/udp.go:173-457 | every step of either side keeps the joint invariant and changes the gauge by exactly the requested amount |
| UdpReachable.InvHolds | internal/agent/udp.go:70-313 | the joint invariant holds after every run |
| EdgeUdp.UdpHub.BeginAssoc | internal/edge/udp.go:173-212 | refuses on a closed or full hub, returns the client's own association if there is one, and otherwise enters a new one in both maps, last used now, free id or not, and sends its OpenAssoc; a failed write takes it out again and wakes its waiters with an error; the hub stays valid exactly if the id was free |
| EdgeUdp.UdpHub.Forward | internal/edge/udp.go:160-171 | the datagram is written under the id of the association, in the hub or not, exactly if it fits a frame, the hub is open and the stream works; it counts as use even if it is not |
| EdgeUdp.UdpHub.GiveUp | internal/edge/udp.go:214-229 | the timer branch in whatever state the maps are: an answer that raced the timer wins; otherwise what stands under its id and client is dropped, its waiters are woken with an error and a CloseAssoc is sent if it can be written |
| EdgeUdp.UdpHub.FailAssoc | internal/edge/udp.go:236-249 | in whatever state the maps are: the entries under its id and under its client are deleted, its error is set and its ready channel is closed; the maps stay inverse exactly if both entries were its own or absent |
| EdgeUdp.UdpHub.MarkReady | internal/edge/udp.go:263-288 | an answer for an unknown id changes nothing, a refusal drops the association and its waiters get the given message as their error, an acceptance lets them go on without one and counts once; the waiters of all other associations see no change |
| EdgeUdp.UdpHub.Deliver | internal/edge/udp.go:324-335 | a payload goes to the client of its id, ready or not, and refreshes only that association |
| EdgeUdp.UdpHub.RemoveAssoc | internal/edge/udp.go:337-364 | the association leaves both maps; whoever still waits for it is woken with an error, one that was accepted keeps its outcome, and no other waiter sees a change; the gauge falls by one exactly if it was ready, and the Agent is told if asked to and the write succeeds |
| EdgeUdp.UdpHub.ReapIdle | internal/edge/udp.go:398-416 | exactly the ready associations last used before the cutoff are removed, with one CloseAssoc each, whichever of these writes fail, and the gauge lowered by their number; nobody who still waits is woken |
| EdgeUdp.UdpHub.EvictDisallowed | internal/edge/udp.go:383-396 | exactly the associations, ready or not, of clients that are not allowed are removed with one CloseAssoc each, whichever of these writes fail; those still waiting for one of them are woken with an error, the others not at all, and every remaining client is allowed |
| EdgeUdp.UdpHub.Close | internal/edge/udp.go:430-457 | both maps are empty, every association still pending is released with an error and the others keep their outcome, and the gauge falls by the number of ready ones; a second close changes nothing |
| EdgeUdp.UdpHub.CloseAssocs | internal/edge/udp.go:430-454 | the loop under the lock counts exactly the ready associations and tells exactly those who still wait that the hub is closed |
| EdgeUdp.UdpHub.WriteFrame | internal/edge/udp.go:418-428 | a frame is written exactly if the hub is open and the stream does not fail, and nothing else changes |
| EdgeUdp.UdpHub.ModelCoherent | internal/edge/udp.go:26-29 | the object invariant of the hub implies that its two maps are inverse |
| AgentUdp.UdpStream.OpenAssoc | internal/agent/udp.go:103-150 | exactly one answer unless closed or unwritable: positive for an id already open, negative when full or the dial fails, positive with a new entry, last used now, otherwise; a new entry whose answer cannot be written is closed again, and no other entry changes |
| AgentUdp.UdpStream.WriteLocal | internal/agent/udp.go:172-184 | the payload goes to that id's socket only; a failed write closes the association with its cancel channel, and says so if that can be written |
| AgentUdp.UdpStream.ReadLocal | internal/agent/udp.go:186-229 | one round of the reader of a local socket: a datagram that fits a frame is sent on under its id, an empty or oversized one or a timeout is passed over, a failed read closes the association with notice and a failed send without, and a reader that was told to stop does nothing |
| AgentUdp.UdpStream.Close | internal/agent/udp.go:231-250 | removes the entry, closes its cancel channel, and sends a CloseAssoc exactly if asked, not closed and writable |
| AgentUdp.UdpStream.ReapIdle | internal/agent/udp.go:269-283 | exactly the associations idle since the cutoff are closed and cancelled, with one CloseAssoc frame for each, whichever of these writes fail |
| AgentUdp.UdpStream.CloseAll | internal/agent/udp.go:297-313 | every association is cancelled, nothing is sent, a second call changes nothing |
| UdpLockSections.InvHolds | internal/edge/udp.go:173-457 | what survives when every critical section may interleave with every other |
| UdpLockSections.ReleaseExactlyOnce | internal/edge/udp.go:236-286 | in every interleaving of lock sections a ready channel is closed at most once and by the time its association leaves the hub; a closed hub has empty maps and no waiter |
| UdpLockSections.FailKeepsIndexIff | internal/edge/udp.go:236-249 | between sections a late failAssoc keeps the index coherent exactly when the client's address entry is its own or gone |
| UdpLockSections.OthersKeepIndex | internal/edge/udp.go:263-364 | every other section keeps the index coherent |
| UdpLockSections.IndexKeptIff | internal/edge/udp.go:173-457 | for every sequence of lock sections: the index by address is complete at every moment if and only if no failAssoc found its client under a newer association |
| UdpLockSections.LateFailureUnindexes | internal/edge/udp.go:270-276 | a schedule in which a late failAssoc deletes the address entry of the client's next association |
| UdpLockSections.GaugeDrift | internal/edge/udp.go:286-287 | once no adjustment is pending the gauge is off by exactly the ready associations that failAssoc dropped plus what the clamp cut off; it is right if and only if no adjustment met the clamp and no failAssoc found its association accepted |
| UdpLockSections.ReorderingLosesUpdate | internal/metrics/metrics.go:40-42 | a schedule in which the clamp loses an update because the decrement ran before the increment |
| UdpLockSections.LateTimeoutLeaks | internal/edge/udp.go:218-227 | a schedule in which an answer between the timer and failAssoc leaves the gauge one too high |
| AgentLockSections.CancelAtMostOnce | internal/agent/udp.go:231-245 | at lock-section granularity every association is mapped, deleted and about to be cancelled, or cancelled: exactly one of these, so no cancel channel is closed twice |
| EdgeUdp.UdpHub.HandleFrame | internal/edge/udp.go:298-320 | one round of the read loop: the effect of each kind of frame on the hub, the gauge, the client, the waiters of every association and when it was last used |
| AgentUdp.UdpStream.HandleFrame | internal/agent/udp.go:77-99 | one round of the read loop: the effect of each kind of frame on the open ids, the answer, and for every association what its socket has been written, when it was last used and whether it is cancelled: a datagram reaches its own socket and no other |
| GaugeRaces.LoopIsAtomic | internal/metrics/metrics.go:36-47 | however many callers interleave in the compare-and-swap loop, the gauge is what the finished calls make of it one clamped update at a time, each exactly once, in the order they finished |
| GaugeRaces.RetryMeansProgress | internal/metrics/metrics.go:43-45 | a caller goes around again only because another call finished in between |
| Metrics.Registry.AddSessions | internal/metrics/metrics.go:36-47 | the gauge moves by the delta, clamped at zero |
| BanRecord.ShapeKept | internal/ban/store.go:161-286 | every event on an address keeps: permanent exactly after two bans, a deadline only after one, the streak below the limit and zero under a ban, never both recorded and pardoned; a pardoned address stays as it is |
| BanRecord.NewlyBlocked | internal/ban/store.go:195-244 | an address becomes blocked only by a completed streak or a direct permanent ban, and never when pardoned |
| BanHistory.StreakIsHistory | internal/ban/store.go:180-190 | the stored counter equals the length of the maximal same-reason run of counted invalid events at the end of the address's history, since the last valid event, pardon or ban |
| BanHistory.BanIffStreak | internal/ban/store.go:190-206 | a counted event issues a ban if and only if that run reaches the limit with it |
| BanHistory.PermanentNeedsTwoStreaks | internal/ban/store.go:195-204 | without a direct permanent ban, a permanently banned address has two disjoint stretches of at least `limit` counted events of one reason each, and everything counted after the first ban came at or after its expiry |
| BanHistory.FiveMisses | internal/ban/store.go:15-22 | as shipped, five misses in a row block for six hours, 21 600 000 000 000 nanoseconds, from the fifth and not before |
| BanModel.StoreIsPerKey | internal/ban/store.go:161-337 | every operation of the store is, for each address, that address's own event or nothing |
| BanModel.SavedOrSame | internal/ban/store.go:435-446 | an operation either writes the disk or changes no pardon, ban count, permanence or live deadline |
| BanModel.BareListed | internal/ban/store.go:289-313 | a bare address in UnbanCIDRs is about exactly the addresses equal to it, in either notation |
| BanModel.CidrListed | internal/ban/store.go:289-313 | a CIDR is about exactly the addresses that agree with it, as numbers, in as many leading bits as its mask has ones |
| BanModel.UnbannedAre | internal/ban/store.go:314-337 | UnbanCIDRs removes and pardons exactly the recorded addresses that some entry is about, and leaves every other address as it was |
| BanRuns.StoreShape | internal/ban/store.go:161-337 | in every reachable state, with failed writes and reloads at any point: the shape above for memory and disk, and a pardoned address is blocked at no time |
| BanRuns.ReloadTransparent | internal/ban/store.go:400-447 | with a monotone clock and successful writes, a reload after any run (itself with reloads) leaves every address blocked at the same later times, the same pardons and the same ban counts |
| BanRuns.PardonIsForever | internal/ban/store.go:165-174 | a pardon outlasts every continuation, and the address is never blocked again in any, whatever the operations, failed writes, reloads and clock, if and only if it is on disk by now |
| BanRuns.UnbanLastsIff | internal/ban/store.go:266-286 | unbanning a recorded address is for good, in this sense, if and only if its write succeeds |
| BanRuns.PardonUntilReload | internal/ban/store.go:161-245 | without a reload every pardon lasts, written or not |
| BanRuns.SavedPardonsLast | internal/ban/store.go:435-446 | as long as every write has succeeded, every pardon so far outlasts every continuation |
| BanRuns.LostPardonBlocks | internal/ban/store.go:275-286 | a run in which the write of an unban fails, the second attempt finds no record and reports success without writing, and the next reload blocks the address again |
| BanRuns.SilentNeverBlocks | internal/ban/store.go:195-207 | an operation that does not call the change hooks blocks no address that was not blocked |
| BanRuns.StatusIsOwnHistory | internal/ban/store.go:38-48 | without restarts, what the store knows about an address after any run is the automaton run on that address's own events |
| BanStore.Bans.ObserveInvalid | internal/ban/store.go:161-208 | the whole new state, the disk write and the hook call of an invalid event, for every address, clock and outcome of the write |
| BanStore.Bans.BanPermanent | internal/ban/store.go:212-245 | likewise for a direct permanent ban, which upgrades a temporary one and leaves pardoned and permanent addresses alone |
| BanStore.Bans.ObserveValid | internal/ban/store.go:248-263 | only the streak is reset, and nothing is written |
| BanStore.Bans.Unban | internal/ban/store.go:266-286 | removes and pardons a recorded address, does nothing for an unknown one, and fails for an address without a key or when the write fails |
| BanStore.Bans.UnbanCIDRs | internal/ban/store.go:289-337 | exactly the recorded addresses in some parseable prefix are removed and pardoned; nothing is written if there is none |
| BanStore.Bans.Blocked | internal/ban/store.go:86-111 | agrees with the record of the address's key at the given time |
| BanStore.Bans.KindOf | internal/ban/store.go:114-135 | is empty exactly for an address that is not blocked, and "permanent" exactly for a permanent record |
| BanStore.Bans.Counts | internal/ban/store.go:381-398 | the two totals add up to the number of blocked addresses, the second being the permanent ones |
| BanStore.Bans.PersistLocked | internal/ban/store.go:435-489 | the file holds exactly the records that say something, and the pardons |
| BanStore.Bans.Load | internal/ban/store.go:400-433 | loads every usable entry under its canonical key and nothing else |
| BanStore.LoadsOwnFile | internal/ban/store.go:424-431 | a file the store wrote itself is loaded unchanged |
| Admission.Immunity | internal/edge/server.go:429-546 | an address that stays listed, or stays the last agent's, and starts unblocked with nothing held against it is never blocked, in any notation, under every interleaving of public and tunnel connections, list changes, pardons and the clock, as long as no wrong Admin token completes a streak of its own |
| Admission.ImmunityIff | internal/admin/server.go:126-144 | with a ban time above zero, throughout such a run the address is never blocked if and only if no wrong Admin token completes a streak of its own: the Admin port does not ask whether it is trusted |
| Admission.AdminBansListed | internal/admin/server.go:136-138 | as shipped, five wrong Admin tokens in a row block any address for exactly six hours, 21 600 000 000 000 nanoseconds, listed throughout or not |
| Admission.ListedIsAdmitted | internal/edge/server.go:614-638 | a connection from such a listed address to a public port is never turned away, wherever its handler stands, as long as the Admin port spares the address |
| AdmissionGrounds.CoveredIsNeverBlocked | internal/edge/server.go:536-546 | no single ground need last: it is enough that an address, wherever it is unlisted, is the agent's from then on |
| AdmissionGrounds.UncoveredCanBeBanned | internal/edge/server.go:536-546 | conversely, an address unlisted at one moment and not the agent's at a later one is banned in a run that only adds a probe reading the list at the one and the agent's address at the other |
| AdmissionGrounds.GroundsDecide | internal/edge/server.go:493-546 | so for an address that starts safe, is never pardoned and is spared by the Admin port, no such run in which its grounds come and go in the same order gets it banned if and only if it is so covered |
| AdmissionGrounds.ChangingGroundsFail | internal/edge/server.go:536-546 | a run in which an address is trusted at every moment, first as the agent's and then as listed, and is banned all the same because the two reads of its trust straddle the change |
| Admission.SafeStep | internal/edge/server.go:493-521 | each read or report of a handler keeps the immunity, and so does every other step except a wrong Admin token that completes a streak of the address |
| Admission.SafeStepIff | internal/admin/server.go:126-144 | and that one does not: with a ban time above zero the immunity is kept if and only if the step is not it |
| Admission.ProbeIsBanned | internal/edge/server.go:495-508 | a probe that nothing excused is blocked at every time unless the address was pardoned in between |
| EdgeGate.Gate.IsAllowed | internal/edge/server.go:242-253 | listed and not banned |
| EdgeGate.Gate.TrustedTunnelIP | internal/edge/server.go:536-546 | listed, or equal to the last agent's address in either notation |
| EdgeGate.Gate.PublicAllowed | internal/edge/server.go:614-638 | the answer, the deny counter and the one operation on the ban store |
| EdgeGate.Gate.NoteTunnelInvalid | internal/edge/server.go:493-521 | a probe is banned for good and a bad token counted, unless the address is trusted or pardoned; other errors only count as denied |
| EdgeGate.ClassifyIff | internal/edge/server.go:482-491 | a failed TLS handshake counts as a probe if and only if one of the two phrases stands somewhere in its message |
| EdgeGate.Gate.HandleAgent | internal/edge/server.go:429-491 | for every byte stream a peer may send and every message of a failed TLS handshake: a blocked peer is refused without a trace, one with the right token resets its streak and becomes the remembered agent, and any other has exactly the fault of its TLS handshake or first frame reported and is counted as denied; and what is answered and left unread |
| AdmissionGate.PublicIsGate | internal/edge/server.go:614-638 | a public handler that nobody interrupts takes the interleaved machine to the answer and the ban store that the Edge's own method computes |
| AdmissionGate.TunnelIsGate | internal/edge/server.go:429-521 | and so does a tunnel handler, for every outcome of the handshake: the reads of the machine, in their order, amount to the one report of the method |
| EvictionSafety.EvictionSafe | internal/edge/server.go:242-298 | for every schedule of handlers, senders of datagrams, list changes, bans, ticks and sweeps of the TCP, HTTP and UDP registries, with bans and list read separately, and for each connection or association: once no change is under way, if it is open and past its check it is allowed now, provided no step since the last announced change let this one slip by (the two kinds that can are in HarmlessTo); what happened to others does not matter |
| EvictionExact.AllowedIsServed | internal/edge/server.go:242-298 | the other half: a connection or association whose address is allowed as long as it exists is never turned away and never evicted, whatever changes and sweeps go on |
| EvictionSafety.TrackedFirstIsSafe | internal/edge/server.go:565-583 | a TCP or HTTP connection is tracked before it is checked, so for it only an unsaved list change that drops it itself can matter, and no datagram |
| EvictionSafety.InvStep | internal/edge/server.go:565-583 | every step that lets nobody slip by keeps: a connection found allowed is still allowed, or some change will still notice it |
| EvictionSafety.AnnouncedRestores | internal/acl/store.go:50-64 | an announced change restores the invariant, whatever earlier changes failed to announce |
| EvictionSafety.UnsavedSwapSafeIff | internal/acl/store.go:56-59 | a list change that cannot be saved announces nothing: with any changes under way, it keeps the invariant if and only if every open connection it drops will be noticed by one of them |
| EvictionSafety.InsertSafeIff | internal/edge/udp.go:95-103 | a datagram's sender is checked before its association exists: entering it keeps the invariant if and only if the sender is allowed at that moment or a change has yet to visit the hub |
| EvictionSafety.WatchedIffHarmless | internal/edge/server.go:255-298 | for runs of any length and each connection: it is overlooked at no moment if and only if every step is harmless to it |
| EvictionSafety.LateInsertStays | internal/edge/udp.go:95-103 | a run in which an association is entered after the sweep that should have removed it, and stays with no change under way |
| EvictionSafety.UnsavedSwapLeaves | internal/acl/store.go:56-59 | a run in which an unsaved change leaves a connection open that is not allowed |
| EvictionSafety.ChangesProceed | internal/edge/http.go:75-88 | while a change is under way some sweep step is possible: sweeps do not block each other |
| EvictionSafety.BanOpKeeps | internal/ban/store.go:195-207 | bans, pardons and strikes keep the invariant, silent ones because they block nobody new |
| Registries.Registry.EvictDisallowed | internal/edge/http.go:75-88 | exactly the tracked connections that are not allowed are closed, and none is untracked |
| Registries.Registry.CloseAll | internal/edge/server.go:313-320 | closes and forgets every tracked connection |
| TlsHelloTheorems.SplitIndependence | internal/proxy/peek.go:44-72 | however the message 0x01, length in three bytes, body is cut into records of at most 16384 bytes, within 64 KiB, exactly its body is parsed, exactly its records are consumed and the rest of the stream is untouched |
| TlsHelloTheorems.FoundIff | internal/proxy/peek.go:44-72 | and only then: a ClientHello is found, with these raw bytes and this rest, if and only if the stream begins with such records that carry it |
| TlsHelloTheorems.TruncatedIsPadded | internal/proxy/peek.go:74-88 | a stream that ends within its first record, behind the header, fails with the record filled up with zeros |
| TlsHelloTheorems.SniRoundTrip | internal/proxy/peek.go:90-169 | parsing a serialized ClientHello returns the host name put into it, after any other extensions and names of other kinds |
| TlsHelloTheorems.SniInFragments | internal/proxy/peek.go:90-169 | a serialized ClientHello, with its type and three length bytes written out, gives its host name from the stream in any fragmentation into records: exactly the records are consumed and the rest is left |
| TlsHelloTheorems.HelloParsed | internal/proxy/peek.go:90-144 | for any extensions, the result is what the first server_name extension says, or empty |
| TlsHelloTheorems.HelloSound | internal/proxy/peek.go:90-134 | a body that is accepted has the layout of a ClientHello, and the result is what its extensions say, or empty if it has none |
| TlsHelloTheorems.ExtensionsSound | internal/proxy/peek.go:120-144 | and these are a list of extensions in which the first of type 0 decides, up to a rest too short for one |
| TlsHelloTheorems.NamesSound | internal/proxy/peek.go:146-169 | whose list of names is read up to the first of kind 0, which is the result, or to a rest too short for one |
| TlsHelloTheorems.HelloIsReplayed | internal/proxy/peek.go:44-54 | on success the raw bytes followed by the unread ones are the original stream, and on any input at most 64 KiB plus one record are read |
| TlsHello.PeekClientHello | internal/proxy/peek.go:44-72 | the record loop, for every arrival of the bytes, computes the reassembly that the results above are about, and ends |
| TlsHello.ReadTLSRecord | internal/proxy/peek.go:74-88 | one record, or the header alone for a bad length, or the zero-filled remainder at the end of the stream |
| TlsHello.ParseHelloSNI | internal/proxy/peek.go:90-144 | the offset arithmetic agrees with parsing the fields one by one |
| TlsHello.ParseSNIExtension | internal/proxy/peek.go:146-169 | the first name of kind 0 within the list, ignoring what follows the list |
| Http2PeekTheorems.BlockReassembled | internal/proxy/peek.go:251-334 | for any earlier frames of other kinds, any split into HEADERS and CONTINUATION and any legal padding and priority fields, exactly the concatenated block is found, and it takes up exactly those frames |
| Http2PeekTheorems.BlockSound | internal/proxy/peek.go:251-334 | conversely, a block that is found was sent in such a legal way at the beginning of the stream |
| Http2PeekTheorems.Unwraps | internal/proxy/peek.go:315-334 | padding and priority fields are removed exactly |
| Http2Peek.FindBlock | internal/proxy/peek.go:251-313 | for every arrival of the bytes: a block complete within 64 KiB is found, what is found is the stream's own first block, and nothing is consumed beyond the raw bytes, of which there are at most 64 KiB plus one read |
| Http2Peek.ScanFrames | internal/proxy/peek.go:258-301 | scanning a growing buffer piecewise is scanning the whole stream |
| HttpPeek.PeekHTTP | internal/proxy/peek.go:172-197 | for every arrival of the bytes and either version: a head complete within 64 KiB is found, what is found is the stream's own first head, and raw plus unread bytes are the stream |
| HttpPeek.PeekHTTP1 | internal/proxy/peek.go:199-223 | the same for HTTP/1 alone |
| HttpPeek.PeekHTTP2 | internal/proxy/peek.go:251-351 | the same for HTTP/2 alone, with HPACK as a parameter |
| HttpPeekTheorems.RequestOverHTTP2 | internal/proxy/peek.go:336-351 | a request sent in any legal way behind the connection preface reaches the decoder as exactly its header block; the last value of ":authority" becomes the host and the last of ":path", up to its query, the path, and each is empty if its field is missing |
| HttpPeekTheorems.HeadOfFields | internal/proxy/peek.go:336-351 | that is so for every list of decoded fields, whatever else is in it |
| HttpPeekTheorems.RequestOverHTTP1 | internal/proxy/peek.go:225-249 | for any request line with a second field, with or without a third, and any header lines of which the first that is Host in some case has a value in white space: that value and the path up to its query are found, whatever the other headers and the body |
| HttpHead.HeadRoundTrip | internal/proxy/peek.go:203-249 | the head ends at its first blank line and parses back to the trimmed value and the path that were written |
| HttpHead.TargetIff | internal/proxy/peek.go:230-234 | the target is exactly what stands between the first space of the request line and the second, or its end |
| HttpHead.NoSpaceNoHead | internal/proxy/peek.go:230-233 | a request line without a space is an error |
| HttpHead.HeadWithoutHost | internal/proxy/peek.go:235-249 | without a Host header the path is found all the same and the host is empty |
| HttpHead.IsHostIff | internal/proxy/peek.go:243-246 | a header name counts if and only if it spells Host in some mixture of cases, the long s included |
| HttpHead.Trims | internal/proxy/peek.go:244-244 | white space around a value is cut off, and nothing of the value |
| HttpHead.ParseHTTP1Head | internal/proxy/peek.go:225-249 | the header loop finds the first Host header |
| HttpHead.PathBeforeQuery | internal/proxy/peek.go:353-361 | the query is cut off, and an empty path becomes a slash |
| PrefixConn.PrefixConn.Read | internal/proxy/prefix.go:21-31 | each read takes the next bytes of prefix and connection, in order, and leaves the connection alone while there is a prefix |
| PrefixConn.PrefixConn.ReadMany | internal/proxy/prefix.go:21-31 | under any sequence of buffer sizes the original stream is reproduced without gaps |
| PrefixConn.ReplayHello | internal/edge/http.go:257-263 | a TLS connection that was peeked at and wrapped reads as the original one |
| PrefixConn.ReplayHTTP | internal/edge/http.go:299-304 | a peeked-at HTTP connection that is wrapped reads as the original one |
| TunnelFrames.ReadWritten | internal/tunnel/frame.go:90-130 | reading a written frame returns its type and payload and leaves exactly what follows |
| TunnelFrames.ReadManyWritten | internal/tunnel/frame.go:90-130 | reading any concatenation of written frames returns them in order and leaves exactly the rest |
| TunnelFrames.WrittenAsRead | internal/tunnel/frame.go:109-130 | an accepted frame is what would have been written if and only if its two spare bytes are zero |
| TunnelFrames.FramesArePrefixFree | internal/tunnel/frame.go:82-106 | no written frame is the beginning of another |
| TunnelFrames.FrameLayout | internal/tunnel/frame.go:90-106 | a frame is version 1, its type, two zero bytes, the length of the payload in four bytes from the highest, and the payload |
| TunnelFrames.ReadOutcome | internal/tunnel/frame.go:109-130 | exactly which headers are rejected, when the stream is too short, and what is read and left otherwise, by the value of the length bytes |
| TunnelFrames.ReadFrame | internal/tunnel/frame.go:109-130 | for every arrival of the bytes, including wrong versions, oversized lengths and early ends |
| TunnelFrames.WriteFrame | internal/tunnel/frame.go:90-106 | writes one frame, or nothing if the payload is too large |
| TunnelMessages.AuthRequestRoundTrip | internal/tunnel/frame.go:161-187 | Parse inverts Marshal |
| TunnelMessages.AuthRequestUnique | internal/tunnel/frame.go:161-187 | Marshal inverts Parse on every accepted payload |
| TunnelMessages.AnswerRoundTrip | internal/tunnel/frame.go:195-218 | Parse inverts Marshal, for AuthResponse and OpenAck |
| TunnelMessages.AnswerUnique | internal/tunnel/frame.go:275-298 | Marshal inverts Parse exactly on payloads whose first byte is 0 or 1 |
| TunnelMessages.OpenMetaRoundTrip | internal/tunnel/frame.go:228-267 | Parse inverts Marshal |
| TunnelMessages.OpenMetaUnique | internal/tunnel/frame.go:228-267 | Marshal inverts Parse on every accepted payload |
| TunnelMessages.OpenAssocRoundTrip | internal/tunnel/frame.go:342-363 | Parse inverts Marshal |
| TunnelMessages.OpenAssocUnique | internal/tunnel/frame.go:342-363 | Marshal inverts Parse on every accepted payload |
| TunnelMessages.OpenAssocAckRoundTrip | internal/tunnel/frame.go:372-402 | Parse inverts Marshal |
| TunnelMessages.OpenAssocAckUnique | internal/tunnel/frame.go:372-402 | Marshal inverts Parse exactly on payloads whose flag byte is 0 or 1 |
| TunnelMessages.DatagramRoundTrip | internal/tunnel/frame.go:410-427 | Parse inverts Marshal |
| TunnelMessages.DatagramUnique | internal/tunnel/frame.go:410-427 | Marshal inverts Parse exactly on payloads that fit a frame |
| TunnelMessages.CloseAssocRoundTrip | internal/tunnel/frame.go:434-449 | Parse and Marshal invert each other |
| TunnelMessages.PingRoundTrip | internal/tunnel/frame.go:300-321 | Parse inverts Marshal on every signed 64-bit number |
| TunnelMessages.PingUnique | internal/tunnel/frame.go:306-321 | Marshal inverts Parse on every payload of eight bytes |
| TunnelMessages.DatagramsFit | internal/tunnel/frame.go:69-74 | a datagram can be marshalled exactly when it fits in a frame |
| TunnelMessages.StringsFit | internal/tunnel/frame.go:132-141 | exactly which credentials and stream requests can be marshalled, and how long they get |
| TunnelMessages.TextLayouts | internal/tunnel/frame.go:161-281 | the bytes of credentials, answers and stream requests, field by field |
| TunnelMessages.AssocLayouts | internal/tunnel/frame.go:323-436 | the bytes of the four messages about associations, field by field, ids from the highest byte |
| TunnelMessages.PingLayout | internal/tunnel/frame.go:300-316 | eight bytes from the highest, in two's complement |
| Handshake.HandshakeAgrees | internal/tunnel/handshake.go:19-96 | over a lossless link, for credentials that fit a frame: client success, server success and equal digests are equivalent, the server learns the exact agent id, and neither end consumes a byte past the other's frame |
| Handshake.ProbeIff | internal/tunnel/handshake.go:26-38 | exactly which byte streams make the peer a probe: a full header with a first byte other than 1 or a length over 65536, or a full frame of a type other than 1 |
| Handshake.JudgeIff | internal/tunnel/handshake.go:26-47 | an agent is let in under an id if and only if its stream begins with an AuthRequest frame of that id and a token of the right digest |
| Handshake.UnauthorizedIff | internal/tunnel/handshake.go:40-44 | a token counts as wrong if and only if it is there in full, in such a frame, and has another digest |
| Handshake.Answers | internal/tunnel/handshake.go:26-47 | what the Edge answers, byte for byte; nothing to a peer that sent no whole frame |
| Handshake.AcceptedIff | internal/tunnel/handshake.go:63-82 | the agent, and the Edge when it opens a stream, is content if and only if a frame of type 2, or 4, begins the answer and carries a positive message |
| Handshake.ServerHandshake | internal/tunnel/handshake.go:19-47 | the result, the answer that is sent and what is left unread, for every input |
| Handshake.ClientHandshake | internal/tunnel/handshake.go:50-82 | sends the credentials or, if they are too long, nothing, and judges the answer |
| Handshake.OpenExchange | internal/tunnel/session.go:141-218 | the Agent receives the exact request, the Edge learns exactly whether it was accepted, and neither consumes a byte too many |
| Handshake.RequestedIff | internal/tunnel/session.go:183-205 | the Agent takes a stream request if and only if the stream begins with a frame of type 3 that carries exactly it |
| Handshake.OpenData | internal/tunnel/session.go:141-180 | the request that is written, the outcome, and that the stream stays open exactly on success |
| Handshake.AcceptData | internal/tunnel/session.go:183-205 | the request that is read, and that the stream stays open exactly on success |
| Handshake.AckData | internal/tunnel/session.go:209-218 | writes the answer, or nothing if its message is too long |
| Wire.GetPut | internal/tunnel/frame.go:132-153 | a written string is read back and the rest is left |
| Wire.PutGet | internal/tunnel/frame.go:143-153 | a string that can be read is what would have been written |
| AllowlistRuns.AllowAfterRun | internal/acl/allowlist.go:40-53 | after any run of Replace, Add and Remove an address is allowed exactly when it agrees, as a number, with one of the prefixes of the set the run makes of a plain set, after division by the power of two of its free bits |
| AllowlistRuns.AllowedIff | internal/acl/allowlist.go:40-53 | the same of any list of well-formed prefixes |
| AllowlistRuns.ApplyRefines | internal/acl/store.go:50-167 | each operation does to the keys what it does to a plain set |
| AllowlistRuns.RunRefines | internal/acl/store.go:50-167 | so does every run |
| AllowlistRuns.AddedKeys | internal/acl/store.go:67-114 | Add keeps the old entries in front and adds exactly the keys that are new; it fails exactly when an entry does not parse |
| AllowlistRuns.AddedCount | internal/acl/store.go:81-97 | Add appends exactly one entry for each key that is new, however often and in whatever notation it is given |
| AllowlistRuns.AddIdempotent | internal/acl/store.go:81-97 | adding present keys again, in whatever notation, changes nothing |
| AllowlistRuns.KeptKeys | internal/acl/store.go:117-155 | Remove drops exactly the matching keys |
| AllowlistRuns.KeptEntries | internal/acl/store.go:139-150 | the remaining entries are exactly those with other keys, each as often as before |
| AllowlistRuns.KeptInOrder | internal/acl/store.go:139-150 | and they stand in the order in which they stood |
| AllowlistRuns.ErrorKeepsEntries | internal/acl/store.go:52-55 | a parse error changes nothing |
| AllowlistRuns.BareAddress | internal/acl/allowlist.go:102-109 | an entry without a prefix length admits exactly that address, in either notation |
| AllowlistRuns.CidrEntry | internal/acl/allowlist.go:90-101 | an entry with a slash is accepted exactly if it parses, and admits exactly the addresses that agree with it in as many leading bits as its mask has ones |
| AllowlistRuns.ParseKeepsKeys | internal/acl/allowlist.go:71-87 | parsing a list fails exactly when an entry has no key, and keeps the keys |
| Allowlist.EqualKeysEqualSets | internal/acl/store.go:208-218 | entries with equal keys admit the same addresses |
| Allowlist.AllowedByKey | internal/acl/allowlist.go:129-134 | whether an address is allowed depends only on its ban key, so a mapped address is treated like its IPv4 form |
| Allowlist.ParseAllAgain | internal/acl/store.go:102-105 | a list of accepted entries parses again, to itself, so the second Replace inside Add and Remove cannot fail |
| Allowlist.TrimsPadding | internal/acl/allowlist.go:71-80 | white space around an entry is cut off, and nothing of the entry |
| Address.CanonicalizeKeepsMembers | internal/acl/allowlist.go:112-127 | rewriting a prefix never changes which addresses it contains |
| Address.EqualSameKey | internal/ban/store.go:491-499 | addresses that IP.Equal identifies share a ban key |
| Address.SameKeyEqual | internal/ban/store.go:491-499 | and only those do |
| Address.KeyOfKey | internal/ban/store.go:424-431 | a key is its own key, so stored keys survive a reload |
| Address.SameKeySameMembers | internal/acl/store.go:208-218 | prefixes whose canonical forms have one key contain the same addresses |
| Address.MaskUnique | internal/acl/allowlist.go:117-124 | a regular mask is determined by its length and its number of ones |
| AddressBits.ContainsIff | internal/acl/allowlist.go:40-53 | a well-formed prefix contains an address exactly if both have the same length, in their IPv4 forms if they have one, and the same big-endian value after division by the power of two of the free bits |
| AddressBits.MaskIs | internal/acl/allowlist.go:117-124 | a mask has this many ones, all leading, exactly if its value is the difference of the two powers of two |
| AddressBits.NormalizeIs | internal/acl/allowlist.go:129-134 | exactly the addresses ::ffff:a.b.c.d become a.b.c.d, and exactly those with every byte zero have no key |
| AclStore.List.Replace | internal/acl/allowlist.go:27-37 | installs the parsed entries and prefixes, or keeps the previous ones |
| AclStore.List.Allow | internal/acl/allowlist.go:40-53 | the loop answers membership in some prefix; nil and unspecified addresses are denied |
| AclStore.List.ParseEntries | internal/acl/allowlist.go:71-87 | blank entries are skipped and one bad entry fails the list |
| AclStore.Store.Replace | internal/acl/store.go:50-64 | the new entries, the file and the hook call, including a save that fails |
| AclStore.Store.Add | internal/acl/store.go:67-114 | likewise; nothing is written or announced if nothing is new |
| AclStore.Store.Remove | internal/acl/store.go:117-167 | likewise; nothing is written or announced if nothing matches |

## Left out

- UdpTheorems.JointInvariant: takes the timer branch and a negative answer as one step each, and a gauge change together with the lock section before it; a failed OpenAssoc write whose association was evicted meanwhile is only in UdpLockSections. Frames that the Agent writes on an open stream arrive; those it cannot write are in AgentUdp.
- UdpTheorems.QuiescentAgreement: likewise.
- UdpTheorems.GaugeConserved: likewise; with the gauge update as a step of its own the exact account is UdpLockSections.GaugeDrift.
- UdpTheorems.IndexCoherence: likewise; with failAssoc as a step of its own the exact condition is UdpLockSections.IndexKeptIff.
- UdpTheorems.NoCrossDelivery: assumes that a datagram a socket accepts is written whole, and that a stream write either appends a whole frame or fails.
- AgentUdp.UdpStream.ReadLocal: models one round at one moment; the cancel channel is looked at once. With other steps in between the reader is in UdpProtocol.
- EdgeUdp.UdpHub.GiveUp: models the timer and the ready channel as flags read at one moment.
- EdgeUdp.UdpHub.EvictDisallowed: takes the selection and the removals as one step with one fixed isAllowed, as ReapIdle does; with other steps in between they are in EvictionSafety and UdpProtocol.
- EdgeUdp.UdpHub.Close: does not model the removal of the hub from the server's table (internal/edge/udp.go:459-463).
- Metrics.Registry.AddSessions: is the update as one caller sees it; the loop under contention is GaugeRaces. The times of the last denial are not kept.
- EvictionSafety.InsertSafeIff: hubs are registries that exist from the start; one that is opened after a change has listed the hubs (internal/edge/server.go:286-294) is passed over by it, which is not modelled.
- BanStore.Bans.ObserveInvalid: records are values in the map, not shared objects; keys are canonical address bytes instead of their text.
- BanRuns.ReloadTransparent: assumes that every attempted write succeeds; temporary files, renames and JSON are an abstract copy of records and pardons.
- Admission.Immunity: of the Admin port only the wrong tokens are modelled, as one step each; that an address already blocked is answered without counting is the case in which the step does nothing.
- EvictionSafety.EvictionSafe: says nothing about connections between acceptance and their check, which relay nothing yet. Removing an association from its hub is closing it and then forgetting it, two steps where the source has one.
- Allowlist.AllowedByKey: net.ParseIP and net.ParseCIDR are parameters that return well-formed values.
- Allowlist.EqualKeysEqualSets: not conversely: a prefix just wider than the IPv4-mapped block can match the same addresses under another key.
- HttpPeek.PeekHTTP2: HPACK is a parameter; a read never returns data together with an error, here and in all parsers.
- PrefixConn.PrefixConn.Read: WithPrefix returning the bare connection for an empty prefix is the case of an empty prefix.
- Handshake.HandshakeAgrees: SHA-256 is a parameter, and deadlines are not modelled.
- The rest of the Edge and Agent: TLS, yamux, sockets, goroutines, http.Server and ReverseProxy, certificates and ALPN.
- Configuration, host normalisation and routing, the command line, the Admin API, logs and Prometheus text: mostly choices on strings, which would only add easy members.
- Reconnect backoff, the check of local targets and PROXY protocol parsing: single-branch arithmetic or string checks.
- The agent_connected flag: a stale session watcher resets it unconditionally (internal/edge/server.go:372-381), so it does not mirror the session.
