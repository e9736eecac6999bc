# XS Nexus: a verified model of its protocols and codecs

XS Nexus is an overlay network: an agent on every node keeps encrypted sessions with
its peers, a controller distributes signed configurations, and relays carry traffic
that cannot go direct. This project models the parts of it whose correctness depends
on many functions working together, and proves what they promise for every input,
every run or every reachable state.

| file | models |
|---|---|
| `ReplayWindow.dfy` | the bitmap replay window of a receiver, refined from a set of sequences |
| `KeyEpochs.dfy` | both ends of the key update, over a network that loses, repeats and reorders |
| `KeySchedule.dfy` | when an end rotates, retransmits and keeps alive, and how often one update is sent |
| `Peers.dfy` | a peer's handshake states, retries, queue and candidates, and the maintenance pass |
| `PeerSteps.dfy` | which event begins, answers, finishes or ends a handshake, and that every session was earned |
| `Candidates.dfy` | selection, order, expiry and probing of a peer's endpoints |
| `Configuration.dfy` | the validator of signed configurations |
| `Directory.dfy` | the peer directory and its endpoint index, built from a configuration |
| `EndpointIndex.dfy` | the peer table: how its index is rebuilt, moved peers, expiry, and a new configuration |
| `TableRuns.dfy` | every run of that table, between configurations and across them |
| `Incidents.dfy` | when an accepted configuration is applied, and runs that end with an error |
| `Telemetry.dfy` | counters, their conservation, the report, and the controller's checks on it |
| `TrafficSteps.dfy` | exact totals over any life of a peer, and the schedule of a path probe |
| `Reports.dfy` | two reports of one boot, in step with the data plane or ahead of it |
| `Relay.dfy` | the relay clients of a configuration, leases, registrations and keepalives |
| `RelaySteps.dfy` | when a relay client registers, renews, resends and keeps alive |
| `Gateway.dfy` | forwarding switches and the NAT table under a write-ahead manifest, with crashes |
| `SubnetRoutes.dfy` | the prefix-overlap test, admission of subnet routes, and their reconciliation |
| `GatewayAdmission.dfy` | which gateway routes the kernel's table admits |
| `Netlink.dfy` | attribute and message framing, and the walk over acknowledgements |
| `NatRule.dfy` | what the NAT rule of a route does to a packet, from the bytes of its request |
| `XsnetCodec.dfy`, `Bytes.dfy` | the binary format shared with the Windows driver |
| `XsnetClient.dfy` | the single-flight request protocol with that driver |
| `RateLimiter.dfy` | the controller's limit on discovery requests |
| `LicenseParser.dfy` | the licence-expression parser of the bill-of-materials script |
| `Bits.dfy`, `Prelude.dfy` | words as strings of bits; shared vocabulary |

Code that changes fields or fills buffers is modelled by classes and loops, each
proved against a function or predicate on values; the theorems are about those.
Where the original calls the kernel, the disk, a clock, a random generator or
cryptography, the outcome is a parameter or a nondeterministic choice. Automatic
induction is switched off for every lemma, so each proof is what its body says.

## Assumptions

- Cryptography is ideal: a packet opens only if the other end sealed it under an
  epoch the receiver holds, key-update payloads are authentic, and digests do not
  collide. The network can only deliver packets that were sent.
- Integers are unbounded in the model. Wherever the original saturates, checks or
  truncates, the bound is written out.
- Clocks of one process never go back. Native byte order is little-endian.
- A failed write of the manifest leaves the old or the new manifest, never a mixture; a
  failed write of a switch or of the NAT table may or may not have happened. A failed
  addition or deletion of a subnet route has no effect.
- Durations are those of a release build, in milliseconds; test builds use shorter ones.

## Findings

Properties one would expect that the code does not have. Each is given with an input
or run that shows it and the exact condition under which the property does hold.

- A receiver forgets its previous epoch by time alone. If the acknowledgement of a
  rotation is lost for that long, the sender's packets, its new key updates included,
  are never accepted again unless an old acknowledgement still arrives
  (`KeyEpochs.RetiredWhileLaggingIsReachable`, `KeyEpochs.RetiredWhileLaggingIsSilent`;
  `KeyEpochs.NextPacketOpens` is the condition).
- A retry of a gateway request that was broken off can succeed without doing anything,
  because the request is remembered before it is carried out: after a failed manifest
  write (`Gateway.RetryAfterFailedRecording`) or a failed first switch
  (`Gateway.RetryAfterFailedSwitchOff`). `Gateway.TunNetwork.ReconcileGatewayRoutes`
  gives the condition.
- A relay lease can be dropped without being reported as lost
  (`Relay.UnreportedLossHappens`, `Relay.UnreportedLoss`).
- A rejected server hello leaves a peer idle with its candidate budget as it was, and
  forwarding then fails exactly when that budget is spent
  (`Peers.SpentBudgetIsReachable`, `Peers.ForwardFailsOnSpentBudget`).
- The validator takes an IPv4-mapped endpoint and its plain form for two endpoints; the
  directory and the relay manager do not (`Directory.MappedEndpointsSlipThrough`,
  `Incidents.MappedRelaysSlipThrough`). It also accepts more nodes than the directory
  takes, and relays that expire before the configuration is applied.
  `Directory.ValidatedPayloadBuildsIff`, `Relay.ValidatedRelaysBuildIff` and, for the
  whole of it, `Incidents.ApplyAccepted` give the conditions.
- An endpoint that a roamed peer still uses, listed for another peer by a new
  configuration, makes the rebuilding of the index fail, and the agent ends
  (`Incidents.RoamedEndpointIsListedElsewhere`; `EndpointIndex.ConfigurationFailsIffTrespass`
  is the condition).
- So does a configuration that removes a relay used by two established peers, if its
  lease had been dropped without a report: nobody is moved off it
  (`Incidents.LostLeaseEndsTheRun`; `Incidents.RemovedRelay` shows that it is exactly then).
- Between configurations the rebuild can fail too. A probe's answer moves its peer
  without a rebuild, even to an endpoint that has expired and left the index since; a
  datagram of another peer from there then ends the agent
  (`Incidents.StrayAnswerEndsTheRun`). Nothing else leads there: nobody strays before
  such an answer, and the rebuild fails exactly at such a datagram
  (`TableRuns.ReactionKeeps`, `TableRuns.LiveTable`, `TableRuns.Life`).
- A node that moves to another virtual address has its totals restarted, and the
  controller refuses reports until they have reached the old ones again
  (`Reports.MovedNodeIsRefused`, `Reports.MonotonicIffCaughtUp`). The report sent at once
  with a new configuration pairs its nodes with the old table: a moved node then shows
  nothing, and nodes that swap addresses show each other's totals
  (`Reports.ReportAheadIsRefused`, `Reports.SwappedNodesPassIffEqual`;
  `Reports.MonotonicIffOthersCaughtUp` is the condition for any node lists). Such a report
  cannot even be built while a session runs over a relay that the new configuration
  drops (`Reports.ReportFailsIff`).
- The limiter's window is fixed, so one minute can admit up to 59 requests of a source
  although the budget is 30 (`RateLimiter.BoundIsReached`, `RateLimiter.AnyMinuteIsBounded`):
  exactly when a second window opens in it and the requests of both add up to more
  (`RateLimiter.MinuteOverrunsIff`).
- A licence identifier that begins with the letters of an operator is torn apart by the
  tokenizer (`LicenseParser.TornIdentifier`, `LicenseParser.TokenizerRoundTrip`).

The framing of Netlink attributes saturates the length of a value that is too long, so
such a list would not read back (`Netlink.AttributesRoundTrip`); no request of the
gateway is affected (`Netlink.GatewayRequestsReadBack`).

## Model

| member | source | states |
|---|---|---|
| `ReplayWindow.Bitmap.Precheck` | crates/protocol/src/data.rs:549-571 | the bitmap test answers as the set of recent sequences does |
| `ReplayWindow.Bitmap.Commit` | crates/protocol/src/data.rs:573-594 | accepts what the set accepts and then stands for the set with the sequence added; otherwise nothing changes |
| `ReplayWindow.Bitmap.Shift` | crates/protocol/src/data.rs:600-620 | every mark stands exactly `distance` further on, across word boundaries, and what leaves the window is lost |
| `ReplayWindow.RunAccepts` | crates/protocol/src/data.rs:542-620 | after any history, a sequence is accepted exactly when it is new, within 1024 of the highest accepted one and not too far ahead, although the window has forgotten most of the history |
| `ReplayWindow.AcceptedAtMostOnce` | crates/protocol/src/data.rs:542-620 | in no history is one sequence accepted twice |
| `KeyEpochs.EstablishedPeer.ReceiveKeyUpdate` | apps/agent/src/data_plane.rs:1795-1819 | the new session and the acknowledgement are those of the session function |
| `KeyEpochs.EstablishedPeer.ReceiveKeyUpdateAck` | apps/agent/src/data_plane.rs:1821-1837 | the sender rotates exactly on the acknowledgement of its pending update |
| `KeyEpochs.EstablishedPeer.MaintainEstablished` | apps/agent/src/data_plane.rs:1839-1888 | retirement, rotation, retransmission and keepalive of one pass are those of the session function, which the rows of `KeySchedule` pin down |
| `KeyEpochs.EstablishedPeer.SealControl` | crates/protocol/src/data.rs:280-320 | one packet under the current epoch with the next sequence, or nothing once sequences are exhausted |
| `KeyEpochs.StepKeeps` | apps/agent/src/data_plane.rs:1660-1888 | every action of one end keeps the invariant between the two ends |
| `KeyEpochs.EveryRunKeepsInvariant` | apps/agent/src/data_plane.rs:1660-1888 | the two-ended invariant holds in every reachable state |
| `KeyEpochs.EpochsStayAdjacent` | apps/agent/src/data_plane.rs:1795-1888 | in every run and both directions the receiver's epoch is the sender's or the next, no epoch and sequence is used for two packets, and no packet is accepted twice |
| `KeyEpochs.NextPacketOpens` | apps/agent/src/data_plane.rs:1795-1888 | in every run and both directions the next packet opens exactly when its epoch is current or still retained and its sequence is admissible after what was accepted in that epoch |
| `KeyEpochs.LaggingSenderCatchesUp` | apps/agent/src/data_plane.rs:1795-1837 | while the previous epoch is retained, a fresh update that opens is acknowledged again, and that acknowledgement brings the sender level |
| `KeyEpochs.RetransmissionIsIgnored` | apps/agent/src/data_plane.rs:1839-1888 | in every run an accepted packet delivered again changes nothing, so a retransmitted update is never acknowledged a second time |
| `KeyEpochs.RetiredWhileLaggingIsSilent` | apps/agent/src/data_plane.rs:1839-1888 | once the sender's epoch is retired, nothing it sends is accepted in any continuation without an acknowledgement to it |
| `KeyEpochs.RetiredWhileLaggingIsReachable` | apps/agent/src/data_plane.rs:1843-1849 | such a state is reachable from a new session |
| `KeySchedule.PendingUpdatePass` | apps/agent/src/data_plane.rs:1851-1860 | with an update pending, a pass before 300 ms changes nothing; from then on it sends exactly the pending packet with one attempt more while fewer than six were made, and drops it silently at six |
| `KeySchedule.QuietPass` | apps/agent/src/data_plane.rs:1861-1888 | with none pending, an update to the next epoch is sent exactly when 1,048,576 packets or an hour have passed, otherwise a keepalive exactly after 15 s of silence; a pass fails exactly when what it owes cannot be sealed |
| `KeySchedule.PassRetiresPrevious` | apps/agent/src/data_plane.rs:1843-1849 | the previous receive epoch is forgotten exactly 30 s after the rotation, the current one never |
| `KeySchedule.DataPostponesKeepalive` | apps/agent/src/data_plane.rs:625-641 | a data packet takes the next sequence, is counted, and puts the keepalive off for 15 s |
| `KeySchedule.DeliveryMovesEpochs` | apps/agent/src/data_plane.rs:1795-1837 | a delivery moves the receive epoch exactly for an authentic update of the current epoch, and the sending epoch exactly for the acknowledgement of the pending update |
| `KeySchedule.DeliveryIsAnswered` | apps/agent/src/data_plane.rs:1660-1756 | a packet is recorded exactly when it is taken in, and answered exactly when it is a path challenge or an update of the current or the previous epoch |
| `KeySchedule.RotationCompletes` | apps/agent/src/data_plane.rs:1795-1837 | an update that opens at a level receiver is installed and acknowledged, and the acknowledgement brings the sender level |
| `KeySchedule.EveryRunIsDense` | apps/agent/src/data_plane.rs:638-641 | in every run the sequences of an epoch are used without a gap, and the counter that triggers a rotation is the number of data packets sent in the epoch |
| `KeySchedule.FirstPacketArrives` | apps/agent/src/data_plane.rs:1758-1793 | in a new session each end reads what the other sends |
| `KeySchedule.UnacknowledgedUpdateIsSentSixTimes` | apps/agent/src/data_plane.rs:248-258 | in every run and at both ends no update is sent more than six times, and one that is not acknowledged is sent exactly six times before it is given up |
| `Peers.EveryRunIsValid` | apps/agent/src/data_plane.rs:1439-1948 | in every run the byte count is the sum of the queued lengths, at most 32 packets and 64 KiB wait, an established peer has none, retries stay within bounds, and successes never exceed attempts |
| `Peers.EveryPacketIsAccountedFor` | apps/agent/src/data_plane.rs:1758-1793 | in every run each queued packet waits or has one fate, and the sealed packets are, in the order of queueing, those whose fate it was |
| `Peers.LivePeer.Install` | apps/agent/src/data_plane.rs:1758-1793 | draining the queue seals the acceptable packets first in, first out, and leaves an established peer with an empty queue |
| `Peers.LivePeer.QueueOne` | apps/agent/src/data_plane.rs:1439-1451 | a packet is queued exactly when both limits allow it, and the byte count stays exact |
| `Peers.LivePeer.PruneCache` | apps/agent/src/data_plane.rs:1934-1942 | the loop removes the expired front of the hello cache and nothing else |
| `Peers.PassMakesProgress` | apps/agent/src/data_plane.rs:861-908 | a pass over a handshake in flight waits, lowers the rank of the cycle, or ends it in backoff |
| `Peers.CycleEnds` | apps/agent/src/data_plane.rs:248-258 | under any schedule of passes at most `gap` apart, any room, any packets offered and any candidates expiring, one pass ends the cycle in a backoff between base and cap, within (rank + 1) times the retry interval and gap |
| `Peers.CycleSendsAtMostRank` | apps/agent/src/data_plane.rs:861-908 | under any schedule at all, the messages of a cycle are at most its rank |
| `Peers.CycleIsShort` | apps/agent/src/data_plane.rs:1453-1483 | a fresh cycle sends at most 8 times 6 messages and is over within 48 retry intervals and gaps |
| `Peers.BackoffDoubles` | apps/agent/src/data_plane.rs:1233-1245 | the delay starts at the base and doubles with every further failure up to the cap |
| `Peers.PassLeavesBudget` | apps/agent/src/data_plane.rs:891-895 | no pass leaves a peer idle with a spent candidate budget |
| `Peers.ForwardFailsOnSpentBudget` | apps/agent/src/data_plane.rs:1583-1622 | between passes it can be spent, and forwarding then fails, with the packet queued, exactly in that case |
| `Peers.SpentBudgetIsReachable` | apps/agent/src/data_plane.rs:1583-1622 | a run from a new peer that ends there |
| `Peers.SessionsSurviveConfiguration` | apps/agent/src/data_plane.rs:475-520 | a configuration keeps an established session, candidates aside unchanged, exactly when the policy version is the same |
| `Peers.DataPlane.MaintainAll` | apps/agent/src/data_plane.rs:850-908 | in any order of peers the counter of handshakes in flight is exact at every iteration; at most 8 are started, exactly the peers newly in flight, and at most max(before, 32) are in flight afterwards; it fails only where randomness or a sequence is missing; otherwise every peer had its pass, and one that is due was left waiting only by a limit |
| `Peers.StepKeeps` | apps/agent/src/data_plane.rs:1439-1948 | every handler keeps the peer's invariant |
| `Peers.StepCounts` | apps/agent/src/data_plane.rs:1439-1948 | no handler takes anything away from the handshake counters |
| `Peers.NewPeerBegins` | apps/agent/src/data_plane.rs:861-908 | a new peer sends its first hello, to its first candidate, in the first pass that has room |
| `PeerSteps.WhenEstablished` | apps/agent/src/data_plane.rs:1624-1658 | a step establishes a session exactly on the finish that the peer waits for, verified and with keys derived, and ends one exactly on a new hello or a changed policy |
| `PeerSteps.WhenServerHello` | apps/agent/src/data_plane.rs:1505-1581 | a hello is answered exactly when it verifies, is neither pending nor cached, and the peer does not hold its own against it; what else ends the waiting for the finish |
| `PeerSteps.WhenClientFinish` | apps/agent/src/data_plane.rs:1583-1622 | the finish is sent exactly on the verified answer to the own hello |
| `PeerSteps.WhenClientHello` | apps/agent/src/data_plane.rs:861-908 | a hello is sent exactly for a packet on an idle peer, for the next candidate after a timeout, or by a pass that may start one, always within the budget |
| `PeerSteps.CountersAreExact` | apps/agent/src/data_plane.rs:1453-1483 | attempts count exactly the hellos sent and answered, successes exactly the sessions established |
| `PeerSteps.QueueIsExact` | apps/agent/src/data_plane.rs:1439-1451 | the queue grows by exactly the packets taken and is emptied exactly by a session, a refused handshake, a changed policy or a cycle given up |
| `PeerSteps.BudgetIsExact` | apps/agent/src/data_plane.rs:1213-1245 | the candidate budget and the time of the next handshake change exactly for the stated causes |
| `PeerSteps.GivingUpBacksOff` | apps/agent/src/data_plane.rs:1233-1245 | a cycle is given up exactly without a next candidate or budget; it counts a failure, backs off accordingly and starts over at the head of the list, while an advance goes to the candidate after the active one |
| `PeerSteps.FailuresAreKept` | apps/agent/src/data_plane.rs:1233-1245 | outside the passes only a new session forgets the failures counted |
| `PeerSteps.PassSends` | apps/agent/src/data_plane.rs:861-908 | a pass sends exactly the message that is due again, or a new hello |
| `PeerSteps.ActiveMoves` | apps/agent/src/data_plane.rs:928-943 | what the active endpoint becomes by a configuration, a failed relay, an expiry or a promotion |
| `PeerSteps.HelloIsRemembered` | apps/agent/src/data_plane.rs:1926-1942 | no copy of a hello that was taken is taken again within five minutes |
| `PeerSteps.HelloStaysKnown` | apps/agent/src/data_plane.rs:1926-1942 | nor does any other event make the peer forget it, while fewer than 64 are known |
| `PeerSteps.SessionsAreEarned` | apps/agent/src/data_plane.rs:1505-1658 | in every run an established peer took a hello, or the answer to its own, and later the verified finish that belongs to it, and has been established ever since |
| `Peers.EveryRunKeepsOrder` | apps/agent/src/data_plane.rs:928-941 | in every run the candidates stay at most eight and strictly ordered, so the probe target is the head of the list unless that is active |
| `Candidates.NormalizeKeepsLowBits` | apps/agent/src/candidates.rs:323-333 | exactly the endpoints whose leading 96 bits mark them as mapped become the IPv4 endpoint of the last 32 |
| `Candidates.CandidatesAreOrdered` | apps/agent/src/data_plane.rs:1116-1160 | at most eight candidates, of strictly decreasing priority across direct and relay entries |
| `Candidates.DirectPartIsSound` | apps/agent/src/data_plane.rs:1116-1156 | the direct entries are distinct normalized endpoints of the node, within the limit |
| `Candidates.SortedIsSorted` | apps/agent/src/data_plane.rs:1151-1151 | the sort is a permutation into falling priority |
| `Candidates.SelectionKeepsTheBest` | apps/agent/src/data_plane.rs:1116-1156 | for a validated node, selection keeps the first usable candidates in their order |
| `Candidates.LiveSelects` | apps/agent/src/data_plane.rs:1122-1135 | exactly the first unexpired direct candidate of every endpoint is selected, in order and normalized |
| `Candidates.SelectionIsUsable` | apps/agent/src/data_plane.rs:1122-1150 | every selected candidate is an unexpired one of the node; only if it has none, its direct endpoints are used until its credential ends |
| `Candidates.SelectionDropsTheWorst` | apps/agent/src/data_plane.rs:1151-1154 | a usable endpoint is left out only when the list is full, of candidates that rank at least as high |
| `Candidates.DirectEndpointsStandIn` | apps/agent/src/data_plane.rs:1136-1150 | a node without a usable candidate is reached at its direct endpoints, all of them unless the list is full |
| `Candidates.RelayCandidatesList` | apps/agent/src/relay.rs:151-171 | relay entries have priorities strictly decreasing from 9999 |
| `Candidates.RelayCandidatesAreCanonical` | apps/agent/src/relay.rs:151-171 | they are the clients by falling priority and rising identifier, the same list for every order of the table |
| `Candidates.NextPathIsCandidate` | apps/agent/src/data_plane.rs:1328-1361 | a failed path is replaced by another candidate whenever there is one |
| `Candidates.NextPathFollows` | apps/agent/src/data_plane.rs:1334-1345 | a failed path moves to the first other candidate after it |
| `Candidates.NextPathWraps` | apps/agent/src/data_plane.rs:1345-1350 | only without one it wraps round to the head of the list |
| `Candidates.RoutesChangedIff` | apps/agent/src/data_plane.rs:1198-1211 | a configuration changes the routes exactly if the lists differ in more than their expiries |
| `Candidates.PruningKeepsOrder` | apps/agent/src/data_plane.rs:928-941 | pruning keeps exactly the unexpired candidates, in strictly decreasing priority |
| `Candidates.ProbeTargetIsHead` | apps/agent/src/data_plane.rs:1423-1437 | on an ordered list the search returns the head if that is not active, and nothing otherwise |
| `Configuration.ValidateRelays` | apps/agent/src/state.rs:350-380 | accepts exactly the lists whose entries are valid, pairwise different in three ways and ordered, though it compares neighbours only; returns their endpoints |
| `Configuration.ValidateDiscovery` | apps/agent/src/state.rs:339-348 | accepts exactly valid and pairwise different endpoints |
| `Configuration.ClaimCandidates` | apps/agent/src/state.rs:289-300 | accepts exactly valid, distinct candidates that no other node owns, own direct endpoints allowed, and returns all owned endpoints |
| `Configuration.ClaimDirect` | apps/agent/src/state.rs:274-288 | accepts exactly valid, distinct direct endpoints that no other node owns, and returns them |
| `Configuration.FallsStrictly` | apps/agent/src/state.rs:261-264 | comparing neighbours decides the order of the whole list |
| `Configuration.ValidateNodes` | apps/agent/src/state.rs:245-309 | accepts exactly the lists of valid nodes that share no identifier, key, address or endpoint and include the local one |
| `Configuration.ValidateConfiguration` | apps/agent/src/state.rs:214-321 | the header checks and the loops over growing sets decide exactly the quantified specification of a trusted payload |
| `Configuration.AcceptedIsTrustworthy` | apps/agent/src/state.rs:214-380 | what everyone may rely on in an accepted payload: the signed version of the own network, nothing expired when it was made, usable endpoints, and no name or endpoint shared between relays and nodes |
| `Configuration.EndpointRanges` | apps/agent/src/state.rs:382-430 | the tests on leading bits are these address ranges: no multicast, broadcast or unspecified address, scopes exactly on link-local ones, and no loopback for candidates |
| `Directory.IndexCandidates` | apps/agent/src/data_plane.rs:1073-1080 | entering a peer's direct candidates fails exactly on an endpoint already indexed |
| `Directory.BuildPeerDirectory` | apps/agent/src/data_plane.rs:1022-1114 | succeeds exactly when there are at most 1024 peers and no two share an address, identifier or endpoint; the index is then the inverse of ownership |
| `Directory.ValidatedPayloadBuilds` | apps/agent/src/state.rs:245-306 | an accepted payload with normalized endpoints and at most 1024 peers never makes the directory fail |
| `Directory.ValidatedPayloadBuildsIff` | apps/agent/src/data_plane.rs:1022-1114 | for any accepted payload, exactly when the peers are few enough and share no endpoint once normalized |
| `Directory.MappedEndpointsSlipThrough` | apps/agent/src/candidates.rs:323-333 | an accepted payload whose directory cannot be built |
| `EndpointIndex.PeerTable.RebuildEndpointIndex` | apps/agent/src/data_plane.rs:945-974 | succeeds exactly when no two peers share a node or an owned endpoint; the index is then the inverse of ownership, and a failure leaves the old one |
| `EndpointIndex.BuiltIsRebuilt` | apps/agent/src/data_plane.rs:945-974 | the index of a new directory is the map that a rebuild computes |
| `EndpointIndex.BuiltIsRebuildable` | apps/agent/src/data_plane.rs:945-974 | a new directory can be rebuilt |
| `EndpointIndex.PeerTable.Receive` | apps/agent/src/data_plane.rs:719-778 | which authenticated datagrams move their peer, and that exactly a direct source unknown to the index where the peer now is calls for a rebuild |
| `EndpointIndex.PeerTable.ReceiveAnswer` | apps/agent/src/data_plane.rs:1725-1752 | the answer to a promoting probe moves its peer and leaves the index as it is |
| `EndpointIndex.ReceivedMoves` | apps/agent/src/data_plane.rs:719-742 | an authenticated datagram moves its peer to the source unless a probe awaits the answer from there, a handshake message in any case; when a peer that stays drops its probe |
| `EndpointIndex.AnswerMoves` | apps/agent/src/data_plane.rs:1725-1752 | an answer ends exactly the probe of its source and moves the peer exactly if the probe was for another path |
| `EndpointIndex.PeerTable.FailRelayPath` | apps/agent/src/data_plane.rs:1328-1361 | exactly the peers on the failed relay move to their next candidate and drop their probe |
| `EndpointIndex.PeerTable.PruneExpired` | apps/agent/src/data_plane.rs:928-943 | every peer loses its expired candidates and keeps its probe; the rebuild succeeds exactly when owned endpoints are disjoint |
| `EndpointIndex.PeerTable.ApplyConfiguration` | apps/agent/src/data_plane.rs:470-525 | applied exactly when the relays can be used, the directory can be built and, after carrying over and rerouting off every relay that lost its lease, nobody trespasses; what a failure at each stage leaves behind |
| `EndpointIndex.RoamingRebuildsIff` | apps/agent/src/data_plane.rs:736-778 | with every owned endpoint indexed to its owner or forgotten, a rebuild after a roam fails exactly when another peer is in use at the source |
| `EndpointIndex.PruningKeepsRebuildable` | apps/agent/src/data_plane.rs:928-943 | the expiry of candidates never makes a rebuild fail |
| `EndpointIndex.RebuildFailsIffTrespass` | apps/agent/src/data_plane.rs:475-525 | with disjoint candidates a rebuild fails exactly when the endpoint one peer uses belongs to another |
| `EndpointIndex.ConfigurationFailsIffTrespass` | apps/agent/src/data_plane.rs:475-525 | given a directory that could be built, the rebuild on the table carried over and rerouted off all failed relays fails exactly on a trespass |
| `TableRuns.React` | apps/agent/src/data_plane.rs:677-974 | the methods of the table compute the reaction of the run theorems to each event |
| `TableRuns.QuietStepsMean` | apps/agent/src/data_plane.rs:1213-1251 | a dropped probe is gone and nothing else; a switch of path goes to a candidate and takes the probe with it |
| `TableRuns.HandlersAreTableSteps` | apps/agent/src/data_plane.rs:835-943 | every handler of a peer changes candidates and path as a step of the table does, or switches to one of its candidates |
| `TableRuns.ReactionKeeps` | apps/agent/src/data_plane.rs:677-974 | at every event the rebuild fails exactly on a collision; otherwise every owned endpoint leads to its owner or is a forgotten one of its own, and nobody strays exactly unless a probe answer from a forgotten endpoint leads there |
| `TableRuns.LiveTable` | apps/agent/src/data_plane.rs:677-974 | over any events from a table in which nobody strays, a rebuild fails only after such an answer, and then only at a datagram if the probes at the start were for candidates |
| `TableRuns.RebuiltIsTidy` | apps/agent/src/data_plane.rs:945-974 | a table just rebuilt or configured is such a table |
| `TableRuns.Life` | apps/agent/src/data_plane.rs:470-974 | over any number of configurations, with any events between: a failure between two of them follows a probe answer that led astray since the last |
| `Incidents.ApplyAccepted` | apps/agent/src/data_plane.rs:470-525 | a configuration the validator accepts is applied exactly when no relay has expired, no two relays or peers share a normalized endpoint, the peers are few enough and nobody trespasses |
| `Incidents.MappedRelaysSlipThrough` | apps/agent/src/relay.rs:371-405 | an accepted payload whose relays the manager refuses |
| `Incidents.RoamedEndpointIsListedElsewhere` | apps/agent/src/data_plane.rs:475-525 | two accepted configurations and one roam between them that end in a failing rebuild |
| `Incidents.RemovedRelay` | apps/agent/src/data_plane.rs:522-525 | a configuration that removes the relay two established peers use is applied exactly if the relay still has its lease |
| `Incidents.LostLeaseEndsTheRun` | apps/agent/src/relay.rs:178-211 | a lease granted, dropped unreported by a forward, and the relay removed: the rebuild fails |
| `Incidents.StrayAnswerEndsTheRun` | apps/agent/src/data_plane.rs:1725-1752 | a roam, a probe, an expiry, the answer and a datagram of another peer: the rebuild fails |
| `Telemetry.DataPlane.SynchronizeStatus` | apps/agent/src/data_plane.rs:976-988 | for any order of peers the totals are the exact sums, saturated |
| `Telemetry.DataPlane.TakeOver` | apps/agent/src/data_plane.rs:477-517 | the desired addresses leave the old table, kept peers with their counters, and exactly the displaced ones are retired |
| `Telemetry.DataPlane.RetireRest` | apps/agent/src/data_plane.rs:518-520 | retires exactly the peers left over |
| `Telemetry.DataPlane.ApplyConfiguration` | apps/agent/src/data_plane.rs:475-521 | for any order of peers, the table holds the kept and the new peers and the retired totals have grown by exactly the dropped ones |
| `Telemetry.TotalsAreConserved` | apps/agent/src/data_plane.rs:475-520 | a configuration leaves every reported total unchanged, saturated or not |
| `Telemetry.HandleKeepsSound` | apps/agent/src/data_plane.rs:636-767 | every handler, delivery and probe answer keeps a peer's counters in range and plausible and lowers none; that a latency stays below the controller's bound follows from the passes that give probes up |
| `TrafficSteps.TrafficIsCounted` | apps/agent/src/data_plane.rs:627-767 | one event moves each counter by exactly what was sealed or queued, received, or measured |
| `TrafficSteps.CountersAreTotals` | apps/agent/src/data_plane.rs:627-767 | after any life of a peer its counters are the exact totals of what happened to it, saturated at 64 bits |
| `TrafficSteps.ProbeMoves` | apps/agent/src/data_plane.rs:1363-1379 | a pending probe is sent again at the first pass 300 ms after the last sending, and given up after the fourth or without a session |
| `TrafficSteps.UnansweredProbeIsSentFourTimes` | apps/agent/src/data_plane.rs:1363-1421 | in any life of a peer a pending probe was sent at most four times, and one given up in a live session exactly four times |
| `TrafficSteps.ConfigurationIsExact` | apps/agent/src/data_plane.rs:475-520 | a configuration drops the probe exactly if a route changes, ends the session exactly if the policy does, and counts nothing |
| `TrafficSteps.PathIsExact` | apps/agent/src/data_plane.rs:1000-1008 | a session is shown as relayed exactly if the first candidate at its endpoint is a relay's |
| `Telemetry.EveryRunIsLegal` | apps/agent/src/data_plane.rs:475-520 | in every run from the start, through all handlers and configurations, successes are among attempts and every counter is in range, retired totals included |
| `Telemetry.EveryRunIsMonotone` | apps/agent/src/data_plane.rs:976-988 | in every run no reported total falls |
| `Telemetry.ValidateReport` | apps/controller/src/telemetry.rs:195-286 | the loop with checked sums accepts exactly the admissible reports |
| `Telemetry.AdmissibleIff` | apps/controller/src/telemetry.rs:195-286 | what admissible comes to: the node's own recent report of this boot, totals within 63 bits that cover the entries, every entry consistent in itself; no bound saturates |
| `Telemetry.ReportIsAdmitted` | apps/agent/src/control.rs:388-459 | the report of a legal agent, over distinct nodes and addresses, is admitted exactly when every total fits a signed 64-bit integer |
| `Telemetry.EveryReportIsAdmitted` | apps/agent/src/control.rs:388-459 | the same at every point of every run, with nothing assumed of the agent |
| `Reports.EntriesShowTallies` | apps/agent/src/control.rs:388-440 | the entries are for the remote nodes in order, each with the counters the data plane holds at its address, or zeros |
| `Reports.ReportFailsIff` | apps/agent/src/control.rs:408-421 | a report cannot be built exactly when a listed node's session runs over a relay that is not listed |
| `Reports.EntryShowsState` | apps/agent/src/control.rs:408-421 | an entry shows how the session of its node runs and what was counted, and nothing for an address without a peer |
| `Reports.ReportIsBuiltIff` | apps/agent/src/control.rs:408-421 | a report is built unless an entry fails, more than 1024 other nodes are listed or its sequence would overflow, and then carries the next sequence |
| `Reports.MonotonicIffTalliesGrow` | apps/controller/src/telemetry.rs:315-340 | any two reports pass the check on totals per peer exactly when no node in both lists shows less at its new address |
| `Reports.MonotonicIffOthersCaughtUp` | apps/agent/src/control.rs:233-245 | two reports of a run, with any node lists over the tables of their times, pass exactly when every node not counted on at one address shows at least as much; the others pass by themselves |
| `Reports.InStepUntilReconfigured` | apps/agent/src/data_plane.rs:475-520 | a configuration puts the table in step with its nodes until the next one is applied |
| `Reports.MonotonicIffCaughtUp` | apps/controller/src/telemetry.rs:315-340 | two reports in step, with any traffic and configurations between, pass exactly when every node counted anew in between has reached its old totals |
| `Reports.MovedNodeIsRefused` | apps/controller/src/telemetry.rs:315-340 | a run with one move whose report, in step, is refused |
| `Reports.ReportAheadIsRefused` | apps/agent/src/control.rs:233-245 | the report sent with the new node list over the old table is refused although nothing was counted anew |
| `Reports.SwappedNodesPassIffEqual` | apps/agent/src/control.rs:233-245 | two nodes that swap addresses pass such a report exactly when their totals are equal |
| `Relay.MaintainMeansHealthy` | apps/agent/src/relay.rs:306-368 | a pass reports a loss exactly when the lease is gone, a surviving lease is live, and a client that needs one, or whose lease is in its last half minute, is registering or backing off |
| `Relay.RelayManager.MaintainAll` | apps/agent/src/relay.rs:306-368 | on success the failed endpoints are exactly those that lost their lease, each once, every client's frames go to its endpoint, and every client is healthy; it fails exactly if some client's turn is cut short |
| `Relay.RelayManager.ApplyConfiguration` | apps/agent/src/relay.rs:120-148 | returns exactly the endpoints that had a lease and have none, each once, and keeps the state of unchanged relays |
| `Relay.RelayClients` | apps/agent/src/relay.rs:371-405 | succeeds exactly for at most sixteen usable, unexpired relays with distinct identifiers and normalized endpoints, and makes each a client without a lease |
| `Relay.ValidatedRelaysBuildIff` | apps/agent/src/relay.rs:371-405 | for an accepted payload only expiry since and endpoints equal once normalized are left to fail |
| `Relay.RelayManager.ListCandidates` | apps/agent/src/relay.rs:151-171 | the candidates are those of all clients, each listed once, whatever the order of the table |
| `Relay.PassFrames` | apps/agent/src/relay.rs:342-362 | a pass sends under a lease nothing or the keepalive with its next sequence |
| `Relay.SequencesIncrease` | apps/agent/src/relay.rs:178-211 | in every run the sequences of all data frames and keepalives of one lease strictly increase, and are exactly 0, 1, 2 and so on as long as no prepared frame was lost |
| `Relay.UnreportedLoss` | apps/agent/src/relay.rs:178-211 | exactly when a lease is lost without a report |
| `Relay.UnreportedLossHappens` | apps/agent/src/relay.rs:178-211 | a lease that expires before a forward |
| `RelaySteps.PassSends` | apps/agent/src/relay.rs:306-368 | a pass sends exactly the registration under way after half a second, up to six times, or a new one when none is under way, its time has come and there is no lease or at most 30 s of it are left; and a keepalive exactly after 15 s |
| `RelaySteps.PassAborts` | apps/agent/src/relay.rs:327-362 | a pass is cut short exactly when it must register without a random identifier or has no sequence for its keepalive |
| `RelaySteps.PassLeaves` | apps/agent/src/relay.rs:306-451 | what a pass leaves of lease, registration, failures and backoff |
| `RelaySteps.LeaseIsRenewed` | apps/agent/src/relay.rs:434-439 | after a pass that is not cut short a lease in its last 30 s is being renewed or backing off |
| `RelaySteps.NewRelayRegisters` | apps/agent/src/relay.rs:327-339 | a relay that is new registers in the first pass |
| `RelaySteps.RegistrationIsSentSixTimes` | apps/agent/src/relay.rs:410-432 | over any passes without an answer a registration given up was sent exactly six times |
| `RelaySteps.GrantedLeaseIsRenewed` | apps/agent/src/relay.rs:213-253 | a granted lease starts its sequences anew and is renewed exactly in its last half minute |
| `RelaySteps.ResponseCountsOnce` | apps/agent/src/relay.rs:213-253 | a repeated or foreign response changes nothing |
| `RelaySteps.ActivityPostponesLoss` | apps/agent/src/relay.rs:296-304 | authenticated activity postpones the loss of a lease by 45 s and moves nothing else |
| `RelaySteps.ForwardSends` | apps/agent/src/relay.rs:178-211 | a datagram goes out exactly under a lease that is still good, with its next sequence |
| `RelaySteps.ConfigurationCarries` | apps/agent/src/relay.rs:125-139 | lease, registration and backoff are carried exactly by the same relay under the same key |
| `RelaySteps.RecordIsExact` | apps/agent/src/relay.rs:178-362 | the record of a lease gains exactly the frames that left, and counts those that did not |
| `Gateway.TunNetwork.ReconcileGatewayRoutes` | apps/agent/src/network.rs:422-497 | every intermediate world is recoverable; a new request that succeeds is in force, and a repeated one exactly if it had been carried out, or its table is there and the other recorded interfaces were on from the start; a refused request touches nothing, a new one is carried out unless an interface is missing or an effect fails, and a failure names its stage |
| `Gateway.TunNetwork.RecordInterfaces` | apps/agent/src/network.rs:446-459 | on success every wanted interface has a truthful record, old records are kept and no others are added |
| `Gateway.TunNetwork.PersistManifest` | apps/agent/src/network.rs:402-420 | on success the disk holds the manifest of the fields in memory; a failure leaves everything recoverable |
| `Gateway.TunNetwork.SwitchAllOff` | apps/agent/src/network.rs:472-474 | on success no recorded interface forwards; at any point everything is recoverable |
| `Gateway.TunNetwork.SwitchOn` | apps/agent/src/network.rs:484-486 | on success every wanted interface forwards; at any point everything is recoverable |
| `Gateway.TunNetwork.ReplaceNatTable` | apps/agent/src/gateway.rs:230-258 | called only while nothing is forwarded; on success the table holds exactly the wanted rules or is gone, and every step on the way is recoverable |
| `Gateway.TunNetwork.RestoreOthers` | apps/agent/src/gateway.rs:217-228 | on success the switches no longer wanted have their original values |
| `Gateway.RecoverStale` | apps/agent/src/network.rs:308-330 | beside a live link or with a foreign plan it refuses and touches nothing, and without a manifest it succeeds and touches nothing; otherwise it succeeds exactly if no effect fails, and then leaves all originals, no table and no manifest; a failure leaves the world recoverable |
| `Gateway.CleanupManifestGateway` | apps/agent/src/network.rs:719-744 | tries every effect whatever fails, and succeeds exactly if none does: every recorded switch is restored, and the table deleted while nothing forwards |
| `Gateway.LiveCrashRecover` | apps/agent/src/network.rs:308-497 | any requests, a crash after any primitive effect, then any number of recoveries that may fail half-way: after a success the host is as before the agent, and an attempt that sees the link gone and its own plan succeeds if no effect fails |
| `Gateway.RetryAfterFailedRecording` | apps/agent/src/network.rs:422-460 | a repeated request succeeds although its table was never created |
| `Gateway.RetryAfterFailedSwitchOff` | apps/agent/src/network.rs:422-474 | the same after a failure to turn the first switch off |
| `Gateway.WantedInterfaces` | apps/agent/src/network.rs:437-445 | a request's switches are its own interface and those of its routes, and none if it is empty |
| `Gateway.RulesInOrder` | apps/agent/src/gateway.rs:236-254 | the rules of a table are the masqueraded routes, in order |
| `GatewayAdmission.ValidateGatewayRoutes` | apps/agent/src/gateway.rs:111-193 | admits exactly routes over existing interfaces other than the project's whose prefixes the kernel's main table holds as connected networks of those interfaces, in a table without malformed entries; counting the routes found decides it |
| `SubnetRoutes.OverlapIffSharedAddress` | apps/agent/src/network.rs:697-699 | the test holds exactly when the blocks share an address |
| `SubnetRoutes.ContainsIsInBlock` | apps/agent/src/network.rs:697-699 | the range test of a prefix is agreement in its leading bits |
| `SubnetRoutes.EnsureSubnetRoutesAvailable` | apps/agent/src/network.rs:641-683 | accepts exactly when no wanted route shares an address with a foreign route other than a default one |
| `SubnetRoutes.Reconciler.ReconcileSubnetRoutes` | apps/agent/src/network.rs:348-400 | succeeds exactly if every addition is free of foreign routes, none clashes, the kernel fails no call and the manifest is written; tracked and kernel sets then follow the request exactly; each other outcome has its cause, and a conflict or a rolled-back addition changes nothing |
| `SubnetRoutes.Reconciler.AddAll` | apps/agent/src/network.rs:372-383 | adds all routes, or says whether the rollback restored the kernel |
| `SubnetRoutes.Reconciler.Rollback` | apps/agent/src/network.rs:376-379 | leaves nothing but the base and added routes, and exactly the base if every deletion succeeded |
| `SubnetRoutes.Reconciler.RemoveAll` | apps/agent/src/network.rs:388-398 | on success exactly the given routes are gone from both sets; a route that stays in the kernel stays tracked |
| `Netlink.AttributeBuffer.Push` | apps/agent/src/gateway.rs:605-616 | appends one padded attribute and stays aligned |
| `Netlink.AttributeBuffer.PushNested` | apps/agent/src/gateway.rs:601-603 | the same with the nesting bit set |
| `Netlink.AttributesRoundTrip` | apps/agent/src/gateway.rs:580-616 | attribute lists nested to any depth read back unchanged exactly when every attribute fits its length field |
| `Netlink.GatewayRequestsReadBack` | apps/agent/src/gateway.rs:299-380 | every request the gateway builds, for interface names of at most 15 bytes, reads back unchanged |
| `Netlink.ReadIsAligned` | apps/agent/src/gateway.rs:601-616 | only whole words read as an attribute list |
| `Netlink.BatchWalks` | apps/agent/src/gateway.rs:382-473 | a request walks into exactly its three messages |
| `Netlink.JoinWalks` | apps/agent/src/gateway.rs:454-473 | frames laid end to end walk back one by one |
| `Netlink.MessageReads` | apps/agent/src/gateway.rs:420-473 | an encoded message is one whole frame with its type, sequence and body |
| `Netlink.HeaderReadsBack` | apps/agent/src/gateway.rs:454-473 | length, flags, family and subsystem read back from an encoded message |
| `Netlink.BatchIsOneTransaction` | apps/agent/src/gateway.rs:420-452 | the two brackets name the subsystem of the request, and only the request bears its sequence number |
| `Netlink.ParseAck` | apps/agent/src/gateway.rs:475-516 | terminates in bounds with the verdict of the first matching frame of the stream |
| `Netlink.NotFoundIsUnambiguous` | apps/agent/src/gateway.rs:475-524 | the sentinel is returned exactly when a well-formed stream has no answer |
| `Netlink.AcknowledgementReadsBack` | apps/agent/src/gateway.rs:475-516 | an acknowledgement that the kernel writes is understood wherever it stands among other messages: zero is success, any other status is reported negated |
| `Netlink.BareErrorIsMalformed` | apps/agent/src/gateway.rs:500-504 | an error message without a status is an error, whatever stands before it |
| `Netlink.AwaitAck` | apps/agent/src/gateway.rs:382-418 | succeeds exactly when the first answer among four datagrams, with no receive error before it, is a success or a tolerated absence |
| `Netlink.FirstAcknowledgementDecides` | apps/agent/src/gateway.rs:398-417 | after datagrams of other messages the first acknowledgement decides: success exactly for status zero, or for a missing object where that is tolerated |
| `Netlink.NoAcknowledgementFails` | apps/agent/src/gateway.rs:398-417 | without an acknowledgement in four datagrams, or after an error while receiving, the request fails |
| `NatRule.MasqueradesExactly` | apps/agent/src/gateway.rs:326-374 | the bytes of a rule request, read by the kernel's evaluation of its expressions, masquerade exactly the packets that come in over the project's interface, go out over the route's and are addressed into its prefix |
| `NatRule.RequestsAgree` | apps/agent/src/gateway.rs:299-380 | rule, chain and table requests name the same table and chain, a NAT chain after routing |
| `XsnetCodec.EncodePacketBatch` | apps/agent/src/windows_xsnet.rs:671-712 | fills the buffer with the batch format, or refuses exactly the batches it cannot carry |
| `XsnetCodec.DecodePacketBatch` | apps/agent/src/windows_xsnet.rs:740-785 | the loop computes the decoding function |
| `XsnetCodec.BatchBijection` | apps/agent/src/windows_xsnet.rs:671-785 | a payload decodes to a batch exactly when the batch is valid and the payload is its encoding |
| `XsnetCodec.ResponseBijection` | apps/agent/src/windows_xsnet.rs:651-785 | the same for whole responses: decoding undoes encoding, and every accepted response is byte for byte an encoding |
| `XsnetCodec.BatchFitsCapacity` | apps/agent/src/windows_xsnet.rs:622-634 | valid limits have a capacity, and every batch within them fits it |
| `XsnetCodec.Ipv4IffBuilt` | apps/agent/src/windows_xsnet.rs:787-804 | the check passes exactly the packets built with 5 to 15 words of header and their own length, within the limits |
| `XsnetClient.Client.PrepareAttach` | apps/agent/src/windows_xsnet.rs:348-367 | succeeds exactly in the negotiated state with valid limits and a free sequence; header, limits and capability read back from the request |
| `XsnetClient.Client.PrepareHello` | apps/agent/src/windows_xsnet.rs:328-346 | succeeds exactly on an idle, newly opened handle; header, versions and capability read back |
| `XsnetClient.Client.PrepareSetLink` | apps/agent/src/windows_xsnet.rs:369-389 | succeeds exactly on an idle, attached handle and leads to the wanted link state; the header reads back, and the payload is 1 for up and 0 for down |
| `XsnetClient.Client.PrepareTransmit` | apps/agent/src/windows_xsnet.rs:391-411 | succeeds exactly on an idle handle with the link up and a capacity in range; an empty message with that capacity |
| `XsnetClient.Client.PrepareDetach` | apps/agent/src/windows_xsnet.rs:433-445 | succeeds exactly on an idle handle that is negotiated or attached; an empty message |
| `XsnetClient.Client.PrepareReceive` | apps/agent/src/windows_xsnet.rs:413-431 | succeeds exactly with the link up and a batch within the limits in force |
| `XsnetClient.Client.CompleteSuccess` | apps/agent/src/windows_xsnet.rs:447-494 | commits exactly a well-formed answer to the pending request; the overflow error after clearing it cannot occur |
| `XsnetClient.AnswersAreExact` | apps/agent/src/windows_xsnet.rs:447-470 | the answer to a transmit request is the message of a valid batch within the session's limits, to any other it is empty |
| `XsnetClient.Client.CompleteRejected` | apps/agent/src/windows_xsnet.rs:496-505 | clears the pending request and keeps state, sequence and limits |
| `XsnetClient.Client.CompleteIndeterminate` | apps/agent/src/windows_xsnet.rs:507-517 | clears the pending request and gives the handle up |
| `XsnetClient.Client.ExecutePrepared` | apps/agent/src/windows_xsnet.rs:519-544 | for any outcome the log gains one exchange of the right class, the sequence grows by one only on a commit, and an unknown or malformed outcome ends the handle |
| `XsnetClient.CommittedSequencesIncrease` | apps/agent/src/windows_xsnet.rs:447-544 | over any history sequences never decrease and committed ones are pairwise different |
| `XsnetClient.AttachLimitsReadBack` | apps/agent/src/windows_xsnet.rs:447-494 | the limits of an attach request are read back from its message |
| `XsnetClient.StartSession` | apps/agent/src/windows_xsnet.rs:176-198 | starts exactly when limits are valid and all three answers are empty successes, then with the link up, those limits in force and sequences 1, 2 and 3 committed; nothing is tried after the first failure |
| `XsnetClient.Client.Shutdown` | apps/agent/src/windows_xsnet.rs:227-247 | lowers the link if it is up and detaches, one request each; stops at the first failure and ends without limits on success |
| `XsnetClient.MessageReads` | apps/agent/src/windows_xsnet.rs:651-669 | every field of the header and the payload read back from an encoded message |
| `XsnetClient.IoctlTellsKind` | apps/agent/src/windows_xsnet.rs:636-649 | the control code tells the kind of message and how its buffers travel |
| `RateLimiter.Limiter.Allow` | apps/controller/src/discovery.rs:38-65 | one call is one step of the table: only the asking source's budget moves, and only the oldest source is dropped to make room |
| `RateLimiter.AdmitKeepsListed` | apps/controller/src/discovery.rs:38-65 | in every run the queue lists the tracked sources once each, at most 1024 |
| `RateLimiter.BudgetIsOwn` | apps/controller/src/discovery.rs:38-65 | in every run the budget of a tracked source is that of its own requests alone, whatever other sources did |
| `RateLimiter.TrackedSummarizes` | apps/controller/src/discovery.rs:38-65 | the budget of a tracked source is a true summary of its admissions |
| `RateLimiter.AnyMinuteIsBounded` | apps/controller/src/discovery.rs:38-65 | for every sequence of calls by any sources: while a source stays tracked no half-open minute admits more than 59 of its requests |
| `RateLimiter.MinuteOverrunsIff` | apps/controller/src/discovery.rs:38-65 | until it ends, a minute has admitted more than 30 exactly when a further window opened in it and the requests before it and of the new window add up to more |
| `RateLimiter.OneWindowStaysWithinBudget` | apps/controller/src/discovery.rs:38-65 | over any run, a minute in which no window opens after its first admission admits at most 30 |
| `RateLimiter.BoundIsReached` | apps/controller/src/discovery.rs:38-65 | a run of the limiter admits 59 |
| `LicenseParser.Parser.ParseAll` | scripts/generate-source-sbom.py:88-92 | the parser object computes the specification and consumes all tokens |
| `LicenseParser.Parser.ParseOr` | scripts/generate-source-sbom.py:100-105 | the loop computes the disjunction function, with a termination measure for the mutual recursion |
| `LicenseParser.Parser.ParseAnd` | scripts/generate-source-sbom.py:107-112 | the same for a conjunction |
| `LicenseParser.Parser.ParsePrimary` | scripts/generate-source-sbom.py:114-133 | the same for a primary, every error case included |
| `LicenseParser.ParserDecidesGrammar` | scripts/generate-source-sbom.py:88-133 | a token list parses to a verdict exactly when it is the writing of an expression tree of that value, WITH over AND over OR |
| `LicenseParser.EveryExpressionEvaluates` | scripts/generate-source-sbom.py:88-133 | every tree, written with the parentheses it needs, parses to its value |
| `LicenseParser.FewestParentheses` | scripts/generate-source-sbom.py:88-133 | no readable writing of the same structure has fewer |
| `LicenseParser.NamesAreWanted` | scripts/generate-source-sbom.py:114-133 | no expression is empty or begins with an operator or closing parenthesis; a name alone is worth whether it is listed |
| `LicenseParser.TokenizeExpression` | scripts/generate-source-sbom.py:74-86 | the loop computes the tokenizer function, an empty list being an error |
| `LicenseParser.TokenizerRoundTrip` | scripts/generate-source-sbom.py:52-86 | spaced tokens are read back exactly when no identifier begins with an operator's letters |
| `LicenseParser.TornIdentifier` | scripts/generate-source-sbom.py:52-52 | an identifier that is torn apart |

## Left out

- Sockets, TUN devices, the control channel, file permissions, updates, enrolment, the console and the command line: no logic beyond calls and single checks.
- Cryptography, base64, JSON and signatures: values are taken as decoded and verified.
- Policy evaluation (access rules and subnet-route policy; that a policy compiles is an input) and the rollback and equivocation checks on configuration versions: they would only add easy members.
- The tokens of path probes, path reasons, and the status shown to users: of the probes, their targets, retries and latencies are modelled. Where a path reason decides (a datagram that keeps a fallback path), it is an input.
- The kernel is modelled by what nf_tables and Netlink document: evaluation of the five expressions the gateway uses, acknowledgements, and refusal of a route it has.
- The bytes of handshake and relay messages: of the former, that one is sent and how often; of the latter, kind, identifier and sequence.
- Peer handlers are functions on values where the original borrows the peer mutably; the loops over a peer's queue and cache, and over all peers, are modelled in place.
- The order of the records in the manifest, which the code sorts by name.
- Shutdown, which removes the manifest even if its cleanup failed: no claim is made for it.
- The textual replacement of the two slashed licence aliases before tokenizing.
- SubnetRoutes.OverlapIffSharedAddress: prefixes keep their host bits, because the code compares texts and does not clear them, although the documentation speaks of canonical prefixes.
- Telemetry.ReportIsAdmitted: schema number, signature and database state are not part of it.
- Telemetry.HandleKeepsSound: that a maintenance pass was made within the last ten minutes when an answer comes in is a premise about the machine; the agent makes ten a second.
- TableRuns.Life: the relay clients at each configuration are an input, since the relay manager's own steps are modelled apart; that a configuration is refused is characterised by EndpointIndex.PeerTable.ApplyConfiguration.
- Reports.MonotonicIffOthersCaughtUp: the status that the data plane publishes is its table at some point of the run; when it publishes is not part of the model.
- RateLimiter.AnyMinuteIsBounded: a source that was dropped to make room and comes back starts anew; the bound is for the time it stays tracked.
- The SQL of the controller, and the Windows driver itself, which is an arbitrary oracle of outcomes.
