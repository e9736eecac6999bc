/**
 The life of one peer in the data plane: handshake states with bounded retries over
 a list of candidates, backoff between cycles, the queue of packets waiting for a
 session, and the maintenance pass that starts handshakes under a global limit.

 Outcomes of cryptography and of the random generator are parameters.
 */
module Peers {
  import opened Prelude
  import opened Candidates

  const MAX_QUEUED_PACKETS_PER_PEER: nat := 32
  const MAX_QUEUED_BYTES_PER_PEER: nat := 65_536
  const MAX_RECENT_CLIENT_HELLOS: nat := 64
  const CLIENT_HELLO_CACHE_LIFETIME: nat := 300_000
  const HANDSHAKE_RETRY_INTERVAL: nat := 300
  const HANDSHAKE_MAX_ATTEMPTS: nat := 6
  const MAX_CONCURRENT_PROACTIVE_HANDSHAKES: nat := 32
  const MAX_PROACTIVE_HANDSHAKES_PER_TICK: nat := 8
  const HANDSHAKE_BACKOFF_BASE: nat := 1_000
  const HANDSHAKE_BACKOFF_MAX: nat := 60_000

  datatype Retry = Retry(lastSent: nat, attempts: nat)

  datatype PeerState =
    | Idle
    | ClientHello(retry: Retry)
    | ClientFinish(retry: Retry)
    | ServerHello(requestHash: nat, retry: Retry)
    | Established

  datatype Packet = Packet(id: nat, length: nat)

  datatype Hello = Hello(hash: nat, seen: nat)

  datatype Peer = Peer(
    candidates: seq<Candidate>,
    active: Option<Endpoint>,
    state: PeerState,
    queue: seq<Packet>,
    queuedBytes: nat,
    recent: seq<Hello>,
    nextProactiveAt: nat,
    failures: nat,
    candidateAttempts: nat,
    attemptsTotal: nat,
    successesTotal: nat)

  // ----- the peer's functions -----

  function ClearQueue(p: Peer): Peer {
    p.(queue := [], queuedBytes := 0, state := Idle)
  }

  function QueuePacket(p: Peer, packet: Packet): Option<Peer> {
    if |p.queue| >= MAX_QUEUED_PACKETS_PER_PEER || p.queuedBytes + packet.length > MAX_QUEUED_BYTES_PER_PEER then None
    else Some(p.(queue := p.queue + [packet], queuedBytes := p.queuedBytes + packet.length))
  }

  /** `None` is an error to the caller: no endpoint, a spent candidate budget, or failing randomness. */
  function BeginClientHandshake(p: Peer, now: nat, works: bool): Option<Peer> {
    if p.active.None? || p.candidateAttempts >= MAX_HANDSHAKE_CANDIDATES_PER_CYCLE || !works then None
    else Some(p.(attemptsTotal := SaturatingAdd(p.attemptsTotal, 1, U64_MAX),
                 state := ClientHello(Retry(now, 1)),
                 candidateAttempts := p.candidateAttempts + 1))
  }

  /** The endpoint after the active one; after an unknown one, the first. */
  function NextCandidate(p: Peer): nat {
    if p.active.None? then 0
    else
      var at := Position(p.candidates, p.active.value);
      if at.None? then 0 else at.value + 1
  }

  function AdvanceCandidate(p: Peer): Option<Peer> {
    if p.candidateAttempts >= MAX_HANDSHAKE_CANDIDATES_PER_CYCLE || NextCandidate(p) >= |p.candidates| then None
    else Some(p.(active := Some(p.candidates[NextCandidate(p)].endpoint), state := Idle))
  }

  function FirstEndpoint(p: Peer): Option<Endpoint> {
    if p.candidates == [] then None else Some(p.candidates[0].endpoint)
  }

  function BackoffDelay(failures: nat): (d: nat)
    ensures HANDSHAKE_BACKOFF_BASE <= d <= HANDSHAKE_BACKOFF_MAX
  {
    Backoff(failures, HANDSHAKE_BACKOFF_BASE, HANDSHAKE_BACKOFF_MAX)
  }

  function ScheduleRetry(p: Peer, now: nat): Peer {
    var failures := SaturatingAdd(p.failures, 1, 255);
    ClearQueue(p).(candidateAttempts := 0, failures := failures, nextProactiveAt := now + BackoffDelay(failures),
                   active := FirstEndpoint(p))
  }

  datatype RetryAction = Wait | Send | Expired

  function Poll(r: Retry, now: nat): (Retry, RetryAction) {
    if Since(now, r.lastSent) < HANDSHAKE_RETRY_INTERVAL then (r, Wait)
    else if r.attempts >= HANDSHAKE_MAX_ATTEMPTS then (r, Expired)
    else (Retry(now, r.attempts + 1), Send)
  }

  function WithRetry(s: PeerState, r: Retry): PeerState
    requires s.ClientHello? || s.ClientFinish? || s.ServerHello?
  {
    match s
    case ClientHello(_) => ClientHello(r)
    case ClientFinish(_) => ClientFinish(r)
    case ServerHello(h, _) => ServerHello(h, r)
  }

  /** An expired server side just falls back to idle; an expired client side is for the caller to handle. */
  function PollPeer(p: Peer, now: nat): (Peer, RetryAction) {
    if p.state.Idle? || p.state.Established? then (p, Wait)
    else
      var (r, action) := Poll(p.state.retry, now);
      if action.Expired? then (p.(state := Idle), if p.state.ServerHello? then Wait else Expired)
      else (p.(state := WithRetry(p.state, r)), action)
  }

  function PruneHellos(recent: seq<Hello>, now: nat): (r: seq<Hello>)
    ensures |r| <= |recent|
  {
    if recent != [] && Since(now, recent[0].seen) >= CLIENT_HELLO_CACHE_LIFETIME then PruneHellos(recent[1..], now) else recent
  }

  function RememberHello(recent: seq<Hello>, hash: nat, now: nat): seq<Hello> {
    (if |recent| >= MAX_RECENT_CLIENT_HELLOS then recent[1..] else recent) + [Hello(hash, now)]
  }

  predicate Knows(recent: seq<Hello>, hash: nat) {
    exists i :: 0 <= i < |recent| && recent[i].hash == hash
  }

  predicate InFlight(p: Peer) {
    p.state.ClientHello? || p.state.ClientFinish?
  }

  /** A peer's hello. `localIsLower`: the local node has the lower identity; `accepted`: the message verifies. */
  function HandleClientHello(p0: Peer, hash: nat, now: nat, localIsLower: bool, accepted: bool): Peer {
    if p0.state.ServerHello? && p0.state.requestHash == hash then p0
    else
      var p := p0.(recent := PruneHellos(p0.recent, now));
      if Knows(p.recent, hash) || (InFlight(p) && localIsLower) || !accepted then p
      else p.(attemptsTotal := SaturatingAdd(p.attemptsTotal, 1, U64_MAX),
              recent := RememberHello(p.recent, hash, now),
              state := ServerHello(hash, Retry(now, 1)))
  }

  /** A rejected server hello drops the queue; a failing clock leaves the peer idle with it. */
  function HandleServerHello(p: Peer, now: nat, clockWorks: bool, accepted: bool): Peer {
    if !p.state.ClientHello? then p
    else if !clockWorks then p.(state := Idle)
    else if !accepted then ClearQueue(p)
    else p.(state := ClientFinish(Retry(now, 1)))
  }

  /** Drains the queue into a new session; `derives`: the session keys could be derived. */
  function InstallSession(p: Peer, now: nat, derives: bool): Peer {
    if !derives then ClearQueue(p)
    else p.(queue := [], queuedBytes := 0, failures := 0, candidateAttempts := 0,
            successesTotal := SaturatingAdd(p.successesTotal, 1, U64_MAX), nextProactiveAt := now, state := Established)
  }

  function HandleClientFinish(p: Peer, now: nat, accepted: bool, derives: bool): Peer {
    if !p.state.ServerHello? then p else if !accepted then ClearQueue(p) else InstallSession(p, now, derives)
  }

  function HandleServerFinish(p: Peer, now: nat, accepted: bool, derives: bool): Peer {
    if !p.state.ClientFinish? then p else if !accepted then ClearQueue(p) else InstallSession(p, now, derives)
  }

  datatype Forwarded = Dropped | Queued | Transmitted | Failed

  /** One packet from the TUN device for this peer. */
  function Forward(p: Peer, packet: Packet, now: nat, works: bool): (Peer, Forwarded) {
    if p.state.Established? then (p, Transmitted)
    else if p.active.None? then (p, Dropped)
    else
      var queued := QueuePacket(p, packet);
      if queued.None? then (p, Dropped)
      else if !p.state.Idle? then (queued.value, Queued)
      else
        var begun := BeginClientHandshake(queued.value, now, works);
        if begun.None? then (queued.value, Failed) else (begun.value, Queued)
  }

  function HasEndpoint(p: Peer, e: Option<Endpoint>): bool {
    e.Some? && Position(p.candidates, e.value).Some?
  }

  /** A new configuration for the same node: candidates replaced, sessions kept unless the policy changed. */
  function Reconfigure(p0: Peer, candidates: seq<Candidate>, now: nat, policyChanged: bool): Peer {
    var p1 := if policyChanged then ClearQueue(p0) else p0;
    var changed := RoutesChanged(p1.candidates, candidates);
    var p2 := p1.(candidates := candidates);
    var p3 := if changed && !p2.state.Established?
              then p2.(state := Idle, candidateAttempts := 0, nextProactiveAt := now, active := FirstEndpoint(p2))
              else p2;
    if !p3.state.Established? && !HasEndpoint(p3, p3.active) then p3.(active := FirstEndpoint(p3)) else p3
  }

  function FailRelay(p: Peer, endpoint: Endpoint, now: nat): Peer {
    if p.active != Some(endpoint) then p
    else
      var p' := p.(active := NextPath(p.candidates, endpoint));
      if p.state.Established? then p' else p'.(state := Idle, candidateAttempts := 0, nextProactiveAt := now)
  }

  function PruneCandidates(p: Peer, wall: nat): Peer {
    var p' := p.(candidates := Unexpired(p.candidates, wall));
    if !p.state.Established? && p.active.Some? && !HasEndpoint(p', p.active) then p'.(active := FirstEndpoint(p')) else p'
  }

  // ----- the peer's share of a maintenance pass -----

  /** `works` is false when randomness fails, or sealing for an established peer. `sends`: a handshake message leaves; `started`, `freed`: how the number in flight moves; `failed`: the pass aborts. */
  datatype Tick = Tick(peer: Peer, sends: bool, started: bool, freed: bool, failed: bool)

  /** The retry part: wait, resend, move to the next candidate, or give the cycle up. */
  function Retransmit(p0: Peer, now: nat, works: bool): Tick {
    var (p, action) := PollPeer(p0.(recent := PruneHellos(p0.recent, now)), now);
    match action
    case Wait => Tick(p, false, false, false, p.state.Established? && !works)
    case Send => Tick(p, p.active.Some?, false, false, false)
    case Expired =>
      var advanced := AdvanceCandidate(p);
      if advanced.None? then Tick(ScheduleRetry(p, now), false, false, true, false)
      else
        var begun := BeginClientHandshake(advanced.value, now, works);
        if begun.None? then Tick(advanced.value, false, false, false, true) else Tick(begun.value, true, false, false, false)
  }

  /** The proactive part; `room`: fewer than the allowed handshakes are in flight and were started. */
  function Proactive(t: Tick, now: nat, room: bool, works: bool): Tick {
    var p := if t.peer.state.Idle? && t.peer.candidateAttempts >= MAX_HANDSHAKE_CANDIDATES_PER_CYCLE
             then ScheduleRetry(t.peer, now) else t.peer;
    if p.state.Idle? && p.active.Some? && now >= p.nextProactiveAt && room then
      var begun := BeginClientHandshake(p, now, works);
      if begun.None? then t.(peer := p, failed := true) else t.(peer := begun.value, sends := true, started := true)
    else t.(peer := p)
  }

  function Maintain(p: Peer, now: nat, room: bool, works: bool): Tick {
    var t := Retransmit(p, now, works);
    if t.failed then t else Proactive(t, now, room, works)
  }

  // ----- what every run of a peer keeps -----

  function TotalBytes(queue: seq<Packet>): nat {
    if queue == [] then 0 else TotalBytes(queue[..|queue| - 1]) + queue[|queue| - 1].length
  }

  predicate Handshaking(s: PeerState) {
    s.ClientHello? || s.ClientFinish? || s.ServerHello?
  }

  predicate Valid(p: Peer) {
    && p.queuedBytes == TotalBytes(p.queue) <= MAX_QUEUED_BYTES_PER_PEER
    && |p.queue| <= MAX_QUEUED_PACKETS_PER_PEER
    && (p.state.Established? ==> p.queue == [])
    && |p.recent| <= MAX_RECENT_CLIENT_HELLOS
    && p.failures <= 255
    && p.candidateAttempts <= MAX_HANDSHAKE_CANDIDATES_PER_CYCLE
    && (Handshaking(p.state) ==> 1 <= p.state.retry.attempts <= HANDSHAKE_MAX_ATTEMPTS)
    // Every success was paid for by an attempt, and a handshake under way is an attempt not yet used.
    && p.successesTotal <= p.attemptsTotal <= U64_MAX
    && (Handshaking(p.state) && p.attemptsTotal < U64_MAX ==> p.successesTotal < p.attemptsTotal)
  }

  datatype Event =
    | Offer(packet: Packet, now: nat, works: bool)
    | ClientHelloIn(hash: nat, now: nat, localIsLower: bool, accepted: bool)
    | ServerHelloIn(now: nat, clockWorks: bool, accepted: bool)
    | ClientFinishIn(now: nat, accepted: bool, derives: bool)
    | ServerFinishIn(now: nat, accepted: bool, derives: bool)
    | Pass(now: nat, room: bool, works: bool)
    | Configured(candidates: seq<Candidate>, now: nat, policyChanged: bool)
    | RelayFailed(endpoint: Endpoint, now: nat)
    | Pruned(wall: nat)
    | Promoted(endpoint: Endpoint)

  function Step(p: Peer, e: Event): Peer {
    match e
    case Offer(packet, now, works) => Forward(p, packet, now, works).0
    case ClientHelloIn(hash, now, localIsLower, accepted) => HandleClientHello(p, hash, now, localIsLower, accepted)
    case ServerHelloIn(now, clockWorks, accepted) => HandleServerHello(p, now, clockWorks, accepted)
    case ClientFinishIn(now, accepted, derives) => HandleClientFinish(p, now, accepted, derives)
    case ServerFinishIn(now, accepted, derives) => HandleServerFinish(p, now, accepted, derives)
    case Pass(now, room, works) => Maintain(p, now, room, works).peer
    case Configured(candidates, now, policyChanged) => Reconfigure(p, candidates, now, policyChanged)
    case RelayFailed(endpoint, now) => FailRelay(p, endpoint, now)
    case Pruned(wall) => PruneCandidates(p, wall)
    case Promoted(endpoint) => p.(active := Some(endpoint))
  }

  function Run(p: Peer, events: seq<Event>): Peer {
    if events == [] then p else Step(Run(p, events[..|events| - 1]), events[|events| - 1])
  }

  function NewPeer(candidates: seq<Candidate>, now: nat): Peer {
    Peer(candidates, if candidates == [] then None else Some(candidates[0].endpoint), Idle, [], 0, [], now, 0, 0, 0, 0)
  }

  /** A new peer with a candidate sends its first hello in the first pass that has room. */
  lemma {:induction false} NewPeerBegins(candidates: seq<Candidate>, now: nat, later: nat)
    requires candidates != [] && later >= now
    ensures var q := Step(NewPeer(candidates, now), Pass(later, true, true));
      && q.state == ClientHello(Retry(later, 1)) && q.active == Some(candidates[0].endpoint)
      && q.attemptsTotal == 1 && q.successesTotal == 0 && q.candidateAttempts == 1 && q.failures == 0
  {
  }

  lemma {:induction false} QueueKeeps(p: Peer, packet: Packet)
    requires Valid(p) && !p.state.Established? && QueuePacket(p, packet).Some?
    ensures Valid(QueuePacket(p, packet).value)
  {
    assert (p.queue + [packet])[..|p.queue|] == p.queue;
  }

  lemma {:induction false} RetransmitKeeps(p: Peer, now: nat, works: bool)
    requires Valid(p)
    ensures Valid(Retransmit(p, now, works).peer)
  {
  }

  lemma {:induction false} ProactiveKeeps(t: Tick, now: nat, room: bool, works: bool)
    requires Valid(t.peer)
    ensures Valid(Proactive(t, now, room, works).peer)
  {
  }

  lemma {:induction false} PassKeeps(p: Peer, now: nat, room: bool, works: bool)
    requires Valid(p)
    ensures Valid(Maintain(p, now, room, works).peer)
  {
    RetransmitKeeps(p, now, works);
    ProactiveKeeps(Retransmit(p, now, works), now, room, works);
  }

  lemma {:induction false} OfferKeeps(p: Peer, packet: Packet, now: nat, works: bool)
    requires Valid(p)
    ensures Valid(Forward(p, packet, now, works).0)
  {
    if !p.state.Established? && QueuePacket(p, packet).Some? { QueueKeeps(p, packet); }
  }

  lemma {:induction false} ClientHelloKeeps(p: Peer, hash: nat, now: nat, localIsLower: bool, accepted: bool)
    requires Valid(p)
    ensures Valid(HandleClientHello(p, hash, now, localIsLower, accepted))
  {
  }

  lemma {:induction false} InstallKeeps(p: Peer, now: nat, derives: bool)
    requires Valid(p) && Handshaking(p.state)
    ensures Valid(InstallSession(p, now, derives))
  {
  }

  lemma {:induction false} ReconfigureKeeps(p: Peer, candidates: seq<Candidate>, now: nat, policyChanged: bool)
    requires Valid(p)
    ensures Valid(Reconfigure(p, candidates, now, policyChanged))
  {
  }

  lemma {:induction false} StepKeeps(p: Peer, e: Event)
    requires Valid(p)
    ensures Valid(Step(p, e))
  {
    match e
    case Offer(packet, now, works) => OfferKeeps(p, packet, now, works);
    case ClientHelloIn(hash, now, localIsLower, accepted) => ClientHelloKeeps(p, hash, now, localIsLower, accepted);
    case ClientFinishIn(now, accepted, derives) => if p.state.ServerHello? { InstallKeeps(p, now, derives); }
    case ServerFinishIn(now, accepted, derives) => if p.state.ClientFinish? { InstallKeeps(p, now, derives); }
    case Pass(now, room, works) => PassKeeps(p, now, room, works);
    case Configured(candidates, now, policyChanged) => ReconfigureKeeps(p, candidates, now, policyChanged);
    case _ =>
  }

  predicate CountsKept(p: Peer, q: Peer) {
    p.attemptsTotal <= q.attemptsTotal && p.successesTotal <= q.successesTotal
  }

  /** A pass may begin one handshake, and finishes none. */
  lemma {:induction false} PassCounts(p: Peer, now: nat, room: bool, works: bool)
    requires Valid(p)
    ensures CountsKept(p, Maintain(p, now, room, works).peer)
  {
    RetransmitKeeps(p, now, works);
    var t := Retransmit(p, now, works);
    assert CountsKept(p, t.peer);
    assert CountsKept(t.peer, Proactive(t, now, room, works).peer);
  }

  /** No handler takes anything away from the handshake counters. */
  lemma {:induction false} StepCounts(p: Peer, e: Event)
    requires Valid(p)
    ensures CountsKept(p, Step(p, e))
  {
    match e
    case Pass(now, room, works) => PassCounts(p, now, room, works);
    case Offer(packet, now, works) => assert CountsKept(p, Forward(p, packet, now, works).0);
    case ClientHelloIn(hash, now, localIsLower, accepted) =>
      assert CountsKept(p, HandleClientHello(p, hash, now, localIsLower, accepted));
    case Configured(candidates, now, policyChanged) => assert CountsKept(p, Reconfigure(p, candidates, now, policyChanged));
    case _ =>
  }

  /** In every run: bounded queue with exact byte count, empty once established, successes never above attempts. */
  lemma {:induction false} EveryRunIsValid(candidates: seq<Candidate>, now: nat, events: seq<Event>)
    ensures Valid(Run(NewPeer(candidates, now), events))
  {
    if events != [] {
      EveryRunIsValid(candidates, now, events[..|events| - 1]);
      StepKeeps(Run(NewPeer(candidates, now), events[..|events| - 1]), events[|events| - 1]);
    }
  }

  lemma {:induction false} StepKeepsCandidates(p: Peer, e: Event)
    requires Ordered(p.candidates) && (e.Configured? ==> Ordered(e.candidates))
    ensures Ordered(Step(p, e).candidates)
  {
    if e.Pruned? {
      PruningKeepsOrder(p.candidates, e.wall);
    } else if e.Pass? {
      assert Retransmit(p, e.now, e.works).peer.candidates == p.candidates;
    }
  }

  /** In every run the candidates stay ordered, so the next probe goes to the head unless that is active. */
  lemma {:induction false} EveryRunKeepsOrder(candidates: seq<Candidate>, now: nat, events: seq<Event>)
    requires Ordered(candidates) && forall i :: 0 <= i < |events| && events[i].Configured? ==> Ordered(events[i].candidates)
    ensures var p := Run(NewPeer(candidates, now), events);
      && Ordered(p.candidates)
      && BestProbeTarget(p.candidates, p.active) == (if FirstEndpoint(p) == p.active then None else FirstEndpoint(p))
  {
    var p := Run(NewPeer(candidates, now), events);
    if events != [] {
      EveryRunKeepsOrder(candidates, now, events[..|events| - 1]);
      StepKeepsCandidates(Run(NewPeer(candidates, now), events[..|events| - 1]), events[|events| - 1]);
    }
    ProbeTargetIsHead(p.candidates, p.active);
  }

  // ----- every queued packet has one fate -----

  datatype Fate = Sealed | Unsealable | Discarded

  /** A peer with the packets it ever queued, the fates decided so far, and the packets sealed, all in order. */
  datatype Life = Life(peer: Peer, queued: seq<Packet>, fates: seq<Fate>, sealed: seq<Packet>)

  /** The fates of a queue drained into a session; `bad` are the packets that the session refuses. */
  function DrainFates(queue: seq<Packet>, bad: set<nat>): (f: seq<Fate>)
    ensures |f| == |queue|
    ensures forall i :: 0 <= i < |queue| ==> !f[i].Discarded? && (f[i].Sealed? <==> queue[i].id !in bad)
  {
    seq(|queue|, i requires 0 <= i < |queue| => if queue[i].id in bad then Unsealable else Sealed)
  }

  /** The packets with fate `Sealed`, in the order in which they were queued. */
  function SealedOnes(queued: seq<Packet>, fates: seq<Fate>): seq<Packet>
    requires |fates| <= |queued|
  {
    if fates == [] then []
    else
      var n := |fates| - 1;
      SealedOnes(queued, fates[..n]) + if fates[n].Sealed? then [queued[n]] else []
  }

  /** One packet is among them exactly if that was its fate; with `SealedOnesAppend` this says which they are, and in which order. */
  lemma {:induction false} SealedOnesOfOne(packet: Packet, fate: Fate)
    ensures SealedOnes([packet], [fate]) == if fate == Sealed then [packet] else []
  {
    assert [fate][..0] == [];
  }

  /** The finish that the peer waits for has come, it verifies, and session keys can be derived. */
  predicate Establishes(p: Peer, e: Event) {
    || (e.ClientFinishIn? && p.state.ServerHello? && e.accepted && e.derives)
    || (e.ServerFinishIn? && p.state.ClientFinish? && e.accepted && e.derives)
  }

  function LifeStep(l: Life, e: Event, bad: set<nat>): Life {
    var p' := Step(l.peer, e);
    var fates :=
      if Establishes(l.peer, e) then DrainFates(l.peer.queue, bad)
      else if p'.queue == l.peer.queue || |p'.queue| > |l.peer.queue| then []
      else seq(|l.peer.queue|, _ => Discarded);
    Life(p',
         if e.Offer? && |p'.queue| > |l.peer.queue| then l.queued + [e.packet] else l.queued,
         l.fates + fates,
         if Establishes(l.peer, e) then l.sealed + SealedOnes(l.peer.queue, DrainFates(l.peer.queue, bad)) else l.sealed)
  }

  function LifeRun(l: Life, events: seq<(Event, set<nat>)>): Life {
    if events == [] then l
    else LifeStep(LifeRun(l, events[..|events| - 1]), events[|events| - 1].0, events[|events| - 1].1)
  }

  /** Packets leave the queue only all at once. */
  lemma {:induction false} QueueMoves(p: Peer, e: Event)
    ensures var p' := Step(p, e);
      p'.queue == p.queue || p'.queue == [] || (e.Offer? && p'.queue == p.queue + [e.packet])
  {
    if e.Pass? {
      var t := Retransmit(p, e.now, e.works);
      assert t.peer.queue == p.queue || t.peer.queue == [];
    } else if e.Configured? {
      assert Reconfigure(p, e.candidates, e.now, e.policyChanged).queue == if e.policyChanged then [] else p.queue;
    }
  }

  ghost predicate Accounted(l: Life) {
    && |l.fates| + |l.peer.queue| == |l.queued|
    && l.queued[|l.fates|..] == l.peer.queue
    && l.sealed == SealedOnes(l.queued, l.fates)
  }

  lemma {:induction false} SealedOnesAppend(queued: seq<Packet>, fates: seq<Fate>, more: seq<Fate>)
    requires |fates| + |more| <= |queued|
    ensures SealedOnes(queued, fates + more) == SealedOnes(queued, fates) + SealedOnes(queued[|fates|..], more)
    decreases |more|
  {
    if more == [] {
      assert fates + more == fates;
    } else {
      var n := |more| - 1;
      assert (fates + more)[..|fates| + n] == fates + more[..n];
      assert (fates + more)[|fates| + n] == more[n] && queued[|fates|..][n] == queued[|fates| + n];
      SealedOnesAppend(queued, fates, more[..n]);
    }
  }

  lemma {:induction false} SealedOnesLonger(queued: seq<Packet>, p: Packet, fates: seq<Fate>)
    requires |fates| <= |queued|
    ensures SealedOnes(queued + [p], fates) == SealedOnes(queued, fates)
  {
    if fates != [] { SealedOnesLonger(queued, p, fates[..|fates| - 1]); }
  }

  lemma {:induction false} NoneSealed(queued: seq<Packet>, fates: seq<Fate>)
    requires |fates| <= |queued| && forall i :: 0 <= i < |fates| ==> !fates[i].Sealed?
    ensures SealedOnes(queued, fates) == []
  {
    if fates != [] { NoneSealed(queued, fates[..|fates| - 1]); }
  }

  lemma {:induction false} AccountedStep(l: Life, e: Event, bad: set<nat>)
    requires Accounted(l) && Valid(l.peer)
    ensures Accounted(LifeStep(l, e, bad))
  {
    var p, p' := l.peer, Step(l.peer, e);
    QueueMoves(p, e);
    if Establishes(p, e) {
      SealedOnesAppend(l.queued, l.fates, DrainFates(p.queue, bad));
    } else if p'.queue == p.queue {
      assert l.fates + [] == l.fates;
    } else if |p'.queue| > |p.queue| {
      assert l.fates + [] == l.fates;
      SealedOnesLonger(l.queued, e.packet, l.fates);
    } else {
      var fates := seq(|p.queue|, _ => Discarded);
      SealedOnesAppend(l.queued, l.fates, fates);
      NoneSealed(p.queue, fates);
    }
  }

  /**
   In every run each queued packet is still waiting or has exactly one fate; the
   sealed packets are, in the order of queueing, those whose fate it was.
   */
  lemma {:induction false} EveryPacketIsAccountedFor(candidates: seq<Candidate>, now: nat, events: seq<(Event, set<nat>)>)
    ensures var l := LifeRun(Life(NewPeer(candidates, now), [], [], []), events);
      Accounted(l) && Valid(l.peer)
  {
    if events != [] {
      EveryPacketIsAccountedFor(candidates, now, events[..|events| - 1]);
      var l := LifeRun(Life(NewPeer(candidates, now), [], [], []), events[..|events| - 1]);
      AccountedStep(l, events[|events| - 1].0, events[|events| - 1].1);
      StepKeeps(l.peer, events[|events| - 1].0);
    }
  }

  // ----- the loops over a live peer -----

  class LivePeer {
    var p: Peer

    method QueueOne(packet: Packet) returns (taken: bool)
      requires Valid(p) && !p.state.Established?
      modifies this
      ensures Valid(p) && taken == QueuePacket(old(p), packet).Some?
      ensures p == if taken then QueuePacket(old(p), packet).value else old(p)
    {
      if |p.queue| >= MAX_QUEUED_PACKETS_PER_PEER || p.queuedBytes + packet.length > MAX_QUEUED_BYTES_PER_PEER {
        return false;
      }
      QueueKeeps(p, packet);
      p := p.(queuedBytes := p.queuedBytes + packet.length);
      p := p.(queue := p.queue + [packet]);
      taken := true;
    }

    method PruneCache(now: nat)
      modifies this
      ensures p == old(p).(recent := PruneHellos(old(p).recent, now))
    {
      while p.recent != [] && Since(now, p.recent[0].seen) >= CLIENT_HELLO_CACHE_LIFETIME
        invariant p == old(p).(recent := p.recent)
        invariant PruneHellos(p.recent, now) == PruneHellos(old(p).recent, now)
        decreases |p.recent|
      {
        p := p.(recent := p.recent[1..]);
      }
    }

    /** Pops the queue packet by packet into the new session; the session refuses the packets of `bad`. */
    method Install(now: nat, derives: bool, bad: set<nat>) returns (outbound: seq<Packet>)
      requires Valid(p) && Handshaking(p.state)
      modifies this
      ensures Valid(p) && p == InstallSession(old(p), now, derives)
      ensures outbound == if derives then SealedOnes(old(p).queue, DrainFates(old(p).queue, bad)) else []
    {
      InstallKeeps(p, now, derives);
      outbound := [];
      if !derives {
        p := ClearQueue(p);
        return;
      }
      ghost var n := 0;
      ghost var fates := DrainFates(p.queue, bad);
      while p.queue != []
        invariant n <= |fates| == |old(p).queue|
        invariant p == old(p).(queue := old(p).queue[n..])
        invariant outbound == SealedOnes(old(p).queue, fates[..n])
        decreases |p.queue|
      {
        var packet := p.queue[0];
        p := p.(queue := p.queue[1..]);
        if packet.id !in bad {
          outbound := outbound + [packet];
        }
        assert fates[..n + 1][..n] == fates[..n];
        n := n + 1;
      }
      assert fates[..n] == fates;
      p := p.(queuedBytes := 0, failures := 0, candidateAttempts := 0,
              successesTotal := SaturatingAdd(p.successesTotal, 1, U64_MAX), nextProactiveAt := now, state := Established);
    }
  }

  // ----- handshake cycles end -----

  /** What a cycle can still send: the resends left for this candidate and all for the candidates to come. */
  function Rank(p: Peer): nat
    requires InFlight(p) && Valid(p)
  {
    (MAX_HANDSHAKE_CANDIDATES_PER_CYCLE - p.candidateAttempts) * HANDSHAKE_MAX_ATTEMPTS
    + (HANDSHAKE_MAX_ATTEMPTS - p.state.retry.attempts)
  }

  /** The cycle is over: nothing is queued and the next handshake waits for at least the base and at most the cap. */
  predicate BackedOff(p: Peer, now: nat) {
    && p.state.Idle? && p.candidateAttempts == 0 && p.queue == []
    && now + HANDSHAKE_BACKOFF_BASE <= p.nextProactiveAt <= now + HANDSHAKE_BACKOFF_MAX
  }

  /** A pass over a handshake in flight: it waits, or it comes closer to the end of the cycle, or it ends it. */
  lemma {:induction false} PassMakesProgress(p: Peer, now: nat, room: bool)
    requires Valid(p) && InFlight(p)
    ensures var t := Maintain(p, now, room, true);
      && !t.failed && !t.started && Valid(t.peer)
      && (InFlight(t.peer) ==> Rank(t.peer) <= Rank(p) - if t.sends then 1 else 0)
      && (!InFlight(t.peer) ==> BackedOff(t.peer, now) && t.freed && !t.sends)
      && (Since(now, p.state.retry.lastSent) >= HANDSHAKE_RETRY_INTERVAL && InFlight(t.peer) ==>
            Rank(t.peer) < Rank(p) && t.peer.state.retry.lastSent == now)
      && (Since(now, p.state.retry.lastSent) < HANDSHAKE_RETRY_INTERVAL ==>
            InFlight(t.peer) && t.peer.state.retry == p.state.retry && Rank(t.peer) == Rank(p))
  {
    RetransmitKeeps(p, now, true);
  }

  /** Packets from the TUN device, then one maintenance pass: expired candidates go first. */
  datatype Moment = Moment(offered: seq<Packet>, wall: nat, now: nat, room: bool)

  function OfferAll(p: Peer, packets: seq<Packet>, now: nat): Peer {
    if packets == [] then p else Forward(OfferAll(p, packets[..|packets| - 1], now), packets[|packets| - 1], now, true).0
  }

  function Readied(p: Peer, m: Moment): Peer {
    PruneCandidates(OfferAll(p, m.offered, m.now), m.wall)
  }

  function At(p: Peer, m: Moment): Tick {
    Maintain(Readied(p, m), m.now, m.room, true)
  }

  /** The peer after some moments, with nothing from the peer or the controller in between. */
  function Quiet(p: Peer, ms: seq<Moment>): Peer
    decreases |ms|
  {
    if ms == [] then p else Quiet(At(p, ms[0]).peer, ms[1..])
  }

  /** How many handshake messages the passes send until the cycle is over. */
  function SentInCycle(p: Peer, ms: seq<Moment>): nat
    decreases |ms|
  {
    if ms == [] || !InFlight(p) then 0
    else
      var t := At(p, ms[0]);
      (if t.sends then 1 else 0) + SentInCycle(t.peer, ms[1..])
  }

  lemma {:induction false} OffersOnlyQueue(p: Peer, packets: seq<Packet>, now: nat)
    requires Valid(p) && InFlight(p)
    ensures var q := OfferAll(p, packets, now);
      Valid(q) && q.state == p.state && q.candidateAttempts == p.candidateAttempts
  {
    if packets != [] {
      var n := |packets| - 1;
      OffersOnlyQueue(p, packets[..n], now);
      OfferKeeps(OfferAll(p, packets[..n], now), packets[n], now, true);
    }
  }

  /** Neither packets offered nor candidates expired move a handshake that is in flight. */
  lemma {:induction false} ReadyingKeepsRank(p: Peer, m: Moment)
    requires Valid(p) && InFlight(p)
    ensures var q := Readied(p, m);
      Valid(q) && InFlight(q) && q.state == p.state && Rank(q) == Rank(p)
  {
    OffersOnlyQueue(p, m.offered, m.now);
  }

  /** Whatever the schedule and the room, a cycle sends no more messages than its rank. */
  lemma {:induction false} CycleSendsAtMostRank(p: Peer, ms: seq<Moment>)
    requires Valid(p) && InFlight(p)
    ensures SentInCycle(p, ms) <= Rank(p)
    decreases |ms|
  {
    if ms != [] {
      ReadyingKeepsRank(p, ms[0]);
      PassMakesProgress(Readied(p, ms[0]), ms[0].now, ms[0].room);
      if InFlight(At(p, ms[0]).peer) { CycleSendsAtMostRank(At(p, ms[0]).peer, ms[1..]); }
    }
  }

  /** Passes in time order, each at most `gap` after the one before. */
  predicate Paced(previous: nat, ms: seq<Moment>, gap: nat)
    decreases |ms|
  {
    ms != [] ==> previous <= ms[0].now <= previous + gap && Paced(ms[0].now, ms[1..], gap)
  }

  /** How long a cycle of this rank can last when passes are at most `gap` apart. */
  function Patience(rank: nat, gap: nat): nat {
    (rank + 1) * (HANDSHAKE_RETRY_INTERVAL + gap)
  }

  lemma {:induction false} PatienceSteps(less: nat, rank: nat, gap: nat)
    requires less < rank
    ensures Patience(less, gap) + HANDSHAKE_RETRY_INTERVAL + gap <= Patience(rank, gap)
  {
    var d := HANDSHAKE_RETRY_INTERVAL + gap;
    assert (less + 2) * d <= (rank + 1) * d;
  }

  lemma {:induction false} PatienceIsLong(rank: nat, gap: nat)
    ensures Patience(rank, gap) >= HANDSHAKE_RETRY_INTERVAL + gap
  {
  }

  /**
   A handshake cycle terminates under any schedule whose passes are at most `gap`
   apart: one of them ends it in backoff, no later than the patience of its rank.
   Time counts from `since`, which is the last message or the last pass, whichever is later.
   */
  lemma {:induction false} CycleEnds(p: Peer, since: nat, previous: nat, ms: seq<Moment>, gap: nat) returns (k: nat)
    requires Valid(p) && InFlight(p)
    requires p.state.retry.lastSent <= since && previous <= since + HANDSHAKE_RETRY_INTERVAL
    requires ms != [] && Paced(previous, ms, gap) && ms[|ms| - 1].now >= since + Patience(Rank(p), gap)
    ensures k < |ms| && ms[k].now <= since + Patience(Rank(p), gap)
    ensures BackedOff(Quiet(p, ms[..k + 1]), ms[k].now)
    decreases |ms|
  {
    var m := ms[0];
    var since' := MomentMakesProgress(p, since, previous, m, gap);
    var q := At(p, m).peer;
    if InFlight(q) {
      var later := CycleEnds(q, since', m.now, ms[1..], gap);
      k := later + 1;
      QuietSteps(p, ms, k + 1);
    } else {
      k := 0;
      QuietSteps(p, ms, 1);
      assert Quiet(q, ms[1..][..0]) == q;
    }
  }

  lemma {:induction false} QuietSteps(p: Peer, ms: seq<Moment>, n: nat)
    requires 0 < n <= |ms|
    ensures Quiet(p, ms[..n]) == Quiet(At(p, ms[0]).peer, ms[1..][..n - 1])
  {
    assert ms[..n][1..] == ms[1..][..n - 1] && ms[..n][0] == ms[0];
  }

  /** One moment: the cycle ends in time, or the deadline stands and the moment itself lies before it. */
  lemma {:induction false} MomentMakesProgress(p: Peer, since: nat, previous: nat, m: Moment, gap: nat) returns (since': nat)
    requires Valid(p) && InFlight(p)
    requires p.state.retry.lastSent <= since && previous <= since + HANDSHAKE_RETRY_INTERVAL
    requires previous <= m.now <= previous + gap
    ensures m.now <= since + Patience(Rank(p), gap)
    ensures var q := At(p, m).peer;
      && (!InFlight(q) ==> BackedOff(q, m.now))
      && (InFlight(q) ==>
            && Valid(q) && q.state.retry.lastSent <= since' && m.now <= since' + HANDSHAKE_RETRY_INTERVAL
            && since' + Patience(Rank(q), gap) <= since + Patience(Rank(p), gap)
            && m.now < since + Patience(Rank(p), gap))
  {
    var last, rank := p.state.retry.lastSent, Rank(p);
    ReadyingKeepsRank(p, m);
    PassMakesProgress(Readied(p, m), m.now, m.room);
    PatienceIsLong(rank, gap);
    since' := since;
    var q := At(p, m).peer;
    if InFlight(q) && m.now >= last + HANDSHAKE_RETRY_INTERVAL {
      PatienceSteps(Rank(q), rank, gap);
      PatienceIsLong(Rank(q), gap);
      since' := m.now;
    }
  }

  /** A fresh cycle sends at most 48 messages, its first hello included, and is over within 48 retry intervals and gaps. */
  lemma {:induction false} CycleIsShort(p: Peer, now: nat, ms: seq<Moment>, gap: nat) returns (k: nat)
    requires Valid(p) && p.state.Idle? && p.candidateAttempts == 0 && BeginClientHandshake(p, now, true).Some?
    ensures var q := BeginClientHandshake(p, now, true).value;
      && 1 + SentInCycle(q, ms) <= MAX_HANDSHAKE_CANDIDATES_PER_CYCLE * HANDSHAKE_MAX_ATTEMPTS
      && (ms != [] && Paced(now, ms, gap) && ms[|ms| - 1].now >= now + 48 * (HANDSHAKE_RETRY_INTERVAL + gap) ==>
            && k < |ms| && ms[k].now <= now + 48 * (HANDSHAKE_RETRY_INTERVAL + gap)
            && BackedOff(Quiet(q, ms[..k + 1]), ms[k].now))
  {
    var q := BeginClientHandshake(p, now, true).value;
    assert Valid(q) && InFlight(q) && Rank(q) == 47;
    CycleSendsAtMostRank(q, ms);
    k := 0;
    if ms != [] && Paced(now, ms, gap) && ms[|ms| - 1].now >= now + 48 * (HANDSHAKE_RETRY_INTERVAL + gap) {
      assert Patience(47, gap) == 48 * (HANDSHAKE_RETRY_INTERVAL + gap);
      k := CycleEnds(q, now, now, ms, gap);
    }
  }

  /** The delay starts at the base and doubles with every further failure, up to the cap. */
  lemma {:induction false} BackoffDoubles(failures: nat)
    requires failures >= 1
    ensures BackoffDelay(1) == HANDSHAKE_BACKOFF_BASE
    ensures BackoffDelay(failures + 1) == Min(2 * BackoffDelay(failures), HANDSHAKE_BACKOFF_MAX)
  {
  }

  /** No successful pass leaves a peer idle with a spent candidate budget. */
  lemma {:induction false} PassLeavesBudget(p: Peer, now: nat, room: bool, works: bool)
    requires Valid(p) && !Maintain(p, now, room, works).failed
    ensures var q := Maintain(p, now, room, works).peer;
      q.state.Idle? ==> q.candidateAttempts < MAX_HANDSHAKE_CANDIDATES_PER_CYCLE
  {
    RetransmitKeeps(p, now, works);
  }

  /**
   Between passes that can happen: a rejected server hello leaves the peer idle with
   its budget as it was, and forwarding a packet then fails, although the packet is
   queued, exactly when the budget is spent.
   */
  lemma {:induction false} ForwardFailsOnSpentBudget(p: Peer, packet: Packet, now: nat)
    requires Valid(p) && p.state.ClientHello? && p.active.Some? && packet.length <= MAX_QUEUED_BYTES_PER_PEER
    ensures var q := HandleServerHello(p, now, true, false);
      && q.state.Idle? && q.candidateAttempts == p.candidateAttempts
      && (Forward(q, packet, now, true).1.Failed? <==> p.candidateAttempts == MAX_HANDSHAKE_CANDIDATES_PER_CYCLE)
      && Forward(q, packet, now, true).0.queue == [packet]
  {
    assert [] + [packet] == [packet];
  }

  /** Packets offered and server hellos rejected in turn, `n` times each. */
  function Rebuffs(n: nat, packet: Packet): seq<Event> {
    if n == 0 then [] else Rebuffs(n - 1, packet) + [Offer(packet, 0, true), ServerHelloIn(0, true, false)]
  }

  lemma {:induction false} RunTwo(p: Peer, events: seq<Event>, a: Event, b: Event)
    ensures Run(p, events + [a, b]) == Step(Step(Run(p, events), a), b)
  {
    assert (events + [a, b])[..|events| + 1] == events + [a];
    assert (events + [a])[..|events|] == events;
  }

  lemma {:induction false} RebuffsSpendBudget(p: Peer, n: nat, packet: Packet)
    requires p.state.Idle? && p.queue == [] && p.queuedBytes == 0 && p.active.Some? && p.candidateAttempts == 0
    requires n <= MAX_HANDSHAKE_CANDIDATES_PER_CYCLE && packet.length <= MAX_QUEUED_BYTES_PER_PEER
    ensures var q := Run(p, Rebuffs(n, packet));
      q.state.Idle? && q.queue == [] && q.queuedBytes == 0 && q.active == p.active && q.candidateAttempts == n
  {
    if n > 0 {
      RebuffsSpendBudget(p, n - 1, packet);
      RunTwo(p, Rebuffs(n - 1, packet), Offer(packet, 0, true), ServerHelloIn(0, true, false));
    }
  }

  /** A spent budget is reachable from a new peer with one candidate: eight hellos whose answers are rejected, then a packet. */
  lemma {:induction false} SpentBudgetIsReachable(c: Candidate, packet: Packet)
    requires packet.length <= MAX_QUEUED_BYTES_PER_PEER
    ensures var p := Run(NewPeer([c], 0), Rebuffs(8, packet));
      p.state.Idle? && p.candidateAttempts == MAX_HANDSHAKE_CANDIDATES_PER_CYCLE && Forward(p, packet, 0, true).1.Failed?
  {
    RebuffsSpendBudget(NewPeer([c], 0), 8, packet);
  }

  /** A new configuration keeps an established session exactly when the policy version is unchanged. */
  lemma {:induction false} SessionsSurviveConfiguration(p: Peer, candidates: seq<Candidate>, now: nat, policyChanged: bool)
    requires p.state.Established?
    ensures var q := Reconfigure(p, candidates, now, policyChanged);
      && (q.state.Established? <==> !policyChanged)
      && (!policyChanged ==> q == p.(candidates := candidates))
  {
  }

  // ----- the global limit on handshakes -----

  function Flying(peers: map<nat, Peer>): set<nat> {
    set k | k in peers && InFlight(peers[k])
  }

  /** A pass moves one peer in or out of flight exactly as its flags say. */
  lemma {:induction false} FlagsAreExact(p: Peer, now: nat, room: bool, works: bool)
    requires Valid(p) && !Maintain(p, now, room, works).failed
    ensures var t := Maintain(p, now, room, works);
      && (t.started ==> room && !InFlight(p) && InFlight(t.peer) && !t.freed)
      && (t.freed ==> InFlight(p) && !InFlight(t.peer))
      && (!t.started && !t.freed ==> InFlight(p) == InFlight(t.peer))
  {
    RetransmitKeeps(p, now, works);
  }

  predicate BudgetLeft(p: Peer) {
    p.state.Idle? ==> p.candidateAttempts < MAX_HANDSHAKE_CANDIDATES_PER_CYCLE
  }

  /** Idle, reachable, and past its deadline: only the global limit can keep this peer from starting. */
  predicate Due(p: Peer, now: nat) {
    p.state.Idle? && p.active.Some? && now >= p.nextProactiveAt
  }

  lemma {:induction false} FailedIsNotFlying(p: Peer, now: nat, room: bool, works: bool)
    requires Maintain(p, now, room, works).failed
    ensures !InFlight(Maintain(p, now, room, works).peer)
  {
  }

  /** With room, a pass leaves no peer waiting that is due. */
  lemma {:induction false} PassStartsDue(p: Peer, now: nat, room: bool, works: bool)
    requires Valid(p) && !Maintain(p, now, room, works).failed && room
    ensures !Due(Maintain(p, now, room, works).peer, now)
  {
  }

  ghost predicate Passed(p: Peer, q: Peer, now: nat, works: bool) {
    exists room :: q == Maintain(p, now, room, works).peer && !Maintain(p, now, room, works).failed
  }

  /** The pass of this peer can fail: only for lack of randomness, or of a sequence to seal with. */
  ghost predicate MayFail(p: Peer, now: nat) {
    exists room :: Maintain(p, now, room, false).failed
  }

  lemma {:induction false} FailedForLackOfRandomness(p: Peer, now: nat, room: bool, works: bool)
    requires Valid(p) && Maintain(p, now, room, works).failed
    ensures !works && MayFail(p, now)
  {
    RetransmitKeeps(p, now, works);
  }

  /** The peers that began a handshake since the table was `was`. */
  function Begun(was: map<nat, Peer>, peers: map<nat, Peer>): set<nat> {
    Flying(peers) - Flying(was)
  }

  lemma {:induction false} BegunUpdate(was: map<nat, Peer>, peers: map<nat, Peer>, k: nat, q: Peer)
    requires k in peers && k in was && peers[k] == was[k]
    ensures |Begun(was, peers[k := q])| == |Begun(was, peers)| + if InFlight(q) && !InFlight(was[k]) then 1 else 0
  {
    assert k !in Begun(was, peers);
    assert Begun(was, peers[k := q]) == Begun(was, peers) + if InFlight(q) && !InFlight(was[k]) then {k} else {};
  }

  ghost predicate AllValid(peers: map<nat, Peer>) {
    forall k :: k in peers ==> Valid(peers[k])
  }

  /** Every peer of `done` had a successful pass. */
  ghost predicate AllPassed(was: map<nat, Peer>, peers: map<nat, Peer>, done: set<nat>, now: nat, works: set<nat>) {
    forall k :: k in done && k in was && k in peers ==> Passed(was[k], peers[k], now, k in works) && BudgetLeft(peers[k])
  }

  ghost predicate NoneDue(peers: map<nat, Peer>, done: set<nat>, now: nat) {
    forall k :: k in done && k in peers ==> !Due(peers[k], now)
  }

  lemma {:induction false} PassedOneMore(was: map<nat, Peer>, peers: map<nat, Peer>, done: set<nat>, k: nat, q: Peer, now: nat, works: set<nat>)
    requires k in was && k in peers && AllPassed(was, peers, done, now, works)
    requires Passed(was[k], q, now, k in works) && BudgetLeft(q)
    ensures AllPassed(was, peers[k := q], done + {k}, now, works)
  {
  }

  class DataPlane {
    var peers: map<nat, Peer>

    /** `was` is the table before the whole pass, `done` the peers already visited. */
    method MaintainPeer(k: nat, now: nat, room: bool, works: set<nat>, ghost was: map<nat, Peer>, ghost done: set<nat>)
      returns (t: Tick)
      requires k in peers && AllValid(peers)
      requires k in was && was[k] == peers[k] && AllPassed(was, peers, done, now, works)
      modifies this
      ensures peers == old(peers)[k := t.peer] && peers.Keys == old(peers).Keys && AllValid(peers)
      ensures !t.failed ==>
        && |Flying(peers)| == |Flying(old(peers))| - (if t.freed then 1 else 0) + (if t.started then 1 else 0)
        && (t.started ==> room && !t.freed)
        && AllPassed(was, peers, done + {k}, now, works)
        && (room && NoneDue(old(peers), done, now) ==> NoneDue(peers, done + {k}, now))
      ensures t.failed ==> |Flying(peers)| <= |Flying(old(peers))| && k !in works && MayFail(was[k], now)
      ensures |Begun(was, peers)| == |Begun(was, old(peers))| + if !t.failed && t.started then 1 else 0
    {
      t := Maintain(peers[k], now, room, k in works);
      PassKeeps(peers[k], now, room, k in works);
      FlyingUpdate(peers, k, t.peer);
      BegunUpdate(was, peers, k, t.peer);
      if t.failed {
        FailedForLackOfRandomness(peers[k], now, room, k in works);
        FailedIsNotFlying(peers[k], now, room, k in works);
      } else {
        FlagsAreExact(peers[k], now, room, k in works);
        PassLeavesBudget(peers[k], now, room, k in works);
        if room { PassStartsDue(peers[k], now, room, k in works); }
        PassedOneMore(was, peers, done, k, t.peer, now, works);
      }
      peers := peers[k := t.peer];
    }

    /**
     One pass over all peers, in any order; `works` says for which peers randomness
     works. It fails only where that is missing. On success every peer had its pass, and a peer that is due was left
     waiting only by one of the two limits.
     */
    method MaintainAll(now: nat, works: set<nat>) returns (ok: bool, started: nat)
      requires AllValid(peers)
      modifies this
      ensures peers.Keys == old(peers).Keys && AllValid(peers)
      ensures started == |Begun(old(peers), peers)| <= MAX_PROACTIVE_HANDSHAKES_PER_TICK
      ensures !ok ==> exists k :: k in old(peers) && k !in works && MayFail(old(peers)[k], now)
      ensures |Flying(peers)| <= Max(|Flying(old(peers))|, MAX_CONCURRENT_PROACTIVE_HANDSHAKES)
      ensures ok ==> AllPassed(old(peers), peers, peers.Keys, now, works)
      ensures ok && Unhindered(started, |Flying(old(peers))|) ==> NoneDue(peers, peers.Keys, now)
    {
      started := 0;
      assert Begun(peers, peers) == {};
      var inFlight := |Flying(peers)|;
      var keys, done := peers.Keys, {};
      while done != keys
        invariant done <= keys == peers.Keys && AllValid(peers)
        invariant forall k :: k in keys - done ==> peers[k] == old(peers)[k]
        // The counter is exact in every iteration, so the subtraction never saturates.
        invariant inFlight == |Flying(peers)|
        invariant started == |Begun(old(peers), peers)| <= MAX_PROACTIVE_HANDSHAKES_PER_TICK
        invariant inFlight <= Max(|Flying(old(peers))|, MAX_CONCURRENT_PROACTIVE_HANDSHAKES)
        invariant inFlight <= |Flying(old(peers))| + started
        invariant AllPassed(old(peers), peers, done, now, works)
        invariant Unhindered(started, |Flying(old(peers))|) ==> NoneDue(peers, done, now)
        decreases keys - done
      {
        var k :| k in keys - done;
        var room := inFlight < MAX_CONCURRENT_PROACTIVE_HANDSHAKES && started < MAX_PROACTIVE_HANDSHAKES_PER_TICK;
        var t := MaintainPeer(k, now, room, works, old(peers), done);
        if t.failed {
          return false, started;
        }
        if t.freed {
          inFlight := inFlight - 1;
        }
        if t.started {
          inFlight, started := inFlight + 1, started + 1;
        }
        done := done + {k};
      }
      return true, started;
    }
  }

  /** Neither limit was reached. */
  predicate Unhindered(started: nat, before: nat) {
    started < MAX_PROACTIVE_HANDSHAKES_PER_TICK && before + started < MAX_CONCURRENT_PROACTIVE_HANDSHAKES
  }

  lemma {:induction false} FlyingUpdate(peers: map<nat, Peer>, k: nat, p: Peer)
    requires k in peers
    ensures |Flying(peers[k := p])| ==
      |Flying(peers)| + (if InFlight(p) then 1 else 0) - (if InFlight(peers[k]) then 1 else 0)
  {
    var others := Flying(peers) - {k};
    assert Flying(peers[k := p]) == others + if InFlight(p) then {k} else {};
    assert Flying(peers) == others + if InFlight(peers[k]) then {k} else {};
  }
}
