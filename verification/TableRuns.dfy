/**
 The peer table over time: every run between two configurations, whole lives of
 configurations and runs, and the runs in which the index cannot be rebuilt.
 */
module TableRuns {
  import opened Prelude
  import opened Candidates
  import opened Configuration
  import opened Directory
  import opened EndpointIndex
  import Peers
  import Relay

  // ----- single events -----

  datatype TableEvent =
    // `claimed`: the peer named by the relay, or by the session of a datagram from an unknown source.
    | Datagram(source: Endpoint, claimed: nat, handshake: bool, fallback: bool)
    | ProbeSent(peer: nat, target: Endpoint)
    | ProbeDropped(peer: nat)
    | ProbeAnswered(source: Endpoint, claimed: nat)
    | PathSwitch(peer: nat, to: Option<Endpoint>)
    | RelayLost(endpoint: Endpoint)
    | Expiry(wall: nat, established: set<nat>)

  /** The peer to which a datagram is given. */
  function Receiver(t: Tables, source: Endpoint, claimed: nat, clients: set<Endpoint>): nat {
    if Normalize(source) !in clients && source in t.endpoints then t.endpoints[source] else claimed
  }

  /** The one event that makes a rebuild fail: a datagram from where, unknown to the index, another peer is in use. */
  predicate Collides(t: Tables, e: TableEvent, clients: set<Endpoint>) {
    && e.Datagram? && e.claimed in t.peers && NeedsRebuild(t, e, t.peers[e.claimed], clients)
    && InUseElsewhere(t.peers, e.claimed, e.source, clients)
  }

  /** The one event that leads there: the answer to a probe whose endpoint the index has forgotten. */
  predicate LeadsAstray(t: Tables, e: TableEvent, clients: set<Endpoint>) {
    && e.ProbeAnswered? && e.source !in t.endpoints && Normalize(e.source) !in clients
    && e.claimed in t.peers && t.peers[e.claimed].probe == Some(Probe(e.source, true))
  }

  /** A rebuild after the peers became `peers`. */
  ghost predicate Rebuilds(peers: map<nat, Peer>, t: Tables, clients: set<Endpoint>, ok: bool) {
    t.peers == peers && (ok <==> Rebuildable(peers, clients)) && (ok ==> Consistent(t, clients))
  }

  predicate MaySwitch(p: Peer, to: Option<Endpoint>) {
    to.Some? ==> to.value in EndpointsOf(p.candidates)
  }

  /** The new state of the one peer that an event concerns, if it concerns just one. */
  function Affected(p: Peer, e: TableEvent, clients: set<Endpoint>): Peer {
    match e
    case Datagram(source, _, handshake, fallback) => Received(p, source, clients, handshake, fallback)
    case ProbeSent(_, target) => Probing(p, target)
    case ProbeDropped(_) => p.(probe := None)
    case ProbeAnswered(source, _) => Answered(p, source)
    case PathSwitch(_, to) => if MaySwitch(p, to) then p.(active := to, probe := None) else p
    case _ => p
  }

  /** A dropped probe is gone and nothing else; a switch goes exactly to a candidate, or to no path, and takes the probe with it. */
  lemma {:induction false} QuietStepsMean(p: Peer, v: nat, to: Option<Endpoint>, clients: set<Endpoint>)
    ensures Affected(p, ProbeDropped(v), clients) == Peer(p.node, p.candidates, p.active, None)
    ensures Affected(p, PathSwitch(v, to), clients) ==
      if to == None || to.value in EndpointsOf(p.candidates) then Peer(p.node, p.candidates, to, None) else p
  {
  }

  function Concerned(t: Tables, e: TableEvent, clients: set<Endpoint>): Option<nat> {
    match e
    case Datagram(source, claimed, _, _) => Some(Receiver(t, source, claimed, clients))
    case ProbeAnswered(source, claimed) => Some(Receiver(t, source, claimed, clients))
    case ProbeSent(v, _) => Some(v)
    case ProbeDropped(v) => Some(v)
    case PathSwitch(v, _) => Some(v)
    case _ => None
  }

  /** The index is rebuilt for a datagram that leaves its peer where the index does not know it. */
  predicate NeedsRebuild(t: Tables, e: TableEvent, p: Peer, clients: set<Endpoint>) {
    e.Datagram? && Calls(t.endpoints, Affected(p, e, clients), e.source, clients)
  }

  /** What happens to the table at one event; an event for a peer that is not there does nothing. */
  ghost predicate Reacts(t: Tables, e: TableEvent, clients: set<Endpoint>, t': Tables, ok: bool) {
    var to := Concerned(t, e, clients);
    if e.RelayLost? then ok && t' == t.(peers := Rerouted(t.peers, e.endpoint, t.peers.Keys))
    else if e.Expiry? then Rebuilds(AllPruned(t.peers, e.wall, e.established, t.peers.Keys), t', clients, ok)
    else if to.None? || to.value !in t.peers then ok && t' == t
    else
      var p := Affected(t.peers[to.value], e, clients);
      if NeedsRebuild(t, e, t.peers[to.value], clients) then Rebuilds(t.peers[to.value := p], t', clients, ok)
      else ok && t' == Put(t, to.value, p)
  }

  method React(table: PeerTable, e: TableEvent) returns (ok: bool)
    modifies table`peers, table`endpoints, table`ids
    ensures Reacts(old(table.Value()), e, table.clients, table.Value(), ok)
  {
    ok := true;
    match e
    case Datagram(source, claimed, handshake, fallback) =>
      var relayed := Normalize(source) in table.clients;
      var v := if !relayed && source in table.endpoints then table.endpoints[source] else claimed;
      if v in table.peers { ok := table.Receive(v, source, handshake, fallback); }
    case ProbeSent(v, target) =>
      if v in table.peers { table.peers := table.peers[v := Probing(table.peers[v], target)]; }
    case ProbeDropped(v) =>
      if v in table.peers { table.peers := table.peers[v := table.peers[v].(probe := None)]; }
    case ProbeAnswered(source, claimed) =>
      var relayed := Normalize(source) in table.clients;
      var v := if !relayed && source in table.endpoints then table.endpoints[source] else claimed;
      if v in table.peers { table.ReceiveAnswer(v, source); }
    case PathSwitch(v, to) =>
      if v in table.peers { table.peers := table.peers[v := Affected(table.peers[v], e, table.clients)]; }
    case RelayLost(endpoint) => table.FailRelayPath(endpoint);
    case Expiry(wall, established) => ok := table.PruneExpired(wall, established);
  }

  // ----- the handlers of a peer -----

  /** What the table knows of a peer. */
  function View(node: nat, p: Peers.Peer, probe: Option<Probe>): Peer {
    Peer(node, p.candidates, p.active, probe)
  }

  /** The probe under way after a handler of its peer. */
  function ProbeAfter(p: Peer, e: Peers.Event): Option<Probe> {
    match e
    case RelayFailed(endpoint, _) => if p.active == Some(endpoint) then None else p.probe
    case Configured(cs, _, _) => if RoutesChanged(p.candidates, cs) then None else p.probe
    case Promoted(_) => None
    case _ => p.probe
  }

  /** The step of the table that goes with a handler of a peer. */
  predicate Mirrors(p: Peer, e: Peers.Event, established: bool, q: Peer) {
    match e
    case Pruned(wall) => q == Pruned(p, wall, established)
    case RelayFailed(endpoint, _) => q == Moved(p, endpoint)
    case Configured(cs, _, policyChanged) => q == CarriedPeer(p, cs, established && !policyChanged)
    case Promoted(endpoint) => q == p.(active := Some(endpoint), probe := None)
    case _ => q.node == p.node && q.candidates == p.candidates && (q.active == p.active || MaySwitch(p, q.active))
  }

  /** Every handler of a peer is a step of the table, or a switch to one of its candidates. */
  lemma {:induction false} HandlersAreTableSteps(node: nat, p: Peers.Peer, probe: Option<Probe>, e: Peers.Event)
    ensures var was := View(node, p, probe);
      Mirrors(was, e, p.state.Established?, View(node, Peers.Step(p, e), ProbeAfter(was, e)))
  {
    match e
    case Pruned(wall) => PositionIffListed(Unexpired(p.candidates, wall), p.active);
    case Configured(cs, _, _) => PositionIffListed(cs, p.active);
    case Pass(now, room, works) => PassSwitchesPaths(p, now, room, works);
    case _ =>
  }

  lemma {:induction false} PositionIffListed(cs: seq<Candidate>, e: Option<Endpoint>)
    ensures e.Some? ==> (Position(cs, e.value).Some? <==> e.value in EndpointsOf(cs))
  {
    if e.Some? && cs != [] {
      PositionIffListed(cs[1..], e);
      assert e.value in EndpointsOf(cs) <==> cs[0].endpoint == e.value || e.value in EndpointsOf(cs[1..]) by {
        if e.value in EndpointsOf(cs) && cs[0].endpoint != e.value {
          var i :| 0 <= i < |cs| && cs[i].endpoint == e.value;
          assert cs[1..][i - 1].endpoint == e.value;
        }
        if e.value in EndpointsOf(cs[1..]) {
          var i :| 0 <= i < |cs[1..]| && cs[1..][i].endpoint == e.value;
          assert cs[i + 1].endpoint == e.value;
        }
      }
    }
  }

  /** `q` is on the path of `p`, or on one of its candidates. */
  predicate Switched(p: Peers.Peer, q: Peers.Peer) {
    q.candidates == p.candidates && (q.active == p.active || (q.active.Some? ==> q.active.value in EndpointsOf(p.candidates)))
  }

  lemma {:induction false} PassSwitchesPaths(p: Peers.Peer, now: nat, room: bool, works: bool)
    ensures Switched(p, Peers.Maintain(p, now, room, works).peer)
  {
    var t := Peers.Retransmit(p, now, works);
    RetrySwitchesPaths(p, now, works);
    ScheduleSwitchesPaths(t.peer, now);
  }

  lemma {:induction false} ScheduleSwitchesPaths(p: Peers.Peer, now: nat)
    ensures Switched(p, Peers.ScheduleRetry(p, now))
  {
  }

  lemma {:induction false} RetrySwitchesPaths(p: Peers.Peer, now: nat, works: bool)
    ensures Switched(p, Peers.Retransmit(p, now, works).peer)
  {
    var polled := Peers.PollPeer(p.(recent := Peers.PruneHellos(p.recent, now)), now).0;
    assert polled.candidates == p.candidates && polled.active == p.active;
    ScheduleSwitchesPaths(polled, now);
  }

  // ----- what every event keeps -----

  /** The new state of a peer whose event needs no rebuild has its place in the index. */
  lemma {:induction false} AffectedIsHoused(t: Tables, origin: map<nat, set<Endpoint>>, e: TableEvent, v: nat, clients: set<Endpoint>)
    requires Loose(t, origin, clients) && Concerned(t, e, clients) == Some(v) && v in t.peers
    requires !LeadsAstray(t, e, clients) || OwnProbe(t.peers[v], origin[v], clients)
    requires !NeedsRebuild(t, e, t.peers[v], clients)
    ensures Housed(t.endpoints, v, Affected(t.peers[v], e, clients), origin[v], clients)
  {
    assert Housed(t.endpoints, v, t.peers[v], origin[v], clients);
    if e.PathSwitch? && e.to.Some? && MaySwitch(t.peers[v], e.to) { CandidateIsOwn(t, origin, v, e.to.value, clients); }
    HousedMoves(t.endpoints, v, t.peers[v], origin[v], Affected(t.peers[v], e, clients), clients);
  }

  lemma {:induction false} AffectedStraysIff(t: Tables, origin: map<nat, set<Endpoint>>, e: TableEvent, v: nat, clients: set<Endpoint>)
    requires Loose(t, origin, clients) && NoneStray(t, clients) && Concerned(t, e, clients) == Some(v) && v in t.peers
    requires !NeedsRebuild(t, e, t.peers[v], clients)
    ensures ActiveOwned(Affected(t.peers[v], e, clients), clients) <= t.endpoints.Keys <==> !LeadsAstray(t, e, clients)
  {
    var q := Affected(t.peers[v], e, clients);
    if e.PathSwitch? && e.to.Some? && MaySwitch(t.peers[v], e.to) { CandidateIsOwn(t, origin, v, e.to.value, clients); }
    if LeadsAstray(t, e, clients) { assert e.source in ActiveOwned(q, clients); }
  }

  lemma {:induction false} AffectedOwnsProbe(t: Tables, origin: map<nat, set<Endpoint>>, e: TableEvent, v: nat, clients: set<Endpoint>)
    requires Loose(t, origin, clients) && v in t.peers && OwnProbe(t.peers[v], origin[v], clients)
    ensures OwnProbe(Affected(t.peers[v], e, clients), origin[v], clients)
  {
    var p := t.peers[v];
    if e.ProbeSent? && p.probe.None? && e.target in EndpointsOf(p.candidates) { CandidateIsOwn(t, origin, v, e.target, clients); }
  }

  /**
   What a table keeps at every event: the rebuild fails exactly at a collision, and
   nobody strays before the first answer that leads astray; until then nothing collides.
   */
  ghost predicate Keeps(t: Tables, e: TableEvent, origin: map<nat, set<Endpoint>>, clients: set<Endpoint>, t': Tables, ok: bool) {
    && (ok <==> !Collides(t, e, clients))
    && (ok ==> Loose(t', origin, clients) && (OwnProbes(t, origin, clients) ==> OwnProbes(t', origin, clients)))
    && (NoneStray(t, clients) ==> ok && (NoneStray(t', clients) <==> !LeadsAstray(t, e, clients)))
  }

  lemma {:induction false} ReactionKeeps(t: Tables, e: TableEvent, origin: map<nat, set<Endpoint>>, clients: set<Endpoint>, t': Tables, ok: bool)
    requires Loose(t, origin, clients) && Reacts(t, e, clients, t', ok)
    requires OwnProbes(t, origin, clients) || !LeadsAstray(t, e, clients)
    ensures Keeps(t, e, origin, clients, t', ok)
  {
    var to := Concerned(t, e, clients);
    if e.RelayLost? {
      ReroutedIsLoose(t, origin, e.endpoint, clients);
      if OwnProbes(t, origin, clients) { ReroutedOwnProbes(t, origin, e.endpoint, clients); }
    } else if e.Expiry? {
      ExpiryKeeps(t, e.wall, e.established, origin, clients, t', ok);
    } else if to.Some? && to.value in t.peers {
      if NeedsRebuild(t, e, t.peers[to.value], clients) {
        RoamingKeeps(t, e, to.value, origin, clients, t', ok);
      } else {
        QuietKeeps(t, e, to.value, origin, clients);
      }
    }
  }

  /** An event without a rebuild. */
  lemma {:induction false} QuietKeeps(t: Tables, e: TableEvent, v: nat, origin: map<nat, set<Endpoint>>, clients: set<Endpoint>)
    requires Loose(t, origin, clients) && Concerned(t, e, clients) == Some(v) && v in t.peers
    requires OwnProbes(t, origin, clients) || !LeadsAstray(t, e, clients)
    requires !NeedsRebuild(t, e, t.peers[v], clients)
    ensures Keeps(t, e, origin, clients, Put(t, v, Affected(t.peers[v], e, clients)), true)
  {
    var q := Affected(t.peers[v], e, clients);
    assert OwnProbes(t, origin, clients) ==> OwnProbe(t.peers[v], origin[v], clients);
    AffectedIsHoused(t, origin, e, v, clients);
    PutKeepsLoose(t, origin, v, q, clients);
    if NoneStray(t, clients) {
      AffectedStraysIff(t, origin, e, v, clients);
      PutStraysIff(t, v, q, clients);
    }
    if OwnProbes(t, origin, clients) {
      AffectedOwnsProbe(t, origin, e, v, clients);
      PutKeepsProbes(t, origin, v, q, clients);
    }
  }

  /** A datagram that calls for a rebuild. */
  lemma {:induction false} RoamingKeeps(t: Tables, e: TableEvent, v: nat, origin: map<nat, set<Endpoint>>, clients: set<Endpoint>, t': Tables, ok: bool)
    requires Loose(t, origin, clients) && Concerned(t, e, clients) == Some(v) && v in t.peers
    requires NeedsRebuild(t, e, t.peers[v], clients)
    requires Rebuilds(t.peers[v := Affected(t.peers[v], e, clients)], t', clients, ok)
    ensures Keeps(t, e, origin, clients, t', ok)
  {
    var p := Affected(t.peers[v], e, clients);
    RoamingRebuildsIff(t, origin, v, p, e.source, clients);
    if NoneStray(t, clients) { NobodyThere(t, v, e.source, clients); }
    if ok {
      RoamedIsLoose(t, v, p, origin, clients, t');
      if OwnProbes(t, origin, clients) {
        AffectedOwnsProbe(t, origin, e, v, clients);
        PutKeepsProbes(t, origin, v, p, clients);
        assert OwnProbes(t', origin, clients);
      }
    }
  }

  lemma {:induction false} RoamedIsLoose(t: Tables, v: nat, p: Peer, origin: map<nat, set<Endpoint>>, clients: set<Endpoint>, t': Tables)
    requires Loose(t, origin, clients) && v in t.peers && p.candidates == t.peers[v].candidates
    requires t'.peers == t.peers[v := p] && Consistent(t', clients)
    ensures Loose(t', origin, clients) && NoneStray(t', clients)
  {
    assert t'.peers.Keys == t.peers.Keys;
    forall w | w in t'.peers ensures t'.peers[w].candidates == t.peers[w].candidates { }
    ConsistentIsLoose(t, t', origin, clients);
  }

  lemma {:induction false} ReroutedOwnProbes(t: Tables, origin: map<nat, set<Endpoint>>, failed: Endpoint, clients: set<Endpoint>)
    requires OwnProbes(t, origin, clients)
    ensures OwnProbes(t.(peers := Rerouted(t.peers, failed, t.peers.Keys)), origin, clients)
  {
  }

  lemma {:induction false} ExpiryKeeps(t: Tables, wall: nat, established: set<nat>, origin: map<nat, set<Endpoint>>, clients: set<Endpoint>,
                                       t': Tables, ok: bool)
    requires Loose(t, origin, clients) && Rebuilds(AllPruned(t.peers, wall, established, t.peers.Keys), t', clients, ok)
    ensures ok && Loose(t', origin, clients) && NoneStray(t', clients)
    ensures OwnProbes(t, origin, clients) ==> OwnProbes(t', origin, clients)
  {
    LooseIsRebuildable(t, origin, clients);
    AllPrunedIsRebuildable(t.peers, wall, established, t.peers.Keys, clients);
    PrunedIsLoose(t, t', origin, wall, established, clients);
    PrunedOwnProbes(t, t', origin, wall, established, clients);
  }

  lemma {:induction false} PrunedOwnProbes(t: Tables, t': Tables, origin: map<nat, set<Endpoint>>, wall: nat, established: set<nat>, clients: set<Endpoint>)
    requires t'.peers == AllPruned(t.peers, wall, established, t.peers.Keys)
    ensures OwnProbes(t, origin, clients) ==> OwnProbes(t', origin, clients)
  {
    assert forall v :: v in t'.peers ==> v in t.peers && t'.peers[v].probe == t.peers[v].probe;
  }

  lemma {:induction false} AllPrunedIsRebuildable(peers: map<nat, Peer>, wall: nat, established: set<nat>, done: set<nat>, clients: set<Endpoint>)
    requires Rebuildable(peers, clients) && RelaysKnown(peers, clients) && done <= peers.Keys
    ensures Rebuildable(AllPruned(peers, wall, established, done), clients)
    ensures RelaysKnown(AllPruned(peers, wall, established, done), clients)
    decreases done
  {
    if done == {} {
      assert AllPruned(peers, wall, established, done) == peers;
    } else {
      var v :| v in done;
      var before := AllPruned(peers, wall, established, done - {v});
      AllPrunedIsRebuildable(peers, wall, established, done - {v}, clients);
      PrunedStep(peers, wall, established, done - {v}, v);
      assert (done - {v}) + {v} == done;
      PruningKeepsRebuildable(before, v, wall, v in established, clients);
      PruningFilters(before[v].candidates, wall);
    }
  }

  // ----- every run between configurations -----

  ghost predicate Sound(t: Tables, origin: map<nat, set<Endpoint>>, clients: set<Endpoint>) {
    Loose(t, origin, clients) && OwnProbes(t, origin, clients)
  }

  ghost predicate Tidy(t: Tables, origin: map<nat, set<Endpoint>>, clients: set<Endpoint>) {
    Loose(t, origin, clients) && NoneStray(t, clients)
  }

  /** One event of a run; `led`: it led a peer astray. */
  method Advance(table: PeerTable, e: TableEvent, ghost origin: map<nat, set<Endpoint>>) returns (ok: bool, ghost led: bool)
    modifies table`peers, table`endpoints, table`ids
    ensures led ==> e.ProbeAnswered?
    ensures old(Tidy(table.Value(), origin, table.clients)) ==> ok && (!led ==> Tidy(table.Value(), origin, table.clients))
    ensures old(Sound(table.Value(), origin, table.clients)) ==>
      (ok || e.Datagram?) && (ok ==> Sound(table.Value(), origin, table.clients))
  {
    ghost var t := table.Value();
    led := LeadsAstray(t, e, table.clients);
    ok := React(table, e);
    AdvanceKeeps(t, e, origin, table.clients, table.Value(), ok);
  }

  lemma {:induction false} AdvanceKeeps(t: Tables, e: TableEvent, origin: map<nat, set<Endpoint>>, clients: set<Endpoint>, t': Tables, ok: bool)
    requires Reacts(t, e, clients, t', ok)
    ensures Tidy(t, origin, clients) ==> ok && (!LeadsAstray(t, e, clients) ==> Tidy(t', origin, clients))
    ensures Sound(t, origin, clients) ==> (ok || e.Datagram?) && (ok ==> Sound(t', origin, clients))
  {
    if Loose(t, origin, clients) && (OwnProbes(t, origin, clients) || !LeadsAstray(t, e, clients)) {
      ReactionKeeps(t, e, origin, clients, t', ok);
    }
  }

  /**
   Any events up to the next configuration, from a table in which nobody strays: a
   rebuild fails only after a probe answer has led its peer astray. If the probes under
   way at the start are for candidates, it fails only at a datagram.
   */
  method LiveTable(table: PeerTable, events: seq<TableEvent>, ghost origin: map<nat, set<Endpoint>>)
    returns (ended: Option<nat>, ghost astray: Option<nat>)
    requires Tidy(table.Value(), origin, table.clients)
    modifies table`peers, table`endpoints, table`ids
    ensures ended.Some? ==> ended.value < |events| && astray.Some? && astray.value < ended.value && events[astray.value].ProbeAnswered?
    ensures ended.Some? && old(OwnProbes(table.Value(), origin, table.clients)) ==> events[ended.value].Datagram?
  {
    ended, astray := None, None;
    ghost var own := Sound(table.Value(), origin, table.clients);
    for k := 0 to |events|
      invariant own ==> Sound(table.Value(), origin, table.clients)
      invariant astray.None? ==> Tidy(table.Value(), origin, table.clients)
      invariant astray.Some? ==> astray.value < k && events[astray.value].ProbeAnswered?
    {
      var ok;
      ghost var led;
      ok, led := Advance(table, events[k], origin);
      if led && astray.None? { astray := Some(k); }
      if !ok {
        ended := Some(k);
        return;
      }
    }
  }

  // ----- whole lives -----

  /** A table just rebuilt is tidy, its present candidates being the original ones. */
  lemma {:induction false} RebuiltIsTidy(t: Tables, clients: set<Endpoint>)
    requires Consistent(t, clients) && RelaysKnown(t.peers, clients)
    ensures Tidy(t, CandidatesOwned(t.peers), clients)
  {
    var origin := CandidatesOwned(t.peers);
    OriginsAreApart(t.peers, clients);
    forall v | v in t.peers ensures Housed(t.endpoints, v, t.peers[v], origin[v], clients) {
      RebuiltIsHoused(t, v, clients);
    }
    RebuiltStraysNot(t, clients);
  }

  lemma {:induction false} OriginsAreApart(peers: map<nat, Peer>, clients: set<Endpoint>)
    requires Rebuildable(peers, clients)
    ensures var origin := CandidatesOwned(peers);
      forall v, w :: v in origin && w in origin && v != w ==> origin[v] !! origin[w]
  {
    var origin := CandidatesOwned(peers);
    forall v, w | v in origin && w in origin && v != w ensures origin[v] !! origin[w] {
      assert Separate(peers[v], peers[w], clients);
    }
  }

  lemma {:induction false} RebuiltStraysNot(t: Tables, clients: set<Endpoint>)
    requires InverseOf(t.endpoints, Owned(t.peers, clients)) && RelaysKnown(t.peers, clients)
    ensures NoneStray(t, clients)
  {
    forall v | v in t.peers ensures ActiveOwned(t.peers[v], clients) <= t.endpoints.Keys {
      RebuiltIsHoused(t, v, clients);
    }
  }

  lemma {:induction false} RebuiltIsHoused(t: Tables, v: nat, clients: set<Endpoint>)
    requires InverseOf(t.endpoints, Owned(t.peers, clients)) && RelaysKnown(t.peers, clients) && v in t.peers
    ensures Housed(t.endpoints, v, t.peers[v], Indexed(t.peers[v].candidates), clients)
    ensures ActiveOwned(t.peers[v], clients) <= t.endpoints.Keys
  {
    assert Owned(t.peers, clients)[v] == OwnedBy(t.peers[v], clients);
    OwnedIsIndexed(t.endpoints, Owned(t.peers, clients), v);
  }

  lemma {:induction false} ConfiguredRelaysAreKnown(was: map<nat, Peer>, p: Payload, local: nat, wall: nat, relays: seq<Candidate>,
                                                    established: set<nat>, failed: seq<Endpoint>, clients: set<Endpoint>)
    requires RelayList(relays) && AreClients(relays, clients)
    ensures RelaysKnown(Configured(was, p, local, wall, relays, established, failed), clients)
  {
    var built := PeersOf(Rows(p.nodes, wall, relays), |p.nodes|, local);
    BuiltRelaysAreKnown(Tables(built, map[], map[]), p.nodes, local, wall, relays, clients);
    ReroutingKeepsCandidates(Carried(was, built, established), failed);
  }

  /** A configuration, the relay clients when it arrives, and what happens until the next. */
  datatype Stage = Stage(payload: Payload, now: nat, wall: nat, established: set<nat>, leases: map<Endpoint, Relay.Client>,
                         events: seq<TableEvent>)

  datatype Ending = Running | Refused(stage: nat) | Ended(stage: nat, event: nat)

  /**
   The table of an agent over any number of configurations: whenever it fails between
   two of them, a probe answer since the last one has led its peer astray.
   */
  method Life(local: nat, stages: seq<Stage>) returns (ending: Ending, ghost astray: nat)
    ensures ending.Refused? ==> ending.stage < |stages|
    ensures ending.Ended? ==> ending.stage < |stages| && astray < ending.event < |stages[ending.stage].events|
                              && stages[ending.stage].events[astray].ProbeAnswered?
  {
    astray := 0;
    var table := new PeerTable(Tables(map[], map[], map[]), {});
    var manager := new Relay.RelayManager(map[]);
    for k := 0 to |stages|
      invariant fresh(table) && fresh(manager) && manager.Valid()
    {
      var s := stages[k];
      if s.leases.Keys == manager.clients.Keys && forall e :: e in s.leases ==> s.leases[e].endpoint == e {
        manager.clients := s.leases;
      }
      var ok;
      ghost var origin;
      ok, origin := StartStage(table, manager, local, s);
      if !ok {
        return Refused(k), astray;
      }
      var ended;
      ghost var led;
      ended, led := LiveTable(table, s.events, origin);
      if ended.Some? {
        return Ended(k, ended.value), led.value;
      }
    }
    ending := Running;
  }

  method StartStage(table: PeerTable, manager: Relay.RelayManager, local: nat, s: Stage)
    returns (ok: bool, ghost origin: map<nat, set<Endpoint>>)
    requires manager.Valid()
    modifies table, manager
    ensures manager.Valid()
    ensures ok ==> Tidy(table.Value(), origin, table.clients)
  {
    ghost var was := table.peers;
    var failed, relays;
    ok, failed, relays := table.ApplyConfiguration(manager, s.payload, local, s.now, s.wall, s.established);
    origin := CandidatesOwned(table.peers);
    if ok {
      ConfiguredRelaysAreKnown(was, s.payload, local, s.wall, relays, s.established, failed, table.clients);
      RebuiltIsTidy(table.Value(), table.clients);
    }
  }
}
