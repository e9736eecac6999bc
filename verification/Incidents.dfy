/**
 When an accepted configuration is applied, and concrete runs in which the data plane
 ends with an error: a relay listed twice, an endpoint listed for another node, a relay
 removed after its lease was dropped silently, and an answer from a forgotten endpoint.
 */
module Incidents {
  import opened Prelude
  import opened Candidates
  import opened Configuration
  import opened Directory
  import opened EndpointIndex
  import Relay

  // ----- configurations -----

  predicate RelaysAlive(p: Payload, wall: nat) {
    forall i :: 0 <= i < |p.relays| ==> p.relays[i].expiresAt > wall
  }

  predicate RelaysApart(p: Payload) {
    forall i, j :: 0 <= i < j < |p.relays| ==> Normalize(p.relays[i].endpoint) != Normalize(p.relays[j].endpoint)
  }

  /**
   A configuration that the validator accepts is applied exactly when none of its relays
   has expired since, no two relays and no two peers share a normalized endpoint, the
   peers are few enough, and no peer is still in use at an endpoint of another.
   */
  method ApplyAccepted(table: PeerTable, manager: Relay.RelayManager, p: Payload, self: Identity, now: nat, wall: nat, established: set<nat>)
    returns (ok: bool, failed: seq<Endpoint>, relays: seq<Candidate>)
    requires Accepted(p, self) && manager.Valid()
    modifies table, manager
    ensures var rows := Rows(p.nodes, wall, relays);
      ok <==>
      && RelaysAlive(p, wall) && RelaysApart(p)
      && RemoteCount(rows, |rows|, self.id) <= MAX_CONFIGURED_PEERS && NoneShared(rows, self.id)
      && !SomeoneTrespasses(Configured(old(table.peers), p, self.id, wall, relays, established, failed), manager.clients.Keys)
  {
    Relay.ValidatedRelaysBuildIff(p, self, wall);
    ok, failed, relays := table.ApplyConfiguration(manager, p, self.id, now, wall, established);
    ValidatedPayloadBuildsIff(p, self, wall, relays);
  }

  /** A payload for the local node alone, with two relays. */
  function TwoRelays(a: Endpoint, b: Endpoint): Payload {
    Payload(Header(1, 1, 1, 1, 24, 0, true), 10, 0, 100, [],
            [RelayService(1, 1, true, a, 2, 100), RelayService(2, 2, true, b, 1, 100)], [LoneNode(1, [])])
  }

  /** The validator takes an endpoint and its IPv4-mapped spelling for two relays; the manager refuses them. */
  lemma {:induction false} MappedRelaysSlipThrough()
    ensures Accepted(TwoRelays(MAPPED_PLAIN, MAPPED_LONG), LOCAL)
    ensures !RelaysUsable(TwoRelays(MAPPED_PLAIN, MAPPED_LONG), 20)
  {
    var p := TwoRelays(MAPPED_PLAIN, MAPPED_LONG);
    assert IsLocal(p.nodes[0], LOCAL);
    LoneNodeIsOk(1, [], p);
    assert NodeOk(p.nodes[0], p, RelayEndpoints(p.relays));
    assert NodesOk(p, 1);
    assert !Relay.Apart(p.relays[0], p.relays[1]);
  }

  // ----- two peers -----

  predicate ThreeApart(a: Endpoint, b: Endpoint, c: Endpoint) {
    Normalize(a) == a && Normalize(b) == b && Normalize(c) == c && a != b && a != c && b != c
  }

  lemma {:induction false} SinglesAreApart(a: Endpoint, b: Endpoint)
    requires a != b
    ensures Indexed(Single(2, a).candidates) == {a} && Indexed(Single(3, b).candidates) == {b}
    ensures Rebuildable(map[2 := Single(2, a), 3 := Single(3, b)], {})
  {
    assert Indexed(Single(2, a).candidates) == {a} && Indexed(Single(3, b).candidates) == {b} by {
      assert Single(2, a).candidates[0].endpoint == a && Single(3, b).candidates[0].endpoint == b;
    }
  }

  lemma {:induction false} TwoPeersBuild(a: Endpoint, b: Endpoint)
    requires Normalize(a) == a && Normalize(b) == b && a != b
    ensures Buildable(Rows(TwoPeers(a, b).nodes, 20, []), 3, 1)
  {
    OneSelected(2, a);
    OneSelected(3, b);
    var rows := Rows(TwoPeers(a, b).nodes, 20, []);
    assert rows[1].candidates == Single(2, a).candidates && rows[2].candidates == Single(3, b).candidates;
    SinglesAreApart(a, b);
    assert rows[0].id == 1 && rows[1].id == 2 && rows[2].id == 3;
    assert RemoteCount(rows, 0, 1) == 0;
    assert RemoteCount(rows, 1, 1) == 0;
    assert RemoteCount(rows, 2, 1) == 1;
  }

  lemma {:induction false} TwoPeersIndexed(t: Tables, a: Endpoint, b: Endpoint, r: Endpoint)
    requires ThreeApart(a, b, r) && Matches(t, Rows(TwoPeers(a, b).nodes, 20, []), 3, 1)
    ensures t.peers == map[2 := Single(2, a), 3 := Single(3, b)] && r !in t.endpoints
  {
    TwoPeersListed(a, b);
    IndexOfTwo(t, a, b, r);
  }

  lemma {:induction false} IndexOfTwo(t: Tables, a: Endpoint, b: Endpoint, r: Endpoint)
    requires t.peers == map[2 := Single(2, a), 3 := Single(3, b)] && InverseOf(t.endpoints, CandidatesOwned(t.peers))
    requires a != b && r != a && r != b
    ensures r !in t.endpoints
  {
    SinglesAreApart(a, b);
    assert CandidatesOwned(t.peers)[2] == {a} && CandidatesOwned(t.peers)[3] == {b};
  }

  /** The table holds these two peers. */
  predicate Two(peers: map<nat, Peer>, p: Peer, q: Peer) {
    peers.Keys == {2, 3} && peers[2] == p && peers[3] == q
  }

  lemma {:induction false} TwoRebuild(peers: map<nat, Peer>, p: Peer, q: Peer, clients: set<Endpoint>)
    requires Two(peers, p, q) && p.node != q.node && OwnedBy(p, clients) !! OwnedBy(q, clients)
    ensures Rebuildable(peers, clients)
  {
    assert Separate(p, q, clients) && Separate(q, p, clients);
  }

  function At(p: Peer, e: Endpoint): Peer {
    p.(active := Some(e), probe := None)
  }

  method TwoPeersTable(a: Endpoint, b: Endpoint, r: Endpoint) returns (t: Tables)
    requires ThreeApart(a, b, r)
    ensures Two(t.peers, Single(2, a), Single(3, b)) && r !in t.endpoints
  {
    TwoPeersBuild(a, b);
    var built;
    built, t := BuildPeerDirectory(TwoPeers(a, b).nodes, 1, 20, []);
    TwoPeersIndexed(t, a, b, r);
  }

  /** Node 2 roams to `r`; the index is rebuilt. */
  method RoamedPeer(a: Endpoint, b: Endpoint, r: Endpoint) returns (table: PeerTable, ok: bool)
    requires ThreeApart(a, b, r)
    ensures fresh(table) && table.clients == {} && ok
    ensures Two(table.peers, At(Single(2, a), r), Single(3, b))
  {
    var t := TwoPeersTable(a, b, r);
    table := new PeerTable(t, {});
    OwnedByTwo(a, b, r);
    TwoRebuild(t.peers[2 := At(Single(2, a), r)], At(Single(2, a), r), Single(3, b), {});
    ok := table.Receive(2, r, false, false);
  }

  lemma {:induction false} OwnedByTwo(a: Endpoint, b: Endpoint, r: Endpoint)
    requires ThreeApart(a, b, r)
    ensures OwnedBy(At(Single(2, a), r), {}) !! OwnedBy(Single(3, b), {})
  {
    SinglesAreApart(a, b);
  }

  // ----- an endpoint listed elsewhere -----

  /** Nothing is wrong with the configuration of two nodes itself. */
  lemma {:induction false} TwoPeersConfigured(a: Endpoint, b: Endpoint)
    requires Normalize(a) == a && Normalize(b) == b && a != b
    ensures RelaysUsable(TwoPeers(a, b), 20) && Buildable(Rows(TwoPeers(a, b).nodes, 20, []), 3, 1)
    ensures PeersOf(Rows(TwoPeers(a, b).nodes, 20, []), 3, 1) == map[2 := Single(2, a), 3 := Single(3, b)]
  {
    TwoPeersBuild(a, b);
    TwoPeersListed(a, b);
  }

  /** Node 2, with an established session, roams to an endpoint that the next accepted configuration lists for node 3. */
  method RoamedEndpointIsListedElsewhere(a: Endpoint, b: Endpoint, roamed: Endpoint) returns (roams: bool, ok: bool)
    requires ThreeApart(a, b, roamed) && Usual(a) && Usual(b) && Usual(roamed)
    ensures Accepted(TwoPeers(a, b), LOCAL) && Accepted(TwoPeers(a, roamed), LOCAL)
    ensures roams && !ok
  {
    TwoPeersAccepted(a, b);
    TwoPeersAccepted(a, roamed);
    var table;
    table, roams := RoamedPeer(a, b, roamed);
    var manager := new Relay.RelayManager(map[]);
    ok := ListedElsewhere(table, manager, a, roamed);
  }

  method ListedElsewhere(table: PeerTable, manager: Relay.RelayManager, a: Endpoint, roamed: Endpoint) returns (ok: bool)
    requires Normalize(a) == a && Normalize(roamed) == roamed && a != roamed && manager.Valid() && manager.clients == map[]
    requires 2 in table.peers && table.peers[2].node == 2 && table.peers[2].active == Some(roamed)
    modifies table, manager
    ensures !ok
  {
    TwoPeersConfigured(a, roamed);
    CarriedTrespass(table.peers, a, roamed);
    var failed, relays;
    ok, failed, relays := table.ApplyConfiguration(manager, TwoPeers(a, roamed), 1, 0, 20, {2});
    if relays != [] { FirstIsClient(relays, manager.clients.Keys); }
    DistinctFit(failed, {});
  }

  lemma {:induction false} FirstIsClient(relays: seq<Candidate>, clients: set<Endpoint>)
    requires AreClients(relays, clients) && relays != []
    ensures Normalize(relays[0].endpoint) in clients
  {
  }

  /** Different relays, taken from a set, are no more than its size. */
  lemma {:induction false} DistinctFit(failed: seq<Endpoint>, from: set<Endpoint>)
    requires Relay.Distinct(failed) && forall e :: e in failed ==> e in from
    ensures |failed| <= |from|
  {
    if failed != [] {
      var last := failed[|failed| - 1];
      assert last in failed;
      DistinctFit(failed[..|failed| - 1], from - {last});
    }
  }

  lemma {:induction false} CarriedTrespass(was: map<nat, Peer>, a: Endpoint, roamed: Endpoint)
    requires 2 in was && was[2].node == 2 && was[2].active == Some(roamed)
    ensures SomeoneTrespasses(Carried(was, map[2 := Single(2, a), 3 := Single(3, roamed)], {2}), {})
  {
    var peers := Carried(was, map[2 := Single(2, a), 3 := Single(3, roamed)], {2});
    assert peers[3].candidates[0].endpoint == roamed && roamed in Indexed(peers[3].candidates);
    assert Trespasses(peers[2], peers[3], {});
  }

  // ----- a relay removed -----

  /** Peers 2 and 3 are in use at `r`. */
  ghost predicate BothOn(peers: map<nat, Peer>, r: Endpoint) {
    && peers.Keys == {2, 3} && peers[2].node == 2 && peers[3].node == 3
    && peers[2].active == Some(r) && peers[3].active == Some(r)
  }

  /**
   A configuration removes the only relay while two established peers use it. It is
   applied exactly if the relay still has a lease: only then is it reported, and the
   peers moved off it.
   */
  method RemovedRelay(table: PeerTable, manager: Relay.RelayManager, a: Endpoint, b: Endpoint, r: Endpoint) returns (ok: bool)
    requires ThreeApart(a, b, r) && BothOn(table.peers, r) && manager.Valid() && manager.clients.Keys == {r}
    modifies table, manager
    ensures ok <==> old(manager.clients)[r].lease.Some?
  {
    ghost var was := table.peers;
    TwoPeersConfigured(a, b);
    var failed, relays;
    ok, failed, relays := table.ApplyConfiguration(manager, TwoPeers(a, b), 1, 0, 20, {2, 3});
    if relays != [] { FirstIsClient(relays, manager.clients.Keys); }
    OnlyOne(failed, r);
    RemovedTrespass(was, a, b, r, failed);
  }

  lemma {:induction false} OnlyOne(failed: seq<Endpoint>, r: Endpoint)
    requires Relay.Distinct(failed) && forall e :: e in failed ==> e in {r}
    ensures failed == [] || failed == [r]
  {
    DistinctFit(failed, {r});
    if |failed| == 1 { assert failed[0] in failed; }
  }

  lemma {:induction false} RemovedTrespass(was: map<nat, Peer>, a: Endpoint, b: Endpoint, r: Endpoint, failed: seq<Endpoint>)
    requires BothOn(was, r) && ThreeApart(a, b, r) && (failed == [] || failed == [r])
    ensures SomeoneTrespasses(ReroutedAll(Carried(was, map[2 := Single(2, a), 3 := Single(3, b)], {2, 3}), failed), {}) <==> failed == []
  {
    var carried := Carried(was, map[2 := Single(2, a), 3 := Single(3, b)], {2, 3});
    if failed == [] {
      assert Trespasses(carried[2], carried[3], {});
    } else {
      assert ReroutedAll(carried, [r]) == Rerouted(carried, r, carried.Keys) by {
        assert [r][..0] == [] && ReroutedAll(carried, []) == carried;
      }
      OnlyOther(Single(2, a).candidates, r);
      OnlyOther(Single(3, b).candidates, r);
      SinglesAreApart(a, b);
      assert Moved(carried[2], r) == Single(2, a) && Moved(carried[3], r) == Single(3, b);
    }
  }

  lemma {:induction false} OnlyOther(cs: seq<Candidate>, r: Endpoint)
    requires |cs| == 1 && cs[0].endpoint != r
    ensures NextPath(cs, r) == Some(cs[0].endpoint)
  {
    NextPathIsCandidate(cs, r);
  }

  /**
   The run in which it fails: the relay grants a lease until time 10, both peers move to
   it, a datagram forwarded at time 10 drops the lease unreported, and the relay is removed.
   */
  method LostLeaseEndsTheRun(table: PeerTable, c: Relay.Client, a: Endpoint, b: Endpoint, r: Endpoint) returns (ok: bool)
    requires ThreeApart(a, b, r) && table.peers.Keys == {2, 3} && table.peers[2].node == 2 && table.peers[3].node == 3
    requires c.endpoint == r && c.lease.None? && c.pending == Some(Relay.Registration(7, 0, 1)) && c.configExpiresAt > 10
    requires table.clients == {r}
    modifies table
    ensures !ok
  {
    var granted := Relay.Run(Relay.Life(c, [], 0), [Relay.Registered(7, 1, 10, 0)]);
    var lost := Relay.Step(granted, Relay.Forward(Relay.Clocks(10, 10, 10), true));
    Relay.UnreportedLossHappens(c);
    assert [Relay.Registered(7, 1, 10, 0)][..0] == [];
    var first := table.Receive(2, r, true, false);
    var second := table.Receive(3, r, true, false);
    var manager := new Relay.RelayManager(map[r := lost.client]);
    ok := RemovedRelay(table, manager, a, b, r);
  }

  // ----- an answer from a forgotten endpoint -----

  /**
   Node 2 roams to `r`, its listed endpoint `a` is probed and expires, its answer brings
   it back to `a`, and a datagram of node 3 from `a` makes the rebuild fail.
   */
  method StrayAnswerEndsTheRun(a: Endpoint, b: Endpoint, r: Endpoint) returns (steps: bool, ok: bool)
    requires ThreeApart(a, b, r)
    ensures steps && !ok
  {
    var table;
    table, steps := ForgottenProbe(a, b, r);
    table.ReceiveAnswer(2, a);
    assert a in ActiveOwned(table.peers[2], {});
    RoamingCollides(table.peers, 3, At(table.peers[3], a), a, {});
    ok := table.Receive(3, a, false, false);
  }

  function Bare(node: nat, e: Endpoint, probe: Option<Probe>): Peer {
    Peer(node, [], Some(e), probe)
  }

  /** The first half of it: the probe of `a` is under way, and the index no longer knows `a`. */
  method ForgottenProbe(a: Endpoint, b: Endpoint, r: Endpoint) returns (table: PeerTable, steps: bool)
    requires ThreeApart(a, b, r)
    ensures fresh(table) && table.clients == {} && steps && a !in table.endpoints
    ensures Two(table.peers, Bare(2, r, Some(Probe(a, true))), Bare(3, b, None))
  {
    table, steps := RoamedPeer(a, b, r);
    table.peers := table.peers[2 := Probing(table.peers[2], a)];
    ExpiredPeers(table.peers, table.clients, a, b, r);
    var pruned := table.PruneExpired(100, {2, 3});
    BothExpired(table.Value(), table.clients, a, b, r);
    steps := steps && pruned;
  }

  lemma {:induction false} ExpiredPeers(peers: map<nat, Peer>, clients: set<Endpoint>, a: Endpoint, b: Endpoint, r: Endpoint)
    requires clients == {} && Two(peers, Probing(At(Single(2, a), r), a), Single(3, b)) && ThreeApart(a, b, r)
    ensures var bare := AllPruned(peers, 100, {2, 3}, peers.Keys);
      Two(bare, Bare(2, r, Some(Probe(a, true))), Bare(3, b, None)) && Rebuildable(bare, clients)
  {
    var bare := AllPruned(peers, 100, {2, 3}, peers.Keys);
    ProbedExpires(a, r);
    OneExpires(b);
    assert Two(bare, Bare(2, r, Some(Probe(a, true))), Bare(3, b, None));
    TwoRebuild(bare, bare[2], bare[3], {});
  }

  lemma {:induction false} ProbedExpires(a: Endpoint, r: Endpoint)
    requires a != r
    ensures Pruned(Probing(At(Single(2, a), r), a), 100, true) == Bare(2, r, Some(Probe(a, true)))
  {
    assert Single(2, a).candidates[0].endpoint == a;
    OneExpires(a);
  }

  lemma {:induction false} OneExpires(e: Endpoint)
    ensures Unexpired([Candidate(Mapped, e, DIRECT_PRIORITY, 100)], 100) == []
  {
    assert Unexpired([Candidate(Mapped, e, DIRECT_PRIORITY, 100)][1..], 100) == [];
  }

  /** Both listed endpoints have expired; only the endpoints in use are indexed. */
  lemma {:induction false} BothExpired(t: Tables, clients: set<Endpoint>, a: Endpoint, b: Endpoint, r: Endpoint)
    requires Two(t.peers, Bare(2, r, Some(Probe(a, true))), Bare(3, b, None)) && a != b && r != a
    requires Consistent(t, clients) && clients == {}
    ensures a !in t.endpoints
  {
    assert OwnedBy(t.peers[2], {}) == {r} && OwnedBy(t.peers[3], {}) == {b};
  }
}
