/**
 The endpoint index of the data plane: how it is rebuilt from the peers' state, what
 keeps it correct between rebuilds, and when a new configuration makes a rebuild fail.
 */
module EndpointIndex {
  import opened Prelude
  import opened Candidates
  import opened Configuration
  import opened Directory
  import Relay

  // ----- rebuilding the index -----

  /** The endpoint in use, unless it is that of a relay client. */
  function ActiveOwned(p: Peer, clients: set<Endpoint>): set<Endpoint> {
    if p.active.Some? && Normalize(p.active.value) !in clients then {p.active.value} else {}
  }

  function OwnedBy(p: Peer, clients: set<Endpoint>): set<Endpoint> {
    Indexed(p.candidates) + ActiveOwned(p, clients)
  }

  function Owned(peers: map<nat, Peer>, clients: set<Endpoint>): map<nat, set<Endpoint>> {
    map v | v in peers :: OwnedBy(peers[v], clients)
  }

  predicate Separate(p: Peer, q: Peer, clients: set<Endpoint>) {
    p.node != q.node && OwnedBy(p, clients) !! OwnedBy(q, clients)
  }

  ghost predicate Rebuildable(peers: map<nat, Peer>, clients: set<Endpoint>) {
    forall v, w :: v in peers && w in peers && v != w ==> Separate(peers[v], peers[w], clients)
  }

  /** The endpoints in the order of the loop: candidates that are not relays, then the active one. */
  function Chain(p: Peer, clients: set<Endpoint>, n: nat): (es: seq<Endpoint>)
    requires n <= |p.candidates|
    ensures forall e :: e in es <==> (exists i :: n <= i < |p.candidates| && !p.candidates[i].kind.Relay? && p.candidates[i].endpoint == e)
                                     || e in ActiveOwned(p, clients)
    decreases |p.candidates| - n
  {
    if n == |p.candidates| then
      if p.active.Some? && Normalize(p.active.value) !in clients then [p.active.value] else []
    else (if p.candidates[n].kind.Relay? then [] else [p.candidates[n].endpoint]) + Chain(p, clients, n + 1)
  }

  method IndexOwned(p: Peer, clients: set<Endpoint>, v: nat, index: map<Endpoint, nat>) returns (ok: bool, index': map<Endpoint, nat>)
    ensures ok <==> OwnedBy(p, clients) !! index.Keys
    ensures ok ==> AddsTo(index, v, OwnedBy(p, clients), index')
  {
    var es := Chain(p, clients, 0);
    assert forall e :: e in es <==> e in OwnedBy(p, clients);
    ok, index' := IndexAll(es, v, index);
    assert (set e | e in es) == OwnedBy(p, clients);
  }

  /** A peer may repeat its own endpoints, but not those in the index. */
  method IndexAll(es: seq<Endpoint>, v: nat, index: map<Endpoint, nat>) returns (ok: bool, index': map<Endpoint, nat>)
    ensures ok <==> (set e | e in es) !! index.Keys
    ensures ok ==> AddsTo(index, v, (set e | e in es), index')
  {
    index' := index;
    var mine: set<Endpoint> := {};
    for n := 0 to |es|
      invariant mine == (set e | e in es[..n]) && mine !! index.Keys && AddsTo(index, v, mine, index')
    {
      var e := es[n];
      assert es[..n + 1] == es[..n] + [e];
      if e !in mine {
        mine := mine + {e};
        if e in index' {
          assert e in index && e in es;
          return false, index';
        }
        index' := index'[e := v];
      }
    }
    assert es[..|es|] == es;
    return true, index';
  }

  /** A complete and correct index for the peers of `t`. */
  ghost predicate Consistent(t: Tables, clients: set<Endpoint>) {
    Rebuildable(t.peers, clients) && InverseOf(t.endpoints, Owned(t.peers, clients)) && IdsMatch(t)
  }

  ghost predicate PartOf(part: map<nat, Peer>, whole: map<nat, Peer>) {
    part.Keys <= whole.Keys && forall v :: v in part ==> part[v] == whole[v]
  }

  lemma {:induction false} PartIsRebuildable(part: map<nat, Peer>, whole: map<nat, Peer>, clients: set<Endpoint>)
    requires PartOf(part, whole) && Rebuildable(whole, clients)
    ensures Rebuildable(part, clients)
  {
  }

  class PeerTable {
    var peers: map<nat, Peer>
    var clients: set<Endpoint>
    var endpoints: map<Endpoint, nat>
    var ids: map<nat, nat>

    constructor (t: Tables, clients: set<Endpoint>)
      ensures Value() == t && this.clients == clients
    {
      peers, endpoints, ids := t.peers, t.endpoints, t.ids;
      this.clients := clients;
    }

    /** Succeeds exactly when no two peers share a node or an endpoint; a failure leaves the old index in place. */
    method RebuildEndpointIndex() returns (ok: bool)
      modifies this`endpoints, this`ids
      ensures ok <==> Rebuildable(peers, clients)
      ensures ok ==> Consistent(Tables(peers, endpoints, ids), clients)
      ensures !ok ==> endpoints == old(endpoints) && ids == old(ids)
    {
      var t := Tables(map[], map[], map[]);
      while t.peers.Keys != peers.Keys
        invariant PartOf(t.peers, peers) && Consistent(t, clients)
        invariant endpoints == old(endpoints) && ids == old(ids)
        decreases peers.Keys - t.peers.Keys
      {
        var rest := peers.Keys - t.peers.Keys;
        assert peers.Keys == t.peers.Keys + rest;
        var v :| v in rest;
        var fine;
        fine, t := IndexPeer(t, v, peers[v], clients);
        if !fine {
          if Rebuildable(peers, clients) { PartIsRebuildable(t.peers, peers, clients); }
          return false;
        }
      }
      assert t.peers == peers;
      endpoints, ids := t.endpoints, t.ids;
      return true;
    }

    ghost function Value(): Tables
      reads this
    {
      Tables(peers, endpoints, ids)
    }

    /** An authenticated datagram may move its peer to the source; a direct source that the index does not know calls for a rebuild. */
    method Receive(v: nat, source: Endpoint, handshake: bool, fallback: bool) returns (ok: bool)
      requires v in peers
      modifies this`peers, this`endpoints, this`ids
      ensures peers == old(peers)[v := Received(old(peers)[v], source, clients, handshake, fallback)]
      ensures !Calls(old(endpoints), peers[v], source, clients) ==> ok && endpoints == old(endpoints) && ids == old(ids)
      ensures Calls(old(endpoints), peers[v], source, clients) ==>
        (ok <==> Rebuildable(peers, clients)) && (ok ==> Consistent(Value(), clients))
    {
      var p := peers[v];
      var relayed := Normalize(source) in clients;
      var known := source in endpoints;
      var awaiting := !handshake && p.probe.Some? && p.probe.value.endpoint == source;
      var retain := !relayed && handshake && p.active == Some(source) && fallback;
      if !retain && !awaiting && (handshake || p.active != Some(source)) {
        p := p.(active := Some(source), probe := None);
      }
      peers := peers[v := p];
      ok := true;
      if !relayed && !known && p.active == Some(source) {
        ok := RebuildEndpointIndex();
      }
    }

    /** The answer to a probe may move its peer, and nothing is rebuilt, whether the index still knows the endpoint or not. */
    method ReceiveAnswer(v: nat, source: Endpoint)
      requires v in peers
      modifies this`peers
      ensures peers == old(peers)[v := Answered(old(peers)[v], source)]
    {
      peers := peers[v := Answered(peers[v], source)];
    }

    /** Every peer on a failed relay moves on to its next candidate. */
    method FailRelayPath(failed: Endpoint)
      modifies this`peers
      ensures peers == Rerouted(old(peers), failed, old(peers).Keys)
    {
      var keys, done := peers.Keys, {};
      while done != keys
        invariant done <= keys == peers.Keys == old(peers).Keys
        invariant peers == Rerouted(old(peers), failed, done)
        decreases keys - done
      {
        StillOpen(done, keys);
        var v :| v in keys - done;
        ReroutedStep(old(peers), failed, done, v);
        if peers[v].active == Some(failed) {
          peers := peers[v := peers[v].(active := NextPath(peers[v].candidates, failed), probe := None)];
        } else {
          assert peers[v := peers[v]] == peers;
        }
        done := done + {v};
      }
    }

    /** Expired candidates go, and the index is rebuilt. */
    method PruneExpired(wall: nat, established: set<nat>) returns (ok: bool)
      modifies this`peers, this`endpoints, this`ids
      ensures peers == AllPruned(old(peers), wall, established, old(peers).Keys)
      ensures (ok <==> Rebuildable(peers, clients)) && (ok ==> Consistent(Value(), clients))
    {
      var keys, done := peers.Keys, {};
      while done != keys
        invariant done <= keys == peers.Keys == old(peers).Keys
        invariant peers == AllPruned(old(peers), wall, established, done)
        invariant endpoints == old(endpoints) && ids == old(ids)
        decreases keys - done
      {
        StillOpen(done, keys);
        var v :| v in keys - done;
        PrunedStep(old(peers), wall, established, done, v);
        peers := peers[v := Pruned(peers[v], wall, v in established)];
        done := done + {v};
      }
      ok := RebuildEndpointIndex();
    }

    /**
     A new configuration: the relays become clients, the directory for its nodes is built,
     peers are carried over, those on a relay that lost its lease are rerouted, and the
     index is rebuilt. It is applied exactly when the relays can be used, the directory
     can be built, and nobody trespasses. `established`: the sessions the policy keeps.
     */
    method ApplyConfiguration(manager: Relay.RelayManager, p: Payload, local: nat, now: nat, wall: nat, established: set<nat>)
      returns (ok: bool, failed: seq<Endpoint>, relays: seq<Candidate>)
      requires manager.Valid()
      modifies this, manager
      ensures manager.Valid()
      ensures !RelaysUsable(p, wall) ==> !ok && unchanged(this) && unchanged(manager)
      ensures RelaysUsable(p, wall) ==> manager.clients.Keys == (set i | 0 <= i < |p.relays| :: Normalize(p.relays[i].endpoint))
      ensures RelaysUsable(p, wall) ==> RelayList(relays) && AreClients(relays, manager.clients.Keys)
      ensures RelaysUsable(p, wall) && !Buildable(Rows(p.nodes, wall, relays), |p.nodes|, local) ==> !ok && unchanged(this)
      // Reported are exactly the relays that had a lease and have none now, each once.
      ensures Relay.Distinct(failed)
      ensures RelaysUsable(p, wall) ==> forall e :: e in failed <==>
        e in old(manager.clients) && old(manager.clients)[e].lease.Some? && (e !in manager.clients || manager.clients[e].lease.None?)
      ensures RelaysUsable(p, wall) && Buildable(Rows(p.nodes, wall, relays), |p.nodes|, local) ==>
        && clients == manager.clients.Keys
        && peers == Configured(old(peers), p, local, wall, relays, established, failed)
        && (ok <==> !SomeoneTrespasses(peers, clients))
        && (ok ==> Consistent(Value(), clients))
    {
      failed, relays := [], [];
      var fine, desired := Relay.RelayClients(p.relays, now, wall);
      if !fine {
        return false, failed, relays;
      }
      failed := manager.ApplyConfiguration(desired);
      ghost var listed;
      relays, listed := manager.ListCandidates();
      KeysAreNormalized(p.relays, desired, now);
      var built, t := BuildPeerDirectory(p.nodes, local, wall, relays);
      if !built {
        return false, failed, relays;
      }
      ok := Adopt(t, desired.Keys, established, failed, Rows(p.nodes, wall, relays), local);
    }

    /** Its second half, from the directory `built`. */
    method Adopt(built: Tables, relayed: set<Endpoint>, established: set<nat>, failed: seq<Endpoint>, ghost rows: seq<Row>, ghost local: nat)
      returns (ok: bool)
      requires Matches(built, rows, |rows|, local)
      modifies this
      ensures clients == relayed && peers == ReroutedAll(Carried(old(peers), built.peers, established), failed)
      ensures ok <==> !SomeoneTrespasses(peers, clients)
      ensures ok ==> Consistent(Value(), clients)
    {
      peers, clients := Carried(peers, built.peers, established), relayed;
      for k := 0 to |failed|
        invariant peers == ReroutedAll(Carried(old(peers), built.peers, established), failed[..k]) && clients == relayed
      {
        assert failed[..k + 1][..k] == failed[..k];
        FailRelayPath(failed[k]);
      }
      assert failed[..|failed|] == failed;
      ConfigurationFailsIffTrespass(old(peers), built, rows, local, established, failed, clients);
      ok := RebuildEndpointIndex();
    }
  }

  /** The new state of a peer after an authenticated datagram: `fallback` says that its path was chosen by a failed handshake. */
  function Received(p: Peer, source: Endpoint, clients: set<Endpoint>, handshake: bool, fallback: bool): Peer {
    var awaiting := !handshake && p.probe.Some? && p.probe.value.endpoint == source;
    var retain := Normalize(source) !in clients && handshake && p.active == Some(source) && fallback;
    if !retain && !awaiting && (handshake || p.active != Some(source)) then p.(active := Some(source), probe := None) else p
  }

  /** A peer in use at a direct endpoint that the index does not know. */
  predicate Calls(index: map<Endpoint, nat>, p: Peer, source: Endpoint, clients: set<Endpoint>) {
    Normalize(source) !in clients && source !in index && p.active == Some(source)
  }

  function Answered(p: Peer, source: Endpoint): Peer {
    if p.probe.None? || p.probe.value.endpoint != source then p
    else if p.probe.value.promotes then p.(active := Some(source), probe := None)
    else p.(probe := None)
  }

  /**
   An authenticated datagram moves its peer to the source unless a probe awaits the answer
   from there; a handshake message does in any case. A peer that is there already keeps its
   probe, unless the message is a handshake's and does not confirm a direct fallback path.
   */
  lemma {:induction false} ReceivedMoves(p: Peer, source: Endpoint, clients: set<Endpoint>, handshake: bool, fallback: bool)
    ensures var q := Received(p, source, clients, handshake, fallback);
      && q.node == p.node && q.candidates == p.candidates
      && (q.active == Some(source) <==> p.active == Some(source) || handshake || p.probe.None? || p.probe.value.endpoint != source)
      && (q.active != Some(source) ==> q == p)
      && (p.active == Some(source) ==>
            q.probe == if handshake && (!fallback || Normalize(source) in clients) then None else p.probe)
      && (p.active != Some(source) && q.active == Some(source) ==> q.probe == None)
  {
  }

  /** An answer ends exactly the probe of its source, and moves the peer there exactly if the probe was for a better path. */
  lemma {:induction false} AnswerMoves(p: Peer, source: Endpoint)
    ensures var q := Answered(p, source);
      && q.active == (if p.probe == Some(Probe(source, true)) then Some(source) else p.active)
      && (q.probe == None <==> p.probe == None || p.probe.value.endpoint == source) && (q.probe.Some? ==> q.probe == p.probe)
      && q.node == p.node && q.candidates == p.candidates
  {
  }

  /** A probe of the best candidate, or of the path in use, whose latency it then measures. */
  function Probing(p: Peer, target: Endpoint): Peer {
    if p.probe.None? && (target in EndpointsOf(p.candidates) || p.active == Some(target))
    then p.(probe := Some(Probe(target, p.active != Some(target)))) else p
  }

  predicate RelaysUsable(p: Payload, wall: nat) {
    |p.relays| <= MAX_RELAYS && Relay.Usable(p.relays, |p.relays|, wall)
  }

  lemma {:induction false} KeysAreNormalized(relays: seq<RelayService>, clients: map<Endpoint, Relay.Client>, now: nat)
    requires Relay.ClientsFor(clients, relays, |relays|, now)
    ensures forall e :: e in clients ==> Normalize(e) == e
  {
  }

  /** The table under a new configuration. */
  function Configured(was: map<nat, Peer>, p: Payload, local: nat, wall: nat, relays: seq<Candidate>, established: set<nat>,
                      failed: seq<Endpoint>): map<nat, Peer>
  {
    ReroutedAll(Carried(was, PeersOf(Rows(p.nodes, wall, relays), |p.nodes|, local), established), failed)
  }

  function Moved(p: Peer, failed: Endpoint): Peer {
    if p.active == Some(failed) then p.(active := NextPath(p.candidates, failed), probe := None) else p
  }

  function Rerouted(peers: map<nat, Peer>, failed: Endpoint, done: set<nat>): map<nat, Peer> {
    map v | v in peers :: if v in done then Moved(peers[v], failed) else peers[v]
  }

  /** One failed relay after the other. */
  function ReroutedAll(peers: map<nat, Peer>, failed: seq<Endpoint>): map<nat, Peer> {
    if failed == [] then peers
    else
      var before := ReroutedAll(peers, failed[..|failed| - 1]);
      Rerouted(before, failed[|failed| - 1], before.Keys)
  }

  lemma {:induction false} ReroutedStep(peers: map<nat, Peer>, failed: Endpoint, done: set<nat>, v: nat)
    requires v in peers && v !in done
    ensures Rerouted(peers, failed, done)[v := Moved(peers[v], failed)] == Rerouted(peers, failed, done + {v})
    ensures Rerouted(peers, failed, done)[v] == peers[v]
  {
  }

  function AllPruned(peers: map<nat, Peer>, wall: nat, established: set<nat>, done: set<nat>): map<nat, Peer> {
    map v | v in peers :: if v in done then Pruned(peers[v], wall, v in established) else peers[v]
  }

  lemma {:induction false} PrunedStep(peers: map<nat, Peer>, wall: nat, established: set<nat>, done: set<nat>, v: nat)
    requires v in peers && v !in done
    ensures AllPruned(peers, wall, established, done)[v := Pruned(peers[v], wall, v in established)] ==
      AllPruned(peers, wall, established, done + {v})
    ensures AllPruned(peers, wall, established, done)[v] == peers[v]
  {
  }

  /** Relay candidates are relay clients. */
  ghost predicate RelaysKnown(peers: map<nat, Peer>, clients: set<Endpoint>) {
    forall v, c :: v in peers && c in peers[v].candidates && c.kind.Relay? ==> Normalize(c.endpoint) in clients
  }

  /** On failure the peer is in the returned table all the same, so that the conflict shows. */
  method IndexPeer(t: Tables, v: nat, p: Peer, clients: set<Endpoint>) returns (ok: bool, t': Tables)
    requires v !in t.peers && Consistent(t, clients)
    ensures t'.peers == t.peers[v := p]
    ensures ok <==> Rebuildable(t'.peers, clients)
    ensures ok ==> Consistent(t', clients)
  {
    t' := t.(peers := t.peers[v := p]);
    if p.node in t.ids {
      SharedIsConflict(t, v, p, clients);
      return false, t';
    }
    var fine, index := IndexOwned(p, clients, v, t.endpoints);
    if !fine {
      SharedIsConflict(t, v, p, clients);
      return false, t';
    }
    FreeIsRebuildable(t, v, p, clients);
    OwnerKeepsIndex(t, v, p, clients, index);
    EntryKeepsIds(t, v, p, index);
    return true, Tables(t.peers[v := p], index, t.ids[p.node := v]);
  }

  lemma {:induction false} OwnerKeepsIndex(t: Tables, v: nat, p: Peer, clients: set<Endpoint>, index: map<Endpoint, nat>)
    requires v !in t.peers && InverseOf(t.endpoints, Owned(t.peers, clients))
    requires OwnedBy(p, clients) !! t.endpoints.Keys && AddsTo(t.endpoints, v, OwnedBy(p, clients), index)
    ensures InverseOf(index, Owned(t.peers[v := p], clients))
  {
    InverseGrows(t.endpoints, Owned(t.peers, clients), v, OwnedBy(p, clients), index);
    assert Owned(t.peers[v := p], clients) == Owned(t.peers, clients)[v := OwnedBy(p, clients)];
  }

  lemma {:induction false} SharedIsConflict(t: Tables, v: nat, p: Peer, clients: set<Endpoint>)
    requires v !in t.peers && Consistent(t, clients)
    requires p.node in t.ids || !(OwnedBy(p, clients) !! t.endpoints.Keys)
    ensures !Rebuildable(t.peers[v := p], clients)
  {
    var all := t.peers[v := p];
    var w: nat;
    if p.node in t.ids {
      w := t.ids[p.node];
    } else {
      var e :| e in OwnedBy(p, clients) && e in t.endpoints;
      w := t.endpoints[e];
      assert e in Owned(t.peers, clients)[w];
    }
    assert !Separate(all[v], all[w], clients);
  }

  lemma {:induction false} FreeIsRebuildable(t: Tables, v: nat, p: Peer, clients: set<Endpoint>)
    requires v !in t.peers && Consistent(t, clients)
    requires p.node !in t.ids && OwnedBy(p, clients) !! t.endpoints.Keys
    ensures Rebuildable(t.peers[v := p], clients)
  {
    forall w | w in t.peers ensures Separate(p, t.peers[w], clients) && Separate(t.peers[w], p, clients) {
      forall e | e in OwnedBy(t.peers[w], clients) ensures e !in OwnedBy(p, clients) {
        assert e in Owned(t.peers, clients)[w];
      }
    }
  }

  // ----- a directory as built -----

  /** Relay clients are known under normalized endpoints. */
  ghost predicate AreClients(relays: seq<Candidate>, clients: set<Endpoint>) {
    forall i :: 0 <= i < |relays| ==> Normalize(relays[i].endpoint) in clients
  }

  lemma {:induction false} FreshPeerOwnsItsCandidates(n: Node, now: nat, relays: seq<Candidate>, clients: set<Endpoint>)
    requires RelayList(relays) && AreClients(relays, clients)
    ensures OwnedBy(PeerOf(Row(n.id, n.ip, Selected(n, now, relays))), clients) == Indexed(Selected(n, now, relays))
  {
    var cs := Selected(n, now, relays);
    var d := DirectPart(n.candidates, n.direct, n.notAfter, now, relays);
    DirectPartIsSound(n.candidates, n.direct, n.notAfter, now, relays);
    if cs != [] {
      if d == [] {
        assert cs[0] == relays[0];
      } else {
        assert cs[0] == d[0] && d[0] in d;
        assert cs[0].endpoint in Indexed(cs);
      }
    }
  }

  /** The index of a new directory is the one that a rebuild computes. */
  lemma {:induction false} BuiltIsRebuilt(t: Tables, nodes: seq<Node>, local: nat, now: nat, relays: seq<Candidate>, clients: set<Endpoint>,
                       rebuilt: Tables)
    requires RelayList(relays) && AreClients(relays, clients)
    requires Matches(t, Rows(nodes, now, relays), |nodes|, local)
    requires rebuilt.peers == t.peers && Consistent(rebuilt, clients)
    ensures rebuilt.endpoints == t.endpoints
  {
    OwnershipAgrees(t, nodes, local, now, relays, clients);
    InverseIsUnique(t.endpoints, rebuilt.endpoints, CandidatesOwned(t.peers));
  }

  lemma {:induction false} OwnershipAgrees(t: Tables, nodes: seq<Node>, local: nat, now: nat, relays: seq<Candidate>, clients: set<Endpoint>)
    requires RelayList(relays) && AreClients(relays, clients) && t.peers == PeersOf(Rows(nodes, now, relays), |nodes|, local)
    ensures Owned(t.peers, clients) == CandidatesOwned(t.peers)
  {
    forall v | v in t.peers ensures OwnedBy(t.peers[v], clients) == Indexed(t.peers[v].candidates) {
      var i := NodeAt(Rows(nodes, now, relays), |nodes|, local, v);
      FreshPeerOwnsItsCandidates(nodes[i], now, relays, clients);
    }
  }

  /** A directory that could be built can be rebuilt at once. */
  lemma {:induction false} BuiltIsRebuildable(t: Tables, nodes: seq<Node>, local: nat, now: nat, relays: seq<Candidate>, clients: set<Endpoint>)
    requires RelayList(relays) && AreClients(relays, clients)
    requires Matches(t, Rows(nodes, now, relays), |nodes|, local)
    ensures Rebuildable(t.peers, clients)
  {
    BuiltIsLoose(t, nodes, local, now, relays, clients);
    LooseIsRebuildable(t, CandidatesOwned(t.peers), clients);
  }

  lemma {:induction false} BuiltIsLoose(t: Tables, nodes: seq<Node>, local: nat, now: nat, relays: seq<Candidate>, clients: set<Endpoint>)
    requires RelayList(relays) && AreClients(relays, clients) && Matches(t, Rows(nodes, now, relays), |nodes|, local)
    ensures Loose(t, CandidatesOwned(t.peers), clients) && NoneStray(t, clients)
  {
    OwnershipAgrees(t, nodes, local, now, relays, clients);
    BuiltRelaysAreKnown(t, nodes, local, now, relays, clients);
    var origin := CandidatesOwned(t.peers);
    forall v, w | v in origin && w in origin && v != w ensures origin[v] !! origin[w] {
      InverseNeedsOneOwner(t.endpoints, origin, v, w);
    }
    forall v | v in t.peers
      ensures Housed(t.endpoints, v, t.peers[v], origin[v], clients)
      ensures ActiveOwned(t.peers[v], clients) <= t.endpoints.Keys
    {
      assert Owned(t.peers, clients)[v] == OwnedBy(t.peers[v], clients);
      OwnedIsIndexed(t.endpoints, Owned(t.peers, clients), v);
    }
  }

  lemma {:induction false} BuiltRelaysAreKnown(t: Tables, nodes: seq<Node>, local: nat, now: nat, relays: seq<Candidate>, clients: set<Endpoint>)
    requires RelayList(relays) && AreClients(relays, clients) && t.peers == PeersOf(Rows(nodes, now, relays), |nodes|, local)
    ensures RelaysKnown(t.peers, clients)
  {
    forall v, c | v in t.peers && c in t.peers[v].candidates && c.kind.Relay? ensures Normalize(c.endpoint) in clients {
      var i := NodeAt(Rows(nodes, now, relays), |nodes|, local, v);
      SelectedRelaysAreRelays(nodes[i], now, relays, c);
    }
  }

  lemma {:induction false} SelectedRelaysAreRelays(n: Node, now: nat, relays: seq<Candidate>, c: Candidate)
    requires RelayList(relays) && c in Selected(n, now, relays) && c.kind.Relay?
    ensures exists i :: 0 <= i < |relays| && relays[i] == c
  {
    DirectPartIsSound(n.candidates, n.direct, n.notAfter, now, relays);
    var d := DirectPart(n.candidates, n.direct, n.notAfter, now, relays);
    var cs := Selected(n, now, relays);
    var i :| 0 <= i < |cs| && cs[i] == c;
    assert forall k :: 0 <= k < |d| ==> d[k] in d && cs[k] == d[k];
    assert i >= |d|;
    assert relays[i - |d|] == c;
  }

  // ----- what keeps the table consistent -----

  lemma {:induction false} ShrunkOwnership(peers: map<nat, Peer>, v: nat, p: Peer, clients: set<Endpoint>)
    requires Rebuildable(peers, clients) && v in peers
    requires p.node == peers[v].node && OwnedBy(p, clients) <= OwnedBy(peers[v], clients)
    ensures Rebuildable(peers[v := p], clients)
  {
    forall w | w in peers && w != v ensures Separate(p, peers[w], clients) && Separate(peers[w], p, clients) {
      assert Separate(peers[v], peers[w], clients) && Separate(peers[w], peers[v], clients);
    }
  }

  /**
   A peer in the index: its candidates lead to it, and so does the endpoint in use,
   unless that is one of its original candidates which the index has forgotten.
   */
  ghost predicate Housed(index: map<Endpoint, nat>, v: nat, p: Peer, own: set<Endpoint>, clients: set<Endpoint>) {
    && (forall e :: e in Indexed(p.candidates) ==> e in own && e in index && index[e] == v)
    && (forall e :: e in ActiveOwned(p, clients) ==> if e in index then index[e] == v else e in own)
    && (forall c :: c in p.candidates && c.kind.Relay? ==> Normalize(c.endpoint) in clients)
  }

  ghost predicate Loose(t: Tables, origin: map<nat, set<Endpoint>>, clients: set<Endpoint>) {
    && origin.Keys == t.peers.Keys && IdsMatch(t)
    && (forall v, w :: v in origin && w in origin && v != w ==> origin[v] !! origin[w])
    && (forall v :: v in t.peers ==> Housed(t.endpoints, v, t.peers[v], origin[v], clients))
  }

  /** The answers under way lead a peer to one of its original candidates, or to a relay. */
  predicate OwnProbe(p: Peer, own: set<Endpoint>, clients: set<Endpoint>) {
    p.probe.Some? && p.probe.value.promotes ==> p.probe.value.endpoint in own || Normalize(p.probe.value.endpoint) in clients
  }

  ghost predicate OwnProbes(t: Tables, origin: map<nat, set<Endpoint>>, clients: set<Endpoint>) {
    forall v :: v in t.peers && v in origin ==> OwnProbe(t.peers[v], origin[v], clients)
  }

  /** No peer is in use at an endpoint that the index does not know. */
  ghost predicate NoneStray(t: Tables, clients: set<Endpoint>) {
    forall v :: v in t.peers ==> ActiveOwned(t.peers[v], clients) <= t.endpoints.Keys
  }

  /** Another peer than `v` is in use at `source`, which is no relay. */
  predicate InUseElsewhere(peers: map<nat, Peer>, v: nat, source: Endpoint, clients: set<Endpoint>) {
    exists w :: w in peers && w != v && source in ActiveOwned(peers[w], clients)
  }

  lemma {:induction false} HousedApart(t: Tables, origin: map<nat, set<Endpoint>>, v: nat, w: nat, clients: set<Endpoint>)
    requires Loose(t, origin, clients) && v in t.peers && w in t.peers && v != w
    ensures OwnedBy(t.peers[v], clients) !! OwnedBy(t.peers[w], clients) && t.peers[v].node != t.peers[w].node
  {
    assert Housed(t.endpoints, v, t.peers[v], origin[v], clients) && Housed(t.endpoints, w, t.peers[w], origin[w], clients);
    forall e | e in OwnedBy(t.peers[v], clients) ensures e !in OwnedBy(t.peers[w], clients) {
      assert if e in t.endpoints then t.endpoints[e] == v else e in origin[v];
    }
  }

  lemma {:induction false} LooseIsRebuildable(t: Tables, origin: map<nat, set<Endpoint>>, clients: set<Endpoint>)
    requires Loose(t, origin, clients)
    ensures Rebuildable(t.peers, clients) && RelaysKnown(t.peers, clients)
  {
    forall v, w | v in t.peers && w in t.peers && v != w ensures Separate(t.peers[v], t.peers[w], clients) {
      HousedApart(t, origin, v, w, clients);
    }
  }

  function Put(t: Tables, v: nat, p: Peer): Tables {
    t.(peers := t.peers[v := p])
  }

  /** What one peer's new state has to satisfy. */
  lemma {:induction false} PutKeepsLoose(t: Tables, origin: map<nat, set<Endpoint>>, v: nat, p: Peer, clients: set<Endpoint>)
    requires Loose(t, origin, clients) && v in t.peers && p.node == t.peers[v].node
    requires Housed(t.endpoints, v, p, origin[v], clients)
    ensures Loose(Put(t, v, p), origin, clients)
  {
    var t' := Put(t, v, p);
    assert t'.peers.Keys == t.peers.Keys;
    assert IdsMatch(t');
  }

  /** Nobody strays afterwards exactly when that peer does not. */
  lemma {:induction false} PutStraysIff(t: Tables, v: nat, p: Peer, clients: set<Endpoint>)
    requires NoneStray(t, clients) && v in t.peers
    ensures NoneStray(Put(t, v, p), clients) <==> ActiveOwned(p, clients) <= t.endpoints.Keys
  {
    var t' := Put(t, v, p);
    if NoneStray(t', clients) { assert ActiveOwned(t'.peers[v], clients) <= t'.endpoints.Keys; }
  }

  lemma {:induction false} PutKeepsProbes(t: Tables, origin: map<nat, set<Endpoint>>, v: nat, p: Peer, clients: set<Endpoint>)
    requires OwnProbes(t, origin, clients) && v in t.peers && v in origin && OwnProbe(p, origin[v], clients)
    ensures OwnProbes(Put(t, v, p), origin, clients)
  {
  }

  /** A move to a relay, to an endpoint indexed to the peer, or to a forgotten one of its own needs no rebuild. */
  lemma {:induction false} HousedMoves(index: map<Endpoint, nat>, v: nat, p: Peer, own: set<Endpoint>, q: Peer, clients: set<Endpoint>)
    requires Housed(index, v, p, own, clients) && q.candidates == p.candidates
    requires q.active == p.active
             || (q.active.Some? && Normalize(q.active.value) !in clients ==>
                   if q.active.value in index then index[q.active.value] == v else q.active.value in own)
    ensures Housed(index, v, q, own, clients)
  {
  }

  lemma {:induction false} CandidateIsOwn(t: Tables, origin: map<nat, set<Endpoint>>, v: nat, to: Endpoint, clients: set<Endpoint>)
    requires Loose(t, origin, clients) && v in t.peers && to in EndpointsOf(t.peers[v].candidates)
    ensures Normalize(to) in clients || (to in origin[v] && to in t.endpoints && t.endpoints[to] == v)
  {
    var cs := t.peers[v].candidates;
    assert Housed(t.endpoints, v, t.peers[v], origin[v], clients);
    var i :| 0 <= i < |cs| && cs[i].endpoint == to;
    assert cs[i] in cs;
    if !cs[i].kind.Relay? { assert to in Indexed(cs); }
  }

  /** An index just rebuilt knows everything, for peers whose candidates are among the original ones. */
  lemma {:induction false} ConsistentIsLoose(was: Tables, t: Tables, origin: map<nat, set<Endpoint>>, clients: set<Endpoint>)
    requires Loose(was, origin, clients) && Consistent(t, clients) && t.peers.Keys == was.peers.Keys
    requires forall v :: v in t.peers ==>
      forall c :: c in t.peers[v].candidates ==> c in was.peers[v].candidates
    ensures Loose(t, origin, clients) && NoneStray(t, clients)
  {
    forall v | v in t.peers
      ensures Housed(t.endpoints, v, t.peers[v], origin[v], clients) && ActiveOwned(t.peers[v], clients) <= t.endpoints.Keys
    {
      assert Housed(was.endpoints, v, was.peers[v], origin[v], clients);
      assert Owned(t.peers, clients)[v] == OwnedBy(t.peers[v], clients);
      SubsetIsIndexed(t.peers[v].candidates, was.peers[v].candidates);
      OwnedIsIndexed(t.endpoints, Owned(t.peers, clients), v);
    }
  }

  lemma {:induction false} SubsetIsIndexed(some: seq<Candidate>, all: seq<Candidate>)
    requires forall c :: c in some ==> c in all
    ensures Indexed(some) <= Indexed(all)
  {
    forall e | e in Indexed(some) ensures e in Indexed(all) {
      var i :| 0 <= i < |some| && !some[i].kind.Relay? && some[i].endpoint == e;
      assert some[i] in all;
      var j :| 0 <= j < |all| && all[j] == some[i];
    }
  }

  lemma {:induction false} PrunedIsLoose(was: Tables, t: Tables, origin: map<nat, set<Endpoint>>, wall: nat, established: set<nat>,
                                         clients: set<Endpoint>)
    requires Loose(was, origin, clients) && Consistent(t, clients)
    requires t.peers == AllPruned(was.peers, wall, established, was.peers.Keys)
    ensures Loose(t, origin, clients) && NoneStray(t, clients)
  {
    forall v, c | v in t.peers && c in t.peers[v].candidates ensures c in was.peers[v].candidates {
      PruningFilters(was.peers[v].candidates, wall);
    }
    ConsistentIsLoose(was, t, origin, clients);
  }

  lemma {:induction false} ReroutedIsLoose(t: Tables, origin: map<nat, set<Endpoint>>, failed: Endpoint, clients: set<Endpoint>)
    requires Loose(t, origin, clients)
    ensures Loose(t.(peers := Rerouted(t.peers, failed, t.peers.Keys)), origin, clients)
    ensures NoneStray(t, clients) ==> NoneStray(t.(peers := Rerouted(t.peers, failed, t.peers.Keys)), clients)
  {
    var peers := Rerouted(t.peers, failed, t.peers.Keys);
    forall v | v in peers
      ensures Housed(t.endpoints, v, peers[v], origin[v], clients)
      ensures NoneStray(t, clients) ==> ActiveOwned(peers[v], clients) <= t.endpoints.Keys
    {
      HousedReroutes(t, origin, v, failed, clients);
    }
    var t' := t.(peers := peers);
    assert t'.peers.Keys == t.peers.Keys && IdsMatch(t');
  }

  lemma {:induction false} HousedReroutes(t: Tables, origin: map<nat, set<Endpoint>>, v: nat, failed: Endpoint, clients: set<Endpoint>)
    requires Loose(t, origin, clients) && v in t.peers
    ensures Housed(t.endpoints, v, Moved(t.peers[v], failed), origin[v], clients)
    ensures NoneStray(t, clients) ==> ActiveOwned(Moved(t.peers[v], failed), clients) <= t.endpoints.Keys
  {
    var p := t.peers[v];
    assert Housed(t.endpoints, v, p, origin[v], clients);
    var to := NextPath(p.candidates, failed);
    NextPathIsCandidate(p.candidates, failed);
    if to.Some? { CandidateIsOwn(t, origin, v, to.value, clients); }
    HousedMoves(t.endpoints, v, p, origin[v], Moved(p, failed), clients);
  }

  /**
   A rebuild with a peer at the source of its datagram, which the index does not give to
   anyone, fails exactly when another peer is in use there.
   */
  lemma {:induction false} RoamingRebuildsIff(t: Tables, origin: map<nat, set<Endpoint>>, v: nat, p: Peer, source: Endpoint, clients: set<Endpoint>)
    requires Loose(t, origin, clients) && v in t.peers && Calls(t.endpoints, p, source, clients)
    requires p.node == t.peers[v].node && p.candidates == t.peers[v].candidates
    ensures Rebuildable(t.peers[v := p], clients) <==> !InUseElsewhere(t.peers, v, source, clients)
  {
    if InUseElsewhere(t.peers, v, source, clients) {
      RoamingCollides(t.peers, v, p, source, clients);
    } else {
      LooseIsRebuildable(t, origin, clients);
      forall w | w in t.peers && w != v ensures Separate(p, t.peers[w], clients) && Separate(t.peers[w], p, clients) {
        RoamerIsSeparate(t, origin, v, p, w, source, clients);
      }
    }
  }

  lemma {:induction false} RoamingCollides(peers: map<nat, Peer>, v: nat, p: Peer, source: Endpoint, clients: set<Endpoint>)
    requires v in peers && InUseElsewhere(peers, v, source, clients) && p.active == Some(source) && Normalize(source) !in clients
    ensures !Rebuildable(peers[v := p], clients)
  {
    var all := peers[v := p];
    var w :| w in peers && w != v && source in ActiveOwned(peers[w], clients);
    assert source in OwnedBy(all[v], clients) && source in OwnedBy(all[w], clients);
    assert !Separate(all[v], all[w], clients);
  }

  lemma {:induction false} RoamerIsSeparate(t: Tables, origin: map<nat, set<Endpoint>>, v: nat, p: Peer, w: nat, source: Endpoint, clients: set<Endpoint>)
    requires Loose(t, origin, clients) && v in t.peers && w in t.peers && w != v && source !in t.endpoints
    requires p.active == Some(source) && p.node == t.peers[v].node && p.candidates == t.peers[v].candidates
    requires source !in ActiveOwned(t.peers[w], clients)
    ensures Separate(p, t.peers[w], clients) && Separate(t.peers[w], p, clients)
  {
    HousedApart(t, origin, v, w, clients);
    assert Housed(t.endpoints, w, t.peers[w], origin[w], clients);
    assert source !in OwnedBy(t.peers[w], clients);
  }

  /** While nobody strays, a datagram whose source the index does not know finds nobody there. */
  lemma {:induction false} NobodyThere(t: Tables, v: nat, source: Endpoint, clients: set<Endpoint>)
    requires NoneStray(t, clients) && source !in t.endpoints
    ensures !InUseElsewhere(t.peers, v, source, clients)
  {
  }

  function Pruned(p: Peer, wall: nat, established: bool): Peer {
    var cs := Unexpired(p.candidates, wall);
    var lost := p.active.Some? && p.active.value !in EndpointsOf(cs);
    p.(candidates := cs, active := if !established && lost then (if cs == [] then None else Some(cs[0].endpoint)) else p.active)
  }

  /** Nor does the expiry of candidates, as long as relay candidates are relay clients. */
  lemma {:induction false} PruningKeepsRebuildable(peers: map<nat, Peer>, v: nat, wall: nat, established: bool, clients: set<Endpoint>)
    requires Rebuildable(peers, clients) && v in peers
    requires forall c :: c in peers[v].candidates && c.kind.Relay? ==> Normalize(c.endpoint) in clients
    ensures Rebuildable(peers[v := Pruned(peers[v], wall, established)], clients)
  {
    var p := peers[v];
    var q := Pruned(p, wall, established);
    PruningFilters(p.candidates, wall);
    forall e | e in Indexed(q.candidates) ensures e in Indexed(p.candidates) {
      var i :| 0 <= i < |q.candidates| && !q.candidates[i].kind.Relay? && q.candidates[i].endpoint == e;
      assert q.candidates[i] in p.candidates;
    }
    if q.active != p.active && q.active.Some? {
      var c := q.candidates[0];
      assert c in p.candidates;
      if !c.kind.Relay? { assert c.endpoint in Indexed(q.candidates); }
    }
    ShrunkOwnership(peers, v, q, clients);
  }

  // ----- where it fails -----

  /** One peer is in use at an endpoint that belongs to another. */
  predicate Trespasses(p: Peer, q: Peer, clients: set<Endpoint>) {
    !(ActiveOwned(p, clients) !! OwnedBy(q, clients))
  }

  ghost predicate SomeoneTrespasses(peers: map<nat, Peer>, clients: set<Endpoint>) {
    exists v, w :: v in peers && w in peers && v != w && Trespasses(peers[v], peers[w], clients)
  }

  /**
   After a new configuration, whose candidates do not overlap, a rebuild fails exactly
   when the endpoint some peer still uses now belongs to another one: an established
   peer that has roamed keeps its endpoint, even if the configuration lists it elsewhere.
   */
  lemma {:induction false} RebuildFailsIffTrespass(peers: map<nat, Peer>, clients: set<Endpoint>)
    requires forall v, w :: v in peers && w in peers && v != w ==>
      peers[v].node != peers[w].node && Indexed(peers[v].candidates) !! Indexed(peers[w].candidates)
    ensures !Rebuildable(peers, clients) <==> SomeoneTrespasses(peers, clients)
  {
    if !Rebuildable(peers, clients) {
      var v, w :| v in peers && w in peers && v != w && !Separate(peers[v], peers[w], clients);
      var e :| e in OwnedBy(peers[v], clients) && e in OwnedBy(peers[w], clients);
      if e in ActiveOwned(peers[v], clients) {
        assert Trespasses(peers[v], peers[w], clients);
      } else {
        assert e in ActiveOwned(peers[w], clients);
        assert Trespasses(peers[w], peers[v], clients);
      }
    }
    if v, w :| v in peers && w in peers && v != w && Trespasses(peers[v], peers[w], clients) {
      assert !Separate(peers[v], peers[w], clients);
    }
  }

  /** A peer of the same node under a new configuration: an established one keeps its endpoint. */
  function CarriedPeer(p: Peer, cs: seq<Candidate>, established: bool): Peer {
    var first := if cs == [] then None else Some(cs[0].endpoint);
    var kept := p.active.Some? && p.active.value in EndpointsOf(cs) && !RoutesChanged(p.candidates, cs);
    Peer(p.node, cs, if established || kept then p.active else first, if RoutesChanged(p.candidates, cs) then None else p.probe)
  }

  function Carried(was: map<nat, Peer>, built: map<nat, Peer>, established: set<nat>): map<nat, Peer> {
    map v | v in built ::
      if v in was && was[v].node == built[v].node then CarriedPeer(was[v], built[v].candidates, v in established) else built[v]
  }

  lemma {:induction false} ReroutingKeepsCandidates(peers: map<nat, Peer>, failed: seq<Endpoint>)
    ensures var after := ReroutedAll(peers, failed);
      after.Keys == peers.Keys
      && forall v :: v in peers ==> after[v].candidates == peers[v].candidates && after[v].node == peers[v].node
  {
    if failed != [] { ReroutingKeepsCandidates(peers, failed[..|failed| - 1]); }
  }

  /**
   So a configuration whose directory could be built fails at the rebuild exactly on a
   trespass, in the table carried over and rerouted off the failed relays.
   */
  lemma {:induction false} ConfigurationFailsIffTrespass(was: map<nat, Peer>, t: Tables, rows: seq<Row>, local: nat,
                                                         established: set<nat>, failed: seq<Endpoint>, clients: set<Endpoint>)
    requires Matches(t, rows, |rows|, local)
    ensures var peers := ReroutedAll(Carried(was, t.peers, established), failed);
      !Rebuildable(peers, clients) <==> SomeoneTrespasses(peers, clients)
  {
    var carried := Carried(was, t.peers, established);
    var peers := ReroutedAll(carried, failed);
    ReroutingKeepsCandidates(carried, failed);
    forall v, w | v in peers && w in peers && v != w
      ensures peers[v].node != peers[w].node && Indexed(peers[v].candidates) !! Indexed(peers[w].candidates)
    {
      InverseNeedsOneOwner(t.endpoints, CandidatesOwned(t.peers), v, w);
      assert t.ids[t.peers[v].node] == v && t.ids[t.peers[w].node] == w;
    }
    RebuildFailsIffTrespass(peers, clients);
  }
}
