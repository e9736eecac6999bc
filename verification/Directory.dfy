/**
 The peer directory of the data plane: when it can be built from a configuration,
 and what its endpoint index contains.
 */
module Directory {
  import opened Prelude
  import opened Candidates
  import opened Configuration

  const MAX_CONFIGURED_PEERS: nat := 1024

  // ----- the endpoint index -----

  /** A probe under way; `promotes`: its answer moves the peer to `endpoint`. */
  datatype Probe = Probe(endpoint: Endpoint, promotes: bool)

  datatype Peer = Peer(node: nat, candidates: seq<Candidate>, active: Option<Endpoint>, probe: Option<Probe>)

  /** The endpoints of the candidates that are not relays. */
  function Indexed(cs: seq<Candidate>): set<Endpoint> {
    set i | 0 <= i < |cs| && !cs[i].kind.Relay? :: cs[i].endpoint
  }

  /** The index is exactly the inverse of "the peer at this address owns this endpoint". */
  ghost predicate InverseOf(index: map<Endpoint, nat>, owned: map<nat, set<Endpoint>>) {
    && (forall e :: e in index ==> index[e] in owned && e in owned[index[e]])
    && (forall v, e :: v in owned && e in owned[v] ==> e in index && index[e] == v)
  }

  /** A relation has at most one inverse. */
  lemma {:induction false} InverseIsUnique(a: map<Endpoint, nat>, b: map<Endpoint, nat>, owned: map<nat, set<Endpoint>>)
    requires InverseOf(a, owned) && InverseOf(b, owned)
    ensures a == b
  {
  }

  lemma {:induction false} OwnedIsIndexed(index: map<Endpoint, nat>, owned: map<nat, set<Endpoint>>, v: nat)
    requires InverseOf(index, owned) && v in owned
    ensures owned[v] <= index.Keys && forall e :: e in owned[v] ==> index[e] == v
  {
  }

  /** It has one only if no endpoint has two owners. */
  lemma {:induction false} InverseNeedsOneOwner(index: map<Endpoint, nat>, owned: map<nat, set<Endpoint>>, v: nat, w: nat)
    requires InverseOf(index, owned) && v in owned && w in owned && v != w
    ensures owned[v] !! owned[w]
  {
    forall e | e in owned[v] ensures e !in owned[w] {
      assert index[e] == v;
    }
  }

  lemma {:induction false} InverseGrows(index: map<Endpoint, nat>, owned: map<nat, set<Endpoint>>, v: nat, es: set<Endpoint>, index': map<Endpoint, nat>)
    requires InverseOf(index, owned) && v !in owned && es !! index.Keys && AddsTo(index, v, es, index')
    ensures InverseOf(index', owned[v := es])
  {
  }

  /** Every endpoint of `es` now leads to `v`; nothing else changed. */
  ghost predicate AddsTo(index: map<Endpoint, nat>, v: nat, es: set<Endpoint>, index': map<Endpoint, nat>) {
    && index'.Keys == index.Keys + es
    && (forall e :: e in index' ==> index'[e] == if e in es then v else index[e])
  }

  // ----- building the directory -----

  /** What the directory needs of a node: its names and its selected candidates. */
  datatype Row = Row(id: nat, ip: nat, candidates: seq<Candidate>)

  function Selected(n: Node, now: nat, relays: seq<Candidate>): seq<Candidate> {
    ConfiguredCandidates(n.candidates, n.direct, n.notAfter, now, relays)
  }

  function Rows(nodes: seq<Node>, now: nat, relays: seq<Candidate>): (rows: seq<Row>)
    ensures |rows| == |nodes|
  {
    seq(|nodes|, i requires 0 <= i < |nodes| => Row(nodes[i].id, nodes[i].ip, Selected(nodes[i], now, relays)))
  }

  function PeerOf(r: Row): Peer {
    Peer(r.id, r.candidates, if r.candidates == [] then None else Some(r.candidates[0].endpoint), None)
  }

  function PeersOf(rows: seq<Row>, n: nat, local: nat): map<nat, Peer>
    requires n <= |rows|
  {
    if n == 0 then map[]
    else
      var before := PeersOf(rows, n - 1, local);
      if rows[n - 1].id == local then before else before[rows[n - 1].ip := PeerOf(rows[n - 1])]
  }

  function CandidatesOwned(peers: map<nat, Peer>): map<nat, set<Endpoint>> {
    map v | v in peers :: Indexed(peers[v].candidates)
  }

  function RemoteCount(rows: seq<Row>, n: nat, local: nat): nat
    requires n <= |rows|
  {
    if n == 0 then 0 else RemoteCount(rows, n - 1, local) + if rows[n - 1].id == local then 0 else 1
  }

  predicate Compatible(a: Row, b: Row) {
    a.ip != b.ip && a.id != b.id && Indexed(a.candidates) !! Indexed(b.candidates)
  }

  /** When the first `n` nodes fit into one directory: not too many peers, and no two of them in conflict. */
  ghost predicate Buildable(rows: seq<Row>, n: nat, local: nat)
    requires n <= |rows|
  {
    && RemoteCount(rows, n, local) <= MAX_CONFIGURED_PEERS
    && forall i, j :: 0 <= i < j < n && rows[i].id != local && rows[j].id != local ==>
         Compatible(rows[i], rows[j])
  }

  lemma {:induction false} RemoteCountGrows(rows: seq<Row>, n: nat, m: nat, local: nat)
    requires n <= m <= |rows|
    ensures RemoteCount(rows, n, local) <= RemoteCount(rows, m, local)
    decreases m
  {
    if n < m { RemoteCountGrows(rows, n, m - 1, local); }
  }

  lemma {:induction false} BuildablePrefix(rows: seq<Row>, n: nat, m: nat, local: nat)
    requires n <= m <= |rows| && Buildable(rows, m, local)
    ensures Buildable(rows, n, local)
  {
    RemoteCountGrows(rows, n, m, local);
  }

  datatype Tables = Tables(peers: map<nat, Peer>, endpoints: map<Endpoint, nat>, ids: map<nat, nat>)

  ghost predicate Matches(t: Tables, rows: seq<Row>, n: nat, local: nat)
    requires n <= |rows|
  {
    && t.peers == PeersOf(rows, n, local)
    && |t.peers| == RemoteCount(rows, n, local)
    && InverseOf(t.endpoints, CandidatesOwned(t.peers))
    && IdsMatch(t)
  }

  ghost predicate IdsMatch(t: Tables) {
    && (forall id :: id in t.ids ==> t.ids[id] in t.peers && t.peers[t.ids[id]].node == id)
    && (forall v :: v in t.peers ==> t.peers[v].node in t.ids && t.ids[t.peers[v].node] == v)
  }

  /** Relay entries repeat across peers; direct entries are distinct within one. */
  predicate DistinctDirect(cs: seq<Candidate>) {
    forall i, j :: 0 <= i < j < |cs| && !cs[i].kind.Relay? && !cs[j].kind.Relay? ==> cs[i].endpoint != cs[j].endpoint
  }

  /** Enters a peer's direct candidates into the index; fails exactly when one is there already. */
  method IndexCandidates(cs: seq<Candidate>, v: nat, index: map<Endpoint, nat>) returns (ok: bool, index': map<Endpoint, nat>)
    requires DistinctDirect(cs)
    ensures ok <==> Indexed(cs) !! index.Keys
    ensures ok ==> AddsTo(index, v, Indexed(cs), index')
  {
    index' := index;
    for n := 0 to |cs|
      invariant Indexed(cs[..n]) !! index.Keys && AddsTo(index, v, Indexed(cs[..n]), index')
    {
      var c := cs[n];
      IndexedStep(cs, n);
      if !c.kind.Relay? {
        if c.endpoint in index' {
          IndexedClash(cs, n, index);
          return false, index';
        }
        index' := index'[c.endpoint := v];
      }
    }
    assert cs[..|cs|] == cs;
    return true, index';
  }

  lemma {:induction false} IndexedStep(cs: seq<Candidate>, n: nat)
    requires n < |cs| && DistinctDirect(cs)
    ensures Indexed(cs[..n + 1]) == Indexed(cs[..n]) + if cs[n].kind.Relay? then {} else {cs[n].endpoint}
    ensures !cs[n].kind.Relay? ==> cs[n].endpoint !in Indexed(cs[..n])
  {
    assert forall i :: 0 <= i < n ==> cs[..n + 1][i] == cs[..n][i];
    assert cs[..n + 1][n] == cs[n];
  }

  lemma {:induction false} IndexedClash(cs: seq<Candidate>, n: nat, index: map<Endpoint, nat>)
    requires n < |cs| && !cs[n].kind.Relay? && cs[n].endpoint in index
    ensures !(Indexed(cs) !! index.Keys)
  {
    assert cs[n].endpoint in Indexed(cs);
  }

  lemma {:induction false} SelectedIsDistinct(n: Node, now: nat, relays: seq<Candidate>)
    requires RelayList(relays)
    ensures DistinctDirect(Selected(n, now, relays))
    ensures Indexed(Selected(n, now, relays)) <= Normalized(Claims(n))
    ensures Ordered(Selected(n, now, relays))
  {
    DirectPartIsSound(n.candidates, n.direct, n.notAfter, now, relays);
    CandidatesAreOrdered(n.candidates, n.direct, n.notAfter, now, relays);
    var d := DirectPart(n.candidates, n.direct, n.notAfter, now, relays);
    var r := Selected(n, now, relays);
    assert forall i :: |d| <= i < |r| ==> r[i].kind.Relay?;
    forall e | e in Indexed(r) ensures e in Normalized(Claims(n)) {
      var i :| 0 <= i < |r| && !r[i].kind.Relay? && r[i].endpoint == e;
      assert d[i] in d;
    }
  }

  lemma {:induction false} AddressesDiffer(rows: seq<Row>, n: nat, local: nat, i: nat, j: nat)
    requires n <= |rows| && Buildable(rows, n, local)
    requires i < j < n && rows[i].id != local && rows[j].id != local
    ensures rows[i].ip != rows[j].ip
  {
    assert Compatible(rows[i], rows[j]);
  }

  lemma {:induction false} PeerStays(rows: seq<Row>, n: nat, local: nat, v: nat)
    requires 0 < n <= |rows| && v in PeersOf(rows, n - 1, local)
    requires rows[n - 1].id == local || rows[n - 1].ip != v
    ensures v in PeersOf(rows, n, local)
    ensures PeersOf(rows, n, local)[v] == PeersOf(rows, n - 1, local)[v]
  {
  }

  /** Each remote node is in the table at its address, and each peer of the table is such a node. */
  lemma {:induction false} NodeIsIn(rows: seq<Row>, n: nat, local: nat, i: nat)
    requires n <= |rows| && Buildable(rows, n, local) && i < n && rows[i].id != local
    ensures var peers := PeersOf(rows, n, local);
      rows[i].ip in peers && peers[rows[i].ip] == PeerOf(rows[i])
  {
    if i < n - 1 {
      BuildablePrefix(rows, n - 1, n, local);
      NodeIsIn(rows, n - 1, local, i);
      if rows[n - 1].id != local { AddressesDiffer(rows, n, local, i, n - 1); }
      PeerStays(rows, n, local, rows[i].ip);
    }
  }

  lemma {:induction false} NodeAt(rows: seq<Row>, n: nat, local: nat, v: nat) returns (i: nat)
    requires n <= |rows| && v in PeersOf(rows, n, local)
    ensures i < n && rows[i].id != local && rows[i].ip == v
    ensures PeersOf(rows, n, local)[v] == PeerOf(rows[i])
  {
    if rows[n - 1].id != local && rows[n - 1].ip == v {
      i := n - 1;
    } else {
      i := NodeAt(rows, n - 1, local, v);
    }
  }

  /** What the tables would say against one more node. */
  predicate Refused(t: Tables, row: Row) {
    || |t.peers| >= MAX_CONFIGURED_PEERS || row.ip in t.peers || row.id in t.ids
    || !(Indexed(row.candidates) !! t.endpoints.Keys)
  }

  lemma {:induction false} RefusedIsConflict(rows: seq<Row>, n: nat, local: nat, t: Tables)
    requires n < |rows| && rows[n].id != local && Matches(t, rows, n, local)
    requires Refused(t, rows[n])
    ensures !Buildable(rows, n + 1, local)
  {
    var row := rows[n];
    if |t.peers| < MAX_CONFIGURED_PEERS {
      var v: nat;
      if row.ip in t.peers {
        v := row.ip;
      } else if row.id in t.ids {
        v := t.ids[row.id];
      } else {
        var e :| e in Indexed(row.candidates) && e in t.endpoints;
        v := t.endpoints[e];
      }
      var i := NodeAt(rows, n, local, v);
      assert !Compatible(rows[i], row);
    }
  }

  lemma {:induction false} WelcomeIsCompatible(rows: seq<Row>, n: nat, local: nat, t: Tables, i: nat)
    requires n < |rows| && rows[n].id != local && Buildable(rows, n, local)
    requires Matches(t, rows, n, local) && !Refused(t, rows[n])
    requires i < n && rows[i].id != local
    ensures Compatible(rows[i], rows[n])
  {
    NodeIsIn(rows, n, local, i);
    var v := rows[i].ip;
    assert CandidatesOwned(t.peers)[v] == Indexed(rows[i].candidates);
    OwnedIsIndexed(t.endpoints, CandidatesOwned(t.peers), v);
  }

  lemma {:induction false} WelcomeIsBuildable(rows: seq<Row>, n: nat, local: nat, t: Tables)
    requires n < |rows| && rows[n].id != local && Buildable(rows, n, local)
    requires Matches(t, rows, n, local) && !Refused(t, rows[n])
    ensures Buildable(rows, n + 1, local)
  {
    forall i | 0 <= i < n && rows[i].id != local ensures Compatible(rows[i], rows[n]) {
      WelcomeIsCompatible(rows, n, local, t, i);
    }
    BuildableStep(rows, n, local);
  }

  lemma {:induction false} BuildableStep(rows: seq<Row>, n: nat, local: nat)
    requires n < |rows| && rows[n].id != local && Buildable(rows, n, local)
    requires RemoteCount(rows, n, local) < MAX_CONFIGURED_PEERS
    requires forall i :: 0 <= i < n && rows[i].id != local ==> Compatible(rows[i], rows[n])
    ensures Buildable(rows, n + 1, local)
  {
  }

  lemma {:induction false} EntryKeepsIndex(peers: map<nat, Peer>, v: nat, p: Peer, index: map<Endpoint, nat>, index': map<Endpoint, nat>)
    requires InverseOf(index, CandidatesOwned(peers)) && v !in peers
    requires Indexed(p.candidates) !! index.Keys && AddsTo(index, v, Indexed(p.candidates), index')
    ensures InverseOf(index', CandidatesOwned(peers[v := p]))
  {
    InverseGrows(index, CandidatesOwned(peers), v, Indexed(p.candidates), index');
    assert CandidatesOwned(peers[v := p]) == CandidatesOwned(peers)[v := Indexed(p.candidates)];
  }

  lemma {:induction false} EntryKeepsIds(t: Tables, v: nat, p: Peer, index: map<Endpoint, nat>)
    requires IdsMatch(t) && v !in t.peers && p.node !in t.ids
    ensures IdsMatch(Tables(t.peers[v := p], index, t.ids[p.node := v]))
  {
  }

  /** One more node that is not the local one. */
  method AddNode(rows: seq<Row>, n: nat, local: nat, t: Tables) returns (ok: bool, t': Tables)
    requires n < |rows| && rows[n].id != local && DistinctDirect(rows[n].candidates)
    requires Matches(t, rows, n, local) && Buildable(rows, n, local)
    ensures ok <==> Buildable(rows, n + 1, local)
    ensures ok ==> Matches(t', rows, n + 1, local)
  {
    var row := rows[n];
    if Refused(t, row) {
      RefusedIsConflict(rows, n, local, t);
    } else {
      WelcomeIsBuildable(rows, n, local, t);
    }
    if |t.peers| >= MAX_CONFIGURED_PEERS || row.ip in t.peers || row.id in t.ids {
      return false, t;
    }
    var peer := PeerOf(row);
    var fine, index := IndexCandidates(peer.candidates, row.ip, t.endpoints);
    if !fine {
      return false, t;
    }
    EntryKeepsIndex(t.peers, row.ip, peer, t.endpoints, index);
    EntryKeepsIds(t, row.ip, peer, index);
    t' := Tables(t.peers[row.ip := peer], index, t.ids[row.id := row.ip]);
    return true, t';
  }

  /** Succeeds exactly when the nodes fit together, and then the index is the inverse of ownership. */
  method BuildPeerDirectory(nodes: seq<Node>, local: nat, now: nat, relays: seq<Candidate>) returns (ok: bool, t: Tables)
    requires RelayList(relays)
    ensures var rows := Rows(nodes, now, relays);
      && (ok <==> Buildable(rows, |rows|, local))
      && (ok ==> Matches(t, rows, |rows|, local))
  {
    var rows := Rows(nodes, now, relays);
    forall n | 0 <= n < |nodes| ensures DistinctDirect(rows[n].candidates) { SelectedIsDistinct(nodes[n], now, relays); }
    ok, t := BuildFromRows(rows, local);
  }

  method BuildFromRows(rows: seq<Row>, local: nat) returns (ok: bool, t: Tables)
    requires forall n :: 0 <= n < |rows| ==> DistinctDirect(rows[n].candidates)
    ensures ok <==> Buildable(rows, |rows|, local)
    ensures ok ==> Matches(t, rows, |rows|, local)
  {
    t := Tables(map[], map[], map[]);
    for n := 0 to |rows|
      invariant Buildable(rows, n, local) && Matches(t, rows, n, local)
    {
      var fine;
      fine, t := VisitNode(rows, n, local, t);
      if !fine {
        return false, t;
      }
    }
    return true, t;
  }

  method VisitNode(rows: seq<Row>, n: nat, local: nat, t: Tables) returns (ok: bool, t': Tables)
    requires n < |rows| && DistinctDirect(rows[n].candidates)
    requires Buildable(rows, n, local) && Matches(t, rows, n, local)
    ensures ok ==> Buildable(rows, n + 1, local) && Matches(t', rows, n + 1, local)
    ensures !ok ==> !Buildable(rows, |rows|, local)
  {
    if rows[n].id == local {
      LocalIsSkipped(rows, n, local, t);
      return true, t;
    }
    ok, t' := AddNode(rows, n, local, t);
    if !ok && Buildable(rows, |rows|, local) {
      BuildablePrefix(rows, n + 1, |rows|, local);
    }
  }

  lemma {:induction false} LocalIsSkipped(rows: seq<Row>, n: nat, local: nat, t: Tables)
    requires n < |rows| && rows[n].id == local
    requires Buildable(rows, n, local) && Matches(t, rows, n, local)
    ensures Buildable(rows, n + 1, local) && Matches(t, rows, n + 1, local)
  {
  }

  // ----- from the validator to the directory -----

  /** No endpoint of the payload is an IPv4-mapped one. */
  ghost predicate AllNormalized(p: Payload) {
    forall i, e :: 0 <= i < |p.nodes| && e in Claims(p.nodes[i]) ==> Normalize(e) == e
  }

  lemma {:induction false} SelectedWithinClaims(p: Payload, i: nat, now: nat, relays: seq<Candidate>)
    requires AllNormalized(p) && RelayList(relays) && i < |p.nodes|
    ensures Indexed(Selected(p.nodes[i], now, relays)) <= Claims(p.nodes[i])
  {
    SelectedIsDistinct(p.nodes[i], now, relays);
    forall e | e in Normalized(Claims(p.nodes[i])) ensures e in Claims(p.nodes[i]) {
      var d :| d in Claims(p.nodes[i]) && e == Normalize(d);
    }
  }

  /** A validated payload without mapped endpoints and with at most 1024 peers never makes the directory fail. */
  lemma {:induction false} ValidatedPayloadBuilds(p: Payload, self: Identity, now: nat, relays: seq<Candidate>)
    requires Accepted(p, self) && AllNormalized(p) && RelayList(relays)
    requires RemoteCount(Rows(p.nodes, now, relays), |p.nodes|, self.id) <= MAX_CONFIGURED_PEERS
    ensures Buildable(Rows(p.nodes, now, relays), |p.nodes|, self.id)
  {
    var rows := Rows(p.nodes, now, relays);
    forall i, j | 0 <= i < j < |p.nodes| ensures Compatible(rows[i], rows[j]) {
      assert Apart(p.nodes[i], p.nodes[j]);
      SelectedWithinClaims(p, i, now, relays);
      SelectedWithinClaims(p, j, now, relays);
    }
  }

  /** No two remote nodes were given the same endpoint, once normalized. */
  ghost predicate NoneShared(rows: seq<Row>, local: nat) {
    forall i, j :: 0 <= i < j < |rows| && rows[i].id != local && rows[j].id != local ==>
      Indexed(rows[i].candidates) !! Indexed(rows[j].candidates)
  }

  predicate DistinctNames(rows: seq<Row>) {
    forall i, j :: 0 <= i < j < |rows| ==> rows[i].id != rows[j].id && rows[i].ip != rows[j].ip
  }

  lemma {:induction false} BuildableIffNoneShared(rows: seq<Row>, local: nat)
    requires DistinctNames(rows)
    ensures Buildable(rows, |rows|, local) <==>
      RemoteCount(rows, |rows|, local) <= MAX_CONFIGURED_PEERS && NoneShared(rows, local)
  {
    if Buildable(rows, |rows|, local) {
      forall i, j | 0 <= i < j < |rows| && rows[i].id != local && rows[j].id != local
        ensures Indexed(rows[i].candidates) !! Indexed(rows[j].candidates)
      {
        assert Compatible(rows[i], rows[j]);
      }
    }
  }

  /** Without the restriction: exactly when the peers are few enough and no two share a normalized endpoint. */
  lemma {:induction false} ValidatedPayloadBuildsIff(p: Payload, self: Identity, now: nat, relays: seq<Candidate>)
    requires Accepted(p, self)
    ensures var rows := Rows(p.nodes, now, relays);
      Buildable(rows, |rows|, self.id) <==>
        RemoteCount(rows, |rows|, self.id) <= MAX_CONFIGURED_PEERS && NoneShared(rows, self.id)
  {
    var rows := Rows(p.nodes, now, relays);
    forall i, j | 0 <= i < j < |rows| ensures rows[i].id != rows[j].id && rows[i].ip != rows[j].ip {
      assert Apart(p.nodes[i], p.nodes[j]);
    }
    BuildableIffNoneShared(rows, self.id);
  }

  // ----- examples -----

  function LoneNode(id: nat, cs: seq<Candidate>): Node {
    Node(id, id, id, id, true, 100, [], cs)
  }

  const LOCAL := Identity(1, 1, 1, 1, 1, 1)

  function One(e: Endpoint): seq<Candidate> {
    [Candidate(Mapped, e, 5, 100)]
  }

  /** The local node 1 and two others, each with one endpoint. */
  function TwoPeers(a: Endpoint, b: Endpoint): Payload {
    Payload(Header(1, 1, 1, 1, 24, 0, true), 10, 0, 100, [], [], [LoneNode(1, []), LoneNode(2, One(a)), LoneNode(3, One(b))])
  }

  predicate Usual(e: Endpoint) {
    ValidService(e) && !Loopback(e)
  }

  lemma {:induction false} TwoPeersAccepted(a: Endpoint, b: Endpoint)
    requires a != b && Usual(a) && Usual(b)
    ensures Accepted(TwoPeers(a, b), LOCAL)
  {
    assert IsLocal(TwoPeers(a, b).nodes[0], LOCAL);
    TwoPeersAreOk(a, b);
  }

  lemma {:induction false} TwoPeersAreOk(a: Endpoint, b: Endpoint)
    requires a != b && Usual(a) && Usual(b)
    ensures NodesOk(TwoPeers(a, b), 3)
  {
    var p := TwoPeers(a, b);
    LoneNodeIsOk(1, [], p);
    OneIsOk(2, a, p);
    OneIsOk(3, b, p);
    assert p.nodes == [LoneNode(1, []), LoneNode(2, One(a)), LoneNode(3, One(b))];
    assert RelayEndpoints(p.relays) == {};
  }

  lemma {:induction false} OneIsOk(id: nat, e: Endpoint, p: Payload)
    requires id <= 100 && Usual(e) && p.generatedAt == 10 && p.poolFirst == 0 && p.poolLast == 100
    ensures NodeOk(LoneNode(id, One(e)), p, {}) && Claims(LoneNode(id, One(e))) == {e}
  {
    LoneNodeIsOk(id, One(e), p);
    assert One(e)[0].endpoint == e;
  }

  lemma {:induction false} LoneNodeIsOk(id: nat, cs: seq<Candidate>, p: Payload)
    requires id <= 100 && |cs| <= 1 && (forall i :: 0 <= i < |cs| ==> CandidateOk(cs[i], 10, {}))
    requires p.generatedAt == 10 && p.poolFirst == 0 && p.poolLast == 100
    ensures NodeOk(LoneNode(id, cs), p, {})
    ensures Claims(LoneNode(id, cs)) == EndpointsOf(cs)
  {
  }

  /** Its one candidate is selected, normalized and renumbered. */
  lemma {:induction false} OneSelected(id: nat, e: Endpoint)
    ensures Selected(LoneNode(id, One(e)), 20, []) == [Candidate(Mapped, Normalize(e), DIRECT_PRIORITY, 100)]
  {
    var c := Candidate(Mapped, e, 5, 100);
    var live := c.(endpoint := Normalize(e));
    assert Live([c], 20, {}) == [live] by {
      assert Live([c][1..], 20, {} + {Normalize(e)}) == [];
    }
    assert Sorted([live]) == [live] by {
      assert Sorted([live][1..]) == [];
    }
  }

  const MAPPED_PLAIN := V4(0xC000_0201, 4000)
  const MAPPED_LONG := V6(0xFFFF_C000_0201, 4000, 0, 0)

  /** The validator takes an endpoint and its IPv4-mapped spelling for two; the directory then cannot be built. */
  lemma {:induction false} MappedEndpointsSlipThrough()
    ensures Accepted(TwoPeers(MAPPED_PLAIN, MAPPED_LONG), LOCAL)
    ensures !Buildable(Rows(TwoPeers(MAPPED_PLAIN, MAPPED_LONG).nodes, 20, []), 3, 1)
  {
    TwoPeersAccepted(MAPPED_PLAIN, MAPPED_LONG);
    assert Normalize(MAPPED_LONG) == MAPPED_PLAIN && Normalize(MAPPED_PLAIN) == MAPPED_PLAIN;
    OneSelected(2, MAPPED_PLAIN);
    OneSelected(3, MAPPED_LONG);
    var rows := Rows(TwoPeers(MAPPED_PLAIN, MAPPED_LONG).nodes, 20, []);
    assert rows[1].candidates[0].endpoint in Indexed(rows[1].candidates);
    assert rows[2].candidates[0].endpoint in Indexed(rows[2].candidates);
    assert !Compatible(rows[1], rows[2]);
  }

  /** The peers of such a directory. */
  lemma {:induction false} TwoPeersListed(a: Endpoint, b: Endpoint)
    requires Normalize(a) == a && Normalize(b) == b
    ensures var peers := PeersOf(Rows(TwoPeers(a, b).nodes, 20, []), 3, 1);
      peers == map[2 := Single(2, a), 3 := Single(3, b)]
  {
    OneSelected(2, a);
    OneSelected(3, b);
    var rows := Rows(TwoPeers(a, b).nodes, 20, []);
    assert rows[1] == Row(2, 2, Single(2, a).candidates) && rows[2] == Row(3, 3, Single(3, b).candidates);
    assert PeersOf(rows, 1, 1) == map[];
    assert PeersOf(rows, 2, 1) == map[2 := Single(2, a)];
  }

  function Single(node: nat, e: Endpoint): Peer {
    Peer(node, [Candidate(Mapped, e, DIRECT_PRIORITY, 100)], Some(e), None)
  }
}
