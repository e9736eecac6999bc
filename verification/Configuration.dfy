/**
 The trust boundary: what the loop that validates a signed configuration accepts.

 Identifiers, keys and addresses are already decoded; a signature that verifies is a
 condition outside this model, and that the policy compiles is one of its inputs.
 */
module Configuration {
  import opened Prelude
  import opened Candidates

  const MAX_CONFIGURATION_NODES: nat := 65_535
  const MAX_DIRECT_ENDPOINTS_PER_NODE: nat := 8
  const MAX_CANDIDATES_PER_NODE: nat := 16
  const MAX_CONFIGURED_RELAYS: nat := 16
  const MAX_DISCOVERY_ENDPOINTS: nat := 8
  const MAX_POLICIES: nat := 4096

  /** `genuine`: the identifier is the digest of the key, and the roles are well formed. */
  datatype Node = Node(
    id: nat, key: nat, ip: nat, serial: nat, genuine: bool, notAfter: nat,
    direct: seq<Endpoint>, candidates: seq<Candidate>)

  /** `genuine`: the key is a point of the curve and the identifier not all zero. Identifiers are ordered as their texts. */
  datatype RelayService = RelayService(
    id: nat, key: nat, genuine: bool, endpoint: Endpoint, priority: nat, expiresAt: nat)

  /** `policyCompiles`: the access rules form a policy. */
  datatype Header = Header(
    schema: nat, network: nat, version: nat, policyVersion: nat, poolPrefix: nat, policies: nat, policyCompiles: bool)

  datatype Payload = Payload(
    header: Header, generatedAt: nat, poolFirst: nat, poolLast: nat, discovery: seq<Endpoint>, relays: seq<RelayService>, nodes: seq<Node>)

  /** What a configuration has to match: the local node, its network, and the version of the signed envelope. */
  datatype Identity = Identity(id: nat, key: nat, ip: nat, serial: nat, network: nat, version: nat)

  predicate HeaderOk(h: Header, self: Identity) {
    && h.schema == 1 && h.network == self.network && h.version == self.version != 0 && h.policyVersion <= h.version
    && 8 <= h.poolPrefix <= 30 && h.policies <= MAX_POLICIES && h.policyCompiles
  }

  // ----- single endpoints -----

  predicate Unspecified(e: Endpoint) { e.address == 0 }

  predicate Multicast(e: Endpoint) {
    if e.V4? then e.address / 0x1000_0000 == 14 else e.address / 0x100_0000_0000_0000_0000_0000_0000_0000 == 0xFF
  }

  predicate LinkLocal(e: Endpoint) {
    e.V6? && e.address / 0x40_0000_0000_0000_0000_0000_0000_0000 == 0x3FA
  }

  predicate UniqueLocal(e: Endpoint) {
    e.V6? && e.address / 0x200_0000_0000_0000_0000_0000_0000_0000 == 0x7E
  }

  predicate Loopback(e: Endpoint) {
    if e.V4? then e.address / 0x100_0000 == 127 else e.address == 1
  }

  predicate ValidService(e: Endpoint) {
    && e.port != 0 && !Unspecified(e) && !Multicast(e)
    && (e.V4? ==> e.address != 0xFFFF_FFFF)
    && (e.V6? ==> e.flow == 0 && (LinkLocal(e) <==> e.scope != 0))
  }

  predicate ValidCandidate(c: Candidate) {
    && ValidService(c.endpoint) && !Loopback(c.endpoint)
    && (c.kind.PublicIpv6? ==>
          c.endpoint.V6? && !UniqueLocal(c.endpoint) && !LinkLocal(c.endpoint) && c.endpoint.scope == 0)
  }

  /** The address lies between these two, the first given by its leading 16 bits, as the second, which is excluded. */
  predicate Between(e: Endpoint, first: nat, last: nat) {
    first * 0x1_0000_0000_0000_0000_0000_0000_0000 <= e.address < last * 0x1_0000_0000_0000_0000_0000_0000_0000
  }

  /** The address ranges that the tests on leading bits stand for (section 2.4 of RFC 4291, section 4 of RFC 1112). */
  lemma {:induction false} EndpointRanges(c: Candidate)
    requires c.endpoint.V6? ==> Between(c.endpoint, 0, 0x1_0000)
    requires c.endpoint.V4? ==> c.endpoint.address <= U32_MAX
    ensures var e := c.endpoint;
      && (e.V4? ==>
            && (ValidService(e) <==> e.port >= 1 && (1 <= e.address < 0xE000_0000 || 0xF000_0000 <= e.address < U32_MAX))
            && (ValidCandidate(c) <==> ValidService(e) && !(0x7F00_0000 <= e.address < 0x8000_0000) && !c.kind.PublicIpv6?))
      && (e.V6? ==>
            && (ValidService(e) <==>
                  e.port >= 1 && e.flow == 0 && 1 <= e.address && !Between(e, 0xFF00, 0x1_0000) && (e.scope == 0 <==> !Between(e, 0xFE80, 0xFEC0)))
            && (ValidCandidate(c) <==>
                  ValidService(e) && e.address != 1 && (c.kind.PublicIpv6? ==> !Between(e, 0xFC00, 0xFE00) && !Between(e, 0xFE80, 0xFEC0))))
  {
  }

  // ----- relays -----

  predicate RelayOk(r: RelayService, p: Payload) {
    r.genuine && r.priority != 0 && r.expiresAt > p.generatedAt && ValidService(r.endpoint) && r.endpoint !in p.discovery
  }

  /** Falling priority, and rising identifier among equals. */
  predicate Before(r: RelayService, s: RelayService) {
    r.priority > s.priority || (r.priority == s.priority && r.id < s.id)
  }

  ghost predicate RelaysOk(p: Payload) {
    && (forall i :: 0 <= i < |p.relays| ==> RelayOk(p.relays[i], p))
    && (forall i, j :: 0 <= i < j < |p.relays| ==>
          Before(p.relays[i], p.relays[j]) && !ClashingRelays(p.relays[i], p.relays[j]))
  }

  predicate ClashingRelays(r: RelayService, s: RelayService) {
    r.id == s.id || r.endpoint == s.endpoint || r.key == s.key
  }

  function RelayEndpoints(relays: seq<RelayService>): set<Endpoint> {
    set i | 0 <= i < |relays| :: relays[i].endpoint
  }

  /** The loop compares neighbours and keeps three sets; that settles every pair. */
  method ValidateRelays(p: Payload) returns (ok: bool, endpoints: set<Endpoint>)
    ensures ok <==> RelaysOk(p)
    ensures ok ==> endpoints == RelayEndpoints(p.relays)
  {
    var ids: set<nat> := {};
    var keys: set<nat> := {};
    endpoints := {};
    for n := 0 to |p.relays|
      invariant ids == set i | 0 <= i < n :: p.relays[i].id
      invariant keys == set i | 0 <= i < n :: p.relays[i].key
      invariant endpoints == RelayEndpoints(p.relays[..n])
      invariant RelaysOk(p.(relays := p.relays[..n]))
    {
      var r := p.relays[n];
      if !RelayOk(r, p) || r.id in ids || r.endpoint in endpoints || r.key in keys {
        RejectRelay(p, n);
        return false, endpoints;
      }
      if n > 0 && !Before(p.relays[n - 1], r) {
        return false, endpoints;
      }
      AcceptRelay(p, n);
      ids, keys, endpoints := ids + {r.id}, keys + {r.key}, endpoints + {r.endpoint};
      assert RelayEndpoints(p.relays[..n + 1]) == RelayEndpoints(p.relays[..n]) + {r.endpoint};
    }
    assert p.relays[..|p.relays|] == p.relays;
    assert p.(relays := p.relays) == p;
    return true, endpoints;
  }

  lemma {:induction false} RejectRelay(p: Payload, n: nat)
    requires n < |p.relays|
    requires !RelayOk(p.relays[n], p) || exists i :: 0 <= i < n && ClashingRelays(p.relays[i], p.relays[n])
    ensures !RelaysOk(p)
  {
  }

  lemma {:induction false} AcceptRelay(p: Payload, n: nat)
    requires n < |p.relays| && RelaysOk(p.(relays := p.relays[..n])) && RelayOk(p.relays[n], p)
    requires n > 0 ==> Before(p.relays[n - 1], p.relays[n])
    requires forall i :: 0 <= i < n ==> !ClashingRelays(p.relays[i], p.relays[n])
    ensures RelaysOk(p.(relays := p.relays[..n + 1]))
  {
    var q := p.(relays := p.relays[..n]);
    assert forall i :: 0 <= i < n ==> RelayOk(q.relays[i], q) && q.relays[i] == p.relays[i];
    forall i | 0 <= i < n ensures Before(p.relays[i], p.relays[n]) {
      if i < n - 1 { assert Before(q.relays[i], q.relays[n - 1]); }
    }
  }

  // ----- nodes -----

  predicate DirectOk(e: Endpoint, relays: set<Endpoint>) {
    e.V4? && ValidService(e) && e !in relays
  }

  predicate CandidateOk(c: Candidate, generatedAt: nat, relays: set<Endpoint>) {
    c.priority != 0 && c.expiresAt > generatedAt && ValidCandidate(c) && c.endpoint !in relays
  }

  predicate NodeOk(n: Node, p: Payload, relays: set<Endpoint>) {
    && |n.direct| <= MAX_DIRECT_ENDPOINTS_PER_NODE && |n.candidates| <= MAX_CANDIDATES_PER_NODE
    && n.genuine && p.poolFirst <= n.ip <= p.poolLast
    && Decreasing(n.candidates) && DistinctEndpoints(n.candidates)
    && (forall i :: 0 <= i < |n.direct| ==> DirectOk(n.direct[i], relays))
    && (forall i, j :: 0 <= i < j < |n.direct| ==> n.direct[i] != n.direct[j])
    && (forall i :: 0 <= i < |n.candidates| ==> CandidateOk(n.candidates[i], p.generatedAt, relays))
  }

  /** The endpoints by which a node is reached. */
  function Claims(n: Node): set<Endpoint> {
    NodeEndpoints(n.candidates, n.direct)
  }

  /** Nothing that names one node names the other. */
  predicate Apart(m: Node, n: Node) {
    m.id != n.id && m.key != n.key && m.ip != n.ip && Claims(m) !! Claims(n)
  }

  predicate IsLocal(n: Node, self: Identity) {
    n.id == self.id && n.key == self.key && n.ip == self.ip && n.serial == self.serial
  }

  ghost predicate NodesOk(p: Payload, count: nat)
    requires count <= |p.nodes|
  {
    && (forall i :: 0 <= i < count ==> NodeOk(p.nodes[i], p, RelayEndpoints(p.relays)))
    && (forall i, j :: 0 <= i < j < count ==> Apart(p.nodes[i], p.nodes[j]))
  }

  /** What the validator promises about a payload it accepts. */
  ghost predicate Accepted(p: Payload, self: Identity) {
    && HeaderOk(p.header, self)
    && |p.discovery| <= MAX_DISCOVERY_ENDPOINTS && |p.nodes| <= MAX_CONFIGURATION_NODES && |p.relays| <= MAX_CONFIGURED_RELAYS
    && p.poolFirst <= self.ip <= p.poolLast
    && (forall i :: 0 <= i < |p.discovery| ==> ValidService(p.discovery[i]))
    && (forall i, j :: 0 <= i < j < |p.discovery| ==> p.discovery[i] != p.discovery[j])
    && RelaysOk(p)
    && NodesOk(p, |p.nodes|)
    && HasLocal(p.nodes, |p.nodes|, self)
  }

  /**
   What an accepted payload lets everyone rely on: it is the signed version of the own
   network, nothing in it had expired when it was made, every endpoint is usable, and no two
   relays or nodes share a name or an endpoint, nor a node one with a relay.
   */
  lemma {:induction false} AcceptedIsTrustworthy(p: Payload, self: Identity)
    requires Accepted(p, self)
    ensures p.header.schema == 1 && p.header.network == self.network && p.header.version == self.version >= 1
    ensures p.header.policyVersion <= p.header.version && p.header.policies <= 4096 && p.header.policyCompiles
    ensures 8 <= p.header.poolPrefix <= 30 && p.poolFirst <= self.ip <= p.poolLast
    ensures |p.discovery| <= 8 && |p.relays| <= 16 && |p.nodes| <= 65_535
    ensures (forall e :: e in p.discovery ==> ValidService(e)) && forall i, j :: 0 <= i < j < |p.discovery| ==> p.discovery[i] != p.discovery[j]
    ensures forall r :: r in p.relays ==>
      r.genuine && r.priority >= 1 && r.expiresAt > p.generatedAt && ValidService(r.endpoint) && r.endpoint !in p.discovery
    ensures forall i, j :: 0 <= i < j < |p.relays| ==>
      var r, s := p.relays[i], p.relays[j];
      r.id != s.id && r.key != s.key && r.endpoint != s.endpoint && r.priority >= s.priority && (r.priority == s.priority ==> r.id < s.id)
    ensures forall n :: n in p.nodes ==> n.genuine && p.poolFirst <= n.ip <= p.poolLast && |n.direct| <= 8 && |n.candidates| <= 16 && Decreasing(n.candidates)
    ensures forall n, e :: n in p.nodes && e in n.direct ==> e.V4? && ValidService(e) && forall r :: r in p.relays ==> r.endpoint != e
    ensures forall n, c :: n in p.nodes && c in n.candidates ==>
      c.priority >= 1 && c.expiresAt > p.generatedAt && ValidCandidate(c) && forall r :: r in p.relays ==> r.endpoint != c.endpoint
    ensures forall i, j :: 0 <= i < j < |p.nodes| ==>
      var m, n := p.nodes[i], p.nodes[j];
      m.id != n.id && m.key != n.key && m.ip != n.ip && NodeEndpoints(m.candidates, m.direct) !! NodeEndpoints(n.candidates, n.direct)
    ensures exists n :: n in p.nodes && n.id == self.id && n.key == self.key && n.ip == self.ip && n.serial == self.serial
  {
    var relays := RelayEndpoints(p.relays);
    forall r | r in p.relays ensures r.endpoint in relays && RelayOk(r, p) {
      var i :| 0 <= i < |p.relays| && p.relays[i] == r;
    }
    forall n | n in p.nodes ensures NodeOk(n, p, relays) {
      var i :| 0 <= i < |p.nodes| && p.nodes[i] == n;
    }
    forall n, e | n in p.nodes && e in n.direct ensures DirectOk(e, relays) {
      var i :| 0 <= i < |n.direct| && n.direct[i] == e;
    }
    forall n, c | n in p.nodes && c in n.candidates ensures CandidateOk(c, p.generatedAt, relays) {
      var i :| 0 <= i < |n.candidates| && n.candidates[i] == c;
    }
    var local :| 0 <= local < |p.nodes| && IsLocal(p.nodes[local], self);
    assert p.nodes[local] in p.nodes;
  }

  method ValidateDiscovery(endpoints: seq<Endpoint>) returns (ok: bool)
    ensures ok <==>
      && (forall i :: 0 <= i < |endpoints| ==> ValidService(endpoints[i]))
      && (forall i, j :: 0 <= i < j < |endpoints| ==> endpoints[i] != endpoints[j])
  {
    var unique: set<Endpoint> := {};
    for n := 0 to |endpoints|
      invariant unique == set i | 0 <= i < n :: endpoints[i]
      invariant forall i :: 0 <= i < n ==> ValidService(endpoints[i])
      invariant forall i, j :: 0 <= i < j < n ==> endpoints[i] != endpoints[j]
    {
      if !ValidService(endpoints[n]) || endpoints[n] in unique {
        return false;
      }
      unique := unique + {endpoints[n]};
    }
    return true;
  }

  /** Adjacent pairs decide the order of the whole list. */
  method FallsStrictly(cs: seq<Candidate>) returns (ok: bool)
    ensures ok <==> Decreasing(cs)
  {
    if cs == [] {
      return true;
    }
    for n := 1 to |cs|
      invariant Decreasing(cs[..n])
    {
      if cs[n - 1].priority <= cs[n].priority {
        return false;
      }
      forall i | 0 <= i < n ensures cs[i].priority > cs[n].priority {
        if i < n - 1 { assert cs[..n][i].priority > cs[..n][n - 1].priority; }
      }
    }
    assert cs[..|cs|] == cs;
    return true;
  }

  /** Claims a node's direct endpoints, unless one is bad, repeated, or someone else's. */
  method ClaimDirect(direct: seq<Endpoint>, relays: set<Endpoint>, owned: set<Endpoint>)
    returns (ok: bool, mine: set<Endpoint>)
    ensures ok <==>
      && (forall i :: 0 <= i < |direct| ==> DirectOk(direct[i], relays) && direct[i] !in owned)
      && (forall i, j :: 0 <= i < j < |direct| ==> direct[i] != direct[j])
    ensures ok ==> mine == set i | 0 <= i < |direct| :: direct[i]
  {
    mine := {};
    for n := 0 to |direct|
      invariant mine == set i | 0 <= i < n :: direct[i]
      invariant forall i :: 0 <= i < n ==> DirectOk(direct[i], relays) && direct[i] !in owned
      invariant forall i, j :: 0 <= i < j < n ==> direct[i] != direct[j]
    {
      var e := direct[n];
      if !DirectOk(e, relays) || e in mine || e in owned + mine {
        return false, mine;
      }
      mine := mine + {e};
    }
    return true, mine;
  }

  /** The same for its candidates, which may repeat its own direct endpoints. */
  method ClaimCandidates(cs: seq<Candidate>, generatedAt: nat, relays: set<Endpoint>, direct: set<Endpoint>, owned: set<Endpoint>)
    returns (ok: bool, all: set<Endpoint>)
    requires direct !! owned
    ensures ok <==>
      && (forall i :: 0 <= i < |cs| ==> CandidateOk(cs[i], generatedAt, relays) && cs[i].endpoint !in owned)
      && DistinctEndpoints(cs)
    ensures ok ==> all == owned + direct + EndpointsOf(cs)
  {
    var mine: set<Endpoint> := {};
    all := owned + direct;
    for n := 0 to |cs|
      invariant mine == EndpointsOf(cs[..n]) && all == owned + direct + mine
      invariant forall i :: 0 <= i < n ==> CandidateOk(cs[i], generatedAt, relays) && cs[i].endpoint !in owned
      invariant DistinctEndpoints(cs[..n])
    {
      var e := cs[n].endpoint;
      OneMoreCandidate(cs, n);
      if !CandidateOk(cs[n], generatedAt, relays) || e in mine || (e !in direct && e in all) {
        return false, all;
      }
      mine, all := mine + {e}, all + {e};
    }
    assert cs[..|cs|] == cs;
    return true, all;
  }

  lemma {:induction false} OneMoreCandidate(cs: seq<Candidate>, n: nat)
    requires n < |cs| && DistinctEndpoints(cs[..n])
    ensures EndpointsOf(cs[..n + 1]) == EndpointsOf(cs[..n]) + {cs[n].endpoint}
    ensures DistinctEndpoints(cs[..n + 1]) <==> cs[n].endpoint !in EndpointsOf(cs[..n])
    ensures cs[n].endpoint in EndpointsOf(cs[..n]) ==> !DistinctEndpoints(cs)
  {
    var before, after := cs[..n], cs[..n + 1];
    assert after == before + [cs[n]];
    if cs[n].endpoint in EndpointsOf(before) {
      var i :| 0 <= i < n && before[i].endpoint == cs[n].endpoint;
      assert after[i].endpoint == after[n].endpoint && cs[i] == before[i];
    }
  }

  function AllClaims(nodes: seq<Node>, count: nat): set<Endpoint>
    requires count <= |nodes|
  {
    if count == 0 then {} else AllClaims(nodes, count - 1) + Claims(nodes[count - 1])
  }

  lemma {:induction false} ClaimsAreApart(nodes: seq<Node>, count: nat, n: Node)
    requires count <= |nodes|
    ensures AllClaims(nodes, count) !! Claims(n) <==> forall i :: 0 <= i < count ==> Claims(nodes[i]) !! Claims(n)
  {
    if count > 0 { ClaimsAreApart(nodes, count - 1, n); }
  }

  /** One node against the sets kept for those before it. */
  method ValidateNode(p: Payload, n: nat, relays: set<Endpoint>, owned: set<Endpoint>) returns (ok: bool, all: set<Endpoint>)
    requires n < |p.nodes| && relays == RelayEndpoints(p.relays) && owned == AllClaims(p.nodes, n)
    ensures ok <==> NodeOk(p.nodes[n], p, relays) && forall i :: 0 <= i < n ==> Claims(p.nodes[i]) !! Claims(p.nodes[n])
    ensures ok ==> all == AllClaims(p.nodes, n + 1)
  {
    var node := p.nodes[n];
    ClaimsAreApart(p.nodes, n, node);
    all := owned;
    var falls := FallsStrictly(node.candidates);
    if |node.direct| > MAX_DIRECT_ENDPOINTS_PER_NODE || |node.candidates| > MAX_CANDIDATES_PER_NODE || !falls
       || !node.genuine || !(p.poolFirst <= node.ip <= p.poolLast) {
      return false, all;
    }
    var fine, direct := ClaimDirect(node.direct, relays, owned);
    if !fine {
      SomeDirectClaimed(node, owned);
      return false, all;
    }
    ok, all := ClaimCandidates(node.candidates, p.generatedAt, relays, direct, owned);
    if !ok {
      SomeCandidateClaimed(node, owned);
    }
  }

  lemma {:induction false} SomeDirectClaimed(n: Node, owned: set<Endpoint>)
    ensures Claims(n) !! owned ==> forall i :: 0 <= i < |n.direct| ==> n.direct[i] !in owned
  {
    forall i | 0 <= i < |n.direct| ensures n.direct[i] in Claims(n) { }
  }

  lemma {:induction false} SomeCandidateClaimed(n: Node, owned: set<Endpoint>)
    ensures Claims(n) !! owned ==> forall i :: 0 <= i < |n.candidates| ==> n.candidates[i].endpoint !in owned
  {
    forall i | 0 <= i < |n.candidates| ensures n.candidates[i].endpoint in Claims(n) { }
  }

  lemma {:induction false} NodesOkStep(p: Payload, n: nat)
    requires n < |p.nodes|
    ensures NodesOk(p, n + 1) <==> NodesOk(p, n) && NodeOk(p.nodes[n], p, RelayEndpoints(p.relays))
                                   && forall i :: 0 <= i < n ==> Apart(p.nodes[i], p.nodes[n])
  {
  }

  lemma {:induction false} NodesOkPrefix(p: Payload, n: nat)
    requires n <= |p.nodes| && NodesOk(p, |p.nodes|)
    ensures NodesOk(p, n)
  {
  }

  /** What the three sets of the loop hold. */
  ghost predicate Names(nodes: seq<Node>, n: nat, ids: set<nat>, keys: set<nat>, ips: set<nat>)
    requires n <= |nodes|
  {
    && ids == (set i | 0 <= i < n :: nodes[i].id)
    && keys == (set i | 0 <= i < n :: nodes[i].key)
    && ips == (set i | 0 <= i < n :: nodes[i].ip)
  }

  lemma {:induction false} NamesStep(nodes: seq<Node>, n: nat, ids: set<nat>, keys: set<nat>, ips: set<nat>)
    requires n < |nodes| && Names(nodes, n, ids, keys, ips)
    ensures Names(nodes, n + 1, ids + {nodes[n].id}, keys + {nodes[n].key}, ips + {nodes[n].ip})
    ensures nodes[n].id in ids || nodes[n].key in keys || nodes[n].ip in ips <==>
      exists i :: 0 <= i < n && Namesake(nodes[i], nodes[n])
  {
    if nodes[n].id in ids || nodes[n].key in keys || nodes[n].ip in ips {
      var i :| 0 <= i < n && (nodes[i].id == nodes[n].id || nodes[i].key == nodes[n].key || nodes[i].ip == nodes[n].ip);
      assert Namesake(nodes[i], nodes[n]);
    }
  }

  predicate Namesake(m: Node, n: Node) {
    m.id == n.id || m.key == n.key || m.ip == n.ip
  }

  ghost predicate HasLocal(nodes: seq<Node>, n: nat, self: Identity)
    requires n <= |nodes|
  {
    exists i :: 0 <= i < n && IsLocal(nodes[i], self)
  }

  lemma {:induction false} HasLocalStep(nodes: seq<Node>, n: nat, self: Identity)
    requires n < |nodes| && forall i :: 0 <= i < n ==> !Namesake(nodes[i], nodes[n])
    ensures HasLocal(nodes, n + 1, self) <==> if nodes[n].id == self.id then IsLocal(nodes[n], self) else HasLocal(nodes, n, self)
  {
    if nodes[n].id == self.id {
      forall i | 0 <= i < n ensures !IsLocal(nodes[i], self) {
        assert !Namesake(nodes[i], nodes[n]);
      }
    }
  }

  /** The sets kept by the loop over the nodes. */
  datatype Seen = Seen(ids: set<nat>, keys: set<nat>, ips: set<nat>, owned: set<Endpoint>)

  ghost predicate Tracks(seen: Seen, nodes: seq<Node>, n: nat)
    requires n <= |nodes|
  {
    Names(nodes, n, seen.ids, seen.keys, seen.ips) && seen.owned == AllClaims(nodes, n)
  }

  method AdmitNode(p: Payload, n: nat, relays: set<Endpoint>, seen: Seen) returns (ok: bool, seen': Seen)
    requires n < |p.nodes| && relays == RelayEndpoints(p.relays) && NodesOk(p, n) && Tracks(seen, p.nodes, n)
    ensures ok <==> NodesOk(p, n + 1)
    ensures ok ==> Tracks(seen', p.nodes, n + 1) && forall i :: 0 <= i < n ==> !Namesake(p.nodes[i], p.nodes[n])
  {
    var node := p.nodes[n];
    NodesOkStep(p, n);
    NamesStep(p.nodes, n, seen.ids, seen.keys, seen.ips);
    var good, all := ValidateNode(p, n, relays, seen.owned);
    ok := good && node.id !in seen.ids && node.key !in seen.keys && node.ip !in seen.ips;
    seen' := Seen(seen.ids + {node.id}, seen.keys + {node.key}, seen.ips + {node.ip}, all);
  }

  method ValidateNodes(p: Payload, self: Identity, relays: set<Endpoint>) returns (ok: bool)
    requires relays == RelayEndpoints(p.relays)
    ensures ok <==> NodesOk(p, |p.nodes|) && HasLocal(p.nodes, |p.nodes|, self)
  {
    var seen := Seen({}, {}, {}, {});
    var localMatch := false;
    for n := 0 to |p.nodes|
      invariant NodesOk(p, n)
      invariant Tracks(seen, p.nodes, n)
      invariant localMatch <==> HasLocal(p.nodes, n, self)
    {
      var good;
      good, seen := AdmitNode(p, n, relays, seen);
      if !good {
        if NodesOk(p, |p.nodes|) { NodesOkPrefix(p, n + 1); }
        return false;
      }
      HasLocalStep(p.nodes, n, self);
      if p.nodes[n].id == self.id {
        localMatch := IsLocal(p.nodes[n], self);
      }
    }
    ok := localMatch;
  }

  /** The validator accepts exactly the payloads with the promised properties. */
  method ValidateConfiguration(p: Payload, self: Identity) returns (ok: bool)
    ensures ok <==> Accepted(p, self)
  {
    if !HeaderOk(p.header, self) {
      return false;
    }
    if |p.discovery| > MAX_DISCOVERY_ENDPOINTS || |p.nodes| > MAX_CONFIGURATION_NODES || |p.relays| > MAX_CONFIGURED_RELAYS
       || !(p.poolFirst <= self.ip <= p.poolLast) {
      return false;
    }
    var discovery := ValidateDiscovery(p.discovery);
    if !discovery {
      return false;
    }
    var fine, relays := ValidateRelays(p);
    if !fine {
      return false;
    }
    ok := ValidateNodes(p, self, relays);
  }
}
