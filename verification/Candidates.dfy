/**
 Endpoints and the list of candidates through which a peer may be reached: how it is
 selected from a configured node, what order it has, and which candidate is probed.
 */
module Candidates {
  import opened Prelude

  const MAX_HANDSHAKE_CANDIDATES_PER_CYCLE: nat := 8
  const MAX_RELAY_CANDIDATES_PER_PEER: nat := 2
  const MAX_RELAYS: nat := 16
  const RELAY_CANDIDATE_PRIORITY_MAX: nat := 9_999
  const DIRECT_PRIORITY: nat := 20_000

  /** A socket address; addresses are the unsigned value of their bytes. */
  datatype Endpoint =
    | V4(address: nat, port: nat)
    | V6(address: nat, port: nat, flow: nat, scope: nat)

  datatype Kind = Local | PublicIpv6 | Mapped | Static | Relay

  datatype Candidate = Candidate(kind: Kind, endpoint: Endpoint, priority: nat, expiresAt: nat)

  const MAPPED_FIRST: nat := 0xFFFF_0000_0000
  const MAPPED_LAST: nat := 0xFFFF_FFFF_FFFF

  /** An IPv4-mapped IPv6 endpoint (section 2.5.5.2 of RFC 4291) stands for the IPv4 one. */
  function Normalize(e: Endpoint): Endpoint {
    if e.V6? && MAPPED_FIRST <= e.address <= MAPPED_LAST then V4(e.address - MAPPED_FIRST, e.port) else e
  }

  /** Mapped are exactly the addresses whose leading 96 bits are 80 zeros and 16 ones; the last 32 remain. */
  lemma {:induction false} NormalizeKeepsLowBits(e: Endpoint)
    ensures Normalize(e) ==
      if e.V6? && e.address / 0x1_0000_0000 == 0xFFFF then V4(e.address % 0x1_0000_0000, e.port) else e
    ensures Normalize(Normalize(e)) == Normalize(e)
  {
  }

  predicate Decreasing(cs: seq<Candidate>) {
    forall i, j :: 0 <= i < j < |cs| ==> cs[i].priority > cs[j].priority
  }

  /** A candidate list as configured: short and strictly ordered. */
  predicate Ordered(cs: seq<Candidate>) {
    |cs| <= MAX_HANDSHAKE_CANDIDATES_PER_CYCLE && Decreasing(cs)
  }

  function EndpointsOf(cs: seq<Candidate>): set<Endpoint> {
    set i | 0 <= i < |cs| :: cs[i].endpoint
  }

  predicate DistinctEndpoints(cs: seq<Candidate>) {
    forall i, j :: 0 <= i < j < |cs| ==> cs[i].endpoint != cs[j].endpoint
  }

  // ----- selection -----

  /** The usable candidates in order, normalized, the first of each endpoint. */
  function Live(cs: seq<Candidate>, now: nat, seen: set<Endpoint>): seq<Candidate> {
    if cs == [] then []
    else
      var e := Normalize(cs[0].endpoint);
      if cs[0].expiresAt <= now || cs[0].kind.Relay? || e in seen then Live(cs[1..], now, seen)
      else [cs[0].(endpoint := e)] + Live(cs[1..], now, seen + {e})
  }

  /** The direct endpoints in order, normalized and without repetition, as static candidates. */
  function Fallback(direct: seq<Endpoint>, expiresAt: nat, index: nat, seen: set<Endpoint>): seq<Candidate> {
    if direct == [] then []
    else
      var e := Normalize(direct[0]);
      if e in seen then Fallback(direct[1..], expiresAt, index, seen)
      else [Candidate(Static, e, if index <= 10_000 then 10_000 - index else 0, expiresAt)]
           + Fallback(direct[1..], expiresAt, index + 1, seen + {e})
  }

  /** Stable sort by falling priority. */
  function Sorted(cs: seq<Candidate>): (r: seq<Candidate>)
    ensures |r| == |cs|
  {
    if cs == [] then [] else Insert(cs[0], Sorted(cs[1..]))
  }

  function Insert(c: Candidate, cs: seq<Candidate>): (r: seq<Candidate>)
    ensures |r| == |cs| + 1
  {
    if cs == [] || c.priority >= cs[0].priority then [c] + cs else [cs[0]] + Insert(c, cs[1..])
  }

  function Renumbered(cs: seq<Candidate>): (r: seq<Candidate>)
    requires |cs| <= DIRECT_PRIORITY
    ensures |r| == |cs|
  {
    seq(|cs|, i requires 0 <= i < |cs| => cs[i].(priority := DIRECT_PRIORITY - i))
  }

  function Take(cs: seq<Candidate>, n: nat): seq<Candidate> {
    if |cs| <= n then cs else cs[..n]
  }

  function Usable(cs: seq<Candidate>, direct: seq<Endpoint>, notAfter: nat, now: nat): seq<Candidate> {
    var live := Live(cs, now, {});
    if live == [] then Fallback(direct, notAfter, 0, {}) else live
  }

  function DirectLimit(relays: seq<Candidate>): nat {
    MAX_HANDSHAKE_CANDIDATES_PER_CYCLE - Min(|relays|, MAX_RELAY_CANDIDATES_PER_PEER)
  }

  function DirectPart(cs: seq<Candidate>, direct: seq<Endpoint>, notAfter: nat, now: nat, relays: seq<Candidate>): seq<Candidate> {
    Renumbered(Take(Sorted(Usable(cs, direct, notAfter, now)), DirectLimit(relays)))
  }

  function ConfiguredCandidates(cs: seq<Candidate>, direct: seq<Endpoint>, notAfter: nat, now: nat,
                                relays: seq<Candidate>): seq<Candidate> {
    DirectPart(cs, direct, notAfter, now, relays) + Take(relays, MAX_RELAY_CANDIDATES_PER_PEER)
  }

  /** A relay client as far as its preference goes. */
  datatype RelayClient = RelayClient(id: nat, endpoint: Endpoint, priority: nat, expiresAt: nat)

  /** Falling priority, rising identifier among equals. */
  predicate Preferred(a: RelayClient, b: RelayClient) {
    a.priority > b.priority || (a.priority == b.priority && a.id <= b.id)
  }

  function ByPreference(clients: seq<RelayClient>): (r: seq<RelayClient>)
    ensures |r| == |clients|
  {
    if clients == [] then [] else InsertClient(clients[0], ByPreference(clients[1..]))
  }

  function InsertClient(c: RelayClient, cs: seq<RelayClient>): (r: seq<RelayClient>)
    ensures |r| == |cs| + 1
  {
    if cs == [] || Preferred(c, cs[0]) then [c] + cs else [cs[0]] + InsertClient(c, cs[1..])
  }

  /** The relay manager's candidates, from its clients in the order in which the table lists them. */
  function RelayCandidates(clients: seq<RelayClient>): seq<Candidate> {
    var sorted := ByPreference(clients);
    seq(Min(|sorted|, MAX_RELAYS), i requires 0 <= i < Min(|sorted|, MAX_RELAYS) =>
      Candidate(Relay, sorted[i].endpoint, RELAY_CANDIDATE_PRIORITY_MAX - i, sorted[i].expiresAt))
  }

  /** What the relay manager hands over. */
  predicate RelayList(relays: seq<Candidate>) {
    && |relays| <= MAX_RELAYS
    && (forall i :: 0 <= i < |relays| ==> relays[i].kind.Relay? && relays[i].priority == RELAY_CANDIDATE_PRIORITY_MAX - i)
  }

  // ----- what selection guarantees -----

  /** Direct candidates with endpoints from `from`. */
  ghost predicate DirectFrom(cs: seq<Candidate>, from: set<Endpoint>) {
    forall c :: c in cs ==> !c.kind.Relay? && c.endpoint in from
  }

  predicate Lacks(cs: seq<Candidate>, e: Endpoint) {
    forall c :: c in cs ==> c.endpoint != e
  }

  lemma {:induction false} DistinctCons(c: Candidate, cs: seq<Candidate>)
    requires DistinctEndpoints(cs) && Lacks(cs, c.endpoint)
    ensures DistinctEndpoints([c] + cs)
  {
    var all := [c] + cs;
    forall i, j | 0 <= i < j < |all| ensures all[i].endpoint != all[j].endpoint {
      assert all[j] == cs[j - 1];
      if i > 0 { assert all[i] == cs[i - 1]; } else { assert cs[j - 1] in cs; }
    }
  }

  lemma {:induction false} DistinctUncons(cs: seq<Candidate>)
    requires DistinctEndpoints(cs) && cs != []
    ensures DistinctEndpoints(cs[1..]) && Lacks(cs[1..], cs[0].endpoint)
  {
  }

  /** The endpoints a node may be known by. */
  function NodeEndpoints(cs: seq<Candidate>, direct: seq<Endpoint>): set<Endpoint> {
    EndpointsOf(cs) + set i | 0 <= i < |direct| :: direct[i]
  }

  function Normalized(es: set<Endpoint>): set<Endpoint> {
    set e | e in es :: Normalize(e)
  }

  lemma {:induction false} LiveIsDistinct(cs: seq<Candidate>, now: nat, seen: set<Endpoint>, from: set<Endpoint>)
    requires EndpointsOf(cs) <= from
    ensures var r := Live(cs, now, seen);
      DistinctEndpoints(r) && DirectFrom(r, Normalized(from)) && forall e :: e in seen ==> Lacks(r, e)
  {
    if cs != [] {
      var e := Normalize(cs[0].endpoint);
      assert cs[0].endpoint in EndpointsOf(cs);
      forall x | x in EndpointsOf(cs[1..]) ensures x in EndpointsOf(cs) {
        var i :| 0 <= i < |cs[1..]| && cs[1..][i].endpoint == x;
        assert cs[i + 1].endpoint == x;
      }
      if cs[0].expiresAt <= now || cs[0].kind.Relay? || e in seen {
        LiveIsDistinct(cs[1..], now, seen, from);
      } else {
        LiveIsDistinct(cs[1..], now, seen + {e}, from);
        assert e in seen + {e};
        DistinctCons(cs[0].(endpoint := e), Live(cs[1..], now, seen + {e}));
      }
    }
  }

  lemma {:induction false} FallbackIsDistinct(direct: seq<Endpoint>, expiresAt: nat, index: nat, seen: set<Endpoint>, from: set<Endpoint>)
    requires forall i :: 0 <= i < |direct| ==> direct[i] in from
    ensures var r := Fallback(direct, expiresAt, index, seen);
      DistinctEndpoints(r) && DirectFrom(r, Normalized(from)) && forall e :: e in seen ==> Lacks(r, e)
  {
    if direct != [] {
      var e := Normalize(direct[0]);
      if e in seen {
        FallbackIsDistinct(direct[1..], expiresAt, index, seen, from);
      } else {
        var rest := Fallback(direct[1..], expiresAt, index + 1, seen + {e});
        FallbackIsDistinct(direct[1..], expiresAt, index + 1, seen + {e}, from);
        assert e in seen + {e};
        DistinctCons(Fallback(direct, expiresAt, index, seen)[0], rest);
      }
    }
  }

  predicate Falling(cs: seq<Candidate>) {
    forall i, j :: 0 <= i < j < |cs| ==> cs[i].priority >= cs[j].priority
  }

  lemma {:induction false} InsertMembers(c: Candidate, cs: seq<Candidate>)
    ensures forall x :: x in Insert(c, cs) <==> x == c || x in cs
  {
    if cs != [] && c.priority < cs[0].priority {
      InsertMembers(c, cs[1..]);
      assert cs == [cs[0]] + cs[1..];
    }
  }

  lemma {:induction false} InsertDistinct(c: Candidate, cs: seq<Candidate>)
    requires DistinctEndpoints(cs) && Lacks(cs, c.endpoint)
    ensures DistinctEndpoints(Insert(c, cs))
  {
    if cs == [] || c.priority >= cs[0].priority {
      DistinctCons(c, cs);
    } else {
      DistinctUncons(cs);
      InsertDistinct(c, cs[1..]);
      InsertMembers(c, cs[1..]);
      assert cs[0] in cs;
      DistinctCons(cs[0], Insert(c, cs[1..]));
    }
  }

  lemma {:induction false} InsertFalling(c: Candidate, cs: seq<Candidate>)
    requires Falling(cs)
    ensures Falling(Insert(c, cs))
  {
    if cs != [] && c.priority < cs[0].priority {
      InsertFalling(c, cs[1..]);
      InsertMembers(c, cs[1..]);
      forall x | x in Insert(c, cs[1..]) ensures cs[0].priority >= x.priority { }
    }
  }

  lemma {:induction false} InsertCounts(c: Candidate, cs: seq<Candidate>)
    ensures multiset(Insert(c, cs)) == multiset(cs) + multiset{c}
  {
    if cs != [] && c.priority < cs[0].priority {
      InsertCounts(c, cs[1..]);
      assert cs == [cs[0]] + cs[1..];
    }
  }

  /** The sort is a permutation into falling order. */
  lemma {:induction false} SortedIsSorted(cs: seq<Candidate>)
    ensures multiset(Sorted(cs)) == multiset(cs) && Falling(Sorted(cs))
  {
    if cs != [] {
      SortedIsSorted(cs[1..]);
      InsertCounts(cs[0], Sorted(cs[1..]));
      InsertFalling(cs[0], Sorted(cs[1..]));
      assert cs == [cs[0]] + cs[1..];
    }
  }

  lemma {:induction false} SortedMembers(cs: seq<Candidate>)
    ensures forall x :: x in Sorted(cs) <==> x in cs
    ensures DistinctEndpoints(cs) ==> DistinctEndpoints(Sorted(cs))
  {
    if cs != [] {
      SortedMembers(cs[1..]);
      InsertMembers(cs[0], Sorted(cs[1..]));
      assert cs == [cs[0]] + cs[1..];
      if DistinctEndpoints(cs) {
        DistinctUncons(cs);
        InsertDistinct(cs[0], Sorted(cs[1..]));
      }
    }
  }

  /** A strictly decreasing list stays as it is. */
  lemma {:induction false} SortedIsFixed(cs: seq<Candidate>)
    requires Decreasing(cs)
    ensures Sorted(cs) == cs
  {
    if cs != [] {
      SortedIsFixed(cs[1..]);
      assert cs == [cs[0]] + cs[1..];
      if |cs| > 1 { assert cs[0].priority > cs[1].priority; }
    }
  }

  lemma {:induction false} UsableIsDistinct(cs: seq<Candidate>, direct: seq<Endpoint>, notAfter: nat, now: nat)
    ensures var r := Usable(cs, direct, notAfter, now);
      DistinctEndpoints(r) && DirectFrom(r, Normalized(NodeEndpoints(cs, direct)))
  {
    LiveIsDistinct(cs, now, {}, NodeEndpoints(cs, direct));
    FallbackIsDistinct(direct, notAfter, 0, {}, NodeEndpoints(cs, direct));
  }

  lemma {:induction false} RenumberedKeeps(cs: seq<Candidate>, n: nat, from: set<Endpoint>)
    requires n <= MAX_HANDSHAKE_CANDIDATES_PER_CYCLE && DistinctEndpoints(cs) && DirectFrom(cs, from)
    ensures var r := Renumbered(Take(cs, n));
      && |r| == Min(|cs|, n) && DistinctEndpoints(r) && DirectFrom(r, from)
      && (forall i :: 0 <= i < |r| ==> r[i].priority == DIRECT_PRIORITY - i && r[i].endpoint == cs[i].endpoint)
  {
    var r := Renumbered(Take(cs, n));
    forall c | c in r ensures !c.kind.Relay? && c.endpoint in from {
      var i :| 0 <= i < |r| && r[i] == c;
      assert cs[i] in cs;
    }
  }

  /** The direct part: bounded, without relays or repetitions, normalized endpoints of the node. */
  lemma {:induction false} DirectPartIsSound(cs: seq<Candidate>, direct: seq<Endpoint>, notAfter: nat, now: nat, relays: seq<Candidate>)
    ensures var r := DirectPart(cs, direct, notAfter, now, relays);
      && |r| <= DirectLimit(relays) && DistinctEndpoints(r)
      && DirectFrom(r, Normalized(NodeEndpoints(cs, direct)))
      && (forall i :: 0 <= i < |r| ==> r[i].priority == DIRECT_PRIORITY - i)
  {
    var usable := Usable(cs, direct, notAfter, now);
    UsableIsDistinct(cs, direct, notAfter, now);
    SortedMembers(usable);
    RenumberedKeeps(Sorted(usable), DirectLimit(relays), Normalized(NodeEndpoints(cs, direct)));
  }

  /** At most eight candidates, strictly decreasing over the direct and then the relay entries. */
  lemma {:induction false} CandidatesAreOrdered(cs: seq<Candidate>, direct: seq<Endpoint>, notAfter: nat, now: nat, relays: seq<Candidate>)
    requires RelayList(relays)
    ensures Ordered(ConfiguredCandidates(cs, direct, notAfter, now, relays))
  {
    DirectPartIsSound(cs, direct, notAfter, now, relays);
  }

  /** A validated node, whose priorities already fall, loses only the tail: the best candidates are kept, in order. */
  lemma {:induction false} SelectionKeepsTheBest(cs: seq<Candidate>, direct: seq<Endpoint>, notAfter: nat, now: nat, relays: seq<Candidate>)
    requires Decreasing(cs)
    requires |direct| <= 10_000
    ensures var usable := Usable(cs, direct, notAfter, now);
      var r := DirectPart(cs, direct, notAfter, now, relays);
      && |r| == Min(|usable|, DirectLimit(relays))
      && forall i :: 0 <= i < |r| ==> r[i].endpoint == usable[i].endpoint
  {
    LiveIsDecreasing(cs, now, {}, if cs == [] then 0 else cs[0].priority + 1);
    FallbackIsDecreasing(direct, notAfter, 0, {});
    SortedIsFixed(Usable(cs, direct, notAfter, now));
  }

  // ----- which candidates are selected -----

  /** Unexpired and direct. */
  predicate UsableAt(c: Candidate, now: nat) {
    c.expiresAt > now && !c.kind.Relay?
  }

  /** The `i`-th candidate is usable, and the first usable one of its endpoint; `seen` are endpoints taken before. */
  predicate SelectedAt(cs: seq<Candidate>, now: nat, seen: set<Endpoint>, i: nat)
    requires i < |cs|
  {
    && UsableAt(cs[i], now) && Normalize(cs[i].endpoint) !in seen
    && forall j :: 0 <= j < i && UsableAt(cs[j], now) ==> Normalize(cs[j].endpoint) != Normalize(cs[i].endpoint)
  }

  /** `r` consists of the candidates at the places of `from`, in order, with normalized endpoints. */
  predicate PickedFrom(r: seq<Candidate>, cs: seq<Candidate>, from: seq<nat>) {
    && |from| == |r|
    && (forall k, l :: 0 <= k < l < |from| ==> from[k] < from[l])
    && (forall k :: 0 <= k < |from| ==> from[k] < |cs| && r[k] == cs[from[k]].(endpoint := Normalize(cs[from[k]].endpoint)))
  }

  /** Every place in the tail of a list is one further on in the list. */
  function Shifted(from: seq<nat>): seq<nat> {
    seq(|from|, k requires 0 <= k < |from| => from[k] + 1)
  }

  lemma {:induction false} SelectedInTail(cs: seq<Candidate>, now: nat, seen: set<Endpoint>, i: nat)
    requires 0 < i < |cs|
    ensures SelectedAt(cs, now, seen, i) <==>
      SelectedAt(cs[1..], now, if UsableAt(cs[0], now) then seen + {Normalize(cs[0].endpoint)} else seen, i - 1)
  {
    var seen' := if UsableAt(cs[0], now) then seen + {Normalize(cs[0].endpoint)} else seen;
    if SelectedAt(cs[1..], now, seen', i - 1) {
      forall j | 0 <= j < i && UsableAt(cs[j], now) ensures Normalize(cs[j].endpoint) != Normalize(cs[i].endpoint) {
        if j > 0 { assert cs[1..][j - 1] == cs[j]; }
      }
    }
  }

  lemma {:induction false} PickedShifts(r: seq<Candidate>, cs: seq<Candidate>, from: seq<nat>)
    requires cs != [] && PickedFrom(r, cs[1..], from)
    ensures PickedFrom(r, cs, Shifted(from))
    ensures PickedFrom([cs[0].(endpoint := Normalize(cs[0].endpoint))] + r, cs, [0] + Shifted(from))
  {
  }

  lemma {:induction false} ShiftedMembers(from: seq<nat>, i: nat)
    ensures i in Shifted(from) <==> i > 0 && i - 1 in from
  {
    if i > 0 && i - 1 in from {
      var k :| 0 <= k < |from| && from[k] == i - 1;
      assert Shifted(from)[k] == i;
    }
  }

  /** The selection takes exactly the first usable candidate of every endpoint, in order. */
  lemma {:induction false} LiveSelects(cs: seq<Candidate>, now: nat, seen: set<Endpoint>) returns (from: seq<nat>)
    ensures PickedFrom(Live(cs, now, seen), cs, from)
    ensures forall i :: 0 <= i < |cs| ==> (i in from <==> SelectedAt(cs, now, seen, i))
  {
    if cs == [] {
      return [];
    }
    var e := Normalize(cs[0].endpoint);
    var seen' := if UsableAt(cs[0], now) then seen + {e} else seen;
    assert e in seen ==> seen + {e} == seen;
    var rest := LiveSelects(cs[1..], now, seen');
    PickedShifts(Live(cs[1..], now, seen'), cs, rest);
    from := if SelectedAt(cs, now, seen, 0) then [0] + Shifted(rest) else Shifted(rest);
    forall i | 0 <= i < |cs| ensures i in from <==> SelectedAt(cs, now, seen, i) {
      ShiftedMembers(rest, i);
      if i > 0 { SelectedInTail(cs, now, seen, i); }
    }
  }

  /** Each fallback candidate is a direct endpoint of the node. */
  lemma {:induction false} FallbackIsDirect(direct: seq<Endpoint>, expiresAt: nat, index: nat, seen: set<Endpoint>)
    ensures forall c :: c in Fallback(direct, expiresAt, index, seen) ==>
      c.kind.Static? && c.expiresAt == expiresAt && exists i :: 0 <= i < |direct| && Normalize(direct[i]) == c.endpoint
  {
    if direct != [] {
      var e, r := Normalize(direct[0]), Fallback(direct, expiresAt, index, seen);
      var rest := if e in seen then r else r[1..];
      FallbackIsDirect(direct[1..], expiresAt, if e in seen then index else index + 1, if e in seen then seen else seen + {e});
      forall c | c in rest ensures exists i :: 0 <= i < |direct| && Normalize(direct[i]) == c.endpoint {
        var i :| 0 <= i < |direct[1..]| && Normalize(direct[1..][i]) == c.endpoint;
        assert Normalize(direct[i + 1]) == c.endpoint;
      }
    }
  }

  /** And every direct endpoint has one. */
  lemma {:induction false} FallbackHasAll(direct: seq<Endpoint>, expiresAt: nat, index: nat, seen: set<Endpoint>, i: nat)
    requires i < |direct| && Normalize(direct[i]) !in seen
    ensures Normalize(direct[i]) in EndpointsOf(Fallback(direct, expiresAt, index, seen))
  {
    var e, x, r := Normalize(direct[0]), Normalize(direct[i]), Fallback(direct, expiresAt, index, seen);
    if e in seen {
      FallbackHasAll(direct[1..], expiresAt, index, seen, i - 1);
    } else if x == e {
      assert r[0].endpoint == x;
    } else {
      FallbackHasAll(direct[1..], expiresAt, index + 1, seen + {e}, i - 1);
      var k :| 0 <= k < |r[1..]| && r[1..][k].endpoint == x;
      assert r[k + 1].endpoint == x;
    }
  }

  /** This candidate is a usable one of the node, but for its priority and the form of its endpoint. */
  ghost predicate IsOfNode(c: Candidate, cs: seq<Candidate>, now: nat) {
    exists i :: 0 <= i < |cs| && UsableAt(cs[i], now) && c.endpoint == Normalize(cs[i].endpoint)
                && c.kind == cs[i].kind && c.expiresAt == cs[i].expiresAt
  }

  /**
   Every direct candidate that is selected is unexpired and comes from the node; only
   if the node has no usable candidate at all are its direct endpoints used instead,
   until its credential ends.
   */
  lemma {:induction false} SelectionIsUsable(cs: seq<Candidate>, direct: seq<Endpoint>, notAfter: nat, now: nat, relays: seq<Candidate>, c: Candidate)
    requires c in DirectPart(cs, direct, notAfter, now, relays)
    ensures if exists i :: 0 <= i < |cs| && UsableAt(cs[i], now) then c.expiresAt > now && IsOfNode(c, cs, now)
      else c.kind.Static? && c.expiresAt == notAfter && exists i :: 0 <= i < |direct| && Normalize(direct[i]) == c.endpoint
  {
    var live, usable := Live(cs, now, {}), Usable(cs, direct, notAfter, now);
    var from := LiveSelects(cs, now, {});
    NoneIsLive(cs, now);
    FallbackIsDirect(direct, notAfter, 0, {});
    var r, sorted := DirectPart(cs, direct, notAfter, now, relays), Sorted(usable);
    var n :| 0 <= n < |r| && r[n] == c;
    SortedIsSorted(usable);
    assert sorted[n] in multiset(sorted);
    assert sorted[n] in usable;
    if live != [] {
      var k :| 0 <= k < |live| && live[k] == sorted[n];
      assert from[k] in from;
    }
  }

  /** An endpoint that could be used is left out only when the list is full, of candidates that rank at least as high. */
  lemma {:induction false} SelectionDropsTheWorst(cs: seq<Candidate>, direct: seq<Endpoint>, notAfter: nat, now: nat, relays: seq<Candidate>, k: nat)
    requires k < |Usable(cs, direct, notAfter, now)|
    requires Lacks(DirectPart(cs, direct, notAfter, now, relays), Usable(cs, direct, notAfter, now)[k].endpoint)
    ensures var usable, r := Usable(cs, direct, notAfter, now), DirectPart(cs, direct, notAfter, now, relays);
      && |r| == DirectLimit(relays)
      && forall i :: 0 <= i < |r| ==>
           exists j :: 0 <= j < |usable| && usable[j].endpoint == r[i].endpoint && usable[j].priority >= usable[k].priority
  {
    var usable, r := Usable(cs, direct, notAfter, now), DirectPart(cs, direct, notAfter, now, relays);
    var sorted := Sorted(usable);
    SortedIsSorted(usable);
    assert forall i :: 0 <= i < |r| ==> r[i].endpoint == sorted[i].endpoint;
    HigherComesFirst(usable, k, |r|);
  }

  /** A node without a usable candidate is reached at its direct endpoints, all of them unless the list is full. */
  lemma {:induction false} DirectEndpointsStandIn(cs: seq<Candidate>, direct: seq<Endpoint>, notAfter: nat, now: nat, relays: seq<Candidate>, i: nat)
    requires i < |direct| && !exists k :: 0 <= k < |cs| && UsableAt(cs[k], now)
    ensures Lacks(DirectPart(cs, direct, notAfter, now, relays), Normalize(direct[i])) ==>
      |DirectPart(cs, direct, notAfter, now, relays)| == DirectLimit(relays)
  {
    NoneIsLive(cs, now);
    FallbackHasAll(direct, notAfter, 0, {}, i);
    var usable := Usable(cs, direct, notAfter, now);
    var k :| 0 <= k < |usable| && usable[k].endpoint == Normalize(direct[i]);
    if Lacks(DirectPart(cs, direct, notAfter, now, relays), usable[k].endpoint) {
      SelectionDropsTheWorst(cs, direct, notAfter, now, relays, k);
    }
  }

  lemma {:induction false} HigherComesFirst(usable: seq<Candidate>, k: nat, n: nat)
    requires k < |usable| && n <= |Sorted(usable)|
    requires forall i :: 0 <= i < n ==> Sorted(usable)[i].endpoint != usable[k].endpoint
    ensures n < |Sorted(usable)|
    ensures forall i :: 0 <= i < n ==>
      exists j :: 0 <= j < |usable| && usable[j].endpoint == Sorted(usable)[i].endpoint && usable[j].priority >= usable[k].priority
  {
    var sorted := Sorted(usable);
    SortedIsSorted(usable);
    assert usable[k] in multiset(sorted);
    var m :| 0 <= m < |sorted| && sorted[m] == usable[k];
    forall i | 0 <= i < n
      ensures exists j :: 0 <= j < |usable| && usable[j].endpoint == sorted[i].endpoint && usable[j].priority >= usable[k].priority
    {
      assert sorted[i] in multiset(sorted) && sorted[i] in usable;
      var j :| 0 <= j < |usable| && usable[j] == sorted[i];
    }
  }

  /** Nothing is live exactly when nothing is usable. */
  lemma {:induction false} NoneIsLive(cs: seq<Candidate>, now: nat)
    ensures Live(cs, now, {}) == [] <==> !exists i :: 0 <= i < |cs| && UsableAt(cs[i], now)
  {
    var from := LiveSelects(cs, now, {});
    if Live(cs, now, {}) == [] {
      forall i | 0 <= i < |cs| ensures !UsableAt(cs[i], now) {
        FirstIsSelected(cs, now, i);
      }
    } else {
      assert from[0] in from;
    }
  }

  lemma {:induction false} FirstIsSelected(cs: seq<Candidate>, now: nat, i: nat)
    requires i < |cs| && forall k :: 0 <= k < |cs| ==> !SelectedAt(cs, now, {}, k)
    ensures !UsableAt(cs[i], now)
  {
    if UsableAt(cs[i], now) {
      assert !SelectedAt(cs, now, {}, i);
      var j :| 0 <= j < i && UsableAt(cs[j], now) && Normalize(cs[j].endpoint) == Normalize(cs[i].endpoint);
      FirstIsSelected(cs, now, j);
    }
  }

  predicate AllBelow(cs: seq<Candidate>, top: nat) {
    forall i :: 0 <= i < |cs| ==> cs[i].priority < top
  }

  lemma {:induction false} LiveIsDecreasing(cs: seq<Candidate>, now: nat, seen: set<Endpoint>, top: nat)
    requires Decreasing(cs) && AllBelow(cs, top)
    ensures Decreasing(Live(cs, now, seen)) && AllBelow(Live(cs, now, seen), top)
  {
    if cs != [] {
      assert Decreasing(cs[1..]) && AllBelow(cs[1..], cs[0].priority) && cs[0].priority < top;
      var e := Normalize(cs[0].endpoint);
      if cs[0].expiresAt <= now || cs[0].kind.Relay? || e in seen {
        LiveIsDecreasing(cs[1..], now, seen, top);
      } else {
        LiveIsDecreasing(cs[1..], now, seen + {e}, cs[0].priority);
      }
    }
  }

  lemma {:induction false} FallbackIsDecreasing(direct: seq<Endpoint>, expiresAt: nat, index: nat, seen: set<Endpoint>)
    ensures var r := Fallback(direct, expiresAt, index, seen);
      && |r| <= |direct|
      && (index + |direct| <= 10_000 ==> forall i :: 0 <= i < |r| ==> r[i].priority == 10_000 - index - i)
  {
    if direct != [] {
      FallbackIsDecreasing(direct[1..], expiresAt, index, seen);
      FallbackIsDecreasing(direct[1..], expiresAt, index + 1, seen + {Normalize(direct[0])});
    }
  }

  predicate InPreference(cs: seq<RelayClient>) {
    forall i, j :: 0 <= i < j < |cs| ==> Preferred(cs[i], cs[j])
  }

  predicate DistinctIds(cs: seq<RelayClient>) {
    forall i, j :: 0 <= i < j < |cs| ==> cs[i].id != cs[j].id
  }

  lemma {:induction false} InsertClientKeeps(c: RelayClient, cs: seq<RelayClient>)
    ensures multiset(InsertClient(c, cs)) == multiset(cs) + multiset{c}
    ensures forall x :: x in InsertClient(c, cs) <==> x == c || x in cs
  {
    if cs != [] {
      assert cs == [cs[0]] + cs[1..];
      if !Preferred(c, cs[0]) { InsertClientKeeps(c, cs[1..]); }
    }
  }

  lemma {:induction false} InsertClientOrders(c: RelayClient, cs: seq<RelayClient>)
    requires InPreference(cs)
    ensures InPreference(InsertClient(c, cs))
  {
    if cs != [] && !Preferred(c, cs[0]) {
      InsertClientOrders(c, cs[1..]);
      InsertClientKeeps(c, cs[1..]);
      forall x | x in InsertClient(c, cs[1..]) ensures Preferred(cs[0], x) { }
    }
  }

  lemma {:induction false} ByPreferenceSorts(clients: seq<RelayClient>)
    ensures multiset(ByPreference(clients)) == multiset(clients) && InPreference(ByPreference(clients))
  {
    if clients != [] {
      ByPreferenceSorts(clients[1..]);
      InsertClientKeeps(clients[0], ByPreference(clients[1..]));
      InsertClientOrders(clients[0], ByPreference(clients[1..]));
      assert clients == [clients[0]] + clients[1..];
    }
  }

  lemma {:induction false} SameTails(a: seq<RelayClient>, b: seq<RelayClient>)
    requires a != [] && b != [] && a[0] == b[0] && multiset(a) == multiset(b)
    ensures multiset(a[1..]) == multiset(b[1..])
  {
    assert a == [a[0]] + a[1..] && b == [b[0]] + b[1..];
    assert multiset(a[1..]) == multiset(a) - multiset{a[0]};
  }

  lemma {:induction false} TailKeeps(a: seq<RelayClient>)
    requires a != [] && InPreference(a) && KnownById(a)
    ensures InPreference(a[1..]) && KnownById(a[1..])
  {
    assert forall x :: x in a[1..] ==> x in a;
  }

  lemma {:induction false} SameCounts(a: seq<RelayClient>, b: seq<RelayClient>)
    requires multiset(a) == multiset(b)
    ensures |a| == |b| && forall x :: x in a <==> x in b
  {
    assert |a| == |multiset(a)| && |b| == |multiset(b)|;
    assert forall x :: x in a <==> x in multiset(a);
    assert forall x :: x in b <==> x in multiset(b);
  }

  predicate KnownById(a: seq<RelayClient>) {
    forall x, y :: x in a && y in a && x.id == y.id ==> x == y
  }

  /** Ordered lists of the same clients are the same list. */
  lemma {:induction false} OneOrder(a: seq<RelayClient>, b: seq<RelayClient>)
    requires multiset(a) == multiset(b) && InPreference(a) && InPreference(b) && KnownById(a)
    ensures a == b
  {
    SameCounts(a, b);
    if a != [] {
      SameHead(a, b);
      SameTails(a, b);
      TailKeeps(a);
      OneOrder(a[1..], b[1..]);
      assert a == [a[0]] + a[1..] && b == [b[0]] + b[1..];
    }
  }

  lemma {:induction false} SameHead(a: seq<RelayClient>, b: seq<RelayClient>)
    requires a != [] && b != [] && InPreference(a) && InPreference(b) && a[0] in b && b[0] in a && KnownById(a)
    ensures a[0] == b[0]
  {
    var i :| 0 <= i < |b| && b[i] == a[0];
    var j :| 0 <= j < |a| && a[j] == b[0];
    assert i > 0 ==> Preferred(b[0], a[0]);
    assert j > 0 ==> Preferred(a[0], b[0]);
  }

  lemma {:induction false} RelayCandidatesList(clients: seq<RelayClient>)
    ensures RelayList(RelayCandidates(clients))
    ensures Decreasing(RelayCandidates(clients))
  {
  }

  /**
   The candidates do not depend on the order in which the table of clients is walked:
   they are the most preferred clients, by falling priority and rising identifier.
   */
  lemma {:induction false} RelayCandidatesAreCanonical(clients: seq<RelayClient>, other: seq<RelayClient>)
    requires multiset(clients) == multiset(other) && DistinctIds(clients)
    ensures RelayCandidates(clients) == RelayCandidates(other)
    ensures multiset(ByPreference(clients)) == multiset(clients) && InPreference(ByPreference(clients))
  {
    ByPreferenceSorts(clients);
    ByPreferenceSorts(other);
    forall x, y | x in ByPreference(clients) && y in ByPreference(clients) && x.id == y.id ensures x == y {
      assert x in multiset(clients) && y in multiset(clients);
      var i :| 0 <= i < |clients| && clients[i] == x;
      var j :| 0 <= j < |clients| && clients[j] == y;
    }
    OneOrder(ByPreference(clients), ByPreference(other));
  }

  // ----- pruning and probing -----

  function Unexpired(cs: seq<Candidate>, now: nat): seq<Candidate> {
    if cs == [] then []
    else (if cs[0].expiresAt > now then [cs[0]] else []) + Unexpired(cs[1..], now)
  }

  lemma {:induction false} PruningFilters(cs: seq<Candidate>, now: nat)
    ensures |Unexpired(cs, now)| <= |cs|
    ensures forall c :: c in Unexpired(cs, now) <==> c in cs && c.expiresAt > now
  {
    if cs != [] {
      PruningFilters(cs[1..], now);
      assert cs == [cs[0]] + cs[1..];
    }
  }

  /** Pruning keeps exactly the unexpired candidates, and their order. */
  lemma {:induction false} PruningKeepsOrder(cs: seq<Candidate>, now: nat)
    requires Decreasing(cs)
    ensures Decreasing(Unexpired(cs, now)) && |Unexpired(cs, now)| <= |cs|
    ensures forall c :: c in Unexpired(cs, now) <==> c in cs && c.expiresAt > now
  {
    PruningFilters(cs, now);
    if cs != [] {
      PruningKeepsOrder(cs[1..], now);
      DecreasingCons(cs[0], cs[1..], Unexpired(cs[1..], now));
    }
  }

  lemma {:induction false} DecreasingCons(c: Candidate, rest: seq<Candidate>, some: seq<Candidate>)
    requires (forall i :: 0 <= i < |rest| ==> c.priority > rest[i].priority) && Decreasing(some)
    requires forall x :: x in some ==> x in rest
    ensures Decreasing([c] + some)
  {
    forall j | 0 <= j < |some| ensures c.priority > some[j].priority {
      assert some[j] in rest;
    }
  }

  function PriorityOf(cs: seq<Candidate>, e: Endpoint): Option<nat> {
    if cs == [] then None else if cs[0].endpoint == e then Some(cs[0].priority) else PriorityOf(cs[1..], e)
  }

  function FirstBetter(cs: seq<Candidate>, active: Option<Endpoint>, priority: Option<nat>): Option<Endpoint> {
    if cs == [] then None
    else if Some(cs[0].endpoint) != active && (priority.None? || cs[0].priority > priority.value) then Some(cs[0].endpoint)
    else FirstBetter(cs[1..], active, priority)
  }

  function BestProbeTarget(cs: seq<Candidate>, active: Option<Endpoint>): Option<Endpoint> {
    FirstBetter(cs, active, if active.None? then None else PriorityOf(cs, active.value))
  }

  lemma {:induction false} PriorityIsAmong(cs: seq<Candidate>, e: Endpoint)
    ensures var p := PriorityOf(cs, e);
      p.Some? ==> exists i :: 0 <= i < |cs| && cs[i].endpoint == e && cs[i].priority == p.value
  {
    if cs != [] && cs[0].endpoint != e { PriorityIsAmong(cs[1..], e); }
  }

  lemma {:induction false} NoneBetter(cs: seq<Candidate>, active: Option<Endpoint>, priority: nat)
    requires forall i :: 0 <= i < |cs| ==> cs[i].priority <= priority
    ensures FirstBetter(cs, active, Some(priority)) == None
  {
    if cs != [] { NoneBetter(cs[1..], active, priority); }
  }

  /** The scan over the list comes down to its head: probe it unless it is active. */
  lemma {:induction false} ProbeTargetIsHead(cs: seq<Candidate>, active: Option<Endpoint>)
    requires Decreasing(cs)
    ensures BestProbeTarget(cs, active) ==
      if cs != [] && Some(cs[0].endpoint) != active then Some(cs[0].endpoint) else None
  {
    if cs != [] {
      if active.Some? { PriorityIsAmong(cs, active.value); }
      if Some(cs[0].endpoint) == active { NoneBetter(cs, active, cs[0].priority); }
    }
  }

  // ----- changing paths -----

  predicate RoutesChanged(a: seq<Candidate>, b: seq<Candidate>) {
    |a| != |b| || exists i :: 0 <= i < |a| && RouteDiffers(a[i], b[i])
  }

  /** Everything but the expiry counts. */
  predicate RouteDiffers(a: Candidate, b: Candidate) {
    a.kind != b.kind || a.endpoint != b.endpoint || a.priority != b.priority
  }

  /** The list with every expiry struck out. */
  function Routes(cs: seq<Candidate>): seq<Candidate> {
    seq(|cs|, i requires 0 <= i < |cs| => cs[i].(expiresAt := 0))
  }

  lemma {:induction false} RoutesChangedIff(a: seq<Candidate>, b: seq<Candidate>)
    ensures RoutesChanged(a, b) <==> Routes(a) != Routes(b)
  {
    if Routes(a) == Routes(b) {
      assert |a| == |Routes(a)| == |b|;
      forall i | 0 <= i < |a| ensures !RouteDiffers(a[i], b[i]) {
        assert Routes(a)[i] == Routes(b)[i];
      }
    } else if |a| == |b| {
      var i :| 0 <= i < |a| && Routes(a)[i] != Routes(b)[i];
      assert RouteDiffers(a[i], b[i]);
    }
  }

  function Position(candidates: seq<Candidate>, endpoint: Endpoint): Option<nat> {
    if candidates == [] then None
    else if candidates[0].endpoint == endpoint then Some(0)
    else
      var rest := Position(candidates[1..], endpoint);
      if rest.None? then None else Some(rest.value + 1)
  }

  function FirstOther(candidates: seq<Candidate>, endpoint: Endpoint): Option<Endpoint> {
    if candidates == [] then None
    else if candidates[0].endpoint != endpoint then Some(candidates[0].endpoint)
    else FirstOther(candidates[1..], endpoint)
  }

  /** The first other endpoint after the failed one, or else the first other one of all. */
  function NextPath(cs: seq<Candidate>, failed: Endpoint): Option<Endpoint> {
    var at := Position(cs, failed);
    var start := if at.None? then 0 else Min(at.value + 1, |cs|);
    var later := FirstOther(cs[start..], failed);
    if later.Some? then later else FirstOther(cs, failed)
  }

  lemma {:induction false} FirstOtherIsFirst(cs: seq<Candidate>, endpoint: Endpoint)
    ensures var r := FirstOther(cs, endpoint);
      && (r.Some? ==> r.value != endpoint && r.value in EndpointsOf(cs))
      && (r.None? <==> forall i :: 0 <= i < |cs| ==> cs[i].endpoint == endpoint)
  {
    if cs != [] && cs[0].endpoint == endpoint {
      FirstOtherIsFirst(cs[1..], endpoint);
      var r := FirstOther(cs[1..], endpoint);
      if r.Some? {
        var i :| 0 <= i < |cs[1..]| && cs[1..][i].endpoint == r.value;
        assert cs[i + 1].endpoint == r.value;
      }
    }
  }

  /** A failed path is replaced by another candidate whenever there is one. */
  lemma {:induction false} NextPathIsCandidate(cs: seq<Candidate>, failed: Endpoint)
    ensures var r := NextPath(cs, failed);
      && (r.Some? ==> r.value != failed && r.value in EndpointsOf(cs))
      && (r.None? <==> forall i :: 0 <= i < |cs| ==> cs[i].endpoint == failed)
  {
    var at := Position(cs, failed);
    var start := if at.None? then 0 else Min(at.value + 1, |cs|);
    FirstOtherIsFirst(cs[start..], failed);
    FirstOtherIsFirst(cs, failed);
    var later := FirstOther(cs[start..], failed);
    if later.Some? {
      var i :| 0 <= i < |cs[start..]| && cs[start..][i].endpoint == later.value;
      assert cs[start + i].endpoint == later.value;
    }
  }

  /** The endpoint stands at this place, and nowhere before. */
  predicate FirstAt(cs: seq<Candidate>, e: Endpoint, at: nat) {
    at < |cs| && cs[at].endpoint == e && forall j :: 0 <= j < at ==> cs[j].endpoint != e
  }

  predicate Listed(cs: seq<Candidate>, e: Endpoint) {
    exists i :: 0 <= i < |cs| && cs[i].endpoint == e
  }

  lemma {:induction false} PositionIsFirst(cs: seq<Candidate>, e: Endpoint)
    ensures var at := Position(cs, e);
      && (at.Some? ==> FirstAt(cs, e, at.value))
      && (at.Some? <==> Listed(cs, e))
  {
    if cs != [] && cs[0].endpoint != e {
      PositionIsFirst(cs[1..], e);
      assert forall i :: 0 < i < |cs| ==> cs[i] == cs[1..][i - 1];
    }
  }

  lemma {:induction false} FirstOtherAt(cs: seq<Candidate>, e: Endpoint, k: nat)
    requires k < |cs| && cs[k].endpoint != e && forall j :: 0 <= j < k ==> cs[j].endpoint == e
    ensures FirstOther(cs, e) == Some(cs[k].endpoint)
  {
    if k > 0 { FirstOtherAt(cs[1..], e, k - 1); }
  }

  /** A failed path moves to the first other candidate after it. */
  lemma {:induction false} NextPathFollows(cs: seq<Candidate>, failed: Endpoint, at: nat, k: nat)
    requires FirstAt(cs, failed, at) && at < k < |cs| && cs[k].endpoint != failed
    requires forall j :: at < j < k ==> cs[j].endpoint == failed
    ensures NextPath(cs, failed) == Some(cs[k].endpoint)
  {
    PositionIsFirst(cs, failed);
    FirstOtherAt(cs[at + 1..], failed, k - at - 1);
  }

  /** Only if there is none does it wrap round to the head of the list; so it does if it is not listed. */
  lemma {:induction false} NextPathWraps(cs: seq<Candidate>, failed: Endpoint)
    requires cs != [] && cs[0].endpoint != failed
    requires forall at: nat, j :: FirstAt(cs, failed, at) && at < j < |cs| ==> cs[j].endpoint == failed
    ensures NextPath(cs, failed) == Some(cs[0].endpoint)
  {
    PositionIsFirst(cs, failed);
    var at := Position(cs, failed);
    if at.Some? {
      FirstOtherIsFirst(cs[at.value + 1..], failed);
      var later := cs[at.value + 1..];
      assert forall i :: 0 <= i < |later| ==> later[i].endpoint == failed;
    } else {
      FirstOtherAt(cs, failed, 0);
    }
    FirstOtherAt(cs, failed, 0);
  }
}
