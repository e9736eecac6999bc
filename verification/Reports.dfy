/**
 Two telemetry reports of one boot: when the controller's check that no peer's totals
 have fallen passes, for reports in step with the data plane and for reports ahead of it.
 */
module Reports {
  import opened Prelude
  import opened Telemetry
  import Candidates

  // ----- what a report says of a peer -----

  datatype Tally = Tally(txPackets: nat, rxPackets: nat, counters: Counters)

  function TallyOf(p: Peer): Tally {
    Tally(p.txPackets, p.rxPackets, p.Totals())
  }

  /** An address that the data plane does not know counts for nothing. */
  function TallyAt(status: map<nat, Peer>, ip: nat): Tally {
    if ip in status then TallyOf(status[ip]) else Tally(0, 0, ZERO)
  }

  ghost predicate Grows(a: Tally, b: Tally) {
    a.txPackets <= b.txPackets && a.rxPackets <= b.rxPackets && AtMost(a.counters, b.counters)
  }

  function Shown(e: Entry): Tally {
    Tally(e.txPackets, e.rxPackets, e.counters)
  }

  /** What the controller asks of two reports of one boot. */
  ghost predicate PeerTotalsMonotonic(previous: seq<Entry>, current: seq<Entry>) {
    forall i, j :: 0 <= i < |previous| && 0 <= j < |current| && previous[i].node == current[j].node ==>
      Grows(Shown(previous[i]), Shown(current[j]))
  }

  /** The nodes that get an entry. */
  function Remote(nodes: seq<Node>, n: nat, local: nat): seq<Node>
    requires n <= |nodes|
  {
    if n == 0 then [] else Remote(nodes, n - 1, local) + if nodes[n - 1].id == local then [] else [nodes[n - 1]]
  }

  /** The `i`-th entry is for the `i`-th remote node, and shows what the data plane holds at its address. */
  lemma {:induction false} EntriesShowTallies(nodes: seq<Node>, n: nat, local: nat, relays: seq<RelayService>, status: map<nat, Peer>)
    requires n <= |nodes| && Entries(nodes, n, local, relays, status).Some?
    ensures var es, rs := Entries(nodes, n, local, relays, status).value, Remote(nodes, n, local);
      |es| == |rs| && forall i :: 0 <= i < |rs| ==> es[i].node == rs[i].id && Shown(es[i]) == TallyAt(status, rs[i].ip)
  {
    if n > 0 { EntriesShowTallies(nodes, n - 1, local, relays, status); }
  }

  /** A report as built: its node list, its relays, and the table of the data plane. */
  datatype Source = Source(nodes: seq<Node>, relays: seq<RelayService>, status: map<nat, Peer>)
  {
    predicate Builds(local: nat) {
      Entries(nodes, |nodes|, local, relays, status).Some?
    }

    function Peers(local: nat): seq<Entry>
      requires Builds(local)
    {
      Entries(nodes, |nodes|, local, relays, status).value
    }

    function Listed(local: nat): seq<Node> {
      Remote(nodes, |nodes|, local)
    }
  }

  /** The peer's session runs over a relay that the report's configuration does not list. */
  predicate OnUnlistedRelay(p: Peer, relays: seq<RelayService>) {
    PathOf(p.life).Relay? && forall r :: r in relays ==> r.endpoint != p.life.active.value
  }

  lemma {:induction false} RelayIsFoundIff(relays: seq<RelayService>, endpoint: Candidates.Endpoint)
    ensures FindRelay(relays, endpoint).Some? <==> exists r :: r in relays && r.endpoint == endpoint
  {
    if relays != [] {
      RelayIsFoundIff(relays[1..], endpoint);
      assert forall r :: r in relays <==> r == relays[0] || r in relays[1..];
    }
  }

  /** A report cannot be built exactly when some listed node's session runs over a relay that is not listed (any more). */
  lemma {:induction false} ReportFailsIff(nodes: seq<Node>, n: nat, local: nat, relays: seq<RelayService>, status: map<nat, Peer>)
    requires n <= |nodes|
    ensures Entries(nodes, n, local, relays, status).None? <==>
      exists i :: 0 <= i < n && nodes[i].id != local && nodes[i].ip in status && OnUnlistedRelay(status[nodes[i].ip], relays)
  {
    if n > 0 {
      ReportFailsIff(nodes, n - 1, local, relays, status);
      var node := nodes[n - 1];
      if node.ip in status && PathOf(status[node.ip].life).Relay? {
        RelayIsFoundIff(relays, status[node.ip].life.active.value);
      }
    }
  }

  /** An entry shows how the session of its node runs and what was counted; nothing for an address without a peer. */
  lemma {:induction false} EntryShowsState(node: Node, relays: seq<RelayService>, status: map<nat, Peer>, e: Entry)
    requires EntryOf(node, relays, status) == Some(e)
    ensures e.node == node.id && (node.ip !in status ==> e == Entry(node.id, Disconnected, None, false, None, 0, 0, ZERO))
    ensures node.ip in status ==>
      var p := status[node.ip];
      && (e.established <==> p.life.state.Established?) && e.path == PathOf(p.life)
      && (e.relayId.Some? <==> e.path.Relay?)
      && (e.relayId.Some? ==> RelayService(p.life.active.value, e.relayId.value) in relays)
      && e.last == p.last && e.txPackets == p.txPackets && e.rxPackets == p.rxPackets && e.counters == p.Totals()
  {
  }

  /** A report is built unless an entry fails, more than 1024 other nodes are listed, or its sequence would overflow. */
  lemma {:induction false} ReportIsBuiltIff(network: nat, local: nat, boot: nat, sequence: nat, now: int, s: Source, totals: Counters)
    ensures var r := BuildReport(network, local, boot, sequence, now, s.nodes, s.relays, s.status, totals);
      && (r.Some? <==> s.Builds(local) && |Remote(s.nodes, |s.nodes|, local)| <= 1024 && sequence < U64_MAX)
      && (r.Some? ==> r.value == Report(network, local, boot, sequence + 1, now, totals, s.Peers(local)))
  {
    if s.Builds(local) { EntriesShowTallies(s.nodes, |s.nodes|, local, s.relays, s.status); }
  }

  /** Any two reports, of whatever node lists and tables: the check compares the addresses of each node in the two lists. */
  lemma {:induction false} MonotonicIffTalliesGrow(a: Source, b: Source, local: nat)
    requires a.Builds(local) && b.Builds(local)
    ensures PeerTotalsMonotonic(a.Peers(local), b.Peers(local)) <==>
      forall i, j :: 0 <= i < |a.Listed(local)| && 0 <= j < |b.Listed(local)| && a.Listed(local)[i].id == b.Listed(local)[j].id ==>
        Grows(TallyAt(a.status, a.Listed(local)[i].ip), TallyAt(b.status, b.Listed(local)[j].ip))
  {
    EntriesShowTallies(a.nodes, |a.nodes|, local, a.relays, a.status);
    EntriesShowTallies(b.nodes, |b.nodes|, local, b.relays, b.status);
    var previous, current, xs, ys := a.Peers(local), b.Peers(local), a.Listed(local), b.Listed(local);
    if PeerTotalsMonotonic(previous, current) {
      forall i, j | 0 <= i < |xs| && 0 <= j < |ys| && xs[i].id == ys[j].id
        ensures Grows(TallyAt(a.status, xs[i].ip), TallyAt(b.status, ys[j].ip))
      {
        assert Grows(Shown(previous[i]), Shown(current[j]));
      }
    }
  }

  // ----- peers over a run -----

  /** The peer at address `k` stayed the same node through every configuration from `i` to `j`. */
  ghost predicate Continuous(trace: seq<Agent>, events: seq<Event>, i: nat, j: nat, k: nat)
    requires |trace| == |events| + 1 && i <= j < |trace|
    decreases j
  {
    if i == j then k in trace[i].peers
    else Continuous(trace, events, i, j - 1, k)
         && (events[j - 1].Configured? ==> Kept(trace[j - 1].peers, events[j - 1].desired, k))
  }

  lemma {:induction false} StepGrows(a: Agent, e: Event, b: Agent, k: nat)
    requires Legal(a) && StepsTo(a, e, b) && k in a.peers && (e.Configured? ==> Kept(a.peers, e.desired, k))
    ensures k in b.peers && b.peers[k].node == a.peers[k].node && NotDecreased(a.peers[k], b.peers[k])
  {
    match e
    case At(ip, t) => HandleKeepsSound(a.peers[ip], t);
    case Configured(desired, how) => ReconfiguredKeeps(a.peers[k], desired[k], how);
  }

  lemma {:induction false} RunStepGrows(trace: seq<Agent>, events: seq<Event>, j: nat, k: nat)
    requires IsRun(trace, events) && 0 < j < |trace| && k in trace[j - 1].peers
    requires events[j - 1].Configured? ==> Kept(trace[j - 1].peers, events[j - 1].desired, k)
    ensures k in trace[j].peers && trace[j].peers[k].node == trace[j - 1].peers[k].node
    ensures NotDecreased(trace[j - 1].peers[k], trace[j].peers[k])
  {
    EveryRunIsLegal(trace, events, j - 1);
    StepGrows(trace[j - 1], events[j - 1], trace[j], k);
  }

  /** Such a peer's totals never fall. */
  lemma {:induction false} ContinuousGrows(trace: seq<Agent>, events: seq<Event>, i: nat, j: nat, k: nat)
    requires IsRun(trace, events) && i <= j < |trace| && Continuous(trace, events, i, j, k)
    ensures k in trace[i].peers && k in trace[j].peers && trace[j].peers[k].node == trace[i].peers[k].node
    ensures NotDecreased(trace[i].peers[k], trace[j].peers[k])
    decreases j
  {
    if i < j {
      ContinuousGrows(trace, events, i, j - 1, k);
      RunStepGrows(trace, events, j, k);
      GrowthAdds(trace[i].peers[k], trace[j - 1].peers[k], trace[j].peers[k]);
    }
  }

  lemma {:induction false} GrowthAdds(p: Peer, q: Peer, r: Peer)
    requires NotDecreased(p, q) && NotDecreased(q, r)
    ensures NotDecreased(p, r)
  {
    forall f ensures Get(p.Totals(), f) <= Get(r.Totals(), f) {
      assert Get(p.Totals(), f) <= Get(q.Totals(), f) && Get(q.Totals(), f) <= Get(r.Totals(), f);
    }
  }

  /** Any other peer has been counted from zero since a configuration in between. */
  ghost predicate CountedAnew(trace: seq<Agent>, events: seq<Event>, i: nat, j: nat, l: nat)
    requires |trace| == |events| + 1 && i <= j < |trace|
  {
    exists m :: i < m <= j && Continuous(trace, events, m, j, l) && l in trace[m].peers && IsFresh(trace[m].peers[l])
  }

  lemma {:induction false} ContinuousOrAnew(trace: seq<Agent>, events: seq<Event>, i: nat, j: nat, l: nat)
    requires IsRun(trace, events) && i <= j < |trace| && l in trace[j].peers
    ensures Continuous(trace, events, i, j, l) || CountedAnew(trace, events, i, j, l)
    decreases j
  {
    if i < j {
      var a, e, b := trace[j - 1], events[j - 1], trace[j];
      assert StepsTo(a, e, b);
      if e.Configured? && !Kept(a.peers, e.desired, l) {
        assert b.peers[l] == e.desired[l];
        assert Continuous(trace, events, j, j, l);
      } else {
        ContinuousOrAnew(trace, events, i, j - 1, l);
        if !Continuous(trace, events, i, j - 1, l) {
          var m :| i < m <= j - 1 && Continuous(trace, events, m, j - 1, l) && l in trace[m].peers && IsFresh(trace[m].peers[l]);
          assert Continuous(trace, events, m, j, l);
        }
      }
    }
  }

  /** Every node that is counted anew, at its old address or another, has reached its old totals again. */
  ghost predicate CaughtUp(trace: seq<Agent>, events: seq<Event>, i: nat, j: nat)
    requires |trace| == |events| + 1 && i <= j < |trace|
  {
    forall k, l :: k in trace[i].peers && l in trace[j].peers && trace[i].peers[k].node == trace[j].peers[l].node
                   && CountedAnew(trace, events, i, j, l) ==>
      NotDecreased(trace[i].peers[k], trace[j].peers[l])
  }

  // ----- two reports of one run -----

  /** The node stayed where it was listed, and was never counted anew. */
  ghost predicate Stayed(trace: seq<Agent>, events: seq<Event>, i: nat, j: nat, x: Node, y: Node)
    requires |trace| == |events| + 1 && i <= j < |trace|
  {
    x.ip == y.ip && Continuous(trace, events, i, j, x.ip)
  }

  /** Every other node that had a tally shows at least as much at the address where it is listed now. */
  ghost predicate OthersCaughtUp(trace: seq<Agent>, events: seq<Event>, i: nat, j: nat, xs: seq<Node>, ys: seq<Node>)
    requires |trace| == |events| + 1 && i <= j < |trace|
  {
    forall m, n :: 0 <= m < |xs| && 0 <= n < |ys| && xs[m].id == ys[n].id
                   && xs[m].ip in trace[i].peers && !Stayed(trace, events, i, j, xs[m], ys[n]) ==>
      Grows(TallyAt(trace[i].peers, xs[m].ip), TallyAt(trace[j].peers, ys[n].ip))
  }

  /**
   Two reports of one run, each with any node list over the table of its time, as when a
   report goes out with a new configuration that the data plane has not applied: they
   pass the check exactly when every node that was not counted on at one address shows
   at least as much as before. All others pass by themselves.
   */
  lemma {:induction false} MonotonicIffOthersCaughtUp(trace: seq<Agent>, events: seq<Event>, i: nat, j: nat, a: Source, b: Source, local: nat)
    requires IsRun(trace, events) && i <= j < |trace| && a.status == trace[i].peers && b.status == trace[j].peers
    requires a.Builds(local) && b.Builds(local)
    ensures PeerTotalsMonotonic(a.Peers(local), b.Peers(local)) <==>
      OthersCaughtUp(trace, events, i, j, a.Listed(local), b.Listed(local))
  {
    MonotonicIffTalliesGrow(a, b, local);
    var xs, ys := a.Listed(local), b.Listed(local);
    if OthersCaughtUp(trace, events, i, j, xs, ys) {
      forall m, n | 0 <= m < |xs| && 0 <= n < |ys| && xs[m].id == ys[n].id
        ensures Grows(TallyAt(trace[i].peers, xs[m].ip), TallyAt(trace[j].peers, ys[n].ip))
      {
        NodeGrows(trace, events, i, j, xs[m], ys[n]);
      }
    }
  }

  lemma {:induction false} NodeGrows(trace: seq<Agent>, events: seq<Event>, i: nat, j: nat, x: Node, y: Node)
    requires IsRun(trace, events) && i <= j < |trace|
    requires x.ip in trace[i].peers && !Stayed(trace, events, i, j, x, y) ==>
      Grows(TallyAt(trace[i].peers, x.ip), TallyAt(trace[j].peers, y.ip))
    ensures Grows(TallyAt(trace[i].peers, x.ip), TallyAt(trace[j].peers, y.ip))
  {
    if x.ip !in trace[i].peers {
      forall f ensures Get(ZERO, f) <= Get(TallyAt(trace[j].peers, y.ip).counters, f) { }
    } else if Stayed(trace, events, i, j, x, y) {
      ContinuousGrows(trace, events, i, j, x.ip);
    }
  }

  // ----- reports in step with the data plane -----

  /** The table holds exactly the listed nodes, each at its address. */
  ghost predicate InStep(xs: seq<Node>, peers: map<nat, Peer>) {
    && (forall m :: 0 <= m < |xs| ==> xs[m].ip in peers && peers[xs[m].ip].node == xs[m].id)
    && (forall k :: k in peers ==> exists m :: 0 <= m < |xs| && xs[m].ip == k)
  }

  predicate DistinctIds(xs: seq<Node>) {
    forall m, n :: 0 <= m < n < |xs| ==> xs[m].id != xs[n].id
  }

  /** A configuration puts the table in step with its nodes, and it stays so until the next. */
  lemma {:induction false} InStepUntilReconfigured(trace: seq<Agent>, events: seq<Event>, m: nat, j: nat, xs: seq<Node>)
    requires IsRun(trace, events) && m < j < |trace| && events[m].Configured? && InStep(xs, events[m].desired)
    requires forall k :: m < k < j ==> events[k].At?
    ensures InStep(xs, trace[j].peers)
    decreases j
  {
    assert StepsTo(trace[j - 1], events[j - 1], trace[j]);
    if j == m + 1 {
      ConfiguredNodes(trace[m], events[m], trace[j]);
    } else {
      InStepUntilReconfigured(trace, events, m, j - 1, xs);
      EveryRunIsLegal(trace, events, j - 1);
      var ip := events[j - 1].ip;
      HandleKeepsSound(trace[j - 1].peers[ip], events[j - 1].traffic);
    }
  }

  lemma {:induction false} ConfiguredNodes(a: Agent, e: Event, b: Agent)
    requires e.Configured? && StepsTo(a, e, b)
    ensures b.peers.Keys == e.desired.Keys && forall k :: k in b.peers ==> b.peers[k].node == e.desired[k].node
  {
    forall k | k in b.peers ensures b.peers[k].node == e.desired[k].node {
      if Kept(a.peers, e.desired, k) { ReconfiguredKeeps(a.peers[k], e.desired[k], e.how); }
    }
  }

  /**
   Two reports of one run in step with the table, with any traffic and any configurations
   between them, pass exactly when every node counted anew in between has caught up.
   */
  lemma {:induction false} MonotonicIffCaughtUp(trace: seq<Agent>, events: seq<Event>, i: nat, j: nat, a: Source, b: Source, local: nat)
    requires IsRun(trace, events) && i <= j < |trace| && a.status == trace[i].peers && b.status == trace[j].peers
    requires a.Builds(local) && b.Builds(local)
    requires InStep(a.Listed(local), a.status) && InStep(b.Listed(local), b.status)
    requires DistinctIds(a.Listed(local)) && DistinctIds(b.Listed(local))
    ensures PeerTotalsMonotonic(a.Peers(local), b.Peers(local)) <==> CaughtUp(trace, events, i, j)
  {
    MonotonicIffTalliesGrow(a, b, local);
    var xs, ys := a.Listed(local), b.Listed(local);
    if PeerTotalsMonotonic(a.Peers(local), b.Peers(local)) {
      TablesFollowEntries(xs, a.status, ys, b.status);
    }
    if CaughtUp(trace, events, i, j) {
      OneAddress(xs, a.status);
      CaughtUpIsEnough(trace, events, i, j);
    }
  }

  ghost predicate NoneDecreased(was: map<nat, Peer>, now: map<nat, Peer>) {
    forall k, l :: k in was && l in now && was[k].node == now[l].node ==> NotDecreased(was[k], now[l])
  }

  lemma {:induction false} TablesFollowEntries(xs: seq<Node>, was: map<nat, Peer>, ys: seq<Node>, now: map<nat, Peer>)
    requires InStep(xs, was) && InStep(ys, now)
    requires forall m, n :: 0 <= m < |xs| && 0 <= n < |ys| && xs[m].id == ys[n].id ==> Grows(TallyAt(was, xs[m].ip), TallyAt(now, ys[n].ip))
    ensures NoneDecreased(was, now)
  {
    forall k, l | k in was && l in now && was[k].node == now[l].node ensures NotDecreased(was[k], now[l]) {
      var m :| 0 <= m < |xs| && xs[m].ip == k;
      var n :| 0 <= n < |ys| && ys[n].ip == l;
      assert Grows(TallyAt(was, xs[m].ip), TallyAt(now, ys[n].ip));
    }
  }

  predicate OneAddressEach(peers: map<nat, Peer>) {
    forall k, l :: k in peers && l in peers && peers[k].node == peers[l].node ==> k == l
  }

  lemma {:induction false} OneAddress(xs: seq<Node>, peers: map<nat, Peer>)
    requires InStep(xs, peers) && DistinctIds(xs)
    ensures OneAddressEach(peers)
  {
    forall k, l | k in peers && l in peers && peers[k].node == peers[l].node ensures k == l {
      var m :| 0 <= m < |xs| && xs[m].ip == k;
      var n :| 0 <= n < |xs| && xs[n].ip == l;
      assert xs[m].id == xs[n].id;
    }
  }

  lemma {:induction false} CaughtUpIsEnough(trace: seq<Agent>, events: seq<Event>, i: nat, j: nat)
    requires IsRun(trace, events) && i <= j < |trace|
    requires OneAddressEach(trace[i].peers) && CaughtUp(trace, events, i, j)
    ensures NoneDecreased(trace[i].peers, trace[j].peers)
  {
    var was, now := trace[i].peers, trace[j].peers;
    forall k, l | k in was && l in now && was[k].node == now[l].node ensures NotDecreased(was[k], now[l]) {
      ContinuousOrAnew(trace, events, i, j, l);
      if Continuous(trace, events, i, j, l) {
        ContinuousGrows(trace, events, i, j, l);
        assert k == l;
      }
    }
  }

  // ----- reports that are refused -----

  /** A node at address 5 receives 100 bytes; a configuration then moves it to address 6. */
  ghost function MovingTrace(p: Peer): seq<Agent> {
    [Agent(ZERO, map[5 := p]), Agent(ZERO, map[5 := Handle(p, Received(100))]), Agent(Counters(0, 100, 0, 0, 0, 0), map[6 := p])]
  }

  ghost function MovingEvents(p: Peer, how: How): seq<Event> {
    [At(5, Received(100)), Configured(map[6 := p], how)]
  }

  lemma {:induction false} MovingIsRun(p: Peer, how: How)
    requires IsFresh(p)
    ensures IsRun(MovingTrace(p), MovingEvents(p, how))
  {
    var trace, desired := MovingTrace(p), map[6 := p];
    var q := Handle(p, Received(100));
    FreshIsSound(p);
    assert trace[1] == trace[0].(peers := trace[0].peers[5 := q]);
    assert StepsTo(trace[0], At(5, Received(100)), trace[1]);
    OnePeerRetires(trace[1].peers, 5, desired, trace[2].retired);
    assert Survivors(trace[1].peers, desired, how) == trace[2].peers;
    assert StepsTo(trace[1], Configured(desired, how), trace[2]);
  }

  lemma {:induction false} MovingFallsBack(p: Peer)
    requires IsFresh(p)
    ensures var q := Handle(p, Received(100));
      q.node == p.node && q.Totals() == Counters(0, 100, 0, 0, 0, 0) && p.Totals() == ZERO && !AtMost(q.Totals(), p.Totals())
  {
    FreshIsSound(p);
    assert Get(Handle(p, Received(100)).Totals(), Rx) == 100 && Get(p.Totals(), Rx) == 0;
  }

  lemma {:induction false} OneEntry(node: Node, local: nat, relays: seq<RelayService>, status: map<nat, Peer>)
    requires node.id != local && (node.ip in status ==> status[node.ip].life.state.Idle?)
    ensures var s := Source([node], relays, status);
      s.Builds(local) && s.Listed(local) == [node]
  {
    assert Entries([node], 0, local, relays, status) == Some([]);
    assert Remote([node], 0, local) == [];
  }

  /** The node list of a report about the one node at `ip`. */
  function Alone(p: Peer, ip: nat, relays: seq<RelayService>, status: map<nat, Peer>): Source {
    Source([Node(p.node, ip)], relays, status)
  }

  /** A node with traffic moves to another address; both reports are in step, and the second is refused. */
  lemma {:induction false} MovedNodeIsRefused(p: Peer, how: How, local: nat, relays: seq<RelayService>)
    requires IsFresh(p) && p.node != local
    ensures var trace := MovingTrace(p);
      var a, b := Alone(p, 5, relays, trace[1].peers), Alone(p, 6, relays, trace[2].peers);
      && IsRun(trace, MovingEvents(p, how)) && a.Builds(local) && b.Builds(local)
      && InStep(a.Listed(local), a.status) && InStep(b.Listed(local), b.status)
      && !PeerTotalsMonotonic(a.Peers(local), b.Peers(local))
  {
    var trace := MovingTrace(p);
    var a, b := Alone(p, 5, relays, trace[1].peers), Alone(p, 6, relays, trace[2].peers);
    MovingIsRun(p, how);
    MovingFallsBack(p);
    OneEntry(Node(p.node, 5), local, relays, a.status);
    OneEntry(Node(p.node, 6), local, relays, b.status);
    MonotonicIffTalliesGrow(a, b, local);
    assert !Grows(TallyAt(a.status, a.Listed(local)[0].ip), TallyAt(b.status, b.Listed(local)[0].ip));
  }

  /** The same move, reported with the new node list before the data plane has applied it: refused although nothing was counted anew. */
  lemma {:induction false} ReportAheadIsRefused(p: Peer, how: How, local: nat, relays: seq<RelayService>)
    requires IsFresh(p) && p.node != local
    ensures var trace := MovingTrace(p);
      var a, b := Alone(p, 5, relays, trace[1].peers), Alone(p, 6, relays, trace[1].peers);
      && IsRun(trace, MovingEvents(p, how)) && CaughtUp(trace, MovingEvents(p, how), 1, 1)
      && a.Builds(local) && b.Builds(local) && !PeerTotalsMonotonic(a.Peers(local), b.Peers(local))
  {
    var trace := MovingTrace(p);
    var a, b := Alone(p, 5, relays, trace[1].peers), Alone(p, 6, relays, trace[1].peers);
    MovingIsRun(p, how);
    MovingFallsBack(p);
    OneEntry(Node(p.node, 5), local, relays, a.status);
    OneEntry(Node(p.node, 6), local, relays, b.status);
    MonotonicIffTalliesGrow(a, b, local);
    assert !Grows(TallyAt(a.status, a.Listed(local)[0].ip), TallyAt(b.status, b.Listed(local)[0].ip));
  }

  lemma {:induction false} TwoEntries(x: Node, y: Node, local: nat)
    requires x.id != local && y.id != local
    ensures Remote([x, y], 2, local) == [x, y]
  {
    assert Remote([x, y], 0, local) == [] && Remote([x, y], 1, local) == [x];
  }

  /** Two nodes swap addresses: before the data plane knows, they report each other's totals, which pass only if they are equal. */
  lemma {:induction false} SwappedNodesPassIffEqual(status: map<nat, Peer>, x: nat, y: nat, k: nat, l: nat, local: nat, relays: seq<RelayService>)
    requires x != y && x != local && y != local
    requires Source([Node(x, k), Node(y, l)], relays, status).Builds(local) && Source([Node(x, l), Node(y, k)], relays, status).Builds(local)
    ensures PeerTotalsMonotonic(Source([Node(x, k), Node(y, l)], relays, status).Peers(local),
                                Source([Node(x, l), Node(y, k)], relays, status).Peers(local))
            <==> TallyAt(status, k) == TallyAt(status, l)
  {
    var a, b := Source([Node(x, k), Node(y, l)], relays, status), Source([Node(x, l), Node(y, k)], relays, status);
    TwoEntries(Node(x, k), Node(y, l), local);
    TwoEntries(Node(x, l), Node(y, k), local);
    MonotonicIffTalliesGrow(a, b, local);
    GrowsBothWays(TallyAt(status, k), TallyAt(status, l));
    if PeerTotalsMonotonic(a.Peers(local), b.Peers(local)) {
      assert Grows(TallyAt(status, a.Listed(local)[0].ip), TallyAt(status, b.Listed(local)[0].ip));
      assert Grows(TallyAt(status, a.Listed(local)[1].ip), TallyAt(status, b.Listed(local)[1].ip));
    }
  }

  lemma {:induction false} GrowsBothWays(a: Tally, b: Tally)
    ensures Grows(a, b) && Grows(b, a) <==> a == b
  {
    DominatesInEveryField(a.counters, b.counters);
    DominatesInEveryField(b.counters, a.counters);
  }

  lemma {:induction false} OnePeerRetires(was: map<nat, Peer>, k: nat, desired: map<nat, Peer>, retired: Counters)
    requires was.Keys == {k} && k !in desired && Below(was[k].Totals(), U64_MAX) && retired == was[k].Totals()
    ensures Dropped(was, desired) == {k} && Retires(ZERO, was, Dropped(was, desired), retired)
  {
    forall f ensures Get(retired, f) == Capped(Get(ZERO, f) + Sum(was, {k}, f)) {
      SumSplits(was, {k}, k, f);
      assert {k} - {k} == {};
      assert Get(was[k].Totals(), f) <= U64_MAX;
    }
    assert Dropped(was, desired) == {k};
  }
}
