/**
 Traffic counters from the agent to the controller: per-peer totals, the totals of
 peers that are gone, the report built from both, and the controller's checks on it.
 */
module Telemetry {
  import opened Prelude
  import Candidates
  import Peers

  const MAX_LATENCY_MICROSECONDS: nat := 600_000_000
  const PATH_PROBE_RETRY_INTERVAL: nat := 300
  const PATH_PROBE_MAX_ATTEMPTS: nat := 4
  const MAX_AGENT_TELEMETRY_PEERS: nat := 1024
  const MAX_REPORT_AGE: nat := 600
  const MAX_REPORT_LEAD: nat := 300
  const I64_MAX: nat := 0x7FFF_FFFF_FFFF_FFFF

  datatype Counters = Counters(tx: nat, rx: nat, attempts: nat, successes: nat, samples: nat, micros: nat)

  datatype Field = Tx | Rx | Attempts | Successes | Samples | Micros

  function Get(c: Counters, f: Field): nat {
    match f
    case Tx => c.tx
    case Rx => c.rx
    case Attempts => c.attempts
    case Successes => c.successes
    case Samples => c.samples
    case Micros => c.micros
  }

  const ZERO := Counters(0, 0, 0, 0, 0, 0)

  ghost predicate AtMost(a: Counters, b: Counters) {
    forall f :: Get(a, f) <= Get(b, f)
  }

  ghost predicate Below(c: Counters, limit: nat) {
    forall f :: Get(c, f) <= limit
  }

  function Capped(n: nat): nat {
    Min(n, U64_MAX)
  }

  function SaturatingMul(a: nat, b: nat): nat {
    Capped(a * b)
  }

  /** Successes are among the attempts, and no latency exceeds what the controller believes. */
  predicate Plausible(c: Counters) {
    c.successes <= c.attempts && c.micros <= SaturatingMul(c.samples, MAX_LATENCY_MICROSECONDS)
  }

  function AddPeer(a: Counters, b: Counters): (c: Counters)
    ensures forall f :: Get(c, f) == SaturatingAdd(Get(a, f), Get(b, f), U64_MAX)
  {
    Counters(SaturatingAdd(a.tx, b.tx, U64_MAX), SaturatingAdd(a.rx, b.rx, U64_MAX),
             SaturatingAdd(a.attempts, b.attempts, U64_MAX), SaturatingAdd(a.successes, b.successes, U64_MAX),
             SaturatingAdd(a.samples, b.samples, U64_MAX), SaturatingAdd(a.micros, b.micros, U64_MAX))
  }

  datatype Path = Disconnected | Direct | Relay

  /** A path probe that waits for its answer. */
  datatype Probe = Probe(lastSent: nat, attempts: nat)

  /** A pass gives a probe up, sends it again, or lets it wait; without a session there is none. */
  function PolledProbe(probe: Option<Probe>, established: bool, now: nat): Option<Probe> {
    if probe.None? || !established then None
    else if Since(now, probe.value.lastSent) < PATH_PROBE_RETRY_INTERVAL then probe
    else if probe.value.attempts >= PATH_PROBE_MAX_ATTEMPTS then None
    else Some(Probe(now, probe.value.attempts + 1))
  }

  /** A peer of the data plane with its traffic counters; `life` holds its handshakes, candidates and session. */
  datatype Peer = Peer(
    node: nat, life: Peers.Peer, probe: Option<Probe>, lastPass: nat,
    txPackets: nat, tx: nat, rxPackets: nat, rx: nat, samples: nat, micros: nat, last: Option<nat>)
  {
    function Totals(): Counters {
      Counters(tx, rx, life.attemptsTotal, life.successesTotal, samples, micros)
    }
  }

  function NewPeer(node: nat, candidates: seq<Candidates.Candidate>, now: nat): Peer {
    Peer(node, Peers.NewPeer(candidates, now), None, now, 0, 0, 0, 0, 0, 0, None)
  }

  /** The kind of the candidate in use, if it is one. */
  function ActiveKind(candidates: seq<Candidates.Candidate>, active: Candidates.Endpoint): Option<Candidates.Kind> {
    if candidates == [] then None
    else if candidates[0].endpoint == active then Some(candidates[0].kind)
    else ActiveKind(candidates[1..], active)
  }

  /** How the session runs now. */
  function PathOf(p: Peers.Peer): Path {
    if !p.state.Established? then Disconnected
    else if p.active.Some? && ActiveKind(p.candidates, p.active.value) == Some(Candidates.Kind.Relay) then Relay
    else Direct
  }

  ghost predicate IsFresh(p: Peer) {
    exists now :: p == NewPeer(p.node, p.life.candidates, now)
  }

  // ----- sums over a table of peers -----

  /** The exact, unbounded sum of one counter over the peers at `keys`. */
  ghost function Sum(table: map<nat, Peer>, keys: set<nat>, f: Field): nat
    requires keys <= table.Keys
    decreases keys
  {
    if keys == {} then 0
    else
      var k :| k in keys;
      Get(table[k].Totals(), f) + Sum(table, keys - {k}, f)
  }

  /** The sum does not depend on the order in which the peers are visited. */
  lemma {:induction false} SumSplits(table: map<nat, Peer>, keys: set<nat>, k: nat, f: Field)
    requires keys <= table.Keys && k in keys
    ensures Sum(table, keys, f) == Get(table[k].Totals(), f) + Sum(table, keys - {k}, f)
    decreases keys
  {
    var first :| first in keys && Sum(table, keys, f) == Get(table[first].Totals(), f) + Sum(table, keys - {first}, f);
    if first != k {
      SumSplits(table, keys - {first}, k, f);
      SumSplits(table, keys - {k}, first, f);
      assert keys - {first} - {k} == keys - {k} - {first};
    }
  }

  lemma {:induction false} SumInsert(table: map<nat, Peer>, keys: set<nat>, k: nat, f: Field)
    requires keys <= table.Keys && k in table && k !in keys
    ensures Sum(table, keys + {k}, f) == Get(table[k].Totals(), f) + Sum(table, keys, f)
  {
    SumSplits(table, keys + {k}, k, f);
    assert keys + {k} - {k} == keys;
  }

  lemma {:induction false} SumUnion(table: map<nat, Peer>, a: set<nat>, b: set<nat>, f: Field)
    requires a <= table.Keys && b <= table.Keys && a !! b
    ensures Sum(table, a + b, f) == Sum(table, a, f) + Sum(table, b, f)
    decreases a
  {
    if a == {} {
      assert a + b == b;
    } else {
      var k :| k in a;
      SumSplits(table, a, k, f);
      SumSplits(table, a + b, k, f);
      assert a + b - {k} == (a - {k}) + b;
      SumUnion(table, a - {k}, b, f);
    }
  }

  /** A table whose counter is nowhere larger has no larger sum of it. */
  lemma {:induction false} SumGrows(a: map<nat, Peer>, b: map<nat, Peer>, keys: set<nat>, f: Field)
    requires keys <= a.Keys && keys <= b.Keys
    requires forall k :: k in keys ==> Get(a[k].Totals(), f) <= Get(b[k].Totals(), f)
    ensures Sum(a, keys, f) <= Sum(b, keys, f)
    decreases keys
  {
    if keys != {} {
      var k :| k in keys;
      SumSplits(a, keys, k, f);
      SumSplits(b, keys, k, f);
      SumGrows(a, b, keys - {k}, f);
    }
  }

  lemma {:induction false} SumZero(table: map<nat, Peer>, keys: set<nat>, f: Field)
    requires keys <= table.Keys && forall k :: k in keys ==> Get(table[k].Totals(), f) == 0
    ensures Sum(table, keys, f) == 0
    decreases keys
  {
    if keys != {} {
      var k :| k in keys;
      SumSplits(table, keys, k, f);
      SumZero(table, keys - {k}, f);
    }
  }

  // ----- the agent -----

  datatype Agent = Agent(retired: Counters, peers: map<nat, Peer>)

  /** What the agent reports for one counter, as a function of what really happened. */
  ghost function Reported(a: Agent, f: Field): nat {
    Capped(Get(a.retired, f) + Sum(a.peers, a.peers.Keys, f))
  }

  predicate Kept(was: map<nat, Peer>, desired: map<nat, Peer>, k: nat) {
    k in was && k in desired && was[k].node == desired[k].node
  }

  /** When a configuration arrives, and whether its policy is a new one. */
  datatype How = How(now: nat, policyChanged: bool)

  /** The old peer with the candidates of the new one. */
  function Reconfigured(p: Peer, q: Peer, how: How): Peer {
    p.(life := Peers.Reconfigure(p.life, q.life.candidates, how.now, how.policyChanged),
       probe := if Candidates.RoutesChanged(p.life.candidates, q.life.candidates) then None else p.probe)
  }

  /** The peer at address `k` afterwards: the old one, reconfigured, if it is the same node. */
  function Survivor(was: map<nat, Peer>, desired: map<nat, Peer>, how: How, k: nat): Peer
    requires k in desired
  {
    if Kept(was, desired, k) then Reconfigured(was[k], desired[k], how) else desired[k]
  }

  function Survivors(was: map<nat, Peer>, desired: map<nat, Peer>, how: How): map<nat, Peer> {
    map k | k in desired :: Survivor(was, desired, how, k)
  }

  /** The addresses whose peer does not survive. */
  function Dropped(was: map<nat, Peer>, desired: map<nat, Peer>): set<nat> {
    set k | k in was && !Kept(was, desired, k)
  }

  /** One new configuration: the table is replaced, and the counters of the dropped peers are retired. */
  ghost predicate Configures(a: Agent, desired: map<nat, Peer>, how: How, b: Agent) {
    && b.peers == Survivors(a.peers, desired, how)
    && Retires(a.retired, a.peers, Dropped(a.peers, desired), b.retired)
  }

  ghost predicate Retires(a: Counters, table: map<nat, Peer>, gone: set<nat>, b: Counters)
    requires gone <= table.Keys
  {
    forall f :: Get(b, f) == Capped(Get(a, f) + Sum(table, gone, f))
  }

  lemma {:induction false} RetiresOneMore(a: Counters, table: map<nat, Peer>, gone: set<nat>, b: Counters, k: nat)
    requires gone <= table.Keys && Retires(a, table, gone, b) && k !in gone && k in table
    ensures Retires(a, table, gone + {k}, AddPeer(b, table[k].Totals()))
  {
    forall f ensures Get(AddPeer(b, table[k].Totals()), f) == Capped(Get(a, f) + Sum(table, gone + {k}, f)) {
      SumInsert(table, gone, k, f);
    }
  }

  class DataPlane {
    var retired: Counters
    var peers: map<nat, Peer>

    ghost function Value(): Agent
      reads this
    {
      Agent(retired, peers)
    }

    /** The totals are exact up to saturation, whatever order the table is walked in. */
    method SynchronizeStatus() returns (totals: Counters)
      requires Below(retired, U64_MAX)
      ensures forall f :: Get(totals, f) == Reported(Value(), f)
    {
      totals := retired;
      var done: set<nat> := {};
      while done != peers.Keys
        invariant done <= peers.Keys
        invariant Retires(retired, peers, done, totals)
        decreases peers.Keys - done
      {
        var rest := peers.Keys - done;
        StillOpen(done, peers.Keys);
        var k :| k in rest;
        RetiresOneMore(retired, peers, done, totals, k);
        totals := AddPeer(totals, peers[k].Totals());
        done := done + {k};
      }
    }

    /** Moves the peers at the desired addresses out of the table: kept ones are carried over, others are retired. */
    method TakeOver(desired: map<nat, Peer>, how: How) returns (updated: map<nat, Peer>)
      requires Below(retired, U64_MAX)
      modifies this
      ensures peers == Without(old(peers), desired.Keys)
      ensures updated == Survivors(old(peers), desired, how)
      ensures Retires(old(retired), old(peers), Usurped(old(peers), desired, desired.Keys), retired)
    {
      ghost var was, table := retired, peers;
      var done: set<nat> := {};
      updated := map[];
      while done != desired.Keys
        invariant done <= desired.Keys
        invariant peers == Without(table, done)
        invariant updated == map k | k in done && k in desired :: Survivor(table, desired, how, k)
        invariant Retires(was, table, Usurped(table, desired, done), retired)
        decreases desired.Keys - done
      {
        var rest := desired.Keys - done;
        StillOpen(done, desired.Keys);
        var k :| k in rest;
        var replacement := desired[k];
        if k in peers {
          var existing := peers[k];
          peers := peers - {k};
          if existing.node == replacement.node {
            replacement := Reconfigured(existing, replacement, how);
            assert Usurped(table, desired, done + {k}) == Usurped(table, desired, done);
          } else {
            RetiresOneMore(was, table, Usurped(table, desired, done), retired, k);
            retired := AddPeer(retired, existing.Totals());
            assert Usurped(table, desired, done + {k}) == Usurped(table, desired, done) + {k};
          }
        } else {
          assert Usurped(table, desired, done + {k}) == Usurped(table, desired, done);
        }
        updated := updated[k := replacement];
        done := done + {k};
      }
    }

    /** Retires every peer still in the table, on top of the ones in `gone`. */
    method RetireRest(ghost was: Counters, ghost table: map<nat, Peer>, ghost gone: set<nat>)
      requires gone <= table.Keys && gone !! peers.Keys && Retires(was, table, gone, retired)
      requires forall k :: k in peers ==> k in table && table[k] == peers[k]
      modifies this`retired
      ensures gone + peers.Keys <= table.Keys && Retires(was, table, gone + peers.Keys, retired)
    {
      var rest := peers.Keys;
      ghost var all := gone;
      while rest != {}
        invariant rest <= peers.Keys && all !! rest && all + rest == gone + peers.Keys
        invariant all <= table.Keys && Retires(was, table, all, retired)
        decreases rest
      {
        var k :| k in rest;
        RetiresOneMore(was, table, all, retired, k);
        retired := AddPeer(retired, peers[k].Totals());
        all := all + {k};
        rest := rest - {k};
      }
      assert all == gone + peers.Keys;
    }

    method ApplyConfiguration(desired: map<nat, Peer>, how: How)
      requires Below(retired, U64_MAX)
      modifies this
      ensures Configures(old(Value()), desired, how, Value())
    {
      var updated := TakeOver(desired, how);
      ghost var gone := Usurped(old(peers), desired, desired.Keys);
      RetireRest(old(retired), old(peers), gone);
      assert gone + peers.Keys == Dropped(old(peers), desired);
      peers := updated;
    }
  }

  function Without(table: map<nat, Peer>, done: set<nat>): map<nat, Peer> {
    map k | k in table && k !in done :: table[k]
  }

  /** The addresses that go to another node. */
  function Usurped(table: map<nat, Peer>, desired: map<nat, Peer>, done: set<nat>): set<nat> {
    set k | k in table && k in done && k in desired && table[k].node != desired[k].node
  }

  // ----- conservation -----

  ghost predicate AllFresh(peers: map<nat, Peer>) {
    forall k :: k in peers ==> IsFresh(peers[k])
  }

  lemma {:induction false} SurvivorsAgree(was: map<nat, Peer>, desired: map<nat, Peer>, how: How, kept: set<nat>, f: Field)
    requires kept == was.Keys - Dropped(was, desired)
    ensures kept <= desired.Keys
    ensures Sum(Survivors(was, desired, how), kept, f) == Sum(was, kept, f)
  {
    var now := Survivors(was, desired, how);
    forall k | k in kept ensures now[k].Totals() == was[k].Totals() { ReconfiguredKeeps(was[k], desired[k], how); }
    SumGrows(was, now, kept, f);
    SumGrows(now, was, kept, f);
  }

  lemma {:induction false} ReconfiguredKeeps(p: Peer, q: Peer, how: How)
    ensures var r := Reconfigured(p, q, how);
      && r.Totals() == p.Totals() && r.node == p.node && r.txPackets == p.txPackets && r.rxPackets == p.rxPackets
      && r.last == p.last && r.lastPass == p.lastPass && (r.probe == p.probe || r.probe.None?)
      && (Peers.Valid(p.life) ==> Peers.Valid(r.life))
  {
    if Peers.Valid(p.life) { Peers.ReconfigureKeeps(p.life, q.life.candidates, how.now, how.policyChanged); }
  }

  lemma {:induction false} NewcomersAreZero(was: map<nat, Peer>, desired: map<nat, Peer>, how: How, kept: set<nat>, f: Field)
    requires kept == was.Keys - Dropped(was, desired) && AllFresh(desired)
    ensures Sum(Survivors(was, desired, how), desired.Keys - kept, f) == 0
  {
    SumZero(Survivors(was, desired, how), desired.Keys - kept, f);
  }

  lemma {:induction false} SumPartition(table: map<nat, Peer>, part: set<nat>, f: Field)
    requires part <= table.Keys
    ensures Sum(table, table.Keys, f) == Sum(table, part, f) + Sum(table, table.Keys - part, f)
  {
    SumUnion(table, part, table.Keys - part, f);
    assert part + (table.Keys - part) == table.Keys;
  }

  /** A new configuration leaves every reported total as it was, saturated or not. */
  lemma {:induction false} TotalsAreConserved(a: Agent, desired: map<nat, Peer>, how: How, b: Agent, f: Field)
    requires Configures(a, desired, how, b) && AllFresh(desired)
    ensures Reported(b, f) == Reported(a, f)
  {
    var gone := Dropped(a.peers, desired);
    var kept := a.peers.Keys - gone;
    SumPartition(a.peers, gone, f);
    SurvivorsAgree(a.peers, desired, how, kept, f);
    NewcomersAreZero(a.peers, desired, how, kept, f);
    assert b.peers.Keys == desired.Keys;
    SumPartition(b.peers, kept, f);
  }

  // ----- every run of the agent -----

  /** What the handlers keep of a peer: its life is valid, and its other counters are in range. */
  ghost predicate Sound(p: Peer) {
    && Peers.Valid(p.life)
    && p.tx <= U64_MAX && p.rx <= U64_MAX && p.samples <= U64_MAX
    && p.micros <= SaturatingMul(p.samples, MAX_LATENCY_MICROSECONDS)
    && p.txPackets <= U64_MAX && p.rxPackets <= U64_MAX
    && (p.last.Some? ==> p.last.value <= MAX_LATENCY_MICROSECONDS)
    && (p.probe.Some? ==> p.lastPass < p.probe.value.lastSent + PATH_PROBE_RETRY_INTERVAL)
  }

  lemma {:induction false} SoundIsPlausible(p: Peer)
    requires Sound(p)
    ensures Below(p.Totals(), U64_MAX) && Plausible(p.Totals())
  {
  }

  /** Every counter of `q` is at least that of `p`. */
  ghost predicate NotDecreased(p: Peer, q: Peer) {
    p.txPackets <= q.txPackets && p.rxPackets <= q.rxPackets && AtMost(p.Totals(), q.Totals())
  }

  ghost predicate Legal(a: Agent) {
    && Below(a.retired, U64_MAX) && Plausible(a.retired)
    && forall k :: k in a.peers ==> Sound(a.peers[k])
  }

  /** What happens to one peer: a handler runs, a datagram is delivered, or a probe is sent, dropped or answered. */
  datatype Traffic =
    | Handled(event: Peers.Event, seals: bool)  // `seals`: an established session takes the packet
    | Received(length: nat)
    | ProbeSent(now: nat)
    | ProbeDropped
    | Answered(now: nat)

  /** How long the agent may go without a maintenance pass; it makes one every tenth of a second. */
  const MAX_STALL: nat := 599_700

  /** The clock does not go back, and no answer comes in after a longer stall. */
  predicate Timely(p: Peer, t: Traffic) {
    match t
    case ProbeSent(now) => p.lastPass <= now
    case Answered(now) => now <= p.lastPass + MAX_STALL
    case _ => true
  }

  /** A packet offered counts as sent once it is sealed or queued, even if the handshake then fails to start. */
  predicate CountsAsSent(p: Peers.Peer, t: Traffic)
    requires t.Handled?
  {
    t.event.Offer? &&
    var outcome := Peers.Forward(p, t.event.packet, t.event.now, t.event.works).1;
    outcome.Queued? || outcome.Failed? || (outcome.Transmitted? && t.seals)
  }

  function Handle(p: Peer, t: Traffic): Peer {
    match t
    case Handled(e, _) =>
      var q := p.(life := Peers.Step(p.life, e));
      var r := if e.Pass? then q.(probe := PolledProbe(p.probe, q.life.state.Established?, e.now), lastPass := e.now) else q;
      if CountsAsSent(p.life, t)
      then r.(txPackets := SaturatingAdd(p.txPackets, 1, U64_MAX), tx := SaturatingAdd(p.tx, e.packet.length, U64_MAX))
      else r
    case Received(length) =>
      p.(rxPackets := SaturatingAdd(p.rxPackets, 1, U64_MAX), rx := SaturatingAdd(p.rx, length, U64_MAX))
    case ProbeSent(now) => p.(probe := Some(Probe(now, 1)))
    case ProbeDropped => p.(probe := None)
    case Answered(now) =>
      if p.probe.None? then p
      else
        var latency := 1000 * Since(now, p.probe.value.lastSent);
        p.(probe := None, last := Some(latency),
           samples := SaturatingAdd(p.samples, 1, U64_MAX), micros := SaturatingAdd(p.micros, latency, U64_MAX))
  }

  /** Traffic with one peer, or a new configuration. */
  datatype Event =
    | At(ip: nat, traffic: Traffic)
    | Configured(desired: map<nat, Peer>, how: How)

  ghost predicate StepsTo(a: Agent, e: Event, b: Agent) {
    match e
    case At(ip, t) =>
      && ip in a.peers && Timely(a.peers[ip], t)
      && b == a.(peers := a.peers[ip := Handle(a.peers[ip], t)])
    case Configured(desired, how) => AllFresh(desired) && Configures(a, desired, how, b)
  }

  /** Every handler keeps a peer sound and takes nothing away from its counters. */
  lemma {:induction false} HandleKeepsSound(p: Peer, t: Traffic)
    requires Sound(p) && Timely(p, t)
    ensures var q := Handle(p, t);
      Sound(q) && NotDecreased(p, q) && q.node == p.node
  {
    if t.Handled? {
      Peers.StepKeeps(p.life, t.event);
      Peers.StepCounts(p.life, t.event);
    } else if t.Answered? && p.probe.Some? {
      var latency := 1000 * Since(t.now, p.probe.value.lastSent);
      assert latency <= MAX_LATENCY_MICROSECONDS;
      CappedLatency(p.micros + latency, p.samples + 1);
    }
  }

  lemma {:induction false} CappedLatency(micros: nat, samples: nat)
    requires micros <= samples * MAX_LATENCY_MICROSECONDS
    ensures Capped(micros) <= SaturatingMul(Capped(samples), MAX_LATENCY_MICROSECONDS)
  {
  }

  lemma {:induction false} SumsArePlausible(table: map<nat, Peer>, keys: set<nat>)
    requires keys <= table.Keys && forall k :: k in keys ==> Plausible(table[k].Totals())
    ensures Sum(table, keys, Successes) <= Sum(table, keys, Attempts)
    ensures Sum(table, keys, Micros) <= Sum(table, keys, Samples) * MAX_LATENCY_MICROSECONDS
    decreases keys
  {
    if keys != {} {
      var k :| k in keys;
      SumSplits(table, keys, k, Successes);
      SumSplits(table, keys, k, Attempts);
      SumSplits(table, keys, k, Samples);
      SumSplits(table, keys, k, Micros);
      SumsArePlausible(table, keys - {k});
    }
  }

  /** Retired or reported totals of plausible peers are plausible, saturated or not. */
  lemma {:induction false} RetiredIsPlausible(a: Counters, table: map<nat, Peer>, gone: set<nat>, b: Counters)
    requires gone <= table.Keys && Retires(a, table, gone, b) && Plausible(a)
    requires forall k :: k in gone ==> Plausible(table[k].Totals())
    ensures Plausible(b) && Below(b, U64_MAX)
  {
    SumsArePlausible(table, gone);
    assert b.successes == Get(b, Successes) && b.attempts == Get(b, Attempts);
    assert b.samples == Get(b, Samples) && b.micros == Get(b, Micros);
    CappedLatency(a.micros + Sum(table, gone, Micros), a.samples + Sum(table, gone, Samples));
  }

  lemma {:induction false} StepKeepsLegal(a: Agent, e: Event, b: Agent)
    requires Legal(a) && StepsTo(a, e, b)
    ensures Legal(b)
  {
    match e
    case At(ip, t) => HandleKeepsSound(a.peers[ip], t);
    case Configured(desired, how) => ConfigurationKeepsLegal(a, desired, how, b);
  }

  lemma {:induction false} ConfigurationKeepsLegal(a: Agent, desired: map<nat, Peer>, how: How, b: Agent)
    requires Legal(a) && AllFresh(desired) && Configures(a, desired, how, b)
    ensures Legal(b)
  {
    var gone := Dropped(a.peers, desired);
    forall k | k in gone ensures Plausible(a.peers[k].Totals()) { SoundIsPlausible(a.peers[k]); }
    RetiredIsPlausible(a.retired, a.peers, gone, b.retired);
    forall k | k in b.peers ensures Sound(b.peers[k]) {
      if Kept(a.peers, desired, k) { ReconfiguredKeeps(a.peers[k], desired[k], how); } else { FreshIsSound(desired[k]); }
    }
  }

  lemma {:induction false} FreshIsSound(p: Peer)
    requires IsFresh(p)
    ensures Sound(p) && p.Totals() == ZERO && p.txPackets == 0 && p.rxPackets == 0
  {
    var now :| p == NewPeer(p.node, p.life.candidates, now);
    Peers.EveryRunIsValid(p.life.candidates, now, []);
  }

  /** No step takes anything away from a reported total. */
  lemma {:induction false} StepKeepsTotals(a: Agent, e: Event, b: Agent, f: Field)
    requires Legal(a) && StepsTo(a, e, b)
    ensures Reported(a, f) <= Reported(b, f)
  {
    match e
    case Configured(desired, how) => TotalsAreConserved(a, desired, how, b, f);
    case At(ip, t) =>
      HandleKeepsSound(a.peers[ip], t);
      TotalsGrow(a, ip, Handle(a.peers[ip], t), f);
  }

  lemma {:induction false} TotalsGrow(a: Agent, ip: nat, q: Peer, f: Field)
    requires ip in a.peers && NotDecreased(a.peers[ip], q)
    ensures Reported(a, f) <= Reported(a.(peers := a.peers[ip := q]), f)
  {
    var now := a.peers[ip := q];
    assert now.Keys == a.peers.Keys;
    assert forall k :: k in a.peers ==> Get(a.peers[k].Totals(), f) <= Get(now[k].Totals(), f);
    SumGrows(a.peers, now, now.Keys, f);
  }

  /** An agent that has just started: nothing retired, and only fresh peers. */
  ghost predicate Started(a: Agent) {
    a.retired == ZERO && AllFresh(a.peers)
  }

  ghost predicate IsRun(trace: seq<Agent>, events: seq<Event>) {
    && |trace| == |events| + 1
    && Started(trace[0])
    && forall i :: 0 <= i < |events| ==> StepsTo(trace[i], events[i], trace[i + 1])
  }

  /** In every run every peer's successes are among its attempts, and every counter and latency is in range. */
  lemma {:induction false} EveryRunIsLegal(trace: seq<Agent>, events: seq<Event>, j: nat)
    requires IsRun(trace, events) && j < |trace|
    ensures Legal(trace[j])
  {
    if j == 0 {
      forall k | k in trace[0].peers ensures Sound(trace[0].peers[k]) { FreshIsSound(trace[0].peers[k]); }
    } else {
      EveryRunIsLegal(trace, events, j - 1);
      StepKeepsLegal(trace[j - 1], events[j - 1], trace[j]);
    }
  }

  /** In every run no reported total ever falls, across any traffic and any reconfigurations. */
  lemma {:induction false} EveryRunIsMonotone(trace: seq<Agent>, events: seq<Event>, i: nat, j: nat, f: Field)
    requires IsRun(trace, events) && i <= j < |trace|
    ensures Reported(trace[i], f) <= Reported(trace[j], f)
    decreases j
  {
    if i < j {
      EveryRunIsMonotone(trace, events, i, j - 1, f);
      EveryRunIsLegal(trace, events, j - 1);
      StepKeepsTotals(trace[j - 1], events[j - 1], trace[j], f);
    }
  }

  // ----- the report -----

  datatype Node = Node(id: nat, ip: nat)

  datatype RelayService = RelayService(endpoint: Candidates.Endpoint, id: nat)

  datatype Entry = Entry(
    node: nat, path: Path, relayId: Option<nat>, established: bool, last: Option<nat>,
    txPackets: nat, rxPackets: nat, counters: Counters)

  datatype Report = Report(
    network: nat, node: nat, boot: nat, sequence: nat, generatedAt: int, totals: Counters, peers: seq<Entry>)

  function FindRelay(relays: seq<RelayService>, endpoint: Candidates.Endpoint): (r: Option<nat>)
    ensures r.Some? ==> RelayService(endpoint, r.value) in relays
  {
    if relays == [] then None
    else if relays[0].endpoint == endpoint then Some(relays[0].id)
    else FindRelay(relays[1..], endpoint)
  }

  /** The entry for one configured node; a node the data plane does not know yet counts as disconnected. */
  function EntryOf(node: Node, relays: seq<RelayService>, status: map<nat, Peer>): Option<Entry> {
    if node.ip !in status then Some(Entry(node.id, Disconnected, None, false, None, 0, 0, ZERO))
    else
      var p := status[node.ip];
      var path := PathOf(p.life);
      var relay := if path.Relay? then FindRelay(relays, p.life.active.value) else None;
      if path.Relay? && relay.None? then None
      else Some(Entry(node.id, path, relay, !path.Disconnected?, p.last, p.txPackets, p.rxPackets, p.Totals()))
  }

  /** Entries for the first `n` nodes, the local node left out. */
  function Entries(nodes: seq<Node>, n: nat, local: nat, relays: seq<RelayService>, status: map<nat, Peer>): Option<seq<Entry>>
    requires n <= |nodes|
  {
    if n == 0 then Some([])
    else
      var before := Entries(nodes, n - 1, local, relays, status);
      if before.None? || nodes[n - 1].id == local then before
      else
        var entry := EntryOf(nodes[n - 1], relays, status);
        if entry.None? then None else Some(before.value + [entry.value])
  }

  function BuildReport(network: nat, local: nat, boot: nat, sequence: nat, now: int, nodes: seq<Node>,
                       relays: seq<RelayService>, status: map<nat, Peer>, totals: Counters): Option<Report>
  {
    var entries := Entries(nodes, |nodes|, local, relays, status);
    if entries.None? || |entries.value| > MAX_AGENT_TELEMETRY_PEERS || sequence >= U64_MAX then None
    else Some(Report(network, local, boot, sequence + 1, now, totals, entries.value))
  }

  // ----- the controller -----

  predicate EntryOk(e: Entry, self: nat, relayIds: set<nat>) {
    && (match e.path
        case Disconnected => !e.established && e.relayId.None?
        case Direct => e.established && e.relayId.None?
        case Relay => e.established && e.relayId.Some? && e.relayId.value in relayIds)
    && e.node != self
    && Plausible(e.counters)
    && (e.last.Some? ==> e.last.value <= MAX_LATENCY_MICROSECONDS)
  }

  predicate HeaderOk(r: Report, network: nat, self: nat, now: int) {
    && r.network == network && r.node == self && r.sequence > 0 && |r.peers| <= MAX_AGENT_TELEMETRY_PEERS
    && now - MAX_REPORT_AGE <= r.generatedAt <= now + MAX_REPORT_LEAD
    && Plausible(r.totals) && r.boot != 0
  }

  function EntrySum(entries: seq<Entry>, n: nat, f: Field): nat
    requires n <= |entries|
  {
    if n == 0 then 0 else EntrySum(entries, n - 1, f) + Get(entries[n - 1].counters, f)
  }

  /** What a report has to be for the controller to take it. */
  ghost predicate Admissible(r: Report, network: nat, self: nat, relayIds: set<nat>, now: int) {
    && HeaderOk(r, network, self, now)
    && (forall i :: 0 <= i < |r.peers| ==> EntryOk(r.peers[i], self, relayIds))
    && (forall i, j :: 0 <= i < j < |r.peers| ==> r.peers[i].node != r.peers[j].node)
    && (forall f :: EntrySum(r.peers, |r.peers|, f) <= Get(r.totals, f))
    && Below(r.totals, I64_MAX)
  }

  predicate Adds(a: Counters, b: Counters, limit: nat) {
    && a.tx + b.tx <= limit && a.rx + b.rx <= limit && a.attempts + b.attempts <= limit
    && a.successes + b.successes <= limit && a.samples + b.samples <= limit && a.micros + b.micros <= limit
  }

  lemma {:induction false} AddsInEveryField(a: Counters, b: Counters, limit: nat)
    ensures Adds(a, b, limit) <==> forall f :: Get(a, f) + Get(b, f) <= limit
  {
    if forall f :: Get(a, f) + Get(b, f) <= limit {
      assert Get(a, Tx) + Get(b, Tx) <= limit && Get(a, Rx) + Get(b, Rx) <= limit;
      assert Get(a, Attempts) + Get(b, Attempts) <= limit && Get(a, Successes) + Get(b, Successes) <= limit;
      assert Get(a, Samples) + Get(b, Samples) <= limit && Get(a, Micros) + Get(b, Micros) <= limit;
    }
  }

  predicate Dominates(a: Counters, b: Counters) {
    && a.tx >= b.tx && a.rx >= b.rx && a.attempts >= b.attempts && a.successes >= b.successes
    && a.samples >= b.samples && a.micros >= b.micros
  }

  lemma {:induction false} DominatesInEveryField(a: Counters, b: Counters)
    ensures Dominates(a, b) <==> AtMost(b, a)
  {
    if AtMost(b, a) {
      assert Get(b, Tx) <= Get(a, Tx) && Get(b, Rx) <= Get(a, Rx) && Get(b, Attempts) <= Get(a, Attempts);
      assert Get(b, Successes) <= Get(a, Successes) && Get(b, Samples) <= Get(a, Samples) && Get(b, Micros) <= Get(a, Micros);
    }
  }

  lemma {:induction false} PartialSums(entries: seq<Entry>, n: nat, m: nat, f: Field)
    requires n <= m <= |entries|
    ensures EntrySum(entries, n, f) <= EntrySum(entries, m, f)
    decreases m
  {
    if n < m { PartialSums(entries, n, m - 1, f); }
  }

  ghost predicate Accumulates(sums: Counters, entries: seq<Entry>, n: nat)
    requires n <= |entries|
  {
    forall f :: Get(sums, f) == EntrySum(entries, n, f)
  }

  lemma {:induction false} AccumulatesOneMore(sums: Counters, entries: seq<Entry>, n: nat)
    requires n < |entries| && Accumulates(sums, entries, n)
    ensures Adds(sums, entries[n].counters, U64_MAX) ==> Accumulates(AddPeer(sums, entries[n].counters), entries, n + 1)
    ensures !Adds(sums, entries[n].counters, U64_MAX) ==> exists f :: EntrySum(entries, |entries|, f) > U64_MAX
  {
    AddsInEveryField(sums, entries[n].counters, U64_MAX);
    if !Adds(sums, entries[n].counters, U64_MAX) {
      var f :| Get(sums, f) + Get(entries[n].counters, f) > U64_MAX;
      PartialSums(entries, n + 1, |entries|, f);
      assert EntrySum(entries, |entries|, f) > U64_MAX;
    }
  }

  /**
   What that comes to: the report is the node's own, of this boot and recent, its totals fit 63
   bits and cover its entries, and every entry is consistent in itself. No bound saturates.
   */
  lemma {:induction false} AdmissibleIff(r: Report, network: nat, self: nat, relayIds: set<nat>, now: int)
    ensures Admissible(r, network, self, relayIds, now) <==>
      && r.network == network && r.node == self && r.boot != 0 && r.sequence >= 1 && -600 <= r.generatedAt - now <= 300
      && Below(r.totals, I64_MAX) && r.totals.successes <= r.totals.attempts && r.totals.micros <= r.totals.samples * 600_000_000
      && |r.peers| <= 1024 && (forall f :: EntrySum(r.peers, |r.peers|, f) <= Get(r.totals, f))
      && (forall i, j :: 0 <= i < j < |r.peers| ==> r.peers[i].node != r.peers[j].node)
      && (forall i :: 0 <= i < |r.peers| ==> Consistent(r.peers[i], relayIds) && r.peers[i].node != self)
  {
    assert Below(r.totals, I64_MAX) ==> Get(r.totals, Micros) <= I64_MAX;
    if forall f :: EntrySum(r.peers, |r.peers|, f) <= Get(r.totals, f) {
      if Below(r.totals, I64_MAX) {
        forall i | 0 <= i < |r.peers| ensures EntryOk(r.peers[i], self, relayIds) <==> Consistent(r.peers[i], relayIds) && r.peers[i].node != self {
          PartialSums(r.peers, i + 1, |r.peers|, Micros);
          assert r.peers[i].counters.micros <= Get(r.totals, Micros);
        }
      }
    }
  }

  predicate Consistent(e: Entry, relayIds: set<nat>) {
    && (e.established <==> !e.path.Disconnected?)
    && (e.relayId.Some? <==> e.path.Relay?) && (e.relayId.Some? ==> e.relayId.value in relayIds)
    && e.counters.successes <= e.counters.attempts && e.counters.micros <= e.counters.samples * 600_000_000
    && (e.last.Some? ==> e.last.value <= 600_000_000)
  }

  /** The controller's loop, with checked sums and a set of nodes seen, decides exactly that. */
  method ValidateReport(r: Report, network: nat, self: nat, relayIds: set<nat>, now: int) returns (ok: bool)
    requires Below(r.totals, U64_MAX)
    ensures ok <==> Admissible(r, network, self, relayIds, now)
  {
    if !HeaderOk(r, network, self, now) {
      return false;
    }
    var seen: set<nat> := {};
    var sums := ZERO;
    for n := 0 to |r.peers|
      invariant forall i :: 0 <= i < n ==> EntryOk(r.peers[i], self, relayIds)
      invariant forall i, j :: 0 <= i < j < n ==> r.peers[i].node != r.peers[j].node
      invariant forall x :: x in seen <==> exists i :: 0 <= i < n && r.peers[i].node == x
      invariant Accumulates(sums, r.peers, n)
    {
      var e := r.peers[n];
      if !EntryOk(e, self, relayIds) || e.node in seen {
        return false;
      }
      AccumulatesOneMore(sums, r.peers, n);
      if !Adds(sums, e.counters, U64_MAX) {
        return false;
      }
      seen := seen + {e.node};
      sums := AddPeer(sums, e.counters);
    }
    DominatesInEveryField(r.totals, sums);
    DominatesInEveryField(Counters(I64_MAX, I64_MAX, I64_MAX, I64_MAX, I64_MAX, I64_MAX), r.totals);
    AllTheSame(I64_MAX);
    ok := Dominates(r.totals, sums) && Dominates(Counters(I64_MAX, I64_MAX, I64_MAX, I64_MAX, I64_MAX, I64_MAX), r.totals);
  }

  lemma {:induction false} AllTheSame(n: nat)
    ensures forall f :: Get(Counters(n, n, n, n, n, n), f) == n
  {
  }

  // ----- from agent to controller -----

  predicate DistinctNodes(nodes: seq<Node>) {
    && (forall i, j :: 0 <= i < j < |nodes| ==> nodes[i].id != nodes[j].id)
    && (forall i, j :: 0 <= i < j < |nodes| ==> nodes[i].ip != nodes[j].ip)
  }

  /** The addresses of the first `n` nodes that the data plane knows. */
  function Known(nodes: seq<Node>, n: nat, status: map<nat, Peer>): (known: set<nat>)
    requires n <= |nodes|
    ensures known <= status.Keys
    ensures forall k :: k in known ==> exists i :: 0 <= i < n && nodes[i].ip == k
  {
    if n == 0 then {} else Known(nodes, n - 1, status) + if nodes[n - 1].ip in status then {nodes[n - 1].ip} else {}
  }

  lemma {:induction false} EntrySumAppend(entries: seq<Entry>, e: Entry, f: Field)
    ensures EntrySum(entries + [e], |entries| + 1, f) == EntrySum(entries, |entries|, f) + Get(e.counters, f)
  {
    EntrySumPrefix(entries, [e], |entries|, f);
  }

  lemma {:induction false} EntrySumPrefix(entries: seq<Entry>, more: seq<Entry>, n: nat, f: Field)
    requires n <= |entries|
    ensures EntrySum(entries + more, n, f) == EntrySum(entries, n, f)
  {
    if n > 0 { EntrySumPrefix(entries, more, n - 1, f); }
  }

  /** The entries never claim more than the peers at their addresses hold. */
  lemma {:induction false} EntriesAreCovered(nodes: seq<Node>, n: nat, local: nat, relays: seq<RelayService>,
                                             status: map<nat, Peer>, f: Field)
    requires n <= |nodes| && DistinctNodes(nodes) && Entries(nodes, n, local, relays, status).Some?
    ensures var es := Entries(nodes, n, local, relays, status).value;
      EntrySum(es, |es|, f) <= Sum(status, Known(nodes, n, status), f)
  {
    if n > 0 {
      EntriesAreCovered(nodes, n - 1, local, relays, status, f);
      var before := Known(nodes, n - 1, status);
      var ip := nodes[n - 1].ip;
      assert ip !in before;
      if ip in status {
        SumInsert(status, before, ip, f);
      } else {
        assert Known(nodes, n, status) == before;
      }
      if nodes[n - 1].id != local {
        EntrySumAppend(Entries(nodes, n - 1, local, relays, status).value, EntryOf(nodes[n - 1], relays, status).value, f);
      }
    }
  }

  ghost predicate KnowsRelays(relays: seq<RelayService>, relayIds: set<nat>) {
    forall r :: r in relays ==> r.id in relayIds
  }

  /** Each entry belongs to one of the nodes, in order, and would pass on its own. */
  lemma {:induction false} EntriesPass(nodes: seq<Node>, n: nat, local: nat, relays: seq<RelayService>, a: Agent, relayIds: set<nat>)
    requires n <= |nodes| && DistinctNodes(nodes) && Entries(nodes, n, local, relays, a.peers).Some?
    requires Legal(a) && KnowsRelays(relays, relayIds)
    ensures var es := Entries(nodes, n, local, relays, a.peers).value;
      && (forall i :: 0 <= i < |es| ==> EntryOk(es[i], local, relayIds))
      && (forall i :: 0 <= i < |es| ==> exists k :: 0 <= k < n && nodes[k].id == es[i].node)
      && (forall i, j :: 0 <= i < j < |es| ==> es[i].node != es[j].node)
  {
    if n > 0 {
      EntriesPass(nodes, n - 1, local, relays, a, relayIds);
      if nodes[n - 1].id != local {
        EntryPasses(nodes[n - 1], local, relays, a, relayIds);
      }
    }
  }

  lemma {:induction false} EntryPasses(node: Node, local: nat, relays: seq<RelayService>, a: Agent, relayIds: set<nat>)
    requires Legal(a) && KnowsRelays(relays, relayIds) && node.id != local && EntryOf(node, relays, a.peers).Some?
    ensures EntryOk(EntryOf(node, relays, a.peers).value, local, relayIds)
    ensures EntryOf(node, relays, a.peers).value.node == node.id
  {
    if node.ip in a.peers { SoundIsPlausible(a.peers[node.ip]); }
  }

  /**
   The report that a legal agent builds is admitted by the controller exactly when
   every reported total fits a signed 64-bit integer.
   */
  lemma {:induction false} ReportIsAdmitted(a: Agent, totals: Counters, network: nat, local: nat, boot: nat, sequence: nat, sentAt: int,
                         nodes: seq<Node>, relays: seq<RelayService>, relayIds: set<nat>, now: int)
    requires Legal(a) && (forall f :: Get(totals, f) == Reported(a, f))
    requires DistinctNodes(nodes) && KnowsRelays(relays, relayIds)
    requires boot != 0 && now - MAX_REPORT_AGE <= sentAt <= now + MAX_REPORT_LEAD
    requires BuildReport(network, local, boot, sequence, sentAt, nodes, relays, a.peers, totals).Some?
    ensures var r := BuildReport(network, local, boot, sequence, sentAt, nodes, relays, a.peers, totals).value;
      Admissible(r, network, local, relayIds, now) <==> Below(totals, I64_MAX)
  {
    var r := BuildReport(network, local, boot, sequence, sentAt, nodes, relays, a.peers, totals).value;
    EntriesPass(nodes, |nodes|, local, relays, a, relayIds);
    assert Retires(a.retired, a.peers, a.peers.Keys, totals);
    forall k | k in a.peers ensures Plausible(a.peers[k].Totals()) { SoundIsPlausible(a.peers[k]); }
    RetiredIsPlausible(a.retired, a.peers, a.peers.Keys, totals);
    if Below(totals, I64_MAX) {
      forall f ensures EntrySum(r.peers, |r.peers|, f) <= Get(totals, f) {
        EntriesAreCovered(nodes, |nodes|, local, relays, a.peers, f);
        SumPartition(a.peers, Known(nodes, |nodes|, a.peers), f);
        assert Get(totals, f) <= I64_MAX;
      }
    }
  }

  /** Every report of a run is admitted exactly when its totals fit; nothing about the agent is assumed beyond the run. */
  lemma {:induction false} EveryReportIsAdmitted(trace: seq<Agent>, events: seq<Event>, j: nat, totals: Counters, network: nat,
                                                 local: nat, boot: nat, sequence: nat, sentAt: int, nodes: seq<Node>,
                                                 relays: seq<RelayService>, relayIds: set<nat>, now: int)
    requires IsRun(trace, events) && j < |trace| && (forall f :: Get(totals, f) == Reported(trace[j], f))
    requires DistinctNodes(nodes) && KnowsRelays(relays, relayIds)
    requires boot != 0 && now - MAX_REPORT_AGE <= sentAt <= now + MAX_REPORT_LEAD
    requires BuildReport(network, local, boot, sequence, sentAt, nodes, relays, trace[j].peers, totals).Some?
    ensures var r := BuildReport(network, local, boot, sequence, sentAt, nodes, relays, trace[j].peers, totals).value;
      Admissible(r, network, local, relayIds, now) <==> Below(totals, I64_MAX)
  {
    EveryRunIsLegal(trace, events, j);
    ReportIsAdmitted(trace[j], totals, network, local, boot, sequence, sentAt, nodes, relays, relayIds, now);
  }
}
