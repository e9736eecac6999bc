/**
 What one peer's traffic does to its counters and its path probe: exact totals over any
 life of a peer, and the schedule of a probe that nobody answers.
 */
module TrafficSteps {
  import opened Prelude
  import opened Telemetry
  import Candidates
  import Peers
  import PeerSteps

  // ----- one event -----

  /** A packet for the peer counts if its session seals it, or if it is queued for the session to come. */
  predicate Sends(p: Peer, t: Traffic) {
    t.Handled? && t.event.Offer? && if p.life.state.Established? then t.seals else PeerSteps.TakesPacket(p.life, t.event)
  }

  /** The answer to the pending probe; any other finds nothing to measure. */
  predicate Measures(p: Peer, t: Traffic) {
    t.Answered? && p.probe.Some?
  }

  function SentLength(p: Peer, t: Traffic): nat {
    if Sends(p, t) then t.event.packet.length else 0
  }

  function ReceivedLength(t: Traffic): nat {
    if t.Received? then t.length else 0
  }

  /** Microseconds since the probe was last sent. */
  function Latency(p: Peer, t: Traffic): nat {
    if Measures(p, t) && t.now > p.probe.value.lastSent then 1000 * (t.now - p.probe.value.lastSent) else 0
  }

  function One(counts: bool): nat {
    if counts then 1 else 0
  }

  /** Every counter moves by exactly what happened. */
  lemma {:induction false} TrafficIsCounted(p: Peer, t: Traffic)
    requires Sound(p) && Timely(p, t)
    ensures var q := Handle(p, t);
      && q.txPackets == Capped(p.txPackets + One(Sends(p, t))) && q.tx == Capped(p.tx + SentLength(p, t))
      && q.rxPackets == Capped(p.rxPackets + One(t.Received?)) && q.rx == Capped(p.rx + ReceivedLength(t))
      && q.samples == Capped(p.samples + One(Measures(p, t))) && q.micros == Capped(p.micros + Latency(p, t))
      && q.last == (if Measures(p, t) then Some(Latency(p, t)) else p.last)
      && q.life == (if t.Handled? then Peers.Step(p.life, t.event) else p.life)
      && q.lastPass == (if IsPass(t) then t.event.now else p.lastPass) && q.node == p.node
  {
    SoundIsPlausible(p);
    assert p.micros == Get(p.Totals(), Micros);
  }

  // ----- a life -----

  /** What becomes of a peer under a sequence of events. */
  function Live(p: Peer, ts: seq<Traffic>): Peer {
    if ts == [] then p else Handle(Live(p, ts[..|ts| - 1]), ts[|ts| - 1])
  }

  predicate Paced(p: Peer, ts: seq<Traffic>) {
    forall i :: 0 <= i < |ts| ==> Timely(Live(p, ts[..i]), ts[i])
  }

  /** What was sent, received and measured on the way: counts and amounts. */
  datatype Tally = Tally(txPackets: nat, tx: nat, rxPackets: nat, rx: nat, samples: nat, micros: nat)

  function Totalled(p: Peer, ts: seq<Traffic>): Tally {
    if ts == [] then Tally(0, 0, 0, 0, 0, 0)
    else
      var prefix, t := ts[..|ts| - 1], ts[|ts| - 1];
      var before, k := Live(p, prefix), Totalled(p, prefix);
      Tally(k.txPackets + One(Sends(before, t)), k.tx + SentLength(before, t), k.rxPackets + One(t.Received?),
            k.rx + ReceivedLength(t), k.samples + One(Measures(before, t)), k.micros + Latency(before, t))
  }

  /** After any life of a peer its counters are the exact totals, saturated at 64 bits. */
  lemma {:induction false} CountersAreTotals(p: Peer, ts: seq<Traffic>)
    requires IsFresh(p) && Paced(p, ts)
    ensures var q, k := Live(p, ts), Totalled(p, ts);
      && Sound(q) && q.txPackets == Capped(k.txPackets) && q.tx == Capped(k.tx)
      && q.rxPackets == Capped(k.rxPackets) && q.rx == Capped(k.rx)
      && q.samples == Capped(k.samples) && q.micros == Capped(k.micros)
  {
    if ts == [] {
      FreshIsSound(p);
    } else {
      var prefix, t := ts[..|ts| - 1], ts[|ts| - 1];
      assert forall i :: 0 <= i < |prefix| ==> prefix[..i] == ts[..i];
      CountersAreTotals(p, prefix);
      TrafficIsCounted(Live(p, prefix), t);
      HandleKeepsSound(Live(p, prefix), t);
    }
  }

  // ----- the probe -----

  predicate IsPass(t: Traffic) {
    t.Handled? && t.event.Pass?
  }

  /** A probe is given up at a pass without a session, or at the first one 300 ms after its fourth sending. */
  predicate GivesProbeUp(p: Peer, t: Traffic) {
    IsPass(t) && p.probe.Some? &&
    (!Handle(p, t).life.state.Established? || (t.event.now >= p.probe.value.lastSent + 300 && p.probe.value.attempts >= 4))
  }

  /** Otherwise it is sent again at the first pass 300 ms after the last sending. */
  predicate Resends(p: Peer, t: Traffic) {
    IsPass(t) && p.probe.Some? && !GivesProbeUp(p, t) && t.event.now >= p.probe.value.lastSent + 300
  }

  lemma {:induction false} ProbeMoves(p: Peer, t: Traffic)
    ensures Handle(p, t).probe ==
      if t.ProbeSent? then Some(Probe(t.now, 1))
      else if Resends(p, t) then Some(Probe(t.event.now, p.probe.value.attempts + 1))
      else if GivesProbeUp(p, t) || t.Answered? || t.ProbeDropped? then None
      else p.probe
  {
  }

  /** A configuration drops the probe if it changes a route, ends the session if it changes the policy, and counts nothing. */
  lemma {:induction false} ConfigurationIsExact(p: Peer, q: Peer, how: How)
    ensures var r := Reconfigured(p, q, how);
      && r.life.candidates == q.life.candidates
      && (r.life.state.Established? <==> p.life.state.Established? && !how.policyChanged)
      && r.probe == (if Candidates.Routes(p.life.candidates) == Candidates.Routes(q.life.candidates) then p.probe else None)
      && r.(life := p.life, probe := p.probe) == p && r.Totals() == p.Totals()
  {
    Candidates.RoutesChangedIff(p.life.candidates, q.life.candidates);
  }

  /** How often the probe that was created last has been sent. */
  function Sendings(p: Peer, ts: seq<Traffic>): nat {
    if ts == [] then 0
    else
      var prefix, t := ts[..|ts| - 1], ts[|ts| - 1];
      if t.ProbeSent? then 1 else Sendings(p, prefix) + One(Resends(Live(p, prefix), t))
  }

  /** A pending probe was sent at most four times, and one given up in a live session was sent exactly four times. */
  lemma {:induction false} UnansweredProbeIsSentFourTimes(p: Peer, ts: seq<Traffic>, t: Traffic)
    requires IsFresh(p)
    ensures var q := Live(p, ts);
      && (q.probe.Some? ==> 1 <= q.probe.value.attempts == Sendings(p, ts) <= 4)
      && (GivesProbeUp(q, t) && Handle(q, t).life.state.Established? ==> Sendings(p, ts) == 4)
    decreases ts
  {
    if ts != [] {
      var prefix, last := ts[..|ts| - 1], ts[|ts| - 1];
      UnansweredProbeIsSentFourTimes(p, prefix, last);
      ProbeMoves(Live(p, prefix), last);
    }
  }

  // ----- the path -----

  lemma {:induction false} ActiveKindIsFirst(candidates: seq<Candidates.Candidate>, active: Candidates.Endpoint)
    ensures var at, kind := Candidates.Position(candidates, active), ActiveKind(candidates, active);
      if at.Some? then at.value < |candidates| && kind == Some(candidates[at.value].kind) else kind == None
    decreases candidates
  {
    Candidates.PositionIsFirst(candidates, active);
    if candidates != [] {
      ActiveKindIsFirst(candidates[1..], active);
    }
  }

  /** A session is reported as relayed exactly if the first candidate at its endpoint is a relay's, and as direct otherwise. */
  lemma {:induction false} PathIsExact(p: Peers.Peer)
    ensures PathOf(p).Disconnected? <==> !p.state.Established?
    ensures PathOf(p).Relay? <==>
      && p.state.Established? && p.active.Some?
      && exists at: nat :: Candidates.FirstAt(p.candidates, p.active.value, at) && p.candidates[at].kind.Relay?
  {
    if p.active.Some? {
      ActiveKindIsFirst(p.candidates, p.active.value);
      Candidates.PositionIsFirst(p.candidates, p.active.value);
    }
  }
}
