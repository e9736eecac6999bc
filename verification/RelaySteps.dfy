/**
 What a maintenance pass does for one relay client, stated on the client and the
 clocks: which frames it sends, what becomes of the registration, and when it fails;
 and over runs, how often a registration is sent and what the failures count.
 */
module RelaySteps {
  import opened Prelude
  import opened Relay
  import Service = Configuration

  /** The relay is still configured. */
  predicate Configured(c: Client, t: Clocks) {
    c.configExpiresAt > t.wall
  }

  /** The lease is gone before anything is sent: expired, or its relay was silent for 45 s. */
  predicate Loses(c: Client, t: Clocks) {
    c.lease.Some? && (!Configured(c, t) || c.lease.value.expiresAt <= t.unix || t.now >= c.lease.value.lastActivity + 45_000)
  }

  /** The registration under way has waited half a second, and the lease for which it was made is not lost. */
  predicate Waited(c: Client, t: Clocks) {
    Configured(c, t) && !Loses(c, t) && c.pending.Some? && t.now >= c.pending.value.lastSent + 500
  }

  predicate Resends(c: Client, t: Clocks) {
    Waited(c, t) && c.pending.value.attempts < 6
  }

  predicate GivesUp(c: Client, t: Clocks) {
    Waited(c, t) && c.pending.value.attempts >= 6
  }

  /** A new registration is due: none is under way, and the client needs a lease now. */
  predicate Registers(c: Client, t: Clocks) {
    && Configured(c, t)
    && (Loses(c, t) || (c.pending.None? && t.now >= c.nextRegistrationAt && NeedsLease(c, t)))
  }

  predicate KeepsAlive(c: Client, t: Clocks) {
    c.lease.Some? && !Loses(c, t) && t.now >= c.lease.value.lastKeepaliveAt + 15_000
  }

  /** The frames of a pass that is not cut short: the registration repeated, or a new one, then the keepalive. */
  lemma {:induction false} PassSends(c: Client, t: Clocks, random: Option<nat>)
    requires !Maintain(c, t, random).aborted
    ensures Maintain(c, t, random).frames ==
      (if Resends(c, t) then [Frame.Register(c.pending.value.requestId)] else [])
      + (if Registers(c, t) then [Frame.Register(random.value)] else [])
      + (if KeepsAlive(c, t) then [Frame.Keepalive(c.lease.value.id, c.lease.value.nextSequence)] else [])
  {
  }

  /** A pass is cut short exactly when it must register without a random identifier, or has no sequence for its keepalive. */
  lemma {:induction false} PassAborts(c: Client, t: Clocks, random: Option<nat>)
    ensures Maintain(c, t, random).aborted <==>
      (Registers(c, t) && random.None?) || (KeepsAlive(c, t) && c.lease.value.nextSequence == U64_MAX)
  {
  }

  /** What the pass leaves of the lease, the registration and the backoff. */
  lemma {:induction false} PassLeaves(c: Client, t: Clocks, random: Option<nat>)
    ensures var m := Maintain(c, t, random);
      var d := m.client;
      && (d.lease.None? <==> c.lease.None? || Loses(c, t))
      && (d.lease.Some? ==>
            var sent := KeepsAlive(c, t) && !m.aborted;
            d.lease == Some(c.lease.value.(nextSequence := c.lease.value.nextSequence + (if sent then 1 else 0),
                                           lastKeepaliveAt := if sent then t.now else c.lease.value.lastKeepaliveAt)))
      && d.pending == (
           if !Configured(c, t) || GivesUp(c, t) then None
           else if Registers(c, t) then (if random.Some? then Some(Registration(random.value, t.now, 1)) else None)
           else if Resends(c, t) then Some(Registration(c.pending.value.requestId, t.now, c.pending.value.attempts + 1))
           else c.pending)
      && d.failures == (if GivesUp(c, t) then SaturatingAdd(c.failures, 1, 255) else c.failures)
      && d.nextRegistrationAt == (
           if GivesUp(c, t) then t.now + BackoffDelay(d.failures)
           else if Configured(c, t) && Loses(c, t) then t.now else c.nextRegistrationAt)
      && SameIdentity(c, d)
  {
  }

  /** After a pass that is not cut short, a lease in its last half minute is being renewed, unless a backoff is under way. */
  lemma {:induction false} LeaseIsRenewed(c: Client, t: Clocks, random: Option<nat>)
    ensures var m := Maintain(c, t, random);
      !m.aborted && m.client.lease.Some? && m.client.lease.value.expiresAt <= t.unix + 30 ==>
        m.client.pending.Some? || t.now < m.client.nextRegistrationAt
  {
    MaintainMeansHealthy(c, t, random);
  }

  /** A datagram goes out under a lease that is still good, with its next sequence; an expired one is dropped. */
  lemma {:induction false} ForwardSends(c: Client, t: Clocks, encodes: bool)
    ensures var (d, w) := Wrap(c, t, encodes);
      var expired := c.lease.Some? && (c.lease.value.expiresAt <= t.unix || !Configured(c, t));
      && (w.Sent? <==> c.lease.Some? && !expired && c.lease.value.nextSequence != U64_MAX && encodes)
      && (w.Sent? ==> w.frame == Frame.DataFrame(c.lease.value.id, c.lease.value.nextSequence))
      && (w.NotSent? <==> c.lease.None? || expired)
      && (d.lease.None? <==> c.lease.None? || expired)
      && (d.lease.Some? ==> d.lease == Some(c.lease.value.(nextSequence := d.lease.value.nextSequence)))
      && (w.Sent? ==> d.lease.value.nextSequence == c.lease.value.nextSequence + 1)
      && d == c.(lease := d.lease)
  {
  }

  // ----- how often a registration is sent, and what failures count -----

  /** How many frames carry this registration. */
  function Registrations(frames: seq<Frame>, requestId: nat): nat {
    if frames == [] then 0
    else Registrations(frames[..|frames| - 1], requestId) + if frames[|frames| - 1] == Frame.Register(requestId) then 1 else 0
  }

  lemma {:induction false} RegistrationsAdd(a: seq<Frame>, b: seq<Frame>, requestId: nat)
    ensures Registrations(a + b, requestId) == Registrations(a, requestId) + Registrations(b, requestId)
    decreases |b|
  {
    if b == [] {
      assert a + b == a;
    } else {
      var n := |b| - 1;
      assert (a + b)[..|a| + n] == a + b[..n];
      RegistrationsAdd(a, b[..n], requestId);
    }
  }

  /** A pass sends this registration at most once: repeated, or new. */
  lemma {:induction false} PassRegistrations(c: Client, t: Clocks, random: Option<nat>, requestId: nat)
    requires !Maintain(c, t, random).aborted
    ensures Registrations(Maintain(c, t, random).frames, requestId) ==
      if (Resends(c, t) && c.pending.value.requestId == requestId) || (Registers(c, t) && random == Some(requestId)) then 1 else 0
  {
    PassSends(c, t, random);
    PassAborts(c, t, random);
    var a := if Resends(c, t) then [Frame.Register(c.pending.value.requestId)] else [];
    var b := if Registers(c, t) then [Frame.Register(random.value)] else [];
    var d := if KeepsAlive(c, t) then [Frame.Keepalive(c.lease.value.id, c.lease.value.nextSequence)] else [];
    RegistrationsAdd(a + b, d, requestId);
    RegistrationsAdd(a, b, requestId);
    RegistrationsOfOne(a, requestId);
    RegistrationsOfOne(b, requestId);
    RegistrationsOfOne(d, requestId);
  }

  lemma {:induction false} RegistrationsOfOne(a: seq<Frame>, requestId: nat)
    requires |a| <= 1
    ensures Registrations(a, requestId) == if a == [Frame.Register(requestId)] then 1 else 0
  {
    if a != [] { assert a[..0] == []; }
  }

  /** Passes of one client, none cut short, with nothing from the relay or the controller in between. */
  function Unanswered(c: Client, passes: seq<(Clocks, Option<nat>)>): Client {
    if passes == [] then c
    else
      var last := passes[|passes| - 1];
      Maintain(Unanswered(c, passes[..|passes| - 1]), last.0, last.1).client
  }

  /** How often these passes send the registration `requestId`. */
  function TimesSent(c: Client, passes: seq<(Clocks, Option<nat>)>, requestId: nat): nat {
    if passes == [] then 0
    else
      var before, last := passes[..|passes| - 1], passes[|passes| - 1];
      TimesSent(c, before, requestId) + Registrations(Maintain(Unanswered(c, before), last.0, last.1).frames, requestId)
  }

  /** The relay stays configured, the lease, if any, is not lost, and the pass is not cut short. */
  predicate Steady(c: Client, pass: (Clocks, Option<nat>)) {
    Configured(c, pass.0) && !Loses(c, pass.0) && !Maintain(c, pass.0, pass.1).aborted
  }

  /** No two registrations are given the same identifier. */
  predicate FreshIds(c: Client, passes: seq<(Clocks, Option<nat>)>) {
    && (forall i, j :: 0 <= i < j < |passes| && passes[i].1.Some? ==> passes[i].1 != passes[j].1)
    && (forall i :: 0 <= i < |passes| && c.pending.Some? ==> passes[i].1 != Some(c.pending.value.requestId))
  }

  /** A registration under way has been sent as often as its record says, and one given up six times. */
  lemma {:induction false} RegistrationIsSentSixTimes(c: Client, passes: seq<(Clocks, Option<nat>)>, requestId: nat)
    requires c.pending.Some? && c.pending.value.requestId == requestId && c.pending.value.attempts == 1
    requires FreshIds(c, passes)
    requires forall i :: 0 <= i < |passes| ==> Steady(Unanswered(c, passes[..i]), passes[i])
    ensures var d, sent := Unanswered(c, passes), 1 + TimesSent(c, passes, requestId);
      && sent == (if d.pending.Some? && d.pending.value.requestId == requestId then d.pending.value.attempts else 6)
      && sent <= 6
      && (d.pending.Some? && d.pending.value.requestId != requestId ==>
            exists i :: 0 <= i < |passes| && passes[i].1 == Some(d.pending.value.requestId))
  {
    if passes != [] {
      var n := |passes| - 1;
      var before, t, random := passes[..n], passes[n].0, passes[n].1;
      forall i | 0 <= i < n ensures Steady(Unanswered(c, before[..i]), before[i]) {
        assert before[..i] == passes[..i];
      }
      RegistrationIsSentSixTimes(c, before, requestId);
      var d := Unanswered(c, before);
      assert Steady(d, passes[n]);
      PassRegistrations(d, t, random, requestId);
      PassLeaves(d, t, random);
      PassAborts(d, t, random);
      assert passes[n].1 == random;
    }
  }

  /** A response counts once, and only for the registration under way: a repeated or a foreign one changes nothing. */
  lemma {:induction false} ResponseCountsOnce(l: Life, requestId: nat, a: Event, b: Event)
    requires a.Registered? && b.Registered? && a.requestId == b.requestId == requestId
    ensures Step(Step(l, a), b) == Step(l, a)
    ensures l.client.pending.None? || l.client.pending.value.requestId != requestId ==> Step(l, a) == l
  {
  }

  /**
   A granted lease begins its sequences anew, forgets the failures, and is renewed
   exactly in its last half minute: later passes register then and not before.
   */
  lemma {:induction false} GrantedLeaseIsRenewed(l: Life, e: Event, t: Clocks)
    requires e.Registered? && l.client.pending.Some? && l.client.pending.value.requestId == e.requestId
    requires t.now >= e.now
    ensures var c := Step(l, e).client;
      && c.lease == Some(Lease(e.leaseId, e.expiresAt, 0, e.now, e.now)) && c.failures == 0 && c.pending.None?
      && Step(l, e).sent == [] && SameIdentity(l.client, c)
      && (Configured(c, t) && !Loses(c, t) ==> (Registers(c, t) <==> e.expiresAt <= t.unix + 30))
  {
  }

  /** Authenticated activity postpones the loss of a silent lease, and moves nothing else. */
  lemma {:induction false} ActivityPostponesLoss(l: Life, e: Event, t: Clocks)
    requires e.Activity? || e.KeepaliveAnswered?
    ensures var c, d := l.client, Step(l, e).client;
      && d.(lease := c.lease) == c && (d.lease.Some? <==> c.lease.Some?)
      && (c.lease.Some? ==> d.lease.value.(lastActivity := c.lease.value.lastActivity) == c.lease.value)
      && (c.lease.Some? && Configured(c, t) && c.lease.value.expiresAt > t.unix ==> (Loses(d, t) <==> t.now >= e.now + 45_000))
  {
  }

  // ----- configurations, and the record of what was sent -----

  predicate SameRelay(a: Client, b: Client) {
    a.relayId == b.relayId && a.key == b.key
  }

  /** A configured relay goes on with the lease, registration and backoff of the same relay under the same key, and otherwise starts anew. */
  lemma {:induction false} ConfigurationCarries(desired: Client, existing: Option<Client>)
    ensures var c := Merge(desired, existing);
      && SameIdentity(desired, c)
      && (existing.Some? && SameRelay(existing.value, desired) ==>
            && c.lease == existing.value.lease && c.pending == existing.value.pending
            && c.nextRegistrationAt == existing.value.nextRegistrationAt && c.failures == existing.value.failures)
      && (existing.None? || !SameRelay(existing.value, desired) ==> c == desired)
  {
  }

  /** A relay that is new registers in the first pass, and backs off by the base after its first registration failed. */
  lemma {:induction false} NewRelayRegisters(r: Service.RelayService, now: nat, t: Clocks, random: Option<nat>)
    requires r.expiresAt > t.wall && t.now >= now
    ensures var c := NewClient(r, now);
      && Registers(c, t) && SaturatingAdd(c.failures, 1, 255) == 1 && BackoffDelay(1) == REGISTRATION_BACKOFF_BASE
      && c.relayId == r.id && c.key == r.key && c.priority == r.priority && c.configExpiresAt == r.expiresAt
  {
  }

  /**
   What one event adds to the record of a lease: its frames if they left, and their
   number if they were prepared in a pass that was then cut short, or could not be encoded.
   */
  lemma {:induction false} RecordIsExact(l: Life, e: Event)
    requires l.client.lease.Some? && Step(l, e).client.lease.Some?
    ensures var lease, m := l.client.lease.value, Step(l, e);
      match e
      case Pass(t, random, completed) =>
        var prepared := KeepsAlive(l.client, t) && !Maintain(l.client, t, random).aborted;
        && m.sent == (if prepared && completed then l.sent + [Frame.Keepalive(lease.id, lease.nextSequence)] else l.sent)
        && m.lost == (if prepared && !completed then l.lost + 1 else l.lost)
      case Forward(t, encodes) =>
        var spent := lease.nextSequence == U64_MAX;
        && m.sent == (if !spent && encodes then l.sent + [Frame.DataFrame(lease.id, lease.nextSequence)] else l.sent)
        && m.lost == (if !spent && !encodes then l.lost + 1 else l.lost)
      case Configured(desired) =>
        SameRelay(l.client, desired) && m.client.lease == l.client.lease && SameIdentity(m.client, desired)
        && m.sent == l.sent && m.lost == l.lost
      case _ => true
  {
    if e.Pass? {
      var m := Maintain(l.client, e.t, e.random);
      PassFrames(l.client, e.t, e.random);
      PassLeaves(l.client, e.t, e.random);
      assert l.sent + [] == l.sent;
    }
  }
}
