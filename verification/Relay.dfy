/**
 The relay manager: leases, registrations with bounded retries and backoff,
 keepalives, and the reports of relays that failed.

 Three clocks appear, as in the original: the monotonic `now` in milliseconds, the
 Unix time in seconds against which leases expire, and the wall clock against
 which configurations expire.
 */
module Relay {
  import opened Prelude
  import Candidates
  import Configuration

  const REGISTRATION_MAX_ATTEMPTS: nat := 6
  const REGISTRATION_RETRY_INTERVAL: nat := 500
  const REGISTRATION_BACKOFF_BASE: nat := 2_000
  const REGISTRATION_BACKOFF_MAX: nat := 60_000
  const LEASE_RENEWAL_MARGIN_SECONDS: nat := 30
  const RELAY_KEEPALIVE_INTERVAL: nat := 15_000
  const RELAY_FAILURE_TIMEOUT: nat := 45_000

  type Endpoint = Candidates.Endpoint

  datatype Lease = Lease(id: nat, expiresAt: nat, nextSequence: nat, lastKeepaliveAt: nat, lastActivity: nat)

  datatype Registration = Registration(requestId: nat, lastSent: nat, attempts: nat)

  datatype Client = Client(
    relayId: nat,
    endpoint: Endpoint,
    key: nat,
    priority: nat,
    configExpiresAt: nat,
    lease: Option<Lease>,
    pending: Option<Registration>,
    nextRegistrationAt: nat,
    failures: nat)

  /** What a step sends to a relay. */
  datatype Frame = Register(requestId: nat) | Keepalive(leaseId: nat, sequence: nat) | DataFrame(leaseId: nat, sequence: nat)

  datatype Clocks = Clocks(now: nat, unix: nat, wall: nat)

  // ----- one client -----

  function BackoffDelay(failures: nat): (d: nat)
    ensures failures >= 1 ==> REGISTRATION_BACKOFF_BASE <= d <= REGISTRATION_BACKOFF_MAX
  {
    Backoff(failures, REGISTRATION_BACKOFF_BASE, REGISTRATION_BACKOFF_MAX)
  }

  /** Drops what has expired; the flag says that a lease was lost. */
  function Expire(c: Client, t: Clocks): (Client, bool) {
    if c.configExpiresAt <= t.wall then (c.(lease := None, pending := None), c.lease.Some?)
    else if c.lease.Some? && (c.lease.value.expiresAt <= t.unix
                              || Since(t.now, c.lease.value.lastActivity) >= RELAY_FAILURE_TIMEOUT)
    then (c.(lease := None, pending := None, nextRegistrationAt := t.now), true)
    else (c, false)
  }

  function MaintainPending(c: Client, now: nat): (Client, seq<Frame>) {
    if c.pending.None? || Since(now, c.pending.value.lastSent) < REGISTRATION_RETRY_INTERVAL then (c, [])
    else if c.pending.value.attempts >= REGISTRATION_MAX_ATTEMPTS then
      var failures := SaturatingAdd(c.failures, 1, 255);
      (c.(pending := None, failures := failures, nextRegistrationAt := now + BackoffDelay(failures)), [])
    else
      (c.(pending := Some(c.pending.value.(attempts := c.pending.value.attempts + 1, lastSent := now))),
       [Register(c.pending.value.requestId)])
  }

  predicate RegistrationDue(c: Client, t: Clocks) {
    t.now >= c.nextRegistrationAt
    && (c.lease.None? || Since(c.lease.value.expiresAt, t.unix) <= LEASE_RENEWAL_MARGIN_SECONDS)
  }

  /** Starts a registration when one is due; `random` is the random request identifier, if the generator works. */
  function Begin(c: Client, t: Clocks, random: Option<nat>): Option<(Client, seq<Frame>)> {
    if c.pending.Some? || !RegistrationDue(c, t) then Some((c, []))
    else if random.None? then None
    else Some((c.(pending := Some(Registration(random.value, t.now, 1))), [Register(random.value)]))
  }

  function SendKeepalive(c: Client, now: nat): Option<(Client, seq<Frame>)> {
    if c.lease.None? || Since(now, c.lease.value.lastKeepaliveAt) < RELAY_KEEPALIVE_INTERVAL then Some((c, []))
    else if c.lease.value.nextSequence == U64_MAX then None
    else
      var l := c.lease.value;
      Some((c.(lease := Some(l.(nextSequence := l.nextSequence + 1, lastKeepaliveAt := now))),
            [Keepalive(l.id, l.nextSequence)]))
  }

  datatype Maintained = Maintained(client: Client, frames: seq<Frame>, failed: bool, aborted: bool)

  /** One client's share of a maintenance pass; an error aborts the pass and keeps what it had changed. */
  function Maintain(c: Client, t: Clocks, random: Option<nat>): Maintained {
    var (c1, failed) := Expire(c, t);
    if c.configExpiresAt <= t.wall then Maintained(c1, [], failed, false)
    else
      var (c2, f2) := MaintainPending(c1, t.now);
      var begun := Begin(c2, t, random);
      if begun.None? then Maintained(c2, f2, failed, true)
      else
        var kept := SendKeepalive(begun.value.0, t.now);
        if kept.None? then Maintained(begun.value.0, f2 + begun.value.1, failed, true)
        else Maintained(kept.value.0, f2 + begun.value.1 + kept.value.1, failed, false)
  }

  /** A lease that survives is unexpired and recently active. */
  predicate Live(l: Lease, c: Client, t: Clocks) {
    c.configExpiresAt > t.wall && l.expiresAt > t.unix && Since(t.now, l.lastActivity) < RELAY_FAILURE_TIMEOUT
  }

  /** There is no lease, or it ends within half a minute. */
  predicate NeedsLease(c: Client, t: Clocks) {
    c.lease.None? || c.lease.value.expiresAt <= t.unix + 30
  }

  /** A lease is live; a configured client that needs one has a registration under way or a backoff ahead. */
  predicate Healthy(c: Client, t: Clocks) {
    && (c.lease.Some? ==> Live(c.lease.value, c, t))
    && (c.configExpiresAt > t.wall && NeedsLease(c, t) ==> c.pending.Some? || t.now < c.nextRegistrationAt)
  }

  lemma {:induction false} MaintainMeansHealthy(c: Client, t: Clocks, random: Option<nat>)
    ensures var m := Maintain(c, t, random);
      && (m.failed <==> c.lease.Some? && m.client.lease.None?)
      && (m.client.lease.Some? ==> Live(m.client.lease.value, m.client, t))
      && (!m.aborted ==> Healthy(m.client, t))
      && SameIdentity(c, m.client)
  {
  }

  lemma {:induction false} MaintainReports(c: Client, t: Clocks, random: Option<nat>)
    ensures var m := Maintain(c, t, random);
      (m.failed <==> c.lease.Some? && m.client.lease.None?) && m.client.endpoint == c.endpoint
  {
    MaintainMeansHealthy(c, t, random);
  }

  predicate SameIdentity(a: Client, b: Client) {
    a.relayId == b.relayId && a.endpoint == b.endpoint && a.key == b.key && a.priority == b.priority
    && a.configExpiresAt == b.configExpiresAt
  }

  // ----- the manager -----

  datatype Wrapped = NotSent | Sent(frame: Frame) | Fault

  /** Wrapping a datagram for a relay; an expired lease is dropped, and nothing is reported. */
  function Wrap(c: Client, t: Clocks, encodes: bool): (Client, Wrapped) {
    if c.lease.None? then (c, NotSent)
    else
      var l := c.lease.value;
      if l.expiresAt <= t.unix || c.configExpiresAt <= t.wall then (c.(lease := None), NotSent)
      else if l.nextSequence == U64_MAX then (c, Fault)
      else
        (c.(lease := Some(l.(nextSequence := l.nextSequence + 1))),
         if encodes then Sent(DataFrame(l.id, l.nextSequence)) else Fault)
  }

  ghost predicate Distinct(s: seq<Endpoint>) {
    forall i, j :: 0 <= i < j < |s| ==> s[i] != s[j]
  }

  lemma {:induction false} DistinctAppend(s: seq<Endpoint>, e: Endpoint)
    requires Distinct(s) && e !in s
    ensures Distinct(s + [e])
  {
  }

  class RelayManager {
    var clients: map<Endpoint, Client>

    ghost predicate Valid()
      reads this
    {
      forall e :: e in clients ==> clients[e].endpoint == e
    }

    constructor (clients: map<Endpoint, Client>)
      requires forall e :: e in clients ==> clients[e].endpoint == e
      ensures Valid() && this.clients == clients
    {
      this.clients := clients;
    }

    /**
     One pass over all clients, in any order. `random` gives each client's request
     identifier; on an error the pass stops where it is.
     */
    method MaintainAll(t: Clocks, random: map<Endpoint, nat>) returns (ok: bool, frames: seq<(Endpoint, Frame)>, failed: seq<Endpoint>)
      requires Valid()
      modifies this
      ensures Valid() && clients.Keys == old(clients).Keys
      ensures ok <==> forall e :: e in old(clients) ==> !Maintain(old(clients)[e], t, Lookup(random, e)).aborted
      ensures ok ==> Passed(old(clients), clients, clients.Keys, t, random)
      // Each client's frames are sent to its endpoint, in order, and no others are.
      ensures ok ==> Emitted(frames, old(clients), clients.Keys, t, random)
      // The endpoints reported are exactly those whose lease was lost in this pass, each once.
      ensures ok ==> Distinct(failed) && Lost(failed, old(clients), clients, clients.Keys)
      // Afterwards every client is healthy or on its way to a lease.
      ensures ok ==> AllHealthy(clients, clients.Keys, t)
    {
      frames, failed := [], [];
      var keys, done := clients.Keys, {};
      while done != keys
        invariant done <= keys == clients.Keys == old(clients).Keys && Valid()
        invariant Untouched(old(clients), clients, keys - done)
        invariant forall e :: e in done ==> !Maintain(old(clients)[e], t, Lookup(random, e)).aborted
        invariant Passed(old(clients), clients, done, t, random)
        invariant Emitted(frames, old(clients), done, t, random)
        invariant Distinct(failed) && Lost(failed, old(clients), clients, done)
        invariant AllHealthy(clients, done, t)
        decreases keys - done
      {
        StillOpen(done, keys);
        var e :| e in keys - done;
        var fine;
        fine, frames, failed := MaintainOne(e, t, random, frames, failed, old(clients), done);
        if !fine {
          return false, [], [];
        }
        done := done + {e};
      }
      return true, frames, failed;
    }

    /** One client's turn; `was` is the table before the pass, `done` the clients that had theirs. */
    method MaintainOne(e: Endpoint, t: Clocks, random: map<Endpoint, nat>, frames: seq<(Endpoint, Frame)>, failed: seq<Endpoint>,
                       ghost was: map<Endpoint, Client>, ghost done: set<Endpoint>)
      returns (ok: bool, frames': seq<(Endpoint, Frame)>, failed': seq<Endpoint>)
      requires Valid() && clients.Keys == was.Keys && e in clients && e !in done
      requires Untouched(was, clients, clients.Keys - done) && Passed(was, clients, done, t, random) && AllHealthy(clients, done, t)
      requires Emitted(frames, was, done, t, random) && Distinct(failed) && Lost(failed, was, clients, done)
      modifies this
      ensures Valid() && clients.Keys == old(clients).Keys
      ensures ok <==> !Maintain(was[e], t, Lookup(random, e)).aborted
      ensures ok ==>
        && Untouched(was, clients, clients.Keys - (done + {e})) && Passed(was, clients, done + {e}, t, random)
        && AllHealthy(clients, done + {e}, t)
      ensures ok ==>
        Emitted(frames', was, done + {e}, t, random) && Distinct(failed') && Lost(failed', was, clients, done + {e})
    {
      var m := Maintain(clients[e], t, Lookup(random, e));
      MaintainReports(clients[e], t, Lookup(random, e));
      EmittedStep(frames, was, done, e, t, random);
      LostStep(failed, was, clients, done, e, m.client);
      TurnStep(was, clients, done, e, t, random);
      clients := clients[e := m.client];
      frames', failed' := frames + Addressed(e, m.frames), failed;
      if m.failed {
        failed' := failed + [e];
      }
      ok := !m.aborted;
    }

    /** Replaces the configured relays, keeping the state of those whose identity is unchanged. */
    method ApplyConfiguration(desired: map<Endpoint, Client>) returns (failed: seq<Endpoint>)
      requires Valid() && forall e :: e in desired ==> desired[e].endpoint == e && desired[e].lease.None?
      modifies this
      ensures Valid() && clients.Keys == desired.Keys
      ensures forall e :: e in clients ==> clients[e] == Merge(desired[e], Find(old(clients), e))
      // Reported are exactly the endpoints that had a lease and have none now, each once.
      ensures Distinct(failed)
      ensures forall e :: e in failed <==>
        e in old(clients) && old(clients)[e].lease.Some? && (e !in clients || clients[e].lease.None?)
    {
      failed := [];
      var previous, updated := clients, map[];
      var remaining := desired.Keys;
      while remaining != {}
        invariant remaining <= desired.Keys
        invariant updated.Keys == desired.Keys - remaining
        invariant previous == old(clients) - (desired.Keys - remaining)
        invariant forall e :: e in updated ==> updated[e] == Merge(desired[e], Find(old(clients), e))
        invariant Distinct(failed)
        invariant forall e :: e in failed <==>
          e in updated && e in old(clients) && old(clients)[e].lease.Some? && updated[e].lease.None?
        decreases remaining
      {
        var e :| e in remaining;
        assert Find(previous, e) == Find(old(clients), e);
        var client := Merge(desired[e], Find(previous, e));
        if e in previous && previous[e].lease.Some? && client.lease.None? {
          DistinctAppend(failed, e);
          failed := failed + [e];
        }
        assert desired.Keys - (remaining - {e}) == (desired.Keys - remaining) + {e};
        previous := previous - {e};
        updated := updated[e := client];
        remaining := remaining - {e};
      }
      failed := ReportRemoved(failed, previous);
      clients := updated;
    }

    /** The candidates of all clients, whatever the order in which the table is walked. */
    method ListCandidates() returns (cs: seq<Candidates.Candidate>, ghost listed: seq<Candidates.RelayClient>)
      requires Valid()
      ensures Listing(listed, clients, clients.Keys) && cs == Candidates.RelayCandidates(listed)
      ensures Candidates.RelayList(cs) && forall i :: 0 <= i < |cs| ==> cs[i].endpoint in clients
    {
      var all: seq<Candidates.RelayClient> := [];
      var done: set<Endpoint> := {};
      while done != clients.Keys
        invariant done <= clients.Keys && Listing(all, clients, done)
        decreases clients.Keys - done
      {
        StillOpen(done, clients.Keys);
        var e :| e in clients.Keys - done;
        all, done := all + [Brief(clients[e])], done + {e};
      }
      listed := all;
      ListedCandidates(all, clients.Keys);
      cs := Candidates.RelayCandidates(all);
    }

    /** Adds the relays that are no longer configured and had a lease. */
    method ReportRemoved(reported: seq<Endpoint>, removed: map<Endpoint, Client>) returns (failed: seq<Endpoint>)
      requires Distinct(reported) && forall e :: e in reported ==> e !in removed
      requires forall e :: e in removed ==> removed[e].endpoint == e
      ensures Distinct(failed)
      ensures forall e :: e in failed <==> e in reported || (e in removed && removed[e].lease.Some?)
    {
      failed := reported;
      var remaining := removed.Keys;
      while remaining != {}
        invariant remaining <= removed.Keys && Distinct(failed)
        invariant forall e :: e in failed <==>
          e in reported || (e in removed && e !in remaining && removed[e].lease.Some?)
        decreases remaining
      {
        var e :| e in remaining;
        if removed[e].lease.Some? {
          DistinctAppend(failed, removed[e].endpoint);
          failed := failed + [removed[e].endpoint];
        }
        remaining := remaining - {e};
      }
    }
  }

  /** Every client of `done` had its turn. */
  ghost predicate Passed(was: map<Endpoint, Client>, now: map<Endpoint, Client>, done: set<Endpoint>, t: Clocks, random: map<Endpoint, nat>) {
    forall e :: e in done && e in was && e in now ==> now[e] == Maintain(was[e], t, Lookup(random, e)).client
  }

  ghost predicate Untouched(was: map<Endpoint, Client>, now: map<Endpoint, Client>, rest: set<Endpoint>) {
    forall e :: e in rest && e in was && e in now ==> now[e] == was[e]
  }

  ghost predicate AllHealthy(clients: map<Endpoint, Client>, done: set<Endpoint>, t: Clocks) {
    forall e :: e in done && e in clients ==> Healthy(clients[e], t)
  }

  ghost predicate Emitted(frames: seq<(Endpoint, Frame)>, was: map<Endpoint, Client>, done: set<Endpoint>, t: Clocks, random: map<Endpoint, nat>) {
    forall e :: FramesTo(frames, e) == (if e in done && e in was then Maintain(was[e], t, Lookup(random, e)).frames else [])
  }

  ghost predicate Lost(failed: seq<Endpoint>, was: map<Endpoint, Client>, now: map<Endpoint, Client>, done: set<Endpoint>) {
    forall e :: e in failed <==> e in done && e in was && e in now && was[e].lease.Some? && now[e].lease.None?
  }

  lemma {:induction false} TurnStep(was: map<Endpoint, Client>, now: map<Endpoint, Client>, done: set<Endpoint>, e: Endpoint,
                                    t: Clocks, random: map<Endpoint, nat>)
    requires e in was && e in now && e !in done
    requires Untouched(was, now, now.Keys - done) && Passed(was, now, done, t, random) && AllHealthy(now, done, t)
    ensures var m := Maintain(was[e], t, Lookup(random, e));
      && Untouched(was, now[e := m.client], now.Keys - (done + {e})) && Passed(was, now[e := m.client], done + {e}, t, random)
      && (!m.aborted ==> AllHealthy(now[e := m.client], done + {e}, t))
  {
    MaintainMeansHealthy(was[e], t, Lookup(random, e));
  }

  lemma {:induction false} LostStep(failed: seq<Endpoint>, was: map<Endpoint, Client>, now: map<Endpoint, Client>, done: set<Endpoint>,
                                    e: Endpoint, c: Client)
    requires Distinct(failed) && Lost(failed, was, now, done) && e in was && e in now && e !in done
    ensures var failed' := if was[e].lease.Some? && c.lease.None? then failed + [e] else failed;
      Distinct(failed') && Lost(failed', was, now[e := c], done + {e})
  {
    DistinctAppend(failed, e);
  }

  lemma {:induction false} EmittedStep(frames: seq<(Endpoint, Frame)>, was: map<Endpoint, Client>, done: set<Endpoint>, e: Endpoint,
                                       t: Clocks, random: map<Endpoint, nat>)
    requires Emitted(frames, was, done, t, random) && e in was && e !in done
    ensures Emitted(frames + Addressed(e, Maintain(was[e], t, Lookup(random, e)).frames), was, done + {e}, t, random)
  {
    var more := Maintain(was[e], t, Lookup(random, e)).frames;
    forall x ensures FramesTo(frames + Addressed(e, more), x) ==
                     (if x in done + {e} && x in was then Maintain(was[x], t, Lookup(random, x)).frames else [])
    {
      FramesToAddressed(frames, e, more, x);
    }
  }

  /** What is sent to one endpoint. */
  function FramesTo(frames: seq<(Endpoint, Frame)>, e: Endpoint): seq<Frame> {
    if frames == [] then []
    else
      var last := frames[|frames| - 1];
      FramesTo(frames[..|frames| - 1], e) + if last.0 == e then [last.1] else []
  }

  lemma {:induction false} FramesToAddressed(frames: seq<(Endpoint, Frame)>, to: Endpoint, more: seq<Frame>, e: Endpoint)
    ensures FramesTo(frames + Addressed(to, more), e) == FramesTo(frames, e) + if e == to then more else []
    decreases |more|
  {
    var all := Addressed(to, more);
    if more == [] {
      assert frames + all == frames;
    } else {
      var n := |more| - 1;
      assert (frames + all)[..|frames| + n] == frames + Addressed(to, more[..n]);
      assert (frames + all)[|frames| + n] == (to, more[n]);
      FramesToAddressed(frames, to, more[..n], e);
      assert more == more[..n] + [more[n]];
    }
  }

  function Lookup(random: map<Endpoint, nat>, e: Endpoint): (r: Option<nat>)
    ensures (r.Some? <==> e in random) && (r.Some? ==> r.value == random[e])
  {
    if e in random then Some(random[e]) else None
  }

  function Find(clients: map<Endpoint, Client>, e: Endpoint): (c: Option<Client>)
    ensures (c.Some? <==> e in clients) && (c.Some? ==> c.value == clients[e])
  {
    if e in clients then Some(clients[e]) else None
  }

  function Addressed(e: Endpoint, frames: seq<Frame>): seq<(Endpoint, Frame)> {
    seq(|frames|, i requires 0 <= i < |frames| => (e, frames[i]))
  }

  /** A configured relay takes over lease, registration and backoff of the same relay with the same key. */
  function Merge(desired: Client, existing: Option<Client>): Client {
    if existing.Some? && existing.value.relayId == desired.relayId && existing.value.key == desired.key then
      desired.(lease := existing.value.lease, pending := existing.value.pending,
               nextRegistrationAt := existing.value.nextRegistrationAt, failures := existing.value.failures)
    else desired
  }

  // ----- the clients of a configuration -----

  function NewClient(r: Configuration.RelayService, now: nat): Client {
    Client(r.id, Candidates.Normalize(r.endpoint), r.key, r.priority, r.expiresAt, None, None, now, 0)
  }

  predicate Apart(r: Configuration.RelayService, s: Configuration.RelayService) {
    r.id != s.id && Candidates.Normalize(r.endpoint) != Candidates.Normalize(s.endpoint)
  }

  /** The first `n` relays can be used at `wall`, and no two are the same, once their endpoints are normalized. */
  predicate Usable(relays: seq<Configuration.RelayService>, n: nat, wall: nat)
    requires n <= |relays|
  {
    && (forall i :: 0 <= i < n ==> relays[i].genuine && relays[i].priority != 0 && relays[i].expiresAt > wall)
    && (forall i, j :: 0 <= i < j < n ==> Apart(relays[i], relays[j]))
  }

  ghost predicate ClientsFor(clients: map<Endpoint, Client>, relays: seq<Configuration.RelayService>, n: nat, now: nat)
    requires n <= |relays|
  {
    && clients.Keys == (set i | 0 <= i < n :: Candidates.Normalize(relays[i].endpoint))
    && (forall i :: 0 <= i < n ==> var e := Candidates.Normalize(relays[i].endpoint); e in clients && clients[e] == NewClient(relays[i], now))
  }

  /** The first `n` identifiers. */
  function Ids(relays: seq<Configuration.RelayService>, n: nat): set<nat>
    requires n <= |relays|
  {
    set i | 0 <= i < n :: relays[i].id
  }

  lemma {:induction false} OneMoreClient(clients: map<Endpoint, Client>, relays: seq<Configuration.RelayService>, n: nat, now: nat)
    requires n < |relays| && ClientsFor(clients, relays, n, now) && Candidates.Normalize(relays[n].endpoint) !in clients
    ensures ClientsFor(clients[Candidates.Normalize(relays[n].endpoint) := NewClient(relays[n], now)], relays, n + 1, now)
  {
    assert clients[Candidates.Normalize(relays[n].endpoint) := NewClient(relays[n], now)].Keys ==
      clients.Keys + {Candidates.Normalize(relays[n].endpoint)};
  }

  /** The next relay is usable beside the ones before it exactly if neither its identifier nor its endpoint is taken. */
  lemma {:induction false} OneMoreUsable(clients: map<Endpoint, Client>, relays: seq<Configuration.RelayService>, n: nat, now: nat, wall: nat)
    requires n < |relays| && ClientsFor(clients, relays, n, now) && Usable(relays, n, wall)
    ensures var r := relays[n];
      Usable(relays, n + 1, wall) <==>
        r.genuine && r.priority != 0 && r.expiresAt > wall && r.id !in Ids(relays, n) && Candidates.Normalize(r.endpoint) !in clients
  {
    var r := relays[n];
    if r.id in Ids(relays, n) {
      var i :| 0 <= i < n && relays[i].id == r.id;
      assert !Apart(relays[i], r);
    }
    if Candidates.Normalize(r.endpoint) in clients {
      var i :| 0 <= i < n && Candidates.Normalize(relays[i].endpoint) == Candidates.Normalize(r.endpoint);
      assert !Apart(relays[i], r);
    }
    if r.id !in Ids(relays, n) && Candidates.Normalize(r.endpoint) !in clients {
      forall i | 0 <= i < n ensures Apart(relays[i], r) {
        assert relays[i].id in Ids(relays, n);
      }
    }
  }

  /** Succeeds exactly for at most sixteen relays that are usable and different; they then become clients without a lease. */
  method RelayClients(relays: seq<Configuration.RelayService>, now: nat, wall: nat) returns (ok: bool, clients: map<Endpoint, Client>)
    ensures ok <==> |relays| <= Candidates.MAX_RELAYS && Usable(relays, |relays|, wall)
    ensures ok ==> ClientsFor(clients, relays, |relays|, now)
    ensures forall e :: e in clients ==> clients[e].endpoint == e && clients[e].lease.None?
  {
    clients := map[];
    if |relays| > Candidates.MAX_RELAYS {
      return false, clients;
    }
    var ids: set<nat> := {};
    for n := 0 to |relays|
      invariant Usable(relays, n, wall) && ClientsFor(clients, relays, n, now) && ids == Ids(relays, n)
      invariant forall e :: e in clients ==> clients[e].endpoint == e && clients[e].lease.None?
    {
      var r := relays[n];
      var e := Candidates.Normalize(r.endpoint);
      OneMoreUsable(clients, relays, n, now, wall);
      if !r.genuine || r.priority == 0 || r.expiresAt <= wall || r.id in ids || e in clients {
        return false, clients;
      }
      OneMoreClient(clients, relays, n, now);
      ids, clients := ids + {r.id}, clients[e := NewClient(r, now)];
    }
    return true, clients;
  }

  /** For a validated payload only two things are left: relays that have expired since, and endpoints equal once normalized. */
  lemma {:induction false} ValidatedRelaysBuildIff(p: Configuration.Payload, self: Configuration.Identity, wall: nat)
    requires Configuration.Accepted(p, self)
    ensures |p.relays| <= Candidates.MAX_RELAYS
    ensures Usable(p.relays, |p.relays|, wall) <==>
      && (forall i :: 0 <= i < |p.relays| ==> p.relays[i].expiresAt > wall)
      && (forall i, j :: 0 <= i < j < |p.relays| ==>
            Candidates.Normalize(p.relays[i].endpoint) != Candidates.Normalize(p.relays[j].endpoint))
  {
    forall i | 0 <= i < |p.relays| ensures p.relays[i].genuine && p.relays[i].priority != 0 {
      assert Configuration.RelayOk(p.relays[i], p);
    }
    forall i, j | 0 <= i < j < |p.relays| ensures p.relays[i].id != p.relays[j].id {
      assert !Configuration.ClashingRelays(p.relays[i], p.relays[j]);
    }
    if Usable(p.relays, |p.relays|, wall) {
      forall i, j | 0 <= i < j < |p.relays|
        ensures Candidates.Normalize(p.relays[i].endpoint) != Candidates.Normalize(p.relays[j].endpoint)
      {
        assert Apart(p.relays[i], p.relays[j]);
      }
    }
  }

  // ----- the candidates of the clients -----

  function Brief(c: Client): Candidates.RelayClient {
    Candidates.RelayClient(c.relayId, c.endpoint, c.priority, c.configExpiresAt)
  }

  ghost predicate Listing(listed: seq<Candidates.RelayClient>, clients: map<Endpoint, Client>, done: set<Endpoint>) {
    && |listed| == |done|
    && (forall e :: e in done && e in clients ==> Brief(clients[e]) in listed)
    && (forall x :: x in listed ==> x.endpoint in done)
  }

  lemma {:induction false} ListedCandidates(listed: seq<Candidates.RelayClient>, keys: set<Endpoint>)
    requires forall x :: x in listed ==> x.endpoint in keys
    ensures var cs := Candidates.RelayCandidates(listed);
      Candidates.RelayList(cs) && forall i :: 0 <= i < |cs| ==> cs[i].endpoint in keys
  {
    Candidates.RelayCandidatesList(listed);
    Candidates.ByPreferenceSorts(listed);
    var sorted := Candidates.ByPreference(listed);
    forall i | 0 <= i < |sorted| ensures sorted[i].endpoint in keys {
      assert sorted[i] in multiset(sorted);
      assert sorted[i] in listed;
    }
  }

  // ----- sequence numbers over a run -----

  /** Everything that can happen to one client. */
  datatype Event =
    | Pass(t: Clocks, random: Option<nat>, completed: bool)  // `completed`: no other client aborted the pass
    | Forward(t: Clocks, encodes: bool)
    | Registered(requestId: nat, leaseId: nat, expiresAt: nat, now: nat)  // a verified response to `requestId`
    | KeepaliveAnswered(now: nat)
    | Activity(now: nat)
    | Configured(desired: Client)

  /** A client, the frames sent under its present lease in order, and how many more used up a sequence unsent. */
  datatype Life = Life(client: Client, sent: seq<Frame>, lost: nat)

  function LeaseFrames(frames: seq<Frame>): seq<Frame> {
    if frames == [] then []
    else
      var rest := LeaseFrames(frames[..|frames| - 1]);
      if frames[|frames| - 1].Register? then rest else rest + [frames[|frames| - 1]]
  }

  function Touch(c: Client, now: nat): Client {
    if c.lease.None? then c else c.(lease := Some(c.lease.value.(lastActivity := now)))
  }

  function Step(l: Life, e: Event): Life {
    match e
    case Pass(t, random, completed) =>
      var m := Maintain(l.client, t, random);
      if m.client.lease.None? then Life(m.client, [], 0)
      else if completed && !m.aborted then Life(m.client, l.sent + LeaseFrames(m.frames), l.lost)
      else Life(m.client, l.sent, l.lost + |LeaseFrames(m.frames)|)
    case Forward(t, encodes) =>
      var (c, w) := Wrap(l.client, t, encodes);
      if c.lease.None? then Life(c, [], 0)
      else if w.Sent? then Life(c, l.sent + [w.frame], l.lost)
      else Life(c, l.sent, l.lost + if c == l.client then 0 else 1)
    case Registered(requestId, leaseId, expiresAt, now) =>
      if l.client.pending.None? || l.client.pending.value.requestId != requestId then l
      else Life(l.client.(lease := Some(Lease(leaseId, expiresAt, 0, now, now)), pending := None, failures := 0,
                          nextRegistrationAt := now), [], 0)
    case KeepaliveAnswered(now) => l.(client := Touch(l.client, now))
    case Activity(now) => l.(client := Touch(l.client, now))
    case Configured(desired) =>
      var c := Merge(desired.(lease := None), Some(l.client));
      if c.lease.None? then Life(c, [], 0) else l.(client := c)
  }

  function Run(l: Life, events: seq<Event>): Life {
    if events == [] then l else Step(Run(l, events[..|events| - 1]), events[|events| - 1])
  }

  /**
   The frames of one lease carry its identifier and strictly increasing sequences
   below the next one; the `i`-th frame has sequence `i`, plus at most the number lost.
   */
  ghost predicate Ascending(sent: seq<Frame>, lease: Lease, lost: nat) {
    && |sent| + lost == lease.nextSequence
    && (forall i :: 0 <= i < |sent| ==> !sent[i].Register? && sent[i].leaseId == lease.id && sent[i].sequence < lease.nextSequence)
    && (forall i :: 0 <= i < |sent| ==> !sent[i].Register? && i <= sent[i].sequence <= i + lost)
    && (forall i, j :: 0 <= i < j < |sent| ==> !sent[i].Register? && !sent[j].Register? && sent[i].sequence < sent[j].sequence)
  }

  ghost predicate Orderly(l: Life) {
    if l.client.lease.None? then l.sent == [] && l.lost == 0 else Ascending(l.sent, l.client.lease.value, l.lost)
  }

  lemma {:induction false} AscendingAppend(sent: seq<Frame>, lease: Lease, f: Frame, next: Lease, lost: nat)
    requires Ascending(sent, lease, lost) && !f.Register? && f.leaseId == lease.id && f.sequence == lease.nextSequence
    requires next.id == lease.id && next.nextSequence == lease.nextSequence + 1
    ensures Ascending(sent + [f], next, lost)
  {
  }

  lemma {:induction false} AscendingSkips(sent: seq<Frame>, lease: Lease, next: Lease, lost: nat, more: nat)
    requires Ascending(sent, lease, lost) && next.id == lease.id && next.nextSequence == lease.nextSequence + more
    ensures Ascending(sent, next, lost + more)
  {
  }

  /** A pass prepares at most one frame under the lease, the next keepalive. */
  lemma {:induction false} PassFrames(c: Client, t: Clocks, random: Option<nat>)
    requires Maintain(c, t, random).client.lease.Some?
    ensures var m := Maintain(c, t, random);
      && c.lease.Some? && m.client.lease.value.id == c.lease.value.id
      && ((LeaseFrames(m.frames) == [] && m.client.lease.value.nextSequence == c.lease.value.nextSequence)
          || (LeaseFrames(m.frames) == [Keepalive(c.lease.value.id, c.lease.value.nextSequence)]
              && m.client.lease.value.nextSequence == c.lease.value.nextSequence + 1))
  {
    var c1 := Expire(c, t).0;
    var (c2, f2) := MaintainPending(c1, t.now);
    OnlyRegistrations(f2);
    if Begin(c2, t, random).Some? {
      var (c3, f3) := Begin(c2, t, random).value;
      assert c3.lease == c2.lease == c1.lease;
      OnlyRegistrations(f2 + f3);
      if SendKeepalive(c3, t.now).Some? {
        KeepaliveFrames(c3, t.now, f2 + f3);
      }
    }
  }

  /** The last stage adds a keepalive with the next sequence, or nothing. */
  lemma {:induction false} KeepaliveFrames(c: Client, now: nat, before: seq<Frame>)
    requires LeaseFrames(before) == [] && SendKeepalive(c, now).Some?
    ensures var (d, f) := SendKeepalive(c, now).value;
      && (f == [] ==> d == c && LeaseFrames(before + f) == [])
      && (f != [] ==> c.lease.Some? && d.lease.Some? && d.lease.value.id == c.lease.value.id
                      && d.lease.value.nextSequence == c.lease.value.nextSequence + 1
                      && LeaseFrames(before + f) == [Keepalive(c.lease.value.id, c.lease.value.nextSequence)])
  {
    var f := SendKeepalive(c, now).value.1;
    if f == [] { assert before + f == before; } else { assert (before + f)[..|before|] == before; }
  }

  lemma {:induction false} OnlyRegistrations(frames: seq<Frame>)
    requires forall i :: 0 <= i < |frames| ==> frames[i].Register?
    ensures LeaseFrames(frames) == []
  {
    if frames != [] { OnlyRegistrations(frames[..|frames| - 1]); }
  }

  /**
   In every run the sequences sent within one lease strictly increase; as long as no
   prepared frame was lost before sending, they are exactly zero, one, two and so on.
   */
  lemma {:induction false} SequencesIncrease(c: Client, events: seq<Event>)
    requires c.lease.None?
    ensures var l := Run(Life(c, [], 0), events);
      && Orderly(l)
      && (l.lost == 0 ==> forall i :: 0 <= i < |l.sent| ==> !l.sent[i].Register? && l.sent[i].sequence == i)
  {
    if events != [] {
      var before, e := Run(Life(c, [], 0), events[..|events| - 1]), events[|events| - 1];
      SequencesIncrease(c, events[..|events| - 1]);
      StepKeepsOrder(before, e);
    }
  }

  lemma {:induction false} StepKeepsOrder(l: Life, e: Event)
    requires Orderly(l)
    ensures Orderly(Step(l, e))
  {
    match e
    case Pass(t, random, completed) =>
      var m := Maintain(l.client, t, random);
      if m.client.lease.Some? {
        PassFrames(l.client, t, random);
        var lease, next := l.client.lease.value, m.client.lease.value;
        if LeaseFrames(m.frames) == [] {
          AscendingSkips(l.sent, lease, next, l.lost, 0);
          assert l.sent + [] == l.sent;
        } else {
          AscendingAppend(l.sent, lease, Keepalive(lease.id, lease.nextSequence), next, l.lost);
          AscendingSkips(l.sent, lease, next, l.lost, 1);
        }
      }
    case Forward(t, encodes) =>
      var (c, w) := Wrap(l.client, t, encodes);
      if w.Sent? {
        AscendingAppend(l.sent, l.client.lease.value, w.frame, c.lease.value, l.lost);
      } else if c.lease.Some? && c != l.client {
        AscendingSkips(l.sent, l.client.lease.value, c.lease.value, l.lost, 1);
      }
    case _ =>
  }

  // ----- leases that vanish -----

  /** The step told its caller that the lease of this client is gone. */
  ghost predicate Reported(l: Life, e: Event) {
    match e
    case Pass(t, random, completed) =>
      var m := Maintain(l.client, t, random); completed && !m.aborted && m.failed
    case Configured(desired) => l.client.lease.Some? && Step(l, e).client.lease.None?
    case _ => false
  }

  /** The registration that follows the loss of a lease cannot be started: the generator fails. */
  predicate CannotRegister(c: Client, e: Event)
    requires e.Pass?
  {
    c.configExpiresAt > e.t.wall && e.random.None?
  }

  /**
   A lease can be lost without a report in two ways only: it, or its relay's
   configuration, has expired when a datagram is forwarded before the next pass,
   or the pass that drops it is cut short, by another client or because the random
   identifier for the next registration cannot be drawn.
   */
  lemma {:induction false} UnreportedLoss(l: Life, e: Event)
    requires l.client.lease.Some?
    ensures Step(l, e).client.lease.None? && !Reported(l, e) <==>
      || (e.Forward? && (l.client.lease.value.expiresAt <= e.t.unix || l.client.configExpiresAt <= e.t.wall))
      || (e.Pass? && !Live(l.client.lease.value, l.client, e.t) && (!e.completed || CannotRegister(l.client, e)))
  {
    if e.Pass? { MaintainMeansHealthy(l.client, e.t, e.random); }
  }

  /** Such a run: a lease until time 10 is granted, and a datagram is forwarded at time 10. */
  lemma {:induction false} UnreportedLossHappens(c: Client)
    requires c.lease.None? && c.pending == Some(Registration(7, 0, 1)) && c.configExpiresAt > 10
    ensures var granted := Run(Life(c, [], 0), [Registered(7, 1, 10, 0)]);
      var forward := Forward(Clocks(10, 10, 10), true);
      && granted.client.lease.Some?
      && Step(granted, forward).client.lease.None? && !Reported(granted, forward)
  {
    assert [Registered(7, 1, 10, 0)][..0] == [];
  }
}
