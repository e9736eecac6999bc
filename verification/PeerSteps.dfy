/**
 When a peer changes its state, stated on the state and the event alone: which event
 begins, answers, finishes or ends a handshake, what becomes of the queue, the
 counters and the active endpoint, and what a maintenance pass sends.
 */
module PeerSteps {
  import opened Prelude
  import opened Candidates
  import opened Peers

  // ----- causes -----

  /** The hash of this hello is still cached: the expired entries at the front of the cache are gone first. */
  predicate Cached(recent: seq<Hello>, hash: nat, now: nat) {
    exists i, j :: 0 <= j <= i < |recent| && recent[i].hash == hash && now < recent[j].seen + CLIENT_HELLO_CACHE_LIFETIME
  }

  /** A new hello that verifies, and to which the peer's own handshake yields. */
  predicate TakesHello(p: Peer, e: Event) {
    && e.ClientHelloIn? && e.accepted
    && !(p.state.ServerHello? && p.state.requestHash == e.hash)
    && !Cached(p.recent, e.hash, e.now)
    && !(InFlight(p) && e.localIsLower)
  }

  /** The answer to the peer's own hello, and it verifies. */
  predicate TakesAnswer(p: Peer, e: Event) {
    e.ServerHelloIn? && p.state.ClientHello? && e.clockWorks && e.accepted
  }

  /** The sixth message of a handshake has waited long enough. */
  predicate TimedOut(p: Peer, e: Event) {
    && e.Pass? && Handshaking(p.state)
    && e.now >= p.state.retry.lastSent + HANDSHAKE_RETRY_INTERVAL && p.state.retry.attempts >= HANDSHAKE_MAX_ATTEMPTS
  }

  /** A message that is due again and has been sent fewer than six times. */
  predicate Resends(p: Peer, e: Event) {
    && e.Pass? && Handshaking(p.state)
    && e.now >= p.state.retry.lastSent + HANDSHAKE_RETRY_INTERVAL && p.state.retry.attempts < HANDSHAKE_MAX_ATTEMPTS
  }

  predicate BudgetSpent(p: Peer) {
    p.candidateAttempts >= MAX_HANDSHAKE_CANDIDATES_PER_CYCLE
  }

  /** The `i`-th candidate comes after the active endpoint, or is the first if that is not listed. */
  predicate Follows(p: Peer, i: nat) {
    && i < |p.candidates|
    && if p.active.Some? && Listed(p.candidates, p.active.value) then i > 0 && FirstAt(p.candidates, p.active.value, i - 1) else i == 0
  }

  /** The next candidate is tried. */
  predicate Advances(p: Peer, e: Event, i: nat) {
    TimedOut(p, e) && InFlight(p) && !BudgetSpent(p) && Follows(p, i)
  }

  ghost predicate AdvancesSome(p: Peer, e: Event) {
    exists i: nat :: Advances(p, e, i)
  }

  /** Idle, or about to be: the server side of a handshake that timed out. */
  predicate AtRest(p: Peer, e: Event) {
    p.state.Idle? || (TimedOut(p, e) && p.state.ServerHello?)
  }

  /** The cycle of handshakes is given up: no candidate is left, or none may be tried any more. */
  ghost predicate GivesUp(p: Peer, e: Event) {
    e.Pass? && ((TimedOut(p, e) && InFlight(p) && !AdvancesSome(p, e)) || (AtRest(p, e) && BudgetSpent(p)))
  }

  /** A pass starts a handshake of its own accord. */
  predicate StartsProactively(p: Peer, e: Event) {
    e.Pass? && AtRest(p, e) && !BudgetSpent(p) && p.active.Some? && e.now >= p.nextProactiveAt && e.room && e.works
  }

  /** A packet is taken into the queue. */
  predicate TakesPacket(p: Peer, e: Event) {
    && e.Offer? && !p.state.Established? && p.active.Some?
    && |p.queue| < MAX_QUEUED_PACKETS_PER_PEER && p.queuedBytes + e.packet.length <= MAX_QUEUED_BYTES_PER_PEER
  }

  /** A hello is sent. */
  ghost predicate Begins(p: Peer, e: Event) {
    || (TakesPacket(p, e) && p.state.Idle? && !BudgetSpent(p) && e.works)
    || (AdvancesSome(p, e) && e.works)
    || StartsProactively(p, e)
  }

  /** The finish the peer waits for has come, but it does not verify, or no keys can be derived. */
  predicate RefusesFinish(p: Peer, e: Event) {
    || (e.ClientFinishIn? && p.state.ServerHello? && !(e.accepted && e.derives))
    || (e.ServerFinishIn? && p.state.ClientFinish? && !(e.accepted && e.derives))
  }

  /** The answer to the peer's hello has come, but cannot be used. */
  predicate RefusesAnswer(p: Peer, e: Event) {
    e.ServerHelloIn? && p.state.ClientHello? && !(e.clockWorks && e.accepted)
  }

  /** A configuration or a failed relay breaks a handshake off. */
  predicate Interrupts(p: Peer, e: Event) {
    || (e.Configured? && (e.policyChanged || RoutesChanged(p.candidates, e.candidates)))
    || (e.RelayFailed? && p.active == Some(e.endpoint))
  }

  // ----- the cases of a pass -----

  /** The peer once the expired entries of its cache are gone. */
  function Fresh(p: Peer, now: nat): Peer {
    p.(recent := PruneHellos(p.recent, now))
  }

  lemma {:induction false} PassResends(p: Peer, e: Event)
    requires Valid(p) && Resends(p, e)
    ensures Maintain(p, e.now, e.room, e.works) ==
      Tick(Fresh(p, e.now).(state := WithRetry(p.state, Retry(e.now, p.state.retry.attempts + 1))), p.active.Some?, false, false, false)
  {
  }

  lemma {:induction false} PassAdvances(p: Peer, e: Event, i: nat)
    requires Valid(p) && Advances(p, e, i)
    ensures var t, q := Maintain(p, e.now, e.room, e.works), Fresh(p, e.now).(active := Some(p.candidates[i].endpoint));
      t == if e.works
           then Tick(q.(state := ClientHello(Retry(e.now, 1)), attemptsTotal := SaturatingAdd(p.attemptsTotal, 1, U64_MAX),
                        candidateAttempts := p.candidateAttempts + 1), true, false, false, false)
           else Tick(q.(state := Idle), false, false, false, true)
  {
    SuccessorIsNext(p);
  }

  lemma {:induction false} PassGivesUp(p: Peer, e: Event)
    requires Valid(p) && GivesUp(p, e)
    ensures var t := Maintain(p, e.now, e.room, e.works);
      t == Tick(ScheduleRetry(Fresh(p, e.now), e.now), false, false, InFlight(p), false)
  {
    SuccessorIsNext(p);
    assert TimedOut(p, e) && InFlight(p) ==> BudgetSpent(p) || !Follows(p, NextCandidate(p)) by {
      if TimedOut(p, e) && InFlight(p) { assert !Advances(p, e, NextCandidate(p)); }
    }
  }

  lemma {:induction false} PassStarts(p: Peer, e: Event)
    requires Valid(p) && e.Pass? && StartsProactively(p, Pass(e.now, e.room, true))
    ensures var t, q := Maintain(p, e.now, e.room, e.works), Fresh(p, e.now);
      t == if e.works
           then Tick(q.(state := ClientHello(Retry(e.now, 1)), attemptsTotal := SaturatingAdd(p.attemptsTotal, 1, U64_MAX),
                        candidateAttempts := p.candidateAttempts + 1), true, true, false, false)
           else Tick(q.(state := Idle), false, false, false, true)
  {
  }

  lemma {:induction false} PassRests(p: Peer, e: Event)
    requires Valid(p) && e.Pass? && !Resends(p, e) && !AdvancesSome(p, e) && !GivesUp(p, e)
    requires !StartsProactively(p, Pass(e.now, e.room, true))
    ensures Maintain(p, e.now, e.room, e.works) ==
      Tick(Fresh(p, e.now).(state := if TimedOut(p, e) then Idle else p.state), false, false, false, p.state.Established? && !e.works)
  {
  }

  /** One of these cases applies. */
  lemma {:induction false} PassCases(p: Peer, e: Event)
    requires Valid(p) && e.Pass?
    ensures var t, q := Maintain(p, e.now, e.room, e.works), Fresh(p, e.now);
      var begun := q.(state := ClientHello(Retry(e.now, 1)), attemptsTotal := SaturatingAdd(p.attemptsTotal, 1, U64_MAX),
                      candidateAttempts := p.candidateAttempts + 1);
      && (Resends(p, e) ==> t == Tick(q.(state := WithRetry(p.state, Retry(e.now, p.state.retry.attempts + 1))), p.active.Some?, false, false, false))
      && (forall i: nat :: Advances(p, e, i) ==> i == NextCandidate(p))
      && (AdvancesSome(p, e) ==> Advances(p, e, NextCandidate(p)))
      && (AdvancesSome(p, e) ==>
            && t.peer == (if e.works then begun else q.(state := Idle)).(active := Some(p.candidates[NextCandidate(p)].endpoint))
            && t.sends == e.works && t.failed == !e.works)
      && (GivesUp(p, e) ==> t.peer == ScheduleRetry(q, e.now) && !t.sends && !t.failed)
      && (StartsProactively(p, Pass(e.now, e.room, true)) ==>
            t.peer == (if e.works then begun else q.(state := Idle)) && t.sends == e.works && t.failed == !e.works)
      && (!Resends(p, e) && !AdvancesSome(p, e) && !GivesUp(p, e) && !StartsProactively(p, Pass(e.now, e.room, true)) ==>
            && t.peer == q.(state := if TimedOut(p, e) then Idle else p.state)
            && !t.sends && t.failed == (p.state.Established? && !e.works))
  {
    if Resends(p, e) { PassResends(p, e); }
    SuccessorIsNext(p);
    if AdvancesSome(p, e) { PassAdvances(p, e, NextCandidate(p)); }
    if GivesUp(p, e) { PassGivesUp(p, e); }
    if StartsProactively(p, Pass(e.now, e.room, true)) { PassStarts(p, e); }
    if !Resends(p, e) && !AdvancesSome(p, e) && !GivesUp(p, e) && !StartsProactively(p, Pass(e.now, e.room, true)) { PassRests(p, e); }
  }

  // ----- the state of the handshake -----

  /** A peer is established exactly after the finish it waited for, until a new hello is taken or the policy changes. */
  lemma {:induction false} WhenEstablished(p: Peer, e: Event)
    requires Valid(p)
    ensures Step(p, e).state.Established? <==>
      Establishes(p, e) || (p.state.Established? && !TakesHello(p, e) && !(e.Configured? && e.policyChanged))
  {
    if e.ClientHelloIn? { CacheIsExact(p.recent, e.hash, e.now); }
    if e.Pass? { PassCases(p, e); }
  }

  /** It answers exactly a hello that it takes, and waits for the finish until one comes or the handshake is broken off. */
  lemma {:induction false} WhenServerHello(p: Peer, e: Event)
    requires Valid(p)
    ensures var q := Step(p, e);
      && (q.state.ServerHello? <==>
            || TakesHello(p, e)
            || (p.state.ServerHello? && !e.ClientFinishIn? && !TimedOut(p, e) && !Interrupts(p, e)))
      && (TakesHello(p, e) ==> q.state == ServerHello(e.hash, Retry(e.now, 1)))
      && (q.state.ServerHello? && !TakesHello(p, e) ==> q.state.requestHash == p.state.requestHash)
  {
    if e.ClientHelloIn? { CacheIsExact(p.recent, e.hash, e.now); }
    if e.Pass? { PassCases(p, e); }
  }

  /** It goes on to the finish exactly with the answer to its own hello. */
  lemma {:induction false} WhenClientFinish(p: Peer, e: Event)
    requires Valid(p)
    ensures var q := Step(p, e);
      && (q.state.ClientFinish? <==>
            || TakesAnswer(p, e)
            || (p.state.ClientFinish? && !TakesHello(p, e) && !e.ServerFinishIn? && !TimedOut(p, e) && !Interrupts(p, e)))
      && (TakesAnswer(p, e) ==> q.state == ClientFinish(Retry(e.now, 1)))
  {
    if e.ClientHelloIn? { CacheIsExact(p.recent, e.hash, e.now); }
    if e.Pass? { PassCases(p, e); }
  }

  /** It has a hello out exactly after it began, until that is answered, given up or broken off. */
  lemma {:induction false} WhenClientHello(p: Peer, e: Event)
    requires Valid(p)
    ensures var q := Step(p, e);
      && (q.state.ClientHello? <==>
            || Begins(p, e)
            || (p.state.ClientHello? && !TakesHello(p, e) && !e.ServerHelloIn? && !TimedOut(p, e) && !Interrupts(p, e)))
      && (Begins(p, e) ==> q.state == ClientHello(Retry(e.now, 1)) && q.candidateAttempts == p.candidateAttempts + 1)
  {
    if e.ClientHelloIn? { CacheIsExact(p.recent, e.hash, e.now); }
    if e.Pass? { PassCases(p, e); }
  }

  // ----- what else a step moves -----

  /** Attempts count the hellos sent and the hellos answered, successes the sessions established. */
  lemma {:induction false} CountersAreExact(p: Peer, e: Event)
    requires Valid(p)
    ensures var q := Step(p, e);
      && q.attemptsTotal == SaturatingAdd(p.attemptsTotal, if Begins(p, e) || TakesHello(p, e) then 1 else 0, U64_MAX)
      && q.successesTotal == SaturatingAdd(p.successesTotal, if Establishes(p, e) then 1 else 0, U64_MAX)
  {
    if e.ClientHelloIn? { CacheIsExact(p.recent, e.hash, e.now); }
    if e.Pass? { PassCases(p, e); }
  }

  /** The queue grows by the packets that are taken, and is emptied exactly by these causes. */
  predicate Empties(p: Peer, e: Event) {
    || Establishes(p, e) || RefusesFinish(p, e) || (RefusesAnswer(p, e) && e.clockWorks)
    || (e.Configured? && e.policyChanged)
  }

  lemma {:induction false} QueueIsExact(p: Peer, e: Event)
    requires Valid(p)
    ensures Step(p, e).queue ==
      if TakesPacket(p, e) then p.queue + [e.packet] else if Empties(p, e) || GivesUp(p, e) then [] else p.queue
  {
    if e.Pass? { PassCases(p, e); }
  }

  /** Giving up counts a failure, waits as long as the failures in a row demand, and starts over at the head of the list. */
  lemma {:induction false} GivingUpBacksOff(p: Peer, e: Event)
    requires Valid(p) && e.Pass?
    ensures var q := Step(p, e);
      && (GivesUp(p, e) ==>
            && q.state.Idle? && q.candidateAttempts == 0 && q.failures == SaturatingAdd(p.failures, 1, 255)
            && q.nextProactiveAt == e.now + BackoffDelay(q.failures)
            && (q.active.Some? <==> p.candidates != []) && (p.candidates != [] ==> q.active == Some(p.candidates[0].endpoint)))
      && (!GivesUp(p, e) ==> q.failures == p.failures && q.nextProactiveAt == p.nextProactiveAt)
      && (forall i: nat :: Advances(p, e, i) ==> q.active == Some(p.candidates[i].endpoint))
      && (!GivesUp(p, e) && !AdvancesSome(p, e) ==> q.active == p.active)
      && q.candidates == p.candidates
  {
    PassCases(p, e);
  }

  /** A handshake budget that starts over at once: other candidates, or the relay in use has failed. */
  predicate StartsOver(p: Peer, e: Event) {
    || (e.Configured? && RoutesChanged(p.candidates, e.candidates) && (!p.state.Established? || e.policyChanged))
    || (e.RelayFailed? && p.active == Some(e.endpoint) && !p.state.Established?)
  }

  /** The time of an event that has one. */
  function TimeOf(e: Event): nat
    requires !e.Pruned? && !e.Promoted?
  {
    e.now
  }

  /** The budget counts the hellos of a cycle; the next one waits only after a cycle was given up. */
  lemma {:induction false} BudgetIsExact(p: Peer, e: Event)
    requires Valid(p)
    ensures var q := Step(p, e);
      && q.candidateAttempts == (
           if Begins(p, e) then p.candidateAttempts + 1
           else if Establishes(p, e) || GivesUp(p, e) || StartsOver(p, e) then 0 else p.candidateAttempts)
      && q.nextProactiveAt == (
           if GivesUp(p, e) then e.now + BackoffDelay(SaturatingAdd(p.failures, 1, 255))
           else if Establishes(p, e) || StartsOver(p, e) then TimeOf(e) else p.nextProactiveAt)
  {
    if e.Pass? { PassCases(p, e); }
  }

  /** A hello that was taken is known for five minutes, so that no copy of it is taken again. */
  lemma {:induction false} HelloIsRemembered(p: Peer, e: Event, later: Event)
    requires Valid(p) && TakesHello(p, e) && later.ClientHelloIn?
    ensures later.hash == e.hash && later.now < e.now + 300_000 ==> !TakesHello(Step(p, e), later)
  {
    CacheIsExact(p.recent, e.hash, e.now);
    var r := Step(p, e).recent;
    if later.hash == e.hash && later.now < e.now + 300_000 { CachedAt(r, e.hash, later.now, |r| - 1, |r| - 1); }
  }

  /** Nor does any other event make the peer forget a hello in that time, as long as fewer than 64 are known. */
  lemma {:induction false} HelloStaysKnown(p: Peer, e: Event, hash: nat, later: nat)
    requires Valid(p) && |p.recent| < 64 && Cached(p.recent, hash, later)
    requires e.Pass? || e.ClientHelloIn? ==> e.now <= later
    ensures Cached(Step(p, e).recent, hash, later)
  {
    if e.Pass? { PassCases(p, e); }
    if e.Pass? || e.ClientHelloIn? { PruningKeepsKnown(p.recent, hash, e.now, later); }
    if e.ClientHelloIn? && TakesHello(p, e) {
      CacheIsExact(p.recent, e.hash, e.now);
      var r := PruneHellos(p.recent, e.now);
      var i, j :| 0 <= j <= i < |r| && r[i].hash == hash && later < r[j].seen + CLIENT_HELLO_CACHE_LIFETIME;
      CachedAt(r + [Hello(e.hash, e.now)], hash, later, i, j);
    } else if e.ClientHelloIn? {
      CacheIsExact(p.recent, e.hash, e.now);
    }
  }

  lemma {:induction false} PruningKeepsKnown(recent: seq<Hello>, hash: nat, now: nat, later: nat)
    requires Cached(recent, hash, later) && now <= later
    ensures Cached(PruneHellos(recent, now), hash, later)
  {
    if recent != [] && now >= recent[0].seen + CLIENT_HELLO_CACHE_LIFETIME {
      var i, j :| 0 <= j <= i < |recent| && recent[i].hash == hash && later < recent[j].seen + CLIENT_HELLO_CACHE_LIFETIME;
      CachedAt(recent[1..], hash, later, i - 1, j - 1);
      PruningKeepsKnown(recent[1..], hash, now, later);
    }
  }

  /** Outside the passes, failures are forgotten by a session and by nothing else. */
  lemma {:induction false} FailuresAreKept(p: Peer, e: Event)
    requires Valid(p) && !e.Pass?
    ensures Step(p, e).failures == if Establishes(p, e) then 0 else p.failures
  {
  }

  /** A pass sends a handshake message exactly when one is due again or a hello begins, and fails only when it cannot begin one. */
  lemma {:induction false} PassSends(p: Peer, now: nat, room: bool, works: bool)
    requires Valid(p)
    ensures var e, t := Pass(now, room, works), Maintain(p, now, room, works);
      && (t.sends <==> (Resends(p, e) && p.active.Some?) || Begins(p, e))
      && (Resends(p, e) ==>
            && Handshaking(t.peer.state) && t.peer.state.retry == Retry(now, p.state.retry.attempts + 1)
            && t.peer.state == WithRetry(p.state, t.peer.state.retry) && t.peer.candidateAttempts == p.candidateAttempts)
      && (Handshaking(p.state) && !Resends(p, e) && !TimedOut(p, e) ==> t.peer.state == p.state)
      && (t.failed <==> !works && (p.state.Established? || AdvancesSome(p, e) || StartsProactively(p, Pass(now, room, true))))
  {
    PassCases(p, Pass(now, room, works));
  }

  /** What the active endpoint becomes outside the passes. */
  lemma {:induction false} ActiveMoves(p: Peer, e: Event)
    requires Valid(p) && !e.Pass?
    ensures var q := Step(p, e);
      match e
      case Promoted(endpoint) => q.active == Some(endpoint)
      case RelayFailed(endpoint, _) => q.active == if p.active == Some(endpoint) then NextPath(p.candidates, endpoint) else p.active
      case Configured(candidates, _, policyChanged) =>
        q.active == (
          if p.state.Established? && !policyChanged then p.active
          else if RoutesChanged(p.candidates, candidates) || !(p.active.Some? && Listed(candidates, p.active.value))
          then HeadOf(candidates) else p.active)
      case Pruned(_) =>
        q.active == if p.state.Established? || p.active.None? || Listed(q.candidates, p.active.value) then p.active else HeadOf(q.candidates)
      case _ => q.active == p.active
  {
    match e
    case Configured(candidates, _, _) => if p.active.Some? { PositionIsFirst(candidates, p.active.value); }
    case Pruned(wall) => if p.active.Some? { PositionIsFirst(Unexpired(p.candidates, wall), p.active.value); }
    case _ =>
  }

  function HeadOf(cs: seq<Candidate>): Option<Endpoint> {
    if cs == [] then None else Some(cs[0].endpoint)
  }

  // ----- the two searches -----

  lemma {:induction false} CacheIsExact(recent: seq<Hello>, hash: nat, now: nat)
    ensures Knows(PruneHellos(recent, now), hash) <==> Cached(recent, hash, now)
  {
    if recent != [] && now >= recent[0].seen + CLIENT_HELLO_CACHE_LIFETIME {
      CacheIsExact(recent[1..], hash, now);
      if Cached(recent, hash, now) {
        var i, j :| 0 <= j <= i < |recent| && recent[i].hash == hash && now < recent[j].seen + CLIENT_HELLO_CACHE_LIFETIME;
        CachedAt(recent[1..], hash, now, i - 1, j - 1);
      }
      if Cached(recent[1..], hash, now) {
        var i, j :| 0 <= j <= i < |recent[1..]| && recent[1..][i].hash == hash && now < recent[1..][j].seen + CLIENT_HELLO_CACHE_LIFETIME;
        CachedAt(recent, hash, now, i + 1, j + 1);
      }
    } else {
      forall i | 0 <= i < |recent| && recent[i].hash == hash ensures Cached(recent, hash, now) {
        CachedAt(recent, hash, now, i, 0);
      }
    }
  }

  lemma {:induction false} CachedAt(recent: seq<Hello>, hash: nat, now: nat, i: nat, j: nat)
    requires j <= i < |recent| && recent[i].hash == hash && now < recent[j].seen + CLIENT_HELLO_CACHE_LIFETIME
    ensures Cached(recent, hash, now)
  {
  }

  lemma {:induction false} SuccessorIsNext(p: Peer)
    ensures forall i: nat :: Follows(p, i) <==> i == NextCandidate(p) && i < |p.candidates|
  {
    if p.active.Some? { PositionIsFirst(p.candidates, p.active.value); }
  }

  // ----- sessions are earned -----

  /** The two ways to a session: a hello taken and the finish to its answer, or an answer taken and the finish to it. */
  ghost predicate Earned(p: Peer, events: seq<Event>, hello: nat, finish: nat)
    requires hello < finish < |events|
  {
    || (TakesHello(Run(p, events[..hello]), events[hello])
        && events[finish].ClientFinishIn? && events[finish].accepted && events[finish].derives)
    || (TakesAnswer(Run(p, events[..hello]), events[hello])
        && events[finish].ServerFinishIn? && events[finish].accepted && events[finish].derives)
  }

  lemma {:induction false} RunPrefix(p: Peer, events: seq<Event>, n: nat)
    requires n < |events|
    ensures Run(p, events[..n + 1]) == Step(Run(p, events[..n]), events[n])
  {
    assert events[..n + 1][..n] == events[..n];
  }

  /** A peer that waits for a finish has taken a hello, or the answer to its own. */
  lemma {:induction false} WaitingHasBegun(p: Peer, events: seq<Event>) returns (hello: nat)
    requires Valid(p) && !Handshaking(p.state)
    requires var q := Run(p, events); q.state.ServerHello? || q.state.ClientFinish?
    ensures hello < |events|
    ensures if Run(p, events).state.ServerHello? then TakesHello(Run(p, events[..hello]), events[hello])
            else TakesAnswer(Run(p, events[..hello]), events[hello])
    ensures Valid(Run(p, events))
  {
    var n := |events| - 1;
    var before, e := Run(p, events[..n]), events[n];
    RunIsValid(p, events[..n]);
    StepKeeps(before, e);
    WhenServerHello(before, e);
    WhenClientFinish(before, e);
    if (Step(before, e).state.ServerHello? && TakesHello(before, e)) || (Step(before, e).state.ClientFinish? && TakesAnswer(before, e)) {
      return n;
    }
    hello := WaitingHasBegun(p, events[..n]);
    assert events[..n][..hello] == events[..hello];
  }

  lemma {:induction false} RunIsValid(p: Peer, events: seq<Event>)
    requires Valid(p)
    ensures Valid(Run(p, events))
  {
    if events != [] {
      RunIsValid(p, events[..|events| - 1]);
      StepKeeps(Run(p, events[..|events| - 1]), events[|events| - 1]);
    }
  }

  /**
   In every run a session was earned: its peer took a hello, or the answer to its own,
   and later the finish that belongs to it, both of which verified.
   */
  lemma {:induction false} SessionsAreEarned(p: Peer, events: seq<Event>) returns (hello: nat, finish: nat)
    requires Valid(p) && p.state.Idle? && Run(p, events).state.Established?
    ensures hello < finish < |events| && Earned(p, events, hello, finish)
    ensures forall n :: finish < n <= |events| ==> Run(p, events[..n]).state.Established?
  {
    var n := |events| - 1;
    var q := Run(p, events[..n]);
    LastStep(p, events);
    if q.state.Established? {
      hello, finish := SessionsAreEarned(p, events[..n]);
      EarnedBefore(p, events, n, hello, finish);
    } else {
      finish := n;
      hello := WaitingHasBegun(p, events[..n]);
      EarnedNow(p, events, hello);
    }
  }

  /** A session was there before the last event, or that event established it. */
  lemma {:induction false} LastStep(p: Peer, events: seq<Event>)
    requires Valid(p) && p.state.Idle? && Run(p, events).state.Established?
    ensures events != []
    ensures var n := |events| - 1;
      var q := Run(p, events[..n]);
      q.state.Established? || (Establishes(q, events[n]) && (q.state.ServerHello? || q.state.ClientFinish?))
  {
    var n := |events| - 1;
    RunIsValid(p, events[..n]);
    WhenEstablished(Run(p, events[..n]), events[n]);
  }

  lemma {:induction false} EarnedNow(p: Peer, events: seq<Event>, hello: nat)
    requires hello + 1 < |events| && Run(p, events).state.Established?
    requires var n := |events| - 1;
      && Establishes(Run(p, events[..n]), events[n])
      && if Run(p, events[..n]).state.ServerHello? then TakesHello(Run(p, events[..n][..hello]), events[..n][hello])
         else TakesAnswer(Run(p, events[..n][..hello]), events[..n][hello])
    ensures Earned(p, events, hello, |events| - 1)
    ensures events[..|events|] == events
  {
    assert events[..|events| - 1][..hello] == events[..hello];
  }

  lemma {:induction false} EarnedBefore(p: Peer, events: seq<Event>, n: nat, hello: nat, finish: nat)
    requires n + 1 == |events| && hello < finish < n && Earned(p, events[..n], hello, finish) && Run(p, events).state.Established?
    requires forall k :: finish < k <= n ==> Run(p, events[..n][..k]).state.Established?
    ensures Earned(p, events, hello, finish)
    ensures forall k :: finish < k <= |events| ==> Run(p, events[..k]).state.Established?
  {
    assert events[..n][..hello] == events[..hello];
    forall k | finish < k <= |events| ensures Run(p, events[..k]).state.Established? {
      if k <= n { assert events[..n][..k] == events[..k]; } else { assert events[..k] == events; }
    }
  }
}
