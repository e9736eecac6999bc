/**
 What one end of a session does and when, stated on its state and on what happens to
 it: the maintenance pass, the delivery of a packet, and both over whole runs.
 */
module KeySchedule {
  import opened Prelude
  import ReplayWindow
  import opened KeyEpochs

  // ----- one maintenance pass -----

  /** Nothing but the pending update and the previous receive epoch differ. */
  predicate OnlyPendingMoves(s: Session, r: Session) {
    r == s.(outbound := r.outbound, receiver := s.receiver.(previous := r.receiver.previous), previousInstalledAt := r.previousInstalledAt)
  }

  /** With an update pending, a pass waits, sends the very same packet once more, or gives up after the sixth time. */
  lemma {:induction false} PendingUpdatePass(s: Session, now: nat)
    requires s.outbound.Some?
    ensures var u, (r, tick) := s.outbound.value, Maintain(s, now);
      && OnlyPendingMoves(s, r)
      && (now < u.lastSent + KEY_UPDATE_RETRY_INTERVAL ==> tick.Quiet? && r.outbound == s.outbound)
      && (now >= u.lastSent + KEY_UPDATE_RETRY_INTERVAL && u.attempts < KEY_UPDATE_MAX_ATTEMPTS ==>
            tick == Emit(u.packet) && r.outbound == Some(PendingUpdate(u.nextEpoch, u.packet, now, u.attempts + 1)))
      && (now >= u.lastSent + KEY_UPDATE_RETRY_INTERVAL && u.attempts >= KEY_UPDATE_MAX_ATTEMPTS ==>
            tick.Quiet? && r.outbound.None?)
  {
  }

  /** The sending epoch has carried its packets or its hour. */
  predicate RotationDue(s: Session, now: nat) {
    s.sentInEpoch >= 1_048_576 || now >= s.epochStartedAt + 3_600_000
  }

  /**
   With none pending, a pass starts a rotation exactly when it is due, sends a
   keepalive exactly when none is due and 15 s were silent, and otherwise nothing; it
   fails exactly when the packet it owes cannot be sealed.
   */
  lemma {:induction false} QuietPass(s: Session, now: nat)
    requires s.outbound.None?
    ensures var (r, tick) := Maintain(s, now);
      var update := Packet(s.sender.epoch, s.sender.nextSequence, KeyUpdate(UpdatePayload(s.id, s.sender.epoch, s.sender.epoch + 1)));
      var keepalive := Packet(s.sender.epoch, s.sender.nextSequence, Keepalive);
      var silent := now >= s.lastKeepaliveAt + 15_000;
      var spent := s.sender.nextSequence == U64_MAX;
      && (tick == Emit(update) <==> RotationDue(s, now) && !spent && s.sender.epoch != U32_MAX)
      && (tick == Emit(keepalive) <==> !RotationDue(s, now) && silent && !spent)
      && (tick.Fail? <==> if RotationDue(s, now) then spent || s.sender.epoch == U32_MAX else silent && spent)
      && (tick.Emit? ==> tick.packet == update || tick.packet == keepalive)
      && r.sender == s.sender.(nextSequence := s.sender.nextSequence + if tick.Emit? then 1 else 0)
      && r.outbound == (if tick == Emit(update) then Some(PendingUpdate(s.sender.epoch + 1, update, now, 1)) else None)
      && r.lastKeepaliveAt == (if tick == Emit(keepalive) then now else s.lastKeepaliveAt)
      && r.sentInEpoch == s.sentInEpoch && r.epochStartedAt == s.epochStartedAt
  {
  }

  /** Whatever else it does, a pass forgets the previous receive epoch exactly 30 s after the rotation, and never the current one. */
  lemma {:induction false} PassRetiresPrevious(s: Session, now: nat)
    ensures var r := Maintain(s, now).0;
      && r.id == s.id && r.receiver.current == s.receiver.current
      && (if s.previousInstalledAt.Some? && now >= s.previousInstalledAt.value + 30_000
          then r.receiver.previous.None? && r.previousInstalledAt.None?
          else r.receiver.previous == s.receiver.previous && r.previousInstalledAt == s.previousInstalledAt)
  {
  }

  /**
   A data packet takes the next sequence of its epoch, counts towards the rotation,
   and puts the keepalive off: with nothing pending or due, none is sent for 15 s.
   */
  lemma {:induction false} DataPostponesKeepalive(n: Node, inbound: set<Packet>, datagram: nat, now: nat, later: nat)
    requires n.session.sender.nextSequence != U64_MAX
    ensures var m := Act(n, inbound, SendData(datagram, now));
      && m.sent == n.sent + {Packet(n.session.sender.epoch, n.session.sender.nextSequence, Data(datagram))}
      && m.session.sender == Sender(n.session.sender.epoch, n.session.sender.nextSequence + 1)
      && m.session.sentInEpoch == SaturatingAdd(n.session.sentInEpoch, 1, U64_MAX)
      && m.accepted == n.accepted && m.session.receiver == n.session.receiver && m.session.outbound == n.session.outbound
      && (m.session.outbound.None? && !RotationDue(m.session, later) && later < now + 15_000 ==> Maintain(m.session, later).1.Quiet?)
  {
    var m := Act(n, inbound, SendData(datagram, now));
    if m.session.outbound.None? { QuietPass(m.session, later); }
  }

  /** In a new session each end reads what the other sends. */
  lemma {:induction false} FirstPacketArrives(id: nat, nowA: nat, nowB: nat, datagram: nat, now: nat, later: nat)
    ensures var y := Start(id, nowA, nowB);
      var p := Packet(0, 0, Data(datagram));
      && Apply(Apply(y, AtA(SendData(datagram, now))), AtB(Deliver(p, later, true))).b.accepted == [p]
      && Apply(Apply(y, AtB(SendData(datagram, now))), AtA(Deliver(p, later, true))).a.accepted == [p]
  {
    var p := Packet(0, 0, Data(datagram));
    assert p in {} + {p};
  }

  // ----- one delivery -----

  /** The packet is taken in: it was sent, it opens, and a data packet carries permitted addresses. */
  predicate TakenIn(n: Node, inbound: set<Packet>, p: Packet, bound: bool) {
    p in inbound && Opens(n.session.receiver, p) && (p.body.Data? ==> bound)
  }

  /** A key update for the epoch it was sealed in. */
  predicate Authentic(s: Session, p: Packet) {
    p.body.KeyUpdate? && p.body.payload == UpdatePayload(s.id, p.epoch, p.epoch + 1) && p.epoch < U32_MAX
  }

  /** The acknowledgement that a pending update waits for. */
  predicate Answers(s: Session, p: Packet) {
    && p.body.KeyUpdateAck? && p.body.payload == UpdatePayload(s.id, s.sender.epoch, s.sender.epoch + 1)
    && s.sender.epoch < U32_MAX && s.outbound.Some? && s.outbound.value.nextEpoch == s.sender.epoch + 1
  }

  /** What is sent back for a packet that was taken in. */
  predicate Owes(s: Session, p: Packet, body: Body) {
    && s.sender.nextSequence != U64_MAX
    && if p.body.PathChallenge? then body == PathResponse(p.body.token)
       else
         && Authentic(s, p) && body == KeyUpdateAck(p.body.payload)
         && (p.epoch == s.receiver.current.epoch || p.epoch + 1 == s.receiver.current.epoch)
  }

  /**
   A delivery moves the receive epoch exactly for an authentic update of the current
   epoch, whose window is then kept as the previous one; it moves the sending epoch
   exactly for the acknowledgement of the pending update, and then starts afresh.
   */
  lemma {:induction false} DeliveryMovesEpochs(n: Node, inbound: set<Packet>, p: Packet, now: nat, bound: bool)
    ensures var s, r := n.session, Act(n, inbound, Deliver(p, now, bound)).session;
      var taken := TakenIn(n, inbound, p, bound);
      && (r.receiver.current.epoch != s.receiver.current.epoch <==> taken && Authentic(s, p) && p.epoch == s.receiver.current.epoch)
      && (r.receiver.current.epoch != s.receiver.current.epoch ==>
            && r.receiver.current == Cipher(p.epoch + 1, ReplayWindow.Window(None, {}))
            && r.receiver.previous == Some(Cipher(p.epoch, ReplayWindow.Mark(s.receiver.current.replay, p.sequence)))
            && r.previousInstalledAt == Some(now))
      && (r.receiver.current.epoch == s.receiver.current.epoch ==> r.previousInstalledAt == s.previousInstalledAt)
      && (r.sender.epoch != s.sender.epoch <==> taken && Answers(s, p))
      && (r.sender.epoch != s.sender.epoch ==>
            r.sender == Sender(s.sender.epoch + 1, 0) && r.outbound.None? && r.sentInEpoch == 0 && r.epochStartedAt == now)
      && (r.sender.epoch == s.sender.epoch ==>
            r.outbound == s.outbound && r.sentInEpoch == s.sentInEpoch && r.epochStartedAt == s.epochStartedAt)
      && r.id == s.id && r.lastKeepaliveAt == s.lastKeepaliveAt
  {
  }

  /** A delivery is recorded exactly when the packet is taken in, and answered exactly when an answer is owed. */
  lemma {:induction false} DeliveryIsAnswered(n: Node, inbound: set<Packet>, p: Packet, now: nat, bound: bool, body: Body)
    ensures var s, m := n.session, Act(n, inbound, Deliver(p, now, bound));
      var taken, answer := TakenIn(n, inbound, p, bound), Packet(n.session.sender.epoch, n.session.sender.nextSequence, body);
      && m.accepted == (if taken then n.accepted + [p] else n.accepted)
      && (taken && Owes(s, p, body) ==> m.sent == n.sent + {answer} && m.session.sender == Sender(s.sender.epoch, s.sender.nextSequence + 1))
      && (m.sent != n.sent ==> taken && (p.body.PathChallenge? || p.body.KeyUpdate?))
      && (!taken ==> m == n)
      && (p.body.PathChallenge? && !Owes(s, p, PathResponse(p.body.token)) ==> m.sent == n.sent)
      && (p.body.KeyUpdate? && !Owes(s, p, KeyUpdateAck(p.body.payload)) ==> m.sent == n.sent)
  {
    if TakenIn(n, inbound, p, bound) {
      var m := n.(session := n.session.(receiver := Opened(n.session.receiver, p)), accepted := n.accepted + [p]);
      var (s, reply) := Dispatch(m.session, p, now);
      if reply.None? { NothingEmitted(m, s); }
    }
  }

  /**
   A whole rotation: an update that opens at a level receiver installs the next epoch
   and is acknowledged, and the acknowledgement, once it opens, brings the sender level.
   */
  lemma {:induction false} RotationCompletes(s: Node, r: Node, p: Packet, now: nat, later: nat)
    requires Local(s) && Local(r) && Direction(s, r)
    requires s.session.outbound.Some? && s.session.outbound.value.packet == p && p in s.sent
    requires p.epoch == s.session.sender.epoch < U32_MAX && p.body.KeyUpdate?
    requires r.session.receiver.current.epoch == p.epoch
    requires Opens(r.session.receiver, p) && r.session.sender.nextSequence < U64_MAX
    ensures var r' := Act(r, s.sent, Deliver(p, now, true));
      var ack := Packet(r.session.sender.epoch, r.session.sender.nextSequence, KeyUpdateAck(p.body.payload));
      && ack in r'.sent && r'.session.receiver.current.epoch == p.epoch + 1 && r'.session.receiver.previous.Some?
      && (Opens(s.session.receiver, ack) ==>
            Act(s, r'.sent, Deliver(ack, later, true)).session.sender == Sender(p.epoch + 1, 0))
  {
    DeliveryMovesEpochs(r, s.sent, p, now, true);
    DeliveryIsAnswered(r, s.sent, p, now, true, KeyUpdateAck(p.body.payload));
    var ack := Packet(r.session.sender.epoch, r.session.sender.nextSequence, KeyUpdateAck(p.body.payload));
    DeliveryMovesEpochs(s, Act(r, s.sent, Deliver(p, now, true)).sent, ack, later, true);
  }

  // ----- the packets of an epoch, over runs -----

  ghost function DataOf(sent: set<Packet>, epoch: nat): set<Packet> {
    set p | p in sent && p.epoch == epoch && p.body.Data?
  }

  ghost function SequencesOf(sent: set<Packet>, epoch: nat): set<nat> {
    set p | p in sent && p.epoch == epoch :: p.sequence
  }

  /** The sequences of the sending epoch are used without a gap, and its data packets are counted. */
  ghost predicate Dense(n: Node) {
    var s := n.session;
    && (forall k :: k in SequencesOf(n.sent, s.sender.epoch) <==> 0 <= k < s.sender.nextSequence)
    && s.sentInEpoch == |DataOf(n.sent, s.sender.epoch)| <= s.sender.nextSequence <= U64_MAX
  }

  /** Sealing one more packet under the present epoch. */
  lemma {:induction false} SealedIsDense(n: Node, body: Body, m: Node)
    requires Dense(n) && Local(n) && n.session.sender.nextSequence < U64_MAX
    requires m.sent == n.sent + {Packet(n.session.sender.epoch, n.session.sender.nextSequence, body)}
    requires m.session.sender == Sender(n.session.sender.epoch, n.session.sender.nextSequence + 1)
    requires m.session.sentInEpoch == n.session.sentInEpoch + if body.Data? then 1 else 0
    ensures Dense(m)
  {
    var p := Packet(n.session.sender.epoch, n.session.sender.nextSequence, body);
    assert p !in n.sent;
    OneMoreData(n.sent, p);
    OneMoreSequence(n.sent, p);
  }

  lemma {:induction false} OneMoreData(sent: set<Packet>, p: Packet)
    requires p !in sent
    ensures |DataOf(sent + {p}, p.epoch)| == |DataOf(sent, p.epoch)| + if p.body.Data? then 1 else 0
  {
    assert DataOf(sent + {p}, p.epoch) == DataOf(sent, p.epoch) + if p.body.Data? then {p} else {};
  }

  lemma {:induction false} OneMoreSequence(sent: set<Packet>, p: Packet)
    ensures SequencesOf(sent + {p}, p.epoch) == SequencesOf(sent, p.epoch) + {p.sequence}
  {
    var longer := sent + {p};
    forall k | k in SequencesOf(sent, p.epoch) + {p.sequence} ensures k in SequencesOf(longer, p.epoch) {
      if k == p.sequence {
        assert p in longer;
      } else {
        var q :| q in sent && q.epoch == p.epoch && q.sequence == k;
        assert q in longer;
      }
    }
  }

  /** A new epoch has neither packets nor sequences. */
  lemma {:induction false} FreshIsDense(n: Node, m: Node)
    requires Local(n) && m.sent == n.sent
    requires m.session.sender == Sender(n.session.sender.epoch + 1, 0) && m.session.sentInEpoch == 0
    ensures Dense(m)
  {
    assert DataOf(m.sent, n.session.sender.epoch + 1) == {};
  }

  lemma {:induction false} DeliveryStaysDense(n: Node, inbound: set<Packet>, p: Packet, now: nat, bound: bool)
    requires Local(n) && Dense(n)
    ensures Dense(Act(n, inbound, Deliver(p, now, bound)))
  {
    var m := Act(n, inbound, Deliver(p, now, bound));
    var body := if p.body.PathChallenge? then PathResponse(p.body.token)
                else if p.body.KeyUpdate? then KeyUpdateAck(p.body.payload) else Keepalive;
    DeliveryMovesEpochs(n, inbound, p, now, bound);
    DeliveryIsAnswered(n, inbound, p, now, bound, body);
    if TakenIn(n, inbound, p, bound) && Answers(n.session, p) {
      FreshIsDense(n, m);
    } else if TakenIn(n, inbound, p, bound) && Owes(n.session, p, body) {
      SealedIsDense(n, body, m);
    }
  }

  lemma {:induction false} StepStaysDense(n: Node, inbound: set<Packet>, action: Action)
    requires Local(n) && Dense(n)
    ensures Dense(Act(n, inbound, action))
  {
    var m := Act(n, inbound, action);
    match action
    case Pass(now) =>
      var tick := Maintain(n.session, now).1;
      if n.session.outbound.Some? {
        PendingUpdatePass(n.session, now);
        assert m.sent == n.sent;
      } else {
        QuietPass(n.session, now);
        if tick.Emit? { SealedIsDense(n, tick.packet.body, m); } else { assert m.sent == n.sent; }
      }
    case SendData(datagram, now) =>
      if n.session.sender.nextSequence < U64_MAX { SealedIsDense(n, Data(datagram), m); }
    case Probe(token) =>
      if n.session.sender.nextSequence < U64_MAX { SealedIsDense(n, PathChallenge(token), m); } else { assert m.sent == n.sent; }
    case Deliver(p, now, bound) => DeliveryStaysDense(n, inbound, p, now, bound);
  }

  function End(y: System, atA: bool): Node {
    if atA then y.a else y.b
  }

  /**
   In every run the sequences of an epoch are used one by one without a gap, and the
   counter that decides about rotation is the number of data packets sent in the epoch.
   */
  lemma {:induction false} EveryRunIsDense(id: nat, nowA: nat, nowB: nat, events: seq<Event>)
    ensures var y := Run(Start(id, nowA, nowB), events);
      Dense(y.a) && Dense(y.b)
  {
    var y := Start(id, nowA, nowB);
    if events == [] {
      assert DataOf({}, 0) == {} && SequencesOf({}, 0) == {};
    } else {
      var prefix := events[..|events| - 1];
      EveryRunIsDense(id, nowA, nowB, prefix);
      EveryRunKeepsInvariant(id, nowA, nowB, prefix);
      var z := Run(y, prefix);
      match events[|events| - 1]
      case AtA(action) => StepStaysDense(z.a, z.b.sent, action);
      case AtB(action) => StepStaysDense(z.b, z.a.sent, action);
    }
  }

  // ----- how often one update is sent -----

  /** This event is a maintenance pass of the end, and it sends exactly `p`. */
  predicate PassSends(y: System, e: Event, atA: bool, p: Packet) {
    e.AtA? == atA && e.action.Pass? && Maintain(End(y, atA).session, e.action.now).1 == Emit(p)
  }

  /** How many passes of one end sent `p`. */
  function TimesSent(y: System, events: seq<Event>, atA: bool, p: Packet): nat {
    if events == [] then 0
    else
      var prefix := events[..|events| - 1];
      TimesSent(y, prefix, atA, p) + if PassSends(Run(y, prefix), events[|events| - 1], atA, p) then 1 else 0
  }

  predicate PendingIs(s: Session, p: Packet) {
    s.outbound.Some? && s.outbound.value.packet == p
  }

  /** `k` passes have sent the update `p`: as often as its pending record says, six times once given up, and never more. */
  ghost predicate Tallied(n: Node, p: Packet, k: nat) {
    && k <= KEY_UPDATE_MAX_ATTEMPTS
    && (p in n.sent <==> k >= 1)
    && (PendingIs(n.session, p) ==> k == n.session.outbound.value.attempts)
    && (p in n.sent && !PendingIs(n.session, p) && p.epoch == n.session.sender.epoch ==> k == KEY_UPDATE_MAX_ATTEMPTS)
  }

  lemma {:induction false} PassTallies(n: Node, p: Packet, k: nat, inbound: set<Packet>, now: nat)
    requires Local(n) && p.body.KeyUpdate? && Tallied(n, p, k)
    ensures Tallied(Act(n, inbound, Pass(now)), p, k + if Maintain(n.session, now).1 == Emit(p) then 1 else 0)
  {
    var s, tick := n.session, Maintain(n.session, now).1;
    if s.outbound.Some? {
      PendingUpdatePass(s, now);
    } else {
      QuietPass(s, now);
      assert Packet(s.sender.epoch, s.sender.nextSequence, p.body) !in n.sent;
    }
  }

  lemma {:induction false} OtherTallies(n: Node, p: Packet, k: nat, inbound: set<Packet>, action: Action)
    requires Local(n) && p.body.KeyUpdate? && Tallied(n, p, k) && !action.Pass?
    ensures Tallied(Act(n, inbound, action), p, k)
  {
    if action.Deliver? {
      var q := action.packet;
      DeliveryMovesEpochs(n, inbound, q, action.now, action.bound);
      var body := if q.body.PathChallenge? then PathResponse(q.body.token)
                  else if q.body.KeyUpdate? then KeyUpdateAck(q.body.payload) else Keepalive;
      DeliveryIsAnswered(n, inbound, q, action.now, action.bound, body);
      assert p in Act(n, inbound, action).sent <==> p in n.sent;
    }
  }

  /**
   In every run and at both ends: an update is sent at most six times, and one that is
   not acknowledged, so that the end is still in its epoch, is sent exactly six times
   before it is given up.
   */
  lemma {:induction false} UnacknowledgedUpdateIsSentSixTimes(id: nat, nowA: nat, nowB: nat, events: seq<Event>, atA: bool, p: Packet)
    requires p.body.KeyUpdate?
    ensures Tallied(End(Run(Start(id, nowA, nowB), events), atA), p, TimesSent(Start(id, nowA, nowB), events, atA, p))
  {
    var y := Start(id, nowA, nowB);
    if events != [] {
      var prefix, e := events[..|events| - 1], events[|events| - 1];
      UnacknowledgedUpdateIsSentSixTimes(id, nowA, nowB, prefix, atA, p);
      EveryRunKeepsInvariant(id, nowA, nowB, prefix);
      var z, k := Run(y, prefix), TimesSent(y, prefix, atA, p);
      if e.AtA? == atA {
        if e.action.Pass? {
          PassTallies(End(z, atA), p, k, End(z, !atA).sent, e.action.now);
        } else {
          OtherTallies(End(z, atA), p, k, End(z, !atA).sent, e.action);
        }
      }
    }
  }
}
