/**
 Both ends of one established XSP/1 session: sealing, opening, the acknowledged
 rotation of each sending direction's key epoch, and the retirement of the
 previous receive epoch.

 Cryptography is ideal: a packet opens only if the peer sealed it in this
 session, and the 36-byte key-update payload determines the session and the two
 epochs that it was made from.
 */
module KeyEpochs {
  import opened Prelude
  import opened ReplayWindow

  // Milliseconds.
  const KEY_UPDATE_RETRY_INTERVAL: nat := 300
  const KEY_UPDATE_MAX_ATTEMPTS: nat := 6
  const KEY_UPDATE_PACKET_LIMIT: nat := 1_048_576
  const KEY_UPDATE_INTERVAL: nat := 3_600_000
  const PREVIOUS_EPOCH_RETENTION: nat := 30_000
  const KEEPALIVE_INTERVAL: nat := 15_000

  /** The content that the digest of a key-update payload binds. */
  datatype UpdatePayload = UpdatePayload(session: nat, current: nat, next: nat)

  datatype Body =
    | Data(packet: nat)
    | Keepalive
    | PathChallenge(token: nat)
    | PathResponse(token: nat)
    | KeyUpdate(payload: UpdatePayload)
    | KeyUpdateAck(payload: UpdatePayload)
    | Close

  datatype Packet = Packet(epoch: nat, sequence: nat, body: Body)

  datatype Sender = Sender(epoch: nat, nextSequence: nat)

  datatype Cipher = Cipher(epoch: nat, replay: Window)

  datatype Receiver = Receiver(current: Cipher, previous: Option<Cipher>)

  datatype PendingUpdate = PendingUpdate(nextEpoch: nat, packet: Packet, lastSent: nat, attempts: nat)

  datatype Session = Session(
    id: nat,
    sender: Sender,
    receiver: Receiver,
    sentInEpoch: nat,
    epochStartedAt: nat,
    outbound: Option<PendingUpdate>,
    previousInstalledAt: Option<nat>,
    lastKeepaliveAt: nat)

  function Installed(id: nat, now: nat): Session {
    Session(id, Sender(0, 0), Receiver(Cipher(0, Window(None, {})), None), 0, now, None, None, now)
  }

  function VerifyKeyUpdatePayload(payload: UpdatePayload, session: nat, current: nat): Option<nat> {
    if payload == UpdatePayload(session, current, current + 1) && current < U32_MAX then Some(payload.next) else None
  }

  // ----- sealing and opening -----

  /** Sealing stops for good at the last sequence of an epoch. */
  function Seal(s: Session, body: Body): Option<(Session, Packet)> {
    if s.sender.nextSequence == U64_MAX then None
    else Some((s.(sender := s.sender.(nextSequence := s.sender.nextSequence + 1)),
               Packet(s.sender.epoch, s.sender.nextSequence, body)))
  }

  /** The replay window that a packet is checked against. */
  function CipherFor(r: Receiver, epoch: nat): Option<Cipher> {
    if epoch == r.current.epoch then Some(r.current)
    else if r.previous.Some? && r.previous.value.epoch == epoch then r.previous
    else None
  }

  predicate Opens(r: Receiver, p: Packet) {
    CipherFor(r, p.epoch).Some? && Accepts(CipherFor(r, p.epoch).value.replay, p.sequence)
  }

  function Opened(r: Receiver, p: Packet): Receiver
    requires Opens(r, p)
  {
    if p.epoch == r.current.epoch then r.(current := r.current.(replay := Mark(r.current.replay, p.sequence)))
    else r.(previous := Some(r.previous.value.(replay := Mark(r.previous.value.replay, p.sequence))))
  }

  // ----- handlers -----

  function WithReply(s: Session, body: Body): (Session, Option<Packet>) {
    match Seal(s, body)
    case None => (s, None)
    case Some((s', p)) => (s', Some(p))
  }

  function HandleKeyUpdate(s: Session, payload: UpdatePayload, epoch: nat, now: nat): (Session, Option<Packet>) {
    match VerifyKeyUpdatePayload(payload, s.id, epoch)
    case None => (s, None)
    case Some(next) =>
      var current := s.receiver.current.epoch;
      if current < U32_MAX && current + 1 == next then
        var r := Receiver(Cipher(next, Window(None, {})), Some(s.receiver.current));
        WithReply(s.(receiver := r, previousInstalledAt := Some(now)), KeyUpdateAck(payload))
      else if current != next || epoch + 1 != current then (s, None)
      else WithReply(s, KeyUpdateAck(payload))
  }

  function HandleKeyUpdateAck(s: Session, payload: UpdatePayload, now: nat): Session {
    if s.outbound.None? then s
    else
      match VerifyKeyUpdatePayload(payload, s.id, s.sender.epoch)
      case None => s
      case Some(next) =>
        if next != s.outbound.value.nextEpoch then s
        else s.(sender := Sender(next, 0), sentInEpoch := 0, epochStartedAt := now, outbound := None)
  }

  /** Handles one packet that opened; the reply, if any, is sent back. */
  function Dispatch(s: Session, p: Packet, now: nat): (Session, Option<Packet>) {
    match p.body
    case KeyUpdate(payload) => HandleKeyUpdate(s, payload, p.epoch, now)
    case KeyUpdateAck(payload) => (HandleKeyUpdateAck(s, payload, now), None)
    case PathChallenge(token) => WithReply(s, PathResponse(token))
    case _ => (s, None)
  }

  function Retire(s: Session, now: nat): Session {
    if s.previousInstalledAt.Some? && Since(now, s.previousInstalledAt.value) >= PREVIOUS_EPOCH_RETENTION
    then s.(receiver := s.receiver.(previous := None), previousInstalledAt := None)
    else s
  }

  predicate UpdateDue(s: Session, now: nat) {
    s.sentInEpoch >= KEY_UPDATE_PACKET_LIMIT || Since(now, s.epochStartedAt) >= KEY_UPDATE_INTERVAL
  }

  datatype Tick = Quiet | Emit(packet: Packet) | Fail

  function PollUpdate(s: Session, u: PendingUpdate, now: nat): (Session, Tick) {
    if Since(now, u.lastSent) < KEY_UPDATE_RETRY_INTERVAL then (s, Quiet)
    else if u.attempts >= KEY_UPDATE_MAX_ATTEMPTS then (s.(outbound := None), Quiet)
    else (s.(outbound := Some(u.(lastSent := now, attempts := u.attempts + 1))), Emit(u.packet))
  }

  function StartUpdate(s: Session, now: nat): (Session, Tick) {
    if s.sender.epoch == U32_MAX then (s, Fail)
    else
      var next := s.sender.epoch + 1;
      match Seal(s, KeyUpdate(UpdatePayload(s.id, s.sender.epoch, next)))
      case None => (s, Fail)
      case Some((s', p)) => (s'.(outbound := Some(PendingUpdate(next, p, now, 1))), Emit(p))
  }

  function SendKeepalive(s: Session, now: nat): (Session, Tick) {
    match Seal(s, Keepalive)
    case None => (s, Fail)
    case Some((s', p)) => (s'.(lastKeepaliveAt := now), Emit(p))
  }

  /** One maintenance pass; a failure keeps what the pass had changed. */
  function Maintain(s0: Session, now: nat): (Session, Tick) {
    var s := Retire(s0, now);
    if s.outbound.Some? then PollUpdate(s, s.outbound.value, now)
    else if UpdateDue(s, now) then StartUpdate(s, now)
    else if Since(now, s.lastKeepaliveAt) >= KEEPALIVE_INTERVAL then SendKeepalive(s, now)
    else (s, Quiet)
  }

  /** The session as the agent holds it, updated in place by its handlers. */
  class EstablishedPeer {
    const id: nat
    var sender: Sender
    var receiver: Receiver
    var sentInEpoch: nat
    var epochStartedAt: nat
    var outbound: Option<PendingUpdate>
    var previousInstalledAt: Option<nat>
    var lastKeepaliveAt: nat

    function State(): Session
      reads this
    {
      Session(id, sender, receiver, sentInEpoch, epochStartedAt, outbound, previousInstalledAt, lastKeepaliveAt)
    }

    constructor (id: nat, now: nat)
      ensures State() == Installed(id, now)
    {
      this.id := id;
      sender, receiver := Sender(0, 0), Receiver(Cipher(0, Window(None, {})), None);
      sentInEpoch, epochStartedAt, lastKeepaliveAt := 0, now, now;
      outbound, previousInstalledAt := None, None;
    }

    method SealControl(body: Body) returns (packet: Option<Packet>)
      modifies this`sender
      ensures (State(), packet) == WithReply(old(State()), body)
    {
      if sender.nextSequence == U64_MAX {
        return None;
      }
      packet := Some(Packet(sender.epoch, sender.nextSequence, body));
      sender := sender.(nextSequence := sender.nextSequence + 1);
    }

    method ReceiveKeyUpdate(payload: UpdatePayload, epoch: nat, now: nat) returns (reply: Option<Packet>)
      modifies this
      ensures (State(), reply) == HandleKeyUpdate(old(State()), payload, epoch, now)
    {
      var verified := VerifyKeyUpdatePayload(payload, id, epoch);
      if verified.None? {
        return None;
      }
      var current := receiver.current.epoch;
      if current < U32_MAX && current + 1 == verified.value {
        receiver := Receiver(Cipher(verified.value, Window(None, {})), Some(receiver.current));
        previousInstalledAt := Some(now);
      } else if current != verified.value || epoch + 1 != current {
        return None;
      }
      reply := SealControl(KeyUpdateAck(payload));
    }

    method ReceiveKeyUpdateAck(payload: UpdatePayload, now: nat)
      modifies this
      ensures State() == HandleKeyUpdateAck(old(State()), payload, now)
    {
      if outbound.None? {
        return;
      }
      var verified := VerifyKeyUpdatePayload(payload, id, sender.epoch);
      if verified.None? || verified.value != outbound.value.nextEpoch {
        return;
      }
      sender := Sender(verified.value, 0);
      sentInEpoch, epochStartedAt, outbound := 0, now, None;
    }

    method MaintainEstablished(now: nat) returns (result: Tick)
      modifies this
      ensures (State(), result) == Maintain(old(State()), now)
    {
      if previousInstalledAt.Some? && Since(now, previousInstalledAt.value) >= PREVIOUS_EPOCH_RETENTION {
        receiver := receiver.(previous := None);
        previousInstalledAt := None;
      }
      if outbound.Some? {
        var u := outbound.value;
        if Since(now, u.lastSent) < KEY_UPDATE_RETRY_INTERVAL {
          return Quiet;
        }
        if u.attempts >= KEY_UPDATE_MAX_ATTEMPTS {
          outbound := None;
          return Quiet;
        }
        outbound := Some(u.(lastSent := now, attempts := u.attempts + 1));
        return Emit(u.packet);
      }
      if sentInEpoch >= KEY_UPDATE_PACKET_LIMIT || Since(now, epochStartedAt) >= KEY_UPDATE_INTERVAL {
        if sender.epoch == U32_MAX {
          return Fail;
        }
        var next := sender.epoch + 1;
        var packet := SealControl(KeyUpdate(UpdatePayload(id, sender.epoch, next)));
        if packet.None? {
          return Fail;
        }
        outbound := Some(PendingUpdate(next, packet.value, now, 1));
        return Emit(packet.value);
      }
      if Since(now, lastKeepaliveAt) >= KEEPALIVE_INTERVAL {
        var packet := SealControl(Keepalive);
        if packet.None? {
          return Fail;
        }
        lastKeepaliveAt := now;
        return Emit(packet.value);
      }
      return Quiet;
    }
  }

  // ----- two ends and a network that loses, duplicates and reorders -----

  /** One end: its session, every packet it ever sent, and the packets it accepted in order. */
  datatype Node = Node(session: Session, sent: set<Packet>, accepted: seq<Packet>)

  datatype Action =
    | Pass(now: nat)                              // a maintenance pass
    | SendData(datagram: nat, now: nat)             // one packet read from the TUN device
    | Probe(token: nat)                           // a path challenge
    | Deliver(packet: Packet, now: nat, bound: bool)  // `bound`: a data packet carries permitted addresses

  function Emitted(n: Node, s: Session, p: Option<Packet>): Node {
    n.(session := s, sent := n.sent + if p.Some? then {p.value} else {})
  }

  /** The node after a maintenance result. */
  function Ticked(n: Node, result: (Session, Tick)): Node {
    Emitted(n, result.0, if result.1.Emit? then Some(result.1.packet) else None)
  }

  /** The end after it opened and handled a packet. */
  function Handled(n: Node, p: Packet, now: nat): Node
    requires Opens(n.session.receiver, p)
  {
    var m := n.(session := n.session.(receiver := Opened(n.session.receiver, p)), accepted := n.accepted + [p]);
    var (s, reply) := Dispatch(m.session, p, now);
    Emitted(m, s, reply)
  }

  /** One step of an end. The network may deliver any packet the peer ever sent, at any time, any number of times. */
  function Act(n: Node, inbound: set<Packet>, action: Action): Node {
    match action
    case Pass(now) =>
      Ticked(n, Maintain(n.session, now))
    case SendData(datagram, now) =>
      (match Seal(n.session, Data(datagram))
       case None => n
       case Some((s, p)) => Emitted(n, s.(sentInEpoch := SaturatingAdd(s.sentInEpoch, 1, U64_MAX), lastKeepaliveAt := now), Some(p)))
    case Probe(token) =>
      var (s, p) := WithReply(n.session, PathChallenge(token));
      Emitted(n, s, p)
    case Deliver(p, now, bound) =>
      if p !in inbound || !Opens(n.session.receiver, p) || (p.body.Data? && !bound) then n
      else Handled(n, p, now)
  }

  datatype System = System(a: Node, b: Node)

  datatype Event = AtA(action: Action) | AtB(action: Action)

  function Apply(y: System, e: Event): System {
    match e
    case AtA(action) => y.(a := Act(y.a, y.b.sent, action))
    case AtB(action) => y.(b := Act(y.b, y.a.sent, action))
  }

  function Run(y: System, events: seq<Event>): System {
    if events == [] then y else Apply(Run(y, events[..|events| - 1]), events[|events| - 1])
  }

  function Start(id: nat, nowA: nat, nowB: nat): System {
    System(Node(Installed(id, nowA), {}, []), Node(Installed(id, nowB), {}, []))
  }

  // ----- what every run keeps -----

  ghost function Sequences(accepted: seq<Packet>, epoch: nat): set<nat> {
    set i | 0 <= i < |accepted| && accepted[i].epoch == epoch :: accepted[i].sequence
  }

  /** What a sender guarantees about the packets it ever sent. */
  ghost predicate Sealed(id: nat, sender: Sender, outbound: Option<PendingUpdate>, sent: set<Packet>) {
    && sender.epoch <= U32_MAX
    && (forall p :: p in sent ==>
          p.epoch <= sender.epoch && (p.epoch == sender.epoch ==> p.sequence < sender.nextSequence))
    && (forall p, q :: p in sent && q in sent && p.epoch == q.epoch && p.sequence == q.sequence ==> p == q)
    && (forall p :: p in sent && p.body.KeyUpdate? ==> p.body.payload == UpdatePayload(id, p.epoch, p.epoch + 1))
    && (outbound.Some? ==> outbound.value.nextEpoch == sender.epoch + 1 && outbound.value.packet in sent)
  }

  /** An end only acknowledges epochs that it has installed. */
  ghost predicate Acknowledged(sent: set<Packet>, current: nat) {
    forall p :: p in sent && p.body.KeyUpdateAck? ==> p.body.payload.next <= current
  }

  /** A replay window remembers the accepted sequences of its own epoch. */
  ghost predicate Remembers(c: Cipher, accepted: seq<Packet>) {
    c.replay == Summary(Sequences(accepted, c.epoch))
  }

  ghost predicate Distinct(accepted: seq<Packet>) {
    forall i, j :: 0 <= i < j < |accepted| ==>
      accepted[i].epoch != accepted[j].epoch || accepted[i].sequence != accepted[j].sequence
  }

  /** What a receiver guarantees about its epochs and its replay windows. */
  ghost predicate Receives(v: Receiver, accepted: seq<Packet>) {
    && v.current.epoch <= U32_MAX
    && (v.previous.Some? ==> v.previous.value.epoch + 1 == v.current.epoch)
    && Remembers(v.current, accepted)
    && (v.previous.Some? ==> Remembers(v.previous.value, accepted))
    && (forall i :: 0 <= i < |accepted| ==> accepted[i].epoch <= v.current.epoch)
    && Distinct(accepted)
  }

  ghost predicate Local(n: Node) {
    && Sealed(n.session.id, n.session.sender, n.session.outbound, n.sent)
    && Acknowledged(n.sent, n.session.receiver.current.epoch)
    && Receives(n.session.receiver, n.accepted)
  }

  /** The direction from `s` to `r`: the receiver is level with the sender or one epoch ahead of it. */
  ghost predicate Direction(s: Node, r: Node) {
    && s.session.id == r.session.id
    && s.session.sender.epoch <= r.session.receiver.current.epoch <= s.session.sender.epoch + 1
    && forall i :: 0 <= i < |r.accepted| ==> r.accepted[i] in s.sent
  }

  ghost predicate Invariant(y: System) {
    Local(y.a) && Local(y.b) && Direction(y.a, y.b) && Direction(y.b, y.a)
  }

  lemma {:induction false} SealKeeps(n: Node, body: Body)
    requires Local(n)
    requires body.KeyUpdate? ==> body.payload == UpdatePayload(n.session.id, n.session.sender.epoch, n.session.sender.epoch + 1)
    requires body.KeyUpdateAck? ==> body.payload.next <= n.session.receiver.current.epoch
    ensures var (s, p) := WithReply(n.session, body);
      Local(Emitted(n, s, p))
  {
  }

  /** Accepting a packet marks exactly its epoch and sequence. */
  lemma {:induction false} OpenKeeps(v: Receiver, accepted: seq<Packet>, p: Packet)
    requires Receives(v, accepted) && Opens(v, p)
    ensures Receives(Opened(v, p), accepted + [p])
  {
    var c := CipherFor(v, p.epoch).value;
    MarkKeeps(c, accepted, p);
    if p.epoch == v.current.epoch {
      if v.previous.Some? { OtherKeeps(v.previous.value, accepted, p); }
    } else {
      OtherKeeps(v.current, accepted, p);
    }
  }

  lemma {:induction false} OtherKeeps(c: Cipher, accepted: seq<Packet>, p: Packet)
    requires Remembers(c, accepted) && p.epoch != c.epoch
    ensures Remembers(c, accepted + [p])
  {
    SequencesGrow(accepted, p, c.epoch);
  }

  lemma {:induction false} MarkKeeps(c: Cipher, accepted: seq<Packet>, p: Packet)
    requires Remembers(c, accepted) && p.epoch == c.epoch && Accepts(c.replay, p.sequence) && Distinct(accepted)
    ensures Remembers(c.(replay := Mark(c.replay, p.sequence)), accepted + [p])
    ensures Distinct(accepted + [p])
  {
    SummaryAccepts(Sequences(accepted, p.epoch), p.sequence);
    SummaryMark(Sequences(accepted, p.epoch), p.sequence);
    SequencesGrow(accepted, p, p.epoch);
    forall i | 0 <= i < |accepted| ensures accepted[i].epoch != p.epoch || accepted[i].sequence != p.sequence {
      if accepted[i].epoch == p.epoch { assert accepted[i].sequence in Sequences(accepted, p.epoch); }
    }
  }

  lemma {:induction false} SequencesGrow(accepted: seq<Packet>, p: Packet, epoch: nat)
    ensures Sequences(accepted + [p], epoch) ==
      Sequences(accepted, epoch) + if p.epoch == epoch then {p.sequence} else {}
  {
    var longer := accepted + [p];
    forall q ensures q in Sequences(longer, epoch) <==>
      q in Sequences(accepted, epoch) || (p.epoch == epoch && q == p.sequence)
    {
      if q in Sequences(accepted, epoch) {
        var i :| 0 <= i < |accepted| && accepted[i].epoch == epoch && accepted[i].sequence == q;
        assert longer[i].epoch == epoch && longer[i].sequence == q;
      }
      if p.epoch == epoch && q == p.sequence {
        assert longer[|accepted|].epoch == epoch && longer[|accepted|].sequence == q;
      }
    }
  }

  /** Installing the next epoch starts from an empty window, since nothing of that epoch was accepted yet. */
  lemma {:induction false} InstallKeeps(v: Receiver, accepted: seq<Packet>)
    requires Receives(v, accepted) && v.current.epoch < U32_MAX
    ensures Receives(Receiver(Cipher(v.current.epoch + 1, Window(None, {})), Some(v.current)), accepted)
  {
    assert Sequences(accepted, v.current.epoch + 1) == {};
  }

  /** A handler moves each of its two epochs by at most one, for a stated reason. */
  ghost predicate Moves(before: Session, after: Session, p: Packet) {
    && after.id == before.id
    && (after.receiver == before.receiver
        || (p.body.KeyUpdate? && p.epoch == before.receiver.current.epoch && after.receiver.current.epoch == p.epoch + 1))
    && (after.sender.epoch == before.sender.epoch
        || (p.body.KeyUpdateAck? && after.sender.epoch == before.sender.epoch + 1 == p.body.payload.next))
  }

  lemma {:induction false} KeyUpdateKeeps(n: Node, payload: UpdatePayload, epoch: nat, now: nat)
    requires Local(n)
    ensures var (s, reply) := HandleKeyUpdate(n.session, payload, epoch, now);
      Local(Emitted(n, s, reply))
  {
    var v := n.session.receiver;
    var verified := VerifyKeyUpdatePayload(payload, n.session.id, epoch);
    if verified.None? {
      NothingEmitted(n, n.session);
    } else if v.current.epoch < U32_MAX && v.current.epoch + 1 == verified.value {
      var next := Receiver(Cipher(v.current.epoch + 1, Window(None, {})), Some(v.current));
      InstallKeeps(v, n.accepted);
      SealKeeps(n.(session := n.session.(receiver := next, previousInstalledAt := Some(now))), KeyUpdateAck(payload));
    } else if v.current.epoch != verified.value || epoch + 1 != v.current.epoch {
      NothingEmitted(n, n.session);
    } else {
      SealKeeps(n, KeyUpdateAck(payload));
    }
  }

  lemma {:induction false} AckKeeps(n: Node, payload: UpdatePayload, now: nat)
    requires Local(n)
    ensures Local(n.(session := HandleKeyUpdateAck(n.session, payload, now)))
  {
  }

  lemma {:induction false} DispatchMoves(s: Session, p: Packet, now: nat)
    ensures Moves(s, Dispatch(s, p, now).0, p)
  {
  }

  lemma {:induction false} DispatchKeeps(n: Node, p: Packet, now: nat)
    requires Local(n)
    ensures Local(Emitted(n, Dispatch(n.session, p, now).0, Dispatch(n.session, p, now).1))
  {
    if p.body.KeyUpdate? {
      KeyUpdateKeeps(n, p.body.payload, p.epoch, now);
    } else if p.body.KeyUpdateAck? {
      AckKeeps(n, p.body.payload, now);
      NothingEmitted(n, HandleKeyUpdateAck(n.session, p.body.payload, now));
    } else if p.body.PathChallenge? {
      SealKeeps(n, PathResponse(p.body.token));
    } else {
      assert Dispatch(n.session, p, now) == (n.session, None);
      NothingEmitted(n, n.session);
    }
  }

  lemma {:induction false} NothingEmitted(n: Node, s: Session)
    ensures Emitted(n, s, None) == n.(session := s)
  {
  }

  lemma {:induction false} RetireKeeps(n: Node, now: nat)
    requires Local(n)
    ensures Local(n.(session := Retire(n.session, now)))
  {
  }

  lemma {:induction false} MaintainMoves(s: Session, now: nat)
    ensures var s' := Maintain(s, now).0;
      && s'.id == s.id && s'.sender.epoch == s.sender.epoch && s'.receiver.current == s.receiver.current
      && (s.receiver.previous.None? ==> s'.receiver.previous.None?)
  {
  }

  lemma {:induction false} MaintainKeeps(n: Node, now: nat)
    requires Local(n)
    ensures Local(Ticked(n, Maintain(n.session, now)))
  {
    RetireKeeps(n, now);
    var m := n.(session := Retire(n.session, now));
    if m.session.outbound.Some? {
      PollKeeps(m, now);
    } else if UpdateDue(m.session, now) {
      StartKeeps(m, now);
    } else if Since(now, m.session.lastKeepaliveAt) >= KEEPALIVE_INTERVAL {
      KeepaliveKeeps(m, now);
    } else {
      NothingEmitted(m, m.session);
    }
  }

  lemma {:induction false} KeepaliveKeeps(n: Node, now: nat)
    requires Local(n)
    ensures Local(Ticked(n, SendKeepalive(n.session, now)))
  {
    SealKeeps(n, Keepalive);
  }

  lemma {:induction false} StartKeeps(n: Node, now: nat)
    requires Local(n) && n.session.outbound.None?
    ensures Local(Ticked(n, StartUpdate(n.session, now)))
  {
    SealKeeps(n, KeyUpdate(UpdatePayload(n.session.id, n.session.sender.epoch, n.session.sender.epoch + 1)));
    NothingEmitted(n, n.session);
  }

  lemma {:induction false} PollKeeps(n: Node, now: nat)
    requires Local(n) && n.session.outbound.Some?
    ensures Local(Ticked(n, PollUpdate(n.session, n.session.outbound.value, now)))
  {
    var u := n.session.outbound.value;
    assert n.sent + {u.packet} == n.sent && n.sent + {} == n.sent;
  }

  lemma {:induction false} HandledKeeps(n: Node, p: Packet, now: nat)
    requires Local(n) && Opens(n.session.receiver, p)
    ensures Local(Handled(n, p, now))
  {
    OpenKeeps(n.session.receiver, n.accepted, p);
    var m := n.(session := n.session.(receiver := Opened(n.session.receiver, p)), accepted := n.accepted + [p]);
    DispatchKeeps(m, p, now);
  }

  lemma {:induction false} HandledDirections(n: Node, peer: Node, p: Packet, now: nat)
    requires Local(n) && Local(peer) && Direction(n, peer) && Direction(peer, n)
    requires p in peer.sent && Opens(n.session.receiver, p)
    ensures var n' := Handled(n, p, now);
      Direction(n', peer) && Direction(peer, n')
  {
    DispatchMoves(n.session.(receiver := Opened(n.session.receiver, p)), p, now);
    assert p.epoch <= peer.session.sender.epoch;
    assert p.body.KeyUpdateAck? ==> p.body.payload.next <= peer.session.receiver.current.epoch;
  }

  /** One step of either end keeps the whole invariant. */
  lemma {:induction false} StepKeeps(n: Node, peer: Node, action: Action)
    requires Local(n) && Local(peer) && Direction(n, peer) && Direction(peer, n)
    ensures var n' := Act(n, peer.sent, action);
      Local(n') && Direction(n', peer) && Direction(peer, n')
  {
    match action
    case Pass(now) => MaintainKeeps(n, now); MaintainMoves(n.session, now);
    case SendData(datagram, _) => SealKeeps(n, Data(datagram));
    case Probe(token) => SealKeeps(n, PathChallenge(token));
    case Deliver(p, now, bound) =>
      if p in peer.sent && Opens(n.session.receiver, p) && (p.body.Data? ==> bound) {
        HandledKeeps(n, p, now);
        HandledDirections(n, peer, p, now);
      }
  }

  /** In every reachable state of every run both directions satisfy the invariant. */
  lemma {:induction false} EveryRunKeepsInvariant(id: nat, nowA: nat, nowB: nat, events: seq<Event>)
    ensures Invariant(Run(Start(id, nowA, nowB), events))
  {
    var y := Start(id, nowA, nowB);
    if events == [] {
      assert Sequences([], 0) == {};
    } else {
      var prefix := events[..|events| - 1];
      EveryRunKeepsInvariant(id, nowA, nowB, prefix);
      var z := Run(y, prefix);
      match events[|events| - 1]
      case AtA(action) => StepKeeps(z.a, z.b, action);
      case AtB(action) => StepKeeps(z.b, z.a, action);
    }
  }

  /** One direction: epochs at most one apart, no nonce used for two packets, no packet accepted twice. */
  ghost predicate OneWaySafe(from: Node, to: Node) {
    var s, r := from.session.sender.epoch, to.session.receiver.current.epoch;
    && s <= r <= s + 1
    && (forall p, q :: p in from.sent && q in from.sent && p.epoch == q.epoch && p.sequence == q.sequence ==> p == q)
    && (forall i, j :: 0 <= i < j < |to.accepted| ==> to.accepted[i] != to.accepted[j])
  }

  /** Both directions are safe in every reachable state, whatever the network loses, repeats or reorders. */
  lemma {:induction false} EpochsStayAdjacent(id: nat, nowA: nat, nowB: nat, events: seq<Event>)
    ensures var y := Run(Start(id, nowA, nowB), events);
      OneWaySafe(y.a, y.b) && OneWaySafe(y.b, y.a)
  {
    EveryRunKeepsInvariant(id, nowA, nowB, events);
  }

  /**
   Exactly when the next packet the sender seals can be opened: its epoch is the
   receiver's current one, or the previous one that is still retained, and its
   sequence is admissible after what the receiver accepted in that epoch.
   */
  ghost predicate OpensExactly(s: Node, r: Node, body: Body)
    requires s.session.sender.nextSequence < U64_MAX
  {
    var p := Seal(s.session, body).value.1;
    Opens(r.session.receiver, p) <==>
      && (p.epoch == r.session.receiver.current.epoch || r.session.receiver.previous.Some?)
      && Admissible(Sequences(r.accepted, p.epoch), p.sequence)
  }

  /** So it is in both directions, in every reachable state. */
  lemma {:induction false} NextPacketOpens(id: nat, nowA: nat, nowB: nat, events: seq<Event>, body: Body)
    ensures var y := Run(Start(id, nowA, nowB), events);
      && (y.a.session.sender.nextSequence < U64_MAX ==> OpensExactly(y.a, y.b, body))
      && (y.b.session.sender.nextSequence < U64_MAX ==> OpensExactly(y.b, y.a, body))
  {
    EveryRunKeepsInvariant(id, nowA, nowB, events);
    var y := Run(Start(id, nowA, nowB), events);
    if y.a.session.sender.nextSequence < U64_MAX { DirectionOpens(y.a, y.b, body); }
    if y.b.session.sender.nextSequence < U64_MAX { DirectionOpens(y.b, y.a, body); }
  }

  lemma {:induction false} DirectionOpens(s: Node, r: Node, body: Body)
    requires Local(s) && Local(r) && Direction(s, r) && s.session.sender.nextSequence < U64_MAX
    ensures OpensExactly(s, r, body)
  {
    var p := Seal(s.session, body).value.1;
    SummaryAccepts(Sequences(r.accepted, p.epoch), p.sequence);
  }

  // ----- a rotation whose acknowledgement was lost -----

  /**
   While the previous epoch is retained, a lagging sender catches up: a fresh
   key update that opens is acknowledged again, and that acknowledgement, once
   opened by the sender, rotates it level with the receiver.
   */
  lemma {:induction false} LaggingSenderCatchesUp(s: Node, r: Node, p: Packet, now: nat, later: nat)
    requires Local(s) && Local(r) && Direction(s, r) && Direction(r, s)
    requires s.session.outbound.Some? && s.session.outbound.value.packet == p
    requires p.epoch == s.session.sender.epoch && p.body.KeyUpdate?
    requires r.session.receiver.current.epoch == p.epoch + 1
    requires Opens(r.session.receiver, p) && r.session.sender.nextSequence < U64_MAX
    ensures var r' := Act(r, s.sent, Deliver(p, now, true));
      var ack := Packet(r.session.sender.epoch, r.session.sender.nextSequence, KeyUpdateAck(p.body.payload));
      && ack in r'.sent && r'.session.receiver.current.epoch == p.epoch + 1
      && (Opens(s.session.receiver, ack) ==>
            Act(s, r'.sent, Deliver(ack, later, true)).session.sender.epoch == p.epoch + 1)
  {
    var m0 := r.session.(receiver := Opened(r.session.receiver, p));
    var (_, reply) := HandleKeyUpdate(m0, p.body.payload, p.epoch, now);
    assert reply.Some?;
    var ack := reply.value;
    if Opens(s.session.receiver, ack) {
      var m := s.session.(receiver := Opened(s.session.receiver, ack));
      assert HandleKeyUpdateAck(m, p.body.payload, later).sender.epoch == p.epoch + 1;
    }
  }

  /** A packet that was accepted never opens again, whichever epoch the receiver is in by now. */
  lemma {:induction false} AcceptedNeverOpens(r: Node, i: nat)
    requires Local(r) && i < |r.accepted|
    ensures !Opens(r.session.receiver, r.accepted[i])
  {
    var p := r.accepted[i];
    assert p.sequence in Sequences(r.accepted, p.epoch);
    SummaryAccepts(Sequences(r.accepted, p.epoch), p.sequence);
  }

  /**
   In every run, delivering an accepted packet once more changes nothing. So a
   retransmitted key update, which is the same packet, is never acknowledged again:
   when the acknowledgement is lost, only a fresh update can help.
   */
  lemma {:induction false} RetransmissionIsIgnored(id: nat, nowA: nat, nowB: nat, events: seq<Event>, i: nat, now: nat, bound: bool)
    ensures var y := Run(Start(id, nowA, nowB), events);
      && (i < |y.b.accepted| ==> Apply(y, AtB(Deliver(y.b.accepted[i], now, bound))) == y)
      && (i < |y.a.accepted| ==> Apply(y, AtA(Deliver(y.a.accepted[i], now, bound))) == y)
  {
    EveryRunKeepsInvariant(id, nowA, nowB, events);
    var y := Run(Start(id, nowA, nowB), events);
    if i < |y.b.accepted| { AcceptedNeverOpens(y.b, i); }
    if i < |y.a.accepted| { AcceptedNeverOpens(y.a, i); }
  }

  /** No event hands an acknowledgement to end `a`. */
  predicate NoAckToA(events: seq<Event>) {
    forall e :: e in events && e.AtA? && e.action.Deliver? ==> !e.action.packet.body.KeyUpdateAck?
  }

  /** The receiver is ahead of the sender and has forgotten the sender's epoch. */
  ghost predicate Silent(s: Node, r: Node) {
    r.session.receiver.current.epoch == s.session.sender.epoch + 1 && r.session.receiver.previous.None?
  }

  lemma {:induction false} SilentReceiverStays(n: Node, peer: Node, action: Action)
    requires Local(n) && Local(peer) && Direction(n, peer) && Direction(peer, n) && Silent(peer, n)
    ensures var n' := Act(n, peer.sent, action);
      Silent(peer, n') && n'.accepted == n.accepted
  {
    if action.Pass? { MaintainMoves(n.session, action.now); }
  }

  lemma {:induction false} SilentSenderStays(n: Node, peer: Node, action: Action)
    requires Local(n) && Silent(n, peer)
    requires action.Deliver? ==> !action.packet.body.KeyUpdateAck?
    ensures Silent(Act(n, peer.sent, action), peer)
  {
    match action
    case Pass(now) => MaintainMoves(n.session, now);
    case Deliver(p, now, bound) =>
      if Opens(n.session.receiver, p) {
        DispatchMoves(n.session.(receiver := Opened(n.session.receiver, p)), p, now);
      }
    case _ =>
  }

  /**
   Once the previous epoch has been retired while the sender lags, nothing the
   sender emits is ever accepted again unless an acknowledgement still reaches
   it: the retransmissions and the new key updates are all unreadable.
   */
  lemma {:induction false} RetiredWhileLaggingIsSilent(y: System, events: seq<Event>)
    requires Invariant(y) && NoAckToA(events) && Silent(y.a, y.b)
    ensures var z := Run(y, events);
      Invariant(z) && Silent(z.a, z.b) && z.b.accepted == y.b.accepted
  {
    if events != [] {
      var prefix, last := events[..|events| - 1], events[|events| - 1];
      assert last in events && forall e :: e in prefix ==> e in events;
      RetiredWhileLaggingIsSilent(y, prefix);
      var z := Run(y, prefix);
      match last
      case AtA(action) =>
        StepKeeps(z.a, z.b, action);
        SilentSenderStays(z.a, z.b, action);
      case AtB(action) =>
        StepKeeps(z.b, z.a, action);
        SilentReceiverStays(z.b, z.a, action);
    }
  }

  /** Such a state is reachable: one rotation, its acknowledgement lost for the whole retention time. */
  lemma {:induction false} RetiredWhileLaggingIsReachable(id: nat)
    ensures exists events ::
      var y := Run(Start(id, 0, 0), events);
      Silent(y.a, y.b)
  {
    var update := Packet(0, 0, KeyUpdate(UpdatePayload(id, 0, 1)));
    var rotate, deliver, retire := AtA(Pass(KEY_UPDATE_INTERVAL)), AtB(Deliver(update, KEY_UPDATE_INTERVAL, true)),
      AtB(Pass(KEY_UPDATE_INTERVAL + PREVIOUS_EPOCH_RETENTION));
    var y0 := Start(id, 0, 0);
    var y1 := Apply(y0, rotate);
    assert y1.a.sent == {update};
    var y2 := Apply(y1, deliver);
    assert y2.b.session.receiver.current.epoch == 1;
    var y3 := Apply(y2, retire);
    assert Silent(y3.a, y3.b);
    RunStep(y0, [], rotate);
    RunStep(y0, [rotate], deliver);
    RunStep(y0, [rotate, deliver], retire);
    assert [] + [rotate] == [rotate];
    assert [rotate] + [deliver] == [rotate, deliver];
    var events := [rotate, deliver] + [retire];
    assert Run(y0, events) == y3;
  }

  lemma {:induction false} RunStep(y: System, events: seq<Event>, e: Event)
    ensures Run(y, events + [e]) == Apply(Run(y, events), e)
  {
    assert (events + [e])[..|events|] == events;
  }
}
