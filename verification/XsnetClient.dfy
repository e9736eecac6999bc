/**
 The single-flight xsnet request protocol: one request at a time, a sequence that
 advances only with a committed success, and a handle that is given up after an
 outcome whose commit is unknown. The transport is an oracle that may answer anything.
 */
module XsnetClient {
  import opened Prelude
  import opened Bytes
  import opened XsnetCodec

  datatype MessageKind = Hello | Attach | SetLink | TransmitBatch | ReceiveBatch | Detach {
    function Code(): nat {
      match this
      case Hello => 1 case Attach => 2 case SetLink => 3
      case TransmitBatch => TRANSMIT_BATCH case ReceiveBatch => 5 case Detach => 6
    }
  }

  // The control codes of the driver are built as in the original: device type, access, function, method.
  const DEVICE_TYPE: nat := 0x8337
  const IOCTL_ACCESS: nat := 3
  const BUFFERED: nat := 0
  const IN_DIRECT: nat := 1
  const OUT_DIRECT: nat := 2

  function CtlCode(operation: nat, transfer: nat): nat {
    DEVICE_TYPE * 0x1_0000 + IOCTL_ACCESS * 0x4000 + operation * 4 + transfer
  }

  function IoctlFor(kind: MessageKind): nat {
    match kind
    case Hello => CtlCode(0x800, BUFFERED)
    case Attach => CtlCode(0x801, BUFFERED)
    case SetLink => CtlCode(0x802, BUFFERED)
    case TransmitBatch => CtlCode(0x803, OUT_DIRECT)
    case ReceiveBatch => CtlCode(0x804, IN_DIRECT)
    case Detach => CtlCode(0x805, BUFFERED)
  }

  /** A control code tells the kind of message: its function counts as the message code does, and only batches are not buffered. */
  lemma {:induction false} IoctlTellsKind(kind: MessageKind)
    ensures var code := IoctlFor(kind);
      && code / 0x1_0000 == 0x8337 && code / 0x4000 % 4 == 3
      && code / 4 % 0x1000 == 0x7FF + kind.Code()
      && (code % 4 == BUFFERED <==> !kind.TransmitBatch? && !kind.ReceiveBatch?)
      && (code % 4 == OUT_DIRECT <==> kind.TransmitBatch?)
  {
  }

  datatype ClientState = Opened | Negotiated | Attached | LinkUp | ReconnectRequired

  datatype ClientError =
    BadState | RequestActive | CompletionMismatch | SequenceExhausted | InvalidPacket | InvalidResponse

  datatype Request = Request(
    ioctl: nat,
    sequence: nat,
    kind: MessageKind,
    transition: ClientState,
    bufferedInput: Bytes,
    directInput: Bytes,
    outputCapacity: nat)

  datatype Pending = Pending(sequence: nat, kind: MessageKind, transition: ClientState)

  datatype TransportOutcome = Success(response: Bytes) | Rejected(status: nat) | Indeterminate

  datatype ExecutionError = Client(error: ClientError) | DriverRejected(status: nat) | MustReconnect

  function AttachPayload(mtu: nat, transmitDepth: nat, receiveDepth: nat): (p: Bytes)
    ensures |p| == 16
  {
    Little(mtu, 4) + Little(transmitDepth, 2) + Little(receiveDepth, 2) + Little(CAPABILITY_IPV4, 4) + Little(0, 4)
  }

  datatype Limits = Limits(mtu: nat, transmitDepth: nat, receiveDepth: nat)

  /** The limits carried by an attach message, read back at offset 32. */
  function AttachLimits(message: Bytes): Option<Limits> {
    var mtu, t, v := ReadLittle(message, HEADER_SIZE, 4), ReadLittle(message, HEADER_SIZE + 4, 2),
      ReadLittle(message, HEADER_SIZE + 6, 2);
    if mtu.Some? && t.Some? && v.Some? then Some(Limits(mtu.value, t.value, v.value)) else None
  }

  lemma {:induction false} AttachParts(mtu: nat, t: nat, v: nat)
    ensures var p := AttachPayload(mtu, t, v);
      && p[0..4] == Little(mtu, 4) && p[4..6] == Little(t, 2) && p[6..8] == Little(v, 2)
      && p[8..12] == Little(CAPABILITY_IPV4, 4) && p[12..16] == Little(0, 4)
  {
    var a, b, c, d, e := Little(mtu, 4), Little(t, 2), Little(v, 2), Little(CAPABILITY_IPV4, 4), Little(0, 4);
    FourParts(a, b, c, d);
    var x := a + b + c + d;
    assert AttachPayload(mtu, t, v) == x + e;
    InFirst(x, e, 0, 4);
    InFirst(x, e, 4, 6);
    InFirst(x, e, 6, 8);
    InFirst(x, e, 8, 12);
    InSecond(x, e, 0, 4);
  }

  lemma {:induction false} AttachLimitsReadBack(sequence: nat, mtu: nat, t: nat, v: nat)
    requires ValidLimits(mtu, t, v)
    ensures var m := Message(2, sequence, AttachPayload(mtu, t, v));
      && AttachLimits(m) == Some(Limits(mtu, t, v))
      && ReadLittle(m, HEADER_SIZE + 8, 4) == Some(CAPABILITY_IPV4) && ReadLittle(m, HEADER_SIZE + 12, 4) == Some(0)
  {
    var p := AttachPayload(mtu, t, v);
    PowerValues();
    AttachParts(mtu, t, v);
    PayloadReads(2, sequence, p, 0, mtu, 4);
    PayloadReads(2, sequence, p, 4, t, 2);
    PayloadReads(2, sequence, p, 6, v, 2);
    PayloadReads(2, sequence, p, 8, CAPABILITY_IPV4, 4);
    PayloadReads(2, sequence, p, 12, 0, 4);
  }

  function HelloPayload(): (p: Bytes)
    ensures |p| == 16
  {
    Little(XSNET_ABI_VERSION, 2) + Little(XSNET_ABI_VERSION, 2) + Little(CAPABILITY_IPV4, 4) + Little(0, 8)
  }

  /** The lowest and highest version, the capability, and nothing else. */
  predicate HelloFields(message: Bytes) {
    && ReadLittle(message, HEADER_SIZE, 2) == Some(1) && ReadLittle(message, HEADER_SIZE + 2, 2) == Some(1)
    && ReadLittle(message, HEADER_SIZE + 4, 4) == Some(1) && ReadLittle(message, HEADER_SIZE + 8, 8) == Some(0)
  }

  lemma {:induction false} FourParts(a: Bytes, b: Bytes, c: Bytes, d: Bytes)
    ensures var p, i, j, k := a + b + c + d, |a|, |a| + |b|, |a| + |b| + |c|;
      p[0..i] == a && p[i..j] == b && p[j..k] == c && p[k..k + |d|] == d
  {
  }

  lemma {:induction false} InFirst(x: Bytes, y: Bytes, i: nat, j: nat)
    requires i <= j <= |x|
    ensures (x + y)[i..j] == x[i..j]
  {
  }

  lemma {:induction false} InSecond(x: Bytes, y: Bytes, i: nat, j: nat)
    requires i <= j <= |y|
    ensures (x + y)[|x| + i..|x| + j] == y[i..j]
  {
  }

  lemma {:induction false} Regrouped(x: Bytes, y: Bytes, z: Bytes)
    ensures x + y + z == x + (y + z)
  {
  }

  lemma {:induction false} Halves(x: Bytes, e: Bytes, f: Bytes, g: Bytes, h: Bytes)
    ensures x + e + f + g + h == x + (e + f + g + h)
  {
    Regrouped(x, e, f);
    Regrouped(x, e + f, g);
    Regrouped(x, e + f + g, h);
  }

  lemma {:induction false} EightParts(a: Bytes, b: Bytes, c: Bytes, d: Bytes, e: Bytes, f: Bytes, g: Bytes, h: Bytes)
    ensures var p, n := a + b + c + d + e + f + g + h, |a| + |b| + |c| + |d|;
      && p[0..|a|] == a && p[|a|..|a| + |b|] == b && p[|a| + |b|..|a| + |b| + |c|] == c && p[|a| + |b| + |c|..n] == d
      && p[n..n + |e|] == e && p[n + |e|..n + |e| + |f|] == f && p[n + |e| + |f|..n + |e| + |f| + |g|] == g
      && p[n + |e| + |f| + |g|..n + |e| + |f| + |g| + |h|] == h
  {
    FourParts(a, b, c, d);
    FourParts(e, f, g, h);
    var x, y := a + b + c + d, e + f + g + h;
    Halves(x, e, f, g, h);
    InFirst(x, y, 0, |a|);
    InFirst(x, y, |a|, |a| + |b|);
    InFirst(x, y, |a| + |b|, |a| + |b| + |c|);
    InFirst(x, y, |a| + |b| + |c|, |x|);
    InSecond(x, y, 0, |e|);
    InSecond(x, y, |e|, |e| + |f|);
    InSecond(x, y, |e| + |f|, |e| + |f| + |g|);
    InSecond(x, y, |e| + |f| + |g|, |y|);
  }

  lemma {:induction false} HelloParts()
    ensures var p := HelloPayload();
      p[0..2] == Little(XSNET_ABI_VERSION, 2) == p[2..4] && p[4..8] == Little(CAPABILITY_IPV4, 4) && p[8..16] == Little(0, 8)
  {
    FourParts(Little(XSNET_ABI_VERSION, 2), Little(XSNET_ABI_VERSION, 2), Little(CAPABILITY_IPV4, 4), Little(0, 8));
  }

  lemma {:induction false} HelloReads(sequence: nat)
    ensures HelloFields(Message(1, sequence, HelloPayload()))
  {
    var p := HelloPayload();
    PowerValues();
    HelloParts();
    PayloadReads(1, sequence, p, 0, XSNET_ABI_VERSION, 2);
    PayloadReads(1, sequence, p, 2, XSNET_ABI_VERSION, 2);
    PayloadReads(1, sequence, p, 4, CAPABILITY_IPV4, 4);
    PayloadReads(1, sequence, p, 8, 0, 8);
  }

  function LinkPayload(up: bool): (p: Bytes)
    ensures |p| == 8
  {
    Little(if up then 1 else 0, 4) + Little(0, 4)
  }

  lemma {:induction false} LinkReads(sequence: nat, up: bool)
    ensures var m := Message(3, sequence, LinkPayload(up));
      ReadLittle(m, HEADER_SIZE, 4) == Some(if up then 1 else 0) && ReadLittle(m, HEADER_SIZE + 4, 4) == Some(0)
  {
    var p := LinkPayload(up);
    PowerValues();
    InFirst(Little(if up then 1 else 0, 4), Little(0, 4), 0, 4);
    InSecond(Little(if up then 1 else 0, 4), Little(0, 4), 0, 4);
    PayloadReads(3, sequence, p, 0, if up then 1 else 0, 4);
    PayloadReads(3, sequence, p, 4, 0, 4);
  }

  /** `m` carries a message of this code, sequence and payload length: every field of the header reads back. */
  predicate HeaderReads(m: Bytes, code: nat, sequence: nat, length: nat) {
    && |m| == HEADER_SIZE + length
    && ReadLittle(m, 0, 4) == Some(ABI_MAGIC) && ReadLittle(m, 4, 2) == Some(XSNET_ABI_VERSION)
    && ReadLittle(m, 6, 2) == Some(HEADER_SIZE) && ReadLittle(m, 8, 4) == Some(code)
    && ReadLittle(m, 12, 4) == Some(0) && ReadLittle(m, 16, 4) == Some(length)
    && ReadLittle(m, 20, 4) == Some(0) && ReadLittle(m, 24, 8) == Some(sequence)
  }

  lemma {:induction false} FieldReads(h: Bytes, payload: Bytes, offset: nat, n: nat, k: nat)
    requires offset + k <= |h| && h[offset..offset + k] == Little(n, k) && n < Pow256(k)
    ensures ReadLittle(h + payload, offset, k) == Some(n)
  {
    assert (h + payload)[offset..offset + k] == h[offset..offset + k];
    ReadBack(h + payload, offset, n, k);
  }

  /** Where the fields of a header stand. */
  lemma {:induction false} HeaderFields(code: nat, length: nat, sequence: nat)
    ensures var h := Header(code, length, sequence);
      && h[0..4] == Little(ABI_MAGIC, 4) && h[4..6] == Little(XSNET_ABI_VERSION, 2) && h[6..8] == Little(HEADER_SIZE, 2)
      && h[8..12] == Little(code, 4) && h[12..16] == Little(0, 4) && h[16..20] == Little(length, 4)
      && h[20..24] == Little(0, 4) && h[24..32] == Little(sequence, 8)
  {
    EightParts(Little(ABI_MAGIC, 4), Little(XSNET_ABI_VERSION, 2), Little(HEADER_SIZE, 2), Little(code, 4),
               Little(0, 4), Little(length, 4), Little(0, 4), Little(sequence, 8));
  }

  lemma {:induction false} MessageReads(code: nat, sequence: nat, payload: Bytes)
    requires code <= U32_MAX && sequence <= U64_MAX && |payload| <= MAX_PAYLOAD
    ensures HeaderReads(Message(code, sequence, payload), code, sequence, |payload|)
    ensures Message(code, sequence, payload)[HEADER_SIZE..] == payload
  {
    var h := Header(code, |payload|, sequence);
    PowerValues();
    HeaderFields(code, |payload|, sequence);
    FieldReads(h, payload, 0, ABI_MAGIC, 4);
    FieldReads(h, payload, 4, XSNET_ABI_VERSION, 2);
    FieldReads(h, payload, 6, HEADER_SIZE, 2);
    FieldReads(h, payload, 8, code, 4);
    FieldReads(h, payload, 12, 0, 4);
    FieldReads(h, payload, 16, |payload|, 4);
    FieldReads(h, payload, 20, 0, 4);
    FieldReads(h, payload, 24, sequence, 8);
  }

  /** An integer of the payload reads back from the message. */
  lemma {:induction false} PayloadReads(code: nat, sequence: nat, payload: Bytes, offset: nat, n: nat, k: nat)
    requires offset + k <= |payload| && payload[offset..offset + k] == Little(n, k) && n < Pow256(k)
    ensures ReadLittle(Message(code, sequence, payload), HEADER_SIZE + offset, k) == Some(n)
  {
    var m := Message(code, sequence, payload);
    assert m[HEADER_SIZE..] == payload;
    assert m[HEADER_SIZE + offset..HEADER_SIZE + offset + k] == m[HEADER_SIZE..][offset..offset + k];
    ReadBack(m, HEADER_SIZE + offset, n, k);
  }

  /** The message of a request; only received batches travel by direct input. */
  function MessageOf(r: Request): Bytes {
    if r.kind.ReceiveBatch? then r.directInput else r.bufferedInput
  }

  /** A request of this code, whose message reads back, with nothing in the other buffer. */
  predicate Carries(r: Request, code: nat, length: nat) {
    && HeaderReads(MessageOf(r), code, r.sequence, length) && r.ioctl == IoctlFor(r.kind)
    && (if r.kind.ReceiveBatch? then r.bufferedInput else r.directInput) == []
    && (!r.kind.TransmitBatch? ==> r.outputCapacity == 0)
  }

  /** Why a request is refused: an active one, the wrong state, bad arguments, or no sequence left, in this order. */
  function Refusal(active: bool, rightState: bool, goodInput: bool): ClientError {
    if active then RequestActive else if !rightState then BadState else if !goodInput then InvalidPacket else SequenceExhausted
  }

  /** What every `prepare` method builds; only such requests exist, possibly made by another client. */
  ghost predicate Genuine(r: Request) {
    && 1 <= r.sequence < U64_MAX
    && (r.kind.Attach? ==> AttachLimits(r.bufferedInput).Some? && InRange(AttachLimits(r.bufferedInput).value))
  }

  predicate InRange(limits: Limits) {
    ValidLimits(limits.mtu, limits.transmitDepth, limits.receiveDepth)
  }

  // ----- the history of a handle -----

  datatype Fate = Committed | Refused | Unknown

  datatype Exchange = Exchange(sequence: nat, fate: Fate)

  function Following(log: seq<Exchange>): nat {
    if log == [] then 1
    else
      var last := log[|log| - 1];
      last.sequence + if last.fate.Committed? then 1 else 0
  }

  /** Each request repeats a refused sequence or follows a committed one; nothing follows an unknown outcome. */
  ghost predicate Disciplined(log: seq<Exchange>) {
    forall i :: 0 <= i < |log| ==>
      log[i].sequence == Following(log[..i]) && (i + 1 < |log| ==> !log[i].fate.Unknown?)
  }

  lemma {:induction false} DisciplineExtends(log: seq<Exchange>, e: Exchange)
    requires Disciplined(log) && e.sequence == Following(log)
    requires log != [] ==> !log[|log| - 1].fate.Unknown?
    ensures Disciplined(log + [e])
  {
    var longer := log + [e];
    forall i | 0 <= i < |longer|
      ensures longer[i].sequence == Following(longer[..i]) && (i + 1 < |longer| ==> !longer[i].fate.Unknown?)
    {
      assert longer[..i] == log[..i];
      if i == |log| { assert log[..i] == log; }
    }
  }

  /** The history behind a client's next sequence and its being given up. */
  ghost predicate Ledger(log: seq<Exchange>, next: nat, givenUp: bool) {
    && Disciplined(log) && next == Following(log)
    && (givenUp <==> log != [] && log[|log| - 1].fate.Unknown?)
  }

  lemma {:induction false} LedgerExtends(log: seq<Exchange>, next: nat, fate: Fate)
    requires Ledger(log, next, false)
    ensures Ledger(log + [Exchange(next, fate)], next + (if fate.Committed? then 1 else 0), fate.Unknown?)
  {
    DisciplineExtends(log, Exchange(next, fate));
  }

  /** Over a whole history: sequences start at one, never decrease, and committed ones are pairwise different. */
  lemma {:induction false} CommittedSequencesIncrease(log: seq<Exchange>, i: nat, j: nat)
    requires Disciplined(log) && i < j < |log|
    ensures 1 <= log[i].sequence <= log[j].sequence
    ensures log[i].fate.Committed? ==> log[i].sequence < log[j].sequence
    decreases j
  {
    assert log[j].sequence == Following(log[..j]);
    assert log[..j][|log[..j]| - 1] == log[j - 1];
    if i < j - 1 {
      CommittedSequencesIncrease(log, i, j - 1);
    } else {
      FirstIsOne(log, i);
    }
  }

  lemma {:induction false} FirstIsOne(log: seq<Exchange>, i: nat)
    requires Disciplined(log) && i < |log|
    ensures log[i].sequence >= 1
  {
    if i > 0 {
      FirstIsOne(log, i - 1);
      assert log[..i][|log[..i]| - 1] == log[i - 1];
    }
  }

  /** Which requests may be active in which state, and where they lead. */
  predicate Allowed(state: ClientState, kind: MessageKind, transition: ClientState) {
    match kind
    case Hello => state.Opened? && transition.Negotiated?
    case Attach => state.Negotiated? && transition.Attached?
    case SetLink => (state.Attached? || state.LinkUp?) && (transition.Attached? || transition.LinkUp?)
    case TransmitBatch => state.LinkUp? && transition.LinkUp?
    case ReceiveBatch => state.LinkUp? && transition.LinkUp?
    case Detach => (state.Negotiated? || state.Attached? || state.LinkUp?) && transition.Negotiated?
  }

  /** A successful attach puts its limits in force, a detach lifts them, nothing else changes them. */
  function LimitsAfter(r: Request, before: Limits): Limits {
    if r.kind.Attach? then
      (if AttachLimits(r.bufferedInput).Some? then AttachLimits(r.bufferedInput).value else before)
    else if r.kind.Detach? then Limits(0, 0, 0) else before
  }

  /** Limits are in force exactly while attached. */
  predicate LimitsFit(state: ClientState, limits: Limits) {
    && (state.Opened? || state.Negotiated? ==> limits == Limits(0, 0, 0))
    && (state.Attached? || state.LinkUp? ==> InRange(limits))
  }

  lemma {:induction false} CommitFits(state: ClientState, kind: MessageKind, transition: ClientState, before: Limits, limits: Limits)
    requires Allowed(state, kind, transition) && LimitsFit(state, before)
    requires kind.Attach? ==> InRange(limits)
    requires kind.Detach? ==> limits == Limits(0, 0, 0)
    requires !kind.Attach? && !kind.Detach? ==> limits == before
    ensures LimitsFit(transition, limits) && !transition.ReconnectRequired?
  {
  }

  class Client {
    var state: ClientState
    var nextSequence: nat
    var pending: Option<Pending>
    var mtu: nat
    var transmitDepth: nat
    var receiveDepth: nat
    ghost var log: seq<Exchange>

    ghost predicate Valid()
      reads this
    {
      && LimitsFit(state, Limits(mtu, transmitDepth, receiveDepth))
      && (pending.Some? ==> nextSequence < U64_MAX && pending.value.sequence == nextSequence
                            && Allowed(state, pending.value.kind, pending.value.transition))
      && 1 <= nextSequence <= U64_MAX
      && Ledger(log, nextSequence, state.ReconnectRequired?)
    }

    constructor ()
      ensures Valid() && state == Opened && nextSequence == 1 && pending == None && log == []
    {
      state, nextSequence, pending, mtu, transmitDepth, receiveDepth := Opened, 1, None, 0, 0, 0;
      log := [];
    }

    /** No request is active and the state is one of `allowed`. */
    function RequireState(allowed: set<ClientState>): Option<ClientError>
      reads this
    {
      if pending.Some? then Some(RequestActive) else if state !in allowed then Some(BadState) else None
    }

    method Prepare(kind: MessageKind, payload: Bytes, capacity: nat, transition: ClientState)
      returns (r: Result<Request, ClientError>)
      requires Valid() && pending.None? && Allowed(state, kind, transition)
      requires kind.TransmitBatch? || capacity == 0
      requires kind.Attach? && nextSequence < U64_MAX ==>
        var limits := AttachLimits(Message(kind.Code(), nextSequence, payload));
        limits.Some? && InRange(limits.value)
      modifies this`pending
      ensures Valid()
      ensures r == if nextSequence == U64_MAX then Failure(SequenceExhausted)
                   else if |payload| > MAX_PAYLOAD then Failure(InvalidPacket)
                   else Result.Success(Request(IoctlFor(kind), nextSequence, kind, transition,
                     if kind.ReceiveBatch? then [] else Message(kind.Code(), nextSequence, payload),
                     if kind.ReceiveBatch? then Message(kind.Code(), nextSequence, payload) else [], capacity))
      ensures r.Success? ==> Genuine(r.value) && Carries(r.value, kind.Code(), |payload|) && MessageOf(r.value)[HEADER_SIZE..] == payload
      ensures pending == if r.Success? then Some(Pending(nextSequence, kind, transition)) else None
    {
      if nextSequence == U64_MAX {
        return Failure(SequenceExhausted);
      }
      if |payload| > MAX_PAYLOAD {
        return Failure(InvalidPacket);
      }
      var message := Message(kind.Code(), nextSequence, payload);
      MessageReads(kind.Code(), nextSequence, payload);
      pending := Some(Pending(nextSequence, kind, transition));
      return Result.Success(Request(IoctlFor(kind), nextSequence, kind, transition,
        if kind.ReceiveBatch? then [] else message, if kind.ReceiveBatch? then message else [], capacity));
    }

    method PrepareHello() returns (r: Result<Request, ClientError>)
      requires Valid()
      modifies this`pending
      ensures Valid()
      ensures r.Success? <==> old(pending).None? && state.Opened? && nextSequence < U64_MAX
      ensures r.Success? ==> Genuine(r.value) && r.value.kind.Hello? && Matches(r.value)
      ensures r.Success? ==> Carries(r.value, 1, 16)
      ensures r.Success? ==> HelloFields(r.value.bufferedInput)
      ensures r.Failure? ==> pending == old(pending) && r.error == Refusal(old(pending).Some?, state.Opened?, true)
    {
      var e := RequireState({Opened});
      if e.Some? {
        return Failure(e.value);
      }
      HelloReads(nextSequence);
      r := Prepare(Hello, HelloPayload(), 0, Negotiated);
    }

    method PrepareAttach(m: nat, t: nat, v: nat) returns (r: Result<Request, ClientError>)
      requires Valid()
      modifies this`pending
      ensures Valid()
      ensures r.Success? <==> old(pending).None? && state.Negotiated? && ValidLimits(m, t, v) && nextSequence < U64_MAX
      ensures r.Success? ==> Genuine(r.value) && r.value.kind.Attach? && Matches(r.value) && AttachLimits(r.value.bufferedInput) == Some(Limits(m, t, v))
      ensures r.Success? ==> Carries(r.value, 2, 16) && ReadLittle(r.value.bufferedInput, HEADER_SIZE + 8, 4) == Some(1) && ReadLittle(r.value.bufferedInput, HEADER_SIZE + 12, 4) == Some(0)
      ensures r.Failure? ==> pending == old(pending) && r.error == Refusal(old(pending).Some?, state.Negotiated?, ValidLimits(m, t, v))
    {
      var e := RequireState({Negotiated});
      if e.Some? {
        return Failure(e.value);
      }
      if !ValidLimits(m, t, v) {
        return Failure(InvalidPacket);
      }
      AttachLimitsReadBack(nextSequence, m, t, v);
      r := Prepare(Attach, AttachPayload(m, t, v), 0, Attached);
    }

    method PrepareSetLink(up: bool) returns (r: Result<Request, ClientError>)
      requires Valid()
      modifies this`pending
      ensures Valid()
      ensures r.Success? <==> old(pending).None? && (state.Attached? || state.LinkUp?) && nextSequence < U64_MAX
      ensures r.Success? ==> Genuine(r.value) && r.value.kind.SetLink? && Matches(r.value)
                             && r.value.transition == if up then LinkUp else Attached
      ensures r.Success? ==> Carries(r.value, 3, 8)
      ensures r.Success? ==>
        && ReadLittle(r.value.bufferedInput, HEADER_SIZE, 4) == Some(if up then 1 else 0)
        && ReadLittle(r.value.bufferedInput, HEADER_SIZE + 4, 4) == Some(0)
      ensures r.Failure? ==> pending == old(pending) && r.error == Refusal(old(pending).Some?, state.Attached? || state.LinkUp?, true)
    {
      var e := RequireState({Attached, LinkUp});
      if e.Some? {
        return Failure(e.value);
      }
      LinkReads(nextSequence, up);
      r := Prepare(SetLink, LinkPayload(up), 0, if up then LinkUp else Attached);
    }

    method PrepareTransmit(capacity: nat) returns (r: Result<Request, ClientError>)
      requires Valid()
      modifies this`pending
      ensures Valid()
      ensures r.Success? <==> old(pending).None? && state.LinkUp? && HEADER_SIZE <= capacity <= HEADER_SIZE + MAX_PAYLOAD
                              && nextSequence < U64_MAX
      ensures r.Success? ==> Genuine(r.value) && r.value.kind.TransmitBatch? && Matches(r.value)
      ensures r.Success? ==> Carries(r.value, 4, 0) && r.value.outputCapacity == capacity
      ensures r.Failure? ==> pending == old(pending) && r.error == Refusal(old(pending).Some?, state.LinkUp?, HEADER_SIZE <= capacity <= HEADER_SIZE + MAX_PAYLOAD)
    {
      var e := RequireState({LinkUp});
      if e.Some? {
        return Failure(e.value);
      }
      if !(HEADER_SIZE <= capacity <= HEADER_SIZE + MAX_PAYLOAD) {
        return Failure(InvalidPacket);
      }
      r := Prepare(TransmitBatch, [], capacity, LinkUp);
    }

    method PrepareReceive(packets: seq<Bytes>) returns (r: Result<Request, ClientError>)
      requires Valid()
      modifies this`pending
      ensures Valid()
      ensures r.Success? <==> old(pending).None? && state.LinkUp? && ValidBatch(packets, mtu, receiveDepth) && nextSequence < U64_MAX
      ensures r.Success? ==> Genuine(r.value) && r.value.kind.ReceiveBatch? && Matches(r.value)
                             && r.value.directInput == Message(5, nextSequence, Batch(packets))
      ensures r.Success? ==> Carries(r.value, 5, |Batch(packets)|)
      ensures r.Failure? ==> pending == old(pending) && r.error == Refusal(old(pending).Some?, state.LinkUp?, ValidBatch(packets, mtu, receiveDepth))
    {
      var e := RequireState({LinkUp});
      if e.Some? {
        return Failure(e.value);
      }
      if |packets| > receiveDepth {
        return Failure(InvalidPacket);
      }
      var payload := EncodePacketBatch(packets, mtu);
      if payload.None? {
        return Failure(InvalidPacket);
      }
      ConcatBound(packets, mtu);
      r := Prepare(ReceiveBatch, payload.value, 0, LinkUp);
    }

    method PrepareDetach() returns (r: Result<Request, ClientError>)
      requires Valid()
      modifies this`pending
      ensures Valid()
      ensures r.Success? <==> old(pending).None? && (state.Negotiated? || state.Attached? || state.LinkUp?) && nextSequence < U64_MAX
      ensures r.Success? ==> Genuine(r.value) && r.value.kind.Detach? && Matches(r.value)
      ensures r.Success? ==> Carries(r.value, 6, 0)
      ensures r.Failure? ==> pending == old(pending) && r.error == Refusal(old(pending).Some?, state.Negotiated? || state.Attached? || state.LinkUp?, true)
    {
      var e := RequireState({Negotiated, Attached, LinkUp});
      if e.Some? {
        return Failure(e.value);
      }
      r := Prepare(Detach, [], 0, Negotiated);
    }

    predicate Matches(r: Request)
      reads this`pending
    {
      pending == Some(Pending(r.sequence, r.kind, r.transition))
    }

    /** The packets of a well-formed success response to `r`. */
    function ResponsePackets(r: Request, response: Bytes): Option<seq<Bytes>>
      reads this
    {
      if r.kind.TransmitBatch? then DecodeTransmitResponse(response, r.sequence, mtu, transmitDepth)
      else if response == [] then Some([]) else None
    }

    function InForce(): Limits
      reads this
    {
      Limits(mtu, transmitDepth, receiveDepth)
    }

    method CompleteSuccess(r: Request, response: Bytes) returns (packets: Result<seq<Bytes>, ClientError>)
      requires Valid() && Genuine(r)
      modifies this
      ensures Valid()
      // The overflow error that follows the clearing of `pending` cannot happen.
      ensures packets != Failure(SequenceExhausted)
      ensures packets.Success? <==> old(Matches(r)) && old(ResponsePackets(r, response)).Some?
      ensures packets.Success? ==>
        && Some(packets.value) == old(ResponsePackets(r, response))
        && pending.None? && state == r.transition && nextSequence == old(nextSequence) + 1
        && log == old(log) + [Exchange(r.sequence, Committed)]
        && InForce() == LimitsAfter(r, old(InForce()))
      ensures packets.Failure? ==> unchanged(this) && (old(Matches(r)) ==> packets == Failure(InvalidResponse))
    {
      if !Matches(r) {
        return Failure(CompletionMismatch);
      }
      var decoded := ResponsePackets(r, response);
      if decoded.None? {
        return Failure(InvalidResponse);
      }
      Commit(r.sequence, r.kind, r.transition, LimitsAfter(r, InForce()));
      return Result.Success(decoded.value);
    }

    /** The state change of a success. */
    method Commit(sequence: nat, kind: MessageKind, transition: ClientState, limits: Limits)
      requires Valid() && pending == Some(Pending(sequence, kind, transition))
      requires kind.Attach? ==> InRange(limits)
      requires kind.Detach? ==> limits == Limits(0, 0, 0)
      requires !kind.Attach? && !kind.Detach? ==> limits == InForce()
      modifies this
      ensures Valid() && pending.None? && state == transition && nextSequence == sequence + 1 && InForce() == limits
      ensures log == old(log) + [Exchange(sequence, Committed)]
    {
      LedgerExtends(log, nextSequence, Committed);
      CommitFits(state, kind, transition, InForce(), limits);
      pending, state := None, transition;
      mtu, transmitDepth, receiveDepth := limits.mtu, limits.transmitDepth, limits.receiveDepth;
      nextSequence := sequence + 1;
      log := log + [Exchange(sequence, Committed)];
    }

    method CompleteRejected(r: Request) returns (ok: bool)
      requires Valid()
      modifies this
      ensures Valid() && ok == old(Matches(r))
      ensures ok ==> pending.None? && state == old(state) && nextSequence == old(nextSequence) && InForce() == old(InForce())
                     && log == old(log) + [Exchange(r.sequence, Refused)]
      ensures !ok ==> unchanged(this)
    {
      if !Matches(r) {
        return false;
      }
      pending := None;
      LedgerExtends(log, nextSequence, Refused);
      log := log + [Exchange(r.sequence, Refused)];
      return true;
    }

    method CompleteIndeterminate(r: Request) returns (ok: bool)
      requires Valid()
      modifies this
      ensures Valid() && ok == old(Matches(r))
      ensures ok ==> pending.None? && state.ReconnectRequired? && log == old(log) + [Exchange(r.sequence, Unknown)]
                     && InForce() == old(InForce())
      ensures !ok ==> unchanged(this)
    {
      if !Matches(r) {
        return false;
      }
      pending, state := None, ReconnectRequired;
      LedgerExtends(log, nextSequence, Unknown);
      log := log + [Exchange(r.sequence, Unknown)];
      return true;
    }

    /** One exchange with the driver. A malformed success is an unknown outcome. */
    method ExecutePrepared(r: Request, outcome: TransportOutcome) returns (result: Result<seq<Bytes>, ExecutionError>)
      requires Valid() && Genuine(r)
      modifies this
      ensures Valid()
      ensures !old(Matches(r)) ==> unchanged(this) && result == Failure(Client(CompletionMismatch))
      ensures old(Matches(r)) ==> (
        var fate := if outcome.Rejected? then Refused
                    else if outcome.Success? && old(ResponsePackets(r, outcome.response)).Some? then Committed else Unknown;
        && log == old(log) + [Exchange(r.sequence, fate)]
        && pending.None? && nextSequence == old(nextSequence) + (if fate.Committed? then 1 else 0)
        && state == (match fate case Committed => r.transition case Refused => old(state) case Unknown => ReconnectRequired)
        && (result.Success? <==> fate.Committed?)
        && (result.Success? ==> Some(result.value) == old(ResponsePackets(r, outcome.response)))
        && InForce() == if fate.Committed? then LimitsAfter(r, old(InForce())) else old(InForce()))
    {
      if !Matches(r) {
        return Failure(Client(CompletionMismatch));
      }
      match outcome
      case Success(response) =>
        var packets := CompleteSuccess(r, response);
        if packets.Success? {
          return Result.Success(packets.value);
        }
        var _ := CompleteIndeterminate(r);
        return Failure(Client(packets.error));
      case Rejected(status) =>
        var _ := CompleteRejected(r);
        return Failure(DriverRejected(status));
      case Indeterminate =>
        var _ := CompleteIndeterminate(r);
        return Failure(MustReconnect);
    }

    /** Executes one of the control requests, whose well-formed success response is empty. */
    method Control(r: Request, answer: TransportOutcome) returns (ok: bool)
      requires Valid() && Genuine(r) && Matches(r) && !r.kind.TransmitBatch?
      modifies this
      ensures Valid() && pending.None?
      ensures ok <==> answer == TransportOutcome.Success([])
      ensures log == old(log) + [Exchange(r.sequence, FateOf(answer))]
      ensures ok ==> state == r.transition && nextSequence == old(nextSequence) + 1 && InForce() == LimitsAfter(r, old(InForce()))
      ensures !ok ==> nextSequence == old(nextSequence) && InForce() == old(InForce())
                      && state == if answer.Rejected? then old(state) else ReconnectRequired
    {
      var result := ExecutePrepared(r, answer);
      return result.Success?;
    }

    /** The first request of a session. */
    method Negotiate(answer: TransportOutcome) returns (ok: bool)
      requires Valid() && pending.None? && state.Opened? && nextSequence < U64_MAX
      modifies this
      ensures Valid() && pending.None? && log == old(log) + [Exchange(old(nextSequence), FateOf(answer))]
      ensures ok <==> answer == TransportOutcome.Success([])
      ensures ok ==> state.Negotiated? && nextSequence == old(nextSequence) + 1
    {
      var r := PrepareHello();
      ok := Control(r.value, answer);
    }

    /** The second one puts the limits in force. */
    method AttachWith(limits: Limits, answer: TransportOutcome) returns (ok: bool)
      requires Valid() && pending.None? && state.Negotiated? && nextSequence < U64_MAX && InRange(limits)
      modifies this
      ensures Valid() && pending.None? && log == old(log) + [Exchange(old(nextSequence), FateOf(answer))]
      ensures ok <==> answer == TransportOutcome.Success([])
      ensures ok ==> state.Attached? && nextSequence == old(nextSequence) + 1 && InForce() == limits
    {
      var r := PrepareAttach(limits.mtu, limits.transmitDepth, limits.receiveDepth);
      ok := Control(r.value, answer);
    }

    /** Raises or lowers the link. */
    method SwitchLink(up: bool, answer: TransportOutcome) returns (ok: bool)
      requires Valid() && pending.None? && (state.Attached? || state.LinkUp?) && nextSequence < U64_MAX
      modifies this
      ensures Valid() && pending.None? && log == old(log) + [Exchange(old(nextSequence), FateOf(answer))]
      ensures ok <==> answer == TransportOutcome.Success([])
      ensures ok ==> state == (if up then LinkUp else Attached) && nextSequence == old(nextSequence) + 1 && InForce() == old(InForce())
      ensures !ok ==> state == if answer.Rejected? then old(state) else ReconnectRequired
    {
      var r := PrepareSetLink(up);
      ok := Control(r.value, answer);
    }

    /** Gives the limits back. */
    method GiveBack(answer: TransportOutcome) returns (ok: bool)
      requires Valid() && pending.None? && (state.Negotiated? || state.Attached? || state.LinkUp?) && nextSequence < U64_MAX
      modifies this
      ensures Valid() && pending.None? && log == old(log) + [Exchange(old(nextSequence), FateOf(answer))]
      ensures ok <==> answer == TransportOutcome.Success([])
      ensures ok ==> state.Negotiated? && InForce() == Limits(0, 0, 0)
      ensures !ok ==> InForce() == old(InForce()) && state == if answer.Rejected? then old(state) else ReconnectRequired
    {
      var r := PrepareDetach();
      ok := Control(r.value, answer);
    }

    /**
     Ends a session: the link is lowered if it is up, then the handle detached, each
     by one request; after a refusal the state is that of the last success.
     */
    method Shutdown(answers: (TransportOutcome, TransportOutcome)) returns (ok: bool)
      requires Valid() && pending.None? && nextSequence < U64_MAX - 1
      modifies this
      ensures Valid() && pending.None?
      ensures old(state).Opened? || old(state).ReconnectRequired? ==> !ok && unchanged(this)
      ensures old(state).LinkUp? ==>
        && (ok <==> answers == (TransportOutcome.Success([]), TransportOutcome.Success([])))
        && (answers.0 != TransportOutcome.Success([]) ==> log == old(log) + [Exchange(old(nextSequence), FateOf(answers.0))])
        && (answers.0 == TransportOutcome.Success([]) ==>
              log == old(log) + [Exchange(old(nextSequence), Committed)] + [Exchange(old(nextSequence) + 1, FateOf(answers.1))])
        && (answers.0 == TransportOutcome.Success([]) && answers.1.Rejected? ==> state.Attached?)
        && (answers.0.Rejected? ==> state.LinkUp?)
      ensures old(state).Negotiated? || old(state).Attached? ==>
        && (ok <==> answers.0 == TransportOutcome.Success([]))
        && log == old(log) + [Exchange(old(nextSequence), FateOf(answers.0))]
      ensures ok ==> state.Negotiated? && InForce() == Limits(0, 0, 0)
    {
      var last := answers.0;
      match state {
        case LinkUp =>
          ok := SwitchLink(false, answers.0);
          if !ok {
            return;
          }
          last := answers.1;
        case Negotiated =>
        case Attached =>
        case Opened =>
          return false;
        case ReconnectRequired =>
          return false;
      }
      ok := GiveBack(last);
    }
  }

  /** The driver's answer to a transmit request is the message of a valid batch within the session's limits; to any other it is empty. */
  lemma {:induction false} AnswersAreExact(c: Client, r: Request, response: Bytes, packets: seq<Bytes>)
    requires r.sequence <= U64_MAX
    ensures c.ResponsePackets(r, response) == Some(packets) <==>
      if r.kind.TransmitBatch? then
        ValidBatch(packets, c.mtu, c.transmitDepth) && response == Message(TRANSMIT_BATCH, r.sequence, Batch(packets))
      else packets == [] && response == []
  {
    ResponseBijection(response, packets, r.sequence, c.mtu, c.transmitDepth);
  }

  /** What an answer means for a request whose well-formed success response is empty. */
  function FateOf(answer: TransportOutcome): Fate {
    if answer.Rejected? then Refused else if answer == TransportOutcome.Success([]) then Committed else Unknown
  }

  /** Everything before the last exchange succeeded, and that one did not. */
  predicate StopsAtFailure(log: seq<Exchange>) {
    forall k :: 0 <= k < |log| ==> (log[k].fate.Committed? <==> k < |log| - 1)
  }

  /** Negotiates, attaches and raises the link, each exactly once; `answers` are the driver's three outcomes. */
  method StartSession(m: nat, t: nat, v: nat, answers: seq<TransportOutcome>) returns (client: Client, started: bool)
    requires |answers| == 3
    ensures fresh(client) && client.Valid()
    ensures started <==> ValidLimits(m, t, v) && forall k :: 0 <= k < 3 ==> answers[k] == TransportOutcome.Success([])
    ensures started ==> client.state.LinkUp? && client.pending.None? && client.nextSequence == 4
                        && client.InForce() == Limits(m, t, v)
                        && client.log == [Exchange(1, Committed), Exchange(2, Committed), Exchange(3, Committed)]
    // Nothing is tried after the first request that fails.
    ensures !started ==> |client.log| <= 3 && StopsAtFailure(client.log)
  {
    client := new Client();
    if !ValidLimits(m, t, v) {
      return client, false;
    }
    started := client.Negotiate(answers[0]);
    if !started {
      return;
    }
    assert client.log == [Exchange(1, Committed)];
    started := client.AttachWith(Limits(m, t, v), answers[1]);
    if !started {
      return;
    }
    assert client.log == [Exchange(1, Committed), Exchange(2, Committed)];
    started := client.SwitchLink(true, answers[2]);
  }
}
