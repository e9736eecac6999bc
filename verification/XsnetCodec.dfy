/**
 The xsnet device ABI: a 32-byte message header and the packet batch, whose
 descriptors must be exactly the running offsets and lengths of the packets.
 */
module XsnetCodec {
  import opened Prelude
  import opened Bytes

  const ABI_MAGIC: nat := 0x314e_5358
  const XSNET_ABI_VERSION: nat := 1
  const HEADER_SIZE: nat := 32
  const MAX_PAYLOAD: nat := 1_048_576
  const MAX_PACKETS: nat := 64
  const MIN_PACKET_SIZE: nat := 20
  const MAX_PACKET_SIZE: nat := 9000
  const CAPABILITY_IPV4: nat := 1
  const TRANSMIT_BATCH: nat := 4

  // ----- the format -----

  /** An IPv4 packet whose lengths agree (section 3.1 of RFC 791). */
  predicate ValidIpv4(packet: Bytes, mtu: nat) {
    && MIN_PACKET_SIZE <= |packet| <= mtu && |packet| <= MAX_PACKET_SIZE
    && packet[0] / 16 == 4
    && MIN_PACKET_SIZE <= (packet[0] % 16) * 4 <= |packet|
    && (packet[2] as int) * 256 + packet[3] == |packet|
  }

  /** A packet as a host builds it: `words` 32-bit words of header, the total length in its third and fourth byte. */
  ghost predicate BuiltAs(packet: Bytes, words: nat, service: Byte, rest: Bytes) {
    && 5 <= words <= 15 && 4 * words <= |packet| <= U16_MAX
    && packet == [64 + words, service, |packet| / 256, |packet| % 256] + rest
  }

  /** The check passes exactly the packets that are built so and fit. */
  lemma {:induction false} Ipv4IffBuilt(packet: Bytes, mtu: nat)
    ensures ValidIpv4(packet, mtu) <==>
      |packet| <= Min(mtu, MAX_PACKET_SIZE) && exists words, service, rest :: BuiltAs(packet, words, service, rest)
  {
    if ValidIpv4(packet, mtu) {
      assert BuiltAs(packet, packet[0] % 16, packet[1], packet[4..]);
    }
  }

  predicate ValidBatch(packets: seq<Bytes>, mtu: nat, depth: nat) {
    && 0 < |packets| <= depth && |packets| <= MAX_PACKETS
    && forall p :: p in packets ==> ValidIpv4(p, mtu)
  }

  function Concat(packets: seq<Bytes>): Bytes {
    if packets == [] then [] else packets[0] + Concat(packets[1..])
  }

  function Descriptor(offset: nat, length: nat): (d: Bytes)
    ensures |d| == 8
  {
    Little(offset, 4) + Little(length, 4)
  }

  function Descriptors(packets: seq<Bytes>, offset: nat): (d: Bytes)
    ensures |d| == 8 * |packets|
    decreases packets
  {
    if packets == [] then []
    else Descriptor(offset, |packets[0]|) + Descriptors(packets[1..], offset + |packets[0]|)
  }

  function BatchHead(count: nat): (h: Bytes)
    ensures |h| == 8
  {
    Little(count, 2) + Little(0, 2) + Little(8 * count, 4)
  }

  function Batch(packets: seq<Bytes>): Bytes {
    BatchHead(|packets|) + Descriptors(packets, 8 + 8 * |packets|) + Concat(packets)
  }

  function Header(kind: nat, length: nat, sequence: nat): (h: Bytes)
    ensures |h| == HEADER_SIZE
  {
    Little(ABI_MAGIC, 4) + Little(XSNET_ABI_VERSION, 2) + Little(HEADER_SIZE, 2) + Little(kind, 4)
    + Little(0, 4) + Little(length, 4) + Little(0, 4) + Little(sequence, 8)
  }

  function Message(kind: nat, sequence: nat, payload: Bytes): (m: Bytes)
    ensures |m| == HEADER_SIZE + |payload|
  {
    Header(kind, |payload|, sequence) + payload
  }

  // ----- sizes -----

  lemma {:induction false} ConcatBound(packets: seq<Bytes>, mtu: nat)
    requires forall p :: p in packets ==> ValidIpv4(p, mtu)
    ensures |Concat(packets)| <= |packets| * mtu
    ensures |Concat(packets)| <= |packets| * MAX_PACKET_SIZE
  {
    ConcatAtMost(packets, mtu);
    ConcatAtMost(packets, MAX_PACKET_SIZE);
  }

  lemma {:induction false} ConcatAtMost(packets: seq<Bytes>, most: nat)
    requires forall p :: p in packets ==> |p| <= most
    ensures |Concat(packets)| <= |packets| * most
  {
    if packets != [] {
      assert packets[0] in packets && forall p :: p in packets[1..] ==> p in packets;
      ConcatAtMost(packets[1..], most);
      OneFewer(|packets|, most);
    }
  }

  lemma {:induction false} OneFewer(n: nat, m: nat)
    requires n >= 1
    ensures n * m == m + (n - 1) * m
  {
  }

  /** The output buffer that a session reserves for one dequeue; `None` is an unusable limit. */
  function TransmitOutputCapacity(mtu: nat, depth: nat): Option<nat> {
    var capacity := HEADER_SIZE + 8 + depth * 8 + depth * mtu;
    if capacity > HEADER_SIZE + MAX_PAYLOAD then None else Some(capacity)
  }

  predicate ValidLimits(mtu: nat, transmitDepth: nat, receiveDepth: nat) {
    1280 <= mtu <= MAX_PACKET_SIZE && 1 <= transmitDepth <= MAX_PACKETS && 1 <= receiveDepth <= MAX_PACKETS
  }

  /** Valid limits always have a capacity, and every batch within them fits it. */
  lemma {:induction false} BatchFitsCapacity(packets: seq<Bytes>, sequence: nat, mtu: nat, transmitDepth: nat, receiveDepth: nat)
    requires ValidLimits(mtu, transmitDepth, receiveDepth) && ValidBatch(packets, mtu, transmitDepth)
    ensures TransmitOutputCapacity(mtu, transmitDepth).Some?
    ensures |Message(TRANSMIT_BATCH, sequence, Batch(packets))| <= TransmitOutputCapacity(mtu, transmitDepth).value
  {
    ConcatBound(packets, mtu);
    MulMonotone(|packets|, transmitDepth, mtu);
    MulMonotone(transmitDepth, MAX_PACKETS, mtu);
  }

  lemma {:induction false} MulMonotone(a: nat, b: nat, c: nat)
    requires a <= b
    ensures a * c <= b * c
  {
  }

  // ----- encoding -----

  lemma {:induction false} AppendDescriptor(packets: seq<Bytes>, p: Bytes, offset: nat)
    ensures Descriptors(packets + [p], offset) ==
      Descriptors(packets, offset) + Descriptor(offset + |Concat(packets)|, |p|)
    decreases packets
  {
    if packets == [] {
      assert packets + [p] == [p];
      assert Descriptors([p], offset) == Descriptor(offset, |p|) + Descriptors([p][1..], offset + |p|);
    } else {
      var first, rest := packets[0], packets[1..];
      assert (packets + [p])[1..] == rest + [p];
      AppendDescriptor(rest, p, offset + |first|);
      assert |Concat(packets)| == |first| + |Concat(rest)|;
    }
  }

  lemma {:induction false} AppendConcat(packets: seq<Bytes>, p: Bytes)
    ensures Concat(packets + [p]) == Concat(packets) + p
  {
    if packets == [] {
      assert packets + [p] == [p];
    } else {
      assert (packets + [p])[1..] == packets[1..] + [p];
      AppendConcat(packets[1..], p);
    }
  }

  /** Builds the batch in a buffer, or refuses packets that the format cannot carry. */
  method EncodePacketBatch(packets: seq<Bytes>, mtu: nat) returns (r: Option<Bytes>)
    ensures r == if ValidBatch(packets, mtu, MAX_PACKETS) then Some(Batch(packets)) else None
  {
    if packets == [] || |packets| > MAX_PACKETS {
      return None;
    }
    var total := 0;
    for i := 0 to |packets|
      invariant forall j :: 0 <= j < i ==> ValidIpv4(packets[j], mtu)
      invariant total == |Concat(packets[..i])|
    {
      if !ValidIpv4(packets[i], mtu) {
        return None;
      }
      assert packets[..i + 1] == packets[..i] + [packets[i]];
      AppendConcat(packets[..i], packets[i]);
      total := total + |packets[i]|;
    }
    assert packets[..|packets|] == packets;
    ConcatBound(packets, mtu);
    var size := 8 + 8 * |packets| + total;
    if size > MAX_PAYLOAD {
      assert false;
    }
    var buffer := new Byte[size](_ => 0);
    FillBatch(buffer, packets);
    return Some(buffer[..]);
  }

  method FillBatch(buffer: array<Byte>, packets: seq<Bytes>)
    requires buffer.Length == 8 + 8 * |packets| + |Concat(packets)|
    requires forall i :: 0 <= i < buffer.Length ==> buffer[i] == 0
    modifies buffer
    ensures buffer[..] == Batch(packets)
  {
    var base := 8 + 8 * |packets|;
    WriteHead(buffer, |packets|);
    var offset := base;
    NothingFilled(buffer[..], packets);
    for i := 0 to |packets|
      invariant offset == base + |Concat(packets[..i])|
      invariant Filled(buffer[..], packets, i)
    {
      NextFits(packets, i);
      offset := FillOne(buffer, packets, i, offset);
    }
    AllFilled(buffer[..], packets);
  }

  method FillOne(buffer: array<Byte>, packets: seq<Bytes>, i: nat, offset: nat) returns (next: nat)
    requires i < |packets| && Filled(buffer[..], packets, i) && offset == 8 + 8 * |packets| + |Concat(packets[..i])|
    requires offset + |packets[i]| <= buffer.Length
    modifies buffer
    ensures Filled(buffer[..], packets, i + 1) && next == offset + |packets[i]|
  {
    ghost var base := 8 + 8 * |packets|;
    WriteEntry(buffer, 8 + 8 * i, base, offset, packets[i],
               BatchHead(|packets|), Descriptors(packets[..i], base), Concat(packets[..i]));
    OneMorePacket(packets, i, base);
    next := offset + |packets[i]|;
  }

  method WriteHead(buffer: array<Byte>, count: nat)
    requires buffer.Length >= 8 && forall i :: 0 <= i < buffer.Length ==> buffer[i] == 0
    modifies buffer
    ensures buffer[..8] == BatchHead(count)
  {
    assert Little(0, 2) == [0, 0] by { assert Little(0, 1) == [0]; }
    ghost var start := buffer[..];
    assert start[2..4] == [0, 0];
    WriteLittle(buffer, 0, count, 2);
    ghost var first := buffer[..];
    SpliceInside(start, 0, Little(count, 2));
    SpliceOutside(start, 0, Little(count, 2), 2, 4);
    WriteLittle(buffer, 4, 8 * count, 4);
    SpliceInside(first, 4, Little(8 * count, 4));
    SpliceOutside(first, 4, Little(8 * count, 4), 0, 2);
    SpliceOutside(first, 4, Little(8 * count, 4), 2, 4);
    assert buffer[..8] == buffer[..][0..2] + buffer[..][2..4] + buffer[..][4..8];
  }

  /** What stands in a buffer before `at`, and from `base` to `end`. */
  ghost predicate Parts(b: Bytes, at: nat, base: nat, end: nat, head: Bytes, table: Bytes, body: Bytes) {
    8 <= at <= base <= end <= |b| && b[0..8] == head && b[8..at] == table && b[base..end] == body
  }

  /** The head, the first `i` descriptors and the first `i` packets stand in the buffer. */
  ghost predicate Filled(b: Bytes, packets: seq<Bytes>, i: nat)
    requires i <= |packets|
  {
    var base := 8 + 8 * |packets|;
    && |b| == base + |Concat(packets)|
    && Parts(b, 8 + 8 * i, base, base + |Concat(packets[..i])|,
             BatchHead(|packets|), Descriptors(packets[..i], base), Concat(packets[..i]))
  }

  lemma {:induction false} NothingFilled(b: Bytes, packets: seq<Bytes>)
    requires |b| == 8 + 8 * |packets| + |Concat(packets)| && b[..8] == BatchHead(|packets|)
    ensures packets[..0] == [] && Filled(b, packets, 0)
  {
    assert packets[..0] == [];
  }

  lemma {:induction false} AllFilled(b: Bytes, packets: seq<Bytes>)
    requires Filled(b, packets, |packets|)
    ensures b == Batch(packets)
  {
    assert packets[..|packets|] == packets;
    var base := 8 + 8 * |packets|;
    Whole(b, 8, base, BatchHead(|packets|), Descriptors(packets, base), Concat(packets));
  }

  lemma {:induction false} Whole(s: Bytes, n: nat, m: nat, x: Bytes, y: Bytes, z: Bytes)
    requires n <= m <= |s| && s[0..n] == x && s[n..m] == y && s[m..|s|] == z
    ensures s == x + y + z
  {
    assert s == s[0..n] + s[n..m] + s[m..|s|];
  }

  lemma {:induction false} NextFits(packets: seq<Bytes>, i: nat)
    requires i < |packets|
    ensures |Concat(packets[..i + 1])| == |Concat(packets[..i])| + |packets[i]| <= |Concat(packets)|
  {
    assert packets[..i + 1] == packets[..i] + [packets[i]];
    AppendConcat(packets[..i], packets[i]);
    PrefixFits(packets, i + 1);
  }

  /** One descriptor at `at` and its packet at `offset`. */
  function WithEntry(b: Bytes, at: nat, offset: nat, p: Bytes): (r: Bytes)
    requires at + 8 <= offset && offset + |p| <= |b|
    ensures |r| == |b|
  {
    Splice(Splice(Splice(b, at, Little(offset, 4)), at + 4, Little(|p|, 4)), offset, p)
  }

  method WriteEntry(buffer: array<Byte>, at: nat, ghost base: nat, offset: nat, p: Bytes,
                    ghost head: Bytes, ghost table: Bytes, ghost body: Bytes)
    requires at + 8 <= base && offset + |p| <= buffer.Length && Parts(buffer[..], at, base, offset, head, table, body)
    modifies buffer
    ensures Parts(buffer[..], at + 8, base, offset + |p|, head, table + Descriptor(offset, |p|), body + p)
  {
    EntryExtends(buffer[..], at, base, offset, p, head, table, body);
    WriteLittle(buffer, at, offset, 4);
    WriteLittle(buffer, at + 4, |p|, 4);
    CopyInto(buffer, offset, p);
  }

  lemma {:induction false} EntryKeeps(b: Bytes, at: nat, offset: nat, p: Bytes, from: nat, to: nat)
    requires at + 8 <= offset && offset + |p| <= |b| && from <= to && (to <= at || at + 8 <= from <= to <= offset)
    ensures WithEntry(b, at, offset, p)[from..to] == b[from..to]
  {
    var x := Splice(b, at, Little(offset, 4));
    var y := Splice(x, at + 4, Little(|p|, 4));
    SpliceOutside(b, at, Little(offset, 4), from, to);
    SpliceOutside(x, at + 4, Little(|p|, 4), from, to);
    SpliceOutside(y, offset, p, from, to);
  }

  lemma {:induction false} EntryStands(b: Bytes, at: nat, offset: nat, p: Bytes)
    requires at + 8 <= offset && offset + |p| <= |b|
    ensures var r := WithEntry(b, at, offset, p);
      r[at..at + 8] == Descriptor(offset, |p|) && r[offset..offset + |p|] == p
  {
    var x := Splice(b, at, Little(offset, 4));
    var y := Splice(x, at + 4, Little(|p|, 4));
    SpliceInside(b, at, Little(offset, 4));
    SpliceOutside(x, at + 4, Little(|p|, 4), at, at + 4);
    SpliceInside(x, at + 4, Little(|p|, 4));
    Cut(y, at, at + 4, at + 8);
    SpliceOutside(y, offset, p, at, at + 8);
    SpliceInside(y, offset, p);
  }

  /** What one entry adds to a buffer whose parts are known. */
  lemma {:induction false} EntryExtends(before: Bytes, at: nat, base: nat, offset: nat, p: Bytes,
                                        head: Bytes, table: Bytes, body: Bytes)
    requires at + 8 <= base && offset + |p| <= |before| && Parts(before, at, base, offset, head, table, body)
    ensures Parts(WithEntry(before, at, offset, p), at + 8, base, offset + |p|, head, table + Descriptor(offset, |p|), body + p)
  {
    var after := WithEntry(before, at, offset, p);
    EntryStands(before, at, offset, p);
    EntryKeeps(before, at, offset, p, 0, 8);
    EntryKeeps(before, at, offset, p, 8, at);
    EntryKeeps(before, at, offset, p, base, offset);
    Cut(after, 8, at, at + 8);
    Cut(after, base, offset, offset + |p|);
  }

  lemma {:induction false} OneMorePacket(packets: seq<Bytes>, i: nat, base: nat)
    requires i < |packets|
    ensures Descriptors(packets[..i + 1], base) ==
      Descriptors(packets[..i], base) + Descriptor(base + |Concat(packets[..i])|, |packets[i]|)
    ensures Concat(packets[..i + 1]) == Concat(packets[..i]) + packets[i]
  {
    assert packets[..i + 1] == packets[..i] + [packets[i]];
    AppendDescriptor(packets[..i], packets[i], base);
    AppendConcat(packets[..i], packets[i]);
  }

  lemma {:induction false} PrefixFits(packets: seq<Bytes>, i: nat)
    requires i <= |packets|
    ensures |Concat(packets[..i])| <= |Concat(packets)|
    decreases |packets| - i
  {
    if i == |packets| {
      assert packets[..i] == packets;
    } else {
      PrefixFits(packets, i + 1);
      assert packets[..i + 1] == packets[..i] + [packets[i]];
      AppendConcat(packets[..i], packets[i]);
    }
  }

  // ----- decoding -----

  datatype Entry = Entry(offset: nat, length: nat)

  function EntryAt(b: Bytes, at: nat): Entry
    requires at + 8 <= |b|
  {
    Entry(FromLittle(b[at..at + 4]), FromLittle(b[at + 4..at + 8]))
  }

  /** `count` descriptors from `at` on, as integers. */
  function Table(b: Bytes, at: nat, count: nat): (es: seq<Entry>)
    requires at + 8 * count <= |b|
    ensures |es| == count
    decreases count
  {
    if count == 0 then [] else [EntryAt(b, at)] + Table(b, at + 8, count - 1)
  }

  /** Every descriptor must continue where the previous packet ended; the last packet ends the payload. */
  function Walk(payload: Bytes, mtu: nat, entries: seq<Entry>, offset: nat): Option<seq<Bytes>>
    decreases entries
  {
    if entries == [] then (if offset == |payload| then Some([]) else None)
    else
      var e := entries[0];
      if !Continues(payload, mtu, e, offset) then None
      else Prefixed([payload[e.offset..e.offset + e.length]], Walk(payload, mtu, entries[1..], e.offset + e.length))
  }

  function Prefixed(packets: seq<Bytes>, rest: Option<seq<Bytes>>): Option<seq<Bytes>> {
    if rest.None? then None else Some(packets + rest.value)
  }

  /** The count, if the batch head is well formed. */
  function HeadCount(payload: Bytes, depth: nat): Option<nat> {
    var count, zero, descriptors := ReadLittle(payload, 0, 2), ReadLittle(payload, 2, 2), ReadLittle(payload, 4, 4);
    if count.None? || descriptors.None? || count.value == 0 || count.value > depth || count.value > MAX_PACKETS
       || zero != Some(0) || descriptors.value != count.value * 8 || 8 + descriptors.value > |payload|
    then None else count
  }

  function DecodeBatch(payload: Bytes, mtu: nat, depth: nat): Option<seq<Bytes>> {
    var count := HeadCount(payload, depth);
    if count.None? then None else Walk(payload, mtu, Table(payload, 8, count.value), 8 + 8 * count.value)
  }

  /** The decoder as the client runs it. */
  method DecodePacketBatch(payload: Bytes, mtu: nat, depth: nat) returns (r: Option<seq<Bytes>>)
    ensures r == DecodeBatch(payload, mtu, depth)
  {
    var head := HeadCount(payload, depth);
    if head.None? {
      return None;
    }
    r := WalkDescriptors(payload, mtu, head.value);
  }

  method WalkDescriptors(payload: Bytes, mtu: nat, count: nat) returns (r: Option<seq<Bytes>>)
    requires 8 + 8 * count <= |payload|
    ensures r == Walk(payload, mtu, Table(payload, 8, count), 8 + 8 * count)
  {
    var expected: nat, packets: seq<Bytes> := 8 + 8 * count, [];
    ghost var whole := Walk(payload, mtu, Table(payload, 8, count), expected);
    WalkBegins(payload, mtu, count);
    for i := 0 to count
      invariant WalkFrom(payload, mtu, i, count, expected, packets) == whole
    {
      var next := WalkOne(payload, mtu, i, count, expected, packets);
      if next.None? {
        return None;
      }
      packets := packets + [next.value];
      expected := expected + |next.value|;
    }
    WalkEnds(payload, mtu, count, expected, packets);
    r := if expected != |payload| then None else Some(packets);
  }

  method WalkOne(payload: Bytes, mtu: nat, i: nat, count: nat, offset: nat, ghost packets: seq<Bytes>)
    returns (next: Option<Bytes>)
    requires i < count && 8 + 8 * count <= |payload|
    ensures WalkFrom(payload, mtu, i, count, offset, packets) ==
      if next.None? then None
      else WalkFrom(payload, mtu, i + 1, count, offset + |next.value|, packets + [next.value])
  {
    WalkStep(payload, mtu, i, count, offset, packets);
    next := NextPacket(payload, mtu, EntryAt(payload, 8 + 8 * i), offset);
  }

  lemma {:induction false} WalkBegins(payload: Bytes, mtu: nat, count: nat)
    requires 8 + 8 * count <= |payload|
    ensures WalkFrom(payload, mtu, 0, count, 8 + 8 * count, []) == Walk(payload, mtu, Table(payload, 8, count), 8 + 8 * count)
  {
    PrefixedSteps([], [], Walk(payload, mtu, Table(payload, 8, count), 8 + 8 * count));
  }

  lemma {:induction false} WalkEnds(payload: Bytes, mtu: nat, count: nat, offset: nat, packets: seq<Bytes>)
    requires 8 + 8 * count <= |payload|
    ensures WalkFrom(payload, mtu, count, count, offset, packets) == if offset == |payload| then Some(packets) else None
  {
    assert packets + [] == packets;
  }

  /** A descriptor continues at `offset` with a valid packet inside the payload. */
  predicate Continues(payload: Bytes, mtu: nat, e: Entry, offset: nat) {
    e.offset == offset && e.offset + e.length <= |payload| && ValidIpv4(payload[e.offset..e.offset + e.length], mtu)
  }

  function NextPacket(payload: Bytes, mtu: nat, e: Entry, offset: nat): (p: Option<Bytes>)
    ensures p.Some? <==> Continues(payload, mtu, e, offset)
    ensures p.Some? ==> |p.value| == e.length
  {
    if Continues(payload, mtu, e, offset) then Some(payload[e.offset..e.offset + e.length]) else None
  }

  /** What the walk will return once it has collected `packets` from the first `i` descriptors. */
  ghost function WalkFrom(payload: Bytes, mtu: nat, i: nat, count: nat, offset: nat, packets: seq<Bytes>): Option<seq<Bytes>>
    requires i <= count && 8 + 8 * count <= |payload|
  {
    Prefixed(packets, Walk(payload, mtu, Table(payload, 8 + 8 * i, count - i), offset))
  }

  lemma {:induction false} WalkStep(payload: Bytes, mtu: nat, i: nat, count: nat, offset: nat, packets: seq<Bytes>)
    requires i < count && 8 + 8 * count <= |payload|
    ensures var next := NextPacket(payload, mtu, EntryAt(payload, 8 + 8 * i), offset);
      WalkFrom(payload, mtu, i, count, offset, packets) ==
        if next.None? then None
        else WalkFrom(payload, mtu, i + 1, count, offset + |next.value|, packets + [next.value])
  {
    var e := EntryAt(payload, 8 + 8 * i);
    var later := Table(payload, 8 + 8 * (i + 1), count - i - 1);
    assert Table(payload, 8 + 8 * i, count - i)[1..] == later;
    if e.offset + e.length <= |payload| {
      PrefixedSteps(packets, payload[e.offset..e.offset + e.length], Walk(payload, mtu, later, e.offset + e.length));
    }
  }

  lemma {:induction false} PrefixedSteps(packets: seq<Bytes>, p: Bytes, rest: Option<seq<Bytes>>)
    ensures Prefixed(packets + [p], rest) == Prefixed(packets, Prefixed([p], rest))
    ensures Prefixed([], rest) == rest
  {
    if rest.Some? {
      assert packets + ([p] + rest.value) == packets + [p] + rest.value;
      assert [] + rest.value == rest.value;
    }
  }

  /** The whole response to a dequeue request. */
  function DecodeTransmitResponse(response: Bytes, sequence: nat, mtu: nat, depth: nat): Option<seq<Bytes>> {
    if |response| < HEADER_SIZE
       || ReadLittle(response, 0, 4) != Some(ABI_MAGIC)
       || ReadLittle(response, 4, 2) != Some(XSNET_ABI_VERSION)
       || ReadLittle(response, 6, 2) != Some(HEADER_SIZE)
       || ReadLittle(response, 8, 4) != Some(TRANSMIT_BATCH)
       || ReadLittle(response, 12, 4) != Some(0)
       || ReadLittle(response, 20, 4) != Some(0)
       || ReadLittle(response, 24, 8) != Some(sequence)
    then None
    else
      var length := FromLittle(response[16..20]);
      if length > MAX_PAYLOAD || |response| != HEADER_SIZE + length then None
      else DecodeBatch(response[HEADER_SIZE..], mtu, depth)
  }

  // ----- the codec is a bijection onto the accepted bytes -----

  /** The table that a batch must carry. */
  function Layout(packets: seq<Bytes>, offset: nat): (es: seq<Entry>)
    ensures |es| == |packets|
    decreases packets
  {
    if packets == [] then []
    else [Entry(offset, |packets[0]|)] + Layout(packets[1..], offset + |packets[0]|)
  }

  /** A successful walk means that the table is the layout of the packets and the bytes are the packets. */
  lemma {:induction false} WalkIffLayout(payload: Bytes, mtu: nat, entries: seq<Entry>, offset: nat, packets: seq<Bytes>)
    requires offset <= |payload|
    ensures Walk(payload, mtu, entries, offset) == Some(packets) <==>
      && entries == Layout(packets, offset) && payload[offset..] == Concat(packets)
      && forall p :: p in packets ==> ValidIpv4(p, mtu)
    decreases entries
  {
    if entries == [] || packets == [] {
      if entries != [] && Walk(payload, mtu, entries, offset).Some? {
        assert Walk(payload, mtu, entries, offset).value != [];
      }
      return;
    }
    var e, first, rest := entries[0], packets[0], packets[1..];
    if e.offset == offset && e.length == |first| && offset + |first| <= |payload| {
      WalkIffLayout(payload, mtu, entries[1..], offset + |first|, rest);
      LayoutStep(payload, mtu, entries, offset, packets);
    } else {
      LayoutMisses(payload, mtu, entries, offset, packets);
    }
  }

  lemma {:induction false} LayoutStep(payload: Bytes, mtu: nat, entries: seq<Entry>, offset: nat, packets: seq<Bytes>)
    requires entries != [] && packets != []
    requires entries[0] == Entry(offset, |packets[0]|) && offset + |packets[0]| <= |payload|
    requires Walk(payload, mtu, entries[1..], offset + |packets[0]|) == Some(packets[1..]) <==>
      && entries[1..] == Layout(packets[1..], offset + |packets[0]|)
      && payload[offset + |packets[0]|..] == Concat(packets[1..])
      && forall p :: p in packets[1..] ==> ValidIpv4(p, mtu)
    ensures Walk(payload, mtu, entries, offset) == Some(packets) <==>
      && entries == Layout(packets, offset) && payload[offset..] == Concat(packets)
      && forall p :: p in packets ==> ValidIpv4(p, mtu)
  {
    WalkUnfold(payload, mtu, entries, offset, packets);
    EntriesSplit(entries, packets, offset);
    BodySplits(payload, offset, packets);
    ValiditySplits(packets, mtu);
  }

  lemma {:induction false} ValiditySplits(packets: seq<Bytes>, mtu: nat)
    requires packets != []
    ensures (forall p :: p in packets ==> ValidIpv4(p, mtu)) <==>
      ValidIpv4(packets[0], mtu) && forall p :: p in packets[1..] ==> ValidIpv4(p, mtu)
  {
    assert packets == [packets[0]] + packets[1..];
  }

  lemma {:induction false} EntriesSplit(entries: seq<Entry>, packets: seq<Bytes>, offset: nat)
    requires entries != [] && packets != [] && entries[0] == Entry(offset, |packets[0]|)
    ensures entries == Layout(packets, offset) <==> entries[1..] == Layout(packets[1..], offset + |packets[0]|)
  {
    UnfoldLayout(packets, offset);
    assert entries == [entries[0]] + entries[1..];
    ConsEntries(entries[0], entries[1..], entries[0], Layout(packets[1..], offset + |packets[0]|));
  }

  lemma {:induction false} BodySplits(payload: Bytes, offset: nat, packets: seq<Bytes>)
    requires packets != [] && offset + |packets[0]| <= |payload|
    ensures var next := offset + |packets[0]|;
      payload[offset..] == Concat(packets) <==>
        payload[offset..next] == packets[0] && payload[next..] == Concat(packets[1..])
  {
    var first, next := packets[0], offset + |packets[0]|;
    Cut(payload, offset, next, |payload|);
    Pair(payload[offset..next], payload[next..|payload|], first, Concat(packets[1..]));
    assert payload[offset..] == payload[offset..|payload|] && payload[next..] == payload[next..|payload|];
  }

  lemma {:induction false} LayoutMisses(payload: Bytes, mtu: nat, entries: seq<Entry>, offset: nat, packets: seq<Bytes>)
    requires entries != [] && packets != [] && offset <= |payload|
    requires entries[0] != Entry(offset, |packets[0]|) || offset + |packets[0]| > |payload|
    ensures Walk(payload, mtu, entries, offset) != Some(packets)
    ensures entries != Layout(packets, offset) || payload[offset..] != Concat(packets)
  {
    WalkUnfold(payload, mtu, entries, offset, packets);
    UnfoldLayout(packets, offset);
    assert Layout(packets, offset)[0] == Entry(offset, |packets[0]|);
    assert |Concat(packets)| >= |packets[0]|;
  }

  lemma {:induction false} WalkUnfold(payload: Bytes, mtu: nat, entries: seq<Entry>, offset: nat, packets: seq<Bytes>)
    requires entries != [] && packets != [] && offset <= |payload|
    ensures var e := entries[0];
      Walk(payload, mtu, entries, offset) == Some(packets) <==>
        && e.offset == offset && offset + e.length <= |payload|
        && payload[offset..offset + e.length] == packets[0] && ValidIpv4(packets[0], mtu)
        && Walk(payload, mtu, entries[1..], offset + e.length) == Some(packets[1..])
  {
    var e := entries[0];
    if e.offset == offset && offset + e.length <= |payload| {
      var first, rest := payload[offset..offset + e.length], Walk(payload, mtu, entries[1..], offset + e.length);
      if rest.Some? { assert ([first] + rest.value)[1..] == rest.value; }
      assert packets == [packets[0]] + packets[1..];
    }
  }

  /** The descriptor bytes are exactly the table, entry by entry. */
  lemma {:induction false} DescriptorsAreTable(b: Bytes, at: nat, packets: seq<Bytes>, offset: nat)
    requires at + 8 * |packets| <= |b| && offset + |Concat(packets)| <= U32_MAX
    ensures b[at..at + 8 * |packets|] == Descriptors(packets, offset) <==>
      Table(b, at, |packets|) == Layout(packets, offset)
    decreases packets
  {
    if packets != [] {
      var first, rest := packets[0], packets[1..];
      DescriptorsAreTable(b, at + 8, rest, offset + |first|);
      TableStep(b, at, first, rest, packets, offset);
    }
  }

  lemma {:induction false} TableStep(b: Bytes, at: nat, first: Bytes, rest: seq<Bytes>, packets: seq<Bytes>, offset: nat)
    requires packets != [] && first == packets[0] && rest == packets[1..]
    requires at + 8 * |packets| <= |b| && offset <= U32_MAX && |first| <= U32_MAX
    requires b[at + 8..at + 8 + 8 * |rest|] == Descriptors(rest, offset + |first|) <==>
      Table(b, at + 8, |rest|) == Layout(rest, offset + |first|)
    ensures b[at..at + 8 * |packets|] == Descriptors(packets, offset) <==>
      Table(b, at, |packets|) == Layout(packets, offset)
  {
    var next, n := offset + |first|, |rest|;
    UnfoldDescriptors(packets, offset);
    UnfoldTable(b, at, |packets|);
    UnfoldLayout(packets, offset);
    DescriptorIsEntry(b, at, offset, |first|);
    SplitAt(b, at, at + 8, at + 8 + 8 * n, Descriptor(offset, |first|), Descriptors(rest, next));
    ConsEntries(EntryAt(b, at), Table(b, at + 8, n), Entry(offset, |first|), Layout(rest, next));
  }

  lemma {:induction false} UnfoldDescriptors(packets: seq<Bytes>, offset: nat)
    requires packets != []
    ensures Descriptors(packets, offset) ==
      Descriptor(offset, |packets[0]|) + Descriptors(packets[1..], offset + |packets[0]|)
  {
  }

  lemma {:induction false} UnfoldTable(b: Bytes, at: nat, count: nat)
    requires 0 < count && at + 8 * count <= |b|
    ensures Table(b, at, count) == [EntryAt(b, at)] + Table(b, at + 8, count - 1)
  {
  }

  lemma {:induction false} UnfoldLayout(packets: seq<Bytes>, offset: nat)
    requires packets != []
    ensures Layout(packets, offset) == [Entry(offset, |packets[0]|)] + Layout(packets[1..], offset + |packets[0]|)
  {
  }

  lemma {:induction false} SplitAt(b: Bytes, from: nat, mid: nat, to: nat, x: Bytes, y: Bytes)
    requires from <= mid <= to <= |b| && |x| == mid - from
    ensures b[from..to] == x + y <==> b[from..mid] == x && b[mid..to] == y
  {
    Cut(b, from, mid, to);
    Pair(b[from..mid], b[mid..to], x, y);
  }

  lemma {:induction false} ConsEntries(e: Entry, es: seq<Entry>, f: Entry, fs: seq<Entry>)
    ensures [e] + es == [f] + fs <==> e == f && es == fs
  {
    assert ([e] + es)[0] == e && ([e] + es)[1..] == es;
    assert ([f] + fs)[0] == f && ([f] + fs)[1..] == fs;
  }

  lemma {:induction false} Pair(a: Bytes, b: Bytes, c: Bytes, d: Bytes)
    requires |a| == |c|
    ensures a + b == c + d <==> a == c && b == d
  {
    if a + b == c + d {
      Front(a + b, a, b);
      Front(a + b, c, d);
    }
  }

  lemma {:induction false} DescriptorIsEntry(b: Bytes, at: nat, offset: nat, length: nat)
    requires at + 8 <= |b| && offset <= U32_MAX && length <= U32_MAX
    ensures b[at..at + 8] == Descriptor(offset, length) <==> EntryAt(b, at) == Entry(offset, length)
  {
    PowerValues();
    DecodeLittle(offset, 4);
    DecodeLittle(length, 4);
    EncodeLittle(b[at..at + 4]);
    EncodeLittle(b[at + 4..at + 8]);
    Cut(b, at, at + 4, at + 8);
    if b[at..at + 8] == Descriptor(offset, length) { Front(b[at..at + 8], Little(offset, 4), Little(length, 4)); }
  }

  lemma {:induction false} Front(s: Bytes, a: Bytes, b: Bytes)
    requires s == a + b
    ensures s[..|a|] == a && s[|a|..] == b
  {
  }

  lemma {:induction false} Cut(s: Bytes, a: nat, b: nat, c: nat)
    requires a <= b <= c <= |s|
    ensures s[a..c] == s[a..b] + s[b..c]
    ensures s[a..c][..b - a] == s[a..b] && s[a..c][b - a..] == s[b..c]
    ensures s[b..|s|] == s[b..] && s[a..|s|] == s[a..]
  {
  }

  /** A well-formed head reads back, and an accepted head is in its only encoding. */
  lemma {:induction false} HeadReads(payload: Bytes, count: nat, depth: nat)
    requires 0 < count <= depth && count <= MAX_PACKETS && 8 + 8 * count <= |payload|
    requires payload[..8] == BatchHead(count)
    ensures HeadCount(payload, depth) == Some(count)
  {
    PowerValues();
    var h := payload[..8];
    assert payload[0..2] == h[..2] == Little(count, 2);
    assert payload[2..4] == h[2..4] == Little(0, 2);
    assert payload[4..8] == h[4..8] == Little(8 * count, 4);
    ReadBack(payload, 0, count, 2);
    ReadBack(payload, 2, 0, 2);
    ReadBack(payload, 4, 8 * count, 4);
  }

  lemma {:induction false} HeadStands(payload: Bytes, depth: nat)
    requires HeadCount(payload, depth).Some?
    ensures payload[..8] == BatchHead(HeadCount(payload, depth).value)
  {
    var count := HeadCount(payload, depth).value;
    StandsThere(payload, 0, count, 2);
    StandsThere(payload, 2, 0, 2);
    StandsThere(payload, 4, 8 * count, 4);
    assert payload[..8] == payload[0..2] + payload[2..4] + payload[4..8];
  }

  /** Decoding accepts a payload exactly when it is the encoding of a valid batch, and returns that batch. */
  lemma {:induction false} BatchBijection(payload: Bytes, packets: seq<Bytes>, mtu: nat, depth: nat)
    requires |payload| <= MAX_PAYLOAD
    ensures DecodeBatch(payload, mtu, depth) == Some(packets) <==>
      ValidBatch(packets, mtu, depth) && payload == Batch(packets)
  {
    if DecodeBatch(payload, mtu, depth) == Some(packets) { BatchIsCanonical(payload, packets, mtu, depth); }
    if ValidBatch(packets, mtu, depth) && payload == Batch(packets) { BatchReads(payload, packets, mtu, depth); }
  }

  lemma {:induction false} BatchIsCanonical(payload: Bytes, packets: seq<Bytes>, mtu: nat, depth: nat)
    requires DecodeBatch(payload, mtu, depth) == Some(packets) && |payload| <= MAX_PAYLOAD
    ensures ValidBatch(packets, mtu, depth) && payload == Batch(packets)
  {
    var count := HeadCount(payload, depth).value;
    HeadStands(payload, depth);
    DecodedParts(payload, packets, mtu, count);
    Assemble(payload, packets, count);
  }

  lemma {:induction false} DecodedParts(payload: Bytes, packets: seq<Bytes>, mtu: nat, count: nat)
    requires 8 + 8 * count <= |payload| && Walk(payload, mtu, Table(payload, 8, count), 8 + 8 * count) == Some(packets)
    ensures Table(payload, 8, count) == Layout(packets, 8 + 8 * count) && payload[8 + 8 * count..] == Concat(packets)
    ensures forall p :: p in packets ==> ValidIpv4(p, mtu)
  {
    WalkIffLayout(payload, mtu, Table(payload, 8, count), 8 + 8 * count, packets);
  }

  lemma {:induction false} Assemble(payload: Bytes, packets: seq<Bytes>, count: nat)
    requires 8 + 8 * count <= |payload| <= MAX_PAYLOAD && payload[..8] == BatchHead(count)
    requires Table(payload, 8, count) == Layout(packets, 8 + 8 * count) && payload[8 + 8 * count..] == Concat(packets)
    ensures count == |packets| && payload == Batch(packets)
  {
    assert |Table(payload, 8, count)| == |Layout(packets, 8 + 8 * count)|;
    BatchParts(payload, packets);
  }

  lemma {:induction false} BatchReads(payload: Bytes, packets: seq<Bytes>, mtu: nat, depth: nat)
    requires ValidBatch(packets, mtu, depth) && payload == Batch(packets) && |payload| <= MAX_PAYLOAD
    ensures DecodeBatch(payload, mtu, depth) == Some(packets)
  {
    BatchParts(payload, packets);
    HeadReads(payload, |packets|, depth);
    WalkIffLayout(payload, mtu, Table(payload, 8, |packets|), 8 + 8 * |packets|, packets);
  }

  /** A payload is the encoding of a batch exactly when its head, table and body are. */
  lemma {:induction false} BatchParts(payload: Bytes, packets: seq<Bytes>)
    requires 8 + 8 * |packets| <= |payload| <= MAX_PAYLOAD
    ensures payload == Batch(packets) <==>
      && payload[..8] == BatchHead(|packets|)
      && Table(payload, 8, |packets|) == Layout(packets, 8 + 8 * |packets|)
      && payload[8 + 8 * |packets|..] == Concat(packets)
  {
    var base := 8 + 8 * |packets|;
    ThreeParts(payload, 8, base, BatchHead(|packets|), Descriptors(packets, base), Concat(packets));
    if base + |Concat(packets)| <= U32_MAX { DescriptorsAreTable(payload, 8, packets, base); }
  }

  lemma {:induction false} ThreeParts(s: Bytes, n: nat, m: nat, a: Bytes, b: Bytes, c: Bytes)
    requires n <= m <= |s| && |a| == n && |b| == m - n
    ensures s == a + b + c <==> s[..n] == a && s[n..m] == b && s[m..] == c
  {
    assert s == (s[..n] + s[n..m]) + s[m..];
    Pair(s[..n] + s[n..m], s[m..], a + b, c);
    Pair(s[..n], s[n..m], a, b);
  }

  lemma {:induction false} HeaderReads(m: Bytes, kind: nat, length: nat, sequence: nat)
    requires |m| >= HEADER_SIZE && m[..HEADER_SIZE] == Header(kind, length, sequence)
    requires kind <= U32_MAX && length <= U32_MAX && sequence <= U64_MAX
    ensures ReadLittle(m, 0, 4) == Some(ABI_MAGIC) && ReadLittle(m, 4, 2) == Some(XSNET_ABI_VERSION)
    ensures ReadLittle(m, 6, 2) == Some(HEADER_SIZE) && ReadLittle(m, 8, 4) == Some(kind)
    ensures ReadLittle(m, 12, 4) == Some(0) && ReadLittle(m, 16, 4) == Some(length)
    ensures ReadLittle(m, 20, 4) == Some(0) && ReadLittle(m, 24, 8) == Some(sequence)
  {
    PowerValues();
    HeaderSlices(m, kind, length, sequence);
    ReadBack(m, 0, ABI_MAGIC, 4);
    ReadBack(m, 4, XSNET_ABI_VERSION, 2);
    ReadBack(m, 6, HEADER_SIZE, 2);
    ReadBack(m, 8, kind, 4);
    ReadBack(m, 12, 0, 4);
    ReadBack(m, 16, length, 4);
    ReadBack(m, 20, 0, 4);
    ReadBack(m, 24, sequence, 8);
  }

  lemma {:induction false} HeaderSlices(m: Bytes, kind: nat, length: nat, sequence: nat)
    requires |m| >= HEADER_SIZE
    ensures m[..HEADER_SIZE] == Header(kind, length, sequence) <==>
      && m[0..4] == Little(ABI_MAGIC, 4) && m[4..6] == Little(XSNET_ABI_VERSION, 2)
      && m[6..8] == Little(HEADER_SIZE, 2) && m[8..12] == Little(kind, 4)
      && m[12..16] == Little(0, 4) && m[16..20] == Little(length, 4)
      && m[20..24] == Little(0, 4) && m[24..32] == Little(sequence, 8)
  {
    Slices(m, Little(ABI_MAGIC, 4), Little(XSNET_ABI_VERSION, 2), Little(HEADER_SIZE, 2), Little(kind, 4),
           Little(0, 4), Little(length, 4), Little(0, 4), Little(sequence, 8));
  }

  lemma {:induction false} Slices(m: Bytes, a: Bytes, b: Bytes, c: Bytes, d: Bytes, e: Bytes, f: Bytes, g: Bytes, h: Bytes)
    requires |m| >= 32 && |a| == 4 && |b| == 2 && |c| == 2 && |d| == 4 && |e| == 4 && |f| == 4 && |g| == 4 && |h| == 8
    ensures m[..32] == a + b + c + d + e + f + g + h <==>
      && m[0..4] == a && m[4..6] == b && m[6..8] == c && m[8..12] == d
      && m[12..16] == e && m[16..20] == f && m[20..24] == g && m[24..32] == h
  {
    var all, x := a + b + c + d + e + f + g + h, m[..32];
    assert all[0..4] == a && all[4..6] == b && all[6..8] == c && all[8..12] == d;
    assert all[12..16] == e && all[16..20] == f && all[20..24] == g && all[24..32] == h;
    assert x[0..4] == m[0..4] && x[4..6] == m[4..6] && x[6..8] == m[6..8] && x[8..12] == m[8..12];
    assert x[12..16] == m[12..16] && x[16..20] == m[16..20] && x[20..24] == m[20..24] && x[24..32] == m[24..32];
    assert x == x[0..4] + x[4..6] + x[6..8] + x[8..12] + x[12..16] + x[16..20] + x[20..24] + x[24..32];
  }

  /**
   The response codec is a bijection between valid batches and accepted responses:
   decoding an encoded batch gives it back, and every accepted response is byte for
   byte the encoding of what was decoded.
   */
  lemma {:induction false} ResponseBijection(response: Bytes, packets: seq<Bytes>, sequence: nat, mtu: nat, depth: nat)
    requires sequence <= U64_MAX
    ensures DecodeTransmitResponse(response, sequence, mtu, depth) == Some(packets) <==>
      ValidBatch(packets, mtu, depth) && response == Message(TRANSMIT_BATCH, sequence, Batch(packets))
  {
    if DecodeTransmitResponse(response, sequence, mtu, depth) == Some(packets) {
      ResponseIsCanonical(response, packets, sequence, mtu, depth);
    }
    if ValidBatch(packets, mtu, depth) && response == Message(TRANSMIT_BATCH, sequence, Batch(packets)) {
      var payload := Batch(packets);
      ConcatBound(packets, mtu);
      assert response[..HEADER_SIZE] == Header(TRANSMIT_BATCH, |payload|, sequence);
      assert response[HEADER_SIZE..] == payload;
      HeaderReads(response, TRANSMIT_BATCH, |payload|, sequence);
      BatchBijection(payload, packets, mtu, depth);
    }
  }

  lemma {:induction false} ResponseIsCanonical(response: Bytes, packets: seq<Bytes>, sequence: nat, mtu: nat, depth: nat)
    requires DecodeTransmitResponse(response, sequence, mtu, depth) == Some(packets)
    ensures ValidBatch(packets, mtu, depth) && response == Message(TRANSMIT_BATCH, sequence, Batch(packets))
  {
    var payload := response[HEADER_SIZE..];
    BatchBijection(payload, packets, mtu, depth);
    HeaderStands(response, TRANSMIT_BATCH, |payload|, sequence);
    assert response == response[..HEADER_SIZE] + payload;
  }

  lemma {:induction false} HeaderStands(m: Bytes, kind: nat, length: nat, sequence: nat)
    requires |m| >= HEADER_SIZE
    requires ReadLittle(m, 0, 4) == Some(ABI_MAGIC) && ReadLittle(m, 4, 2) == Some(XSNET_ABI_VERSION)
    requires ReadLittle(m, 6, 2) == Some(HEADER_SIZE) && ReadLittle(m, 8, 4) == Some(kind)
    requires ReadLittle(m, 12, 4) == Some(0) && ReadLittle(m, 16, 4) == Some(length)
    requires ReadLittle(m, 20, 4) == Some(0) && ReadLittle(m, 24, 8) == Some(sequence)
    ensures m[..HEADER_SIZE] == Header(kind, length, sequence)
  {
    StandsThere(m, 0, ABI_MAGIC, 4);
    StandsThere(m, 4, XSNET_ABI_VERSION, 2);
    StandsThere(m, 6, HEADER_SIZE, 2);
    StandsThere(m, 8, kind, 4);
    StandsThere(m, 12, 0, 4);
    StandsThere(m, 16, length, 4);
    StandsThere(m, 20, 0, 4);
    StandsThere(m, 24, sequence, 8);
    HeaderSlices(m, kind, length, sequence);
  }
}
