/**
 Netlink framing as the gateway writes and reads it (section 2.3.2 of RFC 3549):
 aligned attributes, possibly nested, a batch of three messages, and the walk over
 the acknowledgements. Native byte order is taken to be little-endian.
 */
module Netlink {
  import opened Prelude
  import opened Bytes

  const NLA_F_NESTED: nat := 0x8000
  const NETLINK_HEADER_LENGTH: nat := 16
  const NLMSG_ERROR: nat := 2
  const I32_MIN: int := -0x8000_0000
  const I32_MAX: int := 0x7FFF_FFFF

  function Align4(length: nat): (r: nat)
    ensures r % 4 == 0 && length <= r < length + 4
  {
    (length + 3) / 4 * 4
  }

  function Zeros(n: nat): (z: Bytes)
    ensures |z| == n && forall i :: 0 <= i < n ==> z[i] == 0
  {
    seq(n, _ => 0)
  }

  // ----- attributes -----

  /** One attribute; the 16-bit length field saturates, as in the original. */
  function Attribute(kind: nat, value: Bytes): (b: Bytes)
    ensures |b| == Align4(4 + |value|) && |b| % 4 == 0
  {
    Little(if 4 + |value| <= U16_MAX then 4 + |value| else U16_MAX, 2) + Little(kind, 2) + value
    + Zeros(Align4(4 + |value|) - (4 + |value|))
  }

  /** What fills an attribute up to whole words is zero. */
  lemma {:induction false} PaddingIsZero(kind: nat, value: Bytes, i: nat)
    requires 4 + |value| <= i < |Attribute(kind, value)|
    ensures Attribute(kind, value)[i] == 0
  {
  }

  datatype Attr = Leaf(kind: nat, value: Bytes) | Nested(kind: nat, children: seq<Attr>)

  /** The types used are 15 bits wide; the top bit marks nesting. */
  predicate Kinds(attrs: seq<Attr>)
    decreases attrs
  {
    attrs != [] ==>
      && attrs[0].kind < NLA_F_NESTED && (attrs[0].Nested? ==> Kinds(attrs[0].children))
      && Kinds(attrs[1..])
  }

  function Encode(a: Attr): (b: Bytes)
    ensures |b| % 4 == 0
    decreases a, 0
  {
    match a
    case Leaf(kind, value) => Attribute(kind, value)
    case Nested(kind, children) => Attribute(kind + NLA_F_NESTED, EncodeAll(children))
  }

  function EncodeAll(attrs: seq<Attr>): (b: Bytes)
    ensures |b| % 4 == 0
    decreases attrs, 1
  {
    if attrs == [] then []
    else
      var first, rest := Encode(attrs[0]), EncodeAll(attrs[1..]);
      WholeWords(|first|, |rest|);
      first + rest
  }

  lemma {:induction false} WholeWords(a: nat, b: nat)
    requires a % 4 == 0 && b % 4 == 0
    ensures (a + b) % 4 == 0
  {
  }

  function Value(a: Attr): Bytes {
    if a.Leaf? then a.value else EncodeAll(a.children)
  }

  /** Every attribute, at every depth, fits its 16-bit length field. */
  predicate Fits(attrs: seq<Attr>)
    decreases attrs
  {
    attrs != [] ==>
      && 4 + |Value(attrs[0])| <= U16_MAX && (attrs[0].Nested? ==> Fits(attrs[0].children))
      && Fits(attrs[1..])
  }

  /** The reader of the other side: length, type, value, padding; nested values are read as lists. */
  function Read(b: Bytes): Option<seq<Attr>>
    decreases |b|
  {
    if b == [] then Some([])
    else if |b| < 4 then None
    else
      var length, kind := FromLittle(b[0..2]), FromLittle(b[2..4]);
      if length < 4 || Align4(length) > |b| then None
      else
        var first := if kind < NLA_F_NESTED then Some(Leaf(kind, b[4..length]))
                     else (var children := Read(b[4..length]);
                           if children.None? then None else Some(Nested(kind - NLA_F_NESTED, children.value)));
        var rest := Read(b[Align4(length)..]);
        if first.None? || rest.None? then None else Some([first.value] + rest.value)
  }

  /** What reading does to a string that starts with one attribute. */
  lemma {:induction false} AttributeReads(kind: nat, value: Bytes, rest: Bytes)
    requires kind <= U16_MAX && 4 + |value| <= U16_MAX
    ensures var b := Attribute(kind, value) + rest;
      && FromLittle(b[0..2]) == 4 + |value| && FromLittle(b[2..4]) == kind
      && b[4..4 + |value|] == value && b[Align4(4 + |value|)..] == rest
  {
    var b := Attribute(kind, value) + rest;
    PowerValues();
    DecodeLittle(4 + |value|, 2);
    DecodeLittle(kind, 2);
    assert b[0..2] == Little(4 + |value|, 2);
    assert b[2..4] == Little(kind, 2);
  }

  /** An attribute that does not fit announces a shorter value than it carries. */
  lemma {:induction false} OversizedReads(kind: nat, value: Bytes, rest: Bytes)
    requires 4 + |value| > U16_MAX
    requires kind <= U16_MAX
    ensures FromLittle((Attribute(kind, value) + rest)[0..2]) == U16_MAX < 4 + |value|
    ensures FromLittle((Attribute(kind, value) + rest)[2..4]) == kind
  {
    PowerValues();
    DecodeLittle(U16_MAX, 2);
    DecodeLittle(kind, 2);
    assert (Attribute(kind, value) + rest)[2..4] == Little(kind, 2);
    assert (Attribute(kind, value) + rest)[0..2] == Little(U16_MAX, 2);
  }

  /** An attribute list, nested to any depth, reads back unchanged exactly when every attribute fits its length field. */
  lemma {:induction false} AttributesRoundTrip(attrs: seq<Attr>)
    requires Kinds(attrs)
    ensures Read(EncodeAll(attrs)) == Some(attrs) <==> Fits(attrs)
    decreases attrs
  {
    if attrs != [] {
      AttributesRoundTrip(attrs[1..]);
      if attrs[0].Nested? { AttributesRoundTrip(attrs[0].children); }
      RoundTripStep(attrs, attrs[0], attrs[1..]);
    }
  }

  lemma {:induction false} RoundTripStep(attrs: seq<Attr>, a: Attr, rest: seq<Attr>)
    requires Kinds(attrs) && attrs != [] && a == attrs[0] && rest == attrs[1..]
    requires Read(EncodeAll(rest)) == Some(rest) <==> Fits(rest)
    requires a.Nested? ==> (Read(EncodeAll(a.children)) == Some(a.children) <==> Fits(a.children))
    ensures Read(EncodeAll(attrs)) == Some(attrs) <==> Fits(attrs)
  {
    FirstAndRest(attrs);
    assert attrs == [a] + rest;
    if 4 + |Value(a)| <= U16_MAX {
      FittingReads(a, rest);
    } else {
      OversizedFails(a, rest);
    }
  }

  lemma {:induction false} FittingReads(a: Attr, rest: seq<Attr>)
    requires a.kind < NLA_F_NESTED && 4 + |Value(a)| <= U16_MAX
    ensures Read(Attribute(WireKind(a), Value(a)) + EncodeAll(rest)) == Some([a] + rest) <==>
      Read(EncodeAll(rest)) == Some(rest) && (a.Nested? ==> Read(EncodeAll(a.children)) == Some(a.children))
  {
    AttributeReads(WireKind(a), Value(a), EncodeAll(rest));
    ReadStep(Attribute(WireKind(a), Value(a)) + EncodeAll(rest), a, rest);
  }

  lemma {:induction false} OversizedFails(a: Attr, rest: seq<Attr>)
    requires a.kind < NLA_F_NESTED && 4 + |Value(a)| > U16_MAX
    ensures Read(Attribute(WireKind(a), Value(a)) + EncodeAll(rest)) != Some([a] + rest)
  {
    OversizedReads(WireKind(a), Value(a), EncodeAll(rest));
    OversizedIsDifferent(Attribute(WireKind(a), Value(a)) + EncodeAll(rest), a, rest);
  }

  function WireKind(a: Attr): nat {
    if a.Leaf? then a.kind else a.kind + NLA_F_NESTED
  }

  lemma {:induction false} FirstAndRest(attrs: seq<Attr>)
    requires attrs != []
    ensures EncodeAll(attrs) == Attribute(WireKind(attrs[0]), Value(attrs[0])) + EncodeAll(attrs[1..])
  {
    var a := attrs[0];
    if a.Leaf? { assert Encode(a) == Attribute(a.kind, a.value); }
    else { assert Encode(a) == Attribute(a.kind + NLA_F_NESTED, EncodeAll(a.children)); }
  }

  lemma {:induction false} ReadStep(b: Bytes, a: Attr, rest: seq<Attr>)
    requires var end := 4 + |Value(a)|;
      && a.kind < NLA_F_NESTED && Align4(end) <= |b|
      && FromLittle(b[0..2]) == end && FromLittle(b[2..4]) == WireKind(a)
      && b[4..end] == Value(a) && b[Align4(end)..] == EncodeAll(rest)
    ensures Read(b) == Some([a] + rest) <==>
      Read(EncodeAll(rest)) == Some(rest) && (a.Nested? ==> Read(EncodeAll(a.children)) == Some(a.children))
  {
    var later := Read(EncodeAll(rest));
    if later.Some? {
      forall x: Attr ensures [x] + later.value == [a] + rest <==> x == a && later.value == rest {
        assert ([x] + later.value)[0] == x && ([x] + later.value)[1..] == later.value;
        assert ([a] + rest)[0] == a && ([a] + rest)[1..] == rest;
      }
    }
  }

  lemma {:induction false} OversizedIsDifferent(b: Bytes, a: Attr, rest: seq<Attr>)
    requires |b| >= 4 && FromLittle(b[0..2]) == U16_MAX && 4 + |Value(a)| > U16_MAX && a.kind < NLA_F_NESTED
    requires FromLittle(b[2..4]) == WireKind(a)
    ensures Read(b) != Some([a] + rest)
  {
    if a.Nested? && |b| >= U16_MAX { ReadIsAligned(b[4..U16_MAX]); }
    var later := if |b| >= Align4(U16_MAX) then Read(b[Align4(U16_MAX)..]) else None;
    if later.Some? {
      assert forall x: Attr :: ([x] + later.value)[0] == x;
      assert ([a] + rest)[0] == a;
    }
  }

  /** Only strings of whole words are attribute lists. */
  lemma {:induction false} ReadIsAligned(b: Bytes)
    ensures Read(b).Some? ==> |b| % 4 == 0
    decreases |b|
  {
    if |b| >= 4 {
      var length := FromLittle(b[0..2]);
      if 4 <= length && Align4(length) <= |b| { ReadIsAligned(b[Align4(length)..]); }
    }
  }

  lemma {:induction false} AlignedSum(a: nat, b: nat)
    ensures a % 4 == 0 ==> (a + Align4(b)) % 4 == 0
  {
  }

  /** The attribute list of a request, grown at its end. */
  class AttributeBuffer {
    var bytes: Bytes

    constructor ()
      ensures bytes == []
    {
      bytes := [];
    }

    method Push(kind: nat, value: Bytes)
      requires kind <= U16_MAX
      modifies this
      ensures bytes == old(bytes) + Attribute(kind, value)
      ensures |old(bytes)| % 4 == 0 ==> |bytes| % 4 == 0
    {
      var length := 4 + |value|;
      AlignedSum(|bytes|, length);
      bytes := bytes + Little(if length <= U16_MAX then length else U16_MAX, 2);
      bytes := bytes + Little(kind, 2);
      bytes := bytes + value;
      bytes := bytes + Zeros(Align4(length) - length);
    }

    method PushNested(kind: nat, value: Bytes)
      requires kind < NLA_F_NESTED
      modifies this
      ensures bytes == old(bytes) + Attribute(kind + NLA_F_NESTED, value)
      ensures |old(bytes)| % 4 == 0 ==> |bytes| % 4 == 0
    {
      Push(kind + NLA_F_NESTED, value);
    }
  }

  // ----- the gateway's requests -----

  /** A name with the zero byte that ends it. */
  function Text(name: Bytes): (b: Bytes)
    ensures |b| == |name| + 1
  {
    name + [0]
  }

  function Big4(n: nat): (b: Bytes)
    ensures |b| == 4
  {
    [n / 0x100_0000 % 256, n / 0x1_0000 % 256, n / 0x100 % 256, n % 256]
  }

  function Expression(name: Bytes, data: seq<Attr>): Attr {
    Nested(1, [Leaf(1, Text(name)), Nested(2, data)])
  }

  function MetaExpression(key: nat): seq<Attr> {
    [Leaf(1, Big4(1)), Leaf(2, Big4(key))]
  }

  function ComparisonExpression(value: Bytes): seq<Attr> {
    [Leaf(1, Big4(1)), Leaf(2, Big4(0)), Nested(3, [Leaf(1, value)])]
  }

  function DestinationExpression(): seq<Attr> {
    [Leaf(1, Big4(1)), Leaf(2, Big4(1)), Leaf(3, Big4(16)), Leaf(4, Big4(4))]
  }

  function MaskExpression(mask: Bytes): seq<Attr> {
    [Leaf(1, Big4(1)), Leaf(2, Big4(1)), Leaf(3, Big4(4)), Nested(4, [Leaf(1, mask)]), Nested(5, [Leaf(1, [0, 0, 0, 0])])]
  }

  // ASCII spellings.
  const META: Bytes := [109, 101, 116, 97]
  const CMP: Bytes := [99, 109, 112]
  const PAYLOAD: Bytes := [112, 97, 121, 108, 111, 97, 100]
  const BITWISE: Bytes := [98, 105, 116, 119, 105, 115, 101]
  const MASQ: Bytes := [109, 97, 115, 113]
  const NAT: Bytes := [110, 97, 116]
  const CHAIN_NAME: Bytes := [112, 111, 115, 116, 114, 111, 117, 116, 105, 110, 103]
  const OWNER_MARKER: Bytes := [120, 115, 45, 110, 101, 120, 117, 115, 45, 97, 103, 101, 110, 116, 45, 118, 49]

  /** What the rule of one route is matched against; a mask only for prefixes shorter than an address. */
  datatype RuleRoute = RuleRoute(outInterface: Bytes, network: Bytes, mask: Option<Bytes>)

  function MaskPart(mask: Option<Bytes>, rest: seq<Attr>): seq<Attr> {
    if mask.None? then rest else [Expression(BITWISE, MaskExpression(mask.value))] + rest
  }

  function RuleExpressions(inInterface: Bytes, route: RuleRoute): seq<Attr> {
    [Expression(META, MetaExpression(6))] + ([Expression(CMP, ComparisonExpression(Text(inInterface)))]
    + ([Expression(META, MetaExpression(7))] + ([Expression(CMP, ComparisonExpression(Text(route.outInterface)))]
    + ([Expression(PAYLOAD, DestinationExpression())]
    + MaskPart(route.mask, [Expression(CMP, ComparisonExpression(route.network))] + ([Expression(MASQ, [])] + []))))))
  }

  function RuleRequest(table: Bytes, inInterface: Bytes, route: RuleRoute): seq<Attr> {
    [Leaf(1, Text(table)), Leaf(2, Text(CHAIN_NAME)), Nested(4, RuleExpressions(inInterface, route)), Leaf(7, OWNER_MARKER)]
  }

  function TableRequest(table: Bytes): seq<Attr> {
    [Leaf(1, Text(table)), Leaf(6, OWNER_MARKER)]
  }

  function ChainRequest(table: Bytes): seq<Attr> {
    [Leaf(1, Text(table)), Leaf(3, Text(CHAIN_NAME)), Nested(4, [Leaf(1, Big4(4)), Leaf(2, Big4(100))]),
     Leaf(7, Text(NAT)), Leaf(12, OWNER_MARKER)]
  }

  function DeleteRequest(table: Bytes): seq<Attr> {
    [Leaf(1, Text(table))]
  }

  /** The bytes of a well-formed list; one that is not well formed weighs more than any buffer. */
  ghost function Load(attrs: seq<Attr>): nat {
    if Kinds(attrs) && Fits(attrs) then |EncodeAll(attrs)| else 1_000_000
  }

  lemma {:induction false} SmallLeaf(kind: nat, value: Bytes, rest: seq<Attr>, n: nat)
    requires kind < NLA_F_NESTED && |value| <= 1000 && Load(rest) <= n
    ensures Load([Leaf(kind, value)] + rest) <= n + |value| + 7
  {
    var all := [Leaf(kind, value)] + rest;
    assert all[0] == Leaf(kind, value) && all[1..] == rest;
    FirstAndRest(all);
  }

  lemma {:induction false} SmallNested(kind: nat, children: seq<Attr>, m: nat, rest: seq<Attr>, n: nat)
    requires kind < NLA_F_NESTED && Load(children) <= m && m <= 60_000 && Load(rest) <= n
    ensures Load([Nested(kind, children)] + rest) <= n + m + 7
  {
    var all := [Nested(kind, children)] + rest;
    assert all[0] == Nested(kind, children) && all[1..] == rest;
    FirstAndRest(all);
  }

  lemma {:induction false} SmallExpression(name: Bytes, data: seq<Attr>, m: nat, rest: seq<Attr>, n: nat)
    requires |name| <= 7 && Load(data) <= m && m <= 1000 && Load(rest) <= n
    ensures Load([Expression(name, data)] + rest) <= n + m + 29
  {
    SmallNested(2, data, m, [], 0);
    assert [Nested(2, data)] + [] == [Nested(2, data)];
    SmallLeaf(1, Text(name), [Nested(2, data)], m + 7);
    assert [Leaf(1, Text(name))] + [Nested(2, data)] == [Leaf(1, Text(name)), Nested(2, data)];
    SmallNested(1, [Leaf(1, Text(name)), Nested(2, data)], m + 22, rest, n);
  }

  /** Lists of short values are small. */
  lemma {:induction false} SmallLeaves(leaves: seq<Attr>)
    requires forall a :: a in leaves ==> a.Leaf? && a.kind < NLA_F_NESTED && |a.value| <= 32
    ensures Load(leaves) <= 39 * |leaves|
  {
    if leaves != [] {
      SmallLeaves(leaves[1..]);
      assert leaves[0] in leaves;
      SmallLeaf(leaves[0].kind, leaves[0].value, leaves[1..], 39 * |leaves[1..]|);
      assert leaves == [leaves[0]] + leaves[1..];
    }
  }

  lemma {:induction false} SmallComparison(value: Bytes)
    requires |value| <= 32
    ensures Load(ComparisonExpression(value)) <= 124
  {
    SmallLeaves([Leaf(1, value)]);
    SmallNested(3, [Leaf(1, value)], 39, [], 0);
    var d := [Nested(3, [Leaf(1, value)])];
    assert d + [] == d;
    SmallLeaf(2, Big4(0), d, 46);
    SmallLeaf(1, Big4(1), [Leaf(2, Big4(0))] + d, 57);
    assert [Leaf(1, Big4(1))] + ([Leaf(2, Big4(0))] + d) == ComparisonExpression(value);
  }

  lemma {:induction false} SmallMask(mask: Bytes)
    requires |mask| == 4
    ensures Load(MaskExpression(mask)) <= 200
  {
    SmallLeaves([Leaf(1, mask)]);
    SmallLeaves([Leaf(1, [0, 0, 0, 0])]);
    var xor := [Nested(5, [Leaf(1, [0, 0, 0, 0])])];
    SmallNested(5, [Leaf(1, [0, 0, 0, 0])], 39, [], 0);
    assert xor + [] == xor;
    var both := [Nested(4, [Leaf(1, mask)])] + xor;
    SmallNested(4, [Leaf(1, mask)], 39, xor, 46);
    SmallLeaf(3, Big4(4), both, 92);
    SmallLeaf(2, Big4(1), [Leaf(3, Big4(4))] + both, 103);
    SmallLeaf(1, Big4(1), [Leaf(2, Big4(1))] + ([Leaf(3, Big4(4))] + both), 114);
    assert [Leaf(1, Big4(1))] + ([Leaf(2, Big4(1))] + ([Leaf(3, Big4(4))] + both)) == MaskExpression(mask);
  }

  lemma {:induction false} SmallEnd(route: RuleRoute)
    requires |route.network| == 4 && (route.mask.Some? ==> |route.mask.value| == 4)
    ensures Load(MaskPart(route.mask, [Expression(CMP, ComparisonExpression(route.network))] + ([Expression(MASQ, [])] + []))) <= 500
  {
    SmallExpression(MASQ, [], 0, [], 0);
    SmallComparison(route.network);
    SmallExpression(CMP, ComparisonExpression(route.network), 124, [Expression(MASQ, [])] + [], 29);
    if route.mask.Some? {
      SmallMask(route.mask.value);
      SmallExpression(BITWISE, MaskExpression(route.mask.value), 200,
                      [Expression(CMP, ComparisonExpression(route.network))] + ([Expression(MASQ, [])] + []), 182);
    }
  }

  lemma {:induction false} SmallRule(inInterface: Bytes, route: RuleRoute)
    requires |inInterface| <= 15 && |route.outInterface| <= 15
    requires |route.network| == 4 && (route.mask.Some? ==> |route.mask.value| == 4)
    ensures Load(RuleExpressions(inInterface, route)) <= 2000
  {
    SmallEnd(route);
    var e0 := MaskPart(route.mask, [Expression(CMP, ComparisonExpression(route.network))] + ([Expression(MASQ, [])] + []));
    SmallLeaves(DestinationExpression());
    var e1 := [Expression(PAYLOAD, DestinationExpression())] + e0;
    SmallExpression(PAYLOAD, DestinationExpression(), 156, e0, 500);
    SmallComparison(Text(route.outInterface));
    var e2 := [Expression(CMP, ComparisonExpression(Text(route.outInterface)))] + e1;
    SmallExpression(CMP, ComparisonExpression(Text(route.outInterface)), 124, e1, 685);
    SmallLeaves(MetaExpression(7));
    var e3 := [Expression(META, MetaExpression(7))] + e2;
    SmallExpression(META, MetaExpression(7), 78, e2, 838);
    SmallComparison(Text(inInterface));
    var e4 := [Expression(CMP, ComparisonExpression(Text(inInterface)))] + e3;
    SmallExpression(CMP, ComparisonExpression(Text(inInterface)), 124, e3, 945);
    SmallLeaves(MetaExpression(6));
    SmallExpression(META, MetaExpression(6), 78, e4, 1098);
  }

  /**
   No request of the gateway comes near the limit of the length field: interface
   names have at most 15 bytes, so every request reads back unchanged.
   */
  lemma {:induction false} GatewayRequestsReadBack(table: Bytes, inInterface: Bytes, route: RuleRoute)
    requires |table| <= 24 && |inInterface| <= 15 && |route.outInterface| <= 15
    requires |route.network| == 4 && (route.mask.Some? ==> |route.mask.value| == 4)
    ensures ReadsBack(TableRequest(table)) && ReadsBack(ChainRequest(table)) && ReadsBack(DeleteRequest(table))
    ensures ReadsBack(RuleRequest(table, inInterface, route))
  {
    SmallLeaves(TableRequest(table));
    SmallReadsBack(TableRequest(table));
    SmallLeaves(DeleteRequest(table));
    SmallReadsBack(DeleteRequest(table));
    SmallChain(table);
    SmallReadsBack(ChainRequest(table));
    SmallRequest(table, inInterface, route);
    SmallReadsBack(RuleRequest(table, inInterface, route));
  }

  predicate ReadsBack(attrs: seq<Attr>) {
    Read(EncodeAll(attrs)) == Some(attrs)
  }

  lemma {:induction false} SmallReadsBack(attrs: seq<Attr>)
    requires Load(attrs) < 1_000_000
    ensures ReadsBack(attrs)
  {
    AttributesRoundTrip(attrs);
  }

  lemma {:induction false} SmallChain(table: Bytes)
    requires |table| <= 24
    ensures Load(ChainRequest(table)) <= 1000
  {
    var hook := [Leaf(1, Big4(4)), Leaf(2, Big4(100))];
    SmallLeaves(hook);
    var tail := [Leaf(7, Text(NAT)), Leaf(12, OWNER_MARKER)];
    SmallLeaves(tail);
    SmallNested(4, hook, 78, tail, 78);
    var rest := [Nested(4, hook)] + tail;
    SmallLeaf(3, Text(CHAIN_NAME), rest, 163);
    SmallLeaf(1, Text(table), [Leaf(3, Text(CHAIN_NAME))] + rest, 182);
    assert [Leaf(1, Text(table))] + ([Leaf(3, Text(CHAIN_NAME))] + rest) == ChainRequest(table);
  }

  lemma {:induction false} SmallRequest(table: Bytes, inInterface: Bytes, route: RuleRoute)
    requires |table| <= 24 && |inInterface| <= 15 && |route.outInterface| <= 15
    requires |route.network| == 4 && (route.mask.Some? ==> |route.mask.value| == 4)
    ensures Load(RuleRequest(table, inInterface, route)) <= 3000
  {
    SmallRule(inInterface, route);
    SmallRuleRequest(table, RuleExpressions(inInterface, route));
  }

  lemma {:induction false} SmallRuleRequest(table: Bytes, expressions: seq<Attr>)
    requires |table| <= 24 && Load(expressions) <= 2000
    ensures Load([Leaf(1, Text(table)), Leaf(2, Text(CHAIN_NAME)), Nested(4, expressions), Leaf(7, OWNER_MARKER)]) <= 3000
  {
    SmallLeaves([Leaf(7, OWNER_MARKER)]);
    SmallNested(4, expressions, 2000, [Leaf(7, OWNER_MARKER)], 39);
    var rest := [Nested(4, expressions)] + [Leaf(7, OWNER_MARKER)];
    SmallLeaf(2, Text(CHAIN_NAME), rest, 2046);
    SmallLeaf(1, Text(table), [Leaf(2, Text(CHAIN_NAME))] + rest, 2065);
    assert [Leaf(1, Text(table))] + ([Leaf(2, Text(CHAIN_NAME))] + rest)
        == [Leaf(1, Text(table)), Leaf(2, Text(CHAIN_NAME)), Nested(4, expressions), Leaf(7, OWNER_MARKER)];
  }

  // ----- messages -----

  /** A netlink message with the 4-byte nfnetlink header in front of its attributes. */
  datatype Message = Message(kind: nat, flags: nat, sequence: nat, family: nat, resource: nat, attributes: Bytes) {
    predicate Valid() {
      && kind <= U16_MAX && flags <= U16_MAX && sequence <= U32_MAX && family < 256 && resource <= U16_MAX
      && 20 + |attributes| <= U32_MAX
    }

    function Bytes(): (b: Bytes)
      requires Valid()
      ensures |b| == 20 + |attributes|
    {
      Little(20 + |attributes|, 4) + Little(kind, 2) + Little(flags, 2) + Little(sequence, 4) + Little(0, 4)
      + [family, 0] + [resource / 256, resource % 256] + attributes
    }
  }

  const NFNL_MSG_BATCH_BEGIN: nat := 0x10
  const NFNL_MSG_BATCH_END: nat := 0x11
  const NFNL_SUBSYS_NFTABLES: nat := 10

  /** The three messages of one transaction; the last one's sequence wraps. */
  function Batch(kind: nat, extraFlags: nat, sequence: nat, attributes: Bytes): seq<Message> {
    [Message(NFNL_MSG_BATCH_BEGIN, 0x05, 0, 0, NFNL_SUBSYS_NFTABLES, []),
     Message(NFNL_SUBSYS_NFTABLES * 256 + kind, 0x05 + extraFlags, sequence, 2, 0, attributes),
     Message(NFNL_MSG_BATCH_END, 0x01, (sequence + 1) % (U32_MAX + 1), 0, NFNL_SUBSYS_NFTABLES, [])]
  }

  function Join(parts: seq<Bytes>): Bytes {
    if parts == [] then [] else parts[0] + Join(parts[1..])
  }

  /** One frame of a netlink stream: the 16-byte header's type and sequence, and what follows the header. */
  datatype Frame = Frame(kind: nat, sequence: nat, body: Bytes)

  datatype Ending = Exhausted | Malformed

  /** The frames of a stream, and why the walk over it stopped. */
  datatype Stream = Stream(frames: seq<Frame>, ending: Ending)

  function FrameLength(b: Bytes): nat
    requires NETLINK_HEADER_LENGTH <= |b|
  {
    FromLittle(b[0..4])
  }

  function FirstFrame(b: Bytes, length: nat): Frame
    requires NETLINK_HEADER_LENGTH <= length <= |b|
  {
    Frame(FromLittle(b[4..6]), FromLittle(b[8..12]), b[16..length])
  }

  /** What is left after a frame and its padding; the padding of the last frame may be missing. */
  function AfterFrame(b: Bytes, length: nat): Bytes {
    if Align4(length) <= |b| then b[Align4(length)..] else []
  }

  function Walk(b: Bytes): Stream
    decreases |b|
  {
    if |b| < NETLINK_HEADER_LENGTH then Stream([], Exhausted)
    else
      var length := FrameLength(b);
      if length < NETLINK_HEADER_LENGTH || length > |b| then Stream([], Malformed)
      else
        var rest := Walk(AfterFrame(b, length));
        Stream([FirstFrame(b, length)] + rest.frames, rest.ending)
  }

  function MessageFrame(m: Message): Frame
    requires m.Valid()
  {
    Frame(m.kind, m.sequence, [m.family, 0] + [m.resource / 256, m.resource % 256] + m.attributes)
  }

  /** A string of whole words that starts with its own length is one frame. */
  ghost predicate ReadsAs(x: Bytes, f: Frame) {
    |x| >= NETLINK_HEADER_LENGTH && |x| % 4 == 0 && FrameLength(x) == |x| && FirstFrame(x, |x|) == f
  }

  lemma {:induction false} MessageReads(m: Message)
    requires m.Valid() && |m.attributes| % 4 == 0
    ensures ReadsAs(m.Bytes(), MessageFrame(m))
  {
    MessageParts(m);
    var x := m.Bytes();
    Fields(x, |x|, m.kind, m.sequence);
    assert FirstFrame(x, |x|) == MessageFrame(m);
  }

  lemma {:induction false} Fields(x: Bytes, length: nat, kind: nat, sequence: nat)
    requires |x| >= 16 && length <= U32_MAX && kind <= U16_MAX && sequence <= U32_MAX
    requires x[0..4] == Little(length, 4) && x[4..6] == Little(kind, 2) && x[8..12] == Little(sequence, 4)
    ensures FromLittle(x[0..4]) == length && FromLittle(x[4..6]) == kind && FromLittle(x[8..12]) == sequence
  {
    PowerValues();
    DecodeLittle(length, 4);
    DecodeLittle(kind, 2);
    DecodeLittle(sequence, 4);
  }

  lemma {:induction false} MessageParts(m: Message)
    requires m.Valid()
    ensures var x := m.Bytes();
      && |x| == 20 + |m.attributes|
      && x[0..4] == Little(20 + |m.attributes|, 4) && x[4..6] == Little(m.kind, 2) && x[8..12] == Little(m.sequence, 4)
      && x[6..8] == Little(m.flags, 2) && x[12..16] == Little(0, 4)
      && x[16..|x|] == [m.family, 0] + [m.resource / 256, m.resource % 256] + m.attributes
  {
    HeaderParts(Little(20 + |m.attributes|, 4), Little(m.kind, 2), Little(m.flags, 2), Little(m.sequence, 4), Little(0, 4),
             [m.family, 0], [m.resource / 256, m.resource % 256], m.attributes);
  }

  lemma {:induction false} HeaderParts(a: Bytes, b: Bytes, c: Bytes, d: Bytes, e: Bytes, f: Bytes, g: Bytes, h: Bytes)
    requires |a| == 4 && |b| == 2 && |c| == 2 && |d| == 4 && |e| == 4
    ensures var x := a + b + c + d + e + f + g + h;
      && x[0..4] == a && x[4..6] == b && x[6..8] == c && x[8..12] == d && x[12..16] == e && x[16..|x|] == f + g + h
  {
    var x, head := a + b + c + d + e + f + g + h, a + b + c + d + e;
    var tail := f + g + h;
    assert x == head + tail;
    assert head[0..4] == a && head[4..6] == b && head[6..8] == c && head[8..12] == d && head[12..16] == e;
    assert x[0..4] == head[0..4] && x[4..6] == head[4..6] && x[8..12] == head[8..12];
    assert x[6..8] == head[6..8] && x[12..16] == head[12..16];
  }

  lemma {:induction false} FrameThenRest(x: Bytes, after: Bytes, f: Frame)
    requires ReadsAs(x, f)
    ensures FrameLength(x + after) == |x| && FirstFrame(x + after, |x|) == f && AfterFrame(x + after, |x|) == after
  {
    assert (x + after)[0..4] == x[0..4] && (x + after)[4..6] == x[4..6] && (x + after)[8..12] == x[8..12];
    assert (x + after)[16..|x|] == x[16..|x|];
    AlignedStays(|x|);
  }

  lemma {:induction false} AlignedStays(n: nat)
    requires n % 4 == 0
    ensures Align4(n) == n
  {
  }

  /** Frames laid end to end walk back one by one. */
  lemma {:induction false} JoinWalks(parts: seq<Bytes>, frames: seq<Frame>)
    requires |parts| == |frames| && forall i :: 0 <= i < |parts| ==> ReadsAs(parts[i], frames[i])
    ensures Walk(Join(parts)) == Stream(frames, Exhausted)
    decreases parts
  {
    if parts != [] {
      JoinWalks(parts[1..], frames[1..]);
      FrameThenRest(parts[0], Join(parts[1..]), frames[0]);
      assert frames == [frames[0]] + frames[1..];
    }
  }

  /** A transaction over attributes built by this module walks into exactly its three messages. */
  lemma {:induction false} BatchWalks(kind: nat, extraFlags: nat, sequence: nat, attrs: seq<Attr>)
    requires kind < 256 && 0x05 + extraFlags <= U16_MAX && sequence <= U32_MAX && 20 + |EncodeAll(attrs)| <= U32_MAX
    ensures var m := Batch(kind, extraFlags, sequence, EncodeAll(attrs));
      && m[0].Valid() && m[1].Valid() && m[2].Valid()
      && Walk(Join([m[0].Bytes(), m[1].Bytes(), m[2].Bytes()])) ==
           Stream([MessageFrame(m[0]), MessageFrame(m[1]), MessageFrame(m[2])], Exhausted)
  {
    var m := Batch(kind, extraFlags, sequence, EncodeAll(attrs));
    MessageReads(m[0]);
    MessageReads(m[1]);
    MessageReads(m[2]);
    ThreeWalk(m[0].Bytes(), m[1].Bytes(), m[2].Bytes(), MessageFrame(m[0]), MessageFrame(m[1]), MessageFrame(m[2]));
  }

  lemma {:induction false} ThreeWalk(x: Bytes, y: Bytes, z: Bytes, f: Frame, g: Frame, h: Frame)
    requires ReadsAs(x, f) && ReadsAs(y, g) && ReadsAs(z, h)
    ensures Walk(Join([x, y, z])) == Stream([f, g, h], Exhausted)
  {
    JoinWalks([x, y, z], [f, g, h]);
  }

  /** The rest of the header reads back too; the sender's port is left to the kernel. */
  lemma {:induction false} HeaderReadsBack(m: Message)
    requires m.Valid()
    ensures ReadLittle(m.Bytes(), 0, 4) == Some(|m.Bytes()|) && ReadLittle(m.Bytes(), 6, 2) == Some(m.flags)
    ensures ReadLittle(m.Bytes(), 12, 4) == Some(0)
    ensures m.Bytes()[16] == m.family && m.Bytes()[18] as nat * 256 + m.Bytes()[19] as nat == m.resource
  {
    MessageParts(m);
    PowerValues();
    DecodeLittle(|m.Bytes()|, 4);
    DecodeLittle(m.flags, 2);
    DecodeLittle(0, 4);
    var tail := m.Bytes()[16..|m.Bytes()|];
    assert m.Bytes()[16] == tail[0] && m.Bytes()[18] == tail[2] && m.Bytes()[19] == tail[3];
  }

  /**
   The transaction is one request between two brackets that name its subsystem. Only the
   request bears its sequence number, so no answer to a bracket can be taken for its own.
   */
  lemma {:induction false} BatchIsOneTransaction(kind: nat, extraFlags: nat, sequence: nat, attributes: Bytes)
    requires kind < 256 && extraFlags % 8 == 0 && 1 <= sequence <= U32_MAX
    ensures var m := Batch(kind, extraFlags, sequence, attributes);
      && |m| == 3 && m[1].kind / 256 == m[0].resource == m[2].resource && m[1].kind % 256 == kind
      && m[0].kind == NFNL_MSG_BATCH_BEGIN && m[2].kind == NFNL_MSG_BATCH_END
      && m[1].sequence == sequence && m[0].sequence == 0 && m[2].sequence == (if sequence == U32_MAX then 0 else sequence + 1)
      && m[1].family == 2 && m[0].family == m[2].family == 0
      && m[1].flags - extraFlags == m[0].flags && m[1].attributes == attributes && m[0].attributes == m[2].attributes == []
  {
  }

  // ----- acknowledgements -----

  datatype Ack = Accepted | Failed(error: int)

  const NOT_FOUND: int := I32_MIN
  const ENOENT: int := 2

  function Signed32(n: nat): int {
    if n <= 0x7FFF_FFFF then n else n - 0x1_0000_0000
  }

  function SaturatingNeg(n: int): int {
    if n == I32_MIN then I32_MAX else -n
  }

  /** The verdict of one acknowledgement frame. */
  function Verdict(f: Frame): Ack {
    if |f.body| < 4 then Failed(-1)
    else
      var error := Signed32(FromLittle(f.body[0..4]));
      if error == 0 then Accepted else Failed(SaturatingNeg(error))
  }

  predicate Acknowledges(f: Frame, sequence: nat) {
    f.kind == NLMSG_ERROR && f.sequence == sequence
  }

  /** The verdict of the first frame that answers `sequence`; without one, a malformed stream or not found. */
  function FirstAck(frames: seq<Frame>, ending: Ending, sequence: nat): Ack {
    if frames == [] then (if ending.Malformed? then Failed(-1) else Failed(NOT_FOUND))
    else if Acknowledges(frames[0], sequence) then Verdict(frames[0])
    else FirstAck(frames[1..], ending, sequence)
  }

  /** What the remaining bytes of a datagram answer. */
  function Answer(response: Bytes, sequence: nat): Ack {
    FirstAck(Walk(response).frames, Walk(response).ending, sequence)
  }

  /** What is left of a datagram from an offset that may lie beyond its end. */
  function Rest(response: Bytes, offset: nat): Bytes {
    if offset <= |response| then response[offset..] else []
  }

  method ParseAck(response: Bytes, sequence: nat) returns (ack: Ack)
    ensures ack == Answer(response, sequence)
  {
    var offset := 0;
    assert response[0..] == response;
    while offset + NETLINK_HEADER_LENGTH <= |response|
      invariant Answer(Rest(response, offset), sequence) == Answer(response, sequence)
    {
      var found;
      found, offset := ReadFrame(response, offset, sequence);
      if found.Some? {
        return found.value;
      }
    }
    ShortHasNoAnswer(Rest(response, offset), sequence);
    return Failed(NOT_FOUND);
  }

  /** One turn of the loop: the answer, or the offset of the next frame. */
  method ReadFrame(response: Bytes, offset: nat, sequence: nat) returns (found: Option<Ack>, next: nat)
    requires offset + NETLINK_HEADER_LENGTH <= |response|
    ensures next >= offset && (found.None? ==> next > offset)
    ensures Answer(Rest(response, offset), sequence) ==
      if found.Some? then found.value else Answer(Rest(response, next), sequence)
  {
    var rest := Rest(response, offset);
    var length := FrameLength(rest);
    AckStep(response, offset, sequence);
    if length < NETLINK_HEADER_LENGTH || offset + length > |response| {
      return Some(Failed(-1)), offset;
    }
    var frame := FirstFrame(rest, length);
    found := if Acknowledges(frame, sequence) then Some(Verdict(frame)) else None;
    next := offset + Align4(length);
  }

  lemma {:induction false} RestStep(response: Bytes, offset: nat, length: nat)
    requires offset <= |response|
    ensures AfterFrame(Rest(response, offset), length) == Rest(response, offset + Align4(length))
  {
  }

  lemma {:induction false} AckStep(response: Bytes, offset: nat, sequence: nat)
    requires offset + NETLINK_HEADER_LENGTH <= |response|
    ensures var rest := Rest(response, offset);
      var length := FrameLength(rest);
      Answer(rest, sequence) ==
        if length < NETLINK_HEADER_LENGTH || offset + length > |response| then Failed(-1)
        else if Acknowledges(FirstFrame(rest, length), sequence) then Verdict(FirstFrame(rest, length))
        else Answer(Rest(response, offset + Align4(length)), sequence)
  {
    var rest := Rest(response, offset);
    var length := FrameLength(rest);
    if NETLINK_HEADER_LENGTH <= length <= |rest| {
      AnswerStep(rest, sequence);
      RestStep(response, offset, length);
    }
  }

  lemma {:induction false} ShortHasNoAnswer(b: Bytes, sequence: nat)
    requires |b| < NETLINK_HEADER_LENGTH
    ensures Answer(b, sequence) == Failed(NOT_FOUND)
  {
  }

  lemma {:induction false} AnswerStep(b: Bytes, sequence: nat)
    requires NETLINK_HEADER_LENGTH <= |b| && NETLINK_HEADER_LENGTH <= FrameLength(b) <= |b|
    ensures var f := FirstFrame(b, FrameLength(b));
      Answer(b, sequence) ==
        if Acknowledges(f, sequence) then Verdict(f) else Answer(AfterFrame(b, FrameLength(b)), sequence)
  {
    var f, rest := FirstFrame(b, FrameLength(b)), Walk(AfterFrame(b, FrameLength(b))).frames;
    assert ([f] + rest)[1..] == rest;
  }

  /** "Not found" is reported exactly when a well-formed stream holds no answer; no kernel error looks like it. */
  lemma {:induction false} NotFoundIsUnambiguous(frames: seq<Frame>, ending: Ending, sequence: nat)
    ensures FirstAck(frames, ending, sequence) == Failed(NOT_FOUND) <==>
      ending.Exhausted? && forall f :: f in frames ==> !Acknowledges(f, sequence)
    decreases frames
  {
    if frames != [] {
      assert forall f :: f in frames <==> f == frames[0] || f in frames[1..];
      if Acknowledges(frames[0], sequence) {
        if |frames[0].body| >= 4 { EncodeLittle(frames[0].body[0..4]); PowerValues(); }
      } else {
        NotFoundIsUnambiguous(frames[1..], ending, sequence);
      }
    }
  }

  // ----- what the kernel sends -----

  /** A message of the kernel, of whole words (section 2.2 of RFC 3549). */
  datatype Sent = Sent(kind: nat, flags: nat, sequence: nat, port: nat, body: Bytes) {
    predicate Valid() {
      && kind <= U16_MAX && flags <= U16_MAX && sequence <= U32_MAX && port <= U32_MAX
      && |body| % 4 == 0 && 16 + |body| <= U32_MAX
    }

    function Bytes(): (b: Bytes)
      requires Valid()
      ensures |b| == 16 + |body|
    {
      Little(16 + |body|, 4) + Little(kind, 2) + Little(flags, 2) + Little(sequence, 4) + Little(port, 4) + body
    }
  }

  /** A 32-bit integer in two's complement. */
  function TwosComplement(n: int): nat
    requires I32_MIN <= n <= I32_MAX
  {
    if n < 0 then n + 0x1_0000_0000 else n
  }

  /** The acknowledgement of a message: an error message with the negated error number, then the message it is about. */
  function Acknowledgement(flags: nat, sequence: nat, port: nat, status: int, echo: Bytes): Sent
    requires I32_MIN <= status <= I32_MAX
  {
    Sent(2, flags, sequence, port, Little(TwosComplement(status), 4) + echo)
  }

  function Datagram(messages: seq<Sent>): Bytes
    requires forall m :: m in messages ==> m.Valid()
  {
    if messages == [] then [] else messages[0].Bytes() + Datagram(messages[1..])
  }

  /** Nothing in these messages is an answer to `sequence`. */
  predicate NoAnswer(messages: seq<Sent>, sequence: nat) {
    forall m :: m in messages ==> m.Valid() && !(m.kind == 2 && m.sequence == sequence)
  }

  lemma {:induction false} SentReads(m: Sent)
    requires m.Valid()
    ensures ReadsAs(m.Bytes(), Frame(m.kind, m.sequence, m.body))
  {
    HeaderParts(Little(16 + |m.body|, 4), Little(m.kind, 2), Little(m.flags, 2), Little(m.sequence, 4), Little(m.port, 4), m.body, [], []);
    var x := m.Bytes();
    assert x + [] + [] == x && m.body + [] + [] == m.body;
    Fields(x, |x|, m.kind, m.sequence);
  }

  /** One message at the front of a datagram either answers or is passed over. */
  lemma {:induction false} SentAnswers(m: Sent, after: Bytes, sequence: nat)
    requires m.Valid()
    ensures !(m.kind == 2 && m.sequence == sequence) ==> Answer(m.Bytes() + after, sequence) == Answer(after, sequence)
    ensures m.kind == 2 && m.sequence == sequence ==>
      Answer(m.Bytes() + after, sequence) == Verdict(Frame(2, sequence, m.body))
  {
    SentReads(m);
    var f := Frame(m.kind, m.sequence, m.body);
    FrameThenRest(m.Bytes(), after, f);
    AnswerStep(m.Bytes() + after, sequence);
  }

  lemma {:induction false} OthersArePassedOver(before: seq<Sent>, after: Bytes, sequence: nat)
    requires NoAnswer(before, sequence)
    ensures Answer(Datagram(before) + after, sequence) == Answer(after, sequence)
    decreases before
  {
    if before == [] {
      assert Datagram(before) + after == after;
    } else {
      OthersArePassedOver(before[1..], after, sequence);
      SentAnswers(before[0], Datagram(before[1..]) + after, sequence);
      assert Datagram(before) + after == before[0].Bytes() + (Datagram(before[1..]) + after);
    }
  }

  /** A datagram of messages about other things has no answer. */
  lemma {:induction false} OthersDoNotAnswer(messages: seq<Sent>, sequence: nat)
    requires NoAnswer(messages, sequence)
    ensures Answer(Datagram(messages), sequence) == Failed(NOT_FOUND)
  {
    OthersArePassedOver(messages, [], sequence);
    assert Datagram(messages) + [] == Datagram(messages);
    ShortHasNoAnswer([], sequence);
  }

  /**
   An acknowledgement is understood wherever it stands among other messages: zero is
   success, and any other status is reported negated, as an error number.
   */
  lemma {:induction false} AcknowledgementReadsBack(before: seq<Sent>, ack: Sent, status: int, after: Bytes)
    requires I32_MIN <= status <= I32_MAX && |ack.body| >= 4
    requires ack.Valid() && ack == Acknowledgement(ack.flags, ack.sequence, ack.port, status, ack.body[4..])
    requires NoAnswer(before, ack.sequence)
    ensures Answer(Datagram(before) + (ack.Bytes() + after), ack.sequence)
            == if status == 0 then Accepted else Failed(Min(-status, I32_MAX))
  {
    OthersArePassedOver(before, ack.Bytes() + after, ack.sequence);
    SentAnswers(ack, after, ack.sequence);
    PowerValues();
    DecodeLittle(TwosComplement(status), 4);
    assert ack.body[0..4] == Little(TwosComplement(status), 4);
  }

  /** One without a status is malformed, whatever stands before it. */
  lemma {:induction false} BareErrorIsMalformed(before: seq<Sent>, bare: Sent, after: Bytes)
    requires bare.Valid() && bare.kind == 2 && bare.body == [] && NoAnswer(before, bare.sequence)
    ensures Answer(Datagram(before) + (bare.Bytes() + after), bare.sequence) == Failed(-1)
  {
    OthersArePassedOver(before, bare.Bytes() + after, bare.sequence);
    SentAnswers(bare, after, bare.sequence);
  }

  /** The datagram holds an acknowledgement of `sequence` with this status, and no answer before it. */
  ghost predicate Answered(response: Option<Bytes>, sequence: nat, status: int) {
    exists before: seq<Sent>, ack: Sent, after: Bytes :: Delivers(response, before, ack, after, sequence, status)
  }

  predicate Delivers(response: Option<Bytes>, before: seq<Sent>, ack: Sent, after: Bytes, sequence: nat, status: int) {
    && I32_MIN <= status <= I32_MAX && NoAnswer(before, sequence) && ack.Valid() && |ack.body| >= 4
    && ack == Acknowledgement(ack.flags, sequence, ack.port, status, ack.body[4..])
    && response == Some(Datagram(before) + (ack.Bytes() + after))
  }

  /** The datagram arrived and holds other messages only. */
  ghost predicate Silent(response: Option<Bytes>, sequence: nat) {
    exists messages: seq<Sent> :: NoAnswer(messages, sequence) && response == Some(Datagram(messages))
  }

  /**
   What the request makes of the first acknowledgement among the four datagrams: success
   for status zero, and for "no such entry" where that is tolerated; failure otherwise.
   */
  lemma {:induction false} FirstAcknowledgementDecides(responses: seq<Option<Bytes>>, k: nat, sequence: nat, status: int, missingOk: bool)
    requires |responses| == 4 && k < 4 && Answered(responses[k], sequence, status)
    requires forall j :: 0 <= j < k ==> Silent(responses[j], sequence)
    ensures (exists i :: 0 <= i < 4 && Settles(responses, i, sequence, missingOk)) <==> status == 0 || (missingOk && status == -2)
  {
    forall j | 0 <= j < k ensures Unanswered(responses[j], sequence) {
      var messages :| NoAnswer(messages, sequence) && responses[j] == Some(Datagram(messages));
      OthersDoNotAnswer(messages, sequence);
    }
    var before, ack, after :| Delivers(responses[k], before, ack, after, sequence, status);
    AcknowledgementReadsBack(before, ack, status, after);
    assert !Unanswered(responses[k], sequence);
    assert Settles(responses, k, sequence, missingOk) <==> status == 0 || (missingOk && status == -2);
    forall i | 0 <= i < k ensures !Settles(responses, i, sequence, missingOk) {
      assert Unanswered(responses[i], sequence);
    }
  }

  /** Without an acknowledgement among the four, or after an error while receiving, the request fails. */
  lemma {:induction false} NoAcknowledgementFails(responses: seq<Option<Bytes>>, k: nat, sequence: nat, missingOk: bool)
    requires |responses| == 4 && k <= 4 && (k < 4 ==> responses[k] == None)
    requires forall j :: 0 <= j < k ==> Silent(responses[j], sequence)
    ensures !exists i :: 0 <= i < 4 && Settles(responses, i, sequence, missingOk)
  {
    forall j | 0 <= j < k ensures Unanswered(responses[j], sequence) {
      var messages :| NoAnswer(messages, sequence) && responses[j] == Some(Datagram(messages));
      OthersDoNotAnswer(messages, sequence);
    }
    forall i | 0 <= i < 4 ensures !Settles(responses, i, sequence, missingOk) {
      if i > k { assert !Unanswered(responses[k], sequence); }
    }
  }

  /** The request loop reads at most four datagrams and stops at the first that answers; an error while receiving ends it. */
  method AwaitAck(responses: seq<Option<Bytes>>, sequence: nat, missingOk: bool) returns (ok: bool)
    requires |responses| == 4
    ensures ok <==> exists k :: 0 <= k < 4 && Settles(responses, k, sequence, missingOk)
  {
    for k := 0 to 4
      invariant forall j :: 0 <= j < k ==> Unanswered(responses[j], sequence)
    {
      if responses[k].None? {
        return false;
      }
      var ack := ParseAck(responses[k].value, sequence);
      if ack != Failed(NOT_FOUND) {
        ok := ack.Accepted? || (missingOk && ack == Failed(ENOENT));
        assert ok <==> Settles(responses, k, sequence, missingOk);
        return;
      }
    }
    return false;
  }

  predicate Unanswered(response: Option<Bytes>, sequence: nat) {
    response.Some? && Answer(response.value, sequence) == Failed(NOT_FOUND)
  }

  /** Datagram `k` is the first one with an answer, and the answer is a success. */
  predicate Settles(responses: seq<Option<Bytes>>, k: nat, sequence: nat, missingOk: bool)
    requires k < |responses|
  {
    && (forall j :: 0 <= j < k ==> Unanswered(responses[j], sequence))
    && responses[k].Some?
    && (var answer := Answer(responses[k].value, sequence);
        answer.Accepted? || (missingOk && answer == Failed(ENOENT)))
  }
}
