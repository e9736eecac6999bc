/**
 What the gateway's NAT rule means: the kernel's reading of its expressions, and the
 packets that are masqueraded by the bytes the gateway sends.
 */
module NatRule {
  import opened Prelude
  import opened Bytes
  import opened Bits
  import opened Netlink
  import opened SubnetRoutes

  // ----- the kernel's side -----

  /** The interfaces a forwarded packet comes from and goes to, and its IPv4 header (section 3.1 of RFC 791). */
  datatype Packet = Packet(inInterface: Bytes, outInterface: Bytes, header: Bytes) {
    predicate Valid() {
      IsName(inInterface) && IsName(outInterface) && |header| >= 20
    }

    function Destination(): nat
      requires Valid()
    {
      FromBig(header[16..20])
    }
  }

  /** A name the kernel gives an interface: at most 15 bytes, none of them zero. */
  predicate IsName(name: Bytes) {
    |name| <= 15 && forall i :: 0 <= i < |name| ==> name[i] != 0
  }

  function FromBig(b: Bytes): nat {
    if b == [] then 0 else 256 * FromBig(b[..|b| - 1]) + b[|b| - 1]
  }

  /** The interface name as a register holds it: 16 bytes, zeros after the name. */
  function NameRegister(name: Bytes): Bytes
    requires |name| <= 15
  {
    name + Zeros(16 - |name|)
  }

  /** `(a & mask) ^ flip` on `width` bits. */
  function MaskBits(width: nat, a: nat, mask: nat, flip: nat): nat {
    if width == 0 then 0
    else 2 * MaskBits(width - 1, a / 2, mask / 2, flip / 2) + ((a % 2) * (mask % 2) + flip % 2) % 2
  }

  /** The value of the first attribute of a kind. */
  function Value(attrs: seq<Attr>, kind: nat): Option<Bytes> {
    if attrs == [] then None
    else if attrs[0].kind == kind then (if attrs[0].Leaf? then Some(attrs[0].value) else None)
    else Value(attrs[1..], kind)
  }

  function Children(attrs: seq<Attr>, kind: nat): Option<seq<Attr>> {
    if attrs == [] then None
    else if attrs[0].kind == kind then (if attrs[0].Nested? then Some(attrs[0].children) else None)
    else Children(attrs[1..], kind)
  }

  function Number(attrs: seq<Attr>, kind: nat): Option<nat> {
    var b := Value(attrs, kind);
    if b.Some? && |b.value| == 4 then Some(FromBig(b.value)) else None
  }

  /** The data value that an expression holds in a nested attribute. */
  function Data(attrs: seq<Attr>, kind: nat): Option<Bytes> {
    var inner := Children(attrs, kind);
    if inner.Some? then Value(inner.value, 1) else None
  }

  /** An expression puts bytes into the register, ends the rule for this packet, or masquerades it; anything else is refused. */
  datatype Effect = Load(register: Bytes) | Stop | Masquerade | Refused

  function LoadMeta(data: seq<Attr>, p: Packet): Effect
    requires p.Valid()
  {
    if Number(data, 1) != Some(1) then Refused
    else match Number(data, 2)
      case Some(n) => if n == 6 then Load(NameRegister(p.inInterface)) else if n == 7 then Load(NameRegister(p.outInterface)) else Refused
      case None => Refused
  }

  function LoadPayload(data: seq<Attr>, p: Packet): Effect {
    var offset, length := Number(data, 3), Number(data, 4);
    if Number(data, 1) != Some(1) || Number(data, 2) != Some(1) || offset.None? || length.None? then Refused
    else if offset.value + length.value > |p.header| then Stop
    else Load(p.header[offset.value..offset.value + length.value])
  }

  function LoadMasked(data: seq<Attr>, register: Bytes): Effect {
    var mask, flip := Data(data, 4), Data(data, 5);
    if Number(data, 1) != Some(1) || Number(data, 2) != Some(1) || Number(data, 3) != Some(4) then Refused
    else if mask.None? || flip.None? || |mask.value| != 4 || |flip.value| != 4 || |register| < 4 then Refused
    else Load(Big4(MaskBits(8 * |mask.value|, FromBig(register[..4]), FromBig(mask.value), FromBig(flip.value))))
  }

  function Compare(data: seq<Attr>, register: Bytes): Effect {
    var wanted := Data(data, 3);
    if Number(data, 1) != Some(1) || Number(data, 2) != Some(0) || wanted.None? then Refused
    else if |wanted.value| > |register| then Refused
    else if register[..|wanted.value|] == wanted.value then Load(register) else Stop
  }

  function Evaluate(e: Attr, register: Bytes, p: Packet): Effect
    requires p.Valid()
  {
    if !e.Nested? || e.kind != 1 then Refused
    else
      var name, data := Value(e.children, 1), Children(e.children, 2);
      if name.None? || data.None? then Refused
      else if name.value == Text(META) then LoadMeta(data.value, p)
      else if name.value == Text(PAYLOAD) then LoadPayload(data.value, p)
      else if name.value == Text(BITWISE) then LoadMasked(data.value, register)
      else if name.value == Text(CMP) then Compare(data.value, register)
      else if name.value == Text(MASQ) then Masquerade
      else Refused
  }

  /** The expressions of a rule in order, up to the first that does not load the register. */
  function Run(expressions: seq<Attr>, register: Bytes, p: Packet): Effect
    requires p.Valid()
  {
    if expressions == [] then Stop
    else match Evaluate(expressions[0], register, p)
      case Load(next) => Run(expressions[1..], next, p)
      case other => other
  }

  /** What a request to add a rule does to a packet. */
  function Verdict(request: Bytes, p: Packet): Effect
    requires p.Valid()
  {
    var attrs := Read(request);
    if attrs.None? then Refused
    else
      var expressions := Children(attrs.value, 4);
      if expressions.None? then Refused else Run(expressions.value, [], p)
  }

  // ----- the gateway's side -----

  /** The rule of an approved prefix: its network address, and its netmask unless it is a single address. */
  function RouteRule(prefix: Net, outInterface: Bytes): RuleRoute
    requires prefix.Valid()
  {
    PowersOf32(prefix);
    RuleRoute(outInterface, Big4(prefix.Network()),
              if prefix.prefix < 32 then Some(Big4(Pow2(32) - prefix.Size())) else None)
  }

  // ----- proofs -----

  lemma {:induction false} Digits(a: Byte, b: Byte, c: Byte, d: Byte)
    ensures Big4(((a * 256 + b as nat) * 256 + c as nat) * 256 + d as nat) == [a, b, c, d]
  {
    var n := ((a * 256 + b as nat) * 256 + c as nat) * 256 + d as nat;
    assert n / 256 == (a * 256 + b as nat) * 256 + c as nat;
    assert n / 0x1_0000 == a * 256 + b as nat;
    assert n / 0x100_0000 == a;
  }

  lemma {:induction false} FourBytes(b: Bytes)
    requires |b| == 4
    ensures FromBig(b) <= U32_MAX && Big4(FromBig(b)) == b
    ensures FromBig(b) == 0x100_0000 * (b[0] as nat) + 0x1_0000 * (b[1] as nat) + 0x100 * (b[2] as nat) + b[3] as nat
  {
    var three, two, one := b[..3], b[..2], b[..1];
    assert three[..2] == two && two[..1] == one && one[..0] == [];
    assert FromBig(one) == b[0] as nat;
    assert FromBig(two) == 0x100 * (b[0] as nat) + b[1] as nat;
    assert FromBig(three) == 0x1_0000 * (b[0] as nat) + 0x100 * (b[1] as nat) + b[2] as nat;
    Digits(b[0], b[1], b[2], b[3]);
  }

  lemma {:induction false} Nested(n: nat)
    ensures n / 0x1_0000 == n / 256 / 256 && n / 0x100_0000 == n / 256 / 256 / 256
  {
  }

  lemma {:induction false} BigReads(n: nat)
    requires n <= U32_MAX
    ensures FromBig(Big4(n)) == n
  {
    Nested(n);
    FourBytes(Big4(n));
    var m := n / 256;
    var k := m / 256;
    assert n == 256 * m + n % 256 && m == 256 * k + m % 256 && k == 256 * (k / 256) + k % 256;
    assert k / 256 < 256;
  }

  lemma {:induction false} HalfClear(a: nat, half: nat)
    requires half > 0
    ensures 2 * (a / 2 - (a / 2) % half) == a - a % (2 * half)
  {
    HalfMod(a, half);
    var r := a % (2 * half);
    assert a == 2 * (a / 2) + a % 2 && r == 2 * (r / 2) + r % 2;
  }

  lemma {:induction false} PowersGrow(m: nat, n: nat)
    requires m <= n
    ensures Pow2(m) <= Pow2(n)
    decreases n
  {
    if m < n { PowersGrow(m, n - 1); }
  }

  lemma {:induction false} OneBit(width: nat, a: nat, mask: nat)
    requires width > 0
    ensures mask % 2 == 0 ==> MaskBits(width, a, mask, 0) == 2 * MaskBits(width - 1, a / 2, mask / 2, 0)
    ensures mask % 2 == 1 ==> MaskBits(width, a, mask, 0) == 2 * MaskBits(width - 1, a / 2, mask / 2, 0) + a % 2
  {
  }

  lemma {:induction false} AllOnes(width: nat, a: nat)
    requires a < Pow2(width)
    ensures MaskBits(width, a, Pow2(width) - 1, 0) == a
    decreases width
  {
    if width > 0 {
      var full := Pow2(width - 1);
      OneBit(width, a, 2 * (full - 1) + 1);
      AllOnes(width - 1, a / 2);
    }
  }

  /** A mask of leading ones clears the low `m` bits. */
  lemma {:induction false} LeadingOnes(width: nat, m: nat, a: nat)
    requires m <= width && a < Pow2(width) && Pow2(m) <= Pow2(width)
    ensures MaskBits(width, a, Pow2(width) - Pow2(m), 0) == a - a % Pow2(m)
    decreases width
  {
    if m == 0 {
      AllOnes(width, a);
    } else {
      var half, full := Pow2(m - 1), Pow2(width - 1);
      PowersGrow(m - 1, width - 1);
      OneBit(width, a, 2 * (full - half));
      LeadingOnes(width - 1, m - 1, a / 2);
      HalfClear(a, half);
    }
  }

  lemma {:induction false} SameName(a: Bytes, b: Bytes)
    requires IsName(a) && IsName(b)
    ensures NameRegister(b)[..|a| + 1] == Text(a) <==> a == b
  {
    var r := NameRegister(b);
    assert r[|b|] == 0;
    if r[..|a| + 1] == Text(a) {
      assert r[|a|] == r[..|a| + 1][|a|] == 0;
      assert forall i :: 0 <= i < |a| ==> r[i] == Text(a)[i] == a[i];
      assert forall i :: 0 <= i < |b| ==> r[i] == b[i];
      assert |a| == |b|;
    }
  }

  /** An attribute is found under its kind if it is the first of it. */
  lemma {:induction false} Found(attrs: seq<Attr>, i: nat)
    requires i < |attrs| && forall j :: 0 <= j < i ==> attrs[j].kind != attrs[i].kind
    ensures Value(attrs, attrs[i].kind) == if attrs[i].Leaf? then Some(attrs[i].value) else None
    ensures Children(attrs, attrs[i].kind) == if attrs[i].Nested? then Some(attrs[i].children) else None
    decreases i
  {
    if i > 0 { Found(attrs[1..], i - 1); }
  }

  lemma {:induction false} Named(name: Bytes, data: seq<Attr>)
    ensures var e := Expression(name, data);
      e.Nested? && e.kind == 1 && Value(e.children, 1) == Some(Text(name)) && Children(e.children, 2) == Some(data)
  {
    var c := Expression(name, data).children;
    Found(c, 0);
    Found(c, 1);
  }

  lemma {:induction false} NamesDiffer()
    ensures Text(META) != Text(CMP) && Text(META) != Text(PAYLOAD) && Text(META) != Text(BITWISE) && Text(META) != Text(MASQ)
    ensures Text(CMP) != Text(PAYLOAD) && Text(CMP) != Text(BITWISE) && Text(CMP) != Text(MASQ)
    ensures Text(PAYLOAD) != Text(BITWISE) && Text(PAYLOAD) != Text(MASQ) && Text(BITWISE) != Text(MASQ)
  {
    assert |Text(META)| == 5 && |Text(CMP)| == 4 && |Text(PAYLOAD)| == 8 && |Text(BITWISE)| == 8 && |Text(MASQ)| == 5;
    assert Text(META)[1] == 101 && Text(MASQ)[1] == 97 && Text(PAYLOAD)[0] == 112 && Text(BITWISE)[0] == 98;
  }

  lemma {:induction false} MetaLoads(key: nat, register: Bytes, p: Packet)
    requires p.Valid() && key in {6, 7}
    ensures Evaluate(Expression(META, MetaExpression(key)), register, p)
            == Load(NameRegister(if key == 6 then p.inInterface else p.outInterface))
  {
    var d := MetaExpression(key);
    Named(META, d);
    NamesDiffer();
    BigReads(1);
    BigReads(key);
    Found(d, 0);
    Found(d, 1);
  }

  lemma {:induction false} ComparisonStops(value: Bytes, register: Bytes, p: Packet)
    requires p.Valid() && |value| <= |register|
    ensures Evaluate(Expression(CMP, ComparisonExpression(value)), register, p)
            == if register[..|value|] == value then Load(register) else Stop
  {
    var d := ComparisonExpression(value);
    Named(CMP, d);
    NamesDiffer();
    BigReads(1);
    BigReads(0);
    Found(d, 0);
    Found(d, 1);
    Found(d, 2);
    Found([Leaf(1, value)], 0);
  }

  lemma {:induction false} DestinationLoads(register: Bytes, p: Packet)
    requires p.Valid()
    ensures Evaluate(Expression(PAYLOAD, DestinationExpression()), register, p) == Load(p.header[16..20])
  {
    var d := DestinationExpression();
    Named(PAYLOAD, d);
    NamesDiffer();
    BigReads(1);
    BigReads(16);
    BigReads(4);
    forall i | 0 <= i < 4 { Found(d, i); }
    assert d[0].kind == 1 && d[1].kind == 2 && d[2].kind == 3 && d[3].kind == 4;
  }

  lemma {:induction false} MaskLoads(mask: Bytes, register: Bytes, p: Packet)
    requires p.Valid() && |mask| == 4 && |register| == 4
    ensures Evaluate(Expression(BITWISE, MaskExpression(mask)), register, p)
            == Load(Big4(MaskBits(8 * |mask|, FromBig(register), FromBig(mask), 0)))
  {
    var d := MaskExpression(mask);
    var flip: Bytes := [0, 0, 0, 0];
    Named(BITWISE, d);
    NamesDiffer();
    BigReads(1);
    BigReads(4);
    BigReads(0);
    assert flip == Big4(0);
    Found(d, 0);
    Found(d, 1);
    Found(d, 2);
    Found(d, 3);
    Found(d, 4);
    Found([Leaf(1, mask)], 0);
    Found([Leaf(1, flip)], 0);
    assert Data(d, 4) == Some(mask) && Data(d, 5) == Some(flip);
    assert register[..4] == register;
  }

  lemma {:induction false} FirstLoads(e: Attr, rest: seq<Attr>, register: Bytes, next: Bytes, p: Packet)
    requires p.Valid() && Evaluate(e, register, p) == Load(next)
    ensures Run([e] + rest, register, p) == Run(rest, next, p)
  {
    assert ([e] + rest)[1..] == rest;
  }

  /** The start of the block that `a` lies in. */
  function BlockStart(prefix: Net, a: nat): (n: nat)
    requires prefix.Valid() && a <= U32_MAX
    ensures n <= a
  {
    Remainder(a, prefix.Size());
    a - a % prefix.Size()
  }

  lemma {:induction false} NetmaskClears(prefix: Net, a: nat, width: nat)
    requires prefix.Valid() && a <= U32_MAX && width == 32
    ensures prefix.Size() <= U32_MAX + 1
    ensures MaskBits(width, a, U32_MAX + 1 - prefix.Size(), 0) == BlockStart(prefix, a)
  {
    PowersOf32(prefix);
    LeadingOnes(width, width - prefix.prefix, a);
  }

  /** Masking leaves the start of the destination's block in the register; a single address is left whole. */
  lemma {:induction false} MaskMeans(prefix: Net, register: Bytes, rest: seq<Attr>, p: Packet)
    requires prefix.Valid() && p.Valid() && |register| == 4 && FromBig(register) <= U32_MAX
    ensures Run(MaskPart(RouteRule(prefix, []).mask, rest), register, p)
            == Run(rest, Big4(BlockStart(prefix, FromBig(register))), p)
  {
    FourBytes(register);
    PowersOf32(prefix);
    if prefix.prefix < 32 {
      var netmask := U32_MAX + 1 - prefix.Size();
      var mask := Big4(netmask);
      BigReads(netmask);
      NetmaskClears(prefix, FromBig(register), 8 * |mask|);
      MaskLoads(mask, register, p);
      FirstLoads(Expression(BITWISE, MaskExpression(mask)), rest, register, Big4(BlockStart(prefix, FromBig(register))), p);
    }
  }

  /** The end of the rule decides whether the destination, now in the register, lies in the prefix. */
  lemma {:induction false} EndMeans(prefix: Net, outInterface: Bytes, p: Packet)
    requires prefix.Valid() && p.Valid()
    ensures var route := RouteRule(prefix, outInterface);
      var rest := [Expression(CMP, ComparisonExpression(route.network))] + ([Expression(MASQ, [])] + []);
      Run(MaskPart(route.mask, rest), p.header[16..20], p) == if prefix.InBlock(p.Destination()) then Masquerade else Stop
  {
    var network := Big4(prefix.Network());
    var rest := [Expression(CMP, ComparisonExpression(network))] + ([Expression(MASQ, [])] + []);
    FourBytes(p.header[16..20]);
    MaskMeans(prefix, p.header[16..20], rest, p);
    var masked := BlockStart(prefix, p.Destination());
    ComparisonEnds(network, Big4(masked), p);
    SameBlock(prefix, p.Destination());
  }

  lemma {:induction false} ComparisonEnds(value: Bytes, register: Bytes, p: Packet)
    requires p.Valid() && |value| == |register|
    ensures Run([Expression(CMP, ComparisonExpression(value))] + ([Expression(MASQ, [])] + []), register, p)
            == if register == value then Masquerade else Stop
  {
    var last := [Expression(MASQ, [])] + [];
    ComparisonStops(value, register, p);
    assert register[..|value|] == register;
    if register == value {
      FirstLoads(Expression(CMP, ComparisonExpression(value)), last, register, register, p);
    }
    Named(MASQ, []);
    NamesDiffer();
    assert last[0] == Expression(MASQ, []);
  }

  lemma {:induction false} PowersOf32(prefix: Net)
    requires prefix.Valid()
    ensures Pow2(32) == U32_MAX + 1 && prefix.Size() <= Pow2(32) && prefix.Network() <= U32_MAX
    ensures prefix.prefix == 32 ==> prefix.Size() == 1
  {
    assert Pow2(8) == 256 && Pow2(16) == 65536 && Pow2(24) == 0x100_0000;
    PowersGrow(32 - prefix.prefix, 32);
    Remainder(prefix.address, prefix.Size());
  }

  lemma {:induction false} SameStart(size: nat, a: nat, b: nat)
    requires size >= 1
    ensures a - a % size == b - b % size <==> a / size == b / size
  {
    Remainder(a, size);
    Remainder(b, size);
    SameQuotient(size, a / size, b / size, 0);
  }

  lemma {:induction false} SameBlock(prefix: Net, a: nat)
    requires prefix.Valid() && a <= U32_MAX
    ensures Big4(BlockStart(prefix, a)) == Big4(prefix.Network()) <==> prefix.InBlock(a)
  {
    PowersOf32(prefix);
    BigReads(BlockStart(prefix, a));
    BigReads(prefix.Network());
    SameStart(prefix.Size(), prefix.address, a);
  }

  /** The first expressions check the interfaces and leave the destination in the register. */
  lemma {:induction false} RuleMeans(inInterface: Bytes, outInterface: Bytes, prefix: Net, p: Packet)
    requires IsName(inInterface) && IsName(outInterface) && prefix.Valid() && p.Valid()
    ensures Run(RuleExpressions(inInterface, RouteRule(prefix, outInterface)), [], p)
            == if p.inInterface == inInterface && p.outInterface == outInterface && prefix.InBlock(p.Destination())
               then Masquerade else Stop
  {
    var route := RouteRule(prefix, outInterface);
    var e0 := MaskPart(route.mask, [Expression(CMP, ComparisonExpression(route.network))] + ([Expression(MASQ, [])] + []));
    var e1 := [Expression(PAYLOAD, DestinationExpression())] + e0;
    var e2 := [Expression(CMP, ComparisonExpression(Text(outInterface)))] + e1;
    var e3 := [Expression(META, MetaExpression(7))] + e2;
    var e4 := [Expression(CMP, ComparisonExpression(Text(inInterface)))] + e3;
    var e5 := [Expression(META, MetaExpression(6))] + e4;
    assert RuleExpressions(inInterface, route) == e5;
    var a, b := NameRegister(p.inInterface), NameRegister(p.outInterface);
    assert e5[1..] == e4 && e4[1..] == e3 && e3[1..] == e2 && e2[1..] == e1 && e1[1..] == e0;
    MetaLoads(6, [], p);
    assert Run(e5, [], p) == Run(e4, a, p);
    ComparisonStops(Text(inInterface), a, p);
    SameName(inInterface, p.inInterface);
    assert Run(e4, a, p) == if p.inInterface == inInterface then Run(e3, a, p) else Stop;
    MetaLoads(7, a, p);
    assert Run(e3, a, p) == Run(e2, b, p);
    ComparisonStops(Text(outInterface), b, p);
    SameName(outInterface, p.outInterface);
    assert Run(e2, b, p) == if p.outInterface == outInterface then Run(e1, b, p) else Stop;
    DestinationLoads(b, p);
    assert Run(e1, b, p) == Run(e0, p.header[16..20], p);
    EndMeans(prefix, outInterface, p);
  }

  /**
   The bytes of the request masquerade exactly the packets that come in over the project's
   interface, go out over the route's, and are addressed to a host of its prefix.
   */
  lemma {:induction false} MasqueradesExactly(table: Bytes, inInterface: Bytes, outInterface: Bytes, prefix: Net, p: Packet)
    requires |table| <= 24 && IsName(inInterface) && IsName(outInterface) && prefix.Valid() && p.Valid()
    ensures Verdict(EncodeAll(RuleRequest(table, inInterface, RouteRule(prefix, outInterface))), p)
            == if p.inInterface == inInterface && p.outInterface == outInterface && prefix.InBlock(p.Destination())
               then Masquerade else Stop
  {
    var route := RouteRule(prefix, outInterface);
    var request := RuleRequest(table, inInterface, route);
    GatewayRequestsReadBack(table, inInterface, route);
    var expressions := RuleExpressions(inInterface, route);
    Found(request, 2);
    RuleMeans(inInterface, outInterface, prefix, p);
  }

  /** The table and chain of the rule are those of the requests before it, and the chain is a NAT chain after routing. */
  lemma {:induction false} RequestsAgree(table: Bytes, inInterface: Bytes, route: RuleRoute)
    ensures Value(TableRequest(table), 1) == Value(ChainRequest(table), 1) == Value(DeleteRequest(table), 1) == Some(table + [0])
    ensures Value(RuleRequest(table, inInterface, route), 1) == Some(table + [0])
    ensures Value(RuleRequest(table, inInterface, route), 2) == Value(ChainRequest(table), 3) == Some(CHAIN_NAME + [0])
    ensures Value(ChainRequest(table), 7) == Some(NAT + [0])
    ensures var hook := Children(ChainRequest(table), 4); hook.Some? && Number(hook.value, 1) == Some(4) && Number(hook.value, 2) == Some(100)
  {
    var rule, chain := RuleRequest(table, inInterface, route), ChainRequest(table);
    var hook := [Leaf(1, Big4(4)), Leaf(2, Big4(100))];
    Found(TableRequest(table), 0);
    Found(rule, 0);
    Found(rule, 1);
    Found(chain, 0);
    Found(chain, 1);
    Found(chain, 2);
    Found(chain, 3);
    Found(hook, 0);
    Found(hook, 1);
    BigReads(4);
    BigReads(100);
  }
}
