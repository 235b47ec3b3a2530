/** Address blocks as sets of addresses, and what the allotted ones never do. */
module Pools {
  import opened Text
  import opened Powers
  import opened IpText
  import opened Cidr

  // ----- Blocks as ranges -----

  function Size(n: Net): (s: nat)
    requires n.prefix <= 32
    ensures s > 0
  {
    Pow2(32 - n.prefix)
  }

  /** The masked network address. */
  function Base(n: Net): nat
    requires n.prefix <= 32
  {
    Floor(n.addr, Size(n))
  }

  ghost predicate InRange(n: Net, x: int)
    requires n.prefix <= 32
  {
    Base(n) <= x < Base(n) + Size(n)
  }

  ghost predicate Meet(m: Net, n: Net)
    requires m.prefix <= 32 && n.prefix <= 32
  {
    exists x :: InRange(m, x) && InRange(n, x)
  }

  /** The first address and the number of addresses of a block, in its own address space. */
  function First(n: IpNet): nat
    requires n.Proper()
  {
    match n
    case Four(m) => Base(m)
    case Sixteen(addr, prefix) => Floor(addr, Pow2(128 - prefix))
  }

  function Extent(n: IpNet): (e: nat)
    requires n.Proper()
    ensures e > 0
  {
    match n
    case Four(m) => Size(m)
    case Sixteen(addr, prefix) => Pow2(128 - prefix)
  }

  /** net.IPNet.Contains on an address of the block's own length: equality under the mask. */
  predicate Contains(n: IpNet, x: nat)
    requires n.Proper()
  {
    Floor(x, Extent(n)) == First(n)
  }

  predicate OverlapIP(s: string, t: string) {
    var m, n := ParseIpNet(s), ParseIpNet(t);
    && m.Some? && n.Some? && m.value.Four? == n.value.Four?
    && (Contains(n.value, First(m.value)) || Contains(m.value, First(n.value)))
  }

  ghost predicate Holds(n: IpNet, x: int)
    requires n.Proper()
  {
    First(n) <= x < First(n) + Extent(n)
  }

  /** Some address is in both: 4-byte and 16-byte addresses are never the same. */
  ghost predicate Share(m: IpNet, n: IpNet)
    requires m.Proper() && n.Proper()
  {
    m.Four? == n.Four? && exists x :: Holds(m, x) && Holds(n, x)
  }

  lemma ContainsIsHolds(n: IpNet, x: nat)
    requires n.Proper()
    ensures Contains(n, x) <==> Holds(n, x)
  {
    MaskIsRange(x, if n.Four? then n.net.addr else n.addr, Extent(n));
  }

  /** OverlapIP decides exactly whether two parseable blocks, IPv4 or IPv6, share an address. */
  lemma OverlapIsIntersection(s: string, t: string)
    requires ParseIpNet(s).Some? && ParseIpNet(t).Some?
    ensures OverlapIP(s, t) <==> Share(ParseIpNet(s).value, ParseIpNet(t).value)
  {
    var m, n := ParseIpNet(s).value, ParseIpNet(t).value;
    ContainsIsHolds(n, First(m));
    ContainsIsHolds(m, First(n));
    assert Holds(m, First(m)) && Holds(n, First(n));
  }

  // ----- The slice subnet -----

  /** net.IP.IsPrivate on IPv4, section 3 of RFC 1918. */
  predicate Private(o: Quad) {
    o.a == 10 || (o.a == 172 && 16 <= o.b <= 31) || (o.a == 192 && o.b == 168)
  }

  /** HasPrefix: a comparison of the last two characters. */
  predicate EndsIn16(s: string) {
    |s| >= 2 && s[|s| - 2] == '1' && s[|s| - 1] == '6'
  }

  /** validateSliceSubnet; an IPv6 address that is not IPv4-mapped has no dotted text, and the check panics. */
  predicate SubnetAdmitted(s: string) {
    && ParseIpNet(s).Some?
    && EndsIn16(s)
    && var o := To4(Split(s, '/')[0]);
       o.Some? && Private(o.value) && o.value.c == 0 && o.value.d == 0
  }

  lemma MaskIs16(mask: string)
    requires mask != "" && AllDigits(mask) && Value(mask) <= 32
    requires EndsIn16("/" + mask)
    ensures Value(mask) == 16
  {
  }

  lemma SlashParts(s: string)
    requires |Split(s, '/')| == 2
    ensures s == Split(s, '/')[0] + ("/" + Split(s, '/')[1])
  {
    JoinSplit(s, '/');
    assert Split(s, '/')[1..] == [Split(s, '/')[1]];
  }

  lemma DotParts(addr: string, tail: string)
    requires |Split(addr, '.')| == 4 && '.' !in tail
    ensures var q := Split(addr, '.'); Split(addr + tail, '.') == [q[0], q[1], q[2], q[3] + tail]
  {
    JoinSplit(addr, '.');
    var q := Split(addr, '.');
    assert q == [q[0], q[1], q[2], q[3]];
    AppendToLast(q[0], q[1], q[2], q[3], tail);
    SplitJoin([q[0], q[1], q[2], q[3] + tail], '.');
  }

  /** s is the /16 starting at a.b.0.0, in four parts at its dots. */
  predicate IsSlash16(s: string, a: nat, b: nat) {
    && ParseCidr(s) == Some(Net(Address(Quad(a, b, 0, 0)), 16))
    && |Split(s, '.')| == 4
    && ParseOctet(Split(s, '.')[0]) == Some(a) && ParseOctet(Split(s, '.')[1]) == Some(b)
  }

  /** An admitted subnet has that shape exactly when its text has no colon; with one it is no IPv4 CIDR at all. */
  lemma AdmittedShape(s: string) returns (a: nat, b: nat)
    requires SubnetAdmitted(s)
    ensures IsSlash16(s, a, b) <==> ':' !in s
    ensures ':' in s <==> ParseCidr(s).None?
  {
    var p := Split(s, '/');
    SlashParts(s);
    a, b := To4(p[0]).value.a, To4(p[0]).value.b;
    if ':' in s {
      ColonParts(p[0], p[1]);
      NoColonInAddress(p[0]);
    } else {
      assert ':' !in p[0] by { assert forall i :: 0 <= i < |p[0]| ==> p[0][i] == s[i]; }
      DottedShape(s, a, b);
    }
  }

  lemma ColonParts(addr: string, mask: string)
    requires AllDigits(mask) && ':' in addr + ("/" + mask)
    ensures ':' in addr
  {
    var s := addr + ("/" + mask);
    var i :| 0 <= i < |s| && s[i] == ':';
    assert i > |addr| ==> IsDigit(s[i]);
  }

  lemma NoColonInAddress(addr: string)
    requires ':' in addr
    ensures ParseAddress(addr).None?
  {
    if ParseAddress(addr).Some? {
      var q := Split(addr, '.');
      JoinSplit(addr, '.');
      assert q == [q[0], q[1], q[2], q[3]];
      JoinFour(q[0], q[1], q[2], q[3]);
    }
  }

  lemma DottedShape(s: string, a: nat, b: nat)
    requires SubnetAdmitted(s) && ':' !in Split(s, '/')[0]
    requires To4(Split(s, '/')[0]).value == Quad(a, b, 0, 0)
    ensures IsSlash16(s, a, b)
  {
    var p := Split(s, '/');
    SlashParts(s);
    var tail := "/" + p[1];
    assert s[|s| - 1] == tail[|tail| - 1] && s[|s| - 2] == tail[|tail| - 2];
    MaskIs16(p[1]);
    DotParts(p[0], tail);
  }

  /** The private ranges 10.0.0.0 to 10.255.255.255, 172.16.0.0 to 172.31.255.255 and 192.168.0.0 to 192.168.255.255. */
  predicate InPrivateRange(addr: nat) {
    0x0A00_0000 <= addr < 0x0B00_0000 || 0xAC10_0000 <= addr < 0xAC20_0000 || 0xC0A8_0000 <= addr < 0xC0A9_0000
  }

  lemma PrivateByRange(o: Quad)
    requires o.a <= 255 && o.b <= 255 && o.c <= 255 && o.d <= 255
    ensures Private(o) <==> InPrivateRange(Address(o))
    ensures o.c == 0 && o.d == 0 <==> Address(o) % 0x1_0000 == 0
  {
  }

  lemma Is16Mask(mask: string)
    requires mask != "" && AllDigits(mask) && Value(mask) == 16
    ensures |mask| >= 2 && mask[|mask| - 2] == '1' && mask[|mask| - 1] == '6'
  {
    var front := mask[..|mask| - 1];
    assert Value(mask) == Value(front) * 10 + (mask[|mask| - 1] as int - '0' as int);
    assert Value(front) == 1;
    assert front != "";
    assert Value(front) == Value(front[..|front| - 1]) * 10 + (front[|front| - 1] as int - '0' as int);
  }

  lemma ParsedQuad(addr: string)
    requires ParseAddress(addr).Some?
    ensures var o := ParseAddress(addr).value; o.a <= 255 && o.b <= 255 && o.c <= 255 && o.d <= 255
  {
  }

  /** Without a colon the webhook admits exactly the /16 blocks whose address starts one and is private. */
  lemma AdmittedExactly(s: string)
    requires ':' !in s
    ensures SubnetAdmitted(s) <==>
      var n := ParseCidr(s);
      n.Some? && n.value.prefix == 16 && n.value.addr % 0x1_0000 == 0 && InPrivateRange(n.value.addr)
  {
    if ParseCidr(s).Some? {
      var p := Split(s, '/');
      SlashParts(s);
      assert ':' !in p[0] by { assert forall i :: 0 <= i < |p[0]| ==> p[0][i] == s[i]; }
      var tail := "/" + p[1];
      assert s[|s| - 1] == tail[|tail| - 1] && s[|s| - 2] == tail[|tail| - 2];
      ParsedQuad(p[0]);
      PrivateByRange(ParseAddress(p[0]).value);
      if Value(p[1]) == 16 { Is16Mask(p[1]); }
      if EndsIn16(s) { MaskIs16(p[1]); }
    }
  }

  // ----- Blocks of clusters -----

  lemma SpelledSplits(a: string, b: string, x: string, y: string, mask: string)
    requires Plain(a) && Plain(b) && Plain(x) && Plain(y) && Plain(mask)
    ensures Split(Join([a, b, x, y + ("/" + mask)], '.'), '/') == [Join([a, b, x, y], '.'), mask]
    ensures Split(Join([a, b, x, y], '.'), '.') == [a, b, x, y]
  {
    SplitJoin([a, b, x, y], '.');
    var addr := Join([a, b, x, y], '.');
    assert Join([a, b, x, y + ("/" + mask)], '.') == addr + ['/'] + mask by {
      AppendToLast(a, b, x, y, "/" + mask);
    }
    assert '/' !in addr by { JoinFour(a, b, x, y); }
    SplitAtFirst(mask, "", '/');
    SplitAtFirst(addr, mask, '/');
  }

  lemma DecimalOctet(n: nat)
    ensures ParseOctet(Decimal(n)) == if n > 255 then None else Some(n)
    ensures Plain(Decimal(n))
  {
    DecimalRoundTrip(n);
  }

  /** Dotted text with a prefix parses to the address it spells, or not at all if an octet is out of range. */
  lemma ParseSpelled(a: string, b: string, c: nat, d: nat, p: nat)
    requires ParseOctet(a).Some? && ParseOctet(b).Some? && d <= 255 && p <= 32
    ensures ParseCidr(Join([a, b, Decimal(c), Decimal(d) + ("/" + Decimal(p))], '.')) ==
            if c > 255 then None
            else Some(Net(Address(Quad(ParseOctet(a).value, ParseOctet(b).value, c, d)), p))
  {
    DecimalOctet(c);
    DecimalOctet(d);
    DecimalOctet(p);
    DecimalRoundTrip(p);
    SpelledSplits(a, b, Decimal(c), Decimal(d), Decimal(p));
  }

  /** The net of block number ipam. */
  function Pool(subnet: string, ipam: nat, p: nat): Net
    requires ParseCidr(subnet).Some? && p <= 32
  {
    Block(ParseCidr(subnet).value.addr, ipam, p)
  }

  function Block(base: nat, ipam: nat, p: nat): Net
    requires p <= 32
  {
    Net(base + ipam * Pow2(32 - p), p)
  }

  lemma BlockAddress(a: nat, b: nat, ipam: nat, p: nat, third: nat)
    requires 17 <= p <= 24 && third == ipam * Pow2(24 - p)
    ensures Address(Quad(a, b, third, 0)) == Address(Quad(a, b, 0, 0)) + ipam * Pow2(32 - p)
    ensures third <= 255 <==> ipam < Blocks(p)
  {
    ThirdOctetBound(ipam, p);
    Pow2Sum(24 - p, 8, 32 - p);
    Pow2Constants();
    var d := Pow2(24 - p);
    assert ipam * (d * 256) == (ipam * d) * 256;
  }

  /** What the spelled text parses to, said as a block. */
  lemma SpelledBlock(a: nat, b: nat, ipam: nat, p: nat, third: nat)
    requires 17 <= p <= 24 && third == ipam * Pow2(24 - p)
    ensures (if third > 255 then None else Some(Net(Address(Quad(a, b, third, 0)), p))) ==
            if ipam < Blocks(p) then Some(Block(Address(Quad(a, b, 0, 0)), ipam, p)) else None
  {
    BlockAddress(a, b, ipam, p, third);
  }

  /** A text in four dotted parts with a prefix. */
  function FourParts(x: string, y: string, c: nat, d: nat, p: nat): string {
    Join([x, y, Decimal(c), Decimal(d) + ("/" + Decimal(p))], '.')
  }

  lemma PoolIsFourParts(subnet: string, ipam: nat, p: nat)
    requires |Split(subnet, '.')| == 4 && 17 <= p <= 24
    ensures PoolText(subnet, ipam, "/" + Itoa(p)) ==
            Some(FourParts(Split(subnet, '.')[0], Split(subnet, '.')[1], ipam * Pow2(24 - p), 0, p))
  {
    PoolSpelled(subnet, ipam, p);
  }

  lemma FourPartsBlock(x: string, y: string, a: nat, b: nat, ipam: nat, p: nat)
    requires ParseOctet(x) == Some(a) && ParseOctet(y) == Some(b) && 17 <= p <= 24
    ensures ParseCidr(FourParts(x, y, ipam * Pow2(24 - p), 0, p)) ==
            if ipam < Blocks(p) then Some(Block(Address(Quad(a, b, 0, 0)), ipam, p)) else None
  {
    ParseSpelled(x, y, ipam * Pow2(24 - p), 0, p);
    SpelledBlock(a, b, ipam, p, ipam * Pow2(24 - p));
  }

  lemma PoolNames(subnet: string, a: nat, b: nat, ipam: nat, p: nat)
    requires IsSlash16(subnet, a, b) && 17 <= p <= 24
    ensures PoolText(subnet, ipam, "/" + Itoa(p)).Some?
    ensures ParseCidr(PoolText(subnet, ipam, "/" + Itoa(p)).value) ==
            if ipam < Blocks(p) then Some(Pool(subnet, ipam, p)) else None
  {
    PoolIsFourParts(subnet, ipam, p);
    FourPartsBlock(Split(subnet, '.')[0], Split(subnet, '.')[1], a, b, ipam, p);
  }

  /** The text of a block is always produced; it parses exactly when its index fits, and then names that block. */
  lemma PoolParses(subnet: string, ipam: nat, p: nat)
    requires SubnetAdmitted(subnet) && ':' !in subnet && 17 <= p <= 24
    ensures PoolText(subnet, ipam, "/" + Itoa(p)).Some?
    ensures ParseCidr(PoolText(subnet, ipam, "/" + Itoa(p)).value) ==
            if ipam < Blocks(p) then Some(Pool(subnet, ipam, p)) else None
  {
    var a, b := AdmittedShape(subnet);
    PoolNames(subnet, a, b, ipam, p);
  }

  lemma BlocksFill(p: nat)
    requires 17 <= p <= 24
    ensures Pow2(16) == 0x1_0000 == Blocks(p) * Pow2(32 - p)
  {
    Pow2Sum(p - 16, 32 - p, 16);
    Pow2Constants();
  }

  lemma BlockBase(k: nat, ipam: nat, p: nat)
    requires 17 <= p <= 24
    ensures Base(Block(k * 0x1_0000, ipam, p)) == k * 0x1_0000 + ipam * Pow2(32 - p)
    ensures Base(Net(k * 0x1_0000, 16)) == k * 0x1_0000
  {
    BlocksFill(p);
    FloorOfSum(k, Blocks(p), ipam, Pow2(32 - p));
  }

  lemma BlockInside(k: nat, i: nat, p: nat)
    requires 17 <= p <= 24 && i < Blocks(p)
    ensures forall x :: InRange(Block(k * 0x1_0000, i, p), x) ==> InRange(Net(k * 0x1_0000, 16), x)
  {
    BlocksFill(p);
    BlockBase(k, i, p);
    Apart(i, Blocks(p), Pow2(32 - p));
  }

  lemma EarlierBlockApart(k: nat, i: nat, j: nat, p: nat)
    requires 17 <= p <= 24 && i < j < Blocks(p)
    ensures !Meet(Block(k * 0x1_0000, i, p), Block(k * 0x1_0000, j, p))
    ensures !Meet(Block(k * 0x1_0000, j, p), Block(k * 0x1_0000, i, p))
  {
    BlockBase(k, i, p);
    BlockBase(k, j, p);
    Apart(i, j, Pow2(32 - p));
  }

  lemma BlocksApart(k: nat, i: nat, j: nat, p: nat)
    requires 17 <= p <= 24 && i < Blocks(p) && j < Blocks(p)
    ensures forall x :: InRange(Block(k * 0x1_0000, i, p), x) ==> InRange(Net(k * 0x1_0000, 16), x)
    ensures i != j ==> !Meet(Block(k * 0x1_0000, i, p), Block(k * 0x1_0000, j, p))
  {
    BlockInside(k, i, p);
    if i < j { EarlierBlockApart(k, i, j, p); }
    if j < i { EarlierBlockApart(k, j, i, p); }
  }

  /** An admitted subnet starts a /16. */
  lemma AdmittedBase(subnet: string) returns (k: nat)
    requires SubnetAdmitted(subnet) && ':' !in subnet
    ensures ParseCidr(subnet) == Some(Net(k * 0x1_0000, 16))
  {
    var a, b := AdmittedShape(subnet);
    k := QuadBase(a, b);
  }

  lemma QuadBase(a: nat, b: nat) returns (k: nat)
    ensures Address(Quad(a, b, 0, 0)) == k * 0x1_0000
  {
    k := a * 0x100 + b;
  }

  /** Every block lies inside the slice's /16, and blocks of different indexes share no address. */
  lemma PoolsInsideAndDisjoint(subnet: string, i: nat, j: nat, p: nat)
    requires SubnetAdmitted(subnet) && ':' !in subnet && 17 <= p <= 24
    requires i < Blocks(p) && j < Blocks(p)
    ensures forall x :: InRange(Pool(subnet, i, p), x) ==> InRange(ParseCidr(subnet).value, x)
    ensures i != j ==> !Meet(Pool(subnet, i, p), Pool(subnet, j, p))
  {
    var k := AdmittedBase(subnet);
    BlocksApart(k, i, j, p);
  }

  /** No block of an admitted subnet meets a CNI subnet, IPv4 or IPv6, that OverlapIP cleared at admission. */
  lemma PoolAvoidsCni(subnet: string, ipam: nat, p: nat, cni: string)
    requires SubnetAdmitted(subnet) && ':' !in subnet && 17 <= p <= 24 && ipam < Blocks(p)
    requires ParseIpNet(cni).Some? && !OverlapIP(cni, subnet)
    ensures !Share(Four(Pool(subnet, ipam, p)), ParseIpNet(cni).value)
  {
    PoolsInsideAndDisjoint(subnet, ipam, ipam, p);
    OverlapIsIntersection(cni, subnet);
    var c, whole, pool := ParseIpNet(cni).value, ParseCidr(subnet).value, Pool(subnet, ipam, p);
    forall x | Holds(Four(pool), x)
      ensures c.Four? ==> !Holds(c, x)
    {
      assert InRange(pool, x) && InRange(whole, x) && Holds(Four(whole), x);
    }
  }

  // ----- Gateway addresses -----

  datatype GatewayAddresses = GatewayAddresses(
    serverNetwork: string, clientNetwork: string, serverSubnet: string, clientSubnet: string,
    serverVpnNetwork: string, serverVpnAddress: string, clientVpnAddress: string)

  /** The third octet of the slice's VPN network. */
  const VPN_OCTET: nat := 255

  /** The address x.y.c.d in the slice's /16. */
  function SubnetAddress(sliceSubnet: string, c: nat, d: nat): string
    requires |Split(sliceSubnet, '.')| >= 2
  {
    Join([Split(sliceSubnet, '.')[0], Split(sliceSubnet, '.')[1], Decimal(c), Decimal(d)], '.')
  }

  /** BuildNetworkAddresses from the two cluster indexes; None stands for an index panic. */
  function BuildNetworkAddresses(sliceSubnet: string, server: int, client: int, cidr: string): Option<GatewayAddresses> {
    var s, c := PoolText(sliceSubnet, server, cidr), PoolText(sliceSubnet, client, cidr);
    if s.None? || c.None? then None
    else Some(GatewayAddresses(
      Split(s.value, '/')[0], Split(c.value, '/')[0], s.value, c.value,
      SubnetAddress(sliceSubnet, VPN_OCTET, 0),
      SubnetAddress(sliceSubnet, VPN_OCTET, 1), SubnetAddress(sliceSubnet, VPN_OCTET, 2)))
  }

  /** The VPN network x.y.255.0/24. */
  function VpnNet(subnet: string): Net
    requires ParseCidr(subnet).Some?
  {
    Net(ParseCidr(subnet).value.addr + 255 * 256, 24)
  }

  lemma AddressHasNoSlash(addr: string)
    requires ParseAddress(addr).Some?
    ensures '/' !in addr
  {
    var q := Split(addr, '.');
    JoinSplit(addr, '.');
    assert q == [q[0], q[1], q[2], q[3]];
    JoinFour(q[0], q[1], q[2], q[3]);
  }

  /** A parsing address with a mask behind it parses to that address. */
  lemma MaskedAddress(addr: string, p: nat)
    requires ParseAddress(addr).Some? && p <= 32
    ensures ParseCidr(addr + ("/" + Decimal(p))) == Some(Net(Address(ParseAddress(addr).value), p))
  {
    var d := Decimal(p);
    AddressHasNoSlash(addr);
    DecimalRoundTrip(p);
    SplitAtFirst(d, "", '/');
    SplitAtFirst(addr, d, '/');
    assert addr + ("/" + d) == addr + ['/'] + d;
  }

  lemma DottedAddress(x: string, y: string, a: nat, b: nat, c: nat, d: nat)
    requires ParseOctet(x) == Some(a) && ParseOctet(y) == Some(b) && c <= 255 && d <= 255
    ensures ParseAddress(Join([x, y, Decimal(c), Decimal(d)], '.')) == Some(Quad(a, b, c, d))
  {
    DecimalOctet(c);
    DecimalOctet(d);
    SplitJoin([x, y, Decimal(c), Decimal(d)], '.');
  }

  lemma SubnetAddressParses(subnet: string, a: nat, b: nat, c: nat, d: nat, p: nat)
    requires IsSlash16(subnet, a, b) && c <= 255 && d <= 255 && p <= 32
    ensures ParseCidr(SubnetAddress(subnet, c, d) + ("/" + Decimal(p))) ==
            Some(Net(ParseCidr(subnet).value.addr + c * 256 + d, p))
  {
    SubnetAddressQuad(subnet, a, b, c, d);
    MaskedQuad(SubnetAddress(subnet, c, d), a, b, c, d, p);
  }

  lemma MaskedQuad(addr: string, a: nat, b: nat, c: nat, d: nat, p: nat)
    requires ParseAddress(addr) == Some(Quad(a, b, c, d)) && p <= 32
    ensures ParseCidr(addr + ("/" + Decimal(p))) == Some(Net(Address(Quad(a, b, 0, 0)) + c * 256 + d, p))
  {
    MaskedAddress(addr, p);
  }

  lemma SubnetAddressQuad(subnet: string, a: nat, b: nat, c: nat, d: nat)
    requires IsSlash16(subnet, a, b) && c <= 255 && d <= 255
    ensures ParseAddress(SubnetAddress(subnet, c, d)) == Some(Quad(a, b, c, d))
  {
    DottedAddress(Split(subnet, '.')[0], Split(subnet, '.')[1], a, b, c, d);
  }

  /** Text x.y.c.d/p built from the slice subnet names that address; c = 255, d = 0, p = 24 is the VPN network. */
  lemma SubnetAddressNames(subnet: string, c: nat, d: nat, p: nat)
    requires SubnetAdmitted(subnet) && ':' !in subnet && c <= 255 && d <= 255 && p <= 32
    ensures |Split(subnet, '.')| == 4
    ensures ParseCidr(SubnetAddress(subnet, c, d) + ("/" + Decimal(p))) ==
            Some(Net(ParseCidr(subnet).value.addr + c * 256 + d, p))
  {
    var a, b := AdmittedShape(subnet);
    SubnetAddressParses(subnet, a, b, c, d, p);
  }

  lemma BlockAt255(k: nat, ipam: nat, p: nat)
    requires 17 <= p <= 24 && ipam < Blocks(p)
    ensures Meet(Block(k * 0x1_0000, ipam, p), Net(k * 0x1_0000 + 255 * 256, 24)) <==> ipam == Blocks(p) - 1
  {
    BlocksFill(p);
    BlockBase(k, ipam, p);
    BlockBase(k, 255, 24);
    var base, s, n := k * 0x1_0000, Pow2(32 - p), Blocks(p);
    var vpn, pool := Block(base, 255, 24), Block(base, ipam, p);
    Pow2Constants();
    assert vpn == Net(base + 255 * 256, 24);
    if p < 24 { Pow2Grows(8, 32 - p); }
    if ipam == n - 1 {
      assert ipam * s == n * s - s;
      assert InRange(pool, base + 255 * 256) && InRange(vpn, base + 255 * 256);
    } else {
      Apart(ipam + 1, n, s);
      assert (ipam + 1) * s == ipam * s + s;
    }
  }

  /** The VPN network meets a cluster block exactly when that cluster holds the last index. */
  lemma VpnMeetsLastPool(subnet: string, ipam: nat, p: nat)
    requires SubnetAdmitted(subnet) && ':' !in subnet && 17 <= p <= 24 && ipam < Blocks(p)
    ensures Meet(Pool(subnet, ipam, p), VpnNet(subnet)) <==> ipam == Blocks(p) - 1
  {
    var k := AdmittedBase(subnet);
    BlockAt255(k, ipam, p);
  }

  // ----- What the address texts of a gateway pair name -----

  /** The network of a block: its text without the prefix is its first address. */
  lemma BlockNetwork(subnet: string, i: nat, p: nat)
    requires SubnetAdmitted(subnet) && ':' !in subnet && 17 <= p <= 24 && i < Blocks(p)
    ensures var t := PoolText(subnet, i, "/" + Itoa(p));
      && t.Some? && var a := ParseAddress(Split(t.value, '/')[0]);
      && a.Some? && Address(a.value) == Base(Pool(subnet, i, p)) == Pool(subnet, i, p).addr
  {
    PoolParses(subnet, i, p);
    var k := AdmittedBase(subnet);
    BlockBase(k, i, p);
  }

  lemma VpnBase(subnet: string)
    requires SubnetAdmitted(subnet) && ':' !in subnet
    ensures Base(VpnNet(subnet)) == VpnNet(subnet).addr
  {
    var k := AdmittedBase(subnet);
    Pow2Constants();
    assert VpnNet(subnet) == Block(k * 0x1_0000, 255, 24);
    BlockBase(k, 255, 24);
  }

  lemma SlashMask(addr: string)
    ensures addr + "/24" == addr + ("/" + Decimal(24))
  {
    assert Decimal(2) == "2" && Decimal(24) == "24";
    assert "/" + "24" == "/24";
  }

  /** The text of address number d of the VPN network. */
  ghost predicate IsVpnText(subnet: string, text: string, d: nat)
    requires ParseCidr(subnet).Some?
  {
    ParseCidr(text + "/24") == Some(Net(Base(VpnNet(subnet)) + d, 24))
  }

  lemma VpnNamed(subnet: string, text: string, d: nat)
    requires ParseCidr(subnet).Some? && Base(VpnNet(subnet)) == VpnNet(subnet).addr
    requires ParseCidr(text + ("/" + Decimal(24))) == Some(Net(ParseCidr(subnet).value.addr + 255 * 256 + d, 24))
    ensures IsVpnText(subnet, text, d)
  {
    SlashMask(text);
    assert text + "/24" == text + ("/" + Decimal(24));
  }

  lemma VpnText(subnet: string, d: nat)
    requires SubnetAdmitted(subnet) && ':' !in subnet && d <= 255
    ensures |Split(subnet, '.')| == 4
    ensures ParseCidr(subnet).Some? && IsVpnText(subnet, SubnetAddress(subnet, VPN_OCTET, d), d)
  {
    SubnetAddressNames(subnet, VPN_OCTET, d, 24);
    VpnBase(subnet);
    VpnNamed(subnet, SubnetAddress(subnet, VPN_OCTET, d), d);
  }

  /** The texts of a block and of its first address. */
  ghost predicate IsBlockText(subnet: string, text: string, network: string, i: nat, p: nat)
    requires ParseCidr(subnet).Some? && p <= 32
  {
    && ParseCidr(text) == Some(Pool(subnet, i, p))
    && ParseAddress(network).Some? && Address(ParseAddress(network).value) == Base(Pool(subnet, i, p))
  }

  lemma BlockTexts(subnet: string, i: nat, p: nat)
    requires SubnetAdmitted(subnet) && ':' !in subnet && 17 <= p <= 24 && i < Blocks(p)
    ensures ParseCidr(subnet).Some? && PoolText(subnet, i, "/" + Itoa(p)).Some?
    ensures var t := PoolText(subnet, i, "/" + Itoa(p)).value; IsBlockText(subnet, t, Split(t, '/')[0], i, p)
  {
    PoolParses(subnet, i, p);
    BlockNetwork(subnet, i, p);
  }

  /** The texts built for a gateway pair name the blocks of server and client, the first addresses of these, the VPN network
      x.y.255.0/24 and the first two addresses in it. */
  lemma BuiltAddresses(subnet: string, i: nat, j: nat, p: nat)
    requires SubnetAdmitted(subnet) && ':' !in subnet && 17 <= p <= 24 && i < Blocks(p) && j < Blocks(p)
    ensures BuildNetworkAddresses(subnet, i, j, "/" + Itoa(p)).Some? && ParseCidr(subnet).Some?
    ensures var n := BuildNetworkAddresses(subnet, i, j, "/" + Itoa(p)).value;
      && IsBlockText(subnet, n.serverSubnet, n.serverNetwork, i, p)
      && IsBlockText(subnet, n.clientSubnet, n.clientNetwork, j, p)
      && IsVpnText(subnet, n.serverVpnNetwork, 0) && ParseCidr(n.serverVpnNetwork + "/24") == Some(VpnNet(subnet))
      && IsVpnText(subnet, n.serverVpnAddress, 1) && IsVpnText(subnet, n.clientVpnAddress, 2)
  {
    BlockTexts(subnet, i, p);
    BlockTexts(subnet, j, p);
    VpnText(subnet, 0);
    VpnText(subnet, 1);
    VpnText(subnet, 2);
    VpnBase(subnet);
  }

  /** A certificate request names a block by its first address and the mask 255.255.255.0, whatever the prefix. */
  function CertNetwork(network: string): string {
    network + "/24"
  }

  lemma CertParses(network: string)
    requires ParseAddress(network).Some?
    ensures ParseCidr(CertNetwork(network)) == Some(Net(Address(ParseAddress(network).value), 24))
  {
    MaskedAddress(network, 24);
    SlashMask(network);
  }

  lemma ScaledStep(i: nat, p: nat, c: nat)
    requires 17 <= p <= 24 && c == i * Pow2(24 - p)
    ensures c * 256 == i * Pow2(32 - p)
  {
    Pow2Sum(24 - p, 8, 32 - p);
    Pow2Constants();
    assert i * (Pow2(24 - p) * 256) == i * Pow2(24 - p) * 256;
  }

  /** So the network of the request is the server's block exactly for prefix 24; else it is the first part of it only. */
  lemma CertNetworkIsBlock(subnet: string, i: nat, j: nat, p: nat)
    requires SubnetAdmitted(subnet) && ':' !in subnet && 17 <= p <= 24 && i < Blocks(p) && j < Blocks(p)
    ensures BuildNetworkAddresses(subnet, i, j, "/" + Itoa(p)).Some? && ParseCidr(subnet).Some?
    ensures var n := ParseCidr(CertNetwork(BuildNetworkAddresses(subnet, i, j, "/" + Itoa(p)).value.serverNetwork));
      && n.Some?
      && (forall x :: InRange(n.value, x) ==> InRange(Pool(subnet, i, p), x))
      && ((forall x :: InRange(Pool(subnet, i, p), x) ==> InRange(n.value, x)) <==> p == 24)
  {
    BuiltAddresses(subnet, i, j, p);
    BlockNetwork(subnet, i, p);
    CertParses(BuildNetworkAddresses(subnet, i, j, "/" + Itoa(p)).value.serverNetwork);
    var k := AdmittedBase(subnet);
    CertBlock(k, i, p);
  }

  /** No slice of 2 to 32 clusters has that prefix: its requests never name a whole block. */
  lemma CertMissesPart(subnet: string, maxClusters: int, i: nat, j: nat)
    requires SubnetAdmitted(subnet) && ':' !in subnet && 2 <= maxClusters <= 32 && i < maxClusters && j < maxClusters
    ensures 17 <= FindPrefix(maxClusters) < 24 && ParseCidr(subnet).Some?
    ensures var p := FindPrefix(maxClusters);
      && BuildNetworkAddresses(subnet, i, j, "/" + Itoa(p)).Some?
      && var n := ParseCidr(CertNetwork(BuildNetworkAddresses(subnet, i, j, "/" + Itoa(p)).value.serverNetwork));
      n.Some? && exists x :: InRange(Pool(subnet, i, p), x) && !InRange(n.value, x)
  {
    PrefixIsLeast(maxClusters);
    SmallPrefix(maxClusters);
    CertNetworkIsBlock(subnet, i, j, FindPrefix(maxClusters));
  }

  lemma SmallPrefix(maxClusters: int)
    requires 2 <= maxClusters <= 32
    ensures FindPrefix(maxClusters) < 24
  {
    assert Pow2(7) == 128;
  }

  lemma WholeOctets(q: nat, x: nat)
    requires x == 0x100 * q
    ensures Floor(x, 0x100) == x
  {
  }

  lemma CertBase(k: nat, i: nat, p: nat)
    requires 17 <= p <= 24 && i < Blocks(p)
    ensures var b := Block(k * 0x1_0000, i, p); var n := Net(b.addr, 24);
      Base(b) == b.addr == Base(n) && Size(n) == 0x100 && Size(b) == Pow2(24 - p) * 0x100
  {
    BlockBase(k, i, p);
    Pow2Constants();
    Pow2Sum(24 - p, 8, 32 - p);
    ScaledStep(i, p, i * Pow2(24 - p));
    WholeOctets(k * 0x100 + i * Pow2(24 - p), k * 0x1_0000 + i * Pow2(32 - p));
  }

  lemma CertBlock(k: nat, i: nat, p: nat)
    requires 17 <= p <= 24 && i < Blocks(p)
    ensures var b := Block(k * 0x1_0000, i, p); var n := Net(b.addr, 24);
      && (forall x :: InRange(n, x) ==> InRange(b, x))
      && ((forall x :: InRange(b, x) ==> InRange(n, x)) <==> p == 24)
  {
    var b := Block(k * 0x1_0000, i, p);
    CertBase(k, i, p);
    assert Pow2(0) == 1;
    if p < 24 {
      Pow2Grows(0, 24 - p);
      assert InRange(b, b.addr + 0x100) && !InRange(Net(b.addr, 24), b.addr + 0x100);
    }
  }
}
