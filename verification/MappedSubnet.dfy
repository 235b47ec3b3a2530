/** Why blocks need a slice subnet without a colon: the webhook also admits IPv4-mapped text, whose blocks coincide. */
module MappedSubnet {
  import opened Text
  import opened Powers
  import opened Cidr
  import opened IpText
  import opened Pools

  /** a.b.c.d as dotted text. */
  function Dotted(o: Quad): string {
    Join([Decimal(o.a), Decimal(o.b), Decimal(o.c), Decimal(o.d)], '.')
  }

  /** ::ffff:a.b.c.d/p. */
  function MappedText(o: Quad, p: nat): string {
    "::ffff:" + Dotted(o) + "/" + Decimal(p)
  }

  predicate InOctets(o: Quad) {
    o.a <= 255 && o.b <= 255 && o.c <= 255 && o.d <= 255
  }

  lemma DottedParses(o: Quad)
    requires InOctets(o)
    ensures ParseAddress(Dotted(o)) == Some(o)
    ensures ':' !in Dotted(o) && '/' !in Dotted(o) && '.' in Dotted(o)
  {
    var a, b, c, d := Decimal(o.a), Decimal(o.b), Decimal(o.c), Decimal(o.d);
    DecimalOctet(o.a);
    DecimalOctet(o.b);
    DecimalOctet(o.c);
    DecimalOctet(o.d);
    DecimalRoundTrip(o.a);
    DecimalRoundTrip(o.b);
    DecimalRoundTrip(o.c);
    DecimalRoundTrip(o.d);
    SplitJoin([a, b, c, d], '.');
    JoinFour(a, b, c, d);
    assert Dotted(o)[|a|] == '.';
  }

  /** The eight fields of ::ffff:a.b.c.d. */
  function MappedFields(o: Quad): seq<nat> {
    [0, 0, 0, 0, 0, 0xffff, o.a * 0x100 + o.b, o.c * 0x100 + o.d]
  }

  lemma HexFfff()
    ensures ParseField("ffff") == Some(0xffff)
  {
    assert "ffff"[..3] == "fff" && "fff"[..2] == "ff" && "ff"[..1] == "f" && "f"[..0] == "";
    assert HexValue("f") == 15;
    assert HexValue("ff") == 255;
    assert HexValue("fff") == 0xfff;
  }

  lemma MappedTail(quad: string, o: Quad)
    requires ParseAddress(quad) == Some(o) && '.' in quad
    ensures ParseTail(["ffff", quad]) == Some([0xffff, o.a * 0x100 + o.b, o.c * 0x100 + o.d])
  {
    var parts := ["ffff", quad];
    HexFfff();
    assert parts[..|parts| - 1] == ["ffff"] && ["ffff"][1..] == [];
    var fields := ["ffff"];
    var none: seq<nat> := [];
    assert fields[0] == "ffff" && fields[1..] == [] && ParseFields([]) == Some(none);
    assert ParseField(fields[0]) == Some(0xffff) && [0xffff] + none == [0xffff];
    assert ParseFields(fields) == Some([0xffff]);
    var tail := [o.a * 0x100 + o.b, o.c * 0x100 + o.d];
    assert ParseTail(parts) == Some([0xffff] + tail);
    assert [0xffff] + tail == [0xffff, o.a * 0x100 + o.b, o.c * 0x100 + o.d];
  }

  lemma AfterEllipsis(right: string, fields: seq<nat>)
    requires right != "" && ParseTail(Split(right, ':')) == Some(fields) && |fields| == 3
    ensures ParseV6("::" + right) == Some([0, 0, 0, 0, 0] + fields)
  {
    var s := "::" + right;
    assert s[0] == ':' && s[1] == ':';
    assert Ellipsis(s) == Some(0);
    assert s[..0] == "" && s[2..] == right;
    assert [] + seq(5, _ => 0) == [0, 0, 0, 0, 0];
  }

  lemma MappedAddress(o: Quad)
    requires InOctets(o)
    ensures ParseV6("::ffff:" + Dotted(o)) == Some(MappedFields(o))
    ensures To4("::ffff:" + Dotted(o)) == Some(o)
  {
    DottedParses(o);
    MappedFieldsParse(Dotted(o), o);
    assert ("::ffff:" + Dotted(o))[0] == ':';
    MappedTo4("::ffff:" + Dotted(o), o);
  }

  lemma MappedTo4(addr: string, o: Quad)
    requires InOctets(o) && ParseV6(addr) == Some(MappedFields(o)) && ':' in addr
    ensures To4(addr) == Some(o)
  {
    MappedQuad(o);
    FieldsTo4(addr, MappedFields(o));
  }

  lemma FieldsTo4(addr: string, fields: seq<nat>)
    requires ParseV6(addr) == Some(fields) && IsMapped(fields) && ':' in addr
    ensures To4(addr) == Some(FieldsQuad(fields))
  {
  }

  lemma MappedQuad(o: Quad)
    requires InOctets(o)
    ensures IsMapped(MappedFields(o)) && FieldsQuad(MappedFields(o)) == o
  {
    assert MappedFields(o)[..5] == [0, 0, 0, 0, 0];
    TwoOctets(o.a, o.b);
    TwoOctets(o.c, o.d);
  }

  lemma TwoOctets(a: nat, b: nat)
    requires b <= 255
    ensures (a * 0x100 + b) / 0x100 == a && (a * 0x100 + b) % 0x100 == b
  {
  }

  lemma MappedRight(quad: string)
    requires ':' !in quad
    ensures Split("ffff" + [':'] + quad, ':') == ["ffff", quad]
  {
    SplitAtFirst("ffff", quad, ':');
    SplitAtFirst(quad, "", ':');
  }

  lemma MappedFieldsParse(quad: string, o: Quad)
    requires ParseAddress(quad) == Some(o) && '.' in quad && ':' !in quad
    ensures ParseV6("::ffff:" + quad) == Some(MappedFields(o))
  {
    var right := "ffff" + [':'] + quad;
    var fields := [0xffff, o.a * 0x100 + o.b, o.c * 0x100 + o.d];
    assert ParseV6("::" + right) == Some([0, 0, 0, 0, 0] + fields) by {
      MappedRight(quad);
      MappedTail(quad, o);
      AfterEllipsis(right, fields);
    }
    assert "::" + right == "::ffff:" + quad;
    assert [0, 0, 0, 0, 0] + fields == MappedFields(o);
  }

  lemma MappedSplits(o: Quad, p: nat)
    requires InOctets(o)
    ensures Split(MappedText(o, p), '/') == ["::ffff:" + Dotted(o), Decimal(p)]
  {
    DottedParses(o);
    DecimalRoundTrip(p);
    SplitAtFirst("::ffff:" + Dotted(o), Decimal(p), '/');
    SplitAtFirst(Decimal(p), "", '/');
  }

  lemma MappedNet(addr: string, fields: seq<nat>, p: nat, text: string)
    requires ParseV6(addr) == Some(fields) && |fields| == 8 && p <= 24
    requires Split(text, '/') == [addr, Decimal(p)] && ':' in text
    ensures ParseIpNet(text) == Some(Sixteen(FieldsAddress(fields), p))
  {
    DecimalRoundTrip(p);
  }

  lemma StartsAtZero(addr: nat, p: nat)
    requires addr < 0x1_0000_0000_0000 && p <= 24
    ensures First(Sixteen(addr, p)) == 0
  {
    HighPower(128 - p);
    var s := Pow2(128 - p);
    assert addr < s;
    ZeroFloor(addr, s);
  }

  lemma ZeroFloor(x: nat, s: nat)
    requires x < s
    ensures Floor(x, s) == 0
  {
  }

  lemma MappedTextNet(o: Quad, p: nat)
    requires InOctets(o) && p <= 24
    ensures ParseIpNet(MappedText(o, p)) == Some(Sixteen(FieldsAddress(MappedFields(o)), p))
  {
    MappedSplits(o, p);
    MappedAddress(o);
    assert MappedText(o, p)[0] == ':';
    MappedNet("::ffff:" + Dotted(o), MappedFields(o), p, MappedText(o, p));
  }

  /** A mapped block with a short prefix starts at address zero, whatever the octets. */
  lemma MappedBlock(o: Quad, p: nat)
    requires InOctets(o) && p <= 24
    ensures ParseIpNet(MappedText(o, p)) == Some(Sixteen(FieldsAddress(MappedFields(o)), p))
    ensures First(ParseIpNet(MappedText(o, p)).value) == 0
  {
    MappedTextNet(o, p);
    FieldsBound(o);
    StartsAtZero(FieldsAddress(MappedFields(o)), p);
  }

  lemma FieldsBound(o: Quad)
    requires InOctets(o)
    ensures FieldsAddress(MappedFields(o)) < 0x1_0000_0000_0000
  {
    var x, y := o.a * 0x100 + o.b, o.c * 0x100 + o.d;
    var f := MappedFields(o);
    assert f[..7] == [0, 0, 0, 0, 0, 0xffff, x] && f[..7][..6] == [0, 0, 0, 0, 0, 0xffff];
    assert f[..6][..5] == [0, 0, 0, 0, 0];
    NoFields(5);
    assert seq(5, _ => 0) == f[..6][..5];
    assert f[..7][..6] == f[..6];
    assert FieldsAddress(f[..6]) == 0xffff;
    assert FieldsAddress(f[..7]) == 0xffff * 0x1_0000 + x;
  }

  lemma {:induction false} NoFields(n: nat)
    ensures FieldsAddress(seq(n, _ => 0)) == 0
  {
    if n > 0 {
      NoFields(n - 1);
      assert seq(n, _ => 0)[..n - 1] == seq(n - 1, _ => 0);
    }
  }

  lemma HighPower(n: nat)
    requires n >= 104
    ensures Pow2(n) >= 0x1_0000_0000_0000
  {
    Pow2Constants();
    Pow2Sum(16, 16, 32);
    Pow2Sum(32, 16, 48);
    Pow2Grows(48, n);
  }

  lemma EndsWith16(pre: string)
    ensures EndsIn16(pre + "/" + Decimal(16))
  {
    assert Decimal(1) == "1" && Decimal(16) == "16";
  }

  /** Private addresses a.b.0.0 are admitted in mapped notation. */
  lemma MappedAdmitted(a: nat, b: nat)
    requires a <= 255 && b <= 255 && Private(Quad(a, b, 0, 0))
    ensures SubnetAdmitted(MappedText(Quad(a, b, 0, 0), 16)) && ':' in MappedText(Quad(a, b, 0, 0), 16)
  {
    var o := Quad(a, b, 0, 0);
    MappedBlock(o, 16);
    MappedSplits(o, 16);
    MappedAddress(o);
    EndsWith16("::ffff:" + Dotted(o));
    assert MappedText(o, 16)[0] == ':';
  }

  lemma AroundJoin(pre: string, a: string, b: string, c: string, d: string, mask: string)
    ensures pre + Join([a, b, c, d], '.') + "/" + mask == Join([pre + a, b, c, d + ("/" + mask)], '.')
  {
    AppendToLast(a, b, c, d, "/" + mask);
    JoinFour(a, b, c, d + ("/" + mask));
    JoinFour(pre + a, b, c, d + ("/" + mask));
    assert pre + Join([a, b, c, d], '.') + "/" + mask == pre + (Join([a, b, c, d], '.') + ("/" + mask));
  }

  lemma MappedParts(a: nat, b: nat)
    requires a <= 255 && b <= 255
    ensures Split(MappedText(Quad(a, b, 0, 0), 16), '.') ==
            ["::ffff:" + Decimal(a), Decimal(b), Decimal(0), Decimal(0) + ("/" + Decimal(16))]
  {
    DecimalOctet(a);
    DecimalOctet(b);
    DecimalOctet(0);
    DecimalOctet(16);
    AroundJoin("::ffff:", Decimal(a), Decimal(b), Decimal(0), Decimal(0), Decimal(16));
    SplitJoin(["::ffff:" + Decimal(a), Decimal(b), Decimal(0), Decimal(0) + ("/" + Decimal(16))], '.');
  }

  /** The text of a cluster block of such a subnet. */
  lemma MappedPool(a: nat, b: nat, ipam: nat, p: nat)
    requires a <= 255 && b <= 255 && 17 <= p <= 24
    ensures PoolText(MappedText(Quad(a, b, 0, 0), 16), ipam, "/" + Itoa(p)) ==
            Some(MappedText(Quad(a, b, ipam * Pow2(24 - p), 0), p))
  {
    MappedParts(a, b);
    PoolSpelled(MappedText(Quad(a, b, 0, 0), 16), ipam, p);
    AroundJoin("::ffff:", Decimal(a), Decimal(b), Decimal(ipam * Pow2(24 - p)), Decimal(0), Decimal(p));
  }

  /** Every IPv4 CNI subnet is cleared against a mapped subnet. */
  lemma MappedClears(o: Quad, cni: string)
    requires InOctets(o) && ParseIpNet(cni).Some? && ParseIpNet(cni).value.Four?
    ensures !OverlapIP(cni, MappedText(o, 16))
  {
    MappedBlock(o, 16);
  }

  /** The block text of an index parses to a block that holds address zero. */
  ghost predicate HoldsZero(s: string, i: nat, p: nat) {
    var n := PoolText(s, i, "/" + Itoa(p));
    && n.Some? && ParseIpNet(n.value).Some? && !ParseIpNet(n.value).value.Four?
    && ParseIpNet(n.value).value.Proper() && Holds(ParseIpNet(n.value).value, 0)
  }

  lemma BlockHoldsZero(o: Quad, p: nat)
    requires InOctets(o) && p <= 24
    ensures var n := ParseIpNet(MappedText(o, p));
      n.Some? && !n.value.Four? && n.value.Proper() && Holds(n.value, 0)
  {
    MappedBlock(o, p);
  }

  lemma MappedPoolHolds(a: nat, b: nat, i: nat, p: nat)
    requires a <= 255 && b <= 255 && 17 <= p <= 24 && i < Blocks(p)
    ensures HoldsZero(MappedText(Quad(a, b, 0, 0), 16), i, p)
  {
    MappedPool(a, b, i, p);
    ThirdOctetBound(i, p);
    BlockHoldsZero(Quad(a, b, i * Pow2(24 - p), 0), p);
  }

  lemma ZeroShared(s: string, i: nat, j: nat, p: nat)
    requires HoldsZero(s, i, p) && HoldsZero(s, j, p)
    ensures var n, m := PoolText(s, i, "/" + Itoa(p)), PoolText(s, j, "/" + Itoa(p));
      && n.Some? && m.Some? && ParseIpNet(n.value).Some? && ParseIpNet(m.value).Some?
      && Share(ParseIpNet(n.value).value, ParseIpNet(m.value).value)
  {
  }

  /** On an admitted mapped subnet any two cluster blocks share addresses, and every IPv4 CNI subnet is cleared. */
  lemma MappedBlocksShare(a: nat, b: nat, i: nat, j: nat, p: nat, cni: string)
    requires a <= 255 && b <= 255 && Private(Quad(a, b, 0, 0))
    requires 17 <= p <= 24 && i < Blocks(p) && j < Blocks(p)
    ensures var s := MappedText(Quad(a, b, 0, 0), 16);
      && SubnetAdmitted(s) && ':' in s
      && (ParseIpNet(cni).Some? && ParseIpNet(cni).value.Four? ==> !OverlapIP(cni, s))
      && var n, m := PoolText(s, i, "/" + Itoa(p)), PoolText(s, j, "/" + Itoa(p));
         && n.Some? && m.Some? && ParseIpNet(n.value).Some? && ParseIpNet(m.value).Some?
         && Share(ParseIpNet(n.value).value, ParseIpNet(m.value).value)
  {
    MappedAdmitted(a, b);
    if ParseIpNet(cni).Some? && ParseIpNet(cni).value.Four? { MappedClears(Quad(a, b, 0, 0), cni); }
    MappedPoolHolds(a, b, i, p);
    MappedPoolHolds(a, b, j, p);
    ZeroShared(MappedText(Quad(a, b, 0, 0), 16), i, j, p);
  }
}
