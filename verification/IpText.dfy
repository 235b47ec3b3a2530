/** IPv4 and IPv6 addresses and blocks as text, the way Go's net package reads them. */
module IpText {
  import opened Text

  // ----- Parsing, section 3.1 of RFC 4632 -----

  /** An IPv4 address with a prefix length. */
  datatype Net = Net(addr: nat, prefix: nat)

  function ParseOctet(s: string): (r: Option<nat>)
    ensures r.Some? ==> r.value <= 255 && Plain(s)
  {
    if s == "" || !AllDigits(s) || (|s| > 1 && s[0] == '0') || Value(s) > 255 then None else Some(Value(s))
  }

  predicate Plain(s: string) {
    '.' !in s && '/' !in s
  }

  /** The four octets of an address. */
  datatype Quad = Quad(a: nat, b: nat, c: nat, d: nat)

  function Address(o: Quad): nat {
    o.a * 0x100_0000 + o.b * 0x1_0000 + o.c * 0x100 + o.d
  }

  function ParseAddress(s: string): Option<Quad> {
    var p := Split(s, '.');
    if |p| != 4 then None
    else
      var a, b, c, d := ParseOctet(p[0]), ParseOctet(p[1]), ParseOctet(p[2]), ParseOctet(p[3]);
      if a.None? || b.None? || c.None? || d.None? then None
      else Some(Quad(a.value, b.value, c.value, d.value))
  }

  /** net.ParseCIDR on IPv4 text. */
  function ParseCidr(s: string): (r: Option<Net>)
    ensures r.Some? ==> r.value.prefix <= 32 && |Split(s, '/')| == 2 && ParseAddress(Split(s, '/')[0]).Some?
  {
    var p := Split(s, '/');
    if |p| != 2 || p[1] == "" || !AllDigits(p[1]) || Value(p[1]) > 32 then None
    else
      var addr := ParseAddress(p[0]);
      if addr.None? then None else Some(Net(Address(addr.value), Value(p[1])))
  }

  // ----- IPv6, section 2.2 of RFC 4291 -----

  predicate IsHex(c: char) {
    IsDigit(c) || 'a' <= c <= 'f' || 'A' <= c <= 'F'
  }

  function HexDigit(c: char): nat
    requires IsHex(c)
  {
    if IsDigit(c) then c as int - '0' as int
    else if 'a' <= c <= 'f' then c as int - 'a' as int + 10
    else c as int - 'A' as int + 10
  }

  function HexValue(s: string): nat
    requires forall i :: 0 <= i < |s| ==> IsHex(s[i])
  {
    if s == "" then 0 else HexValue(s[..|s| - 1]) * 16 + HexDigit(s[|s| - 1])
  }

  /** One field: up to four hexadecimal digits. */
  function ParseField(s: string): Option<nat> {
    if 1 <= |s| <= 4 && forall i :: 0 <= i < |s| ==> IsHex(s[i]) then Some(HexValue(s)) else None
  }

  function ParseFields(parts: seq<string>): Option<seq<nat>> {
    if parts == [] then Some([])
    else
      var first, rest := ParseField(parts[0]), ParseFields(parts[1..]);
      if first.None? || rest.None? then None else Some([first.value] + rest.value)
  }

  /** The fields at the end of an address, of which the last two may be written as an IPv4 address. */
  function ParseTail(parts: seq<string>): Option<seq<nat>>
    requires |parts| > 0
  {
    var last := parts[|parts| - 1];
    if '.' in last then
      var front, o := ParseFields(parts[..|parts| - 1]), ParseAddress(last);
      if front.None? || o.None? then None
      else Some(front.value + [o.value.a * 0x100 + o.value.b, o.value.c * 0x100 + o.value.d])
    else ParseFields(parts)
  }

  /** Where the first :: is. */
  function Ellipsis(s: string): (r: Option<nat>)
    ensures r.Some? ==> r.value + 2 <= |s|
  {
    if |s| < 2 then None
    else if s[0] == ':' && s[1] == ':' then Some(0)
    else
      var r := Ellipsis(s[1..]);
      if r.None? then None else Some(r.value + 1)
  }

  /** The eight fields of an IPv6 address; :: stands for at least one field of zeros. */
  function ParseV6(s: string): (r: Option<seq<nat>>)
    ensures r.Some? ==> |r.value| == 8
  {
    var e := Ellipsis(s);
    if e.None? then
      var fields := ParseTail(Split(s, ':'));
      if fields.Some? && |fields.value| == 8 then fields else None
    else
      var left, right := s[..e.value], s[e.value + 2..];
      var before := if left == "" then Some([]) else ParseFields(Split(left, ':'));
      var after := if right == "" then Some([]) else ParseTail(Split(right, ':'));
      if before.None? || after.None? || |before.value| + |after.value| > 7 then None
      else Some(before.value + seq(8 - |before.value| - |after.value|, _ => 0) + after.value)
  }

  /** An IPv4 address in IPv6 clothes, section 2.5.5.2 of RFC 4291. */
  predicate IsMapped(fields: seq<nat>) {
    |fields| == 8 && fields[..5] == [0, 0, 0, 0, 0] && fields[5] == 0xffff
  }

  function FieldsQuad(fields: seq<nat>): Quad
    requires |fields| == 8
  {
    Quad(fields[6] / 0x100, fields[6] % 0x100, fields[7] / 0x100, fields[7] % 0x100)
  }

  function FieldsAddress(fields: seq<nat>): nat {
    if fields == [] then 0 else FieldsAddress(fields[..|fields| - 1]) * 0x1_0000 + fields[|fields| - 1]
  }

  /** net.IP.To4 of an address text. */
  function To4(addr: string): Option<Quad> {
    if ':' !in addr then ParseAddress(addr)
    else
      var fields := ParseV6(addr);
      if fields.Some? && IsMapped(fields.value) then Some(FieldsQuad(fields.value)) else None
  }

  /** A block of 4-byte or of 16-byte addresses. */
  datatype IpNet = Four(net: Net) | Sixteen(addr: nat, prefix: nat) {
    predicate Proper() {
      if Four? then net.prefix <= 32 else prefix <= 128
    }
  }

  /** net.ParseCIDR; the block of a mapped address is one of 4-byte addresses exactly from prefix 96 on. */
  function ParseIpNet(s: string): (r: Option<IpNet>)
    ensures r.Some? ==> |Split(s, '/')| == 2 && AllDigits(Split(s, '/')[1]) && Split(s, '/')[1] != "" && r.value.Proper()
    ensures r.Some? && ':' !in s ==> ParseCidr(s).Some? && r.value == Four(ParseCidr(s).value)
  {
    var p := Split(s, '/');
    if |p| != 2 || p[1] == "" || !AllDigits(p[1]) then None
    else if ':' !in s then
      var n := ParseCidr(s);
      if n.None? then None else Some(Four(n.value))
    else
      var fields := ParseV6(p[0]);
      if fields.None? || Value(p[1]) > 128 then None
      else if IsMapped(fields.value) && Value(p[1]) >= 96 then
        Some(Four(Net(Address(FieldsQuad(fields.value)), Value(p[1]) - 96)))
      else Some(Sixteen(FieldsAddress(fields.value), Value(p[1])))
  }
}
