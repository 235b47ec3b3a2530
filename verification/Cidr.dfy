/** From a cluster index to the text of its address block: util/common.go. */
module Cidr {
  import opened Text
  import opened Powers

  function PrefixFrom(maxClusters: int, i: int): (p: int)
    requires i <= 7
    decreases i + 1
    ensures p == 0 || 17 <= p <= i + 17
  {
    if i < 0 then 0 else if maxClusters > Pow2(i) then i + 17 else PrefixFrom(maxClusters, i - 1)
  }

  /** The prefix length handed to every cluster of a slice; 0 when there is none. */
  function FindPrefix(maxClusters: int): int {
    PrefixFrom(maxClusters, 7)
  }

  method FindCIDRByMaxClusters(maxClusters: int) returns (cidr: string)
    ensures cidr == if maxClusters <= 1 then "" else "/" + Itoa(FindPrefix(maxClusters))
  {
    cidr := "";
    var i := 7;
    while i >= 0
      invariant -1 <= i <= 7
      invariant PrefixFrom(maxClusters, 7) == PrefixFrom(maxClusters, i)
      invariant cidr == ""
      invariant i < 0 ==> maxClusters <= 1
    {
      if maxClusters > Pow2(i) {
        assert maxClusters > 1;
        return "/" + Itoa(i + 17);
      }
      i := i - 1;
    }
  }

  /** Block p of the /16 series has 2^(p-16) members. */
  function Blocks(p: int): nat
    requires 16 <= p
  {
    Pow2(p - 16)
  }

  ghost predicate LeastPrefix(p: int, maxClusters: int) {
    && 16 <= p
    && maxClusters <= Blocks(p)
    && forall q :: 16 <= q < p ==> Blocks(q) < maxClusters
  }

  /** The prefix is the least one with a block for every cluster, exactly up to 256 clusters. */
  lemma PrefixIsLeast(maxClusters: int)
    requires maxClusters >= 2
    ensures 17 <= FindPrefix(maxClusters) <= 24
    ensures LeastPrefix(FindPrefix(maxClusters), maxClusters) <==> maxClusters <= 256
    ensures maxClusters > 256 ==> FindPrefix(maxClusters) == 24
  {
    assert Pow2(0) == 1 && Pow2(1) == 2 && Pow2(2) == 4 && Pow2(3) == 8 && Pow2(4) == 16;
    assert Pow2(5) == 32 && Pow2(6) == 64 && Pow2(7) == 128 && Pow2(8) == 256;
    var p := FindPrefix(maxClusters);
    assert Pow2(p - 17) < maxClusters && (maxClusters <= 256 ==> maxClusters <= Pow2(p - 16));
    forall q | 16 <= q < p
      ensures Blocks(q) < maxClusters
    {
      if q < p - 1 { Pow2Grows(q - 16, p - 17); }
    }
  }

  /** subnetOctetDiff: (controlling octet, step of that octet). */
  function SubnetOctetDiff(cidr: int): (int, int) {
    if 0 < cidr <= 24 then (4 - 32 / cidr, Pow(2, 32 - cidr) / (256 * (32 / cidr)))
    else if 24 < cidr <= 32 then (4, Pow(2, 32 - cidr))
    else (-1, -1)
  }

  /** What the answer should be: the octet the prefix ends in, and the size of a block in units of it. */
  function ControllingOctet(cidr: int): (int, int)
    requires 0 < cidr <= 32
  {
    var octet := (cidr + 7) / 8;
    (octet, Pow2(8 * octet - cidr))
  }

  lemma Quotients(cidr: int)
    requires 0 < cidr <= 24
    ensures 17 <= cidr ==> 32 / cidr == 1
    ensures 11 <= cidr <= 16 ==> 32 / cidr == 2
    ensures 9 <= cidr <= 10 ==> 32 / cidr == 3
    ensures cidr <= 8 ==> 32 / cidr >= 4
  {
    var q, r := 32 / cidr, 32 % cidr;
    assert 32 == q * cidr + r && 0 <= r < cidr;
    if cidr <= 8 && q <= 3 { Apart(q, 4, cidr); }
  }

  lemma OctetStep(cidr: int)
    requires 11 <= cidr <= 24
    ensures 17 <= cidr ==> SubnetOctetDiff(cidr) == (3, Pow2(24 - cidr))
    ensures cidr <= 16 ==> SubnetOctetDiff(cidr) == (2, Pow2(23 - cidr))
  {
    PowIsPow2(32 - cidr);
    Quotients(cidr);
    Pow2Constants();
    if 17 <= cidr {
      Pow2Sum(24 - cidr, 8, 32 - cidr);
      assert SubnetOctetDiff(cidr).1 == (Pow2(24 - cidr) * 256) / 256;
    } else {
      Pow2Sum(23 - cidr, 9, 32 - cidr);
      assert SubnetOctetDiff(cidr).1 == (Pow2(23 - cidr) * 512) / 512;
    }
  }

  /** subnetOctetDiff is right exactly for prefixes 17 to 32. */
  lemma SubnetOctetDiffIsRight(cidr: int)
    requires 0 < cidr <= 32
    ensures SubnetOctetDiff(cidr) == ControllingOctet(cidr) <==> 17 <= cidr
  {
    if cidr <= 10 {
      Quotients(cidr);
    } else if cidr <= 24 {
      OctetStep(cidr);
      if cidr <= 16 { Pow2Grows(16 - cidr, 23 - cidr); }
    } else {
      PowIsPow2(32 - cidr);
    }
  }

  /** strconv.Atoi with the error dropped: anything unreadable is 0. */
  function Atoi(s: string): int {
    if s != "" && AllDigits(s) then Value(s)
    else if |s| > 1 && s[0] == '-' && AllDigits(s[1..]) then 0 - Value(s[1..])
    else if |s| > 1 && s[0] == '+' && AllDigits(s[1..]) then Value(s[1..])
    else 0
  }

  function Without(s: string, c: char): string {
    if s == "" then "" else (if s[0] == c then "" else [s[0]]) + Without(s[1..], c)
  }

  /** The parts after the edit loop: the control octet replaced, later octets zeroed, the prefix appended. */
  function PoolParts(parts: seq<string>, control: int, text: string, suffix: string): (r: seq<string>)
    requires 1 <= control <= 4 <= |parts|
    ensures |r| == |parts|
  {
    var edited := seq(|parts|, i requires 0 <= i < |parts| =>
      if i == control - 1 then text else if control <= i <= 3 then "0" else parts[i]);
    edited[3 := edited[3] + suffix]
  }

  /** GetClusterPrefixPool as text; None stands for the index panic. */
  function PoolText(sliceSubnet: string, ipam: int, subnetCidr: string): Option<string> {
    var cidr := Atoi(Without(subnetCidr, '/'));
    var parts := Split(sliceSubnet, '.');
    var (control, diff) := SubnetOctetDiff(cidr);
    if !(1 <= control <= 4) || |parts| < 4 then None
    else Some(Join(PoolParts(parts, control, Itoa(ipam * diff), "/" + Itoa(cidr)), '.'))
  }

  method EditOctets(parts: seq<string>, control: int, text: string, suffix: string) returns (octets: seq<string>)
    requires 1 <= control <= 4 <= |parts|
    ensures octets == PoolParts(parts, control, text, suffix)
  {
    octets := parts[control - 1 := text];
    var i := control;
    while i <= 3
      invariant control <= i <= 4
      invariant |octets| == |parts|
      invariant forall k :: 0 <= k < |parts| ==>
        octets[k] == if k == control - 1 then text else if control <= k < i then "0" else parts[k]
    {
      octets := octets[i := "0"];
      i := i + 1;
    }
    octets := octets[3 := octets[3] + suffix];
  }

  method GetClusterPrefixPool(sliceSubnet: string, ipam: int, subnetCidr: string) returns (r: Option<string>)
    ensures r == PoolText(sliceSubnet, ipam, subnetCidr)
  {
    var cidr := Atoi(Without(subnetCidr, '/'));
    var parts := Split(sliceSubnet, '.');
    var (control, diff) := SubnetOctetDiff(cidr);
    if control < 1 || 4 < control || |parts| < 4 { return None; }
    var octets := EditOctets(parts, control, Itoa(ipam * diff), "/" + Itoa(cidr));
    r := Some(Join(octets, '.'));
  }

  /** The text is missing, because of an index panic, exactly for prefixes outside 9 to 32 and for subnets with fewer than
      four dotted parts. */
  lemma PanicsExactly(sliceSubnet: string, ipam: int, subnetCidr: string)
    ensures PoolText(sliceSubnet, ipam, subnetCidr).None? <==>
            !(9 <= Atoi(Without(subnetCidr, '/')) <= 32) || |Split(sliceSubnet, '.')| < 4
  {
    var cidr := Atoi(Without(subnetCidr, '/'));
    if 0 < cidr <= 24 { Quotients(cidr); }
  }

  lemma {:induction false} NothingToDrop(s: string, c: char)
    requires c !in s
    ensures Without(s, c) == s
  {
    if s != "" {
      NothingToDrop(s[1..], c);
      assert s == [s[0]] + s[1..];
    }
  }

  lemma PrefixTextRoundTrip(p: nat)
    ensures Atoi(Without("/" + Itoa(p), '/')) == p
  {
    DecimalRoundTrip(p);
    var d := Decimal(p);
    var t := "/" + d;
    assert t[0] == '/' && t[1..] == d;
    NothingToDrop(d, '/');
    assert Without(t, '/') == "" + Without(d, '/') == d;
  }

  lemma JoinFour(a: string, b: string, c: string, d: string)
    ensures Join([a, b, c, d], '.') == a + "." + (b + "." + (c + "." + d))
  {
    assert [a, b, c, d][1..] == [b, c, d] && [b, c, d][1..] == [c, d] && [c, d][1..] == [d];
    assert Join([d], '.') == d;
    assert Join([c, d], '.') == c + "." + d;
    assert Join([b, c, d], '.') == b + "." + Join([c, d], '.');
  }

  lemma AppendToLast(a: string, b: string, c: string, d: string, t: string)
    ensures Join([a, b, c, d], '.') + t == Join([a, b, c, d + t], '.')
  {
    JoinFour(a, b, c, d);
    JoinFour(a, b, c, d + t);
  }

  /** The text of a cluster block: third octet ipam * 2^(24-p), fourth 0. */
  lemma PoolSpelled(subnet: string, ipam: nat, p: nat)
    requires |Split(subnet, '.')| == 4 && 17 <= p <= 24
    ensures var parts := Split(subnet, '.');
      PoolText(subnet, ipam, "/" + Itoa(p)) ==
      Some(Join([parts[0], parts[1], Decimal(ipam * Pow2(24 - p)), Decimal(0) + ("/" + Decimal(p))], '.'))
  {
    PrefixTextRoundTrip(p);
    OctetStep(p);
    var parts := Split(subnet, '.');
    var third := Itoa(ipam * Pow2(24 - p));
    assert SubnetOctetDiff(p) == (3, Pow2(24 - p));
    assert Decimal(0) == "0";
    assert PoolParts(parts, 3, third, "/" + Itoa(p)) == [parts[0], parts[1], third, "0" + ("/" + Itoa(p))];
  }

  lemma ThirdOctetBound(ipam: nat, p: nat)
    requires 17 <= p <= 24
    ensures ipam < Blocks(p) <==> ipam * Pow2(24 - p) <= 255
  {
    Pow2Sum(p - 16, 24 - p, 8);
    Pow2Constants();
    var n, d := Pow2(p - 16), Pow2(24 - p);
    assert n * d == 256;
    if ipam < n { Apart(ipam, n, d); } else if n < ipam { Apart(n, ipam, d); }
  }
}
