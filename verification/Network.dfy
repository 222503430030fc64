/** IP addresses and CIDR prefixes as Go's net package and internal/config/match.go
    treat them. An address is its byte string; a prefix is a masked address with
    its mask (section 3.1 of RFC 4632). */
module Network {
  import opened Basics

  type Ip = seq<bv8>

  /** The IPv4 form of a 4-byte address or of an IPv4-mapped 16-byte address. */
  function To4(ip: Ip): (r: Option<Ip>)
  {
    if |ip| == 4 then Some(ip)
    else if |ip| == 16 && (forall i :: 0 <= i < 10 ==> ip[i] == 0) && ip[10] == 0xff && ip[11] == 0xff
    then Some(ip[12..])
    else None
  }

  /** The address and whether it is IPv4; nothing when it is not an address. */
  function Canonicalize(ip: Ip): (r: Option<(Ip, bool)>)
  {
    match To4(ip)
    case Some(v4) => Some((v4, true))
    case None => if |ip| == 16 then Some((ip, false)) else None
  }

  /** net.IP.Equal: an IPv4 address equals its mapped form. */
  predicate IpEqual(a: Ip, b: Ip)
  {
    if |a| == |b| then a == b
    else (|a| == 4 && |b| == 16 && To4(b) == Some(a)) || (|a| == 16 && |b| == 4 && To4(a) == Some(b))
  }

  function Norm(ip: Ip): (r: Ip)
  {
    match To4(ip) case Some(v4) => v4 case None => ip
  }

  lemma IpEqualIsAnEquivalence(a: Ip, b: Ip)
    ensures IpEqual(a, b) <==> Norm(a) == Norm(b)
  {
    if |a| == |b| == 16 && Norm(a) == Norm(b) && To4(a).Some? {
      assert a == a[..10] + [a[10], a[11]] + a[12..];
      assert b == b[..10] + [b[10], b[11]] + b[12..];
    }
  }

  const Leading: seq<bv8> := [0x00, 0x80, 0xc0, 0xe0, 0xf0, 0xf8, 0xfc, 0xfe, 0xff]

  /** Byte i of a mask of `ones` leading ones. */
  function MaskByte(ones: nat, i: nat): (r: bv8)
  {
    if ones <= 8 * i then 0x00 else if ones >= 8 * i + 8 then 0xff else Leading[ones - 8 * i]
  }

  function Mask(ones: nat, size: nat): (m: seq<bv8>)
    ensures |m| == size
    ensures forall i :: 0 <= i < size ==> m[i] == MaskByte(ones, i)
  {
    seq(size, i requires 0 <= i => MaskByte(ones, i))
  }

  function Masked(ip: Ip, m: seq<bv8>): (r: Ip)
    requires |ip| == |m|
    ensures |r| == |ip|
    ensures forall i :: 0 <= i < |r| ==> r[i] == ip[i] & m[i]
  {
    seq(|ip|, i requires 0 <= i < |ip| => ip[i] & m[i])
  }

  /** A parsed prefix: a 4- or 16-byte address and a length that fits it. */
  datatype Prefix = Prefix(address: Ip, ones: nat)

  predicate Parsed(p: Prefix)
  {
    (|p.address| == 4 && p.ones <= 32) || (|p.address| == 16 && p.ones <= 128)
  }

  type ParsedPrefix = p: Prefix | Parsed(p) witness Prefix([0, 0, 0, 0], 0)

  datatype Cidr = Cidr(ip: Ip, mask: seq<bv8>, bits: nat, v4: bool)

  /** The stored form of an address under a mask. A mapped prefix keeps its 16-byte mask. */
  function Stored(address: Ip, m: seq<bv8>, ones: nat): (r: Cidr)
    requires |address| == |m|
  {
    var network := Masked(address, m);
    match To4(network)
    case Some(ip) => Cidr(ip, m, ones, true)
    case None => Cidr(network, m, ones, false)
  }

  /** The stored form of a parsed prefix. */
  function IndexCidr(p: Prefix): (r: Cidr)
    requires Parsed(p)
  {
    Stored(p.address, Mask(p.ones, |p.address|), p.ones)
  }

  function EffectiveMask(c: Cidr): (r: seq<bv8>)
  {
    if |c.mask| == 16 && |c.ip| == 4 then c.mask[12..] else c.mask
  }

  /** net.IPNet.Contains on a canonical address. */
  predicate Contains(c: Cidr, ip: Ip)
  {
    var m := EffectiveMask(c);
    |ip| == |c.ip| == |m| && forall i :: 0 <= i < |ip| ==> c.ip[i] & m[i] == ip[i] & m[i]
  }

  ghost predicate WellFormed(c: Cidr)
  {
    exists p :: Parsed(p) && c == IndexCidr(p)
  }

  lemma AndTwice(x: bv8, m: bv8)
    ensures (x & m) & m == x & m
    ensures x & m == 0xff ==> m == 0xff
  {
  }

  /** A stored IPv4 prefix has a 4-byte mask, or a 16-byte one at least 96 bits long. */
  lemma StoredShape(c: Cidr, p: Prefix)
    requires Parsed(p) && c == IndexCidr(p)
    ensures c.mask == Mask(c.bits, |c.mask|)
    ensures c.v4 ==> |c.ip| == 4 && ((|c.mask| == 4 && c.bits <= 32) || (|c.mask| == 16 && c.bits >= 96))
    ensures !c.v4 ==> |c.ip| == 16 == |c.mask|
  {
    if c.v4 && |p.address| == 16 {
      AndTwice(p.address[11], MaskByte(p.ones, 11));
    }
  }

  /** Byte i of the short form of a masked address is a masked byte. */
  lemma MaskedByte(address: Ip, m: seq<bv8>, i: nat)
    requires |address| == |m| && To4(Masked(address, m)).Some? && i < 4
    ensures var k := if |m| == 16 then i + 12 else i;
            k < |m| && To4(Masked(address, m)).value[i] == address[k] & m[k]
  {
  }

  lemma EffectiveShort(ip: Ip, m: seq<bv8>, ones: nat, v4: bool, i: nat)
    requires |ip| == 4 && (|m| == 4 || |m| == 16) && i < 4
    ensures EffectiveMask(Cidr(ip, m, ones, v4))[i] == m[if |m| == 16 then i + 12 else i]
  {
  }

  /** Where byte i of a stored prefix comes from. */
  lemma StoredByte(address: Ip, m: seq<bv8>, ones: nat, i: nat) returns (k: nat)
    requires |address| == |m| && i < |Stored(address, m, ones).ip| == |EffectiveMask(Stored(address, m, ones))|
    ensures k < |m| && EffectiveMask(Stored(address, m, ones))[i] == m[k]
    ensures Stored(address, m, ones).ip[i] == address[k] & m[k]
  {
    var n := Masked(address, m);
    if To4(n).Some? {
      k := if |m| == 16 then i + 12 else i;
      MaskedByte(address, m, i);
      EffectiveShort(To4(n).value, m, ones, true, i);
    } else {
      k := i;
      assert Stored(address, m, ones) == Cidr(n, m, ones, false);
    }
  }

  lemma StoredIsMasked(address: Ip, m: seq<bv8>, ones: nat, i: nat)
    requires |address| == |m| && i < |Stored(address, m, ones).ip| == |EffectiveMask(Stored(address, m, ones))|
    ensures Stored(address, m, ones).ip[i] & EffectiveMask(Stored(address, m, ones))[i] == Stored(address, m, ones).ip[i]
  {
    var k := StoredByte(address, m, ones, i);
    AndTwice(address[k], m[k]);
  }

  /** Same family, same length and one common address: the same network. */
  lemma CommonAddressSameNetwork(a: Cidr, b: Cidr, ip: Ip)
    requires WellFormed(a) && WellFormed(b)
    requires a.v4 == b.v4 && a.bits == b.bits && Contains(a, ip) && Contains(b, ip)
    ensures a == b
  {
    var p :| Parsed(p) && a == IndexCidr(p);
    var q :| Parsed(q) && b == IndexCidr(q);
    StoredShape(a, p);
    StoredShape(b, q);
    assert a.mask == b.mask;
    forall i | 0 <= i < |a.ip|
      ensures a.ip[i] == b.ip[i]
    {
      CommonByte(a, p, ip, i);
      CommonByte(b, q, ip, i);
    }
  }

  /** A prefix that contains an address has the bytes of the masked address. */
  lemma CommonByte(c: Cidr, p: Prefix, ip: Ip, i: nat)
    requires Parsed(p) && c == IndexCidr(p) && Contains(c, ip) && i < |ip|
    ensures c.ip[i] == ip[i] & EffectiveMask(c)[i]
  {
    StoredIsMasked(p.address, Mask(p.ones, |p.address|), p.ones, i);
  }

  // ---------------------------------------------------------------------------
  // Which prefix is the narrower network
  // ---------------------------------------------------------------------------

  /** The prefix length on the bytes that are compared: a mapped prefix counts 96 more. */
  function EffectiveBits(c: Cidr): (n: int)
  {
    if |c.mask| == 16 && |c.ip| == 4 then c.bits - 96 else c.bits
  }

  /** Every address of `a` is one of `b`. */
  ghost predicate Within(a: Cidr, b: Cidr)
  {
    forall x :: Contains(a, x) ==> Contains(b, x)
  }

  lemma EffectiveByte(c: Cidr, i: nat)
    requires WellFormed(c) && i < |c.ip|
    ensures 0 <= EffectiveBits(c) <= 8 * |c.ip| && |EffectiveMask(c)| == |c.ip|
    ensures EffectiveMask(c)[i] == MaskByte(EffectiveBits(c), i)
  {
    var p :| Parsed(p) && c == IndexCidr(p);
    StoredShape(c, p);
    assert c.bits == p.ones;
    if |c.mask| == 16 && |c.ip| == 4 {
      assert EffectiveMask(c)[i] == c.mask[i + 12] == MaskByte(c.bits, i + 12);
    }
  }

  const Bits: seq<bv8> := [0x80, 0x40, 0x20, 0x10, 0x08, 0x04, 0x02, 0x01]

  lemma LeadingNested(j: nat, k: nat)
    requires j <= k <= 8
    ensures Leading[j] & Leading[k] == Leading[j]
  {
  }

  lemma LeadingBit(j: nat, k: nat)
    requires j < 8 && k <= 8
    ensures Bits[j] != 0
    ensures j < k ==> Bits[j] & Leading[k] == Bits[j]
    ensures j >= k ==> Bits[j] & Leading[k] == 0
  {
  }

  lemma MaskByteNested(m: nat, n: nat, i: nat)
    requires m <= n
    ensures MaskByte(n, i) & MaskByte(m, i) == MaskByte(m, i)
  {
    if 8 * i < m && n < 8 * i + 8 { LeadingNested(m - 8 * i, n - 8 * i); }
  }

  lemma AndNested(x: bv8, y: bv8, fine: bv8, coarse: bv8)
    requires x & fine == y & fine && fine & coarse == coarse
    ensures x & coarse == y & coarse
  {
    assert x & coarse == (x & fine) & coarse;
    assert y & coarse == (y & fine) & coarse;
  }

  lemma FlipUnseen(x: bv8, bit: bv8, m: bv8)
    requires bit & m == 0
    ensures (x ^ bit) & m == x & m
  {
  }

  lemma FlipSeen(x: bv8, bit: bv8, m: bv8)
    requires bit & m == bit != 0
    ensures (x ^ bit) & m != x & m
  {
  }

  /** Contains, byte by byte. */
  lemma ContainsByte(c: Cidr, x: Ip, i: nat)
    requires WellFormed(c) && Contains(c, x) && i < |x|
    ensures |x| == |c.ip| && c.ip[i] & MaskByte(EffectiveBits(c), i) == x[i] & MaskByte(EffectiveBits(c), i)
  {
    EffectiveByte(c, i);
  }

  lemma ContainsAll(c: Cidr, x: Ip)
    requires WellFormed(c) && |x| == |c.ip|
    requires forall i :: 0 <= i < |x| ==> c.ip[i] & MaskByte(EffectiveBits(c), i) == x[i] & MaskByte(EffectiveBits(c), i)
    ensures Contains(c, x)
  {
    NotEmpty(c);
    EffectiveByte(c, 0);
    forall i | 0 <= i < |x| ensures c.ip[i] & EffectiveMask(c)[i] == x[i] & EffectiveMask(c)[i] { EffectiveByte(c, i); }
  }

  lemma NotEmpty(c: Cidr)
    requires WellFormed(c)
    ensures |c.ip| > 0
  {
    var p :| Parsed(p) && c == IndexCidr(p);
    StoredShape(c, p);
  }

  /** Of two prefixes that share an address, the one with more effective bits lies within the other. */
  lemma MoreBitsLieWithin(a: Cidr, b: Cidr, ip: Ip, x: Ip)
    requires WellFormed(a) && WellFormed(b) && Contains(a, ip) && Contains(b, ip)
    requires EffectiveBits(a) >= EffectiveBits(b) && Contains(a, x)
    ensures Contains(b, x)
  {
    NotEmpty(b);
    EffectiveByte(b, 0);
    forall i | 0 <= i < |x|
      ensures b.ip[i] & MaskByte(EffectiveBits(b), i) == x[i] & MaskByte(EffectiveBits(b), i)
    {
      ContainsByte(a, ip, i);
      ContainsByte(a, x, i);
      ContainsByte(b, ip, i);
      MaskByteNested(EffectiveBits(b), EffectiveBits(a), i);
      AndNested(x[i], ip[i], MaskByte(EffectiveBits(a), i), MaskByte(EffectiveBits(b), i));
    }
    ContainsAll(b, x);
  }

  /** And the one with fewer effective bits does not: flip the first bit it leaves free. */
  lemma FewerBitsReachOut(a: Cidr, b: Cidr, ip: Ip) returns (x: Ip)
    requires WellFormed(a) && WellFormed(b) && Contains(a, ip) && Contains(b, ip)
    requires EffectiveBits(a) < EffectiveBits(b)
    ensures Contains(a, x) && !Contains(b, x)
  {
    NotEmpty(a);
    EffectiveByte(a, 0);
    EffectiveByte(b, 0);
    var n, m := EffectiveBits(a), EffectiveBits(b);
    var k, j := n / 8, n % 8;
    x := ip[k := ip[k] ^ Bits[j]];
    FreeBit(n, m, k, j);
    FlipUnseen(ip[k], Bits[j], MaskByte(n, k));
    FlipSeen(ip[k], Bits[j], MaskByte(m, k));
    forall i | 0 <= i < |x| ensures a.ip[i] & MaskByte(n, i) == x[i] & MaskByte(n, i) { ContainsByte(a, ip, i); }
    ContainsAll(a, x);
    ContainsByte(b, ip, k);
    EffectiveByte(b, k);
  }

  /** Bit n is free under a mask of n ones and fixed under a longer one. */
  lemma FreeBit(n: nat, m: nat, k: nat, j: nat)
    requires n < m && n == 8 * k + j && j < 8
    ensures Bits[j] & MaskByte(n, k) == 0 && Bits[j] & MaskByte(m, k) == Bits[j] != 0
  {
    LeadingBit(j, j);
    LeadingBit(j, if m - 8 * k < 8 then m - 8 * k else 8);
  }

  /** Of two prefixes that share an address, the one within the other is the one with at least
      as many effective bits. With masks of equal length that is the order of the stored lengths. */
  lemma WithinIff(a: Cidr, b: Cidr, ip: Ip)
    requires WellFormed(a) && WellFormed(b) && Contains(a, ip) && Contains(b, ip)
    ensures Within(a, b) <==> EffectiveBits(a) >= EffectiveBits(b)
    ensures |a.mask| == |b.mask| ==> (Within(a, b) <==> a.bits >= b.bits)
  {
    if EffectiveBits(a) >= EffectiveBits(b) {
      forall x | Contains(a, x) ensures Contains(b, x) { MoreBitsLieWithin(a, b, ip, x); }
    } else {
      var x := FewerBitsReachOut(a, b, ip);
    }
  }
}
