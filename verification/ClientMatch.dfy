/** Client selection: the TACACS index of internal/config/match.go and the RADIUS
    UDP and TLS indexes of match_radius.go and match_radius_tls.go.

    `fold` is the case folding behind strings.EqualFold; it is left open. */
module ClientMatch {
  import opened Basics
  import opened Network
  import opened Ranking

  datatype Transport = Legacy | Tls
  datatype Role = Access | Accounting | DynamicAuthorization
  datatype Carrier = Udp | RadSec
  datatype Mode = AddressAndCertificate | CertificateOnly

  /** A RADIUS endpoint of a client. */
  datatype Endpoint = Endpoint(id: string, carrier: Carrier, roles: seq<Role>)

  /** Source prefixes and IP SANs that do not parse are `None`. */
  datatype Client = Client(
    id: string, enabled: bool, priority: int, transports: seq<Transport>, mode: Mode,
    cidrs: seq<Option<ParsedPrefix>>, dns: seq<string>, ips: seq<Option<Ip>>, radius: seq<Endpoint>)

  datatype Entry = Entry(
    id: string, endpoint: string, priority: int, mode: Mode, transports: seq<Transport>,
    cidrs: seq<Cidr>, dns: seq<string>, ips: seq<Ip>)

  datatype Cert = Cert(dns: seq<string>, ips: seq<Ip>)

  /** Which index is asked, and over which transport. */
  datatype Kind = Tacacs(transport: Transport) | RadiusUdp(role: Role) | RadiusTls(role: Role)

  datatype Peer = Peer(ip: Ip, cert: Option<Cert>)

  datatype MatchError = NotFound | InvalidPeer | InvalidRole | InvalidClient | Ambiguous(a: string, b: string)

  type Index = map<string, Entry>

  // ---------------------------------------------------------------------------
  // Certificates
  // ---------------------------------------------------------------------------

  predicate Unconstrained(e: Entry) { e.dns == [] && e.ips == [] }

  predicate EqualFold(fold: string -> string, a: string, b: string) { fold(a) == fold(b) }

  /** One subject alternative name of a certificate. */
  datatype San = Dns(name: string) | Addr(ip: Ip)

  function Sans(c: Cert): (r: seq<San>)
    ensures |r| == |c.dns| + |c.ips|
    ensures forall i :: 0 <= i < |c.dns| ==> r[i] == Dns(c.dns[i])
    ensures forall i :: 0 <= i < |c.ips| ==> r[|c.dns| + i] == Addr(c.ips[i])
  {
    seq(|c.dns|, i requires 0 <= i < |c.dns| => Dns(c.dns[i]))
    + seq(|c.ips|, i requires 0 <= i < |c.ips| => Addr(c.ips[i]))
  }

  /** The name alone satisfies the entry's certificate constraint. */
  predicate Names(fold: string -> string, e: Entry, s: San)
  {
    match s
    case Dns(n) => exists i :: 0 <= i < |e.dns| && EqualFold(fold, e.dns[i], n)
    case Addr(ip) => exists i :: 0 <= i < |e.ips| && IpEqual(e.ips[i], ip)
  }

  predicate NamedBy(fold: string -> string, e: Entry, c: Cert)
  {
    exists k :: 0 <= k < |Sans(c)| && Names(fold, e, Sans(c)[k])
  }

  predicate CertSatisfied(fold: string -> string, e: Entry, cert: Option<Cert>)
  {
    Unconstrained(e) || (cert.Some? && NamedBy(fold, e, cert.value))
  }

  predicate CertsMayOverlap(fold: string -> string, a: Entry, b: Entry)
  {
    || Unconstrained(a) || Unconstrained(b)
    || (exists i, j :: 0 <= i < |a.dns| && 0 <= j < |b.dns| && EqualFold(fold, a.dns[i], b.dns[j]))
    || (exists i, j :: 0 <= i < |a.ips| && 0 <= j < |b.ips| && IpEqual(a.ips[i], b.ips[j]))
  }

  /** Two clients one name can satisfy are caught by the overlap test. */
  lemma OneNameForTwoOverlaps(fold: string -> string, a: Entry, b: Entry, s: San)
    requires Names(fold, a, s) && Names(fold, b, s)
    ensures CertsMayOverlap(fold, a, b)
  {
    match s
    case Dns(n) =>
      var i :| 0 <= i < |a.dns| && EqualFold(fold, a.dns[i], n);
      var j :| 0 <= j < |b.dns| && EqualFold(fold, b.dns[j], n);
      assert EqualFold(fold, a.dns[i], b.dns[j]);
    case Addr(ip) =>
      var i :| 0 <= i < |a.ips| && IpEqual(a.ips[i], ip);
      var j :| 0 <= j < |b.ips| && IpEqual(b.ips[j], ip);
      IpEqualIsAnEquivalence(a.ips[i], ip);
      IpEqualIsAnEquivalence(b.ips[j], ip);
      IpEqualIsAnEquivalence(a.ips[i], b.ips[j]);
  }

  // ---------------------------------------------------------------------------
  // Longest prefix
  // ---------------------------------------------------------------------------

  predicate Covers(c: Cidr, ip: Ip, v4: bool) { c.v4 == v4 && Contains(c, ip) }

  /** The prefix length when the prefix covers the address, else -1. */
  function CoverBits(c: Cidr, ip: Ip, v4: bool): (r: int)
  {
    if Covers(c, ip, v4) then c.bits else -1
  }

  /** The longest covering prefix length; -1 when no prefix covers the address. */
  function Longest(cidrs: seq<Cidr>, ip: Ip, v4: bool): (r: int)
    ensures r >= -1
    ensures forall i :: 0 <= i < |cidrs| ==> CoverBits(cidrs[i], ip, v4) <= r
    ensures r >= 0 ==> exists i :: 0 <= i < |cidrs| && CoverBits(cidrs[i], ip, v4) == r
  {
    if cidrs == [] then -1
    else
      var rest := Longest(cidrs[1..], ip, v4);
      var first := CoverBits(cidrs[0], ip, v4);
      assert forall i :: 1 <= i < |cidrs| ==> cidrs[i] == cidrs[1..][i - 1];
      if first > rest then first else rest
  }

  method LongestContaining(cidrs: seq<Cidr>, ip: Ip, v4: bool) returns (best: int, ok: bool)
    ensures best == Longest(cidrs, ip, v4)
    ensures ok <==> best >= 0
  {
    best, ok := -1, false;
    for i := 0 to |cidrs|
      invariant best >= -1 && (ok <==> best >= 0)
      invariant forall k :: 0 <= k < i ==> CoverBits(cidrs[k], ip, v4) <= best
      invariant ok ==> exists k :: 0 <= k < i && CoverBits(cidrs[k], ip, v4) == best
    {
      var c := cidrs[i];
      if c.v4 != v4 || !Contains(c, ip) {
        assert CoverBits(c, ip, v4) == -1;
      } else {
        assert CoverBits(c, ip, v4) == c.bits;
        if !ok || c.bits > best {
          best, ok := c.bits, true;
        }
      }
    }
  }

  // ---------------------------------------------------------------------------
  // Whether the longest prefix is the narrowest network
  // ---------------------------------------------------------------------------

  /** Place i holds a prefix that is chosen for the address. */
  predicate IsLongest(cidrs: seq<Cidr>, ip: Ip, v4: bool, i: nat)
  {
    i < |cidrs| && CoverBits(cidrs[i], ip, v4) == Longest(cidrs, ip, v4) >= 0
  }

  /** The chosen prefix is the narrowest network that covers the address exactly when no covering
      prefix has more effective bits. Masks of one length ensure that; a prefix written in the
      mapped form stores 96 bits more than it means. */
  lemma LongestIsNarrowestIff(cidrs: seq<Cidr>, ip: Ip, v4: bool, i: nat)
    requires forall j :: 0 <= j < |cidrs| ==> WellFormed(cidrs[j])
    requires IsLongest(cidrs, ip, v4, i)
    ensures (forall j :: 0 <= j < |cidrs| && Covers(cidrs[j], ip, v4) ==> Within(cidrs[i], cidrs[j]))
       <==> (forall j :: 0 <= j < |cidrs| && Covers(cidrs[j], ip, v4) ==> EffectiveBits(cidrs[j]) <= EffectiveBits(cidrs[i]))
    ensures (forall j :: 0 <= j < |cidrs| && Covers(cidrs[j], ip, v4) ==> |cidrs[j].mask| == |cidrs[i].mask|)
        ==> forall j :: 0 <= j < |cidrs| && Covers(cidrs[j], ip, v4) ==> Within(cidrs[i], cidrs[j])
  {
    forall j | 0 <= j < |cidrs| && Covers(cidrs[j], ip, v4)
      ensures Within(cidrs[i], cidrs[j]) <==> EffectiveBits(cidrs[j]) <= EffectiveBits(cidrs[i])
      ensures |cidrs[j].mask| == |cidrs[i].mask| ==> Within(cidrs[i], cidrs[j])
    {
      assert CoverBits(cidrs[j], ip, v4) <= Longest(cidrs, ip, v4);
      WithinIff(cidrs[i], cidrs[j], ip);
    }
  }

  const MappedTen := Prefix([0, 0, 0, 0, 0, 0, 0, 0, 0, 0, 0xff, 0xff, 10, 0, 0, 0], 104)

  const TenOne := Prefix([10, 1, 0, 0], 16)

  /** ::ffff:10.0.0.0/104 is 10.0.0.0/8, covers 10.1.2.3 with 104 bits, and contains 10.1.0.0/16. */
  lemma MappedCovers(ip: Ip)
    requires ip == [10, 1, 2, 3]
    ensures var a, b := IndexCidr(MappedTen), IndexCidr(TenOne);
            && CoverBits(a, ip, true) == 104 && CoverBits(b, ip, true) == 16
            && Within(b, a) && !Within(a, b)
  {
    var a, b := IndexCidr(MappedTen), IndexCidr(TenOne);
    MappedIsStored(MappedTen);
    assert Masked(TenOne.address, Mask(16, 4)) == [10, 1, 0, 0];
    assert Contains(a, ip) && Contains(b, ip);
    WithinIff(a, b, ip);
    WithinIff(b, a, ip);
  }

  /** So it is chosen before 10.1.0.0/16 for 10.1.2.3. */
  lemma MappedPrefixWins(ip: Ip)
    requires ip == [10, 1, 2, 3]
    ensures var cidrs := [IndexCidr(MappedTen), IndexCidr(TenOne)];
            IsLongest(cidrs, ip, true, 0) && Covers(cidrs[1], ip, true) && !Within(cidrs[0], cidrs[1])
  {
    var a, b := IndexCidr(MappedTen), IndexCidr(TenOne);
    MappedCovers(ip);
    assert [a, b][1..] == [b] && [b][1..] == [];
    assert Longest([b], ip, true) == 16;
  }

  lemma MappedIsStored(p: Prefix)
    requires p == Prefix([0, 0, 0, 0, 0, 0, 0, 0, 0, 0, 0xff, 0xff, 10, 0, 0, 0], 104)
    ensures IndexCidr(p) == Cidr([10, 0, 0, 0], Mask(104, 16), 104, true)
    ensures EffectiveMask(IndexCidr(p)) == [0xff, 0, 0, 0]
  {
    assert Masked(p.address, Mask(104, 16)) == p.address;
    assert p.address[12..] == [10, 0, 0, 0];
    assert Mask(104, 16)[12..] == [0xff, 0, 0, 0];
  }

  // ---------------------------------------------------------------------------
  // What a match is
  // ---------------------------------------------------------------------------

  /** The entry's claim on the peer: none, -1 for a certificate alone, or a prefix length. */
  function Claim(fold: string -> string, kind: Kind, e: Entry, p: Peer): (r: Option<int>)
  {
    var byAddress := AddressClaim(e, p);
    match kind
    case Tacacs(t) =>
      if t !in e.transports || (t == Tls && !CertSatisfied(fold, e, p.cert)) then None
      else if e.mode == CertificateOnly then Some(-1)
      else byAddress
    case RadiusUdp(_) => byAddress
    case RadiusTls(_) =>
      if p.cert.None? || !CertSatisfied(fold, e, p.cert) then None
      else if e.mode == CertificateOnly then Some(-1)
      else byAddress
  }

  function AddressClaim(e: Entry, p: Peer): (r: Option<int>)
    ensures r.Some? ==> r.value >= 0
  {
    match Canonicalize(p.ip)
    case None => None
    case Some(c) =>
      var bits := Longest(e.cidrs, c.0, c.1);
      if bits < 0 then None else Some(bits)
  }

  /** The entry claims the peer, and no address claim is longer than its own. */
  predicate Finalist(fold: string -> string, kind: Kind, idx: Index, p: Peer, id: string)
  {
    id in idx &&
    var c := Claim(fold, kind, idx[id], p);
    c.Some? && (c.value < 0 ||
                forall other :: other in idx ==>
                                  Claim(fold, kind, idx[other], p).None? || Claim(fold, kind, idx[other], p).value <= c.value)
  }

  /** A finalist that no other finalist beats on priority. */
  predicate Winner(fold: string -> string, kind: Kind, idx: Index, p: Peer, id: string)
  {
    Finalist(fold, kind, idx, p, id) &&
    forall other :: other in idx && Finalist(fold, kind, idx, p, other) ==> idx[id].priority <= idx[other].priority
  }

  predicate ShareIdenticalCidr(a: Entry, b: Entry)
  {
    exists i, j :: 0 <= i < |a.cidrs| && 0 <= j < |b.cidrs| && SameCidr(a.cidrs[i], b.cidrs[j])
  }

  predicate SameCidr(x: Cidr, y: Cidr)
  {
    x.v4 == y.v4 && x.bits == y.bits && IpEqual(x.ip, y.ip) && x.mask == y.mask
  }

  /** The compile-time pair test of each index. */
  predicate PairAmbiguous(fold: string -> string, kind: Kind, a: Entry, b: Entry)
  {
    a.priority == b.priority &&
    match kind
    case Tacacs(_) =>
      exists t :: t in a.transports && t in b.transports && (t == Tls ==> CertsMayOverlap(fold, a, b)) && Overlapping(a, b)
    case RadiusUdp(_) => ShareIdenticalCidr(a, b)
    case RadiusTls(_) => CertsMayOverlap(fold, a, b) && Overlapping(a, b)
  }

  predicate Overlapping(a: Entry, b: Entry)
  {
    a.mode == CertificateOnly || b.mode == CertificateOnly || ShareIdenticalCidr(a, b)
  }

  ghost predicate StoredPrefixes(idx: Index)
  {
    forall id :: id in idx ==> forall i :: 0 <= i < |idx[id].cidrs| ==> WellFormed(idx[id].cidrs[i])
  }

  /** What a compiled index guarantees. */
  ghost predicate Compiled(fold: string -> string, kind: Kind, idx: Index)
  {
    && StoredPrefixes(idx)
    && forall a, b :: a in idx && b in idx && a != b ==> !PairAmbiguous(fold, kind, idx[a], idx[b])
  }

  // ---------------------------------------------------------------------------
  // Uniqueness
  // ---------------------------------------------------------------------------

  /** Two prefixes of one length that cover one address are identical. */
  lemma CommonCover(x: Cidr, y: Cidr, ip: Ip, v4: bool)
    requires WellFormed(x) && WellFormed(y)
    requires CoverBits(x, ip, v4) == CoverBits(y, ip, v4) >= 0
    ensures SameCidr(x, y)
  {
    CommonAddressSameNetwork(x, y, ip);
  }

  /** Equal address claims on the same peer come from one identical prefix. */
  lemma EqualClaimsShareAPrefix(a: Entry, b: Entry, p: Peer)
    requires forall i :: 0 <= i < |a.cidrs| ==> WellFormed(a.cidrs[i])
    requires forall i :: 0 <= i < |b.cidrs| ==> WellFormed(b.cidrs[i])
    requires AddressClaim(a, p).Some? && AddressClaim(a, p) == AddressClaim(b, p)
    ensures ShareIdenticalCidr(a, b)
  {
    var (ip, v4) := Canonicalize(p.ip).value;
    LongestShareAPrefix(a, b, ip, v4);
  }

  lemma LongestShareAPrefix(a: Entry, b: Entry, ip: Ip, v4: bool)
    requires forall i :: 0 <= i < |a.cidrs| ==> WellFormed(a.cidrs[i])
    requires forall i :: 0 <= i < |b.cidrs| ==> WellFormed(b.cidrs[i])
    requires Longest(a.cidrs, ip, v4) == Longest(b.cidrs, ip, v4) >= 0
    ensures ShareIdenticalCidr(a, b)
  {
    var bits := Longest(a.cidrs, ip, v4);
    var i :| 0 <= i < |a.cidrs| && CoverBits(a.cidrs[i], ip, v4) == bits;
    var j :| 0 <= j < |b.cidrs| && CoverBits(b.cidrs[j], ip, v4) == bits;
    CommonCover(a.cidrs[i], b.cidrs[j], ip, v4);
  }

  /** Two winners have equal priority, and equal claims unless one of them rests on its certificate. */
  lemma TwoWinnersTie(fold: string -> string, kind: Kind, idx: Index, p: Peer, a: string, b: string)
    requires Winner(fold, kind, idx, p, a) && Winner(fold, kind, idx, p, b)
    ensures idx[a].priority == idx[b].priority
    ensures var x, y := Claim(fold, kind, idx[a], p), Claim(fold, kind, idx[b], p);
            x.Some? && y.Some? && (x.value >= 0 && y.value >= 0 ==> x == y)
  {
  }

  /** A claim by address is the longest covering prefix; only a certificate-only entry claims without one. */
  lemma ClaimByAddress(fold: string -> string, kind: Kind, e: Entry, p: Peer)
    requires Claim(fold, kind, e, p).Some?
    ensures Claim(fold, kind, e, p).value < 0 ==> e.mode == CertificateOnly && !kind.RadiusUdp?
    ensures Claim(fold, kind, e, p).value >= 0 ==> Claim(fold, kind, e, p) == AddressClaim(e, p)
  {
  }

  /** Two winners have equal priority and overlap in address or skip it. */
  lemma TwoWinnersOverlap(fold: string -> string, kind: Kind, idx: Index, p: Peer, a: string, b: string)
    requires StoredPrefixes(idx)
    requires Winner(fold, kind, idx, p, a) && Winner(fold, kind, idx, p, b)
    ensures idx[a].priority == idx[b].priority
    ensures kind.RadiusUdp? ==> ShareIdenticalCidr(idx[a], idx[b])
    ensures Overlapping(idx[a], idx[b])
  {
    TwoWinnersTie(fold, kind, idx, p, a, b);
    ClaimByAddress(fold, kind, idx[a], p);
    ClaimByAddress(fold, kind, idx[b], p);
    if Claim(fold, kind, idx[a], p).value >= 0 && Claim(fold, kind, idx[b], p).value >= 0 {
      EqualClaimsShareAPrefix(idx[a], idx[b], p);
    }
  }

  /** A compiled TACACS index is never ambiguous on the legacy transport, and a
      compiled RADIUS UDP index never is: the winner is unique for every peer. */
  lemma CompiledIsUnambiguous(fold: string -> string, kind: Kind, idx: Index, p: Peer, a: string, b: string)
    requires kind == Tacacs(Legacy) || kind.RadiusUdp?
    requires Compiled(fold, kind, idx)
    requires Winner(fold, kind, idx, p, a) && Winner(fold, kind, idx, p, b)
    ensures a == b
  {
    if a != b {
      TwoWinnersOverlap(fold, kind, idx, p, a, b);
      assert PairAmbiguous(fold, kind, idx[a], idx[b]);
    }
  }

  /** On TLS two winners of a compiled index are both constrained, and the
      certificate carries a name for each that does not satisfy the other. */
  lemma TlsTieNeedsTwoNames(fold: string -> string, kind: Kind, idx: Index, p: Peer, a: string, b: string)
    returns (i: nat, j: nat)
    requires kind == Tacacs(Tls) || kind.RadiusTls?
    requires Compiled(fold, kind, idx) && a != b
    requires Winner(fold, kind, idx, p, a) && Winner(fold, kind, idx, p, b)
    ensures idx[a].priority == idx[b].priority
    ensures !Unconstrained(idx[a]) && !Unconstrained(idx[b]) && p.cert.Some?
    ensures i != j && i < |Sans(p.cert.value)| && j < |Sans(p.cert.value)|
    ensures var s, t := Sans(p.cert.value)[i], Sans(p.cert.value)[j];
            && Names(fold, idx[a], s) && !Names(fold, idx[b], s)
            && Names(fold, idx[b], t) && !Names(fold, idx[a], t)
  {
    TwoWinnersOverlap(fold, kind, idx, p, a, b);
    assert !PairAmbiguous(fold, kind, idx[a], idx[b]);
    assert !CertsMayOverlap(fold, idx[a], idx[b]);
    i :| 0 <= i < |Sans(p.cert.value)| && Names(fold, idx[a], Sans(p.cert.value)[i]);
    j :| 0 <= j < |Sans(p.cert.value)| && Names(fold, idx[b], Sans(p.cert.value)[j]);
    if Names(fold, idx[b], Sans(p.cert.value)[i]) {
      OneNameForTwoOverlaps(fold, idx[a], idx[b], Sans(p.cert.value)[i]);
    }
    if Names(fold, idx[a], Sans(p.cert.value)[j]) {
      OneNameForTwoOverlaps(fold, idx[a], idx[b], Sans(p.cert.value)[j]);
    }
  }

  /** With no certificate, or one that carries at most one name, TLS is unambiguous too. */
  lemma OneNameIsUnambiguous(fold: string -> string, kind: Kind, idx: Index, p: Peer, a: string, b: string)
    requires kind == Tacacs(Tls) || kind.RadiusTls?
    requires Compiled(fold, kind, idx)
    requires p.cert.None? || |p.cert.value.dns| + |p.cert.value.ips| <= 1
    requires Winner(fold, kind, idx, p, a) && Winner(fold, kind, idx, p, b)
    ensures a == b
  {
    if a != b {
      var i, j := TlsTieNeedsTwoNames(fold, kind, idx, p, a, b);
    }
  }

  lemma OverlapIsSymmetric(fold: string -> string, a: Entry, b: Entry)
    ensures CertsMayOverlap(fold, a, b) == CertsMayOverlap(fold, b, a)
  {
    forall x, y
      ensures IpEqual(x, y) == IpEqual(y, x)
    {
      IpEqualIsAnEquivalence(x, y);
      IpEqualIsAnEquivalence(y, x);
    }
    forall x, y
      ensures EqualFold(fold, x, y) == EqualFold(fold, y, x)
    {
    }
  }

  // ---------------------------------------------------------------------------
  // Whether the chosen client has the narrowest network
  // ---------------------------------------------------------------------------

  /** Prefix j of client z covers the peer, which z claims by address. */
  ghost predicate CoversPeer(fold: string -> string, kind: Kind, idx: Index, p: Peer, z: string, j: nat)
  {
    && z in idx && Claim(fold, kind, idx[z], p).Some? && Claim(fold, kind, idx[z], p).value >= 0
    && j < |idx[z].cidrs| && var c := Canonicalize(p.ip); c.Some? && Covers(idx[z].cidrs[j], c.value.0, c.value.1)
  }

  /** Client x is a finalist for its prefix i. */
  ghost predicate ChosenBy(fold: string -> string, kind: Kind, idx: Index, p: Peer, x: string, i: nat)
  {
    && Finalist(fold, kind, idx, p, x) && CoversPeer(fold, kind, idx, p, x, i)
    && Claim(fold, kind, idx[x], p) == Some(idx[x].cidrs[i].bits)
  }

  lemma CoverContains(fold: string -> string, kind: Kind, idx: Index, p: Peer, z: string, j: nat)
    requires CoversPeer(fold, kind, idx, p, z, j)
    ensures Contains(idx[z].cidrs[j], Canonicalize(p.ip).value.0)
    ensures idx[z].cidrs[j].bits <= Claim(fold, kind, idx[z], p).value
  {
    ClaimByAddress(fold, kind, idx[z], p);
    var c := Canonicalize(p.ip).value;
    assert CoverBits(idx[z].cidrs[j], c.0, c.1) <= Longest(idx[z].cidrs, c.0, c.1);
  }

  /** Over all clients: the network a finalist is chosen for is the narrowest of those that cover the
      peer exactly when none of them has more effective bits, which masks of one length ensure. */
  lemma ChosenIsNarrowestIff(fold: string -> string, kind: Kind, idx: Index, p: Peer, x: string, i: nat)
    requires StoredPrefixes(idx) && ChosenBy(fold, kind, idx, p, x, i)
    ensures (forall z, j: nat :: CoversPeer(fold, kind, idx, p, z, j) ==> Within(idx[x].cidrs[i], idx[z].cidrs[j]))
       <==> (forall z, j: nat :: CoversPeer(fold, kind, idx, p, z, j) ==>
                                   EffectiveBits(idx[z].cidrs[j]) <= EffectiveBits(idx[x].cidrs[i]))
    ensures (forall z, j: nat :: CoversPeer(fold, kind, idx, p, z, j) ==> |idx[z].cidrs[j].mask| == |idx[x].cidrs[i].mask|) ==>
              forall z, j: nat :: CoversPeer(fold, kind, idx, p, z, j) ==> Within(idx[x].cidrs[i], idx[z].cidrs[j])
  {
    forall z, j: nat | CoversPeer(fold, kind, idx, p, z, j)
      ensures Within(idx[x].cidrs[i], idx[z].cidrs[j]) <==> EffectiveBits(idx[z].cidrs[j]) <= EffectiveBits(idx[x].cidrs[i])
      ensures |idx[z].cidrs[j].mask| == |idx[x].cidrs[i].mask| ==> Within(idx[x].cidrs[i], idx[z].cidrs[j])
    {
      CoverContains(fold, kind, idx, p, x, i);
      CoverContains(fold, kind, idx, p, z, j);
      WithinIff(idx[x].cidrs[i], idx[z].cidrs[j], Canonicalize(p.ip).value.0);
    }
  }

  // ---------------------------------------------------------------------------
  // Compilation
  // ---------------------------------------------------------------------------

  predicate AllParsed<T>(s: seq<Option<T>>) { forall i :: 0 <= i < |s| ==> s[i].Some? }

  function Values<T>(s: seq<Option<T>>): (r: seq<T>)
    requires AllParsed(s)
    ensures |r| == |s|
    ensures forall i :: 0 <= i < |r| ==> r[i] == s[i].value
  {
    seq(|s|, i requires 0 <= i < |s| => s[i].value)
  }

  function Stored(s: seq<Option<ParsedPrefix>>): (r: seq<Cidr>)
    requires AllParsed(s)
    ensures |r| == |s|
    ensures forall i :: 0 <= i < |r| ==> r[i] == IndexCidr(s[i].value) && WellFormed(r[i])
  {
    seq(|s|, i requires 0 <= i < |s| => IndexCidr(s[i].value))
  }

  /** The client's first RADIUS endpoint on the carrier. */
  function FirstEndpoint(eps: seq<Endpoint>, carrier: Carrier): (r: Option<Endpoint>)
  {
    if eps == [] then None
    else if eps[0].carrier == carrier then Some(eps[0])
    else FirstEndpoint(eps[1..], carrier)
  }

  datatype Placement = Skip | Invalid | Put(entry: Entry)

  /** Whether and how a client enters the index. */
  function Place(kind: Kind, c: Client): (r: Placement)
  {
    if !c.enabled then Skip
    else
      match kind
      case Tacacs(_) =>
        if c.transports == [] then Skip
        else if !AllParsed(c.ips) || !AllParsed(c.cidrs) then Invalid
        else Put(Entry(c.id, "", c.priority, c.mode, c.transports, Stored(c.cidrs), c.dns, Values(c.ips)))
      case RadiusUdp(role) =>
        var ep := FirstEndpoint(c.radius, Udp);
        if ep.None? || role !in ep.value.roles then Skip
        else if c.cidrs == [] || !AllParsed(c.cidrs) then Invalid
        else Put(Entry(c.id, ep.value.id, c.priority, AddressAndCertificate, [], Stored(c.cidrs), [], []))
      case RadiusTls(role) =>
        var ep := FirstEndpoint(c.radius, RadSec);
        if ep.None? || role !in ep.value.roles then Skip
        else if c.mode == AddressAndCertificate && c.cidrs == [] then Invalid
        else if !AllParsed(c.ips) || !AllParsed(c.cidrs) then Invalid
        else Put(Entry(c.id, ep.value.id, c.priority, c.mode, [], Stored(c.cidrs), c.dns, Values(c.ips)))
  }

  /** The index as a map: each client under its own ID. */
  function Built(kind: Kind, clients: seq<Client>): (r: Index)
    ensures forall id :: id in r ==> r[id].id == id
  {
    if clients == [] then map[]
    else
      var rest, c := Built(kind, clients[..|clients| - 1]), clients[|clients| - 1];
      match Place(kind, c)
      case Put(e) => rest[c.id := e]
      case _ => rest
  }

  predicate Keyed(idx: Index) { forall id :: id in idx ==> idx[id].id == id }

  method CompileEntries(kind: Kind, clients: seq<Client>) returns (r: Result<Index, MatchError>)
    ensures r.Err? <==> exists i :: 0 <= i < |clients| && Place(kind, clients[i]) == Invalid
    ensures r.Err? ==> r.error == InvalidClient
    ensures r.Ok? ==> r.value == Built(kind, clients) && StoredPrefixes(r.value) && Keyed(r.value)
  {
    var idx: Index := map[];
    for i := 0 to |clients|
      invariant forall k :: 0 <= k < i ==> Place(kind, clients[k]) != Invalid
      invariant idx == Built(kind, clients[..i]) && StoredPrefixes(idx)
    {
      assert clients[..i + 1][..i] == clients[..i];
      match Place(kind, clients[i])
      case Skip =>
      case Invalid => return Err(InvalidClient);
      case Put(e) =>
        PlacedPrefixes(kind, clients[i]);
        idx := idx[clients[i].id := e];
    }
    assert clients[..|clients|] == clients;
    return Ok(idx);
  }

  lemma PlacedPrefixes(kind: Kind, c: Client)
    requires Place(kind, c).Put?
    ensures forall i :: 0 <= i < |Place(kind, c).entry.cidrs| ==> WellFormed(Place(kind, c).entry.cidrs[i])
  {
  }

  lemma PairSymmetric(fold: string -> string, kind: Kind, a: Entry, b: Entry)
    ensures PairAmbiguous(fold, kind, a, b) == PairAmbiguous(fold, kind, b, a)
  {
    OverlapIsSymmetric(fold, a, b);
    SharingIsSymmetric(a, b);
    SharingIsSymmetric(b, a);
  }

  lemma SharingIsSymmetric(a: Entry, b: Entry)
    ensures ShareIdenticalCidr(a, b) ==> ShareIdenticalCidr(b, a)
  {
    if ShareIdenticalCidr(a, b) {
      var i, j :| 0 <= i < |a.cidrs| && 0 <= j < |b.cidrs| && SameCidr(a.cidrs[i], b.cidrs[j]);
      IpEqualIsAnEquivalence(a.cidrs[i].ip, b.cidrs[j].ip);
      IpEqualIsAnEquivalence(b.cidrs[j].ip, a.cidrs[i].ip);
      assert SameCidr(b.cidrs[j], a.cidrs[i]);
    }
  }

  /** The keys of a map, collected in any order. */
  method KeySeq(idx: Index) returns (ids: seq<string>)
    ensures Distinct(ids) && forall id :: id in ids <==> id in idx
  {
    ids := [];
    var rest := idx.Keys;
    while rest != {}
      invariant rest <= idx.Keys && Distinct(ids)
      invariant forall id :: id in ids <==> id in idx.Keys - rest
    {
      var id :| id in rest;
      assert forall k :: 0 <= k < |ids| ==> ids[k] in ids;
      ids := ids + [id];
      rest := rest - {id};
    }
  }

  ghost predicate Collide(fold: string -> string, kind: Kind, idx: Index, a: string, b: string)
  {
    a in idx && b in idx && Less(a, b) && PairAmbiguous(fold, kind, idx[a], idx[b])
  }

  /** The colliding pair that comes first in the order of IDs. */
  ghost predicate FirstCollision(fold: string -> string, kind: Kind, idx: Index, a: string, b: string)
  {
    && Collide(fold, kind, idx, a, b)
    && forall c, d :: Collide(fold, kind, idx, c, d) ==> Less(a, c) || (a == c && (b == d || Less(b, d)))
  }

  /** No pair of ascending IDs before place (i, j) collides. */
  ghost predicate ClearBefore(fold: string -> string, kind: Kind, idx: Index, ids: seq<string>, i: nat, j: nat)
    requires forall id :: id in ids ==> id in idx
  {
    forall k, l :: 0 <= k < l < |ids| && (k < i || (k == i && l < j)) ==> ClearAt(fold, kind, idx, ids[k], ids[l])
  }

  predicate ClearAt(fold: string -> string, kind: Kind, idx: Index, a: string, b: string)
    requires a in idx && b in idx
  {
    !PairAmbiguous(fold, kind, idx[a], idx[b])
  }

  lemma ClearGrows(fold: string -> string, kind: Kind, idx: Index, ids: seq<string>, i: nat, j: nat)
    requires (forall id :: id in ids ==> id in idx) && i < j < |ids|
    requires ClearBefore(fold, kind, idx, ids, i, j) && ClearAt(fold, kind, idx, ids[i], ids[j])
    ensures ClearBefore(fold, kind, idx, ids, i, j + 1)
  {
  }

  lemma ClearRow(fold: string -> string, kind: Kind, idx: Index, ids: seq<string>, i: nat)
    requires (forall id :: id in ids ==> id in idx) && i < |ids|
    requires ClearBefore(fold, kind, idx, ids, i, |ids|)
    ensures ClearBefore(fold, kind, idx, ids, i + 1, 0)
  {
  }

  lemma ClearMeansFirst(fold: string -> string, kind: Kind, idx: Index, ids: seq<string>, i: nat, j: nat)
    requires Ascending(ids) && forall id :: id in ids <==> id in idx
    requires i < j < |ids| && ClearBefore(fold, kind, idx, ids, i, j) && PairAmbiguous(fold, kind, idx[ids[i]], idx[ids[j]])
    ensures FirstCollision(fold, kind, idx, ids[i], ids[j])
  {
    forall c, d | Collide(fold, kind, idx, c, d)
      ensures Less(ids[i], c) || (ids[i] == c && (ids[j] == d || Less(ids[j], d)))
    {
      var k :| 0 <= k < |ids| && ids[k] == c;
      var l :| 0 <= l < |ids| && ids[l] == d;
      AscendingPlaces(ids, k, l);
      assert !ClearAt(fold, kind, idx, ids[k], ids[l]);
    }
  }

  lemma ClearMeansCompiled(fold: string -> string, kind: Kind, idx: Index, ids: seq<string>)
    requires StoredPrefixes(idx) && Distinct(ids) && forall id :: id in ids <==> id in idx
    requires ClearBefore(fold, kind, idx, ids, |ids|, 0)
    ensures Compiled(fold, kind, idx)
  {
    forall a, b | a in idx && b in idx && a != b
      ensures !PairAmbiguous(fold, kind, idx[a], idx[b])
    {
      var k :| 0 <= k < |ids| && ids[k] == a;
      var l :| 0 <= l < |ids| && ids[l] == b;
      PairSymmetric(fold, kind, idx[a], idx[b]);
      if k < l {
        assert ClearAt(fold, kind, idx, ids[k], ids[l]);
      } else {
        assert ClearAt(fold, kind, idx, ids[l], ids[k]);
      }
    }
  }

  /** Compares every pair in the order of IDs; an index that passes is `Compiled`, and the
      error names the first pair that collides. */
  method CheckAmbiguity(fold: string -> string, kind: Kind, idx: Index) returns (r: Option<MatchError>)
    requires StoredPrefixes(idx)
    ensures r.None? <==> Compiled(fold, kind, idx)
    ensures r.Some? ==> r.value.Ambiguous? && FirstCollision(fold, kind, idx, r.value.a, r.value.b)
  {
    var keys := KeySeq(idx);
    SortIdsAscend(keys);
    var ids := SortIds(keys);
    AscendingIsDistinct(ids);
    for i := 0 to |ids|
      invariant ClearBefore(fold, kind, idx, ids, i, 0)
    {
      for j := i + 1 to |ids|
        invariant ClearBefore(fold, kind, idx, ids, i, j)
      {
        assert ids[i] in idx && ids[j] in idx;
        if PairAmbiguous(fold, kind, idx[ids[i]], idx[ids[j]]) {
          ClearMeansFirst(fold, kind, idx, ids, i, j);
          CollisionIsNotCompiled(fold, kind, idx, ids[i], ids[j]);
          return Some(Ambiguous(ids[i], ids[j]));
        }
        ClearGrows(fold, kind, idx, ids, i, j);
      }
      ClearRow(fold, kind, idx, ids, i);
    }
    ClearMeansCompiled(fold, kind, idx, ids);
    return None;
  }

  lemma CollisionIsNotCompiled(fold: string -> string, kind: Kind, idx: Index, a: string, b: string)
    requires Collide(fold, kind, idx, a, b)
    ensures !Compiled(fold, kind, idx)
  {
    LessTrichotomy(a, b);
  }

  lemma AscendingIsDistinct(ids: seq<string>)
    requires Ascending(ids)
    ensures Distinct(ids)
  {
    forall i, j | 0 <= i < j < |ids| ensures ids[i] != ids[j] { LessTrichotomy(ids[i], ids[j]); }
  }

  method Compile(fold: string -> string, kind: Kind, clients: seq<Client>) returns (r: Result<Index, MatchError>)
    ensures r.Ok? ==> r.value == Built(kind, clients) && Compiled(fold, kind, r.value) && Keyed(r.value)
    ensures r.Ok? <==> && kind != RadiusTls(DynamicAuthorization)
                       && (forall i :: 0 <= i < |clients| ==> Place(kind, clients[i]) != Invalid)
                       && Compiled(fold, kind, Built(kind, clients))
  {
    if kind == RadiusTls(DynamicAuthorization) {
      return Err(InvalidRole);
    }
    r := CompileEntries(kind, clients);
    if r.Ok? {
      var e := CheckAmbiguity(fold, kind, r.value);
      if e.Some? {
        return Err(e.value);
      }
    }
  }

  // ---------------------------------------------------------------------------
  // Ties on TLS
  // ---------------------------------------------------------------------------

  predicate IsTls(kind: Kind) { kind == Tacacs(Tls) || kind.RadiusTls? }

  /** The entry is asked on TLS at all. */
  predicate OnTls(kind: Kind, e: Entry) { kind.RadiusTls? || Tls in e.transports }

  /** The claim an entry makes once its certificate constraint is met. */
  function ClaimBeyondCert(e: Entry, p: Peer): (c: Option<int>)
    ensures c.Some? ==> c.value >= -1
  {
    if e.mode == CertificateOnly then Some(-1) else AddressClaim(e, p)
  }

  /** Both claim the peer, and neither address claim is longer than the other's. */
  predicate AddressTie(a: Entry, b: Entry, p: Peer)
  {
    var x, y := ClaimBeyondCert(a, p), ClaimBeyondCert(b, p);
    x.Some? && y.Some? && (x.value < 0 || y.value < 0 || x == y)
  }

  /** The certificate carries a name for each of the two that does not name the other. */
  predicate NamesEach(fold: string -> string, a: Entry, b: Entry, c: Cert)
  {
    exists i, j :: 0 <= i < |Sans(c)| && 0 <= j < |Sans(c)| && NameApart(fold, a, b, Sans(c)[i]) && NameApart(fold, b, a, Sans(c)[j])
  }

  predicate NameApart(fold: string -> string, a: Entry, b: Entry, s: San)
  {
    Names(fold, a, s) && !Names(fold, b, s)
  }

  lemma ClaimIsBeyondCert(fold: string -> string, kind: Kind, e: Entry, p: Peer)
    requires IsTls(kind) && Claim(fold, kind, e, p).Some?
    ensures OnTls(kind, e) && Claim(fold, kind, e, p) == ClaimBeyondCert(e, p)
  {
  }

  lemma ClaimWithCert(fold: string -> string, kind: Kind, e: Entry, p: Peer, i: nat)
    requires IsTls(kind) && p.cert.Some? && i < |Sans(p.cert.value)| && Names(fold, e, Sans(p.cert.value)[i])
    ensures Claim(fold, kind, e, p) == if OnTls(kind, e) then ClaimBeyondCert(e, p) else None
  {
    assert NamedBy(fold, e, p.cert.value);
  }

  lemma WinnersTieOnAddress(fold: string -> string, kind: Kind, idx: Index, p: Peer, x: string, y: string)
    requires IsTls(kind) && Winner(fold, kind, idx, p, x) && Winner(fold, kind, idx, p, y)
    ensures idx[x].priority == idx[y].priority && OnTls(kind, idx[x]) && OnTls(kind, idx[y])
    ensures AddressTie(idx[x], idx[y], p)
  {
    TwoWinnersTie(fold, kind, idx, p, x, y);
    ClaimIsBeyondCert(fold, kind, idx[x], p);
    ClaimIsBeyondCert(fold, kind, idx[y], p);
  }

  /** What a tie comes down to between the two themselves. */
  predicate Tied(fold: string -> string, kind: Kind, a: Entry, b: Entry, p: Peer)
  {
    && a.priority == b.priority && OnTls(kind, a) && OnTls(kind, b) && AddressTie(a, b, p)
    && p.cert.Some? && NamesEach(fold, a, b, p.cert.value)
  }

  /** A claim of this length does not push out the entry's own. */
  predicate Bears(e: Entry, p: Peer, bits: int)
  {
    var c := ClaimBeyondCert(e, p);
    c.Some? && c.value >= 0 ==> bits <= c.value
  }

  /** No third client pushes either of the two out by a longer prefix, and none that is left
      in the running has a lower priority number. */
  ghost predicate Unbeaten(fold: string -> string, kind: Kind, idx: Index, p: Peer, x: string, y: string)
    requires x in idx && y in idx
  {
    forall z :: z in idx && z != x && z != y ==>
                  && (var c := Claim(fold, kind, idx[z], p); c.Some? ==> Bears(idx[x], p, c.value) && Bears(idx[y], p, c.value))
                  && (Finalist(fold, kind, idx, p, z) ==> idx[x].priority <= idx[z].priority)
  }

  lemma WinnersAreTied(fold: string -> string, kind: Kind, idx: Index, p: Peer, x: string, y: string)
    requires IsTls(kind) && Compiled(fold, kind, idx) && x != y
    requires Winner(fold, kind, idx, p, x) && Winner(fold, kind, idx, p, y)
    ensures Tied(fold, kind, idx[x], idx[y], p) && Unbeaten(fold, kind, idx, p, x, y)
  {
    WinnersTieOnAddress(fold, kind, idx, p, x, y);
    ClaimIsBeyondCert(fold, kind, idx[x], p);
    ClaimIsBeyondCert(fold, kind, idx[y], p);
    var i, j := TlsTieNeedsTwoNames(fold, kind, idx, p, x, y);
    assert NameApart(fold, idx[x], idx[y], Sans(p.cert.value)[i]) && NameApart(fold, idx[y], idx[x], Sans(p.cert.value)[j]);
  }

  lemma TiedIsFinalist(fold: string -> string, kind: Kind, idx: Index, p: Peer, x: string, y: string)
    requires x in idx && y in idx && AddressTie(idx[x], idx[y], p) && Unbeaten(fold, kind, idx, p, x, y)
    requires Claim(fold, kind, idx[x], p) == ClaimBeyondCert(idx[x], p)
    requires Claim(fold, kind, idx[y], p) == ClaimBeyondCert(idx[y], p)
    ensures Finalist(fold, kind, idx, p, x) && Finalist(fold, kind, idx, p, y)
  {
  }

  lemma TiedBothWin(fold: string -> string, kind: Kind, idx: Index, p: Peer, x: string, y: string)
    requires IsTls(kind) && x in idx && y in idx && Tied(fold, kind, idx[x], idx[y], p) && Unbeaten(fold, kind, idx, p, x, y)
    ensures Winner(fold, kind, idx, p, x) && Winner(fold, kind, idx, p, y)
  {
    var a, b, c := idx[x], idx[y], p.cert.value;
    var i, j :| 0 <= i < |Sans(c)| && 0 <= j < |Sans(c)| && NameApart(fold, a, b, Sans(c)[i]) && NameApart(fold, b, a, Sans(c)[j]);
    ClaimWithCert(fold, kind, a, p, i);
    ClaimWithCert(fold, kind, b, p, j);
    TiedIsFinalist(fold, kind, idx, p, x, y);
  }

  /** When a compiled index ties on TLS: two of its clients both win a peer exactly when they have
      equal priority, tie on the address, the certificate names each of them apart, and no third
      client beats them. */
  lemma TieIff(fold: string -> string, kind: Kind, idx: Index, p: Peer, x: string, y: string)
    requires IsTls(kind) && Compiled(fold, kind, idx) && x in idx && y in idx && x != y
    ensures Winner(fold, kind, idx, p, x) && Winner(fold, kind, idx, p, y)
       <==> Tied(fold, kind, idx[x], idx[y], p) && Unbeaten(fold, kind, idx, p, x, y)
  {
    if Winner(fold, kind, idx, p, x) && Winner(fold, kind, idx, p, y) {
      WinnersAreTied(fold, kind, idx, p, x, y);
    }
    if Tied(fold, kind, idx[x], idx[y], p) && Unbeaten(fold, kind, idx, p, x, y) {
      TiedBothWin(fold, kind, idx, p, x, y);
    }
  }

  // ---------------------------------------------------------------------------
  // Which certificates can tie
  // ---------------------------------------------------------------------------

  /** A certificate that carries these names. */
  function CertOf(names: seq<San>): (c: Cert)
  {
    if names == [] then Cert([], [])
    else
      var rest := CertOf(names[1..]);
      match names[0]
      case Dns(n) => rest.(dns := [n] + rest.dns)
      case Addr(ip) => rest.(ips := [ip] + rest.ips)
  }

  predicate Holds(c: Cert, s: San)
  {
    match s case Dns(n) => n in c.dns case Addr(ip) => ip in c.ips
  }

  lemma {:induction false} CertHolds(names: seq<San>, s: San)
    ensures Holds(CertOf(names), s) <==> s in names
  {
    if names != [] {
      CertHolds(names[1..], s);
      assert names == [names[0]] + names[1..];
    }
  }

  lemma CertCarries(names: seq<San>, s: San)
    ensures s in Sans(CertOf(names)) <==> s in names
  {
    CertHolds(names, s);
    SansHold(CertOf(names), s);
  }

  lemma SansHold(c: Cert, s: San)
    ensures s in Sans(c) <==> Holds(c, s)
  {
    match s
    case Dns(n) =>
      if n in c.dns { var i :| 0 <= i < |c.dns| && c.dns[i] == n; assert Sans(c)[i] == s; }
    case Addr(ip) =>
      if ip in c.ips { var i :| 0 <= i < |c.ips| && c.ips[i] == ip; assert Sans(c)[|c.dns| + i] == s; }
  }

  /** The names at these places of a certificate, and nothing else. */
  predicate Drawn(names: seq<San>, c: Cert) { forall s :: s in names ==> s in Sans(c) }

  lemma NamedByOne(fold: string -> string, e: Entry, names: seq<San>, s: San)
    requires s in names && Names(fold, e, s)
    ensures NamedBy(fold, e, CertOf(names))
  {
    CertCarries(names, s);
    var k :| 0 <= k < |Sans(CertOf(names))| && Sans(CertOf(names))[k] == s;
  }

  lemma FewerNamesNameLess(fold: string -> string, e: Entry, names: seq<San>, c: Cert)
    requires Drawn(names, c) && NamedBy(fold, e, CertOf(names))
    ensures NamedBy(fold, e, c)
  {
    var k :| 0 <= k < |Sans(CertOf(names))| && Names(fold, e, Sans(CertOf(names))[k]);
    var s := Sans(CertOf(names))[k];
    CertCarries(names, s);
    var m :| 0 <= m < |Sans(c)| && Sans(c)[m] == s;
  }

  /** With fewer names an entry claims the same or nothing. */
  lemma FewerNamesClaimLess(fold: string -> string, kind: Kind, e: Entry, p: Peer, names: seq<San>)
    requires IsTls(kind) && p.cert.Some? && Drawn(names, p.cert.value)
    ensures var c := Claim(fold, kind, e, Peer(p.ip, Some(CertOf(names)))); c.Some? ==> Claim(fold, kind, e, p) == c
  {
    if NamedBy(fold, e, CertOf(names)) { FewerNamesNameLess(fold, e, names, p.cert.value); }
  }

  /** The client claims the peer by address, and nobody claims it by a longer prefix. */
  ghost predicate Foremost(fold: string -> string, kind: Kind, idx: Index, p: Peer, w: string)
  {
    && w in idx && Claim(fold, kind, idx[w], p).Some? && Claim(fold, kind, idx[w], p).value >= 0
    && Finalist(fold, kind, idx, p, w)
  }

  ghost predicate NobodyByAddress(fold: string -> string, kind: Kind, idx: Index, p: Peer)
  {
    forall z :: z in idx && Claim(fold, kind, idx[z], p).Some? ==> Claim(fold, kind, idx[z], p).value < 0
  }

  lemma {:induction false} SomeoneForemost(fold: string -> string, kind: Kind, idx: Index, p: Peer) returns (w: Option<string>)
    ensures match w case Some(id) => Foremost(fold, kind, idx, p, id) case None => NobodyByAddress(fold, kind, idx, p)
    decreases |idx.Keys|
  {
    if idx.Keys == {} {
      w := None;
    } else {
      var id :| id in idx.Keys;
      var less := idx - {id};
      assert less.Keys == idx.Keys - {id};
      w := SomeoneForemost(fold, kind, less, p);
      var c := Claim(fold, kind, idx[id], p);
      assert forall z :: z in idx && z != id ==> z in less && less[z] == idx[z];
      if c.Some? && c.value >= 0 && (w.None? || c.value >= Claim(fold, kind, idx[w.value], p).value) {
        w := Some(id);
      }
    }
  }

  /** A name of the certificate that lets the entry claim the peer, if it needs one. */
  lemma NameNeeded(fold: string -> string, kind: Kind, e: Entry, p: Peer) returns (names: seq<San>)
    requires IsTls(kind) && p.cert.Some? && Claim(fold, kind, e, p).Some?
    ensures |names| <= 1 && Drawn(names, p.cert.value)
    ensures Unconstrained(e) || exists s :: s in names && Names(fold, e, s)
  {
    if Unconstrained(e) {
      names := [];
    } else {
      var k :| 0 <= k < |Sans(p.cert.value)| && Names(fold, e, Sans(p.cert.value)[k]);
      names := [Sans(p.cert.value)[k]];
      assert names[0] in names;
    }
  }

  lemma StillClaims(fold: string -> string, kind: Kind, e: Entry, p: Peer, names: seq<San>)
    requires IsTls(kind) && p.cert.Some? && Drawn(names, p.cert.value) && Claim(fold, kind, e, p).Some?
    requires Unconstrained(e) || exists s :: s in names && Names(fold, e, s)
    ensures Claim(fold, kind, e, Peer(p.ip, Some(CertOf(names)))) == Claim(fold, kind, e, p)
  {
    if !Unconstrained(e) {
      var s :| s in names && Names(fold, e, s);
      NamedByOne(fold, e, names, s);
    }
  }

  /** The reduced certificate keeps a winner when the foremost address claim is kept. */
  lemma StillWins(fold: string -> string, kind: Kind, idx: Index, p: Peer, names: seq<San>, w: Option<string>, x: string)
    requires IsTls(kind) && p.cert.Some? && Drawn(names, p.cert.value) && Winner(fold, kind, idx, p, x)
    requires match w case Some(id) => Foremost(fold, kind, idx, p, id) case None => NobodyByAddress(fold, kind, idx, p)
    requires var q := Peer(p.ip, Some(CertOf(names)));
             && Claim(fold, kind, idx[x], q) == Claim(fold, kind, idx[x], p)
             && (w.Some? ==> Claim(fold, kind, idx[w.value], q) == Claim(fold, kind, idx[w.value], p))
    ensures Winner(fold, kind, idx, Peer(p.ip, Some(CertOf(names))), x)
  {
    var q := Peer(p.ip, Some(CertOf(names)));
    forall z | z in idx
      ensures var c := Claim(fold, kind, idx[z], q); c.Some? ==> Claim(fold, kind, idx[z], p) == c
    {
      FewerNamesClaimLess(fold, kind, idx[z], p, names);
    }
    forall z | Finalist(fold, kind, idx, q, z)
      ensures Finalist(fold, kind, idx, p, z)
    {
    }
  }

  /** Three names decide: if any certificate ties two clients of a compiled index on an address,
      then one that carries at most three of its names does. */
  lemma ThreeNamesTie(fold: string -> string, kind: Kind, idx: Index, p: Peer, x: string, y: string) returns (names: seq<San>)
    requires IsTls(kind) && Compiled(fold, kind, idx) && x != y
    requires Winner(fold, kind, idx, p, x) && Winner(fold, kind, idx, p, y)
    ensures p.cert.Some? && Drawn(names, p.cert.value) && |names| <= 3
    ensures var q := Peer(p.ip, Some(CertOf(names))); Winner(fold, kind, idx, q, x) && Winner(fold, kind, idx, q, y)
  {
    var i, j := TlsTieNeedsTwoNames(fold, kind, idx, p, x, y);
    var s, t := Sans(p.cert.value)[i], Sans(p.cert.value)[j];
    var w := SomeoneForemost(fold, kind, idx, p);
    var more := [];
    if w.Some? { more := NameNeeded(fold, kind, idx[w.value], p); }
    names := [s, t] + more;
    assert names[0] == s && names[1] == t;
    assert forall u :: u in more ==> u in names;
    StillClaims(fold, kind, idx[x], p, names);
    StillClaims(fold, kind, idx[y], p, names);
    if w.Some? { StillClaims(fold, kind, idx[w.value], p, names); }
    StillWins(fold, kind, idx, p, names, w, x);
    StillWins(fold, kind, idx, p, names, w, y);
  }

  // ---------------------------------------------------------------------------
  // Two clients alone
  // ---------------------------------------------------------------------------

  lemma BuiltPair(kind: Kind, c: Client, d: Client)
    requires c.id != d.id && Place(kind, c).Put? && Place(kind, d).Put?
    ensures Built(kind, [c, d]) == map[c.id := Place(kind, c).entry, d.id := Place(kind, d).entry]
  {
    assert [c, d][..1] == [c] && [c][..0] == [];
    assert Built(kind, []) == map[];
    assert Built(kind, [c]) == map[c.id := Place(kind, c).entry];
  }

  lemma AddressTieIgnoresCert(a: Entry, b: Entry, p: Peer, q: Peer)
    requires p.ip == q.ip
    ensures AddressTie(a, b, p) == AddressTie(a, b, q)
  {
  }

  /** A peer at this address for which both win. */
  ghost predicate TiesSomewhere(fold: string -> string, kind: Kind, idx: Index, x: string, y: string, ip: Ip)
  {
    exists p: Peer :: p.ip == ip && Winner(fold, kind, idx, p, x) && Winner(fold, kind, idx, p, y)
  }

  /** Some certificate ties two clients compiled alone on an address exactly when they have equal
      priority, are both asked on TLS, and tie on the address. */
  lemma PairTiesIff(fold: string -> string, kind: Kind, c: Client, d: Client, ip: Ip)
    requires IsTls(kind) && c.id != d.id && Place(kind, c).Put? && Place(kind, d).Put?
    requires Compiled(fold, kind, Built(kind, [c, d]))
    ensures var a, b := Place(kind, c).entry, Place(kind, d).entry;
            TiesSomewhere(fold, kind, Built(kind, [c, d]), c.id, d.id, ip)
            <==> a.priority == b.priority && OnTls(kind, a) && OnTls(kind, b) && AddressTie(a, b, Peer(ip, None))
  {
    var idx := Built(kind, [c, d]);
    BuiltPair(kind, c, d);
    if TiesSomewhere(fold, kind, idx, c.id, d.id, ip) {
      var p: Peer :| p.ip == ip && Winner(fold, kind, idx, p, c.id) && Winner(fold, kind, idx, p, d.id);
      WinnersTieOnAddress(fold, kind, idx, p, c.id, d.id);
      AddressTieIgnoresCert(idx[c.id], idx[d.id], p, Peer(ip, None));
    }
    var a, b := idx[c.id], idx[d.id];
    if a.priority == b.priority && OnTls(kind, a) && OnTls(kind, b) && AddressTie(a, b, Peer(ip, None)) {
      PairTies(fold, kind, idx, c.id, d.id, ip);
    }
  }

  lemma PairTies(fold: string -> string, kind: Kind, idx: Index, x: string, y: string, ip: Ip)
    requires IsTls(kind) && Compiled(fold, kind, idx) && idx.Keys == {x, y} && x != y
    requires idx[x].priority == idx[y].priority && OnTls(kind, idx[x]) && OnTls(kind, idx[y])
    requires AddressTie(idx[x], idx[y], Peer(ip, None))
    ensures TiesSomewhere(fold, kind, idx, x, y, ip)
  {
    TieOverlaps(fold, kind, idx, x, y, ip);
    var cert := CertForBoth(fold, idx[x], idx[y]);
    var p := Peer(ip, Some(cert));
    AddressTieIgnoresCert(idx[x], idx[y], p, Peer(ip, None));
    AloneIsUnbeaten(fold, kind, idx, p, x, y);
    TiedBothWin(fold, kind, idx, p, x, y);
  }

  lemma AloneIsUnbeaten(fold: string -> string, kind: Kind, idx: Index, p: Peer, x: string, y: string)
    requires idx.Keys == {x, y}
    ensures Unbeaten(fold, kind, idx, p, x, y)
  {
  }

  /** An address tie of equal priority on TLS means overlap, so a compiled pair names no one in common. */
  lemma TieOverlaps(fold: string -> string, kind: Kind, idx: Index, x: string, y: string, ip: Ip)
    requires IsTls(kind) && Compiled(fold, kind, idx) && x in idx && y in idx && x != y
    requires idx[x].priority == idx[y].priority && OnTls(kind, idx[x]) && OnTls(kind, idx[y])
    requires AddressTie(idx[x], idx[y], Peer(ip, None))
    ensures !CertsMayOverlap(fold, idx[x], idx[y])
  {
    assert !PairAmbiguous(fold, kind, idx[x], idx[y]);
    if idx[x].mode != CertificateOnly && idx[y].mode != CertificateOnly {
      EqualClaimsShareAPrefix(idx[x], idx[y], Peer(ip, None));
    }
    assert Overlapping(idx[x], idx[y]);
  }

  /** A name that satisfies the entry. */
  function OwnName(e: Entry): (s: San)
    requires !Unconstrained(e)
  {
    if e.dns != [] then Dns(e.dns[0]) else Addr(e.ips[0])
  }

  lemma OwnNameNames(fold: string -> string, e: Entry)
    requires !Unconstrained(e)
    ensures Names(fold, e, OwnName(e))
  {
    if e.dns != [] {
      assert EqualFold(fold, e.dns[0], e.dns[0]);
    } else {
      assert IpEqual(e.ips[0], e.ips[0]);
    }
  }

  lemma CertForBoth(fold: string -> string, a: Entry, b: Entry) returns (c: Cert)
    requires !CertsMayOverlap(fold, a, b)
    ensures NamesEach(fold, a, b, c)
  {
    var s, t := OwnName(a), OwnName(b);
    c := CertOf([s, t]);
    OwnNameNames(fold, a);
    OwnNameNames(fold, b);
    if Names(fold, b, s) { OneNameForTwoOverlaps(fold, a, b, s); }
    if Names(fold, a, t) { OneNameForTwoOverlaps(fold, a, b, t); }
    CertCarries([s, t], s);
    CertCarries([s, t], t);
    var i :| 0 <= i < |Sans(c)| && Sans(c)[i] == s;
    var j :| 0 <= j < |Sans(c)| && Sans(c)[j] == t;
    assert NameApart(fold, a, b, Sans(c)[i]) && NameApart(fold, b, a, Sans(c)[j]);
  }

  /** The tie is real for every TLS index: two certificate-only clients of equal priority compile
      together exactly when no name satisfies both, and then some certificate makes both of them win. */
  lemma TwoNamesTie(fold: string -> string, kind: Kind, c: Client, d: Client, ip: Ip)
    requires IsTls(kind) && c.id != d.id && Place(kind, c).Put? && Place(kind, d).Put?
    requires c.priority == d.priority && c.mode == d.mode == CertificateOnly
    requires kind.Tacacs? ==> c.transports == d.transports == [Tls]
    ensures Compiled(fold, kind, Built(kind, [c, d])) <==> !CertsMayOverlap(fold, Place(kind, c).entry, Place(kind, d).entry)
    ensures Compiled(fold, kind, Built(kind, [c, d])) ==>
              TiesSomewhere(fold, kind, Built(kind, [c, d]), c.id, d.id, ip)
  {
    BuiltPair(kind, c, d);
    PlacedPrefixes(kind, c);
    PlacedPrefixes(kind, d);
    var idx, a, b := Built(kind, [c, d]), Place(kind, c).entry, Place(kind, d).entry;
    OverlapIsSymmetric(fold, a, b);
    PairOnTls(fold, kind, a, b);
    PairOnTls(fold, kind, b, a);
    if Compiled(fold, kind, idx) {
      PairTiesIff(fold, kind, c, d, ip);
    }
  }

  lemma PairOnTls(fold: string -> string, kind: Kind, a: Entry, b: Entry)
    requires IsTls(kind) && a.priority == b.priority && a.mode == CertificateOnly
    requires kind.Tacacs? ==> a.transports == b.transports == [Tls]
    ensures PairAmbiguous(fold, kind, a, b) <==> CertsMayOverlap(fold, a, b)
  {
    assert Overlapping(a, b);
    if kind.Tacacs? { assert Tls in a.transports && Tls in b.transports; }
  }

  // ---------------------------------------------------------------------------
  // Matching
  // ---------------------------------------------------------------------------

  datatype Candidate = Candidate(id: string, priority: int, prefix: int)

  function Ids(cs: seq<Candidate>): (r: set<string>) { set k | 0 <= k < |cs| :: cs[k].id }

  lemma IdsAppend(cs: seq<Candidate>, c: Candidate)
    ensures Ids(cs + [c]) == Ids(cs) + {c.id}
  {
    var all := cs + [c];
    assert all[|cs|].id in Ids(all);
    forall k | 0 <= k < |cs|
      ensures cs[k].id in Ids(all)
    {
      assert all[k].id in Ids(all);
    }
  }

  function CandidateId(c: Candidate): (id: string) { c.id }

  ghost predicate FromIndex(fold: string -> string, kind: Kind, idx: Index, p: Peer, c: Candidate)
  {
    c.id in idx && c.priority == idx[c.id].priority && Claim(fold, kind, idx[c.id], p) == Some(c.prefix)
  }

  method ClaimOf(fold: string -> string, kind: Kind, e: Entry, p: Peer) returns (r: Option<int>)
    ensures r == Claim(fold, kind, e, p)
    ensures r.Some? ==> r.value >= -1
  {
    if kind.Tacacs? && (kind.transport !in e.transports || (kind.transport == Tls && !CertSatisfied(fold, e, p.cert))) {
      return None;
    }
    if kind.RadiusTls? && (p.cert.None? || !CertSatisfied(fold, e, p.cert)) {
      return None;
    }
    if !kind.RadiusUdp? && e.mode == CertificateOnly {
      return Some(-1);
    }
    var canon := Canonicalize(p.ip);
    if canon.None? {
      return None;
    }
    var bits, ok := LongestContaining(e.cidrs, canon.value.0, canon.value.1);
    return if ok then Some(bits) else None;
  }

  /** The candidates are honest claims, none longer than `best`. */
  ghost predicate Claims(fold: string -> string, kind: Kind, idx: Index, p: Peer, cand: seq<Candidate>, best: int)
  {
    && DistinctIds(cand, CandidateId)
    && forall k :: 0 <= k < |cand| ==> FromIndex(fold, kind, idx, p, cand[k]) && -1 <= cand[k].prefix <= best
  }

  /** Every entry of `seen` that has a claim is a candidate. */
  ghost predicate Gathered(fold: string -> string, kind: Kind, idx: Index, p: Peer, cand: seq<Candidate>, seen: set<string>)
  {
    forall id :: id in Ids(cand) <==> id in idx && id in seen && Claim(fold, kind, idx[id], p).Some?
  }

  predicate Reached(cand: seq<Candidate>, best: int)
  {
    best == -1 || exists k :: 0 <= k < |cand| && cand[k].prefix == best
  }

  lemma AddClaim(fold: string -> string, kind: Kind, idx: Index, p: Peer, cand: seq<Candidate>, best: int, c: Candidate)
    requires Claims(fold, kind, idx, p, cand, best) && FromIndex(fold, kind, idx, p, c)
    requires c.id !in Ids(cand) && c.prefix >= -1
    ensures Claims(fold, kind, idx, p, cand + [c], if c.prefix > best then c.prefix else best)
  {
    assert forall k :: 0 <= k < |cand| ==> cand[k].id in Ids(cand);
  }

  lemma AddCovered(fold: string -> string, kind: Kind, idx: Index, p: Peer, cand: seq<Candidate>, seen: set<string>, id: string)
    requires Gathered(fold, kind, idx, p, cand, seen) && id in idx
    ensures Claim(fold, kind, idx[id], p).None? ==> Gathered(fold, kind, idx, p, cand, seen + {id})
    ensures forall c: Candidate :: c.id == id && Claim(fold, kind, idx[id], p).Some? ==> Gathered(fold, kind, idx, p, cand + [c], seen + {id})
  {
    forall c: Candidate | c.id == id && Claim(fold, kind, idx[id], p).Some?
      ensures Gathered(fold, kind, idx, p, cand + [c], seen + {id})
    {
      IdsAppend(cand, c);
    }
  }

  lemma AddReached(cand: seq<Candidate>, best: int, c: Candidate)
    requires Reached(cand, best)
    ensures Reached(cand + [c], if c.prefix > best then c.prefix else best)
  {
    var longer := cand + [c];
    if c.prefix > best {
      assert longer[|cand|].prefix == c.prefix;
    } else if best != -1 {
      var k :| 0 <= k < |cand| && cand[k].prefix == best;
      assert longer[k].prefix == best;
    }
  }

  /** Walks the index in any order and collects the claims. */
  method Gather(fold: string -> string, kind: Kind, idx: Index, p: Peer)
    returns (cand: seq<Candidate>, best: int)
    ensures Claims(fold, kind, idx, p, cand, best) && Gathered(fold, kind, idx, p, cand, idx.Keys) && Reached(cand, best)
  {
    cand, best := [], -1;
    var rest := idx.Keys;
    while rest != {}
      invariant rest <= idx.Keys && Claims(fold, kind, idx, p, cand, best)
      invariant Gathered(fold, kind, idx, p, cand, idx.Keys - rest) && Reached(cand, best)
    {
      var id :| id in rest;
      assert idx.Keys - (rest - {id}) == (idx.Keys - rest) + {id};
      AddCovered(fold, kind, idx, p, cand, idx.Keys - rest, id);
      rest := rest - {id};
      var claim := ClaimOf(fold, kind, idx[id], p);
      if claim.Some? {
        var c := Candidate(id, idx[id].priority, claim.value);
        AddClaim(fold, kind, idx, p, cand, best, c);
        AddReached(cand, best, c);
        cand := cand + [c];
        if claim.value > best {
          best := claim.value;
        }
      }
    }
  }

  /** Keeps the certificate-only candidates and the longest prefixes. */
  method KeepLongest(cand: seq<Candidate>, best: int) returns (final: seq<Candidate>)
    requires DistinctIds(cand, CandidateId)
    ensures DistinctIds(final, CandidateId)
    ensures forall k :: 0 <= k < |final| ==> final[k] in cand && Keeps(final[k], best)
    ensures forall k :: 0 <= k < |cand| && Keeps(cand[k], best) ==> cand[k] in final
  {
    final := [];
    for i := 0 to |cand|
      invariant DistinctIds(final, CandidateId)
      invariant forall k :: 0 <= k < |final| ==> final[k] in cand[..i] && Keeps(final[k], best)
      invariant forall k :: 0 <= k < i && Keeps(cand[k], best) ==> cand[k] in final
    {
      if cand[i].prefix < 0 || cand[i].prefix == best {
        final := final + [cand[i]];
      }
    }
  }

  /** The kept candidates are exactly the finalists, and there is one if anyone claims. */
  lemma KeptAreFinalists(fold: string -> string, kind: Kind, idx: Index, p: Peer,
                         cand: seq<Candidate>, best: int, final: seq<Candidate>)
    requires Claims(fold, kind, idx, p, cand, best) && Gathered(fold, kind, idx, p, cand, idx.Keys) && Reached(cand, best)
    requires forall k :: 0 <= k < |final| ==> final[k] in cand && Keeps(final[k], best)
    requires forall k :: 0 <= k < |cand| && Keeps(cand[k], best) ==> cand[k] in final
    ensures forall id :: id in Ids(final) <==> Finalist(fold, kind, idx, p, id)
    ensures final == [] ==> cand == []
  {
    KeptIds(cand, final, best);
    if cand != [] {
      assert best == -1 ==> Keeps(cand[0], best);
    }
    forall id
      ensures id in Ids(final) <==> Finalist(fold, kind, idx, p, id)
    {
      if id in Ids(cand) {
        var k :| 0 <= k < |cand| && cand[k].id == id;
        LongestIsKept(fold, kind, idx, p, cand, best, k);
      }
    }
  }

  lemma KeptIds(cand: seq<Candidate>, final: seq<Candidate>, best: int)
    requires DistinctIds(cand, CandidateId)
    requires forall k :: 0 <= k < |final| ==> final[k] in cand && Keeps(final[k], best)
    requires forall k :: 0 <= k < |cand| && Keeps(cand[k], best) ==> cand[k] in final
    ensures forall k :: 0 <= k < |cand| ==> (cand[k].id in Ids(final) <==> Keeps(cand[k], best))
    ensures Ids(final) <= Ids(cand)
  {
    forall k | 0 <= k < |cand|
      ensures cand[k].id in Ids(final) <==> Keeps(cand[k], best)
    {
      if cand[k].id in Ids(final) {
        var m :| 0 <= m < |final| && final[m].id == cand[k].id;
        var i :| 0 <= i < |cand| && cand[i] == final[m];
        assert i == k;
      }
    }
  }

  predicate Keeps(c: Candidate, best: int) { c.prefix < 0 || c.prefix == best }

  lemma LongestIsKept(fold: string -> string, kind: Kind, idx: Index, p: Peer, cand: seq<Candidate>, best: int, k: nat)
    requires k < |cand|
    requires Claims(fold, kind, idx, p, cand, best) && Gathered(fold, kind, idx, p, cand, idx.Keys) && Reached(cand, best)
    ensures Keeps(cand[k], best) <==> Finalist(fold, kind, idx, p, cand[k].id)
  {
    if Keeps(cand[k], best) && cand[k].prefix >= 0 {
      forall other | other in idx && Claim(fold, kind, idx[other], p).Some?
        ensures Claim(fold, kind, idx[other], p).value <= cand[k].prefix
      {
        assert other in Ids(cand);
      }
    }
    if !Keeps(cand[k], best) {
      var i :| 0 <= i < |cand| && cand[i].prefix == best;
      assert cand[i].id in idx;
    }
  }

  ghost predicate NoClaim(fold: string -> string, kind: Kind, idx: Index, p: Peer)
  {
    forall id :: id in idx ==> Claim(fold, kind, idx[id], p).None?
  }

  ghost function WinnersOf(fold: string -> string, kind: Kind, idx: Index, p: Peer): (w: iset<string>)
  {
    iset id | Winner(fold, kind, idx, p, id)
  }

  /** The result names the only winner, or the two that come first in the order of IDs. */
  ghost predicate Selects(fold: string -> string, kind: Kind, idx: Index, p: Peer, r: Result<(string, string), MatchError>)
  {
    match r
    case Ok(w) => && Winner(fold, kind, idx, p, w.0) && w.1 == idx[w.0].endpoint
                  && forall id :: Winner(fold, kind, idx, p, id) ==> id == w.0
    case Err(Ambiguous(a, b)) => LeastTwo(WinnersOf(fold, kind, idx, p), a, b)
    case _ => false
  }

  /** So the index and the peer fix the result, whatever the order of the map. */
  lemma SelectsOneResult(fold: string -> string, kind: Kind, idx: Index, p: Peer,
                         r: Result<(string, string), MatchError>, s: Result<(string, string), MatchError>)
    requires Selects(fold, kind, idx, p, r) && Selects(fold, kind, idx, p, s)
    ensures r == s
  {
    var w := WinnersOf(fold, kind, idx, p);
    if r.Err? && s.Err? {
      LeastTwoAreUnique(w, r.error.a, r.error.b, s.error.a, s.error.b);
    } else if r.Err? {
      LessTrichotomy(r.error.a, r.error.b);
    } else if s.Err? {
      LessTrichotomy(s.error.a, s.error.b);
    }
  }

  /** A client whose place in the index is asked about addresses alone. */
  predicate ByAddress(kind: Kind, c: Client)
  {
    Place(kind, c).Put? && (kind.RadiusUdp? || (kind == Tacacs(Legacy) && Legacy in c.transports && c.mode == AddressAndCertificate))
  }

  /** The client's one source prefix covers the peer with this length. */
  predicate OnePrefix(c: Client, n: ParsedPrefix, p: Peer, bits: nat)
  {
    c.cidrs == [Some(n)] && var a := Canonicalize(p.ip); a.Some? && CoverBits(IndexCidr(n), a.value.0, a.value.1) == bits
  }

  lemma OnePrefixClaim(fold: string -> string, kind: Kind, c: Client, p: Peer, n: ParsedPrefix, bits: nat)
    requires ByAddress(kind, c) && OnePrefix(c, n, p, bits)
    ensures var e := Place(kind, c).entry;
            && e.cidrs == [IndexCidr(n)] && e.cidrs[0].bits == bits && e.mode == AddressAndCertificate
            && Claim(fold, kind, e, p) == Some(bits)
  {
    var e, a := Place(kind, c).entry, Canonicalize(p.ip).value;
    assert e.cidrs == [IndexCidr(n)] && e.cidrs[1..] == [];
    assert Longest(e.cidrs[1..], a.0, a.1) == -1;
  }

  lemma LongerClaimWins(fold: string -> string, kind: Kind, idx: Index, p: Peer, x: string, y: string)
    requires idx.Keys == {x, y}
    requires var a, b := Claim(fold, kind, idx[x], p), Claim(fold, kind, idx[y], p);
             a.Some? && b.Some? && a.value > b.value >= 0
    ensures forall id :: Winner(fold, kind, idx, p, id) <==> id == x
  {
    LongerIsFinalist(fold, kind, idx, p, x, y);
    ShorterIsNone(fold, kind, idx, p, x, y);
    assert forall id :: Finalist(fold, kind, idx, p, id) ==> id == x;
  }

  lemma ShorterIsNone(fold: string -> string, kind: Kind, idx: Index, p: Peer, x: string, y: string)
    requires x in idx && y in idx
    requires var a, b := Claim(fold, kind, idx[x], p), Claim(fold, kind, idx[y], p);
             a.Some? && b.Some? && a.value > b.value >= 0
    ensures !Finalist(fold, kind, idx, p, y)
  {
  }

  lemma LongerIsFinalist(fold: string -> string, kind: Kind, idx: Index, p: Peer, x: string, y: string)
    requires idx.Keys == {x, y}
    requires var a, b := Claim(fold, kind, idx[x], p), Claim(fold, kind, idx[y], p); a.Some? && b.Some? && b.value <= a.value
    ensures Finalist(fold, kind, idx, p, x)
  {
  }

  lemma OtherLengthsCompile(fold: string -> string, kind: Kind, idx: Index, x: string, y: string)
    requires idx.Keys == {x, y} && StoredPrefixes(idx) && |idx[x].cidrs| == |idx[y].cidrs| == 1
    requires idx[x].cidrs[0].bits != idx[y].cidrs[0].bits && idx[x].mode == idx[y].mode == AddressAndCertificate
    ensures Compiled(fold, kind, idx)
  {
    OtherLengthsDiffer(fold, kind, idx[x], idx[y]);
    OtherLengthsDiffer(fold, kind, idx[y], idx[x]);
  }

  lemma OtherLengthsDiffer(fold: string -> string, kind: Kind, a: Entry, b: Entry)
    requires |a.cidrs| == |b.cidrs| == 1 && a.cidrs[0].bits != b.cidrs[0].bits
    requires a.mode == b.mode == AddressAndCertificate
    ensures !PairAmbiguous(fold, kind, a, b)
  {
    assert !ShareIdenticalCidr(a, b);
  }

  /** Of two clients with one prefix each the one with more stored bits is selected, whatever the priorities. */
  lemma MoreStoredBitsAreSelected(fold: string -> string, kind: Kind, c: Client, d: Client, p: Peer,
                                  n: ParsedPrefix, m: ParsedPrefix, more: nat, less: nat)
    requires c.id != d.id && ByAddress(kind, c) && ByAddress(kind, d)
    requires OnePrefix(c, n, p, more) && OnePrefix(d, m, p, less) && less < more
    ensures var idx := Built(kind, [c, d]);
            && Compiled(fold, kind, idx) && c.id in idx && Selects(fold, kind, idx, p, Ok((c.id, idx[c.id].endpoint)))
            && d.id in idx && idx[c.id].cidrs == [IndexCidr(n)] && idx[d.id].cidrs == [IndexCidr(m)]
  {
    BuiltPair(kind, c, d);
    OnePrefixClaim(fold, kind, c, p, n, more);
    OnePrefixClaim(fold, kind, d, p, m, less);
    PlacedPrefixes(kind, c);
    PlacedPrefixes(kind, d);
    LongerClaimWins(fold, kind, Built(kind, [c, d]), p, c.id, d.id);
    OtherLengthsCompile(fold, kind, Built(kind, [c, d]), c.id, d.id);
  }

  /** The consequence for the match: a client with the mapped prefix compiles beside one with
      10.1.0.0/16 and is the one selected for 10.1.2.3, although the other's network is narrower. */
  lemma MappedClientIsSelected(fold: string -> string, kind: Kind, c: Client, d: Client, p: Peer)
    requires c.id != d.id && ByAddress(kind, c) && ByAddress(kind, d) && p.ip == [10, 1, 2, 3]
    requires c.cidrs == [Some(MappedTen)] && d.cidrs == [Some(TenOne)]
    ensures var idx := Built(kind, [c, d]);
            && Compiled(fold, kind, idx) && c.id in idx && Selects(fold, kind, idx, p, Ok((c.id, idx[c.id].endpoint)))
            && d.id in idx && idx[c.id].cidrs == [IndexCidr(MappedTen)] && idx[d.id].cidrs == [IndexCidr(TenOne)]
    ensures Within(IndexCidr(TenOne), IndexCidr(MappedTen)) && !Within(IndexCidr(MappedTen), IndexCidr(TenOne))
  {
    MappedCovers(p.ip);
    MoreStoredBitsAreSelected(fold, kind, c, d, p, MappedTen, TenOne, 104, 16);
  }

  /** Selects the client: the outcome is fixed by the index, not by map order. */
  method Match(fold: string -> string, kind: Kind, idx: Index, p: Peer)
    returns (r: Result<(string, string), MatchError>)
    requires Keyed(idx)
    ensures r == Err(InvalidPeer) <==> !kind.RadiusTls? && Canonicalize(p.ip).None?
    ensures r == Err(NotFound) <==> r != Err(InvalidPeer) && NoClaim(fold, kind, idx, p)
    ensures r != Err(InvalidPeer) && r != Err(NotFound) ==> Selects(fold, kind, idx, p, r)
    ensures Compiled(fold, kind, idx) && (kind == Tacacs(Legacy) || kind.RadiusUdp?) ==>
              !(r.Err? && r.error.Ambiguous?)
  {
    if !kind.RadiusTls? && Canonicalize(p.ip).None? {
      return Err(InvalidPeer);
    }
    if kind.RadiusTls? && (p.cert.None? || (Sans(p.cert.value) == [] && forall id :: id in idx ==> !Unconstrained(idx[id]))) {
      return Err(NotFound);
    }
    var cand, best := Gather(fold, kind, idx, p);
    var final := KeepLongest(cand, best);
    KeptAreFinalists(fold, kind, idx, p, cand, best, final);
    if final == [] {
      assert forall id :: id in idx ==> id !in Ids(cand);
      return Err(NotFound);
    }
    assert final[0].id in Ids(final) && Claim(fold, kind, idx[final[0].id], p).Some?;
    r := Select(fold, kind, idx, p, final);
    SelectedAlone(fold, kind, idx, p, r);
  }

  lemma SelectedAlone(fold: string -> string, kind: Kind, idx: Index, p: Peer, r: Result<(string, string), MatchError>)
    requires Selects(fold, kind, idx, p, r)
    ensures Compiled(fold, kind, idx) && (kind == Tacacs(Legacy) || kind.RadiusUdp?) ==> r.Ok?
  {
    if r.Err? && Compiled(fold, kind, idx) && (kind == Tacacs(Legacy) || kind.RadiusUdp?) {
      LessTrichotomy(r.error.a, r.error.b);
      assert r.error.a in WinnersOf(fold, kind, idx, p) && r.error.b in WinnersOf(fold, kind, idx, p);
      CompiledIsUnambiguous(fold, kind, idx, p, r.error.a, r.error.b);
    }
  }

  method Select(fold: string -> string, kind: Kind, idx: Index, p: Peer, final: seq<Candidate>)
    returns (r: Result<(string, string), MatchError>)
    requires final != [] && DistinctIds(final, CandidateId)
    requires forall k :: 0 <= k < |final| ==> FromIndex(fold, kind, idx, p, final[k])
    requires forall id :: id in Ids(final) <==> Finalist(fold, kind, idx, p, id)
    ensures Selects(fold, kind, idx, p, r)
  {
    var winners := Winners(fold, kind, idx, p, final);
    assert forall k :: 0 <= k < |winners| ==> winners[k] in winners;
    if |winners| > 1 {
      r := Err(Ambiguous(winners[0], winners[1]));
    } else {
      r := Ok((winners[0], idx[winners[0]].endpoint));
    }
  }

  method LowestPriority(final: seq<Candidate>) returns (best: int)
    requires final != []
    ensures forall k :: 0 <= k < |final| ==> best <= final[k].priority
    ensures exists k :: 0 <= k < |final| && final[k].priority == best
  {
    best := final[0].priority;
    for i := 1 to |final|
      invariant forall k :: 0 <= k < i ==> best <= final[k].priority
      invariant exists k :: 0 <= k < i && final[k].priority == best
    {
      if final[i].priority < best {
        best := final[i].priority;
      }
    }
  }

  /** The IDs at priority `best`. */
  method AtPriority(final: seq<Candidate>, best: int) returns (winners: seq<string>)
    requires DistinctIds(final, CandidateId)
    ensures Distinct(winners)
    ensures forall w :: w in winners <==> exists k :: 0 <= k < |final| && final[k].id == w && final[k].priority == best
  {
    winners := [];
    for i := 0 to |final|
      invariant Distinct(winners)
      invariant forall w :: w in winners <==> exists k :: 0 <= k < i && final[k].id == w && final[k].priority == best
    {
      if final[i].priority == best {
        assert forall k :: 0 <= k < |winners| ==> winners[k] in winners;
        winners := winners + [final[i].id];
      }
    }
  }

  /** The finalists of lowest priority number, in the order of IDs. */
  method Winners(fold: string -> string, kind: Kind, idx: Index, p: Peer, final: seq<Candidate>)
    returns (winners: seq<string>)
    requires final != [] && DistinctIds(final, CandidateId)
    requires forall k :: 0 <= k < |final| ==> FromIndex(fold, kind, idx, p, final[k])
    requires forall id :: id in Ids(final) <==> Finalist(fold, kind, idx, p, id)
    ensures winners != [] && Ascending(winners)
    ensures forall id :: id in winners <==> Winner(fold, kind, idx, p, id)
  {
    var best := LowestPriority(final);
    var lowest := AtPriority(final, best);
    LowestWins(fold, kind, idx, p, final, best);
    SortIdsAscend(lowest);
    winners := SortIds(lowest);
    ghost var k :| 0 <= k < |final| && final[k].priority == best;
    assert final[k].id in winners;
  }

  lemma LowestWins(fold: string -> string, kind: Kind, idx: Index, p: Peer, final: seq<Candidate>, best: int)
    requires forall k :: 0 <= k < |final| ==> FromIndex(fold, kind, idx, p, final[k]) && best <= final[k].priority
    requires forall id :: id in Ids(final) <==> Finalist(fold, kind, idx, p, id)
    requires exists k :: 0 <= k < |final| && final[k].priority == best
    ensures forall id :: Winner(fold, kind, idx, p, id) <==>
                         exists k :: 0 <= k < |final| && final[k].id == id && final[k].priority == best
  {
    forall id
      ensures Winner(fold, kind, idx, p, id) <==>
              exists k :: 0 <= k < |final| && final[k].id == id && final[k].priority == best
    {
      assert forall k :: 0 <= k < |final| ==> final[k].id in Ids(final);
      if Winner(fold, kind, idx, p, id) {
        assert id in Ids(final);
        var k :| 0 <= k < |final| && final[k].id == id;
        var m :| 0 <= m < |final| && final[m].priority == best;
        assert Finalist(fold, kind, idx, p, final[m].id);
      }
    }
  }
}
