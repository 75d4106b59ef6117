/** IPv4 packets on the LoRa network: checks, routing, gateway beacons. */
module IpPacket {
  import opened Bytes

  const PREFIX_A: byte := 10
  const PREFIX_B: byte := 73
  const NET_HDR: nat := 4
  const NET_MAX_IP: nat := 247
  const BROADCAST: nat := 0xFFFF

  type Addr = a: seq<byte> | |a| == 4 witness [0, 0, 0, 0]

  function Word(p: seq<byte>, i: nat): (w: nat)
    requires i + 1 < |p|
    ensures w < 65536
  {
    p[i] as nat * 256 + p[i + 1] as nat
  }

  function Bytes2(w: nat): (s: seq<byte>)
    requires w < 65536
    ensures |s| == 2 && s[0] as nat * 256 + s[1] as nat == w
  {
    [w / 256, w % 256]
  }

  /** Header length in bytes. */
  function Ihl(p: seq<byte>): nat
    requires p != []
  {
    (p[0] % 16) * 4
  }

  /** Version 4, a sane header length, and a total length equal to the packet's. */
  predicate Ipv4Ok(p: seq<byte>)
  {
    |p| >= 20 && p[0] / 16 == 4 && 20 <= Ihl(p) <= Word(p, 2) == |p|
  }

  function Source(p: seq<byte>): Addr
    requires |p| >= 20
  {
    p[12..16]
  }

  function Destination(p: seq<byte>): Addr
    requires |p| >= 20
  {
    p[16..20]
  }

  // ----- addresses and nodes ---------------------------------------------------------------

  predicate HostOctet(b: byte) { b != 0 && b != 255 }

  /** An address that names one board. */
  predicate NodeAddr(a: Addr) { a[0] == PREFIX_A && a[1] == PREFIX_B && HostOctet(a[2]) && HostOctet(a[3]) }

  function NodeOf(a: Addr): (n: nat)
    ensures n < 65536
  {
    a[2] as nat * 256 + a[3] as nat
  }

  /** The board a destination names; 0 for none. */
  function IpToNode(a: Addr): (n: nat)
    ensures n < 65536
  {
    if a == [255, 255, 255, 255] then BROADCAST
    else if a[0] != PREFIX_A || a[1] != PREFIX_B then 0
    else if a[2] == 255 && a[3] == 255 then BROADCAST
    else if !HostOctet(a[2]) || !HostOctet(a[3]) then 0
    else a[2] as nat * 256 + a[3] as nat
  }

  function FixOctet(b: byte): (r: byte)
    ensures HostOctet(r)
  {
    if b == 0 then 1 else if b == 255 then 254 else b
  }

  /** The id a board derives from the last two bytes of its MAC. */
  function NodeId(mac4: byte, mac5: byte): nat { FixOctet(mac4) as nat * 256 + FixOctet(mac5) as nat }

  predicate IsNodeId(n: nat) { n < 65536 && HostOctet(n / 256) && HostOctet(n % 256) }

  function AddrOf(node: nat): Addr
    requires node < 65536
  {
    [PREFIX_A, PREFIX_B, node / 256, node % 256]
  }

  /** Node ids and node addresses name each other, and routing follows the address. */
  lemma {:induction false} NodesAndAddresses(mac4: byte, mac5: byte, a: Addr)
    ensures IsNodeId(NodeId(mac4, mac5)) && NodeId(mac4, mac5) != BROADCAST && NodeId(mac4, mac5) != 0
    ensures NodeAddr(a) ==> IsNodeId(NodeOf(a)) && AddrOf(NodeOf(a)) == a && IpToNode(a) == NodeOf(a)
    ensures IsNodeId(IpToNode(a)) <==> NodeAddr(a)
  {
    var x, y := FixOctet(mac4) as nat, FixOctet(mac5) as nat;
    assert (x * 256 + y) / 256 == x && (x * 256 + y) % 256 == y;
    assert (a[2] as nat * 256 + a[3] as nat) / 256 == a[2] && (a[2] as nat * 256 + a[3] as nat) % 256 == a[3];
    if NodeAddr(a) { assert a == [a[0], a[1], a[2], a[3]]; }
  }

  // ----- what the PC sends --------------------------------------------------------------------

  datatype Verdict = SendIt | Ipv6 | NotIpv4 | OutsideNetwork | BroadcastAddr | ToSelf | TooBig

  function DropReason(p: seq<byte>, self: Addr): Verdict
  {
    if p == [] || p[0] / 16 == 6 then Ipv6
    else if !Ipv4Ok(p) then NotIpv4
    else
      var d := Destination(p);
      if d[0] != PREFIX_A || d[1] != PREFIX_B then OutsideNetwork
      else if !HostOctet(d[2]) || !HostOctet(d[3]) then BroadcastAddr
      else if d == self then ToSelf
      else if |p| > NET_MAX_IP then TooBig
      else SendIt
  }

  /** Global unicast and in no private, loopback, link-local, carrier-grade or reserved range. */
  predicate PublicUnicast(a: Addr)
  {
    && a[0] != 0 && a[0] < 224 && a[0] != 127 && !(a[0] == 169 && a[1] == 254)
    && a[0] != 10 && !(a[0] == 172 && 16 <= a[1] < 32) && !(a[0] == 192 && a[1] == 168)
    && !(a[0] == 100 && a[1] / 64 == 1)
  }

  datatype Route = Drop | Direct | ViaGateway

  function Classify(p: seq<byte>, self: Addr, gw: Option<Addr>): Route
  {
    var why := DropReason(p, self);
    if why.SendIt? then Direct
    else if why.OutsideNetwork? && gw.Some? && PublicUnicast(Destination(p)) && |p| <= NET_MAX_IP then ViaGateway
    else Drop
  }

  /** The control frame that sends a packet to a node whatever its destination. */
  function SendToFrame(node: nat, p: seq<byte>): seq<byte>
    requires node < 65536
  {
    [0, 3] + Bytes2(node) + p
  }

  function ParseSendTo(f: seq<byte>): Option<(nat, seq<byte>)>
  {
    if |f| < 4 || f[0] != 0 || f[1] != 3 then None
    else
      var node := Word(f, 2);
      if node == 0 || node == BROADCAST || !Ipv4Ok(f[4..]) then None else Some((node, f[4..]))
  }

  lemma {:induction false} SendToRoundTrip(node: nat, p: seq<byte>)
    requires node < 65536 && Ipv4Ok(p)
    ensures ParseSendTo(SendToFrame(node, p)) == if node == 0 || node == BROADCAST then None else Some((node, p))
  {
    assert SendToFrame(node, p)[4..] == p;
  }

  // ----- T_NET payloads ---------------------------------------------------------------------------

  /** What NetBuild writes for a packet that fits. */
  function NetPayload(dst: nat, src: nat, ip: seq<byte>): seq<byte>
    requires dst < 65536 && src < 65536
  {
    Bytes2(dst) + Bytes2(src) + ip
  }

  function NetBuild(dst: nat, src: nat, p: seq<byte>): Option<seq<byte>>
    requires dst < 65536 && src < 65536
  {
    if p == [] || |p| > NET_MAX_IP then None else Some(NetPayload(dst, src, p))
  }

  datatype NetFrame = NetFrame(dst: nat, src: nat, ip: seq<byte>)

  function NetParse(payload: seq<byte>): (r: Option<NetFrame>)
    ensures r.Some? ==> Ipv4Ok(r.value.ip) && r.value.src != 0 && r.value.src != BROADCAST && r.value.dst != 0
    ensures r.Some? ==> r.value.src < 65536 && r.value.dst < 65536
  {
    if |payload| <= NET_HDR then None
    else
      var f := NetFrame(Word(payload, 0), Word(payload, 2), payload[NET_HDR..]);
      if f.src != 0 && f.src != BROADCAST && f.dst != 0 && Ipv4Ok(f.ip) then Some(f) else None
  }

  lemma {:induction false} NetRoundTrip(dst: nat, src: nat, p: seq<byte>)
    requires 0 < dst < 65536 && 0 < src < BROADCAST && Ipv4Ok(p) && |p| <= NET_MAX_IP
    ensures NetBuild(dst, src, p).Some? && NetParse(NetBuild(dst, src, p).value) == Some(NetFrame(dst, src, p))
  {
    var f := Bytes2(dst) + Bytes2(src) + p;
    assert f[NET_HDR..] == p;
    assert f[0] == Bytes2(dst)[0] && f[1] == Bytes2(dst)[1] && f[2] == Bytes2(src)[0] && f[3] == Bytes2(src)[1];
  }

  // ----- the one's-complement checksum (RFC 1071) ------------------------------------------------

  /** Sum of the big-endian 16-bit words; a last odd byte counts as if followed by 0. */
  function Sum16(s: seq<byte>): nat
    decreases |s|
  {
    if |s| == 0 then 0
    else if |s| == 1 then s[0] * 256
    else Word(s, 0) + Sum16(s[2..])
  }

  function Fold(sum: nat): (r: nat)
    ensures r < 65536
    ensures r % 65535 == sum % 65535
    ensures r == 0 <==> sum == 0
    decreases sum
  {
    if sum < 65536 then sum else Fold(sum % 65536 + sum / 65536)
  }

  method ComputeFold(sum0: nat) returns (sum: nat)
    ensures sum == Fold(sum0)
  {
    sum := sum0;
    while sum >= 65536
      invariant Fold(sum) == Fold(sum0)
      decreases sum
    {
      sum := sum % 65536 + sum / 65536;
    }
  }

  function Complement(w: nat): (r: nat)
    requires w < 65536
    ensures r < 65536
  {
    65535 - w
  }

  /** Over whole words: an odd byte at the end is not summed. */
  function IpChecksum(h: seq<byte>): (c: nat)
    ensures c < 65536
  {
    Complement(Fold(Sum16(h[..|h| / 2 * 2])))
  }

  lemma {:induction false} Sum16Append(s: seq<byte>, t: seq<byte>)
    requires |s| % 2 == 0
    ensures Sum16(s + t) == Sum16(s) + Sum16(t)
    decreases |s|
  {
    if s == [] {
      assert s + t == t;
    } else {
      assert (s + t)[2..] == s[2..] + t;
      Sum16Append(s[2..], t);
    }
  }

  method ComputeIpChecksum(h: seq<byte>) returns (c: nat)
    ensures c == IpChecksum(h)
  {
    var sum := 0;
    var i := 0;
    assert h[..0] == [];
    while i + 1 < |h|
      invariant 0 <= i <= |h| && i % 2 == 0 && sum == Sum16(h[..i])
    {
      sum := sum + Word(h, i);
      Sum16Append(h[..i], h[i..i + 2]);
      assert h[..i + 2] == h[..i] + h[i..i + 2];
      assert h[i..i + 2][2..] == [];
      i := i + 2;
    }
    sum := ComputeFold(sum);
    c := Complement(sum);
  }

  // ----- gateway beacons ------------------------------------------------------------------------------

  const MAGIC: seq<byte> := [86, 79, 89, 65, 71, 69, 82, 45, 71, 87, 47, 49]
  const BEACON_PORT: nat := 47330
  const BEACON_LEN: nat := 40

  /** The beacon's IP header with the given checksum. */
  function BeaconHeader(self: Addr, ck: nat): (h: seq<byte>)
    requires ck < 65536
    ensures |h| == 20
  {
    [0x45, 0, 0, 40, 0, 0, 0, 0, 1, 17] + Bytes2(ck) + self + [PREFIX_A, PREFIX_B, 255, 255]
  }

  function Beacon(self: Addr): (p: seq<byte>)
    ensures |p| == BEACON_LEN
  {
    BeaconHeader(self, IpChecksum(BeaconHeader(self, 0))) +
    Bytes2(BEACON_PORT) + Bytes2(BEACON_PORT) + [0, 20, 0, 0] + MAGIC
  }

  function ParseBeacon(p: seq<byte>): (r: Option<Addr>)
    ensures r.Some? ==> NodeAddr(r.value)
  {
    if !Ipv4Ok(p) || p[9] != 17 || Ihl(p) != 20 || |p| < 28 then None
    else if Word(p, 22) != BEACON_PORT || p[28..] != MAGIC then None
    else if NodeAddr(Source(p)) then Some(Source(p))
    else None
  }

  /** A gateway's beacon is recognised, with its address, and its header checksum is right. */
  lemma {:induction false} BeaconRoundTrip(self: Addr)
    requires NodeAddr(self)
    ensures ParseBeacon(Beacon(self)) == Some(self)
    ensures Fold(Sum16(Beacon(self)[..20])) == 65535
    ensures IpToNode(Destination(Beacon(self))) == BROADCAST
  {
    var c := IpChecksum(BeaconHeader(self, 0));
    var p, h := Beacon(self), BeaconHeader(self, c);
    BeaconBytes(self, c);
    assert p[..20] == h && p[12..16] == h[12..16] && p[16..20] == h[16..20];
    assert forall k :: 0 <= k < 20 ==> p[k] == h[k];
    assert p[28..] == MAGIC;
    assert p[22] == Bytes2(BEACON_PORT)[0] && p[23] == Bytes2(BEACON_PORT)[1];
    BeaconSum(self, c);
    BeaconSum(self, 0);
    assert BeaconHeader(self, 0)[..20] == BeaconHeader(self, 0);
    ChecksumCompletes(Sum16(BeaconHeader(self, 0)), c);
  }

  lemma {:induction false} BeaconBytes(self: Addr, ck: nat)
    requires ck < 65536
    ensures var h := BeaconHeader(self, ck);
            && h[0] == 0x45 && h[2] == 0 && h[3] == 40 && h[9] == 17
            && h[12..16] == self && h[16..20] == [PREFIX_A, PREFIX_B, 255, 255]
  {
  }

  lemma {:induction false} BeaconSum(self: Addr, ck: nat)
    requires ck < 65536
    ensures Sum16(BeaconHeader(self, ck)) == Sum16(BeaconHeader(self, 0)) + ck
  {
    var a: seq<byte> := [0x45, 0, 0, 40, 0, 0, 0, 0, 1, 17];
    var t := self + [PREFIX_A, PREFIX_B, 255, 255];
    WordSum(ck);
    WordSum(0);
    Sum16Append(a + Bytes2(ck), t);
    Sum16Append(a + Bytes2(0), t);
    Sum16Append(a, Bytes2(ck));
    Sum16Append(a, Bytes2(0));
    assert BeaconHeader(self, ck) == (a + Bytes2(ck)) + t && BeaconHeader(self, 0) == (a + Bytes2(0)) + t;
  }

  lemma {:induction false} WordSum(w: nat)
    requires w < 65536
    ensures Sum16(Bytes2(w)) == w
  {
    assert Bytes2(w)[2..] == [];
  }

  /** Writing the complement of a folded sum where there was zero makes the sum all ones. */
  lemma {:induction false} ChecksumCompletes(sum: nat, c: nat)
    requires c == Complement(Fold(sum)) && sum > 0
    ensures Fold(sum + c) == 65535
  {
    var f := Fold(sum);
    assert (sum + c) % 65535 == 0 by { CongruentSum(sum, f, c); }
    MultipleOfOnes(Fold(sum + c));
  }

  lemma {:induction false} CongruentSum(a: nat, f: nat, c: nat)
    requires f % 65535 == a % 65535 && f + c == 65535
    ensures (a + c) % 65535 == 0
  {
  }

  lemma {:induction false} MultipleOfOnes(r: nat)
    requires r < 65536 && r % 65535 == 0
    ensures r == 0 || r == 65535
  {
  }
}
