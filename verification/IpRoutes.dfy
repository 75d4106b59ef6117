/** Packets built from their fields, addresses as 32-bit numbers: what is an IPv4 packet, and where each one goes. */
module IpRoutes {
  import opened Bytes
  import opened IpPacket

  /** An IPv4 packet, field by field; `before` holds identification, fragment and lifetime, `check` the header checksum. */
  datatype Ip4 = Ip4(tos: byte, before: seq<byte>, proto: byte, check: seq<byte>, src: Addr, dst: Addr,
                     options: seq<byte>, payload: seq<byte>)
  {
    predicate Ok()
    {
      |before| == 5 && |check| == 2 && |options| % 4 == 0 && |options| <= 40 && 20 + |options| + |payload| < 65536
    }

    function Bytes(): (p: seq<byte>)
      requires Ok()
    {
      [0x45 + |options| / 4, tos] + Bytes2(20 + |options| + |payload|) + before + [proto] + check + src + dst + options + payload
    }
  }

  lemma {:induction false} Head(p: Ip4)
    requires p.Ok()
    ensures var b := p.Bytes();
            && |b| == 20 + |p.options| + |p.payload| && b[0] == 0x45 + |p.options| / 4
            && b[2] == |b| / 256 && b[3] == |b| % 256 && b[9] == p.proto
            && b[12..16] == p.src && b[16..20] == p.dst && b[20 + |p.options|..] == p.payload
  {
    var b, n := p.Bytes(), 20 + |p.options| + |p.payload|;
    var h := [0x45 + |p.options| / 4, p.tos] + Bytes2(n) + p.before + [p.proto] + p.check;
    assert |h| == 12 && b == h + (p.src + p.dst + p.options + p.payload);
    assert b == (h + p.src) + (p.dst + p.options + p.payload);
    assert b == (h + p.src + p.dst + p.options) + p.payload;
  }

  lemma {:induction false} FirstByte(n: nat)
    requires n % 4 == 0 && n <= 40
    ensures (0x45 + n / 4) / 16 == 4 && (0x45 + n / 4) % 16 * 4 == 20 + n
  {
  }

  /** A built packet is recognised, with its addresses. */
  lemma {:induction false} BuiltIsIpv4(p: Ip4)
    requires p.Ok()
    ensures var b := p.Bytes();
            && Ipv4Ok(b) && Source(b) == p.src && Destination(b) == p.dst && b[9] == p.proto && Ihl(b) == 20 + |p.options|
            && Destination(b) == b[16..20]
  {
    Head(p);
    FirstByte(|p.options|);
    hide Ip4.Bytes;
  }

  /** And nothing else is: whatever is taken for an IPv4 packet can be built. */
  lemma {:induction false} Ipv4IsBuilt(b: seq<byte>) returns (p: Ip4)
    requires Ipv4Ok(b)
    ensures p.Ok() && p.Bytes() == b
  {
    var t := Ihl(b);
    p := Ip4(b[1], b[4..9], b[9], b[10..12], b[12..16], b[16..20], b[20..t], b[t..]);
    assert |p.options| == t - 20 && t % 4 == 0 && t <= 60;
    FirstByte(t - 20);
    assert b[0] == 0x40 + t / 4;
    assert Bytes2(|b|) == [b[2], b[3]];
    Whole(b, t);
  }

  lemma {:induction false} Whole(b: seq<byte>, t: nat)
    requires 20 <= t <= |b|
    ensures [b[0], b[1]] + [b[2], b[3]] + b[4..9] + [b[9]] + b[10..12] + b[12..16] + b[16..20] + b[20..t] + b[t..] == b
  {
  }

  // ----- addresses as numbers --------------------------------------------------------------------------

  function Number(a: Addr): (n: nat)
    ensures n < 0x1_0000_0000
  {
    a[0] as nat * 0x1000000 + a[1] as nat * 0x10000 + a[2] as nat * 0x100 + a[3] as nat
  }

  /** The address lies in the block of this size that starts there. */
  predicate Within(a: Addr, start: nat, size: nat) { start <= Number(a) < start + size }

  /**
   * What goes to a gateway: everything but the blocks 0/8, 10/8, 100.64/10, 127/8, 169.254/16,
   * 172.16/12, 192.168/16 and all from 224.0.0.0 on.
   */
  lemma {:induction false} PublicMeans(a: Addr)
    ensures PublicUnicast(a) <==>
            && !Within(a, 0, 0x1000000) && !Within(a, 0x0A000000, 0x1000000) && !Within(a, 0x64400000, 0x400000)
            && !Within(a, 0x7F000000, 0x1000000) && !Within(a, 0xA9FE0000, 0x10000) && !Within(a, 0xAC100000, 0x100000)
            && !Within(a, 0xC0A80000, 0x10000) && Number(a) < 0xE0000000
  {
    assert a[1] / 64 == 1 <==> 64 <= a[1] < 128;
  }

  /** Node addresses are those of 10.73/16 whose last two octets are neither 0 nor 255; both broadcasts name everyone. */
  lemma {:induction false} NodeMeans(a: Addr)
    ensures var host := Number(a) - 0x0A490000;
            && (NodeAddr(a) <==> 0 <= host < 65536 && host / 256 !in {0, 255} && host % 256 !in {0, 255})
            && IpToNode(a) == (if host == 65535 || Number(a) == 0xFFFFFFFF then 65535
                               else if NodeAddr(a) then host else 0)
  {
    Octets(a[2], a[3]);
    var host := Number(a) - 0x0A490000;
    assert a == [a[0], a[1], a[2], a[3]];
    if a[0] == 10 && a[1] == 73 { assert host == a[2] as nat * 256 + a[3] as nat; }
  }

  lemma {:induction false} Octets(x: byte, y: byte)
    ensures (x as nat * 256 + y as nat) / 256 == x && (x as nat * 256 + y as nat) % 256 == y
  {
  }

  /** A MAC's octets name the node unless they are 0 or 255, which move by one. */
  lemma {:induction false} NodeIdMeans(mac4: byte, mac5: byte)
    ensures mac4 !in {0, 255} && mac5 !in {0, 255} ==> NodeId(mac4, mac5) == mac4 as nat * 256 + mac5 as nat
    ensures NodeId(0, 255) == 0x01FE && NodeId(255, 0) == 0xFE01
  {
  }

  // ----- where a packet goes -----------------------------------------------------------------------------

  /** What the PC does with a packet from its adapter, by the packet's fields. */
  lemma {:induction false} DropReasonMeans(p: Ip4, self: Addr)
    requires p.Ok()
    ensures var host := Number(p.dst) - 0x0A490000;
            DropReason(p.Bytes(), self) ==
            if host < 0 || host >= 65536 then OutsideNetwork
            else if !NodeAddr(p.dst) then BroadcastAddr
            else if p.dst == self then ToSelf
            else if 20 + |p.options| + |p.payload| > 247 then TooBig
            else SendIt
  {
    BuiltIsIpv4(p);
    Head(p);
    FirstByte(|p.options|);
    NodeMeans(p.dst);
    hide Ip4.Bytes, Ipv4Ok, NodeAddr, Ihl;
    var a := p.dst;
    assert (a[0] == 10 && a[1] == 73) <==> 0 <= Number(a) - 0x0A490000 < 65536;
    DropReasonIs(p.Bytes(), self);
  }

  lemma {:induction false} DropReasonIs(b: seq<byte>, self: Addr)
    requires Ipv4Ok(b) && b[0] / 16 == 4
    ensures var d := Destination(b);
            DropReason(b, self) ==
            if !(d[0] == 10 && d[1] == 73) then OutsideNetwork
            else if !NodeAddr(d) then BroadcastAddr
            else if d == self then ToSelf
            else if |b| > 247 then TooBig else SendIt
  {
  }

  /** What is no IPv4 packet is dropped, and the log tells IPv6 from the rest. */
  lemma {:induction false} OtherDropped(b: seq<byte>, self: Addr, gw: Option<Addr>)
    requires !Ipv4Ok(b)
    ensures DropReason(b, self) == (if b == [] || 0x60 <= b[0] < 0x70 then Ipv6 else NotIpv4)
    ensures Classify(b, self, gw) == Drop
  {
    hide Ipv4Ok;
  }

  /** The three ways: to a node, to a gateway if there is one and the address is public, or nowhere. */
  lemma {:induction false} ClassifyMeans(p: Ip4, self: Addr, gw: Option<Addr>)
    requires p.Ok()
    ensures var fits := 20 + |p.options| + |p.payload| <= 247;
            && (Classify(p.Bytes(), self, gw) == Direct <==> fits && NodeAddr(p.dst) && p.dst != self)
            && (Classify(p.Bytes(), self, gw) == ViaGateway <==> fits && gw.Some? && PublicUnicast(p.dst))
  {
    DropReasonMeans(p, self);
    BuiltIsIpv4(p);
    Head(p);
    PublicMeans(p.dst);
    NodeMeans(p.dst);
    hide Ip4.Bytes, Ipv4Ok, NodeAddr, Ihl, PublicUnicast, DropReason;
  }

  // ----- frames that carry packets --------------------------------------------------------------------------

  /** The send-to frame is taken exactly for a node's id and an IPv4 packet. */
  lemma {:induction false} SendToMeans(node: nat, p: seq<byte>)
    requires node < 65536
    ensures ParseSendTo([0, 3] + Bytes2(node) + p) == if 0 < node < 65535 && Ipv4Ok(p) then Some((node, p)) else None
  {
    var f := [0, 3] + Bytes2(node) + p;
    assert f[4..] == p;
    hide Ipv4Ok;
  }

  lemma {:induction false} OtherFrames(f: seq<byte>)
    ensures ParseSendTo(f).Some? ==> |f| >= 4 && f == [0, 3] + Bytes2(ParseSendTo(f).value.0) + ParseSendTo(f).value.1
  {
    hide Ipv4Ok;
    if ParseSendTo(f).Some? { assert Bytes2(Word(f, 2)) == [f[2], f[3]]; }
  }

  /** A network payload is taken exactly with a node's id as source, some destination, and an IPv4 packet. */
  lemma {:induction false} NetMeans(dst: nat, src: nat, ip: seq<byte>)
    requires dst < 65536 && src < 65536
    ensures NetParse(Bytes2(dst) + Bytes2(src) + ip) ==
            if 0 < dst && 0 < src < 65535 && Ipv4Ok(ip) then Some(NetFrame(dst, src, ip)) else None
    ensures NetBuild(dst, src, ip) == if 0 < |ip| < 248 then Some(Bytes2(dst) + Bytes2(src) + ip) else None
  {
    var f := Bytes2(dst) + Bytes2(src) + ip;
    assert f[4..] == ip;
    assert f[0] == Bytes2(dst)[0] && f[1] == Bytes2(dst)[1] && f[2] == Bytes2(src)[0] && f[3] == Bytes2(src)[1];
    if ip != [] { hide Ipv4Ok; }
  }

  lemma {:induction false} ShortPayload(f: seq<byte>)
    ensures |f| <= 4 ==> NetParse(f) == None
  {
  }

  /** A beacon is a UDP packet to port 47330 that says exactly "VOYAGER-GW/1", from a node's address, without IP options. */
  lemma {:induction false} BeaconMeans(p: Ip4, port: nat, from: nat, rest: seq<byte>, text: seq<byte>)
    requires p.Ok() && port < 65536 && from < 65536 && |rest| == 4 && p.payload == Bytes2(from) + Bytes2(port) + rest + text
    ensures ParseBeacon(p.Bytes()) ==
            if p.proto == 17 && p.options == [] && port == 47330 && NodeAddr(p.src)
               && text == [0x56, 0x4F, 0x59, 0x41, 0x47, 0x45, 0x52, 0x2D, 0x47, 0x57, 0x2F, 0x31]
            then Some(p.src) else None
  {
    BuiltIsIpv4(p);
    Head(p);
    hide Ip4.Bytes, Ipv4Ok, NodeAddr, Ihl;
    var b := p.Bytes();
    if p.options == [] {
      assert b[20..] == p.payload;
      assert b[22] == p.payload[2] && b[23] == p.payload[3] && b[28..] == p.payload[8..] == text;
    }
  }

  /**
   * The beacon a gateway sends: a UDP datagram of 20 bytes with lifetime 1, from its own address
   * and port 47330 to everyone's, without a UDP checksum, saying who it is.
   */
  lemma {:induction false} BeaconIsBuilt(self: Addr) returns (p: Ip4)
    ensures p.Ok() && p.Bytes() == Beacon(self)
    ensures p == Ip4(0, [0, 0, 0, 0, 1], 17, p.check, self, [10, 73, 255, 255], [],
                     Bytes2(47330) + Bytes2(47330) + Bytes2(20) + [0, 0]
                     + [0x56, 0x4F, 0x59, 0x41, 0x47, 0x45, 0x52, 0x2D, 0x47, 0x57, 0x2F, 0x31])
  {
    hide IpChecksum, BeaconHeader, Ip4.Bytes, Bytes2;
    var ck := IpChecksum(BeaconHeader(self, 0));
    p := Ip4(0, [0, 0, 0, 0, 1], 17, Bytes2(ck), self, [10, 73, 255, 255], [],
             Bytes2(47330) + Bytes2(47330) + Bytes2(20) + [0, 0] + MAGIC);
    NoOptions(p);
    HeaderIs(self, ck);
    PayloadFollows(BeaconHeader(self, ck), Bytes2(47330), MAGIC);
  }

  lemma {:induction false} NoOptions(p: Ip4)
    requires p.Ok() && p.options == []
    ensures p.Bytes() == [0x45, p.tos] + Bytes2(20 + |p.payload|) + p.before + [p.proto] + p.check + p.src + p.dst + p.payload
  {
    hide Bytes2;
    var h := [0x45, p.tos] + Bytes2(20 + |p.payload|) + p.before + [p.proto] + p.check + p.src + p.dst;
    assert h + [] == h;
  }

  lemma {:induction false} PayloadFollows(h: seq<byte>, port: seq<byte>, text: seq<byte>)
    ensures h + (port + port + Bytes2(20) + [0, 0] + text) == h + port + port + [0, 20, 0, 0] + text
  {
    assert Bytes2(20) == [0, 20];
  }

  lemma {:induction false} HeaderIs(self: Addr, ck: nat)
    requires ck < 65536
    ensures BeaconHeader(self, ck) ==
            [0x45, 0] + Bytes2(40) + [0, 0, 0, 0, 1] + [17] + Bytes2(ck) + self + [10, 73, 255, 255]
  {
    assert Bytes2(40) == [0, 40];
  }
}
