/** One IP packet's way from a PC through two boards to another PC. */
module NetPath {
  import opened Bytes
  import opened ClampMss
  import opened IpPacket
  import opened LoraDedup
  import opened LoraFrame
  import opened LoraRx
  import Slip

  /** The decoder capacity on both ends of the USB cable, and the PC's MSS limit. */
  const USB_MAX: nat := 600
  const CLAMP_MSS: nat := 190

  // ----- the PC -----------------------------------------------------------------------------

  /** The frame a PC puts on the cable for a packet from its adapter. */
  function Outbound(p: seq<byte>, self: Addr, gw: Option<Addr>): Option<seq<byte>>
  {
    match Classify(p, self, gw)
    case Drop => None
    case Direct => Some(Clamp(p, CLAMP_MSS))
    case ViaGateway => Some(SendToFrame(NodeOf(gw.value), Clamp(p, CLAMP_MSS)))
  }

  datatype Inward = ToAdapter(p: seq<byte>) | Inject(p: seq<byte>) | Gateway(a: Addr) | Alive | Busy | Discard

  /** What a PC does with a frame from its board; sharing says whether it is a gateway. */
  function Inbound(f: seq<byte>, sharing: bool): Inward
  {
    if |f| == 2 && f[0] == 0 && f[1] == 0x81 then Alive
    else if |f| == 3 && f[0] == 0 && f[1] == 0x82 then Busy
    else if !Ipv4Ok(f) then Discard
    else
      match ParseBeacon(f)
      case Some(a) => Gateway(a)
      case None =>
        if f[16] != PREFIX_A || f[17] != PREFIX_B then (if sharing then Inject(f) else Discard)
        else ToAdapter(Clamp(f, CLAMP_MSS))
  }

  // ----- the board ------------------------------------------------------------------------------

  datatype BoardAct = Leave | AliveReply | Radio(payload: seq<byte>) | DropPacket | Ignored

  /** A non-empty USB frame at the board with node id me. */
  function HandleUsb(f: seq<byte>, me: nat): BoardAct
    requires f != [] && me < 65536
  {
    if f[0] == 0 then
      if |f| >= 2 && f[1] == 2 then Leave
      else if |f| >= 2 && f[1] == 1 then AliveReply
      else
        match ParseSendTo(f)
        case None => Ignored
        case Some(to) =>
          if |to.1| > NET_MAX_IP || to.0 == me then DropPacket else Radio(NetBuild(to.0, me, to.1).value)
    else if |f| > NET_MAX_IP || !Ipv4Ok(f) then DropPacket
    else
      var dst := IpToNode(Destination(f));
      if dst == 0 || dst == me then DropPacket else Radio(NetBuild(dst, me, f).value)
  }

  const BUSY_DEPTH: nat := 6
  const REPORT_EVERY: nat := 300
  const IDLE_TIMEOUT: nat := 30_000

  /** Milliseconds between two readings of a 32-bit clock. */
  function Elapsed(since: nat, now: nat): nat { (now - since) % 0x1_0000_0000 }

  /** The queue depth a board reports to its PC when it fills or overflows, and not too often. */
  function Congestion(dropped: bool, depth: nat, reportedAt: nat, now: nat): Option<byte>
  {
    if (dropped || depth >= BUSY_DEPTH) && Elapsed(reportedAt, now) >= REPORT_EVERY then Some(Min(depth, 255)) else None
  }

  /** The board's USB side: its decoder, whether network mode is on, its counters and clocks. */
  class NetSerial {
    const me: nat
    const dec: Slip.BoardDecoder
    var active: bool
    var tx: nat
    var rx: nat
    var drops: nat
    var heardAt: nat      // when the PC last sent a frame
    var reportedAt: nat   // when the PC was last told to slow down

    ghost predicate Valid()
      reads this, dec, dec.buf
    {
      dec.Valid() && dec.buf.Length == USB_MAX && me < 65536
    }

    constructor (me: nat)
      requires me < 65536
      ensures Valid() && fresh(dec) && fresh(dec.buf) && this.me == me && !active && dec.Abs() == Slip.IDLE
    {
      this.me := me;
      dec := new Slip.BoardDecoder(USB_MAX);
      active, tx, rx, drops, heardAt, reportedAt := false, 0, 0, 0, 0, 0;
    }

    /** Refused while the serial bridge is on or without a queue; else forgets a half-received frame. */
    method Enter(bridge: bool, queue: bool, now: nat) returns (ok: bool)
      requires Valid()
      modifies this`active, this`heardAt, dec
      ensures Valid() && ok == (!bridge && queue)
      ensures if ok then active && dec.Abs() == Slip.IDLE && heardAt == now
              else active == old(active) && dec.Abs() == old(dec.Abs()) && heardAt == old(heardAt)
    {
      if bridge || !queue { return false; }
      dec.Reset();
      heardAt := now;
      active := true;
      return true;
    }

    /** Without any frame from the PC for half a minute network mode ends. */
    method Poll(now: nat)
      modifies this`active
      ensures active == (old(active) && Elapsed(heardAt, now) <= IDLE_TIMEOUT)
    {
      if active && Elapsed(heardAt, now) > IDLE_TIMEOUT { active := false; }
    }

    /** room: whether the radio's send queue takes the packet, depth: how full it then is. */
    method HandleFrame(f: seq<byte>, room: bool, depth: nat, now: nat) returns (act: BoardAct, busy: Option<byte>)
      requires f != [] && me < 65536
      modifies this`active, this`tx, this`drops, this`heardAt, this`reportedAt
      ensures var want := HandleUsb(f, me);
              && act == (if want.Radio? && !room then DropPacket else want)
              && busy == (if want.Radio? then Congestion(!room, depth, old(reportedAt), now) else None)
      ensures active == (old(active) && !act.Leave?) && heardAt == now
      ensures tx == old(tx) + (if act.Radio? then 1 else 0) && drops == old(drops) + (if act.DropPacket? then 1 else 0)
      ensures reportedAt == if busy.Some? then now else old(reportedAt)
    {
      hide Word;
      heardAt, busy := now, None;
      if f[0] == 0 {
        if |f| >= 2 && f[1] == 2 { active := false; return Leave, None; }
        if |f| >= 2 && f[1] == 1 { return AliveReply, None; }
        var to := ParseSendTo(f);
        if to.None? { return Ignored, None; }
        var (node, ip) := to.value;
        if |ip| > NET_MAX_IP || node == me { drops := drops + 1; return DropPacket, None; }
        act, busy := Send(node, ip, room, depth, now);
        return;
      }
      if |f| > NET_MAX_IP || !Ipv4Ok(f) { drops := drops + 1; return DropPacket, None; }
      var dst := IpToNode(Destination(f));
      if dst == 0 || dst == me { drops := drops + 1; return DropPacket, None; }
      act, busy := Send(dst, f, room, depth, now);
    }

    method Send(dst: nat, ip: seq<byte>, room: bool, depth: nat, now: nat) returns (act: BoardAct, busy: Option<byte>)
      requires dst < 65536 && me < 65536 && 0 < |ip| <= NET_MAX_IP
      modifies this`tx, this`drops, this`reportedAt
      ensures act == if room then Radio(NetBuild(dst, me, ip).value) else DropPacket
      ensures tx == old(tx) + (if room then 1 else 0) && drops == old(drops) + (if room then 0 else 1)
      ensures busy == Congestion(!room, depth, old(reportedAt), now)
      ensures reportedAt == if busy.Some? then now else old(reportedAt)
    {
      if room {
        tx := tx + 1;
        act := Radio(NetBuild(dst, me, ip).value);
      } else {
        drops := drops + 1;
        act := DropPacket;
      }
      busy := MaybeReport(!room, depth, now);
    }

    method MaybeReport(dropped: bool, depth: nat, now: nat) returns (busy: Option<byte>)
      modifies this`reportedAt
      ensures busy == Congestion(dropped, depth, old(reportedAt), now)
      ensures reportedAt == if busy.Some? then now else old(reportedAt)
    {
      if !dropped && depth < BUSY_DEPTH { return None; }
      if Elapsed(reportedAt, now) < REPORT_EVERY { return None; }
      reportedAt := now;
      return Some(if depth > 255 then 255 else depth);
    }

    /** One USB byte: acts on the frame it completes, if any. */
    method Feed(b: byte, room: bool, depth: nat, now: nat) returns (act: Option<BoardAct>, busy: Option<byte>)
      requires Valid()
      modifies this, dec, dec.buf
      ensures Valid() && dec.Abs() == Slip.Step(old(dec.Abs()), b, USB_MAX)
      ensures var fs := Slip.Emitted(old(dec.Abs()), b);
              if fs == [] then act == None && busy == None && active == old(active) && heardAt == old(heardAt)
              else var want := HandleUsb(fs[0], me);
                   && act == Some(if want.Radio? && !room then DropPacket else want)
                   && busy == (if want.Radio? then Congestion(!room, depth, old(reportedAt), now) else None)
                   && active == (old(active) && !want.Leave?) && heardAt == now
    {
      hide HandleUsb;
      ghost var before := dec.Abs();
      var n := dec.Feed(b);
      if n == 0 { return None, None; }
      assert Slip.Emitted(before, b) == [dec.buf[..n]];
      var a;
      a, busy := HandleFrame(dec.buf[..n], room, depth, now);
      act := Some(a);
    }

    /** A packet heard on the radio; room: whether the writer's queue takes it. */
    method Deliver(ip: seq<byte>, room: bool) returns (ok: bool)
      modifies this`rx, this`drops
      ensures ok == (active && room && |ip| <= NET_MAX_IP)
      ensures rx == old(rx) + (if ok then 1 else 0)
      ensures drops == old(drops) + (if active && |ip| <= NET_MAX_IP && !room then 1 else 0)
    {
      if !active || |ip| > NET_MAX_IP { return false; }
      if !room { drops := drops + 1; return false; }
      rx := rx + 1;
      return true;
    }

    /** The writer's buffer always holds the encoding. */
    method Write(ip: seq<byte>) returns (usb: seq<byte>)
      requires |ip| <= NET_MAX_IP
      ensures usb == if active then Slip.Encode(ip) else []
    {
      if !active { return []; }
      var enc := new byte[2 * NET_MAX_IP + 2];
      var n := Slip.EncodeInto(ip, enc, enc.Length);
      usb := enc[..n];
    }
  }

  // ----- end to end ---------------------------------------------------------------------------------

  /** What clamping keeps of a packet that fits one LoRa frame. */
  lemma {:induction false} ClampedFacts(p: seq<byte>)
    requires Ipv4Ok(p)
    ensures var q := Clamp(p, CLAMP_MSS);
            && Ipv4Ok(q) && |q| == |p| && q[0] == p[0] && q[0] != 0
            && Source(q) == Source(p) && Destination(q) == Destination(p)
            && Clamp(q, CLAMP_MSS) == q && ParseBeacon(q) == ParseBeacon(p)
  {
    ClampKeepsRoute(p, CLAMP_MSS);
    var q := Clamp(p, CLAMP_MSS);
    assert q[0] == q[..20][0] && p[0] == p[..20][0];
    assert q[12..16] == q[..20][12..16] && p[12..16] == p[..20][12..16];
    assert q[16..20] == q[..20][16..20] && p[16..20] == p[..20][16..20];
    if p[9] == 17 {
      hide ParseBeacon;
      ClampIdle(p, CLAMP_MSS);
    } else {
      assert q[9] == q[..20][9] && p[9] == p[..20][9];
    }
  }

  lemma {:induction false} DirectFacts(p: seq<byte>, self: Addr, gw: Option<Addr>)
    requires NodeAddr(self) && Classify(p, self, gw) == Direct
    ensures Ipv4Ok(p) && |p| <= NET_MAX_IP && NodeAddr(Destination(p))
    ensures var dst := NodeOf(Destination(p));
            && IpToNode(Destination(p)) == dst && 0 < dst < BROADCAST
            && 0 < NodeOf(self) < BROADCAST && dst != NodeOf(self)
  {
    NodesAndAddresses(0, 0, self);
    NodesAndAddresses(0, 0, Destination(p));
  }

  /** The same packet over one USB cable, whatever the decoder was in the middle of. */
  lemma {:induction false} CableCarries(d: Slip.State, f: seq<byte>)
    requires 0 < |f| <= USB_MAX
    ensures Slip.FeedState(d, Slip.Encode(f), USB_MAX) == Slip.IDLE
    ensures Slip.Frames(d, Slip.Encode(f), USB_MAX) == Slip.Pending(d) + [f]
  {
    Slip.EncodingDecodes(d, f, USB_MAX);
  }

  /**
   * A packet classified as direct, from any decoder and receiver states: on the cable it is
   * the clamped packet; its board sends it to the node its last two octets name; that board
   * alone takes it, exactly when it is in network mode, has room and does not take it for a
   * repeat; and its PC puts the same bytes on its adapter, unless they look like a beacon.
   */
  lemma {:induction false} DirectPacketArrives(p: seq<byte>, self: Addr, gw: Option<Addr>, me: Me, t: Table, n: byte,
                                               room: bool, usb0: Slip.State, usb1: Slip.State, sharing: bool)
    requires NodeAddr(self) && Classify(p, self, gw) == Direct && t.Valid()
    ensures var q, src, dst := Clamp(p, CLAMP_MSS), NodeOf(self), NodeOf(Destination(p));
            var payload := NetPayload(dst, src, q);
            && Outbound(p, self, gw) == Some(q) && q != []
            && Slip.Frames(usb0, Slip.Encode(q), USB_MAX) == Slip.Pending(usb0) + [q]
            && HandleUsb(q, src) == Radio(payload) && |payload| <= MAX_PAYLOAD
            && var o := LoraRx.HandleFrame(me, t, Frame(T_NET, n, payload), room);
               && (o.got == Packet(q) <==> me.node == dst && me.active && room && !IsDuplicate(t, NetKey(src), n))
               && (o.got != Packet(q) ==> o.got == Nothing && o.table == t)
               && Slip.Frames(usb1, Slip.Encode(q), USB_MAX) == Slip.Pending(usb1) + [q]
               && Inbound(q, sharing) == (if ParseBeacon(p).Some? then Gateway(ParseBeacon(p).value) else ToAdapter(q))
  {
    hide IsDuplicate, Clamp, ParseBeacon, LoraRx.HandleFrame, Ipv4Ok, Frame;
    DirectFacts(p, self, gw);
    ClampedFacts(p);
    var q, src, dst := Clamp(p, CLAMP_MSS), NodeOf(self), NodeOf(Destination(p));
    assert Destination(q)[0] == q[16] && Destination(q)[1] == q[17];
    CableCarries(usb0, q);
    CableCarries(usb1, q);
    UnicastReachesOnlyItsNode(me, t, n, dst, src, q, room);
  }

  /** A packet for the internet goes to the chosen gateway's board alone, and into its PC's shared connection. */
  lemma {:induction false} GatewayPacketArrives(p: seq<byte>, self: Addr, gw: Addr, me: Me, t: Table, n: byte,
                                                room: bool, usb0: Slip.State, sharing: bool)
    requires NodeAddr(self) && NodeAddr(gw) && gw != self && Classify(p, self, Some(gw)) == ViaGateway && t.Valid()
    ensures var q, src, dst := Clamp(p, CLAMP_MSS), NodeOf(self), NodeOf(gw);
            var payload, f := NetPayload(dst, src, q), SendToFrame(NodeOf(gw), q);
            && Outbound(p, self, Some(gw)) == Some(f)
            && Slip.Frames(usb0, Slip.Encode(f), USB_MAX) == Slip.Pending(usb0) + [f]
            && HandleUsb(f, src) == Radio(payload) && |payload| <= MAX_PAYLOAD
            && var o := LoraRx.HandleFrame(me, t, Frame(T_NET, n, payload), room);
               && (o.got == Packet(q) <==> me.node == dst && me.active && room && !IsDuplicate(t, NetKey(src), n))
               && (o.got != Packet(q) ==> o.got == Nothing && o.table == t)
               && Inbound(q, sharing) == (if ParseBeacon(p).Some? then Gateway(ParseBeacon(p).value)
                                          else if sharing then Inject(q) else Discard)
  {
    hide IsDuplicate, Clamp, ParseBeacon, LoraRx.HandleFrame, Ipv4Ok, Frame;
    GatewayFacts(p, self, gw);
    ClampedFacts(p);
    var q, src, dst := Clamp(p, CLAMP_MSS), NodeOf(self), NodeOf(gw);
    assert Destination(q)[0] == q[16];
    SendToRoundTrip(dst, q);
    CableCarries(usb0, SendToFrame(dst, q));
    UnicastReachesOnlyItsNode(me, t, n, dst, src, q, room);
  }

  lemma {:induction false} GatewayFacts(p: seq<byte>, self: Addr, gw: Addr)
    requires NodeAddr(self) && NodeAddr(gw) && Classify(p, self, Some(gw)) == ViaGateway
    ensures Ipv4Ok(p) && |p| <= NET_MAX_IP && Destination(p)[0] != PREFIX_A
    ensures 0 < NodeOf(gw) < BROADCAST && 0 < NodeOf(self) < BROADCAST
    ensures gw != self ==> NodeOf(gw) != NodeOf(self)
  {
    NodesAndAddresses(0, 0, self);
    NodesAndAddresses(0, 0, gw);
  }

  /** The board's control frames as the PC reads them; the rest of "00 ..." is no packet and is dropped. */
  lemma {:induction false} ControlFrames(f: seq<byte>, sharing: bool, depth: byte)
    ensures Inbound([0, 0x81], sharing) == Alive && Inbound([0, 0x82, depth], sharing) == Busy
    ensures Inbound(f, sharing) == Alive ==> f == [0, 0x81]
    ensures Inbound(f, sharing) == Busy ==> |f| == 3 && f == [0, 0x82, f[2]]
    ensures f != [] && f[0] == 0 && Inbound(f, sharing) != Alive && Inbound(f, sharing) != Busy ==>
              Inbound(f, sharing) == Discard
  {
    hide ParseBeacon, Clamp;
  }

  /** Any other frame: dropped unless it is an IPv4 packet; a beacon names its gateway; the rest goes by its destination. */
  lemma {:induction false} InboundMeans(f: seq<byte>, sharing: bool)
    requires Ipv4Ok(f)
    ensures Inbound(f, sharing) ==
            if ParseBeacon(f).Some? then Gateway(ParseBeacon(f).value)
            else if f[16] == 10 && f[17] == 73 then ToAdapter(Clamp(f, 190))
            else if sharing then Inject(f) else Discard
  {
    hide ParseBeacon, Clamp;
  }

  /** What a board does with a frame from its PC that is no control frame: sent to the node its destination names, if any. */
  lemma {:induction false} PacketsRouted(f: seq<byte>, me: nat)
    requires f != [] && f[0] != 0 && me < 65536
    ensures HandleUsb(f, me) ==
            if |f| < 248 && Ipv4Ok(f) && IpToNode(f[16..20]) !in {0, me}
            then Radio(NetPayload(IpToNode(f[16..20]), me, f)) else DropPacket
  {
  }

  /** And with control frames: leave, keepalive, a packet for a gateway; anything else of the kind is ignored. */
  lemma {:induction false} ControlHandled(f: seq<byte>, me: nat)
    requires f != [] && f[0] == 0 && me < 65536
    ensures |f| > 1 && f[1] == 1 ==> HandleUsb(f, me) == AliveReply
    ensures |f| > 1 && f[1] == 2 ==> HandleUsb(f, me) == Leave
    ensures |f| == 1 || f[1] !in {1, 2} ==>
              HandleUsb(f, me) ==
              match ParseSendTo(f)
              case None => Ignored
              case Some(to) => if |to.1| < 248 && to.0 != me then Radio(NetPayload(to.0, me, to.1)) else DropPacket
  {
  }

  /** A queue of six or more, or a lost packet, is reported unless less than 300 ms went by, also when the clock wraps. */
  lemma {:induction false} CongestionMeans(dropped: bool, depth: nat, since: nat, d: nat)
    requires since < 0x1_0000_0000 && d < 0x1_0000_0000
    ensures Congestion(dropped, depth, since, (since + d) % 0x1_0000_0000) ==
            if (dropped || depth > 5) && d > 299 then Some(if depth < 256 then depth else 255) else None
  {
    Gone(since, d);
    hide Elapsed;
  }

  lemma {:induction false} Gone(since: nat, d: nat)
    requires since < 0x1_0000_0000 && d < 0x1_0000_0000
    ensures Elapsed(since, (since + d) % 0x1_0000_0000) == d
  {
    if since + d < 0x1_0000_0000 {
      assert (since + d) % 0x1_0000_0000 == since + d;
    } else {
      assert (since + d) % 0x1_0000_0000 == since + d - 0x1_0000_0000;
    }
  }
}
