/** Any number of PCs and boards on one lossy channel: what can ever reach an adapter. */
module NetRun {
  import opened Bytes
  import opened ClampMss
  import opened IpPacket
  import opened LoraDedup
  import opened LoraFrame
  import opened LoraRx
  import opened NetPath
  import Slip

  /** A packet a PC read from its adapter, and the gateway it was using. */
  datatype Asked = Asked(self: Addr, p: seq<byte>, gw: Option<Addr>)

  /** One PC, its board, and the cable between them in both directions. */
  datatype Node = Node(
    self: Addr, sharing: bool,
    toBoard: seq<byte>, boardDec: Slip.State, active: bool, table: Table, sendq: seq<seq<byte>>,
    toPc: seq<byte>, pcDec: Slip.State,
    written: set<seq<byte>>,   // the frames the PC has put on the cable
    adapter: seq<seq<byte>>, injected: seq<seq<byte>>)

  /** Every frame ever transmitted may still be heard, by anyone, any number of times, or never. */
  datatype Sys = Sys(nodes: seq<Node>, air: set<seq<byte>>, asked: set<Asked>)

  datatype Event =
    | Offer(p: seq<byte>, gw: Option<Addr>)   // the PC reads a packet from its adapter
    | Announce                                // a gateway's beacon
    | Control(b: byte)                        // keepalive or leave
    | Share(on: bool)
    | PcText(raw: seq<byte>)                  // bytes between frames: network start, console commands
    | Enter                                   // the board starts network mode
    | UsbByte(room: bool)                     // the board reads one byte
    | UsbSkip                                 // without network mode a byte is not the decoder's
    | Transmit(n: byte)                       // the radio sends what is next
    | Hear(frame: seq<byte>, room: bool)      // the board receives a frame
    | ReportBusy(depth: byte)
    | BoardText(raw: seq<byte>)               // log lines and Improv answers between frames
    | PcByte                                  // the PC reads one byte

  const MSG_HASH: seq<byte> -> nat := _ => 1

  function MeOf(nd: Node): Me { Me(NodeOf(nd.self), nd.active, MSG_HASH) }

  /** The frames a decoder makes of a stream, the one an END would complete included. */
  function All(d: Slip.State, s: seq<byte>): seq<seq<byte>>
  {
    Slip.Frames(d, s, USB_MAX) + Slip.Pending(Slip.FeedState(d, s, USB_MAX))
  }

  /** A frame nobody wrote that the board sends nowhere. */
  predicate HarmlessUsb(f: seq<byte>, self: Addr) { f != [] && !HandleUsb(f, NodeOf(self)).Radio? }

  predicate Enabled(nd: Node, air: set<seq<byte>>, e: Event)
  {
    match e
    case Offer(_, gw) => gw.Some? ==> NodeAddr(gw.value) && gw.value != nd.self
    case Control(b) => b == 1 || b == 2
    case PcText(raw) =>
      nd.active ==> forall f :: f in All(nd.boardDec, nd.toBoard + raw) ==>
                      f in All(nd.boardDec, nd.toBoard) || HarmlessUsb(f, nd.self)
    case Enter => forall f :: f in All(Slip.IDLE, nd.toBoard) ==> f in nd.written || HarmlessUsb(f, nd.self)
    case UsbByte(_) => nd.active && nd.toBoard != []
    case UsbSkip => !nd.active && nd.toBoard != []
    case Transmit(_) => nd.sendq != [] && |nd.sendq[0]| <= MAX_PAYLOAD
    case Hear(frame, _) => frame in air && nd.table.Valid()
    case ReportBusy(depth) => depth < Slip.END && depth < Slip.ESC
    case BoardText(raw) =>
      forall f :: f in All(nd.pcDec, nd.toPc + raw) ==> f in All(nd.pcDec, nd.toPc) || !Ipv4Ok(f)
    case PcByte => nd.toPc != []
    case _ => true
  }

  function OnUsb(nd: Node, act: BoardAct, room: bool): Node
  {
    match act
    case Leave => nd.(active := false)
    case AliveReply => nd.(toPc := nd.toPc + Slip.Encode([0, 0x81]))
    case Radio(payload) => if room then nd.(sendq := nd.sendq + [payload]) else nd
    case _ => nd
  }

  function OnInward(nd: Node, i: Inward): Node
  {
    match i
    case ToAdapter(p) => nd.(adapter := nd.adapter + [p])
    case Inject(p) => nd.(injected := nd.injected + [p])
    case _ => nd
  }

  function PcWrite(nd: Node, f: seq<byte>): Node
  {
    nd.(toBoard := nd.toBoard + Slip.Encode(f), written := nd.written + {f})
  }

  function NodeStep(nd: Node, e: Event): Node
    requires (e.Transmit? ==> nd.sendq != []) && (e.Hear? ==> nd.table.Valid())
    requires (e.UsbByte? || e.UsbSkip? ==> nd.toBoard != []) && (e.PcByte? ==> nd.toPc != [])
  {
    match e
    case Offer(p, gw) =>
      var f := Outbound(p, nd.self, gw);
      if f.None? then nd else PcWrite(nd, f.value)
    case Announce => PcWrite(nd, Beacon(nd.self))
    case Control(b) => PcWrite(nd, [0, b])
    case Share(on) => nd.(sharing := on)
    case PcText(raw) => nd.(toBoard := nd.toBoard + raw)
    case Enter => nd.(active := true, boardDec := Slip.IDLE)
    case UsbSkip => nd.(toBoard := nd.toBoard[1..])
    case UsbByte(room) =>
      var b := nd.toBoard[0];
      var done := Slip.Emitted(nd.boardDec, b);
      var nd1 := nd.(toBoard := nd.toBoard[1..], boardDec := Slip.Step(nd.boardDec, b, USB_MAX));
      if done == [] then nd1 else OnUsb(nd1, HandleUsb(done[0], NodeOf(nd.self)), room)
    case Transmit(_) => nd.(sendq := nd.sendq[1..])
    case Hear(frame, room) =>
      var o := LoraRx.HandleFrame(MeOf(nd), nd.table, frame, room);
      var nd1 := nd.(table := o.table);
      if o.got.Packet? then nd1.(toPc := nd.toPc + Slip.Encode(o.got.ip)) else nd1
    case ReportBusy(depth) => nd.(toPc := nd.toPc + [Slip.END, 0, 0x82, depth, Slip.END])
    case BoardText(raw) => nd.(toPc := nd.toPc + raw)
    case PcByte =>
      var b := nd.toPc[0];
      var done := Slip.Emitted(nd.pcDec, b);
      var nd1 := nd.(toPc := nd.toPc[1..], pcDec := Slip.Step(nd.pcDec, b, USB_MAX));
      if done == [] then nd1 else OnInward(nd1, Inbound(done[0], nd.sharing))
  }

  function Step(s: Sys, i: nat, e: Event): Sys
    requires i < |s.nodes| && Enabled(s.nodes[i], s.air, e)
  {
    Sys(s.nodes[i := NodeStep(s.nodes[i], e)],
        if e.Transmit? then s.air + {Frame(T_NET, e.n, s.nodes[i].sendq[0])} else s.air,
        if e.Offer? then s.asked + {Asked(s.nodes[i].self, e.p, e.gw)} else s.asked)
  }

  predicate Fresh(nd: Node)
  {
    && NodeAddr(nd.self) && nd.toBoard == [] && nd.toPc == [] && nd.sendq == [] && nd.table == EMPTY && nd.written == {}
    && nd.boardDec == Slip.IDLE && nd.pcDec == Slip.IDLE && nd.adapter == [] && nd.injected == []
  }

  /** A run: which node does what. */
  function Run(nodes: seq<Node>, es: seq<(nat, Event)>): Option<Sys>
  {
    if es == [] then Some(Sys(nodes, {}, {}))
    else
      match Run(nodes, es[..|es| - 1])
      case None => None
      case Some(s) =>
        var (i, e) := es[|es| - 1];
        if i < |s.nodes| && Enabled(s.nodes[i], s.air, e) then Some(Step(s, i, e)) else None
  }

  // ----- what may be where --------------------------------------------------------------------

  predicate FromDirect(a: Asked, src: nat, dst: nat, ip: seq<byte>)
  {
    && NodeAddr(a.self) && NodeOf(a.self) == src && Classify(a.p, a.self, a.gw) == Direct
    && dst == NodeOf(Destination(a.p)) && ip == Clamp(a.p, CLAMP_MSS)
  }

  predicate FromGateway(a: Asked, src: nat, dst: nat, ip: seq<byte>)
  {
    && NodeAddr(a.self) && NodeOf(a.self) == src && a.gw.Some? && NodeAddr(a.gw.value) && a.gw.value != a.self
    && Classify(a.p, a.self, a.gw) == ViaGateway
    && dst == NodeOf(a.gw.value) && ip == Clamp(a.p, CLAMP_MSS)
  }

  /** A packet on its way: some PC asked for it, or it is a gateway's beacon. */
  ghost predicate Legit(asked: set<Asked>, src: nat, dst: nat, ip: seq<byte>)
  {
    || (dst == BROADCAST && exists g :: NodeAddr(g) && NodeOf(g) == src && ip == Beacon(g))
    || exists a :: a in asked && (FromDirect(a, src, dst, ip) || FromGateway(a, src, dst, ip))
  }

  ghost predicate LegitPayload(asked: set<Asked>, payload: seq<byte>)
  {
    exists src, dst, ip :: 0 < src < BROADCAST && 0 < dst < 65536 && dst != src && Ipv4Ok(ip) && |ip| <= NET_MAX_IP
                           && payload == NetPayload(dst, src, ip) && Legit(asked, src, dst, ip)
  }

  ghost predicate LegitFrame(asked: set<Asked>, f: seq<byte>)
  {
    exists n, payload :: LegitPayload(asked, payload) && |payload| <= MAX_PAYLOAD && f == Frame(T_NET, n, payload)
  }

  /** A frame from the PC to its own board. */
  ghost predicate LegitUsb(asked: set<Asked>, self: Addr, f: seq<byte>)
  {
    || f == [0, 1] || f == [0, 2] || f == Beacon(self)
    || exists p, gw :: Asked(self, p, gw) in asked && (gw.Some? ==> NodeAddr(gw.value) && gw.value != self)
                       && Outbound(p, self, gw) == Some(f)
  }

  /** A frame from a board to its PC. */
  ghost predicate LegitInward(asked: set<Asked>, self: Addr, f: seq<byte>)
  {
    || f == [0, 0x81] || (|f| == 3 && f[0] == 0 && f[1] == 0x82)
    || exists src, dst :: Legit(asked, src, dst, f) && (dst == NodeOf(self) || dst == BROADCAST)
  }

  /** An adapter gets exactly what another PC sent to this address. */
  ghost predicate SentHere(asked: set<Asked>, self: Addr, q: seq<byte>)
  {
    exists a :: a in asked && NodeAddr(a.self) && a.self != self && Classify(a.p, a.self, a.gw) == Direct
                && NodeOf(Destination(a.p)) == NodeOf(self) && q == Clamp(a.p, CLAMP_MSS)
  }

  /** A gateway's shared connection gets exactly what another PC sent through it. */
  ghost predicate SentThrough(asked: set<Asked>, self: Addr, q: seq<byte>)
  {
    exists a :: a in asked && NodeAddr(a.self) && Classify(a.p, a.self, a.gw) == ViaGateway
                && a.gw == Some(self) && q == Clamp(a.p, CLAMP_MSS)
  }

  /** What the board may read: what the PC wrote, or text it sends nowhere. */
  ghost predicate UsbOk(asked: set<Asked>, nd: Node)
  {
    && (forall f :: f in nd.written ==> LegitUsb(asked, nd.self, f))
    && (nd.active ==> forall f :: f in All(nd.boardDec, nd.toBoard) ==>
          LegitUsb(asked, nd.self, f) || HarmlessUsb(f, nd.self))
  }

  ghost predicate NodeOk(asked: set<Asked>, nd: Node)
  {
    && NodeAddr(nd.self) && nd.table.Valid() && UsbOk(asked, nd)
    && (forall p :: p in nd.sendq ==> LegitPayload(asked, p))
    && (forall f :: f in All(nd.pcDec, nd.toPc) ==> LegitInward(asked, nd.self, f) || !Ipv4Ok(f))
    && (forall q :: q in nd.adapter ==> SentHere(asked, nd.self, q))
    && (forall q :: q in nd.injected ==> SentThrough(asked, nd.self, q))
  }

  ghost predicate SysOk(s: Sys)
  {
    (forall i :: 0 <= i < |s.nodes| ==> NodeOk(s.asked, s.nodes[i])) &&
    (forall f :: f in s.air ==> LegitFrame(s.asked, f))
  }

  // ----- more questions asked, nothing forgotten -----------------------------------------------

  lemma {:induction false} LegitGrows(a: set<Asked>, b: set<Asked>, src: nat, dst: nat, ip: seq<byte>)
    requires a <= b && Legit(a, src, dst, ip)
    ensures Legit(b, src, dst, ip)
  {
  }

  lemma {:induction false} PayloadGrows(a: set<Asked>, b: set<Asked>, p: seq<byte>)
    requires a <= b && LegitPayload(a, p)
    ensures LegitPayload(b, p)
  {
    hide Legit, NetPayload, Ipv4Ok;
    var src, dst, ip :| 0 < src < BROADCAST && 0 < dst < 65536 && dst != src && Ipv4Ok(ip) && |ip| <= NET_MAX_IP
                        && p == NetPayload(dst, src, ip) && Legit(a, src, dst, ip);
    LegitGrows(a, b, src, dst, ip);
  }

  lemma {:induction false} FrameGrows(a: set<Asked>, b: set<Asked>, f: seq<byte>)
    requires a <= b && LegitFrame(a, f)
    ensures LegitFrame(b, f)
  {
    hide LegitPayload, Frame;
    var n, p :| LegitPayload(a, p) && |p| <= MAX_PAYLOAD && f == Frame(T_NET, n, p);
    PayloadGrows(a, b, p);
  }

  lemma {:induction false} InwardGrows(a: set<Asked>, b: set<Asked>, self: Addr, f: seq<byte>)
    requires a <= b && LegitInward(a, self, f)
    ensures LegitInward(b, self, f)
  {
    hide Legit;
    if !(f == [0, 0x81] || (|f| == 3 && f[0] == 0 && f[1] == 0x82)) {
      var src, dst :| Legit(a, src, dst, f) && (dst == NodeOf(self) || dst == BROADCAST);
      LegitGrows(a, b, src, dst, f);
    }
  }

  lemma {:induction false} NodeGrows(a: set<Asked>, b: set<Asked>, nd: Node)
    requires a <= b && NodeOk(a, nd)
    ensures NodeOk(b, nd)
  {
    hide LegitPayload, LegitInward, All, HarmlessUsb, Ipv4Ok;
    forall p | p in nd.sendq ensures LegitPayload(b, p) { PayloadGrows(a, b, p); }
    forall f | f in All(nd.pcDec, nd.toPc) ensures LegitInward(b, nd.self, f) || !Ipv4Ok(f) {
      if LegitInward(a, nd.self, f) { InwardGrows(a, b, nd.self, f); }
    }
    assert forall f :: LegitUsb(a, nd.self, f) ==> LegitUsb(b, nd.self, f);
    assert forall q :: SentHere(a, nd.self, q) ==> SentHere(b, nd.self, q);
    assert forall q :: SentThrough(a, nd.self, q) ==> SentThrough(b, nd.self, q);
  }

  // ----- what one USB frame becomes ---------------------------------------------------------------

  lemma {:induction false} BeaconFacts(g: Addr)
    requires NodeAddr(g)
    ensures var q := Beacon(g);
            && Ipv4Ok(q) && q[0] == 0x45 && |q| == BEACON_LEN
            && IpToNode(Destination(q)) == BROADCAST && ParseBeacon(q) == Some(g)
    ensures 0 < NodeOf(g) < BROADCAST
  {
    hide Beacon;
    BeaconRoundTrip(g);
    BeaconStart(g);
    NodesAndAddresses(0, 0, g);
  }

  lemma {:induction false} BeaconStart(g: Addr)
    ensures Beacon(g)[0] == 0x45
  {
  }

  /** A legitimate USB frame that leaves by radio leaves as a legitimate payload. */
  lemma {:induction false} UsbToRadio(asked: set<Asked>, self: Addr, f: seq<byte>)
    requires NodeAddr(self) && LegitUsb(asked, self, f) && f != []
    ensures HandleUsb(f, NodeOf(self)).Radio? ==> LegitPayload(asked, HandleUsb(f, NodeOf(self)).payload)
  {
    var me := NodeOf(self);
    if f == [0, 1] || f == [0, 2] {
    } else if f == Beacon(self) {
      BeaconFacts(self);
      hide Beacon, Ipv4Ok;
      assert HandleUsb(f, me) == Radio(NetPayload(BROADCAST, me, f));
      assert Legit(asked, me, BROADCAST, f);
    } else {
      var p, gw :| Asked(self, p, gw) in asked && (gw.Some? ==> NodeAddr(gw.value) && gw.value != self)
                   && Outbound(p, self, gw) == Some(f);
      var q := Clamp(p, CLAMP_MSS);
      if Classify(p, self, gw) == Direct {
        DirectUsb(p, self, gw);
        assert FromDirect(Asked(self, p, gw), me, NodeOf(Destination(p)), q);
        assert Legit(asked, me, NodeOf(Destination(p)), q);
      } else {
        GatewayUsb(p, self, gw.value);
        assert FromGateway(Asked(self, p, gw), me, NodeOf(gw.value), q);
        assert Legit(asked, me, NodeOf(gw.value), q);
      }
    }
  }

  lemma {:induction false} DirectUsb(p: seq<byte>, self: Addr, gw: Option<Addr>)
    requires NodeAddr(self) && Classify(p, self, gw) == Direct
    ensures var q, dst, src := Clamp(p, CLAMP_MSS), NodeOf(Destination(p)), NodeOf(self);
            && 0 < src < BROADCAST && 0 < dst < BROADCAST && dst != src && Ipv4Ok(q) && |q| <= NET_MAX_IP
            && HandleUsb(q, src) == Radio(NetPayload(dst, src, q))
  {
    hide Clamp, Ipv4Ok;
    DirectFacts(p, self, gw);
    ClampedFacts(p);
  }

  lemma {:induction false} GatewayUsb(p: seq<byte>, self: Addr, gw: Addr)
    requires NodeAddr(self) && NodeAddr(gw) && gw != self && Classify(p, self, Some(gw)) == ViaGateway
    ensures var q, dst, src := Clamp(p, CLAMP_MSS), NodeOf(gw), NodeOf(self);
            && 0 < src < BROADCAST && 0 < dst < BROADCAST && dst != src && Ipv4Ok(q) && |q| <= NET_MAX_IP
            && HandleUsb(SendToFrame(dst, q), src) == Radio(NetPayload(dst, src, q))
  {
    hide Clamp, Ipv4Ok;
    GatewayFacts(p, self, gw);
    ClampedFacts(p);
    SendToRoundTrip(NodeOf(gw), Clamp(p, CLAMP_MSS));
  }

  /** What a board takes from a legitimate frame was sent to it or to everyone. */
  lemma {:induction false} HeardIsLegit(asked: set<Asked>, self: Addr, me: Me, t: Table, f: seq<byte>, room: bool)
    requires t.Valid() && LegitFrame(asked, f) && me.node == NodeOf(self)
    ensures var o := LoraRx.HandleFrame(me, t, f, room);
            o.got.Packet? ==> 0 < |o.got.ip| <= NET_MAX_IP && LegitInward(asked, self, o.got.ip)
  {
    hide Legit, Frame, ParsePacket, Ipv4Ok, IsDuplicate, Commit;
    var n, payload :| LegitPayload(asked, payload) && |payload| <= MAX_PAYLOAD && f == Frame(T_NET, n, payload);
    ParseInvertsFrame(T_NET, n, payload);
    var src, dst, ip :| 0 < src < BROADCAST && 0 < dst < 65536 && dst != src && Ipv4Ok(ip) && |ip| <= NET_MAX_IP
                        && payload == NetPayload(dst, src, ip) && Legit(asked, src, dst, ip);
    NetRoundTrip(dst, src, ip);
    var o := LoraRx.HandleFrame(me, t, f, room);
    if o.got.Packet? {
      assert o.got.ip == ip && (dst == NodeOf(self) || dst == BROADCAST);
    }
  }

  /** What a PC makes of a legitimate frame from its board, or of text. */
  lemma {:induction false} InwardIsSent(asked: set<Asked>, self: Addr, f: seq<byte>, sharing: bool)
    requires NodeAddr(self) && (LegitInward(asked, self, f) || !Ipv4Ok(f))
    ensures Inbound(f, sharing).ToAdapter? ==> SentHere(asked, self, Inbound(f, sharing).p)
    ensures Inbound(f, sharing).Inject? ==> SentThrough(asked, self, Inbound(f, sharing).p)
  {
    if Ipv4Ok(f) {
      var src, dst :| Legit(asked, src, dst, f) && (dst == NodeOf(self) || dst == BROADCAST);
      if g :| NodeAddr(g) && f == Beacon(g) {
        BeaconFacts(g);
      } else {
        var a :| a in asked && (FromDirect(a, src, dst, f) || FromGateway(a, src, dst, f));
        NodesAndAddresses(0, 0, self);
        if FromDirect(a, src, dst, f) {
          DirectInward(a, self, src, dst, f, sharing);
        } else {
          GatewayInward(a, self, src, dst, f, sharing);
        }
      }
    }
  }

  lemma {:induction false} DirectInward(a: Asked, self: Addr, src: nat, dst: nat, f: seq<byte>, sharing: bool)
    requires NodeAddr(self) && FromDirect(a, src, dst, f) && (dst == NodeOf(self) || dst == BROADCAST)
    ensures dst == NodeOf(self) && a.self != self && !Inbound(f, sharing).Inject?
    ensures Inbound(f, sharing).ToAdapter? ==> Inbound(f, sharing).p == f
  {
    hide Clamp, Ipv4Ok, ParseBeacon;
    DirectFacts(a.p, a.self, a.gw);
    ClampedFacts(a.p);
    assert Destination(f)[0] == f[16] && Destination(f)[1] == f[17];
  }

  lemma {:induction false} GatewayInward(a: Asked, self: Addr, src: nat, dst: nat, f: seq<byte>, sharing: bool)
    requires NodeAddr(self) && FromGateway(a, src, dst, f) && (dst == NodeOf(self) || dst == BROADCAST)
    ensures a.gw == Some(self) && !Inbound(f, sharing).ToAdapter?
    ensures Inbound(f, sharing).Inject? ==> Inbound(f, sharing).p == f
  {
    hide Clamp, Ipv4Ok, ParseBeacon;
    GatewayFacts(a.p, a.self, a.gw.value);
    ClampedFacts(a.p);
    assert Destination(f)[0] == f[16];
    NodesAndAddresses(0, 0, self);
    NodesAndAddresses(0, 0, a.gw.value);
  }

  // ----- the cable ------------------------------------------------------------------------------------

  /** One more frame on a cable, whatever was on it. */
  lemma {:induction false} CableAppends(d: Slip.State, s: seq<byte>, f: seq<byte>)
    requires 0 < |f| <= USB_MAX
    ensures All(d, s + Slip.Encode(f)) == All(d, s) + [f]
  {
    hide Slip.Encode, Slip.FeedState, Slip.Frames;
    Slip.FeedAppend(d, s, Slip.Encode(f), USB_MAX);
    CableCarries(Slip.FeedState(d, s, USB_MAX), f);
  }

  /** One byte fewer on it. */
  lemma {:induction false} CableConsumes(d: Slip.State, s: seq<byte>)
    requires s != []
    ensures All(d, s) == Slip.Emitted(d, s[0]) + All(Slip.Step(d, s[0], USB_MAX), s[1..])
    ensures Slip.Emitted(d, s[0]) == [] || (|Slip.Emitted(d, s[0])| == 1 && Slip.Emitted(d, s[0])[0] != [])
  {
    hide Slip.Step;
  }

  lemma {:induction false} BusyReport(depth: byte)
    requires depth < Slip.END && depth < Slip.ESC
    ensures [Slip.END, 0, 0x82, depth, Slip.END] == Slip.Encode([0, 0x82, depth])
  {
    var s: seq<byte> := [0, 0x82, depth];
    assert s[1..] == [0x82, depth] && s[1..][1..] == [depth] && s[1..][1..][1..] == [];
    assert Slip.EscapeAll([depth]) == [depth] + Slip.EscapeAll([]);
    assert Slip.EscapeAll([0x82, depth]) == [0x82] + Slip.EscapeAll([depth]);
    assert Slip.EscapeAll(s) == [0] + Slip.EscapeAll([0x82, depth]);
  }

  lemma {:induction false} OutboundSize(p: seq<byte>, self: Addr, gw: Option<Addr>)
    requires NodeAddr(self) && Outbound(p, self, gw).Some?
    ensures 0 < |Outbound(p, self, gw).value| <= USB_MAX
  {
    hide Clamp;
  }

  // ----- every step keeps it ------------------------------------------------------------------------------

  lemma {:induction false} PcWrites(asked: set<Asked>, nd: Node, f: seq<byte>)
    requires NodeOk(asked, nd) && 0 < |f| <= USB_MAX && LegitUsb(asked, nd.self, f)
    ensures NodeOk(asked, PcWrite(nd, f))
  {
    hide LegitUsb, LegitPayload, LegitInward, SentHere, SentThrough, Slip.Encode, All, HarmlessUsb, Ipv4Ok;
    CableAppends(nd.boardDec, nd.toBoard, f);
  }

  lemma {:induction false} BoardWrites(asked: set<Asked>, nd: Node, f: seq<byte>)
    requires NodeOk(asked, nd) && 0 < |f| <= USB_MAX && LegitInward(asked, nd.self, f)
    ensures NodeOk(asked, nd.(toPc := nd.toPc + Slip.Encode(f)))
  {
    hide LegitUsb, LegitPayload, LegitInward, SentHere, SentThrough, Slip.Encode, All, HarmlessUsb, Ipv4Ok, UsbOk;
    assert UsbOk(asked, nd.(toPc := nd.toPc + Slip.Encode(f))) by { UsbCarries(asked, nd, nd.(toPc := nd.toPc + Slip.Encode(f))); }
    CableAppends(nd.pcDec, nd.toPc, f);
  }

  lemma {:induction false} UsbCarries(asked: set<Asked>, nd: Node, nd1: Node)
    requires UsbOk(asked, nd) && nd1.self == nd.self && nd1.written == nd.written && (nd1.active ==> nd.active)
    requires nd1.boardDec == nd.boardDec && nd1.toBoard == nd.toBoard
    ensures UsbOk(asked, nd1)
  {
    hide LegitUsb, All, HarmlessUsb;
  }

  lemma {:induction false} BoardReads(asked: set<Asked>, nd: Node, room: bool)
    requires NodeOk(asked, nd) && nd.active && nd.toBoard != []
    ensures NodeOk(asked, NodeStep(nd, UsbByte(room)))
  {
    hide LegitUsb, LegitPayload, LegitInward, SentHere, SentThrough, HandleUsb, Slip.Encode, All, Slip.Step, Ipv4Ok;
    CableConsumes(nd.boardDec, nd.toBoard);
    var b := nd.toBoard[0];
    var done := Slip.Emitted(nd.boardDec, b);
    var nd1 := nd.(toBoard := nd.toBoard[1..], boardDec := Slip.Step(nd.boardDec, b, USB_MAX));
    assert NodeOk(asked, nd1);
    if done != [] {
      assert done[0] in All(nd.boardDec, nd.toBoard);
      if LegitUsb(asked, nd.self, done[0]) { UsbToRadio(asked, nd.self, done[0]); }
      ActKeeps(asked, nd1, HandleUsb(done[0], NodeOf(nd.self)), room);
    }
  }

  lemma {:induction false} ActKeeps(asked: set<Asked>, nd: Node, act: BoardAct, room: bool)
    requires NodeOk(asked, nd) && (act.Radio? ==> LegitPayload(asked, act.payload))
    ensures NodeOk(asked, OnUsb(nd, act, room))
  {
    if act.AliveReply? {
      assert LegitInward(asked, nd.self, [0, 0x81]);
      BoardWrites(asked, nd, [0, 0x81]);
    } else {
      hide LegitUsb, LegitPayload, LegitInward, SentHere, SentThrough, Slip.Encode, All, HarmlessUsb, Ipv4Ok;
    }
  }

  lemma {:induction false} PcReads(asked: set<Asked>, nd: Node)
    requires NodeOk(asked, nd) && nd.toPc != []
    ensures NodeOk(asked, NodeStep(nd, PcByte))
  {
    hide LegitUsb, LegitPayload, LegitInward, SentHere, SentThrough, Inbound, Slip.Encode, All, Slip.Step, Ipv4Ok, HarmlessUsb;
    CableConsumes(nd.pcDec, nd.toPc);
    var b := nd.toPc[0];
    var done := Slip.Emitted(nd.pcDec, b);
    var nd1 := nd.(toPc := nd.toPc[1..], pcDec := Slip.Step(nd.pcDec, b, USB_MAX));
    assert NodeOk(asked, nd1);
    if done != [] {
      assert done[0] in All(nd.pcDec, nd.toPc);
      InwardIsSent(asked, nd.self, done[0], nd.sharing);
    }
  }

  lemma {:induction false} HearKeeps(asked: set<Asked>, nd: Node, f: seq<byte>, room: bool)
    requires NodeOk(asked, nd) && LegitFrame(asked, f)
    ensures NodeOk(asked, NodeStep(nd, Hear(f, room)))
  {
    hide LegitUsb, LegitPayload, LegitInward, SentHere, SentThrough, LoraRx.HandleFrame, Slip.Encode, LegitFrame, All, HarmlessUsb, Ipv4Ok;
    HeardIsLegit(asked, nd.self, MeOf(nd), nd.table, f, room);
    var o := LoraRx.HandleFrame(MeOf(nd), nd.table, f, room);
    var nd1 := nd.(table := o.table);
    assert NodeOk(asked, nd1);
    if o.got.Packet? { BoardWrites(asked, nd1, o.got.ip); }
  }

  lemma {:induction false} TransmitIsLegit(asked: set<Asked>, nd: Node, n: byte)
    requires NodeOk(asked, nd) && nd.sendq != [] && |nd.sendq[0]| <= MAX_PAYLOAD
    ensures LegitFrame(asked, Frame(T_NET, n, nd.sendq[0]))
    ensures NodeOk(asked, NodeStep(nd, Transmit(n)))
  {
    hide LegitUsb, LegitPayload, LegitInward, SentHere, SentThrough, Frame, All, HarmlessUsb, Ipv4Ok;
    assert nd.sendq[0] in nd.sendq;
  }

  /** asked already holds the packet being offered. */
  lemma {:induction false} OfferKeeps(asked: set<Asked>, nd: Node, p: seq<byte>, gw: Option<Addr>)
    requires NodeOk(asked, nd) && Asked(nd.self, p, gw) in asked
    requires gw.Some? ==> NodeAddr(gw.value) && gw.value != nd.self
    ensures NodeOk(asked, NodeStep(nd, Offer(p, gw)))
  {
    var f := Outbound(p, nd.self, gw);
    if f.Some? {
      OutboundSize(p, nd.self, gw);
      assert LegitUsb(asked, nd.self, f.value);
      PcWrites(asked, nd, f.value);
    }
  }

  lemma {:induction false} NodeKeeps(asked: set<Asked>, nd: Node, air: set<seq<byte>>, e: Event)
    requires NodeOk(asked, nd) && Enabled(nd, air, e) && (forall f :: f in air ==> LegitFrame(asked, f))
    requires e.Offer? ==> Asked(nd.self, e.p, e.gw) in asked
    ensures NodeOk(asked, NodeStep(nd, e))
  {
    hide NodeOk, LegitFrame;
    match e
    case Offer(p, gw) => OfferKeeps(asked, nd, p, gw);
    case Announce => NodeAddrOf(asked, nd); BeaconFacts(nd.self); PcWrites(asked, nd, Beacon(nd.self));
    case Control(b) => PcWrites(asked, nd, [0, b]);
    case Share(on) => Unrelated(asked, nd, on);
    case PcText(raw) => TextKeeps(asked, nd, air, e);
    case Enter => EnterKeeps(asked, nd, air);
    case UsbByte(room) => BoardReads(asked, nd, room);
    case UsbSkip => TextKeeps(asked, nd, air, e);
    case Transmit(n) => TransmitIsLegit(asked, nd, n);
    case Hear(f, room) => HearKeeps(asked, nd, f, room);
    case ReportBusy(depth) => BusyReport(depth); BoardWrites(asked, nd, [0, 0x82, depth]);
    case BoardText(raw) => TextKeeps(asked, nd, air, e);
    case PcByte => PcReads(asked, nd);
  }

  lemma {:induction false} NodeAddrOf(asked: set<Asked>, nd: Node)
    requires NodeOk(asked, nd)
    ensures NodeAddr(nd.self)
  {
  }

  lemma {:induction false} Unrelated(asked: set<Asked>, nd: Node, on: bool)
    requires NodeOk(asked, nd)
    ensures NodeOk(asked, nd.(sharing := on))
  {
  }

  lemma {:induction false} EnterKeeps(asked: set<Asked>, nd: Node, air: set<seq<byte>>)
    requires NodeOk(asked, nd) && Enabled(nd, air, Enter)
    ensures NodeOk(asked, NodeStep(nd, Enter))
  {
    hide LegitUsb, LegitPayload, LegitInward, SentHere, SentThrough, All, HarmlessUsb, Ipv4Ok;
  }

  lemma {:induction false} TextKeeps(asked: set<Asked>, nd: Node, air: set<seq<byte>>, e: Event)
    requires NodeOk(asked, nd) && Enabled(nd, air, e) && (e.PcText? || e.UsbSkip? || e.BoardText?)
    ensures NodeOk(asked, NodeStep(nd, e))
  {
    hide LegitUsb, LegitPayload, LegitInward, SentHere, SentThrough, All, HarmlessUsb, Ipv4Ok;
  }

  lemma {:induction false} StepKeeps(s: Sys, i: nat, e: Event)
    requires SysOk(s) && i < |s.nodes| && Enabled(s.nodes[i], s.air, e)
    ensures SysOk(Step(s, i, e))
  {
    hide NodeOk, LegitFrame, NodeStep, Enabled;
    var t := Step(s, i, e);
    forall k | 0 <= k < |s.nodes| ensures NodeOk(t.asked, s.nodes[k]) { NodeGrows(s.asked, t.asked, s.nodes[k]); }
    forall f | f in s.air ensures LegitFrame(t.asked, f) { FrameGrows(s.asked, t.asked, f); }
    NodeKeeps(t.asked, s.nodes[i], s.air, e);
    if e.Transmit? { SendIsLegit(t.asked, s.nodes[i], s.air, e.n); }
  }

  lemma {:induction false} SendIsLegit(asked: set<Asked>, nd: Node, air: set<seq<byte>>, n: byte)
    requires NodeOk(asked, nd) && Enabled(nd, air, Transmit(n))
    ensures nd.sendq != [] && |nd.sendq[0]| <= MAX_PAYLOAD && LegitFrame(asked, Frame(T_NET, n, nd.sendq[0]))
  {
    hide NodeOk, LegitFrame;
    TransmitIsLegit(asked, nd, n);
  }

  lemma {:induction false} RunKeeps(nodes: seq<Node>, es: seq<(nat, Event)>)
    requires (forall nd :: nd in nodes ==> Fresh(nd)) && Run(nodes, es).Some?
    ensures SysOk(Run(nodes, es).value)
    decreases |es|
  {
    hide NodeOk, Step, Enabled;
    if es == [] {
      forall i | 0 <= i < |nodes| ensures NodeOk({}, nodes[i]) { FreshIsOk(nodes[i]) by { assert nodes[i] in nodes; } }
    } else {
      RunKeeps(nodes, es[..|es| - 1]);
      var s := Run(nodes, es[..|es| - 1]).value;
      var (i, e) := es[|es| - 1];
      StepKeeps(s, i, e);
    }
  }

  lemma {:induction false} FreshIsOk(nd: Node)
    requires Fresh(nd)
    ensures NodeOk({}, nd)
  {
  }

  /**
   * Whatever is lost, delayed, repeated or refused, and however the boards' queues and
   * modes change: everything an adapter ever gets was sent by another PC to this very
   * address, and arrives as the clamped packet, byte for byte; everything a gateway's
   * shared connection gets was sent through this gateway.
   */
  lemma {:induction false} OnlyWhatWasSent(nodes: seq<Node>, es: seq<(nat, Event)>, i: nat, q: seq<byte>)
    requires (forall nd :: nd in nodes ==> Fresh(nd)) && Run(nodes, es).Some? && i < |Run(nodes, es).value.nodes|
    ensures var s := Run(nodes, es).value;
            && (q in s.nodes[i].adapter ==> SentHere(s.asked, s.nodes[i].self, q))
            && (q in s.nodes[i].injected ==> SentThrough(s.asked, s.nodes[i].self, q))
  {
    RunKeeps(nodes, es);
  }

  // ----- text on the cable ------------------------------------------------------------------------------

  const IMPROV: seq<byte> := [0x49, 0x4D, 0x50, 0x52, 0x4F, 0x56]

  /** Without an END nothing completes, and what is stored stays. */
  lemma {:induction false} TextStored(d: Slip.State, raw: seq<byte>)
    requires Slip.END !in raw
    ensures Slip.Frames(d, raw, USB_MAX) == [] && d.buf <= Slip.FeedState(d, raw, USB_MAX).buf
    decreases |raw|
  {
    if raw != [] {
      assert raw[0] in raw;
      TextStored(Slip.Step(d, raw[0], USB_MAX), raw[1..]);
    }
  }

  lemma {:induction false} TextAppends(d: Slip.State, s: seq<byte>, raw: seq<byte>)
    requires Slip.FeedState(d, s, USB_MAX) == Slip.IDLE && Slip.END !in raw
    ensures All(d, s + raw) == All(d, s) + Slip.Pending(Slip.FeedState(Slip.IDLE, raw, USB_MAX))
  {
    hide Slip.FeedState, Slip.Frames;
    Slip.FeedAppend(d, s, raw, USB_MAX);
    TextStored(Slip.IDLE, raw);
    assert Slip.Pending(Slip.IDLE) == [];
  }

  lemma {:induction false} HeaderStored()
    ensures Slip.FeedState(Slip.IDLE, IMPROV, USB_MAX) == Slip.State(IMPROV, false, false)
  {
    assert IMPROV[1..][1..][1..][1..][1..][1..] == [];
    var d1 := Slip.Step(Slip.IDLE, 0x49, USB_MAX);
    var d3 := Slip.Step(Slip.Step(d1, 0x4D, USB_MAX), 0x50, USB_MAX);
    var d6 := Slip.Step(Slip.Step(Slip.Step(d3, 0x52, USB_MAX), 0x4F, USB_MAX), 0x56, USB_MAX);
    assert d6 == Slip.State(IMPROV, false, false);
  }

  lemma {:induction false} HeaderStays(raw: seq<byte>)
    requires IMPROV <= raw && Slip.END !in raw
    ensures IMPROV <= Slip.FeedState(Slip.IDLE, raw, USB_MAX).buf && |Slip.FeedState(Slip.IDLE, raw, USB_MAX).buf| <= USB_MAX
  {
    hide Slip.FeedState, Slip.Frames;
    var rest := raw[|IMPROV|..];
    assert raw == IMPROV + rest;
    Slip.FeedAppend(Slip.IDLE, IMPROV, rest, USB_MAX);
    HeaderStored();
    TextStored(Slip.State(IMPROV, false, false), rest);
    Slip.FramesFit(Slip.IDLE, raw, USB_MAX);
  }

  /**
   * The network-start command written while the board is already in network mode, and the
   * board's answer: between frames an Improv packet without an END is text no one acts on.
   */
  lemma {:induction false} ImprovIsSkipped(d: Slip.State, s: seq<byte>, raw: seq<byte>, self: Addr, sharing: bool)
    requires Slip.FeedState(d, s, USB_MAX) == Slip.IDLE && IMPROV <= raw && Slip.END !in raw
    ensures forall f :: f in All(d, s + raw) ==>
              f in All(d, s) || (f != [] && HandleUsb(f, NodeOf(self)) == DropPacket && Inbound(f, sharing) == Discard)
  {
    hide HandleUsb, Inbound, Slip.FeedState, All;
    TextAppends(d, s, raw);
    HeaderStays(raw);
    HeaderIsNothing(Slip.FeedState(Slip.IDLE, raw, USB_MAX).buf, self, sharing);
  }

  lemma {:induction false} HeaderIsNothing(f: seq<byte>, self: Addr, sharing: bool)
    requires IMPROV <= f && |f| <= USB_MAX
    ensures HandleUsb(f, NodeOf(self)) == DropPacket && Inbound(f, sharing) == Discard
  {
    assert f[0] == IMPROV[0] && f[2] == IMPROV[2] && f[3] == IMPROV[3];
  }

  // ----- network mode over a run ---------------------------------------------------------------------------

  /** The node reads everything on its cable, or until it leaves network mode. */
  function ReadAll(nd: Node, room: bool): Node
    decreases |nd.toBoard|
  {
    if !nd.active || nd.toBoard == [] then nd
    else
      BoardKeepsCable(nd, room);
      ReadAll(NodeStep(nd, UsbByte(room)), room)
  }

  lemma {:induction false} BoardKeepsCable(nd: Node, room: bool)
    requires nd.toBoard != []
    ensures NodeStep(nd, UsbByte(room)).toBoard == nd.toBoard[1..]
  {
    hide HandleUsb, Slip.Step, Slip.Emitted;
  }

  /** A decoder in the middle of a frame without an END: bytes are only stored. */
  lemma {:induction false} ReadBody(nd: Node, s: seq<byte>, rest: seq<byte>, room: bool)
    requires nd.active && nd.toBoard == s + rest && Slip.END !in s
    ensures ReadAll(nd, room) ==
            ReadAll(nd.(toBoard := rest, boardDec := Slip.FeedState(nd.boardDec, s, USB_MAX)), room)
    decreases |s|
  {
    hide HandleUsb, Slip.Step;
    if s == [] {
      assert [] + rest == rest;
    } else {
      var b := s[0];
      assert b in s && nd.toBoard[0] == b && nd.toBoard[1..] == s[1..] + rest;
      var nd1 := nd.(toBoard := s[1..] + rest, boardDec := Slip.Step(nd.boardDec, b, USB_MAX));
      assert NodeStep(nd, UsbByte(room)) == nd1;
      ReadBody(nd1, s[1..], rest, room);
    }
  }

  lemma {:induction false} ReadEnd(nd: Node, f: seq<byte>, room: bool)
    requires nd.active && nd.toBoard == [Slip.END] && nd.boardDec == Slip.State(f, false, false) && f != []
    ensures ReadAll(nd, room) == OnUsb(nd.(toBoard := [], boardDec := Slip.IDLE), HandleUsb(f, NodeOf(nd.self)), room)
  {
    hide HandleUsb;
    var nd1 := NodeStep(nd, UsbByte(room));
    assert nd.toBoard[1..] == [];
    assert ReadAll(nd1, room) == nd1;
  }

  lemma {:induction false} NoEndInside(f: seq<byte>)
    ensures Slip.END !in Slip.EscapeAll(f)
    decreases |f|
  {
    if f != [] { NoEndInside(f[1..]); }
  }

  lemma {:induction false} Stored(f: seq<byte>)
    requires |f| <= USB_MAX
    ensures Slip.FeedState(Slip.IDLE, Slip.EscapeAll(f), USB_MAX) == Slip.State(f, false, false)
  {
    Slip.FeedBody(Slip.IDLE, f, USB_MAX);
    assert Slip.IDLE.buf + f == f;
  }

  /** One frame on an empty cable, read by an idle board: it acts on that frame, once. */
  lemma {:induction false} ReadFrame(nd: Node, f: seq<byte>, room: bool)
    requires nd.active && nd.boardDec == Slip.IDLE && nd.toBoard == Slip.Encode(f) && 0 < |f| <= USB_MAX
    ensures ReadAll(nd, room) == OnUsb(nd.(toBoard := []), HandleUsb(f, NodeOf(nd.self)), room)
  {
    hide HandleUsb, Slip.EscapeAll, Slip.FeedState, ReadAll, OnUsb;
    NoEndInside(f);
    Stored(f);
    var body := Slip.EscapeAll(f);
    assert nd.toBoard[0] == Slip.END && nd.toBoard[1..] == body + [Slip.END];
    var nd1 := nd.(toBoard := body + [Slip.END]);
    FirstEnd(nd, room);
    ReadBody(nd1, body, [Slip.END], room);
    ReadEnd(nd1.(toBoard := [Slip.END], boardDec := Slip.State(f, false, false)), f, room);
  }

  lemma {:induction false} FirstEnd(nd: Node, room: bool)
    requires nd.active && nd.boardDec == Slip.IDLE && nd.toBoard != [] && nd.toBoard[0] == Slip.END
    ensures ReadAll(nd, room) == ReadAll(nd.(toBoard := nd.toBoard[1..]), room)
  {
    hide HandleUsb;
    assert NodeStep(nd, UsbByte(room)) == nd.(toBoard := nd.toBoard[1..]);
  }

  lemma {:induction false} ReadControl(nd: Node, b: byte, room: bool)
    requires nd.active && nd.toBoard == [] && nd.boardDec == Slip.IDLE && (b == 1 || b == 2)
    ensures ReadAll(NodeStep(nd, Control(b)), room) ==
            OnUsb(NodeStep(nd, Control(b)).(toBoard := []), HandleUsb([0, b], NodeOf(nd.self)), room)
  {
    hide HandleUsb, Slip.Encode, ReadAll, OnUsb;
    assert [] + Slip.Encode([0, b]) == Slip.Encode([0, b]);
    ReadFrame(NodeStep(nd, Control(b)), [0, b], room);
  }

  /** A keepalive keeps network mode on and is answered with "00 81"; nothing is sent. */
  lemma {:induction false} KeepaliveIsAnswered(nd: Node, room: bool)
    requires nd.active && nd.toBoard == [] && nd.boardDec == Slip.IDLE
    ensures var z := ReadAll(NodeStep(nd, Control(1)), room);
            z.active && z.toPc == nd.toPc + Slip.Encode([0, 0x81]) && z.sendq == nd.sendq && z.toBoard == []
  {
    ReadControl(nd, 1, room);
  }

  /** A leave ends it, without an answer. */
  lemma {:induction false} LeaveEnds(nd: Node, room: bool)
    requires nd.active && nd.toBoard == [] && nd.boardDec == Slip.IDLE
    ensures var z := ReadAll(NodeStep(nd, Control(2)), room);
            !z.active && z.toPc == nd.toPc && z.sendq == nd.sendq && z.toBoard == []
  {
    ReadControl(nd, 2, room);
  }

  /** Nothing but a frame that begins like a leave ever ends network mode, and nothing but entering begins it. */
  lemma {:induction false} OnlyLeaveEnds(nd: Node, air: set<seq<byte>>, e: Event)
    requires Enabled(nd, air, e)
    ensures nd.active && !NodeStep(nd, e).active ==>
              e.UsbByte? && nd.toBoard != [] && exists f :: Slip.Emitted(nd.boardDec, nd.toBoard[0]) == [f] && |f| >= 2 && f[0] == 0 && f[1] == 2
    ensures !nd.active && NodeStep(nd, e).active ==> e.Enter?
  {
    hide Slip.Step, LoraRx.HandleFrame, Outbound, Inbound, All, HarmlessUsb, Ipv4Ok;
    if e.UsbByte? {
      var done := Slip.Emitted(nd.boardDec, nd.toBoard[0]);
      if done != [] && HandleUsb(done[0], NodeOf(nd.self)).Leave? { LeaveMeans(done[0], NodeOf(nd.self)); }
    }
  }

  lemma {:induction false} LeaveMeans(f: seq<byte>, me: nat)
    requires f != [] && me < 65536
    ensures HandleUsb(f, me).Leave? <==> |f| >= 2 && f[0] == 0 && f[1] == 2
    ensures HandleUsb(f, me).AliveReply? <==> |f| >= 2 && f[0] == 0 && f[1] == 1
  {
  }

  // ----- a packet's way through two nodes --------------------------------------------------------------------

  /** A packet from the adapter becomes exactly one payload for the radio if there is room, or none if it goes nowhere. */
  lemma {:induction false} OfferIsSent(nd: Node, p: seq<byte>, gw: Option<Addr>, room: bool)
    requires nd.active && nd.toBoard == [] && nd.boardDec == Slip.IDLE && NodeAddr(nd.self)
    requires gw.Some? ==> NodeAddr(gw.value) && gw.value != nd.self
    ensures var z, me, q := ReadAll(NodeStep(nd, Offer(p, gw)), room), NodeOf(nd.self), Clamp(p, CLAMP_MSS);
            && z.active && z.toPc == nd.toPc
            && (Classify(p, nd.self, gw) == Drop ==> z.sendq == nd.sendq)
            && (Classify(p, nd.self, gw) == Direct ==>
                  z.sendq == nd.sendq + if room then [NetPayload(NodeOf(p[16..20]), me, q)] else [])
            && (Classify(p, nd.self, gw) == ViaGateway ==>
                  z.sendq == nd.sendq + if room then [NetPayload(NodeOf(gw.value), me, q)] else [])
  {
    hide HandleUsb, Slip.Encode, Clamp, DropReason, PublicUnicast, Ipv4Ok;
    var f := Outbound(p, nd.self, gw);
    var nd1 := NodeStep(nd, Offer(p, gw));
    assert nd.sendq + [] == nd.sendq;
    if f.Some? {
      OutboundSize(p, nd.self, gw);
      assert [] + Slip.Encode(f.value) == Slip.Encode(f.value);
      ReadFrame(nd1, f.value, room);
      if Classify(p, nd.self, gw) == Direct { DirectUsb(p, nd.self, gw); } else { GatewayUsb(p, nd.self, gw.value); }
    }
  }

  /** The PC reads everything on its cable. */
  function PcReadAll(nd: Node): Node
    decreases |nd.toPc|
  {
    if nd.toPc == [] then nd
    else
      PcKeepsCable(nd);
      PcReadAll(NodeStep(nd, PcByte))
  }

  lemma {:induction false} PcKeepsCable(nd: Node)
    requires nd.toPc != []
    ensures NodeStep(nd, PcByte).toPc == nd.toPc[1..]
  {
    hide Inbound, Slip.Step, Slip.Emitted;
  }

  lemma {:induction false} PcReadBody(nd: Node, s: seq<byte>, rest: seq<byte>)
    requires nd.toPc == s + rest && Slip.END !in s
    ensures PcReadAll(nd) == PcReadAll(nd.(toPc := rest, pcDec := Slip.FeedState(nd.pcDec, s, USB_MAX)))
    decreases |s|
  {
    hide Inbound, Slip.Step;
    if s == [] {
      assert [] + rest == rest;
    } else {
      var b := s[0];
      assert b in s && nd.toPc[0] == b && nd.toPc[1..] == s[1..] + rest;
      var nd1 := nd.(toPc := s[1..] + rest, pcDec := Slip.Step(nd.pcDec, b, USB_MAX));
      assert NodeStep(nd, PcByte) == nd1;
      PcReadBody(nd1, s[1..], rest);
    }
  }

  lemma {:induction false} PcReadEnds(nd: Node, f: seq<byte>, rest: seq<byte>)
    requires nd.toPc == [Slip.END] + rest
    ensures nd.pcDec == Slip.IDLE ==> PcReadAll(nd) == PcReadAll(nd.(toPc := rest))
    ensures nd.pcDec == Slip.State(f, false, false) && f != [] && rest == [] ==>
              PcReadAll(nd) == OnInward(nd.(toPc := [], pcDec := Slip.IDLE), Inbound(f, nd.sharing))
  {
    hide Inbound;
    assert nd.toPc[0] == Slip.END && nd.toPc[1..] == rest;
    var nd1 := NodeStep(nd, PcByte);
    if rest == [] { assert PcReadAll(nd1) == nd1; }
  }

  /** One frame on its cable, read by a PC between frames: it does with that frame what it has to, once. */
  lemma {:induction false} PcReadFrame(nd: Node, f: seq<byte>)
    requires nd.pcDec == Slip.IDLE && nd.toPc == Slip.Encode(f) && 0 < |f| <= USB_MAX
    ensures PcReadAll(nd) == OnInward(nd.(toPc := []), Inbound(f, nd.sharing))
  {
    hide Inbound, Slip.EscapeAll, Slip.FeedState, PcReadAll, OnInward;
    NoEndInside(f);
    Stored(f);
    var body := Slip.EscapeAll(f);
    assert nd.toPc == [Slip.END] + (body + [Slip.END]);
    PcReadEnds(nd, f, body + [Slip.END]);
    var nd1 := nd.(toPc := body + [Slip.END]);
    PcReadBody(nd1, body, [Slip.END]);
    assert [Slip.END] + [] == [Slip.END];
    PcReadEnds(nd1.(toPc := [Slip.END], pcDec := Slip.State(f, false, false)), f, []);
  }

  lemma {:induction false} NotEmpty(q: seq<byte>)
    requires Ipv4Ok(q)
    ensures |q| > 0
  {
  }

  /** A new packet for this board, heard with room in network mode, is on the PC's side what the PC makes of it. */
  lemma {:induction false} HeardIsDelivered(nd: Node, n: byte, src: nat, q: seq<byte>)
    requires nd.active && nd.toPc == [] && nd.pcDec == Slip.IDLE && NodeAddr(nd.self) && nd.table.Valid()
    requires 0 < src < BROADCAST && src != NodeOf(nd.self) && Ipv4Ok(q) && |q| <= NET_MAX_IP
    requires !IsDuplicate(nd.table, NetKey(src), n)
    ensures |NetPayload(NodeOf(nd.self), src, q)| <= MAX_PAYLOAD
    ensures var f := Frame(T_NET, n, NetPayload(NodeOf(nd.self), src, q));
            var z := PcReadAll(NodeStep(nd, Hear(f, true)));
            z == OnInward(nd.(table := Commit(nd.table, NetKey(src), n)), Inbound(q, nd.sharing))
  {
    hide IsDuplicate, Commit, Inbound, Slip.Encode, Frame, LoraRx.HandleFrame, Ipv4Ok, PcReadAll, OnInward;
    NotEmpty(q);
    NodesAndAddresses(0, 0, nd.self);
    UnicastReachesOnlyItsNode(MeOf(nd), nd.table, n, NodeOf(nd.self), src, q, true);
    assert [] + Slip.Encode(q) == Slip.Encode(q);
    var f := Frame(T_NET, n, NetPayload(NodeOf(nd.self), src, q));
    PcReadFrame(NodeStep(nd, Hear(f, true)), q);
  }

  /**
   * Undisturbed, a packet for another node's address goes from the one PC's adapter to the
   * other's, over both cables byte by byte and one radio frame, as the clamped packet.
   */
  lemma {:induction false} PacketTravels(a: Node, b: Node, p: seq<byte>, gw: Option<Addr>, n: byte)
    requires a.active && a.toBoard == [] && a.boardDec == Slip.IDLE && a.sendq == [] && NodeAddr(a.self)
    requires b.active && b.toPc == [] && b.pcDec == Slip.IDLE && b.table.Valid() && |p| >= 20 && b.self == p[16..20]
    requires gw.Some? ==> NodeAddr(gw.value) && gw.value != a.self
    requires Classify(p, a.self, gw) == Direct && !IsDuplicate(b.table, NetKey(NodeOf(a.self)), n) && ParseBeacon(p).None?
    ensures var sent := ReadAll(NodeStep(a, Offer(p, gw)), true);
            && |sent.sendq| == 1 && |sent.sendq[0]| <= MAX_PAYLOAD
            && var z := PcReadAll(NodeStep(b, Hear(Frame(T_NET, n, sent.sendq[0]), true)));
               z.adapter == b.adapter + [Clamp(p, CLAMP_MSS)] && z.injected == b.injected
  {
    hide IsDuplicate, Clamp, ParseBeacon, Ipv4Ok, Frame, PcReadAll, ReadAll, NodeStep, Commit, Slip.Encode;
    var q := Clamp(p, CLAMP_MSS);
    OfferIsSent(a, p, gw, true);
    DirectFacts(p, a.self, gw);
    ClampedFacts(p);
    DirectUsb(p, a.self, gw);
    assert Destination(q)[0] == q[16] && Destination(q)[1] == q[17];
    HeardIsDelivered(b, n, NodeOf(a.self), q);
  }
}
