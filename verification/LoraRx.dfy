/** What a board does with a received radio frame. */
module LoraRx {
  import opened Bytes
  import opened IpPacket
  import opened LoraDedup
  import opened LoraFrame

  datatype Reply = Silent | Ack(n: byte, result: byte)

  /** What reaches the rest of the board. */
  datatype Got =
    | Nothing
    | Message(text: seq<byte>)
    | Packet(ip: seq<byte>)
    | Bridge(data: seq<byte>)
    | AckSeen(n: byte, result: byte)

  datatype Outcome = Outcome(table: Table, reply: Reply, got: Got)

  /** This board: its node id, whether its USB port is in network mode, how it hashes a message's sender. */
  datatype Me = Me(node: nat, active: bool, hash: seq<byte> -> nat)

  /** Payload bytes as the C string the firmware makes of them. */
  function CText(p: seq<byte>): (t: seq<byte>)
    ensures t <= p && 0 !in t && (|t| < |p| ==> p[|t|] == 0)
  {
    if p == [] || p[0] == 0 then [] else [p[0]] + CText(p[1..])
  }

  /** NET packets are tracked per source node, apart from the message hashes. */
  function NetKey(src: nat): nat { 0x4E45_0000 + src }

  /** Deduplicate, then queue if there is room; only what was queued is remembered. */
  function Accepting(t: Table, key: nat, n: byte, fits: bool, got: Got): Outcome
    requires t.Valid()
  {
    if IsDuplicate(t, key, n) then Outcome(t, Ack(n, ACK_OK), Nothing)
    else if fits then Outcome(Commit(t, key, n), Ack(n, ACK_OK), got)
    else Outcome(t, Ack(n, ACK_RETRY), Nothing)
  }

  /** A parsed T_NET frame; room says whether the USB queue can take a packet. */
  function HandleNet(me: Me, t: Table, n: byte, payload: seq<byte>, room: bool): Outcome
    requires t.Valid()
  {
    match NetParse(payload)
    case None => Outcome(t, Silent, Nothing)
    case Some(f) =>
      if f.src == me.node || (f.dst != me.node && f.dst != BROADCAST) then Outcome(t, Silent, Nothing)
      else
        var fits := me.active && room && |f.ip| <= NET_MAX_IP;
        if f.dst != me.node then Outcome(t, Silent, if fits then Packet(f.ip) else Nothing)
        else if !me.active then Outcome(t, Silent, Nothing)
        else Accepting(t, NetKey(f.src), n, fits, Packet(f.ip))
  }

  function HandleFrame(me: Me, t: Table, buf: seq<byte>, room: bool): (o: Outcome)
    requires t.Valid()
    ensures o.table.Valid()
  {
    match ParsePacket(buf)
    case Bad(err, typ, n) =>
      Outcome(t, if err == BadCrc && typ == T_LORA_MSG then Ack(n, ACK_RETRY) else Silent, Nothing)
    case Ok(typ, n, payload) =>
      if typ == T_REC_AKNG then Outcome(t, Silent, if room then AckSeen(n, payload[0]) else Nothing)
      else if typ == T_LORA_SERIAL then Outcome(t, Silent, if room then Bridge(payload) else Nothing)
      else if typ == T_NET then HandleNet(me, t, n, payload, room)
      else if typ == T_RAW_DATA then Outcome(t, Silent, Nothing)
      else
        var text := CText(payload);
        Accepting(t, me.hash(text), n, room && text == payload, Message(text))
  }

  /** The receiving side: its duplicate table; the queues' answers are inputs. */
  class Receiver {
    const me: Me
    const dedup: RxDedup

    constructor (me: Me)
      ensures this.me == me && fresh(dedup) && fresh(dedup.entries) && dedup.Valid() && dedup.Abs() == EMPTY
    {
      this.me := me;
      dedup := new RxDedup();
    }

    method Accept(key: nat, n: byte, fits: bool, item: Got) returns (reply: Reply, got: Got)
      requires dedup.Valid()
      modifies dedup, dedup.entries
      ensures dedup.Valid()
      ensures Outcome(dedup.Abs(), reply, got) == Accepting(old(dedup.Abs()), key, n, fits, item)
    {
      hide IsDuplicate, Commit;
      var dup := dedup.Check(key, n);
      if dup { return Ack(n, ACK_OK), Nothing; }
      if fits { dedup.DoCommit(key, n); }
      return Ack(n, if fits then ACK_OK else ACK_RETRY), if fits then item else Nothing;
    }

    method Handle(buf: seq<byte>, room: bool) returns (reply: Reply, got: Got)
      requires dedup.Valid()
      modifies dedup, dedup.entries
      ensures dedup.Valid()
      ensures Outcome(dedup.Abs(), reply, got) == HandleFrame(me, old(dedup.Abs()), buf, room)
    {
      hide Accepting, ParsePacket, NetParse;
      reply, got := Silent, Nothing;
      var p := ParsePacket(buf);
      if p.Bad? {
        if p.err == BadCrc && p.typ == T_LORA_MSG { reply := Ack(p.n, ACK_RETRY); }
        return;
      }
      if p.typ == T_REC_AKNG {
        if room { got := AckSeen(p.n, p.payload[0]); }
      } else if p.typ == T_LORA_SERIAL {
        if room { got := Bridge(p.payload); }
      } else if p.typ == T_NET {
        var nf := NetParse(p.payload);
        if nf.None? || nf.value.src == me.node { return; }
        var f := nf.value;
        var toMe := f.dst == me.node;
        if !toMe && f.dst != BROADCAST { return; }
        var fits := me.active && room && |f.ip| <= NET_MAX_IP;
        if !toMe {
          if fits { got := Packet(f.ip); }
          return;
        }
        if !me.active { return; }
        reply, got := Accept(NetKey(f.src), p.n, fits, Packet(f.ip));
      } else if p.typ != T_RAW_DATA {
        var text := CText(p.payload);
        reply, got := Accept(me.hash(text), p.n, room && text == p.payload, Message(text));
      }
    }
  }

  /** The frame was remembered: it was queued, and acknowledged as such. */
  predicate Committed(o: Outcome) { o.reply.Ack? && o.got != Nothing }

  /** The source and number under which a frame would be remembered. */
  function SourceOf(me: Me, buf: seq<byte>): Option<Accept>
  {
    match ParsePacket(buf)
    case Bad(_, _, _) => None
    case Ok(typ, n, payload) =>
      if typ == T_LORA_MSG then Some(Accept(me.hash(CText(payload)), n))
      else if typ == T_NET && NetParse(payload).Some? then Some(Accept(NetKey(NetParse(payload).value.src), n))
      else None
  }

  /** The table changes by one commit of the frame's own source, or not at all. */
  lemma {:induction false} CommitsItsSource(me: Me, t: Table, buf: seq<byte>, room: bool)
    requires t.Valid()
    ensures var o, s := HandleFrame(me, t, buf, room), SourceOf(me, buf);
            if Committed(o) then s.Some? && o.table == Commit(t, s.value.key, s.value.n) else o.table == t
  {
    hide IsDuplicate, Commit, ParsePacket, NetParse;
  }

  /** An intact unicast packet, at the board it names and at every other board. */
  lemma {:induction false} UnicastReachesOnlyItsNode(me: Me, t: Table, n: byte, dst: nat, src: nat,
                                                     ip: seq<byte>, room: bool)
    requires t.Valid() && 0 < dst < BROADCAST && 0 < src < BROADCAST && dst != src
    requires Ipv4Ok(ip) && |ip| <= NET_MAX_IP
    ensures var payload, key := NetPayload(dst, src, ip), NetKey(src);
            && |payload| <= MAX_PAYLOAD && SourceOf(me, Frame(T_NET, n, payload)) == Some(Accept(key, n))
            && var o, dup := HandleFrame(me, t, Frame(T_NET, n, payload), room), IsDuplicate(t, key, n);
               && (o.got == Packet(ip) <==> me.node == dst && me.active && room && !dup)
               && (o.got != Packet(ip) ==> o.got == Nothing)
               && o.table == (if o.got == Packet(ip) then Commit(t, key, n) else t)
               && o.reply == (if me.node != dst || !me.active then Silent
                              else Ack(n, if room || dup then ACK_OK else ACK_RETRY))
  {
    hide IsDuplicate, Commit, Ipv4Ok, Frame, ParsePacket;
    var payload := NetPayload(dst, src, ip);
    ParseInvertsFrame(T_NET, n, payload);
    NetRoundTrip(dst, src, ip);
  }

  /** A message is queued whole, and remembered, exactly when it is new, free of NULs and there is room. */
  lemma {:induction false} MessageQueuedIff(me: Me, t: Table, n: byte, text: seq<byte>, room: bool)
    requires t.Valid() && |text| <= MAX_PAYLOAD
    ensures var o, key := HandleFrame(me, t, Frame(T_LORA_MSG, n, text), room), me.hash(CText(text));
            && (o.got == Message(text) <==> room && 0 !in text && !IsDuplicate(t, key, n))
            && o.table == (if o.got == Message(text) then Commit(t, key, n) else t)
            && o.reply == Ack(n, if o.got == Message(text) || IsDuplicate(t, key, n) then ACK_OK else ACK_RETRY)
            && (o.got == Message(text) || o.got == Nothing)
            && SourceOf(me, Frame(T_LORA_MSG, n, text)) == Some(Accept(key, n))
  {
    hide IsDuplicate, Commit, Frame, ParsePacket;
    ParseInvertsFrame(T_LORA_MSG, n, text);
    if CText(text) != text { assert 0 in text; }
  }

  // ----- the other kinds of frame ------------------------------------------------------------------

  /** An acknowledgement is handed on with its number and its result, in that order, and nothing else happens. */
  lemma {:induction false} AckIsSeen(me: Me, t: Table, n: byte, result: byte, room: bool)
    requires t.Valid()
    ensures HandleFrame(me, t, AckFrame(n, result), room) ==
            Outcome(t, Silent, if room then AckSeen(n, result) else Nothing)
  {
    hide IsDuplicate, Commit;
    ParseInvertsAck(n, result);
  }

  /** Bridged bytes are handed on as they are, NULs included, without an answer. */
  lemma {:induction false} SerialIsBridged(me: Me, t: Table, n: byte, data: seq<byte>, room: bool)
    requires t.Valid() && |data| <= MAX_PAYLOAD
    ensures HandleFrame(me, t, Frame(T_LORA_SERIAL, n, data), room) ==
            Outcome(t, Silent, if room then Bridge(data) else Nothing)
  {
    hide IsDuplicate, Commit, Frame;
    ParseInvertsFrame(T_LORA_SERIAL, n, data);
  }

  /** The retired type is dropped without an answer. */
  lemma {:induction false} RawIsIgnored(me: Me, t: Table, n: byte, data: seq<byte>, room: bool)
    requires t.Valid() && |data| <= MAX_PAYLOAD
    ensures HandleFrame(me, t, Frame(T_RAW_DATA, n, data), room) == Outcome(t, Silent, Nothing)
  {
    hide IsDuplicate, Commit, Frame;
    ParseInvertsFrame(T_RAW_DATA, n, data);
  }

  /** An intact broadcast is handed on at every other board in network mode with room, repeats too, unanswered. */
  lemma {:induction false} BroadcastReachesAll(me: Me, t: Table, n: byte, src: nat, ip: seq<byte>, room: bool)
    requires t.Valid() && 0 < src < BROADCAST && me.node != BROADCAST && Ipv4Ok(ip) && |ip| <= NET_MAX_IP
    ensures var payload := NetPayload(BROADCAST, src, ip);
            && |payload| <= MAX_PAYLOAD
            && HandleFrame(me, t, Frame(T_NET, n, payload), room) ==
               Outcome(t, Silent, if me.node != src && me.active && room then Packet(ip) else Nothing)
  {
    hide IsDuplicate, Commit, Ipv4Ok, Frame, ParsePacket;
    ParseInvertsFrame(T_NET, n, NetPayload(BROADCAST, src, ip));
    NetRoundTrip(BROADCAST, src, ip);
  }

  /**
   * A message damaged in one byte behind its type, the number or the check byte included, is
   * refused under the number it then carries; any other kind of frame so damaged goes unanswered.
   */
  lemma {:induction false} DamagedIsRefused(me: Me, t: Table, typ: byte, n: byte, payload: seq<byte>,
                                            i: nat, b: byte, room: bool)
    requires t.Valid() && |payload| <= MAX_PAYLOAD && DataType(typ)
    requires 2 <= i < HEADER_LEN + |payload| && b != Frame(typ, n, payload)[i]
    ensures HandleFrame(me, t, Frame(typ, n, payload)[i := b], room) ==
            Outcome(t, if typ == T_LORA_MSG then Ack(if i == 2 then b else n, ACK_RETRY) else Silent, Nothing)
  {
    hide IsDuplicate, Commit, PacketCrc;
    OneByteChanged(typ, n, payload, i, b);
  }

  /** NET sources have keys of their own, marked by two letters. */
  lemma {:induction false} NetKeyIs(src: nat)
    requires src < 65536
    ensures NetKey(src) / 65536 == 0x4E45 && NetKey(src) % 65536 == src
  {
  }
}
