/**
 * One board's retried packets, messages and network packets alike, at one receiver, on a
 * channel that loses and detectably damages frames but does not reorder them, among the
 * traffic of any other boards.
 */
module LoraLink {
  import opened Bytes
  import opened IpPacket
  import opened LoraDedup
  import opened LoraFrame
  import opened LoraOnce
  import opened LoraRetry
  import opened LoraRx

  const ACK_QUEUE: nat := 4

  /** What the sender's task takes off its queue: a chat message, or a packet for the receiver's node. */
  datatype Load = Msg(text: seq<byte>) | Net(ip: seq<byte>)

  /** The receiver, the sender's node id, and the keys its packets are tracked under. */
  datatype Setup = Setup(receiver: Me, node: nat, keys: set<nat>)
  {
    predicate Ok() { 0 < node < BROADCAST && 0 < receiver.node < BROADCAST && node != receiver.node }

    function KeyOf(load: Load): nat
    {
      match load
      case Msg(text) => receiver.hash(CText(text))
      case Net(_) => NetKey(node)
    }

    /** What the senders of both kinds make sure of. */
    predicate Sendable(load: Load)
    {
      && KeyOf(load) in keys
      && match load
         case Msg(text) => |text| <= MAX_PAYLOAD
         case Net(ip) => Ipv4Ok(ip) && |ip| <= NET_MAX_IP
    }

    function FrameOf(count: nat, load: Load): seq<byte>
      requires Ok() && Sendable(load)
    {
      match load
      case Msg(text) => Frame(T_LORA_MSG, count % 256, text)
      case Net(ip) => Frame(T_NET, count % 256, NetPayload(receiver.node, node, ip))
    }
  }

  /** What the receiver hands on when it queues the load. */
  function GotOf(load: Load): Got
  {
    match load
    case Msg(text) => Message(text)
    case Net(ip) => Packet(ip)
  }

  /** A data frame in flight, labelled with the packet it is about. */
  datatype Sent = Sent(item: nat, frame: seq<byte>)

  /** An acknowledgement in flight; None is any but the receiver's of one of the sender's packets. */
  datatype Answer = Answer(item: Option<nat>, frame: seq<byte>)

  /** An acknowledgement waiting for the sender. */
  datatype Heard = Heard(item: Option<nat>, n: byte, value: byte)

  datatype Result = Result(item: nat, ok: bool)

  datatype Phase = Resting | Sending | Waiting

  /**
   * The sender, its acknowledgement queue, both directions of the channel, and the receiver's
   * table. `next` is the sequence counter before wrapping; loads, log, got and results record
   * what was begun, what was queued from any source, as what, and what was reported.
   */
  datatype Sys = Sys(
    next: nat, phase: Phase, item: nat, retry: Retry, sent: nat,
    ackq: seq<Heard>, data: seq<Sent>, acks: seq<Answer>, table: Table,
    loads: map<nat, Load>, log: seq<Item>, got: seq<Got>, results: seq<Result>)

  const START := Sys(0, Resting, 0, LoraRetry.Begin(0), 0, [], [], [], EMPTY, map[], [], [], [])

  datatype Event =
    | BeginItem(load: Load)        // a packet is taken off the send queue
    | SkipSeq                      // a frame that is not retried takes a sequence number
    | Transmit(radio: bool)        // false: the radio was busy
    | TakeAck | Timeout
    | DataArrives(room: bool, active: bool)   // active: the receiver is in network mode
    | DataLost | DataDamaged(buf: seq<byte>, active: bool)
    | OtherArrives(buf: seq<byte>, room: bool, active: bool)   // anything from any other board
    | AckArrives | AckLost
    | Overhear(n: byte, value: byte)   // another board's acknowledgement, of anything, this message included

  /** The receiver with its network mode of the moment. */
  function At(c: Setup, active: bool): Me { c.receiver.(active := active) }

  predicate Enabled(c: Setup, s: Sys, e: Event)
  {
    match e
    case BeginItem(load) => s.phase == Resting && c.Sendable(load)
    case SkipSeq => true
    case Transmit(_) => s.phase == Sending && s.item in s.loads && c.Ok() && c.Sendable(s.loads[s.item])
    case TakeAck => s.phase == Waiting && s.ackq != []
    case Timeout => s.phase == Waiting
    case DataArrives(_, _) => s.data != []
    case DataLost => s.data != []
    case DataDamaged(buf, _) => s.data != [] && ParsePacket(buf).Bad?
    case OtherArrives(buf, room, active) =>
      s.table.Valid() && (Committed(HandleFrame(At(c, active), s.table, buf, room)) ==>
        SourceOf(At(c, active), buf).Some? && SourceOf(At(c, active), buf).value.key !in c.keys)
    case AckArrives => s.acks != []
    case AckLost => s.acks != []
    case Overhear(_, _) => true
  }

  function Apply(s: Sys, ra: (Retry, Action)): Sys
  {
    match ra.1
    case Wait => s.(retry := ra.0)
    case Retransmit => s.(retry := ra.0, phase := Sending)
    case Success => s.(retry := ra.0, phase := Resting, results := s.results + [Result(s.item, true)])
    case Fail => s.(retry := ra.0, phase := Resting, results := s.results + [Result(s.item, false)])
  }

  /** The receiver's step on bytes it hears; count labels what it may queue, item its answer. */
  function Receive(me: Me, s: Sys, buf: seq<byte>, room: bool, count: nat, item: Option<nat>): Sys
    requires s.table.Valid()
  {
    var o := HandleFrame(me, s.table, buf, room);
    var s1 := s.(table := o.table,
                 acks := if o.reply.Ack? then s.acks + [Answer(item, AckFrame(o.reply.n, o.reply.result))] else s.acks);
    if Committed(o) && SourceOf(me, buf).Some?
    then s1.(log := s.log + [Item(SourceOf(me, buf).value.key, count)], got := s.got + [o.got])
    else s1
  }

  /** The number in a frame of another board, as the label of what it may queue. */
  function NumberOf(me: Me, buf: seq<byte>): nat
  {
    if SourceOf(me, buf).Some? then SourceOf(me, buf).value.n else 0
  }

  /** What the sender's own board hands on of a frame it hears; its table and its mode play no part. */
  function HearAck(c: Setup, s: Sys, a: Answer): Sys
  {
    var o := HandleFrame(Me(c.node, false, c.receiver.hash), EMPTY, a.frame, |s.ackq| < ACK_QUEUE);
    if o.got.AckSeen? then s.(ackq := s.ackq + [Heard(a.item, o.got.n, o.got.result)]) else s
  }

  function Step(c: Setup, s: Sys, e: Event): Sys
    requires Enabled(c, s, e) && s.table.Valid()
  {
    match e
    case BeginItem(load) =>
      s.(next := s.next + 1, phase := Sending, item := s.next, retry := LoraRetry.Begin(s.next % 256), sent := 0,
         ackq := [], loads := s.loads[s.next := load])
    case SkipSeq => s.(next := s.next + 1)
    case Transmit(radio) =>
      if !radio then Apply(s, OnTimeout(s.retry))
      else s.(phase := Waiting, sent := s.sent + 1,
              data := s.data + [Sent(s.item, c.FrameOf(s.item, s.loads[s.item]))])
    case TakeAck => Apply(s.(ackq := s.ackq[1..]), OnAck(s.retry, s.ackq[0].n, s.ackq[0].value))
    case Timeout => Apply(s, OnTimeout(s.retry))
    case DataArrives(room, active) =>
      Receive(At(c, active), s.(data := s.data[1..]), s.data[0].frame, room, s.data[0].item, Some(s.data[0].item))
    case DataLost => s.(data := s.data[1..])
    case DataDamaged(buf, active) =>
      Receive(At(c, active), s.(data := s.data[1..]), buf, true, 0, Some(s.data[0].item))
    case OtherArrives(buf, room, active) =>
      Receive(At(c, active), s, buf, room, NumberOf(At(c, active), buf), None)
    case AckArrives => HearAck(c, s.(acks := s.acks[1..]), s.acks[0])
    case AckLost => s.(acks := s.acks[1..])
    case Overhear(n, value) => s.(acks := s.acks + [Answer(None, AckFrame(n, value))])
  }

  lemma {:induction false} StepValid(c: Setup, s: Sys, e: Event)
    requires Enabled(c, s, e) && s.table.Valid()
    ensures Step(c, s, e).table.Valid()
  {
    hide HandleFrame, SourceOf, Setup.FrameOf, Committed, Setup.Sendable;
  }

  /** The packet of the next data frame, as the log would name it. */
  function Arriving(c: Setup, s: Sys): Option<Item>
  {
    if s.data != [] && s.data[0].item in s.loads then Some(Item(c.KeyOf(s.loads[s.data[0].item]), s.data[0].item))
    else None
  }

  /** What the four slots are good for: four sources, and a retry comes before fifteen others were queued. */
  predicate Remembered(c: Setup, s: Sys, e: Event)
  {
    e.DataArrives? && Arriving(c, s).Some? ==>
      StillRemembered(s.log, Arriving(c, s).value) && |Sources(s.log)| <= SLOTS
  }

  /** A number at most g past its key's last queued one. */
  predicate Close(log: seq<Item>, a: Item, g: nat)
  {
    var l := LastFrom(log, a.key);
    l > 0 ==> a.count <= log[l - 1].count + g
  }

  /**
   * How far numbers may be apart: a packet that arrives at most g past the last one queued
   * under its key, the current packet at most h past one whose acknowledgement is taken.
   */
  predicate Within(c: Setup, s: Sys, e: Event, g: nat, h: nat)
  {
    match e
    case DataArrives(_, _) => Arriving(c, s).Some? ==> Close(s.log, Arriving(c, s).value, g)
    case TakeAck => s.ackq != [] && s.ackq[0].item.Some? ==> s.item <= s.ackq[0].item.value + h
    case _ => true
  }

  /** The largest distance that a byte tells apart. */
  const NEAR: nat := 255

  /**
   * The sender takes a positive acknowledgement that is not the receiver's of one of its own
   * packets for one of the current packet, and that was not queued.
   */
  predicate Fooled(c: Setup, s: Sys, e: Event)
  {
    && e.TakeAck? && s.ackq != [] && s.ackq[0].item == None
    && s.ackq[0].n == s.retry.n && s.ackq[0].value == ACK_OK && !Logged(c, s, s.item)
  }

  /** The state after the events, or None if one of them was not enabled. */
  function Run(c: Setup, es: seq<Event>): (r: Option<Sys>)
    ensures r.Some? ==> r.value.table.Valid()
    decreases |es|
  {
    if es == [] then Some(START)
    else
      match Run(c, es[..|es| - 1])
      case None => None
      case Some(s) =>
        var e := es[|es| - 1];
        if Enabled(c, s, e) then (StepValid(c, s, e); Some(Step(c, s, e))) else None
  }

  ghost predicate AllRemembered(c: Setup, es: seq<Event>)
  {
    forall k :: 0 <= k < |es| && Run(c, es[..k]).Some? ==> Remembered(c, Run(c, es[..k]).value, es[k])
  }

  ghost predicate AllWithin(c: Setup, es: seq<Event>, g: nat, h: nat)
  {
    forall k :: 0 <= k < |es| && Run(c, es[..k]).Some? ==> Within(c, Run(c, es[..k]).value, es[k], g, h)
  }

  ghost predicate NeverFooled(c: Setup, es: seq<Event>)
  {
    forall k :: 0 <= k < |es| && Run(c, es[..k]).Some? ==> !Fooled(c, Run(c, es[..k]).value, es[k])
  }

  // ----- the invariant -----------------------------------------------------------------------

  predicate Known(c: Setup, s: Sys, item: nat) { item in s.loads && item <= s.item && c.Sendable(s.loads[item]) }

  /** One of the sender's packets, as the log names it. */
  predicate Logged(c: Setup, s: Sys, item: nat)
  {
    item in s.loads && Item(c.KeyOf(s.loads[item]), item) in s.log
  }

  /** The sender's packets were queued in order, under their own keys and with their own bytes. */
  predicate LogOk(c: Setup, s: Sys)
  {
    && s.table == After(WireLog(s.log)) && |s.got| == |s.log|
    && (forall i :: 0 <= i < |s.log| && s.log[i].key in c.keys ==>
          && Known(c, s, s.log[i].count) && s.log[i].key == c.KeyOf(s.loads[s.log[i].count])
          && s.got[i] == GotOf(s.loads[s.log[i].count]))
    && (forall i, k :: 0 <= i < k < |s.log| && s.log[i].key in c.keys && s.log[k].key in c.keys ==>
          s.log[i].count <= s.log[k].count)
  }

  /** And none of them twice. */
  predicate Once(c: Setup, s: Sys)
  {
    forall i, k :: 0 <= i < k < |s.log| && s.log[i].key in c.keys && s.log[k].key in c.keys ==>
      s.log[i].count < s.log[k].count
  }

  /** Data in flight: in order, not older than what was queued. */
  predicate DataOk(c: Setup, s: Sys)
  {
    && (forall i :: 0 <= i < |s.data| ==>
          Known(c, s, s.data[i].item) && c.Ok() &&
          s.data[i].frame == c.FrameOf(s.data[i].item, s.loads[s.data[i].item]))
    && (forall i, k :: 0 <= i < k < |s.data| ==> s.data[i].item <= s.data[k].item)
    && (forall i :: 0 <= i < |s.log| && s.log[i].key in c.keys && s.data != [] ==> s.log[i].count <= s.data[0].item)
  }

  /** A positive acknowledgement of one of the sender's packets is for one that was queued. */
  predicate AckOk(c: Setup, s: Sys, item: Option<nat>, n: byte, value: byte)
  {
    item.Some? ==> item.value <= s.item && (value == ACK_OK ==> n == item.value % 256 && Logged(c, s, item.value))
  }

  ghost predicate GoodAck(c: Setup, s: Sys, a: Answer)
  {
    exists n, v :: a.frame == AckFrame(n, v) && AckOk(c, s, a.item, n, v)
  }

  ghost predicate AcksOk(c: Setup, s: Sys)
  {
    (forall a :: a in s.acks ==> GoodAck(c, s, a)) &&
    (forall h :: h in s.ackq ==> AckOk(c, s, h.item, h.n, h.value))
  }

  /** The sender: one packet at a time, at most four transmissions, one result each. */
  predicate SenderOk(c: Setup, s: Sys)
  {
    && s.item <= s.next && (forall i :: i in s.loads ==> i < s.next && i <= s.item)
    && (s.phase != Resting ==>
          && s.item < s.next && Known(c, s, s.item)
          && s.retry.n == s.item % 256 && !s.retry.done && 1 <= s.retry.attempts <= MAX_RETRIES + 1
          && s.sent <= (if s.phase == Sending then s.retry.attempts - 1 else s.retry.attempts))
    && s.sent <= MAX_RETRIES + 1
    && (forall i :: 0 <= i < |s.results| ==>
          s.results[i].item in s.loads && (s.phase != Resting ==> s.results[i].item < s.item))
    && (forall i, k :: 0 <= i < k < |s.results| ==> s.results[i].item < s.results[k].item)
  }

  /** What holds of every run, whatever is heard and however far the numbers are apart. */
  predicate Inv(c: Setup, s: Sys) { LogOk(c, s) && DataOk(c, s) && SenderOk(c, s) }

  /** A reported success is one of a queued packet. */
  predicate Reported(c: Setup, s: Sys)
  {
    forall r :: r in s.results && r.ok ==> Logged(c, s, r.item)
  }
}
