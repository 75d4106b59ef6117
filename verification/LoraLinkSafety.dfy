/** What every step of a sender, its receiver and the boards around them keeps, and what holds over every run. */
module LoraLinkSafety {
  import opened Bytes
  import opened IpPacket
  import opened LoraDedup
  import opened LoraFrame
  import opened LoraLink
  import opened LoraOnce
  import opened LoraRetry
  import opened LoraRx

  // ----- the sender's side ---------------------------------------------------------------------

  lemma {:induction false} ApplyKeeps(c: Setup, s: Sys, ra: (Retry, Action))
    requires Inv(c, s) && s.phase != Resting
    requires ra == OnTimeout(s.retry) || ra == NextOrFail(s.retry) || ra == (s.retry, Wait)
             || ra == (s.retry.(done := true), Success)
    requires ra.1 == Wait ==> s.phase == Waiting
    ensures Inv(c, Apply(s, ra))
  {
    hide After, WireLog, Setup.FrameOf, Setup.Sendable, Setup.KeyOf;
    var t := Apply(s, ra);
    assert LogOk(c, t) && DataOk(c, t);
  }

  lemma {:induction false} SenderKeeps(c: Setup, s: Sys, e: Event)
    requires Inv(c, s) && Enabled(c, s, e)
    requires e.BeginItem? || e.SkipSeq? || e.Transmit? || e.TakeAck? || e.Timeout?
    ensures Inv(c, Step(c, s, e))
  {
    match e
    case BeginItem(load) => BeginKeeps(c, s, load);
    case SkipSeq => hide After, WireLog, Setup.FrameOf, Setup.Sendable, Setup.KeyOf;
    case Transmit(radio) =>
      hide Inv, Apply;
      if radio { SendKeeps(c, s); } else { SendingPhase(c, s); ApplyKeeps(c, s, OnTimeout(s.retry)); }
    case TakeAck => TakeAckKeeps(c, s);
    case Timeout =>
      hide Inv, Apply;
      SendingPhase(c, s);
      ApplyKeeps(c, s, OnTimeout(s.retry));
  }

  lemma {:induction false} TakeAckKeeps(c: Setup, s: Sys)
    requires Inv(c, s) && Enabled(c, s, TakeAck)
    ensures Inv(c, Step(c, s, TakeAck))
  {
    hide After, WireLog, Setup.FrameOf, Setup.Sendable, Setup.KeyOf;
    var u := s.(ackq := s.ackq[1..]);
    assert LogOk(c, u) && DataOk(c, u) && SenderOk(c, u);
    hide LogOk, DataOk, Apply;
    ApplyKeeps(c, u, OnAck(s.retry, s.ackq[0].n, s.ackq[0].value));
  }

  lemma {:induction false} BeginKeeps(c: Setup, s: Sys, load: Load)
    requires Inv(c, s) && Enabled(c, s, BeginItem(load))
    ensures Inv(c, Step(c, s, BeginItem(load)))
  {
    hide After, WireLog, Setup.FrameOf, Setup.Sendable, Setup.KeyOf;
    var t := Step(c, s, BeginItem(load));
    assert LogOk(c, t);
    assert DataOk(c, t);
  }

  lemma {:induction false} SendKeeps(c: Setup, s: Sys)
    requires Inv(c, s) && Enabled(c, s, Transmit(true))
    ensures Inv(c, Step(c, s, Transmit(true)))
  {
    hide After, WireLog, Setup.FrameOf, Setup.Sendable, Setup.KeyOf;
    var t := Step(c, s, Transmit(true));
    assert LogOk(c, t);
    assert DataOk(c, t);
  }

  lemma {:induction false} SendingPhase(c: Setup, s: Sys)
    requires Inv(c, s) && s.phase != Resting
    ensures !s.retry.done && OnTimeout(s.retry).1 != Wait
  {
    hide LogOk, DataOk;
  }

  // ----- the receiver's side ---------------------------------------------------------------------

  /** Whether the firmware's string of a message is the whole message. */
  predicate Whole(load: Load) { load.Msg? ==> 0 !in load.text }

  /** One of the sender's loads at the receiver, whatever the table, the room and the mode. */
  lemma {:induction false} LoadArrives(c: Setup, t: Table, count: nat, load: Load, room: bool, active: bool)
    requires t.Valid() && c.Ok() && c.Sendable(load)
    ensures var me, f, key, n := At(c, active), c.FrameOf(count, load), c.KeyOf(load), count % 256;
            var o := HandleFrame(me, t, f, room);
            && SourceOf(me, f) == Some(Accept(key, n))
            && (Committed(o) <==> o.got == GotOf(load))
            && (Committed(o) ==> !IsDuplicate(t, key, n) && o.table == Commit(t, key, n))
            && (!Committed(o) ==> o.table == t)
            && (o.reply.Ack? ==> o.reply.n == n
                                 && (o.reply.result == ACK_OK <==> Committed(o) || IsDuplicate(t, key, n)))
            && (room && active && Whole(load) ==>
                  (Committed(o) <==> !IsDuplicate(t, key, n)) && o.reply == Ack(n, ACK_OK))
  {
    hide IsDuplicate, Commit, Frame, HandleFrame, SourceOf, Ipv4Ok;
    match load
    case Msg(text) => MessageQueuedIff(At(c, active), t, count % 256, text, room);
    case Net(ip) => UnicastReachesOnlyItsNode(At(c, active), t, count % 256, c.receiver.node, c.node, ip, room);
  }

  /** The state's parts that the sender's side depends on. */
  lemma {:induction false} SenderCarries(c: Setup, s: Sys, t: Sys)
    requires SenderOk(c, s) && s.log <= t.log
    requires t == s.(data := t.data, table := t.table, acks := t.acks, ackq := t.ackq, log := t.log, got := t.got)
    ensures SenderOk(c, t)
  {
    hide Setup.Sendable, Setup.KeyOf;
    assert forall i: Item :: i in s.log ==> i in t.log;
  }

  /** One of the sender's packets joins the log behind all its others. */
  lemma {:induction false} OwnLogged(c: Setup, s: Sys, t: Sys, item: nat)
    requires LogOk(c, s) && DataOk(c, s) && s.data != [] && item == s.data[0].item && Known(c, s, item)
    requires t.log == s.log + [Item(c.KeyOf(s.loads[item]), item)] && t.got == s.got + [GotOf(s.loads[item])]
             && t.table == After(WireLog(t.log))
    requires t.loads == s.loads && t.item == s.item && t.data == s.data[1..]
    ensures LogOk(c, t) && DataOk(c, t)
  {
    hide After, WireLog, Setup.FrameOf, Setup.Sendable, Setup.KeyOf;
  }

  lemma {:induction false} FrameGone(c: Setup, s: Sys, t: Sys)
    requires LogOk(c, s) && DataOk(c, s) && s.data != []
    requires t.data == s.data[1..] && t.log == s.log && t.got == s.got && t.table == s.table
             && t.loads == s.loads && t.item == s.item
    ensures LogOk(c, t) && DataOk(c, t)
  {
    hide After, WireLog, Setup.FrameOf, Setup.Sendable, Setup.KeyOf;
    assert forall i :: 0 <= i < |t.data| ==> t.data[i] in s.data;
    assert t.data != [] ==> s.data[0].item <= t.data[0].item;
  }

  lemma {:induction false} DataArrivalKeeps(c: Setup, s: Sys, room: bool, active: bool)
    requires Inv(c, s) && s.data != [] && s.table.Valid()
    ensures Inv(c, Step(c, s, DataArrives(room, active)))
  {
    hide After, WireLog, IsDuplicate, Commit, HandleFrame, SourceOf, Committed;
    hide Setup.FrameOf, Setup.KeyOf, Setup.Sendable;
    var d := s.data[0];
    var load := s.loads[d.item];
    var o := HandleFrame(At(c, active), s.table, d.frame, room);
    var t := Step(c, s, DataArrives(room, active));
    LoadArrives(c, s.table, d.item, load, room, active);
    if Committed(o) {
      CommitLogs(s.log, Item(c.KeyOf(load), d.item));
      OwnLogged(c, s, t, d.item);
    } else {
      FrameGone(c, s, t);
    }
    SenderCarries(c, s, t);
  }

  lemma {:induction false} DamagedKeeps(c: Setup, s: Sys, buf: seq<byte>, active: bool)
    requires Inv(c, s) && s.data != [] && s.table.Valid() && ParsePacket(buf).Bad?
    ensures Inv(c, Step(c, s, DataDamaged(buf, active)))
  {
    hide After, WireLog, ParsePacket, Setup.FrameOf, Setup.KeyOf, Setup.Sendable, AckFrame;
    var t := Step(c, s, DataDamaged(buf, active));
    FrameGone(c, s, t);
    SenderCarries(c, s, t);
  }

  lemma {:induction false} OtherLogged(c: Setup, s: Sys, t: Sys, a: Item, got: Got)
    requires LogOk(c, s) && DataOk(c, s) && a.key !in c.keys
    requires t.log == s.log + [a] && t.got == s.got + [got] && t.table == After(WireLog(t.log))
    requires t.loads == s.loads && t.item == s.item && t.data == s.data
    ensures LogOk(c, t) && DataOk(c, t)
  {
    hide After, WireLog, Setup.FrameOf, Setup.Sendable, Setup.KeyOf;
  }

  /** Another board's frame: it may be queued under its own key, and puts nothing of the sender's out of order. */
  lemma {:induction false} OtherKeeps(c: Setup, s: Sys, buf: seq<byte>, room: bool, active: bool)
    requires Inv(c, s) && s.table.Valid() && Enabled(c, s, OtherArrives(buf, room, active))
    ensures Inv(c, Step(c, s, OtherArrives(buf, room, active)))
  {
    hide After, WireLog, Commit, HandleFrame, SourceOf, Committed, AckFrame;
    hide Setup.FrameOf, Setup.KeyOf, Setup.Sendable;
    var me := At(c, active);
    var o, t := HandleFrame(me, s.table, buf, room), Step(c, s, OtherArrives(buf, room, active));
    CommitsItsSource(me, s.table, buf, room);
    if Committed(o) {
      var x := SourceOf(me, buf).value;
      CommitLogs(s.log, Item(x.key, x.n));
      OtherLogged(c, s, t, Item(x.key, x.n), o.got);
    } else {
      assert LogOk(c, t) && DataOk(c, t);
    }
    SenderCarries(c, s, t);
  }

  // ----- without any condition ---------------------------------------------------------------------

  /** Nothing that can happen breaks the order, the keys, the bytes, the results or the limit on transmissions. */
  lemma {:induction false} StepKeeps(c: Setup, s: Sys, e: Event)
    requires Inv(c, s) && s.table.Valid() && Enabled(c, s, e)
    ensures Inv(c, Step(c, s, e))
  {
    hide After, WireLog, Receive, Setup.FrameOf, Setup.KeyOf, Setup.Sendable, ParsePacket;
    match e
    case BeginItem(_) => SenderKeeps(c, s, e);
    case SkipSeq => SenderKeeps(c, s, e);
    case Transmit(_) => SenderKeeps(c, s, e);
    case TakeAck => SenderKeeps(c, s, e);
    case Timeout => SenderKeeps(c, s, e);
    case DataArrives(room, active) => DataArrivalKeeps(c, s, room, active);
    case DataLost => FrameGone(c, s, Step(c, s, e)); SenderCarries(c, s, Step(c, s, e));
    case DataDamaged(buf, active) => DamagedKeeps(c, s, buf, active);
    case OtherArrives(buf, room, active) => OtherKeeps(c, s, buf, room, active);
    case AckArrives => AcksAside(c, s, Step(c, s, e));
    case AckLost => AcksAside(c, s, Step(c, s, e));
    case Overhear(n, v) => AcksAside(c, s, Step(c, s, e));
  }

  lemma {:induction false} AcksAside(c: Setup, s: Sys, t: Sys)
    requires Inv(c, s) && t == s.(acks := t.acks, ackq := t.ackq)
    ensures Inv(c, t)
  {
    hide After, WireLog, Setup.FrameOf, Setup.KeyOf, Setup.Sendable;
    assert LogOk(c, t) && DataOk(c, t);
    SenderCarries(c, s, t);
  }

  lemma {:induction false} StartOk(c: Setup)
    ensures Inv(c, START) && Once(c, START) && AcksOk(c, START) && Reported(c, START)
  {
  }

  /** The run up to its last event. */
  lemma {:induction false} RunStep(c: Setup, es: seq<Event>)
    requires es != [] && Run(c, es).Some?
    ensures var p, e := es[..|es| - 1], es[|es| - 1];
            Run(c, p).Some? && Enabled(c, Run(c, p).value, e) && Run(c, es).value == Step(c, Run(c, p).value, e)
    ensures forall k :: 0 <= k < |es| ==> es[..|es| - 1][..k] == es[..k]
  {
    hide Step, Enabled;
  }

  lemma {:induction false} RunKeeps(c: Setup, es: seq<Event>)
    requires Run(c, es).Some?
    ensures Inv(c, Run(c, es).value)
  {
    hide Step, Enabled, Inv;
    if es == [] {
      StartOk(c);
    } else {
      RunStep(c, es);
      RunKeeps(c, es[..|es| - 1]);
      StepKeeps(c, Run(c, es[..|es| - 1]).value, es[|es| - 1]);
    }
  }

  /** What holds of the sender's packets in every run. */
  predicate Faithful(c: Setup, s: Sys)
  {
    // Whatever was queued under one of the sender's keys is one of its packets, whole, and in order.
    && |s.got| == |s.log|
    && (forall i :: 0 <= i < |s.log| && s.log[i].key in c.keys ==>
          s.log[i].count in s.loads && s.log[i].key == c.KeyOf(s.loads[s.log[i].count])
          && s.got[i] == GotOf(s.loads[s.log[i].count]))
    && (forall i, k :: 0 <= i < k < |s.log| && s.log[i].key in c.keys && s.log[k].key in c.keys ==>
          s.log[i].count <= s.log[k].count)
    // One result for each packet, after at most four transmissions.
    && (forall i, k :: 0 <= i < k < |s.results| ==> s.results[i].item < s.results[k].item)
    && s.sent <= MAX_RETRIES + 1
  }

  /**
   * Over every run, whatever other boards send or acknowledge and however the numbers wrap:
   * the sender's messages and network packets are queued in order, with their own bytes, and
   * each gets at most four transmissions and one result.
   */
  lemma {:induction false} LinkIsFaithful(c: Setup, es: seq<Event>)
    requires Run(c, es).Some?
    ensures Faithful(c, Run(c, es).value)
  {
    RunKeeps(c, es);
    hide Run, After, WireLog, Setup.KeyOf, Setup.FrameOf, Setup.Sendable;
  }

  // ----- at most once, within the window -----------------------------------------------------------------

  /** With four sources, a retry inside the window is not queued again. */
  lemma {:induction false} QueuedIsNew(c: Setup, s: Sys, a: Item)
    requires LogOk(c, s) && DataOk(c, s) && Once(c, s) && Arriving(c, s) == Some(a) && a.key in c.keys
    requires StillRemembered(s.log, a) && |Sources(s.log)| <= SLOTS
    requires !IsDuplicate(s.table, a.key, a.count % 256)
    ensures a !in s.log
  {
    hide After, WireLog, IsDuplicate, Setup.FrameOf, Setup.KeyOf, Sources, StillRemembered;
    assert InOrder(s.log, a);
    if a in s.log { RememberedIsRefused(s.log, a); }
  }

  lemma {:induction false} OnceArrives(c: Setup, s: Sys, room: bool, active: bool)
    requires Inv(c, s) && Once(c, s) && s.data != [] && s.table.Valid() && Remembered(c, s, DataArrives(room, active))
    ensures Once(c, Step(c, s, DataArrives(room, active)))
  {
    hide After, WireLog, IsDuplicate, Commit, HandleFrame, SourceOf, Committed, Sources, StillRemembered;
    hide Setup.FrameOf, Setup.KeyOf;
    var d := s.data[0];
    var load := s.loads[d.item];
    var o := HandleFrame(At(c, active), s.table, d.frame, room);
    LoadArrives(c, s.table, d.item, load, room, active);
    if Committed(o) {
      var a := Item(c.KeyOf(load), d.item);
      QueuedIsNew(c, s, a);
      forall i | 0 <= i < |s.log| && s.log[i].key in c.keys ensures s.log[i].count < d.item {
        assert s.log[i] in s.log && s.log[i] != a;
      }
    }
  }

  lemma {:induction false} OnceOther(c: Setup, s: Sys, buf: seq<byte>, room: bool, active: bool)
    requires Once(c, s) && s.table.Valid() && Enabled(c, s, OtherArrives(buf, room, active))
    ensures Once(c, Step(c, s, OtherArrives(buf, room, active)))
  {
    hide HandleFrame, SourceOf, Committed, AckFrame;
  }

  lemma {:induction false} OnceKeeps(c: Setup, s: Sys, e: Event)
    requires Inv(c, s) && Once(c, s) && s.table.Valid() && Enabled(c, s, e) && Remembered(c, s, e)
    ensures Once(c, Step(c, s, e))
  {
    hide Inv, Remembered, ParsePacket, Setup.FrameOf, Setup.KeyOf, Setup.Sendable;
    match e
    case DataArrives(room, active) => OnceArrives(c, s, room, active);
    case OtherArrives(buf, room, active) => OnceOther(c, s, buf, room, active);
    case DataDamaged(buf, active) => DamagedHasNoSource(At(c, active), s.table, buf); hide HandleFrame, Committed;
    case _ => LogStays(c, s, e); hide Step;
  }

  lemma {:induction false} LogStays(c: Setup, s: Sys, e: Event)
    requires s.table.Valid() && Enabled(c, s, e) && !e.DataArrives? && !e.OtherArrives?
    ensures Step(c, s, e).log == s.log
  {
    hide ParsePacket, Setup.FrameOf, Setup.KeyOf, Setup.Sendable;
  }

  /** Over every run among any other boards: with four sources and retries inside the window nothing is queued twice. */
  lemma {:induction false} LinkQueuesOnce(c: Setup, es: seq<Event>)
    requires Run(c, es).Some? && AllRemembered(c, es)
    ensures Once(c, Run(c, es).value)
  {
    hide Step, Enabled, Inv, Once, Remembered;
    if es == [] {
      StartOk(c);
    } else {
      var p, e := es[..|es| - 1], es[|es| - 1];
      RunStep(c, es);
      RunKeeps(c, p);
      assert forall k :: 0 <= k < |p| ==> p[k] == es[k];
      LinkQueuesOnce(c, p);
      OnceKeeps(c, Run(c, p).value, e);
    }
  }

  // ----- acknowledgements, while numbers are near -----------------------------------------------------------

  /** The log and the record of what was begun only grow. */
  predicate Grows(s: Sys, t: Sys)
  {
    s.item <= t.item && s.log <= t.log && forall i :: i in s.loads ==> i in t.loads && t.loads[i] == s.loads[i]
  }

  lemma {:induction false} AckCarries(c: Setup, s: Sys, t: Sys, item: Option<nat>, n: byte, v: byte)
    requires AckOk(c, s, item, n, v) && Grows(s, t)
    ensures AckOk(c, t, item, n, v)
  {
  }

  lemma {:induction false} GoodAckCarries(c: Setup, s: Sys, t: Sys, a: Answer)
    requires GoodAck(c, s, a) && Grows(s, t)
    ensures GoodAck(c, t, a)
  {
    hide AckFrame, AckOk, Grows;
    var n, v :| a.frame == AckFrame(n, v) && AckOk(c, s, a.item, n, v);
    AckCarries(c, s, t, a.item, n, v);
  }

  lemma {:induction false} AcksCarry(c: Setup, s: Sys, t: Sys)
    requires AcksOk(c, s) && Grows(s, t)
    requires (forall a :: a in t.acks ==> a in s.acks) && forall h :: h in t.ackq ==> h in s.ackq
    ensures AcksOk(c, t)
  {
    hide GoodAck, AckOk, Grows;
    forall a | a in t.acks ensures GoodAck(c, t, a) { GoodAckCarries(c, s, t, a); }
    forall h | h in t.ackq ensures AckOk(c, t, h.item, h.n, h.value) { AckCarries(c, s, t, h.item, h.n, h.value); }
  }

  /** At most one more acknowledgement in flight, and that a good one. */
  lemma {:induction false} AcksGrow(c: Setup, s: Sys, t: Sys, item: Option<nat>, reply: Reply)
    requires AcksOk(c, s) && Grows(s, t) && t.ackq == s.ackq
    requires t.acks == if reply.Ack? then s.acks + [Answer(item, AckFrame(reply.n, reply.result))] else s.acks
    requires reply.Ack? ==> AckOk(c, t, item, reply.n, reply.result)
    ensures AcksOk(c, t)
  {
    hide AckFrame, AckOk, Grows;
    AcksCarry(c, s, t.(acks := s.acks)) by { assert Grows(s, t.(acks := s.acks)) by { GrowsAnyway(s, t); } }
    forall a | a in t.acks ensures GoodAck(c, t, a) {
      if a in s.acks { GoodAckCarries(c, s, t, a); } else { assert a == Answer(item, AckFrame(reply.n, reply.result)); }
    }
    AcksQueueSame(c, s, t);
  }

  lemma {:induction false} GrowsAnyway(s: Sys, t: Sys)
    requires Grows(s, t)
    ensures Grows(s, t.(acks := s.acks))
  {
  }

  lemma {:induction false} AcksQueueSame(c: Setup, s: Sys, t: Sys)
    requires AcksOk(c, s) && Grows(s, t) && t.ackq == s.ackq
    ensures forall h :: h in t.ackq ==> AckOk(c, t, h.item, h.n, h.value)
  {
    hide GoodAck, AckOk, Grows;
    forall h | h in t.ackq ensures AckOk(c, t, h.item, h.n, h.value) { AckCarries(c, s, t, h.item, h.n, h.value); }
  }

  /** Within 256 numbers, what the receiver takes for a repeat it did queue. */
  lemma {:induction false} RefusedIsLogged(c: Setup, s: Sys, a: Item)
    requires LogOk(c, s) && DataOk(c, s) && Arriving(c, s) == Some(a) && a.key in c.keys && Close(s.log, a, NEAR)
    requires IsDuplicate(s.table, a.key, a.count % 256)
    ensures a in s.log
  {
    hide After, WireLog, IsDuplicate, Setup.FrameOf, Setup.KeyOf;
    assert InOrder(s.log, a);
    RefusedWasQueued(s.log, a);
  }

  /** The answer to one of the sender's packets: positive only if it was queued, now or before. */
  lemma {:induction false} AcksOnArrival(c: Setup, s: Sys, room: bool, active: bool)
    requires Inv(c, s) && AcksOk(c, s) && s.data != [] && s.table.Valid()
    requires Within(c, s, DataArrives(room, active), NEAR, NEAR)
    ensures AcksOk(c, Step(c, s, DataArrives(room, active)))
  {
    hide After, WireLog, IsDuplicate, Commit, HandleFrame, SourceOf, Committed, AcksOk, Close;
    hide Setup.FrameOf, Setup.KeyOf;
    var d := s.data[0];
    var load := s.loads[d.item];
    var a := Item(c.KeyOf(load), d.item);
    var o := HandleFrame(At(c, active), s.table, d.frame, room);
    var t := Step(c, s, DataArrives(room, active));
    LoadArrives(c, s.table, d.item, load, room, active);
    if Committed(o) { assert t.log[|s.log|] == a; }
    else if IsDuplicate(s.table, a.key, a.count % 256) { RefusedIsLogged(c, s, a); }
    AcksGrow(c, s, t, Some(d.item), o.reply);
  }

  lemma {:induction false} AckIsHeard(c: Setup, s: Sys)
    requires AcksOk(c, s) && s.acks != []
    ensures AcksOk(c, HearAck(c, s.(acks := s.acks[1..]), s.acks[0]))
  {
    hide AckFrame, HandleFrame;
    var a, u := s.acks[0], s.(acks := s.acks[1..]);
    var t := HearAck(c, u, a);
    assert a in s.acks;
    var n, v :| a.frame == AckFrame(n, v) && AckOk(c, s, a.item, n, v);
    AckIsSeen(Me(c.node, false, c.receiver.hash), EMPTY, n, v, |s.ackq| < ACK_QUEUE);
    assert t == u || t == u.(ackq := s.ackq + [Heard(a.item, n, v)]);
    hide HearAck, GoodAck;
    forall g | g in t.acks ensures GoodAck(c, t, g) { GoodAckCarries(c, s, t, g); }
  }

  /** The sender's own steps forget acknowledgements at most. */
  lemma {:induction false} SenderGrows(c: Setup, s: Sys, e: Event)
    requires Inv(c, s) && s.table.Valid() && Enabled(c, s, e)
    requires e.BeginItem? || e.SkipSeq? || e.Transmit? || e.TakeAck? || e.Timeout?
    ensures var t := Step(c, s, e);
            Grows(s, t) && t.acks == s.acks && forall h :: h in t.ackq ==> h in s.ackq
  {
    hide LogOk, DataOk, Setup.FrameOf, Setup.KeyOf, Setup.Sendable;
  }

  lemma {:induction false} AcksKeep(c: Setup, s: Sys, e: Event)
    requires Inv(c, s) && AcksOk(c, s) && s.table.Valid() && Enabled(c, s, e) && Within(c, s, e, NEAR, NEAR)
    ensures AcksOk(c, Step(c, s, e))
  {
    hide Inv, AcksOk, Receive, AckFrame, HandleFrame, ParsePacket, Setup.FrameOf, Setup.KeyOf, Setup.Sendable;
    var t := Step(c, s, e);
    match e
    case DataArrives(room, active) => AcksOnArrival(c, s, room, active);
    case DataLost => AcksCarry(c, s, t);
    case DataDamaged(buf, active) => DamagedAck(c, s, buf, active);
    case OtherArrives(buf, room, active) => OtherAck(c, s, buf, room, active);
    case AckArrives => AckIsHeard(c, s);
    case AckLost => AcksCarry(c, s, t);
    case Overhear(n, v) => AcksGrow(c, s, t, None, Ack(n, v));
    case _ => SenderGrows(c, s, e); AcksCarry(c, s, t);
  }

  lemma {:induction false} DamagedAck(c: Setup, s: Sys, buf: seq<byte>, active: bool)
    requires Inv(c, s) && AcksOk(c, s) && s.data != [] && s.table.Valid() && ParsePacket(buf).Bad?
    ensures AcksOk(c, Step(c, s, DataDamaged(buf, active)))
  {
    hide LogOk, ParsePacket, AckFrame, AcksOk, Setup.FrameOf, Setup.KeyOf, Setup.Sendable;
    var o := HandleFrame(At(c, active), s.table, buf, true);
    AcksGrow(c, s, Step(c, s, DataDamaged(buf, active)), Some(s.data[0].item), o.reply);
  }

  lemma {:induction false} OtherAck(c: Setup, s: Sys, buf: seq<byte>, room: bool, active: bool)
    requires AcksOk(c, s) && s.table.Valid()
    ensures AcksOk(c, Receive(At(c, active), s, buf, room, NumberOf(At(c, active), buf), None))
  {
    hide HandleFrame, SourceOf, Committed, AckFrame, AcksOk;
    var me := At(c, active);
    AcksGrow(c, s, Receive(me, s, buf, room, NumberOf(me, buf), None), None, HandleFrame(me, s.table, buf, room).reply);
  }

  // ----- what a reported success means ----------------------------------------------------------------

  lemma {:induction false} SameCounter(x: nat, y: nat)
    requires y <= x <= y + NEAR && x % 256 == y % 256
    ensures x == y
  {
  }

  /** Taking an acknowledgement reports a packet that was not queued exactly when it is a stranger's. */
  lemma {:induction false} FalseSuccessIff(c: Setup, s: Sys)
    requires Inv(c, s) && AcksOk(c, s) && Enabled(c, s, TakeAck) && Within(c, s, TakeAck, NEAR, NEAR)
    ensures Step(c, s, TakeAck).results == s.results + [Result(s.item, true)] && !Logged(c, s, s.item) <==>
            Fooled(c, s, TakeAck)
  {
    hide LogOk, DataOk, GoodAck, Logged, Setup.FrameOf, Setup.KeyOf, Setup.Sendable;
    var h := s.ackq[0];
    assert h in s.ackq;
    if h.item.Some? && h.n == s.retry.n && h.value == ACK_OK { SameCounter(s.item, h.item.value); }
    var more := s.results + [Result(s.item, true)];
    assert |more| != |s.results| && more[|s.results|].ok;
    assert (s.results + [Result(s.item, false)])[|s.results|] != more[|s.results|];
  }

  /** The results are those from before, and a success only comes with an acknowledgement. */
  lemma {:induction false} ResultsGrow(c: Setup, s: Sys, e: Event)
    requires s.table.Valid() && Enabled(c, s, e)
    ensures var t := Step(c, s, e);
            || t.results == s.results || t.results == s.results + [Result(s.item, false)]
            || (e.TakeAck? && t.results == s.results + [Result(s.item, true)])
  {
    hide HandleFrame, SourceOf, Committed, ParsePacket, Setup.FrameOf, Setup.KeyOf, Setup.Sendable;
  }

  lemma {:induction false} StateGrows(c: Setup, s: Sys, e: Event)
    requires Inv(c, s) && s.table.Valid() && Enabled(c, s, e)
    ensures Grows(s, Step(c, s, e))
  {
    hide LogOk, DataOk, HandleFrame, SourceOf, Committed, ParsePacket, Setup.FrameOf, Setup.KeyOf, Setup.Sendable;
  }

  lemma {:induction false} ReportedStays(c: Setup, s: Sys, t: Sys)
    requires Inv(c, s) && Reported(c, s) && Grows(s, t)
    ensures forall r :: r in s.results && r.ok ==> Logged(c, t, r.item)
  {
    hide LogOk, DataOk, Setup.KeyOf, Setup.Sendable;
  }

  lemma {:induction false} ReportedKeeps(c: Setup, s: Sys, e: Event)
    requires Inv(c, s) && AcksOk(c, s) && Reported(c, s) && s.table.Valid() && Enabled(c, s, e)
    requires Within(c, s, e, NEAR, NEAR)
    ensures Reported(c, Step(c, s, e)) <==> !Fooled(c, s, e)
  {
    StateGrows(c, s, e);
    ResultsGrow(c, s, e);
    var t := Step(c, s, e);
    ReportedStays(c, s, t);
    if e.TakeAck? {
      FalseSuccessIff(c, s);
      LogStays(c, s, e);
      TakeAckLeaves(c, s);
      assert t.results == s.results + [Result(s.item, true)] ==> Result(s.item, true) in t.results;
    }
    hide Inv, AcksOk, Step, Enabled, Grows, Logged;
  }

  lemma {:induction false} TakeAckLeaves(c: Setup, s: Sys)
    requires Enabled(c, s, TakeAck) && s.table.Valid()
    ensures var t := Step(c, s, TakeAck); Logged(c, t, s.item) <==> Logged(c, s, s.item)
  {
  }

  lemma {:induction false} AcksRun(c: Setup, es: seq<Event>)
    requires Run(c, es).Some? && AllWithin(c, es, NEAR, NEAR)
    ensures AcksOk(c, Run(c, es).value)
  {
    hide Step, Enabled, Inv, AcksOk, Within;
    if es == [] {
      StartOk(c);
    } else {
      var p := es[..|es| - 1];
      RunStep(c, es);
      RunKeeps(c, p);
      assert forall k :: 0 <= k < |p| ==> p[k] == es[k];
      AcksRun(c, p);
      AcksKeep(c, Run(c, p).value, es[|es| - 1]);
    }
  }

  /** Whatever success is reported, at any time of the run, is one of a packet queued by then. */
  ghost predicate AlwaysReported(c: Setup, es: seq<Event>)
  {
    forall k :: 0 <= k <= |es| && Run(c, es[..k]).Some? ==> Reported(c, Run(c, es[..k]).value)
  }

  /**
   * Over every run among any other boards, with fewer than 256 numbers between packets: what
   * is reported delivered was queued by then, if and only if the sender never takes another
   * board's positive acknowledgement with the number of a packet not yet queued.
   */
  lemma {:induction false} SuccessIsTrueIff(c: Setup, es: seq<Event>)
    requires Run(c, es).Some? && AllWithin(c, es, NEAR, NEAR)
    ensures AlwaysReported(c, es) <==> NeverFooled(c, es)
  {
    hide Step, Enabled, Inv, AcksOk, Within, Reported, Fooled;
    assert es[..|es|] == es;
    if es == [] {
      StartOk(c);
    } else {
      var p, e := es[..|es| - 1], es[|es| - 1];
      RunStep(c, es);
      assert forall k :: 0 <= k < |p| ==> p[k] == es[k];
      assert p[..|p|] == p;
      SuccessIsTrueIff(c, p);
      RunKeeps(c, p);
      AcksRun(c, p);
      if Reported(c, Run(c, p).value) { ReportedKeeps(c, Run(c, p).value, e); }
      LastOfRun(c, es);
    }
  }

  /** Both sides of it are about a shorter run and the last step. */
  lemma {:induction false} LastOfRun(c: Setup, es: seq<Event>)
    requires es != [] && Run(c, es).Some? && Run(c, es[..|es| - 1]).Some?
    ensures var p, e := es[..|es| - 1], es[|es| - 1];
            && (AlwaysReported(c, es) <==> AlwaysReported(c, p) && Reported(c, Run(c, es).value))
            && (NeverFooled(c, es) <==> NeverFooled(c, p) && !Fooled(c, Run(c, p).value, e))
            && (AlwaysReported(c, p) ==> Reported(c, Run(c, p).value))
  {
    hide Run, Reported, Fooled;
    var p := es[..|es| - 1];
    assert es[..|es|] == es && p[..|p|] == p;
    forall k | 0 <= k <= |p| ensures p[..k] == es[..k] && (k < |p| ==> p[k] == es[k]) {}
    if AlwaysReported(c, es) {
      forall k | 0 <= k <= |p| && Run(c, p[..k]).Some? ensures Reported(c, Run(c, p[..k]).value) {
        assert Run(c, es[..k]).Some?;
      }
    }
    if AlwaysReported(c, p) && Reported(c, Run(c, es).value) {
      forall k | 0 <= k <= |es| && Run(c, es[..k]).Some? ensures Reported(c, Run(c, es[..k]).value) {
        if k <= |p| { assert Run(c, p[..k]).Some?; }
      }
    }
    if NeverFooled(c, es) {
      forall k | 0 <= k < |p| && Run(c, p[..k]).Some? ensures !Fooled(c, Run(c, p[..k]).value, p[k]) {
        assert Run(c, es[..k]).Some?;
      }
      assert Run(c, es[..|p|]).Some?;
    }
    if NeverFooled(c, p) && !Fooled(c, Run(c, p).value, es[|es| - 1]) {
      forall k | 0 <= k < |es| && Run(c, es[..k]).Some? ensures !Fooled(c, Run(c, es[..k]).value, es[k]) {
        if k < |p| { assert Run(c, p[..k]).Some?; }
      }
    }
  }

  // ----- all of it together ---------------------------------------------------------------------------

  /** Queued exactly once, under its own key and with its own bytes. */
  predicate QueuedOnce(c: Setup, s: Sys, item: nat)
  {
    && item in s.loads && |s.got| == |s.log|
    && exists i :: 0 <= i < |s.log| && s.log[i] == Item(c.KeyOf(s.loads[item]), item) && s.got[i] == GotOf(s.loads[item])
                   && forall k :: 0 <= k < |s.log| && k != i ==> s.log[k] != s.log[i]
  }

  /** Every reported success was queued, exactly once. */
  predicate Honest(c: Setup, s: Sys) { forall r :: r in s.results && r.ok ==> QueuedOnce(c, s, r.item) }

  lemma {:induction false} LoggedOnce(c: Setup, s: Sys, item: nat)
    requires LogOk(c, s) && Once(c, s) && Logged(c, s, item)
    requires item in s.loads && c.KeyOf(s.loads[item]) in c.keys
    ensures QueuedOnce(c, s, item)
  {
    hide After, WireLog, Setup.KeyOf, Setup.Sendable;
    var a := Item(c.KeyOf(s.loads[item]), item);
    var i :| 0 <= i < |s.log| && s.log[i] == a;
    assert forall k :: 0 <= k < |s.log| && k != i ==> s.log[k] != s.log[i];
  }

  /** Only loads under the sender's keys are ever begun. */
  lemma {:induction false} LoadsAreKeyed(c: Setup, es: seq<Event>)
    requires Run(c, es).Some?
    ensures forall i :: i in Run(c, es).value.loads ==> c.KeyOf(Run(c, es).value.loads[i]) in c.keys
  {
    if es != [] {
      LoadsAreKeyed(c, es[..|es| - 1]);
      LoadsStay(c, Run(c, es[..|es| - 1]).value, es[|es| - 1]);
      hide Step, Enabled;
    }
  }

  lemma {:induction false} LoadsStay(c: Setup, s: Sys, e: Event)
    requires s.table.Valid() && Enabled(c, s, e)
    ensures var t := Step(c, s, e);
            t.loads == s.loads || (e.BeginItem? && c.KeyOf(e.load) in c.keys && t.loads == s.loads[s.next := e.load])
  {
    hide HandleFrame, SourceOf, Committed, Setup.FrameOf;
  }

  lemma {:induction false} ReportedOnce(c: Setup, es: seq<Event>)
    requires Run(c, es).Some? && Once(c, Run(c, es).value) && Reported(c, Run(c, es).value)
    ensures Honest(c, Run(c, es).value)
  {
    RunKeeps(c, es);
    LoadsAreKeyed(c, es);
    hide Run, LogOk, Once, DataOk, SenderOk, QueuedOnce, Setup.KeyOf;
    var s := Run(c, es).value;
    forall r | r in s.results && r.ok ensures QueuedOnce(c, s, r.item) { LoggedOnce(c, s, r.item); }
  }

  /**
   * Over every run among any other boards, with four sources, retries inside the window,
   * numbers within 256 and no acknowledgement mistaken: every reported success was queued
   * exactly once, and no packet is queued twice.
   */
  lemma {:induction false} LinkIsSafe(c: Setup, es: seq<Event>)
    requires Run(c, es).Some? && AllRemembered(c, es) && AllWithin(c, es, NEAR, NEAR) && NeverFooled(c, es)
    ensures var s := Run(c, es).value; Faithful(c, s) && Once(c, s) && Honest(c, s)
  {
    LinkIsFaithful(c, es);
    LinkQueuesOnce(c, es);
    SuccessIsTrueIff(c, es);
    assert es[..|es|] == es;
    hide Run, Faithful, Once, Honest, Reported;
    ReportedOnce(c, es);
  }

  // ----- two boards by themselves ------------------------------------------------------------------

  predicate Alone(e: Event) { !e.OtherArrives? && !e.Overhear? }

  predicate AllAlone(es: seq<Event>) { forall k :: 0 <= k < |es| ==> Alone(es[k]) }

  /** Nothing in the system comes from anyone else. */
  predicate OnlyOwn(c: Setup, s: Sys)
  {
    && (forall i :: 0 <= i < |s.log| ==> s.log[i].key in c.keys)
    && (forall a :: a in s.acks ==> a.item.Some?)
    && (forall h :: h in s.ackq ==> h.item.Some?)
  }

  lemma {:induction false} ReceiveStaysOwn(c: Setup, s: Sys, me: Me, buf: seq<byte>, room: bool, count: nat, item: nat)
    requires OnlyOwn(c, s) && s.table.Valid()
    requires Committed(HandleFrame(me, s.table, buf, room)) && SourceOf(me, buf).Some? ==>
               SourceOf(me, buf).value.key in c.keys
    ensures OnlyOwn(c, Receive(me, s, buf, room, count, Some(item)))
  {
    hide HandleFrame, SourceOf, Committed, AckFrame;
  }

  lemma {:induction false} OwnArrival(c: Setup, s: Sys, room: bool, active: bool)
    requires Inv(c, s) && OnlyOwn(c, s) && s.table.Valid() && s.data != []
    ensures OnlyOwn(c, Step(c, s, DataArrives(room, active)))
  {
    hide HandleFrame, SourceOf, Committed, Setup.FrameOf, Setup.KeyOf, Receive;
    var d := s.data[0];
    LoadArrives(c, s.table, d.item, s.loads[d.item], room, active);
    ReceiveStaysOwn(c, s.(data := s.data[1..]), At(c, active), d.frame, room, d.item, d.item);
  }

  lemma {:induction false} OwnStays(c: Setup, s: Sys, e: Event)
    requires Inv(c, s) && OnlyOwn(c, s) && s.table.Valid() && Enabled(c, s, e) && Alone(e)
    ensures OnlyOwn(c, Step(c, s, e))
  {
    hide HandleFrame, SourceOf, Committed, Setup.FrameOf, Setup.KeyOf, ParsePacket, Inv, Receive;
    match e
    case DataArrives(room, active) => OwnArrival(c, s, room, active);
    case DataDamaged(buf, active) =>
      DamagedHasNoSource(At(c, active), s.table, buf);
      ReceiveStaysOwn(c, s.(data := s.data[1..]), At(c, active), buf, true, 0, s.data[0].item);
    case AckArrives => assert s.acks[0] in s.acks;
    case _ =>
  }

  lemma {:induction false} DamagedHasNoSource(me: Me, t: Table, buf: seq<byte>)
    requires t.Valid() && ParsePacket(buf).Bad?
    ensures SourceOf(me, buf) == None && !Committed(HandleFrame(me, t, buf, true))
  {
    hide ParsePacket;
  }

  /** Without other boards a retry always finds its packet newest in the log, and four keys are enough. */
  lemma {:induction false} AloneRemembers(c: Setup, s: Sys, e: Event)
    requires Inv(c, s) && Once(c, s) && OnlyOwn(c, s) && |c.keys| <= SLOTS
    ensures Remembered(c, s, e)
  {
    hide After, WireLog, SenderOk, Setup.FrameOf, Setup.KeyOf, Setup.Sendable, Sources;
    SourcesInKeys(s.log, c.keys);
    if Arriving(c, s).Some? {
      var a := Arriving(c, s).value;
      forall i | 0 <= i < |s.log| && s.log[i] == a ensures i == |s.log| - 1 {
        var last := s.log[|s.log| - 1];
        assert last.key in c.keys && last.count <= a.count;
      }
    }
  }

  lemma {:induction false} SourcesInKeys(log: seq<Item>, keys: set<nat>)
    requires forall i :: 0 <= i < |log| ==> log[i].key in keys
    ensures |Sources(log)| <= |keys|
  {
    forall k | k in Sources(log) ensures k in keys { var i :| 0 <= i < |log| && log[i].key == k; }
    SubsetCardinality(Sources(log), keys);
  }

  /** Two boards by themselves never queue a packet twice, and hear no stranger. */
  lemma {:induction false} TwoBoardsQueueOnce(c: Setup, es: seq<Event>)
    requires Run(c, es).Some? && AllAlone(es) && |c.keys| <= SLOTS
    ensures Once(c, Run(c, es).value) && OnlyOwn(c, Run(c, es).value)
  {
    hide Step, Enabled, Inv, Once, OnlyOwn, Remembered, Alone;
    if es == [] {
      StartOk(c);
      NothingYet(c);
    } else {
      var p, e := es[..|es| - 1], es[|es| - 1];
      RunStep(c, es);
      RunKeeps(c, p);
      TwoBoardsQueueOnce(c, p);
      var s := Run(c, p).value;
      AloneRemembers(c, s, e);
      OnceKeeps(c, s, e);
      OwnStays(c, s, e);
    }
  }

  lemma {:induction false} NothingYet(c: Setup)
    ensures OnlyOwn(c, START)
  {
  }

  lemma {:induction false} OwnIsNotFooled(c: Setup, s: Sys, e: Event)
    requires OnlyOwn(c, s)
    ensures !Fooled(c, s, e)
  {
    hide Logged;
    if e.TakeAck? && s.ackq != [] { assert s.ackq[0] in s.ackq; }
  }

  /**
   * Two boards by themselves: fewer than 256 numbers between packets is all it takes for
   * every reported success to be queued exactly once, whatever is lost, damaged, refused or
   * repeated.
   */
  lemma {:induction false} TwoBoardsAreSafe(c: Setup, es: seq<Event>)
    requires Run(c, es).Some? && AllAlone(es) && |c.keys| <= SLOTS && AllWithin(c, es, NEAR, NEAR)
    ensures var s := Run(c, es).value; Faithful(c, s) && Once(c, s) && Honest(c, s)
  {
    hide Run, Faithful, Once, Honest, Fooled, OnlyOwn, Within, Reported;
    forall k | 0 <= k < |es| && Run(c, es[..k]).Some? ensures !Fooled(c, Run(c, es[..k]).value, es[k]) {
      TwoBoardsQueueOnce(c, es[..k]);
      OwnIsNotFooled(c, Run(c, es[..k]).value, es[k]);
    }
    SuccessIsTrueIff(c, es);
    TwoBoardsQueueOnce(c, es);
    assert es[..|es|] == es;
    LinkIsFaithful(c, es);
    ReportedOnce(c, es);
  }
}
