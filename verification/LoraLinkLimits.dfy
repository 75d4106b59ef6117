/** How near its numbers have to be for what a sender reports to be true, and whom else it believes. */
module LoraLinkLimits {
  import opened Bytes
  import opened LoraDedup
  import opened LoraFrame
  import opened LoraLink
  import opened LoraLinkSafety
  import opened LoraOnce
  import opened LoraRetry
  import opened LoraRx

  /** From one source, only its very last packet is taken for a repeat, however long the run. */
  lemma {:induction false} OneSourceExact(log: seq<Item>, key: nat, n: byte)
    requires forall i :: 0 <= i < |log| ==> log[i].key == key
    ensures IsDuplicate(After(WireLog(log)), key, n) <==> log != [] && log[|log| - 1].count % 256 == n
  {
    hide After;
    var h := WireLog(log);
    assert Keys(h) <= {key} by { forall k | k in Keys(h) ensures k == key { var i :| 0 <= i < |h| && h[i].key == k; } }
    SubsetCardinality(Keys(h), {key});
    if log != [] {
      assert h[|h| - 1].key == key && LastOf(h, key) == |h|;
      if log[|log| - 1].count % 256 == n { RecentRepeatIsDuplicate(h, key, n); }
    }
    if IsDuplicate(After(h), key, n) { RefusedMeansLastNumber(log, key, n); }
  }

  lemma {:induction false} RunSnoc(c: Setup, es: seq<Event>, e: Event)
    requires Run(c, es).Some? && Enabled(c, Run(c, es).value, e)
    ensures Run(c, es + [e]) == Some(Step(c, Run(c, es).value, e))
  {
    assert (es + [e])[..|es|] == es;
  }

  /** A positive acknowledgement with the current number, whoever it was for, is heard and taken. */
  lemma {:induction false} AckIsTaken(c: Setup, es: seq<Event>, n: byte)
    requires Run(c, es).Some?
    requires var s := Run(c, es).value;
             && s.phase == Waiting && s.ackq == [] && |s.acks| == 1 && s.acks[0].frame == AckFrame(n, ACK_OK)
             && s.retry.n == n && !s.retry.done
    ensures var s, r := Run(c, es).value, Run(c, es + [AckArrives] + [TakeAck]);
            r == Some(s.(phase := Resting, acks := [], ackq := [], retry := s.retry.(done := true),
                         results := s.results + [Result(s.item, true)]))
  {
    hide Run, AckFrame, HandleFrame;
    var s := Run(c, es).value;
    AckIsSeen(Me(c.node, false, c.receiver.hash), EMPTY, n, ACK_OK, true);
    RunSnoc(c, es, AckArrives);
    assert Run(c, es + [AckArrives]).value == s.(acks := [], ackq := [Heard(s.acks[0].item, n, ACK_OK)]);
    RunSnoc(c, es + [AckArrives], TakeAck);
  }

  /** A packet on its way to the receiver, which answers. */
  function Sending(load: Load): seq<Event> { [BeginItem(load)] + [Transmit(true)] + [DataArrives(true, true)] }

  /** A whole lossless exchange of one packet. */
  function Exchange(load: Load): seq<Event> { Sending(load) + [AckArrives] + [TakeAck] }

  predicate Quiet(s: Sys, key: nat)
  {
    && s.phase == Resting && s.data == [] && s.acks == [] && s.table == After(WireLog(s.log))
    && forall i :: 0 <= i < |s.log| ==> s.log[i].key == key
  }

  /** The log after the next packet of the only source. */
  function Joined(s: Sys, key: nat): seq<Item>
  {
    if s.log != [] && s.log[|s.log| - 1].count % 256 == s.next % 256 then s.log else s.log + [Item(key, s.next)]
  }

  lemma {:induction false} OnItsWay(c: Setup, es: seq<Event>, load: Load)
    requires c.Ok() && c.Sendable(load) && Run(c, es).Some?
    requires Run(c, es).value.phase == Resting && Run(c, es).value.data == []
    ensures var s := Run(c, es).value;
            Run(c, es + [BeginItem(load)] + [Transmit(true)]) ==
            Some(s.(next := s.next + 1, phase := Waiting, item := s.next, retry := LoraRetry.Begin(s.next % 256), sent := 1,
                    ackq := [], loads := s.loads[s.next := load], data := [Sent(s.next, c.FrameOf(s.next, load))]))
  {
    hide Run, After, WireLog, Setup.FrameOf, Setup.KeyOf, Setup.Sendable;
    RunSnoc(c, es, BeginItem(load));
    RunSnoc(c, es + [BeginItem(load)], Transmit(true));
    var s := Run(c, es).value;
    assert s.data + [Sent(s.next, c.FrameOf(s.next, load))] == [Sent(s.next, c.FrameOf(s.next, load))];
  }

  /** A packet with room: queued, unless it looks like the last one, and acknowledged in either case. */
  lemma {:induction false} SendingArrives(c: Setup, es: seq<Event>, load: Load)
    requires c.Ok() && c.Sendable(load) && Whole(load)
    requires Run(c, es).Some? && Quiet(Run(c, es).value, c.KeyOf(load))
    ensures Run(c, es + Sending(load)).Some?
    ensures var s, t, key := Run(c, es).value, Run(c, es + Sending(load)).value, c.KeyOf(load);
            && t.phase == Waiting && t.item == s.next && t.next == s.next + 1 && t.retry == LoraRetry.Begin(s.next % 256)
            && t.data == [] && t.acks == [Answer(Some(s.next), AckFrame(s.next % 256, ACK_OK))] && t.ackq == []
            && t.results == s.results && t.log == Joined(s, key) && t.table == After(WireLog(t.log))
            && t.loads == s.loads[s.next := load] && forall i :: 0 <= i < |t.log| ==> t.log[i].key == key
  {
    hide Run, After, WireLog, AckFrame, HandleFrame, IsDuplicate, Commit, SourceOf, Committed;
    hide Setup.FrameOf, Setup.KeyOf, Setup.Sendable;
    var s, x, key := Run(c, es).value, Run(c, es).value.next, c.KeyOf(load);
    var e2 := es + [BeginItem(load)] + [Transmit(true)];
    OnItsWay(c, es, load);
    LoadArrives(c, s.table, x, load, true, true);
    OneSourceExact(s.log, key, x % 256);
    CommitLogs(s.log, Item(key, x));
    RunSnoc(c, e2, DataArrives(true, true));
    assert e2 + [DataArrives(true, true)] == es + Sending(load);
  }

  /** It always reports success, also when the receiver takes the packet for a repeat. */
  lemma {:induction false} ExchangeSucceeds(c: Setup, es: seq<Event>, load: Load)
    requires c.Ok() && c.Sendable(load) && Whole(load)
    requires Run(c, es).Some? && Quiet(Run(c, es).value, c.KeyOf(load))
    ensures Run(c, es + Exchange(load)).Some?
    ensures var s, t, key := Run(c, es).value, Run(c, es + Exchange(load)).value, c.KeyOf(load);
            && Quiet(t, key) && t.next == s.next + 1 && t.results == s.results + [Result(s.next, true)]
            && t.log == Joined(s, key)
  {
    SendingArrives(c, es, load);
    hide Run, After, WireLog, AckFrame, Sending, Joined, Setup.KeyOf, Setup.Sendable;
    var e3 := es + Sending(load);
    AckIsTaken(c, e3, Run(c, es).value.next % 256);
    assert e3 + [AckArrives] + [TakeAck] == es + Exchange(load);
  }

  function Skips(k: nat): seq<Event> { if k == 0 then [] else Skips(k - 1) + [SkipSeq] }

  lemma {:induction false} SkipsRun(c: Setup, es: seq<Event>, k: nat)
    requires Run(c, es).Some?
    ensures Run(c, es + Skips(k)) == Some(Run(c, es).value.(next := Run(c, es).value.next + k))
  {
    hide Run;
    if k == 0 {
      assert es + Skips(0) == es;
    } else {
      SkipsRun(c, es, k - 1);
      RunSnoc(c, es + Skips(k - 1), SkipSeq);
      assert es + Skips(k) == (es + Skips(k - 1)) + [SkipSeq];
    }
  }

  /** One exchange, 255 other frames, one more exchange. */
  function Wrapping(load: Load): seq<Event> { (Exchange(load) + Skips(255)) + Exchange(load) }

  lemma {:induction false} UntilTheWrap(c: Setup, load: Load)
    requires c.Ok() && c.Sendable(load) && Whole(load)
    ensures var r := Run(c, Exchange(load) + Skips(255));
            r.Some? && Quiet(r.value, c.KeyOf(load)) && r.value.next == 256 &&
            r.value.log == [Item(c.KeyOf(load), 0)] && r.value.results == [Result(0, true)]
  {
    hide Exchange, Skips, WireLog, After, Run, Setup.KeyOf, Setup.Sendable;
    StartQuiet(c, c.KeyOf(load));
    ExchangeSucceeds(c, [], load);
    assert [] + Exchange(load) == Exchange(load);
    SkipsRun(c, Exchange(load), 255);
  }

  /** The counter wraps between two packets of either kind: the second is reported delivered and never was. */
  lemma {:induction false} WrapLosesPacket(c: Setup, load: Load)
    requires c.Ok() && c.Sendable(load) && Whole(load)
    ensures var r := Run(c, Wrapping(load));
            r.Some? && Result(256, true) in r.value.results && r.value.log == [Item(c.KeyOf(load), 0)]
  {
    hide Exchange, Skips, WireLog, After, Run, Setup.KeyOf, Setup.Sendable;
    UntilTheWrap(c, load);
    ExchangeSucceeds(c, Exchange(load) + Skips(255), load);
    var s := Run(c, Wrapping(load)).value;
    assert s.results[1] == Result(256, true);
  }

  lemma {:induction false} StartQuiet(c: Setup, key: nat)
    ensures Run(c, []) == Some(START) && Quiet(START, key)
  {
  }

  /** A packet that is lost here, while some other board acknowledges a packet numbered 0, this very one perhaps. */
  function Mistaken(load: Load): seq<Event>
  {
    [BeginItem(load)] + [Transmit(true)] + [DataLost] + [Overhear(0, ACK_OK)] + [AckArrives] + [TakeAck]
  }

  /**
   * Acknowledgements carry no address: a third board's, for this chat message or for another
   * packet of the same number, is taken for the receiver's.
   */
  lemma {:induction false} OverheardAckFools(c: Setup, load: Load)
    requires c.Ok() && c.Sendable(load)
    ensures var r := Run(c, Mistaken(load));
            r.Some? && r.value.results == [Result(0, true)] && r.value.log == []
  {
    hide Run, After, WireLog, AckFrame, Setup.FrameOf, Setup.KeyOf, Setup.Sendable;
    StartQuiet(c, 0);
    var e0: seq<Event> := [];
    var e1 := e0 + [BeginItem(load)];
    var e2 := e1 + [Transmit(true)];
    var e3 := e2 + [DataLost];
    var e4 := e3 + [Overhear(0, ACK_OK)];
    RunSnoc(c, e0, BeginItem(load));
    RunSnoc(c, e1, Transmit(true));
    RunSnoc(c, e2, DataLost);
    RunSnoc(c, e3, Overhear(0, ACK_OK));
    assert Run(c, e4).value.acks == [Answer(None, AckFrame(0, ACK_OK))];
    AckIsTaken(c, e4, 0);
    assert e4 + [AckArrives] + [TakeAck] == Mistaken(load);
  }

  // ----- how near is near enough for two boards ---------------------------------------------------

  /** A run of two boards by themselves with these distances. */
  ghost predicate Lawful(c: Setup, es: seq<Event>, g: nat, h: nat)
  {
    Run(c, es).Some? && AllAlone(es) && AllWithin(c, es, g, h)
  }

  /** In every such run every reported success was queued exactly once. */
  ghost predicate Guaranteed(c: Setup, g: nat, h: nat)
  {
    forall es | Lawful(c, es, g, h) :: Honest(c, Run(c, es).value)
  }

  lemma {:induction false} LawfulSnoc(c: Setup, es: seq<Event>, e: Event, g: nat, h: nat)
    requires Lawful(c, es, g, h) && Alone(e)
    requires var s := Run(c, es).value; Enabled(c, s, e) && Within(c, s, e, g, h)
    ensures Lawful(c, es + [e], g, h)
  {
    RunSnoc(c, es, e);
    hide Run, Within, Alone;
    var t := es + [e];
    assert t[..|es|] == es;
    forall k | 0 <= k < |t| && Run(c, t[..k]).Some? ensures Within(c, Run(c, t[..k]).value, t[k], g, h) {
      if k < |es| { assert t[..k] == es[..k] && t[k] == es[k]; }
    }
  }

  lemma {:induction false} LawfulNothing(c: Setup, g: nat, h: nat)
    ensures Lawful(c, [], g, h)
  {
  }

  /** An event at which no number matters. */
  predicate Free(e: Event) { Alone(e) && !e.DataArrives? && !e.TakeAck? }

  lemma {:induction false} LawfulFree(c: Setup, es: seq<Event>, e: Event, g: nat, h: nat)
    requires Lawful(c, es, g, h) && Free(e) && Enabled(c, Run(c, es).value, e)
    ensures Lawful(c, es + [e], g, h) && Run(c, es + [e]) == Some(Step(c, Run(c, es).value, e))
  {
    RunSnoc(c, es, e);
    LawfulSnoc(c, es, e, g, h);
  }

  lemma {:induction false} SkipsLawful(c: Setup, es: seq<Event>, k: nat, g: nat, h: nat)
    requires Lawful(c, es, g, h)
    ensures Lawful(c, es + Skips(k), g, h)
  {
    hide Run, Within;
    if k == 0 {
      assert es + Skips(0) == es;
    } else {
      SkipsLawful(c, es, k - 1, g, h);
      LawfulFree(c, es + Skips(k - 1), SkipSeq, g, h);
      assert es + Skips(k) == (es + Skips(k - 1)) + [SkipSeq];
    }
  }

  lemma {:induction false} LastOfOneSource(log: seq<Item>, key: nat)
    requires forall i :: 0 <= i < |log| ==> log[i].key == key
    ensures LastFrom(log, key) == |log|
  {
    var h := WireLog(log);
    if log != [] { assert h[|h| - 1].key == key; }
  }

  lemma {:induction false} SendingLawful(c: Setup, es: seq<Event>, load: Load, g: nat, h: nat)
    requires c.Ok() && c.Sendable(load) && Whole(load)
    requires Lawful(c, es, g, h) && Quiet(Run(c, es).value, c.KeyOf(load))
    requires var s := Run(c, es).value; s.log != [] ==> s.next <= s.log[|s.log| - 1].count + g
    ensures Lawful(c, es + Sending(load), g, h)
  {
    hide Run, After, WireLog, Setup.FrameOf, Setup.KeyOf, Setup.Sendable, AllAlone, AllWithin, LastFrom;
    var s := Run(c, es).value;
    var e1 := es + [BeginItem(load)];
    var e2 := e1 + [Transmit(true)];
    LawfulFree(c, es, BeginItem(load), g, h);
    LawfulFree(c, e1, Transmit(true), g, h);
    var s2 := Run(c, e2).value;
    assert s2.log == s.log && s2.data == [Sent(s.next, c.FrameOf(s.next, load))];
    LastOfOneSource(s.log, c.KeyOf(load));
    assert Close(s2.log, Item(c.KeyOf(load), s.next), g);
    LawfulSnoc(c, e2, DataArrives(true, true), g, h);
    assert e2 + [DataArrives(true, true)] == es + Sending(load);
  }

  lemma {:induction false} AckLawful(c: Setup, es: seq<Event>, n: byte, g: nat, h: nat)
    requires Lawful(c, es, g, h)
    requires var s := Run(c, es).value;
             && s.phase == Waiting && s.ackq == [] && |s.acks| == 1 && s.acks[0].frame == AckFrame(n, ACK_OK)
             && s.acks[0].item.Some? && s.item <= s.acks[0].item.value + h
    ensures Lawful(c, es + [AckArrives] + [TakeAck], g, h)
  {
    hide Run, AckFrame, HandleFrame, AllAlone, AllWithin;
    var s := Run(c, es).value;
    AckIsSeen(Me(c.node, false, c.receiver.hash), EMPTY, n, ACK_OK, true);
    LawfulFree(c, es, AckArrives, g, h);
    assert Run(c, es + [AckArrives]).value == s.(acks := [], ackq := [Heard(s.acks[0].item, n, ACK_OK)]);
    LawfulSnoc(c, es + [AckArrives], TakeAck, g, h);
  }

  lemma {:induction false} ExchangeLawful(c: Setup, es: seq<Event>, load: Load, g: nat, h: nat)
    requires c.Ok() && c.Sendable(load) && Whole(load)
    requires Lawful(c, es, g, h) && Quiet(Run(c, es).value, c.KeyOf(load))
    requires var s := Run(c, es).value; s.log != [] ==> s.next <= s.log[|s.log| - 1].count + g
    ensures Lawful(c, es + Exchange(load), g, h)
  {
    hide Run, Sending, AckFrame, AllAlone, AllWithin, Quiet, Joined, After, WireLog;
    hide Setup.KeyOf, Setup.Sendable;
    SendingLawful(c, es, load, g, h);
    SendingArrives(c, es, load);
    AckLawful(c, es + Sending(load), Run(c, es).value.next % 256, g, h);
    assert es + Sending(load) + [AckArrives] + [TakeAck] == es + Exchange(load);
  }

  /** The wrap is a lawful run as soon as a packet may be 256 past its key's last one. */
  lemma {:induction false} WrapIsLawful(c: Setup, load: Load, g: nat, h: nat)
    requires c.Ok() && c.Sendable(load) && Whole(load) && g > NEAR
    ensures Lawful(c, Wrapping(load), g, h)
  {
    hide Run, Exchange, Skips, After, WireLog, AllAlone, AllWithin, Setup.KeyOf, Setup.Sendable;
    StartQuiet(c, c.KeyOf(load));
    LawfulNothing(c, g, h);
    ExchangeLawful(c, [], load, g, h);
    assert [] + Exchange(load) == Exchange(load);
    SkipsLawful(c, Exchange(load), 255, g, h);
    UntilTheWrap(c, load);
    ExchangeLawful(c, Exchange(load) + Skips(255), load, g, h);
  }

  /** Packet 0 is queued, but its acknowledgement takes so long that the sender gives up. */
  function GivenUp(load: Load): seq<Event>
  {
    Sending(load) + [LoraLink.Event.Timeout] + [Transmit(false)] + [Transmit(false)] + [Transmit(false)]
  }

  /** Packet 256 is lost, and the late acknowledgement is taken for its own. */
  function Late(load: Load): seq<Event>
  {
    (GivenUp(load) + Skips(255)) + [BeginItem(load)] + [Transmit(true)] + [DataLost] + [AckArrives] + [TakeAck]
  }

  lemma {:induction false} GivenUpIs(c: Setup, load: Load, g: nat, h: nat)
    requires c.Ok() && c.Sendable(load) && Whole(load)
    ensures Lawful(c, GivenUp(load), g, h)
    ensures var s := Run(c, GivenUp(load)).value;
            && s.phase == Resting && s.next == 1 && s.log == [Item(c.KeyOf(load), 0)] && s.data == []
            && s.acks == [Answer(Some(0), AckFrame(0, ACK_OK))]
  {
    hide Run, Sending, After, WireLog, AckFrame, AllAlone, AllWithin, Setup.KeyOf, Setup.Sendable, Setup.FrameOf;
    StartQuiet(c, c.KeyOf(load));
    LawfulNothing(c, g, h);
    SendingLawful(c, [], load, g, h);
    SendingArrives(c, [], load);
    assert [] + Sending(load) == Sending(load);
    var e0 := Sending(load);
    var e1 := e0 + [LoraLink.Event.Timeout];
    var e2 := e1 + [Transmit(false)];
    var e3 := e2 + [Transmit(false)];
    LawfulFree(c, e0, LoraLink.Event.Timeout, g, h);
    LawfulFree(c, e1, Transmit(false), g, h);
    LawfulFree(c, e2, Transmit(false), g, h);
    LawfulFree(c, e3, Transmit(false), g, h);
  }

  /** An acknowledgement 256 numbers late reports a lost packet. */
  lemma {:induction false} LateAckLies(c: Setup, load: Load, g: nat, h: nat)
    requires c.Ok() && c.Sendable(load) && Whole(load) && h > NEAR
    ensures Lawful(c, Late(load), g, h)
    ensures var s := Run(c, Late(load)).value;
            Result(256, true) in s.results && s.log == [Item(c.KeyOf(load), 0)]
  {
    hide Run, GivenUp, Skips, After, WireLog, AckFrame, AllAlone, AllWithin, Setup.KeyOf, Setup.Sendable, Setup.FrameOf;
    GivenUpIs(c, load, g, h);
    SkipsLawful(c, GivenUp(load), 255, g, h);
    SkipsRun(c, GivenUp(load), 255);
    var e0 := GivenUp(load) + Skips(255);
    var e1 := e0 + [BeginItem(load)];
    var e2 := e1 + [Transmit(true)];
    var e3 := e2 + [DataLost];
    LawfulFree(c, e0, BeginItem(load), g, h);
    LawfulFree(c, e1, Transmit(true), g, h);
    LawfulFree(c, e2, DataLost, g, h);
    AckLawful(c, e3, 0, g, h);
    AckIsTaken(c, e3, 0);
    var s := Run(c, Late(load)).value;
    assert s.results[|s.results| - 1] == Result(256, true);
  }

  lemma {:induction false} NearerIsWithin(c: Setup, es: seq<Event>, g: nat, h: nat)
    requires AllWithin(c, es, g, h) && g <= NEAR && h <= NEAR
    ensures AllWithin(c, es, NEAR, NEAR)
  {
    hide Run;
  }

  lemma {:induction false} NotInLogIsDishonest(c: Setup, s: Sys, item: nat)
    requires Result(item, true) in s.results && |s.log| == 1 && s.log[0].count < item
    ensures !Honest(c, s)
  {
  }

  /**
   * Two boards by themselves: what is reported delivered was queued, exactly once, in every
   * run with these distances, if and only if both are below 256.
   */
  lemma {:induction false} TwoBoardsAreSafeIff(c: Setup, load: Load, g: nat, h: nat)
    requires c.Ok() && c.Sendable(load) && Whole(load) && |c.keys| <= SLOTS
    ensures Guaranteed(c, g, h) <==> g <= NEAR && h <= NEAR
  {
    hide Run, Honest, Wrapping, Late, Setup.KeyOf, Setup.Sendable, AllAlone, AllWithin;
    if g <= NEAR && h <= NEAR {
      forall es | Lawful(c, es, g, h) ensures Honest(c, Run(c, es).value) {
        NearerIsWithin(c, es, g, h);
        TwoBoardsAreSafe(c, es);
      }
    } else if g > NEAR {
      WrapIsLawful(c, load, g, h);
      WrapLosesPacket(c, load);
      NotInLogIsDishonest(c, Run(c, Wrapping(load)).value, 256);
    } else {
      LateAckLies(c, load, g, h);
      NotInLogIsDishonest(c, Run(c, Late(load)).value, 256);
    }
  }
}
