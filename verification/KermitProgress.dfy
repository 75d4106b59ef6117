/** A transfer can always still succeed until a side gives up: nothing gets stuck. */
module KermitProgress {
  import opened Bytes
  import opened KermitChecks
  import opened KermitPacket
  import opened KermitCodec
  import opened KermitInit
  import opened KermitSender
  import opened KermitReceiver
  import opened KermitSession
  import opened KermitSafety
  import opened KermitTransfer

  /** Neither side has given up, and the sender may write its packet once more; both may still have to start. */
  predicate Alive(y: Sys)
  {
    && (y.s.phase.Idle? || (Waiting(y.s) && y.s.tries < MAX_RETRIES))
    && (y.r.phase.RIdle? || Listening(y.r))
  }

  predicate Underway(y: Sys) { Alive(y) && Waiting(y.s) && Listening(y.r) }

  /** Both channels lose everything they hold. */
  function Drain(y: Sys): seq<Event> { Repeat(LoseToR, |y.toR|) + Repeat(LoseToS, |y.toS|) }

  function Repeat(e: Event, n: nat): (es: seq<Event>)
    ensures |es| == n
  {
    if n == 0 then [] else [e] + Repeat(e, n - 1)
  }

  /** n exchanges without a loss. */
  function Rounds(n: nat): seq<Event>
  {
    if n == 0 then [] else [DeliverToR, DeliverToS] + Rounds(n - 1)
  }

  lemma {:induction false} RunAppend(c: Setup, y: Sys, a: seq<Event>, b: seq<Event>)
    ensures Run(c, y, a + b) == Run(c, Run(c, y, a), b)
    decreases |a|
  {
    hide After;
    if a == [] {
      assert a + b == b;
    } else {
      assert (a + b)[1..] == a[1..] + b;
      RunAppend(c, After(c, y, a[0]), a[1..], b);
    }
  }

  lemma {:induction false} RunTwo(c: Setup, y: Sys, e: Event, f: Event, rest: seq<Event>)
    ensures Run(c, y, [e, f] + rest) == Run(c, After(c, After(c, y, e), f), rest)
  {
    hide After;
    assert ([e, f] + rest)[1..] == [f] + rest;
    assert ([f] + rest)[1..] == rest;
  }

  lemma {:induction false} LosingAllToR(c: Setup, y: Sys)
    ensures Run(c, y, Repeat(LoseToR, |y.toR|)) == y.(toR := [])
    decreases |y.toR|
  {
    if y.toR != [] {
      var z := y.(toR := y.toR[1..]);
      assert Repeat(LoseToR, |y.toR|)[1..] == Repeat(LoseToR, |z.toR|);
      LosingAllToR(c, z);
    }
  }

  lemma {:induction false} LosingAllToS(c: Setup, y: Sys)
    ensures Run(c, y, Repeat(LoseToS, |y.toS|)) == y.(toS := [])
    decreases |y.toS|
  {
    if y.toS != [] {
      var z := y.(toS := y.toS[1..]);
      assert Repeat(LoseToS, |y.toS|)[1..] == Repeat(LoseToS, |z.toS|);
      LosingAllToS(c, z);
    }
  }

  lemma {:induction false} Drained(c: Setup, y: Sys)
    ensures Run(c, y, Drain(y)) == y.(toR := [], toS := [])
  {
    hide Run;
    RunAppend(c, y, Repeat(LoseToR, |y.toR|), Repeat(LoseToS, |y.toS|));
    LosingAllToR(c, y);
    LosingAllToS(c, y.(toR := []));
  }

  /** Only the current packet is on its way. */
  predicate Poised(c: Setup, y: Sys)
  {
    Waiting(y.s) && Listening(y.r) && y.toR == [PktAt(c, y.k)] && y.toS == []
  }

  lemma {:induction false} OnePacketFed(c: Setup, y: Sys, b: seq<byte>, p: Pkt)
    requires Listening(y.r) && Parse(y.rbuf + b) == Parsed([p], [])
    ensures var z := ApplyR(y, ROnPacket(c.rTimeout, y.r, p));
            RFeed(c, y, b) == z.(rbuf := [])
  {
    hide Parse, ApplyR, ROnPacket;
    var one: seq<Pkt> := [p];
    assert one[0] == p && one[1..] == [];
    var z := ApplyR(y, ROnPacket(c.rTimeout, y.r, p));
    assert RPackets(c, y, one, y.r.phase.Lingering?) == z;
    assert Parse(y.rbuf + b).pkts == one;
  }

  /** The receiver's effect of the current packet, first time or repeated: its ACK. */
  lemma {:induction false} CurrentIsAcked(c: Setup, y: Sys, p: Pkt)
    requires c.Ok() && Inv(c, y) && y.k <= Last(c) && Listening(y.r)
    requires SeqOf(p) == y.k % 64 && TypeOf(p) == TypeChar(PhaseAt(c, y.k))
    requires p.Data(CkAt(y.k)) == Some(DataAt(c, y.k))
    ensures var o := ROnPacket(c.rTimeout, y.r, p); o.writes == [AckAt(c, y.k)] && Listening(o.st)
    ensures ApplyR(y, ROnPacket(c.rTimeout, y.r, p)).j == y.k + 1
  {
    hide PktAt, PhaseAt, DataAt, AckAt, Accept, Stable, Knows, ToROk, ToSOk, NegAt, Response, SeqOf, TypeOf, FileChunks;
    ReceiverOkOf(c, y);
    TypeOfInit(c, y.k);
    if y.j == y.k {
      assert y.r.phase.Active?;
      Readable(c, y.r, y.j, y.k, p);
      assert Prev(y.k % 64) != y.k % 64;
      AcceptMoves(c, y.r, y.k);
      assert y.k % 64 != (y.k + 1) % 64;
    } else {
      LastAckIsResponse(c, y);
      if y.r.phase.Active? {
        RepeatIsReAcked(c, y.r, y.j, p);
      } else {
        TypeOfInit(c, Last(c));
      }
    }
  }

  lemma {:induction false} FirstHalf(c: Setup, y: Sys)
    requires c.Ok() && Inv(c, y) && Poised(c, y)
    ensures var z := After(c, y, DeliverToR);
            && Inv(c, z) && z.s == y.s && z.k == y.k && z.j == y.k + 1 && z.sDone == y.sDone
            && z.toR == [] && z.toS == [AckAt(c, y.k)] && Listening(z.r)
  {
    hide Inv, PktAt, PhaseAt, DataAt, AckAt, RFeed, ROnPacket, Built, Parse, Stable, Sendable, SeqOf, TypeOf;
    StepKeeps(c, y, DeliverToR);
    KLimit(c, y);
    var x := y.(toR := []);
    assert y.toR[1..] == [] && After(c, y, DeliverToR) == RFeed(c, x, PktAt(c, y.k));
    KeepsOnDropToR(c, y);
    InvBuffers(c, x);
    PktSendable(c, y.k);
    var p := CurrentArrives(c, x, y.k);
    CurrentIsAcked(c, x, p);
    OnePacketFed(c, x, PktAt(c, y.k), p);
  }

  lemma {:induction false} KLimit(c: Setup, y: Sys)
    requires Inv(c, y) && Waiting(y.s)
    ensures y.k <= Last(c) && y.s == SenderAt(c, y.k, y.s.tries) && y.sDone == []
  {
    hide PktAt, PhaseAt, ReceiverOk, ChannelsOk, Stable, NegAt;
  }

  lemma {:induction false} CurrentArrives(c: Setup, y: Sys, k: nat) returns (p: Pkt)
    requires c.Ok() && Stable(y.rbuf) && k <= Last(c)
    ensures Parse(y.rbuf + PktAt(c, k)) == Parsed([p], [])
    ensures SeqOf(p) == k % 64 && TypeOf(p) == TypeChar(PhaseAt(c, k)) && p.Data(CkAt(k)) == Some(DataAt(c, k))
  {
    hide Parse, PhaseAt, DataAt, Build, Built, Stable, Sendable, SeqOf, TypeOf, TypeChar;
    PktSendable(c, k);
    p := Arrives(y.rbuf, k % 64, TypeChar(PhaseAt(c, k)), DataAt(c, k), CkAt(k));
    assert k % 64 % 64 == k % 64;
  }

  lemma {:induction false} AckArrives(c: Setup, y: Sys, k: nat) returns (p: Pkt)
    requires Stable(y.sbuf)
    ensures Parse(y.sbuf + AckAt(c, k)) == Parsed([p], [])
    ensures SeqOf(p) == k % 64 && TypeOf(p) == T_Y && p.Data(CkAt(k)) == Some(AckData(c, k))
  {
    hide Parse, AckData, Build, Built, Stable, Sendable, SeqOf, TypeOf, CkAt, InitParams, NameAt, EncodeChunk;
    assert k % 64 % 64 == k % 64;
    AckSendable(c, k);
    p := Arrives(y.sbuf, k % 64, T_Y, AckData(c, k), CkAt(k));
  }

  lemma {:induction false} SecondHalf(c: Setup, y: Sys)
    requires c.Ok() && Inv(c, y) && Waiting(y.s) && y.toR == [] && y.toS == [AckAt(c, y.k)] && Listening(y.r)
    ensures var z := After(c, y, DeliverToS);
            && Inv(c, z) && z.k == y.k + 1 && z.r == y.r
            && if y.k < Last(c) then Poised(c, z) else z.sDone == [true]
  {
    hide Inv, PktAt, PhaseAt, AckData, AckAt, SFeed, Acked, Parse, Stable, SeqOf, TypeOf, FileChunks, NegAt, Send, Fail;
    StepKeeps(c, y, DeliverToS);
    KLimit(c, y);
    var x := y.(toS := []);
    assert y.toS[1..] == [] && After(c, y, DeliverToS) == SFeed(c, x, AckAt(c, y.k));
    InvBuffers(c, y);
    var p := AckArrives(c, x, y.k);
    SenderReads(c, y);
    assert OnPacket(c.job, y.s, p) == Acked(c.job, y.s, AckData(c, y.k));
    AckMoves(c, y.k, y.s.tries, AckData(c, y.k));
    AckFed(c, x, p, y.k);
  }

  lemma {:induction false} AckFed(c: Setup, x: Sys, p: Pkt, k: nat)
    requires Waiting(x.s) && Parse(x.sbuf + AckAt(c, k)) == Parsed([p], [])
    ensures SFeed(c, x, AckAt(c, k)) == ApplyS(x.(sbuf := []), OnPacket(c.job, x.s, p))
  {
    hide Parse, AckAt, OnPacket, ApplyS;
    var one: seq<Pkt> := [p];
    var z := x.(sbuf := []);
    assert one[0] == p && one[1..] == [];
    assert SPackets(c, z, one) == ApplyS(z, OnPacket(c.job, z.s, p));
    assert Parse(x.sbuf + AckAt(c, k)).pkts == one;
  }

  /** From a poised state the remaining exchanges finish the transfer. */
  lemma {:induction false} RoundsFinish(c: Setup, y: Sys)
    requires c.Ok() && Inv(c, y) && Poised(c, y) && y.k <= Last(c)
    ensures Run(c, y, Rounds(Last(c) + 1 - y.k)).sDone == [true]
    ensures Inv(c, Run(c, y, Rounds(Last(c) + 1 - y.k)))
    decreases Last(c) - y.k
  {
    hide Inv, After, PktAt, AckAt, FileChunks;
    FirstHalf(c, y);
    var x := After(c, y, DeliverToR);
    SecondHalf(c, x);
    var z := After(c, x, DeliverToS);
    var n := Last(c) - y.k;
    RunTwo(c, y, DeliverToR, DeliverToS, Rounds(n));
    if y.k < Last(c) { RoundsFinish(c, z); }
  }

  /** How to succeed once both are at it: lose what is under way, send once more, then no more losses. */
  function Resume(c: Setup, y: Sys): seq<Event>
  {
    Drain(y) + [SenderTimeout] + Rounds(Last(c) + 1 - Min(y.k, Last(c)))
  }

  /** Whoever has not started does. */
  function Starts(y: Sys): seq<Event>
  {
    (if y.s.phase.Idle? then [SenderStart] else []) + if y.r.phase.RIdle? then [ReceiverStart] else []
  }

  function Recovery(c: Setup, y: Sys): seq<Event> { Starts(y) + Resume(c, Run(c, y, Starts(y))) }

  lemma {:induction false} TimeoutPoises(c: Setup, y: Sys)
    requires Inv(c, y) && Underway(y) && y.toR == [] && y.toS == []
    ensures Poised(c, After(c, y, SenderTimeout)) && After(c, y, SenderTimeout).k == y.k
  {
    hide Inv, PktAt, PhaseAt;
    KLimit(c, y);
  }

  lemma {:induction false} ResumeFinishes(c: Setup, y: Sys)
    requires c.Ok() && Inv(c, y) && Underway(y)
    ensures Run(c, y, Resume(c, y)).sDone == [true] && Inv(c, Run(c, y, Resume(c, y)))
  {
    hide Run, Inv, After, PktAt, FileChunks, Drain, Rounds;
    KLimit(c, y);
    var n := Last(c) + 1 - y.k;
    RunAppend(c, y, Drain(y) + [SenderTimeout], Rounds(n));
    RunAppend(c, y, Drain(y), [SenderTimeout]);
    Drained(c, y);
    RunKeeps(c, y, Drain(y));
    var x := y.(toR := [], toS := []);
    RunOne(c, x, SenderTimeout);
    StepKeeps(c, x, SenderTimeout);
    TimeoutPoises(c, x);
    RoundsFinish(c, After(c, x, SenderTimeout));
  }

  lemma {:induction false} SenderStarts(c: Setup, y: Sys)
    requires Inv(c, y) && Alive(y) && y.s.phase.Idle?
    ensures var z := After(c, y, SenderStart); Waiting(z.s) && z.s.tries < MAX_RETRIES && z.r == y.r
  {
    hide Build, InitParams, ReceiverOk, ChannelsOk, Stable, NegAt, PktAt, PhaseAt;
  }

  lemma {:induction false} ReceiverStarts(c: Setup, y: Sys)
    requires Inv(c, y) && Alive(y) && y.r.phase.RIdle?
    ensures var z := After(c, y, ReceiverStart); Listening(z.r) && z.s == y.s
  {
    hide Build, SenderOk, ChannelsOk, Stable, Knows;
  }

  lemma {:induction false} StartsUnderway(c: Setup, y: Sys)
    requires c.Ok() && Inv(c, y) && Alive(y)
    ensures Underway(Run(c, y, Starts(y)))
  {
    hide Run, Inv, After;
    var a: seq<Event> := if y.s.phase.Idle? then [SenderStart] else [];
    var b: seq<Event> := if y.r.phase.RIdle? then [ReceiverStart] else [];
    RunAppend(c, y, a, b);
    RunNone(c, y);
    var x := Run(c, y, a);
    if a != [] { RunOne(c, y, SenderStart); SenderStarts(c, y); StepKeeps(c, y, SenderStart); }
    RunNone(c, x);
    if b != [] { RunOne(c, x, ReceiverStart); ReceiverStarts(c, x); }
  }

  lemma {:induction false} RunNone(c: Setup, y: Sys)
    ensures Run(c, y, []) == y
  {
  }

  /**
   * No dead ends: whatever has happened, started or not, as long as neither side has given up
   * and the sender has a try left, the transfer can still succeed on both sides.
   */
  lemma {:induction false} NeverStuck(c: Setup, events: seq<Event>)
    requires c.Ok() && Alive(Run(c, START_SYS, events))
    ensures var y := Run(c, START_SYS, events);
            var z := Run(c, START_SYS, events + Recovery(c, y));
            z.sDone == [true] && z.rDone == [Saved(c.job.file, NameAt(c))]
  {
    hide Run, Inv, NameAt, Starts, Resume, Alive, Underway;
    var y := Run(c, START_SYS, events);
    StartInv(c);
    RunKeeps(c, START_SYS, events);
    var x := Run(c, y, Starts(y));
    StartsUnderway(c, y);
    RunKeeps(c, y, Starts(y));
    ResumeFinishes(c, x);
    RunAppend(c, START_SYS, events, Recovery(c, y));
    RunAppend(c, y, Starts(y), Resume(c, x));
    FinishedIsSaved(c, Run(c, START_SYS, events + Recovery(c, y)));
  }

  lemma {:induction false} RunOne(c: Setup, y: Sys, e: Event)
    ensures Run(c, y, [e]) == After(c, y, e)
  {
    hide After;
    assert [e][1..] == [];
  }

  lemma {:induction false} FinishedIsSaved(c: Setup, z: Sys)
    requires Inv(c, z) && z.sDone == [true]
    ensures z.rDone == [Saved(c.job.file, NameAt(c))]
  {
    hide Inv, NameAt;
    InvIsSafe(c, z);
    assert z.sDone[0] == true;
  }

  /** A transfer is alive before it starts, and under way once it has, in either order. */
  lemma {:induction false} StartedIsAlive(c: Setup)
    ensures Underway(Run(c, START_SYS, [ReceiverStart, SenderStart]))
    ensures Underway(Run(c, START_SYS, [SenderStart, ReceiverStart]))
    ensures Alive(START_SYS)
  {
    hide Build, InitParams;
    RunTwo(c, START_SYS, ReceiverStart, SenderStart, []);
    RunTwo(c, START_SYS, SenderStart, ReceiverStart, []);
    assert [ReceiverStart, SenderStart] + [] == [ReceiverStart, SenderStart];
    assert [SenderStart, ReceiverStart] + [] == [SenderStart, ReceiverStart];
  }

  /** Every packet of a transfer travels as one LoRa frame. */
  lemma {:induction false} PacketsFitLoRa(c: Setup, k: nat)
    requires c.Ok()
    ensures |PktAt(c, k)| <= LORA_PAYLOAD && |AckAt(c, k)| <= LORA_PAYLOAD && |NakAt(k)| <= LORA_PAYLOAD
  {
    hide EncodeChunk, Chunks, InitParams, AttrData, NameAt, BlockCheck;
    if k == 1 { DataAtName(c); }
    if k == 2 { AttrRoundTrip(|c.job.file|, -1); }
    if 3 <= k < 3 + |FileChunks(c)| {
      DataAtChunk(c, k - 3);
      ChunkAt(c, k - 3);
    }
    assert |DataAt(c, k)| <= 222 && |AckData(c, k)| <= 60;
  }
}
