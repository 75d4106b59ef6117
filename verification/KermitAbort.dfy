/** How a transfer ends when a side gives up: what it tells its peer, and what the peer does then. */
module KermitAbort {
  import opened Bytes
  import opened KermitChecks
  import opened KermitPacket
  import opened KermitCodec
  import opened KermitInit
  import opened KermitSender
  import opened KermitReceiver
  import opened KermitSession
  import opened KermitSafety
  import opened KermitTransfer
  import opened KermitProgress

  /** The error packet as it travels. */
  function ErrorFrame(n: nat, text: seq<byte>, ck: nat): seq<byte> { Build(n, T_E, text, ck) }

  /** Whether a reader that expects the check type of exchange k understands it. */
  predicate Understood(k: nat, n: nat, text: seq<byte>, ck: nat)
  {
    ck == 1 || ck == CkAt(k) || Built(n, T_E, text, ck).Data(1).Some?
  }

  /** A channel that may only have lost packets since. */
  predicate Drained(was: seq<seq<byte>>, now: seq<seq<byte>>)
  {
    |now| <= |was| && now == was[|was| - |now|..]
  }

  // ----- the sender hears an error packet ---------------------------------------------------------

  lemma {:induction false} ErrorRead(c: Setup, y: Sys, n: nat, text: seq<byte>, ck: nat)
    requires Inv(c, y) && Waiting(y.s) && (ck == 1 || ck == 3)
    ensures ReadBy(y.s, Built(n, T_E, text, ck)).Some? <==> Understood(y.k, n, text, ck)
  {
    SenderReads(c, y);
    BuiltCarries(n, T_E, text, ck);
    hide Inv, Built, CkAt, TypeOf;
  }

  /**
   * The receiver's error packet, whatever its text and number, ends a waiting sender if it is
   * understood: failure is reported, once, and nothing is written; if not, nothing happens.
   */
  lemma {:induction false} ErrorEndsSenderIff(c: Setup, y: Sys, n: nat, text: seq<byte>, ck: nat)
    requires Inv(c, y) && Waiting(y.s) && Sendable(T_E, text, ck) && (ck == 1 || ck == 3)
    ensures var z := Run(c, y.(toS := [ErrorFrame(n, text, ck)] + y.toS), [DeliverToS]);
            && z.toR == y.toR && z.toS == y.toS && z.r == y.r && z.rDone == y.rDone
            && y.sDone == []
            && (if Understood(y.k, n, text, ck) then z.sDone == [false] && z.s.phase.Closed? else z.sDone == [] && z.s == y.s)
  {
    hide Inv, Parse, Stable, Built, Build, Understood, SeqOf, ReadBy, Sendable;
    InvBuffers(c, y);
    KLimit(c, y);
    var f := ErrorFrame(n, text, ck);
    var x := y.(toS := [f] + y.toS);
    var p := Arrives(y.sbuf, n, T_E, text, ck);
    ErrorRead(c, y, n, text, ck);
    RunOne(c, x, DeliverToS);
    assert x.toS[0] == f && x.toS[1..] == y.toS && x.(toS := x.toS[1..]) == y;
    var one: seq<Pkt> := [p];
    assert one[0] == p && one[1..] == [];
    var u := y.(sbuf := []);
    assert SPackets(c, u, one) == ApplyS(u, OnPacket(c.job, y.s, p));
    assert SFeed(c, y, f) == SPackets(c, u, one);
    assert y.toR + [] == y.toR && y.sDone + [false] == [false];
  }

  lemma {:induction false} DrainedTwice(a: seq<seq<byte>>, b: seq<seq<byte>>, c: seq<seq<byte>>)
    requires Drained(a, b) && Drained(b, c)
    ensures Drained(a, c)
  {
    assert c == a[|a| - |b|..][|b| - |c|..];
  }

  lemma {:induction false} NotDrained(a: seq<seq<byte>>)
    ensures Drained(a, a)
  {
  }

  /** Once closed, a sender reports nothing more and writes nothing, whatever comes. */
  lemma {:induction false} ClosedSenderStays(c: Setup, y: Sys, more: seq<Event>)
    requires y.s.phase.Closed?
    ensures var z := Run(c, y, more); z.s.phase.Closed? && z.sDone == y.sDone && z.k == y.k && Drained(y.toR, z.toR)
    decreases |more|
  {
    hide After, Drained;
    if more != [] {
      var x := After(c, y, more[0]);
      var z := Run(c, x, more[1..]);
      ClosedSenderStep(c, y, more[0]);
      ClosedSenderStays(c, x, more[1..]);
      DrainedTwice(y.toR, x.toR, z.toR);
    } else {
      NotDrained(y.toR);
    }
  }

  lemma {:induction false} ClosedSenderStep(c: Setup, y: Sys, e: Event)
    requires y.s.phase.Closed?
    ensures var z := After(c, y, e); z.s.phase.Closed? && z.sDone == y.sDone && z.k == y.k && Drained(y.toR, z.toR)
  {
    hide ROnPacket, ROnTimeout, RCancel, RStart, LingerOver, OnTimeout, Cancel, Start, ApplyS, ApplyR, RFeed, Detectable;
    ClosedIgnores(c, y);
    match e
    case DeliverToR => if y.toR != [] { FeedKeepsSender(c, y.(toR := y.toR[1..]), y.toR[0]); }
    case NoiseToR(b) => FeedKeepsSender(c, y, b);
    case ReceiverStart => ReceiverKeepsSender(y, RStart(y.r));
    case ReceiverTimeout => ReceiverKeepsSender(y, ROnTimeout(y.r));
    case ReceiverCancel => ReceiverKeepsSender(y, RCancel(y.r));
    case LingerEnds => ReceiverKeepsSender(y, LingerOver(y.r));
    case _ =>
  }

  lemma {:induction false} ClosedIgnores(c: Setup, y: Sys)
    requires y.s.phase.Closed?
    ensures forall o {:trigger ApplyS(y, o)} ::
              o in {OnTimeout(y.s), Cancel(y.s), Start(c.job, y.s)} ==>
              var z := ApplyS(y, o); z.s.phase.Closed? && z.sDone == y.sDone && z.k == y.k && z.toR == y.toR
  {
    hide Exchange, StrBytes, Matches;
  }

  lemma {:induction false} ReceiverKeepsSender(y: Sys, o: ROut)
    ensures var z := ApplyR(y, o); z.s == y.s && z.sDone == y.sDone && z.k == y.k && z.toR == y.toR
  {
  }

  /** Bytes at the receiver touch nothing on the sender's side. */
  lemma {:induction false} FeedKeepsSender(c: Setup, y: Sys, b: seq<byte>)
    ensures var z := RFeed(c, y, b); z.s == y.s && z.sDone == y.sDone && z.toR == y.toR && z.sbuf == y.sbuf && z.k == y.k
  {
    hide RPackets, Parse;
    if Listening(y.r) { PacketsKeepSender(c, y, Parse(y.rbuf + b).pkts, y.r.phase.Lingering?); }
  }

  lemma {:induction false} PacketsKeepSender(c: Setup, y: Sys, pkts: seq<Pkt>, lingering: bool)
    ensures var z := RPackets(c, y, pkts, lingering); z.s == y.s && z.sDone == y.sDone && z.toR == y.toR && z.sbuf == y.sbuf && z.k == y.k
    decreases |pkts|
  {
    hide ROnPacket;
    if pkts != [] {
      PacketsKeepSender(c, if y.r.phase.Lingering? == lingering then ApplyR(y, ROnPacket(c.rTimeout, y.r, pkts[0])) else y,
                        pkts[1..], lingering);
    }
  }

  // ----- the receiver hears an error packet ---------------------------------------------------------

  lemma {:induction false} ReceiverRead(c: Setup, y: Sys, n: nat, text: seq<byte>, ck: nat)
    requires Inv(c, y) && y.r.phase.Active? && (ck == 1 || ck == 3)
    ensures RReadBy(y.r, Built(n, T_E, text, ck)).Some? <==> Understood(y.j, n, text, ck)
    ensures y.rDone == [] && y.r.started
  {
    ReceiverOkOf(c, y);
    BuiltCarries(n, T_E, text, ck);
    hide Inv, Built, TypeOf, AckAt, NameAt, Stored;
  }

  /**
   * The sender's error packet ends an active receiver if it is understood: failure is
   * reported, once, and nothing is answered; if not, the expected packet is asked for again.
   */
  lemma {:induction false} ErrorEndsReceiverIff(c: Setup, y: Sys, n: nat, text: seq<byte>, ck: nat)
    requires Inv(c, y) && y.r.phase.Active? && Sendable(T_E, text, ck) && (ck == 1 || ck == 3)
    ensures var z := Run(c, y.(toR := [ErrorFrame(n, text, ck)] + y.toR), [DeliverToR]);
            && z.toR == y.toR && z.s == y.s && z.sDone == y.sDone && y.rDone == []
            && (if Understood(y.j, n, text, ck) then z.rDone == [Failed] && z.toS == y.toS && z.r.phase.RClosed? && z.r.started
                else z.rDone == [] && z.toS == y.toS + [NakAt(y.j)] && z.r == y.r)
  {
    hide Inv, Parse, Stable, Built, Build, Understood, SeqOf, RReadBy, Sendable;
    InvBuffers(c, y);
    var f := ErrorFrame(n, text, ck);
    var x := y.(toR := [f] + y.toR);
    var p := Arrives(y.rbuf, n, T_E, text, ck);
    ReceiverRead(c, y, n, text, ck);
    NakIsAt(c, y);
    RunOne(c, x, DeliverToR);
    assert x.toR[0] == f && x.toR[1..] == y.toR && x.(toR := x.toR[1..]) == y;
    OnePacketFed(c, y, f, p);
    assert y.toS + [] == y.toS && y.rDone + [Failed] == [Failed];
  }

  lemma {:induction false} NakIsAt(c: Setup, y: Sys)
    requires Inv(c, y) && y.r.phase.Active?
    ensures Nak(y.r) == NakAt(y.j)
  {
    hide Inv, Build, AckAt, NameAt, Stored, StoredCount, FileChunks, OurParams, Last;
    ReceiverOkOf(c, y);
    Ours(c.job.timeout);
  }

  /** Once closed, a receiver that was started reports nothing more and writes nothing. */
  lemma {:induction false} ClosedReceiverStays(c: Setup, y: Sys, more: seq<Event>)
    requires y.r.phase.RClosed? && y.r.started
    ensures var z := Run(c, y, more); z.r.phase.RClosed? && z.rDone == y.rDone && z.j == y.j && Drained(y.toS, z.toS)
    decreases |more|
  {
    hide After, Drained;
    if more != [] {
      var x := After(c, y, more[0]);
      var z := Run(c, x, more[1..]);
      ClosedReceiverStep(c, y, more[0]);
      ClosedReceiverStays(c, x, more[1..]);
      DrainedTwice(y.toS, x.toS, z.toS);
    } else {
      NotDrained(y.toS);
    }
  }

  lemma {:induction false} ClosedReceiverStep(c: Setup, y: Sys, e: Event)
    requires y.r.phase.RClosed? && y.r.started
    ensures var z := After(c, y, e); z.r.phase.RClosed? && z.r.started && z.rDone == y.rDone && z.j == y.j && Drained(y.toS, z.toS)
  {
    hide OnPacket, OnTimeout, Cancel, Start, Parse, Detectable;
    assert y.toS + [] == y.toS;
    match e
    case DeliverToS => if y.toS != [] { FeedKeepsReceiver(c, y.(toS := y.toS[1..]), y.toS[0]); }
    case NoiseToS(b) => FeedKeepsReceiver(c, y, b);
    case _ =>
  }

  /** Bytes at the sender touch nothing on the receiver's side. */
  lemma {:induction false} FeedKeepsReceiver(c: Setup, y: Sys, b: seq<byte>)
    ensures var z := SFeed(c, y, b); z.r == y.r && z.rDone == y.rDone && z.toS == y.toS && z.rbuf == y.rbuf && z.j == y.j
  {
    hide SPackets, Parse;
    if Waiting(y.s) {
      var p := Parse(y.sbuf + b);
      PacketsKeepReceiver(c, y.(sbuf := p.rest), p.pkts);
    }
  }

  lemma {:induction false} PacketsKeepReceiver(c: Setup, y: Sys, pkts: seq<Pkt>)
    ensures var z := SPackets(c, y, pkts); z.r == y.r && z.rDone == y.rDone && z.toS == y.toS && z.rbuf == y.rbuf && z.j == y.j
    decreases |pkts|
  {
    hide OnPacket;
    if pkts != [] { PacketsKeepReceiver(c, ApplyS(y, OnPacket(c.job, y.s, pkts[0])), pkts[1..]); }
  }

  // ----- giving up ------------------------------------------------------------------------------------

  /** What a sender that gives up at this event tells its peer. */
  function LastWords(c: Setup, k: nat, e: Event): seq<byte>
  {
    if e.SenderCancel? then StrBytes("Cancelled by sender")
    else StrBytes("No response from receiver (") + [TypeChar(PhaseAt(c, k))] + StrBytes(" packet)")
  }

  lemma {:induction false} WordsSendable(c: Setup, k: nat, e: Event)
    ensures |LastWords(c, k, e)| <= 80 && Sendable(T_E, LastWords(c, k, e), CkAt(k))
  {
    hide PhaseAt, StrBytes;
    PlainTextPrintable("Cancelled by sender");
    PlainTextPrintable("No response from receiver (");
    PlainTextPrintable(" packet)");
  }

  /** A cancel, or the eleventh try: the sender reports failure and tells its peer why, in the current packet's name. */
  lemma {:induction false} SenderGivesUp(c: Setup, y: Sys, e: Event)
    requires Inv(c, y) && Waiting(y.s)
    requires e.SenderCancel? || (e.SenderTimeout? && y.s.tries == MAX_RETRIES)
    ensures var z := Run(c, y, [e]);
            && y.sDone == [] && z.sDone == [false] && z.s.phase.Closed? && z.k == y.k
            && z.toR == y.toR + [ErrorFrame(y.k % 64, LastWords(c, y.k, e), CkAt(y.k))]
            && z.toS == y.toS && z.r == y.r && z.rDone == y.rDone && z.j == y.j
  {
    hide Inv, Build, PktAt, PhaseAt, StrBytes, NegAt;
    WordsSendable(c, y.k, e);
    KLimit(c, y);
    SenderReads(c, y);
    CkNow(c, y);
    RunOne(c, y, e);
    var t := LastWords(c, y.k, e);
    assert t[..Min(80, |t|)] == t;
    assert y.sDone + [false] == [false];
  }

  lemma {:induction false} CkNow(c: Setup, y: Sys)
    requires Inv(c, y) && Waiting(y.s)
    ensures CkOf(y.s.neg) == CkAt(y.k) && y.s.phase == PhaseAt(c, y.k)
  {
    hide PktAt, PhaseAt, ReceiverOk, ChannelsOk, Stable;
  }

  function Copies(f: seq<byte>, n: nat): (r: seq<seq<byte>>)
    ensures |r| == n
  {
    if n == 0 then [] else [f] + Copies(f, n - 1)
  }

  lemma {:induction false} NoCopies(f: seq<byte>)
    ensures Copies(f, 0) == []
  {
  }

  lemma {:induction false} OneMoreCopy(ch: seq<seq<byte>>, f: seq<byte>, n: nat)
    requires n > 0
    ensures ch + [f] + Copies(f, n - 1) == ch + Copies(f, n)
  {
  }

  /** Before that every timeout writes the current packet once more. */
  lemma {:induction false} SenderTimeouts(c: Setup, y: Sys, n: nat)
    requires Inv(c, y) && Waiting(y.s) && y.s.tries + n <= MAX_RETRIES
    ensures Run(c, y, Repeat(SenderTimeout, n)) ==
            y.(s := y.s.(tries := y.s.tries + n), toR := y.toR + Copies(PktAt(c, y.k), n), copies := y.copies + n)
    decreases n
  {
    hide Inv, PktAt, Run, Copies, Send, After;
    assert Copies(PktAt(c, y.k), 0) == [] by { NoCopies(PktAt(c, y.k)); }
    if n == 0 {
      RunNone(c, y);
      assert y.toR + Copies(PktAt(c, y.k), 0) == y.toR;
    } else {
      var x := y.(s := y.s.(tries := y.s.tries + 1), toR := y.toR + [PktAt(c, y.k)], copies := y.copies + 1);
      OneTimeout(c, y);
      KeepsOnSend(c, y);
      SenderTimeouts(c, x, n - 1);
      RunFirst(c, y, SenderTimeout, Repeat(SenderTimeout, n - 1));
      OneMoreCopy(y.toR, PktAt(c, y.k), n);
    }
  }

  lemma {:induction false} RunFirst(c: Setup, y: Sys, e: Event, rest: seq<Event>)
    ensures Run(c, y, [e] + rest) == Run(c, After(c, y, e), rest)
  {
    hide After;
    assert ([e] + rest)[1..] == rest;
  }

  lemma {:induction false} OneTimeout(c: Setup, y: Sys)
    requires Inv(c, y) && Waiting(y.s) && y.s.tries < MAX_RETRIES
    ensures After(c, y, SenderTimeout) == ApplyS(y, Send(y.s)) ==
            y.(s := y.s.(tries := y.s.tries + 1), toR := y.toR + [PktAt(c, y.k)], copies := y.copies + 1)
  {
    hide Inv, PktAt;
    KLimit(c, y);
    MatchesOne(PktAt(c, y.k), PktAt(c, y.k));
  }

  /** What a receiver that gives up at this event tells its peer. */
  function ReceiverWords(e: Event): seq<byte>
  {
    if e.ReceiverCancel? then StrBytes("Cancelled by receiver") else StrBytes("No data from sender")
  }

  lemma {:induction false} ReceiverWordsSendable(e: Event, ck: nat)
    requires ck == 1 || ck == 3
    ensures |ReceiverWords(e)| <= 80 && Sendable(T_E, ReceiverWords(e), ck)
  {
    hide StrBytes;
    PlainTextPrintable("Cancelled by receiver");
    PlainTextPrintable("No data from sender");
  }

  /** A cancel, or the eleventh silence: the receiver reports failure and tells its peer why. */
  lemma {:induction false} ReceiverGivesUp(c: Setup, y: Sys, e: Event)
    requires Inv(c, y) && y.r.phase.Active?
    requires e.ReceiverCancel? || (e.ReceiverTimeout? && y.r.tries == MAX_RETRIES)
    ensures var z := Run(c, y, [e]);
            && y.rDone == [] && z.rDone == [Failed] && z.r.phase.RClosed? && z.r.started && z.j == y.j
            && z.toS == y.toS + [ErrorFrame(y.j % 64, ReceiverWords(e), CkAt(y.j))]
            && z.toR == y.toR && z.s == y.s && z.sDone == y.sDone && z.k == y.k
  {
    hide Inv, Build, StrBytes, Nak;
    ReceiverWordsSendable(e, 1);
    ReceiverAt(c, y);
    RunOne(c, y, e);
    var t := ReceiverWords(e);
    assert t[..Min(80, |t|)] == t;
    assert y.rDone + [Failed] == [Failed];
  }

  lemma {:induction false} ReceiverAt(c: Setup, y: Sys)
    requires Inv(c, y) && y.r.phase.Active?
    ensures y.r.expected == y.j % 64 && CkOf(y.r.neg) == CkAt(y.j) && y.rDone == [] && y.r.started
    ensures y.r.lastAck == if y.j == 0 then None else Some(AckAt(c, y.j - 1))
  {
    hide Inv, Build, AckAt, NameAt, Stored, StoredCount, FileChunks, OurParams, Last;
    ReceiverOkOf(c, y);
    Ours(c.job.timeout);
  }

  /** What a silent channel makes the receiver repeat. */
  function Prompt(c: Setup, j: nat): seq<byte> { if j == 0 then NakAt(0) else AckAt(c, j - 1) }

  /** Before that every silence repeats the last answer, or asks for the first packet. */
  lemma {:induction false} ReceiverTimeouts(c: Setup, y: Sys, n: nat)
    requires Inv(c, y) && y.r.phase.Active? && y.r.tries + n <= MAX_RETRIES
    ensures Run(c, y, Repeat(ReceiverTimeout, n)) ==
            y.(r := y.r.(tries := y.r.tries + n), toS := y.toS + Copies(Prompt(c, y.j), n))
    decreases n
  {
    hide Inv, Prompt, Run, AckAt, NakAt, Copies, ROnTimeout, After;
    assert Copies(Prompt(c, y.j), 0) == [] by { NoCopies(Prompt(c, y.j)); }
    if n == 0 {
      RunNone(c, y);
      assert y.toS + Copies(Prompt(c, y.j), 0) == y.toS;
    } else {
      var x := y.(r := y.r.(tries := y.r.tries + 1), toS := y.toS + [Prompt(c, y.j)]);
      OneSilence(c, y);
      ReceiverTimeoutKeeps(c, y);
      ReceiverTimeouts(c, x, n - 1);
      RunFirst(c, y, ReceiverTimeout, Repeat(ReceiverTimeout, n - 1));
      OneMoreCopy(y.toS, Prompt(c, y.j), n);
    }
  }

  lemma {:induction false} OneSilence(c: Setup, y: Sys)
    requires Inv(c, y) && y.r.phase.Active? && y.r.tries < MAX_RETRIES
    ensures After(c, y, ReceiverTimeout) == ApplyR(y, ROnTimeout(y.r)) ==
            y.(r := y.r.(tries := y.r.tries + 1), toS := y.toS + [Prompt(c, y.j)])
  {
    hide Inv, Build, AckAt;
    ReceiverAt(c, y);
    NakIsAt(c, y);
  }

  // ----- the peer's end -------------------------------------------------------------------------------

  /**
   * A sender that gives up takes an active receiver with it: whatever happens in between, as
   * soon as the error packet is the next to arrive and arrives, the receiver reports failure.
   */
  lemma {:induction false} GivingUpReachesReceiver(c: Setup, events: seq<Event>, e: Event, more: seq<Event>)
    requires c.Ok() && Waiting(Run(c, START_SYS, events).s)
    requires e.SenderCancel? || (e.SenderTimeout? && Run(c, START_SYS, events).s.tries == MAX_RETRIES)
    ensures var y := Run(c, START_SYS, events);
            var f := ErrorFrame(y.k % 64, LastWords(c, y.k, e), CkAt(y.k));
            var w := Run(c, Run(c, y, [e]), more);
            && w.sDone == [false]
            && (w.r.phase.Active? && w.toR != [] && w.toR[0] == f ==>
                  var z := Run(c, w, [DeliverToR]);
                  z.rDone == [Failed] && z.sDone == [false] && z.toS == w.toS && z.toR == w.toR[1..])
  {
    hide Inv, Run, Build, LastWords, CkAt, Understood, Sendable;
    var y := Run(c, START_SYS, events);
    StartInv(c);
    RunKeeps(c, START_SYS, events);
    SenderGivesUp(c, y, e);
    var z := Run(c, y, [e]);
    RunKeeps(c, y, [e]);
    RunKeeps(c, z, more);
    ClosedSenderStays(c, z, more);
    var w := Run(c, z, more);
    WordsSendable(c, y.k, e);
    Ahead(c, w);
    if w.r.phase.Active? && w.toR != [] && w.toR[0] == ErrorFrame(y.k % 64, LastWords(c, y.k, e), CkAt(y.k)) {
      var x := w.(toR := w.toR[1..]);
      KeepsOnDropToR(c, w);
      assert x.(toR := [w.toR[0]] + x.toR) == w;
      CkLater(y.k, w.j, y.k % 64, LastWords(c, y.k, e));
      ErrorEndsReceiverIff(c, x, y.k % 64, LastWords(c, y.k, e), CkAt(y.k));
    }
  }

  lemma {:induction false} Ahead(c: Setup, y: Sys)
    requires Inv(c, y)
    ensures y.k <= y.j <= y.k + 1
  {
    hide SenderOk, ReceiverOk, ToROk, ToSOk, Stable;
  }

  /** Whoever is not behind has negotiated if the writer has. */
  lemma {:induction false} CkLater(k: nat, j: nat, n: nat, text: seq<byte>)
    requires k <= j
    ensures Understood(j, n, text, CkAt(k)) && (CkAt(k) == 1 || CkAt(k) == 3)
  {
    hide Built;
  }

  /**
   * A receiver that gives up takes a waiting sender with it, unless it has negotiated and the
   * sender has not: its words then carry a CRC, and only a check that happens to agree makes
   * them readable. The sender goes on until its own tries are used up.
   */
  lemma {:induction false} GivingUpReachesSenderIff(c: Setup, events: seq<Event>, e: Event, more: seq<Event>)
    requires c.Ok() && Run(c, START_SYS, events).r.phase.Active?
    requires e.ReceiverCancel? || (e.ReceiverTimeout? && Run(c, START_SYS, events).r.tries == MAX_RETRIES)
    ensures var y := Run(c, START_SYS, events);
            var f := ErrorFrame(y.j % 64, ReceiverWords(e), CkAt(y.j));
            var w := Run(c, Run(c, y, [e]), more);
            && w.rDone == [Failed]
            && (Waiting(w.s) && w.toS != [] && w.toS[0] == f ==>
                  var z := Run(c, w, [DeliverToS]);
                  && z.rDone == [Failed] && z.toR == w.toR && z.toS == w.toS[1..]
                  && z.sDone == if w.k > 0 || w.j == 0 || Built(1, T_E, ReceiverWords(e), 3).Data(1).Some? then [false] else [])
  {
    hide Inv, Run, Build, ReceiverWords, Understood, Sendable, Built;
    var y := Run(c, START_SYS, events);
    StartInv(c);
    RunKeeps(c, START_SYS, events);
    ReceiverGivesUp(c, y, e);
    var z := Run(c, y, [e]);
    RunKeeps(c, y, [e]);
    RunKeeps(c, z, more);
    ClosedReceiverStays(c, z, more);
    var w := Run(c, z, more);
    ReceiverWordsSendable(e, CkAt(y.j));
    Ahead(c, w);
    if Waiting(w.s) && w.toS != [] && w.toS[0] == ErrorFrame(y.j % 64, ReceiverWords(e), CkAt(y.j)) {
      var x := w.(toS := w.toS[1..]);
      KeepsOnDropToS(c, w);
      assert x.(toS := [w.toS[0]] + x.toS) == w;
      EarlyWords(w.k, w.j, ReceiverWords(e));
      ErrorEndsSenderIff(c, x, y.j % 64, ReceiverWords(e), CkAt(y.j));
    }
  }

  lemma {:induction false} EarlyWords(k: nat, j: nat, text: seq<byte>)
    requires k <= j <= k + 1
    ensures Understood(k, j % 64, text, CkAt(j)) <==> k > 0 || j == 0 || Built(1, T_E, text, 3).Data(1).Some?
  {
    hide Built;
  }
}
