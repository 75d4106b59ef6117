/** The main results about a whole Kermit transfer, over every run. */
module KermitTransfer {
  import opened Bytes
  import opened KermitChecks
  import opened KermitPacket
  import opened KermitCodec
  import opened KermitInit
  import opened KermitSender
  import opened KermitReceiver
  import opened KermitSession
  import opened KermitSafety
  import opened KermitEarlyNak

  // ----- one packet handed to the sender -------------------------------------------------------

  lemma {:induction false} SenderIgnores(c: Setup, y: Sys)
    requires Inv(c, y)
    ensures Inv(c, ApplyS(y, Out(y.s, [], None)))
  {
    hide PktAt, PhaseAt, NegAt, Response, Stable, IsError, Knows;
    MatchesOne([], y.s.pkt);
    assert y.toR + [] == y.toR;
  }

  lemma {:induction false} SenderCk(c: Setup, y: Sys)
    requires SenderOk(c, y) && Waiting(y.s)
    ensures y.s.n == y.k % 64
    ensures (if y.s.phase.Init? then 1 else CkOf(y.s.neg)) == CkAt(y.k)
  {
    hide PktAt, Chunks;
  }

  lemma {:induction false} DamagedToS(c: Setup, y: Sys, p: Pkt)
    requires Inv(c, y) && Damaged(p)
    ensures Inv(c, ApplyS(y, OnPacket(c.job, y.s, p)))
  {
    hide Inv, ApplyS, Acked, Send, Fail;
    if Waiting(y.s) {
      assert ReadBy(y.s, p).None? by { SenderReads(c, y); }
    }
    SenderIgnores(c, y);
  }

  lemma {:induction false} SenderReads(c: Setup, y: Sys)
    requires Inv(c, y) && Waiting(y.s)
    ensures (if y.s.phase.Init? then 1 else CkOf(y.s.neg)) == CkAt(y.k) && y.s.n == y.k % 64
  {
    hide PktAt, Chunks, ReceiverOk, ChannelsOk, Stable;
    SenderCk(c, y);
  }

  lemma {:induction false} ErrorToS(c: Setup, y: Sys, p: Pkt)
    requires Inv(c, y) && TypeOf(p) == T_E
    ensures Inv(c, ApplyS(y, OnPacket(c.job, y.s, p)))
  {
    hide Inv, ApplyS, Acked, Send, Fail, ReadBy;
    if Waiting(y.s) && ReadBy(y.s, p).Some? {
      KeepsOnFail(c, y, y.s, [], false);
    } else {
      SenderIgnores(c, y);
    }
  }

  lemma {:induction false} NakToS(c: Setup, y: Sys, p: Pkt)
    requires Inv(c, y) && TypeOf(p) == T_N && SeqOf(p) == y.k % 64 && p.Data(CkAt(y.k)).Some?
    ensures Inv(c, ApplyS(y, OnPacket(c.job, y.s, p)))
  {
    hide Inv, ApplyS, Acked, Send, Fail;
    if Waiting(y.s) {
      SenderReads(c, y);
      assert y.s.n != (y.s.n + 1) % 64;
      KeepsOnSend(c, y);
    } else {
      SenderIgnores(c, y);
    }
  }

  lemma {:induction false} OldAckToS(c: Setup, y: Sys, p: Pkt)
    requires Inv(c, y) && TypeOf(p) == T_Y && y.k > 0 && SeqOf(p) == (y.k - 1) % 64
    ensures Inv(c, ApplyS(y, OnPacket(c.job, y.s, p)))
  {
    hide Inv, ApplyS, Acked, Send, Fail, ReadBy;
    if Waiting(y.s) {
      SenderReads(c, y);
      assert (y.k - 1) % 64 != y.k % 64;
    }
    SenderIgnores(c, y);
  }

  lemma {:induction false} AckToS(c: Setup, y: Sys, p: Pkt)
    requires Inv(c, y) && y.j == y.k + 1 && AllCurrentToS(c, y)
    requires TypeOf(p) == T_Y && SeqOf(p) == y.k % 64 && p.Data(CkAt(y.k)) == Some(AckData(c, y.k))
    ensures Inv(c, ApplyS(y, OnPacket(c.job, y.s, p)))
  {
    hide Inv, ApplyS, Acked, Send, Fail, AckData, AllCurrentToS, SeqOf, TypeOf;
    if Waiting(y.s) {
      SenderReads(c, y);
      KeepsOnAck(c, y, AckData(c, y.k));
    } else {
      SenderIgnores(c, y);
    }
  }

  /** Before negotiation the NAK of packet 1 is not understood. */
  lemma {:induction false} EarlyNakToS(c: Setup, y: Sys)
    requires Inv(c, y) && y.k == 0
    ensures Inv(c, ApplyS(y, OnPacket(c.job, y.s, Built(1, T_N, [], 3))))
  {
    hide Inv, ApplyS, Acked, Send, Fail, Built;
    EarlyNakIsUnreadable();
    BuiltCarries(1, T_N, [], 3);
    if Waiting(y.s) { SenderReads(c, y); }
    SenderIgnores(c, y);
  }

  /** Later on, the NAK of the next packet acts as an acknowledgement. */
  lemma {:induction false} NextNakToS(c: Setup, y: Sys, p: Pkt)
    requires Inv(c, y) && y.j == y.k + 1 && y.k > 0 && AllCurrentToS(c, y)
    requires TypeOf(p) == T_N && SeqOf(p) == (y.k + 1) % 64 && p.Data(3) == Some([])
    ensures Inv(c, ApplyS(y, OnPacket(c.job, y.s, p)))
  {
    hide Inv, ApplyS, Acked, Send, Fail, AckData, AllCurrentToS, SeqOf, TypeOf;
    if Waiting(y.s) {
      SenderReads(c, y);
      assert (y.k % 64 + 1) % 64 == (y.k + 1) % 64;
      KeepsOnAck(c, y, []);
    } else {
      SenderIgnores(c, y);
    }
  }

  // ----- bytes handed to an endpoint --------------------------------------------------------------

  lemma {:induction false} NoiseForS(c: Setup, y: Sys, pkts: seq<Pkt>)
    requires Inv(c, y) && forall i :: 0 <= i < |pkts| ==> Damaged(pkts[i])
    ensures Inv(c, SPackets(c, y, pkts))
    decreases |pkts|
  {
    hide Inv, ApplyS, OnPacket, Damaged;
    if pkts != [] {
      DamagedToS(c, y, pkts[0]);
      NoiseForS(c, ApplyS(y, OnPacket(c.job, y.s, pkts[0])), pkts[1..]);
    }
  }

  lemma {:induction false} NoiseForR(c: Setup, y: Sys, pkts: seq<Pkt>)
    requires Inv(c, y) && forall i :: 0 <= i < |pkts| ==> Damaged(pkts[i])
    ensures Inv(c, RPackets(c, y, pkts, y.r.phase.Lingering?))
    ensures RPackets(c, y, pkts, y.r.phase.Lingering?).r == y.r
    ensures RPackets(c, y, pkts, y.r.phase.Lingering?).sbuf == y.sbuf
    decreases |pkts|
  {
    hide Inv, ROnPacket, Damaged;
    if pkts != [] {
      DamagedToR(c, y, pkts[0]);
      NoiseForR(c, ApplyR(y, ROnPacket(c.rTimeout, y.r, pkts[0])), pkts[1..]);
    }
  }

  lemma {:induction false} InvBuffers(c: Setup, y: Sys)
    requires Inv(c, y)
    ensures Stable(y.sbuf) && Stable(y.rbuf)
  {
    hide SenderOk, ReceiverOk, ChannelsOk, Stable;
  }

  lemma {:induction false} NoiseToSKeeps(c: Setup, y: Sys, b: seq<byte>)
    requires Inv(c, y) && Detectable(y.sbuf, b)
    ensures Inv(c, SFeed(c, y, b))
  {
    hide Inv, Parse, Stable, Damaged;
    var p := Parse(y.sbuf + b);
    InvBuffers(c, y);
    RestIsStable(y.sbuf + b);
    KeepsOnBuffers(c, y, p.rest, y.rbuf);
    NoiseForS(c, y.(sbuf := p.rest), p.pkts);
  }

  lemma {:induction false} NoiseToRKeeps(c: Setup, y: Sys, b: seq<byte>)
    requires Inv(c, y) && Detectable(y.rbuf, b)
    ensures Inv(c, RFeed(c, y, b))
  {
    hide Inv, Parse, Stable, Damaged;
    var p := Parse(y.rbuf + b);
    InvBuffers(c, y);
    RestIsStable(y.rbuf + b);
    NoiseForR(c, y, p.pkts);
    KeepsOnBuffers(c, RPackets(c, y, p.pkts, y.r.phase.Lingering?), y.sbuf, p.rest);
  }

  /** A feed that yields one packet and leaves the buffer empty. */
  lemma {:induction false} SFeedOne(c: Setup, y: Sys, b: seq<byte>, p: Pkt)
    requires Parse(y.sbuf + b) == Parsed([p], []) && Inv(c, y)
    requires Inv(c, y.(sbuf := [])) ==> Inv(c, ApplyS(y.(sbuf := []), OnPacket(c.job, y.s, p)))
    ensures Inv(c, SFeed(c, y, b))
  {
    hide Inv, Parse, ApplyS, OnPacket, Stable;
    InvBuffers(c, y);
    assert Stable([]) by { EmptyIsStable(); }
    KeepsOnBuffers(c, y, [], y.rbuf);
    var z := y.(sbuf := []);
    assert y.(sbuf := [], rbuf := y.rbuf) == z;
    var one: seq<Pkt> := [p];
    assert one[0] == p && one[1..] == [];
    assert Parse(y.sbuf + b).pkts == one && Parse(y.sbuf + b).rest == [];
    assert SPackets(c, z, one) == ApplyS(z, OnPacket(c.job, z.s, p));
    if Waiting(y.s) {
      assert SFeed(c, y, b) == SPackets(c, z, one);
    } else {
      assert SFeed(c, y, b) == y;
    }
  }

  lemma {:induction false} RFeedOne(c: Setup, y: Sys, b: seq<byte>, p: Pkt)
    requires Parse(y.rbuf + b) == Parsed([p], []) && Inv(c, y)
    requires Inv(c, ApplyR(y, ROnPacket(c.rTimeout, y.r, p)))
    ensures Inv(c, RFeed(c, y, b))
  {
    hide Inv, Parse, ApplyR, ROnPacket, Stable;
    var one: seq<Pkt> := [p];
    assert one[0] == p && one[1..] == [];
    var z := ApplyR(y, ROnPacket(c.rTimeout, y.r, p));
    assert RPackets(c, y, one, y.r.phase.Lingering?) == z;
    InvBuffers(c, z);
    assert Stable([]) by { EmptyIsStable(); }
    KeepsOnBuffers(c, z, z.sbuf, []);
    assert z.(sbuf := z.sbuf, rbuf := []) == z.(rbuf := []);
    assert Parse(y.rbuf + b).pkts == one && Parse(y.rbuf + b).rest == [];
    if Listening(y.r) {
      assert RFeed(c, y, b) == z.(rbuf := []);
    } else {
      assert RFeed(c, y, b) == y;
    }
  }

  // ----- deliveries -----------------------------------------------------------------------------

  lemma {:induction false} DeliverErrorToR(c: Setup, y: Sys, f: seq<byte>)
    requires Inv(c, y) && IsError(f)
    ensures Inv(c, RFeed(c, y, f))
  {
    hide Inv, Parse, ApplyR, ROnPacket, Stable;
    InvBuffers(c, y);
    ErrorArrives(y.rbuf, f);
    var p := Parse(f).pkts[0];
    assert Parse(y.rbuf + f) == Parsed([p], []);
    ErrorToR(c, y, p);
    RFeedOne(c, y, f, p);
  }

  lemma {:induction false} DeliverErrorToS(c: Setup, y: Sys, f: seq<byte>)
    requires Inv(c, y) && IsError(f)
    ensures Inv(c, SFeed(c, y, f))
  {
    hide Inv, Parse, ApplyS, OnPacket, Stable;
    InvBuffers(c, y);
    ErrorArrives(y.sbuf, f);
    var p := Parse(f).pkts[0];
    assert Parse(y.sbuf + f) == Parsed([p], []);
    if Inv(c, y.(sbuf := [])) { ErrorToS(c, y.(sbuf := []), p); }
    SFeedOne(c, y, f, p);
  }

  lemma {:induction false} DeliverPktToR(c: Setup, y: Sys, k: nat)
    requires c.Ok() && Inv(c, y) && k <= Last(c)
    requires (y.j == k + 1) || (y.j == y.k == k && AllCurrentToR(c, y))
    ensures Inv(c, RFeed(c, y, PktAt(c, k)))
  {
    hide Inv, Parse, ApplyR, ROnPacket, Stable, PhaseAt, DataAt, Build, AllCurrentToR, Built, Sendable, RFeed, SeqOf, TypeOf, TypeChar;
    InvBuffers(c, y);
    PktSendable(c, k);
    var p := Arrives(y.rbuf, k % 64, TypeChar(PhaseAt(c, k)), DataAt(c, k), CkAt(k));
    assert k % 64 % 64 == k % 64;
    if y.j == k + 1 { RepeatToR(c, y, p); } else { ExpectedToR(c, y, p); }
    RFeedOne(c, y, PktAt(c, k), p);
  }

  lemma {:induction false} NakArrives(c: Setup, y: Sys, e: nat) returns (p: Pkt)
    requires Inv(c, y)
    ensures Parse(y.sbuf + NakAt(e)) == Parsed([p], []) && p == Built(e % 64, T_N, [], CkAt(e))
    ensures SeqOf(p) == e % 64 && TypeOf(p) == T_N && p.Data(CkAt(e)) == Some([])
  {
    hide Inv, Parse, Stable, Build, Built, SeqOf, TypeOf, BlockCheck;
    InvBuffers(c, y);
    p := Arrives(y.sbuf, e % 64, T_N, [], CkAt(e));
    assert e % 64 % 64 == e % 64;
  }

  lemma {:induction false} DeliverNakToS(c: Setup, y: Sys)
    requires Inv(c, y)
    ensures Inv(c, SFeed(c, y, NakAt(y.k)))
  {
    hide Inv, Parse, ApplyS, OnPacket, NakAt, Built, SFeed, SeqOf, TypeOf;
    var p := NakArrives(c, y, y.k);
    var z := y.(sbuf := []);
    if Inv(c, z) { NakToS(c, z, p); }
    SFeedOne(c, y, NakAt(y.k), p);
  }

  lemma {:induction false} DeliverNextNakToS(c: Setup, y: Sys)
    requires Inv(c, y) && y.j == y.k + 1 && AllCurrentToS(c, y)
    ensures Inv(c, SFeed(c, y, NakAt(y.j)))
  {
    hide Inv, Parse, ApplyS, OnPacket, NakAt, Built, SFeed, SeqOf, TypeOf, AllCurrentToS;
    var p := NakArrives(c, y, y.j);
    var z := y.(sbuf := []);
    if Inv(c, z) {
      AllCurrentFrame(c, y, z);
      if y.k == 0 { EarlyNakToS(c, z); } else { NextNakToS(c, z, p); }
    }
    SFeedOne(c, y, NakAt(y.j), p);
  }

  lemma {:induction false} AllCurrentFrame(c: Setup, y: Sys, z: Sys)
    requires AllCurrentToS(c, y) && z.toS == y.toS && z.j == y.j
    ensures AllCurrentToS(c, z)
  {
    hide Response, IsError;
  }

  lemma {:induction false} DeliverAckToS(c: Setup, y: Sys, e: nat)
    requires Inv(c, y) && (e + 1 == y.k || (e == y.k && y.j == y.k + 1 && AllCurrentToS(c, y)))
    ensures Inv(c, SFeed(c, y, AckAt(c, e)))
  {
    hide Inv, Parse, ApplyS, OnPacket, Stable, Build, AllCurrentToS, Built, AckData, Sendable, SFeed, SeqOf, TypeOf, CkAt;
    assert e % 64 % 64 == e % 64;
    InvBuffers(c, y);
    AckSendable(c, e);
    var p := Arrives(y.sbuf, e % 64, T_Y, AckData(c, e), CkAt(e));
    var z := y.(sbuf := []);
    if Inv(c, z) {
      if e == y.k {
        AllCurrentFrame(c, y, z);
        AckToS(c, z, p);
      } else {
        OldAckToS(c, z, p);
      }
    }
    SFeedOne(c, y, AckAt(c, e), p);
  }

  lemma {:induction false} HeadOfToR(c: Setup, y: Sys)
    requires Inv(c, y) && y.toR != []
    ensures IsError(y.toR[0]) || OldToR(c, y, y.toR[0]) || CurrentToR(c, y, y.toR[0])
    ensures y.k <= y.j <= y.k + 1 && y.j <= Last(c) + 1
  {
    hide PktAt, IsError, SenderOk, Knows, Stable;
  }

  lemma {:induction false} HeadOfToS(c: Setup, y: Sys)
    requires Inv(c, y) && y.toS != []
    ensures IsError(y.toS[0]) || OldToS(c, y, y.toS[0]) || CurrentToS(c, y, y.toS[0])
    ensures y.k <= y.j <= y.k + 1
  {
    hide Response, IsError, SenderOk, Knows, Stable;
  }

  lemma {:induction false} DeliverToRKeeps(c: Setup, y: Sys)
    requires c.Ok() && Inv(c, y) && y.toR != []
    ensures Inv(c, RFeed(c, y.(toR := y.toR[1..]), y.toR[0]))
  {
    hide Inv, RFeed, PktAt, IsError, AllCurrentToR;
    var f, z := y.toR[0], y.(toR := y.toR[1..]);
    KeepsOnDropToR(c, y);
    HeadOfToR(c, y);
    if IsError(f) {
      DeliverErrorToR(c, z, f);
    } else if CurrentToR(c, y, f) {
      DeliverPktToR(c, z, y.k);
    } else {
      DeliverPktToR(c, z, y.k - 1);
    }
  }

  lemma {:induction false} DeliverToSKeeps(c: Setup, y: Sys)
    requires Inv(c, y) && y.toS != []
    ensures Inv(c, SFeed(c, y.(toS := y.toS[1..]), y.toS[0]))
  {
    hide Inv, SFeed, NakAt, AckAt, IsError, AllCurrentToS;
    var f, z := y.toS[0], y.(toS := y.toS[1..]);
    KeepsOnDropToS(c, y);
    HeadOfToS(c, y);
    if IsError(f) {
      DeliverErrorToS(c, z, f);
    } else {
      var e := if CurrentToS(c, y, f) then y.j else y.k;
      if f != NakAt(e) {
        DeliverAckToS(c, z, e - 1);
      } else if e == y.k {
        DeliverNakToS(c, z);
      } else {
        DeliverNextNakToS(c, z);
      }
    }
  }

  // ----- the other events ---------------------------------------------------------------------------

  lemma {:induction false} SenderStartKeeps(c: Setup, y: Sys)
    requires Inv(c, y) && !y.s.started
    ensures Inv(c, ApplyS(y, Start(c.job, y.s)))
  {
    hide Stable, Knows, Response, IsError, Build, InitParams, Chunks;
    if y.s.phase.Idle? {
      assert y.s == START && PhaseAt(c, 0) == Init;
      assert Exchange(c.job, START.(started := true), Init) == Out(SenderAt(c, 0, 1), [PktAt(c, 0)], None);
      MatchesOne(PktAt(c, 0), PktAt(c, 0));
    } else {
      MatchesOne([], y.s.pkt);
      assert y.toR + [] == y.toR;
    }
  }

  lemma {:induction false} SenderTimeoutKeeps(c: Setup, y: Sys)
    requires Inv(c, y)
    ensures Inv(c, ApplyS(y, OnTimeout(y.s)))
  {
    hide Inv, ApplyS, Send;
    if Waiting(y.s) { KeepsOnSend(c, y); } else { SenderIgnores(c, y); }
  }

  lemma {:induction false} SenderCancelKeeps(c: Setup, y: Sys)
    requires Inv(c, y)
    ensures Inv(c, ApplyS(y, Cancel(y.s)))
  {
    hide Inv, ApplyS, Fail;
    PlainTextPrintable("Cancelled by sender");
    KeepsOnFail(c, y, y.s, StrBytes("Cancelled by sender"), true);
  }

  lemma {:induction false} ReceiverStartKeeps(c: Setup, y: Sys)
    requires Inv(c, y) && !y.r.started
    ensures Inv(c, ApplyR(y, RStart(y.r)))
  {
    hide Stable, SenderOk, IsError, Build, ToROk;
    var z := ApplyR(y, RStart(y.r));
    SenderSideStays(c, y, z);
    KnowsFrame(c, y.r, z.r, y.j);
    assert z.toS == y.toS + [NakAt(0)] && Response(c, NakAt(0), 0);
  }

  lemma {:induction false} TimeoutReplies(c: Setup, y: Sys)
    requires Inv(c, y) && y.r.phase.Active? && y.r.tries < MAX_RETRIES
    ensures var o := ROnTimeout(y.r);
            o == ROut(y.r.(tries := y.r.tries + 1), o.writes, None) && |o.writes| == 1 && Response(c, o.writes[0], y.j)
  {
    hide Inv, Nak, AckAt, Response;
    ReceiverOkOf(c, y);
    NakIsResponse(c, y);
    if y.j > 0 { LastAckIsResponse(c, y); }
    NoAckAtFirst(c, y);
  }

  lemma {:induction false} ReceiverTimeoutKeeps(c: Setup, y: Sys)
    requires Inv(c, y)
    ensures Inv(c, ApplyR(y, ROnTimeout(y.r)))
  {
    hide Inv, ApplyR, RFail, Nak, AckAt, Response, StrBytes, IsError;
    if !y.r.phase.Active? {
      ReceiverRepeats(c, y, ROut(y.r, [], None));
    } else if y.r.tries < MAX_RETRIES {
      TimeoutReplies(c, y);
      KeepsOnReply(c, y, y.r.tries + 1, ROnTimeout(y.r).writes);
    } else {
      PlainTextPrintable("No data from sender");
      KeepsOnRFail(c, y, y.r.tries + 1, StrBytes("No data from sender"), true);
    }
  }

  lemma {:induction false} ReceiverOkOf(c: Setup, y: Sys)
    requires Inv(c, y)
    ensures ReceiverOk(c, y) && SenderOk(c, y) && y.k <= y.j <= y.k + 1
  {
    hide ReceiverOk, SenderOk, ToROk, ToSOk, Stable;
  }

  lemma {:induction false} NoAckAtFirst(c: Setup, y: Sys)
    requires ReceiverOk(c, y)
    ensures y.j == 0 ==> y.r.lastAck == None
    ensures Nak(y.r.(tries := y.r.tries + 1)) == Nak(y.r)
  {
    hide AckAt, NameAt, Stored, Build;
  }

  lemma {:induction false} ReceiverCancelKeeps(c: Setup, y: Sys)
    requires Inv(c, y)
    ensures Inv(c, ApplyR(y, RCancel(y.r)))
  {
    hide Inv, ApplyR, RFail;
    PlainTextPrintable("Cancelled by receiver");
    assert y.r == y.r.(tries := y.r.tries);
    KeepsOnRFail(c, y, y.r.tries, StrBytes("Cancelled by receiver"), true);
  }

  lemma {:induction false} LingerEndsKeeps(c: Setup, y: Sys)
    requires Inv(c, y)
    ensures Inv(c, ApplyR(y, LingerOver(y.r)))
  {
    hide Stable, SenderOk, IsError, ToROk, Response, Knows;
    var z := ApplyR(y, LingerOver(y.r));
    SenderSideStays(c, y, z);
    KnowsFrame(c, y.r, z.r, y.j);
    assert z.toS == y.toS;
  }

  /** Every event keeps the invariant. */
  lemma {:induction false} StepKeeps(c: Setup, y: Sys, e: Event)
    requires c.Ok() && Inv(c, y)
    ensures Inv(c, After(c, y, e))
  {
    hide Inv, ApplyS, ApplyR, SFeed, RFeed, Detectable, Start, OnTimeout, Cancel, RStart, ROnTimeout, RCancel, LingerOver;
    match e
    case SenderStart => if !y.s.started { SenderStartKeeps(c, y); }
    case SenderTimeout => SenderTimeoutKeeps(c, y);
    case SenderCancel => SenderCancelKeeps(c, y);
    case ReceiverStart => if !y.r.started { ReceiverStartKeeps(c, y); }
    case ReceiverTimeout => ReceiverTimeoutKeeps(c, y);
    case ReceiverCancel => ReceiverCancelKeeps(c, y);
    case LingerEnds => LingerEndsKeeps(c, y);
    case DeliverToR => if y.toR != [] { DeliverToRKeeps(c, y); }
    case LoseToR => if y.toR != [] { KeepsOnDropToR(c, y); }
    case NoiseToR(b) => if Detectable(y.rbuf, b) { NoiseToRKeeps(c, y, b); }
    case DeliverToS => if y.toS != [] { DeliverToSKeeps(c, y); }
    case LoseToS => if y.toS != [] { KeepsOnDropToS(c, y); }
    case NoiseToS(b) => if Detectable(y.sbuf, b) { NoiseToSKeeps(c, y, b); }
  }

  lemma {:induction false} StartInv(c: Setup)
    ensures Inv(c, START_SYS)
  {
    hide Chunks;
    EmptyIsStable();
  }

  lemma {:induction false} RunKeeps(c: Setup, y: Sys, events: seq<Event>)
    requires c.Ok() && Inv(c, y)
    ensures Inv(c, Run(c, y, events))
    decreases |events|
  {
    hide Inv, After;
    if events != [] {
      StepKeeps(c, y, events[0]);
      RunKeeps(c, After(c, y, events[0]), events[1..]);
    }
  }

  // ----- the theorems -------------------------------------------------------------------------------

  /** What holds at every moment of every transfer. */
  predicate Safe(c: Setup, y: Sys)
  {
    // The receiver holds a prefix of the file; a file it hands over is the file.
    && Flatten(y.r.chunks) <= c.job.file
    && (forall i :: 0 <= i < |y.rDone| && y.rDone[i].Saved? ==> y.rDone[i] == Saved(c.job.file, NameAt(c)))
    // A sender that reports success is preceded by the receiver's success.
    && (true in y.sDone ==> y.rDone == [Saved(c.job.file, NameAt(c))])
    // Each side completes at most once, and no packet is written more than ten times.
    && |y.sDone| <= 1 && |y.rDone| <= 1 && y.copies <= MAX_RETRIES
    // The receiver is never more than one packet ahead, nor behind.
    && y.k <= y.j <= y.k + 1
  }

  lemma {:induction false} InvIsSafe(c: Setup, y: Sys)
    requires Inv(c, y)
    ensures Safe(c, y)
  {
    hide PktAt, NameAt, Stable, ToROk, ToSOk, NegAt, PhaseAt, AckAt, Chunks;
    var i := StoredCount(c, y.j);
    StoredIsPrefix(c, i);
  }

  /** Safety over every run: any losses, noise, timeouts and cancels, in any order. */
  lemma {:induction false} TransferIsSafe(c: Setup, events: seq<Event>)
    requires c.Ok()
    ensures Safe(c, Run(c, START_SYS, events))
  {
    hide Inv, Safe, Run;
    StartInv(c);
    RunKeeps(c, START_SYS, events);
    InvIsSafe(c, Run(c, START_SYS, events));
  }
}
