/** Safety of every transfer: the invariant of KermitSession is kept by every event. */
module KermitSafety {
  import opened Bytes
  import opened KermitChecks
  import opened KermitPacket
  import opened KermitCodec
  import opened KermitInit
  import opened KermitSender
  import opened KermitReceiver
  import opened KermitSession

  // ----- what one acknowledgement does to the sender ---------------------------------------

  /** The sender in the middle of exchange k. */
  function SenderAt(c: Setup, k: nat, tries: nat): State
  {
    State(PhaseAt(c, k), true, k % 64, NegAt(c, k), tries, PktAt(c, k))
  }

  lemma {:induction false} ExchangeStarts(c: Setup, k: nat, t: nat, pkt: seq<byte>, ph: Phase)
    requires k >= 1
    ensures Exchange(c.job, State(ph, true, k % 64, NegAt(c, k), t, pkt), PhaseAt(c, k)) ==
            Out(SenderAt(c, k, 1), [PktAt(c, k)], None)
  {
    hide Payload, Build;
  }

  lemma {:induction false} AckMoves(c: Setup, k: nat, t: nat, d: seq<byte>)
    requires k <= Last(c)
    requires d == AckData(c, k) || (k > 0 && d == [])
    ensures var o := Acked(c.job, SenderAt(c, k, t), d);
            if k < Last(c) then o == Out(SenderAt(c, k + 1, 1), [PktAt(c, k + 1)], None)
            else o == Out(SenderAt(c, k, t).(phase := Closed, n := (k + 1) % 64), [], Some(true))
  {
    hide Exchange, Payload, Build, Negotiate, InitParams, EncodeChunk, Chunks, DataPhase;
    var st := SenderAt(c, k, t);
    assert (k % 64 + 1) % 64 == (k + 1) % 64;
    Ours(c.rTimeout);
    ExchangeStarts(c, k + 1, t, st.pkt, st.phase);
    if 2 <= k < 3 + |FileChunks(c)| {
      PhaseAfter(c, k - 2);
    }
  }

  // ----- what one accepted packet does to the receiver --------------------------------------

  lemma {:induction false} AcceptMoves(c: Setup, r: RState, j: nat)
    requires c.Ok() && r.phase.Active? && Knows(c, r, j) && r.expected == j % 64 && j <= Last(c)
    ensures var o := Accept(c.rTimeout, r, j % 64, TypeChar(PhaseAt(c, j)), DataAt(c, j));
            && Knows(c, o.st, j + 1) && o.writes == [AckAt(c, j)] && o.st.started == r.started
            && (j < Last(c) ==> o.st.phase.Active? && o.st.expected == (j + 1) % 64 && o.complete == None)
            && (j == Last(c) ==> o.st.phase.Lingering? && o.st.expected == j % 64
                                 && o.complete == Some(Saved(c.job.file, NameAt(c))))
  {
    hide Accept, Knows, PhaseAt, DataAt, AckAt, NameAt;
    if j < 3 {
      AcceptHead(c, r, j);
    } else if j < 3 + |FileChunks(c)| {
      AcceptData(c, r, j);
    } else if j < Last(c) {
      AcceptEof(c, r, j);
    } else {
      AcceptBreak(c, r, j);
    }
  }

  lemma {:induction false} AcceptHead(c: Setup, r: RState, j: nat)
    requires c.Ok() && r.phase.Active? && Knows(c, r, j) && r.expected == j % 64 && j < 3
    ensures var o := Accept(c.rTimeout, r, j % 64, TypeChar(PhaseAt(c, j)), DataAt(c, j));
            Knows(c, o.st, j + 1) && o.writes == [AckAt(c, j)] && o.st.started == r.started
            && o.st.phase.Active? && o.st.expected == (j + 1) % 64 && o.complete == None
  {
    hide Build, Negotiate, InitParams, EncodeChunk, Chunks, Decode, ParseAttrs, AttrData;
    Ours(c.job.timeout);
    AttrRoundTrip(|c.job.file|, r.exactSize);
  }

  lemma {:induction false} DataIsStored(timeout: nat, r: RState, n: nat, d: seq<byte>)
    requires r.neg.Some?
    ensures var bytes := Decode(d, r.neg.value.Prefixes());
            Accept(timeout, r, n, T_D, d) ==
            Advance(WithAck(r.(tries := 0, chunks := r.chunks + [bytes], received := r.received + |bytes|),
                            n, [], r.neg.value.ckType))
  {
    hide Build, Decode, Negotiate, InitParams, EncodeChunk, ParseAttrs, Finish, RFail;
  }

  lemma {:induction false} StoredNext(c: Setup, j: nat)
    requires 3 <= j < 3 + |FileChunks(c)|
    ensures var q := OurParams(c.job.timeout);
            && q.ckType == 3
            && Stored(c, StoredCount(c, j + 1)) == Stored(c, StoredCount(c, j)) + [Decode(DataAt(c, j), q.Prefixes())]
  {
    hide FileChunks, Decode, DataAt;
    Ours(c.job.timeout);
    DataAtChunk(c, j - 3);
    assert StoredCount(c, j) == j - 3 && StoredCount(c, j + 1) == j - 2;
  }

  lemma {:induction false} AcceptData(c: Setup, r: RState, j: nat)
    requires r.phase.Active? && Knows(c, r, j) && r.expected == j % 64
    requires 3 <= j < 3 + |FileChunks(c)|
    ensures var o := Accept(c.rTimeout, r, j % 64, TypeChar(PhaseAt(c, j)), DataAt(c, j));
            Knows(c, o.st, j + 1) && o.writes == [AckAt(c, j)] && o.st.started == r.started
            && o.st.phase.Active? && o.st.expected == (j + 1) % 64 && o.complete == None
  {
    hide Build, FileChunks, Decode, DataAt, Accept, NameAt, Negotiate, InitParams, ParseAttrs, Chunks, EncodeChunk;
    hide Stored, StoredCount, OurParams;
    assert TypeChar(PhaseAt(c, j)) == T_D;
    StoredNext(c, j);
    DataIsStored(c.rTimeout, r, j % 64, DataAt(c, j));
    assert AckAt(c, j) == Build(j % 64, T_Y, [], 3);
  }

  lemma {:induction false} AcceptEof(c: Setup, r: RState, j: nat)
    requires r.phase.Active? && Knows(c, r, j) && r.expected == j % 64 && j == 3 + |FileChunks(c)|
    ensures var o := Accept(c.rTimeout, r, j % 64, TypeChar(PhaseAt(c, j)), DataAt(c, j));
            Knows(c, o.st, j + 1) && o.writes == [AckAt(c, j)] && o.st.started == r.started
            && o.st.phase.Active? && o.st.expected == (j + 1) % 64 && o.complete == None
  {
    hide Build, EncodeChunk, Chunks, Decode, RFail, InitParams, NameAt, Stored, ParseAttrs, Negotiate, Finish;
    assert StoredCount(c, j) == StoredCount(c, j + 1);
    assert TypeChar(PhaseAt(c, j)) == T_Z && DataAt(c, j) == [];
  }

  lemma {:induction false} AcceptBreak(c: Setup, r: RState, j: nat)
    requires r.phase.Active? && Knows(c, r, j) && r.expected == j % 64 && j == Last(c)
    ensures var o := Accept(c.rTimeout, r, j % 64, TypeChar(PhaseAt(c, j)), DataAt(c, j));
            Knows(c, o.st, j + 1) && o.writes == [AckAt(c, j)] && o.st.started == r.started
            && o.st.phase.Lingering? && o.st.expected == j % 64
            && o.complete == Some(Saved(c.job.file, NameAt(c)))
  {
    hide Build, EncodeChunk, Chunks, Decode, Flatten, RFail, InitParams, NameAt, Stored, ParseAttrs, Negotiate;
    AllStored(c);
    assert StoredCount(c, j) == StoredCount(c, j + 1) == |FileChunks(c)|;
    assert TypeChar(PhaseAt(c, j)) == T_B && DataAt(c, j) == [];
  }

  // ----- nothing old left in a channel --------------------------------------------------------

  predicate AllCurrentToR(c: Setup, y: Sys)
  {
    forall i :: 0 <= i < |y.toR| ==> IsError(y.toR[i]) || CurrentToR(c, y, y.toR[i])
  }

  predicate AllCurrentToS(c: Setup, y: Sys)
  {
    forall i :: 0 <= i < |y.toS| ==> IsError(y.toS[i]) || CurrentToS(c, y, y.toS[i])
  }

  // ----- packets told apart by number and type ------------------------------------------------

  predicate Numbered(f: seq<byte>, n: nat, typ: byte)
  {
    |f| >= 5 && f[2] == ToChar(n % 64) && f[3] == typ
  }

  lemma {:induction false} TagOfPkt(c: Setup, k: nat)
    ensures Numbered(PktAt(c, k), k, TypeChar(PhaseAt(c, k))) && TypeChar(PhaseAt(c, k)) !in {T_E, T_N, T_Y}
  {
    hide Build, Payload, Chunks;
    Tag(k % 64, TypeChar(PhaseAt(c, k)), DataAt(c, k), CkAt(k));
  }

  lemma {:induction false} TagOfAck(c: Setup, k: nat)
    ensures Numbered(AckAt(c, k), k, T_Y)
  {
    hide Build, AckData;
    Tag(k % 64, T_Y, AckData(c, k), CkAt(k));
  }

  lemma {:induction false} TagOfNak(k: nat)
    ensures Numbered(NakAt(k), k, T_N)
  {
    hide Build;
    Tag(k % 64, T_N, [], CkAt(k));
  }

  lemma {:induction false} PktsDiffer(c: Setup, k: nat)
    ensures PktAt(c, k) != PktAt(c, k + 1) && !IsError(PktAt(c, k + 1))
  {
    hide PktAt, PhaseAt;
    TagOfPkt(c, k);
    TagOfPkt(c, k + 1);
  }

  lemma {:induction false} ResponsesDiffer(c: Setup, f: seq<byte>, k: nat)
    requires Response(c, f, k)
    ensures !Response(c, f, k + 1) && !IsError(f)
  {
    hide AckAt, NakAt, Parse, Last;
    assert (k - 1) % 64 != k % 64 && (k + 1) % 64 != k % 64;
    TagOfNak(k);
    TagOfNak(k + 1);
    if k > 0 { TagOfAck(c, k - 1); }
    TagOfAck(c, k);
  }

  // ----- the effect of each kind of outcome on the invariant ------------------------------------

  /** The sender acted: what concerns only the receiver's side stays. */
  lemma {:induction false} ReceiverSideStays(c: Setup, y: Sys, z: Sys)
    requires z.r == y.r && z.j == y.j && z.rDone == y.rDone && z.toS == y.toS && z.k == y.k
    ensures ReceiverOk(c, y) ==> ReceiverOk(c, z)
    ensures ToSOk(c, y, y.toS) ==> ToSOk(c, z, z.toS)
  {
    hide Knows, Response;
  }

  lemma {:induction false} MatchesOne(f: seq<byte>, pkt: seq<byte>)
    ensures Matches([f], pkt) == (if f == pkt then 1 else 0) && Matches([], pkt) == 0
  {
    var one: seq<seq<byte>> := [f];
    assert one[1..] == [];
  }

  lemma {:induction false} KeepsOnResend(c: Setup, y: Sys)
    requires Inv(c, y) && Waiting(y.s) && y.s.tries < MAX_RETRIES
    ensures Inv(c, ApplyS(y, Out(y.s.(tries := y.s.tries + 1), [y.s.pkt], None)))
  {
    hide PktAt, PhaseAt, NegAt, Response, Stable, ReceiverOk, ToSOk, ToROk;
    var z := ApplyS(y, Out(y.s.(tries := y.s.tries + 1), [y.s.pkt], None));
    ReceiverSideStays(c, y, z);
    MatchesOne(y.s.pkt, y.s.pkt);
    AppendCurrent(c, y, z);
  }

  /** Resending the current packet, or giving up on it. */
  lemma {:induction false} KeepsOnSend(c: Setup, y: Sys)
    requires Inv(c, y) && Waiting(y.s)
    ensures Inv(c, ApplyS(y, Send(y.s)))
  {
    hide Inv, ApplyS, Fail;
    assert 1 <= y.s.tries <= MAX_RETRIES by { TriesInRange(c, y); }
    if y.s.tries < MAX_RETRIES {
      KeepsOnResend(c, y);
    } else {
      PlainTextPrintable("No response from receiver (");
      PlainTextPrintable(" packet)");
      var s := y.s.(tries := y.s.tries + 1);
      KeepsOnFail(c, y, s, NoResponse(s.phase), true);
    }
  }

  lemma {:induction false} TriesInRange(c: Setup, y: Sys)
    requires Inv(c, y) && Waiting(y.s)
    ensures 1 <= y.s.tries <= MAX_RETRIES
  {
    hide PktAt, PhaseAt, NegAt, ReceiverOk, ChannelsOk, Stable;
  }

  /** One more copy of the current packet at the end of its channel. */
  lemma {:induction false} AppendCurrent(c: Setup, y: Sys, z: Sys)
    requires ToROk(c, y, y.toR) && y.k <= Last(c)
    requires z.k == y.k && z.j == y.j && z.toR == y.toR + [PktAt(c, y.k)]
    ensures ToROk(c, z, z.toR)
  {
    hide PktAt, PhaseAt;
  }

  lemma {:induction false} KeepsOnFail(c: Setup, y: Sys, s: State, text: seq<byte>, notify: bool)
    requires Inv(c, y) && (s == y.s || s == y.s.(tries := y.s.tries + 1)) && AllPrintable(text)
    ensures Inv(c, ApplyS(y, Fail(s, text, notify)))
  {
    hide PktAt, PhaseAt, Response, Stable, Knows, IsError, ErrorPacket, ReceiverOk, ToSOk;
    var o := Fail(s, text, notify);
    var z := ApplyS(y, o);
    ReceiverSideStays(c, y, z);
    if s.phase.Closed? {
      assert z.s == s && z.toR == y.toR;
      assert Matches([], s.pkt) == 0;
    } else {
      var f := ErrorPacket(s.n, text, CkOf(s.neg));
      CkIsOneOrThree(c, y);
      ErrorIsError(s.n, text, CkOf(s.neg));
      if notify {
        ErrorIsNotThePacket(c, y, f);
        MatchesOne(f, s.pkt);
        assert z.toR == y.toR + [f];
      } else {
        assert z.toR == y.toR;
      }
    }
  }

  lemma {:induction false} CkIsOneOrThree(c: Setup, y: Sys)
    requires SenderOk(c, y) && !y.s.phase.Closed?
    ensures CkOf(y.s.neg) == 1 || CkOf(y.s.neg) == 3
  {
    hide PktAt, PhaseAt;
  }

  lemma {:induction false} ErrorIsNotThePacket(c: Setup, y: Sys, f: seq<byte>)
    requires SenderOk(c, y) && !y.s.phase.Closed? && IsError(f)
    ensures f != y.s.pkt
  {
    hide PktAt, PhaseAt;
    TagOfPkt(c, y.k);
  }

  /** The channels seen from the next exchange: what was current is now old. */
  lemma {:induction false} ChannelsAfterAck(c: Setup, y: Sys, z: Sys)
    requires ToROk(c, y, y.toR) && y.j == y.k + 1 && y.k <= Last(c)
    requires AllCurrentToS(c, y)
    requires z.k == y.k + 1 && z.j == y.j && z.toS == y.toS
    requires z.toR == y.toR + if z.k <= Last(c) then [PktAt(c, z.k)] else []
    ensures ToROk(c, z, z.toR) && ToSOk(c, z, z.toS)
  {
    hide PktAt, PhaseAt, Response, IsError;
    PktsDiffer(c, y.k);
  }

  /** The current exchange is over: the next packet goes out, or the transfer is complete. */
  lemma {:induction false} KeepsOnAck(c: Setup, y: Sys, d: seq<byte>)
    requires Inv(c, y) && Waiting(y.s) && y.j == y.k + 1
    requires AllCurrentToS(c, y)
    requires d == AckData(c, y.k) || (y.k > 0 && d == [])
    ensures Inv(c, ApplyS(y, Acked(c.job, y.s, d)))
  {
    hide PktAt, PhaseAt, NegAt, Response, Stable, Knows, IsError, AckData, Acked, ToROk, ToSOk;
    AckMoves(c, y.k, y.s.tries, d);
    var z := ApplyS(y, Acked(c.job, y.s, d));
    assert y.k % 64 != (y.k + 1) % 64;
    assert z.toR == y.toR + if z.k <= Last(c) then [PktAt(c, z.k)] else [];
    ChannelsAfterAck(c, y, z);
    if y.k < Last(c) {
      MatchesOne(PktAt(c, y.k + 1), PktAt(c, y.k + 1));
    } else {
      MatchesOne([], z.s.pkt);
    }
  }

  // ----- the receiver's side ------------------------------------------------------------------

  lemma {:induction false} SenderSideStays(c: Setup, y: Sys, z: Sys)
    requires z.s == y.s && z.k == y.k && z.sDone == y.sDone && z.copies == y.copies && z.toR == y.toR
    ensures SenderOk(c, y) ==> SenderOk(c, z)
    ensures z.j == y.j && ToROk(c, y, y.toR) ==> ToROk(c, z, z.toR)
  {
    hide PktAt, PhaseAt, NegAt;
  }

  /** Writing replies that fit the packets accepted so far. */
  lemma {:induction false} KeepsOnReply(c: Setup, y: Sys, tries: nat, ws: seq<seq<byte>>)
    requires Inv(c, y)
    requires forall i :: 0 <= i < |ws| ==> IsError(ws[i]) || Response(c, ws[i], y.j)
    ensures Inv(c, ApplyR(y, ROut(y.r.(tries := tries), ws, None)))
  {
    hide SenderOk, ToROk, Response, Stable, IsError, Knows;
    var r := y.r.(tries := tries);
    var z := ApplyR(y, ROut(r, ws, None));
    SenderSideStays(c, y, z);
    assert Knows(c, r, y.j) by { KnowsFrame(c, y.r, r, y.j); }
  }

  lemma {:induction false} KnowsFrame(c: Setup, r: RState, r': RState, j: nat)
    requires Knows(c, r, j)
    requires r' == r.(tries := r'.tries, phase := r'.phase, started := r'.started)
    ensures Knows(c, r', j)
  {
    hide AckAt, NameAt, Stored;
  }

  lemma {:induction false} KeepsOnRFail(c: Setup, y: Sys, tries: nat, text: seq<byte>, notify: bool)
    requires Inv(c, y) && AllPrintable(text)
    ensures Inv(c, ApplyR(y, RFail(y.r.(tries := tries), text, notify)))
  {
    hide SenderOk, ToROk, Response, Stable, IsError, Knows, ErrorPacket;
    var r := y.r.(tries := tries);
    var o := RFail(r, text, notify);
    var z := ApplyR(y, o);
    SenderSideStays(c, y, z);
    assert Knows(c, o.st, y.j) by { KnowsFrame(c, y.r, o.st, y.j); }
    assert CkOf(r.neg) == 1 || CkOf(r.neg) == 3 by { KnownCk(c, y.r, y.j); }
    ErrorIsError(r.expected, text, CkOf(r.neg));
  }

  lemma {:induction false} KnownCk(c: Setup, r: RState, j: nat)
    requires Knows(c, r, j)
    ensures CkOf(r.neg) == CkAt(j)
  {
    hide AckAt, NameAt, Stored;
  }

  /** The packet both sides are waiting for gets through. */
  lemma {:induction false} KeepsOnAccept(c: Setup, y: Sys)
    requires c.Ok() && Inv(c, y) && y.r.phase.Active? && y.j == y.k && y.k <= Last(c)
    requires AllCurrentToR(c, y)
    ensures Inv(c, ApplyR(y, Accept(c.rTimeout, y.r, y.k % 64, TypeChar(PhaseAt(c, y.k)), DataAt(c, y.k))))
  {
    hide SenderOk, PhaseAt, DataAt, AckAt, Response, Stable, IsError, Knows, Accept, PktAt, ToSOk, ToROk, NameAt;
    AcceptMoves(c, y.r, y.k);
    var o := Accept(c.rTimeout, y.r, y.k % 64, TypeChar(PhaseAt(c, y.k)), DataAt(c, y.k));
    var z := ApplyR(y, o);
    assert y.k % 64 != (y.k + 1) % 64;
    assert z.j == y.k + 1;
    SenderSideStays(c, y, z);
    ChannelsAfterAccept(c, y, z);
    ReceiverAfterAccept(c, y, z);
  }

  lemma {:induction false} EmptyIsStable()
    ensures Stable([])
  {
  }

  lemma {:induction false} ReceiverAfterAccept(c: Setup, y: Sys, z: Sys)
    requires ReceiverOk(c, y) && y.r.phase.Active? && z.j == y.j + 1 && Knows(c, z.r, z.j) && y.r.started
    requires z.r.started && y.j <= Last(c)
    requires y.j < Last(c) ==> z.r.phase.Active? && z.r.expected == z.j % 64 && z.rDone == y.rDone
    requires y.j == Last(c) ==> z.r.phase.Lingering? && z.r.expected == Last(c) % 64
                                && z.rDone == y.rDone + [Saved(c.job.file, NameAt(c))]
    ensures ReceiverOk(c, z)
  {
    hide Knows, NameAt;
  }

  lemma {:induction false} ChannelsAfterAccept(c: Setup, y: Sys, z: Sys)
    requires ToSOk(c, y, y.toS) && y.j == y.k && z.k == y.k && z.j == y.k + 1
    requires z.toR == y.toR && z.toS == y.toS + [AckAt(c, y.k)]
    requires AllCurrentToR(c, y)
    ensures ToROk(c, z, z.toR) && ToSOk(c, z, z.toS)
  {
    hide PktAt, IsError, AckAt, Response;
    forall i | 0 <= i < |y.toS| && Response(c, y.toS[i], y.k)
      ensures !Response(c, y.toS[i], y.k + 1) && !IsError(y.toS[i])
    {
      ResponsesDiffer(c, y.toS[i], y.k);
    }
    AckIsResponse(c, y.k);
    forall i | 0 <= i < |y.toS| && IsError(y.toS[i])
      ensures !Response(c, y.toS[i], y.k + 1)
    {
      if Response(c, y.toS[i], y.k + 1) { ResponsesDiffer(c, y.toS[i], y.k + 1); }
    }
  }

  lemma {:induction false} AckIsResponse(c: Setup, k: nat)
    ensures Response(c, AckAt(c, k), k + 1)
  {
    hide AckAt, NakAt;
  }

  // ----- the parsers' buffers and the heads of the channels ---------------------------------------

  lemma {:induction false} KeepsOnBuffers(c: Setup, y: Sys, sb: seq<byte>, rb: seq<byte>)
    requires Inv(c, y) && Stable(sb) && Stable(rb)
    ensures Inv(c, y.(sbuf := sb, rbuf := rb))
  {
    hide PktAt, PhaseAt, NegAt, Response, Stable, IsError, Knows;
  }

  lemma {:induction false} KeepsOnDropToR(c: Setup, y: Sys)
    requires Inv(c, y) && y.toR != []
    ensures Inv(c, y.(toR := y.toR[1..]))
    ensures CurrentToR(c, y, y.toR[0]) ==> AllCurrentToR(c, y.(toR := y.toR[1..]))
  {
    hide PktAt, PhaseAt, NegAt, Response, Stable, IsError, Knows;
    var z := y.(toR := y.toR[1..]);
    assert forall i :: 0 <= i < |z.toR| ==> z.toR[i] == y.toR[i + 1];
  }

  lemma {:induction false} KeepsOnDropToS(c: Setup, y: Sys)
    requires Inv(c, y) && y.toS != []
    ensures Inv(c, y.(toS := y.toS[1..]))
    ensures CurrentToS(c, y, y.toS[0]) ==> AllCurrentToS(c, y.(toS := y.toS[1..]))
  {
    hide PktAt, PhaseAt, NegAt, Response, Stable, IsError, Knows;
    var z := y.(toS := y.toS[1..]);
    assert forall i :: 0 <= i < |z.toS| ==> z.toS[i] == y.toS[i + 1];
  }

  // ----- one packet handed to the receiver ----------------------------------------------------------

  lemma {:induction false} NakIsResponse(c: Setup, y: Sys)
    requires ReceiverOk(c, y) && (y.r.phase.Active? || y.r.phase.RIdle?)
    ensures Response(c, Nak(y.r), y.j)
  {
    hide AckAt, NameAt, Stored, Build;
  }

  lemma {:induction false} LastAckIsResponse(c: Setup, y: Sys)
    requires ReceiverOk(c, y) && y.j > 0
    ensures y.r.lastAck == Some(AckAt(c, y.j - 1)) && Response(c, AckAt(c, y.j - 1), y.j)
  {
    hide AckAt, NakAt, NameAt, Stored;
  }

  /** Damaged packets, and repeats of old ones, only make the receiver repeat itself. */
  lemma {:induction false} ReceiverRepeats(c: Setup, y: Sys, o: ROut)
    requires Inv(c, y)
    requires || o == ROut(y.r, [], None)
             || (o == ROut(y.r, [Nak(y.r)], None) && y.r.phase.Active?)
             || (o == ROut(y.r, AckOf(y.r), None) && y.j > 0)
    ensures Inv(c, ApplyR(y, o))
  {
    hide PktAt, PhaseAt, NegAt, Response, Stable, IsError, Knows, ToROk, ToSOk, SenderOk, ReceiverOk, Nak, AckAt;
    assert o.st == y.r.(tries := y.r.tries);
    if y.r.phase.Active? { NakIsResponse(c, y); }
    if y.j > 0 { LastAckIsResponse(c, y); }
    KeepsOnReply(c, y, y.r.tries, o.writes);
  }

  lemma {:induction false} DamagedToR(c: Setup, y: Sys, p: Pkt)
    requires Inv(c, y) && Damaged(p)
    ensures Inv(c, ApplyR(y, ROnPacket(c.rTimeout, y.r, p)))
    ensures ROnPacket(c.rTimeout, y.r, p).st == y.r
  {
    hide PktAt, PhaseAt, NegAt, Response, Stable, IsError, ToROk, ToSOk, SenderOk, Accept;
    if y.r.phase.Active? { KnownCk(c, y.r, y.j); }
    ReceiverRepeats(c, y, ROnPacket(c.rTimeout, y.r, p));
  }

  lemma {:induction false} ErrorToR(c: Setup, y: Sys, p: Pkt)
    requires Inv(c, y) && TypeOf(p) == T_E
    ensures Inv(c, ApplyR(y, ROnPacket(c.rTimeout, y.r, p)))
    ensures ROnPacket(c.rTimeout, y.r, p).st.phase.Lingering? <==> y.r.phase.Lingering?
  {
    hide PktAt, PhaseAt, NegAt, Response, Stable, IsError, ToROk, ToSOk, SenderOk, Knows;
    var o := ROnPacket(c.rTimeout, y.r, p);
    if y.r.phase.Active? && RReadBy(y.r, p).Some? {
      assert y.r == y.r.(tries := y.r.tries);
      KeepsOnRFail(c, y, y.r.tries, [], false);
    } else {
      ReceiverRepeats(c, y, o);
    }
  }

  lemma {:induction false} PrevNumber(j: nat)
    requires 0 < j
    ensures Prev(j % 64) == (j - 1) % 64 && Prev(j % 64) != j % 64
  {
  }

  /** A packet of the ideal transfer is readable: S with check 1, the rest with check 3. */
  lemma {:induction false} Readable(c: Setup, r: RState, j: nat, k: nat, p: Pkt)
    requires Knows(c, r, j) && k <= j && (k > 0 ==> j > 0)
    requires TypeOf(p) == TypeChar(PhaseAt(c, k))
    ensures p.Data(CkAt(k)).Some? ==> RReadBy(r, p) == p.Data(CkAt(k))
  {
    hide PhaseAt, AckAt, NameAt, Stored, ParseAttrs;
    TypeOfInit(c, k);
    KnownCk(c, r, j);
  }

  lemma {:induction false} RepeatIsReAcked(c: Setup, r: RState, j: nat, p: Pkt)
    requires 0 < j && Knows(c, r, j) && r.phase.Active? && r.expected == j % 64
    requires SeqOf(p) == (j - 1) % 64 && TypeOf(p) == TypeChar(PhaseAt(c, j - 1)) && p.Data(CkAt(j - 1)).Some?
    ensures ROnPacket(c.rTimeout, r, p) == ROut(r, AckOf(r), None)
  {
    hide Accept, AckAt, NameAt, Stored, Nak, PhaseAt, RReadBy, Prev, SeqOf, ParseAttrs;
    TypeOfInit(c, j - 1);
    PrevNumber(j);
    Readable(c, r, j, j - 1, p);
  }

  lemma {:induction false} TypeOfInit(c: Setup, k: nat)
    ensures TypeChar(PhaseAt(c, k)) == T_S <==> k == 0
    ensures TypeChar(PhaseAt(c, k)) != T_E
    ensures k == Last(c) ==> TypeChar(PhaseAt(c, k)) == T_B
  {
    hide Chunks;
  }

  /** A repeat of the packet accepted last. */
  lemma {:induction false} RepeatToR(c: Setup, y: Sys, p: Pkt)
    requires Inv(c, y) && 0 < y.j
    requires SeqOf(p) == (y.j - 1) % 64 && TypeOf(p) == TypeChar(PhaseAt(c, y.j - 1))
    requires p.Data(CkAt(y.j - 1)).Some?
    ensures Inv(c, ApplyR(y, ROnPacket(c.rTimeout, y.r, p)))
    ensures ROnPacket(c.rTimeout, y.r, p).st == y.r
  {
    hide PktAt, PhaseAt, Response, Stable, IsError, ToROk, ToSOk, SenderOk, Accept, Chunks, Knows;
    if y.r.phase.Active? {
      RepeatIsReAcked(c, y.r, y.j, p);
    } else if y.r.phase.Lingering? {
      TypeOfInit(c, Last(c));
      assert y.j - 1 == Last(c);
    }
    ReceiverRepeats(c, y, ROnPacket(c.rTimeout, y.r, p));
  }

  /** The packet the receiver expects. */
  lemma {:induction false} ExpectedToR(c: Setup, y: Sys, p: Pkt)
    requires c.Ok() && Inv(c, y) && y.j == y.k && y.k <= Last(c)
    requires AllCurrentToR(c, y)
    requires SeqOf(p) == y.k % 64 && TypeOf(p) == TypeChar(PhaseAt(c, y.k))
    requires p.Data(CkAt(y.k)) == Some(DataAt(c, y.k))
    ensures Inv(c, ApplyR(y, ROnPacket(c.rTimeout, y.r, p)))
  {
    hide PktAt, PhaseAt, Response, Stable, IsError, ToROk, ToSOk, SenderOk, Accept, Chunks, DataAt, Knows;
    if y.r.phase.Active? {
      KnownCk(c, y.r, y.j);
      TypeOfInit(c, y.k);
      assert y.k % 64 == y.r.expected && Prev(y.k % 64) != y.k % 64;
      KeepsOnAccept(c, y);
    } else {
      ReceiverRepeats(c, y, ROnPacket(c.rTimeout, y.r, p));
    }
  }
}
