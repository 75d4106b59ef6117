/** A receiver whose transfer is over: its last acknowledgement for whoever missed it, and nothing else. */
module KermitLinger {
  import opened Bytes
  import opened KermitChecks
  import opened KermitPacket
  import opened KermitSender
  import opened KermitReceiver
  import opened KermitSession
  import opened KermitSafety
  import opened KermitProgress
  import opened KermitForeign
  import opened KermitAbort

  /**
   * Any packet, whoever sent it and under whatever check: the last acknowledgement again if it is
   * the packet before, or ends a file or a session; silence for every other.
   */
  lemma {:induction false} LastAnswerRepeated(c: Setup, y: Sys, n: nat, typ: byte, data: seq<byte>, ck: nat)
    requires Stable(y.rbuf) && y.r.phase.Lingering? && y.r.lastAck.Some? && Sendable(typ, data, ck)
    ensures var z := AtReceiver(c, y, Build(n, typ, data, ck));
            && z.r == y.r && z.rDone == y.rDone && z.toR == y.toR
            && z.toS == y.toS + if (n + 1) % 64 == y.r.expected % 64 || typ == 0x42 || typ == 0x5a then [y.r.lastAck.value] else []
  {
    hide Parse, Stable, Built, Build, SeqOf, TypeOf, Sendable;
    var f := Build(n, typ, data, ck);
    var x := y.(toR := [f] + y.toR);
    var p := Arrives(y.rbuf, n, typ, data, ck);
    RunOne(c, x, DeliverToR);
    assert x.toR[0] == f && x.toR[1..] == y.toR && x.(toR := x.toR[1..]) == y;
    OnePacketFed(c, y, f, p);
    Before(n, y.r.expected);
  }

  lemma {:induction false} Before(n: nat, e: nat)
    ensures n % 64 == (e + 63) % 64 <==> (n + 1) % 64 == e % 64
  {
  }

  /** Everything still to come to the sender was written before, or is the last acknowledgement. */
  predicate OnlyRepeats(was: seq<seq<byte>>, last: seq<byte>, now: seq<seq<byte>>)
  {
    forall w :: w in now ==> w in was || w == last
  }

  predicate Over(r: RState, last: seq<byte>)
  {
    r.started && (r.phase.Lingering? || r.phase.RClosed?) && r.lastAck == Some(last)
  }

  lemma {:induction false} PacketRepeats(y: Sys, timeout: nat, p: Pkt, last: seq<byte>)
    requires Over(y.r, last) && y.r.phase.Lingering?
    ensures var z := ApplyR(y, ROnPacket(timeout, y.r, p));
            z.r == y.r && z.rDone == y.rDone && OnlyRepeats(y.toS, last, z.toS)
  {
    hide SeqOf, TypeOf, Prev;
  }

  lemma {:induction false} PacketsRepeat(c: Setup, y: Sys, pkts: seq<Pkt>, last: seq<byte>)
    requires Over(y.r, last) && y.r.phase.Lingering?
    ensures var z := RPackets(c, y, pkts, true); z.r == y.r && z.rDone == y.rDone && OnlyRepeats(y.toS, last, z.toS)
    decreases |pkts|
  {
    hide ROnPacket, ApplyR;
    if pkts != [] {
      PacketRepeats(y, c.rTimeout, pkts[0], last);
      PacketsRepeat(c, ApplyR(y, ROnPacket(c.rTimeout, y.r, pkts[0])), pkts[1..], last);
    }
  }

  lemma {:induction false} BytesRepeat(c: Setup, y: Sys, b: seq<byte>, last: seq<byte>)
    requires Over(y.r, last)
    ensures var z := RFeed(c, y, b); Over(z.r, last) && z.rDone == y.rDone && OnlyRepeats(y.toS, last, z.toS)
  {
    hide RPackets, Parse;
    if y.r.phase.Lingering? { PacketsRepeat(c, y, Parse(y.rbuf + b).pkts, last); }
  }

  lemma {:induction false} QuietReceiver(y: Sys, last: seq<byte>)
    requires Over(y.r, last)
    ensures forall o {:trigger ApplyR(y, o)} :: o in {ROnTimeout(y.r), RCancel(y.r), LingerOver(y.r)} ==>
              var z := ApplyR(y, o); Over(z.r, last) && z.rDone == y.rDone && z.toS == y.toS
  {
    hide StrBytes, ErrorPacket, Nak;
  }

  lemma {:induction false} OverStep(c: Setup, y: Sys, e: Event, last: seq<byte>)
    requires Over(y.r, last)
    ensures var z := After(c, y, e); Over(z.r, last) && z.rDone == y.rDone && OnlyRepeats(y.toS, last, z.toS)
  {
    hide OnPacket, OnTimeout, Cancel, Start, Detectable, ApplyR, RFeed, SFeed, ROnTimeout, RCancel, LingerOver, Over;
    assert y.r.started by { StartedBy(y.r, last); }
    QuietReceiver(y, last);
    match e
    case DeliverToR => if y.toR != [] { BytesRepeat(c, y.(toR := y.toR[1..]), y.toR[0], last); }
    case NoiseToR(b) => BytesRepeat(c, y, b, last);
    case DeliverToS => if y.toS != [] { FeedKeepsReceiver(c, y.(toS := y.toS[1..]), y.toS[0]); }
    case NoiseToS(b) => FeedKeepsReceiver(c, y, b);
    case _ =>
  }

  lemma {:induction false} StartedBy(r: RState, last: seq<byte>)
    requires Over(r, last)
    ensures r.started
  {
  }

  /** Over every run: once over, a receiver reports nothing more, and all it writes is its last acknowledgement. */
  lemma {:induction false} OverStays(c: Setup, y: Sys, more: seq<Event>, last: seq<byte>)
    requires y.r.started && (y.r.phase.Lingering? || y.r.phase.RClosed?) && y.r.lastAck == Some(last)
    ensures var z := Run(c, y, more);
            && (z.r.phase.Lingering? || z.r.phase.RClosed?) && z.r.lastAck == Some(last)
            && z.rDone == y.rDone && OnlyRepeats(y.toS, last, z.toS)
    decreases |more|
  {
    hide After;
    if more != [] {
      OverStep(c, y, more[0], last);
      OverStays(c, After(c, y, more[0]), more[1..], last);
    }
  }

  /** At the end of its time it lets go of the port: whatever still comes is not even read. */
  lemma {:induction false} LetsGo(c: Setup, y: Sys, f: seq<byte>)
    requires y.r.phase.Lingering?
    ensures var z := Run(c, y, [LingerEnds]);
            && z == y.(r := z.r)
            && Run(c, z.(toR := [f] + z.toR), [DeliverToR]) == z
  {
    RunOne(c, y, LingerEnds);
    var z := After(c, y, LingerEnds);
    var x := z.(toR := [f] + z.toR);
    RunOne(c, x, DeliverToR);
    assert x.toR[0] == f && x.toR[1..] == z.toR && x.(toR := x.toR[1..]) == z;
  }
}
