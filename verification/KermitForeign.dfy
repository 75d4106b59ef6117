/** Each endpoint against any Kermit whatever: what it answers to every packet, and a whole session of either. */
module KermitForeign {
  import opened Bytes
  import opened KermitChecks
  import opened KermitPacket
  import opened KermitCodec
  import opened KermitInit
  import opened KermitSender
  import opened KermitReceiver
  import opened KermitSession
  import opened KermitSafety
  import opened KermitProgress

  /** The next bytes to arrive at an endpoint. */
  function AtReceiver(c: Setup, y: Sys, f: seq<byte>): Sys { Run(c, y.(toR := [f] + y.toR), [DeliverToR]) }

  function AtSender(c: Setup, y: Sys, f: seq<byte>): Sys { Run(c, y.(toS := [f] + y.toS), [DeliverToS]) }

  lemma {:induction false} ReceiverHears(c: Setup, y: Sys, n: nat, typ: byte, data: seq<byte>, ck: nat)
    requires Stable(y.rbuf) && y.r.phase.Active? && Sendable(typ, data, ck)
    ensures AtReceiver(c, y, Build(n, typ, data, ck)) ==
            ApplyR(y, ROnPacket(c.rTimeout, y.r, Built(n, typ, data, ck))).(rbuf := [])
    ensures var p := Built(n, typ, data, ck); SeqOf(p) == n % 64 && TypeOf(p) == typ && p.Data(ck) == Some(data)
  {
    hide Parse, Stable, Built, Build, SeqOf, TypeOf, ROnPacket, ApplyR, Sendable;
    var f := Build(n, typ, data, ck);
    var x := y.(toR := [f] + y.toR);
    var p := Arrives(y.rbuf, n, typ, data, ck);
    RunOne(c, x, DeliverToR);
    assert x.toR[0] == f && x.toR[1..] == y.toR && x.(toR := x.toR[1..]) == y;
    OnePacketFed(c, y, f, p);
  }

  lemma {:induction false} SenderHears(c: Setup, y: Sys, n: nat, typ: byte, data: seq<byte>, ck: nat)
    requires Stable(y.sbuf) && Waiting(y.s) && Sendable(typ, data, ck)
    ensures AtSender(c, y, Build(n, typ, data, ck)) ==
            ApplyS(y.(sbuf := []), OnPacket(c.job, y.s, Built(n, typ, data, ck)))
    ensures var p := Built(n, typ, data, ck); SeqOf(p) == n % 64 && TypeOf(p) == typ && p.Data(ck) == Some(data)
  {
    hide Parse, Stable, Built, Build, SeqOf, TypeOf, OnPacket, ApplyS, Sendable;
    var f := Build(n, typ, data, ck);
    var x := y.(toS := [f] + y.toS);
    var p := Arrives(y.sbuf, n, typ, data, ck);
    RunOne(c, x, DeliverToS);
    assert x.toS[0] == f && x.toS[1..] == y.toS && x.(toS := x.toS[1..]) == y;
    var one: seq<Pkt> := [p];
    assert one[0] == p && one[1..] == [];
    var u := y.(sbuf := []);
    assert SPackets(c, u, one) == ApplyS(u, OnPacket(c.job, y.s, p));
  }

  // ----- what a receiver answers ---------------------------------------------------------------------

  /** The check type the receiver expects of a packet. */
  function Expects(r: RState, typ: byte): nat { if typ == T_S then 1 else CkOf(r.neg) }

  /** Any packet but an error under a number that is not awaited: the last answer again, or the awaited packet is asked for. */
  lemma {:induction false} WrongNumber(c: Setup, y: Sys, n: nat, typ: byte, data: seq<byte>)
    requires Stable(y.rbuf) && y.r.phase.Active? && y.r.expected < 64 && typ != T_E
    requires Sendable(typ, data, Expects(y.r, typ)) && n % 64 != y.r.expected
    ensures var z := AtReceiver(c, y, Build(n, typ, data, Expects(y.r, typ)));
            && z.r == y.r && z.rDone == y.rDone && z.toR == y.toR
            && z.toS == y.toS + [if n % 64 == (y.r.expected + 63) % 64 && y.r.lastAck.Some? then y.r.lastAck.value
                                 else Build(y.r.expected, T_N, [], CkOf(y.r.neg))]
  {
    hide Build, Built, Accept, SeqOf, TypeOf, Stable, Sendable, AtReceiver, Expects;
    var ck := Expects(y.r, typ);
    ReceiverHears(c, y, n, typ, data, ck);
    ReadsAs(y.r, Built(n, typ, data, ck), data);
  }

  lemma {:induction false} ReadsAs(r: RState, p: Pkt, data: seq<byte>)
    requires p.Data(Expects(r, TypeOf(p))) == Some(data)
    ensures RReadBy(r, p) == Some(data)
  {
    hide TypeOf;
  }

  /** A damaged packet, or one under a check type that is not expected, has the awaited one asked for. */
  lemma {:induction false} Unreadable(c: Setup, y: Sys, n: nat, typ: byte, data: seq<byte>, ck: nat)
    requires Stable(y.rbuf) && y.r.phase.Active? && Sendable(typ, data, ck) && typ != T_E
    requires Built(n, typ, data, ck).Data(Expects(y.r, typ)).None?
    ensures var z := AtReceiver(c, y, Build(n, typ, data, ck));
            && z.r == y.r && z.rDone == y.rDone && z.toR == y.toR
            && z.toS == y.toS + [Build(y.r.expected, T_N, [], CkOf(y.r.neg))]
  {
    ReceiverHears(c, y, n, typ, data, ck);
    hide Build, Built, Accept, SeqOf, TypeOf, Stable, Sendable;
  }

  /** The awaited packet, readable, is accepted. */
  lemma {:induction false} Awaited(c: Setup, y: Sys, n: nat, typ: byte, data: seq<byte>)
    requires Stable(y.rbuf) && y.r.phase.Active? && y.r.expected == n % 64 && typ != T_E
    requires Sendable(typ, data, Expects(y.r, typ))
    ensures AtReceiver(c, y, Build(n, typ, data, Expects(y.r, typ))) ==
            ApplyR(y, Accept(c.rTimeout, y.r, n % 64, typ, data)).(rbuf := [])
  {
    hide Build, Built, Accept, SeqOf, TypeOf, Stable, Sendable, ApplyR;
    ReceiverHears(c, y, n, typ, data, Expects(y.r, typ));
  }

  /** The awaited packet with a type no file transfer has: the peer is told, and the transfer fails. */
  lemma {:induction false} UnknownType(c: Setup, y: Sys, typ: byte, data: seq<byte>)
    requires Stable(y.rbuf) && y.r.phase.Active? && y.r.expected < 64 && typ !in {T_S, T_F, T_A, T_D, T_Z, T_B, T_E}
    requires Sendable(typ, data, CkOf(y.r.neg))
    ensures var z := AtReceiver(c, y, Build(y.r.expected, typ, data, CkOf(y.r.neg)));
            && z.r.phase.RClosed? && z.rDone == y.rDone + [Failed]
            && z.toS == y.toS + [Build(y.r.expected, T_E, StrBytes("Unsupported Kermit packet '") + [typ] + StrBytes("'"),
                                       CkOf(y.r.neg))]
  {
    hide Build, Stable, Sendable, StrBytes, Finish, Decode, Negotiate, ParseAttrs, EncodeChunk, InitParams, AtReceiver;
    Awaited(c, y, y.r.expected, typ, data);
    var t := StrBytes("Unsupported Kermit packet '") + [typ] + StrBytes("'");
    assert t[..Min(80, |t|)] == t;
  }

  /** A file name or data before any parameters: nothing is written, nothing is kept. */
  lemma {:induction false} BeforeParameters(c: Setup, y: Sys, typ: byte, data: seq<byte>)
    requires Stable(y.rbuf) && y.r.phase.Active? && y.r.expected < 64 && y.r.neg.None?
    requires Sendable(typ, data, 1) && (typ == T_F || (typ == T_D && data != []))
    ensures var z := AtReceiver(c, y, Build(y.r.expected, typ, data, 1));
            z.r == y.r.(tries := 0) && z.toS == y.toS && z.rDone == y.rDone
  {
    hide Build, Stable, Sendable, Finish, Decode, Negotiate, ParseAttrs, EncodeChunk, InitParams, RFail, AtReceiver;
    Awaited(c, y, y.r.expected, typ, data);
  }

  /** The sender throws its file away at the end: acknowledged, and the transfer fails. */
  lemma {:induction false} FileDiscarded(c: Setup, y: Sys, data: seq<byte>)
    requires Stable(y.rbuf) && y.r.phase.Active? && y.r.expected < 64
    requires Sendable(T_Z, data, CkOf(y.r.neg)) && data != [] && data[0] == 0x44
    ensures var z := AtReceiver(c, y, Build(y.r.expected, T_Z, data, CkOf(y.r.neg)));
            && z.r.phase.RClosed? && z.rDone == y.rDone + [Failed]
            && z.toS == y.toS + [Build(y.r.expected, T_Y, [], CkOf(y.r.neg))]
  {
    hide Build, Stable, Sendable, Finish, Decode, Negotiate, ParseAttrs, EncodeChunk, InitParams, AtReceiver;
    Awaited(c, y, y.r.expected, T_Z, data);
  }

  // ----- a receiver's whole session ------------------------------------------------------------------

  /** What a peer has to say: a packet's type and data. */
  datatype In = In(typ: byte, data: seq<byte>)

  function ParamsOf(ps: seq<In>): Params
    requires ps != []
  {
    Negotiate(ps[0].data)
  }

  /** Parameters first, then names, attributes, data and ends of file in any order. */
  predicate Session(ps: seq<In>)
  {
    && ps != [] && ps[0].typ == T_S && Sendable(T_S, ps[0].data, 1)
    && forall i :: 1 <= i < |ps| ==>
         && ps[i].typ in {T_F, T_A, T_D, T_Z} && Sendable(ps[i].typ, ps[i].data, ParamsOf(ps).ckType)
         && !(ps[i].typ == T_Z && ps[i].data != [] && ps[i].data[0] == 0x44)
  }

  /** The file: all data packets, decoded, in order. */
  function DataOf(ps: seq<In>, q: Prefixes): seq<byte>
  {
    if ps == [] then []
    else
      var e := ps[|ps| - 1];
      DataOf(ps[..|ps| - 1], q) + if e.typ == T_D then Decode(e.data, q) else []
  }

  function NameIn(d: seq<byte>, q: Prefixes): seq<byte> { if Decode(d, q) == [] then StrBytes("file") else Decode(d, q) }

  /** The last file name given. */
  function NameOf(ps: seq<In>, q: Prefixes): seq<byte>
  {
    if ps == [] then []
    else if ps[|ps| - 1].typ == T_F then NameIn(ps[|ps| - 1].data, q)
    else NameOf(ps[..|ps| - 1], q)
  }

  /** The size announced, -1 if none. */
  function SizeOf(ps: seq<In>): int
  {
    if ps == [] then -1
    else if ps[|ps| - 1].typ == T_A then ParseAttrs(ps[|ps| - 1].data, SizeOf(ps[..|ps| - 1]))
    else SizeOf(ps[..|ps| - 1])
  }

  predicate Ended(ps: seq<In>) { exists i :: 0 <= i < |ps| && ps[i].typ == T_Z }

  /** The answer to the packet at k. */
  function AnswerTo(c: Setup, ps: seq<In>, k: nat): seq<byte>
    requires k < |ps|
  {
    var q := ParamsOf(ps);
    if k == 0 then Build(0, T_Y, InitParams(c.rTimeout), 1)
    else
      Build(k, T_Y,
            if ps[k].typ == T_F then EncodeChunk(NameIn(ps[k].data, q.Prefixes()), 0, 60, q.Prefixes()).bytes
            else if ps[k].typ == T_A then [T_Y]
            else [], q.ckType)
  }

  /** The bytes of the packet at k. */
  function FrameAt(ps: seq<In>, k: nat): seq<byte>
    requires k < |ps|
  {
    Build(k, ps[k].typ, ps[k].data, if k == 0 then 1 else ParamsOf(ps).ckType)
  }

  /** A started receiver after the first k packets. */
  function Served(c: Setup, ps: seq<In>, k: nat): Sys
    requires k <= |ps|
  {
    if k == 0 then Run(c, START_SYS, [ReceiverStart]) else AtReceiver(c, Served(c, ps, k - 1), FrameAt(ps, k - 1))
  }

  function Answers(c: Setup, ps: seq<In>, k: nat): seq<seq<byte>>
    requires k <= |ps|
  {
    if k == 0 then [Build(0, T_N, [], 1)] else Answers(c, ps, k - 1) + [AnswerTo(c, ps, k - 1)]
  }

  /** What the receiver holds after k packets. */
  predicate Holds(c: Setup, ps: seq<In>, k: nat, y: Sys)
    requires 1 <= k <= |ps|
  {
    var p, q := ps[..k], ParamsOf(ps).Prefixes();
    && y.r.phase.Active? && y.r.expected == k % 64 && y.r.neg == Some(ParamsOf(ps)) && y.r.lastAck == Some(AnswerTo(c, ps, k - 1))
    && Flatten(y.r.chunks) == DataOf(p, q) && y.r.name == NameOf(p, q) && y.r.exactSize == SizeOf(p)
    && (y.r.gotEof <==> Ended(p)) && y.r.tries == 0
    && y.rbuf == [] && y.toS == Answers(c, ps, k) && y.rDone == []
  }

  lemma {:induction false} ProjectionsGrow(ps: seq<In>, k: nat, q: Prefixes)
    requires 1 <= k < |ps|
    ensures var p, e, t := ps[..k], ps[k], ps[..k + 1];
            && DataOf(t, q) == DataOf(p, q) + (if e.typ == T_D then Decode(e.data, q) else [])
            && NameOf(t, q) == (if e.typ == T_F then NameIn(e.data, q) else NameOf(p, q))
            && SizeOf(t) == (if e.typ == T_A then ParseAttrs(e.data, SizeOf(p)) else SizeOf(p))
            && (Ended(t) <==> Ended(p) || e.typ == T_Z)
  {
    hide Decode, ParseAttrs, NameIn;
    var p, t := ps[..k], ps[..k + 1];
    assert t[..|t| - 1] == p && t[|t| - 1] == ps[k];
    assert forall i :: 0 <= i < k ==> t[i] == p[i];
    if Ended(p) { var i :| 0 <= i < |p| && p[i].typ == T_Z; assert t[i].typ == T_Z; }
    if ps[k].typ == T_Z { assert t[k].typ == T_Z; }
  }

  /** What accepting one packet of a session does, field by field. */
  lemma {:induction false} AcceptIs(timeout: nat, r: RState, n: nat, e: In)
    requires r.phase.Active? && r.neg.Some? && r.expected == n < 64 && e.typ in {T_F, T_A, T_D, T_Z}
    requires !(e.typ == T_Z && e.data != [] && e.data[0] == 0x44)
    ensures var o, q := Accept(timeout, r, n, e.typ, e.data), r.neg.value.Prefixes();
            var ack := Build(n, T_Y, if e.typ == T_F then EncodeChunk(NameIn(e.data, q), 0, 60, q).bytes
                                     else if e.typ == T_A then [T_Y] else [], r.neg.value.ckType);
            && o.complete == None && o.writes == [ack]
            && o.st == r.(tries := 0, expected := (n + 1) % 64, lastAck := Some(ack),
                          name := if e.typ == T_F then NameIn(e.data, q) else r.name,
                          exactSize := if e.typ == T_A then ParseAttrs(e.data, r.exactSize) else r.exactSize,
                          chunks := if e.typ == T_D then r.chunks + [Decode(e.data, q)] else r.chunks,
                          received := r.received + (if e.typ == T_D then |Decode(e.data, q)| else 0),
                          gotEof := r.gotEof || e.typ == T_Z)
  {
    hide Build, Decode, Negotiate, ParseAttrs, EncodeChunk, InitParams, StrBytes, Finish, RFail;
  }

  lemma {:induction false} StartedReceiver(c: Setup)
    ensures var y := Run(c, START_SYS, [ReceiverStart]);
            y == START_SYS.(r := RSTART.(started := true, phase := Active), toS := [Build(0, T_N, [], 1)])
  {
    hide Build;
    RunOne(c, START_SYS, ReceiverStart);
  }

  lemma {:induction false} FirstHeld(c: Setup, ps: seq<In>)
    requires Session(ps)
    ensures Holds(c, ps, 1, Served(c, ps, 1))
  {
    hide Build, Stable, Sendable, Decode, Negotiate, ParseAttrs, EncodeChunk, InitParams, AtReceiver, StrBytes, Finish, RFail;
    StartedReceiver(c);
    EmptyIsStable();
    var y := Served(c, ps, 0);
    Awaited(c, y, 0, T_S, ps[0].data);
    assert Served(c, ps, 1) == AtReceiver(c, y, FrameAt(ps, 0));
    FirstOnly(ps, ParamsOf(ps).Prefixes());
    var z := Served(c, ps, 1);
    assert z.r.lastAck == Some(AnswerTo(c, ps, 0));
    assert z.toS == Answers(c, ps, 1);
    assert Flatten(z.r.chunks) == DataOf(ps[..1], ParamsOf(ps).Prefixes());
  }

  lemma {:induction false} FirstOnly(ps: seq<In>, q: Prefixes)
    requires ps != [] && ps[0].typ == T_S
    ensures var p := ps[..1]; DataOf(p, q) == [] && NameOf(p, q) == [] && SizeOf(p) == -1 && !Ended(p)
  {
    hide Decode, ParseAttrs, NameIn;
    var p := ps[..1];
    assert p[..0] == [] && p[0].typ == T_S;
  }

  lemma {:induction false} NextHeld(c: Setup, ps: seq<In>, k: nat, y: Sys)
    requires Session(ps) && 1 <= k < |ps| && Holds(c, ps, k, y)
    ensures Holds(c, ps, k + 1, AtReceiver(c, y, FrameAt(ps, k)))
  {
    hide Build, Stable, Sendable, Decode, Negotiate, ParseAttrs, EncodeChunk, InitParams, AtReceiver, StrBytes, Accept;
    hide NameIn, DataOf, NameOf, SizeOf, Ended, Flatten;
    EmptyIsStable();
    var e, q := ps[k], ParamsOf(ps).Prefixes();
    Awaited(c, y, k, e.typ, e.data);
    AcceptIs(c.rTimeout, y.r, k % 64, e);
    ProjectionsGrow(ps, k, q);
    FlattenSnoc(y.r.chunks, Decode(e.data, q));
    NumberWraps(k, T_Y, []);
    BuildWraps(c, ps, k);
    assert DataOf(ps[..k], q) + [] == DataOf(ps[..k], q);
    assert (k % 64 + 1) % 64 == (k + 1) % 64;
  }

  lemma {:induction false} NumberWraps(k: nat, typ: byte, data: seq<byte>)
    ensures forall ck: nat :: Build(k % 64, typ, data, ck) == Build(k, typ, data, ck)
  {
    assert k % 64 % 64 == k % 64;
  }

  /** The acknowledgement under the wrapped number is the one under the packet's. */
  lemma {:induction false} BuildWraps(c: Setup, ps: seq<In>, k: nat)
    requires 1 <= k < |ps|
    ensures var e, q := ps[k], ParamsOf(ps);
            AnswerTo(c, ps, k) ==
            Build(k % 64, T_Y, if e.typ == T_F then EncodeChunk(NameIn(e.data, q.Prefixes()), 0, 60, q.Prefixes()).bytes
                               else if e.typ == T_A then [T_Y] else [], q.ckType)
  {
    hide EncodeChunk, NameIn, Negotiate;
    assert k % 64 % 64 == k % 64;
  }

  /** At every point of a session. */
  lemma {:induction false} SessionHeld(c: Setup, ps: seq<In>, k: nat)
    requires Session(ps) && 1 <= k <= |ps|
    ensures Holds(c, ps, k, Served(c, ps, k))
    decreases k
  {
    hide Holds, AtReceiver, Session;
    if k == 1 {
      FirstHeld(c, ps);
    } else {
      SessionHeld(c, ps, k - 1);
      NextHeld(c, ps, k - 1, Served(c, ps, k - 1));
    }
  }

  /**
   * A receiver with any peer: a session of parameters, names, attributes, data and ends of
   * file is answered packet by packet as the standard says, each under its number and the
   * negotiated check; and when the peer breaks off, it hands over exactly the data packets'
   * contents under the last name given, if an end of file came and the announced size, if
   * any, is met, and fails otherwise.
   */
  lemma {:induction false} ReceiverServes(c: Setup, ps: seq<In>, data: seq<byte>)
    requires Session(ps) && Sendable(T_B, data, ParamsOf(ps).ckType)
    ensures var q, y := ParamsOf(ps), Served(c, ps, |ps|);
            var z := AtReceiver(c, y, Build(|ps|, T_B, data, q.ckType));
            var file := DataOf(ps, q.Prefixes());
            && y.rDone == [] && y.toS == Answers(c, ps, |ps|)
            && z.toS == y.toS + [Build(|ps|, T_Y, [], q.ckType)]
            && z.rDone == [if Ended(ps) && (SizeOf(ps) >= 0 ==> |file| == SizeOf(ps))
                           then Saved(file, NameOf(ps, q.Prefixes())) else Failed]
  {
    hide Build, Stable, Sendable, Decode, Negotiate, ParseAttrs, EncodeChunk, InitParams, AtReceiver, StrBytes, Flatten;
    hide NameIn, DataOf, NameOf, SizeOf, Ended;
    EmptyIsStable();
    SessionHeld(c, ps, |ps|);
    assert ps[..|ps|] == ps;
    var y := Served(c, ps, |ps|);
    Awaited(c, y, |ps|, T_B, data);
    NumberWraps(|ps|, T_Y, []);
  }

  // ----- what a sender does with an answer -------------------------------------------------------------

  /** The check type the sender expects of an answer. */
  function AnswerCk(s: State): nat { if s.phase.Init? then 1 else CkOf(s.neg) }

  /** Neither an acknowledgement of the current packet, nor a request for it or the next, nor an error: ignored. */
  lemma {:induction false} AnswerIgnored(c: Setup, y: Sys, n: nat, typ: byte, data: seq<byte>)
    requires Stable(y.sbuf) && Waiting(y.s) && Sendable(typ, data, AnswerCk(y.s)) && y.s.n < 64 && typ != T_E
    requires typ == T_Y ==> n % 64 != y.s.n
    requires typ == T_N ==> n % 64 != y.s.n && n % 64 != (y.s.n + 1) % 64
    ensures var z := AtSender(c, y, Build(n, typ, data, AnswerCk(y.s)));
            z.s == y.s && z.toR == y.toR && z.sDone == y.sDone && z.toS == y.toS
  {
    hide Build, Built, Acked, Send, Fail, SeqOf, TypeOf, Stable, Sendable, AtSender;
    SenderHears(c, y, n, typ, data, AnswerCk(y.s));
    assert y.toR + [] == y.toR;
  }

  /** A request for the current packet: it is written again, or after the tenth time the transfer fails. */
  lemma {:induction false} NakResends(c: Setup, y: Sys, data: seq<byte>)
    requires Stable(y.sbuf) && Waiting(y.s) && Sendable(T_N, data, AnswerCk(y.s)) && y.s.n < 64
    ensures var z := AtSender(c, y, Build(y.s.n, T_N, data, AnswerCk(y.s)));
            if y.s.tries < MAX_RETRIES
            then z.toR == y.toR + [y.s.pkt] && z.sDone == y.sDone && z.s == y.s.(tries := y.s.tries + 1)
            else z.sDone == y.sDone + [false] && |z.toR| == |y.toR| + 1 && z.s.phase.Closed?
  {
    hide Build, Built, Acked, SeqOf, TypeOf, Stable, Sendable, AtSender, StrBytes;
    SenderHears(c, y, y.s.n, T_N, data, AnswerCk(y.s));
    assert y.s.n != (y.s.n + 1) % 64;
  }

  /** A request for the next packet says that the current one arrived. */
  lemma {:induction false} NakOfNextAcknowledges(c: Setup, y: Sys, data: seq<byte>)
    requires Stable(y.sbuf) && Waiting(y.s) && Sendable(T_N, data, AnswerCk(y.s)) && Sendable(T_Y, [], AnswerCk(y.s))
    requires y.s.n < 64
    ensures AtSender(c, y, Build(y.s.n + 1, T_N, data, AnswerCk(y.s))) ==
            AtSender(c, y, Build(y.s.n, T_Y, [], AnswerCk(y.s)))
  {
    hide Build, Built, Acked, Send, Fail, SeqOf, TypeOf, Stable, Sendable, AtSender, ApplyS;
    SenderHears(c, y, y.s.n + 1, T_N, data, AnswerCk(y.s));
    SenderHears(c, y, y.s.n, T_Y, [], AnswerCk(y.s));
  }

  /** The peer refuses the file: it is told that this was understood, and the transfer fails. */
  lemma {:induction false} FileRefused(c: Setup, y: Sys, data: seq<byte>)
    requires Stable(y.sbuf) && y.s.phase.Attr? && Sendable(T_Y, data, AnswerCk(y.s)) && y.s.n < 64
    requires data != [] && data[0] == T_N
    ensures var z := AtSender(c, y, Build(y.s.n, T_Y, data, AnswerCk(y.s)));
            && z.sDone == y.sDone + [false] && z.s.phase.Closed?
            && z.toR == y.toR + [Build((y.s.n + 1) % 64, T_E, StrBytes("Receiver refused the file"), CkOf(y.s.neg))]
  {
    hide Build, Built, Send, SeqOf, TypeOf, Stable, Sendable, AtSender, StrBytes, Exchange, DataPhase;
    SenderHears(c, y, y.s.n, T_Y, data, AnswerCk(y.s));
    var t := StrBytes("Receiver refused the file");
    assert t[..Min(80, |t|)] == t;
  }

  /** The peer breaks off in the middle of the data: the transfer fails, and nothing more is written. */
  lemma {:induction false} DataCancelled(c: Setup, y: Sys, data: seq<byte>)
    requires Stable(y.sbuf) && y.s.phase.Data? && Sendable(T_Y, data, AnswerCk(y.s)) && y.s.n < 64
    requires data != [] && (data[0] == 0x58 || data[0] == 0x5a)
    ensures var z := AtSender(c, y, Build(y.s.n, T_Y, data, AnswerCk(y.s)));
            z.sDone == y.sDone + [false] && z.s.phase.Closed? && z.toR == y.toR
  {
    hide Build, Built, Send, SeqOf, TypeOf, Stable, Sendable, AtSender, Exchange, DataPhase;
    SenderHears(c, y, y.s.n, T_Y, data, AnswerCk(y.s));
    assert y.toR + [] == y.toR;
  }

  // ----- a sender's whole session -----------------------------------------------------------------------

  /** Where the i-th data packet starts. */
  function PosAt(job: Job, q: Params, i: nat): (pos: nat)
    ensures pos <= |job.file|
  {
    if i == 0 then 0 else EncodeChunk(job.file, PosAt(job, q, i - 1), DataRoom(q), q.Prefixes()).next
  }

  /** Parameters, name, and attributes if the peer wants them. */
  function HeadLen(q: Params): nat { if q.attr then 3 else 2 }

  /** The k-th packet of a sender whose peer's parameters are q and whose file takes m data packets. */
  function ItemAt(job: Job, q: Params, m: nat, k: nat): In
  {
    if k == 0 then In(T_S, InitParams(job.timeout))
    else if k == 1 then In(T_F, EncodeChunk(job.name, 0, DataRoom(q), q.Prefixes()).bytes)
    else if k < HeadLen(q) then In(T_A, AttrData(|job.file|))
    else if k < HeadLen(q) + m then
      In(T_D, EncodeChunk(job.file, PosAt(job, q, k - HeadLen(q)), DataRoom(q), q.Prefixes()).bytes)
    else if k == HeadLen(q) + m then In(T_Z, [])
    else In(T_B, [])
  }

  /** The file takes m data packets: the m-th ends it, none before does. */
  predicate Takes(job: Job, q: Params, m: nat)
  {
    PosAt(job, q, m) == |job.file| && forall i: nat :: i < m ==> PosAt(job, q, i) < |job.file|
  }

  /** What a willing peer may answer to each packet after the first. */
  predicate Willing(q: Params, m: nat, k: nat, d: seq<byte>)
  {
    && (k == 2 && q.attr ==> d == [] || d[0] != T_N)
    && (HeadLen(q) <= k < HeadLen(q) + m ==> d == [] || (d[0] != 0x58 && d[0] != 0x5a))
  }

  function PhaseOf(job: Job, q: Params, m: nat, k: nat): Phase
    requires k > 0
  {
    if k == 1 then Name
    else if k < HeadLen(q) then Attr
    else if k < HeadLen(q) + m then Data(PosAt(job, q, k - HeadLen(q)), PosAt(job, q, k - HeadLen(q) + 1))
    else if k == HeadLen(q) + m then Eof
    else Break
  }

  function ItemFrame(job: Job, q: Params, m: nat, k: nat): seq<byte>
  {
    Build(k, ItemAt(job, q, m, k).typ, ItemAt(job, q, m, k).data, if k == 0 then 1 else q.ckType)
  }

  /** The sender in the middle of its k-th packet. */
  predicate Sends(c: Setup, q: Params, m: nat, k: nat, y: Sys)
    requires k > 0
  {
    && y.s == State(PhaseOf(c.job, q, m, k), true, k % 64, Some(q), 1, ItemFrame(c.job, q, m, k))
    && y.sbuf == [] && y.sDone == [] && y.toR == Items(c.job, q, m, k + 1)
  }

  /** The first n packets. */
  function Items(job: Job, q: Params, m: nat, n: nat): seq<seq<byte>>
  {
    if n == 0 then [] else Items(job, q, m, n - 1) + [ItemFrame(job, q, m, n - 1)]
  }

  lemma {:induction false} ExchangeIs(c: Setup, q: Params, m: nat, k: nat, st: State)
    requires k > 0 && st.n == k % 64 && st.neg == Some(q) && st.started
    ensures Exchange(c.job, st, PhaseOf(c.job, q, m, k)) ==
            Out(State(PhaseOf(c.job, q, m, k), true, k % 64, Some(q), 1, ItemFrame(c.job, q, m, k)),
                [ItemFrame(c.job, q, m, k)], None)
  {
    hide Build, EncodeChunk, AttrData, InitParams, PosAt;
    WrappedItem(c.job, q, m, k);
  }

  lemma {:induction false} WrappedItem(job: Job, q: Params, m: nat, k: nat)
    requires k > 0
    ensures ItemFrame(job, q, m, k) == Build(k % 64, TypeChar(PhaseOf(job, q, m, k)), Payload(job, Some(q), PhaseOf(job, q, m, k)), q.ckType)
  {
    hide EncodeChunk, AttrData, InitParams, PosAt, Build;
    SameNumber(k, ItemAt(job, q, m, k).typ, ItemAt(job, q, m, k).data, q.ckType);
  }

  lemma {:induction false} SameNumber(k: nat, typ: byte, data: seq<byte>, ck: nat)
    ensures Build(k % 64, typ, data, ck) == Build(k, typ, data, ck)
  {
    assert k % 64 % 64 == k % 64;
  }

  /** The phase that follows. */
  lemma {:induction false} NextPhase(job: Job, q: Params, m: nat, i: nat)
    requires Takes(job, q, m) && i <= m
    ensures DataPhase(job, q, PosAt(job, q, i)) == PhaseOf(job, q, m, HeadLen(q) + i)
  {
    hide EncodeChunk;
    assert i < m ==> PosAt(job, q, i) < |job.file|;
  }

  lemma {:induction false} AckedIs(c: Setup, q: Params, m: nat, k: nat, st: State, d: seq<byte>)
    requires k > 0 && Takes(c.job, q, m) && Willing(q, m, k, d) && k <= HeadLen(q) + m
    requires st == State(PhaseOf(c.job, q, m, k), true, k % 64, Some(q), 1, ItemFrame(c.job, q, m, k))
    ensures Acked(c.job, st, d) == Exchange(c.job, st.(n := (k + 1) % 64), PhaseOf(c.job, q, m, k + 1))
  {
    hide Build, EncodeChunk, AttrData, InitParams, Exchange, ItemFrame, PosAt, Takes, DataPhase, Fail, Negotiate;
    assert (k % 64 + 1) % 64 == (k + 1) % 64;
    NextPhase(c.job, q, m, 0);
    StartsAtZero(c.job, q);
    if HeadLen(q) <= k < HeadLen(q) + m { NextPhase(c.job, q, m, k - HeadLen(q) + 1); }
  }

  lemma {:induction false} StartsAtZero(job: Job, q: Params)
    ensures PosAt(job, q, 0) == 0
  {
  }

  /** The answer to the packet at k. */
  function ReplyTo(q: Params, ds: seq<seq<byte>>, k: nat): seq<byte>
    requires k < |ds|
  {
    Build(k, T_Y, ds[k], if k == 0 then 1 else q.ckType)
  }

  /** A started sender after the first k answers. */
  function Answered(c: Setup, ds: seq<seq<byte>>, k: nat): Sys
    requires ds != [] && k <= |ds|
  {
    if k == 0 then Run(c, START_SYS, [SenderStart])
    else AtSender(c, Answered(c, ds, k - 1), ReplyTo(Negotiate(ds[0]), ds, k - 1))
  }

  /** A peer that agrees to everything; its first answer holds its parameters. */
  predicate Agreeing(q: Params, m: nat, ds: seq<seq<byte>>)
  {
    && |ds| == HeadLen(q) + m + 2 && Negotiate(ds[0]) == q && Sendable(T_Y, ds[0], 1)
    && forall k :: 1 <= k < |ds| ==> Sendable(T_Y, ds[k], q.ckType) && Willing(q, m, k, ds[k])
  }

  lemma {:induction false} FirstItem(c: Setup, q: Params, m: nat)
    ensures var y := Run(c, START_SYS, [SenderStart]);
            && y.s == State(Init, true, 0, None, 1, ItemFrame(c.job, q, m, 0)) && y.sbuf == [] && y.sDone == []
            && y.toR == [ItemFrame(c.job, q, m, 0)]
  {
    hide Build, InitParams;
    RunOne(c, START_SYS, SenderStart);
  }

  lemma {:induction false} SecondItem(c: Setup, q: Params, m: nat, ds: seq<seq<byte>>)
    requires Agreeing(q, m, ds)
    ensures Sends(c, q, m, 1, Answered(c, ds, 1))
  {
    hide Build, InitParams, Stable, Sendable, AtSender, ItemFrame, Negotiate, Exchange, SeqOf, TypeOf, Built;
    EmptyIsStable();
    FirstItem(c, q, m);
    var y := Answered(c, ds, 0);
    SenderHears(c, y, 0, T_Y, ds[0], 1);
    ExchangeIs(c, q, m, 1, y.s.(n := 1, neg := Some(q)));
    assert Answered(c, ds, 1) == AtSender(c, y, ReplyTo(q, ds, 0));
    assert Items(c.job, q, m, 1) == [ItemFrame(c.job, q, m, 0)];
    assert Items(c.job, q, m, 2) == [ItemFrame(c.job, q, m, 0)] + [ItemFrame(c.job, q, m, 1)];
  }

  lemma {:induction false} NextItem(c: Setup, q: Params, m: nat, k: nat, d: seq<byte>, y: Sys)
    requires k > 0 && Takes(c.job, q, m) && Willing(q, m, k, d) && k <= HeadLen(q) + m && Sends(c, q, m, k, y)
    requires Sendable(T_Y, d, q.ckType)
    ensures Sends(c, q, m, k + 1, AtSender(c, y, Build(k, T_Y, d, q.ckType)))
  {
    hide Build, Stable, Sendable, AtSender, ItemFrame, Exchange, SeqOf, TypeOf, Built, Takes, Acked, PosAt;
    EmptyIsStable();
    SenderHears(c, y, k, T_Y, d, q.ckType);
    AckedIs(c, q, m, k, y.s, d);
    ExchangeIs(c, q, m, k + 1, y.s.(n := (k + 1) % 64));
    assert k % 64 != (k % 64 + 1) % 64 && k % 64 != (k + 1) % 64;
  }

  lemma {:induction false} Midway(c: Setup, q: Params, m: nat, ds: seq<seq<byte>>, k: nat)
    requires Takes(c.job, q, m) && Agreeing(q, m, ds) && 1 <= k <= HeadLen(q) + m + 1
    ensures Sends(c, q, m, k, Answered(c, ds, k))
    decreases k
  {
    hide Sends, AtSender, Takes, Negotiate, Build;
    if k == 1 {
      SecondItem(c, q, m, ds);
    } else {
      Midway(c, q, m, ds, k - 1);
      NextItem(c, q, m, k - 1, ds[k - 1], Answered(c, ds, k - 1));
    }
  }

  lemma {:induction false} LastAnswer(c: Setup, q: Params, m: nat, k: nat, d: seq<byte>, y: Sys)
    requires k == HeadLen(q) + m + 1 && Sends(c, q, m, k, y) && Sendable(T_Y, d, q.ckType)
    ensures var z := AtSender(c, y, Build(k, T_Y, d, q.ckType)); z.sDone == [true] && z.s.phase.Closed? && z.toR == y.toR
  {
    hide Build, Stable, Sendable, AtSender, ItemFrame, Exchange, SeqOf, TypeOf, Built, PosAt, Items;
    EmptyIsStable();
    SenderHears(c, y, k, T_Y, d, q.ckType);
    assert y.toR + [] == y.toR;
  }

  /**
   * A sender with any peer that agrees: parameters, the name, the attributes if the peer wants
   * them, the file in as many packets as it takes, its end and the end of the session, each
   * written once, under its number and the negotiated check; then it reports success.
   */
  lemma {:induction false} SenderServes(c: Setup, q: Params, m: nat, ds: seq<seq<byte>>)
    requires Takes(c.job, q, m) && Agreeing(q, m, ds)
    ensures var z := Answered(c, ds, |ds|);
            z.sDone == [true] && z.s.phase.Closed? && z.toR == Items(c.job, q, m, |ds|)
    ensures forall k :: 1 <= k < |ds| ==> Answered(c, ds, k).sDone == [] && Answered(c, ds, k).toR == Items(c.job, q, m, k + 1)
  {
    hide Build, Sendable, AtSender, Takes, Negotiate, Items;
    var k := |ds| - 1;
    Midway(c, q, m, ds, k);
    LastAnswer(c, q, m, k, ds[k], Answered(c, ds, k));
    forall i | 1 <= i < |ds| ensures Answered(c, ds, i).sDone == [] && Answered(c, ds, i).toR == Items(c.job, q, m, i + 1) {
      Midway(c, q, m, ds, i);
    }
  }

  /** What the sender says, packet by packet. */
  function ItemList(job: Job, q: Params, m: nat, n: nat): (ps: seq<In>)
    ensures |ps| == n
  {
    if n == 0 then [] else ItemList(job, q, m, n - 1) + [ItemAt(job, q, m, n - 1)]
  }

  /** How much of the file the first n packets hold. */
  function HeldBy(job: Job, q: Params, m: nat, n: nat): (pos: nat)
    ensures pos <= |job.file|
  {
    PosAt(job, q, if n <= HeadLen(q) then 0 else Min(n - HeadLen(q), m))
  }

  lemma {:induction false} ItemHolds(job: Job, q: Params, m: nat, n: nat)
    requires n > 0 && Negotiable(q.Prefixes()) && Distinct(q.Prefixes())
    ensures var e, a, b := ItemAt(job, q, m, n - 1), HeldBy(job, q, m, n - 1), HeldBy(job, q, m, n);
            if e.typ == T_D then a <= b && Decode(e.data, q.Prefixes()) == job.file[a..b] else a == b
  {
    hide EncodeChunk, Decode, Negotiable, Distinct, AttrData, InitParams;
    if HeadLen(q) < n <= HeadLen(q) + m {
      var i := n - 1 - HeadLen(q);
      ChunkRoundTrip(job.file, PosAt(job, q, i), DataRoom(q), q.Prefixes());
    }
  }

  /** The data packets hold the file: whoever decodes them with the same prefixes has it, if those are distinct. */
  lemma {:induction false} ItemsHoldFile(job: Job, q: Params, m: nat, n: nat)
    requires Negotiable(q.Prefixes()) && Distinct(q.Prefixes())
    ensures DataOf(ItemList(job, q, m, n), q.Prefixes()) == job.file[..HeldBy(job, q, m, n)]
    decreases n
  {
    hide ItemAt, Decode, HeldBy, Negotiable, Distinct;
    if n == 0 {
      NothingHeld(job, q, m);
    } else {
      ItemsHoldFile(job, q, m, n - 1);
      ItemHolds(job, q, m, n);
      var ps, a, b := ItemList(job, q, m, n), HeldBy(job, q, m, n - 1), HeldBy(job, q, m, n);
      assert ps[..|ps| - 1] == ItemList(job, q, m, n - 1) && ps[|ps| - 1] == ItemAt(job, q, m, n - 1);
      if a <= b { assert job.file[..b] == job.file[..a] + job.file[a..b]; }
    }
  }

  lemma {:induction false} NothingHeld(job: Job, q: Params, m: nat)
    ensures HeldBy(job, q, m, 0) == 0
  {
  }

  /** All of a sender's packets together hold the file. */
  lemma {:induction false} SenderSendsFile(job: Job, q: Params, m: nat)
    requires Takes(job, q, m) && Negotiable(q.Prefixes()) && Distinct(q.Prefixes())
    ensures DataOf(ItemList(job, q, m, HeadLen(q) + m + 2), q.Prefixes()) == job.file
  {
    hide PosAt;
    ItemsHoldFile(job, q, m, HeadLen(q) + m + 2);
    assert job.file[..|job.file|] == job.file;
  }
}
