/** What a peer's parameters say, field by field, and what is made of each: also of a reply cut short. */
module KermitReplies {
  import opened Bytes
  import opened KermitChecks
  import opened KermitPacket
  import opened KermitCodec
  import opened KermitInit

  /**
   * The fields of a parameter packet in the order of the standard. The capabilities are a long
   * packet and an attribute flag, three flags of no interest here, and bytes of further ones.
   */
  datatype Reply = Reply(
    maxl: nat, time: nat, npad: nat, padc: byte, eol: nat, qctl: byte, qbin: byte, check: byte, rept: byte,
    long: bool, attr: bool, others: nat, more: seq<nat>, window: nat, lenHigh: nat, lenLow: nat)
  {
    predicate Ok()
    {
      && maxl < 95 && time < 95 && npad < 95 && eol < 32 && others < 8 && window < 32 && lenHigh < 95 && lenLow < 95
      && forall i :: 0 <= i < |more| ==> more[i] < 32
    }

    /** Weight 1 says that another capability byte follows. */
    function Capas(): nat
    {
      (if more == [] then 0 else 1) + (if long then 2 else 0) + (if attr then 8 else 0)
      + (if others % 2 == 1 then 4 else 0) + others / 2 * 16
    }

    function Bytes(): (b: seq<byte>)
    {
      [ToChar(maxl), ToChar(time), ToChar(npad), padc, ToChar(eol), qctl, qbin, check, rept, ToChar(Capas())]
      + MoreCapas(more) + [ToChar(window), ToChar(lenHigh), ToChar(lenLow)]
    }
  }

  function MoreCapas(more: seq<nat>): (b: seq<byte>)
    ensures |b| == |more|
  {
    if more == [] then [] else [ToChar(2 * more[0] + if |more| > 1 then 1 else 0)] + MoreCapas(more[1..])
  }

  lemma {:induction false} CapasBits(long: bool, attr: bool, others: nat, more: bool)
    requires others < 8
    ensures var c := (if more then 1 else 0) + (if long then 2 else 0) + (if attr then 8 else 0)
                     + (if others % 2 == 1 then 4 else 0) + others / 2 * 16;
            c < 64 && (Bit(c, 1) <==> more) && (Bit(c, 2) <==> long) && (Bit(c, 8) <==> attr)
  {
  }

  /** In a reply cut at n, the capability bytes end where they say, or at the cut. */
  lemma {:induction false} CapasEnd(head: seq<byte>, more: seq<nat>, tail: seq<byte>, n: nat)
    requires |head| <= n <= |head| + |more| + |tail| && forall i :: 0 <= i < |more| ==> more[i] < 32
    ensures var b := head + MoreCapas(more) + tail;
            more != [] ==> LastCapas(b[..n], |head|) == Min(n, |head| + |more| - 1)
    decreases |more|
  {
    var b := head + MoreCapas(more) + tail;
    if more != [] && n > |head| {
      var v := 2 * more[0] + if |more| > 1 then 1 else 0;
      assert b[..n][|head|] == ToChar(v) && UnChar(ToChar(v)) == v;
      if |more| > 1 {
        assert head + MoreCapas(more) + tail == (head + [ToChar(v)]) + MoreCapas(more[1..]) + tail;
        CapasEnd(head + [ToChar(v)], more[1..], tail, n);
      }
    }
  }

  /** The value of a field that came, or of one that did not. */
  function Came<T>(n: nat, i: nat, value: T, default: T): T { if n > i then value else default }

  lemma {:induction false} Fields(r: Reply, n: nat)
    requires r.Ok() && n <= |r.Bytes()|
    ensures var p := r.Bytes()[..n];
            && Field(p, 0) == Came(n, 0, ToChar(r.maxl), 32) && Field(p, 1) == Came(n, 1, ToChar(r.time), 32)
            && Field(p, 4) == Came(n, 4, ToChar(r.eol), 32) && Field(p, 5) == Came(n, 5, r.qctl, 32)
            && Field(p, 6) == Came(n, 6, r.qbin, 32) && Field(p, 7) == Came(n, 7, r.check, 32)
            && Field(p, 8) == Came(n, 8, r.rept, 32) && (n > 9 ==> p[9] == ToChar(r.Capas()))
  {
    hide ToChar;
  }

  lemma {:induction false} CapasFit(r: Reply)
    requires r.Ok()
    ensures var c := r.Capas(); c < 64 && (Bit(c, 1) <==> r.more != []) && (Bit(c, 2) <==> r.long) && (Bit(c, 8) <==> r.attr)
  {
    CapasBits(r.long, r.attr, r.others, r.more != []);
  }

  lemma {:induction false} NoBits()
    ensures !Bit(0, 2) && !Bit(0, 8)
  {
  }

  lemma {:induction false} Layout(r: Reply) returns (head: seq<byte>, tail: seq<byte>)
    requires r.Ok()
    ensures |head| == 10 && head[9] == ToChar(r.Capas()) && tail == [ToChar(r.window), ToChar(r.lenHigh), ToChar(r.lenLow)]
    ensures r.Bytes() == head + MoreCapas(r.more) + tail
  {
    hide ToChar, MoreCapas, Reply.Capas;
    head := [ToChar(r.maxl), ToChar(r.time), ToChar(r.npad), r.padc, ToChar(r.eol), r.qctl, r.qbin, r.check, r.rept,
             ToChar(r.Capas())];
    tail := [ToChar(r.window), ToChar(r.lenHigh), ToChar(r.lenLow)];
  }

  lemma {:induction false} LongLengthIs(r: Reply, n: nat)
    requires r.Ok() && 9 < n <= |r.Bytes()|
    ensures LongLength(r.Bytes()[..n], LastCapas(r.Bytes()[..n], 9) + 1) ==
            if n == |r.Bytes()| then 95 * r.lenHigh + r.lenLow else 500
  {
    hide Reply.Capas, Reply.Bytes, MoreCapas, ToChar, UnChar, Bit, LastCapas;
    var head, tail := Layout(r);
    var p := r.Bytes()[..n];
    CapasFit(r);
    assert p[9] == head[9];
    UnCharToChar(r.Capas());
    if r.more != [] { CapasEnd(head, r.more, tail, n); }
    LastCapasStops(p, 9 + |r.more|, r.more != []);
    UnCharToChar(r.lenHigh);
    UnCharToChar(r.lenLow);
  }

  lemma {:induction false} LastCapasStops(p: seq<byte>, last: nat, more: bool)
    requires |p| > 9 && (Bit(UnChar(p[9]), 1) <==> more)
    requires more ==> LastCapas(p, 10) == Min(|p|, last)
    requires !more ==> last == 9
    ensures LastCapas(p, 9) == Min(|p|, last)
  {
  }

  /**
   * Every reply, whole or cut anywhere: each field that came is taken as announced, each that
   * did not or that has no sense gets its default.
   */
  lemma {:induction false} NegotiateReads(r: Reply, n: nat)
    requires r.Ok() && n <= |r.Bytes()|
    ensures var p := Negotiate(r.Bytes()[..n]);
            && p.long == (n > 9 && r.long) && p.attr == (n > 9 && r.attr)
            && p.maxl == (if n > 9 && r.long then (if n == |r.Bytes()| then 95 * r.lenHigh + r.lenLow else 500)
                          else if n > 0 && r.maxl > 0 then r.maxl else 80)
            && p.time == (if n > 1 && r.time > 0 then r.time else 10)
            && p.eol == (if n > 4 && r.eol > 0 then r.eol else 13)
            && p.qctl == (if n > 5 && 33 <= r.qctl <= 126 then r.qctl else 0x23)
            && p.qbin == (if n > 6 && (33 <= r.qbin <= 62 || 96 <= r.qbin <= 126) then r.qbin else 0)
            && p.ckType == (if n > 7 && r.check == 0x33 then 3 else 1)
            && p.rept == (if n > 8 && r.rept == 0x7e then 0x7e else 0)
  {
    hide Reply.Bytes, LastCapas, LongLength, Bit, ToChar;
    Fields(r, n);
    CapasFit(r);
    NoBits();
    hide Reply.Capas;
    UnCharToChar(r.maxl);
    UnCharToChar(r.time);
    UnCharToChar(r.eol);
    UnCharToChar(r.Capas());
    if n > 9 { LongLengthIs(r, n); }
    assert UnChar(32) == 0;
    hide UnChar;
  }

  /** What our own end announces. */
  function Ours(seconds: nat): Reply
  {
    Reply(94, seconds, 0, 0x40, 13, 0x23, 0x59, 0x33, 0x7e, true, true, 0, [], 1, 2, 40)
  }

  lemma {:induction false} WeAnnounce(timeoutMs: nat)
    ensures InitParams(timeoutMs) == Ours(TimeSeconds(timeoutMs)).Bytes()
    ensures var t := TimeSeconds(timeoutMs);
            (1 < t ==> (t - 1) * 1000 < timeoutMs) && (t < 94 ==> timeoutMs <= t * 1000)
  {
    assert MoreCapas([]) == [];
  }

  /** A full packet states the length that was agreed: the peer's, or ours if that is shorter. */
  lemma {:induction false} RoomFills(p: Params, n: nat, typ: byte, data: seq<byte>)
    requires (p.ckType == 1 || p.ckType == 3) && |data| == DataRoom(p)
    ensures var f := Build(n, typ, data, p.ckType);
            if !p.long then UnChar(f[1]) == Min(p.maxl, 94)
            else if |data| + 2 + CkLen(p.ckType) <= 94 then UnChar(f[1]) == |data| + 2 + CkLen(p.ckType)
            else UnChar(f[1]) == 0 && 95 * UnChar(f[4]) + UnChar(f[5]) + 5 == Min(p.maxl, 230)
  {
    hide UnChar, DataRoom, Build;
    RoomIs(p);
    StatesLength(n, typ, data, p.ckType);
  }

  lemma {:induction false} StatesLength(n: nat, typ: byte, data: seq<byte>, ck: nat)
    requires |data| + CkLen(ck) < 9000
    ensures var f, lenx := Build(n, typ, data, ck), |data| + CkLen(ck);
            |f| > 5 &&
            if 2 + lenx <= 94 then UnChar(f[1]) == 2 + lenx
            else UnChar(f[1]) == 0 && 95 * UnChar(f[4]) + UnChar(f[5]) == lenx
  {
    hide ToChar, UnChar, Build;
    var lenx := |data| + CkLen(ck);
    HeadOf(n, typ, data, ck);
    UnCharToChar(2 + lenx);
    UnCharToChar(0);
    UnCharToChar(lenx / 95);
    UnCharToChar(lenx % 95);
  }

  lemma {:induction false} RoomIs(p: Params)
    requires (p.ckType == 1 || p.ckType == 3) && DataRoom(p) >= 0
    ensures var used := DataRoom(p) + CkLen(p.ckType);
            if !p.long then used + 2 == Min(p.maxl, 94) else 2 + used <= 94 || used + 5 == Min(p.maxl, 230)
  {
  }

  lemma {:induction false} HeadOf(n: nat, typ: byte, data: seq<byte>, ck: nat)
    ensures var f, lenx := Build(n, typ, data, ck), |data| + CkLen(ck);
            |f| > 5 &&
            if 2 + lenx <= 94 then f[1] == ToChar(2 + lenx)
            else f[1] == ToChar(0) && f[4] == ToChar(lenx / 95) && f[5] == ToChar(lenx % 95)
  {
    hide Check1, BlockCheck, ToChar;
    var f := Build(n, typ, data, ck);
    var h := Header(n, typ, |data|, ck);
    assert f[1] == h[1] && (|h| == 7 ==> f[4] == h[4] && f[5] == h[5]);
  }

  /** Sizes are announced in decimal. */
  lemma {:induction false} DecimalDigits()
    ensures Digits(0) == [48] && Digits(4096) == [52, 48, 57, 54] && AttrData(123) == [0x31, 35, 49, 50, 51]
  {
    assert Digits(4) == [52] && Digits(40) == [52, 48] && Digits(409) == [52, 48, 57];
    assert Digits(1) == [49] && Digits(12) == [49, 50] && Digits(123) == [49, 50, 51];
  }

  /** How much data fits: in a long packet at least ten bytes, else as much as the agreed length leaves beside its check. */
  lemma {:induction false} RoomIsMost(p: Params, k: nat)
    requires p.ckType == 1 || p.ckType == 3
    ensures k <= DataRoom(p) <==>
            if p.long then k <= 10 || (k + p.ckType + 5 <= p.maxl && k + p.ckType + 5 <= 230)
            else k + p.ckType + 2 <= p.maxl && k + p.ckType + 2 <= 94
  {
  }
}
