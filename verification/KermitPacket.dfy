/** Kermit packets: building them, and the resynchronising stream parser. */
module KermitPacket {
  import opened Bytes
  import opened KermitChecks

  const MARK: byte := 0x01
  const EOL: byte := 0x0d
  const MAX_BASIC: nat := 94
  /** The largest LENX the two base-95 digits of a long header can carry printably. */
  const MAX_LENX: nat := 94 * 95 + 94

  // ----- building -------------------------------------------------------------------

  function Header(n: nat, typ: byte, dataLen: nat, ckType: nat): (h: seq<byte>)
    ensures |h| == if 2 + dataLen + CkLen(ckType) <= MAX_BASIC then 4 else 7
    ensures h[0] == MARK && h[2] == ToChar(n % 64) && h[3] == typ
  {
    var bodyLen := 2 + dataLen + CkLen(ckType);
    if bodyLen <= MAX_BASIC then
      [MARK, ToChar(bodyLen), ToChar(n % 64), typ]
    else
      var lenx := dataLen + CkLen(ckType);
      var h := [MARK, ToChar(0), ToChar(n % 64), typ, ToChar(lenx / 95), ToChar(lenx % 95)];
      h + [Check1(h[1..6])]
  }

  /** The packet without its terminator. */
  function Body(n: nat, typ: byte, data: seq<byte>, ckType: nat): (p: seq<byte>)
  {
    var p := Header(n, typ, |data|, ckType) + data;
    p + BlockCheck(ckType, p[1..])
  }

  function Build(n: nat, typ: byte, data: seq<byte>, ckType: nat): (p: seq<byte>)
  {
    Body(n, typ, data, ckType) + [EOL]
  }

  /** The packet by which every Kermit is known: NAK 0 with its checksum "3". */
  lemma {:induction false} ClassicNak()
    ensures Build(0, 78, [], 1) == [1, 35, 32, 78, 51, 13]
  {
    var h := Header(0, 78, 0, 1);
    assert h == [1, 35, 32, 78] && h + [] == h;
    var s: seq<byte> := [35, 32, 78];
    assert h[1..] == s && s[..2] == [35, 32];
    var t: seq<byte> := [35, 32];
    assert t[..1] == [35];
    var u: seq<byte> := [35];
    assert u[..0] == [] && Sum(u) == 35 && Sum(t) == 67 && Sum(s) == 145;
  }

  method BuildHeader(n: nat, typ: byte, dataLen: nat, ckType: nat) returns (p: seq<byte>)
    ensures p == Header(n, typ, dataLen, ckType)
  {
    hide Check1, ToChar;
    var cl := CkLen(ckType);
    p := [MARK];
    var bodyLen := 2 + dataLen + cl;
    if bodyLen <= MAX_BASIC {
      p := p + [ToChar(bodyLen), ToChar(n % 64), typ];
    } else {
      var lenx := dataLen + cl;
      p := p + [ToChar(0), ToChar(n % 64), typ, ToChar(lenx / 95), ToChar(lenx % 95)];
      assert p == [MARK, ToChar(0), ToChar(n % 64), typ, ToChar(lenx / 95), ToChar(lenx % 95)];
      var c := ComputeCheck1(p, 1, 6);
      p := p + [c];
    }
  }

  method BuildPacket(n: nat, typ: byte, data: seq<byte>, ckType: nat) returns (p: seq<byte>)
    ensures p == Build(n, typ, data, ckType)
  {
    hide BlockCheck, Header;
    p := BuildHeader(n, typ, |data|, ckType);
    ghost var head := p;
    var i := 0;
    while i < |data|
      invariant 0 <= i <= |data|
      invariant p == head + data[..i]
    {
      p := p + [data[i]];
      i := i + 1;
    }
    assert p == head + data;
    var ck := ComputeBlockCheck(ckType, p, 1, |p|);
    ghost var body := p;
    var k := 0;
    while k < |ck|
      invariant 0 <= k <= |ck|
      invariant p == body + ck[..k]
    {
      p := p + [ck[k]];
      k := k + 1;
    }
    assert p == body + ck;
    p := p + [EOL];
  }

  // ----- a parsed frame --------------------------------------------------------------

  /** What the parser hands on: the raw frame and the length of its header. */
  datatype RawPkt = Pkt(raw: seq<byte>, hdr: nat) {
    /** The data field, if the block check of the given type is right. */
    function Data(ckType: nat): (d: Option<seq<byte>>)
      requires 4 <= hdr <= |raw|
    {
      var end := |raw| - CkLen(ckType);
      if end < hdr then None
      else if raw[end..] == BlockCheck(ckType, raw[1..end]) then Some(raw[hdr..end])
      else None
    }
  }

  type Pkt = p: RawPkt | 4 <= p.hdr <= |p.raw| witness Pkt([0, 0, 0, 0], 4)

  /** Reads the data field, comparing the check characters one by one. */
  method ReadData(p: Pkt, ckType: nat) returns (d: Option<seq<byte>>)
    ensures d == p.Data(ckType)
  {
    hide BlockCheck;
    var cl := CkLen(ckType);
    var end := |p.raw| - cl;
    if end < p.hdr { return None; }
    var ck := ComputeBlockCheck(ckType, p.raw, 1, end);
    for i := 0 to cl
      invariant forall k :: 0 <= k < i ==> p.raw[end + k] == ck[k]
    {
      if p.raw[end + i] != ck[i] {
        assert p.raw[end..][i] != ck[i];
        return None;
      }
    }
    assert p.raw[end..] == ck;
    return Some(p.raw[p.hdr..end]);
  }

  function SeqOf(p: Pkt): byte { UnChar(p.raw[2]) }

  function TypeOf(p: Pkt): byte { p.raw[3] }

  /** Neither check accepts the frame: it was damaged on the way. */
  predicate Damaged(p: Pkt) { p.Data(1).None? && p.Data(3).None? }

  // ----- parsing -----------------------------------------------------------------------

  function FirstMark(buf: seq<byte>): (m: nat)
    ensures m <= |buf|
    ensures forall k :: 0 <= k < m ==> buf[k] != MARK
    ensures m < |buf| ==> buf[m] == MARK
  {
    if buf == [] || buf[0] == MARK then 0 else 1 + FirstMark(buf[1..])
  }

  /** Index of the first control character in buf[from..to], or `to`. */
  function FirstBad(buf: seq<byte>, from: nat, to: nat): (i: nat)
    requires from <= to <= |buf|
    ensures from <= i <= to
    ensures forall k :: from <= k < i ==> Printable(buf[k])
    ensures i < to ==> !Printable(buf[i])
    decreases |buf| - from
  {
    if from == to || !Printable(buf[from]) then from else FirstBad(buf, from + 1, to)
  }

  datatype Step = Stop(buf: seq<byte>) | Again(buf: seq<byte>) | Emit(pkt: Pkt, buf: seq<byte>)

  /** What follows once the frame's total length is known. */
  function TakeFrame(b: seq<byte>, hdr: nat, total: nat): (s: Step)
    requires 4 <= hdr <= total && 1 <= |b|
    ensures if s.Stop? then s.buf == b else |s.buf| < |b|
  {
    var to := Min(|b|, total);
    var i := FirstBad(b, 1, to);
    if i < to then Again(b[i..])
    else if |b| < total then Stop(b)
    else Emit(Pkt(b[..total], hdr), b[total..])
  }

  /** A long frame: its header has a check of its own. */
  function FromLongMark(b: seq<byte>): (s: Step)
    requires b != []
    ensures if s.Stop? then s.buf == b else |s.buf| < |b|
  {
    var to := Min(|b|, 7);
    var i := FirstBad(b, 1, to);
    if i < to then Again(b[i..])
    else if |b| < 7 then Stop(b)
    else if Check1(b[1..6]) != b[6] then Again(b[1..])
    else TakeFrame(b, 7, 7 + UnChar(b[4]) * 95 + UnChar(b[5]))
  }

  /** One round of the parser's loop on a buffer that starts with MARK. */
  function FromMark(b: seq<byte>): (s: Step)
    requires b != []
    ensures if s.Stop? then s.buf == b else |s.buf| < |b|
  {
    if |b| < 2 then Stop(b)
    else
      var len := UnChar(b[1]);
      if len == 0 then FromLongMark(b)
      else if len < 3 || len > MAX_BASIC then Again(b[1..])
      else TakeFrame(b, 4, 2 + len)
  }

  function ParseStep(buf: seq<byte>): (s: Step)
    ensures !s.Stop? ==> |s.buf| < |buf|
    ensures |s.buf| <= |buf|
  {
    var m := FirstMark(buf);
    if m == |buf| then Stop([])
    else
      var s := FromMark(buf[m..]);
      s
  }

  datatype Parsed = Parsed(pkts: seq<Pkt>, rest: seq<byte>)

  function Parse(buf: seq<byte>): (r: Parsed)
    ensures |r.rest| <= |buf|
    decreases |buf|
  {
    match ParseStep(buf)
    case Stop(b) => Parsed([], b)
    case Again(b) => Parse(b)
    case Emit(p, b) => var r := Parse(b); Parsed([p] + r.pkts, r.rest)
  }

  /** The parser object: bytes in, frames out, what is incomplete stays buffered. */
  class Parser {
    var buf: seq<byte>

    constructor ()
      ensures buf == []
    {
      buf := [];
    }

    method Clear()
      modifies this
      ensures buf == []
    {
      buf := [];
    }

    method Drop(n: nat)
      requires n <= |buf|
      modifies this
      ensures buf == old(buf)[n..]
    {
      buf := buf[n..];
    }

    /** A control character inside a frame means it was cut: drop up to it. */
    method BadRange(from: nat, to: nat) returns (bad: bool)
      requires from <= to <= |buf|
      modifies this
      ensures bad == (FirstBad(old(buf), from, to) < to)
      ensures buf == if bad then old(buf)[FirstBad(old(buf), from, to)..] else old(buf)
    {
      var i := from;
      while i < to
        invariant from <= i <= to && buf == old(buf)
        invariant FirstBad(buf, i, to) == FirstBad(buf, from, to)
      {
        if buf[i] < 32 || buf[i] == 127 {
          Drop(i);
          return true;
        }
        i := i + 1;
      }
      return false;
    }

    /** The end of a round, once the frame's length is known. */
    method Take(hdr: nat, total: nat) returns (more: bool, out: seq<Pkt>)
      requires 4 <= hdr <= total && 1 <= |buf|
      modifies this
      ensures match TakeFrame(old(buf), hdr, total)
              case Stop(b) => !more && out == [] && buf == b
              case Again(b) => more && out == [] && buf == b
              case Emit(p, b) => more && out == [p] && buf == b
    {
      out := [];
      if |buf| < total {
        more := BadRange(1, |buf|);
        return;
      }
      more := BadRange(1, total);
      if more { return; }
      var raw := buf[..total];
      Drop(total);
      return true, [Pkt(raw, hdr)];
    }

    /** A round on a buffer that starts with a long header. */
    method RoundLong() returns (more: bool, out: seq<Pkt>)
      requires buf != []
      modifies this
      ensures match FromLongMark(old(buf))
              case Stop(b) => !more && out == [] && buf == b
              case Again(b) => more && out == [] && buf == b
              case Emit(p, b) => more && out == [p] && buf == b
    {
      hide FirstBad, Check1, UnChar, TakeFrame;
      out := [];
      if |buf| < 7 {
        more := BadRange(1, |buf|);
        return;
      }
      more := BadRange(1, 7);
      if more { return; }
      var c := ComputeCheck1(buf, 1, 6);
      if c != buf[6] {
        Drop(1);
        return true, [];
      }
      more, out := Take(7, 7 + UnChar(buf[4]) * 95 + UnChar(buf[5]));
    }

    /** A round on a buffer that starts with MARK. */
    method RoundFromMark() returns (more: bool, out: seq<Pkt>)
      requires buf != []
      modifies this
      ensures match FromMark(old(buf))
              case Stop(b) => !more && out == [] && buf == b
              case Again(b) => more && out == [] && buf == b
              case Emit(p, b) => more && out == [p] && buf == b
    {
      hide UnChar, TakeFrame, FromLongMark;
      if |buf| < 2 { return false, []; }
      var len := UnChar(buf[1]);
      if len == 0 {
        more, out := RoundLong();
      } else if len < 3 || len > MAX_BASIC {
        Drop(1);
        return true, [];
      } else {
        more, out := Take(4, 2 + len);
      }
    }

    /** One round of the loop; `more` says whether there is another. */
    method Round() returns (more: bool, out: seq<Pkt>)
      modifies this
      ensures match ParseStep(old(buf))
              case Stop(b) => !more && out == [] && buf == b
              case Again(b) => more && out == [] && buf == b
              case Emit(p, b) => more && out == [p] && buf == b
    {
      hide FromMark, FirstMark;
      var m := FirstMark(buf);
      if m == |buf| {
        Clear();
        return false, [];
      }
      Drop(m);
      more, out := RoundFromMark();
    }

    method Feed(bytes: seq<byte>) returns (out: seq<Pkt>)
      modifies this
      ensures Parsed(out, buf) == Parse(old(buf) + bytes)
    {
      hide ParseStep;
      buf := buf + bytes;
      out := [];
      ghost var all := Parse(buf);
      var more := true;
      while more
        invariant all == if more then Parsed(out + Parse(buf).pkts, Parse(buf).rest) else Parsed(out, buf)
        decreases more, |buf|
      {
        ghost var before := buf;
        var pkts;
        more, pkts := Round();
        assert Parse(before).pkts == if more then pkts + Parse(buf).pkts else [];
        out := out + pkts;
      }
    }
  }

  // ----- the split into chunks does not matter ----------------------------------------

  /** Nothing more can be taken from this buffer: the state between two feeds. */
  predicate Stable(buf: seq<byte>) { Parse(buf) == Parsed([], buf) }

  lemma {:induction false} FirstMarkUnique(buf: seq<byte>, m: nat)
    requires m <= |buf| && (forall k :: 0 <= k < m ==> buf[k] != MARK) && (m < |buf| ==> buf[m] == MARK)
    ensures FirstMark(buf) == m
  {
  }

  lemma {:induction false} FirstBadUnique(buf: seq<byte>, from: nat, to: nat, i: nat)
    requires from <= i <= to <= |buf| && (i < to ==> !Printable(buf[i]))
    requires forall k :: from <= k < i ==> Printable(buf[k])
    ensures FirstBad(buf, from, to) == i
  {
  }

  lemma {:induction false} FirstMarkAppend(a: seq<byte>, b: seq<byte>)
    ensures FirstMark(a) < |a| ==> FirstMark(a + b) == FirstMark(a)
    ensures FirstMark(a) == |a| ==> FirstMark(a + b) == |a| + FirstMark(b)
  {
    FirstMarkUnique(a + b, if FirstMark(a) < |a| then FirstMark(a) else |a| + FirstMark(b));
  }

  /** The first control character is the same in every longer buffer and longer range. */
  lemma {:induction false} FirstBadAppend(a: seq<byte>, b: seq<byte>, to: nat, to': nat)
    requires 1 <= to <= |a| && to <= to' <= |a + b|
    requires FirstBad(a, 1, to) < to
    ensures FirstBad(a + b, 1, to') == FirstBad(a, 1, to)
  {
    FirstBadUnique(a + b, 1, to', FirstBad(a, 1, to));
  }

  lemma {:induction false} FirstBadSame(a: seq<byte>, b: seq<byte>, to: nat)
    requires 1 <= to <= |a|
    ensures FirstBad(a + b, 1, to) == FirstBad(a, 1, to)
  {
    FirstBadUnique(a + b, 1, to, FirstBad(a, 1, to));
  }

  lemma {:induction false} TakeFrameAppend(a: seq<byte>, b: seq<byte>, hdr: nat, total: nat)
    requires 4 <= hdr <= total && 1 <= |a|
    ensures var s := TakeFrame(a, hdr, total);
            && (s.Again? ==> TakeFrame(a + b, hdr, total) == Again(s.buf + b))
            && (s.Emit? ==> TakeFrame(a + b, hdr, total) == Emit(s.pkt, s.buf + b))
  {
    hide FirstBad;
    var to, to' := Min(|a|, total), Min(|a + b|, total);
    var i := FirstBad(a, 1, to);
    if i < to {
      FirstBadAppend(a, b, to, to');
      assert (a + b)[i..] == a[i..] + b;
    } else if |a| >= total {
      FirstBadSame(a, b, total);
      assert (a + b)[..total] == a[..total];
      assert (a + b)[total..] == a[total..] + b;
    }
  }

  lemma {:induction false} FromLongMarkAppend(a: seq<byte>, b: seq<byte>)
    requires a != []
    ensures var s := FromLongMark(a);
            && (s.Again? ==> FromLongMark(a + b) == Again(s.buf + b))
            && (s.Emit? ==> FromLongMark(a + b) == Emit(s.pkt, s.buf + b))
  {
    hide TakeFrame, Check1, FirstBad;
    var c := a + b;
    assert c[1..] == a[1..] + b;
    var to, to' := Min(|a|, 7), Min(|c|, 7);
    var i := FirstBad(a, 1, to);
    if i < to {
      FirstBadAppend(a, b, to, to');
      assert c[i..] == a[i..] + b;
    } else if |a| >= 7 {
      FirstBadSame(a, b, 7);
      assert c[1..6] == a[1..6] && c[6] == a[6] && c[4] == a[4] && c[5] == a[5];
      if Check1(a[1..6]) == a[6] {
        TakeFrameAppend(a, b, 7, 7 + UnChar(a[4]) * 95 + UnChar(a[5]));
      }
    }
  }

  lemma {:induction false} FromMarkAppend(a: seq<byte>, b: seq<byte>)
    requires a != []
    ensures var s := FromMark(a);
            && (s.Again? ==> FromMark(a + b) == Again(s.buf + b))
            && (s.Emit? ==> FromMark(a + b) == Emit(s.pkt, s.buf + b))
  {
    hide TakeFrame, FromLongMark;
    if |a| < 2 { return; }
    var c := a + b;
    var len := UnChar(a[1]);
    assert c[1] == a[1];
    assert c[1..] == a[1..] + b;
    if len == 0 {
      FromLongMarkAppend(a, b);
    } else if 3 <= len <= MAX_BASIC {
      TakeFrameAppend(a, b, 4, 2 + len);
    }
  }

  lemma {:induction false} StepFromMark(a: seq<byte>, b: seq<byte>)
    requires FirstMark(a) < |a|
    ensures ParseStep(a + b) == FromMark(a[FirstMark(a)..] + b) == ParseStep(a[FirstMark(a)..] + b)
  {
    hide FromMark, FirstMark;
    var m := FirstMark(a);
    FirstMarkAppend(a, b);
    assert (a + b)[m..] == a[m..] + b;
    FirstMarkUnique(a[m..] + b, 0);
    assert (a[m..] + b)[0..] == a[m..] + b;
  }

  lemma {:induction false} ParseStepAt(buf: seq<byte>, m: nat, t: seq<byte>)
    requires FirstMark(buf) == m && m <= |buf| && t == buf[m..]
    ensures ParseStep(buf) == if t == [] then Stop([]) else FromMark(t)
  {
    hide FromMark, FirstMark;
  }

  lemma {:induction false} StepNoMark(a: seq<byte>, b: seq<byte>)
    requires FirstMark(a) == |a|
    ensures ParseStep(a) == Stop([]) && ParseStep(a + b) == ParseStep(b)
  {
    hide FromMark, FirstMark, ParseStep;
    ParseStepAt(a, |a|, []);
    FirstMarkAppend(a, b);
    var m := FirstMark(b);
    SliceOfSum(a, b, m);
    ParseStepAt(a + b, |a| + m, b[m..]);
    ParseStepAt(b, m, b[m..]);
  }

  lemma {:induction false} SliceOfSum(a: seq<byte>, b: seq<byte>, m: nat)
    requires m <= |b|
    ensures (a + b)[|a| + m..] == b[m..]
  {
  }

  /** A round takes the same decision when more bytes are already there. */
  lemma {:induction false} StepAppend(a: seq<byte>, b: seq<byte>)
    ensures match ParseStep(a)
            case Stop(s) => ParseStep(a + b) == ParseStep(s + b)
            case Again(s) => ParseStep(a + b) == Again(s + b)
            case Emit(p, s) => ParseStep(a + b) == Emit(p, s + b)
  {
    hide FromMark, FirstMark;
    if FirstMark(a) == |a| {
      StepNoMark(a, b);
      assert [] + b == b;
    } else {
      StepFromMark(a, b);
      FromMarkAppend(a[FirstMark(a)..], b);
    }
  }

  /** Parsing in two goes equals parsing the concatenation. */
  lemma {:induction false} ParseAppend(a: seq<byte>, b: seq<byte>)
    ensures Parse(a + b) ==
            var first := Parse(a);
            var second := Parse(first.rest + b);
            Parsed(first.pkts + second.pkts, second.rest)
    decreases |a|
  {
    hide ParseStep;
    StepAppend(a, b);
    match ParseStep(a)
    case Stop(s) =>
      assert Parse(a + b) == Parse(s + b);
      assert [] + Parse(s + b).pkts == Parse(s + b).pkts;
    case Again(s) =>
      ParseAppend(s, b);
    case Emit(p, s) =>
      ParseAppend(s, b);
      assert [p] + (Parse(s).pkts + Parse(Parse(s).rest + b).pkts) == ([p] + Parse(s).pkts) + Parse(Parse(s).rest + b).pkts;
  }

  lemma {:induction false} RestIsStable(a: seq<byte>)
    ensures Stable(Parse(a).rest)
    decreases |a|
  {
    match ParseStep(a)
    case Stop(s) =>
      if s != [] {
        assert s == a[FirstMark(a)..] && FirstMark(s) == 0 && s[0..] == s;
        assert FromMark(s) == Stop(s);
      }
    case Again(s) => RestIsStable(s);
    case Emit(p, s) => RestIsStable(s);
  }

  function Flatten(chunks: seq<seq<byte>>): seq<byte>
  {
    if chunks == [] then [] else chunks[0] + Flatten(chunks[1..])
  }

  /** Feeding a list of chunks one after the other. */
  function FeedAll(buf: seq<byte>, chunks: seq<seq<byte>>): Parsed
    decreases |chunks|
  {
    if chunks == [] then Parsed([], buf)
    else
      var first := Parse(buf + chunks[0]);
      var others := FeedAll(first.rest, chunks[1..]);
      Parsed(first.pkts + others.pkts, others.rest)
  }

  lemma {:induction false} FeedAllIsParse(buf: seq<byte>, chunks: seq<seq<byte>>)
    requires Stable(buf)
    ensures FeedAll(buf, chunks) == Parse(buf + Flatten(chunks))
    decreases |chunks|
  {
    hide ParseStep;
    if chunks == [] {
      assert buf + [] == buf;
    } else {
      var first := Parse(buf + chunks[0]);
      RestIsStable(buf + chunks[0]);
      FeedAllIsParse(first.rest, chunks[1..]);
      ParseAppend(buf + chunks[0], Flatten(chunks[1..]));
      assert buf + Flatten(chunks) == (buf + chunks[0]) + Flatten(chunks[1..]);
    }
  }

  /** However a byte stream is cut up, the same frames come out and the same bytes stay. */
  lemma {:induction false} ChunkingDoesNotMatter(buf: seq<byte>, xs: seq<seq<byte>>, ys: seq<seq<byte>>)
    requires Stable(buf) && Flatten(xs) == Flatten(ys)
    ensures FeedAll(buf, xs) == FeedAll(buf, ys)
    ensures Stable(FeedAll(buf, xs).rest)
  {
    FeedAllIsParse(buf, xs);
    FeedAllIsParse(buf, ys);
    RestIsStable(buf + Flatten(xs));
  }

  // ----- resynchronisation --------------------------------------------------------------

  /** What `Build` is called with: printable type and data that a long header can count. */
  predicate Sendable(typ: byte, data: seq<byte>, ckType: nat)
  {
    Printable(typ) && AllPrintable(data) && |data| + CkLen(ckType) <= MAX_LENX
  }

  function Built(n: nat, typ: byte, data: seq<byte>, ckType: nat): (p: Pkt)
  {
    Pkt(Body(n, typ, data, ckType), |Header(n, typ, |data|, ckType)|)
  }

  lemma {:induction false} ToCharPrintable(x: nat)
    requires x <= 94
    ensures Printable(ToChar(x))
  {
  }

  lemma {:induction false} HeaderPrintable(n: nat, typ: byte, dataLen: nat, ckType: nat)
    requires Printable(typ) && dataLen + CkLen(ckType) <= MAX_LENX
    ensures AllPrintable(Header(n, typ, dataLen, ckType)[1..])
  {
    hide ToChar, Check1;
    var lenx := dataLen + CkLen(ckType);
    ToCharPrintable(n % 64);
    if 2 + lenx <= MAX_BASIC {
      ToCharPrintable(2 + lenx);
    } else {
      assert lenx / 95 <= 94 && lenx % 95 <= 94;
      ToCharPrintable(0);
      ToCharPrintable(lenx / 95);
      ToCharPrintable(lenx % 95);
    }
  }

  lemma {:induction false} AllPrintableAppend(s: seq<byte>, t: seq<byte>)
    requires AllPrintable(s) && AllPrintable(t)
    ensures AllPrintable(s + t)
  {
  }

  lemma {:induction false} BodyPrintable(n: nat, typ: byte, data: seq<byte>, ckType: nat)
    requires Sendable(typ, data, ckType)
    ensures AllPrintable(Body(n, typ, data, ckType)[1..])
  {
    hide BlockCheck, Header, AllPrintable;
    HeaderPrintable(n, typ, |data|, ckType);
    var h := Header(n, typ, |data|, ckType);
    var p := h + data;
    var ck := BlockCheck(ckType, p[1..]);
    AllPrintableAppend(h[1..], data);
    assert p[1..] == h[1..] + data;
    AllPrintableAppend(p[1..], ck);
    assert (p + ck)[1..] == p[1..] + ck;
  }

  /** LENX in base 95. */
  lemma {:induction false} LenxDigits(lenx: nat)
    requires lenx <= MAX_LENX
    ensures lenx / 95 <= 94
    ensures UnChar(ToChar(lenx / 95)) * 95 + UnChar(ToChar(lenx % 95)) == lenx
  {
    UnCharToChar(lenx / 95);
    UnCharToChar(lenx % 95);
  }

  /** The header's length field gives the frame's length back. */
  lemma {:induction false} HeaderCounts(n: nat, typ: byte, data: seq<byte>, ckType: nat)
    requires Sendable(typ, data, ckType)
    ensures var h, total := Header(n, typ, |data|, ckType), |Body(n, typ, data, ckType)|;
            if |h| == 4 then 3 <= UnChar(h[1]) <= MAX_BASIC && total == 2 + UnChar(h[1])
            else |h| == 7 && UnChar(h[1]) == 0 && Check1(h[1..6]) == h[6]
                 && total == 7 + UnChar(h[4]) * 95 + UnChar(h[5])
  {
    hide Check1, ToChar, UnChar;
    var lenx := |data| + CkLen(ckType);
    if 2 + lenx <= MAX_BASIC {
      UnCharToChar(2 + lenx);
    } else {
      LenxDigits(lenx);
      UnCharToChar(0);
      var h := [MARK, ToChar(0), ToChar(n % 64), typ, ToChar(lenx / 95), ToChar(lenx % 95)];
      assert Header(n, typ, |data|, ckType) == h + [Check1(h[1..6])];
      assert (h + [Check1(h[1..6])])[1..6] == h[1..6];
    }
  }

  /** A buffer that starts with a complete frame: the frame is taken whole. */
  lemma {:induction false} WholeFrame(f: seq<byte>, hdr: nat, total: nat)
    requires 5 <= total <= |f| && f[0] == MARK && AllPrintable(f[1..total])
    requires hdr == 4 || hdr == 7
    requires hdr == 4 ==> 3 <= UnChar(f[1]) <= MAX_BASIC && total == 2 + UnChar(f[1])
    requires hdr == 7 ==> 7 <= total && UnChar(f[1]) == 0 && Check1(f[1..6]) == f[6]
    requires hdr == 7 ==> total == 7 + UnChar(f[4]) * 95 + UnChar(f[5])
    ensures ParseStep(f) == Emit(Pkt(f[..total], hdr), f[total..])
  {
    hide Check1;
    FirstMarkUnique(f, 0);
    assert f[0..] == f;
    assert forall k :: 1 <= k < total ==> f[k] == f[1..total][k - 1];
    FirstBadUnique(f, 1, total, total);
    if hdr == 7 { FirstBadUnique(f, 1, 7, 7); }
    assert FromMark(f) == TakeFrame(f, hdr, total);
  }

  /** A frame on an empty buffer is taken whole. */
  lemma {:induction false} FreshFrame(n: nat, typ: byte, data: seq<byte>, ckType: nat)
    requires Sendable(typ, data, ckType)
    ensures Parse(Build(n, typ, data, ckType)) == Parsed([Built(n, typ, data, ckType)], [])
  {
    hide Check1, FromMark, BlockCheck;
    var h := Header(n, typ, |data|, ckType);
    var body := Body(n, typ, data, ckType);
    var f := body + [EOL];
    BodyPrintable(n, typ, data, ckType);
    HeaderCounts(n, typ, data, ckType);
    assert f[..|body|] == body && f[|body|..] == [EOL] && f[1..|body|] == body[1..];
    assert forall k :: 0 <= k < |h| ==> f[k] == h[k];
    if |h| == 7 { assert f[1..6] == h[1..6]; }
    WholeFrame(f, |h|, |body|);
    FirstMarkUnique([EOL], 1);
    assert Parse([EOL]) == Parsed([], []);
  }

  /** The state between feeds is empty, or a MARK the loop stopped at. */
  lemma {:induction false} StableMeansStopped(buf: seq<byte>)
    requires Stable(buf) && buf != []
    ensures buf[0] == MARK && FromMark(buf) == Stop(buf)
  {
    match ParseStep(buf)
    case Stop(s) =>
      assert s == buf;
      assert FirstMark(buf) == 0 && buf[0..] == buf;
    case Again(s) => assert false;
    case Emit(p, s) => assert false;
  }

  /** A stopped buffer holds no control character after its MARK. */
  lemma {:induction false} StoppedMeansPrintable(buf: seq<byte>)
    requires |buf| >= 2 && FromMark(buf) == Stop(buf)
    ensures forall k :: 1 <= k < |buf| ==> Printable(buf[k])
  {
  }

  /** An incomplete frame followed by the MARK of another one. */
  lemma {:induction false} TakeFrameDropped(buf: seq<byte>, f: seq<byte>, hdr: nat, total: nat)
    requires 1 <= |buf| < total && 4 <= hdr <= total && f != [] && f[0] == MARK
    requires forall k :: 1 <= k < |buf| ==> Printable(buf[k])
    ensures TakeFrame(buf + f, hdr, total) == Again(f)
  {
    var c := buf + f;
    assert c[|buf|] == MARK && c[|buf|..] == f;
    FirstBadUnique(c, 1, Min(|c|, total), |buf|);
  }

  lemma {:induction false} CutLongFrameIsDropped(buf: seq<byte>, f: seq<byte>)
    requires |buf| >= 2 && FromLongMark(buf) == Stop(buf) && |f| >= 5 && f[0] == MARK
    requires forall k :: 1 <= k < |buf| ==> Printable(buf[k])
    ensures FromLongMark(buf + f) == Again(f)
  {
    hide Check1, UnChar;
    var c := buf + f;
    assert c[|buf|] == MARK && c[|buf|..] == f;
    if |buf| < 7 {
      FirstBadUnique(c, 1, 7, |buf|);
    } else {
      FirstBadUnique(buf, 1, 7, 7);
      FirstBadUnique(c, 1, 7, 7);
      assert c[1..6] == buf[1..6] && c[4] == buf[4] && c[5] == buf[5] && c[6] == buf[6];
      TakeFrameDropped(buf, f, 7, 7 + UnChar(buf[4]) * 95 + UnChar(buf[5]));
    }
  }

  lemma {:induction false} CutFrameIsDropped(buf: seq<byte>, f: seq<byte>)
    requires |buf| >= 2 && FromMark(buf) == Stop(buf) && |f| >= 5 && f[0] == MARK
    ensures FromMark(buf + f) == Again(f)
  {
    hide FromLongMark, UnChar;
    StoppedMeansPrintable(buf);
    assert (buf + f)[1] == buf[1];
    if UnChar(buf[1]) == 0 {
      CutLongFrameIsDropped(buf, f);
    } else {
      TakeFrameDropped(buf, f, 4, 2 + UnChar(buf[1]));
    }
  }

  /** From any state between feeds, the start of a frame discards what was buffered. */
  lemma {:induction false} StableBufferIsDropped(buf: seq<byte>, f: seq<byte>)
    requires Stable(buf) && |f| >= 5 && f[0] == MARK
    ensures Parse(buf + f) == Parse(f)
  {
    if buf == [] {
      assert buf + f == f;
      return;
    }
    StableMeansStopped(buf);
    var c := buf + f;
    FirstMarkUnique(c, 0);
    assert c[0..] == c;
    if |buf| == 1 {
      assert c[1] == MARK && UnChar(MARK) > MAX_BASIC && c[1..] == f;
      assert FromMark(c) == Again(f);
    } else {
      CutFrameIsDropped(buf, f);
    }
  }

  /**
   * Resynchronisation: whatever junk or truncated frame the parser holds, a whole frame
   * that arrives is emitted, alone, and leaves the buffer empty.
   */
  lemma {:induction false} Resynchronises(buf: seq<byte>, n: nat, typ: byte, data: seq<byte>, ckType: nat)
    requires Stable(buf) && Sendable(typ, data, ckType)
    ensures Parse(buf + Build(n, typ, data, ckType)) == Parsed([Built(n, typ, data, ckType)], [])
  {
    StableBufferIsDropped(buf, Build(n, typ, data, ckType));
    FreshFrame(n, typ, data, ckType);
  }

  /** The emitted frame carries what went in, and its own check type accepts it. */
  lemma {:induction false} BuiltCarries(n: nat, typ: byte, data: seq<byte>, ckType: nat)
    ensures SeqOf(Built(n, typ, data, ckType)) == n % 64
    ensures TypeOf(Built(n, typ, data, ckType)) == typ
    ensures Built(n, typ, data, ckType).Data(ckType) == Some(data)
  {
    hide BlockCheck, Header;
    var h := Header(n, typ, |data|, ckType);
    var body := Body(n, typ, data, ckType);
    var end := |h + data|;
    assert body[..end] == h + data && body[1..end] == (h + data)[1..];
    assert body[end..] == BlockCheck(ckType, (h + data)[1..]);
    assert body[|h|..end] == data;
    UnCharToChar(n % 64);
  }
}
