/** What clamping does to segments built from their fields: which are clamped, and how. */
module ClampBuilt {
  import opened Bytes
  import opened IpPacket
  import opened ClampMss

  /** A TCP option: the one-byte filler, or a kind with its data. */
  datatype Opt = Nop | Kind(kind: byte, data: seq<byte>)

  predicate OptOk(o: Opt) { o.Kind? ==> 2 <= o.kind && |o.data| <= 253 }

  predicate OptsOk(os: seq<Opt>) { forall i :: 0 <= i < |os| ==> OptOk(os[i]) }

  function OptBytes(o: Opt): (b: seq<byte>)
    requires OptOk(o)
  {
    match o
    case Nop => [1]
    case Kind(kind, data) => [kind, 2 + |data|] + data
  }

  function AllBytes(os: seq<Opt>): (b: seq<byte>)
    requires OptsOk(os)
  {
    if os == [] then [] else OptBytes(os[0]) + AllBytes(os[1..])
  }

  predicate IsMss(o: Opt) { o.Kind? && o.kind == 2 && |o.data| == 2 }

  /** The options as they should come out: the first MSS option is lowered to max if it is above. */
  function Lowered(os: seq<Opt>, max: nat): (r: seq<Opt>)
    requires OptsOk(os) && max < 65536
    ensures OptsOk(r) && |r| == |os|
  {
    if os == [] then []
    else if !IsMss(os[0]) then [os[0]] + Lowered(os[1..], max)
    else if Word(os[0].data, 0) > max then [Kind(2, Bytes2(max))] + os[1..]
    else os
  }

  /** FIN, SYN, and the six flags above them. */
  function FlagByte(fin: bool, syn: bool, others: nat): (r: byte)
    requires others < 64
  {
    4 * others + (if syn then 2 else 0) + if fin then 1 else 0
  }

  /** An IPv4 packet with a TCP segment, field by field. `pad` is what follows an end-of-options byte. */
  datatype Segment = Segment(
    tos: byte, id: nat, ipFlags: nat, frag: nat, ttl: byte, ipCheck: nat, src: Addr, dst: Addr, ipOptions: seq<byte>,
    ports: seq<byte>, numbers: seq<byte>, reserved: nat, fin: bool, syn: bool, flags: nat, window: nat, check: nat, urgent: nat,
    opts: seq<Opt>, pad: seq<byte>, data: seq<byte>)
  {
    predicate Ok()
    {
      && id < 65536 && ipFlags < 8 && frag < 8192 && ipCheck < 65536 && |ipOptions| % 4 == 0 && |ipOptions| <= 40
      && |ports| == 4 && |numbers| == 8 && reserved < 16 && flags < 64 && window < 65536 && check < 65536 && urgent < 65536
      && OptsOk(opts) && (pad != [] ==> pad[0] == 0) && OptLen() % 4 == 0 && OptLen() <= 40 && Total() < 65536
    }

    function OptLen(): nat
      requires OptsOk(opts)
    {
      |AllBytes(opts)| + |pad|
    }

    function Total(): nat
      requires OptsOk(opts)
    {
      20 + |ipOptions| + 20 + OptLen() + |data|
    }

    function IpHead(): (h: seq<byte>)
      requires Ok()
      ensures |h| == 20
    {
      [0x40 + 5 + |ipOptions| / 4, tos, Total() / 256, Total() % 256, id / 256, id % 256,
       (ipFlags * 8192 + frag) / 256, frag % 256, ttl, 6, ipCheck / 256, ipCheck % 256] + src + dst
    }

    function TcpHead(): (h: seq<byte>)
      requires Ok()
      ensures |h| == 20
    {
      ports + numbers + [(5 + OptLen() / 4) * 16 + reserved, FlagByte(fin, syn, flags), window / 256, window % 256,
                         check / 256, check % 256, urgent / 256, urgent % 256]
    }

    function Bytes(): (p: seq<byte>)
      requires Ok()
    {
      IpHead() + ipOptions + TcpHead() + AllBytes(opts) + pad + data
    }
  }

  /** Where the first MSS option starts. */
  function FirstMss(os: seq<Opt>): (r: Option<nat>)
    requires OptsOk(os)
    ensures r.Some? ==> r.value + 4 <= |AllBytes(os)|
  {
    if os == [] then None
    else if IsMss(os[0]) then Some(0)
    else
      match FirstMss(os[1..])
      case None => None
      case Some(k) => Some(|OptBytes(os[0])| + k)
  }

  lemma {:induction false} ScanOne(pre: seq<byte>, o: Opt, rest: seq<byte>)
    requires OptOk(o)
    ensures FindMss(pre + OptBytes(o) + rest, |pre|) ==
            if IsMss(o) then Some(|pre|) else FindMss(pre + OptBytes(o) + rest, |pre| + |OptBytes(o)|)
  {
    var b := pre + OptBytes(o) + rest;
    assert b[|pre|] == OptBytes(o)[0];
    if o.Kind? { assert b[|pre| + 1] == OptBytes(o)[1]; }
  }

  /** The scan finds the first MSS option among any others. */
  lemma {:induction false} ScanFinds(pre: seq<byte>, os: seq<Opt>, pad: seq<byte>)
    requires OptsOk(os) && (pad != [] ==> pad[0] == 0)
    ensures FindMss(pre + AllBytes(os) + pad, |pre|) ==
            if FirstMss(os).None? then None else Some(|pre| + FirstMss(os).value)
    decreases |os|
  {
    hide OptBytes, FindMss;
    if os == [] {
      ScanEnds(pre, pad);
      assert pre + [] + pad == pre + pad;
    } else {
      var b, rest := OptBytes(os[0]), AllBytes(os[1..]);
      Regroup(pre, b, rest, pad);
      ScanOne(pre, os[0], rest + pad);
      ScanFinds(pre + b, os[1..], pad);
    }
  }

  lemma {:induction false} Regroup(a: seq<byte>, b: seq<byte>, c: seq<byte>, d: seq<byte>)
    ensures a + (b + c) + d == a + b + (c + d) == (a + b) + c + d
  {
  }

  lemma {:induction false} ScanEnds(pre: seq<byte>, pad: seq<byte>)
    requires pad != [] ==> pad[0] == 0
    ensures FindMss(pre + pad, |pre|) == None
  {
    if pad != [] { assert (pre + pad)[|pre|] == pad[0]; }
  }

  lemma {:induction false} PutInside(a: seq<byte>, b: seq<byte>, c: seq<byte>, i: nat, w: nat)
    requires i + 1 < |b| && w < 65536
    ensures PutWord(a + b + c, |a| + i, w) == a + PutWord(b, i, w) + c
    ensures Word(a + b + c, |a| + i) == Word(b, i)
  {
  }

  /** The word at the first MSS option's value is the option's. */
  predicate LoweredAt(os: seq<Opt>, max: nat)
    requires OptsOk(os) && max < 65536
  {
    match FirstMss(os)
    case None => Lowered(os, max) == os
    case Some(k) =>
      if Word(AllBytes(os), k + 2) > max then AllBytes(Lowered(os, max)) == PutWord(AllBytes(os), k + 2, max)
      else Lowered(os, max) == os
  }

  lemma {:induction false} LoweredHere(os: seq<Opt>, max: nat)
    requires OptsOk(os) && max < 65536 && os != [] && IsMss(os[0])
    ensures LoweredAt(os, max)
  {
    var o, b, rest := os[0], OptBytes(os[0]), AllBytes(os[1..]);
    PutInside([], b, rest, 2, max);
    assert [] + b + rest == b + rest && [] + PutWord(b, 2, max) + rest == PutWord(b, 2, max) + rest;
    assert PutWord(b, 2, max) == OptBytes(Kind(2, Bytes2(max)));
    assert b[2..] == o.data && Word(b, 2) == Word(o.data, 0);
    hide PutWord, Word;
    assert ([Kind(2, Bytes2(max))] + os[1..])[1..] == os[1..];
  }

  lemma {:induction false} LoweredLater(os: seq<Opt>, max: nat)
    requires OptsOk(os) && max < 65536 && os != [] && !IsMss(os[0]) && LoweredAt(os[1..], max)
    ensures LoweredAt(os, max)
  {
    hide PutWord, Word, OptBytes, IsMss;
    var o, b, rest := os[0], OptBytes(os[0]), AllBytes(os[1..]);
    var k := FirstMss(os[1..]);
    if k.Some? {
      PutInside(b, rest, [], k.value + 2, max);
      assert b + rest + [] == b + rest && b + PutWord(rest, k.value + 2, max) + [] == b + PutWord(rest, k.value + 2, max);
    }
    assert ([o] + Lowered(os[1..], max))[1..] == Lowered(os[1..], max);
    assert [o] + os[1..] == os;
  }

  /** Lowering the option is writing its value over. */
  lemma {:induction false} LoweredBytes(os: seq<Opt>, max: nat)
    requires OptsOk(os) && max < 65536
    ensures LoweredAt(os, max)
    decreases |os|
  {
    hide LoweredAt;
    if os == [] {
      assert LoweredAt([], max) by { NothingLowered(max); }
    } else if IsMss(os[0]) {
      LoweredHere(os, max);
    } else {
      LoweredBytes(os[1..], max);
      LoweredLater(os, max);
    }
  }

  lemma {:induction false} NothingLowered(max: nat)
    requires max < 65536
    ensures LoweredAt([], max)
  {
  }

  // ----- the built packet ---------------------------------------------------------------------------

  lemma {:induction false} HeadBytes(s: Segment, k: nat)
    requires s.Ok() && k < 20
    ensures var p, t := s.Bytes(), 20 + |s.ipOptions|;
            |p| == s.Total() && p[k] == s.IpHead()[k] && p[t + k] == s.TcpHead()[k]
  {
    hide Segment.IpHead, Segment.TcpHead, AllBytes;
    var a, b := s.IpHead() + s.ipOptions, AllBytes(s.opts) + s.pad + s.data;
    assert s.Bytes() == a + s.TcpHead() + b;
  }

  lemma {:induction false} SynBit(fin: bool, syn: bool, others: nat)
    requires others < 64
    ensures FlagByte(fin, syn, others) / 2 % 2 == 1 <==> syn
  {
  }

  lemma {:induction false} IpBytes(s: Segment)
    requires s.Ok()
    ensures var p := s.Bytes();
            && |p| == s.Total() && p[0] == 0x45 + |s.ipOptions| / 4 && p[2] == s.Total() / 256 && p[3] == s.Total() % 256
            && p[6] == (s.ipFlags * 8192 + s.frag) / 256 && p[7] == s.frag % 256 && p[9] == 6
  {
    HeadBytes(s, 0);
    HeadBytes(s, 2);
    HeadBytes(s, 3);
    HeadBytes(s, 6);
    HeadBytes(s, 7);
    HeadBytes(s, 9);
    hide Segment.Bytes, Segment.TcpHead, Segment.Total, AllBytes;
  }

  lemma {:induction false} TcpBytes(s: Segment)
    requires s.Ok()
    ensures var p, t := s.Bytes(), 20 + |s.ipOptions|;
            && |p| == s.Total() >= t + 20 + s.OptLen() && p[t + 12] == (5 + s.OptLen() / 4) * 16 + s.reserved
            && p[t + 13] == FlagByte(s.fin, s.syn, s.flags) && p[t + 16] == s.check / 256 && p[t + 17] == s.check % 256
  {
    HeadBytes(s, 12);
    HeadBytes(s, 13);
    HeadBytes(s, 16);
    HeadBytes(s, 17);
    hide Segment.Bytes, Segment.IpHead, AllBytes, FlagByte;
  }

  lemma {:induction false} FragWord(flags: nat, frag: nat)
    requires flags < 8 && frag < 8192
    ensures ((flags * 8192 + frag) / 256 * 256 + frag % 256) % 8192 == frag
  {
    assert (flags * 8192 + frag) % 256 == frag % 256;
  }

  lemma {:induction false} IpShape(s: Segment)
    requires s.Ok()
    ensures var p := s.Bytes();
            Ipv4Ok(p) && p[9] == TCP && Ihl(p) == 20 + |s.ipOptions| && (Word(p, 6) % 0x2000 == 0 <==> s.frag == 0)
  {
    IpBytes(s);
    FragWord(s.ipFlags, s.frag);
    FourBytes(|s.ipOptions|);
    hide Segment.Bytes, AllBytes;
  }

  lemma {:induction false} FourBytes(n: nat)
    requires n % 4 == 0 && n <= 40
    ensures (0x45 + n / 4) / 16 == 4 && (0x45 + n / 4) % 16 * 4 == 20 + n
  {
  }

  lemma {:induction false} OffsetByte(n: nat, reserved: nat)
    requires n % 4 == 0 && reserved < 16
    ensures ((5 + n / 4) * 16 + reserved) / 16 * 4 == 20 + n
  {
  }

  lemma {:induction false} TcpShape(s: Segment)
    requires s.Ok()
    ensures var p, t := s.Bytes(), 20 + |s.ipOptions|;
            && t + 20 + s.OptLen() <= |p| && DataOffset(p, t) == 20 + s.OptLen() && p[t + 13] == FlagByte(s.fin, s.syn, s.flags)
            && Word(p, t + 16) == s.check
  {
    TcpBytes(s);
    OffsetByte(s.OptLen(), s.reserved);
    hide Segment.Bytes, AllBytes, FlagByte, Segment.OptLen, Segment.Total;
  }

  lemma {:induction false} OptionBytes(s: Segment)
    requires s.Ok()
    ensures var p, t := s.Bytes(), 40 + |s.ipOptions|;
            t + s.OptLen() <= |p| && p[t..t + s.OptLen()] == AllBytes(s.opts) + s.pad
  {
    hide AllBytes, Segment.IpHead, Segment.TcpHead;
    var a := s.IpHead() + s.ipOptions + s.TcpHead();
    assert s.Bytes() == a + (AllBytes(s.opts) + s.pad) + s.data;
  }

  /** A built segment is one to look at exactly when its SYN flag is set and it is no later fragment. */
  lemma {:induction false} BuiltIsSyn(s: Segment)
    requires s.Ok()
    ensures var p := s.Bytes();
            && (IsSyn(p) <==> s.syn && s.frag == 0)
            && (IsSyn(p) ==> Options(p) == AllBytes(s.opts) + s.pad)
  {
    IpShape(s);
    TcpShape(s);
    SynBit(s.fin, s.syn, s.flags);
    OptionBytes(s);
    hide Segment.Bytes, Segment.OptLen, Segment.Total, AllBytes, FlagByte, Ipv4Ok, Word, Ihl, DataOffset;
  }

  lemma {:induction false} ValueWritten(s: Segment, r: Segment, k: nat, max: nat)
    requires s.Ok() && max < 65536 && k + 2 <= |AllBytes(s.opts)|
    requires r == s.(opts := r.opts) && OptsOk(r.opts) && AllBytes(r.opts) == PutWord(AllBytes(s.opts), k, max)
    ensures r.Ok() && r.Bytes() == PutWord(s.Bytes(), 40 + |s.ipOptions| + k, max)
    ensures Word(s.Bytes(), 40 + |s.ipOptions| + k) == Word(AllBytes(s.opts), k)
  {
    hide AllBytes, PutWord, Word, FlagByte;
    assert r.OptLen() == s.OptLen() && r.Total() == s.Total();
    assert r.IpHead() == s.IpHead() && r.TcpHead() == s.TcpHead();
    hide Segment.IpHead, Segment.TcpHead;
    var a, c := s.IpHead() + s.ipOptions + s.TcpHead(), s.pad + s.data;
    PutInside(a, AllBytes(s.opts), c, k, max);
    assert s.Bytes() == a + AllBytes(s.opts) + c && r.Bytes() == a + AllBytes(r.opts) + c;
  }

  lemma {:induction false} HeadsWithCheck(s: Segment, ck: nat)
    requires s.Ok() && ck < 65536
    ensures var r := s.(check := ck);
            r.Ok() && r.IpHead() == s.IpHead() && r.TcpHead() == PutWord(s.TcpHead(), 16, ck)
  {
    hide AllBytes, FlagByte;
  }

  lemma {:induction false} CheckWritten(s: Segment, ck: nat)
    requires s.Ok() && ck < 65536
    ensures var r := s.(check := ck); r.Ok() && r.Bytes() == PutWord(s.Bytes(), 36 + |s.ipOptions|, ck)
  {
    hide AllBytes, FlagByte, Segment.IpHead, Segment.TcpHead, PutWord, Word;
    HeadsWithCheck(s, ck);
    var r := s.(check := ck);
    var a, c := s.IpHead() + s.ipOptions, AllBytes(s.opts) + s.pad + s.data;
    PutInside(a, s.TcpHead(), c, 16, ck);
    assert s.Bytes() == a + s.TcpHead() + c && r.Bytes() == a + r.TcpHead() + c;
  }

  lemma {:induction false} OkOpts(s: Segment)
    requires s.Ok()
    ensures OptsOk(s.opts) && (s.pad != [] ==> s.pad[0] == 0)
  {
  }

  lemma {:induction false} MssFrom(p: seq<byte>, opts: seq<byte>, t: nat, k: Option<nat>)
    requires IsSyn(p) && Options(p) == opts && Ihl(p) == t && FindMss(opts, 0) == k
    ensures MssAt(p) == if k.Some? then Some(t + 22 + k.value) else None
  {
    hide IsSyn, Options, FindMss, Ihl;
  }

  lemma {:induction false} BuiltMss(s: Segment)
    requires s.Ok() && IsSyn(s.Bytes())
    ensures var k := FirstMss(s.opts);
            MssAt(s.Bytes()) == if k.Some? then Some(42 + |s.ipOptions| + k.value) else None
  {
    hide IsSyn, Options, FindMss, AllBytes, FirstMss, Segment.Bytes, Segment.Ok, Ipv4Ok, Ihl, Word, MssAt;
    OkOpts(s);
    BuiltIsSyn(s);
    IpShape(s);
    ScanFinds([], s.opts, s.pad);
    assert [] + AllBytes(s.opts) + s.pad == AllBytes(s.opts) + s.pad;
    MssFrom(s.Bytes(), AllBytes(s.opts) + s.pad, 20 + |s.ipOptions|, FirstMss(s.opts));
  }

  /** The code's own description of the segment, in terms of its fields. */
  lemma {:induction false} BuiltNeeds(s: Segment, max: nat)
    requires s.Ok() && max < 65536
    ensures var p, k := s.Bytes(), FirstMss(s.opts);
            && (NeedsClamp(p, max) <==> s.syn && s.frag == 0 && k.Some? && Word(AllBytes(s.opts), k.value + 2) > max)
            && (NeedsClamp(p, max) ==> MssAt(p) == Some(42 + |s.ipOptions| + k.value) && Ihl(p) == 20 + |s.ipOptions|)
  {
    BuiltIsSyn(s);
    if IsSyn(s.Bytes()) { BuiltMss(s); }
    IpShape(s);
    var k := FirstMss(s.opts);
    if k.Some? { ValueAt(s, k.value + 2); }
    hide IsSyn, Options, FindMss, AllBytes, FirstMss, Segment.Bytes, Segment.Ok, Ipv4Ok, Ihl, Word;
  }

  lemma {:induction false} ValueAt(s: Segment, k: nat)
    requires s.Ok() && k + 2 <= |AllBytes(s.opts)|
    ensures 40 + |s.ipOptions| + k + 2 <= |s.Bytes()|
    ensures Word(s.Bytes(), 40 + |s.ipOptions| + k) == Word(AllBytes(s.opts), k)
  {
    hide AllBytes, Segment.IpHead, Segment.TcpHead;
    var a, c := s.IpHead() + s.ipOptions + s.TcpHead(), s.pad + s.data;
    PutInside(a, AllBytes(s.opts), c, k, 0);
    assert s.Bytes() == a + AllBytes(s.opts) + c;
  }

  /**
   * Every built segment, whatever its addresses, flags, IP options and TCP options: with the
   * SYN flag, alone or among others, and no later fragment, it comes out as the segment built
   * with its first MSS option lowered to max, all else but the checksum as it was; otherwise
   * it comes out as it is.
   */
  lemma {:induction false} BuiltIsClamped(s: Segment, max: nat) returns (r: Segment)
    requires s.Ok() && max < 65536
    ensures r.Ok() && Clamp(s.Bytes(), max) == r.Bytes()
    ensures if s.syn && s.frag == 0 && Lowered(s.opts, max) != s.opts
            then r == s.(opts := Lowered(s.opts, max), check := r.check) else r == s
  {
    hide AllBytes, Segment.Bytes, Segment.Ok, Word, Ihl, Lowered, FirstMss, LoweredAt, NeedsClamp, MssAt, Clamp;
    r := s;
    OkOpts(s);
    BuiltNeeds(s, max);
    LoweredBytes(s.opts, max);
    var k := FirstMss(s.opts);
    LoweredIff(s.opts, max);
    if NeedsClamp(s.Bytes(), max) { r := Rewritten(s, k.value, max); } else { ClampIdle(s.Bytes(), max); }
  }

  lemma {:induction false} ClampIs(p: seq<byte>, max: nat, at: nat, ckAt: nat) returns (ck: nat)
    requires max < 65536 && NeedsClamp(p, max) && MssAt(p) == Some(at) && Ihl(p) + 16 == ckAt
    ensures ckAt + 1 < |p| && at + 1 < |p| && ck < 65536 && Clamp(p, max) == PutWord(PutWord(p, at, max), ckAt, ck)
  {
    hide FindMss, PutWord, UpdatedChecksum, IsSyn, Word, Clamp, NeedsClamp, MssAt;
    ck := UpdatedChecksum(Word(p, ckAt), Word(p, at), max);
    ClampActs(p, max);
  }

  lemma {:induction false} Rewritten(s: Segment, k: nat, max: nat) returns (r: Segment)
    requires s.Ok() && max < 65536 && NeedsClamp(s.Bytes(), max) && FirstMss(s.opts) == Some(k)
    requires MssAt(s.Bytes()) == Some(42 + |s.ipOptions| + k) && Ihl(s.Bytes()) == 20 + |s.ipOptions|
    requires Word(AllBytes(s.opts), k + 2) > max && LoweredAt(s.opts, max)
    ensures r.Ok() && Clamp(s.Bytes(), max) == r.Bytes() && Lowered(s.opts, max) != s.opts
    ensures r == s.(opts := Lowered(s.opts, max), check := r.check)
  {
    hide AllBytes, Segment.Bytes, Segment.Ok, PutWord, Word, Ihl, Lowered, FirstMss, NeedsClamp, MssAt, Clamp;
    OkOpts(s);
    LoweredIff(s.opts, max);
    var ck := ClampIs(s.Bytes(), max, 42 + |s.ipOptions| + k, 36 + |s.ipOptions|);
    var low := s.(opts := Lowered(s.opts, max));
    ValueWritten(s, low, k + 2, max);
    CheckWritten(low, ck);
    r := low.(check := ck);
  }

  lemma {:induction false} LoweredIff(os: seq<Opt>, max: nat)
    requires OptsOk(os) && max < 65536 && LoweredAt(os, max)
    ensures Lowered(os, max) != os <==> FirstMss(os).Some? && Word(AllBytes(os), FirstMss(os).value + 2) > max
  {
    hide AllBytes, Lowered, FirstMss;
  }
}
