/** What a frame is: of every stream only frames by the book are emitted, and only undamaged ones are read. */
module KermitFrames {
  import opened Bytes
  import opened KermitChecks
  import opened KermitPacket

  /** No control character, no DEL: what may stand behind the mark. */
  predicate Clean(b: byte) { 32 <= b <= 126 || b >= 128 }

  /** A frame by the book: a mark, clean bytes, and the length its basic or its checked long header states. */
  predicate ByTheBook(p: Pkt)
  {
    && p.raw[0] == 1 && (forall i :: 1 <= i < |p.raw| ==> Clean(p.raw[i]))
    && (if p.raw[1] != 32 then p.hdr == 4 && 35 <= p.raw[1] <= 126 && |p.raw| == p.raw[1] as int - 30
        else p.hdr == 7 && p.raw[6] == Check1(p.raw[1..6]) &&
             |p.raw| == 7 + 95 * (p.raw[4] as int - 32) + (p.raw[5] as int - 32))
  }

  lemma {:induction false} TakenByTheBook(b: seq<byte>, hdr: nat, total: nat)
    requires 4 <= hdr <= total && 1 <= |b| && TakeFrame(b, hdr, total).Emit?
    ensures var p := TakeFrame(b, hdr, total).pkt;
            p.raw == b[..total] && p.hdr == hdr && |p.raw| == total && forall i :: 1 <= i < total ==> Clean(p.raw[i])
  {
  }

  lemma {:induction false} StepByTheBook(b: seq<byte>)
    requires b != [] && b[0] == MARK && FromMark(b).Emit?
    ensures ByTheBook(FromMark(b).pkt)
  {
    hide TakeFrame, FirstBad, Check1;
    var len := UnChar(b[1]);
    if len == 0 {
      var total := 7 + UnChar(b[4]) * 95 + UnChar(b[5]);
      TakenByTheBook(b, 7, total);
      var p := FromMark(b).pkt;
      assert p.raw[1..6] == b[1..6];
      assert Clean(p.raw[4]) && Clean(p.raw[5]);
      LongDigits(b);
    } else {
      TakenByTheBook(b, 4, 2 + len);
    }
  }

  /** The two length digits of a clean long header count without wrapping. */
  lemma {:induction false} LongDigits(b: seq<byte>)
    requires |b| >= 7 && Clean(b[4]) && Clean(b[5])
    ensures UnChar(b[4]) == b[4] as int - 32 && UnChar(b[5]) == b[5] as int - 32
  {
  }

  /** Whatever the stream, damaged or not: nothing but frames by the book is ever emitted. */
  lemma {:induction false} OnlyFramesEmitted(buf: seq<byte>)
    ensures forall p :: p in Parse(buf).pkts ==> ByTheBook(p)
    decreases |buf|
  {
    hide ByTheBook, FromMark;
    match ParseStep(buf)
    case Stop(_) =>
    case Again(b) => OnlyFramesEmitted(b);
    case Emit(p, b) =>
      OnlyFramesEmitted(b);
      StepByTheBook(buf[FirstMark(buf)..]);
  }

  // ----- reading ---------------------------------------------------------------------------------------

  /** Under check 1 a frame is read exactly if its last character is the check of all behind the mark. */
  lemma {:induction false} ReadUnderCheck1(p: Pkt, data: seq<byte>)
    ensures p.Data(1) == Some(data) <==>
            p.hdr < |p.raw| && data == p.raw[p.hdr..|p.raw| - 1] && p.raw[|p.raw| - 1] == Check1(p.raw[1..|p.raw| - 1])
  {
    hide Check1;
    var end := |p.raw| - 1;
    assert p.raw[end..] == [p.raw[end]];
  }

  /** Under check 3 exactly if its last three characters carry the CRC of all before them, the mark aside. */
  lemma {:induction false} ReadUnderCheck3(p: Pkt, data: seq<byte>)
    ensures p.Data(3) == Some(data) <==>
            p.hdr + 3 <= |p.raw| &&
            var end := |p.raw| - 3;
            && data == p.raw[p.hdr..end]
            && UnChar(p.raw[end]) < 16 && UnChar(p.raw[end + 1]) < 64 && UnChar(p.raw[end + 2]) < 64
            && Crc16(p.raw[1..end]) == 4096 * UnChar(p.raw[end]) + 64 * UnChar(p.raw[end + 1]) + UnChar(p.raw[end + 2])
  {
    hide Crc16, UnChar, ToChar;
    if p.hdr + 3 <= |p.raw| {
      var end := |p.raw| - 3;
      assert p.raw[end..] == [p.raw[end], p.raw[end + 1], p.raw[end + 2]];
      CrcCarried(p.raw[1..end], p.raw[end..]);
    }
  }

  lemma {:induction false} CrcCarried(m: seq<byte>, s: seq<byte>)
    requires |s| == 3
    ensures s == Check3(m) <==>
            UnChar(s[0]) < 16 && UnChar(s[1]) < 64 && UnChar(s[2]) < 64 &&
            Crc16(m) == 4096 * UnChar(s[0]) + 64 * UnChar(s[1]) + UnChar(s[2])
  {
    hide Crc16, UnChar, ToChar, Check3;
    Check3Carries(m);
    var c := Check3(m);
    if UnChar(s[0]) < 16 && UnChar(s[1]) < 64 && UnChar(s[2]) < 64 &&
       Crc16(m) == 4096 * UnChar(s[0]) + 64 * UnChar(s[1]) + UnChar(s[2]) {
      SameDigits(UnChar(c[0]), UnChar(c[1]), UnChar(c[2]), UnChar(s[0]), UnChar(s[1]), UnChar(s[2]));
      SameChar(c[0], s[0]);
      SameChar(c[1], s[1]);
      SameChar(c[2], s[2]);
      assert s == c;
    }
  }

  lemma {:induction false} SameChar(a: byte, b: byte)
    requires UnChar(a) == UnChar(b)
    ensures a == b
  {
  }

  lemma {:induction false} SameDigits(a: nat, b: nat, c: nat, x: nat, y: nat, z: nat)
    requires b < 64 && c < 64 && y < 64 && z < 64 && 4096 * a + 64 * b + c == 4096 * x + 64 * y + z
    ensures a == x && b == y && c == z
  {
  }

  lemma {:induction false} Cut(s: seq<byte>, i: nat, wrong: seq<byte>, end: nat)
    requires 1 <= i && i + |wrong| <= end <= |s|
    ensures var d := s[..i] + wrong + s[i + |wrong|..];
            && |d| == |s| && d[end..] == s[end..]
            && d[1..end] == s[1..i] + wrong + s[i + |wrong|..end]
            && s[1..end] == s[1..i] + s[i..i + |wrong|] + s[i + |wrong|..end]
  {
  }

  lemma {:induction false} CrcBehind(n: nat, typ: byte, data: seq<byte>)
    ensures var raw := Built(n, typ, data, 3).raw;
            |raw| > 4 && raw[|raw| - 3..] == Check3(raw[1..|raw| - 3])
  {
    hide Header, Check3;
    var h := Header(n, typ, |data|, 3) + data;
    var raw := Built(n, typ, data, 3).raw;
    assert raw == h + Check3(h[1..]);
    assert raw[1..|h|] == h[1..] && raw[|h|..] == Check3(h[1..]);
  }

  /** A packet with one character changed, or two neighbours, anywhere before its CRC, is not read. */
  lemma {:induction false} DamageIsSeen(n: nat, typ: byte, data: seq<byte>, i: nat, wrong: seq<byte>)
    requires var raw := Built(n, typ, data, 3).raw;
             && 1 <= i && 1 <= |wrong| <= 2 && i + |wrong| + 3 <= |raw| && wrong != raw[i..i + |wrong|]
    ensures var raw, hdr := Built(n, typ, data, 3).raw, Built(n, typ, data, 3).hdr;
            Pkt(raw[..i] + wrong + raw[i + |wrong|..], hdr).Data(3) == None
  {
    hide Built, Header, Check3;
    var raw := Built(n, typ, data, 3).raw;
    CrcBehind(n, typ, data);
    Cut(raw, i, wrong, |raw| - 3);
    CrcDetectsTwoAdjacentBytes(raw[1..i], raw[i..i + |wrong|], wrong, raw[i + |wrong|..|raw| - 3]);
  }
}
