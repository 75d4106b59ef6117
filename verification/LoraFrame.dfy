/** LoRa frames: [len][type][seq][crc8] + payload, and what the CRC covers. */
module LoraFrame {
  import opened Bytes

  const T_LORA_MSG: byte := 0
  const T_RAW_DATA: byte := 1
  const T_REC_AKNG: byte := 2
  const T_LORA_SERIAL: byte := 3
  const T_NET: byte := 4
  const HEADER_LEN: nat := 4
  const MAX_PAYLOAD: nat := 251
  const ACK_OK: byte := 1
  const ACK_RETRY: byte := 0

  // ----- CRC-8, polynomial 0x07, most significant bit first ---------------------------

  function Crc8Bit(c: byte): (r: nat)
  {
    if c >= 128 then Xor(2 * c - 256, 7) else 2 * c
  }

  lemma {:induction false} Crc8BitFits(c: byte)
    ensures Crc8Bit(c) < 256
  {
    if c >= 128 { XorFits(2 * c - 256, 7); }
  }

  function Crc8Bits(c: byte, n: nat): (r: byte)
    decreases n
  {
    if n == 0 then c
    else
      Crc8BitFits(Crc8Bits(c, n - 1));
      Crc8Bit(Crc8Bits(c, n - 1))
  }

  function Crc8Mix(c: byte, b: byte): (r: byte)
  {
    XorFits(c, b);
    Crc8Bits(Xor(c, b), 8)
  }

  function Crc8(c: byte, s: seq<byte>): (r: byte)
    decreases |s|
  {
    if s == [] then c else Crc8(Crc8Mix(c, s[0]), s[1..])
  }

  function PacketCrc(n: byte, payload: seq<byte>): (r: byte) { Crc8(Crc8(0, [n]), payload) }

  lemma {:induction false} Crc8Append(c: byte, s: seq<byte>, t: seq<byte>)
    ensures Crc8(c, s + t) == Crc8(Crc8(c, s), t)
    decreases |s|
  {
    hide Crc8Mix;
    if s == [] {
      assert s + t == t;
    } else {
      assert (s + t)[1..] == s[1..] + t;
      Crc8Append(Crc8Mix(c, s[0]), s[1..], t);
    }
  }

  lemma {:induction false} Crc8Snoc(c: byte, s: seq<byte>, b: byte)
    ensures Crc8(c, s + [b]) == Crc8Mix(Crc8(c, s), b)
  {
    hide Crc8Mix;
    Crc8Append(c, s, [b]);
    var one: seq<byte> := [b];
    assert one[1..] == [];
    assert Crc8(Crc8Mix(Crc8(c, s), b), []) == Crc8Mix(Crc8(c, s), b);
  }

  method MixByte(crc0: byte, d: byte) returns (crc: byte)
    ensures crc == Crc8Mix(crc0, d)
  {
    hide Xor;
    XorFits(crc0, d);
    crc := Xor(crc0, d);
    var b := 0;
    while b < 8
      invariant 0 <= b <= 8 && crc == Crc8Bits(Xor(crc0, d), b)
    {
      Crc8BitFits(crc);
      crc := if crc >= 128 then Xor(2 * crc - 256, 7) else 2 * crc;
      b := b + 1;
    }
  }

  method ComputeCrc8(crc0: byte, data: seq<byte>) returns (crc: byte)
    ensures crc == Crc8(crc0, data)
  {
    hide Crc8Mix;
    crc := crc0;
    var i := 0;
    assert data[..0] == [];
    while i < |data|
      invariant 0 <= i <= |data| && crc == Crc8(crc0, data[..i])
    {
      crc := MixByte(crc, data[i]);
      Crc8Snoc(crc0, data[..i], data[i]);
      assert data[..i + 1] == data[..i] + [data[i]];
      i := i + 1;
    }
    assert data[..i] == data;
  }

  lemma {:induction false} Crc8Next(c: byte, n: nat, before: byte, after: byte)
    requires Crc8Bits(c, n) == before && Crc8Bit(before) == after
    ensures Crc8Bits(c, n + 1) == after
  {
    hide Crc8Bit;
  }

  /** Flipping the three low bits, as the polynomial does, without carrying. */
  lemma {:induction false} XorSeven()
    ensures Xor(0, 7) == 7 && Xor(192, 7) == 199 && Xor(142, 7) == 137
  {
    hide Xor;
    assert Pow2(0) == 1 && Pow2(1) == 2 && Pow2(2) == 4;
    XorBitK(4, 1);
    XorBitK(6, 0);
    XorTwoBits(192, 6, 0);
    XorTwoBits(192, 4, 1);
    XorBitK(192, 2);
    XorTwoBits(142, 6, 0);
    XorTwoBits(142, 4, 1);
    XorBitK(142, 2);
    XorSym(0, 7);
    XorZero(7);
  }

  /** The CRC of one byte is its remainder by x^8 + x^2 + x + 1, highest bit first: two that take every turn of the loop. */
  lemma {:induction false} Crc8Known()
    ensures Crc8(0, []) == 0 && Crc8(0, [1]) == 7 && Crc8(0, [0x80]) == 0x89
  {
    hide Xor;
    XorSeven();
    XorSym(0, 1);
    XorSym(0, 128);
    XorZero(1);
    XorZero(128);
    assert Crc8Bits(1, 0) == 1 && Crc8Bits(128, 0) == 128;
    Crc8Next(1, 0, 1, 2);
    Crc8Next(1, 1, 2, 4);
    Crc8Next(1, 2, 4, 8);
    Crc8Next(1, 3, 8, 16);
    Crc8Next(1, 4, 16, 32);
    Crc8Next(1, 5, 32, 64);
    Crc8Next(1, 6, 64, 128);
    Crc8Next(1, 7, 128, 7);
    Crc8Next(128, 0, 128, 7);
    Crc8Next(128, 1, 7, 14);
    Crc8Next(128, 2, 14, 28);
    Crc8Next(128, 3, 28, 56);
    Crc8Next(128, 4, 56, 112);
    Crc8Next(128, 5, 112, 224);
    Crc8Next(128, 6, 224, 199);
    Crc8Next(128, 7, 199, 137);
    var none: seq<byte>, one: seq<byte>, top: seq<byte> := [], [1], [0x80];
    Crc8Snoc(0, none, 1);
    Crc8Snoc(0, none, 128);
    assert none + [1] == one && none + [128] == top;
  }

  /** The mask is odd and the shifted value even, so parity tells the two cases apart. */
  lemma {:induction false} Crc8BitInjective(x: byte, y: byte)
    requires Crc8Bit(x) == Crc8Bit(y)
    ensures x == y
  {
    hide Xor;
    if x >= 128 {
      XorHalf(2 * x - 256, 7);
      XorTwice(2 * x - 256, 7);
    }
    if y >= 128 {
      XorHalf(2 * y - 256, 7);
      XorTwice(2 * y - 256, 7);
    }
  }

  lemma {:induction false} Crc8BitsInjective(x: byte, y: byte, n: nat)
    requires Crc8Bits(x, n) == Crc8Bits(y, n)
    ensures x == y
    decreases n
  {
    if n > 0 {
      Crc8BitInjective(Crc8Bits(x, n - 1), Crc8Bits(y, n - 1));
      Crc8BitsInjective(x, y, n - 1);
    }
  }

  /** Mixing a byte in is injective in the register and in the byte. */
  lemma {:induction false} Crc8MixInjective(c: byte, a: byte, d: byte, b: byte)
    requires Crc8Mix(c, a) == Crc8Mix(d, b)
    ensures c == d ==> a == b
    ensures a == b ==> c == d
  {
    hide Xor, Crc8Bits;
    XorFits(c, a);
    XorFits(d, b);
    Crc8BitsInjective(Xor(c, a), Xor(d, b), 8);
    if c == d { XorCancel(c, a, b); }
    if a == b {
      XorTwice(c, a);
      XorTwice(d, a);
    }
  }

  lemma {:induction false} Crc8Injective(c: byte, d: byte, s: seq<byte>)
    requires Crc8(c, s) == Crc8(d, s)
    ensures c == d
    decreases |s|
  {
    hide Crc8Mix;
    if s != [] {
      Crc8Injective(Crc8Mix(c, s[0]), Crc8Mix(d, s[0]), s[1..]);
      Crc8MixInjective(c, s[0], d, s[0]);
    }
  }

  /** One altered byte alters the CRC. */
  lemma {:induction false} Crc8DetectsByte(s: seq<byte>, i: nat, b: byte)
    requires i < |s| && b != s[i]
    ensures Crc8(0, s[i := b]) != Crc8(0, s)
  {
    hide Crc8, Crc8Mix;
    var t := s[i := b];
    var pre, post := s[..i], s[i + 1..];
    assert s == (pre + [s[i]]) + post && t == (pre + [b]) + post;
    Crc8Append(0, pre + [s[i]], post);
    Crc8Append(0, pre + [b], post);
    Crc8Snoc(0, pre, s[i]);
    Crc8Snoc(0, pre, b);
    if Crc8(0, t) == Crc8(0, s) {
      Crc8Injective(Crc8(0, pre + [s[i]]), Crc8(0, pre + [b]), post);
      Crc8MixInjective(Crc8(0, pre), s[i], Crc8(0, pre), b);
      assert false;
    }
  }

  // ----- framing --------------------------------------------------------------------------

  predicate DataType(typ: byte) { typ <= T_NET && typ != T_REC_AKNG }

  function Frame(typ: byte, n: byte, payload: seq<byte>): (f: seq<byte>)
    requires |payload| <= MAX_PAYLOAD
  {
    [|payload|, typ, n, PacketCrc(n, payload)] + payload
  }

  function AckFrame(n: byte, result: byte): seq<byte> { [1, T_REC_AKNG, n, 0, result] }

  method FramePacket(typ: byte, n: byte, payload: seq<byte>, out: array<byte>) returns (len: nat)
    modifies out
    ensures len == 0 <==> |payload| > MAX_PAYLOAD || !DataType(typ) || out.Length < HEADER_LEN + |payload|
    ensures len > 0 ==> len <= out.Length && out[..len] == Frame(typ, n, payload)
    ensures out[len..] == old(out[len..])
  {
    if |payload| > MAX_PAYLOAD || typ == T_REC_AKNG || typ > T_NET { return 0; }
    if out.Length < HEADER_LEN + |payload| { return 0; }
    out[0] := |payload|;
    out[1] := typ;
    out[2] := n;
    var c := ComputeCrc8(0, [n]);
    c := ComputeCrc8(c, payload);
    out[3] := c;
    forall i | 0 <= i < |payload| { out[HEADER_LEN + i] := payload[i]; }
    return HEADER_LEN + |payload|;
  }

  datatype ParseErr = TooShort | LenMismatch | BadType | BadCrc | BadAck

  datatype Parsed = Ok(typ: byte, n: byte, payload: seq<byte>) | Bad(err: ParseErr, typ: byte, n: byte)

  function ParsePacket(buf: seq<byte>): (p: Parsed)
    ensures p.Ok? ==> |p.payload| <= 255 && p.typ <= T_NET && (p.typ == T_REC_AKNG ==> |p.payload| == 1)
  {
    if |buf| < HEADER_LEN then Bad(TooShort, 0, 0)
    else
      var len, typ, n := buf[0], buf[1], buf[2];
      var payload := buf[HEADER_LEN..];
      if |buf| != HEADER_LEN + len then Bad(LenMismatch, typ, n)
      else if typ > T_NET then Bad(BadType, typ, n)
      else if typ == T_REC_AKNG then (if len != 1 then Bad(BadAck, typ, n) else Ok(typ, n, payload))
      else if buf[3] != PacketCrc(n, payload) then Bad(BadCrc, typ, n)
      else Ok(typ, n, payload)
  }

  /** Parsing undoes framing, for data and for acknowledgements. */
  lemma {:induction false} ParseInvertsFrame(typ: byte, n: byte, payload: seq<byte>)
    requires |payload| <= MAX_PAYLOAD && DataType(typ)
    ensures ParsePacket(Frame(typ, n, payload)) == Ok(typ, n, payload)
  {
    hide PacketCrc;
    assert Frame(typ, n, payload)[HEADER_LEN..] == payload;
  }

  lemma {:induction false} ParseInvertsAck(n: byte, result: byte)
    ensures ParsePacket(AckFrame(n, result)) == Ok(T_REC_AKNG, n, [result])
  {
    assert AckFrame(n, result)[HEADER_LEN..] == [result];
  }

  /**
   * A data frame with exactly one byte changed, whichever it is, is refused, except when
   * the type byte turns into another valid type: the CRC does not cover the type.
   */
  lemma {:induction false} OneByteChanged(typ: byte, n: byte, payload: seq<byte>, i: nat, b: byte)
    requires |payload| <= MAX_PAYLOAD && DataType(typ)
    requires i < HEADER_LEN + |payload| && b != Frame(typ, n, payload)[i]
    ensures ParsePacket(Frame(typ, n, payload)[i := b]).Ok? <==>
            i == 1 && (DataType(b) || (b == T_REC_AKNG && |payload| == 1))
    ensures i >= 2 ==> ParsePacket(Frame(typ, n, payload)[i := b]).err == BadCrc
  {
    hide Crc8;
    var f := Frame(typ, n, payload);
    var g := f[i := b];
    assert f[HEADER_LEN..] == payload;
    if i == 2 {
      Crc8DetectsByte([n] + payload, 0, b);
      assert ([n] + payload)[0 := b] == [b] + payload;
      Crc8Append(0, [n], payload);
      Crc8Append(0, [b], payload);
      assert g[HEADER_LEN..] == payload;
    } else if i >= HEADER_LEN {
      var k := i - HEADER_LEN;
      Crc8DetectsByte([n] + payload, k + 1, b);
      assert ([n] + payload)[k + 1 := b] == [n] + payload[k := b];
      Crc8Append(0, [n], payload);
      Crc8Append(0, [n], payload[k := b]);
      assert g[HEADER_LEN..] == payload[k := b];
    } else {
      assert g[HEADER_LEN..] == payload;
    }
  }

  /** The wire format: length, type, number, check, payload; an acknowledgement is a frame of type 2 without a check. */
  lemma {:induction false} FrameLayout(typ: byte, n: byte, payload: seq<byte>, result: byte)
    requires |payload| <= MAX_PAYLOAD
    ensures var f, a := Frame(typ, n, payload), AckFrame(n, result);
            && |f| == 4 + |payload| && f[0] == |payload| && f[1] == typ && f[2] == n && f[4..] == payload
            && f[3] == Crc8(0, [n] + payload)
            && |a| == 5 && a[0] == 1 && a[1] == 2 && a[2] == n && a[3] == 0 && a[4] == result
  {
    hide Crc8;
    Crc8Append(0, [n], payload);
  }
}
