/** The one packet of a transfer that its reader reads with the other check type. */
module KermitEarlyNak {
  import opened Bytes
  import opened KermitChecks
  import opened KermitPacket

  /** CrcBit by flipping the polynomial's three bits. */
  function PolyBit(c: nat): nat
  {
    if c % 2 == 1 then Toggle(Toggle(Toggle(c / 2, 32768), 1024), 8) else c / 2
  }

  lemma {:induction false} PolyBitIs(c: nat)
    ensures CrcBit(c) == PolyBit(c)
  {
    hide Xor;
    assert Pow2(15) == 32768 && Pow2(10) == 1024 && Pow2(3) == 8;
    XorBitK(32768, 10);
    XorBitK(33792, 3);
    XorTwoBits(c / 2, 33792, 3);
    XorTwoBits(c / 2, 32768, 10);
    XorBitK(c / 2, 15);
  }

  lemma {:induction false} CrcStep(c: nat, n: nat, before: nat, after: nat)
    requires CrcBits(c, n) == before && PolyBit(before) == after
    ensures CrcBits(c, n + 1) == after
  {
    hide CrcBit;
    PolyBitIs(before);
  }

  lemma {:induction false} NakCrcFirst()
    ensures CrcBits(37, 8) == 30383
  {
    hide CrcBit;
    assert CrcBits(37, 0) == 37;
    CrcStep(37, 0, 37, 33818);
    CrcStep(37, 1, 33818, 16909);
    CrcStep(37, 2, 16909, 42254);
    CrcStep(37, 3, 42254, 21127);
    CrcStep(37, 4, 21127, 44363);
    CrcStep(37, 5, 44363, 53933);
    CrcStep(37, 6, 53933, 60766);
    CrcStep(37, 7, 60766, 30383);
  }

  lemma {:induction false} NakCrcSecond()
    ensures CrcBits(30350, 8) == 27904
  {
    hide CrcBit;
    assert CrcBits(30350, 0) == 30350;
    CrcStep(30350, 0, 30350, 15175);
    CrcStep(30350, 1, 15175, 39339);
    CrcStep(30350, 2, 39339, 51421);
    CrcStep(30350, 3, 51421, 57446);
    CrcStep(30350, 4, 57446, 28723);
    CrcStep(30350, 5, 28723, 48145);
    CrcStep(30350, 6, 48145, 55808);
    CrcStep(30350, 7, 55808, 27904);
  }

  lemma {:induction false} NakCrcThird()
    ensures CrcBits(27982, 8) == 43799
  {
    hide CrcBit;
    assert CrcBits(27982, 0) == 27982;
    CrcStep(27982, 0, 27982, 13991);
    CrcStep(27982, 1, 13991, 40795);
    CrcStep(27982, 2, 40795, 52133);
    CrcStep(27982, 3, 52133, 57818);
    CrcStep(27982, 4, 57818, 28909);
    CrcStep(27982, 5, 28909, 48254);
    CrcStep(27982, 6, 48254, 24127);
    CrcStep(27982, 7, 24127, 43799);
  }

  lemma {:induction false} NakMasks()
    ensures Xor(0, 37) == 37 && Xor(30383, 33) == 30350 && Xor(27904, 78) == 27982
  {
    hide Xor;
    assert Pow2(0) == 1 && Pow2(1) == 2 && Pow2(2) == 4 && Pow2(3) == 8 && Pow2(5) == 32 && Pow2(6) == 64;
    XorZero(37);
    XorBitK(32, 0);
    XorTwoBits(30383, 32, 0);
    XorBitK(30383, 5);
    XorBitK(64, 3);
    XorBitK(72, 2);
    XorBitK(76, 1);
    XorTwoBits(27904, 76, 1);
    XorTwoBits(27904, 72, 2);
    XorTwoBits(27904, 64, 3);
    XorBitK(27904, 6);
  }

  lemma {:induction false} NakCrc()
    ensures Crc16([37, 33, 78]) == 43799
  {
    hide Xor, CrcBits;
    NakMasks();
    NakCrcFirst();
    NakCrcSecond();
    NakCrcThird();
    CrcSnoc([], 37);
    CrcSnoc([37], 33);
    CrcSnoc([37, 33], 78);
    var b0: seq<byte>, b1: seq<byte>, b2: seq<byte> := [], [37], [37, 33];
    assert b0 + [37] == [37] && b1 + [33] == [37, 33] && b2 + [78] == [37, 33, 78];
  }

  lemma {:induction false} SumOfNak()
    ensures Sum([37, 33, 78, 42]) == 190
  {
    var s: seq<byte> := [37, 33, 78, 42];
    assert s[..3] == [37, 33, 78];
    var t: seq<byte> := [37, 33, 78];
    assert t[..2] == [37, 33];
    var u: seq<byte> := [37, 33];
    assert u[..1] == [37];
    var v: seq<byte> := [37];
    assert v[..0] == [];
    assert Sum(v) == 37 && Sum(u) == 70 && Sum(t) == 148;
  }

  /**
   * A receiver that has negotiated CRC-16 may prompt with NAK 1; a sender still waiting
   * for the reply to its S reads check type 1, and does not take it for one.
   */
  lemma {:induction false} EarlyNakIsUnreadable()
    ensures Built(1, 78, [], 3).Data(1) == None
  {
    hide Crc16;
    NakCrc();
    var h := Header(1, 78, 0, 3);
    assert h == [MARK, 37, 33, 78];
    var p := h + [];
    assert p[1..] == [37, 33, 78];
    var raw := Body(1, 78, [], 3);
    assert raw == [MARK, 37, 33, 78, 42, 76, 55];
    var s: seq<byte> := [37, 33, 78, 42, 76];
    assert raw[1..6] == s;
    assert s[..4] == [37, 33, 78, 42] && Sum([37, 33, 78, 42]) == 190 by { SumOfNak(); }
    assert Sum(s) == 266;
    assert Check1(s) == 42;
    assert raw[6..] == [55];
  }
}
