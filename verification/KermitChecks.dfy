/** Kermit block checks: the one-character checksum and CRC-16/KERMIT. */
module KermitChecks {
  import opened Bytes

  const POLY: nat := 0x8408

  // ----- character coding -------------------------------------------------------

  function ToChar(x: nat): (c: byte) { (x + 32) % 256 }

  function UnChar(c: byte): (x: byte) { (c + 224) % 256 }

  lemma {:induction false} UnCharToChar(x: nat)
    ensures UnChar(ToChar(x)) == x % 256
  {
  }

  /** Bytes the parser never treats as the sign of a cut frame. */
  predicate Printable(c: byte) { 32 <= c && c != 127 }

  predicate AllPrintable(s: seq<byte>) { forall i :: 0 <= i < |s| ==> Printable(s[i]) }

  // ----- check type 1 -----------------------------------------------------------

  function Sum(s: seq<byte>): nat
  {
    if s == [] then 0 else Sum(s[..|s| - 1]) + s[|s| - 1]
  }

  /** The sum folded to six bits, bits 6 and 7 added in. */
  function Check1(s: seq<byte>): (c: byte)
    ensures 32 <= c <= 95
  {
    var t := Sum(s);
    ToChar((t + (t / 64) % 4) % 64)
  }

  method ComputeCheck1(bytes: seq<byte>, from: nat, to: nat) returns (c: byte)
    requires from <= to <= |bytes|
    ensures c == Check1(bytes[from..to])
  {
    var s: nat := 0;
    var i := from;
    while i < to
      invariant from <= i <= to
      invariant s == Sum(bytes[from..i])
    {
      assert bytes[from..i + 1][..i - from] == bytes[from..i];
      s := s + bytes[i];
      i := i + 1;
    }
    c := ToChar((s + (s / 64) % 4) % 64);
  }

  /** The sum is the sum: of two parts together, and of one byte. */
  lemma {:induction false} SumOfParts(s: seq<byte>, t: seq<byte>)
    ensures Sum(s + t) == Sum(s) + Sum(t)
    ensures forall b: byte :: Sum([b]) == b
    decreases |t|
  {
    assert forall b: byte :: [b][..0] == [];
    if t == [] {
      assert s + t == s;
    } else {
      assert (s + t)[..|s + t| - 1] == s + t[..|t| - 1];
      SumOfParts(s, t[..|t| - 1]);
    }
  }

  /** The check is the low six bits of the sum plus the two bits above them; what is higher plays no part. */
  lemma {:induction false} Check1Folds(s: seq<byte>, rest: nat, high: nat, low: nat)
    requires Sum(s) == 256 * rest + 64 * high + low && high < 4 && low < 64
    ensures UnChar(Check1(s)) == if low + high < 64 then low + high else low + high - 64
  {
    hide Sum;
    assert Sum(s) / 64 == 4 * rest + high && Sum(s) / 64 % 4 == high;
    assert (Sum(s) + high) % 64 == (low + high) % 64;
  }

  // ----- check type 3: CRC-16, reflected, initial value 0 -------------------------

  function CrcBit(c: nat): nat { if c % 2 == 1 then Xor(c / 2, POLY) else c / 2 }

  function CrcBits(c: nat, n: nat): nat
    decreases n
  {
    if n == 0 then c else CrcBit(CrcBits(c, n - 1))
  }

  function CrcFold(c: nat, s: seq<byte>): nat
    decreases |s|
  {
    if s == [] then c else CrcFold(CrcBits(Xor(c, s[0]), 8), s[1..])
  }

  function Crc16(s: seq<byte>): nat { CrcFold(0, s) }

  lemma {:induction false} CrcBitFits(c: nat)
    requires c < 65536
    ensures CrcBit(c) < 65536
  {
    XorFits(c / 2, POLY);
  }

  lemma {:induction false} CrcBitsFit(c: nat, n: nat)
    requires c < 65536
    ensures CrcBits(c, n) < 65536
  {
    if n > 0 {
      CrcBitsFit(c, n - 1);
      CrcBitFits(CrcBits(c, n - 1));
    }
  }

  lemma {:induction false} CrcFits(c: nat, s: seq<byte>)
    requires c < 65536
    ensures CrcFold(c, s) < 65536
    decreases |s|
  {
    if s != [] {
      XorFits(c, s[0]);
      CrcBitsFit(Xor(c, s[0]), 8);
      CrcFits(CrcBits(Xor(c, s[0]), 8), s[1..]);
    }
  }

  lemma {:induction false} CrcAppend(c: nat, s: seq<byte>, t: seq<byte>)
    ensures CrcFold(c, s + t) == CrcFold(CrcFold(c, s), t)
    decreases |s|
  {
    if s == [] {
      assert s + t == t;
    } else {
      assert (s + t)[1..] == s[1..] + t;
      CrcAppend(CrcBits(Xor(c, s[0]), 8), s[1..], t);
    }
  }

  lemma {:induction false} CrcSnoc(s: seq<byte>, b: byte)
    ensures Crc16(s + [b]) == CrcBits(Xor(Crc16(s), b), 8)
  {
    CrcAppend(0, s, [b]);
    var c := Crc16(s);
    assert [b][1..] == [];
    assert CrcFold(c, [b]) == CrcFold(CrcBits(Xor(c, b), 8), []);
  }

  method ComputeCrc16(bytes: seq<byte>, from: nat, to: nat) returns (crc: nat)
    requires from <= to <= |bytes|
    ensures crc == Crc16(bytes[from..to]) && crc < 65536
  {
    crc := 0;
    var i := from;
    assert bytes[from..from] == [];
    while i < to
      invariant from <= i <= to
      invariant crc == Crc16(bytes[from..i])
    {
      ghost var before := crc;
      crc := Xor(crc, bytes[i]);
      var j := 0;
      while j < 8
        invariant 0 <= j <= 8
        invariant crc == CrcBits(Xor(before, bytes[i]), j)
      {
        crc := if crc % 2 == 1 then Xor(crc / 2, POLY) else crc / 2;
        j := j + 1;
      }
      CrcSnoc(bytes[from..i], bytes[i]);
      assert bytes[from..i + 1] == bytes[from..i] + [bytes[i]];
      i := i + 1;
    }
    CrcFits(0, bytes[from..to]);
  }

  function Check3(s: seq<byte>): (c: seq<byte>)
    ensures |c| == 3 && AllPrintable(c)
  {
    var c := Crc16(s);
    [ToChar((c / 4096) % 16), ToChar((c / 64) % 64), ToChar(c % 64)]
  }

  method ComputeCheck3(bytes: seq<byte>, from: nat, to: nat) returns (c: seq<byte>)
    requires from <= to <= |bytes|
    ensures c == Check3(bytes[from..to])
  {
    hide Crc16;
    var crc := ComputeCrc16(bytes, from, to);
    c := [ToChar((crc / 4096) % 16), ToChar((crc / 64) % 64), ToChar(crc % 64)];
  }

  function CkLen(ckType: nat): nat { if ckType == 3 then 3 else 1 }

  function BlockCheck(ckType: nat, s: seq<byte>): (c: seq<byte>)
    ensures |c| == CkLen(ckType) && AllPrintable(c)
  {
    if ckType == 3 then Check3(s) else [Check1(s)]
  }

  method ComputeBlockCheck(ckType: nat, bytes: seq<byte>, from: nat, to: nat) returns (c: seq<byte>)
    requires from <= to <= |bytes|
    ensures c == BlockCheck(ckType, bytes[from..to])
  {
    hide Check1, Check3;
    if ckType == 3 {
      c := ComputeCheck3(bytes, from, to);
    } else {
      var one := ComputeCheck1(bytes, from, to);
      c := [one];
    }
  }

  /** The three characters carry the CRC: four bits, six bits, six bits. */
  lemma {:induction false} Check3Carries(s: seq<byte>)
    ensures var c := Check3(s);
            |c| == 3 && UnChar(c[0]) < 16 && UnChar(c[1]) < 64 && UnChar(c[2]) < 64
            && Crc16(s) == 4096 * UnChar(c[0]) + 64 * UnChar(c[1]) + UnChar(c[2])
  {
    hide CrcFold, ToChar, UnChar;
    CrcFits(0, s);
    assert Crc16(s) == CrcFold(0, s);
    var x := Crc16(s);
    ThreeDigits(x);
    UnCharToChar(x / 4096 % 16);
    UnCharToChar(x / 64 % 64);
    UnCharToChar(x % 64);
  }

  lemma {:induction false} ThreeDigits(x: nat)
    requires x < 65536
    ensures x == 4096 * (x / 4096 % 16) + 64 * (x / 64 % 64) + x % 64
  {
    var a := x / 64;
    QuotientUnique(x, 4096, a / 64, 64 * (a % 64) + x % 64);
  }

  // ----- what the CRC detects ------------------------------------------------------

  /** The polynomial's top bit records the bit shifted out, so a step can be undone. */
  lemma {:induction false} CrcBitInjective(x: nat, y: nat)
    requires x < 65536 && y < 65536 && CrcBit(x) == CrcBit(y)
    ensures x == y
  {
    TopBit(x / 2);
    TopBit(y / 2);
    if x % 2 == 1 && y % 2 == 1 {
      XorTwice(x / 2, POLY);
      XorTwice(y / 2, POLY);
    }
  }

  lemma {:induction false} TopBit(h: nat)
    requires h < 32768
    ensures Xor(h, POLY) >= 32768
  {
    hide Xor;
    XorTwice(h, POLY);
    if Xor(h, POLY) < 32768 {
      // Both h and the masked value fit 15 bits, so the mask itself would too.
      var m := Xor(h, POLY);
      assert Pow2(15) == 32768;
      XorSym(h, POLY);
      XorTwice(POLY, h);
      assert Xor(m, h) == POLY;
      XorBound(m, h, 15);
    }
  }

  lemma {:induction false} CrcBitsInjective(x: nat, y: nat, n: nat)
    requires x < 65536 && y < 65536 && CrcBits(x, n) == CrcBits(y, n)
    ensures x == y
    decreases n
  {
    if n > 0 {
      CrcBitsFit(x, n - 1);
      CrcBitsFit(y, n - 1);
      CrcBitInjective(CrcBits(x, n - 1), CrcBits(y, n - 1));
      CrcBitsInjective(x, y, n - 1);
    }
  }

  lemma {:induction false} CrcFoldInjective(x: nat, y: nat, s: seq<byte>)
    requires x < 65536 && y < 65536 && CrcFold(x, s) == CrcFold(y, s)
    ensures x == y
    decreases |s|
  {
    if s != [] {
      var x', y' := Xor(x, s[0]), Xor(y, s[0]);
      XorFits(x, s[0]);
      XorFits(y, s[0]);
      CrcBitsFit(x', 8);
      CrcBitsFit(y', 8);
      CrcFoldInjective(CrcBits(x', 8), CrcBits(y', 8), s[1..]);
      CrcBitsInjective(x', y', 8);
      XorTwice(x, s[0]);
      XorTwice(y, s[0]);
    }
  }

  lemma {:induction false} CrcBitLinear(x: nat, y: nat)
    ensures CrcBit(Xor(x, y)) == Xor(CrcBit(x), CrcBit(y))
  {
    hide Xor;
    var h, g := x / 2, y / 2;
    assert Xor(x, y) / 2 == Xor(h, g) && Xor(x, y) % 2 == (x % 2 + y % 2) % 2 by { XorHalf(x, y); }
    if x % 2 == 1 && y % 2 == 1 {
      XorCommonMask(h, g, POLY);
    } else if x % 2 == 1 {
      XorSwap(h, g, POLY);
    } else if y % 2 == 1 {
      XorAssoc(h, g, POLY);
    }
  }

  lemma {:induction false} CrcBitsLinear(x: nat, y: nat, n: nat)
    ensures CrcBits(Xor(x, y), n) == Xor(CrcBits(x, n), CrcBits(y, n))
    decreases n
  {
    hide Xor, CrcBit;
    if n > 0 {
      CrcBitsLinear(x, y, n - 1);
      CrcBitLinear(CrcBits(x, n - 1), CrcBits(y, n - 1));
    }
  }

  /** A register whose high n bits end up clear only ever shifted zeros out. */
  lemma {:induction false} ClearTopMeansShift(x: nat, n: nat)
    requires x < 65536 && n <= 16 && CrcBits(x, n) < Pow2(16 - n)
    ensures x == CrcBits(x, n) * Pow2(n)
    decreases n
  {
    if n > 0 {
      var c, r, p := CrcBits(x, n - 1), CrcBits(x, n), Pow2(n - 1);
      assert c < 65536 by { CrcBitsFit(x, n - 1); }
      assert r < 32768 by { Pow2AtMost(16 - n, 15); Pow2Fifteen(); }
      assert r == CrcBit(c);
      assert c == 2 * r by { TopBit(c / 2); }
      assert Pow2(16 - (n - 1)) == 2 * Pow2(16 - n);
      ClearTopMeansShift(x, n - 1);
      DoubleAcross(r, p);
    }
  }

  lemma {:induction false} Pow2Fifteen()
    ensures Pow2(15) == 32768
  {
    assert Pow2(5) == 32;
    assert Pow2(10) == 1024;
  }

  lemma {:induction false} DoubleAcross(r: nat, p: nat)
    ensures (2 * r) * p == r * (2 * p)
  {
  }

  lemma {:induction false} Pow2AtMost(m: nat, n: nat)
    requires m <= n
    ensures Pow2(m) <= Pow2(n)
    decreases n - m
  {
    if m < n { Pow2AtMost(m + 1, n); }
  }

  /** After one difference below 256, no byte can bring two registers back together. */
  lemma {:induction false} TwoBytesInjective(c: nat, a1: byte, a2: byte, b1: byte, b2: byte)
    requires c < 65536
    requires CrcFold(c, [a1, a2]) == CrcFold(c, [b1, b2])
    ensures a1 == b1 && a2 == b2
  {
    hide Xor, CrcBits;
    var p, q := Xor(c, a1), Xor(c, b1);
    var x, y := CrcBits(p, 8), CrcBits(q, 8);
    assert [a1, a2][1..] == [a2] && [b1, b2][1..] == [b2];
    assert [a2][1..] == [] && [b2][1..] == [];
    assert CrcFold(x, [a2]) == CrcFold(CrcBits(Xor(x, a2), 8), []);
    assert CrcFold(y, [b2]) == CrcFold(CrcBits(Xor(y, b2), 8), []);
    XorFits(c, a1);
    XorFits(c, b1);
    CrcBitsFit(p, 8);
    CrcBitsFit(q, 8);
    XorFits(x, a2);
    XorFits(y, b2);
    CrcBitsInjective(Xor(x, a2), Xor(y, b2), 8);
    // x ^ y == a2 ^ b2 is a byte, and it is the image of p ^ q == a1 ^ b1.
    XorDifference(x, a2, y, b2);
    XorSym(c, a1);
    XorSym(c, b1);
    XorCommonMask(a1, b1, c);
    CrcBitsLinear(p, q, 8);
    OnlyZeroClearsTheTop(a1, b1, a2, b2);
    XorCancel(x, a2, b2);
  }

  lemma {:induction false} OnlyZeroClearsTheTop(a1: byte, b1: byte, a2: byte, b2: byte)
    requires CrcBits(Xor(a1, b1), 8) == Xor(a2, b2)
    ensures a1 == b1
  {
    hide Xor, CrcBits;
    XorFits(a1, b1);
    XorFits(a2, b2);
    assert Pow2(8) == 256;
    ClearTopMeansShift(Xor(a1, b1), 8);
    XorZeroMeansEqual(a1, b1);
  }

  /**
   * Any change confined to one byte or to two adjacent bytes changes the CRC, whatever
   * surrounds it and however long the frame is, and so changes the check characters.
   */
  lemma {:induction false} CrcDetectsTwoAdjacentBytes(pre: seq<byte>, a: seq<byte>, b: seq<byte>, post: seq<byte>)
    requires |a| == |b| <= 2 && a != b
    ensures Crc16(pre + a + post) != Crc16(pre + b + post)
    ensures Check3(pre + a + post) != Check3(pre + b + post)
  {
    hide CrcBits, Check3;
    var c := Crc16(pre);
    CrcFits(0, pre);
    CrcAppend(0, pre + a, post);
    CrcAppend(0, pre + b, post);
    CrcAppend(0, pre, a);
    CrcAppend(0, pre, b);
    CrcFits(c, a);
    CrcFits(c, b);
    if CrcFold(c, a) == CrcFold(c, b) {
      if |a| == 2 {
        assert a == [a[0], a[1]] && b == [b[0], b[1]];
        TwoBytesInjective(c, a[0], a[1], b[0], b[1]);
      } else {
        assert a == [a[0]] && b == [b[0]];
        CrcAppend(c, a, [0]);
        CrcAppend(c, b, [0]);
        assert a + [0] == [a[0], 0] && b + [0] == [b[0], 0];
        TwoBytesInjective(c, a[0], 0, b[0], 0);
      }
      assert false;
    }
    if Crc16(pre + a + post) == Crc16(pre + b + post) {
      CrcFoldInjective(CrcFold(c, a), CrcFold(c, b), post);
    }
    Check3Injective(pre + a + post, pre + b + post);
  }

  /** The three check characters determine the CRC. */
  lemma {:induction false} Check3Injective(u: seq<byte>, v: seq<byte>)
    requires Crc16(u) != Crc16(v)
    ensures Check3(u) != Check3(v)
  {
    var x, y := Crc16(u), Crc16(v);
    CrcFits(0, u);
    CrcFits(0, v);
    if Check3(u) == Check3(v) {
      assert Check3(u)[0] == Check3(v)[0] && Check3(u)[1] == Check3(v)[1] && Check3(u)[2] == Check3(v)[2];
      ToCharInjective((x / 4096) % 16, (y / 4096) % 16);
      ToCharInjective((x / 64) % 64, (y / 64) % 64);
      ToCharInjective(x % 64, y % 64);
      SameDigits(x, y);
    }
  }

  lemma {:induction false} ToCharInjective(a: nat, b: nat)
    requires a < 64 && b < 64 && ToChar(a) == ToChar(b)
    ensures a == b
  {
  }

  lemma {:induction false} SameDigits(x: nat, y: nat)
    requires x < 65536 && y < 65536
    requires (x / 4096) % 16 == (y / 4096) % 16 && (x / 64) % 64 == (y / 64) % 64 && x % 64 == y % 64
    ensures x == y
  {
    SixBits(x);
    SixBits(y);
  }

  /** A 16-bit value is its 4-bit top and two 6-bit digits. */
  lemma {:induction false} SixBits(x: nat)
    requires x < 65536
    ensures (x / 4096) % 16 == x / 4096
    ensures x == (x / 4096) * 4096 + ((x / 64) % 64) * 64 + x % 64
  {
    assert (x / 64) / 64 == x / 4096;
  }
}
