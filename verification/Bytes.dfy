/** Bytes as integers, and the bit operations the sources apply to them. */
module Bytes {

  type byte = x: int | 0 <= x < 256

  datatype Option<+T> = None | Some(value: T)

  function Pow2(n: nat): (p: nat)
    ensures p >= 1
  {
    if n == 0 then 1 else 2 * Pow2(n - 1)
  }

  function Min(a: int, b: int): int { if a < b then a else b }

  function Max(a: int, b: int): int { if a < b then b else a }

  /** Bitwise exclusive or of two naturals. */
  function Xor(a: nat, b: nat): nat
  {
    if a == 0 && b == 0 then 0
    else (a % 2 + b % 2) % 2 + 2 * Xor(a / 2, b / 2)
  }

  lemma {:induction false} XorSym(a: nat, b: nat)
    ensures Xor(a, b) == Xor(b, a)
  {
    if a != 0 || b != 0 { XorSym(a / 2, b / 2); }
  }

  lemma {:induction false} XorZero(a: nat)
    ensures Xor(a, 0) == a && Xor(0, a) == a
  {
    if a != 0 { XorZero(a / 2); }
  }

  lemma {:induction false} XorHalf(a: nat, b: nat)
    ensures Xor(a, b) / 2 == Xor(a / 2, b / 2)
    ensures Xor(a, b) % 2 == (a % 2 + b % 2) % 2
  {
  }

  /** Adding a parity bit twice cancels; adding three in either order agrees. */
  lemma {:induction false} ParityLaws(p: nat, q: nat, r: nat)
    ensures ((p % 2 + q % 2) % 2 + q % 2) % 2 == p % 2
    ensures ((p % 2 + q % 2) % 2 + r % 2) % 2 == (p % 2 + (q % 2 + r % 2) % 2) % 2
  {
  }

  /** Two naturals with equal halves and equal parity are equal. */
  lemma {:induction false} SameBits(x: nat, y: nat)
    requires x / 2 == y / 2 && x % 2 == y % 2
    ensures x == y
  {
  }

  /** Applying the same mask twice gives the original back. */
  lemma {:induction false} XorTwice(a: nat, b: nat)
    ensures Xor(Xor(a, b), b) == a
  {
    if a == 0 && b == 0 { return; }
    var m := Xor(a, b);
    var x := Xor(m, b);
    assert m / 2 == Xor(a / 2, b / 2) && m % 2 == (a % 2 + b % 2) % 2 by { XorHalf(a, b); }
    assert x / 2 == Xor(m / 2, b / 2) && x % 2 == (m % 2 + b % 2) % 2 by { XorHalf(m, b); }
    XorTwice(a / 2, b / 2);
    ParityLaws(a, b, 0);
    SameBits(x, a);
  }

  lemma {:induction false} XorThreeLeft(a: nat, b: nat, c: nat)
    ensures Xor(Xor(a, b), c) / 2 == Xor(Xor(a / 2, b / 2), c / 2)
    ensures Xor(Xor(a, b), c) % 2 == ((a % 2 + b % 2) % 2 + c % 2) % 2
  {
    hide Xor;
    XorHalf(Xor(a, b), c);
    XorHalf(a, b);
  }

  lemma {:induction false} XorThreeRight(a: nat, b: nat, c: nat)
    ensures Xor(a, Xor(b, c)) / 2 == Xor(a / 2, Xor(b / 2, c / 2))
    ensures Xor(a, Xor(b, c)) % 2 == (a % 2 + (b % 2 + c % 2) % 2) % 2
  {
    hide Xor;
    XorHalf(a, Xor(b, c));
    XorHalf(b, c);
  }

  lemma {:induction false} XorAssoc(a: nat, b: nat, c: nat)
    ensures Xor(Xor(a, b), c) == Xor(a, Xor(b, c))
    decreases a + b + c
  {
    if a + b + c > 0 {
      XorAssoc(a / 2, b / 2, c / 2);
      XorThreeLeft(a, b, c);
      XorThreeRight(a, b, c);
      ParityLaws(a, b, c);
      SameBits(Xor(Xor(a, b), c), Xor(a, Xor(b, c)));
    }
  }

  lemma {:induction false} XorBound(a: nat, b: nat, n: nat)
    requires a < Pow2(n) && b < Pow2(n)
    ensures Xor(a, b) < Pow2(n)
  {
    if n > 0 { XorBound(a / 2, b / 2, n - 1); }
  }

  lemma {:induction false} XorSwap(a: nat, b: nat, c: nat)
    ensures Xor(Xor(a, b), c) == Xor(Xor(a, c), b)
  {
    calc {
      Xor(Xor(a, b), c);
      { XorAssoc(a, b, c); }
      Xor(a, Xor(b, c));
      { XorSym(b, c); }
      Xor(a, Xor(c, b));
      { XorAssoc(a, c, b); }
      Xor(Xor(a, c), b);
    }
  }

  /** A mask applied to both operands cancels out. */
  lemma {:induction false} XorCommonMask(a: nat, b: nat, m: nat)
    ensures Xor(Xor(a, m), Xor(b, m)) == Xor(a, b)
  {
    calc {
      Xor(Xor(a, m), Xor(b, m));
      { XorSwap(a, m, Xor(b, m)); }
      Xor(Xor(a, Xor(b, m)), m);
      { XorAssoc(a, b, m); }
      Xor(Xor(Xor(a, b), m), m);
      { XorTwice(Xor(a, b), m); }
      Xor(a, b);
    }
  }

  /** Equal masked values differ by the difference of the masks. */
  lemma {:induction false} XorDifference(x: nat, a: nat, y: nat, b: nat)
    requires Xor(x, a) == Xor(y, b)
    ensures Xor(x, y) == Xor(a, b)
  {
    calc {
      Xor(x, y);
      { XorTwice(x, a); }
      Xor(Xor(Xor(y, b), a), y);
      { XorAssoc(y, b, a); }
      Xor(Xor(y, Xor(b, a)), y);
      { XorSym(y, Xor(b, a)); }
      Xor(Xor(Xor(b, a), y), y);
      { XorTwice(Xor(b, a), y); XorSym(b, a); }
      Xor(a, b);
    }
  }

  lemma {:induction false} XorZeroMeansEqual(a: nat, b: nat)
    requires Xor(a, b) == 0
    ensures a == b
  {
    XorTwice(a, b);
    XorZero(b);
  }

  /** Exclusive or cancels on the left. */
  lemma {:induction false} XorCancel(c: nat, a: nat, b: nat)
    requires Xor(c, a) == Xor(c, b)
    ensures a == b
  {
    XorSym(c, a);
    XorSym(c, b);
    XorTwice(a, c);
    XorTwice(b, c);
  }

  /** A masked byte stays a byte, a masked 16-bit word stays one. */
  lemma {:induction false} XorFits(a: nat, b: nat)
    ensures a < 256 && b < 256 ==> Xor(a, b) < 256
    ensures a < 65536 && b < 65536 ==> Xor(a, b) < 65536
  {
    assert Pow2(8) == 256 && Pow2(16) == 65536;
    if a < 256 && b < 256 { XorBound(a, b, 8); }
    if a < 65536 && b < 65536 { XorBound(a, b, 16); }
  }

  /** The bit of weight w flipped. */
  function Toggle(a: nat, w: nat): nat
    requires w > 0
  {
    if (a / w) % 2 == 1 then (if a >= w then a - w else 0) else a + w
  }

  lemma {:induction false} QuotientUnique(a: int, d: int, q: int, r: int)
    requires d > 0 && a == q * d + r && 0 <= r < d
    ensures a / d == q
  {
    var e := a / d - q;
    assert e * d == r - a % d;
    MultipleOutside(e, d);
  }

  lemma {:induction false} MultipleOutside(e: int, d: int)
    requires d > 0
    ensures e >= 1 ==> e * d >= d
    ensures e <= -1 ==> e * d <= -d
  {
  }

  lemma {:induction false} HalfQuotient(a: nat, w: nat)
    requires w > 0
    ensures a / (2 * w) == (a / 2) / w
  {
    var q, r := (a / 2) / w, (a / 2) % w;
    assert a / 2 == q * w + r;
    assert a == q * (2 * w) + (2 * r + a % 2) by {
      assert q * (2 * w) == 2 * (q * w);
    }
    QuotientUnique(a, 2 * w, q, 2 * r + a % 2);
  }

  lemma {:induction false} HalfToggle(a: nat, w: nat)
    requires w > 0
    ensures Toggle(a, 2 * w) == a % 2 + 2 * Toggle(a / 2, w)
  {
    HalfQuotient(a, w);
    QuotientLarge(a / 2, w);
  }

  lemma {:induction false} QuotientLarge(a: nat, w: nat)
    requires w > 0
    ensures a / w > 0 <==> a >= w
  {
  }

  /** A one-bit mask flips that bit. */
  lemma {:induction false} XorBitK(a: nat, k: nat)
    ensures Xor(a, Pow2(k)) == Toggle(a, Pow2(k))
  {
    hide Xor, Toggle;
    XorHalf(a, Pow2(k));
    if k == 0 {
      assert Pow2(0) == 1;
      XorZero(a / 2);
      ToggleOne(a);
      SameBits(Xor(a, 1), Toggle(a, 1));
    } else {
      XorBitK(a / 2, k - 1);
      HalfToggle(a, Pow2(k - 1));
      SameBits(Xor(a, Pow2(k)), Toggle(a, Pow2(k)));
    }
  }

  lemma {:induction false} ToggleOne(a: nat)
    ensures Toggle(a, 1) / 2 == a / 2 && Toggle(a, 1) % 2 == (a + 1) % 2
  {
  }

  lemma {:induction false} XorTwoBits(a: nat, b: nat, k: nat)
    ensures Xor(a, Xor(b, Pow2(k))) == Toggle(Xor(a, b), Pow2(k))
  {
    hide Xor;
    XorAssoc(a, b, Pow2(k));
    XorBitK(Xor(a, b), k);
  }

  // ----- rounding down keeps order --------------------------------------------------------

  lemma {:induction false} MulMonotone(a: nat, b: nat, c: nat)
    requires a <= b
    ensures a * c <= b * c
  {
  }

  lemma {:induction false} CancelFactor(p: nat, q: nat, d: nat)
    requires p * d < q * d + d
    ensures p <= q
  {
    if p >= q + 1 { MulMonotone(q + 1, p, d); }
  }

  lemma {:induction false} DivMonotone(a: nat, b: nat, d: nat)
    requires a <= b && d > 0
    ensures a / d <= b / d
  {
    var p, q := a / d, b / d;
    assert a == p * d + a % d && b == q * d + b % d;
    CancelFactor(p, q, d);
  }

  /** a * b / d in exact arithmetic. */
  function Scale(a: nat, b: nat, d: nat): nat
    requires d > 0
  {
    a * b / d
  }

  lemma {:induction false} ScaleMonotone(a: nat, b: nat, x: nat, y: nat, d: nat)
    requires a <= b && x <= y && d > 0
    ensures Scale(a, x, d) <= Scale(b, y, d)
  {
    MulMonotone(a, b, x);
    MulMonotone(x, y, b);
    assert b * x == x * b && b * y == y * b;
    DivMonotone(a * x, b * y, d);
  }

  lemma {:induction false} Reassociate<T>(a: seq<T>, b: seq<T>, c: seq<T>)
    ensures (a + b) + c == a + (b + c)
    ensures a == [] && b == [] ==> a + c == c
    ensures (a + b) + [] == a + (b + [])
  {
  }
}
