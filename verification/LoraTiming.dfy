/** Time on air and the worst-case time of one message, in exact arithmetic. */
module LoraTiming {
  import opened Bytes
  import opened LoraFrame
  import opened LoraRetry

  const WORD32: nat := 0x1_0000_0000
  const RETRY_GAP: nat := 10
  const BACKOFF_BASE: nat := 1000
  const ACK_LEN: nat := HEADER_LEN + 1
  const MAX_FRAME: nat := HEADER_LEN + MAX_PAYLOAD

  datatype Radio = Radio(sf: nat, bw: nat, cr4: nat)

  predicate ValidBandwidth(bw: nat)
  {
    bw in {7800, 10400, 15600, 20800, 31250, 41700, 62500, 125000, 250000, 500000}
  }

  /** What the configuration validator lets through. */
  predicate Valid(c: Radio) { 6 <= c.sf <= 12 && ValidBandwidth(c.bw) && 5 <= c.cr4 <= 8 }

  /** What the formula covers. */
  predicate Covered(c: Radio) { 6 <= c.sf <= 12 && c.bw > 0 && 5 <= c.cr4 <= 8 }

  /** Low-data-rate optimisation: a symbol lasts longer than 16 ms. */
  function LowRate(c: Radio): nat { if Pow2(c.sf) * 1000 > 16 * c.bw then 1 else 0 }

  function CeilDiv(x: nat, d: nat): (q: nat)
    requires d > 0
    ensures x <= q * d < x + d
  {
    (x + d - 1) / d
  }

  /** Coded payload symbols, in units of the coding rate. */
  function Blocks(c: Radio, len: nat): nat
    requires 6 <= c.sf <= 12
  {
    var num := 8 * len as int - 4 * c.sf + 28 + 16;
    if num > 0 then CeilDiv(num, 4 * (c.sf - 2 * LowRate(c))) else 0
  }

  /** Quarter symbols: preamble 12.25, header 8, payload. */
  function Quarters(c: Radio, len: nat): nat
    requires 6 <= c.sf <= 12
  {
    81 + 4 * (Blocks(c, len) * c.cr4)
  }

  function Airtime(c: Radio, len: nat): nat
  {
    if c.sf < 6 || c.sf > 12 || c.bw == 0 || c.cr4 < 5 || c.cr4 > 8 then 0
    else Scale(Quarters(c, len), Pow2(c.sf) * 1000, 4 * c.bw) + 1
  }

  function BackoffMax(dataAir: nat, ackAir: nat): nat { BACKOFF_BASE + 4 * (dataAir + ackAir) }

  function Backoff(rnd: nat, max: nat): (ms: nat)
    ensures RETRY_GAP <= ms && (max > 0 ==> ms < RETRY_GAP + max) && (max == 0 ==> ms == RETRY_GAP)
  {
    RETRY_GAP + if max == 0 then 0 else rnd % max
  }

  /** The bound the user interface is told. */
  function TxExpected(c: Radio, frameLen: nat, ackMs: nat): nat
  {
    if frameLen > MAX_FRAME then 0
    else
      var data, ack := Airtime(c, frameLen), Airtime(c, ACK_LEN);
      if data == 0 || ack == 0 then 0
      else (MAX_RETRIES + 1) * (data + ackMs + ack) + MAX_RETRIES * (RETRY_GAP + BackoffMax(data, ack))
  }

  // ----- monotone and small ------------------------------------------------------------------

  lemma {:induction false} CeilDivMonotone(x: nat, y: nat, d: nat)
    requires d > 0 && x <= y
    ensures CeilDiv(x, d) <= CeilDiv(y, d)
  {
    CancelFactor(CeilDiv(x, d), CeilDiv(y, d), d);
  }

  /** Rounded up: the exact time on air, in quarter symbols, lies in the last millisecond counted. */
  lemma {:induction false} AirtimeRoundsUp(c: Radio, len: nat)
    requires Covered(c)
    ensures var exact, ms := Quarters(c, len) * (Pow2(c.sf) * 1000), Airtime(c, len);
            ms > 0 && (ms - 1) * (4 * c.bw) <= exact < ms * (4 * c.bw)
  {
    hide Quarters, Pow2;
    var exact, d := Quarters(c, len) * (Pow2(c.sf) * 1000), 4 * c.bw;
    assert exact == (exact / d) * d + exact % d;
    assert (exact / d + 1) * d == (exact / d) * d + d;
  }

  /** n blocks of four symbols hold the payload's bits, header and CRC included; de is 1 for low data rates. */
  predicate Covers(sf: nat, de: nat, len: nat, n: nat) { 8 * len - 4 * sf + 44 <= n * (4 * (sf - 2 * de)) }

  predicate LeastBlocks(sf: nat, de: nat, len: nat, n: nat)
  {
    Covers(sf, de, len, n) && forall m: nat :: m < n ==> !Covers(sf, de, len, m)
  }

  lemma {:induction false} BlocksAreLeast(c: Radio, len: nat)
    requires 6 <= c.sf <= 12
    ensures LeastBlocks(c.sf, LowRate(c), len, Blocks(c, len))
  {
    hide Pow2;
    var d, n := 4 * (c.sf - 2 * LowRate(c)), Blocks(c, len);
    forall m: nat | m < n ensures !Covers(c.sf, LowRate(c), len, m) { MulMonotone(m, n - 1, d); }
  }

  lemma {:induction false} LeastIsUnique(sf: nat, de: nat, len: nat, n: nat, m: nat)
    requires LeastBlocks(sf, de, len, n) && LeastBlocks(sf, de, len, m)
    ensures n == m
  {
    hide Covers;
  }

  /**
   * The formula of the data sheet, with nothing of ours in it: an airtime is the time of 12.25
   * preamble, 8 header and n * cr4 payload symbols, rounded up to a millisecond that has begun.
   */
  lemma {:induction false} AirtimeExact(c: Radio, len: nat, de: nat, n: nat)
    requires Covered(c) && de == (if Pow2(c.sf) * 1000 > 16 * c.bw then 1 else 0) && LeastBlocks(c.sf, de, len, n)
    ensures var exact, ms := (81 + 4 * n * c.cr4) * Pow2(c.sf) * 1000, Airtime(c, len);
            (ms - 1) * (4 * c.bw) <= exact < ms * (4 * c.bw)
  {
    BlocksAreLeast(c, len);
    LeastIsUnique(c.sf, de, len, n, Blocks(c, len));
    AirtimeRoundsUp(c, len);
    hide Pow2, Airtime, Blocks, LeastBlocks;
    SameProduct(n, c.cr4, Pow2(c.sf));
  }

  lemma {:induction false} SameProduct(n: nat, cr: nat, w: nat)
    ensures (81 + 4 * (n * cr)) * (w * 1000) == (81 + 4 * n * cr) * w * 1000
  {
  }

  /** Whatever the payload there is such a number, so the formula always applies. */
  lemma {:induction false} LeastBlocksExist(c: Radio, len: nat) returns (n: nat)
    requires Covered(c)
    ensures LeastBlocks(c.sf, if Pow2(c.sf) * 1000 > 16 * c.bw then 1 else 0, len, n)
  {
    n := Blocks(c, len);
    BlocksAreLeast(c, len);
  }

  /** One more block costs as many symbols as the coding rate says, to the millisecond. */
  lemma {:induction false} OneMoreBlock(c: Radio, shorter: nat, longer: nat, de: nat, n: nat)
    requires Covered(c) && de == (if Pow2(c.sf) * 1000 > 16 * c.bw then 1 else 0)
    requires LeastBlocks(c.sf, de, shorter, n) && LeastBlocks(c.sf, de, longer, n + 1)
    ensures var more := Airtime(c, longer) - Airtime(c, shorter);
            (more - 1) * c.bw < c.cr4 * (Pow2(c.sf) * 1000) < (more + 1) * c.bw
  {
    AirtimeExact(c, shorter, de, n);
    AirtimeExact(c, longer, de, n + 1);
    hide Pow2, Airtime, LeastBlocks;
    BlockStep(c.bw, Airtime(c, shorter), Airtime(c, longer), n, c.cr4, Pow2(c.sf));
  }

  /** One step of the coding rate costs one symbol for each block. */
  lemma {:induction false} OneMoreRate(c: Radio, len: nat, de: nat, n: nat)
    requires Covered(c) && c.cr4 < 8 && de == (if Pow2(c.sf) * 1000 > 16 * c.bw then 1 else 0)
    requires LeastBlocks(c.sf, de, len, n)
    ensures var more := Airtime(c.(cr4 := c.cr4 + 1), len) - Airtime(c, len);
            (more - 1) * c.bw < n * (Pow2(c.sf) * 1000) < (more + 1) * c.bw
  {
    var d := c.(cr4 := c.cr4 + 1);
    AirtimeExact(c, len, de, n);
    AirtimeExact(d, len, de, n);
    hide Pow2, Airtime, LeastBlocks;
    RateStep(c.bw, Airtime(c, len), Airtime(d, len), n, c.cr4, Pow2(c.sf));
  }

  lemma {:induction false} BlockStep(bw: nat, s: nat, t: nat, n: nat, cr: nat, w: nat)
    requires (s - 1) * (4 * bw) <= (81 + 4 * n * cr) * w * 1000 < s * (4 * bw)
    requires (t - 1) * (4 * bw) <= (81 + 4 * (n + 1) * cr) * w * 1000 < t * (4 * bw)
    ensures (t - s - 1) * bw < cr * (w * 1000) < (t - s + 1) * bw
  {
    assert 81 + 4 * (n + 1) * cr == 81 + 4 * n * cr + 4 * cr;
    Difference(bw, s, t, 81 + 4 * n * cr, cr, w);
  }

  lemma {:induction false} RateStep(bw: nat, s: nat, t: nat, n: nat, cr: nat, w: nat)
    requires (s - 1) * (4 * bw) <= (81 + 4 * n * cr) * w * 1000 < s * (4 * bw)
    requires (t - 1) * (4 * bw) <= (81 + 4 * n * (cr + 1)) * w * 1000 < t * (4 * bw)
    ensures (t - s - 1) * bw < n * (w * 1000) < (t - s + 1) * bw
  {
    assert 81 + 4 * n * (cr + 1) == 81 + 4 * n * cr + 4 * n;
    Difference(bw, s, t, 81 + 4 * n * cr, n, w);
  }

  lemma {:induction false} Difference(bw: nat, s: nat, t: nat, q: nat, x: nat, w: nat)
    requires (s - 1) * (4 * bw) <= q * w * 1000 < s * (4 * bw)
    requires (t - 1) * (4 * bw) <= (q + 4 * x) * w * 1000 < t * (4 * bw)
    ensures (t - s - 1) * bw < x * (w * 1000) < (t - s + 1) * bw
  {
    var a, b, e := q * w * 1000, (q + 4 * x) * w * 1000, x * (w * 1000);
    assert b == a + 4 * e;
    assert (t - 1) * (4 * bw) == t * (4 * bw) - 4 * bw && (s - 1) * (4 * bw) == s * (4 * bw) - 4 * bw;
    assert (t - s - 1) * (4 * bw) == t * (4 * bw) - s * (4 * bw) - 4 * bw;
    assert (t - s + 1) * (4 * bw) == t * (4 * bw) - s * (4 * bw) + 4 * bw;
    assert (t - s - 1) * (4 * bw) == 4 * ((t - s - 1) * bw) && (t - s + 1) * (4 * bw) == 4 * ((t - s + 1) * bw);
  }

  /** The settings a board comes with, 120 bytes: 122 ms. An acknowledgement at the slowest ones: nearly 15 s. */
  lemma {:induction false} KnownAirtimes()
    ensures Airtime(Radio(8, 500000, 7), 120) == 122
    ensures Airtime(Radio(12, 7800, 8), 5) == 14835
  {
    Pow2Values();
    hide Pow2;
    assert Blocks(Radio(8, 500000, 7), 120) == 31;
    assert Blocks(Radio(12, 7800, 8), 5) == 1;
    hide Blocks;
  }

  lemma {:induction false} Pow2Values()
    ensures Pow2(6) == 64 && Pow2(7) == 128 && Pow2(8) == 256 && Pow2(9) == 512
    ensures Pow2(10) == 1024 && Pow2(11) == 2048 && Pow2(12) == 4096
  {
    assert Pow2(0) == 1 && Pow2(1) == 2 && Pow2(2) == 4 && Pow2(3) == 8 && Pow2(4) == 16 && Pow2(5) == 32;
  }

  /** A longer payload never takes less time. */
  lemma {:induction false} AirtimeMonotone(c: Radio, shorter: nat, longer: nat)
    requires shorter <= longer
    ensures Airtime(c, shorter) <= Airtime(c, longer)
  {
    if 6 <= c.sf <= 12 && c.bw > 0 && 5 <= c.cr4 <= 8 {
      BlocksMonotone(c, shorter, longer);
      MulMonotone(Blocks(c, shorter), Blocks(c, longer), c.cr4);
      ScaleMonotone(Quarters(c, shorter), Quarters(c, longer), Pow2(c.sf) * 1000, Pow2(c.sf) * 1000, 4 * c.bw);
    }
  }

  lemma {:induction false} BlocksMonotone(c: Radio, shorter: nat, longer: nat)
    requires shorter <= longer && 6 <= c.sf <= 12
    ensures Blocks(c, shorter) <= Blocks(c, longer)
  {
    hide CeilDiv;
    var num := 8 * shorter as int - 4 * c.sf + 28 + 16;
    if num > 0 { CeilDivMonotone(num, 8 * longer - 4 * c.sf + 28 + 16, 4 * (c.sf - 2 * LowRate(c))); }
  }

  lemma {:induction false} Pow2Between(n: nat)
    requires n <= 12
    ensures 1 <= Pow2(n) <= 4096
  {
    assert Pow2(0) == 1 && Pow2(1) == 2 && Pow2(2) == 4 && Pow2(3) == 8 && Pow2(4) == 16 && Pow2(5) == 32;
    assert Pow2(6) == 64 && Pow2(7) == 128 && Pow2(8) == 256 && Pow2(9) == 512;
    assert Pow2(10) == 1024 && Pow2(11) == 2048 && Pow2(12) == 4096;
  }

  /** Any valid configuration sends any frame within ten minutes. */
  lemma {:induction false} AirtimeBounded(c: Radio, len: nat)
    requires Valid(c) && len <= MAX_FRAME
    ensures 1 <= Airtime(c, len) <= 600_000
  {
    hide Quarters, Scale, Pow2;
    QuartersBounded(c, len);
    Pow2Between(c.sf);
    ScaleBounded(Quarters(c, len), Pow2(c.sf) * 1000, 4 * c.bw);
  }

  lemma {:induction false} QuartersBounded(c: Radio, len: nat)
    requires Valid(c) && len <= MAX_FRAME
    ensures Quarters(c, len) <= 4209
  {
    BlocksBounded(c, len);
    MulMonotone(Blocks(c, len), 129, c.cr4);
  }

  lemma {:induction false} ScaleBounded(a: nat, b: nat, d: nat)
    requires a <= 4209 && b <= 4_096_000 && d >= 31200
    ensures Scale(a, b, d) <= 599_999
  {
    MulMonotone(a, 4209, b);
    DivMonotone(a * b, 4209 * 4_096_000, d);
    BiggerDivisor(4209 * 4_096_000, 31200, d);
  }

  lemma {:induction false} BiggerDivisor(a: nat, d: nat, e: nat)
    requires 0 < d <= e
    ensures a / e <= a / d
  {
    var p, q := a / e, a / d;
    assert a == p * e + a % e && a == q * d + a % d;
    MulMonotone(d, e, p);
    CancelFactor(p, q, d);
  }

  lemma {:induction false} BlocksBounded(c: Radio, len: nat)
    requires 6 <= c.sf <= 12 && len <= MAX_FRAME
    ensures Blocks(c, len) <= 129
  {
    hide CeilDiv;
    var num := 8 * len as int - 4 * c.sf + 28 + 16;
    var d := 4 * (c.sf - 2 * LowRate(c));
    if num > 0 {
      var q := CeilDiv(num, d);
      assert num <= 2060 && d >= 16;
      CancelFactor(q, 129, d);
    }
  }

  /** The bound and every intermediate value of its computation fit an unsigned 32-bit word. */
  lemma {:induction false} TxExpectedFits(c: Radio, frameLen: nat, ackMs: nat)
    requires Valid(c) && ackMs <= 1_000_000_000
    ensures var data, ack := Airtime(c, frameLen), Airtime(c, ACK_LEN);
            frameLen <= MAX_FRAME ==>
              && 0 < data && 0 < ack && TxExpected(c, frameLen, ackMs) > 0
              && (MAX_RETRIES + 1) * (data + ackMs + ack) < WORD32 && 4 * (data + ack) < WORD32
              && MAX_RETRIES * (RETRY_GAP + BackoffMax(data, ack)) < WORD32
              && TxExpected(c, frameLen, ackMs) < WORD32
  {
    hide Airtime;
    if frameLen <= MAX_FRAME {
      AirtimeBounded(c, frameLen);
      AirtimeBounded(c, ACK_LEN);
    }
  }

  /** Unknown, that is 0, exactly for a configuration outside the formula's range or a frame too long for a packet. */
  lemma {:induction false} UnknownIsZero(c: Radio, frameLen: nat, ackMs: nat)
    ensures TxExpected(c, frameLen, ackMs) == 0 <==>
            c.sf < 6 || c.sf > 12 || c.bw == 0 || c.cr4 < 5 || c.cr4 > 8 || frameLen > 255
  {
    hide Quarters, Pow2;
  }

  // ----- every run of the sender's loop ---------------------------------------------------------

  /** An acknowledgement heard `at` ms after the transmission ended. */
  datatype Heard = Heard(at: nat, n: byte, value: byte)

  /** What the world does in one attempt. */
  datatype Attempt = Attempt(busy: bool, heard: seq<Heard>, rnd: nat)

  /** The first acknowledgement with number n among those heard in time, in the order heard. */
  function Verdict(heard: seq<Heard>, n: byte, timeout: nat, now: nat): Option<Heard>
    decreases |heard|
  {
    if heard == [] || !(now <= heard[0].at < timeout) then None
    else if heard[0].n == n then Some(heard[0])
    else Verdict(heard[1..], n, timeout, heard[0].at)
  }

  /** One attempt: how long it took, and whether it was the last one needed. */
  function Took(w: Attempt, n: byte, data: nat, timeout: nat): nat
  {
    var v := Verdict(w.heard, n, timeout, 0);
    if w.busy then 0 else if v.Some? then data + v.value.at else data + timeout
  }

  predicate Delivered(w: Attempt, n: byte, timeout: nat)
  {
    var v := Verdict(w.heard, n, timeout, 0);
    !w.busy && v.Some? && v.value.value == ACK_OK
  }

  /** What came of a message, how long it took, and how often it was transmitted. */
  datatype Course = Course(ok: bool, total: nat, transmissions: nat)

  /** The sender's loop from the k-th attempt on. */
  function CourseFrom(world: seq<Attempt>, k: nat, n: byte, data: nat, timeout: nat, max: nat): Course
    requires k < |world|
    decreases |world| - k
  {
    var w := world[k];
    var once := if w.busy then 0 else 1;
    if Delivered(w, n, timeout) then Course(true, Took(w, n, data, timeout), once)
    else if k + 1 == |world| then Course(false, Took(w, n, data, timeout), once)
    else
      var c := CourseFrom(world, k + 1, n, data, timeout, max);
      Course(c.ok, Took(w, n, data, timeout) + Backoff(w.rnd, max) + c.total, once + c.transmissions)
  }

  /** The course of a message under a configuration. */
  function CourseOf(c: Radio, frameLen: nat, n: byte, ackMs: nat, world: seq<Attempt>): Course
    requires world != []
  {
    var data, ack := Airtime(c, frameLen), Airtime(c, ACK_LEN);
    CourseFrom(world, 0, n, data, ackMs + ack, BackoffMax(data, ack))
  }

  lemma {:induction false} VerdictNext(heard: seq<Heard>, i: nat, n: byte, timeout: nat, now: nat)
    requires i < |heard|
    ensures Verdict(heard[i..], n, timeout, now) ==
            if !(now <= heard[i].at < timeout) then None
            else if heard[i].n == n then Some(heard[i]) else Verdict(heard[i + 1..], n, timeout, heard[i].at)
  {
    assert heard[i..][1..] == heard[i + 1..];
  }

  /** Waits for the acknowledgement of the current transmission; ms is how long it took. */
  method AwaitAck(t: TxRetry, heard: seq<Heard>, timeout: nat) returns (a: Action, ms: nat)
    requires !t.done
    modifies t
    ensures t.n == old(t.n)
    ensures var v := Verdict(heard, t.n, timeout, 0);
            && ms == (if v.Some? then v.value.at else timeout)
            && (a == Success <==> v.Some? && v.value.value == ACK_OK)
            && (a != Success ==> (t.Abs(), a) == NextOrFail(old(t.Abs())))
  {
    ms := 0;
    var i := 0;
    assert heard[0..] == heard;
    while i < |heard| && ms <= heard[i].at < timeout
      invariant i <= |heard| && t.Abs() == old(t.Abs())
      invariant Verdict(heard[i..], t.n, timeout, ms) == Verdict(heard, t.n, timeout, 0)
    {
      VerdictNext(heard, i, t.n, timeout, ms);
      ms := heard[i].at;
      a := t.AckArrived(heard[i].n, heard[i].value);
      if a != Wait { return; }
      i := i + 1;
    }
    if i < |heard| { VerdictNext(heard, i, t.n, timeout, ms); }
    ms := timeout;
    a := t.TimedOut();
  }

  /** The sender's loop for one message under a fixed configuration. */
  method SendWithRetry(c: Radio, frameLen: nat, n: byte, ackMs: nat, world: seq<Attempt>)
    returns (ok: bool, total: nat, transmissions: nat)
    requires |world| == MAX_RETRIES + 1
    ensures Course(ok, total, transmissions) == CourseOf(c, frameLen, n, ackMs, world)
  {
    hide Airtime, Verdict;
    var data, ack := Airtime(c, frameLen), Airtime(c, ACK_LEN);
    var timeout := ackMs + ack;
    var max := BackoffMax(data, ack);
    var t := new TxRetry();
    t.DoBegin(n);
    total, transmissions := 0, 0;
    while true
      invariant !t.done && t.n == n && 1 <= t.attempts <= MAX_RETRIES + 1
      invariant var rest := CourseFrom(world, t.attempts - 1, n, data, timeout, max);
                Course(rest.ok, total + rest.total, transmissions + rest.transmissions) ==
                CourseFrom(world, 0, n, data, timeout, max)
      decreases MAX_RETRIES + 1 - t.attempts
    {
      var w := world[t.attempts - 1];
      var a;
      if w.busy {
        a := t.TimedOut();
      } else {
        var ms;
        a, ms := AwaitAck(t, w.heard, timeout);
        total, transmissions := total + data + ms, transmissions + 1;
      }
      if a == Success { return true, total, transmissions; }
      if a == Fail { return false, total, transmissions; }
      total := total + Backoff(w.rnd, max);
    }
  }

  // ----- what the bound is worth -------------------------------------------------------------------

  lemma {:induction false} VerdictInTime(heard: seq<Heard>, n: byte, timeout: nat, now: nat)
    ensures var v := Verdict(heard, n, timeout, now); v.Some? ==> v.value in heard && v.value.n == n && v.value.at < timeout
    decreases |heard|
  {
    if heard != [] { VerdictInTime(heard[1..], n, timeout, heard[0].at); }
  }

  lemma {:induction false} CourseBound(world: seq<Attempt>, k: nat, n: byte, data: nat, timeout: nat, max: nat)
    requires k < |world|
    ensures var c, left := CourseFrom(world, k, n, data, timeout, max), |world| - k;
            && c.transmissions <= left && c.total <= left * (data + timeout) + (left - 1) * (RETRY_GAP + max)
    decreases |world| - k
  {
    hide Verdict, Delivered, Backoff, Took;
    var one, gap, left := data + timeout, RETRY_GAP + max, |world| - k;
    TookBound(world[k], n, data, timeout);
    var more := if k + 1 < |world| then CourseFrom(world, k + 1, n, data, timeout, max).total else 0;
    if k + 1 < |world| { CourseBound(world, k + 1, n, data, timeout, max); }
    OneMoreAttempt(left, one, gap, Took(world[k], n, data, timeout), Backoff(world[k].rnd, max), more);
  }

  lemma {:induction false} TookBound(w: Attempt, n: byte, data: nat, timeout: nat)
    ensures Took(w, n, data, timeout) <= data + timeout
  {
    VerdictInTime(w.heard, n, timeout, 0);
  }

  lemma {:induction false} OneMoreAttempt(left: nat, one: nat, gap: nat, took: nat, back: nat, more: nat)
    requires left > 0 && took <= one && back <= gap
    requires left > 1 ==> more <= (left - 1) * one + (left - 2) * gap
    ensures took <= left * one + (left - 1) * gap
    ensures left > 1 ==> took + back + more <= left * one + (left - 1) * gap
  {
    assert left * one == (left - 1) * one + one;
    if left > 1 { assert (left - 1) * gap == (left - 2) * gap + gap; }
  }

  /**
   * Whatever is heard and drawn, air time, waits and backoffs together never exceed the bound
   * the user interface is told, and there are at most four transmissions.
   */
  lemma {:induction false} CourseWithinBound(c: Radio, frameLen: nat, n: byte, ackMs: nat, world: seq<Attempt>)
    requires Valid(c) && frameLen <= MAX_FRAME && |world| == MAX_RETRIES + 1
    ensures CourseOf(c, frameLen, n, ackMs, world).total <= TxExpected(c, frameLen, ackMs)
    ensures CourseOf(c, frameLen, n, ackMs, world).transmissions <= 4
  {
    hide Airtime;
    AirtimeBounded(c, frameLen);
    AirtimeBounded(c, ACK_LEN);
    var data, ack := Airtime(c, frameLen), Airtime(c, ACK_LEN);
    CourseBound(world, 0, n, data, ackMs + ack, BackoffMax(data, ack));
  }

  /** Nothing is ever heard, and the longest backoff is drawn every time. */
  predicate Hopeless(world: seq<Attempt>, k: nat, max: nat)
    requires k <= |world|
  {
    max > 0 && forall i :: k <= i < |world| ==> !world[i].busy && world[i].heard == [] && world[i].rnd == max - 1
  }

  lemma {:induction false} HopelessCourse(world: seq<Attempt>, k: nat, n: byte, data: nat, timeout: nat, max: nat)
    requires k < |world| && Hopeless(world, k, max)
    ensures var c, left := CourseFrom(world, k, n, data, timeout, max), |world| - k;
            !c.ok && c.transmissions == left && c.total == left * (data + timeout) + (left - 1) * (RETRY_GAP + max - 1)
    decreases |world| - k
  {
    var one, gap, left := data + timeout, RETRY_GAP + max - 1, |world| - k;
    assert (max - 1) % max == max - 1 by { QuotientUnique(max - 1, max, 0, max - 1); }
    if k + 1 < |world| {
      HopelessCourse(world, k + 1, n, data, timeout, max);
      assert left * one == (left - 1) * one + one && (left - 1) * gap == (left - 2) * gap + gap;
    } else {
      assert left == 1;
    }
  }

  /** The bound is no higher than it has to be: the worst course stays three milliseconds below it. */
  lemma {:induction false} BoundIsTight(c: Radio, frameLen: nat, n: byte, ackMs: nat, world: seq<Attempt>)
    requires Valid(c) && frameLen <= MAX_FRAME && |world| == MAX_RETRIES + 1
    requires Hopeless(world, 0, 1000 + 4 * (Airtime(c, frameLen) + Airtime(c, 5)))
    ensures CourseOf(c, frameLen, n, ackMs, world).total == TxExpected(c, frameLen, ackMs) - 3
  {
    hide Airtime;
    AirtimeBounded(c, frameLen);
    AirtimeBounded(c, ACK_LEN);
    var data, ack := Airtime(c, frameLen), Airtime(c, ACK_LEN);
    HopelessCourse(world, 0, n, data, ackMs + ack, BackoffMax(data, ack));
  }

  /** A message is delivered exactly when in one of the attempts its acknowledgement is the first of its number heard in time. */
  lemma {:induction false} DeliveredIff(world: seq<Attempt>, k: nat, n: byte, data: nat, timeout: nat, max: nat)
    requires k < |world|
    ensures CourseFrom(world, k, n, data, timeout, max).ok <==> exists i :: k <= i < |world| && Delivered(world[i], n, timeout)
    decreases |world| - k
  {
    hide Delivered;
    if !Delivered(world[k], n, timeout) && k + 1 < |world| { DeliveredIff(world, k + 1, n, data, timeout, max); }
  }

  /** One acknowledgement, in time: delivered if it is the message's and positive. Late or foreign ones change nothing. */
  lemma {:induction false} OneHeard(w: Attempt, h: Heard, n: byte, data: nat, timeout: nat)
    requires w.heard == [h] && !w.busy
    ensures Delivered(w, n, timeout) <==> h.at < timeout && h.n == n && h.value == 1
    ensures Took(w, n, data, timeout) == if h.at < timeout && h.n == n then data + h.at else data + timeout
  {
    assert w.heard[1..] == [] && Verdict([], n, timeout, h.at) == None;
  }

  /** The backoff is the random number's remainder above a fixed gap of 10 ms. */
  lemma {:induction false} BackoffRange(rnd: nat, max: nat)
    ensures max > 0 && rnd < max ==> Backoff(rnd, max) == 10 + rnd
    ensures max > 0 ==> 10 <= Backoff(rnd, max) < 10 + max && Backoff(rnd + max, max) == Backoff(rnd, max)
    ensures max == 0 ==> Backoff(rnd, max) == 10
  {
    if max > 0 {
      var q, r := rnd / max, rnd % max;
      assert rnd == q * max + r && rnd + max == (q + 1) * max + r;
      QuotientUnique(rnd + max, max, q + 1, r);
      if rnd < max { QuotientUnique(rnd, max, 0, rnd); }
    }
  }

  /** A busy radio costs an attempt but no time on air: with nothing but busy attempts only the backoffs are waited. */
  lemma {:induction false} BusyCostsNothing(world: seq<Attempt>, k: nat, n: byte, data: nat, timeout: nat, max: nat)
    requires k < |world| && forall i :: k <= i < |world| ==> world[i].busy
    ensures var c := CourseFrom(world, k, n, data, timeout, max);
            !c.ok && c.transmissions == 0 && c.total == Backoffs(world, k, max)
    decreases |world| - k
  {
    if k + 1 < |world| { BusyCostsNothing(world, k + 1, n, data, timeout, max); }
  }

  function Backoffs(world: seq<Attempt>, k: nat, max: nat): nat
    requires k < |world|
    decreases |world| - k
  {
    if k + 1 == |world| then 0 else Backoff(world[k].rnd, max) + Backoffs(world, k + 1, max)
  }

  /** A delivered message stops: what the later attempts would have been plays no part. */
  lemma {:induction false} DeliveryStops(world: seq<Attempt>, other: seq<Attempt>, n: byte, data: nat, timeout: nat, max: nat)
    requires world != [] && other != [] && world[0] == other[0] && Delivered(world[0], n, timeout)
    ensures var c := CourseFrom(world, 0, n, data, timeout, max);
            c == CourseFrom(other, 0, n, data, timeout, max) && c.ok && c.transmissions == 1 && c.total == Took(world[0], n, data, timeout)
  {
    hide Verdict;
  }
}
