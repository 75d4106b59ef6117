/** Lowering the MSS option of a TCP SYN in place, with an incremental checksum update. */
module ClampMss {
  import opened Bytes
  import opened IpPacket

  const TCP: byte := 6

  /** Length of the TCP header at index t of p. */
  function DataOffset(p: seq<byte>, t: nat): nat
    requires t + 12 < |p|
  {
    (p[t + 12] / 16) * 4
  }

  /** An unfragmented TCP SYN whose header fits the packet. */
  predicate IsSyn(p: seq<byte>)
  {
    && Ipv4Ok(p) && p[9] == TCP && Word(p, 6) % 0x2000 == 0
    && var t := Ihl(p);
       && t + 20 <= |p| && p[t + 13] / 2 % 2 == 1
       && 20 <= DataOffset(p, t) && t + DataOffset(p, t) <= |p|
  }

  /** The option scan from i: where the first well-formed MSS option starts. */
  function FindMss(opts: seq<byte>, i: nat): (r: Option<nat>)
    ensures r.Some? ==> i <= r.value && r.value + 4 <= |opts| && opts[r.value] == 2 && opts[r.value + 1] == 4
    decreases |opts| - i
  {
    if i >= |opts| || opts[i] == 0 then None
    else if opts[i] == 1 then FindMss(opts, i + 1)
    else if i + 1 >= |opts| then None
    else
      var l := opts[i + 1];
      if l < 2 || i + l > |opts| then None
      else if opts[i] == 2 && l == 4 then Some(i)
      else FindMss(opts, i + l)
  }

  function Options(p: seq<byte>): seq<byte>
    requires IsSyn(p)
  {
    p[Ihl(p) + 20..Ihl(p) + DataOffset(p, Ihl(p))]
  }

  /** Index in p of the MSS value that the scan finds. */
  function MssAt(p: seq<byte>): (r: Option<nat>)
    ensures r.Some? ==> IsSyn(p) && Ihl(p) + 22 <= r.value && r.value + 2 <= Ihl(p) + DataOffset(p, Ihl(p)) <= |p|
  {
    if !IsSyn(p) then None
    else
      match FindMss(Options(p), 0)
      case None => None
      case Some(k) => Some(Ihl(p) + 22 + k)
  }

  /** p with the word at i replaced. */
  function PutWord(p: seq<byte>, i: nat, w: nat): (q: seq<byte>)
    requires i + 1 < |p| && w < 65536
    ensures |q| == |p| && Word(q, i) == w
    ensures forall k :: 0 <= k < |p| && k != i && k != i + 1 ==> q[k] == p[k]
  {
    p[i := w / 256][i + 1 := w % 256]
  }

  /** RFC 1624 equation 3: HC' = ~(~HC + ~m + m'). */
  function UpdatedChecksum(ck: nat, was: nat, now: nat): (r: nat)
    requires ck < 65536 && was < 65536 && now < 65536
    ensures r < 65536
  {
    Complement(Fold(Complement(ck) + Complement(was) + now))
  }

  predicate NeedsClamp(p: seq<byte>, max: nat) { MssAt(p).Some? && Word(p, MssAt(p).value) > max }

  function Clamp(p: seq<byte>, max: nat): (q: seq<byte>)
    requires max < 65536
    ensures |q| == |p|
  {
    if !NeedsClamp(p, max) then p
    else
      var at, ck := MssAt(p).value, Ihl(p) + 16;
      PutWord(PutWord(p, at, max), ck, UpdatedChecksum(Word(p, ck), Word(p, at), max))
  }

  method PutWordAt(a: array<byte>, i: nat, w: nat)
    requires i + 1 < a.Length && w < 65536
    modifies a
    ensures a[..] == PutWord(old(a[..]), i, w)
  {
    a[i], a[i + 1] := w / 256, w % 256;
  }

  /** The option loop: from start, stopping at end. */
  method ScanOptions(a: array<byte>, start: nat, end: nat) returns (r: Option<nat>)
    requires start <= end <= a.Length
    ensures r == FindMss(a[start..end], 0)
  {
    ghost var opts := a[start..end];
    var i := start;
    while i < end
      invariant start <= i && FindMss(opts, i - start) == FindMss(opts, 0)
    {
      assert a[i] == opts[i - start];
      var kind := a[i];
      if kind == 0 { break; }
      if kind == 1 { i := i + 1; continue; }
      if i + 1 >= end { break; }
      assert a[i + 1] == opts[i + 1 - start];
      var l := a[i + 1];
      if l < 2 || i + l > end { break; }
      if kind == 2 && l == 4 { return Some(i - start); }
      i := i + l;
    }
    assert FindMss(opts, i - start).None?;
    return None;
  }

  /** Overwrites the MSS value and updates the checksum. */
  method Rewrite(a: array<byte>, at: nat, ckAt: nat, max: nat)
    requires max < 65536 && ckAt + 2 <= at && at + 2 <= a.Length
    modifies a
    ensures var p := old(a[..]);
            a[..] == PutWord(PutWord(p, at, max), ckAt, UpdatedChecksum(Word(p, ckAt), Word(p, at), max))
  {
    hide Fold;
    var was := a[at] as nat * 256 + a[at + 1] as nat;
    PutWordAt(a, at, max);
    var ck := a[ckAt] as nat * 256 + a[ckAt + 1] as nat;
    var sum := ComputeFold(Complement(ck) + Complement(was) + max);
    PutWordAt(a, ckAt, Complement(sum));
  }

  method ClampInPlace(a: array<byte>, max: nat) returns (changed: bool)
    requires max < 65536
    modifies a
    ensures a[..] == Clamp(old(a[..]), max)
    ensures changed == NeedsClamp(old(a[..]), max)
  {
    hide UpdatedChecksum, PutWord, FindMss;
    changed := IsSyn(a[..]);
    if !changed { return; }
    var t := (a[0] % 16) as nat * 4;
    var end := t + (a[t + 12] / 16) as nat * 4;
    var k := ScanOptions(a, t + 20, end);
    if k.None? { return false; }
    var at := t + 22 + k.value;
    if a[at] as nat * 256 + a[at + 1] as nat <= max { return false; }
    Rewrite(a, at, t + 16, max);
  }

  lemma {:induction false} ClampIdle(p: seq<byte>, max: nat)
    requires max < 65536 && !NeedsClamp(p, max)
    ensures Clamp(p, max) == p
  {
  }

  lemma {:induction false} ClampActs(p: seq<byte>, max: nat)
    requires max < 65536 && NeedsClamp(p, max)
    ensures var at, t := MssAt(p).value, Ihl(p);
            var ck := UpdatedChecksum(Word(p, t + 16), Word(p, at), max);
            var q := Clamp(p, max);
            && q == PutWord(PutWord(p, at, max), t + 16, ck)
            && Word(q, at) == max && Word(q, t + 16) == ck && SameBut(p, q, at, t + 16)
  {
    hide UpdatedChecksum, FindMss, IsSyn;
  }

  // ----- what it changes and what it leaves -------------------------------------------------------

  /** The scan reads nothing after the option it finds. */
  lemma {:induction false} ScanReadsPrefix(o: seq<byte>, q: seq<byte>, i: nat)
    requires |o| == |q| && FindMss(o, i).Some?
    requires forall k :: 0 <= k < FindMss(o, i).value + 2 ==> o[k] == q[k]
    ensures FindMss(q, i) == FindMss(o, i)
    decreases |o| - i
  {
    if o[i] == 1 {
      ScanReadsPrefix(o, q, i + 1);
    } else if !(o[i] == 2 && o[i + 1] == 4) {
      ScanReadsPrefix(o, q, i + o[i + 1]);
    }
  }

  /** The packets differ at most in the words at at and ck. */
  predicate SameBut(p: seq<byte>, q: seq<byte>, at: nat, ck: nat)
  {
    |q| == |p| && forall k :: 0 <= k < |p| && k != at && k != at + 1 && k != ck && k != ck + 1 ==> q[k] == p[k]
  }

  lemma {:induction false} SynKept(p: seq<byte>, q: seq<byte>, at: nat)
    requires IsSyn(p) && Ihl(p) + 22 <= at && SameBut(p, q, at, Ihl(p) + 16)
    ensures IsSyn(q) && Ihl(q) == Ihl(p) && DataOffset(q, Ihl(p)) == DataOffset(p, Ihl(p))
  {
    var t := Ihl(p);
    assert q[0] == p[0] && q[2] == p[2] && q[3] == p[3] && q[6] == p[6] && q[7] == p[7] && q[9] == p[9];
    assert q[t + 12] == p[t + 12] && q[t + 13] == p[t + 13];
  }

  lemma {:induction false} ScanKept(p: seq<byte>, q: seq<byte>, at: nat)
    requires MssAt(p) == Some(at) && SameBut(p, q, at, Ihl(p) + 16)
    ensures IsSyn(q) && Ihl(q) == Ihl(p) && MssAt(q) == Some(at)
  {
    SynKept(p, q, at);
    hide IsSyn, Ihl, DataOffset, FindMss;
    var t := Ihl(p);
    forall k | 0 <= k < at - t - 20
      ensures Options(p)[k] == Options(q)[k]
    {
      assert Options(p)[k] == p[t + 20 + k] && Options(q)[k] == q[t + 20 + k];
    }
    ScanReadsPrefix(Options(p), Options(q), 0);
  }

  /** Only the MSS value and the TCP checksum differ, and the scan still ends at the same option. */
  lemma {:induction false} ClampChangesFourBytes(p: seq<byte>, max: nat)
    requires max < 65536 && NeedsClamp(p, max)
    ensures var q, at := Clamp(p, max), MssAt(p).value;
            && |q| == |p| && IsSyn(q) && Ihl(q) == Ihl(p) && MssAt(q) == Some(at) && Word(q, at) == max
            && SameBut(p, q, at, Ihl(p) + 16)
  {
    ClampActs(p, max);
    hide Clamp, MssAt, IsSyn;
    ScanKept(p, Clamp(p, max), MssAt(p).value);
  }

  /**
   * For every packet: same length, same IP header, an IPv4 packet stays one, the MSS is
   * capped, a second pass does nothing.
   */
  lemma {:induction false} ClampKeepsRoute(p: seq<byte>, max: nat)
    requires max < 65536
    ensures var q := Clamp(p, max);
            && |q| == |p| && (Ipv4Ok(q) <==> Ipv4Ok(p))
            && (|p| >= 20 ==> q[..20] == p[..20])
            && MssAt(q) == MssAt(p)
            && (MssAt(q).Some? ==> Word(q, MssAt(q).value) <= max)
            && Clamp(q, max) == q
  {
    hide Clamp, MssAt, UpdatedChecksum, Fold;
    var q := Clamp(p, max);
    if NeedsClamp(p, max) {
      ClampChangesFourBytes(p, max);
      assert forall k :: 0 <= k < 20 ==> q[k] == p[k];
      ClampIdle(q, max);
    } else {
      ClampIdle(p, max);
    }
  }

  // ----- the TCP checksum ---------------------------------------------------------------------------

  /** One's-complement total of the pseudo-header and the segment. */
  function TcpSum(p: seq<byte>): (s: nat)
    requires IsSyn(p)
    ensures s > 0
  {
    Sum16(p[12..20]) + TCP as nat + (|p| - Ihl(p)) + Sum16(p[Ihl(p)..])
  }

  /** RFC 1071: a segment is intact when everything sums to all ones. */
  predicate ChecksumOk(p: seq<byte>)
    requires IsSyn(p)
  {
    Fold(TcpSum(p)) == 65535
  }

  lemma {:induction false} Sum16Update(s: seq<byte>, i: nat, b: byte)
    requires i < |s|
    ensures Sum16(s[i := b]) == Sum16(s) + (b - s[i]) * (if i % 2 == 0 then 256 else 1)
    decreases i
  {
    if i >= 2 {
      assert s[i := b][2..] == s[2..][i - 2 := b];
      Sum16Update(s[2..], i - 2, b);
    } else {
      assert |s| > 1 ==> s[i := b][2..] == s[2..];
    }
  }

  /** What replacing a word adds to the sum, by the parity of its index. */
  lemma {:induction false} Sum16PutWord(s: seq<byte>, i: nat, w: nat)
    requires i + 1 < |s| && w < 65536
    ensures i % 2 == 0 ==> Sum16(PutWord(s, i, w)) == Sum16(s) + w - Word(s, i)
    ensures i % 2 == 1 ==>
              Sum16(PutWord(s, i, w)) == Sum16(s) + (w / 256 - s[i]) + 256 * (w % 256 - s[i + 1])
  {
    hide Sum16;
    Sum16Update(s, i, w / 256);
    Sum16Update(s[i := w / 256], i + 1, w % 256);
  }

  /** High-byte and low-byte changes of the MSS value. */
  function Skew(p: seq<byte>, max: nat): int
    requires max < 65536 && NeedsClamp(p, max)
  {
    var at := MssAt(p).value;
    (max % 256 - p[at + 1]) - (max / 256 - p[at])
  }

  predicate Even(p: seq<byte>)
    requires MssAt(p).Some?
  {
    (MssAt(p).value - Ihl(p)) % 2 == 0
  }

  /** What the clamp adds to the segment's sum. */
  function Drift(p: seq<byte>, max: nat): int
    requires max < 65536 && NeedsClamp(p, max)
  {
    var at, ck := MssAt(p).value, Ihl(p) + 16;
    UpdatedChecksum(Word(p, ck), Word(p, at), max) - Word(p, ck) +
    if Even(p) then max - Word(p, at)
    else (max / 256 - p[at]) + 256 * (max % 256 - p[at + 1])
  }

  /** Rewriting words of a suffix is rewriting the suffix's words. */
  lemma {:induction false} SuffixRewrite(p: seq<byte>, t: nat, at: nat, w: nat, v: nat)
    requires t + 18 <= at && at + 2 <= |p| && w < 65536 && v < 65536
    ensures PutWord(PutWord(p, at, w), t + 16, v)[t..] == PutWord(PutWord(p[t..], at - t, w), 16, v)
    ensures forall k :: 0 <= k < t ==> PutWord(PutWord(p, at, w), t + 16, v)[k] == p[k]
  {
  }

  /** The sum after both rewrites of a segment. */
  lemma {:induction false} SegmentSum(s: seq<byte>, k: nat, w: nat, v: nat)
    requires 18 <= k && k + 2 <= |s| && w < 65536 && v < 65536
    ensures Sum16(PutWord(PutWord(s, k, w), 16, v)) ==
            Sum16(s) + v - Word(s, 16) +
            if k % 2 == 0 then w - Word(s, k) else (w / 256 - s[k]) + 256 * (w % 256 - s[k + 1])
  {
    hide Sum16;
    Sum16PutWord(s, k, w);
    Sum16PutWord(PutWord(s, k, w), 16, v);
  }

  /** The same for the whole sum, whose pseudo-header part does not change. */
  lemma {:induction false} RewrittenSum(p: seq<byte>, q: seq<byte>, t: nat, at: nat, w: nat, v: nat)
    requires t >= 20 && t + 18 <= at && at + 2 <= |p| && w < 65536 && v < 65536
    requires q == PutWord(PutWord(p, at, w), t + 16, v)
    ensures q[12..20] == p[12..20]
    ensures Sum16(q[t..]) ==
            Sum16(p[t..]) + v - Word(p, t + 16) +
            if (at - t) % 2 == 0 then w - Word(p, at) else (w / 256 - p[at]) + 256 * (w % 256 - p[at + 1])
  {
    SuffixRewrite(p, t, at, w, v);
    hide Sum16, PutWord;
    SegmentSum(p[t..], at - t, w, v);
  }

  lemma {:induction false} ClampShape(p: seq<byte>, max: nat)
    requires max < 65536 && NeedsClamp(p, max)
    ensures var q, at, t := Clamp(p, max), MssAt(p).value, Ihl(p);
            && IsSyn(p) && IsSyn(q) && |q| == |p| && Ihl(q) == t
            && t >= 20 && t + 22 <= at && at + 2 <= |p|
            && q == PutWord(PutWord(p, at, max), t + 16, UpdatedChecksum(Word(p, t + 16), Word(p, at), max))
  {
    ClampChangesFourBytes(p, max);
    ClampActs(p, max);
  }

  lemma {:induction false} TcpSumDrifts(p: seq<byte>, max: nat)
    requires max < 65536 && NeedsClamp(p, max)
    ensures IsSyn(Clamp(p, max))
    ensures TcpSum(Clamp(p, max)) == TcpSum(p) + Drift(p, max)
  {
    hide Sum16, UpdatedChecksum, PutWord, IsSyn, MssAt, Clamp, Ihl, Word;
    ClampShape(p, max);
    var at, t := MssAt(p).value, Ihl(p);
    RewrittenSum(p, Clamp(p, max), t, at, max, UpdatedChecksum(Word(p, t + 16), Word(p, at), max));
  }

  /** The incremental update cancels an aligned change modulo 65535. */
  lemma {:induction false} UpdateCancels(ck: nat, was: nat, now: nat)
    requires ck < 65536 && was < 65536 && now < 65536
    ensures (UpdatedChecksum(ck, was, now) - ck + now - was) % 65535 == 0
  {
    var x := Complement(ck) + Complement(was) + now;
    var f := Fold(x);
    assert f % 65535 == x % 65535;
    assert (x - f) % 65535 == 0;
    assert UpdatedChecksum(ck, was, now) - ck + now - was == (x - f) - 65535;
  }

  /** 255 * 257 is 65535: a skewed change vanishes exactly when the skew is a multiple of 257. */
  lemma {:induction false} SkewVanishes(skew: int)
    ensures (255 * skew) % 65535 == 0 <==> skew % 257 == 0
  {
    var q, r := skew / 257, skew % 257;
    assert 255 * skew == 65535 * q + 255 * r && 0 <= 255 * r < 65535;
    QuotientUnique(255 * skew, 65535, q, 255 * r);
  }

  lemma {:induction false} ResidueZero(a: int, b: int)
    requires a % 65535 == 0
    ensures b % 65535 == (a + b) % 65535
  {
  }

  /** The drift is a multiple of 65535 exactly for an even option offset or a vanishing skew. */
  lemma {:induction false} DriftVanishesIff(p: seq<byte>, max: nat)
    requires max < 65536 && NeedsClamp(p, max)
    ensures Drift(p, max) % 65535 == 0 <==> Even(p) || Skew(p, max) % 257 == 0
  {
    hide Fold, UpdatedChecksum, MssAt;
    var at, ck := MssAt(p).value, Ihl(p) + 16;
    var base := UpdatedChecksum(Word(p, ck), Word(p, at), max) - Word(p, ck) + max - Word(p, at);
    UpdateCancels(Word(p, ck), Word(p, at), max);
    if !Even(p) {
      var skew := Skew(p, max);
      assert Drift(p, max) == base + 255 * skew;
      ResidueZero(base, 255 * skew);
      SkewVanishes(skew);
    }
  }

  lemma {:induction false} OkMeansMultiple(p: seq<byte>)
    requires IsSyn(p)
    ensures ChecksumOk(p) <==> TcpSum(p) % 65535 == 0
  {
    hide Sum16;
    if TcpSum(p) % 65535 == 0 { MultipleOfOnes(Fold(TcpSum(p))); }
  }

  /** An intact segment stays intact exactly when its MSS option is aligned or the change is skew-free. */
  lemma {:induction false} ClampKeepsChecksumIff(p: seq<byte>, max: nat)
    requires max < 65536 && NeedsClamp(p, max)
    ensures IsSyn(Clamp(p, max))
    ensures ChecksumOk(p) ==> (ChecksumOk(Clamp(p, max)) <==> Even(p) || Skew(p, max) % 257 == 0)
    ensures Even(p) || Skew(p, max) % 257 == 0 ==> (ChecksumOk(p) <==> ChecksumOk(Clamp(p, max)))
  {
    hide TcpSum, Drift, Skew, Even, Clamp, ChecksumOk, MssAt;
    TcpSumDrifts(p, max);
    DriftVanishesIff(p, max);
    OkMeansMultiple(p);
    OkMeansMultiple(Clamp(p, max));
    if TcpSum(p) % 65535 == 0 { ResidueZero(TcpSum(p), Drift(p, max)); }
    if Drift(p, max) % 65535 == 0 { ResidueZero(Drift(p, max), TcpSum(p)); }
  }

  /** A SYN to 10.73.2.2 with options NOP, MSS 1460, end; TCP checksum field ck. */
  function NopThenMss(ck: nat): (p: seq<byte>)
    requires ck < 65536
  {
    [0x45, 0, 0, 48, 0, 0, 0, 0, 64, 6, 0, 0, 10, 73, 1, 1, 10, 73, 2, 2] +
    [0, 80, 0, 80, 0, 0, 0, 0, 0, 0, 0, 0, 0x70, 2, 0, 0] + Bytes2(ck) + [0, 0] +
    [1, 2, 4, 5, 180, 0, 0, 0]
  }

  lemma {:induction false} NopThenMssShape(ck: nat)
    requires ck < 65536
    ensures var p := NopThenMss(ck);
            && IsSyn(p) && Ihl(p) == 20 && MssAt(p) == Some(43) && |p| == 48
            && p[43] == 5 && p[44] == 180
  {
    var p := NopThenMss(ck);
    assert Options(p) == [1, 2, 4, 5, 180, 0, 0, 0];
    assert FindMss(Options(p), 0) == FindMss(Options(p), 1) == Some(1);
  }

  lemma {:induction false} NopThenMssSum(ck: nat)
    requires ck < 65536 && IsSyn(NopThenMss(ck)) && IsSyn(NopThenMss(0))
    ensures TcpSum(NopThenMss(ck)) == TcpSum(NopThenMss(0)) + ck
  {
    hide Sum16, IsSyn;
    var p, z := NopThenMss(ck), NopThenMss(0);
    assert p[12..20] == z[12..20];
    assert p[20..] == PutWord(z[20..], 16, ck);
    assert Word(z[20..], 16) == 0;
    Sum16PutWord(z[20..], 16, ck);
  }

  /** A NOP before the MSS option shifts it to an odd offset: this intact segment comes out broken. */
  lemma {:induction false} OddOffsetBreaksChecksum()
    ensures exists p :: NeedsClamp(p, 190) && ChecksumOk(p) && !ChecksumOk(Clamp(p, 190))
  {
    hide Sum16, Fold, TcpSum, Clamp, IsSyn, NopThenMss;
    NopThenMssShape(0);
    var ck := Complement(Fold(TcpSum(NopThenMss(0))));
    var p := NopThenMss(ck);
    NopThenMssShape(ck);
    NopThenMssSum(ck);
    ChecksumCompletes(TcpSum(NopThenMss(0)), ck);
    assert NeedsClamp(p, 190) && !Even(p) && Skew(p, 190) == 15;
    ClampKeepsChecksumIff(p, 190);
  }
}
