/** What the endpoints tell each other at the start: parameters and the file size. */
module KermitInit {
  import opened Bytes
  import opened KermitChecks
  import opened KermitPacket
  import opened KermitCodec

  const MAX_LONG: nat := 230
  const LORA_PAYLOAD: nat := 251
  const REPT: byte := 0x7e

  function TimeSeconds(timeoutMs: nat): (t: nat)
    ensures 1 <= t <= 94
  {
    Min(94, Max(1, (timeoutMs + 999) / 1000))
  }

  /** The data field of S and of its ACK. */
  function InitParams(timeoutMs: nat): (p: seq<byte>)
    ensures |p| == 13 && AllPrintable(p)
  {
    [ToChar(MAX_BASIC), ToChar(TimeSeconds(timeoutMs)), ToChar(0), Ctl(0), ToChar(EOL), QCTL, 0x59, 0x33, REPT,
     ToChar(2 + 8), ToChar(1), ToChar(MAX_LONG / 95), ToChar(MAX_LONG % 95)]
  }

  datatype Params = Params(maxl: nat, time: nat, eol: byte, qctl: byte, ckType: nat, qbin: byte, rept: byte,
                           long: bool, attr: bool)
  {
    function Prefixes(): Prefixes { KermitCodec.Prefixes(qbin, rept, qctl) }
  }

  function Bit(x: nat, weight: nat): bool
    requires weight > 0
  {
    (x / weight) % 2 == 1
  }

  /** Index of the last CAPAS byte: bit 0 announces another one. */
  function LastCapas(peer: seq<byte>, ci: nat): (r: nat)
    ensures r >= ci
    decreases |peer| - ci
  {
    if ci < |peer| && Bit(UnChar(peer[ci]), 1) then LastCapas(peer, ci + 1) else ci
  }

  function Field(peer: seq<byte>, i: nat): byte { if i < |peer| then peer[i] else 32 }

  function OrElse(x: nat, default: nat): nat { if x != 0 then x else default }

  /** Extended packet length, 500 when the peer says "long" without giving one. */
  function LongLength(peer: seq<byte>, after: nat): nat
  {
    if |peer| > after + 2 then UnChar(peer[after + 1]) * 95 + UnChar(peer[after + 2]) else 500
  }

  function Negotiate(peer: seq<byte>): (p: Params)
    ensures p.ckType == 1 || p.ckType == 3
    ensures p.maxl > 0 || p.long
    ensures p.rept == 0 || p.rept == REPT
    ensures p.qbin == 0 || PrefixChar(p.qbin)
    ensures 33 <= p.qctl <= 126
  {
    var capas := if |peer| > 9 then UnChar(peer[9]) else 0;
    var long := Bit(capas, 2);
    var qctl := if Field(peer, 5) == 32 then QCTL else Field(peer, 5);
    var qb := Field(peer, 6);
    Params(
      if long then LongLength(peer, LastCapas(peer, 9) + 1) else OrElse(UnChar(Field(peer, 0)), 80),
      OrElse(UnChar(Field(peer, 1)), 10),
      if UnChar(Field(peer, 4)) != 0 then UnChar(Field(peer, 4)) else EOL,
      if qctl < 33 || qctl > 126 then QCTL else qctl,
      if Field(peer, 7) == 0x33 then 3 else 1,
      if PrefixChar(qb) then qb else 0,
      if Field(peer, 8) == REPT then REPT else 0,
      long,
      Bit(capas, 8))
  }

  method ComputeNegotiate(peer: seq<byte>) returns (p: Params)
    ensures p == Negotiate(peer)
  {
    hide LastCapas;
    var qctl := if Field(peer, 5) == 32 then QCTL else Field(peer, 5);
    p := Params(OrElse(UnChar(Field(peer, 0)), 80), OrElse(UnChar(Field(peer, 1)), 10),
                if UnChar(Field(peer, 4)) != 0 then UnChar(Field(peer, 4)) else EOL, qctl, 1, 0, 0, false, false);
    var qb := Field(peer, 6);
    if PrefixChar(qb) { p := p.(qbin := qb); }
    if Field(peer, 7) == 0x33 { p := p.(ckType := 3); }
    if Field(peer, 8) == REPT { p := p.(rept := REPT); }
    var capas := if |peer| > 9 then UnChar(peer[9]) else 0;
    var ci := ComputeLastCapas(peer);
    var after := ci + 1;
    if Bit(capas, 2) { p := p.(long := true, maxl := LongLength(peer, after)); }
    if Bit(capas, 8) { p := p.(attr := true); }
    if p.qctl < 33 || p.qctl > 126 { p := p.(qctl := QCTL); }
  }

  method ComputeLastCapas(peer: seq<byte>) returns (ci: nat)
    ensures ci == LastCapas(peer, 9)
  {
    ci := 9;
    while ci < |peer| && Bit(UnChar(peer[ci]), 1)
      invariant LastCapas(peer, ci) == LastCapas(peer, 9)
      decreases |peer| - ci
    {
      ci := ci + 1;
    }
  }

  /** How many encoded data bytes fit one packet; negative when not even the header does. */
  function DataRoom(p: Params): int
  {
    var cl := CkLen(p.ckType);
    if p.long then Max(10, Min(p.maxl, MAX_LONG) - 5 - cl)
    else Min(p.maxl, MAX_BASIC) - 2 - cl
  }

  /** Two of our endpoints agree on CRC-16, repeat counts, long packets and attributes. */
  lemma {:induction false} NegotiateOurs(timeoutMs: nat)
    ensures Negotiate(InitParams(timeoutMs)) ==
            Params(MAX_LONG, TimeSeconds(timeoutMs), EOL, QCTL, 3, 0, REPT, true, true)
    ensures DataRoom(Negotiate(InitParams(timeoutMs))) == 222
    ensures var q := Negotiate(InitParams(timeoutMs)).Prefixes();
            q == Prefixes(0, REPT, QCTL) && Negotiable(q) && Distinct(q)
  {
    var p := InitParams(timeoutMs);
    UnCharToChar(TimeSeconds(timeoutMs));
    assert UnChar(p[9]) == 10 && UnChar(p[10]) == 1 && UnChar(p[11]) == 2 && UnChar(p[12]) == 40;
    assert LastCapas(p, 9) == 9;
    assert LongLength(p, 10) == 230;
  }

  /** A reply that asks for these prefixes, spelled out as far as the repeat prefix. */
  function Asking(q: Prefixes): seq<byte>
  {
    [126, 42, 32, 64, 45, q.qctl, if q.qbin == 0 then 78 else q.qbin, 49, if q.rept == 0 then 32 else q.rept]
  }

  /** The prefixes that some peer leads to are exactly the negotiable ones. */
  lemma {:induction false} NegotiableMeansReached(q: Prefixes)
    ensures Negotiable(q) <==> exists peer :: Negotiate(peer).Prefixes() == q
  {
    if Negotiable(q) {
      hide UnChar, LastCapas;
      assert Negotiate(Asking(q)).Prefixes() == q;
    }
  }

  /**
   * The codec is lossless with what a peer's reply settles exactly when the reply asks for
   * no control prefix but '#', not for '#' as 8th-bit prefix, and not for '~' as both others.
   */
  lemma {:induction false} PeerKeepsCodecLossless(peer: seq<byte>)
    ensures var qctl, qbin := Field(peer, 5), Field(peer, 6);
            (forall src: seq<byte>, room: int :: RoundTrips(src, room, Negotiate(peer).Prefixes())) <==>
            && (qctl < 33 || qctl > 126 || qctl == QCTL)
            && qbin != QCTL && !(qbin == REPT && Field(peer, 8) == REPT)
  {
    hide RoundTrips, UnChar, LastCapas;
    CodecLosslessIffDistinct(Negotiate(peer).Prefixes());
  }

  /** Three replies after which an end misreads itself: '#' for two prefixes, '~' for two, '$' for control. */
  lemma {:induction false} RepliesThatLose()
    ensures !RoundTrips([0x23], 5, Negotiate([126, 42, 32, 64, 45, 35, 35]).Prefixes())
    ensures !RoundTrips([0xfe], 5, Negotiate([126, 42, 32, 64, 45, 35, 126, 49, 126]).Prefixes())
    ensures !RoundTrips([0x23], 5, Negotiate([126, 42, 32, 64, 45, 36]).Prefixes())
  {
    hide RoundTrips, UnChar, LastCapas;
    QbinIsQctlLoses(Negotiate([126, 42, 32, 64, 45, 35, 35]).Prefixes());
    QbinIsReptLoses(Negotiate([126, 42, 32, 64, 45, 35, 126, 49, 126]).Prefixes());
    OtherQctlLoses(Negotiate([126, 42, 32, 64, 45, 36]).Prefixes());
  }

  /**
   * With any peer at all, the sender gets through every file exactly when long packets
   * were agreed or the peer's basic length leaves room for one piece.
   */
  lemma {:induction false} PeerAllowsProgress(peer: seq<byte>)
    ensures var p := Negotiate(peer);
            Advances(DataRoom(p), p.Prefixes()) <==>
            p.long || Min(p.maxl, MAX_BASIC) >= 2 + CkLen(p.ckType) + MaxPiece(p.Prefixes())
  {
    var p := Negotiate(peer);
    AdvancesIffPieceFits(DataRoom(p), p.Prefixes());
  }

  /** Every data packet travels as one LoRa frame. */
  lemma {:induction false} PacketFitsLoRa(p: Params, n: nat, typ: byte, data: seq<byte>)
    requires (p.ckType == 1 || p.ckType == 3) && |data| <= Max(0, DataRoom(p))
    ensures |Build(n, typ, data, p.ckType)| <= LORA_PAYLOAD
    ensures Printable(typ) && AllPrintable(data) ==> Sendable(typ, data, p.ckType)
  {
  }

  // ----- the attribute packet ---------------------------------------------------------

  function Digits(n: nat): (s: seq<byte>)
    ensures |s| >= 1 && forall i :: 0 <= i < |s| ==> IsDigit(s[i])
  {
    if n < 10 then [48 + n] else Digits(n / 10) + [48 + n % 10]
  }

  predicate IsDigit(c: byte) { 48 <= c <= 57 }

  predicate IsSpace(c: byte) { 9 <= c <= 13 || c == 32 || c == 160 }

  function DigitPrefix(s: seq<byte>): (k: nat)
    ensures k <= |s| && forall i :: 0 <= i < k ==> IsDigit(s[i])
  {
    if s == [] || !IsDigit(s[0]) then 0 else 1 + DigitPrefix(s[1..])
  }

  function DigitsValue(s: seq<byte>): nat
    requires forall i :: 0 <= i < |s| ==> IsDigit(s[i])
  {
    if s == [] then 0
    else
      assert IsDigit(s[|s| - 1]);
      10 * DigitsValue(s[..|s| - 1]) + (s[|s| - 1] - 48)
  }

  /** parseInt in base ten: leading blanks, a sign, then digits; None is "not a number". */
  function ParseInt(s: seq<byte>): Option<int>
  {
    if s == [] then None
    else if IsSpace(s[0]) then ParseInt(s[1..])
    else
      var signed := s[0] == 43 || s[0] == 45;
      var u := if signed then s[1..] else s;
      var k := DigitPrefix(u);
      if k == 0 then None
      else
        var v: int := DigitsValue(u[..k]);
        Some(if s[0] == 45 then 0 - v else v)
  }

  function AttrData(size: nat): seq<byte> { [0x31, ToChar(|Digits(size)|)] + Digits(size) }

  /** The exact size after the attributes in d, starting from what was known before. */
  function SizeFrom(d: seq<byte>, exact: Option<int>): Option<int>
    decreases |d|
  {
    if |d| < 2 then exact
    else
      var end := Min(2 + UnChar(d[1]), |d|);
      SizeFrom(d[end..], if d[0] == 0x31 then ParseInt(d[2..end]) else exact)
  }

  /** -1 stands for "no size given". */
  function ParseAttrs(d: seq<byte>, exactSize: int): int
  {
    var r := SizeFrom(d, Some(exactSize));
    if r.Some? then r.value else -1
  }

  method ComputeParseAttrs(d: seq<byte>, exactSize: int) returns (size: int)
    ensures size == ParseAttrs(d, exactSize)
  {
    var i := 0;
    var exact := Some(exactSize);
    assert d[0..] == d;
    while i + 1 < |d|
      invariant 0 <= i <= |d|
      invariant SizeFrom(d[i..], exact) == SizeFrom(d, Some(exactSize))
    {
      ghost var s := d[i..];
      var tag := d[i];
      var len := UnChar(d[i + 1]);
      var end := Min(i + 2 + len, |d|);
      assert s[2..end - i] == d[i + 2..end] && s[end - i..] == d[end..];
      if tag == 0x31 { exact := ParseInt(d[i + 2..end]); }
      i := end;
    }
    size := if exact.Some? then exact.value else -1;
  }

  lemma {:induction false} DigitsReadBack(n: nat)
    ensures DigitsValue(Digits(n)) == n
  {
    if n >= 10 {
      DigitsReadBack(n / 10);
      var s := Digits(n);
      assert s[..|s| - 1] == Digits(n / 10);
    }
  }

  lemma {:induction false} AllDigitsPrefix(s: seq<byte>)
    requires forall i :: 0 <= i < |s| ==> IsDigit(s[i])
    ensures DigitPrefix(s) == |s|
  {
    if s != [] { AllDigitsPrefix(s[1..]); }
  }

  lemma {:induction false} DigitsLength(n: nat, k: nat)
    requires k >= 1 && n < Pow10(k)
    ensures |Digits(n)| <= k
  {
    if n >= 10 { DigitsLength(n / 10, k - 1); }
  }

  function Pow10(k: nat): nat { if k == 0 then 1 else 10 * Pow10(k - 1) }

  /** The largest size JavaScript counts exactly. */
  const MAX_SAFE: nat := 9007199254740991

  /** The receiver reads back the size the sender announced. */
  lemma {:induction false} AttrRoundTrip(size: nat, before: int)
    requires size <= MAX_SAFE
    ensures ParseAttrs(AttrData(size), before) == size
    ensures AllPrintable(AttrData(size)) && |AttrData(size)| <= 18
  {
    hide ParseInt, DigitsValue, ToChar, UnChar;
    var s := Digits(size);
    DigitsLength16(size);
    UnCharToChar(|s|);
    assert ToChar(|s|) == |s| + 32 by { ToCharSmall(|s|); }
    var d := AttrData(size);
    assert d[2..|d|] == s && d[|d|..] == [];
    ParseDigits(size);
    assert SizeFrom(d, Some(before)) == SizeFrom([], Some(size));
  }

  lemma {:induction false} ToCharSmall(x: nat)
    requires x <= 94
    ensures ToChar(x) == x + 32
  {
  }

  lemma {:induction false} DigitsLength16(size: nat)
    requires size <= MAX_SAFE
    ensures |Digits(size)| <= 16
  {
    assert Pow10(8) == 100000000;
    assert Pow10(16) == 10000000000000000;
    DigitsLength(size, 16);
  }

  lemma {:induction false} ParseDigits(size: nat)
    ensures ParseInt(Digits(size)) == Some(size)
  {
    hide DigitsValue;
    var s := Digits(size);
    AllDigitsPrefix(s);
    DigitsReadBack(size);
    assert s[..|s|] == s;
  }
}
