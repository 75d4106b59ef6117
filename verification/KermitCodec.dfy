/** Kermit data encoding: control, 8th-bit and repeat-count prefixing. */
module KermitCodec {
  import opened Bytes
  import opened KermitChecks

  const QCTL: byte := 0x23
  const MAX_RUN: nat := 94

  /** Prefix characters in use; 0 means "not used" (for `qctl`: the default). */
  datatype Prefixes = Prefixes(qbin: byte, rept: byte, qctl: byte)

  /** Bit 6 toggled. */
  function Ctl(c: byte): (r: byte)
    ensures r != c && (r == c + 64 || r == c - 64)
  {
    if (c / 64) % 2 == 1 then c - 64 else c + 64
  }

  predicate Control7(a7: int) { a7 < 32 || a7 == 127 }

  predicate IsPrefix(a7: int, q: Prefixes)
  {
    a7 == QCTL as int || (q.qbin != 0 && a7 == q.qbin) || (q.rept != 0 && a7 == q.rept)
  }

  function EncodeByte(b: byte, q: Prefixes): (unit: seq<byte>)
    ensures 1 <= |unit| <= if q.qbin != 0 then 3 else 2
  {
    var high := q.qbin != 0 && b >= 128;
    var pre := if high then [q.qbin] else [];
    var c: byte := if high then b - 128 else b;
    var a7 := c % 128;
    if Control7(a7) then pre + [QCTL, Ctl(c)]
    else if IsPrefix(a7, q) then pre + [QCTL, c]
    else pre + [c]
  }

  /** Length of the run of equal bytes at i, `run` of them known, at most 94. */
  function RunFrom(src: seq<byte>, i: nat, run: nat): (r: nat)
    requires 1 <= run <= MAX_RUN && i + run <= |src|
    requires forall k :: i <= k < i + run ==> src[k] == src[i]
    ensures run <= r <= MAX_RUN && i + r <= |src|
    ensures forall k :: i <= k < i + r ==> src[k] == src[i]
    ensures r < MAX_RUN && i + r < |src| ==> src[i + r] != src[i]
    decreases MAX_RUN - run
  {
    if i + run < |src| && src[i + run] == src[i] && run < MAX_RUN then RunFrom(src, i, run + 1) else run
  }

  datatype Piece = Piece(bytes: seq<byte>, run: nat)

  function PieceAt(src: seq<byte>, i: nat, q: Prefixes): (p: Piece)
    requires i < |src|
    ensures 1 <= p.run && i + p.run <= |src| && p.run <= MAX_RUN
    ensures forall k :: i <= k < i + p.run ==> src[k] == src[i]
    ensures 1 <= |p.bytes| <= MaxPiece(q)
  {
    var run := if q.rept != 0 then RunFrom(src, i, 1) else 1;
    var unit := EncodeByte(src[i], q);
    if q.rept != 0 && run >= 3 then Piece([q.rept, ToChar(run)] + unit, run) else Piece(unit, 1)
  }

  /** The longest encoding of one run under these prefixes. */
  function MaxPiece(q: Prefixes): nat
  {
    (if q.rept != 0 then 2 else 0) + (if q.qbin != 0 then 3 else 2)
  }

  datatype Chunk = Chunk(bytes: seq<byte>, next: nat)

  function EncodeChunk(src: seq<byte>, pos: nat, room: int, q: Prefixes): (c: Chunk)
    requires pos <= |src|
    ensures pos <= c.next <= |src|
    ensures c.bytes == [] || |c.bytes| <= room
    ensures c.next == pos ==> c.bytes == []
    decreases |src| - pos
  {
    if pos == |src| then Chunk([], pos)
    else
      var p := PieceAt(src, pos, q);
      if |p.bytes| > room then Chunk([], pos)
      else
        var c := EncodeChunk(src, pos + p.run, room - |p.bytes|, q);
        Chunk(p.bytes + c.bytes, c.next)
  }

  method ComputePiece(src: seq<byte>, i: nat, q: Prefixes) returns (piece: seq<byte>, run: nat)
    requires i < |src|
    ensures Piece(piece, run) == PieceAt(src, i, q)
  {
    hide EncodeByte;
    var b := src[i];
    run := 1;
    if q.rept != 0 {
      while i + run < |src| && src[i + run] == b && run < MAX_RUN
        invariant 1 <= run <= MAX_RUN && i + run <= |src|
        invariant forall k :: i <= k < i + run ==> src[k] == b
        invariant RunFrom(src, i, run) == RunFrom(src, i, 1)
      {
        run := run + 1;
      }
    }
    var unit := EncodeByte(b, q);
    if q.rept != 0 && run >= 3 {
      piece := [q.rept, ToChar(run)] + unit;
    } else {
      run := 1;
      piece := unit;
    }
  }

  method ComputeChunk(src: seq<byte>, pos: nat, maxData: int, q: Prefixes) returns (out: seq<byte>, i: nat)
    requires pos <= |src|
    ensures Chunk(out, i) == EncodeChunk(src, pos, maxData, q)
  {
    hide PieceAt, MaxPiece;
    out := [];
    i := pos;
    while i < |src|
      invariant pos <= i <= |src|
      invariant out == [] || |out| <= maxData
      invariant EncodeChunk(src, pos, maxData, q) ==
                var c := EncodeChunk(src, i, maxData - |out|, q); Chunk(out + c.bytes, c.next)
    {
      var piece, run := ComputePiece(src, i, q);
      if |out| + |piece| > maxData { break; }
      assert PieceAt(src, i, q) == Piece(piece, run);
      ghost var c := EncodeChunk(src, i + run, maxData - |out| - |piece|, q);
      assert out + (piece + c.bytes) == (out + piece) + c.bytes;
      out := out + piece;
      i := i + run;
    }
    assert EncodeChunk(src, i, maxData - |out|, q) == Chunk([], i);
  }

  // ----- decoding ---------------------------------------------------------------------

  /** An index past the end reads as 0: it matches no prefix and adds no bits. */
  function At(s: seq<byte>, i: nat): byte { if i < |s| then s[i] else 0 }

  function QctlOf(q: Prefixes): byte { if q.qctl != 0 then q.qctl else QCTL }

  /** One decoded unit: `n` copies of `c`, taken from the first `used` bytes. */
  datatype Unit = Unit(n: nat, c: byte, used: nat)

  /** The 8th-bit and control prefixes, from position i on, with c already read. */
  function DecodeChar(s: seq<byte>, c: byte, i: nat, q: Prefixes): (r: (byte, nat))
    ensures r.1 >= i
  {
    var high := q.qbin != 0 && c == q.qbin && i < |s|;
    var (c1, i1) := if high then (s[i], i + 1) else (c, i);
    var (c2, i2) :=
      if c1 == QctlOf(q) && i1 < |s| then
        var x := s[i1];
        var a7 := x % 128;
        (if 64 <= a7 <= 95 || a7 == 63 then Ctl(x) else x, i1 + 1)
      else (c1, i1);
    (if high && c2 < 128 then c2 + 128 else c2, i2)
  }

  function DecodeUnit(s: seq<byte>, q: Prefixes): (u: Unit)
    requires s != []
    ensures u.used >= 1
  {
    if q.rept != 0 && s[0] == q.rept && 1 < |s| then
      var (c, i) := DecodeChar(s, At(s, 2), 3, q);
      Unit(UnChar(s[1]), c, i)
    else
      var (c, i) := DecodeChar(s, s[0], 1, q);
      Unit(1, c, i)
  }

  function Copies(n: nat, c: byte): (s: seq<byte>)
    ensures |s| == n && forall k :: 0 <= k < n ==> s[k] == c
  {
    seq(n, _ => c)
  }

  function Decode(s: seq<byte>, q: Prefixes): (r: seq<byte>)
  {
    if s == [] then []
    else
      var u := DecodeUnit(s, q);
      Copies(u.n, u.c) + Decode(s[Min(u.used, |s|)..], q)
  }

  /** One round of the decoder's loop: reads a unit at `start`. */
  method ComputeUnit(data: seq<byte>, start: nat, q: Prefixes) returns (n: nat, c: byte, i: nat)
    requires start < |data|
    ensures i > start && DecodeUnit(data[start..], q) == Unit(n, c, i - start)
  {
    ghost var s := data[start..];
    i := start;
    n := 1;
    c := data[i];
    i := i + 1;
    if q.rept != 0 && c == q.rept && i < |data| {
      n := UnChar(data[i]);
      c := At(data, i + 1);
      i := i + 2;
      assert c == At(s, 2) && n == UnChar(s[1]);
    }
    ghost var d := DecodeChar(s, c, i - start, q);
    var high := 0;
    if q.qbin != 0 && c == q.qbin && i < |data| {
      high := 128;
      c := data[i];
      assert c == s[i - start];
      i := i + 1;
    }
    if c == QctlOf(q) && i < |data| {
      c := data[i];
      assert c == s[i - start];
      i := i + 1;
      var a7 := c % 128;
      if 64 <= a7 <= 95 || a7 == 63 { c := Ctl(c); }
    }
    if high == 128 && c < 128 { c := c + 128; }
    assert d == (c, i - start);
  }

  method PushCopies(before: seq<byte>, n: nat, c: byte) returns (out: seq<byte>)
    ensures out == before + Copies(n, c)
  {
    out := before;
    var k := 0;
    while k < n
      invariant 0 <= k <= n && out == before + Copies(k, c)
    {
      out := out + [c];
      k := k + 1;
    }
  }

  method ComputeDecode(data: seq<byte>, q: Prefixes) returns (out: seq<byte>)
    ensures out == Decode(data, q)
  {
    hide DecodeUnit;
    out := [];
    var i: nat := 0;
    assert data[0..] == data;
    while i < |data|
      invariant out + Decode(data[Min(i, |data|)..], q) == Decode(data, q)
    {
      ghost var s := data[i..];
      ghost var start := i;
      var n, c;
      n, c, i := ComputeUnit(data, i, q);
      ghost var rest := data[Min(i, |data|)..];
      assert Decode(s, q) == Copies(n, c) + Decode(rest, q) by {
        assert s[Min(i - start, |s|)..] == rest;
      }
      assert out + (Copies(n, c) + Decode(rest, q)) == (out + Copies(n, c)) + Decode(rest, q);
      out := PushCopies(out, n, c);
    }
    assert data[Min(i, |data|)..] == [];
  }

  // ----- what negotiation can produce, and when decoding undoes encoding ----------------

  predicate PrefixChar(c: byte) { 33 <= c <= 62 || 96 <= c <= 126 }

  /** The prefixes negotiation can settle on: no more and, for some peer, each of them. */
  predicate Negotiable(q: Prefixes)
  {
    (q.qbin == 0 || PrefixChar(q.qbin)) && (q.rept == 0 || q.rept == 0x7e) && 33 <= q.qctl <= 126
  }

  /** Decoding looks for the '#' that encoding always writes, and the prefixes differ. */
  predicate Distinct(q: Prefixes)
  {
    q.qctl == QCTL && q.qbin != QCTL && (q.qbin == 0 || q.qbin != q.rept)
  }

  /** Data cut short: a last prefix stands for itself, and a count without its byte repeats zeros. */
  lemma {:induction false} CutData(c: byte, n: byte, q: Prefixes)
    requires Negotiable(q)
    ensures Decode([c], q) == [c]
    ensures q.rept != 0 ==> Decode([q.rept, n], q) == Copies(UnChar(n), 0)
  {
    hide UnChar, Ctl;
    assert Decode([], q) == [];
  }

  /** Reading an encoded byte back, whatever follows it. */
  lemma {:induction false} DecodeCharInverts(b: byte, q: Prefixes, s: seq<byte>, i: nat, rest: seq<byte>)
    requires Negotiable(q) && Distinct(q)
    requires 1 <= i && s[..Min(i - 1, |s|)] + EncodeByte(b, q) + rest == s && i - 1 <= |s|
    ensures i <= |s| && DecodeChar(s, s[i - 1], i, q) == (b, i - 1 + |EncodeByte(b, q)|)
  {
    var unit := EncodeByte(b, q);
    assert forall k :: 0 <= k < |unit| ==> s[i - 1 + k] == unit[k];
  }

  lemma {:induction false} PlainStartsApart(b: byte, q: Prefixes)
    requires Negotiable(q) && Distinct(q)
    ensures q.rept != 0 ==> EncodeByte(b, q)[0] != q.rept
  {
  }

  lemma {:induction false} DecodeUnitInverts(src: seq<byte>, i: nat, q: Prefixes, rest: seq<byte>)
    requires Negotiable(q) && Distinct(q) && i < |src|
    ensures var p := PieceAt(src, i, q); DecodeUnit(p.bytes + rest, q) == Unit(p.run, src[i], |p.bytes|)
  {
    hide EncodeByte, DecodeChar;
    var p := PieceAt(src, i, q);
    var unit := EncodeByte(src[i], q);
    var s := p.bytes + rest;
    PlainStartsApart(src[i], q);
    if p.bytes == unit && p.run == 1 {
      assert s[..0] + unit + rest == s;
      DecodeCharInverts(src[i], q, s, 1, rest);
    } else {
      assert s[..2] + unit + rest == s;
      DecodeCharInverts(src[i], q, s, 3, rest);
      UnCharToChar(p.run);
    }
  }

  /** Decoding a chunk gives back exactly the source bytes the chunk covers. */
  lemma {:induction false} ChunkRoundTrip(src: seq<byte>, pos: nat, room: int, q: Prefixes)
    requires pos <= |src| && Negotiable(q) && Distinct(q)
    ensures var c := EncodeChunk(src, pos, room, q); Decode(c.bytes, q) == src[pos..c.next]
    decreases |src| - pos
  {
    hide DecodeUnit, EncodeByte, PieceAt;
    if pos < |src| {
      var p := PieceAt(src, pos, q);
      if |p.bytes| <= room {
        var c := EncodeChunk(src, pos + p.run, room - |p.bytes|, q);
        var s := p.bytes + c.bytes;
        ChunkRoundTrip(src, pos + p.run, room - |p.bytes|, q);
        DecodeUnitInverts(src, pos, q, c.bytes);
        assert s[|p.bytes|..] == c.bytes;
        assert Copies(p.run, src[pos]) == src[pos..pos + p.run];
        assert src[pos..c.next] == src[pos..pos + p.run] + src[pos + p.run..c.next];
      }
    }
  }

  predicate RoundTrips(src: seq<byte>, room: int, q: Prefixes)
  {
    var c := EncodeChunk(src, 0, room, q);
    Decode(c.bytes, q) == src[..c.next]
  }

  /**
   * Negotiation keeps the 8th-bit prefix apart from neither '#' nor '~', and decodes with
   * the peer's control prefix where encoding writes '#'. The codec is lossless for every
   * source and packet size exactly when the three are distinct and the control prefix is '#'.
   */
  lemma {:induction false} CodecLosslessIffDistinct(q: Prefixes)
    requires Negotiable(q)
    ensures Distinct(q) <==> forall src: seq<byte>, room: int :: RoundTrips(src, room, q)
  {
    if Distinct(q) {
      forall src: seq<byte>, room: int
        ensures RoundTrips(src, room, q)
      {
        ChunkRoundTrip(src, 0, room, q);
        assert src[0..EncodeChunk(src, 0, room, q).next] == src[..EncodeChunk(src, 0, room, q).next];
      }
    } else if q.qctl != QCTL {
      OtherQctlLoses(q);
    } else if q.qbin == QCTL {
      QbinIsQctlLoses(q);
    } else {
      QbinIsReptLoses(q);
    }
  }

  /** With another control prefix to decode by, "#" comes back doubled or with its 8th bit set. */
  lemma {:induction false} OtherQctlLoses(q: Prefixes)
    requires Negotiable(q) && q.qctl != QCTL
    ensures !RoundTrips([0x23], 5, q)
  {
    assert PieceAt([0x23], 0, q) == Piece([QCTL, 0x23], 1);
    assert EncodeChunk([0x23], 1, 3, q) == Chunk([], 1);
    assert EncodeChunk([0x23], 0, 5, q) == Chunk([QCTL, 0x23], 1);
    assert [0x23 as byte][..1] == [0x23];
    var s: seq<byte> := [0x23, 0x23];
    if q.qbin == QCTL {
      assert DecodeUnit(s, q) == Unit(1, 0x23 + 128, 2);
      assert Decode(s, q)[0] == 0x23 + 128;
    } else {
      assert DecodeUnit(s, q) == Unit(1, 0x23, 1);
      assert DecodeUnit(s[1..], q) == Unit(1, 0x23, 1);
      assert |Decode(s, q)| >= 2;
    }
  }

  /** With '#' as 8th-bit prefix too, "#" comes back as the byte 163. */
  lemma {:induction false} QbinIsQctlLoses(q: Prefixes)
    requires Negotiable(q) && q.qbin == q.qctl == QCTL
    ensures !RoundTrips([0x23], 5, q)
  {
    var p := PieceAt([0x23], 0, q);
    assert p == Piece([QCTL, 0x23], 1);
    assert EncodeChunk([0x23], 1, 3, q) == Chunk([], 1);
    assert EncodeChunk([0x23], 0, 5, q) == Chunk([QCTL, 0x23], 1);
    assert DecodeUnit([0x23, 0x23], q) == Unit(1, 0x23 + 128, 2);
    assert Decode([0x23, 0x23], q)[0] == 0x23 + 128;
    assert [0x23 as byte][..1][0] == 0x23;
  }

  /** With '~' for both, the byte 254 is read as a repeat count. */
  lemma {:induction false} QbinIsReptLoses(q: Prefixes)
    requires Negotiable(q) && q.qctl == QCTL && q.qbin == q.rept == 0x7e
    ensures !RoundTrips([0xfe], 5, q)
  {
    var p := PieceAt([0xfe], 0, q);
    assert p == Piece([0x7e, QCTL, 0x7e], 1);
    assert EncodeChunk([0xfe], 1, 2, q) == Chunk([], 1);
    assert EncodeChunk([0xfe], 0, 5, q) == Chunk([0x7e, QCTL, 0x7e], 1);
    assert DecodeUnit([0x7e, QCTL, 0x7e], q) == Unit(3, 0x7e, 3);
    assert |Decode([0x7e, QCTL, 0x7e], q)| >= 3;
  }

  /** No chunk holds a byte the parser would take for the sign of a cut frame. */
  lemma {:induction false} ChunkPrintable(src: seq<byte>, pos: nat, room: int, q: Prefixes)
    requires pos <= |src| && Negotiable(q)
    ensures AllPrintable(EncodeChunk(src, pos, room, q).bytes)
    decreases |src| - pos
  {
    hide PieceAt;
    if pos < |src| {
      var p := PieceAt(src, pos, q);
      PiecePrintable(src, pos, q);
      if |p.bytes| <= room { ChunkPrintable(src, pos + p.run, room - |p.bytes|, q); }
    }
  }

  lemma {:induction false} PiecePrintable(src: seq<byte>, i: nat, q: Prefixes)
    requires i < |src| && Negotiable(q)
    ensures AllPrintable(PieceAt(src, i, q).bytes)
  {
    hide EncodeByte;
    UnitPrintable(src[i], q);
  }

  lemma {:induction false} UnitPrintable(b: byte, q: Prefixes)
    requires Negotiable(q)
    ensures AllPrintable(EncodeByte(b, q))
  {
  }

  lemma {:induction false} ChunkAdvances(src: seq<byte>, pos: nat, room: int, q: Prefixes)
    requires pos < |src| && room >= MaxPiece(q)
    ensures EncodeChunk(src, pos, room, q).next > pos
  {
  }

  ghost predicate Advances(room: int, q: Prefixes)
  {
    forall src: seq<byte>, pos: nat :: pos < |src| ==> EncodeChunk(src, pos, room, q).next > pos
  }

  /** A packet size lets the sender get on with every file exactly when one piece fits. */
  lemma {:induction false} AdvancesIffPieceFits(room: int, q: Prefixes)
    ensures Advances(room, q) <==> room >= MaxPiece(q)
  {
    if room < MaxPiece(q) {
      // Three bytes that are control characters, and have the 8th bit when that costs one.
      var src: seq<byte> := [128, 128, 128];
      assert EncodeByte(128, q) == if q.qbin != 0 then [q.qbin, QCTL, 64] else [QCTL, 192];
      assert |PieceAt(src, 0, q).bytes| == MaxPiece(q);
      assert EncodeChunk(src, 0, room, q).next == 0;
    }
  }

  // ----- a whole file, chunk after chunk ------------------------------------------------

  /** The chunks `sendData` goes through from `pos` on. */
  function Chunks(src: seq<byte>, pos: nat, room: int, q: Prefixes): (cs: seq<Chunk>)
    requires pos <= |src| && room >= MaxPiece(q)
    ensures pos == |src| <==> cs == []
    ensures cs != [] ==> cs[|cs| - 1].next == |src|
    decreases |src| - pos
  {
    if pos == |src| then []
    else
      var c := EncodeChunk(src, pos, room, q);
      ChunkAdvances(src, pos, room, q);
      [c] + Chunks(src, c.next, room, q)
  }

  function DecodeAll(cs: seq<Chunk>, q: Prefixes): seq<byte>
  {
    if cs == [] then [] else Decode(cs[0].bytes, q) + DecodeAll(cs[1..], q)
  }

  /** Sending a file in chunks and decoding them one by one gives the file back. */
  lemma {:induction false} FileRoundTrip(src: seq<byte>, pos: nat, room: int, q: Prefixes)
    requires pos <= |src| && room >= MaxPiece(q) && Negotiable(q) && Distinct(q)
    ensures DecodeAll(Chunks(src, pos, room, q), q) == src[pos..]
    decreases |src| - pos
  {
    hide EncodeChunk, Decode;
    if pos < |src| {
      var c := EncodeChunk(src, pos, room, q);
      ChunkAdvances(src, pos, room, q);
      ChunkRoundTrip(src, pos, room, q);
      FileRoundTrip(src, c.next, room, q);
      var cs := Chunks(src, pos, room, q);
      assert cs[1..] == Chunks(src, c.next, room, q);
      assert src[pos..] == src[pos..c.next] + src[c.next..];
    }
  }
}
