/** SLIP framing (RFC 1055): the encoders and decoders of the board and of the PC. */
module Slip {
  import opened Bytes

  const END: byte := 0xC0
  const ESC: byte := 0xDB
  const ESC_END: byte := 0xDC
  const ESC_ESC: byte := 0xDD

  function Escape(b: byte): seq<byte>
  {
    if b == END then [ESC, ESC_END] else if b == ESC then [ESC, ESC_ESC] else [b]
  }

  function EscapeAll(p: seq<byte>): (s: seq<byte>)
    ensures |p| <= |s| <= 2 * |p|
  {
    if p == [] then [] else Escape(p[0]) + EscapeAll(p[1..])
  }

  function Encode(p: seq<byte>): seq<byte> { [END] + EscapeAll(p) + [END] }

  function EncodeAll(ps: seq<seq<byte>>): seq<byte>
  {
    if ps == [] then [] else Encode(ps[0]) + EncodeAll(ps[1..])
  }

  /** What a decoder remembers between bytes. */
  datatype State = State(buf: seq<byte>, esc: bool, bad: bool)

  const IDLE := State([], false, false)

  /** The frame an END would complete now. */
  function Pending(d: State): seq<seq<byte>>
  {
    if d.bad || d.esc || d.buf == [] then [] else [d.buf]
  }

  function Store(d: State, b: byte, max: nat): State
  {
    if |d.buf| >= max then d.(esc := false, bad := true) else State(d.buf + [b], false, false)
  }

  function Step(d: State, b: byte, max: nat): State
  {
    if b == END then IDLE
    else if d.bad then d
    else if d.esc then
      if b == ESC_END then Store(d, END, max)
      else if b == ESC_ESC then Store(d, ESC, max)
      else d.(esc := false, bad := true)
    else if b == ESC then d.(esc := true)
    else Store(d, b, max)
  }

  function Emitted(d: State, b: byte): seq<seq<byte>> { if b == END then Pending(d) else [] }

  function FeedState(d: State, s: seq<byte>, max: nat): State
    decreases |s|
  {
    if s == [] then d else FeedState(Step(d, s[0], max), s[1..], max)
  }

  /** The frames completed while s is fed to a decoder in state d. */
  function Frames(d: State, s: seq<byte>, max: nat): seq<seq<byte>>
    decreases |s|
  {
    if s == [] then [] else Emitted(d, s[0]) + Frames(Step(d, s[0], max), s[1..], max)
  }

  // ----- the four implementations ------------------------------------------------------------

  lemma {:induction false} EscapeAppend(p: seq<byte>, q: seq<byte>)
    ensures EscapeAll(p + q) == EscapeAll(p) + EscapeAll(q)
  {
    if p == [] {
      assert p + q == q;
    } else {
      assert (p + q)[1..] == p[1..] + q;
      EscapeAppend(p[1..], q);
    }
  }

  lemma {:induction false} EscapeNext(p: seq<byte>, i: nat)
    requires i < |p|
    ensures EscapeAll(p[..i + 1]) == EscapeAll(p[..i]) + Escape(p[i])
  {
    assert EscapeAll([p[i]]) == Escape(p[i]);
    EscapeAppend(p[..i], [p[i]]);
    assert p[..i + 1] == p[..i] + [p[i]];
  }

  lemma {:induction false} PrefixShorter(p: seq<byte>, i: nat)
    requires i <= |p|
    ensures |EscapeAll(p[..i])| <= |EscapeAll(p)|
  {
    EscapeAppend(p[..i], p[i..]);
    assert p == p[..i] + p[i..];
  }

  lemma {:induction false} EscapeNone()
    ensures EscapeAll([]) == []
  {
  }

  /** The PC's encoder. */
  method EncodeGo(p: seq<byte>) returns (out: seq<byte>)
    ensures out == Encode(p)
  {
    hide EscapeAll;
    out := [END];
    EscapeNone();
    assert p[..0] == [];
    for i := 0 to |p|
      invariant out == [END] + EscapeAll(p[..i])
    {
      EscapeNext(p, i);
      if p[i] == END { out := out + [ESC, ESC_END]; }
      else if p[i] == ESC { out := out + [ESC, ESC_ESC]; }
      else { out := out + [p[i]]; }
    }
    assert p[..|p|] == p;
    out := out + [END];
  }

  /** The board's encoder: writes nothing usable and returns 0 exactly when the frame exceeds cap. */
  method EncodeInto(p: seq<byte>, out: array<byte>, cap: nat) returns (n: nat)
    requires cap <= out.Length
    modifies out
    ensures n == if |Encode(p)| <= cap then |Encode(p)| else 0
    ensures n > 0 ==> out[..n] == Encode(p)
    ensures out[cap..] == old(out[cap..])
  {
    hide EscapeAll;
    EscapeNone();
    if cap < 2 { return 0; }
    var o := 1;
    out[0] := END;
    assert p[..0] == [];
    for i := 0 to |p|
      invariant 1 <= o <= cap - 1 && out[..o] == [END] + EscapeAll(p[..i])
      invariant out[cap..] == old(out[cap..])
    {
      EscapeNext(p, i);
      var esc := p[i] == END || p[i] == ESC;
      if o + (if esc then 2 else 1) > cap - 1 { PrefixShorter(p, i + 1); return 0; }
      ghost var before := out[..o];
      if esc {
        out[o], out[o + 1] := ESC, if p[i] == END then ESC_END else ESC_ESC;
        o := o + 2;
      } else {
        out[o] := p[i];
        o := o + 1;
      }
      assert out[..o] == before + Escape(p[i]);
    }
    assert p[..|p|] == p;
    out[o] := END;
    assert out[..o + 1] == out[..o] + [END];
    return o + 1;
  }

  /** The board's decoder: a fixed buffer, one byte per call. */
  class BoardDecoder {
    const buf: array<byte>
    var len: nat
    var esc: bool
    var bad: bool

    ghost predicate Valid()
      reads this
    {
      len <= buf.Length
    }

    ghost function Abs(): State
      reads this, buf
      requires Valid()
    {
      State(buf[..len], esc, bad)
    }

    constructor (cap: nat)
      ensures Valid() && fresh(buf) && buf.Length == cap && Abs() == IDLE
    {
      buf := new byte[cap];
      len, esc, bad := 0, false, false;
    }

    method Feed(c: byte) returns (n: nat)
      requires Valid()
      modifies this, buf
      ensures Valid() && Abs() == Step(old(Abs()), c, buf.Length)
      ensures n <= buf.Length && (if n == 0 then [] else [buf[..n]]) == Emitted(old(Abs()), c)
    {
      if c == END {
        n := if bad || esc then 0 else len;
        len, esc, bad := 0, false, false;
        return;
      }
      if bad { return 0; }
      var b := c;
      if esc {
        esc := false;
        if b == ESC_END { b := END; }
        else if b == ESC_ESC { b := ESC; }
        else { bad := true; return 0; }
      } else if b == ESC {
        esc := true;
        return 0;
      }
      if len >= buf.Length { bad := true; return 0; }
      buf[len] := b;
      len := len + 1;
      return 0;
    }

    method Reset()
      requires Valid()
      modifies this
      ensures Valid() && Abs() == IDLE
    {
      len, esc, bad := 0, false, false;
    }
  }

  lemma {:induction false} FeedNext(d: State, s: seq<byte>, i: nat, max: nat)
    requires i < |s|
    ensures FeedState(d, s[..i + 1], max) == Step(FeedState(d, s[..i], max), s[i], max)
    ensures Frames(d, s[..i + 1], max) == Frames(d, s[..i], max) + Emitted(FeedState(d, s[..i], max), s[i])
  {
    assert s[..i + 1] == s[..i] + [s[i]];
    FeedAppend(d, s[..i], [s[i]], max);
    assert FeedState(FeedState(d, s[..i], max), [s[i]], max) == Step(FeedState(d, s[..i], max), s[i], max);
  }

  /** The PC's decoder: a growing slice, a chunk per call. */
  class PcDecoder {
    var buf: seq<byte>
    const max: nat
    var esc: bool
    var bad: bool

    ghost function Abs(): State
      reads this
    {
      State(buf, esc, bad)
    }

    constructor (max: nat)
      ensures this.max == max && Abs() == IDLE
    {
      this.max := max;
      buf, esc, bad := [], false, false;
    }

    method Feed(chunk: seq<byte>) returns (frames: seq<seq<byte>>)
      modifies this
      ensures Abs() == FeedState(old(Abs()), chunk, max)
      ensures frames == Frames(old(Abs()), chunk, max)
    {
      frames := [];
      assert chunk[..0] == [];
      for i := 0 to |chunk|
        invariant Abs() == FeedState(old(Abs()), chunk[..i], max)
        invariant frames == Frames(old(Abs()), chunk[..i], max)
      {
        FeedNext(old(Abs()), chunk, i, max);
        var b := chunk[i];
        if b == END {
          if !bad && !esc && |buf| > 0 { frames := frames + [buf]; }
          buf, esc, bad := [], false, false;
          continue;
        }
        if bad { continue; }
        if esc {
          esc := false;
          if b == ESC_END { b := END; }
          else if b == ESC_ESC { b := ESC; }
          else { bad := true; continue; }
        } else if b == ESC {
          esc := true;
          continue;
        }
        if |buf| >= max { bad := true; continue; }
        buf := buf + [b];
      }
      assert chunk[..|chunk|] == chunk;
    }
  }

  // ----- chunking and round trips --------------------------------------------------------------

  /** Splitting a stream never changes what is decoded. */
  lemma {:induction false} FeedAppend(d: State, s: seq<byte>, t: seq<byte>, max: nat)
    ensures FeedState(d, s + t, max) == FeedState(FeedState(d, s, max), t, max)
    ensures Frames(d, s + t, max) == Frames(d, s, max) + Frames(FeedState(d, s, max), t, max)
    decreases |s|
  {
    if s == [] {
      assert s + t == t;
    } else {
      assert (s + t)[1..] == s[1..] + t;
      FeedAppend(Step(d, s[0], max), s[1..], t, max);
    }
  }

  /** Escaped bytes are stored unescaped, without completing anything, until the buffer is full. */
  lemma {:induction false} FeedBody(d: State, p: seq<byte>, max: nat)
    requires !d.esc
    ensures Frames(d, EscapeAll(p), max) == []
    ensures var e := FeedState(d, EscapeAll(p), max);
            if !d.bad && |d.buf| + |p| <= max then e == State(d.buf + p, false, false)
            else !e.esc && (e.bad || p == [])
    decreases |p|
  {
    if p == [] {
      NothingFed(d, max);
    } else {
      assert EscapeAll(p) == Escape(p[0]) + EscapeAll(p[1..]);
      hide EscapeAll, Escape, FeedState, Frames;
      UnitStored(d, p[0], max);
      var d1 := if d.bad then d else Store(d, p[0], max);
      FeedAfter(d, Escape(p[0]), d1, EscapeAll(p[1..]), max);
      FeedBody(d1, p[1..], max);
      ShiftOne(d.buf, p);
      if p[1..] == [] { NothingFed(d1, max); }
    }
  }

  lemma {:induction false} ShiftOne(a: seq<byte>, p: seq<byte>)
    requires p != []
    ensures (a + [p[0]]) + p[1..] == a + p
  {
  }

  /** Feeding on after a prefix that completed nothing. */
  lemma {:induction false} FeedAfter(d: State, u: seq<byte>, d1: State, rest: seq<byte>, max: nat)
    requires FeedState(d, u, max) == d1 && Frames(d, u, max) == []
    ensures FeedState(d, u + rest, max) == FeedState(d1, rest, max)
    ensures Frames(d, u + rest, max) == Frames(d1, rest, max)
  {
    FeedAppend(d, u, rest, max);
  }

  lemma {:induction false} NothingFed(d: State, max: nat)
    ensures EscapeAll([]) == [] && FeedState(d, [], max) == d && Frames(d, [], max) == []
  {
  }

  lemma {:induction false} UnitStored(d: State, b: byte, max: nat)
    requires !d.esc
    ensures FeedState(d, Escape(b), max) == if d.bad then d else Store(d, b, max)
    ensures Frames(d, Escape(b), max) == []
  {
    var u := Escape(b);
    var d1 := Step(d, u[0], max);
    if |u| == 2 {
      assert FeedState(d1, u[1..], max) == Step(d1, u[1], max);
      assert Frames(d1, u[1..], max) == [];
    } else {
      assert u[1..] == [];
    }
  }

  /** What a decoder of the given size makes of one encoding. */
  function Delivered(p: seq<byte>, max: nat): seq<seq<byte>> { if p != [] && |p| <= max then [p] else [] }

  /** From any state: what was pending comes out at the opening END, the frame itself at the closing one if it fits. */
  lemma {:induction false} EncodingDecodes(d: State, p: seq<byte>, max: nat)
    ensures FeedState(d, Encode(p), max) == IDLE
    ensures Frames(d, Encode(p), max) == Pending(d) + Delivered(p, max)
  {
    EndFed(d, max);
    var body := EscapeAll(p);
    var e := FeedState(IDLE, body, max);
    EndFed(e, max);
    hide EscapeAll, FeedState, Frames;
    FeedAppend(d, [END], body, max);
    FeedAppend(d, [END] + body, [END], max);
    FeedBody(IDLE, p, max);
    assert IDLE.buf + p == p;
    if p == [] { NothingFed(IDLE, max); }
  }

  lemma {:induction false} EndFed(d: State, max: nat)
    ensures FeedState(d, [END], max) == IDLE && Frames(d, [END], max) == Pending(d)
  {
    assert FeedState(IDLE, [], max) == IDLE && Frames(IDLE, [], max) == [];
  }

  function Fitting(ps: seq<seq<byte>>, max: nat): seq<seq<byte>>
  {
    if ps == [] then [] else Delivered(ps[0], max) + Fitting(ps[1..], max)
  }

  /** Back-to-back encodings come out as the list of the frames that fit. */
  lemma {:induction false} StreamDecodes(d: State, ps: seq<seq<byte>>, max: nat)
    requires ps != []
    ensures FeedState(d, EncodeAll(ps), max) == IDLE
    ensures Frames(d, EncodeAll(ps), max) == Pending(d) + Fitting(ps, max)
    decreases |ps|
  {
    Unfold(ps, max);
    EncodingDecodes(d, ps[0], max);
    hide Encode, EncodeAll, Fitting, Delivered, Pending, FeedState, Frames;
    FeedAppend(d, Encode(ps[0]), EncodeAll(ps[1..]), max);
    Reassociate(Pending(d), Delivered(ps[0], max), Fitting(ps[1..], max));
    if |ps| > 1 {
      StreamDecodes(IDLE, ps[1..], max);
    } else {
      NothingFed(IDLE, max);
    }
  }

  lemma {:induction false} Unfold(ps: seq<seq<byte>>, max: nat)
    requires ps != []
    ensures EncodeAll(ps) == Encode(ps[0]) + EncodeAll(ps[1..])
    ensures Fitting(ps, max) == Delivered(ps[0], max) + Fitting(ps[1..], max)
    ensures |ps| == 1 ==> EncodeAll(ps[1..]) == [] && Fitting(ps[1..], max) == []
    ensures Pending(IDLE) + Fitting(ps[1..], max) == Fitting(ps[1..], max)
  {
  }

  /** Whatever the stream, every completed frame is non-empty and fits. */
  lemma {:induction false} FramesFit(d: State, s: seq<byte>, max: nat)
    requires |d.buf| <= max
    ensures |FeedState(d, s, max).buf| <= max
    ensures forall f :: f in Frames(d, s, max) ==> 0 < |f| <= max
    decreases |s|
  {
    if s != [] { FramesFit(Step(d, s[0], max), s[1..], max); }
  }

  /** Nothing completes while no END comes, and a bad frame stays bad. */
  lemma {:induction false} BadStays(d: State, q: seq<byte>, max: nat)
    requires END !in q
    ensures Frames(d, q, max) == [] && (d.bad ==> FeedState(d, q, max) == d)
    decreases |q|
  {
    if q != [] {
      assert q[0] in q;
      BadStays(Step(d, q[0], max), q[1..], max);
    }
  }

  /**
   * An escape followed by anything but its two completions spoils the frame, whatever came
   * before it and whatever follows up to the END; the next frame is read as if nothing had been.
   */
  lemma {:induction false} BadEscapeDrops(p: seq<byte>, b: byte, q: seq<byte>, next: seq<byte>, max: nat)
    requires b != ESC_END && b != ESC_ESC && b != END && END !in q
    ensures Frames(IDLE, EscapeAll(p) + [ESC, b] + q + Encode(next), max) == Delivered(next, max)
  {
    var s := EscapeAll(p);
    var d := FeedState(IDLE, s, max);
    FeedBody(IDLE, p, max);
    EscapeSpoils(d, b, max);
    var e := FeedState(d, [ESC, b], max);
    BadStays(e, q, max);
    EncodingDecodes(e, next, max);
    hide EscapeAll, FeedState, Frames, Step, Encode;
    FeedAppend(IDLE, s, [ESC, b], max);
    FeedAppend(IDLE, s + [ESC, b], q, max);
    FeedAppend(IDLE, s + [ESC, b] + q, Encode(next), max);
  }

  lemma {:induction false} EscapeSpoils(d: State, b: byte, max: nat)
    requires !d.esc && b != ESC_END && b != ESC_ESC && b != END
    ensures var e := FeedState(d, [ESC, b], max); e.bad && Pending(e) == [] && Frames(d, [ESC, b], max) == []
  {
    var two: seq<byte> := [ESC, b];
    var d1 := Step(d, ESC, max);
    assert two[1..] == [b] && [b][1..] == [];
    assert FeedState(d1, [b], max) == FeedState(Step(d1, b, max), [], max);
    assert Frames(d1, [b], max) == Emitted(d1, b) + Frames(Step(d1, b, max), [], max);
  }

  /** An END in the middle of an escape drops the frame. */
  lemma {:induction false} CutEscapeDrops(p: seq<byte>, next: seq<byte>, max: nat)
    ensures Frames(IDLE, EscapeAll(p) + [ESC] + Encode(next), max) == Delivered(next, max)
  {
    var s := EscapeAll(p);
    var d := FeedState(IDLE, s, max);
    FeedBody(IDLE, p, max);
    var e := Step(d, ESC, max);
    var one: seq<byte> := [ESC];
    assert one[1..] == [] && FeedState(d, one, max) == FeedState(e, [], max) == e;
    assert Frames(d, one, max) == Emitted(d, ESC) + Frames(e, [], max) == [];
    EncodingDecodes(e, next, max);
    assert Pending(e) == [];
    hide EscapeAll, FeedState, Frames, Step, Encode;
    FeedAppend(IDLE, s, one, max);
    FeedAppend(IDLE, s + one, Encode(next), max);
  }

  /** The wire format by example: both special bytes in one frame. */
  lemma {:induction false} WireFormat()
    ensures Encode([0x01, 0xC0, 0x02, 0xDB]) == [0xC0, 0x01, 0xDB, 0xDC, 0x02, 0xDB, 0xDD, 0xC0]
  {
    var p: seq<byte> := [0x01, 0xC0, 0x02, 0xDB];
    assert p[1..][1..][1..][1..] == [] && p[1..][1..][1..] == [0xDB] && p[1..][1..] == [0x02, 0xDB];
    assert EscapeAll([0xDB]) == [0xDB, 0xDD] && EscapeAll([0x02, 0xDB]) == [0x02, 0xDB, 0xDD];
    assert p[1..] == [0xC0, 0x02, 0xDB];
  }
}
