/** The receiving endpoint. */
module KermitReceiver {
  import opened Bytes
  import opened KermitChecks
  import opened KermitPacket
  import opened KermitCodec
  import opened KermitInit
  import opened KermitSender

  datatype RPhase = RIdle | Active | Lingering | RClosed

  /** The closure's variables; the error and progress texts are not kept. */
  datatype RState = RState(phase: RPhase, started: bool, expected: nat, lastAck: Option<seq<byte>>,
                           neg: Option<Params>, tries: nat, name: seq<byte>, exactSize: int,
                           chunks: seq<seq<byte>>, received: nat, gotEof: bool)

  /** onComplete: the saved file with its name, or a failure. */
  datatype Outcome = Saved(data: seq<byte>, name: seq<byte>) | Failed

  datatype ROut = ROut(st: RState, writes: seq<seq<byte>>, complete: Option<Outcome>)

  const RSTART := RState(RIdle, false, 0, None, None, 0, [], -1, [], 0, false)

  function Nak(st: RState): seq<byte> { Build(st.expected, T_N, [], CkOf(st.neg)) }

  function RFail(st: RState, text: seq<byte>, notify: bool): (o: ROut)
  {
    if st.phase.RClosed? || st.phase.Lingering? then ROut(st, [], None)
    else
      ROut(st.(phase := RClosed), if notify then [ErrorPacket(st.expected, text, CkOf(st.neg))] else [], Some(Failed))
  }

  /** Acknowledges packet n, keeping the packet for repeats. */
  function WithAck(st: RState, n: nat, payload: seq<byte>, ck: nat): RState
  {
    st.(lastAck := Some(Build(n, T_Y, payload, ck)))
  }

  function AckOf(st: RState): seq<seq<byte>> { if st.lastAck.Some? then [st.lastAck.value] else [] }

  /** The session goes on with the next packet number. */
  function Advance(st: RState): (o: ROut)
  {
    ROut(st.(expected := (st.expected + 1) % 64), AckOf(st), None)
  }

  /** B arrived: hand the file over and keep answering repeats. */
  function Finish(st: RState): (o: ROut)
  {
    if !st.gotEof then
      var f := RFail(st, [], false);
      ROut(f.st, AckOf(st) + f.writes, f.complete)
    else
      var out := Flatten(st.chunks);
      ROut(st.(phase := Lingering), AckOf(st),
           Some(if st.exactSize >= 0 && |out| != st.exactSize then Failed else Saved(out, st.name)))
  }

  const DEFAULT_NAME := StrBytes("file")

  function Unsupported(typ: byte): seq<byte>
  {
    StrBytes("Unsupported Kermit packet '") + [typ] + StrBytes("'")
  }

  /** A packet with the expected number, of type `typ` and data `d`. */
  function Accept(timeout: nat, st0: RState, n: nat, typ: byte, d: seq<byte>): (o: ROut)
  {
    var st := st0.(tries := 0);
    if typ == T_S then
      Advance(WithAck(st.(neg := Some(Negotiate(d))), n, InitParams(timeout), 1))
    else if typ == T_F then
      if st.neg.None? then ROut(st, [], None)
      else
        var q := st.neg.value.Prefixes();
        var name := if Decode(d, q) == [] then DEFAULT_NAME else Decode(d, q);
        Advance(WithAck(st.(name := name), n, EncodeChunk(name, 0, 60, q).bytes, st.neg.value.ckType))
    else if typ == T_A then
      Advance(WithAck(st.(exactSize := ParseAttrs(d, st.exactSize)), n, [T_Y], CkOf(st.neg)))
    else if typ == T_D then
      if st.neg.None? && d != [] then ROut(st, [], None)  // decode throws: nothing else happens
      else
        var bytes := if st.neg.None? then [] else Decode(d, st.neg.value.Prefixes());
        Advance(WithAck(st.(chunks := st.chunks + [bytes], received := st.received + |bytes|), n, [], CkOf(st.neg)))
    else if typ == T_Z then
      var s := WithAck(st.(gotEof := true), n, [], CkOf(st.neg));
      if d != [] && d[0] == 0x44 then
        var f := RFail(s, [], false);
        ROut(f.st, AckOf(s) + f.writes, f.complete)
      else Advance(s)
    else if typ == T_B then
      Finish(WithAck(st, n, [], CkOf(st.neg)))
    else
      RFail(st, Unsupported(typ), true)
  }

  function RReadBy(st: RState, p: Pkt): Option<seq<byte>>
  {
    var isInit := TypeOf(p) == T_S;
    var d := p.Data(if isInit then 1 else CkOf(st.neg));
    if d.None? && (TypeOf(p) == T_E || isInit) then p.Data(1) else d
  }

  function Prev(n: nat): nat { (n + 63) % 64 }

  function ROnPacket(timeout: nat, st: RState, p: Pkt): (o: ROut)
  {
    if st.phase.Lingering? then
      if SeqOf(p) == Prev(st.expected) || TypeOf(p) == T_B || TypeOf(p) == T_Z then ROut(st, AckOf(st), None)
      else ROut(st, [], None)
    else if !st.phase.Active? then ROut(st, [], None)
    else
      var d := RReadBy(st, p);
      if d.None? then ROut(st, [Nak(st)], None)
      else if TypeOf(p) == T_E then RFail(st, [], false)
      else if SeqOf(p) == Prev(st.expected) && st.lastAck.Some? && SeqOf(p) != st.expected then
        ROut(st, [st.lastAck.value], None)
      else if SeqOf(p) != st.expected then ROut(st, [Nak(st)], None)
      else Accept(timeout, st, SeqOf(p), TypeOf(p), d.value)
  }

  function ROnTimeout(st: RState): (o: ROut)
  {
    if !st.phase.Active? then ROut(st, [], None)
    else
      var s := st.(tries := st.tries + 1);
      if s.tries > MAX_RETRIES then RFail(s, StrBytes("No data from sender"), true)
      else ROut(s, [if s.lastAck.Some? then s.lastAck.value else Nak(s)], None)
  }

  function RCancel(st: RState): (o: ROut) { RFail(st, StrBytes("Cancelled by receiver"), true) }

  function RStart(st: RState): (o: ROut)
  {
    var s := st.(started := true);
    ROut(if st.phase.RIdle? then s.(phase := Active) else s, [Build(0, T_N, [], 1)], None)
  }

  /** After twice the timeout a finished receiver lets go of the port. */
  function LingerOver(st: RState): (o: ROut)
  {
    ROut(if st.phase.Lingering? then st.(phase := RClosed) else st, [], None)
  }

  ghost predicate REffect(o: ROut, writes0: seq<seq<byte>>, done0: seq<Outcome>,
                          writes: seq<seq<byte>>, done: seq<Outcome>)
  {
    writes == writes0 + o.writes && done == if o.complete.Some? then done0 + [o.complete.value] else done0
  }

  lemma {:induction false} FlattenSnoc(cs: seq<seq<byte>>, c: seq<byte>)
    ensures Flatten(cs + [c]) == Flatten(cs) + c
    decreases |cs|
  {
    if cs == [] {
      assert [c][1..] == [];
      assert [] + c == c && c + [] == c;
    } else {
      FlattenSnoc(cs[1..], c);
      assert (cs + [c])[1..] == cs[1..] + [c];
      assert cs[0] + (Flatten(cs[1..]) + c) == (cs[0] + Flatten(cs[1..])) + c;
    }
  }

  /** Copies the chunks into one buffer of `received` bytes. */
  method Assemble(chunks: seq<seq<byte>>, received: nat) returns (out: array<byte>)
    requires received == |Flatten(chunks)|
    ensures fresh(out) && out[..] == Flatten(chunks)
  {
    out := new byte[received](_ => 0);
    var o := 0;
    var i := 0;
    assert chunks[..0] == [];
    while i < |chunks|
      invariant 0 <= i <= |chunks| && o == |Flatten(chunks[..i])| <= received
      invariant out[..o] == Flatten(chunks[..i])
      invariant received == |Flatten(chunks[..i])| + |Flatten(chunks[i..])|
    {
      FlattenSnoc(chunks[..i], chunks[i]);
      assert chunks[..i + 1] == chunks[..i] + [chunks[i]];
      assert chunks[i..][1..] == chunks[i + 1..];
      var c := chunks[i];
      forall k | 0 <= k < |c| { out[o + k] := c[k]; }
      assert out[..o + |c|] == Flatten(chunks[..i]) + c;
      o := o + |c|;
      i := i + 1;
    }
    assert chunks[..i] == chunks;
  }

  /** The receiver object. */
  class KermitReceiver {
    const timeout: nat
    var phase: RPhase
    var started: bool
    var expected: nat
    var lastAck: Option<seq<byte>>
    var neg: Option<Params>
    var tries: nat
    var name: seq<byte>
    var exactSize: int
    var chunks: seq<seq<byte>>
    var received: nat
    var gotEof: bool
    var written: seq<seq<byte>>
    var completed: seq<Outcome>

    constructor (timeout: nat)
      ensures Abs() == RSTART && written == [] && completed == [] && this.timeout == timeout && Valid()
    {
      this.timeout := timeout;
      phase, started, expected, lastAck, neg, tries := RIdle, false, 0, None, None, 0;
      name, exactSize, chunks, received, gotEof := [], -1, [], 0, false;
      written, completed := [], [];
    }

    ghost function Abs(): RState
      reads this
    {
      RState(phase, started, expected, lastAck, neg, tries, name, exactSize, chunks, received, gotEof)
    }

    ghost predicate Valid()
      reads this
    {
      received == |Flatten(chunks)|
    }

    method DoFail(text: seq<byte>, notify: bool)
      modifies `phase, `written, `completed
      ensures Abs() == RFail(old(Abs()), text, notify).st
      ensures REffect(RFail(old(Abs()), text, notify), old(written), old(completed), written, completed)
    {
      if phase.RClosed? || phase.Lingering? { return; }
      if notify {
        var p := BuildPacket(expected, T_E, text[..Min(80, |text|)], CkOf(neg));
        written := written + [p];
      }
      phase := RClosed;
      completed := completed + [Failed];
    }

    method SendAck(n: nat, payload: seq<byte>, ck: nat)
      modifies `lastAck, `written
      ensures Abs() == WithAck(old(Abs()), n, payload, ck)
      ensures written == old(written) + AckOf(Abs())
    {
      var p := BuildPacket(n, T_Y, payload, ck);
      lastAck := Some(p);
      written := written + [p];
    }

    method SendNak()
      modifies `written
      ensures Abs() == old(Abs()) && written == old(written) + [Nak(Abs())]
    {
      var p := BuildPacket(expected, T_N, [], CkOf(neg));
      written := written + [p];
    }

    method DoFinish()
      requires Valid() && phase.Active?
      modifies `phase, `written, `completed
      ensures Abs() == Finish(old(Abs())).st
      ensures completed == old(completed) + [Finish(old(Abs())).complete.value] && written == old(written)
    {
      if !gotEof {
        DoFail([], false);
        return;
      }
      var out := Assemble(chunks, received);
      phase := Lingering;
      if exactSize >= 0 && out.Length != exactSize {
        completed := completed + [Failed];
        return;
      }
      completed := completed + [Saved(out[..], name)];
    }

    /** Decodes a data field and keeps it. */
    method Store(d: seq<byte>)
      requires Valid() && (neg.Some? || d == [])
      modifies `chunks, `received
      ensures Valid()
      ensures chunks == old(chunks) + [if neg.None? then [] else Decode(d, neg.value.Prefixes())]
      ensures received == old(received) + if neg.None? then 0 else |Decode(d, neg.value.Prefixes())|
    {
      var bytes := [];
      if neg.Some? { bytes := ComputeDecode(d, neg.value.Prefixes()); }
      FlattenSnoc(chunks, bytes);
      chunks := chunks + [bytes];
      received := received + |bytes|;
    }

    method OnInit(n: nat, d: seq<byte>)
      requires Valid() && phase.Active?
      modifies this
      ensures Valid() && Abs() == Accept(timeout, old(Abs()), n, T_S, d).st
      ensures REffect(Accept(timeout, old(Abs()), n, T_S, d), old(written), old(completed), written, completed)
    {
      hide Negotiate, InitParams, EncodeChunk, Decode, ParseAttrs, Build, Flatten;
      tries := 0;
      var p := ComputeNegotiate(d);
      neg := Some(p);
      SendAck(n, InitParams(timeout), 1);
      expected := (expected + 1) % 64;
    }

    method OnName(n: nat, d: seq<byte>)
      requires Valid() && phase.Active?
      modifies this
      ensures Valid() && Abs() == Accept(timeout, old(Abs()), n, T_F, d).st
      ensures REffect(Accept(timeout, old(Abs()), n, T_F, d), old(written), old(completed), written, completed)
    {
      hide Negotiate, InitParams, EncodeChunk, Decode, ParseAttrs, Build, Flatten;
      tries := 0;
      if neg.None? { return; }
      name := ComputeDecode(d, neg.value.Prefixes());
      if name == [] { name := DEFAULT_NAME; }
      var echo, _ := ComputeChunk(name, 0, 60, neg.value.Prefixes());
      SendAck(n, echo, CkOf(neg));
      expected := (expected + 1) % 64;
    }

    method OnAttr(n: nat, d: seq<byte>)
      requires Valid() && phase.Active?
      modifies this
      ensures Valid() && Abs() == Accept(timeout, old(Abs()), n, T_A, d).st
      ensures REffect(Accept(timeout, old(Abs()), n, T_A, d), old(written), old(completed), written, completed)
    {
      hide Negotiate, InitParams, EncodeChunk, Decode, ParseAttrs, Build, Flatten;
      tries := 0;
      exactSize := ComputeParseAttrs(d, exactSize);
      SendAck(n, [T_Y], CkOf(neg));
      expected := (expected + 1) % 64;
    }

    method OnData(n: nat, d: seq<byte>)
      requires Valid() && phase.Active?
      modifies this
      ensures Valid() && Abs() == Accept(timeout, old(Abs()), n, T_D, d).st
      ensures REffect(Accept(timeout, old(Abs()), n, T_D, d), old(written), old(completed), written, completed)
    {
      hide Negotiate, InitParams, EncodeChunk, Decode, ParseAttrs, Build, Flatten;
      tries := 0;
      if neg.None? && d != [] { return; }
      Store(d);
      SendAck(n, [], CkOf(neg));
      expected := (expected + 1) % 64;
    }

    method OnEof(n: nat, d: seq<byte>)
      requires Valid() && phase.Active?
      modifies this
      ensures Valid() && Abs() == Accept(timeout, old(Abs()), n, T_Z, d).st
      ensures REffect(Accept(timeout, old(Abs()), n, T_Z, d), old(written), old(completed), written, completed)
    {
      hide Negotiate, InitParams, EncodeChunk, Decode, ParseAttrs, Build, Flatten;
      tries := 0;
      gotEof := true;
      SendAck(n, [], CkOf(neg));
      if d != [] && d[0] == 0x44 {
        DoFail([], false);
        return;
      }
      expected := (expected + 1) % 64;
    }

    method OnBreak(n: nat, d: seq<byte>)
      requires Valid() && phase.Active?
      modifies this
      ensures Valid() && Abs() == Accept(timeout, old(Abs()), n, T_B, d).st
      ensures REffect(Accept(timeout, old(Abs()), n, T_B, d), old(written), old(completed), written, completed)
    {
      hide Negotiate, InitParams, EncodeChunk, Decode, ParseAttrs, Build, Flatten;
      tries := 0;
      SendAck(n, [], CkOf(neg));
      DoFinish();
    }

    /** The switch on the packet type. */
    method DoAccept(n: nat, typ: byte, d: seq<byte>)
      requires Valid() && phase.Active?
      modifies this
      ensures Valid() && Abs() == Accept(timeout, old(Abs()), n, typ, d).st
      ensures REffect(Accept(timeout, old(Abs()), n, typ, d), old(written), old(completed), written, completed)
    {
      if typ == T_S {
        OnInit(n, d);
      } else if typ == T_F {
        OnName(n, d);
      } else if typ == T_A {
        OnAttr(n, d);
      } else if typ == T_D {
        OnData(n, d);
      } else if typ == T_Z {
        OnEof(n, d);
      } else if typ == T_B {
        OnBreak(n, d);
      } else {
        tries := 0;
        DoFail(Unsupported(typ), true);
      }
    }

    method Receive(p: Pkt)
      requires Valid()
      modifies this
      ensures Valid() && Abs() == ROnPacket(timeout, old(Abs()), p).st
      ensures REffect(ROnPacket(timeout, old(Abs()), p), old(written), old(completed), written, completed)
    {
      hide Accept, Flatten, Build, StrBytes;
      if phase.Lingering? {
        if SeqOf(p) == Prev(expected) || TypeOf(p) == T_B || TypeOf(p) == T_Z {
          if lastAck.Some? { written := written + [lastAck.value]; }
        }
        return;
      }
      if !phase.Active? { return; }
      var isInit := TypeOf(p) == T_S;
      var d := ReadData(p, if isInit then 1 else CkOf(neg));
      if d.None? && (TypeOf(p) == T_E || isInit) { d := ReadData(p, 1); }
      if d.None? {
        SendNak();
        return;
      }
      if TypeOf(p) == T_E {
        DoFail([], false);
        return;
      }
      var prev := Prev(expected);
      if SeqOf(p) == prev && lastAck.Some? && SeqOf(p) != expected {
        written := written + [lastAck.value];
        return;
      }
      if SeqOf(p) != expected {
        SendNak();
        return;
      }
      DoAccept(SeqOf(p), TypeOf(p), d.value);
    }

    method TimedOut()
      modifies this
      ensures Abs() == ROnTimeout(old(Abs())).st
      ensures REffect(ROnTimeout(old(Abs())), old(written), old(completed), written, completed)
    {
      if !phase.Active? { return; }
      tries := tries + 1;
      if tries > MAX_RETRIES {
        DoFail(StrBytes("No data from sender"), true);
        return;
      }
      if lastAck.Some? { written := written + [lastAck.value]; } else { SendNak(); }
    }

    method DoCancel()
      modifies this
      ensures Abs() == RCancel(old(Abs())).st
      ensures REffect(RCancel(old(Abs())), old(written), old(completed), written, completed)
    {
      DoFail(StrBytes("Cancelled by receiver"), true);
    }

    method DoStart()
      modifies this
      ensures Abs() == RStart(old(Abs())).st
      ensures REffect(RStart(old(Abs())), old(written), old(completed), written, completed)
    {
      started := true;
      var p := BuildPacket(0, T_N, [], 1);
      written := written + [p];
      if phase.RIdle? { phase := Active; }
    }
  }
}
