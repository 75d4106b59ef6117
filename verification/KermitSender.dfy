/** The sending endpoint: one exchange after another, each retried until acknowledged. */
module KermitSender {
  import opened Bytes
  import opened KermitChecks
  import opened KermitPacket
  import opened KermitCodec
  import opened KermitInit

  const MAX_RETRIES: nat := 10

  const T_S: byte := 83
  const T_F: byte := 70
  const T_A: byte := 65
  const T_D: byte := 68
  const T_Z: byte := 90
  const T_B: byte := 66
  const T_E: byte := 69
  const T_N: byte := 78
  const T_Y: byte := 89

  /** The low byte of each character. */
  function StrBytes(s: string): (r: seq<byte>)
    ensures |r| == |s|
  {
    seq(|s|, i requires 0 <= i < |s| => (s[i] as int % 256) as byte)
  }

  predicate PlainText(s: string) { forall i :: 0 <= i < |s| ==> ' ' <= s[i] <= '~' }

  lemma {:induction false} PlainTextPrintable(s: string)
    requires PlainText(s)
    ensures AllPrintable(StrBytes(s))
  {
  }

  /** What is being sent: the bare file name, the file, the timeout both sides announce. */
  datatype Job = Job(name: seq<byte>, file: seq<byte>, timeout: nat)

  /** The exchange in progress; `Data` remembers the chunk's span. */
  datatype Phase = Idle | Init | Name | Attr | Data(pos: nat, next: nat) | Eof | Break | Closed

  /**
   * The closure's variables. `n` is the packet number, `tries` and `pkt` belong to the
   * exchange in progress, `neg` is what was negotiated.
   */
  datatype State = State(phase: Phase, started: bool, n: nat, neg: Option<Params>, tries: nat, pkt: seq<byte>)

  /** The effect of one event: the new state, packets written, and the completion call. */
  datatype Out = Out(st: State, writes: seq<seq<byte>>, complete: Option<bool>)

  const START := State(Idle, false, 0, None, 0, [])

  function CkOf(neg: Option<Params>): (ck: nat) { if neg.Some? then neg.value.ckType else 1 }

  function TypeChar(ph: Phase): (t: byte)
    ensures Printable(t)
  {
    match ph
    case Init => T_S
    case Name => T_F
    case Attr => T_A
    case Data(_, _) => T_D
    case Eof => T_Z
    case Break => T_B
    case _ => T_E
  }

  /** The data field of the packet that starts this exchange. */
  function Payload(job: Job, neg: Option<Params>, ph: Phase): (d: seq<byte>)
  {
    match ph
    case Init => InitParams(job.timeout)
    case Name => if neg.Some? then EncodeChunk(job.name, 0, DataRoom(neg.value), neg.value.Prefixes()).bytes else []
    case Attr => AttrData(|job.file|)
    case Data(pos, _) =>
      if neg.Some? && pos <= |job.file| then
        EncodeChunk(job.file, pos, DataRoom(neg.value), neg.value.Prefixes()).bytes
      else []
    case _ => []
  }

  function NoResponse(ph: Phase): seq<byte>
  {
    StrBytes("No response from receiver (") + [TypeChar(ph)] + StrBytes(" packet)")
  }

  function ErrorPacket(n: nat, text: seq<byte>, ck: nat): seq<byte>
  {
    Build(n, T_E, text[..Min(80, |text|)], ck)
  }

  /** Gives up: says so to the peer if asked to, and reports failure once. */
  function Fail(st: State, text: seq<byte>, notify: bool): (o: Out)
  {
    if st.phase.Closed? then Out(st, [], None)
    else Out(st.(phase := Closed), if notify then [ErrorPacket(st.n, text, CkOf(st.neg))] else [], Some(false))
  }

  /** Writes the current packet again, or gives up after ten times. */
  function Send(st: State): (o: Out)
  {
    var s := st.(tries := st.tries + 1);
    if s.tries > MAX_RETRIES then Fail(s, NoResponse(s.phase), true)
    else Out(s, [s.pkt], None)
  }

  /** Starts the exchange of phase `ph`. */
  function Exchange(job: Job, st: State, ph: Phase): (o: Out)
  {
    var ck := if ph.Init? then 1 else CkOf(st.neg);
    Send(st.(phase := ph, tries := 0, pkt := Build(st.n, TypeChar(ph), Payload(job, st.neg, ph), ck)))
  }

  /** The phase that sends the file from `pos` on. */
  function DataPhase(job: Job, neg: Params, pos: nat): (ph: Phase)
  {
    if pos >= |job.file| then Eof
    else Data(pos, EncodeChunk(job.file, pos, DataRoom(neg), neg.Prefixes()).next)
  }

  /** The current packet was acknowledged with data `d`. */
  function Acked(job: Job, st: State, d: seq<byte>): (o: Out)
  {
    var s := st.(n := (st.n + 1) % 64);
    match st.phase
    case Init => Exchange(job, s.(neg := Some(Negotiate(d))), Name)
    case Name =>
      if s.neg.None? then Out(s, [], None)
      else Exchange(job, s, if s.neg.value.attr then Attr else DataPhase(job, s.neg.value, 0))
    case Attr =>
      if d != [] && d[0] == T_N then Fail(s, StrBytes("Receiver refused the file"), true)
      else if s.neg.None? then Out(s, [], None)
      else Exchange(job, s, DataPhase(job, s.neg.value, 0))
    case Data(_, next) =>
      if d != [] && (d[0] == 0x58 || d[0] == 0x5a) then Fail(s, [], false)
      else if s.neg.None? then Out(s, [], None)
      else Exchange(job, s, DataPhase(job, s.neg.value, next))
    case Eof => Exchange(job, s, Break)
    case Break => Out(s.(phase := Closed), [], Some(true))
    case _ => Out(s, [], None)
  }

  predicate Waiting(st: State) { !st.phase.Idle? && !st.phase.Closed? }

  /** The data field as this exchange reads it; error packets may carry either check. */
  function ReadBy(st: State, p: Pkt): Option<seq<byte>>
  {
    var d := p.Data(if st.phase.Init? then 1 else CkOf(st.neg));
    if d.None? && TypeOf(p) == T_E then p.Data(1) else d
  }

  function OnPacket(job: Job, st: State, p: Pkt): (o: Out)
  {
    if !Waiting(st) then Out(st, [], None)
    else
      var d := ReadBy(st, p);
      if d.None? then Out(st, [], None)
      else if TypeOf(p) == T_E then Fail(st, [], false)
      else if TypeOf(p) == T_N then
        if SeqOf(p) == (st.n + 1) % 64 then Acked(job, st, [])
        else if SeqOf(p) == st.n then Send(st)
        else Out(st, [], None)
      else if TypeOf(p) == T_Y && SeqOf(p) == st.n then Acked(job, st, d.value)
      else Out(st, [], None)
  }

  function OnTimeout(st: State): (o: Out) { if Waiting(st) then Send(st) else Out(st, [], None) }

  function Cancel(st: State): (o: Out) { Fail(st, StrBytes("Cancelled by sender"), true) }

  /** Starting an endpoint that was cancelled before does nothing. */
  function Start(job: Job, st: State): (o: Out)
  {
    var s := st.(started := true);
    if st.phase.Idle? then Exchange(job, s, Init) else Out(s, [], None)
  }

  /** A write log and the completion calls, extended by one event's effect. */
  ghost predicate Effect(o: Out, writes0: seq<seq<byte>>, done0: seq<bool>, writes: seq<seq<byte>>, done: seq<bool>)
  {
    writes == writes0 + o.writes && done == if o.complete.Some? then done0 + [o.complete.value] else done0
  }

  /** The sender object. `written` and `completed` log the calls to write and onComplete. */
  class KermitSender {
    const job: Job
    var phase: Phase
    var started: bool
    var n: nat
    var neg: Option<Params>
    var tries: nat
    var pkt: seq<byte>
    var written: seq<seq<byte>>
    var completed: seq<bool>

    constructor (job: Job)
      ensures Abs() == START && written == [] && completed == [] && this.job == job
    {
      this.job := job;
      phase, started, n, neg, tries, pkt := Idle, false, 0, None, 0, [];
      written, completed := [], [];
    }

    ghost function Abs(): State
      reads this
    {
      State(phase, started, n, neg, tries, pkt)
    }

    method DoFail(text: seq<byte>, notify: bool)
      modifies this
      ensures Abs() == Fail(old(Abs()), text, notify).st
      ensures Effect(Fail(old(Abs()), text, notify), old(written), old(completed), written, completed)
    {
      if phase.Closed? { return; }
      if notify {
        var p := BuildPacket(n, T_E, text[..Min(80, |text|)], CkOf(neg));
        written := written + [p];
      }
      phase := Closed;
      completed := completed + [false];
    }

    method DoSend()
      modifies this
      ensures Abs() == Send(old(Abs())).st
      ensures Effect(Send(old(Abs())), old(written), old(completed), written, completed)
    {
      tries := tries + 1;
      if tries > MAX_RETRIES {
        DoFail(NoResponse(phase), true);
        return;
      }
      written := written + [pkt];
    }

    method DoExchange(ph: Phase)
      modifies this
      ensures Abs() == Exchange(job, old(Abs()), ph).st
      ensures Effect(Exchange(job, old(Abs()), ph), old(written), old(completed), written, completed)
    {
      phase := ph;
      tries := 0;
      pkt := BuildPacket(n, TypeChar(ph), Payload(job, neg, ph), if ph.Init? then 1 else CkOf(neg));
      DoSend();
    }

    method DoSendData(pos: nat)
      requires neg.Some?
      modifies this
      ensures Abs() == Exchange(job, old(Abs()), DataPhase(job, old(neg).value, pos)).st
      ensures Effect(Exchange(job, old(Abs()), DataPhase(job, old(neg).value, pos)), old(written), old(completed),
                     written, completed)
    {
      if pos >= |job.file| {
        DoExchange(Eof);
        return;
      }
      var _, next := ComputeChunk(job.file, pos, DataRoom(neg.value), neg.value.Prefixes());
      DoExchange(Data(pos, next));
    }

    method DoAcked(d: seq<byte>)
      modifies this
      ensures Abs() == Acked(job, old(Abs()), d).st
      ensures Effect(Acked(job, old(Abs()), d), old(written), old(completed), written, completed)
    {
      hide Exchange, Fail;
      n := (n + 1) % 64;
      match phase
      case Init =>
        var p := ComputeNegotiate(d);
        neg := Some(p);
        DoExchange(Name);
      case Name =>
        if neg.None? { return; }
        if neg.value.attr { DoExchange(Attr); } else { DoSendData(0); }
      case Attr =>
        if d != [] && d[0] == T_N {
          DoFail(StrBytes("Receiver refused the file"), true);
        } else if neg.Some? {
          DoSendData(0);
        }
      case Data(_, next) =>
        if d != [] && (d[0] == 0x58 || d[0] == 0x5a) {
          DoFail([], false);
        } else if neg.Some? {
          DoSendData(next);
        }
      case Eof =>
        DoExchange(Break);
      case Break =>
        phase := Closed;
        completed := completed + [true];
      case _ =>
    }

    method Receive(p: Pkt)
      modifies this
      ensures Abs() == OnPacket(job, old(Abs()), p).st
      ensures Effect(OnPacket(job, old(Abs()), p), old(written), old(completed), written, completed)
    {
      hide Acked, Fail, Send;
      if phase.Idle? || phase.Closed? { return; }
      var ck := if phase.Init? then 1 else CkOf(neg);
      var d := ReadData(p, ck);
      if d.None? && TypeOf(p) == T_E { d := ReadData(p, 1); }
      if d.None? { return; }
      if TypeOf(p) == T_E {
        DoFail([], false);
        return;
      }
      if TypeOf(p) == T_N {
        if SeqOf(p) == (n + 1) % 64 {
          DoAcked([]);
          return;
        }
        if SeqOf(p) == n { DoSend(); }
        return;
      }
      if TypeOf(p) == T_Y && SeqOf(p) == n { DoAcked(d.value); }
    }

    method TimedOut()
      modifies this
      ensures Abs() == OnTimeout(old(Abs())).st
      ensures Effect(OnTimeout(old(Abs())), old(written), old(completed), written, completed)
    {
      if !phase.Idle? && !phase.Closed? { DoSend(); }
    }

    method DoCancel()
      modifies this
      ensures Abs() == Cancel(old(Abs())).st
      ensures Effect(Cancel(old(Abs())), old(written), old(completed), written, completed)
    {
      DoFail(StrBytes("Cancelled by sender"), true);
    }

    method DoStart()
      modifies this
      ensures Abs() == Start(job, old(Abs())).st
      ensures Effect(Start(job, old(Abs())), old(written), old(completed), written, completed)
    {
      started := true;
      if phase.Idle? { DoExchange(Init); }
    }
  }
}
