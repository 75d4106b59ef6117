/**
 * A whole transfer: both endpoints with their parsers, and two FIFO channels of packet
 * bytes that may lose packets and deliver detectably damaged bytes, under any
 * interleaving of deliveries, timeouts and cancels.
 */
module KermitSession {
  import opened Bytes
  import opened KermitChecks
  import opened KermitPacket
  import opened KermitCodec
  import opened KermitInit
  import opened KermitSender
  import opened KermitReceiver

  datatype Setup = Setup(job: Job, rTimeout: nat) {
    /** A file JavaScript can hold. */
    predicate Ok() { |job.file| <= MAX_SAFE }
  }

  /**
   * `k` counts the exchanges the sender has completed, `j` the packets the receiver has
   * accepted, `copies` how often the current exchange wrote its packet; `sDone` and
   * `rDone` are the calls to onComplete so far.
   */
  datatype Sys = Sys(s: State, sbuf: seq<byte>, r: RState, rbuf: seq<byte>,
                     toR: seq<seq<byte>>, toS: seq<seq<byte>>,
                     k: nat, j: nat, copies: nat, sDone: seq<bool>, rDone: seq<Outcome>)

  const START_SYS := Sys(START, [], RSTART, [], [], [], 0, 0, 0, [], [])

  datatype Event =
    | SenderStart | SenderTimeout | SenderCancel
    | ReceiverStart | ReceiverTimeout | ReceiverCancel | LingerEnds
    | DeliverToR | LoseToR | NoiseToR(bytes: seq<byte>)
    | DeliverToS | LoseToS | NoiseToS(bytes: seq<byte>)

  // ----- steps -------------------------------------------------------------------------

  function Matches(writes: seq<seq<byte>>, pkt: seq<byte>): nat
  {
    if writes == [] then 0 else (if writes[0] == pkt then 1 else 0) + Matches(writes[1..], pkt)
  }

  function ApplyS(y: Sys, o: Out): Sys
  {
    var moved := o.st.n != y.s.n;
    y.(s := o.st, toR := y.toR + o.writes,
       k := if moved then y.k + 1 else y.k,
       copies := (if moved then 0 else y.copies) + Matches(o.writes, o.st.pkt),
       sDone := if o.complete.Some? then y.sDone + [o.complete.value] else y.sDone)
  }

  function ApplyR(y: Sys, o: ROut): Sys
  {
    var took := o.st.expected != y.r.expected || (o.st.phase.Lingering? && !y.r.phase.Lingering?);
    y.(r := o.st, toS := y.toS + o.writes,
       j := if took then y.j + 1 else y.j,
       rDone := if o.complete.Some? then y.rDone + [o.complete.value] else y.rDone)
  }

  function SPackets(c: Setup, y: Sys, pkts: seq<Pkt>): Sys
    decreases |pkts|
  {
    if pkts == [] then y else SPackets(c, ApplyS(y, OnPacket(c.job, y.s, pkts[0])), pkts[1..])
  }

  /** One parser's packets; the session's parser stops counting once lingering begins. */
  function RPackets(c: Setup, y: Sys, pkts: seq<Pkt>, lingering: bool): Sys
    decreases |pkts|
  {
    if pkts == [] then y
    else
      var z := if y.r.phase.Lingering? == lingering then ApplyR(y, ROnPacket(c.rTimeout, y.r, pkts[0])) else y;
      RPackets(c, z, pkts[1..], lingering)
  }

  function SFeed(c: Setup, y: Sys, bytes: seq<byte>): Sys
  {
    if !Waiting(y.s) then y
    else
      var p := Parse(y.sbuf + bytes);
      SPackets(c, y.(sbuf := p.rest), p.pkts)
  }

  predicate Listening(r: RState) { r.phase.Active? || r.phase.Lingering? }

  /** Lingering starts with a parser of its own. */
  function RFeed(c: Setup, y: Sys, bytes: seq<byte>): Sys
  {
    if !Listening(y.r) then y
    else
      var p := Parse(y.rbuf + bytes);
      var lingering := y.r.phase.Lingering?;
      var z := RPackets(c, y, p.pkts, lingering);
      z.(rbuf := if z.r.phase.Lingering? && !lingering then [] else p.rest)
  }

  /** Noise is whatever bytes the checks expose: every frame found in them is damaged. */
  predicate Detectable(buf: seq<byte>, bytes: seq<byte>)
  {
    forall i :: 0 <= i < |Parse(buf + bytes).pkts| ==> Damaged(Parse(buf + bytes).pkts[i])
  }

  function After(c: Setup, y: Sys, e: Event): Sys
  {
    match e
    case SenderStart => if y.s.started then y else ApplyS(y, Start(c.job, y.s))
    case SenderTimeout => ApplyS(y, OnTimeout(y.s))
    case SenderCancel => ApplyS(y, Cancel(y.s))
    case ReceiverStart => if y.r.started then y else ApplyR(y, RStart(y.r))
    case ReceiverTimeout => ApplyR(y, ROnTimeout(y.r))
    case ReceiverCancel => ApplyR(y, RCancel(y.r))
    case LingerEnds => ApplyR(y, LingerOver(y.r))
    case DeliverToR => if y.toR == [] then y else RFeed(c, y.(toR := y.toR[1..]), y.toR[0])
    case LoseToR => if y.toR == [] then y else y.(toR := y.toR[1..])
    case NoiseToR(b) => if Detectable(y.rbuf, b) then RFeed(c, y, b) else y
    case DeliverToS => if y.toS == [] then y else SFeed(c, y.(toS := y.toS[1..]), y.toS[0])
    case LoseToS => if y.toS == [] then y else y.(toS := y.toS[1..])
    case NoiseToS(b) => if Detectable(y.sbuf, b) then SFeed(c, y, b) else y
  }

  function Run(c: Setup, y: Sys, events: seq<Event>): Sys
    decreases |events|
  {
    if events == [] then y else Run(c, After(c, y, events[0]), events[1..])
  }

  // ----- the ideal transfer --------------------------------------------------------------

  const ROOM: int := 222
  const Q := Prefixes(0, REPT, QCTL)

  function OurParams(timeout: nat): Params
  {
    Params(MAX_LONG, TimeSeconds(timeout), EOL, QCTL, 3, 0, REPT, true, true)
  }

  function FileChunks(c: Setup): (cs: seq<Chunk>) { Chunks(c.job.file, 0, ROOM, Q) }

  /** Index of the B packet. */
  function Last(c: Setup): nat { 4 + |FileChunks(c)| }

  function ChunkStart(c: Setup, i: nat): nat
    requires i <= |FileChunks(c)|
  {
    if i == 0 then 0 else FileChunks(c)[i - 1].next
  }

  function PhaseAt(c: Setup, k: nat): (ph: Phase)
    ensures !ph.Idle? && !ph.Closed?
  {
    var n := |FileChunks(c)|;
    if k == 0 then Init
    else if k == 1 then Name
    else if k == 2 then Attr
    else if k < 3 + n then Data(ChunkStart(c, k - 3), FileChunks(c)[k - 3].next)
    else if k == 3 + n then Eof
    else Break
  }

  function NegAt(c: Setup, k: nat): Option<Params> { if k == 0 then None else Some(OurParams(c.rTimeout)) }

  function CkAt(k: nat): nat { if k == 0 then 1 else 3 }

  function DataAt(c: Setup, k: nat): seq<byte> { Payload(c.job, NegAt(c, k), PhaseAt(c, k)) }

  /** The k-th packet of every transfer of this file. */
  function PktAt(c: Setup, k: nat): seq<byte>
  {
    Build(k % 64, TypeChar(PhaseAt(c, k)), DataAt(c, k), CkAt(k))
  }

  function NameAt(c: Setup): seq<byte>
  {
    var d := Decode(DataAt(c, 1), Q);
    if d == [] then DEFAULT_NAME else d
  }

  function AckData(c: Setup, k: nat): seq<byte>
  {
    if k == 0 then InitParams(c.rTimeout)
    else if k == 1 then EncodeChunk(NameAt(c), 0, 60, Q).bytes
    else if k == 2 then [T_Y]
    else []
  }

  function AckAt(c: Setup, k: nat): seq<byte> { Build(k % 64, T_Y, AckData(c, k), CkAt(k)) }

  function NakAt(j: nat): seq<byte> { Build(j % 64, T_N, [], CkAt(j)) }

  /** The first i chunks as the receiver stores them. */
  function Stored(c: Setup, i: nat): (s: seq<seq<byte>>)
    requires i <= |FileChunks(c)|
    ensures |s| == i
  {
    if i == 0 then [] else Stored(c, i - 1) + [Decode(FileChunks(c)[i - 1].bytes, Q)]
  }

  function StoredCount(c: Setup, j: nat): (i: nat)
    ensures i <= |FileChunks(c)|
  {
    if j <= 3 then 0 else Min(j - 3, |FileChunks(c)|)
  }

  // ----- the invariant ---------------------------------------------------------------------

  /** A packet either endpoint sends when it gives up. */
  predicate IsError(f: seq<byte>)
  {
    |f| >= 5 && f[0] == MARK && f[3] == T_E && Parse(f).rest == [] &&
    |Parse(f).pkts| == 1 && TypeOf(Parse(f).pkts[0]) == T_E
  }

  predicate SenderOk(c: Setup, y: Sys)
  {
    && (y.s.phase.Idle? ==> y.s == START && y.k == 0 && y.copies == 0 && y.sDone == [])
    && (Waiting(y.s) ==>
          y.k <= Last(c) && y.sDone == [] && 1 <= y.s.tries <= MAX_RETRIES && y.copies == y.s.tries
          && y.s == State(PhaseAt(c, y.k), true, y.k % 64, NegAt(c, y.k), y.s.tries, PktAt(c, y.k)))
    && (y.s.phase.Closed? ==> |y.sDone| == 1 && (y.sDone[0] ==> y.k == Last(c) + 1))
    && y.copies <= MAX_RETRIES
    && y.k <= Last(c) + 1
  }

  /** What the receiver knows after accepting j packets. */
  predicate Knows(c: Setup, r: RState, j: nat)
  {
    && r.neg == (if j == 0 then None else Some(OurParams(c.job.timeout)))
    && r.lastAck == (if j == 0 then None else Some(AckAt(c, j - 1)))
    && r.name == (if j <= 1 then [] else NameAt(c))
    && r.exactSize == (if j <= 2 then -1 else |c.job.file|)
    && r.chunks == Stored(c, StoredCount(c, j))
    && r.gotEof == (j > 3 + |FileChunks(c)|)
  }

  predicate ReceiverOk(c: Setup, y: Sys)
  {
    var last := Last(c);
    && Knows(c, y.r, y.j)
    && y.j <= last + 1
    && (y.r.phase.RIdle? ==> y.j == 0 && !y.r.started)
    && (!y.r.started ==> y.j == 0 && !Listening(y.r))
    && (y.r.phase.RIdle? || y.r.phase.Active? ==> y.rDone == [] && y.j <= last && y.r.expected == y.j % 64)
    && (y.r.phase.Lingering? ==> y.j == last + 1 && y.r.expected == last % 64)
    && (y.r.phase.Lingering? || y.r.phase.RClosed? ==>
          y.rDone == if y.j == last + 1 then [Saved(c.job.file, NameAt(c))] else [Failed])
  }

  /** What the receiver writes while it has accepted j packets. */
  predicate Response(c: Setup, f: seq<byte>, j: nat)
  {
    (j <= Last(c) && f == NakAt(j)) || (j > 0 && f == AckAt(c, j - 1))
  }

  predicate OldToR(c: Setup, y: Sys, f: seq<byte>) { y.j == y.k && y.k > 0 && f == PktAt(c, y.k - 1) }

  predicate CurrentToR(c: Setup, y: Sys, f: seq<byte>) { y.k <= Last(c) && f == PktAt(c, y.k) }

  predicate OldToS(c: Setup, y: Sys, f: seq<byte>) { y.j == y.k + 1 && Response(c, f, y.k) }

  predicate CurrentToS(c: Setup, y: Sys, f: seq<byte>) { Response(c, f, y.j) }

  /** Towards the receiver: packets of the previous exchange only ahead of current ones. */
  predicate ToROk(c: Setup, y: Sys, ch: seq<seq<byte>>)
  {
    && (forall i :: 0 <= i < |ch| ==> IsError(ch[i]) || OldToR(c, y, ch[i]) || CurrentToR(c, y, ch[i]))
    && (forall i, l :: 0 <= i < l < |ch| && CurrentToR(c, y, ch[i]) ==> IsError(ch[l]) || CurrentToR(c, y, ch[l]))
  }

  /** Towards the sender: replies from before the last acceptance only ahead of later ones. */
  predicate ToSOk(c: Setup, y: Sys, ch: seq<seq<byte>>)
  {
    && (forall i :: 0 <= i < |ch| ==> IsError(ch[i]) || OldToS(c, y, ch[i]) || CurrentToS(c, y, ch[i]))
    && (forall i, l :: 0 <= i < l < |ch| && CurrentToS(c, y, ch[i]) ==> IsError(ch[l]) || CurrentToS(c, y, ch[l]))
  }

  predicate ChannelsOk(c: Setup, y: Sys)
  {
    y.k <= y.j <= y.k + 1 && ToROk(c, y, y.toR) && ToSOk(c, y, y.toS)
  }

  predicate Inv(c: Setup, y: Sys)
  {
    SenderOk(c, y) && ReceiverOk(c, y) && ChannelsOk(c, y) && Stable(y.sbuf) && Stable(y.rbuf)
  }

  // ----- facts about the ideal transfer ----------------------------------------------------

  lemma {:induction false} Ours(timeout: nat)
    ensures Negotiate(InitParams(timeout)) == OurParams(timeout)
    ensures OurParams(timeout).Prefixes() == Q && DataRoom(OurParams(timeout)) == ROOM
  {
    NegotiateOurs(timeout);
  }

  /** The i-th chunk starts where the one before ended. */
  lemma {:induction false} ChunkIndex(src: seq<byte>, pos: nat, i: nat)
    requires pos <= |src| && i < |Chunks(src, pos, ROOM, Q)|
    ensures var cs := Chunks(src, pos, ROOM, Q);
            var from := if i == 0 then pos else cs[i - 1].next;
            from < |src| && cs[i] == EncodeChunk(src, from, ROOM, Q) && from < cs[i].next <= |src|
    decreases i
  {
    hide EncodeChunk;
    var cs := Chunks(src, pos, ROOM, Q);
    ChunkAdvances(src, pos, ROOM, Q);
    var c := EncodeChunk(src, pos, ROOM, Q);
    assert cs[0] == c && cs[1..] == Chunks(src, c.next, ROOM, Q);
    if i > 0 { ChunkIndex(src, c.next, i - 1); }
  }

  lemma {:induction false} ChunkAt(c: Setup, i: nat)
    requires i <= |FileChunks(c)|
    ensures ChunkStart(c, i) <= |c.job.file|
    ensures ChunkStart(c, i) == |c.job.file| <==> i == |FileChunks(c)|
    ensures i < |FileChunks(c)| ==> FileChunks(c)[i] == EncodeChunk(c.job.file, ChunkStart(c, i), ROOM, Q)
    ensures i < |FileChunks(c)| ==> ChunkStart(c, i) < FileChunks(c)[i].next <= |c.job.file|
  {
    hide EncodeChunk;
    if i < |FileChunks(c)| { ChunkIndex(c.job.file, 0, i); }
  }

  lemma {:induction false} StoredIsPrefix(c: Setup, i: nat)
    requires i <= |FileChunks(c)|
    ensures ChunkStart(c, i) <= |c.job.file| && Flatten(Stored(c, i)) == c.job.file[..ChunkStart(c, i)]
  {
    hide EncodeChunk, Chunks, Decode;
    ChunkAt(c, i);
    if i > 0 {
      ChunkAt(c, i - 1);
      StoredIsPrefix(c, i - 1);
      var from, next := ChunkStart(c, i - 1), FileChunks(c)[i - 1].next;
      FlattenSnoc(Stored(c, i - 1), Decode(FileChunks(c)[i - 1].bytes, Q));
      ChunkRoundTrip(c.job.file, from, ROOM, Q);
      assert c.job.file[..next] == c.job.file[..from] + c.job.file[from..next];
    }
  }

  /** After the chunks, everything is there. */
  lemma {:induction false} AllStored(c: Setup)
    ensures Flatten(Stored(c, |FileChunks(c)|)) == c.job.file
  {
    ChunkAt(c, |FileChunks(c)|);
    StoredIsPrefix(c, |FileChunks(c)|);
    assert c.job.file[..|c.job.file|] == c.job.file;
  }

  lemma {:induction false} PhaseAfter(c: Setup, i: nat)
    requires i <= |FileChunks(c)|
    ensures DataPhase(c.job, OurParams(c.rTimeout), ChunkStart(c, i)) == PhaseAt(c, 3 + i)
  {
    hide EncodeChunk, Chunks;
    Ours(c.rTimeout);
    ChunkAt(c, i);
  }

  lemma {:induction false} DataAtChunk(c: Setup, i: nat)
    requires i < |FileChunks(c)|
    ensures DataAt(c, 3 + i) == FileChunks(c)[i].bytes
  {
    hide EncodeChunk, Chunks;
    Ours(c.rTimeout);
    ChunkAt(c, i);
  }

  lemma {:induction false} DataAtName(c: Setup)
    ensures DataAt(c, 1) == EncodeChunk(c.job.name, 0, ROOM, Q).bytes
  {
    Ours(c.rTimeout);
  }

  lemma {:induction false} PktSendable(c: Setup, k: nat)
    requires c.Ok() && k <= Last(c)
    ensures Sendable(TypeChar(PhaseAt(c, k)), DataAt(c, k), CkAt(k))
  {
    hide EncodeChunk, Chunks, InitParams, AttrData;
    var n := |FileChunks(c)|;
    if k == 1 {
      DataAtName(c);
      ChunkPrintable(c.job.name, 0, ROOM, Q);
    } else if k == 2 {
      AttrRoundTrip(|c.job.file|, -1);
    } else if 3 <= k < 3 + n {
      DataAtChunk(c, k - 3);
      ChunkAt(c, k - 3);
      ChunkPrintable(c.job.file, ChunkStart(c, k - 3), ROOM, Q);
    }
  }

  lemma {:induction false} AckSendable(c: Setup, k: nat)
    ensures Sendable(T_Y, AckData(c, k), CkAt(k))
  {
    hide EncodeChunk, InitParams, NameAt;
    if k == 1 { ChunkPrintable(NameAt(c), 0, 60, Q); }
  }

  /** Number, type and mark can be read off a packet's bytes. */
  lemma {:induction false} Tag(n: nat, typ: byte, data: seq<byte>, ck: nat)
    ensures var f := Build(n, typ, data, ck); |f| >= 5 && f[0] == MARK && f[2] == ToChar(n % 64) && f[3] == typ
  {
    hide BlockCheck;
    var h := Header(n, typ, |data|, ck);
    var f := Build(n, typ, data, ck);
    assert f[0] == h[0] && f[2] == h[2] && f[3] == h[3];
  }

  /** What the parser makes of a whole packet, whatever it held before. */
  lemma {:induction false} Arrives(buf: seq<byte>, n: nat, typ: byte, data: seq<byte>, ck: nat) returns (p: Pkt)
    requires Stable(buf) && Sendable(typ, data, ck)
    ensures Parse(buf + Build(n, typ, data, ck)) == Parsed([p], [])
    ensures p == Built(n, typ, data, ck)
    ensures SeqOf(p) == n % 64 && TypeOf(p) == typ && p.Data(ck) == Some(data)
  {
    p := Built(n, typ, data, ck);
    Resynchronises(buf, n, typ, data, ck);
    BuiltCarries(n, typ, data, ck);
  }

  lemma {:induction false} ErrorIsError(n: nat, text: seq<byte>, ck: nat)
    requires AllPrintable(text) && (ck == 1 || ck == 3)
    ensures IsError(ErrorPacket(n, text, ck))
  {
    hide Parse;
    var t := text[..Min(80, |text|)];
    Tag(n, T_E, t, ck);
    FreshFrame(n, T_E, t, ck);
    BuiltCarries(n, T_E, t, ck);
  }

  lemma {:induction false} ErrorArrives(buf: seq<byte>, f: seq<byte>)
    requires Stable(buf) && IsError(f)
    ensures Parse(buf + f) == Parse(f) && Parse(f).rest == [] && |Parse(f).pkts| == 1
    ensures TypeOf(Parse(f).pkts[0]) == T_E
  {
    StableBufferIsDropped(buf, f);
  }
}
