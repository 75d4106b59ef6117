/** Improv Serial packets: the board's byte-at-a-time parser and the PC's buffer scanner. */
module Improv {
  import opened Bytes

  /** "IMPROV": six different letters. */
  const HDR: seq<byte> := [73, 77, 80, 82, 79, 86]
  const VERSION: byte := 1
  const TYPE_RPC: byte := 3
  const TYPE_RPC_RESULT: byte := 4
  const MAX_DATA: nat := 255

  datatype Packet = Packet(typ: byte, data: seq<byte>)

  function Sum(s: seq<byte>): nat
  {
    if s == [] then 0 else Sum(s[..|s| - 1]) + s[|s| - 1]
  }

  function Head(typ: byte, data: seq<byte>): seq<byte>
    requires |data| <= MAX_DATA
  {
    HDR + [VERSION, typ, |data|] + data
  }

  /** A whole packet with the newline the senders append. */
  function Build(typ: byte, data: seq<byte>): seq<byte>
    requires |data| <= MAX_DATA
  {
    Head(typ, data) + [Sum(Head(typ, data)) % 256, 10]
  }

  // ----- what a parser holds, and what it accepts --------------------------------------------

  /** Held bytes: a proper prefix of the header, or a header and an unfinished packet. */
  predicate Holds(h: seq<byte>)
  {
    if |h| < 6 then h == HDR[..|h|] else h[..6] == HDR && (|h| < 9 || |h| <= 9 + h[8] as nat)
  }

  predicate Complete(h: seq<byte>) { |h| >= 9 && |h| == 9 + h[8] as nat }

  predicate Good(h: seq<byte>, check: byte)
    requires Complete(h)
  {
    check == Sum(h) % 256 && h[6] == VERSION
  }

  function Step(h: seq<byte>, b: byte): (r: seq<byte>)
    requires Holds(h)
    ensures Holds(r)
  {
    if |h| < 6 then
      if b == HDR[|h|] then h + [b] else if b == HDR[0] then [b] else []
    else if Complete(h) then []
    else h + [b]
  }

  /** The packet that this byte completes. */
  function Accepted(h: seq<byte>, b: byte): seq<Packet>
  {
    if Complete(h) && Good(h, b) then [Packet(h[7], h[9..])] else []
  }

  function Held(h: seq<byte>, s: seq<byte>): (r: seq<byte>)
    requires Holds(h)
    ensures Holds(r)
    decreases |s|
  {
    if s == [] then h else Held(Step(h, s[0]), s[1..])
  }

  /** The packets accepted while s is fed to a parser that holds h. */
  function Accepts(h: seq<byte>, s: seq<byte>): seq<Packet>
    requires Holds(h)
    decreases |s|
  {
    if s == [] then [] else Accepted(h, s[0]) + Accepts(Step(h, s[0]), s[1..])
  }

  /** Splitting a stream changes nothing. */
  lemma {:induction false} FeedAppend(h: seq<byte>, s: seq<byte>, t: seq<byte>)
    requires Holds(h)
    ensures Held(h, s + t) == Held(Held(h, s), t)
    ensures Accepts(h, s + t) == Accepts(h, s) + Accepts(Held(h, s), t)
    decreases |s|
  {
    if s == [] {
      assert s + t == t;
    } else {
      assert (s + t)[0] == s[0] && (s + t)[1..] == s[1..] + t;
      hide Step, Accepted, Holds;
      FeedAppend(Step(h, s[0]), s[1..], t);
      Reassociate(Accepted(h, s[0]), Accepts(Step(h, s[0]), s[1..]), Accepts(Held(h, s), t));
    }
  }

  lemma {:induction false} FeedOne(h: seq<byte>, b: byte)
    requires Holds(h)
    ensures Held(h, [b]) == Step(h, b) && Accepts(h, [b]) == Accepted(h, b)
  {
    hide Step, Accepted, Holds;
    var one: seq<byte> := [b];
    assert one[1..] == [];
    assert Held(Step(h, b), []) == Step(h, b) && Accepts(Step(h, b), []) == [];
  }

  lemma {:induction false} FeedLast(h: seq<byte>, s: seq<byte>)
    requires Holds(h) && s != []
    ensures var p, b := s[..|s| - 1], s[|s| - 1];
            Held(h, s) == Step(Held(h, p), b) && Accepts(h, s) == Accepts(h, p) + Accepted(Held(h, p), b)
  {
    var p, b := s[..|s| - 1], s[|s| - 1];
    assert s == p + [b];
    hide Step, Accepted, Holds, Held, Accepts;
    FeedAppend(h, p, [b]);
    FeedOne(Held(h, p), b);
  }

  // ----- the board's parser --------------------------------------------------------------------

  datatype Verdict = NeedMore | Bad | Got(p: Packet)

  class Parser {
    var pos: nat
    var got: nat
    var version: byte
    var sum: nat
    var typ: byte
    var len: byte
    const data: array<byte>
    ghost var held: seq<byte>

    ghost predicate Valid()
      reads this, data
    {
      && data.Length == MAX_DATA && Holds(held)
      && pos == Min(|held|, 9)
      && (pos > 0 ==> sum == Sum(held))
      && (pos > 6 ==> version == held[6])
      && (pos > 7 ==> typ == held[7])
      && (pos > 8 ==> len == held[8] && got == |held| - 9 <= len && data[..got] == held[9..])
    }

    constructor ()
      ensures Valid() && held == [] && fresh(data)
    {
      pos, got, version, sum, typ, len := 0, 0, 0, 0, 0, 0;
      held := [];
      data := new byte[MAX_DATA];
    }

    /** One byte; at the end of a packet says whether it was good. */
    method Feed(b: byte) returns (v: Verdict)
      requires Valid()
      modifies this, data
      ensures Valid() && held == Step(old(held), b)
      ensures (if v.Got? then [v.p] else []) == Accepted(old(held), b)
      ensures v.Bad? <==> Complete(old(held)) && !Good(old(held), b)
    {
      hide Sum;
      ghost var before := held;
      held := Step(held, b);
      if pos < 6 {
        if b == HDR[pos] { pos := pos + 1; }
        else { pos := if b == HDR[0] then 1 else 0; }
        sum := PrefixSum(pos);
        assert held == HDR[..pos];
        return NeedMore;
      }
      SumNext(before, b);
      if pos == 6 { version, sum, pos := b, sum + b, 7; return NeedMore; }
      if pos == 7 { typ, sum, pos := b, sum + b, 8; return NeedMore; }
      if pos == 8 { len, sum, pos, got := b, sum + b, 9, 0; return NeedMore; }
      if got < len {
        data[got] := b;
        got, sum := got + 1, sum + b;
        return NeedMore;
      }
      pos := 0;
      if b != sum % 256 || version != VERSION { return Bad; }
      return Got(Packet(typ, data[..len]));
    }

    /** The sum of the matched letters, added up afresh. */
    method PrefixSum(n: nat) returns (s: nat)
      requires n <= 6
      ensures s == Sum(HDR[..n])
    {
      s := 0;
      for i := 0 to n
        invariant s == Sum(HDR[..i])
      {
        SumNext(HDR[..i], HDR[i]);
        assert HDR[..i + 1] == HDR[..i] + [HDR[i]];
        s := s + HDR[i];
      }
    }

    method Reset()
      requires Valid()
      modifies this
      ensures Valid() && held == []
    {
      pos := 0;
      held := [];
    }
  }

  lemma {:induction false} SumNext(s: seq<byte>, b: byte)
    ensures Sum(s + [b]) == Sum(s) + b
  {
    assert (s + [b])[..|s|] == s;
  }

  // ----- the PC's scanner ----------------------------------------------------------------------------

  predicate HeaderAt(s: seq<byte>, i: nat) { i + 6 <= |s| && s[i..i + 6] == HDR }

  /** Where the header first occurs at or after i. */
  function IndexOf(s: seq<byte>, i: nat): (r: Option<nat>)
    ensures r.Some? ==> i <= r.value && HeaderAt(s, r.value)
    ensures forall k: nat :: i <= k && (r.Some? ==> k < r.value) ==> !HeaderAt(s, k)
    decreases |s| - i
  {
    if i + 6 > |s| then None else if HeaderAt(s, i) then Some(i) else IndexOf(s, i + 1)
  }

  method FindHeader(s: seq<byte>) returns (r: Option<nat>)
    ensures r == IndexOf(s, 0)
  {
    var i := 0;
    while i + 6 <= |s|
      invariant IndexOf(s, i) == IndexOf(s, 0)
      decreases |s| - i
    {
      if s[i..i + 6] == HDR { return Some(i); }
      i := i + 1;
    }
    return None;
  }

  datatype Scan = Scan(found: Option<Packet>, rest: seq<byte>)

  /** Where the packet at the front of u has its checksum. */
  function End(u: seq<byte>): nat
    requires |u| >= 9
  {
    9 + u[8] as nat
  }

  predicate Whole(u: seq<byte>) { |u| >= 9 && |u| >= End(u) + 1 }

  /** The packet at the front of u, if it is good, and what follows it. */
  function Front(u: seq<byte>): Option<Packet>
    requires Whole(u)
  {
    if Good(u[..End(u)], u[End(u)]) then Some(Packet(u[7], u[9..End(u)])) else None
  }

  function Behind(u: seq<byte>): (r: seq<byte>)
    requires Whole(u)
    ensures |r| < |u|
  {
    u[End(u) + 1..]
  }

  function LastFive(buf: seq<byte>): (r: seq<byte>)
    ensures |r| <= |buf|
  {
    if |buf| > 5 then buf[|buf| - 5..] else buf
  }

  /** The scanner's loop: the next good packet and what stays buffered. */
  function Next(buf: seq<byte>): Scan
    decreases |buf|
  {
    match IndexOf(buf, 0)
    case None => Scan(None, LastFive(buf))
    case Some(i) =>
      var u := buf[i..];
      if !Whole(u) then Scan(None, u)
      else if Front(u).Some? then Scan(Front(u), Behind(u))
      else Next(Behind(u))
  }

  lemma {:induction false} NothingNext(buf: seq<byte>)
    requires IndexOf(buf, 0) == None
    ensures Next(buf) == Scan(None, LastFive(buf))
  {
  }

  /** One turn of the loop, the buffer cut at its header. */
  lemma {:induction false} NextUnfolds(buf: seq<byte>, i: nat)
    requires IndexOf(buf, 0) == Some(i)
    ensures var u := buf[i..];
            Next(buf) ==
            if |u| < 9 || |u| < 9 + u[8] as nat + 1 then Scan(None, u)
            else
              var n := u[8] as nat;
              if u[6] == VERSION && Sum(u[..9 + n]) % 256 == u[9 + n]
              then Scan(Some(Packet(u[7], u[9..9 + n])), u[9 + n + 1..])
              else Next(u[9 + n + 1..])
  {
    hide Sum, IndexOf;
    var u := buf[i..];
    if Whole(u) { assert u[..End(u)][6] == u[6] && u[..End(u)][8] == u[8]; }
  }

  class Scanner {
    var buf: seq<byte>

    constructor ()
      ensures buf == []
    {
      buf := [];
    }

    method Feed(chunk: seq<byte>) returns (found: Option<Packet>)
      modifies this
      ensures Scan(found, buf) == Next(old(buf) + chunk)
    {
      hide IndexOf, Sum, Next;
      buf := buf + chunk;
      ghost var all := buf;
      while true
        invariant Next(buf) == Next(all)
        decreases |buf|
      {
        var i := FindHeader(buf);
        if i.None? {
          NothingNext(buf);
          if |buf| > 5 { buf := buf[|buf| - 5..]; }
          return None;
        }
        NextUnfolds(buf, i.value);
        buf := buf[i.value..];
        if |buf| < 9 { return None; }
        var n := buf[8] as nat;
        if |buf| < 9 + n + 1 { return None; }
        var sum := ByteSum(buf[..9 + n]);
        var pkt := buf[..9 + n + 1];
        assert pkt[9..9 + n] == buf[9..9 + n];
        buf := buf[9 + n + 1..];
        if pkt[6] != VERSION || sum != pkt[9 + n] { continue; }
        return Some(Packet(pkt[7], pkt[9..9 + n]));
      }
    }
  }

  /** A byte accumulator wraps. */
  method ByteSum(s: seq<byte>) returns (sum: byte)
    ensures sum == Sum(s) % 256
  {
    hide Sum;
    sum := 0;
    SumNone();
    assert s[..0] == [];
    for i := 0 to |s|
      invariant sum == Sum(s[..i]) % 256
    {
      SumNext(s[..i], s[i]);
      assert s[..i + 1] == s[..i] + [s[i]];
      WrapAdd(Sum(s[..i]), s[i]);
      sum := (sum as nat + s[i] as nat) % 256;
    }
    assert s[..|s|] == s;
  }

  lemma {:induction false} SumNone()
    ensures Sum([]) == 0
  {
  }

  lemma {:induction false} WrapAdd(x: nat, b: nat)
    ensures (x % 256 + b) % 256 == (x + b) % 256
  {
  }

  // ----- the two agree -------------------------------------------------------------------------------

  /** All letters differ, so the last byte alone tells how much of the header can be held. */
  lemma {:induction false} LettersDiffer(i: nat, k: nat)
    requires i < 6 && k < 6 && HDR[i] == HDR[k]
    ensures i == k
  {
  }

  function Found(o: Option<Packet>): seq<Packet> { if o.Some? then [o.value] else [] }

  predicate EndsWith(s: seq<byte>, p: seq<byte>) { |p| <= |s| && s[|s| - |p|..] == p }

  /** The longest header prefix that s ends with, shorter than the whole header. */
  predicate Longest(s: seq<byte>, h: seq<byte>)
  {
    && |h| < 6 && h == HDR[..|h|] && EndsWith(s, h)
    && forall k :: |h| < k < 6 ==> !EndsWith(s, HDR[..k])
  }

  lemma {:induction false} EndsWithNext(s: seq<byte>, b: byte, k: nat)
    requires k < 6
    ensures EndsWith(s + [b], HDR[..k + 1]) <==> b == HDR[k] && EndsWith(s, HDR[..k])
  {
    var t := s + [b];
    if k <= |s| {
      assert t[|t| - (k + 1)..] == s[|s| - k..] + [b];
      assert HDR[..k + 1] == HDR[..k] + [HDR[k]];
    }
  }

  /** The automaton's move keeps holding the longest match, unless it completes the header. */
  lemma {:induction false} StepKeepsLongest(s: seq<byte>, h: seq<byte>, b: byte)
    requires Longest(s, h) && !EndsWith(s + [b], HDR)
    ensures Holds(h) && Longest(s + [b], Step(h, b))
  {
    var r := Step(h, b);
    assert HDR[..6] == HDR;
    EndsWithNext(s, b, |h|);
    assert EndsWith(s + [b], r) by {
      if b != HDR[|h|] && b == HDR[0] { EndsWithNext(s, b, 0); }
    }
    forall k | |r| < k < 6 ensures !EndsWith(s + [b], HDR[..k]) {
      EndsWithNext(s, b, k - 1);
      if b == HDR[k - 1] && EndsWith(s, HDR[..k - 1]) { OnlyOneMatch(s, |h|, k - 1); }
    }
  }

  lemma {:induction false} OnlyOneMatch(s: seq<byte>, i: nat, k: nat)
    requires i < 6 && k < 6 && EndsWith(s, HDR[..i]) && EndsWith(s, HDR[..k])
    ensures i > 0 && k > 0 ==> i == k
  {
    if i > 0 && k > 0 {
      assert s[|s| - 1] == s[|s| - i..][i - 1] == HDR[i - 1];
      assert s[|s| - 1] == s[|s| - k..][k - 1] == HDR[k - 1];
      LettersDiffer(i - 1, k - 1);
    }
  }

  ghost predicate NoHeader(s: seq<byte>) { forall k: nat :: !HeaderAt(s, k) }

  lemma {:induction false} SliceOfSlice(s: seq<byte>, i: nat, n: nat, a: nat, b: nat)
    requires i <= n <= |s| && a <= b <= n - i
    ensures s[i..n][a..b] == s[i + a..i + b]
  {
    var p, q := s[i..n], s[i + a..i + b];
    assert forall j :: 0 <= j < b - a ==> p[a + j] == q[j];
    assert p[a..b] == q;
  }

  lemma {:induction false} NoHeaderInside(s: seq<byte>, i: nat, n: nat)
    requires i <= n <= |s| && forall k: nat :: i <= k && k + 6 <= n ==> !HeaderAt(s, k)
    ensures NoHeader(s[i..n]) && (n - i >= 6 ==> !EndsWith(s[i..n], HDR))
  {
    var p := s[i..n];
    forall k: nat ensures !HeaderAt(p, k) {
      if k + 6 <= |p| {
        assert !HeaderAt(s, i + k);
        SliceOfSlice(s, i, n, k, k + 6);
      }
    }
    if n - i >= 6 {
      assert !HeaderAt(p, |p| - 6);
      assert p[|p| - 6..] == p[|p| - 6..|p| - 6 + 6];
    }
  }

  /** Without a header in it, a stream is only hunted through. */
  lemma {:induction false} HuntsThrough(s: seq<byte>)
    requires NoHeader(s)
    ensures Longest(s, Held([], s)) && Accepts([], s) == []
    decreases |s|
  {
    if s != [] {
      var p, b := s[..|s| - 1], s[|s| - 1];
      NoHeaderInside(s, 0, |s| - 1);
      NoHeaderInside(s, 0, |s|);
      assert s[0..|s| - 1] == p && s[0..|s|] == s && p + [b] == s;
      HuntsThrough(p);
      var h := Held([], p);
      HuntingIsIncomplete(p, h);
      hide Held, Accepts, HeaderAt, NoHeader, Longest, Step;
      FeedLast([], s);
      StepKeepsLongest(p, h, b);
    }
  }

  lemma {:induction false} HuntingIsIncomplete(s: seq<byte>, h: seq<byte>)
    requires Longest(s, h)
    ensures !Complete(h) && Holds(h)
  {
  }

  lemma {:induction false} LongestUnique(s: seq<byte>, g: seq<byte>, h: seq<byte>)
    requires Longest(s, g) && Longest(s, h)
    ensures g == h
  {
  }

  /** The last five bytes hold all that a hunt has to remember. */
  lemma {:induction false} FiveBytesSuffice(s: seq<byte>)
    requires |s| > 5 && NoHeader(s)
    ensures Held([], s[|s| - 5..]) == Held([], s) && Accepts([], s[|s| - 5..]) == []
  {
    var t := s[|s| - 5..];
    NoHeaderInside(s, |s| - 5, |s|);
    assert s[|s| - 5..|s|] == t;
    HuntsThrough(s);
    HuntsThrough(t);
    hide Held, Accepts, HeaderAt, Longest;
    SameEndings(s, Held([], s));
    LongestUnique(t, Held([], s), Held([], t));
  }

  lemma {:induction false} SameEndings(s: seq<byte>, h: seq<byte>)
    requires |s| > 5 && Longest(s, h)
    ensures Longest(s[|s| - 5..], h)
  {
    var t := s[|s| - 5..];
    forall k | 0 <= k < 6 ensures EndsWith(s, HDR[..k]) <==> EndsWith(t, HDR[..k]) {
      assert s[|s| - k..] == t[|t| - k..];
    }
    assert EndsWith(s, HDR[..|h|]);
  }

  /** Up to its first header, a stream leaves a parser holding just the header. */
  lemma {:induction false} ReachesHeader(s: seq<byte>, i: nat)
    requires HeaderAt(s, i) && forall k: nat :: k < i ==> !HeaderAt(s, k)
    ensures Held([], s[..i + 6]) == HDR && Accepts([], s[..i + 6]) == []
  {
    hide Held, Accepts, HeaderAt, Longest, EndsWith, Step, NoHeader;
    FiveMatched(s, i);
    var p, q := s[..i + 5], s[..i + 6];
    NoHeaderInside(s, 0, i + 5);
    assert s[0..i + 5] == p;
    HuntsThrough(p);
    LongestFive(p, Held([], p));
    assert q[..|q| - 1] == p && q[i + 5] == s[i + 5];
    FeedLast([], q);
    LastLetter();
  }

  lemma {:induction false} FiveMatched(s: seq<byte>, i: nat)
    requires HeaderAt(s, i)
    ensures i + 6 <= |s| && EndsWith(s[..i + 5], HDR[..5]) && s[i + 5] == HDR[5]
  {
    assert s[..i + 5][i..] == s[i..i + 6][..5];
    assert s[i..i + 6][5] == s[i + 5];
  }

  lemma {:induction false} LongestFive(p: seq<byte>, h: seq<byte>)
    requires Longest(p, h) && EndsWith(p, HDR[..5])
    ensures h == HDR[..5]
  {
    hide EndsWith;
  }

  lemma {:induction false} LastLetter()
    ensures Holds(HDR[..5]) && Step(HDR[..5], HDR[5]) == HDR && Accepted(HDR[..5], HDR[5]) == []
  {
    assert HDR == HDR[..5] + [HDR[5]];
  }

  /** Inside a packet everything is held until its length is reached. */
  lemma {:induction false} HoldsAll(u: seq<byte>, n: nat)
    requires 6 <= n <= |u| && HeaderAt(u, 0) && (n < 9 || n <= 9 + u[8] as nat)
    ensures Holds(u[..n]) && Held([], u[..n]) == u[..n] && Accepts([], u[..n]) == []
    decreases n
  {
    hide Held, Accepts, Step, Accepted, HeaderAt;
    if n == 6 {
      HeaderShifts(u, 0);
      ReachesHeader(u, 0);
    } else {
      HoldsAll(u, n - 1);
      HoldStep(u, n);
      var p := u[..n];
      assert p[..n - 1] == u[..n - 1];
      FeedLast([], p);
    }
  }

  lemma {:induction false} HoldStep(u: seq<byte>, n: nat)
    requires 6 < n <= |u| && HeaderAt(u, 0) && (n < 10 || n <= 9 + u[8] as nat)
    ensures Holds(u[..n - 1]) && Holds(u[..n])
    ensures Step(u[..n - 1], u[n - 1]) == u[..n] && Accepted(u[..n - 1], u[n - 1]) == []
  {
    assert u[..n - 1][..6] == u[0..6] && u[..n][..6] == u[0..6];
    assert u[..n] == u[..n - 1] + [u[n - 1]];
  }

  /** Cutting a stream at a header. */
  lemma {:induction false} HeaderShifts(s: seq<byte>, i: nat)
    requires HeaderAt(s, i)
    ensures i + 6 <= |s| && HeaderAt(s[i..], 0) && s[i..][6..] == s[i + 6..] && s[i..][..6] == HDR
    ensures Holds([]) && Holds(HDR)
  {
    assert s[i..][0..6] == s[i..i + 6];
  }

  /** A whole packet at the front is consumed, and accepted if it is good. */
  lemma {:induction false} PacketConsumed(u: seq<byte>)
    requires HeaderAt(u, 0) && Whole(u)
    ensures Held([], u[..End(u) + 1]) == [] && Accepts([], u[..End(u) + 1]) == Found(Front(u))
  {
    hide Held, Accepts, Sum, HeaderAt, Step, Accepted;
    var end := End(u);
    HoldsAll(u, end);
    ChecksumStep(u);
    var q := u[..end + 1];
    assert q[..end] == u[..end];
    FeedLast([], q);
  }

  lemma {:induction false} ChecksumStep(u: seq<byte>)
    requires Whole(u) && Holds(u[..End(u)])
    ensures Step(u[..End(u)], u[End(u)]) == [] && Accepted(u[..End(u)], u[End(u)]) == Found(Front(u))
  {
    assert u[..End(u)][9..] == u[9..End(u)];
  }

  lemma {:induction false} UnfinishedHeld(u: seq<byte>)
    requires HeaderAt(u, 0) && !Whole(u)
    ensures Accepts([], u) == []
  {
    hide Held, Accepts;
    HoldsAll(u, |u|);
    assert u[..|u|] == u;
  }

  /** For whatever follows, s may be replaced by r once out has been accepted. */
  predicate Replaces(s: seq<byte>, out: seq<Packet>, r: seq<byte>)
  {
    Held([], s) == Held([], r) && Accepts([], s) == out + Accepts([], r)
  }

  lemma {:induction false} DropFront(s: seq<byte>, n: nat)
    requires n <= |s| && Held([], s[..n]) == []
    ensures Replaces(s, Accepts([], s[..n]), s[n..])
  {
    hide Held, Accepts;
    Rejoin(s, n);
  }

  /** The first header is where parsing starts afresh. */
  lemma {:induction false} SkipToHeader(s: seq<byte>, i: nat)
    requires HeaderAt(s, i) && forall k: nat :: k < i ==> !HeaderAt(s, k)
    ensures Replaces(s, [], s[i..])
  {
    var u := s[i..];
    HeaderShifts(s, i);
    assert HeaderAt(u, 0) && u[6..] == s[i + 6..];
    AfterHeader(s, i, u);
  }

  lemma {:induction false} AfterHeader(s: seq<byte>, i: nat, u: seq<byte>)
    requires HeaderAt(s, i) && forall k: nat :: k < i ==> !HeaderAt(s, k)
    requires HeaderAt(u, 0) && u[6..] == s[i + 6..]
    ensures Replaces(s, [], u)
  {
    hide Held, Accepts, Replaces;
    ReachesHeader(s, i);
    ReachesHeader(u, 0);
    SameTail(s, i + 6, u, 6);
  }

  /** Two streams that leave the same held after quiet beginnings, and then go on alike. */
  lemma {:induction false} SameTail(s: seq<byte>, n: nat, u: seq<byte>, m: nat)
    requires n <= |s| && m <= |u| && s[n..] == u[m..] && Held([], s[..n]) == Held([], u[..m])
    requires Accepts([], s[..n]) == [] && Accepts([], u[..m]) == []
    ensures Replaces(s, [], u)
  {
    hide Held, Accepts;
    Rejoin(s, n);
    Rejoin(u, m);
    Reassociate([], [], Accepts(Held([], s[..n]), s[n..]));
    Reassociate([], [], Accepts([], u));
  }

  lemma {:induction false} Rejoin(s: seq<byte>, n: nat)
    requires n <= |s|
    ensures Held([], s) == Held(Held([], s[..n]), s[n..])
    ensures Accepts([], s) == Accepts([], s[..n]) + Accepts(Held([], s[..n]), s[n..])
  {
    hide Held, Accepts;
    FeedAppend([], s[..n], s[n..]);
    assert s == s[..n] + s[n..];
  }

  lemma {:induction false} ReplacesChain(s: seq<byte>, a: seq<Packet>, r: seq<byte>, b: seq<Packet>, q: seq<byte>)
    requires Replaces(s, a, r) && Replaces(r, b, q)
    ensures Replaces(s, a + b, q)
  {
    hide Held, Accepts;
    Reassociate(a, b, Accepts([], q));
  }

  /** The scanner's buffer and answer stand for the stream so far; no answer means nothing is waiting. */
  lemma {:induction false} NextIsFaithful(buf: seq<byte>)
    ensures var n := Next(buf);
            && Replaces(buf, Found(n.found), n.rest)
            && (n.found.None? ==> Accepts([], n.rest) == [])
    decreases |buf|
  {
    hide Held, Accepts, IndexOf, Replaces, Front, Behind, Whole, LastFive;
    match IndexOf(buf, 0)
    case None => NoHeaderFaithful(buf);
    case Some(i) =>
      var u := buf[i..];
      hide HeaderAt;
      HeaderShifts(buf, i);
      SkipToHeader(buf, i);
      if !Whole(u) {
        UnfinishedHeld(u);
      } else {
        FrontConsumed(u);
        FrontFaithful(buf, u);
        if Front(u).None? {
          NextIsFaithful(Behind(u));
          ReplacesChain(buf, [], Behind(u), Found(Next(buf).found), Next(buf).rest);
        }
        Reassociate([], [], Found(Next(buf).found));
      }
  }

  lemma {:induction false} FrontConsumed(u: seq<byte>)
    requires HeaderAt(u, 0) && Whole(u)
    ensures Replaces(u, Found(Front(u)), Behind(u))
  {
    hide Held, Accepts, Front, HeaderAt, Replaces;
    PacketConsumed(u);
    DropFront(u, End(u) + 1);
  }

  lemma {:induction false} FrontFaithful(buf: seq<byte>, u: seq<byte>)
    requires Whole(u) && Replaces(buf, [], u) && Replaces(u, Found(Front(u)), Behind(u))
    ensures Replaces(buf, Found(Front(u)), Behind(u))
  {
    hide Replaces, Front, Behind, Whole;
    ReplacesChain(buf, [], u, Found(Front(u)), Behind(u));
    Reassociate([], [], Found(Front(u)));
  }

  lemma {:induction false} NoHeaderFaithful(buf: seq<byte>)
    requires IndexOf(buf, 0) == None
    ensures Next(buf).found == None && Replaces(buf, [], Next(buf).rest) && Accepts([], Next(buf).rest) == []
  {
    HuntsThrough(buf);
    if |buf| > 5 { FiveBytesSuffice(buf); }
    hide Held, Accepts;
    Reassociate([], [], Accepts([], Next(buf).rest));
  }

  /** The scanner over a sequence of feeds: what it answered, and what it still buffers. */
  datatype Session = Session(found: seq<Packet>, buf: seq<byte>, last: Option<Packet>)

  function FeedChunks(chunks: seq<seq<byte>>): Session
  {
    if chunks == [] then Session([], [], None)
    else
      var s := FeedChunks(chunks[..|chunks| - 1]);
      var n := Next(s.buf + chunks[|chunks| - 1]);
      Session(s.found + Found(n.found), n.rest, n.found)
  }

  function Concat(chunks: seq<seq<byte>>): seq<byte>
  {
    if chunks == [] then [] else Concat(chunks[..|chunks| - 1]) + chunks[|chunks| - 1]
  }

  lemma {:induction false} ReplacesThen(s: seq<byte>, out: seq<Packet>, r: seq<byte>, t: seq<byte>)
    requires Replaces(s, out, r)
    ensures Replaces(s + t, out, r + t)
  {
    hide Held, Accepts;
    FeedAppend([], s, t);
    FeedAppend([], r, t);
    Reassociate(out, Accepts([], r), Accepts(Held([], r), t));
  }

  /**
   * On every stream, under every chunking: the packets the scanner has answered, followed
   * by those in its buffer, are those the byte parser accepts; once a feed answers nothing
   * they are all out.
   */
  lemma {:induction false} ScannerAgreesWithParser(chunks: seq<seq<byte>>)
    ensures var s := FeedChunks(chunks);
            && s.found + Accepts([], s.buf) == Accepts([], Concat(chunks))
            && (s.last.None? ==> s.found == Accepts([], Concat(chunks)))
  {
    SessionReplaces(chunks);
  }

  lemma {:induction false} SessionReplaces(chunks: seq<seq<byte>>)
    ensures var s := FeedChunks(chunks);
            Replaces(Concat(chunks), s.found, s.buf) && (s.last.None? ==> Accepts([], s.buf) == [])
  {
    if chunks != [] {
      var s, c := FeedChunks(chunks[..|chunks| - 1]), chunks[|chunks| - 1];
      hide Held, Accepts, Next;
      SessionReplaces(chunks[..|chunks| - 1]);
      ReplacesThen(Concat(chunks[..|chunks| - 1]), s.found, s.buf, c);
      NextIsFaithful(s.buf + c);
      var n := Next(s.buf + c);
      ReplacesChain(Concat(chunks), s.found, s.buf + c, Found(n.found), n.rest);
    }
  }

  // ----- building and recovering ------------------------------------------------------------------------

  /** From any hunting state, a built packet is accepted whole, and its newline leaves nothing behind. */
  lemma {:induction false} BuiltIsAccepted(h: seq<byte>, typ: byte, data: seq<byte>)
    requires Holds(h) && |h| < 6 && |data| <= MAX_DATA
    ensures Held(h, Build(typ, data)) == [] && Accepts(h, Build(typ, data)) == [Packet(typ, data)]
  {
    var p := Build(typ, data);
    BuiltFront(typ, data);
    hide Held, Accepts, Build, Front, Step, Accepted;
    PacketConsumed(p);
    var n := End(p) + 1;
    Rejoin(p, n);
    FeedOne([], 10);
    NewlineIgnored();
    FirstLetterRestarts(h, p);
  }

  lemma {:induction false} BuiltFront(typ: byte, data: seq<byte>)
    requires |data| <= MAX_DATA
    ensures var p := Build(typ, data);
            && HeaderAt(p, 0) && p[0] == HDR[0] && Whole(p)
            && Front(p) == Some(Packet(typ, data)) && p[End(p) + 1..] == [10]
  {
    hide Sum;
    var p, n := Build(typ, data), 9 + |data|;
    assert p[0..6] == HDR && p[..n] == Head(typ, data) && p[9..n] == data;
  }

  lemma {:induction false} NewlineIgnored()
    ensures Step([], 10) == [] && Accepted([], 10) == []
  {
  }

  /** While hunting, the header's first letter starts over whatever was matched. */
  lemma {:induction false} FirstLetterRestarts(h: seq<byte>, p: seq<byte>)
    requires Holds(h) && |h| < 6 && p != [] && p[0] == HDR[0]
    ensures Held(h, p) == Held([], p) && Accepts(h, p) == Accepts([], p)
  {
    assert Step(h, p[0]) == Step([], p[0]) == [HDR[0]];
  }

  /** Writes a packet, or returns 0 if it does not fit. */
  method BuildInto(typ: byte, data: seq<byte>, out: array<byte>, cap: nat) returns (n: nat)
    requires cap <= out.Length
    modifies out
    ensures n == (if |data| > MAX_DATA || cap < 11 + |data| then 0 else 11 + |data|)
    ensures n > 0 ==> out[..n] == Build(typ, data)
    ensures out[n..] == old(out[n..])
  {
    hide Sum;
    if |data| > MAX_DATA || cap < 6 + 3 + |data| + 2 { return 0; }
    forall i | 0 <= i < 6 { out[i] := HDR[i]; }
    out[6], out[7], out[8] := VERSION, typ, |data|;
    forall i | 0 <= i < |data| { out[9 + i] := data[i]; }
    var len := |data|;
    assert out[..9 + len] == Head(typ, data);
    var sum := ByteSum(out[..9 + len]);
    out[9 + len], out[10 + len] := sum, 10;
    n := 11 + len;
    assert out[..9 + len] == Head(typ, data);
    assert out[..n] == out[..9 + len] + [out[9 + len], out[10 + len]];
  }

  // ----- RPC ------------------------------------------------------------------------------------------------

  /** A command packet's command and payload. */
  function RpcCommand(p: Packet): Option<(byte, seq<byte>)>
  {
    if p.typ != TYPE_RPC || |p.data| < 2 || p.data[1] + 2 > |p.data| then None
    else Some((p.data[0], p.data[2..2 + p.data[1]]))
  }

  lemma {:induction false} RpcRoundTrip(cmd: byte, payload: seq<byte>)
    requires |payload| <= MAX_DATA - 2
    ensures Accepts([], Build(TYPE_RPC, [cmd, |payload|] + payload)) == [Packet(TYPE_RPC, [cmd, |payload|] + payload)]
    ensures RpcCommand(Packet(TYPE_RPC, [cmd, |payload|] + payload)) == Some((cmd, payload))
  {
    BuiltIsAccepted([], TYPE_RPC, [cmd, |payload|] + payload);
    assert ([cmd, |payload|] + payload)[2..2 + |payload|] == payload;
  }

  function Cut(s: seq<byte>): (t: seq<byte>)
    ensures |t| <= 255 && t <= s && (|s| <= 255 ==> t == s)
  {
    if |s| > 255 then s[..255] else s
  }

  /** Length-prefixed strings, each cut to 255 bytes. */
  function Strings(strs: seq<seq<byte>>): seq<byte>
  {
    if strs == [] then [] else Strings(strs[..|strs| - 1]) + [|Cut(strs[|strs| - 1])|] + Cut(strs[|strs| - 1])
  }

  function RpcResult(cmd: byte, strs: seq<seq<byte>>): Option<seq<byte>>
  {
    if 2 + |Strings(strs)| > MAX_DATA then None else Some([cmd, |Strings(strs)|] + Strings(strs))
  }

  lemma {:induction false} StringsGrow(strs: seq<seq<byte>>, i: nat)
    requires i <= |strs|
    ensures Strings(strs[..i]) <= Strings(strs)
    decreases |strs|
  {
    if i < |strs| {
      StringsGrow(strs[..|strs| - 1], i);
      assert strs[..|strs| - 1][..i] == strs[..i];
    } else {
      assert strs[..i] == strs;
    }
  }

  /** Fills the result data, or gives up when a string does not fit. */
  method FillRpcResult(cmd: byte, strs: seq<seq<byte>>) returns (r: Option<seq<byte>>)
    ensures r == RpcResult(cmd, strs)
  {
    hide Cut;
    var data := new byte[MAX_DATA];
    var d := 2;
    assert strs[..0] == [];
    for i := 0 to |strs|
      invariant 2 <= d <= MAX_DATA && data[2..d] == Strings(strs[..i])
    {
      var s := Cut(strs[i]);
      assert strs[..i + 1][..i] == strs[..i];
      assert Strings(strs[..i + 1]) == Strings(strs[..i]) + [|s|] + s;
      if d + 1 + |s| > MAX_DATA { StringsGrow(strs, i + 1); return None; }
      ghost var before := data[2..d];
      data[d] := |s|;
      d := d + 1;
      assert data[2..d] == before + [|s|];
      forall k | 0 <= k < |s| { data[d + k] := s[k]; }
      d := d + |s|;
      assert data[2..d] == before + [|s|] + s;
    }
    assert strs[..|strs|] == strs;
    ghost var body := data[2..d];
    data[0], data[1] := cmd, d - 2;
    assert data[2..d] == body && data[..d] == [cmd, d - 2] + data[2..d];
    return Some(data[..d]);
  }

  /** The PC's reading of length-prefixed strings. */
  function ReadStrings(data: seq<byte>): Option<seq<seq<byte>>>
    decreases |data|
  {
    if data == [] then Some([])
    else if 1 + data[0] as nat > |data| then None
    else
      match ReadStrings(data[1 + data[0]..])
      case None => None
      case Some(rest) => Some([data[1..1 + data[0]]] + rest)
  }

  lemma {:induction false} ReadOne(s: seq<byte>)
    requires |s| <= 255
    ensures ReadStrings([|s|] + s) == Some([s])
  {
    var all := [|s|] + s;
    assert all[1..1 + |s|] == s && all[1 + |s|..] == [];
    assert ReadStrings(all[1 + |s|..]) == Some([]);
    var none: seq<seq<byte>> := [];
    assert ReadStrings(all).value == [s] + none == [s];
  }

  lemma {:induction false} ReadAppend(data: seq<byte>, s: seq<byte>)
    requires |s| <= 255 && ReadStrings(data).Some?
    ensures ReadStrings(data + [|s|] + s) == Some(ReadStrings(data).value + [s])
    decreases |data|
  {
    var all := data + [|s|] + s;
    if data == [] {
      ReadOne(s);
      assert all == [|s|] + s;
      assert ReadStrings(data).value + [s] == [s];
    } else {
      var n := 1 + data[0] as nat;
      assert all[n..] == data[n..] + [|s|] + s && all[1..n] == data[1..n];
      ReadAppend(data[n..], s);
      var rest := ReadStrings(data[n..]).value;
      assert ReadStrings(data).value == [data[1..n]] + rest;
      assert all[0] == data[0] && n <= |all|;
      assert ReadStrings(all) == Some([data[1..n]] + (rest + [s]));
      Reassociate([data[1..n]], rest, [s]);
    }
  }

  function AllCut(strs: seq<seq<byte>>): seq<seq<byte>>
  {
    if strs == [] then [] else AllCut(strs[..|strs| - 1]) + [Cut(strs[|strs| - 1])]
  }

  /** What the board puts into a result the PC reads back, each string cut to 255 bytes. */
  lemma {:induction false} StringsRoundTrip(strs: seq<seq<byte>>)
    ensures ReadStrings(Strings(strs)) == Some(AllCut(strs))
  {
    if strs != [] {
      StringsRoundTrip(strs[..|strs| - 1]);
      ReadAppend(Strings(strs[..|strs| - 1]), Cut(strs[|strs| - 1]));
    }
  }

  lemma {:induction false} ResultRoundTrip(cmd: byte, strs: seq<seq<byte>>)
    requires RpcResult(cmd, strs).Some?
    ensures var data := RpcResult(cmd, strs).value;
            && Accepts([], Build(TYPE_RPC_RESULT, data)) == [Packet(TYPE_RPC_RESULT, data)]
            && data[0] == cmd && data[1] as nat == |data| - 2 && ReadStrings(data[2..]) == Some(AllCut(strs))
  {
    hide Build, Accepts, Strings, ReadStrings, AllCut;
    var data := RpcResult(cmd, strs).value;
    BuiltIsAccepted([], TYPE_RPC_RESULT, data);
    StringsRoundTrip(strs);
    assert data[2..] == Strings(strs);
  }

  // ----- nothing else is accepted, and little is kept -------------------------------------------------------

  /** What a parser holds is the end of what it was fed. */
  lemma {:induction false} HeldIsSuffix(s: seq<byte>)
    ensures EndsWith(s, Held([], s))
    decreases |s|
  {
    if s == [] {
      NothingHeld();
    } else {
      hide Held, Accepts, Holds, Step, EndsWith;
      var p, b := s[..|s| - 1], s[|s| - 1];
      HeldIsSuffix(p);
      FeedLast([], s);
      StepIsSuffix(p, Held([], p), b);
      assert s == p + [b];
    }
  }

  lemma {:induction false} NothingHeld()
    ensures EndsWith([], Held([], []))
  {
  }

  lemma {:induction false} StepIsSuffix(p: seq<byte>, h: seq<byte>, b: byte)
    requires Holds(h) && EndsWith(p, h)
    ensures EndsWith(p + [b], Step(h, b))
  {
    hide Holds;
    var s := p + [b];
    assert s[|s| - (|h| + 1)..] == p[|p| - |h|..] + [b] && s[|s| - 1..] == [b];
  }

  /**
   * Whenever a byte makes a parser accept something, the stream ends with exactly that packet
   * as it is built, its newline aside: no other bytes are ever taken for a packet.
   */
  lemma {:induction false} AcceptedWasBuilt(s: seq<byte>, b: byte)
    requires Accepts([], s + [b]) != Accepts([], s)
    ensures exists typ: byte, data: seq<byte> ::
              && |data| <= MAX_DATA && EndsWith(s + [b] + [10], Build(typ, data))
              && Accepts([], s + [b]) == Accepts([], s) + [Packet(typ, data)]
  {
    hide Held, Accepts, Sum, Step;
    HeldIsSuffix(s);
    var h, t := Held([], s), s + [b];
    assert t[..|t| - 1] == s && t[|t| - 1] == b;
    FeedLast([], t);
    assert Accepts([], s) + [] == Accepts([], s);
    GoodIsBuilt(h, b);
    hide Build;
    assert (t + [10])[|t + [10]| - (|h| + 2)..] == s[|s| - |h|..] + [b, 10];
  }

  lemma {:induction false} GoodIsBuilt(h: seq<byte>, b: byte)
    requires Holds(h) && Complete(h) && Good(h, b)
    ensures |h[9..]| <= MAX_DATA && h + [b, 10] == Build(h[7], h[9..])
  {
    hide Sum;
    assert h == h[..6] + [h[6], h[7], h[8]] + h[9..];
    assert h == Head(h[7], h[9..]);
  }

  /** Whatever was fed, a scanner that has no answer keeps at most an unfinished packet; without a header, five bytes. */
  lemma {:induction false} LittleIsKept(buf: seq<byte>)
    ensures Next(buf).found.None? ==> |Next(buf).rest| <= 264
    ensures NoHeader(buf) ==> Next(buf).found.None? && |Next(buf).rest| <= 5
    decreases |buf|
  {
    if IndexOf(buf, 0).Some? {
      var u := buf[IndexOf(buf, 0).value..];
      if Whole(u) { LittleIsKept(Behind(u)); }
    }
  }

  /** The bytes of a packet by the book: the state packet "ready". */
  lemma {:induction false} ReadyPacket()
    ensures Build(1, [2]) == [0x49, 0x4D, 0x50, 0x52, 0x4F, 0x56, 1, 1, 1, 2, 0xE2, 10]
  {
    var h: seq<byte> := [0x49, 0x4D, 0x50, 0x52, 0x4F, 0x56, 1, 1, 1, 2];
    assert Head(1, [2]) == h;
    assert h[..9][..8] == h[..8] && h[..8][..7] == h[..7] && h[..7][..6] == h[..6] && h[..6][..5] == h[..5];
    assert h[..5][..4] == h[..4] && h[..4][..3] == h[..3] && h[..3][..2] == h[..2] && h[..2][..1] == h[..1] && h[..1][..0] == [];
    assert Sum(h[..1]) == 73 && Sum(h[..2]) == 150 && Sum(h[..3]) == 230 && Sum(h[..4]) == 312 && Sum(h[..5]) == 391;
    assert Sum(h[..6]) == 477 && Sum(h[..7]) == 478 && Sum(h[..8]) == 479 && Sum(h[..9]) == 480 && Sum(h) == 482;
  }

  /** The room a result takes: two bytes, and for each string one and at most 255 more. */
  function Room(strs: seq<seq<byte>>): nat
  {
    if strs == [] then 2 else Room(strs[..|strs| - 1]) + 1 + Min(255, |strs[|strs| - 1]|)
  }

  lemma {:induction false} RoomIsLength(strs: seq<seq<byte>>)
    ensures 2 + |Strings(strs)| == Room(strs)
  {
    if strs != [] { RoomIsLength(strs[..|strs| - 1]); }
  }

  /** A result is given up exactly when it would take more than 255 bytes. */
  lemma {:induction false} ResultGivenUpIff(cmd: byte, strs: seq<seq<byte>>)
    ensures RpcResult(cmd, strs).None? <==> Room(strs) > 255
    ensures RpcResult(cmd, strs).Some? ==> |RpcResult(cmd, strs).value| == Room(strs)
  {
    RoomIsLength(strs);
  }

  /** A command packet says no more than it holds: a payload length beyond its end is refused, as is any other type. */
  lemma {:induction false} CommandRefused(typ: byte, data: seq<byte>)
    ensures RpcCommand(Packet(typ, data)).None? <==> typ != 3 || |data| < 2 || 2 + data[1] as nat > |data|
  {
  }

  /** Strings that run over the end are not read. */
  lemma {:induction false} OverrunRefused(strs: seq<seq<byte>>, n: byte, tail: seq<byte>)
    requires |tail| < n
    ensures ReadStrings(Strings(strs) + [n] + tail) == None
  {
    Overrun(Strings(strs), strs, n, tail);
  }

  lemma {:induction false} Overrun(data: seq<byte>, strs: seq<seq<byte>>, n: byte, tail: seq<byte>)
    requires ReadStrings(data).Some? || data == Strings(strs)
    requires |tail| < n
    ensures ReadStrings(data + [n] + tail) == None
    decreases |data|
  {
    if data == Strings(strs) { StringsRoundTrip(strs); }
    if data == [] {
      assert data + [n] + tail == [n] + tail;
    } else {
      var k := 1 + data[0] as nat;
      assert (data + [n] + tail)[k..] == data[k..] + [n] + tail;
      Overrun(data[k..], [], n, tail);
    }
  }
}
