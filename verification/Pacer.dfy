/** The two-class pacer between the PC's adapter and its board. */
module Pacer {
  import opened Bytes
  import opened IpPacket

  const MAX_QUEUED: nat := 10
  const MAX_AGE: int := 3000
  const OVERHEAD: nat := 60
  const SMALL_LEN: nat := 24
  const MAX_FACTOR: nat := 4000

  /** Packets that go before bulk data: ICMP, DNS, TCP control and small segments. */
  predicate Interactive(p: seq<byte>)
  {
    if |p| < 20 then true
    else
      var t := Ihl(p);
      if p[9] == 1 then true
      else if p[9] == 17 then |p| >= t + 4 && (Word(p, t) == 53 || Word(p, t + 2) == 53)
      else if p[9] == 6 then |p| < t + 20 || p[t + 13] % 8 != 0 || |p| - t - (p[t + 12] / 16) as nat * 4 <= 64
      else false
  }

  /** A queued packet: what goes on the cable, its length on the air, when it came. */
  datatype Pkt = Pkt(frame: seq<byte>, airLen: nat, at: int)

  /** A packet and its number among all that ever came. */
  datatype Arrival = Arrival(id: nat, pk: Pkt)

  /** The two queues and what became of everything else. */
  datatype State = State(hi: seq<Arrival>, lo: seq<Arrival>, pushed: seq<Arrival>,
                         sentHi: seq<Arrival>, sentLo: seq<Arrival>, lost: seq<Arrival>)

  const EMPTY := State([], [], [], [], [], [])

  function Enqueue(s: State, a: Arrival, interactive: bool): State
  {
    if interactive then s.(hi := s.hi + [a]) else s.(lo := s.lo + [a])
  }

  /** A full queue gives up the new packet if it is bulk, else the oldest bulk packet, else the oldest packet. */
  function Push(s: State, pk: Pkt, interactive: bool): State
  {
    var a := Arrival(|s.pushed|, pk);
    var s1 := s.(pushed := s.pushed + [a]);
    if |s.hi| + |s.lo| < MAX_QUEUED then Enqueue(s1, a, interactive)
    else if !interactive then s1.(lost := s.lost + [a])
    else if s.lo != [] then Enqueue(s1.(lo := s.lo[1..], lost := s.lost + [s.lo[0]]), a, true)
    else Enqueue(s1.(hi := s.hi[1..], lost := s.lost + [s.hi[0]]), a, true)
  }

  predicate Stale(pk: Pkt, now: int) { now - pk.at > MAX_AGE }

  predicate Idle(s: State) { s.hi == [] && s.lo == [] }

  function NextUp(s: State): Arrival
    requires !Idle(s)
  {
    if s.hi != [] then s.hi[0] else s.lo[0]
  }

  /** One turn of the sender's loop: the next packet is sent, or lost if it is stale. */
  function Take(s: State, now: int): State
    requires !Idle(s)
  {
    var a := NextUp(s);
    var s1 := if s.hi != [] then s.(hi := s.hi[1..]) else s.(lo := s.lo[1..]);
    if Stale(a.pk, now) then s1.(lost := s.lost + [a])
    else if s.hi != [] then s1.(sentHi := s.sentHi + [a])
    else s1.(sentLo := s.sentLo + [a])
  }

  /** Turns until a packet is sent, or none is left to wait for; the k-th reads the clock's k-th value. */
  function TakeFresh(s: State, clock: nat -> int, k: nat): State
    decreases |s.hi| + |s.lo|
  {
    if Idle(s) then s
    else if Stale(NextUp(s).pk, clock(k)) then TakeFresh(Take(s, clock(k)), clock, k + 1)
    else Take(s, clock(k))
  }

  /** The second state has sent one packet more. */
  predicate SendsOne(s: State, t: State, a: Arrival)
  {
    || (t.sentHi == s.sentHi + [a] && t.sentLo == s.sentLo)
    || (t.sentLo == s.sentLo + [a] && t.sentHi == s.sentHi)
  }

  predicate Matches(q: seq<Pkt>, s: seq<Arrival>)
  {
    |q| == |s| && forall i :: 0 <= i < |s| ==> q[i] == s[i].pk
  }

  /** The pacer itself; the ghost state also remembers what the queues no longer hold. */
  class PacerQueue {
    var hi: seq<Pkt>
    var lo: seq<Pkt>
    var closed: bool
    var dropped: nat
    ghost var past: State

    ghost predicate Valid()
      reads this
    {
      !closed ==> Matches(hi, past.hi) && Matches(lo, past.lo) && dropped == |past.lost|
    }

    constructor ()
      ensures Valid() && !closed && past == EMPTY
    {
      hi, lo, closed, dropped := [], [], false, 0;
      past := EMPTY;
    }

    method DoPush(ip: seq<byte>, frame: seq<byte>, now: int)
      requires Valid()
      modifies this
      ensures Valid() && closed == old(closed)
      ensures past == if closed then old(past) else Push(old(past), Pkt(frame, |ip|, now), Interactive(ip))
    {
      var pk := Pkt(frame, |ip|, now);
      var first := Interactive(ip);
      if closed { return; }
      past := Push(past, pk, first);
      if |hi| + |lo| >= MAX_QUEUED {
        dropped := dropped + 1;
        if !first { return; }
        if |lo| > 0 { lo := lo[1..]; } else { hi := hi[1..]; }
      }
      if first { hi := hi + [pk]; } else { lo := lo + [pk]; }
    }

    /** None: closed, or nothing left to send yet. */
    method Pop(clock: nat -> int) returns (r: Option<Pkt>)
      requires Valid()
      modifies this
      ensures Valid() && closed == old(closed)
      ensures closed ==> r == None && past == old(past)
      ensures !closed ==> past == TakeFresh(old(past), clock, 0)
      ensures !closed && r == None ==> Idle(past) && past.sentHi == old(past).sentHi && past.sentLo == old(past).sentLo
      ensures !closed && r.Some? ==>
                exists a: Arrival, k :: a.pk == r.value && SendsOne(old(past), past, a) && !Stale(a.pk, clock(k))
    {
      if closed { return None; }
      var k := 0;
      while |hi| + |lo| > 0
        invariant Valid() && !closed && TakeFresh(past, clock, k) == TakeFresh(old(past), clock, 0)
        invariant past.sentHi == old(past).sentHi && past.sentLo == old(past).sentLo
        decreases |hi| + |lo|
      {
        ghost var a := NextUp(past);
        var now := clock(k);
        past, k := Take(past, now), k + 1;
        var pk;
        if |hi| > 0 { pk, hi := hi[0], hi[1..]; } else { pk, lo := lo[0], lo[1..]; }
        if now - pk.at > MAX_AGE { dropped := dropped + 1; continue; }
        assert a.pk == pk && !Stale(a.pk, clock(k - 1));
        return Some(pk);
      }
      return None;
    }

    method Close()
      modifies this
      ensures Valid() && closed && hi == [] && lo == []
    {
      closed, hi, lo := true, [], [];
    }
  }

  // ----- over any interleaving ----------------------------------------------------------------

  datatype Event = Pushed(pk: Pkt, interactive: bool) | Taken(now: int)

  function After(es: seq<Event>): State
  {
    if es == [] then EMPTY
    else
      var s := After(es[..|es| - 1]);
      match es[|es| - 1]
      case Pushed(pk, interactive) => Push(s, pk, interactive)
      case Taken(now) => if Idle(s) then s else Take(s, now)
  }

  predicate Ascending(s: seq<Arrival>) { forall i, k :: 0 <= i < k < |s| ==> s[i].id < s[k].id }

  predicate Below(s: seq<Arrival>, n: nat) { forall i :: 0 <= i < |s| ==> s[i].id < n }

  predicate Ordered(s: State)
  {
    && Ascending(s.sentHi + s.hi) && Ascending(s.sentLo + s.lo)
    && Below(s.sentHi + s.hi, |s.pushed|) && Below(s.sentLo + s.lo, |s.pushed|)
    && forall i :: 0 <= i < |s.pushed| ==> s.pushed[i].id == i
  }

  function Everything(s: State): multiset<Arrival>
  {
    multiset(s.hi) + multiset(s.lo) + multiset(s.sentHi) + multiset(s.sentLo) + multiset(s.lost)
  }

  predicate Conserved(s: State) { multiset(s.pushed) == Everything(s) }

  predicate Inv(s: State) { |s.hi| + |s.lo| <= MAX_QUEUED && Ordered(s) && Conserved(s) }

  lemma {:induction false} HeadAndTail(q: seq<Arrival>)
    requires q != []
    ensures multiset(q) == multiset{q[0]} + multiset(q[1..])
  {
    assert q == [q[0]] + q[1..];
  }

  lemma {:induction false} AscendingDropsOne(sent: seq<Arrival>, q: seq<Arrival>, n: nat)
    requires q != [] && Ascending(sent + q) && Below(sent + q, n)
    ensures Ascending(sent + q[1..]) && Below(sent + q[1..], n)
    ensures (sent + [q[0]]) + q[1..] == sent + q
  {
    var s, t := sent + q, sent + q[1..];
    assert forall i :: 0 <= i < |t| ==> t[i] == s[if i < |sent| then i else i + 1];
  }

  lemma {:induction false} AscendingAppends(sent: seq<Arrival>, q: seq<Arrival>, a: Arrival)
    requires Ascending(sent + q) && Below(sent + q, a.id)
    ensures Ascending(sent + (q + [a])) && Below(sent + (q + [a]), a.id + 1)
  {
    assert sent + (q + [a]) == (sent + q) + [a];
  }

  lemma {:induction false} BelowGrows(s: seq<Arrival>, n: nat)
    requires Below(s, n)
    ensures Below(s, n + 1)
  {
  }

  lemma {:induction false} EnqueueKeeps(s: State, pk: Pkt, interactive: bool)
    requires Inv(s) && |s.hi| + |s.lo| < MAX_QUEUED
    ensures var a := Arrival(|s.pushed|, pk);
            Inv(Enqueue(s.(pushed := s.pushed + [a]), a, interactive))
  {
    hide Ascending, Below, Conserved;
    var a := Arrival(|s.pushed|, pk);
    BelowGrows(s.sentHi + s.hi, a.id);
    BelowGrows(s.sentLo + s.lo, a.id);
    if interactive { AscendingAppends(s.sentHi, s.hi, a); } else { AscendingAppends(s.sentLo, s.lo, a); }
    EnqueueConserves(s, a, interactive);
  }

  lemma {:induction false} EnqueueConserves(s: State, a: Arrival, interactive: bool)
    requires Conserved(s)
    ensures Conserved(Enqueue(s.(pushed := s.pushed + [a]), a, interactive))
  {
    assert multiset(s.hi + [a]) == multiset(s.hi) + multiset{a};
    assert multiset(s.lo + [a]) == multiset(s.lo) + multiset{a};
  }

  /** The state without the head of a queue. */
  function Without(s: State, fromHi: bool): State
    requires if fromHi then s.hi != [] else s.lo != []
  {
    if fromHi then s.(hi := s.hi[1..]) else s.(lo := s.lo[1..])
  }

  function Lose(s: State, fromHi: bool): State
    requires if fromHi then s.hi != [] else s.lo != []
  {
    Without(s, fromHi).(lost := s.lost + [if fromHi then s.hi[0] else s.lo[0]])
  }

  function Send(s: State, fromHi: bool): State
    requires if fromHi then s.hi != [] else s.lo != []
  {
    if fromHi then Without(s, true).(sentHi := s.sentHi + [s.hi[0]])
    else Without(s, false).(sentLo := s.sentLo + [s.lo[0]])
  }

  lemma {:induction false} HeadLeaves(s: State, fromHi: bool)
    requires Inv(s) && (if fromHi then s.hi != [] else s.lo != [])
    ensures Inv(Lose(s, fromHi)) && Inv(Send(s, fromHi))
  {
    hide Ascending, Below, Conserved;
    if fromHi { AscendingDropsOne(s.sentHi, s.hi, |s.pushed|); } else { AscendingDropsOne(s.sentLo, s.lo, |s.pushed|); }
    HeadConserves(s, fromHi);
  }

  lemma {:induction false} HeadConserves(s: State, fromHi: bool)
    requires Conserved(s) && (if fromHi then s.hi != [] else s.lo != [])
    ensures Conserved(Lose(s, fromHi)) && Conserved(Send(s, fromHi))
  {
    HeadAndTail(if fromHi then s.hi else s.lo);
  }

  lemma {:induction false} PushKeeps(s: State, pk: Pkt, interactive: bool)
    requires Inv(s)
    ensures Inv(Push(s, pk, interactive))
  {
    var a := Arrival(|s.pushed|, pk);
    if |s.hi| + |s.lo| < MAX_QUEUED {
      hide Inv;
      EnqueueKeeps(s, pk, interactive);
    } else if !interactive {
      hide Ascending, Below;
      BelowGrows(s.sentHi + s.hi, a.id);
      BelowGrows(s.sentLo + s.lo, a.id);
    } else {
      hide Inv;
      HeadLeaves(s, s.lo == []);
      EnqueueKeeps(Lose(s, s.lo == []), pk, true);
    }
  }

  lemma {:induction false} TakeKeeps(s: State, now: int)
    requires Inv(s) && !Idle(s)
    ensures Inv(Take(s, now))
  {
    hide Inv;
    HeadLeaves(s, s.hi != []);
    assert Take(s, now) == if Stale(NextUp(s).pk, now) then Lose(s, s.hi != []) else Send(s, s.hi != []);
  }

  lemma {:induction false} RunKeeps(es: seq<Event>)
    ensures Inv(After(es))
  {
    if es != [] {
      RunKeeps(es[..|es| - 1]);
      hide Inv;
      var s := After(es[..|es| - 1]);
      match es[|es| - 1]
      case Pushed(pk, interactive) => PushKeeps(s, pk, interactive);
      case Taken(now) => if !Idle(s) { TakeKeeps(s, now); }
    }
  }

  /**
   * Over every interleaving: never more than ten packets queued, every packet pushed is
   * queued, sent or lost, exactly once, and within a class packets leave in the order they
   * came, the waiting ones behind the sent ones.
   */
  lemma {:induction false} BoundedFairAndComplete(es: seq<Event>)
    ensures var s := After(es);
            && |s.hi| + |s.lo| <= MAX_QUEUED
            && multiset(s.pushed) == Everything(s)
            && (forall i :: 0 <= i < |s.pushed| ==> s.pushed[i].id == i)
            && Ascending(s.sentHi + s.hi) && Ascending(s.sentLo + s.lo)
  {
    RunKeeps(es);
  }

  /** Which of the packets that came were interactive. */
  function Classes(es: seq<Event>): seq<bool>
  {
    if es == [] then []
    else
      var c := Classes(es[..|es| - 1]);
      if es[|es| - 1].Pushed? then c + [es[|es| - 1].interactive] else c
  }

  ghost predicate Sorted(s: State, c: seq<bool>)
  {
    && |c| == |s.pushed|
    && (forall a :: a in s.hi || a in s.sentHi ==> a.id < |c| && c[a.id])
    && (forall a :: a in s.lo || a in s.sentLo ==> a.id < |c| && !c[a.id])
  }

  lemma {:induction false} ClassesSorted(es: seq<Event>)
    ensures Sorted(After(es), Classes(es))
  {
    if es != [] {
      var p, e := es[..|es| - 1], es[|es| - 1];
      ClassesSorted(p);
      match e
      case Pushed(pk, interactive) => PushSorts(After(p), Classes(p), pk, interactive);
      case Taken(_) =>
    }
  }

  lemma {:induction false} PushSorts(s: State, c: seq<bool>, pk: Pkt, interactive: bool)
    requires Sorted(s, c)
    ensures Sorted(Push(s, pk, interactive), c + [interactive])
  {
  }

  /** All the packets of a class that ever came are sent or lost. */
  predicate Settled(s: State, c: seq<bool>, interactive: bool)
    requires |c| == |s.pushed|
  {
    forall i :: 0 <= i < |c| && c[i] == interactive ==>
      s.pushed[i] in (if interactive then s.sentHi else s.sentLo) || s.pushed[i] in s.lost
  }

  lemma {:induction false} NoneWaiting(s: State, c: seq<bool>, interactive: bool)
    requires Inv(s) && Sorted(s, c) && (if interactive then s.hi else s.lo) == []
    ensures Settled(s, c, interactive)
  {
    forall i | 0 <= i < |c| && c[i] == interactive
      ensures s.pushed[i] in (if interactive then s.sentHi else s.sentLo) || s.pushed[i] in s.lost
    {
      assert s.pushed[i] in multiset(s.pushed);
      assert s.pushed[i] in Everything(s);
    }
  }

  /**
   * Over every run: when a bulk packet is sent, every interactive packet that came so far has
   * been sent or lost; when a queued interactive packet has to make room, so has every bulk packet.
   */
  lemma {:induction false} InteractiveFirst(es: seq<Event>, e: Event)
    ensures var s, t, c := After(es), After(es + [e]), Classes(es);
            && |c| == |s.pushed|
            && (t.sentLo != s.sentLo ==> Settled(s, c, true))
            && (e.Pushed? && !(s.hi <= t.hi) ==> e.interactive && Settled(s, c, false))
  {
    assert (es + [e])[..|es|] == es;
    RunKeeps(es);
    ClassesSorted(es);
    var s := After(es);
    assert |Classes(es)| == |s.pushed|;
    hide Inv, Sorted, Settled, Classes;
    if s.hi == [] { NoneWaiting(s, Classes(es), true); }
    if s.lo == [] { NoneWaiting(s, Classes(es), false); }
  }

  /** The run with its bulk packets taken out. */
  function WithoutBulk(es: seq<Event>): seq<Event>
  {
    if es == [] then []
    else
      var p := WithoutBulk(es[..|es| - 1]);
      if es[|es| - 1].Pushed? && !es[|es| - 1].interactive then p else p + [es[|es| - 1]]
  }

  function Pkts(q: seq<Arrival>): seq<Pkt> { seq(|q|, i requires 0 <= i < |q| => q[i].pk) }

  /** To interactive traffic bulk is invisible: with or without it the same interactive packets wait and are sent. */
  lemma {:induction false} BulkIsInvisible(es: seq<Event>)
    ensures var s, t := After(es), After(WithoutBulk(es));
            Pkts(s.hi) == Pkts(t.hi) && Pkts(s.sentHi) == Pkts(t.sentHi) && t.lo == []
  {
    if es != [] {
      var p, e := es[..|es| - 1], es[|es| - 1];
      BulkIsInvisible(p);
      RunKeeps(p);
      RunKeeps(WithoutBulk(p));
      var q := WithoutBulk(p);
      assert (q + [e])[..|q|] == q;
      var s, t := After(p), After(q);
      match e
      case Pushed(pk, interactive) => if interactive { SamePush(s, t, pk); }
      case Taken(now) => SameTake(s, t, now);
    }
  }

  predicate Alike(s: State, t: State)
  {
    Pkts(s.hi) == Pkts(t.hi) && Pkts(s.sentHi) == Pkts(t.sentHi) && t.lo == []
  }

  lemma {:induction false} PktsOf(q: seq<Arrival>, a: Arrival)
    ensures |Pkts(q)| == |q| && Pkts(q + [a]) == Pkts(q) + [a.pk]
    ensures q != [] ==> Pkts(q)[0] == q[0].pk && Pkts(q[1..]) == Pkts(q)[1..]
    ensures q != [] ==> Pkts(q[1..] + [a]) == Pkts(q)[1..] + [a.pk]
  {
  }

  lemma {:induction false} SamePush(s: State, t: State, pk: Pkt)
    requires Alike(s, t) && |s.hi| + |s.lo| <= MAX_QUEUED
    ensures Alike(Push(s, pk, true), Push(t, pk, true))
  {
    PktsOf(s.hi, Arrival(|s.pushed|, pk));
    PktsOf(t.hi, Arrival(|t.pushed|, pk));
    hide Pkts;
  }

  lemma {:induction false} SameTake(s: State, t: State, now: int)
    requires Alike(s, t)
    ensures Alike(if Idle(s) then s else Take(s, now), if Idle(t) then t else Take(t, now))
  {
    PktsOf(s.hi, Arrival(0, Pkt([], 0, 0)));
    PktsOf(t.hi, Arrival(0, Pkt([], 0, 0)));
    if s.hi != [] {
      PktsOf(s.sentHi, s.hi[0]);
      PktsOf(t.sentHi, t.hi[0]);
    }
    hide Pkts;
  }

  /** A call that waits for a fresh packet is some turns of the loop, so what holds of runs holds of it. */
  lemma {:induction false} PopIsTurns(es: seq<Event>, clock: nat -> int, k: nat) returns (turns: seq<Event>)
    ensures After(es + turns) == TakeFresh(After(es), clock, k)
    ensures forall e :: e in turns ==> e.Taken?
    decreases |After(es).hi| + |After(es).lo|
  {
    var s, e := After(es), Taken(clock(k));
    assert (es + [e])[..|es|] == es;
    if Idle(s) {
      turns := [];
      assert es + [] == es;
    } else if Stale(NextUp(s).pk, clock(k)) {
      var more := PopIsTurns(es + [e], clock, k + 1);
      turns := [e] + more;
      assert (es + [e]) + more == es + turns;
    } else {
      turns := [e];
    }
  }

  /** A turn gives up its packet exactly when that waited for more than three seconds; otherwise it sends it. */
  lemma {:induction false} StaleIsLost(s: State, now: int)
    requires s.hi != [] || s.lo != []
    ensures var t, a := Take(s, now), if s.hi != [] then s.hi[0] else s.lo[0];
            if now > a.pk.at + 3000 then t.lost == s.lost + [a] && t.sentHi == s.sentHi && t.sentLo == s.sentLo
            else t.lost == s.lost && SendsOne(s, t, a)
  {
  }

  /** Whatever is sent had waited at most three seconds when the clock was read. */
  lemma {:induction false} OnlyFreshIsSent(s: State, clock: nat -> int, k: nat)
    ensures var t := TakeFresh(s, clock, k);
            (t.sentHi != s.sentHi || t.sentLo != s.sentLo) ==>
              exists a, j :: (a in s.hi || a in s.lo) && clock(j) <= a.pk.at + 3000 && SendsOne(s, t, a)
    decreases |s.hi| + |s.lo|
  {
    if !Idle(s) {
      var a, u := NextUp(s), Take(s, clock(k));
      assert forall x :: (x in u.hi || x in u.lo) ==> (x in s.hi || x in s.lo);
      if Stale(a.pk, clock(k)) { OnlyFreshIsSent(u, clock, k + 1); } else { assert a in s.hi || a in s.lo; }
    }
  }

  // ----- the pace -----------------------------------------------------------------------------------

  function Backoff(factor: nat): nat { Min(factor * 3 / 2, MAX_FACTOR) }

  function Recover(factor: nat): nat { Max(factor * 95 / 100, 1000) }

  /** The slow-down factor in permille, updated in place. */
  class Pace {
    var factor: nat

    constructor ()
      ensures factor == 1000
    {
      factor := 1000;
    }

    method DoBackoff()
      modifies this
      ensures factor == Backoff(old(factor))
    {
      var n := factor * 3 / 2;
      if n > MAX_FACTOR { n := MAX_FACTOR; }
      factor := n;
    }

    method DoRecover()
      modifies this
      ensures factor == Recover(old(factor))
    {
      var n := factor * 95 / 100;
      if n < 1000 { n := 1000; }
      factor := n;
    }
  }

  datatype Report = Busy | Quiet

  function Factor(rs: seq<Report>): nat
  {
    if rs == [] then 1000
    else
      var f := Factor(rs[..|rs| - 1]);
      if rs[|rs| - 1].Busy? then Backoff(f) else Recover(f)
  }

  /** The pace stays between the radio's own and a quarter of it; every report moves it unless it is at that end. */
  lemma {:induction false} FactorBounded(rs: seq<Report>)
    ensures 1000 <= Factor(rs) <= MAX_FACTOR
    ensures Factor(rs) < MAX_FACTOR ==> Backoff(Factor(rs)) > Factor(rs)
    ensures Factor(rs) > 1000 ==> Recover(Factor(rs)) < Factor(rs)
  {
    if rs != [] { FactorBounded(rs[..|rs| - 1]); }
  }

  /** Half slower, rounded down, up to a quarter of the nominal pace; five per cent faster, rounded down, down to it. */
  lemma {:induction false} PaceSteps(f: nat)
    ensures Backoff(f) == 4000 || (2 * Backoff(f) <= 3 * f < 2 * Backoff(f) + 2 && Backoff(f) < 4000)
    ensures 3 * f >= 8000 ==> Backoff(f) == 4000
    ensures Recover(f) == 1000 || (100 * Recover(f) <= 95 * f < 100 * Recover(f) + 100 && Recover(f) > 1000)
    ensures 95 * f < 100_100 ==> Recover(f) == 1000
  {
  }

  /** Airtimes in nanoseconds as the board reports them; unusable ones are replaced. */
  datatype Airtimes = Airtimes(full: nat, small: nat)

  const MS: nat := 1_000_000

  function Known(fullMs: int, smallMs: int): (t: Airtimes)
    ensures t.small <= t.full
  {
    if fullMs <= 0 || smallMs <= 0 || smallMs > fullMs then Airtimes(400 * MS, 60 * MS)
    else Airtimes(fullMs * MS, smallMs * MS)
  }

  /** Reported airtimes are used if they make sense: positive, the small one not above the full one. */
  lemma {:induction false} KnownMeans(fullMs: int, smallMs: int)
    ensures Known(fullMs, smallMs) ==
            if 1 <= smallMs && smallMs <= fullMs then Airtimes(fullMs * 1_000_000, smallMs * 1_000_000)
            else Airtimes(400_000_000, 60_000_000)
  {
  }

  function Cost(t: Airtimes, airLen: nat, factor: nat): nat
    requires t.small <= t.full
  {
    var extra := Max(airLen - SMALL_LEN, 0);
    var data := t.small + Scale(t.full - t.small, extra, NET_MAX_IP - SMALL_LEN);
    Scale(data + t.small + OVERHEAD * MS, factor, 1000)
  }

  /**
   * A longer packet, or a slower pace, never costs less; at the nominal pace a full packet
   * costs its reported airtimes.
   */
  lemma {:induction false} CostMonotone(fullMs: int, smallMs: int, shorter: nat, longer: nat, slow: nat, slower: nat)
    requires shorter <= longer && slow <= slower
    ensures var t := Known(fullMs, smallMs);
            && Cost(t, shorter, slow) <= Cost(t, longer, slower)
            && Cost(t, NET_MAX_IP, 1000) == t.full + t.small + OVERHEAD * MS
            && Cost(t, SMALL_LEN, 1000) == 2 * t.small + OVERHEAD * MS
  {
    var t := Known(fullMs, smallMs);
    var x, y := Max(shorter - SMALL_LEN, 0), Max(longer - SMALL_LEN, 0);
    var c, d := t.full - t.small, (NET_MAX_IP - SMALL_LEN) as nat;
    ScaleMonotone(c, c, x, y, d);
    var fixed := 2 * t.small + OVERHEAD * MS;
    ScaleMonotone(Scale(c, x, d) + fixed, Scale(c, y, d) + fixed, slow, slower, 1000);
    assert c * d / d == c;
  }

  /**
   * Between the two reported airtimes a packet's costs grow with its length, rounded down to a
   * nanosecond; the pace then scales all of it. Packets below the minimal one cost the same.
   */
  lemma {:induction false} CostIs(t: Airtimes, airLen: nat, factor: nat)
    requires t.small <= t.full
    ensures var c := Cost(t, airLen, 1000);
            && (airLen <= 24 ==> c == 2 * t.small + 60_000_000)
            && (airLen > 24 ==>
                  var more := c - (2 * t.small + 60_000_000);
                  more * 223 <= (t.full - t.small) * (airLen - 24) < (more + 1) * 223)
            && 1000 * Cost(t, airLen, factor) <= factor * c < 1000 * Cost(t, airLen, factor) + 1000
  {
    var extra := Max(airLen - SMALL_LEN, 0);
    var x := (t.full - t.small) * extra;
    assert NET_MAX_IP - SMALL_LEN == 223;
    var base := t.small + Scale(t.full - t.small, extra, 223) + t.small + OVERHEAD * MS;
    assert x == (x / 223) * 223 + x % 223;
    assert Cost(t, airLen, 1000) == base by { assert base * 1000 / 1000 == base; }
    var y := base * factor;
    assert y == (y / 1000) * 1000 + y % 1000 && y == factor * base;
  }
}
