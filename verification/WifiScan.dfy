/** Aggregating WiFi scan hits: a bounded list of the strongest networks, and the choice of an access point. */
module WifiScan {
  import opened Bytes

  const MAX_SSID: nat := 32

  datatype Entry = Entry(ssid: seq<byte>, rssi: int)

  /** One to 32 printable bytes. */
  predicate ValidSsid(s: seq<byte>)
  {
    1 <= |s| <= MAX_SSID && forall i :: 0 <= i < |s| ==> s[i] >= 0x20 && s[i] != 0x7F
  }

  function Clamped(rssi: int): (r: int)
    ensures -128 <= r <= 0
  {
    if rssi < -128 then -128 else if rssi > 0 then 0 else rssi
  }

  // ----- the bounded list ------------------------------------------------------------------

  /** Index of the entry with this SSID, or the length. */
  function Find(list: seq<Entry>, ssid: seq<byte>): (i: nat)
    ensures i <= |list| && (i < |list| ==> list[i].ssid == ssid)
    ensures forall k :: 0 <= k < i ==> list[k].ssid != ssid
  {
    if list == [] then 0 else if list[0].ssid == ssid then 0 else 1 + Find(list[1..], ssid)
  }

  /** The first of the weakest entries. */
  predicate WeakestAt(list: seq<Entry>, i: nat)
  {
    && i < |list| && (forall k :: 0 <= k < |list| ==> list[i].rssi <= list[k].rssi)
    && (forall k :: 0 <= k < i ==> list[i].rssi < list[k].rssi)
  }

  function Weakest(list: seq<Entry>, n: nat): (i: nat)
    requires 0 < n <= |list|
    ensures i < n && WeakestAt(list[..n], i)
    decreases n
  {
    if n == 1 then 0
    else
      var i := Weakest(list, n - 1);
      assert forall k :: 0 <= k < n - 1 ==> list[..n][k] == list[..n - 1][k];
      if list[n - 1].rssi < list[i].rssi then n - 1 else i
  }

  function Merge(list: seq<Entry>, cap: nat, ssid: seq<byte>, rssi: int): seq<Entry>
  {
    var r, i := Clamped(rssi), Find(list, ssid);
    if cap == 0 || !ValidSsid(ssid) then list
    else if i < |list| then (if r > list[i].rssi then list[i := Entry(ssid, r)] else list)
    else if |list| < cap then list + [Entry(ssid, r)]
    else
      var w := Weakest(list, |list|);
      if r <= list[w].rssi then list else list[w := Entry(ssid, r)]
  }

  method FindIn(a: array<Entry>, count: nat, ssid: seq<byte>) returns (i: nat)
    requires count <= a.Length
    ensures i == Find(a[..count], ssid)
  {
    i := 0;
    ghost var s := a[..count];
    while i < count
      invariant i <= count && Find(s, ssid) == i + Find(s[i..], ssid)
    {
      if a[i].ssid == ssid { return; }
      assert s[i..][1..] == s[i + 1..];
      i := i + 1;
    }
  }

  method WeakestIn(a: array<Entry>, count: nat) returns (slot: nat)
    requires 0 < count <= a.Length
    ensures slot == Weakest(a[..count], count)
  {
    slot := 0;
    for i := 1 to count
      invariant slot == Weakest(a[..count], i)
    {
      if a[i].rssi < a[slot].rssi { slot := i; }
    }
  }

  /** Adds one hit; returns the new number of entries. */
  method MergeInto(a: array<Entry>, count: nat, cap: nat, ssid: seq<byte>, rssi: int) returns (n: nat)
    requires count <= cap <= a.Length
    modifies a
    ensures count <= n <= cap && a[..n] == Merge(old(a[..count]), cap, ssid, rssi)
    ensures a[cap..] == old(a[cap..])
  {
    if cap == 0 || !ValidSsid(ssid) { return count; }
    var r := if rssi < -128 then -128 else if rssi > 0 then 0 else rssi;
    var i := FindIn(a, count, ssid);
    if i < count {
      if r > a[i].rssi { a[i] := Entry(a[i].ssid, r); }
      return count;
    }
    var slot := count;
    n := count;
    if count >= cap {
      slot := WeakestIn(a, count);
      if r <= a[slot].rssi { return count; }
    } else {
      n := count + 1;
    }
    a[slot] := Entry(ssid, r);
    assert slot == count ==> a[..n] == old(a[..count]) + [Entry(ssid, r)];
  }

  /** The signal strength is the driver's own, unless it is one that a signed byte or a sane radio cannot have. */
  lemma {:induction false} ClampedKeeps(x: int, y: int)
    ensures -128 <= x <= 0 ==> Clamped(x) == x
    ensures x <= y ==> Clamped(x) <= Clamped(y)
    ensures x < -128 ==> Clamped(x) == -128
    ensures x > 0 ==> Clamped(x) == 0
  {
  }

  /** A hit counts unless its name is empty or longer than 32 bytes or holds a control character. */
  lemma {:induction false} HitCounts(ssid: seq<byte>, rssi: int, cap: nat, list: seq<Entry>)
    requires cap > 0
    ensures ssid != [] && |ssid| < 33 && (forall b :: b in ssid ==> b / 32 > 0 && b != 127) ==>
              Merge([], cap, ssid, rssi) == [Entry(ssid, Clamped(rssi))]
    ensures ssid == [] || |ssid| > 32 || (exists b :: b in ssid && (b < 32 || b == 127)) ==>
              Merge(list, cap, ssid, rssi) == list
  {
    hide Clamped, Find, Weakest;
    assert Find([], ssid) == 0 by { NothingFound(ssid); }
    assert forall i :: 0 <= i < |ssid| ==> ssid[i] in ssid;
    if b :| b in ssid && (b < 32 || b == 127) {
      var i :| 0 <= i < |ssid| && ssid[i] == b;
      assert !ValidSsid(ssid);
    }
  }

  lemma {:induction false} NothingFound(ssid: seq<byte>)
    ensures Find([], ssid) == 0
  {
  }

  /** A full list gives up the first of its weakest entries for a stronger new network, and nothing for another. */
  lemma {:induction false} FullListTrades(list: seq<Entry>, ssid: seq<byte>, rssi: int, w: nat)
    requires ValidSsid(ssid) && w < |list| && forall k :: 0 <= k < |list| ==> list[k].ssid != ssid
    requires forall k :: 0 <= k < |list| ==> list[w].rssi <= list[k].rssi
    requires forall k :: 0 <= k < w ==> list[w].rssi < list[k].rssi
    ensures Merge(list, |list|, ssid, rssi) ==
            if list[w].rssi < Clamped(rssi) then list[w := Entry(ssid, Clamped(rssi))] else list
  {
    hide ValidSsid, Clamped;
    assert list[..|list|] == list;
    var v := Weakest(list, |list|);
    assert WeakestAt(list, v);
    assert v == w;
  }

  /** A network already listed keeps its place and takes the better signal. */
  lemma {:induction false} ListedTakesBetter(list: seq<Entry>, cap: nat, ssid: seq<byte>, rssi: int, i: nat)
    requires cap > 0 && ValidSsid(ssid) && i < |list| && list[i].ssid == ssid && forall k :: 0 <= k < i ==> list[k].ssid != ssid
    ensures Merge(list, cap, ssid, rssi) == list[i := Entry(ssid, Max(list[i].rssi, Clamped(rssi)))]
  {
    hide ValidSsid, Clamped, Weakest;
    assert Find(list, ssid) == i;
  }

  datatype Hit = Hit(ssid: seq<byte>, rssi: int)

  function After(hits: seq<Hit>, cap: nat): seq<Entry>
  {
    if hits == [] then []
    else Merge(After(hits[..|hits| - 1], cap), cap, hits[|hits| - 1].ssid, hits[|hits| - 1].rssi)
  }

  /** Strongest hit of an SSID so far; -129 if there was none. */
  function Best(hits: seq<Hit>, ssid: seq<byte>): (b: int)
    ensures -129 <= b <= 0
    ensures forall i :: 0 <= i < |hits| && hits[i].ssid == ssid ==> Clamped(hits[i].rssi) <= b
    ensures b > -129 ==> exists i :: 0 <= i < |hits| && hits[i].ssid == ssid && Clamped(hits[i].rssi) == b
  {
    if hits == [] then -129
    else
      var h, b := hits[|hits| - 1], Best(hits[..|hits| - 1], ssid);
      if h.ssid == ssid then Max(b, Clamped(h.rssi)) else b
  }

  predicate Listed(list: seq<Entry>, ssid: seq<byte>) { exists i :: 0 <= i < |list| && list[i].ssid == ssid }

  predicate AtBest(list: seq<Entry>, hits: seq<Hit>)
  {
    && (forall i, k :: 0 <= i < k < |list| ==> list[i].ssid != list[k].ssid)
    && (forall i :: 0 <= i < |list| ==> ValidSsid(list[i].ssid) && list[i].rssi == Best(hits, list[i].ssid) > -129)
  }

  ghost predicate NothingStronger(list: seq<Entry>, cap: nat, hits: seq<Hit>)
  {
    forall ssid :: ValidSsid(ssid) && !Listed(list, ssid) && Best(hits, ssid) > -129 ==>
      |list| == cap && forall i :: 0 <= i < |list| ==> Best(hits, ssid) <= list[i].rssi
  }

  /** The list is exactly the strongest networks: distinct, at their best, nothing stronger left out. */
  ghost predicate TopOf(list: seq<Entry>, cap: nat, hits: seq<Hit>)
  {
    |list| <= cap && AtBest(list, hits) && NothingStronger(list, cap, hits)
  }

  lemma {:induction false} BestSnoc(hits: seq<Hit>, h: Hit, ssid: seq<byte>)
    ensures Best(hits + [h], ssid) ==
            if h.ssid == ssid then Max(Best(hits, ssid), Clamped(h.rssi)) else Best(hits, ssid)
  {
    assert (hits + [h])[..|hits|] == hits;
  }

  lemma {:induction false} BestsAfter(hits: seq<Hit>, h: Hit)
    ensures forall ssid :: Best(hits + [h], ssid) ==
              if ssid == h.ssid then Max(Best(hits, ssid), Clamped(h.rssi)) else Best(hits, ssid)
  {
    hide Best;
    forall ssid
      ensures Best(hits + [h], ssid) ==
              if ssid == h.ssid then Max(Best(hits, ssid), Clamped(h.rssi)) else Best(hits, ssid)
    {
      BestSnoc(hits, h, ssid);
    }
  }

  lemma {:induction false} MergeSkips(list: seq<Entry>, cap: nat, hits: seq<Hit>, h: Hit)
    requires TopOf(list, cap, hits) && cap > 0 && !ValidSsid(h.ssid)
    ensures TopOf(list, cap, hits + [h])
  {
    hide Best, ValidSsid;
    forall ssid | ValidSsid(ssid) ensures Best(hits + [h], ssid) == Best(hits, ssid) { BestSnoc(hits, h, ssid); }
  }

  /** A network already listed keeps its place and its strongest hit. */
  lemma {:induction false} MergeRefreshes(list: seq<Entry>, cap: nat, hits: seq<Hit>, h: Hit, i: nat)
    requires TopOf(list, cap, hits) && ValidSsid(h.ssid) && i < |list| && list[i].ssid == h.ssid
    ensures TopOf(list[i := Entry(h.ssid, Max(list[i].rssi, Clamped(h.rssi)))], cap, hits + [h])
  {
    hide Best, ValidSsid, Listed;
    var now := list[i := Entry(h.ssid, Max(list[i].rssi, Clamped(h.rssi)))];
    BestsAfter(hits, h);
    assert AtBest(now, hits + [h]);
    IsListed(list, i);
    forall ssid ensures Listed(now, ssid) <==> Listed(list, ssid) {
      SameNames(list, now, ssid);
    }
  }

  lemma {:induction false} SameNames(list: seq<Entry>, now: seq<Entry>, ssid: seq<byte>)
    requires |list| == |now| && forall k :: 0 <= k < |list| ==> list[k].ssid == now[k].ssid
    ensures Listed(now, ssid) <==> Listed(list, ssid)
  {
    if Listed(now, ssid) {
      var k :| 0 <= k < |now| && now[k].ssid == ssid;
      assert list[k].ssid == ssid;
    }
    if Listed(list, ssid) {
      var k :| 0 <= k < |list| && list[k].ssid == ssid;
      assert now[k].ssid == ssid;
    }
  }

  lemma {:induction false} MergeAppends(list: seq<Entry>, cap: nat, hits: seq<Hit>, h: Hit)
    requires TopOf(list, cap, hits) && ValidSsid(h.ssid) && !Listed(list, h.ssid) && |list| < cap
    ensures TopOf(list + [Entry(h.ssid, Clamped(h.rssi))], cap, hits + [h])
  {
    hide Best, ValidSsid;
    var now := list + [Entry(h.ssid, Clamped(h.rssi))];
    BestsAfter(hits, h);
    forall ssid | Listed(list, ssid) ensures Listed(now, ssid) {
      var k :| 0 <= k < |list| && list[k].ssid == ssid;
      assert now[k].ssid == ssid;
    }
    assert now[|list|].ssid == h.ssid;
  }

  /** Too weak for a full list. */
  lemma {:induction false} MergeRejects(list: seq<Entry>, cap: nat, hits: seq<Hit>, h: Hit, w: nat)
    requires TopOf(list, cap, hits) && ValidSsid(h.ssid) && !Listed(list, h.ssid) && |list| == cap
    requires WeakestAt(list, w) && Clamped(h.rssi) <= list[w].rssi
    ensures TopOf(list, cap, hits + [h])
  {
    hide Best, ValidSsid;
    BestsAfter(hits, h);
  }

  /** The weakest makes way; whatever was omitted before was no stronger than it. */
  lemma {:induction false} MergeReplaces(list: seq<Entry>, cap: nat, hits: seq<Hit>, h: Hit, w: nat)
    requires TopOf(list, cap, hits) && ValidSsid(h.ssid) && !Listed(list, h.ssid) && |list| == cap
    requires WeakestAt(list, w) && Clamped(h.rssi) > list[w].rssi
    ensures TopOf(list[w := Entry(h.ssid, Clamped(h.rssi))], cap, hits + [h])
  {
    hide Best, ValidSsid, Listed;
    var now := list[w := Entry(h.ssid, Clamped(h.rssi))];
    BestsAfter(hits, h);
    forall k | 0 <= k < |list| ensures Listed(list, list[k].ssid) { IsListed(list, k); }
    forall k | 0 <= k < |now| ensures Listed(now, now[k].ssid) { IsListed(now, k); }
    assert AtBest(now, hits + [h]);
    forall ssid | ValidSsid(ssid) && !Listed(now, ssid) && Best(hits + [h], ssid) > -129
      ensures Best(hits + [h], ssid) <= list[w].rssi
    {
      assert now[w].ssid == h.ssid && Listed(now, now[w].ssid);
      if ssid != list[w].ssid && Listed(list, ssid) { StillListed(list, now, w, ssid); }
    }
  }

  lemma {:induction false} IsListed(list: seq<Entry>, k: nat)
    requires k < |list|
    ensures Listed(list, list[k].ssid)
  {
  }

  lemma {:induction false} StillListed(list: seq<Entry>, now: seq<Entry>, w: nat, ssid: seq<byte>)
    requires |now| == |list| && w < |list| && (forall k :: 0 <= k < |list| && k != w ==> now[k] == list[k])
    requires Listed(list, ssid) && ssid != list[w].ssid
    ensures Listed(now, ssid)
  {
    var k :| 0 <= k < |list| && list[k].ssid == ssid;
    assert now[k].ssid == ssid;
  }

  lemma {:induction false} MergeKeeps(list: seq<Entry>, cap: nat, hits: seq<Hit>, h: Hit)
    requires TopOf(list, cap, hits) && cap > 0
    ensures TopOf(Merge(list, cap, h.ssid, h.rssi), cap, hits + [h])
  {
    var i := Find(list, h.ssid);
    if !ValidSsid(h.ssid) {
      MergeSkips(list, cap, hits, h);
    } else if i < |list| {
      MergeRefreshes(list, cap, hits, h, i);
      if Clamped(h.rssi) <= list[i].rssi { assert list[i := Entry(h.ssid, list[i].rssi)] == list; }
    } else if |list| < cap {
      MergeAppends(list, cap, hits, h);
    } else {
      var w := Weakest(list, |list|);
      assert list[..|list|] == list;
      if Clamped(h.rssi) <= list[w].rssi { MergeRejects(list, cap, hits, h, w); }
      else { MergeReplaces(list, cap, hits, h, w); }
    }
  }

  /**
   * After any hits: the listed SSIDs are distinct, each with the best signal ever seen for
   * it, also if it was pushed out and came back, and nothing stronger is left out.
   */
  lemma {:induction false} ListIsTop(hits: seq<Hit>, cap: nat)
    requires cap > 0
    ensures TopOf(After(hits, cap), cap, hits)
  {
    hide After, TopOf, Merge;
    if hits == [] {
      NothingHeard(cap);
    } else {
      var p, h := hits[..|hits| - 1], hits[|hits| - 1];
      AfterLast(hits, cap);
      ListIsTop(p, cap);
      MergeKeeps(After(p, cap), cap, p, h);
      assert p + [h] == hits;
    }
  }

  lemma {:induction false} NothingHeard(cap: nat)
    ensures TopOf(After([], cap), cap, [])
  {
  }

  lemma {:induction false} AfterLast(hits: seq<Hit>, cap: nat)
    requires hits != []
    ensures var h := hits[|hits| - 1]; After(hits, cap) == Merge(After(hits[..|hits| - 1], cap), cap, h.ssid, h.rssi)
  {
  }

  // ----- strongest first ------------------------------------------------------------------------

  /** Where an entry goes in a descending list: behind everything at least as strong. */
  function Place(s: seq<Entry>, e: Entry): (j: nat)
    ensures j <= |s|
    ensures forall k :: j <= k < |s| ==> s[k].rssi < e.rssi
    ensures j > 0 ==> s[j - 1].rssi >= e.rssi
  {
    if s == [] || s[|s| - 1].rssi >= e.rssi then |s| else Place(s[..|s| - 1], e)
  }

  function Insert(s: seq<Entry>, e: Entry): seq<Entry> { s[..Place(s, e)] + [e] + s[Place(s, e)..] }

  function Sorted(s: seq<Entry>): (r: seq<Entry>)
    ensures |r| == |s|
  {
    if s == [] then [] else Insert(Sorted(s[..|s| - 1]), s[|s| - 1])
  }

  predicate Descending(s: seq<Entry>) { forall i, k :: 0 <= i < k < |s| ==> s[i].rssi >= s[k].rssi }

  /** The entries of one strength, in order. */
  function OfStrength(s: seq<Entry>, v: int): seq<Entry>
  {
    if s == [] then []
    else OfStrength(s[..|s| - 1], v) + if s[|s| - 1].rssi == v then [s[|s| - 1]] else []
  }

  lemma {:induction false} StrengthAppend(s: seq<Entry>, t: seq<Entry>, v: int)
    ensures OfStrength(s + t, v) == OfStrength(s, v) + OfStrength(t, v)
    decreases |t|
  {
    if t == [] {
      assert s + t == s;
    } else {
      var u := t[..|t| - 1];
      assert (s + t)[..|s + t| - 1] == s + u;
      StrengthAppend(s, u, v);
    }
  }

  lemma {:induction false} NoneOfStrength(s: seq<Entry>, v: int)
    requires forall k :: 0 <= k < |s| ==> s[k].rssi != v
    ensures OfStrength(s, v) == []
  {
    if s != [] { NoneOfStrength(s[..|s| - 1], v); }
  }

  lemma {:induction false} InsertPermutes(s: seq<Entry>, e: Entry)
    ensures multiset(Insert(s, e)) == multiset(s) + multiset{e}
  {
    hide Place;
    var j := Place(s, e);
    assert multiset(s[..j]) + multiset(s[j..]) == multiset(s) by { assert s == s[..j] + s[j..]; }
  }

  lemma {:induction false} InsertKeepsOrder(s: seq<Entry>, e: Entry, v: int)
    ensures OfStrength(Insert(s, e), v) == OfStrength(s + [e], v)
  {
    hide Place, OfStrength;
    var j := Place(s, e);
    InsertStable(s[..j], e, s[j..], v);
    assert s[..j] + s[j..] == s;
  }

  lemma {:induction false} InsertDescending(s: seq<Entry>, e: Entry)
    requires Descending(s)
    ensures Descending(Insert(s, e))
  {
    var j, t := Place(s, e), Insert(s, e);
    forall k | 0 <= k < j ensures s[k].rssi >= e.rssi {
      if k < j - 1 { assert s[k].rssi >= s[j - 1].rssi; }
    }
    forall i, k | 0 <= i < k < |t| ensures t[i].rssi >= t[k].rssi {
      assert t[i] == if i < j then s[i] else if i == j then e else s[i - 1];
      assert t[k] == if k < j then s[k] else if k == j then e else s[k - 1];
    }
  }

  /** An entry may move ahead of weaker ones without changing the order of any one strength. */
  lemma {:induction false} InsertStable(a: seq<Entry>, e: Entry, b: seq<Entry>, v: int)
    requires forall k :: 0 <= k < |b| ==> b[k].rssi < e.rssi
    ensures OfStrength(a + [e] + b, v) == OfStrength(a + b + [e], v)
  {
    hide OfStrength;
    StrengthAppend(a + [e], b, v);
    StrengthAppend(a, [e], v);
    StrengthAppend(a + b, [e], v);
    StrengthAppend(a, b, v);
    var x, y, z := OfStrength(a, v), OfStrength(b, v), OfStrength([e], v);
    if v == e.rssi {
      NoneOfStrength(b, v);
      assert (x + z) + [] == x + z && (x + []) + z == x + z;
    } else {
      NoneOfStrength([e], v);
      assert (x + []) + y == x + y && (x + y) + [] == x + y;
    }
  }

  lemma {:induction false} InsertStep(p: seq<Entry>, q: seq<Entry>, e: Entry, v: int)
    requires Descending(q) && multiset(q) == multiset(p) && OfStrength(q, v) == OfStrength(p, v)
    ensures Descending(Insert(q, e)) && multiset(Insert(q, e)) == multiset(p + [e])
    ensures OfStrength(Insert(q, e), v) == OfStrength(p + [e], v)
  {
    hide Insert, Descending, OfStrength;
    InsertDescending(q, e);
    InsertPermutes(q, e);
    InsertKeepsOrder(q, e, v);
    StrengthAppend(q, [e], v);
    StrengthAppend(p, [e], v);
  }

  /** Sorting gives a descending permutation that keeps the order of equally strong entries. */
  lemma {:induction false} SortedStable(s: seq<Entry>, v: int)
    ensures Descending(Sorted(s)) && multiset(Sorted(s)) == multiset(s)
    ensures OfStrength(Sorted(s), v) == OfStrength(s, v)
  {
    hide Insert, Descending, OfStrength;
    if s == [] {
      NothingSorted(v);
    } else {
      var p, e := s[..|s| - 1], s[|s| - 1];
      SortedStable(p, v);
      InsertStep(p, Sorted(p), e, v);
      assert p + [e] == s;
    }
  }

  lemma {:induction false} NothingSorted(v: int)
    ensures Descending(Sorted([])) && Sorted([]) == [] && OfStrength([], v) == []
  {
  }

  lemma {:induction false} PlaceUnique(s: seq<Entry>, e: Entry, j: nat)
    requires j <= |s| && (forall k :: j <= k < |s| ==> s[k].rssi < e.rssi) && (j > 0 ==> s[j - 1].rssi >= e.rssi)
    ensures Place(s, e) == j
  {
    var q := Place(s, e);
    assert q > 0 ==> s[q - 1].rssi >= e.rssi;
    assert j > 0 ==> s[j - 1].rssi >= e.rssi;
  }

  /** One round: the entry at i moves into its place before it. */
  method InsertAt(a: array<Entry>, i: nat)
    requires i < a.Length
    modifies a
    ensures a[..i + 1] == Insert(old(a[..i]), old(a[i])) && a[i + 1..] == old(a[i + 1..])
  {
    hide Place;
    var e := a[i];
    ghost var p := a[..i];
    var j := i;
    while j > 0 && a[j - 1].rssi < e.rssi
      invariant j <= i && (forall k :: 0 <= k < j ==> a[k] == p[k]) && (forall k :: j < k <= i ==> a[k] == p[k - 1])
      invariant forall k :: j <= k < i ==> p[k].rssi < e.rssi
      invariant a[i + 1..] == old(a[i + 1..])
    {
      a[j] := a[j - 1];
      j := j - 1;
    }
    a[j] := e;
    PlaceUnique(p, e, j);
    assert a[..i + 1] == p[..j] + [e] + p[j..];
  }

  /** The insertion sort, in place. */
  method SortInPlace(a: array<Entry>, count: nat)
    requires count <= a.Length
    modifies a
    ensures a[..count] == Sorted(old(a[..count])) && a[count..] == old(a[count..])
  {
    hide Insert;
    if count == 0 { return; }
    ghost var s := a[..];
    SortedNext(s, 0);
    for i := 1 to count
      invariant a[..i] == Sorted(s[..i]) && a[i..] == s[i..]
    {
      assert a[i] == a[i..][0];
      InsertAt(a, i);
      SortedNext(s, i);
    }
    assert s[..count] == old(a[..count]);
  }

  lemma {:induction false} SortedNext(s: seq<Entry>, i: nat)
    requires i < |s|
    ensures Sorted(s[..i + 1]) == Insert(Sorted(s[..i]), s[i])
    ensures i == 0 ==> Sorted(s[..1]) == s[..1]
  {
    assert s[..i + 1][..i] == s[..i];
  }
}
