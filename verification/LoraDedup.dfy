/** Per-source duplicate suppression: a four-slot table that stands for a history. */
module LoraDedup {
  import opened Bytes

  const SLOTS: nat := 4
  const WINDOW: nat := 16
  const WORD: nat := 0x1_0000_0000

  datatype Entry = Entry(key: nat, at: nat, n: byte, used: bool)

  /** `accepted` counts commits modulo 2^32; `lru` is the next slot to give up. */
  datatype Table = Table(entries: seq<Entry>, lru: nat, accepted: nat) {
    predicate Valid() { |entries| == SLOTS && lru < SLOTS && accepted < WORD }
  }

  const EMPTY_ENTRY := Entry(0, 0, 0, false)
  const EMPTY := Table([EMPTY_ENTRY, EMPTY_ENTRY, EMPTY_ENTRY, EMPTY_ENTRY], 0, 0)

  predicate Holds(e: Entry, key: nat) { e.used && e.key == key }

  /** The slot that holds the key, or SLOTS. */
  function Lookup(t: Table, key: nat, from: nat): (i: nat)
    requires t.Valid() && from <= SLOTS
    ensures from <= i <= SLOTS
    ensures i < SLOTS ==> Holds(t.entries[i], key)
    ensures forall k :: from <= k < i ==> !Holds(t.entries[k], key)
    decreases SLOTS - from
  {
    if from == SLOTS || Holds(t.entries[from], key) then from else Lookup(t, key, from + 1)
  }

  function FreeSlot(t: Table, from: nat): (i: nat)
    requires t.Valid() && from <= SLOTS
    ensures from <= i <= SLOTS
    ensures i < SLOTS ==> !t.entries[i].used
    ensures forall k :: from <= k < i ==> t.entries[k].used
    decreases SLOTS - from
  {
    if from == SLOTS || !t.entries[from].used then from else FreeSlot(t, from + 1)
  }

  /** How many commits ago, the subtraction wrapping at 2^32. */
  function Age(t: Table, e: Entry): nat
  {
    (t.accepted - e.at) % WORD
  }

  predicate IsDuplicate(t: Table, key: nat, n: byte)
    requires t.Valid()
  {
    var i := Lookup(t, key, 0);
    i < SLOTS && t.entries[i].n == n && Age(t, t.entries[i]) < WINDOW
  }

  /** The slot a commit writes: the key's own, a free one, or the next victim. */
  function SlotFor(t: Table, key: nat): (i: nat)
    requires t.Valid()
    ensures i < SLOTS
  {
    var i := Lookup(t, key, 0);
    if i < SLOTS then i
    else
      var f := FreeSlot(t, 0);
      if f < SLOTS then f else t.lru
  }

  predicate Evicts(t: Table, key: nat)
    requires t.Valid()
  {
    Lookup(t, key, 0) == SLOTS && FreeSlot(t, 0) == SLOTS
  }

  function Commit(t: Table, key: nat, n: byte): (r: Table)
    requires t.Valid()
    ensures r.Valid()
  {
    Table(t.entries[SlotFor(t, key) := Entry(key, t.accepted, n, true)],
          if Evicts(t, key) then (t.lru + 1) % SLOTS else t.lru,
          (t.accepted + 1) % WORD)
  }

  /** The table the firmware keeps, updated in place. */
  class RxDedup {
    const entries: array<Entry>
    var lru: nat
    var accepted: nat

    constructor ()
      ensures Valid() && fresh(entries) && Abs() == EMPTY
    {
      entries := new Entry[SLOTS](_ => EMPTY_ENTRY);
      lru, accepted := 0, 0;
    }

    ghost function Abs(): Table
      reads this, entries
    {
      Table(entries[..], lru, accepted)
    }

    ghost predicate Valid()
      reads this, entries
    {
      Abs().Valid()
    }

    method Find(key: nat) returns (i: nat)
      requires Valid()
      ensures i == Lookup(Abs(), key, 0)
    {
      i := 0;
      while i < SLOTS
        invariant i <= SLOTS && Lookup(Abs(), key, i) == Lookup(Abs(), key, 0)
      {
        if entries[i].used && entries[i].key == key { return; }
        i := i + 1;
      }
    }

    /** Looks without changing anything: a check that is not committed evicts nothing. */
    method Check(key: nat, n: byte) returns (dup: bool)
      requires Valid()
      ensures dup == IsDuplicate(Abs(), key, n)
    {
      var i := Find(key);
      dup := i < SLOTS && entries[i].n == n && (accepted - entries[i].at) % WORD < WINDOW;
    }

    /** The slot to write; gives up the oldest claim when the table is full. */
    method FindOrAllocate(key: nat) returns (i: nat)
      requires Valid()
      modifies this, entries
      ensures Valid() && accepted == old(accepted)
      ensures i == SlotFor(old(Abs()), key)
      ensures lru == if Evicts(old(Abs()), key) then (old(lru) + 1) % SLOTS else old(lru)
      ensures forall k :: 0 <= k < SLOTS && k != i ==> entries[k] == old(entries[k])
    {
      i := Find(key);
      if i < SLOTS { return; }
      i := 0;
      while i < SLOTS
        invariant i <= SLOTS && Abs() == old(Abs()) && FreeSlot(Abs(), i) == FreeSlot(Abs(), 0)
      {
        if !entries[i].used { return; }
        i := i + 1;
      }
      i := lru;
      lru := (lru + 1) % SLOTS;
      entries[i] := entries[i].(used := false);
    }

    method DoCommit(key: nat, n: byte)
      requires Valid()
      modifies this, entries
      ensures Valid() && Abs() == Commit(old(Abs()), key, n)
    {
      var i := FindOrAllocate(key);
      entries[i] := Entry(key, accepted, n, true);
      accepted := (accepted + 1) % WORD;
      assert entries[..] == Commit(old(Abs()), key, n).entries;
    }
  }

  // ----- the history the table stands for -----------------------------------------------------

  datatype Accept = Accept(key: nat, n: byte)

  /** The table after these commits, oldest first. */
  function After(h: seq<Accept>): (t: Table)
    ensures t.Valid()
  {
    if h == [] then EMPTY else Commit(After(h[..|h| - 1]), h[|h| - 1].key, h[|h| - 1].n)
  }

  /** One past the index of the key's last commit; 0 if there is none. */
  function LastOf(h: seq<Accept>, key: nat): (i: nat)
    ensures i <= |h|
    ensures i > 0 ==> h[i - 1].key == key
    ensures forall k :: i <= k < |h| ==> h[k].key != key
  {
    if h == [] || h[|h| - 1].key == key then |h| else LastOf(h[..|h| - 1], key)
  }

  function Keys(h: seq<Accept>): set<nat> { set i | 0 <= i < |h| :: h[i].key }

  /**
   * What a duplicate means: the key's most recent commit had this number, and fewer than
   * fifteen commits came after it.
   */
  predicate Repeats(h: seq<Accept>, key: nat, n: byte)
  {
    var i := LastOf(h, key);
    i > 0 && h[i - 1].n == n && |h| - i < WINDOW - 1
  }

  /** Every used slot holds its key's most recent commit. */
  predicate Faithful(t: Table, h: seq<Accept>)
    requires t.Valid()
  {
    && t.accepted == |h| % WORD
    && (forall i :: 0 <= i < SLOTS && t.entries[i].used ==>
          var e, l := t.entries[i], LastOf(h, t.entries[i].key);
          l > 0 && e.n == h[l - 1].n && e.at == (l - 1) % WORD)
    && UniqueKeys(t)
  }

  predicate UniqueKeys(t: Table)
    requires t.Valid()
  {
    forall i, k :: 0 <= i < k < SLOTS && t.entries[i].used && t.entries[k].used ==> t.entries[i].key != t.entries[k].key
  }

  lemma {:induction false} LastOfSnoc(h: seq<Accept>, a: Accept, key: nat)
    ensures LastOf(h + [a], key) == if a.key == key then |h| + 1 else LastOf(h, key)
  {
    assert (h + [a])[..|h|] == h;
  }

  lemma {:induction false} CommitStaysFaithful(t: Table, h: seq<Accept>, a: Accept)
    requires t.Valid() && Faithful(t, h)
    ensures Faithful(Commit(t, a.key, a.n), h + [a])
  {
    hide LastOf, Lookup, FreeSlot, SlotFor;
    var r := Commit(t, a.key, a.n);
    var s := SlotFor(t, a.key);
    assert r.accepted == (|h| + 1) % WORD by { WrapSucc(|h|); }
    LastOfSnoc(h, a, a.key);
    forall i | 0 <= i < SLOTS && i != s && r.entries[i].used
      ensures r.entries[i] == t.entries[i] && r.entries[i].key != a.key
      ensures LastOf(h + [a], r.entries[i].key) == LastOf(h, r.entries[i].key)
      ensures (h + [a])[..|h|] == h
    {
      LastOfSnoc(h, a, r.entries[i].key);
      assert !Holds(t.entries[i], a.key) by { OnlyTheSlotHolds(t, a.key, i); }
    }
  }

  lemma {:induction false} OnlyTheSlotHolds(t: Table, key: nat, i: nat)
    requires t.Valid() && UniqueKeys(t) && i < SLOTS && i != SlotFor(t, key)
    ensures !Holds(t.entries[i], key)
  {
  }

  lemma {:induction false} WrapSucc(n: nat)
    ensures (n % WORD + 1) % WORD == (n + 1) % WORD
  {
  }

  lemma {:induction false} TableIsFaithful(h: seq<Accept>)
    ensures Faithful(After(h), h)
  {
    if h != [] {
      var p := h[..|h| - 1];
      TableIsFaithful(p);
      CommitStaysFaithful(After(p), p, h[|h| - 1]);
      assert p + [h[|h| - 1]] == h;
    }
  }

  lemma {:induction false} AgeIsDistance(len: nat, l: nat)
    requires 0 < l <= len < WORD
    ensures (len % WORD - (l - 1) % WORD) % WORD == len - l + 1
  {
  }

  /**
   * Over any history shorter than 2^32, what the table calls a duplicate repeats the key's
   * most recent commit, fewer than fifteen commits back.
   */
  lemma {:induction false} DuplicateMeansRepeat(h: seq<Accept>, key: nat, n: byte)
    requires |h| < WORD
    ensures IsDuplicate(After(h), key, n) ==> Repeats(h, key, n)
  {
    hide After, LastOf;
    TableIsFaithful(h);
    var l := LastOf(h, key);
    if l > 0 { AgeIsDistance(|h|, l); }
  }

  /** While no key was ever pushed out, the table misses no repeat either. */
  lemma {:induction false} KnownKeyIsExact(h: seq<Accept>, key: nat, n: byte)
    requires |h| < WORD && (key in Keys(h) ==> Lookup(After(h), key, 0) < SLOTS)
    ensures IsDuplicate(After(h), key, n) <==> Repeats(h, key, n)
  {
    hide After;
    TableIsFaithful(h);
    var l := LastOf(h, key);
    if l > 0 {
      AgeIsDistance(|h|, l);
      assert h[l - 1].key in Keys(h);
    }
  }

  function TableKeys(t: Table): set<nat>
    requires t.Valid()
  {
    set i | 0 <= i < SLOTS && t.entries[i].used :: t.entries[i].key
  }

  lemma {:induction false} KeysSnoc(h: seq<Accept>, a: Accept)
    ensures Keys(h + [a]) == Keys(h) + {a.key}
  {
    var g := h + [a];
    forall k | k in Keys(h) + {a.key} ensures k in Keys(g) {
      if k == a.key {
        assert g[|h|].key == k;
      } else {
        var i :| 0 <= i < |h| && h[i].key == k;
        assert g[i].key == k;
      }
    }
  }

  /** Four used slots hold four different keys. */
  lemma {:induction false} FullTableHasFourKeys(t: Table)
    requires t.Valid() && UniqueKeys(t) && FreeSlot(t, 0) == SLOTS
    ensures |TableKeys(t)| == 4
  {
    var e := t.entries;
    assert TableKeys(t) == {e[0].key, e[1].key, e[2].key, e[3].key};
    assert e[0].key != e[1].key && e[0].key != e[2].key && e[0].key != e[3].key;
    assert e[1].key != e[2].key && e[1].key != e[3].key && e[2].key != e[3].key;
  }

  lemma {:induction false} EvictionNeedsFive(t: Table, key: nat)
    requires t.Valid() && UniqueKeys(t) && Evicts(t, key)
    ensures |TableKeys(t) + {key}| == 5
  {
    FullTableHasFourKeys(t);
    NotHeldMeansNotIn(t, key);
  }

  lemma {:induction false} CommitKeys(t: Table, key: nat, n: byte)
    requires t.Valid() && !Evicts(t, key) && UniqueKeys(t)
    ensures TableKeys(Commit(t, key, n)) == TableKeys(t) + {key}
  {
    var r := Commit(t, key, n);
    var s := SlotFor(t, key);
    forall k | k in TableKeys(t) + {key} ensures k in TableKeys(r) {
      if k == key {
        assert r.entries[s].used && r.entries[s].key == k;
      } else {
        var i :| 0 <= i < SLOTS && t.entries[i].used && t.entries[i].key == k;
        assert i != s;
        assert r.entries[i].used && r.entries[i].key == k;
      }
    }
  }

  /** With at most four sources nothing is ever pushed out. */
  lemma {:induction false} FewKeysAllStay(h: seq<Accept>)
    requires |Keys(h)| <= SLOTS
    ensures TableKeys(After(h)) == Keys(h)
  {
    if h != [] {
      var p, a := h[..|h| - 1], h[|h| - 1];
      assert p + [a] == h;
      KeysSnoc(p, a);
      SubsetCardinality(Keys(p), Keys(h));
      FewKeysAllStay(p);
      TableIsFaithful(p);
      var t := After(p);
      if Evicts(t, a.key) {
        EvictionNeedsFive(t, a.key);
        assert false;
      }
      CommitKeys(t, a.key, a.n);
    }
  }

  lemma {:induction false} NotHeldMeansNotIn(t: Table, key: nat)
    requires t.Valid()
    ensures key in TableKeys(t) <==> Lookup(t, key, 0) < SLOTS
  {
    var i := Lookup(t, key, 0);
    if i < SLOTS { assert t.entries[i].used && t.entries[i].key == key; }
    if key in TableKeys(t) {
      var k :| 0 <= k < SLOTS && t.entries[k].used && t.entries[k].key == key;
      assert Holds(t.entries[k], key);
    }
  }

  lemma {:induction false} SubsetCardinality(a: set<nat>, b: set<nat>)
    requires a <= b
    ensures |a| <= |b|
  {
    if a != {} {
      var x :| x in a;
      SubsetCardinality(a - {x}, b - {x});
    }
  }

  /** With at most four sources the table decides exactly what the history says. */
  lemma {:induction false} FourSourcesExact(h: seq<Accept>, key: nat, n: byte)
    requires |h| < WORD && |Keys(h)| <= SLOTS
    ensures IsDuplicate(After(h), key, n) <==> Repeats(h, key, n)
  {
    hide After, IsDuplicate, Repeats;
    FewKeysAllStay(h);
    NotHeldMeansNotIn(After(h), key);
    KnownKeyIsExact(h, key, n);
  }

  /** A recent repeat is recognised however long the history: the wrapped ages of recent commits are right. */
  lemma {:induction false} RecentRepeatIsDuplicate(h: seq<Accept>, key: nat, n: byte)
    requires |Keys(h)| <= SLOTS && Repeats(h, key, n)
    ensures IsDuplicate(After(h), key, n)
  {
    hide After, LastOf;
    var l := LastOf(h, key);
    assert h[l - 1].key in Keys(h);
    TableIsFaithful(h);
    FewKeysAllStay(h);
    NotHeldMeansNotIn(After(h), key);
    RecentAge(|h|, l);
  }

  lemma {:induction false} RecentAge(len: nat, l: nat)
    requires 0 < l <= len && len - l < WINDOW - 1
    ensures (len % WORD - (l - 1) % WORD) % WORD == len - l + 1
  {
    var d := len - l + 1;
    assert len == (l - 1) + d;
  }

  /** Four sources fill the slots in order; source 1 is heard again. */
  const FILLED: seq<Accept> := [Accept(1, 7), Accept(2, 7), Accept(3, 7), Accept(4, 7), Accept(1, 8)]

  lemma {:induction false} FourSlots()
    ensures After([Accept(1, 7), Accept(2, 7), Accept(3, 7), Accept(4, 7)]) ==
            Table([Entry(1, 0, 7, true), Entry(2, 1, 7, true), Entry(3, 2, 7, true), Entry(4, 3, 7, true)], 0, 4)
  {
    hide After;
    var e := EMPTY_ENTRY;
    CommitIs([], EMPTY, Accept(1, 7), [Entry(1, 0, 7, true), e, e, e]) by { EmptyHistory(); }
    var h1 := [Accept(1, 7)];
    assert [] + [Accept(1, 7)] == h1;
    CommitIs(h1, After(h1), Accept(2, 7), [Entry(1, 0, 7, true), Entry(2, 1, 7, true), e, e]);
    var h2 := h1 + [Accept(2, 7)];
    CommitIs(h2, After(h2), Accept(3, 7), [Entry(1, 0, 7, true), Entry(2, 1, 7, true), Entry(3, 2, 7, true), e]);
    var h3 := h2 + [Accept(3, 7)];
    CommitIs(h3, After(h3), Accept(4, 7),
             [Entry(1, 0, 7, true), Entry(2, 1, 7, true), Entry(3, 2, 7, true), Entry(4, 3, 7, true)]);
    assert h3 + [Accept(4, 7)] == [Accept(1, 7), Accept(2, 7), Accept(3, 7), Accept(4, 7)];
  }

  lemma {:induction false} EmptyHistory()
    ensures After([]) == EMPTY
  {
  }

  /** A commit that pushes nothing out, spelled out. */
  lemma {:induction false} CommitIs(h: seq<Accept>, t: Table, a: Accept, entries: seq<Entry>)
    requires t == After(h) && !Evicts(t, a.key) && t.accepted + 1 < WORD
    requires entries == t.entries[SlotFor(t, a.key) := Entry(a.key, t.accepted, a.n, true)]
    ensures After(h + [a]) == Table(entries, t.lru, t.accepted + 1)
  {
    hide After;
    AfterSnoc(h, a);
  }

  /** A fifth source pushes out a slot round robin, even one that was just refreshed. */
  lemma {:induction false} FifthSourceEvictsFreshest()
    ensures Repeats(FILLED + [Accept(5, 7)], 1, 8) && !IsDuplicate(After(FILLED + [Accept(5, 7)]), 1, 8)
  {
    hide After;
    FourSlots();
    var h4 := [Accept(1, 7), Accept(2, 7), Accept(3, 7), Accept(4, 7)];
    AfterSnoc(h4, Accept(1, 8));
    AfterSnoc(h4 + [Accept(1, 8)], Accept(5, 7));
    assert h4 + [Accept(1, 8)] == FILLED;
    LastOfSnoc(FILLED, Accept(5, 7), 1);
    LastOfSnoc(h4, Accept(1, 8), 1);
  }

  lemma {:induction false} AfterSnoc(h: seq<Accept>, a: Accept)
    ensures After(h + [a]) == Commit(After(h), a.key, a.n)
  {
    assert (h + [a])[..|h|] == h;
  }

  // ----- the round robin over a run -------------------------------------------------------------------

  /** All keys of the history differ. */
  predicate AllNew(h: seq<Accept>) { forall i, k :: 0 <= i < k < |h| ==> h[i].key != h[k].key }

  /** After n commits of new sources, commit i sits in slot i modulo 4 if it is one of the last four. */
  predicate InTurn(t: Table, h: seq<Accept>)
  {
    && t.Valid() && t.lru == (if |h| < SLOTS then 0 else |h| % SLOTS) && t.accepted == |h| % WORD
    && forall s :: 0 <= s < SLOTS ==>
         if s < |h| then var i := LastIn(|h|, s); t.entries[s] == Entry(h[i].key, i % WORD, h[i].n, true)
         else !t.entries[s].used
  }

  /** The last of n commits that went to slot s. */
  function LastIn(n: nat, s: nat): (i: nat)
    requires s < n && s < SLOTS
    ensures i < n <= i + SLOTS && i % SLOTS == s
  {
    var last := n - 1;
    var i := last - (last - s) % SLOTS;
    assert (last - s) % SLOTS < SLOTS;
    i
  }

  lemma {:induction false} NewTakesTurn(t: Table, h: seq<Accept>, a: Accept)
    requires InTurn(t, h) && AllNew(h + [a])
    ensures SlotFor(t, a.key) == |h| % SLOTS && Lookup(t, a.key, 0) == SLOTS && (Evicts(t, a.key) <==> |h| >= SLOTS)
  {
    var g := h + [a];
    forall s | 0 <= s < SLOTS ensures !Holds(t.entries[s], a.key) {
      if s < |h| { assert g[LastIn(|h|, s)].key != g[|h|].key; }
    }
    var free := FreeSlot(t, 0);
    if |h| < SLOTS { assert !t.entries[|h|].used && forall s :: 0 <= s < |h| ==> t.entries[s].used; }
  }

  lemma {:induction false} CommitTakesTurn(t: Table, h: seq<Accept>, a: Accept)
    requires InTurn(t, h) && AllNew(h + [a])
    ensures InTurn(Commit(t, a.key, a.n), h + [a])
  {
    hide SlotFor, Evicts, Lookup, FreeSlot, LastIn, AllNew;
    NewTakesTurn(t, h, a);
    OwnTurn(|h|);
    NextTurn(|h|);
    WrapSucc(|h|);
    var r, g, mine := Commit(t, a.key, a.n), h + [a], |h| % SLOTS;
    forall s | 0 <= s < SLOTS && s != mine ensures r.entries[s] == t.entries[s] {}
    forall s | 0 <= s < SLOTS && s != mine && s < |g| ensures s < |h| && LastIn(|g|, s) == LastIn(|h|, s) {
      SameTurn(|h|, s);
    }
    assert forall k :: 0 <= k < |h| ==> g[k] == h[k];
  }

  lemma {:induction false} NextTurn(n: nat)
    ensures (if n + 1 < SLOTS then 0 else (n + 1) % SLOTS) ==
            if n < SLOTS then 0 else (n % SLOTS + 1) % SLOTS
  {
  }

  lemma {:induction false} SourcesTakeTurns(h: seq<Accept>)
    requires AllNew(h)
    ensures InTurn(After(h), h)
  {
    hide Commit, InTurn;
    if h == [] {
      assert InTurn(EMPTY, []) by { NoTurnYet(); }
    } else {
      var g, a := h[..|h| - 1], h[|h| - 1];
      assert h == g + [a];
      SourcesTakeTurns(g);
      CommitTakesTurn(After(g), g, a);
    }
  }

  lemma {:induction false} NoTurnYet()
    ensures InTurn(EMPTY, [])
  {
  }

  lemma {:induction false} SameTurn(n: nat, s: nat)
    requires s < SLOTS && s < n + 1 && s != n % SLOTS
    ensures s < n && LastIn(n + 1, s) == LastIn(n, s)
  {
  }

  lemma {:induction false} OwnTurn(n: nat)
    ensures n % SLOTS < n + 1 && LastIn(n + 1, n % SLOTS) == n
  {
  }

  /**
   * New sources push each other out in turn: with all sources different, a packet is recognised
   * exactly while it is one of the last four accepted.
   */
  lemma {:induction false} LastFourAreKnown(h: seq<Accept>, i: nat)
    requires AllNew(h) && i < |h|
    ensures IsDuplicate(After(h), h[i].key, h[i].n) <==> |h| - i <= 4
  {
    hide After, LastIn, Lookup, AllNew;
    SourcesTakeTurns(h);
    var t := After(h);
    var l := Lookup(t, h[i].key, 0);
    if |h| - i <= 4 {
      Placed(|h|, i);
      assert Holds(t.entries[i % SLOTS], h[i].key);
      SameKeySameCommit(h, LastIn(|h|, l), i);
      RecentAge(|h|, i + 1);
    } else if l < SLOTS {
      SameKeySameCommit(h, LastIn(|h|, l), i);
    }
  }

  lemma {:induction false} Placed(n: nat, i: nat)
    requires i < n <= i + SLOTS
    ensures i % SLOTS < n && LastIn(n, i % SLOTS) == i
  {
  }

  lemma {:induction false} SameKeySameCommit(h: seq<Accept>, i: nat, k: nat)
    requires AllNew(h) && i < |h| && k < |h| && h[i].key == h[k].key
    ensures i == k
  {
  }
}
