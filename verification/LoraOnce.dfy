/** How often a receiver queues one packet, over everything its sources send it. */
module LoraOnce {
  import opened Bytes
  import opened LoraDedup
  import opened LoraRx

  /** A packet by its source key and the sender's unwrapped counter; on the air the counter is modulo 256. */
  datatype Item = Item(key: nat, count: nat)

  function Wire(i: Item): Accept { Accept(i.key, i.count % 256) }

  function WireLog(log: seq<Item>): (h: seq<Accept>)
    ensures |h| == |log|
    ensures forall i :: 0 <= i < |log| ==> h[i] == Wire(log[i])
  {
    if log == [] then [] else WireLog(log[..|log| - 1]) + [Wire(log[|log| - 1])]
  }

  /** What was queued after one more arrival. */
  function Arrive(log: seq<Item>, a: Item, fits: bool): seq<Item>
  {
    if IsDuplicate(After(WireLog(log)), a.key, a.count % 256) || !fits then log else log + [a]
  }

  /** The receiver's own step is this one, on the table that the log stands for. */
  lemma {:induction false} ArriveIsAccepting(log: seq<Item>, a: Item, fits: bool, got: Got)
    requires got != Nothing
    ensures var o := Accepting(After(WireLog(log)), a.key, a.count % 256, fits, got);
            && o.table == After(WireLog(Arrive(log, a, fits)))
            && (o.got == got <==> |Arrive(log, a, fits)| > |log|)
  {
    hide IsDuplicate, Commit, After;
    AfterSnoc(WireLog(log), Wire(a));
    assert (log + [a])[..|log|] == log;
  }

  function Sources(log: seq<Item>): set<nat> { set i | 0 <= i < |log| :: log[i].key }

  /** One past the last queued packet of this source; 0 if there is none. */
  function LastFrom(log: seq<Item>, key: nat): nat { LastOf(WireLog(log), key) }

  /** A channel that may lose but does not reorder: a source's counters never go back. */
  predicate InOrder(log: seq<Item>, a: Item)
  {
    forall i :: 0 <= i < |log| && log[i].key == a.key ==> log[i].count <= a.count
  }

  predicate Increasing(log: seq<Item>)
  {
    forall i, k :: 0 <= i < k < |log| && log[i].key == log[k].key ==> log[i].count < log[k].count
  }

  /** Fewer than fifteen packets of any source were queued since this one was. */
  predicate StillRemembered(log: seq<Item>, a: Item)
  {
    forall i :: 0 <= i < |log| && log[i] == a ==> |log| - i - 1 < WINDOW - 1
  }

  lemma {:induction false} SourcesAreKeys(log: seq<Item>)
    ensures Sources(log) == Keys(WireLog(log))
  {
    var h := WireLog(log);
    forall k | k in Sources(log) ensures k in Keys(h) {
      var i :| 0 <= i < |log| && log[i].key == k;
      assert h[i].key == k;
    }
    forall k | k in Keys(h) ensures k in Sources(log) {
      var i :| 0 <= i < |h| && h[i].key == k;
      assert log[i].key == k;
    }
  }

  /**
   * With at most four sources, an arrival is taken for a repeat exactly when the source's
   * last queued packet has the same counter modulo 256 and fewer than fifteen were queued since.
   */
  lemma {:induction false} RefusedIff(log: seq<Item>, a: Item)
    requires |log| < WORD && |Sources(log)| <= SLOTS
    ensures IsDuplicate(After(WireLog(log)), a.key, a.count % 256) <==>
            var l := LastFrom(log, a.key);
            l > 0 && log[l - 1].count % 256 == a.count % 256 && |log| - l < WINDOW - 1
  {
    hide IsDuplicate, After;
    SourcesAreKeys(log);
    FourSourcesExact(WireLog(log), a.key, a.count % 256);
  }

  lemma {:induction false} LastFromIsLast(log: seq<Item>, i: nat)
    requires i < |log|
    ensures i < LastFrom(log, log[i].key)
  {
    assert WireLog(log)[i].key == log[i].key;
  }

  /** A packet already queued is queued again exactly when it arrives after fifteen others and there is room. */
  lemma {:induction false} RepeatQueuedIff(log: seq<Item>, a: Item, i: nat, fits: bool)
    requires |log| < WORD && |Sources(log)| <= SLOTS && Increasing(log) && InOrder(log, a)
    requires i < |log| && log[i] == a
    ensures Arrive(log, a, fits) == log + [a] <==> fits && |log| - i - 1 >= WINDOW - 1
  {
    hide After, IsDuplicate, LastOf;
    RefusedIff(log, a);
    LastFromIsLast(log, i);
    var l := LastFrom(log, a.key);
    assert log[l - 1].key == a.key by { assert WireLog(log)[l - 1].key == a.key; }
    assert log[i].count <= log[l - 1].count <= a.count;
    assert l - 1 == i;
  }

  /** A packet not yet queued is wrongly refused exactly when it wraps onto the source's last one inside the window. */
  lemma {:induction false} NewPacketRefusedIff(log: seq<Item>, a: Item)
    requires |log| < WORD && |Sources(log)| <= SLOTS && InOrder(log, a) && a !in log
    ensures Arrive(log, a, true) == log <==>
            var l := LastFrom(log, a.key);
            l > 0 && |log| - l < WINDOW - 1 && a.count > log[l - 1].count && (a.count - log[l - 1].count) % 256 == 0
  {
    hide After, IsDuplicate;
    RefusedIff(log, a);
    var l := LastFrom(log, a.key);
    if l > 0 {
      assert log[l - 1].key == a.key by { assert WireLog(log)[l - 1].key == a.key; }
      assert log[l - 1] != a;
      SameResidue(a.count, log[l - 1].count);
    }
  }

  lemma {:induction false} SameResidue(x: nat, y: nat)
    ensures x % 256 == y % 256 <==> (x - y) % 256 == 0
  {
  }

  /** A commit under an item's key and number is one more item in the log. */
  lemma {:induction false} CommitLogs(log: seq<Item>, a: Item)
    ensures Commit(After(WireLog(log)), a.key, a.count % 256) == After(WireLog(log + [a]))
  {
    hide Commit, After;
    AfterSnoc(WireLog(log), Wire(a));
    assert (log + [a])[..|log|] == log;
  }

  /** However long the log and however many sources: a refusal means the source's last number. */
  lemma {:induction false} RefusedMeansLastNumber(log: seq<Item>, key: nat, n: byte)
    requires IsDuplicate(After(WireLog(log)), key, n)
    ensures var l := LastFrom(log, key); l > 0 && log[l - 1].key == key && log[l - 1].count % 256 == n
  {
    hide After, LastOf;
    TableIsFaithful(WireLog(log));
    var l := LastFrom(log, key);
    assert WireLog(log)[l - 1] == Wire(log[l - 1]);
  }

  /** Its counter, then, if fewer than 256 numbers lie between. */
  lemma {:induction false} RefusedWasQueued(log: seq<Item>, a: Item)
    requires IsDuplicate(After(WireLog(log)), a.key, a.count % 256) && InOrder(log, a)
    requires var l := LastFrom(log, a.key); l > 0 ==> a.count < log[l - 1].count + 256
    ensures a in log
  {
    hide After, IsDuplicate;
    RefusedMeansLastNumber(log, a.key, a.count % 256);
    var l := LastFrom(log, a.key);
    assert log[l - 1].count <= a.count && (a.count - log[l - 1].count) % 256 == 0;
    assert log[l - 1] == a;
  }

  /** With at most four sources a source's newest packet is refused while it is remembered. */
  lemma {:induction false} RememberedIsRefused(log: seq<Item>, a: Item)
    requires |Sources(log)| <= SLOTS && a in log && InOrder(log, a) && StillRemembered(log, a)
    requires forall i, k :: 0 <= i < k < |log| && log[i].key == log[k].key == a.key ==> log[i].count < log[k].count
    ensures IsDuplicate(After(WireLog(log)), a.key, a.count % 256)
  {
    hide After, IsDuplicate, Sources, LastOf;
    var h := WireLog(log);
    var i :| 0 <= i < |log| && log[i] == a;
    LastFromIsLast(log, i);
    var l := LastFrom(log, a.key);
    assert h[l - 1] == Wire(log[l - 1]) && log[l - 1].key == a.key;
    assert log[l - 1] == a;
    SourcesAreKeys(log);
    RecentRepeatIsDuplicate(h, a.key, a.count % 256);
  }

  datatype Arrival = Arrival(item: Item, fits: bool)

  /** The log after these arrivals, oldest first. */
  function Queued(arrivals: seq<Arrival>): seq<Item>
  {
    if arrivals == [] then []
    else
      var a := arrivals[|arrivals| - 1];
      Arrive(Queued(arrivals[..|arrivals| - 1]), a.item, a.fits)
  }

  /** Every arrival comes in its source's order and, if it is a retry, within the window. */
  ghost predicate InWindow(arrivals: seq<Arrival>)
  {
    forall k :: 0 <= k < |arrivals| ==>
      var log := Queued(arrivals[..k]);
      InOrder(log, arrivals[k].item) && StillRemembered(log, arrivals[k].item)
  }

  lemma {:induction false} SourcesGrow(log: seq<Item>, a: Item)
    ensures Sources(log) <= Sources(log + [a])
  {
    forall k | k in Sources(log) ensures k in Sources(log + [a]) {
      var i :| 0 <= i < |log| && log[i].key == k;
      assert (log + [a])[i].key == k;
    }
  }

  lemma {:induction false} InWindowPrefix(arrivals: seq<Arrival>)
    requires arrivals != [] && InWindow(arrivals)
    ensures var p, a := arrivals[..|arrivals| - 1], arrivals[|arrivals| - 1].item;
            InWindow(p) && InOrder(Queued(p), a) && StillRemembered(Queued(p), a)
  {
    hide Queued, InOrder, StillRemembered;
    var p := arrivals[..|arrivals| - 1];
    forall k | 0 <= k < |p| ensures p[..k] == arrivals[..k] && p[k] == arrivals[k] {}
  }

  /** Over any run from at most four sources, nothing is queued twice, and each source's packets in order. */
  lemma {:induction false} QueuedAtMostOnce(arrivals: seq<Arrival>)
    requires InWindow(arrivals) && |Sources(Queued(arrivals))| <= SLOTS
    ensures Increasing(Queued(arrivals))
  {
    if arrivals != [] {
      var p, a := arrivals[..|arrivals| - 1], arrivals[|arrivals| - 1];
      InWindowPrefix(arrivals);
      hide InWindow, Arrive, Sources, Increasing, InOrder, StillRemembered;
      var log := Queued(p);
      ArriveGrows(log, a.item, a.fits);
      QueuedAtMostOnce(p);
      NoRepeatQueued(log, a.item, a.fits);
    }
  }

  lemma {:induction false} ArriveGrows(log: seq<Item>, a: Item, fits: bool)
    ensures |Sources(log)| <= |Sources(Arrive(log, a, fits))|
  {
    SourcesGrow(log, a);
    SubsetCardinality(Sources(log), Sources(log + [a]));
  }

  lemma {:induction false} NoRepeatQueued(log: seq<Item>, a: Item, fits: bool)
    requires |Sources(log)| <= SLOTS && Increasing(log) && InOrder(log, a) && StillRemembered(log, a)
    ensures Increasing(Arrive(log, a, fits))
  {
    hide After, IsDuplicate;
    if a in log { RememberedIsRefused(log, a); }
  }

  /** Fifteen others after the first accept: the retry is queued a second time. */
  function Others(n: nat): (log: seq<Item>)
    ensures |log| == n + 1 && log[0] == Item(1, 0)
    ensures forall i :: 1 <= i < |log| ==> log[i] == Item(2, i)
  {
    if n == 0 then [Item(1, 0)] else Others(n - 1) + [Item(2, n)]
  }

  lemma {:induction false} FifteenOthersDuplicate()
    ensures Increasing(Others(15)) && InOrder(Others(15), Item(1, 0))
    ensures Arrive(Others(15), Item(1, 0), true) == Others(15) + [Item(1, 0)]
    ensures Arrive(Others(14), Item(1, 0), true) == Others(14)
  {
    hide Others, Arrive;
    TwoSources(15);
    TwoSources(14);
    RepeatQueuedIff(Others(15), Item(1, 0), 0, true);
    RepeatQueuedIff(Others(14), Item(1, 0), 0, true);
    EitherWay(Others(14), Item(1, 0), true);
  }

  lemma {:induction false} EitherWay(log: seq<Item>, a: Item, fits: bool)
    ensures Arrive(log, a, fits) == log || Arrive(log, a, fits) == log + [a]
  {
  }

  lemma {:induction false} TwoSources(n: nat)
    ensures Increasing(Others(n)) && InOrder(Others(n), Item(1, 0)) && |Sources(Others(n))| <= 2
  {
    assert Sources(Others(n)) <= {1, 2};
    SubsetCardinality(Sources(Others(n)), {1, 2});
  }
}
