/** Choosing one access point among all that broadcast the wanted network. */
module WifiSelect {
  import opened Bytes
  import opened WifiScan

  type Bssid = b: seq<byte> | |b| == 6 witness [0, 0, 0, 0, 0, 0]

  /** One scan hit as the driver reports it. */
  datatype Ap = Ap(ssid: Option<seq<byte>>, rssi: int, bssid: Option<Bssid>, channel: int)

  datatype Candidate = Candidate(rssi: int, channel: int, bssid: Bssid)

  /** An exact match with an address and a 2.4 GHz channel. */
  predicate Usable(want: seq<byte>, ap: Ap)
  {
    want != [] && ap.ssid == Some(want) && ap.bssid.Some? && 1 <= ap.channel <= 14
  }

  function CandidateOf(ap: Ap): Candidate
    requires ap.bssid.Some?
  {
    Candidate(Clamped(ap.rssi), ap.channel, ap.bssid.value)
  }

  function Consider(best: Option<Candidate>, want: seq<byte>, ap: Ap): Option<Candidate>
  {
    if !Usable(want, ap) then best
    else if best.Some? && Clamped(ap.rssi) <= best.value.rssi then best
    else Some(CandidateOf(ap))
  }

  predicate Avoided(avoid: Option<Bssid>, ap: Ap) { avoid.Some? && ap.bssid == avoid }

  /** The best of the hits, leaving out the avoided node if there is one. */
  function BestOf(want: seq<byte>, aps: seq<Ap>, avoid: Option<Bssid>): Option<Candidate>
  {
    if aps == [] then None
    else
      var b, ap := BestOf(want, aps[..|aps| - 1], avoid), aps[|aps| - 1];
      if Avoided(avoid, ap) then b else Consider(b, want, ap)
  }

  function Matches(want: seq<byte>, aps: seq<Ap>): nat
  {
    if aps == [] then 0
    else Matches(want, aps[..|aps| - 1]) + if aps[|aps| - 1].ssid == Some(want) then 1 else 0
  }

  /** The selector, fed one hit at a time; `seen` is what it was fed. */
  class Selector {
    const want: seq<byte>
    const avoid: Option<Bssid>
    var any: Option<Candidate>
    var other: Option<Candidate>
    var matches: nat
    ghost var seen: seq<Ap>

    ghost predicate Valid()
      reads this
    {
      && any == BestOf(want, seen, None) && other == BestOf(want, seen, avoid) && matches == Matches(want, seen)
    }

    constructor (want: seq<byte>, avoid: Option<Bssid>)
      ensures Valid() && this.want == want && this.avoid == avoid && seen == []
    {
      this.want, this.avoid := want, avoid;
      any, other, matches, seen := None, None, 0, [];
    }

    method Add(ap: Ap)
      requires Valid()
      modifies this
      ensures Valid() && seen == old(seen) + [ap]
    {
      seen := seen + [ap];
      assert seen[..|seen| - 1] == old(seen);
      if ap.ssid != Some(want) { return; }
      matches := matches + 1;
      any := Consider(any, want, ap);
      if !(avoid.Some? && ap.bssid == avoid) { other := Consider(other, want, ap); }
    }

    method Pick() returns (c: Option<Candidate>)
      requires Valid()
      ensures c == Picked(want, seen, avoid)
    {
      c := if other.Some? then other else any;
    }

    method OnlyAvoided() returns (b: bool)
      requires Valid()
      ensures b == (avoid.Some? && BestOf(want, seen, None).Some? && BestOf(want, seen, avoid).None?)
    {
      b := avoid.Some? && any.Some? && other.None?;
    }
  }

  function Picked(want: seq<byte>, aps: seq<Ap>, avoid: Option<Bssid>): Option<Candidate>
  {
    if BestOf(want, aps, avoid).Some? then BestOf(want, aps, avoid) else BestOf(want, aps, None)
  }

  predicate Eligible(want: seq<byte>, avoid: Option<Bssid>, ap: Ap) { Usable(want, ap) && !Avoided(avoid, ap) }

  /** The i-th hit is the strongest eligible one, and the first of that strength. */
  predicate StrongestAt(want: seq<byte>, aps: seq<Ap>, avoid: Option<Bssid>, i: nat)
  {
    && i < |aps| && Eligible(want, avoid, aps[i])
    && (forall k :: 0 <= k < |aps| && Eligible(want, avoid, aps[k]) ==> Clamped(aps[k].rssi) <= Clamped(aps[i].rssi))
    && (forall k :: 0 <= k < i && Eligible(want, avoid, aps[k]) ==> Clamped(aps[k].rssi) < Clamped(aps[i].rssi))
  }

  lemma {:induction false} BestIsStrongest(want: seq<byte>, aps: seq<Ap>, avoid: Option<Bssid>) returns (i: nat)
    ensures var b := BestOf(want, aps, avoid);
            if b.None? then forall k :: 0 <= k < |aps| ==> !Eligible(want, avoid, aps[k])
            else StrongestAt(want, aps, avoid, i) && b.value == CandidateOf(aps[i])
  {
    i := 0;
    if aps != [] {
      var n := |aps| - 1;
      i := BestIsStrongest(want, aps[..n], avoid);
      var before := BestOf(want, aps[..n], avoid);
      if Eligible(want, avoid, aps[n]) && (before.None? || Clamped(aps[n].rssi) > before.value.rssi) {
        forall k | 0 <= k < n && Eligible(want, avoid, aps[k]) ensures Clamped(aps[k].rssi) < Clamped(aps[n].rssi) {
          assert aps[..n][k] == aps[k];
        }
        i := n;
      } else if before.Some? {
        forall k | 0 <= k < n ensures aps[..n][k] == aps[k] {}
      } else {
        forall k | 0 <= k < n ensures !Eligible(want, avoid, aps[k]) { assert aps[..n][k] == aps[k]; }
      }
    }
  }

  /**
   * Over any hits: nothing is picked only if nothing matches; the avoided node is picked only
   * if nothing else matches; otherwise the first of the strongest others is.
   */
  lemma {:induction false} PicksStrongest(want: seq<byte>, aps: seq<Ap>, avoid: Option<Bssid>) returns (i: nat)
    ensures var p := Picked(want, aps, avoid);
            && (p.None? <==> forall k :: 0 <= k < |aps| ==> !Usable(want, aps[k]))
            && (p.Some? ==> i < |aps| && Usable(want, aps[i]) && p.value == CandidateOf(aps[i]))
            && (p.Some? && !Avoided(avoid, aps[i]) ==> StrongestAt(want, aps, avoid, i))
            && (p.Some? && Avoided(avoid, aps[i]) ==>
                  && StrongestAt(want, aps, None, i)
                  && forall k :: 0 <= k < |aps| && Usable(want, aps[k]) ==> Avoided(avoid, aps[k]))
  {
    i := BestIsStrongest(want, aps, avoid);
    var any := BestIsStrongest(want, aps, None);
    assert forall k :: 0 <= k < |aps| ==> (Eligible(want, None, aps[k]) <==> Usable(want, aps[k]));
    if BestOf(want, aps, avoid).None? {
      i := any;
      assert forall k :: 0 <= k < |aps| && Usable(want, aps[k]) ==> !Eligible(want, avoid, aps[k]);
    }
  }

  /** What a lone hit has to be to be picked: the wanted name exactly, an address, and a channel of the 2.4 GHz band. */
  lemma {:induction false} UsableMeans(want: seq<byte>, ap: Ap, avoid: Option<Bssid>)
    ensures Picked(want, [ap], avoid) ==
            if |want| > 0 && ap.ssid.Some? && ap.ssid.value == want && ap.bssid.Some?
               && ap.channel in {1, 2, 3, 4, 5, 6, 7, 8, 9, 10, 11, 12, 13, 14}
            then Some(Candidate(Clamped(ap.rssi), ap.channel, ap.bssid.value)) else None
  {
    hide Clamped;
    var one: seq<Ap> := [ap];
    assert one[..0] == [] && one[|one| - 1] == ap;
    assert BestOf(want, one, None) == Consider(None, want, ap);
    assert BestOf(want, one, avoid) == if Avoided(avoid, ap) then None else Consider(None, want, ap);
  }

  /** The avoided node is recognised by its address, whatever its signal. */
  lemma {:induction false} AvoidedMeans(avoid: Bssid, ap: Ap)
    ensures Avoided(Some(avoid), ap) <==> ap.bssid.Some? && ap.bssid.value == avoid
    ensures !Avoided(None, ap)
  {
  }

  /** "Retrying it" is said exactly when there is a usable hit and every one is of the node to avoid. */
  lemma {:induction false} OnlyAvoidedIff(want: seq<byte>, aps: seq<Ap>, avoid: Option<Bssid>)
    ensures avoid.Some? && BestOf(want, aps, None).Some? && BestOf(want, aps, avoid).None? <==>
            (exists k :: 0 <= k < |aps| && Usable(want, aps[k])) &&
            (forall k :: 0 <= k < |aps| && Usable(want, aps[k]) ==> avoid.Some? && aps[k].bssid == avoid)
  {
    var i := BestIsStrongest(want, aps, avoid);
    var any := BestIsStrongest(want, aps, None);
    hide BestOf, Usable;
    assert forall k :: 0 <= k < |aps| ==> (Eligible(want, None, aps[k]) <==> Usable(want, aps[k]));
    if BestOf(want, aps, avoid).Some? { assert Eligible(want, avoid, aps[i]) && !Avoided(avoid, aps[i]); }
    if BestOf(want, aps, None).Some? { assert Usable(want, aps[any]); }
    if k :| 0 <= k < |aps| && Usable(want, aps[k]) { assert Eligible(want, None, aps[k]); }
    forall k | 0 <= k < |aps| && Usable(want, aps[k]) && BestOf(want, aps, avoid).None? ensures Avoided(avoid, aps[k]) {
      assert !Eligible(want, avoid, aps[k]);
    }
  }

  /** The count is that of the hits with the wanted name, usable or not. */
  lemma {:induction false} MatchesCounts(want: seq<byte>, aps: seq<Ap>)
    ensures Matches(want, aps) == |set i | 0 <= i < |aps| && aps[i].ssid == Some(want)|
  {
    if aps != [] {
      var n := |aps| - 1;
      MatchesCounts(want, aps[..n]);
      var a := set i | 0 <= i < n && aps[..n][i].ssid == Some(want);
      var b := set i | 0 <= i < |aps| && aps[i].ssid == Some(want);
      assert b == if aps[n].ssid == Some(want) then a + {n} else a;
    }
  }
}
