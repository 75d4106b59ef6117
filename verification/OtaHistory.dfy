/** What an upload's outcome says about everything that happened to it. */
module OtaHistory {
  import opened Bytes
  import opened Ota

  /** Everything a first part has to pass before its bytes are looked at, the flash writer's start included. */
  predicate Admitted(s: State, r: Req, w: World)
  {
    && r !in s.statuses && w.alloc && w.originOk && w.authSet && w.authOk && s.owner == None && s.mutex == Free
    && (r.cmd == Spiffs ==> w.fsLock)
  }

  /** A part whose bytes, if any, were written. */
  predicate Written(e: Event)
    requires e.Part?
  {
    e.len == 0 || e.w.writeOk
  }

  /** The first part of an upload that goes on after it. */
  predicate Begins(s: State, e: Event, r: Req)
  {
    e.Part? && e.r == r && e.first && Admitted(s, r, e.w) && e.w.beginOk && Written(e) && !e.final
  }

  /** An event that an upload survives: another request's, or a later part of its own that is written and not the last. */
  predicate GoesOn(e: Event, r: Req)
  {
    match e
    case Part(q, first, _, final, _) => q != r || (!first && !final && Written(e))
    case Handled(q) => q != r
    case Gone(q) => q != r
    case _ => true
  }

  /** The upload of r began with the event at j, and has gone on since. */
  predicate Underway(es: seq<Event>, j: nat, r: Req)
  {
    && j < |es| && Run(es[..j]).Some? && Begins(Run(es[..j]).value, es[j], r)
    && forall i :: j < i < |es| ==> GoesOn(es[i], r)
  }

  ghost predicate IsUnderway(es: seq<Event>, r: Req) { exists j: nat :: Underway(es, j, r) }

  predicate Has(s: State, r: Req, st: Status) { r in s.statuses && s.statuses[r] == st }

  /** The last part of an upload that is under way, or its only part: everything was written, and the image is good. */
  ghost predicate Completes(es: seq<Event>, e: Event, r: Req)
    requires Run(es).Some?
  {
    && e.Part? && e.r == r && e.final && Written(e) && e.w.endOk
    && if e.first then Admitted(Run(es).value, r, e.w) && e.w.beginOk else IsUnderway(es, r)
  }

  // ----- one step ----------------------------------------------------------------------------------

  lemma {:induction false} BeginIs(s: State, r: Req, w: World)
    requires Inv(s) && r !in s.statuses
    ensures var (t, go) := Begin(s, r, w);
            && (go <==> Admitted(s, r, w) && w.beginOk)
            && (go ==> t.owner == Some(r) && Has(t, r, Running) && t.finished == s.finished)
            && (!go ==> t.owner == s.owner && !Has(t, r, Running) && !Has(t, r, Done) && t.finished == s.finished)
            && (Admitted(s, r, w) && !w.beginOk ==> Has(t, r, Failed) && t.owner == None && t.mutex == Free)
            && forall q :: q != r ==> (q in t.statuses <==> q in s.statuses) && (q in s.statuses ==> t.statuses[q] == s.statuses[q])
  {
    hide Snapshot;
  }

  lemma {:induction false} WriteIs(s: State, r: Req, e: Event)
    requires Inv(s) && s.owner == Some(r) && e.Part? && e.r == r
    ensures var t := Write(s, r, e.len, e.final, e.w);
            && (Has(t, r, Running) <==> Written(e) && !e.final)
            && (Has(t, r, Done) <==> Written(e) && e.final && e.w.endOk)
            && (!Written(e) || (e.final && !e.w.endOk) ==> Has(t, r, Failed) && t.owner == None && t.mutex == Free)
            && (t.finished == if Has(t, r, Done) then Some(r.cmd) else s.finished)
            && forall q :: q != r ==> (q in t.statuses <==> q in s.statuses) && (q in s.statuses ==> t.statuses[q] == s.statuses[q])
  {
    hide Snapshot;
  }

  lemma {:induction false} FailIs(s: State, r: Req)
    requires Inv(s) && s.owner == Some(r)
    ensures var t := Fail(s, r);
            && Has(t, r, Failed) && t.owner == None && t.mutex == Free && t.finished == s.finished
            && forall q :: q != r ==> (q in t.statuses <==> q in s.statuses) && (q in s.statuses ==> t.statuses[q] == s.statuses[q])
  {
    hide Snapshot;
  }

  lemma {:induction false} RunningIsOwner(s: State, r: Req)
    requires Inv(s)
    ensures Has(s, r, Running) <==> s.owner == Some(r)
    ensures s.owner.Some? ==> s.finished == None
  {
    hide Snapshot;
  }

  /** What one event makes of r's upload. */
  ghost predicate StepSays(s: State, e: Event, r: Req, t: State)
  {
    var only := e.Part? && e.r == r && e.first && Admitted(s, r, e.w) && e.w.beginOk;
    var last := e.Part? && e.r == r && e.final && Written(e) && e.w.endOk && if e.first then only else Has(s, r, Running);
    && (Has(t, r, Running) <==> if Has(s, r, Running) then GoesOn(e, r) else Begins(s, e, r))
    && (last ==> Has(t, r, Done) && t.finished == Some(r.cmd))
    && (!last && Has(t, r, Done) ==> Has(s, r, Done))
    && (!last && e.Part? && e.r == r ==> t.finished == s.finished)
  }

  lemma {:induction false} PartSays(s: State, e: Event, r: Req)
    requires Inv(s) && e.Part? && e.r == r
    ensures StepSays(s, e, r, Step(s, e))
    ensures e.first && Admitted(s, r, e.w) && !e.w.beginOk ==> Refused(Step(s, e), r)
    ensures (if e.first then Admitted(s, r, e.w) && e.w.beginOk else Has(s, r, Running)) ==>
              !Written(e) || (e.final && !e.w.endOk) ==> Refused(Step(s, e), r)
  {
    hide Snapshot, Begin, Write, Fail, Inv;
    RunningIsOwner(s, r);
    if e.first && r in s.statuses {
      if s.owner == Some(r) { FailIs(s, r); }
    } else {
      if e.first { BeginIs(s, r, e.w); BeginKeeps(s, r, e.w); }
      var s1 := if e.first then Begin(s, r, e.w).0 else s;
      if s1.owner == Some(r) { WriteIs(s1, r, e); }
    }
  }

  /** The upload is failed and undone: no one owns the update, and the radio is free. */
  predicate Refused(t: State, r: Req) { Has(t, r, Failed) && t.owner == None && t.mutex == Free }

  /** Another request's part leaves r's status, and finishes only that other request. */
  lemma {:induction false} OthersSay(s: State, e: Event, r: Req)
    requires Inv(s) && Enabled(s, e) && !(e.Part? && e.r == r)
    ensures StepSays(s, e, r, Step(s, e))
    ensures !e.Part? ==> Step(s, e).finished == s.finished
  {
    hide Snapshot, Begin, Write, Inv;
    RunningIsOwner(s, r);
    match e
    case Part(q, first, len, final, w) => OtherPart(s, e, r);
    case Handled(q) => if s.owner == Some(q) { FailIs(s, q); }
    case _ =>
  }

  lemma {:induction false} OtherPart(s: State, e: Event, r: Req)
    requires Inv(s) && e.Part? && e.r != r
    ensures var t := Step(s, e); (r in t.statuses <==> r in s.statuses) && (r in s.statuses ==> t.statuses[r] == s.statuses[r])
  {
    hide Snapshot, Begin, Write, Fail, Inv;
    RunningIsOwner(s, e.r);
    if e.first && e.r in s.statuses {
      if s.owner == Some(e.r) { FailIs(s, e.r); }
    } else {
      if e.first { BeginIs(s, e.r, e.w); BeginKeeps(s, e.r, e.w); }
      var s1 := if e.first then Begin(s, e.r, e.w).0 else s;
      if s1.owner == Some(e.r) { WriteIs(s1, e.r, e); }
    }
  }

  lemma {:induction false} Says(s: State, e: Event, r: Req)
    requires Inv(s) && Enabled(s, e)
    ensures StepSays(s, e, r, Step(s, e))
  {
    hide Inv, StepSays, Step;
    if e.Part? && e.r == r { PartSays(s, e, r); } else { OthersSay(s, e, r); }
  }

  // ----- every run ----------------------------------------------------------------------------------

  lemma {:induction false} UnderwayGrows(p: seq<Event>, e: Event, r: Req)
    requires Run(p).Some?
    ensures IsUnderway(p + [e], r) <==> (IsUnderway(p, r) && GoesOn(e, r)) || Begins(Run(p).value, e, r)
  {
    hide Run, GoesOn, Begins;
    var es := p + [e];
    assert forall j :: 0 <= j <= |p| ==> es[..j] == p[..j];
    assert p[..|p|] == p && forall i :: 0 <= i < |p| ==> es[i] == p[i];
    if j: nat :| Underway(es, j, r) {
      if j < |p| { assert Underway(p, j, r) && GoesOn(es[|p|], r); }
    }
    if IsUnderway(p, r) && GoesOn(e, r) {
      var j: nat :| Underway(p, j, r);
      assert Underway(es, j, r);
    }
    if Begins(Run(p).value, e, r) { assert Underway(es, |p|, r); }
  }

  /** A request's status is Running exactly while its upload is under way. */
  lemma {:induction false} RunningIff(es: seq<Event>, r: Req)
    requires Run(es).Some?
    ensures Has(Run(es).value, r, Running) <==> IsUnderway(es, r)
  {
    hide Step, Enabled, Inv, Begins, GoesOn;
    if es != [] {
      var p, e := es[..|es| - 1], es[|es| - 1];
      assert es == p + [e];
      LastStep(es);
      RunningIff(p, r);
      RunKeeps(p);
      Says(Run(p).value, e, r);
      UnderwayGrows(p, e, r);
      if Has(Run(p).value, r, Running) { NoSecondBeginning(Run(p).value, e, r); }
    }
  }

  lemma {:induction false} NoSecondBeginning(s: State, e: Event, r: Req)
    requires Has(s, r, Running)
    ensures !Begins(s, e, r)
  {
  }

  /**
   * A request is done by exactly one event: the final part of its upload that is under way,
   * or its only part, all of it written and the image found good. Then, and only then, the
   * device is to be restarted for its update.
   */
  lemma {:induction false} DoneIff(es: seq<Event>, r: Req)
    requires es != [] && Run(es).Some?
    ensures Run(es[..|es| - 1]).Some?
    ensures var p, e, s, t := es[..|es| - 1], es[|es| - 1], Run(es[..|es| - 1]).value, Run(es).value;
            && (Has(t, r, Done) && !Has(s, r, Done) <==> Completes(p, e, r))
            && (Completes(p, e, r) ==> s.finished == None && t.finished == Some(r.cmd))
            && (t.finished != s.finished ==> e.Part? && Completes(p, e, e.r))
  {
    hide Step, Enabled, Inv, Begins, GoesOn, Underway, Run;
    var p, e := es[..|es| - 1], es[|es| - 1];
    LastStep(es);
    RunKeeps(p);
    RunningIff(p, r);
    var s := Run(p).value;
    Says(s, e, r);
    if Completes(p, e, r) { NotDoneBefore(s, e, r); }
    if e.Part? {
      RunningIff(p, e.r);
      Says(s, e, e.r);
    } else {
      OthersSay(s, e, r);
    }
  }

  lemma {:induction false} NotDoneBefore(s: State, e: Event, r: Req)
    requires Inv(s) && e.Part? && (if e.first then Admitted(s, r, e.w) else Has(s, r, Running))
    ensures !Has(s, r, Done) && s.finished == None
  {
    hide Snapshot;
  }

  /**
   * Whatever fails fails the request and gives everything back: the flash writer's start, any
   * write that stores fewer bytes than it was given, and the final check of the image.
   */
  lemma {:induction false} FailureUndoes(es: seq<Event>, r: Req)
    requires es != [] && Run(es).Some? && Run(es[..|es| - 1]).Some?
    ensures var p, e, s, t := es[..|es| - 1], es[|es| - 1], Run(es[..|es| - 1]).value, Run(es).value;
            e.Part? && e.r == r && (if e.first then Admitted(s, r, e.w) else IsUnderway(p, r)) ==>
              (e.first && !e.w.beginOk) || !Written(e) || (e.final && !e.w.endOk) ==>
                Has(t, r, Failed) && t.owner == None && t.mutex == Free && t.finished == None
  {
    hide Step, Enabled, Inv, Begins, GoesOn, Underway, Run;
    var p, e := es[..|es| - 1], es[|es| - 1];
    LastStep(es);
    RunKeeps(p);
    RunningIff(p, r);
    var s := Run(p).value;
    if e.Part? && e.r == r && (if e.first then Admitted(s, r, e.w) else IsUnderway(p, r)) {
      PartSays(s, e, r);
      NotDoneBefore(s, e, r);
    }
  }

  /** What each refusal tells its client, in no particular order of asking. */
  lemma {:induction false} RefusalMeans(s: State, r: Req, w: World)
    requires Inv(s) && r !in s.statuses && w.alloc
    ensures var t := Step(s, Part(r, true, 0, false, w));
            && (Has(t, r, BadOrigin) <==> !w.originOk)
            && (Has(t, r, SetupNeeded) <==> w.originOk && !w.authSet)
            && (Has(t, r, Unauthorised) <==> w.originOk && w.authSet && !w.authOk)
            && (Has(t, r, Busy) <==> w.originOk && w.authSet && w.authOk &&
                                     (s.owner.Some? || s.mutex != Free || (r.cmd == Spiffs && !w.fsLock)))
            && (!Admitted(s, r, w) ==> t.owner == s.owner && t.mutex == s.mutex && t.files == s.files && t.keep == s.keep)
  {
    hide Snapshot;
  }

  /** A request that ends, or whose client leaves, before its last part is undone too. */
  lemma {:induction false} EndingUndoes(es: seq<Event>, r: Req, e: Event)
    requires Run(es).Some? && IsUnderway(es, r) && (e == Handled(r) || e == Gone(r))
    ensures Run(es + [e]).Some?
    ensures var t := Run(es + [e]).value;
            && t.owner == None && t.mutex == Free && t.finished == None
            && (if e.Handled? then Has(t, r, Failed) else r !in t.statuses)
  {
    hide Snapshot, Begins, GoesOn, Underway;
    assert (es + [e])[..|es|] == es;
    RunKeeps(es);
    RunningIff(es, r);
    hide Run;
  }

  /** A part that puts bytes on the filesystem's partition. */
  ghost predicate Overwrites(es: seq<Event>, k: nat)
    requires k < |es| && Run(es[..k]).Some?
  {
    var e, s := es[k], Run(es[..k]).value;
    e.Part? && e.r.cmd == Spiffs && e.len > 0 &&
    if e.first then Admitted(s, e.r, e.w) && e.w.beginOk else IsUnderway(es[..k], e.r)
  }

  ghost predicate EverOverwritten(es: seq<Event>)
  {
    exists k :: 0 <= k < |es| && Run(es[..k]).Some? && Overwrites(es, k)
  }

  lemma {:induction false} DirtyMeans(s: State, e: Event)
    requires Inv(s) && Enabled(s, e)
    ensures Step(s, e).dirty <==>
            s.dirty || (e.Part? && e.r.cmd == Spiffs && e.len > 0 &&
                        if e.first then Admitted(s, e.r, e.w) && e.w.beginOk else Has(s, e.r, Running))
  {
    hide Snapshot, Begin, Inv;
    match e
    case Part(r, first, len, final, w) =>
      RunningIsOwner(s, r);
      if first && r in s.statuses {
        if s.owner == Some(r) { FailTouchesNothing(s, r); }
      } else {
        if first { BeginIs(s, r, w); FlashUntouched(s, r, w); }
        WriteTouches(if first then Begin(s, r, w).0 else s, r, len, final, w);
      }
      hide Fail, Write;
    case Handled(r) => FailTouchesNothing(s, r);
    case _ =>
  }

  /** The filesystem counts as half-written exactly when an upload ever put bytes on it. */
  lemma {:induction false} DirtyIff(es: seq<Event>)
    requires Run(es).Some?
    ensures Run(es).value.dirty <==> EverOverwritten(es)
  {
    hide Step, Enabled, Inv, Underway;
    if es != [] {
      var p, e := es[..|es| - 1], es[|es| - 1];
      LastStep(es);
      RunKeeps(p);
      DirtyIff(p);
      DirtyMeans(Run(p).value, e);
      if e.Part? { RunningIff(p, e.r); }
      EverGrows(es);
    }
  }

  lemma {:induction false} EverGrows(es: seq<Event>)
    requires es != [] && Run(es[..|es| - 1]).Some?
    ensures EverOverwritten(es) <==> EverOverwritten(es[..|es| - 1]) || Overwrites(es, |es| - 1)
  {
    hide Run, Underway;
    var p := es[..|es| - 1];
    assert forall k :: 0 <= k < |p| ==> p[..k] == es[..k] && p[k] == es[k];
    if k :| 0 <= k < |es| && Run(es[..k]).Some? && Overwrites(es, k) {
      if k < |p| { assert Run(p[..k]).Some? && Overwrites(p, k); }
    }
    if k :| 0 <= k < |p| && Run(p[..k]).Some? && Overwrites(p, k) {
      assert Run(es[..k]).Some? && Overwrites(es, k);
    }
  }

  /** Once decided, a request keeps its status, and with it its reply, until its client is gone. */
  lemma {:induction false} DecidedStays(es: seq<Event>, e: Event, r: Req)
    requires Run(es).Some? && Run(es + [e]).Some? && e != Gone(r)
    requires r in Run(es).value.statuses && Run(es).value.statuses[r] != Running
    ensures Has(Run(es + [e]).value, r, Run(es).value.statuses[r])
  {
    hide Snapshot, Begin, Write, Inv;
    assert (es + [e])[..|es|] == es;
    RunKeeps(es);
    var s := Run(es).value;
    hide Run;
    RunningIsOwner(s, r);
    match e
    case Part(q, _, _, _, _) => if q != r { OtherPart(s, e, r); }
    case Handled(q) => if s.owner == Some(q) { FailIs(s, q); }
    case _ =>
  }

  /** A settings file is kept if it is there, not empty, of at most 2048 bytes, and read back whole. */
  lemma {:induction false} SnapshotMeans(files: Files, readable: seq<bool>, i: nat)
    requires i < 4
    ensures Snapshot(files, readable)[i] ==
            if files[i].Some? && files[i].value != [] && |files[i].value| < 2049 && i < |readable| && readable[i]
            then files[i] else None
  {
  }

  /** Each file comes back from its own snapshot, the WiFi settings else from their backup, if the write succeeds. */
  lemma {:induction false} RestoreMeans(keep: Files, image: Files, backup: Option<File>, writes: seq<bool>, i: nat)
    requires i < 4
    ensures var src := if i == 0 && keep[0].None? then backup else keep[i];
            Restored(keep, image, backup, writes)[i] == if src.Some? && i < |writes| && writes[i] then src else image[i]
  {
  }
}
