/** Over-the-air updates: who owns the upload, the radio, the filesystem and the settings snapshot. */
module Ota {
  import opened Bytes

  const KEEP_COUNT: nat := 4
  const KEEP_MAX: nat := 2048
  const WIFI: nat := 0

  type File = seq<byte>

  /** The four settings files; None where there is none. */
  type Files = f: seq<Option<File>> | |f| == KEEP_COUNT witness [None, None, None, None]

  const NO_FILES: Files := [None, None, None, None]

  datatype Command = Flash | Spiffs

  /** An HTTP request; its URL fixes what it updates. */
  datatype Req = Req(id: nat, cmd: Command)

  datatype Status = Running | Done | BadOrigin | SetupNeeded | Unauthorised | Busy | Failed

  datatype Holder = Free | RadioTask | Upload

  /** What the rest of the world answers during one callback. */
  datatype World = World(
    originOk: bool, authSet: bool, authOk: bool, alloc: bool, fsLock: bool,
    readable: seq<bool>,               // per settings file: read back whole
    beginOk: bool, writeOk: bool, endOk: bool,
    overwritten: Files)                // what the partition holds after this write

  /**
   * The server's state, the radio mutex and the settings on flash. `before` and `readable`
   * remember the files at the first overwritten byte and how the snapshot's reads went;
   * `finished` is the update whose reboot is pending.
   */
  datatype State = State(
    owner: Option<Req>, held: bool, dirty: bool, offline: bool, keep: Files,
    mutex: Holder, statuses: map<Req, Status>, files: Files,
    finished: Option<Command>, before: Files, readable: seq<bool>)

  const START := State(None, false, false, false, NO_FILES, Free, map[], NO_FILES, None, NO_FILES, [])

  predicate SizeOk(f: Option<File>) { f.Some? && 0 < |f.value| <= KEEP_MAX }

  function Kept(f: Option<File>, readable: bool): Option<File> { if SizeOk(f) && readable then f else None }

  predicate ReadOk(readable: seq<bool>, i: nat) { i < |readable| && readable[i] }

  function Snapshot(files: Files, readable: seq<bool>): Files
  {
    [Kept(files[0], ReadOk(readable, 0)), Kept(files[1], ReadOk(readable, 1)),
     Kept(files[2], ReadOk(readable, 2)), Kept(files[3], ReadOk(readable, 3))]
  }

  function ReleaseRadio(s: State): State { if !s.held then s else s.(mutex := Free, held := false) }

  /** Undoes what the owner started; a half-written filesystem stays offline with its snapshot. */
  function AbortOwner(s: State, r: Req): State
  {
    if s.owner != Some(r) then s
    else if s.dirty then ReleaseRadio(s.(owner := None))
    else ReleaseRadio(s.(owner := None, keep := NO_FILES, offline := false))
  }

  function Fail(s: State, r: Req): State { AbortOwner(s.(statuses := s.statuses[r := Failed]), r) }

  function Admit(s: State, w: World): (Status, State)
  {
    if !w.originOk then (BadOrigin, s)
    else if !w.authSet then (SetupNeeded, s)
    else if !w.authOk then (Unauthorised, s)
    else if s.owner.Some? then (Busy, s)
    else if s.mutex != Free then (Busy, s)
    else (Running, s.(held := true, mutex := Upload))
  }

  /** The filesystem goes offline behind its lock, after a snapshot unless an earlier attempt's still counts. */
  function GoOffline(s: State, w: World): State
  {
    if s.dirty then s.(offline := true)
    else s.(offline := true, keep := Snapshot(s.files, w.readable), readable := w.readable)
  }

  /** The first chunk's part: admission up to the flash writer's start. False: this callback is over. */
  function Begin(s: State, r: Req, w: World): (State, bool)
  {
    if !w.alloc then (s, false)
    else
      var (st, s1) := Admit(s, w);
      var s2 := s1.(statuses := s1.statuses[r := st]);
      if st != Running then (s2, false)
      else
        var s3 := s2.(owner := Some(r));
        if r.cmd == Spiffs && !w.fsLock then
          (ReleaseRadio(s3.(statuses := s3.statuses[r := Busy], owner := None)), false)
        else
          var s4 := if r.cmd == Spiffs then GoOffline(s3, w) else s3;
          if !w.beginOk then (Fail(s4, r), false) else (s4, true)
  }

  /** Bytes for the filesystem make it dirty before they are written: the write erases first. */
  function Flashed(s: State, r: Req, len: nat, w: World): State
  {
    if len > 0 && r.cmd == Spiffs then
      s.(dirty := true, before := if s.dirty then s.before else s.files, files := w.overwritten)
    else s
  }

  /** The part for every chunk of the running upload. */
  function Write(s: State, r: Req, len: nat, final: bool, w: World): State
  {
    var s1 := Flashed(s, r, len, w);
    if len > 0 && !w.writeOk then Fail(s1, r)
    else if !final then s1
    else if !w.endOk then Fail(s1, r)
    else s1.(statuses := s1.statuses[r := Done], owner := None, finished := Some(r.cmd))
  }

  function OnUpload(s: State, r: Req, first: bool, len: nat, final: bool, w: World): State
  {
    if first && r in s.statuses then (if s.statuses[r] == Running then Fail(s, r) else s)
    else
      var (s1, go) := if first then Begin(s, r, w) else (s, true);
      if !go || r !in s1.statuses || s1.statuses[r] != Running || s1.owner != Some(r) then s1
      else Write(s1, r, len, final, w)
  }

  /** The request's handler runs after its last chunk. */
  function OnRequest(s: State, r: Req): State
  {
    if r in s.statuses && s.owner == Some(r) then Fail(s, r) else s
  }

  /** The client is gone and the library frees the request's state. */
  function OnDisconnect(s: State, r: Req): State
  {
    var s1 := AbortOwner(s, r);
    s1.(statuses := s1.statuses - {r})
  }

  // ----- the server ---------------------------------------------------------------------------

  /** The statics of the update code, and the mutex and flash it works on. */
  class Server {
    var owner: Option<Req>
    var held: bool
    var dirty: bool
    var offline: bool
    const keep: array<Option<File>>
    var mutex: Holder
    var statuses: map<Req, Status>
    var files: Files
    ghost var finished: Option<Command>
    ghost var before: Files
    ghost var readable: seq<bool>

    ghost predicate Valid()
      reads this
    {
      keep.Length == KEEP_COUNT
    }

    ghost function Abs(): State
      reads this, keep
      requires Valid()
    {
      State(owner, held, dirty, offline, keep[..], mutex, statuses, files, finished, before, readable)
    }

    constructor ()
      ensures Valid() && fresh(keep) && Abs() == START
    {
      owner, held, dirty, offline, mutex, statuses := None, false, false, false, Free, map[];
      files, finished, before, readable := NO_FILES, None, NO_FILES, [];
      keep := new Option<File>[KEEP_COUNT];
      new;
      KeepClear();
    }

    method KeepClear()
      requires Valid()
      modifies keep
      ensures keep[..] == NO_FILES
    {
      for i := 0 to KEEP_COUNT
        invariant forall k :: 0 <= k < i ==> keep[k] == None
      {
        keep[i] := None;
      }
    }

    method KeepSnapshot(readOk: seq<bool>)
      requires Valid()
      modifies keep, this`readable
      ensures keep[..] == Snapshot(files, readOk) && readable == readOk
    {
      KeepClear();
      readable := readOk;
      for i := 0 to KEEP_COUNT
        invariant readable == readOk
        invariant forall k :: 0 <= k < i ==> keep[k] == Kept(files[k], ReadOk(readOk, k))
      {
        var f := files[i];
        keep[i] := if f.Some? && 0 < |f.value| <= KEEP_MAX && i < |readOk| && readOk[i] then f else None;
      }
    }

    method DoReleaseRadio()
      requires Valid()
      modifies this`held, this`mutex
      ensures Abs() == ReleaseRadio(old(Abs()))
    {
      if !held { return; }
      mutex := Free;
      held := false;
    }

    method DoAbortOwner(r: Req)
      requires Valid()
      modifies this`owner, this`offline, this`held, this`mutex, keep
      ensures Abs() == AbortOwner(old(Abs()), r)
    {
      if owner != Some(r) { return; }
      owner := None;
      if !dirty {
        KeepClear();
        offline := false;
      }
      DoReleaseRadio();
    }

    method DoFail(r: Req)
      requires Valid()
      modifies this`owner, this`offline, this`held, this`mutex, this`statuses, keep
      ensures Abs() == Fail(old(Abs()), r)
    {
      statuses := statuses[r := Failed];
      DoAbortOwner(r);
    }

    method DoAdmit(w: World) returns (st: Status)
      requires Valid()
      modifies this`held, this`mutex
      ensures (st, Abs()) == Admit(old(Abs()), w)
    {
      if !w.originOk { return BadOrigin; }
      if !w.authSet { return SetupNeeded; }
      if !w.authOk { return Unauthorised; }
      if owner.Some? { return Busy; }
      if mutex != Free { return Busy; }
      held, mutex := true, Upload;
      return Running;
    }

    method DoBegin(r: Req, w: World) returns (go: bool)
      requires Valid()
      modifies this, keep
      ensures Valid() && (Abs(), go) == Begin(old(Abs()), r, w)
    {
      hide Fail, AbortOwner, ReleaseRadio, Snapshot, Admit;
      if !w.alloc { return false; }
      var st := DoAdmit(w);
      statuses := statuses[r := st];
      if st != Running { return false; }
      owner := Some(r);
      if r.cmd == Spiffs {
        if !w.fsLock {
          statuses := statuses[r := Busy];
          owner := None;
          DoReleaseRadio();
          return false;
        }
        if !dirty { KeepSnapshot(w.readable); }
        offline := true;
      }
      if !w.beginOk { DoFail(r); return false; }
      return true;
    }

    method Chunk(r: Req, first: bool, len: nat, final: bool, w: World)
      requires Valid()
      modifies this, keep
      ensures Valid() && Abs() == OnUpload(old(Abs()), r, first, len, final, w)
    {
      hide Begin, Fail, AbortOwner, ReleaseRadio, Snapshot, Admit;
      if first {
        if r in statuses {
          if statuses[r] == Running { DoFail(r); }
          return;
        }
        var go := DoBegin(r, w);
        if !go { return; }
      }
      if r !in statuses || statuses[r] != Running || owner != Some(r) { return; }
      if len > 0 && r.cmd == Spiffs {
        if !dirty { before := files; }
        dirty := true;
        files := w.overwritten;
      }
      if len > 0 && !w.writeOk { DoFail(r); return; }
      if final {
        if !w.endOk { DoFail(r); return; }
        statuses := statuses[r := Done];
        owner := None;
        finished := Some(r.cmd);
      }
    }

    method RequestEnd(r: Req) returns (reply: Option<Status>)
      requires Valid()
      modifies this, keep
      ensures Valid() && Abs() == OnRequest(old(Abs()), r)
      ensures reply == if r in statuses then Some(statuses[r]) else None
    {
      if r !in statuses { return None; }
      if owner == Some(r) { DoFail(r); }
      reply := Some(statuses[r]);
    }

    method Disconnect(r: Req)
      requires Valid()
      modifies this, keep
      ensures Valid() && Abs() == OnDisconnect(old(Abs()), r)
    {
      if owner == Some(r) { DoAbortOwner(r); }
      statuses := statuses - {r};
    }

    /** After a filesystem update: the snapshot, or for the WiFi settings the boot-time backup, over the new image. */
    method Restore(image: Files, backup: Option<File>, writes: seq<bool>) returns (now: Files)
      requires Valid()
      ensures now == Restored(keep[..], image, backup, writes)
    {
      now := image;
      for i := 0 to KEEP_COUNT
        invariant forall k :: i <= k < KEEP_COUNT ==> now[k] == image[k]
        invariant forall k :: 0 <= k < i ==> now[k] == RestoredFile(k, keep[k], image[k], backup, ReadOk(writes, k))
      {
        var src := keep[i];
        if src.None? && i == WIFI { src := backup; }
        if src.None? { continue; }
        if i < |writes| && writes[i] { now := now[i := src]; }
      }
    }
  }

  function RestoredFile(i: nat, keep: Option<File>, image: Option<File>, backup: Option<File>,
                        writeOk: bool): Option<File>
  {
    var src := if keep.None? && i == WIFI then backup else keep;
    if src.Some? && writeOk then src else image
  }

  function Restored(keep: Files, image: Files, backup: Option<File>, writes: seq<bool>): Files
  {
    [RestoredFile(0, keep[0], image[0], backup, ReadOk(writes, 0)),
     RestoredFile(1, keep[1], image[1], backup, ReadOk(writes, 1)),
     RestoredFile(2, keep[2], image[2], backup, ReadOk(writes, 2)),
     RestoredFile(3, keep[3], image[3], backup, ReadOk(writes, 3))]
  }

  // ----- every run ---------------------------------------------------------------------------------

  datatype Event =
    | Part(r: Req, first: bool, len: nat, final: bool, w: World)
    | Handled(r: Req)
    | Gone(r: Req)
    | Save(i: nat, f: Option<File>)   // a setting is written while the filesystem is online
    | RadioTakes | RadioGives

  predicate Enabled(s: State, e: Event)
  {
    match e
    case Save(i, _) => i < KEEP_COUNT && !s.offline
    case RadioTakes => s.mutex == Free
    case RadioGives => s.mutex == RadioTask
    case _ => true
  }

  function Step(s: State, e: Event): State
    requires Enabled(s, e)
  {
    match e
    case Part(r, first, len, final, w) => OnUpload(s, r, first, len, final, w)
    case Handled(r) => OnRequest(s, r)
    case Gone(r) => OnDisconnect(s, r)
    case Save(i, f) => s.(files := s.files[i := f])
    case RadioTakes => s.(mutex := RadioTask)
    case RadioGives => s.(mutex := Free)
  }

  function Run(es: seq<Event>): Option<State>
  {
    if es == [] then Some(START)
    else
      match Run(es[..|es| - 1])
      case None => None
      case Some(s) => if Enabled(s, es[|es| - 1]) then Some(Step(s, es[|es| - 1])) else None
  }

  /** The files whose settings a filesystem update has to bring back. */
  function Settings(s: State): Files { if s.dirty then s.before else s.files }

  predicate Uploading(s: State, c: Command) { s.owner.Some? && s.owner.value.cmd == c }

  predicate Inv(s: State)
  {
    && (s.held <==> s.mutex == Upload)
    && (s.held <==> s.owner.Some? || s.finished.Some?)
    && (s.finished.Some? ==> s.owner == None)
    && (s.dirty ==> s.offline)
    && (s.offline ==> s.dirty || Uploading(s, Spiffs) || s.finished == Some(Spiffs))
    && (Uploading(s, Spiffs) || s.finished == Some(Spiffs) ==> s.offline)
    && (s.offline ==> s.keep == Snapshot(Settings(s), s.readable))
    && (s.owner.Some? ==> s.owner.value in s.statuses && s.statuses[s.owner.value] == Running)
    && (forall r :: r in s.statuses && s.statuses[r] == Running ==> s.owner == Some(r))
  }

  lemma {:induction false} FailKeeps(s: State, r: Req)
    requires Inv(s) && s.owner == Some(r)
    ensures Inv(Fail(s, r)) && Fail(s, r).owner == None && Fail(s, r).finished == s.finished
  {
    hide Snapshot;
  }

  lemma {:induction false} BeginKeeps(s: State, r: Req, w: World)
    requires Inv(s) && r !in s.statuses
    ensures Inv(Begin(s, r, w).0)
    ensures Begin(s, r, w).1 ==> Begin(s, r, w).0.owner == Some(r)
  {
    hide Snapshot;
    if w.alloc && Admit(s, w).0 == Running && (r.cmd == Flash || w.fsLock) {
      var s3 := Admit(s, w).1.(statuses := s.statuses[r := Running], owner := Some(r));
      var s4 := if r.cmd == Spiffs then GoOffline(s3, w) else s3;
      assert Inv(s4);
      if !w.beginOk { FailKeeps(s4, r); }
    }
  }

  lemma {:induction false} WriteKeeps(s: State, r: Req, len: nat, final: bool, w: World)
    requires Inv(s) && s.owner == Some(r)
    ensures Inv(Write(s, r, len, final, w))
  {
    hide Snapshot;
    var s1 := Flashed(s, r, len, w);
    assert Inv(s1);
    if (len > 0 && !w.writeOk) || (final && !w.endOk) { FailKeeps(s1, r); }
  }

  lemma {:induction false} StepKeeps(s: State, e: Event)
    requires Inv(s) && Enabled(s, e)
    ensures Inv(Step(s, e))
  {
    match e
    case Part(r, first, len, final, w) =>
      if first && r in s.statuses {
        if s.statuses[r] == Running { FailKeeps(s, r); }
      } else {
        if first { BeginKeeps(s, r, w); }
        var s1 := if first then Begin(s, r, w).0 else s;
        if s1.owner == Some(r) { WriteKeeps(s1, r, len, final, w); }
      }
    case Handled(r) => if s.owner == Some(r) { FailKeeps(s, r); }
    case Gone(r) => GoneKeeps(s, r);
    case Save(i, f) => hide Snapshot;
    case RadioTakes => hide Snapshot;
    case RadioGives => hide Snapshot;
  }

  lemma {:induction false} GoneKeeps(s: State, r: Req)
    requires Inv(s)
    ensures Inv(OnDisconnect(s, r))
  {
    hide Snapshot;
  }

  lemma {:induction false} RunKeeps(es: seq<Event>)
    requires Run(es).Some?
    ensures Inv(Run(es).value)
  {
    hide Inv, Step, Enabled;
    if es == [] {
      StartOk();
    } else {
      RunKeeps(es[..|es| - 1]);
      StepKeeps(Run(es[..|es| - 1]).value, es[|es| - 1]);
    }
  }

  lemma {:induction false} StartOk()
    ensures Inv(START)
  {
  }

  /**
   * In every reachable state: a half-written filesystem is offline, and the radio is held
   * exactly by an upload or a pending reboot.
   */
  lemma {:induction false} OfflineAndQuiet(es: seq<Event>)
    requires Run(es).Some?
    ensures var s := Run(es).value;
            && (s.offline <==> s.dirty || Uploading(s, Spiffs) || s.finished == Some(Spiffs))
            && (s.mutex == Upload <==> s.owner.Some? || s.finished.Some?)
            && (forall r :: r in s.statuses && s.statuses[r] == Running <==> s.owner == Some(r))
  {
    RunKeeps(es);
  }

  /**
   * After a success no upload is admitted, whatever the next callback brings: the radio mutex
   * is never given back, no request runs, none is done that was not, and the snapshot waits
   * for the reboot.
   */
  lemma {:induction false} NothingAfterSuccess(es: seq<Event>, more: seq<Event>)
    requires Run(es).Some? && Run(es).value.finished.Some? && Run(es + more).Some?
    ensures var s, t := Run(es).value, Run(es + more).value;
            && t.finished == s.finished && t.owner == None && t.mutex == Upload
            && (forall w :: Admit(t, w).0 != Running)
            && (forall r :: r in t.statuses ==> t.statuses[r] != Running)
            && (forall r :: r in t.statuses && t.statuses[r] == Done ==> r in s.statuses && s.statuses[r] == Done)
            && t.keep == s.keep && t.dirty == s.dirty && t.offline == s.offline
    decreases |more|
  {
    RunKeeps(es);
    if more == [] {
      assert es + more == es;
    } else {
      var p := more[..|more| - 1];
      assert (es + more)[..|es + more| - 1] == es + p;
      assert (es + more)[|es + more| - 1] == more[|more| - 1];
      NothingAfterSuccess(es, p);
      RunKeeps(es + p);
      FinishedStays(Run(es + p).value, more[|more| - 1]);
      hide Step, Enabled;
    }
  }

  lemma {:induction false} FinishedStays(s: State, e: Event)
    requires Inv(s) && s.finished.Some? && Enabled(s, e)
    ensures var t := Step(s, e);
            && t.finished == s.finished && t.owner == None && t.mutex == Upload
            && (forall r :: r in t.statuses && t.statuses[r] == Running ==> r in s.statuses && s.statuses[r] == Running)
            && (forall r :: r in t.statuses && t.statuses[r] == Done ==> r in s.statuses && s.statuses[r] == Done)
            && t.keep == s.keep && t.dirty == s.dirty && t.offline == s.offline
  {
    hide Snapshot;
  }

  /** The k-th state was the last with a clean filesystem, and its files are the ones remembered. */
  predicate LastClean(es: seq<Event>, k: nat)
    requires Run(es).Some? && k < |es|
  {
    && Run(es[..k]).Some? && !Run(es[..k]).value.dirty && Run(es[..k]).value.files == Run(es).value.before
    && forall j :: k < j <= |es| ==> Run(es[..j]).Some? && Run(es[..j]).value.dirty
  }

  /**
   * What `before` stands for: the files just before the first byte was overwritten, in this
   * and all failed attempts since.
   */
  lemma {:induction false} BeforeFirstOverwrite(es: seq<Event>) returns (k: nat)
    requires Run(es).Some? && Run(es).value.dirty
    ensures k < |es| && LastClean(es, k)
  {
    if es == [] { return; }
    var n := |es| - 1;
    LastStep(es);
    DirtyStep(Run(es[..n]).value, es[n]);
    hide Run, Step, Enabled, LastClean;
    k := n;
    if Run(es[..n]).value.dirty {
      k := BeforeFirstOverwrite(es[..n]);
      StillLastClean(es, k);
    } else {
      JustDirtied(es);
    }
  }

  lemma {:induction false} StillLastClean(es: seq<Event>, k: nat)
    requires Run(es).Some? && Run(es).value.dirty && es != [] && k < |es| - 1
    requires Run(es[..|es| - 1]).Some? && Run(es[..|es| - 1]).value.before == Run(es).value.before
    requires LastClean(es[..|es| - 1], k)
    ensures LastClean(es, k)
  {
    hide Run;
    var p := es[..|es| - 1];
    forall j | 0 <= j <= |p| ensures p[..j] == es[..j] {}
    forall j | k < j <= |es| ensures Run(es[..j]).Some? && Run(es[..j]).value.dirty {
      if j == |es| { assert es[..j] == es; } else { assert Run(p[..j]).Some?; }
    }
  }

  lemma {:induction false} JustDirtied(es: seq<Event>)
    requires Run(es).Some? && Run(es).value.dirty && es != []
    requires var r := Run(es[..|es| - 1]); r.Some? && !r.value.dirty && r.value.files == Run(es).value.before
    ensures LastClean(es, |es| - 1)
  {
    hide Run;
    assert es[..|es|] == es;
  }

  lemma {:induction false} LastStep(es: seq<Event>)
    requires es != [] && Run(es).Some?
    ensures var p, e := es[..|es| - 1], es[|es| - 1];
            Run(p).Some? && Enabled(Run(p).value, e) && Run(es).value == Step(Run(p).value, e)
  {
  }

  lemma {:induction false} FailTouchesNothing(s: State, r: Req)
    ensures var t := Fail(s, r); t.dirty == s.dirty && t.before == s.before && t.files == s.files
  {
  }

  /** Admission and failure touch neither the flash nor what is remembered of it. */
  lemma {:induction false} FlashUntouched(s: State, r: Req, w: World)
    ensures var t := Begin(s, r, w).0; t.dirty == s.dirty && t.before == s.before && t.files == s.files
  {
    hide Snapshot, Fail;
    if w.alloc && Admit(s, w).0 == Running && (r.cmd == Flash || w.fsLock) {
      var s3 := Admit(s, w).1.(statuses := s.statuses[r := Running], owner := Some(r));
      FailTouchesNothing(if r.cmd == Spiffs then GoOffline(s3, w) else s3, r);
    }
  }

  lemma {:induction false} WriteTouches(s: State, r: Req, len: nat, final: bool, w: World)
    ensures var t, f := Write(s, r, len, final, w), Flashed(s, r, len, w);
            t.dirty == f.dirty && t.before == f.before && t.files == f.files
  {
    FailTouchesNothing(Flashed(s, r, len, w), r);
    hide Fail, Flashed;
  }

  lemma {:induction false} DirtyStep(s: State, e: Event)
    requires Enabled(s, e) && Step(s, e).dirty
    ensures if s.dirty then Step(s, e).before == s.before else Step(s, e).before == s.files
  {
    match e
    case Part(r, first, len, final, w) =>
      FlashUntouched(s, r, w);
      WriteTouches(if first then Begin(s, r, w).0 else s, r, len, final, w);
      hide Begin, Fail, Write;
    case Handled(r) => FailTouchesNothing(s, r);
    case _ =>
  }

  /**
   * When a filesystem update has succeeded, whatever attempts failed before it: every
   * setting that was small enough and read back comes out as it was before the first
   * overwritten byte; the WiFi setting falls back on its boot-time backup; anything else
   * is the new image's.
   */
  lemma {:induction false} SettingsSurvive(es: seq<Event>, image: Files, backup: Option<File>, i: nat)
    requires Run(es).Some? && Run(es).value.finished == Some(Spiffs) && i < KEEP_COUNT
    ensures var s := Run(es).value;
            var was, now := Settings(s)[i], Restored(s.keep, image, backup, [true, true, true, true])[i];
            if was.Some? && 0 < |was.value| < 2049 && i < |s.readable| && s.readable[i] then now == was
            else now == if i == WIFI && backup.Some? then backup else image[i]
  {
    RunKeeps(es);
  }

  /** What the four files are once the device is up again: only a filesystem update puts anything back. */
  function AfterReboot(s: State, backup: Option<File>): Files
  {
    if s.finished == Some(Spiffs) then Restored(s.keep, s.files, backup, [true, true, true, true]) else s.files
  }

  /** A run that ends in a successful update of this kind, with this state of the filesystem. */
  predicate Ends(es: seq<Event>, cmd: Command, dirty: bool)
  {
    Run(es).Some? && Run(es).value.finished == Some(cmd) && Run(es).value.dirty == dirty
  }

  /** The setting comes out of the update as it went in, if a filesystem update could keep it at all. */
  predicate Survives(es: seq<Event>, backup: Option<File>, i: nat)
    requires Run(es).Some? && i < KEEP_COUNT
  {
    var s := Run(es).value;
    (s.finished == Some(Spiffs) ==> SizeOk(Settings(s)[i]) && ReadOk(s.readable, i)) ==>
      AfterReboot(s, backup)[i] == Settings(s)[i]
  }

  /** Every setting survives every such run. */
  ghost predicate Guaranteed(cmd: Command, dirty: bool)
  {
    forall es, backup, i | Ends(es, cmd, dirty) && 0 <= i < KEEP_COUNT :: Survives(es, backup, i)
  }

  /** The settings are safe exactly when the update is the filesystem's or no half-written filesystem waits for one. */
  lemma {:induction false} SettingsSurviveIff(cmd: Command, dirty: bool)
    ensures Guaranteed(cmd, dirty) <==> cmd == Spiffs || !dirty
  {
    hide Run, Restored;
    if cmd == Spiffs || !dirty {
      forall es, backup, i | Ends(es, cmd, dirty) && 0 <= i < KEEP_COUNT ensures Survives(es, backup, i) {
        if cmd == Spiffs { SettingsSurvive(es, Run(es).value.files, backup, i); }
      }
    } else {
      var es := FirmwareOverHalfWritten();
      assert !Survives(es, None, 0);
    }
  }

  /** A setting is saved, a filesystem upload fails on its first write, a firmware upload succeeds: the setting is gone. */
  lemma {:induction false} FirmwareOverHalfWritten() returns (es: seq<Event>)
    ensures Ends(es, Flash, true) && Settings(Run(es).value)[0] == Some([1]) && AfterReboot(Run(es).value, None)[0] == None
  {
    var w := World(true, true, true, true, true, [true, true, true, true], true, false, true, NO_FILES);
    var e0, e1 := Save(0, Some([1])), Part(Req(0, Spiffs), true, 1, false, w);
    var e2 := Part(Req(1, Flash), true, 1, true, w.(writeOk := true));
    es := [e0, e1, e2];
    assert es[..2] == [e0, e1] && [e0, e1][..1] == [e0] && [e0][..0] == [];
    var s0 := Step(START, e0);
    assert Run([e0]) == Some(s0);
    assert s0.files == [Some([1]), None, None, None];
    var s1 := Step(s0, e1);
    assert Run([e0, e1]) == Some(s1);
    assert s1.dirty && s1.owner == None && s1.mutex == Free && s1.before == s0.files && s1.files == NO_FILES;
  }
}
