/**
 * The current relocation screen (`AppPorts/ContentView.swift`). Every
 * operation first checks that the applications folder is writable. Moving
 * out copies the bundle, deletes the original and, should the deletion
 * fail, deletes the copy again. What it leaves at the old place is a "deep"
 * link: a real, empty-looking bundle directory whose only item is a
 * `Contents` link into the external copy, so that the system still sees an
 * application there.
 */
module RelocationDeep {
  import opened Outcomes
  import opened FileSystem
  import opened Ordering
  import opened AppModels
  import Scan = AppScanner
  import First = RelocationFirst

  const Applications: Path := ["Applications"]
  const ContentsName: string := "Contents"

  /** The state after an operation and what it threw, if anything. */
  datatype Change = Change(fs: FS, err: Option<Failure>)

  function Thrown(err: Option<OsError>): Option<Failure>
  {
    if err.Some? then Some(System(err.value)) else None
  }

  /** An `NSError` of the screen's own `AppMover` domain. */
  function MoverError(code: int, description: string): OsError
  {
    OsError("AppMover", code, description)
  }

  const TargetExists: OsError := MoverError(3, "目标已存在真实文件")
  const RealAppExists: OsError := MoverError(1, "本地已存在同名真实应用")
  const SameNameExists: OsError := MoverError(1, "本地已存在同名文件")
  const NotALink: OsError := MoverError(5, "尝试删除非链接文件")
  const RealFileAtHome: OsError := MoverError(6, "本地已存在同名真实文件")
  const FileAtHome: OsError := MoverError(6, "本地已存在同名文件")

  // ----- checkApplicationsFolderWritePermission -----

  const ProbePrefix: string := ".permission_check_"
  /** The probe writes the text "test", four bytes in UTF-8. */
  const ProbeBytes: nat := 4

  /** The probe file; `uuid` stands for the fresh `UUID().uuidString`. */
  function ProbeFile(uuid: string): Path
  {
    Applications + [ProbePrefix + uuid]
  }

  datatype ProbeFaults = ProbeFaults(write: Option<Fault>, remove: Option<Fault>)

  /** Write a probe file into the applications folder and delete it again;
    * either call failing is `permissionDenied` wrapping its error. */
  function Probed(fs: FS, uuid: string, f: ProbeFaults): Change
  {
    var t := ProbeFile(uuid);
    var w := AfterWrite(fs, t, ProbeBytes, f.write);
    if w.err.Some? then Change(w.fs, Some(Mover(PermissionDenied(w.err.value))))
    else
      var r := AfterRemove(w.fs, t, f.remove);
      if r.err.Some? then Change(r.fs, Some(Mover(PermissionDenied(r.err.value))))
      else Change(r.fs, None)
  }

  method CheckWritePermission(v: Volume, uuid: string, f: ProbeFaults) returns (err: Option<Failure>)
    modifies v
    ensures Change(v.fs, err) == Probed(old(v.fs), uuid, f)
  {
    var testFile := ProbeFile(uuid);
    var e := v.Write(testFile, ProbeBytes, f.write);
    if e.Some? {
      return Some(Mover(PermissionDenied(e.value)));
    }
    e := v.RemoveItem(testFile, f.remove);
    if e.Some? {
      return Some(Mover(PermissionDenied(e.value)));
    }
    err := None;
  }

  /** In a well-formed state, nothing lies below an item that is not a
    * directory. */
  lemma NothingBelowLeaf(fs: FS, p: Path, k: Path)
    requires WellFormed(fs) && p in fs && !fs[p].Dir?
    ensures k in fs && p <= k ==> k == p
  {
    if k in fs && p <= k && k != p {
      assert p < k;
      ParentIsDir(fs, p);
      AncestorsAreDirs(fs, k, p);
    }
  }

  /** The probe passes exactly when the applications folder is a directory
    * and no directory has the probe's name and both calls go through; any
    * failure is `permissionDenied`. A passing probe takes away only an item
    * that already had the probe's name, so with a fresh name it changes
    * nothing. */
  lemma ProbeSpec(fs: FS, uuid: string, f: ProbeFaults)
    requires WellFormed(fs)
    ensures var c := Probed(fs, uuid, f);
      (c.err.None? <==> IsDir(fs, Applications) && !IsDir(fs, ProbeFile(uuid)) &&
                        f.write.None? && f.remove.None?) &&
      (c.err.Some? ==> c.err.value.Mover? && c.err.value.error.PermissionDenied?)
    ensures var c := Probed(fs, uuid, f);
      c.err.None? ==> forall k :: (k in c.fs <==> k in fs && k != ProbeFile(uuid)) &&
                                  (k in c.fs ==> c.fs[k] == fs[k])
    ensures var c := Probed(fs, uuid, f);
      c.err.None? && ProbeFile(uuid) !in fs ==> c.fs == fs
  {
    var t := ProbeFile(uuid);
    assert Parent(t) == Applications;
    var c := Probed(fs, uuid, f);
    if c.err.None? {
      forall k
        ensures k in fs && t <= k ==> k == t
      {
        if t in fs {
          NothingBelowLeaf(fs, t, k);
        } else if t <= k {
          NothingBelowMissing(fs, t, k);
        }
      }
    }
  }

  // ----- the deep link -----

  /** `p` is a bundle directory whose only item is a `Contents` link to the
    * `Contents` of `target`. */
  predicate IsWrapper(fs: FS, p: Path, target: Path)
  {
    p in fs && fs[p].Dir? &&
    p + [ContentsName] in fs && fs[p + [ContentsName]] == Link(PathString(target + [ContentsName])) &&
    forall k :: k in fs && p < k ==> k == p + [ContentsName]
  }

  /** Create the deep link at `local` to the bundle at `external`: the bundle
    * directory, then its `Contents` link. */
  function Wrapped(fs: FS, local: Path, external: Path, mkdir: Option<Fault>, link: Option<Fault>): Change
  {
    var d := AfterCreateDirectory(fs, local, 0, mkdir);
    if d.err.Some? then Change(d.fs, Thrown(d.err))
    else
      var l := AfterCreateLink(d.fs, local + [ContentsName], PathString(external + [ContentsName]), link);
      Change(l.fs, Thrown(l.err))
  }

  method Wrap(v: Volume, local: Path, external: Path, mkdir: Option<Fault>, link: Option<Fault>)
    returns (err: Option<Failure>)
    modifies v
    ensures Change(v.fs, err) == Wrapped(old(v.fs), local, external, mkdir, link)
  {
    var e := v.CreateDirectory(local, 0, mkdir);
    if e.Some? {
      return Thrown(e);
    }
    e := v.CreateSymbolicLink(local + [ContentsName], PathString(external + [ContentsName]), link);
    err := Thrown(e);
  }

  /** On a well-formed state the deep link can be made exactly when the spot
    * is free below a directory; it then is a wrapper and nothing else
    * changes. A failed link creation leaves the bare bundle directory. */
  lemma WrappedSpec(fs: FS, local: Path, external: Path, mkdir: Option<Fault>, link: Option<Fault>)
    requires WellFormed(fs)
    ensures var c := Wrapped(fs, local, external, mkdir, link);
      c.err.None? <==> local != [] && local !in fs && IsDir(fs, Parent(local)) && mkdir.None? && link.None?
    ensures var c := Wrapped(fs, local, external, mkdir, link);
      c.err.None? ==>
        WellFormed(c.fs) && IsWrapper(c.fs, local, external) &&
        forall k :: !(local <= k) ==> (k in c.fs <==> k in fs) && (k in fs ==> c.fs[k] == fs[k])
    ensures var c := Wrapped(fs, local, external, mkdir, link);
      c.err.Some? ==> forall k :: k != local ==> (k in c.fs <==> k in fs) && (k in fs ==> c.fs[k] == fs[k])
  {
    WrappedWhen(fs, local, external, mkdir, link);
    if Wrapped(fs, local, external, mkdir, link).err.None? {
      WrappedMakes(fs, local, external);
    }
  }

  /** When the deep link can be made, and what a failure leaves. */
  lemma WrappedWhen(fs: FS, local: Path, external: Path, mkdir: Option<Fault>, link: Option<Fault>)
    requires WellFormed(fs)
    ensures var c := Wrapped(fs, local, external, mkdir, link);
      c.err.None? <==> local != [] && local !in fs && IsDir(fs, Parent(local)) && mkdir.None? && link.None?
    ensures var c := Wrapped(fs, local, external, mkdir, link);
      c.err.Some? ==> forall k :: k != local ==> (k in c.fs <==> k in fs) && (k in fs ==> c.fs[k] == fs[k])
  {
    var inner := local + [ContentsName];
    assert Parent(inner) == local;
    if local != [] && local !in fs {
      NothingBelowMissing(fs, local, inner);
    }
  }

  /** A deep link made without an error is a wrapper on a well-formed state
    * and changes nothing outside its place. */
  lemma WrappedMakes(fs: FS, local: Path, external: Path)
    requires WellFormed(fs) && local != [] && local !in fs && IsDir(fs, Parent(local))
    ensures var c := Wrapped(fs, local, external, None, None);
      c.err.None? && WellFormed(c.fs) && IsWrapper(c.fs, local, external) &&
      forall k :: !(local <= k) ==> (k in c.fs <==> k in fs) && (k in fs ==> c.fs[k] == fs[k])
  {
    var inner := local + [ContentsName];
    assert Parent(inner) == local;
    NothingBelowMissing(fs, local, inner);
    var w := fs[local := Dir(0, map[])][inner := Link(PathString(external + [ContentsName]))];
    assert Wrapped(fs, local, external, None, None) == Change(w, None);
    WrapperMap(fs, local, external);
  }

  /** The state with the bundle directory and its `Contents` link added. */
  lemma WrapperMap(fs: FS, local: Path, external: Path)
    requires WellFormed(fs) && local != [] && local !in fs && IsDir(fs, Parent(local))
    ensures var w := fs[local := Dir(0, map[])][local + [ContentsName] := Link(PathString(external + [ContentsName]))];
      WellFormed(w) && IsWrapper(w, local, external) &&
      forall k :: !(local <= k) ==> (k in w <==> k in fs) && (k in fs ==> w[k] == fs[k])
  {
    var inner := local + [ContentsName];
    var w := fs[local := Dir(0, map[])][inner := Link(PathString(external + [ContentsName]))];
    assert Parent(inner) == local;
    forall k | k in fs ensures !(local <= k) {
      if local <= k {
        NothingBelowMissing(fs, local, k);
      }
    }
    forall k | k in w ensures HangsBelowDir(w, k) {
      if k != local && k != inner {
        ParentIsDir(fs, k);
      }
    }
  }

  // ----- moveAndLink -----

  /** The failures injected into the calls of one operation. */
  datatype Faults = Faults(probe: ProbeFaults, clear: Option<Fault>, transfer: Option<Fault>,
                           remove: Option<Fault>, rollback: Option<Fault>,
                           mkdir: Option<Fault>, link: Option<Fault>)

  /** The destination check of `moveAndLink`: a link standing there is
    * removed, anything else is refused. */
  function DestinationCleared(fs: FS, dest: Path, fault: Option<Fault>): Change
  {
    if !Exists(fs, dest) then Change(fs, None)
    else if IsLink(fs, dest) then
      var e := AfterRemove(fs, dest, fault);
      Change(e.fs, Thrown(e.err))
    else Change(fs, Some(Mover(GeneralError(TargetExists))))
  }

  /** Copy the bundle to `dest`, then delete the original; when the deletion
    * fails, delete the copy (its own failure ignored) and report the
    * deletion's error. */
  function Relocated(fs: FS, src: Path, dest: Path, f: Faults): Change
  {
    var cp := AfterCopy(fs, src, dest, f.transfer);
    if cp.err.Some? then Change(cp.fs, Thrown(cp.err))
    else
      var rm := AfterRemove(cp.fs, src, f.remove);
      if rm.err.Some? then
        var rb := AfterRemove(rm.fs, dest, f.rollback);
        Change(rb.fs, Thrown(rm.err))
      else Change(rm.fs, None)
  }

  /** The checks `moveAndLink` makes before copying: the probe, a running
    * app refused, the destination cleared. */
  function Prepared(fs: FS, uuid: string, app: AppItem, dest: Path, running: set<Path>, f: Faults): Change
  {
    var p := Probed(fs, uuid, f.probe);
    if p.err.Some? then p
    else if app.path in running then Change(p.fs, Some(Mover(AppIsRunning)))
    else DestinationCleared(p.fs, dest, f.clear)
  }

  /** `moveAndLink`: the checks, then relocate the bundle and leave a deep
    * link at its old place. */
  function MovedAndLinked(fs: FS, uuid: string, app: AppItem, dest: Path, running: set<Path>, f: Faults): Change
  {
    var c := Prepared(fs, uuid, app, dest, running, f);
    if c.err.Some? then c
    else
      var m := Relocated(c.fs, app.path, dest, f);
      if m.err.Some? then m
      else Wrapped(m.fs, app.path, dest, f.mkdir, f.link)
  }

  method ClearDestination(v: Volume, dest: Path, fault: Option<Fault>) returns (err: Option<Failure>)
    modifies v
    ensures Change(v.fs, err) == DestinationCleared(old(v.fs), dest, fault)
  {
    err := None;
    if Exists(v.fs, dest) {
      if dest in v.fs && v.fs[dest].Link? {
        var e := v.RemoveItem(dest, fault);
        err := Thrown(e);
      } else {
        err := Some(Mover(GeneralError(TargetExists)));
      }
    }
  }

  method Relocate(v: Volume, src: Path, dest: Path, f: Faults) returns (err: Option<Failure>)
    modifies v
    ensures Change(v.fs, err) == Relocated(old(v.fs), src, dest, f)
  {
    var e := v.CopyItem(src, dest, f.transfer);
    if e.Some? {
      return Thrown(e);
    }
    e := v.RemoveItem(src, f.remove);
    if e.Some? {
      var ignored := v.RemoveItem(dest, f.rollback);
      return Thrown(e);
    }
    err := None;
  }

  method MoveAndLink(v: Volume, uuid: string, app: AppItem, dest: Path, running: set<Path>, f: Faults)
    returns (err: Option<Failure>)
    modifies v
    ensures Change(v.fs, err) == MovedAndLinked(old(v.fs), uuid, app, dest, running, f)
  {
    err := CheckWritePermission(v, uuid, f.probe);
    if err.Some? {
      return;
    }
    if app.path in running {
      return Some(Mover(AppIsRunning));
    }
    err := ClearDestination(v, dest, f.clear);
    if err.Some? {
      return;
    }
    err := Relocate(v, app.path, dest, f);
    if err.Some? {
      return;
    }
    err := Wrap(v, app.path, dest, f.mkdir, f.link);
  }

  /** Every item at or below `src` in `before` is at the same place below
    * `dest` in `after`. */
  ghost predicate CopiedTo(before: FS, after: FS, src: Path, dest: Path)
  {
    forall r :: src + r in before ==> dest + r in after && after[dest + r] == before[src + r]
  }

  /** The items at or below `pa` in `a` are exactly those at or below `pb`
    * in `b`, at the same relative places. */
  ghost predicate SameTree(a: FS, pa: Path, b: FS, pb: Path)
  {
    forall r :: (pa + r in a <==> pb + r in b) && (pa + r in a ==> a[pa + r] == b[pb + r])
  }

  /** Nothing outside `a` and `b` differs between the two states. */
  ghost predicate SameOutside(before: FS, after: FS, a: Path, b: Path)
  {
    forall k :: !(a <= k) && !(b <= k) ==> (k in after <==> k in before) && (k in before ==> after[k] == before[k])
  }

  /** Nothing but `a` itself differs between the two states. */
  ghost predicate SameExcept(before: FS, after: FS, a: Path)
  {
    forall k :: k != a ==> (k in after <==> k in before) && (k in before ==> after[k] == before[k])
  }

  /** The copy cannot land on or inside any item of the source. */
  lemma SourceNotBelowDest(fs: FS, src: Path, dest: Path, r: Path)
    requires WellFormed(fs) && TransferError(fs, src, dest).None? && src + r in fs
    ensures !(dest <= src + r)
  {
    if dest <= src + r && dest != src + r {
      AncestorsAreDirs(fs, src + r, dest);
    }
  }

  /** A copy followed by a successful deletion of the source: the bundle now
    * sits at `dest` and its old place is free below a directory. */
  lemma CopyThenDelete(fs: FS, src: Path, dest: Path)
    requires WellFormed(fs) && TransferError(fs, src, dest).None?
    ensures var m := RemoveTree(Graft(fs, dest, Subtree(fs, src)), src);
      WellFormed(m) && src != [] && src !in m && IsDir(m, Parent(src)) &&
      CopiedTo(fs, m, src, dest) && SameOutside(fs, m, src, dest)
  {
    var m := RemoveTree(Graft(fs, dest, Subtree(fs, src)), src);
    CopyKeepsWellFormed(fs, src, dest);
    assert AfterMove(fs, src, dest, None).fs == m;
    ParentIsDir(fs, src);
    var up := Parent(src);
    assert IsDir(m, up) by {
      if up != [] {
        assert up < src;
        AncestorsAreDirs(fs, src, up);
        First.DestNotAbove(fs, src, dest, up);
      }
    }
    forall r | r in Subtree(fs, src) ensures dest + r in m && m[dest + r] == fs[src + r] {
      First.DestNotBelowSource(fs, src, dest, r);
    }
  }

  /** The destination check leaves a well-formed state that differs at most
    * at the destination. */
  lemma DestinationClearedKeeps(fs: FS, dest: Path, fault: Option<Fault>)
    requires WellFormed(fs)
    ensures var c := DestinationCleared(fs, dest, fault);
      c.err.None? ==> WellFormed(c.fs) && SameExcept(fs, c.fs, dest)
  {
    if Exists(fs, dest) && IsLink(fs, dest) && fault.None? {
      RemoveTreeWellFormed(fs, dest);
      forall k ensures k in fs && dest <= k ==> k == dest {
        NothingBelowLeaf(fs, dest, k);
      }
    }
  }

  /** Before anything is copied: a failed probe changes nothing but the
    * probe file and is `permissionDenied`; a running app and a real item at
    * the destination are refused with nothing changed. */
  lemma MoveAndLinkRefuses(fs: FS, uuid: string, app: AppItem, dest: Path, running: set<Path>, f: Faults)
    requires WellFormed(fs) && ProbeFile(uuid) !in fs
    ensures var c := MovedAndLinked(fs, uuid, app, dest, running, f);
      Probed(fs, uuid, f.probe).err.Some? ==>
        c.err.Some? && c.err.value.Mover? && c.err.value.error.PermissionDenied? &&
        SameExcept(fs, c.fs, ProbeFile(uuid))
    ensures Probed(fs, uuid, f.probe).err.None? && app.path in running ==>
      MovedAndLinked(fs, uuid, app, dest, running, f) == Change(fs, Some(Mover(AppIsRunning)))
    ensures Probed(fs, uuid, f.probe).err.None? && app.path !in running &&
            Exists(fs, dest) && !IsLink(fs, dest) ==>
      MovedAndLinked(fs, uuid, app, dest, running, f) == Change(fs, Some(Mover(GeneralError(TargetExists))))
  {
    ProbeSpec(fs, uuid, f.probe);
    var t := ProbeFile(uuid);
    var w := AfterWrite(fs, t, ProbeBytes, f.probe.write);
    if w.err.None? {
      forall k | k in w.fs ensures f.probe.remove.None? || !Erased(t, f.probe.remove.value.done, k) {
        if t < k {
          NothingBelowMissing(fs, t, k);
        }
      }
    }
  }

  /** When the copy went through and deleting the original fails before it
    * removed anything, deleting the copy restores the state from before the
    * copy, and the deletion's error is reported. */
  lemma RollbackRestores(fs: FS, src: Path, dest: Path, f: Faults)
    requires WellFormed(fs) && TransferError(fs, src, dest).None? && f.transfer.None?
    requires f.remove.Some? && f.remove.value.done == {} && f.rollback.None?
    ensures Relocated(fs, src, dest, f) == Change(fs, Some(System(f.remove.value.err)))
  {
    var cp := Graft(fs, dest, Subtree(fs, src));
    var rm := AfterRemove(cp, src, f.remove);
    assert rm.fs == cp;
    assert dest in cp by {
      assert dest + [] == dest && src + [] == src;
    }
    forall k | k in fs ensures !(dest <= k) {
      if dest <= k {
        NothingBelowMissing(fs, dest, k);
      }
    }
    RemoveGraftRestores(fs, dest, Subtree(fs, src));
  }

  /** A failed deletion that removed part of the original is still followed
    * by deleting the copy: an item the deletion had already removed then
    * exists neither at its old place nor in the copy. */
  lemma RollbackLosesItems(fs: FS, src: Path, dest: Path, f: Faults, r: Path)
    requires WellFormed(fs) && TransferError(fs, src, dest).None? && f.transfer.None?
    requires f.remove.Some? && r in f.remove.value.done && r != [] && src + r in fs && f.rollback.None?
    ensures var c := Relocated(fs, src, dest, f);
      c.err == Some(System(f.remove.value.err)) && src + r !in c.fs && dest + r !in c.fs
  {
    var cp := Graft(fs, dest, Subtree(fs, src));
    TransferOk(fs, src, dest);
    var t := Subtree(fs, src);
    assert src + [] == src && dest + [] == dest;
    assert [] in t;
    assert dest + [] in cp;
    assert !(dest <= src) by {
      First.DestNotAbove(fs, src, dest, src);
    }
    assert src in cp;
    var done := f.remove.value.done;
    var rm := AfterRemove(cp, src, f.remove);
    assert Erased(src, done, src + r);
    RemovedPartly(cp, src, f.remove, src + r);
    RemovedPartly(cp, src, f.remove, dest);
    RelocatedRollsBack(fs, src, dest, f);
    assert dest <= dest + r;
  }

  /** A failed deletion of the original is followed by the deletion of the
    * copy, and its error is the one reported. */
  lemma RelocatedRollsBack(fs: FS, src: Path, dest: Path, f: Faults)
    requires TransferError(fs, src, dest).None? && f.transfer.None? && f.remove.Some?
    requires src in Graft(fs, dest, Subtree(fs, src))
    ensures var rm := AfterRemove(Graft(fs, dest, Subtree(fs, src)), src, f.remove);
      Relocated(fs, src, dest, f) == Change(AfterRemove(rm.fs, dest, f.rollback).fs, Some(System(f.remove.value.err)))
  {
  }

  /** `Relocated` as the rollback evidently intends it: the copy is deleted
    * again only while the original is still complete. */
  function RelocatedSafely(fs: FS, src: Path, dest: Path, f: Faults): Change
  {
    var cp := AfterCopy(fs, src, dest, f.transfer);
    if cp.err.Some? then Change(cp.fs, Thrown(cp.err))
    else
      var rm := AfterRemove(cp.fs, src, f.remove);
      if rm.err.Some? then Change(RolledBack(cp.fs, rm.fs, src, dest, f.rollback), Thrown(rm.err))
      else Change(rm.fs, None)
  }

  /** The state after a failed deletion of the original: the copy is
    * deleted, its own failure ignored, only when the original is complete. */
  function RolledBack(copied: FS, left: FS, src: Path, dest: Path, rollback: Option<Fault>): FS
  {
    if Subtree(left, src) == Subtree(copied, src) then AfterRemove(left, dest, rollback).fs else left
  }

  /** The corrected relocation differs from the code only where the deletion
    * of the original fails after removing part of it: with a deletion that
    * removes nothing before failing, or one that does not fail, the two
    * leave the same state and report the same error. */
  lemma SafelyAgrees(fs: FS, src: Path, dest: Path, f: Faults)
    requires f.remove.None? || f.remove.value.done == {}
    ensures RelocatedSafely(fs, src, dest, f) == Relocated(fs, src, dest, f)
  {
    var cp := AfterCopy(fs, src, dest, f.transfer);
    if cp.err.None? {
      var rm := AfterRemove(cp.fs, src, f.remove);
      if rm.err.Some? {
        assert rm.fs == cp.fs;
      }
    }
  }

  /** An item present both in the original (before the deletion) and in the
    * copy (after it) survives the rollback decision in one of the two. */
  lemma RolledBackKeeps(copied: FS, left: FS, src: Path, dest: Path, rollback: Option<Fault>, r: Path)
    requires src + r in copied && dest + r in left && left[dest + r] == copied[src + r] && !(dest <= src + r)
    ensures var res := RolledBack(copied, left, src, dest, rollback);
      (src + r in res && res[src + r] == copied[src + r]) || (dest + r in res && res[dest + r] == copied[src + r])
  {
    if Subtree(left, src) == Subtree(copied, src) {
      assert r in Subtree(copied, src);
      assert src + r in left && left[src + r] == copied[src + r];
      if dest in left && rollback.Some? {
        assert !Erased(dest, rollback.value.done, src + r);
      }
    }
  }

  /** Whatever fails, every item of the bundle survives, at its old place or
    * in the copy. */
  lemma RelocatedSafelyKeepsBundle(fs: FS, src: Path, dest: Path, f: Faults)
    requires WellFormed(fs)
    ensures var c := RelocatedSafely(fs, src, dest, f);
      forall r :: r in Subtree(fs, src) ==>
        (src + r in c.fs && c.fs[src + r] == fs[src + r]) ||
        (dest + r in c.fs && c.fs[dest + r] == fs[src + r])
  {
    var c := RelocatedSafely(fs, src, dest, f);
    forall r | r in Subtree(fs, src)
      ensures (src + r in c.fs && c.fs[src + r] == fs[src + r]) ||
              (dest + r in c.fs && c.fs[dest + r] == fs[src + r])
    {
      if TransferError(fs, src, dest).None? {
        KeptItem(fs, src, dest, f, r);
      }
    }
  }

  /** One item of the bundle through `RelocatedSafely`. */
  lemma KeptItem(fs: FS, src: Path, dest: Path, f: Faults, r: Path)
    requires WellFormed(fs) && TransferError(fs, src, dest).None? && src + r in fs
    ensures var c := RelocatedSafely(fs, src, dest, f);
      (src + r in c.fs && c.fs[src + r] == fs[src + r]) ||
      (dest + r in c.fs && c.fs[dest + r] == fs[src + r])
  {
    SourceNotBelowDest(fs, src, dest, r);
    First.DestNotBelowSource(fs, src, dest, r);
    var cp := AfterCopy(fs, src, dest, f.transfer);
    assert src + r in cp.fs && cp.fs[src + r] == fs[src + r];
    if cp.err.None? {
      assert r in Subtree(fs, src);
      assert dest + r in cp.fs && cp.fs[dest + r] == fs[src + r];
      var rm := AfterRemove(cp.fs, src, f.remove);
      if rm.err.Some? {
        assert !Erased(src, f.remove.value.done, dest + r);
        assert dest + r in rm.fs && rm.fs[dest + r] == fs[src + r];
        RolledBackKeeps(cp.fs, rm.fs, src, dest, f.rollback, r);
      }
    }
  }

  /** Prefixes of one path are prefixes of each other. */
  lemma PrefixesMeet(a: Path, b: Path, k: Path)
    requires a <= k && b <= k
    ensures a <= b || b <= a
  {
    if |a| <= |b| {
      assert a == k[..|a|] == b[..|a|];
    } else {
      assert b == k[..|b|] == a[..|b|];
    }
  }

  /** The checks before copying keep the state well formed and change it at
    * most at the destination. */
  lemma PreparedKeeps(fs: FS, uuid: string, app: AppItem, dest: Path, running: set<Path>, f: Faults)
    requires WellFormed(fs) && ProbeFile(uuid) !in fs
    ensures var c := Prepared(fs, uuid, app, dest, running, f);
      c.err.None? ==> app.path !in running && WellFormed(c.fs) && SameExcept(fs, c.fs, dest)
  {
    ProbeSpec(fs, uuid, f.probe);
    DestinationClearedKeeps(fs, dest, f.clear);
  }

  /** The items at and below a path apart from `a` are the same in two
    * states that differ only at `a`. */
  lemma TreeAwayFrom(fs: FS, fs': FS, a: Path, src: Path)
    requires SameExcept(fs, fs', a) && !(src <= a)
    ensures SameTree(fs', src, fs, src)
  {
    forall r ensures src + r != a {
    }
  }

  lemma SameTreeTrans(a: FS, pa: Path, b: FS, pb: Path, c: FS, pc: Path)
    requires SameTree(a, pa, b, pb) && SameTree(b, pb, c, pc)
    ensures SameTree(a, pa, c, pc)
  {
  }

  lemma OutsideThroughExcept(fs: FS, fs': FS, after: FS, src: Path, dest: Path)
    requires SameExcept(fs, fs', dest) && SameOutside(fs', after, src, dest)
    ensures SameOutside(fs, after, src, dest)
  {
  }

  /** A successful relocation is the copy followed by the deletion of the
    * whole original. */
  lemma RelocatedMoves(fs: FS, src: Path, dest: Path, f: Faults)
    ensures Relocated(fs, src, dest, f).err.None? <==>
      TransferError(fs, src, dest).None? && f.transfer.None? && f.remove.None?
    ensures Relocated(fs, src, dest, f).err.None? ==>
      src in fs && dest !in fs && !(src <= dest) &&
      Relocated(fs, src, dest, f).fs == RemoveTree(Graft(fs, dest, Subtree(fs, src)), src)
  {
    if TransferError(fs, src, dest).None? && f.transfer.None? {
      assert dest + [] == dest && src + [] == src;
      assert src in Graft(fs, dest, Subtree(fs, src));
    }
  }

  /** What is kept outside `src` from `m` to `w` carries the copy and the
    * unchanged remainder over from `fs`. */
  lemma CarriedOver(fs: FS, m: FS, w: FS, src: Path, dest: Path)
    requires CopiedTo(fs, m, src, dest) && SameOutside(fs, m, src, dest)
    requires forall k :: !(src <= k) ==> (k in w <==> k in m) && (k in m ==> w[k] == m[k])
    requires forall r :: r in Subtree(fs, src) ==> !(src <= dest + r)
    ensures CopiedTo(fs, w, src, dest) && SameOutside(fs, w, src, dest)
  {
  }

  /** The deep link made over a state that holds the copy and no longer the
    * original: on success the old place holds the deep link, on failure at
    * most a bare directory; the copy and the rest are carried over. */
  lemma WrapAfterCopy(fs: FS, m: FS, src: Path, dest: Path, mkdir: Option<Fault>, link: Option<Fault>)
    requires WellFormed(m) && src != [] && src !in m && IsDir(m, Parent(src))
    requires CopiedTo(fs, m, src, dest) && SameOutside(fs, m, src, dest)
    requires forall r :: r in Subtree(fs, src) ==> !(src <= dest + r)
    ensures var w := Wrapped(m, src, dest, mkdir, link);
      w.err.None? ==>
        WellFormed(w.fs) && IsWrapper(w.fs, src, dest) &&
        CopiedTo(fs, w.fs, src, dest) && SameOutside(fs, w.fs, src, dest)
    ensures var w := Wrapped(m, src, dest, mkdir, link);
      w.err.Some? ==> CopiedTo(fs, w.fs, src, dest) && forall r :: r != [] ==> src + r !in w.fs
  {
    WrappedSpec(m, src, dest, mkdir, link);
    var w := Wrapped(m, src, dest, mkdir, link);
    if w.err.None? {
      CarriedOver(fs, m, w.fs, src, dest);
    } else {
      forall r | r != [] ensures src + r !in w.fs {
        if src + r in m {
          NothingBelowMissing(m, src, src + r);
        }
      }
    }
  }

  /** The deep link made after a relocation on a well-formed state: the old
    * place holds the deep link, the destination the bundle, and nothing else
    * changes. */
  lemma MoveCore(fs: FS, src: Path, dest: Path, mkdir: Option<Fault>, link: Option<Fault>)
    requires WellFormed(fs) && TransferError(fs, src, dest).None?
    ensures var w := Wrapped(RemoveTree(Graft(fs, dest, Subtree(fs, src)), src), src, dest, mkdir, link);
      w.err.None? ==>
        !(src <= dest) && !(dest <= src) && WellFormed(w.fs) && IsWrapper(w.fs, src, dest) &&
        CopiedTo(fs, w.fs, src, dest) && SameOutside(fs, w.fs, src, dest)
  {
    var m := RemoveTree(Graft(fs, dest, Subtree(fs, src)), src);
    CopyThenDelete(fs, src, dest);
    First.DestNotAbove(fs, src, dest, src);
    First.DestNotBelowSource(fs, src, dest, []);
    assert dest + [] == dest;
    forall r | r in Subtree(fs, src) ensures !(src <= dest + r) {
      First.DestNotBelowSource(fs, src, dest, r);
    }
    WrapAfterCopy(fs, m, src, dest, mkdir, link);
  }

  /** Below the destination there is nothing but the copy. */
  lemma CopyOnlyBelowDest(fs: FS, src: Path, dest: Path)
    requires WellFormed(fs) && TransferError(fs, src, dest).None?
    ensures forall r :: dest + r in Graft(fs, dest, Subtree(fs, src)) ==> src + r in fs
  {
    forall r | dest + r in fs ensures false {
      NothingBelowMissing(fs, dest, dest + r);
    }
  }

  /** After the relocation and the deep link, the destination holds exactly
    * the bundle's items. */
  lemma MoveCoreExact(fs: FS, src: Path, dest: Path, mkdir: Option<Fault>, link: Option<Fault>)
    requires WellFormed(fs) && TransferError(fs, src, dest).None?
    ensures var w := Wrapped(RemoveTree(Graft(fs, dest, Subtree(fs, src)), src), src, dest, mkdir, link);
      w.err.None? ==> SameTree(w.fs, dest, fs, src)
  {
    var g := Graft(fs, dest, Subtree(fs, src));
    var m := RemoveTree(g, src);
    var w := Wrapped(m, src, dest, mkdir, link);
    CopyThenDelete(fs, src, dest);
    MoveCore(fs, src, dest, mkdir, link);
    WrappedSpec(m, src, dest, mkdir, link);
    if w.err.None? {
      CopyOnlyBelowDest(fs, src, dest);
      forall r ensures dest + r in w.fs ==> src + r in fs {
        if dest + r in w.fs && src <= dest + r {
          PrefixesMeet(src, dest, dest + r);
        }
      }
    }
  }

  /** A failure while making the deep link after the relocation leaves the
    * bundle at the destination and at most a bare directory at its old
    * place. */
  lemma MoveCoreWrapFails(fs: FS, src: Path, dest: Path, mkdir: Option<Fault>, link: Option<Fault>)
    requires WellFormed(fs) && TransferError(fs, src, dest).None?
    ensures var w := Wrapped(RemoveTree(Graft(fs, dest, Subtree(fs, src)), src), src, dest, mkdir, link);
      w.err.Some? ==> CopiedTo(fs, w.fs, src, dest) && forall r :: r != [] ==> src + r !in w.fs
  {
    var m := RemoveTree(Graft(fs, dest, Subtree(fs, src)), src);
    CopyThenDelete(fs, src, dest);
    forall r | r in Subtree(fs, src) ensures !(src <= dest + r) {
      First.DestNotBelowSource(fs, src, dest, r);
    }
    WrapAfterCopy(fs, m, src, dest, mkdir, link);
  }

  /** A successful move-out leaves a deep link at the bundle's place, exactly
    * the bundle's items at the destination, and everything outside the two
    * as it was; the state stays well formed. */
  lemma MoveAndLinkSucceeds(fs: FS, uuid: string, app: AppItem, dest: Path, running: set<Path>, f: Faults)
    requires WellFormed(fs) && ProbeFile(uuid) !in fs
    ensures var c := MovedAndLinked(fs, uuid, app, dest, running, f);
      c.err.None? ==>
        app.path !in running && app.path in fs && !(app.path <= dest) && !(dest <= app.path) &&
        WellFormed(c.fs) && IsWrapper(c.fs, app.path, dest) &&
        SameTree(c.fs, dest, fs, app.path) && SameOutside(fs, c.fs, app.path, dest)
  {
    var p := Prepared(fs, uuid, app, dest, running, f);
    PreparedKeeps(fs, uuid, app, dest, running, f);
    if p.err.None? {
      RelocatedMoves(p.fs, app.path, dest, f);
      var c := MovedAndLinked(fs, uuid, app, dest, running, f);
      if c.err.None? {
        MoveCore(p.fs, app.path, dest, f.mkdir, f.link);
        MoveCoreExact(p.fs, app.path, dest, f.mkdir, f.link);
        TreeAwayFrom(fs, p.fs, dest, app.path);
        SameTreeTrans(c.fs, dest, p.fs, app.path, fs, app.path);
        OutsideThroughExcept(fs, p.fs, c.fs, app.path, dest);
      }
    }
  }

  // ----- linkApp, deleteLink and moveBack -----

  /** The check `linkApp` and `moveBack` make at the local spot: nothing
    * there is fine; a link, or a directory whose `Contents` is a link (a
    * deep link), is removed; another directory is `realConflict`; anything
    * else is `otherConflict`. */
  function SpotCleared(fs: FS, p: Path, fault: Option<Fault>, realConflict: OsError, otherConflict: OsError): Change
  {
    if !Exists(fs, p) then Change(fs, None)
    else if IsLink(fs, p) || (IsDir(fs, p) && IsLink(fs, p + [ContentsName])) then
      var e := AfterRemove(fs, p, fault);
      Change(e.fs, Thrown(e.err))
    else if IsDir(fs, p) then Change(fs, Some(Mover(GeneralError(realConflict))))
    else Change(fs, Some(Mover(GeneralError(otherConflict))))
  }

  method ClearSpot(v: Volume, p: Path, fault: Option<Fault>, realConflict: OsError, otherConflict: OsError)
    returns (err: Option<Failure>)
    modifies v
    ensures Change(v.fs, err) == SpotCleared(old(v.fs), p, fault, realConflict, otherConflict)
  {
    err := None;
    if Exists(v.fs, p) {
      var isLink := p in v.fs && v.fs[p].Link?;
      var isDirectory := p == [] || (p in v.fs && v.fs[p].Dir?);
      if isLink {
        var e := v.RemoveItem(p, fault);
        err := Thrown(e);
      } else if isDirectory {
        var contents := p + [ContentsName];
        if contents in v.fs && v.fs[contents].Link? {
          var e := v.RemoveItem(p, fault);
          err := Thrown(e);
        } else {
          err := Some(Mover(GeneralError(realConflict)));
        }
      } else {
        err := Some(Mover(GeneralError(otherConflict)));
      }
    }
  }

  /** The spot check removes a link or a deep link with everything below it
    * and refuses anything else unchanged: a directory as a real app, any
    * other item as a plain file. */
  lemma SpotClearedSpec(fs: FS, p: Path, fault: Option<Fault>, realConflict: OsError, otherConflict: OsError)
    requires WellFormed(fs)
    ensures var c := SpotCleared(fs, p, fault, realConflict, otherConflict);
      (c.err.None? <==>
         !Exists(fs, p) || (p in fs && (fs[p].Link? || (fs[p].Dir? && IsLink(fs, p + [ContentsName]))) && fault.None?)) &&
      (c.err.None? ==> c.fs == if Exists(fs, p) then RemoveTree(fs, p) else fs)
    ensures Exists(fs, p) && IsDir(fs, p) && !IsLink(fs, p + [ContentsName]) ==>
      SpotCleared(fs, p, fault, realConflict, otherConflict) == Change(fs, Some(Mover(GeneralError(realConflict))))
    ensures Exists(fs, p) && !IsLink(fs, p) && !IsDir(fs, p) ==>
      SpotCleared(fs, p, fault, realConflict, otherConflict) == Change(fs, Some(Mover(GeneralError(otherConflict))))
  {
    if [] in fs {
      ParentIsDir(fs, []);
    }
  }

  /** What the move-out and link-in leave behind is recognised and replaced:
    * the spot check removes a deep link, and nothing else. */
  lemma WrapperIsReplaced(fs: FS, p: Path, target: Path, realConflict: OsError, otherConflict: OsError)
    requires WellFormed(fs) && IsWrapper(fs, p, target)
    ensures SpotCleared(fs, p, None, realConflict, otherConflict) == Change(RemoveTree(fs, p), None)
  {
    ExistsDirect(fs, p);
  }

  /** `linkApp`: probe, clear the local spot, then make a deep link there to
    * the external bundle. */
  function LinkedIn(fs: FS, uuid: string, app: AppItem, dest: Path, f: Faults): Change
  {
    var p := Probed(fs, uuid, f.probe);
    if p.err.Some? then p
    else
      var c := SpotCleared(p.fs, dest, f.clear, RealAppExists, SameNameExists);
      if c.err.Some? then c
      else Wrapped(c.fs, dest, app.path, f.mkdir, f.link)
  }

  method LinkApp(v: Volume, uuid: string, app: AppItem, dest: Path, f: Faults) returns (err: Option<Failure>)
    modifies v
    ensures Change(v.fs, err) == LinkedIn(old(v.fs), uuid, app, dest, f)
  {
    err := CheckWritePermission(v, uuid, f.probe);
    if err.Some? {
      return;
    }
    err := ClearSpot(v, dest, f.clear, RealAppExists, SameNameExists);
    if err.Some? {
      return;
    }
    err := Wrap(v, dest, app.path, f.mkdir, f.link);
  }

  /** Linking in refuses a real directory and any other real item at the
    * spot, with nothing changed; a success leaves a deep link to the
    * external bundle at the spot, where only a link or a deep link could
    * have stood, and changes nothing outside the spot. */
  lemma LinkAppSpec(fs: FS, uuid: string, app: AppItem, dest: Path, f: Faults)
    requires WellFormed(fs) && ProbeFile(uuid) !in fs
    ensures Probed(fs, uuid, f.probe).err.None? && Exists(fs, dest) && IsDir(fs, dest) &&
            !IsLink(fs, dest + [ContentsName]) ==>
      LinkedIn(fs, uuid, app, dest, f) == Change(fs, Some(Mover(GeneralError(RealAppExists))))
    ensures Probed(fs, uuid, f.probe).err.None? && Exists(fs, dest) && !IsLink(fs, dest) && !IsDir(fs, dest) ==>
      LinkedIn(fs, uuid, app, dest, f) == Change(fs, Some(Mover(GeneralError(SameNameExists))))
    ensures var c := LinkedIn(fs, uuid, app, dest, f);
      c.err.None? ==>
        WellFormed(c.fs) && IsWrapper(c.fs, dest, app.path) &&
        (dest in fs ==> IsLink(fs, dest) || (IsDir(fs, dest) && IsLink(fs, dest + [ContentsName]))) &&
        SameOutside(fs, c.fs, dest, dest)
  {
    ProbeSpec(fs, uuid, f.probe);
    SpotClearedSpec(fs, dest, f.clear, RealAppExists, SameNameExists);
    var c := SpotCleared(fs, dest, f.clear, RealAppExists, SameNameExists);
    if Probed(fs, uuid, f.probe).err.None? && c.err.None? {
      if Exists(fs, dest) {
        RemoveTreeWellFormed(fs, dest);
      } else if dest in fs {
        if !fs[dest].Link? {
          ExistsDirect(fs, dest);
        }
      }
      WrappedSpec(c.fs, dest, app.path, f.mkdir, f.link);
    }
  }

  /** `deleteLink`: probe, then remove a link or a directory at the row's
    * path; anything else, a missing item included, is refused. */
  function DeletedLink(fs: FS, uuid: string, app: AppItem, f: Faults): Change
  {
    var p := Probed(fs, uuid, f.probe);
    if p.err.Some? then p
    else if IsLink(p.fs, app.path) || IsDir(p.fs, app.path) then
      var e := AfterRemove(p.fs, app.path, f.clear);
      Change(e.fs, Thrown(e.err))
    else Change(p.fs, Some(Mover(GeneralError(NotALink))))
  }

  method DeleteLink(v: Volume, uuid: string, app: AppItem, f: Faults) returns (err: Option<Failure>)
    modifies v
    ensures Change(v.fs, err) == DeletedLink(old(v.fs), uuid, app, f)
  {
    err := CheckWritePermission(v, uuid, f.probe);
    if err.Some? {
      return;
    }
    var isLink := app.path in v.fs && v.fs[app.path].Link?;
    var isDirectory := app.path == [] || (app.path in v.fs && v.fs[app.path].Dir?);
    if isLink || isDirectory {
      var e := v.RemoveItem(app.path, f.clear);
      err := Thrown(e);
    } else {
      err := Some(Mover(GeneralError(NotALink)));
    }
  }

  /** Deleting removes a link or any directory, deep link or real bundle
    * alike, with everything below it and nothing else; a plain file or a
    * missing item is refused with nothing changed. */
  lemma DeleteLinkSpec(fs: FS, uuid: string, app: AppItem, f: Faults)
    requires WellFormed(fs) && ProbeFile(uuid) !in fs
    ensures var c := DeletedLink(fs, uuid, app, f);
      c.err.None? <==>
        Probed(fs, uuid, f.probe).err.None? && app.path in fs &&
        (fs[app.path].Link? || fs[app.path].Dir?) && f.clear.None?
    ensures var c := DeletedLink(fs, uuid, app, f);
      c.err.None? ==> forall k :: (k in c.fs <==> k in fs && !(app.path <= k)) && (k in c.fs ==> c.fs[k] == fs[k])
    ensures Probed(fs, uuid, f.probe).err.None? && !IsLink(fs, app.path) && !IsDir(fs, app.path) ==>
      DeletedLink(fs, uuid, app, f) == Change(fs, Some(Mover(GeneralError(NotALink))))
  {
    ProbeSpec(fs, uuid, f.probe);
    if [] in fs {
      ParentIsDir(fs, []);
    }
  }

  /** `moveBack`: probe, clear the local spot, then move the external bundle
    * into it. */
  function MovedBack(fs: FS, uuid: string, app: AppItem, dest: Path, f: Faults): Change
  {
    var p := Probed(fs, uuid, f.probe);
    if p.err.Some? then p
    else
      var c := SpotCleared(p.fs, dest, f.clear, RealFileAtHome, FileAtHome);
      if c.err.Some? then c
      else
        var m := AfterMove(c.fs, app.path, dest, f.transfer);
        Change(m.fs, Thrown(m.err))
  }

  method MoveBack(v: Volume, uuid: string, app: AppItem, dest: Path, f: Faults) returns (err: Option<Failure>)
    modifies v
    ensures Change(v.fs, err) == MovedBack(old(v.fs), uuid, app, dest, f)
  {
    err := CheckWritePermission(v, uuid, f.probe);
    if err.Some? {
      return;
    }
    err := ClearSpot(v, dest, f.clear, RealFileAtHome, FileAtHome);
    if err.Some? {
      return;
    }
    var e := v.MoveItem(app.path, dest, f.transfer);
    err := Thrown(e);
  }

  /** Moving back refuses a real directory or another item at the local spot
    * with nothing changed. */
  lemma MoveBackRefuses(fs: FS, uuid: string, app: AppItem, dest: Path, f: Faults)
    requires WellFormed(fs) && ProbeFile(uuid) !in fs
    ensures Probed(fs, uuid, f.probe).err.None? && Exists(fs, dest) && IsDir(fs, dest) &&
            !IsLink(fs, dest + [ContentsName]) ==>
      MovedBack(fs, uuid, app, dest, f) == Change(fs, Some(Mover(GeneralError(RealFileAtHome))))
    ensures Probed(fs, uuid, f.probe).err.None? && Exists(fs, dest) && !IsLink(fs, dest) && !IsDir(fs, dest) ==>
      MovedBack(fs, uuid, app, dest, f) == Change(fs, Some(Mover(GeneralError(FileAtHome))))
  {
    ProbeSpec(fs, uuid, f.probe);
    SpotClearedSpec(fs, dest, f.clear, RealFileAtHome, FileAtHome);
  }

  /** A successful `moveItem` on a well-formed state: the item's tree now
    * stands at the destination, nothing is left at the source, and nothing
    * else changed. */
  lemma MovedExactly(fs: FS, src: Path, dest: Path)
    requires WellFormed(fs) && TransferError(fs, src, dest).None?
    ensures var m := RemoveTree(Graft(fs, dest, Subtree(fs, src)), src);
      WellFormed(m) && SameTree(m, dest, fs, src) && (forall r :: src + r !in m) &&
      SameOutside(fs, m, src, dest)
  {
    var m := RemoveTree(Graft(fs, dest, Subtree(fs, src)), src);
    CopyThenDelete(fs, src, dest);
    CopyOnlyBelowDest(fs, src, dest);
    forall r ensures src + r !in m {
      assert src <= src + r;
    }
  }

  /** A successful spot check changed nothing away from the spot, where at
    * most a link or a deep link stood, and left the spot either as it was
    * or with nothing at or below it. */
  lemma SpotClearedLeaves(fs: FS, p: Path, fault: Option<Fault>, realConflict: OsError, otherConflict: OsError)
    requires WellFormed(fs)
    ensures var c := SpotCleared(fs, p, fault, realConflict, otherConflict);
      c.err.None? ==>
        WellFormed(c.fs) && SameOutside(fs, c.fs, p, p) &&
        (p in fs ==> IsLink(fs, p) || (IsDir(fs, p) && IsLink(fs, p + [ContentsName]))) &&
        (p !in c.fs ==> forall k :: p <= k ==> k !in c.fs)
  {
    SpotClearedSpec(fs, p, fault, realConflict, otherConflict);
    var c := SpotCleared(fs, p, fault, realConflict, otherConflict);
    if c.err.None? {
      if Exists(fs, p) {
        RemoveTreeWellFormed(fs, p);
      } else if p in fs {
        if !fs[p].Link? {
          ExistsDirect(fs, p);
        }
      } else {
        assert p != [];
        forall k | p <= k ensures k !in fs {
          NothingBelowMissing(fs, p, k);
        }
      }
    }
  }

  /** Clearing a spot leaves the tree of an item apart from it as it was. */
  lemma AwayFromCleared(fs: FS, c: FS, p: Path, q: Path)
    requires SameOutside(fs, c, p, p) && (forall k :: p <= k ==> k !in c)
    requires q in c && !(q <= p)
    ensures !(p <= q) && SameTree(c, q, fs, q)
  {
    forall r ensures (q + r in c <==> q + r in fs) && (q + r in c ==> c[q + r] == fs[q + r]) {
      if p <= q + r {
        PrefixesMeet(p, q, q + r);
      }
    }
  }

  /** A successful move-back found the external bundle apart from the local
    * spot, where at most a link or a deep link stood, and leaves exactly the
    * bundle's items at the local spot, nothing at the external place and
    * everything else as it was. */
  lemma MoveBackSucceeds(fs: FS, uuid: string, app: AppItem, dest: Path, f: Faults)
    requires WellFormed(fs) && ProbeFile(uuid) !in fs
    ensures var d := MovedBack(fs, uuid, app, dest, f);
      d.err.None? ==>
        app.path in fs && !(app.path <= dest) && !(dest <= app.path) &&
        (dest in fs ==> IsLink(fs, dest) || (IsDir(fs, dest) && IsLink(fs, dest + [ContentsName]))) &&
        WellFormed(d.fs) && SameTree(d.fs, dest, fs, app.path) &&
        (forall r :: app.path + r !in d.fs) && SameOutside(fs, d.fs, dest, app.path)
  {
    ProbeSpec(fs, uuid, f.probe);
    SpotClearedLeaves(fs, dest, f.clear, RealFileAtHome, FileAtHome);
    var c := SpotCleared(fs, dest, f.clear, RealFileAtHome, FileAtHome);
    if Probed(fs, uuid, f.probe).err.None? && c.err.None? && TransferError(c.fs, app.path, dest).None? {
      var m := RemoveTree(Graft(c.fs, dest, Subtree(c.fs, app.path)), app.path);
      MovedExactly(c.fs, app.path, dest);
      AwayFromCleared(fs, c.fs, dest, app.path);
      SameTreeTrans(m, dest, c.fs, app.path, fs, app.path);
    }
  }

  /** The states around a move-out and a move-back: together the two leave
    * the state as it was, less what stood at the external place. */
  lemma BackWhereItWas(fs: FS, c: FS, d: FS, p: Path, dest: Path)
    requires !(p <= dest) && !(dest <= p)
    requires SameTree(c, dest, fs, p) && SameOutside(fs, c, p, dest)
    requires SameTree(d, p, c, dest) && SameOutside(c, d, p, dest) && (forall r :: dest + r !in d)
    ensures forall k :: (k in d <==> k in fs && !(dest <= k)) && (k in d ==> d[k] == fs[k])
  {
    forall k ensures (k in d <==> k in fs && !(dest <= k)) && (k in d ==> d[k] == fs[k]) {
      if p <= k {
        var r := k[|p|..];
        assert k == p + r;
        if dest <= k {
          PrefixesMeet(dest, p, k);
        }
      } else if dest <= k {
        var r := k[|dest|..];
        assert k == dest + r;
      }
    }
  }

  /** Moving an app out and then moving it back from the external drive
    * restores the original state, less whatever link the first step
    * cleared away at the destination. */
  lemma MoveOutThenBack(fs: FS, uuid: string, app: AppItem, dest: Path, running: set<Path>,
                        f: Faults, uuid': string, external: AppItem, f': Faults)
    requires WellFormed(fs) && ProbeFile(uuid) !in fs && external.path == dest
    ensures var c := MovedAndLinked(fs, uuid, app, dest, running, f);
      var d := MovedBack(c.fs, uuid', external, app.path, f');
      c.err.None? && ProbeFile(uuid') !in c.fs && d.err.None? ==>
        forall k :: (k in d.fs <==> k in fs && !(dest <= k)) && (k in d.fs ==> d.fs[k] == fs[k])
  {
    var c := MovedAndLinked(fs, uuid, app, dest, running, f);
    MoveAndLinkSucceeds(fs, uuid, app, dest, running, f);
    if c.err.None? && ProbeFile(uuid') !in c.fs {
      var d := MovedBack(c.fs, uuid', external, app.path, f');
      MoveBackSucceeds(c.fs, uuid', external, app.path, f');
      if d.err.None? {
        BackWhereItWas(fs, c.fs, d.fs, app.path, dest);
      }
    }
  }
}
