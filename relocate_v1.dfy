/**
 * The second relocation screen (`ContentView.swift`): it lists local and
 * external bundles with their running and system flags, refuses to move a
 * running app, replaces a link standing in the way, and relocates by a link
 * standing for the whole bundle. `FileManager` errors pass through
 * unchanged.
 */
module RelocationShallow {
  import opened Outcomes
  import opened FileSystem
  import opened Ordering
  import Scan = AppScanner
  import First = RelocationFirst

  /** This screen's own list row. `id` stands for the fresh `UUID()`. */
  datatype AppItem = AppItem(id: nat, name: string, path: Path, status: string,
                             isSystemApp: bool, isRunning: bool)

  datatype AppMoverError = PermissionDenied(inner: OsError) | GeneralError(inner: OsError) | AppIsRunning

  /** What an operation throws: the screen's own error, or a `FileManager`
    * error passed through. */
  datatype Failure = Mover(error: AppMoverError) | System(cause: OsError)

  const Local: string := "本地"
  const External: string := "外部"
  const Linked: string := "已链接"
  const LinkedAbnormal: string := "已链接(异常)"

  const Applications: Path := ["Applications"]

  // ----- scanLocalApps and scanExternalApps -----

  function LocalEntry(fs: FS, running: set<Path>, id: nat, name: string): Option<AppItem>
  {
    var item := Applications + [name];
    if Scan.HasAppExtension(name) then
      Some(AppItem(id, name, item, if IsLink(fs, item) then Linked else Local,
                   Scan.UnderSystem(item), item in running))
    else None
  }

  function LocalRows(fs: FS, running: set<Path>): (nat, string) -> Option<AppItem>
  {
    (id: nat, name: string) => LocalEntry(fs, running, id, name)
  }

  /** The local list: every bundle of the applications folder, sorted. */
  function LocalScan(fs: FS, lister: Lister, running: set<Path>, idBase: nat): seq<AppItem>
  {
    var names := Scan.Listed(fs, lister, Applications);
    SortApps(Scan.Collect(LocalRows(fs, running), idBase, names, |names|))
  }

  method ScanLocalApps(fs: FS, lister: Lister, running: set<Path>, idBase: nat)
    returns (apps: seq<AppItem>)
    ensures apps == LocalScan(fs, lister, running, idBase)
  {
    var items := Scan.Listed(fs, lister, Applications);
    var newApps: seq<AppItem> := [];
    for i := 0 to |items|
      invariant newApps == Scan.Collect(LocalRows(fs, running), idBase, items, i)
    {
      var itemUrl := Applications + [items[i]];
      if Scan.HasAppExtension(items[i]) {
        var status := Local;
        var isSystem := "/System" <= PathString(itemUrl);
        var isRunning := itemUrl in running;
        if itemUrl in fs && fs[itemUrl].Link? {
          status := Linked;
        }
        var row := AppItem(idBase + i, items[i], itemUrl, status, isSystem, isRunning);
        Scan.CollectNext(LocalRows(fs, running), idBase, items, i, Some(row));
        newApps := newApps + [row];
      } else {
        Scan.CollectNext(LocalRows(fs, running), idBase, items, i, None);
      }
    }
    apps := SortApps(newApps);
  }

  function ExternalEntry(fs: FS, dir: Path, id: nat, name: string): Option<AppItem>
  {
    var item := dir + [name];
    if Scan.HasAppExtension(name) then
      Some(AppItem(id, name, item, if IsLink(fs, item) then LinkedAbnormal else External, false, false))
    else None
  }

  function ExternalRows(fs: FS, dir: Path): (nat, string) -> Option<AppItem>
  {
    (id: nat, name: string) => ExternalEntry(fs, dir, id, name)
  }

  /** The external list: every bundle of the chosen drive, if any, sorted. */
  function ExternalScan(fs: FS, lister: Lister, drive: Option<Path>, idBase: nat): seq<AppItem>
  {
    match drive
    case None => []
    case Some(dir) =>
      var names := Scan.Listed(fs, lister, dir);
      SortApps(Scan.Collect(ExternalRows(fs, dir), idBase, names, |names|))
  }

  method ScanExternalApps(fs: FS, lister: Lister, drive: Option<Path>, idBase: nat)
    returns (apps: seq<AppItem>)
    ensures apps == ExternalScan(fs, lister, drive, idBase)
  {
    if drive.None? {
      return [];
    }
    var dir := drive.value;
    var items := Scan.Listed(fs, lister, dir);
    var newApps: seq<AppItem> := [];
    for i := 0 to |items|
      invariant newApps == Scan.Collect(ExternalRows(fs, dir), idBase, items, i)
    {
      var itemUrl := dir + [items[i]];
      if Scan.HasAppExtension(items[i]) {
        var status := External;
        if itemUrl in fs && fs[itemUrl].Link? {
          status := LinkedAbnormal;
        }
        var row := AppItem(idBase + i, items[i], itemUrl, status, false, false);
        Scan.CollectNext(ExternalRows(fs, dir), idBase, items, i, Some(row));
        newApps := newApps + [row];
      } else {
        Scan.CollectNext(ExternalRows(fs, dir), idBase, items, i, None);
      }
    }
    apps := SortApps(newApps);
  }

  /** Every local row is a listed bundle: `已链接` exactly when it is a link
    * and `本地` otherwise, system exactly under `/System`, running exactly
    * when among the running apps; every listed bundle has a row. */
  lemma LocalScanRows(fs: FS, lister: Lister, running: set<Path>, idBase: nat)
    ensures forall a :: a in LocalScan(fs, lister, running, idBase) ==>
      a.name in Scan.Listed(fs, lister, Applications) && Scan.HasAppExtension(a.name) &&
      a.path == Applications + [a.name] &&
      a.status == (if IsLink(fs, a.path) then Linked else Local) &&
      (a.isSystemApp <==> Scan.UnderSystem(a.path)) && (a.isRunning <==> a.path in running)
    ensures forall n :: n in Scan.Listed(fs, lister, Applications) && Scan.HasAppExtension(n) ==>
      exists a :: a in LocalScan(fs, lister, running, idBase) && a.path == Applications + [n]
  {
    LocalScanSound(fs, lister, running, idBase);
    LocalScanComplete(fs, lister, running, idBase);
  }

  lemma LocalScanSound(fs: FS, lister: Lister, running: set<Path>, idBase: nat)
    ensures forall a :: a in LocalScan(fs, lister, running, idBase) ==>
      a.name in Scan.Listed(fs, lister, Applications) && Scan.HasAppExtension(a.name) &&
      a.path == Applications + [a.name] &&
      a.status == (if IsLink(fs, a.path) then Linked else Local) &&
      (a.isSystemApp <==> Scan.UnderSystem(a.path)) && (a.isRunning <==> a.path in running)
  {
    var names := Scan.Listed(fs, lister, Applications);
    var entry := LocalRows(fs, running);
    Scan.CollectMembers(entry, idBase, names, |names|);
    SortAppsMembers(Scan.Collect(entry, idBase, names, |names|));
  }

  lemma LocalScanComplete(fs: FS, lister: Lister, running: set<Path>, idBase: nat)
    ensures forall n :: n in Scan.Listed(fs, lister, Applications) && Scan.HasAppExtension(n) ==>
      exists a :: a in LocalScan(fs, lister, running, idBase) && a.path == Applications + [n]
  {
    var names := Scan.Listed(fs, lister, Applications);
    var entry := LocalRows(fs, running);
    var rows := Scan.Collect(entry, idBase, names, |names|);
    SortAppsMembers(rows);
    forall n | n in names && Scan.HasAppExtension(n)
      ensures exists a :: a in LocalScan(fs, lister, running, idBase) && a.path == Applications + [n]
    {
      var i :| 0 <= i < |names| && names[i] == n;
      Scan.CollectHas(entry, idBase, names, |names|, i);
    }
  }

  /** Without a drive the external list is empty; with one, every row is a
    * listed bundle of the drive, `已链接(异常)` exactly when it is a link and
    * `外部` otherwise, never system and never running. */
  lemma ExternalScanRows(fs: FS, lister: Lister, drive: Option<Path>, idBase: nat)
    ensures drive.None? ==> ExternalScan(fs, lister, drive, idBase) == []
    ensures forall a :: a in ExternalScan(fs, lister, drive, idBase) ==>
      drive.Some? && a.name in Scan.Listed(fs, lister, drive.value) && Scan.HasAppExtension(a.name) &&
      a.path == drive.value + [a.name] &&
      a.status == (if IsLink(fs, a.path) then LinkedAbnormal else External) &&
      !a.isSystemApp && !a.isRunning
  {
    if drive.Some? {
      var dir := drive.value;
      var names := Scan.Listed(fs, lister, dir);
      var entry := ExternalRows(fs, dir);
      Scan.CollectMembers(entry, idBase, names, |names|);
      SortAppsMembers(Scan.Collect(entry, idBase, names, |names|));
    }
  }

  // ----- sortApps -----

  function LinkedFirst(a: AppItem): Key
  {
    Key(if a.status == Linked then 0 else 1, a.name)
  }

  function SortApps(apps: seq<AppItem>): seq<AppItem>
  {
    SortBy(apps, LinkedFirst)
  }

  lemma SortAppsMembers(apps: seq<AppItem>)
    ensures forall e :: e in SortApps(apps) <==> e in apps
  {
    SortBySortedPermutation(apps, LinkedFirst);
    forall e ensures e in SortApps(apps) <==> e in apps {
      assert e in SortApps(apps) <==> e in multiset(SortApps(apps));
    }
  }

  /** A permutation with every `已链接` row ahead of every other, each group
    * in ascending name order; `已链接(异常)` ranks with the others. */
  lemma SortAppsSpec(apps: seq<AppItem>)
    ensures multiset(SortApps(apps)) == multiset(apps)
    ensures var r := SortApps(apps);
      forall i, j :: 0 <= i < j < |r| ==>
        (r[j].status == Linked ==> r[i].status == Linked) &&
        ((r[i].status == Linked) == (r[j].status == Linked) ==> !Less(r[j].name, r[i].name))
  {
    SortBySortedPermutation(apps, LinkedFirst);
  }

  // ----- canMoveOut and canLinkIn -----

  /** `first(where: { $0.id == id })`. */
  function FirstWithId(apps: seq<AppItem>, id: nat): (r: Option<AppItem>)
    ensures r.Some? ==> r.value in apps && r.value.id == id
    ensures r.None? <==> forall a :: a in apps ==> a.id != id
    ensures r.Some? ==>
      exists i :: 0 <= i < |apps| && apps[i] == r.value && forall j :: 0 <= j < i ==> apps[j].id != id
  {
    if apps == [] then None
    else if apps[0].id == id then Some(apps[0])
    else FirstWithId(apps[1..], id)
  }

  /** `canMoveOut`: a selected local app that is neither system nor running
    * nor linked, with a drive chosen. */
  function CanMoveOut(selected: Option<nat>, localApps: seq<AppItem>, drive: Option<Path>): bool
  {
    match selected
    case None => false
    case Some(id) =>
      match FirstWithId(localApps, id)
      case None => false
      case Some(app) =>
        if app.isSystemApp || app.isRunning then false
        else drive.Some? && app.status != Linked
  }

  lemma CanMoveOutSpec(selected: Option<nat>, localApps: seq<AppItem>, drive: Option<Path>)
    ensures CanMoveOut(selected, localApps, drive) <==>
      selected.Some? && drive.Some? &&
      exists app :: app in localApps && app.id == selected.value &&
        FirstWithId(localApps, selected.value) == Some(app) &&
        !app.isSystemApp && !app.isRunning && app.status != Linked
  {
  }

  /** `canLinkIn`: something is selected on the external side and no local
    * row with the selected app's name is `本地`. A selection that is not in
    * the external list has no name, which no local row matches. */
  function CanLinkIn(selected: Option<nat>, localApps: seq<AppItem>, externalApps: seq<AppItem>): bool
  {
    selected.Some? &&
    !(exists a :: a in localApps &&
        (var ext := FirstWithId(externalApps, selected.value);
         ext.Some? && a.name == ext.value.name) && a.status == Local)
  }

  lemma CanLinkInSpec(selected: Option<nat>, localApps: seq<AppItem>, externalApps: seq<AppItem>)
    ensures selected.None? ==> !CanLinkIn(selected, localApps, externalApps)
    ensures selected.Some? && (forall e :: e in externalApps ==> e.id != selected.value) ==>
      CanLinkIn(selected, localApps, externalApps)
    ensures forall e, a ::
      (selected.Some? && FirstWithId(externalApps, selected.value) == Some(e) &&
       a in localApps && a.name == e.name && a.status == Local) ==>
        !CanLinkIn(selected, localApps, externalApps)
  {
  }

  // ----- the relocation operations -----

  /** The state after an operation and what it threw, if anything. */
  datatype Change = Change(fs: FS, err: Option<Failure>)

  /** The failures injected into the calls of one operation: the removal of
    * what stands in the way, the move, and the link creation. */
  datatype Faults = Faults(clear: Option<Fault>, transfer: Option<Fault>, link: Option<Fault>)

  /** An `NSError` of the screen's own `AppMover` domain. */
  function MoverError(code: int, description: string): OsError
  {
    OsError("AppMover", code, description)
  }

  const TargetExists: OsError := MoverError(3, "目标已存在真实文件")
  const RealAppExists: OsError := MoverError(1, "本地已存在同名真实应用")
  const LocalFileExists: OsError := MoverError(6, "本地已存在同名文件")

  function Thrown(err: Option<OsError>): Option<Failure>
  {
    if err.Some? then Some(System(err.value)) else None
  }

  /** The check every operation makes before writing at `p`: nothing there
    * (links followed) is fine; a link there is removed; anything else is
    * the `conflict`. */
  function Cleared(fs: FS, p: Path, fault: Option<Fault>, conflict: OsError): Change
  {
    if !Exists(fs, p) then Change(fs, None)
    else if IsLink(fs, p) then
      var e := AfterRemove(fs, p, fault);
      Change(e.fs, Thrown(e.err))
    else Change(fs, Some(Mover(GeneralError(conflict))))
  }

  method ClearSpot(v: Volume, p: Path, fault: Option<Fault>, conflict: OsError)
    returns (err: Option<Failure>)
    modifies v
    ensures Change(v.fs, err) == Cleared(old(v.fs), p, fault, conflict)
  {
    err := None;
    if Exists(v.fs, p) {
      if p in v.fs && v.fs[p].Link? {
        var e := v.RemoveItem(p, fault);
        err := Thrown(e);
      } else {
        err := Some(Mover(GeneralError(conflict)));
      }
    }
  }

  /** The spot is left alone unless a link stood there, which is removed;
    * a real item there is the conflict. */
  lemma ClearedSpec(fs: FS, p: Path, fault: Option<Fault>, conflict: OsError)
    ensures var c := Cleared(fs, p, fault, conflict);
      (c.err.None? <==> !Exists(fs, p) || (IsLink(fs, p) && fault.None?)) &&
      (c.err.None? ==> c.fs == if Exists(fs, p) then RemoveTree(fs, p) else fs) &&
      (Exists(fs, p) && !IsLink(fs, p) ==> c == Change(fs, Some(Mover(GeneralError(conflict)))))
  {
  }

  /** `moveAndLink`: refuse a running app, clear the destination, move the
    * bundle there and leave a link to it at its old place. */
  function MovedAndLinked(fs: FS, app: AppItem, dest: Path, running: set<Path>, f: Faults): Change
  {
    if app.path in running then Change(fs, Some(Mover(AppIsRunning)))
    else
      var c := Cleared(fs, dest, f.clear, TargetExists);
      if c.err.Some? then c
      else
        var m := AfterMove(c.fs, app.path, dest, f.transfer);
        if m.err.Some? then Change(m.fs, Thrown(m.err))
        else
          var l := AfterCreateLink(m.fs, app.path, PathString(dest), f.link);
          Change(l.fs, Thrown(l.err))
  }

  method MoveAndLink(v: Volume, app: AppItem, dest: Path, running: set<Path>, f: Faults)
    returns (err: Option<Failure>)
    modifies v
    ensures Change(v.fs, err) == MovedAndLinked(old(v.fs), app, dest, running, f)
  {
    if app.path in running {
      return Some(Mover(AppIsRunning));
    }
    err := ClearSpot(v, dest, f.clear, TargetExists);
    if err.Some? {
      return;
    }
    var e := v.MoveItem(app.path, dest, f.transfer);
    if e.Some? {
      return Thrown(e);
    }
    e := v.CreateSymbolicLink(app.path, PathString(dest), f.link);
    err := Thrown(e);
  }

  /** A running app and a real item at the destination are refused before
    * anything changes. */
  lemma MoveAndLinkRefuses(fs: FS, app: AppItem, dest: Path, running: set<Path>, f: Faults)
    ensures app.path in running ==>
      MovedAndLinked(fs, app, dest, running, f) == Change(fs, Some(Mover(AppIsRunning)))
    ensures app.path !in running && Exists(fs, dest) && !IsLink(fs, dest) ==>
      MovedAndLinked(fs, app, dest, running, f) == Change(fs, Some(Mover(GeneralError(TargetExists))))
  {
  }

  /** Clearing the spot without an error keeps a state well formed. */
  lemma ClearedWellFormed(fs: FS, p: Path, fault: Option<Fault>, conflict: OsError)
    requires WellFormed(fs) && Cleared(fs, p, fault, conflict).err.None?
    ensures WellFormed(Cleared(fs, p, fault, conflict).fs)
  {
    ClearedSpec(fs, p, fault, conflict);
    if Exists(fs, p) {
      RemoveTreeWellFormed(fs, p);
    }
  }

  /** In a well-formed state, nothing lies below a link. */
  lemma NothingBelowLink(fs: FS, p: Path, k: Path)
    requires WellFormed(fs) && IsLink(fs, p)
    ensures k in fs && p <= k ==> k == p
  {
    if k in fs && p <= k && k != p {
      assert p < k;
      ParentIsDir(fs, p);
      AncestorsAreDirs(fs, k, p);
    }
  }

  /** Clearing the spot changes nothing but the spot itself. */
  lemma ClearedKeeps(fs: FS, p: Path, fault: Option<Fault>, conflict: OsError, k: Path)
    requires WellFormed(fs)
    ensures var c := Cleared(fs, p, fault, conflict);
      c.err.None? && k != p ==> (k in c.fs <==> k in fs) && (k in fs ==> c.fs[k] == fs[k])
  {
    if Exists(fs, p) && IsLink(fs, p) {
      NothingBelowLink(fs, p, k);
    }
  }

  /** What a successful move-out leaves: a link storing the destination path
    * at the bundle's place, the bundle's items at the destination, and
    * everything outside the two as it was. */
  ghost predicate MovedOut(before: FS, after: FS, src: Path, dest: Path)
  {
    src in after && after[src] == Link(PathString(dest)) &&
    (forall r :: r in Subtree(before, src) ==> dest + r in after && after[dest + r] == before[src + r]) &&
    (forall k :: !(src <= k) && !(dest <= k) ==>
       (k in after <==> k in before) && (k in before ==> after[k] == before[k]))
  }

  /** A successful move-out leaves at the bundle's place a link storing the
    * destination path and the bundle's items at the destination; of what
    * was there before, only the bundle and a link at the destination are
    * gone. */
  lemma MoveAndLinkSucceeds(fs: FS, app: AppItem, dest: Path, running: set<Path>, f: Faults)
    requires WellFormed(fs)
    ensures var c := MovedAndLinked(fs, app, dest, running, f);
      c.err.None? ==> app.path !in running && MovedOut(fs, c.fs, app.path, dest)
  {
    var c := Cleared(fs, dest, f.clear, TargetExists);
    if app.path !in running && c.err.None? {
      var m := AfterMove(c.fs, app.path, dest, f.transfer);
      if m.err.None? {
        var l := AfterCreateLink(m.fs, app.path, PathString(dest), f.link);
        MovedAndLinkedSteps(fs, app, dest, running, f);
        if l.err.None? {
          ClearedWellFormed(fs, dest, f.clear, TargetExists);
          MovedOntoFreeSpot(c.fs, app, dest, f.transfer, f.link);
          TransferOk(c.fs, app.path, dest);
          forall k | k != dest ensures (k in c.fs <==> k in fs) && (k in fs ==> c.fs[k] == fs[k]) {
            ClearedKeeps(fs, dest, f.clear, TargetExists, k);
          }
          MovedOutThroughClear(fs, c.fs, l.fs, app.path, dest);
        }
      }
    }
  }

  /** A move-out measured against the state after clearing the destination
    * holds against the state before it too. */
  lemma MovedOutThroughClear(fs: FS, cleared: FS, after: FS, src: Path, dest: Path)
    requires forall k :: k != dest ==> (k in cleared <==> k in fs) && (k in fs ==> cleared[k] == fs[k])
    requires !(src <= dest) && MovedOut(cleared, after, src, dest)
    ensures MovedOut(fs, after, src, dest)
  {
    forall r | r in Subtree(fs, src) ensures dest + r in after && after[dest + r] == fs[src + r] {
      assert src <= src + r;
      assert r in Subtree(cleared, src);
    }
  }

  /** The three calls of a move-out that gets past the running check. */
  lemma MovedAndLinkedSteps(fs: FS, app: AppItem, dest: Path, running: set<Path>, f: Faults)
    requires app.path !in running && Cleared(fs, dest, f.clear, TargetExists).err.None?
    requires AfterMove(Cleared(fs, dest, f.clear, TargetExists).fs, app.path, dest, f.transfer).err.None?
    ensures var m := AfterMove(Cleared(fs, dest, f.clear, TargetExists).fs, app.path, dest, f.transfer);
      var l := AfterCreateLink(m.fs, app.path, PathString(dest), f.link);
      MovedAndLinked(fs, app, dest, running, f) == Change(l.fs, Thrown(l.err))
  {
  }

  /** The move and link on a state where the destination is free, as the
    * first screen does them. */
  lemma MovedOntoFreeSpot(fs: FS, app: AppItem, dest: Path, move: Option<Fault>, link: Option<Fault>)
    requires WellFormed(fs)
    ensures var m := AfterMove(fs, app.path, dest, move);
      m.err.None? && AfterCreateLink(m.fs, app.path, PathString(dest), link).err.None? ==>
        MovedOut(fs, AfterCreateLink(m.fs, app.path, PathString(dest), link).fs, app.path, dest)
  {
    var first := First.AppItem(app.id, app.name, app.path, app.status);
    First.MoveAndLinkSucceeds(fs, first, dest, First.MoveFaults(move, link));
  }

  /** `linkApp`: clear the local spot, then link the external bundle there
    * by a link storing its path. */
  function LinkedIn(fs: FS, app: AppItem, dest: Path, f: Faults): Change
  {
    var c := Cleared(fs, dest, f.clear, RealAppExists);
    if c.err.Some? then c
    else
      var l := AfterCreateLink(c.fs, dest, PathString(app.path), f.link);
      Change(l.fs, Thrown(l.err))
  }

  method LinkApp(v: Volume, app: AppItem, dest: Path, f: Faults) returns (err: Option<Failure>)
    modifies v
    ensures Change(v.fs, err) == LinkedIn(old(v.fs), app, dest, f)
  {
    err := ClearSpot(v, dest, f.clear, RealAppExists);
    if err.Some? {
      return;
    }
    var e := v.CreateSymbolicLink(dest, PathString(app.path), f.link);
    err := Thrown(e);
  }

  /** Linking in replaces only a link: a real item at the spot is refused
    * unchanged, and a success leaves the new link there and everything
    * else as it was. */
  lemma LinkAppReplacesOnlyLinks(fs: FS, app: AppItem, dest: Path, f: Faults)
    requires WellFormed(fs)
    ensures Exists(fs, dest) && !IsLink(fs, dest) ==>
      LinkedIn(fs, app, dest, f) == Change(fs, Some(Mover(GeneralError(RealAppExists))))
    ensures var c := LinkedIn(fs, app, dest, f);
      c.err.None? ==>
        dest in c.fs && c.fs[dest] == Link(PathString(app.path)) &&
        (dest in fs ==> IsLink(fs, dest)) &&
        forall k :: k != dest ==> (k in c.fs <==> k in fs) && (k in fs ==> c.fs[k] == fs[k])
  {
    var c := Cleared(fs, dest, f.clear, RealAppExists);
    if c.err.None? {
      forall k | k != dest ensures (k in c.fs <==> k in fs) && (k in fs ==> c.fs[k] == fs[k]) {
        ClearedKeeps(fs, dest, f.clear, RealAppExists, k);
      }
      if dest in fs && !IsLink(fs, dest) {
        ExistsDirect(fs, dest);
      }
    }
  }

  /** `deleteLink`: remove whatever is at the row's path, unchecked. */
  function DeletedLink(fs: FS, app: AppItem, fault: Option<Fault>): Change
  {
    var e := AfterRemove(fs, app.path, fault);
    Change(e.fs, Thrown(e.err))
  }

  method DeleteLink(v: Volume, app: AppItem, fault: Option<Fault>) returns (err: Option<Failure>)
    modifies v
    ensures Change(v.fs, err) == DeletedLink(old(v.fs), app, fault)
  {
    var e := v.RemoveItem(app.path, fault);
    err := Thrown(e);
  }

  /** Whatever kind of item is at the path, even a real bundle, is removed
    * with everything below it; only a missing item or a failed call is
    * reported. */
  lemma DeleteLinkRemovesAnything(fs: FS, app: AppItem, fault: Option<Fault>)
    ensures var c := DeletedLink(fs, app, fault);
      (c.err.None? <==> app.path in fs && fault.None?) &&
      (c.err.None? ==> forall k :: k in c.fs <==> k in fs && !(app.path <= k))
  {
  }

  /** `moveBack`: clear the local spot, then move the external bundle into
    * it. */
  function MovedBack(fs: FS, app: AppItem, dest: Path, f: Faults): Change
  {
    var c := Cleared(fs, dest, f.clear, LocalFileExists);
    if c.err.Some? then c
    else
      var m := AfterMove(c.fs, app.path, dest, f.transfer);
      Change(m.fs, Thrown(m.err))
  }

  method MoveBack(v: Volume, app: AppItem, dest: Path, f: Faults) returns (err: Option<Failure>)
    modifies v
    ensures Change(v.fs, err) == MovedBack(old(v.fs), app, dest, f)
  {
    err := ClearSpot(v, dest, f.clear, LocalFileExists);
    if err.Some? {
      return;
    }
    var e := v.MoveItem(app.path, dest, f.transfer);
    err := Thrown(e);
  }

  /** Moving back refuses a real item at the local spot unchanged; a success
    * leaves the bundle at the local spot and nothing at its external
    * place. */
  lemma MoveBackSpec(fs: FS, app: AppItem, dest: Path, f: Faults)
    ensures Exists(fs, dest) && !IsLink(fs, dest) ==>
      MovedBack(fs, app, dest, f) == Change(fs, Some(Mover(GeneralError(LocalFileExists))))
    ensures var c := MovedBack(fs, app, dest, f);
      c.err.None? ==> app.path in fs && dest in c.fs && c.fs[dest] == fs[app.path] && app.path !in c.fs
  {
    var c := Cleared(fs, dest, f.clear, LocalFileExists);
    ClearedSpec(fs, dest, f.clear, LocalFileExists);
    if c.err.None? {
      var m := AfterMove(c.fs, app.path, dest, f.transfer);
      if m.err.None? {
        TransferOk(c.fs, app.path, dest);
        var t := Subtree(c.fs, app.path);
        assert app.path + [] == app.path && dest + [] == dest;
        assert [] in t && t[[]] == c.fs[app.path + []];
        var g := Graft(c.fs, dest, t);
        assert dest + [] in g && g[dest + []] == t[[]];
        assert m.fs == RemoveTree(g, app.path);
      }
    }
  }

  /** What a successful move-back leaves: the bundle's items at the local
    * spot, nothing at or below its external place, and everything outside
    * the two as it was. */
  ghost predicate MovedIn(before: FS, after: FS, src: Path, dest: Path)
  {
    (forall r :: r in Subtree(before, src) ==> dest + r in after && after[dest + r] == before[src + r]) &&
    (forall r :: src + r !in after) &&
    (forall k :: !(src <= k) && !(dest <= k) ==>
       (k in after <==> k in before) && (k in before ==> after[k] == before[k]))
  }

  /** A successful move-back puts the whole external bundle at the local
    * spot, frees its external place, and changes nothing else but a link
    * that stood at the local spot. */
  lemma MoveBackSucceeds(fs: FS, app: AppItem, dest: Path, f: Faults)
    requires WellFormed(fs)
    ensures var c := MovedBack(fs, app, dest, f);
      c.err.None? ==> app.path in fs && !(app.path <= dest) && MovedIn(fs, c.fs, app.path, dest)
  {
    var c := Cleared(fs, dest, f.clear, LocalFileExists);
    if c.err.None? {
      var m := AfterMove(c.fs, app.path, dest, f.transfer);
      if m.err.None? {
        ClearedWellFormed(fs, dest, f.clear, LocalFileExists);
        TransferOk(c.fs, app.path, dest);
        First.MovedSpec(c.fs, app.path, dest);
        forall k | k != dest ensures (k in c.fs <==> k in fs) && (k in fs ==> c.fs[k] == fs[k]) {
          ClearedKeeps(fs, dest, f.clear, LocalFileExists, k);
        }
        forall r ensures app.path + r !in m.fs {
          assert app.path <= app.path + r;
        }
        MovedInThroughClear(fs, c.fs, m.fs, app.path, dest);
      }
    }
  }

  /** A move-back measured against the state after clearing the local spot
    * holds against the state before it too. */
  lemma MovedInThroughClear(fs: FS, cleared: FS, after: FS, src: Path, dest: Path)
    requires forall k :: k != dest ==> (k in cleared <==> k in fs) && (k in fs ==> cleared[k] == fs[k])
    requires !(src <= dest) && MovedIn(cleared, after, src, dest)
    ensures MovedIn(fs, after, src, dest)
  {
    forall r | r in Subtree(fs, src) ensures dest + r in after && after[dest + r] == fs[src + r] {
      assert src <= src + r;
      assert r in Subtree(cleared, src);
    }
  }
}
