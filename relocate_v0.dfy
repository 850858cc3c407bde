/**
 * The first relocation screen (`AppPort/ContentView.swift`): it lists the
 * bundles of a directory, moves a bundle to the external drive and leaves a
 * symbolic link to it at the old place, and links an external bundle into
 * the applications folder. `FileManager` errors are wrapped as
 * `permissionDenied` when they are the write-permission error and as
 * `generalError` otherwise.
 */
module RelocationFirst {
  import opened Outcomes
  import opened FileSystem
  import opened Ordering
  import Scan = AppScanner

  /** This screen's own list row. `id` stands for the fresh `UUID()`. */
  datatype AppItem = AppItem(id: nat, name: string, path: Path, status: string)

  datatype AppMoverError = PermissionDenied(inner: OsError) | GeneralError(inner: OsError)

  const Local: string := "本地"
  const External: string := "外部"
  const Linked: string := "已链接"

  /** The title and message of the alert the screen raises. */
  datatype Alert = Alert(title: string, message: string)

  const ScanFailedTitle: string := "扫描失败"
  const NoReadPermissionMessage: string :=
    "无法读取 /Applications 目录。" + "\n\n请前往 '系统设置 > 隐私与安全性 > 完全磁盘访问'，将本应用添加进去并重启。"
  const LinkConflictMessage: string := "本地 /Applications 文件夹已存在同名文件，请先移除。"

  // ----- scanApps -----

  /** The alert for an error caught while scanning: the read-permission
    * error gets its own message, any other shows its description. */
  function ScanAlert(e: OsError): Alert
  {
    Alert(ScanFailedTitle,
      if e.domain == CocoaDomain && e.code == ReadNoPermissionCode then NoReadPermissionMessage
      else e.description)
  }

  /** One listed name: nothing for a name without the `.app` extension; the
    * error `resourceValues` throws when the item has gone; otherwise a row,
    * `已链接` for a link and `baseStatus` for anything else. */
  function Row(fs: FS, dir: Path, baseStatus: string, id: nat, name: string)
    : Result<Option<AppItem>, OsError>
  {
    var item := dir + [name];
    if !Scan.HasAppExtension(name) then Ok(None)
    else if item !in fs then Err(CocoaError(ReadNoSuchFileCode))
    else Ok(Some(AppItem(id, name, item, if fs[item].Link? then Linked else baseStatus)))
  }

  /** The rows found for the first `n` names, and the error that stopped the
    * loop, if any; the `i`-th name gets id `idBase + i`. */
  datatype Found = Found(apps: seq<AppItem>, err: Option<OsError>)

  function Gather(fs: FS, dir: Path, baseStatus: string, idBase: nat, names: seq<string>, n: nat)
    : Found
    requires n <= |names|
  {
    if n == 0 then Found([], None)
    else
      var g := Gather(fs, dir, baseStatus, idBase, names, n - 1);
      if g.err.Some? then g
      else match Row(fs, dir, baseStatus, idBase + n - 1, names[n - 1])
        case Err(e) => Found(g.apps, Some(e))
        case Ok(row) => Found(g.apps + (if row.Some? then [row.value] else []), None)
  }

  function ByName(a: AppItem): Key
  {
    Key(0, a.name)
  }

  /** The result of `scanApps` and the alert it raised, if any. */
  datatype ScanOutcome = ScanOutcome(apps: seq<AppItem>, alert: Option<Alert>)

  function Scanned(fs: FS, lister: Lister, dir: Path, baseStatus: string, idBase: nat): ScanOutcome
  {
    match List(fs, lister, dir)
    case Err(e) => ScanOutcome([], Some(ScanAlert(e)))
    case Ok(names) =>
        var items := Visible(names);
        var g := Gather(fs, dir, baseStatus, idBase, items, |items|);
        ScanOutcome(SortBy(g.apps, ByName), if g.err.Some? then Some(ScanAlert(g.err.value)) else None)
    }

    method ScanApps(fs: FS, lister: Lister, dir: Path, baseStatus: string, idBase: nat)
    returns (apps: seq<AppItem>, alert: Option<Alert>)
    ensures ScanOutcome(apps, alert) == Scanned(fs, lister, dir, baseStatus, idBase)
  {
    var foundApps: seq<AppItem> := [];
    alert := None;
    match List(fs, lister, dir) {
      case Err(e) =>
        alert := Some(ScanAlert(e));
      case Ok(names) =>
        var found := ScanItems(fs, dir, baseStatus, idBase, Visible(names));
        foundApps := found.apps;
        if found.err.Some? {
          alert := Some(ScanAlert(found.err.value));
        }
    }
    apps := SortBy(foundApps, ByName);
  }

  /** The loop over the listed names, up to the first error. */
  method ScanItems(fs: FS, dir: Path, baseStatus: string, idBase: nat, items: seq<string>)
    returns (found: Found)
    ensures found == Gather(fs, dir, baseStatus, idBase, items, |items|)
  {
    var foundApps: seq<AppItem> := [];
    var i := 0;
    while i < |items|
      invariant 0 <= i <= |items|
      invariant Gather(fs, dir, baseStatus, idBase, items, i) == Found(foundApps, None)
    {
      var row := ItemRow(fs, dir, baseStatus, idBase + i, items[i]);
      GatherNext(fs, dir, baseStatus, idBase, items, i, foundApps, row);
      if row.Err? {
        GatherStops(fs, dir, baseStatus, idBase, items, i + 1, |items|);
        return Found(foundApps, Some(row.error));
      }
      if row.value.Some? {
        foundApps := foundApps + [row.value.value];
      }
      i := i + 1;
    }
    found := Found(foundApps, None);
  }

  /** The body of the scanning loop for one listed name. */
  method ItemRow(fs: FS, dir: Path, baseStatus: string, id: nat, name: string)
    returns (row: Result<Option<AppItem>, OsError>)
    ensures row == Row(fs, dir, baseStatus, id, name)
  {
    row := Ok(None);
    var itemUrl := dir + [name];
    if Scan.HasAppExtension(name) {
      if itemUrl !in fs {
        return Err(CocoaError(ReadNoSuchFileCode));
      }
      var appStatus := baseStatus;
      if fs[itemUrl].Link? {
        appStatus := Linked;
      }
      row := Ok(Some(AppItem(id, name, itemUrl, appStatus)));
    }
  }

  /** One step of the scanning loop before any error. */
  lemma GatherNext(fs: FS, dir: Path, baseStatus: string, idBase: nat, names: seq<string>, i: nat,
                   apps: seq<AppItem>, row: Result<Option<AppItem>, OsError>)
    requires i < |names| && Gather(fs, dir, baseStatus, idBase, names, i) == Found(apps, None)
    requires row == Row(fs, dir, baseStatus, idBase + i, names[i])
    ensures Gather(fs, dir, baseStatus, idBase, names, i + 1) ==
      match row
      case Err(e) => Found(apps, Some(e))
      case Ok(r) => Found(apps + (if r.Some? then [r.value] else []), None)
  {
  }

  /** Once the loop has stopped on an error, later names change nothing. */
  lemma {:induction false} GatherStops(fs: FS, dir: Path, baseStatus: string, idBase: nat,
                                       names: seq<string>, n: nat, m: nat)
    requires n <= m <= |names|
    requires Gather(fs, dir, baseStatus, idBase, names, n).err.Some?
    ensures Gather(fs, dir, baseStatus, idBase, names, m) == Gather(fs, dir, baseStatus, idBase, names, n)
    decreases m
  {
    if m > n {
      GatherStops(fs, dir, baseStatus, idBase, names, n, m - 1);
    }
  }

  /** The rows gathered are listed bundles in listing order, each at its
    * place in `dir`, `已链接` exactly when it is a link and `baseStatus`
    * otherwise; the loop stops only on a bundle that has gone. */
  lemma GatherRows(fs: FS, dir: Path, baseStatus: string, idBase: nat,
                   names: seq<string>, n: nat)
    requires n <= |names|
    ensures var g := Gather(fs, dir, baseStatus, idBase, names, n);
      forall a :: a in g.apps ==>
        a.name in names && Scan.HasAppExtension(a.name) && a.path == dir + [a.name] && a.path in fs &&
        a.status == (if IsLink(fs, a.path) then Linked else baseStatus)
    ensures var g := Gather(fs, dir, baseStatus, idBase, names, n);
      g.err.Some? <==>
        exists i :: 0 <= i < n && Scan.HasAppExtension(names[i]) && dir + [names[i]] !in fs
    ensures var g := Gather(fs, dir, baseStatus, idBase, names, n);
      g.err.None? ==> forall i :: 0 <= i < n && Scan.HasAppExtension(names[i]) ==>
        AppItem(idBase + i, names[i], dir + [names[i]],
                if IsLink(fs, dir + [names[i]]) then Linked else baseStatus) in g.apps
  {
    GatherSound(fs, dir, baseStatus, idBase, names, n);
    GatherStopsOnGone(fs, dir, baseStatus, idBase, names, n);
    GatherComplete(fs, dir, baseStatus, idBase, names, n);
  }

  lemma {:induction false} GatherSound(fs: FS, dir: Path, baseStatus: string, idBase: nat,
                                       names: seq<string>, n: nat)
    requires n <= |names|
    ensures var g := Gather(fs, dir, baseStatus, idBase, names, n);
      forall a :: a in g.apps ==>
        a.name in names && Scan.HasAppExtension(a.name) && a.path == dir + [a.name] && a.path in fs &&
        a.status == (if IsLink(fs, a.path) then Linked else baseStatus)
    decreases n
  {
    if n > 0 {
      GatherSound(fs, dir, baseStatus, idBase, names, n - 1);
    }
  }

  lemma {:induction false} GatherStopsOnGone(fs: FS, dir: Path, baseStatus: string, idBase: nat,
                                             names: seq<string>, n: nat)
    requires n <= |names|
    ensures var g := Gather(fs, dir, baseStatus, idBase, names, n);
      g.err.Some? <==>
        exists i :: 0 <= i < n && Scan.HasAppExtension(names[i]) && dir + [names[i]] !in fs
    decreases n
  {
    if n > 0 {
      GatherStopsOnGone(fs, dir, baseStatus, idBase, names, n - 1);
    }
  }

  lemma {:induction false} GatherComplete(fs: FS, dir: Path, baseStatus: string, idBase: nat,
                                          names: seq<string>, n: nat)
    requires n <= |names|
    ensures var g := Gather(fs, dir, baseStatus, idBase, names, n);
      g.err.None? ==> forall i :: 0 <= i < n && Scan.HasAppExtension(names[i]) ==>
        AppItem(idBase + i, names[i], dir + [names[i]],
                if IsLink(fs, dir + [names[i]]) then Linked else baseStatus) in g.apps
    decreases n
  {
    if n > 0 {
      GatherComplete(fs, dir, baseStatus, idBase, names, n - 1);
    }
  }

  /** Every row of a scan is a listed bundle of `dir`, `已链接` exactly when
    * it is a link and `baseStatus` otherwise, and the rows are in ascending
    * name order; an alert is raised exactly when the listing fails or a
    * listed bundle has gone. */
  lemma ScannedRows(fs: FS, lister: Lister, dir: Path, baseStatus: string, idBase: nat)
    ensures var s := Scanned(fs, lister, dir, baseStatus, idBase);
      forall a :: a in s.apps ==>
        Scan.HasAppExtension(a.name) && a.path == dir + [a.name] && a.path in fs &&
        a.status == (if IsLink(fs, a.path) then Linked else baseStatus)
    ensures var s := Scanned(fs, lister, dir, baseStatus, idBase);
      forall i, j :: 0 <= i < j < |s.apps| ==> !Less(s.apps[j].name, s.apps[i].name)
    ensures var s := Scanned(fs, lister, dir, baseStatus, idBase);
      s.alert.None? <==>
        (match List(fs, lister, dir)
         case Err(_) => false
         case Ok(names) => forall n :: n in Visible(names) && Scan.HasAppExtension(n) ==> dir + [n] in fs)
  {
    match List(fs, lister, dir)
    case Err(_) =>
    case Ok(names) =>
      var items := Visible(names);
      var g := Gather(fs, dir, baseStatus, idBase, items, |items|);
      GatherRows(fs, dir, baseStatus, idBase, items, |items|);
      SortBySortedPermutation(g.apps, ByName);
      forall a | a in SortBy(g.apps, ByName) ensures a in g.apps {
        assert a in multiset(SortBy(g.apps, ByName));
      }
      if g.err.Some? {
        var i :| 0 <= i < |items| && Scan.HasAppExtension(items[i]) && dir + [items[i]] !in fs;
        assert items[i] in items;
      }
  }

  /** A bundle that every listing contains gets its row when no alert is
    * raised. */
  lemma ScannedComplete(fs: FS, lister: Lister, dir: Path, baseStatus: string, idBase: nat,
                        names: seq<string>, i: nat)
    requires List(fs, lister, dir) == Ok(names)
    requires i < |Visible(names)| && Scan.HasAppExtension(Visible(names)[i])
    requires Scanned(fs, lister, dir, baseStatus, idBase).alert.None?
    ensures var n := Visible(names)[i];
      AppItem(idBase + i, n, dir + [n], if IsLink(fs, dir + [n]) then Linked else baseStatus)
        in Scanned(fs, lister, dir, baseStatus, idBase).apps
  {
    var items := Visible(names);
    var g := Gather(fs, dir, baseStatus, idBase, items, |items|);
    GatherRows(fs, dir, baseStatus, idBase, items, |items|);
    SortBySortedPermutation(g.apps, ByName);
    var n := items[i];
    var a := AppItem(idBase + i, n, dir + [n], if IsLink(fs, dir + [n]) then Linked else baseStatus);
    assert a in multiset(g.apps);
  }

  /** An unreadable directory yields no rows; the alert names the missing
    * permission for the read-permission error and shows the description of
    * any other. */
  lemma ScannedUnreadable(fs: FS, lister: Lister, dir: Path, baseStatus: string, idBase: nat)
    requires List(fs, lister, dir).Err?
    ensures var s := Scanned(fs, lister, dir, baseStatus, idBase);
      s.apps == [] && s.alert.Some? && s.alert.value.title == ScanFailedTitle &&
      (dir in lister.denied ==> s.alert.value.message == NoReadPermissionMessage) &&
      (dir !in lister.denied ==> s.alert.value.message == CocoaError(ReadNoSuchFileCode).description)
  {
  }

  const Applications: Path := ["Applications"]

  /** `scanLocalApps`: the applications folder, every other bundle local. */
  function LocalScan(fs: FS, lister: Lister, idBase: nat): ScanOutcome
  {
    Scanned(fs, lister, Applications, Local, idBase)
  }

  /** `scanExternalApps`: the chosen drive, if any, every other bundle external. */
  function ExternalScan(fs: FS, lister: Lister, drive: Option<Path>, idBase: nat): ScanOutcome
  {
    match drive
    case None => ScanOutcome([], None)
    case Some(dir) => Scanned(fs, lister, dir, External, idBase)
  }

  /** Without a drive the external list is empty; with one, each row is
    * `已链接` for a link on the drive and `外部` otherwise. */
  lemma ExternalScanRows(fs: FS, lister: Lister, drive: Option<Path>, idBase: nat)
    ensures drive.None? ==> ExternalScan(fs, lister, drive, idBase) == ScanOutcome([], None)
    ensures forall a :: a in ExternalScan(fs, lister, drive, idBase).apps ==>
      drive.Some? && a.path == drive.value + [a.name] &&
      (a.status == Linked <==> IsLink(fs, a.path)) && (a.status == External <==> !IsLink(fs, a.path))
  {
    if drive.Some? {
      ScannedRows(fs, lister, drive.value, External, idBase);
    }
  }

  // ----- moveAndLink and linkApp -----

  /** The error a failed `FileManager` call is rethrown as. */
  function Wrap(e: OsError): AppMoverError
  {
    if e.domain == CocoaDomain && e.code == WriteNoPermissionCode then PermissionDenied(e)
    else GeneralError(e)
  }

  /** The state after an operation and the error it threw, if any. */
  datatype Change = Change(fs: FS, err: Option<AppMoverError>)

  /** The failures injected into the calls of `moveAndLink`. */
  datatype MoveFaults = MoveFaults(move: Option<Fault>, link: Option<Fault>)

  /** `moveAndLink`: move the bundle, then leave a link to it at its old
    * place. A failed link does not undo the move. */
  function MovedAndLinked(fs: FS, app: AppItem, dest: Path, f: MoveFaults): Change
  {
    var moved := AfterMove(fs, app.path, dest, f.move);
    if moved.err.Some? then Change(moved.fs, Some(Wrap(moved.err.value)))
    else
      var linked := AfterCreateLink(moved.fs, app.path, PathString(dest), f.link);
      Change(linked.fs, if linked.err.Some? then Some(Wrap(linked.err.value)) else None)
  }

  method MoveAndLink(v: Volume, app: AppItem, dest: Path, f: MoveFaults)
    returns (err: Option<AppMoverError>)
    modifies v
    ensures Change(v.fs, err) == MovedAndLinked(old(v.fs), app, dest, f)
  {
    var e := v.MoveItem(app.path, dest, f.move);
    if e.Some? {
      return Some(Wrap(e.value));
    }
    e := v.CreateSymbolicLink(app.path, PathString(dest), f.link);
    err := if e.Some? then Some(Wrap(e.value)) else None;
  }

  /** The permission error is reported as `permissionDenied`, every other
    * error as `generalError` carrying it unchanged. */
  lemma WrapKeepsError(e: OsError)
    ensures Wrap(e).inner == e
    ensures Wrap(e).PermissionDenied? <==> e.domain == CocoaDomain && e.code == WriteNoPermissionCode
  {
  }

  /** A successful move-out leaves at the bundle's place a link storing the
    * destination path, the bundle's items at the destination, and every
    * other item as it was. In a well-formed state it succeeds exactly when
    * the move's own checks pass and no call fails. */
  lemma MoveAndLinkSucceeds(fs: FS, app: AppItem, dest: Path, f: MoveFaults)
    requires WellFormed(fs)
    ensures var c := MovedAndLinked(fs, app, dest, f);
      c.err.None? <==> TransferError(fs, app.path, dest).None? && f.move.None? && f.link.None?
    ensures var c := MovedAndLinked(fs, app, dest, f);
      c.err.None? ==>
        app.path in c.fs && c.fs[app.path] == Link(PathString(dest)) &&
        (forall r :: r in Subtree(fs, app.path) ==> dest + r in c.fs && c.fs[dest + r] == fs[app.path + r]) &&
        (forall k :: !(app.path <= k) && !(dest <= k) ==>
           (k in c.fs <==> k in fs) && (k in fs ==> c.fs[k] == fs[k]))
  {
    var src := app.path;
    if TransferError(fs, src, dest).None? && f.move.None? {
      MovedSpec(fs, src, dest);
      assert AfterMove(fs, src, dest, f.move).fs == RemoveTree(Graft(fs, dest, Subtree(fs, src)), src);
    }
  }

  /** A move that raises nothing on a well-formed state: the item's place is
    * free below a directory, every item of it sits at the same place below
    * the destination, and everything outside the two is as it was. */
  lemma MovedSpec(fs: FS, src: Path, dest: Path)
    requires WellFormed(fs) && TransferError(fs, src, dest).None?
    ensures var m := RemoveTree(Graft(fs, dest, Subtree(fs, src)), src);
      src != [] && src !in m && IsDir(m, Parent(src)) &&
      (forall r :: r in Subtree(fs, src) ==>
         !(src <= dest + r) && dest + r in m && m[dest + r] == fs[src + r]) &&
      (forall k :: !(src <= k) && !(dest <= k) ==> (k in m <==> k in fs) && (k in fs ==> m[k] == fs[k]))
  {
    var m := RemoveTree(Graft(fs, dest, Subtree(fs, src)), src);
    TransferOk(fs, src, dest);
    ParentIsDir(fs, src);
    var up := Parent(src);
    assert IsDir(m, up) by {
      if up != [] {
        assert up < src;
        AncestorsAreDirs(fs, src, up);
        DestNotAbove(fs, src, dest, up);
      }
    }
    forall r | r in Subtree(fs, src) ensures !(src <= dest + r) && dest + r in m && m[dest + r] == fs[src + r] {
      DestNotBelowSource(fs, src, dest, r);
    }
  }

  /** In a well-formed state, a path that is free for the move is no
    * ancestor of an existing directory. */
  lemma DestNotAbove(fs: FS, src: Path, dest: Path, up: Path)
    requires WellFormed(fs) && TransferError(fs, src, dest).None?
    requires up != [] && up in fs
    ensures !(dest <= up)
  {
    if dest <= up {
      if dest == up {
      } else {
        AncestorsAreDirs(fs, up, dest);
      }
    }
  }

  /** A copied item lies outside the source. */
  lemma DestNotBelowSource(fs: FS, src: Path, dest: Path, r: Path)
    requires WellFormed(fs) && TransferError(fs, src, dest).None?
    ensures !(src <= dest + r)
  {
    if src <= dest + r && |src| > |dest| {
      assert dest < src by { assert src[..|dest|] == (dest + r)[..|dest|] == dest; }
      AncestorsAreDirs(fs, src, dest);
    }
  }

  /** When the link cannot be made after the move, the move stays: the
    * bundle is at the destination and nothing is at its old place. */
  lemma FailedLinkKeepsMove(fs: FS, app: AppItem, dest: Path, f: MoveFaults)
    requires AfterMove(fs, app.path, dest, f.move).err.None? && f.link.Some?
    ensures var c := MovedAndLinked(fs, app, dest, f);
      c.err.Some? && app.path !in c.fs && dest in c.fs && c.fs[dest] == fs[app.path]
  {
    var src := app.path;
    var grafted := Graft(fs, dest, Subtree(fs, src));
    var moved := RemoveTree(grafted, src);
    assert AfterMove(fs, src, dest, f.move).fs == moved;
    TransferOk(fs, src, dest);
    var t := Subtree(fs, src);
    assert src + [] == src && dest + [] == dest;
    assert [] in t && t[[]] == fs[src + []];
    assert dest + [] in grafted && grafted[dest + []] == t[[]];
    var linked := AfterCreateLink(moved, src, PathString(dest), f.link);
    assert linked.err.Some? && linked.fs == moved;
  }

  /** `linkApp`: refuses when something exists at the destination (links
    * followed), otherwise creates a link storing the bundle's path. */
  function LinkedIn(fs: FS, app: AppItem, dest: Path, fault: Option<Fault>): Change
  {
    if Exists(fs, dest) then Change(fs, Some(GeneralError(OsError("", 0, LinkConflictMessage))))
    else
      var e := AfterCreateLink(fs, dest, PathString(app.path), fault);
      Change(e.fs, if e.err.Some? then Some(Wrap(e.err.value)) else None)
  }

  method LinkApp(v: Volume, app: AppItem, dest: Path, fault: Option<Fault>)
    returns (err: Option<AppMoverError>)
    modifies v
    ensures Change(v.fs, err) == LinkedIn(old(v.fs), app, dest, fault)
  {
    if Exists(v.fs, dest) {
      return Some(GeneralError(OsError("", 0, LinkConflictMessage)));
    }
    var e := v.CreateSymbolicLink(dest, PathString(app.path), fault);
    err := if e.Some? then Some(Wrap(e.value)) else None;
  }

  /** Linking in never replaces anything: it changes the state only by adding
    * the link at a free place. A link at the destination whose target is
    * gone does not count as existing, so it is reported as the
    * file-exists error of the failed creation rather than as the conflict. */
  lemma LinkAppNeverReplaces(fs: FS, app: AppItem, dest: Path, fault: Option<Fault>)
    ensures var c := LinkedIn(fs, app, dest, fault);
      c.err.None? <==> !Exists(fs, dest) && dest != [] && dest !in fs && IsDir(fs, Parent(dest)) && fault.None?
    ensures var c := LinkedIn(fs, app, dest, fault);
      (c.err.None? ==> c.fs == fs[dest := Link(PathString(app.path))]) && (c.err.Some? ==> c.fs == fs)
    ensures var c := LinkedIn(fs, app, dest, fault);
      Exists(fs, dest) ==> c.err == Some(GeneralError(OsError("", 0, LinkConflictMessage)))
    ensures var c := LinkedIn(fs, app, dest, fault);
      dest in fs && !Exists(fs, dest) ==> c.err == Some(GeneralError(CocoaError(WriteFileExistsCode)))
  {
  }
}
