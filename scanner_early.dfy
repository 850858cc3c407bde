/**
 * The earlier application scanner (`AppPorts/AppScanner.swift`): bundles
 * only, no folders, no App Store detection, a `Contents` link as the only
 * deep link, and an external bundle counted as linked whenever a local link
 * of its name exists, wherever that link points.
 */
module AppScannerEarly {
  import opened Outcomes
  import opened Text
  import opened FileSystem
  import opened Ordering
  import opened AppModelsEarly
  import Scan = AppScanner

  const Local: string := "本地"
  const Linked: string := "已链接"
  const Unlinked: string := "未链接"

  // ----- calculateDirectorySize -----

  /** A link reports its own size; anything else the sizes of the items the
    * enumerator visits with hidden files skipped. */
  function DirectorySize(fs: FS, lister: Lister, root: Path): nat
  {
    if IsLink(fs, root) then
      (if Scan.FileSize(fs, root).Some? then Scan.FileSize(fs, root).value else 0)
    else Scan.SumSizes(fs, Enumerate(fs, lister, root, true))
  }

  method CalculateDirectorySize(fs: FS, lister: Lister, root: Path) returns (size: int)
    ensures size == DirectorySize(fs, lister, root)
    ensures IsLink(fs, root) ==> size == Utf8Length(fs[root].target)
  {
    if root in fs && fs[root].Link? {
      var fileSize := Scan.FileSize(fs, root);
      return if fileSize.Some? then fileSize.value else 0;
    }
    var items := Enumerate(fs, lister, root, true);
    size := 0;
    for i := 0 to |items|
      invariant size == Scan.SumSizes(fs, items[..i])
    {
      assert items[..i + 1][..i] == items[..i];
      var fileSize := Scan.FileSize(fs, items[i]);
      if fileSize.Some? {
        size := size + fileSize.value;
      }
    }
    assert items[..|items|] == items;
  }

  // ----- scanLocalApps -----

  function LocalStatus(fs: FS, app: Path): (status: string)
    ensures status == Linked <==> IsLink(fs, app) || (IsDir(fs, app) && IsLink(fs, app + ["Contents"]))
    ensures status == Linked || status == Local
  {
    if IsLink(fs, app) || (IsDir(fs, app) && IsLink(fs, app + ["Contents"])) then Linked else Local
  }

  function LocalEntry(fs: FS, dir: Path, running: set<Path>, id: nat, name: string): Option<AppItem>
  {
    var item := dir + [name];
    if Scan.HasAppExtension(name) then
      Some(AppItem(id, name, item, LocalStatus(fs, item), Scan.UnderSystem(item), item in running, None, 0))
    else None
  }

  function LocalRows(fs: FS, dir: Path, running: set<Path>): (nat, string) -> Option<AppItem>
  {
    (id: nat, name: string) => LocalEntry(fs, dir, running, id, name)
  }

  /** One step of the local scanning loop. */
  lemma LocalStep(fs: FS, dir: Path, running: set<Path>, idBase: nat,
                  items: seq<string>, i: nat, row: Option<AppItem>)
    requires i < |items| && row == LocalEntry(fs, dir, running, idBase + i, items[i])
    ensures Scan.Collect(LocalRows(fs, dir, running), idBase, items, i + 1) ==
            Scan.Collect(LocalRows(fs, dir, running), idBase, items, i) +
            (if row.Some? then [row.value] else [])
  {
    Scan.CollectNext(LocalRows(fs, dir, running), idBase, items, i, row);
  }

  function ScanLocal(fs: FS, lister: Lister, dir: Path, running: set<Path>, idBase: nat): seq<AppItem>
  {
    var names := Scan.Listed(fs, lister, dir);
    SortApps(Scan.Collect(LocalRows(fs, dir, running), idBase, names, |names|))
  }

  /** The body of the scanning loop for one listed name. */
  method LocalRow(fs: FS, dir: Path, running: set<Path>, id: nat, name: string)
    returns (row: Option<AppItem>)
    ensures row == LocalEntry(fs, dir, running, id, name)
  {
    var item := dir + [name];
    row := None;
    if Scan.HasAppExtension(name) {
      var status := Local;
      var isSystem := "/System" <= PathString(item);
      var isRunning := item in running;
      if item in fs {
        if fs[item].Link? {
          status := Linked;
        } else if fs[item].Dir? {
          if IsLink(fs, item + ["Contents"]) {
            status := Linked;
          }
        }
      }
      row := Some(AppItem(id, name, item, status, isSystem, isRunning, None, 0));
    }
  }

  method ScanLocalApps(fs: FS, lister: Lister, dir: Path, running: set<Path>, idBase: nat)
    returns (apps: seq<AppItem>)
    ensures apps == ScanLocal(fs, lister, dir, running, idBase)
  {
    var items := Scan.Listed(fs, lister, dir);
    var newApps: seq<AppItem> := [];
    for i := 0 to |items|
      invariant newApps == Scan.Collect(LocalRows(fs, dir, running), idBase, items, i)
    {
      var row := LocalRow(fs, dir, running, idBase + i, items[i]);
      LocalStep(fs, dir, running, idBase, items, i, row);
      if row.Some? {
        newApps := newApps + [row.value];
      }
    }
    apps := SortApps(newApps);
  }

  /** Every local row is a listed bundle, linked exactly when it or its
    * `Contents` is a link, system exactly under `/System`, running exactly
    * when among the running apps. */
  lemma ScanLocalRows(fs: FS, lister: Lister, dir: Path, running: set<Path>, idBase: nat)
    ensures forall e :: e in ScanLocal(fs, lister, dir, running, idBase) ==>
      e.name in Scan.Listed(fs, lister, dir) && Scan.HasAppExtension(e.name) &&
      e.path == dir + [e.name] &&
      (e.status == Linked <==> IsLink(fs, e.path) || (IsDir(fs, e.path) && IsLink(fs, e.path + ["Contents"]))) &&
      (e.isSystemApp <==> Scan.UnderSystem(e.path)) && (e.isRunning <==> e.path in running)
  {
    var names := Scan.Listed(fs, lister, dir);
    var entry := LocalRows(fs, dir, running);
    var rows := Scan.Collect(entry, idBase, names, |names|);
    Scan.CollectMembers(entry, idBase, names, |names|);
    SortAppsMembers(rows);
  }

  /** Every listed bundle gets a row. */
  lemma ScanLocalComplete(fs: FS, lister: Lister, dir: Path, running: set<Path>, idBase: nat)
    ensures forall n :: n in Scan.Listed(fs, lister, dir) && Scan.HasAppExtension(n) ==>
      exists e :: e in ScanLocal(fs, lister, dir, running, idBase) && e.path == dir + [n]
  {
    var names := Scan.Listed(fs, lister, dir);
    var entry := LocalRows(fs, dir, running);
    SortAppsMembers(Scan.Collect(entry, idBase, names, |names|));
    forall n | n in names && Scan.HasAppExtension(n)
      ensures exists e :: e in ScanLocal(fs, lister, dir, running, idBase) && e.path == dir + [n]
    {
      var i :| 0 <= i < |names| && names[i] == n;
      Scan.CollectHas(entry, idBase, names, |names|, i);
    }
  }

  // ----- scanExternalApps -----

  /** A local item of the same name exists (links followed) and is itself a
    * link or a directory whose `Contents` is a link. Where the link points
    * is not checked. */
  function ExternalStatus(fs: FS, localDir: Path, name: string): (status: string)
    ensures status == Linked <==>
      Exists(fs, localDir + [name]) &&
      (IsLink(fs, localDir + [name]) ||
       (IsDir(fs, localDir + [name]) && IsLink(fs, localDir + [name, "Contents"])))
  {
    var local := localDir + [name];
    assert local + ["Contents"] == localDir + [name, "Contents"];
    if Exists(fs, local) && (IsLink(fs, local) || (IsDir(fs, local) && IsLink(fs, local + ["Contents"])))
    then Linked else Unlinked
  }

  function ExternalEntry(fs: FS, dir: Path, localDir: Path, id: nat, name: string): Option<AppItem>
  {
    if Scan.HasAppExtension(name) then
      Some(AppItem(id, name, dir + [name], ExternalStatus(fs, localDir, name), false, false, None, 0))
    else None
  }

  function ExternalRows(fs: FS, dir: Path, localDir: Path): (nat, string) -> Option<AppItem>
  {
    (id: nat, name: string) => ExternalEntry(fs, dir, localDir, id, name)
  }

  /** One step of the external scanning loop. */
  lemma ExternalStep(fs: FS, dir: Path, localDir: Path, idBase: nat,
                     items: seq<string>, i: nat, row: Option<AppItem>)
    requires i < |items| && row == ExternalEntry(fs, dir, localDir, idBase + i, items[i])
    ensures Scan.Collect(ExternalRows(fs, dir, localDir), idBase, items, i + 1) ==
            Scan.Collect(ExternalRows(fs, dir, localDir), idBase, items, i) +
            (if row.Some? then [row.value] else [])
  {
    Scan.CollectNext(ExternalRows(fs, dir, localDir), idBase, items, i, row);
  }

  function ScanExternal(fs: FS, lister: Lister, dir: Path, localDir: Path, idBase: nat): seq<AppItem>
  {
    var names := Scan.Listed(fs, lister, dir);
    SortApps(Scan.Collect(ExternalRows(fs, dir, localDir), idBase, names, |names|))
  }

  /** The body of the scanning loop for one listed name. */
  method ExternalRow(fs: FS, dir: Path, localDir: Path, id: nat, name: string)
    returns (row: Option<AppItem>)
    ensures row == ExternalEntry(fs, dir, localDir, id, name)
  {
    row := None;
    if Scan.HasAppExtension(name) {
      var status := Unlinked;
      var local := localDir + [name];
      if Exists(fs, local) {
        if IsLink(fs, local) {
          status := Linked;
        } else if IsDir(fs, local) {
          if IsLink(fs, local + ["Contents"]) {
            status := Linked;
          }
        }
      }
      row := Some(AppItem(id, name, dir + [name], status, false, false, None, 0));
    }
  }

  method ScanExternalApps(fs: FS, lister: Lister, dir: Path, localDir: Path, idBase: nat)
    returns (apps: seq<AppItem>)
    ensures apps == ScanExternal(fs, lister, dir, localDir, idBase)
  {
    var items := Scan.Listed(fs, lister, dir);
    var newApps: seq<AppItem> := [];
    for i := 0 to |items|
      invariant newApps == Scan.Collect(ExternalRows(fs, dir, localDir), idBase, items, i)
    {
      var row := ExternalRow(fs, dir, localDir, idBase + i, items[i]);
      ExternalStep(fs, dir, localDir, idBase, items, i, row);
      if row.Some? {
        newApps := newApps + [row.value];
      }
    }
    apps := SortApps(newApps);
  }

  /** Every external row is a listed bundle, never system or running, and
    * linked exactly when the local item of its name exists and is a link or
    * has a `Contents` link. */
  lemma ScanExternalRows(fs: FS, lister: Lister, dir: Path, localDir: Path, idBase: nat)
    ensures forall e :: e in ScanExternal(fs, lister, dir, localDir, idBase) ==>
      e.name in Scan.Listed(fs, lister, dir) && Scan.HasAppExtension(e.name) &&
      e.path == dir + [e.name] && !e.isSystemApp && !e.isRunning &&
      (e.status == Linked <==>
        Exists(fs, localDir + [e.name]) &&
        (IsLink(fs, localDir + [e.name]) ||
         (IsDir(fs, localDir + [e.name]) && IsLink(fs, localDir + [e.name, "Contents"]))))
  {
    var names := Scan.Listed(fs, lister, dir);
    var entry := ExternalRows(fs, dir, localDir);
    var rows := Scan.Collect(entry, idBase, names, |names|);
    Scan.CollectMembers(entry, idBase, names, |names|);
    SortAppsMembers(rows);
  }

  /** The check does not look at the link's target: a local link to any
    * existing item, even another bundle, marks the external bundle linked. */
  lemma ForeignLinkCountsAsLinked(fs: FS, localDir: Path, name: string, t: Path)
    requires WellFormed(fs) && ValidPath(t) && t in fs && !fs[t].Link?
    requires localDir + [name] in fs && fs[localDir + [name]] == Link(PathString(t))
    ensures ExternalStatus(fs, localDir, name) == Linked
  {
    ExistsThroughLink(fs, localDir + [name], t);
  }

  // ----- sortApps -----

  function LinkedFirst(a: AppItem): Key
  {
    Key(if a.status == Linked then 0 else 1, a.name)
  }

  function SortApps(apps: seq<AppItem>): seq<AppItem>
  {
    SortBy(apps, LinkedFirst)
  }

  lemma SortAppsMembers(apps: seq<AppItem>)
    ensures forall e :: e in SortApps(apps) <==> e in apps
  {
    SortBySortedPermutation(apps, LinkedFirst);
    forall e ensures e in SortApps(apps) <==> e in apps {
      assert e in SortApps(apps) <==> e in multiset(SortApps(apps));
    }
  }

  /** A permutation with linked rows first, each group by ascending name. */
  lemma SortAppsSpec(apps: seq<AppItem>)
    ensures multiset(SortApps(apps)) == multiset(apps)
    ensures var r := SortApps(apps);
      forall i, j :: 0 <= i < j < |r| ==>
        (r[j].status == Linked ==> r[i].status == Linked) &&
        ((r[i].status == Linked) == (r[j].status == Linked) ==> !Less(r[j].name, r[i].name))
  {
    SortBySortedPermutation(apps, LinkedFirst);
  }
}
