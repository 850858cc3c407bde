/**
 * The application scanner (`AppPorts/Utils/AppScanner.swift`): lists a
 * directory, classifies every `.app` bundle as linked or local, groups
 * folders of apps, recognises App Store and iOS apps, sums bundle sizes and
 * sorts the result with linked entries first.
 */
module AppScanner {
  import opened Outcomes
  import opened Text
  import opened FileSystem
  import opened Ordering
  import opened AppModels

  /** The `Info.plist` keys the classifier reads; `None` where the key is
    * absent or holds a value of another type. */
  datatype Plist = Plist(
    deviceFamily: Option<seq<int>>,
    compiler: Option<string>,
    platformName: Option<string>)

  /** What the system reports during a scan: directory listings, and the
    * property-list files that parse as dictionaries. */
  datatype Env = Env(lister: Lister, plists: map<Path, Plist>)

  /** `pathExtension == "app"`. */
  predicate HasAppExtension(name: string)
  {
    |name| > 4 && name[|name| - 4..] == ".app"
  }

  /** `(try? contentsOfDirectory(at:options: .skipsHiddenFiles)) ?? []`. */
  function Listed(fs: FS, lister: Lister, dir: Path): seq<string>
  {
    match List(fs, lister, dir)
    case Ok(names) => Visible(names)
    case Err(_) => []
  }

  function AppNames(names: seq<string>): (r: seq<string>)
    ensures forall n :: n in r <==> n in names && HasAppExtension(n)
    ensures |r| <= |names|
  {
    if names == [] then []
    else (if HasAppExtension(names[0]) then [names[0]] else []) + AppNames(names[1..])
  }

  // ----- calculateDirectorySize -----

  /** `fileSize` of an item: a file's length, a link's own length (that of
    * its stored target), nothing for a directory or a missing item. */
  function FileSize(fs: FS, p: Path): Option<nat>
  {
    if p !in fs then None
    else match fs[p]
      case File(n) => Some(n)
      case Link(t) => Some(Utf8Length(t))
      case Dir(_, _) => None
  }

  function SumSizes(fs: FS, items: seq<Path>): nat
  {
    if items == [] then 0
    else
      var last := items[|items| - 1];
      SumSizes(fs, items[..|items| - 1]) + (if FileSize(fs, last).Some? then FileSize(fs, last).value else 0)
  }

  /** The size reported for a bundle: nothing for a link, else the sizes of
    * the items the enumerator visits with hidden files skipped. */
  function DirectorySize(fs: FS, lister: Lister, root: Path): nat
  {
    if IsLink(fs, root) then 0 else SumSizes(fs, Enumerate(fs, lister, root, true))
  }

  method CalculateDirectorySize(fs: FS, lister: Lister, root: Path) returns (size: int)
    ensures size == DirectorySize(fs, lister, root)
    ensures IsLink(fs, root) ==> size == 0
  {
    if root in fs && fs[root].Link? {
      return 0;
    }
    var items := Enumerate(fs, lister, root, true);
    size := 0;
    for i := 0 to |items|
      invariant size == SumSizes(fs, items[..i])
    {
      assert items[..i + 1][..i] == items[..i];
      var fileSize := FileSize(fs, items[i]);
      if fileSize.Some? {
        size := size + fileSize.value;
      }
    }
    assert items[..|items|] == items;
  }

  lemma {:induction false} SumSizesAppend(fs: FS, a: seq<Path>, b: seq<Path>)
    ensures SumSizes(fs, a + b) == SumSizes(fs, a) + SumSizes(fs, b)
    decreases |b|
  {
    if b == [] {
      assert a + b == a;
    } else {
      var b' := b[..|b| - 1];
      assert (a + b)[..|a + b| - 1] == a + b';
      SumSizesAppend(fs, a, b');
    }
  }

  /** The size of a bundle that is not a link is at least the size of any
    * file or link found below it; hidden items and items elsewhere are never
    * visited. */
  lemma DirectorySizeCountsVisibleItems(fs: FS, lister: Lister, root: Path, p: Path)
    requires !IsLink(fs, root)
    requires p in Enumerate(fs, lister, root, true) && FileSize(fs, p).Some?
    ensures root < p && VisibleBelow(root, p)
    ensures DirectorySize(fs, lister, root) >= FileSize(fs, p).value
  {
    EnumerateBelow(fs, lister, root, true);
    var items := Enumerate(fs, lister, root, true);
    var k :| 0 <= k < |items| && items[k] == p;
    assert items == items[..k] + [p] + items[k + 1..];
    SumSizesAppend(fs, items[..k] + [p], items[k + 1..]);
    SumSizesAppend(fs, items[..k], [p]);
    assert ([] + [p])[..0] == [] && [] + [p] == [p];
  }

  // ----- detectAppStoreAndIOSApp -----

  /** The dictionary read from a property-list file, links followed. */
  function ReadPlist(fs: FS, plists: map<Path, Plist>, file: Path): Option<Plist>
  {
    match Target(fs, file)
    case None => None
    case Some(q) =>
      if q in fs && fs[q].File? && q in plists then Some(plists[q]) else None
  }

  /** The property list marks an iPhone or iPad app. */
  predicate PlistSaysIOS(pl: Plist)
  {
    (pl.deviceFamily.Some? && pl.deviceFamily.value != []) ||
    (pl.compiler.Some? && Contains(pl.compiler.value, "com.apple.compilers") &&
     pl.platformName == Some("iphoneos"))
  }

  predicate HasReceipt(fs: FS, app: Path)
  {
    Exists(fs, app + ["Contents", "_MASReceipt"])
  }

  predicate HasWrappedBundle(fs: FS, app: Path)
  {
    Exists(fs, app + ["WrappedBundle"])
  }

  function InfoPlist(app: Path): Path
  {
    app + ["Contents", "Info.plist"]
  }

  /** The iOS markers: a `WrappedBundle`, or an `Info.plist` that says so. */
  predicate IOSMarked(fs: FS, plists: map<Path, Plist>, app: Path)
  {
    HasWrappedBundle(fs, app) ||
    (ReadPlist(fs, plists, InfoPlist(app)).Some? &&
     PlistSaysIOS(ReadPlist(fs, plists, InfoPlist(app)).value))
  }

  /** (App Store, iOS) flags of a bundle. */
  function StoreFlags(fs: FS, plists: map<Path, Plist>, app: Path): (flags: (bool, bool))
    ensures flags.1 ==> flags.0
  {
    var ios := IOSMarked(fs, plists, app);
    (HasReceipt(fs, app) || ios, ios)
  }

  method DetectAppStoreAndIOSApp(fs: FS, plists: map<Path, Plist>, app: Path)
    returns (isAppStore: bool, isIOSApp: bool)
    ensures (isAppStore, isIOSApp) == StoreFlags(fs, plists, app)
    ensures isIOSApp <==> IOSMarked(fs, plists, app)
    ensures isAppStore <==> HasReceipt(fs, app) || isIOSApp
  {
    var hasReceipt := Exists(fs, app + ["Contents", "_MASReceipt"]);
    var hasWrappedBundle := Exists(fs, app + ["WrappedBundle"]);
    isIOSApp := false;
    isAppStore := hasReceipt;
    var plist := ReadPlist(fs, plists, app + ["Contents", "Info.plist"]);
    if plist.Some? {
      var pl := plist.value;
      if pl.deviceFamily.Some? && pl.deviceFamily.value != [] {
        isIOSApp := true;
        isAppStore := true;
      }
      if pl.compiler.Some? && Contains(pl.compiler.value, "com.apple.compilers") {
        if pl.platformName == Some("iphoneos") {
          isIOSApp := true;
          isAppStore := true;
        }
      }
    }
    if hasWrappedBundle {
      isIOSApp := true;
      isAppStore := true;
    }
  }

  // ----- scanLocalApps -----

  /** The bundle's `Contents`, `Contents/MacOS` or `Contents/Resources` is a link. */
  predicate DeepLinked(fs: FS, app: Path)
  {
    IsDir(fs, app) &&
    (IsLink(fs, app + ["Contents"]) || IsLink(fs, app + ["Contents", "MacOS"]) ||
     IsLink(fs, app + ["Contents", "Resources"]))
  }

  function LocalStatus(fs: FS, app: Path): (status: string)
    ensures status == Linked <==> IsLink(fs, app) || DeepLinked(fs, app)
    ensures status == Linked || status == Local
  {
    if IsLink(fs, app) || DeepLinked(fs, app) then Linked else Local
  }

  /** The path starts with `/System` (`path.hasPrefix("/System")`). */
  predicate UnderSystem(p: Path)
  {
    "/System" <= PathString(p)
  }

  predicate AnyRunning(folder: Path, apps: seq<string>, running: set<Path>)
  {
    exists a :: a in apps && folder + [a] in running
  }

  /** The row a listed name contributes to the local list, if any. */
  function LocalEntry(fs: FS, env: Env, dir: Path, running: set<Path>, id: nat, name: string)
    : Option<AppItem>
  {
    var item := dir + [name];
    if HasAppExtension(name) then
      var flags := StoreFlags(fs, env.plists, item);
      Some(AppItem(id, name, item, LocalStatus(fs, item), UnderSystem(item), item in running,
                   flags.0, flags.1, None, 0, false, 0))
    else if IsDir(fs, item) then
      var apps := AppNames(Listed(fs, env.lister, item));
      if apps == [] then None
      else Some(AppItem(id, name, item, Local, false, AnyRunning(item, apps, running),
                        false, false, None, 0, true, |apps|))
    else None
  }

  /** The rows of the first `n` names in listing order; the `i`-th name
    * yields its row, if any, under id `idBase + i`. */
  function Collect<E>(entry: (nat, string) -> Option<E>, idBase: nat, names: seq<string>, n: nat)
    : seq<E>
    requires n <= |names|
  {
    if n == 0 then []
    else
      var row := entry(idBase + n - 1, names[n - 1]);
      Collect(entry, idBase, names, n - 1) + (if row.Some? then [row.value] else [])
  }

  lemma {:induction false} CollectMembers<E>(entry: (nat, string) -> Option<E>, idBase: nat,
                                             names: seq<string>, n: nat)
    requires n <= |names|
    ensures forall e :: e in Collect(entry, idBase, names, n) <==>
      exists i :: 0 <= i < n && entry(idBase + i, names[i]) == Some(e)
  {
    if n > 0 {
      CollectMembers(entry, idBase, names, n - 1);
    }
  }

  /** One more name appends its row, if it yields one. */
  lemma CollectNext<E>(entry: (nat, string) -> Option<E>, idBase: nat, names: seq<string>,
                       i: nat, row: Option<E>)
    requires i < |names| && entry(idBase + i, names[i]) == row
    ensures Collect(entry, idBase, names, i + 1) ==
            Collect(entry, idBase, names, i) + (if row.Some? then [row.value] else [])
  {
  }

  /** A name that yields a row contributes it. */
  lemma {:induction false} CollectHas<E>(entry: (nat, string) -> Option<E>, idBase: nat,
                                         names: seq<string>, n: nat, i: nat)
    requires i < n <= |names| && entry(idBase + i, names[i]).Some?
    ensures entry(idBase + i, names[i]).value in Collect(entry, idBase, names, n)
  {
    if i < n - 1 {
      CollectHas(entry, idBase, names, n - 1, i);
    }
  }

  function LocalRows(fs: FS, env: Env, dir: Path, running: set<Path>): (nat, string) -> Option<AppItem>
  {
    (id: nat, name: string) => LocalEntry(fs, env, dir, running, id, name)
  }

  /** One step of the local scanning loop. */
  lemma LocalStep(fs: FS, env: Env, dir: Path, running: set<Path>, idBase: nat,
                  items: seq<string>, i: nat, row: Option<AppItem>)
    requires i < |items| && row == LocalEntry(fs, env, dir, running, idBase + i, items[i])
    ensures Collect(LocalRows(fs, env, dir, running), idBase, items, i + 1) ==
            Collect(LocalRows(fs, env, dir, running), idBase, items, i) +
            (if row.Some? then [row.value] else [])
  {
    CollectNext(LocalRows(fs, env, dir, running), idBase, items, i, row);
  }

  function ScanLocal(fs: FS, env: Env, dir: Path, running: set<Path>, idBase: nat): seq<AppItem>
  {
    var names := Listed(fs, env.lister, dir);
    SortApps(Collect(LocalRows(fs, env, dir, running), idBase, names, |names|))
  }

  /** The body of the scanning loop for one listed name. */
  method LocalRow(fs: FS, env: Env, dir: Path, running: set<Path>, id: nat, name: string)
    returns (row: Option<AppItem>)
    ensures row == LocalEntry(fs, env, dir, running, id, name)
  {
    var item := dir + [name];
    if HasAppExtension(name) {
      var status := Local;
      var isSystem := "/System" <= PathString(item);
      var isRunning := item in running;
      var isAppStore, isIOS := DetectAppStoreAndIOSApp(fs, env.plists, item);
      if item in fs {
        if fs[item].Link? {
          status := Linked;
        } else if fs[item].Dir? {
          if IsLink(fs, item + ["Contents"]) {
            status := Linked;
          } else if IsLink(fs, item + ["Contents", "MacOS"]) {
            status := Linked;
          } else if IsLink(fs, item + ["Contents", "Resources"]) {
            status := Linked;
          }
        }
      }
      return Some(AppItem(id, name, item, status, isSystem, isRunning,
                          isAppStore, isIOS, None, 0, false, 0));
    } else if item in fs && fs[item].Dir? {
      var folderContents := Listed(fs, env.lister, item);
      var appsInFolder := AppNames(folderContents);
      if appsInFolder != [] {
        var hasRunning := exists a :: a in appsInFolder && item + [a] in running;
        return Some(AppItem(id, name, item, Local, false, hasRunning,
                            false, false, None, 0, true, |appsInFolder|));
      }
    }
    return None;
  }

  method ScanLocalApps(fs: FS, env: Env, dir: Path, running: set<Path>, idBase: nat)
    returns (apps: seq<AppItem>)
    ensures apps == ScanLocal(fs, env, dir, running, idBase)
  {
    var items := Listed(fs, env.lister, dir);
    var newApps: seq<AppItem> := [];
    for i := 0 to |items|
      invariant newApps == Collect(LocalRows(fs, env, dir, running), idBase, items, i)
    {
      var row := LocalRow(fs, env, dir, running, idBase + i, items[i]);
      LocalStep(fs, env, dir, running, idBase, items, i, row);
      if row.Some? {
        newApps := newApps + [row.value];
      }
    }
    apps := SortApps(newApps);
  }

  /** What a local row states. A bundle is marked linked exactly when it or
    * its `Contents`, `Contents/MacOS` or `Contents/Resources` is a link,
    * system exactly under `/System`, running exactly when its path is among
    * the running apps, iOS exactly when marked so, App Store when it has a
    * receipt or is iOS. A folder holds `appCount >= 1` bundles and runs when
    * one of them does. */
  predicate LocalRowFacts(fs: FS, env: Env, dir: Path, running: set<Path>, e: AppItem)
  {
    e.path == dir + [e.name] && e.size == None && e.sizeBytes == 0 &&
    (!e.isFolder ==>
      HasAppExtension(e.name) &&
      (e.status == Linked <==> IsLink(fs, e.path) || DeepLinked(fs, e.path)) &&
      (e.status == Linked || e.status == Local) &&
      (e.isSystemApp <==> UnderSystem(e.path)) && (e.isRunning <==> e.path in running) &&
      (e.isIOSApp <==> IOSMarked(fs, env.plists, e.path)) &&
      (e.isAppStoreApp <==> HasReceipt(fs, e.path) || e.isIOSApp)) &&
    (e.isFolder ==>
      !HasAppExtension(e.name) && IsDir(fs, e.path) && e.status == Local && !e.isSystemApp &&
      e.appCount == |AppNames(Listed(fs, env.lister, e.path))| && e.appCount >= 1 &&
      (e.isRunning <==> AnyRunning(e.path, AppNames(Listed(fs, env.lister, e.path)), running)))
  }

  /** A listed name yields a local row exactly when it is a bundle or a
    * directory holding bundles, and that row states the facts above. */
  lemma LocalEntryFacts(fs: FS, env: Env, dir: Path, running: set<Path>, id: nat, name: string)
    ensures var row := LocalEntry(fs, env, dir, running, id, name);
      (row.Some? <==>
        HasAppExtension(name) || (IsDir(fs, dir + [name]) && AppNames(Listed(fs, env.lister, dir + [name])) != [])) &&
      (row.Some? ==>
        row.value.name == name && row.value.id == id &&
        (row.value.isFolder <==> !HasAppExtension(name)) &&
        LocalRowFacts(fs, env, dir, running, row.value))
  {
  }

  /** The local scan lists one row per visible bundle and per visible folder
    * of bundles, each stating the facts above, linked rows first. */
  lemma ScanLocalRows(fs: FS, env: Env, dir: Path, running: set<Path>, idBase: nat)
    ensures var r := ScanLocal(fs, env, dir, running, idBase);
      forall e :: e in r ==> e.name in Listed(fs, env.lister, dir) && LocalRowFacts(fs, env, dir, running, e)
    ensures var r := ScanLocal(fs, env, dir, running, idBase);
      forall i, j :: 0 <= i < j < |r| ==>
        (r[j].status == Linked ==> r[i].status == Linked) &&
        ((r[i].status == Linked) == (r[j].status == Linked) ==> !Less(r[j].name, r[i].name))
  {
    var names := Listed(fs, env.lister, dir);
    var entry := LocalRows(fs, env, dir, running);
    var rows := Collect(entry, idBase, names, |names|);
    var r := ScanLocal(fs, env, dir, running, idBase);
    CollectMembers(entry, idBase, names, |names|);
    SortAppsMembers(rows);
    SortAppsSpec(rows);
    forall e | e in r
      ensures e.name in names && LocalRowFacts(fs, env, dir, running, e)
    {
      var i :| 0 <= i < |names| && entry(idBase + i, names[i]) == Some(e);
      LocalEntryFacts(fs, env, dir, running, idBase + i, names[i]);
    }
  }

  lemma ScanLocalComplete(fs: FS, env: Env, dir: Path, running: set<Path>, idBase: nat)
    ensures var r := ScanLocal(fs, env, dir, running, idBase);
      forall n :: (n in Listed(fs, env.lister, dir) &&
        (HasAppExtension(n) || (IsDir(fs, dir + [n]) && AppNames(Listed(fs, env.lister, dir + [n])) != []))) ==>
        exists e :: e in r && e.path == dir + [n] && (e.isFolder <==> !HasAppExtension(n))
  {
    var names := Listed(fs, env.lister, dir);
    var entry := LocalRows(fs, env, dir, running);
    var rows := Collect(entry, idBase, names, |names|);
    var r := ScanLocal(fs, env, dir, running, idBase);
    SortAppsMembers(rows);
    forall n | n in names &&
        (HasAppExtension(n) || (IsDir(fs, dir + [n]) && AppNames(Listed(fs, env.lister, dir + [n])) != []))
      ensures exists e :: e in r && e.path == dir + [n] && (e.isFolder <==> !HasAppExtension(n))
    {
      var i :| 0 <= i < |names| && names[i] == n;
      LocalEntryFacts(fs, env, dir, running, idBase + i, n);
      var e := entry(idBase + i, n).value;
      CollectHas(entry, idBase, names, |names|, i);
    }
  }

  // ----- scanExternalApps -----

  /** The local counterpart is a link storing exactly the external bundle's
    * path, or a directory whose `Contents` link stores exactly the external
    * `Contents` path. */
  predicate VerifiedLink(fs: FS, local: Path, external: Path)
  {
    (IsLink(fs, local) && fs[local].target == PathString(external)) ||
    (IsDir(fs, local) && IsLink(fs, local + ["Contents"]) &&
     fs[local + ["Contents"]].target == PathString(external + ["Contents"]))
  }

  function ExternalStatus(fs: FS, localDir: Path, name: string, external: Path): (status: string)
    ensures status == Linked <==>
      Exists(fs, localDir + [name]) && VerifiedLink(fs, localDir + [name], external)
    ensures status == Linked || status == Unlinked
  {
    var local := localDir + [name];
    if Exists(fs, local) && VerifiedLink(fs, local, external) then Linked else Unlinked
  }

  /** How many of the folder's bundles have a local counterpart. */
  function CountExisting(fs: FS, localDir: Path, apps: seq<string>): (n: nat)
    ensures n <= |apps|
  {
    if apps == [] then 0
    else
      var init := apps[..|apps| - 1];
      CountExisting(fs, localDir, init) + (if Exists(fs, localDir + [apps[|apps| - 1]]) then 1 else 0)
  }

  function FolderStatus(linkedCount: nat, appCount: nat): string
  {
    if linkedCount == 0 then Unlinked
    else if linkedCount == appCount then Linked
    else PartiallyLinked
  }

  /** A folder is linked when all its bundles have local counterparts,
    * unlinked when none do, partly linked otherwise. */
  lemma FolderStatusCases(fs: FS, localDir: Path, apps: seq<string>)
    requires apps != []
    ensures var s := FolderStatus(CountExisting(fs, localDir, apps), |apps|);
      (s == Linked <==> forall a :: a in apps ==> Exists(fs, localDir + [a])) &&
      (s == Unlinked <==> forall a :: a in apps ==> !Exists(fs, localDir + [a])) &&
      (s == PartiallyLinked <==>
        (exists a :: a in apps && Exists(fs, localDir + [a])) &&
        (exists a :: a in apps && !Exists(fs, localDir + [a])))
  {
    CountAll(fs, localDir, apps);
    CountNone(fs, localDir, apps);
  }

  lemma {:induction false} CountAll(fs: FS, localDir: Path, apps: seq<string>)
    ensures CountExisting(fs, localDir, apps) == |apps| <==>
      forall a :: a in apps ==> Exists(fs, localDir + [a])
  {
    if apps != [] {
      var init := apps[..|apps| - 1];
      CountAll(fs, localDir, init);
      assert apps == init + [apps[|apps| - 1]];
      if CountExisting(fs, localDir, apps) != |apps| {
        if Exists(fs, localDir + [apps[|apps| - 1]]) {
          var a :| a in init && !Exists(fs, localDir + [a]);
        }
      }
    }
  }

  lemma {:induction false} CountNone(fs: FS, localDir: Path, apps: seq<string>)
    ensures CountExisting(fs, localDir, apps) == 0 <==>
      forall a :: a in apps ==> !Exists(fs, localDir + [a])
  {
    if apps != [] {
      var init := apps[..|apps| - 1];
      CountNone(fs, localDir, init);
      assert apps == init + [apps[|apps| - 1]];
      if CountExisting(fs, localDir, apps) != 0 {
        if !Exists(fs, localDir + [apps[|apps| - 1]]) {
          var a :| a in init && Exists(fs, localDir + [a]);
        }
      }
    }
  }

  function ExternalEntry(fs: FS, lister: Lister, dir: Path, localDir: Path, id: nat, name: string)
    : Option<AppItem>
  {
    var item := dir + [name];
    if HasAppExtension(name) then
      Some(AppItem(id, name, item, ExternalStatus(fs, localDir, name, item), false, false,
                   false, false, None, 0, false, 0))
    else if IsDir(fs, item) then
      var apps := AppNames(Listed(fs, lister, item));
      if apps == [] then None
      else Some(AppItem(id, name, item, FolderStatus(CountExisting(fs, localDir, apps), |apps|),
                        false, false, false, false, None, 0, true, |apps|))
    else None
  }

  function ExternalRows(fs: FS, lister: Lister, dir: Path, localDir: Path)
    : (nat, string) -> Option<AppItem>
  {
    (id: nat, name: string) => ExternalEntry(fs, lister, dir, localDir, id, name)
  }

  /** One step of the external scanning loop. */
  lemma ExternalStep(fs: FS, lister: Lister, dir: Path, localDir: Path, idBase: nat,
                     items: seq<string>, i: nat, row: Option<AppItem>)
    requires i < |items| && row == ExternalEntry(fs, lister, dir, localDir, idBase + i, items[i])
    ensures Collect(ExternalRows(fs, lister, dir, localDir), idBase, items, i + 1) ==
            Collect(ExternalRows(fs, lister, dir, localDir), idBase, items, i) +
            (if row.Some? then [row.value] else [])
  {
    CollectNext(ExternalRows(fs, lister, dir, localDir), idBase, items, i, row);
  }

  function ScanExternal(fs: FS, lister: Lister, dir: Path, localDir: Path, idBase: nat)
    : seq<AppItem>
  {
    var names := Listed(fs, lister, dir);
    SortApps(Collect(ExternalRows(fs, lister, dir, localDir), idBase, names, |names|))
  }

  /** The loop counting a folder's bundles that have a local counterpart. */
  method CountLinked(fs: FS, localDir: Path, appsInFolder: seq<string>) returns (linkedCount: nat)
    ensures linkedCount == CountExisting(fs, localDir, appsInFolder)
  {
    linkedCount := 0;
    for k := 0 to |appsInFolder|
      invariant linkedCount == CountExisting(fs, localDir, appsInFolder[..k])
    {
      assert appsInFolder[..k + 1][..k] == appsInFolder[..k];
      if Exists(fs, localDir + [appsInFolder[k]]) {
        linkedCount := linkedCount + 1;
      }
    }
    assert appsInFolder[..|appsInFolder|] == appsInFolder;
  }

  /** The body of the scanning loop for one listed name. */
  method ExternalRow(fs: FS, lister: Lister, dir: Path, localDir: Path, id: nat, name: string)
    returns (row: Option<AppItem>)
    ensures row == ExternalEntry(fs, lister, dir, localDir, id, name)
  {
    var item := dir + [name];
    if HasAppExtension(name) {
      var status := Unlinked;
      var local := localDir + [name];
      if Exists(fs, local) {
        if IsLink(fs, local) {
          if fs[local].target == PathString(item) {
            status := Linked;
          }
        } else if IsDir(fs, local) {
          if IsLink(fs, local + ["Contents"]) {
            if fs[local + ["Contents"]].target == PathString(item + ["Contents"]) {
              status := Linked;
            }
          }
        }
      }
      return Some(AppItem(id, name, item, status, false, false,
                          false, false, None, 0, false, 0));
    } else if item in fs && fs[item].Dir? {
      var appsInFolder := AppNames(Listed(fs, lister, item));
      if appsInFolder != [] {
        var linkedCount := CountLinked(fs, localDir, appsInFolder);
        var status: string;
        if linkedCount == 0 {
          status := Unlinked;
        } else if linkedCount == |appsInFolder| {
          status := Linked;
        } else {
          status := PartiallyLinked;
        }
        return Some(AppItem(id, name, item, status, false, false,
                            false, false, None, 0, true, |appsInFolder|));
      }
    }
    return None;
  }

  method ScanExternalApps(fs: FS, lister: Lister, dir: Path, localDir: Path, idBase: nat)
    returns (apps: seq<AppItem>)
    ensures apps == ScanExternal(fs, lister, dir, localDir, idBase)
  {
    var items := Listed(fs, lister, dir);
    var newApps: seq<AppItem> := [];
    for i := 0 to |items|
      invariant newApps == Collect(ExternalRows(fs, lister, dir, localDir), idBase, items, i)
    {
      var row := ExternalRow(fs, lister, dir, localDir, idBase + i, items[i]);
      ExternalStep(fs, lister, dir, localDir, idBase, items, i, row);
      if row.Some? {
        newApps := newApps + [row.value];
      }
    }
    apps := SortApps(newApps);
  }

  /** What an external row states. A bundle is linked exactly when its
    * local counterpart exists and is a verified link back to it, else
    * unlinked; a folder's status follows how many of its bundles exist
    * locally. Nothing external is marked system or running. */
  predicate ExternalRowFacts(fs: FS, lister: Lister, dir: Path, localDir: Path, e: AppItem)
  {
    e.path == dir + [e.name] && !e.isSystemApp && !e.isRunning &&
    !e.isAppStoreApp && !e.isIOSApp && e.size == None &&
    (!e.isFolder ==>
      HasAppExtension(e.name) &&
      (e.status == Linked <==>
         Exists(fs, localDir + [e.name]) && VerifiedLink(fs, localDir + [e.name], e.path)) &&
      (e.status == Linked || e.status == Unlinked)) &&
    (e.isFolder ==>
      IsDir(fs, e.path) && !HasAppExtension(e.name) &&
      e.appCount == |AppNames(Listed(fs, lister, e.path))| && e.appCount >= 1 &&
      e.status == FolderStatus(CountExisting(fs, localDir, AppNames(Listed(fs, lister, e.path))),
                               e.appCount))
  }

  lemma ExternalEntryFacts(fs: FS, lister: Lister, dir: Path, localDir: Path, id: nat, name: string)
    ensures var row := ExternalEntry(fs, lister, dir, localDir, id, name);
      (row.Some? <==>
        HasAppExtension(name) || (IsDir(fs, dir + [name]) && AppNames(Listed(fs, lister, dir + [name])) != [])) &&
      (row.Some? ==>
        row.value.name == name && row.value.id == id &&
        (row.value.isFolder <==> !HasAppExtension(name)) &&
        ExternalRowFacts(fs, lister, dir, localDir, row.value))
  {
  }

  /** The external scan lists one row per visible bundle and per visible
    * folder of bundles, each stating the facts above, linked rows first. */
  lemma ScanExternalRows(fs: FS, lister: Lister, dir: Path, localDir: Path, idBase: nat)
    ensures var r := ScanExternal(fs, lister, dir, localDir, idBase);
      forall e :: e in r ==> e.name in Listed(fs, lister, dir) && ExternalRowFacts(fs, lister, dir, localDir, e)
    ensures var r := ScanExternal(fs, lister, dir, localDir, idBase);
      forall i, j :: 0 <= i < j < |r| ==>
        (r[j].status == Linked ==> r[i].status == Linked) &&
        ((r[i].status == Linked) == (r[j].status == Linked) ==> !Less(r[j].name, r[i].name))
  {
    var names := Listed(fs, lister, dir);
    var entry := ExternalRows(fs, lister, dir, localDir);
    var rows := Collect(entry, idBase, names, |names|);
    var r := ScanExternal(fs, lister, dir, localDir, idBase);
    CollectMembers(entry, idBase, names, |names|);
    SortAppsMembers(rows);
    SortAppsSpec(rows);
    forall e | e in r
      ensures e.name in names && ExternalRowFacts(fs, lister, dir, localDir, e)
    {
      var i :| 0 <= i < |names| && entry(idBase + i, names[i]) == Some(e);
      ExternalEntryFacts(fs, lister, dir, localDir, idBase + i, names[i]);
    }
  }

  lemma ScanExternalComplete(fs: FS, lister: Lister, dir: Path, localDir: Path, idBase: nat)
    ensures var r := ScanExternal(fs, lister, dir, localDir, idBase);
      forall n :: (n in Listed(fs, lister, dir) &&
        (HasAppExtension(n) || (IsDir(fs, dir + [n]) && AppNames(Listed(fs, lister, dir + [n])) != []))) ==>
        exists e :: e in r && e.path == dir + [n] && (e.isFolder <==> !HasAppExtension(n))
  {
    var names := Listed(fs, lister, dir);
    var entry := ExternalRows(fs, lister, dir, localDir);
    var rows := Collect(entry, idBase, names, |names|);
    var r := ScanExternal(fs, lister, dir, localDir, idBase);
    SortAppsMembers(rows);
    forall n | n in names &&
        (HasAppExtension(n) || (IsDir(fs, dir + [n]) && AppNames(Listed(fs, lister, dir + [n])) != []))
      ensures exists e :: e in r && e.path == dir + [n] && (e.isFolder <==> !HasAppExtension(n))
    {
      var i :| 0 <= i < |names| && names[i] == n;
      ExternalEntryFacts(fs, lister, dir, localDir, idBase + i, n);
      var e := entry(idBase + i, n).value;
      CollectHas(entry, idBase, names, |names|, i);
    }
  }

  // ----- sortApps -----

  /** The comparator of `sortApps`: linked before not linked, then by name. */
  predicate SortsBefore(a: AppItem, b: AppItem)
  {
    var linkedA := a.status == Linked;
    var linkedB := b.status == Linked;
    if linkedA && !linkedB then true
    else if !linkedA && linkedB then false
    else Less(a.name, b.name)
  }

  function LinkedFirst(a: AppItem): Key
  {
    Key(if a.status == Linked then 0 else 1, a.name)
  }

  function SortApps(apps: seq<AppItem>): seq<AppItem>
  {
    SortBy(apps, LinkedFirst)
  }

  /** Sorting neither adds nor drops a row. */
  lemma SortAppsMembers(apps: seq<AppItem>)
    ensures forall e :: e in SortApps(apps) <==> e in apps
  {
    SortBySortedPermutation(apps, LinkedFirst);
    forall e ensures e in SortApps(apps) <==> e in apps {
      assert e in SortApps(apps) <==> e in multiset(SortApps(apps));
    }
  }

  /** The sort key orders items exactly as the comparator does. */
  lemma LinkedFirstIsComparator(a: AppItem, b: AppItem)
    ensures KeyLess(LinkedFirst(a), LinkedFirst(b)) <==> SortsBefore(a, b)
  {
  }

  /** `sortApps` returns a permutation of its input with every linked entry
    * ahead of every other one and each group in ascending name order;
    * `部分链接` ranks with the unlinked entries. */
  lemma SortAppsSpec(apps: seq<AppItem>)
    ensures multiset(SortApps(apps)) == multiset(apps)
    ensures var r := SortApps(apps);
      forall i, j :: 0 <= i < j < |r| ==>
        (r[j].status == Linked ==> r[i].status == Linked) &&
        ((r[i].status == Linked) == (r[j].status == Linked) ==> !Less(r[j].name, r[i].name))
    ensures var r := SortApps(apps);
      forall i, j :: 0 <= i < j < |r| ==> !SortsBefore(r[j], r[i])
  {
    SortBySortedPermutation(apps, LinkedFirst);
    var r := SortApps(apps);
    forall i, j | 0 <= i < j < |r|
      ensures !SortsBefore(r[j], r[i])
    {
      assert KeyLeq(LinkedFirst(r[i]), LinkedFirst(r[j]));
      LinkedFirstIsComparator(r[j], r[i]);
    }
  }

  /** Two linked entries come first by name, then the unlinked one. */
  lemma SortAppsExample()
    ensures var b := NewItem(1, "B.app", ["Volumes", "X", "B.app"], Unlinked);
            var a := NewItem(2, "A.app", ["Volumes", "X", "A.app"], Linked);
            var c := NewItem(3, "C.app", ["Volumes", "X", "C.app"], Linked);
            SortApps([b, a, c]) == [a, c, b]
  {
    var b := NewItem(1, "B.app", ["Volumes", "X", "B.app"], Unlinked);
    var a := NewItem(2, "A.app", ["Volumes", "X", "A.app"], Linked);
    var c := NewItem(3, "C.app", ["Volumes", "X", "C.app"], Linked);
    assert Less("A.app", "C.app");
    assert [b, a, c][1..] == [a, c];
    assert [a, c][1..] == [c];
    assert SortBy([c], LinkedFirst) == [c];
    assert SortBy([a, c], LinkedFirst) == Insert(a, [c], LinkedFirst) == [a, c];
    assert Insert(b, [a, c], LinkedFirst) == [a] + Insert(b, [c], LinkedFirst);
  }
}
