/**
 * The list logic of the current main screen (`AppPorts/ContentView.swift`):
 * the user's sort choice, the selection checks that enable the two action
 * buttons, the move button's caption, and the progressive size fill that
 * writes each bundle's size into the shown rows as it is computed.
 */
module MainScreen {
  import opened Outcomes
  import opened FileSystem
  import opened Ordering
  import opened AppModels
  import Scan = AppScanner

  // ----- sortApps -----

  datatype SortOption = ByName | BySize

  /** Larger bundles first, equal sizes by ascending name. */
  function LargestFirst(a: AppItem): Key
  {
    Key(-a.sizeBytes, a.name)
  }

  /** `sortApps`: by name the rows are left in the order the scanner gave;
    * by size they are sorted with the size comparator. */
  function SortApps(option: SortOption, apps: seq<AppItem>): (r: seq<AppItem>)
    ensures |r| == |apps|
    ensures option == ByName ==> r == apps
  {
    match option
    case ByName => apps
    case BySize => SortBy(apps, LargestFirst)
  }

  /** Sorting by size returns a permutation of the rows in which every row
    * is at least as large as the next, and equal sizes keep ascending
    * names. */
  lemma SortBySizeSpec(apps: seq<AppItem>)
    ensures multiset(SortApps(BySize, apps)) == multiset(apps)
    ensures var r := SortApps(BySize, apps);
      forall i, j :: 0 <= i < j < |r| ==>
        r[i].sizeBytes > r[j].sizeBytes ||
        (r[i].sizeBytes == r[j].sizeBytes && !Less(r[j].name, r[i].name))
  {
    SortBySortedPermutation(apps, LargestFirst);
  }

  // ----- looking rows up by id -----

  /** `firstIndex(where: { $0.id == id })`. */
  function FirstIndex(apps: seq<AppItem>, id: nat): (r: Option<nat>)
    ensures r.None? <==> forall i :: 0 <= i < |apps| ==> apps[i].id != id
    ensures r.Some? ==> r.value < |apps| && apps[r.value].id == id &&
                        forall i :: 0 <= i < r.value ==> apps[i].id != id
  {
    if apps == [] then None
    else if apps[0].id == id then Some(0)
    else
      match FirstIndex(apps[1..], id)
      case None => None
      case Some(i) => Some(i + 1)
  }

  /** No two rows share an id. */
  predicate DistinctIds(apps: seq<AppItem>)
  {
    forall i, j :: 0 <= i < j < |apps| ==> apps[i].id != apps[j].id
  }

  /** With distinct ids the lookup finds the one row with the id. */
  lemma FirstIndexOfDistinct(apps: seq<AppItem>, i: nat)
    requires DistinctIds(apps) && i < |apps|
    ensures FirstIndex(apps, apps[i].id) == Some(i)
  {
  }

  // ----- the screen -----

  /** The screen's state: the two lists, what is selected in each and the
    * chosen external drive. */
  class Screen {
    var localApps: seq<AppItem>
    var externalApps: seq<AppItem>
    var selectedLocalApp: Option<nat>
    var selectedExternalApp: Option<nat>
    var externalDrive: Option<Path>

    constructor ()
      ensures localApps == [] && externalApps == []
      ensures selectedLocalApp == None && selectedExternalApp == None
      ensures externalDrive == None
    {
      localApps := [];
      externalApps := [];
      selectedLocalApp := None;
      selectedExternalApp := None;
      externalDrive := None;
    }

    /** The local row the selection names, the first with that id. */
    function SelectedLocal(): (r: Option<AppItem>)
      reads this
      ensures r.Some? <==> selectedLocalApp.Some? && FirstIndex(localApps, selectedLocalApp.value).Some?
      ensures r.Some? ==> r.value in localApps && r.value.id == selectedLocalApp.value
    {
      if selectedLocalApp.None? then None
      else match FirstIndex(localApps, selectedLocalApp.value)
        case None => None
        case Some(i) => Some(localApps[i])
    }

    /** The external row the selection names, the first with that id. */
    function SelectedExternal(): (r: Option<AppItem>)
      reads this
      ensures r.Some? <==> selectedExternalApp.Some? && FirstIndex(externalApps, selectedExternalApp.value).Some?
      ensures r.Some? ==> r.value in externalApps && r.value.id == selectedExternalApp.value
    {
      if selectedExternalApp.None? then None
      else match FirstIndex(externalApps, selectedExternalApp.value)
        case None => None
        case Some(i) => Some(externalApps[i])
    }

    /** `canMoveOut`: a selected local row that is neither a system nor a
      * running app, a chosen external drive, and a row not linked yet. */
    predicate CanMoveOut()
      reads this
    {
      match SelectedLocal()
      case None => false
      case Some(app) =>
        if app.isSystemApp || app.isRunning then false
        else externalDrive.Some? && app.status != Linked
    }

    /** `canLinkIn`: a selected external row that is unlinked or external. */
    predicate CanLinkIn()
      reads this
    {
      match SelectedExternal()
      case None => false
      case Some(app) => app.status == Unlinked || app.status == External
    }

    /** `getMoveButtonTitle`: the caption of the move button and whether it
      * reads as an error. */
    function MoveButtonTitle(): (string, bool)
      reads this
    {
      match SelectedLocal()
      case None => (MoveOutTitle, false)
      case Some(app) =>
        if app.isSystemApp then (SystemAppTitle, true)
        else if app.isRunning then (RunningTitle, true)
        else if app.status == Linked then (Linked, false)
        else (MoveOutTitle, false)
    }

    /** The button is enabled only under the plain "move out" caption, never
      * under an error caption; with a selected row and a chosen drive the
      * plain caption means the button is enabled. */
    lemma MoveButtonAgrees()
      ensures CanMoveOut() ==> MoveButtonTitle() == (MoveOutTitle, false)
      ensures MoveButtonTitle().1 ==> !CanMoveOut()
      ensures SelectedLocal().Some? && externalDrive.Some? ==>
        (CanMoveOut() <==> MoveButtonTitle() == (MoveOutTitle, false))
    {
      LinkedIsNotMoveOut();
    }

    /** The link-in button is enabled only for a selected external row that
      * is unlinked or external: never without a selection and never for a
      * linked or partly linked row. */
    lemma CanLinkInSpec()
      ensures CanLinkIn() ==>
                (selectedExternalApp.Some? &&
                 exists e :: e in externalApps && e.id == selectedExternalApp.value &&
                             (e.status == Unlinked || e.status == External))
      ensures (SelectedExternal().Some? &&
               (SelectedExternal().value.status == Linked ||
                SelectedExternal().value.status == PartiallyLinked)) ==> !CanLinkIn()
    {
      assert Linked[0] != Unlinked[0] && Linked[0] != External[0];
      assert PartiallyLinked[0] != Unlinked[0] && PartiallyLinked[0] != External[0];
    }

    /** `calculateSizesProgressive`: for every scanned row in turn, its
      * bundle's size is computed and written into the first shown row with
      * the same id, in the local or the external list. */
    method CalculateSizesProgressive(apps: seq<AppItem>, isLocal: bool, fs: FS, lister: Lister,
                                     format: int -> string)
      modifies this
      ensures isLocal ==> localApps == SizesApplied(old(localApps), apps, fs, lister, format)
      ensures !isLocal ==> externalApps == SizesApplied(old(externalApps), apps, fs, lister, format)
      ensures isLocal ==> externalApps == old(externalApps)
      ensures !isLocal ==> localApps == old(localApps)
      ensures selectedLocalApp == old(selectedLocalApp) && selectedExternalApp == old(selectedExternalApp)
      ensures externalDrive == old(externalDrive)
    {
      for n := 0 to |apps|
        invariant isLocal ==> localApps == SizesApplied(old(localApps), apps[..n], fs, lister, format)
        invariant !isLocal ==> externalApps == SizesApplied(old(externalApps), apps[..n], fs, lister, format)
        invariant isLocal ==> externalApps == old(externalApps)
        invariant !isLocal ==> localApps == old(localApps)
        invariant selectedLocalApp == old(selectedLocalApp) && selectedExternalApp == old(selectedExternalApp)
        invariant externalDrive == old(externalDrive)
      {
        var app := apps[n];
        var sizeBytes := Scan.CalculateDirectorySize(fs, lister, app.path);
        var sizeString := format(sizeBytes);
        assert apps[..n + 1][..n] == apps[..n];
        if isLocal {
          var index := FirstIndex(localApps, app.id);
          if index.Some? {
            localApps := localApps[index.value := localApps[index.value].(size := Some(sizeString), sizeBytes := sizeBytes)];
          }
        } else {
          var index := FirstIndex(externalApps, app.id);
          if index.Some? {
            externalApps := externalApps[index.value := externalApps[index.value].(size := Some(sizeString), sizeBytes := sizeBytes)];
          }
        }
      }
      assert apps[..|apps|] == apps;
    }
  }

  const MoveOutTitle: string := "迁移到外部"
  const SystemAppTitle: string := "系统应用"
  const RunningTitle: string := "应用运行中"

  lemma LinkedIsNotMoveOut()
    ensures Linked != MoveOutTitle
  {
    assert Linked[0] != MoveOutTitle[0];
  }

  // ----- the size fill -----

  /** The first row with the id gets the size and its formatted text. */
  function SizeApplied(rows: seq<AppItem>, id: nat, bytes: int, format: int -> string): seq<AppItem>
  {
    match FirstIndex(rows, id)
    case None => rows
    case Some(i) => rows[i := rows[i].(size := Some(format(bytes)), sizeBytes := bytes)]
  }

  /** The rows after the sizes of the scanned `apps` were filled in, one
    * after the other. */
  function SizesApplied(rows: seq<AppItem>, apps: seq<AppItem>, fs: FS, lister: Lister,
                        format: int -> string): seq<AppItem>
  {
    if apps == [] then rows
    else
      var last := apps[|apps| - 1];
      SizeApplied(SizesApplied(rows, apps[..|apps| - 1], fs, lister, format), last.id,
                  Scan.DirectorySize(fs, lister, last.path), format)
  }

  /** `a` is `b` with at most its size fields changed. */
  predicate OnlySizeChanged(a: AppItem, b: AppItem)
  {
    a.(size := b.size, sizeBytes := b.sizeBytes) == b
  }

  /** The size fill keeps every row in place and changes only the size
    * fields; a row whose id no scanned app has is untouched. */
  lemma {:induction false} SizesAppliedKeepsRows(rows: seq<AppItem>, apps: seq<AppItem>, fs: FS, lister: Lister,
                                                 format: int -> string)
    ensures var r := SizesApplied(rows, apps, fs, lister, format);
      |r| == |rows| &&
      (forall i :: 0 <= i < |r| ==> OnlySizeChanged(r[i], rows[i])) &&
      (forall i :: 0 <= i < |r| && (forall j :: 0 <= j < |apps| ==> apps[j].id != rows[i].id) ==> r[i] == rows[i])
    decreases |apps|
  {
    if apps != [] {
      var init := apps[..|apps| - 1];
      var last := apps[|apps| - 1];
      SizesAppliedKeepsRows(rows, init, fs, lister, format);
      var s := SizesApplied(rows, init, fs, lister, format);
      var r := SizesApplied(rows, apps, fs, lister, format);
      forall i | 0 <= i < |r| ensures OnlySizeChanged(r[i], rows[i]) {
        assert OnlySizeChanged(r[i], s[i]);
      }
      forall i | 0 <= i < |r| && (forall j :: 0 <= j < |apps| ==> apps[j].id != rows[i].id)
        ensures r[i] == rows[i]
      {
        assert apps[|apps| - 1] == last;
        assert forall j :: 0 <= j < |init| ==> init[j] == apps[j];
        assert s[i].id == rows[i].id;
      }
    }
  }

  /** Filling one size into rows with distinct ids changes exactly the row
    * with that id. */
  lemma SizeAppliedAt(s: seq<AppItem>, id: nat, bytes: int, format: int -> string, i: nat)
    requires DistinctIds(s) && i < |s|
    ensures var r := SizeApplied(s, id, bytes, format);
      |r| == |s| &&
      r[i] == if s[i].id == id then s[i].(size := Some(format(bytes)), sizeBytes := bytes) else s[i]
  {
    if s[i].id == id {
      FirstIndexOfDistinct(s, i);
    }
  }

  /** With distinct ids on both sides, every shown row that some scanned app
    * names ends up with that app's bundle size and its formatted text. */
  lemma {:induction false} SizesAppliedFills(rows: seq<AppItem>, apps: seq<AppItem>, fs: FS, lister: Lister,
                                             format: int -> string, i: nat, j: nat)
    requires DistinctIds(rows) && DistinctIds(apps)
    requires i < |rows| && j < |apps| && apps[j].id == rows[i].id
    ensures var r := SizesApplied(rows, apps, fs, lister, format);
      var bytes := Scan.DirectorySize(fs, lister, apps[j].path);
      |r| == |rows| && r[i].sizeBytes == bytes && r[i].size == Some(format(bytes))
    decreases |apps|
  {
    var init := apps[..|apps| - 1];
    var last := apps[|apps| - 1];
    var s := SizesApplied(rows, init, fs, lister, format);
    SizesAppliedKeepsRows(rows, init, fs, lister, format);
    IdsKept(s, rows);
    SizeAppliedAt(s, last.id, Scan.DirectorySize(fs, lister, last.path), format, i);
    if j < |apps| - 1 {
      assert init[j] == apps[j];
      SizesAppliedFills(rows, init, fs, lister, format, i, j);
    }
  }

  /** Rows that differ at most in their sizes have the same ids. */
  lemma IdsKept(s: seq<AppItem>, rows: seq<AppItem>)
    requires |s| == |rows| && forall i :: 0 <= i < |s| ==> OnlySizeChanged(s[i], rows[i])
    requires DistinctIds(rows)
    ensures DistinctIds(s) && forall i :: 0 <= i < |s| ==> s[i].id == rows[i].id
  {
    forall i | 0 <= i < |s| ensures s[i].id == rows[i].id {
      assert s[i].(size := rows[i].size, sizeBytes := rows[i].sizeBytes).id == s[i].id;
    }
  }
}
