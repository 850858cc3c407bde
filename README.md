# AppPorts relocation core in Dafny

AppPorts moves large macOS application bundles from `/Applications` to an
external drive and leaves a link behind, so the app still opens from its old
place. It can also link a bundle that is already on the drive back in, break
a link, and move a bundle back. This project models the logic behind that,
over an abstract file system, and proves what it promises:

- **File system** (`filesystem.dfy`, module `FileSystem`): a volume is a map
  from paths (lists of components) to nodes (`File`, `Dir`, `Link` storing
  its target text). Each `FileManager` call is a function of the state and
  an explicit fault: `removeItem`, `copyItem`, `moveItem`, `createDirectory`,
  `createSymbolicLink` and `write`. A fault can strike part-way through.
  Also here: `fileExists` with links followed, directory listings given as
  an oracle, and the directory enumerator. The `Volume` class holds the
  state that the imperative operations change.
- **Scanners**:
  - `scanner.dfy` (module `AppScanner`) is the current scanner. It lists
    the applications folder and the drive and tags each bundle as linked,
    deep-linked, partly linked and so on. It groups folders of bundles,
    classifies App Store and iOS apps, adds up sizes and sorts.
  - `scanner_early.dfy` (module `AppScannerEarly`) is the earlier scanner.
  - `ordering.dfy` holds the sort both of them use. It is an insertion sort
    over a key, proved to return a sorted permutation.
- **Relocation screens**, one module per generation, never merged:
  - `relocate_v0.dfy` (module `RelocationFirst`) is the first screen. It
    moves the bundle and leaves a whole-path link.
  - `relocate_v1.dfy` (module `RelocationShallow`) adds the running-app
    check and clears a stale link first.
  - `relocate_v2.dfy` (module `RelocationDeep`) is the current screen. It
    runs a write probe, copies, deletes the original with rollback, and
    leaves a deep `Contents` link.
  - `screen.dfy` (module `MainScreen`) covers the current screen's list
    logic. That is the sort choice, the button checks, and the in-place
    progressive size fill.
- **Tree copier** (`copier.dfy`, module `FileCopier`): the recursive copy
  with an in-place `CopyState` and throttled progress reports. It walks the
  `listxattr` name buffer to copy extended attributes.
- **Small helpers**:
  - `models.dfy` and `models_early.dfy` cover `AppItem` defaults,
    `displayName`, the custom `==` and error texts.
  - `update_checker.dfy` covers version comparison and the update
    decision.
  - `status_badge.dfy` covers the badge priority chain.
  - `app_logger.dfy` covers the log-size setting, rotation and line
    formats.
  - `localizable.dfy` covers the two localization-catalog generators and
    the Braille transliteration.
  - `text.dfy` covers the string functions of Swift's library that these
    use.

Status labels are kept as the app's own strings (`已链接` linked, `部分链接`
partly linked, `未链接` unlinked, `本地` local, `外部` external). Some
behaviours of the code are easy to misread. The model follows the code as
written:

- `sortApps` puts only `已链接` first. `部分链接` ranks with the unlinked
  rows, and names compare by `<`, case-sensitively.
- The current scanner sizes a link met inside a bundle by the link's own
  size. The earlier scanner reports a link at the root by its own size.
- Relocation is refused for a running app and for a real item at the
  destination. There are no App Store or iOS allow-flags, no fallback
  deletion and no batch summary.
- The rollback after a failed deletion removes the copy even when the
  deletion already removed part of the original (see "## Findings").
- `deleteLink` in the current screen removes any directory, not only a deep
  link.
- External folder status counts local counterparts by existence, not by
  verified link.

The two duplicate copies of the copier (`AppPorts/FileCopier.swift`) and the
update checker (`AppPorts/UpdateChecker.swift`) have the same logic as
their `Utils/` versions. One model serves both, and the table cites both.

## Model

| member | source | states |
|---|---|---|
| Text.JoinSplit | AppPorts/Services/AppLogger.swift:113-115 | splitting a text at line breaks and joining the pieces again gives back the text |
| Text.SplitJoin | AppPorts/Services/AppLogger.swift:113-115 | joining separator-free pieces and splitting again gives back the pieces |
| Text.NonEmpty | AppPorts/Utils/UpdateChecker.swift:156-157 | `split` keeps every non-empty piece and only non-empty pieces of the input |
| Text.NonEmptyAppend | AppPorts/Utils/UpdateChecker.swift:156-157 | dropping the empty pieces works piece by piece, so the kept pieces stay in their input order and keep their multiplicity |
| Text.Trim | AppPorts/Utils/UpdateChecker.swift:123 | the result is the part of the input left after cutting off every leading and every trailing trimmed character: only those characters go, and the result neither starts nor ends with one |
| Text.ParseInt | AppPorts/Utils/UpdateChecker.swift:156-157 | a digit string, bare or after one `+` or `-`, parses to its signed value exactly when that value fits in 64 bits; any other text gives nothing |
| Text.ParseDecimal | AppPorts/Services/AppLogger.swift:125 | an integer written in decimal parses back to itself |
| Text.Utf8Length | AppPorts/Services/AppLogger.swift:104-106 | the UTF-8 byte count is between one and four bytes per character |
| Logging.Logger.MaxLogSize | AppPorts/Services/AppLogger.swift:37-41 | the stored size when positive, else 2 MiB; always positive |
| Logging.Logger.SetMaxLogSize | AppPorts/Services/AppLogger.swift:42-44 | stores the value; a positive value reads back unchanged |
| Logging.Logger.RotateLogIfNeeded | AppPorts/Services/AppLogger.swift:102-118 | the file is rewritten only when its UTF-8 size exceeds the limit, and then it holds its newer half of lines |
| Logging.Logger.Log | AppPorts/Services/AppLogger.swift:75-99 | the entry `[ts] [level] message` is appended after the rotation check; a new file is created when there is none; a failed write leaves the rotated file |
| Logging.Logger.LogError | AppPorts/Services/AppLogger.swift:120-132 | logs at ERROR the message extended with the error's details when an error is given |
| Logging.RotationKeepsNewerHalf | AppPorts/Services/AppLogger.swift:110-116 | rotation keeps exactly the last n/2 of the n lines in order, and the result is a tail of the old text |
| Logging.EntryIsLast | AppPorts/Services/AppLogger.swift:86-97 | after a successful write the entry is at the end of the file, after everything the rotation left |
| Logging.ErrorMessageExtends | AppPorts/Services/AppLogger.swift:120-130 | without an error the message is logged unchanged; with one, the logged text starts with the message |
| Updates.CompareVersions | AppPorts/Utils/UpdateChecker.swift:154-172 | the loop's result equals the order of the numeric components, with missing components counted as 0; the duplicate at AppPorts/UpdateChecker.swift:64-79 does the same |
| Updates.ComparedReflexive | AppPorts/Utils/UpdateChecker.swift:154-172 | a version compares the same as itself |
| Updates.ComparedSwap | AppPorts/Utils/UpdateChecker.swift:154-172 | swapping the arguments swaps ascending and descending |
| Updates.ZerosCompared | AppPorts/Utils/UpdateChecker.swift:160-165 | all-zero components compare like none at all |
| Updates.ComparedIgnoresTrailingZeros | AppPorts/Utils/UpdateChecker.swift:160-165 | trailing zero components make no difference ("1.2" equals "1.2.0") |
| Updates.FirstDifferenceDecides | AppPorts/Utils/UpdateChecker.swift:163-169 | the first differing component decides the order |
| Updates.Parsed | AppPorts/Utils/UpdateChecker.swift:156-157 | no more components than pieces: pieces that are not integers are dropped |
| Updates.ComponentsOfPieces | AppPorts/Utils/UpdateChecker.swift:156-157 | for non-empty pieces without dots, the components of the pieces joined by dots are the pieces that parse as integers |
| Updates.ComponentsSkipLetters | AppPorts/Utils/UpdateChecker.swift:156-157 | "1.b.2" has the components 1, 2: the piece that is not a number is skipped |
| Updates.ComponentsOf123 | AppPorts/Utils/UpdateChecker.swift:149-152 | "1.2.3" has the components 1, 2, 3 |
| Updates.ComponentsOf120 | AppPorts/Utils/UpdateChecker.swift:149-152 | "1.2.0" has the components 1, 2, 0 |
| Updates.ComponentsOf12 | AppPorts/Utils/UpdateChecker.swift:149-152 | "1.2" has the components 1, 2 |
| Updates.ParsedNumbers | AppPorts/Utils/UpdateChecker.swift:156-157 | pieces that all read as numbers give their values, in order |
| Updates.DocumentedCases | AppPorts/Utils/UpdateChecker.swift:149-153 | "1.2.3" is newer than "1.2.0", and "1.2" and "1.2.0" are the same |
| Updates.IsNewer | AppPorts/Utils/UpdateChecker.swift:121-130 | false without a current version; otherwise true exactly when the tag with its `v`s trimmed compares descending; the duplicate at AppPorts/UpdateChecker.swift:56-62 does the same |
| Updates.NewerIsStrict | AppPorts/Utils/UpdateChecker.swift:121-130 | a release is not newer than its own version, and of two versions at most one is newer |
| Updates.TagPrefixIgnored | AppPorts/Utils/UpdateChecker.swift:122-123 | a leading `v` on the tag does not change the decision |
| Updates.ReleaseToOffer | AppPorts/Utils/UpdateChecker.swift:107-112 | the release is offered exactly when it is newer; the duplicate at AppPorts/UpdateChecker.swift:49-53 does the same |
| StatusBadge.ConfigPriority | AppPorts/Views/Components/StatusBadge.swift:45-66 | linked and partly linked win over every flag; running beats system, iOS and App Store; iOS beats App Store; external and unlinked only without a flag; everything else is local |
| StatusBadge.LinkStatusesDiffer | AppPorts/Views/Components/StatusBadge.swift:46-62 | the four status strings the chain tests are pairwise different, so each branch is reachable |
| Localizable.ToBrailleAppend | AppPorts/generate_localizable_final.py:20-21 | the transliteration of a concatenation is the concatenation of the transliterations |
| Localizable.UnlistedPassesThrough | AppPorts/generate_localizable_final.py:20-21 | a text with no character in the table comes out unchanged |
| Localizable.CellShapes | AppPorts/generate_localizable_final.py:10-16 | a capital is the capital sign then its small letter's cell; digits 1-9 and 0 are the number sign then the cells of a-j; a small letter is one cell |
| Localizable.FinalEntry | AppPorts/generate_localizable_final.py:793-811 | the entry is manual and has exactly one translated unit per language, with Braille drawn from English (or the key) and every other language falling back to the key |
| Localizable.GenerateFinal | AppPorts/generate_localizable_final.py:786-812 | the catalog is zh-Hans, version 1.1, keyed by exactly the data's keys, each with the entry above over the 21 languages |
| Localizable.GenerateV2 | AppPorts/generate_localizable_v2.py:540-558 | the same header; each key's units are exactly its translations, copied verbatim and marked translated |
| Localizable.V2Entry | AppPorts/generate_localizable_v2.py:547-557 | one key's entry is marked manual and its units are exactly the key's translations, each copied verbatim and marked translated |
| Localizable.GeneratorsAgree | AppPorts/generate_localizable_final.py:797-804 | for a key translated into every language but Braille, both generators agree and the final one adds Braille of the English text |
| Localizable.MissingFallsBackToKey | AppPorts/generate_localizable_final.py:799-804 | a missing language shows the key; Braille without English renders the key |
| AppModels.NewItem | AppPorts/Models/AppModels.swift:30-89 | a new item has no size text, size 0, every flag false and app count 0 |
| AppModels.DisplayNameShape | AppPorts/Models/AppModels.swift:94-99 | an app shows its name; a folder shows its name followed by its app count |
| AppModels.SameIgnoresLocationAndFolder | AppPorts/Models/AppModels.swift:105-114 | `==` holds exactly when the items agree on every field except path, system flag, folder flag and app count |
| AppModels.SameIsEquivalence | AppPorts/Models/AppModels.swift:105-114 | `==` is reflexive, symmetric and transitive |
| AppModels.ErrorDescription | AppPorts/Models/AppModels.swift:155-178 | `generalError` shows the wrapped error's description |
| AppModels.DescriptionIgnoresPayload | AppPorts/Models/AppModels.swift:155-178 | every other case reads the same whatever it wraps, and different cases read differently |
| AppModelsEarly.NewItem | AppPorts/AppModels.swift:5-13 | a new item is not system, not running, has no size text and size 0 |
| AppModelsEarly.SameIgnoresLocation | AppPorts/AppModels.swift:15-17 | `==` holds exactly when the items agree on every field except path and system flag |
| AppModelsEarly.ErrorDescription | AppPorts/AppModels.swift:25-34 | `generalError` shows the wrapped error's description |
| AppModelsEarly.FixedDescriptions | AppPorts/AppModels.swift:27-33 | `permissionDenied` and `appIsRunning` read the same whatever they wrap, and differently from each other |
| Ordering.LessIrreflexive | AppPorts/Utils/AppScanner.swift:341 | no name sorts before itself |
| Ordering.LessTransitive | AppPorts/Utils/AppScanner.swift:341 | the name order is transitive |
| Ordering.LessTotal | AppPorts/Utils/AppScanner.swift:341 | of two different names one sorts before the other |
| Ordering.LessAsymmetric | AppPorts/Utils/AppScanner.swift:341 | two names never sort before each other |
| Ordering.KeyLeqTransitive | AppPorts/Utils/AppScanner.swift:331-343 | the sort key's order is transitive |
| Ordering.KeyLeqTotal | AppPorts/Utils/AppScanner.swift:331-343 | any two keys are ordered one way or the other |
| Ordering.Insert | AppPorts/Utils/AppScanner.swift:331-343 | insertion adds exactly the one element and keeps a sorted list sorted |
| Ordering.SortBySortedPermutation | AppPorts/Utils/AppScanner.swift:331-343 | the sort returns a permutation of its input, in ascending key order |
| AppScanner.AppNames | AppPorts/Utils/AppScanner.swift:140-141 | exactly the listed names with the `.app` extension |
| AppScanner.CalculateDirectorySize | AppPorts/Utils/AppScanner.swift:45-73 | the loop's total is 0 for a link and otherwise the sum of the sizes of the visible items the enumerator visits |
| AppScanner.DirectorySizeCountsVisibleItems | AppPorts/Utils/AppScanner.swift:59-71 | the size covers every visible file or link below the bundle and never counts a hidden item or one elsewhere |
| AppScanner.StoreFlags | AppPorts/Utils/AppScanner.swift:178-224 | an iOS app is always an App Store app |
| AppScanner.DetectAppStoreAndIOSApp | AppPorts/Utils/AppScanner.swift:178-224 | iOS exactly when a `WrappedBundle` or the `Info.plist` marks it; App Store exactly when there is a `_MASReceipt` or it is iOS |
| AppScanner.LocalStatus | AppPorts/Utils/AppScanner.swift:109-134 | `已链接` exactly when the bundle or its `Contents`, `Contents/MacOS` or `Contents/Resources` is a link, else `本地` |
| AppScanner.LocalRow | AppPorts/Utils/AppScanner.swift:98-160 | the loop body yields the row the specification function gives for the name |
| AppScanner.ScanLocalApps | AppPorts/Utils/AppScanner.swift:90-163 | the loop's rows are the scan's rows, sorted |
| AppScanner.LocalEntryFacts | AppPorts/Utils/AppScanner.swift:98-160 | a name yields a row exactly when it is a bundle or a folder holding bundles; the row is linked, system, running, iOS and App Store exactly as the markers say; a folder counts its bundles and runs when one does |
| AppScanner.ScanLocalRows | AppPorts/Utils/AppScanner.swift:90-163 | every local row is a listed bundle or folder with the facts above, and linked rows come first |
| AppScanner.ScanLocalComplete | AppPorts/Utils/AppScanner.swift:96-161 | every visible bundle and folder of bundles gets a row |
| AppScanner.ExternalStatus | AppPorts/Utils/AppScanner.swift:246-273 | `已链接` exactly when the local counterpart is a link storing this path, or has a `Contents` link storing this `Contents` path; else `未链接` |
| AppScanner.CountExisting | AppPorts/Utils/AppScanner.swift:289-296 | the count of a folder's bundles with a local counterpart is at most the number of bundles |
| AppScanner.FolderStatusCases | AppPorts/Utils/AppScanner.swift:298-306 | a folder is linked when all its bundles exist locally, unlinked when none do, else partly linked |
| AppScanner.CountAll | AppPorts/Utils/AppScanner.swift:289-306 | the count equals the number of bundles exactly when every one exists locally |
| AppScanner.CountNone | AppPorts/Utils/AppScanner.swift:289-306 | the count is 0 exactly when none exists locally |
| AppScanner.ExternalRow | AppPorts/Utils/AppScanner.swift:243-318 | the loop body yields the row the specification function gives for the name |
| AppScanner.CountLinked | AppPorts/Utils/AppScanner.swift:289-296 | the count is the number of bundles in the folder that have a counterpart at the same name in the local applications directory |
| AppScanner.ScanExternalApps | AppPorts/Utils/AppScanner.swift:237-321 | the loop's rows are the scan's rows, sorted |
| AppScanner.ExternalEntryFacts | AppPorts/Utils/AppScanner.swift:243-318 | a name yields a row exactly when it is a bundle or a folder holding bundles; a bundle is linked exactly through a verified link back; nothing is system or running |
| AppScanner.ScanExternalRows | AppPorts/Utils/AppScanner.swift:237-321 | every external row has the facts above, and linked rows come first |
| AppScanner.ScanExternalComplete | AppPorts/Utils/AppScanner.swift:241-319 | every visible bundle and folder of bundles on the drive gets a row |
| AppScanner.SortAppsMembers | AppPorts/Utils/AppScanner.swift:331-343 | sorting neither adds nor drops a row |
| AppScanner.LinkedFirstIsComparator | AppPorts/Utils/AppScanner.swift:332-342 | the sort key orders two items exactly as the source's comparator does |
| AppScanner.SortAppsSpec | AppPorts/Utils/AppScanner.swift:331-343 | a permutation with every `已链接` row ahead of all others and each group in ascending name order; `部分链接` ranks with the unlinked rows |
| AppScanner.SortAppsExample | AppPorts/Utils/AppScanner.swift:331-343 | two linked rows come first by name, then the unlinked one |
| AppScannerEarly.CalculateDirectorySize | AppPorts/AppScanner.swift:11-37 | a link reports its own size; anything else reports the sum over the visible items the enumerator visits |
| AppScannerEarly.LocalStatus | AppPorts/AppScanner.swift:54-66 | `已链接` exactly when the bundle or its `Contents` is a link |
| AppScannerEarly.LocalRow | AppPorts/AppScanner.swift:48-68 | the loop body yields the row the specification function gives for the name |
| AppScannerEarly.ScanLocalApps | AppPorts/AppScanner.swift:39-71 | the loop's rows are the scan's rows, sorted |
| AppScannerEarly.ScanLocalRows | AppPorts/AppScanner.swift:47-68 | every row is a listed bundle, linked exactly by that test, system exactly under `/System`, running exactly when among the running apps |
| AppScannerEarly.ScanLocalComplete | AppPorts/AppScanner.swift:45-69 | every listed bundle gets a row |
| AppScannerEarly.ExternalStatus | AppPorts/AppScanner.swift:82-96 | linked exactly when a local item of the name exists and is a link or has a `Contents` link |
| AppScannerEarly.ExternalRow | AppPorts/AppScanner.swift:80-98 | the loop body yields the row the specification function gives for the name |
| AppScannerEarly.ScanExternalApps | AppPorts/AppScanner.swift:73-101 | the loop's rows are the scan's rows, sorted |
| AppScannerEarly.ScanExternalRows | AppPorts/AppScanner.swift:79-98 | every row is a listed bundle, never system or running, linked exactly by the test above |
| AppScannerEarly.ForeignLinkCountsAsLinked | AppPorts/AppScanner.swift:84-94 | a local link to any existing item, even another bundle, marks the external bundle linked |
| AppScannerEarly.SortAppsMembers | AppPorts/AppScanner.swift:103-114 | sorting neither adds nor drops a row |
| AppScannerEarly.SortAppsSpec | AppPorts/AppScanner.swift:103-114 | a permutation with linked rows first, each group by ascending name |
| FileCopier.Copier.CopyDirectory | AppPorts/Utils/FileCopier.swift:97-126 | the volume, the reports made and the error equal what the copy's specification gives; the duplicate at AppPorts/FileCopier.swift:39-68 does the same |
| FileCopier.Copier.CalculateDirectorySize | AppPorts/Utils/FileCopier.swift:158-188 | the loop's total is the regular-file bytes the enumerator visits; links and unreadable items count nothing; the duplicate at AppPorts/FileCopier.swift:82-107 does the same |
| FileCopier.Copier.CopyExtendedAttributes | AppPorts/Utils/FileCopier.swift:203-239 | the destination gets the source's copyable attributes, nothing is thrown, nothing else changes; the duplicate at AppPorts/FileCopier.swift:110-144 does the same |
| FileCopier.Copier.CopyNamedXattrs | AppPorts/Utils/FileCopier.swift:217-238 | the walk over the name buffer sets the attributes of exactly the names in the buffer |
| FileCopier.Copier.CopyContents | AppPorts/Utils/FileCopier.swift:253-323 | the in-place recursion leaves the state the copy's specification gives; the duplicate at AppPorts/FileCopier.swift:147-214 does the same |
| FileCopier.Copier.CopyItem | AppPorts/Utils/FileCopier.swift:267-322 | one listed item is copied as the specification gives, by its kind |
| FileCopier.Copier.CountFile | AppPorts/Utils/FileCopier.swift:302-321 | the counters after a file are those of `FileStep` |
| FileCopier.CopyState.constructor | AppPorts/Utils/FileCopier.swift:133-145 | a new state carries the total and has copied nothing, reported nothing and counted no files |
| FileCopier.CStringOfEncoded | AppPorts/Utils/FileCopier.swift:223-224 | reading a name back from an encoded buffer gives the name |
| FileCopier.NameListOfEncoded | AppPorts/Utils/FileCopier.swift:217-237 | walking the buffer `listxattr` fills, step `len+1`, gives back exactly its names |
| FileCopier.ApplyNamesSpec | AppPorts/Utils/FileCopier.swift:221-237 | every attribute set comes from the source with its value; every copyable named attribute is set; empty or refused ones are skipped; nothing else changes |
| FileCopier.XattrsCopied | AppPorts/Utils/FileCopier.swift:203-239 | only the destination's attributes change |
| FileCopier.FileStep | AppPorts/Utils/FileCopier.swift:302-321 | bytes grow by exactly the file's size; a report is made exactly when a handler is present and 5 MiB or 50 files have gathered; afterwards both counters are below their thresholds |
| FileCopier.LinkCopied | AppPorts/Utils/FileCopier.swift:274-278 | a link is recreated storing the same target text, and nothing is counted |
| FileCopier.FileCopied | AppPorts/Utils/FileCopier.swift:299-305 | a file is copied whole and its size is counted |
| FileCopier.ContentsProgress | AppPorts/Utils/FileCopier.swift:253-323 | every state the copy passes through stays throttled and sound, and only adds bytes and reports |
| FileCopier.NamesProgress | AppPorts/Utils/FileCopier.swift:253-323 | the same over a listing |
| FileCopier.ItemProgress | AppPorts/Utils/FileCopier.swift:267-322 | the same for one item |
| FileCopier.DirProgress | AppPorts/Utils/FileCopier.swift:281-297 | the same for a directory |
| FileCopier.ItemFrame | AppPorts/Utils/FileCopier.swift:267-322 | copying one item changes nothing outside its destination |
| FileCopier.DirFrame | AppPorts/Utils/FileCopier.swift:281-297 | copying a directory changes nothing outside its destination |
| FileCopier.NamesFrame | AppPorts/Utils/FileCopier.swift:253-323 | copying a listing changes nothing outside its names' destinations |
| FileCopier.ContentsFrame | AppPorts/Utils/FileCopier.swift:253-323 | copying contents changes nothing outside what lies below the destination |
| FileCopier.ContentsCount | AppPorts/Utils/FileCopier.swift:253-323 | a successful copy counts exactly the regular-file bytes the size calculation adds up |
| FileCopier.NamesCount | AppPorts/Utils/FileCopier.swift:253-323 | the same over a listing |
| FileCopier.ItemCount | AppPorts/Utils/FileCopier.swift:267-322 | the same for one item |
| FileCopier.DirCount | AppPorts/Utils/FileCopier.swift:281-297 | the same for a directory |
| FileCopier.ItemShape | AppPorts/Utils/FileCopier.swift:271-300 | after a successful copy the destination item has the source's kind: same link target, same file size, same directory attributes |
| FileCopier.DirShape | AppPorts/Utils/FileCopier.swift:281-297 | the same for a directory and what is below it |
| FileCopier.NamesShape | AppPorts/Utils/FileCopier.swift:267-300 | every listed item gets a destination of the same shape |
| FileCopier.CreatedOnPath | AppPorts/Utils/FileCopier.swift:111 | creating the destination with intermediates adds only the path and its ancestors |
| FileCopier.CopyDirectoryProgress | AppPorts/Utils/FileCopier.swift:102-125 | with a handler the first report is 0 of the total, every report carries the total and the bytes never go backwards, whether the copy fails or succeeds; without a handler nothing is reported |
| FileCopier.CopyDirectoryCompletes | AppPorts/Utils/FileCopier.swift:122-125 | a successful copy outside the source ends with a report of every counted byte |
| FileCopier.CopyReachesTotal | AppPorts/Utils/FileCopier.swift:102-125 | a successful copy outside the source copies exactly the bytes counted beforehand |
| FileCopier.ReportsClosed | AppPorts/Utils/FileCopier.swift:122-125 | the final report keeps the run of reports sound |
| RelocationFirst.ScanApps | AppPort/ContentView.swift:169-191 | the method's rows and alert are those of the scan's specification |
| RelocationFirst.ScanItems | AppPort/ContentView.swift:172-182 | the loop gathers rows up to the first error |
| RelocationFirst.ItemRow | AppPort/ContentView.swift:174-181 | the loop body yields the row or error for the name |
| RelocationFirst.GatherStops | AppPort/ContentView.swift:171-183 | once the loop stopped on an error, later names change nothing |
| RelocationFirst.GatherRows | AppPort/ContentView.swift:173-182 | rows are listed bundles in order, `已链接` exactly for a link and `baseStatus` otherwise; the loop stops only on a bundle that has gone |
| RelocationFirst.ScannedRows | AppPort/ContentView.swift:169-191 | every row is a listed bundle with that status, in ascending name order; an alert is raised exactly when the listing fails or a bundle has gone |
| RelocationFirst.ScannedComplete | AppPort/ContentView.swift:172-182 | without an alert every listed bundle gets its row |
| RelocationFirst.ScannedUnreadable | AppPort/ContentView.swift:183-189 | an unreadable directory yields no rows; the permission error has its own alert |
| RelocationFirst.ExternalScanRows | AppPort/ContentView.swift:161-167 | without a drive the list is empty; with one each row is `已链接` for a link and `外部` otherwise |
| RelocationFirst.MoveAndLink | AppPort/ContentView.swift:211-222 | the volume and error are those of the move-then-link specification |
| RelocationFirst.WrapKeepsError | AppPort/ContentView.swift:215-220 | the permission error becomes `permissionDenied`; every other error becomes `generalError` carrying it |
| RelocationFirst.MoveAndLinkSucceeds | AppPort/ContentView.swift:211-214 | success leaves a link to the destination at the old place and the bundle at the destination, with all else unchanged, exactly when the move's checks pass and no call fails |
| RelocationFirst.FailedLinkKeepsMove | AppPort/ContentView.swift:212-214 | a failed link does not undo the move |
| RelocationFirst.LinkApp | AppPort/ContentView.swift:224-237 | the volume and error are those of the link-in specification |
| RelocationFirst.LinkAppNeverReplaces | AppPort/ContentView.swift:224-237 | linking in only adds a link at a free place and never replaces anything |
| RelocationShallow.ScanLocalApps | ContentView.swift:433-453 | the loop's rows are the scan's rows, sorted |
| RelocationShallow.ScanExternalApps | ContentView.swift:455-469 | the loop's rows are the scan's rows, sorted |
| RelocationShallow.LocalScanRows | ContentView.swift:440-451 | every row is a listed bundle, `已链接` exactly for a link, system and running as marked; every bundle has a row |
| RelocationShallow.ExternalScanRows | ContentView.swift:455-467 | without a drive the list is empty; with one each row is `已链接(异常)` exactly for a link, else `外部` |
| RelocationShallow.SortAppsMembers | ContentView.swift:471-479 | sorting neither adds nor drops a row |
| RelocationShallow.SortAppsSpec | ContentView.swift:471-479 | a permutation with `已链接` rows first, each group by ascending name |
| RelocationShallow.FirstWithId | ContentView.swift:416-417 | the first row with the id, or none when no row has it |
| RelocationShallow.CanMoveOutSpec | ContentView.swift:415-420 | enabled exactly for a selected app that is not system, running or linked, with a drive chosen |
| RelocationShallow.CanLinkInSpec | ContentView.swift:422-425 | enabled exactly when something is selected and no local row of its name is `本地` |
| RelocationShallow.ClearSpot | ContentView.swift:509-513 | the volume and error are those of the clearing specification |
| RelocationShallow.ClearedSpec | ContentView.swift:509-513 | a link at the spot is removed, a real item is the conflict and is left alone, and nothing changes otherwise |
| RelocationShallow.ClearedKeeps | ContentView.swift:509-513 | clearing changes nothing but the spot |
| RelocationShallow.MoveAndLink | ContentView.swift:504-516 | the volume and error are those of the move-out specification |
| RelocationShallow.MoveAndLinkRefuses | ContentView.swift:505-513 | a running app and a real item at the destination are refused before anything changes |
| RelocationShallow.MoveAndLinkSucceeds | ContentView.swift:504-516 | success leaves a link to the destination and the bundle at the destination; only the bundle and a link at the destination are gone |
| RelocationShallow.MovedOntoFreeSpot | ContentView.swift:514-515 | on a free destination the move and link are the first screen's |
| RelocationShallow.LinkApp | ContentView.swift:518-525 | the volume and error are those of the link-in specification |
| RelocationShallow.LinkAppReplacesOnlyLinks | ContentView.swift:518-525 | only a link is replaced; a real item is refused unchanged |
| RelocationShallow.DeleteLink | ContentView.swift:527 | the volume and error are those of the deletion specification |
| RelocationShallow.DeleteLinkRemovesAnything | ContentView.swift:527 | whatever is at the path, even a real bundle, is removed with everything below it |
| RelocationShallow.MoveBack | ContentView.swift:529-536 | the volume and error are those of the move-back specification, which the two lemmas below characterise |
| RelocationShallow.MoveBackSpec | ContentView.swift:529-536 | a real item at the local spot is refused unchanged; success leaves the bundle at the local spot and nothing at its external place |
| RelocationShallow.MoveBackSucceeds | ContentView.swift:529-536 | a successful move-back puts every item of the external bundle at the same place below the local spot, leaves nothing at or below its external place, and changes nothing outside the two |
| RelocationDeep.CheckWritePermission | AppPorts/ContentView.swift:699-707 | the volume and error are those of the probe specification |
| RelocationDeep.ProbeSpec | AppPorts/ContentView.swift:699-707 | the probe passes exactly when the folder is writable and both calls go through; any failure is `permissionDenied`; a pass with a fresh name changes nothing |
| RelocationDeep.Wrap | AppPorts/ContentView.swift:743-751 | the volume and error are those of the deep-link specification |
| RelocationDeep.WrappedSpec | AppPorts/ContentView.swift:743-751 | the deep link can be made exactly when the spot is free below a directory, and then it is a wrapper and nothing else changes |
| RelocationDeep.ClearDestination | AppPorts/ContentView.swift:716-721 | the volume and error are those of the destination check |
| RelocationDeep.DestinationClearedKeeps | AppPorts/ContentView.swift:716-721 | the check keeps the state well formed and changes it at most at the destination |
| RelocationDeep.Relocate | AppPorts/ContentView.swift:723-741 | the volume and error are those of copy, delete and rollback as written |
| RelocationDeep.MoveAndLink | AppPorts/ContentView.swift:709-755 | the volume and error are those of the move-out specification |
| RelocationDeep.MoveAndLinkRefuses | AppPorts/ContentView.swift:709-721 | a failed probe, a running app and a real item at the destination are refused before anything is copied |
| RelocationDeep.CopyThenDelete | AppPorts/ContentView.swift:726-730 | after the copy and a successful deletion the bundle sits at the destination and its old place is free |
| RelocationDeep.RollbackRestores | AppPorts/ContentView.swift:729-737 | a deletion that fails before removing anything is rolled back to the state before the copy, and its error is reported |
| RelocationDeep.RollbackLosesItems | AppPorts/ContentView.swift:729-737 | a deletion that fails after removing an item still deletes the copy, so that item is lost |
| RelocationDeep.RelocatedSafelyKeepsBundle | AppPorts/ContentView.swift:723-741 | with the corrected rollback, every item of the bundle survives at its old place or in the copy, whatever fails |
| RelocationDeep.SafelyAgrees | AppPorts/ContentView.swift:723-741 | the corrected rollback differs from the code only when the deletion removed something before failing |
| RelocationDeep.RelocatedMoves | AppPorts/ContentView.swift:723-741 | a successful relocation is the copy followed by deleting the whole original |
| RelocationDeep.MoveCore | AppPorts/ContentView.swift:743-751 | after the relocation the old place holds the deep link and the destination holds the bundle |
| RelocationDeep.MoveCoreExact | AppPorts/ContentView.swift:743-751 | the destination holds exactly the bundle's items |
| RelocationDeep.MoveCoreWrapFails | AppPorts/ContentView.swift:743-751 | a failed deep link is not rolled back: the bundle stays at the destination, with at most a bare directory at its old place |
| RelocationDeep.MoveAndLinkSucceeds | AppPorts/ContentView.swift:709-755 | success leaves a deep link at the old place, exactly the bundle at the destination and all else unchanged |
| RelocationDeep.PreparedKeeps | AppPorts/ContentView.swift:709-721 | the checks before copying change the state at most at the destination |
| RelocationDeep.ClearSpot | AppPorts/ContentView.swift:761-783 | the volume and error are those of the spot-check specification |
| RelocationDeep.SpotClearedSpec | AppPorts/ContentView.swift:761-783 | a link or a deep link is removed; another directory is the real-app conflict; any other item is the plain-file conflict, unchanged |
| RelocationDeep.WrapperIsReplaced | AppPorts/ContentView.swift:769-775 | a deep link the app left is recognised and removed |
| RelocationDeep.SpotClearedLeaves | AppPorts/ContentView.swift:819-835 | a passing spot check changes nothing away from the spot |
| RelocationDeep.LinkApp | AppPorts/ContentView.swift:757-794 | the volume and error are those of the link-in specification |
| RelocationDeep.LinkAppSpec | AppPorts/ContentView.swift:757-794 | a real item is refused unchanged; success leaves a deep link to the external bundle, replacing at most a link, and nothing else changes |
| RelocationDeep.DeleteLink | AppPorts/ContentView.swift:796-813 | the volume and error are those of the deletion specification |
| RelocationDeep.DeleteLinkSpec | AppPorts/ContentView.swift:796-813 | a link or any directory is removed with everything below it; a file or a missing item is refused unchanged |
| RelocationDeep.MoveBack | AppPorts/ContentView.swift:815-839 | the volume and error are those of the move-back specification |
| RelocationDeep.MoveBackRefuses | AppPorts/ContentView.swift:815-835 | a real directory or other item at the local spot is refused unchanged |
| RelocationDeep.MovedExactly | AppPorts/ContentView.swift:838 | a successful move places the item's tree at the destination and nothing remains at the source |
| RelocationDeep.MoveBackSucceeds | AppPorts/ContentView.swift:815-839 | success leaves exactly the bundle at the local spot, nothing at the external place and all else unchanged |
| RelocationDeep.MoveOutThenBack | AppPorts/ContentView.swift:709-839 | moving out and back restores the original state, less any link cleared at the destination |
| MainScreen.SortApps | AppPorts/ContentView.swift:444-459 | by name the rows stay as scanned; the length is kept |
| MainScreen.SortBySizeSpec | AppPorts/ContentView.swift:449-457 | by size: a permutation, larger first, ties by ascending name |
| MainScreen.FirstIndex | AppPorts/ContentView.swift:658 | the first index with the id, or none exactly when no row has it |
| MainScreen.Screen.SelectedLocal | AppPorts/ContentView.swift:571-572 | the selected local row, present exactly when the selection names a row |
| MainScreen.Screen.SelectedExternal | AppPorts/ContentView.swift:591-592 | the selected external row, present exactly when the selection names a row |
| MainScreen.Screen.MoveButtonAgrees | AppPorts/ContentView.swift:570-588 | the move button is enabled only under the plain caption and never under an error caption |
| MainScreen.Screen.CanLinkInSpec | AppPorts/ContentView.swift:590-596 | link-in is enabled only for a selected unlinked or external row, never for a linked or partly linked one |
| MainScreen.Screen.CalculateSizesProgressive | AppPorts/ContentView.swift:644-674 | the in-place updates leave the chosen list as the size fill gives it and the other list untouched |
| MainScreen.SizesAppliedKeepsRows | AppPorts/ContentView.swift:644-674 | the fill keeps every row in place and changes only size fields |
| MainScreen.SizeAppliedAt | AppPorts/ContentView.swift:657-670 | one fill changes exactly the row with the id |
| MainScreen.SizesAppliedFills | AppPorts/ContentView.swift:644-674 | every row some scanned app names ends with that app's size |
| MainScreen.IdsKept | AppPorts/ContentView.swift:657-670 | rows that differ only in size keep their ids |

## Left out

- Concurrency (actors, `Task.detached`, `MainActor` hops, callback delivery) is not modelled. Every operation is a sequential call.
- Formatting is left out: `ByteCountFormatter` and `MeasurementFormatter` are a `format` parameter, and `Progress.percentage` is a floating-point value.
- The HTTP request and JSON decoding of `checkForUpdates` are left out. Only the version decision is modelled.
- Byte counts are unbounded integers. 64-bit overflow of `Int64` sizes is not modelled.
- The `setAttributes(modificationDate)` calls after relocation are left out. Their `try?` means they never change the outcome.
- `FolderMonitor`, `NSOpenPanel` and `LanguageManager` are not part of this model. `NSWorkspace.runningApplications` is a set parameter. `UserDefaults` is the logger's stored size.
- Log file location, `openLogInFinder`, `clearLog` and `getLogSizeString` are left out. The log file is a field holding its text, and timestamps are parameters.
- The Python scripts' JSON writing and their translation tables are left out. The generators take the table as data, and the catalog is returned as a value.
- `AppPorts/generate_localizable_v2.py` line 1 reads `5import json`, which does not parse. Only the loop's evident logic is modelled.
- Localizable.GenerateV2: a dictionary's iteration order is not modelled. The loop picks the next language arbitrarily, and the contract states the result for every order.
- `Exists` follows links at every path component. The mutating calls and the link and directory queries look a path up as written, which assumes its directories are not links.
- Ordering.SortBySortedPermutation: Swift's `sorted` is not stable. The model keeps equal keys in input order, and the contracts say nothing about the order of ties.
- Ordering.Less: names compare by character code. Unicode canonical equivalence in Swift's `<` is not modelled.
- Localizable.TableEntry: the 74-entry mapping is written group by group (letters, capitals, digits, punctuation) rather than entry by entry. The groups hold exactly the same entries.
- Logging.Logger.Log: `writeFails` covers a log file that cannot be opened or created. A failure inside `FileHandle.write`, which raises an exception rather than returning, is not modelled.
- Logging.Logger.RotateLogIfNeeded: the log file is always readable UTF-8 text. An unreadable file or a failed rewrite, both ignored by `try?`, is not modelled.
- App Store and iOS allow-flags, Finder-fallback deletion, iOS shallow links and batch summaries are left out. They do not appear in the relocation code.

## Findings

| source | as written | input that shows it | evidently intended | confidence | as-written member | corrected member |
|---|---|---|---|---|---|---|
| AppPorts/ContentView.swift:726-737 | after the copy succeeds and deleting the original fails, the copy at the destination is always deleted | a bundle `/Applications/X.app` whose `removeItem` removes `Contents/Resources` and then fails on a locked file in `Contents/MacOS`: the rollback deletes the copy, so `Contents/Resources` exists nowhere | roll back only while the original is still complete, so every item of the bundle survives in one of the two places | not executed | RelocationDeep.RollbackLosesItems | RelocationDeep.RelocatedSafelyKeepsBundle |
