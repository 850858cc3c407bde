/**
 * The application's data model (`AppPorts/Models/AppModels.swift`): one row
 * of the app lists, its display name and custom equality, and the errors the
 * relocation operations throw with their user-facing descriptions.
 */
module AppModels {
  import opened Outcomes
  import opened Text
  import opened FileSystem

  // The status labels exactly as the scanners store them.
  const Local: string := "本地"
  const Linked: string := "已链接"
  const Unlinked: string := "未链接"
  const PartiallyLinked: string := "部分链接"
  const External: string := "外部"

  /** One row of the local or external list. `id` stands for the fresh
    * `UUID()` of each instance. */
  datatype AppItem = AppItem(
    id: nat,
    name: string,
    path: Path,
    status: string,
    isSystemApp: bool,
    isRunning: bool,
    isAppStoreApp: bool,
    isIOSApp: bool,
    size: Option<string>,
    sizeBytes: int,
    isFolder: bool,
    appCount: int)

  /** `AppItem(name:path:status:)`: every other field at its declared default. */
  function NewItem(id: nat, name: string, path: Path, status: string): (a: AppItem)
    ensures a.id == id && a.name == name && a.path == path && a.status == status
    ensures !a.isSystemApp && !a.isRunning && !a.isAppStoreApp && !a.isIOSApp && !a.isFolder
    ensures a.size == None && a.sizeBytes == 0 && a.appCount == 0
  {
    AppItem(id, name, path, status, false, false, false, false, None, 0, false, 0)
  }

  const FolderSuffix: string := " 个应用)"

  /** `displayName`: a folder shows its app count after its name. */
  function DisplayName(a: AppItem): string
  {
    if a.isFolder then a.name + " (" + Decimal(a.appCount) + FolderSuffix else a.name
  }

  /** An app shows its bare name; a folder shows its name, then its app count
    * in a form that reads back as that count. */
  lemma DisplayNameShape(a: AppItem)
    ensures !a.isFolder ==> DisplayName(a) == a.name
    ensures a.isFolder && IntMin <= a.appCount <= IntMax ==>
      exists count: string ::
        DisplayName(a) == a.name + " (" + count + FolderSuffix && ParseInt(count) == Some(a.appCount)
  {
    if a.isFolder && IntMin <= a.appCount <= IntMax {
      ParseDecimal(a.appCount);
      var count := Decimal(a.appCount);
      assert DisplayName(a) == a.name + " (" + count + FolderSuffix;
    }
  }

  /** The custom `==`. */
  predicate Same(a: AppItem, b: AppItem)
  {
    a.id == b.id && a.name == b.name && a.status == b.status &&
    a.isRunning == b.isRunning && a.size == b.size && a.sizeBytes == b.sizeBytes &&
    a.isAppStoreApp == b.isAppStoreApp && a.isIOSApp == b.isIOSApp
  }

  /** `==` holds exactly when the items agree on everything except `path`,
    * `isSystemApp`, `isFolder` and `appCount`. */
  lemma SameIgnoresLocationAndFolder(a: AppItem, b: AppItem)
    ensures Same(a, b) <==>
      a.(path := b.path, isSystemApp := b.isSystemApp, isFolder := b.isFolder,
         appCount := b.appCount) == b
  {
  }

  /** `==` is an equivalence relation. */
  lemma SameIsEquivalence(a: AppItem, b: AppItem, c: AppItem)
    ensures Same(a, a)
    ensures Same(a, b) ==> Same(b, a)
    ensures Same(a, b) && Same(b, c) ==> Same(a, c)
  {
  }

  // ----- errors -----

  datatype AppMoverError =
    | PermissionDenied(inner: OsError)
    | GeneralError(inner: OsError)
    | AppIsRunning
    | AppStoreAppError(inner: OsError)

  /** What a relocation operation throws: one of the application's own errors
    * or a `FileManager` error passed through unchanged. */
  datatype Failure = Mover(error: AppMoverError) | System(cause: OsError)

  const PermissionDeniedText: string :=
    "权限不足。" + "请前往\"系统设置 > 隐私与安全性 > 完全磁盘访问权限\"，允许 AppPorts 访问磁盘，然后重启应用。"
  const AppIsRunningText: string := "该应用正在运行。请先退出应用，然后再试。"
  const AppStoreAppText: string :=
    "此 App Store 应用受系统保护，无法自动迁移。" + "\n\n请尝试：\n1. 手动将应用移动到外部存储\n2. 然后回到 AppPorts 创建链接"

  /** `errorDescription`. */
  function ErrorDescription(e: AppMoverError): (r: string)
    ensures e.GeneralError? ==> r == e.inner.description
  {
    match e
    case PermissionDenied(_) => PermissionDeniedText
    case GeneralError(inner) => inner.description
    case AppIsRunning => AppIsRunningText
    case AppStoreAppError(_) => AppStoreAppText
  }

  /** Apart from `generalError`, the description depends only on the case and
    * never on the wrapped error, and the cases read differently. */
  lemma DescriptionIgnoresPayload(e1: AppMoverError, e2: AppMoverError)
    requires !e1.GeneralError? && !e2.GeneralError?
    ensures ErrorDescription(e1) == ErrorDescription(e2) <==>
      (e1.PermissionDenied? && e2.PermissionDenied?) || (e1.AppIsRunning? && e2.AppIsRunning?) ||
      (e1.AppStoreAppError? && e2.AppStoreAppError?)
  {
    assert PermissionDeniedText[0] == '权';
    assert AppIsRunningText[0] == '该';
    assert AppStoreAppText[0] == '此';
  }
}
