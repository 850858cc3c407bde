/**
 * The earlier data model (`AppPorts/AppModels.swift`): a list row without
 * the App Store, iOS and folder fields, its custom equality, and the earlier
 * error type without the App Store case.
 */
module AppModelsEarly {
  import opened Outcomes
  import opened FileSystem

  datatype AppItem = AppItem(
    id: nat,
    name: string,
    path: Path,
    status: string,
    isSystemApp: bool,
    isRunning: bool,
    size: Option<string>,
    sizeBytes: int)

  /** `AppItem(name:path:status:)`: every other field at its declared default. */
  function NewItem(id: nat, name: string, path: Path, status: string): (a: AppItem)
    ensures a.id == id && a.name == name && a.path == path && a.status == status
    ensures !a.isSystemApp && !a.isRunning && a.size == None && a.sizeBytes == 0
  {
    AppItem(id, name, path, status, false, false, None, 0)
  }

  /** The custom `==`. */
  predicate Same(a: AppItem, b: AppItem)
  {
    a.id == b.id && a.name == b.name && a.status == b.status &&
    a.isRunning == b.isRunning && a.size == b.size && a.sizeBytes == b.sizeBytes
  }

  /** `==` holds exactly when the items agree on everything except `path` and
    * `isSystemApp`. */
  lemma SameIgnoresLocation(a: AppItem, b: AppItem)
    ensures Same(a, b) <==> a.(path := b.path, isSystemApp := b.isSystemApp) == b
  {
  }

  datatype AppMoverError =
    | PermissionDenied(inner: OsError)
    | GeneralError(inner: OsError)
    | AppIsRunning

  const PermissionDeniedText: string :=
    "权限不足。" + "请前往“系统设置 > 隐私与安全性 > 完全磁盘访问权限”，允许 AppPorts 访问磁盘，然后重启应用。"
  const AppIsRunningText: string := "该应用正在运行。" + "请先退出应用，然后再试。"

  /** `errorDescription`. */
  function ErrorDescription(e: AppMoverError): (r: string)
    ensures e.GeneralError? ==> r == e.inner.description
  {
    match e
    case PermissionDenied(_) => PermissionDeniedText
    case GeneralError(inner) => inner.description
    case AppIsRunning => AppIsRunningText
  }

  /** `permissionDenied` and `appIsRunning` read the same whatever error is
    * wrapped, and differently from each other. */
  lemma FixedDescriptions(e1: OsError, e2: OsError)
    ensures ErrorDescription(PermissionDenied(e1)) == ErrorDescription(PermissionDenied(e2))
    ensures ErrorDescription(PermissionDenied(e1)) != ErrorDescription(AppIsRunning)
  {
    assert PermissionDeniedText[0] == '权';
    assert AppIsRunningText[0] == '该';
  }
}
