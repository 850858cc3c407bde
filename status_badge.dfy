/**
 * The badge shown beside every row (`StatusBadge.config`): one caption, one
 * symbol and one colour, picked by a fixed priority over the row's status
 * and flags.
 */
module StatusBadge {
  import opened AppModels

  datatype Color = Green | Yellow | Purple | Gray | Pink | Blue | Orange | Secondary

  datatype Badge = Badge(text: string, icon: string, color: Color)

  const LinkedBadge := Badge(Linked, "link", Green)
  const PartialBadge := Badge(PartiallyLinked, "link.badge.plus", Yellow)
  const RunningBadge := Badge("运行中", "play.fill", Purple)
  const SystemBadge := Badge("系统", "lock.fill", Gray)
  const IOSBadge := Badge("非原生", "iphone", Pink)
  const StoreBadge := Badge("商店", "applelogo", Blue)
  const ExternalBadge := Badge(External, "externaldrive", Orange)
  const UnlinkedBadge := Badge(Unlinked, "externaldrive.badge.xmark", Orange)
  const LocalBadge := Badge(Local, "macmini", Secondary)

  /** `config`: the first condition that holds picks the badge. */
  function Config(app: AppItem): Badge
  {
    if app.status == Linked then LinkedBadge
    else if app.status == PartiallyLinked then PartialBadge
    else if app.isRunning then RunningBadge
    else if app.isSystemApp then SystemBadge
    else if app.isIOSApp then IOSBadge
    else if app.isAppStoreApp then StoreBadge
    else if app.status == External then ExternalBadge
    else if app.status == Unlinked then UnlinkedBadge
    else LocalBadge
  }

  /** The nine badges a row can get. */
  const AllBadges: seq<Badge> :=
    [LinkedBadge, PartialBadge, RunningBadge, SystemBadge, IOSBadge, StoreBadge,
     ExternalBadge, UnlinkedBadge, LocalBadge]

  /** The two link statuses win over every flag; being running wins over
    * the system, iOS and App Store flags; iOS wins over App Store; the
    * external and unlinked badges appear only when no flag is set; every
    * other row is shown as local, so every row gets one of the nine
    * badges. */
  lemma ConfigPriority(app: AppItem)
    ensures app.status == Linked ==> Config(app) == LinkedBadge
    ensures app.status == PartiallyLinked ==> Config(app) == PartialBadge
    ensures app.status != Linked && app.status != PartiallyLinked && app.isRunning ==>
      Config(app) == RunningBadge
    ensures app.status != Linked && app.status != PartiallyLinked && !app.isRunning && !app.isSystemApp && app.isIOSApp ==>
      Config(app) == IOSBadge
    ensures Config(app) == ExternalBadge || Config(app) == UnlinkedBadge <==>
      (app.status == External || app.status == Unlinked) &&
      !app.isRunning && !app.isSystemApp && !app.isIOSApp && !app.isAppStoreApp
    ensures Config(app) == LocalBadge <==>
      app.status !in {Linked, PartiallyLinked, External, Unlinked} &&
      !app.isRunning && !app.isSystemApp && !app.isIOSApp && !app.isAppStoreApp
    ensures Config(app) in AllBadges
  {
    LinkStatusesDiffer();
  }

  /** The four status strings the badge tests are pairwise different. */
  lemma LinkStatusesDiffer()
    ensures Linked != PartiallyLinked && Linked != External && Linked != Unlinked
    ensures PartiallyLinked != External && PartiallyLinked != Unlinked && External != Unlinked
    ensures Linked != Local && PartiallyLinked != Local && External != Local && Unlinked != Local
  {
    assert Linked[0] != PartiallyLinked[0] && Linked[0] != External[0] && Linked[0] != Unlinked[0];
    assert PartiallyLinked[0] != External[0] && PartiallyLinked[0] != Unlinked[0] && External[0] != Unlinked[0];
    assert Linked[0] != Local[0] && PartiallyLinked[0] != Local[0] && External[0] != Local[0] && Unlinked[0] != Local[0];
  }
}
