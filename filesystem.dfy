/**
 * The part of the file system the application touches, as a value: every
 * item by path, seen the way `lstat` sees it (symbolic links not followed),
 * with the Foundation `FileManager` calls used by the application as
 * functions from one state to the next. Failures the platform can raise on
 * its own (missing item, existing destination, missing parent) are decided
 * from the state; failures it cannot be predicted to raise (permissions,
 * full disks, I/O errors) are supplied by the caller as a `Fault`.
 */
module FileSystem {
  import opened Outcomes
  import opened Text

  /** A path as its components below the root directory `/`. */
  type Path = seq<string>

  type Bytes = seq<bv8>

  /** One item as `lstat` reports it. `meta` stands for the attributes that
    * `attributesOfItem` returns and `createDirectory(attributes:)` applies. */
  datatype Node =
    | File(size: nat)
    | Dir(meta: nat, xattrs: map<Bytes, Bytes>)
    | Link(target: string)

  /** Every item by path. The root is an implicit directory and never a key. */
  type FS = map<Path, Node>

  function Parent(p: Path): (r: Path)
    ensures p != [] ==> |r| == |p| - 1 && r <= p
  {
    if p == [] then [] else p[..|p| - 1]
  }

  predicate IsDir(fs: FS, p: Path)
  {
    p == [] || (p in fs && fs[p].Dir?)
  }

  predicate IsLink(fs: FS, p: Path)
  {
    p in fs && fs[p].Link?
  }

  /** Every item hangs below a directory. */
  ghost predicate WellFormed(fs: FS)
  {
    forall p {:trigger HangsBelowDir(fs, p)} :: p in fs ==> HangsBelowDir(fs, p)
  }

  predicate HangsBelowDir(fs: FS, p: Path)
  {
    p != [] && IsDir(fs, Parent(p))
  }

  // ----- path text -----

  predicate ValidName(n: string)
  {
    n != [] && '/' !in n
  }

  predicate ValidPath(p: Path)
  {
    forall i :: 0 <= i < |p| ==> ValidName(p[i])
  }

  /** `URL.path` of an absolute file URL. */
  function PathString(p: Path): (r: string)
    ensures r != [] && r[0] == '/'
  {
    "/" + Join(p, "/")
  }

  /** The components of a path text, empty components dropped. */
  function ParsePath(s: string): Path
  {
    SplitNonEmpty(s, '/')
  }

  lemma ParsePathString(p: Path)
    requires ValidPath(p)
    ensures ParsePath(PathString(p)) == p
  {
    if p == [] {
      assert PathString(p) == "/";
      assert SplitOn("/", '/') == ["", ""];
    } else {
      SplitJoin([""] + p, '/');
      assert Join([""] + p, "/") == PathString(p);
      NonEmptyOfValid(p);
    }
  }

  lemma NonEmptyOfValid(p: Path)
    requires ValidPath(p)
    ensures NonEmpty([""] + p) == p
    ensures NonEmpty(p) == p
  {
    assert ([""] + p)[1..] == p;
    ValidKept(p);
  }

  lemma {:induction false} ValidKept(p: Path)
    requires ValidPath(p)
    ensures NonEmpty(p) == p
  {
    if p != [] {
      ValidKept(p[1..]);
      assert [p[0]] + p[1..] == p;
    }
  }

  /** The path a symbolic link at `at` storing `target` refers to: absolute
    * targets from the root, relative ones from the link's directory. */
  function Resolve(at: Path, target: string): Path
  {
    if target != [] && target[0] == '/' then ParsePath(target)
    else Parent(at) + ParsePath(target)
  }

  /** The most links one lookup follows (`MAXSYMLINKS`). */
  const MaxLinkHops: nat := 32

  /** Path lookup: `done` is the part already found to be real directories,
    * `rest` what is left to look up. Links met on the way are followed, the
    * last one only when `followLast`; `None` when a component is missing,
    * is not a directory, or too many links were followed. */
  function Walk(fs: FS, done: Path, rest: Path, followLast: bool, hops: nat): Option<Path>
    decreases hops, |rest|
  {
    if rest == [] then Some(done)
    else
      var q := done + [rest[0]];
      if q !in fs then None
      else match fs[q]
        case Link(target) =>
          if |rest| == 1 && !followLast then Some(q)
          else if hops == 0 then None
          else Walk(fs, [], Resolve(q, target) + rest[1..], followLast, hops - 1)
        case File(_) => if |rest| == 1 then Some(q) else None
        case Dir(_, _) => Walk(fs, q, rest[1..], followLast, hops)
  }

  /** The item `p` refers to once every link is followed (`stat`). */
  function Target(fs: FS, p: Path): Option<Path>
  {
    Walk(fs, [], p, true, MaxLinkHops)
  }

  /** `fileExists(atPath:)`: the lookup with every link followed succeeds. */
  predicate Exists(fs: FS, p: Path)
  {
    Target(fs, p).Some?
  }

  lemma ParentOfAppend(a: Path, b: Path)
    requires b != []
    ensures Parent(a + b) == a + Parent(b)
  {
    assert (a + b)[..|a + b| - 1] == a + b[..|b| - 1];
  }

  lemma ParentIsDir(fs: FS, p: Path)
    requires WellFormed(fs) && p in fs
    ensures p != [] && IsDir(fs, Parent(p))
  {
    assert HangsBelowDir(fs, p);
  }

  /** In a well-formed state, the ancestors of an item are directories. */
  lemma {:induction false} AncestorsAreDirs(fs: FS, p: Path, k: Path)
    requires WellFormed(fs) && p in fs && k < p
    ensures IsDir(fs, k)
    decreases |p|
  {
    ParentIsDir(fs, p);
    if k != Parent(p) {
      assert k < Parent(p) by {
        assert |k| < |Parent(p)|;
        assert Parent(p) == p[..|p| - 1];
      }
      AncestorsAreDirs(fs, Parent(p), k);
    }
  }

  /** One lookup step through a real directory. */
  lemma WalkThroughDir(fs: FS, done: Path, rest: Path, followLast: bool, hops: nat)
    requires rest != [] && IsDir(fs, done + [rest[0]]) && done + [rest[0]] != []
    ensures Walk(fs, done, rest, followLast, hops)
         == Walk(fs, done + [rest[0]], rest[1..], followLast, hops)
  {
  }

  /** The last lookup step, onto an item that is not followed further. */
  lemma WalkLast(fs: FS, done: Path, name: string, followLast: bool, hops: nat)
    requires done + [name] in fs
    requires followLast ==> !fs[done + [name]].Link?
    ensures Walk(fs, done, [name], followLast, hops) == Some(done + [name])
  {
    var q := done + [name];
    if fs[q].Dir? {
      assert [name][1..] == [];
    }
  }

  lemma {:induction false} WalkDirect(fs: FS, done: Path, rest: Path, followLast: bool, hops: nat)
    requires WellFormed(fs) && rest != [] && done + rest in fs
    requires followLast ==> !fs[done + rest].Link?
    ensures Walk(fs, done, rest, followLast, hops) == Some(done + rest)
    decreases |rest|
  {
    var q := done + [rest[0]];
    if |rest| == 1 {
      assert rest == [rest[0]];
      WalkLast(fs, done, rest[0], followLast, hops);
    } else {
      assert q < done + rest by {
        assert (done + rest)[..|q|] == q;
      }
      AncestorsAreDirs(fs, done + rest, q);
      assert q + rest[1..] == done + rest;
      calc {
        Walk(fs, done, rest, followLast, hops);
        { WalkThroughDir(fs, done, rest, followLast, hops); }
        Walk(fs, q, rest[1..], followLast, hops);
        { WalkDirect(fs, q, rest[1..], followLast, hops); }
        Some(q + rest[1..]);
      }
    }
  }

  /** In a well-formed state, an item that is not a link exists. */
  lemma ExistsDirect(fs: FS, p: Path)
    requires WellFormed(fs) && p in fs && !fs[p].Link?
    ensures Exists(fs, p) && Target(fs, p) == Some(p)
  {
    ParentIsDir(fs, p);
    assert [] + p == p;
    WalkDirect(fs, [], p, true, MaxLinkHops);
  }

  /** Looking up a well-formed path reaches its last component directly. */
  lemma {:induction false} WalkToLast(fs: FS, done: Path, rest: Path, hops: nat)
    requires WellFormed(fs) && |rest| >= 1 && done + rest in fs
    ensures Walk(fs, done, rest, true, hops)
         == Walk(fs, done + rest[..|rest| - 1], [rest[|rest| - 1]], true, hops)
    decreases |rest|
  {
    if |rest| > 1 {
      var q := done + [rest[0]];
      assert q < done + rest by {
        assert (done + rest)[..|q|] == q;
      }
      AncestorsAreDirs(fs, done + rest, q);
      var tail := rest[1..];
      assert q + tail == done + rest;
      var front, last := q + tail[..|tail| - 1], tail[|tail| - 1];
      assert front == done + rest[..|rest| - 1];
      assert last == rest[|rest| - 1];
      WalkThroughDir(fs, done, rest, true, hops);
      WalkToLast(fs, q, tail, hops);
    } else {
      assert rest[..0] == [] && done + [] == done && rest == [rest[0]];
    }
  }

  /** Following a link whose stored target is the absolute path `t`. */
  lemma FollowLink(fs: FS, done: Path, name: string, t: Path, hops: nat, h: nat)
    requires done + [name] in fs && fs[done + [name]] == Link(PathString(t))
    requires ValidPath(t) && hops == h + 1
    ensures Walk(fs, done, [name], true, hops) == Walk(fs, [], t, true, h)
  {
    var q := done + [name];
    LinkStep(fs, done, name, PathString(t), h);
    ParsePathString(t);
    assert Resolve(q, PathString(t)) + [name][1..] == t;
  }

  /** A lookup step onto a link that is followed. */
  lemma LinkStep(fs: FS, done: Path, name: string, target: string, h: nat)
    requires done + [name] in fs && fs[done + [name]] == Link(target)
    ensures Walk(fs, done, [name], true, h + 1)
         == Walk(fs, [], Resolve(done + [name], target) + [name][1..], true, h)
  {
  }

  /** In a well-formed state, a link to the absolute path of an item that is
    * not a link exists and leads to that item. */
  lemma ExistsThroughLink(fs: FS, p: Path, t: Path)
    requires WellFormed(fs) && p in fs && fs[p] == Link(PathString(t))
    requires ValidPath(t) && t in fs && !fs[t].Link?
    ensures Exists(fs, p) && Target(fs, p) == Some(t)
  {
    WalkThroughLink(fs, p, t, MaxLinkHops);
  }

  lemma WalkThroughLink(fs: FS, p: Path, t: Path, hops: nat)
    requires WellFormed(fs) && p in fs && fs[p] == Link(PathString(t))
    requires ValidPath(t) && t in fs && !fs[t].Link? && hops > 0
    ensures Walk(fs, [], p, true, hops) == Some(t)
  {
    var h: nat := hops - 1;
    assert hops == h + 1;
    ParentIsDir(fs, p);
    var done := p[..|p| - 1];
    var name := p[|p| - 1];
    assert done + [name] == p;
    assert Walk(fs, [], p, true, hops) == Walk(fs, done, [name], true, hops) by {
      assert [] + p == p;
      assert [] + p[..|p| - 1] == done;
      WalkToLast(fs, [], p, hops);
    }
    assert Walk(fs, done, [name], true, hops) == Walk(fs, [], t, true, h) by {
      FollowLink(fs, done, name, t, hops, h);
    }
    assert Walk(fs, [], t, true, h) == Some(t) by {
      ParentIsDir(fs, t);
      assert [] + t == t;
      WalkDirect(fs, [], t, true, h);
    }
  }

  // ----- errors -----

  /** An `NSError`: domain, code and `localizedDescription`. */
  datatype OsError = OsError(domain: string, code: int, description: string)

  const CocoaDomain: string := "NSCocoaErrorDomain"
  const NoSuchFileCode: int := 4            // NSFileNoSuchFileError
  const ReadNoPermissionCode: int := 257    // NSFileReadNoPermissionError
  const ReadNoSuchFileCode: int := 260      // NSFileReadNoSuchFileError
  const WriteUnknownCode: int := 512        // NSFileWriteUnknownError
  const WriteNoPermissionCode: int := 513   // NSFileWriteNoPermissionError
  const WriteFileExistsCode: int := 516     // NSFileWriteFileExistsError

  function CocoaError(code: int): (e: OsError)
    ensures e.domain == CocoaDomain && e.code == code
  {
    OsError(CocoaDomain, code,
      if code == NoSuchFileCode || code == ReadNoSuchFileCode then "The file doesn't exist."
      else if code == WriteFileExistsCode then "The file already exists."
      else if code == ReadNoPermissionCode || code == WriteNoPermissionCode
      then "You don't have permission."
      else "The operation couldn't be completed.")
  }

  /** A failure injected into one call: the error it reports and, for calls
    * that work item by item, the items (relative to the one named in the
    * call) already handled when it stopped. */
  datatype Fault = Fault(err: OsError, done: set<Path>)

  /** State after a call and the error it threw, if any. */
  datatype Effect = Effect(fs: FS, err: Option<OsError>)

  // ----- subtrees -----

  /** Items at or below `p`, keyed by their path relative to `p`. */
  function Subtree(fs: FS, p: Path): (t: map<Path, Node>)
    ensures forall r :: r in t <==> p + r in fs
    ensures forall r :: r in t ==> t[r] == fs[p + r]
  {
    var rel := set k | k in fs && p <= k :: k[|p|..];
    assert forall r :: p + r in fs ==> r in rel by {
      forall r | p + r in fs ensures r in rel {
        assert (p + r)[|p|..] == r;
      }
    }
    map r | r in rel && p + r in fs :: fs[p + r]
  }

  /** The state without `p` and everything below it. */
  function RemoveTree(fs: FS, p: Path): (r: FS)
    ensures forall k :: k in r <==> k in fs && !(p <= k)
    ensures forall k :: k in r ==> r[k] == fs[k]
  {
    map k | k in fs && !(p <= k) :: fs[k]
  }

  /** The state with the items of `t` placed at `dst`. */
  function Graft(fs: FS, dst: Path, t: map<Path, Node>): (r: FS)
    ensures forall r' :: r' in t ==> dst + r' in r && r[dst + r'] == t[r']
    ensures forall k :: k in fs && !(dst <= k) ==> k in r && r[k] == fs[k]
    ensures forall k :: k in r ==> k in fs || dst <= k
    ensures forall r' :: dst + r' in r ==> r' in t || dst + r' in fs
  {
    var keys := set r' | r' in t :: dst + r';
    var placed := map k | k in keys && dst <= k && k[|dst|..] in t :: t[k[|dst|..]];
    assert forall r' :: r' in t ==> dst + r' in placed && placed[dst + r'] == t[r'] by {
      forall r' | r' in t ensures dst + r' in placed && placed[dst + r'] == t[r'] {
        assert (dst + r')[|dst|..] == r';
      }
    }
    fs + placed
  }

  /** The items of `t` whose every ancestor within `t` has been handled. */
  function Handled(t: map<Path, Node>, done: set<Path>): map<Path, Node>
  {
    map r | r in t && forall j :: 0 <= j <= |r| ==> r[..j] in done :: t[r]
  }

  /** Whether `k` lies inside one of the handled items strictly below `p`. */
  predicate Erased(p: Path, done: set<Path>, k: Path)
  {
    exists r :: r in done && r != [] && p + r <= k
  }

  // ----- the FileManager calls -----

  /** `removeItem(at:)`: the item and, for a directory, everything below it.
    * A failure part-way leaves the handled items removed. */
  function AfterRemove(fs: FS, p: Path, fault: Option<Fault>): (e: Effect)
    ensures e.err.None? <==> p in fs && fault.None?
    ensures e.err.None? ==> e.fs == RemoveTree(fs, p)
  {
    if p !in fs then Effect(fs, Some(CocoaError(NoSuchFileCode)))
    else match fault
      case None => Effect(RemoveTree(fs, p), None)
      case Some(f) =>
        Effect(map k | k in fs && !Erased(p, f.done, k) :: fs[k], Some(f.err))
  }

  /** A failed removal has removed the items it handled and kept every item
    * outside the removed one. */
  lemma RemovedPartly(fs: FS, p: Path, fault: Option<Fault>, k: Path)
    requires p in fs && fault.Some?
    ensures Erased(p, fault.value.done, k) ==> k !in AfterRemove(fs, p, fault).fs
    ensures k in fs && !(p <= k) ==> k in AfterRemove(fs, p, fault).fs
  {
    if Erased(p, fault.value.done, k) {
      var r :| r in fault.value.done && r != [] && p + r <= k;
      assert p <= p + r;
    }
  }

  /** The error `copyItem`/`moveItem` raise before doing anything. */
  function TransferError(fs: FS, src: Path, dst: Path): Option<OsError>
  {
    if src !in fs then Some(CocoaError(ReadNoSuchFileCode))
    else if dst == [] || dst in fs then Some(CocoaError(WriteFileExistsCode))
    else if !IsDir(fs, Parent(dst)) then Some(CocoaError(NoSuchFileCode))
    else if src <= dst then Some(CocoaError(WriteUnknownCode))
    else None
  }

  /** What a transfer that raises nothing needs. */
  lemma TransferOk(fs: FS, src: Path, dst: Path)
    requires TransferError(fs, src, dst).None?
    ensures src in fs && dst != [] && dst !in fs && IsDir(fs, Parent(dst)) && !(src <= dst)
  {
  }

  /** `copyItem(at:to:)`: a copy of the item, links copied as links. A failure
    * part-way leaves the handled part of the copy in place. */
  function AfterCopy(fs: FS, src: Path, dst: Path, fault: Option<Fault>): (e: Effect)
    ensures e.err.None? <==> TransferError(fs, src, dst).None? && fault.None?
    ensures e.err.None? ==> e.fs == Graft(fs, dst, Subtree(fs, src))
  {
    match TransferError(fs, src, dst)
    case Some(err) => Effect(fs, Some(err))
    case None =>
      match fault
      case None => Effect(Graft(fs, dst, Subtree(fs, src)), None)
      case Some(f) => Effect(Graft(fs, dst, Handled(Subtree(fs, src), f.done)), Some(f.err))
  }

  /** A copy changes nothing outside its destination, and a successful one
    * places the source item itself there. */
  lemma CopyStaysInside(fs: FS, src: Path, dst: Path, fault: Option<Fault>)
    ensures var e := AfterCopy(fs, src, dst, fault);
      forall k :: !(dst <= k) ==> (k in fs <==> k in e.fs) && (k in fs ==> e.fs[k] == fs[k])
    ensures var e := AfterCopy(fs, src, dst, fault);
      e.err.None? ==> dst in e.fs && e.fs[dst] == fs[src]
  {
    assert dst + [] == dst && src + [] == src;
  }

  /** `moveItem(at:to:)`: the item and everything below it now at `dst`.
    * A failure part-way leaves the source in place and the handled part of
    * the copy at the destination. */
  function AfterMove(fs: FS, src: Path, dst: Path, fault: Option<Fault>): (e: Effect)
    ensures e.err.None? <==> TransferError(fs, src, dst).None? && fault.None?
    ensures e.err.None? ==> e.fs == RemoveTree(Graft(fs, dst, Subtree(fs, src)), src)
  {
    match TransferError(fs, src, dst)
    case Some(err) => Effect(fs, Some(err))
    case None =>
      match fault
      case None => Effect(RemoveTree(Graft(fs, dst, Subtree(fs, src)), src), None)
      case Some(f) => Effect(Graft(fs, dst, Handled(Subtree(fs, src), f.done)), Some(f.err))
  }

  /** `createDirectory(at:withIntermediateDirectories: false, attributes:)`. */
  function AfterCreateDirectory(fs: FS, p: Path, meta: nat, fault: Option<Fault>): (e: Effect)
    ensures e.err.None? <==> p != [] && p !in fs && IsDir(fs, Parent(p)) && fault.None?
    ensures e.err.None? ==> e.fs == fs[p := Dir(meta, map[])]
    ensures e.err.Some? ==> e.fs == fs
  {
    if p == [] || p in fs then Effect(fs, Some(CocoaError(WriteFileExistsCode)))
    else if !IsDir(fs, Parent(p)) then Effect(fs, Some(CocoaError(NoSuchFileCode)))
    else if fault.Some? then Effect(fs, Some(fault.value.err))
    else Effect(fs[p := Dir(meta, map[])], None)
  }

  /** `createDirectory(at:withIntermediateDirectories: true, attributes: nil)`:
    * succeeds without change when the directory is already there. */
  function AfterCreateDirectories(fs: FS, p: Path, fault: Option<Fault>): (e: Effect)
    ensures e.err.None? ==> IsDir(e.fs, p)
    ensures e.err.None? ==> forall k :: k in fs ==> k in e.fs && e.fs[k] == fs[k]
    ensures IsDir(fs, p) && fault.None? ==> e == Effect(fs, None)
    decreases |p|
  {
    if fault.Some? then Effect(fs, Some(fault.value.err))
    else if IsDir(fs, p) then Effect(fs, None)
    else if p in fs then Effect(fs, Some(CocoaError(WriteFileExistsCode)))
    else
      var up := AfterCreateDirectories(fs, Parent(p), None);
      if up.err.Some? then up
      else Effect(up.fs[p := Dir(0, map[])], None)
  }

  /** `createSymbolicLink(at:withDestinationURL:)`, storing the target text. */
  function AfterCreateLink(fs: FS, p: Path, target: string, fault: Option<Fault>): (e: Effect)
    ensures e.err.None? <==> p != [] && p !in fs && IsDir(fs, Parent(p)) && fault.None?
    ensures e.err.None? ==> e.fs == fs[p := Link(target)]
    ensures e.err.Some? ==> e.fs == fs
  {
    if p == [] || p in fs then Effect(fs, Some(CocoaError(WriteFileExistsCode)))
    else if !IsDir(fs, Parent(p)) then Effect(fs, Some(CocoaError(NoSuchFileCode)))
    else if fault.Some? then Effect(fs, Some(fault.value.err))
    else Effect(fs[p := Link(target)], None)
  }

  /** `write(to:atomically: true)` of `size` bytes: replaces any file or link. */
  function AfterWrite(fs: FS, p: Path, size: nat, fault: Option<Fault>): (e: Effect)
    ensures e.err.None? <==> !IsDir(fs, p) && IsDir(fs, Parent(p)) && fault.None?
    ensures e.err.None? ==> e.fs == fs[p := File(size)]
    ensures e.err.Some? ==> e.fs == fs
  {
    if IsDir(fs, p) then Effect(fs, Some(CocoaError(WriteUnknownCode)))
    else if !IsDir(fs, Parent(p)) then Effect(fs, Some(CocoaError(NoSuchFileCode)))
    else if fault.Some? then Effect(fs, Some(fault.value.err))
    else Effect(fs[p := File(size)], None)
  }

  // ----- well-formedness is kept by every call -----

  lemma {:induction false} NothingBelowMissing(fs: FS, p: Path, k: Path)
    requires WellFormed(fs) && p != [] && p !in fs && p <= k
    ensures k !in fs
    decreases |k|
  {
    if k in fs && k != p {
      ParentIsDir(fs, k);
      assert Parent(k) in fs && p <= Parent(k) by {
        assert |p| <= |Parent(k)|;
        assert Parent(k) != [];
      }
      NothingBelowMissing(fs, p, Parent(k));
    }
  }

  /** Deleting a tree grafted where nothing stood gives the state back. */
  lemma RemoveGraftRestores(fs: FS, dst: Path, t: map<Path, Node>)
    requires forall k :: k in fs ==> !(dst <= k)
    ensures RemoveTree(Graft(fs, dst, t), dst) == fs
  {
    var rb := RemoveTree(Graft(fs, dst, t), dst);
    assert forall k :: k in rb <==> k in fs;
  }

  lemma RemoveTreeWellFormed(fs: FS, p: Path)
    requires WellFormed(fs)
    ensures WellFormed(RemoveTree(fs, p))
  {
    var r := RemoveTree(fs, p);
    forall k | k in r ensures HangsBelowDir(r, k) {
      ParentIsDir(fs, k);
      if Parent(k) != [] {
        assert !(p <= Parent(k));
      }
    }
  }

  lemma GraftWellFormed(fs: FS, src: Path, dst: Path)
    requires WellFormed(fs) && TransferError(fs, src, dst).None?
    ensures WellFormed(Graft(fs, dst, Subtree(fs, src)))
  {
    var t := Subtree(fs, src);
    var r := Graft(fs, dst, t);
    forall k | k in r ensures HangsBelowDir(r, k) {
      if dst <= k {
        GraftedParent(fs, src, dst, k);
      } else {
        ParentIsDir(fs, k);
        if Parent(k) != [] {
          assert !(dst <= Parent(k));
        }
      }
    }
  }

  lemma GraftedParent(fs: FS, src: Path, dst: Path, k: Path)
    requires WellFormed(fs) && TransferError(fs, src, dst).None?
    requires dst <= k && k in Graft(fs, dst, Subtree(fs, src))
    ensures k != [] && IsDir(Graft(fs, dst, Subtree(fs, src)), Parent(k))
  {
    var t := Subtree(fs, src);
    var rel := k[|dst|..];
    assert k == dst + rel;
    if rel != [] {
      assert k !in fs by { NothingBelowMissing(fs, dst, k); }
      assert rel in t;
      ParentIsDir(fs, src + rel);
      ParentIsDir(fs, src);
      ParentOfAppend(dst, rel);
      ParentOfAppend(src, rel);
      assert Parent(rel) in t;
    } else {
      assert Parent(k) == Parent(dst);
    }
  }

  lemma CopyKeepsWellFormed(fs: FS, src: Path, dst: Path)
    requires WellFormed(fs)
    ensures WellFormed(AfterCopy(fs, src, dst, None).fs)
    ensures WellFormed(AfterMove(fs, src, dst, None).fs)
  {
    if TransferError(fs, src, dst).None? {
      GraftWellFormed(fs, src, dst);
      RemoveTreeWellFormed(Graft(fs, dst, Subtree(fs, src)), src);
    }
  }

  // ----- directory listings -----

  /** What `contentsOfDirectory(at:)` reports for each directory, in the
    * platform's order; a directory in `denied` cannot be read. */
  datatype Lister = Lister(entries: map<Path, seq<string>>, denied: set<Path>)

  /** The names listed for `p`, or the error the listing throws. */
  function List(fs: FS, lister: Lister, p: Path): Result<seq<string>, OsError>
  {
    if p in lister.denied then Err(CocoaError(ReadNoPermissionCode))
    else if !IsDir(fs, p) then Err(CocoaError(ReadNoSuchFileCode))
    else if p in lister.entries then Ok(lister.entries[p])
    else Ok([])
  }

  /** The listing matches the state: it names every child of `p` once. */
  ghost predicate ListsChildren(fs: FS, lister: Lister, p: Path)
  {
    var names := if p in lister.entries then lister.entries[p] else [];
    (forall i, j :: 0 <= i < j < |names| ==> names[i] != names[j]) &&
    (forall n :: n in names <==> p + [n] in fs)
  }

  /** Names the `.skipsHiddenFiles` option leaves out. */
  predicate Hidden(name: string)
  {
    name != [] && name[0] == '.'
  }

  function Visible(names: seq<string>): (r: seq<string>)
    ensures forall i :: 0 <= i < |r| ==> !Hidden(r[i]) && r[i] in names
    ensures forall n :: n in names && !Hidden(n) ==> n in r
  {
    if names == [] then []
    else if Hidden(names[0]) then Visible(names[1..])
    else [names[0]] + Visible(names[1..])
  }

  /** A bound on the length of every listed directory path. */
  ghost function MaxLen(keys: set<Path>): (r: nat)
    ensures forall k :: k in keys ==> |k| <= r
    decreases keys
  {
    if keys == {} then 0
    else
      var k :| k in keys;
      var m := MaxLen(keys - {k});
      if |k| > m then |k| else m
  }

  /** Strictly smaller for every listed sub-directory: walks terminate. */
  ghost function Depth(lister: Lister, p: Path): nat
  {
    var b := MaxLen(lister.entries.Keys);
    if |p| <= b then b + 1 - |p| else 0
  }

  lemma DepthDecreases(lister: Lister, p: Path, n: string)
    requires p + [n] in lister.entries
    ensures Depth(lister, p + [n]) < Depth(lister, p)
  {
  }

  /** The items a `FileManager.DirectoryEnumerator` visits below `p`, in
    * order: each listed item, then (for a directory) what lies below it.
    * Unreadable directories are skipped, links are not followed. */
  function Enumerate(fs: FS, lister: Lister, p: Path, skipHidden: bool): seq<Path>
    decreases Depth(lister, p), 1
  {
    match List(fs, lister, p)
    case Err(_) => []
    case Ok(names) => EnumerateNames(fs, lister, p, names, skipHidden)
  }

  function EnumerateNames(fs: FS, lister: Lister, p: Path, names: seq<string>,
                          skipHidden: bool): seq<Path>
    decreases Depth(lister, p), 0, |names|
  {
    if names == [] then []
    else
      var c := p + [names[0]];
      var here :=
        if skipHidden && Hidden(names[0]) then []
        else [c] + (if IsDir(fs, c) && c in lister.entries
                    then Enumerate(fs, lister, c, skipHidden) else []);
      here + EnumerateNames(fs, lister, p, names[1..], skipHidden)
  }

  /** No component below `root` is hidden. */
  predicate VisibleBelow(root: Path, c: Path)
    requires root <= c
  {
    forall i :: |root| <= i < |c| ==> !Hidden(c[i])
  }

  /** The enumerator only visits items strictly below its root and, when
    * skipping hidden files, never enters or reports a hidden item. */
  lemma {:induction false} EnumerateBelow(fs: FS, lister: Lister, p: Path, skipHidden: bool)
    ensures forall c :: c in Enumerate(fs, lister, p, skipHidden) ==>
      p < c && (skipHidden ==> VisibleBelow(p, c))
    decreases Depth(lister, p), 1
  {
    if List(fs, lister, p).Ok? {
      EnumerateNamesBelow(fs, lister, p, List(fs, lister, p).value, skipHidden);
    }
  }

  lemma {:induction false} EnumerateNamesBelow(fs: FS, lister: Lister, p: Path,
                                               names: seq<string>, skipHidden: bool)
    ensures forall c :: c in EnumerateNames(fs, lister, p, names, skipHidden) ==>
      p < c && (skipHidden ==> VisibleBelow(p, c))
    decreases Depth(lister, p), 0, |names|
  {
    if names != [] {
      var c := p + [names[0]];
      var below := if IsDir(fs, c) && c in lister.entries
                   then Enumerate(fs, lister, c, skipHidden) else [];
      var rest := EnumerateNames(fs, lister, p, names[1..], skipHidden);
      EnumerateNamesBelow(fs, lister, p, names[1..], skipHidden);
      if !(skipHidden && Hidden(names[0])) {
        if IsDir(fs, c) && c in lister.entries {
          EnumerateBelow(fs, lister, c, skipHidden);
        }
        forall d | d in [c] + below
          ensures p < d && (skipHidden ==> VisibleBelow(p, d))
        {
          if d == c {
            assert d[|p|] == names[0];
          } else {
            assert d in Enumerate(fs, lister, c, skipHidden);
            assert c < d;
            assert d[..|p|] == c[..|p|] == p;
            assert d[|p|] == c[|p|] == names[0];
            if skipHidden {
              forall i | |p| <= i < |d| ensures !Hidden(d[i]) {
                if i > |p| {
                  assert VisibleBelow(c, d);
                }
              }
            }
          }
        }
        assert EnumerateNames(fs, lister, p, names, skipHidden) == ([c] + below) + rest;
      } else {
        assert EnumerateNames(fs, lister, p, names, skipHidden) == rest;
      }
    }
  }

  /** The volume the application changes through `FileManager.default`. */
  class Volume {
    var fs: FS

    constructor (initial: FS)
      ensures fs == initial
    {
      fs := initial;
    }

    method RemoveItem(p: Path, fault: Option<Fault>) returns (err: Option<OsError>)
      modifies this
      ensures Effect(fs, err) == AfterRemove(old(fs), p, fault)
    {
      var e := AfterRemove(fs, p, fault);
      fs, err := e.fs, e.err;
    }

    method CopyItem(src: Path, dst: Path, fault: Option<Fault>) returns (err: Option<OsError>)
      modifies this
      ensures Effect(fs, err) == AfterCopy(old(fs), src, dst, fault)
    {
      var e := AfterCopy(fs, src, dst, fault);
      fs, err := e.fs, e.err;
    }

    method MoveItem(src: Path, dst: Path, fault: Option<Fault>) returns (err: Option<OsError>)
      modifies this
      ensures Effect(fs, err) == AfterMove(old(fs), src, dst, fault)
    {
      var e := AfterMove(fs, src, dst, fault);
      fs, err := e.fs, e.err;
    }

    method CreateDirectory(p: Path, meta: nat, fault: Option<Fault>) returns (err: Option<OsError>)
      modifies this
      ensures Effect(fs, err) == AfterCreateDirectory(old(fs), p, meta, fault)
    {
      var e := AfterCreateDirectory(fs, p, meta, fault);
      fs, err := e.fs, e.err;
    }

    method CreateDirectories(p: Path, fault: Option<Fault>) returns (err: Option<OsError>)
      modifies this
      ensures Effect(fs, err) == AfterCreateDirectories(old(fs), p, fault)
    {
      var e := AfterCreateDirectories(fs, p, fault);
      fs, err := e.fs, e.err;
    }

    method CreateSymbolicLink(p: Path, target: string, fault: Option<Fault>)
      returns (err: Option<OsError>)
      modifies this
      ensures Effect(fs, err) == AfterCreateLink(old(fs), p, target, fault)
    {
      var e := AfterCreateLink(fs, p, target, fault);
      fs, err := e.fs, e.err;
    }

    method Write(p: Path, size: nat, fault: Option<Fault>) returns (err: Option<OsError>)
      modifies this
      ensures Effect(fs, err) == AfterWrite(old(fs), p, size, fault)
    {
      var e := AfterWrite(fs, p, size, fault);
      fs, err := e.fs, e.err;
    }
  }
}
