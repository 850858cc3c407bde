/**
 * The progress-reporting tree copier (`AppPorts/Utils/FileCopier.swift`,
 * identical in `AppPorts/FileCopier.swift`). A copy walks the source
 * listing depth first: links are recreated with their stored target,
 * directories are created with the source's attributes, get the source's
 * extended attributes and are then entered, files are copied whole and
 * counted. Progress goes to an optional handler: once before the copy, after
 * a file whenever 5 MiB or 50 files have accumulated since the last report,
 * and once at the end.
 */
module FileCopier {
  import opened Outcomes
  import opened FileSystem

  const ProgressUpdateThreshold: int := 5 * 1024 * 1024
  const FileCountThreshold: int := 50

  /** One call of the progress handler. */
  datatype Progress = Progress(copiedBytes: int, totalBytes: int, currentFile: string)

  /** What the platform answers during a copy: directory listings; the
    * failure, if any, of the call that creates each destination path; the
    * `listxattr` name buffer of each source directory; and the attribute
    * names `setxattr` refuses. */
  datatype Env = Env(
    lister: Lister,
    faults: map<Path, Fault>,
    xattrNames: map<Path, Bytes>,
    rejected: set<Bytes>,
    hasHandler: bool)

  function FaultAt(env: Env, p: Path): Option<Fault>
  {
    if p in env.faults then Some(env.faults[p]) else None
  }

  // ----- calculateDirectorySize -----

  /** What an enumerated item adds to the total: a regular file its size;
    * a link, a directory or an item that cannot be read nothing. */
  function RegularSize(fs: FS, p: Path): nat
  {
    if p in fs && fs[p].File? then fs[p].size else 0
  }

  function SumRegular(fs: FS, items: seq<Path>): nat
  {
    if items == [] then 0
    else SumRegular(fs, items[..|items| - 1]) + RegularSize(fs, items[|items| - 1])
  }

  /** Regular-file bytes below `root`, hidden items included. */
  function TotalBytes(fs: FS, lister: Lister, root: Path): nat
  {
    SumRegular(fs, Enumerate(fs, lister, root, false))
  }

  lemma {:induction false} SumRegularAppend(fs: FS, a: seq<Path>, b: seq<Path>)
    ensures SumRegular(fs, a + b) == SumRegular(fs, a) + SumRegular(fs, b)
    decreases |b|
  {
    if b == [] {
      assert a + b == a;
    } else {
      var b' := b[..|b| - 1];
      assert (a + b)[..|a + b| - 1] == a + b';
      SumRegularAppend(fs, a, b');
    }
  }

  // ----- copyExtendedAttributes -----

  /** `String(cString:)` at `from`: the bytes up to the next NUL or the end. */
  function CString(buf: Bytes, from: nat): (name: Bytes)
    requires from <= |buf|
    ensures |name| <= |buf| - from
    decreases |buf| - from
  {
    if from == |buf| || buf[from] == 0 then []
    else [buf[from]] + CString(buf, from + 1)
  }

  /** The names met walking the buffer from `ptr`, stepping past each name
    * and its NUL. */
  function NameList(buf: Bytes, ptr: nat): seq<Bytes>
    decreases |buf| - ptr
  {
    if ptr >= |buf| then []
    else
      var name := CString(buf, ptr);
      [name] + NameList(buf, ptr + |name| + 1)
  }

  /** The buffer `listxattr` fills for the given names. */
  function EncodeNames(names: seq<Bytes>): Bytes
  {
    if names == [] then [] else names[0] + [0] + EncodeNames(names[1..])
  }

  lemma {:induction false} CStringOfEncoded(name: Bytes, rest: Bytes)
    requires 0 !in name
    ensures CString(name + [0] + rest, 0) == name
    decreases |name|
  {
    var buf := name + [0] + rest;
    if name != [] {
      CStringOfEncoded(name[1..], rest);
      CStringShift(buf, 1);
      assert buf[1..] == name[1..] + [0] + rest;
    }
  }

  /** Reading at `from + 1` in `buf` is reading at `from` in `buf[1..]`. */
  lemma {:induction false} CStringShift(buf: Bytes, from: nat)
    requires 1 <= from <= |buf|
    ensures CString(buf, from) == CString(buf[1..], from - 1)
    decreases |buf| - from
  {
    if from < |buf| && buf[from] != 0 {
      CStringShift(buf, from + 1);
    }
  }

  /** `NameList` at `ptr` only looks at the buffer from `ptr` on. */
  lemma {:induction false} NameListDrop(buf: Bytes, k: nat, ptr: nat)
    requires k <= ptr
    requires k <= |buf|
    ensures NameList(buf, ptr) == NameList(buf[k..], ptr - k)
    decreases |buf| - ptr
  {
    var tail := buf[k..];
    if ptr < |buf| {
      CStringDrop(buf, k, ptr);
      var name := CString(buf, ptr);
      var next := ptr + |name| + 1;
      calc {
        NameList(buf, ptr);
        { NameListStep(buf, ptr); }
        [name] + NameList(buf, next);
        { NameListDrop(buf, k, next); }
        [name] + NameList(tail, next - k);
        { NameListStep(tail, ptr - k); }
        NameList(tail, ptr - k);
      }
    } else {
      NameListEnd(buf, ptr);
      NameListEnd(tail, ptr - k);
    }
  }

  lemma NameListEnd(buf: Bytes, ptr: nat)
    requires ptr >= |buf|
    ensures NameList(buf, ptr) == []
  {
  }

  lemma NameListStep(buf: Bytes, ptr: nat)
    requires ptr < |buf|
    ensures NameList(buf, ptr) == [CString(buf, ptr)] + NameList(buf, ptr + |CString(buf, ptr)| + 1)
  {
  }

  /** One step of the walk: the name at `ptr` moves from the names ahead to
    * the names done. */
  lemma WalkStep(buf: Bytes, ptr: nat, done: seq<Bytes>, all: seq<Bytes>)
    requires ptr < |buf|
    requires all == done + NameList(buf, ptr)
    ensures ptr + |CString(buf, ptr)| + 1 <= |buf| + 1
    ensures all == (done + [CString(buf, ptr)]) + NameList(buf, ptr + |CString(buf, ptr)| + 1)
  {
    NameListStep(buf, ptr);
  }

  lemma {:induction false} CStringDrop(buf: Bytes, k: nat, from: nat)
    requires k <= from <= |buf|
    ensures CString(buf, from) == CString(buf[k..], from - k)
    decreases |buf| - from
  {
    if from < |buf| && buf[from] != 0 {
      CStringDrop(buf, k, from + 1);
    }
  }

  /** Walking the buffer `listxattr` fills gives back exactly its names. */
  lemma {:induction false} NameListOfEncoded(names: seq<Bytes>)
    requires forall i :: 0 <= i < |names| ==> 0 !in names[i]
    ensures NameList(EncodeNames(names), 0) == names
  {
    if names != [] {
      var buf := EncodeNames(names);
      var rest := EncodeNames(names[1..]);
      assert buf == names[0] + [0] + rest;
      CStringOfEncoded(names[0], rest);
      var step := |names[0]| + 1;
      assert buf[step..] == rest;
      calc {
        NameList(buf, 0);
        { NameListStep(buf, 0); }
        [names[0]] + NameList(buf, step);
        { NameListDrop(buf, step, step); }
        [names[0]] + NameList(rest, 0);
        { NameListOfEncoded(names[1..]); }
        [names[0]] + names[1..];
      }
    }
  }

  /** The destination attributes after copying the named ones: a name whose
    * value is missing or empty, or that `setxattr` refuses, is skipped. */
  function ApplyNames(source: map<Bytes, Bytes>, rejected: set<Bytes>, dest: map<Bytes, Bytes>,
                      names: seq<Bytes>): map<Bytes, Bytes>
  {
    if names == [] then dest
    else
      var init := names[..|names| - 1];
      var name := names[|names| - 1];
      var before := ApplyNames(source, rejected, dest, init);
      if name in source && |source[name]| > 0 && name !in rejected then before[name := source[name]]
      else before
  }

  /** Every attribute the walk sets comes from the source with its value;
    * every copyable named attribute is set; nothing else changes. */
  lemma {:induction false} ApplyNamesSpec(source: map<Bytes, Bytes>, rejected: set<Bytes>,
                                          dest: map<Bytes, Bytes>, names: seq<Bytes>)
    ensures var r := ApplyNames(source, rejected, dest, names);
      forall k :: k in r ==>
        if k in names && k in source && |source[k]| > 0 && k !in rejected
        then r[k] == source[k] else k in dest && r[k] == dest[k]
    ensures var r := ApplyNames(source, rejected, dest, names);
      forall k :: k in dest ==> k in r
  {
    if names != [] {
      var init := names[..|names| - 1];
      ApplyNamesSpec(source, rejected, dest, init);
      var r := ApplyNames(source, rejected, dest, names);
      forall k | k in r
        ensures if k in names && k in source && |source[k]| > 0 && k !in rejected
                then r[k] == source[k] else k in dest && r[k] == dest[k]
      {
        if k in init {
          assert k in names;
        }
      }
    }
  }

  /** `copyExtendedAttributes(from:to:)` on the state. */
  function XattrsCopied(env: Env, fs: FS, src: Path, dst: Path): (r: FS)
    ensures forall k :: k != dst ==> Kept(fs, r, k)
    ensures dst in r <==> dst in fs
    ensures dst in fs && fs[dst].Dir? ==> r[dst].Dir? && r[dst].meta == fs[dst].meta
  {
    var buf := if src in env.xattrNames then env.xattrNames[src] else [];
    if |buf| == 0 || !(src in fs && fs[src].Dir?) || !(dst in fs && fs[dst].Dir?) then fs
    else fs[dst := fs[dst].(xattrs := ApplyNames(fs[src].xattrs, env.rejected, fs[dst].xattrs,
                                                 NameList(buf, 0)))]
  }

  // ----- the copy, as a function of the state -----

  /** The copy state and everything the copy has done so far. */
  datatype State = State(fs: FS, copied: int, last: int, files: int, total: int,
                         reports: seq<Progress>)

  datatype Outcome = Outcome(st: State, err: Option<OsError>)

  /** Fewer than 5 MiB and fewer than 50 files have been copied since the
    * last report. */
  predicate Throttled(st: State)
  {
    0 <= st.copied - st.last < ProgressUpdateThreshold && 0 <= st.files < FileCountThreshold
  }

  /** The reports never go backwards, never run ahead of the bytes copied
    * and all carry the copy's total. */
  predicate ReportsSound(st: State)
  {
    NeverBack(st.reports) && UpTo(st.reports, st.copied) && AllOf(st.reports, st.total)
  }

  /** The bytes reported never go backwards. */
  predicate NeverBack(reports: seq<Progress>)
  {
    forall i, j :: 0 <= i < j < |reports| ==> reports[i].copiedBytes <= reports[j].copiedBytes
  }

  predicate UpTo(reports: seq<Progress>, copied: int)
  {
    forall i :: 0 <= i < |reports| ==> reports[i].copiedBytes <= copied
  }

  /** Every report carries the same total. */
  predicate AllOf(reports: seq<Progress>, total: int)
  {
    forall i :: 0 <= i < |reports| ==> reports[i].totalBytes == total
  }

  predicate Sound(st: State)
  {
    Throttled(st) && ReportsSound(st)
  }

  /** `k` is the same in both states. */
  predicate Kept(a: FS, b: FS, k: Path)
  {
    (k in a <==> k in b) && (k in a ==> a[k] == b[k])
  }

  /** `b` is a later state of the same copy than `a`; without a handler no
    * report is made. */
  predicate Grows(env: Env, a: State, b: State)
  {
    a.copied <= b.copied && a.reports <= b.reports && a.total == b.total &&
    (!env.hasHandler ==> b.reports == a.reports)
  }

  /** The bookkeeping after a file of `size` bytes named `name` is copied:
    * the bytes grow by the size, and a report naming the file is made
    * exactly when the handler is present and 5 MiB or 50 files have
    * accumulated since the last one. */
  function FileStep(env: Env, st: State, name: string, size: nat): (r: State)
    ensures r.copied == st.copied + size && r.total == st.total && r.fs == st.fs
    ensures st.reports <= r.reports
    ensures |r.reports| == |st.reports| + 1 <==>
      env.hasHandler &&
      (st.copied + size - st.last >= ProgressUpdateThreshold || st.files + 1 >= FileCountThreshold)
    ensures |r.reports| == |st.reports| + 1 ==> r.reports[|st.reports|] == Progress(r.copied, r.total, name)
    ensures |r.reports| <= |st.reports| + 1
    ensures Sound(st) ==> Sound(r)
  {
    var copied := st.copied + size;
    var files := st.files + 1;
    if copied - st.last >= ProgressUpdateThreshold || files >= FileCountThreshold then
      var reports := if env.hasHandler then st.reports + [Progress(copied, st.total, name)] else st.reports;
      st.(copied := copied, last := copied, files := 0, reports := reports)
    else
      st.(copied := copied, files := files)
  }

  function ContentsCopied(env: Env, st: State, src: Path, dst: Path): Outcome
    decreases Depth(env.lister, src), 2, 0
  {
    match List(st.fs, env.lister, src)
    case Err(e) => Outcome(st, Some(e))
    case Ok(names) => NamesCopied(env, st, src, dst, names)
  }

  function NamesCopied(env: Env, st: State, src: Path, dst: Path, names: seq<string>): Outcome
    decreases Depth(env.lister, src), 1, |names|
  {
    if names == [] then Outcome(st, None)
    else
      var o := ItemCopied(env, st, src, dst, names[0]);
      if o.err.Some? then o else NamesCopied(env, o.st, src, dst, names[1..])
  }

  /** One listed item, by its kind; an item that cannot be read fails. */
  function ItemCopied(env: Env, st: State, src: Path, dst: Path, name: string): Outcome
    decreases Depth(env.lister, src), 0, 1
  {
    var item := src + [name];
    var target := dst + [name];
    if item !in st.fs then Outcome(st, Some(CocoaError(ReadNoSuchFileCode)))
    else match st.fs[item]
      case Link(t) => LinkCopied(env, st, target, t)
      case Dir(meta, _) => DirCopied(env, st, src, dst, name, meta)
      case File(size) => FileCopied(env, st, item, target, name, size)
  }

  /** A link is recreated with the target text it stores. */
  function LinkCopied(env: Env, st: State, target: Path, t: string): (o: Outcome)
    ensures forall k :: !(target <= k) ==> Kept(st.fs, o.st.fs, k)
    ensures o.st == st.(fs := o.st.fs)
    ensures o.err.None? ==> target in o.st.fs && o.st.fs[target] == Link(t)
  {
    var e := AfterCreateLink(st.fs, target, t, FaultAt(env, target));
    Outcome(st.(fs := e.fs), e.err)
  }

  /** A file is copied whole and counted. */
  function FileCopied(env: Env, st: State, item: Path, target: Path, name: string, size: nat): (o: Outcome)
    requires item in st.fs && st.fs[item] == File(size)
    ensures forall k :: !(target <= k) ==> Kept(st.fs, o.st.fs, k)
    ensures o.err.None? ==> target in o.st.fs && o.st.fs[target] == File(size)
    ensures o.st == (if o.err.None? then FileStep(env, st.(fs := o.st.fs), name, size) else st.(fs := o.st.fs))
  {
    var e := AfterCopy(st.fs, item, target, FaultAt(env, target));
    CopyStaysInside(st.fs, item, target, FaultAt(env, target));
    if e.err.Some? then Outcome(st.(fs := e.fs), e.err)
    else Outcome(FileStep(env, st.(fs := e.fs), name, size), None)
  }

  /** A directory is created with the source's attributes, given its
    * extended attributes and then filled. One without a listing of its own
    * is read directly: it is empty unless reading it fails. */
  function DirCopied(env: Env, st: State, src: Path, dst: Path, name: string, meta: nat): Outcome
    decreases Depth(env.lister, src), 0, 0
  {
    var item := src + [name];
    var target := dst + [name];
    var e := AfterCreateDirectory(st.fs, target, meta, FaultAt(env, target));
    if e.err.Some? then Outcome(st.(fs := e.fs), e.err)
    else
      var st1 := st.(fs := XattrsCopied(env, e.fs, item, target));
      if item in env.lister.entries then
        DepthDecreases(env.lister, src, name);
        ContentsCopied(env, st1, item, target)
      else
        match List(st1.fs, env.lister, item)
        case Err(err) => Outcome(st1, Some(err))
        case Ok(_) => Outcome(st1, None)
  }

  /** The state, the handler calls and the error of `copyDirectory`. */
  datatype Run = Run(fs: FS, reports: seq<Progress>, err: Option<OsError>)

  function DirectoryCopied(env: Env, fs: FS, reports: seq<Progress>, src: Path, dst: Path): Run
  {
    var total := TotalBytes(fs, env.lister, src);
    var reports0 := if env.hasHandler then reports + [Progress(0, total, "")] else reports;
    var made := AfterCreateDirectories(fs, dst, FaultAt(env, dst));
    if made.err.Some? then Run(made.fs, reports0, made.err)
    else
      Finished(env, ContentsCopied(env, State(made.fs, 0, 0, 0, total, reports0), src, dst))
  }

  /** The end of `copyDirectory`: a failed copy stops with its error; a
    * successful one makes the closing report when there is a handler. */
  function Finished(env: Env, o: Outcome): Run
  {
    if o.err.Some? then Run(o.st.fs, o.st.reports, o.err)
    else
      var final := if env.hasHandler then o.st.reports + [Progress(o.st.copied, o.st.total, "")]
                   else o.st.reports;
      Run(o.st.fs, final, None)
  }

  // ----- what the copy promises -----

  /** Every state the copy passes through is sound, and the copy only ever
    * adds bytes and reports. */
  lemma {:induction false} ContentsProgress(env: Env, st: State, src: Path, dst: Path)
    requires Sound(st)
    ensures var r := ContentsCopied(env, st, src, dst).st; Sound(r) && Grows(env, st, r)
    decreases Depth(env.lister, src), 2, 0
  {
    match List(st.fs, env.lister, src)
    case Err(_) =>
    case Ok(names) => NamesProgress(env, st, src, dst, names);
  }

  lemma {:induction false} NamesProgress(env: Env, st: State, src: Path, dst: Path, names: seq<string>)
    requires Sound(st)
    ensures var r := NamesCopied(env, st, src, dst, names).st; Sound(r) && Grows(env, st, r)
    decreases Depth(env.lister, src), 1, |names|
  {
    if names != [] {
      ItemProgress(env, st, src, dst, names[0]);
      var o := ItemCopied(env, st, src, dst, names[0]);
      if o.err.None? {
        NamesProgress(env, o.st, src, dst, names[1..]);
      }
    }
  }

  lemma {:induction false} ItemProgress(env: Env, st: State, src: Path, dst: Path, name: string)
    requires Sound(st)
    ensures var r := ItemCopied(env, st, src, dst, name).st; Sound(r) && Grows(env, st, r)
    decreases Depth(env.lister, src), 0, 1
  {
    var item := src + [name];
    var target := dst + [name];
    if item in st.fs {
      match st.fs[item]
      case Link(t) =>
        assert ItemCopied(env, st, src, dst, name) == LinkCopied(env, st, target, t);
      case Dir(meta, _) =>
        assert ItemCopied(env, st, src, dst, name) == DirCopied(env, st, src, dst, name, meta);
        DirProgress(env, st, src, dst, name, meta);
      case File(size) =>
        var o := FileCopied(env, st, item, target, name, size);
        assert ItemCopied(env, st, src, dst, name) == o;
        assert Sound(st.(fs := o.st.fs));
    }
  }

  lemma {:induction false} DirProgress(env: Env, st: State, src: Path, dst: Path, name: string, meta: nat)
    requires Sound(st)
    ensures var r := DirCopied(env, st, src, dst, name, meta).st; Sound(r) && Grows(env, st, r)
    decreases Depth(env.lister, src), 0, 0
  {
    var item := src + [name];
    var target := dst + [name];
    var e := AfterCreateDirectory(st.fs, target, meta, FaultAt(env, target));
    if e.err.None? && item in env.lister.entries {
      var st1 := st.(fs := XattrsCopied(env, e.fs, item, target));
      DepthDecreases(env.lister, src, name);
      ContentsProgress(env, st1, item, target);
    }
  }

  /** `k` lies at or below `dst + [n]` for one of the names. */
  predicate UnderNames(dst: Path, names: seq<string>, k: Path)
  {
    |dst| < |k| && dst <= k && k[|dst|] in names
  }

  lemma ChildPrefix(dst: Path, n: string, k: Path)
    requires dst + [n] <= k
    ensures |dst| < |k| && dst <= k && k[|dst|] == n
  {
    assert k[..|dst| + 1] == dst + [n];
    assert k[..|dst|] == (dst + [n])[..|dst|] == dst;
  }

  lemma ChildUnder(dst: Path, names: seq<string>, k: Path)
    requires names != []
    ensures dst + [names[0]] <= k ==> UnderNames(dst, names, k)
  {
    if dst + [names[0]] <= k {
      ChildPrefix(dst, names[0], k);
    }
  }

  lemma UnderFewer(dst: Path, names: seq<string>, k: Path)
    requires names != []
    ensures UnderNames(dst, names[1..], k) ==> UnderNames(dst, names, k)
  {
    if UnderNames(dst, names[1..], k) {
      assert k[|dst|] in names;
    }
  }

  /** Copying one item changes nothing outside its destination. */
  lemma {:induction false} ItemFrame(env: Env, st: State, src: Path, dst: Path, name: string)
    ensures forall k :: !(dst + [name] <= k) ==>
      Kept(st.fs, ItemCopied(env, st, src, dst, name).st.fs, k)
    decreases Depth(env.lister, src), 0, 1
  {
    var item := src + [name];
    if item in st.fs && st.fs[item].Dir? {
      assert ItemCopied(env, st, src, dst, name) == DirCopied(env, st, src, dst, name, st.fs[item].meta);
      DirFrame(env, st, src, dst, name, st.fs[item].meta);
    }
  }

  lemma {:induction false} DirFrame(env: Env, st: State, src: Path, dst: Path, name: string, meta: nat)
    ensures forall k :: !(dst + [name] <= k) ==>
      Kept(st.fs, DirCopied(env, st, src, dst, name, meta).st.fs, k)
    decreases Depth(env.lister, src), 0, 0
  {
    var item := src + [name];
    var target := dst + [name];
    var e := AfterCreateDirectory(st.fs, target, meta, FaultAt(env, target));
    if e.err.None? {
      var st1 := st.(fs := XattrsCopied(env, e.fs, item, target));
      if item in env.lister.entries {
        DepthDecreases(env.lister, src, name);
        ContentsFrame(env, st1, item, target);
        var after := ContentsCopied(env, st1, item, target).st;
        forall k | !(target <= k) ensures Kept(st.fs, after.fs, k) {
          assert !(target < k);
          assert Kept(st.fs, e.fs, k) && Kept(e.fs, st1.fs, k) && Kept(st1.fs, after.fs, k);
        }
      }
    }
  }

  /** Copying a listing changes nothing outside the destinations of its
    * names. */
  lemma {:induction false} NamesFrame(env: Env, st: State, src: Path, dst: Path, names: seq<string>)
    ensures forall k :: !UnderNames(dst, names, k) ==>
      Kept(st.fs, NamesCopied(env, st, src, dst, names).st.fs, k)
    decreases Depth(env.lister, src), 1, |names|
  {
    if names != [] {
      ItemFrame(env, st, src, dst, names[0]);
      var o := ItemCopied(env, st, src, dst, names[0]);
      if o.err.None? {
        NamesFrame(env, o.st, src, dst, names[1..]);
      }
      var r := NamesCopied(env, st, src, dst, names).st;
      forall k | !UnderNames(dst, names, k) ensures Kept(st.fs, r.fs, k) {
        assert !(dst + [names[0]] <= k) by {
          ChildUnder(dst, names, k);
        }
        assert Kept(st.fs, o.st.fs, k);
        if o.err.None? {
          assert !UnderNames(dst, names[1..], k) by {
            UnderFewer(dst, names, k);
          }
          assert Kept(o.st.fs, r.fs, k);
        }
      }
    }
  }

  /** Copying a directory's contents changes nothing outside what lies
    * strictly below the destination. */
  lemma {:induction false} ContentsFrame(env: Env, st: State, src: Path, dst: Path)
    ensures forall k :: !(dst < k) ==>
      Kept(st.fs, ContentsCopied(env, st, src, dst).st.fs, k)
    decreases Depth(env.lister, src), 2, 0
  {
    match List(st.fs, env.lister, src)
    case Err(_) =>
    case Ok(names) =>
      NamesFrame(env, st, src, dst, names);
      var r := NamesCopied(env, st, src, dst, names).st;
      forall k | !(dst < k) ensures Kept(st.fs, r.fs, k) {
        assert !UnderNames(dst, names, k);
      }
  }

  /** Neither path lies at or below the other. */
  predicate Apart(a: Path, b: Path)
  {
    !(a <= b) && !(b <= a)
  }

  lemma PrefixesMeet(a: Path, b: Path, k: Path)
    requires a <= k && b <= k
    ensures a <= b || b <= a
  {
    if |a| <= |b| {
      assert a == k[..|a|] == b[..|a|];
    } else {
      assert b == k[..|b|] == a[..|b|];
    }
  }

  lemma PrefixOfChild(a: Path, b: Path, n: string)
    ensures a + [n] <= b + [n] ==> a <= b
  {
    if a + [n] <= b + [n] {
      assert a == (a + [n])[..|a|] == (b + [n])[..|a|] == b[..|a|];
    }
  }

  lemma ChildrenApart(src: Path, dst: Path, name: string)
    requires Apart(src, dst)
    ensures Apart(src + [name], dst + [name])
  {
    PrefixOfChild(src, dst, name);
    PrefixOfChild(dst, src, name);
  }

  /** `a` holds exactly what `orig` holds at and below `root`. */
  ghost predicate Agrees(a: FS, orig: FS, root: Path)
  {
    forall k :: root <= k ==> Kept(a, orig, k)
  }

  /** Bytes counted by a copy whose source part of the state agrees with
    * `orig` are exactly the regular-file bytes the enumerator visits there:
    * a successful copy counts the same bytes `TotalBytes` added up. */
  lemma {:induction false} ContentsCount(env: Env, st: State, src: Path, dst: Path, orig: FS)
    requires Agrees(st.fs, orig, src) && Apart(src, dst)
    requires ContentsCopied(env, st, src, dst).err.None?
    ensures ContentsCopied(env, st, src, dst).st.copied ==
            st.copied + SumRegular(orig, Enumerate(orig, env.lister, src, false))
    decreases Depth(env.lister, src), 2, 0
  {
    assert Kept(st.fs, orig, src);
    assert List(st.fs, env.lister, src) == List(orig, env.lister, src);
    match List(st.fs, env.lister, src)
    case Ok(names) => NamesCount(env, st, src, dst, names, orig);
  }

  lemma {:induction false} NamesCount(env: Env, st: State, src: Path, dst: Path, names: seq<string>, orig: FS)
    requires Agrees(st.fs, orig, src) && Apart(src, dst)
    requires NamesCopied(env, st, src, dst, names).err.None?
    ensures NamesCopied(env, st, src, dst, names).st.copied ==
            st.copied + SumRegular(orig, EnumerateNames(orig, env.lister, src, names, false))
    decreases Depth(env.lister, src), 1, |names|
  {
    if names != [] {
      var c := src + [names[0]];
      var o := ItemCopied(env, st, src, dst, names[0]);
      ItemCount(env, st, src, dst, names[0], orig);
      ItemFrame(env, st, src, dst, names[0]);
      assert Agrees(o.st.fs, orig, src) by {
        forall k | src <= k ensures Kept(o.st.fs, orig, k) {
          if dst + [names[0]] <= k {
            ChildPrefix(dst, names[0], k);
            PrefixesMeet(src, dst, k);
          }
          assert Kept(st.fs, o.st.fs, k) && Kept(st.fs, orig, k);
        }
      }
      NamesCount(env, o.st, src, dst, names[1..], orig);
      var here := [c] + (if IsDir(orig, c) && c in env.lister.entries
                         then Enumerate(orig, env.lister, c, false) else []);
      SumRegularAppend(orig, here, EnumerateNames(orig, env.lister, src, names[1..], false));
    }
  }

  /** What the enumerator visits for one listed item. */
  function Visits(orig: FS, lister: Lister, c: Path): seq<Path>
  {
    [c] + (if IsDir(orig, c) && c in lister.entries then Enumerate(orig, lister, c, false) else [])
  }

  lemma {:induction false} ItemCount(env: Env, st: State, src: Path, dst: Path, name: string, orig: FS)
    requires Agrees(st.fs, orig, src) && Apart(src, dst)
    requires ItemCopied(env, st, src, dst, name).err.None?
    ensures ItemCopied(env, st, src, dst, name).st.copied ==
            st.copied + SumRegular(orig, Visits(orig, env.lister, src + [name]))
    decreases Depth(env.lister, src), 0, 1
  {
    var item := src + [name];
    assert Kept(st.fs, orig, item);
    var below := if IsDir(orig, item) && item in env.lister.entries
                 then Enumerate(orig, env.lister, item, false) else [];
    SumRegularAppend(orig, [item], below);
    assert SumRegular(orig, [item]) == RegularSize(orig, item) by {
      assert [item][..0] == [];
    }
    if st.fs[item].Dir? {
      DirCount(env, st, src, dst, name, st.fs[item].meta, orig);
    }
  }

  lemma {:induction false} DirCount(env: Env, st: State, src: Path, dst: Path, name: string, meta: nat, orig: FS)
    requires Agrees(st.fs, orig, src) && Apart(src, dst)
    requires src + [name] in orig && orig[src + [name]].Dir?
    requires DirCopied(env, st, src, dst, name, meta).err.None?
    ensures DirCopied(env, st, src, dst, name, meta).st.copied ==
            st.copied + (if src + [name] in env.lister.entries
                         then SumRegular(orig, Enumerate(orig, env.lister, src + [name], false)) else 0)
    decreases Depth(env.lister, src), 0, 0
  {
    var item := src + [name];
    var target := dst + [name];
    if item in env.lister.entries {
      var e := AfterCreateDirectory(st.fs, target, meta, FaultAt(env, target));
      var st1 := st.(fs := XattrsCopied(env, e.fs, item, target));
      DepthDecreases(env.lister, src, name);
      ChildrenApart(src, dst, name);
      assert Agrees(st1.fs, orig, item) by {
        forall k | item <= k ensures Kept(st1.fs, orig, k) {
          ChildPrefix(src, name, k);
          if target == k {
            PrefixesMeet(item, target, k);
          }
          assert Kept(st.fs, orig, k) && Kept(st.fs, e.fs, k) && Kept(e.fs, st1.fs, k);
        }
      }
      ContentsCount(env, st1, item, target, orig);
    }
  }

  /** The destination item has the source item's kind: a link with the same
    * stored target, a file of the same size, a directory with the same
    * attributes. */
  predicate SameShape(a: FS, b: FS, s: Path, t: Path)
  {
    s in a && t in b &&
    (a[s].Link? ==> b[t] == a[s]) &&
    (a[s].File? ==> b[t] == a[s]) &&
    (a[s].Dir? ==> b[t].Dir? && b[t].meta == a[s].meta)
  }

  lemma {:induction false} ItemShape(env: Env, st: State, src: Path, dst: Path, name: string)
    requires ItemCopied(env, st, src, dst, name).err.None?
    ensures SameShape(st.fs, ItemCopied(env, st, src, dst, name).st.fs, src + [name], dst + [name])
  {
    var item := src + [name];
    if st.fs[item].Dir? {
      DirShape(env, st, src, dst, name, st.fs[item].meta);
    }
  }

  lemma {:induction false} DirShape(env: Env, st: State, src: Path, dst: Path, name: string, meta: nat)
    requires DirCopied(env, st, src, dst, name, meta).err.None?
    ensures var r := DirCopied(env, st, src, dst, name, meta).st;
      dst + [name] in r.fs && r.fs[dst + [name]].Dir? && r.fs[dst + [name]].meta == meta
  {
    var item := src + [name];
    var target := dst + [name];
    var e := AfterCreateDirectory(st.fs, target, meta, FaultAt(env, target));
    var st1 := st.(fs := XattrsCopied(env, e.fs, item, target));
    assert target in st1.fs && st1.fs[target].Dir? && st1.fs[target].meta == meta;
    if item in env.lister.entries {
      ContentsFrame(env, st1, item, target);
      assert Kept(st1.fs, ContentsCopied(env, st1, item, target).st.fs, target);
    }
  }

  /** After a successful copy of a listing without repeated names, every
    * listed item has a destination of the same shape: links are recreated
    * with their stored target, files keep their size, directories their
    * attributes. */
  lemma {:induction false} NamesShape(env: Env, st: State, src: Path, dst: Path, names: seq<string>)
    requires Apart(src, dst)
    requires forall i, j :: 0 <= i < j < |names| ==> names[i] != names[j]
    requires NamesCopied(env, st, src, dst, names).err.None?
    ensures forall n :: n in names ==>
      SameShape(st.fs, NamesCopied(env, st, src, dst, names).st.fs, src + [n], dst + [n])
    decreases |names|
  {
    if names != [] {
      var n0 := names[0];
      var o := ItemCopied(env, st, src, dst, n0);
      var r := NamesCopied(env, st, src, dst, names).st;
      assert r == NamesCopied(env, o.st, src, dst, names[1..]).st;
      ItemShape(env, st, src, dst, n0);
      ItemFrame(env, st, src, dst, n0);
      NamesShape(env, o.st, src, dst, names[1..]);
      NamesFrame(env, o.st, src, dst, names[1..]);
      forall n | n in names ensures SameShape(st.fs, r.fs, src + [n], dst + [n]) {
        if n == n0 {
          assert n0 !in names[1..];
          assert !UnderNames(dst, names[1..], dst + [n0]);
          assert Kept(o.st.fs, r.fs, dst + [n0]);
        } else {
          assert n in names[1..];
          assert !(dst + [n0] <= src + [n]) by {
            if dst + [n0] <= src + [n] {
              ChildPrefix(dst, n0, src + [n]);
              PrefixesMeet(src, dst, src + [n]);
            }
          }
          assert Kept(st.fs, o.st.fs, src + [n]);
          assert SameShape(o.st.fs, r.fs, src + [n], dst + [n]);
        }
      }
    }
  }

  /** New items `createDirectory` with intermediates adds are the path and
    * its ancestors. */
  lemma {:induction false} CreatedOnPath(fs: FS, p: Path, fault: Option<Fault>)
    ensures forall k :: k in AfterCreateDirectories(fs, p, fault).fs ==> k in fs || k <= p
    decreases |p|
  {
    if fault.None? && !IsDir(fs, p) && p !in fs {
      CreatedOnPath(fs, Parent(p), None);
    }
  }

  /** With a handler, the reports open with nothing copied out of the
    * total; without one there are none; every report carries the total and
    * the bytes reported never go backwards. */
  predicate ReportsFrom(hasHandler: bool, reports: seq<Progress>, total: int)
  {
    (hasHandler ==> |reports| >= 1 && reports[0] == Progress(0, total, "")) &&
    (!hasHandler ==> reports == []) &&
    AllOf(reports, total) && NeverBack(reports)
  }

  /** With a handler, `copyDirectory` first reports nothing copied out of
    * the total; every report carries that total and the bytes never go
    * backwards. Without a handler nothing is reported. This holds whether
    * the copy fails or succeeds. */
  lemma CopyDirectoryProgress(env: Env, fs: FS, src: Path, dst: Path)
    ensures ReportsFrom(env.hasHandler, DirectoryCopied(env, fs, [], src, dst).reports, TotalBytes(fs, env.lister, src))
  {
    if AfterCreateDirectories(fs, dst, FaultAt(env, dst)).err.None? {
      ProgressOnceMade(env, fs, src, dst);
    } else {
      var total := TotalBytes(fs, env.lister, src);
      assert [] + [Progress(0, total, "")] == [Progress(0, total, "")];
      assert ReportsFrom(env.hasHandler, if env.hasHandler then [Progress(0, total, "")] else [], total);
    }
  }

  /** `CopyProgress` once the destination has been created. */
  lemma ProgressOnceMade(env: Env, fs: FS, src: Path, dst: Path)
    requires AfterCreateDirectories(fs, dst, FaultAt(env, dst)).err.None?
    ensures ReportsFrom(env.hasHandler, DirectoryCopied(env, fs, [], src, dst).reports, TotalBytes(fs, env.lister, src))
  {
    var total := TotalBytes(fs, env.lister, src);
    var reports0 := if env.hasHandler then [Progress(0, total, "")] else [];
    assert [] + [Progress(0, total, "")] == reports0 || !env.hasHandler;
    var made := AfterCreateDirectories(fs, dst, FaultAt(env, dst));
    var st0 := State(made.fs, 0, 0, 0, total, reports0);
    assert DirectoryCopied(env, fs, [], src, dst) == Finished(env, ContentsCopied(env, st0, src, dst));
    RunFromStart(env, st0, src, dst);
  }

  /** A copy of the contents that starts from `st0`, with its opening report
    * and nothing copied, finishes with reports of the right shape. */
  lemma RunFromStart(env: Env, st0: State, src: Path, dst: Path)
    requires st0.copied == 0 && st0.last == 0 && st0.files == 0
    requires st0.reports == (if env.hasHandler then [Progress(0, st0.total, "")] else [])
    ensures ReportsFrom(env.hasHandler, Finished(env, ContentsCopied(env, st0, src, dst)).reports, st0.total)
  {
    ContentsProgress(env, st0, src, dst);
    RunClosed(env, st0, ContentsCopied(env, st0, src, dst));
  }

  /** The reports of a run that started with `st0`'s opening report and got
    * as far as `o` keep their shape once the run is finished. */
  lemma RunClosed(env: Env, st0: State, o: Outcome)
    requires st0.copied == 0 && st0.reports == (if env.hasHandler then [Progress(0, st0.total, "")] else [])
    requires Sound(o.st) && Grows(env, st0, o.st)
    ensures ReportsFrom(env.hasHandler, Finished(env, o).reports, st0.total)
  {
    var r := o.st;
    if env.hasHandler {
      assert r.reports[0] == st0.reports[0];
      ReportsClosed(r.reports, r.copied, r.total);
    }
  }

  /** A copy into a place outside the source that succeeds ends with a report
    * of every counted byte copied. */
  lemma CopyDirectoryCompletes(env: Env, fs: FS, src: Path, dst: Path)
    requires env.hasHandler && Apart(src, dst)
    requires DirectoryCopied(env, fs, [], src, dst).err.None?
    ensures var run := DirectoryCopied(env, fs, [], src, dst);
      var total := TotalBytes(fs, env.lister, src);
      |run.reports| >= 1 && run.reports[|run.reports| - 1] == Progress(total, total, "")
  {
    var total := TotalBytes(fs, env.lister, src);
    var reports0 := [Progress(0, total, "")];
    assert [] + [Progress(0, total, "")] == reports0;
    var made := AfterCreateDirectories(fs, dst, FaultAt(env, dst));
    var st0 := State(made.fs, 0, 0, 0, total, reports0);
    assert DirectoryCopied(env, fs, [], src, dst) == Finished(env, ContentsCopied(env, st0, src, dst));
    ContentsProgress(env, st0, src, dst);
    CopyReachesTotal(env, fs, src, dst);
  }

  /** Closing a sound run of reports with one carrying all the bytes copied
    * keeps it sound. */
  lemma ReportsClosed(reports: seq<Progress>, copied: int, total: int)
    requires NeverBack(reports) && UpTo(reports, copied) && AllOf(reports, total)
    ensures NeverBack(reports + [Progress(copied, total, "")])
    ensures AllOf(reports + [Progress(copied, total, "")], total)
  {
  }

  /** A copy into a place outside the source that succeeds copies exactly the
    * bytes that were counted beforehand. */
  lemma CopyReachesTotal(env: Env, fs: FS, src: Path, dst: Path)
    requires Apart(src, dst)
    requires AfterCreateDirectories(fs, dst, FaultAt(env, dst)).err.None?
    requires var made := AfterCreateDirectories(fs, dst, FaultAt(env, dst));
      var total := TotalBytes(fs, env.lister, src);
      var reports0 := if env.hasHandler then [Progress(0, total, "")] else [];
      ContentsCopied(env, State(made.fs, 0, 0, 0, total, reports0), src, dst).err.None?
    ensures var made := AfterCreateDirectories(fs, dst, FaultAt(env, dst));
      var total := TotalBytes(fs, env.lister, src);
      var reports0 := if env.hasHandler then [Progress(0, total, "")] else [];
      ContentsCopied(env, State(made.fs, 0, 0, 0, total, reports0), src, dst).st.copied == total
  {
    var made := AfterCreateDirectories(fs, dst, FaultAt(env, dst));
    var total := TotalBytes(fs, env.lister, src);
    var reports0 := if env.hasHandler then [Progress(0, total, "")] else [];
    var st0 := State(made.fs, 0, 0, 0, total, reports0);
    CreatedOnPath(fs, dst, FaultAt(env, dst));
    assert Agrees(made.fs, fs, src) by {
      forall k | src <= k ensures Kept(made.fs, fs, k) {
        if k in made.fs && k !in fs {
          PrefixesMeet(src, k, dst);
        }
      }
    }
    ContentsCount(env, st0, src, dst, fs);
  }

  // ----- the copier -----

  /** `CopyState`, updated in place through the recursion. */
  class CopyState {
    var copiedBytes: int
    var lastReportedBytes: int
    var filesSinceLastReport: int
    const totalBytes: int

    constructor (totalBytes: int)
      ensures this.totalBytes == totalBytes
      ensures copiedBytes == 0 && lastReportedBytes == 0 && filesSinceLastReport == 0
    {
      this.totalBytes := totalBytes;
      copiedBytes := 0;
      lastReportedBytes := 0;
      filesSinceLastReport := 0;
    }
  }

  /** The copier: the volume it changes and the handler calls it has made. */
  class Copier {
    var fs: FS
    var reports: seq<Progress>
    const env: Env

    constructor (fs: FS, env: Env)
      ensures this.fs == fs && this.env == env && reports == []
    {
      this.fs := fs;
      this.env := env;
      reports := [];
    }

    function Snapshot(state: CopyState): State
      reads this, state
    {
      State(fs, state.copiedBytes, state.lastReportedBytes, state.filesSinceLastReport,
            state.totalBytes, reports)
    }

    method CalculateDirectorySize(url: Path) returns (size: int)
      ensures size == TotalBytes(fs, env.lister, url)
    {
      var items := Enumerate(fs, env.lister, url, false);
      size := 0;
      for i := 0 to |items|
        invariant size == SumRegular(fs, items[..i])
      {
        assert items[..i + 1][..i] == items[..i];
        var fileURL := items[i];
        if fileURL !in fs {
          continue;
        }
        if fs[fileURL].Link? {
          continue;
        }
        if fs[fileURL].File? {
          size := size + fs[fileURL].size;
        }
      }
      assert items[..|items|] == items;
    }

    method CopyExtendedAttributes(source: Path, destination: Path)
      modifies this
      ensures fs == XattrsCopied(env, old(fs), source, destination)
      ensures reports == old(reports)
    {
      var nameBuffer := if source in env.xattrNames then env.xattrNames[source] else [];
      var bufferSize := |nameBuffer|;
      if bufferSize <= 0 {
        return;
      }
      if !(source in fs && fs[source].Dir?) || !(destination in fs && fs[destination].Dir?) {
        return;
      }
      CopyNamedXattrs(fs[source].xattrs, nameBuffer, destination);
    }

    /** The walk over the `listxattr` buffer, copying each name's value. */
    method CopyNamedXattrs(sourceAttrs: map<Bytes, Bytes>, nameBuffer: Bytes, destination: Path)
      requires destination in fs && fs[destination].Dir?
      modifies this
      ensures fs == old(fs)[destination := old(fs)[destination].(
                xattrs := ApplyNames(sourceAttrs, env.rejected, old(fs)[destination].xattrs,
                                     NameList(nameBuffer, 0)))]
      ensures reports == old(reports)
    {
      ghost var dest0 := fs[destination].xattrs;
      ghost var meta0 := fs[destination].meta;
      ghost var all := NameList(nameBuffer, 0);
      ghost var done: seq<Bytes> := [];
      var ptr := 0;
      var end := |nameBuffer|;
      while ptr < end
        invariant 0 <= ptr <= end + 1
        invariant all == done + NameList(nameBuffer, ptr)
        invariant reports == old(reports)
        invariant fs == old(fs)[destination := Dir(meta0, ApplyNames(sourceAttrs, env.rejected, dest0, done))]
        decreases end - ptr
      {
        ghost var prev := done;
        WalkStep(nameBuffer, ptr, done, all);
        var name := CString(nameBuffer, ptr);
        ptr := ptr + |name| + 1;
        done := done + [name];
        assert done[..|done| - 1] == prev;
        if !(name in sourceAttrs) || |sourceAttrs[name]| <= 0 {
          continue;
        }
        if name in env.rejected {
          continue;
        }
        SetXattr(destination, name, sourceAttrs[name]);
      }
      assert done == all;
    }

    /** `setxattr` on a directory that accepts the name. */
    method SetXattr(path: Path, name: Bytes, value: Bytes)
      requires path in fs && fs[path].Dir?
      modifies this
      ensures fs == old(fs)[path := old(fs)[path].(xattrs := old(fs)[path].xattrs[name := value])]
      ensures reports == old(reports)
    {
      fs := fs[path := fs[path].(xattrs := fs[path].xattrs[name := value])];
    }

    method CopyContents(state: CopyState, source: Path, destination: Path)
      returns (err: Option<OsError>)
      modifies this, state
      ensures Outcome(Snapshot(state), err) == ContentsCopied(env, old(Snapshot(state)), source, destination)
      decreases Depth(env.lister, source), 2, 0
    {
      var contents := List(fs, env.lister, source);
      if contents.Err? {
        return Some(contents.error);
      }
      var names := contents.value;
      ghost var start := Snapshot(state);
      for i := 0 to |names|
        invariant NamesCopied(env, start, source, destination, names) ==
                  NamesCopied(env, Snapshot(state), source, destination, names[i..])
      {
        assert names[i..][1..] == names[i + 1..];
        err := CopyItem(state, source, destination, names[i]);
        if err.Some? {
          return;
        }
      }
      err := None;
    }

    /** The body of the copy loop for one listed name. */
    method CopyItem(state: CopyState, source: Path, destination: Path, itemName: string)
      returns (err: Option<OsError>)
      modifies this, state
      ensures Outcome(Snapshot(state), err) == ItemCopied(env, old(Snapshot(state)), source, destination, itemName)
      decreases Depth(env.lister, source), 0, 1
    {
      var itemURL := source + [itemName];
      var destItemURL := destination + [itemName];
      if itemURL !in fs {
        return Some(CocoaError(ReadNoSuchFileCode));
      }
      var node := fs[itemURL];
      if node.Link? {
        var e := AfterCreateLink(fs, destItemURL, node.target, FaultAt(env, destItemURL));
        fs := e.fs;
        return e.err;
      }
      if node.Dir? {
        var e := AfterCreateDirectory(fs, destItemURL, node.meta, FaultAt(env, destItemURL));
        fs := e.fs;
        if e.err.Some? {
          return e.err;
        }
        CopyExtendedAttributes(itemURL, destItemURL);
        if itemURL in env.lister.entries {
          DepthDecreases(env.lister, source, itemName);
          err := CopyContents(state, itemURL, destItemURL);
        } else {
          var listing := List(fs, env.lister, itemURL);
          err := if listing.Err? then Some(listing.error) else None;
        }
        return;
      }
      var e := AfterCopy(fs, itemURL, destItemURL, FaultAt(env, destItemURL));
      fs := e.fs;
      if e.err.Some? {
        return e.err;
      }
      CountFile(state, itemName, node.size);
      return None;
    }

    /** The counting and throttled reporting after a file is copied. */
    method CountFile(state: CopyState, itemName: string, fileSize: nat)
      modifies this, state
      ensures Snapshot(state) == FileStep(env, old(Snapshot(state)), itemName, fileSize)
    {
      state.copiedBytes := state.copiedBytes + fileSize;
      state.filesSinceLastReport := state.filesSinceLastReport + 1;
      var bytesDelta := state.copiedBytes - state.lastReportedBytes;
      if bytesDelta >= ProgressUpdateThreshold || state.filesSinceLastReport >= FileCountThreshold {
        if env.hasHandler {
          reports := reports + [Progress(state.copiedBytes, state.totalBytes, itemName)];
        }
        state.lastReportedBytes := state.copiedBytes;
        state.filesSinceLastReport := 0;
      }
    }

    method CopyDirectory(source: Path, destination: Path) returns (err: Option<OsError>)
      modifies this
      ensures Run(fs, reports, err) == DirectoryCopied(env, old(fs), old(reports), source, destination)
    {
      var totalBytes := CalculateDirectorySize(source);
      if env.hasHandler {
        reports := reports + [Progress(0, totalBytes, "")];
      }
      var made := AfterCreateDirectories(fs, destination, FaultAt(env, destination));
      fs := made.fs;
      if made.err.Some? {
        return made.err;
      }
      var state := new CopyState(totalBytes);
      err := CopyContents(state, source, destination);
      if err.Some? {
        return;
      }
      if env.hasHandler {
        reports := reports + [Progress(state.copiedBytes, totalBytes, "")];
      }
    }
  }
}
