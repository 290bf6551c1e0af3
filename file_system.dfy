/**
  An abstract POSIX file system: a map from file path to content and a set of
  directory paths. Paths are plain strings joined with `/`, as
  `os.path.join` and `os.path.dirname` produce them; "." and ".." are not resolved.
 */
module FileSystem {
  import opened Wrappers
  import opened Text

  /** `os.path.join(a, b)` (posixpath): an absolute `b` replaces `a`. */
  function PathJoin(a: string, b: string): (r: string)
    ensures b != [] ==> EndsWith(r, b)
  {
    if StartsWith(b, "/") then b
    else if a == "" || EndsWith(a, "/") then a + b
    else a + "/" + b
  }

  /** `p.endswith('/')` */
  predicate EndsWithSlash(p: string) {
    p != [] && p[|p| - 1] == '/'
  }

  /** Position of the last `/` in `p`. */
  function LastSlash(p: string): (r: Option<nat>)
    ensures r.Some? ==> r.value < |p| && p[r.value] == '/'
    ensures r.Some? ==> forall k :: r.value < k < |p| ==> p[k] != '/'
    ensures r.None? ==> forall k :: 0 <= k < |p| ==> p[k] != '/'
  {
    if p == [] then None
    else if p[|p| - 1] == '/' then Some(|p| - 1)
    else LastSlash(p[..|p| - 1])
  }

  /** `h.rstrip('/')` */
  function RStripSlashes(h: string): (r: string)
    ensures |r| <= |h| && r == h[..|r|]
    ensures r == [] || r[|r| - 1] != '/'
    ensures forall k :: |r| <= k < |h| ==> h[k] == '/'
  {
    if h != [] && h[|h| - 1] == '/' then RStripSlashes(h[..|h| - 1]) else h
  }

  /** `os.path.dirname(p)` (posixpath): everything before the last `/`, without the
      trailing slashes unless it consists of slashes only. */
  function Dirname(p: string): (r: string)
    ensures |r| <= |p|
    ensures '/' !in p ==> r == ""
  {
    var i := match LastSlash(p) case None => 0 case Some(j) => j + 1;
    var head := p[..i];
    if head != "" && !AllSlashes(head) then RStripSlashes(head) else head
  }

  /** `h` consists of slashes only. */
  predicate AllSlashes(h: string) {
    forall k :: 0 <= k < |h| ==> h[k] == '/'
  }

  /** `LastSlash` finds the last `/`. */
  lemma {:induction false} LastSlashIs(p: string, j: nat)
    requires j < |p| && p[j] == '/'
    requires forall k :: j < k < |p| ==> p[k] != '/'
    ensures LastSlash(p) == Some(j)
    decreases |p|
  {
    if j < |p| - 1 {
      LastSlashIs(p[..|p| - 1], j);
    }
  }

  /** The parent of `m/v`, for a file name `v` without `/`, is `m`. */
  lemma DirnameOf(m: string, v: string)
    requires m != [] && m[|m| - 1] != '/' && '/' !in v
    ensures Dirname(m + "/" + v) == m
  {
    var p := m + "/" + v;
    forall k | |m| < k < |p| ensures p[k] != '/' {
      assert p[k] == v[k - |m| - 1];
    }
    LastSlashIs(p, |m|);
    var head := p[..|m| + 1];
    assert head == m + "/";
    assert head[|m| - 1] != '/';
    assert head[..|head| - 1] == m;
    assert RStripSlashes(head) == RStripSlashes(m);
    assert RStripSlashes(m) == m;
    assert LastSlash(p) == Some(|m|);
    assert !AllSlashes(head);
  }

  /** The directories `os.makedirs(d)` has to exist or create: `d` and every `/`-prefix of it. */
  function DirChain(d: string): (r: set<string>)
  {
    PrefixesUpTo(d, |d|)
  }

  /** The prefixes `d[..i]`, `0 < i <= n`, that end where a `/` or `d` itself does. */
  function PrefixesUpTo(d: string, n: nat): (r: set<string>)
    requires n <= |d|
  {
    if n == 0 then {}
    else PrefixesUpTo(d, n - 1) + if n == |d| || d[n] == '/' then {d[..n]} else {}
  }

  /** Every directory `d` contains `d` itself. */
  lemma DirChainSelf(d: string)
    requires d != ""
    ensures d in DirChain(d)
  {
    assert d[..|d|] == d;
  }

  /** `os.makedirs(d)` also creates every ancestor `d[..n]` that ends before a `/`. */
  lemma {:induction false} DirChainAncestors(d: string, m: nat, n: nat)
    requires 0 < n <= m <= |d| && d[n - 1] != '/' && (n == |d| || d[n] == '/')
    ensures d[..n] in PrefixesUpTo(d, m)
    decreases m
  {
    if m > n {
      DirChainAncestors(d, m - 1, n);
    }
  }

  /** Whether `os.makedirs(d, exist_ok=True)` succeeds over the regular files `files`:
      `""` is refused (FileNotFoundError) and so is a chain that runs through a file. */
  predicate MakeDirsOk(files: map<string, string>, d: string) {
    d != "" && forall x :: x in DirChain(d) ==> x !in files
  }

  /** Whether `open(p, 'w')` succeeds with the directories `dirs`: `p` must name
      neither a directory nor a path with a trailing `/` (IsADirectoryError), and its
      parent must exist. */
  predicate OpenOk(dirs: set<string>, p: string) {
    p != "" && !EndsWithSlash(p) && p !in dirs && (Dirname(p) == "" || Dirname(p) in dirs)
  }

  class FileSystem {
    /** Regular files and their contents. */
    var files: map<string, string>
    /** Existing directories. */
    var dirs: set<string>

    /** A path is never both a file and a directory. */
    ghost predicate Valid()
      reads this
    {
      files.Keys !! dirs
    }

    constructor (files0: map<string, string>, dirs0: set<string>)
      requires files0.Keys !! dirs0
      ensures Valid()
      ensures files == files0 && dirs == dirs0
    {
      files := files0;
      dirs := dirs0;
    }

    /** `os.makedirs(d, exist_ok=True)`; `ok == false` stands for the raised `OSError`. */
    method MakeDirs(d: string) returns (ok: bool)
      requires Valid()
      modifies this
      ensures Valid()
      ensures ok == MakeDirsOk(old(files), d)
      ensures files == old(files)
      ensures dirs == if ok then old(dirs) + DirChain(d) else old(dirs)
    {
      ok := MakeDirsOk(files, d);
      if ok {
        dirs := dirs + DirChain(d);
      }
    }

    /** `open(p, 'w').write(content)`: truncates or creates the file. */
    method WriteFile(p: string, content: string) returns (ok: bool)
      requires Valid()
      modifies this
      ensures Valid()
      ensures ok == OpenOk(old(dirs), p)
      ensures dirs == old(dirs)
      ensures files == if ok then old(files)[p := content] else old(files)
    {
      ok := OpenOk(dirs, p);
      if ok {
        files := files[p := content];
      }
    }
  }

  // ---------------------------------------------------------------------------
  // The write loop shared by both writers:
  //   for path, content in entries:
  //       full = os.path.join(base, path)
  //       os.makedirs(os.path.dirname(full), exist_ok=True)
  //       open(full, 'w').write(content)

  /** Whether the loop ran to the end, and the files and directories it left. */
  datatype Outcome = Outcome(ok: bool, files: map<string, string>, dirs: set<string>)

  /** One entry: `makedirs` of the parent of `full`, then `open(full, 'w')`. A failed
      `open` keeps the directories its `makedirs` made. */
  function Enter(files: map<string, string>, dirs: set<string>, full: string, content: string): (r: Outcome)
    ensures r.ok ==> r.files == files[full := content] && r.dirs == dirs + DirChain(Dirname(full))
    ensures r.ok ==> !EndsWithSlash(full) && Dirname(full) in r.dirs
    ensures !r.ok ==> r.files == files
  {
    var d := Dirname(full);
    if !MakeDirsOk(files, d) then Outcome(false, files, dirs)
    else if !OpenOk(dirs + DirChain(d), full) then Outcome(false, files, dirs + DirChain(d))
    else
      DirChainSelf(d);
      Outcome(true, files[full := content], dirs + DirChain(d))
  }

  /** The loop, entry by entry: it stops at the first `makedirs` or `open` that raises,
      keeping what it did so far. */
  function Run(files: map<string, string>, dirs: set<string>, entries: seq<(string, string)>, base: string): Outcome
    decreases |entries|
  {
    if entries == [] then Outcome(true, files, dirs)
    else
      var o := Enter(files, dirs, PathJoin(base, entries[0].0), entries[0].1);
      if o.ok then Run(o.files, o.dirs, entries[1..], base) else o
  }

  /** Runs the loop on the file system. */
  method WriteAll(fs: FileSystem, entries: seq<(string, string)>, base: string) returns (ok: bool)
    requires fs.Valid()
    modifies fs
    ensures fs.Valid()
    ensures Outcome(ok, fs.files, fs.dirs) == Run(old(fs.files), old(fs.dirs), entries, base)
  {
    ghost var goal := Run(fs.files, fs.dirs, entries, base);
    var i := 0;
    ok := true;
    while i < |entries|
      invariant 0 <= i <= |entries|
      invariant fs.Valid()
      invariant Run(fs.files, fs.dirs, entries[i..], base) == goal
    {
      var (path, content) := entries[i];
      var full := PathJoin(base, path);
      assert entries[i..][0] == entries[i] && entries[i..][1..] == entries[i + 1..];
      var made := fs.MakeDirs(Dirname(full));
      if !made {
        ok := false;
        return;
      }
      var wrote := fs.WriteFile(full, content);
      if !wrote {
        ok := false;
        return;
      }
      i := i + 1;
    }
  }

  /** The files after writing `entries` over `files`, later entries overwriting
      earlier ones. */
  function Written(files: map<string, string>, entries: seq<(string, string)>, base: string): map<string, string>
    decreases |entries|
  {
    if entries == [] then files
    else Written(files[PathJoin(base, entries[0].0) := entries[0].1], entries[1..], base)
  }

  /** The directories the loop creates: every parent chain. */
  function Created(entries: seq<(string, string)>, base: string): set<string>
    decreases |entries|
  {
    if entries == [] then {}
    else DirChain(Dirname(PathJoin(base, entries[0].0))) + Created(entries[1..], base)
  }

  /** A path that ends in `/` still does after joining it to a base. */
  lemma PathJoinTrailingSlash(base: string, p: string)
    ensures EndsWithSlash(p) ==> EndsWithSlash(PathJoin(base, p))
  {
    if EndsWithSlash(p) {
      var r := PathJoin(base, p);
      assert r[|r| - |p|..] == p;
      assert r[|r| - 1] == r[|r| - |p|..][|p| - 1];
    }
  }

  /** No entry path ends in `/`. */
  ghost predicate NoDirPaths(entries: seq<(string, string)>) {
    forall k :: 0 <= k < |entries| ==> !EndsWithSlash(entries[k].0)
  }

  /** A loop that runs to the end has written every entry and created every parent
      chain; none of its paths ended in `/`, since `open` refuses those. */
  lemma {:induction false} RunOk(files: map<string, string>, dirs: set<string>, entries: seq<(string, string)>, base: string)
    requires Run(files, dirs, entries, base).ok
    ensures Run(files, dirs, entries, base).files == Written(files, entries, base)
    ensures Run(files, dirs, entries, base).dirs == dirs + Created(entries, base)
    ensures NoDirPaths(entries)
    decreases |entries|
  {
    if entries != [] {
      var o := Enter(files, dirs, PathJoin(base, entries[0].0), entries[0].1);
      RunOk(o.files, o.dirs, entries[1..], base);
      PathJoinTrailingSlash(base, entries[0].0);
      NoDirPathsCons(entries);
    }
  }

  lemma NoDirPathsCons(entries: seq<(string, string)>)
    requires entries != [] && !EndsWithSlash(entries[0].0) && NoDirPaths(entries[1..])
    ensures NoDirPaths(entries)
  {
    forall k | 0 <= k < |entries| ensures !EndsWithSlash(entries[k].0) {
      if k > 0 {
        assert entries[k] == entries[1..][k - 1];
      }
    }
  }

  /** A loop that stops keeps the files of the entries before the failing one. */
  lemma {:induction false} RunFails(files: map<string, string>, dirs: set<string>, entries: seq<(string, string)>, base: string)
    requires !Run(files, dirs, entries, base).ok
    ensures exists n :: 0 <= n < |entries| && Run(files, dirs, entries, base).files == Written(files, entries[..n], base)
    decreases |entries|
  {
    var o := Enter(files, dirs, PathJoin(base, entries[0].0), entries[0].1);
    if !o.ok {
      assert entries[..0] == [];
    } else {
      RunFails(o.files, o.dirs, entries[1..], base);
      var n :| 0 <= n < |entries[1..]| && Run(o.files, o.dirs, entries[1..], base).files == Written(o.files, entries[1..][..n], base);
      RunFailsNext(files, dirs, entries, base, n);
    }
  }

  /** A stop after `n` more entries is a stop after `n + 1` counting the first. */
  lemma RunFailsNext(files: map<string, string>, dirs: set<string>, entries: seq<(string, string)>, base: string, n: nat)
    requires n < |entries| - 1
    requires var o := Enter(files, dirs, PathJoin(base, entries[0].0), entries[0].1);
      o.ok && Run(o.files, o.dirs, entries[1..], base).files == Written(o.files, entries[1..][..n], base)
    ensures Run(files, dirs, entries, base).files == Written(files, entries[..n + 1], base)
  {
    WrittenFirst(files, entries[..n + 1], base);
    assert entries[..n + 1][0] == entries[0] && entries[..n + 1][1..] == entries[1..][..n];
  }

  /** Writing a non-empty list writes its first entry, then the rest. */
  lemma WrittenFirst(files: map<string, string>, entries: seq<(string, string)>, base: string)
    requires entries != []
    ensures Written(files, entries, base) == Written(files[PathJoin(base, entries[0].0) := entries[0].1], entries[1..], base)
  {
  }

  /** A first entry ending in `/` stops the loop before anything is written; its
      directories are still made when `makedirs` succeeds. */
  lemma RunTrailingSlash(files: map<string, string>, dirs: set<string>, entries: seq<(string, string)>, base: string)
    requires entries != [] && EndsWithSlash(entries[0].0)
    ensures var d := Dirname(PathJoin(base, entries[0].0));
      Run(files, dirs, entries, base) == Outcome(false, files, if MakeDirsOk(files, d) then dirs + DirChain(d) else dirs)
  {
    PathJoinTrailingSlash(base, entries[0].0);
  }

  /** After a complete run the parent directory of every entry exists. */
  lemma {:induction false} RunParents(files: map<string, string>, dirs: set<string>, entries: seq<(string, string)>, base: string, k: nat)
    requires Run(files, dirs, entries, base).ok && k < |entries|
    ensures Dirname(PathJoin(base, entries[k].0)) in Run(files, dirs, entries, base).dirs
    decreases k
  {
    var o := Enter(files, dirs, PathJoin(base, entries[0].0), entries[0].1);
    if k == 0 {
      RunKeepsDirs(o.files, o.dirs, entries[1..], base, Dirname(PathJoin(base, entries[0].0)));
    } else {
      assert entries[1..][k - 1] == entries[k];
      RunParents(o.files, o.dirs, entries[1..], base, k - 1);
    }
  }

  /** A complete run removes no directory. */
  lemma RunKeepsDirs(files: map<string, string>, dirs: set<string>, entries: seq<(string, string)>, base: string, q: string)
    requires Run(files, dirs, entries, base).ok && q in dirs
    ensures q in Run(files, dirs, entries, base).dirs
  {
    RunOk(files, dirs, entries, base);
  }

  /** Writing over `files` is the same as overlaying the files written onto an empty disk. */
  lemma {:induction false} WrittenOverlay(files: map<string, string>, entries: seq<(string, string)>, base: string)
    ensures Written(files, entries, base) == files + Written(map[], entries, base)
    decreases |entries|
  {
    if entries != [] {
      var p, c := PathJoin(base, entries[0].0), entries[0].1;
      WrittenOverlay(files[p := c], entries[1..], base);
      WrittenOverlay(map[p := c], entries[1..], base);
      assert map[][p := c] == map[p := c];
    }
  }

  /** The loop adds one file per entry path and no other. */
  lemma {:induction false} WrittenKeys(files: map<string, string>, entries: seq<(string, string)>, base: string, q: string)
    ensures q in Written(files, entries, base) <==>
      q in files || exists k :: 0 <= k < |entries| && q == PathJoin(base, entries[k].0)
    decreases |entries|
  {
    if entries != [] {
      WrittenKeys(files[PathJoin(base, entries[0].0) := entries[0].1], entries[1..], base, q);
      if exists k :: 0 <= k < |entries| && q == PathJoin(base, entries[k].0) {
        var k :| 0 <= k < |entries| && q == PathJoin(base, entries[k].0);
        if k > 0 {
          assert entries[1..][k - 1] == entries[k];
        }
      }
    }
  }

  /** Files at other paths are left as they were. */
  lemma {:induction false} WrittenFrame(files: map<string, string>, entries: seq<(string, string)>, base: string, q: string)
    requires q in files
    requires forall k :: 0 <= k < |entries| ==> q != PathJoin(base, entries[k].0)
    ensures q in Written(files, entries, base) && Written(files, entries, base)[q] == files[q]
    decreases |entries|
  {
    if entries != [] {
      assert forall k :: 0 <= k < |entries[1..]| ==> entries[1..][k] == entries[k + 1];
      WrittenFrame(files[PathJoin(base, entries[0].0) := entries[0].1], entries[1..], base, q);
    }
  }

  /** `os.path.join` keeps relative paths apart. */
  lemma PathJoinInjective(base: string, p: string, q: string)
    requires !StartsWith(p, "/") && !StartsWith(q, "/")
    requires PathJoin(base, p) == PathJoin(base, q)
    ensures p == q
  {
    var pre := if base == "" || EndsWith(base, "/") then base else base + "/";
    assert PathJoin(base, p) == pre + p;
    assert PathJoin(base, q) == pre + q;
    assert p == (pre + p)[|pre|..];
  }

  /** With relative, distinct paths every entry's file holds exactly its content. */
  lemma {:induction false} WrittenAt(files: map<string, string>, entries: seq<(string, string)>, base: string, k: nat)
    requires k < |entries|
    requires RelativeDistinct(entries)
    ensures PathJoin(base, entries[k].0) in Written(files, entries, base)
    ensures Written(files, entries, base)[PathJoin(base, entries[k].0)] == entries[k].1
    decreases |entries|
  {
    var p := PathJoin(base, entries[0].0);
    var files1 := files[p := entries[0].1];
    WrittenFirst(files, entries, base);
    if k == 0 {
      FirstUnshadowed(entries, base);
      WrittenFrame(files1, entries[1..], base, p);
    } else {
      RelativeDistinctTail(entries);
      assert entries[1..][k - 1] == entries[k];
      WrittenAt(files1, entries[1..], base, k - 1);
    }
  }

  /** Relative entry paths, no two alike. */
  ghost predicate RelativeDistinct(entries: seq<(string, string)>) {
    (forall j :: 0 <= j < |entries| ==> !StartsWith(entries[j].0, "/"))
    && (forall i, j :: 0 <= i < j < |entries| ==> entries[i].0 != entries[j].0)
  }

  lemma RelativeDistinctTail(entries: seq<(string, string)>)
    requires entries != [] && RelativeDistinct(entries)
    ensures RelativeDistinct(entries[1..])
  {
    var t := entries[1..];
    forall j | 0 <= j < |t| ensures !StartsWith(t[j].0, "/") {
      assert t[j] == entries[j + 1];
    }
    forall i, j | 0 <= i < j < |t| ensures t[i].0 != t[j].0 {
      assert t[i] == entries[i + 1] && t[j] == entries[j + 1];
    }
  }

  /** No later entry writes the first entry's file. */
  lemma FirstUnshadowed(entries: seq<(string, string)>, base: string)
    requires entries != [] && RelativeDistinct(entries)
    ensures forall j :: 0 <= j < |entries[1..]| ==> PathJoin(base, entries[0].0) != PathJoin(base, entries[1..][j].0)
  {
    forall j | 0 <= j < |entries[1..]| ensures PathJoin(base, entries[0].0) != PathJoin(base, entries[1..][j].0) {
      assert entries[1..][j] == entries[j + 1];
      if PathJoin(base, entries[0].0) == PathJoin(base, entries[j + 1].0) {
        PathJoinInjective(base, entries[0].0, entries[j + 1].0);
      }
    }
  }

  /** Materialising the same entries a second time changes nothing. */
  lemma WriteTwice(files: map<string, string>, entries: seq<(string, string)>, base: string)
    ensures Written(Written(files, entries, base), entries, base) == Written(files, entries, base)
  {
    WrittenOverlay(files, entries, base);
    WrittenOverlay(Written(files, entries, base), entries, base);
  }

  /** Every directory `os.makedirs(d)` creates is a prefix of `d`. */
  lemma {:induction false} PrefixesShort(d: string, n: nat, x: string)
    requires n <= |d| && x in PrefixesUpTo(d, n)
    ensures |x| <= n && x == d[..|x|]
    decreases n
  {
    if x in PrefixesUpTo(d, n - 1) {
      PrefixesShort(d, n - 1, x);
    }
  }

  /** The paths the loop opens. */
  function Paths(entries: seq<(string, string)>, base: string): set<string>
    decreases |entries|
  {
    if entries == [] then {} else {PathJoin(base, entries[0].0)} + Paths(entries[1..], base)
  }

  /** The files after a write are the old ones and the opened paths. */
  lemma {:induction false} WrittenPaths(files: map<string, string>, entries: seq<(string, string)>, base: string)
    ensures Written(files, entries, base).Keys == files.Keys + Paths(entries, base)
    decreases |entries|
  {
    if entries != [] {
      WrittenPaths(files[PathJoin(base, entries[0].0) := entries[0].1], entries[1..], base);
    }
  }

  /** When every `makedirs` and every `open` of the loop succeeds, stated on the entries
      alone: each joined path has a parent and no trailing `/`; no opened path is a
      directory, neither one that exists nor one the loop creates; and no directory the
      loop creates is an existing file. */
  ghost predicate Fits(files: map<string, string>, dirs: set<string>, entries: seq<(string, string)>, base: string) {
    Parented(entries, base)
    && Paths(entries, base) !! dirs + Created(entries, base)
    && files.Keys !! Created(entries, base)
  }

  /** Every joined path has a parent and no trailing `/`. */
  ghost predicate Parented(entries: seq<(string, string)>, base: string)
    decreases |entries|
  {
    entries == [] || (Openable(PathJoin(base, entries[0].0)) && Parented(entries[1..], base))
  }

  /** `p` has a parent to make and does not end in `/`. */
  predicate Openable(p: string) {
    Dirname(p) != "" && !EndsWithSlash(p)
  }

  /** The disjointness of the whole loop, split at its first entry. */
  lemma DisjointFirst(fs: set<string>, ds: set<string>, p: string, ps: set<string>, chain: set<string>, cs: set<string>)
    ensures ({p} + ps !! ds + (chain + cs) && fs !! chain + cs) <==>
      (fs !! chain && p !in ds + chain && ps !! ds + chain + cs && fs + {p} !! cs)
  {
  }

  /** The entries fit when the first one can be written and the rest fit what it leaves. */
  lemma FitsFirst(files: map<string, string>, dirs: set<string>, entries: seq<(string, string)>, base: string)
    requires entries != []
    ensures var p, c := PathJoin(base, entries[0].0), entries[0].1;
      var d := Dirname(p);
      Fits(files, dirs, entries, base) <==>
        MakeDirsOk(files, d) && OpenOk(dirs + DirChain(d), p) && Fits(files[p := c], dirs + DirChain(d), entries[1..], base)
  {
    var p, c := PathJoin(base, entries[0].0), entries[0].1;
    var d := Dirname(p);
    var t := entries[1..];
    DisjointFirst(files.Keys, dirs, p, Paths(t, base), DirChain(d), Created(t, base));
    assert files[p := c].Keys == files.Keys + {p};
    assert MakeDirsOk(files, d) <==> d != "" && files.Keys !! DirChain(d);
    if d != "" {
      DirChainSelf(d);
    }
  }

  /** Two entries fit a disk without files when both have a parent, neither ends in
      `/` or is an existing directory, and both parents are shorter than both paths, so
      that no created directory is an opened path. */
  lemma PairFits(dirs: set<string>, entries: seq<(string, string)>, base: string, p: string, q: string)
    requires |entries| == 2 && PathJoin(base, entries[0].0) == p && PathJoin(base, entries[1].0) == q
    requires Dirname(p) != "" && Dirname(q) != "" && !EndsWithSlash(p) && !EndsWithSlash(q)
    requires |Dirname(p)| < |q| && |Dirname(q)| < |p| && p !in dirs && q !in dirs
    ensures Fits(map[], dirs, entries, base)
  {
    var chains := DirChain(Dirname(p)) + DirChain(Dirname(q));
    PairParts(entries, base);
    ChainsMiss(Dirname(p), Dirname(q), p);
    ChainsMiss(Dirname(p), Dirname(q), q);
    PairMisses(p, q, dirs + chains);
  }

  lemma PairMisses(p: string, q: string, s: set<string>)
    requires p !in s && q !in s
    ensures {p, q} !! s
  {
  }

  /** The opened paths, the created directories and the parents of two entries. */
  lemma PairParts(entries: seq<(string, string)>, base: string)
    requires |entries| == 2
    ensures var p, q := PathJoin(base, entries[0].0), PathJoin(base, entries[1].0);
      Paths(entries, base) == {p, q}
      && Created(entries, base) == DirChain(Dirname(p)) + DirChain(Dirname(q))
      && (Parented(entries, base) <==> Openable(p) && Openable(q))
  {
    var t := entries[1..];
    assert t[0] == entries[1] && t[1..] == [];
    SingleEntry(t, base);
  }

  /** A single entry opens its own path and creates its parent chain. */
  lemma SingleEntry(entries: seq<(string, string)>, base: string)
    requires |entries| == 1
    ensures var p := PathJoin(base, entries[0].0);
      Paths(entries, base) == {p} && Created(entries, base) == DirChain(Dirname(p))
      && (Parented(entries, base) <==> Openable(p))
  {
    assert entries[1..] == [];
  }

  /** A path longer than two directories is on neither's chain. */
  lemma ChainsMiss(d: string, e: string, p: string)
    requires |d| < |p| && |e| < |p|
    ensures p !in DirChain(d) + DirChain(e)
  {
    if p in DirChain(d) {
      PrefixesShort(d, |d|, p);
    }
    if p in DirChain(e) {
      PrefixesShort(e, |e|, p);
    }
  }

  /** The loop runs to the end exactly when the entries fit the file system it starts on. */
  lemma {:induction false} RunOkIff(files: map<string, string>, dirs: set<string>, entries: seq<(string, string)>, base: string)
    ensures Run(files, dirs, entries, base).ok <==> Fits(files, dirs, entries, base)
    decreases |entries|
  {
    if entries != [] {
      var p := PathJoin(base, entries[0].0);
      FitsFirst(files, dirs, entries, base);
      RunOkIff(files[p := entries[0].1], dirs + DirChain(Dirname(p)), entries[1..], base);
    }
  }

  /** Materialising the same entries again over what a complete run left runs to the end
      as well and leaves every file and directory as it was. */
  lemma RunTwice(files: map<string, string>, dirs: set<string>, entries: seq<(string, string)>, base: string)
    requires Run(files, dirs, entries, base).ok
    ensures var o := Run(files, dirs, entries, base);
      Run(o.files, o.dirs, entries, base) == o
  {
    var o := Run(files, dirs, entries, base);
    RunOk(files, dirs, entries, base);
    RunOkIff(files, dirs, entries, base);
    WrittenPaths(files, entries, base);
    assert Fits(o.files, o.dirs, entries, base);
    RunOkIff(o.files, o.dirs, entries, base);
    RunOk(o.files, o.dirs, entries, base);
    WriteTwice(files, entries, base);
  }
}
