/**
  The collector of `collector.py`: it walks a project tree top-down, lists its
  structure as indented lines, gathers the contents of its Python files and its
  `map.txt` files, and serialises both into one document.

  The file system is an immutable tree value. `os.walk` is modelled as the work
  list it keeps: the frame at the front is the directory it yields next, and once
  the loop body has run (and possibly pruned the subdirectories in place), the
  subdirectories are put at the front in listing order.
 */
module Collector {
  import opened Wrappers
  import opened Text
  import opened Sorting

  /** A directory: its name, its files with their contents (`None` when the file
      cannot be read as UTF-8 text), and its subdirectories in listing order. */
  datatype Dir = Dir(name: string, files: seq<(string, Option<string>)>, subdirs: seq<Dir>)

  /** A directory the structure walk skips: its name starts with `__` or `.`. */
  predicate Hidden(name: string) {
    StartsWith(name, "__") || StartsWith(name, ".")
  }

  /** A file both walks report: a `.py` file or a file named `map.txt`. */
  predicate Collected(file: string) {
    EndsWith(file, ".py") || file == "map.txt"
  }

  /** `'    ' * level` */
  function Indent(level: nat): (r: string)
    ensures |r| == 4 * level
    ensures forall k :: 0 <= k < |r| ==> r[k] == ' '
  {
    if level == 0 then "" else "    " + Indent(level - 1)
  }

  /** `s.count(ch)` */
  function CountChar(s: string, ch: char): nat
  {
    if s == [] then 0 else (if s[0] == ch then 1 else 0) + CountChar(s[1..], ch)
  }

  /** A name a directory entry can have: not empty, no separator, not `.`. */
  predicate GoodName(n: string) {
    n != "" && '/' !in n && n != "."
  }

  ghost predicate GoodPath(path: seq<string>) {
    forall i :: 0 <= i < |path| ==> GoodName(path[i])
  }

  /** Every subdirectory below `d` has a good name. */
  ghost predicate GoodTree(d: Dir) {
    forall i :: 0 <= i < |d.subdirs| ==> GoodName(d.subdirs[i].name) && GoodTree(d.subdirs[i])
  }

  /** `os.path.relpath(root, start_path)` for the directory reached from the start
      through the subdirectories `path`. */
  function RelPath(path: seq<string>): string {
    if path == [] then "." else Join(path, "/")
  }

  /** `0 if rel_path == '.' else rel_path.count(os.sep) + 1` */
  function Level(rel: string): nat {
    if rel == "." then 0 else CountChar(rel, '/') + 1
  }

  /** The level the source computes is the depth of the directory. */
  lemma LevelIsDepth(path: seq<string>)
    requires GoodPath(path)
    ensures Level(RelPath(path)) == |path|
  {
    if path != [] {
      JoinCount(path);
      if |path| == 1 {
        assert Join(path, "/") == path[0];
      } else {
        assert CountChar(Join(path, "/"), '/') >= 1;
      }
    }
  }

  /** Joining names without separators: one separator fewer than names. */
  lemma {:induction false} JoinCount(path: seq<string>)
    requires path != [] && GoodPath(path)
    ensures CountChar(Join(path, "/"), '/') == |path| - 1
    decreases |path|
  {
    NoCharCount(path[0], '/');
    if |path| > 1 {
      JoinCount(path[1..]);
      CountCharAppend(path[0], "/" + Join(path[1..], "/"), '/');
      CountCharAppend("/", Join(path[1..], "/"), '/');
      AppendAssoc(path[0], "/", Join(path[1..], "/"));
    }
  }

  lemma {:induction false} NoCharCount(s: string, ch: char)
    requires ch !in s
    ensures CountChar(s, ch) == 0
    decreases |s|
  {
    if s != [] {
      NoCharCount(s[1..], ch);
    }
  }

  lemma {:induction false} CountCharAppend(a: string, b: string, ch: char)
    ensures CountChar(a + b, ch) == CountChar(a, ch) + CountChar(b, ch)
    decreases |a|
  {
    if a != [] {
      assert (a + b)[0] == a[0];
      assert (a + b)[1..] == a[1..] + b;
      CountCharAppend(a[1..], b, ch);
    } else {
      assert a + b == b;
    }
  }

  // ---------------------------------------------------------------------------
  // collect_project_structure

  /** The lines one directory contributes: its own line unless it is the start
      directory, then one line per collected file, in sorted order. */
  function FileLines(indent: string, files: seq<(string, Option<string>)>): (r: seq<string>)
  {
    if files == [] then []
    else
      var f := files[|files| - 1];
      FileLines(indent, files[..|files| - 1]) + (if Collected(f.0) then [indent + "- " + f.0] else [])
  }

  lemma FileLinesStep(indent: string, files: seq<(string, Option<string>)>, i: nat)
    requires i < |files|
    ensures FileLines(indent, files[..i + 1])
         == FileLines(indent, files[..i]) + if Collected(files[i].0) then [indent + "- " + files[i].0] else []
  {
    assert files[..i + 1][..i] == files[..i];
  }

  function DirLine(path: seq<string>, d: Dir): seq<string> {
    if path == [] then [] else [Indent(|path|) + "- " + d.name + "/"]
  }

  /** The structure listing of `d`, reached through `path`, and of everything below
      it that the walk visits: pre-order, hidden subdirectories left out with all
      they contain. */
  function StructureOf(path: seq<string>, d: Dir): seq<string>
    decreases d
  {
    DirLine(path, d) + FileLines(Indent(|path|), SortByName(d.files)) + StructureOfAll(path, d.subdirs)
  }

  /** The listings of the subdirectories `ds` of the directory at `path`. */
  function StructureOfAll(path: seq<string>, ds: seq<Dir>): seq<string>
    decreases ds
  {
    if ds == [] then []
    else (if Hidden(ds[0].name) then [] else StructureOf(path + [ds[0].name], ds[0])) + StructureOfAll(path, ds[1..])
  }

  /** `[d for d in dirs if not d.startswith(('__', '.'))]` */
  function Visible(ds: seq<Dir>): seq<Dir>
  {
    if ds == [] then []
    else (if Hidden(ds[0].name) then [] else [ds[0]]) + Visible(ds[1..])
  }

  /** The frames `os.walk` pushes for the subdirectories `ds` of the directory at `path`. */
  function Frames(path: seq<string>, ds: seq<Dir>): (r: seq<(seq<string>, Dir)>)
    ensures |r| == |ds|
  {
    if ds == [] then [] else [(path + [ds[0].name], ds[0])] + Frames(path, ds[1..])
  }

  /** What the structure walk still has to list for the frames of its work list. */
  function PendingLines(stack: seq<(seq<string>, Dir)>): seq<string> {
    if stack == [] then [] else StructureOf(stack[0].0, stack[0].1) + PendingLines(stack[1..])
  }

  /** Pushing the visible subdirectories puts off exactly the listings of `ds`. */
  lemma {:induction false} PendingVisible(path: seq<string>, ds: seq<Dir>, rest: seq<(seq<string>, Dir)>)
    ensures PendingLines(Frames(path, Visible(ds)) + rest) == StructureOfAll(path, ds) + PendingLines(rest)
    decreases |ds|
  {
    if ds != [] {
      PendingVisible(path, ds[1..], rest);
      var x := ds[0];
      var v := Visible(ds[1..]);
      var later := StructureOfAll(path, ds[1..]);
      if Hidden(x.name) {
        assert Visible(ds) == v;
        assert StructureOfAll(path, ds) == later;
        assert PendingLines(Frames(path, v) + rest) == later + PendingLines(rest);
      } else {
        var f := (path + [x.name], x);
        var t := StructureOf(f.0, f.1);
        assert Visible(ds) == [x] + v;
        assert ([x] + v)[1..] == v;
        FramesCons(path, x, v, rest);
        var st := Frames(path, Visible(ds)) + rest;
        assert st == [f] + (Frames(path, v) + rest);
        assert PendingLines(st) == t + PendingLines(Frames(path, v) + rest);
        assert StructureOfAll(path, ds) == t + later;
        SeqAssoc(t, later, PendingLines(rest));
        assert PendingLines(st) == StructureOfAll(path, ds) + PendingLines(rest);
      }
    } else {
      assert Frames(path, Visible(ds)) + rest == rest;
    }
  }

  lemma FramesCons(path: seq<string>, x: Dir, v: seq<Dir>, rest: seq<(seq<string>, Dir)>)
    ensures Frames(path, [x] + v) + rest == [(path + [x.name], x)] + (Frames(path, v) + rest)
  {
    assert ([x] + v)[1..] == v;
  }

  lemma SeqAssoc<T>(a: seq<T>, b: seq<T>, c: seq<T>)
    ensures a + b + c == a + (b + c)
  {
  }

  /** The number of directories in `d`, for the termination of the walk. */
  function Size(d: Dir): nat
    decreases d
  {
    1 + SizeAll(d.subdirs)
  }

  function SizeAll(ds: seq<Dir>): nat
    decreases ds
  {
    if ds == [] then 0 else Size(ds[0]) + SizeAll(ds[1..])
  }

  function StackSize(stack: seq<(seq<string>, Dir)>): nat {
    if stack == [] then 0 else Size(stack[0].1) + StackSize(stack[1..])
  }

  /** Pushing the subdirectories adds their sizes. */
  lemma {:induction false} StackSizeFrames(path: seq<string>, ds: seq<Dir>, rest: seq<(seq<string>, Dir)>)
    ensures StackSize(Frames(path, ds) + rest) == SizeAll(ds) + StackSize(rest)
    decreases |ds|
  {
    if ds != [] {
      StackSizeFrames(path, ds[1..], rest);
      var st := Frames(path, ds) + rest;
      assert st[0] == (path + [ds[0].name], ds[0]);
      assert st[1..] == Frames(path, ds[1..]) + rest;
    } else {
      assert Frames(path, ds) + rest == rest;
    }
  }

  /** The visible subdirectories are no larger than all of them. */
  lemma {:induction false} SizeVisible(ds: seq<Dir>)
    ensures SizeAll(Visible(ds)) <= SizeAll(ds)
    decreases |ds|
  {
    if ds != [] {
      SizeVisible(ds[1..]);
      var v := Visible(ds[1..]);
      if Hidden(ds[0].name) {
        assert Visible(ds) == v;
      } else {
        assert Visible(ds) == [ds[0]] + v;
        assert ([ds[0]] + v)[1..] == v;
      }
    }
  }

  /** Every visible subdirectory is one of the subdirectories. */
  lemma {:induction false} VisibleIn(ds: seq<Dir>)
    ensures forall i :: 0 <= i < |Visible(ds)| ==> Visible(ds)[i] in ds
    decreases |ds|
  {
    if ds != [] {
      VisibleIn(ds[1..]);
      var v := Visible(ds[1..]);
      assert forall x :: x in v ==> x in ds;
      if !Hidden(ds[0].name) {
        assert Visible(ds) == [ds[0]] + v;
      }
    }
  }

  lemma {:induction false} FramesAt(path: seq<string>, ds: seq<Dir>, i: nat)
    requires i < |ds|
    ensures Frames(path, ds)[i] == (path + [ds[i].name], ds[i])
    decreases i
  {
    if i > 0 {
      FramesAt(path, ds[1..], i - 1);
    }
  }

  /** The frames of a work list all have good paths and good trees. */
  ghost predicate GoodStack(stack: seq<(seq<string>, Dir)>) {
    forall i :: 0 <= i < |stack| ==> GoodPath(stack[i].0) && GoodTree(stack[i].1)
  }

  lemma GoodFrames(path: seq<string>, d: Dir, ds: seq<Dir>, rest: seq<(seq<string>, Dir)>)
    requires GoodPath(path) && GoodTree(d) && GoodStack(rest)
    requires forall i :: 0 <= i < |ds| ==> ds[i] in d.subdirs
    ensures GoodStack(Frames(path, ds) + rest)
  {
    var st := Frames(path, ds) + rest;
    forall i | 0 <= i < |st| ensures GoodPath(st[i].0) && GoodTree(st[i].1) {
      if i < |ds| {
        FramesAt(path, ds, i);
        GoodChild(path, d, ds[i]);
      } else {
        assert st[i] == rest[i - |ds|];
      }
    }
  }

  lemma GoodChild(path: seq<string>, d: Dir, x: Dir)
    requires GoodPath(path) && GoodTree(d) && x in d.subdirs
    ensures GoodPath(path + [x.name]) && GoodTree(x)
  {
    var j :| 0 <= j < |d.subdirs| && d.subdirs[j] == x;
    assert GoodName(d.subdirs[j].name);
    assert forall k :: 0 <= k < |path| ==> (path + [x.name])[k] == path[k];
  }

  /** One step of the walk lists the front directory's own lines and puts off the
      listings of its subdirectories. */
  lemma WalkStep(path: seq<string>, d: Dir, rest: seq<(seq<string>, Dir)>, before: seq<string>)
    ensures before + PendingLines([(path, d)] + rest)
         == before + DirLine(path, d) + FileLines(Indent(|path|), SortByName(d.files))
            + (StructureOfAll(path, d.subdirs) + PendingLines(rest))
  {
    assert ([(path, d)] + rest)[1..] == rest;
    var a, b, c := DirLine(path, d), FileLines(Indent(|path|), SortByName(d.files)), StructureOfAll(path, d.subdirs);
    assert PendingLines([(path, d)] + rest) == a + b + c + PendingLines(rest);
    Regroup(before, a, b, c, PendingLines(rest));
  }

  lemma Regroup<T>(x: seq<T>, a: seq<T>, b: seq<T>, c: seq<T>, p: seq<T>)
    ensures x + (a + b + c + p) == x + a + b + (c + p)
  {
  }

  /** After the front directory is visited, its lines are written and its visible
      subdirectories are pending in its place. */
  lemma VisitLines(path: seq<string>, d: Dir, rest: seq<(seq<string>, Dir)>, before: seq<string>, whole: seq<string>)
    requires before + PendingLines([(path, d)] + rest) == whole
    ensures before + DirLine(path, d) + FileLines(Indent(|path|), SortByName(d.files))
            + PendingLines(Frames(path, Visible(d.subdirs)) + rest) == whole
  {
    PendingVisible(path, d.subdirs, rest);
    WalkStep(path, d, rest, before);
  }

  /** The new work list is smaller and still well formed. */
  lemma VisitFrames(path: seq<string>, d: Dir, rest: seq<(seq<string>, Dir)>)
    requires GoodStack([(path, d)] + rest)
    ensures StackSize(Frames(path, Visible(d.subdirs)) + rest) < StackSize([(path, d)] + rest)
    ensures GoodStack(Frames(path, Visible(d.subdirs)) + rest)
  {
    var dirs := Visible(d.subdirs);
    var st := [(path, d)] + rest;
    assert st[0] == (path, d) && st[1..] == rest;
    StackSizeFrames(path, dirs, rest);
    SizeVisible(d.subdirs);
    VisibleIn(d.subdirs);
    assert GoodPath(path) && GoodTree(d) by {
      assert GoodPath(st[0].0) && GoodTree(st[0].1);
    }
    assert GoodStack(rest) by {
      forall i | 0 <= i < |rest| ensures GoodPath(rest[i].0) && GoodTree(rest[i].1) {
        assert rest[i] == st[i + 1];
      }
    }
    GoodFrames(path, d, dirs, rest);
  }

  /** `for file in sorted(files): if ...: structure.append(f'{indent}- {file}')` */
  method AppendFileLines(lines: seq<string>, indent: string, files: seq<(string, Option<string>)>)
    returns (structure: seq<string>)
    ensures structure == lines + FileLines(indent, files)
  {
    structure := lines;
    for i := 0 to |files|
      invariant structure == lines + FileLines(indent, files[..i])
    {
      FileLinesStep(indent, files, i);
      if Collected(files[i].0) {
        SeqAssoc(lines, FileLines(indent, files[..i]), [indent + "- " + files[i].0]);
        structure := structure + [indent + "- " + files[i].0];
      }
    }
    assert files[..|files|] == files;
  }

  /** The lines one directory adds: its own line, at its depth (none for the start
      directory), then its collected files in name order, one level deeper. */
  method AppendDirLines(lines: seq<string>, path: seq<string>, d: Dir) returns (structure: seq<string>)
    requires GoodPath(path)
    ensures structure == lines + DirLine(path, d) + FileLines(Indent(|path|), SortByName(d.files))
  {
    structure := lines;
    var relPath := RelPath(path);
    var level := Level(relPath);
    LevelIsDepth(path);
    var indent := Indent(level);
    if level > 0 {
      structure := structure + [indent + "- " + d.name + "/"];
    }
    assert structure == lines + DirLine(path, d);
    structure := AppendFileLines(structure, indent, SortByName(d.files));
  }

  /** `collect_project_structure`: one step of the loop per directory `os.walk`
      yields, pruning the hidden subdirectories before the walk descends. The
      result is the pre-order listing of the visible tree. */
  method CollectProjectStructure(start: Dir) returns (structure: seq<string>)
    requires GoodTree(start)
    ensures structure == StructureOf([], start)
  {
    structure := [];
    var stack: seq<(seq<string>, Dir)> := [([], start)];
    assert PendingLines(stack) == StructureOf([], start) + PendingLines([]);
    while stack != []
      invariant GoodStack(stack)
      invariant structure + PendingLines(stack) == StructureOf([], start)
      decreases StackSize(stack)
    {
      var (path, d) := stack[0];
      ghost var before := structure;
      assert stack == [(path, d)] + stack[1..];
      var dirs := Visible(d.subdirs);
      structure := AppendDirLines(structure, path, d);
      VisitLines(path, d, stack[1..], before, StructureOf([], start));
      VisitFrames(path, d, stack[1..]);
      stack := Frames(path, dirs) + stack[1..];
    }
  }

  // ---------------------------------------------------------------------------
  // collect_file_contents

  /** `os.path.relpath(os.path.join(root, file), start_path)` */
  function RelFile(path: seq<string>, file: string): string {
    Join(path + [file], "/")
  }

  /** `'python' if file.endswith('.py') else 'text'` */
  function FileType(file: string): string {
    if EndsWith(file, ".py") then "python" else "text"
  }

  /** The triples one directory contributes, for its files in the given order: one
      per collected file that can be read; a file that cannot be read is skipped. */
  function ContentEntries(path: seq<string>, files: seq<(string, Option<string>)>): seq<(string, string, string)>
  {
    if files == [] then []
    else
      var f := files[|files| - 1];
      ContentEntries(path, files[..|files| - 1])
      + (if Collected(f.0) && f.1.Some? then [(RelFile(path, f.0), f.1.value, FileType(f.0))] else [])
  }

  /** The triples of `d`, reached through `path`, and of everything below it, in
      walk order. Nothing is pruned. */
  function ContentsOf(path: seq<string>, d: Dir): seq<(string, string, string)>
    decreases d
  {
    ContentEntries(path, SortByName(d.files)) + ContentsOfAll(path, d.subdirs)
  }

  function ContentsOfAll(path: seq<string>, ds: seq<Dir>): seq<(string, string, string)>
    decreases ds
  {
    if ds == [] then [] else ContentsOf(path + [ds[0].name], ds[0]) + ContentsOfAll(path, ds[1..])
  }

  /** What the contents walk still has to collect for the frames of its work list. */
  function PendingEntries(stack: seq<(seq<string>, Dir)>): seq<(string, string, string)> {
    if stack == [] then [] else ContentsOf(stack[0].0, stack[0].1) + PendingEntries(stack[1..])
  }

  /** Pushing all subdirectories puts off exactly their triples. */
  lemma {:induction false} PendingAll(path: seq<string>, ds: seq<Dir>, rest: seq<(seq<string>, Dir)>)
    ensures PendingEntries(Frames(path, ds) + rest) == ContentsOfAll(path, ds) + PendingEntries(rest)
    decreases |ds|
  {
    if ds != [] {
      var x := ds[0];
      PendingAll(path, ds[1..], rest);
      assert ds == [x] + ds[1..];
      FramesCons(path, x, ds[1..], rest);
      PendingCons((path + [x.name], x), Frames(path, ds[1..]) + rest);
      SeqAssoc(ContentsOf(path + [x.name], x), ContentsOfAll(path, ds[1..]), PendingEntries(rest));
    } else {
      assert Frames(path, ds) + rest == rest;
    }
  }

  /** The front frame's triples come first. */
  lemma PendingCons(f: (seq<string>, Dir), rest: seq<(seq<string>, Dir)>)
    ensures PendingEntries([f] + rest) == ContentsOf(f.0, f.1) + PendingEntries(rest)
  {
    assert ([f] + rest)[1..] == rest;
  }

  lemma ContentsStep(path: seq<string>, d: Dir, rest: seq<(seq<string>, Dir)>, before: seq<(string, string, string)>)
    ensures before + PendingEntries([(path, d)] + rest)
         == before + ContentEntries(path, SortByName(d.files)) + (ContentsOfAll(path, d.subdirs) + PendingEntries(rest))
  {
    assert ([(path, d)] + rest)[1..] == rest;
    var a, c := ContentEntries(path, SortByName(d.files)), ContentsOfAll(path, d.subdirs);
    assert PendingEntries([(path, d)] + rest) == a + c + PendingEntries(rest);
    Regroup(before, a, [], c, PendingEntries(rest));
    assert a + [] == a;
  }

  lemma ContentEntriesStep(path: seq<string>, files: seq<(string, Option<string>)>, i: nat)
    requires i < |files|
    ensures var f := files[i];
      ContentEntries(path, files[..i + 1]) == ContentEntries(path, files[..i])
        + if Collected(f.0) && f.1.Some? then [(RelFile(path, f.0), f.1.value, FileType(f.0))] else []
  {
    assert files[..i + 1][..i] == files[..i];
  }

  /** The loop over one directory's sorted files: a file that cannot be read is
      reported (on stderr, not modelled) and skipped. */
  method AppendContents(collected: seq<(string, string, string)>, path: seq<string>, files: seq<(string, Option<string>)>)
    returns (r: seq<(string, string, string)>)
    ensures r == collected + ContentEntries(path, files)
  {
    r := collected;
    for i := 0 to |files|
      invariant r == collected + ContentEntries(path, files[..i])
    {
      ContentEntriesStep(path, files, i);
      var (file, read) := files[i];
      if Collected(file) {
        var relPath := RelFile(path, file);
        match read
        case Some(content) =>
          var fileType := FileType(file);
          SeqAssoc(collected, ContentEntries(path, files[..i]), [(relPath, content, fileType)]);
          r := r + [(relPath, content, fileType)];
        case None =>
      }
    }
    assert files[..|files|] == files;
  }

  /** `collect_file_contents`: the same walk, without pruning. */
  method CollectFileContents(start: Dir) returns (collected: seq<(string, string, string)>)
    ensures collected == ContentsOf([], start)
  {
    collected := [];
    var stack: seq<(seq<string>, Dir)> := [([], start)];
    assert PendingEntries(stack) == ContentsOf([], start) + PendingEntries([]);
    while stack != []
      invariant collected + PendingEntries(stack) == ContentsOf([], start)
      decreases StackSize(stack)
    {
      var (path, d) := stack[0];
      ghost var before := collected;
      assert stack == [(path, d)] + stack[1..];
      collected := AppendContents(collected, path, SortByName(d.files));
      PendingAll(path, d.subdirs, stack[1..]);
      ContentsStep(path, d, stack[1..], before);
      StackSizeFrames(path, d.subdirs, stack[1..]);
      stack := Frames(path, d.subdirs) + stack[1..];
    }
  }

  // ---------------------------------------------------------------------------
  // What the walks promise

  /** The structure listing of subdirectories in sequence is the listings one after
      the other. */
  lemma {:induction false} StructureOfAllAppend(path: seq<string>, a: seq<Dir>, b: seq<Dir>)
    ensures StructureOfAll(path, a + b) == StructureOfAll(path, a) + StructureOfAll(path, b)
    decreases |a|
  {
    if a == [] {
      assert a + b == b;
    } else {
      assert (a + b)[0] == a[0];
      assert (a + b)[1..] == a[1..] + b;
      StructureOfAllAppend(path, a[1..], b);
      var h := if Hidden(a[0].name) then [] else StructureOf(path + [a[0].name], a[0]);
      SeqAssoc(h, StructureOfAll(path, a[1..]), StructureOfAll(path, b));
    }
  }

  /** A hidden subdirectory contributes no line, neither for itself nor for anything
      below it: the listing is the one of the directory without it. */
  lemma HiddenUnlisted(path: seq<string>, name: string, files: seq<(string, Option<string>)>,
                       before: seq<Dir>, x: Dir, after: seq<Dir>)
    requires Hidden(x.name)
    ensures StructureOf(path, Dir(name, files, before + [x] + after))
         == StructureOf(path, Dir(name, files, before + after))
  {
    var a, b := StructureOfAll(path, before), StructureOfAll(path, after);
    StructureOfAllAppend(path, before + [x], after);
    StructureOfAllAppend(path, before, [x]);
    StructureOfAllAppend(path, before, after);
    assert [x][1..] == [];
    assert StructureOfAll(path, [x]) == [];
    assert a + [] == a;
    assert StructureOfAll(path, before + [x] + after) == a + b;
  }

  /** The triples of subdirectories in sequence are their triples one after the other. */
  lemma {:induction false} ContentsOfAllAppend(path: seq<string>, a: seq<Dir>, b: seq<Dir>)
    ensures ContentsOfAll(path, a + b) == ContentsOfAll(path, a) + ContentsOfAll(path, b)
    decreases |a|
  {
    if a == [] {
      assert a + b == b;
    } else {
      assert (a + b)[0] == a[0];
      assert (a + b)[1..] == a[1..] + b;
      ContentsOfAllAppend(path, a[1..], b);
      SeqAssoc(ContentsOf(path + [a[0].name], a[0]), ContentsOfAll(path, a[1..]), ContentsOfAll(path, b));
    }
  }

  /** The contents walk does not prune: the files of every subdirectory, hidden or not,
      are collected, right after those of the subdirectories listed before it. */
  lemma SubdirCollected(path: seq<string>, name: string, files: seq<(string, Option<string>)>,
                        before: seq<Dir>, x: Dir, after: seq<Dir>)
    ensures ContentsOf(path, Dir(name, files, before + [x] + after))
         == ContentEntries(path, SortByName(files)) + ContentsOfAll(path, before)
            + ContentsOf(path + [x.name], x) + ContentsOfAll(path, after)
  {
    var e := ContentEntries(path, SortByName(files));
    var b := ContentsOfAll(path, before);
    var m := ContentsOf(path + [x.name], x);
    var a := ContentsOfAll(path, after);
    assert ContentsOf(path, Dir(name, files, before + [x] + after)) == e + ContentsOfAll(path, before + [x] + after);
    ContentsOfAllAppend(path, before + [x], after);
    ContentsOfAllAppend(path, before, [x]);
    ContentsOfAllOne(path, x);
    Regroup3(e, b, m, a);
  }

  lemma ContentsOfAllOne(path: seq<string>, x: Dir)
    ensures ContentsOfAll(path, [x]) == ContentsOf(path + [x.name], x)
  {
    assert [x][1..] == [];
    assert ContentsOfAll(path, [x]) == ContentsOf(path + [x.name], x) + [];
  }

  lemma Regroup3<T>(e: seq<T>, b: seq<T>, m: seq<T>, a: seq<T>)
    ensures e + (b + m + a) == e + b + m + a
  {
  }

  /** The names of the collected files, in the given order. */
  function CollectedNames(files: seq<(string, Option<string>)>): seq<string> {
    if files == [] then []
    else
      var f := files[|files| - 1];
      CollectedNames(files[..|files| - 1]) + (if Collected(f.0) then [f.0] else [])
  }

  /** One line per collected name, in the same order. */
  lemma {:induction false} FileLinesNames(indent: string, files: seq<(string, Option<string>)>)
    ensures |FileLines(indent, files)| == |CollectedNames(files)|
    ensures forall i :: 0 <= i < |CollectedNames(files)| ==> FileLines(indent, files)[i] == indent + "- " + CollectedNames(files)[i]
    decreases |files|
  {
    if files != [] {
      FileLinesNames(indent, files[..|files| - 1]);
    }
  }

  /** The collected names are the names of the files that are collected. */
  lemma {:induction false} CollectedNamesMembers(files: seq<(string, Option<string>)>, n: string)
    ensures n in CollectedNames(files) <==> Collected(n) && exists j :: 0 <= j < |files| && files[j].0 == n
    decreases |files|
  {
    if files != [] {
      var front := files[..|files| - 1];
      CollectedNamesMembers(front, n);
      if exists j :: 0 <= j < |front| && front[j].0 == n {
        var j :| 0 <= j < |front| && front[j].0 == n;
        assert files[j].0 == n;
      }
      if exists j :: 0 <= j < |files| && files[j].0 == n {
        var j :| 0 <= j < |files| && files[j].0 == n;
        if j < |front| {
          assert front[j].0 == n;
        }
      }
    }
  }

  /** Files in name order give their collected names in order. */
  lemma {:induction false} CollectedNamesSorted(files: seq<(string, Option<string>)>)
    requires SortedByName(files)
    ensures forall i, j :: 0 <= i < j < |CollectedNames(files)| ==> LexLe(CollectedNames(files)[i], CollectedNames(files)[j])
    decreases |files|
  {
    if files != [] {
      var front := files[..|files| - 1];
      var last := files[|files| - 1];
      assert SortedByName(front);
      CollectedNamesSorted(front);
      var cf := CollectedNames(front);
      if Collected(last.0) {
        var cn := CollectedNames(files);
        assert cn == cf + [last.0];
        forall i, j | 0 <= i < j < |cn| ensures LexLe(cn[i], cn[j]) {
          if j == |cf| {
            assert cf[i] in cf;
            CollectedNamesMembers(front, cf[i]);
            var k :| 0 <= k < |front| && front[k].0 == cf[i];
            assert files[k].0 == cf[i];
          } else {
            assert cn[i] == cf[i] && cn[j] == cf[j];
          }
        }
      }
    }
  }

  /** The file lines of a directory: one `indent + "- " + name` line for each
      collected file and no other, in sorted name order. */
  lemma DirFileLines(indent: string, files: seq<(string, Option<string>)>)
    ensures var names := CollectedNames(SortByName(files));
      && FileLines(indent, SortByName(files)) == seq(|names|, i requires 0 <= i < |names| => indent + "- " + names[i])
      && (forall i, j :: 0 <= i < j < |names| ==> LexLe(names[i], names[j]))
      && (forall n :: n in names <==> Collected(n) && exists j :: 0 <= j < |files| && files[j].0 == n)
  {
    var sorted := SortByName(files);
    var names := CollectedNames(sorted);
    FileLinesNames(indent, sorted);
    CollectedNamesSorted(sorted);
    forall n ensures n in names <==> Collected(n) && exists j :: 0 <= j < |files| && files[j].0 == n {
      CollectedNamesMembers(sorted, n);
      if exists j :: 0 <= j < |sorted| && sorted[j].0 == n {
        var j :| 0 <= j < |sorted| && sorted[j].0 == n;
        assert sorted[j] in multiset(files);
        var k :| 0 <= k < |files| && files[k] == sorted[j];
      }
      if exists j :: 0 <= j < |files| && files[j].0 == n {
        var j :| 0 <= j < |files| && files[j].0 == n;
        assert files[j] in multiset(sorted);
        var k :| 0 <= k < |sorted| && sorted[k] == files[j];
      }
    }
  }

  /** The triples of one directory are exactly those of its readable collected files. */
  lemma {:induction false} ContentEntriesMembers(path: seq<string>, files: seq<(string, Option<string>)>, e: (string, string, string))
    ensures e in ContentEntries(path, files) <==> exists j :: 0 <= j < |files| && Yields(path, files[j], e)
    decreases |files|
  {
    if files != [] {
      var front := files[..|files| - 1];
      ContentEntriesMembers(path, front, e);
      ContentEntriesLast(path, files, e);
      if e in ContentEntries(path, files) {
        if e in ContentEntries(path, front) {
          var j :| 0 <= j < |front| && Yields(path, front[j], e);
          assert files[j] == front[j];
        } else {
          assert Yields(path, files[|files| - 1], e);
        }
      } else {
        forall j | 0 <= j < |files| ensures !Yields(path, files[j], e) {
          if j < |front| {
            assert files[j] == front[j];
          }
        }
      }
    }
  }

  /** The entry a file yields when it is collected and readable. */
  predicate Yields(path: seq<string>, f: (string, Option<string>), e: (string, string, string)) {
    Collected(f.0) && f.1.Some? && e == (RelFile(path, f.0), f.1.value, FileType(f.0))
  }

  lemma ContentEntriesLast(path: seq<string>, files: seq<(string, Option<string>)>, e: (string, string, string))
    requires files != []
    ensures e in ContentEntries(path, files) <==> e in ContentEntries(path, files[..|files| - 1]) || Yields(path, files[|files| - 1], e)
  {
  }

  /** The relative path of a file ends with the file's name. */
  lemma RelFileEnds(path: seq<string>, file: string, suffix: string)
    requires |suffix| <= |file|
    ensures EndsWith(RelFile(path, file), suffix) <==> EndsWith(file, suffix)
  {
    var r := RelFile(path, file);
    var pre := if path == [] then "" else Join(path, "/") + "/";
    if path == [] {
      assert path + [file] == [file];
    } else {
      JoinAppend(path, [file], "/");
    }
    assert r == pre + file;
    assert r[|r| - |suffix|..] == file[|file| - |suffix|..];
  }

  /** The type a triple carries: `python` exactly for the paths ending in `.py`, and
      otherwise `text`, which only a `map.txt` file gets. */
  predicate Typed(e: (string, string, string)) {
    (e.2 == "python" <==> EndsWith(e.0, ".py"))
    && (e.2 == "python" || e.2 == "text")
    && (e.2 == "text" ==> EndsWith(e.0, "map.txt"))
  }

  lemma {:induction false} EntriesTyped(path: seq<string>, files: seq<(string, Option<string>)>)
    ensures forall i :: 0 <= i < |ContentEntries(path, files)| ==> Typed(ContentEntries(path, files)[i])
    decreases |files|
  {
    if files != [] {
      var f := files[|files| - 1];
      EntriesTyped(path, files[..|files| - 1]);
      if Collected(f.0) {
        RelFileEnds(path, f.0, ".py");
        if f.0 == "map.txt" {
          RelFileEnds(path, f.0, "map.txt");
          assert !EndsWith("map.txt", ".py");
        }
      }
    }
  }

  /** Every triple of the walk carries the type its path calls for. */
  lemma {:induction false} ContentsTyped(path: seq<string>, d: Dir)
    ensures forall i :: 0 <= i < |ContentsOf(path, d)| ==> Typed(ContentsOf(path, d)[i])
    decreases d
  {
    EntriesTyped(path, SortByName(d.files));
    ContentsAllTyped(path, d.subdirs);
  }

  lemma {:induction false} ContentsAllTyped(path: seq<string>, ds: seq<Dir>)
    ensures forall i :: 0 <= i < |ContentsOfAll(path, ds)| ==> Typed(ContentsOfAll(path, ds)[i])
    decreases ds
  {
    if ds != [] {
      ContentsTyped(path + [ds[0].name], ds[0]);
      ContentsAllTyped(path, ds[1..]);
    }
  }

  // ---------------------------------------------------------------------------
  // generate_output_content

  const Title: string := "# Project Structure\n"
  const Intro: string := "The project is organized as follows:\n"
  const ContentsTitle: string := "## File Contents\n"

  /** `f"```{file_type}" if file_type == 'python' else "```"` */
  function Fence(fileType: string): string {
    if fileType == "python" then "```python" else "```"
  }

  /** `f"# {file_path}" if file_type == 'python' else ""` */
  function CommentLine(path: string, fileType: string): string {
    if fileType == "python" then "# " + path else ""
  }

  /** The block of one file in the document: a blank line, the `### ` heading, a
      blank line, the fence, the comment line, the content and the closing fence. */
  function FileBlock(f: (string, string, string)): string {
    "\n" + "### " + f.0 + "\n" + "\n" + Fence(f.2) + "\n" + CommentLine(f.0, f.2) + "\n" + f.1 + "\n" + "```\n"
  }

  function FileBlocks(files: seq<(string, string, string)>): string {
    if files == [] then "" else FileBlocks(files[..|files| - 1]) + FileBlock(files[|files| - 1])
  }

  /** The document: the title, a blank line, the introduction, a blank line, the
      structure lines inside a fence, a blank line, the contents title, then one block
      per file in the given order. */
  function OutputText(structure: seq<string>, files: seq<(string, string, string)>): string {
    Title + "\n" + Intro + "\n" + "```\n" + Listing(structure) + "```\n" + "\n" + ContentsTitle + FileBlocks(files)
  }

  /** The items the first `output.extend` adds. */
  function HeaderLines(structure: seq<string>): seq<string> {
    [Title, Intro, "```"] + structure + ["```\n", ContentsTitle]
  }

  /** The items the loop adds for one file. */
  function BlockLines(f: (string, string, string)): seq<string> {
    ["### " + f.0 + "\n", Fence(f.2), CommentLine(f.0, f.2), f.1, "```\n"]
  }

  function AllBlockLines(files: seq<(string, string, string)>): seq<string> {
    if files == [] then [] else AllBlockLines(files[..|files| - 1]) + BlockLines(files[|files| - 1])
  }

  /** `generate_output_content`: the items collected in a list, then joined with
      newlines. */
  method GenerateOutputContent(structure: seq<string>, files: seq<(string, string, string)>) returns (r: string)
    ensures r == OutputText(structure, files)
  {
    var output: seq<string> := [];
    output := output + HeaderLines(structure);
    assert output == HeaderLines(structure) + AllBlockLines(files[..0]);
    for i := 0 to |files|
      invariant output == HeaderLines(structure) + AllBlockLines(files[..i])
    {
      var (filePath, content, fileType) := files[i];
      assert files[..i + 1][..i] == files[..i];
      SeqAssoc(HeaderLines(structure), AllBlockLines(files[..i]), BlockLines(files[i]));
      var items := [
        "### " + filePath + "\n",
        if fileType == "python" then "```" + fileType else "```",
        if fileType == "python" then "# " + filePath else "",
        content,
        "```\n"
      ];
      assert "```" + "python" == "```python";
      assert items == BlockLines(files[i]);
      output := output + items;
    }
    assert files[..|files|] == files;
    r := Join(output, "\n");
    JoinOutput(structure, files);
  }

  /** Joining the collected items gives the document. */
  lemma {:induction false} JoinOutput(structure: seq<string>, files: seq<(string, string, string)>)
    ensures Join(HeaderLines(structure) + AllBlockLines(files), "\n") == OutputText(structure, files)
    decreases |files|
  {
    if files == [] {
      assert HeaderLines(structure) + [] == HeaderLines(structure);
      JoinHeader(structure);
    } else {
      var front := files[..|files| - 1];
      var f := files[|files| - 1];
      JoinOutput(structure, front);
      var h := HeaderLines(structure) + AllBlockLines(front);
      SeqAssoc(HeaderLines(structure), AllBlockLines(front), BlockLines(f));
      JoinAppend(h, BlockLines(f), "\n");
      JoinBlock(f);
      var head := Title + "\n" + Intro + "\n" + "```\n" + Listing(structure) + "```\n" + "\n" + ContentsTitle;
      AppendAssoc(head, FileBlocks(front), FileBlock(f));
      AppendAssoc(head + FileBlocks(front), "\n", Join(BlockLines(f), "\n"));
    }
  }

  /** The items of one file, joined and preceded by the separator, are its block. */
  lemma JoinBlock(f: (string, string, string))
    ensures "\n" + Join(BlockLines(f), "\n") == FileBlock(f)
  {
    var (p, c, t) := f;
    Join5("### " + p + "\n", Fence(t), CommentLine(p, t), c, "```\n", "\n");
    Flatten("\n", "### ", p, "\n", Fence(t), CommentLine(p, t), c, "```\n", "\n");
  }

  lemma Join5(a: string, b: string, c: string, d: string, e: string, sep: string)
    ensures Join([a, b, c, d, e], sep) == a + sep + (b + sep + (c + sep + (d + sep + e)))
  {
    var ls := [a, b, c, d, e];
    assert ls[1..] == [b, c, d, e];
    assert ls[1..][1..] == [c, d, e];
    assert ls[1..][1..][1..] == [d, e];
    assert ls[1..][1..][1..][1..] == [e];
    assert Join([e], sep) == e;
    assert Join([d, e], sep) == d + sep + e;
    assert Join([c, d, e], sep) == c + sep + (d + sep + e);
    assert Join([b, c, d, e], sep) == b + sep + (c + sep + (d + sep + e));
  }

  lemma Flatten(x: string, a1: string, a2: string, a3: string, b: string, c: string, d: string, e: string, n: string)
    ensures x + (a1 + a2 + a3 + n + (b + n + (c + n + (d + n + e))))
         == x + a1 + a2 + a3 + n + b + n + c + n + d + n + e
  {
  }

  /** The header items, joined, are the document before the first block. */
  lemma JoinHeader(structure: seq<string>)
    ensures Join(HeaderLines(structure), "\n")
         == Title + "\n" + Intro + "\n" + "```\n" + Listing(structure) + "```\n" + "\n" + ContentsTitle
  {
    var t := structure + ["```\n"];
    var u := ["```"] + t;
    var v := u + [ContentsTitle];
    var w := [Intro] + v;
    assert HeaderLines(structure) == [Title] + w;
    JoinListing(structure, "```\n");
    JoinCons("```", t, "\n");
    JoinSnoc(u, ContentsTitle, "\n");
    JoinCons(Intro, v, "\n");
    JoinCons(Title, w, "\n");
    assert "```" + "\n" == "```\n";
    FlattenHeader(Title, Intro, "```", "\n", Listing(structure), "```\n", ContentsTitle);
  }

  lemma FlattenHeader(t: string, i: string, f: string, n: string, l: string, c: string, h: string)
    ensures t + n + (i + n + (f + n + (l + c) + n + h)) == t + n + i + n + (f + n) + l + c + n + h
  {
  }

  lemma JoinCons(x: string, xs: seq<string>, sep: string)
    requires xs != []
    ensures Join([x] + xs, sep) == x + sep + Join(xs, sep)
  {
    assert ([x] + xs)[1..] == xs;
  }

  lemma JoinSnoc(xs: seq<string>, y: string, sep: string)
    requires xs != []
    ensures Join(xs + [y], sep) == Join(xs, sep) + sep + y
  {
    JoinAppend(xs, [y], sep);
  }

  /** Joining lines and a last item: each line followed by a newline, then the item. */
  lemma {:induction false} JoinListing(lines: seq<string>, last: string)
    ensures Join(lines + [last], "\n") == Listing(lines) + last
    decreases |lines|
  {
    if lines == [] {
      assert lines + [last] == [last];
    } else {
      assert lines + [last] == [lines[0]] + (lines[1..] + [last]);
      JoinCons(lines[0], lines[1..] + [last], "\n");
      JoinListing(lines[1..], last);
      AppendAssoc(lines[0] + "\n", Listing(lines[1..]), last);
    }
  }
}
