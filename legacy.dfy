/**
  The older stand-alone generator: it finds the Python file names mentioned in a
  `- name.py` tree, scans the document line by line remembering the last file
  mentioned, and stores the first ```` ```python ```` block seen for each file.
  It also extracts an ASCII map block and writes it to `maps/map.txt`.
 */
module Legacy {
  import opened Wrappers
  import opened Text
  import opened OrderedDict
  import opened FileSystem

  // ---------------------------------------------------------------------------
  // The valid-file pattern `- ([^/\n]+/)*[^/\n]+\.py`

  /** The class `[^/\n]`. */
  predicate SegChar(c: char) {
    c != '/' && c != '\n'
  }

  /** `.py` ends at index `q` of `s`. */
  predicate PyAt(s: string, q: int) {
    3 <= q <= |s| && s[q - 3] == '.' && s[q - 2] == 'p' && s[q - 1] == 'y'
  }

  /** End of the run of `[^/\n]` characters of `s` from `i`. */
  function SegEnd(s: string, i: nat): (r: nat)
    requires i <= |s|
    decreases |s| - i
    ensures i <= r <= |s|
    ensures r == |s| || !SegChar(s[r])
  {
    if i == |s| || !SegChar(s[i]) then i else SegEnd(s, i + 1)
  }

  lemma {:induction false} SegEndChars(s: string, i: nat)
    requires i <= |s|
    ensures forall k :: i <= k < SegEnd(s, i) ==> SegChar(s[k])
    decreases |s| - i
  {
    if i < |s| && SegChar(s[i]) {
      SegEndChars(s, i + 1);
    }
  }

  /** Where `[^/\n]+\.py` stops when it starts at `i` and its run ends at `e`: after
      the last `.py` with at least one character before it. */
  function LastPy(s: string, i: nat, e: nat): (r: Option<nat>)
    requires i <= e <= |s|
    decreases e
    ensures r.Some? ==> i + 4 <= r.value <= e && PyAt(s, r.value)
    ensures r.Some? ==> forall q :: r.value < q <= e ==> !PyAt(s, q)
    ensures r.None? ==> forall q :: i + 4 <= q <= e ==> !PyAt(s, q)
  {
    if e < i + 4 then None
    else if PyAt(s, e) then Some(e)
    else LastPy(s, i, e - 1)
  }

  /** Where `([^/\n]+/)*[^/\n]+\.py` stops when it starts at `i`, in the order a
      backtracking matcher tries the alternatives: as many `segment/` repetitions
      as possible first, then the longest final segment. */
  function PathEnd(s: string, i: nat): (r: Option<nat>)
    requires i <= |s|
    decreases |s| - i
    ensures r.Some? ==> i + 4 <= r.value <= |s|
  {
    var e := SegEnd(s, i);
    var deeper := if e < |s| && s[e] == '/' && e > i then PathEnd(s, e + 1) else None;
    if deeper.Some? then deeper else LastPy(s, i, e)
  }

  /** `s[i..r]` is a word of `([^/\n]+/)*[^/\n]+\.py`: no newline, no empty segment,
      and a last segment of at least one character followed by `.py`. */
  ghost predicate PathSpan(s: string, i: nat, r: nat) {
    i + 4 <= r <= |s| && PyAt(s, r) && s[r - 4] != '/' && s[i] != '/'
    && (forall k :: i <= k < r ==> s[k] != '\n')
    && (forall k :: i < k < r ==> s[k - 1] != '/' || s[k] != '/')
  }

  /** A word that runs past the first segment continues with a word after the `/`. */
  lemma PathSpanTail(s: string, i: nat, r: nat)
    requires PathSpan(s, i, r) && SegEnd(s, i) < r
    ensures var e := SegEnd(s, i); e > i && s[e] == '/' && PathSpan(s, e + 1, r)
  {
    var e := SegEnd(s, i);
    SegEndChars(s, i);
    assert e <= r - 5;
  }

  /** What the matcher finds is a word of the pattern. */
  lemma {:induction false} PathEndSound(s: string, i: nat)
    requires i <= |s| && PathEnd(s, i).Some?
    ensures PathSpan(s, i, PathEnd(s, i).value)
    decreases |s| - i
  {
    var e := SegEnd(s, i);
    SegEndChars(s, i);
    if e < |s| && s[e] == '/' && e > i && PathEnd(s, e + 1).Some? {
      PathEndSound(s, e + 1);
    }
  }

  /** The matcher fails only when no word of the pattern starts at `i`. */
  lemma {:induction false} PathEndComplete(s: string, i: nat, r: nat)
    requires i <= |s| && PathSpan(s, i, r)
    ensures PathEnd(s, i).Some?
    decreases |s| - i
  {
    var e := SegEnd(s, i);
    if r > e {
      PathSpanTail(s, i, r);
      PathEndComplete(s, e + 1, r);
    }
  }

  /** Backtracking in that order finds the longest word. */
  lemma {:induction false} PathEndLongest(s: string, i: nat, r: nat)
    requires i <= |s| && PathSpan(s, i, r)
    ensures PathEnd(s, i).Some? && r <= PathEnd(s, i).value
    decreases |s| - i
  {
    PathEndComplete(s, i, r);
    var e := SegEnd(s, i);
    if r > e {
      PathSpanTail(s, i, r);
      PathEndLongest(s, e + 1, r);
    } else if e < |s| && s[e] == '/' && e > i && PathEnd(s, e + 1).Some? {
      assert PathEnd(s, i) == PathEnd(s, e + 1);
    }
  }

  /** The end of a match of the whole pattern starting at `k`. */
  function MatchEnd(s: string, k: nat): (r: Option<nat>)
    ensures r.Some? ==> k + 6 <= r.value <= |s|
  {
    if k + 2 <= |s| && s[k] == '-' && s[k + 1] == ' ' then PathEnd(s, k + 2) else None
  }

  /** `re.finditer(pattern, s)` from position `k`: the texts of the matches, left to
      right, each search resuming where the previous match ended. */
  function FindAllFrom(s: string, k: nat): (r: seq<string>)
    decreases |s| - k
  {
    if k >= |s| then []
    else match MatchEnd(s, k)
      case Some(e) => [s[k..e]] + FindAllFrom(s, e)
      case None => FindAllFrom(s, k + 1)
  }

  /** Every text found is `- ` followed by a word of the path pattern in `s`. */
  lemma {:induction false} FindAllSound(s: string, k: nat, m: string)
    requires m in FindAllFrom(s, k)
    ensures exists i: nat, e: nat :: k <= i && MatchEnd(s, i) == Some(e) && m == s[i..e]
    decreases |s| - k
  {
    if k < |s| {
      match MatchEnd(s, k)
      case Some(e) =>
        if m != s[k..e] {
          FindAllSound(s, e, m);
        }
      case None =>
        FindAllSound(s, k + 1, m);
    }
  }

  /** The texts of a match are exactly the words `- w` with `w` in the path pattern. */
  lemma MatchShape(s: string, i: nat, e: nat)
    requires MatchEnd(s, i) == Some(e)
    ensures s[i] == '-' && s[i + 1] == ' ' && PathSpan(s, i + 2, e)
  {
    PathEndSound(s, i + 2);
  }

  // ---------------------------------------------------------------------------
  // `.strip('- ')`

  predicate DashOrSpace(c: char) {
    c == '-' || c == ' '
  }

  function LStripDashes(s: string): (r: string)
    decreases |s|
    ensures |r| <= |s| && r == s[|s| - |r|..]
    ensures r == [] || !DashOrSpace(r[0])
  {
    if s != [] && DashOrSpace(s[0]) then LStripDashes(s[1..]) else s
  }

  function RStripDashes(s: string): (r: string)
    decreases |s|
    ensures |r| <= |s| && r == s[..|r|]
    ensures r == [] || !DashOrSpace(r[|r| - 1])
  {
    if s != [] && DashOrSpace(s[|s| - 1]) then RStripDashes(s[..|s| - 1]) else s
  }

  /** `s.strip('- ')`: removes dashes and spaces from both ends. */
  function StripDashes(s: string): (r: string)
    ensures r == [] || (!DashOrSpace(r[0]) && !DashOrSpace(r[|r| - 1]))
  {
    RStripDashes(LStripDashes(s))
  }

  /** Stripping never touches a string that ends in `.py` on the right, and on the
      left it only drops dashes and spaces. */
  lemma {:induction false} LStripDashesDrops(s: string)
    ensures forall k :: 0 <= k < |s| - |LStripDashes(s)| ==> DashOrSpace(s[k])
    decreases |s|
  {
    if s != [] && DashOrSpace(s[0]) {
      LStripDashesDrops(s[1..]);
      assert forall k :: 1 <= k < |s| ==> s[k] == s[1..][k - 1];
    }
  }

  /** A match text `- w`, stripped, is a non-empty suffix of `w` that still ends in
      `.py` and starts with neither a dash nor a space. */
  lemma StripMatch(m: string)
    requires |m| >= 6 && PyAt(m, |m|)
    ensures var f := StripDashes(m);
      |f| >= 3 && f == m[|m| - |f|..] && PyAt(f, |f|) && !DashOrSpace(f[0])
  {
    var l := LStripDashes(m);
    LStripDashesDrops(m);
    assert |l| >= 3;
    assert l[|l| - 1] == m[|m| - 1];
    assert l[|l| - 2] == m[|m| - 2] && l[|l| - 3] == m[|m| - 3];
    assert RStripDashes(l) == l;
  }

  /** `valid_files`: the stripped texts of all matches in the document. */
  function ValidFiles(content: string): (r: seq<string>)
    ensures |r| == |FindAllFrom(content, 0)|
    ensures forall i :: 0 <= i < |r| ==> r[i] == StripDashes(FindAllFrom(content, 0)[i])
  {
    var ms := FindAllFrom(content, 0);
    seq(|ms|, i requires 0 <= i < |ms| => StripDashes(ms[i]))
  }

  /** Every valid file name ends in `.py`, has no newline, and is the tail of a path
      written after `- ` somewhere in the document. */
  lemma ValidFileShape(content: string, n: nat)
    requires n < |ValidFiles(content)|
    ensures var f := ValidFiles(content)[n];
      |f| >= 3 && PyAt(f, |f|) && !DashOrSpace(f[0]) && '\n' !in f
      && exists i: nat, e: nat :: MatchEnd(content, i) == Some(e) && EndsWith(content[i..e], f)
  {
    var ms := FindAllFrom(content, 0);
    var m := ms[n];
    assert m in ms;
    MatchTextShape(content, m);
    StrippedShape(m);
    assert StripDashes(m) == ValidFiles(content)[n];
  }

  /** The stripped text of a match keeps its `.py` end and has no newline. */
  lemma StrippedShape(m: string)
    requires |m| >= 6 && PyAt(m, |m|) && '\n' !in m
    ensures var f := StripDashes(m);
      |f| >= 3 && PyAt(f, |f|) && !DashOrSpace(f[0]) && '\n' !in f && EndsWith(m, f)
  {
    StripMatch(m);
    var f := StripDashes(m);
    assert forall k :: 0 <= k < |f| ==> f[k] == m[|m| - |f| + k];
  }

  /** A text found by the search is a match of the whole pattern in the document. */
  lemma MatchTextShape(content: string, m: string)
    requires m in FindAllFrom(content, 0)
    ensures |m| >= 6 && PyAt(m, |m|) && '\n' !in m
    ensures exists i: nat, e: nat :: MatchEnd(content, i) == Some(e) && m == content[i..e]
  {
    FindAllSound(content, 0, m);
    var i: nat, e: nat :| MatchEnd(content, i) == Some(e) && m == content[i..e];
    MatchText(content, i, e);
  }

  /** The text of a match ends in `.py` and holds no newline. */
  lemma MatchText(content: string, i: nat, e: nat)
    requires MatchEnd(content, i) == Some(e)
    ensures var m := content[i..e]; |m| >= 6 && PyAt(m, |m|) && '\n' !in m
  {
    var m := content[i..e];
    MatchShape(content, i, e);
    assert m[|m| - 1] == content[e - 1] && m[|m| - 2] == content[e - 2] && m[|m| - 3] == content[e - 3];
    forall k | 0 <= k < |m| ensures m[k] != '\n' {
      assert m[k] == content[i + k];
      if k >= 2 {
        assert content[i + 2 + (k - 2)] != '\n';
      }
    }
  }

  /** A two-line tree: a directory `d/` holding `b.py`. */
  const NestedTree: string := "- d/\n  - b.py"

  /** The directory line is no match: `d/` is followed by a newline, not by a name. */
  lemma NestedDirLineNoMatch()
    ensures MatchEnd(NestedTree, 0).None?
  {
    assert SegEnd(NestedTree, 4) == 4;
    assert PathEnd(NestedTree, 4).None?;
    assert SegEnd(NestedTree, 3) == 3;
    assert SegEnd(NestedTree, 2) == 3;
    assert LastPy(NestedTree, 2, 3).None?;
  }

  lemma NestedFileLineMatch()
    ensures MatchEnd(NestedTree, 7) == Some(13)
  {
    assert SegEnd(NestedTree, 13) == 13;
    assert SegEnd(NestedTree, 9) == 13;
    assert PyAt(NestedTree, 13);
  }

  lemma NestedNoStart(k: nat)
    requires 0 < k < 7
    ensures MatchEnd(NestedTree, k).None?
  {
    assert NestedTree[k] != '-';
  }

  lemma NestedMatches()
    ensures FindAllFrom(NestedTree, 0) == ["- b.py"]
  {
    NestedDirLineNoMatch();
    NestedNoStart(1); NestedNoStart(2); NestedNoStart(3);
    NestedNoStart(4); NestedNoStart(5); NestedNoStart(6);
    NestedFileLineMatch();
    assert FindAllFrom(NestedTree, 13) == [];
    assert NestedTree[7..13] == "- b.py";
  }

  /** A file listed inside a directory is known by its bare name, not by `d/b.py`. */
  lemma NestedEntryBareName()
    ensures ValidFiles(NestedTree) == ["b.py"]
  {
    NestedMatches();
    StripListed();
  }

  lemma StripListed()
    ensures StripDashes("- b.py") == "b.py"
  {
    LStripDrop("- b.py");
    assert "- b.py"[1..] == " b.py";
    LStripDrop(" b.py");
    assert " b.py"[1..] == "b.py";
    LStripKeep("b.py");
    RStripKeep("b.py");
  }

  lemma LStripDrop(s: string)
    requires s != [] && DashOrSpace(s[0])
    ensures LStripDashes(s) == LStripDashes(s[1..])
  {
  }

  lemma LStripKeep(s: string)
    requires s != [] && !DashOrSpace(s[0])
    ensures LStripDashes(s) == s
  {
  }

  lemma RStripKeep(s: string)
    requires s != [] && !DashOrSpace(s[|s| - 1])
    ensures RStripDashes(s) == s
  {
  }

  // ---------------------------------------------------------------------------
  // The line scanner

  /** Index of the first valid file that `line` mentions. */
  function FirstMention(valid: seq<string>, line: string, j: nat): (r: Option<nat>)
    decreases |valid| - j
    ensures r.Some? ==> j <= r.value < |valid| && Contains(line, valid[r.value])
    ensures r.Some? ==> forall k :: j <= k < r.value ==> !Contains(line, valid[k])
    ensures r.None? ==> forall k :: j <= k < |valid| ==> !Contains(line, valid[k])
  {
    if j >= |valid| then None
    else if Contains(line, valid[j]) then Some(j)
    else FirstMention(valid, line, j + 1)
  }

  /** `current_file` after looking at `line`: a line that is not a fence and mentions a
      valid file names the first one in list order; any other line leaves it. */
  function Pick(valid: seq<string>, line: string, current: Option<string>): (r: Option<string>)
    ensures StartsWith(line, "```") ==> r == current
    ensures !StartsWith(line, "```") && FirstMention(valid, line, 0).Some? ==>
      r == Some(valid[FirstMention(valid, line, 0).value])
    ensures (forall k :: 0 <= k < |valid| ==> !Contains(line, valid[k])) ==> r == current
    ensures r == current || (r.Some? && r.value in valid && Contains(line, r.value))
  {
    if StartsWith(line, "```") then current
    else match FirstMention(valid, line, 0)
      case Some(j) => Some(valid[j])
      case None => current
  }

  /** The inner `for file_path in valid_files: ... break`. */
  method PickCurrent(valid: seq<string>, line: string, current: Option<string>) returns (cur: Option<string>)
    ensures cur == Pick(valid, line, current)
  {
    cur := current;
    var fence := StartsWith(line, "```");
    for k := 0 to |valid|
      invariant forall j :: 0 <= j < k ==> fence || !Contains(line, valid[j])
      invariant cur == current
    {
      if Contains(line, valid[k]) && !fence {
        cur := Some(valid[k]);
        assert FirstMention(valid, line, 0) == Some(k);
        return;
      }
    }
    assert !fence ==> FirstMention(valid, line, 0).None?;
  }

  /** Python truthiness of `current_file`. */
  predicate Truthy(current: Option<string>) {
    current.Some? && current.value != ""
  }

  /** Index of the first line at or after `j` whose stripped text is ```` ``` ````, or
      the number of lines. */
  function BodyEnd(lines: seq<string>, j: nat): (r: nat)
    requires j <= |lines|
    decreases |lines| - j
    ensures j <= r <= |lines|
    ensures r < |lines| ==> Strip(lines[r]) == "```"
    ensures forall k :: j <= k < r ==> Strip(lines[k]) != "```"
  {
    if j == |lines| || Strip(lines[j]) == "```" then j else BodyEnd(lines, j + 1)
  }

  /** The `while` loop that gathers a block's lines. */
  method CollectBody(lines: seq<string>, start: nat) returns (code: seq<string>)
    requires start <= |lines|
    ensures code == lines[start..BodyEnd(lines, start)]
  {
    code := [];
    var j := start;
    while j < |lines| && Strip(lines[j]) != "```"
      invariant start <= j <= |lines|
      invariant BodyEnd(lines, j) == BodyEnd(lines, start)
      invariant code == lines[start..j]
      decreases |lines| - j
    {
      code := code + [lines[j]];
      j := j + 1;
    }
  }

  /** The scanner's state: the current file and the files stored so far. */
  datatype Scan = Scan(current: Option<string>, files: Dict<string>)

  /** The code of the block opened on line `i`, lines joined with `\n` and kept as they are. */
  function BlockCode(lines: seq<string>, i: nat): string
    requires i < |lines|
  {
    Join(lines[i + 1..BodyEnd(lines, i + 1)], "\n")
  }

  /** Line `i` opens a block. */
  predicate Opens(lines: seq<string>, i: nat)
    requires i < |lines|
  {
    Strip(lines[i]) == "```python"
  }

  /** Looking at line `i`: update the current file, then store the block the line
      opens unless its file already has one. */
  function Step(valid: seq<string>, lines: seq<string>, i: nat, st: Scan): (r: Scan)
    requires i < |lines|
  {
    var cur := Pick(valid, lines[i], st.current);
    if Opens(lines, i) && Truthy(cur) && !HasKey(st.files, cur.value) then
      Scan(cur, st.files + [(cur.value, BlockCode(lines, i))])
    else Scan(cur, st.files)
  }

  /** The state after the first `n` lines. */
  function StateAt(valid: seq<string>, lines: seq<string>, n: nat): (r: Scan)
    requires n <= |lines|
    decreases n
  {
    if n == 0 then Scan(None, []) else Step(valid, lines, n - 1, StateAt(valid, lines, n - 1))
  }

  lemma PrefixTrans<T>(a: seq<T>, b: seq<T>, c: seq<T>)
    requires a <= b && b <= c
    ensures a <= c
  {
    assert forall i :: 0 <= i < |a| ==> a[i] == b[i] == c[i];
  }

  /** A step only appends. */
  lemma StepGrows(valid: seq<string>, lines: seq<string>, i: nat, st: Scan)
    requires i < |lines|
    ensures st.files <= Step(valid, lines, i, st).files
  {
  }

  /** A step keeps the current file and the keys among the valid files, and the keys distinct. */
  lemma StepKeys(valid: seq<string>, lines: seq<string>, i: nat, st: Scan)
    requires i < |lines|
    requires st.current.None? || st.current.value in valid
    requires DistinctKeys(st.files) && forall k :: 0 <= k < |st.files| ==> st.files[k].0 in valid
    ensures var r := Step(valid, lines, i, st);
      (r.current.None? || r.current.value in valid)
      && DistinctKeys(r.files)
      && forall k :: 0 <= k < |r.files| ==> r.files[k].0 in valid
  {
  }

  /** `extract_code_blocks` of the legacy generator, as a value. */
  function LegacyCodeBlocks(content: string): Dict<string>
  {
    var lines := Split(content, '\n');
    StateAt(ValidFiles(content), lines, |lines|).files
  }

  /** `extract_code_blocks`: the line scanner. */
  method ExtractCodeBlocks(content: string) returns (filesDict: Dict<string>)
    ensures filesDict == LegacyCodeBlocks(content)
  {
    var valid := ValidFiles(content);
    var lines := Split(content, '\n');
    filesDict := [];
    var current: Option<string> := None;
    for i := 0 to |lines|
      invariant Scan(current, filesDict) == StateAt(valid, lines, i)
    {
      current, filesDict := ScanLine(valid, lines, i, current, filesDict);
    }
  }

  /** The loop body for line `i`. */
  method ScanLine(valid: seq<string>, lines: seq<string>, i: nat, current0: Option<string>, files0: Dict<string>)
    returns (current: Option<string>, filesDict: Dict<string>)
    requires i < |lines|
    ensures Scan(current, filesDict) == Step(valid, lines, i, Scan(current0, files0))
  {
    var line := lines[i];
    filesDict := files0;
    current := PickCurrent(valid, line, current0);
    if Strip(line) == "```python" && current.Some? && current.value != "" {
      var codeLines := CollectBody(lines, i + 1);
      if !HasKey(filesDict, current.value) {
        filesDict := filesDict + [(current.value, Join(codeLines, "\n"))];
      }
    }
  }

  /** The stored files only grow: an entry, once stored, is never replaced (first wins). */
  lemma {:induction false} StateAtGrows(valid: seq<string>, lines: seq<string>, m: nat, n: nat)
    requires m <= n <= |lines|
    ensures StateAt(valid, lines, m).files <= StateAt(valid, lines, n).files
    decreases n
  {
    if m < n {
      StateAtGrows(valid, lines, m, n - 1);
      GrowsOneMore(StateAt(valid, lines, m).files, StateAt(valid, lines, n - 1), valid, lines, n - 1);
    }
  }

  lemma GrowsOneMore(a: Dict<string>, st: Scan, valid: seq<string>, lines: seq<string>, i: nat)
    requires i < |lines| && a <= st.files
    ensures a <= Step(valid, lines, i, st).files
  {
    StepGrows(valid, lines, i, st);
    PrefixTrans(a, st.files, Step(valid, lines, i, st).files);
  }

  /** The current file is always one of the valid files, and so is every stored key;
      the keys are distinct. */
  lemma {:induction false} StateAtKeys(valid: seq<string>, lines: seq<string>, n: nat)
    requires n <= |lines|
    ensures var st := StateAt(valid, lines, n);
      (st.current.None? || st.current.value in valid)
      && DistinctKeys(st.files)
      && forall k :: 0 <= k < |st.files| ==> st.files[k].0 in valid
    decreases n
  {
    if n > 0 {
      StateAtKeys(valid, lines, n - 1);
      StepKeys(valid, lines, n - 1, StateAt(valid, lines, n - 1));
    }
  }

  /** The dict returned has distinct keys, each a valid file. */
  lemma LegacyKeys(content: string)
    ensures DistinctKeys(LegacyCodeBlocks(content))
    ensures forall k :: 0 <= k < |LegacyCodeBlocks(content)| ==> LegacyCodeBlocks(content)[k].0 in ValidFiles(content)
  {
    var lines := Split(content, '\n');
    StateAtKeys(ValidFiles(content), lines, |lines|);
  }

  /** A fence line `` ```python `` seen without a current file stores nothing. */
  lemma NoCurrentIgnored(valid: seq<string>, lines: seq<string>, i: nat)
    requires i < |lines|
    requires !Truthy(StateAt(valid, lines, i + 1).current)
    ensures StateAt(valid, lines, i + 1).files == StateAt(valid, lines, i).files
  {
  }

  /** The first block opened while `f` is current is the code stored for `f`, and the
      dict returned ends up holding it. */
  lemma FirstBlockWins(valid: seq<string>, lines: seq<string>, i: nat)
    requires i < |lines| && Opens(lines, i)
    requires Truthy(StateAt(valid, lines, i + 1).current)
    requires !HasKey(StateAt(valid, lines, i).files, StateAt(valid, lines, i + 1).current.value)
    ensures var f := StateAt(valid, lines, i + 1).current.value;
      var d := StateAt(valid, lines, |lines|).files;
      HasKey(d, f) && Get(d, f) == BlockCode(lines, i)
  {
    var f := StateAt(valid, lines, i + 1).current.value;
    var before := StateAt(valid, lines, i).files;
    var d := StateAt(valid, lines, |lines|).files;
    BlockStored(valid, lines, i);
    StateAtGrows(valid, lines, i + 1, |lines|);
    StateAtKeys(valid, lines, |lines|);
    assert d[|before|] == (f, BlockCode(lines, i));
    GetAt(d, f);
  }

  /** The step that stores a block. */
  lemma BlockStored(valid: seq<string>, lines: seq<string>, i: nat)
    requires i < |lines| && Opens(lines, i)
    requires Truthy(StateAt(valid, lines, i + 1).current)
    requires !HasKey(StateAt(valid, lines, i).files, StateAt(valid, lines, i + 1).current.value)
    ensures StateAt(valid, lines, i + 1).files
      == StateAt(valid, lines, i).files + [(StateAt(valid, lines, i + 1).current.value, BlockCode(lines, i))]
  {
  }

  /** Later blocks for a file already stored change nothing. */
  lemma LaterBlockIgnored(valid: seq<string>, lines: seq<string>, i: nat)
    requires i < |lines| && Truthy(StateAt(valid, lines, i + 1).current)
    requires HasKey(StateAt(valid, lines, i).files, StateAt(valid, lines, i + 1).current.value)
    ensures StateAt(valid, lines, i + 1).files == StateAt(valid, lines, i).files
  {
  }

  // ---------------------------------------------------------------------------
  // The map pattern ```` ```\n((?:[\.#PEINn\s]+)+)\n``` ````

  /** The class `[\.#PEINn\s]`. */
  predicate MapChar(c: char) {
    c == '.' || c == '#' || c == 'P' || c == 'E' || c == 'I' || c == 'N' || c == 'n' || IsSpace(c)
  }

  /** End of the run of map characters of `s` from `i`. */
  function MapRunEnd(s: string, i: nat): (r: nat)
    requires i <= |s|
    decreases |s| - i
    ensures i <= r <= |s|
    ensures r == |s| || !MapChar(s[r])
  {
    if i == |s| || !MapChar(s[i]) then i else MapRunEnd(s, i + 1)
  }

  lemma {:induction false} MapRunChars(s: string, i: nat)
    requires i <= |s|
    ensures forall k :: i <= k < MapRunEnd(s, i) ==> MapChar(s[k])
    decreases |s| - i
  {
    if i < |s| && MapChar(s[i]) {
      MapRunChars(s, i + 1);
    }
  }

  lemma {:induction false} MapRunEndIs(s: string, i: nat, j: nat)
    requires i <= j < |s| && !MapChar(s[j])
    requires forall k :: i <= k < j ==> MapChar(s[k])
    ensures MapRunEnd(s, i) == j
    decreases j - i
  {
    if i < j {
      MapRunEndIs(s, i + 1, j);
    }
  }

  /** Three backticks from index `k`. */
  predicate TicksAt(s: string, k: nat) {
    k + 3 <= |s| && s[k] == '`' && s[k + 1] == '`' && s[k + 2] == '`'
  }

  /** The group captured by a match starting at `k`. The class holds `\n` but not the
      backtick, so the closing `` \n``` `` can only sit at the end of the run: the
      match needs no backtracking. */
  function MapAt(s: string, k: nat): (r: Option<string>)
  {
    if !(TicksAt(s, k) && k + 4 <= |s| && s[k + 3] == '\n') then None
    else
      var r := MapRunEnd(s, k + 4);
      if r >= k + 6 && s[r - 1] == '\n' && TicksAt(s, r) then Some(s[k + 4..r - 1]) else None
  }

  /** `"```\n" + x + "\n```"` is written at `k`, with `x` a non-empty run of map characters. */
  ghost predicate MapMatchAt(s: string, k: nat, x: string) {
    TicksAt(s, k) && x != [] && k + 4 + |x| + 4 <= |s| && s[k + 3] == '\n'
    && (forall i :: 0 <= i < |x| ==> s[k + 4 + i] == x[i] && MapChar(x[i]))
    && s[k + 4 + |x|] == '\n' && TicksAt(s, k + 5 + |x|)
  }

  /** The matcher at `k` captures `x` exactly when the pattern's text with `x` is there. */
  lemma MapAtIff(s: string, k: nat, x: string)
    ensures MapAt(s, k) == Some(x) <==> MapMatchAt(s, k, x)
  {
    if MapAt(s, k) == Some(x) {
      MapRunChars(s, k + 4);
    }
    if MapMatchAt(s, k, x) {
      forall i | k + 4 <= i < k + 5 + |x| ensures MapChar(s[i]) {
        if i < k + 4 + |x| {
          assert s[k + 4 + (i - k - 4)] == x[i - k - 4];
        }
      }
      MapRunEndIs(s, k + 4, k + 5 + |x|);
      assert s[k + 4..k + 4 + |x|] == x;
    }
  }

  /** `re.search`: the leftmost match at or after `k`. */
  function MapSearch(s: string, k: nat): (r: Option<string>)
    decreases |s| - k
  {
    if k >= |s| then None
    else if MapAt(s, k).Some? then MapAt(s, k)
    else MapSearch(s, k + 1)
  }

  /** The map of the document, if it has one. */
  function FindMap(content: string): Option<string> {
    MapSearch(content, 0)
  }

  /** The search returns the leftmost match. */
  lemma {:induction false} MapSearchLeftmost(s: string, k: nat)
    requires MapSearch(s, k).Some?
    ensures exists j :: k <= j && MapMatchAt(s, j, MapSearch(s, k).value)
              && forall j', y :: k <= j' < j ==> !MapMatchAt(s, j', y)
    decreases |s| - k
  {
    if MapAt(s, k).Some? {
      MapAtIff(s, k, MapAt(s, k).value);
    } else {
      MapSearchLeftmost(s, k + 1);
      var j :| k + 1 <= j && MapMatchAt(s, j, MapSearch(s, k).value)
              && forall j', y :: k + 1 <= j' < j ==> !MapMatchAt(s, j', y);
      forall y | MapMatchAt(s, k, y) ensures false {
        MapAtIff(s, k, y);
      }
    }
  }

  /** The search fails only when the document has no map block at all. */
  lemma {:induction false} MapSearchNone(s: string, k: nat, j: nat, x: string)
    requires k <= j && MapMatchAt(s, j, x)
    ensures MapSearch(s, k).Some?
    decreases j - k
  {
    if MapAt(s, k).None? {
      if k == j {
        MapAtIff(s, k, x);
      } else {
        MapSearchNone(s, k + 1, j, x);
      }
    }
  }

  // ---------------------------------------------------------------------------
  // Writing the files

  /** `create_python_files`: the shared write loop over the dict's entries. */
  method CreatePythonFiles(fs: FileSystem, filesDict: Dict<string>, baseDir: string) returns (ok: bool)
    requires fs.Valid()
    modifies fs
    ensures fs.Valid()
    ensures Outcome(ok, fs.files, fs.dirs) == Run(old(fs.files), old(fs.dirs), filesDict, baseDir)
  {
    ok := WriteAll(fs, filesDict, baseDir);
  }

  /** After a complete run every entry's file, at a relative path, holds exactly its
      content, whatever was there before, and its parent directory exists. */
  lemma PythonFileWritten(files0: map<string, string>, dirs0: set<string>, d: Dict<string>, base: string, k: nat)
    requires DistinctKeys(d) && k < |d|
    requires forall j :: 0 <= j < |d| ==> !StartsWith(d[j].0, "/")
    requires Run(files0, dirs0, d, base).ok
    ensures var out := Run(files0, dirs0, d, base);
      PathJoin(base, d[k].0) in out.files && out.files[PathJoin(base, d[k].0)] == d[k].1
      && Dirname(PathJoin(base, d[k].0)) in out.dirs
  {
    RunOk(files0, dirs0, d, base);
    RunParents(files0, dirs0, d, base, k);
    WrittenAt(files0, d, base, k);
  }

  /** `os.path.join(base_dir, 'maps')` */
  function MapDir(baseDir: string): string {
    PathJoin(baseDir, "maps")
  }

  /** `os.path.join(map_dir, 'map.txt')` */
  function MapPath(baseDir: string): string {
    PathJoin(MapDir(baseDir), "map.txt")
  }

  /** `create_map_file`: when the document has a map, creates `maps` and writes the map
      into `maps/map.txt`; `ok == false` stands for the error raised. */
  method CreateMapFile(fs: FileSystem, content: string, baseDir: string) returns (ok: bool)
    requires fs.Valid()
    modifies fs
    ensures fs.Valid()
    ensures FindMap(content).None? ==> ok && fs.files == old(fs.files) && fs.dirs == old(fs.dirs)
    ensures FindMap(content).Some? ==>
      var made := MakeDirsOk(old(fs.files), MapDir(baseDir));
      var dirs1 := if made then old(fs.dirs) + DirChain(MapDir(baseDir)) else old(fs.dirs);
      ok == (made && OpenOk(dirs1, MapPath(baseDir)))
      && fs.dirs == dirs1
      && fs.files == if ok then old(fs.files)[MapPath(baseDir) := FindMap(content).value] else old(fs.files)
  {
    var mapMatch := FindMap(content);
    ok := true;
    if mapMatch.Some? {
      var mapDir := PathJoin(baseDir, "maps");
      ok := fs.MakeDirs(mapDir);
      if ok {
        var mapPath := PathJoin(mapDir, "map.txt");
        ok := fs.WriteFile(mapPath, mapMatch.value);
      }
    }
  }

  /** The map file's parent is the `maps` directory. */
  lemma MapPathParent(baseDir: string)
    ensures Dirname(MapPath(baseDir)) == MapDir(baseDir)
  {
    var m := MapDir(baseDir);
    MapDirLast(baseDir);
    JoinMapTxt(m);
    NoSlashInMapTxt();
    DirnameOf(m, "map.txt");
  }

  /** The `maps` directory path ends in `s`. */
  lemma MapDirLast(baseDir: string)
    ensures MapDir(baseDir) != [] && MapDir(baseDir)[|MapDir(baseDir)| - 1] == 's'
  {
    var m := MapDir(baseDir);
    assert EndsWith(m, "maps");
    assert m[|m| - 4..][3] == "maps"[3];
  }

  lemma NoSlashInMapTxt()
    ensures '/' !in "map.txt"
  {
  }

  /** Joining `map.txt` to a directory path that does not end in `/` adds one `/`. */
  lemma JoinMapTxt(m: string)
    requires m != [] && m[|m| - 1] != '/'
    ensures PathJoin(m, "map.txt") == m + "/" + "map.txt"
  {
    assert "map.txt"[..1] == "m";
    assert !EndsWith(m, "/") by {
      assert m[|m| - 1..] == [m[|m| - 1]];
    }
  }

  /** Once `maps` exists, the write only fails when `maps/map.txt` is a directory: the
      map file always lands in `base/maps/map.txt`. */
  lemma MapWriteOk(files: map<string, string>, dirs: set<string>, baseDir: string)
    requires MakeDirsOk(files, MapDir(baseDir))
    ensures var dirs1 := dirs + DirChain(MapDir(baseDir));
      OpenOk(dirs1, MapPath(baseDir)) <==> MapPath(baseDir) !in dirs1
  {
    MapPathParent(baseDir);
    DirChainSelf(MapDir(baseDir));
    var p := MapPath(baseDir);
    assert EndsWith(p, "map.txt");
    assert p[|p| - 1] == 't' by {
      assert p[|p| - 7..][6] == "map.txt"[6];
    }
  }
}
