/**
  The document parsers and the writer of `generator.py`.

  The regular expressions are modelled by hand, each by the positions at which
  Python's backtracking matcher settles.
 */
module Generator {
  import opened Wrappers
  import opened Text
  import opened OrderedDict
  import opened FileSystem

  // ---------------------------------------------------------------------------
  // parse_structure_section: re.search(r'```\n((?:[-\s].*\n)+)```', content)

  /** One iteration of `[-\s].*\n` from `i`: a `-` or whitespace character, then
      everything up to and including the next newline. `.` excludes `\n`, so `.*`
      can only stop right before that newline. */
  function ListingItemEnd(c: string, i: nat): (r: Option<nat>)
    ensures r.Some? ==> i < r.value <= |c| && c[r.value - 1] == '\n'
    ensures r.Some? ==> forall k :: i < k < r.value - 1 ==> c[k] != '\n'
  {
    if i < |c| && (c[i] == '-' || IsSpace(c[i])) then
      match FindChar(c, '\n', i + 1)
      case None => None
      case Some(n) => Some(n + 1)
    else None
  }

  /** Where the greedy `(?:[-\s].*\n)+` stops: as many iterations as possible. */
  function ItemsEnd(c: string, i: nat): (r: nat)
    requires i <= |c|
    decreases |c| - i
    ensures i <= r <= |c|
    ensures ListingItemEnd(c, r).None?
    ensures r > i ==> c[r - 1] == '\n'
  {
    match ListingItemEnd(c, i)
    case None => i
    case Some(n) => ItemsEnd(c, n)
  }

  /** The pattern matches at `s`. Backtracking to fewer iterations cannot help: each
      earlier stopping point holds a `-` or whitespace character, never a backtick. */
  predicate StructureAt(c: string, s: nat) {
    OccursAt(c, "```\n", s) && ItemsEnd(c, s + 4) > s + 4 && OccursAt(c, "```", ItemsEnd(c, s + 4))
  }

  /** Leftmost match at or after `s`. */
  function FindStructure(c: string, s: nat): (r: Option<nat>)
    decreases |c| - s
    ensures r.Some? ==> s <= r.value && StructureAt(c, r.value)
    ensures r.Some? ==> forall k :: s <= k < r.value ==> !StructureAt(c, k)
    ensures r.None? ==> forall k :: s <= k ==> !StructureAt(c, k)
  {
    if s + 4 > |c| then None
    else if StructureAt(c, s) then Some(s)
    else FindStructure(c, s + 1)
  }

  /** `[line.strip() for line in lines if line.strip()]` */
  function NonBlankStripped(lines: seq<string>): (r: seq<string>)
    ensures |r| <= |lines|
    ensures forall i :: 0 <= i < |r| ==> r[i] != "" && IsTrimmed(r[i])
  {
    if lines == [] then []
    else
      var rest := NonBlankStripped(lines[1..]);
      if Strip(lines[0]) != "" then [Strip(lines[0])] + rest else rest
  }

  /** `parse_structure_section`: the listing of the first structure block, or the
      ValueError the source raises. */
  function ParseStructureSection(content: string): (r: Result<seq<string>>)
    ensures r.Err? <==> forall s :: !StructureAt(content, s)
    ensures r.Err? ==> r.msg == "Could not find project structure section"
    ensures r.Ok? ==> forall i :: 0 <= i < |r.value| ==> r.value[i] != "" && IsTrimmed(r.value[i]) && '\n' !in r.value[i]
  {
    match FindStructure(content, 0)
    case None => Err("Could not find project structure section")
    case Some(s) =>
      var lines := Split(content[s + 4..ItemsEnd(content, s + 4)], '\n');
      NoNewlineStripped(lines);
      Ok(NonBlankStripped(lines))
  }

  lemma {:induction false} NoNewlineStripped(lines: seq<string>)
    requires forall i :: 0 <= i < |lines| ==> '\n' !in lines[i]
    ensures forall i :: 0 <= i < |NonBlankStripped(lines)| ==> '\n' !in NonBlankStripped(lines)[i]
  {
    if lines != [] {
      NoNewlineStripped(lines[1..]);
      var w1, w2 := StripFrame(lines[0]);
      assert forall k :: 0 <= k < |Strip(lines[0])| ==> Strip(lines[0])[k] == lines[0][|w1| + k];
    }
  }

  // ---------------------------------------------------------------------------
  // The structure block of a well-formed document

  /** A tree-listing line the pattern accepts as one iteration. */
  predicate ListingLine(line: string) {
    line != [] && (line[0] == '-' || IsSpace(line[0])) && '\n' !in line
  }

  /** One iteration consumes exactly one listing line and its newline. */
  lemma ItemEndAt(c: string, i: nat, line: string)
    requires ListingLine(line)
    requires i + |line| < |c| && c[i..i + |line|] == line && c[i + |line|] == '\n'
    ensures ListingItemEnd(c, i) == Some(i + |line| + 1)
  {
    assert c[i] == c[i..i + |line|][0];
    forall k | i + 1 <= k < i + |line| ensures c[k] != '\n' {
      assert c[k] == c[i..i + |line|][k - i];
    }
    FindCharIs(c, '\n', i + 1, i + |line|);
  }

  /** The first line of a listing at `i` is one iteration, and the rest of the
      listing follows it. */
  lemma ListingStep(c: string, i: nat, lines: seq<string>)
    requires lines != [] && ListingLine(lines[0])
    requires i + |Listing(lines)| <= |c| && c[i..i + |Listing(lines)|] == Listing(lines)
    ensures ListingItemEnd(c, i) == Some(i + |lines[0]| + 1)
    ensures var j := i + |lines[0]| + 1;
      j + |Listing(lines[1..])| == i + |Listing(lines)| && c[j..j + |Listing(lines[1..])|] == Listing(lines[1..])
  {
    var line := lines[0];
    var rest := Listing(lines[1..]);
    var L := Listing(lines);
    assert L == line + "\n" + rest;
    var j := i + |line| + 1;
    assert c[i..i + |line|] == c[i..i + |L|][..|line|];
    assert c[i + |line|] == c[i..i + |L|][|line|];
    ItemEndAt(c, i, line);
    assert c[j..j + |rest|] == c[i..i + |L|][|line| + 1..];
  }

  /** The greedy repetition consumes exactly a listing that appears at `i`. */
  lemma {:induction false} ItemsEndListing(c: string, i: nat, lines: seq<string>)
    requires forall k :: 0 <= k < |lines| ==> ListingLine(lines[k])
    requires i + |Listing(lines)| <= |c| && c[i..i + |Listing(lines)|] == Listing(lines)
    requires i + |Listing(lines)| == |c| || !(c[i + |Listing(lines)|] == '-' || IsSpace(c[i + |Listing(lines)|]))
    ensures ItemsEnd(c, i) == i + |Listing(lines)|
    decreases |lines|
  {
    if lines == [] {
      assert ListingItemEnd(c, i).None?;
    } else {
      ListingStep(c, i, lines);
      ItemsEndListing(c, i + |lines[0]| + 1, lines[1..]);
      ItemsEndStep(c, i, i + |lines[0]| + 1);
    }
  }

  /** The repetition goes on from the end of one iteration. */
  lemma ItemsEndStep(c: string, i: nat, j: nat)
    requires i <= |c| && ListingItemEnd(c, i) == Some(j)
    ensures ItemsEnd(c, i) == ItemsEnd(c, j)
  {
  }

  /** `FindStructure` is determined by the first matching position. */
  lemma FindStructureIs(c: string, s: nat, j: nat)
    requires s <= j && StructureAt(c, j)
    requires forall k :: s <= k < j ==> !StructureAt(c, k)
    ensures FindStructure(c, s) == Some(j)
    decreases j - s
  {
    if s < j {
      FindStructureIs(c, s + 1, j);
    }
  }

  /** Blank lines add nothing to the result. */
  lemma {:induction false} NonBlankStrippedAppendBlank(lines: seq<string>, b: string)
    requires Strip(b) == ""
    ensures NonBlankStripped(lines + [b]) == NonBlankStripped(lines)
  {
    if lines == [] {
      assert NonBlankStripped([b]) == NonBlankStripped([]);
    } else {
      assert (lines + [b])[1..] == lines[1..] + [b];
      NonBlankStrippedAppendBlank(lines[1..], b);
    }
  }

  /** No match can start at a position that does not hold a backtick. */
  lemma NoStructureAt(c: string, k: nat)
    requires k < |c| && c[k] != '`'
    ensures !StructureAt(c, k)
  {
    if k + 4 <= |c| {
      assert c[k..k + 4][0] == c[k];
    }
  }

  /** The split of the captured listing, stripped, is the stripped listing lines. */
  lemma ListingLines(lines: seq<string>)
    requires forall i :: 0 <= i < |lines| ==> ListingLine(lines[i])
    ensures NonBlankStripped(Split(Listing(lines), '\n')) == NonBlankStripped(lines)
  {
    var parts := lines + [""];
    assert forall i :: 0 <= i < |parts| ==> '\n' !in parts[i] by {
      forall i | 0 <= i < |parts| ensures '\n' !in parts[i] {
        if i < |lines| {
          assert parts[i] == lines[i];
        }
      }
    }
    ListingIsJoin(lines);
    SplitJoin(parts, '\n');
    assert Split(Listing(lines), '\n') == parts;
    NonBlankStrippedAppendBlank(lines, "");
  }

  /** A structure block listing `lines` matches where its fence starts, and the
      captured group is the listing. */
  lemma StructureAtListing(c: string, s: nat, lines: seq<string>)
    requires lines != [] && forall i :: 0 <= i < |lines| ==> ListingLine(lines[i])
    requires Placed(c, "```\n" + Listing(lines) + "```", s)
    ensures StructureAt(c, s) && ItemsEnd(c, s + 4) == s + 4 + |Listing(lines)|
    ensures c[s + 4..s + 4 + |Listing(lines)|] == Listing(lines)
  {
    var L := Listing(lines);
    var g := s + 4 + |L|;
    assert L != [] by {
      assert L == lines[0] + "\n" + Listing(lines[1..]);
    }
    PlacedSplit(c, "```\n" + L, "```", s);
    PlacedSplit(c, "```\n", L, s);
    PlacedSlice(c, "```\n", s);
    PlacedSlice(c, L, s + 4);
    PlacedSlice(c, "```", g);
    assert c[g + 0] == "```"[0];
    ItemsEndListing(c, s + 4, lines);
  }

  /** A document whose first backtick opens a structure block listing `lines` parses to
      those lines, stripped, without the blank ones. */
  lemma ParseListing(c: string, s: nat, lines: seq<string>)
    requires forall k :: 0 <= k < s && k < |c| ==> c[k] != '`'
    requires lines != [] && forall i :: 0 <= i < |lines| ==> ListingLine(lines[i])
    requires Placed(c, "```\n" + Listing(lines) + "```", s)
    ensures ParseStructureSection(c) == Ok(NonBlankStripped(lines))
  {
    StructureAtListing(c, s, lines);
    forall k | 0 <= k < s ensures !StructureAt(c, k) {
      NoStructureAt(c, k);
    }
    FindStructureIs(c, 0, s);
    ListingLines(lines);
    ParseAt(c, s);
  }

  /** The leftmost block at `s` capturing `g` parses to the lines of `g`. */
  lemma ParseAt(c: string, s: nat)
    requires FindStructure(c, 0) == Some(s)
    ensures s + 4 <= ItemsEnd(c, s + 4) <= |c|
    ensures ParseStructureSection(c) == Ok(NonBlankStripped(Split(c[s + 4..ItemsEnd(c, s + 4)], '\n')))
  {
  }

  // ---------------------------------------------------------------------------
  // extract_code_blocks: re.finditer(r'### (.*?)\n```(\w*)\n(.*?)```', content, re.DOTALL)

  /** A match of the pattern, by its positions: `### ` at `start`; the heading group
      up to `fence`, where the newline and opening backticks stand; the tag group up
      to `tagEnd`, which holds a newline; the body group up to `close`, where the
      closing backticks stand. */
  datatype Block = Block(start: nat, fence: nat, tagEnd: nat, close: nat)

  /** `### ` at `s`. */
  predicate HeadingMark(c: string, s: nat) {
    s + 4 <= |c| && c[s] == '#' && c[s + 1] == '#' && c[s + 2] == '#' && c[s + 3] == ' '
  }

  /** A newline and three backticks at `j`, where an opening fence starts. */
  predicate FenceMark(c: string, j: nat) {
    j + 4 <= |c| && c[j] == '\n' && c[j + 1] == '`' && c[j + 2] == '`' && c[j + 3] == '`'
  }

  /** Three backticks at `k`. */
  predicate TicksAt(c: string, k: nat) {
    k + 3 <= |c| && c[k] == '`' && c[k + 1] == '`' && c[k + 2] == '`'
  }

  lemma HeadingMarkIff(c: string, k: nat)
    ensures HeadingMark(c, k) <==> OccursAt(c, "### ", k)
  {
    if k + 4 <= |c| {
      var w := c[k..k + 4];
      assert w[0] == c[k] && w[1] == c[k + 1] && w[2] == c[k + 2] && w[3] == c[k + 3];
    }
  }

  lemma FenceMarkIff(c: string, k: nat)
    ensures FenceMark(c, k) <==> OccursAt(c, "\n```", k)
  {
    if k + 4 <= |c| {
      var w := c[k..k + 4];
      assert w[0] == c[k] && w[1] == c[k + 1] && w[2] == c[k + 2] && w[3] == c[k + 3];
    }
  }

  lemma TicksAtIff(c: string, k: nat)
    ensures TicksAt(c, k) <==> OccursAt(c, "```", k)
  {
    if k + 3 <= |c| {
      var w := c[k..k + 3];
      assert w[0] == c[k] && w[1] == c[k + 1] && w[2] == c[k + 2];
    }
  }

  /** The pattern can match at `m.start` with these group boundaries. */
  predicate IsMatch(c: string, m: Block) {
    HeadingMark(c, m.start) && m.start + 4 <= m.fence && FenceMark(c, m.fence)
    && WordRunEnd(c, m.fence + 4) == m.tagEnd && m.tagEnd < |c|
    && c[m.tagEnd] == '\n' && m.tagEnd + 1 <= m.close && TicksAt(c, m.close)
  }

  /** Group 1, the heading text. */
  function Heading(c: string, m: Block): string
  {
    Slice(c, m.start + 4, m.fence)
  }

  /** Group 2, the fence tag. */
  function Tag(c: string, m: Block): string
  {
    Slice(c, m.fence + 4, m.tagEnd)
  }

  /** Group 3, the block body. */
  function Body(c: string, m: Block): string
  {
    Slice(c, m.tagEnd + 1, m.close)
  }

  /** Where `finditer` resumes after the match. */
  function End(m: Block): nat {
    m.close + 3
  }

  /** `\n```(\w*)\n` matches at `j`: the greedy `\w*` has to be followed by the newline. */
  predicate OpensFence(c: string, j: nat) {
    FenceMark(c, j) && WordRunEnd(c, j + 4) < |c| && c[WordRunEnd(c, j + 4)] == '\n'
  }

  /** The match the lazy groups settle on: the shortest heading, then the shortest body. */
  ghost predicate IsLazyMatch(c: string, m: Block) {
    IsMatch(c, m)
    && (forall j :: m.start + 4 <= j < m.fence ==> !OpensFence(c, j))
    && (forall k :: m.tagEnd + 1 <= k < m.close ==> !TicksAt(c, k))
  }

  /** The first opening fence at or after `i`. */
  function FirstOpening(c: string, i: nat): (r: Option<nat>)
    decreases |c| - i
    ensures r.Some? ==> i <= r.value && OpensFence(c, r.value)
    ensures r.Some? ==> forall j :: i <= j < r.value ==> !OpensFence(c, j)
    ensures r.None? ==> forall j :: i <= j ==> !OpensFence(c, j)
  {
    if i + 4 > |c| then None
    else if OpensFence(c, i) then Some(i)
    else FirstOpening(c, i + 1)
  }

  /** The first closing backticks at or after `i`. */
  function FindTicks(c: string, i: nat): (r: Option<nat>)
    decreases |c| - i
    ensures r.Some? ==> i <= r.value && TicksAt(c, r.value)
    ensures r.Some? ==> forall k :: i <= k < r.value ==> !TicksAt(c, k)
    ensures r.None? ==> forall k :: i <= k ==> !TicksAt(c, k)
  {
    if i + 3 > |c| then None
    else if TicksAt(c, i) then Some(i)
    else FindTicks(c, i + 1)
  }

  /** `FindTicks` is determined by the first closing position. */
  lemma {:induction false} FindTicksIs(c: string, i: nat, j: nat)
    requires i <= j && TicksAt(c, j)
    requires forall k :: i <= k < j ==> !TicksAt(c, k)
    ensures FindTicks(c, i) == Some(j)
    decreases j - i
  {
    if i < j {
      FindTicksIs(c, i + 1, j);
    }
  }

  /** The match at `s`: the heading runs to the first opening fence, the body to the
      first closing backticks after it. */
  function MatchAt(c: string, s: nat): (r: Option<Block>)
    ensures r.Some? ==> r.value.start == s && IsMatch(c, r.value)
  {
    if !HeadingMark(c, s) then None
    else match FirstOpening(c, s + 4)
      case None => None
      case Some(e) =>
        var t := WordRunEnd(c, e + 4);
        match FindTicks(c, t + 1)
        case None => None
        case Some(f) => Some(Block(s, e, t, f))
  }

  /** The match found is the lazy one: no opening fence inside the heading and no
      closing backticks inside the body. */
  lemma MatchAtLazy(c: string, s: nat)
    requires MatchAt(c, s).Some?
    ensures IsLazyMatch(c, MatchAt(c, s).value)
  {
    var e := FirstOpening(c, s + 4).value;
    var t := WordRunEnd(c, e + 4);
    var f := FindTicks(c, t + 1).value;
    assert MatchAt(c, s).value == Block(s, e, t, f);
  }

  /** The pattern matches at `m.start` whenever some choice of groups fits there:
      a later opening fence starts no earlier than the newline after the first one's
      tag, so it cannot reach a closing fence the first one misses. */
  lemma MatchAtComplete(c: string, m: Block)
    requires IsMatch(c, m)
    ensures MatchAt(c, m.start).Some?
  {
    assert OpensFence(c, m.fence);
    var e := FirstOpening(c, m.start + 4).value;
    var t := WordRunEnd(c, e + 4);
    OpeningsApart(c, e, m.fence);
    assert FindTicks(c, t + 1).Some? by {
      assert TicksAt(c, m.close) && t + 1 <= m.close;
    }
  }

  /** A second opening fence starts no earlier than the newline that ends the first
      one's tag. */
  lemma OpeningsApart(c: string, e: nat, j: nat)
    requires OpensFence(c, e) && e <= j && j < |c| && c[j] == '\n'
    ensures WordRunEnd(c, e + 4) <= j || j == e
  {
    WordRunWords(c, e + 4);
  }

  /** The leftmost match at or after `pos`. */
  function NextMatch(c: string, pos: nat): (r: Option<Block>)
    decreases |c| - pos
    ensures r.Some? ==> pos <= r.value.start && MatchAt(c, r.value.start) == r
  {
    if pos + 4 > |c| then None
    else match MatchAt(c, pos)
      case Some(m) => Some(m)
      case None => NextMatch(c, pos + 1)
  }

  /** `NextMatch` is the leftmost match: none starts before it, and none at all when
      it finds nothing. */
  lemma NextMatchLeftmost(c: string, pos: nat)
    ensures NextMatch(c, pos).Some? ==> forall s :: pos <= s < NextMatch(c, pos).value.start ==> MatchAt(c, s).None?
    ensures NextMatch(c, pos).None? ==> forall s :: pos <= s ==> MatchAt(c, s).None?
  {
    NextMatchNoneBefore(c, pos);
    NextMatchNoneAfter(c, pos);
  }

  lemma {:induction false} NextMatchNoneBefore(c: string, pos: nat)
    ensures NextMatch(c, pos).Some? ==> forall s :: pos <= s < NextMatch(c, pos).value.start ==> MatchAt(c, s).None?
    decreases |c| - pos
  {
    if pos + 4 <= |c| && MatchAt(c, pos).None? {
      NextMatchNoneBefore(c, pos + 1);
    }
  }

  lemma {:induction false} NextMatchNoneAfter(c: string, pos: nat)
    ensures NextMatch(c, pos).None? ==> forall s :: pos <= s ==> MatchAt(c, s).None?
    decreases |c| - pos
  {
    if pos + 4 > |c| {
      forall s | pos <= s ensures MatchAt(c, s).None? {
        assert !HeadingMark(c, s);
      }
    } else if MatchAt(c, pos).None? {
      NextMatchNoneAfter(c, pos + 1);
    }
  }

  /** The matches `finditer` yields from `pos` on; each search resumes where the
      previous match ended, so matches do not overlap. */
  function Blocks(c: string, pos: nat): (r: seq<Block>)
    decreases |c| - pos
    ensures forall i :: 0 <= i < |r| ==> pos <= r[i].start
  {
    match NextMatch(c, pos)
    case None => []
    case Some(m) => [m] + Blocks(c, End(m))
  }

  /** Matches do not overlap: each one starts after the previous one ends. */
  lemma {:induction false} BlocksApart(c: string, pos: nat, i: nat)
    requires i + 1 < |Blocks(c, pos)|
    ensures End(Blocks(c, pos)[i]) <= Blocks(c, pos)[i + 1].start
    decreases |c| - pos
  {
    var m := NextMatch(c, pos).value;
    if i > 0 {
      BlocksApart(c, End(m), i - 1);
    }
  }

  /** Every match `finditer` yields is the lazy one at its start, and no match starts
      between the end of one and the start of the next. */
  lemma {:induction false} BlocksLazy(c: string, pos: nat, i: nat)
    requires i < |Blocks(c, pos)|
    ensures MatchAt(c, Blocks(c, pos)[i].start) == Some(Blocks(c, pos)[i])
    ensures IsLazyMatch(c, Blocks(c, pos)[i])
    ensures forall s :: (if i == 0 then pos else End(Blocks(c, pos)[i - 1])) <= s < Blocks(c, pos)[i].start ==> MatchAt(c, s).None?
    decreases |c| - pos
  {
    var m := NextMatch(c, pos).value;
    if i > 0 {
      BlocksTail(c, pos, m);
      BlocksLazy(c, End(m), i - 1);
      assert Blocks(c, pos)[i] == Blocks(c, End(m))[i - 1];
      if i > 1 {
        assert Blocks(c, pos)[i - 1] == Blocks(c, End(m))[i - 2];
      }
    } else {
      BlocksHead(c, pos);
      MatchAtLazy(c, m.start);
      NextMatchLeftmost(c, pos);
    }
  }

  /** The first match is the next one from `pos`. */
  lemma BlocksHead(c: string, pos: nat)
    requires Blocks(c, pos) != []
    ensures NextMatch(c, pos).Some? && Blocks(c, pos)[0] == NextMatch(c, pos).value
  {
  }

  /** Past the first match, the matches are those from the end of the first. */
  lemma BlocksTail(c: string, pos: nat, m: Block)
    requires NextMatch(c, pos) == Some(m)
    ensures Blocks(c, pos) == [m] + Blocks(c, End(m))
  {
  }

  /** After the last match, no match starts. */
  lemma {:induction false} BlocksExhaustive(c: string, pos: nat)
    ensures var r := Blocks(c, pos);
      forall s :: (if r == [] then pos else End(r[|r| - 1])) <= s ==> MatchAt(c, s).None?
    decreases |c| - pos
  {
    NextMatchLeftmost(c, pos);
    if NextMatch(c, pos).Some? {
      var m := NextMatch(c, pos).value;
      BlocksExhaustive(c, End(m));
      var rest := Blocks(c, End(m));
      assert Blocks(c, pos) == [m] + rest;
    }
  }

  /** The tag is a run of word characters, so stripping keeps it. */
  lemma TagIsWord(c: string, m: Block)
    requires IsMatch(c, m)
    ensures forall k :: 0 <= k < |Tag(c, m)| ==> IsWordChar(Tag(c, m)[k])
    ensures Strip(Tag(c, m)) == Tag(c, m)
  {
    var tag := Tag(c, m);
    WordRunWords(c, m.fence + 4);
    forall k | 0 <= k < |tag| ensures IsWordChar(tag[k]) {
      assert tag[k] == c[m.fence + 4 + k];
    }
    StripTrimmed(tag);
  }

  // re.sub(r'^#\s*' + re.escape(filename), '', content)

  /** The backtracking of `\s*`: the largest `k <= j` at which `name` follows. */
  function NameAfterHash(t: string, name: string, j: nat): (r: Option<nat>)
    requires 1 <= j <= |t|
    decreases j
    ensures r.Some? ==> 1 <= r.value <= j && StartsWith(t[r.value..], name)
    ensures r.Some? ==> forall k :: r.value < k <= j ==> !StartsWith(t[k..], name)
    ensures r.None? ==> forall k :: 1 <= k <= j ==> !StartsWith(t[k..], name)
  {
    if StartsWith(t[j..], name) then Some(j)
    else if j == 1 then None
    else NameAfterHash(t, name, j - 1)
  }

  /** Removes a leading `#`, whitespace and `name`; `^` without MULTILINE anchors the
      pattern at the start of the text, so it applies at most once. */
  function StripFilenameComment(t: string, name: string): (r: string)
    ensures !StartsWith(t, "#") ==> r == t
  {
    if !StartsWith(t, "#") then t
    else match NameAfterHash(t, name, SpaceRunEnd(t, 1))
      case None => t
      case Some(k) => t[k + |name|..]
  }

  /** Only a comment at the very start is removed: `#`, whitespace, then the name. */
  lemma CommentShape(t: string, name: string)
    ensures var r := StripFilenameComment(t, name);
      r == t || (exists k :: 1 <= k && k + |name| <= |t| && t[0] == '#' && AllSpace(t[1..k])
                               && t[k..k + |name|] == name && r == t[k + |name|..])
  {
    if StartsWith(t, "#") {
      var j := SpaceRunEnd(t, 1);
      SpaceRunSpaces(t, 1);
      match NameAfterHash(t, name, j)
      case None =>
      case Some(k) =>
        assert t[0] == t[..1][0];
        assert AllSpace(t[1..k]) by {
          forall i | 0 <= i < k - 1 ensures IsSpace(t[1..k][i]) {
            assert t[1..k][i] == t[1 + i];
          }
        }
        assert t[k..k + |name|] == t[k..][..|name|];
    }
  }

  /** A comment `#`, whitespace, then the (stripped, non-empty) filename is removed
      exactly, and only it. */
  lemma CommentRemoved(w: string, name: string, rest: string)
    requires AllSpace(w)
    requires name != [] && IsTrimmed(name)
    ensures StripFilenameComment("#" + w + name + rest, name) == rest
  {
    var t := "#" + w + name + rest;
    var j := 1 + |w|;
    assert t[0] == '#';
    assert t[..1] == "#";
    forall k | 1 <= k < j ensures IsSpace(t[k]) {
      assert t[k] == w[k - 1];
    }
    assert t[j] == name[0];
    SpaceRunEndIs(t, 1, j);
    assert t[j..] == name + rest;
    assert t[j..][..|name|] == name;
    assert t[j + |name|..] == rest;
  }

  /** A `#` directly followed by a character that neither is whitespace nor starts the
      filename is not the filename comment. */
  lemma CommentAbsent(t: string, name: string)
    requires 2 <= |t| && t[0] == '#' && !IsSpace(t[1])
    requires name != [] && t[1] != name[0]
    ensures StripFilenameComment(t, name) == t
  {
    assert t[..1] == "#";
    SpaceRunEndIs(t, 1, 1);
    if |name| <= |t[1..]| {
      assert t[1..][..|name|][0] == t[1];
    }
  }

  /** A body that starts with a `# name` comment line, as the generated documents write
      it, is stored without that line and without the surrounding whitespace. */
  lemma CommentedEntry(name: string, tag: string, code: string)
    requires name != [] && IsTrimmed(name) && IsTrimmed(tag)
    requires code != [] && IsTrimmed(code)
    ensures Entry(name, tag, "# " + name + "\n" + code + "\n") == (name, (code, tag))
  {
    CommentedStripped(name, code);
    CommentedComment(name, code);
    assert AllSpace("\n");
    StripIs("\n", code, []);
    assert "\n" + code + [] == "\n" + code;
    StripTrimmed(name);
    StripTrimmed(tag);
  }

  lemma CommentedStripped(name: string, code: string)
    requires code != [] && IsTrimmed(code)
    ensures Strip("# " + name + "\n" + code + "\n") == "# " + name + "\n" + code
  {
    var t := "# " + name + "\n" + code;
    assert t[0] == '#' && t[|t| - 1] == code[|code| - 1];
    assert AllSpace("\n");
    StripIs([], t, "\n");
    assert [] + t + "\n" == t + "\n";
  }

  lemma CommentedComment(name: string, code: string)
    requires name != [] && IsTrimmed(name)
    ensures StripFilenameComment("# " + name + "\n" + code, name) == "\n" + code
  {
    assert AllSpace(" ");
    CommentRemoved(" ", name, "\n" + code);
    assert "# " == "#" + " ";
    AppendAssoc("#" + " " + name, "\n", code);
  }

  /** The dict assignment for a heading, tag and body: the stripped filename, then the
      stripped body without its filename comment and the stripped tag. */
  function Entry(heading: string, tag: string, body: string): (string, (string, string))
  {
    var filename := Strip(heading);
    (filename, (Strip(StripFilenameComment(Strip(body), filename)), Strip(tag)))
  }

  /** The dict assignment one match makes. */
  function BlockEntry(c: string, m: Block): (string, (string, string))
  {
    Entry(Heading(c, m), Tag(c, m), Body(c, m))
  }

  /** The assignments made for the matches `ms`, in order. */
  function BlockEntries(c: string, ms: seq<Block>): (r: seq<(string, (string, string))>)
    ensures |r| == |ms|
  {
    if ms == [] then [] else [BlockEntry(c, ms[0])] + BlockEntries(c, ms[1..])
  }

  /** The assignment for the `i`-th match. */
  lemma {:induction false} BlockEntriesAt(c: string, ms: seq<Block>, i: nat)
    requires i < |ms|
    ensures BlockEntries(c, ms)[i] == BlockEntry(c, ms[i])
  {
    if i > 0 {
      BlockEntriesAt(c, ms[1..], i - 1);
    }
  }

  /** The key the `i`-th match assigns. */
  lemma BlockEntriesKey(c: string, ms: seq<Block>, i: nat)
    requires i < |ms|
    ensures BlockEntries(c, ms)[i].0 == Strip(Heading(c, ms[i]))
  {
    BlockEntriesAt(c, ms, i);
  }

  /** The dict `extract_code_blocks` returns. */
  function CodeBlocks(c: string): Dict<(string, string)>
  {
    PutAll(BlockEntries(c, Blocks(c, 0)))
  }

  /** `extract_code_blocks`: one dict assignment per match, in document order. */
  method ExtractCodeBlocks(content: string) returns (files: Dict<(string, string)>)
    ensures files == CodeBlocks(content)
  {
    files := [];
    var matches := Blocks(content, 0);
    ghost var entries := BlockEntries(content, matches);
    for i := 0 to |matches|
      invariant files == PutAll(entries[..i])
    {
      var m := matches[i];
      var filename := Strip(Heading(content, m));
      var blockType := Strip(Tag(content, m));
      var body := Strip(Body(content, m));
      body := Strip(StripFilenameComment(body, filename));
      BlockEntriesAt(content, matches, i);
      PutAllStep(entries, i);
      files := Put(files, filename, (body, blockType));
    }
    assert entries[..|matches|] == entries;
  }

  /** Each entry comes from one match: its filename and body are stripped, and its type
      is the tag exactly as written, a run of word characters. */
  lemma CodeBlocksShape(c: string, i: nat)
    requires i < |CodeBlocks(c)|
    ensures IsTrimmed(CodeBlocks(c)[i].0) && IsTrimmed(CodeBlocks(c)[i].1.0)
    ensures exists j :: 0 <= j < |Blocks(c, 0)| && CodeBlocks(c)[i] == BlockEntry(c, Blocks(c, 0)[j])
                                               && CodeBlocks(c)[i].1.1 == Tag(c, Blocks(c, 0)[j])
    ensures forall k :: 0 <= k < |CodeBlocks(c)[i].1.1| ==> IsWordChar(CodeBlocks(c)[i].1.1[k])
  {
    var ms := Blocks(c, 0);
    var ps := BlockEntries(c, ms);
    PutAllFrom(ps, i);
    var j :| 0 <= j < |ps| && CodeBlocks(c)[i] == ps[j];
    BlockEntriesAt(c, ms, j);
    BlocksLazy(c, 0, j);
    TagIsWord(c, ms[j]);
  }

  /** The stripped headings of the matches `ms`, in order. */
  function FileNames(c: string, ms: seq<Block>): (r: seq<string>)
    ensures |r| == |ms|
  {
    if ms == [] then [] else [Strip(Heading(c, ms[0]))] + FileNames(c, ms[1..])
  }

  lemma {:induction false} FileNamesAt(c: string, ms: seq<Block>, i: nat)
    requires i < |ms|
    ensures FileNames(c, ms)[i] == Strip(Heading(c, ms[i]))
  {
    if i > 0 {
      FileNamesAt(c, ms[1..], i - 1);
    }
  }

  /** The dict's keys are the filenames of the matches in order of first appearance:
      a repeated filename keeps the place of its first block. */
  lemma CodeBlocksKeyOrder(c: string)
    ensures KeyList(CodeBlocks(c)) == Dedup(FileNames(c, Blocks(c, 0)))
  {
    var ms := Blocks(c, 0);
    var ps := BlockEntries(c, ms);
    PutAllKeyOrder(ps);
    forall i | 0 <= i < |ms| ensures KeyList(ps)[i] == FileNames(c, ms)[i] {
      BlockEntriesKey(c, ms, i);
      FileNamesAt(c, ms, i);
    }
    assert KeyList(ps) == FileNames(c, ms);
  }

  /** A filename is a key exactly when some match's heading strips to it. */
  lemma CodeBlocksKeys(c: string, k: string)
    ensures HasKey(CodeBlocks(c), k) <==> k in FileNames(c, Blocks(c, 0))
  {
    CodeBlocksKeyOrder(c);
    HasKeyKeyList(CodeBlocks(c), k);
    DedupMembers(FileNames(c, Blocks(c, 0)), k);
  }

  /** Later blocks overwrite earlier ones: the last block for a filename decides its
      content and type. */
  lemma CodeBlocksLastWins(c: string, i: nat)
    requires i < |Blocks(c, 0)|
    requires forall j :: i < j < |Blocks(c, 0)| ==> Strip(Heading(c, Blocks(c, 0)[j])) != Strip(Heading(c, Blocks(c, 0)[i]))
    ensures HasKey(CodeBlocks(c), Strip(Heading(c, Blocks(c, 0)[i])))
    ensures Get(CodeBlocks(c), Strip(Heading(c, Blocks(c, 0)[i]))) == BlockEntry(c, Blocks(c, 0)[i]).1
  {
    var ms := Blocks(c, 0);
    var ps := BlockEntries(c, ms);
    forall j | 0 <= j < |ms| ensures ps[j].0 == Strip(Heading(c, ms[j])) {
      BlockEntriesKey(c, ms, j);
    }
    BlockEntriesAt(c, ms, i);
    PutAllLastWins(ps, i);
  }

  /** No match starts where no `### ` occurs. */
  lemma {:induction false} NoMatchFrom(c: string, pos: nat)
    requires forall s :: pos <= s ==> !HeadingMark(c, s)
    ensures NextMatch(c, pos) == None
    decreases |c| - pos
  {
    if pos + 4 <= |c| {
      NoMatchFrom(c, pos + 1);
    }
  }

  /** A document without `### ` has no code blocks. */
  lemma NoHeadingNoBlocks(c: string)
    requires !Contains(c, "### ")
    ensures CodeBlocks(c) == []
  {
    ContainsIff(c, "### ");
    forall s | 0 <= s ensures !HeadingMark(c, s) {
      HeadingMarkIff(c, s);
    }
    NoMatchFrom(c, 0);
  }

  /** `NextMatch` is determined by the first `### ` that starts a match. */
  lemma {:induction false} NextMatchIs(c: string, pos: nat, s: nat)
    requires pos <= s && MatchAt(c, s).Some?
    requires forall k :: pos <= k < s ==> !HeadingMark(c, k)
    ensures NextMatch(c, pos) == MatchAt(c, s)
    decreases s - pos
  {
    if pos < s {
      assert MatchAt(c, pos) == None by {
        assert !HeadingMark(c, pos);
      }
      NextMatchIs(c, pos + 1, s);
    }
  }

  // ---------------------------------------------------------------------------
  // create_project_files

  /** The (path, content) pairs of the dict, in iteration order; the type is unused. */
  function FileContents(files: Dict<(string, string)>): (r: seq<(string, string)>)
    ensures |r| == |files|
    ensures forall i :: 0 <= i < |files| ==> r[i].0 == files[i].0 && r[i].1 == files[i].1.0
  {
    seq(|files|, i requires 0 <= i < |files| => (files[i].0, files[i].1.0))
  }

  /** `create_project_files`: writes every file under `baseDir`, creating parent
      directories; stops at the first error. */
  method CreateProjectFiles(fs: FileSystem, files: Dict<(string, string)>, baseDir: string) returns (ok: bool)
    requires fs.Valid()
    modifies fs
    ensures fs.Valid()
    ensures Outcome(ok, fs.files, fs.dirs) == Run(old(fs.files), old(fs.dirs), FileContents(files), baseDir)
  {
    ok := WriteAll(fs, FileContents(files), baseDir);
  }

  /** After a complete run every file of the dict, at a relative path, holds its
      content, and its parent directory exists. */
  lemma ProjectFileWritten(files0: map<string, string>, dirs0: set<string>, files: Dict<(string, string)>, base: string, k: nat)
    requires DistinctKeys(files) && k < |files|
    requires forall j :: 0 <= j < |files| ==> !StartsWith(files[j].0, "/")
    requires Run(files0, dirs0, FileContents(files), base).ok
    ensures var out := Run(files0, dirs0, FileContents(files), base);
      PathJoin(base, files[k].0) in out.files && out.files[PathJoin(base, files[k].0)] == files[k].1.0
      && Dirname(PathJoin(base, files[k].0)) in out.dirs
  {
    var es := FileContents(files);
    RunOk(files0, dirs0, es, base);
    RunParents(files0, dirs0, es, base, k);
    WrittenAt(files0, es, base, k);
  }

  // ---------------------------------------------------------------------------
  // The code blocks of a well-formed document

  /** A `### ` section: the text `lead` before it, the heading up to the fence, the
      fence tag and the body up to the closing backticks. */
  datatype Section = Section(lead: string, heading: string, tag: string, body: string)

  function SectionText(x: Section): string {
    x.lead + ("### " + (x.heading + ("\n```" + (x.tag + ("\n" + (x.body + "```"))))))
  }

  function SectionsText(xs: seq<Section>): string {
    if xs == [] then "" else SectionText(xs[0]) + SectionsText(xs[1..])
  }

  /** A section the pattern reads back as written: no `### ` before it, no backtick in
      the heading, a word tag, and no backticks that could close the body early. */
  ghost predicate PlainSection(x: Section) {
    NoOcc(x.lead, "### ") && '`' !in x.heading
    && (forall k :: 0 <= k < |x.tag| ==> IsWordChar(x.tag[k]))
    && NoOcc(x.body, "```") && (x.body == [] || x.body[|x.body| - 1] != '`')
  }

  /** The assignments the sections make, in order. */
  function SectionEntries(xs: seq<Section>): (r: seq<(string, (string, string))>)
    ensures |r| == |xs|
  {
    if xs == [] then [] else [Entry(xs[0].heading, xs[0].tag, xs[0].body)] + SectionEntries(xs[1..])
  }

  /** The pieces of a section placed with its `### ` at `s`. */
  ghost predicate SectionPlaced(c: string, s: nat, x: Section) {
    var f := s + 4 + |x.heading|;
    var t := f + 4 + |x.tag|;
    HeadingMark(c, s) && Placed(c, x.heading, s + 4) && FenceMark(c, f) && Placed(c, x.tag, f + 4)
    && t < |c| && c[t] == '\n' && Placed(c, x.body, t + 1) && TicksAt(c, t + 1 + |x.body|)
  }

  /** The match a section placed at `s` makes. */
  function SectionBlock(s: nat, x: Section): Block {
    var f := s + 4 + |x.heading|;
    var t := f + 4 + |x.tag|;
    Block(s, f, t, t + 1 + |x.body|)
  }

  /** No `### ` starts inside a lead without one: one that ran past its end would have
      to overlap the `### ` that follows, which the pattern does not allow. */
  lemma LeadNoHeading(c: string, p: nat, lead: string, k: nat)
    requires Placed(c, lead, p) && HeadingMark(c, p + |lead|) && NoOcc(lead, "### ")
    requires p <= k < p + |lead|
    ensures !HeadingMark(c, k)
  {
    var q := p + |lead|;
    var j := k - p;
    if k + 4 <= q {
      HeadingMarkIff(lead, j);
      assert !OccursAt(lead, "### ", j);
      assert c[k] == lead[j] && c[k + 1] == lead[j + 1] && c[k + 2] == lead[j + 2] && c[k + 3] == lead[j + 3];
    } else {
      assert c[k + 3] == '#';
    }
  }

  /** The first opening fence after a heading without backticks is the one that ends it. */
  lemma OpeningAfterHeading(c: string, s: nat, x: Section)
    requires SectionPlaced(c, s, x) && '`' !in x.heading
    requires forall k :: 0 <= k < |x.tag| ==> IsWordChar(x.tag[k])
    ensures FirstOpening(c, s + 4) == Some(SectionBlock(s, x).fence)
    ensures WordRunEnd(c, SectionBlock(s, x).fence + 4) == SectionBlock(s, x).tagEnd
  {
    var f := s + 4 + |x.heading|;
    var t := f + 4 + |x.tag|;
    forall k | f + 4 <= k < t ensures IsWordChar(c[k]) {
      assert c[k] == x.tag[k - f - 4];
    }
    WordRunEndIs(c, f + 4, t);
    forall j | s + 4 <= j < f ensures !OpensFence(c, j) {
      if j + 1 < f {
        assert c[j + 1] == x.heading[j + 1 - s - 4];
      }
    }
    FirstOpeningIs(c, s + 4, f);
  }

  /** `FirstOpening` is determined by the first opening position. */
  lemma {:induction false} FirstOpeningIs(c: string, i: nat, j: nat)
    requires i <= j && OpensFence(c, j)
    requires forall k :: i <= k < j ==> !OpensFence(c, j) || !OpensFence(c, k)
    ensures FirstOpening(c, i) == Some(j)
    decreases j - i
  {
    if i < j {
      FirstOpeningIs(c, i + 1, j);
    }
  }

  /** The closing backticks after a body without "```" are the first ones. */
  lemma CloseAfterBody(c: string, b: nat, body: string)
    requires Placed(c, body, b) && TicksAt(c, b + |body|)
    requires NoOcc(body, "```") && (body == [] || body[|body| - 1] != '`')
    ensures FindTicks(c, b) == Some(b + |body|)
  {
    var e := b + |body|;
    forall k | b <= k < e ensures !TicksAt(c, k) {
      var j := k - b;
      if k + 3 <= e {
        TicksAtIff(body, j);
        assert !OccursAt(body, "```", j);
        assert c[k] == body[j] && c[k + 1] == body[j + 1] && c[k + 2] == body[j + 2];
      } else {
        assert c[e - 1] == body[|body| - 1];
      }
    }
    FindTicksIs(c, b, e);
  }

  /** Where the pieces of a section written at `p` stand. */
  lemma SectionLayout(c: string, p: nat, x: Section)
    requires Placed(c, SectionText(x), p)
    ensures Placed(c, x.lead, p) && SectionPlaced(c, p + |x.lead|, x)
  {
    var s := p + |x.lead|;
    var f := s + 4 + |x.heading|;
    var t := f + 4 + |x.tag|;
    var r6 := x.body + "```";
    var r5 := "\n" + r6;
    var r4 := x.tag + r5;
    var r3 := "\n```" + r4;
    var r2 := x.heading + r3;
    var r1 := "### " + r2;
    PlacedSplit(c, x.lead, r1, p);
    PlacedSplit(c, "### ", r2, s);
    PlacedSplit(c, x.heading, r3, s + 4);
    PlacedSplit(c, "\n```", r4, f);
    PlacedSplit(c, x.tag, r5, f + 4);
    PlacedSplit(c, "\n", r6, t);
    PlacedSplit(c, x.body, "```", t + 1);
    PlacedMarks(c, s, f, t, t + 1 + |x.body|);
  }

  /** The literal pieces, placed, are the marks the pattern looks for. */
  lemma PlacedMarks(c: string, s: nat, f: nat, t: nat, e: nat)
    requires Placed(c, "### ", s) && Placed(c, "\n```", f) && Placed(c, "\n", t) && Placed(c, "```", e)
    ensures HeadingMark(c, s) && FenceMark(c, f) && t < |c| && c[t] == '\n' && TicksAt(c, e)
  {
    var h, o, n, b := "### ", "\n```", "\n", "```";
    assert c[s] == h[0] && c[s + 1] == h[1] && c[s + 2] == h[2] && c[s + 3] == h[3];
    assert c[f] == o[0] && c[f + 1] == o[1] && c[f + 2] == o[2] && c[f + 3] == o[3];
    assert c[t] == n[0];
    assert c[e] == b[0] && c[e + 1] == b[1] && c[e + 2] == b[2];
  }

  /** The pieces of a plain section, in place, form the match at its `### `. */
  lemma SectionMatchAt(c: string, s: nat, x: Section)
    requires PlainSection(x) && SectionPlaced(c, s, x)
    ensures MatchAt(c, s) == Some(SectionBlock(s, x))
  {
    var m := SectionBlock(s, x);
    OpeningAfterHeading(c, s, x);
    CloseAfterBody(c, m.tagEnd + 1, x.body);
    MatchAtIs(c, s, m.fence, m.tagEnd, m.close);
  }

  /** `MatchAt` from the positions its searches stop at. */
  lemma MatchAtIs(c: string, s: nat, f: nat, t: nat, e: nat)
    requires HeadingMark(c, s)
    requires FirstOpening(c, s + 4) == Some(f) && WordRunEnd(c, f + 4) == t
    requires FindTicks(c, t + 1) == Some(e)
    ensures MatchAt(c, s) == Some(Block(s, f, t, e))
  {
  }

  /** A plain section laid out at `p` is the next match from `p`. */
  lemma SectionNext(c: string, p: nat, x: Section)
    requires PlainSection(x) && Placed(c, x.lead, p) && SectionPlaced(c, p + |x.lead|, x)
    ensures NextMatch(c, p) == Some(SectionBlock(p + |x.lead|, x))
  {
    var s := p + |x.lead|;
    SectionMatchAt(c, s, x);
    forall k | p <= k < s ensures !HeadingMark(c, k) {
      LeadNoHeading(c, p, x.lead, k);
    }
    NextMatchIs(c, p, s);
  }

  /** The groups of a section's match are its pieces. */
  lemma SectionGroups(c: string, s: nat, x: Section)
    requires SectionPlaced(c, s, x)
    ensures var m := SectionBlock(s, x);
      Heading(c, m) == x.heading && Tag(c, m) == x.tag && Body(c, m) == x.body
  {
    var m := SectionBlock(s, x);
    PlacedSlice(c, x.heading, s + 4);
    PlacedSlice(c, x.tag, m.fence + 4);
    PlacedSlice(c, x.body, m.tagEnd + 1);
  }

  /** A plain section at `p` is the next match, with its groups as written. */
  lemma SectionMatch(c: string, p: nat, x: Section) returns (m: Block)
    requires PlainSection(x) && Placed(c, SectionText(x), p)
    ensures NextMatch(c, p) == Some(m) && IsMatch(c, m)
    ensures Heading(c, m) == x.heading && Tag(c, m) == x.tag && Body(c, m) == x.body
    ensures End(m) == p + |SectionText(x)|
  {
    SectionLayout(c, p, x);
    SectionNext(c, p, x);
    SectionGroups(c, p + |x.lead|, x);
    m := SectionBlock(p + |x.lead|, x);
  }

  /** The matches from `p` are the plain sections written there, in order. */
  lemma {:induction false} SectionsBlocks(c: string, p: nat, xs: seq<Section>)
    requires forall i :: 0 <= i < |xs| ==> PlainSection(xs[i])
    requires Placed(c, SectionsText(xs), p)
    requires forall k :: p + |SectionsText(xs)| <= k ==> !HeadingMark(c, k)
    ensures BlockEntries(c, Blocks(c, p)) == SectionEntries(xs)
    decreases |xs|
  {
    if xs == [] {
      NoMatchFrom(c, p);
    } else {
      PlacedSplit(c, SectionText(xs[0]), SectionsText(xs[1..]), p);
      var m := SectionMatch(c, p, xs[0]);
      SectionsBlocks(c, End(m), xs[1..]);
      var rest := Blocks(c, End(m));
      assert Blocks(c, p) == [m] + rest;
      assert ([m] + rest)[1..] == rest;
    }
  }

  /** A document made of plain sections and a tail without `### ` yields one assignment
      per section, in order. */
  lemma CodeBlocksOfSections(xs: seq<Section>, tail: string)
    requires forall i :: 0 <= i < |xs| ==> PlainSection(xs[i])
    requires NoOcc(tail, "### ")
    ensures CodeBlocks(SectionsText(xs) + tail) == PutAll(SectionEntries(xs))
  {
    var d := SectionsText(xs);
    var c := d + tail;
    PlacedStart(d, tail);
    forall k | |d| <= k ensures !HeadingMark(c, k) {
      TailNoHeading(d, tail, k);
    }
    SectionsBlocks(c, 0, xs);
  }

  /** Two plain sections and a tail: the entries of both, in order. */
  lemma CodeBlocksOfTwo(x1: Section, x2: Section, tail: string)
    requires PlainSection(x1) && PlainSection(x2) && NoOcc(tail, "### ")
    ensures CodeBlocks(SectionText(x1) + SectionText(x2) + tail)
         == PutAll([Entry(x1.heading, x1.tag, x1.body), Entry(x2.heading, x2.tag, x2.body)])
  {
    CodeBlocksOfSections([x1, x2], tail);
    TwoSections(x1, x2);
    AppendAssoc(SectionText(x1), SectionText(x2), tail);
  }

  lemma TwoSections(x1: Section, x2: Section)
    ensures SectionsText([x1, x2]) == SectionText(x1) + SectionText(x2)
    ensures SectionEntries([x1, x2]) == [Entry(x1.heading, x1.tag, x1.body), Entry(x2.heading, x2.tag, x2.body)]
  {
    var xs := [x1, x2];
    assert xs[1..] == [x2] && xs[1..][1..] == [];
    assert SectionsText(xs[1..]) == SectionText(x2) + "";
    AppendEmpty(SectionText(x2));
  }

  /** Three plain sections and a tail: the entries of all three, in order. */
  lemma CodeBlocksOfThree(x1: Section, x2: Section, x3: Section, tail: string)
    requires PlainSection(x1) && PlainSection(x2) && PlainSection(x3) && NoOcc(tail, "### ")
    ensures CodeBlocks(SectionText(x1) + SectionText(x2) + SectionText(x3) + tail)
         == PutAll([Entry(x1.heading, x1.tag, x1.body), Entry(x2.heading, x2.tag, x2.body),
                    Entry(x3.heading, x3.tag, x3.body)])
  {
    CodeBlocksOfSections([x1, x2, x3], tail);
    ThreeSections(x1, x2, x3);
    AppendAssoc(SectionText(x1), SectionText(x2), SectionText(x3));
    AppendAssoc(SectionText(x1), SectionText(x2) + SectionText(x3), tail);
  }

  lemma ThreeSections(x1: Section, x2: Section, x3: Section)
    ensures SectionsText([x1, x2, x3]) == SectionText(x1) + (SectionText(x2) + SectionText(x3))
    ensures SectionEntries([x1, x2, x3])
         == [Entry(x1.heading, x1.tag, x1.body), Entry(x2.heading, x2.tag, x2.body), Entry(x3.heading, x3.tag, x3.body)]
  {
    var xs := [x1, x2, x3];
    assert xs[1..] == [x2, x3];
    TwoSections(x2, x3);
  }

  /** No `### ` starts in a tail without one. */
  lemma TailNoHeading(d: string, tail: string, k: nat)
    requires NoOcc(tail, "### ") && |d| <= k
    ensures !HeadingMark(d + tail, k)
  {
    var c := d + tail;
    var j := k - |d|;
    if k + 4 <= |c| {
      HeadingMarkIff(tail, j);
      assert !OccursAt(tail, "### ", j);
      assert c[k] == tail[j] && c[k + 1] == tail[j + 1] && c[k + 2] == tail[j + 2] && c[k + 3] == tail[j + 3];
    }
  }
}

module GeneratorSamples {
  import opened Wrappers
  import opened Text
  import opened OrderedDict
  import opened FileSystem
  import opened Generator

  lemma MissingStructure()
    ensures ParseStructureSection("# No structure here\n### Just some content") == Err("Could not find project structure section")
  {
    var c := "# No structure here\n### Just some content";
    assert '`' !in c;
    forall s: nat ensures !StructureAt(c, s) {
      if s + 4 <= |c| {
        assert c[s..s + 4][0] == c[s];
      }
    }
  }

  // ---------------------------------------------------------------------------
  // The sample document of the generator's tests

  const SampleHead: string := "\n# Project Structure\n"
  const SampleListing: string := "- main.py\n- utils/\n    - helper.py\n"
  const SampleBlock: string := "```\n" + SampleListing + "```"
  const SampleLines: seq<string> := ["- main.py", "- utils/", "    - helper.py"]

  const MainCode: string := "def main():\n    print(\"Hello\")"
  const HelperCode: string := "def helper():\n    return True"
  const MapArt: string := "##########\n#....P...#\n##########"
  const MainBody: string := "# main.py\n" + MainCode + "\n"
  const HelperBody: string := "# utils/helper.py\n" + HelperCode + "\n"
  const MapBody: string := MapArt + "\n"

  const MainLead: string := SampleHead + SampleBlock + "\n## File Contents\n"
  const MainSection: Section := Section(MainLead, "main.py", "python", MainBody)
  const HelperSection: Section := Section("\n", "utils/helper.py", "python", HelperBody)
  const MapSection: Section := Section("\n\n", "data/map.txt", "", MapBody)

  /** The sample: a structure block, then two Python files. */
  const Sample: string := SectionText(MainSection) + SectionText(HelperSection) + "\n"
  /** The sample with an untagged map file appended. */
  const SampleWithMap: string := SectionText(MainSection) + SectionText(HelperSection) + SectionText(MapSection) + "\n"

  /** The map variant is the sample followed by the map section, as the test appends it. */
  lemma SampleWithMapText()
    ensures SampleWithMap == Sample + "\n### data/map.txt\n```\n" + MapBody + "```\n"
  {
    var a := SectionText(MainSection) + SectionText(HelperSection);
    var d := "\n### data/map.txt\n```\n" + MapBody + "```\n";
    MapSectionText(MapBody);
    AppendAssoc(a, SectionText(MapSection), "\n");
    AppendAssoc(a, "\n", d);
  }

  lemma MapSectionText(body: string)
    ensures SectionText(Section("\n\n", "data/map.txt", "", body)) + "\n"
         == "\n" + ("\n### data/map.txt\n```\n" + body + "```\n")
  {
  }

  // The sections are plain.

  lemma HeadPlain()
    ensures NoOcc(SampleHead, "### ")
  {
    forall k ensures !OccursAt(SampleHead, "### ", k) {
      if 0 <= k && k + 4 <= |SampleHead| {
        assert SampleHead[k..k + 4][2] == SampleHead[k + 2];
      }
    }
  }

  lemma FileHeadPlain()
    ensures NoOcc("\n## File Contents\n", "### ")
  {
    var t := "\n## File Contents\n";
    forall k ensures !OccursAt(t, "### ", k) {
      if 0 <= k && k + 4 <= |t| {
        assert t[k..k + 4][0] == t[k] && t[k..k + 4][2] == t[k + 2];
      }
    }
  }

  lemma BlockPlain()
    ensures NoOcc(SampleBlock, "### ")
  {
    NoOccWithoutFirst(SampleBlock, "### ");
  }

  lemma MainLeadPlain()
    ensures NoOcc(MainLead, "### ")
  {
    HeadPlain();
    FileHeadPlain();
    BlockPlain();
    NoOccConcat(SampleHead, SampleBlock, "### ");
    NoOccConcat(SampleHead + SampleBlock, "\n## File Contents\n", "### ");
  }

  lemma NoTicks(body: string)
    requires '`' !in body && body != []
    ensures NoOcc(body, "```") && body[|body| - 1] != '`'
  {
    NoOccWithoutFirst(body, "```");
    assert body[|body| - 1] in body;
  }

  lemma MainBodyPlain()
    ensures NoOcc(MainBody, "```") && MainBody[|MainBody| - 1] != '`'
  {
    NoTicks(MainBody);
  }

  lemma HelperBodyPlain()
    ensures NoOcc(HelperBody, "```") && HelperBody[|HelperBody| - 1] != '`'
  {
    NoTicks(HelperBody);
  }

  lemma MapBodyPlain()
    ensures NoOcc(MapBody, "```") && MapBody[|MapBody| - 1] != '`'
  {
    NoTicks(MapBody);
  }

  lemma PythonTag()
    ensures forall k :: 0 <= k < |"python"| ==> IsWordChar("python"[k])
  {
  }

  lemma MainPlain()
    ensures PlainSection(MainSection)
  {
    MainLeadPlain();
    MainBodyPlain();
    PythonTag();
  }

  lemma HelperPlain()
    ensures PlainSection(HelperSection)
  {
    HelperBodyPlain();
    PythonTag();
  }

  lemma MapPlain()
    ensures PlainSection(MapSection)
  {
    MapBodyPlain();
  }

  // The entries the sections make.

  lemma MainEntry()
    ensures Entry("main.py", "python", MainBody) == ("main.py", (MainCode, "python"))
  {
    MainBodyIs();
    assert IsTrimmed(MainCode) && IsTrimmed("main.py") && IsTrimmed("python");
    CommentedEntry("main.py", "python", MainCode);
  }

  lemma MainBodyIs()
    ensures MainBody == "# " + "main.py" + "\n" + MainCode + "\n"
  {
    assert "# " + "main.py" + "\n" == "# main.py\n";
  }

  lemma HelperEntry()
    ensures Entry("utils/helper.py", "python", HelperBody) == ("utils/helper.py", (HelperCode, "python"))
  {
    HelperBodyIs();
    assert IsTrimmed(HelperCode) && IsTrimmed("utils/helper.py") && IsTrimmed("python");
    CommentedEntry("utils/helper.py", "python", HelperCode);
  }

  lemma HelperBodyIs()
    ensures HelperBody == "# " + "utils/helper.py" + "\n" + HelperCode + "\n"
  {
    assert "# " + "utils/helper.py" + "\n" == "# utils/helper.py\n";
  }

  /** The map's first line is `#` and more `#`s, not `#`, whitespace and the filename:
      it is stored whole. */
  lemma MapEntry()
    ensures Entry("data/map.txt", "", MapBody) == ("data/map.txt", (MapArt, ""))
  {
    MapStripped();
    MapArtStart();
    assert "data/map.txt"[0] == 'd';
    CommentAbsent(MapArt, "data/map.txt");
    StripTrimmed(MapArt);
    StripTrimmed("data/map.txt");
    StripTrimmed("");
  }

  lemma MapArtStart()
    ensures |MapArt| >= 2 && MapArt[0] == '#' && MapArt[1] == '#'
  {
  }

  lemma MapStripped()
    ensures IsTrimmed(MapArt) && Strip(MapBody) == MapArt
  {
    assert AllSpace("\n");
    assert IsTrimmed(MapArt);
    StripIs([], MapArt, "\n");
    assert [] + MapArt + "\n" == MapBody;
  }

  /** The sample holds two files, with the filename comments removed and the tags as
      their types. */
  lemma SampleCodeBlocks()
    ensures CodeBlocks(Sample) == [("main.py", (MainCode, "python")), ("utils/helper.py", (HelperCode, "python"))]
  {
    SampleEntries();
    PutAllTwo(("main.py", (MainCode, "python")), ("utils/helper.py", (HelperCode, "python")));
  }

  lemma SampleEntries()
    ensures CodeBlocks(Sample) == PutAll([("main.py", (MainCode, "python")), ("utils/helper.py", (HelperCode, "python"))])
  {
    MainPlain();
    HelperPlain();
    CodeBlocksOfTwo(MainSection, HelperSection, "\n");
    MainEntry();
    HelperEntry();
  }

  /** With the map appended there are three files; the untagged map has the empty type. */
  lemma SampleWithMapCodeBlocks()
    ensures CodeBlocks(SampleWithMap) == [("main.py", (MainCode, "python")), ("utils/helper.py", (HelperCode, "python")),
                                          ("data/map.txt", (MapArt, ""))]
  {
    SampleWithMapEntries();
    PutAllThree(("main.py", (MainCode, "python")), ("utils/helper.py", (HelperCode, "python")),
                ("data/map.txt", (MapArt, "")));
  }

  lemma SampleWithMapEntries()
    ensures CodeBlocks(SampleWithMap) == PutAll([("main.py", (MainCode, "python")), ("utils/helper.py", (HelperCode, "python")),
                                                 ("data/map.txt", (MapArt, ""))])
  {
    MainPlain();
    HelperPlain();
    MapPlain();
    CodeBlocksOfThree(MainSection, HelperSection, MapSection, "\n");
    MainEntry();
    HelperEntry();
    MapEntry();
  }

  lemma PutAllTwo<V>(e1: (string, V), e2: (string, V))
    requires e1.0 != e2.0
    ensures PutAll([e1, e2]) == [e1, e2]
  {
    PutAllDistinct([e1, e2]);
  }

  lemma PutAllThree<V>(e1: (string, V), e2: (string, V), e3: (string, V))
    requires e1.0 != e2.0 && e1.0 != e3.0 && e2.0 != e3.0
    ensures PutAll([e1, e2, e3]) == [e1, e2, e3]
  {
    PutAllDistinct([e1, e2, e3]);
  }

  // The structure block.

  /** Stripping removes the indentation of the nested entry. */
  lemma SampleLinesStripped()
    ensures NonBlankStripped(SampleLines) == ["- main.py", "- utils/", "- helper.py"]
  {
    StripTrimmed("- main.py");
    StripTrimmed("- utils/");
    assert IsTrimmed("- helper.py");
    assert AllSpace("    ");
    StripIs("    ", "- helper.py", "");
    assert "    " + "- helper.py" + "" == "    - helper.py";
    assert SampleLines[1..] == ["- utils/", "    - helper.py"];
    assert SampleLines[1..][1..] == ["    - helper.py"];
    assert NonBlankStripped(SampleLines[1..][1..]) == ["- helper.py"];
  }

  /** The structure block of the sample sits right after its heading. */
  lemma SampleBlockAt()
    ensures Placed(Sample, SampleBlock, |SampleHead|) && Placed(Sample, SampleHead, 0)
  {
    var m1 := SectionText(MainSection);
    var rest := SectionText(HelperSection) + "\n";
    AppendAssoc(m1, SectionText(HelperSection), "\n");
    PlacedStart(m1, rest);
    PlacedSplit(Sample, MainLead, "### " + ("main.py" + ("\n```" + ("python" + ("\n" + (MainBody + "```"))))), 0);
    PlacedSplit(Sample, SampleHead + SampleBlock, "\n## File Contents\n", 0);
    PlacedSplit(Sample, SampleHead, SampleBlock, 0);
  }

  /** No backtick comes before the structure block. */
  lemma SampleHeadNoTicks()
    ensures forall k :: 0 <= k < |SampleHead| && k < |Sample| ==> Sample[k] != '`'
  {
    SampleBlockAt();
    forall k | 0 <= k < |SampleHead| ensures Sample[k] != '`' {
      assert Sample[0 + k] == SampleHead[k];
      assert SampleHead[k] in SampleHead;
    }
  }

  lemma SampleListingLines()
    ensures Listing(SampleLines) == SampleListing
    ensures forall i :: 0 <= i < |SampleLines| ==> ListingLine(SampleLines[i])
  {
    assert SampleLines[1..] == ["- utils/", "    - helper.py"];
    assert SampleLines[1..][1..] == ["    - helper.py"];
    assert SampleLines[1..][1..][1..] == [];
  }

  /** The sample's listing is found, and its lines come back stripped: the nested
      entry loses its indentation. */
  lemma SampleStructure()
    ensures ParseStructureSection(Sample) == Ok(["- main.py", "- utils/", "- helper.py"])
  {
    SampleBlockAt();
    SampleHeadNoTicks();
    SampleListingLines();
    ParseListing(Sample, |SampleHead|, SampleLines);
    SampleLinesStripped();
  }

  // Writing the files.

  /** The sample's two files, as the loop receives them. */
  lemma SampleWrites()
    ensures FileContents(CodeBlocks(Sample)) == [("main.py", MainCode), ("utils/helper.py", HelperCode)]
  {
    SampleCodeBlocks();
  }

  /** Where the sample's `main.py` lands under `out`, and its parent. */
  lemma SampleMainPath()
    ensures PathJoin("out", "main.py") == "out/main.py" && Dirname("out/main.py") == "out"
  {
    assert "main.py"[..1] == "m";
    FileUnder("out", "main.py", "out/main.py");
  }

  /** Where the sample's `utils/helper.py` lands under `out`, and its parent. */
  lemma SampleHelperPath()
    ensures PathJoin("out", "utils/helper.py") == "out/utils/helper.py" && Dirname("out/utils/helper.py") == "out/utils"
  {
    SampleHelperJoin();
    SampleHelperParent();
  }

  lemma SampleHelperJoin()
    ensures PathJoin("out", "utils/helper.py") == "out/utils/helper.py"
  {
    assert "utils/helper.py"[..1] == "u";
    FileUnder("out", "utils/helper.py", "out/utils/helper.py");
  }

  lemma SampleHelperParent()
    ensures Dirname("out/utils/helper.py") == "out/utils"
  {
    assert "helper.py"[..1] == "h";
    FileUnder("out/utils", "helper.py", "out/utils/helper.py");
  }

  /** `m + "/" + v` is where `v` lands under `m`, and for a plain file name `v` its parent is `m`. */
  lemma FileUnder(m: string, v: string, p: string)
    requires m != [] && m[|m| - 1] != '/' && !StartsWith(v, "/") && p == m + "/" + v
    ensures PathJoin(m, v) == p
    ensures '/' !in v ==> Dirname(p) == m
  {
    JoinRelative(m, v);
    if '/' !in v {
      DirnameOf(m, v);
    }
  }

  /** A relative path joined to a directory without a trailing `/` gets one `/`. */
  lemma JoinRelative(m: string, v: string)
    requires m != [] && m[|m| - 1] != '/' && !StartsWith(v, "/")
    ensures PathJoin(m, v) == m + "/" + v
  {
    assert !EndsWith(m, "/") by {
      assert m[|m| - 1..] == [m[|m| - 1]];
    }
  }

  /** Writing the sample into `out` on a disk without files runs to the end, whichever
      directories exist (the test's fresh temporary directory among them), as long as
      neither file path is one: both parents can be made and both files opened. */
  lemma SampleRunOk(dirs0: set<string>)
    requires "out/main.py" !in dirs0 && "out/utils/helper.py" !in dirs0
    ensures Run(map[], dirs0, FileContents(CodeBlocks(Sample)), "out").ok
  {
    var es := FileContents(CodeBlocks(Sample));
    SampleWrites();
    SampleMainPath();
    SampleHelperPath();
    PairFits(dirs0, es, "out", "out/main.py", "out/utils/helper.py");
    RunOkIff(map[], dirs0, es, "out");
  }

  /** Once written under `out`, the sample's `main.py` holds its code. */
  lemma SampleMainWritten(dirs0: set<string>)
    requires "out/main.py" !in dirs0 && "out/utils/helper.py" !in dirs0
    ensures var out := Run(map[], dirs0, FileContents(CodeBlocks(Sample)), "out");
      out.ok && "out/main.py" in out.files && out.files["out/main.py"] == MainCode
  {
    SampleCodeBlocks();
    SampleNamesRelative();
    SampleRunOk(dirs0);
    SampleMainPath();
    PairWritten(map[], dirs0, CodeBlocks(Sample), "out", 0);
  }

  /** Once written under `out`, the sample's `utils/helper.py` holds its code, in the
      directory `out/utils` the loop made for it. */
  lemma SampleHelperWritten(dirs0: set<string>)
    requires "out/main.py" !in dirs0 && "out/utils/helper.py" !in dirs0
    ensures var out := Run(map[], dirs0, FileContents(CodeBlocks(Sample)), "out");
      out.ok && "out/utils/helper.py" in out.files && out.files["out/utils/helper.py"] == HelperCode
      && "out/utils" in out.dirs
  {
    SampleCodeBlocks();
    SampleNamesRelative();
    SampleRunOk(dirs0);
    SampleHelperPath();
    PairWritten(map[], dirs0, CodeBlocks(Sample), "out", 1);
    SampleWrites();
    RunParents(map[], dirs0, FileContents(CodeBlocks(Sample)), "out", 1);
  }

  lemma SampleNamesRelative()
    ensures !StartsWith("main.py", "/") && !StartsWith("utils/helper.py", "/")
  {
    assert "main.py"[..1] == "m";
    assert "utils/helper.py"[..1] == "u";
  }

  /** File `k` of a two-entry dict with distinct relative paths, once written,
      holds its code. */
  lemma PairWritten(files0: map<string, string>, dirs0: set<string>, d: Dict<(string, string)>, base: string, k: nat)
    requires |d| == 2 && k < 2 && d[0].0 != d[1].0
    requires !StartsWith(d[0].0, "/") && !StartsWith(d[1].0, "/")
    requires Run(files0, dirs0, FileContents(d), base).ok
    ensures var out := Run(files0, dirs0, FileContents(d), base);
      PathJoin(base, d[k].0) in out.files && out.files[PathJoin(base, d[k].0)] == d[k].1.0
  {
    PairFacts(d);
    ProjectFileWritten(files0, dirs0, d, base, k);
  }

  lemma PairFacts(d: Dict<(string, string)>)
    requires |d| == 2 && d[0].0 != d[1].0
    requires !StartsWith(d[0].0, "/") && !StartsWith(d[1].0, "/")
    ensures DistinctKeys(d)
    ensures forall j :: 0 <= j < |d| ==> !StartsWith(d[j].0, "/")
  {
  }

  /** The directory marker `empty/dir/` of the writer's tests makes `open` raise before
      any file is written. */
  lemma DirectoryMarker(files0: map<string, string>, dirs0: set<string>, base: string)
    ensures !Run(files0, dirs0, FileContents([("empty/dir/", ("", "")), ("empty/dir/file.py", ("print(\"test\")", "python"))]), base).ok
    ensures Run(files0, dirs0, FileContents([("empty/dir/", ("", "")), ("empty/dir/file.py", ("print(\"test\")", "python"))]), base).files == files0
  {
    var es := FileContents([("empty/dir/", ("", "")), ("empty/dir/file.py", ("print(\"test\")", "python"))]);
    assert es[0].0 == "empty/dir/";
    RunTrailingSlash(files0, dirs0, es, base);
  }
}
