/**
  The document the collector writes, read back by the generator: the structure
  section comes back as the trimmed listing lines, and the `### ` sections come
  back as one dict entry per collected file, keyed by its path, holding its
  stripped content and its fence tag.
 */
module RoundTrip {
  import opened Text
  import opened Wrappers
  import opened OrderedDict
  import opened Generator
  import opened Collector

  // ---------------------------------------------------------------------------
  // The structure section

  /** The document up to the structure fence. */
  function Preamble(): string {
    Title + "\n" + Intro + "\n"
  }

  lemma PreambleNoTicks()
    ensures '`' !in Preamble()
  {
    assert '`' !in Title;
    assert '`' !in Intro;
  }

  /** A string is placed where it is written between two others. */
  lemma PlacedMid(pre: string, u: string, rest: string)
    ensures Placed(pre + u + rest, u, |pre|)
  {
    forall i | 0 <= i < |u| ensures (pre + u + rest)[|pre| + i] == u[i] {
    }
  }

  lemma RegroupListing(x: string, f: string, l: string, t: string, n: string, y: string)
    ensures x + (f + n) + l + (t + n) + y == x + (f + n + l + t) + (n + y)
  {
  }

  /** The structure lines inside their fence, up to the closing backticks. */
  function Fenced(lines: seq<string>): string {
    "```\n" + Listing(lines) + "```"
  }

  /** The document after the closing backticks of the structure fence. */
  function AfterStructure(files: seq<(string, string, string)>): string {
    "\n" + ("\n" + ContentsTitle + FileBlocks(files))
  }

  /** The document is the preamble, the fenced listing, and the rest. */
  lemma OutputSplit(structure: seq<string>, files: seq<(string, string, string)>)
    ensures OutputText(structure, files) == Preamble() + Fenced(structure) + AfterStructure(files)
  {
    assert "```\n" == "```" + "\n";
    var y := "\n" + ContentsTitle + FileBlocks(files);
    RegroupListing(Preamble(), "```", Listing(structure), "```", "\n", y);
  }

  /** A fenced listing after text without backticks is the structure section. */
  lemma ParseAfter(c: string, pre: string, lines: seq<string>, rest: string)
    requires c == pre + Fenced(lines) + rest
    requires '`' !in pre
    requires lines != [] && forall i :: 0 <= i < |lines| ==> ListingLine(lines[i])
    ensures ParseStructureSection(c) == Ok(NonBlankStripped(lines))
  {
    FencedAt(c, pre, lines, rest);
    AppendAssoc(pre, Fenced(lines), rest);
    PrefixNoTicks(c, pre, Fenced(lines) + rest);
    ParseListing(c, |pre|, lines);
  }

  lemma FencedAt(c: string, pre: string, lines: seq<string>, rest: string)
    requires c == pre + Fenced(lines) + rest
    ensures Placed(c, "```\n" + Listing(lines) + "```", |pre|)
  {
    PlacedMid(pre, Fenced(lines), rest);
  }

  lemma ParseFenced(pre: string, lines: seq<string>, rest: string)
    requires '`' !in pre
    requires lines != [] && forall i :: 0 <= i < |lines| ==> ListingLine(lines[i])
    ensures ParseStructureSection(pre + Fenced(lines) + rest) == Ok(NonBlankStripped(lines))
  {
    ParseAfter(pre + Fenced(lines) + rest, pre, lines, rest);
  }

  /** `parse_structure_section` of a collected document returns the trimmed,
      non-blank structure lines, provided there is at least one line and every line
      starts with `-` or whitespace, as the collector's lines do. */
  lemma StructureRoundTrip(structure: seq<string>, files: seq<(string, string, string)>)
    requires structure != [] && forall i :: 0 <= i < |structure| ==> ListingLine(structure[i])
    ensures ParseStructureSection(OutputText(structure, files)) == Ok(NonBlankStripped(structure))
  {
    PreambleNoTicks();
    ParseFenced(Preamble(), structure, AfterStructure(files));
    OutputSplit(structure, files);
  }

  lemma PrefixNoTicks(c: string, pre: string, rest: string)
    requires c == pre + rest && '`' !in pre
    ensures forall k :: 0 <= k < |pre| && k < |c| ==> c[k] != '`'
  {
    forall k | 0 <= k < |pre| ensures c[k] != '`' {
      assert c[k] == pre[k];
    }
  }

  // ---------------------------------------------------------------------------
  // The file sections

  /** The tag the generator reads from a block's fence. */
  function TagOf(fileType: string): string {
    if fileType == "python" then "python" else ""
  }

  lemma FenceTag(fileType: string)
    ensures Fence(fileType) == "```" + TagOf(fileType)
  {
    assert "```python" == "```" + "python";
    assert "```" + "" == "```";
  }

  /** What a block holds between its fence line and its closing fence. */
  function BlockBody(f: (string, string, string)): string {
    CommentLine(f.0, f.2) + "\n" + f.1 + "\n"
  }

  /** The section the block of `f` forms, with the text before its `### ` as lead. */
  function FileSection(lead: string, f: (string, string, string)): Section {
    Section(lead, f.0 + "\n", TagOf(f.2), BlockBody(f))
  }

  /** The sections of the blocks: the first is led by `lead`, every later one by the
      newline that ends the previous block and the one that starts its own. */
  function FileSections(lead: string, files: seq<(string, string, string)>): (r: seq<Section>)
    ensures |r| == |files|
    ensures forall i :: 0 <= i < |files| ==> r[i] == FileSection(if i == 0 then lead else "\n\n", files[i])
  {
    seq(|files|, i requires 0 <= i < |files| => FileSection(if i == 0 then lead else "\n\n", files[i]))
  }

  lemma Regroup(a: string, n: string, h: string, p: string, t3: string, tg: string, cl: string, ct: string)
    ensures a + (n + h + p + n + n + (t3 + tg) + n + cl + n + ct + n + (t3 + n))
         == (a + n) + (h + ((p + n) + ((n + t3) + (tg + (n + ((cl + n + ct + n) + t3)))))) + n
  {
  }

  /** Text ending in a newline followed by a block is a section and a newline. */
  lemma BlockSection(a: string, f: (string, string, string))
    ensures a + FileBlock(f) == SectionText(FileSection(a + "\n", f)) + "\n"
  {
    FenceTag(f.2);
    assert "\n```" == "\n" + "```";
    assert "```\n" == "```" + "\n";
    Regroup(a, "\n", "### ", f.0, "```", TagOf(f.2), CommentLine(f.0, f.2), f.1);
  }

  lemma {:induction false} SectionsTextSnoc(xs: seq<Section>, x: Section)
    ensures SectionsText(xs + [x]) == SectionsText(xs) + SectionText(x)
    decreases |xs|
  {
    if xs == [] {
      assert [] + [x] == [x];
      assert [x][1..] == [];
      AppendEmpty(SectionText(x));
    } else {
      assert (xs + [x])[1..] == xs[1..] + [x];
      SectionsTextSnoc(xs[1..], x);
      AppendAssoc(SectionText(xs[0]), SectionsText(xs[1..]), SectionText(x));
    }
  }

  lemma {:induction false} SectionEntriesAt(xs: seq<Section>, i: nat)
    requires i < |xs|
    ensures SectionEntries(xs)[i] == Entry(xs[i].heading, xs[i].tag, xs[i].body)
  {
    if i > 0 {
      SectionEntriesAt(xs[1..], i - 1);
    }
  }

  /** The contents part of the document is a run of sections and a final newline. */
  lemma {:induction false} BlocksAsSections(head: string, files: seq<(string, string, string)>)
    requires files != []
    ensures head + FileBlocks(files) == SectionsText(FileSections(head + "\n", files)) + "\n"
    decreases |files|
  {
    var front := files[..|files| - 1];
    var f := files[|files| - 1];
    if front == [] {
      OneBlock(head, files);
    } else {
      BlocksAsSections(head, front);
      MoreBlocks(head, front, f);
      assert front + [f] == files;
    }
  }

  lemma OneBlock(head: string, files: seq<(string, string, string)>)
    requires |files| == 1
    ensures head + FileBlocks(files) == SectionsText(FileSections(head + "\n", files)) + "\n"
  {
    var f := files[0];
    assert files[..0] == [];
    assert FileBlocks(files) == "" + FileBlock(f);
    assert "" + FileBlock(f) == FileBlock(f);
    BlockSection(head, f);
    assert FileSections(head + "\n", files) == [] + [FileSection(head + "\n", f)];
    SectionsTextSnoc([], FileSection(head + "\n", f));
  }

  lemma MoreBlocks(head: string, front: seq<(string, string, string)>, f: (string, string, string))
    requires front != []
    requires head + FileBlocks(front) == SectionsText(FileSections(head + "\n", front)) + "\n"
    ensures head + FileBlocks(front + [f]) == SectionsText(FileSections(head + "\n", front + [f])) + "\n"
  {
    var files := front + [f];
    var x := FileSection("\n\n", f);
    var ys := FileSections(head + "\n", front);
    assert files[..|files| - 1] == front;
    assert FileBlocks(files) == FileBlocks(front) + FileBlock(f);
    assert FileSections(head + "\n", files) == ys + [x];
    var t := SectionsText(ys);
    AppendAssoc(head, FileBlocks(front), FileBlock(f));
    BlockSection("\n", f);
    assert "\n" + "\n" == "\n\n";
    AppendAssoc(t, "\n", FileBlock(f));
    SectionsTextSnoc(ys, x);
    AppendAssoc(t, SectionText(x), "\n");
  }

  // ---------------------------------------------------------------------------
  // No heading outside the blocks

  /** The header: everything the collector writes before the first block. */
  function Header(structure: seq<string>): string {
    Title + "\n" + Intro + "\n" + "```\n" + Listing(structure) + "```\n" + "\n" + ContentsTitle
  }

  lemma OutputIsHeader(structure: seq<string>, files: seq<(string, string, string)>)
    ensures OutputText(structure, files) == Header(structure) + FileBlocks(files)
  {
  }

  lemma TitleNoHeading()
    ensures NoOcc(Title, "### ")
  {
    var t := Title;
    assert t == "#" + t[1..];
    assert '#' !in t[1..];
    forall k ensures !OccursAt(t, "### ", k) {
      if k == 0 {
        assert t[1] != "### "[1];
        assert t[0..4][1] == t[1];
      } else if 1 <= k < |t| {
        NoOccStartingInFirst("#", t[1..], [], "### ", k);
        assert "#" + t[1..] + [] == t;
      }
    }
  }

  lemma ContentsTitleNoHeading()
    ensures NoOcc(ContentsTitle, "### ")
  {
    var t := ContentsTitle;
    assert t == "##" + t[2..];
    assert '#' !in t[2..];
    forall k ensures !OccursAt(t, "### ", k) {
      if k == 0 {
        assert t[0..4][2] == t[2];
      } else if k == 1 {
        assert t[1..5][1] == t[2];
      } else if 2 <= k < |t| {
        NoOccStartingInFirst("##", t[2..], [], "### ", k);
        assert "##" + t[2..] + [] == t;
      }
    }
  }

  lemma NoHash(s: string)
    requires '#' !in s
    ensures NoOcc(s, "### ")
  {
    NoOccWithoutFirst(s, "### ");
  }

  /** A line without `### ` followed by a newline has none either. */
  lemma LineNoHeading(line: string)
    requires NoOcc(line, "### ")
    ensures NoOcc(line + "\n", "### ")
  {
    NoHash("\n");
    NoOccConcat(line, "\n", "### ");
  }

  lemma {:induction false} ListingNoHeading(lines: seq<string>)
    requires forall i :: 0 <= i < |lines| ==> NoOcc(lines[i], "### ")
    ensures NoOcc(Listing(lines), "### ")
    decreases |lines|
  {
    if lines == [] {
      NoHash("");
    } else {
      var a := lines[0] + "\n";
      LineNoHeading(lines[0]);
      ListingNoHeading(lines[1..]);
      assert a[|a| - 1] == '\n';
      NoOccConcat(a, Listing(lines[1..]), "### ");
    }
  }

  /** Appending to text that ends in a newline does not create `### `. */
  lemma AfterNewline(a: string, b: string)
    requires NoOcc(a, "### ") && NoOcc(b, "### ")
    requires a != [] && a[|a| - 1] == '\n'
    ensures NoOcc(a + b, "### ")
  {
    NoOccConcat(a, b, "### ");
  }

  lemma HeaderNoHeading(structure: seq<string>)
    requires forall i :: 0 <= i < |structure| ==> NoOcc(structure[i], "### ")
    ensures NoOcc(Header(structure) + "\n", "### ")
  {
    TitleNoHeading();
    ContentsTitleNoHeading();
    ListingNoHeading(structure);
    NoHash("\n");
    NoHash(Intro);
    NoHash("```\n");
    var a1 := Title + "\n";
    AfterNewline(Title, "\n");
    var a2 := a1 + Intro;
    AfterNewline(a1, Intro);
    var a3 := a2 + "\n";
    AfterNewline(a2, "\n");
    var a4 := a3 + "```\n";
    AfterNewline(a3, "```\n");
    var a5 := a4 + Listing(structure);
    AfterNewline(a4, Listing(structure));
    var a6 := a5 + "```\n";
    NoOccConcat(a5, "```\n", "### ");
    var a7 := a6 + "\n";
    AfterNewline(a6, "\n");
    var a8 := a7 + ContentsTitle;
    AfterNewline(a7, ContentsTitle);
    AfterNewline(a8, "\n");
  }

  // ---------------------------------------------------------------------------
  // Each section reads back as its file

  /** A stripped text that starts with `#`, whitespace and `name`: a text file with
      such content would lose that prefix when read back. */
  ghost predicate CommentPrefixed(t: string, name: string) {
    exists k: nat :: 1 <= k && k + |name| <= |t| && t[0] == '#' && AllSpace(t[1..k]) && t[k..k + |name|] == name
  }

  /** A file whose block the generator reads back exactly: a non-empty, trimmed path
      without backticks, content without a triple backtick, and, for a text file,
      content that does not start with what looks like its filename comment. */
  ghost predicate Readable(f: (string, string, string)) {
    f.0 != "" && IsTrimmed(f.0) && '`' !in f.0 && NoOcc(f.1, "```")
    && (f.2 != "python" ==> !CommentPrefixed(Strip(f.1), f.0))
  }

  lemma BodyNoTicks(f: (string, string, string))
    requires '`' !in f.0 && NoOcc(f.1, "```")
    ensures NoOcc(BlockBody(f), "```")
  {
    var cl := CommentLine(f.0, f.2);
    assert '`' !in cl by {
      if f.2 == "python" {
        assert cl == "# " + f.0;
      }
    }
    NoOccWithoutFirst(cl, "```");
    NoOccWithoutFirst("\n", "```");
    NoOccConcat(cl, "\n", "```");
    var a := cl + "\n";
    assert a[|a| - 1] == '\n';
    NoOccConcat(a, f.1, "```");
    NoOccConcat(a + f.1, "\n", "```");
  }

  lemma SectionPlain(lead: string, f: (string, string, string))
    requires NoOcc(lead, "### ") && Readable(f)
    ensures PlainSection(FileSection(lead, f))
  {
    var x := FileSection(lead, f);
    BodyNoTicks(f);
    assert x.body[|x.body| - 1] == '\n';
    assert x.heading == f.0 + "\n";
    assert forall k :: 0 <= k < |x.tag| ==> IsWordChar(x.tag[k]);
  }

  /** The value a file is read back as: its stripped content and the fence tag. */
  function Readback(files: seq<(string, string, string)>): (r: Dict<(string, string)>)
    ensures |r| == |files|
    ensures forall i :: 0 <= i < |files| ==> r[i] == (files[i].0, (Strip(files[i].1), TagOf(files[i].2)))
  {
    seq(|files|, i requires 0 <= i < |files| => (files[i].0, (Strip(files[i].1), TagOf(files[i].2))))
  }

  lemma HeadingKey(p: string)
    requires IsTrimmed(p)
    ensures Strip(p + "\n") == p
  {
    assert AllSpace("\n");
    StripIs([], p, "\n");
    assert [] + p + "\n" == p + "\n";
  }

  lemma RegroupPython(h: string, p: string, n: string, w1: string, t: string, w2: string)
    ensures h + p + n + (w1 + t + w2) + n == h + p + (n + w1 + t) + (w2 + n)
  {
  }

  /** A Python block with non-blank content, stripped: the comment line, the
      whitespace before the content, and the content. */
  lemma PythonStripped(p: string, w1: string, t: string, w2: string)
    requires AllSpace(w2)
    requires t != [] && IsTrimmed(t)
    ensures Strip("# " + p + "\n" + (w1 + t + w2) + "\n") == "# " + p + ("\n" + w1 + t)
  {
    var m := "# " + p + ("\n" + w1 + t);
    RegroupPython("# ", p, "\n", w1, t, w2);
    assert m[0] == '#';
    assert m[|m| - 1] == t[|t| - 1];
    assert AllSpace(w2 + "\n");
    StripIs([], m, w2 + "\n");
    assert [] + m + (w2 + "\n") == m + (w2 + "\n");
  }

  /** The comment line `# p` is removed from the front. */
  lemma PythonComment(p: string, rest: string)
    requires p != [] && IsTrimmed(p)
    ensures StripFilenameComment("# " + p + rest, p) == rest
  {
    assert AllSpace(" ");
    CommentRemoved(" ", p, rest);
    assert "# " == "#" + " ";
  }

  lemma LeadingSpace(w1: string, t: string)
    requires AllSpace(w1) && IsTrimmed(t)
    ensures Strip("\n" + w1 + t) == t
  {
    assert AllSpace("\n" + w1);
    StripIs("\n" + w1, t, []);
    assert "\n" + w1 + t + [] == "\n" + w1 + t;
  }

  /** A Python block with non-blank content: the comment line is removed. */
  lemma PythonValue(p: string, w1: string, t: string, w2: string)
    requires p != [] && IsTrimmed(p) && AllSpace(w1) && AllSpace(w2)
    requires t != [] && IsTrimmed(t)
    ensures Strip(StripFilenameComment(Strip("# " + p + "\n" + (w1 + t + w2) + "\n"), p)) == t
  {
    PythonStripped(p, w1, t, w2);
    PythonComment(p, "\n" + w1 + t);
    LeadingSpace(w1, t);
  }

  lemma PythonBlankStripped(p: string, w: string)
    requires p != [] && IsTrimmed(p) && AllSpace(w)
    ensures Strip("# " + p + "\n" + w + "\n") == "# " + p + ""
  {
    var m := "# " + p;
    assert "# " + p + "\n" + w + "\n" == [] + m + ("\n" + w + "\n");
    assert m[0] == '#';
    assert m[|m| - 1] == p[|p| - 1];
    assert AllSpace("\n" + w + "\n");
    StripIs([], m, "\n" + w + "\n");
    assert m + "" == m;
  }

  /** A Python block with blank content: only the comment line was there. */
  lemma PythonBlankValue(p: string, w: string)
    requires p != [] && IsTrimmed(p) && AllSpace(w)
    ensures Strip(StripFilenameComment(Strip("# " + p + "\n" + w + "\n"), p)) == ""
  {
    PythonBlankStripped(p, w);
    PythonComment(p, "");
    StripTrimmed("");
  }

  lemma PythonEntry(p: string, content: string)
    requires p != [] && IsTrimmed(p)
    ensures Strip(StripFilenameComment(Strip("# " + p + "\n" + content + "\n"), p)) == Strip(content)
  {
    var w1, w2 := StripFrame(content);
    var t := Strip(content);
    if t == [] {
      assert AllSpace(content) by {
        assert content == w1 + w2;
      }
      PythonBlankValue(p, content);
    } else {
      PythonValue(p, w1, t, w2);
    }
  }

  lemma TextEntry(p: string, content: string)
    requires !CommentPrefixed(Strip(content), p)
    ensures Strip(StripFilenameComment(Strip("" + "\n" + content + "\n"), p)) == Strip(content)
  {
    var w1, w2 := StripFrame(content);
    var t := Strip(content);
    assert "" + "\n" + content + "\n" == ("\n" + w1) + t + (w2 + "\n");
    assert AllSpace("\n" + w1) && AllSpace(w2 + "\n");
    StripTrimmed(t);
    StripIs("\n" + w1, t, w2 + "\n");
    CommentShape(t, p);
    StripIdempotent(content);
  }

  lemma SectionEntry(lead: string, f: (string, string, string))
    requires Readable(f)
    ensures var x := FileSection(lead, f);
      Entry(x.heading, x.tag, x.body) == (f.0, (Strip(f.1), TagOf(f.2)))
  {
    HeadingKey(f.0);
    StripTrimmed(TagOf(f.2));
    if f.2 == "python" {
      PythonEntry(f.0, f.1);
    } else {
      TextEntry(f.0, f.1);
    }
  }

  /** `extract_code_blocks` of a collected document maps every collected path, in
      order, to its stripped content and its fence tag (`python`, or empty for a text
      file), provided the paths are distinct, no structure line holds `### ` and every
      file is readable back. */
  lemma FilesRoundTrip(structure: seq<string>, files: seq<(string, string, string)>)
    requires forall i :: 0 <= i < |structure| ==> NoOcc(structure[i], "### ")
    requires forall i :: 0 <= i < |files| ==> Readable(files[i])
    requires forall i, j :: 0 <= i < j < |files| ==> files[i].0 != files[j].0
    ensures CodeBlocks(OutputText(structure, files)) == Readback(files)
  {
    var head := Header(structure);
    HeaderNoHeading(structure);
    OutputIsHeader(structure, files);
    if files == [] {
      NoFilesRoundTrip(head);
      assert FileBlocks(files) == "";
      assert Readback(files) == [];
    } else {
      SomeFilesRoundTrip(head, files);
    }
  }

  /** A document without blocks has no entries. */
  lemma NoFilesRoundTrip(head: string)
    requires NoOcc(head + "\n", "### ")
    ensures CodeBlocks(head + "") == []
  {
    AppendEmpty(head);
    forall k ensures !OccursAt(head, "### ", k) {
      assert !OccursAt(head + "\n", "### ", k);
      if 0 <= k && k + 4 <= |head| {
        assert (head + "\n")[k..k + 4] == head[k..k + 4];
      }
    }
    ContainsIff(head, "### ");
    NoHeadingNoBlocks(head);
  }

  lemma SomeFilesRoundTrip(head: string, files: seq<(string, string, string)>)
    requires NoOcc(head + "\n", "### ")
    requires files != []
    requires forall i :: 0 <= i < |files| ==> Readable(files[i])
    requires forall i, j :: 0 <= i < j < |files| ==> files[i].0 != files[j].0
    ensures CodeBlocks(head + FileBlocks(files)) == Readback(files)
  {
    var xs := FileSections(head + "\n", files);
    BlocksAsSections(head, files);
    SectionsPlain(head + "\n", files);
    SectionsReadback(head + "\n", files);
    SectionsDocument(head + FileBlocks(files), xs);
    PutAllDistinct(Readback(files));
  }

  lemma SectionsDocument(c: string, xs: seq<Section>)
    requires c == SectionsText(xs) + "\n"
    requires forall i :: 0 <= i < |xs| ==> PlainSection(xs[i])
    ensures CodeBlocks(c) == PutAll(SectionEntries(xs))
  {
    NoHash("\n");
    CodeBlocksOfSections(xs, "\n");
  }

  lemma SectionsPlain(lead: string, files: seq<(string, string, string)>)
    requires NoOcc(lead, "### ")
    requires forall i :: 0 <= i < |files| ==> Readable(files[i])
    ensures forall i :: 0 <= i < |files| ==> PlainSection(FileSections(lead, files)[i])
  {
    NoHash("\n\n");
    forall i | 0 <= i < |files| ensures PlainSection(FileSections(lead, files)[i]) {
      SectionPlain(if i == 0 then lead else "\n\n", files[i]);
    }
  }

  lemma SectionsReadback(lead: string, files: seq<(string, string, string)>)
    requires forall i :: 0 <= i < |files| ==> Readable(files[i])
    ensures SectionEntries(FileSections(lead, files)) == Readback(files)
  {
    var xs := FileSections(lead, files);
    var es := SectionEntries(xs);
    forall i | 0 <= i < |xs| ensures es[i] == Readback(files)[i] {
      SectionEntriesAt(xs, i);
      SectionEntry(if i == 0 then lead else "\n\n", files[i]);
    }
  }
}
