# llm-code-materializer, modelled in Dafny

llm-code-materializer moves a project between a directory tree and one
Markdown document. The document has a fenced "project structure" listing and
one `### path` section per file, each with a fenced code block.

- The **collector** (`collector.py`) takes a tree to the document. It walks the
  tree, lists its structure as indented `- name` lines, collects the Python
  files and the `map.txt` files, and writes the document.
- The **generator** (`generator.py`) takes the document back to a tree. It
  finds the structure listing and extracts every `### path` code block. It then
  creates the files below a base directory.
- An older stand-alone script (`python_script_generator.py`) does the second
  job differently. It finds `- path.py` mentions in the listing and scans the
  document line by line, keeping the first `` ```python `` block after each
  mention. It can also write a `maps/map.txt` from a fenced block of map
  characters.
- `utils.py` holds the path helpers.

The model is split into these modules:

| module | file | what it holds |
|---|---|---|
| `Wrappers` | `wrappers.dfy` | `Option` and `Result` |
| `Text` | `text.dfy` | Python's whitespace class, `strip`, `split`, `join`, substring search |
| `Sorting` | `sorting.dfy` | `sorted` on file names: code-point order, sorted and a permutation |
| `OrderedDict` | `ordered_dict.dfy` | a Python `dict` as a list of pairs: assigning an existing key keeps its place, a new key goes last |
| `FileSystem` | `file_system.dfy` | the file system (see below) |
| `Utils` | `utils.dfy` | `utils.py` |
| `Generator`, `GeneratorSamples` | `generator.dfy` | `generator.py`, with the documents of its tests |
| `Collector` | `collector.dfy` | `collector.py` |
| `CollectorSamples` | `collector_samples.dfy` | the tree of the collector's tests |
| `Legacy` | `legacy.dfy` | `python_script_generator.py` |
| `RoundTrip` | `roundtrip.dfy` | what the generator recovers from the collector's output |

**The file system** is a class with two fields: a map from file paths to
contents and a set of directory paths. The model of `os.makedirs(...,
exist_ok=True)` creates the whole chain of parents. It fails for the empty
path, and it fails when a path in the chain is a file. The model of
`open(p, 'w')` fails when `p` is a directory, when `p` ends in `/`, or when the
parent of `p` is missing. The write loop of `create_project_files` and
`create_python_files` is one method, `FileSystem.WriteAll`. It is proved equal
to a value-level function `FileSystem.Run`, which stops at the first failing
call, as the raised exception does.

**The tree the collector walks** is a `Collector.Dir` value: a name, its files
(each content is `None` when the file cannot be read as UTF-8), and its
subdirectories in listing order. `os.walk` (top-down) becomes the work list it
keeps. After the loop body has filtered `dirs` in place, the subdirectories of
the directory just visited go to the front, in listing order. The walking
methods are proved equal to recursive functions, pre-order
(`Collector.StructureOf`, `Collector.ContentsOf`).

**Regular expressions** are written out by hand, each with the semantics of
Python's `re` module:

- `Generator.ItemsEnd` is the greedy `(?:[-\s].*\n)+`;
- `Generator.MatchAt` is the lazy `` ### (.*?)\n```(\w*)\n(.*?)``` `` with DOTALL;
- `Generator.NextMatch` and `Generator.Blocks` are the non-overlapping left-to-right scan of `finditer`;
- `Legacy.PathEnd` is the backtracking `([^/\n]+/)*[^/\n]+\.py`;
- `Legacy.MapAt` is the map pattern.

Where the regular expression pattern allows it, lemmas relate these functions
to declarative statements of what a match is (leftmost, lazy or longest, and
exhaustive).

## Model

| member | source | states |
|---|---|---|
| Utils.IsValidPythonFile | src/llm-code-materializer/utils.py:11-13 | true exactly when the name ends in `.py` and does not start with `__` |
| Utils.InitIsNotValid | src/llm-code-materializer/utils.py:13 | `__init__.py` and `notes.txt` are rejected; `main.py` is accepted |
| Utils.IsSpecialFile | src/llm-code-materializer/utils.py:15-18 | true exactly for the name `map.txt` |
| Utils.FormatPathForOutput | src/llm-code-materializer/utils.py:24-26 | same length; each backslash becomes `/`, every other character is kept; no backslash is left |
| Utils.FormatPathIdentity | src/llm-code-materializer/utils.py:26 | a path without backslashes is returned unchanged |
| Utils.FormatPathIdempotent | src/llm-code-materializer/utils.py:26 | formatting twice equals formatting once |
| Utils.FormatPathExample | src/llm-code-materializer/utils.py:26 | `a\b` is shown as `a/b` |
| Generator.ParseStructureSection | src/llm-code-materializer/generator.py:9-23 | fails with "Could not find project structure section" exactly when no position of the document starts a structure match; on success every line is non-empty, trimmed and has no newline |
| Generator.FindStructure | src/llm-code-materializer/generator.py:19-20 | finds the leftmost position that starts a structure match, or reports that none exists from the given point on |
| Generator.ListingItemEnd | src/llm-code-materializer/generator.py:19 | one `[-\s].*\n` item: it ends just after the first newline, and no newline comes before it |
| Generator.ItemsEnd | src/llm-code-materializer/generator.py:19 | the greedy repetition ends at a newline, and no further item can follow it |
| Generator.NonBlankStripped | src/llm-code-materializer/generator.py:23 | keeps only stripped, non-blank lines: each result is non-empty and trimmed |
| Generator.NonBlankStrippedAppendBlank | src/llm-code-materializer/generator.py:23 | a blank line adds nothing to the result |
| Generator.ItemsEndListing | src/llm-code-materializer/generator.py:19 | over lines that each start with `-` or whitespace, the repetition consumes exactly those lines and stops where the next character cannot start an item |
| Generator.ListingLines | src/llm-code-materializer/generator.py:23 | splitting a newline-terminated listing and keeping its stripped non-blank lines gives the stripped non-blank input lines |
| Generator.ParseListing | src/llm-code-materializer/generator.py:19-23 | a document whose first backtick opens a fenced listing of such lines parses to exactly their stripped, non-blank forms |
| Generator.ParseAt | src/llm-code-materializer/generator.py:19-23 | at the leftmost match, the result is the stripped non-blank lines of the matched group |
| Generator.MatchAt | src/llm-code-materializer/generator.py:38 | a match found at a position starts there and is a match of the pattern |
| Generator.MatchAtLazy | src/llm-code-materializer/generator.py:38 | the match found takes the shortest heading the pattern allows, then the shortest body |
| Generator.MatchAtComplete | src/llm-code-materializer/generator.py:38 | at every position where some match of the pattern starts, one is found |
| Generator.NextMatchLeftmost | src/llm-code-materializer/generator.py:38-39 | the next match is the leftmost from the scan position; when there is none, no position after the scan position matches |
| Generator.BlocksApart | src/llm-code-materializer/generator.py:39-41 | successive matches do not overlap |
| Generator.BlocksLazy | src/llm-code-materializer/generator.py:39-41 | each listed match is the match found at its start and is lazy, and nothing between it and the previous match matches |
| Generator.BlocksExhaustive | src/llm-code-materializer/generator.py:39-41 | after the last listed match no position matches |
| Generator.TagIsWord | src/llm-code-materializer/generator.py:38-43 | the fence tag is made of word characters, so stripping it changes nothing |
| Generator.StripFilenameComment | src/llm-code-materializer/generator.py:47 | text that does not start with `#` is returned unchanged |
| Generator.CommentShape | src/llm-code-materializer/generator.py:47 | the result is either the text itself, or the text after a prefix made of `#`, whitespace and the file name |
| Generator.CommentRemoved | src/llm-code-materializer/generator.py:47 | a leading `#`, whitespace and the file name are removed |
| Generator.CommentAbsent | src/llm-code-materializer/generator.py:47 | a `#` followed by something other than whitespace or the name's first character is kept |
| Generator.ExtractCodeBlocks | src/llm-code-materializer/generator.py:25-51 | the loop over the matches builds exactly the ordered dictionary `CodeBlocks` of the document |
| Generator.CodeBlocksShape | src/llm-code-materializer/generator.py:42-49 | every entry comes from a listed match: a trimmed name, trimmed content, and the match's word-character tag |
| Generator.CodeBlocksKeyOrder | src/llm-code-materializer/generator.py:49 | the keys are the stripped headings, duplicates removed, in order of first appearance |
| Generator.CodeBlocksKeys | src/llm-code-materializer/generator.py:49 | a name is a key exactly when it is the stripped heading of some match |
| Generator.CodeBlocksLastWins | src/llm-code-materializer/generator.py:49 | for a name that appears again, the value is that of its last block |
| Generator.NoHeadingNoBlocks | src/llm-code-materializer/generator.py:35-51 | a document without `### ` has no code blocks |
| Generator.CodeBlocksOfSections | src/llm-code-materializer/generator.py:38-49 | a document made of well-formed sections, followed by text without `### `, yields one entry per section, assigned in order |
| Generator.SectionsBlocks | src/llm-code-materializer/generator.py:38-49 | the matches of such a document are exactly its sections |
| Generator.FileContents | src/llm-code-materializer/generator.py:61 | the loop's `(file_path, content)` pairs, in dictionary order |
| Generator.CreateProjectFiles | src/llm-code-materializer/generator.py:53-69 | writes the files in dictionary order, stopping at the first failure; the new file system and the result equal `FileSystem.Run` |
| Generator.ProjectFileWritten | src/llm-code-materializer/generator.py:61-69 | after a successful run, each relative file holds its content and its parent directory exists |
| GeneratorSamples.MissingStructure | src/llm-code-materializer/generator.py:19-22 | a document without a fenced listing is refused with the source's message |
| GeneratorSamples.SampleStructure | src/llm-code-materializer/generator.py:9-23 | the test document's listing parses to `- main.py`, `- utils/`, `- helper.py` (indentation stripped) |
| GeneratorSamples.SampleCodeBlocks | src/llm-code-materializer/generator.py:35-51 | the test document yields `main.py` and `utils/helper.py`, tagged `python`, with the filename comments removed |
| GeneratorSamples.SampleWithMapCodeBlocks | src/llm-code-materializer/generator.py:35-51 | with a map section added, a third entry `data/map.txt` has an empty tag and the map kept intact |
| GeneratorSamples.SampleRunOk | tests/test_generator.py:103-109 | writing the test document's files under `out`, on a disk without files where neither file path is a directory, runs to the end |
| GeneratorSamples.SampleMainWritten | tests/test_generator.py:111-116 | that run succeeds and `out/main.py` holds the `main` function's code |
| GeneratorSamples.SampleHelperWritten | tests/test_generator.py:118-123 | that run succeeds, `out/utils/helper.py` holds the `helper` function's code, and the directory `out/utils` exists |
| GeneratorSamples.DirectoryMarker | src/llm-code-materializer/generator.py:65-69 | an entry `empty/dir/` makes the run fail at its `open`, before any file is written |
| FileSystem.PathJoin | src/llm-code-materializer/generator.py:62 | `os.path.join` of two parts ends with the second part |
| FileSystem.Dirname | src/llm-code-materializer/generator.py:65 | `os.path.dirname` is no longer than the path, and is empty for a path without `/` |
| FileSystem.DirChainAncestors | src/llm-code-materializer/generator.py:65 | every ancestor directory of the path, up to the path itself, is in the chain that `makedirs` creates |
| FileSystem.FileSystem.MakeDirs | src/llm-code-materializer/generator.py:65 | succeeds exactly when the path is non-empty and no path in its chain is a file; on success it adds the chain; files never change |
| FileSystem.FileSystem.WriteFile | src/llm-code-materializer/generator.py:68-69 | succeeds exactly when `open` is allowed; then the path holds the content; directories never change |
| FileSystem.Enter | src/llm-code-materializer/generator.py:62-69 | one loop iteration: on success the file is written and its parent exists; on failure no file changed |
| FileSystem.WriteAll | src/llm-code-materializer/generator.py:61-69 | the loop's final file system and result equal `Run` |
| FileSystem.RunOk | src/llm-code-materializer/generator.py:61-69 | a successful run leaves exactly the old files overlaid with the written ones, and adds exactly the parent chains; no entry ended in `/` |
| FileSystem.RunFails | src/llm-code-materializer/generator.py:61-69 | a failed run leaves the files of some proper prefix of the entries written |
| FileSystem.RunTrailingSlash | src/llm-code-materializer/generator.py:65-69 | a first entry ending in `/` creates its directory, then fails without writing |
| FileSystem.RunParents | src/llm-code-materializer/generator.py:65 | after a successful run every entry's parent directory exists |
| FileSystem.RunOkIff | src/llm-code-materializer/generator.py:61-69 | the loop runs to the end exactly when every joined path has a parent and no trailing `/`, no opened path is an existing or created directory, and no created directory is an existing file |
| FileSystem.FitsFirst | src/llm-code-materializer/generator.py:61-69 | those conditions hold exactly when the first `makedirs` and `open` succeed and the conditions hold for the rest over the state they leave |
| FileSystem.PairFits | src/llm-code-materializer/generator.py:61-69 | two entries fit a disk without files when they have parents, no trailing `/`, are not directories, and both parents are shorter than both paths |
| FileSystem.RunTwice | src/llm-code-materializer/generator.py:61-69 | running the loop again over what a complete run left runs to the end and leaves the same files and directories |
| FileSystem.WrittenPaths | src/llm-code-materializer/generator.py:61-69 | the files after writing are the old ones plus the opened paths |
| FileSystem.PrefixesShort | src/llm-code-materializer/generator.py:65 | every directory `makedirs(d)` creates is a prefix of `d` |
| FileSystem.DirnameOf | src/llm-code-materializer/generator.py:65 | the parent of `m/v`, for a name `v` without `/`, is `m` |
| FileSystem.LastSlashIs | src/llm-code-materializer/generator.py:65 | the last `/` of a path is found at its position |
| FileSystem.RunKeepsDirs | src/llm-code-materializer/generator.py:65 | a successful run removes no directory |
| FileSystem.WrittenAt | src/llm-code-materializer/generator.py:61-69 | with distinct relative paths, every entry's file holds that entry's content |
| FileSystem.WrittenFrame | src/llm-code-materializer/generator.py:61-69 | a file that no entry names keeps its content |
| FileSystem.WrittenKeys | src/llm-code-materializer/generator.py:61-69 | the written map's paths are exactly the old paths plus the joined entry paths |
| FileSystem.WrittenOverlay | src/llm-code-materializer/generator.py:61-69 | writing overlays the old files with the new ones |
| FileSystem.WriteTwice | src/llm-code-materializer/generator.py:61-69 | writing the same entries twice gives the same files as writing them once (whole runs: `FileSystem.RunTwice`) |
| FileSystem.PathJoinInjective | src/llm-code-materializer/generator.py:62 | joining relative paths to one base keeps distinct paths distinct |
| FileSystem.PathJoinTrailingSlash | src/llm-code-materializer/generator.py:62 | a trailing `/` of the part survives the join |
| OrderedDict.Put | src/llm-code-materializer/generator.py:49 | `d[k] = v`: an existing key keeps its place and gets the value; a new key goes last; keys stay distinct |
| OrderedDict.PutIfAbsent | python_script_generator.py:48-49 | inserts only a missing key, at the end; otherwise the dictionary is unchanged |
| OrderedDict.PutAllKeyOrder | src/llm-code-materializer/generator.py:49 | after assigning a sequence of pairs, the keys are in order of first assignment |
| OrderedDict.PutAllHasKey | src/llm-code-materializer/generator.py:49 | a key is present exactly when some pair assigned it |
| OrderedDict.PutAllLastWins | src/llm-code-materializer/generator.py:49 | a key holds the value of its last assignment |
| OrderedDict.PutAllDistinct | src/llm-code-materializer/generator.py:49 | pairs with distinct keys are kept as they are |
| OrderedDict.DedupMembers | src/llm-code-materializer/generator.py:49 | removing duplicates keeps exactly the same members |
| Sorting.SortByName | src/llm-code-materializer/collector.py:34 | `sorted(files)` on names: the result is sorted and is a permutation of the input |
| Sorting.InsertByName | src/llm-code-materializer/collector.py:34 | inserting keeps the list sorted and adds exactly one element |
| Sorting.LexLeTotal | src/llm-code-materializer/collector.py:34 | any two names are ordered one way or the other |
| Sorting.LexLeTrans | src/llm-code-materializer/collector.py:34 | the order on names is transitive |
| Collector.Indent | src/llm-code-materializer/collector.py:27 | four spaces per level |
| Collector.LevelIsDepth | src/llm-code-materializer/collector.py:25-26 | the level computed from the relative path is the depth of the directory below the start |
| Collector.FileLinesStep | src/llm-code-materializer/collector.py:34-36 | each file adds its line exactly when it is a `.py` file or `map.txt` |
| Collector.AppendFileLines | src/llm-code-materializer/collector.py:34-36 | the inner loop appends the lines of the collected files, in the given order |
| Collector.AppendDirLines | src/llm-code-materializer/collector.py:25-36 | one loop body: the directory's own line (except at the start), then its sorted collected files, at its depth |
| Collector.CollectProjectStructure | src/llm-code-materializer/collector.py:8-38 | the top-down walk yields exactly the pre-order listing `StructureOf` of the tree |
| Collector.PendingVisible | src/llm-code-materializer/collector.py:20-22 | pushing the filtered subdirectories leaves exactly the listings of the hidden ones out |
| Collector.HiddenUnlisted | src/llm-code-materializer/collector.py:22 | a subdirectory named `__…` or `.…` contributes nothing to the listing, with all it contains |
| Collector.DirFileLines | src/llm-code-materializer/collector.py:33-36 | a directory's file lines are its collected names in sorted order, each prefixed by the indent and `- `, and a name is listed exactly when it is such a file of the directory |
| Collector.FileLinesNames | src/llm-code-materializer/collector.py:34-36 | one line per collected name, indent and `- ` before the name |
| Collector.CollectedNamesMembers | src/llm-code-materializer/collector.py:35 | a name is collected exactly when it is a `.py` file or `map.txt` of the directory |
| Collector.CollectedNamesSorted | src/llm-code-materializer/collector.py:34 | the collected names of sorted files are in order |
| Collector.AppendContents | src/llm-code-materializer/collector.py:53-65 | the inner loop appends one triple per collected file that can be read |
| Collector.CollectFileContents | src/llm-code-materializer/collector.py:40-67 | the walk yields exactly the pre-order contents `ContentsOf` of the tree |
| Collector.ContentEntriesMembers | src/llm-code-materializer/collector.py:53-63 | a triple is collected exactly when some collected, readable file of the directory gives its relative path, its content and its type |
| Collector.SubdirCollected | src/llm-code-materializer/collector.py:52 | no pruning: every subdirectory, hidden ones included, contributes its files |
| Collector.RelFileEnds | src/llm-code-materializer/collector.py:55-56 | the relative path ends with a suffix exactly when the file name does |
| Collector.EntriesTyped | src/llm-code-materializer/collector.py:62 | each triple of a directory is typed `python` exactly when its path ends in `.py`, and `text` otherwise |
| Collector.ContentsTyped | src/llm-code-materializer/collector.py:62 | every collected triple of a tree is typed that way |
| Collector.ContentsAllTyped | src/llm-code-materializer/collector.py:62 | every collected triple of a sequence of subtrees is typed that way |
| Collector.GenerateOutputContent | src/llm-code-materializer/collector.py:69-102 | the items joined by newlines equal the document `OutputText` |
| Collector.JoinOutput | src/llm-code-materializer/collector.py:80-102 | joining the header items and the items of each file gives the document |
| Collector.JoinHeader | src/llm-code-materializer/collector.py:83-90 | the header: title, blank line, introduction, blank line, fenced listing, blank line, contents title |
| Collector.JoinBlock | src/llm-code-materializer/collector.py:93-100 | each file's items: heading, fence with tag, comment line, content, closing fence |
| CollectorSamples.ProjectStructure | src/llm-code-materializer/collector.py:8-38 | on the test tree the listing is `- main.py`, then `    - utils/`, `    - helper.py`, `    - data/`, `        - maps/`, `        - map.txt` |
| CollectorSamples.ProjectContents | src/llm-code-materializer/collector.py:40-67 | on the test tree, the three files with their relative paths and the types `python`, `python`, `text` |
| Legacy.PathEndSound | python_script_generator.py:10 | where a path end is reported, the text is a sequence of `/`-terminated segments and a final `….py` segment |
| Legacy.PathEndComplete | python_script_generator.py:10 | wherever such a path exists, an end is reported |
| Legacy.PathEndLongest | python_script_generator.py:10 | the reported end is the longest, as the greedy pattern takes |
| Legacy.MatchShape | python_script_generator.py:10 | a match is `- ` followed by such a path |
| Legacy.FindAllSound | python_script_generator.py:19 | every match found is the text of a match of the pattern |
| Legacy.ValidFiles | python_script_generator.py:22 | one name per match, the match stripped of dashes and spaces |
| Legacy.ValidFileShape | python_script_generator.py:22 | every valid name ends in `.py`, starts with neither `-` nor a space, has no newline, and ends some match |
| Legacy.StripMatch | python_script_generator.py:22 | stripping a match leaves its tail, which still ends in `.py` |
| Legacy.NestedMatches | python_script_generator.py:10-19 | in a nested listing only the file line `- b.py` matches; the directory line does not |
| Legacy.NestedEntryBareName | python_script_generator.py:10-22 | a nested file is known by its bare name, without its directory |
| Legacy.FirstMention | python_script_generator.py:34-37 | finds the first valid name the line contains, or reports that none does |
| Legacy.Pick | python_script_generator.py:34-37 | a line starting with ```` ``` ```` keeps the current file; otherwise the first valid name it contains becomes current; with none, the current file stays |
| Legacy.PickCurrent | python_script_generator.py:34-37 | the inner loop over the valid names computes `Pick` |
| Legacy.BodyEnd | python_script_generator.py:43-45 | the body ends at the first later line that strips to ```` ``` ````, or at the end of the text |
| Legacy.CollectBody | python_script_generator.py:41-45 | the code lines collected are exactly the lines up to that end |
| Legacy.ScanLine | python_script_generator.py:32-49 | one iteration of the line loop computes the scanner's step |
| Legacy.ExtractCodeBlocks | python_script_generator.py:4-51 | the whole extraction equals the scan `LegacyCodeBlocks` |
| Legacy.StateAtGrows | python_script_generator.py:48-49 | the dictionary only grows: each state extends every earlier one |
| Legacy.StateAtKeys | python_script_generator.py:22-49 | keys stay distinct and are valid names, and so is the current file |
| Legacy.LegacyKeys | python_script_generator.py:22-48 | every key of the result is distinct and is a name mentioned in the listing |
| Legacy.NoCurrentIgnored | python_script_generator.py:40 | without a current file, a line adds nothing |
| Legacy.BlockStored | python_script_generator.py:40-49 | a `` ```python `` line with a new current file appends that file with the joined body |
| Legacy.FirstBlockWins | python_script_generator.py:48-49 | that first body is what the final dictionary holds for the file |
| Legacy.LaterBlockIgnored | python_script_generator.py:48 | a later block for a file already stored changes nothing |
| Legacy.MapAtIff | python_script_generator.py:74 | a map is found at a position exactly when the pattern matches there, with the same group |
| Legacy.MapSearchLeftmost | python_script_generator.py:74-75 | the map found is the group of the leftmost match |
| Legacy.MapSearchNone | python_script_generator.py:74-75 | when any position matches, a map is found |
| Legacy.CreateMapFile | python_script_generator.py:70-83 | no map: nothing changes; otherwise `maps` is created below the base (when allowed), then `maps/map.txt` is written with the group exactly when `open` is allowed |
| Legacy.MapPathParent | python_script_generator.py:78-81 | the map file's parent is the `maps` directory |
| Legacy.MapWriteOk | python_script_generator.py:79-83 | once `maps` exists, the write fails only when `maps/map.txt` is itself a directory |
| Legacy.CreatePythonFiles | python_script_generator.py:53-68 | writes the dictionary in order, stopping at the first failure; equals `FileSystem.Run` |
| Legacy.PythonFileWritten | python_script_generator.py:57-66 | after a successful run, each relative file holds its code and its parent exists |
| RoundTrip.StructureRoundTrip | src/llm-code-materializer/collector.py:83-90 | the generator's listing parser, applied to the collector's document, gives back the stripped non-blank structure lines |
| RoundTrip.FilesRoundTrip | src/llm-code-materializer/collector.py:93-102 | the generator's code-block extraction, applied to the collector's document, gives each file in order with its stripped content and the tag `python` or empty |
| RoundTrip.SomeFilesRoundTrip | src/llm-code-materializer/collector.py:93-102 | a header without `### `, followed by the file blocks, reads back as the files |
| RoundTrip.NoFilesRoundTrip | src/llm-code-materializer/collector.py:83-90 | a header without `### ` alone has no code blocks |
| RoundTrip.SectionEntry | src/llm-code-materializer/collector.py:95-98 | a Python block reads back without its `# path` comment line; a text block reads back as its stripped content |
| RoundTrip.PythonEntry | src/llm-code-materializer/collector.py:97 | the comment line written for a Python file is removed by the generator's comment pattern |
| RoundTrip.TextEntry | src/llm-code-materializer/collector.py:97 | the empty comment line of a text file disappears when the body is stripped |
| RoundTrip.HeaderNoHeading | src/llm-code-materializer/collector.py:83-90 | when no structure line contains `### `, the header contains none either |

## Left out

- `main` and `create_parser` of both entry points, command-line parsing, the
  `print` calls and the warnings on standard error: they are I/O around the
  modelled functions.
- Reading the input file and writing the output file: these are I/O. The
  document is a parameter and the result.
- The real operating system: `os.makedirs`, `open` and `write` work on the
  `FileSystem` class. `os.walk`, listing and reading work on a `Collector.Dir`
  value. Permissions, links, `exist_ok` races and disk errors are not modelled.
- UTF-8 decoding: a file that cannot be decoded is `None` in the tree. `FileSystem.WriteFile`
  stores the text without encoding it.
- `ensure_directory` and `get_relative_path` in `utils.py`: neither is called
  by the modelled functions. `collect_file_contents` computes its relative path
  itself (`Collector.RelFile`).
- `os.walk`'s order of subdirectories is the operating system's listing order
  in the source. In the model it is the order of the `Dir` value.
- The unused `finditer` over `` ```python `` blocks in
  `python_script_generator.py` (lines 13-16): its result is never read.
- Unicode: `\s`, `\w` and `str.strip()` are modelled on their ASCII members.
  Other Unicode spaces, letters and digits are not modelled.
- The run time of the regular expressions is not modelled; only their results
  are.
- The separator `os.sep` is taken to be `/`. Windows paths are not modelled,
  beyond `Utils.FormatPathForOutput`.
- `setup.py` and the test files are not modelled. Their expectations appear
  only in the sample lemmas.
- RoundTrip.StructureRoundTrip: requires a non-empty structure whose lines each
  start with `-` or whitespace and contain no newline. An empty structure
  gives an empty fenced block, which the structure pattern (at least one line)
  does not match.
- RoundTrip.FilesRoundTrip: requires that no structure line contains `### `,
  that every path is non-empty, trimmed and free of backticks, that no content
  contains a triple backtick, and that no text file's stripped content starts
  with `#`, whitespace and its own path. Paths must also be distinct. Every
  path is read back as written, but the contents are read back stripped.
- Legacy.CreatePythonFiles and Legacy.CreateMapFile: the "Created: …"
  messages they print are not modelled.
- FileSystem.WrittenAt: paths are compared as strings and not normalised, so
  `out/a.py`, `out/./a.py` and `out//a.py` are three files in the model and one
  on disk. The lemma holds only for entry paths the operating system does not
  alias (no `.` or `..` segments, no doubled `/`).
- Generator.ProjectFileWritten: rests on `FileSystem.WrittenAt`, with the same
  limit on aliased paths.
- Legacy.PythonFileWritten: rests on `FileSystem.WrittenAt`, with the same
  limit on aliased paths.
- FileSystem.RunOkIff and FileSystem.RunTwice: with aliased paths the real
  `makedirs` and `open` can succeed or fail where the string model says
  otherwise (a directory `out/a` and a file `out/./a`).

## Where the code and its tests disagree

The model follows the code in each case below.

- `tests/test_generator.py` expects the structure lines to keep their
  indentation. `generator.py:23` strips every line (`GeneratorSamples.SampleStructure`).
- `tests/test_collector.py` expects each directory line at its parent's
  indentation, with the files of the start directory last. `collector.py:26-36`
  indents a directory line to the directory's own depth, like its files, and
  lists the start directory's files first (`CollectorSamples.ProjectStructure`).
- `tests/test_generator.py` expects the entries `empty/dir/` and
  `empty/dir/file.py` to create the directory and the file. In the code, `os.makedirs` succeeds and then `open` fails on the
  trailing slash, so no file of that dictionary is written
  (`GeneratorSamples.DirectoryMarker`, `FileSystem.RunTrailingSlash`).
- `collect_file_contents` (`collector.py:52`) does not skip `__…` or `.…`
  directories, unlike `collect_project_structure` (`Collector.SubdirCollected`).
- An untagged block is given the type `''` (`generator.py:43`), not `text`.
  A `text` file written by the collector reads back with an empty tag.
