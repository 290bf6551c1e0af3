/**
  The path and file-name helpers: which files count as Python sources, which
  are special data files, and how a path is normalised for display.
 */
module Utils {
  import opened Text

  /** `is_valid_python_file`: a `.py` file whose name does not start with `__`. */
  function IsValidPythonFile(filename: string): (r: bool)
    ensures r <==> |filename| >= 3 && filename[|filename| - 3..] == ".py"
                   && !(|filename| >= 2 && filename[0] == '_' && filename[1] == '_')
  {
    EndsWith(filename, ".py") && !StartsWith(filename, "__")
  }

  /** A package initialiser is not a valid file; an ordinary module is. */
  lemma InitIsNotValid()
    ensures !IsValidPythonFile("__init__.py")
    ensures IsValidPythonFile("main.py")
    ensures !IsValidPythonFile("notes.txt")
  {
  }

  /** The special files. */
  const SpecialFiles: seq<string> := ["map.txt"]

  /** `is_special_file`: membership in the special files, which is just `map.txt`. */
  function IsSpecialFile(filename: string): (r: bool)
    ensures r <==> filename == "map.txt"
  {
    filename in SpecialFiles
  }

  /** `format_path_for_output`: every backslash becomes `/`. */
  function FormatPathForOutput(path: string): (r: string)
    ensures |r| == |path|
    ensures forall i :: 0 <= i < |path| ==> r[i] == if path[i] == '\\' then '/' else path[i]
    ensures '\\' !in r
  {
    if path == [] then []
    else (if path[0] == '\\' then "/" else [path[0]]) + FormatPathForOutput(path[1..])
  }

  /** A path without backslashes is returned unchanged. */
  lemma FormatPathIdentity(path: string)
    requires '\\' !in path
    ensures FormatPathForOutput(path) == path
  {
    var r := FormatPathForOutput(path);
    assert forall i :: 0 <= i < |path| ==> r[i] == path[i];
  }

  /** Normalising twice is normalising once. */
  lemma FormatPathIdempotent(path: string)
    ensures FormatPathForOutput(FormatPathForOutput(path)) == FormatPathForOutput(path)
  {
    FormatPathIdentity(FormatPathForOutput(path));
  }

  /** A Windows-style path is shown with forward slashes. */
  lemma FormatPathExample()
    ensures FormatPathForOutput("a\\b") == "a/b"
  {
    var r := FormatPathForOutput("a\\b");
    assert r[0] == 'a' && r[1] == '/' && r[2] == 'b';
  }
}
