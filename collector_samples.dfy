/**
  The collector applied to the small project its unit tests build: `main.py` at the
  top, `utils/helper.py`, and `data/maps/map.txt`, with `utils` listed before `data`.
 */
module CollectorSamples {
  import opened Wrappers
  import opened Text
  import opened Sorting
  import opened Collector

  const MainPy: string := "def main():\n    print(\"Hello\")\n"
  const HelperPy: string := "def helper():\n    return True\n"
  const MapTxt: string := "##########\n#....P...#\n##########\n"

  const Maps: Dir := Dir("maps", [("map.txt", Some(MapTxt))], [])
  const Data: Dir := Dir("data", [], [Maps])
  const Utils: Dir := Dir("utils", [("helper.py", Some(HelperPy))], [])
  const Project: Dir := Dir("project", [("main.py", Some(MainPy))], [Utils, Data])

  /** Sorting a single file is the identity. */
  lemma SortOne<T>(x: (string, T))
    ensures SortByName([x]) == [x]
  {
    assert multiset(SortByName([x])) == multiset{x};
    assert |SortByName([x])| == 1;
    assert SortByName([x])[0] in multiset(SortByName([x]));
  }

  lemma FourSpaces()
    ensures Indent(1) == "    " && Indent(2) == "        "
  {
  }

  /** A name ending in `.py` is collected and typed `python`. */
  lemma PythonName(name: string)
    requires |name| >= 3 && name[|name| - 3..] == ".py"
    ensures Collected(name) && FileType(name) == "python"
  {
  }

  lemma MapName()
    ensures Collected("map.txt") && FileType("map.txt") == "text"
  {
    assert "map.txt"[4..] != ".py";
  }

  /** A name starting with a letter is not hidden. */
  lemma Shown(name: string)
    requires |name| >= 1 && name[0] != '_' && name[0] != '.'
    ensures !Hidden(name)
  {
    assert !StartsWith(name, "__") by { if |name| >= 2 { assert name[..2][0] == name[0]; } }
    assert name[..1][0] == name[0];
  }

  lemma OneFileLine(indent: string, f: (string, Option<string>))
    requires Collected(f.0)
    ensures FileLines(indent, [f]) == [indent + "- " + f.0]
  {
    assert [f][..0] == [];
  }

  lemma OneEntry(path: seq<string>, f: (string, Option<string>))
    requires Collected(f.0) && f.1.Some?
    ensures ContentEntries(path, [f]) == [(Join(path + [f.0], "/"), f.1.value, FileType(f.0))]
  {
    assert [f][..0] == [];
  }

  lemma StructureOfAllOne(path: seq<string>, x: Dir)
    requires !Hidden(x.name)
    ensures StructureOfAll(path, [x]) == StructureOf(path + [x.name], x)
  {
    assert [x][1..] == [];
    assert StructureOfAll(path, [x]) == StructureOf(path + [x.name], x) + [];
  }

  /** A directory holding one collected file and nothing else. */
  lemma LeafLines(path: seq<string>, d: Dir)
    requires path != [] && |d.files| == 1 && d.subdirs == [] && Collected(d.files[0].0)
    ensures StructureOf(path, d) == [Indent(|path|) + "- " + d.name + "/", Indent(|path|) + "- " + d.files[0].0]
  {
    SortOne(d.files[0]);
    assert d.files == [d.files[0]];
    OneFileLine(Indent(|path|), d.files[0]);
  }

  lemma UtilsLines()
    ensures StructureOf(["utils"], Utils) == ["    - utils/", "    - helper.py"]
  {
    PythonName("helper.py");
    LeafLines(["utils"], Utils);
    FourSpaces();
    assert Indent(1) + "- " + "utils" + "/" == "    - utils/";
    assert Indent(1) + "- " + "helper.py" == "    - helper.py";
  }

  lemma MapsLines()
    ensures StructureOf(["data", "maps"], Maps) == ["        - maps/", "        - map.txt"]
  {
    MapName();
    LeafLines(["data", "maps"], Maps);
    FourSpaces();
    assert Indent(2) + "- " + "maps" + "/" == "        - maps/";
    assert Indent(2) + "- " + "map.txt" == "        - map.txt";
  }

  lemma DataLines()
    ensures StructureOf(["data"], Data) == ["    - data/", "        - maps/", "        - map.txt"]
  {
    MapsLines();
    FourSpaces();
    Shown("maps");
    StructureOfAllOne(["data"], Maps);
    assert SortByName(Data.files) == [];
    assert FileLines("    ", []) == [];
    assert ["data"] + [Maps.name] == ["data", "maps"];
    assert DirLine(["data"], Data) == ["    - data/"] by {
      assert Indent(1) + "- " + "data" + "/" == "    - data/";
    }
  }

  lemma StructureOfAllTwo(path: seq<string>, x: Dir, y: Dir)
    requires !Hidden(x.name) && !Hidden(y.name)
    ensures StructureOfAll(path, [x, y]) == StructureOf(path + [x.name], x) + StructureOf(path + [y.name], y)
  {
    assert [x, y][1..] == [y];
    StructureOfAllOne(path, y);
  }

  lemma ContentsOfAllTwo(path: seq<string>, x: Dir, y: Dir)
    ensures ContentsOfAll(path, [x, y]) == ContentsOf(path + [x.name], x) + ContentsOf(path + [y.name], y)
  {
    assert [x, y][1..] == [y];
    ContentsOfAllOne(path, y);
  }

  /** The listing the code produces for the test project: every directory line is
      indented to the depth of the directory itself, like the files inside it, and
      the files of the top directory come first. */
  lemma ProjectStructure()
    ensures StructureOf([], Project)
         == ["- main.py", "    - utils/", "    - helper.py", "    - data/", "        - maps/", "        - map.txt"]
  {
    SortOne(("main.py", Some(MainPy)));
    PythonName("main.py");
    OneFileLine("", ("main.py", Some(MainPy)));
    assert "" + "- " + "main.py" == "- main.py";
    Shown("utils");
    Shown("data");
    StructureOfAllTwo([], Utils, Data);
    UtilsLines();
    DataLines();
    assert [] + [Utils.name] == ["utils"] && [] + [Data.name] == ["data"];
    assert StructureOf([], Project) == ["- main.py"] + StructureOf(["utils"], Utils) + StructureOf(["data"], Data);
  }

  lemma UtilsContents()
    ensures ContentsOf(["utils"], Utils) == [("utils/helper.py", HelperPy, "python")]
  {
    SortOne(("helper.py", Some(HelperPy)));
    PythonName("helper.py");
    OneEntry(["utils"], ("helper.py", Some(HelperPy)));
    assert Join(["utils", "helper.py"], "/") == "utils/helper.py";
  }

  lemma MapsContents()
    ensures ContentsOf(["data", "maps"], Maps) == [("data/maps/map.txt", MapTxt, "text")]
  {
    SortOne(("map.txt", Some(MapTxt)));
    MapName();
    OneEntry(["data", "maps"], ("map.txt", Some(MapTxt)));
    assert Join(["data", "maps", "map.txt"], "/") == "data/maps/map.txt";
  }

  lemma DataContents()
    ensures ContentsOf(["data"], Data) == [("data/maps/map.txt", MapTxt, "text")]
  {
    MapsContents();
    ContentsOfAllOne(["data"], Maps);
    assert SortByName(Data.files) == [];
    assert ContentEntries(["data"], []) == [];
    assert ["data"] + [Maps.name] == ["data", "maps"];
  }

  /** The three files the test expects, each with its relative path and type. */
  lemma ProjectContents()
    ensures ContentsOf([], Project)
         == [("main.py", MainPy, "python"), ("utils/helper.py", HelperPy, "python"),
             ("data/maps/map.txt", MapTxt, "text")]
  {
    SortOne(("main.py", Some(MainPy)));
    PythonName("main.py");
    OneEntry([], ("main.py", Some(MainPy)));
    assert Join([] + ["main.py"], "/") == "main.py";
    ContentsOfAllTwo([], Utils, Data);
    UtilsContents();
    DataContents();
    assert [] + [Utils.name] == ["utils"] && [] + [Data.name] == ["data"];
    assert ContentsOf([], Project) == [("main.py", MainPy, "python")] + ContentsOf(["utils"], Utils) + ContentsOf(["data"], Data);
  }
}
