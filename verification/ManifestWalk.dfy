/** `_walk_inputs`: every eligible file below a directory, and a refusal of links and special files. */
module ManifestWalk {
  import opened Wrappers

  /**
   What a name in a directory stands for. A link to a directory is listed among the directories. A
   directory that cannot be listed may still lead to its files by their paths.
   */
  datatype Node =
    | File(content: string)
    | FileLink
    | DirectoryLink
    | Unreadable
    | Directory(entries: seq<Listed>, listable: bool)

  datatype Listed = Listed(name: string, node: Node)

  type Path = seq<string>

  predicate Excluded(name: string) {
    name in {".pytest_cache", ".venv", "__pycache__"}
  }

  /** `Path(name).suffix == ".py"` */
  predicate PythonName(name: string) {
    |name| > 3 && name[|name| - 3..] == ".py"
  }

  predicate Selects(pythonOnly: bool, name: string) {
    pythonOnly ==> PythonName(name)
  }

  /** The walk comes to the file at `path`: nothing on the way is excluded, a link or a directory it cannot list. */
  ghost predicate Eligible(node: Node, pythonOnly: bool, path: Path) {
    && node.Directory? && node.listable
    && exists i :: 0 <= i < |node.entries| && EligibleBelow(node.entries[i], pythonOnly, path)
  }

  ghost predicate EligibleBelow(e: Listed, pythonOnly: bool, path: Path) {
    && path != [] && path[0] == e.name
    && if |path| == 1 then e.node.File? && Selects(pythonOnly, e.name)
       else !Excluded(e.name) && Eligible(e.node, pythonOnly, path[1..])
  }

  /** The entry at `path` makes the walk give up. */
  ghost predicate Offends(node: Node, pythonOnly: bool, path: Path) {
    && node.Directory? && node.listable
    && exists i :: 0 <= i < |node.entries| && OffendsBelow(node.entries[i], pythonOnly, path)
  }

  ghost predicate OffendsBelow(e: Listed, pythonOnly: bool, path: Path) {
    && path != [] && path[0] == e.name
    && if |path| == 1 then e.node.DirectoryLink?
      || ((e.node.FileLink? || e.node.Unreadable?) && Selects(pythonOnly, e.name))
       else !Excluded(e.name) && Offends(e.node, pythonOnly, path[1..])
  }

  // ---- which paths the walk comes to ----

  /** Directories that can be listed lead to a file at `path`. */
  ghost predicate Leads(node: Node, path: Path) {
    && node.Directory? && node.listable && path != []
    && exists i :: 0 <= i < |node.entries| && LeadsBelow(node.entries[i], path)
  }

  ghost predicate LeadsBelow(e: Listed, path: Path) {
    && path != [] && path[0] == e.name
    && if |path| == 1 then e.node.File? else Leads(e.node, path[1..])
  }

  /** No directory on the way is one of the caches, and where only Python counts the file is a Python file. */
  ghost predicate Wanted(pythonOnly: bool, path: Path) {
    && path != []
    && (forall k :: 0 <= k < |path| - 1 ==> path[k] !in {".pytest_cache", ".venv", "__pycache__"})
    && (pythonOnly ==> exists stem :: stem != "" && path[|path| - 1] == stem + ".py")
  }

  lemma PythonNameIs(name: string)
    ensures PythonName(name) <==> exists stem :: stem != "" && name == stem + ".py"
  {
    if PythonName(name) {
      assert name == name[..|name| - 3] + ".py";
    }
  }

  lemma WantedBelow(pythonOnly: bool, path: Path)
    requires |path| > 1
    ensures Wanted(pythonOnly, path) <==>
      path[0] !in {".pytest_cache", ".venv", "__pycache__"} && Wanted(pythonOnly, path[1..])
  {
    var rest := path[1..];
    assert forall k :: 0 <= k < |rest| ==> rest[k] == path[k + 1];
    assert forall k :: 1 <= k < |path| ==> path[k] == rest[k - 1];
  }

  /** The walk comes to exactly the files that such directories lead to and that are wanted. */
  lemma {:induction false} EligibleIsWanted(node: Node, pythonOnly: bool, path: Path)
    ensures Eligible(node, pythonOnly, path) <==> Leads(node, path) && Wanted(pythonOnly, path)
    decreases path
  {
    if path != [] {
      PythonNameIs(path[0]);
      if |path| > 1 {
        WantedBelow(pythonOnly, path);
        forall n ensures Eligible(n, pythonOnly, path[1..]) <==> Leads(n, path[1..]) && Wanted(pythonOnly, path[1..]) {
          EligibleIsWanted(n, pythonOnly, path[1..]);
        }
      }
      forall i | node.Directory? && 0 <= i < |node.entries|
        ensures EligibleBelow(node.entries[i], pythonOnly, path) <==>
          LeadsBelow(node.entries[i], path) && Wanted(pythonOnly, path)
      {
      }
    }
  }

  predicate Kept(e: Listed) {
    e.node.Directory? && !Excluded(e.name)
  }

  predicate BadFile(e: Listed, pythonOnly: bool) {
    (e.node.FileLink? || e.node.Unreadable?) && Selects(pythonOnly, e.name)
  }

  predicate GoodFile(e: Listed, pythonOnly: bool) {
    e.node.File? && Selects(pythonOnly, e.name)
  }

  /** The directories to go into; a link among the directories is refused even under an excluded name. */
  method KeptDirectories(entries: seq<Listed>) returns (kept: Outcome<seq<Listed>>)
    ensures kept.Ok? <==> forall i :: 0 <= i < |entries| ==> !entries[i].node.DirectoryLink?
    ensures kept.Ok? ==> forall e :: e in kept.value <==> e in entries && Kept(e)
  {
    var result: seq<Listed> := [];
    for i := 0 to |entries|
      invariant forall k :: 0 <= k < i ==> !entries[k].node.DirectoryLink?
      invariant forall e :: e in result <==> e in entries[..i] && Kept(e)
    {
      if entries[i].node.DirectoryLink? { return Raised; }
      if Kept(entries[i]) {
        result := result + [entries[i]];
      }
    }
    return Ok(result);
  }

  method OwnFiles(entries: seq<Listed>, pythonOnly: bool) returns (names: Outcome<seq<string>>)
    ensures names.Ok? <==> forall e :: e in entries ==> !BadFile(e, pythonOnly)
    ensures names.Ok? ==> forall n :: n in names.value <==>
      exists e :: e in entries && e.name == n && GoodFile(e, pythonOnly)
  {
    var result: seq<string> := [];
    for i := 0 to |entries|
      invariant forall e :: e in entries[..i] ==> !BadFile(e, pythonOnly)
      invariant forall n :: n in result <==> exists e :: e in entries[..i] && e.name == n && GoodFile(e, pythonOnly)
    {
      assert entries[..i + 1] == entries[..i] + [entries[i]];
      if Selects(pythonOnly, entries[i].name) && !entries[i].node.Directory? && !entries[i].node.DirectoryLink? {
        if !entries[i].node.File? {
          assert BadFile(entries[i], pythonOnly);
          return Raised;
        }
        assert GoodFile(entries[i], pythonOnly);
        result := result + [entries[i].name];
      }
    }
    return Ok(result);
  }

  /** What a kept directory contributes. */
  ghost predicate Inside(e: Listed, pythonOnly: bool, path: Path) {
    |path| > 1 && path[0] == e.name && Eligible(e.node, pythonOnly, path[1..])
  }

  lemma OnlyDirectoriesHold(node: Node, pythonOnly: bool, path: Path)
    ensures Eligible(node, pythonOnly, path) || Offends(node, pythonOnly, path) ==>
      node.Directory? && node.listable && path != []
  {
    if Eligible(node, pythonOnly, path) {
      var i :| 0 <= i < |node.entries| && EligibleBelow(node.entries[i], pythonOnly, path);
    } else if Offends(node, pythonOnly, path) {
      var i :| 0 <= i < |node.entries| && OffendsBelow(node.entries[i], pythonOnly, path);
    }
  }

  /** A path is eligible by being a good file here or by lying inside a kept directory. */
  lemma EligibleHereOrInside(node: Node, pythonOnly: bool, path: Path)
    requires node.Directory? && node.listable
    ensures Eligible(node, pythonOnly, path) <==>
      || (|path| == 1 && exists e :: e in node.entries && e.name == path[0] && GoodFile(e, pythonOnly))
      || (exists e :: e in node.entries && Kept(e) && Inside(e, pythonOnly, path))
  {
    if Eligible(node, pythonOnly, path) {
      var i :| 0 <= i < |node.entries| && EligibleBelow(node.entries[i], pythonOnly, path);
      var e := node.entries[i];
      assert e in node.entries;
      if |path| > 1 { OnlyDirectoriesHold(e.node, pythonOnly, path[1..]); }
      assert if |path| == 1 then GoodFile(e, pythonOnly) else Kept(e) && Inside(e, pythonOnly, path);
    }
    if e :| e in node.entries && |path| == 1 && e.name == path[0] && GoodFile(e, pythonOnly) {
      var i :| 0 <= i < |node.entries| && node.entries[i] == e;
      assert EligibleBelow(node.entries[i], pythonOnly, path);
    }
    if e :| e in node.entries && Kept(e) && Inside(e, pythonOnly, path) {
      var i :| 0 <= i < |node.entries| && node.entries[i] == e;
      assert EligibleBelow(node.entries[i], pythonOnly, path);
    }
  }

  lemma OffendsHere(node: Node, pythonOnly: bool, e: Listed)
    requires node.Directory? && node.listable && e in node.entries
    requires e.node.DirectoryLink? || BadFile(e, pythonOnly)
    ensures exists p :: Offends(node, pythonOnly, p)
  {
    var i :| 0 <= i < |node.entries| && node.entries[i] == e;
    assert OffendsBelow(node.entries[i], pythonOnly, [e.name]);
    assert Offends(node, pythonOnly, [e.name]);
  }

  lemma OffendsInside(node: Node, pythonOnly: bool, e: Listed, p: Path)
    requires node.Directory? && node.listable && e in node.entries && Kept(e)
    requires Offends(e.node, pythonOnly, p)
    ensures Offends(node, pythonOnly, [e.name] + p)
  {
    var i :| 0 <= i < |node.entries| && node.entries[i] == e;
    assert ([e.name] + p)[1..] == p;
    assert p != [];
    assert OffendsBelow(node.entries[i], pythonOnly, [e.name] + p);
  }

  ghost predicate OffendingEntry(e: Listed, pythonOnly: bool, p: Path) {
    e.node.DirectoryLink? || BadFile(e, pythonOnly) || (|p| > 1 && Kept(e) && Offends(e.node, pythonOnly, p[1..]))
  }

  lemma OffenceIsHereOrInside(node: Node, pythonOnly: bool, p: Path)
    requires Offends(node, pythonOnly, p)
    ensures exists e :: e in node.entries && OffendingEntry(e, pythonOnly, p)
  {
    var i :| 0 <= i < |node.entries| && OffendsBelow(node.entries[i], pythonOnly, p);
    var e := node.entries[i];
    assert e in node.entries;
    if |p| > 1 {
      OnlyDirectoriesHold(e.node, pythonOnly, p[1..]);
    }
  }

  lemma NothingOffends(node: Node, pythonOnly: bool, p: Path)
    requires node.Directory?
    requires forall e :: e in node.entries ==> !e.node.DirectoryLink? && !BadFile(e, pythonOnly)
    requires forall e, q :: e in node.entries && Kept(e) ==> !Offends(e.node, pythonOnly, q)
    ensures !Offends(node, pythonOnly, p)
  {
    if Offends(node, pythonOnly, p) {
      OffenceIsHereOrInside(node, pythonOnly, p);
    }
  }

  function Singletons(names: seq<string>): (r: seq<Path>)
    ensures forall p :: p in r <==> |p| == 1 && p[0] in names
  {
    if names == [] then []
    else
      assert forall p: Path :: |p| == 1 && p[0] == names[0] ==> p == [names[0]];
      [[names[0]]] + Singletons(names[1..])
  }

  function Below(name: string, paths: seq<Path>): (r: seq<Path>)
    ensures forall p :: p in r <==> p != [] && p[0] == name && p[1..] in paths
  {
    if paths == [] then []
    else
      assert forall p: Path :: p != [] && p[0] == name && p[1..] == paths[0] ==> p == [name] + paths[0];
      [[name] + paths[0]] + Below(name, paths[1..])
  }

  /** The walks of the kept directories of `node`. */
  method Descend(node: Node, kept: seq<Listed>, pythonOnly: bool) returns (found: Outcome<seq<Path>>)
    requires node.Directory? && forall e :: e in kept ==> e in node.entries && Kept(e)
    ensures found.Ok? ==> forall p :: p in found.value <==> exists e :: e in kept && Inside(e, pythonOnly, p)
    ensures found.Ok? ==> forall e, p :: e in kept ==> !Offends(e.node, pythonOnly, p)
    ensures found.Raised? ==> exists e, p :: e in kept && Offends(e.node, pythonOnly, p)
    decreases node, 0
  {
    var result: seq<Path> := [];
    for i := 0 to |kept|
      invariant forall p :: p in result <==> exists e :: e in kept[..i] && Inside(e, pythonOnly, p)
      invariant forall e, p :: e in kept[..i] ==> !Offends(e.node, pythonOnly, p)
    {
      var e := kept[i];
      assert kept[..i + 1] == kept[..i] + [e];
      assert e in kept && e in node.entries;
      ghost var k :| 0 <= k < |node.entries| && node.entries[k] == e;
      var deeper := Walk(e.node, pythonOnly);
      if deeper.Raised? {
        ghost var p :| Offends(e.node, pythonOnly, p);
        return Raised;
      }
      var more := Below(e.name, deeper.value);
      OnlyDirectoriesHold(e.node, pythonOnly, []);
      forall p: Path ensures p in more <==> Inside(e, pythonOnly, p) {
        if |p| == 1 { assert p[1..] == []; }
      }
      result := result + more;
    }
    return Ok(result);
  }

  /** One directory's own files, then the walk of each kept directory. */
  method Walk(node: Node, pythonOnly: bool) returns (found: Outcome<seq<Path>>)
    ensures found.Ok? ==> forall p :: p in found.value <==> Eligible(node, pythonOnly, p)
    ensures found.Ok? <==> node.Directory? && forall p :: !Offends(node, pythonOnly, p)
    decreases node, 1
  {
    if !node.Directory? { return Raised; }
    if !node.listable { return Ok([]); }  // os.walk without onerror
    var kept := KeptDirectories(node.entries);
    if kept.Raised? {
      ghost var i :| 0 <= i < |node.entries| && node.entries[i].node.DirectoryLink?;
      OffendsHere(node, pythonOnly, node.entries[i]);
      return Raised;
    }
    var files := OwnFiles(node.entries, pythonOnly);
    if files.Raised? {
      ghost var e :| e in node.entries && BadFile(e, pythonOnly);
      OffendsHere(node, pythonOnly, e);
      return Raised;
    }
    var deeper := Descend(node, kept.value, pythonOnly);
    if deeper.Raised? {
      ghost var e, p :| e in kept.value && Offends(e.node, pythonOnly, p);
      OffendsInside(node, pythonOnly, e, p);
      assert Offends(node, pythonOnly, [e.name] + p);
      return Raised;
    }
    var result := Singletons(files.value) + deeper.value;
    forall p ensures p in result <==> Eligible(node, pythonOnly, p) {
      EligibleHereOrInside(node, pythonOnly, p);
    }
    forall p ensures !Offends(node, pythonOnly, p) {
      NothingOffends(node, pythonOnly, p);
    }
    return Ok(result);
  }
}
