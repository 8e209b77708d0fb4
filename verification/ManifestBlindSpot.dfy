/**
 The walk passes over a directory that it cannot list. What the recheck of the manifest then misses: the
 files that a listing would have shown.
 */
module ManifestBlindSpot {
  import opened Wrappers
  import opened ManifestStream
  import opened ManifestWalk
  import opened Manifests
  import opened ManifestInputs

  // ---- the files that the walk is meant to find ----

  /** Like `Eligible`, whether or not the directories on the way can be listed. */
  ghost predicate Meant(node: Node, pythonOnly: bool, path: Path) {
    node.Directory? && exists i :: 0 <= i < |node.entries| && MeantBelow(node.entries[i], pythonOnly, path)
  }

  ghost predicate MeantBelow(e: Listed, pythonOnly: bool, path: Path) {
    && path != [] && path[0] == e.name
    && if |path| == 1 then e.node.File? && Selects(pythonOnly, e.name)
       else !Excluded(e.name) && Meant(e.node, pythonOnly, path[1..])
  }

  ghost predicate MeantBy(root: Node, w: WalkOf, path: Path) {
    && |w.directory| < |path| && path[..|w.directory|] == w.directory
    && Find(root, w.directory).Ok? && Meant(Find(root, w.directory).value, w.pythonOnly, path[|w.directory|..])
  }

  /** The input files, found or not. */
  ghost predicate Input(root: Node, recipe: Recipe, path: Path) {
    path in recipe.fixed || exists w :: w in recipe.walks && MeantBy(root, w, path)
  }

  ghost predicate Hidden(root: Node, recipe: Recipe, path: Path) {
    Input(root, recipe, path) && !Selected(root, recipe, path)
  }

  ghost predicate NothingHidden(root: Node, recipe: Recipe) {
    forall p :: !Hidden(root, recipe, p)
  }

  lemma {:induction false} EligibleIsMeant(node: Node, pythonOnly: bool, path: Path)
    requires Eligible(node, pythonOnly, path)
    ensures Meant(node, pythonOnly, path)
    decreases path
  {
    var i :| 0 <= i < |node.entries| && EligibleBelow(node.entries[i], pythonOnly, path);
    if |path| > 1 { EligibleIsMeant(node.entries[i].node, pythonOnly, path[1..]); }
    assert MeantBelow(node.entries[i], pythonOnly, path);
  }

  /** Every directory that the walk goes into can be listed. */
  ghost predicate FullyListed(node: Node) {
    node.Directory? ==>
      node.listable && forall i :: 0 <= i < |node.entries| ==>
        Excluded(node.entries[i].name) || FullyListed(node.entries[i].node)
  }

  lemma {:induction false} ListedIsFound(node: Node, pythonOnly: bool, path: Path)
    requires FullyListed(node) && Meant(node, pythonOnly, path)
    ensures Eligible(node, pythonOnly, path)
    decreases path
  {
    var i :| 0 <= i < |node.entries| && MeantBelow(node.entries[i], pythonOnly, path);
    if |path| > 1 { ListedIsFound(node.entries[i].node, pythonOnly, path[1..]); }
    assert EligibleBelow(node.entries[i], pythonOnly, path);
  }

  /** Where everything can be listed, nothing is hidden. */
  lemma ListedHidesNothing(root: Node, recipe: Recipe)
    requires forall w :: w in recipe.walks && Find(root, w.directory).Ok? ==> FullyListed(Find(root, w.directory).value)
    ensures NothingHidden(root, recipe)
  {
    forall p | Input(root, recipe, p) ensures Selected(root, recipe, p) {
      if p !in recipe.fixed {
        var w :| w in recipe.walks && MeantBy(root, w, p);
        ListedIsFound(Find(root, w.directory).value, w.pythonOnly, p[|w.directory|..]);
        assert WalkedTo(root, w, p);
      }
    }
  }

  lemma SelectedIsInput(root: Node, recipe: Recipe, path: Path)
    requires Selected(root, recipe, path)
    ensures Input(root, recipe, path)
  {
    if path !in recipe.fixed {
      var w :| w in recipe.walks && WalkedTo(root, w, path);
      EligibleIsMeant(Find(root, w.directory).value, w.pythonOnly, path[|w.directory|..]);
      assert MeantBy(root, w, path);
    }
  }

  // ---- what the recheck sees ----

  ghost predicate SameFiles(before: Node, after: Node, recipe: Recipe) {
    && (forall p :: Input(before, recipe, p) <==> Input(after, recipe, p))
    && (forall p :: Input(before, recipe, p) ==> Content(before, p) == Content(after, p))
  }

  ghost predicate SameHidden(before: Node, after: Node, recipe: Recipe) {
    && (forall p :: Hidden(before, recipe, p) <==> Hidden(after, recipe, p))
    && (forall p :: Hidden(before, recipe, p) ==> Content(before, p) == Content(after, p))
  }

  /** After a recheck that passes, the input files are the same if and only if the hidden ones are. */
  lemma WhatTheRecheckMisses(before: Node, after: Node, recipe: Recipe)
    requires SameInputs(before, after, recipe)
    ensures SameFiles(before, after, recipe) <==> SameHidden(before, after, recipe)
  {
    forall p ensures Selected(before, recipe, p) ==> Input(before, recipe, p) {
      if Selected(before, recipe, p) { SelectedIsInput(before, recipe, p); }
    }
    forall p ensures Selected(after, recipe, p) ==> Input(after, recipe, p) {
      if Selected(after, recipe, p) { SelectedIsInput(after, recipe, p); }
    }
    if SameHidden(before, after, recipe) {
      forall p ensures Input(before, recipe, p) <==> Input(after, recipe, p) {
        assert Hidden(before, recipe, p) <==> Hidden(after, recipe, p);
        assert Selected(before, recipe, p) <==> Selected(after, recipe, p);
      }
      forall p | Input(before, recipe, p) ensures Content(before, p) == Content(after, p) {
        assert Hidden(before, recipe, p) || Selected(before, recipe, p);
      }
    }
  }

  /** Where nothing is hidden on either side, the recheck passes exactly when no input file was changed. */
  lemma RecheckOfListedTrees(before: Node, m: Manifest, o: seq<Path>, paths: set<Path>,
                             after: Node, m': Manifest, o': seq<Path>, paths': set<Path>, recipe: Recipe, hash: Hash)
    requires ProperRecipe(recipe) && NothingHidden(before, recipe) && NothingHidden(after, recipe)
    requires ManifestOf(m, o, paths, before, recipe, hash) && ManifestOf(m', o', paths', after, recipe, hash)
    requires NoCollision(hash, Stream(Entries(before, o, hash)), Stream(Entries(after, o', hash)))
    requires NoContentsCollide(before, after, paths, hash)
    ensures m == m' <==> SameFiles(before, after, recipe)
  {
    RecheckSeesEveryChange(before, m, o, paths, after, m', o', paths', recipe, hash);
    NothingHiddenMeansFound(before, recipe);
    NothingHiddenMeansFound(after, recipe);
  }

  lemma NothingHiddenMeansFound(root: Node, recipe: Recipe)
    requires NothingHidden(root, recipe)
    ensures forall p :: Selected(root, recipe, p) <==> Input(root, recipe, p)
  {
    forall p ensures Selected(root, recipe, p) <==> Input(root, recipe, p) {
      if Selected(root, recipe, p) { SelectedIsInput(root, recipe, p); }
      assert !Hidden(root, recipe, p);
    }
  }

  // ---- the blind spot ----

  /** The same tree but for the contents of its files. */
  ghost predicate SameShape(a: Node, b: Node) {
    match a
    case File(_) => b.File?
    case Directory(entries, listable) =>
      && b.Directory? && b.listable == listable && |b.entries| == |entries|
      && forall i :: 0 <= i < |entries| ==>
        b.entries[i].name == entries[i].name && SameShape(entries[i].node, b.entries[i].node)
    case _ => a == b
  }

  lemma {:induction false} SameShapeSameWalk(a: Node, b: Node, pythonOnly: bool, p: Path)
    requires SameShape(a, b)
    ensures Eligible(a, pythonOnly, p) <==> Eligible(b, pythonOnly, p)
    ensures Offends(a, pythonOnly, p) <==> Offends(b, pythonOnly, p)
    ensures Meant(a, pythonOnly, p) <==> Meant(b, pythonOnly, p)
    decreases p
  {
    if a.Directory? {
      forall i | 0 <= i < |a.entries|
        ensures EligibleBelow(a.entries[i], pythonOnly, p) <==> EligibleBelow(b.entries[i], pythonOnly, p)
        ensures OffendsBelow(a.entries[i], pythonOnly, p) <==> OffendsBelow(b.entries[i], pythonOnly, p)
        ensures MeantBelow(a.entries[i], pythonOnly, p) <==> MeantBelow(b.entries[i], pythonOnly, p)
      {
        assert SameShape(a.entries[i].node, b.entries[i].node);
        if |p| > 1 { SameShapeSameWalk(a.entries[i].node, b.entries[i].node, pythonOnly, p[1..]); }
      }
    }
  }

  lemma {:induction false} SameShapeNamed(a: seq<Listed>, b: seq<Listed>, name: string)
    requires |a| == |b| && forall i :: 0 <= i < |a| ==> b[i].name == a[i].name && SameShape(a[i].node, b[i].node)
    ensures Named(a, name).Ok? <==> Named(b, name).Ok?
    ensures Named(a, name).Ok? ==> SameShape(Named(a, name).value, Named(b, name).value)
  {
    if a != [] && a[0].name != name {
      assert forall i :: 0 <= i < |a| - 1 ==> a[1..][i] == a[i + 1] && b[1..][i] == b[i + 1];
      SameShapeNamed(a[1..], b[1..], name);
    }
  }

  lemma {:induction false} SameShapeFind(a: Node, b: Node, p: Path)
    requires SameShape(a, b)
    ensures Find(a, p).Ok? <==> Find(b, p).Ok?
    ensures Find(a, p).Ok? ==> SameShape(Find(a, p).value, Find(b, p).value)
    decreases p
  {
    if p != [] && a.Directory? {
      SameShapeNamed(a.entries, b.entries, p[0]);
      if Named(a.entries, p[0]).Ok? {
        SameShapeFind(Named(a.entries, p[0]).value, Named(b.entries, p[0]).value, p[1..]);
      }
    }
  }

  lemma {:induction false} SameShapeProper(a: Node, b: Node)
    requires SameShape(a, b) && Proper(a)
    ensures Proper(b)
  {
    if a.Directory? {
      forall i | 0 <= i < |b.entries| ensures Proper(b.entries[i].node) {
        SameShapeProper(a.entries[i].node, b.entries[i].node);
      }
    }
  }

  /** Trees of one shape are walked alike. */
  lemma SameShapeSameSelection(a: Node, b: Node, recipe: Recipe, p: Path)
    requires SameShape(a, b)
    ensures Selected(a, recipe, p) <==> Selected(b, recipe, p)
    ensures Input(a, recipe, p) <==> Input(b, recipe, p)
  {
    forall w | w in recipe.walks
      ensures WalkedTo(a, w, p) <==> WalkedTo(b, w, p)
      ensures MeantBy(a, w, p) <==> MeantBy(b, w, p)
    {
      SameShapeFind(a, b, w.directory);
      if |w.directory| < |p| && Find(a, w.directory).Ok? {
        SameShapeSameWalk(Find(a, w.directory).value, Find(b, w.directory).value, w.pythonOnly, p[|w.directory|..]);
      }
    }
  }

  lemma SameShapeAcceptable(a: Node, b: Node, recipe: Recipe)
    requires SameShape(a, b) && Acceptable(a, recipe)
    ensures Acceptable(b, recipe)
  {
    forall p | p in recipe.fixed ensures Content(b, p).Ok? {
      SameShapeFind(a, b, p);
    }
    forall w | w in recipe.walks ensures Walkable(b, w) {
      SameShapeFind(a, b, w.directory);
      forall p ensures !Offends(Find(b, w.directory).value, w.pythonOnly, p) {
        SameShapeSameWalk(Find(a, w.directory).value, Find(b, w.directory).value, w.pythonOnly, p);
      }
    }
  }

  /** The tree after the file at `path` has been rewritten. */
  function Rewritten(node: Node, path: Path, content: string): Node
    decreases |path|, 2
  {
    if path == [] then File(content)
    else if node.Directory? then node.(entries := RewrittenIn(node.entries, path, content))
    else node
  }

  function RewrittenIn(entries: seq<Listed>, path: Path, content: string): seq<Listed>
    requires path != []
    decreases |path|, 1
  {
    seq(|entries|, i requires 0 <= i < |entries| => RewrittenEntry(entries[i], path, content))
  }

  function RewrittenEntry(e: Listed, path: Path, content: string): Listed
    requires path != []
    decreases |path|, 0
  {
    if e.name == path[0] then e.(node := Rewritten(e.node, path[1..], content)) else e
  }

  lemma {:induction false} SameShapeAsItself(node: Node)
    ensures SameShape(node, node)
  {
    if node.Directory? {
      forall i | 0 <= i < |node.entries| ensures SameShape(node.entries[i].node, node.entries[i].node) {
        SameShapeAsItself(node.entries[i].node);
      }
    }
  }

  lemma {:induction false} RewrittenHasShape(node: Node, path: Path, content: string)
    requires Proper(node) && Content(node, path).Ok?
    ensures SameShape(node, Rewritten(node, path, content))
    decreases path
  {
    if path != [] {
      forall i | 0 <= i < |node.entries|
        ensures SameShape(node.entries[i].node, RewrittenEntry(node.entries[i], path, content).node)
      {
        if node.entries[i].name == path[0] {
          OwnName(node.entries, i);
          RewrittenHasShape(node.entries[i].node, path[1..], content);
        } else {
          SameShapeAsItself(node.entries[i].node);
        }
      }
    }
  }

  lemma {:induction false} NamedInRewritten(entries: seq<Listed>, path: Path, content: string, name: string)
    requires path != []
    ensures Named(RewrittenIn(entries, path, content), name) ==
      if name == path[0] && Named(entries, name).Ok? then Ok(Rewritten(Named(entries, name).value, path[1..], content))
      else Named(entries, name)
  {
    if entries != [] && entries[0].name != name {
      assert RewrittenIn(entries, path, content)[1..] == RewrittenIn(entries[1..], path, content);
      NamedInRewritten(entries[1..], path, content, name);
    }
  }

  /** Rewriting a file changes that file and no other. */
  lemma {:induction false} RewrittenContent(node: Node, path: Path, content: string, q: Path)
    requires Content(node, path).Ok?
    ensures Content(Rewritten(node, path, content), q) == if q == path then Ok(content) else Content(node, q)
    decreases path
  {
    if path != [] && q != [] {
      NamedInRewritten(node.entries, path, content, q[0]);
      if q[0] == path[0] {
        RewrittenContent(Named(node.entries, path[0]).value, path[1..], content, q[1..]);
        assert q == [q[0]] + q[1..] && path == [path[0]] + path[1..];
      }
    }
  }

  lemma {:induction false} MeantIsReadable(node: Node, pythonOnly: bool, path: Path)
    requires Proper(node) && Meant(node, pythonOnly, path)
    ensures Content(node, path).Ok?
    decreases path
  {
    var i :| 0 <= i < |node.entries| && MeantBelow(node.entries[i], pythonOnly, path);
    OwnName(node.entries, i);
    if |path| == 1 {
      assert path[1..] == [] && Find(node.entries[i].node, []) == Ok(node.entries[i].node);
    } else {
      MeantIsReadable(node.entries[i].node, pythonOnly, path[1..]);
    }
  }

  lemma HiddenIsReadable(root: Node, recipe: Recipe, path: Path)
    requires Proper(root) && Hidden(root, recipe, path)
    ensures Content(root, path).Ok?
  {
    var w :| w in recipe.walks && MeantBy(root, w, path);
    var below := path[|w.directory|..];
    FoundIsProper(root, w.directory);
    MeantIsReadable(Find(root, w.directory).value, w.pythonOnly, below);
    FindInTwoSteps(root, w.directory, below);
    assert path == w.directory + below;
  }

  /** A hidden file can be rewritten at will: the manifest of the tree stays its manifest. */
  lemma HiddenFilesCanChange(before: Node, m: Manifest, o: seq<Path>, paths: set<Path>, recipe: Recipe, hash: Hash,
                             path: Path, content: string)
    requires ManifestOf(m, o, paths, before, recipe, hash)
    requires Hidden(before, recipe, path) && Content(before, path) != Ok(content)
    ensures ManifestOf(m, o, paths, Rewritten(before, path, content), recipe, hash)
    ensures !SameFiles(before, Rewritten(before, path, content), recipe)
  {
    var after := Rewritten(before, path, content);
    HiddenIsReadable(before, recipe, path);
    RewrittenHasShape(before, path, content);
    SameShapeProper(before, after);
    SameShapeAcceptable(before, after, recipe);
    forall p ensures Selected(before, recipe, p) <==> Selected(after, recipe, p) {
      SameShapeSameSelection(before, after, recipe, p);
    }
    forall p | p in paths ensures Content(after, p) == Content(before, p) {
      RewrittenContent(before, path, content, p);
    }
    assert Entries(after, o, hash) == Entries(before, o, hash);
    RewrittenContent(before, path, content, path);
    assert Input(before, recipe, path);
  }

  /** The manifest survives the rewriting of an input file if and only if the file is hidden from the walk. */
  lemma OnlyHiddenRewritesAreMissed(before: Node, m: Manifest, o: seq<Path>, paths: set<Path>, recipe: Recipe,
          hash: Hash,
                                    path: Path, content: string)
    requires ProperRecipe(recipe) && ManifestOf(m, o, paths, before, recipe, hash)
    requires Input(before, recipe, path) && Content(before, path) != Ok(content)
    requires var after := Rewritten(before, path, content);
             && NoCollision(hash, Stream(Entries(before, o, hash)), Stream(Entries(after, o, hash)))
             && NoContentsCollide(before, after, paths, hash)
    ensures ManifestOf(m, o, paths, Rewritten(before, path, content), recipe, hash) <==> Hidden(before, recipe, path)
  {
    var after := Rewritten(before, path, content);
    if Hidden(before, recipe, path) {
      HiddenFilesCanChange(before, m, o, paths, recipe, hash, path, content);
    } else if ManifestOf(m, o, paths, after, recipe, hash) {
      RecheckSeesEveryChange(before, m, o, paths, after, m, o, paths, recipe, hash);
      SelectedIsReadable(before, recipe, path);
      RewrittenContent(before, path, content, path);
    }
  }
}
