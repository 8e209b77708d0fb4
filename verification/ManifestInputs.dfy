/**
 `_build_manifest` and `_proof_manifest`: the manifest of some fixed files and of the eligible files
 below some directories.
 */
module ManifestInputs {
  import opened Wrappers
  import opened ManifestStream
  import opened ManifestWalk
  import opened Manifests

  datatype WalkOf = WalkOf(directory: Path, pythonOnly: bool)

  datatype Recipe = Recipe(fixed: seq<Path>, walks: seq<WalkOf>)

  /** What a file system guarantees: distinct names with neither slash nor NUL in each directory. */
  ghost predicate Proper(node: Node) {
    node.Directory? ==>
      && (forall i, j :: 0 <= i < j < |node.entries| ==> node.entries[i].name != node.entries[j].name)
      && (forall i :: 0 <= i < |node.entries| ==> LegalName(node.entries[i].name) && Proper(node.entries[i].node))
  }

  ghost predicate ProperRecipe(recipe: Recipe) {
    && (forall p :: p in recipe.fixed ==> Legal(p))
    && (forall w :: w in recipe.walks ==> Legal(w.directory))
  }

  ghost predicate WalkedTo(root: Node, w: WalkOf, path: Path) {
    && |w.directory| < |path| && path[..|w.directory|] == w.directory
    && Find(root, w.directory).Ok? && Eligible(Find(root, w.directory).value, w.pythonOnly, path[|w.directory|..])
  }

  /** The files a manifest is about. */
  ghost predicate Selected(root: Node, recipe: Recipe, path: Path) {
    path in recipe.fixed || exists w :: w in recipe.walks && WalkedTo(root, w, path)
  }

  /** Nothing stops the manifest: the fixed files can be read and no walk meets a link or a special file. */
  ghost predicate Walkable(root: Node, w: WalkOf) {
    && Find(root, w.directory).Ok? && Find(root, w.directory).value.Directory?
    && forall p :: !Offends(Find(root, w.directory).value, w.pythonOnly, p)
  }

  ghost predicate Acceptable(root: Node, recipe: Recipe) {
    && (forall p :: p in recipe.fixed ==> Content(root, p).Ok?)
    && (forall w :: w in recipe.walks ==> Walkable(root, w))
  }

  // ---- eligible files are readable ----

  lemma {:induction false} OwnName(entries: seq<Listed>, i: nat)
    requires i < |entries|
    requires forall j, k :: 0 <= j < k < |entries| ==> entries[j].name != entries[k].name
    ensures Named(entries, entries[i].name) == Ok(entries[i].node)
  {
    if i > 0 {
      assert entries[1..][i - 1] == entries[i];
      OwnName(entries[1..], i - 1);
    }
  }

  lemma {:induction false} EligibleIsReadable(node: Node, pythonOnly: bool, path: Path)
    requires Proper(node) && Eligible(node, pythonOnly, path)
    ensures Content(node, path).Ok? && Legal(path)
    decreases path
  {
    var i :| 0 <= i < |node.entries| && EligibleBelow(node.entries[i], pythonOnly, path);
    OwnName(node.entries, i);
    if |path| == 1 {
      assert path[1..] == [] && Find(node.entries[i].node, []) == Ok(node.entries[i].node);
    } else {
      EligibleIsReadable(node.entries[i].node, pythonOnly, path[1..]);
      assert forall k :: 1 <= k < |path| ==> path[k] == path[1..][k - 1];
    }
  }

  lemma {:induction false} FoundIsProper(node: Node, path: Path)
    requires Proper(node) && Find(node, path).Ok?
    ensures Proper(Find(node, path).value)
    decreases path
  {
    if path != [] {
      var next := Named(node.entries, path[0]);
      var i :| 0 <= i < |node.entries| && node.entries[i] == Listed(path[0], next.value);
      FoundIsProper(next.value, path[1..]);
    }
  }

  lemma {:induction false} FindInTwoSteps(node: Node, first: Path, rest: Path)
    requires Find(node, first).Ok?
    ensures Find(node, first + rest) == Find(Find(node, first).value, rest)
    decreases first
  {
    if first == [] {
      assert first + rest == rest;
    } else {
      assert (first + rest)[1..] == first[1..] + rest;
      FindInTwoSteps(Named(node.entries, first[0]).value, first[1..], rest);
    }
  }

  lemma SelectedIsReadable(root: Node, recipe: Recipe, path: Path)
    requires Proper(root) && ProperRecipe(recipe)
    requires Acceptable(root, recipe) && Selected(root, recipe, path)
    ensures Content(root, path).Ok? && Legal(path)
  {
    if path !in recipe.fixed {
      var w :| w in recipe.walks && WalkedTo(root, w, path);
      var below := path[|w.directory|..];
      FoundIsProper(root, w.directory);
      EligibleIsReadable(Find(root, w.directory).value, w.pythonOnly, below);
      FindInTwoSteps(root, w.directory, below);
      assert path == w.directory + below;
    }
  }

  // ---- the manifest of a recipe ----

  function Under(directory: Path, paths: seq<Path>): (r: seq<Path>)
    ensures forall p :: p in r <==> |directory| <= |p| && p[..|directory|] == directory && p[|directory|..] in paths
  {
    if paths == [] then []
    else
      assert forall p: Path :: |directory| <= |p| && p[..|directory|] == directory && p[|directory|..] == paths[0] ==>
        p == directory + paths[0];
      [directory + paths[0]] + Under(directory, paths[1..])
  }

  method WalkInputs(root: Node, w: WalkOf) returns (found: Outcome<seq<Path>>)
    ensures found.Ok? <==> Walkable(root, w)
    ensures found.Ok? ==> forall p :: p in found.value <==> WalkedTo(root, w, p)
  {
    var directory := Find(root, w.directory);
    if directory.Raised? { return Raised; }
    var below := Walk(directory.value, w.pythonOnly);
    if below.Raised? { return Raised; }
    forall p ensures !Offends(Find(root, w.directory).value, w.pythonOnly, p) {
      assert !Offends(directory.value, w.pythonOnly, p);
    }
    assert Walkable(root, w);
    found := Ok(Under(w.directory, below.value));
    forall p ensures p in found.value <==> WalkedTo(root, w, p) {
      if |w.directory| <= |p| && p[..|w.directory|] == w.directory {
        OnlyDirectoriesHold(directory.value, w.pythonOnly, p[|w.directory|..]);
      }
    }
  }

  method InputManifest(root: Node, recipe: Recipe, hash: Hash)
    returns (m: Outcome<Manifest>, ghost order: seq<Path>, ghost paths: set<Path>)
    requires Proper(root) && ProperRecipe(recipe)
    ensures m.Ok? <==> Acceptable(root, recipe)
    ensures m.Ok? ==> ManifestOf(m.value, order, paths, root, recipe, hash)
  {
    order, paths := [], {};
    var all := recipe.fixed;
    for i := 0 to |recipe.walks|
      invariant forall w :: w in recipe.walks[..i] ==> Walkable(root, w)
      invariant forall p :: p in all <==>
        p in recipe.fixed || exists w :: w in recipe.walks[..i] && WalkedTo(root, w, p)
    {
      var found := WalkInputs(root, recipe.walks[i]);
      if found.Raised? {
        assert recipe.walks[i] in recipe.walks;
        return Raised, order, paths;
      }
      assert recipe.walks[..i + 1] == recipe.walks[..i] + [recipe.walks[i]];
      all := all + found.value;
    }
    assert recipe.walks[..|recipe.walks|] == recipe.walks;
    forall p | p in all ensures Legal(p) {
      LegalWhenWalked(root, recipe, p);
    }
    m, order := TakeManifest(root, all, hash);
    paths := set p | p in all;
    if Acceptable(root, recipe) {
      forall p | p in all ensures Content(root, p).Ok? {
        SelectedIsReadable(root, recipe, p);
      }
    }
  }

  lemma LegalWhenWalked(root: Node, recipe: Recipe, path: Path)
    requires Proper(root) && ProperRecipe(recipe) && Selected(root, recipe, path)
    ensures Legal(path)
  {
    if path !in recipe.fixed {
      var w :| w in recipe.walks && WalkedTo(root, w, path);
      FoundIsProper(root, w.directory);
      EligibleIsReadable(Find(root, w.directory).value, w.pythonOnly, path[|w.directory|..]);
      assert path == w.directory + path[|w.directory|..];
    }
  }

  // ---- the promise to the runner ----

  /** The two trees hold the same selected files with the same contents. */
  ghost predicate SameInputs(before: Node, after: Node, recipe: Recipe) {
    && (forall p :: Selected(before, recipe, p) <==> Selected(after, recipe, p))
    && (forall p :: Selected(before, recipe, p) ==> Content(before, p) == Content(after, p))
  }

  ghost predicate NoCollision(hash: Hash, a: string, b: string) {
    hash(a) == hash(b) ==> a == b
  }

  ghost predicate NoContentsCollide(before: Node, after: Node, paths: set<Path>, hash: Hash) {
    forall p :: p in paths && Content(before, p).Ok? && Content(after, p).Ok? ==>
                  NoCollision(hash, Content(before, p).value, Content(after, p).value)
  }

  /** `m` is the manifest of the selected files of a tree that the walk accepts. */
  ghost predicate ManifestOf(m: Manifest, order: seq<Path>, paths: set<Path>, root: Node, recipe: Recipe, hash: Hash) {
    && Proper(root) && Acceptable(root, recipe)
    && (forall p :: p in paths <==> Selected(root, recipe, p))
    && Describes(m, order, root, paths, hash)
  }

  lemma SelectedPaths(m: Manifest, order: seq<Path>, paths: set<Path>, root: Node, recipe: Recipe, hash: Hash)
    requires ProperRecipe(recipe) && ManifestOf(m, order, paths, root, recipe, hash)
    ensures forall p :: p in paths ==> Legal(p) && Content(root, p).Ok?
  {
    forall p | p in paths ensures Legal(p) && Content(root, p).Ok? {
      SelectedIsReadable(root, recipe, p);
    }
  }

  /** The recheck passes exactly when no input file was added, removed or changed. */
  lemma RecheckSeesEveryChange(before: Node, m: Manifest, o: seq<Path>, paths: set<Path>,
                               after: Node, m': Manifest, o': seq<Path>, paths': set<Path>, recipe: Recipe, hash: Hash)
    requires ProperRecipe(recipe)
    requires ManifestOf(m, o, paths, before, recipe, hash) && ManifestOf(m', o', paths', after, recipe, hash)
    requires NoCollision(hash, Stream(Entries(before, o, hash)), Stream(Entries(after, o', hash)))
    requires NoContentsCollide(before, after, paths, hash)
    ensures m == m' <==> SameInputs(before, after, recipe)
  {
    SelectedPaths(m, o, paths, before, recipe, hash);
    SelectedPaths(m', o', paths', after, recipe, hash);
    RecheckIsExact(m, o, before, paths, m', o', after, paths', hash);
    SelectionsCompared(before, paths, after, paths', recipe, hash);
  }

  /** With no collisions, equal path sets with equal digests are the same inputs. */
  lemma SelectionsCompared(before: Node, paths: set<Path>, after: Node, paths': set<Path>, recipe: Recipe, hash: Hash)
    requires forall p :: p in paths <==> Selected(before, recipe, p)
    requires forall p :: p in paths' <==> Selected(after, recipe, p)
    requires forall p :: p in paths ==> Content(before, p).Ok?
    requires forall p :: p in paths' ==> Content(after, p).Ok?
    requires NoContentsCollide(before, after, paths, hash)
    ensures SameInputs(before, after, recipe) <==>
      paths == paths' && forall p :: p in paths ==> DigestAt(before, p, hash) == DigestAt(after, p, hash)
  {
    if paths == paths' {
      forall p | p in paths
        ensures DigestAt(before, p, hash) == DigestAt(after, p, hash) <==> Content(before, p) == Content(after, p) {
        assert NoCollision(hash, Content(before, p).value, Content(after, p).value);
      }
    } else {
      var p :| (p in paths && p !in paths') || (p in paths' && p !in paths);
      assert Selected(before, recipe, p) != Selected(after, recipe, p);
    }
  }
}
