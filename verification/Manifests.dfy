/**
 `_manifest` and the recheck that the runner bases on it: the manifest of a tree changes exactly when
 a file appears, disappears or gets another digest.
 */
module Manifests {
  import opened Wrappers
  import opened ManifestStream
  import opened ManifestWalk
  import opened Strings

  type Hash = string -> HexDigest

  datatype Manifest = Manifest(digest: HexDigest, paths: seq<string>)

  // ---- paths and their POSIX text ----

  predicate Legal(path: Path) {
    path != [] && forall i :: 0 <= i < |path| ==> LegalName(path[i])
  }

  predicate LegalName(name: string) {
    forall i :: 0 <= i < |name| ==> name[i] != '/' && name[i] != '\0'
  }

  lemma LegalPaths(path: Path)
    ensures Legal(path) <==> path != [] && forall i :: 0 <= i < |path| ==> '/' !in path[i] && '\0' !in path[i]
  {
  }

  function Text(path: Path): string {
    if path == [] then [] else if |path| == 1 then path[0] else path[0] + ['/'] + Text(path[1..])
  }

  lemma {:induction false} TextHasNoNul(path: Path)
    requires Legal(path)
    ensures NoNul(Text(path))
  {
    if |path| > 1 {
      TextHasNoNul(path[1..]);
    }
  }

  /** The first slash ends the first name. */
  lemma SameFirstName(a: string, aRest: string, b: string, bRest: string)
    requires LegalName(a) && LegalName(b)
    requires a + ['/'] + aRest == b + ['/'] + bRest
    ensures a == b && aRest == bRest
  {
    var s := a + ['/'] + aRest;
    assert s[|a|] == '/' && s[|b|] == '/';
    assert forall i :: 0 <= i < |a| ==> s[i] == a[i];
    assert forall i :: 0 <= i < |b| ==> s[i] == b[i];
    assert |a| == |b|;
    assert a == s[..|a|] && b == s[..|a|];
    assert aRest == s[|a| + 1..] && bRest == s[|a| + 1..];
  }

  lemma LongerTextHasSlash(a: Path)
    requires |a| > 1
    ensures |a[0]| < |Text(a)| && Text(a)[|a[0]|] == '/'
  {
  }

  lemma {:induction false} TextIsInjective(a: Path, b: Path)
    requires Legal(a) && Legal(b) && Text(a) == Text(b)
    ensures a == b
  {
    if |a| > 1 && |b| > 1 {
      SameFirstName(a[0], Text(a[1..]), b[0], Text(b[1..]));
      TextIsInjective(a[1..], b[1..]);
      assert a == [a[0]] + a[1..] && b == [b[0]] + b[1..];
    } else {
      if |a| > 1 { LongerTextHasSlash(a); }
      if |b| > 1 { LongerTextHasSlash(b); }
    }
  }

  // ---- reading a file ----

  function Named(entries: seq<Listed>, name: string): (r: Outcome<Node>)
    ensures r.Ok? ==> exists i :: 0 <= i < |entries| && entries[i] == Listed(name, r.value)
  {
    if entries == [] then Raised
    else if entries[0].name == name then assert entries[0] == Listed(name, entries[0].node); Ok(entries[0].node)
    else
      var rest := Named(entries[1..], name);
      assert forall i :: 0 <= i < |entries| - 1 ==> entries[1..][i] == entries[i + 1];
      rest
  }

  /** `_assert_path_components`: what is at `path`, if no component before it is missing or a link. */
  function Find(node: Node, path: Path): Outcome<Node>
    decreases path
  {
    if path == [] then Ok(node)
    else if !node.Directory? then Raised
    else
      var next := Named(node.entries, path[0]);
      if next.Raised? then Raised else Find(next.value, path[1..])
  }

  /** `_regular_file_digest` */
  function Content(node: Node, path: Path): Outcome<string> {
    var found := Find(node, path);
    if found.Ok? && found.value.File? then Ok(found.value.content) else Raised
  }

  function DigestAt(root: Node, path: Path, hash: Hash): HexDigest {
    var content := Content(root, path);
    if content.Ok? then hash(content.value) else hash("")
  }

  function EntryAt(root: Node, path: Path, hash: Hash): Entry {
    Entry(Text(path), DigestAt(root, path, hash))
  }

  function Entries(root: Node, order: seq<Path>, hash: Hash): (r: seq<Entry>)
    ensures |r| == |order|
    ensures forall i :: 0 <= i < |order| ==> r[i] == EntryAt(root, order[i], hash)
  {
    seq(|order|, i requires 0 <= i < |order| => EntryAt(root, order[i], hash))
  }

  function Texts(order: seq<Path>): (r: seq<string>)
    ensures |r| == |order|
    ensures forall i :: 0 <= i < |order| ==> r[i] == Text(order[i])
  {
    seq(|order|, i requires 0 <= i < |order| => Text(order[i]))
  }

  // ---- sorted(set(paths)) ----

  ghost predicate Lists(order: seq<Path>, paths: set<Path>) {
    Ascending(Texts(order)) && forall p :: p in order <==> p in paths
  }

  method Insert(order: seq<Path>, x: Path) returns (r: seq<Path>)
    requires Ascending(Texts(order)) && forall p :: p in order ==> Legal(p)
    requires Legal(x) && x !in order
    ensures Ascending(Texts(r))
    ensures forall p :: p in r <==> p in order || p == x
  {
    var i := 0;
    while i < |order| && Less(Text(order[i]), Text(x))
      invariant 0 <= i <= |order|
      invariant forall k :: 0 <= k < i ==> Less(Text(order[k]), Text(x))
    {
      i := i + 1;
    }
    r := order[..i] + [x] + order[i..];
    if i < |order| {
      After(order, i, x);
    }
    Spliced(order, i, x);
    assert order == order[..i] + order[i..];
  }

  lemma After(order: seq<Path>, i: nat, x: Path)
    requires Ascending(Texts(order)) && forall p :: p in order ==> Legal(p)
    requires Legal(x) && x !in order
    requires i < |order| && !Less(Text(order[i]), Text(x))
    ensures forall k :: i <= k < |order| ==> Less(Text(x), Text(order[k]))
  {
    assert order[i] in order;
    if Text(order[i]) == Text(x) { TextIsInjective(order[i], x); }
    LessIsTotal(Text(order[i]), Text(x));
    forall k | i < k < |order| ensures Less(Text(x), Text(order[k])) {
      assert Less(Texts(order)[i], Texts(order)[k]);
      LessIsTransitive(Text(x), Text(order[i]), Text(order[k]));
    }
  }

  lemma Spliced(order: seq<Path>, i: nat, x: Path)
    requires i <= |order| && Ascending(Texts(order))
    requires forall k :: 0 <= k < i ==> Less(Text(order[k]), Text(x))
    requires forall k :: i <= k < |order| ==> Less(Text(x), Text(order[k]))
    ensures Ascending(Texts(order[..i] + [x] + order[i..]))
  {
    var texts := Texts(order);
    SplicedAscending(texts, i, Text(x));
    TextsOfSplice(order, i, x);
  }

  lemma TextsOfSplice(order: seq<Path>, i: nat, x: Path)
    requires i <= |order|
    ensures Texts(order[..i] + [x] + order[i..]) == Texts(order)[..i] + [Text(x)] + Texts(order)[i..]
  {
  }

  method Sorted(paths: set<Path>) returns (order: seq<Path>)
    requires forall p :: p in paths ==> Legal(p)
    ensures Lists(order, paths)
  {
    order := [];
    var todo := paths;
    while todo != {}
      invariant Ascending(Texts(order)) && todo <= paths
      invariant forall p :: p in order <==> p in paths && p !in todo
    {
      var p :| p in todo;
      todo := todo - {p};
      order := Insert(order, p);
    }
  }

  // ---- the manifest ----

  /** What the manifest of `paths` in `root` is, whatever order and repetition the paths came in. */
  ghost predicate Describes(m: Manifest, order: seq<Path>, root: Node, paths: set<Path>, hash: Hash) {
    Lists(order, paths) && m.paths == Texts(order) && m.digest == hash(Stream(Entries(root, order, hash)))
  }

  lemma OneMore(root: Node, order: seq<Path>, i: nat, hash: Hash)
    requires i < |order|
    ensures Texts(order[..i + 1]) == Texts(order[..i]) + [Text(order[i])]
    ensures Stream(Entries(root, order[..i + 1], hash)) == Stream(Entries(root, order[..i], hash))
      + Line(EntryAt(root, order[i], hash))
  {
    StreamOfOneMore(Entries(root, order[..i], hash), EntryAt(root, order[i], hash));
    assert Entries(root, order[..i + 1], hash) == Entries(root, order[..i], hash) + [EntryAt(root, order[i], hash)];
  }

  predicate Readable(root: Node, order: seq<Path>) {
    forall k :: 0 <= k < |order| ==> Content(root, order[k]).Ok?
  }

  lemma ReadableMeansAll(root: Node, paths: seq<Path>, order: seq<Path>)
    requires forall p :: p in order <==> p in paths
    ensures Readable(root, order) <==> forall p :: p in paths ==> Content(root, p).Ok?
  {
    forall k | 0 <= k < |order| ensures order[k] in paths {
      assert order[k] in order;
    }
  }

  method TakeManifest(root: Node, paths: seq<Path>, hash: Hash) returns (m: Outcome<Manifest>, ghost order: seq<Path>)
    requires forall p :: p in paths ==> Legal(p)
    ensures m.Ok? <==> forall p :: p in paths ==> Content(root, p).Ok?
    ensures m.Ok? ==> Describes(m.value, order, root, (set p | p in paths), hash)
  {
    var unique := Sorted(set p | p in paths);
    order := unique;
    ReadableMeansAll(root, paths, order);
    m := HashInOrder(root, unique, hash);
  }

  /** What the loop has put together after the first files. */
  ghost predicate HashedUpTo(root: Node, order: seq<Path>, n: nat, hash: Hash, aggregate: string, relative: seq<string>)
    requires n <= |order|
  {
    && Readable(root, order[..n])
    && relative == Texts(order[..n]) && aggregate == Stream(Entries(root, order[..n], hash))
  }

  lemma HashOne(root: Node, order: seq<Path>, i: nat, hash: Hash, aggregate: string, relative: seq<string>)
    requires i < |order| && HashedUpTo(root, order, i, hash, aggregate, relative) && Content(root, order[i]).Ok?
    ensures var entry := EntryAt(root, order[i], hash);
            HashedUpTo(root, order, i + 1, hash, aggregate + Line(entry), relative + [entry.path])
  {
    OneMore(root, order, i, hash);
    assert order[..i + 1] == order[..i] + [order[i]];
  }

  /** The loop over the sorted paths. */
  method HashInOrder(root: Node, order: seq<Path>, hash: Hash) returns (m: Outcome<Manifest>)
    ensures m.Ok? <==> Readable(root, order)
    ensures m.Ok? ==> m.value == Manifest(hash(Stream(Entries(root, order, hash))), Texts(order))
  {
    var aggregate, relative := "", [];
    for i := 0 to |order|
      invariant HashedUpTo(root, order, i, hash, aggregate, relative)
    {
      var content := Content(root, order[i]);
      if content.Raised? { return Raised; }
      var entry := Entry(Text(order[i]), hash(content.value));
      HashOne(root, order, i, hash, aggregate, relative);
      aggregate := aggregate + Line(entry);
      relative := relative + [entry.path];
    }
    assert order[..|order|] == order;
    return Ok(Manifest(hash(aggregate), relative));
  }

  lemma SameTextsSameOrder(a: seq<Path>, b: seq<Path>)
    requires forall p :: p in a || p in b ==> Legal(p)
    requires Texts(a) == Texts(b)
    ensures a == b
  {
    assert |a| == |b|;
    forall i | 0 <= i < |a| ensures a[i] == b[i] {
      assert a[i] in a && b[i] in b;
      assert Texts(a)[i] == Texts(b)[i];
      TextIsInjective(a[i], b[i]);
    }
  }

  lemma OneOrder(a: seq<Path>, b: seq<Path>, paths: set<Path>)
    requires forall p :: p in paths ==> Legal(p)
    requires Lists(a, paths) && Lists(b, paths)
    ensures a == b
  {
    forall t ensures t in Texts(a) <==> t in Texts(b) {
      TextListed(a, b, t);
      TextListed(b, a, t);
    }
    OneSortedOrder(Texts(a), Texts(b));
    SameTextsSameOrder(a, b);
  }

  lemma TextListed(a: seq<Path>, b: seq<Path>, t: string)
    requires forall p :: p in a <==> p in b
    ensures t in Texts(a) ==> t in Texts(b)
  {
    if t in Texts(a) {
      var i :| 0 <= i < |a| && Texts(a)[i] == t;
      assert a[i] in b;
      var j :| 0 <= j < |b| && b[j] == a[i];
      assert Texts(b)[j] == t;
    }
  }

  /** Order and repetition of the input paths do not matter. */
  lemma ManifestOfASet(m: Manifest, o: seq<Path>, m': Manifest, o': seq<Path>, root: Node, paths: set<Path>, hash: Hash)
    requires forall p :: p in paths ==> Legal(p)
    requires Describes(m, o, root, paths, hash) && Describes(m', o', root, paths, hash)
    ensures m == m'
  {
    OneOrder(o, o', paths);
  }

  /** The recheck: two manifests agree exactly when the same files are there with the same digests. */
  lemma RecheckIsExact(m: Manifest, o: seq<Path>, root: Node, paths: set<Path>,
                       m': Manifest, o': seq<Path>, root': Node, paths': set<Path>, hash: Hash)
    requires forall p :: p in paths || p in paths' ==> Legal(p)
    requires Describes(m, o, root, paths, hash) && Describes(m', o', root', paths', hash)
    requires var s, s' := Stream(Entries(root, o, hash)), Stream(Entries(root', o', hash));
             hash(s) == hash(s') ==> s == s'
    ensures m == m' <==> paths == paths' && forall p :: p in paths ==>
      DigestAt(root, p, hash) == DigestAt(root', p, hash)
  {
    if m == m' {
      SameTextsSameOrder(o, o');
      assert paths == paths' by {
        assert forall p :: p in paths <==> p in o;
      }
      EntriesHaveNoNul(root, o, hash);
      EntriesHaveNoNul(root', o', hash);
      StreamIsInjective(Entries(root, o, hash), Entries(root', o', hash));
      forall p | p in paths ensures DigestAt(root, p, hash) == DigestAt(root', p, hash) {
        var i :| 0 <= i < |o| && o[i] == p;
        assert Entries(root, o, hash)[i] == Entries(root', o', hash)[i];
      }
    }
    if paths == paths' && forall p :: p in paths ==> DigestAt(root, p, hash) == DigestAt(root', p, hash) {
      OneOrder(o, o', paths);
      assert Entries(root, o, hash) == Entries(root', o', hash);
    }
  }

  lemma EntriesHaveNoNul(root: Node, order: seq<Path>, hash: Hash)
    requires forall p :: p in order ==> Legal(p)
    ensures NoNuls(Entries(root, order, hash))
  {
    forall i | 0 <= i < |order| ensures NoNul(Entries(root, order, hash)[i].path) {
      assert order[i] in order;
      TextHasNoNul(order[i]);
    }
  }
}
