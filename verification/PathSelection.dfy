/**
 `matches`, `is_docs` and `decide`: which CI suites a change owes. The promise is that a change to
 anything but documentation never rides the docs lane.
 */
module PathSelection {
  import opened Wrappers
  import opened Splitting
  import opened Strings

  // ---- patterns ----

  predicate IsTree(pattern: string) {
    |pattern| >= 3 && pattern[|pattern| - 3..] == "/**"
  }

  predicate Supported(pattern: string) {
    IsTree(pattern) || '*' !in pattern
  }

  // `<dir>/**`: the directory without the marker.
  function TreeRoot(pattern: string): string
    requires IsTree(pattern)
  {
    pattern[..|pattern| - 3]
  }

  /** What one supported pattern selects. */
  predicate Selects(pattern: string, path: string) {
    if IsTree(pattern) then StartsWith(path, pattern[..|pattern| - 2]) else path == pattern
  }

  /** The first pattern that selects the path decides; an unsupported pattern before it is an error. */
  method Matches(path: string, patterns: seq<string>) returns (r: Outcome<bool>)
    ensures r == Ok(true) <==> exists i :: 0 <= i < |patterns| && Selects(patterns[i], path) && Supported(patterns[i])
                                 && forall k :: 0 <= k < i ==> Supported(patterns[k])
    ensures r == Ok(false) <==> forall k :: 0 <= k < |patterns| ==>
      Supported(patterns[k]) && !Selects(patterns[k], path)
  {
    for i := 0 to |patterns|
      invariant forall k :: 0 <= k < i ==> Supported(patterns[k]) && !Selects(patterns[k], path)
    {
      var pattern := patterns[i];
      if IsTree(pattern) {
        if StartsWith(path, pattern[..|pattern| - 2]) { return Ok(true); }
      } else if '*' in pattern {
        return Raised;
      } else if path == pattern {
        return Ok(true);
      }
    }
    return Ok(false);
  }

  /** For supported patterns. */
  predicate Matched(path: string, patterns: seq<string>) {
    exists i :: 0 <= i < |patterns| && Selects(patterns[i], path)
  }

  predicate AllSupported(patterns: seq<string>) {
    forall i :: 0 <= i < |patterns| ==> Supported(patterns[i])
  }

  // ---- a tree pattern is about whole path components ----

  lemma {:induction false} SplitOfSum(a: string, b: string, c: char)
    ensures Split(a + [c] + b, c) == Split(a, c) + Split(b, c)
    decreases |a|
  {
    var first := Before(a, c);
    var s := a + [c] + b;
    if |first| == |a| {
      assert first == a;
      BeforeUnique(a, c, b);
      assert s[|a| + 1..] == b;
      assert Split(a, c) == [a];
    } else {
      var rest := a[|first| + 1..];
      assert a == first + [c] + rest;
      assert s == first + [c] + (rest + [c] + b);
      BeforeUnique(first, c, rest + [c] + b);
      assert s[|first| + 1..] == rest + [c] + b;
      SplitOfSum(rest, b, c);
      assert [first] + Split(rest, c) + Split(b, c) == [first] + (Split(rest, c) + Split(b, c));
    }
  }

  lemma {:induction false} JoinOfSum(a: seq<string>, b: seq<string>, c: char)
    requires a != [] && b != []
    ensures Join(a + b, c) == Join(a, c) + [c] + Join(b, c)
  {
    if |a| == 1 {
      assert (a + b)[1..] == b;
    } else {
      assert (a + b)[1..] == a[1..] + b;
      JoinOfSum(a[1..], b, c);
      assert a[0] + [c] + (Join(a[1..], c) + [c] + Join(b, c)) == a[0] + [c] + Join(a[1..], c) + [c] + Join(b, c);
    }
  }

  /** A directory followed by the tree marker selects what starts with the directory and a slash. */
  lemma TreePatternSelects(directory: string, path: string)
    ensures Supported(directory + "/**")
    ensures Selects(directory + "/**", path) <==> exists rest :: path == directory + "/" + rest
  {
    var pattern := directory + "/**";
    assert pattern[|pattern| - 3..] == "/**" && pattern[..|pattern| - 2] == directory + "/";
    if StartsWith(path, directory + "/") {
      assert path == directory + "/" + path[|directory| + 1..];
    }
  }

  lemma TreePatternsAre(pattern: string)
    ensures IsTree(pattern) <==> exists directory :: pattern == directory + "/**"
  {
    if IsTree(pattern) {
      assert pattern == pattern[..|pattern| - 3] + "/**";
    }
    if directory :| pattern == directory + "/**" {
      assert pattern[|pattern| - 3..] == "/**";
    }
  }

  /** Any other pattern is an exact path without an asterisk, or an error. */
  lemma ExactPatternSelects(pattern: string, path: string)
    requires forall directory :: pattern != directory + "/**"
    ensures Supported(pattern) <==> '*' !in pattern
    ensures Selects(pattern, path) <==> path == pattern
  {
    TreePatternsAre(pattern);
  }

  /** The path lies below the directory, component by component: "api" is not below "ap". */
  predicate Below(path: string, directory: string) {
    Split(directory, '/') < Split(path, '/')
  }

  lemma TreePatternsSelectWholeComponents(pattern: string, path: string)
    requires IsTree(pattern)
    ensures Selects(pattern, path) <==> Below(path, TreeRoot(pattern))
  {
    var directory := TreeRoot(pattern);
    assert pattern == directory + "/**" && pattern[..|pattern| - 2] == directory + ['/'];
    if Selects(pattern, path) {
      var rest := path[|directory| + 1..];
      assert path == directory + ['/'] + rest;
      SplitOfSum(directory, rest, '/');
    }
    if Below(path, directory) {
      var rest := Split(path, '/')[|Split(directory, '/')|..];
      JoinOfSum(Split(directory, '/'), rest, '/');
      assert Split(path, '/') == Split(directory, '/') + rest;
      JoinOfSplit(path, '/');
      JoinOfSplit(directory, '/');
      assert path == directory + ['/'] + Join(rest, '/');
    }
  }

  // ---- the decision ----

  /** `is_docs` */
  predicate IsDocs(path: string) {
    StartsWith(path, "docs/") || ('/' !in path && |path| >= 3 && path[|path| - 3..] == ".md")
  }

  lemma {:induction false} FirstComponent(path: string, directory: string)
    requires Without(directory, '/')
    ensures StartsWith(path, directory + ['/']) <==> Before(path, '/') == directory && |path| > |directory|
  {
    var n := |directory|;
    if StartsWith(path, directory + ['/']) {
      assert path == path[..n + 1] + path[n + 1..];
      BeforeUnique(directory, '/', path[n + 1..]);
    } else if |path| > n {
      assert path[..n + 1] == path[..n] + [path[n]];
    }
  }

  lemma {:induction false} BelowDocs(path: string)
    ensures StartsWith(path, "docs/") <==> Before(path, '/') == "docs" && |path| > 4
  {
    FirstComponent(path, "docs");
    assert "docs" + ['/'] == "docs/";
  }

  lemma {:induction false} NoSlash(path: string)
    ensures '/' !in path <==> Before(path, '/') == path
  {
    var first := Before(path, '/');
    if |first| < |path| {
      assert path[|first|] in path;
    } else {
      assert first == path;
    }
  }

  /** Documentation is whatever lies below docs, and the Markdown files at the root. */
  lemma {:induction false} DocsByComponents(path: string)
    ensures var parts := Split(path, '/');
      IsDocs(path) <==>
        || (|parts| >= 2 && parts[0] == "docs")
        || (|parts| == 1 && exists stem :: path == stem + ".md")
  {
    BelowDocs(path);
    NoSlash(path);
    if |path| >= 3 && path[|path| - 3..] == ".md" {
      assert path == path[..|path| - 3] + ".md";
    }
  }

  datatype Lists = Lists(code: seq<string>, apiSuites: seq<string>, webSuites: seq<string>)

  predicate SupportedLists(l: Lists) {
    AllSupported(l.code) && AllSupported(l.apiSuites) && AllSupported(l.webSuites)
  }

  datatype Flags = Flags(code: bool, apiSuites: bool, webSuites: bool, docsOnly: bool, full: bool, mainPush: bool)

  datatype Event = PullRequest | Push(tag: bool) | Other

  predicate AnyMatched(paths: seq<string>, patterns: seq<string>) {
    exists i :: 0 <= i < |paths| && Matched(paths[i], patterns)
  }

  /** `any(matches(p, patterns) for p in paths)` */
  method Any(paths: seq<string>, patterns: seq<string>) returns (r: Outcome<bool>)
    ensures r.Ok? ==> r.value == AnyMatched(paths, patterns)
    ensures r.Raised? ==> !AllSupported(patterns)
  {
    for i := 0 to |paths|
      invariant forall k :: 0 <= k < i ==> !Matched(paths[k], patterns)
    {
      var m := Matches(paths[i], patterns);
      if m.Raised? { return Raised; }
      if m.value { return Ok(true); }
    }
    return Ok(false);
  }

  /** `code` is set by a listed path or by any path that is not documentation. */
  predicate OwesCode(l: Lists, paths: seq<string>) {
    AnyMatched(paths, l.code) || exists i :: 0 <= i < |paths| && !IsDocs(paths[i])
  }

  function PullRequestFlags(l: Lists, paths: seq<string>): Flags {
    var owes := OwesCode(l, paths);
    Flags(owes, AnyMatched(paths, l.apiSuites), AnyMatched(paths, l.webSuites), paths != [] && !owes, false, false)
  }

  /** An error is only ever about an unsupported pattern. */
  method Decide(event: Event, l: Lists, paths: seq<string>) returns (flags: Outcome<Flags>)
    ensures flags.Raised? ==> event.PullRequest? && !SupportedLists(l)
    ensures event.PullRequest? && flags.Ok? ==> flags.value == PullRequestFlags(l, paths)
    ensures event.Push? ==>
      flags == Ok(if event.tag then Flags(true, true, true, false, true, false)
        else Flags(false, false, false, false, false, true))
    ensures event.Other? ==> flags == Ok(Flags(true, true, true, false, true, false))
  {
    match event
    case PullRequest =>
      var code := Any(paths, l.code);
      if code.Raised? { return Raised; }
      var unlisted := exists i :: 0 <= i < |paths| && !IsDocs(paths[i]);
      var api := Any(paths, l.apiSuites);
      if api.Raised? { return Raised; }
      var web := Any(paths, l.webSuites);
      if web.Raised? { return Raised; }
      var owes := code.value || unlisted;
      return Ok(Flags(owes, api.value, web.value, paths != [] && !owes, false, false));
    case Push(tag) =>
      return Ok(if tag then Flags(true, true, true, false, true, false)
        else Flags(false, false, false, false, false, true));
    case Other =>
      return Ok(Flags(true, true, true, false, true, false));
  }

  // ---- what the flags promise ----

  /** A change of at least one path takes the code lane or the docs lane, never both; an empty one takes neither. */
  lemma OneLane(l: Lists, paths: seq<string>)
    ensures var f := PullRequestFlags(l, paths);
            if paths == [] then !f.code && !f.docsOnly else f.code != f.docsOnly
  {
  }

  lemma {:induction false} MorePathsMatch(some: seq<string>, more: seq<string>, patterns: seq<string>)
    requires forall p :: p in some ==> p in more
    ensures AnyMatched(some, patterns) ==> AnyMatched(more, patterns)
  {
    if i :| 0 <= i < |some| && Matched(some[i], patterns) {
      assert some[i] in more;
      var k :| 0 <= k < |more| && more[k] == some[i];
    }
  }

  /** More paths never clear a suite flag, so neither the order nor the repetition of paths matters. */
  lemma FlagsAreMonotone(l: Lists, some: seq<string>, more: seq<string>)
    requires forall p :: p in some ==> p in more
    ensures var f, g := PullRequestFlags(l, some), PullRequestFlags(l, more);
            (f.code ==> g.code) && (f.apiSuites ==> g.apiSuites) && (f.webSuites ==> g.webSuites)
    ensures (forall p :: p in more ==> p in some) ==> PullRequestFlags(l, some) == PullRequestFlags(l, more)
  {
    UpwardFlags(l, some, more);
    if forall p :: p in more ==> p in some {
      UpwardFlags(l, more, some);
      if some != [] { assert some[0] in more; }
      if more != [] { assert more[0] in some; }
    }
  }

  lemma UpwardFlags(l: Lists, some: seq<string>, more: seq<string>)
    requires forall p :: p in some ==> p in more
    ensures OwesCode(l, some) ==> OwesCode(l, more)
    ensures AnyMatched(some, l.apiSuites) ==> AnyMatched(more, l.apiSuites)
    ensures AnyMatched(some, l.webSuites) ==> AnyMatched(more, l.webSuites)
  {
    MorePathsMatch(some, more, l.code);
    MorePathsMatch(some, more, l.apiSuites);
    MorePathsMatch(some, more, l.webSuites);
    if i :| 0 <= i < |some| && !IsDocs(some[i]) {
      assert some[i] in more;
      var k :| 0 <= k < |more| && more[k] == some[i];
    }
  }

  // ---- changes between trees ----

  /** A checked-out tree: the content of each path. */
  type Tree = map<string, string>

  predicate Differs(before: Tree, after: Tree, path: string) {
    (path in before.Keys) != (path in after.Keys) || (path in before && before[path] != after[path])
  }

  // ---- how git prints a path ----

  predicate PlainChar(c: char) {
    ' ' <= c <= '~' && c != '"' && c != '\\'
  }

  /** git prints such a path as it is; any other it puts into quotes, with escapes. */
  predicate Plain(path: string) {
    forall i :: 0 <= i < |path| ==> PlainChar(path[i])
  }

  function Octal(byte: int): string
    requires 0 <= byte < 256
  {
    ['\\', '0' + (byte / 64) as char, '0' + (byte / 8 % 8) as char, '0' + (byte % 8) as char]
  }

  function OctalAll(bytes: seq<int>): string
    requires forall i :: 0 <= i < |bytes| ==> 0 <= bytes[i] < 256
  {
    if bytes == [] then "" else Octal(bytes[0]) + OctalAll(bytes[1..])
  }

  function Escaped(c: char): string {
    if PlainChar(c) then [c]
    else if c == '"' || c == '\\' then ['\\', c]
    else if 7 <= c as int <= 13 then ['\\', ['a', 'b', 't', 'n', 'v', 'f', 'r'][c as int - 7]]
    else OctalAll(Utf8(c as int))
  }

  function EscapedAll(path: string): string {
    if path == "" then [] else Escaped(path[0]) + EscapedAll(path[1..])
  }

  function Reported(path: string): string {
    if Plain(path) then path else ['"'] + EscapedAll(path) + ['"']
  }

  /** git quotes a path for control characters, quotation marks, backslashes and whatever is not ASCII. */
  lemma {:induction false} PlainAre(path: string)
    ensures Reported(path) == path <==>
      forall i :: 0 <= i < |path| ==> 0x20 <= path[i] as int < 0x7f && path[i] as int !in {0x22, 0x5c}
  {
    LongerQuoted(path);
  }

  lemma {:induction false} LongerQuoted(path: string)
    ensures |EscapedAll(path)| >= |path|
  {
    if path != "" {
      LongerQuoted(path[1..]);
      EscapedSize(path[0]);
    }
  }

  lemma {:induction false} EscapedSize(c: char)
    ensures |Escaped(c)| >= 1
  {
    if !PlainChar(c) && c != '"' && c != '\\' && !(7 <= c as int <= 13) {
      Utf8IsSized(c as int);
    }
  }

  // ---- reading a quoted path ----

  function OctalDigit(c: char): Option<int> {
    if '0' <= c <= '7' then Some(c as int - 0x30) else None
  }

  /** The byte after a backslash, as a letter or as three octal digits, and how many characters that takes. */
  function EscapeOf(s: string): Option<(int, nat)> {
    if s == "" then None
    else match s[0]
      case 'a' => Some((7, 1))
      case 'b' => Some((8, 1))
      case 't' => Some((9, 1))
      case 'n' => Some((10, 1))
      case 'v' => Some((11, 1))
      case 'f' => Some((12, 1))
      case 'r' => Some((13, 1))
      case '"' => Some((0x22, 1))
      case '\\' => Some((0x5c, 1))
      case _ =>
        if |s| < 3 then None
        else
          var a, b, c := OctalDigit(s[0]), OctalDigit(s[1]), OctalDigit(s[2]);
          if a.None? || b.None? || c.None? then None else Some((a.value * 64 + b.value * 8 + c.value, 3))
  }

  /** The bytes that the inside of a quoted path stands for. */
  function Unescaped(s: string): Option<seq<int>>
    decreases |s|
  {
    if s == "" then Some([])
    else if s[0] != '\\' then
      var rest := Unescaped(s[1..]);
      if rest.None? then None else Some([s[0] as int] + rest.value)
    else
      var e := EscapeOf(s[1..]);
      if e.None? || |s| < 1 + e.value.1 then None
      else
        var rest := Unescaped(s[1 + e.value.1..]);
        if rest.None? then None else Some([e.value.0] + rest.value)
  }

  lemma {:induction false} DigitsAreRead(byte: int, a: char, b: char, c: char, rest: string)
    requires 0 <= byte < 256
    requires a as int == 0x30 + byte / 64 && b as int == 0x30 + byte / 8 % 8 && c as int == 0x30 + byte % 8
    ensures EscapeOf([a, b, c] + rest) == Some((byte, 3))
  {
    assert '0' <= a <= '3' && '0' <= b <= '7' && '0' <= c <= '7';
    assert byte == byte / 64 * 64 + byte / 8 % 8 * 8 + byte % 8;
  }

  lemma {:induction false} OctalIsRead(byte: int, rest: string)
    requires 0 <= byte < 256 && Unescaped(rest).Some?
    ensures Unescaped(Octal(byte) + rest) == Some([byte] + Unescaped(rest).value)
  {
    var a, b, c := '0' + (byte / 64) as char, '0' + (byte / 8 % 8) as char, '0' + (byte % 8) as char;
    DigitsAreRead(byte, a, b, c, rest);
    var s := ['\\', a, b, c] + rest;
    assert s[1..] == [a, b, c] + rest && s[4..] == rest;
  }

  lemma SumOfThree<T>(a: seq<T>, b: seq<T>, c: seq<T>)
    ensures a + b + c == a + (b + c)
  {
  }

  lemma {:induction false} OctalAllIsRead(bytes: seq<int>, rest: string, tail: seq<int>)
    requires forall i :: 0 <= i < |bytes| ==> 0 <= bytes[i] < 256
    requires Unescaped(rest) == Some(tail)
    ensures Unescaped(OctalAll(bytes) + rest) == Some(bytes + tail)
  {
    if bytes == [] {
      assert OctalAll(bytes) + rest == rest && bytes + tail == tail;
    } else {
      OctalAllIsRead(bytes[1..], rest, tail);
      OctalIsRead(bytes[0], OctalAll(bytes[1..]) + rest);
      SumOfThree(Octal(bytes[0]), OctalAll(bytes[1..]), rest);
      SumOfThree([bytes[0]], bytes[1..], tail);
      assert [bytes[0]] + bytes[1..] == bytes;
    }
  }

  lemma {:induction false} LetterIsRead(c: char, letter: char, rest: string)
    requires Unescaped(rest).Some? && EscapeOf([letter] + rest) == Some((c as int, 1))
    ensures Unescaped(['\\', letter] + rest) == Some([c as int] + Unescaped(rest).value)
  {
    var s := ['\\', letter] + rest;
    assert s[1..] == [letter] + rest && s[2..] == rest;
  }

  lemma {:induction false} EscapedIsRead(c: char, rest: string)
    requires Unescaped(rest).Some?
    ensures Unescaped(Escaped(c) + rest) == Some(Utf8(c as int) + Unescaped(rest).value)
  {
    if PlainChar(c) {
      assert ([c] + rest)[1..] == rest;
    } else if c == '"' || c == '\\' {
      LetterIsRead(c, c, rest);
    } else if 7 <= c as int <= 13 {
      LetterIsRead(c, Escaped(c)[1], rest);
    } else {
      OctalAllIsRead(Utf8(c as int), rest, Unescaped(rest).value);
    }
  }

  /** What git prints between the quotation marks stands for the path's bytes. */
  lemma {:induction false} UnquotedAgain(path: string)
    ensures Unescaped(EscapedAll(path)) == Some(Encoded(path))
  {
    if path != "" {
      UnquotedAgain(path[1..]);
      EscapedIsRead(path[0], EscapedAll(path[1..]));
    }
  }

  /** Different paths are reported differently: the list says exactly which paths have changed. */
  lemma {:induction false} ReportedIsInjective(p: string, q: string)
    requires Reported(p) == Reported(q)
    ensures p == q
  {
    assert !Plain(p) ==> Reported(p)[0] == '"';
    assert !Plain(q) ==> Reported(q)[0] == '"';
    if !Plain(p) && !Plain(q) {
      var r := Reported(p);
      assert EscapedAll(p) == r[1..|r| - 1] && EscapedAll(q) == r[1..|r| - 1];
      UnquotedAgain(p);
      UnquotedAgain(q);
      EncodedIsInjective(p, q);
    }
  }

  /** A path that git quotes is no documentation any more: it begins and ends with a quotation mark. */
  lemma QuotedIsNoDocs(path: string)
    ensures IsDocs(Reported(path)) <==> Plain(path) && IsDocs(path)
    ensures Plain(path) ==> Reported(path) == path
  {
    if !Plain(path) {
      var r := Reported(path);
      assert r[0] == '"' && r[|r| - 1] == '"';
      assert "docs/"[0] == 'd' && ".md"[2] == 'd';
    }
  }

  /** `git diff --name-only --no-renames`: both sides of a rename are in the list. */
  ghost predicate IsDiff(paths: seq<string>, before: Tree, after: Tree) {
    forall r :: r in paths <==> exists p :: Differs(before, after, p) && Reported(p) == r
  }

  /** A path has changed if and only if the list has what git prints for it. */
  lemma {:induction false} ChangedAsListed(paths: seq<string>, before: Tree, after: Tree, p: string)
    requires IsDiff(paths, before, after)
    ensures Differs(before, after, p) <==> Reported(p) in paths
  {
    if Reported(p) in paths {
      var q :| Differs(before, after, q) && Reported(q) == Reported(p);
      ReportedIsInjective(p, q);
    }
  }

  /**
   The docs lane is for changes to documentation and nothing else: it is taken exactly when something
   changed, everything that changed is documentation under a name that git prints plainly, and none of it
   is listed as code.
   */
  lemma DocsLane(l: Lists, paths: seq<string>, before: Tree, after: Tree)
    requires IsDiff(paths, before, after)
    ensures PullRequestFlags(l, paths).docsOnly <==>
      && before != after
      && (forall p :: Differs(before, after, p) ==> Plain(p) && IsDocs(p) && !Matched(p, l.code))
  {
    if before == after {
      if paths != [] { HasElement(paths); }
    } else if paths == [] {
      NothingDiffers(paths, before, after);
    }
    if OwesCode(l, paths) {
      var i :| 0 <= i < |paths| && (Matched(paths[i], l.code) || !IsDocs(paths[i]));
      assert paths[i] in paths;
      var p :| Differs(before, after, p) && Reported(p) == paths[i];
      QuotedIsNoDocs(p);
    } else {
      forall p | Differs(before, after, p) ensures Plain(p) && IsDocs(p) && !Matched(p, l.code) {
        QuotedIsNoDocs(p);
        assert Reported(p) in paths;
        var i :| 0 <= i < |paths| && paths[i] == Reported(p);
      }
    }
  }

  lemma NothingDiffers(paths: seq<string>, before: Tree, after: Tree)
    requires IsDiff(paths, before, after) && paths == []
    ensures before == after
  {
    forall p ensures !Differs(before, after, p) {
      assert Reported(p) !in paths;
    }
    SameTrees(before, after);
  }

  /** Documentation that git quotes, such as a name with an accent, takes the code lane. */
  lemma QuotedDocsAreCode(l: Lists, paths: seq<string>, before: Tree, after: Tree, path: string)
    requires IsDiff(paths, before, after) && Differs(before, after, path) && !Plain(path)
    ensures PullRequestFlags(l, paths).code && !PullRequestFlags(l, paths).docsOnly
  {
    QuotedIsNoDocs(path);
    assert Reported(path) in paths;
    var i :| 0 <= i < |paths| && paths[i] == Reported(path);
  }

  lemma HasElement(paths: seq<string>)
    requires paths != []
    ensures exists p :: p in paths
  {
    assert paths[0] in paths;
  }

  lemma SameTrees(before: Tree, after: Tree)
    requires forall p :: !Differs(before, after, p)
    ensures before == after
  {
    assert forall p :: p in before <==> !Differs(before, after, p) && p in before;
    assert forall p :: p in before ==> !Differs(before, after, p);
    assert forall p :: p in after ==> !Differs(before, after, p);
  }

  /** Moving a file out of the code into `docs/` still sets the code flag. */
  lemma MovedCodeIsCode(l: Lists, paths: seq<string>, before: Tree, after: Tree, source: string, target: string)
    requires IsDiff(paths, before, after)
    requires source in before && target !in before && Matched(source, l.code)
    requires after == (before - {source})[target := before[source]]
    ensures PullRequestFlags(l, paths).code && !PullRequestFlags(l, paths).docsOnly
  {
    assert Differs(before, after, source);
    QuotedIsNoDocs(source);
    assert Reported(source) in paths;
    var i :| 0 <= i < |paths| && paths[i] == Reported(source);
  }

  // ---- a pull request ----

  method DiffNames(before: Tree, after: Tree) returns (paths: seq<string>)
    ensures IsDiff(paths, before, after)
  {
    paths := [];
    var todo := before.Keys + after.Keys;
    while todo != {}
      invariant todo <= before.Keys + after.Keys
      invariant forall r :: r in paths <==>
        exists p :: p in before.Keys + after.Keys - todo && Differs(before, after, p) && Reported(p) == r
    {
      var p :| p in todo;
      todo := todo - {p};
      if Differs(before, after, p) {
        paths := paths + [Reported(p)];
      }
    }
  }

  /** What a pull request changes, measured against the first of exactly two parents of its merge commit. */
  method ChangedFiles(parents: seq<Tree>, head: Tree) returns (paths: Outcome<seq<string>>)
    ensures paths.Ok? <==> |parents| == 2
    ensures paths.Ok? ==> IsDiff(paths.value, parents[0], head)
  {
    if |parents| != 2 { return Raised; }
    var names := DiffNames(parents[0], head);
    return Ok(names);
  }

  /** The docs lane of a pull request, from the trees alone. */
  method DecidePullRequest(l: Lists, parents: seq<Tree>, head: Tree) returns (flags: Outcome<Flags>)
    requires SupportedLists(l)
    ensures flags.Ok? <==> |parents| == 2
    ensures flags.Ok? ==> (flags.value.docsOnly <==>
      && parents[0] != head
      && forall p :: Differs(parents[0], head, p) ==> Plain(p) && IsDocs(p) && !Matched(p, l.code))
    ensures flags.Ok? && parents[0] != head ==> flags.value.code != flags.value.docsOnly
  {
    var paths := ChangedFiles(parents, head);
    if paths.Raised? { return Raised; }
    flags := Decide(PullRequest, l, paths.value);
    OneLane(l, paths.value);
    DocsLane(l, paths.value, parents[0], head);
    if paths.value == [] { NothingDiffers(paths.value, parents[0], head); }
  }
}
