/**
 The two readers of the harness's JUnit report: `_validate_junit`, which decides whether a run passed,
 and `_runtime_failure_summary`, which says what failed.
 */
module JunitReports {
  import opened Wrappers

  datatype Element = Element(tag: string, attrib: map<string, string>, children: seq<Element>)

  /**
   The report file: the tree that the XML parser makes of it, if it can, and what only the second reader
   looks at: whether it is a regular file within 1 MiB, is UTF-8, and holds a DOCTYPE or an entity.
   */
  datatype ReportFile = ReportFile(tree: Option<Element>, bounded: bool, utf8: bool, declares: bool)

  /** From the worst to the best; `Missing` is for a test that no case mentions. */
  datatype Status = Error | Failed | Skipped | Passed | Missing

  function Rank(s: Status): nat {
    match s
    case Error => 4
    case Failed => 3
    case Skipped => 2
    case Passed => 1
    case Missing => 0
  }

  // ---- the tree ----

  /** `root.iter()`, in document order. */
  function Nodes(root: Element): (r: seq<Element>)
    ensures root in r
    decreases root, 1
  {
    [root] + NodesOfAll(root, |root.children|)
  }

  function NodesOfAll(root: Element, n: nat): seq<Element>
    requires n <= |root.children|
    decreases root, 0, n
  {
    if n == 0 then [] else NodesOfAll(root, n - 1) + Nodes(root.children[n - 1])
  }

  /** `e` is `root` or lies below it. */
  ghost predicate Within(e: Element, root: Element) {
    e == root || exists i :: 0 <= i < |root.children| && Within(e, root.children[i])
  }

  lemma {:induction false} NodesAreThoseWithin(e: Element, root: Element)
    ensures e in Nodes(root) <==> Within(e, root)
    decreases root, 1
  {
    NodesOfSome(e, root, |root.children|);
  }

  lemma {:induction false} NodesOfSome(e: Element, root: Element, n: nat)
    requires n <= |root.children|
    ensures e in NodesOfAll(root, n) <==> exists i :: 0 <= i < n && Within(e, root.children[i])
    decreases root, 0, n
  {
    if n > 0 {
      NodesOfSome(e, root, n - 1);
      NodesAreThoseWithin(e, root.children[n - 1]);
    }
  }

  /** `root.iter(tag)` */
  function Iter(root: Element, tag: string): (r: seq<Element>)
    ensures forall e :: e in r <==> e in Nodes(root) && e.tag == tag
  {
    Tagged(Nodes(root), tag)
  }

  function Tagged(nodes: seq<Element>, tag: string): (r: seq<Element>)
    ensures forall e :: e in r <==> e in nodes && e.tag == tag
  {
    if nodes == [] then []
    else (if nodes[0].tag == tag then [nodes[0]] else []) + Tagged(nodes[1..], tag)
  }

  /** `case.find(kind) is not None` */
  predicate Has(testcase: Element, kind: string) {
    exists i :: 0 <= i < |testcase.children| && testcase.children[i].tag == kind
  }

  function Get(e: Element, key: string, default': string): string {
    if key in e.attrib then e.attrib[key] else default'
  }

  /** `name.split("[", 1)[0]` */
  function BaseName(name: string): string {
    if name == "" || name[0] == '[' then "" else [name[0]] + BaseName(name[1..])
  }

  function CaseName(testcase: Element): string {
    BaseName(Get(testcase, "name", ""))
  }

  function CaseStatus(testcase: Element): Status {
    if Has(testcase, "error") then Error
    else if Has(testcase, "failure") then Failed
    else if Has(testcase, "skipped") then Skipped
    else Passed
  }

  // ---- validation ----

  /** A counter whose decimal value is zero; `zeros` are the characters with the decimal value 0. */
  predicate ZeroCounter(value: string, zeros: set<char>) {
    value != "" && forall i :: 0 <= i < |value| ==> value[i] in zeros
  }

  predicate CleanSuite(suite: Element, zeros: set<char>) {
    && ZeroCounter(Get(suite, "failures", "0"), zeros)
    && ZeroCounter(Get(suite, "errors", "0"), zeros)
    && ZeroCounter(Get(suite, "skipped", "0"), zeros)
  }

  predicate CleanSuites(suites: seq<Element>, zeros: set<char>) {
    forall e :: e in suites ==> CleanSuite(e, zeros)
  }

  predicate AllPassed(cases: seq<Element>) {
    forall e :: e in cases ==> CaseStatus(e) == Passed
  }

  predicate Mentions(cases: seq<Element>, name: string) {
    exists e :: e in cases && CaseName(e) == name
  }

  ghost predicate Accepted(root: Element, mandatory: seq<string>, zeros: set<char>) {
    var cases := Iter(root, "testcase");
    && cases != []
    && CleanSuites(Iter(root, "testsuite"), zeros)
    && AllPassed(cases)
    && forall n :: n in mandatory ==> Mentions(cases, n)
  }

  method CheckSuites(suites: seq<Element>, zeros: set<char>) returns (ok: bool)
    ensures ok <==> CleanSuites(suites, zeros)
  {
    for i := 0 to |suites|
      invariant forall k :: 0 <= k < i ==> CleanSuite(suites[k], zeros)
    {
      if !CleanSuite(suites[i], zeros) {
        assert suites[i] in suites;
        return false;
      }
    }
    return true;
  }

  /** The names of the cases, if all of them passed. */
  method PassedNames(cases: seq<Element>) returns (names: Option<set<string>>)
    ensures names.Some? <==> AllPassed(cases)
    ensures names.Some? ==> forall n :: n in names.value <==> Mentions(cases, n)
  {
    var found: set<string> := {};
    for i := 0 to |cases|
      invariant AllPassed(cases[..i])
      invariant forall n :: n in found <==> Mentions(cases[..i], n)
    {
      var e := cases[i];
      assert cases[..i + 1] == cases[..i] + [e];
      found := found + {CaseName(e)};
      if Has(e, "failure") || Has(e, "error") || Has(e, "skipped") {
        assert e in cases && CaseStatus(e) != Passed;
        return None;
      }
    }
    assert cases[..|cases|] == cases;
    return Some(found);
  }

  /** `_validate_junit`: the number of tests, or a refusal. */
  method Validate(file: ReportFile, mandatory: seq<string>, zeros: set<char>) returns (count: Option<nat>)
    ensures count.Some? <==> file.tree.Some? && Accepted(file.tree.value, mandatory, zeros)
    ensures count.Some? ==> count.value == |Iter(file.tree.value, "testcase")|
  {
    if file.tree.None? { return None; }
    var root := file.tree.value;
    var cases := Iter(root, "testcase");
    if cases == [] { return None; }
    var clean := CheckSuites(Iter(root, "testsuite"), zeros);
    if !clean { return None; }
    var names := PassedNames(cases);
    if names.None? { return None; }
    if exists n :: n in mandatory && n !in names.value { return None; }
    return Some(|cases|);
  }

  // ---- the summary ----

  datatype ExitStatus = Unavailable | Code(value: int) | Abnormal

  datatype Line =
    | HarnessExit(exit: ExitStatus)
    | JunitAvailable
    | JunitUnavailable
    | OtherCases(present: bool)
    | CaseLine(name: string, status: Status)

  /** Some case of `name` ended with `s`. */
  predicate Shows(cases: seq<Element>, name: string, s: Status) {
    exists e :: e in cases && CaseName(e) == name && CaseStatus(e) == s
  }

  /** `s` is the worst status that `name` has in any of `cases`, over all parameters and repeats. */
  ghost predicate WorstOf(cases: seq<Element>, name: string, s: Status) {
    && (s == Missing || Shows(cases, name, s))
    && (forall e :: e in cases && CaseName(e) == name ==> Rank(CaseStatus(e)) <= Rank(s))
  }

  ghost predicate Reports(line: Line, cases: seq<Element>, name: string) {
    line.CaseLine? && line.name == name && WorstOf(cases, name, line.status)
  }

  /** The worst of the statuses that were collected for a name. */
  function Worst(seen: set<Status>): (s: Status)
    requires Missing !in seen
    ensures s == Missing || s in seen
    ensures forall t :: t in seen ==> Rank(t) <= Rank(s)
  {
    if Error in seen then Error
    else if Failed in seen then Failed
    else if Skipped in seen then Skipped
    else if Passed in seen then Passed
    else Missing
  }

  method Collect(cases: seq<Element>, mandatory: seq<string>) returns (statuses: map<string, set<Status>>, others: bool)
    ensures statuses.Keys == set n | n in mandatory
    ensures forall n, s :: n in mandatory ==> (s in statuses[n] <==> Shows(cases, n, s))
    ensures others <==> exists e :: e in cases && CaseName(e) !in mandatory
  {
    statuses, others := map n | n in mandatory :: {}, false;
    for i := 0 to |cases|
      invariant statuses.Keys == set n | n in mandatory
      invariant forall n, s :: n in mandatory ==> (s in statuses[n] <==> Shows(cases[..i], n, s))
      invariant others <==> exists e :: e in cases[..i] && CaseName(e) !in mandatory
    {
      var e := cases[i];
      assert cases[..i + 1] == cases[..i] + [e];
      var name := CaseName(e);
      if name !in statuses {
        others := true;
      } else {
        statuses := statuses[name := statuses[name] + {CaseStatus(e)}];
      }
    }
    assert cases[..|cases|] == cases;
  }

  lemma WorstSeen(cases: seq<Element>, name: string, seen: set<Status>)
    requires forall s :: s in seen <==> Shows(cases, name, s)
    ensures Missing !in seen && WorstOf(cases, name, Worst(seen))
  {
    forall e | e in cases && CaseName(e) == name ensures CaseStatus(e) in seen {
      assert Shows(cases, name, CaseStatus(e));
    }
  }

  /** The lines about the cases: `mandatory` is in sorted order. */
  method Summarize(cases: seq<Element>, mandatory: seq<string>) returns (lines: seq<Line>)
    ensures |lines| == 2 + |mandatory| && lines[0] == JunitAvailable
    ensures lines[1] == OtherCases(exists e :: e in cases && CaseName(e) !in mandatory)
    ensures forall k :: 0 <= k < |mandatory| ==> Reports(lines[2 + k], cases, mandatory[k])
  {
    var statuses, others := Collect(cases, mandatory);
    lines := [JunitAvailable, OtherCases(others)];
    for k := 0 to |mandatory|
      invariant |lines| == 2 + k && lines[0] == JunitAvailable && lines[1] == OtherCases(others)
      invariant forall j :: 0 <= j < k ==> Reports(lines[2 + j], cases, mandatory[j])
    {
      var n := mandatory[k];
      WorstSeen(cases, n, statuses[n]);
      lines := lines + [CaseLine(n, Worst(statuses[n]))];
    }
  }

  function Exit(returncode: Option<int>): ExitStatus {
    if returncode.None? then Unavailable
    else if -255 <= returncode.value <= 255 then Code(returncode.value)
    else Abnormal
  }

  /** Nothing from the report or the child reaches the output but known names and fixed words. */
  predicate Closed(line: Line, mandatory: seq<string>) {
    match line
    case HarnessExit(Code(n)) => -255 <= n <= 255
    case CaseLine(name, _) => name in mandatory
    case _ => true
  }

  /** What is printed for a report that was read, up to the history test's own diagnostics. */
  ghost predicate Summary(lines: seq<Line>, cases: seq<Element>, returncode: Option<int>, mandatory: seq<string>) {
    && |lines| == 3 + |mandatory|
    && lines[0] == HarnessExit(Exit(returncode)) && lines[1] == JunitAvailable
    && lines[2] == OtherCases(exists e :: e in cases && CaseName(e) !in mandatory)
    && forall k :: 0 <= k < |mandatory| ==> Reports(lines[3 + k], cases, mandatory[k])
  }

  lemma SummaryIsClosed(lines: seq<Line>, cases: seq<Element>, returncode: Option<int>, mandatory: seq<string>)
    requires Summary(lines, cases, returncode, mandatory)
    ensures forall i :: 0 <= i < |lines| ==> Closed(lines[i], mandatory)
  {
    forall i | 3 <= i < |lines| ensures Closed(lines[i], mandatory) {
      assert Reports(lines[3 + (i - 3)], cases, mandatory[i - 3]);
    }
  }

  /** `_read_diagnostic_junit`: stricter than the parser that validation uses. */
  predicate Told(file: ReportFile) {
    file.bounded && file.utf8 && !file.declares && file.tree.Some? && file.tree.value.tag in {"testsuites", "testsuite"}
  }

  /** What is printed about the harness and the report, up to the history test's own diagnostics. */
  ghost predicate Printed(lines: seq<Line>, file: ReportFile, returncode: Option<int>, mandatory: seq<string>) {
    if Told(file) then Summary(lines, Iter(file.tree.value, "testcase"), returncode, mandatory)
    else lines == [HarnessExit(Exit(returncode)), JunitUnavailable]
  }

  method FailureSummary(file: ReportFile, returncode: Option<int>, mandatory: seq<string>) returns (lines: seq<Line>)
    ensures forall i :: 0 <= i < |lines| ==> Closed(lines[i], mandatory)
    ensures Printed(lines, file, returncode, mandatory)
  {
    lines := [HarnessExit(Exit(returncode))];
    if !Told(file) {
      lines := lines + [JunitUnavailable];
    } else {
      var cases := Iter(file.tree.value, "testcase");
      var more := Summarize(cases, mandatory);
      lines := lines + more;
      SummaryIsClosed(lines, cases, returncode, mandatory);
    }
  }

  /** The exit code is told if it is one that a process can have, signals included. */
  lemma ExitIsTold(lines: seq<Line>, file: ReportFile, returncode: Option<int>, mandatory: seq<string>)
    requires Printed(lines, file, returncode, mandatory)
    ensures lines != [] && lines[0].HarnessExit?
    ensures forall n :: lines[0] == HarnessExit(Code(n)) <==> returncode == Some(n) && -255 <= n <= 255
    ensures lines[0] == HarnessExit(Unavailable) <==> returncode.None?
  {
  }

  // ---- what the two readers agree on ----

  /** The status reported for a name depends on what its cases show and on nothing else, not even their order. */
  lemma OrderDoesNotMatter(a: seq<Element>, b: seq<Element>, name: string, s: Status, t: Status)
    requires forall v :: Shows(a, name, v) <==> Shows(b, name, v)
    requires WorstOf(a, name, s) && WorstOf(b, name, t)
    ensures s == t
  {
    assert s != Missing ==> Shows(b, name, s);
    assert t != Missing ==> Shows(a, name, t);
    assert Rank(s) == Rank(t);
  }

  /** A name is reported as passed exactly when it has a case and none of its cases did anything else. */
  lemma ReportedPassed(cases: seq<Element>, name: string)
    ensures WorstOf(cases, name, Passed) <==>
      Mentions(cases, name) && forall e :: e in cases && CaseName(e) == name ==> CaseStatus(e) == Passed
  {
    forall e | e in cases ensures Rank(CaseStatus(e)) <= Rank(Passed) <==> CaseStatus(e) == Passed {
    }
  }

  /** A status is printed for a mandatory test exactly when it is the worst that the test's cases show. */
  lemma PrintedStatus(lines: seq<Line>, cases: seq<Element>, returncode: Option<int>, mandatory: seq<string>,
                      name: string, s: Status)
    requires Summary(lines, cases, returncode, mandatory) && name in mandatory
    ensures CaseLine(name, s) in lines <==> WorstOf(cases, name, s)
  {
    if CaseLine(name, s) in lines {
      var i :| 0 <= i < |lines| && lines[i] == CaseLine(name, s);
      assert Reports(lines[3 + (i - 3)], cases, mandatory[i - 3]);
    }
    if WorstOf(cases, name, s) {
      var k :| 0 <= k < |mandatory| && mandatory[k] == name;
      assert Reports(lines[3 + k], cases, name);
      OrderDoesNotMatter(cases, cases, name, s, lines[3 + k].status);
    }
  }

  /** Every mandatory test is printed as passed. */
  predicate PrintedPassed(lines: seq<Line>, mandatory: seq<string>) {
    forall n :: n in mandatory ==> CaseLine(n, Passed) in lines
  }

  predicate OthersPassed(cases: seq<Element>, mandatory: seq<string>) {
    forall e :: e in cases && CaseName(e) !in mandatory ==> CaseStatus(e) == Passed
  }

  /** Acceptance in terms of the worst statuses. */
  lemma AcceptedByStatus(root: Element, mandatory: seq<string>, zeros: set<char>)
    requires mandatory != []
    ensures var cases := Iter(root, "testcase");
      Accepted(root, mandatory, zeros) <==>
        && CleanSuites(Iter(root, "testsuite"), zeros) && OthersPassed(cases, mandatory)
        && (forall n :: n in mandatory ==> WorstOf(cases, n, Passed))
  {
    var cases := Iter(root, "testcase");
    forall n | n in mandatory
      ensures WorstOf(cases, n, Passed) <==>
        Mentions(cases, n) && forall e :: e in cases && CaseName(e) == n ==> CaseStatus(e) == Passed
    {
      ReportedPassed(cases, n);
    }
    assert mandatory[0] in mandatory;
  }

  /**
   The two readers agree on the files that both read: validation accepts such a file exactly if its counters are
   clean, no other case is unpassed and the printed lines have every mandatory test passed. Of a file that the
   second one refuses no test is ever printed as passed.
   */
  lemma ReadersAgree(lines: seq<Line>, file: ReportFile, returncode: Option<int>, mandatory: seq<string>,
                     zeros: set<char>)
    requires mandatory != [] && Printed(lines, file, returncode, mandatory)
    ensures Told(file) ==>
      (Accepted(file.tree.value, mandatory, zeros) <==>
        && CleanSuites(Iter(file.tree.value, "testsuite"), zeros)
        && OthersPassed(Iter(file.tree.value, "testcase"), mandatory)
        && PrintedPassed(lines, mandatory))
    ensures !Told(file) ==> forall n :: n in mandatory ==> CaseLine(n, Passed) !in lines
  {
    if Told(file) {
      var cases := Iter(file.tree.value, "testcase");
      AcceptedByStatus(file.tree.value, mandatory, zeros);
      forall n | n in mandatory ensures CaseLine(n, Passed) in lines <==> WorstOf(cases, n, Passed) {
        PrintedStatus(lines, cases, returncode, mandatory, n, Passed);
      }
    }
  }

  /** For a file that validation accepts, the printed lines say so if and only if the second reader reads it too. */
  lemma AcceptedIsPrinted(lines: seq<Line>, file: ReportFile, returncode: Option<int>, mandatory: seq<string>,
                          zeros: set<char>)
    requires mandatory != [] && Printed(lines, file, returncode, mandatory)
    requires file.tree.Some? && Accepted(file.tree.value, mandatory, zeros)
    ensures PrintedPassed(lines, mandatory) <==>
      file.bounded && file.utf8 && !file.declares && file.tree.value.tag in {"testsuites", "testsuite"}
  {
    ReadersAgree(lines, file, returncode, mandatory, zeros);
    assert mandatory[0] in mandatory;
  }

  // ---- the same over the tree itself ----

  /** The case is for the test: its name is the test's, or the test's with parameters in brackets. */
  predicate CaseFor(e: Element, test: string) {
    && e.tag == "testcase" && "name" in e.attrib
    && var name := e.attrib["name"];
       name == test || (|test| < |name| && name[..|test|] == test && name[|test|] == '[')
  }

  ghost predicate HasChild(e: Element, tag: string) {
    exists c :: c in e.children && c.tag == tag
  }

  /** The report has a case for the test with such a child. */
  ghost predicate CaseWith(root: Element, test: string, tag: string) {
    exists e :: Within(e, root) && CaseFor(e, test) && HasChild(e, tag)
  }

  ghost predicate HasCase(root: Element, test: string) {
    exists e :: Within(e, root) && CaseFor(e, test)
  }

  ghost predicate Unpassed(e: Element) {
    HasChild(e, "failure") || HasChild(e, "error") || HasChild(e, "skipped")
  }

  lemma {:induction false} BaseOfName(name: string, test: string)
    requires forall i :: 0 <= i < |test| ==> test[i] != '['
    ensures BaseName(name) == test <==>
      name == test || (|test| < |name| && name[..|test|] == test && name[|test|] == '[')
    decreases |name|
  {
    if name != "" && name[0] != '[' {
      if test != "" {
        BaseOfName(name[1..], test[1..]);
        assert name == [name[0]] + name[1..] && test == [test[0]] + test[1..];
      }
    }
  }

  lemma CaseIsFor(e: Element, test: string)
    requires test != "" && '[' !in test && e.tag == "testcase"
    ensures CaseName(e) == test <==> CaseFor(e, test)
  {
    BaseOfName(Get(e, "name", ""), test);
  }

  lemma ChildrenOf(e: Element, tag: string)
    ensures Has(e, tag) <==> HasChild(e, tag)
  {
    forall i | 0 <= i < |e.children| ensures e.children[i] in e.children {
    }
  }

  /** The cases that the readers go through are those of the tree. */
  lemma CasesOf(root: Element, e: Element)
    ensures e in Iter(root, "testcase") <==> Within(e, root) && e.tag == "testcase"
  {
    NodesAreThoseWithin(e, root);
  }

  lemma StatusOf(e: Element)
    ensures CaseStatus(e) ==
      if HasChild(e, "error") then Error
      else if HasChild(e, "failure") then Failed
      else if HasChild(e, "skipped") then Skipped
      else Passed
  {
    ChildrenOf(e, "error");
    ChildrenOf(e, "failure");
    ChildrenOf(e, "skipped");
  }

  lemma ShownInTree(root: Element, test: string, s: Status)
    requires test != "" && '[' !in test
    ensures Shows(Iter(root, "testcase"), test, s) <==>
      exists e :: Within(e, root) && CaseFor(e, test) && CaseStatus(e) == s
  {
    var cases := Iter(root, "testcase");
    if e :| e in cases && CaseName(e) == test && CaseStatus(e) == s {
      CasesOf(root, e);
      CaseIsFor(e, test);
    }
    if e :| Within(e, root) && CaseFor(e, test) && CaseStatus(e) == s {
      CasesOf(root, e);
      CaseIsFor(e, test);
    }
  }

  /** The counters of a suite are absent or decimal zeros. */
  ghost predicate ZeroCounts(suite: Element, zeros: set<char>) {
    forall field :: field in {"failures", "errors", "skipped"} && field in suite.attrib ==>
      suite.attrib[field] != "" && forall c :: c in suite.attrib[field] ==> c in zeros
  }

  lemma CleanIsZero(suite: Element, zeros: set<char>)
    requires '0' in zeros
    ensures CleanSuite(suite, zeros) <==> ZeroCounts(suite, zeros)
  {
    forall field | field in {"failures", "errors", "skipped"}
      ensures ZeroCounter(Get(suite, field, "0"), zeros) <==> (field in suite.attrib ==>
        suite.attrib[field] != "" && forall c :: c in suite.attrib[field] ==> c in zeros)
    {
      var value := Get(suite, field, "0");
      forall i | 0 <= i < |value| ensures value[i] in value {
      }
    }
    assert CleanSuite(suite, zeros) <==>
      forall field :: field in {"failures", "errors", "skipped"} ==> ZeroCounter(Get(suite, field, "0"), zeros);
  }

  lemma PassedInTree(root: Element)
    ensures AllPassed(Iter(root, "testcase")) <==>
      forall e :: Within(e, root) && e.tag == "testcase" ==> !Unpassed(e)
  {
    forall e ensures e in Iter(root, "testcase") <==> Within(e, root) && e.tag == "testcase" {
      CasesOf(root, e);
    }
    forall e ensures CaseStatus(e) == Passed <==> !Unpassed(e) {
      StatusOf(e);
    }
  }

  lemma SuitesInTree(root: Element, zeros: set<char>)
    requires '0' in zeros
    ensures CleanSuites(Iter(root, "testsuite"), zeros) <==>
      forall e :: Within(e, root) && e.tag == "testsuite" ==> ZeroCounts(e, zeros)
  {
    forall e ensures e in Iter(root, "testsuite") <==> Within(e, root) && e.tag == "testsuite" {
      NodesAreThoseWithin(e, root);
    }
    forall e ensures CleanSuite(e, zeros) <==> ZeroCounts(e, zeros) {
      CleanIsZero(e, zeros);
    }
  }

  lemma MentionedInTree(root: Element, test: string)
    requires test != "" && '[' !in test
    ensures Mentions(Iter(root, "testcase"), test) <==> HasCase(root, test)
  {
    var cases := Iter(root, "testcase");
    if e :| e in cases && CaseName(e) == test {
      CasesOf(root, e);
      CaseIsFor(e, test);
    }
    if e :| Within(e, root) && CaseFor(e, test) {
      CasesOf(root, e);
      CaseIsFor(e, test);
    }
  }

  /**
   Acceptance over the tree alone: the counters are zeros, no case has a failure, an error or a skip below it, and
   every mandatory test has a case, which may be any of its parameterizations.
   */
  lemma AcceptedInTheTree(root: Element, mandatory: seq<string>, zeros: set<char>)
    requires mandatory != [] && '0' in zeros && forall n :: n in mandatory ==> n != "" && '[' !in n
    ensures Accepted(root, mandatory, zeros) <==>
      && (forall e :: Within(e, root) && e.tag == "testsuite" ==> ZeroCounts(e, zeros))
      && (forall e :: Within(e, root) && e.tag == "testcase" ==> !Unpassed(e))
      && (forall n :: n in mandatory ==> HasCase(root, n))
  {
    SuitesInTree(root, zeros);
    PassedInTree(root);
    forall n | n in mandatory ensures Mentions(Iter(root, "testcase"), n) <==> HasCase(root, n) {
      MentionedInTree(root, n);
    }
    assert mandatory[0] in mandatory;
  }

  /** What the printed status of a test says about the tree. */
  ghost predicate StatusInTree(root: Element, test: string, s: Status) {
    match s
    case Error => CaseWith(root, test, "error")
    case Failed => CaseWith(root, test, "failure") && !CaseWith(root, test, "error")
    case Skipped =>
      CaseWith(root, test, "skipped") && !CaseWith(root, test, "failure") && !CaseWith(root, test, "error")
    case Passed =>
      && HasCase(root, test)
      && !CaseWith(root, test, "skipped") && !CaseWith(root, test, "failure") && !CaseWith(root, test, "error")
    case Missing => !HasCase(root, test)
  }

  /** A case shows one of the statuses up to some kind exactly when it has a child of one of these kinds. */
  lemma ShowsInTree(root: Element, test: string)
    requires test != "" && '[' !in test
    ensures var cases := Iter(root, "testcase");
      && (Shows(cases, test, Error) <==> CaseWith(root, test, "error"))
      && (Shows(cases, test, Failed) || Shows(cases, test, Error) <==>
            CaseWith(root, test, "failure") || CaseWith(root, test, "error"))
      && (Shows(cases, test, Skipped) || Shows(cases, test, Failed) || Shows(cases, test, Error) <==>
            CaseWith(root, test, "skipped") || CaseWith(root, test, "failure") || CaseWith(root, test, "error"))
  {
    ShownInTree(root, test, Error);
    ShownInTree(root, test, Failed);
    ShownInTree(root, test, Skipped);
    forall e ensures CaseStatus(e) ==
      if HasChild(e, "error") then Error else if HasChild(e, "failure") then Failed
      else if HasChild(e, "skipped") then Skipped else Passed
    {
      StatusOf(e);
    }
  }

  lemma WorstShows(cases: seq<Element>, test: string, s: Status)
    requires WorstOf(cases, test, s)
    ensures s == Missing <==> !Mentions(cases, test)
    ensures forall v :: Shows(cases, test, v) ==> Rank(v) <= Rank(s)
    ensures s != Missing ==> Shows(cases, test, s)
  {
    forall e ensures Rank(CaseStatus(e)) > 0 {
    }
  }

  lemma WorstInTree(root: Element, test: string, s: Status)
    requires test != "" && '[' !in test && WorstOf(Iter(root, "testcase"), test, s)
    ensures StatusInTree(root, test, s)
  {
    ShowsInTree(root, test);
    MentionedInTree(root, test);
    WorstShows(Iter(root, "testcase"), test, s);
  }

  lemma OneStatusInTree(root: Element, test: string, s: Status, t: Status)
    requires StatusInTree(root, test, s) && StatusInTree(root, test, t)
    ensures s == t
  {
  }

  /**
   The printed status of a mandatory test over the tree alone: one failed parameterization is a failure of the test,
   one with an error is an error.
   */
  lemma PrintedInTheTree(lines: seq<Line>, file: ReportFile, returncode: Option<int>, mandatory: seq<string>,
                         test: string, s: Status)
    requires Told(file) && Printed(lines, file, returncode, mandatory)
    requires test in mandatory && test != "" && '[' !in test
    ensures CaseLine(test, s) in lines <==> StatusInTree(file.tree.value, test, s)
  {
    var cases := Iter(file.tree.value, "testcase");
    var k :| 0 <= k < |mandatory| && mandatory[k] == test;
    assert Reports(lines[3 + k], cases, test);
    var printed := lines[3 + k].status;
    WorstInTree(file.tree.value, test, printed);
    PrintedStatus(lines, cases, returncode, mandatory, test, s);
    if CaseLine(test, s) in lines {
      WorstInTree(file.tree.value, test, s);
    }
    if StatusInTree(file.tree.value, test, s) {
      OneStatusInTree(file.tree.value, test, s, printed);
    }
  }

  /** A report with one passed case below another root, which the first reader takes and the second refuses. */
  function OddReport(name: string): Element {
    Element("report", map[], [Element("testcase", map["name" := name], [])])
  }

  lemma OddNodes(name: string)
    ensures var root := OddReport(name); Nodes(root) == [root, root.children[0]]
  {
    var root := OddReport(name);
    var c := root.children[0];
    assert NodesOfAll(c, 0) == [] && Nodes(c) == [c];
    assert NodesOfAll(root, 0) == [] && NodesOfAll(root, 1) == [c];
  }

  lemma OddReportIsAccepted(name: string, zeros: set<char>)
    requires BaseName(name) == name
    ensures Accepted(OddReport(name), [name], zeros)
  {
    var root := OddReport(name);
    OddNodes(name);
    assert root.children[0] in Iter(root, "testcase") && CaseName(root.children[0]) == name;
  }

  /** Such a file is accepted, and nothing is printed about its test. */
  lemma OddRootIsNotTold(lines: seq<Line>, name: string, returncode: Option<int>, zeros: set<char>)
    requires BaseName(name) == name
    requires Printed(lines, ReportFile(Some(OddReport(name)), true, true, false), returncode, [name])
    ensures Accepted(OddReport(name), [name], zeros)
    ensures lines == [HarnessExit(Exit(returncode)), JunitUnavailable] && !PrintedPassed(lines, [name])
  {
    OddReportIsAccepted(name, zeros);
    assert name in [name];
  }
}
