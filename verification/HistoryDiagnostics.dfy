/**
 `_history_diagnostics` and the complete failure summary: what is told about the history test comes from
 one record in the child's output and one in its failure text, and from nothing else.
 */
module HistoryDiagnostics {
  import opened Wrappers
  import opened JunitReports
  import HistoryPhases
  import ProviderReceipts
  import opened Strings

  // limits in bytes, and the last line number of the test's own file
  const MAX_RECORD := 4_096
  const MAX_RECEIPT := 1_024
  const MAX_SOURCE_LINE := 1_484

  /** The fixed texts and names; `frame` reads a stack frame of the history test's own file. */
  datatype Texts = Texts(
    historyTest: string, failurePrefix: string, assertion: string, receiptPrefix: string,
    schema: HistoryPhases.Schema, vocabulary: ProviderReceipts.Vocabulary, frame: string -> Option<nat>)

  // ---- which line holds the record ----

  /** `s.count(p)` */
  function Count(s: string, p: string): nat
    requires p != ""
    decreases |s|
  {
    if |s| < |p| then 0 else if StartsWith(s, p) then 1 + Count(s[|p|..], p) else Count(s[1..], p)
  }

  /** `p in s` */
  predicate Contains(s: string, p: string) {
    exists i :: 0 <= i <= |s| - |p| && s[i..][..|p|] == p
  }

  lemma {:induction false} CountedIsContained(s: string, p: string)
    requires p != ""
    ensures Count(s, p) > 0 <==> Contains(s, p)
    decreases |s|
  {
    if |s| >= |p| {
      if StartsWith(s, p) {
        assert s[0..][..|p|] == p;
      } else {
        CountedIsContained(s[1..], p);
        if Contains(s[1..], p) {
          var i :| 0 <= i <= |s[1..]| - |p| && s[1..][i..][..|p|] == p;
          assert s[i + 1..] == s[1..][i..];
        }
        if Contains(s, p) {
          var i :| 0 <= i <= |s| - |p| && s[i..][..|p|] == p;
          assert i > 0 by { assert s[0..] == s; }
          assert s[1..][i - 1..] == s[i..];
        }
      }
    }
  }

  function TotalCount(lines: seq<string>, p: string): nat
    requires p != ""
  {
    if lines == [] then 0 else TotalCount(lines[..|lines| - 1], p) + Count(lines[|lines| - 1], p)
  }

  predicate ProgressMark(c: char) {
    c in {'.', 's', 'F', 'x', 'X', 'E'}
  }

  function SkipMarks(s: string): string {
    if s != "" && ProgressMark(s[0]) then SkipMarks(s[1..]) else s
  }

  /** The payload of a record that starts after pytest's progress marks. */
  function Payload(prefix: string, record: string): Option<string> {
    var rest := SkipMarks(record);
    if !StartsWith(rest, prefix) || |rest| == |prefix| || |Encoded(record)| > MAX_RECORD then None
    else Some(rest[|prefix|..])
  }

  predicate OnlyMarks(s: string) {
    forall i :: 0 <= i < |s| ==> s[i] in ".sFxXE"
  }

  lemma MarksAre(c: char)
    ensures ProgressMark(c) <==> c in ".sFxXE"
  {
    var marks := ".sFxXE";
    assert marks[0] == '.' && marks[1] == 's' && marks[2] == 'F' && marks[3] == 'x' && marks[4] == 'X'
      && marks[5] == 'E';
  }

  lemma {:induction false} SkipsMarks(marks: string, rest: string)
    requires OnlyMarks(marks) && (rest == "" || rest[0] !in ".sFxXE")
    ensures SkipMarks(marks + rest) == rest
  {
    if marks == "" {
      assert marks + rest == rest;
      if rest != "" { MarksAre(rest[0]); }
    } else {
      MarksAre(marks[0]);
      assert (marks + rest)[1..] == marks[1..] + rest;
      SkipsMarks(marks[1..], rest);
    }
  }

  lemma {:induction false} SkippedAreMarks(s: string) returns (marks: string)
    ensures OnlyMarks(marks) && s == marks + SkipMarks(s)
  {
    if s != "" && ProgressMark(s[0]) {
      MarksAre(s[0]);
      var rest := SkippedAreMarks(s[1..]);
      marks := [s[0]] + rest;
    } else {
      marks := "";
    }
  }

  /** A line is a record exactly when it is progress marks, the prefix and the payload, within 4096 bytes. */
  lemma {:induction false} PayloadIsExact(prefix: string, line: string, payload: string)
    requires prefix != "" && prefix[0] !in ".sFxXE"
    ensures Payload(prefix, line) == Some(payload) <==>
      && payload != "" && |Encoded(line)| <= 4096
      && exists marks :: OnlyMarks(marks) && line == marks + prefix + payload
  {
    if Payload(prefix, line) == Some(payload) {
      var marks := SkippedAreMarks(line);
      assert SkipMarks(line) == prefix + payload;
      assert line == marks + prefix + payload;
    }
    if marks :| OnlyMarks(marks) && line == marks + prefix + payload {
      assert line == marks + (prefix + payload) && (prefix + payload)[0] == prefix[0];
      SkipsMarks(marks, prefix + payload);
      assert (prefix + payload)[|prefix|..] == payload;
    }
  }

  /** The one line that mentions the prefix, once. */
  ghost predicate OnlyMention(lines: seq<string>, p: string, k: int)
    requires p != ""
  {
    0 <= k < |lines| && Count(lines[k], p) == 1 && forall i :: 0 <= i < |lines| && i != k ==> Count(lines[i], p) == 0
  }

  lemma {:induction false} NoMention(lines: seq<string>, p: string)
    requires p != ""
    ensures TotalCount(lines, p) == 0 <==> forall i :: 0 <= i < |lines| ==> Count(lines[i], p) == 0
  {
    if lines != [] {
      NoMention(lines[..|lines| - 1], p);
      assert forall i :: 0 <= i < |lines| - 1 ==> lines[..|lines| - 1][i] == lines[i];
    }
  }

  lemma {:induction false} SingleMention(lines: seq<string>, p: string)
    requires p != ""
    ensures TotalCount(lines, p) == 1 <==> exists k :: OnlyMention(lines, p, k)
  {
    if lines != [] {
      var init, n := lines[..|lines| - 1], |lines| - 1;
      SingleMention(init, p);
      NoMention(init, p);
      assert forall i :: 0 <= i < n ==> init[i] == lines[i];
      if TotalCount(lines, p) == 1 {
        if Count(lines[n], p) == 1 {
          assert OnlyMention(lines, p, n);
        } else {
          var k :| OnlyMention(init, p, k);
          assert OnlyMention(lines, p, k);
        }
      }
      if k :| OnlyMention(lines, p, k) {
        if k < n {
          assert OnlyMention(init, p, k);
        }
      }
    }
  }

  /** The line holds the canonical print of this record. */
  ghost predicate Reads(texts: Texts, line: string, r: HistoryPhases.Record) {
    var payload := Payload(texts.failurePrefix, line);
    payload.Some? && HistoryPhases.Gate(texts.schema, payload.value) == Some(r)
  }

  /** The phase record is looked for in the child's output; it must be mentioned exactly once. */
  method PhaseDiagnostic(texts: Texts, lines: seq<string>) returns (record: Option<HistoryPhases.Record>)
    requires texts.failurePrefix != ""
    ensures forall r :: record == Some(r) <==>
      exists k :: OnlyMention(lines, texts.failurePrefix, k) && Reads(texts, lines[k], r)
  {
    var p := texts.failurePrefix;
    SingleMention(lines, p);
    if TotalCount(lines, p) != 1 {
      assert forall j :: !OnlyMention(lines, p, j);
      return None;
    }
    ghost var only :| OnlyMention(lines, p, only);
    var k := 0;
    while Count(lines[k], p) == 0
      invariant 0 <= k <= only
      decreases only - k
    {
      k := k + 1;
    }
    assert k == only;
    var payload := Payload(p, lines[k]);
    record := if payload.None? then None else HistoryPhases.Gate(texts.schema, payload.value);
    forall j | OnlyMention(lines, p, j) ensures j == k {
    }
  }

  // ---- the provider's receipt ----

  function DropSpaces(s: string): string {
    if s != "" && IsSpace(s[0]) then DropSpaces(s[1..]) else s
  }

  /** pytest's "E   " margin. */
  function DropMargin(line: string): string {
    if |line| >= 2 && line[0] == 'E' && IsSpace(line[1]) then DropSpaces(line[1..]) else line
  }

  /** The body of a receipt line, if the whole line is one. */
  function ReceiptBody(texts: Texts, line: string): Option<string> {
    var rest := DropMargin(line);
    var start := texts.assertion + texts.receiptPrefix;
    if |Encoded(line)| > MAX_RECEIPT || !StartsWith(rest, start) || |rest| == |start| then None
    else Some(rest[|start|..])
  }

  predicate OnlySpaces(s: string) {
    forall i :: 0 <= i < |s| ==> IsSpace(s[i])
  }

  lemma {:induction false} DropsSpaces(spaces: string, rest: string)
    requires OnlySpaces(spaces) && (rest == "" || !IsSpace(rest[0]))
    ensures DropSpaces(spaces + rest) == rest
  {
    if spaces == "" {
      assert spaces + rest == rest;
    } else {
      assert (spaces + rest)[1..] == spaces[1..] + rest;
      DropsSpaces(spaces[1..], rest);
    }
  }

  lemma {:induction false} DroppedAreSpaces(s: string) returns (spaces: string)
    ensures OnlySpaces(spaces) && s == spaces + DropSpaces(s)
    ensures s != "" && IsSpace(s[0]) ==> spaces != ""
  {
    if s != "" && IsSpace(s[0]) {
      var rest := DroppedAreSpaces(s[1..]);
      spaces := [s[0]] + rest;
    } else {
      spaces := "";
    }
  }

  /** The whole line: the assertion with the receipt, perhaps after an "E" and white space. */
  ghost predicate IsReceiptLine(start: string, line: string, body: string) {
    line == start + body || exists spaces :: spaces != "" && OnlySpaces(spaces) && line == "E" + spaces + start + body
  }

  lemma {:induction false} MarginDropped(start: string, spaces: string, body: string)
    requires start != "" && start[0] != 'E' && !IsSpace(start[0]) && spaces != "" && OnlySpaces(spaces)
    ensures DropMargin("E" + spaces + start + body) == start + body
  {
    var line := "E" + spaces + start + body;
    assert line[1..] == spaces + (start + body) && line[1] == spaces[0] && (start + body)[0] == start[0];
    DropsSpaces(spaces, start + body);
  }

  /** What is left without the margin starts with `start` exactly in such lines. */
  lemma {:induction false} LineWithoutMargin(start: string, line: string, body: string)
    requires start != "" && start[0] != 'E' && !IsSpace(start[0])
    ensures DropMargin(line) == start + body <==> IsReceiptLine(start, line, body)
  {
    if DropMargin(line) == start + body && DropMargin(line) != line {
      var spaces := DroppedAreSpaces(line[1..]);
      assert line == "E" + line[1..] && line[1..] == spaces + (start + body);
      assert line == "E" + spaces + start + body;
    }
    if line == start + body {
      assert line[0] == start[0];
    } else if IsReceiptLine(start, line, body) {
      var spaces :| spaces != "" && OnlySpaces(spaces) && line == "E" + spaces + start + body;
      MarginDropped(start, spaces, body);
    }
  }

  /** A receipt is found in a line exactly when the line is the assertion with it, within 1024 bytes. */
  lemma {:induction false} ReceiptBodyIsExact(texts: Texts, line: string, body: string)
    requires var start := texts.assertion + texts.receiptPrefix; start != "" && start[0] != 'E' && !IsSpace(start[0])
    ensures ReceiptBody(texts, line) == Some(body) <==>
      && body != "" && |Encoded(line)| <= 1024
      && IsReceiptLine(texts.assertion + texts.receiptPrefix, line, body)
  {
    var start, rest := texts.assertion + texts.receiptPrefix, DropMargin(line);
    LineWithoutMargin(start, line, body);
    assert StartsWith(rest, start) ==> rest == start + rest[|start|..];
    assert (start + body)[|start|..] == body;
  }

  /** Exactly one line mentions the receipt, and all of that line is a receipt. */
  ghost predicate OnlyReceipt(texts: Texts, lines: seq<string>, k: int, body: string) {
    && 0 <= k < |lines| && ReceiptBody(texts, lines[k]) == Some(body) && Contains(lines[k], texts.receiptPrefix)
    && forall i :: 0 <= i < |lines| && i != k ==> !Contains(lines[i], texts.receiptPrefix)
  }

  method FindReceipt(texts: Texts, lines: seq<string>) returns (body: Option<string>)
    ensures forall b :: body == Some(b) <==> exists k :: OnlyReceipt(texts, lines, k, b)
  {
    var records: seq<string> := [];
    ghost var at := 0;
    for i := 0 to |lines|
      invariant records == [] ==> forall k :: 0 <= k < i ==> !Contains(lines[k], texts.receiptPrefix)
      invariant |records| == 1 ==> at < i && OnlyReceipt(texts, lines[..i], at, records[0])
      invariant |records| >= 2 ==>
        exists j, k :: 0 <= j < k < i && Contains(lines[j], texts.receiptPrefix)
          && Contains(lines[k], texts.receiptPrefix)
    {
      if Contains(lines[i], texts.receiptPrefix) {
        var found := ReceiptBody(texts, lines[i]);
        if found.None? { return None; }
        if records == [] {
          at := i;
          assert lines[..i + 1][i] == lines[i];
        }
        records := records + [found.value];
      }
    }
    if |records| != 1 { return None; }
    body := Some(records[0]);
    assert OnlyReceipt(texts, lines, at, records[0]);
  }

  // ---- the whole of it ----

  /** No frame from line `from` up to line `to` has a number that the file can have. */
  ghost predicate NoFrame(texts: Texts, lines: seq<string>, from: int, to: int) {
    forall i :: 0 <= i < |lines| && from <= i < to && texts.frame(lines[i]).Some? ==>
      texts.frame(lines[i]).value > 1_484
  }

  ghost predicate LastFrame(texts: Texts, lines: seq<string>, k: int, to: int, n: nat) {
    0 <= k < |lines| && k < to && texts.frame(lines[k]) == Some(n) && NoFrame(texts, lines, k + 1, to)
  }

  /** The last stack frame of the test's own file with a line number that the file can have. */
  method FailureSource(texts: Texts, lines: seq<string>) returns (source: Option<nat>)
    ensures source.Some? ==>
      source.value <= MAX_SOURCE_LINE && exists k :: LastFrame(texts, lines, k, |lines|, source.value)
    ensures source.None? ==> NoFrame(texts, lines, 0, |lines|)
  {
    source := None;
    ghost var at := 0;
    for k := 0 to |lines|
      invariant source.Some? ==> source.value <= MAX_SOURCE_LINE && LastFrame(texts, lines, at, k, source.value)
      invariant source.None? ==> NoFrame(texts, lines, 0, k)
    {
      var line := texts.frame(lines[k]);
      if line.Some? && line.value <= MAX_SOURCE_LINE {
        source := line;
        at := k;
      }
    }
  }

  datatype HistoryLine =
    | PhaseUnavailable
    | PhaseAvailable(record: HistoryPhases.Record)
    | ProviderUnavailable
    | ProviderAvailable(receipt: ProviderReceipts.Receipt)
    | SourceUnavailable
    | SourceAt(line: nat)

  /** Only values of valid records, of consistent receipts and of possible lines are ever told. */
  ghost predicate ClosedHistory(texts: Texts, l: HistoryLine) {
    match l
    case PhaseAvailable(r) => HistoryPhases.Valid(texts.schema, r)
    case ProviderAvailable(r) => ProviderReceipts.Valid(texts.vocabulary, r)
    case SourceAt(n) => n <= 1_484
    case _ => true
  }

  /** The line tells the one record that the output mentions, if it is a canonical print of a valid one. */
  ghost predicate TellsPhase(texts: Texts, stdout: seq<string>, line: HistoryLine)
    requires texts.failurePrefix != ""
  {
    && (line.PhaseUnavailable? || line.PhaseAvailable?)
    && forall r :: line == PhaseAvailable(r) <==>
      exists k :: OnlyMention(stdout, texts.failurePrefix, k) && Reads(texts, stdout[k], r)
  }

  lemma ToldPhaseIsClosed(texts: Texts, stdout: seq<string>, line: HistoryLine)
    requires texts.failurePrefix != "" && HistoryPhases.WellFormed(texts.schema) && TellsPhase(texts, stdout, line)
    ensures ClosedHistory(texts, line)
  {
    if line.PhaseAvailable? {
      var k :| OnlyMention(stdout, texts.failurePrefix, k) && Reads(texts, stdout[k], line.record);
      HistoryPhases.GateIsExact(texts.schema, Payload(texts.failurePrefix, stdout[k]).value, line.record);
    }
  }

  ghost predicate TellsReceipt(texts: Texts, lines: seq<string>, line: HistoryLine)
    requires ProviderReceipts.WellFormed(texts.vocabulary)
  {
    && (line.ProviderUnavailable? || line.ProviderAvailable?)
    && forall r :: line == ProviderAvailable(r) <==> ReceiptTold(texts, lines, r)
  }

  ghost predicate ReceiptTold(texts: Texts, lines: seq<string>, r: ProviderReceipts.Receipt)
    requires ProviderReceipts.WellFormed(texts.vocabulary)
  {
    ProviderReceipts.Valid(texts.vocabulary, r) && exists k ::
      OnlyReceipt(texts, lines, k, ProviderReceipts.Print(texts.vocabulary, r))
  }

  /** The failed cases of the history test itself, by its full name. */
  function FailedHistoryCases(cases: seq<Element>, name: string): (r: seq<Element>)
    ensures forall e :: e in r <==> e in cases && Get(e, "name", "") == name && (Has(e, "error") || Has(e, "failure"))
  {
    if cases == [] then []
    else
      var rest := FailedHistoryCases(cases[1..], name);
      if Get(cases[0], "name", "") == name
        && (Has(cases[0], "error") || Has(cases[0], "failure")) then [cases[0]] + rest else rest
  }

  /** The failed cases of the test are those of exactly its name with an error or a failure below them. */
  lemma {:induction false} FailedCasesAre(cases: seq<Element>, name: string, e: Element)
    requires name != ""
    ensures e in FailedHistoryCases(cases, name) <==>
      && e in cases && "name" in e.attrib && e.attrib["name"] == name
      && (HasChild(e, "error") || HasChild(e, "failure"))
  {
    if cases != [] {
      ChildrenOf(cases[0], "error");
      ChildrenOf(cases[0], "failure");
      FailedCasesAre(cases[1..], name, e);
    }
  }

  /** The line tells the last frame with a line number that the file can have, if there is one. */
  ghost predicate TellsSource(texts: Texts, lines: seq<string>, line: HistoryLine) {
    match line
    case SourceAt(n) => n <= MAX_SOURCE_LINE && exists k :: LastFrame(texts, lines, k, |lines|, n)
    case SourceUnavailable => NoFrame(texts, lines, 0, |lines|)
    case _ => false
  }

  /** What is told about the history test: nothing unless it failed, and if it failed once what its texts say. */
  ghost predicate HistoryTold(texts: Texts, cases: seq<Element>, stdout: seq<string>, detail: Element -> seq<string>,
                              lines: seq<HistoryLine>)
    requires texts.failurePrefix != "" && ProviderReceipts.WellFormed(texts.vocabulary)
  {
    var failed := FailedHistoryCases(cases, texts.historyTest);
    if failed == [] then lines == []
    else if |failed| > 1 then lines == [PhaseUnavailable, ProviderUnavailable, SourceUnavailable]
    else
      && |lines| == 3 && TellsPhase(texts, stdout, lines[0])
      && TellsReceipt(texts, detail(failed[0]), lines[1]) && TellsSource(texts, detail(failed[0]), lines[2])
  }

  /**
   `_history_diagnostics`: silent unless the test failed, and then it only ever tells what the two
   gates let through. `detail` is the text of a case's error or failure.
   */
  method HistoryLines(texts: Texts, cases: seq<Element>, stdout: seq<string>, detail: Element -> seq<string>)
          returns (lines: seq<HistoryLine>)
    requires texts.failurePrefix != "" && HistoryPhases.WellFormed(texts.schema)
    requires ProviderReceipts.WellFormed(texts.vocabulary)
    ensures forall i :: 0 <= i < |lines| ==> ClosedHistory(texts, lines[i])
    ensures HistoryTold(texts, cases, stdout, detail, lines)
  {
    var failed := FailedHistoryCases(cases, texts.historyTest);
    if failed == [] { return []; }
    if |failed| != 1 { return [PhaseUnavailable, ProviderUnavailable, SourceUnavailable]; }
    var record := PhaseDiagnostic(texts, stdout);
    var phase := if record.None? then PhaseUnavailable else PhaseAvailable(record.value);
    ToldPhaseIsClosed(texts, stdout, phase);
    var provider := ProviderDiagnostic(texts, detail(failed[0]));
    var source := FailureSource(texts, detail(failed[0]));
    lines := [phase, provider, if source.None? then SourceUnavailable else SourceAt(source.value)];
  }

  method ProviderDiagnostic(texts: Texts, lines: seq<string>) returns (line: HistoryLine)
    requires ProviderReceipts.WellFormed(texts.vocabulary)
    ensures TellsReceipt(texts, lines, line)
  {
    var body := FindReceipt(texts, lines);
    if body.None? { return ProviderUnavailable; }
    var receipt, _ := ProviderReceipts.ReadReceipt(texts.vocabulary, body.value);
    line := if receipt.None? then ProviderUnavailable else ProviderAvailable(receipt.value);
  }

  // ---- everything that a failed run prints ----

  datatype SummaryLine = AboutReport(report: Line) | AboutHistory(history: HistoryLine)

  function Joined(a: seq<Line>, b: seq<HistoryLine>): (r: seq<SummaryLine>)
    ensures |r| == |a| + |b|
    ensures forall i :: 0 <= i < |a| ==> r[i] == AboutReport(a[i])
    ensures forall i :: 0 <= i < |b| ==> r[|a| + i] == AboutHistory(b[i])
  {
    seq(|a|, i requires 0 <= i < |a| => AboutReport(a[i])) + seq(|b|, i requires 0 <= i < |b| => AboutHistory(b[i]))
  }

  /** Nothing but fixed words, the mandatory tests' names and values that a gate let through. */
  ghost predicate ClosedSummary(texts: Texts, mandatory: seq<string>, line: SummaryLine) {
    match line
    case AboutReport(l) => Closed(l, mandatory)
    case AboutHistory(l) => ClosedHistory(texts, l)
  }

  /** What the whole summary says: of the harness and the report, and then of the history test if the report is told. */
  ghost predicate SummaryTold(texts: Texts, file: ReportFile, returncode: Option<int>, stdout: seq<string>,
                              mandatory: seq<string>, detail: Element -> seq<string>,
                              report: seq<Line>, history: seq<HistoryLine>)
    requires texts.failurePrefix != "" && ProviderReceipts.WellFormed(texts.vocabulary)
  {
    && Printed(report, file, returncode, mandatory)
    && (if Told(file) then HistoryTold(texts, Iter(file.tree.value, "testcase"), stdout, detail, history)
        else history == [])
  }

  /** `_runtime_failure_summary` */
  method CompleteSummary(texts: Texts, file: ReportFile, returncode: Option<int>, stdout: seq<string>,
                         mandatory: seq<string>, detail: Element -> seq<string>)
          returns (lines: seq<SummaryLine>, ghost report: seq<Line>, ghost history: seq<HistoryLine>)
    requires texts.failurePrefix != "" && HistoryPhases.WellFormed(texts.schema)
    requires ProviderReceipts.WellFormed(texts.vocabulary)
    ensures lines == Joined(report, history)
    ensures SummaryTold(texts, file, returncode, stdout, mandatory, detail, report, history)
    ensures forall i :: 0 <= i < |lines| ==> ClosedSummary(texts, mandatory, lines[i])
  {
    var first := FailureSummary(file, returncode, mandatory);
    var last: seq<HistoryLine> := [];
    if Told(file) {
      last := HistoryLines(texts, Iter(file.tree.value, "testcase"), stdout, detail);
    }
    lines, report, history := Joined(first, last), first, last;
    forall i | 0 <= i < |lines| ensures ClosedSummary(texts, mandatory, lines[i]) {
      if |first| <= i { assert lines[|first| + (i - |first|)] == AboutHistory(last[i - |first|]); }
    }
  }

  /** The history test is told about only if one of its cases did not pass. */
  lemma NoFailedCase(cases: seq<Element>, name: string)
    requires JunitReports.AllPassed(cases)
    ensures FailedHistoryCases(cases, name) == []
  {
    var failed := FailedHistoryCases(cases, name);
    if failed != [] {
      AnyFailed(cases, name, failed[0]);
    }
  }

  lemma AnyFailed(cases: seq<Element>, name: string, e: Element)
    requires e in FailedHistoryCases(cases, name)
    ensures e in cases && CaseStatus(e) != Passed
  {
  }

  /**
   The whole output for a report that validation accepts: nothing about the history test, and every mandatory
   test as passed if and only if the report is one that the summary reads.
   */
  lemma AcceptedSummary(texts: Texts, file: ReportFile, returncode: Option<int>, stdout: seq<string>,
                        mandatory: seq<string>, detail: Element -> seq<string>, report: seq<Line>,
                        history: seq<HistoryLine>, zeros: set<char>)
    requires texts.failurePrefix != "" && ProviderReceipts.WellFormed(texts.vocabulary) && mandatory != []
    requires SummaryTold(texts, file, returncode, stdout, mandatory, detail, report, history)
    requires file.tree.Some? && Accepted(file.tree.value, mandatory, zeros)
    ensures history == []
    ensures (forall n :: n in mandatory ==> AboutReport(CaseLine(n, Passed)) in Joined(report, history)) <==> Told(file)
  {
    NoFailedCase(Iter(file.tree.value, "testcase"), texts.historyTest);
    AcceptedIsPrinted(report, file, returncode, mandatory, zeros);
    forall l: Line ensures AboutReport(l) in Joined(report, history) <==> l in report {
      JoinedHas(report, history, l);
    }
  }

  lemma JoinedHas(a: seq<Line>, b: seq<HistoryLine>, l: Line)
    ensures AboutReport(l) in Joined(a, b) <==> l in a
  {
    if l in a {
      var i :| 0 <= i < |a| && a[i] == l;
      assert Joined(a, b)[i] == AboutReport(l);
    }
    if AboutReport(l) in Joined(a, b) {
      var i :| 0 <= i < |Joined(a, b)| && Joined(a, b)[i] == AboutReport(l);
      assert |a| <= i ==> Joined(a, b)[|a| + (i - |a|)] == AboutHistory(b[i - |a|]);
    }
  }
}
