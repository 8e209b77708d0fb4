/**
 `_history_provider_diagnostic`: the receipt that the history test prints about its provider is accepted
 exactly when it is the print of a consistent record.
 */
module ProviderReceipts {
  import opened Wrappers
  import Decimals
  import opened Splitting

  /** The words of a receipt. None of them holds a space, and no field an equals sign. */
  datatype Vocabulary = Vocabulary(
    fields: seq<string>, outcomes: set<string>, report: string, statuses: set<string>, none: string)

  const FIELD_COUNT := 12
  const MAX_READS := 6_000
  const MAX_PAGES := 16
  const MAX_WITNESSES := 2
  const MAX_DURATION := 1_200_000

  predicate Word(s: string) {
    s != "" && Without(s, ' ')
  }

  ghost predicate WellFormed(v: Vocabulary) {
    && |v.fields| == FIELD_COUNT
    && (forall i :: 0 <= i < |v.fields| ==> Word(v.fields[i]) && Without(v.fields[i], '='))
    && v.report in v.outcomes && (forall o :: o in v.outcomes ==> Word(o))
    && v.none !in v.statuses && Word(v.none) && (forall s :: s in v.statuses ==> Word(s))
  }

  datatype Traversal = Traversal(status: string, terminalWitnesses: nat, unavailableReads: nat)

  datatype Counts = Counts(
    elapsed: nat, attemptedReads: nat, returnedReads: nat, attemptedPages: nat, returnedPages: nat,
    expectedReads: nat, locatorMatches: nat, exactMatches: nat)

  /** A traversal is there exactly when the provider returned a report. */
  datatype Receipt = Receipt(outcome: string, counts: Counts, traversal: Option<Traversal>)

  predicate ValidCounts(c: Counts) {
    && c.elapsed <= 1_200_000
    && c.returnedReads <= c.attemptedReads <= 6_000
    && c.returnedPages <= c.attemptedPages <= 16
    && c.expectedReads <= 6_000
    && c.exactMatches <= c.locatorMatches
    && c.locatorMatches <= c.returnedReads && c.locatorMatches <= c.expectedReads
  }

  predicate Valid(v: Vocabulary, r: Receipt) {
    && r.outcome in v.outcomes && ValidCounts(r.counts)
    && (r.traversal.Some? <==> r.outcome == v.report)
    && (r.traversal.Some? ==>
          && r.traversal.value.status in v.statuses
          && r.traversal.value.terminalWitnesses <= 2
          && r.traversal.value.unavailableReads <= 6_000)
  }

  // ---- printing ----

  function CountValues(c: Counts): seq<string> {
    [Decimals.Print(c.elapsed), Decimals.Print(c.attemptedReads), Decimals.Print(c.returnedReads),
     Decimals.Print(c.attemptedPages), Decimals.Print(c.returnedPages), Decimals.Print(c.expectedReads),
     Decimals.Print(c.locatorMatches), Decimals.Print(c.exactMatches)]
  }

  function TraversalValues(v: Vocabulary, t: Option<Traversal>): seq<string> {
    if t.None? then [v.none, v.none]
    else [Decimals.Print(t.value.terminalWitnesses), Decimals.Print(t.value.unavailableReads)]
  }

  function Values(v: Vocabulary, r: Receipt): seq<string> {
    [r.outcome, if r.traversal.None? then v.none else r.traversal.value.status] + CountValues(r.counts)
      + TraversalValues(v, r.traversal)
  }

  function Assignments(fields: seq<string>, values: seq<string>): (r: seq<string>)
    requires |fields| == |values|
    ensures |r| == |fields|
    ensures forall i :: 0 <= i < |r| ==> r[i] == fields[i] + ['='] + values[i]
  {
    seq(|fields|, i requires 0 <= i < |fields| => fields[i] + ['='] + values[i])
  }

  function Print(v: Vocabulary, r: Receipt): string
    requires |v.fields| == FIELD_COUNT
  {
    Join(Assignments(v.fields, Values(v, r)), ' ')
  }

  // ---- reading ----

  /** The value of `part` if it assigns one to `field`. */
  function ValueOf(field: string, part: string): (r: Option<string>)
    ensures r.Some? ==> r.value != "" && part == field + ['='] + r.value
  {
    var key := Before(part, '=');
    if key != field || |key| == |part| then None
    else
      var value := part[|key| + 1..];
      assert part == key + ['='] + value;
      if value == "" then None else Some(value)
  }

  /** The values of all fields, in order. */
  method ReadValues(v: Vocabulary, body: string) returns (values: Option<seq<string>>)
    requires WellFormed(v)
    ensures forall vs :: values == Some(vs) <==> AreValues(v, body, vs)
  {
    var parts := Split(body, ' ');
    JoinOfSplit(body, ' ');
    if |parts| != |v.fields| {
      forall vs ensures !AreValues(v, body, vs) {
        if AreValues(v, body, vs) { PartsOfValues(v, body, vs); }
      }
      return None;
    }
    var found: seq<string> := [];
    for i := 0 to |parts|
      invariant |found| == i
      invariant forall k :: 0 <= k < i ==> ValueOf(v.fields[k], parts[k]) == Some(found[k])
    {
      var value := ValueOf(v.fields[i], parts[i]);
      if value.None? {
        forall vs ensures !AreValues(v, body, vs) {
          if AreValues(v, body, vs) { PartsOfValues(v, body, vs); }
        }
        return None;
      }
      found := found + [value.value];
    }
    ReadAreValues(v, body, found);
    forall vs | AreValues(v, body, vs) ensures vs == found {
      PartsOfValues(v, body, vs);
    }
    return Some(found);
  }

  /** `body` assigns these non-empty words to the fields, separated by single spaces. */
  ghost predicate AreValues(v: Vocabulary, body: string, values: seq<string>) {
    && |values| == |v.fields|
    && (forall i :: 0 <= i < |values| ==> Word(values[i]))
    && body == Join(Assignments(v.fields, values), ' ')
  }

  lemma PartsOfValues(v: Vocabulary, body: string, values: seq<string>)
    requires WellFormed(v) && AreValues(v, body, values)
    ensures Split(body, ' ') == Assignments(v.fields, values)
    ensures forall i :: 0 <= i < |values| ==> ValueOf(v.fields[i], Split(body, ' ')[i]) == Some(values[i])
  {
    var parts := Assignments(v.fields, values);
    SplitOfJoin(parts, ' ');
    forall i | 0 <= i < |values| ensures ValueOf(v.fields[i], parts[i]) == Some(values[i]) {
      BeforeUnique(v.fields[i], '=', values[i]);
    }
  }

  lemma ReadAreValues(v: Vocabulary, body: string, values: seq<string>)
    requires WellFormed(v) && |Split(body, ' ')| == |v.fields| == |values|
    requires forall i :: 0 <= i < |values| ==> ValueOf(v.fields[i], Split(body, ' ')[i]) == Some(values[i])
    ensures AreValues(v, body, values)
  {
    var parts := Split(body, ' ');
    JoinOfSplit(body, ' ');
    assert parts == Assignments(v.fields, values);
    forall i | 0 <= i < |values| ensures Word(values[i]) {
      ValueIsWord(v.fields[i], parts[i]);
    }
  }

  lemma ValueIsWord(field: string, part: string)
    requires Without(part, ' ') && ValueOf(field, part).Some?
    ensures Word(ValueOf(field, part).value)
  {
    var value := ValueOf(field, part).value;
    assert forall k :: 0 <= k < |value| ==> value[k] == part[|field| + 1 + k];
  }

  // ---- decimals ----

  /** `decimal(field, maximum)` */
  function Decimal(value: string, maximum: nat): Option<nat> {
    if |value| > 7 || !Decimals.Canonical(value) then None
    else if Decimals.Value(value) > maximum then None
    else Some(Decimals.Value(value))
  }

  /** The decimal check accepts exactly the canonical prints of 0..maximum. */
  lemma DecimalIsExact(value: string, maximum: nat, n: nat)
    requires maximum < 10_000_000
    ensures Decimal(value, maximum) == Some(n) <==> n <= maximum && value == Decimals.Print(n)
  {
    Decimals.ValueOfPrint(n);
    if Decimals.Canonical(value) {
      Decimals.PrintOfValue(value);
    }
    if n <= maximum {
      assert Decimals.Power(7) == 10_000_000;
      Decimals.FewDigits(n, 7);
    }
  }

  // ---- from values to a record ----

  function ReadCounts(values: seq<string>): Option<Counts>
    requires |values| == 8
  {
    var elapsed := Decimal(values[0], MAX_DURATION);
    var attemptedReads, returnedReads := Decimal(values[1], MAX_READS), Decimal(values[2], MAX_READS);
    var attemptedPages, returnedPages := Decimal(values[3], MAX_PAGES), Decimal(values[4], MAX_PAGES);
    var expected, locator, exact :=
      Decimal(values[5], MAX_READS), Decimal(values[6], MAX_READS), Decimal(values[7], MAX_READS);
    if elapsed.None? || attemptedReads.None? || returnedReads.None? || attemptedPages.None?
      || returnedPages.None? then None
    else if expected.None? || locator.None? || exact.None? then None
    else if returnedReads.value > attemptedReads.value || returnedPages.value > attemptedPages.value then None
    else if locator.value > returnedReads.value || locator.value > expected.value
      || exact.value > locator.value then None
    else Some(Counts(elapsed.value, attemptedReads.value, returnedReads.value, attemptedPages.value,
                     returnedPages.value, expected.value, locator.value, exact.value))
  }

  function ReadTraversal(v: Vocabulary, outcome: string, status: string, values: seq<string>): Option<Option<Traversal>>
    requires |values| == 2
  {
    if status == v.none then
      if outcome == v.report || values[0] != v.none || values[1] != v.none then None else Some(None)
    else if outcome != v.report || status !in v.statuses then None
    else
      var witnesses, unavailable := Decimal(values[0], MAX_WITNESSES), Decimal(values[1], MAX_READS);
      if witnesses.None? || unavailable.None? then None
      else Some(Some(Traversal(status, witnesses.value, unavailable.value)))
  }

  function Interpret(v: Vocabulary, values: seq<string>): Option<Receipt>
    requires |values| == FIELD_COUNT
  {
    if values[0] !in v.outcomes then None
    else
      var counts := ReadCounts(values[2..10]);
      var traversal := ReadTraversal(v, values[0], values[1], values[10..]);
      if counts.None? || traversal.None? then None else Some(Receipt(values[0], counts.value, traversal.value))
  }

  lemma DecimalsAreExact(values: seq<string>, c: Counts)
    requires |values| == 8
    ensures (Decimal(values[0], MAX_DURATION) == Some(c.elapsed)) <==>
      c.elapsed <= MAX_DURATION && values[0] == CountValues(c)[0]
    ensures (Decimal(values[1], MAX_READS) == Some(c.attemptedReads)) <==>
      c.attemptedReads <= MAX_READS && values[1] == CountValues(c)[1]
    ensures (Decimal(values[2], MAX_READS) == Some(c.returnedReads)) <==>
      c.returnedReads <= MAX_READS && values[2] == CountValues(c)[2]
    ensures (Decimal(values[3], MAX_PAGES) == Some(c.attemptedPages)) <==>
      c.attemptedPages <= MAX_PAGES && values[3] == CountValues(c)[3]
    ensures (Decimal(values[4], MAX_PAGES) == Some(c.returnedPages)) <==>
      c.returnedPages <= MAX_PAGES && values[4] == CountValues(c)[4]
    ensures (Decimal(values[5], MAX_READS) == Some(c.expectedReads)) <==>
      c.expectedReads <= MAX_READS && values[5] == CountValues(c)[5]
    ensures (Decimal(values[6], MAX_READS) == Some(c.locatorMatches)) <==>
      c.locatorMatches <= MAX_READS && values[6] == CountValues(c)[6]
    ensures (Decimal(values[7], MAX_READS) == Some(c.exactMatches)) <==>
      c.exactMatches <= MAX_READS && values[7] == CountValues(c)[7]
  {
    DecimalIsExact(values[0], MAX_DURATION, c.elapsed);
    DecimalIsExact(values[1], MAX_READS, c.attemptedReads);
    DecimalIsExact(values[2], MAX_READS, c.returnedReads);
    DecimalIsExact(values[3], MAX_PAGES, c.attemptedPages);
    DecimalIsExact(values[4], MAX_PAGES, c.returnedPages);
    DecimalIsExact(values[5], MAX_READS, c.expectedReads);
    DecimalIsExact(values[6], MAX_READS, c.locatorMatches);
    DecimalIsExact(values[7], MAX_READS, c.exactMatches);
  }

  lemma CountsAreExact(values: seq<string>, c: Counts)
    requires |values| == 8
    ensures ReadCounts(values) == Some(c) <==> ValidCounts(c) && values == CountValues(c)
  {
    DecimalsAreExact(values, c);
  }

  /** Numerals are words, and not the word for a missing traversal unless that is one. */
  lemma TraversalIsExact(v: Vocabulary, outcome: string, status: string, values: seq<string>, t: Option<Traversal>)
    requires WellFormed(v) && |values| == 2
    ensures ReadTraversal(v, outcome, status, values) == Some(t) <==>
      && (t.Some? <==> outcome == v.report)
      && (t.Some? ==>
            && t.value.status in v.statuses && t.value.terminalWitnesses <= MAX_WITNESSES
            && t.value.unavailableReads <= MAX_READS)
      && status == (if t.None? then v.none else t.value.status) && values == TraversalValues(v, t)
  {
    if t.Some? {
      DecimalIsExact(values[0], MAX_WITNESSES, t.value.terminalWitnesses);
      DecimalIsExact(values[1], MAX_READS, t.value.unavailableReads);
    }
  }

  lemma InterpretIsExact(v: Vocabulary, values: seq<string>, r: Receipt)
    requires WellFormed(v) && |values| == FIELD_COUNT
    ensures Interpret(v, values) == Some(r) <==> Valid(v, r) && values == Values(v, r)
  {
    CountsAreExact(values[2..10], r.counts);
    TraversalIsExact(v, values[0], values[1], values[10..], r.traversal);
    var start := [values[0], values[1]];
    assert values == start + values[2..10] + values[10..];
    ValuesApart(v, r);
  }

  lemma ValuesApart(v: Vocabulary, r: Receipt)
    ensures var vs := Values(v, r);
            && |vs| == FIELD_COUNT && vs[0] == r.outcome
              && vs[1] == (if r.traversal.None? then v.none else r.traversal.value.status)
            && vs[2..10] == CountValues(r.counts) && vs[10..] == TraversalValues(v, r.traversal)
  {
  }

  lemma ValuesAreWords(v: Vocabulary, r: Receipt)
    requires WellFormed(v) && Valid(v, r)
    ensures forall i :: 0 <= i < |Values(v, r)| ==> Word(Values(v, r)[i])
  {
    ValuesApart(v, r);
    forall n: nat ensures Word(Decimals.Print(n)) {
    }
    assert forall i :: 2 <= i < 10 ==> Values(v, r)[i] == CountValues(r.counts)[i - 2];
    assert forall i :: 10 <= i < 12 ==> Values(v, r)[i] == TraversalValues(v, r.traversal)[i - 10];
  }

  // ---- the gate ----

  lemma PrintedValues(v: Vocabulary, r: Receipt)
    requires WellFormed(v) && Valid(v, r)
    ensures AreValues(v, Print(v, r), Values(v, r))
  {
    ValuesAreWords(v, r);
  }

  /** No values, no receipt. */
  lemma NoReceipt(v: Vocabulary, body: string, r: Receipt)
    requires WellFormed(v) && forall vs :: !AreValues(v, body, vs)
    ensures !(Valid(v, r) && body == Print(v, r))
  {
    if Valid(v, r) {
      PrintedValues(v, r);
    }
  }

  lemma OneReceipt(v: Vocabulary, body: string, values: seq<string>, r: Receipt)
    requires WellFormed(v) && AreValues(v, body, values)
    requires forall vs :: AreValues(v, body, vs) ==> vs == values
    ensures Interpret(v, values) == Some(r) <==> Valid(v, r) && body == Print(v, r)
  {
    InterpretIsExact(v, values, r);
    if Valid(v, r) {
      PrintedValues(v, r);
    }
  }

  /** The reader accepts exactly the printed receipts, and reads back what was printed. */
  method ReadReceipt(v: Vocabulary, body: string) returns (r: Option<Receipt>, values: seq<string>)
    requires WellFormed(v)
    ensures forall q :: r == Some(q) <==> Valid(v, q) && body == Print(v, q)
    ensures r.Some? ==> values == Values(v, r.value)
  {
    var read := ReadValues(v, body);
    if read.None? {
      forall q ensures !(Valid(v, q) && body == Print(v, q)) { NoReceipt(v, body, q); }
      return None, [];
    }
    values := read.value;
    r := Interpret(v, values);
    forall q ensures r == Some(q) <==> Valid(v, q) && body == Print(v, q) { OneReceipt(v, body, values, q); }
    if r.Some? { InterpretIsExact(v, values, r.value); }
  }

  /** The printed values, and so the emitted lines, determine the receipt. */
  lemma ValuesAreInjective(v: Vocabulary, r: Receipt, q: Receipt)
    requires WellFormed(v) && Valid(v, r) && Valid(v, q)
    requires Values(v, r) == Values(v, q)
    ensures r == q
  {
    InterpretIsExact(v, Values(v, r), r);
    InterpretIsExact(v, Values(v, r), q);
  }
}
