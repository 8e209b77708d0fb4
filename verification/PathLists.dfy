/** `read_lists`: the strict reader of the file that names the CI path lists. */
module PathLists {
  import opened Wrappers
  import opened Splitting
  import opened Strings
  import Folding

  datatype Entry = Entry(key: string, items: seq<string>)

  // ---- str.strip ----

  function RStrip(s: string): string {
    if s == "" || !IsSpace(s[|s| - 1]) then s else RStrip(s[..|s| - 1])
  }

  function LStrip(s: string): string {
    if s == "" || !IsSpace(s[0]) then s else LStrip(s[1..])
  }

  function Strip(s: string): (r: string) {
    LStrip(RStrip(s))
  }

  /** Neither end is white space. */
  predicate Bare(s: string) {
    s != "" ==> !IsSpace(s[0]) && !IsSpace(s[|s| - 1])
  }

  lemma {:induction false} RStripIsPrefix(s: string)
    ensures RStrip(s) <= s
    ensures RStrip(s) != "" ==> !IsSpace(RStrip(s)[|RStrip(s)| - 1])
  {
    if s != "" && IsSpace(s[|s| - 1]) {
      RStripIsPrefix(s[..|s| - 1]);
    }
  }

  lemma {:induction false} LStripIsSuffix(s: string)
    ensures |LStrip(s)| <= |s| && LStrip(s) == s[|s| - |LStrip(s)|..]
    ensures LStrip(s) != "" ==> !IsSpace(LStrip(s)[0])
  {
    if s != "" && IsSpace(s[0]) {
      LStripIsSuffix(s[1..]);
    }
  }

  lemma StripIsBare(s: string)
    ensures Bare(Strip(s))
    ensures forall c :: Without(s, c) ==> Without(Strip(s), c)
  {
    var r := RStrip(s);
    RStripIsPrefix(s);
    LStripIsSuffix(r);
    var l := LStrip(r);
    if l != "" {
      assert l[|l| - 1] == r[|r| - 1];
    }
  }

  lemma StripOfBare(s: string)
    requires Bare(s)
    ensures Strip(s) == s
  {
  }

  // ---- one line ----

  /** What is left of a line without its comment and its trailing white space. */
  function Meaning(raw: string): string {
    RStrip(Before(raw, '#'))
  }

  predicate Blank(raw: string) {
    Strip(Meaning(raw)) == ""
  }

  /** "- " */
  predicate Dashed(s: string) {
    |s| >= 2 && s[0] == '-' && s[1] == ' '
  }

  /** "- " or "  - " */
  predicate IsItem(line: string) {
    Dashed(line) || (|line| >= 4 && line[0] == ' ' && line[1] == ' ' && Dashed(line[2..]))
  }

  predicate IsKey(line: string) {
    line != "" && line[|line| - 1] == ':' && line[0] != ' '
  }

  function ItemOf(line: string): string
    requires IsItem(line)
  {
    var s := Strip(line);
    if |s| < 2 then "" else Strip(s[2..])
  }

  function KeyOf(line: string): string
    requires IsKey(line)
  {
    Strip(line[..|line| - 1])
  }

  // ---- the forms of a line ----

  lemma {:induction false} RStripOfSum(a: string, b: string)
    ensures RStrip(a + b) == if RStrip(b) == "" then RStrip(a) else a + RStrip(b)
    decreases |b|
  {
    if b == "" {
      assert a + b == a;
    } else {
      assert (a + b)[..|a + b| - 1] == a + b[..|b| - 1];
      if IsSpace(b[|b| - 1]) {
        RStripOfSum(a, b[..|b| - 1]);
      }
    }
  }

  lemma {:induction false} LStripOfSum(a: string, b: string)
    requires (forall i :: 0 <= i < |a| ==> a[i] == ' ') && b != "" && !IsSpace(b[0])
    ensures LStrip(a + b) == b
  {
    if a == "" {
      assert a + b == b;
    } else {
      assert (a + b)[1..] == a[1..] + b;
      LStripOfSum(a[1..], b);
    }
  }

  lemma {:induction false} RStripTwice(s: string)
    ensures RStrip(RStrip(s)) == RStrip(s)
  {
    RStripIsPrefix(s);
  }

  /** After the dash and the space, the item is what follows, stripped. */
  lemma {:induction false} ItemAfter(margin: string, rest: string)
    requires forall i :: 0 <= i < |margin| ==> margin[i] == ' '
    ensures var s := Strip(margin + ['-'] + ([' '] + rest));
      (if |s| < 2 then "" else Strip(s[2..])) == Strip(rest)
  {
    var start, tail := margin + ['-'], [' '] + rest;
    RStripOfSum(start, tail);
    RStripOfSum([' '], rest);
    assert RStrip([' ']) == "" && RStrip(start) == start;
    if RStrip(rest) == "" {
      LStripOfSum(margin, ['-']);
    } else {
      DashDropped(margin, RStrip(rest));
      RStripTwice(rest);
    }
  }

  lemma {:induction false} DashDropped(margin: string, item: string)
    requires forall i :: 0 <= i < |margin| ==> margin[i] == ' '
    ensures var s := LStrip(margin + ['-'] + ([' '] + item)); |s| >= 2 && s[2..] == item
  {
    var s := ['-'] + ([' '] + item);
    LStripOfSum(margin, s);
    assert margin + ['-'] + ([' '] + item) == margin + s;
  }

  /** An item starts with a dash and a space, perhaps indented by two spaces; it is what follows, stripped. */
  lemma {:induction false} ItemIs(rest: string)
    ensures IsItem("- " + rest) && ItemOf("- " + rest) == Strip(rest)
    ensures IsItem("  - " + rest) && ItemOf("  - " + rest) == Strip(rest)
  {
    assert ("  - " + rest)[2..] == "- " + rest;
    ItemAfter("", rest);
    ItemAfter("  ", rest);
    assert "" + ['-'] + ([' '] + rest) == "- " + rest;
    assert "  " + ['-'] + ([' '] + rest) == "  - " + rest;
  }

  /** No other line is an item. */
  lemma ItemsAre(line: string)
    requires IsItem(line)
    ensures exists rest :: line == "- " + rest || line == "  - " + rest
  {
    if Dashed(line) {
      assert line == "- " + line[2..];
    } else {
      assert line == "  - " + line[4..];
    }
  }

  /** A key is anything before a colon at the end of a line that is not indented. */
  lemma KeyIs(line: string)
    ensures IsKey(line) <==> (exists body :: line == body + ":") && line[0] != ' '
    ensures IsKey(line) ==> forall body :: line == body + ":" ==> KeyOf(line) == Strip(body)
  {
    if line != "" && line[|line| - 1] == ':' {
      assert line == line[..|line| - 1] + ":";
    }
    forall body | line == body + ":" ensures line != "" && line[|line| - 1] == ':' && line[..|line| - 1] == body {
    }
  }

  predicate HasKey(lists: seq<Entry>, key: string) {
    exists i :: 0 <= i < |lists| && lists[i].key == key
  }

  function AddItem(lists: seq<Entry>, item: string): seq<Entry>
    requires lists != []
  {
    var last := |lists| - 1;
    lists[last := Entry(lists[last].key, lists[last].items + [item])]
  }

  /** The lists after one more line that is not blank; items go to the last key. */
  function Step(lists: seq<Entry>, line: string): Outcome<seq<Entry>> {
    if IsItem(line) then
      if lists == [] || ItemOf(line) == "" || ' ' in ItemOf(line) then Raised
      else Ok(AddItem(lists, ItemOf(line)))
    else if IsKey(line) then
      if KeyOf(line) == "" || HasKey(lists, KeyOf(line)) then Raised
      else Ok(lists + [Entry(KeyOf(line), [])])
    else Raised
  }

  // ---- a file ----

  function StepRaw(lists: seq<Entry>, raw: string): Outcome<seq<Entry>> {
    if Blank(raw) then Ok(lists) else Step(lists, Meaning(raw))
  }

  /** The lists after all of the lines. */
  function Run(lines: seq<string>): Outcome<seq<Entry>> {
    Folding.Run(StepRaw, [], lines)
  }

  predicate Complete(lists: seq<Entry>, required: seq<string>) {
    forall k :: k in required ==> exists i :: 0 <= i < |lists| && lists[i].key == k && lists[i].items != []
  }

  lemma CompleteIs(lists: seq<Entry>, required: seq<string>)
    ensures Complete(lists, required) <==>
      forall k :: k in required ==> exists e :: e in lists && e.key == k && e.items != []
  {
    forall e | e in lists ensures exists i :: 0 <= i < |lists| && lists[i] == e {
    }
  }

  function Parse(lines: seq<string>, required: seq<string>): Outcome<seq<Entry>> {
    var lists := Run(lines);
    if lists.Ok? && Complete(lists.value, required) then lists else Raised
  }

  /** The reader stops at the first bad line. */
  method ReadLists(lines: seq<string>, required: seq<string>) returns (r: Outcome<seq<Entry>>)
    ensures r == Parse(lines, required)
  {
    var lists: seq<Entry> := [];
    for i := 0 to |lines|
      invariant Run(lines[..i]) == Ok(lists)
    {
      Folding.NextLine(StepRaw, [], lines, i);
      var next := ReadLine(lists, lines[i]);
      if next.Raised? { return Raised; }
      lists := next.value;
    }
    assert lines[..|lines|] == lines;
    return if Complete(lists, required) then Ok(lists) else Raised;
  }

  method ReadLine(lists: seq<Entry>, raw: string) returns (next: Outcome<seq<Entry>>)
    ensures next == StepRaw(lists, raw)
  {
    var line := Meaning(raw);
    if Strip(line) == "" { return Ok(lists); }
    if IsItem(line) {
      if lists == [] { return Raised; }
      var item := ItemOf(line);
      if item == "" || ' ' in item { return Raised; }
      next := Ok(AddItem(lists, item));
    } else if IsKey(line) {
      var key := KeyOf(line);
      if key == "" || HasKey(lists, key) { return Raised; }
      next := Ok(lists + [Entry(key, [])]);
    } else {
      next := Raised;
    }
  }

  // ---- comments and blank lines ----

  /** A comment at the end of a line says nothing. */
  lemma CommentSaysNothing(raw: string, comment: string)
    ensures Meaning(raw + ['#'] + comment) == Meaning(raw)
  {
    var first := Before(raw, '#');
    if |first| < |raw| {
      var rest := raw[|first| + 1..] + ['#'] + comment;
      BeforeUnique(first, '#', rest);
      assert raw == first + ['#'] + raw[|first| + 1..];
      assert raw + ['#'] + comment == first + ['#'] + rest;
    } else {
      assert first == raw;
      BeforeUnique(raw, '#', comment);
    }
  }

  /** Adding or removing blank and comment lines anywhere changes nothing. */
  lemma BlankLinesSayNothing(a: seq<string>, blank: string, b: seq<string>)
    requires Blank(blank)
    ensures Run(a + [blank] + b) == Run(a + b)
  {
    Folding.WithoutNeutral(StepRaw, [], a, blank, b);
  }

  /** Lines may be rewritten with other comments and trailing white space. */
  lemma {:induction false} OnlyMeaningCounts(a: seq<string>, b: seq<string>)
    requires |a| == |b| && forall i :: 0 <= i < |a| ==> Meaning(a[i]) == Meaning(b[i])
    ensures Run(a) == Run(b)
  {
    if a != [] {
      OnlyMeaningCounts(a[..|a| - 1], b[..|b| - 1]);
      assert Meaning(a[|a| - 1]) == Meaning(b[|b| - 1]);
    }
  }

  // ---- what is accepted ----

  predicate GoodItem(item: string) {
    item != "" && Bare(item) && Without(item, ' ') && Without(item, '#')
  }

  predicate GoodKey(key: string) {
    key != "" && Bare(key) && Without(key, '#')
  }

  predicate WellFormed(lists: seq<Entry>) {
    && (forall i :: 0 <= i < |lists| ==> GoodKey(lists[i].key))
    && (forall i, k :: 0 <= i < |lists| && 0 <= k < |lists[i].items| ==> GoodItem(lists[i].items[k]))
    && (forall i, j :: 0 <= i < j < |lists| ==> lists[i].key != lists[j].key)
  }

  lemma MeaningHasNoComment(raw: string)
    ensures Without(Meaning(raw), '#')
  {
    RStripIsPrefix(Before(raw, '#'));
  }

  lemma ItemIsGood(line: string)
    requires Without(line, '#') && IsItem(line) && ItemOf(line) != "" && ' ' !in ItemOf(line)
    ensures GoodItem(ItemOf(line))
  {
    StripIsBare(line);
    var s := Strip(line);
    assert Without(s[2..], '#');
    StripIsBare(s[2..]);
  }

  lemma KeyIsGood(line: string)
    requires Without(line, '#') && IsKey(line) && KeyOf(line) != ""
    ensures GoodKey(KeyOf(line))
  {
    assert Without(line[..|line| - 1], '#');
    StripIsBare(line[..|line| - 1]);
  }

  lemma AddItemKeeps(lists: seq<Entry>, item: string)
    requires WellFormed(lists) && lists != [] && GoodItem(item)
    ensures WellFormed(AddItem(lists, item))
  {
  }

  lemma StepKeeps(lists: seq<Entry>, line: string)
    requires WellFormed(lists) && Without(line, '#') && Step(lists, line).Ok?
    ensures WellFormed(Step(lists, line).value)
  {
    if IsItem(line) {
      ItemIsGood(line);
      AddItemKeeps(lists, ItemOf(line));
    } else {
      KeyIsGood(line);
      AddKeyKeeps(lists, KeyOf(line));
    }
  }

  lemma AddKeyKeeps(lists: seq<Entry>, key: string)
    requires WellFormed(lists) && GoodKey(key) && !HasKey(lists, key)
    ensures WellFormed(lists + [Entry(key, [])])
  {
  }

  lemma {:induction false} RunKeeps(lines: seq<string>)
    ensures Run(lines).Ok? ==> WellFormed(Run(lines).value)
  {
    if lines != [] && Run(lines[..|lines| - 1]).Ok? {
      var raw, before := lines[|lines| - 1], Run(lines[..|lines| - 1]).value;
      RunKeeps(lines[..|lines| - 1]);
      MeaningHasNoComment(raw);
      if !Blank(raw) && Step(before, Meaning(raw)).Ok? { StepKeeps(before, Meaning(raw)); }
    }
  }

  /** Every accepted file has distinct keys, space-free items and a non-empty list for each required key. */
  lemma AcceptedIsWellFormed(lines: seq<string>, required: seq<string>)
    requires Parse(lines, required).Ok?
    ensures WellFormed(Parse(lines, required).value) && Complete(Parse(lines, required).value, required)
  {
    RunKeeps(lines);
  }

  // ---- rendering ----

  function ItemLine(item: string): string {
    [' ', ' ', '-', ' '] + item
  }

  function RenderItems(items: seq<string>): seq<string> {
    if items == [] then [] else RenderItems(items[..|items| - 1]) + [ItemLine(items[|items| - 1])]
  }

  function RenderFirst(lists: seq<Entry>, n: nat): seq<string>
    requires n <= |lists|
  {
    if n == 0 then [] else RenderFirst(lists, n - 1) + [lists[n - 1].key + [':']] + RenderItems(lists[n - 1].items)
  }

  function Render(lists: seq<Entry>): seq<string> {
    RenderFirst(lists, |lists|)
  }

  /** No key would be taken for an item. */
  predicate Plain(lists: seq<Entry>) {
    forall i :: 0 <= i < |lists| ==> !Dashed(lists[i].key)
  }

  lemma MeaningOfBare(line: string)
    requires line != "" && Without(line, '#') && !IsSpace(line[|line| - 1])
    ensures Meaning(line) == line && !Blank(line)
  {
    BeforeAll(line, '#');
    LStripKeepsLast(line);
  }

  lemma {:induction false} LStripKeepsLast(s: string)
    requires s != "" && !IsSpace(s[|s| - 1])
    ensures LStrip(s) != ""
  {
    if IsSpace(s[0]) {
      LStripKeepsLast(s[1..]);
    }
  }

  lemma LStripSpace(s: string)
    ensures LStrip([' '] + s) == LStrip(s)
  {
    assert ([' '] + s)[1..] == s;
  }

  lemma StripOfIndented(s: string)
    requires s != "" && Bare(s)
    ensures Strip([' '] + ([' '] + s)) == s
  {
    var line := [' '] + ([' '] + s);
    assert line[|line| - 1] == s[|s| - 1];
    assert RStrip(line) == line;
    LStripSpace([' '] + s);
    LStripSpace(s);
  }

  lemma ItemOfLine(item: string)
    requires GoodItem(item)
    ensures IsItem(ItemLine(item)) && ItemOf(ItemLine(item)) == item
  {
    var dashed := ['-'] + ([' '] + item);
    assert Bare(dashed) by {
      assert dashed[|dashed| - 1] == item[|item| - 1];
    }
    StripOfIndented(dashed);
    LineOfItem(item);
    StripOfBare(item);
  }

  lemma LineOfItem(item: string)
    ensures var dashed := ['-'] + ([' '] + item);
            ItemLine(item) == [' '] + ([' '] + dashed) && ItemLine(item)[2..] == dashed && dashed[2..] == item
              && Dashed(dashed)
  {
  }

  lemma StepOfItem(lists: seq<Entry>, item: string)
    requires GoodItem(item) && lists != []
    ensures StepRaw(lists, ItemLine(item)) == Ok(AddItem(lists, item))
  {
    var line := ItemLine(item);
    assert line[|line| - 1] == item[|item| - 1];
    MeaningOfBare(line);
    ItemOfLine(item);
  }

  lemma KeyOfLine(key: string)
    requires GoodKey(key) && !Dashed(key)
    ensures var line := key + [':'];
            !IsItem(line) && IsKey(line) && KeyOf(line) == key
  {
    var line := key + [':'];
    assert line[..|line| - 1] == key && line[0] == key[0];
    StripOfBare(key);
  }

  lemma StepOfKey(lists: seq<Entry>, key: string)
    requires GoodKey(key) && !Dashed(key) && !HasKey(lists, key)
    ensures StepRaw(lists, key + [':']) == Ok(lists + [Entry(key, [])])
  {
    MeaningOfBare(key + [':']);
    KeyOfLine(key);
  }

  lemma {:induction false} RunItems(lines: seq<string>, lists: seq<Entry>, key: string, items: seq<string>)
    requires Run(lines) == Ok(lists + [Entry(key, [])])
    requires forall k :: 0 <= k < |items| ==> GoodItem(items[k])
    ensures Run(lines + RenderItems(items)) == Ok(lists + [Entry(key, items)])
  {
    if items == [] {
      assert lines + RenderItems(items) == lines;
    } else {
      var init, last := items[..|items| - 1], items[|items| - 1];
      RunItems(lines, lists, key, init);
      var before := lists + [Entry(key, init)];
      StepOfItem(before, last);
      Folding.RunOneMore(StepRaw, [], lines + RenderItems(init), ItemLine(last));
      assert lines + RenderItems(items) == lines + RenderItems(init) + [ItemLine(last)];
      OneMoreItem(lists, key, items);
    }
  }

  lemma OneMoreItem(lists: seq<Entry>, key: string, items: seq<string>)
    requires items != []
    ensures AddItem(lists + [Entry(key, items[..|items| - 1])], items[|items| - 1]) == lists + [Entry(key, items)]
  {
    assert items[..|items| - 1] + [items[|items| - 1]] == items;
  }

  predicate GoodEntry(e: Entry) {
    GoodKey(e.key) && forall k :: 0 <= k < |e.items| ==> GoodItem(e.items[k])
  }

  lemma EntryIsGood(lists: seq<Entry>, i: nat)
    requires WellFormed(lists) && i < |lists|
    ensures GoodEntry(lists[i]) && !HasKey(lists[..i], lists[i].key)
  {
  }

  lemma RunEntry(lines: seq<string>, lists: seq<Entry>, e: Entry)
    requires Run(lines) == Ok(lists)
    requires GoodEntry(e) && !Dashed(e.key) && !HasKey(lists, e.key)
    ensures Run(lines + [e.key + [':']] + RenderItems(e.items)) == Ok(lists + [e])
  {
    StepOfKey(lists, e.key);
    Folding.RunOneMore(StepRaw, [], lines, e.key + [':']);
    RunItems(lines + [e.key + [':']], lists, e.key, e.items);
  }

  /** Entry `i` is read as the next entry. */
  predicate Ready(lists: seq<Entry>, i: nat) {
    i < |lists| && GoodEntry(lists[i]) && !Dashed(lists[i].key) && !HasKey(lists[..i], lists[i].key)
  }

  lemma RenderStep(lists: seq<Entry>, n: nat)
    requires n < |lists| && Ready(lists, n)
    requires Run(RenderFirst(lists, n)) == Ok(lists[..n])
    ensures Run(RenderFirst(lists, n + 1)) == Ok(lists[..n + 1])
  {
    RunEntry(RenderFirst(lists, n), lists[..n], lists[n]);
    assert lists[..n + 1] == lists[..n] + [lists[n]];
  }

  lemma {:induction false} RunRender(lists: seq<Entry>, n: nat)
    requires n <= |lists| && forall i :: 0 <= i < n ==> Ready(lists, i)
    ensures Run(RenderFirst(lists, n)) == Ok(lists[..n])
  {
    if n > 0 {
      assert Ready(lists, n - 1);
      RunRender(lists, n - 1);
      RenderStep(lists, n - 1);
    }
  }

  /** Reading the rendered form of any complete, well-formed lists gives them back. */
  lemma RoundTrip(lists: seq<Entry>, required: seq<string>)
    requires WellFormed(lists) && Plain(lists) && Complete(lists, required)
    ensures Parse(Render(lists), required) == Ok(lists)
  {
    forall i | 0 <= i < |lists| ensures Ready(lists, i) { EntryIsGood(lists, i); }
    RunRender(lists, |lists|);
    assert lists[..|lists|] == lists;
  }

  // ---- a key that looks like an item ----

  lemma StepLength(lists: seq<Entry>, raw: string)
    requires StepRaw(lists, raw).Ok?
    ensures |StepRaw(lists, raw).value| <= |lists| + 1
    ensures IsItem(Meaning(raw)) ==> |StepRaw(lists, raw).value| == |lists|
  {
  }

  lemma {:induction false} ItemsAddNoKey(lines: seq<string>, items: seq<string>)
    requires forall k :: 0 <= k < |items| ==> GoodItem(items[k])
    ensures Run(lines + RenderItems(items)).Ok? ==>
      Run(lines).Ok? && |Run(lines + RenderItems(items)).value| == |Run(lines).value|
  {
    if items == [] {
      assert lines + RenderItems(items) == lines;
    } else {
      var init, last := items[..|items| - 1], items[|items| - 1];
      ItemsAddNoKey(lines, init);
      var before := lines + RenderItems(init);
      assert lines + RenderItems(items) == before + [ItemLine(last)];
      Folding.RunOneMore(StepRaw, [], before, ItemLine(last));
      MeaningOfItem(last);
      if Run(before + [ItemLine(last)]).Ok? { StepLength(Run(before).value, ItemLine(last)); }
    }
  }

  lemma MeaningOfItem(item: string)
    requires GoodItem(item)
    ensures IsItem(Meaning(ItemLine(item)))
  {
    var line := ItemLine(item);
    assert line[|line| - 1] == item[|item| - 1];
    MeaningOfBare(line);
    ItemOfLine(item);
  }

  lemma MeaningOfDashedKey(key: string)
    requires GoodKey(key) && Dashed(key)
    ensures IsItem(Meaning(key + [':']))
  {
    MeaningOfBare(key + [':']);
  }

  /** How many keys a file has, if it can be read. */
  function KeyCount(lines: seq<string>): nat {
    var lists := Run(lines);
    if lists.Ok? then |lists.value| else 0
  }

  lemma EntryAddsAtMostAKey(lines: seq<string>, e: Entry)
    requires GoodEntry(e)
    ensures KeyCount(lines + [e.key + [':']] + RenderItems(e.items)) <= KeyCount(lines) + if Dashed(e.key) then 0 else 1
  {
    var withKey := lines + [e.key + [':']];
    Folding.RunOneMore(StepRaw, [], lines, e.key + [':']);
    if Run(withKey + RenderItems(e.items)).Ok? {
      ItemsAddNoKey(withKey, e.items);
      StepLength(Run(lines).value, e.key + [':']);
      if Dashed(e.key) { MeaningOfDashedKey(e.key); }
    }
  }

  /** The number of keys read back from the first `n` entries, for each `n`. */
  function KeyCounts(lists: seq<Entry>): (r: seq<nat>)
    ensures |r| == |lists| + 1
    ensures forall n :: 0 <= n <= |lists| ==> r[n] == KeyCount(RenderFirst(lists, n))
  {
    seq(|lists| + 1, n requires 0 <= n <= |lists| => KeyCount(RenderFirst(lists, n)))
  }

  lemma OneMoreKey(lists: seq<Entry>, n: nat)
    requires n < |lists| && GoodEntry(lists[n])
    ensures KeyCounts(lists)[n + 1] <= KeyCounts(lists)[n] + if Dashed(lists[n].key) then 0 else 1
  {
    EntryAddsAtMostAKey(RenderFirst(lists, n), lists[n]);
  }

  lemma {:induction false} OneStepLost(counts: seq<nat>, n: nat, bad: nat)
    requires n < |counts| && counts[0] == 0
    requires forall i :: 0 <= i < n ==> counts[i + 1] <= counts[i] + if i == bad then 0 else 1
    ensures counts[n] <= if bad < n then n - 1 else n
  {
    if n > 0 {
      OneStepLost(counts, n - 1, bad);
      assert counts[(n - 1) + 1] <= counts[n - 1] + if n - 1 == bad then 0 else 1;
    }
  }

  lemma RenderLosesKeys(lists: seq<Entry>, bad: nat)
    requires WellFormed(lists) && bad < |lists| && Dashed(lists[bad].key)
    ensures KeyCount(Render(lists)) < |lists|
  {
    var counts := KeyCounts(lists);
    forall i | 0 <= i < |lists| ensures counts[i + 1] <= counts[i] + if i == bad then 0 else 1 {
      EntryIsGood(lists, i);
      OneMoreKey(lists, i);
    }
    OneStepLost(counts, |lists|, bad);
  }

  /** Whatever a file means, its rendering means the same, exactly when no key looks like an item. */
  lemma RenderingMeansTheSame(lines: seq<string>, required: seq<string>)
    requires Parse(lines, required).Ok?
    ensures Parse(Render(Parse(lines, required).value), required) == Parse(lines, required) <==>
      Plain(Parse(lines, required).value)
  {
    var lists := Parse(lines, required).value;
    AcceptedIsWellFormed(lines, required);
    if Plain(lists) {
      RoundTrip(lists, required);
    } else {
      var bad :| 0 <= bad < |lists| && Dashed(lists[bad].key);
      RenderLosesKeys(lists, bad);
    }
  }
}
