/**
 JSON as the history diagnostic uses it: objects, strings that need no escape, and natural numbers,
 printed compactly and read back.
 */
module Json {
  import opened Wrappers
  import Decimals

  datatype Value = Object(members: Members) | Text(chars: string) | Number(n: nat)

  /** The members of an object in the order of the text. */
  datatype Members = End | Member(key: string, value: Value, tail: Members)

  predicate SafeChar(c: char) {
    ' ' <= c <= '~' && c != '\"' && c != '\\'
  }

  /** Printable ASCII but the quotation mark and the backslash: what json.dumps prints as it is. */
  lemma SafeAre(c: char)
    ensures SafeChar(c) <==> 0x20 <= c as int < 0x7f && c as int != 0x22 && c as int != 0x5c
  {
  }

  predicate Safe(s: string) {
    forall i :: 0 <= i < |s| ==> SafeChar(s[i])
  }

  predicate Printable(v: Value) {
    match v
    case Object(members) => AllPrintable(members)
    case Text(chars) => Safe(chars)
    case Number(_) => true
  }

  predicate AllPrintable(m: Members) {
    m.Member? ==> Safe(m.key) && Printable(m.value) && AllPrintable(m.tail)
  }

  // ---- printing ----

  function Quote(s: string): string {
    ['\"'] + s + ['\"']
  }

  function Print(v: Value): string {
    match v
    case Object(members) => ['{'] + PrintMembers(members) + ['}']
    case Text(chars) => Quote(chars)
    case Number(n) => Decimals.Print(n)
  }

  function PrintMembers(m: Members): string {
    if m.End? then ""
    else Quote(m.key) + [':'] + Print(m.value) + (if m.tail.End? then "" else [','] + PrintMembers(m.tail))
  }

  // ---- reading ----

  datatype Read<T> = Read(value: T, rest: string)

  /** The text after an opening quote, up to the closing one. */
  function ReadText(s: string): (r: Option<Read<string>>)
    ensures r.Some? ==> |r.value.rest| < |s|
  {
    if s == "" then None
    else if s[0] == '\"' then Some(Read("", s[1..]))
    else if !SafeChar(s[0]) then None
    else
      var more := ReadText(s[1..]);
      if more.None? then None else Some(Read([s[0]] + more.value.value, more.value.rest))
  }

  function ReadDigits(s: string): (r: Read<string>)
    ensures s == r.value + r.rest
    ensures Decimals.AllDigits(r.value)
  {
    if s == "" || !Decimals.IsDigit(s[0]) then Read("", s)
    else
      var more := ReadDigits(s[1..]);
      Read([s[0]] + more.value, more.rest)
  }

  function ReadNumber(s: string): (r: Option<Read<nat>>)
    ensures r.Some? ==> |r.value.rest| < |s|
  {
    var digits := ReadDigits(s);
    if Decimals.Canonical(digits.value) then Some(Read(Decimals.Value(digits.value), digits.rest)) else None
  }

  function ReadValue(s: string): (r: Option<Read<Value>>)
    ensures r.Some? ==> |r.value.rest| < |s|
    decreases |s|
  {
    if s == "" then None
    else if s[0] == '{' then
      if |s| > 1 && s[1] == '}' then Some(Read(Object(End), s[2..]))
      else
        var members := ReadMembers(s[1..]);
        if members.None? then None else Some(Read(Object(members.value.value), members.value.rest))
    else if s[0] == '\"' then
      var text := ReadText(s[1..]);
      if text.None? then None else Some(Read(Text(text.value.value), text.value.rest))
    else
      var number := ReadNumber(s);
      if number.None? then None else Some(Read(Number(number.value.value), number.value.rest))
  }

  /** One or more members and the closing brace. */
  function ReadMembers(s: string): (r: Option<Read<Members>>)
    ensures r.Some? ==> |r.value.rest| < |s|
    decreases |s|
  {
    if s == "" || s[0] != '\"' then None
    else
      var key := ReadText(s[1..]);
      if key.None? || key.value.rest == "" || key.value.rest[0] != ':' then None
      else
        var value := ReadValue(key.value.rest[1..]);
        if value.None? || value.value.rest == "" then None
        else if value.value.rest[0] == '}' then
          Some(Read(Member(key.value.value, value.value.value, End), value.value.rest[1..]))
        else if value.value.rest[0] != ',' then None
        else
          var tail := ReadMembers(value.value.rest[1..]);
          if tail.None? then None
          else Some(Read(Member(key.value.value, value.value.value, tail.value.value), tail.value.rest))
  }

  /** `json.loads`, for texts of this form. */
  function Loads(s: string): Option<Value> {
    var v := ReadValue(s);
    if v.Some? && v.value.rest == "" then Some(v.value.value) else None
  }

  // ---- reading inverts printing ----

  lemma {:induction false} ReadTextOfQuoted(s: string, rest: string)
    requires Safe(s)
    ensures ReadText(s + ['\"'] + rest) == Some(Read(s, rest))
  {
    var all := s + ['\"'] + rest;
    if s == "" {
      assert all[1..] == rest;
    } else {
      assert all[1..] == s[1..] + ['\"'] + rest;
      ReadTextOfQuoted(s[1..], rest);
      assert s == [s[0]] + s[1..];
    }
  }

  lemma {:induction false} ReadDigitsOf(digits: string, rest: string)
    requires Decimals.AllDigits(digits) && (rest == "" || !Decimals.IsDigit(rest[0]))
    ensures ReadDigits(digits + rest) == Read(digits, rest)
  {
    if digits == "" {
      assert digits + rest == rest;
    } else {
      assert (digits + rest)[1..] == digits[1..] + rest;
      ReadDigitsOf(digits[1..], rest);
      assert digits == [digits[0]] + digits[1..];
    }
  }

  predicate Ends(v: Value, rest: string) {
    v.Number? ==> rest == "" || !Decimals.IsDigit(rest[0])
  }

  lemma ReadOfNumber(n: nat, rest: string)
    requires Ends(Number(n), rest)
    ensures ReadValue(Decimals.Print(n) + rest) == Some(Read(Number(n), rest))
  {
    var digits := Decimals.Print(n);
    assert Decimals.IsDigit(digits[0]) && (digits + rest)[0] == digits[0];
    ReadDigitsOf(digits, rest);
    Decimals.ValueOfPrint(n);
  }

  lemma ReadOfText(chars: string, rest: string)
    requires Safe(chars)
    ensures ReadValue(Quote(chars) + rest) == Some(Read(Text(chars), rest))
  {
    assert (Quote(chars) + rest)[1..] == chars + ['\"'] + rest;
    ReadTextOfQuoted(chars, rest);
  }

  lemma ReadOfEmptyObject(rest: string)
    ensures ReadValue(Print(Object(End)) + rest) == Some(Read(Object(End), rest))
  {
    var s := Print(Object(End)) + rest;
    assert s[0] == '{' && s[1] == '}' && s[2..] == rest;
  }

  lemma AfterFirst(c: char, printed: string, rest: string)
    ensures ([c] + printed + ['}'] + rest)[1..] == printed + ['}'] + rest
  {
  }

  lemma ReadOfObject(members: Members, s: string, rest: string)
    requires |s| > 1 && s[0] == '{' && s[1] == '\"'
    requires ReadMembers(s[1..]) == Some(Read(members, rest))
    ensures ReadValue(s) == Some(Read(Object(members), rest))
  {
  }

  lemma PrintOfMember(m: Members, rest: string)
    requires m.Member?
    ensures PrintMembers(m) + ['}'] + rest == Quote(m.key) + [':'] + Print(m.value) + AfterValue(m.tail, rest)
    ensures PrintMembers(m) != "" && PrintMembers(m)[0] == '\"'
  {
    var start := Quote(m.key) + [':'] + Print(m.value);
    if m.tail.End? {
      assert PrintMembers(m) == start;
      assert start + ['}'] + rest == start + (['}'] + rest);
    } else {
      var more := [','] + PrintMembers(m.tail);
      assert PrintMembers(m) == start + more;
      assert start + more + ['}'] + rest == start + (more + ['}'] + rest);
    }
  }

  /** What follows the value of a member in the text of its object. */
  function AfterValue(tail: Members, rest: string): string {
    if tail.End? then ['}'] + rest else [','] + PrintMembers(tail) + ['}'] + rest
  }

  /** The key, the colon and the value of a member are read one after the other. */
  lemma ReadInOrder(s: string, key: string, afterKey: string, value: Value, after: string)
    requires s != "" && s[0] == '\"' && ReadText(s[1..]) == Some(Read(key, afterKey))
    requires afterKey != "" && afterKey[0] == ':' && ReadValue(afterKey[1..]) == Some(Read(value, after))
    requires after != "" && after[0] in {',', '}'}
    ensures after[0] == '}' ==> ReadMembers(s) == Some(Read(Member(key, value, End), after[1..]))
    ensures after[0] == ',' && ReadMembers(after[1..]).Some? ==>
      ReadMembers(s) == Some(Read(Member(key, value, ReadMembers(after[1..]).value.value),
        ReadMembers(after[1..]).value.rest))
  {
  }

  function AfterKey(m: Members, rest: string): string
    requires m.Member?
  {
    [':'] + (Print(m.value) + AfterValue(m.tail, rest))
  }

  lemma AfterQuote(key: string, value: string, after: string)
    ensures var s := Quote(key) + [':'] + value + after;
            s[0] == '\"' && s[1..] == key + ['\"'] + ([':'] + (value + after))
  {
  }

  lemma TextOfMember(m: Members, rest: string)
    requires m.Member?
    ensures var s := PrintMembers(m) + ['}'] + rest;
            s != "" && s[0] == '\"' && s[1..] == m.key + ['\"'] + AfterKey(m, rest)
  {
    PrintOfMember(m, rest);
    AfterQuote(m.key, Print(m.value), AfterValue(m.tail, rest));
  }

  lemma ReadOfOneMember(m: Members, rest: string)
    requires m.Member? && Safe(m.key)
    requires ReadValue(Print(m.value) + AfterValue(m.tail, rest)) == Some(Read(m.value, AfterValue(m.tail, rest)))
    requires m.tail.Member? ==> ReadMembers(AfterValue(m.tail, rest)[1..]) == Some(Read(m.tail, rest))
    ensures ReadMembers(PrintMembers(m) + ['}'] + rest) == Some(Read(m, rest))
  {
    TextOfMember(m, rest);
    ReadTextOfQuoted(m.key, AfterKey(m, rest));
    assert AfterKey(m, rest)[1..] == Print(m.value) + AfterValue(m.tail, rest);
    assert m.tail.End? ==> AfterValue(m.tail, rest)[1..] == rest;
    ReadInOrder(PrintMembers(m) + ['}'] + rest, m.key, AfterKey(m, rest), m.value, AfterValue(m.tail, rest));
  }

  lemma {:induction false} ReadOfPrint(v: Value, rest: string)
    requires Printable(v) && Ends(v, rest)
    ensures ReadValue(Print(v) + rest) == Some(Read(v, rest))
    decreases v
  {
    match v
    case Number(n) => ReadOfNumber(n, rest);
    case Text(chars) => ReadOfText(chars, rest);
    case Object(members) =>
      if members.End? {
        ReadOfEmptyObject(rest);
      } else {
        ReadOfMembers(members, rest);
        AfterFirst('{', PrintMembers(members), rest);
        PrintOfMember(members, rest);
        ReadOfObject(members, Print(v) + rest, rest);
      }
  }

  lemma {:induction false} ReadOfMembers(m: Members, rest: string)
    requires m.Member? && AllPrintable(m)
    ensures ReadMembers(PrintMembers(m) + ['}'] + rest) == Some(Read(m, rest))
    decreases m
  {
    ReadOfPrint(m.value, AfterValue(m.tail, rest));
    if m.tail.Member? {
      ReadOfMembers(m.tail, rest);
      AfterFirst(',', PrintMembers(m.tail), rest);
    }
    ReadOfOneMember(m, rest);
  }

  /** Parsing what was printed gives it back, so printing loses nothing. */
  lemma LoadsOfPrint(v: Value)
    requires Printable(v)
    ensures Loads(Print(v)) == Some(v)
  {
    ReadOfPrint(v, "");
    assert Print(v) + "" == Print(v);
  }

  lemma PrintIsInjective(v: Value, w: Value)
    requires Printable(v) && Printable(w) && Print(v) == Print(w)
    ensures v == w
  {
    LoadsOfPrint(v);
    LoadsOfPrint(w);
  }
}
