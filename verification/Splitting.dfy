/** Python's `str.split` and `str.partition` at a single character. */
module Splitting {

  predicate Without(s: string, c: char) {
    forall i :: 0 <= i < |s| ==> s[i] != c
  }

  function Join(parts: seq<string>, c: char): string {
    if parts == [] then "" else if |parts| == 1 then parts[0] else parts[0] + [c] + Join(parts[1..], c)
  }

  /** What is before the first `c`. */
  function Before(s: string, c: char): (r: string)
    ensures |r| <= |s| && s[..|r|] == r
    ensures Without(r, c)
    ensures |r| < |s| ==> s[|r|] == c
  {
    if s == "" || s[0] == c then "" else [s[0]] + Before(s[1..], c)
  }

  /** `s.split(c)` */
  function Split(s: string, c: char): (r: seq<string>)
    ensures r != []
    ensures forall i :: 0 <= i < |r| ==> Without(r[i], c)
    decreases |s|
  {
    var first := Before(s, c);
    if |first| == |s| then [first] else [first] + Split(s[|first| + 1..], c)
  }

  lemma BeforeUnique(first: string, c: char, rest: string)
    requires Without(first, c)
    ensures Before(first + [c] + rest, c) == first
  {
    var s := first + [c] + rest;
    var b := Before(s, c);
    assert s[|first|] == c;
    assert forall i :: 0 <= i < |first| ==> s[i] == first[i];
    assert forall i :: 0 <= i < |b| ==> s[i] == b[i];
    assert |b| == |first|;
  }

  lemma BeforeAll(s: string, c: char)
    requires Without(s, c)
    ensures Before(s, c) == s
  {
  }

  /** Splitting undoes joining. */
  lemma {:induction false} SplitOfJoin(parts: seq<string>, c: char)
    requires parts != [] && forall i :: 0 <= i < |parts| ==> Without(parts[i], c)
    ensures Split(Join(parts, c), c) == parts
  {
    if |parts| == 1 {
      BeforeAll(parts[0], c);
    } else {
      var rest := Join(parts[1..], c);
      BeforeUnique(parts[0], c, rest);
      SplitOfJoin(parts[1..], c);
      assert (parts[0] + [c] + rest)[|parts[0]| + 1..] == rest;
      assert parts == [parts[0]] + parts[1..];
    }
  }

  /** The first part and the split of the rest. */
  lemma {:induction false} SplitOnce(s: string, c: char)
    requires |Before(s, c)| < |s|
    ensures var first := Before(s, c);
      var rest := s[|first| + 1..];
      Split(s, c) == [first] + Split(rest, c) && s == first + [c] + rest
  {
  }

  /** Joining undoes splitting. */
  lemma {:induction false} JoinOfSplit(s: string, c: char)
    ensures Join(Split(s, c), c) == s
    decreases |s|
  {
    var first := Before(s, c);
    if |first| < |s| {
      var rest := s[|first| + 1..];
      SplitOnce(s, c);
      JoinOfSplit(rest, c);
      assert Split(s, c)[1..] == Split(rest, c);
    }
  }
}
