/**
 `Text` and `Parse` tie the constructors of `PolicyName` to the actual strings. They are inverse to
 each other, so comparing names as constructors is comparing them as text, and a name matches a
 migration's LIKE pattern for a row exactly when it is that row's `Aside` name.
 */
module RetentionNameTexts {
  import opened RetentionNames

  function ReservedText(m: Migration): string {
    match m
    case SealedPack0077 => "Sealed Evidence Pack Retention"
    case ImportReport0090 => "Import Report Retention"
  }

  function AsidePrefix(m: Migration): string {
    ReservedText(m) + " (preserved user policy: "
  }

  function RetiredPrefix(m: Migration): string {
    match m
    case SealedPack0077 => ReservedText(m) + " (preserved 0077 managed policy: "
    case ImportReport0090 => ReservedText(m) + " (preserved 0090 managed policy: "
  }

  function Text(n: PolicyName): string {
    match n
    case Reserved(m) => ReservedText(m)
    case SystemDefault => "System Default Retention"
    case Aside(m, id, tail) => AsidePrefix(m) + (id.text + ":" + tail)
    case Retired(m, id, tail) => RetiredPrefix(m) + (id.text + ":" + tail)
    case Other(text) => text
  }

  // ---- the texts as the migrations and the application write them ----

  lemma FixedTexts(id: Uuid)
    ensures Text(Reserved(SealedPack0077)) == "Sealed Evidence Pack Retention"
    ensures Text(Reserved(ImportReport0090)) == "Import Report Retention"
    ensures Text(SystemDefault) == "System Default Retention" && |id.text| == 36
  {
  }

  lemma UserPrefixes()
    ensures AsidePrefix(SealedPack0077) == "Sealed Evidence Pack Retention (preserved user policy: "
  {
  }

  lemma UserPrefixesOfReports()
    ensures AsidePrefix(ImportReport0090) == "Import Report Retention (preserved user policy: "
  {
  }

  lemma ManagedPrefixes()
    ensures RetiredPrefix(SealedPack0077) == "Sealed Evidence Pack Retention (preserved 0077 managed policy: "
  {
  }

  lemma ManagedPrefixesOfReports()
    ensures RetiredPrefix(ImportReport0090) == "Import Report Retention (preserved 0090 managed policy: "
  {
  }

  /** Is `s` the prefix, a uuid, a colon and anything? */
  predicate Carries(prefix: string, s: string) {
    prefix <= s && |s| > |prefix| + UUID_LENGTH && s[|prefix| + UUID_LENGTH] == ':'
  }

  function IdIn(prefix: string, s: string): Uuid
    requires Carries(prefix, s)
  {
    Uuid(s[|prefix|..|prefix| + UUID_LENGTH])
  }

  function TailIn(prefix: string, s: string): string
    requires Carries(prefix, s)
  {
    s[|prefix| + UUID_LENGTH + 1..]
  }

  function Parse(s: string): PolicyName {
    if s == ReservedText(SealedPack0077) then Reserved(SealedPack0077)
    else if s == ReservedText(ImportReport0090) then Reserved(ImportReport0090)
    else if s == Text(SystemDefault) then SystemDefault
    else if Carries(AsidePrefix(SealedPack0077), s) then
      Aside(SealedPack0077, IdIn(AsidePrefix(SealedPack0077), s), TailIn(AsidePrefix(SealedPack0077), s))
    else if Carries(AsidePrefix(ImportReport0090), s) then
      Aside(ImportReport0090, IdIn(AsidePrefix(ImportReport0090), s), TailIn(AsidePrefix(ImportReport0090), s))
    else if Carries(RetiredPrefix(SealedPack0077), s) then
      Retired(SealedPack0077, IdIn(RetiredPrefix(SealedPack0077), s), TailIn(RetiredPrefix(SealedPack0077), s))
    else if Carries(RetiredPrefix(ImportReport0090), s) then
      Retired(ImportReport0090, IdIn(RetiredPrefix(ImportReport0090), s), TailIn(RetiredPrefix(ImportReport0090), s))
    else Other(s)
  }

  lemma MarkedText(prefix: string, id: Uuid, tail: string, s: string)
    ensures s == prefix + (id.text + ":" + tail) <==>
      Carries(prefix, s) && IdIn(prefix, s) == id && TailIn(prefix, s) == tail
  {
    if s == prefix + (id.text + ":" + tail) {
      assert prefix <= s;
      assert s[|prefix|..] == id.text + ":" + tail;
      assert IdIn(prefix, s).text == s[|prefix|..][..UUID_LENGTH] == id.text;
      assert TailIn(prefix, s) == s[|prefix|..][UUID_LENGTH + 1..] == tail;
    }
    if Carries(prefix, s) && IdIn(prefix, s) == id && TailIn(prefix, s) == tail {
      assert s == prefix + (IdIn(prefix, s).text + ":" + TailIn(prefix, s));
    }
  }

  /** Where two prefixes differ, a text carries at most one of them. */
  lemma PrefixesExclude(p: string, q: string, k: nat, s: string)
    requires k < |p| && k < |q| && p[k] != q[k]
    ensures !(p <= s && q <= s)
  {
    assert p <= s ==> s[k] == p[k];
    assert q <= s ==> s[k] == q[k];
  }

  lemma MarkersExclude(s: string)
    ensures !(AsidePrefix(SealedPack0077) <= s && AsidePrefix(ImportReport0090) <= s)
    ensures !(AsidePrefix(SealedPack0077) <= s && RetiredPrefix(SealedPack0077) <= s)
    ensures !(AsidePrefix(SealedPack0077) <= s && RetiredPrefix(ImportReport0090) <= s)
    ensures !(AsidePrefix(ImportReport0090) <= s && RetiredPrefix(SealedPack0077) <= s)
    ensures !(AsidePrefix(ImportReport0090) <= s && RetiredPrefix(ImportReport0090) <= s)
    ensures !(RetiredPrefix(SealedPack0077) <= s && RetiredPrefix(ImportReport0090) <= s)
  {
    PrefixesExclude(AsidePrefix(SealedPack0077), AsidePrefix(ImportReport0090), 0, s);
    PrefixesExclude(AsidePrefix(SealedPack0077), RetiredPrefix(SealedPack0077), 42, s);
    PrefixesExclude(AsidePrefix(SealedPack0077), RetiredPrefix(ImportReport0090), 0, s);
    PrefixesExclude(AsidePrefix(ImportReport0090), RetiredPrefix(SealedPack0077), 0, s);
    PrefixesExclude(AsidePrefix(ImportReport0090), RetiredPrefix(ImportReport0090), 35, s);
    PrefixesExclude(RetiredPrefix(SealedPack0077), RetiredPrefix(ImportReport0090), 0, s);
  }

  lemma TextOfAside(s: string)
    requires Parse(s).Aside?
    ensures Text(Parse(s)) == s
  {
    var n := Parse(s);
    MarkedText(AsidePrefix(n.m), n.id, n.tail, s);
  }

  lemma TextOfRetired(s: string)
    requires Parse(s).Retired?
    ensures Text(Parse(s)) == s
  {
    var n := Parse(s);
    MarkedText(RetiredPrefix(n.m), n.id, n.tail, s);
  }

  lemma TextOfParse(s: string)
    ensures Text(Parse(s)) == s
  {
    if Parse(s).Aside? {
      TextOfAside(s);
    } else if Parse(s).Retired? {
      TextOfRetired(s);
    }
  }

  lemma ParseOfMarked(m: Migration, id: Uuid, tail: string)
    ensures Parse(Text(Aside(m, id, tail))) == Aside(m, id, tail)
    ensures Parse(Text(Retired(m, id, tail))) == Retired(m, id, tail)
  {
    var a, r := Text(Aside(m, id, tail)), Text(Retired(m, id, tail));
    MarkedText(AsidePrefix(m), id, tail, a);
    MarkedText(RetiredPrefix(m), id, tail, r);
    MarkersExclude(a);
    MarkersExclude(r);
    assert |a| > 60 && |r| > 60;
  }

  /** A name is well formed when it is not a fixed or marked name written out as `Other`. */
  predicate WellFormed(n: PolicyName) {
    n.Other? ==> Parse(n.text).Other?
  }

  /** What is read from a text is well formed. */
  lemma ParsedIsWellFormed(s: string)
    ensures WellFormed(Parse(s))
  {
  }

  /** Names are texts: both directions of the correspondence, and `WellFormed` is its domain. */
  lemma NamesAreTexts(n: PolicyName, s: string)
    requires WellFormed(n)
    ensures WellFormed(Parse(s)) && Text(Parse(s)) == s
    ensures Parse(Text(n)) == n
    ensures Text(n) == s <==> n == Parse(s)
  {
    TextOfParse(s);
    match n {
      case Aside(m, id, tail) => ParseOfMarked(m, id, tail);
      case Retired(m, id, tail) => ParseOfMarked(m, id, tail);
      case _ =>
    }
  }

  /** `name LIKE prefix || id || ':%'`: no character of the fixed part is special to LIKE. */
  predicate LikeAside(m: Migration, id: Uuid, s: string) {
    AsidePrefix(m) + id.text + ":" <= s
  }

  lemma LikeHasTail(m: Migration, id: Uuid, s: string) returns (tail: string)
    requires LikeAside(m, id, s)
    ensures s == Text(Aside(m, id, tail))
  {
    var prefix := AsidePrefix(m) + id.text + ":";
    tail := s[|prefix|..];
    assert s == prefix + tail;
    assert prefix + tail == AsidePrefix(m) + (id.text + ":" + tail);
  }

  lemma LikeIsAside(m: Migration, id: Uuid, n: PolicyName)
    requires WellFormed(n)
    ensures LikeAside(m, id, Text(n)) <==> n.Aside? && n.m == m && n.id == id
  {
    if n.Aside? && n.m == m && n.id == id {
      var prefix := AsidePrefix(m) + id.text + ":";
      assert AsidePrefix(m) + (id.text + ":" + n.tail) == prefix + n.tail;
    }
    if LikeAside(m, id, Text(n)) {
      var tail := LikeHasTail(m, id, Text(n));
      NamesAreTexts(n, Text(n));
      NamesAreTexts(Aside(m, id, tail), Text(n));
    }
  }
}
