/**
 CHECK constraints of one table, by physical name, and the statements that migrations run on them:
 the `_normalize` repair of 0089, the three-way repair of 0079, and the tolerant downgrades.
 */
module ConstraintNames {
  import opened Wrappers
  import opened Strings

  /** A constraint's expression. */
  type Body = string

  type Checks = map<string, Body>

  /**
   One invariant: its canonical name, the doubled prefix of its table, the doubled spelling if it is known, its
   expression.
   */
  datatype Site = Site(canonical: string, doubledPrefix: string, literal: Option<string>, body: Body)

  predicate IdentifierChar(c: char) {
    'a' <= c <= 'z' || 'A' <= c <= 'Z' || '0' <= c <= '9' || c == '_'
  }

  /** The names that 0089 takes for an old spelling. */
  predicate Legacy(s: Site, n: string) {
    StartsWith(n, s.doubledPrefix) && forall i :: 0 <= i < |n| ==> IdentifierChar(n[i])
  }

  /** Lower-case and upper-case ASCII letters, digits and underscores after the doubled prefix. */
  lemma LegacyIs(s: Site, n: string)
    ensures Legacy(s, n) <==>
      && (exists rest :: n == s.doubledPrefix + rest)
      && forall i :: 0 <= i < |n| ==>
           var code := n[i] as int;
           0x61 <= code <= 0x7a || 0x41 <= code <= 0x5a || 0x30 <= code <= 0x39 || code == 0x5f
  {
    if StartsWith(n, s.doubledPrefix) {
      assert n == s.doubledPrefix + n[|s.doubledPrefix|..];
    }
  }

  /** The canonical name does not look doubled; a known doubled spelling does. */
  predicate Sound(s: Site) {
    !StartsWith(s.canonical, s.doubledPrefix) && (s.literal.Some? ==> Legacy(s, s.literal.value))
  }

  /**
   With the naming convention's prefix `p` of the table: the canonical name is `p` and a token, the doubled spelling
   starts with `p` twice, and they are told apart unless the token itself starts with `p`.
   */
  lemma ConventionIsSound(p: string, token: string, body: Body)
    ensures Sound(Site(p + token, p + p, None, body)) <==> forall rest :: token != p + rest
  {
    if StartsWith(p + token, p + p) {
      assert p == (p + token)[..|p + p|][|p|..] == token[..|p|];
      assert token == p + token[|p|..];
    }
    if rest :| token == p + rest {
      assert (p + token)[..|p + p|] == p + p;
    }
  }

  function LegacyNames(s: Site, c: Checks): set<string> {
    set n | n in c && Legacy(s, n)
  }

  // ---- sorted(legacy)[0] ----

  predicate IsFirst(n: string, names: set<string>) {
    n in names && forall m :: m in names && m != n ==> Less(n, m)
  }

  lemma {:induction false} FirstExists(names: set<string>)
    requires names != {}
    ensures exists n :: IsFirst(n, names)
  {
    var x :| x in names;
    var rest := names - {x};
    if rest == {} {
      assert names == {x};
      assert IsFirst(x, names);
    } else {
      FirstExists(rest);
      var y :| IsFirst(y, rest);
      LessIsTotal(x, y);
      if Less(y, x) {
        assert IsFirst(y, names);
      } else {
        forall m | m in names && m != x ensures Less(x, m) {
          if m != y { LessIsTransitive(x, y, m); }
        }
        assert IsFirst(x, names);
      }
    }
  }

  lemma FirstIsUnique(a: string, b: string, names: set<string>)
    requires IsFirst(a, names) && IsFirst(b, names)
    ensures a == b
  {
    if a != b {
      LessIsTransitive(a, b, a);
      LessIsStrict(a);
    }
  }

  method First(names: set<string>) returns (first: string)
    requires names != {}
    ensures IsFirst(first, names)
  {
    first :| first in names;
    var todo := names - {first};
    while todo != {}
      invariant todo <= names && first in names - todo
      invariant forall m :: m in names && m !in todo && m != first ==> Less(first, m)
    {
      var m :| m in todo;
      todo := todo - {m};
      if Less(m, first) {
        forall k | k in names && k !in todo && k != m && k != first ensures Less(m, k) {
          LessIsTransitive(m, first, k);
        }
        first := m;
      } else {
        LessIsTotal(first, m);
      }
    }
  }

  // ---- what the repair leaves ----

  /** `after` is `before` repaired: one canonical constraint, no old spelling, and every other name as it was. */
  ghost predicate Repaired(s: Site, before: Checks, after: Checks) {
    && s.canonical in after
    && (forall n :: n in after && n != s.canonical <==> n in before && n != s.canonical && !Legacy(s, n))
    && (forall n :: n in after && n != s.canonical ==> after[n] == before[n])
    && (if s.canonical in before then after[s.canonical] == before[s.canonical]
        else if LegacyNames(s, before) != {} then
          forall n :: IsFirst(n, LegacyNames(s, before)) ==> after[s.canonical] == before[n]
        else after[s.canonical] == s.body)
  }

  /** 0079: only the one doubled spelling it knows counts. */
  ghost predicate RepairedOnly(s: Site, legacy: string, before: Checks, after: Checks) {
    && s.canonical in after
    && (forall n :: n in after && n != s.canonical <==> n in before && n != s.canonical && n != legacy)
    && (forall n :: n in after && n != s.canonical ==> after[n] == before[n])
    && after[s.canonical] == (if s.canonical in before then before[s.canonical]
                              else if legacy in before then before[legacy]
                              else s.body)
  }

  class Table {
    var checks: Checks

    constructor (checks: Checks)
      ensures this.checks == checks
    {
      this.checks := checks;
    }

    /** PostgreSQL refuses to drop what is not there and to reuse a name. */
    method Drop(name: string)
      requires name in checks
      modifies this
      ensures checks == old(checks) - {name}
    {
      checks := checks - {name};
    }

    method DropIfExists(name: string)
      modifies this
      ensures checks == old(checks) - {name}
    {
      if name in checks { Drop(name); }
    }

    method Create(name: string, body: Body)
      requires name !in checks
      modifies this
      ensures checks == old(checks)[name := body]
    {
      checks := checks[name := body];
    }

    method Rename(name: string, to: string)
      requires name in checks && to !in checks
      modifies this
      ensures checks == (old(checks) - {name})[to := old(checks)[name]]
    {
      checks := (checks - {name})[to := checks[name]];
    }

    /** 0089 `_normalize` */
    method Normalize(s: Site)
      requires Sound(s)
      modifies this
      ensures Repaired(s, old(checks), checks)
    {
      var legacy := LegacyNames(s, checks);
      if s.canonical in checks {
        DropAll(legacy);
      } else if legacy != {} {
        var first := First(legacy);
        Rename(first, s.canonical);
        DropAll(legacy - {first});
        OnlyFirst(s, old(checks), first);
      } else {
        Create(s.canonical, s.body);
      }
    }

    method DropAll(names: set<string>)
      requires names <= checks.Keys
      modifies this
      ensures checks == old(checks) - names
    {
      var todo := names;
      while todo != {}
        invariant todo <= names && todo <= checks.Keys
        invariant checks == old(checks) - (names - todo)
      {
        var n :| n in todo;
        Drop(n);
        todo := todo - {n};
      }
    }

    /** 0079 `_normalize_process_edge_check` */
    method NormalizeOnly(s: Site, legacy: string)
      requires s.canonical != legacy
      modifies this
      ensures RepairedOnly(s, legacy, old(checks), checks)
    {
      if legacy in checks && s.canonical in checks {
        Drop(legacy);
      } else if legacy in checks {
        Rename(legacy, s.canonical);
      } else if s.canonical !in checks {
        Create(s.canonical, s.body);
      }
    }

    /** The downgrades of 0078 and 0081: whichever of the two spellings is there goes. */
    method DropSpellings(s: Site)
      requires s.literal.Some?
      modifies this
      ensures checks == old(checks) - {s.canonical, s.literal.value}
    {
      DropIfExists(s.canonical);
      DropIfExists(s.literal.value);
    }

    /** The downgrade of 0088: the old spelling ends in an opaque suffix, so it is found by its prefix. */
    method DropByPrefix(s: Site)
      modifies this
      ensures checks == old(checks) - Spellings(s, old(checks))
    {
      DropAll(Spellings(s, checks));
    }
  }

  /** Every name that 0088 takes for a spelling of its constraint. */
  function Spellings(s: Site, c: Checks): set<string> {
    set n | n in c && (n == s.canonical || StartsWith(n, s.doubledPrefix))
  }

  lemma OnlyFirst(s: Site, c: Checks, first: string)
    requires IsFirst(first, LegacyNames(s, c))
    ensures forall n :: IsFirst(n, LegacyNames(s, c)) ==> n == first
  {
    forall n | IsFirst(n, LegacyNames(s, c)) ensures n == first {
      FirstIsUnique(n, first, LegacyNames(s, c));
    }
  }

  // ---- what the repair promises ----

  /** The result of the repair is determined. */
  lemma RepairIsAFunction(s: Site, before: Checks, a: Checks, b: Checks)
    requires Repaired(s, before, a) && Repaired(s, before, b)
    ensures a == b
  {
    if s.canonical !in before && LegacyNames(s, before) != {} {
      FirstExists(LegacyNames(s, before));
    }
    assert a.Keys == b.Keys;
  }

  /** Repairing what is repaired changes nothing. */
  lemma RepairIsIdempotent(s: Site, before: Checks, once: Checks, twice: Checks)
    requires Sound(s) && Repaired(s, before, once) && Repaired(s, once, twice)
    ensures once == twice && LegacyNames(s, once) == {}
  {
    assert once.Keys == twice.Keys;
  }

  /** 0079's repair and 0089's agree exactly on the tables whose only doubled name is the one that 0079 knows. */
  lemma RepairsAgree(s: Site, legacy: string, before: Checks, a: Checks, b: Checks)
    requires Sound(s) && Legacy(s, legacy)
    requires Repaired(s, before, a) && RepairedOnly(s, legacy, before, b)
    ensures a == b <==> LegacyNames(s, before) <= {legacy}
  {
    assert s.canonical != legacy;
    if LegacyNames(s, before) <= {legacy} {
      if legacy in before {
        assert LegacyNames(s, before) == {legacy};
        assert IsFirst(legacy, LegacyNames(s, before));
      } else {
        assert LegacyNames(s, before) == {};
      }
      forall n ensures n in a <==> n in b {
        assert n in before && Legacy(s, n) ==> n in LegacyNames(s, before);
      }
      assert a.Keys == b.Keys;
    } else {
      var m :| m in LegacyNames(s, before) && m != legacy;
      assert m in b && m !in a;
    }
  }
}
