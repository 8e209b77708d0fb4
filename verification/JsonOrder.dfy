/**
 Objects as dictionaries: `json.dumps(value, sort_keys=True)` prints two objects alike when they hold
 the same members, in whatever order they were read.
 */
module JsonOrder {
  import opened Wrappers
  import opened Strings
  import opened Json

  function Lookup(m: Members, key: string): Option<Value> {
    if m.End? then None else if m.key == key then Some(m.value) else Lookup(m.tail, key)
  }

  function Keys(m: Members): (r: set<string>)
    ensures forall k :: k in r <==> Lookup(m, k).Some?
  {
    if m.End? then {} else {m.key} + Keys(m.tail)
  }

  /** No object inside has the same key twice: what the parser's hook insists on. */
  predicate Unique(v: Value) {
    v.Object? ==> UniqueMembers(v.members)
  }

  predicate UniqueMembers(m: Members) {
    m.Member? ==> m.key !in Keys(m.tail) && Unique(m.value) && UniqueMembers(m.tail)
  }

  // ---- sorting ----

  function Insert(key: string, value: Value, m: Members): (r: Members)
    ensures r.Member?
  {
    if m.End? || Less(key, m.key) then Member(key, value, m)
    else Member(m.key, m.value, Insert(key, value, m.tail))
  }

  function Sort(v: Value): Value {
    if v.Object? then Object(SortMembers(v.members)) else v
  }

  function SortMembers(m: Members): Members {
    if m.End? then End else Insert(m.key, Sort(m.value), SortMembers(m.tail))
  }

  function Dumps(v: Value): string {
    Print(Sort(v))
  }

  predicate InOrder(m: Members) {
    m.Member? && m.tail.Member? ==> Less(m.key, m.tail.key) && InOrder(m.tail)
  }

  lemma {:induction false} HeadIsFirst(m: Members, key: string)
    requires m.Member? && InOrder(m) && key in Keys(m.tail)
    ensures Less(m.key, key)
  {
    if m.tail.key != key {
      HeadIsFirst(m.tail, key);
      LessIsTransitive(m.key, m.tail.key, key);
    }
  }

  lemma {:induction false} InsertKeeps(key: string, value: Value, m: Members, k: string)
    requires key !in Keys(m)
    ensures Lookup(Insert(key, value, m), k) == if k == key then Some(value) else Lookup(m, k)
  {
    if m.Member? && !Less(key, m.key) {
      InsertKeeps(key, value, m.tail, k);
    }
  }

  lemma {:induction false} InsertInOrder(key: string, value: Value, m: Members)
    requires InOrder(m) && key !in Keys(m)
    ensures InOrder(Insert(key, value, m))
  {
    if m.Member? && !Less(key, m.key) {
      LessIsTotal(key, m.key);
      InsertInOrder(key, value, m.tail);
      InsertKeeps(key, value, m.tail, Insert(key, value, m.tail).key);
      if m.tail.Member? && !Less(key, m.tail.key) {
        assert Insert(key, value, m.tail).key == m.tail.key;
      }
    }
  }

  function Sorted(v: Option<Value>): Option<Value> {
    if v.None? then None else Some(Sort(v.value))
  }

  /** Sorting an object sorts what each key holds and puts the keys in order. */
  lemma {:induction false} SortMembersKeeps(m: Members)
    requires UniqueMembers(m)
    ensures forall k :: Lookup(SortMembers(m), k) == Sorted(Lookup(m, k))
    ensures InOrder(SortMembers(m))
  {
    if m.Member? {
      SortMembersKeeps(m.tail);
      var sorted := SortMembers(m.tail);
      assert Lookup(sorted, m.key) == None;
      forall k ensures Lookup(SortMembers(m), k) == Sorted(Lookup(m, k)) {
        InsertKeeps(m.key, Sort(m.value), sorted, k);
      }
      InsertInOrder(m.key, Sort(m.value), sorted);
    }
  }

  ghost predicate SameMembers(a: Members, b: Members) {
    forall k :: Lookup(a, k) == Lookup(b, k)
  }

  lemma FirstOfBoth(a: Members, b: Members)
    requires InOrder(a) && InOrder(b) && SameMembers(a, b)
    ensures a.Member? <==> b.Member?
    ensures a.Member? ==> a.key == b.key && a.value == b.value
  {
    assert b.Member? ==> Lookup(a, b.key) == Some(b.value);
    if a.Member? {
      assert Lookup(b, a.key) == Some(a.value);
      if a.key != b.key {
        HeadIsFirst(a, b.key);
        HeadIsFirst(b, a.key);
        LessIsTransitive(a.key, b.key, a.key);
        LessIsStrict(a.key);
      }
    }
  }

  /** There is one ordered list for each dictionary. */
  lemma {:induction false} OneOrderedList(a: Members, b: Members)
    requires InOrder(a) && InOrder(b) && SameMembers(a, b)
    ensures a == b
  {
    FirstOfBoth(a, b);
    if a.Member? {
      forall k ensures Lookup(a.tail, k) == Lookup(b.tail, k) {
        assert Lookup(a, k) == Lookup(b, k);
        if k == a.key {
          NotAgain(a);
          NotAgain(b);
        }
      }
      OneOrderedList(a.tail, b.tail);
    }
  }

  lemma NotAgain(m: Members)
    requires m.Member? && InOrder(m)
    ensures Lookup(m.tail, m.key) == None
  {
    if m.key in Keys(m.tail) {
      HeadIsFirst(m, m.key);
      LessIsStrict(m.key);
    }
  }

  ghost predicate SameDictionary(a: Members, b: Members) {
    forall k :: Sorted(Lookup(a, k)) == Sorted(Lookup(b, k))
  }

  /** Two objects with the same members are printed alike. */
  lemma DumpsIgnoresOrder(a: Members, b: Members)
    requires UniqueMembers(a) && UniqueMembers(b) && SameDictionary(a, b)
    ensures Sort(Object(a)) == Sort(Object(b))
  {
    SortMembersKeeps(a);
    SortMembersKeeps(b);
    OneOrderedList(SortMembers(a), SortMembers(b));
  }

  lemma {:induction false} UniqueInsert(key: string, value: Value, m: Members)
    requires UniqueMembers(m) && key !in Keys(m) && Unique(value)
    ensures UniqueMembers(Insert(key, value, m))
  {
    if m.Member? && !Less(key, m.key) {
      UniqueInsert(key, value, m.tail);
      InsertKeeps(key, value, m.tail, m.key);
    }
  }

  lemma {:induction false} SortIsUnique(v: Value)
    requires Unique(v)
    ensures Unique(Sort(v))
    decreases v
  {
    if v.Object? {
      SortMembersIsUnique(v.members);
    }
  }

  lemma {:induction false} SortMembersIsUnique(m: Members)
    requires UniqueMembers(m)
    ensures UniqueMembers(SortMembers(m))
    decreases m
  {
    if m.Member? {
      SortIsUnique(m.value);
      SortMembersIsUnique(m.tail);
      SortMembersKeeps(m.tail);
      assert Lookup(SortMembers(m.tail), m.key) == None;
      UniqueInsert(m.key, Sort(m.value), SortMembers(m.tail));
    }
  }

  lemma {:induction false} SortTwice(v: Value)
    requires Unique(v)
    ensures Sort(Sort(v)) == Sort(v)
    decreases v
  {
    if v.Object? {
      SortMembersKeeps(v.members);
      SortIsUnique(v);
      forall k ensures Sorted(Lookup(SortMembers(v.members), k)) == Sorted(Lookup(v.members, k)) {
        if Lookup(v.members, k).Some? {
          LookupIsPart(v.members, k);
          SortTwice(Lookup(v.members, k).value);
        }
      }
      DumpsIgnoresOrder(SortMembers(v.members), v.members);
    }
  }

  lemma {:induction false} LookupIsPart(m: Members, k: string)
    requires Lookup(m, k).Some?
    ensures Lookup(m, k).value < m
    ensures UniqueMembers(m) ==> Unique(Lookup(m, k).value)
  {
    if m.key != k {
      LookupIsPart(m.tail, k);
    }
  }

  lemma {:induction false} InsertPrintable(key: string, value: Value, m: Members)
    requires Safe(key) && Printable(value) && AllPrintable(m)
    ensures AllPrintable(Insert(key, value, m))
  {
    if m.Member? && !Less(key, m.key) {
      InsertPrintable(key, value, m.tail);
    }
  }

  lemma {:induction false} SortPrintable(v: Value)
    requires Printable(v)
    ensures Printable(Sort(v))
    decreases v
  {
    if v.Object? {
      SortMembersPrintable(v.members);
    }
  }

  lemma {:induction false} SortMembersPrintable(m: Members)
    requires AllPrintable(m)
    ensures AllPrintable(SortMembers(m))
    decreases m
  {
    if m.Member? {
      SortPrintable(m.value);
      SortMembersPrintable(m.tail);
      InsertPrintable(m.key, Sort(m.value), SortMembers(m.tail));
    }
  }

  /** Reading what `dumps` printed gives the sorted value, which prints the same again. */
  lemma LoadsOfDumps(v: Value)
    requires Printable(v) && Unique(v)
    ensures Loads(Dumps(v)) == Some(Sort(v))
    ensures Unique(Sort(v)) && Dumps(Sort(v)) == Dumps(v)
  {
    SortPrintable(v);
    LoadsOfPrint(Sort(v));
    SortIsUnique(v);
    SortTwice(v);
  }
}
