/**
 `_history_phase_diagnostic`: a phase payload is accepted exactly when it is the sorted, compact print
 of a valid record.
 */
module HistoryPhases {
  import opened Wrappers
  import opened Json
  import opened JsonOrder

  const MAX_DURATION := 1_200_000

  /** The names that the payload and its objects use. */
  datatype Schema = Schema(
    completedKey: string, phaseKey: string, elapsedKey: string, subcasesKey: string, totalKey: string,
    phases: seq<string>, completed: map<string, seq<string>>, subcases: seq<string>)

  predicate Names(names: seq<string>) {
    && (forall i :: 0 <= i < |names| ==> Safe(names[i]))
    && (forall i, j :: 0 <= i < j < |names| ==> names[i] != names[j])
  }

  function TopKeys(s: Schema): seq<string> {
    [s.completedKey, s.phaseKey, s.elapsedKey, s.subcasesKey, s.totalKey]
  }

  ghost predicate WellFormed(s: Schema) {
    && Names(TopKeys(s)) && Names(s.subcases) && Names(s.phases)
    && forall p :: p in s.phases ==> p in s.completed && Names(s.completed[p])
  }

  /** A well-formed schema with two phases and two subcases. */
  lemma SchemaExists()
    ensures WellFormed(Schema("c", "p", "e", "s", "t", ["i", "r"], map["i" := [], "r" := ["i"]], ["m", "n"]))
  {
  }

  /** One duration for each completed phase, and for no subcase or every subcase, in the order of their names. */
  datatype Record = Record(phase: string, elapsed: nat, total: nat, completed: seq<nat>, subcases: seq<nat>)

  predicate Durations(ds: seq<nat>, total: nat) {
    forall i :: 0 <= i < |ds| ==> ds[i] <= 1_200_000 && ds[i] <= total
  }

  predicate Valid(s: Schema, r: Record) {
    && r.phase in s.phases && r.phase in s.completed
    && r.total <= 1_200_000 && r.elapsed <= r.total
    && |r.completed| == |s.completed[r.phase]| && Durations(r.completed, r.total)
    && (|r.subcases| == 0 || |r.subcases| == |s.subcases|) && Durations(r.subcases, r.total)
  }

  // ---- printing a record ----

  function Zip(names: seq<string>, values: seq<Value>): Members
    requires |names| == |values|
  {
    if names == [] then End else Member(names[0], values[0], Zip(names[1..], values[1..]))
  }

  function Numbers(values: seq<nat>): (r: seq<Value>)
    ensures |r| == |values|
    ensures forall i :: 0 <= i < |values| ==> r[i] == Number(values[i])
  {
    seq(|values|, i requires 0 <= i < |values| => Number(values[i]))
  }

  function CompletedObject(s: Schema, r: Record): Value
    requires Valid(s, r)
  {
    Object(Zip(s.completed[r.phase], Numbers(r.completed)))
  }

  function SubcasesObject(s: Schema, r: Record): Value
    requires Valid(s, r)
  {
    Object(if r.subcases == [] then End else Zip(s.subcases, Numbers(r.subcases)))
  }

  function TopValues(s: Schema, r: Record): seq<Value>
    requires Valid(s, r)
  {
    [CompletedObject(s, r), Text(r.phase), Number(r.elapsed), SubcasesObject(s, r), Number(r.total)]
  }

  function AsJson(s: Schema, r: Record): Value
    requires Valid(s, r)
  {
    Object(Zip(TopKeys(s), TopValues(s, r)))
  }

  function PrintRecord(s: Schema, r: Record): string
    requires Valid(s, r)
  {
    Dumps(AsJson(s, r))
  }

  // ---- the gate ----

  /** `_is_history_duration` of every named member, in the order of the names. */
  function NumbersOf(m: Members, names: seq<string>, total: nat): (r: Option<seq<nat>>)
    ensures r.Some? ==> |r.value| == |names| && Durations(r.value, total)
  {
    if names == [] then Some([])
    else
      var v := Lookup(m, names[0]);
      var rest := NumbersOf(m, names[1..], total);
      if v.None? || !v.value.Number? || v.value.n > MAX_DURATION || v.value.n > total || rest.None? then None
      else Some([v.value.n] + rest.value)
  }

  /** The durations of an object whose keys must be exactly `names`. */
  function Exactly(m: Members, names: seq<string>, total: nat): Option<seq<nat>> {
    if Keys(m) != (set n | n in names) then None else NumbersOf(m, names, total)
  }

  function Fields(s: Schema, m: Members): Option<Record> {
    var completed, phase, elapsed := Lookup(m, s.completedKey), Lookup(m, s.phaseKey), Lookup(m, s.elapsedKey);
    var subcases, total := Lookup(m, s.subcasesKey), Lookup(m, s.totalKey);
    if completed.None? || phase.None? || elapsed.None? || subcases.None? || total.None? then None
    else FieldValues(s, completed.value, phase.value, elapsed.value, subcases.value, total.value)
  }

  function FieldValues(s: Schema, completed: Value, phase: Value, elapsed: Value, subcases: Value,
          total: Value): (r: Option<Record>)
    ensures r.Some? ==> Valid(s, r.value)
  {
    if !phase.Text? || phase.chars !in s.phases || phase.chars !in s.completed then None
    else if !total.Number? || total.n > MAX_DURATION then None
    else if !elapsed.Number? || elapsed.n > total.n then None
    else if !completed.Object? || !subcases.Object? then None
    else
      var c := Exactly(completed.members, s.completed[phase.chars], total.n);
      var d := if subcases.members.End? then Some([]) else Exactly(subcases.members, s.subcases, total.n);
      if c.None? || d.None? then None
      else Some(Record(phase.chars, elapsed.n, total.n, c.value, d.value))
  }

  function Gate(s: Schema, payload: string): Option<Record> {
    var v := Loads(payload);
    if v.None? || !Unique(v.value) then None
    else if !v.value.Object? || Dumps(v.value) != payload then None
    else if Keys(v.value.members) != (set k | k in TopKeys(s)) then None
    else Fields(s, v.value.members)
  }

  // ---- the members of a printed object ----

  lemma {:induction false} ZipHolds(names: seq<string>, values: seq<Value>)
    requires |names| == |values| && Names(names)
    requires forall i :: 0 <= i < |values| ==> Unique(values[i]) && Printable(values[i])
    ensures UniqueMembers(Zip(names, values)) && AllPrintable(Zip(names, values))
    ensures forall i :: 0 <= i < |names| ==> Lookup(Zip(names, values), names[i]) == Some(values[i])
    ensures Keys(Zip(names, values)) == set n | n in names
  {
    if names != [] {
      ZipHolds(names[1..], values[1..]);
      assert names == [names[0]] + names[1..];
      assert names[0] !in names[1..];
      forall i | 0 <= i < |names| ensures Lookup(Zip(names, values), names[i]) == Some(values[i]) {
        if i > 0 { assert names[1..][i - 1] == names[i]; }
      }
    }
  }

  /** The sorted object holds the same names with their sorted values. */
  lemma SortedZip(names: seq<string>, values: seq<Value>)
    requires |names| == |values| && Names(names)
    requires forall i :: 0 <= i < |values| ==> Unique(values[i]) && Printable(values[i])
    ensures forall i :: 0 <= i < |names| ==> Lookup(SortMembers(Zip(names, values)), names[i]) == Some(Sort(values[i]))
    ensures Keys(SortMembers(Zip(names, values))) == set n | n in names
  {
    var m := Zip(names, values);
    ZipHolds(names, values);
    SortMembersKeeps(m);
    forall k ensures k in Keys(SortMembers(m)) <==> k in names {
      assert k in Keys(m) <==> k in names;
    }
  }

  /** An object with exactly these names and these sorted values is, as a dictionary, the zipped one. */
  lemma IsZip(m: Members, names: seq<string>, values: seq<Value>)
    requires |names| == |values| && Names(names)
    requires forall i :: 0 <= i < |values| ==> Unique(values[i]) && Printable(values[i])
    requires Keys(m) == set n | n in names
    requires forall i :: 0 <= i < |names| ==> Sorted(Lookup(m, names[i])) == Some(Sort(values[i]))
    ensures SameDictionary(m, Zip(names, values))
  {
    ZipHolds(names, values);
    forall k ensures Sorted(Lookup(m, k)) == Sorted(Lookup(Zip(names, values), k)) {
      if k in names {
        var i :| 0 <= i < |names| && names[i] == k;
      } else {
        assert k !in Keys(m) && k !in Keys(Zip(names, values));
      }
    }
  }

  // ---- durations ----

  lemma {:induction false} NumbersOfHeld(m: Members, names: seq<string>, values: seq<nat>, total: nat)
    requires |names| == |values| && Durations(values, total)
    requires forall i :: 0 <= i < |names| ==> Lookup(m, names[i]) == Some(Number(values[i]))
    ensures NumbersOf(m, names, total) == Some(values)
  {
    if names != [] {
      assert Lookup(m, names[0]) == Some(Number(values[0]));
      forall i | 0 <= i < |names| - 1 ensures Lookup(m, names[1..][i]) == Some(Number(values[1..][i])) {
        assert Lookup(m, names[i + 1]) == Some(Number(values[i + 1]));
      }
      NumbersOfHeld(m, names[1..], values[1..], total);
      assert values == [values[0]] + values[1..];
    }
  }

  lemma {:induction false} NumbersOfFound(m: Members, names: seq<string>, total: nat)
    requires NumbersOf(m, names, total).Some?
    ensures forall i :: 0 <= i < |names| ==> Lookup(m, names[i]) == Some(Number(NumbersOf(m, names, total).value[i]))
  {
    if names != [] {
      NumbersOfFound(m, names[1..], total);
      forall i | 0 <= i < |names| ensures Lookup(m, names[i]) == Some(Number(NumbersOf(m, names, total).value[i])) {
        if i > 0 { assert names[1..][i - 1] == names[i]; }
      }
    }
  }

  /** An object read as durations sorts to the one that those durations print. */
  lemma DurationsFound(m: Members, names: seq<string>, total: nat)
    requires Names(names) && UniqueMembers(m) && Exactly(m, names, total).Some?
    ensures Sort(Object(m)) == Sort(Object(Zip(names, Numbers(Exactly(m, names, total).value))))
  {
    var values := Numbers(Exactly(m, names, total).value);
    NumbersOfFound(m, names, total);
    IsZip(m, names, values);
    ZipHolds(names, values);
    DumpsIgnoresOrder(m, Zip(names, values));
  }

  lemma DurationsOfPrinted(names: seq<string>, values: seq<nat>, total: nat)
    requires |names| == |values| && Names(names) && Durations(values, total)
    ensures Exactly(SortMembers(Zip(names, Numbers(values))), names, total) == Some(values)
  {
    SortedZip(names, Numbers(values));
    NumbersOfHeld(SortMembers(Zip(names, Numbers(values))), names, values, total);
  }

  // ---- the record's own object ----

  lemma TopValuesHold(s: Schema, r: Record)
    requires WellFormed(s) && Valid(s, r)
    ensures forall i :: 0 <= i < |TopValues(s, r)| ==> Unique(TopValues(s, r)[i]) && Printable(TopValues(s, r)[i])
  {
    ZipHolds(s.completed[r.phase], Numbers(r.completed));
    if r.subcases != [] {
      ZipHolds(s.subcases, Numbers(r.subcases));
    }
  }

  lemma AsJsonHolds(s: Schema, r: Record)
    requires WellFormed(s) && Valid(s, r)
    ensures Unique(AsJson(s, r)) && Printable(AsJson(s, r))
  {
    TopValuesHold(s, r);
    ZipHolds(TopKeys(s), TopValues(s, r));
  }

  /** What the five lookups of a printed record find. */
  ghost predicate HoldsRecord(s: Schema, m: Members, r: Record)
    requires Valid(s, r)
  {
    && Sorted(Lookup(m, s.completedKey)) == Some(Sort(CompletedObject(s, r)))
    && Lookup(m, s.phaseKey) == Some(Text(r.phase))
    && Lookup(m, s.elapsedKey) == Some(Number(r.elapsed))
    && Sorted(Lookup(m, s.subcasesKey)) == Some(Sort(SubcasesObject(s, r)))
    && Lookup(m, s.totalKey) == Some(Number(r.total))
  }

  lemma PrintedMembers(s: Schema, r: Record)
    requires WellFormed(s) && Valid(s, r)
    ensures var m := SortMembers(Zip(TopKeys(s), TopValues(s, r)));
            && Lookup(m, s.completedKey) == Some(Sort(CompletedObject(s, r)))
            && Lookup(m, s.phaseKey) == Some(Text(r.phase))
            && Lookup(m, s.elapsedKey) == Some(Number(r.elapsed))
            && Lookup(m, s.subcasesKey) == Some(Sort(SubcasesObject(s, r)))
            && Lookup(m, s.totalKey) == Some(Number(r.total))
            && Keys(m) == set k | k in TopKeys(s)
  {
    TopValuesHold(s, r);
    SortedZip(TopKeys(s), TopValues(s, r));
    var t := TopKeys(s);
    assert t[0] == s.completedKey && t[1] == s.phaseKey && t[2] == s.elapsedKey && t[3] == s.subcasesKey
      && t[4] == s.totalKey;
  }

  lemma FieldsOfPrinted(s: Schema, r: Record)
    requires WellFormed(s) && Valid(s, r)
    ensures FieldValues(s, Sort(CompletedObject(s, r)), Text(r.phase), Number(r.elapsed), Sort(SubcasesObject(s, r)),
      Number(r.total)) == Some(r)
  {
    DurationsOfPrinted(s.completed[r.phase], r.completed, r.total);
    if r.subcases != [] {
      DurationsOfPrinted(s.subcases, r.subcases, r.total);
    }
  }

  lemma PrintedPasses(s: Schema, r: Record)
    requires WellFormed(s) && Valid(s, r)
    ensures Gate(s, PrintRecord(s, r)) == Some(r)
  {
    AsJsonHolds(s, r);
    LoadsOfDumps(AsJson(s, r));
    PrintedMembers(s, r);
    FieldsOfPrinted(s, r);
  }

  // ---- what an accepted payload holds ----

  lemma CompletedFound(s: Schema, m: Members)
    requires WellFormed(s) && UniqueMembers(m) && Fields(s, m).Some?
    ensures Sorted(Lookup(m, s.completedKey)) == Some(Sort(CompletedObject(s, Fields(s, m).value)))
  {
    var r := Fields(s, m).value;
    LookupIsPart(m, s.completedKey);
    DurationsFound(Lookup(m, s.completedKey).value.members, s.completed[r.phase], r.total);
  }

  lemma SubcasesFound(s: Schema, m: Members)
    requires WellFormed(s) && UniqueMembers(m) && Fields(s, m).Some?
    ensures Sorted(Lookup(m, s.subcasesKey)) == Some(Sort(SubcasesObject(s, Fields(s, m).value)))
  {
    var r := Fields(s, m).value;
    LookupIsPart(m, s.subcasesKey);
    var d := Lookup(m, s.subcasesKey).value.members;
    if d.Member? {
      DurationsFound(d, s.subcases, r.total);
    }
  }

  lemma RecordFound(s: Schema, m: Members)
    requires WellFormed(s) && UniqueMembers(m) && Fields(s, m).Some?
    ensures HoldsRecord(s, m, Fields(s, m).value)
  {
    CompletedFound(s, m);
    SubcasesFound(s, m);
  }

  lemma TopValuesFound(s: Schema, m: Members, r: Record)
    requires Valid(s, r) && HoldsRecord(s, m, r)
    ensures |TopKeys(s)| == |TopValues(s, r)|
    ensures forall i :: 0 <= i < |TopKeys(s)| ==> Sorted(Lookup(m, TopKeys(s)[i])) == Some(Sort(TopValues(s, r)[i]))
  {
  }

  lemma RecordIsZip(s: Schema, m: Members, r: Record)
    requires WellFormed(s) && Valid(s, r) && HoldsRecord(s, m, r)
    requires Keys(m) == set k | k in TopKeys(s)
    ensures SameDictionary(m, Zip(TopKeys(s), TopValues(s, r)))
  {
    TopValuesHold(s, r);
    TopValuesFound(s, m, r);
    IsZip(m, TopKeys(s), TopValues(s, r));
  }

  lemma FieldsFound(s: Schema, m: Members)
    requires WellFormed(s) && UniqueMembers(m)
    requires Keys(m) == set k | k in TopKeys(s)
    requires Fields(s, m).Some?
    ensures SameDictionary(m, Zip(TopKeys(s), TopValues(s, Fields(s, m).value)))
  {
    RecordFound(s, m);
    RecordIsZip(s, m, Fields(s, m).value);
  }

  /** A payload is accepted, with this reading, exactly when it is the canonical print of this valid record. */
  lemma GateIsExact(s: Schema, payload: string, r: Record)
    requires WellFormed(s)
    ensures Gate(s, payload) == Some(r) <==> Valid(s, r) && payload == PrintRecord(s, r)
  {
    if Gate(s, payload) == Some(r) {
      var v := Loads(payload).value;
      FieldsFound(s, v.members);
      AsJsonHolds(s, r);
      DumpsIgnoresOrder(v.members, AsJson(s, r).members);
    }
    if Valid(s, r) && payload == PrintRecord(s, r) {
      PrintedPasses(s, r);
    }
  }

  /** Two valid records never print alike. */
  lemma PrintRecordIsInjective(s: Schema, r: Record, q: Record)
    requires WellFormed(s) && Valid(s, r) && Valid(s, q) && PrintRecord(s, r) == PrintRecord(s, q)
    ensures r == q
  {
    PrintedPasses(s, r);
    PrintedPasses(s, q);
  }
}
