/** The CHECK bodies of 0081, 0082, 0088 and 0093, and exactly the rows that each admits. */
module CheckBodies {
  import opened CheckLogic

  function NotNull(c: Column): Cond {
    Not(IsNull(Col(c)))
  }

  function Both(conditions: seq<Cond>): Cond
    requires conditions != []
  {
    if |conditions| == 1 then conditions[0] else And(conditions[0], Both(conditions[1..]))
  }

  // ---- evaluation, one connective at a time ----

  lemma {:induction false} EvalOr(a: Cond, b: Cond, row: Row)
    ensures Eval(Or(a, b), row) == Disjoin(Eval(a, row), Eval(b, row))
  {
  }

  lemma {:induction false} EvalAnd(a: Cond, b: Cond, row: Row)
    ensures Eval(And(a, b), row) == Conjoin(Eval(a, row), Eval(b, row))
  {
  }

  lemma {:induction false} EvalNotNull(c: Column, row: Row)
    ensures Eval(NotNull(c), row) == FromBool(!row(c).Null?)
  {
    assert Eval(IsNull(Col(c)), row) == FromBool(row(c).Null?);
  }

  lemma {:induction false} EvalEqual(c: Column, s: string, row: Row)
    ensures Eval(Equal(Col(c), Lit(s)), row) == if row(c).Null? then Unknown else FromBool(row(c) == Text(s))
  {
  }

  /** `c IN (a, b, d)` is a chain of comparisons. */
  function OneOf(c: Column, texts: seq<string>): Cond
    requires texts != []
  {
    if |texts| == 1 then Equal(Col(c), Lit(texts[0])) else Or(Equal(Col(c), Lit(texts[0])), OneOf(c, texts[1..]))
  }

  lemma {:induction false} EvalOneOf(c: Column, texts: seq<string>, row: Row)
    requires texts != []
    ensures Eval(OneOf(c, texts), row) ==
      if row(c).Null? then Unknown else FromBool(exists i :: 0 <= i < |texts| && row(c) == Text(texts[i]))
  {
    EvalEqual(c, texts[0], row);
    if |texts| > 1 {
      EvalOneOf(c, texts[1..], row);
      EvalOr(Equal(Col(c), Lit(texts[0])), OneOf(c, texts[1..]), row);
      assert (exists i :: 0 <= i < |texts| && row(c) == Text(texts[i])) <==>
        row(c) == Text(texts[0]) || exists i :: 0 <= i < |texts[1..]| && row(c) == Text(texts[1..][i]) by {
        assert forall i :: 1 <= i < |texts| ==> texts[i] == texts[1..][i - 1];
      }
    }
  }

  // ---- 0093: a blob's object version ----

  datatype Sources = Sources(unversioned: string, promotion: string, write: string, backfill: string)

  function VersionBinding(s: Sources): Cond {
    Case(Coalesce(Col(VersionSource), Lit("")),
         [Arm(Lit(""), IsNull(Col(VersionId))), Arm(Lit(s.unversioned), IsNull(Col(VersionId))),
          Arm(Lit(s.promotion), NotNull(VersionId)), Arm(Lit(s.write), NotNull(VersionId)),
          Arm(Lit(s.backfill), NotNull(VersionId))],
         Const(false))
  }

  /** An id goes with a source that gives one, and with no other. */
  predicate BindingIntended(s: Sources, source: Value, id: Value) {
    if source.Null? || source == Text("") || source == Text(s.unversioned) then id.Null?
    else (source == Text(s.promotion) || source == Text(s.write) || source == Text(s.backfill)) && !id.Null?
  }

  /** The source as the CASE sees it: a missing one is the empty text. */
  function Subject(source: Value): Value {
    if source.Null? then Text("") else source
  }

  /** The last three arms, which ask for an id. */
  lemma EvalPresentArms(s: Sources, row: Row)
    ensures var subject := Subject(row(VersionSource));
            EvalArms(VersionBinding(s), 2, row) ==
              if subject == Text(s.promotion) || subject == Text(s.write) || subject == Text(s.backfill)
              then FromBool(!row(VersionId).Null?) else False
  {
    var c := VersionBinding(s);
    EvalNotNull(VersionId, row);
    assert EvalArms(c, 5, row) == False;
    assert EvalArms(c, 4, row) == if Chooses(c.subject, Lit(s.backfill), row) then Eval(NotNull(VersionId), row)
      else EvalArms(c, 5, row);
    assert EvalArms(c, 3, row) == if Chooses(c.subject, Lit(s.write), row) then Eval(NotNull(VersionId), row)
      else EvalArms(c, 4, row);
  }

  lemma EvalVersionBinding(s: Sources, row: Row)
    ensures var subject := Subject(row(VersionSource));
            Eval(VersionBinding(s), row) ==
              if subject == Text("") || subject == Text(s.unversioned) then FromBool(row(VersionId).Null?)
              else EvalArms(VersionBinding(s), 2, row)
  {
    var c := VersionBinding(s);
    assert Eval(c, row) == if Chooses(c.subject, Lit(""), row) then Eval(IsNull(Col(VersionId)), row)
      else EvalArms(c, 1, row);
    assert EvalArms(c, 1, row) == if Chooses(c.subject, Lit(s.unversioned), row) then Eval(IsNull(Col(VersionId)), row)
      else EvalArms(c, 2, row);
  }

  lemma VersionBindingIsExact(s: Sources, row: Row)
    requires Typed(row, {})
    ensures Admits(VersionBinding(s), row) <==> BindingIntended(s, row(VersionSource), row(VersionId))
    ensures Eval(VersionBinding(s), row) != Unknown
  {
    NeverNullIsSound(VersionBinding(s), row, {});
    EvalVersionBinding(s, row);
    EvalPresentArms(s, row);
  }

  /** The same intention written as a chain of ORs. */
  function OrChain(s: Sources): Cond {
    Or(And(Or(IsNull(Col(VersionSource)), OneOf(VersionSource, ["", s.unversioned])), IsNull(Col(VersionId))),
       And(OneOf(VersionSource, [s.promotion, s.write, s.backfill]), NotNull(VersionId)))
  }

  lemma EvalOrChain(s: Sources, row: Row)
    ensures var source := row(VersionSource);
            var without := source.Null? || source == Text("") || source == Text(s.unversioned);
            var with := if source.Null? then Unknown
              else FromBool(source == Text(s.promotion) || source == Text(s.write) || source == Text(s.backfill));
            Eval(OrChain(s), row) ==
              Disjoin(Conjoin(FromBool(without), FromBool(row(VersionId).Null?)),
                Conjoin(with, FromBool(!row(VersionId).Null?)))
  {
    var without := OneOf(VersionSource, ["", s.unversioned]);
    var with := OneOf(VersionSource, [s.promotion, s.write, s.backfill]);
    var isNull := IsNull(Col(VersionSource));
    EvalOneOf(VersionSource, ["", s.unversioned], row);
    EvalOneOf(VersionSource, [s.promotion, s.write, s.backfill], row);
    EvalOr(isNull, without, row);
    EvalAnd(Or(isNull, without), IsNull(Col(VersionId)), row);
    EvalNotNull(VersionId, row);
    EvalAnd(with, NotNull(VersionId), row);
    EvalOr(And(Or(isNull, without), IsNull(Col(VersionId))), And(with, NotNull(VersionId)), row);
    Two("", s.unversioned, row(VersionSource));
    Three(s.promotion, s.write, s.backfill, row(VersionSource));
  }

  lemma Two(a: string, b: string, v: Value)
    ensures (exists i :: 0 <= i < 2 && v == Text([a, b][i])) <==> v == Text(a) || v == Text(b)
  {
    assert [a, b][0] == a && [a, b][1] == b;
  }

  lemma Three(a: string, b: string, c: string, v: Value)
    ensures (exists i :: 0 <= i < 3 && v == Text([a, b, c][i])) <==> v == Text(a) || v == Text(b) || v == Text(c)
  {
    assert [a, b, c][0] == a && [a, b, c][1] == b && [a, b, c][2] == c;
  }

  /** It admits just one kind of row too many: an id without a source. */
  lemma OrChainLetsOneThrough(s: Sources, row: Row)
    requires "" !in {s.promotion, s.write, s.backfill} && s.unversioned !in {s.promotion, s.write, s.backfill}
    ensures Admits(OrChain(s), row) <==>
      BindingIntended(s, row(VersionSource), row(VersionId)) || (row(VersionSource).Null? && !row(VersionId).Null?)
  {
    EvalOrChain(s, row);
  }

  // ---- 0082: an invalidated evidence pack ----

  function InvalidationShape(unavailable: string): Cond {
    Or(Both(Invalidated(unavailable)), Both(Standing(unavailable)))
  }

  predicate InvalidationIntended(unavailable: string, row: Row) {
    if row(Status) == Text(unavailable) then
      !row(InvalidatedAt).Null? && !row(InvalidatedBy).Null? && row(ZipBlob).Null? && row(PortfolioBlob).Null?
    else row(InvalidatedAt).Null? && row(InvalidatedBy).Null?
  }

  function Invalidated(unavailable: string): seq<Cond> {
    [Equal(Col(Status), Lit(unavailable)), NotNull(InvalidatedAt), NotNull(InvalidatedBy), IsNull(Col(ZipBlob)),
      IsNull(Col(PortfolioBlob))]
  }

  function Standing(unavailable: string): seq<Cond> {
    [Not(Equal(Col(Status), Lit(unavailable))), IsNull(Col(InvalidatedAt)), IsNull(Col(InvalidatedBy))]
  }

  lemma EvalInvalidated(unavailable: string, row: Row)
    requires Typed(row, {Status})
    ensures Eval(Both(Invalidated(unavailable)), row) == FromBool(
      row(Status) == Text(unavailable) && !row(InvalidatedAt).Null? && !row(InvalidatedBy).Null? && row(ZipBlob).Null?
        && row(PortfolioBlob).Null?)
  {
    var cs := Invalidated(unavailable);
    BothIsAll(cs, row, {Status});
    EvalEqual(Status, unavailable, row);
    EvalNotNull(InvalidatedAt, row);
    EvalNotNull(InvalidatedBy, row);
    assert cs[0] == Equal(Col(Status), Lit(unavailable)) && cs[1] == NotNull(InvalidatedAt)
      && cs[2] == NotNull(InvalidatedBy);
    assert cs[3] == IsNull(Col(ZipBlob)) && cs[4] == IsNull(Col(PortfolioBlob));
  }

  lemma EvalStanding(unavailable: string, row: Row)
    requires Typed(row, {Status})
    ensures Eval(Both(Standing(unavailable)), row) == FromBool(
      row(Status) != Text(unavailable) && row(InvalidatedAt).Null? && row(InvalidatedBy).Null?)
  {
    var cs := Standing(unavailable);
    assert cs[0] == Not(Equal(Col(Status), Lit(unavailable)));
    assert cs[1] == IsNull(Col(InvalidatedAt)) && cs[2] == IsNull(Col(InvalidatedBy));
    EqualIsFit(Status, unavailable);
    NotIsFit(Equal(Col(Status), Lit(unavailable)), {Status});
    BothIsAll(cs, row, {Status});
    EvalEqual(Status, unavailable, row);
  }

  /** A comparison of a text column that is never NULL with a text may stand in a conjunction. */
  lemma {:induction false} EqualIsFit(c: Column, s: string)
    requires c !in {Bound, Bypass}
    ensures NeverNull(Equal(Col(c), Lit(s)), {c}) && WellTyped(Equal(Col(c), Lit(s)))
  {
  }

  lemma {:induction false} NotIsFit(inner: Cond, notNull: set<Column>)
    requires NeverNull(inner, notNull) && WellTyped(inner)
    ensures NeverNull(Not(inner), notNull) && WellTyped(Not(inner))
  {
  }

  /** A pack is invalidated with its time, its event and without its files, or it is none of that. */
  lemma InvalidationShapeIsExact(unavailable: string, row: Row)
    requires Typed(row, {Status})
    ensures Admits(InvalidationShape(unavailable), row) <==> InvalidationIntended(unavailable, row)
  {
    EvalInvalidated(unavailable, row);
    EvalStanding(unavailable, row);
    EvalOr(Both(Invalidated(unavailable)), Both(Standing(unavailable)), row);
  }

  lemma {:induction false} BothIsAll(conditions: seq<Cond>, row: Row, notNull: set<Column>)
    requires conditions != [] && Typed(row, notNull)
    requires forall i :: 0 <= i < |conditions| ==> NeverNull(conditions[i], notNull) && WellTyped(conditions[i])
    ensures Eval(Both(conditions), row).True? <==> forall i :: 0 <= i < |conditions| ==> Eval(conditions[i], row).True?
    ensures Eval(Both(conditions), row) != Unknown
  {
    NeverNullIsSound(conditions[0], row, notNull);
    if |conditions| > 1 {
      BothIsAll(conditions[1..], row, notNull);
      assert forall i :: 1 <= i < |conditions| ==> conditions[i] == conditions[1..][i - 1];
    }
  }

  // ---- 0081: the authority of a purge marker ----

  function AuthorityShape(): Cond {
    Or(Not(Flag(Bound)), And(NotNull(RecordId), And(NotNull(EventId), Or(Not(Flag(Bypass)), NotNull(RequestId)))))
  }

  lemma AuthorityShapeIsExact(row: Row)
    requires Typed(row, {Bound, Bypass})
    ensures Admits(AuthorityShape(), row) <==>
      (row(Bound) == Boolean(true) ==>
         !row(RecordId).Null? && !row(EventId).Null? && (row(Bypass) == Boolean(true) ==> !row(RequestId).Null?))
  {
    assert row(Bound).Boolean? && row(Bypass).Boolean?;
    EvalNotNull(RecordId, row);
    EvalNotNull(EventId, row);
    EvalNotNull(RequestId, row);
    var lawful := Or(Not(Flag(Bypass)), NotNull(RequestId));
    EvalOr(Not(Flag(Bypass)), NotNull(RequestId), row);
    assert Eval(Not(Flag(Bypass)), row) == FromBool(row(Bypass) != Boolean(true));
    EvalAnd(NotNull(EventId), lawful, row);
    EvalAnd(NotNull(RecordId), And(NotNull(EventId), lawful), row);
    assert Eval(Not(Flag(Bound)), row) == FromBool(row(Bound) != Boolean(true));
    EvalOr(Not(Flag(Bound)), And(NotNull(RecordId), And(NotNull(EventId), lawful)), row);
  }

  /** While `authority_bound` can still be NULL the constraint refuses nothing, so rows are classified first. */
  lemma UnclassifiedRowsPass(row: Row)
    requires row(Bound).Null?
    ensures Admits(AuthorityShape(), row)
  {
  }

  // ---- 0088: the receipt of a bootstrap credential ----

  predicate HexChar(c: char) {
    '0' <= c <= '9' || 'a' <= c <= 'f'
  }

  predicate IsDigest(s: string) {
    |s| == 64 && forall i :: 0 <= i < |s| ==> HexChar(s[i])
  }

  /** 64 lower-case hexadecimal digits. */
  lemma DigestIs(s: string)
    ensures IsDigest(s) <==>
      |s| == 64 && forall i :: 0 <= i < |s| ==> 0x30 <= s[i] as int <= 0x39 || 0x61 <= s[i] as int <= 0x66
  {
  }

  function ReceiptHashHex(): Cond {
    Or(IsNull(Col(ReceiptHash)), Matches(Col(ReceiptHash), IsDigest))
  }

  lemma ReceiptHashIsExact(row: Row)
    requires Typed(row, {})
    ensures Admits(ReceiptHashHex(), row) <==>
      row(ReceiptHash).Null? || (row(ReceiptHash).Text? && IsDigest(row(ReceiptHash).s))
  {
    assert Eval(Matches(Col(ReceiptHash), IsDigest), row) ==
      if row(ReceiptHash).Text? then FromBool(IsDigest(row(ReceiptHash).s)) else Unknown;
  }
}
