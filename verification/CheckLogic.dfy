/**
 SQL's three-valued logic, as CHECK constraints use it: a row is refused only when the expression is
 false, so an expression that can be NULL admits more than it seems to.
 */
module CheckLogic {

  /** The columns that the constraints of 0081, 0082, 0088 and 0093 look at. */
  datatype Column =
    | Bound | Bypass | RecordId | EventId | RequestId
    | Status | InvalidatedAt | InvalidatedBy | ZipBlob | PortfolioBlob
    | ReceiptHash | VersionId | VersionSource

  datatype Value = Null | Boolean(b: bool) | Text(s: string)

  /** A row gives every column a value. */
  type Row = Column -> Value

  datatype Expr = Col(c: Column) | Lit(s: string) | Coalesce(first: Expr, second: Expr)

  datatype Arm = Arm(when': Expr, then': Cond)

  datatype Cond =
    | Const(b: bool)
    | Flag(c: Column)
    | IsNull(e: Expr)
    | Equal(left: Expr, right: Expr)
    | Matches(e: Expr, pattern: string -> bool)
    | Not(inner: Cond)
    | And(first: Cond, second: Cond)
    | Or(first: Cond, second: Cond)
    | Case(subject: Expr, arms: seq<Arm>, default': Cond)

  datatype Tri = True | False | Unknown

  function FromBool(b: bool): Tri {
    if b then True else False
  }

  function EvalExpr(e: Expr, row: Row): Value {
    match e
    case Col(c) => row(c)
    case Lit(s) => Text(s)
    case Coalesce(first, second) =>
      var v := EvalExpr(first, row);
      if v.Null? then EvalExpr(second, row) else v
  }

  function Negate(t: Tri): Tri {
    match t
    case True => False
    case False => True
    case Unknown => Unknown
  }

  function Conjoin(a: Tri, b: Tri): Tri {
    if a.False? || b.False? then False else if a.True? && b.True? then True else Unknown
  }

  function Disjoin(a: Tri, b: Tri): Tri {
    if a.True? || b.True? then True else if a.False? && b.False? then False else Unknown
  }

  /** NOT, AND and OR as SQL has them: the laws of De Morgan, and what decides in spite of a NULL. */
  lemma KleeneLaws(a: Tri, b: Tri)
    ensures Negate(Negate(a)) == a && (Negate(a) == a <==> a == Unknown) && Negate(True) == False
    ensures Negate(Conjoin(a, b)) == Disjoin(Negate(a), Negate(b))
    ensures Negate(Disjoin(a, b)) == Conjoin(Negate(a), Negate(b))
    ensures Conjoin(a, b) == Conjoin(b, a) && Conjoin(a, True) == a && Conjoin(a, a) == a && Conjoin(a, False) == False
    ensures Disjoin(a, b) == Disjoin(b, a) && Disjoin(a, False) == a && Disjoin(a, a) == a && Disjoin(a, True) == True
  {
  }

  function Eval(c: Cond, row: Row): Tri
    decreases c, 1
  {
    match c
    case Const(b) => FromBool(b)
    case Flag(col) => (var v := row(col); if v.Boolean? then FromBool(v.b) else Unknown)
    case IsNull(e) => FromBool(EvalExpr(e, row).Null?)
    case Equal(left, right) =>
      var a, b := EvalExpr(left, row), EvalExpr(right, row);
      if a.Null? || b.Null? then Unknown else FromBool(a == b)
    case Matches(e, pattern) => (var v := EvalExpr(e, row); if v.Text? then FromBool(pattern(v.s)) else Unknown)
    case Not(inner) => Negate(Eval(inner, row))
    case And(first, second) => Conjoin(Eval(first, row), Eval(second, row))
    case Or(first, second) => Disjoin(Eval(first, row), Eval(second, row))
    case Case(subject, _, default') => EvalArms(c, 0, row)
  }

  /** The first arm whose value equals the subject; an unknown comparison does not select an arm. */
  function EvalArms(c: Cond, n: nat, row: Row): Tri
    requires c.Case? && n <= |c.arms|
    decreases c, 0, |c.arms| - n
  {
    if n == |c.arms| then Eval(c.default', row)
    else if Chooses(c.subject, c.arms[n].when', row) then Eval(c.arms[n].then', row)
    else EvalArms(c, n + 1, row)
  }

  predicate Chooses(left: Expr, right: Expr, row: Row) {
    !EvalExpr(left, row).Null? && EvalExpr(left, row) == EvalExpr(right, row)
  }

  /** A CHECK refuses a row only when its expression is false. */
  predicate Admits(c: Cond, row: Row) {
    !Eval(c, row).False?
  }

  // ---- a syntactic guarantee against NULL ----

  predicate ExprNeverNull(e: Expr, notNull: set<Column>) {
    match e
    case Col(c) => c in notNull
    case Lit(_) => true
    case Coalesce(first, second) => ExprNeverNull(first, notNull) || ExprNeverNull(second, notNull)
  }

  predicate NeverNull(c: Cond, notNull: set<Column>) {
    match c
    case Const(_) => true
    case Flag(col) => col in notNull
    case IsNull(_) => true
    case Equal(left, right) => ExprNeverNull(left, notNull) && ExprNeverNull(right, notNull)
    case Matches(e, _) => ExprNeverNull(e, notNull)
    case Not(inner) => NeverNull(inner, notNull)
    case And(first, second) => NeverNull(first, notNull) && NeverNull(second, notNull)
    case Or(first, second) => NeverNull(first, notNull) && NeverNull(second, notNull)
    case Case(_, arms, default') =>
      (forall i :: 0 <= i < |arms| ==> NeverNull(arms[i].then', notNull)) && NeverNull(default', notNull)
  }

  /** The row keeps to the NOT NULL columns and to the types of the columns. */
  ghost predicate Typed(row: Row, notNull: set<Column>) {
    && (forall c :: c in notNull ==> !row(c).Null?)
    && (forall c: Column :: row(c).Boolean? ==> c in {Bound, Bypass})
    && (forall c: Column :: row(c).Text? ==> c !in {Bound, Bypass})
  }

  /** Flags are boolean columns and everything that is compared is text. */
  predicate WellTypedExpr(e: Expr) {
    match e
    case Col(c) => c !in {Bound, Bypass}
    case Lit(_) => true
    case Coalesce(first, second) => WellTypedExpr(first) && WellTypedExpr(second)
  }

  predicate WellTyped(c: Cond) {
    match c
    case Const(_) => true
    case Flag(col) => col in {Bound, Bypass}
    case IsNull(_) => true
    case Equal(left, right) => WellTypedExpr(left) && WellTypedExpr(right)
    case Matches(e, _) => WellTypedExpr(e)
    case Not(inner) => WellTyped(inner)
    case And(first, second) => WellTyped(first) && WellTyped(second)
    case Or(first, second) => WellTyped(first) && WellTyped(second)
    case Case(_, arms, default') => (forall i :: 0 <= i < |arms| ==> WellTyped(arms[i].then')) && WellTyped(default')
  }

  lemma {:induction false} ExprIsText(e: Expr, row: Row, notNull: set<Column>)
    requires Typed(row, notNull)
    ensures ExprNeverNull(e, notNull) ==> !EvalExpr(e, row).Null?
    ensures WellTypedExpr(e) ==> !EvalExpr(e, row).Boolean?
  {
    match e
    case Coalesce(first, second) =>
      ExprIsText(first, row, notNull);
      ExprIsText(second, row, notNull);
    case _ =>
  }

  /** The row with a NULL wherever the columns allow one. */
  function Sparse(notNull: set<Column>): Row {
    c => if c !in notNull then Null else if c in {Bound, Bypass} then Boolean(true) else Text("")
  }

  /** For the expressions the analysis is exact: where it does not pass, some row gives NULL. */
  lemma {:induction false} ExprCanBeNull(e: Expr, notNull: set<Column>)
    ensures Typed(Sparse(notNull), notNull)
    ensures ExprNeverNull(e, notNull) <==> !EvalExpr(e, Sparse(notNull)).Null?
  {
    match e
    case Coalesce(first, second) =>
      ExprCanBeNull(first, notNull);
      ExprCanBeNull(second, notNull);
    case _ =>
  }

  /** An expression that the analysis passes is true or false on every row. */
  lemma {:induction false} NeverNullIsSound(c: Cond, row: Row, notNull: set<Column>)
    requires NeverNull(c, notNull) && WellTyped(c) && Typed(row, notNull)
    ensures !Eval(c, row).Unknown?
    decreases c, 1
  {
    match c
    case Equal(left, right) =>
      ExprIsText(left, row, notNull);
      ExprIsText(right, row, notNull);
    case Matches(e, _) => ExprIsText(e, row, notNull);
    case Not(inner) => NeverNullIsSound(inner, row, notNull);
    case And(first, second) =>
      NeverNullIsSound(first, row, notNull);
      NeverNullIsSound(second, row, notNull);
    case Or(first, second) =>
      NeverNullIsSound(first, row, notNull);
      NeverNullIsSound(second, row, notNull);
    case Case(_, _, _) => ArmsNeverNull(c, 0, row, notNull);
    case _ =>
  }

  lemma {:induction false} ArmsNeverNull(c: Cond, n: nat, row: Row, notNull: set<Column>)
    requires c.Case? && n <= |c.arms| && NeverNull(c, notNull) && WellTyped(c) && Typed(row, notNull)
    ensures !EvalArms(c, n, row).Unknown?
    decreases c, 0, |c.arms| - n
  {
    if n == |c.arms| {
      NeverNullIsSound(c.default', row, notNull);
    } else {
      NeverNullIsSound(c.arms[n].then', row, notNull);
      ArmsNeverNull(c, n + 1, row, notNull);
    }
  }
}
