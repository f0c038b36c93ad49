/** Boolean evaluation: AND, OR, NOT and null tests over values that may be Null. */
module Evaluation {
  import opened Syntax

  /** Values as far as boolean evaluation tells them apart. */
  datatype Value = NullValue | BoolValue(b: bool) | IntValue(n: int) | FloatValue(f: real) | Other

  datatype EvalError = NonBooleanOperand | NotNeedsBoolean | NegNeedsNumber | Unsupported

  datatype Result = Ok(value: Value) | Err(error: EvalError)

  type Row = map<string, Value>

  function EvalLiteral(l: Literal): Value {
    match l
    case NullLit => NullValue
    case BoolLit(b) => BoolValue(b)
    case IntegerLit(n) => IntValue(n)
    case FloatLit(f) => FloatValue(f)
    case StringLit(_) => Other
  }

  /** AND and OR on evaluated operands. */
  function EvalBooleanOp(conj: bool, left: Value, right: Value): Result {
    match (left, right)
    case (BoolValue(a), BoolValue(b)) => Ok(BoolValue(if conj then a && b else a || b))
    case (NullValue, BoolValue(b)) => if b == conj then Ok(NullValue) else Ok(BoolValue(b))
    case (BoolValue(a), NullValue) => if a == conj then Ok(NullValue) else Ok(BoolValue(a))
    case (NullValue, NullValue) => Ok(NullValue)
    case _ => Err(NonBooleanOperand)
  }

  function EvalUnaryOp(op: UnaryOp, v: Value): Result {
    match op
    case NotOp => (
      match v
      case BoolValue(b) => Ok(BoolValue(!b))
      case NullValue => Ok(NullValue)
      case _ => Err(NotNeedsBoolean)
    )
    case NegOp => (
      match v
      case IntValue(n) => Ok(IntValue(-n))
      case FloatValue(f) => Ok(FloatValue(-f))
      case NullValue => Ok(NullValue)
      case _ => Err(NegNeedsNumber)
    )
  }

  /** Evaluation of literals, variables, the boolean operators and null tests, with the
      short circuits of the source: `false AND x` and `true OR x` do not evaluate x. */
  function Eval(e: Expression, row: Row): Result {
    match e
    case Lit(l) => Ok(EvalLiteral(l))
    case Variable(name) => Ok(if name in row then row[name] else NullValue)
    case Binary(op, lhs, rhs) =>
      if op != AndOp && op != OrOp then Err(Unsupported)
      else
        var left := Eval(lhs, row);
        if left.Err? then left
        else if left.value == BoolValue(op == OrOp) then left
        else
          var right := Eval(rhs, row);
          if right.Err? then right else EvalBooleanOp(op == AndOp, left.value, right.value)
    case Unary(op, operand) =>
      var v := Eval(operand, row);
      if v.Err? then v else EvalUnaryOp(op, v.value)
    case IsNull(inner, negated) =>
      var v := Eval(inner, row);
      if v.Err? then v else Ok(BoolValue((v.value == NullValue) != negated))
    case _ => Err(Unsupported)
  }

  // ---------------------------------------------------------------------------
  // Kleene's strong three-valued logic
  // ---------------------------------------------------------------------------

  /** False, unknown and true as 0, 1 and 2: conjunction is the minimum, disjunction the
      maximum and negation the reflection. */
  function Rank(v: Value): int {
    match v
    case BoolValue(b) => if b then 2 else 0
    case _ => 1
  }

  function Min(a: int, b: int): int { if a < b then a else b }
  function Max(a: int, b: int): int { if a < b then b else a }

  /** Formulas of AND, OR, NOT and null tests over variables, with boolean and Null constants. */
  predicate IsFormula(e: Expression) {
    match e
    case Lit(l) => l.BoolLit? || l.NullLit?
    case Variable(_) => true
    case Binary(op, lhs, rhs) => (op == AndOp || op == OrOp) && IsFormula(lhs) && IsFormula(rhs)
    case Unary(op, operand) => op == NotOp && IsFormula(operand)
    case IsNull(inner, _) => IsFormula(inner)
    case _ => false
  }

  predicate HasNullTest(e: Expression) {
    match e
    case IsNull(_, _) => true
    case Binary(_, lhs, rhs) => HasNullTest(lhs) || HasNullTest(rhs)
    case Unary(_, operand) => HasNullTest(operand)
    case _ => false
  }

  function Kleene(e: Expression, row: Row): int
    requires IsFormula(e)
  {
    match e
    case Lit(l) => Rank(EvalLiteral(l))
    case Variable(name) => if name in row then Rank(row[name]) else 1
    case Binary(op, lhs, rhs) =>
      if op == AndOp then Min(Kleene(lhs, row), Kleene(rhs, row)) else Max(Kleene(lhs, row), Kleene(rhs, row))
    case Unary(_, operand) => 2 - Kleene(operand, row)
    case IsNull(inner, negated) => if (Kleene(inner, row) == 1) == negated then 0 else 2
  }

  predicate IsTruth(v: Value) {
    v.BoolValue? || v.NullValue?
  }

  /** Every variable is bound to a boolean or to Null. */
  predicate IsTruthRow(row: Row) {
    forall name | name in row :: IsTruth(row[name])
  }

  /** Short-circuit evaluation of a formula never fails and computes Kleene's valuation. */
  lemma {:induction false} EvalIsKleene(e: Expression, row: Row)
    requires IsFormula(e) && IsTruthRow(row)
    ensures Eval(e, row).Ok? && IsTruth(Eval(e, row).value)
    ensures Rank(Eval(e, row).value) == Kleene(e, row)
  {
    match e
    case Binary(op, lhs, rhs) =>
      EvalIsKleene(lhs, row);
      EvalIsKleene(rhs, row);
      assert 0 <= Kleene(rhs, row) <= 2;
    case Unary(_, operand) => EvalIsKleene(operand, row);
    case IsNull(inner, _) => EvalIsKleene(inner, row);
    case _ =>
  }

  /** `more` knows at least what `less` knows: it may replace Nulls by booleans. */
  predicate Refines(more: Row, less: Row) {
    forall name | name in less && less[name].BoolValue? :: name in more && more[name] == less[name]
  }

  lemma {:induction false} KleeneMonotone(e: Expression, less: Row, more: Row)
    requires IsFormula(e) && !HasNullTest(e) && IsTruthRow(less) && IsTruthRow(more) && Refines(more, less)
    ensures 0 <= Kleene(e, less) <= 2 && 0 <= Kleene(e, more) <= 2
    ensures Kleene(e, less) != 1 ==> Kleene(e, more) == Kleene(e, less)
  {
    match e
    case Binary(_, lhs, rhs) =>
      KleeneMonotone(lhs, less, more);
      KleeneMonotone(rhs, less, more);
    case Unary(_, operand) => KleeneMonotone(operand, less, more);
    case _ =>
  }

  /** A result that is already true or false does not change when a Null becomes known, unless
      the formula tests for Null. */
  lemma KnownResultsStay(e: Expression, less: Row, more: Row)
    requires IsFormula(e) && !HasNullTest(e) && IsTruthRow(less) && IsTruthRow(more) && Refines(more, less)
    ensures Eval(e, less).Ok? && Eval(e, more).Ok?
    ensures Eval(e, less).value.BoolValue? ==> Eval(e, more) == Eval(e, less)
  {
    EvalIsKleene(e, less);
    EvalIsKleene(e, more);
    KleeneMonotone(e, less, more);
  }

  /** A null test may go from true to false. */
  lemma NullTestChanges(name: string, b: bool)
    ensures var test := IsNull(Variable(name), false);
            && Refines(map[name := BoolValue(b)], map[])
            && Eval(test, map[]) == Ok(BoolValue(true)) && Eval(test, map[name := BoolValue(b)]) == Ok(BoolValue(false))
  {
    NullTests(Variable(name), map[]);
    NullTests(Variable(name), map[name := BoolValue(b)]);
  }

  /** On every expression and row, IS NULL is true of Null and false of any other value, IS NOT
      NULL is its negation, neither is Null, and both pass on an error. */
  lemma NullTests(e: Expression, row: Row)
    ensures var r, yes, no := Eval(e, row), Eval(IsNull(e, false), row), Eval(IsNull(e, true), row);
            && (yes == Ok(BoolValue(true)) <==> r == Ok(NullValue)) && (yes == Ok(BoolValue(false)) <==> r.Ok? && r.value != NullValue)
            && (r.Err? ==> yes == r) && no == Eval(Unary(NotOp, IsNull(e, false)), row)
  {
  }

  predicate IsNumber(v: Value) {
    v.IntValue? || v.FloatValue?
  }

  /** On every expression and row, unary minus gives the number of the same kind that added to
      the operand's is zero, passes on Null and errors, and rejects everything else; so twice it
      is nothing. */
  lemma Negates(e: Expression, row: Row)
    ensures var r, m := Eval(e, row), Eval(Unary(NegOp, e), row);
            && (m.Ok? <==> r.Ok? && (IsNumber(r.value) || r.value == NullValue)) && (r.Err? ==> m == r)
            && (r.Ok? && m.Err? ==> m.error == NegNeedsNumber)
            && (r == Ok(NullValue) ==> m == r)
            && (r.Ok? && r.value.IntValue? ==> m.value.IntValue? && m.value.n + r.value.n == 0)
            && (r.Ok? && r.value.FloatValue? ==> m.value.FloatValue? && m.value.f + r.value.f == 0.0)
            && (m.Ok? ==> Eval(Unary(NegOp, Unary(NegOp, e)), row) == r)
  {
  }

  /** De Morgan's laws, double negation and the commutation of AND and OR hold for the
      evaluated results although evaluation short-circuits from the left. */
  lemma BooleanLaws(a: Expression, b: Expression, row: Row)
    requires IsFormula(a) && IsFormula(b) && IsTruthRow(row)
    ensures Eval(Unary(NotOp, Binary(AndOp, a, b)), row) == Eval(Binary(OrOp, Unary(NotOp, a), Unary(NotOp, b)), row)
    ensures Eval(Unary(NotOp, Unary(NotOp, a)), row) == Eval(a, row)
    ensures Eval(Binary(AndOp, a, b), row) == Eval(Binary(AndOp, b, a), row)
    ensures Eval(Binary(OrOp, a, b), row) == Eval(Binary(OrOp, b, a), row)
  {
    EvalIsKleene(a, row);
    EvalIsKleene(b, row);
  }

  /** The operand evaluates to a boolean or to Null. */
  predicate Good(r: Result) {
    r.Ok? && IsTruth(r.value)
  }

  /** On every two operands and every row: AND answers if the left one is false, or if both are
      booleans or Null, and then the lesser in the order false, Null, true; OR answers if the
      left one is true, or if both are, and then the greater. Otherwise the first error of an
      operand is passed on, and if there is none a value is to blame. NOT turns the order over. */
  lemma AcceptsExactly(conj: bool, a: Expression, b: Expression, row: Row)
    ensures var ra, rb, r := Eval(a, row), Eval(b, row), Eval(Binary(if conj then AndOp else OrOp, a, b), row);
            var stops := ra == Ok(BoolValue(!conj));
            && (r.Ok? <==> stops || (Good(ra) && Good(rb)))
            && (stops ==> r == ra)
            && (Good(ra) && Good(rb) ==>
                  && IsTruth(r.value)
                  && Rank(r.value) == if conj then Min(Rank(ra.value), Rank(rb.value)) else Max(Rank(ra.value), Rank(rb.value)))
            && (r.Err? ==> r == if ra.Err? then ra else if rb.Err? then rb else Err(NonBooleanOperand))
    ensures var ra, r := Eval(a, row), Eval(Unary(NotOp, a), row);
            && (r.Ok? <==> Good(ra)) && (r.Ok? ==> IsTruth(r.value) && Rank(r.value) == 2 - Rank(ra.value))
            && (r.Err? ==> r == if ra.Err? then ra else Err(NotNeedsBoolean))
  {
  }

  /** What keeps the two orders apart: the operand evaluated first short-circuits on `stop`
      and hides a bad one, or both fail and fail differently. */
  predicate OrderShows(stop: bool, ra: Result, rb: Result) {
    || (ra == Ok(BoolValue(stop)) && !Good(rb))
    || (rb == Ok(BoolValue(stop)) && !Good(ra))
    || (ra.Err? && rb.Err? && ra != rb)
  }

  /** On all operands and all rows, AND commutes unless the order shows on false, and OR unless
      it shows on true. */
  lemma CommutesExactly(a: Expression, b: Expression, row: Row)
    ensures Eval(Binary(AndOp, a, b), row) == Eval(Binary(AndOp, b, a), row)
            <==> !OrderShows(false, Eval(a, row), Eval(b, row))
    ensures Eval(Binary(OrOp, a, b), row) == Eval(Binary(OrOp, b, a), row)
            <==> !OrderShows(true, Eval(a, row), Eval(b, row))
  {
    OperandsCommute(true, a, b, row);
    OperandsCommute(false, a, b, row);
  }

  lemma OperandsCommute(conj: bool, a: Expression, b: Expression, row: Row)
    ensures var op := if conj then AndOp else OrOp;
            Eval(Binary(op, a, b), row) == Eval(Binary(op, b, a), row)
            <==> !OrderShows(!conj, Eval(a, row), Eval(b, row))
  {
    var ra, rb := Eval(a, row), Eval(b, row);
    if ra.Ok? && rb.Ok? && ra.value != BoolValue(!conj) && rb.value != BoolValue(!conj) {
      assert EvalBooleanOp(conj, ra.value, rb.value) == EvalBooleanOp(conj, rb.value, ra.value);
    }
  }

  // ---------------------------------------------------------------------------
  // Regrouping
  // ---------------------------------------------------------------------------

  /** The operands of a tree of one operator, from left to right. */
  function Operands(op: BinaryOp, e: Expression): (es: seq<Expression>)
    ensures es != []
  {
    match e
    case Binary(o, lhs, rhs) => if o == op then Operands(op, lhs) + Operands(op, rhs) else [e]
    case _ => [e]
  }

  /** The short-circuit operator on the results of its operands. */
  function Combine(conj: bool, ra: Result, rb: Result): Result {
    if ra.Err? || ra.value == BoolValue(!conj) then ra
    else if rb.Err? then rb
    else EvalBooleanOp(conj, ra.value, rb.value)
  }

  /** One operand after the other. */
  function Chain(conj: bool, es: seq<Expression>, row: Row): Result
    requires es != []
  {
    var last := Eval(es[|es| - 1], row);
    if |es| == 1 then last else Combine(conj, Chain(conj, es[..|es| - 1], row), last)
  }

  /** The same value, or an error on both sides. */
  predicate SameOutcome(x: Result, y: Result) {
    x == y || (x.Err? && y.Err?)
  }

  lemma CombineAssociates(conj: bool, ra: Result, rb: Result, rc: Result)
    ensures SameOutcome(Combine(conj, Combine(conj, ra, rb), rc), Combine(conj, ra, Combine(conj, rb, rc)))
  {
  }

  lemma CombineSame(conj: bool, ra: Result, rb: Result, sa: Result, sb: Result)
    requires SameOutcome(ra, sa) && SameOutcome(rb, sb)
    ensures SameOutcome(Combine(conj, ra, rb), Combine(conj, sa, sb))
  {
  }

  lemma {:induction false} ChainSplits(conj: bool, xs: seq<Expression>, ys: seq<Expression>, row: Row)
    requires xs != [] && ys != []
    ensures SameOutcome(Chain(conj, xs + ys, row), Combine(conj, Chain(conj, xs, row), Chain(conj, ys, row)))
  {
    hide Combine, Eval;
    var front := ys[..|ys| - 1];
    assert (xs + ys)[..|xs + ys| - 1] == xs + front;
    if |ys| > 1 {
      var rx, rf, last := Chain(conj, xs, row), Chain(conj, front, row), Eval(ys[|ys| - 1], row);
      ChainSplits(conj, xs, front, row);
      CombineSame(conj, Chain(conj, xs + front, row), last, Combine(conj, rx, rf), last);
      CombineAssociates(conj, rx, rf, last);
    } else {
      assert xs + front == xs;
    }
  }

  lemma {:induction false} EvalIsChain(op: BinaryOp, e: Expression, row: Row)
    requires op == AndOp || op == OrOp
    ensures SameOutcome(Eval(e, row), Chain(op == AndOp, Operands(op, e), row))
  {
    if e.Binary? && e.op == op {
      var conj, xs, ys := op == AndOp, Operands(op, e.lhs), Operands(op, e.rhs);
      EvalIsChain(op, e.lhs, row);
      EvalIsChain(op, e.rhs, row);
      ChainSplits(conj, xs, ys, row);
      CombineSame(conj, Eval(e.lhs, row), Eval(e.rhs, row), Chain(conj, xs, row), Chain(conj, ys, row));
      assert Eval(e, row) == Combine(conj, Eval(e.lhs, row), Eval(e.rhs, row));
      hide Combine, Eval, Chain;
    }
  }

  /** Grouping does not count: on all operands and all rows, two trees of ANDs, or of ORs, over
      the same operands in the same order give the same value, or both fail (with what error
      may differ). */
  lemma Regroup(op: BinaryOp, a: Expression, b: Expression, row: Row)
    requires op == AndOp || op == OrOp
    requires Operands(op, a) == Operands(op, b)
    ensures Eval(a, row) == Eval(b, row) || (Eval(a, row).Err? && Eval(b, row).Err?)
  {
    EvalIsChain(op, a, row);
    EvalIsChain(op, b, row);
  }

  /** So the order counts for every row: false and an integer. */
  lemma ShortCircuitHidesErrors(name: string, row: Row, n: int)
    ensures var e := Variable(name);
            var no := Lit(BoolLit(false));
            var row' := row[name := IntValue(n)];
            && Eval(Binary(AndOp, no, e), row') == Ok(BoolValue(false))
            && Eval(Binary(AndOp, e, no), row').Err?
  {
    CommutesExactly(Lit(BoolLit(false)), Variable(name), row[name := IntValue(n)]);
  }
}
