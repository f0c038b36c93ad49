/** A precedence-aware printer for expressions and its relation to the parser. */
module Printer {
  import opened Wrappers
  import opened Syntax
  import opened Grammar

  // ---------------------------------------------------------------------------
  // Operator strength
  // ---------------------------------------------------------------------------

  /** How strongly the next token pulls on the expression before it: the property dot takes
      any operand, IS and the infix operators compare by binding power, and every other
      token (or the end) leaves the operand alone. */
  const DOT_STRENGTH: int := 13
  const INERT: int := -1

  function Strength(ts: Tokens): int {
    if |ts| == 0 then INERT
    else if ts[0] == Dot then DOT_STRENGTH
    else if ts[0] == Is then IS_POWER
    else match BinaryOpOf(ts[0])
      case Some(op) => LeftPower(op)
      case None => INERT
  }

  function OpToken(op: BinaryOp): Token {
    match op
    case AddOp => Plus
    case SubOp => Minus
    case MulOp => Star
    case DivOp => Slash
    case ModOp => Percent
    case EqOp => Eq
    case NeqOp => NotEqual
    case LtOp => Less
    case LteOp => LessEqual
    case GtOp => Greater
    case GteOp => GreaterEqual
    case AndOp => And
    case OrOp => Or
  }

  function UnaryToken(op: UnaryOp): Token {
    match op
    case NotOp => Not
    case NegOp => Minus
  }

  // ---------------------------------------------------------------------------
  // The printer
  // ---------------------------------------------------------------------------

  // Names are printed in backticks, which any name can stand in, keywords included. A call
  // takes a plain identifier only.

  /** Whether `e` can stand without parentheses where the parser reads operators of at least
      `minBp` and the token after `e` pulls with strength `next`: its own operator must be
      read at all, and an operand that ends `e` must not swallow what follows. */
  predicate Bare(e: Expression, minBp: nat, next: int) {
    match e
    case Binary(op, _, _) => minBp <= LeftPower(op) && next < RightPower(op)
    case IsNull(_, _) => minBp <= IS_POWER
    case Unary(op, _) => next < PrefixPower(op)
    case _ => true
  }

  /** The tokens of `e` followed by `rest`, with parentheses around `e` only if needed. */
  function Print(e: Expression, minBp: nat, next: int, rest: Tokens): Tokens
    decreases e, 1
  {
    if Bare(e, minBp, next) then PrintBare(e, minBp, next, rest)
    else [LParen] + PrintBare(e, 0, INERT, [RParen] + rest)
  }

  function PrintBare(e: Expression, minBp: nat, next: int, rest: Tokens): Tokens
    decreases e, 0
  {
    match e
    case Lit(IntegerLit(n)) => [Integer(n)] + rest
    case Lit(FloatLit(f)) => [Float(f)] + rest
    case Lit(StringLit(s)) => [StringLiteral(s)] + rest
    case Lit(BoolLit(b)) => [if b then True else False] + rest
    case Lit(NullLit) => [Null] + rest
    case Variable(name) => [BacktickIdent(name)] + rest
    case Param(name) => [Parameter(name)] + rest
    case Property(base, prop) => Print(base, minBp, DOT_STRENGTH, [Dot] + ([BacktickIdent(prop)] + rest))
    case Binary(op, lhs, rhs) =>
      Print(lhs, minBp, LeftPower(op), [OpToken(op)] + Print(rhs, RightPower(op), next, rest))
    case Unary(op, operand) => [UnaryToken(op)] + Print(operand, PrefixPower(op), next, rest)
    case IsNull(inner, negated) => Print(inner, minBp, IS_POWER, PrintIs(negated, rest))
    case CountStar => [Count] + ([LParen] + ([Star] + ([RParen] + rest)))
    case FunctionCall(fn, distinct, args) =>
      [if fn == COUNT then Count else Ident(fn)] + ([LParen] + PrintDistinct(distinct, PrintItems(args, RParen, rest)))
    case ListLit(elements) => [LBracket] + PrintItems(elements, RBracket, rest)
  }

  function PrintIs(negated: bool, rest: Tokens): Tokens {
    [Is] + if negated then [Not] + ([Null] + rest) else [Null] + rest
  }

  function PrintDistinct(distinct: bool, rest: Tokens): Tokens {
    if distinct then [Distinct] + rest else rest
  }

  function PrintItems(items: seq<Expression>, close: Token, rest: Tokens): Tokens
    decreases items, 2
  {
    if items == [] then [close] + rest
    else Print(items[0], 0, INERT, PrintMore(items[1..], close, rest))
  }

  function PrintMore(items: seq<Expression>, close: Token, rest: Tokens): Tokens
    decreases items, 2
  {
    if items == [] then [close] + rest
    else [Comma] + Print(items[0], 0, INERT, PrintMore(items[1..], close, rest))
  }

  function PrintExpression(e: Expression): Tokens {
    Print(e, 0, INERT, [])
  }

  // ---------------------------------------------------------------------------
  // Parsing undoes printing
  // ---------------------------------------------------------------------------

  /** The trees the parser builds: a call named by the `count` keyword has one argument. */
  predicate Producible(e: Expression) {
    match e
    case Lit(_) => true
    case Variable(_) => true
    case Param(_) => true
    case CountStar => true
    case Property(base, _) => Producible(base)
    case Binary(_, lhs, rhs) => Producible(lhs) && Producible(rhs)
    case Unary(_, operand) => Producible(operand)
    case IsNull(inner, _) => Producible(inner)
    case FunctionCall(fn, _, args) =>
      (fn == COUNT ==> |args| == 1) && forall i | 0 <= i < |args| :: Producible(args[i])
    case ListLit(elements) => forall i | 0 <= i < |elements| :: Producible(elements[i])
  }

  /** The operator loop stops where the next token is weaker than its bound. */
  lemma OperatorsStop(e: Expression, ts: Tokens, minBp: nat)
    requires Strength(ts) < minBp || Strength(ts) == INERT
    requires minBp <= 11
    ensures ParseOperators(e, ts, minBp) == Ok(e, ts)
  {
  }

  // One step of the parser for each shape of printed expression.

  lemma ParenStep(e: Expression, body: Tokens, rest: Tokens, minBp: nat)
    requires ParseBp(body, 0) == Ok(e, [RParen] + rest)
    ensures ParseBp([LParen] + body, minBp) == ParseOperators(e, rest, minBp)
  {
    hide ParseOperators, ParseUnary, ParseList, ParsePrimary;
    var ts := [LParen] + body;
    assert ts[1..] == body;
    assert ([RParen] + rest)[1..] == rest;
    assert ParsePrefix(ts) == Ok(e, rest);
  }

  lemma PropertyStep(lhs: Expression, prop: string, rest: Tokens, minBp: nat)
    ensures ParseOperators(lhs, [Dot] + ([BacktickIdent(prop)] + rest), minBp) ==
            ParseOperators(Property(lhs, prop), rest, minBp)
  {
    var tail := [BacktickIdent(prop)] + rest;
    assert ([Dot] + tail)[1..] == tail && tail[1..] == rest;
  }

  lemma BinaryStep(op: BinaryOp, lhs: Expression, rhs: Expression, tail: Tokens, rest: Tokens, minBp: nat)
    requires minBp <= LeftPower(op)
    requires ParseBp(tail, RightPower(op)) == Ok(rhs, rest)
    ensures ParseOperators(lhs, [OpToken(op)] + tail, minBp) == ParseOperators(Binary(op, lhs, rhs), rest, minBp)
  {
    hide ParseBp;
    var ts := [OpToken(op)] + tail;
    assert ts[1..] == tail;
    assert BinaryOpOf(ts[0]) == Some(op);
  }

  lemma UnaryStep(op: UnaryOp, operand: Expression, tail: Tokens, rest: Tokens, minBp: nat)
    requires ParseBp(tail, PrefixPower(op)) == Ok(operand, rest)
    ensures ParseBp([UnaryToken(op)] + tail, minBp) == ParseOperators(Unary(op, operand), rest, minBp)
  {
    hide ParseOperators, ParseList, ParsePrimary;
    var ts := [UnaryToken(op)] + tail;
    assert ts[1..] == tail;
    assert ParsePrefix(ts) == ParseUnary(op, ts);
  }

  lemma IsStep(inner: Expression, negated: bool, rest: Tokens, minBp: nat)
    requires minBp <= IS_POWER
    ensures ParseOperators(inner, PrintIs(negated, rest), minBp) == ParseOperators(IsNull(inner, negated), rest, minBp)
  {
    hide ParseBp;
    var ts := PrintIs(negated, rest);
    var last := [Null] + rest;
    assert last[1..] == rest;
    if negated {
      assert ts[1..] == [Not] + last && ts[2..] == last;
    } else {
      assert ts[1..] == last;
    }
  }

  lemma PrimaryStep(e: Expression, ts: Tokens, rest: Tokens, minBp: nat)
    requires |ts| > 0 && ts[0] !in {Not, Minus, LParen, LBracket}
    requires ParsePrimary(ts) == Ok(e, rest)
    ensures ParseBp(ts, minBp) == ParseOperators(e, rest, minBp)
  {
    hide ParseOperators, ParseUnary, ParseList, ParsePrimary;
    assert ParsePrefix(ts) == ParsePrimary(ts);
  }

  lemma AtomStep(e: Expression, minBp: nat, next: int, rest: Tokens)
    requires e.Lit? || e.Variable? || e.Param?
    requires !Starts(rest, LParen)
    ensures ParseBp(PrintBare(e, minBp, next, rest), minBp) == ParseOperators(e, rest, minBp)
  {
    hide ParseBp, ParseOperators, ParseCall, ParseCount, Print, PrintItems, PrintIs;
    var ts := PrintBare(e, minBp, next, rest);
    assert ts[1..] == rest;
    assert ParsePrimary(ts) == Ok(e, rest);
    PrimaryStep(e, ts, rest, minBp);
  }

  lemma CountStarStep(rest: Tokens, minBp: nat)
    ensures ParseBp([Count] + ([LParen] + ([Star] + ([RParen] + rest))), minBp) == ParseOperators(CountStar, rest, minBp)
  {
    hide ParseBp, ParseOperators, ParseCall, ParseCountArgument;
    var inner := [Star] + ([RParen] + rest);
    var ts := [Count] + ([LParen] + inner);
    assert ts[1..] == [LParen] + inner && ts[1..][1..] == inner;
    assert inner[1..] == [RParen] + rest && inner[1..][1..] == rest;
    assert ParseCountBody(inner) == Ok(CountStar, rest);
    assert ParseCount(ts) == ParseCountBody(inner);
    assert ParsePrimary(ts) == ParseCount(ts);
    PrimaryStep(CountStar, ts, rest, minBp);
  }

  lemma ListStep(elements: seq<Expression>, body: Tokens, rest: Tokens, minBp: nat)
    requires ParseItems(body, RBracket) == Ok(elements, rest)
    ensures ParseBp([LBracket] + body, minBp) == ParseOperators(ListLit(elements), rest, minBp)
  {
    hide ParseOperators, ParseItems, ParseUnary, ParsePrimary;
    var ts := [LBracket] + body;
    assert ts[1..] == body;
    assert ParsePrefix(ts) == Ok(ListLit(elements), rest);
  }

  lemma CallStep(fn: string, distinct: bool, args: seq<Expression>, body: Tokens, rest: Tokens, minBp: nat)
    requires |body| > 0 && body[0] != Distinct
    requires ParseItems(body, RParen) == Ok(args, rest)
    ensures ParseBp([Ident(fn)] + ([LParen] + PrintDistinct(distinct, body)), minBp)
         == ParseOperators(FunctionCall(fn, distinct, args), rest, minBp)
  {
    hide ParseBp, ParseOperators, ParseItems, ParseCount;
    var inner := PrintDistinct(distinct, body);
    var ts := [Ident(fn)] + ([LParen] + inner);
    assert ts[1..] == [LParen] + inner && ts[1..][1..] == inner;
    assert distinct ==> inner[1..] == body;
    assert ParsePrimary(ts) == ParseCall(fn, inner);
    PrimaryStep(FunctionCall(fn, distinct, args), ts, rest, minBp);
  }

  lemma CountStep(distinct: bool, arg: Expression, body: Tokens, rest: Tokens, minBp: nat)
    requires |body| > 0 && body[0] != Distinct && body[0] != Star
    requires ParseExpression(body) == Ok(arg, [RParen] + rest)
    ensures ParseBp([Count] + ([LParen] + PrintDistinct(distinct, body)), minBp)
         == ParseOperators(FunctionCall(COUNT, distinct, [arg]), rest, minBp)
  {
    hide ParseBp, ParseOperators, ParseExpression, ParseCall, ParseCountArgument;
    var inner := PrintDistinct(distinct, body);
    var ts := [Count] + ([LParen] + inner);
    assert ts[1..] == [LParen] + inner && ts[1..][1..] == inner;
    assert distinct ==> inner[1..] == body;
    CountArgumentStep(distinct, arg, body, rest);
    assert ParseCountBody(inner) == ParseCountArgument(distinct, body);
    assert ParseCount(ts) == ParseCountBody(inner);
    assert ParsePrimary(ts) == ParseCount(ts);
    PrimaryStep(FunctionCall(COUNT, distinct, [arg]), ts, rest, minBp);
  }

  lemma CountArgumentStep(distinct: bool, arg: Expression, body: Tokens, rest: Tokens)
    requires ParseExpression(body) == Ok(arg, [RParen] + rest)
    ensures ParseCountArgument(distinct, body) == Ok(FunctionCall(COUNT, distinct, [arg]), rest)
  {
    hide ParseExpression;
    assert ([RParen] + rest)[1..] == rest;
  }

  /** Reading the printed form of an expression brings the parser to its operator loop with
      exactly that expression as left operand and exactly `rest` to read. */
  lemma {:induction false} ParsePrint(e: Expression, minBp: nat, next: int, rest: Tokens)
    requires Producible(e) && minBp <= 11
    requires Strength(rest) == next && !Starts(rest, LParen)
    ensures ParseBp(Print(e, minBp, next, rest), minBp) == ParseOperators(e, rest, minBp)
    decreases e, 2
  {
    hide ParseBp, ParseOperators, PrintBare;
    if Bare(e, minBp, next) {
      ParsePrintBare(e, minBp, next, rest);
    } else {
      var close := [RParen] + rest;
      ParsePrintBare(e, 0, INERT, close);
      OperatorsStop(e, close, 0);
      ParenStep(e, PrintBare(e, 0, INERT, close), rest, minBp);
    }
  }

  lemma {:induction false} ParsePrintBare(e: Expression, minBp: nat, next: int, rest: Tokens)
    requires Producible(e) && minBp <= 11 && Bare(e, minBp, next)
    requires Strength(rest) == next && !Starts(rest, LParen)
    ensures ParseBp(PrintBare(e, minBp, next, rest), minBp) == ParseOperators(e, rest, minBp)
    decreases e, 1
  {
    hide ParseBp, ParseOperators, ParseItems, ParseExpression, Print, PrintItems, PrintIs, PrintDistinct;
    match e
    case Property(base, prop) =>
      ParsePrint(base, minBp, DOT_STRENGTH, [Dot] + ([BacktickIdent(prop)] + rest));
      PropertyStep(base, prop, rest, minBp);
    case Binary(_, _, _) =>
      ParsePrintBinary(e, minBp, next, rest);
    case Unary(op, operand) =>
      ParsePrint(operand, PrefixPower(op), next, rest);
      OperatorsStop(operand, rest, PrefixPower(op));
      UnaryStep(op, operand, Print(operand, PrefixPower(op), next, rest), rest, minBp);
    case IsNull(inner, negated) =>
      IsStart(negated, rest);
      ParsePrint(inner, minBp, IS_POWER, PrintIs(negated, rest));
      IsStep(inner, negated, rest, minBp);
    case FunctionCall(_, _, _) =>
      ParsePrintCall(e, minBp, next, rest);
    case ListLit(elements) =>
      ParsePrintItems(elements, RBracket, rest);
      ListStep(elements, PrintItems(elements, RBracket, rest), rest, minBp);
    case CountStar =>
      CountStarStep(rest, minBp);
    case _ =>
      AtomStep(e, minBp, next, rest);
  }

  lemma {:induction false} ParsePrintBinary(e: Expression, minBp: nat, next: int, rest: Tokens)
    requires Producible(e) && e.Binary? && minBp <= 11 && Bare(e, minBp, next)
    requires Strength(rest) == next && !Starts(rest, LParen)
    ensures ParseBp(PrintBare(e, minBp, next, rest), minBp) == ParseOperators(e, rest, minBp)
    decreases e, 0
  {
    hide ParseBp, ParseOperators, Print;
    match e
    case Binary(op, lhs, rhs) =>
      var tail := Print(rhs, RightPower(op), next, rest);
      var more := [OpToken(op)] + tail;
      assert Strength(more) == LeftPower(op) && !Starts(more, LParen);
      ParsePrint(lhs, minBp, LeftPower(op), more);
      ParsePrint(rhs, RightPower(op), next, rest);
      OperatorsStop(rhs, rest, RightPower(op));
      BinaryStep(op, lhs, rhs, tail, rest, minBp);
  }

  lemma {:induction false} ParsePrintCall(e: Expression, minBp: nat, next: int, rest: Tokens)
    requires Producible(e) && e.FunctionCall?
    ensures ParseBp(PrintBare(e, minBp, next, rest), minBp) == ParseOperators(e, rest, minBp)
    decreases e, 0
  {
    hide ParseBp, ParseOperators, ParseItems, ParseExpression, Print, PrintItems, PrintDistinct;
    match e
    case FunctionCall(fn, distinct, args) =>
      var body := PrintItems(args, RParen, rest);
      ItemsStart(args, RParen, rest);
      if fn == COUNT {
        assert args == [args[0]];
        OneItem(args, rest);
        ParsePrintItem(args[0], [RParen] + rest);
        CountStep(distinct, args[0], body, rest, minBp);
      } else {
        ParsePrintItems(args, RParen, rest);
        CallStep(fn, distinct, args, body, rest, minBp);
      }
  }

  lemma OneItem(items: seq<Expression>, rest: Tokens)
    requires |items| == 1
    ensures PrintItems(items, RParen, rest) == Print(items[0], 0, INERT, [RParen] + rest)
  {
    hide Print;
    assert PrintMore(items[1..], RParen, rest) == [RParen] + rest;
  }

  lemma IsStart(negated: bool, rest: Tokens)
    ensures Strength(PrintIs(negated, rest)) == IS_POWER && !Starts(PrintIs(negated, rest), LParen)
  {
  }

  /** No expression starts with a token that could be mistaken for something else at the
      start of an argument list. */
  lemma {:induction false} PrintStart(e: Expression, minBp: nat, next: int, rest: Tokens)
    ensures var ts := Print(e, minBp, next, rest);
            |ts| > 0 && ts[0] !in {RParen, RBracket, Comma, Distinct, Star}
    decreases e, 1
  {
    var m, n := if Bare(e, minBp, next) then minBp else 0, if Bare(e, minBp, next) then next else INERT;
    var r := if Bare(e, minBp, next) then rest else [RParen] + rest;
    match e
    case Property(base, prop) => PrintStart(base, m, DOT_STRENGTH, [Dot] + ([BacktickIdent(prop)] + r));
    case Binary(op, lhs, rhs) =>
      PrintStart(lhs, m, LeftPower(op), [OpToken(op)] + Print(rhs, RightPower(op), n, r));
    case IsNull(inner, negated) => PrintStart(inner, m, IS_POWER, PrintIs(negated, r));
    case _ =>
  }

  lemma ItemsStart(items: seq<Expression>, close: Token, rest: Tokens)
    requires close == RParen || close == RBracket
    ensures var ts := PrintItems(items, close, rest);
            && |ts| > 0 && ts[0] != Distinct && ts[0] != Star
            && (Starts(ts, close) <==> items == [])
  {
    if items != [] {
      PrintStart(items[0], 0, INERT, PrintMore(items[1..], close, rest));
    }
  }

  lemma {:induction false} ParsePrintItems(items: seq<Expression>, close: Token, rest: Tokens)
    requires close == RParen || close == RBracket
    requires forall i | 0 <= i < |items| :: Producible(items[i])
    ensures ParseItems(PrintItems(items, close, rest), close) == Ok(items, rest)
    decreases items, 2
  {
    var ts := PrintItems(items, close, rest);
    ItemsStart(items, close, rest);
    if items == [] {
      assert ts[1..] == rest;
    } else {
      ParsePrintItems1(items, close, rest);
      assert ([close] + rest)[1..] == rest;
    }
  }

  lemma Items1Step(ts: Tokens, first: Expression, tail: Tokens, others: seq<Expression>, rest: Tokens)
    requires ParseExpression(ts) == Ok(first, [Comma] + tail)
    requires ParseItems1(tail) == Ok(others, rest)
    ensures ParseItems1(ts) == Ok([first] + others, rest)
  {
    hide ParseExpression;
    assert ([Comma] + tail)[1..] == tail;
  }

  lemma {:induction false} ParsePrintItems1(items: seq<Expression>, close: Token, rest: Tokens)
    requires close == RParen || close == RBracket
    requires items != [] && forall i | 0 <= i < |items| :: Producible(items[i])
    ensures ParseItems1(PrintItems(items, close, rest)) == Ok(items, [close] + rest)
    decreases items, 1
  {
    hide ParseExpression, Print, Producible, ParseItems1, Expect;
    var more := PrintMore(items[1..], close, rest);
    assert Strength(more) == INERT && !Starts(more, LParen);
    ParsePrintItem(items[0], more);
    if |items| > 1 {
      ParsePrintItems1(items[1..], close, rest);
      Items1Step(PrintItems(items, close, rest), items[0], PrintItems(items[1..], close, rest), items[1..], [close] + rest);
      assert items == [items[0]] + items[1..];
    } else {
      assert items == [items[0]];
      LastItemStep(PrintItems(items, close, rest), items[0], more);
    }
  }

  lemma LastItemStep(ts: Tokens, last: Expression, rest: Tokens)
    requires ParseExpression(ts) == Ok(last, rest) && !Starts(rest, Comma)
    ensures ParseItems1(ts) == Ok([last], rest)
  {
  }

  lemma {:induction false} ParsePrintItem(e: Expression, rest: Tokens)
    requires Producible(e)
    requires Strength(rest) == INERT && !Starts(rest, LParen)
    ensures ParseExpression(Print(e, 0, INERT, rest)) == Ok(e, rest)
    decreases e, 3
  {
    hide ParseBp, ParseOperators, Print, Producible;
    ParsePrint(e, 0, INERT, rest);
    OperatorsStop(e, rest, 0);
  }

  /** Main result: parsing the printed tokens of any tree the parser can produce, whatever
      inert token follows, gives the tree back and leaves what follows. */
  lemma RoundTrip(e: Expression, rest: Tokens)
    requires Producible(e)
    requires Strength(rest) == INERT && !Starts(rest, LParen)
    ensures ParseExpression(Print(e, 0, INERT, rest)) == Ok(e, rest)
  {
    ParsePrintItem(e, rest);
  }

  // ---------------------------------------------------------------------------
  // Parentheses exactly where needed
  // ---------------------------------------------------------------------------

  /** The strengths a next token can have. */
  predicate IsStrength(n: int) {
    n == INERT || n == 1 || n == 3 || n == 5 || n == 7 || n == 9 || n == DOT_STRENGTH
  }

  function SampleOp(n: int): BinaryOp {
    if n == 1 then OrOp else if n == 3 then AndOp else if n == 7 then AddOp else MulOp
  }

  /** A continuation of strength `n`, and the tree it makes of the operand before it. */
  function Sample(n: int): Tokens {
    if n == INERT then []
    else if n == DOT_STRENGTH then [Dot] + ([Ident("p")] + [])
    else if n == 5 then PrintIs(false, [])
    else [OpToken(SampleOp(n))] + [Integer(0)]
  }

  function Extended(e: Expression, n: int): Expression {
    if n == DOT_STRENGTH then Property(e, "p")
    else if n == 5 then IsNull(e, false)
    else Binary(SampleOp(n), e, Lit(IntegerLit(0)))
  }

  lemma SampleStrength(n: int)
    requires IsStrength(n)
    ensures Strength(Sample(n)) == n && !Starts(Sample(n), LParen)
  {
  }

  /** A loop whose bound lets the sample in swallows all of it. */
  lemma SampleSwallowed(e: Expression, n: int, minBp: nat)
    requires IsStrength(n) && n != INERT && minBp <= n
    ensures ParseOperators(e, Sample(n), minBp) == Ok(Extended(e, n), [])
  {
    hide ParseBp;
    if n == DOT_STRENGTH {
      PropertyStep(e, "p", [], minBp);
    } else if n == 5 {
      IsStep(e, false, [], minBp);
    } else {
      var op := SampleOp(n);
      ParseZero(RightPower(op));
      BinaryStep(op, e, Lit(IntegerLit(0)), [Integer(0)], [], minBp);
    }
  }

  lemma ParseZero(minBp: nat)
    ensures ParseBp([Integer(0)], minBp) == Ok(Lit(IntegerLit(0)), [])
  {
    hide ParseUnary, ParseList, ParseCount, ParseCall;
    var ts := [Integer(0)];
    assert ts[1..] == [];
    assert ParsePrimary(ts) == Ok(Lit(IntegerLit(0)), []);
    PrimaryStep(Lit(IntegerLit(0)), ts, [], minBp);
  }

  /** A weak operator at the top of `e` is not read: the parser stops in front of it. */
  lemma WeakOperatorStops(e: Expression, minBp: nat, next: int, rest: Tokens)
    requires Producible(e) && minBp <= 11
    requires (e.Binary? && LeftPower(e.op) < minBp) || (e.IsNull? && IS_POWER < minBp)
    ensures var p := ParseBp(PrintBare(e, minBp, next, rest), minBp);
            p.Ok? && |p.rest| > |rest|
  {
    hide ParseBp, ParseOperators, Print;
    match e
    case Binary(op, lhs, rhs) =>
      var tail := Print(rhs, RightPower(op), next, rest);
      var more := [OpToken(op)] + tail;
      PrintLength(rhs, RightPower(op), next, rest);
      assert Strength(more) == LeftPower(op) && !Starts(more, LParen);
      ParsePrint(lhs, minBp, LeftPower(op), more);
      OperatorsStop(lhs, more, minBp);
    case IsNull(inner, negated) =>
      var more := PrintIs(negated, rest);
      ParsePrint(inner, minBp, IS_POWER, more);
      OperatorsStop(inner, more, minBp);
  }

  lemma {:induction false} PrintLength(e: Expression, minBp: nat, next: int, rest: Tokens)
    ensures |Print(e, minBp, next, rest)| > |rest|
    decreases e, 1
  {
    var m := if Bare(e, minBp, next) then minBp else 0;
    var n := if Bare(e, minBp, next) then next else INERT;
    var r := if Bare(e, minBp, next) then rest else [RParen] + rest;
    match e
    case Property(base, prop) => PrintLength(base, m, DOT_STRENGTH, [Dot] + ([BacktickIdent(prop)] + r));
    case Binary(op, lhs, rhs) =>
      PrintLength(rhs, RightPower(op), n, r);
      PrintLength(lhs, m, LeftPower(op), [OpToken(op)] + Print(rhs, RightPower(op), n, r));
    case Unary(op, operand) => PrintLength(operand, PrefixPower(op), n, r);
    case IsNull(inner, negated) => PrintLength(inner, m, IS_POWER, PrintIs(negated, r));
    case FunctionCall(_, _, args) => ItemsLength(args, RParen, r);
    case ListLit(elements) => ItemsLength(elements, RBracket, r);
    case _ =>
  }

  lemma {:induction false} ItemsLength(items: seq<Expression>, close: Token, rest: Tokens)
    ensures |PrintItems(items, close, rest)| > |rest|
    ensures |PrintMore(items, close, rest)| > |rest|
    decreases items, 0
  {
    if items != [] {
      ItemsLength(items[1..], close, rest);
      PrintLength(items[0], 0, INERT, PrintMore(items[1..], close, rest));
    }
  }

  /** An operand at the end of `e` swallows a token that pulls at least as strongly as the
      operand's bound. */
  lemma LastOperandSwallows(e: Expression, minBp: nat, next: int)
    requires Producible(e) && minBp <= 11 && IsStrength(next)
    requires (e.Binary? && minBp <= LeftPower(e.op) && RightPower(e.op) <= next)
          || (e.Unary? && PrefixPower(e.uop) <= next)
    ensures ParseBp(PrintBare(e, minBp, next, Sample(next)), minBp) ==
            Ok(if e.Binary? then Binary(e.op, e.lhs, Extended(e.rhs, next))
               else Unary(e.uop, Extended(e.operand, next)), [])
  {
    hide ParseBp, ParseOperators, Print, Sample, Extended;
    var rest := Sample(next);
    SampleStrength(next);
    match e
    case Binary(op, lhs, rhs) =>
      var tail := Print(rhs, RightPower(op), next, rest);
      var more := [OpToken(op)] + tail;
      assert Strength(more) == LeftPower(op) && !Starts(more, LParen);
      ParsePrint(lhs, minBp, LeftPower(op), more);
      ParsePrint(rhs, RightPower(op), next, rest);
      SampleSwallowed(rhs, next, RightPower(op));
      BinaryStep(op, lhs, Extended(rhs, next), tail, [], minBp);
      NothingLeft(Binary(op, lhs, Extended(rhs, next)), minBp);
    case Unary(op, operand) =>
      ParsePrint(operand, PrefixPower(op), next, rest);
      SampleSwallowed(operand, next, PrefixPower(op));
      UnaryStep(op, Extended(operand, next), Print(operand, PrefixPower(op), next, rest), [], minBp);
      NothingLeft(Unary(op, Extended(operand, next)), minBp);
  }

  lemma NothingLeft(e: Expression, minBp: nat)
    ensures ParseOperators(e, [], minBp) == Ok(e, [])
  {
  }

  lemma ExtendedDiffers(e: Expression, next: int)
    requires e.Binary? || e.Unary?
    ensures Extended(e, next) !=
            if e.Binary? then Binary(e.op, e.lhs, Extended(e.rhs, next))
            else Unary(e.uop, Extended(e.operand, next))
  {
    if e.Binary? {
      assert e.lhs < e;
    }
  }

  /** The printer leaves parentheses out exactly where the parser reads the bare form back:
      if even one continuation of the given strength breaks the bare form, they are printed. */
  lemma BareExactly(e: Expression, minBp: nat, next: int)
    requires Producible(e) && minBp <= 11 && IsStrength(next)
    ensures Bare(e, minBp, next) <==>
            forall rest | Strength(rest) == next && !Starts(rest, LParen) ::
              ParseBp(PrintBare(e, minBp, next, rest), minBp) == ParseOperators(e, rest, minBp)
  {
    if Bare(e, minBp, next) {
      forall rest | Strength(rest) == next && !Starts(rest, LParen)
        ensures ParseBp(PrintBare(e, minBp, next, rest), minBp) == ParseOperators(e, rest, minBp)
      {
        ParsePrintBare(e, minBp, next, rest);
      }
    } else {
      NotBareBreaks(e, minBp, next);
    }
  }

  lemma NotBareBreaks(e: Expression, minBp: nat, next: int)
    requires Producible(e) && minBp <= 11 && IsStrength(next) && !Bare(e, minBp, next)
    ensures var rest := Sample(next);
            && Strength(rest) == next && !Starts(rest, LParen)
            && ParseBp(PrintBare(e, minBp, next, rest), minBp) != ParseOperators(e, rest, minBp)
  {
    hide ParseBp, ParseOperators, PrintBare, Sample, Extended, Strength;
    var rest := Sample(next);
    SampleStrength(next);
    if (e.Binary? && LeftPower(e.op) < minBp) || (e.IsNull? && IS_POWER < minBp) {
      WeakOperatorStops(e, minBp, next, rest);
    } else {
      LastOperandSwallows(e, minBp, next);
      SampleNonempty(next);
      if next < minBp {
        OperatorsStop(e, rest, minBp);
      } else {
        SampleSwallowed(e, next, minBp);
        ExtendedDiffers(e, next);
      }
    }
  }

  lemma SampleNonempty(n: int)
    requires n != INERT
    ensures Sample(n) != []
  {
  }

  // ---------------------------------------------------------------------------
  // What the parser produces
  // ---------------------------------------------------------------------------

  /** A name that can stand in backticks. */
  predicate Quotable(name: string) {
    name != "" && '`' !in name
  }

  /** What the lexer sees to: signs are tokens of their own, every spelling of `count` is the
      keyword, and no name is empty or has a backtick in it. */
  predicate LexedToken(t: Token) {
    match t
    case Integer(n) => n >= 0
    case Float(f) => f >= 0.0
    case Ident(name) => name != COUNT && Quotable(name)
    case BacktickIdent(name) => Quotable(name)
    case _ => true
  }

  predicate Lexed(ts: Tokens) {
    forall i | 0 <= i < |ts| :: LexedToken(ts[i])
  }

  /** The trees the parser builds from lexed tokens. */
  predicate Built(e: Expression) {
    match e
    case Lit(l) => (l.IntegerLit? ==> l.n >= 0) && (l.FloatLit? ==> l.f >= 0.0)
    case Variable(name) => Quotable(name)
    case Param(_) => true
    case CountStar => true
    case Property(base, prop) => Built(base) && Quotable(prop)
    case Binary(_, lhs, rhs) => Built(lhs) && Built(rhs)
    case Unary(_, operand) => Built(operand)
    case IsNull(inner, _) => Built(inner)
    case FunctionCall(fn, _, args) =>
      (if fn == COUNT then |args| == 1 else Quotable(fn)) && forall i | 0 <= i < |args| :: Built(args[i])
    case ListLit(elements) => forall i | 0 <= i < |elements| :: Built(elements[i])
  }

  lemma {:induction false} BuiltIsProducible(e: Expression)
    requires Built(e)
    ensures Producible(e)
  {
    match e
    case Property(base, _) => BuiltIsProducible(base);
    case Binary(_, lhs, rhs) => BuiltIsProducible(lhs); BuiltIsProducible(rhs);
    case Unary(_, operand) => BuiltIsProducible(operand);
    case IsNull(inner, _) => BuiltIsProducible(inner);
    case FunctionCall(_, _, args) =>
      forall i | 0 <= i < |args|
        ensures Producible(args[i])
      {
        BuiltIsProducible(args[i]);
      }
    case ListLit(elements) =>
      forall i | 0 <= i < |elements|
        ensures Producible(elements[i])
      {
        BuiltIsProducible(elements[i]);
      }
    case _ =>
  }

  lemma {:induction false} BpProduces(ts: Tokens, minBp: nat)
    requires Lexed(ts)
    ensures var p := ParseBp(ts, minBp); p.Ok? ==> Built(p.value) && Lexed(p.rest)
    decreases |ts|, 3
  {
    hide ParseOperators, ParsePrefix, Built;
    PrefixProduces(ts);
    var p := ParsePrefix(ts);
    if p.Ok? {
      OperatorsProduce(p.value, p.rest, minBp);
    }
  }

  lemma NameProduces(ts: Tokens)
    requires Lexed(ts)
    ensures var p := ExpectIdent(ts); p.Ok? ==> Quotable(p.value) && Lexed(p.rest) && |p.rest| < |ts|
  {
  }

  lemma {:induction false} OperatorsProduce(lhs: Expression, ts: Tokens, minBp: nat)
    requires Lexed(ts) && Built(lhs)
    ensures var p := ParseOperators(lhs, ts, minBp); p.Ok? ==> Built(p.value) && Lexed(p.rest)
    decreases |ts|, 1
  {
    hide ParseBp, ExpectIdent, LexedToken;
    if |ts| == 0 {
    } else if ts[0] == Dot {
      var p := ExpectIdent(ts[1..]);
      NameProduces(ts[1..]);
      if p.Ok? {
        OperatorsProduce(Property(lhs, p.value), p.rest, minBp);
      }
    } else if ts[0] == Is {
      var negated := Starts(ts[1..], Not);
      var rest := if negated then ts[2..] else ts[1..];
      if IS_POWER >= minBp && Starts(rest, Null) {
        OperatorsProduce(IsNull(lhs, negated), rest[1..], minBp);
      }
    } else if BinaryOpOf(ts[0]).Some? {
      InfixProduces(BinaryOpOf(ts[0]).value, lhs, ts, minBp);
    }
  }

  lemma {:induction false} InfixProduces(op: BinaryOp, lhs: Expression, ts: Tokens, minBp: nat)
    requires Lexed(ts) && Built(lhs) && |ts| > 0 && BinaryOpOf(ts[0]) == Some(op)
    ensures var p := ParseOperators(lhs, ts, minBp); p.Ok? ==> Built(p.value) && Lexed(p.rest)
    decreases |ts|, 0
  {
    hide ParseBp, ExpectIdent;
    if LeftPower(op) >= minBp {
      BpProduces(ts[1..], RightPower(op));
      var p := ParseBp(ts[1..], RightPower(op));
      if p.Ok? {
        OperatorsProduce(Binary(op, lhs, p.value), p.rest, minBp);
      }
    }
  }

  lemma {:induction false} PrefixProduces(ts: Tokens)
    requires Lexed(ts)
    ensures var p := ParsePrefix(ts); p.Ok? ==> Built(p.value) && Lexed(p.rest)
    decreases |ts|, 2
  {
    hide ParseBp, ParseItems, ParsePrimary, LexedToken;
    if Starts(ts, Not) {
      BpProduces(ts[1..], PrefixPower(NotOp));
    } else if Starts(ts, Minus) {
      BpProduces(ts[1..], PrefixPower(NegOp));
    } else if Starts(ts, LParen) {
      BpProduces(ts[1..], 0);
    } else if Starts(ts, LBracket) {
      ItemsProduce(ts[1..], RBracket);
    } else {
      PrimaryProduces(ts);
    }
  }

  lemma {:induction false} PrimaryProduces(ts: Tokens)
    requires Lexed(ts)
    ensures var p := ParsePrimary(ts); p.Ok? ==> Built(p.value) && Lexed(p.rest)
    decreases |ts|, 1
  {
    hide ParseCount, ParseCall;
    if Starts(ts, Count) {
      CountProduces(ts);
    } else if |ts| > 0 && ts[0].Ident? && Starts(ts[1..], LParen) {
      CallProduces(ts[0].name, ts[1..][1..]);
    }
  }

  lemma {:induction false} CountProduces(ts: Tokens)
    requires Lexed(ts) && Starts(ts, Count)
    ensures var p := ParseCount(ts); p.Ok? ==> Built(p.value) && Lexed(p.rest)
    decreases |ts|, 0
  {
    hide ParseCountBody;
    if Starts(ts[1..], LParen) {
      CountBodyProduces(ts[1..][1..]);
    }
  }

  lemma {:induction false} CountBodyProduces(ts: Tokens)
    requires Lexed(ts)
    ensures var p := ParseCountBody(ts); p.Ok? ==> Built(p.value) && Lexed(p.rest)
    decreases |ts|, 6
  {
    hide ParseCountArgument;
    if Starts(ts, Distinct) {
      CountArgumentProduces(true, ts[1..]);
    } else {
      CountArgumentProduces(false, ts);
    }
  }

  lemma {:induction false} CountArgumentProduces(distinct: bool, ts: Tokens)
    requires Lexed(ts)
    ensures var p := ParseCountArgument(distinct, ts); p.Ok? ==> Built(p.value) && Lexed(p.rest)
    decreases |ts|, 5
  {
    hide ParseExpression;
    ExpressionProduces(ts);
  }

  lemma {:induction false} CallProduces(name: string, ts: Tokens)
    requires Lexed(ts) && name != COUNT && Quotable(name)
    ensures var p := ParseCall(name, ts); p.Ok? ==> Built(p.value) && Lexed(p.rest)
    decreases |ts|, 7
  {
    hide ParseItems;
    ItemsProduce(if Starts(ts, Distinct) then ts[1..] else ts, RParen);
  }

  lemma {:induction false} ExpressionProduces(ts: Tokens)
    requires Lexed(ts)
    ensures var p := ParseExpression(ts); p.Ok? ==> Built(p.value) && Lexed(p.rest)
    decreases |ts|, 4
  {
    BpProduces(ts, 0);
  }

  lemma {:induction false} ItemsProduce(ts: Tokens, close: Token)
    requires Lexed(ts)
    ensures var p := ParseItems(ts, close);
            p.Ok? ==> (forall i | 0 <= i < |p.value| :: Built(p.value[i])) && Lexed(p.rest)
    decreases |ts|, 6
  {
    hide ParseExpression, Built;
    if !Starts(ts, close) {
      Items1Produce(ts);
    }
  }

  lemma {:induction false} Items1Produce(ts: Tokens)
    requires Lexed(ts)
    ensures var p := ParseItems1(ts);
            p.Ok? ==> (forall i | 0 <= i < |p.value| :: Built(p.value[i])) && Lexed(p.rest)
    decreases |ts|, 5
  {
    hide ParseExpression, Built;
    ExpressionProduces(ts);
    var p := ParseExpression(ts);
    if p.Ok? && Starts(p.rest, Comma) {
      Items1Produce(p.rest[1..]);
    }
  }

  // ---------------------------------------------------------------------------
  // What the printer prints
  // ---------------------------------------------------------------------------

  lemma LexedCons(first: Token, rest: Tokens)
    requires LexedToken(first) && Lexed(rest)
    ensures Lexed([first] + rest)
  {
  }

  /** The printed tokens are such as the lexer makes. */
  lemma {:induction false} PrintLexed(e: Expression, minBp: nat, next: int, rest: Tokens)
    requires Built(e) && Lexed(rest)
    ensures Lexed(Print(e, minBp, next, rest))
    decreases e, 1
  {
    hide Lexed, Built, PrintBare, Bare;
    if Bare(e, minBp, next) {
      PrintBareLexed(e, minBp, next, rest);
    } else {
      LexedCons(RParen, rest);
      PrintBareLexed(e, 0, INERT, [RParen] + rest);
      LexedCons(LParen, PrintBare(e, 0, INERT, [RParen] + rest));
    }
  }

  lemma {:induction false} PrintBareLexed(e: Expression, minBp: nat, next: int, rest: Tokens)
    requires Built(e) && Lexed(rest)
    ensures Lexed(PrintBare(e, minBp, next, rest))
    decreases e, 0
  {
    hide Lexed, Print, PrintItems;
    match e
    case Lit(l) => LexedCons(PrintBare(e, minBp, next, rest)[0], rest);
    case Variable(name) => LexedCons(BacktickIdent(name), rest);
    case Param(name) => LexedCons(Parameter(name), rest);
    case Property(base, prop) =>
      LexedCons(BacktickIdent(prop), rest);
      LexedCons(Dot, [BacktickIdent(prop)] + rest);
      PrintLexed(base, minBp, DOT_STRENGTH, [Dot] + ([BacktickIdent(prop)] + rest));
    case Binary(op, lhs, rhs) =>
      PrintLexed(rhs, RightPower(op), next, rest);
      LexedCons(OpToken(op), Print(rhs, RightPower(op), next, rest));
      PrintLexed(lhs, minBp, LeftPower(op), [OpToken(op)] + Print(rhs, RightPower(op), next, rest));
    case Unary(op, operand) =>
      PrintLexed(operand, PrefixPower(op), next, rest);
      LexedCons(UnaryToken(op), Print(operand, PrefixPower(op), next, rest));
    case IsNull(inner, negated) =>
      LexedCons(Null, rest);
      LexedCons(Not, [Null] + rest);
      LexedCons(Is, if negated then [Not] + ([Null] + rest) else [Null] + rest);
      PrintLexed(inner, minBp, IS_POWER, PrintIs(negated, rest));
    case CountStar =>
      LexedCons(RParen, rest);
      LexedCons(Star, [RParen] + rest);
      LexedCons(LParen, [Star] + ([RParen] + rest));
      LexedCons(Count, [LParen] + ([Star] + ([RParen] + rest)));
    case FunctionCall(fn, distinct, args) =>
      ItemsLexed(args, RParen, rest);
      var body := PrintItems(args, RParen, rest);
      LexedCons(Distinct, body);
      LexedCons(LParen, PrintDistinct(distinct, body));
      LexedCons(if fn == COUNT then Count else Ident(fn), [LParen] + PrintDistinct(distinct, body));
    case ListLit(elements) =>
      ItemsLexed(elements, RBracket, rest);
      LexedCons(LBracket, PrintItems(elements, RBracket, rest));
  }

  lemma {:induction false} ItemsLexed(items: seq<Expression>, close: Token, rest: Tokens)
    requires (forall i | 0 <= i < |items| :: Built(items[i])) && LexedToken(close) && Lexed(rest)
    ensures Lexed(PrintItems(items, close, rest))
    decreases items, 2
  {
    hide Lexed, Built, Print, PrintMore;
    if items == [] {
      LexedCons(close, rest);
    } else {
      MoreLexed(items[1..], close, rest);
      PrintLexed(items[0], 0, INERT, PrintMore(items[1..], close, rest));
    }
  }

  lemma {:induction false} MoreLexed(items: seq<Expression>, close: Token, rest: Tokens)
    requires (forall i | 0 <= i < |items| :: Built(items[i])) && LexedToken(close) && Lexed(rest)
    ensures Lexed(PrintMore(items, close, rest))
    decreases items, 2
  {
    hide Lexed, Built, Print;
    if items == [] {
      LexedCons(close, rest);
    } else {
      MoreLexed(items[1..], close, rest);
      PrintLexed(items[0], 0, INERT, PrintMore(items[1..], close, rest));
      LexedCons(Comma, Print(items[0], 0, INERT, PrintMore(items[1..], close, rest)));
    }
  }

  /** Whatever text the parser accepts, the tree it built prints to tokens that a text can have,
      and parsing these gives the same tree: the printed form is a fixed point of the two. */
  lemma ParsePrintParse(ts: Tokens)
    requires Lexed(ts)
    ensures var p := ParseExpression(ts);
            p.Ok? ==> Lexed(PrintExpression(p.value)) && ParseExpression(PrintExpression(p.value)) == Ok(p.value, [])
  {
    hide ParseExpression, Print, Built, Producible;
    ExpressionProduces(ts);
    var p := ParseExpression(ts);
    if p.Ok? {
      PrintLexed(p.value, 0, INERT, []);
      BuiltIsProducible(p.value);
      RoundTrip(p.value, []);
    }
  }
}
