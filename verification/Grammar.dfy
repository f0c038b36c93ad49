/** What the expression parser computes, as functions on the tokens still to be read. The
    cursor-moving parser of module ExpressionParser is proved equal to these functions, and
    every property of the grammar is proved about them. */
module Grammar {
  import opened Wrappers
  import opened Syntax

  type Tokens = seq<Token>

  datatype ErrorKind =
    | Expected(token: Token)
    | ExpectedIdent
    | ExpectedNull
    | UnexpectedToken(token: Token)
    | UnexpectedEnd
    | Because(message: string)

  /** A parse error: what was wrong, and how many tokens were left at the token it points to. */
  datatype ParseError = ParseError(kind: ErrorKind, left: nat)

  datatype Parsed<+T> = Ok(value: T, rest: Tokens) | Err(error: ParseError)

  predicate Starts(ts: Tokens, token: Token) {
    |ts| > 0 && ts[0] == token
  }

  function Expect(ts: Tokens, token: Token): (r: Parsed<()>)
    ensures r.Ok? <==> Starts(ts, token)
    ensures r.Ok? ==> r.rest == ts[1..]
  {
    if Starts(ts, token) then Ok((), ts[1..]) else Err(ParseError(Expected(token), |ts|))
  }

  function ExpectIdent(ts: Tokens): Parsed<string> {
    if |ts| > 0 && (ts[0].Ident? || ts[0].BacktickIdent?) then Ok(ts[0].name, ts[1..])
    else Err(ParseError(ExpectedIdent, |ts|))
  }

  function ParseExpression(ts: Tokens): (r: Parsed<Expression>)
    ensures r.Ok? ==> |r.rest| < |ts|
    decreases |ts|, 4
  {
    ParseBp(ts, 0)
  }

  /** The bound parser of `BETWEEN TIME`: stops before AND and OR. */
  function ParseExpressionNoAnd(ts: Tokens): (r: Parsed<Expression>)
    ensures r.Ok? ==> |r.rest| < |ts|
  {
    ParseBp(ts, 4)
  }

  /** An expression whose infix and postfix operators bind at least as tightly as `minBp`. */
  function ParseBp(ts: Tokens, minBp: nat): (r: Parsed<Expression>)
    ensures r.Ok? ==> |r.rest| < |ts|
    decreases |ts|, 3
  {
    match ParsePrefix(ts)
    case Err(e) => Err(e)
    case Ok(lhs, rest) => ParseOperators(lhs, rest, minBp)
  }

  /** The loop after the first operand: postfix and infix operators applied to `lhs`. */
  function ParseOperators(lhs: Expression, ts: Tokens, minBp: nat): (r: Parsed<Expression>)
    ensures r.Ok? ==> |r.rest| <= |ts|
    decreases |ts|, 0
  {
    if |ts| == 0 then Ok(lhs, ts)
    else if ts[0] == Dot then
      match ExpectIdent(ts[1..])
      case Err(e) => Err(e)
      case Ok(prop, rest) => ParseOperators(Property(lhs, prop), rest, minBp)
    else if ts[0] == Is then
      if IS_POWER < minBp then Ok(lhs, ts)
      else
        var negated := Starts(ts[1..], Not);
        var rest := if negated then ts[2..] else ts[1..];
        if !Starts(rest, Null) then Err(ParseError(ExpectedNull, |ts|))
        else ParseOperators(IsNull(lhs, negated), rest[1..], minBp)
    else
      match BinaryOpOf(ts[0])
      case None => Ok(lhs, ts)
      case Some(op) =>
        if LeftPower(op) < minBp then Ok(lhs, ts)
        else
          match ParseBp(ts[1..], RightPower(op))
          case Err(e) => Err(e)
          case Ok(rhs, rest) => ParseOperators(Binary(op, lhs, rhs), rest, minBp)
  }

  function ParsePrefix(ts: Tokens): (r: Parsed<Expression>)
    ensures r.Ok? ==> |r.rest| < |ts|
    decreases |ts|, 2
  {
    if Starts(ts, Not) then ParseUnary(NotOp, ts)
    else if Starts(ts, Minus) then ParseUnary(NegOp, ts)
    else if Starts(ts, LParen) then
      match ParseBp(ts[1..], 0)
      case Err(e) => Err(e)
      case Ok(e, rest) =>
        match Expect(rest, RParen)
        case Err(err) => Err(err)
        case Ok(_, rest') => Ok(e, rest')
    else if Starts(ts, LBracket) then ParseList(ts)
    else ParsePrimary(ts)
  }

  function ParseUnary(op: UnaryOp, ts: Tokens): (r: Parsed<Expression>)
    requires |ts| > 0
    ensures r.Ok? ==> |r.rest| < |ts|
    decreases |ts|, 1
  {
    match ParseBp(ts[1..], PrefixPower(op))
    case Err(e) => Err(e)
    case Ok(e, rest) => Ok(Unary(op, e), rest)
  }

  function ParseList(ts: Tokens): (r: Parsed<Expression>)
    ensures r.Ok? ==> |r.rest| < |ts|
    decreases |ts|, 1
  {
    match Expect(ts, LBracket)
    case Err(e) => Err(e)
    case Ok(_, rest) =>
      match ParseItems(rest, RBracket)
      case Err(e) => Err(e)
      case Ok(elements, rest') => Ok(ListLit(elements), rest')
  }

  /** Comma-separated expressions, possibly none, up to and including the closing token. */
  function ParseItems(ts: Tokens, close: Token): (r: Parsed<seq<Expression>>)
    ensures r.Ok? ==> |r.rest| < |ts|
    decreases |ts|, 6
  {
    if Starts(ts, close) then Ok([], ts[1..])
    else
      match ParseItems1(ts)
      case Err(e) => Err(e)
      case Ok(items, rest) =>
        match Expect(rest, close)
        case Err(err) => Err(err)
        case Ok(_, rest') => Ok(items, rest')
  }

  /** One or more comma-separated expressions. */
  function ParseItems1(ts: Tokens): (r: Parsed<seq<Expression>>)
    ensures r.Ok? ==> |r.rest| < |ts|
    decreases |ts|, 5
  {
    match ParseExpression(ts)
    case Err(e) => Err(e)
    case Ok(first, rest) =>
      if !Starts(rest, Comma) then Ok([first], rest)
      else
        match ParseItems1(rest[1..])
        case Err(e) => Err(e)
        case Ok(others, rest') => Ok([first] + others, rest')
  }

  /** The expression a single token stands for. */
  function AtomOf(token: Token): Option<Expression> {
    match token
    case Integer(n) => Some(Lit(IntegerLit(n)))
    case Float(f) => Some(Lit(FloatLit(f)))
    case StringLiteral(s) => Some(Lit(StringLit(s)))
    case True => Some(Lit(BoolLit(true)))
    case False => Some(Lit(BoolLit(false)))
    case Null => Some(Lit(NullLit))
    case Parameter(name) => Some(Param(name))
    case Ident(name) => Some(Variable(name))
    case BacktickIdent(name) => Some(Variable(name))
    case _ => None
  }

  function ParsePrimary(ts: Tokens): (r: Parsed<Expression>)
    ensures r.Ok? ==> |r.rest| < |ts|
    decreases |ts|, 1
  {
    if |ts| == 0 then Err(ParseError(UnexpectedEnd, 0))
    else if ts[0] == Count then ParseCount(ts)
    else if ts[0].Ident? && Starts(ts[1..], LParen) then ParseCall(ts[0].name, ts[1..][1..])
    else
      match AtomOf(ts[0])
      case Some(e) => Ok(e, ts[1..])
      case None => Err(ParseError(UnexpectedToken(ts[0]), |ts|))
  }

  /** `count(*)`, `count(x)` and `count(DISTINCT x)`. */
  function ParseCount(ts: Tokens): (r: Parsed<Expression>)
    requires Starts(ts, Count)
    ensures r.Ok? ==> |r.rest| < |ts|
    decreases |ts|, 0
  {
    match Expect(ts[1..], LParen)
    case Err(e) => Err(e)
    case Ok(_, rest) => ParseCountBody(rest)
  }

  function ParseCountBody(ts: Tokens): (r: Parsed<Expression>)
    ensures r.Ok? ==> |r.rest| < |ts|
    decreases |ts|, 6
  {
    if Starts(ts, Star) then
      match Expect(ts[1..], RParen)
      case Err(e) => Err(e)
      case Ok(_, rest) => Ok(CountStar, rest)
    else if Starts(ts, Distinct) then ParseCountArgument(true, ts[1..])
    else ParseCountArgument(false, ts)
  }

  function ParseCountArgument(distinct: bool, ts: Tokens): (r: Parsed<Expression>)
    ensures r.Ok? ==> |r.rest| < |ts|
    decreases |ts|, 5
  {
    match ParseExpression(ts)
    case Err(e) => Err(e)
    case Ok(arg, rest) =>
      match Expect(rest, RParen)
      case Err(e) => Err(e)
      case Ok(_, rest') => Ok(FunctionCall(COUNT, distinct, [arg]), rest')
  }

  /** A call `name(args)` after its open parenthesis. */
  function ParseCall(name: string, ts: Tokens): (r: Parsed<Expression>)
    ensures r.Ok? ==> |r.rest| < |ts|
    decreases |ts|, 7
  {
    var distinct := Starts(ts, Distinct);
    match ParseItems(if distinct then ts[1..] else ts, RParen)
    case Err(e) => Err(e)
    case Ok(args, rest) => Ok(FunctionCall(name, distinct, args), rest)
  }

  // ---------------------------------------------------------------------------
  // The temporal predicate of a MATCH clause
  // ---------------------------------------------------------------------------

  datatype TemporalPredicate = AsOf(at: Expression) | BetweenTimes(start: Expression, end: Expression)

  function ParseTemporal(ts: Tokens): Parsed<Option<TemporalPredicate>> {
    if Starts(ts, Word(At)) then
      match Expect(ts[1..], Word(Time))
      case Err(e) => Err(e)
      case Ok(_, rest) =>
        match ParseExpression(rest)
        case Err(e) => Err(e)
        case Ok(at, rest') => Ok(Some(AsOf(at)), rest')
    else if Starts(ts, Word(Between)) then
      match Expect(ts[1..], Word(Time))
      case Err(e) => Err(e)
      case Ok(_, rest) =>
        match ParseExpressionNoAnd(rest)
        case Err(e) => Err(e)
        case Ok(start, rest1) =>
          match Expect(rest1, And)
          case Err(e) => Err(e)
          case Ok(_, rest2) =>
            match ParseExpressionNoAnd(rest2)
            case Err(e) => Err(e)
            case Ok(end, rest3) => Ok(Some(BetweenTimes(start, end)), rest3)
    else Ok(None, ts)
  }
}
