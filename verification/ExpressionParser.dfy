/** The cursor-moving parser. Each method is proved to return what the grammar function of
    the same name gives on the tokens from the cursor on, and to leave the cursor where that
    function says. */
module ExpressionParser {
  import opened Wrappers
  import opened Syntax
  import opened Grammar

  datatype Outcome<+T> = Success(value: T) | Failure(error: ParseError) {
    predicate IsFailure() { Failure? }
    function PropagateFailure<U>(): Outcome<U> requires Failure? { Failure(error) }
    function Extract(): T requires Success? { value }
  }

  class Parser {
    const tokens: Tokens
    var pos: nat

    constructor (tokens: Tokens)
      ensures this.tokens == tokens && pos == 0 && Valid()
    {
      this.tokens := tokens;
      pos := 0;
    }

    ghost predicate Valid()
      reads this
    {
      pos <= |tokens|
    }

    /** The tokens still to be read. */
    function Left(): Tokens
      requires Valid()
      reads this
    {
      tokens[pos..]
    }

    /** The outcome and the cursor are those of the grammar function's result. */
    ghost predicate Agrees<T>(r: Outcome<T>, p: Parsed<T>)
      reads this
    {
      && Valid()
      && match p
         case Ok(v, rest) => r == Success(v) && Left() == rest
         case Err(e) => r == Failure(e)
    }

    function Peek(): (t: Option<Token>)
      requires Valid()
      reads this
      ensures t.Some? <==> Left() != []
      ensures t.Some? ==> t.value == Left()[0]
    {
      if pos < |tokens| then Some(tokens[pos]) else None
    }

    predicate Check(token: Token)
      requires Valid()
      reads this
      ensures Check(token) <==> Starts(Left(), token)
    {
      Peek() == Some(token)
    }

    method Advance()
      requires Valid()
      modifies this`pos
      ensures Valid()
      ensures Left() == if old(Left()) == [] then [] else old(Left())[1..]
    {
      if pos < |tokens| {
        pos := pos + 1;
      }
    }

    method Eat(token: Token) returns (eaten: bool)
      requires Valid()
      modifies this`pos
      ensures Valid()
      ensures eaten <==> Starts(old(Left()), token)
      ensures Left() == if eaten then old(Left())[1..] else old(Left())
    {
      eaten := Check(token);
      if eaten {
        pos := pos + 1;
      }
    }

    method ExpectToken(token: Token) returns (r: Outcome<()>)
      requires Valid()
      modifies this`pos
      ensures Agrees(r, Expect(old(Left()), token))
      ensures pos >= old(pos)
    {
      if Check(token) {
        pos := pos + 1;
        return Success(());
      }
      return Failure(ParseError(Expected(token), |tokens| - pos));
    }

    method ExpectIdentifier() returns (r: Outcome<string>)
      requires Valid()
      modifies this`pos
      ensures Agrees(r, ExpectIdent(old(Left())))
      ensures pos >= old(pos)
    {
      var next := Peek();
      if next.Some? && (next.value.Ident? || next.value.BacktickIdent?) {
        pos := pos + 1;
        return Success(next.value.name);
      }
      return Failure(ParseError(ExpectedIdent, |tokens| - pos));
    }

    method ParseExpr() returns (r: Outcome<Expression>)
      requires Valid()
      modifies this`pos
      ensures Agrees(r, ParseExpression(old(Left())))
      decreases |tokens| - pos, 4
    {
      r := ParseExprBp(0);
    }

    method ParseExprBp(minBp: nat) returns (r: Outcome<Expression>)
      requires Valid()
      modifies this`pos
      ensures Agrees(r, ParseBp(old(Left()), minBp))
      decreases |tokens| - pos, 3
    {
      hide ParsePrefix;
      ghost var start := Left();
      var lhs :- ParsePrefixExpr();
      while true
        invariant Valid() && pos > old(pos)
        invariant ParseBp(start, minBp) == ParseOperators(lhs, Left(), minBp)
        decreases |tokens| - pos
      {
        if Check(Dot) {
          Advance();
          var prop :- ExpectIdentifier();
          lhs := Property(lhs, prop);
          continue;
        }
        if Check(Is) {
          if IS_POWER < minBp {
            break;
          }
          var at := |tokens| - pos;
          Advance();
          var negated := Eat(Not);
          if !Check(Null) {
            return Failure(ParseError(ExpectedNull, at));
          }
          Advance();
          lhs := IsNull(lhs, negated);
          continue;
        }
        var next := Peek();
        if next.None? {
          break;
        }
        var op := BinaryOpOf(next.value);
        if op.None? {
          break;
        }
        if LeftPower(op.value) < minBp {
          break;
        }
        Advance();
        var rhs :- ParseExprBp(RightPower(op.value));
        lhs := Binary(op.value, lhs, rhs);
      }
      return Success(lhs);
    }

    method ParsePrefixExpr() returns (r: Outcome<Expression>)
      requires Valid()
      modifies this`pos
      ensures Agrees(r, ParsePrefix(old(Left())))
      decreases |tokens| - pos, 2
    {
      if Check(Not) {
        Advance();
        var e :- ParseExprBp(PrefixPower(NotOp));
        return Success(Unary(NotOp, e));
      } else if Check(Minus) {
        Advance();
        var e :- ParseExprBp(PrefixPower(NegOp));
        return Success(Unary(NegOp, e));
      } else if Check(LParen) {
        Advance();
        var e :- ParseExprBp(0);
        var _ :- ExpectToken(RParen);
        return Success(e);
      } else if Check(LBracket) {
        r := ParseListLiteral();
      } else {
        r := ParsePrimaryExpr();
      }
    }

    method ParseListLiteral() returns (r: Outcome<Expression>)
      requires Valid()
      modifies this`pos
      ensures Agrees(r, ParseList(old(Left())))
      decreases |tokens| - pos, 1
    {
      var _ :- ExpectToken(LBracket);
      var elements :- ParseItemList(RBracket);
      return Success(ListLit(elements));
    }

    /** The element loop shared by list literals and argument lists. */
    method ParseItemList(close: Token) returns (r: Outcome<seq<Expression>>)
      requires Valid()
      modifies this`pos
      ensures Agrees(r, ParseItems(old(Left()), close))
      decreases |tokens| - pos, 6
    {
      var items := [];
      if !Check(close) {
        items :- ParseSomeItems();
      }
      var _ :- ExpectToken(close);
      return Success(items);
    }

    method ParseSomeItems() returns (r: Outcome<seq<Expression>>)
      requires Valid()
      modifies this`pos
      ensures Agrees(r, ParseItems1(old(Left())))
      decreases |tokens| - pos, 5
    {
      hide ParseExpression, ParseItems1, WithItems, MoreItems;
      ghost var start := Left();
      ItemError([], start);
      var first :- ParseExpr();
      var items := [first];
      FirstItem(start, first, Left());
      while Check(Comma)
        invariant Valid() && pos > old(pos)
        invariant ParseItems1(start) == WithItems(items, MoreItems(Left()))
        decreases |tokens| - pos
      {
        CommaStep(Left());
        Advance();
        ghost var before := Left();
        ItemError(items, before);
        var e :- ParseExpr();
        ItemsStep(items, before, e, Left());
        items := items + [e];
      }
      LastItem(items, Left());
      return Success(items);
    }

    method ParsePrimaryExpr() returns (r: Outcome<Expression>)
      requires Valid()
      modifies this`pos
      ensures Agrees(r, ParsePrimary(old(Left())))
      decreases |tokens| - pos, 1
    {
      var next := Peek();
      if next.None? {
        return Failure(ParseError(UnexpectedEnd, 0));
      }
      if next.value == Count {
        r := ParseCountCall();
      } else if next.value.Ident? {
        r := ParseIdent(next.value.name);
      } else {
        var atom := AtomOf(next.value);
        if atom.None? {
          return Failure(ParseError(UnexpectedToken(next.value), |tokens| - pos));
        }
        Advance();
        return Success(atom.value);
      }
    }

    method ParseCountCall() returns (r: Outcome<Expression>)
      requires Valid() && Starts(Left(), Count)
      modifies this`pos
      ensures Agrees(r, ParseCount(old(Left())))
      decreases |tokens| - pos, 0
    {
      Advance();
      var _ :- ExpectToken(LParen);
      r := ParseCountRest();
    }

    /** `count` after its open parenthesis. */
    method ParseCountRest() returns (r: Outcome<Expression>)
      requires Valid()
      modifies this`pos
      ensures Agrees(r, ParseCountBody(old(Left())))
      decreases |tokens| - pos, 6
    {
      hide ParseExpression;
      var star := Eat(Star);
      if star {
        var _ :- ExpectToken(RParen);
        return Success(CountStar);
      }
      var distinct := Eat(Distinct);
      assert ParseCountBody(old(Left())) == ParseCountArgument(distinct, Left());
      var arg :- ParseExpr();
      var _ :- ExpectToken(RParen);
      return Success(FunctionCall(COUNT, distinct, [arg]));
    }

    method ParseIdent(name: string) returns (r: Outcome<Expression>)
      requires Valid() && Starts(Left(), Ident(name))
      modifies this`pos
      ensures Agrees(r, ParsePrimary(old(Left())))
      decreases |tokens| - pos, 0
    {
      Advance();
      if !Check(LParen) {
        return Success(Variable(name));
      }
      Advance();
      assert ParsePrimary(old(Left())) == ParseCall(name, Left());
      var distinct := Eat(Distinct);
      var args :- ParseItemList(RParen);
      return Success(FunctionCall(name, distinct, args));
    }

    method ParseOptionalTemporalPredicate() returns (r: Outcome<Option<TemporalPredicate>>)
      requires Valid()
      modifies this`pos
      ensures Agrees(r, ParseTemporal(old(Left())))
    {
      if Check(Word(At)) {
        Advance();
        var _ :- ExpectToken(Word(Time));
        var e :- ParseExpr();
        return Success(Some(AsOf(e)));
      } else if Check(Word(Between)) {
        Advance();
        var _ :- ExpectToken(Word(Time));
        var start :- ParseExprBp(4);
        var _ :- ExpectToken(And);
        var end :- ParseExprBp(4);
        return Success(Some(BetweenTimes(start, end)));
      } else {
        return Success(None);
      }
    }
  }

  // ---------------------------------------------------------------------------
  // The element loop against its recursive definition
  // ---------------------------------------------------------------------------

  ghost function WithItems(items: seq<Expression>, p: Parsed<seq<Expression>>): Parsed<seq<Expression>> {
    match p
    case Ok(others, rest) => Ok(items + others, rest)
    case Err(e) => Err(e)
  }

  /** What follows an element: another element after a comma, or nothing. */
  ghost function MoreItems(ts: Tokens): Parsed<seq<Expression>> {
    if Starts(ts, Comma) then ParseItems1(ts[1..]) else Ok([], ts)
  }

  lemma FirstItem(ts: Tokens, e: Expression, rest: Tokens)
    requires ParseExpression(ts) == Ok(e, rest)
    ensures ParseItems1(ts) == WithItems([e], MoreItems(rest))
  {
    assert [e] + [] == [e];
  }

  lemma ItemsStep(items: seq<Expression>, ts: Tokens, e: Expression, rest: Tokens)
    requires ParseExpression(ts) == Ok(e, rest)
    ensures WithItems(items, ParseItems1(ts)) == WithItems(items + [e], MoreItems(rest))
  {
    FirstItem(ts, e, rest);
    var more := MoreItems(rest);
    if more.Ok? {
      assert items + ([e] + more.value) == items + [e] + more.value;
    }
  }

  lemma CommaStep(ts: Tokens)
    requires Starts(ts, Comma)
    ensures MoreItems(ts) == ParseItems1(ts[1..])
  {
  }

  lemma LastItem(items: seq<Expression>, ts: Tokens)
    ensures !Starts(ts, Comma) ==> WithItems(items, MoreItems(ts)) == Ok(items, ts)
  {
    assert items + [] == items;
  }

  lemma ItemError(items: seq<Expression>, ts: Tokens)
    ensures var p := ParseExpression(ts);
            p.Err? ==> ParseItems1(ts) == Err(p.error) && WithItems(items, ParseItems1(ts)) == Err(p.error)
  {
  }
}
