/** The expression grammar in layers, one for each precedence, with every token written out, and
    on which token streams the parser by binding powers is this grammar.

    1 OR, 2 AND, 3 NOT, 4 comparisons and IS NULL, 5 sums, 6 products, 7 unary minus,
    8 properties, 9 primaries. Infix operators associate to the left. */
module Precedence {
  import opened Syntax
  import opened Grammar

  // ---------------------------------------------------------------------------
  // The grammar
  // ---------------------------------------------------------------------------

  predicate InfixToken(level: nat, t: Token, op: BinaryOp) {
    match op
    case OrOp => level == 1 && t == Or
    case AndOp => level == 2 && t == And
    case EqOp => level == 4 && t == Eq
    case NeqOp => level == 4 && (t == NotEqual || t == BangEqual)
    case LtOp => level == 4 && t == Less
    case LteOp => level == 4 && t == LessEqual
    case GtOp => level == 4 && t == Greater
    case GteOp => level == 4 && t == GreaterEqual
    case AddOp => level == 5 && t == Plus
    case SubOp => level == 5 && t == Minus
    case MulOp => level == 6 && t == Star
    case DivOp => level == 6 && t == Slash
    case ModOp => level == 6 && t == Percent
  }

  predicate IsName(t: Token, name: string) {
    t == Ident(name) || t == BacktickIdent(name)
  }

  /** A primary of one token. */
  predicate IsAtom(t: Token, e: Expression) {
    match e
    case Lit(IntegerLit(n)) => t == Integer(n)
    case Lit(FloatLit(f)) => t == Float(f)
    case Lit(StringLit(s)) => t == StringLiteral(s)
    case Lit(BoolLit(b)) => t == if b then True else False
    case Lit(NullLit) => t == Null
    case Variable(name) => IsName(t, name)
    case Param(name) => t == Parameter(name)
    case _ => false
  }

  /** The tokens spell the expression at this precedence or a higher one. */
  ghost predicate Derives(level: nat, e: Expression, ts: Tokens)
    requires 1 <= level <= 9
    decreases |ts|, 10 - level
  {
    if level == 9 then Primary(e, ts) else Derives(level + 1, e, ts) || Operator(level, e, ts)
  }

  ghost predicate Operator(level: nat, e: Expression, ts: Tokens)
    requires 1 <= level <= 8
    decreases |ts|, 0
  {
    match e
    case Binary(op, lhs, rhs) =>
      exists i | 0 <= i < |ts| ::
        InfixToken(level, ts[i], op) && Derives(level, lhs, ts[..i]) && Derives(level + 1, rhs, ts[i + 1..])
    case Unary(op, operand) =>
      && ts != []
      && ((level == 3 && op == NotOp && ts[0] == Not) || (level == 7 && op == NegOp && ts[0] == Minus))
      && Derives(level, operand, ts[1..])
    case IsNull(inner, negated) =>
      var n := |ts| - if negated then 3 else 2;
      && level == 4 && n >= 0
      && ts[n..] == (if negated then [Is, Not, Null] else [Is, Null])
      && Derives(4, inner, ts[..n])
    case Property(base, prop) =>
      var n := |ts| - 2;
      level == 8 && n >= 0 && ts[n] == Dot && IsName(ts[n + 1], prop) && Derives(8, base, ts[..n])
    case _ => false
  }

  ghost predicate Primary(e: Expression, ts: Tokens)
    decreases |ts|, 0
  {
    var n := |ts| - 1;
    || (n == 0 && IsAtom(ts[0], e))
    || (n >= 1 && ts[0] == LParen && ts[n] == RParen && Derives(1, e, ts[1..n]))
    || match e
       case ListLit(elements) => n >= 1 && ts[0] == LBracket && ts[n] == RBracket && Items(elements, ts[1..n])
       case CountStar => ts == [Count, LParen, Star, RParen]
       case FunctionCall(fn, distinct, args) =>
         var first := if distinct then 3 else 2;
         && n >= first && ts[1] == LParen && ts[n] == RParen && (distinct ==> ts[2] == Distinct)
         && (|| (ts[0] == Ident(fn) && Items(args, ts[first..n]))
             || (ts[0] == Count && fn == "count" && |args| == 1 && Derives(1, args[0], ts[first..n])))
       case _ => false
  }

  /** Expressions between commas. */
  ghost predicate Items(es: seq<Expression>, ts: Tokens)
    decreases |ts|, 10
  {
    if es == [] then ts == []
    else if |es| == 1 then Derives(1, es[0], ts)
    else exists i | 0 <= i < |ts| :: ts[i] == Comma && Derives(1, es[0], ts[..i]) && Items(es[1..], ts[i + 1..])
  }

  // ---------------------------------------------------------------------------
  // Where the parser is more generous
  // ---------------------------------------------------------------------------

  predicate IsArithmetic(t: Token) {
    t == Plus || t == Minus || t == Star || t == Slash || t == Percent
  }

  predicate IsComparison(t: Token) {
    t == Eq || t == NotEqual || t == BangEqual || t == Less || t == LessEqual || t == Greater || t == GreaterEqual
  }

  /** The tokens before `i` end in IS NULL or IS NOT NULL. */
  predicate AfterNullTest(ts: Tokens, i: nat)
    requires i <= |ts|
  {
    i >= 2 && ts[i - 1] == Null && (ts[i - 2] == Is || (i >= 3 && ts[i - 2] == Not && ts[i - 3] == Is))
  }

  /** No NOT right after a comparison or an arithmetic operator, and no property or arithmetic
      operator right after a null test. The parser takes both; the grammar has neither. */
  ghost predicate Regular(ts: Tokens) {
    forall i | 0 < i < |ts| :: RegularAt(ts, i)
  }

  predicate RegularAt(ts: Tokens, i: nat)
    requires 0 < i < |ts|
  {
    && (ts[i] == Not ==> !IsArithmetic(ts[i - 1]) && !IsComparison(ts[i - 1]))
    && (ts[i] == Dot || IsArithmetic(ts[i]) ==> !AfterNullTest(ts, i))
  }

  lemma RegularTail(ts: Tokens, k: nat)
    requires Regular(ts) && k <= |ts|
    ensures Regular(ts[k..])
  {
    forall i | 0 < i < |ts[k..]|
      ensures RegularAt(ts[k..], i)
    {
      assert RegularAt(ts, k + i);
    }
  }

  // ---------------------------------------------------------------------------
  // What the grammar spells is regular
  // ---------------------------------------------------------------------------

  /** How spelled tokens can start and end. */
  predicate Edges(level: nat, ts: Tokens) {
    ts != [] && (level >= 4 ==> ts[0] != Not) && (level >= 5 ==> !AfterNullTest(ts, |ts|)) && !EndsInIs(ts)
  }

  /** The tokens end in IS or IS NOT. */
  predicate EndsInIs(ts: Tokens) {
    var n := |ts|;
    (n >= 1 && ts[n - 1] == Is) || (n >= 2 && ts[n - 1] == Not && ts[n - 2] == Is)
  }

  lemma RegularJoin(a: Tokens, b: Tokens)
    requires Regular(a) && Regular(b) && a != [] && b != [] && !EndsInIs(a)
    requires b[0] == Not ==> !IsArithmetic(a[|a| - 1]) && !IsComparison(a[|a| - 1])
    requires b[0] == Dot || IsArithmetic(b[0]) ==> !AfterNullTest(a, |a|)
    ensures Regular(a + b)
    ensures AfterNullTest(a + b, |a + b|) ==> AfterNullTest(b, |b|)
    ensures EndsInIs(a + b) ==> EndsInIs(b)
  {
    var ts := a + b;
    forall i | 0 < i < |ts|
      ensures RegularAt(ts, i)
    {
      if i < |a| {
        assert RegularAt(a, i);
      } else if i > |a| {
        assert RegularAt(b, i - |a|);
      }
    }
  }

  lemma SingleIsRegular(t: Token)
    ensures Regular([t]) && Regular([])
  {
  }

  /** An infix operator between two regular parts. */
  lemma RegularInfix(level: nat, a: Tokens, t: Token, op: BinaryOp, b: Tokens)
    requires InfixToken(level, t, op) && Regular(a) && Regular(b) && Edges(level, a) && Edges(level + 1, b)
    ensures Regular(a + [t] + b) && Edges(level, a + [t] + b)
  {
    SingleIsRegular(t);
    RegularJoin(a, [t]);
    RegularJoin(a + [t], b);
  }

  lemma RegularPrefix(level: nat, t: Token, b: Tokens)
    requires (level == 3 && t == Not) || (level == 7 && t == Minus)
    requires Regular(b) && Edges(level, b)
    ensures Regular([t] + b) && Edges(level, [t] + b)
  {
    SingleIsRegular(t);
    RegularJoin([t], b);
  }

  lemma RegularNullTest(a: Tokens, negated: bool)
    requires Regular(a) && Edges(4, a)
    ensures var b := if negated then [Is, Not, Null] else [Is, Null];
            Regular(a + b) && Edges(4, a + b)
  {
    var b := if negated then [Is, Not, Null] else [Is, Null];
    assert Regular(b);
    RegularJoin(a, b);
  }

  lemma RegularProperty(a: Tokens, dot: Tokens)
    requires Regular(a) && Edges(8, a) && |dot| == 2 && dot[0] == Dot && (dot[1].Ident? || dot[1].BacktickIdent?)
    ensures Regular(a + dot) && Edges(8, a + dot)
  {
    assert Regular(dot);
    RegularJoin(a, dot);
  }

  /** Brackets around a regular part. */
  lemma RegularBrackets(open: Tokens, a: Tokens, close: Token)
    requires open != [] && Regular(open) && Regular(a) && (close == RParen || close == RBracket)
    requires open[0] == LParen || open[0] == LBracket || open[0] == Count || open[0].Ident?
    requires var last := open[|open| - 1]; last == LParen || last == LBracket || last == Distinct
    requires !EndsInIs(a)
    ensures Regular(open + a + [close]) && Edges(9, open + a + [close])
  {
    SingleIsRegular(close);
    if a == [] {
      assert open + a == open;
    } else {
      RegularJoin(open, a);
    }
    RegularJoin(open + a, [close]);
  }

  lemma {:induction false} DerivesRegular(level: nat, e: Expression, ts: Tokens)
    requires 1 <= level <= 9 && Derives(level, e, ts)
    ensures Regular(ts) && Edges(level, ts)
    decreases |ts|, 10 - level
  {
    if level == 9 {
      PrimaryRegular(e, ts);
    } else if Derives(level + 1, e, ts) {
      DerivesRegular(level + 1, e, ts);
    } else {
      OperatorRegular(level, e, ts);
    }
  }

  lemma {:induction false} OperatorRegular(level: nat, e: Expression, ts: Tokens)
    requires 1 <= level <= 8 && Operator(level, e, ts)
    ensures Regular(ts) && Edges(level, ts)
    decreases |ts|, 0, 1
  {
    hide Regular, Edges, Derives, InfixToken;
    match e
    case Binary(op, lhs, rhs) =>
      var i :| 0 <= i < |ts| && InfixToken(level, ts[i], op) && Derives(level, lhs, ts[..i]) && Derives(level + 1, rhs, ts[i + 1..]);
      InfixRegular(level, op, lhs, rhs, ts, i);
    case Unary(_, operand) =>
      DerivesRegular(level, operand, ts[1..]);
      RegularPrefix(level, ts[0], ts[1..]);
      assert ts == [ts[0]] + ts[1..];
    case IsNull(inner, negated) =>
      var n := |ts| - if negated then 3 else 2;
      DerivesRegular(4, inner, ts[..n]);
      RegularNullTest(ts[..n], negated);
      assert ts == ts[..n] + ts[n..];
    case Property(base, _) =>
      var n := |ts| - 2;
      DerivesRegular(8, base, ts[..n]);
      RegularProperty(ts[..n], ts[n..]);
      assert ts == ts[..n] + ts[n..];
  }

  lemma {:induction false} InfixRegular(level: nat, op: BinaryOp, lhs: Expression, rhs: Expression, ts: Tokens, i: nat)
    requires 1 <= level <= 8 && i < |ts| && InfixToken(level, ts[i], op)
    requires Derives(level, lhs, ts[..i]) && Derives(level + 1, rhs, ts[i + 1..])
    ensures Regular(ts) && Edges(level, ts)
    decreases |ts|, 0, 0
  {
    hide Regular, Edges, Derives, InfixToken;
    DerivesRegular(level, lhs, ts[..i]);
    DerivesRegular(level + 1, rhs, ts[i + 1..]);
    RegularInfix(level, ts[..i], ts[i], op, ts[i + 1..]);
    assert ts == ts[..i] + [ts[i]] + ts[i + 1..];
  }

  lemma {:induction false} PrimaryRegular(e: Expression, ts: Tokens)
    requires Primary(e, ts)
    ensures Regular(ts) && Edges(9, ts)
    decreases |ts|, 0
  {
    var n := |ts| - 1;
    if n == 0 {
      SingleIsRegular(ts[0]);
    } else if ts[0] == LParen && ts[n] == RParen && Derives(1, e, ts[1..n]) {
      DerivesRegular(1, e, ts[1..n]);
      Brackets(ts, 1);
    } else {
      match e
      case ListLit(elements) =>
        ItemsRegular(elements, ts[1..n]);
        Brackets(ts, 1);
      case FunctionCall(fn, distinct, args) =>
        var first := if distinct then 3 else 2;
        if ts[0] == Ident(fn) && Items(args, ts[first..n]) {
          ItemsRegular(args, ts[first..n]);
        } else {
          DerivesRegular(1, args[0], ts[first..n]);
        }
        Brackets(ts, first);
      case _ =>
    }
  }

  lemma OpenIsRegular(open: Tokens)
    requires 1 <= |open| <= 3 && open[0] != Not
    requires |open| > 1 ==> open[1] == LParen && (|open| == 3 ==> open[2] == Distinct)
    ensures Regular(open)
  {
  }

  lemma Brackets(ts: Tokens, first: nat)
    requires 1 <= first <= 3 && |ts| > first
    requires var n := |ts| - 1; Regular(ts[first..n]) && !EndsInIs(ts[first..n]) && (ts[n] == RParen || ts[n] == RBracket)
    requires if first == 1 then ts[0] == LParen || ts[0] == LBracket
             else (ts[0].Ident? || ts[0] == Count) && ts[1] == LParen && (first == 3 ==> ts[2] == Distinct)
    ensures Regular(ts) && Edges(9, ts)
  {
    hide Regular, Edges, EndsInIs;
    var n := |ts| - 1;
    OpenIsRegular(ts[..first]);
    RegularBrackets(ts[..first], ts[first..n], ts[n]);
    assert ts == ts[..first] + ts[first..n] + [ts[n]];
  }

  lemma {:induction false} ItemsRegular(es: seq<Expression>, ts: Tokens)
    requires Items(es, ts)
    ensures Regular(ts) && !EndsInIs(ts) && (es != [] ==> ts != [])
    decreases |ts|, 10
  {
    hide Regular, Derives;
    SingleIsRegular(Comma);
    if |es| == 1 {
      DerivesRegular(1, es[0], ts);
    } else if es != [] {
      var i :| 0 <= i < |ts| && ts[i] == Comma && Derives(1, es[0], ts[..i]) && Items(es[1..], ts[i + 1..]);
      DerivesRegular(1, es[0], ts[..i]);
      ItemsRegular(es[1..], ts[i + 1..]);
      RegularComma(ts[..i], ts[i + 1..]);
      assert ts == ts[..i] + [Comma] + ts[i + 1..];
    }
  }

  lemma RegularComma(a: Tokens, b: Tokens)
    requires Regular(a) && Regular(b) && Edges(1, a) && b != [] && !EndsInIs(b)
    ensures Regular(a + [Comma] + b) && !EndsInIs(a + [Comma] + b)
  {
    SingleIsRegular(Comma);
    RegularJoin(a, [Comma]);
    RegularJoin(a + [Comma], b);
  }
}
