/** The parser by binding powers and the layered grammar. */
module LayeredParsing {
  import opened Wrappers
  import opened Syntax
  import opened Grammar
  import opened Printer
  import opened Precedence

  // ---------------------------------------------------------------------------
  // Levels as binding powers
  // ---------------------------------------------------------------------------

  /** The greatest bound at which an expression of this level is read whole. */
  function Floor(level: nat): nat {
    match level
    case 1 => 1
    case 2 => 3
    case 3 => 5
    case 4 => 5
    case 5 => 7
    case 6 => 9
    case _ => 11
  }

  /** The strengths below this leave an expression of this level alone. */
  function Ceiling(level: nat): int {
    match level
    case 1 => 2
    case 2 => 4
    case 3 => 4
    case 4 => 6
    case 5 => 8
    case 6 => 10
    case 7 => 11
    case _ => 14
  }

  /** The bounds the parser uses, and the level each stands for. */
  predicate IsBound(m: nat) {
    m == 0 || m == 2 || m == 4 || m == 6 || m == 8 || m == 10 || m == 11
  }

  function LevelOf(m: nat): nat {
    match m
    case 0 => 1
    case 2 => 2
    case 4 => 3
    case 6 => 5
    case 8 => 6
    case _ => 7
  }

  lemma InfixPowers(level: nat, t: Token, op: BinaryOp)
    requires InfixToken(level, t, op)
    ensures 1 <= level <= 6 && BinaryOpOf(t) == Some(op) && t != Dot && t != Is && t != LParen
    ensures LeftPower(op) == Ceiling(level) - 1 && RightPower(op) == Ceiling(level)
    ensures Floor(level) <= LeftPower(op) && RightPower(op) <= Floor(level + 1)
    ensures IsBound(RightPower(op)) && LevelOf(RightPower(op)) == level + 1
  {
    InfixTables(level, t, op);
    assert level == 1 || level == 2 || level == 4 || level == 5 || level == 6;
    hide InfixToken, BinaryOpOf, LeftPower, RightPower;
  }

  lemma InfixTables(level: nat, t: Token, op: BinaryOp)
    requires InfixToken(level, t, op)
    ensures BinaryOpOf(t) == Some(op) && t != Dot && t != Is && t != LParen
    ensures level == 1 || level == 2 || level == 4 || level == 5 || level == 6
    ensures LeftPower(op) == if level <= 2 then 2 * level - 1 else 2 * level - 3
    ensures RightPower(op) == if level <= 2 then 2 * level else 2 * level - 2
  {
  }

  lemma LevelsRise(level: nat)
    requires 1 <= level <= 9
    ensures Floor(level) <= Floor(level + 1) <= 11 && Ceiling(level) <= Ceiling(level + 1)
  {
  }

  // ---------------------------------------------------------------------------
  // What the grammar spells the parser reads
  // ---------------------------------------------------------------------------

  lemma InfixStep(t: Token, op: BinaryOp, lhs: Expression, rhs: Expression, tail: Tokens, rest: Tokens, m: nat)
    requires BinaryOpOf(t) == Some(op) && t != Dot && t != Is && m <= LeftPower(op)
    requires ParseBp(tail, RightPower(op)) == Ok(rhs, rest)
    ensures ParseOperators(lhs, [t] + tail, m) == ParseOperators(Binary(op, lhs, rhs), rest, m)
  {
    hide ParseBp;
    assert ([t] + tail)[1..] == tail;
  }

  lemma NameStep(base: Expression, t: Token, prop: string, rest: Tokens, m: nat)
    requires IsName(t, prop)
    ensures ParseOperators(base, [Dot] + ([t] + rest), m) == ParseOperators(Property(base, prop), rest, m)
  {
    var tail := [t] + rest;
    assert ([Dot] + tail)[1..] == tail && tail[1..] == rest;
  }

  lemma OneToken(t: Token, e: Expression, rest: Tokens, m: nat)
    requires IsAtom(t, e) && !Starts(rest, LParen)
    ensures ParseBp([t] + rest, m) == ParseOperators(e, rest, m)
  {
    hide ParseBp, ParseOperators, ParseCall, ParseCount;
    var ts := [t] + rest;
    assert ts[1..] == rest;
    assert ParsePrimary(ts) == Ok(e, rest);
    PrimaryStep(e, ts, rest, m);
  }

  /** The tokens that end a bracketed part leave what is inside alone. */
  lemma ClosingStrength(close: Token, rest: Tokens)
    requires close == RParen || close == RBracket || close == Comma
    ensures Strength([close] + rest) == INERT && !Starts([close] + rest, LParen)
  {
  }

  lemma {:induction false} DerivesParses(level: nat, e: Expression, ts: Tokens, rest: Tokens, m: nat)
    requires 1 <= level <= 9 && Derives(level, e, ts)
    requires m <= Floor(level) && Strength(rest) < Ceiling(level) && !Starts(rest, LParen)
    ensures ParseBp(ts + rest, m) == ParseOperators(e, rest, m)
    decreases |ts|, 10 - level
  {
    hide ParseBp, ParseOperators, Strength, Floor, Ceiling;
    LevelsRise(level);
    if level == 9 {
      PrimaryParses(e, ts, rest, m);
    } else if Derives(level + 1, e, ts) {
      DerivesParses(level + 1, e, ts, rest, m);
    } else {
      OperatorParses(level, e, ts, rest, m);
    }
  }

  lemma {:induction false} OperatorParses(level: nat, e: Expression, ts: Tokens, rest: Tokens, m: nat)
    requires 1 <= level <= 8 && Operator(level, e, ts)
    requires m <= Floor(level) && Strength(rest) < Ceiling(level) && !Starts(rest, LParen)
    ensures ParseBp(ts + rest, m) == ParseOperators(e, rest, m)
    decreases |ts|, 0, 1
  {
    hide ParseBp, ParseOperators, Derives, InfixToken, BinaryOpOf;
    match e
    case Binary(op, lhs, rhs) =>
      var i :| 0 <= i < |ts| && InfixToken(level, ts[i], op) && Derives(level, lhs, ts[..i]) && Derives(level + 1, rhs, ts[i + 1..]);
      InfixParses(level, op, lhs, rhs, ts, i, rest, m);
    case Unary(op, operand) => PrefixParses(level, op, operand, ts, rest, m);
    case IsNull(inner, negated) =>
      var n := |ts| - if negated then 3 else 2;
      IsStart(negated, rest);
      DerivesParses(4, inner, ts[..n], PrintIs(negated, rest), m);
      IsStep(inner, negated, rest, m);
      assert ts + rest == ts[..n] + PrintIs(negated, rest);
    case Property(base, prop) =>
      var n := |ts| - 2;
      var tail := [Dot] + ([ts[n + 1]] + rest);
      DerivesParses(8, base, ts[..n], tail, m);
      NameStep(base, ts[n + 1], prop, rest, m);
      assert ts + rest == ts[..n] + tail;
  }

  lemma {:induction false} PrefixParses(level: nat, op: UnaryOp, operand: Expression, ts: Tokens, rest: Tokens, m: nat)
    requires ts != [] && ((level == 3 && op == NotOp && ts[0] == Not) || (level == 7 && op == NegOp && ts[0] == Minus))
    requires Derives(level, operand, ts[1..]) && Strength(rest) < Ceiling(level) && !Starts(rest, LParen)
    ensures ParseBp(ts + rest, m) == ParseOperators(Unary(op, operand), rest, m)
    decreases |ts|, 0, 0
  {
    hide ParseBp, ParseOperators, Derives, Strength;
    var bound := PrefixPower(op);
    DerivesParses(level, operand, ts[1..], rest, bound);
    StopsThere(operand, rest, bound);
    UnaryStep(op, operand, ts[1..] + rest, rest, m);
    assert ts + rest == [UnaryToken(op)] + (ts[1..] + rest);
  }

  lemma {:induction false} InfixParses(level: nat, op: BinaryOp, lhs: Expression, rhs: Expression, ts: Tokens, i: nat, rest: Tokens, m: nat)
    requires 1 <= level <= 8 && i < |ts| && InfixToken(level, ts[i], op)
    requires Derives(level, lhs, ts[..i]) && Derives(level + 1, rhs, ts[i + 1..])
    requires m <= Floor(level) && Strength(rest) < Ceiling(level) && !Starts(rest, LParen)
    ensures ParseBp(ts + rest, m) == ParseOperators(Binary(op, lhs, rhs), rest, m)
    decreases |ts|, 0, 0
  {
    hide ParseBp, ParseOperators, Derives, InfixToken, Floor, Ceiling, BinaryOpOf, LeftPower, RightPower, Strength;
    InfixPowers(level, ts[i], op);
    LevelsRise(level);
    var right := ts[i + 1..] + rest;
    var tail := [ts[i]] + right;
    InfixStrength(ts[i], op, right);
    DerivesParses(level, lhs, ts[..i], tail, m);
    DerivesParses(level + 1, rhs, ts[i + 1..], rest, RightPower(op));
    StopsThere(rhs, rest, RightPower(op));
    InfixStep(ts[i], op, lhs, rhs, right, rest, m);
    assert ts + rest == ts[..i] + tail;
  }

  lemma InfixStrength(t: Token, op: BinaryOp, tail: Tokens)
    requires BinaryOpOf(t) == Some(op) && t != Dot && t != Is && t != LParen
    ensures Strength([t] + tail) == LeftPower(op) && !Starts([t] + tail, LParen)
  {
  }

  lemma StopsThere(e: Expression, rest: Tokens, m: nat)
    requires Strength(rest) < m <= 11
    ensures ParseOperators(e, rest, m) == Ok(e, rest)
  {
    OperatorsStop(e, rest, m);
  }

  lemma {:induction false} PrimaryParses(e: Expression, ts: Tokens, rest: Tokens, m: nat)
    requires Primary(e, ts) && m <= 11 && !Starts(rest, LParen)
    ensures ParseBp(ts + rest, m) == ParseOperators(e, rest, m)
    decreases |ts|, 0, 1
  {
    hide ParseBp, ParseOperators, Derives, Items, ParseItems, IsAtom;
    var n := |ts| - 1;
    if n == 0 && IsAtom(ts[0], e) {
      OneToken(ts[0], e, rest, m);
      assert ts + rest == [ts[0]] + rest;
    } else if n >= 1 && ts[0] == LParen && ts[n] == RParen && Derives(1, e, ts[1..n]) {
      WholeParses(e, ts[1..n], RParen, rest);
      ParenStep(e, ts[1..n] + ([RParen] + rest), rest, m);
      assert ts + rest == [LParen] + (ts[1..n] + ([RParen] + rest));
    } else {
      match e
      case ListLit(elements) =>
        ItemsParse(elements, ts[1..n], RBracket, rest);
        ListStep(elements, ts[1..n] + ([RBracket] + rest), rest, m);
        assert ts + rest == [LBracket] + (ts[1..n] + ([RBracket] + rest));
      case CountStar =>
        CountStarStep(rest, m);
        assert ts + rest == [Count] + ([LParen] + ([Star] + ([RParen] + rest)));
      case FunctionCall(fn, distinct, args) =>
        CallParses(fn, distinct, args, ts, rest, m);
    }
  }

  lemma {:induction false} CallParses(fn: string, distinct: bool, args: seq<Expression>, ts: Tokens, rest: Tokens, m: nat)
    requires var n, first := |ts| - 1, if distinct then 3 else 2;
             && n >= first && ts[1] == LParen && ts[n] == RParen && (distinct ==> ts[2] == Distinct)
             && (|| (ts[0] == Ident(fn) && Items(args, ts[first..n]))
                 || (ts[0] == Count && fn == "count" && |args| == 1 && Derives(1, args[0], ts[first..n])))
    ensures ParseBp(ts + rest, m) == ParseOperators(FunctionCall(fn, distinct, args), rest, m)
    decreases |ts|, 0, 0
  {
    hide ParseBp, ParseOperators, Derives, Items, ParseItems, PrintDistinct;
    var n, first := |ts| - 1, if distinct then 3 else 2;
    var inner := ts[first..n];
    var body := inner + ([RParen] + rest);
    CallTokens(ts, distinct, rest);
    if ts[0] == Ident(fn) && Items(args, inner) {
      ItemsParse(args, inner, RParen, rest);
      ItemsFirst(args, inner);
      CallStep(fn, distinct, args, body, rest, m);
    } else {
      WholeParses(args[0], inner, RParen, rest);
      DerivesFirst(1, args[0], inner);
      CountStep(distinct, args[0], body, rest, m);
      assert args == [args[0]];
    }
  }

  lemma CallTokens(ts: Tokens, distinct: bool, rest: Tokens)
    requires var n, first := |ts| - 1, if distinct then 3 else 2;
             n >= first && ts[1] == LParen && ts[n] == RParen && (distinct ==> ts[2] == Distinct)
    ensures var n, first := |ts| - 1, if distinct then 3 else 2;
            ts + rest == [ts[0]] + ([LParen] + PrintDistinct(distinct, ts[first..n] + ([RParen] + rest)))
  {
    var n, first := |ts| - 1, if distinct then 3 else 2;
    var body := ts[first..n] + ([RParen] + rest);
    assert ts[first..] + rest == body;
    assert ts[2..] + rest == PrintDistinct(distinct, body);
    assert ts[1..] + rest == [LParen] + (ts[2..] + rest);
    assert ts + rest == [ts[0]] + (ts[1..] + rest);
  }

  /** Inside brackets an expression is read whole. */
  lemma {:induction false} WholeParses(e: Expression, ts: Tokens, close: Token, rest: Tokens)
    requires Derives(1, e, ts) && (close == RParen || close == RBracket || close == Comma)
    ensures ParseExpression(ts + ([close] + rest)) == Ok(e, [close] + rest)
    decreases |ts|, 10
  {
    hide ParseBp, ParseOperators, Derives;
    ClosingStrength(close, rest);
    DerivesParses(1, e, ts, [close] + rest, 0);
    OperatorsStop(e, [close] + rest, 0);
  }

  lemma {:induction false} ItemsParse(es: seq<Expression>, ts: Tokens, close: Token, rest: Tokens)
    requires Items(es, ts) && (close == RParen || close == RBracket)
    ensures ParseItems(ts + ([close] + rest), close) == Ok(es, rest)
    decreases |ts|, 12
  {
    hide Items, ParseItems1;
    var all := ts + ([close] + rest);
    assert ([close] + rest)[1..] == rest;
    if es == [] {
      assert ts == [] by { NoItems(ts); }
      assert all == [close] + rest;
    } else {
      Items1Parse(es, ts, close, rest);
      ItemsFirst(es, ts);
    }
  }

  lemma NoItems(ts: Tokens)
    requires Items([], ts)
    ensures ts == []
  {
  }

  lemma {:induction false} Items1Parse(es: seq<Expression>, ts: Tokens, close: Token, rest: Tokens)
    requires es != [] && Items(es, ts) && (close == RParen || close == RBracket)
    ensures ParseItems1(ts + ([close] + rest)) == Ok(es, [close] + rest)
    decreases |ts|, 11
  {
    hide ParseExpression, Derives, ParseItems1, Items;
    if |es| == 1 {
      OnlyItem(es, ts);
      WholeParses(es[0], ts, close, rest);
      LastItemStep(ts + ([close] + rest), es[0], [close] + rest);
      assert es == [es[0]];
    } else {
      var i := FirstComma(es, ts);
      var tail := ts[i + 1..] + ([close] + rest);
      WholeParses(es[0], ts[..i], Comma, tail);
      Items1Parse(es[1..], ts[i + 1..], close, rest);
      assert ts + ([close] + rest) == ts[..i] + ([Comma] + tail);
      Items1Step(ts[..i] + ([Comma] + tail), es[0], tail, es[1..], [close] + rest);
      assert es == [es[0]] + es[1..];
    }
  }

  lemma OnlyItem(es: seq<Expression>, ts: Tokens)
    requires |es| == 1 && Items(es, ts)
    ensures Derives(1, es[0], ts)
  {
    hide Derives;
  }

  /** Where the comma after the first of several items stands. */
  lemma FirstComma(es: seq<Expression>, ts: Tokens) returns (i: nat)
    requires |es| > 1 && Items(es, ts)
    ensures i < |ts| && ts[i] == Comma && Derives(1, es[0], ts[..i]) && Items(es[1..], ts[i + 1..])
  {
    hide Derives;
    i :| 0 <= i < |ts| && ts[i] == Comma && Derives(1, es[0], ts[..i]) && Items(es[1..], ts[i + 1..]);
  }

  /** No expression starts with a token that ends or changes a list. */
  lemma {:induction false} DerivesFirst(level: nat, e: Expression, ts: Tokens)
    requires 1 <= level <= 9 && Derives(level, e, ts)
    ensures ts != [] && ts[0] !in {RParen, RBracket, Comma, Distinct, Star}
    decreases |ts|, 10 - level
  {
    if level < 9 {
      if Derives(level + 1, e, ts) {
        DerivesFirst(level + 1, e, ts);
      } else {
        match e
        case Binary(op, lhs, rhs) =>
          var i :| 0 <= i < |ts| && InfixToken(level, ts[i], op) && Derives(level, lhs, ts[..i]) && Derives(level + 1, rhs, ts[i + 1..]);
          DerivesFirst(level, lhs, ts[..i]);
        case IsNull(inner, negated) => DerivesFirst(4, inner, ts[..|ts| - if negated then 3 else 2]);
        case Property(base, _) => DerivesFirst(8, base, ts[..|ts| - 2]);
        case _ =>
      }
    }
  }

  lemma ItemsFirst(es: seq<Expression>, ts: Tokens)
    requires Items(es, ts)
    ensures es != [] ==> ts != [] && ts[0] !in {RParen, RBracket, Comma, Distinct, Star}
    ensures es == [] ==> ts == []
  {
    hide Derives;
    if |es| == 1 {
      DerivesFirst(1, es[0], ts);
    } else if es != [] {
      var i :| 0 <= i < |ts| && ts[i] == Comma && Derives(1, es[0], ts[..i]) && Items(es[1..], ts[i + 1..]);
      DerivesFirst(1, es[0], ts[..i]);
    }
  }

  // ---------------------------------------------------------------------------
  // What the parser reads the grammar spells
  // ---------------------------------------------------------------------------

  lemma {:induction false} Weaker(level: nat, higher: nat, e: Expression, ts: Tokens)
    requires 1 <= level <= higher <= 9 && Derives(higher, e, ts)
    ensures Derives(level, e, ts)
    decreases higher - level
  {
    if level < higher {
      Weaker(level, higher - 1, e, ts);
    }
  }

  /** What is left after an expression read at this bound does not go on with it. */
  predicate Left(rest: Tokens, m: nat) {
    Strength(rest) < m || Strength(rest) == INERT
  }

  lemma {:induction false} BpDerives(ts: Tokens, m: nat) returns (used: nat)
    requires IsBound(m) && Regular(ts) && (m > 4 ==> !Starts(ts, Not)) && ParseBp(ts, m).Ok?
    ensures used <= |ts| && ParseBp(ts, m).rest == ts[used..] && Left(ts[used..], m)
    ensures Derives(LevelOf(m), ParseBp(ts, m).value, ts[..used])
    decreases |ts|, 3
  {
    hide ParsePrefix, ParseOperators, Regular, Derives, Left;
    var p := ParsePrefix(ts);
    var n, k := PrefixDerives(ts);
    RegularTail(ts, n);
    var more := OperatorsDerive(p.value, ts[..n], p.rest, m, k);
    used := n + more;
    assert ts[n..][more..] == ts[used..];
    assert ts[..n] + ts[n..][..more] == ts[..used];
  }

  /** The first operand: a NOT, a unary minus, or a primary. */
  lemma {:induction false} PrefixDerives(ts: Tokens) returns (used: nat, level: nat)
    requires Regular(ts) && ParsePrefix(ts).Ok?
    ensures used <= |ts| && ParsePrefix(ts).rest == ts[used..] && |ParsePrefix(ts).rest| < |ts|
    ensures (level == 3 && Starts(ts, Not)) || level == 7 || level == 9
    ensures Derives(level, ParsePrefix(ts).value, ts[..used]) && Strength(ts[used..]) < Ceiling(level)
    decreases |ts|, 2
  {
    hide ParseBp, ParsePrimary, ParseItems, Regular, Strength;
    RegularTailOne(ts);
    if Starts(ts, Not) {
      var n := BpDerives(ts[1..], 4);
      level := 3;
      used := UnaryDerives(NotOp, ts, 3, 4, n);
    } else if Starts(ts, Minus) {
      assert !Starts(ts[1..], Not) by { NoNotAfter(ts); }
      var n := BpDerives(ts[1..], 11);
      level := 7;
      used := UnaryDerives(NegOp, ts, 7, 11, n);
    } else {
      level := 9;
      if Starts(ts, LParen) {
        var n := BpDerives(ts[1..], 0);
        used := ParenDerives(ts, n);
      } else if Starts(ts, LBracket) {
        var n := ItemsDerive(ts[1..], RBracket);
        used := ListDerives(ts, n);
      } else {
        used := PrimaryDerives(ts);
      }
      StrengthBelow(ts[used..]);
    }
  }

  lemma StrengthBelow(ts: Tokens)
    ensures Strength(ts) < 14
  {
  }

  lemma RegularTailOne(ts: Tokens)
    requires Regular(ts)
    ensures ts != [] ==> Regular(ts[1..])
  {
    if ts != [] {
      RegularTail(ts, 1);
    }
  }

  lemma NoNotAfter(ts: Tokens)
    requires Regular(ts) && ts != [] && (IsArithmetic(ts[0]) || IsComparison(ts[0]))
    ensures !Starts(ts[1..], Not)
  {
    if |ts| > 1 {
      assert RegularAt(ts, 1);
    }
  }

  lemma UnaryDerives(op: UnaryOp, ts: Tokens, level: nat, bound: nat, n: nat) returns (used: nat)
    requires ts != [] && n <= |ts[1..]| && ParseBp(ts[1..], bound).Ok? && ParseBp(ts[1..], bound).rest == ts[1..][n..]
    requires (op == NotOp && ts[0] == Not && level == 3 && bound == 4) || (op == NegOp && ts[0] == Minus && level == 7 && bound == 11)
    requires Derives(level, ParseBp(ts[1..], bound).value, ts[1..][..n]) && Left(ts[1..][n..], bound)
    ensures used <= |ts| && ParsePrefix(ts) == Ok(Unary(op, ParseBp(ts[1..], bound).value), ts[used..]) && used > 0
    ensures Derives(level, ParsePrefix(ts).value, ts[..used]) && Strength(ts[used..]) < Ceiling(level)
  {
    hide ParseBp, Strength;
    used := n + 1;
    assert ts[1..][n..] == ts[used..];
    assert ts[..used][1..] == ts[1..][..n];
    assert Operator(level, Unary(op, ParseBp(ts[1..], bound).value), ts[..used]);
  }

  lemma ParenDerives(ts: Tokens, n: nat) returns (used: nat)
    requires Starts(ts, LParen) && ParsePrefix(ts).Ok?
    requires ParseBp(ts[1..], 0).Ok? && n <= |ts[1..]| && ParseBp(ts[1..], 0).rest == ts[1..][n..]
    requires Derives(1, ParseBp(ts[1..], 0).value, ts[1..][..n])
    ensures used <= |ts| && ParsePrefix(ts).rest == ts[used..] && used > 0
    ensures Derives(9, ParsePrefix(ts).value, ts[..used])
  {
    hide ParseBp, ParseUnary, ParseList, ParsePrimary;
    used := n + 2;
    assert ts[1..][n..] == ts[n + 1..];
    assert ts[..used][1..n + 1] == ts[1..][..n];
  }

  lemma ListDerives(ts: Tokens, n: nat) returns (used: nat)
    requires Starts(ts, LBracket) && ParsePrefix(ts).Ok?
    requires ParseItems(ts[1..], RBracket).Ok? && n < |ts[1..]| && ts[1..][n] == RBracket
    requires ParseItems(ts[1..], RBracket).rest == ts[1..][n + 1..]
    requires Items(ParseItems(ts[1..], RBracket).value, ts[1..][..n])
    ensures used <= |ts| && ParsePrefix(ts).rest == ts[used..] && used > 0
    ensures Derives(9, ParsePrefix(ts).value, ts[..used])
  {
    hide ParseItems, ParseUnary, ParsePrimary, Items;
    used := n + 2;
    assert ts[1..][n + 1..] == ts[used..];
    assert ts[..used][1..n + 1] == ts[1..][..n];
  }

  lemma {:induction false} ItemsDerive(ts: Tokens, close: Token) returns (n: nat)
    requires Regular(ts) && (close == RParen || close == RBracket) && ParseItems(ts, close).Ok?
    ensures n < |ts| && ts[n] == close && ParseItems(ts, close).rest == ts[n + 1..]
    ensures Items(ParseItems(ts, close).value, ts[..n])
    decreases |ts|, 6
  {
    hide ParseItems1, Regular, Derives;
    if Starts(ts, close) {
      n := 0;
    } else {
      n := Items1Derive(ts);
      assert ts[n..][1..] == ts[n + 1..];
    }
  }

  lemma {:induction false} Items1Derive(ts: Tokens) returns (n: nat)
    requires Regular(ts) && ParseItems1(ts).Ok?
    ensures n <= |ts| && ParseItems1(ts).rest == ts[n..]
    ensures ParseItems1(ts).value != [] && Items(ParseItems1(ts).value, ts[..n])
    decreases |ts|, 5
  {
    hide ParseBp, Regular, Derives, ParseItems1, Items;
    FirstItem(ts);
    var i := BpDerives(ts, 0);
    var first := ParseBp(ts, 0);
    if !Starts(first.rest, Comma) {
      n := i;
      OneIsItems(first.value, ts[..n]);
    } else {
      RegularTail(ts, i + 1);
      assert first.rest[1..] == ts[i + 1..];
      var k := Items1Derive(ts[i + 1..]);
      n := i + 1 + k;
      assert ts[i + 1..][k..] == ts[n..];
      assert ts[..n][..i] == ts[..i] && ts[..n][i + 1..] == ts[i + 1..][..k] && ts[..n][i] == Comma;
      CommaItems(first.value, ParseItems1(ts[i + 1..]).value, ts[..n], i);
    }
  }

  lemma FirstItem(ts: Tokens)
    requires ParseItems1(ts).Ok?
    ensures ParseBp(ts, 0).Ok?
    ensures var first := ParseBp(ts, 0);
            if !Starts(first.rest, Comma) then ParseItems1(ts) == Ok([first.value], first.rest)
            else
              var others := ParseItems1(first.rest[1..]);
              others.Ok? && ParseItems1(ts) == Ok([first.value] + others.value, others.rest)
  {
    hide ParseBp;
  }

  lemma OneIsItems(e: Expression, ts: Tokens)
    requires Derives(1, e, ts)
    ensures Items([e], ts)
  {
    hide Derives;
  }

  lemma CommaItems(first: Expression, others: seq<Expression>, ts: Tokens, i: nat)
    requires others != [] && i < |ts| && ts[i] == Comma && Derives(1, first, ts[..i]) && Items(others, ts[i + 1..])
    ensures Items([first] + others, ts)
  {
    hide Derives;
    assert ([first] + others)[1..] == others;
  }

  lemma {:induction false} PrimaryDerives(ts: Tokens) returns (used: nat)
    requires Regular(ts) && ParsePrefix(ts).Ok? && ParsePrefix(ts) == ParsePrimary(ts)
    ensures used <= |ts| && ParsePrefix(ts).rest == ts[used..] && used > 0
    ensures Derives(9, ParsePrefix(ts).value, ts[..used])
    decreases |ts|, 1
  {
    hide ParsePrefix, ParseCount, ParseCall, Regular;
    if ts[0] == Count {
      used := CountDerives(ts);
    } else if ts[0].Ident? && Starts(ts[1..], LParen) {
      used := CallDerives(ts);
    } else {
      used := 1;
    }
  }

  lemma {:induction false} CallDerives(ts: Tokens) returns (used: nat)
    requires Regular(ts) && |ts| >= 2 && ts[0].Ident? && ts[1] == LParen && ParseCall(ts[0].name, ts[1..][1..]).Ok?
    ensures used <= |ts| && ParseCall(ts[0].name, ts[1..][1..]).rest == ts[used..] && used > 0
    ensures Derives(9, ParseCall(ts[0].name, ts[1..][1..]).value, ts[..used])
    decreases |ts|, 0
  {
    hide ParseItems, Regular, Items;
    assert ts[1..][1..] == ts[2..];
    var distinct := Starts(ts[2..], Distinct);
    var first := if distinct then 3 else 2;
    assert distinct ==> ts[2..][1..] == ts[3..];
    RegularTail(ts, first);
    var n := ItemsDerive(ts[first..], RParen);
    used := first + n + 1;
    assert ts[first..][n + 1..] == ts[used..];
    Inside(ts, first, n, used);
  }

  lemma {:induction false} CountDerives(ts: Tokens) returns (used: nat)
    requires Regular(ts) && Starts(ts, Count) && ParseCount(ts).Ok?
    ensures used <= |ts| && ParseCount(ts).rest == ts[used..] && used > 0
    ensures Derives(9, ParseCount(ts).value, ts[..used])
    decreases |ts|, 0, 1
  {
    hide ParseBp, Regular, Derives, ParseCountArgument, ParseCount, ParseCountBody;
    CountOpens(ts);
    if Starts(ts[2..], Star) {
      used := 4;
      StarDerives(ts);
    } else if Starts(ts[2..], Distinct) {
      used := CountedDerives(ts, true);
    } else {
      used := CountedDerives(ts, false);
    }
  }

  lemma {:induction false} CountedDerives(ts: Tokens, distinct: bool) returns (used: nat)
    requires var first := if distinct then 3 else 2;
             && Regular(ts) && |ts| >= first && ts[0] == Count && ts[1] == LParen && (distinct ==> ts[2] == Distinct)
             && ParseCountArgument(distinct, ts[first..]).Ok?
    ensures var first := if distinct then 3 else 2;
            && 0 < used <= |ts| && ParseCountArgument(distinct, ts[first..]).rest == ts[used..]
            && Derives(9, ParseCountArgument(distinct, ts[first..]).value, ts[..used])
    decreases |ts|, 0, 0
  {
    hide ParseBp, Regular, Derives, ParseCountArgument;
    var first := if distinct then 3 else 2;
    RegularTail(ts, first);
    CountedArgument(distinct, ts[first..]);
    var n := BpDerives(ts[first..], 0);
    used := first + n + 1;
    Skipped(ts, first, n);
    Skipped(ts, first + n, 1);
    Inside(ts, first, n, used);
    CountIsCall(distinct, ParseBp(ts[first..], 0).value, ts[..used]);
  }

  lemma CountOpens(ts: Tokens)
    requires Starts(ts, Count) && ParseCount(ts).Ok?
    ensures |ts| >= 2 && ts[1] == LParen
    ensures if Starts(ts[2..], Star) then |ts| >= 4 && ts[3] == RParen && ParseCount(ts) == Ok(CountStar, ts[4..])
            else if Starts(ts[2..], Distinct) then ParseCount(ts) == ParseCountArgument(true, ts[3..])
            else ParseCount(ts) == ParseCountArgument(false, ts[2..])
  {
    hide ParseCountArgument;
    assert |ts| >= 2;
    Skipped(ts, 1, 1);
    assert ParseCount(ts) == ParseCountBody(ts[2..]);
    if Starts(ts[2..], Star) {
      Skipped(ts, 2, 1);
      assert |ts| >= 4;
      Skipped(ts, 3, 1);
    } else if Starts(ts[2..], Distinct) {
      Skipped(ts, 2, 1);
    }
  }

  lemma Inside(ts: Tokens, first: nat, n: nat, used: nat)
    requires first + n <= used <= |ts|
    ensures ts[..used][first..first + n] == ts[first..][..n]
  {
  }

  lemma Skipped(ts: Tokens, k: nat, n: nat)
    requires k + n <= |ts|
    ensures ts[k..][n..] == ts[k + n..]
  {
  }

  lemma StarDerives(ts: Tokens)
    requires |ts| >= 4 && ts[0] == Count && ts[1] == LParen && ts[2] == Star && ts[3] == RParen
    ensures Derives(9, CountStar, ts[..4])
  {
  }

  lemma CountIsCall(distinct: bool, arg: Expression, ts: Tokens)
    requires var n, first := |ts| - 1, if distinct then 3 else 2;
             && n >= first && ts[0] == Count && ts[1] == LParen && ts[n] == RParen && (distinct ==> ts[2] == Distinct)
             && Derives(1, arg, ts[first..n])
    ensures Derives(9, FunctionCall(COUNT, distinct, [arg]), ts)
  {
    assert Primary(FunctionCall(COUNT, distinct, [arg]), ts);
  }

  lemma CountedArgument(distinct: bool, ts: Tokens)
    requires ParseCountArgument(distinct, ts).Ok?
    ensures var arg := ParseBp(ts, 0);
            && arg.Ok? && Starts(arg.rest, RParen)
            && ParseCountArgument(distinct, ts) == Ok(FunctionCall(COUNT, distinct, [arg.value]), arg.rest[1..])
  {
    hide ParseBp;
  }

  /** The operator loop, with a left operand of the given level. */
  lemma {:induction false} OperatorsDerive(lhs: Expression, done: Tokens, ts: Tokens, m: nat, level: nat) returns (used: nat)
    requires IsBound(m) && Regular(ts) && LevelOf(m) <= level <= 9
    requires Derives(level, lhs, done) && Strength(ts) < Ceiling(level) && ParseOperators(lhs, ts, m).Ok?
    ensures used <= |ts| && ParseOperators(lhs, ts, m).rest == ts[used..] && Left(ts[used..], m)
    ensures Derives(LevelOf(m), ParseOperators(lhs, ts, m).value, done + ts[..used])
    decreases |ts|, 0
  {
    hide ParseBp, Regular, Derives;
    if Strength(ts) < m || Strength(ts) == INERT {
      used := 0;
      OperatorsStop(lhs, ts, m);
      Weaker(LevelOf(m), level, lhs, done);
      assert done + [] == done;
    } else if ts[0] == Dot {
      used := DotDerives(lhs, done, ts, m, level);
    } else if ts[0] == Is {
      used := IsDerives(lhs, done, ts, m, level);
    } else {
      used := InfixDerives(lhs, done, ts, m, level);
    }
  }

  lemma {:induction false} DotDerives(lhs: Expression, done: Tokens, ts: Tokens, m: nat, level: nat) returns (used: nat)
    requires IsBound(m) && Regular(ts) && LevelOf(m) <= level <= 9 && Starts(ts, Dot)
    requires Derives(level, lhs, done) && Strength(ts) < Ceiling(level) && ParseOperators(lhs, ts, m).Ok?
    ensures used <= |ts| && ParseOperators(lhs, ts, m).rest == ts[used..] && Left(ts[used..], m)
    ensures Derives(LevelOf(m), ParseOperators(lhs, ts, m).value, done + ts[..used])
    decreases |ts|, 0, 0
  {
    hide ParseBp, Regular, Derives, Left;
    assert |ts| >= 2 && ts[1..][1..] == ts[2..];
    var more := Property(lhs, ts[1].name);
    Weaker(8, level, lhs, done);
    PropertyDerives(lhs, done, ts[..2]);
    RegularTail(ts, 2);
    StrengthBelow(ts[2..]);
    var n := OperatorsDerive(more, done + ts[..2], ts[2..], m, 8);
    used := n + 2;
    Further(done, ts, 2, n);
  }

  /** Two steps forward are one. */
  lemma Further(done: Tokens, ts: Tokens, k: nat, n: nat)
    requires k <= |ts| && n <= |ts[k..]|
    ensures ts[k..][n..] == ts[k + n..] && done + ts[..k] + ts[k..][..n] == done + ts[..k + n]
  {
  }

  lemma PropertyDerives(base: Expression, done: Tokens, dot: Tokens)
    requires Derives(8, base, done) && |dot| == 2 && dot[0] == Dot && (dot[1].Ident? || dot[1].BacktickIdent?)
    ensures Derives(8, Property(base, dot[1].name), done + dot)
  {
    assert (done + dot)[..|done|] == done;
    assert Operator(8, Property(base, dot[1].name), done + dot);
  }

  lemma {:induction false} IsDerives(lhs: Expression, done: Tokens, ts: Tokens, m: nat, level: nat) returns (used: nat)
    requires IsBound(m) && Regular(ts) && LevelOf(m) <= level <= 9 && Starts(ts, Is) && m <= IS_POWER
    requires Derives(level, lhs, done) && Strength(ts) < Ceiling(level) && ParseOperators(lhs, ts, m).Ok?
    ensures used <= |ts| && ParseOperators(lhs, ts, m).rest == ts[used..] && Left(ts[used..], m)
    ensures Derives(LevelOf(m), ParseOperators(lhs, ts, m).value, done + ts[..used])
    decreases |ts|, 0, 0
  {
    hide ParseBp, Derives, Left;
    var negated := Starts(ts[1..], Not);
    var k := if negated then 3 else 2;
    assert ts[k - 1..][1..] == ts[k..];
    assert ts[k - 1] == Null;
    Weaker(4, level, lhs, done);
    NullTestDerives(lhs, done, ts[..k], negated);
    RegularTail(ts, k);
    NotTighter(ts, k);
    var n := OperatorsDerive(IsNull(lhs, negated), done + ts[..k], ts[k..], m, 4);
    used := n + k;
    Further(done, ts, k, n);
  }

  lemma NotTighter(ts: Tokens, k: nat)
    requires Regular(ts) && k <= |ts| && AfterNullTest(ts, k)
    ensures Strength(ts[k..]) < 6
  {
    if k < |ts| {
      assert RegularAt(ts, k);
    }
  }

  lemma NullTestDerives(inner: Expression, done: Tokens, test: Tokens, negated: bool)
    requires Derives(4, inner, done) && test == if negated then [Is, Not, Null] else [Is, Null]
    ensures Derives(4, IsNull(inner, negated), done + test)
  {
    assert (done + test)[..|done|] == done && (done + test)[|done|..] == test;
    assert Operator(4, IsNull(inner, negated), done + test);
  }

  lemma InfixLevel(t: Token) returns (level: nat)
    requires BinaryOpOf(t).Some?
    ensures InfixToken(level, t, BinaryOpOf(t).value)
    ensures level >= 4 ==> IsArithmetic(t) || IsComparison(t)
  {
    level := match BinaryOpOf(t).value
      case OrOp => 1
      case AndOp => 2
      case AddOp | SubOp => 5
      case MulOp | DivOp | ModOp => 6
      case _ => 4;
  }

  lemma {:induction false} InfixDerives(lhs: Expression, done: Tokens, ts: Tokens, m: nat, level: nat) returns (used: nat)
    requires IsBound(m) && Regular(ts) && LevelOf(m) <= level <= 9
    requires ts != [] && ts[0] != Dot && ts[0] != Is && BinaryOpOf(ts[0]).Some? && m <= LeftPower(BinaryOpOf(ts[0]).value)
    requires Derives(level, lhs, done) && Strength(ts) < Ceiling(level) && ParseOperators(lhs, ts, m).Ok?
    ensures used <= |ts| && ParseOperators(lhs, ts, m).rest == ts[used..] && Left(ts[used..], m)
    ensures Derives(LevelOf(m), ParseOperators(lhs, ts, m).value, done + ts[..used])
    decreases |ts|, 0, 1
  {
    hide *;
    var op := BinaryOpOf(ts[0]).value;
    InfixRead(lhs, ts, m);
    var own, e, n := RightDerives(lhs, done, ts, m, level);
    RegularTail(ts, n);
    var k := OperatorsDerive(e, done + ts[..n], ts[n..], m, own);
    used := n + k;
    Further(done, ts, n, k);
  }

  /** The operator and its right operand, put behind the left one. */
  lemma {:induction false} RightDerives(lhs: Expression, done: Tokens, ts: Tokens, m: nat, level: nat)
    returns (own: nat, e: Expression, n: nat)
    requires IsBound(m) && Regular(ts) && LevelOf(m) <= level <= 9
    requires ts != [] && ts[0] != Dot && ts[0] != Is && BinaryOpOf(ts[0]).Some? && m <= LeftPower(BinaryOpOf(ts[0]).value)
    requires Derives(level, lhs, done) && LeftPower(BinaryOpOf(ts[0]).value) < Ceiling(level)
    requires ParseBp(ts[1..], RightPower(BinaryOpOf(ts[0]).value)).Ok?
    ensures var op := BinaryOpOf(ts[0]).value;
            var right := ParseBp(ts[1..], RightPower(op));
            && 0 < n <= |ts| && right.rest == ts[n..] && e == Binary(op, lhs, right.value)
    ensures LevelOf(m) <= own <= 9 && Derives(own, e, done + ts[..n]) && Strength(ts[n..]) < Ceiling(own)
    decreases |ts|, 0, 0
  {
    hide ParseBp, Regular, Derives, InfixToken, BinaryOpOf, LeftPower, RightPower, Left, Strength;
    var op := BinaryOpOf(ts[0]).value;
    own := InfixLevel(ts[0]);
    InfixPowers(own, ts[0], op);
    RegularTailOne(ts);
    assert own >= 4 ==> !Starts(ts[1..], Not) by {
      if own >= 4 {
        NoNotAfter(ts);
      }
    }
    var k := BpDerives(ts[1..], RightPower(op));
    n := k + 1;
    var right := ParseBp(ts[1..], RightPower(op));
    e := Binary(op, lhs, right.value);
    OwnLevel(own, op, level, m);
    Weaker(own, level, lhs, done);
    assert ts[..n][1..] == ts[1..][..k];
    BinaryDerives(own, op, lhs, right.value, done, ts[..n]);
    Skipped(ts, 1, k);
    LeftIsBelow(ts[n..], own, op);
  }

  lemma InfixRead(lhs: Expression, ts: Tokens, m: nat)
    requires ts != [] && ts[0] != Dot && ts[0] != Is && BinaryOpOf(ts[0]).Some? && m <= LeftPower(BinaryOpOf(ts[0]).value)
    requires ParseOperators(lhs, ts, m).Ok?
    ensures var op := BinaryOpOf(ts[0]).value;
            var right := ParseBp(ts[1..], RightPower(op));
            && right.Ok? && ParseOperators(lhs, ts, m) == ParseOperators(Binary(op, lhs, right.value), right.rest, m)
            && Strength(ts) == LeftPower(op)
  {
    hide ParseBp;
  }

  /** What is left at the bound of an operator's right operand. */
  lemma LeftIsBelow(rest: Tokens, own: nat, op: BinaryOp)
    requires Left(rest, RightPower(op)) && 1 <= own <= 6 && RightPower(op) == Ceiling(own)
    ensures Strength(rest) < Ceiling(own)
  {
  }

  lemma OwnLevel(own: nat, op: BinaryOp, level: nat, m: nat)
    requires 1 <= own <= 6 && own != 3 && LeftPower(op) == Ceiling(own) - 1 && IsBound(m)
    requires 1 <= level <= 9 && LeftPower(op) < Ceiling(level) && m <= LeftPower(op)
    ensures LevelOf(m) <= own <= level
  {
  }

  lemma BinaryDerives(level: nat, op: BinaryOp, lhs: Expression, rhs: Expression, done: Tokens, more: Tokens)
    requires 1 <= level <= 6 && more != [] && InfixToken(level, more[0], op)
    requires Derives(level, lhs, done) && Derives(level + 1, rhs, more[1..])
    ensures Derives(level, Binary(op, lhs, rhs), done + more)
  {
    hide Derives, InfixToken;
    var ts, i := done + more, |done|;
    assert ts[..i] == done && ts[i + 1..] == more[1..] && ts[i] == more[0];
    assert Operator(level, Binary(op, lhs, rhs), ts);
    OperatorDerives(level, Binary(op, lhs, rhs), ts);
  }

  lemma OperatorDerives(level: nat, e: Expression, ts: Tokens)
    requires 1 <= level <= 8 && Operator(level, e, ts)
    ensures Derives(level, e, ts)
  {
    hide Operator;
  }

  /** Main result. A token stream is spelled by the layered grammar exactly when the parser reads
      it whole, to the same tree, and it is regular. On other streams the parser goes beyond the
      grammar. */
  lemma ParserIsGrammar(ts: Tokens, e: Expression)
    ensures Derives(1, e, ts) <==> ParseExpression(ts) == Ok(e, []) && Regular(ts)
  {
    hide ParseBp, ParseOperators, Derives, Regular;
    if Derives(1, e, ts) {
      DerivesRegular(1, e, ts);
      DerivesParses(1, e, ts, [], 0);
      OperatorsStop(e, [], 0);
      assert ts + [] == ts;
    }
    if ParseExpression(ts) == Ok(e, []) && Regular(ts) {
      var used := BpDerives(ts, 0);
      assert ts[..used] == ts;
    }
  }

  /** So a token stream has at most one tree in the grammar. */
  lemma GrammarIsUnambiguous(ts: Tokens, e: Expression, f: Expression)
    requires Derives(1, e, ts) && Derives(1, f, ts)
    ensures e == f
  {
    hide Derives, ParseExpression;
    ParserIsGrammar(ts, e);
    ParserIsGrammar(ts, f);
  }

  /** Beyond the grammar: `1 + NOT true` and `null IS NULL + 1` are read whole, with NOT as the
      right operand of the sum and the null test as the left one, and no layer spells them. */
  lemma BeyondTheGrammar(e: Expression)
    ensures var late := [Integer(1), Plus, Not, True];
            && ParseExpression(late) == Ok(Binary(AddOp, Lit(IntegerLit(1)), Unary(NotOp, Lit(BoolLit(true)))), [])
            && !Derives(1, e, late)
    ensures var after := [Null, Is, Null, Plus, Integer(1)];
            && ParseExpression(after) == Ok(Binary(AddOp, IsNull(Lit(NullLit), false), Lit(IntegerLit(1))), [])
            && !Derives(1, e, after)
  {
    LateNot(e);
    LateSum(e);
  }

  lemma LateNot(e: Expression)
    ensures var late := [Integer(1), Plus, Not, True];
            && ParseExpression(late) == Ok(Binary(AddOp, Lit(IntegerLit(1)), Unary(NotOp, Lit(BoolLit(true)))), [])
            && !Derives(1, e, late)
  {
    hide Derives, ParseExpression;
    var late := [Integer(1), Plus, Not, True];
    assert !RegularAt(late, 2);
    ParserIsGrammar(late, e);
    var tree := Binary(AddOp, Lit(IntegerLit(1)), Unary(NotOp, Lit(BoolLit(true))));
    assert PrintExpression(tree) == late by {
      assert Print(Unary(NotOp, Lit(BoolLit(true))), 8, INERT, []) == [Not, True];
    }
    RoundTrip(tree, []);
  }

  lemma LateSum(e: Expression)
    ensures var after := [Null, Is, Null, Plus, Integer(1)];
            && ParseExpression(after) == Ok(Binary(AddOp, IsNull(Lit(NullLit), false), Lit(IntegerLit(1))), [])
            && !Derives(1, e, after)
  {
    hide Derives, ParseExpression;
    var after := [Null, Is, Null, Plus, Integer(1)];
    assert AfterNullTest(after, 3) && !RegularAt(after, 3);
    ParserIsGrammar(after, e);
    var tree := Binary(AddOp, IsNull(Lit(NullLit), false), Lit(IntegerLit(1)));
    assert PrintExpression(tree) == after by {
      assert Print(Lit(IntegerLit(1)), 8, INERT, []) == [Integer(1)];
    }
    RoundTrip(tree, []);
  }
}
