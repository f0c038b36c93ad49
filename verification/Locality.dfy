/** One token of lookahead: the result of a successful expression parse depends only on the
    tokens it consumed and on the single token after them. */
module Locality {
  import opened Syntax
  import opened Grammar

  /** The end, or a keyword that plays no part in expressions. */
  predicate Closed(ts: Tokens) {
    ts == [] || ts[0].Word?
  }

  /** The same next token, or none that an expression could go on with. */
  predicate SameHead(a: Tokens, b: Tokens) {
    (Closed(a) && Closed(b)) || (a != [] && b != [] && a[0] == b[0])
  }

  /** `tail` may stand in for the last `n` tokens: both start the same way. */
  predicate Fits(ts: Tokens, n: nat, tail: Tokens) {
    n <= |ts| && SameHead(ts[|ts| - n..], tail)
  }

  /** `ts` with its last `n` tokens replaced. */
  function Swap(ts: Tokens, n: nat, tail: Tokens): Tokens
    requires n <= |ts|
  {
    ts[..|ts| - n] + tail
  }

  /** `p` is a result whose counterpart on the swapped input is `q`. */
  ghost predicate Carries<T>(p: Parsed<T>, q: Parsed<T>, n: nat, tail: Tokens) {
    p.Ok? && n <= |p.rest| ==>
    Fits(p.rest, n, tail) && q == Ok(p.value, Swap(p.rest, n, tail))
  }

  lemma SwapHead(ts: Tokens, n: nat, tail: Tokens)
    requires Fits(ts, n, tail)
    ensures SameHead(ts, Swap(ts, n, tail))
    ensures |ts| > n ==> Swap(ts, n, tail) != [] && Swap(ts, n, tail)[0] == ts[0]
    ensures |ts| > n ==> Fits(ts[1..], n, tail) && Swap(ts, n, tail)[1..] == Swap(ts[1..], n, tail)
  {
    if |ts| > n {
      assert ts[1..][|ts| - 1 - n..] == ts[|ts| - n..];
    }
  }

  lemma {:induction false} BpLocal(ts: Tokens, minBp: nat, n: nat, tail: Tokens)
    requires Fits(ts, n, tail)
    ensures Carries(ParseBp(ts, minBp), ParseBp(Swap(ts, n, tail), minBp), n, tail)
    decreases |ts|, 3
  {
    hide ParseOperators, ParsePrefix, Fits, Swap;
    PrefixLocal(ts, n, tail);
    var p := ParsePrefix(ts);
    if p.Ok? && n <= |p.rest| {
      OperatorsLocal(p.value, p.rest, minBp, n, tail);
    }
  }

  lemma {:induction false} OperatorsLocal(lhs: Expression, ts: Tokens, minBp: nat, n: nat, tail: Tokens)
    requires Fits(ts, n, tail)
    ensures Carries(ParseOperators(lhs, ts, minBp), ParseOperators(lhs, Swap(ts, n, tail), minBp), n, tail)
    decreases |ts|, 1
  {
    hide ParseBp, Fits, Swap, ExpectIdent;
    SwapHead(ts, n, tail);
    if |ts| == 0 {
    } else if ts[0] == Dot {
      DotLocal(lhs, ts, minBp, n, tail);
    } else if ts[0] == Is {
      if IS_POWER >= minBp {
        IsLocal(lhs, ts, minBp, n, tail);
      }
    } else if BinaryOpOf(ts[0]).Some? {
      if LeftPower(BinaryOpOf(ts[0]).value) >= minBp {
        InfixLocal(lhs, ts, minBp, n, tail);
      }
    }
  }

  lemma {:induction false} DotLocal(lhs: Expression, ts: Tokens, minBp: nat, n: nat, tail: Tokens)
    requires Fits(ts, n, tail) && Starts(ts, Dot)
    ensures Carries(ParseOperators(lhs, ts, minBp), ParseOperators(lhs, Swap(ts, n, tail), minBp), n, tail)
    decreases |ts|, 0
  {
    hide ParseBp, Fits, Swap;
    SwapHead(ts, n, tail);
    var p := ExpectIdent(ts[1..]);
    if p.Ok? && n <= |p.rest| {
      SwapHead(ts[1..], n, tail);
      OperatorsLocal(Property(lhs, p.value), p.rest, minBp, n, tail);
    }
  }

  lemma {:induction false} InfixLocal(lhs: Expression, ts: Tokens, minBp: nat, n: nat, tail: Tokens)
    requires Fits(ts, n, tail) && |ts| > 0 && BinaryOpOf(ts[0]).Some?
    requires LeftPower(BinaryOpOf(ts[0]).value) >= minBp
    ensures Carries(ParseOperators(lhs, ts, minBp), ParseOperators(lhs, Swap(ts, n, tail), minBp), n, tail)
    decreases |ts|, 0
  {
    hide ParseBp, Fits, Swap, ExpectIdent;
    SwapHead(ts, n, tail);
    var op := BinaryOpOf(ts[0]).value;
    if |ts| > n {
      BpLocal(ts[1..], RightPower(op), n, tail);
      var p := ParseBp(ts[1..], RightPower(op));
      if p.Ok? && n <= |p.rest| {
        OperatorsLocal(Binary(op, lhs, p.value), p.rest, minBp, n, tail);
      }
    }
  }

  lemma {:induction false} IsLocal(lhs: Expression, ts: Tokens, minBp: nat, n: nat, tail: Tokens)
    requires Fits(ts, n, tail) && Starts(ts, Is) && IS_POWER >= minBp
    ensures Carries(ParseOperators(lhs, ts, minBp), ParseOperators(lhs, Swap(ts, n, tail), minBp), n, tail)
    decreases |ts|, 0
  {
    hide ParseBp, Fits, Swap;
    var negated := Starts(ts[1..], Not);
    var rest := if negated then ts[2..] else ts[1..];
    if Starts(rest, Null) && n < |rest| {
      SwapHead(ts, n, tail);
      SwapHead(ts[1..], n, tail);
      assert negated ==> ts[1..][1..] == ts[2..];
      var us := Swap(ts, n, tail);
      assert negated ==> us[1..][1..] == us[2..];
      SwapHead(rest, n, tail);
      OperatorsLocal(IsNull(lhs, negated), rest[1..], minBp, n, tail);
    }
  }

  lemma {:induction false} PrefixLocal(ts: Tokens, n: nat, tail: Tokens)
    requires Fits(ts, n, tail)
    ensures Carries(ParsePrefix(ts), ParsePrefix(Swap(ts, n, tail)), n, tail)
    decreases |ts|, 2
  {
    hide ParseBp, ParseItems, ParsePrimary, Fits, Swap;
    SwapHead(ts, n, tail);
    if |ts| > n {
      if Starts(ts, Not) {
        BpLocal(ts[1..], PrefixPower(NotOp), n, tail);
      } else if Starts(ts, Minus) {
        BpLocal(ts[1..], PrefixPower(NegOp), n, tail);
      } else if Starts(ts, LParen) {
        BpLocal(ts[1..], 0, n, tail);
        CloseLocal(ParseBp(ts[1..], 0), n, tail);
      } else if Starts(ts, LBracket) {
        ItemsLocal(ts[1..], RBracket, n, tail);
      } else {
        PrimaryLocal(ts, n, tail);
      }
    }
  }

  /** The token after a parse is the same token in the swapped input. */
  lemma CloseLocal<T>(p: Parsed<T>, n: nat, tail: Tokens)
    ensures p.Ok? && n <= |p.rest| && Fits(p.rest, n, tail) ==> SameHead(p.rest, Swap(p.rest, n, tail))
    ensures p.Ok? && n < |p.rest| && Fits(p.rest, n, tail) ==>
            Fits(p.rest[1..], n, tail) && Swap(p.rest, n, tail)[1..] == Swap(p.rest[1..], n, tail)
  {
    if p.Ok? && n <= |p.rest| && Fits(p.rest, n, tail) {
      SwapHead(p.rest, n, tail);
    }
  }

  lemma {:induction false} PrimaryLocal(ts: Tokens, n: nat, tail: Tokens)
    requires Fits(ts, n, tail) && |ts| > n
    ensures Carries(ParsePrimary(ts), ParsePrimary(Swap(ts, n, tail)), n, tail)
    decreases |ts|, 1
  {
    hide ParsePrimary, Fits, Swap;
    SwapHead(ts, n, tail);
    if Starts(ts, Count) {
      CountLocal(ts, n, tail);
    } else if ts[0].Ident? && Starts(ts[1..], LParen) {
      CallLocal(ts, n, tail);
    } else {
      AtomLocal(ts, n, tail);
    }
  }

  lemma AtomLocal(ts: Tokens, n: nat, tail: Tokens)
    requires Fits(ts, n, tail) && |ts| > n
    requires ts[0] != Count && (ts[0].Ident? ==> !Starts(ts[1..], LParen))
    ensures Carries(ParsePrimary(ts), ParsePrimary(Swap(ts, n, tail)), n, tail)
  {
    hide ParseCount, ParseCall, AtomOf, Fits, Swap;
    SwapHead(ts, n, tail);
    SwapHead(ts[1..], n, tail);
  }

  lemma {:induction false} CountLocal(ts: Tokens, n: nat, tail: Tokens)
    requires Fits(ts, n, tail) && Starts(ts, Count) && |ts| > n
    ensures Carries(ParsePrimary(ts), ParsePrimary(Swap(ts, n, tail)), n, tail)
    decreases |ts|, 0
  {
    hide ParseCountBody, ParseCall, AtomOf, Fits, Swap;
    SwapHead(ts, n, tail);
    if |ts| > n + 1 {
      SwapHead(ts[1..], n, tail);
      CountBodyLocal(ts[1..][1..], n, tail);
    }
  }

  lemma {:induction false} CountBodyLocal(ts: Tokens, n: nat, tail: Tokens)
    requires Fits(ts, n, tail)
    ensures Carries(ParseCountBody(ts), ParseCountBody(Swap(ts, n, tail)), n, tail)
    decreases |ts|, 6
  {
    hide ParseCountArgument, Fits, Swap;
    SwapHead(ts, n, tail);
    if Starts(ts, Star) || Starts(ts, Distinct) {
      if |ts| > n {
        SwapHead(ts[1..], n, tail);
        if Starts(ts, Distinct) {
          CountArgumentLocal(true, ts[1..], n, tail);
        }
      }
    } else {
      CountArgumentLocal(false, ts, n, tail);
    }
  }

  lemma {:induction false} CountArgumentLocal(distinct: bool, ts: Tokens, n: nat, tail: Tokens)
    requires Fits(ts, n, tail)
    ensures Carries(ParseCountArgument(distinct, ts), ParseCountArgument(distinct, Swap(ts, n, tail)), n, tail)
    decreases |ts|, 5
  {
    hide ParseExpression, Fits, Swap;
    ExpressionLocal(ts, n, tail);
    CloseLocal(ParseExpression(ts), n, tail);
  }

  lemma {:induction false} CallLocal(ts: Tokens, n: nat, tail: Tokens)
    requires Fits(ts, n, tail) && |ts| > n && ts[0].Ident? && Starts(ts[1..], LParen)
    ensures Carries(ParsePrimary(ts), ParsePrimary(Swap(ts, n, tail)), n, tail)
    decreases |ts|, 0
  {
    hide ParsePrimary, ParseCall, Fits, Swap;
    var us := Swap(ts, n, tail);
    SwapHead(ts, n, tail);
    SwapHead(ts[1..], n, tail);
    PrimaryIsCall(ts);
    PrimaryIsCall(us);
    if |ts| > n + 1 {
      CallBodyLocal(ts[0].name, ts[1..][1..], n, tail);
    }
  }

  lemma PrimaryIsCall(ts: Tokens)
    requires |ts| > 0 && ts[0].Ident? && Starts(ts[1..], LParen)
    ensures ParsePrimary(ts) == ParseCall(ts[0].name, ts[1..][1..])
  {
    hide ParseCall, ParseCount;
  }

  lemma {:induction false} CallBodyLocal(name: string, ts: Tokens, n: nat, tail: Tokens)
    requires Fits(ts, n, tail)
    ensures Carries(ParseCall(name, ts), ParseCall(name, Swap(ts, n, tail)), n, tail)
    decreases |ts|, 7
  {
    hide ParseItems, Fits, Swap;
    SwapHead(ts, n, tail);
    if !Starts(ts, Distinct) {
      ItemsLocal(ts, RParen, n, tail);
    } else if |ts| > n {
      ItemsLocal(ts[1..], RParen, n, tail);
    }
  }

  lemma {:induction false} ExpressionLocal(ts: Tokens, n: nat, tail: Tokens)
    requires Fits(ts, n, tail)
    ensures Carries(ParseExpression(ts), ParseExpression(Swap(ts, n, tail)), n, tail)
    decreases |ts|, 4
  {
    hide ParseBp, Fits, Swap;
    BpLocal(ts, 0, n, tail);
  }

  lemma {:induction false} ItemsLocal(ts: Tokens, close: Token, n: nat, tail: Tokens)
    requires Fits(ts, n, tail) && !close.Word?
    ensures Carries(ParseItems(ts, close), ParseItems(Swap(ts, n, tail), close), n, tail)
    decreases |ts|, 6
  {
    hide ParseItems1, Fits, Swap;
    SwapHead(ts, n, tail);
    Items1Local(ts, n, tail);
    CloseLocal(ParseItems1(ts), n, tail);
  }

  lemma {:induction false} Items1Local(ts: Tokens, n: nat, tail: Tokens)
    requires Fits(ts, n, tail)
    ensures Carries(ParseItems1(ts), ParseItems1(Swap(ts, n, tail)), n, tail)
    decreases |ts|, 5
  {
    hide ParseExpression, Fits, Swap;
    ExpressionLocal(ts, n, tail);
    var p := ParseExpression(ts);
    CloseLocal(p, n, tail);
    if p.Ok? && Starts(p.rest, Comma) && n < |p.rest| {
      Items1Local(p.rest[1..], n, tail);
    }
  }

  /** Main result: replace everything after a parsed expression by any tokens that start with
      the same token, or, where an end or a keyword follows, by any other end or keyword, and
      the parse gives the same tree and stops at the same place. */
  lemma OneTokenLookahead(used: Tokens, rest: Tokens, other: Tokens, minBp: nat, e: Expression)
    requires ParseBp(used + rest, minBp) == Ok(e, rest)
    requires SameHead(rest, other)
    ensures used != []
    ensures ParseBp(used + other, minBp) == Ok(e, other)
  {
    hide ParseBp;
    var ts := used + rest;
    assert ts[|ts| - |rest|..] == rest;
    BpLocal(ts, minBp, |rest|, other);
    assert Swap(ts, |rest|, other) == used + other;
    assert Swap(rest, |rest|, other) == other;
  }
}
