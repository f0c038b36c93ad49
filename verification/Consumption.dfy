/** What the expression parser consumes: a nonempty, bracket-balanced run of tokens, and in
    a bound of `BETWEEN TIME` no AND or OR outside brackets. */
module Consumption {
  import opened Wrappers
  import opened Syntax
  import opened Grammar

  predicate IsSuffix(rest: Tokens, ts: Tokens) {
    |rest| <= |ts| && rest == ts[|ts| - |rest|..]
  }

  /** The bracket depth after reading tokens until `stop` are left, from depth `d`. None if
      a bracket closes that was not opened or, when `strict`, if AND or OR occurs at depth
      zero. */
  function Scan(ts: Tokens, stop: nat, d: nat, strict: bool): Option<nat> {
    if |ts| <= stop then Some(d)
    else if ts[0] == LParen || ts[0] == LBracket then Scan(ts[1..], stop, d + 1, strict)
    else if ts[0] == RParen || ts[0] == RBracket then
      if d == 0 then None else Scan(ts[1..], stop, d - 1, strict)
    else if strict && d == 0 && (ts[0] == And || ts[0] == Or) then None
    else Scan(ts[1..], stop, d, strict)
  }

  /** The tokens between `ts` and `rest` are a suffix step and leave the scan unchanged. */
  ghost predicate Skips(ts: Tokens, rest: Tokens, stop: nat, d: nat, strict: bool) {
    IsSuffix(rest, ts) && (stop <= |rest| ==> Scan(ts, stop, d, strict) == Scan(rest, stop, d, strict))
  }

  /** What a bound of at least 4 keeps out at depth zero. */
  ghost predicate Keeps(minBp: nat, d: nat, strict: bool) {
    strict && d == 0 ==> minBp >= 4
  }

  lemma SkipsTrans(a: Tokens, b: Tokens, c: Tokens, stop: nat, d: nat, strict: bool)
    requires Skips(a, b, stop, d, strict) && Skips(b, c, stop, d, strict)
    ensures Skips(a, c, stop, d, strict)
  {
  }

  /** A single token that is neither a bracket nor AND nor OR. */
  lemma SkipOne(ts: Tokens, stop: nat, d: nat, strict: bool)
    requires |ts| > 0 && ts[0] !in {LParen, LBracket, RParen, RBracket}
    requires (ts[0] == And || ts[0] == Or) && strict ==> d > 0
    ensures Skips(ts, ts[1..], stop, d, strict)
  {
  }

  /** A bracketed run, skipped at the depth inside, is skipped as a whole. */
  lemma SkipBrackets(ts: Tokens, inner: Tokens, stop: nat, d: nat, strict: bool)
    requires |ts| > 0 && (ts[0] == LParen || ts[0] == LBracket)
    requires |inner| > 0 && (inner[0] == RParen || inner[0] == RBracket)
    requires Skips(ts[1..], inner, stop, d + 1, strict)
    ensures Skips(ts, inner[1..], stop, d, strict)
  {
    assert inner[1..] == ts[|ts| - |inner| + 1..];
  }

  lemma {:induction false} BpSkips(ts: Tokens, minBp: nat, stop: nat, d: nat, strict: bool)
    requires Keeps(minBp, d, strict)
    ensures var p := ParseBp(ts, minBp); p.Ok? ==> Skips(ts, p.rest, stop, d, strict)
    decreases |ts|, 3
  {
    hide ParseOperators, ParsePrefix, Skips;
    PrefixSkips(ts, stop, d, strict);
    var p := ParsePrefix(ts);
    if p.Ok? {
      OperatorsSkip(p.value, p.rest, minBp, stop, d, strict);
      var q := ParseOperators(p.value, p.rest, minBp);
      if q.Ok? {
        SkipsTrans(ts, p.rest, q.rest, stop, d, strict);
      }
    }
  }

  lemma {:induction false} OperatorsSkip(lhs: Expression, ts: Tokens, minBp: nat, stop: nat, d: nat, strict: bool)
    requires Keeps(minBp, d, strict)
    ensures var p := ParseOperators(lhs, ts, minBp); p.Ok? ==> Skips(ts, p.rest, stop, d, strict)
    decreases |ts|, 0
  {
    hide ParseBp, Skips;
    SkipNothing(ts, stop, d, strict);
    if |ts| == 0 {
    } else if ts[0] == Dot {
      var p := ExpectIdent(ts[1..]);
      if p.Ok? {
        SkipOne(ts, stop, d, strict);
        SkipOne(ts[1..], stop, d, strict);
        SkipsTrans(ts, ts[1..], p.rest, stop, d, strict);
        OperatorsSkipMore(Property(lhs, p.value), ts, p.rest, minBp, stop, d, strict);
      }
    } else if ts[0] == Is {
      var negated := Starts(ts[1..], Not);
      var rest := if negated then ts[2..] else ts[1..];
      if IS_POWER >= minBp && Starts(rest, Null) {
        SkipIs(ts, negated, stop, d, strict);
        OperatorsSkipMore(IsNull(lhs, negated), ts, rest[1..], minBp, stop, d, strict);
      }
    } else if BinaryOpOf(ts[0]).Some? {
      var op := BinaryOpOf(ts[0]).value;
      if LeftPower(op) >= minBp {
        BpSkips(ts[1..], RightPower(op), stop, d, strict);
        var p := ParseBp(ts[1..], RightPower(op));
        if p.Ok? {
          SkipOne(ts, stop, d, strict);
          SkipsTrans(ts, ts[1..], p.rest, stop, d, strict);
          OperatorsSkipMore(Binary(op, lhs, p.value), ts, p.rest, minBp, stop, d, strict);
        }
      }
    }
  }

  lemma SkipNothing(ts: Tokens, stop: nat, d: nat, strict: bool)
    ensures Skips(ts, ts, stop, d, strict)
  {
  }

  lemma SkipIs(ts: Tokens, negated: bool, stop: nat, d: nat, strict: bool)
    requires Starts(ts, Is) && negated == Starts(ts[1..], Not)
    requires Starts(if negated then ts[2..] else ts[1..], Null)
    ensures Skips(ts, (if negated then ts[2..] else ts[1..])[1..], stop, d, strict)
  {
    hide Skips;
    SkipOne(ts, stop, d, strict);
    SkipOne(ts[1..], stop, d, strict);
    if negated {
      assert ts[1..][1..] == ts[2..];
      SkipsTrans(ts, ts[1..], ts[2..], stop, d, strict);
      SkipOne(ts[2..], stop, d, strict);
      SkipsTrans(ts, ts[2..], ts[2..][1..], stop, d, strict);
    } else {
      SkipsTrans(ts, ts[1..], ts[1..][1..], stop, d, strict);
    }
  }

  lemma {:induction false} OperatorsSkipMore(lhs: Expression, ts: Tokens, rest: Tokens, minBp: nat, stop: nat, d: nat, strict: bool)
    requires Keeps(minBp, d, strict)
    requires |rest| < |ts| && Skips(ts, rest, stop, d, strict)
    ensures var p := ParseOperators(lhs, rest, minBp); p.Ok? ==> Skips(ts, p.rest, stop, d, strict)
    decreases |rest|, 1
  {
    hide ParseOperators, Skips;
    OperatorsSkip(lhs, rest, minBp, stop, d, strict);
    var p := ParseOperators(lhs, rest, minBp);
    if p.Ok? {
      SkipsTrans(ts, rest, p.rest, stop, d, strict);
    }
  }

  lemma {:induction false} PrefixSkips(ts: Tokens, stop: nat, d: nat, strict: bool)
    ensures var p := ParsePrefix(ts); p.Ok? ==> Skips(ts, p.rest, stop, d, strict)
    decreases |ts|, 2
  {
    hide ParseBp, ParseItems, ParsePrimary, Skips;
    if Starts(ts, Not) {
      SkipOne(ts, stop, d, strict);
      UnarySkips(NotOp, ts, stop, d, strict);
    } else if Starts(ts, Minus) {
      SkipOne(ts, stop, d, strict);
      UnarySkips(NegOp, ts, stop, d, strict);
    } else if Starts(ts, LParen) {
      BpSkips(ts[1..], 0, stop, d + 1, strict);
      var p := ParseBp(ts[1..], 0);
      if p.Ok? && Starts(p.rest, RParen) {
        SkipBrackets(ts, p.rest, stop, d, strict);
      }
    } else if Starts(ts, LBracket) {
      SkipNothing(ts[1..], stop, d + 1, strict);
      ItemsSkip(ts, ts[1..], RBracket, stop, d, strict);
    } else {
      PrimarySkips(ts, stop, d, strict);
    }
  }

  lemma {:induction false} UnarySkips(op: UnaryOp, ts: Tokens, stop: nat, d: nat, strict: bool)
    requires |ts| > 0 && Skips(ts, ts[1..], stop, d, strict)
    ensures var p := ParseUnary(op, ts); p.Ok? ==> Skips(ts, p.rest, stop, d, strict)
    decreases |ts|, 1
  {
    hide ParseBp, Skips;
    BpSkips(ts[1..], PrefixPower(op), stop, d, strict);
    var p := ParseBp(ts[1..], PrefixPower(op));
    if p.Ok? {
      SkipsTrans(ts, ts[1..], p.rest, stop, d, strict);
    }
  }

  lemma {:induction false} PrimarySkips(ts: Tokens, stop: nat, d: nat, strict: bool)
    ensures var p := ParsePrimary(ts); p.Ok? ==> Skips(ts, p.rest, stop, d, strict)
    decreases |ts|, 1
  {
    hide ParseCount, ParseCall, Skips;
    if Starts(ts, Count) {
      CountSkips(ts, stop, d, strict);
    } else if |ts| > 0 && ts[0].Ident? && Starts(ts[1..], LParen) {
      SkipOne(ts, stop, d, strict);
      CallSkips(ts[0].name, ts[1..], stop, d, strict);
      var p := ParseCall(ts[0].name, ts[1..][1..]);
      if p.Ok? {
        SkipsTrans(ts, ts[1..], p.rest, stop, d, strict);
      }
    } else if |ts| > 0 && ts[0] !in {LParen, LBracket, RParen, RBracket, And, Or} {
      SkipOne(ts, stop, d, strict);
    }
  }

  lemma {:induction false} CountSkips(ts: Tokens, stop: nat, d: nat, strict: bool)
    requires Starts(ts, Count)
    ensures var p := ParseCount(ts); p.Ok? ==> Skips(ts, p.rest, stop, d, strict)
    decreases |ts|, 0
  {
    hide ParseCountBody, Skips;
    var open := ts[1..];
    if Starts(open, LParen) {
      SkipOne(ts, stop, d, strict);
      CountBodySkips(open, stop, d, strict);
      var p := ParseCountBody(open[1..]);
      if p.Ok? {
        SkipsTrans(ts, open, p.rest, stop, d, strict);
      }
    }
  }

  lemma {:induction false} CountBodySkips(open: Tokens, stop: nat, d: nat, strict: bool)
    requires Starts(open, LParen)
    ensures var p := ParseCountBody(open[1..]); p.Ok? ==> Skips(open, p.rest, stop, d, strict)
    decreases |open|, 0
  {
    hide ParseCountArgument, Skips;
    var rest := open[1..];
    SkipNothing(rest, stop, d + 1, strict);
    if Starts(rest, Star) || Starts(rest, Distinct) {
      SkipOne(rest, stop, d + 1, strict);
    }
    if Starts(rest, Star) {
      if Starts(rest[1..], RParen) {
        SkipBrackets(open, rest[1..], stop, d, strict);
      }
    } else {
      CountArgumentSkips(open, Starts(rest, Distinct), if Starts(rest, Distinct) then rest[1..] else rest, stop, d, strict);
    }
  }

  lemma {:induction false} CountArgumentSkips(open: Tokens, distinct: bool, ts: Tokens, stop: nat, d: nat, strict: bool)
    requires Starts(open, LParen) && Skips(open[1..], ts, stop, d + 1, strict)
    ensures var p := ParseCountArgument(distinct, ts); p.Ok? ==> Skips(open, p.rest, stop, d, strict)
    decreases |ts|, 5
  {
    hide ParseExpression, Skips;
    ExpressionSkips(open[1..], ts, stop, d + 1, strict);
    var p := ParseExpression(ts);
    if p.Ok? && Starts(p.rest, RParen) {
      SkipBrackets(open, p.rest, stop, d, strict);
    }
  }

  lemma {:induction false} CallSkips(name: string, open: Tokens, stop: nat, d: nat, strict: bool)
    requires Starts(open, LParen)
    ensures var p := ParseCall(name, open[1..]); p.Ok? ==> Skips(open, p.rest, stop, d, strict)
    decreases |open|, 0
  {
    hide ParseItems, Skips;
    var rest := open[1..];
    SkipNothing(rest, stop, d + 1, strict);
    if Starts(rest, Distinct) {
      SkipOne(rest, stop, d + 1, strict);
    }
    ItemsSkip(open, if Starts(rest, Distinct) then rest[1..] else rest, RParen, stop, d, strict);
  }

  lemma {:induction false} ExpressionSkips(start: Tokens, ts: Tokens, stop: nat, d: nat, strict: bool)
    requires Skips(start, ts, stop, d, strict) && d > 0
    ensures var p := ParseExpression(ts); p.Ok? ==> Skips(start, p.rest, stop, d, strict)
    decreases |ts|, 4
  {
    hide ParseBp, Skips;
    BpSkips(ts, 0, stop, d, strict);
    var p := ParseBp(ts, 0);
    if p.Ok? {
      SkipsTrans(start, ts, p.rest, stop, d, strict);
    }
  }

  /** An element list up to its closing bracket, from the opening bracket at `open` on. */
  lemma {:induction false} ItemsSkip(open: Tokens, ts: Tokens, close: Token, stop: nat, d: nat, strict: bool)
    requires close == RParen || close == RBracket
    requires |open| > 0 && (open[0] == LParen || open[0] == LBracket)
    requires Skips(open[1..], ts, stop, d + 1, strict)
    ensures var p := ParseItems(ts, close); p.Ok? ==> Skips(open, p.rest, stop, d, strict)
    decreases |ts|, 6
  {
    hide ParseItems1, Skips;
    if Starts(ts, close) {
      SkipBrackets(open, ts, stop, d, strict);
    } else {
      Items1Skip(open[1..], ts, stop, d + 1, strict);
      var p := ParseItems1(ts);
      if p.Ok? && Starts(p.rest, close) {
        SkipBrackets(open, p.rest, stop, d, strict);
      }
    }
  }

  lemma {:induction false} Items1Skip(start: Tokens, ts: Tokens, stop: nat, d: nat, strict: bool)
    requires Skips(start, ts, stop, d, strict) && d > 0
    ensures var p := ParseItems1(ts); p.Ok? ==> Skips(start, p.rest, stop, d, strict)
    decreases |ts|, 5
  {
    hide ParseExpression, Skips;
    ExpressionSkips(start, ts, stop, d, strict);
    var p := ParseExpression(ts);
    if p.Ok? && Starts(p.rest, Comma) {
      SkipOne(p.rest, stop, d, strict);
      SkipsTrans(start, p.rest, p.rest[1..], stop, d, strict);
      Items1Skip(start, p.rest[1..], stop, d, strict);
    }
  }

  // ---------------------------------------------------------------------------
  // Main results
  // ---------------------------------------------------------------------------

  /** Progress: a parsed expression takes at least one token off the front and never runs
      past the end. */
  lemma ExpressionProgress(ts: Tokens, minBp: nat) returns (used: nat)
    requires ParseBp(ts, minBp).Ok?
    ensures 0 < used <= |ts| && ParseBp(ts, minBp).rest == ts[used..]
  {
    hide ParseBp, Scan;
    BpSkips(ts, minBp, 0, 0, false);
    used := |ts| - |ParseBp(ts, minBp).rest|;
  }

  /** Brackets opened less brackets closed among the first `k` tokens. */
  function Depth(ts: Tokens, k: nat): int
    requires k <= |ts|
  {
    if k == 0 then 0
    else Depth(ts, k - 1) +
         (if ts[k - 1] == LParen || ts[k - 1] == LBracket then 1
          else if ts[k - 1] == RParen || ts[k - 1] == RBracket then -1 else 0)
  }

  lemma {:induction false} DepthDrop(ts: Tokens, k: nat)
    requires |ts| > 0 && k < |ts|
    ensures Depth(ts, k + 1) == Depth(ts, 1) + Depth(ts[1..], k)
  {
    if k > 0 {
      DepthDrop(ts, k - 1);
      assert ts[1..][k - 1] == ts[k];
    }
  }

  /** A scan that succeeds says: no prefix closes more than is open, and in strict mode
      every AND and OR is inside brackets. */
  lemma {:induction false} ScanMeaning(ts: Tokens, stop: nat, d: nat, strict: bool)
    requires stop <= |ts| && Scan(ts, stop, d, strict).Some?
    ensures forall k | 0 <= k <= |ts| - stop :: d + Depth(ts, k) >= 0
    ensures d + Depth(ts, |ts| - stop) == Scan(ts, stop, d, strict).value
    ensures strict ==> forall k | 0 <= k < |ts| - stop ::
      ts[k] == And || ts[k] == Or ==> d + Depth(ts, k) > 0
  {
    if |ts| > stop {
      var d' := d + Depth(ts, 1);
      ScanMeaning(ts[1..], stop, d', strict);
      forall k | 0 < k <= |ts| - stop
        ensures d + Depth(ts, k) == d' + Depth(ts[1..], k - 1)
      {
        DepthDrop(ts, k - 1);
      }
      if strict {
        forall k | 0 < k < |ts| - stop && (ts[k] == And || ts[k] == Or)
          ensures d + Depth(ts, k) > 0
        {
          assert ts[1..][k - 1] == ts[k];
        }
      }
    }
  }

  /** Brackets in a parsed expression match, at any binding power; with a bound of 4 or more
      no AND or OR of it lies outside them. */
  lemma ExpressionBrackets(ts: Tokens, minBp: nat)
    requires ParseBp(ts, minBp).Ok?
    ensures var used := |ts| - |ParseBp(ts, minBp).rest|;
            && 0 < used <= |ts|
            && Depth(ts, used) == 0
            && (forall k | 0 <= k <= used :: Depth(ts, k) >= 0)
            && (minBp >= 4 ==> forall k | 0 <= k < used :: ts[k] == And || ts[k] == Or ==> Depth(ts, k) > 0)
  {
    hide ParseBp;
    var rest := ParseBp(ts, minBp).rest;
    BpSkips(ts, minBp, |rest|, 0, minBp >= 4);
    ScanMeaning(ts, |rest|, 0, minBp >= 4);
  }

  /** In every accepted `BETWEEN TIME` predicate the separating AND is the first AND outside
      brackets after the keywords, and neither bound has AND or OR outside brackets. */
  lemma BetweenSplitsUniquely(ts: Tokens) returns (sep: nat, used: nat)
    requires Starts(ts, Word(Between)) && ParseTemporal(ts).Ok?
    ensures 2 < sep < used <= |ts| && ts[1] == Word(Time) && ts[sep] == And
    ensures ParseTemporal(ts).rest == ts[used..]
    ensures var start := ParseBp(ts[2..], 4);
            var end := ParseBp(ts[sep + 1..], 4);
            && start.Ok? && start.rest == ts[sep..] && end.Ok? && end.rest == ts[used..]
            && ParseTemporal(ts).value == Some(BetweenTimes(start.value, end.value))
    ensures Depth(ts[2..], sep - 2) == 0
    ensures forall k | 2 <= k < sep :: ts[k] == And || ts[k] == Or ==> Depth(ts[2..], k - 2) > 0
    ensures forall k | sep < k < used :: ts[k] == And || ts[k] == Or ==> Depth(ts[sep + 1..], k - sep - 1) > 0
  {
    hide ParseBp, Depth;
    assert ts[1..][1..] == ts[2..];
    sep := BoundAt(ts, 2);
    assert ts[sep..][1..] == ts[sep + 1..];
    used := BoundAt(ts, sep + 1);
  }

  /** A bound of `BETWEEN TIME` that starts at token `from`, in positions of the whole. */
  lemma BoundAt(ts: Tokens, from: nat) returns (end: nat)
    requires from <= |ts| && ParseBp(ts[from..], 4).Ok?
    ensures from < end <= |ts| && ParseBp(ts[from..], 4).rest == ts[end..]
    ensures Depth(ts[from..], end - from) == 0
    ensures forall k | from <= k < end :: ts[k] == And || ts[k] == Or ==> Depth(ts[from..], k - from) > 0
  {
    hide ParseBp, Depth;
    var body := ts[from..];
    ExpressionBrackets(body, 4);
    var n := ExpressionProgress(body, 4);
    end := from + n;
    assert body[n..] == ts[end..];
    forall k | from <= k < end && (ts[k] == And || ts[k] == Or)
      ensures Depth(body, k - from) > 0
    {
      assert body[k - from] == ts[k];
    }
  }
}
