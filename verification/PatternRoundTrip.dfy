/** Reading a printed pattern gives the pattern back. */
module PatternRoundTrip {
  import opened Wrappers
  import opened Syntax
  import opened Grammar
  import opened Printer
  import opened Patterns
  import opened ClausePrinter

  // ---------------------------------------------------------------------------
  // Text at a position
  // ---------------------------------------------------------------------------

  /** The text stands at position `n`. */
  predicate Stands(ts: Tokens, n: nat, text: Tokens) {
    n + |text| <= |ts| && ts[n..n + |text|] == text
  }

  /** One text after the other. */
  lemma AtBoth(ts: Tokens, n: nat, a: Tokens, b: Tokens)
    requires Stands(ts, n, a + b)
    ensures Stands(ts, n, a) && Stands(ts, n + |a|, b) && n + |a| + |b| <= |ts|
  {
    assert ts[n..n + |a + b|][..|a|] == a;
    assert ts[n..n + |a + b|][|a|..] == b;
  }

  lemma AtToken(ts: Tokens, n: nat, t: Token, rest: Tokens)
    requires Stands(ts, n, [t] + rest)
    ensures n < |ts| && ts[n] == t && Stands(ts, n + 1, rest) && n + 1 + |rest| <= |ts|
  {
    AtBoth(ts, n, [t], rest);
    assert ts[n..n + 1][0] == t;
  }

  lemma AtTokens(ts: Tokens, n: nat, text: Tokens)
    requires Stands(ts, n, text)
    ensures n + |text| <= |ts| && forall i | 0 <= i < |text| :: ts[n + i] == text[i]
  {
    forall i | 0 <= i < |text|
      ensures ts[n + i] == text[i]
    {
      assert ts[n..n + |text|][i] == text[i];
    }
  }

  lemma AtTwo(ts: Tokens, n: nat, t: Token, u: Token, rest: Tokens)
    requires Stands(ts, n, [t, u] + rest)
    ensures n + 2 + |rest| <= |ts| && ts[n] == t && ts[n + 1] == u && Stands(ts, n + 2, rest)
  {
    AtBoth(ts, n, [t, u], rest);
    assert ts[n..n + 2][0] == t && ts[n..n + 2][1] == u;
  }

  lemma AtBound(ts: Tokens, n: nat, text: Tokens)
    requires Stands(ts, n, text)
    ensures n + |text| <= |ts|
  {
  }

  lemma AtOne(ts: Tokens, n: nat, t: Token)
    requires Stands(ts, n, [t])
    ensures n < |ts| && ts[n] == t
  {
    assert ts[n..n + 1][0] == t;
  }

  /** The first of several texts with commas between them. */
  lemma CommasRead<T>(ts: Tokens, n: nat, items: seq<T>, text: T -> Tokens)
    requires items != [] && Stands(ts, n, Commas(items, text))
    ensures Stands(ts, n, text(items[0])) && n + |Commas(items, text)| <= |ts|
    ensures |items| == 1 ==> |Commas(items, text)| == |text(items[0])|
    ensures |items| > 1 ==>
              var k := n + |text(items[0])|;
              && TokenAt(ts, k, Comma) && Stands(ts, k + 1, Commas(items[1..], text))
              && n + |Commas(items, text)| == k + 1 + |Commas(items[1..], text)|
  {
    hide Stands;
    AtBound(ts, n, Commas(items, text));
    if |items| > 1 {
      TwoTexts(ts, n, text(items[0]), Commas(items[1..], text));
    }
  }

  lemma TwoTexts(ts: Tokens, n: nat, first: Tokens, rest: Tokens)
    requires Stands(ts, n, first + ([Comma] + rest))
    ensures Stands(ts, n, first) && TokenAt(ts, n + |first|, Comma) && Stands(ts, n + |first| + 1, rest)
  {
    hide Stands;
    AtBoth(ts, n, first, [Comma] + rest);
    AtToken(ts, n + |first|, Comma, rest);
  }

  // ---------------------------------------------------------------------------
  // Expressions
  // ---------------------------------------------------------------------------

  lemma Associate(a: Tokens, b: Tokens, c: Tokens)
    ensures a + (b + c) == a + b + c
  {
  }

  /** What is printed after an expression just follows it. */
  lemma {:induction false} PrintRest(e: Expression, m: nat, n: int, rest: Tokens)
    ensures Print(e, m, n, rest) == Print(e, m, n, []) + rest
    decreases e, 1
  {
    hide PrintBare;
    if Bare(e, m, n) {
      PrintBareRest(e, m, n, rest);
    } else {
      PrintBareRest(e, 0, INERT, [RParen] + rest);
      PrintBareRest(e, 0, INERT, [RParen] + []);
      assert [RParen] + rest == [RParen] + [] + rest;
    }
  }

  lemma {:induction false} PrintBareRest(e: Expression, m: nat, n: int, rest: Tokens)
    ensures PrintBare(e, m, n, rest) == PrintBare(e, m, n, []) + rest
    decreases e, 0, 1
  {
    hide Print, PrintItems, PrintIs, PrintDistinct;
    match e
    case Property(base, prop) =>
      PropertyRest(base, prop, m, rest);
    case Binary(op, lhs, rhs) =>
      BinaryRest(op, lhs, rhs, m, n, rest);
    case Unary(op, operand) =>
      PrintRest(operand, PrefixPower(op), n, rest);
    case IsNull(inner, negated) =>
      PrintRest(inner, m, IS_POWER, PrintIs(negated, rest));
      PrintRest(inner, m, IS_POWER, PrintIs(negated, []));
      IsRest(negated, rest);
    case FunctionCall(fn, distinct, args) =>
      ItemsRest(args, RParen, rest);
      CallRest(distinct, PrintItems(args, RParen, []), rest);
    case ListLit(elements) =>
      ItemsRest(elements, RBracket, rest);
    case _ =>
  }

  lemma {:induction false} PropertyRest(base: Expression, prop: string, m: nat, rest: Tokens)
    ensures var dot := (r: Tokens) => [Dot] + ([BacktickIdent(prop)] + r);
            Print(base, m, DOT_STRENGTH, dot(rest)) == Print(base, m, DOT_STRENGTH, dot([])) + rest
    decreases base, 2
  {
    hide Print;
    var t := [BacktickIdent(prop)];
    PrintRest(base, m, DOT_STRENGTH, [Dot] + (t + rest));
    PrintRest(base, m, DOT_STRENGTH, [Dot] + (t + []));
    assert [Dot] + (t + rest) == [Dot] + (t + []) + rest;
  }

  lemma {:induction false} BinaryRest(op: BinaryOp, lhs: Expression, rhs: Expression, m: nat, n: int, rest: Tokens)
    ensures Print(lhs, m, LeftPower(op), [OpToken(op)] + Print(rhs, RightPower(op), n, rest))
         == Print(lhs, m, LeftPower(op), [OpToken(op)] + Print(rhs, RightPower(op), n, [])) + rest
    decreases Binary(op, lhs, rhs), 0, 0
  {
    hide Print, OpToken, LeftPower, RightPower;
    var right := Print(rhs, RightPower(op), n, []);
    var more := [OpToken(op)] + right;
    PrintRest(rhs, RightPower(op), n, rest);
    Associate([OpToken(op)], right, rest);
    PrintRest(lhs, m, LeftPower(op), more + rest);
    PrintRest(lhs, m, LeftPower(op), more);
    Associate(Print(lhs, m, LeftPower(op), []), more, rest);
  }

  lemma IsRest(negated: bool, rest: Tokens)
    ensures PrintIs(negated, rest) == PrintIs(negated, []) + rest
  {
  }

  lemma CallRest(distinct: bool, body: Tokens, rest: Tokens)
    ensures PrintDistinct(distinct, body + rest) == PrintDistinct(distinct, body) + rest
  {
  }

  lemma {:induction false} ItemsRest(items: seq<Expression>, close: Token, rest: Tokens)
    ensures PrintItems(items, close, rest) == PrintItems(items, close, []) + rest
    decreases items, 2
  {
    hide Print, PrintMore;
    if items != [] {
      MoreRest(items[1..], close, rest);
      var more := PrintMore(items[1..], close, []);
      PrintRest(items[0], 0, INERT, more + rest);
      PrintRest(items[0], 0, INERT, more);
    }
  }

  lemma {:induction false} MoreRest(items: seq<Expression>, close: Token, rest: Tokens)
    ensures PrintMore(items, close, rest) == PrintMore(items, close, []) + rest
    decreases items, 2
  {
    hide Print;
    if items != [] {
      MoreRest(items[1..], close, rest);
      var more := PrintMore(items[1..], close, []);
      PrintRest(items[0], 0, INERT, more + rest);
      PrintRest(items[0], 0, INERT, more);
    }
  }

  /** The token at `n`, if there is one, does not go on with an expression. */
  predicate Stops(ts: Tokens, n: nat) {
    n == |ts| || (n < |ts| && Strength(ts[n..]) == INERT && ts[n] != LParen)
  }

  lemma BpRead(ts: Tokens, n: nat, e: Expression, m: nat, next: int)
    requires Producible(e) && m <= 11 && Stands(ts, n, Print(e, m, next, []))
    requires var k := n + |Print(e, m, next, [])|;
             Strength(ts[k..]) == next && !Starts(ts[k..], LParen) && (next < m || next == INERT)
    ensures ParseBp(ts[n..], m) == Ok(e, ts[n + |Print(e, m, next, [])|..])
  {
    hide Print, ParseBp, ParseOperators;
    var k := n + |Print(e, m, next, [])|;
    PrintRest(e, m, next, ts[k..]);
    assert ts[n..] == ts[n..k] + ts[k..];
    ParsePrint(e, m, next, ts[k..]);
    OperatorsStop(e, ts[k..], m);
  }

  lemma ExprRead(ts: Tokens, n: nat, e: Expression)
    requires Producible(e) && Stands(ts, n, ExprText(e)) && Stops(ts, n + |ExprText(e)|)
    ensures ExprAt(ts, n) == Done(e, n + |ExprText(e)|)
  {
    hide Print, ParseBp;
    BpRead(ts, n, e, 0, INERT);
  }

  lemma ExprNonempty(e: Expression)
    ensures ExprText(e) != []
  {
    hide Print;
    PrintStart(e, 0, INERT, []);
  }

  // ---------------------------------------------------------------------------
  // Map literals and nodes
  // ---------------------------------------------------------------------------

  lemma MarkStops(ts: Tokens, n: nat)
    requires n < |ts| && (ts[n].Punct? || ts[n].Word? || ts[n] == Comma || ts[n] == RParen)
    ensures Stops(ts, n)
  {
  }

  lemma EntryRead(ts: Tokens, n: nat, st: Style, entry: (string, Expression))
    requires Producible(entry.1) && Stands(ts, n, EntryText(st)(entry)) && Stops(ts, n + |EntryText(st)(entry)|)
    ensures EntryAt(ts, n) == Done(entry, n + |EntryText(st)(entry)|)
  {
    hide ExprText, ExprAt, Stops, Stands;
    AtTwo(ts, n, Name(st, entry.0), Punct(Colon), ExprText(entry.1));
    ExprRead(ts, n + 2, entry.1);
  }

  lemma {:induction false} EntriesRead(ts: Tokens, n: nat, st: Style, entries: MapLiteral, before: MapLiteral)
    requires entries != [] && forall i | 0 <= i < |entries| :: Producible(entries[i].1)
    requires Stands(ts, n, Commas(entries, EntryText(st))) && TokenAt(ts, n + |Commas(entries, EntryText(st))|, Punct(RBrace))
    ensures EntriesAt(ts, n, before) == Done(before + entries, n + |Commas(entries, EntryText(st))|)
    decreases |entries|
  {
    hide EntryAt, EntryText, Producible, Stands, Commas, Stops;
    var first, rest := entries[0], entries[1..];
    var k := n + |EntryText(st)(first)|;
    CommasRead(ts, n, entries, EntryText(st));
    MarkStops(ts, k);
    EntryRead(ts, n, st, first);
    if |entries| == 1 {
      assert before + [first] == before + entries;
    } else {
      EntriesRead(ts, k + 1, st, rest, before + [first]);
      assert before + [first] + rest == before + entries;
    }
  }

  lemma MapRead(ts: Tokens, n: nat, st: Style, m: Option<MapLiteral>)
    requires GoodMap(m) && Stands(ts, n, MapText(st, m)) && (m.None? ==> !TokenAt(ts, n, Punct(LBrace)))
    ensures MapAt(ts, n) == Done(m, n + |MapText(st, m)|)
  {
    hide EntryText, EntriesAt, Producible, Stands;
    if m.Some? {
      var entries := Commas(m.value, EntryText(st));
      AtToken(ts, n, Punct(LBrace), entries + [Punct(RBrace)]);
      AtBoth(ts, n + 1, entries, [Punct(RBrace)]);
      AtOne(ts, n + 1 + |entries|, Punct(RBrace));
      if m.value != [] {
        EntriesFirst(ts, n + 1, st, m.value);
        EntriesRead(ts, n + 1, st, m.value, []);
        assert [] + m.value == m.value;
      }
    }
  }

  lemma EntriesFirst(ts: Tokens, n: nat, st: Style, entries: MapLiteral)
    requires entries != [] && Stands(ts, n, Commas(entries, EntryText(st)))
    ensures !TokenAt(ts, n, Punct(RBrace))
  {
    hide ExprText, Stands;
    var text := EntryText(st)(entries[0]);
    if |entries| > 1 {
      AtBoth(ts, n, text, [Comma] + Commas(entries[1..], EntryText(st)));
    }
    AtTokens(ts, n, text);
    assert text[0] == Name(st, entries[0].0);
  }

  lemma {:induction false} LabelsRead(ts: Tokens, n: nat, st: Style, labels: seq<string>, before: seq<string>)
    requires Stands(ts, n, LabelsText(st, labels)) && !TokenAt(ts, n + |LabelsText(st, labels)|, Punct(Colon))
    ensures LabelsAt(ts, n, before) == Done(before + labels, n + |LabelsText(st, labels)|)
    decreases |labels|
  {
    hide Stands;
    AtBound(ts, n, LabelsText(st, labels));
    if labels == [] {
      assert before + labels == before;
    } else {
      AtTwo(ts, n, Punct(Colon), Name(st, labels[0]), LabelsText(st, labels[1..]));
      LabelsRead(ts, n + 2, st, labels[1..], before + [labels[0]]);
      assert before + [labels[0]] + labels[1..] == before + labels;
    }
  }

  lemma HeadRead(ts: Tokens, n: nat, st: Style, variable: Option<string>, labels: seq<string>)
    requires Stands(ts, n, HeadText(st, variable, labels))
    requires var k := n + |HeadText(st, variable, labels)|; !IsIdent(ts, k) && !TokenAt(ts, k, Punct(Colon))
    ensures NodeHeadAt(ts, n) == Done((variable, labels), n + |HeadText(st, variable, labels)|)
  {
    hide LabelsAt, LabelsText, Stands;
    var name := NameText(st, variable);
    AtToken(ts, n, LParen, name + LabelsText(st, labels));
    AtBoth(ts, n + 1, name, LabelsText(st, labels));
    AtTokens(ts, n + 1, name);
    LabelsFirst(ts, n + 1 + |name|, st, labels);
    LabelsRead(ts, n + 1 + |name|, st, labels, []);
    assert [] + labels == labels;
  }

  lemma LabelsFirst(ts: Tokens, n: nat, st: Style, labels: seq<string>)
    requires Stands(ts, n, LabelsText(st, labels))
    ensures labels != [] ==> TokenAt(ts, n, Punct(Colon))
    ensures labels == [] ==> LabelsText(st, labels) == []
  {
    AtTokens(ts, n, LabelsText(st, labels));
  }

  lemma MapFirst(ts: Tokens, n: nat, st: Style, m: Option<MapLiteral>)
    requires Stands(ts, n, MapText(st, m))
    ensures m.Some? ==> TokenAt(ts, n, Punct(LBrace))
    ensures m.None? ==> MapText(st, m) == []
  {
    AtTokens(ts, n, MapText(st, m));
  }

  lemma NodeRead(ts: Tokens, n: nat, st: Style, node: NodePattern)
    requires GoodMap(node.properties) && Stands(ts, n, NodeText(st, node))
    ensures NodePatternAt(ts, n) == Done(node, n + |NodeText(st, node)|)
  {
    hide NodeHeadAt, MapAt, HeadText, MapText, GoodMap, Stands;
    var head, map_ := HeadText(st, node.variable, node.labels), MapText(st, node.properties);
    AtBoth(ts, n, head, map_ + [RParen]);
    AtBoth(ts, n + |head|, map_, [RParen]);
    AtOne(ts, n + |head| + |map_|, RParen);
    MapFirst(ts, n + |head|, st, node.properties);
    HeadRead(ts, n, st, node.variable, node.labels);
    MapRead(ts, n + |head|, st, node.properties);
  }

  // ---------------------------------------------------------------------------
  // Relationships
  // ---------------------------------------------------------------------------

  /** The tokens of a hop count, one after the other. */
  lemma HopsTokens(ts: Tokens, n: nat, st: Style, h: Hops)
    requires Stands(ts, n, HopsText(st, h))
    ensures var text := HopsText(st, h);
            && |text| <= 4 && n + |text| <= |ts|
            && (|text| > 0 ==> ts[n] == text[0]) && (|text| > 1 ==> ts[n + 1] == text[1])
            && (|text| > 2 ==> ts[n + 2] == text[2]) && (|text| > 3 ==> ts[n + 3] == text[3])
  {
    hide Stands;
    AtTokens(ts, n, HopsText(st, h));
  }

  lemma BoundRead(ts: Tokens, n: nat, k: nat)
    requires n < |ts| && ts[n] == Integer(k) && k < 0x1_0000_0000
    ensures HopBoundAt(ts, n) == Done(Some(k), n + 1)
  {
  }

  lemma HopsRead(ts: Tokens, n: nat, st: Style, h: Hops)
    requires GoodHops(h) && Stands(ts, n, HopsText(st, h)) && (h == SINGLE ==> !TokenAt(ts, n, Star))
    requires var k := n + |HopsText(st, h)|; !TokenAt(ts, k, Punct(DoubleDot)) && !IntegerAt(ts, k)
    ensures StarAt(ts, n) == Done(h, n + |HopsText(st, h)|)
  {
    hide Stands, HopBoundAt;
    HopsTokens(ts, n, st, h);
    if h != SINGLE {
      var least := h.least.value;
      if h.greatest.None? {
        NoBound(ts, n + |HopsText(st, h)|);
        if least == 1 && st.hops == Short {
        } else if least == 1 && st.hops == Dotted {
        } else {
          BoundRead(ts, n + 1, least);
        }
      } else {
        var most := h.greatest.value;
        if least == most && st.hops == Short {
          BoundRead(ts, n + 1, least);
        } else if least == 1 && st.hops == Dotted {
          BoundRead(ts, n + 2, most);
        } else {
          BoundRead(ts, n + 1, least);
          BoundRead(ts, n + 3, most);
        }
      }
    }
  }

  lemma NoBound(ts: Tokens, n: nat)
    requires n <= |ts| && !IntegerAt(ts, n)
    ensures HopBoundAt(ts, n) == Done(None, n)
  {
  }

  lemma {:induction false} MoreTypesRead(ts: Tokens, n: nat, st: Style, types: seq<string>, before: seq<string>)
    requires Stands(ts, n, MoreTypesText(st, types)) && !TokenAt(ts, n + |MoreTypesText(st, types)|, Punct(Pipe))
    ensures MoreTypesAt(ts, n, before) == Done(before + types, n + |MoreTypesText(st, types)|)
    decreases |types|
  {
    hide Stands;
    AtBound(ts, n, MoreTypesText(st, types));
    if types == [] {
      assert before + types == before;
    } else {
      AtTwo(ts, n, Punct(Pipe), Name(st, types[0]), MoreTypesText(st, types[1..]));
      MoreTypesRead(ts, n + 2, st, types[1..], before + [types[0]]);
      assert before + [types[0]] + types[1..] == before + types;
    }
  }

  lemma TypesRead(ts: Tokens, n: nat, st: Style, types: seq<string>)
    requires Stands(ts, n, TypesText(st, types)) && !TokenAt(ts, n + |TypesText(st, types)|, Punct(Pipe))
    requires types == [] ==> !TokenAt(ts, n, Punct(Colon))
    ensures TypesAt(ts, n) == Done(types, n + |TypesText(st, types)|)
  {
    hide MoreTypesAt, MoreTypesText, Stands;
    if types != [] {
      AtTwo(ts, n, Punct(Colon), Name(st, types[0]), MoreTypesText(st, types[1..]));
      MoreTypesRead(ts, n + 2, st, types[1..], [types[0]]);
      assert [types[0]] + types[1..] == types;
    }
  }

  /** The first token of each optional part of a relationship. */
  lemma ContentFirsts(ts: Tokens, n: nat, st: Style, c: Content)
    requires GoodHops(c.hops) && Stands(ts, n, TypesText(st, c.types) + (HopsText(st, c.hops) + MapText(st, c.properties)))
    requires TokenAt(ts, n + |TypesText(st, c.types) + (HopsText(st, c.hops) + MapText(st, c.properties))|, RBracket)
    ensures var a := n + |TypesText(st, c.types)|;
            var b := a + |HopsText(st, c.hops)|;
            && Stands(ts, n, TypesText(st, c.types)) && Stands(ts, a, HopsText(st, c.hops)) && Stands(ts, b, MapText(st, c.properties))
            && (b < |ts| && (ts[b] == RBracket || ts[b] == Punct(LBrace)) && (ts[b] == Punct(LBrace) <==> c.properties.Some?))
            && (a < |ts| && (ts[a] == Star || ts[a] == ts[b]) && (ts[a] == Star <==> c.hops != SINGLE))
            && (n < |ts| && (ts[n] == Punct(Colon) || ts[n] == ts[a]) && (ts[n] == Punct(Colon) <==> c.types != []))
  {
    hide MoreTypesText, Commas, EntryText, Stands;
    var types, hops, map_ := TypesText(st, c.types), HopsText(st, c.hops), MapText(st, c.properties);
    AtBoth(ts, n, types, hops + map_);
    AtBoth(ts, n + |types|, hops, map_);
    AtTokens(ts, n, types);
    AtTokens(ts, n + |types|, hops);
    AtTokens(ts, n + |types| + |hops|, map_);
  }

  lemma NameRead(ts: Tokens, n: nat, st: Style, name: Option<string>, rest: Tokens)
    requires Stands(ts, n, NameText(st, name) + rest)
    ensures Stands(ts, n + |NameText(st, name)|, rest)
    ensures name.Some? ==> IsIdent(ts, n) && ts[n].name == name.value
  {
    AtBoth(ts, n, NameText(st, name), rest);
    AtTokens(ts, n, NameText(st, name));
  }

  lemma ContentRead(ts: Tokens, n: nat, st: Style, c: Content)
    requires GoodHops(c.hops) && GoodMap(c.properties) && Stands(ts, n, ContentText(st, c))
    requires TokenAt(ts, n + |ContentText(st, c)|, RBracket)
    ensures ContentAt(ts, n) == Done(c, n + |ContentText(st, c)|)
  {
    hide TypesText, HopsText, MapText, TypesAt, StarAt, MapAt, GoodMap, GoodHops, Stands;
    var types, hops, map_ := TypesText(st, c.types), HopsText(st, c.hops), MapText(st, c.properties);
    var name := NameText(st, c.variable);
    NameRead(ts, n, st, c.variable, types + (hops + map_));
    var k := n + |name|;
    ContentFirsts(ts, k, st, c);
    assert c.variable.None? ==> !IsIdent(ts, n);
    TypesRead(ts, k, st, c.types);
    HopsRead(ts, k + |types|, st, c.hops);
    MapRead(ts, k + |types| + |hops|, st, c.properties);
  }

  lemma BracketsRead(ts: Tokens, n: nat, st: Style, c: Content)
    requires GoodHops(c.hops) && GoodMap(c.properties) && Stands(ts, n, BracketsText(st, c))
    ensures BracketsAt(ts, n) == Done(c, n + |BracketsText(st, c)|)
  {
    hide ContentText, ContentAt, GoodMap, GoodHops, Stands;
    var text := ContentText(st, c);
    AtToken(ts, n, LBracket, text + [RBracket]);
    AtBoth(ts, n + 1, text, [RBracket]);
    AtOne(ts, n + 1 + |text|, RBracket);
    ContentRead(ts, n + 1, st, c);
  }

  /** Brackets between two marks. */
  lemma MarkedRead(ts: Tokens, n: nat, st: Style, first: Token, c: Content, last: Token)
    requires GoodHops(c.hops) && GoodMap(c.properties) && Stands(ts, n, [first] + (BracketsText(st, c) + [last]))
    ensures var k := n + 1 + |BracketsText(st, c)|;
            k < |ts| && ts[n] == first && ts[k] == last && BracketsAt(ts, n + 1) == Done(c, k)
  {
    hide BracketsText, BracketsAt, GoodMap, GoodHops, Stands;
    var text := BracketsText(st, c);
    AtToken(ts, n, first, text + [last]);
    AtBoth(ts, n + 1, text, [last]);
    AtOne(ts, n + 1 + |text|, last);
    BracketsRead(ts, n + 1, st, c);
  }

  lemma RelationshipRead(ts: Tokens, n: nat, st: Style, e: Element)
    requires e.RelationshipElement? && GoodElement(e) && Stands(ts, n, ElementText(st, e))
    ensures StartsRelationship(ts, n) && n <= |ts| && RelationshipAt(ts, n) == Done(e, n + |ElementText(st, e)|)
  {
    hide BracketsText, BracketsAt, GoodMap, GoodHops, Stands;
    if e.direction == Undirected && st.dashes && e.content == NO_CONTENT {
      AtOne(ts, n, Punct(DoubleDash));
    } else if e.direction == Outgoing {
      MarkedRead(ts, n, st, Minus, e.content, Punct(ArrowRight));
    } else if e.direction == Incoming {
      MarkedRead(ts, n, st, Punct(ArrowLeft), e.content, Minus);
    } else {
      MarkedRead(ts, n, st, Minus, e.content, Minus);
    }
  }

  // ---------------------------------------------------------------------------
  // Chains
  // ---------------------------------------------------------------------------

  /** Relationship and node in turn. */
  predicate Pairs(es: seq<Element>) {
    |es| % 2 == 0 && forall i | 0 <= i < |es| :: GoodElement(es[i]) && (es[i].NodeElement? <==> i % 2 == 1)
  }

  lemma {:induction false} ElementsRead(ts: Tokens, n: nat, st: Style, es: seq<Element>, before: seq<Element>)
    requires Pairs(es) && Stands(ts, n, ElementsText(st, es)) && !StartsRelationship(ts, n + |ElementsText(st, es)|)
    ensures n + |ElementsText(st, es)| <= |ts| && ElementsAt(ts, n, before) == Done(before + es, n + |ElementsText(st, es)|)
    decreases |es|
  {
    hide *;
    AtBound(ts, n, ElementsText(st, es));
    if es == [] {
      NoElements(ts, n, st, before);
      assert before + es == before;
    } else {
      var k := PairRead(ts, n, st, es, before);
      var more := before + [es[0]] + [es[1]];
      ElementsRead(ts, k, st, es[2..], more);
      assert more + es[2..] == before + es;
    }
  }

  lemma NoElements(ts: Tokens, n: nat, st: Style, before: seq<Element>)
    requires n <= |ts| && !StartsRelationship(ts, n + |ElementsText(st, [])|)
    ensures ElementsText(st, []) == [] && ElementsAt(ts, n, before) == Done(before, n)
  {
  }

  /** The first relationship and the node behind it. */
  lemma PairRead(ts: Tokens, n: nat, st: Style, es: seq<Element>, before: seq<Element>) returns (k: nat)
    requires Pairs(es) && es != [] && Stands(ts, n, ElementsText(st, es))
    ensures |es| >= 2 && Pairs(es[2..]) && n <= k <= |ts|
    ensures ElementsAt(ts, n, before) == ElementsAt(ts, k, before + [es[0]] + [es[1]])
    ensures Stands(ts, k, ElementsText(st, es[2..])) && k + |ElementsText(st, es[2..])| == n + |ElementsText(st, es)|
  {
    hide ElementText, RelationshipAt, NodePatternAt, GoodElement, Stands, ElementsAt;
    var a, b, rest := ElementText(st, es[0]), ElementText(st, es[1]), es[2..];
    FirstPair(es);
    AtBoth(ts, n, a, b + ElementsText(st, rest));
    AtBoth(ts, n + |a|, b, ElementsText(st, rest));
    RelationshipRead(ts, n, st, es[0]);
    NodeElementRead(ts, n + |a|, st, es[1]);
    k := n + |a| + |b|;
    PairStep(ts, n, es[0], n + |a|, es[1].node, k, before);
  }

  lemma FirstPair(es: seq<Element>)
    requires Pairs(es) && es != []
    ensures |es| >= 2 && Pairs(es[2..]) && es[1..][0] == es[1] && es[1..][1..] == es[2..]
    ensures es[0].RelationshipElement? && es[1].NodeElement? && GoodElement(es[0]) && GoodElement(es[1])
  {
    hide GoodElement;
    assert forall i | 0 <= i < |es[2..]| :: es[2..][i] == es[i + 2];
  }

  lemma PairStep(ts: Tokens, n: nat, rel: Element, a: nat, node: NodePattern, b: nat, before: seq<Element>)
    requires n <= |ts| && a <= |ts| && b <= |ts| && StartsRelationship(ts, n)
    requires RelationshipAt(ts, n) == Done(rel, a) && NodePatternAt(ts, a) == Done(node, b)
    ensures ElementsAt(ts, n, before) == ElementsAt(ts, b, before + [rel] + [NodeElement(node)])
  {
    hide RelationshipAt, NodePatternAt, StartsRelationship;
  }

  lemma NodeElementRead(ts: Tokens, n: nat, st: Style, e: Element)
    requires e.NodeElement? && GoodElement(e) && Stands(ts, n, ElementText(st, e))
    ensures NodePatternAt(ts, n) == Done(e.node, n + |ElementText(st, e)|)
  {
    hide NodeText, NodePatternAt, GoodMap, Stands;
    NodeRead(ts, n, st, e.node);
  }

  lemma ChainRead(ts: Tokens, n: nat, st: Style, es: seq<Element>)
    requires GoodChain(es) && Stands(ts, n, ElementsText(st, es)) && !StartsRelationship(ts, n + |ElementsText(st, es)|)
    ensures PatternChainAt(ts, n) == Done(es, n + |ElementsText(st, es)|)
  {
    hide ElementText, NodePatternAt, ElementsAt, GoodElement, Stands;
    var node, rest := es[0], es[1..];
    AtBoth(ts, n, ElementText(st, node), ElementsText(st, rest));
    NodeElementRead(ts, n, st, node);
    assert forall i | 0 <= i < |rest| :: rest[i] == es[i + 1];
    ElementsRead(ts, n + |ElementText(st, node)|, st, rest, [node]);
    assert [node] + rest == es;
  }

  lemma {:induction false} ChainsRead(ts: Tokens, n: nat, st: Style, chains: seq<seq<Element>>, before: seq<seq<Element>>)
    requires chains != [] && forall i | 0 <= i < |chains| :: GoodChain(chains[i])
    requires Stands(ts, n, Commas(chains, ChainText(st)))
    requires var k := n + |Commas(chains, ChainText(st))|; !StartsRelationship(ts, k) && !TokenAt(ts, k, Comma)
    ensures PatternChainsAt(ts, n, before) == Done(before + chains, n + |Commas(chains, ChainText(st))|)
    decreases |chains|
  {
    hide PatternChainAt, ElementsText, GoodChain, Stands, Commas;
    var first, rest := chains[0], chains[1..];
    var k := n + |ChainText(st)(first)|;
    CommasRead(ts, n, chains, ChainText(st));
    ChainRead(ts, n, st, first);
    if |chains| == 1 {
      assert before + [first] == before + chains;
    } else {
      ChainsRead(ts, k + 1, st, rest, before + [first]);
      assert before + [first] + rest == before + chains;
    }
  }

  /** A printed pattern reads back, wherever it stands, if no comma and no relationship follows. */
  lemma PatternRead(ts: Tokens, n: nat, st: Style, p: Pattern)
    requires GoodPattern(p) && Stands(ts, n, PatternText(st, p))
    requires var k := n + |PatternText(st, p)|; !StartsRelationship(ts, k) && !TokenAt(ts, k, Comma)
    ensures PatternAt(ts, n) == Done(p, n + |PatternText(st, p)|)
  {
    hide PatternChainsAt, GoodChain, Commas, ChainText, StartsRelationship, Stands;
    ChainsRead(ts, n, st, p.chains, []);
    assert [] + p.chains == p.chains;
  }
}
