/** The pattern parsers as methods that move the cursor of a parser and push onto vectors. Each
    is proved to return, and to leave the cursor, as the pattern function of the same name says. */
module PatternParsers {
  import opened Wrappers
  import opened Syntax
  import opened Grammar
  import opened ExpressionParser
  import opened Patterns

  /** The outcome and the cursor are those of the step. */
  ghost predicate Agrees<T>(p: Parser, r: Outcome<T>, s: Step<T>)
    reads p
  {
    && p.Valid()
    && match s
       case Done(v, n) => r == Success(v) && p.pos == n
       case Stuck(e) => r == Failure(e)
  }

  class PatternParser {
    const p: Parser

    constructor (tokens: Tokens)
      ensures p.Valid() && p.tokens == tokens && p.pos == 0 && fresh(p)
    {
      p := new Parser(tokens);
    }

    // -------------------------------------------------------------------------
    // Single tokens and expressions
    // -------------------------------------------------------------------------

    predicate Check(token: Token)
      requires p.Valid()
      reads p
      ensures Check(token) <==> TokenAt(p.tokens, p.pos, token)
    {
      p.Check(token)
    }

    predicate CheckAhead(ahead: nat, token: Token)
      requires p.Valid()
      reads p
    {
      p.pos + ahead < |p.tokens| && p.tokens[p.pos + ahead] == token
    }

    method Skip()
      requires p.Valid() && p.pos < |p.tokens|
      modifies p`pos
      ensures p.Valid() && p.pos == old(p.pos) + 1
    {
      p.Advance();
    }

    method Eat(token: Token) returns (eaten: bool)
      requires p.Valid()
      modifies p`pos
      ensures p.Valid() && (eaten <==> TokenAt(p.tokens, old(p.pos), token))
      ensures p.pos == if eaten then old(p.pos) + 1 else old(p.pos)
    {
      eaten := p.Eat(token);
    }

    method Expect(token: Token) returns (r: Outcome<()>)
      requires p.Valid()
      modifies p`pos
      ensures Agrees(p, r, ExpectAt(p.tokens, old(p.pos), token))
    {
      r := p.ExpectToken(token);
    }

    method Name() returns (r: Outcome<string>)
      requires p.Valid()
      modifies p`pos
      ensures Agrees(p, r, IdentAt(p.tokens, old(p.pos)))
    {
      r := p.ExpectIdentifier();
    }

    method Expr() returns (r: Outcome<Expression>)
      requires p.Valid()
      modifies p`pos
      ensures Agrees(p, r, ExprAt(p.tokens, old(p.pos)))
    {
      hide ParseExpression;
      r := p.ParseExpr();
    }

    /** An error at the current token. */
    function Error(message: string): ParseError
      requires p.Valid()
      reads p
    {
      Fail(p.tokens, p.pos, message)
    }

    // -------------------------------------------------------------------------
    // Map literals and nodes
    // -------------------------------------------------------------------------

    method OneEntry() returns (r: Outcome<(string, Expression)>)
      requires p.Valid()
      modifies p`pos
      ensures Agrees(p, r, EntryAt(p.tokens, old(p.pos)))
    {
      hide ExprAt;
      var key :- Name();
      var _ :- Expect(Punct(Colon));
      var value :- Expr();
      r := Success((key, value));
    }

    method Entries() returns (r: Outcome<MapLiteral>)
      requires p.Valid()
      modifies p`pos
      ensures Agrees(p, r, EntriesAt(p.tokens, old(p.pos), []))
    {
      hide EntryAt;
      var entries := [];
      var entry :- OneEntry();
      entries := entries + [entry];
      var comma := Eat(Comma);
      while comma
        invariant p.Valid()
        invariant EntriesAt(p.tokens, old(p.pos), []) == if comma then EntriesAt(p.tokens, p.pos, entries) else Done(entries, p.pos)
        decreases |p.tokens| - p.pos, comma
      {
        entry :- OneEntry();
        entries := entries + [entry];
        comma := Eat(Comma);
      }
      r := Success(entries);
    }

    method ParseMapLiteral() returns (r: Outcome<MapLiteral>)
      requires p.Valid()
      modifies p`pos
      ensures Agrees(p, r, MapLiteralAt(p.tokens, old(p.pos)))
    {
      hide EntriesAt;
      var _ :- Expect(Punct(LBrace));
      var entries := [];
      if !Check(Punct(RBrace)) {
        entries :- Entries();
      }
      var _ :- Expect(Punct(RBrace));
      r := Success(entries);
    }

    method OptionalMap() returns (r: Outcome<Option<MapLiteral>>)
      requires p.Valid()
      modifies p`pos
      ensures Agrees(p, r, MapAt(p.tokens, old(p.pos)))
    {
      hide MapLiteralAt;
      if !Check(Punct(LBrace)) {
        return Success(None);
      }
      var properties :- ParseMapLiteral();
      r := Success(Some(properties));
    }

    method Labels() returns (r: Outcome<seq<string>>)
      requires p.Valid()
      modifies p`pos
      ensures Agrees(p, r, LabelsAt(p.tokens, old(p.pos), []))
    {
      var labels := [];
      while Check(Punct(Colon))
        invariant p.Valid()
        invariant LabelsAt(p.tokens, old(p.pos), []) == LabelsAt(p.tokens, p.pos, labels)
        decreases |p.tokens| - p.pos
      {
        Skip();
        var name :- Name();
        labels := labels + [name];
      }
      r := Success(labels);
    }

    method NodeHead() returns (r: Outcome<(Option<string>, seq<string>)>)
      requires p.Valid()
      modifies p`pos
      ensures Agrees(p, r, NodeHeadAt(p.tokens, old(p.pos)))
    {
      hide LabelsAt;
      var _ :- Expect(LParen);
      var variable: Option<string> := None;
      if p.pos < |p.tokens| && (p.tokens[p.pos].Ident? || p.tokens[p.pos].BacktickIdent?) {
        variable := Some(p.tokens[p.pos].name);
        Skip();
      }
      var labels :- Labels();
      r := Success((variable, labels));
    }

    method ParseNodePattern() returns (r: Outcome<NodePattern>)
      requires p.Valid()
      modifies p`pos
      ensures Agrees(p, r, NodePatternAt(p.tokens, old(p.pos)))
    {
      hide NodeHeadAt, MapAt, ExpectAt;
      var head :- NodeHead();
      var properties :- OptionalMap();
      var _ :- Expect(RParen);
      r := Success(NodePattern(head.0, head.1, properties));
    }

    // -------------------------------------------------------------------------
    // Relationships
    // -------------------------------------------------------------------------

    method Bound() returns (r: Outcome<Option<nat>>)
      requires p.Valid()
      modifies p`pos
      ensures Agrees(p, r, HopBoundAt(p.tokens, old(p.pos)))
    {
      if p.pos < |p.tokens| && p.tokens[p.pos].Integer? {
        var Integer(k) := p.tokens[p.pos];
        if k < 0 {
          return Failure(Error("hop count must be non-negative"));
        }
        Skip();
        return Success(Some(k % 0x1_0000_0000));
      }
      r := Success(None);
    }

    /** `*`, `*N`, `*N..M`, `*N..` or `*..M`. */
    method VarLengthSpec() returns (r: Outcome<Hops>)
      requires p.Valid() && Check(Star)
      modifies p`pos
      ensures Agrees(p, r, StarAt(p.tokens, old(p.pos)))
    {
      hide HopBoundAt;
      Skip();
      var open := Eat(Punct(DoubleDot));
      if open {
        var greatest :- Bound();
        return Success(Hops(Some(1), greatest));
      }
      var first :- Bound();
      if first.None? {
        return Success(Hops(Some(1), None));
      }
      open := Eat(Punct(DoubleDot));
      if !open {
        return Success(Hops(first, first));
      }
      var greatest :- Bound();
      r := Success(Hops(first, greatest));
    }

    /** The star if there is one. */
    method OptionalStar() returns (r: Outcome<Hops>)
      requires p.Valid()
      modifies p`pos
      ensures Agrees(p, r, StarAt(p.tokens, old(p.pos)))
    {
      hide SpanAt;
      if !Check(Star) {
        return Success(SINGLE);
      }
      r := VarLengthSpec();
    }

    method Types() returns (r: Outcome<seq<string>>)
      requires p.Valid()
      modifies p`pos
      ensures Agrees(p, r, TypesAt(p.tokens, old(p.pos)))
    {
      hide IdentAt;
      var colon := Eat(Punct(Colon));
      if !colon {
        return Success([]);
      }
      var name :- Name();
      var types := [name];
      ghost var start := p.pos;
      while Check(Punct(Pipe))
        invariant p.Valid()
        invariant MoreTypesAt(p.tokens, start, [name]) == MoreTypesAt(p.tokens, p.pos, types)
        decreases |p.tokens| - p.pos
      {
        Skip();
        var next :- Name();
        types := types + [next];
      }
      r := Success(types);
    }

    /** A star at once, or after the variable, leaves no place for types. */
    method RelationshipContent() returns (r: Outcome<Content>)
      requires p.Valid()
      modifies p`pos
      ensures Agrees(p, r, ContentAt(p.tokens, old(p.pos)))
    {
      hide StarAt, MapAt;
      var variable: Option<string> := None;
      if !Check(Star) && p.pos < |p.tokens| && (p.tokens[p.pos].Ident? || p.tokens[p.pos].BacktickIdent?) {
        variable := Some(p.tokens[p.pos].name);
        Skip();
      }
      if Check(Star) {
        var hops :- OptionalStar();
        var properties :- OptionalMap();
        return Success(Content(variable, [], properties, hops));
      }
      var types :- Types();
      var hops :- OptionalStar();
      var properties :- OptionalMap();
      r := Success(Content(variable, types, properties, hops));
    }

    method Brackets() returns (r: Outcome<Content>)
      requires p.Valid()
      modifies p`pos
      ensures Agrees(p, r, BracketsAt(p.tokens, old(p.pos)))
    {
      hide ContentAt;
      var _ :- Expect(LBracket);
      var content :- RelationshipContent();
      var _ :- Expect(RBracket);
      r := Success(content);
    }

    method FromMinus() returns (r: Outcome<Element>)
      requires p.Valid()
      modifies p`pos
      ensures Agrees(p, r, FromMinusAt(p.tokens, old(p.pos)))
    {
      hide BracketsAt;
      var _ :- Expect(Minus);
      var content :- Brackets();
      var arrow := Eat(Punct(ArrowRight));
      if arrow {
        return Success(RelationshipElement(Outgoing, content));
      }
      var dash := Eat(Minus);
      if dash {
        return Success(RelationshipElement(Undirected, content));
      }
      r := Failure(Error("expected -> or - after relationship bracket"));
    }

    method Incoming() returns (r: Outcome<Element>)
      requires p.Valid()
      modifies p`pos
      ensures Agrees(p, r, IncomingAt(p.tokens, old(p.pos)))
    {
      hide BracketsAt;
      var _ :- Expect(Punct(ArrowLeft));
      var content :- Brackets();
      var _ :- Expect(Minus);
      r := Success(RelationshipElement(Direction.Incoming, content));
    }

    method Relationship() returns (r: Outcome<Element>)
      requires p.Valid() && StartsRelationship(p.tokens, p.pos)
      modifies p`pos
      ensures Agrees(p, r, RelationshipAt(p.tokens, old(p.pos)))
    {
      hide FromMinusAt, IncomingAt;
      if Check(Minus) {
        r := FromMinus();
      } else if Check(Punct(ArrowLeft)) {
        r := Incoming();
      } else {
        Skip();
        r := Success(RelationshipElement(Undirected, Content(None, [], None, SINGLE)));
      }
    }

    // -------------------------------------------------------------------------
    // Chains
    // -------------------------------------------------------------------------

    method ParsePatternChain() returns (r: Outcome<seq<Element>>)
      requires p.Valid()
      modifies p`pos
      ensures Agrees(p, r, PatternChainAt(p.tokens, old(p.pos)))
    {
      hide NodePatternAt, RelationshipAt;
      var first :- ParseNodePattern();
      var elements := [NodeElement(first)];
      ghost var start := p.pos;
      while Check(Minus) || Check(Punct(ArrowLeft)) || Check(Punct(DoubleDash))
        invariant p.Valid()
        invariant ElementsAt(p.tokens, start, [NodeElement(first)]) == ElementsAt(p.tokens, p.pos, elements)
        decreases |p.tokens| - p.pos
      {
        var rel :- Relationship();
        elements := elements + [rel];
        var node :- ParseNodePattern();
        elements := elements + [NodeElement(node)];
      }
      r := Success(elements);
    }

    method ParsePattern() returns (r: Outcome<Pattern>)
      requires p.Valid()
      modifies p`pos
      ensures Agrees(p, r, PatternAt(p.tokens, old(p.pos)))
    {
      hide PatternChainAt;
      var chains := [];
      var chain :- ParsePatternChain();
      chains := chains + [chain];
      var comma := Eat(Comma);
      while comma
        invariant p.Valid()
        invariant PatternChainsAt(p.tokens, old(p.pos), []) == if comma then PatternChainsAt(p.tokens, p.pos, chains) else Done(chains, p.pos)
        decreases |p.tokens| - p.pos, comma
      {
        chain :- ParsePatternChain();
        chains := chains + [chain];
        comma := Eat(Comma);
      }
      r := Success(Pattern(chains));
    }
  }
}
