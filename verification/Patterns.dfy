/** Graph patterns, as functions of a token position: nodes, relationships, map literals and
    chains of them. */
module Patterns {
  import opened Wrappers
  import opened Syntax
  import opened Grammar

  /** A result and the position after it. */
  datatype Step<+T> = Done(value: T, pos: nat) | Stuck(error: ParseError) {
    predicate IsFailure() { Stuck? }
    function PropagateFailure<U>(): Step<U> requires Stuck? { Stuck(error) }
    function Extract(): (T, nat) requires Done? { (value, pos) }
  }

  type MapLiteral = seq<(string, Expression)>

  datatype NodePattern = NodePattern(variable: Option<string>, labels: seq<string>, properties: Option<MapLiteral>)

  datatype Direction = Outgoing | Incoming | Undirected

  /** What stands between the brackets of a relationship. */
  datatype Content = Content(variable: Option<string>, types: seq<string>, properties: Option<MapLiteral>, hops: Hops)

  /** Least and greatest number of hops; none for a single relationship. */
  datatype Hops = Hops(least: Option<nat>, greatest: Option<nat>)

  datatype Element = NodeElement(node: NodePattern) | RelationshipElement(direction: Direction, content: Content)

  /** One or more chains of nodes and relationships. */
  datatype Pattern = Pattern(chains: seq<seq<Element>>)

  const SINGLE := Hops(None, None)

  // ---------------------------------------------------------------------------
  // Single tokens and expressions
  // ---------------------------------------------------------------------------

  predicate TokenAt(ts: Tokens, n: nat, token: Token) {
    n < |ts| && ts[n] == token
  }

  predicate IsIdent(ts: Tokens, n: nat) {
    n < |ts| && (ts[n].Ident? || ts[n].BacktickIdent?)
  }

  /** An error at the current token; without one it points to the start of the input. */
  function Fail(ts: Tokens, n: nat, message: string): ParseError
    requires n <= |ts|
  {
    ParseError(Because(message), if n < |ts| then |ts| - n else |ts|)
  }

  function ExpectAt(ts: Tokens, n: nat, token: Token): (r: Step<()>)
    requires n <= |ts|
    ensures r.Done? <==> TokenAt(ts, n, token)
    ensures r.Done? ==> r.pos == n + 1
  {
    if TokenAt(ts, n, token) then Done((), n + 1) else Stuck(ParseError(Expected(token), |ts| - n))
  }

  function IdentAt(ts: Tokens, n: nat): (r: Step<string>)
    requires n <= |ts|
    ensures r.Done? ==> r.pos == n + 1 <= |ts|
  {
    if IsIdent(ts, n) then Done(ts[n].name, n + 1) else Stuck(ParseError(ExpectedIdent, |ts| - n))
  }

  function ExprAt(ts: Tokens, n: nat): (r: Step<Expression>)
    requires n <= |ts|
    ensures r.Done? ==> n < r.pos <= |ts|
  {
    match ParseExpression(ts[n..])
    case Ok(e, rest) => Done(e, |ts| - |rest|)
    case Err(e) => Stuck(e)
  }

  // ---------------------------------------------------------------------------
  // Map literals and nodes
  // ---------------------------------------------------------------------------

  function EntryAt(ts: Tokens, n: nat): (r: Step<(string, Expression)>)
    requires n <= |ts|
    ensures r.Done? ==> n < r.pos <= |ts|
  {
    var (key, m) :- IdentAt(ts, n);
    var (_, k) :- ExpectAt(ts, m, Punct(Colon));
    var (value, j) :- ExprAt(ts, k);
    Done((key, value), j)
  }

  /** One entry, then more after every comma. `before` are the entries read so far. */
  function EntriesAt(ts: Tokens, n: nat, before: MapLiteral): (r: Step<MapLiteral>)
    requires n <= |ts|
    ensures r.Done? ==> n < r.pos <= |ts|
    decreases |ts| - n
  {
    var (entry, m) :- EntryAt(ts, n);
    if TokenAt(ts, m, Comma) then EntriesAt(ts, m + 1, before + [entry]) else Done(before + [entry], m)
  }

  function MapLiteralAt(ts: Tokens, n: nat): (r: Step<MapLiteral>)
    requires n <= |ts|
    ensures r.Done? ==> n < r.pos <= |ts|
  {
    var (_, m) :- ExpectAt(ts, n, Punct(LBrace));
    var (entries, k) :- if TokenAt(ts, m, Punct(RBrace)) then Done([], m) else EntriesAt(ts, m, []);
    var (_, j) :- ExpectAt(ts, k, Punct(RBrace));
    Done(entries, j)
  }

  function MapAt(ts: Tokens, n: nat): (r: Step<Option<MapLiteral>>)
    requires n <= |ts|
    ensures r.Done? ==> n <= r.pos <= |ts|
  {
    if !TokenAt(ts, n, Punct(LBrace)) then Done(None, n)
    else
      var (properties, m) :- MapLiteralAt(ts, n);
      Done(Some(properties), m)
  }

  function LabelsAt(ts: Tokens, n: nat, before: seq<string>): (r: Step<seq<string>>)
    requires n <= |ts|
    ensures r.Done? ==> n <= r.pos <= |ts|
    decreases |ts| - n
  {
    if !TokenAt(ts, n, Punct(Colon)) then Done(before, n)
    else
      var (name, m) :- IdentAt(ts, n + 1);
      LabelsAt(ts, m, before + [name])
  }

  /** `(variable:Label:Label`, the start of a node pattern. */
  function NodeHeadAt(ts: Tokens, n: nat): (r: Step<(Option<string>, seq<string>)>)
    requires n <= |ts|
    ensures r.Done? ==> n < r.pos <= |ts|
  {
    var (_, m) :- ExpectAt(ts, n, LParen);
    var named := IsIdent(ts, m);
    var (labels, k) :- LabelsAt(ts, if named then m + 1 else m, []);
    Done((if named then Some(ts[m].name) else None, labels), k)
  }

  /** `(variable:Label {properties})`. */
  function NodePatternAt(ts: Tokens, n: nat): (r: Step<NodePattern>)
    requires n <= |ts|
    ensures r.Done? ==> n < r.pos <= |ts|
  {
    var (head, a) :- NodeHeadAt(ts, n);
    var (properties, b) :- MapAt(ts, a);
    var (_, c) :- ExpectAt(ts, b, RParen);
    Done(NodePattern(head.0, head.1, properties), c)
  }

  // ---------------------------------------------------------------------------
  // Relationships
  // ---------------------------------------------------------------------------

  predicate IntegerAt(ts: Tokens, n: nat) {
    n < |ts| && ts[n].Integer?
  }

  /** A hop count: negative ones are refused, large ones wrap to 32 bits. */
  function HopsAt(ts: Tokens, n: nat): (r: Step<nat>)
    requires IntegerAt(ts, n)
    ensures r.Done? ==> r.pos == n + 1
  {
    var Integer(k) := ts[n];
    if k < 0 then Stuck(Fail(ts, n, "hop count must be non-negative")) else Done(k % 0x1_0000_0000, n + 1)
  }

  /** An integer if there is one. */
  function HopBoundAt(ts: Tokens, n: nat): (r: Step<Option<nat>>)
    requires n <= |ts|
    ensures r.Done? ==> n <= r.pos <= |ts|
  {
    if !IntegerAt(ts, n) then Done(None, n)
    else
      var (k, m) :- HopsAt(ts, n);
      Done(Some(k), m)
  }

  /** After the star: `..M`, `..`, `N..M`, `N..`, `N` or nothing. */
  function SpanAt(ts: Tokens, n: nat): (r: Step<Hops>)
    requires n <= |ts|
    ensures r.Done? ==> n <= r.pos <= |ts|
  {
    if TokenAt(ts, n, Punct(DoubleDot)) then
      var (most, m) :- HopBoundAt(ts, n + 1);
      Done(Hops(Some(1), most), m)
    else
      var (first, m) :- HopBoundAt(ts, n);
      if first.None? then Done(Hops(Some(1), None), m)
      else if !TokenAt(ts, m, Punct(DoubleDot)) then Done(Hops(first, first), m)
      else
        var (most, k) :- HopBoundAt(ts, m + 1);
        Done(Hops(first, most), k)
  }

  function StarAt(ts: Tokens, n: nat): (r: Step<Hops>)
    requires n <= |ts|
    ensures r.Done? ==> n <= r.pos <= |ts|
  {
    if TokenAt(ts, n, Star) then SpanAt(ts, n + 1) else Done(SINGLE, n)
  }

  /** `|TYPE` any number of times. */
  function MoreTypesAt(ts: Tokens, n: nat, before: seq<string>): (r: Step<seq<string>>)
    requires n <= |ts|
    ensures r.Done? ==> n <= r.pos <= |ts|
    decreases |ts| - n
  {
    if !TokenAt(ts, n, Punct(Pipe)) then Done(before, n)
    else
      var (name, m) :- IdentAt(ts, n + 1);
      MoreTypesAt(ts, m, before + [name])
  }

  /** `:TYPE|TYPE`, or nothing. */
  function TypesAt(ts: Tokens, n: nat): (r: Step<seq<string>>)
    requires n <= |ts|
    ensures r.Done? ==> n <= r.pos <= |ts|
  {
    if !TokenAt(ts, n, Punct(Colon)) then Done([], n)
    else
      var (name, m) :- IdentAt(ts, n + 1);
      MoreTypesAt(ts, m, [name])
  }

  /** `variable :TYPE|TYPE *N..M {properties}`, every part optional. */
  function ContentAt(ts: Tokens, n: nat): (r: Step<Content>)
    requires n <= |ts|
    ensures r.Done? ==> n <= r.pos <= |ts|
  {
    var named := IsIdent(ts, n);
    var (types, a) :- TypesAt(ts, if named then n + 1 else n);
    var (hops, b) :- StarAt(ts, a);
    var (properties, c) :- MapAt(ts, b);
    Done(Content(if named then Some(ts[n].name) else None, types, properties, hops), c)
  }

  function BracketsAt(ts: Tokens, n: nat): (r: Step<Content>)
    requires n <= |ts|
    ensures r.Done? ==> n < r.pos <= |ts|
  {
    var (_, a) :- ExpectAt(ts, n, LBracket);
    var (content, b) :- ContentAt(ts, a);
    var (_, c) :- ExpectAt(ts, b, RBracket);
    Done(content, c)
  }

  /** `-[...]->` or `-[...]-`. */
  function FromMinusAt(ts: Tokens, n: nat): (r: Step<Element>)
    requires n <= |ts|
    ensures r.Done? ==> n < r.pos <= |ts|
  {
    var (_, a) :- ExpectAt(ts, n, Minus);
    var (content, b) :- BracketsAt(ts, a);
    if TokenAt(ts, b, Punct(ArrowRight)) then Done(RelationshipElement(Outgoing, content), b + 1)
    else if TokenAt(ts, b, Minus) then Done(RelationshipElement(Undirected, content), b + 1)
    else Stuck(Fail(ts, b, "expected -> or - after relationship bracket"))
  }

  /** `<-[...]-`. */
  function IncomingAt(ts: Tokens, n: nat): (r: Step<Element>)
    requires n <= |ts|
    ensures r.Done? ==> n < r.pos <= |ts|
  {
    var (_, a) :- ExpectAt(ts, n, Punct(ArrowLeft));
    var (content, b) :- BracketsAt(ts, a);
    var (_, c) :- ExpectAt(ts, b, Minus);
    Done(RelationshipElement(Incoming, content), c)
  }

  predicate StartsRelationship(ts: Tokens, n: nat) {
    TokenAt(ts, n, Minus) || TokenAt(ts, n, Punct(ArrowLeft)) || TokenAt(ts, n, Punct(DoubleDash))
  }

  function RelationshipAt(ts: Tokens, n: nat): (r: Step<Element>)
    requires StartsRelationship(ts, n)
    ensures r.Done? ==> n < r.pos <= |ts|
  {
    if TokenAt(ts, n, Minus) then FromMinusAt(ts, n)
    else if TokenAt(ts, n, Punct(ArrowLeft)) then IncomingAt(ts, n)
    else Done(RelationshipElement(Undirected, Content(None, [], None, SINGLE)), n + 1)
  }

  // ---------------------------------------------------------------------------
  // Chains
  // ---------------------------------------------------------------------------

  /** Relationship and node, any number of times, after the elements read so far. */
  function ElementsAt(ts: Tokens, n: nat, before: seq<Element>): (r: Step<seq<Element>>)
    requires n <= |ts|
    ensures r.Done? ==> n <= r.pos <= |ts|
    decreases |ts| - n
  {
    if !StartsRelationship(ts, n) then Done(before, n)
    else
      var (rel, m) :- RelationshipAt(ts, n);
      var (node, k) :- NodePatternAt(ts, m);
      ElementsAt(ts, k, before + [rel] + [NodeElement(node)])
  }

  function PatternChainAt(ts: Tokens, n: nat): (r: Step<seq<Element>>)
    requires n <= |ts|
    ensures r.Done? ==> n < r.pos <= |ts|
  {
    var (node, m) :- NodePatternAt(ts, n);
    ElementsAt(ts, m, [NodeElement(node)])
  }

  function PatternChainsAt(ts: Tokens, n: nat, before: seq<seq<Element>>): (r: Step<seq<seq<Element>>>)
    requires n <= |ts|
    ensures r.Done? ==> n < r.pos <= |ts|
    decreases |ts| - n
  {
    var (chain, m) :- PatternChainAt(ts, n);
    if TokenAt(ts, m, Comma) then PatternChainsAt(ts, m + 1, before + [chain]) else Done(before + [chain], m)
  }

  function PatternAt(ts: Tokens, n: nat): (r: Step<Pattern>)
    requires n <= |ts|
    ensures r.Done? ==> n < r.pos <= |ts|
  {
    var (chains, m) :- PatternChainsAt(ts, n, []);
    Done(Pattern(chains), m)
  }

  // ---------------------------------------------------------------------------
  // The shape of a parsed pattern
  // ---------------------------------------------------------------------------

  /** Nodes and relationships in turn, a node first and last. */
  predicate Alternates(chain: seq<Element>) {
    |chain| % 2 == 1 && forall i | 0 <= i < |chain| :: chain[i].NodeElement? <==> i % 2 == 0
  }

  lemma {:induction false} ElementsAlternate(ts: Tokens, n: nat, before: seq<Element>)
    requires n <= |ts| && ElementsAt(ts, n, before).Done? && Alternates(before)
    ensures Alternates(ElementsAt(ts, n, before).value)
    decreases |ts| - n
  {
    hide NodePatternAt, FromMinusAt, IncomingAt;
    if StartsRelationship(ts, n) {
      var rel := RelationshipAt(ts, n);
      var node := NodePatternAt(ts, rel.pos);
      assert rel.value.RelationshipElement? by { RelationshipFound(ts, n); }
      var more := before + [rel.value] + [NodeElement(node.value)];
      assert forall i | 0 <= i < |before| :: more[i] == before[i];
      ElementsAlternate(ts, node.pos, more);
    }
  }

  lemma RelationshipFound(ts: Tokens, n: nat)
    requires StartsRelationship(ts, n) && RelationshipAt(ts, n).Done?
    ensures RelationshipAt(ts, n).value.RelationshipElement?
  {
    hide BracketsAt;
  }

  lemma {:induction false} ChainsAlternate(ts: Tokens, n: nat, before: seq<seq<Element>>)
    requires n <= |ts| && PatternChainsAt(ts, n, before).Done? && forall i | 0 <= i < |before| :: Alternates(before[i])
    ensures var chains := PatternChainsAt(ts, n, before).value;
            |chains| > |before| && forall i | 0 <= i < |chains| :: Alternates(chains[i])
    decreases |ts| - n
  {
    hide NodePatternAt, ElementsAt;
    var chain := PatternChainAt(ts, n);
    ElementsAlternate(ts, NodePatternAt(ts, n).pos, [NodeElement(NodePatternAt(ts, n).value)]);
    if TokenAt(ts, chain.pos, Comma) {
      ChainsAlternate(ts, chain.pos + 1, before + [chain.value]);
    }
  }

  /** A parsed pattern has at least one chain, and in every chain nodes and relationships take
      turns, a node first and last. */
  lemma PatternShape(ts: Tokens, n: nat)
    requires n <= |ts| && PatternAt(ts, n).Done?
    ensures var chains := PatternAt(ts, n).value.chains;
            chains != [] && forall i | 0 <= i < |chains| :: Alternates(chains[i])
  {
    ChainsAlternate(ts, n, []);
  }
}
