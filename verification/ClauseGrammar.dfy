/** The grammar of patterns and clauses over positions of a token stream, with expressions as
    the expression parser reads them. It says which tokens stand where and what the clause
    holds, and nothing about order of tests, errors or loops. */
module ClauseGrammar {
  import opened Wrappers
  import opened Syntax
  import opened Grammar
  import opened Precedence
  import opened Patterns
  import opened Clauses
  import L = ClauseLocality

  /** Exactly these tokens from `n` to `m`. */
  predicate Reads(ts: Tokens, n: nat, m: nat, text: Tokens) {
    m == n + |text| <= |ts| && forall i | 0 <= i < |text| :: ts[n + i] == text[i]
  }

  predicate NameReads(ts: Tokens, n: nat, m: nat, name: string) {
    m == n + 1 <= |ts| && IsName(ts[n], name)
  }

  predicate ExprReads(ts: Tokens, n: nat, m: nat, e: Expression) {
    n <= |ts| && ExprAt(ts, n) == Done(e, m)
  }

  /** A bound of BETWEEN TIME: an expression without AND and OR outside brackets. */
  predicate BoundReads(ts: Tokens, n: nat, m: nat, e: Expression) {
    n <= |ts| && L.BoundAt(ts, n) == Done(e, m)
  }

  ghost function AnExpr(ts: Tokens): (nat, nat, Expression) -> bool {
    (n: nat, m: nat, x) => ExprReads(ts, n, m, x)
  }

  /** One or more items with commas between them. */
  ghost predicate Listed<T(!new)>(ts: Tokens, n: nat, m: nat, items: seq<T>, one: (nat, nat, T) -> bool)
    decreases |items|
  {
    && items != []
    && if |items| == 1 then one(n, m, items[0])
       else exists a: nat :: one(n, a, items[0]) && TokenAt(ts, a, Comma) && Listed(ts, a + 1, m, items[1..], one)
  }

  // ---------------------------------------------------------------------------
  // Patterns
  // ---------------------------------------------------------------------------

  ghost predicate EntryReads(ts: Tokens, n: nat, m: nat, entry: (string, Expression)) {
    NameReads(ts, n, n + 1, entry.0) && TokenAt(ts, n + 1, Punct(Colon)) && ExprReads(ts, n + 2, m, entry.1)
  }

  ghost function AnEntry(ts: Tokens): (nat, nat, (string, Expression)) -> bool {
    (n: nat, m: nat, x) => EntryReads(ts, n, m, x)
  }

  ghost predicate MapReads(ts: Tokens, n: nat, m: nat, properties: Option<MapLiteral>) {
    if properties.None? then m == n
    else
      && TokenAt(ts, n, Punct(LBrace)) && m >= 1 && TokenAt(ts, m - 1, Punct(RBrace))
      && if properties.value == [] then m == n + 2
         else Listed(ts, n + 1, m - 1, properties.value, AnEntry(ts))
  }

  predicate OptionalName(ts: Tokens, n: nat, m: nat, name: Option<string>) {
    if name.None? then m == n else NameReads(ts, n, m, name.value)
  }

  /** Each name with a mark before it. */
  ghost predicate MarkedNames(ts: Tokens, n: nat, m: nat, mark: Token, names: seq<string>)
    decreases |names|
  {
    if names == [] then m == n
    else TokenAt(ts, n, mark) && NameReads(ts, n + 1, n + 2, names[0]) && MarkedNames(ts, n + 2, m, mark, names[1..])
  }

  ghost predicate HeadReads(ts: Tokens, n: nat, m: nat, variable: Option<string>, labels: seq<string>) {
    TokenAt(ts, n, LParen)
    && exists a: nat :: OptionalName(ts, n + 1, a, variable) && MarkedNames(ts, a, m, Punct(Colon), labels)
  }

  ghost predicate NodeReads(ts: Tokens, n: nat, m: nat, node: NodePattern) {
    m >= 1 && TokenAt(ts, m - 1, RParen)
    && exists a: nat :: HeadReads(ts, n, a, node.variable, node.labels) && MapReads(ts, a, m - 1, node.properties)
  }

  /** A hop count: not negative, cut to 32 bits. */
  predicate CountReads(ts: Tokens, n: nat, count: nat) {
    n < |ts|
    && match ts[n]
       case Integer(k) => k >= 0 && count == k % 0x1_0000_0000
       case _ => false
  }

  /** Nothing for a single relationship; `*` for one or more, `*n` for exactly `n`, and ranges in
      which a missing lower end is 1 and a missing upper end is none. */
  predicate HopsRead(ts: Tokens, n: nat, m: nat, h: Hops) {
    match h
    case Hops(None, most) => m == n && most == None
    case Hops(Some(least), None) =>
      && TokenAt(ts, n, Star)
      && (|| (m == n + 1 && least == 1)
          || (m == n + 2 && least == 1 && TokenAt(ts, n + 1, Punct(DoubleDot)))
          || (m == n + 3 && CountReads(ts, n + 1, least) && TokenAt(ts, n + 2, Punct(DoubleDot))))
    case Hops(Some(least), Some(most)) =>
      && TokenAt(ts, n, Star)
      && (|| (m == n + 2 && CountReads(ts, n + 1, least) && most == least)
          || (m == n + 3 && least == 1 && TokenAt(ts, n + 1, Punct(DoubleDot)) && CountReads(ts, n + 2, most))
          || (m == n + 4 && CountReads(ts, n + 1, least) && TokenAt(ts, n + 2, Punct(DoubleDot)) && CountReads(ts, n + 3, most)))
  }

  ghost predicate TypesRead(ts: Tokens, n: nat, m: nat, types: seq<string>) {
    if types == [] then m == n
    else TokenAt(ts, n, Punct(Colon)) && NameReads(ts, n + 1, n + 2, types[0]) && MarkedNames(ts, n + 2, m, Punct(Pipe), types[1..])
  }

  ghost predicate ContentReads(ts: Tokens, n: nat, m: nat, c: Content) {
    exists a: nat, b: nat, d: nat ::
      && OptionalName(ts, n, a, c.variable) && TypesRead(ts, a, b, c.types)
      && HopsRead(ts, b, d, c.hops) && MapReads(ts, d, m, c.properties)
  }

  ghost predicate BracketsRead(ts: Tokens, n: nat, m: nat, c: Content) {
    TokenAt(ts, n, LBracket) && m >= 1 && TokenAt(ts, m - 1, RBracket) && ContentReads(ts, n + 1, m - 1, c)
  }

  /** `-[..]->`, `<-[..]-`, `-[..]-` or `--`. */
  ghost predicate RelationshipReads(ts: Tokens, n: nat, m: nat, direction: Direction, c: Content) {
    || (&& m >= 1 && BracketsRead(ts, n + 1, m - 1, c)
        && match direction
           case Outgoing => TokenAt(ts, n, Minus) && TokenAt(ts, m - 1, Punct(ArrowRight))
           case Incoming => TokenAt(ts, n, Punct(ArrowLeft)) && TokenAt(ts, m - 1, Minus)
           case Undirected => TokenAt(ts, n, Minus) && TokenAt(ts, m - 1, Minus))
    || (direction == Undirected && c == Content(None, [], None, SINGLE) && Reads(ts, n, m, [Punct(DoubleDash)]))
  }

  ghost predicate ElementReads(ts: Tokens, n: nat, m: nat, e: Element) {
    match e
    case NodeElement(node) => NodeReads(ts, n, m, node)
    case RelationshipElement(direction, c) => RelationshipReads(ts, n, m, direction, c)
  }

  ghost predicate ElementsRead(ts: Tokens, n: nat, m: nat, es: seq<Element>)
    decreases |es|
  {
    if es == [] then m == n
    else exists a: nat :: ElementReads(ts, n, a, es[0]) && ElementsRead(ts, a, m, es[1..])
  }

  /** Nodes and relationships in turn, a node first and last. */
  ghost predicate ChainReads(ts: Tokens, n: nat, m: nat, es: seq<Element>) {
    Alternates(es) && ElementsRead(ts, n, m, es)
  }

  ghost function AChain(ts: Tokens): (nat, nat, seq<Element>) -> bool {
    (n: nat, m: nat, x) => ChainReads(ts, n, m, x)
  }

  ghost predicate PatternReads(ts: Tokens, n: nat, m: nat, p: Pattern) {
    Listed(ts, n, m, p.chains, AChain(ts))
  }

  // ---------------------------------------------------------------------------
  // Parts of clauses
  // ---------------------------------------------------------------------------

  ghost predicate TailReads(ts: Tokens, n: nat, m: nat, keyword: Keyword, e: Option<Expression>) {
    if e.None? then m == n else TokenAt(ts, n, Word(keyword)) && ExprReads(ts, n + 1, m, e.value)
  }

  ghost predicate AtTimeReads(ts: Tokens, n: nat, m: nat, e: Option<Expression>) {
    if e.None? then m == n
    else TokenAt(ts, n, Word(Keyword.At)) && TokenAt(ts, n + 1, Word(Time)) && ExprReads(ts, n + 2, m, e.value)
  }

  ghost predicate TemporalReads(ts: Tokens, n: nat, m: nat, t: Option<TemporalPredicate>) {
    match t
    case None => m == n
    case Some(AsOf(at)) => AtTimeReads(ts, n, m, Some(at))
    case Some(BetweenTimes(start, end)) =>
      TokenAt(ts, n, Word(Between)) && TokenAt(ts, n + 1, Word(Time))
      && exists a: nat :: BoundReads(ts, n + 2, a, start) && TokenAt(ts, a, And) && BoundReads(ts, a + 1, m, end)
  }

  ghost predicate ItemReads(ts: Tokens, n: nat, m: nat, item: ReturnItem) {
    if item.alias.None? then ExprReads(ts, n, m, item.expr)
    else m >= 2 && ExprReads(ts, n, m - 2, item.expr) && TokenAt(ts, m - 2, Word(As)) && NameReads(ts, m - 1, m, item.alias.value)
  }

  ghost function AnItem(ts: Tokens): (nat, nat, ReturnItem) -> bool {
    (n: nat, m: nat, x) => ItemReads(ts, n, m, x)
  }

  ghost predicate ItemsRead(ts: Tokens, n: nat, m: nat, items: seq<ReturnItem>) {
    Listed(ts, n, m, items, AnItem(ts))
  }

  ghost predicate OrderItemReads(ts: Tokens, n: nat, m: nat, item: OrderItem) {
    || (item.ascending && ExprReads(ts, n, m, item.expr))
    || (m >= 1 && ExprReads(ts, n, m - 1, item.expr) && TokenAt(ts, m - 1, Word(if item.ascending then Asc else Desc)))
  }

  ghost function AnOrderItem(ts: Tokens): (nat, nat, OrderItem) -> bool {
    (n: nat, m: nat, x) => OrderItemReads(ts, n, m, x)
  }

  ghost predicate OrderReads(ts: Tokens, n: nat, m: nat, order: Option<seq<OrderItem>>) {
    if order.None? then m == n
    else
      && TokenAt(ts, n, Word(Order)) && TokenAt(ts, n + 1, Word(By))
      && Listed(ts, n + 2, m, order.value, AnOrderItem(ts))
  }

  /** A variable, or a target with a dot and a name. */
  predicate TargetReads(ts: Tokens, n: nat, m: nat, e: Expression) {
    match e
    case Variable(name) => NameReads(ts, n, m, name)
    case Property(base, prop) => m >= 2 && TargetReads(ts, n, m - 2, base) && TokenAt(ts, m - 2, Dot) && NameReads(ts, m - 1, m, prop)
    case _ => false
  }

  ghost predicate SetItemReads(ts: Tokens, n: nat, m: nat, item: SetItem) {
    exists a: nat :: TargetReads(ts, n, a, item.target) && TokenAt(ts, a, Eq) && ExprReads(ts, a + 1, m, item.value)
  }

  ghost function ASetItem(ts: Tokens): (nat, nat, SetItem) -> bool {
    (n: nat, m: nat, x) => SetItemReads(ts, n, m, x)
  }

  ghost predicate SetsRead(ts: Tokens, n: nat, m: nat, items: seq<SetItem>) {
    Listed(ts, n, m, items, ASetItem(ts))
  }

  predicate RemoveItemReads(ts: Tokens, n: nat, m: nat, item: RemoveItem) {
    && m == n + 3
    && match item
       case RemoveLabel(variable, name) =>
         NameReads(ts, n, n + 1, variable) && TokenAt(ts, n + 1, Punct(Colon)) && NameReads(ts, n + 2, m, name)
       case RemoveProperty(e) => e.Property? && e.base.Variable? && TargetReads(ts, n, m, e)
  }

  ghost function ARemoveItem(ts: Tokens): (nat, nat, RemoveItem) -> bool {
    (n: nat, m: nat, x) => RemoveItemReads(ts, n, m, x)
  }

  ghost predicate ParticipantReads(ts: Tokens, n: nat, m: nat, p: Participant) {
    NameReads(ts, n, n + 1, p.name) && AtTimeReads(ts, n + 1, m, p.at)
  }

  ghost function AParticipant(ts: Tokens): (nat, nat, Participant) -> bool {
    (n: nat, m: nat, x) => ParticipantReads(ts, n, m, x)
  }

  ghost predicate ParticipantsRead(ts: Tokens, n: nat, m: nat, ps: seq<Participant>) {
    && TokenAt(ts, n, LParen) && m >= 1 && TokenAt(ts, m - 1, RParen)
    && if ps == [] then m == n + 2 else Listed(ts, n + 1, m - 1, ps, AParticipant(ts))
  }

  ghost predicate MatchReads(ts: Tokens, n: nat, m: nat, body: MatchBody) {
    TokenAt(ts, n, Word(Match))
    && exists a: nat, b: nat ::
         PatternReads(ts, n + 1, a, body.pattern) && TemporalReads(ts, a, b, body.temporal) && TailReads(ts, b, m, Where, body.filter)
  }

  /** ON MATCH SET or ON CREATE SET with its items. */
  ghost predicate PartReads(ts: Tokens, n: nat, m: nat, part: MergeActions) {
    TokenAt(ts, n, Word(On)) && TokenAt(ts, n + 2, Word(Set))
    && if TokenAt(ts, n + 1, Word(Match)) then part.onCreate == [] && SetsRead(ts, n + 3, m, part.onMatch)
       else TokenAt(ts, n + 1, Word(Create)) && part.onMatch == [] && SetsRead(ts, n + 3, m, part.onCreate)
  }

  function Together(a: MergeActions, b: MergeActions): MergeActions {
    MergeActions(a.onMatch + b.onMatch, a.onCreate + b.onCreate)
  }

  /** Such parts in any order and number. */
  ghost predicate ActionsRead(ts: Tokens, n: nat, m: nat, a: MergeActions)
    decreases |ts| - n
  {
    if m == n then a == MergeActions([], [])
    else n < |ts| && exists k: nat, part, rest :: k > n && PartReads(ts, n, k, part) && ActionsRead(ts, k, m, rest) && a == Together(part, rest)
  }

  ghost predicate DistinctReads(ts: Tokens, n: nat, m: nat, distinct: bool) {
    if distinct then Reads(ts, n, m, [Distinct]) else m == n
  }

  // ---------------------------------------------------------------------------
  // Clauses
  // ---------------------------------------------------------------------------

  ghost predicate ReturnReads(ts: Tokens, n: nat, m: nat, c: Clause)
    requires c.ReturnC?
  {
    TokenAt(ts, n, Word(Return))
    && exists i: nat, o: nat, s: nat, l: nat ::
         && DistinctReads(ts, n + 1, i, c.distinct) && ItemsRead(ts, i, o, c.items) && OrderReads(ts, o, s, c.order)
         && TailReads(ts, s, l, Skip, c.skip) && TailReads(ts, l, m, Limit, c.limit)
  }

  ghost predicate WithReads(ts: Tokens, n: nat, m: nat, c: Clause)
    requires c.WithC?
  {
    TokenAt(ts, n, Word(With))
    && exists i: nat, f: nat :: DistinctReads(ts, n + 1, i, c.distinct) && ItemsRead(ts, i, f, c.items) && TailReads(ts, f, m, Where, c.filter)
  }

  ghost predicate IndexReads(ts: Tokens, n: nat, m: nat, c: Clause)
    requires c.CreateIndexC?
  {
    var first := if c.onEdges then [Word(Create), Word(Edge), Word(Index)] else [Word(Create), Word(Index)];
    && Reads(ts, n, n + |first|, first) && m >= 6 && OptionalName(ts, n + |first|, m - 6, c.name)
    && TokenAt(ts, m - 6, Word(On)) && TokenAt(ts, m - 5, Punct(Colon)) && NameReads(ts, m - 4, m - 3, c.target)
    && TokenAt(ts, m - 3, LParen) && NameReads(ts, m - 2, m - 1, c.property) && TokenAt(ts, m - 1, RParen)
  }

  ghost predicate SnapshotReads(ts: Tokens, n: nat, m: nat, c: Clause)
    requires c.CreateSnapshotC?
  {
    Reads(ts, n, n + 2, [Word(Create), Word(Snapshot)]) && !c.from.optional
    && exists a: nat, f: nat, r: nat ::
         && NodeReads(ts, n + 2, a, c.node) && AtTimeReads(ts, a, f, c.anchor) && TokenAt(ts, f, Word(From))
         && MatchReads(ts, f + 1, r, c.from) && TokenAt(ts, r, Word(Return)) && ItemsRead(ts, r + 1, m, c.returned)
  }

  /** TO, in any case. */
  predicate ToReads(ts: Tokens, n: nat) {
    n < |ts| && (ts[n] == Ident("TO") || ts[n] == Ident("To") || ts[n] == Ident("tO") || ts[n] == Ident("to"))
  }

  ghost predicate EndsRead(ts: Tokens, n: nat, m: nat, sources: seq<Participant>, targets: seq<Participant>) {
    TokenAt(ts, n, Word(From))
    && exists s: nat :: ParticipantsRead(ts, n + 1, s, sources) && ToReads(ts, s) && ParticipantsRead(ts, s + 1, m, targets)
  }

  ghost predicate HyperedgeReads(ts: Tokens, n: nat, m: nat, c: Clause)
    requires c.CreateHyperedgeC?
  {
    Reads(ts, n, n + 2, [Word(Create), Word(Hyperedge)])
    && exists h: nat ::
         HeadReads(ts, n + 2, h, c.variable, c.labels) && TokenAt(ts, h, RParen) && EndsRead(ts, h + 1, m, c.sources, c.targets)
  }

  /** The tokens from `n` to `m` are this clause. */
  ghost predicate ClauseReads(ts: Tokens, n: nat, m: nat, c: Clause) {
    match c
    case MatchC(body) =>
      if body.optional then TokenAt(ts, n, Word(Optional)) && MatchReads(ts, n + 1, m, body) else MatchReads(ts, n, m, body)
    case ReturnC(_, _, _, _, _) => ReturnReads(ts, n, m, c)
    case CreateC(pattern) => TokenAt(ts, n, Word(Create)) && PatternReads(ts, n + 1, m, pattern)
    case SetC(sets) => TokenAt(ts, n, Word(Set)) && SetsRead(ts, n + 1, m, sets)
    case RemoveC(removes) =>
      TokenAt(ts, n, Word(Remove)) && Listed(ts, n + 1, m, removes, ARemoveItem(ts))
    case DeleteC(detach, exprs) =>
      var d := if detach then n + 1 else n;
      && (detach ==> TokenAt(ts, n, Word(Detach))) && TokenAt(ts, d, Word(Delete))
      && Listed(ts, d + 1, m, exprs, AnExpr(ts))
    case WithC(_, _, _) => WithReads(ts, n, m, c)
    case MergeC(pattern, actions) =>
      TokenAt(ts, n, Word(Merge)) && exists a: nat :: PatternReads(ts, n + 1, a, pattern) && ActionsRead(ts, a, m, actions)
    case UnwindC(e, element) =>
      TokenAt(ts, n, Word(Unwind)) && m >= 2 && ExprReads(ts, n + 1, m - 2, e) && TokenAt(ts, m - 2, Word(As)) && NameReads(ts, m - 1, m, element)
    case CreateIndexC(_, _, _, _) => IndexReads(ts, n, m, c)
    case DropIndexC(name) => Reads(ts, n, n + 2, [Word(Drop), Word(Index)]) && NameReads(ts, n + 2, m, name)
    case CreateSnapshotC(_, _, _, _) => SnapshotReads(ts, n, m, c)
    case CreateHyperedgeC(_, _, _, _) => HyperedgeReads(ts, n, m, c)
    case MatchHyperedgeC(variable, labels) =>
      Reads(ts, n, n + 2, [Word(Match), Word(Hyperedge)]) && m >= 1 && HeadReads(ts, n + 2, m - 1, variable, labels) && TokenAt(ts, m - 1, RParen)
  }
}
