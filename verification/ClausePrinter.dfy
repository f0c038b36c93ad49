/** The text of a pattern or a clause, with every keyword and mark written out. A style settles
    what may be written in several ways. */
module ClausePrinter {
  import opened Wrappers
  import opened Syntax
  import opened Grammar
  import opened Printer
  import opened Patterns
  import opened Clauses

  /** Names with or without backticks; ASC written or left out; hop counts short, with leading
      dots, or in full; `--` for a relationship without content; ON CREATE before ON MATCH; one
      ON part for each item or one for all; the letters of TO. */
  datatype Style = Style(quoted: bool, asc: bool, hops: HopStyle, dashes: bool, createFirst: bool, split: bool, to: string)

  datatype HopStyle = Short | Dotted | Full

  predicate GoodStyle(st: Style) {
    st.to == "TO" || st.to == "To" || st.to == "tO" || st.to == "to"
  }

  // ---------------------------------------------------------------------------
  // Names, expressions, lists
  // ---------------------------------------------------------------------------

  function Name(st: Style, name: string): Token {
    if st.quoted then BacktickIdent(name) else Ident(name)
  }

  function NameText(st: Style, name: Option<string>): Tokens {
    if name.Some? then [Name(st, name.value)] else []
  }

  function ExprText(e: Expression): Tokens {
    PrintExpression(e)
  }

  /** An expression after a keyword, if there is one. */
  function TailText(keyword: Keyword, e: Option<Expression>): Tokens {
    if e.Some? then [Word(keyword)] + ExprText(e.value) else []
  }

  /** Texts with commas between them. */
  function Commas<T>(items: seq<T>, text: T -> Tokens): Tokens {
    if items == [] then []
    else if |items| == 1 then text(items[0])
    else text(items[0]) + ([Comma] + Commas(items[1..], text))
  }

  // ---------------------------------------------------------------------------
  // Patterns
  // ---------------------------------------------------------------------------

  function EntryText(st: Style): ((string, Expression)) -> Tokens {
    (entry: (string, Expression)) => [Name(st, entry.0), Punct(Colon)] + ExprText(entry.1)
  }

  function MapText(st: Style, m: Option<MapLiteral>): Tokens {
    if m.None? then [] else [Punct(LBrace)] + (Commas(m.value, EntryText(st)) + [Punct(RBrace)])
  }

  function LabelsText(st: Style, labels: seq<string>): Tokens {
    if labels == [] then [] else [Punct(Colon), Name(st, labels[0])] + LabelsText(st, labels[1..])
  }

  function HeadText(st: Style, variable: Option<string>, labels: seq<string>): Tokens {
    [LParen] + (NameText(st, variable) + LabelsText(st, labels))
  }

  function NodeText(st: Style, n: NodePattern): Tokens {
    HeadText(st, n.variable, n.labels) + (MapText(st, n.properties) + [RParen])
  }

  /** `*`, `*n`, `*n..`, `*n..m`, `*..m` or `*..`; nothing for a single relationship. */
  function HopsText(st: Style, h: Hops): Tokens {
    match h
    case Hops(None, _) => []
    case Hops(Some(least), None) =>
      if least == 1 && st.hops == Short then [Star]
      else if least == 1 && st.hops == Dotted then [Star, Punct(DoubleDot)]
      else [Star, Integer(least), Punct(DoubleDot)]
    case Hops(Some(least), Some(most)) =>
      if least == most && st.hops == Short then [Star, Integer(least)]
      else if least == 1 && st.hops == Dotted then [Star, Punct(DoubleDot), Integer(most)]
      else [Star, Integer(least), Punct(DoubleDot), Integer(most)]
  }

  function MoreTypesText(st: Style, types: seq<string>): Tokens {
    if types == [] then [] else [Punct(Pipe), Name(st, types[0])] + MoreTypesText(st, types[1..])
  }

  function TypesText(st: Style, types: seq<string>): Tokens {
    if types == [] then [] else [Punct(Colon), Name(st, types[0])] + MoreTypesText(st, types[1..])
  }

  function ContentText(st: Style, c: Content): Tokens {
    NameText(st, c.variable) + (TypesText(st, c.types) + (HopsText(st, c.hops) + MapText(st, c.properties)))
  }

  const NO_CONTENT := Content(None, [], None, SINGLE)

  function BracketsText(st: Style, c: Content): Tokens {
    [LBracket] + (ContentText(st, c) + [RBracket])
  }

  /** An arrow on the right goes out, an arrow on the left comes in. */
  function ElementText(st: Style, e: Element): Tokens {
    match e
    case NodeElement(node) => NodeText(st, node)
    case RelationshipElement(Outgoing, c) => [Minus] + (BracketsText(st, c) + [Punct(ArrowRight)])
    case RelationshipElement(Incoming, c) => [Punct(ArrowLeft)] + (BracketsText(st, c) + [Minus])
    case RelationshipElement(Undirected, c) =>
      if st.dashes && c == NO_CONTENT then [Punct(DoubleDash)] else [Minus] + (BracketsText(st, c) + [Minus])
  }

  function ElementsText(st: Style, es: seq<Element>): Tokens {
    if es == [] then [] else ElementText(st, es[0]) + ElementsText(st, es[1..])
  }

  function ChainText(st: Style): seq<Element> -> Tokens {
    (es: seq<Element>) => ElementsText(st, es)
  }

  function PatternText(st: Style, p: Pattern): Tokens {
    Commas(p.chains, ChainText(st))
  }

  // ---------------------------------------------------------------------------
  // Parts of clauses
  // ---------------------------------------------------------------------------

  function ItemText(st: Style): ReturnItem -> Tokens {
    (item: ReturnItem) => ExprText(item.expr) + if item.alias.Some? then [Word(As), Name(st, item.alias.value)] else []
  }

  function DistinctText(distinct: bool): Tokens {
    if distinct then [Distinct] else []
  }

  function OrderItemText(st: Style): OrderItem -> Tokens {
    (item: OrderItem) => ExprText(item.expr) + if !item.ascending then [Word(Desc)] else if st.asc then [Word(Asc)] else []
  }

  function OrderText(st: Style, order: Option<seq<OrderItem>>): Tokens {
    if order.None? then [] else [Word(Order), Word(By)] + Commas(order.value, OrderItemText(st))
  }

  function TargetText(st: Style, e: Expression): Tokens {
    match e
    case Variable(name) => [Name(st, name)]
    case Property(base, prop) => TargetText(st, base) + [Dot, Name(st, prop)]
    case _ => []
  }

  function SetItemText(st: Style): SetItem -> Tokens {
    (item: SetItem) => TargetText(st, item.target) + ([Eq] + ExprText(item.value))
  }

  function RemoveItemText(st: Style): RemoveItem -> Tokens {
    (item: RemoveItem) =>
      match item
      case RemoveLabel(variable, tag) => [Name(st, variable), Punct(Colon), Name(st, tag)]
      case RemoveProperty(e) => TargetText(st, e)
  }

  function AtTimeText(at: Option<Expression>): Tokens {
    if at.None? then [] else [Word(Keyword.At), Word(Time)] + ExprText(at.value)
  }

  function ParticipantText(st: Style): Participant -> Tokens {
    (p: Participant) => [Name(st, p.name)] + AtTimeText(p.at)
  }

  function ParticipantsText(st: Style, ps: seq<Participant>): Tokens {
    [LParen] + (Commas(ps, ParticipantText(st)) + [RParen])
  }

  /** The bounds of BETWEEN TIME are printed so that no AND or OR of theirs stands bare. */
  function TemporalText(t: Option<TemporalPredicate>): Tokens {
    match t
    case None => []
    case Some(AsOf(at)) => [Word(Keyword.At), Word(Time)] + ExprText(at)
    case Some(BetweenTimes(start, end)) =>
      [Word(Between), Word(Time)] + (Print(start, 4, 3, []) + ([And] + Print(end, 4, INERT, [])))
  }

  function MatchText(st: Style, m: MatchBody): Tokens {
    [Word(Match)] + (PatternText(st, m.pattern) + (TemporalText(m.temporal) + TailText(Where, m.filter)))
  }

  /** ON MATCH SET or ON CREATE SET, once for all items or once for each. */
  function PartsText(st: Style, event: Keyword, items: seq<SetItem>): Tokens {
    if items == [] then []
    else if st.split then
      [Word(On), Word(event), Word(Set)] + (SetItemText(st)(items[0]) + PartsText(st, event, items[1..]))
    else [Word(On), Word(event), Word(Set)] + Commas(items, SetItemText(st))
  }

  function ActionsText(st: Style, a: MergeActions): Tokens {
    if st.createFirst then PartsText(st, Create, a.onCreate) + PartsText(st, Match, a.onMatch)
    else PartsText(st, Match, a.onMatch) + PartsText(st, Create, a.onCreate)
  }

  // ---------------------------------------------------------------------------
  // Clauses
  // ---------------------------------------------------------------------------

  function ClauseText(st: Style, c: Clause): Tokens {
    match c
    case MatchC(body) => if body.optional then [Word(Optional)] + MatchText(st, body) else MatchText(st, body)
    case ReturnC(distinct, items, order, skip, limit) =>
      [Word(Return)] + (DistinctText(distinct) + (Commas(items, ItemText(st)) +
        (OrderText(st, order) + (TailText(Skip, skip) + TailText(Limit, limit)))))
    case CreateC(pattern) => [Word(Create)] + PatternText(st, pattern)
    case SetC(sets) => [Word(Set)] + Commas(sets, SetItemText(st))
    case RemoveC(removes) => [Word(Remove)] + Commas(removes, RemoveItemText(st))
    case DeleteC(detach, exprs) =>
      (if detach then [Word(Detach)] else []) + ([Word(Delete)] + Commas(exprs, ExprText))
    case WithC(distinct, items, filter) =>
      [Word(With)] + (DistinctText(distinct) + (Commas(items, ItemText(st)) + TailText(Where, filter)))
    case MergeC(pattern, actions) => [Word(Merge)] + (PatternText(st, pattern) + ActionsText(st, actions))
    case UnwindC(expr, element) => [Word(Unwind)] + (ExprText(expr) + [Word(As), Name(st, element)])
    case CreateIndexC(onEdges, name, target, property) =>
      (if onEdges then [Word(Create), Word(Edge), Word(Index)] else [Word(Create), Word(Index)]) + (NameText(st, name) +
        [Word(On), Punct(Colon), Name(st, target), LParen, Name(st, property), RParen])
    case DropIndexC(dropped) => [Word(Drop), Word(Index), Name(st, dropped)]
    case CreateSnapshotC(node, anchor, from, returned) =>
      [Word(Create), Word(Snapshot)] + (NodeText(st, node) + (AtTimeText(anchor) + ([Word(From)] + (MatchText(st, from) +
        ([Word(Return)] + Commas(returned, ItemText(st)))))))
    case CreateHyperedgeC(variable, labels, sources, targets) =>
      [Word(Create), Word(Hyperedge)] + (HeadText(st, variable, labels) + ([RParen, Word(From)] + (ParticipantsText(st, sources) +
        ([Ident(st.to)] + ParticipantsText(st, targets)))))
    case MatchHyperedgeC(variable, labels) => [Word(Match), Word(Hyperedge)] + (HeadText(st, variable, labels) + [RParen])
  }

  // ---------------------------------------------------------------------------
  // The clauses that have a text
  // ---------------------------------------------------------------------------

  predicate GoodOption(e: Option<Expression>) {
    e.Some? ==> Producible(e.value)
  }

  predicate GoodMap(m: Option<MapLiteral>) {
    m.Some? ==> forall i | 0 <= i < |m.value| :: Producible(m.value[i].1)
  }

  predicate GoodHops(h: Hops) {
    h == SINGLE || (h.least.Some? && h.least.value < 0x1_0000_0000 && (h.greatest.Some? ==> h.greatest.value < 0x1_0000_0000))
  }

  predicate GoodElement(e: Element) {
    match e
    case NodeElement(node) => GoodMap(node.properties)
    case RelationshipElement(_, c) => GoodHops(c.hops) && GoodMap(c.properties)
  }

  predicate GoodChain(es: seq<Element>) {
    Alternates(es) && forall i | 0 <= i < |es| :: GoodElement(es[i])
  }

  predicate GoodPattern(p: Pattern) {
    p.chains != [] && forall i | 0 <= i < |p.chains| :: GoodChain(p.chains[i])
  }

  predicate GoodTemporal(t: Option<TemporalPredicate>) {
    match t
    case None => true
    case Some(AsOf(at)) => Producible(at)
    case Some(BetweenTimes(start, end)) => Producible(start) && Producible(end)
  }

  predicate GoodMatch(m: MatchBody) {
    GoodPattern(m.pattern) && GoodTemporal(m.temporal) && GoodOption(m.filter)
  }

  predicate GoodItems(items: seq<ReturnItem>) {
    items != [] && forall i | 0 <= i < |items| :: Producible(items[i].expr)
  }

  /** A variable with properties of properties. */
  predicate IsTarget(e: Expression) {
    e.Variable? || (e.Property? && IsTarget(e.base))
  }

  predicate GoodSets(sets: seq<SetItem>) {
    forall i | 0 <= i < |sets| :: IsTarget(sets[i].target) && Producible(sets[i].value)
  }

  predicate GoodRemove(item: RemoveItem) {
    item.RemoveProperty? ==> item.expr.Property? && item.expr.base.Variable?
  }

  predicate GoodParticipants(ps: seq<Participant>) {
    forall i | 0 <= i < |ps| :: GoodOption(ps[i].at)
  }

  predicate GoodClause(c: Clause) {
    match c
    case MatchC(body) => GoodMatch(body)
    case ReturnC(_, items, order, skip, limit) =>
      && GoodItems(items) && GoodOption(skip) && GoodOption(limit)
      && (order.Some? ==> order.value != [] && forall i | 0 <= i < |order.value| :: Producible(order.value[i].expr))
    case CreateC(pattern) => GoodPattern(pattern)
    case SetC(sets) => sets != [] && GoodSets(sets)
    case RemoveC(removes) => removes != [] && forall i | 0 <= i < |removes| :: GoodRemove(removes[i])
    case DeleteC(_, exprs) => exprs != [] && forall i | 0 <= i < |exprs| :: Producible(exprs[i])
    case WithC(_, items, filter) => GoodItems(items) && GoodOption(filter)
    case MergeC(pattern, actions) => GoodPattern(pattern) && GoodSets(actions.onMatch) && GoodSets(actions.onCreate)
    case UnwindC(expr, _) => Producible(expr)
    case CreateSnapshotC(node, anchor, from, returned) =>
      GoodMap(node.properties) && GoodOption(anchor) && GoodMatch(from) && !from.optional && GoodItems(returned)
    case CreateHyperedgeC(_, _, sources, targets) => GoodParticipants(sources) && GoodParticipants(targets)
    case _ => true
  }
}
